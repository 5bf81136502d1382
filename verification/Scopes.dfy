/** Scope snapshots and the disposal of a scope tree (lifecycle.rs, `ScopeSnapshot`). */
module Scopes {
  import opened Basics
  import opened Effects

  datatype Lifecycle = Ready | Active | Quiescing | Disposing | Disposed | Failed

  datatype ScopeReport = ScopeReport(
    scope: Id, outcome: Outcome, timedOut: bool, remainingTasks: nat,
    remainingLeases: nat,   // the raw counter: leases held, and attempts on their way to being refused
    children: seq<ScopeReport>, plugins: seq<PluginReport>)

  datatype PluginReport = PluginReport(instance: Instance, effects: EffectReport)

  /** The guarded list of a scope's children. */
  class ChildList {
    var items: seq<ScopeSnapshot>

    constructor ()
      ensures items == []
    {
      items := [];
    }

    /** Takes out the first occurrence of `expected`, if there is one, and appends the candidate. */
    method Replace(expected: ScopeSnapshot?, candidate: ScopeSnapshot)
      modifies this
      ensures items == WithoutFirst(old(items), expected) + [candidate]
    {
      var i := 0;
      while i < |items| && items[i] != expected
        invariant i <= |items| && expected !in items[..i]
      {
        assert items[..i+1] == items[..i] + [items[i]];
        i := i + 1;
      }
      WithoutFirstAt(items, expected, i);
      if i < |items| {
        items := items[..i] + items[i+1..];
      }
      items := items + [candidate];
    }

    method Remove(expected: ScopeSnapshot)
      modifies this
      ensures items == Without(old(items), expected)
    {
      var kept: seq<ScopeSnapshot> := [];
      for i := 0 to |items|
        invariant items == old(items) && kept == Without(items[..i], expected)
      {
        assert items[..i+1][..i] == items[..i];
        if items[i] != expected {
          kept := kept + [items[i]];
        }
      }
      assert items[..|items|] == items;
      items := kept;
    }
  }

  class ScopeSnapshot {
    const id: Id
    const parent: Option<Id>
    const registry: RegistryHub
    const plugins: seq<EffectStack>
    const children: ChildList
    var state: Lifecycle
    var routing: bool
    var accepting: bool
    var cancelled: bool
    var leases: nat     // leases held on the registry
    var tasks: nat      // tasks spawned and not finished
    var report: Option<ScopeReport>
    /** Distance from the leaves that this kind of scope can have; children sit strictly lower. */
    ghost const height: nat

    constructor (id: Id, parent: Option<Id>, registry: RegistryHub, plugins: seq<EffectStack>, ghost height: nat)
      ensures this.id == id && this.parent == parent && this.registry == registry && this.plugins == plugins
      ensures this.height == height && fresh(children) && children.items == []
      ensures state == Ready && !routing && accepting && !cancelled && leases == 0 && tasks == 0 && report.None?
    {
      this.id, this.parent, this.registry, this.plugins, this.height := id, parent, registry, plugins, height;
      state, routing, accepting, cancelled, leases, tasks := Ready, false, true, false, 0, 0;
      report := None;
      children := new ChildList();
    }

    method MarkActive() returns (ok: bool)
      modifies this`state, this`routing
      ensures ok <==> old(state) == Ready
      ensures ok ==> state == Active && routing
      ensures !ok ==> state == old(state) && routing == old(routing)
    {
      if state != Ready {
        return false;
      }
      state := Active;
      routing := true;
      return true;
    }

    method BeginQuiesce()
      modifies this`state, this`routing, this`accepting, this`cancelled
      ensures state == if old(state) == Ready || old(state) == Active then Quiescing else old(state)
      ensures !routing && !accepting && cancelled
    {
      if state == Ready || state == Active {
        state := Quiescing;
      }
      routing := false;
      accepting := false;
      cancelled := true;
    }

    method AttachChild(child: ScopeSnapshot) returns (ok: bool)
      modifies children
      ensures ok <==> (state == Ready || state == Active) && child.parent == Some(id)
      ensures children.items == if ok then old(children.items) + [child] else old(children.items)
    {
      if !(state == Ready || state == Active) || child.parent != Some(id) {
        return false;
      }
      children.items := children.items + [child];
      return true;
    }

    /** The leases and tasks drain, or the quiesce deadline expires first. */
    method WaitForIdle(world: World) returns (timedOut: bool)
      requires world.Valid()
      modifies this`leases, this`tasks, world`waits
      ensures world.Valid() && leases <= old(leases) && tasks <= old(tasks)
      ensures !timedOut ==> leases == 0 && tasks == 0
      ensures world.waits > old(world.waits) && (timedOut <==> world.waiting(world.waits - 1).QuiesceExpired?)
    {
      var event := world.NextEvent();
      while !event.QuiesceExpired? && (leases > 0 || tasks > 0)
        invariant world.Valid() && leases <= old(leases) && tasks <= old(tasks)
        invariant world.waits > old(world.waits) && event == world.waiting(world.waits - 1)
        decreases leases + tasks
      {
        if leases > 0 && (event.LeaseDropped? || tasks == 0) {
          leases := leases - 1;
        } else {
          tasks := tasks - 1;
        }
        event := world.NextEvent();
      }
      return event.QuiesceExpired?;
    }

    method DisposePlugin(plugin: EffectStack, world: World) returns (report: PluginReport, log: seq<Run>)
      requires plugin.Valid() && world.Valid()
      modifies plugin, registry, world
      ensures world.Valid() && world.runs == old(world.runs) + |log| && (old(world.passed) ==> world.passed)
      ensures plugin.Valid() && PluginReported(plugin, report)
      ensures old(plugin.report).Some? ==> plugin.report == old(plugin.report)
      ensures old(plugin.report).None? ==>
        log == Runs(report.effects.records) && registry.entries == Remaining(old(registry.entries), report.effects.records)
      ensures old(plugin.report).None? && !world.passed ==> NoneLate(report.effects.records)
      ensures old(plugin.report).None? && world.Kind() ==> report.effects.outcome == AllDisposed
    {
      var effects;
      effects, log := plugin.Dispose(registry, world);
      report := PluginReport(plugin.instance, effects);
    }

    /** The plugins' effect stacks, the last activated first. */
    method DisposePlugins(world: World) returns (reports: seq<PluginReport>, log: seq<Run>)
      requires Distinct(plugins) && (forall p :: p in plugins ==> p.Valid()) && world.Valid()
      modifies (set p | p in plugins), registry, world
      ensures world.Valid() && world.runs == old(world.runs) + |log| && (old(world.passed) ==> world.passed)
      ensures forall p :: p in plugins ==> p.Valid() && (old(p.report).Some? ==> p.report == old(p.report))
      ensures |reports| == |plugins| && PluginsReported(Reversed(plugins), reports)
      ensures (forall p :: p in plugins ==> old(p.report).None?) ==>
        WentThrough(reports, log, old(registry.entries), registry.entries, world.passed, world.Kind())
    {
      reports, log := [], [];
      var stacks := Reversed(plugins);
      ghost var intact := forall p :: p in plugins ==> p.report.None?;
      for i := 0 to |stacks|
        invariant world.Valid() && world.runs == old(world.runs) + |log| && (old(world.passed) ==> world.passed)
        invariant forall p :: p in plugins ==> p.Valid() && (old(p.report).Some? ==> p.report == old(p.report))
        invariant |reports| == i && PluginsReported(stacks, reports)
        invariant intact ==> NoneReported(stacks[i..])
        invariant intact ==> WentThrough(reports, log, old(registry.entries), registry.entries, world.passed, world.Kind())
      {
        var plugin := stacks[i];
        assert plugin in plugins && plugin !in stacks[i+1..] && stacks[i..] == [plugin] + stacks[i+1..];
        ghost var entries, passed := registry.entries, world.passed;
        var report, ran := DisposePlugin(plugin, world);
        if intact {
          WentOneFurther(reports, log, old(registry.entries), entries, passed, report, ran, registry.entries, world.passed, world.Kind());
        }
        reports := reports + [report];
        log := log + ran;
      }
    }

    /** A load of the lease counter, which also counts attempts between their increment and their backing out. */
    method RawCounter() returns (count: nat)
      ensures count >= leases
    {
      count := *;
      if count < leases {
        count := leases;
      }
    }

    /** One child, or its place in the report when the scope deadline has passed by its turn, and only then. */
    method DisposeChild(ghost below: Shape, child: ScopeSnapshot, world: World)
      returns (result: ScopeReport, log: seq<Run>, skipped: bool)
      requires Tree(below) && this in below && child in children.items && Hangs(below, this, child) && Sound(below) && world.Valid()
      modifies below[child], Stacks(below[child]), Registries(below[child]), world
      ensures world.Valid() && world.runs == old(world.runs) + |log| && (old(world.passed) ==> world.passed)
      ensures skipped <==> old(world.passed) || world.late(old(world.readings))
      ensures skipped ==> world.passed
      ensures Sound(below)
      ensures ChildReported(child, result) && (!skipped ==> child.report == Some(result))
      ensures forall s :: s in below && old(s.report).Some? ==> s.report == old(s.report)
      ensures old(Untouched(below[child])) ==> log == ReportRuns(result) && (world.Kind() ==> result.outcome == AllDisposed)
      ensures old(child.report).Some? ==> log == []
      ensures forall t :: Apart(below, child, t) && old(Untouched(below[t])) ==> Untouched(below[t])
      decreases height, 0, 1
    {
      skipped := world.ReadDeadline();
      if skipped {
        log := [];
        var counter := child.RawCounter();
        result := ScopeReport(child.id, SomeFailed, true, child.tasks, counter, [], []);
      } else {
        result, log := VisitChild(below, child, world);
      }
    }

    method VisitChild(ghost below: Shape, child: ScopeSnapshot, world: World) returns (result: ScopeReport, log: seq<Run>)
      requires Tree(below) && this in below && child in children.items && Hangs(below, this, child) && Sound(below) && world.Valid()
      modifies below[child], Stacks(below[child]), Registries(below[child]), world
      ensures world.Valid() && world.runs == old(world.runs) + |log| && (old(world.passed) ==> world.passed)
      ensures Sound(below)
      ensures result.scope == child.id && child.report == Some(result)
      ensures forall s :: s in below && old(s.report).Some? ==> s.report == old(s.report)
      ensures old(Untouched(below[child])) ==> log == ReportRuns(result) && (world.Kind() ==> result.outcome == AllDisposed)
      ensures old(child.report).Some? ==> log == []
      ensures forall t :: Apart(below, child, t) && old(Untouched(below[t])) ==> Untouched(below[t])
      decreases height, 0, 0
    {
      result, log := child.QuiesceAndDispose(below, world);
    }

    /** The children, the last attached first. */
    method DisposeChildren(ghost below: Shape, world: World) returns (reports: seq<ScopeReport>, log: seq<Run>, skipped: bool)
      requires Tree(below) && Owns(below, this) && Sound(below) && world.Valid()
      modifies below[this] - {this}, Stacks(below[this] - {this}), Registries(below[this] - {this}), world
      ensures world.Valid() && world.runs == old(world.runs) + |log| && (old(world.passed) ==> world.passed)
      ensures Sound(below)
      ensures |reports| == |children.items| && ChildrenReported(Reversed(children.items), reports)
      ensures forall s :: s in below && old(s.report).Some? ==> s.report == old(s.report)
      ensures skipped ==> world.passed
      ensures !skipped ==> forall c :: c in children.items ==> c.report.Some?
      ensures old(Untouched(below[this])) ==> Traced(log, reports, world.Kind())
      ensures (forall c :: c in children.items ==> old(c.report).Some?) ==> log == []
      decreases height, 1, 0
    {
      reports, log, skipped := [], [], false;
      var kids := Reversed(children.items);
      ghost var intact := Untouched(below[this]);
      ghost var before := forall c :: c in children.items ==> c.report.Some?;
      KidsBranch(below, this);
      if intact { KidsUntouched(below, this); }
      for i := 0 to |kids|
        invariant world.Valid() && world.runs == old(world.runs) + |log| && (old(world.passed) ==> world.passed)
        invariant Sound(below) && Midway(below, kids, i, reports, log, skipped, intact, before, world.passed, world.Kind())
        invariant forall s :: s in below && old(s.report).Some? ==> s.report == old(s.report)
      {
        reports, log, skipped := DisposeNext(below, kids, i, reports, log, skipped, intact, before, world);
      }
      if !skipped { AllAreReported(children.items); }
    }

    /** One more child: its report, its disposers, and whether the deadline had passed by its turn. */
    method DisposeNext(ghost below: Shape, kids: seq<ScopeSnapshot>, i: nat, reports: seq<ScopeReport>, log: seq<Run>, skipped: bool,
      ghost intact: bool, ghost before: bool, world: World)
      returns (reports': seq<ScopeReport>, log': seq<Run>, skipped': bool)
      requires Tree(below) && Owns(below, this) && Sound(below) && world.Valid()
      requires i < |kids| && Branches(below, this, kids) && forall c :: c in kids ==> c in children.items
      requires Midway(below, kids, i, reports, log, skipped, intact, before, world.passed, world.Kind())
      modifies below[this] - {this}, Stacks(below[this] - {this}), Registries(below[this] - {this}), world
      ensures world.Valid() && world.runs - |log'| == old(world.runs) - |log| && (old(world.passed) ==> world.passed)
      ensures Sound(below) && Midway(below, kids, i + 1, reports', log', skipped', intact, before, world.passed, world.Kind())
      ensures forall s :: s in below && old(s.report).Some? ==> s.report == old(s.report)
      decreases height, 0, 3
    {
      var report, ran, late := DisposeTurn(below, kids, i, reports, world);
      if intact { TracedAppend(log, reports, ran, report, world.Kind()); }
      reports', log', skipped' := reports + [report], log + ran, skipped || late;
    }

    /** The turn of one child in the list. */
    method DisposeTurn(ghost below: Shape, kids: seq<ScopeSnapshot>, i: nat, ghost reports: seq<ScopeReport>, world: World)
      returns (report: ScopeReport, ran: seq<Run>, late: bool)
      requires Tree(below) && Owns(below, this) && Sound(below) && world.Valid()
      requires i < |kids| && Branches(below, this, kids) && forall c :: c in kids ==> c in children.items
      requires |reports| == i && ChildrenReported(kids, reports)
      modifies below[this] - {this}, Stacks(below[this] - {this}), Registries(below[this] - {this}), world
      ensures world.Valid() && world.runs == old(world.runs) + |ran| && (old(world.passed) ==> world.passed)
      ensures Sound(below) && ChildrenReported(kids, reports + [report])
      ensures forall s :: s in below && old(s.report).Some? ==> s.report == old(s.report)
      ensures late ==> world.passed
      ensures !late && old(AllReported(kids, i)) ==> AllReported(kids, i + 1)
      ensures old(AllReported(kids, |kids|)) ==> |ran| == 0 && AllReported(kids, |kids|)
      ensures old(RestUntouched(below, kids, i)) ==>
        RestUntouched(below, kids, i + 1) && ran == ReportRuns(report) && (world.Kind() ==> report.outcome == AllDisposed)
      decreases height, 0, 2
    {
      assert BranchAt(below, this, kids, i);
      report, ran, late := DisposeChild(below, kids[i], world);
      forall k | 0 <= k < i ensures ChildReported(kids[k], reports[k]) {
        assert old(ChildReported(kids[k], reports[k])) && kids[k] in below;
      }
      ChildrenReportedAppend(kids, reports, report);
    }

    /** Routing, task admission and leases end before anything is disposed. */
    method Quiesce(ghost below: Shape, world: World) returns (timedOut: bool)
      requires Sound(below) && report.None? && world.Valid()
      modifies this, world`waits
      ensures world.Valid() && Sound(below) && report.None? && !routing
      ensures !timedOut ==> leases == 0 && tasks == 0
      ensures timedOut <==> world.waits > 0 && world.waiting(world.waits - 1).QuiesceExpired?
    {
      BeginQuiesce();
      timedOut := WaitForIdle(world);
      state := Lifecycle.Disposing;
      forall s | s in below ensures Vouches(s) {
        assert old(Vouches(s));
      }
    }

    /** The same, without touching what the reports of other scopes rest on. */
    method DisposeOwnPlugins(ghost below: Shape, world: World) returns (reports: seq<PluginReport>, log: seq<Run>)
      requires Sound(below) && this in below && Distinct(plugins) && world.Valid()
      modifies (set p | p in plugins), registry, world
      ensures world.Valid() && world.runs == old(world.runs) + |log| && (old(world.passed) ==> world.passed)
      ensures Sound(below)
      ensures |reports| == |plugins| && PluginsReported(Reversed(plugins), reports)
      ensures (forall p :: p in plugins ==> old(p.report).None?) ==>
        WentThrough(reports, log, old(registry.entries), registry.entries, world.passed, world.Kind())
    {
      assert Vouches(this);
      reports, log := DisposePlugins(world);
      forall s | s in below ensures Vouches(s) {
        assert old(Vouches(s));
      }
    }

    /** Draws up and caches the report once every child and every plugin has been dealt with. */
    method Conclude(ghost below: Shape, timedOut: bool, skipped: bool, childReports: seq<ScopeReport>, pluginReports: seq<PluginReport>)
      returns (result: ScopeReport)
      requires Sound(below) && report.None? && !routing && (!timedOut ==> leases == 0 && tasks == 0)
      requires |childReports| == |children.items| && ChildrenReported(Reversed(children.items), childReports)
      requires |pluginReports| == |plugins| && PluginsReported(Reversed(plugins), pluginReports)
      modifies this`state, this`report
      ensures Sound(below)
      ensures report == Some(result) && result.scope == id
      ensures result.children == childReports && result.plugins == pluginReports && result.timedOut == (timedOut || skipped)
      ensures result.remainingTasks == tasks && result.remainingLeases >= leases
      ensures Accounts(result, Reversed(children.items), Reversed(plugins))
    {
      var failed := timedOut || skipped
        || (exists r :: r in childReports && r.outcome == SomeFailed)
        || (exists r :: r in pluginReports && r.effects.outcome == SomeFailed);
      state := if failed then Lifecycle.Failed else Lifecycle.Disposed;
      var counter := RawCounter();
      result := ScopeReport(
        id, if failed then SomeFailed else AllDisposed, timedOut || skipped, tasks, counter, childReports, pluginReports);
      report := Some(result);
      if !failed {
        EveryChildClaims(children.items, childReports);
        EveryStackDisposed(plugins, pluginReports);
      }
      assert Honest(this) && Covered(this);
      forall s | s in below ensures Vouches(s) {
        assert old(Vouches(s));
        if s != this { assert s.report == old(s.report); }
      }
    }

    /** Quiesces, then disposes of the children; this scope's own effects are still as they were. */
    method QuiesceChildren(ghost below: Shape, world: World)
      returns (timedOut: bool, skipped: bool, childReports: seq<ScopeReport>, log: seq<Run>)
      requires Tree(below) && Owns(below, this) && Sound(below) && report.None? && world.Valid()
      modifies below[this], Stacks(below[this] - {this}), Registries(below[this] - {this}), world
      ensures world.Valid() && world.runs == old(world.runs) + |log| && (old(world.passed) ==> world.passed)
      ensures Sound(below) && report.None? && !routing && (!timedOut ==> leases == 0 && tasks == 0)
      ensures |childReports| == |children.items| && ChildrenReported(Reversed(children.items), childReports)
      ensures forall s :: s in below && old(s.report).Some? ==> s.report == old(s.report)
      ensures skipped ==> world.passed
      ensures !skipped ==> forall c :: c in children.items ==> c.report.Some?
      ensures old(Untouched(below[this])) ==>
        Traced(log, childReports, world.Kind()) && (world.Kind() ==> !timedOut && !skipped)
      ensures (forall c :: c in children.items ==> old(c.report).Some?) ==> log == []
      ensures forall p :: p in plugins ==> p.report == old(p.report)
      ensures registry.entries == old(registry.entries)
      decreases height, 2, 0
    {
      timedOut := Quiesce(below, world);
      OwnStacksApart(below, this);
      childReports, log, skipped := DisposeChildren(below, world);
    }

    /** What is left to do once the children have been dealt with. */
    method DisposeSelf(ghost below: Shape, timedOut: bool, skipped: bool, childReports: seq<ScopeReport>, world: World)
      returns (result: ScopeReport, log: seq<Run>)
      requires Sound(below) && this in below && Distinct(plugins) && world.Valid()
      requires report.None? && !routing && (!timedOut ==> leases == 0 && tasks == 0)
      requires |childReports| == |children.items| && ChildrenReported(Reversed(children.items), childReports)
      modifies this`state, this`report, (set p | p in plugins), registry, world
      ensures world.Valid() && world.runs == old(world.runs) + |log| && (old(world.passed) ==> world.passed)
      ensures Sound(below)
      ensures forall s :: s in below && s != this ==> s.report == old(s.report)
      ensures report == Some(result) && result.scope == id && result.children == childReports && result.timedOut == (timedOut || skipped)
      ensures Accounts(result, Reversed(children.items), Reversed(plugins))
      ensures (forall p :: p in plugins ==> old(p.report).None?) ==>
        && WentThrough(result.plugins, log, old(registry.entries), registry.entries, world.passed, world.Kind())
        && (world.Kind() && !timedOut && !skipped && ScopesSucceeded(childReports) ==> result.outcome == AllDisposed)
    {
      var pluginReports;
      pluginReports, log := DisposeOwnPlugins(below, world);
      result := Conclude(below, timedOut, skipped, childReports, pluginReports);
      if !timedOut && !skipped && ScopesSucceeded(childReports) && EffectsSucceeded(pluginReports) {
        AllSucceeded(result, Reversed(children.items), Reversed(plugins));
      }
    }

    /**
     * Disposes of the tree below this scope: children before plugins, both last first. The report is cached,
     * and a later call returns it and runs nothing. Only a deadline that has passed lets it leave anything out.
     */
    method QuiesceAndDispose(ghost below: Shape, world: World) returns (result: ScopeReport, log: seq<Run>)
      requires Tree(below) && Owns(below, this) && Sound(below) && world.Valid()
      modifies below[this], Stacks(below[this]), Registries(below[this]), world
      ensures world.Valid() && world.runs == old(world.runs) + |log| && (old(world.passed) ==> world.passed)
      ensures Sound(below)
      ensures report == Some(result) && result.scope == id
      ensures forall s :: s in below && old(s.report).Some? ==> s.report == old(s.report)
      ensures old(report).Some? ==> result == old(report).value && log == []
      ensures old(report).Some? ==>
        unchanged(below[this]) && unchanged(Stacks(below[this])) && unchanged(Registries(below[this]))
      ensures old(report).None? ==> Accounts(result, Reversed(children.items), Reversed(plugins))
      ensures old(report).None? && !world.passed ==> forall c :: c in children.items ==> c.report.Some?
      ensures old(Untouched(below[this])) ==> log == ReportRuns(result) && (world.Kind() ==> result.outcome == AllDisposed)
      ensures old(report).None? && (forall p :: p in plugins ==> old(p.report).None?) ==>
        && registry.entries == LeftOver(old(registry.entries), result.plugins)
        && (!world.passed ==> NoneSkipped(result.plugins))
        && ((forall c :: c in children.items ==> old(c.report).Some?) ==> log == PluginRuns(result.plugins))
      decreases height, 3, 0
    {
      log := [];
      if report.Some? {
        return report.value, log;
      }
      var childRuns, pluginRuns;
      result, childRuns, pluginRuns := DisposeTree(below, world);
      log := childRuns + pluginRuns;
    }

    /** A scope without children. */
    method DisposeLeaf(world: World) returns (result: ScopeReport, log: seq<Run>)
      requires children.items == [] && Distinct(plugins) && Vouches(this) && world.Valid()
      modifies this, registry, world, set p | p in plugins
      ensures world.Valid() && world.runs == old(world.runs) + |log|
      ensures Vouches(this) && report == Some(result) && children.items == []
      ensures old(report).Some? ==> result == old(report).value && log == []
      ensures old(report).None? ==> Accounts(result, [], Reversed(plugins))
      ensures old(report).None? && (forall p :: p in plugins ==> old(p.report).None?) ==>
        && log == ReportRuns(result) && registry.entries == LeftOver(old(registry.entries), result.plugins)
        && (!world.passed ==> NoneSkipped(result.plugins)) && (world.Kind() ==> result.outcome == AllDisposed)
    {
      ghost var below: Shape := map[this := {this}];
      LeafIsTree(this);
      assert (report.None? && forall p :: p in plugins ==> p.report.None?) ==> Untouched(below[this]);
      result, log := QuiesceAndDispose(below, world);
      assert Vouches(this);
    }

    /** The first and only time. */
    method DisposeTree(ghost below: Shape, world: World) returns (result: ScopeReport, childRuns: seq<Run>, pluginRuns: seq<Run>)
      requires Tree(below) && Owns(below, this) && Sound(below) && world.Valid() && report.None?
      modifies below[this], Stacks(below[this]), Registries(below[this]), world
      ensures world.Valid() && world.runs == old(world.runs) + |childRuns| + |pluginRuns| && (old(world.passed) ==> world.passed)
      ensures Sound(below)
      ensures report == Some(result) && result.scope == id
      ensures forall s :: s in below && old(s.report).Some? ==> s.report == old(s.report)
      ensures Accounts(result, Reversed(children.items), Reversed(plugins))
      ensures !world.passed ==> forall c :: c in children.items ==> c.report.Some?
      ensures old(Untouched(below[this])) ==>
        childRuns == ChildRuns(result.children) && (world.Kind() ==> result.outcome == AllDisposed)
      ensures (forall c :: c in children.items ==> old(c.report).Some?) ==> childRuns == []
      ensures (forall p :: p in plugins ==> old(p.report).None?) ==>
        WentThrough(result.plugins, pluginRuns, old(registry.entries), registry.entries, world.passed, world.Kind())
      decreases height, 2, 1
    {
      var timedOut, skipped, childReports;
      timedOut, skipped, childReports, childRuns := QuiesceChildren(below, world);
      assert forall c :: c in children.items ==> Hangs(below, this, c);
      result, pluginRuns := DisposeSelf(below, timedOut, skipped, childReports, world);
    }
  }

  lemma LeafIsTree(s: ScopeSnapshot)
    requires s.children.items == [] && Distinct(s.plugins) && Vouches(s)
    ensures var below: Shape := map[s := {s}]; Tree(below) && Owns(below, s) && Sound(below)
    ensures var below: Shape := map[s := {s}];
      below[s] == {s} && Stacks(below[s]) == (set p | p in s.plugins) && Registries(below[s]) == {s.registry}
  {
    var below: Shape := map[s := {s}];
    assert below[s] - {s} == {};
  }

  /** After the turns of the first `i` children. */
  ghost predicate Midway(below: Shape, kids: seq<ScopeSnapshot>, i: nat, reports: seq<ScopeReport>, log: seq<Run>, skipped: bool,
    intact: bool, before: bool, passed: bool, kind: bool)
    requires forall c :: c in kids ==> c in below
    reads (set c | c in kids)`report
    reads set c, x | c in kids && x in below[c] :: x
    reads set c, x, p | c in kids && x in below[c] && p in x.plugins :: p
  {
    && |reports| == i && ChildrenReported(kids, reports)
    && (skipped ==> passed) && (!skipped ==> AllReported(kids, i))
    && (intact ==> Traced(log, reports, kind) && RestUntouched(below, kids, i))
    && (before ==> |log| == 0 && AllReported(kids, |kids|))
  }

  ghost predicate AllReported(kids: seq<ScopeSnapshot>, n: int)
    reads (set c | c in kids)`report
  {
    forall j :: 0 <= j < n && j < |kids| ==> kids[j].report.Some?
  }

  lemma AllAreReported(items: seq<ScopeSnapshot>)
    requires AllReported(Reversed(items), |items|)
    ensures forall c :: c in items ==> c.report.Some?
  {
    forall c | c in items ensures c.report.Some? {
      var k :| 0 <= k < |items| && items[k] == c;
      assert Reversed(items)[|items|-1-k] == c;
    }
  }

  ghost predicate RestUntouched(below: Shape, kids: seq<ScopeSnapshot>, i: int)
    requires forall c :: c in kids ==> c in below
    reads set c, x | c in kids && x in below[c] :: x
    reads set c, x, p | c in kids && x in below[c] && p in x.plugins :: p
  {
    forall j :: i <= j < |kids| && 0 <= j ==> Untouched(below[kids[j]])
  }

  /** The child at this place is a branch of its own. */
  ghost predicate BranchAt(below: Shape, s: ScopeSnapshot, kids: seq<ScopeSnapshot>, i: int) {
    0 <= i < |kids| ==> Hangs(below, s, kids[i]) && forall j :: i < j < |kids| ==> Apart(below, kids[i], kids[j])
  }

  ghost predicate Branches(below: Shape, s: ScopeSnapshot, kids: seq<ScopeSnapshot>) {
    && (forall i {:trigger BranchAt(below, s, kids, i)} :: BranchAt(below, s, kids, i))
    && forall c :: c in kids ==> c in below
  }

  lemma KidsBranch(below: Shape, s: ScopeSnapshot)
    requires Tree(below) && Owns(below, s)
    ensures Branches(below, s, Reversed(s.children.items))
    ensures forall c :: c in Reversed(s.children.items) ==> c in s.children.items
  {
    var kids := Reversed(s.children.items);
    forall c | c in kids ensures c in s.children.items && Hangs(below, s, c) {
    }
    forall i, j | 0 <= i < j < |kids| ensures Apart(below, kids[i], kids[j]) {
      assert Siblings(s, kids[i], kids[j]);
    }
  }

  lemma KidsUntouched(below: Shape, s: ScopeSnapshot)
    requires Tree(below) && Owns(below, s) && Untouched(below[s])
    requires forall c :: c in Reversed(s.children.items) ==> c in below
    ensures RestUntouched(below, Reversed(s.children.items), 0)
  {
    var kids := Reversed(s.children.items);
    forall j | 0 <= j < |kids| ensures Untouched(below[kids[j]]) {
      assert kids[j] in s.children.items && Hangs(below, s, kids[j]);
    }
  }

  lemma AllSucceeded(r: ScopeReport, children: seq<ScopeSnapshot>, plugins: seq<EffectStack>)
    requires Accounts(r, children, plugins) && !r.timedOut && ScopesSucceeded(r.children) && EffectsSucceeded(r.plugins)
    ensures r.outcome == AllDisposed
  {
  }

  /** Every effect was visited in time. */
  ghost predicate NoneSkipped(reports: seq<PluginReport>) {
    forall k :: 0 <= k < |reports| ==> NoneLate(reports[k].effects.records)
  }

  predicate EffectsSucceeded(reports: seq<PluginReport>) {
    forall k :: 0 <= k < |reports| ==> reports[k].effects.outcome == AllDisposed
  }

  predicate ScopesSucceeded(reports: seq<ScopeReport>) {
    forall k :: 0 <= k < |reports| ==> reports[k].outcome == AllDisposed
  }

  /** A report covers every child and every plugin, and fails exactly when something below it did. */
  ghost predicate Accounts(r: ScopeReport, children: seq<ScopeSnapshot>, plugins: seq<EffectStack>)
    reads (set c | c in children)`report, set p | p in plugins
  {
    && |r.children| == |children| && ChildrenReported(children, r.children)
    && |r.plugins| == |plugins| && PluginsReported(plugins, r.plugins)
    && (r.outcome == AllDisposed <==>
          !r.timedOut
          && (forall c :: c in r.children ==> c.outcome == AllDisposed)
          && (forall p :: p in r.plugins ==> p.effects.outcome == AllDisposed))
    && (r.outcome == AllDisposed ==> r.remainingTasks == 0)
  }

  function Reversed<T>(s: seq<T>): (r: seq<T>)
    ensures |r| == |s| && forall k :: 0 <= k < |r| ==> r[k] == s[|s|-1-k]
  {
    seq(|s|, k requires 0 <= k < |s| => s[|s|-1-k])
  }

  function WithoutFirst(s: seq<ScopeSnapshot>, x: ScopeSnapshot?): seq<ScopeSnapshot> {
    if s == [] then [] else if s[0] == x then s[1..] else [s[0]] + WithoutFirst(s[1..], x)
  }

  lemma {:induction false} WithoutFirstAt(s: seq<ScopeSnapshot>, x: ScopeSnapshot?, i: nat)
    requires i <= |s| && x !in s[..i] && (i < |s| ==> s[i] == x)
    ensures WithoutFirst(s, x) == if i < |s| then s[..i] + s[i+1..] else s
  {
    if s != [] && i > 0 {
      assert s[0] == s[..i][0];
      assert s[1..][..i-1] == s[..i][1..];
      WithoutFirstAt(s[1..], x, i - 1);
      if i < |s| { TakenOut(s, i); }
    }
  }

  lemma TakenOut<T>(s: seq<T>, i: nat)
    requires 0 < i < |s|
    ensures [s[0]] + (s[1..][..i-1] + s[1..][i..]) == s[..i] + s[i+1..]
  {
  }

  function Without(s: seq<ScopeSnapshot>, x: ScopeSnapshot): seq<ScopeSnapshot> {
    if s == [] then [] else Without(s[..|s|-1], x) + if s[|s|-1] == x then [] else [s[|s|-1]]
  }

  /** The report of one plugin repeats its stack's cached report. */
  ghost predicate PluginReported(p: EffectStack, r: PluginReport)
    reads p
  {
    p.report == Some(r.effects) && r.instance == p.instance && r.effects.records == p.records
  }

  /** The reports of the first stacks of the list. */
  ghost predicate PluginsReported(plugins: seq<EffectStack>, reports: seq<PluginReport>)
    reads set p | p in plugins
  {
    |reports| <= |plugins| && forall k :: 0 <= k < |reports| ==> PluginReported(plugins[k], reports[k])
  }

  /** The disposers a report says were run, in the order of the report. */
  function PluginRuns(reports: seq<PluginReport>): seq<Run> {
    if reports == [] then [] else Runs(reports[0].effects.records) + PluginRuns(reports[1..])
  }

  function ReportRuns(r: ScopeReport): seq<Run> {
    ChildRuns(r.children) + PluginRuns(r.plugins)
  }

  function ChildRuns(reports: seq<ScopeReport>): seq<Run> {
    if reports == [] then [] else ReportRuns(reports[0]) + ChildRuns(reports[1..])
  }

  lemma {:induction false} PluginRunsAppend(reports: seq<PluginReport>, r: PluginReport)
    ensures PluginRuns(reports + [r]) == PluginRuns(reports) + Runs(r.effects.records)
  {
    if reports != [] {
      PluginRunsAppend(reports[1..], r);
      assert (reports + [r])[1..] == reports[1..] + [r];
    }
  }

  ghost predicate NoneReported(stacks: seq<EffectStack>)
    reads (set p | p in stacks)`report
  {
    forall p :: p in stacks ==> p.report.None?
  }

  /**
   * These disposers ran and left this in the registry; without a passed deadline none was skipped, and in a kind world
   * all of them succeeded.
   */
  ghost predicate WentThrough(
    reports: seq<PluginReport>, log: seq<Run>, before: map<Key, Instance>, after: map<Key, Instance>, passed: bool, kind: bool)
  {
    && log == PluginRuns(reports) && after == LeftOver(before, reports)
    && (!passed ==> NoneSkipped(reports)) && (kind ==> EffectsSucceeded(reports))
  }

  lemma WentOneFurther(reports: seq<PluginReport>, log: seq<Run>, before: map<Key, Instance>, entries: map<Key, Instance>, passed: bool,
    r: PluginReport, ran: seq<Run>, after: map<Key, Instance>, passed': bool, kind: bool)
    requires WentThrough(reports, log, before, entries, passed, kind)
    requires ran == Runs(r.effects.records) && after == Remaining(entries, r.effects.records) && (passed ==> passed')
    requires (!passed' ==> NoneLate(r.effects.records)) && (kind ==> r.effects.outcome == AllDisposed)
    ensures WentThrough(reports + [r], log + ran, before, after, passed', kind)
  {
    PluginRunsAppend(reports, r);
    LeftOverAppend(before, reports, r);
  }

  lemma {:induction false} ChildrenReportedAppend(children: seq<ScopeSnapshot>, reports: seq<ScopeReport>, r: ScopeReport)
    requires ChildrenReported(children, reports) && |reports| < |children|
    requires ChildReported(children[|reports|], r)
    ensures ChildrenReported(children, reports + [r])
  {
  }

  lemma TracedAppend(log: seq<Run>, reports: seq<ScopeReport>, ran: seq<Run>, r: ScopeReport, kind: bool)
    requires Traced(log, reports, kind) && ran == ReportRuns(r) && (kind ==> r.outcome == AllDisposed)
    ensures Traced(log + ran, reports + [r], kind)
  {
    ChildRunsAppend(reports, r);
  }

  lemma {:induction false} ChildRunsAppend(reports: seq<ScopeReport>, r: ScopeReport)
    ensures ChildRuns(reports + [r]) == ChildRuns(reports) + ReportRuns(r)
  {
    if reports != [] {
      ChildRunsAppend(reports[1..], r);
      assert (reports + [r])[1..] == reports[1..] + [r];
    }
  }

  ghost predicate ReleasedIn(reports: seq<PluginReport>, key: Key, owner: Instance) {
    exists r :: r in reports && Released(r.effects.records, key, owner)
  }

  /** What the registry holds once the reported effects have been dealt with. */
  ghost function LeftOver(entries: map<Key, Instance>, reports: seq<PluginReport>): map<Key, Instance> {
    map k | k in entries && !ReleasedIn(reports, k, entries[k]) :: entries[k]
  }

  lemma LeftOverAppend(entries: map<Key, Instance>, reports: seq<PluginReport>, r: PluginReport)
    ensures LeftOver(entries, reports + [r]) == Remaining(LeftOver(entries, reports), r.effects.records)
  {
    forall k | k in entries
      ensures ReleasedIn(reports + [r], k, entries[k]) <==>
        ReleasedIn(reports, k, entries[k]) || Released(r.effects.records, k, entries[k])
    {
      assert r in reports + [r] && forall x :: x in reports ==> x in reports + [r];
    }
  }

  // ---------------------------------------------------------------- scope trees

  /** For every scope of some collection of trees, the scopes at or below it. */
  type Shape = map<ScopeSnapshot, set<ScopeSnapshot>>

  ghost function Stacks(scopes: set<ScopeSnapshot>): set<EffectStack> {
    set s, p | s in scopes && p in s.plugins :: p
  }

  ghost function Registries(scopes: set<ScopeSnapshot>): set<RegistryHub> {
    set s | s in scopes :: s.registry
  }

  ghost predicate Apart(below: Shape, s: ScopeSnapshot, t: ScopeSnapshot) {
    s in below && t in below && below[s] !! below[t] && Stacks(below[s]) !! Stacks(below[t])
  }

  /** A scope shares no effect stack and no registry with the scopes below it. */
  ghost predicate Owns(below: Shape, s: ScopeSnapshot) {
    && s in below && s in below[s] && below[s] <= below.Keys && Distinct(s.plugins)
    && Stacks({s}) !! Stacks(below[s] - {s})
    && s.registry !in Registries(below[s] - {s})
  }

  lemma OwnStacksApart(below: Shape, s: ScopeSnapshot)
    requires Owns(below, s)
    ensures forall p :: p in s.plugins ==> p !in Stacks(below[s] - {s}) && p in Stacks(below[s])
  {
    assert forall p :: p in s.plugins ==> p in Stacks({s});
  }

  ghost predicate Hangs(below: Shape, s: ScopeSnapshot, c: ScopeSnapshot) {
    s in below && c in below && c.height < s.height && below[c] <= below[s] - {s}
  }

  /** Two places in the list of children, the earlier one second. */
  ghost predicate Siblings(s: ScopeSnapshot, c: ScopeSnapshot, d: ScopeSnapshot)
    reads s.children
  {
    exists i, j :: 0 <= i < j < |s.children.items| && s.children.items[i] == d && s.children.items[j] == c
  }

  /** The scopes form trees whose branches share no scope and no effect stack. */
  ghost predicate Tree(below: Shape)
    reads set s | s in below :: s.children
  {
    && (forall s {:trigger Owns(below, s)} :: s in below ==> Owns(below, s))
    && (forall s, c {:trigger Hangs(below, s, c)} :: s in below && c in s.children.items ==> Hangs(below, s, c))
    && (forall s, c, d {:trigger Siblings(s, c, d)} ::
          s in below && c in s.children.items && d in s.children.items && Siblings(s, c, d) ==> Apart(below, c, d))
  }

  ghost predicate ClaimsDisposed(s: ScopeSnapshot)
    reads s`report
  {
    s.report.Some? && s.report.value.outcome == AllDisposed
  }

  ghost predicate StackDisposed(p: EffectStack)
    reads p`report
  {
    p.report.Some? && p.report.value.outcome == AllDisposed
  }

  /** What a cached report may claim of the scope's own words. */
  ghost predicate Honest(s: ScopeSnapshot)
    reads s
  {
    && (s.report.Some? ==> s.report.value.scope == s.id && !s.routing)
    && (s.report.Some? && s.report.value.outcome == SomeFailed ==> s.state == Lifecycle.Failed)
    && (ClaimsDisposed(s) ==> s.state == Lifecycle.Disposed && s.leases == 0 && s.tasks == 0)
  }

  /** The report of a scope repeats the cached report of each of its effect stacks, the last one first. */
  ghost predicate Covered(s: ScopeSnapshot)
    reads s`report, set p | p in s.plugins
  {
    s.report.Some? ==> |s.report.value.plugins| == |s.plugins| && PluginsReported(Reversed(s.plugins), s.report.value.plugins)
  }

  /** A scope reported as disposed vouches for its effect stacks and for its children. */
  ghost predicate Vouches(s: ScopeSnapshot)
    reads s, s.children, (set c | c in s.children.items)`report, (set p | p in s.plugins)
  {
    && Honest(s) && Covered(s)
    && (forall p :: p in s.plugins ==> p.Valid() && (ClaimsDisposed(s) ==> StackDisposed(p)))
    && (forall c :: c in s.children.items && ClaimsDisposed(s) ==> ClaimsDisposed(c))
  }

  ghost predicate Sound(below: Shape)
    reads below.Keys, Stacks(below.Keys), set s | s in below :: s.children
    reads set s, c | s in below && c in s.children.items :: c
  {
    forall s :: s in below ==> Vouches(s)
  }

  /** Nothing here has been disposed before. */
  ghost predicate Untouched(scopes: set<ScopeSnapshot>)
    reads scopes`report, Stacks(scopes)`report
  {
    && (forall x :: x in scopes ==> x.report.None?)
    && (forall p :: p in Stacks(scopes) ==> p.report.None?)
  }

  /** These disposers ran, and in a kind world every scope was disposed of. */
  ghost predicate Traced(log: seq<Run>, reports: seq<ScopeReport>, kind: bool) {
    log == ChildRuns(reports) && (kind ==> ScopesSucceeded(reports))
  }

  /** The reports of the first scopes of the list. */
  ghost predicate ChildrenReported(children: seq<ScopeSnapshot>, reports: seq<ScopeReport>)
    reads (set c | c in children)`report
  {
    |reports| <= |children| && forall k :: 0 <= k < |reports| ==> ChildReported(children[k], reports[k])
  }

  lemma EveryChildClaims(children: seq<ScopeSnapshot>, reports: seq<ScopeReport>)
    requires |reports| == |children| && ChildrenReported(Reversed(children), reports)
    requires forall r :: r in reports ==> r.outcome != SomeFailed
    ensures forall c :: c in children ==> ClaimsDisposed(c)
  {
    forall c | c in children ensures ClaimsDisposed(c) {
      var i :| 0 <= i < |children| && children[i] == c;
      assert ChildReported(Reversed(children)[|children|-1-i], reports[|children|-1-i]);
    }
  }

  lemma EveryStackDisposed(plugins: seq<EffectStack>, reports: seq<PluginReport>)
    requires |reports| == |plugins| && PluginsReported(Reversed(plugins), reports)
    requires forall r :: r in reports ==> r.effects.outcome != SomeFailed
    ensures forall p :: p in plugins ==> StackDisposed(p)
  {
    forall p | p in plugins ensures StackDisposed(p) {
      var i :| 0 <= i < |plugins| && plugins[i] == p;
      assert PluginReported(Reversed(plugins)[|plugins|-1-i], reports[|plugins|-1-i]);
    }
  }

  ghost predicate ChildReported(child: ScopeSnapshot, r: ScopeReport)
    reads child`report
  {
    r.scope == child.id && (r.outcome == AllDisposed ==> child.report == Some(r))
  }

  /** `below` lists nothing but the scopes reached through the child lists. */
  ghost predicate Exact(below: Shape)
    reads set s | s in below :: s.children
  {
    forall s, x :: s in below && x in below[s] && x != s ==> ReachedThrough(below, s, x)
  }

  ghost predicate ReachedThrough(below: Shape, s: ScopeSnapshot, x: ScopeSnapshot)
    reads s.children
  {
    exists c :: c in s.children.items && c in below && x in below[c]
  }

  /** Quiet, drained, and with every effect disposed of. */
  ghost predicate FullyDisposed(s: ScopeSnapshot)
    reads s, set p | p in s.plugins
  {
    && s.state == Lifecycle.Disposed && !s.routing && s.leases == 0 && s.tasks == 0
    && forall p, i :: p in s.plugins && 0 <= i < |p.records| ==> p.records[i].status == Status.Disposed
  }

  /** A scope's word that it is disposed covers the whole tree below it. */
  lemma DisposedMeansWholeSubtree(below: Shape, s: ScopeSnapshot, x: ScopeSnapshot)
    requires Tree(below) && Exact(below) && Sound(below)
    requires s in below && x in below[s] && ClaimsDisposed(s)
    ensures ClaimsDisposed(x) && FullyDisposed(x)
    decreases s.height
  {
    assert Owns(below, s) && Vouches(s);
    if x != s {
      assert ReachedThrough(below, s, x);
      var c :| c in s.children.items && c in below && x in below[c];
      assert Hangs(below, s, c);
      DisposedMeansWholeSubtree(below, c, x);
    }
  }
}
