/** Building a scope candidate: every plugin activates or none stays active (lifecycle.rs, `build_scope_candidate`). */
module Activation {
  import opened Basics
  import opened Effects
  import opened Scopes

  /** One thing a plugin does while it activates: register an entry, or push a disposer of its own. */
  datatype Action = Enter(key: Key) | PushOwn

  /** What an activation turns out to do, and whether it then succeeds. */
  datatype Script = Script(actions: seq<Action>, ok: bool)

  datatype ActivationFailure = ActivationFailure(plugin: Id, rollback: ScopeReport)

  // ---------------------------------------------------------------- what activation does to one registry

  /** The effects registered so far, plugin by plugin, and the registry they filled. */
  datatype Progress = Progress(effects: seq<seq<Record>>, entries: map<Key, Instance>)

  /** An entry that exists already is refused and leaves no effect. */
  function Perform(instance: Instance, entries: map<Key, Instance>, actions: seq<Action>): (seq<Record>, map<Key, Instance>) {
    if actions == [] then ([], entries)
    else
      var (done, filled) := Perform(instance, entries, actions[..|actions|-1]);
      match actions[|actions|-1]
      case PushOwn => (done + [Record(instance, |done|, Custom, Registered, None)], filled)
      case Enter(key) =>
        if key in filled then (done, filled)
        else (done + [Record(instance, |done|, Registration(key), Registered, None)], filled[key := instance])
  }

  /** Passive plugins take part in the order and do nothing. */
  function ActionsOf(scripts: map<Id, Script>, plugin: Id): seq<Action> {
    if plugin in scripts then scripts[plugin].actions else []
  }

  predicate Fails(scripts: map<Id, Script>, plugin: Id) { plugin in scripts && !scripts[plugin].ok }

  function Activated(scope: Id, order: seq<Id>, scripts: map<Id, Script>): Progress {
    if order == [] then Progress([], map[])
    else
      var before := Activated(scope, order[..|order|-1], scripts);
      var plugin := order[|order|-1];
      var (done, filled) := Perform(Instance(plugin, scope), before.entries, ActionsOf(scripts, plugin));
      Progress(before.effects + [done], filled)
  }

  /** The effects of all plugins in the order they were registered. */
  function All(effects: seq<seq<Record>>): seq<Record> {
    if effects == [] then [] else All(effects[..|effects|-1]) + effects[|effects|-1]
  }

  function RunsInOrder(records: seq<Record>): (runs: seq<Run>)
    ensures |runs| == |records| && forall i :: 0 <= i < |runs| ==> runs[i] == Run(records[i].instance, records[i].order)
  {
    seq(|records|, i requires 0 <= i < |records| => Run(records[i].instance, records[i].order))
  }

  // ---------------------------------------------------------------- entries and registrations correspond

  ghost predicate RegistersAt(records: seq<Record>, i: int, key: Key) {
    0 <= i < |records| && records[i].disposer == Registration(key)
  }

  /** Every entry has exactly one registration, which names its owner, and every registration has its entry. */
  ghost predicate OneToOne(records: seq<Record>, entries: map<Key, Instance>) {
    && (forall key :: key in entries ==> exists i :: RegistersAt(records, i, key))
    && (forall key, i :: RegistersAt(records, i, key) ==> key in entries && entries[key] == records[i].instance)
    && (forall key, i, j :: RegistersAt(records, i, key) && RegistersAt(records, j, key) ==> i == j)
  }

  lemma OneToOneExtended(records: seq<Record>, entries: map<Key, Instance>, r: Record)
    requires OneToOne(records, entries)
    requires r.disposer.Registration? ==> r.disposer.key !in entries
    ensures OneToOne(records + [r], if r.disposer.Registration? then entries[r.disposer.key := r.instance] else entries)
  {
    var next := records + [r];
    forall key, i | RegistersAt(next, i, key) ensures RegistersAt(records, i, key) || i == |records| {}
    forall key | key in entries ensures exists i :: RegistersAt(next, i, key) {
      var i :| RegistersAt(records, i, key);
      assert RegistersAt(next, i, key);
    }
    if r.disposer.Registration? { assert RegistersAt(next, |records|, r.disposer.key); }
  }

  lemma {:induction false} PerformKeeps(base: seq<Record>, instance: Instance, entries: map<Key, Instance>, actions: seq<Action>)
    requires OneToOne(base, entries)
    ensures var (done, filled) := Perform(instance, entries, actions); OneToOne(base + done, filled)
  {
    if actions == [] {
      assert base + [] == base;
    } else {
      var (done, filled) := Perform(instance, entries, actions[..|actions|-1]);
      PerformKeeps(base, instance, entries, actions[..|actions|-1]);
      var disposer := match actions[|actions|-1] case PushOwn => Custom case Enter(key) => Registration(key);
      var r := Record(instance, |done|, disposer, Registered, None);
      if disposer.Custom? || disposer.key !in filled {
        OneToOneExtended(base + done, filled, r);
        assert base + (done + [r]) == base + done + [r];
      }
    }
  }

  function Pushes(actions: seq<Action>): nat {
    if actions == [] then 0 else Pushes(actions[..|actions|-1]) + if actions[|actions|-1].PushOwn? then 1 else 0
  }

  function OwnDisposers(records: seq<Record>): nat {
    if records == [] then 0 else OwnDisposers(records[..|records|-1]) + if records[|records|-1].disposer.Custom? then 1 else 0
  }

  /** The plugin asks for this entry, and nobody had it before. */
  ghost predicate Gets(entries: map<Key, Instance>, actions: seq<Action>, key: Key) { Enter(key) in actions && key !in entries }

  /** Each disposer of its own that a plugin pushes is recorded, in its name, numbered in order, and not yet disposed of. */
  lemma {:induction false} PerformRecordsOwn(instance: Instance, entries: map<Key, Instance>, actions: seq<Action>)
    ensures var (done, filled) := Perform(instance, entries, actions);
      && OwnDisposers(done) == Pushes(actions)
      && forall i :: 0 <= i < |done| ==> done[i].instance == instance && done[i].order == i && done[i].status == Registered
  {
    if actions != [] {
      var (done, filled) := Perform(instance, entries, actions[..|actions|-1]);
      var (done', filled') := Perform(instance, entries, actions);
      PerformRecordsOwn(instance, entries, actions[..|actions|-1]);
      if done' != done { assert done'[..|done|] == done; }
    }
  }

  /** So is each entry that it asks for and that was free; what others had in the registry stays theirs. */
  lemma {:induction false} PerformRecordsEntries(instance: Instance, entries: map<Key, Instance>, actions: seq<Action>)
    ensures var (done, filled) := Perform(instance, entries, actions);
      && (forall key :: RegistersIn(done, key) <==> Gets(entries, actions, key))
      && (forall key :: key in filled <==> key in entries || Enter(key) in actions)
      && (forall key :: key in filled ==> filled[key] == if key in entries then entries[key] else instance)
  {
    if actions != [] {
      var before, last := actions[..|actions|-1], actions[|actions|-1];
      var (done, filled) := Perform(instance, entries, before);
      var (done', filled') := Perform(instance, entries, actions);
      PerformRecordsEntries(instance, entries, before);
      assert forall key :: Enter(key) in actions <==> Enter(key) in before || last == Enter(key) by { assert actions == before + [last]; }
      if done' != done {
        forall key { RegistersAppend(done, done'[|done|], key); }
      }
    }
  }

  ghost predicate RegistersIn(records: seq<Record>, key: Key) { exists i :: RegistersAt(records, i, key) }

  lemma RegistersAppend(records: seq<Record>, r: Record, key: Key)
    ensures RegistersIn(records + [r], key) <==> RegistersIn(records, key) || r.disposer == Registration(key)
  {
    if i :| RegistersAt(records, i, key) { assert RegistersAt(records + [r], i, key); }
    if i :| RegistersAt(records + [r], i, key) { assert i < |records| ==> RegistersAt(records, i, key); }
    if r.disposer == Registration(key) { assert RegistersAt(records + [r], |records|, key); }
  }

  /** Whatever the plugins attempt, registry entries and registrations stay in one-to-one correspondence. */
  lemma {:induction false} EntriesMatchRegistrations(scope: Id, order: seq<Id>, scripts: map<Id, Script>)
    ensures var p := Activated(scope, order, scripts); OneToOne(All(p.effects), p.entries)
  {
    if order != [] {
      var before := Activated(scope, order[..|order|-1], scripts);
      EntriesMatchRegistrations(scope, order[..|order|-1], scripts);
      var plugin := order[|order|-1];
      var (done, filled) := Perform(Instance(plugin, scope), before.entries, ActionsOf(scripts, plugin));
      PerformKeeps(All(before.effects), Instance(plugin, scope), before.entries, ActionsOf(scripts, plugin));
      assert (before.effects + [done])[..|before.effects|] == before.effects;
    }
  }

  // ---------------------------------------------------------------- rollback

  /** The reports speak of the same effects, the last plugin first. */
  ghost predicate Covers(effects: seq<seq<Record>>, reports: seq<PluginReport>) {
    && |effects| == |reports|
    && forall i :: 0 <= i < |reports| ==> SameEffects(effects[|effects|-1-i], reports[i].effects.records)
  }

  ghost predicate AllRecordsDisposed(r: PluginReport) {
    forall j :: 0 <= j < |r.effects.records| ==> r.effects.records[j].status == Status.Disposed
  }

  lemma {:induction false} InAll(effects: seq<seq<Record>>, i: int, key: Key) returns (k: int, j: int)
    requires RegistersAt(All(effects), i, key)
    ensures 0 <= k < |effects| && RegistersAt(effects[k], j, key) && effects[k][j] == All(effects)[i]
  {
    var n := |effects| - 1;
    if i < |All(effects[..n])| {
      k, j := InAll(effects[..n], i, key);
    } else {
      k, j := n, i - |All(effects[..n])|;
    }
  }

  /** A rollback that disposes of every effect leaves nothing in the registry. */
  lemma CompleteRollbackEmptiesRegistry(effects: seq<seq<Record>>, entries: map<Key, Instance>, reports: seq<PluginReport>)
    requires OneToOne(All(effects), entries) && Covers(effects, reports)
    requires forall r :: r in reports ==> AllRecordsDisposed(r)
    ensures LeftOver(entries, reports) == map[]
  {
    forall key | key in entries ensures ReleasedIn(reports, key, entries[key]) {
      var i :| RegistersAt(All(effects), i, key);
      var k, j := InAll(effects, i, key);
      var r := reports[|effects|-1-k];
      assert SameEffects(effects[k], r.effects.records) && r in reports;
      assert Releases(r.effects.records[j], key, entries[key]);
      assert Released(r.effects.records, key, entries[key]);
    }
  }

  /** The effects without those whose turn came too late, in the order they were registered. */
  function OnTime(before: seq<Record>, after: seq<Record>): seq<Record>
    requires |before| == |after|
  {
    if after == [] then [] else (if Late(after[0]) then [] else [before[0]]) + OnTime(before[1..], after[1..])
  }

  /** What became of the effects, in the order they were registered. */
  function Outcomes(reports: seq<PluginReport>): seq<Record> {
    if reports == [] then [] else Outcomes(reports[1..]) + reports[0].effects.records
  }

  lemma ReversedRunsConcat(a: seq<Record>, b: seq<Record>)
    ensures Reversed(RunsInOrder(a + b)) == Reversed(RunsInOrder(b)) + Reversed(RunsInOrder(a))
  {
  }

  /** The disposers of one plugin run in the reverse of its registration order; those that came too late are left out. */
  lemma {:induction false} RunsReverse(before: seq<Record>, after: seq<Record>)
    requires SameEffects(before, after)
    ensures Runs(after) == Reversed(RunsInOrder(OnTime(before, after)))
  {
    if after != [] {
      RunsReverse(before[1..], after[1..]);
      assert SameEffect(before[0], after[0]);
      ReversedRunsConcat(if Late(after[0]) then [] else [before[0]], OnTime(before[1..], after[1..]));
    }
  }

  lemma {:induction false} OnTimeConcat(a: seq<Record>, a': seq<Record>, b: seq<Record>, b': seq<Record>)
    requires |a| == |a'| && |b| == |b'|
    ensures OnTime(a + b, a' + b') == OnTime(a, a') + OnTime(b, b')
  {
    if a == [] {
      assert a + b == b && a' + b' == b';
    } else {
      assert (a + b)[1..] == a[1..] + b && (a' + b')[1..] == a'[1..] + b';
      OnTimeConcat(a[1..], a'[1..], b, b');
    }
  }

  /** When nothing comes too late, nothing is left out. */
  lemma {:induction false} AllOnTime(before: seq<Record>, after: seq<Record>)
    requires |before| == |after| && forall i :: 0 <= i < |after| ==> !Late(after[i])
    ensures OnTime(before, after) == before
  {
    if after != [] { AllOnTime(before[1..], after[1..]); }
  }

  lemma CoversRest(effects: seq<seq<Record>>, reports: seq<PluginReport>)
    requires Covers(effects, reports) && effects != []
    ensures Covers(effects[..|effects|-1], reports[1..])
    ensures SameEffects(effects[|effects|-1], reports[0].effects.records)
  {
  }

  /**
   * Over all plugins together, effects are disposed of in exact reverse of the order they were registered in; those
   * whose turn came too late are left out and change nothing about the order of the others.
   */
  lemma {:induction false} RollbackReversesRegistration(effects: seq<seq<Record>>, reports: seq<PluginReport>)
    requires Covers(effects, reports)
    ensures |All(effects)| == |Outcomes(reports)|
    ensures PluginRuns(reports) == Reversed(RunsInOrder(OnTime(All(effects), Outcomes(reports))))
    decreases |effects|
  {
    if effects != [] {
      var n := |effects| - 1;
      CoversRest(effects, reports);
      RollbackReversesRegistration(effects[..n], reports[1..]);
      RunsReverse(effects[n], reports[0].effects.records);
      OnTimeConcat(All(effects[..n]), Outcomes(reports[1..]), effects[n], reports[0].effects.records);
      ReversedRunsConcat(OnTime(All(effects[..n]), Outcomes(reports[1..])), OnTime(effects[n], reports[0].effects.records));
    }
  }

  // ---------------------------------------------------------------- the activation loop

  /** Runs one activation against the scope's registry. */
  method ActivatePlugin(sink: EffectSink, registry: RegistryHub, actions: seq<Action>)
    requires sink.Valid() && sink.effects == []
    modifies sink, registry
    ensures sink.Valid()
    ensures (sink.effects, registry.entries) == Perform(sink.instance, old(registry.entries), actions)
  {
    for i := 0 to |actions|
      invariant sink.Valid()
      invariant (sink.effects, registry.entries) == Perform(sink.instance, old(registry.entries), actions[..i])
    {
      assert actions[..i+1][..i] == actions[..i];
      match actions[i] {
        case PushOwn => var _ := sink.Push(Custom);
        case Enter(key) => var _ := sink.Register(registry, key);
      }
    }
    assert actions[..|actions|] == actions;
  }

  ghost predicate Holds(stacks: seq<EffectStack>, effects: seq<seq<Record>>) {
    |stacks| == |effects| && forall i :: 0 <= i < |stacks| ==> stacks[i].registered == effects[i]
  }

  lemma StacksExtended(stacks: seq<EffectStack>, stack: EffectStack, effects: seq<seq<Record>>)
    requires Holds(stacks, effects) && Distinct(stacks) && stack !in stacks
    ensures Holds(stacks + [stack], effects + [stack.registered]) && Distinct(stacks + [stack])
  {
  }

  ghost predicate Unused(p: EffectStack)
    reads p
  {
    p.Valid() && p.report.None?
  }

  /** The effect stack of one plugin; a passive one has no effects. */
  method ActivateNext(scope: Id, plugin: Id, scripts: map<Id, Script>, registry: RegistryHub) returns (stack: EffectStack)
    modifies registry
    ensures fresh(stack) && Unused(stack)
    ensures (stack.registered, registry.entries) ==
      Perform(Instance(plugin, scope), old(registry.entries), ActionsOf(scripts, plugin))
  {
    var sink := new EffectSink(Instance(plugin, scope));
    if plugin in scripts {
      ActivatePlugin(sink, registry, scripts[plugin].actions);
    }
    stack := new EffectStack(sink);
  }

  /** The effects of the plugins up to and with the failing one were rolled back. */
  ghost predicate RolledBack(
    scope: Id, order: seq<Id>, scripts: map<Id, Script>, k: nat, failure: ActivationFailure, log: seq<Run>, left: map<Key, Instance>)
  {
    && k < |order| && failure.plugin == order[k] && Fails(scripts, order[k])
    && (forall j :: 0 <= j < k ==> !Fails(scripts, order[j]))
    && failure.rollback.children == []
    && log == PluginRuns(failure.rollback.plugins)
    && Covers(Activated(scope, order[..k+1], scripts).effects, failure.rollback.plugins)
    && left == LeftOver(Activated(scope, order[..k+1], scripts).entries, failure.rollback.plugins)
    && (failure.rollback.outcome == AllDisposed ==> left == map[])
  }

  method Rollback(scope: Id, parent: Option<Id>, registry: RegistryHub, stacks: seq<EffectStack>, tasks: nat,
    ghost effects: seq<seq<Record>>, world: World)
    returns (rollback: ScopeReport, log: seq<Run>)
    requires Holds(stacks, effects) && Distinct(stacks) && (forall p :: p in stacks ==> Unused(p)) && world.Valid()
    modifies registry, world, set p | p in stacks
    ensures world.Valid() && world.runs == old(world.runs) + |log|
    ensures world.Kind() ==> rollback.outcome == AllDisposed
    ensures rollback.children == [] && log == PluginRuns(rollback.plugins)
    ensures Covers(effects, rollback.plugins)
    ensures registry.entries == LeftOver(old(registry.entries), rollback.plugins)
    ensures rollback.outcome == AllDisposed ==> forall r :: r in rollback.plugins ==> AllRecordsDisposed(r)
  {
    var snapshot := new ScopeSnapshot(scope, parent, registry, stacks, 0);
    snapshot.tasks := tasks;
    rollback, log := snapshot.DisposeLeaf(world);
    ReportsCover(stacks, effects, rollback);
  }

  lemma ReportsCover(stacks: seq<EffectStack>, effects: seq<seq<Record>>, rollback: ScopeReport)
    requires Holds(stacks, effects) && forall p :: p in stacks ==> p.Valid()
    requires Accounts(rollback, [], Reversed(stacks))
    ensures rollback.children == [] && ReportRuns(rollback) == PluginRuns(rollback.plugins)
    ensures Covers(effects, rollback.plugins)
    ensures rollback.outcome == AllDisposed ==> forall r :: r in rollback.plugins ==> AllRecordsDisposed(r)
  {
    var n := |stacks|;
    forall i | 0 <= i < n ensures SameEffects(effects[n-1-i], rollback.plugins[i].effects.records) {
      var p := stacks[n-1-i];
      assert p in stacks && Reversed(stacks)[i] == p && PluginReported(p, rollback.plugins[i]);
    }
    if rollback.outcome == AllDisposed {
      forall i | 0 <= i < n ensures AllRecordsDisposed(rollback.plugins[i]) {
        var p := stacks[n-1-i];
        assert p in stacks && Reversed(stacks)[i] == p && PluginReported(p, rollback.plugins[i]);
        assert rollback.plugins[i] in rollback.plugins;
      }
    }
  }

  method FailActivation(scope: Id, parent: Option<Id>, order: seq<Id>, scripts: map<Id, Script>, k: nat,
    registry: RegistryHub, stacks: seq<EffectStack>, tasks: nat, world: World)
    returns (failure: ActivationFailure, log: seq<Run>)
    requires k < |order| && Fails(scripts, order[k]) && forall j :: 0 <= j < k ==> !Fails(scripts, order[j])
    requires Holds(stacks, Activated(scope, order[..k+1], scripts).effects)
    requires registry.entries == Activated(scope, order[..k+1], scripts).entries
    requires Distinct(stacks) && (forall p :: p in stacks ==> Unused(p)) && world.Valid()
    modifies registry, world, set p | p in stacks
    ensures world.Valid() && world.runs == old(world.runs) + |log|
    ensures RolledBack(scope, order, scripts, k, failure, log, registry.entries)
    ensures world.Kind() ==> failure.rollback.outcome == AllDisposed
  {
    ghost var reached := Activated(scope, order[..k+1], scripts);
    var rollback;
    rollback, log := Rollback(scope, parent, registry, stacks, tasks, reached.effects, world);
    EntriesMatchRegistrations(scope, order[..k+1], scripts);
    if rollback.outcome == AllDisposed {
      CompleteRollbackEmptiesRegistry(reached.effects, reached.entries, rollback.plugins);
    }
    failure := ActivationFailure(order[k], rollback);
  }

  /**
   * Activates the plugins in order. When one fails, what was registered so far is rolled back, in reverse, and
   * a rollback that reports success leaves the registry empty.
   */
  method BuildScopeCandidate(scope: Id, parent: Option<Id>, order: seq<Id>, scripts: map<Id, Script>, tasks: nat,
    ghost height: nat, world: World)
    returns (result: Result<ScopeSnapshot, ActivationFailure>, log: seq<Run>, registry: RegistryHub, ghost failed: nat)
    requires world.Valid()
    modifies world
    ensures world.Valid() && world.runs == old(world.runs) + |log|
    ensures result.Ok? <==> forall i :: 0 <= i < |order| ==> !Fails(scripts, order[i])
    ensures result.Ok? ==>
      && fresh(result.value) && result.value.id == scope && result.value.registry == registry && log == []
      && result.value.state == Ready && !result.value.routing
      && Holds(result.value.plugins, Activated(scope, order, scripts).effects)
      && registry.entries == Activated(scope, order, scripts).entries
    ensures result.Err? ==> RolledBack(scope, order, scripts, failed, result.error, log, registry.entries)
    ensures result.Err? && world.Kind() ==> result.error.rollback.outcome == AllDisposed && registry.entries == map[]
  {
    log, failed := [], 0;
    registry := new RegistryHub();
    var stacks, at := ActivateAll(scope, order, scripts, registry);
    if at < |order| {
      var failure;
      failure, log := FailActivation(scope, parent, order, scripts, at, registry, stacks, tasks, world);
      return Err(failure), log, registry, at;
    }
    assert order[..|order|] == order;
    var snapshot := new ScopeSnapshot(scope, parent, registry, stacks, height);
    snapshot.tasks := tasks;
    return Ok(snapshot), log, registry, failed;
  }

  /** The loop over the activation order, up to and with the first plugin that fails, which stands at `at`. */
  method ActivateAll(scope: Id, order: seq<Id>, scripts: map<Id, Script>, registry: RegistryHub)
    returns (stacks: seq<EffectStack>, at: nat)
    requires registry.entries == map[]
    modifies registry
    ensures at <= |order| && (forall j :: 0 <= j < at ==> !Fails(scripts, order[j])) && (at < |order| ==> Fails(scripts, order[at]))
    ensures var reached := if at < |order| then order[..at+1] else order;
      && Holds(stacks, Activated(scope, reached, scripts).effects)
      && registry.entries == Activated(scope, reached, scripts).entries
    ensures Distinct(stacks) && forall p :: p in stacks ==> fresh(p) && Unused(p)
  {
    stacks := [];
    for i := 0 to |order|
      invariant Holds(stacks, Activated(scope, order[..i], scripts).effects)
      invariant registry.entries == Activated(scope, order[..i], scripts).entries
      invariant Distinct(stacks) && forall p :: p in stacks ==> fresh(p) && Unused(p)
      invariant forall j :: 0 <= j < i ==> !Fails(scripts, order[j])
    {
      assert order[..i+1][..i] == order[..i];
      var stack := ActivateNext(scope, order[i], scripts, registry);
      StacksExtended(stacks, stack, Activated(scope, order[..i], scripts).effects);
      stacks := stacks + [stack];
      if order[i] in scripts && !scripts[order[i]].ok {
        return stacks, i;
      }
    }
    assert order[..|order|] == order;
    return stacks, |order|;
  }
}
