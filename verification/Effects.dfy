/** Effect stacks and the registries they release (lifecycle.rs, `EffectSink`, `EffectStack`, `RegistryHub`). */
module Effects {
  import opened Basics

  datatype RegistryKind = Marker | Source | WorkspaceTool | ProjectFileViewer

  /** An entry of one of the four registry maps. */
  datatype Key = Key(kind: RegistryKind, capability: Id)

  datatype Instance = Instance(plugin: Id, scope: Id)

  /** A registration knows the entry it made; any other disposer is the plugin's own. */
  datatype Disposer = Registration(key: Key) | Custom

  datatype Status = Registered | Disposing | Disposed | Failed

  /** How a disposer that was run can fail. */
  datatype Fault = DisposerError | DisposerPanic | EffectDeadline

  datatype CleanupError = ScopeDeadline | Own(fault: Fault)

  datatype Record = Record(
    instance: Instance, order: nat, disposer: Disposer, status: Status, cleanup: Option<CleanupError>)

  datatype Outcome = AllDisposed | SomeFailed

  datatype EffectReport = EffectReport(outcome: Outcome, records: seq<Record>)

  /** A disposer was run. */
  datatype Run = Run(instance: Instance, order: nat)

  /** What a waiting disposer sees next. */
  datatype WaitEvent = LeaseDropped | TaskEnded | QuiesceExpired

  /**
   * Everything a disposal does not decide itself, fixed from the start: what each reading of the scope deadline finds,
   * whether time has moved since the effects of a plugin were begun, what happens during the wait, and how each disposer
   * ends. The counters say how much of it has been used up.
   */
  class World {
    const late: nat -> bool
    const ticked: nat -> bool
    const waiting: nat -> WaitEvent
    const faults: nat -> Option<Fault>
    var readings: nat
    var waits: nat
    var runs: nat
    /** The scope deadline has been found passed. */
    var passed: bool

    ghost predicate Valid()
      reads this
    {
      passed <==> exists k :: 0 <= k < readings && late(k)
    }

    /** No deadline ever passes and every disposer succeeds. */
    ghost predicate Kind() {
      forall k: nat :: !late(k) && !waiting(k).QuiesceExpired? && faults(k).None?
    }

    constructor (late: nat -> bool, ticked: nat -> bool, waiting: nat -> WaitEvent, faults: nat -> Option<Fault>)
      ensures Valid() && this.late == late && this.ticked == ticked && this.waiting == waiting && this.faults == faults
    {
      this.late, this.ticked, this.waiting, this.faults := late, ticked, waiting, faults;
      readings, waits, runs, passed := 0, 0, 0, false;
    }

    /** A deadline that has passed stays passed. */
    method ReadDeadline() returns (now: bool)
      requires Valid()
      modifies this`readings, this`passed
      ensures Valid() && readings == old(readings) + 1
      ensures now == passed == (old(passed) || late(old(readings)))
    {
      passed := passed || late(readings);
      readings := readings + 1;
      return passed;
    }

    method NextEvent() returns (event: WaitEvent)
      requires Valid()
      modifies this`waits
      ensures Valid() && waits == old(waits) + 1 && event == waiting(old(waits))
    {
      event := waiting(waits);
      waits := waits + 1;
    }

    method RunDisposer() returns (fault: Option<Fault>)
      requires Valid()
      modifies this`runs
      ensures Valid() && runs == old(runs) + 1 && fault == faults(old(runs))
    {
      fault := faults(runs);
      runs := runs + 1;
    }
  }

  /** The four maps of a scope's registry, keyed by kind and capability. */
  class RegistryHub {
    var entries: map<Key, Instance>

    constructor ()
      ensures entries == map[]
    {
      entries := map[];
    }

    method Register(instance: Instance, key: Key) returns (ok: bool)
      modifies this
      ensures ok <==> key !in old(entries)
      ensures entries == if ok then old(entries)[key := instance] else old(entries)
    {
      if key in entries {
        return false;
      }
      entries := entries[key := instance];
      return true;
    }

    /** A registration removes the entry only while it is still its own. */
    method Release(instance: Instance, key: Key)
      modifies this
      ensures entries == if key in old(entries) && old(entries)[key] == instance then old(entries) - {key} else old(entries)
    {
      if key in entries && entries[key] == instance {
        entries := entries - {key};
      }
    }
  }

  /** Some record released this entry. */
  ghost predicate Releases(r: Record, key: Key, owner: Instance) {
    r.disposer == Registration(key) && r.instance == owner && r.status == Disposed
  }

  ghost predicate Released(records: seq<Record>, key: Key, owner: Instance) {
    exists i :: 0 <= i < |records| && Releases(records[i], key, owner)
  }

  /** What the registry still holds once the records have reached their states. */
  ghost function Remaining(entries: map<Key, Instance>, records: seq<Record>): map<Key, Instance> {
    map k | k in entries && !Released(records, k, entries[k]) :: entries[k]
  }

  /** The entries after the disposer of `r` has been dealt with. */
  ghost function AfterRelease(entries: map<Key, Instance>, r: Record): map<Key, Instance> {
    if r.status == Disposed && r.disposer.Registration? && r.disposer.key in entries && entries[r.disposer.key] == r.instance
    then entries - {r.disposer.key}
    else entries
  }

  ghost predicate SameEffect(a: Record, b: Record) {
    a.instance == b.instance && a.order == b.order && a.disposer == b.disposer
  }

  ghost predicate SameEffects(a: seq<Record>, b: seq<Record>) {
    |a| == |b| && forall i :: 0 <= i < |a| ==> SameEffect(a[i], b[i])
  }

  ghost predicate Fresh(r: Record) { r.status == Registered && r.cleanup.None? }

  /** A visited record is disposed without an error or failed with one. */
  ghost predicate Settled(r: Record) {
    (r.status == Disposed && r.cleanup.None?) || (r.status == Failed && r.cleanup.Some?)
  }

  /** The disposers run for these records: the last registered first, those past the scope deadline not at all. */
  function Runs(records: seq<Record>): seq<Run> {
    if records == [] then [] else Runs(records[1..]) + RunOf(records[0])
  }

  /** The scope deadline had passed before this effect's turn came. */
  predicate Late(r: Record) { r.cleanup == Some(ScopeDeadline) }

  ghost predicate LateAfter(records: seq<Record>, i: int) { 0 < i < |records| && Late(records[i]) ==> Late(records[i-1]) }

  /** The effects that came too late are the ones registered first. */
  ghost predicate EarliestAreLate(records: seq<Record>) {
    forall i {:trigger LateAfter(records, i)} :: LateAfter(records, i)
  }

  function RunOf(r: Record): seq<Run> {
    if Late(r) then [] else [Run(r.instance, r.order)]
  }

  /** The effects one plugin instance registers while it activates. */
  class EffectSink {
    const instance: Instance
    var effects: seq<Record>

    ghost predicate Valid()
      reads this
    {
      forall i :: 0 <= i < |effects| ==> effects[i].instance == instance && effects[i].order == i && Fresh(effects[i])
    }

    constructor (instance: Instance)
      ensures Valid() && this.instance == instance && effects == []
    {
      this.instance, effects := instance, [];
    }

    method Push(disposer: Disposer) returns (order: nat)
      requires Valid()
      modifies this
      ensures Valid() && order == |old(effects)|
      ensures effects == old(effects) + [Record(instance, order, disposer, Registered, None)]
    {
      order := |effects|;
      effects := effects + [Record(instance, order, disposer, Registered, None)];
    }

    /** A duplicate entry leaves both the registry and the sink alone. */
    method Register(registry: RegistryHub, key: Key) returns (order: Option<nat>)
      requires Valid()
      modifies this, registry
      ensures Valid()
      ensures order.Some? <==> key !in old(registry.entries)
      ensures order.None? ==> effects == old(effects) && registry.entries == old(registry.entries)
      ensures order.Some? ==> effects == old(effects) + [Record(instance, |old(effects)|, Registration(key), Registered, None)]
      ensures order.Some? ==> registry.entries == old(registry.entries)[key := instance]
    {
      var ok := registry.Register(instance, key);
      if !ok {
        return None;
      }
      var o := Push(Registration(key));
      return Some(o);
    }
  }

  class EffectStack {
    const instance: Instance
    var records: seq<Record>
    var report: Option<EffectReport>
    /** The effects as they were registered. */
    ghost const registered: seq<Record>

    ghost predicate Valid()
      reads this
    {
      && SameEffects(registered, records)
      && (report.None? ==> forall i :: 0 <= i < |records| ==> Fresh(records[i]))
      && (report.Some? ==> report.value.records == records && forall i :: 0 <= i < |records| ==> Settled(records[i]))
      && (report.Some? ==> (report.value.outcome == AllDisposed <==> forall i :: 0 <= i < |records| ==> records[i].status == Disposed))
    }

    constructor (sink: EffectSink)
      requires sink.Valid()
      ensures Valid() && instance == sink.instance && registered == records == sink.effects && report.None?
    {
      instance, records, report, registered := sink.instance, sink.effects, None, sink.effects;
    }

    /** One effect: skipped when the scope deadline has passed, otherwise run, and Disposed exactly when it succeeds. */
    method Settle(i: nat, expired: bool, registry: RegistryHub, world: World) returns (ran: seq<Run>)
      requires i < |records| && Fresh(records[i]) && world.Valid()
      modifies this`records, registry, world`runs
      ensures world.Valid() && |records| == |old(records)| && records == old(records)[i := records[i]]
      ensures Settled(records[i]) && SameEffect(old(records)[i], records[i])
      ensures ran == RunOf(records[i]) && (Late(records[i]) <==> expired)
      ensures world.runs == old(world.runs) + |ran|
      ensures !expired ==> (records[i].status == Disposed <==> world.faults(old(world.runs)).None?)
      ensures registry.entries == AfterRelease(old(registry.entries), records[i])
    {
      var r := records[i];
      records := records[i := r.(status := Disposing)];
      if expired {
        records := records[i := r.(status := Failed, cleanup := Some(ScopeDeadline))];
        return [];
      }
      ran := [Run(r.instance, r.order)];
      var fault := world.RunDisposer();
      if fault.Some? {
        records := records[i := r.(status := Failed, cleanup := Some(Own(fault.value)))];
      } else {
        records := records[i := r.(status := Disposed)];
        if r.disposer.Registration? {
          registry.Release(r.instance, r.disposer.key);
        }
      }
    }

    /**
     * The first call visits every effect once, the last registered first, releases exactly the entries whose
     * disposal succeeded, and caches its report. Any later call returns that report and runs nothing. An effect is
     * skipped only when the scope deadline has passed.
     */
    method Dispose(registry: RegistryHub, world: World) returns (result: EffectReport, log: seq<Run>)
      requires Valid() && world.Valid()
      modifies this`records, this`report, registry, world
      ensures Valid() && world.Valid() && report == Some(result)
      ensures world.runs == old(world.runs) + |log| && (old(world.passed) ==> world.passed)
      ensures old(report).Some? ==>
        result == old(report).value && log == [] && records == old(records) && registry.entries == old(registry.entries)
      ensures SameEffects(old(records), records)
      ensures old(report).None? ==> log == Runs(records) && EarliestAreLate(records)
      ensures old(report).None? ==> registry.entries == Remaining(old(registry.entries), records)
      ensures old(report).None? && !world.passed ==> NoneLate(records)
      ensures old(report).None? && world.Kind() ==> result.outcome == AllDisposed
    {
      log := [];
      if report.Some? {
        return report.value, log;
      }
      log := DisposeEach(registry, world);
      var disposed := forall i :: 0 <= i < |records| ==> records[i].status == Disposed;
      result := EffectReport(if disposed then AllDisposed else SomeFailed, records);
      report := Some(result);
    }

    method DisposeEach(registry: RegistryHub, world: World) returns (log: seq<Run>)
      requires Valid() && report.None? && world.Valid()
      modifies this`records, registry, world
      ensures world.Valid() && SameEffects(old(records), records)
      ensures world.runs == old(world.runs) + |log| && (old(world.passed) ==> world.passed)
      ensures forall i :: 0 <= i < |records| ==> Settled(records[i])
      ensures log == Runs(records) && EarliestAreLate(records)
      ensures registry.entries == Remaining(old(registry.entries), records)
      ensures !world.passed ==> NoneLate(records)
      ensures world.Kind() ==> forall i :: 0 <= i < |records| ==> records[i].status == Disposed
    {
      log := [];
      ghost var before, entries := records, registry.entries;
      assert Remaining(entries, records) == entries;
      var expired := false;
      for i := |records| downto 0
        invariant world.Valid() && world.runs == old(world.runs) + |log| && (old(world.passed) ==> world.passed)
        invariant report.None? && SameEffects(before, records)
        invariant forall j :: 0 <= j < i ==> records[j] == before[j]
        invariant forall j :: i <= j < |records| ==> Settled(records[j])
        invariant expired <==> i < |records| && Late(records[i])
        invariant expired ==> world.passed
        invariant forall j {:trigger LateAfter(records, j)} :: i < j ==> LateAfter(records, j)
        invariant world.Kind() ==> !expired && forall j :: i <= j < |records| ==> records[j].status == Disposed
        invariant log == Runs(records[i..])
        invariant registry.entries == Remaining(entries, records)
      {
        ghost var prior := records;
        assert Fresh(records[i]);
        var now := world.ReadDeadline();
        expired := expired || (now && world.ticked(world.readings - 1));
        var ran := Settle(i, expired, registry, world);
        log := log + ran;
        assert records[i..] == [records[i]] + prior[i+1..];
        RemainingAfter(entries, prior, i, records[i]);
        OneMoreLate(prior, i, records[i]);
      }
      assert records[0..] == records;
      if !world.passed { LateReachesFirst(records); }
    }
  }

  /** The deadline stays passed from one effect to the next. */
  lemma OneMoreLate(prior: seq<Record>, i: nat, r: Record)
    requires i < |prior| && forall j {:trigger LateAfter(prior, j)} :: i + 1 < j ==> LateAfter(prior, j)
    requires i + 1 < |prior| && Late(prior[i+1]) ==> Late(r)
    ensures forall j {:trigger LateAfter(prior[i := r], j)} :: i < j ==> LateAfter(prior[i := r], j)
  {
    var next := prior[i := r];
    forall j | i < j ensures LateAfter(next, j) {
      if j > i + 1 { assert LateAfter(prior, j); }
    }
  }

  ghost predicate NoneLate(records: seq<Record>) {
    forall i :: 0 <= i < |records| ==> !Late(records[i])
  }

  /** If any effect came too late, the first one did. */
  lemma LateReachesFirst(records: seq<Record>)
    requires EarliestAreLate(records) && (records != [] ==> !Late(records[0]))
    ensures NoneLate(records)
  {
    forall i | 0 <= i < |records| ensures !Late(records[i]) { NotLateAt(records, i); }
  }

  lemma {:induction false} NotLateAt(records: seq<Record>, i: nat)
    requires EarliestAreLate(records) && i < |records| && !Late(records[0])
    ensures !Late(records[i])
  {
    if i > 0 {
      NotLateAt(records, i - 1);
      assert LateAfter(records, i);
    }
  }

  /** Settling one more record takes away at most the entry it owns. */
  lemma RemainingAfter(entries: map<Key, Instance>, prior: seq<Record>, i: nat, r: Record)
    requires i < |prior| && prior[i].status != Disposed && SameEffect(prior[i], r)
    ensures Remaining(entries, prior[i := r]) == AfterRelease(Remaining(entries, prior), r)
  {
    var next := prior[i := r];
    forall k | k in entries
      ensures Released(next, k, entries[k]) <==> Released(prior, k, entries[k]) || Releases(r, k, entries[k])
    {
      if Released(next, k, entries[k]) {
        var j :| 0 <= j < |next| && Releases(next[j], k, entries[k]);
        if j != i { assert Releases(prior[j], k, entries[k]); }
      }
      if Released(prior, k, entries[k]) {
        var j :| 0 <= j < |prior| && Releases(prior[j], k, entries[k]);
        assert Releases(next[j], k, entries[k]);
      }
      if Releases(r, k, entries[k]) { assert Releases(next[i], k, entries[k]); }
    }
  }
}
