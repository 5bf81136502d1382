/** The life of a plugin, as the plugin manager lets it run, and what every run of the manager keeps (instance.rs). */
module PluginLifecycle {
  import opened Basics

  const MAX_AUDIT_EVENTS: nat := 256
  const MAX_GENERATION: nat := 0xffff_ffff_ffff_ffff

  datatype State =
    | Discovered | Blocked | Disabled | Resolving | Activating | Active | Quiescing | Disposing | Stopped | Crashed | UpdatePending

  predicate AllowedTransition(from: State, to: State) {
    match from
    case Discovered => to.Blocked? || to.Disabled?
    case Disabled => to.Resolving? || to.Blocked?
    case Resolving => to.Activating? || to.Blocked?
    case Activating => to.Active? || to.Blocked?
    case Active => to.Quiescing? || to.Crashed? || to.UpdatePending?
    case Quiescing => to.Disposing?
    case Disposing => to.Stopped?
    case UpdatePending => to.Blocked? || to.Disabled?
    case Blocked => to.Disabled?
    case Stopped => to.Disabled?
    case Crashed => to.Disabled? || to.Stopped?
  }

  datatype AuditEvent = AuditEvent(from: Option<State>, to: State)

  type History = seq<AuditEvent>

  datatype Key = Key(project: Id, plugin: Id)

  datatype ManagerError =
    | UnknownPlugin | ForbiddenTransition | StaleReplacement | CandidateNotPending | DuplicateDiscovery | GenerationExhausted

  datatype Outcome = New | Unchanged | PendingUpdate | Done | Removed(found: bool)

  type Reply = Result<Outcome, ManagerError>

  // ---------------------------------------------------------------- histories

  /** One event after another: an allowed transition, or the replacement of an active package. */
  predicate Follows(a: AuditEvent, b: AuditEvent) {
    b.from == Some(a.to) && (AllowedTransition(a.to, b.to) || (a.to.Active? && b.to.Active?))
  }

  ghost predicate FollowsAt(history: History, i: int) { 0 < i < |history| ==> Follows(history[i-1], history[i]) }

  /** A history starts with the discovery, and each event starts where the one before it ended. */
  ghost predicate Linked(history: History) {
    history != [] && history[0] == AuditEvent(None, Discovered) && forall i {:trigger FollowsAt(history, i)} :: FollowsAt(history, i)
  }

  /** How often the package, or a replacement of it, became active. */
  function Activations(history: History): nat {
    if history == [] then 0
    else Activations(history[..|history|-1]) + if history[|history|-1].to.Active? then 1 else 0
  }

  lemma {:induction false} Extended(history: History, event: AuditEvent)
    requires Linked(history) && Follows(history[|history|-1], event)
    ensures Linked(history + [event])
    ensures Activations(history + [event]) == Activations(history) + if event.to.Active? then 1 else 0
  {
    forall i ensures FollowsAt(history + [event], i) {
      assert FollowsAt(history, i);
    }
    assert (history + [event])[..|history|] == history;
  }

  const RISE: History := [AuditEvent(Some(Disabled), Resolving), AuditEvent(Some(Resolving), Activating), AuditEvent(Some(Activating), Active)]
  const FALL: History := [AuditEvent(Some(Active), Quiescing), AuditEvent(Some(Quiescing), Disposing), AuditEvent(Some(Disposing), Stopped)]

  /** What enabling appends to the history. */
  function Rise(from: State): History {
    if from.Disabled? then RISE else [AuditEvent(Some(from), Disabled)] + RISE
  }

  predicate CanRise(from: State) { from.Discovered? || from.Disabled? || from.Stopped? }

  lemma {:induction false} Appended(history: History, more: History)
    requires Linked(history) && |more| == 3
    requires Follows(history[|history|-1], more[0]) && Follows(more[0], more[1]) && Follows(more[1], more[2])
    ensures Linked(history + more)
    ensures (history + more)[|history + more|-1] == more[2]
    ensures !more[0].to.Active? && !more[1].to.Active?
      ==> Activations(history + more) == Activations(history) + if more[2].to.Active? then 1 else 0
  {
    Extended(history, more[0]);
    Extended(history + [more[0]], more[1]);
    Extended(history + [more[0]] + [more[1]], more[2]);
    assert history + more == history + [more[0]] + [more[1]] + [more[2]];
  }

  lemma {:induction false} Risen(history: History)
    requires Linked(history) && CanRise(history[|history|-1].to)
    ensures Linked(history + Rise(history[|history|-1].to))
    ensures Activations(history + Rise(history[|history|-1].to)) == Activations(history) + 1
  {
    var from := history[|history|-1].to;
    if from.Disabled? {
      Appended(history, RISE);
    } else {
      var disabled := AuditEvent(Some(from), Disabled);
      Extended(history, disabled);
      Appended(history + [disabled], RISE);
      assert history + [disabled] + RISE == history + Rise(from);
    }
  }

  // ---------------------------------------------------------------- the manager as a state machine

  datatype Plugin = Plugin(digest: Id, generation: Option<nat>, host: Option<Id>, state: State, history: History)

  datatype Registry = Registry(plugins: map<Key, Plugin>, accepted: map<Key, Id>, pending: map<Key, Id>)

  datatype Op =
    | Discover(digest: Id)
    | Enable(host: Id)
    | Disable
    | MarkCrashed
    | Replace(expectedOld: Id, candidate: Id, host: Id)
    | RejectUpdate

  /** The generation that follows, when there is one. */
  function Next(generation: Option<nat>): Option<nat> {
    match generation
    case None => Some(1)
    case Some(g) => if g < MAX_GENERATION then Some(g + 1) else None
  }

  function Rises(p: Plugin, generation: nat, host: Id): Plugin {
    p.(generation := Some(generation), host := Some(host), state := Active, history := p.history + Rise(p.state))
  }

  function Falls(p: Plugin): Plugin {
    p.(host := None, state := Stopped, history := p.history + FALL)
  }

  function Crashes(p: Plugin): Plugin {
    p.(host := None, state := Crashed, history := p.history + [AuditEvent(Some(Active), Crashed)])
  }

  function Replaced(p: Plugin, digest: Id, generation: nat, host: Id): Plugin {
    p.(digest := digest, generation := Some(generation), host := Some(host), history := p.history + [AuditEvent(Some(Active), Active)])
  }

  /** Why an operation is refused, if it is. */
  function Refusal(r: Registry, key: Key, op: Op): Option<ManagerError> {
    match op
    case Discover(digest) =>
      if key in r.plugins && r.plugins[key].digest != digest && !r.plugins[key].state.Active? then Some(DuplicateDiscovery) else None
    case Enable(_) =>
      if key !in r.plugins then Some(UnknownPlugin)
      else if Next(r.plugins[key].generation).None? then Some(GenerationExhausted)
      else if !CanRise(r.plugins[key].state) then Some(ForbiddenTransition)
      else None
    case Disable =>
      if key !in r.plugins then Some(UnknownPlugin) else if !r.plugins[key].state.Active? then Some(ForbiddenTransition) else None
    case MarkCrashed =>
      if key !in r.plugins then Some(UnknownPlugin) else if !r.plugins[key].state.Active? then Some(ForbiddenTransition) else None
    case Replace(expectedOld, candidate, _) =>
      if key !in r.accepted then Some(UnknownPlugin)
      else if r.accepted[key] != expectedOld then Some(StaleReplacement)
      else if key !in r.pending || r.pending[key] != candidate then Some(CandidateNotPending)
      else if key !in r.plugins then Some(UnknownPlugin)
      else if !r.plugins[key].state.Active? then Some(ForbiddenTransition)
      else if r.plugins[key].generation.None? || Next(r.plugins[key].generation).None? then Some(GenerationExhausted)
      else None
    case RejectUpdate => None
  }

  /** The new registry and the answer of an operation that is not refused. */
  function Effect(r: Registry, key: Key, op: Op): (Registry, Outcome)
    requires Refusal(r, key, op).None?
  {
    match op
    case Discover(digest) =>
      if key !in r.plugins then
        (r.(plugins := r.plugins[key := Plugin(digest, None, None, Discovered, [AuditEvent(None, Discovered)])]), New)
      else if r.plugins[key].digest == digest then (r, Unchanged)
      else (r.(pending := r.pending[key := digest]), PendingUpdate)
    case Enable(host) =>
      var p := r.plugins[key];
      (r.(plugins := r.plugins[key := Rises(p, Next(p.generation).value, host)], accepted := r.accepted[key := p.digest]), Done)
    case Disable => (r.(plugins := r.plugins[key := Falls(r.plugins[key])]), Done)
    case MarkCrashed => (r.(plugins := r.plugins[key := Crashes(r.plugins[key])]), Done)
    case Replace(_, candidate, host) =>
      var p := r.plugins[key];
      (Registry(r.plugins[key := Replaced(p, candidate, Next(p.generation).value, host)], r.accepted[key := candidate], r.pending - {key}), Done)
    case RejectUpdate => (r.(pending := r.pending - {key}), Removed(key in r.pending))
  }

  /** A refused operation changes nothing. */
  function Apply(r: Registry, key: Key, op: Op): (Registry, Reply) {
    match Refusal(r, key, op)
    case Some(e) => (r, Err(e))
    case None =>
      var (after, outcome) := Effect(r, key, op);
      (after, Ok(outcome))
  }

  // ---------------------------------------------------------------- what every run keeps

  /** What the manager shows of a plugin agrees with the whole history of the plugin. */
  ghost predicate Coherent(p: Plugin) {
    && (p.state.Discovered? || p.state.Active? || p.state.Stopped? || p.state.Crashed?)
    && Linked(p.history) && p.history[|p.history|-1].to == p.state
    && (p.host.Some? <==> p.state.Active?)
    && p.generation == (if Activations(p.history) == 0 then None else Some(Activations(p.history)))
    && Activations(p.history) <= MAX_GENERATION
    && (p.generation.None? <==> p.state.Discovered?)
  }

  /** The accepted package is the one in use, and a pending update is another one. */
  ghost predicate SanePlugin(r: Registry, key: Key)
    requires key in r.plugins
  {
    var p := r.plugins[key];
    && Coherent(p)
    && (key in r.accepted <==> p.generation.Some?)
    && (key in r.accepted ==> r.accepted[key] == p.digest)
    && (key in r.pending ==> r.pending[key] != p.digest && key in r.accepted)
  }

  ghost predicate Sane(r: Registry) {
    && r.accepted.Keys <= r.plugins.Keys && r.pending.Keys <= r.plugins.Keys
    && forall key :: key in r.plugins ==> SanePlugin(r, key)
  }

  lemma {:induction false} DiscoveredIsCoherent(digest: Id)
    ensures Coherent(Plugin(digest, None, None, Discovered, [AuditEvent(None, Discovered)]))
  {
    var history := [AuditEvent(None, Discovered)];
    assert forall i :: FollowsAt(history, i);
    assert history[..0] == [];
  }

  lemma {:induction false} RisesIsCoherent(p: Plugin, host: Id)
    requires Coherent(p) && CanRise(p.state) && Next(p.generation).Some?
    ensures Coherent(Rises(p, Next(p.generation).value, host))
  {
    Risen(p.history);
  }

  lemma {:induction false} EndingIsCoherent(p: Plugin)
    requires Coherent(p) && p.state.Active?
    ensures Coherent(Falls(p)) && Coherent(Crashes(p))
  {
    Appended(p.history, FALL);
    Extended(p.history, AuditEvent(Some(Active), Crashed));
  }

  lemma {:induction false} ReplacedIsCoherent(p: Plugin, digest: Id, host: Id)
    requires Coherent(p) && p.state.Active? && Next(p.generation).Some?
    ensures Coherent(Replaced(p, digest, Next(p.generation).value, host))
  {
    Extended(p.history, AuditEvent(Some(Active), Active));
  }

  lemma {:induction false} EffectIsCoherent(r: Registry, key: Key, op: Op)
    requires Refusal(r, key, op).None? && (key in r.plugins ==> Coherent(r.plugins[key]))
    ensures var after := Effect(r, key, op).0; key in after.plugins ==> Coherent(after.plugins[key])
  {
    match op
    case Discover(digest) => DiscoveredIsCoherent(digest);
    case Enable(host) => RisesIsCoherent(r.plugins[key], host);
    case Disable => EndingIsCoherent(r.plugins[key]);
    case MarkCrashed => EndingIsCoherent(r.plugins[key]);
    case Replace(_, candidate, host) => ReplacedIsCoherent(r.plugins[key], candidate, host);
    case RejectUpdate =>
  }

  lemma {:induction false} EffectKeepsSane(r: Registry, key: Key, op: Op)
    requires Sane(r) && Refusal(r, key, op).None?
    ensures var after := Effect(r, key, op).0; key in after.plugins ==> SanePlugin(after, key)
  {
    assert key in r.plugins ==> SanePlugin(r, key);
    EffectIsCoherent(r, key, op);
  }

  lemma {:induction false} ApplyKeepsSane(r: Registry, key: Key, op: Op)
    requires Sane(r)
    ensures Sane(Apply(r, key, op).0)
  {
    if Refusal(r, key, op).None? {
      var after := Effect(r, key, op).0;
      EffectKeepsSane(r, key, op);
      forall k | k in after.plugins ensures SanePlugin(after, k) {
        assert k == key || (k in r.plugins && SanePlugin(r, k));
      }
    }
  }

  /**
   * A plugin later in a run: its history only grew, its generation never fell, a crash is final, and within one
   * generation neither the package nor the host changed, except that the host may be gone.
   */
  ghost predicate Ages(p: Plugin, later: Plugin) {
    && p.history <= later.history
    && (p.state.Crashed? ==> later == p)
    && (p.generation.Some? ==> later.generation.Some? && p.generation.value <= later.generation.value)
    && (p.generation.Some? && later.generation == p.generation
        ==> later.digest == p.digest && (later.host == p.host || later.host.None?))
  }

  ghost predicate AllAge(r: Registry, later: Registry) {
    forall key :: key in r.plugins ==> key in later.plugins && Ages(r.plugins[key], later.plugins[key])
  }

  lemma ApplyAges(r: Registry, key: Key, op: Op)
    ensures AllAge(r, Apply(r, key, op).0)
  {
  }

  datatype Event = Event(key: Key, op: Op, before: Registry, after: Registry, reply: Reply)

  ghost predicate EventAt(run: seq<Event>, i: int) {
    && 0 <= i < |run|
    && (run[i].after, run[i].reply) == Apply(run[i].before, run[i].key, run[i].op)
    && run[i].before == if i == 0 then Registry(map[], map[], map[]) else run[i-1].after
  }

  /** Any operations on any plugins, in any order. */
  ghost predicate Run(run: seq<Event>) {
    forall i {:trigger EventAt(run, i)} :: 0 <= i < |run| ==> EventAt(run, i)
  }

  lemma {:induction false} RunKeepsSane(run: seq<Event>, i: nat)
    requires Run(run) && i < |run|
    ensures Sane(run[i].before) && Sane(run[i].after)
  {
    assert EventAt(run, i);
    if i > 0 { RunKeepsSane(run, i - 1); }
    ApplyKeepsSane(run[i].before, run[i].key, run[i].op);
  }

  lemma AgesIsTransitive(p: Plugin, q: Plugin, s: Plugin)
    requires Ages(p, q) && Ages(q, s)
    ensures Ages(p, s)
  {
  }

  lemma {:induction false} RunAges(run: seq<Event>, i: nat, j: nat, key: Key)
    requires Run(run) && i <= j < |run| && key in run[i].after.plugins
    ensures key in run[j].after.plugins && Ages(run[i].after.plugins[key], run[j].after.plugins[key])
    decreases j - i
  {
    if i < j {
      RunAges(run, i, j - 1, key);
      assert EventAt(run, j);
      ApplyAges(run[j].before, run[j].key, run[j].op);
      AgesIsTransitive(run[i].after.plugins[key], run[j-1].after.plugins[key], run[j].after.plugins[key]);
    }
  }

  /** A generation tells one activation from every other: two active moments that share it share package and host. */
  lemma GenerationTellsActivationsApart(run: seq<Event>, i: nat, j: nat, key: Key)
    requires Run(run) && i <= j < |run| && key in run[i].after.plugins && key in run[j].after.plugins
    requires run[i].after.plugins[key].state.Active? && run[j].after.plugins[key].state.Active?
    requires run[i].after.plugins[key].generation == run[j].after.plugins[key].generation
    ensures run[i].after.plugins[key].digest == run[j].after.plugins[key].digest
    ensures run[i].after.plugins[key].host == run[j].after.plugins[key].host
  {
    RunKeepsSane(run, i);
    RunKeepsSane(run, j);
    assert SanePlugin(run[i].after, key) && SanePlugin(run[j].after, key);
    RunAges(run, i, j, key);
  }

  /** Every enabling and every replacement that succeeds gets a generation no earlier moment of the plugin had. */
  lemma GenerationsIncrease(run: seq<Event>, i: nat, j: nat)
    requires Run(run) && i < j < |run| && run[j].reply == Ok(Done) && (run[j].op.Enable? || run[j].op.Replace?)
    requires run[j].key in run[i].after.plugins && run[i].after.plugins[run[j].key].generation.Some?
    ensures run[j].key in run[j].after.plugins && run[j].after.plugins[run[j].key].generation.Some?
    ensures run[i].after.plugins[run[j].key].generation.value < run[j].after.plugins[run[j].key].generation.value
  {
    assert EventAt(run, j);
    RunAges(run, i, j - 1, run[j].key);
  }

  /** A package changes only by a replacement, whose candidate was pending and whose caller named the accepted package. */
  ghost predicate ReplacedAt(run: seq<Event>, k: int, key: Key) {
    && 0 <= k < |run| && run[k].op.Replace? && run[k].key == key && run[k].reply == Ok(Done)
    && key in run[k].before.accepted && run[k].before.accepted[key] == run[k].op.expectedOld
    && key in run[k].before.pending && run[k].before.pending[key] == run[k].op.candidate
  }

  lemma {:induction false} PackagesChangeByReplacement(run: seq<Event>, i: nat, j: nat, key: Key) returns (k: nat)
    requires Run(run) && i <= j < |run| && key in run[i].after.plugins && key in run[j].after.plugins
    requires run[i].after.plugins[key].digest != run[j].after.plugins[key].digest
    ensures i < k <= j && ReplacedAt(run, k, key)
    ensures run[j].after.plugins[key].digest == run[k].op.candidate
    decreases j - i
  {
    assert EventAt(run, j);
    RunAges(run, i, j - 1, key);
    if run[j-1].after.plugins[key].digest == run[j].after.plugins[key].digest {
      k := PackagesChangeByReplacement(run, i, j - 1, key);
    } else {
      k := j;
    }
  }

  // ---------------------------------------------------------------- where the operations end

  ghost function After(r: Registry, key: Key, op: Op): Registry { Apply(r, key, op).0 }

  ghost predicate Succeeds(r: Registry, key: Key, op: Op) { Apply(r, key, op).1.Ok? }

  /** Enabling works exactly from Discovered and Stopped, short of the last generation, and ends in the next activation. */
  lemma EnableEnds(r: Registry, key: Key, host: Id)
    requires Sane(r)
    ensures Succeeds(r, key, Enable(host)) <==>
      && key in r.plugins && (r.plugins[key].state == Discovered || r.plugins[key].state == Stopped)
      && Activations(r.plugins[key].history) < 0xffff_ffff_ffff_ffff
    ensures Succeeds(r, key, Enable(host)) ==>
      var p, later := r.plugins[key], After(r, key, Enable(host)).plugins[key];
      && later.state == Active && later.host == Some(host) && later.digest == p.digest
      && later.generation == Some(Activations(p.history) + 1)
      && After(r, key, Enable(host)).accepted[key] == p.digest
  {
    if key in r.plugins { assert SanePlugin(r, key); }
  }

  /** Disabling works exactly from Active, and ends in Stopped by way of a quiescence and a disposal. */
  lemma DisableEnds(r: Registry, key: Key)
    requires Sane(r)
    ensures Succeeds(r, key, Disable) <==> key in r.plugins && r.plugins[key].state == Active
    ensures Succeeds(r, key, Disable) ==>
      var p, later := r.plugins[key], After(r, key, Disable).plugins[key]; var n := |p.history|;
      && later.state == Stopped && later.host == None && later.digest == p.digest && later.generation == p.generation
      && |later.history| == n + 3 && later.history[n].to == Quiescing && later.history[n+1].to == Disposing && later.history[n+2].to == Stopped
  {
  }

  /** A crash is marked exactly on an Active plugin; nothing but its host is gone, and nothing gets it going again. */
  lemma CrashEnds(r: Registry, key: Key, op: Op)
    requires Sane(r)
    ensures Succeeds(r, key, MarkCrashed) <==> key in r.plugins && r.plugins[key].state == Active
    ensures Succeeds(r, key, MarkCrashed) ==>
      var crashed := After(r, key, MarkCrashed); var p, later := r.plugins[key], crashed.plugins[key];
      && later.state == Crashed && later.host == None && later.digest == p.digest && later.generation == p.generation
      && After(crashed, key, op).plugins[key] == later
  {
    ApplyAges(After(r, key, MarkCrashed), key, op);
  }

  /** Disabled and enabled again, a plugin runs the same package in the next generation. */
  lemma DisableThenEnable(r: Registry, key: Key, host: Id)
    requires Sane(r) && Succeeds(r, key, Disable) && Activations(r.plugins[key].history) < 0xffff_ffff_ffff_ffff
    ensures Succeeds(After(r, key, Disable), key, Enable(host))
    ensures var p, later := r.plugins[key], After(After(r, key, Disable), key, Enable(host)).plugins[key];
      later.state == Active && later.host == Some(host) && later.digest == p.digest && later.generation == Some(p.generation.value + 1)
  {
    var stopped := After(r, key, Disable);
    assert SanePlugin(r, key);
    ApplyKeepsSane(r, key, Disable);
    assert SanePlugin(stopped, key);
    EnableEnds(stopped, key, host);
  }

  /** A replacement works exactly for the pending candidate of an Active plugin whose accepted package the caller names. */
  lemma ReplaceEnds(r: Registry, key: Key, expectedOld: Id, candidate: Id, host: Id)
    requires Sane(r)
    ensures Succeeds(r, key, Replace(expectedOld, candidate, host)) <==>
      && key in r.plugins && r.plugins[key].state == Active && r.plugins[key].digest == expectedOld
      && key in r.pending && r.pending[key] == candidate && Activations(r.plugins[key].history) < 0xffff_ffff_ffff_ffff
    ensures Succeeds(r, key, Replace(expectedOld, candidate, host)) ==>
      var after := After(r, key, Replace(expectedOld, candidate, host));
      && after.plugins[key].state == Active && after.plugins[key].digest == candidate && after.plugins[key].host == Some(host)
      && after.plugins[key].generation == Some(Activations(r.plugins[key].history) + 1)
      && after.accepted[key] == candidate && key !in after.pending
  {
    if key in r.plugins { assert SanePlugin(r, key); }
  }

  /** No operation touches another plugin. */
  lemma OthersStay(r: Registry, key: Key, op: Op, other: Key)
    requires other != key
    ensures other in After(r, key, op).plugins <==> other in r.plugins
    ensures other in r.plugins ==> After(r, key, op).plugins[other] == r.plugins[other]
    ensures other in After(r, key, op).accepted <==> other in r.accepted
    ensures other in r.accepted ==> After(r, key, op).accepted[other] == r.accepted[other]
    ensures other in After(r, key, op).pending <==> other in r.pending
    ensures other in r.pending ==> After(r, key, op).pending[other] == r.pending[other]
  {
  }
}
