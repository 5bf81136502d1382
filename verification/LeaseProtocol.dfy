/**
 * Leases, routing and disposal of one scope as interleaved atomic steps (lifecycle.rs). Any number of threads
 * acquire and drop leases, activate the scope with or without its disposal gate, begin its quiescence and dispose it.
 * Each step is one atomic operation of the source, and the atomics are taken to be sequentially consistent.
 */
module LeaseProtocol {
  import opened Basics

  datatype Lifecycle = Ready | Active | Quiescing | Disposing | Disposed | Failed

  function Rank(l: Lifecycle): nat {
    match l
    case Ready => 0
    case Active => 1
    case Quiescing => 2
    case Disposing => 3
    case Disposed => 4
    case Failed => 4
  }

  /** Where a thread stands inside one of the operations on the scope. */
  datatype Pc =
    | Idle
    // `lease` and the drop of a lease
    | LeaseChecked                        // the first load saw routing open
    | LeaseCounted                        // the counter has been incremented
    | LeaseHeld                           // the second load saw routing open
    | LeaseBackOut                        // the second load saw routing closed
    | LeaseNotify                         // the decrement reached zero
    // `mark_active`, under the disposal gate when a slot publishes, without it in `from_active`
    | ActivateGate
    | ActivateOpen(gated: bool)           // Ready was exchanged for Active
    | ActivateRelease
    // `begin_quiesce`, alone or inside the disposal gate
    | QuiesceLoad(gated: bool)
    | QuiesceSwap(gated: bool, actual: Lifecycle)
    | QuiesceClose(gated: bool)
    | QuiesceNotify(gated: bool)
    // `quiesce_and_dispose`
    | DisposeGate
    | WaitFirst                           // `wait_for_idle`: first load of the counter
    | WaitRegister                        // `notified()`
    | WaitSecond(seen: nat)               // second load of the counter
    | WaitSleep(seen: nat)                // `notified.await`
    | DisposeStore(timedOut: bool)        // store Disposing
    | DisposeFinish(timedOut: bool)       // children and effects disposed, store the final state
    | DisposeReport                       // cache the report, release the gate

  /** The words that the threads share. */
  datatype Words = Words(
    life: Lifecycle,
    routing: bool,
    leases: int,
    notifications: nat,
    gate: Option<Id>,
    reported: bool,
    opening: Option<Id>, // history: who has exchanged Ready for Active and not yet opened routing
    shut: bool,          // history: a disposer has closed routing
    late: bool,          // history: and somebody was just opening it
    drained: bool)       // history: `wait_for_idle` has returned to the disposer

  datatype State = State(words: Words, pc: map<Id, Pc>)

  ghost predicate Init(s: State) {
    && s.words == Words(Ready, false, 0, 0, None, false, None, false, false, false)
    && forall t :: t in s.pc ==> s.pc[t] == Idle
  }

  predicate Waiting(pc: Pc) { pc.WaitFirst? || pc.WaitRegister? || pc.WaitSecond? || pc.WaitSleep? }

  /** One atomic operation of a thread: the words and the program counter after it. */
  datatype Move = Move(words: Words, next: Pc)

  function Decrement(w: Words): Move {
    Move(w.(leases := w.leases - 1), if w.leases == 1 then LeaseNotify else Idle)
  }

  /** A load of the lease counter by `wait_for_idle`, which returns when it reads zero. */
  function ReadCounter(w: Words, otherwise: Pc): Move {
    if w.leases == 0 then Move(w.(drained := true), DisposeStore(false)) else Move(w, otherwise)
  }

  /** The operation that each program counter stands before, where only one is possible. */
  function Operation(w: Words, t: Id, pc: Pc): Move {
    match pc
    case Idle => Move(w, QuiesceLoad(false))
    case LeaseChecked => Move(w.(leases := w.leases + 1), LeaseCounted)
    case LeaseCounted => Move(w, if w.routing then LeaseHeld else LeaseBackOut)
    case LeaseHeld => Decrement(w)
    case LeaseBackOut => Decrement(w)
    case LeaseNotify => Move(w.(notifications := w.notifications + 1), Idle)
    case ActivateGate =>
      if w.life == Ready then Move(w.(life := Active, opening := Some(t)), ActivateOpen(true)) else Move(w, ActivateRelease)
    case ActivateOpen(gated) => Move(w.(routing := true, opening := None), if gated then ActivateRelease else Idle)
    case ActivateRelease => Move(w.(gate := None), Idle)
    case QuiesceLoad(gated) =>
      Move(w, if w.life == Ready || w.life == Active then QuiesceSwap(gated, w.life) else QuiesceClose(gated))
    case QuiesceSwap(gated, actual) =>
      if w.life == actual then Move(w.(life := Quiescing), QuiesceClose(gated)) else Move(w, QuiesceLoad(gated))
    case QuiesceClose(gated) =>
      Move(w.(routing := false, shut := w.shut || gated, late := w.late || (gated && w.opening.Some?)), QuiesceNotify(gated))
    case QuiesceNotify(gated) =>
      Move(w.(notifications := w.notifications + 1), if gated then WaitFirst else Idle)
    case DisposeGate => if w.reported then Move(w.(gate := None), Idle) else Move(w, QuiesceLoad(true))
    case WaitFirst => ReadCounter(w, WaitRegister)
    case WaitRegister => Move(w, WaitSecond(w.notifications))
    case WaitSecond(seen) => ReadCounter(w, WaitSleep(seen))
    case WaitSleep(seen) => if w.notifications > seen then Move(w, WaitFirst) else Move(w, pc)
    case DisposeStore(timedOut) => Move(w.(life := Disposing), DisposeFinish(timedOut))
    case DisposeFinish(timedOut) => Move(w.(life := if timedOut then Failed else Disposed), DisposeReport)
    case DisposeReport => Move(w.(reported := true, gate := None), Idle)
  }

  /** The remaining choices: what to start, an expired quiesce deadline, a failed disposal. */
  predicate Alternative(w: Words, t: Id, pc: Pc, m: Move) {
    || (pc.Idle? && w.routing && m == Move(w, LeaseChecked))
    || (pc.Idle? && w.gate == None && m == Move(w.(gate := Some(t)), ActivateGate))
    || (pc.Idle? && w.gate == None && m == Move(w.(gate := Some(t)), DisposeGate))
    || (pc.Idle? && w.life == Ready && m == Move(w.(life := Active, opening := Some(t)), ActivateOpen(false)))
    || (Waiting(pc) && m == Move(w, DisposeStore(true)))
    || (pc.DisposeFinish? && m == Move(w.(life := Failed), DisposeReport))
  }

  predicate LocalStep(w: Words, t: Id, pc: Pc, w': Words, next: Pc) {
    Move(w', next) == Operation(w, t, pc) || Alternative(w, t, pc, Move(w', next))
  }

  /** Thread `t` takes one atomic step. */
  predicate Step(s: State, t: Id, s': State) {
    && t in s.pc && t in s'.pc && s'.pc == s.pc[t := s'.pc[t]]
    && LocalStep(s.words, t, s.pc[t], s'.words, s'.pc[t])
  }

  ghost predicate Moves(s: State, s': State) { exists t :: Step(s, t, s') }

  ghost predicate MovesAt(run: seq<State>, i: nat)
    requires i + 1 < |run|
  {
    Moves(run[i], run[i+1])
  }

  /** A finite run from the initial state, in any interleaving. */
  ghost predicate Run(run: seq<State>) {
    run != [] && Init(run[0]) && forall i {:trigger MovesAt(run, i)} :: 0 <= i < |run| - 1 ==> MovesAt(run, i)
  }

  // ---------------------------------------------------------------- the inductive invariant

  predicate Counts(pc: Pc) { pc.LeaseCounted? || pc.LeaseHeld? || pc.LeaseBackOut? }

  function Share(pc: Pc): int { if Counts(pc) then 1 else 0 }

  /** Threads between the increment of the lease counter and its decrement. */
  ghost function Counting(pc: map<Id, Pc>): set<Id> { set t | t in pc && Counts(pc[t]) }

  predicate GatedQuiesce(pc: Pc) {
    (pc.QuiesceLoad? || pc.QuiesceSwap? || pc.QuiesceClose?) && pc.gated
  }

  predicate InGate(pc: Pc) {
    || pc.ActivateGate? || (pc.ActivateOpen? && pc.gated) || pc.ActivateRelease? || pc.DisposeGate?
    || GatedQuiesce(pc) || AfterShut(pc)
  }

  /** The disposer has closed routing and has not finished. */
  predicate AfterShut(pc: Pc) {
    || (pc.QuiesceNotify? && pc.gated) || Waiting(pc)
    || pc.DisposeStore? || pc.DisposeFinish? || pc.DisposeReport?
  }

  predicate SharedInv(w: Words) {
    && (w.routing && !w.late ==> w.life == Active || w.life == Quiescing)
    && (w.shut ==> Rank(w.life) >= 2)
    && (w.shut && !w.late ==> !w.routing && w.opening.None?)
    && (w.late ==> w.shut)
    && (w.opening.Some? ==> w.life != Ready)
    && (w.life == Disposed ==> w.drained)
    && (Rank(w.life) >= 3 ==> w.shut)
    && (w.reported ==> Rank(w.life) == 4)
    && (w.drained ==> w.shut)
    && (w.shut && !w.reported ==> w.gate.Some?)
  }

  /** What holds of a thread beside the shared words. */
  predicate ThreadInv(w: Words, t: Id, pc: Pc) {
    && (InGate(pc) <==> w.gate == Some(t))
    && (w.shut && !w.reported && w.gate == Some(t) ==> AfterShut(pc))
    && (AfterShut(pc) ==> w.shut && !w.reported)
    && (pc.ActivateOpen? <==> w.opening == Some(t))
    && (pc.ActivateOpen? && pc.gated ==> !w.shut && (w.life == Active || w.life == Quiescing))
    && (pc.QuiesceSwap? ==> pc.actual == Ready || pc.actual == Active)
    && (GatedQuiesce(pc) ==> !w.reported)
    && (pc.QuiesceClose? ==> Rank(w.life) >= 2)
    && (AfterShut(pc) && !pc.DisposeFinish? && !pc.DisposeReport? ==> w.life == Quiescing)
    && (pc.DisposeFinish? ==> w.life == Disposing)
    && (pc.DisposeReport? ==> Rank(w.life) == 4)
    && ((pc.DisposeStore? || pc.DisposeFinish?) && !pc.timedOut ==> w.drained)
    && (w.drained && !w.late ==> !pc.LeaseHeld?)
    && (pc.WaitSecond? || pc.WaitSleep? ==> pc.seen <= w.notifications)
  }

  /** Thread `t` sleeps although the counter is zero and nobody has notified since it registered. */
  predicate SleepsUnnotified(w: Words, pc: Pc) {
    pc.WaitSleep? && w.leases == 0 && pc.seen == w.notifications
  }

  /** In such a case some thread is about to notify. */
  ghost predicate NoLostWakeup(s: State) {
    forall t :: t in s.pc && SleepsUnnotified(s.words, s.pc[t]) ==> SomeoneNotifies(s)
  }

  ghost predicate SomeoneNotifies(s: State) { exists u :: u in s.pc && s.pc[u].LeaseNotify? }

  ghost predicate Inv(s: State) {
    && SharedInv(s.words)
    && (forall t {:trigger ThreadInv(s.words, t, s.pc[t])} :: t in s.pc ==> ThreadInv(s.words, t, s.pc[t]))
    && (s.words.opening.Some? ==> s.words.opening.value in s.pc)
    && s.words.leases == |Counting(s.pc)|
    && NoLostWakeup(s)
  }

  lemma InitInv(s: State)
    requires Init(s)
    ensures Inv(s)
  {
    assert Counting(s.pc) == {};
  }

  lemma CountingAfter(pc: map<Id, Pc>, t: Id, now: Pc)
    requires t in pc
    ensures |Counting(pc[t := now])| == |Counting(pc)| - Share(pc[t]) + Share(now)
  {
    var before, after := Counting(pc), Counting(pc[t := now]);
    if Counts(now) {
      assert after == before + {t};
    } else {
      assert after == before - {t};
    }
  }

  /** The step's effect on the counter is the change of its own thread's share. */
  lemma LocalCount(w: Words, t: Id, pc: Pc, w': Words, next: Pc)
    requires LocalStep(w, t, pc, w', next)
    ensures w'.leases == w.leases - Share(pc) + Share(next)
  {
    if Alternative(w, t, pc, Move(w', next)) {
    } else if Counts(pc) || pc.LeaseChecked? {
    } else {
      assert w'.leases == w.leases && !Counts(next);
    }
  }

  lemma LocalShared(w: Words, t: Id, pc: Pc, w': Words, next: Pc)
    requires SharedInv(w) && ThreadInv(w, t, pc) && LocalStep(w, t, pc, w', next)
    ensures SharedInv(w')
    ensures Rank(w.life) <= Rank(w'.life) && w.notifications <= w'.notifications
    ensures (w.shut ==> w'.shut && w'.late == w.late) && (w.drained ==> w'.drained) && (w.reported ==> w'.reported)
  {
    if Alternative(w, t, pc, Move(w', next)) {
    } else if AfterShut(pc) {
      if Waiting(pc) {}
    } else if InGate(pc) {
      if GatedQuiesce(pc) {}
    }
  }

  lemma LocalOpening(w: Words, t: Id, pc: Pc, w': Words, next: Pc)
    requires LocalStep(w, t, pc, w', next)
    ensures w'.opening == w.opening || w'.opening == Some(t) || w'.opening == None
  {
    if Alternative(w, t, pc, Move(w', next)) {
    } else if pc.ActivateGate? || pc.ActivateOpen? {
    } else {
      assert w'.opening == w.opening;
    }
  }

  lemma LocalThread(w: Words, t: Id, pc: Pc, w': Words, next: Pc)
    requires SharedInv(w) && ThreadInv(w, t, pc) && LocalStep(w, t, pc, w', next)
    ensures ThreadInv(w', t, next)
  {
    if Alternative(w, t, pc, Move(w', next)) {
    } else if AfterShut(pc) {
      DisposerThread(w, t, pc);
    } else if InGate(pc) {
      GatedThread(w, t, pc);
    } else {
      FreeThread(w, t, pc);
    }
  }

  lemma DisposerThread(w: Words, t: Id, pc: Pc)
    requires SharedInv(w) && ThreadInv(w, t, pc) && AfterShut(pc)
    ensures ThreadInv(Operation(w, t, pc).words, t, Operation(w, t, pc).next)
  {
  }

  lemma GatedThread(w: Words, t: Id, pc: Pc)
    requires SharedInv(w) && ThreadInv(w, t, pc) && InGate(pc) && !AfterShut(pc)
    ensures ThreadInv(Operation(w, t, pc).words, t, Operation(w, t, pc).next)
  {
  }

  lemma FreeThread(w: Words, t: Id, pc: Pc)
    requires SharedInv(w) && ThreadInv(w, t, pc) && !InGate(pc)
    ensures ThreadInv(Operation(w, t, pc).words, t, Operation(w, t, pc).next)
  {
  }

  /** No step of one thread disturbs what is known of another. */
  lemma LocalOther(w: Words, t: Id, pc: Pc, w': Words, next: Pc, u: Id, other: Pc)
    requires SharedInv(w) && ThreadInv(w, t, pc) && LocalStep(w, t, pc, w', next)
    requires u != t && ThreadInv(w, u, other)
    requires w.leases == 0 ==> !Counts(other)
    ensures ThreadInv(w', u, other)
  {
    if Alternative(w, t, pc, Move(w', next)) {
    } else if AfterShut(pc) {
      if Waiting(pc) {}
    } else if InGate(pc) {
    }
  }

  lemma NobodyCounts(pc: map<Id, Pc>, t: Id)
    requires |Counting(pc)| == 0 && t in pc
    ensures !Counts(pc[t])
  {
    assert Counts(pc[t]) ==> t in Counting(pc);
  }

  lemma StepKeepsThreads(s: State, t: Id, s': State, u: Id)
    requires Inv(s) && Step(s, t, s') && u in s'.pc
    ensures ThreadInv(s'.words, u, s'.pc[u])
  {
    assert ThreadInv(s.words, t, s.pc[t]) && ThreadInv(s.words, u, s.pc[u]);
    if u == t {
      LocalThread(s.words, t, s.pc[t], s'.words, s'.pc[t]);
    } else {
      if s.words.leases == 0 { NobodyCounts(s.pc, u); }
      LocalOther(s.words, t, s.pc[t], s'.words, s'.pc[t], u, s.pc[u]);
    }
  }

  /** The step that takes the counter to zero is followed by a notification, and a notification counts. */
  lemma LocalWakes(w: Words, t: Id, pc: Pc, w': Words, next: Pc)
    requires LocalStep(w, t, pc, w', next) && w.leases >= 0
    ensures w'.leases == 0 && w.leases != 0 ==> next.LeaseNotify?
    ensures pc.LeaseNotify? ==> w'.notifications == w.notifications + 1
    ensures w.notifications <= w'.notifications
    ensures next.WaitSleep? ==> (next == pc) || (w' == w && w.leases != 0)
  {
    if Alternative(w, t, pc, Move(w', next)) {
    } else if Counts(pc) || pc.LeaseChecked? {
    } else if Waiting(pc) {
    }
  }

  lemma StepKeepsWakeups(s: State, t: Id, s': State)
    requires Inv(s) && Step(s, t, s')
    ensures NoLostWakeup(s')
  {
    LocalWakes(s.words, t, s.pc[t], s'.words, s'.pc[t]);
    forall x | x in s'.pc && SleepsUnnotified(s'.words, s'.pc[x]) ensures SomeoneNotifies(s') {
      assert ThreadInv(s.words, x, s.pc[x]);
      if s.words.leases == 0 {
        assert SleepsUnnotified(s.words, s.pc[x]);
        var u :| u in s.pc && s.pc[u].LeaseNotify?;
        assert u != t && s'.pc[u].LeaseNotify?;
      } else {
        assert s'.pc[t].LeaseNotify?;
      }
    }
  }

  lemma StepKeepsInv(s: State, t: Id, s': State)
    requires Inv(s) && Step(s, t, s')
    ensures Inv(s')
    ensures Rank(s.words.life) <= Rank(s'.words.life)
    ensures (s.words.shut ==> s'.words.shut && s'.words.late == s.words.late) && (s.words.drained ==> s'.words.drained)
  {
    assert ThreadInv(s.words, t, s.pc[t]);
    CountingAfter(s.pc, t, s'.pc[t]);
    LocalCount(s.words, t, s.pc[t], s'.words, s'.pc[t]);
    LocalShared(s.words, t, s.pc[t], s'.words, s'.pc[t]);
    LocalOpening(s.words, t, s.pc[t], s'.words, s'.pc[t]);
    forall u | u in s'.pc ensures ThreadInv(s'.words, u, s'.pc[u]) { StepKeepsThreads(s, t, s', u); }
    StepKeepsWakeups(s, t, s');
  }

  // ---------------------------------------------------------------- what every run satisfies

  lemma {:induction false} RunKeepsInv(run: seq<State>, i: nat)
    requires Run(run) && i < |run|
    ensures Inv(run[i])
  {
    if i == 0 {
      InitInv(run[0]);
    } else {
      RunKeepsInv(run, i - 1);
      assert MovesAt(run, i - 1);
      var t :| Step(run[i-1], t, run[i]);
      StepKeepsInv(run[i-1], t, run[i]);
    }
  }

  lemma Advance(run: seq<State>, k: nat)
    requires Run(run) && k + 1 < |run|
    ensures Rank(run[k].words.life) <= Rank(run[k+1].words.life)
    ensures run[k].words.shut ==> run[k+1].words.shut && run[k+1].words.late == run[k].words.late
    ensures run[k].words.drained ==> run[k+1].words.drained
  {
    RunKeepsInv(run, k);
    assert MovesAt(run, k);
    var t :| Step(run[k], t, run[k+1]);
    StepKeepsInv(run[k], t, run[k+1]);
  }

  /** The lifecycle never falls back, and what the disposer has closed or drained stays so. */
  lemma {:induction false} LifecycleNeverFalls(run: seq<State>, i: nat, j: nat)
    requires Run(run) && i <= j < |run|
    ensures Rank(run[i].words.life) <= Rank(run[j].words.life)
    ensures run[i].words.shut ==> run[j].words.shut && run[j].words.late == run[i].words.late
    ensures run[i].words.drained ==> run[j].words.drained
    decreases j - i
  {
    if i < j {
      LifecycleNeverFalls(run, i, j - 1);
      Advance(run, j - 1);
    }
  }

  /** From the disposer's close on, and so from Disposing on, the scope never routes again, unless the close came late. */
  lemma ShutNeverRoutes(run: seq<State>, i: nat, j: nat)
    requires Run(run) && i <= j < |run| && !run[i].words.late
    requires run[i].words.shut || Rank(run[i].words.life) >= Rank(Disposing)
    ensures !run[j].words.routing
  {
    RunKeepsInv(run, i);
    LifecycleNeverFalls(run, i, j);
    RunKeepsInv(run, j);
  }

  /** Once the wait has returned idle to the disposer no lease is held, then or later. */
  lemma DrainedHoldsNoLease(run: seq<State>, i: nat, j: nat, t: Id)
    requires Run(run) && i <= j < |run| && run[i].words.drained && !run[i].words.late && t in run[j].pc
    ensures !run[j].pc[t].LeaseHeld?
  {
    RunKeepsInv(run, i);
    LifecycleNeverFalls(run, i, j);
    RunKeepsInv(run, j);
    assert ThreadInv(run[j].words, t, run[j].pc[t]);
  }

  /** A scope that was disposed of in time routes nothing and lends nothing, then or later. */
  lemma DisposedHoldsNoLease(run: seq<State>, i: nat, j: nat, t: Id)
    requires Run(run) && i <= j < |run| && run[i].words.life == Disposed && !run[i].words.late && t in run[j].pc
    ensures !run[j].words.routing && !run[j].pc[t].LeaseHeld?
  {
    RunKeepsInv(run, i);
    ShutNeverRoutes(run, i, j);
    DrainedHoldsNoLease(run, i, j, t);
  }

  // ---------------------------------------------------------------- when the close is final

  /** Somebody has exchanged Ready for Active and not yet opened routing. */
  ghost predicate SomeoneOpens(s: State) { exists t :: t in s.pc && s.pc[t].ActivateOpen? }

  lemma OpeningIsKnown(s: State)
    requires Inv(s)
    ensures SomeoneOpens(s) <==> s.words.opening.Some?
    ensures forall t :: t in s.pc && s.pc[t].ActivateOpen? ==> s.words.opening == Some(t)
  {
    forall t | t in s.pc && s.pc[t].ActivateOpen? ensures s.words.opening == Some(t) {
      assert ThreadInv(s.words, t, s.pc[t]);
    }
    if s.words.opening.Some? {
      var t := s.words.opening.value;
      assert ThreadInv(s.words, t, s.pc[t]);
    }
  }

  /** The close of routing by the disposer. */
  ghost predicate ClosesAt(run: seq<State>, i: int, t: Id) {
    0 <= i < |run| - 1 && t in run[i].pc && run[i].pc[t] == QuiesceClose(true) && Step(run[i], t, run[i+1])
  }

  ghost predicate ClosesLate(run: seq<State>, i: int) {
    0 <= i < |run| - 1 && SomeoneOpens(run[i]) && exists t :: ClosesAt(run, i, t)
  }

  lemma LocalLate(w: Words, t: Id, pc: Pc, w': Words, next: Pc)
    requires LocalStep(w, t, pc, w', next) && ThreadInv(w, t, pc) && SharedInv(w)
    ensures w'.late <==> w.late || (pc == QuiesceClose(true) && w.opening.Some?)
  {
    if Alternative(w, t, pc, Move(w', next)) {
    }
  }

  /** A close is late exactly when somebody stood between the exchange and the opening of routing at that moment. */
  lemma {:induction false} LateExactly(run: seq<State>, k: nat)
    requires Run(run) && k < |run|
    ensures run[k].words.late <==> exists i :: 0 <= i < k && ClosesLate(run, i)
  {
    if k > 0 {
      LateExactly(run, k - 1);
      RunKeepsInv(run, k - 1);
      OpeningIsKnown(run[k-1]);
      assert MovesAt(run, k - 1);
      var t :| Step(run[k-1], t, run[k]);
      assert ThreadInv(run[k-1].words, t, run[k-1].pc[t]);
      LocalLate(run[k-1].words, t, run[k-1].pc[t], run[k].words, run[k].pc[t]);
      if ClosesLate(run, k - 1) {
        var d :| ClosesAt(run, k - 1, d);
        assert ThreadInv(run[k-1].words, d, run[k-1].pc[d]);
        LocalLate(run[k-1].words, d, run[k-1].pc[d], run[k].words, run[k].pc[d]);
      }
      if run[k].words.late && !run[k-1].words.late {
        assert ClosesAt(run, k - 1, t);
      }
    }
  }

  ghost predicate RoutesAt(run: seq<State>, k: int) { Run(run) && 0 <= k < |run| && run[k].words.routing }

  /** At this step a thread comes to hold a lease. */
  ghost predicate GrantsAt(run: seq<State>, k: int) {
    Run(run) && 0 <= k < |run| - 1 && exists t :: Step(run[k], t, run[k+1]) && !run[k].pc[t].LeaseHeld? && run[k+1].pc[t].LeaseHeld?
  }

  /** However the run goes on, nothing is routed any more. */
  ghost predicate NeverRoutes(past: seq<State>) {
    forall more, k {:trigger RoutesAt(past + more, k)} :: k >= |past| - 1 ==> !RoutesAt(past + more, k)
  }

  /** However the run goes on, no lease is granted any more. */
  ghost predicate NeverGrants(past: seq<State>) {
    forall more, k {:trigger GrantsAt(past + more, k)} :: k >= |past| - 1 ==> !GrantsAt(past + more, k)
  }

  predicate Sealed(w: Words) { w.shut && !w.routing && w.opening.None? }

  lemma LocalSealed(w: Words, t: Id, pc: Pc, w': Words, next: Pc)
    requires SharedInv(w) && ThreadInv(w, t, pc) && LocalStep(w, t, pc, w', next) && Sealed(w)
    ensures Sealed(w') && (next.LeaseHeld? ==> pc.LeaseHeld?)
  {
    if Alternative(w, t, pc, Move(w', next)) {
    }
  }

  lemma {:induction false} StaysSealed(run: seq<State>, i: nat, j: nat)
    requires Run(run) && i <= j < |run| && Sealed(run[i].words)
    ensures Sealed(run[j].words)
    decreases j - i
  {
    if i < j {
      StaysSealed(run, i, j - 1);
      RunKeepsInv(run, j - 1);
      assert MovesAt(run, j - 1);
      var t :| Step(run[j-1], t, run[j]);
      assert ThreadInv(run[j-1].words, t, run[j-1].pc[t]);
      LocalSealed(run[j-1].words, t, run[j-1].pc[t], run[j].words, run[j].pc[t]);
    }
  }

  lemma SealedGrantsNothing(run: seq<State>, j: nat, t: Id)
    requires Run(run) && j < |run| - 1 && Sealed(run[j].words) && Step(run[j], t, run[j+1])
    ensures run[j+1].pc[t].LeaseHeld? ==> run[j].pc[t].LeaseHeld?
  {
    RunKeepsInv(run, j);
    assert ThreadInv(run[j].words, t, run[j].pc[t]);
    LocalSealed(run[j].words, t, run[j].pc[t], run[j+1].words, run[j+1].pc[t]);
  }

  /** After a close in time no thread's second look at routing succeeds: no lease is granted any more. */
  lemma ShutGrantsNoLease(run: seq<State>, i: nat, j: nat, t: Id)
    requires Run(run) && i <= j < |run| - 1 && run[i].words.shut && !run[i].words.late && Step(run[j], t, run[j+1])
    ensures run[j+1].pc[t].LeaseHeld? ==> run[j].pc[t].LeaseHeld?
  {
    RunKeepsInv(run, i);
    StaysSealed(run, i, j);
    SealedGrantsNothing(run, j, t);
  }

  function Last(run: seq<State>): State
    requires run != []
  {
    run[|run|-1]
  }

  /** One more step of one thread. */
  lemma Goes(run: seq<State>, t: Id, m: Move) returns (longer: seq<State>)
    requires Run(run) && t in Last(run).pc && LocalStep(Last(run).words, t, Last(run).pc[t], m.words, m.next)
    ensures longer == run + [State(m.words, Last(run).pc[t := m.next])] && Run(longer)
  {
    var s' := State(m.words, Last(run).pc[t := m.next]);
    longer := run + [s'];
    assert Step(Last(run), t, s');
    forall i | 0 <= i < |longer| - 1 ensures MovesAt(longer, i) {
      if i < |run| - 1 {
        assert MovesAt(run, i);
      }
    }
  }

  lemma Continues(run: seq<State>, t: Id) returns (longer: seq<State>)
    requires Run(run) && t in Last(run).pc
    ensures var m := Operation(Last(run).words, t, Last(run).pc[t]);
      longer == run + [State(m.words, Last(run).pc[t := m.next])]
    ensures Run(longer)
  {
    longer := Goes(run, t, Operation(Last(run).words, t, Last(run).pc[t]));
  }

  /** An activator that was overtaken by the close opens routing all the same, and can lease at once. */
  lemma Reopens(past: seq<State>, u: Id) returns (more: seq<State>)
    requires Run(past) && Last(past).words.shut && u in Last(past).pc && Last(past).pc[u].ActivateOpen?
    ensures RoutesAt(past + more, |past|) && GrantsAt(past + more, |past| + 2)
    ensures Last(past + more) == State(
      Last(past).words.(routing := true, opening := None, leases := Last(past).words.leases + 1), Last(past).pc[u := LeaseHeld])
  {
    RunKeepsInv(past, |past| - 1);
    assert ThreadInv(Last(past).words, u, Last(past).pc[u]);
    var open := Continues(past, u);
    var checked := Goes(open, u, Move(Last(open).words, LeaseChecked));
    var counted := Continues(checked, u);
    var held := Continues(counted, u);
    more := held[|past|..];
    assert held == past + more;
    assert Step(held[|past|+2], u, held[|past|+3]);
  }

  /** Once the disposer has closed it, a scope never routes again exactly when it does not route and nobody is opening it. */
  lemma NeverRoutesExactly(past: seq<State>)
    requires Run(past) && Last(past).words.shut
    ensures NeverRoutes(past) <==> !Last(past).words.routing && !SomeoneOpens(Last(past))
  {
    RunKeepsInv(past, |past| - 1);
    OpeningIsKnown(Last(past));
    if Sealed(Last(past).words) {
      forall more, k | k >= |past| - 1 ensures !RoutesAt(past + more, k) {
        if RoutesAt(past + more, k) {
          StaysSealed(past + more, |past| - 1, k);
        }
      }
    } else if Last(past).words.routing {
      assert past + [] == past && RoutesAt(past + [], |past| - 1);
    } else {
      var u :| u in Last(past).pc && Last(past).pc[u].ActivateOpen?;
      var more := Reopens(past, u);
    }
  }

  /** The disposer's close is final, for routing and for leases, exactly when nobody stands just before opening routing. */
  lemma CloseIsFinalExactly(run: seq<State>, i: nat, t: Id)
    requires Run(run) && ClosesAt(run, i, t)
    ensures Run(run[..i+2])
    ensures NeverRoutes(run[..i+2]) <==> !SomeoneOpens(run[i])
    ensures NeverGrants(run[..i+2]) <==> !SomeoneOpens(run[i])
  {
    var past := run[..i+2];
    PrefixRuns(run, i + 2);
    assert Last(past) == run[i+1] && run[i+1].words.shut && !run[i+1].words.routing;
    assert SomeoneOpens(run[i]) <==> SomeoneOpens(run[i+1]) by { SameOpeners(run[i], t, run[i+1]); }
    NeverRoutesExactly(past);
    NeverGrantsExactly(past);
  }

  lemma SameOpeners(s: State, t: Id, s': State)
    requires Step(s, t, s') && !s.pc[t].ActivateOpen? && !s'.pc[t].ActivateOpen?
    ensures SomeoneOpens(s) <==> SomeoneOpens(s')
  {
    if u :| u in s.pc && s.pc[u].ActivateOpen? {
      assert s'.pc[u].ActivateOpen?;
    }
    if u :| u in s'.pc && s'.pc[u].ActivateOpen? {
      assert s.pc[u].ActivateOpen?;
    }
  }

  lemma PrefixRuns(run: seq<State>, n: nat)
    requires Run(run) && 0 < n <= |run|
    ensures Run(run[..n])
  {
    forall i | 0 <= i < n - 1 ensures MovesAt(run[..n], i) {
      assert MovesAt(run, i);
    }
  }

  lemma NeverGrantsExactly(past: seq<State>)
    requires Run(past) && Last(past).words.shut && !Last(past).words.routing
    ensures NeverGrants(past) <==> !SomeoneOpens(Last(past))
  {
    RunKeepsInv(past, |past| - 1);
    OpeningIsKnown(Last(past));
    if SomeoneOpens(Last(past)) {
      var u :| u in Last(past).pc && Last(past).pc[u].ActivateOpen?;
      var more := Reopens(past, u);
    } else {
      forall more, k | k >= |past| - 1 ensures !GrantsAt(past + more, k) {
        if GrantsAt(past + more, k) {
          var run := past + more;
          var t :| Step(run[k], t, run[k+1]) && !run[k].pc[t].LeaseHeld? && run[k+1].pc[t].LeaseHeld?;
          StaysSealed(run, |past| - 1, k);
          SealedGrantsNothing(run, k, t);
        }
      }
    }
  }

  // ---------------------------------------------------------------- two runs

  /** A disposer alone closes routing. */
  lemma ClosesAll(run: seq<State>, d: Id) returns (longer: seq<State>)
    requires Run(run) && d in Last(run).pc && Last(run).pc[d].Idle?
    requires Last(run).words.life == Active && Last(run).words.gate == None && !Last(run).words.reported
    ensures Run(longer) && Last(longer).pc == Last(run).pc[d := QuiesceNotify(true)]
    ensures var w := Last(run).words;
      Last(longer).words == w.(life := Quiescing, routing := false, gate := Some(d), shut := true, late := w.late || w.opening.Some?)
  {
    longer := Goes(run, d, Move(Last(run).words.(gate := Some(d)), DisposeGate));
    longer := Continues(longer, d);   // no report yet
    longer := Continues(longer, d);   // loads Active
    longer := Continues(longer, d);   // exchanges it for Quiescing
    longer := Continues(longer, d);   // closes routing
  }

  /** A disposer alone runs from its gate to its report. */
  lemma DisposesAll(run: seq<State>, d: Id) returns (longer: seq<State>)
    requires Run(run) && d in Last(run).pc && Last(run).pc[d].Idle?
    requires Last(run).words.life == Active && Last(run).words.gate == None && Last(run).words.leases == 0 && !Last(run).words.reported
    ensures Run(longer) && Last(longer).pc == Last(run).pc
    ensures var w := Last(run).words; Last(longer).words == w.(
      life := Disposed, routing := false, notifications := w.notifications + 1, reported := true, shut := true,
      late := w.late || w.opening.Some?, drained := true)
  {
    longer := ClosesAll(run, d);
    longer := Continues(longer, d);   // notifies
    longer := Continues(longer, d);   // reads zero
    assert Last(longer).pc == Last(run).pc[d := DisposeStore(false)];
    longer := Continues(longer, d);   // stores Disposing
    longer := Continues(longer, d);   // stores Disposed
    assert Last(longer).pc == Last(run).pc[d := DisposeReport];
    longer := Continues(longer, d);   // caches the report
    assert Last(longer).pc == Last(run).pc;
  }

  /** An activator in `from_active` holds no gate: overtaken by a whole disposal, it routes and leases a Disposed scope. */
  lemma DisposedCanRoute() returns (run: seq<State>, a: Id)
    ensures Run(run) && Last(run).words.life == Disposed && Last(run).words.reported && Last(run).words.routing
    ensures a in Last(run).pc && Last(run).pc[a].LeaseHeld?
  {
    var d;
    a, d := Id(0), Id(1);
    var s := State(Words(Ready, false, 0, 0, None, false, None, false, false, false), map[a := Idle, d := Idle]);
    run := Goes([s], a, Move(s.words.(life := Active, opening := Some(a)), ActivateOpen(false)));
    run := DisposesAll(run, d);
    var more := Reopens(run, a);
    run := run + more;
  }

  /** The raw counter of a Disposed scope can show an attempt that is about to fail. */
  lemma DisposedCanCountAnAttempt() returns (run: seq<State>)
    ensures Run(run) && Last(run).words.life == Disposed && !Last(run).words.late && Last(run).words.leases == 1
    ensures forall t :: t in Last(run).pc ==> !Last(run).pc[t].LeaseHeld?
  {
    var a, d := Id(0), Id(1);
    var s := State(Words(Ready, false, 0, 0, None, false, None, false, false, false), map[a := Idle, d := Idle]);
    run := Goes([s], a, Move(s.words.(life := Active, opening := Some(a)), ActivateOpen(false)));
    run := Continues(run, a);
    run := Goes(run, a, Move(Last(run).words, LeaseChecked));
    run := DisposesAll(run, d);
    run := Continues(run, a);
  }

  // ---------------------------------------------------------------- waiting, counting and the gate

  /** A sleeper at count zero has been notified since it registered, or a notification is still to come. */
  lemma WakeupsAreNotLost(run: seq<State>, i: nat, t: Id)
    requires Run(run) && i < |run| && t in run[i].pc && run[i].pc[t].WaitSleep? && run[i].words.leases == 0
    ensures run[i].words.notifications > run[i].pc[t].seen || SomeoneNotifies(run[i])
  {
    RunKeepsInv(run, i);
    assert ThreadInv(run[i].words, t, run[i].pc[t]);
  }

  /** The counter never underflows: it is the number of leases held or still being decided. */
  lemma CounterIsExact(run: seq<State>, i: nat)
    requires Run(run) && i < |run|
    ensures run[i].words.leases == |Counting(run[i].pc)|
    ensures forall t :: t in run[i].pc && run[i].pc[t].LeaseHeld? ==> run[i].words.leases > 0
  {
    RunKeepsInv(run, i);
    forall t | t in run[i].pc && run[i].pc[t].LeaseHeld? ensures run[i].words.leases > 0 {
      assert t in Counting(run[i].pc);
    }
  }

  /** Activation and disposal exclude one another. */
  lemma GateIsExclusive(run: seq<State>, i: nat, t: Id, u: Id)
    requires Run(run) && i < |run| && t in run[i].pc && u in run[i].pc
    requires InGate(run[i].pc[t]) && InGate(run[i].pc[u])
    ensures t == u
  {
    RunKeepsInv(run, i);
    assert ThreadInv(run[i].words, t, run[i].pc[t]) && ThreadInv(run[i].words, u, run[i].pc[u]);
  }

  /** Activation under the gate, as a slot does it, can never make a close late. */
  lemma GatedActivationIsInTime(run: seq<State>, k: nat)
    requires Run(run) && k < |run|
    requires forall i, t :: 0 <= i < k && t in run[i].pc ==> run[i].pc[t] != ActivateOpen(false)
    ensures !run[k].words.late
  {
    LateExactly(run, k);
    if i :| 0 <= i < k && ClosesLate(run, i) {
      var d :| ClosesAt(run, i, d);
      var u :| u in run[i].pc && run[i].pc[u].ActivateOpen?;
      GateIsExclusive(run, i, d, u);
    }
  }
}
