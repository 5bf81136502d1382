/** What holds over every run of the grant store (grant.rs). */
module GrantHistory {
  import opened Basics
  import opened Grants

  /** One operation at one reading of the clock, with the store before and after it. */
  datatype Event = Event(op: Op, now: nat, before: Store, after: Store, reply: Reply)

  ghost predicate EventAt(run: seq<Event>, i: int) {
    && 0 <= i < |run|
    && (run[i].after, run[i].reply) == Apply(run[i].before, run[i].op, run[i].now)
    && (if i == 0 then run[i].before == Store(map[], map[]) else run[i].before == run[i-1].after && run[i-1].now <= run[i].now)
  }

  /** Any operations in any order, on a clock that never goes back. */
  ghost predicate Run(run: seq<Event>) {
    forall i {:trigger EventAt(run, i)} :: 0 <= i < |run| ==> EventAt(run, i)
  }

  // ---------------------------------------------------------------- one step

  /** A grant keeps what it was issued for; use and revocation are never taken back. */
  ghost predicate Ages(g: PluginGrant, later: PluginGrant) {
    && later == g.(revoked := later.revoked, used := later.used, inFlight := later.inFlight)
    && (g.revoked.Some? ==> later.revoked.Some?)
    && (g.used ==> later.used)
  }

  ghost predicate AllAge(s: Store, t: Store) {
    forall h :: h in s.grants ==> h in t.grants && Ages(s.grants[h], t.grants[h])
  }

  lemma StepAges(s: Store, op: Op, now: nat)
    ensures AllAge(s, Apply(s, op, now).0)
  {
  }

  /**
   * No used grant is reserved, reservations are for allow-once grants, and the only handle of a durable id that can be
   * live is the one on record for it.
   */
  ghost predicate Sound(s: Store, now: nat) {
    && (forall h :: h in s.grants && s.grants[h].inFlight ==> !s.grants[h].used && s.grants[h].source.AllowOnce?)
    && (forall h :: h in s.grants && IsActive(s.grants[h], now) ==> Recorded(s, h))
  }

  ghost predicate Recorded(s: Store, h: Id)
    requires h in s.grants
  {
    s.grants[h].durable in s.durable && s.durable[s.grants[h].durable] == h
  }

  lemma LaterIsSound(s: Store, now: nat, later: nat)
    requires Sound(s, now) && now <= later
    ensures Sound(s, later)
  {
  }

  lemma StepKeepsSound(s: Store, op: Op, now: nat)
    requires Sound(s, now)
    ensures Sound(Apply(s, op, now).0, now)
  {
    StepAges(s, op, now);
    match op
    case Issue(_, _) =>
    case Invalidate(_) =>
    case Complete(_, _) =>
    case _ =>
  }

  lemma {:induction false} RunKeepsSound(run: seq<Event>, i: nat)
    requires Run(run) && i < |run|
    ensures Sound(run[i].before, run[i].now) && Sound(run[i].after, run[i].now)
  {
    assert EventAt(run, i);
    if i > 0 {
      RunKeepsSound(run, i - 1);
      LaterIsSound(run[i].before, run[i-1].now, run[i].now);
    }
    StepKeepsSound(run[i].before, run[i].op, run[i].now);
  }

  lemma {:induction false} RunAges(run: seq<Event>, i: nat, j: nat, h: Id)
    requires Run(run) && i <= j < |run| && h in run[i].after.grants
    ensures h in run[j].after.grants && Ages(run[i].after.grants[h], run[j].after.grants[h])
    ensures i < j ==> h in run[j].before.grants && Ages(run[i].after.grants[h], run[j].before.grants[h])
  {
    if i < j {
      RunAges(run, i, j - 1, h);
      assert EventAt(run, j);
      StepAges(run[j].before, run[j].op, run[j].now);
    }
  }

  // ---------------------------------------------------------------- at most one live handle

  /** Whenever two handles of one durable id are both live they are the same handle, the one on record. */
  lemma OneLiveHandle(run: seq<Event>, i: nat, now: nat, a: Id, b: Id)
    requires Run(run) && i < |run| && run[i].now <= now
    requires a in run[i].after.grants && b in run[i].after.grants
    requires run[i].after.grants[a].durable == run[i].after.grants[b].durable
    requires IsActive(run[i].after.grants[a], now) && IsActive(run[i].after.grants[b], now)
    ensures a == b && Recorded(run[i].after, a)
  {
    RunKeepsSound(run, i);
    LaterIsSound(run[i].after, run[i].now, now);
  }

  // ---------------------------------------------------------------- revocation and use are final

  ghost predicate Admits(e: Event, h: Id) { e.op.Admit? && e.op.call.handle == h && e.reply == Allowed }

  /** A completion that took effect. */
  ghost predicate Completes(e: Event, h: Id) { e.op.Complete? && e.op.handle == h && e.reply == Answer(true) }

  /** A completion after which the grant counts as used. */
  ghost predicate UsesUp(e: Event, h: Id) { Completes(e, h) && !e.op.completion.FailureBeforeDispatch? }

  ghost predicate Spent(g: PluginGrant, now: nat) { g.revoked.Some? || g.used || g.expires <= now }

  lemma {:induction false} ClockRuns(run: seq<Event>, i: nat, j: nat)
    requires Run(run) && i <= j < |run|
    ensures run[i].now <= run[j].now
  {
    if i < j {
      ClockRuns(run, i, j - 1);
      assert EventAt(run, j);
    }
  }

  /** Once revoked, used or expired, a grant is never live or admitted again. */
  lemma SpentIsFinal(run: seq<Event>, i: nat, j: nat, h: Id)
    requires Run(run) && i < j < |run| && h in run[i].after.grants && Spent(run[i].after.grants[h], run[i].now)
    ensures h in run[j].after.grants && Spent(run[j].after.grants[h], run[j].now) && !IsActive(run[j].after.grants[h], run[j].now)
    ensures !Admits(run[j], h)
  {
    RunAges(run, i, j, h);
    ClockRuns(run, i, j);
    assert EventAt(run, j);
    RunKeepsSound(run, j);
  }

  /** Revoking, by handle, by durable id or by sweeping a project, host or workspace, is permanent. */
  lemma RevocationIsPermanent(run: seq<Event>, i: nat, j: nat, h: Id)
    requires Run(run) && i < j < |run| && h in run[i].before.grants && Revokes(run[i], h)
    ensures h in run[j].after.grants && run[j].after.grants[h].revoked.Some? && !Admits(run[j], h)
  {
    assert EventAt(run, i);
    RunAges(run, i, j, h);
    SpentIsFinal(run, i, j, h);
  }

  ghost predicate Revokes(e: Event, h: Id)
    requires h in e.before.grants
  {
    match e.op
    case Revoke(handle) => handle == h
    case RevokeDurable(durable) => durable in e.before.durable && e.before.durable[durable] == h
    case Invalidate(target) => Targets(e.before.grants[h], target)
    case _ => false
  }

  // ---------------------------------------------------------------- linear use

  lemma CompletionTakesReservation(run: seq<Event>, i: nat, h: Id)
    requires Run(run) && i < |run| && Completes(run[i], h)
    ensures h in run[i].before.grants && run[i].before.grants[h].inFlight && run[i].before.grants[h].source.AllowOnce?
    ensures h in run[i].after.grants && !run[i].after.grants[h].inFlight && (UsesUp(run[i], h) ==> run[i].after.grants[h].used)
  {
    assert EventAt(run, i);
  }

  /** An allow-once grant is used up at most once, and nothing is allowed on it afterwards. */
  lemma UsedUpOnce(run: seq<Event>, i: nat, j: nat, h: Id)
    requires Run(run) && i < j < |run| && UsesUp(run[i], h)
    ensures !Completes(run[j], h) && !Admits(run[j], h)
  {
    CompletionTakesReservation(run, i, h);
    SpentIsFinal(run, i, j, h);
    RunAges(run, i, j, h);
    RunKeepsSound(run, j);
    if Completes(run[j], h) { CompletionTakesReservation(run, j, h); }
  }

  /** A reservation ends only with a completion. */
  lemma ReservationHolds(s: Store, op: Op, now: nat, h: Id)
    requires h in s.grants && s.grants[h].inFlight
    requires !(op.Complete? && op.handle == h && Apply(s, op, now).1 == Answer(true))
    ensures h in Apply(s, op, now).0.grants && Apply(s, op, now).0.grants[h].inFlight
  {
  }

  lemma {:induction false} ReservationEndedAt(run: seq<Event>, i: nat, j: nat, h: Id) returns (k: nat)
    requires Run(run) && i < j < |run| && h in run[i].after.grants && run[i].after.grants[h].inFlight
    requires h in run[j].before.grants && !run[j].before.grants[h].inFlight
    ensures i < k < j && Completes(run[k], h)
  {
    assert EventAt(run, j);
    assert j - 1 > i;
    RunAges(run, i, j - 1, h);
    assert EventAt(run, j - 1);
    if Completes(run[j-1], h) {
      k := j - 1;
    } else {
      if run[j-1].before.grants[h].inFlight { ReservationHolds(run[j-1].before, run[j-1].op, run[j-1].now, h); }
      k := ReservationEndedAt(run, i, j - 1, h);
    }
  }

  /** Between two admissions of the same allow-once grant lies a failure before dispatch. */
  lemma AdmissionsAreSeparated(run: seq<Event>, i: nat, j: nat, h: Id) returns (k: nat)
    requires Run(run) && i < j < |run| && Admits(run[i], h) && Admits(run[j], h)
    requires h in run[i].after.grants && run[i].after.grants[h].source.AllowOnce?
    ensures i < k < j && Completes(run[k], h) && run[k].op.completion.FailureBeforeDispatch?
  {
    assert EventAt(run, i) && EventAt(run, j);
    RunAges(run, i, j, h);
    k := ReservationEndedAt(run, i, j, h);
    if UsesUp(run[k], h) { UsedUpOnce(run, k, j, h); }
  }

  /** An admission means the grant was live and for exactly this call. */
  lemma AdmissionIsJustified(run: seq<Event>, i: nat, h: Id)
    requires Run(run) && i < |run| && Admits(run[i], h)
    ensures h in run[i].before.grants
    ensures var g := run[i].before.grants[h];
      && IsActive(g, run[i].now) && g.binding == run[i].op.call.binding && Recorded(run[i].before, h)
      && UseAllowed(g.binding.permission, g.constraints, run[i].op.call.permissionUse)
      && (g.source.AllowOnce? ==> h in run[i].after.grants && run[i].after.grants[h].inFlight)
  {
    assert EventAt(run, i);
    RunKeepsSound(run, i);
    PassesExactly(run[i].before.grants[h], run[i].op.call, run[i].now, false);
  }
}
