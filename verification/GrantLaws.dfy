/** What a run of the grant store says about the requests that were made of it, and when a call is admitted (grant.rs). */
module GrantLaws {
  import opened Basics
  import opened Grants
  import opened GrantHistory
  import Glob
  import Hosts

  ghost predicate IssuesAt(run: seq<Event>, k: int, h: Id) {
    0 <= k < |run| && run[k].op.Issue? && run[k].reply == Issued(h)
  }

  /** What the caller asked for. */
  ghost function Asked(run: seq<Event>, k: int): GrantRequest
    requires 0 <= k < |run| && run[k].op.Issue?
  {
    run[k].op.request
  }

  /** The grant on record is the one that was asked for. */
  ghost predicate Honours(g: PluginGrant, r: GrantRequest) {
    && g.durable == r.durable && g.root == r.root && g.binding == r.binding && g.constraints == r.constraints
    && g.source == r.source && g.expires == r.expires
  }

  // ---------------------------------------------------------------- one step

  /** A revocation of a handle, as seen from the request that it was issued for. */
  ghost predicate Withdraws(e: Event, r: GrantRequest, h: Id) {
    match e.op
    case Revoke(handle) => handle == h
    case RevokeDurable(durable) => durable in e.before.durable && e.before.durable[durable] == h
    case Invalidate(OfProject(root)) => r.root == root
    case Invalidate(OfHost(host)) => r.binding.host == host
    case Invalidate(OfWorkspace(workspace)) => r.binding.workspace == Some(workspace)
    case _ => false
  }

  lemma StepTurnsFlags(run: seq<Event>, i: nat, h: Id, r: GrantRequest)
    requires Run(run) && i < |run| && h in run[i].before.grants && Honours(run[i].before.grants[h], r)
    ensures h in run[i].after.grants && Honours(run[i].after.grants[h], r)
    ensures var g, later := run[i].before.grants[h], run[i].after.grants[h];
      && (later.revoked.Some? <==> g.revoked.Some? || Withdraws(run[i], r, h))
      && (later.used <==> g.used || UsesUp(run[i], h))
      && (r.source.AllowOnce? ==> (later.inFlight <==> Admits(run[i], h) || (g.inFlight && !Completes(run[i], h))))
  {
    assert EventAt(run, i);
    match run[i].op
    case Issue(_, _) =>
    case Invalidate(_) =>
    case Admit(_) =>
    case Complete(_, _) =>
    case _ =>
  }

  lemma IssueFiles(run: seq<Event>, k: nat, h: Id)
    requires Run(run) && IssuesAt(run, k, h)
    ensures h !in run[k].before.grants && h in run[k].after.grants && Honours(run[k].after.grants[h], Asked(run, k))
    ensures var g := run[k].after.grants[h]; g.revoked.None? && !g.used && !g.inFlight
  {
    assert EventAt(run, k);
  }

  // ---------------------------------------------------------------- what the flags remember

  ghost predicate WithdrawnWithin(run: seq<Event>, k: nat, i: nat, r: GrantRequest, h: Id)
    requires i <= |run|
  {
    exists m :: k < m < i && Withdraws(run[m], r, h)
  }

  ghost predicate UsedUpWithin(run: seq<Event>, k: nat, i: nat, h: Id)
    requires i <= |run|
  {
    exists m :: k < m < i && UsesUp(run[m], h)
  }

  ghost predicate OpenSince(run: seq<Event>, m: nat, i: nat, h: Id)
    requires i <= |run|
  {
    m < i && Admits(run[m], h) && forall c :: m < c < i ==> !Completes(run[c], h)
  }

  /** An admitted call has not been completed yet. */
  ghost predicate OpenWithin(run: seq<Event>, k: nat, i: nat, h: Id)
    requires i <= |run|
  {
    exists m: nat :: k < m && OpenSince(run, m, i, h)
  }

  lemma OpenStep(run: seq<Event>, k: nat, i: nat, h: Id)
    requires k < i < |run|
    ensures OpenWithin(run, k, i + 1, h) <==> Admits(run[i], h) || (OpenWithin(run, k, i, h) && !Completes(run[i], h))
  {
    if OpenWithin(run, k, i + 1, h) {
      var m: nat :| k < m && OpenSince(run, m, i + 1, h);
      if m < i { assert OpenSince(run, m, i, h) && !Completes(run[i], h); }
    }
    if Admits(run[i], h) {
      assert OpenSince(run, i, i + 1, h);
    } else if OpenWithin(run, k, i, h) && !Completes(run[i], h) {
      var m: nat :| k < m && OpenSince(run, m, i, h);
      assert OpenSince(run, m, i + 1, h);
    }
  }

  lemma WithinStep(run: seq<Event>, k: nat, i: nat, r: GrantRequest, h: Id)
    requires k < i < |run|
    ensures WithdrawnWithin(run, k, i + 1, r, h) <==> WithdrawnWithin(run, k, i, r, h) || Withdraws(run[i], r, h)
    ensures UsedUpWithin(run, k, i + 1, h) <==> UsedUpWithin(run, k, i, h) || UsesUp(run[i], h)
  {
  }

  /** From its issue on, the grant on record is what was asked for, and its flags are the history of its handle. */
  ghost predicate Remembers(run: seq<Event>, k: nat, i: nat, h: Id, g: PluginGrant)
    requires i <= |run| && IssuesAt(run, k, h)
  {
    var r := Asked(run, k);
    && Honours(g, r)
    && (g.revoked.Some? <==> WithdrawnWithin(run, k, i, r, h))
    && (g.used <==> UsedUpWithin(run, k, i, h))
    && (r.source.AllowOnce? ==> (g.inFlight <==> OpenWithin(run, k, i, h)))
  }

  lemma {:induction false} FlagsTellHistory(run: seq<Event>, k: nat, i: nat, h: Id)
    requires Run(run) && IssuesAt(run, k, h) && k < i < |run|
    ensures h in run[i].before.grants && Remembers(run, k, i, h, run[i].before.grants[h])
    decreases i
  {
    assert EventAt(run, i);
    IssueFiles(run, k, h);
    if i > k + 1 {
      FlagsTellHistory(run, k, i - 1, h);
      StepTurnsFlags(run, i - 1, h, Asked(run, k));
      OpenStep(run, k, i - 1, h);
      WithinStep(run, k, i - 1, Asked(run, k), h);
    }
  }

  // ---------------------------------------------------------------- every handle was issued once

  lemma {:induction false} WasIssued(run: seq<Event>, i: nat, h: Id) returns (k: nat)
    requires Run(run) && i < |run| && h in run[i].before.grants
    ensures k < i && IssuesAt(run, k, h)
  {
    assert EventAt(run, i) && EventAt(run, i - 1);
    if h in run[i-1].before.grants {
      k := WasIssued(run, i - 1, h);
    } else {
      k := i - 1;
    }
  }

  /** No handle is ever issued twice. */
  lemma IssuedOnce(run: seq<Event>, k: nat, j: nat, h: Id)
    requires Run(run) && IssuesAt(run, k, h) && IssuesAt(run, j, h)
    ensures k == j
  {
    if k < j {
      FlagsTellHistory(run, k, j, h);
      IssueFiles(run, j, h);
    } else if j < k {
      FlagsTellHistory(run, j, k, h);
      IssueFiles(run, k, h);
    }
  }

  // ---------------------------------------------------------------- when a call is admitted, and when a completion counts

  /** The request behind the handle covers the call, and nothing that has happened since stands against it. */
  ghost predicate Covered(run: seq<Event>, k: nat, i: nat, call: Call)
    requires i < |run|
  {
    && k < i && IssuesAt(run, k, call.handle)
    && var r := Asked(run, k);
    && r.binding == call.binding && UseAllowed(r.binding.permission, r.constraints, call.permissionUse)
    && run[i].now < r.expires && !WithdrawnWithin(run, k, i, r, call.handle)
    && (r.source.AllowOnce? ==> !OpenWithin(run, k, i, call.handle) && !UsedUpWithin(run, k, i, call.handle))
  }

  /** Only allow-once grants are ever reserved or used up. */
  lemma {:induction false} OnlyAllowOnceIsUsed(run: seq<Event>, k: nat, i: nat, h: Id)
    requires Run(run) && IssuesAt(run, k, h) && k < i < |run| && Asked(run, k).source.Project?
    ensures h in run[i].before.grants && !run[i].before.grants[h].used && !run[i].before.grants[h].inFlight
  {
    FlagsTellHistory(run, k, i, h);
    assert EventAt(run, i);
    if i == k + 1 {
      IssueFiles(run, k, h);
    } else {
      OnlyAllowOnceIsUsed(run, k, i - 1, h);
      FlagsTellHistory(run, k, i - 1, h);
      assert EventAt(run, i - 1);
    }
  }

  /** A call is admitted exactly when the request that its handle was issued for covers it. */
  lemma AdmittedExactly(run: seq<Event>, i: nat)
    requires Run(run) && i < |run| && run[i].op.Admit?
    ensures run[i].reply == Allowed <==> exists k: nat :: Covered(run, k, i, run[i].op.call)
  {
    var call := run[i].op.call;
    var h := call.handle;
    assert EventAt(run, i);
    if h in run[i].before.grants {
      var k := WasIssued(run, i, h);
      FlagsTellHistory(run, k, i, h);
      if Asked(run, k).source.Project? { OnlyAllowOnceIsUsed(run, k, i, h); }
      PassesExactly(run[i].before.grants[h], call, run[i].now, false);
      assert run[i].reply == Allowed ==> Covered(run, k, i, call);
      if j: nat :| Covered(run, j, i, call) {
        IssuedOnce(run, j, k, h);
      }
    } else if j: nat :| Covered(run, j, i, call) {
      FlagsTellHistory(run, j, i, h);
    }
  }

  /** A completion takes effect exactly when it ends an admitted call of an allow-once request. */
  lemma CompletedExactly(run: seq<Event>, i: nat)
    requires Run(run) && i < |run| && run[i].op.Complete?
    ensures var h := run[i].op.handle;
      run[i].reply == Answer(true) <==>
        exists k: nat :: k < i && IssuesAt(run, k, h) && Asked(run, k).source.AllowOnce? && OpenWithin(run, k, i, h)
  {
    var h := run[i].op.handle;
    assert EventAt(run, i);
    if h in run[i].before.grants {
      var k := WasIssued(run, i, h);
      FlagsTellHistory(run, k, i, h);
      if j: nat :| j < i && IssuesAt(run, j, h) && Asked(run, j).source.AllowOnce? && OpenWithin(run, j, i, h) {
        IssuedOnce(run, j, k, h);
      }
    } else if j: nat :| j < i && IssuesAt(run, j, h) && Asked(run, j).source.AllowOnce? && OpenWithin(run, j, i, h) {
      FlagsTellHistory(run, j, i, h);
    }
  }

  /** The first completion after an admission of an allow-once request counts; success or uncertainty is the end of it. */
  lemma AllowOnceIsOnce(run: seq<Event>, k: nat, i: nat, c: nat, j: nat, h: Id)
    requires Run(run) && IssuesAt(run, k, h) && Asked(run, k).source.AllowOnce? && k < i < c < j < |run|
    requires Admits(run[i], h) && run[c].op.Complete? && run[c].op.handle == h && !run[c].op.completion.FailureBeforeDispatch?
    requires forall m :: i < m < c ==> !(run[m].op.Complete? && run[m].op.handle == h)
    ensures run[c].reply == Answer(true) && !Admits(run[j], h)
  {
    assert OpenSince(run, i, c, h);
    CompletedExactly(run, c);
    assert UsesUp(run[c], h);
    UsedUpOnce(run, c, j, h);
  }

  /** Between two admissions of an allow-once request lies a completion that reported a failure before dispatch. */
  lemma AllowOnceIsSeparated(run: seq<Event>, k: nat, i: nat, j: nat, h: Id) returns (c: nat)
    requires Run(run) && IssuesAt(run, k, h) && Asked(run, k).source.AllowOnce? && k < i < j < |run|
    requires Admits(run[i], h) && Admits(run[j], h)
    ensures i < c < j && Completes(run[c], h) && run[c].op.completion.FailureBeforeDispatch?
  {
    assert EventAt(run, i) && EventAt(run, i + 1);
    FlagsTellHistory(run, k, i + 1, h);
    c := AdmissionsAreSeparated(run, i, j, h);
  }

  // ---------------------------------------------------------------- when a handle is issued, and what for

  /** A request gets a handle exactly when it is sound, within its time, the first live one of its durable id, and on a new token. */
  lemma IssuedExactly(run: seq<Event>, i: nat)
    requires Run(run) && i < |run| && run[i].op.Issue?
    ensures var r := run[i].op.request; run[i].reply == Issued(run[i].op.token) <==>
      && ValidRequest(r) && run[i].now < r.expires && r.expires <= run[i].now + (if r.source.AllowOnce? then 300_000 else 2_592_000_000)
      && run[i].op.token !in run[i].before.grants
      && forall h :: h in run[i].before.grants && run[i].before.grants[h].durable == r.durable ==> !IsActive(run[i].before.grants[h], run[i].now)
    ensures run[i].reply == Issued(run[i].op.token) || run[i].reply == Refused
  {
    assert EventAt(run, i);
    RunKeepsSound(run, i);
    var r := run[i].op.request;
    if Occupied(run[i].before, r.durable, run[i].now) {
      OnRecordForItself(run, i, r.durable);
    }
  }

  /** The handle on record for a durable id was issued for that durable id. */
  lemma {:induction false} OnRecordForItself(run: seq<Event>, i: nat, durable: Id)
    requires Run(run) && i < |run| && durable in run[i].before.durable
    ensures run[i].before.durable[durable] in run[i].before.grants
    ensures run[i].before.grants[run[i].before.durable[durable]].durable == durable
  {
    assert EventAt(run, i);
    if i > 0 {
      assert EventAt(run, i - 1);
      StepAges(run[i-1].before, run[i-1].op, run[i-1].now);
      if durable in run[i-1].before.durable {
        OnRecordForItself(run, i - 1, durable);
      }
    }
  }

  /** What an admitted use is, permission by permission. */
  lemma AdmittedUse(run: seq<Event>, i: nat) returns (k: nat)
    requires Run(run) && i < |run| && run[i].op.Admit? && run[i].reply == Allowed
    ensures k < i && IssuesAt(run, k, run[i].op.call.handle)
    ensures var r, use := Asked(run, k), run[i].op.call.permissionUse;
      && r.wasm && r.binding.project == r.binding.scope
      && (use.FsUse? ==>
            && r.binding.permission == ProjectFsRead
            && r.constraints.maxBytes.Some? && use.bytes <= r.constraints.maxBytes.value
            && (exists pattern :: pattern in r.constraints.paths && Glob.Meaning(pattern, use.path))
            && use.path != [] && use.path[0] != Glob.SLASH && BACKSLASH !in use.path && COLON !in use.path)
      && (use.RUse? ==>
            && r.binding.permission == WorkspaceRInspect && r.binding.workspace.Some?
            && r.constraints.maxBytes.Some? && use.bytes <= r.constraints.maxBytes.value && use.operation in r.constraints.operations)
      && (use.FetchUse? ==>
            && r.binding.permission == NetworkFetch && use.scheme == "https" && (use.method_ == "GET" || use.method_ == "HEAD")
            && r.constraints.maxResponseBytes.Some? && use.bytes <= r.constraints.maxResponseBytes.value
            && exists pattern :: pattern in r.constraints.hosts && Hosts.HostMatches(pattern, use.host))
  {
    AdmittedExactly(run, i);
    k :| Covered(run, k, i, run[i].op.call);
    assert EventAt(run, k);
    IssuedExactly(run, k);
  }

  /** No path that climbs out of the project, or that is not in plain form, is ever admitted. */
  lemma AdmittedPathStaysInside(run: seq<Event>, i: nat, path: Bytes, bytes: nat)
    requires Run(run) && i < |run| && run[i].op.Admit? && run[i].reply == Allowed && run[i].op.call.permissionUse == FsUse(path, bytes)
    ensures forall c :: c in Components(path, {Glob.SLASH}) ==> c != [] && c != [DOT] && c != [DOT, DOT]
  {
    var k := AdmittedUse(run, i);
    AdmittedExactly(run, i);
    var j :| Covered(run, j, i, run[i].op.call);
    SameComponents(path);
  }

  lemma {:induction false} SameComponents(path: Bytes)
    requires BACKSLASH !in path
    ensures Components(path, {Glob.SLASH, BACKSLASH}) == Components(path, {Glob.SLASH})
  {
    if path != [] { SameComponents(path[1..]); }
  }
}
