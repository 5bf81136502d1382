/** The reference monitor for read-only permissions (grant.rs, `GrantStore`). */
module Grants {
  import opened Basics
  import Glob
  import Hosts

  const MAX_ALLOW_ONCE_TTL_MILLIS: nat := 5 * 60 * 1000
  const MAX_PROJECT_GRANT_TTL_MILLIS: nat := 30 * 24 * 60 * 60 * 1000

  datatype Permission = ProjectFsRead | WorkspaceRInspect | NetworkFetch

  datatype Source = AllowOnce | Project

  datatype Workspace = Workspace(id: Id, kernel: Id, stateRevision: nat, projectRevision: nat)

  datatype Constraints = Constraints(
    paths: seq<Bytes>, operations: seq<string>, schemes: seq<string>, hosts: seq<string>, methods: seq<string>,
    maxBytes: Option<nat>, maxResponseBytes: Option<nat>)

  /** Whom and what a grant is for: compared field by field on every call. */
  datatype Binding = Binding(
    plugin: Id, host: Id, project: Id, scope: Id, generation: nat, digest: Id, permission: Permission, workspace: Option<Workspace>)

  datatype PluginGrant = PluginGrant(
    durable: Id, root: Id, binding: Binding, constraints: Constraints, source: Source, created: nat, expires: nat,
    revoked: Option<nat>, used: bool, inFlight: bool)

  /** `wellFormed` stands for the checks of the request's text fields and digest, which are not part of this model. */
  datatype GrantRequest = GrantRequest(
    durable: Id, root: Id, binding: Binding, constraints: Constraints, source: Source, policyRevision: nat, wasm: bool,
    wellFormed: bool, expires: nat)

  datatype PermissionUse =
    | FsUse(path: Bytes, bytes: nat)
    | RUse(operation: string, bytes: nat)
    | FetchUse(scheme: string, host: string, method_: string, bytes: nat)

  datatype Call = Call(handle: Id, binding: Binding, permissionUse: PermissionUse)

  datatype Denial =
    | UnknownHandle | Revoked | Expired | Consumed | InFlight | NotAdmitted | WrongPlugin | WrongHostSession | WrongProject
    | WrongScope | WrongGeneration | WrongPackageDigest | WrongPermission | WrongWorkspace | ConstraintViolation

  datatype Completion = Success | FailureBeforeDispatch | Uncertain

  predicate IsActive(g: PluginGrant, now: nat) { g.revoked.None? && !g.used && now < g.expires }

  // ---------------------------------------------------------------- what a grant allows

  const DOT: byte := 46
  const COLON: byte := 58
  const BACKSLASH: byte := 92

  function Components(path: Bytes, separators: set<byte>): seq<Bytes> {
    if path == [] then [[]]
    else
      var rest := Components(path[1..], separators);
      if path[0] in separators then [[]] + rest else [[path[0]] + rest[0]] + rest[1..]
  }

  predicate ValidRelativePattern(path: Bytes) {
    && path != [] && path[0] != Glob.SLASH && path[0] != BACKSLASH && COLON !in path
    && [DOT, DOT] !in Components(path, {Glob.SLASH, BACKSLASH})
  }

  predicate ValidRelativePath(path: Bytes) {
    && ValidRelativePattern(path) && BACKSLASH !in path
    && [] !in Components(path, {Glob.SLASH}) && [DOT] !in Components(path, {Glob.SLASH})
  }

  predicate Within(bytes: nat, maximum: Option<nat>) { maximum.Some? && bytes <= maximum.value }

  /** The use stays inside the constraints the user agreed to. */
  ghost predicate UseAllowed(permission: Permission, c: Constraints, u: PermissionUse) {
    match u
    case FsUse(path, bytes) =>
      && permission.ProjectFsRead? && ValidRelativePath(path) && Within(bytes, c.maxBytes)
      && exists pattern :: pattern in c.paths && Glob.Meaning(pattern, path)
    case RUse(operation, bytes) => permission.WorkspaceRInspect? && operation in c.operations && Within(bytes, c.maxBytes)
    case FetchUse(scheme, host, method_, bytes) =>
      && permission.NetworkFetch? && scheme in c.schemes && method_ in c.methods && Within(bytes, c.maxResponseBytes)
      && exists pattern :: pattern in c.hosts && Hosts.HostMatches(pattern, host)
  }

  method PermissionUseAllowed(permission: Permission, c: Constraints, u: PermissionUse) returns (allowed: bool)
    ensures allowed <==> UseAllowed(permission, c, u)
  {
    match u {
      case FsUse(path, bytes) =>
        if !permission.ProjectFsRead? || !ValidRelativePath(path) {
          return false;
        }
        var some := false;
        for i := 0 to |c.paths|
          invariant some <==> exists pattern :: pattern in c.paths[..i] && Glob.Meaning(pattern, path)
        {
          var matched, _ := Glob.GlobMatches(c.paths[i], path);
          assert c.paths[..i+1] == c.paths[..i] + [c.paths[i]];
          some := some || matched;
        }
        assert c.paths[..|c.paths|] == c.paths;
        return some && Within(bytes, c.maxBytes);
      case RUse(operation, bytes) =>
        return permission.WorkspaceRInspect? && operation in c.operations && Within(bytes, c.maxBytes);
      case FetchUse(scheme, host, method_, bytes) =>
        return permission.NetworkFetch? && scheme in c.schemes
          && (exists pattern :: pattern in c.hosts && Hosts.HostMatches(pattern, host))
          && method_ in c.methods && Within(bytes, c.maxResponseBytes);
    }
  }

  function BindingDenial(granted: Binding, asked: Binding): Option<Denial> {
    if granted.plugin != asked.plugin then Some(WrongPlugin)
    else if granted.host != asked.host then Some(WrongHostSession)
    else if granted.project != asked.project then Some(WrongProject)
    else if granted.scope != asked.scope then Some(WrongScope)
    else if granted.generation != asked.generation then Some(WrongGeneration)
    else if granted.digest != asked.digest then Some(WrongPackageDigest)
    else if granted.permission != asked.permission then Some(WrongPermission)
    else if granted.workspace != asked.workspace then Some(WrongWorkspace)
    else None
  }

  function StateDenial(g: PluginGrant, now: nat, admitted: bool): Option<Denial> {
    if g.revoked.Some? then Some(Revoked)
    else if now >= g.expires then Some(Expired)
    else if g.used then Some(Consumed)
    else if admitted && g.source.AllowOnce? && !g.inFlight then Some(NotAdmitted)
    else if !admitted && g.inFlight then Some(InFlight)
    else None
  }

  ghost function RevalidationError(g: PluginGrant, call: Call, now: nat, admitted: bool): Option<Denial> {
    if StateDenial(g, now, admitted).Some? then StateDenial(g, now, admitted)
    else if BindingDenial(g.binding, call.binding).Some? then BindingDenial(g.binding, call.binding)
    else if !UseAllowed(g.binding.permission, g.constraints, call.permissionUse) then Some(ConstraintViolation)
    else None
  }

  /** A call passes exactly when the grant is live, is for this very caller, and covers this very use. */
  lemma PassesExactly(g: PluginGrant, call: Call, now: nat, admitted: bool)
    ensures RevalidationError(g, call, now, admitted).None? <==>
      && IsActive(g, now) && g.binding == call.binding && UseAllowed(g.binding.permission, g.constraints, call.permissionUse)
      && (if admitted then g.source.AllowOnce? ==> g.inFlight else !g.inFlight)
  {
  }

  // ---------------------------------------------------------------- issuing

  function MaximumTtl(source: Source): nat {
    if source.AllowOnce? then MAX_ALLOW_ONCE_TTL_MILLIS else MAX_PROJECT_GRANT_TTL_MILLIS
  }

  predicate ValidConstraints(permission: Permission, c: Constraints) {
    match permission
    case ProjectFsRead =>
      && c.paths != [] && c.operations == [] && c.schemes == [] && c.hosts == [] && c.methods == []
      && c.maxBytes.Some? && c.maxBytes.value > 0 && c.maxResponseBytes.None?
      && forall p :: p in c.paths ==> ValidRelativePattern(p)
    case WorkspaceRInspect =>
      && c.paths == [] && c.operations != [] && c.schemes == [] && c.hosts == [] && c.methods == []
      && c.maxBytes.Some? && c.maxBytes.value > 0 && c.maxResponseBytes.None?
    case NetworkFetch =>
      && c.paths == [] && c.operations == [] && c.schemes != [] && c.hosts != [] && c.methods != []
      && c.maxBytes.None? && c.maxResponseBytes.Some? && c.maxResponseBytes.value > 0
      && (forall s :: s in c.schemes ==> s == "https") && (forall h :: h in c.hosts ==> Hosts.ValidHostPattern(h))
      && forall m :: m in c.methods ==> m == "GET" || m == "HEAD"
  }

  predicate ValidRequest(r: GrantRequest) {
    && ValidConstraints(r.binding.permission, r.constraints)
    && r.wellFormed && r.wasm && r.binding.project == r.binding.scope && r.policyRevision > 0
    && (r.binding.workspace.Some? <==> r.binding.permission.WorkspaceRInspect?)
  }

  predicate WithinPolicy(r: GrantRequest, now: nat) { now < r.expires <= now + MaximumTtl(r.source) }

  function NewGrant(r: GrantRequest, now: nat): PluginGrant {
    PluginGrant(r.durable, r.root, r.binding, r.constraints, r.source, now, r.expires, None, false, false)
  }

  // ---------------------------------------------------------------- the store as a state machine

  datatype Target = OfProject(root: Id) | OfHost(host: Id) | OfWorkspace(workspace: Workspace)

  datatype Op =
    | Issue(request: GrantRequest, token: Id)
    | Revoke(handle: Id)
    | RevokeDurable(durable: Id)
    | Invalidate(target: Target)
    | Admit(call: Call)
    | Complete(handle: Id, completion: Completion)

  datatype Reply = Refused | Issued(handle: Id) | Answer(yes: bool) | Count(n: nat) | Allowed | Denied(denial: Denial)

  datatype Store = Store(grants: map<Id, PluginGrant>, durable: map<Id, Id>)

  predicate Targets(g: PluginGrant, target: Target) {
    match target
    case OfProject(root) => g.root == root
    case OfHost(host) => g.binding.host == host
    case OfWorkspace(workspace) => g.binding.workspace == Some(workspace)
  }

  function Hit(grants: map<Id, PluginGrant>, target: Target): set<Id> {
    set h | h in grants && Targets(grants[h], target) && grants[h].revoked.None?
  }

  function RevokedAt(g: PluginGrant, now: nat): PluginGrant { g.(revoked := Some(now)) }

  /** An invalidation touches the grants it targets that are not revoked yet. */
  function Swept(g: PluginGrant, target: Target, now: nat): PluginGrant {
    if Targets(g, target) && g.revoked.None? then RevokedAt(g, now) else g
  }

  function SweptAll(grants: map<Id, PluginGrant>, target: Target, now: nat): map<Id, PluginGrant> {
    map h | h in grants :: Swept(grants[h], target, now)
  }

  /** The grants outside `pending` have been visited. */
  ghost predicate SweptBut(before: map<Id, PluginGrant>, grants: map<Id, PluginGrant>, pending: set<Id>, target: Target, now: nat) {
    && grants.Keys == before.Keys
    && forall h :: h in before ==> grants[h] == if h in pending then before[h] else Swept(before[h], target, now)
  }

  lemma SweepOne(before: map<Id, PluginGrant>, grants: map<Id, PluginGrant>, pending: set<Id>, target: Target, now: nat, h: Id)
    requires SweptBut(before, grants, pending, target, now) && h in pending && h in before
    ensures SweptBut(before, grants[h := Swept(before[h], target, now)], pending - {h}, target, now)
    ensures Hit(before, target) - (pending - {h}) ==
      (Hit(before, target) - pending) + if h in Hit(before, target) then {h} else {}
  {
  }

  /** The durable id already has a live handle. */
  predicate Occupied(s: Store, durable: Id, now: nat) {
    durable in s.durable && s.durable[durable] in s.grants && IsActive(s.grants[s.durable[durable]], now)
  }

  ghost function Apply(s: Store, op: Op, now: nat): (Store, Reply) {
    match op
    case Issue(r, token) =>
      if !ValidRequest(r) || !WithinPolicy(r, now) || Occupied(s, r.durable, now) then (s, Refused)
      else if token in s.grants then (s.(durable := s.durable - {r.durable}), Refused)
      else (Store(s.grants[token := NewGrant(r, now)], s.durable[r.durable := token]), Issued(token))
    case Revoke(handle) =>
      if handle !in s.grants then (s, Answer(false))
      else (s.(grants := s.grants[handle := RevokedAt(s.grants[handle], now)]), Answer(true))
    case RevokeDurable(durable) =>
      if durable !in s.durable || s.durable[durable] !in s.grants then (s, Answer(false))
      else
        var handle := s.durable[durable];
        (s.(grants := s.grants[handle := RevokedAt(s.grants[handle], now)]), Answer(true))
    case Invalidate(target) =>
      (s.(grants := SweptAll(s.grants, target, now)), Count(|Hit(s.grants, target)|))
    case Admit(call) =>
      if call.handle !in s.grants then (s, Denied(UnknownHandle))
      else
        var g := s.grants[call.handle];
        var denial := RevalidationError(g, call, now, false);
        if denial.Some? then (s, Denied(denial.value))
        else (if g.source.AllowOnce? then s.(grants := s.grants[call.handle := g.(inFlight := true)]) else s, Allowed)
    case Complete(handle, completion) =>
      if handle !in s.grants || !s.grants[handle].source.AllowOnce? || !s.grants[handle].inFlight then (s, Answer(false))
      else
        var g := s.grants[handle];
        (s.(grants := s.grants[handle := g.(inFlight := false, used := g.used || !completion.FailureBeforeDispatch?)]), Answer(true))
  }

  method Sweep(before: map<Id, PluginGrant>, target: Target, now: nat) returns (grants: map<Id, PluginGrant>, count: nat)
    ensures grants == SweptAll(before, target, now) && count == |Hit(before, target)|
  {
    grants, count := before, 0;
    var pending := grants.Keys;
    while pending != {}
      invariant pending <= before.Keys && SweptBut(before, grants, pending, target, now)
      invariant count == |Hit(before, target) - pending|
      decreases pending
    {
      var h := Least(pending);
      SweepOne(before, grants, pending, target, now, h);
      if Targets(grants[h], target) && grants[h].revoked.None? {
        count := count + 1;
      }
      grants := grants[h := Swept(grants[h], target, now)];
      pending := pending - {h};
    }
    SweepDone(before, grants, target, now);
  }

  lemma SweepDone(before: map<Id, PluginGrant>, grants: map<Id, PluginGrant>, target: Target, now: nat)
    requires SweptBut(before, grants, {}, target, now)
    ensures grants == SweptAll(before, target, now) && Hit(before, target) - {} == Hit(before, target)
  {
  }

  class GrantStore {
    var grants: map<Id, PluginGrant>
    var durableHandles: map<Id, Id>

    ghost function State(): Store
      reads this
    {
      Store(grants, durableHandles)
    }

    constructor ()
      ensures State() == Store(map[], map[])
    {
      grants, durableHandles := map[], map[];
    }

    /** Issues a handle unless the durable id has a live one; `token` is the fresh opaque handle drawn for it. */
    method Grant(request: GrantRequest, token: Id, now: nat) returns (handle: Option<Id>)
      modifies this
      ensures State() == Apply(old(State()), Issue(request, token), now).0
      ensures Apply(old(State()), Issue(request, token), now).1 == if handle.Some? then Issued(handle.value) else Refused
    {
      if !ValidConstraints(request.binding.permission, request.constraints) || !ValidRequest(request) || request.expires <= now {
        return None;
      }
      if request.expires - now > MaximumTtl(request.source) {
        return None;
      }
      if request.durable in durableHandles {
        var existing := durableHandles[request.durable];
        if existing in grants && IsActive(grants[existing], now) {
          return None;
        }
        durableHandles := durableHandles - {request.durable};
      }
      if token in grants {
        assert durableHandles == old(durableHandles) - {request.durable};
        return None;
      }
      durableHandles := durableHandles[request.durable := token];
      grants := grants[token := NewGrant(request, now)];
      return Some(token);
    }

    method Revoke(handle: Id, now: nat) returns (ok: bool)
      modifies this`grants
      ensures (State(), Answer(ok)) == Apply(old(State()), Op.Revoke(handle), now)
    {
      if handle !in grants {
        return false;
      }
      grants := grants[handle := grants[handle].(revoked := Some(now))];
      return true;
    }

    method RevokeDurableGrant(durable: Id, now: nat) returns (ok: bool)
      modifies this`grants
      ensures (State(), Answer(ok)) == Apply(old(State()), RevokeDurable(durable), now)
    {
      if durable !in durableHandles {
        return false;
      }
      var handle := durableHandles[durable];
      if handle !in grants {
        return false;
      }
      grants := grants[handle := grants[handle].(revoked := Some(now))];
      return true;
    }

    /** The three invalidations: every grant of a project, a host or a workspace that is not revoked yet. */
    method Invalidate(target: Target, now: nat) returns (invalidated: nat)
      modifies this`grants
      ensures (State(), Count(invalidated)) == Apply(old(State()), Op.Invalidate(target), now)
    {
      var swept;
      swept, invalidated := Sweep(grants, target, now);
      grants := swept;
    }

    /** Admits a call, reserving an allow-once grant for it. */
    method Revalidate(call: Call, now: nat) returns (denial: Option<Denial>)
      modifies this`grants
      ensures State() == Apply(old(State()), Admit(call), now).0
      ensures Apply(old(State()), Admit(call), now).1 == if denial.Some? then Denied(denial.value) else Allowed
    {
      if call.handle !in grants {
        return Some(UnknownHandle);
      }
      var g := grants[call.handle];
      denial := FindDenial(g, call, now, false);
      if denial.None? && g.source.AllowOnce? {
        grants := grants[call.handle := g.(inFlight := true)];
      }
    }

    /** Rechecks an admitted call before its result becomes visible; an allow-once grant must still be reserved. */
    method RevalidateAdmitted(call: Call, now: nat) returns (denial: Option<Denial>)
      ensures denial == if call.handle in grants then RevalidationError(grants[call.handle], call, now, true) else Some(UnknownHandle)
    {
      if call.handle !in grants {
        return Some(UnknownHandle);
      }
      denial := FindDenial(grants[call.handle], call, now, true);
    }

    method Complete(handle: Id, completion: Completion) returns (ok: bool)
      modifies this`grants
      ensures forall now :: (State(), Answer(ok)) == Apply(old(State()), Op.Complete(handle, completion), now)
    {
      if handle !in grants {
        return false;
      }
      var g := grants[handle];
      if !g.source.AllowOnce? || !g.inFlight {
        return false;
      }
      g := g.(inFlight := false);
      match completion {
        case Success => g := g.(used := true);
        case Uncertain => g := g.(used := true);
        case FailureBeforeDispatch =>
      }
      grants := grants[handle := g];
      return true;
    }
  }

  method FindDenial(g: PluginGrant, call: Call, now: nat, admitted: bool) returns (denial: Option<Denial>)
    ensures denial == RevalidationError(g, call, now, admitted)
  {
    denial := StateDenial(g, now, admitted);
    if denial.Some? {
      return;
    }
    denial := BindingDenial(g.binding, call.binding);
    if denial.Some? {
      return;
    }
    var allowed := PermissionUseAllowed(g.binding.permission, g.constraints, call.permissionUse);
    return if allowed then None else Some(ConstraintViolation);
  }
}
