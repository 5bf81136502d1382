/** Scope policies, plugin descriptors and activation plans (model.rs). */
module Model {
  import opened Basics
  import opened Ordering

  const MAX_PROVIDES_PER_PLUGIN := 64
  const MAX_REQUIRED_PER_PLUGIN := 64
  const MAX_OPTIONAL_PER_PLUGIN := 64

  datatype LimitKind = PluginsPerScope | ProvidesPerPlugin | RequiredPerPlugin | OptionalPerPlugin | ResolvedEdges

  datatype DescriptorReason =
    | NoAllowedScopes
    | DuplicateAllowedScope(kind: Id)
    | DuplicateProvidedCapability(capability: Id)
    | DuplicateRequiredCapability(capability: Id)
    | DuplicateOptionalCapability(capability: Id)
    | RequiredAndOptionalCapability(capability: Id)
    | ScopeNotAllowed(kind: Id)

  datatype ParentReason = UnexpectedParent | MissingParent | ParentIdentityMissing | ParentIdMismatch | ParentKindMismatch

  datatype PolicyReason = DuplicateKind | MissingParentKind | ParentCycle

  datatype Error =
    | InvalidScopePolicy(kind: Id, reason: PolicyReason)
    | UnknownKind(scope: ScopeIdentity)
    | InvalidParent(scope: ScopeIdentity, parentReason: ParentReason)
    | LimitExceeded(limit: LimitKind, plugin: Option<Id>, actual: nat, maximum: nat)
    | DuplicatePlugin(id: Id)
    | InvalidDescriptor(id: Id, descriptorReason: DescriptorReason)
    | DuplicateProvider(capability: Id, providers: seq<Provider>)
    | MissingRequiredCapability(id: Id, capability: Id, requiredMajor: nat)
    | IncompatibleCapabilityMajor(id: Id, capability: Id, requiredMajor: nat, provider: Provider)
    | DependencyCycle(path: seq<Id>)

  datatype ScopeIdentity = ScopeIdentity(kind: Id, id: Id, parent: Option<Id>, generation: nat)

  /** A capability with the major version declared or asked for. */
  datatype Capability = Capability(id: Id, major: nat)

  datatype Descriptor = Descriptor(
    id: Id, allowed: seq<Id>, offers: seq<Capability>, required: seq<Capability>, optional: seq<Capability>)

  datatype Provider = Provider(plugin: Id, scope: ScopeIdentity, major: nat)

  // ---------------------------------------------------------------- scope policies

  datatype ScopeKindRule = ScopeKindRule(kind: Id, parent: Option<Id>)

  type Policy = map<Id, Option<Id>>

  /** The ancestor `n` steps up, if the chain of parents goes that far. */
  function Climb(rules: Policy, kind: Id, n: nat): Option<Id> {
    if n == 0 then Some(kind)
    else match Climb(rules, kind, n - 1)
      case None => None
      case Some(k) => if k in rules then rules[k] else None
  }

  /** Every chain of parents ends. */
  ghost predicate Acyclic(rules: Policy) {
    forall kind, n {:trigger Climb(rules, kind, n)} :: kind in rules && n > 0 ==> Climb(rules, kind, n) != Some(kind)
  }

  ghost predicate ParentsExist(rules: Policy) {
    forall kind :: kind in rules && rules[kind].Some? ==> rules[kind].value in rules
  }

  /** What `from_host_rules` lets through. */
  ghost predicate Accepted(rules: Policy) {
    ParentsExist(rules) && forall kind :: kind in rules ==> Grounded(rules, kind, |rules|)
  }

  /** The chain from `kind` reaches a root within `fuel` steps. */
  predicate Grounded(rules: Policy, kind: Id, fuel: nat)
    decreases fuel
  {
    && fuel > 0 && kind in rules
    && (rules[kind].Some? ==> Grounded(rules, rules[kind].value, fuel - 1))
  }

  /** Steps from `kind` to its root. */
  function DepthWithin(rules: Policy, kind: Id, fuel: nat): nat
    requires Grounded(rules, kind, fuel)
    decreases fuel
  {
    if rules[kind].None? then 0 else 1 + DepthWithin(rules, rules[kind].value, fuel - 1)
  }

  lemma {:induction false} DepthIgnoresFuel(rules: Policy, kind: Id, a: nat, b: nat)
    requires Grounded(rules, kind, a) && Grounded(rules, kind, b)
    ensures DepthWithin(rules, kind, a) == DepthWithin(rules, kind, b)
    decreases a
  {
    if rules[kind].Some? { DepthIgnoresFuel(rules, rules[kind].value, a - 1, b - 1); }
  }

  function Depth(rules: Policy, kind: Id): nat
    requires Grounded(rules, kind, |rules|)
  {
    DepthWithin(rules, kind, |rules|)
  }

  lemma ParentIsOneUp(rules: Policy, kind: Id)
    requires Accepted(rules) && kind in rules && rules[kind].Some?
    ensures rules[kind].value in rules && Depth(rules, kind) == Depth(rules, rules[kind].value) + 1
  {
    DepthIgnoresFuel(rules, rules[kind].value, |rules| - 1, |rules|);
  }

  /** The kinds visited on the way up. */
  ghost predicate Visited(rules: Policy, path: seq<Id>) {
    && (forall i :: 0 <= i < |path| ==> path[i] in rules)
    && (forall i :: 0 <= i < |path| - 1 ==> rules[path[i]] == Some(path[i+1]))
  }

  lemma {:induction false} ClimbAlong(rules: Policy, path: seq<Id>, i: nat, n: nat)
    requires Visited(rules, path) && i + n < |path|
    ensures Climb(rules, path[i], n) == Some(path[i+n])
  {
    if n > 0 {
      ClimbAlong(rules, path, i, n - 1);
      assert rules[path[i+n-1]] == Some(path[i+n-1+1]);
    }
  }

  lemma {:induction false} PathToRootGrounds(rules: Policy, path: seq<Id>, fuel: nat)
    requires path != [] && Visited(rules, path) && rules[path[|path|-1]].None? && |path| <= fuel
    ensures Grounded(rules, path[0], fuel)
  {
    if |path| > 1 {
      assert rules[path[0]] == Some(path[0+1]);
      PathToRootGrounds(rules, path[1..], fuel - 1);
    }
  }

  /** The climb from `start` visits each kind of `path` once, and the next one is `kind` again. */
  ghost predicate Returns(rules: Policy, start: Id, path: seq<Id>, kind: Id) {
    && path != [] && path[0] == start && Visited(rules, path) && Distinct(path)
    && kind in path && rules[path[|path|-1]] == Some(kind)
  }

  ghost predicate EntersCycle(rules: Policy, start: Id, kind: Id) {
    exists path :: Returns(rules, start, path, kind)
  }

  /** The kind where the climb from the least kind whose chain of parents does not end comes round. */
  ghost predicate IsFirstCycle(rules: Policy, kind: Id) {
    exists start :: LeastEndless(rules, start) && EntersCycle(rules, start, kind)
  }

  ghost predicate LeastEndless(rules: Policy, start: Id) {
    && start in rules && !Grounded(rules, start, |rules|)
    && forall k :: k in rules && Precedes(k, start) ==> Grounded(rules, k, |rules|)
  }

  lemma {:induction false} EndlessIsNotGrounded(rules: Policy, s: set<Id>, kind: Id, fuel: nat)
    requires forall k :: k in s ==> k in rules && rules[k].Some? && rules[k].value in s
    requires kind in s
    ensures !Grounded(rules, kind, fuel)
    decreases fuel
  {
    if fuel > 0 { EndlessIsNotGrounded(rules, s, rules[kind].value, fuel - 1); }
  }

  lemma ReturnIsEndless(rules: Policy, start: Id, path: seq<Id>, kind: Id, fuel: nat)
    requires Returns(rules, start, path, kind)
    ensures !Grounded(rules, start, fuel)
  {
    forall k | k in path ensures k in rules && rules[k].Some? && rules[k].value in path {
      var i :| 0 <= i < |path| && path[i] == k;
      assert i < |path| - 1 ==> rules[path[i]] == Some(path[i+1]);
    }
    EndlessIsNotGrounded(rules, Elems(path), start, fuel);
  }

  lemma {:induction false} ClimbsAgree(rules: Policy, start: Id, p: seq<Id>, a: Id, q: seq<Id>, b: Id, i: nat)
    requires Returns(rules, start, p, a) && Returns(rules, start, q, b) && i < |p| && i < |q|
    ensures p[i] == q[i]
  {
    if i > 0 { ClimbsAgree(rules, start, p, a, q, b, i - 1); }
  }

  lemma VisitedNext(rules: Policy, path: seq<Id>, i: nat)
    requires Visited(rules, path) && i + 1 < |path|
    ensures rules[path[i]] == Some(path[i+1])
  {
  }

  lemma ReturnsNoEarlier(rules: Policy, start: Id, p: seq<Id>, a: Id, q: seq<Id>, b: Id)
    requires Returns(rules, start, p, a) && Returns(rules, start, q, b)
    ensures |p| >= |q|
  {
    if |p| < |q| {
      ClimbsAgree(rules, start, p, a, q, b, |p| - 1);
      var j :| 0 <= j < |p| && p[j] == a;
      ClimbsAgree(rules, start, p, a, q, b, j);
      VisitedNext(rules, q, |p| - 1);
    }
  }

  /** The kind reported for a cycle of parents is determined by the rules. */
  lemma FirstCycleIsUnique(rules: Policy, a: Id, b: Id)
    requires IsFirstCycle(rules, a) && IsFirstCycle(rules, b)
    ensures a == b
  {
    var s :| LeastEndless(rules, s) && EntersCycle(rules, s, a);
    var t :| LeastEndless(rules, t) && EntersCycle(rules, t, b);
    assert !Precedes(s, t) && !Precedes(t, s) && s == t;
    var p :| Returns(rules, s, p, a);
    var q :| Returns(rules, t, q, b);
    ReturnsNoEarlier(rules, s, p, a, q, b);
    ReturnsNoEarlier(rules, s, q, b, p, a);
    ClimbsAgree(rules, s, p, a, q, b, |p| - 1);
  }

  /** Walks up from one kind, and stops where a kind comes round again. */
  method FindParentCycle(rules: Policy, start: Id) returns (repeated: Option<Id>)
    requires ParentsExist(rules) && start in rules
    ensures repeated.None? ==> Grounded(rules, start, |rules|)
    ensures repeated.Some? ==> repeated.value in rules && ComesRound(rules, repeated.value)
    ensures repeated.Some? ==> EntersCycle(rules, start, repeated.value) && !Grounded(rules, start, |rules|)
  {
    var seen: set<Id> := {};
    var current := Some(start);
    ghost var path: seq<Id> := [];
    while current.Some?
      invariant Visited(rules, path) && Distinct(path) && seen == Elems(path) && seen <= rules.Keys
      invariant current.Some? ==> current.value in rules
      invariant path == [] ==> current == Some(start)
      invariant path != [] ==> path[0] == start && rules[path[|path|-1]] == current
      decreases rules.Keys - seen, current.Some?
    {
      var kind := current.value;
      if kind in seen {
        ghost var i :| 0 <= i < |path| && path[i] == kind;
        ClimbAlong(rules, path, i, |path| - 1 - i);
        assert Climb(rules, kind, |path| - i) == Some(kind);
        assert Returns(rules, start, path, kind);
        ReturnIsEndless(rules, start, path, kind, |rules|);
        return Some(kind);
      }
      assert Elems(path + [kind]) == Elems(path) + {kind};
      seen := seen + {kind};
      path := path + [kind];
      current := rules[kind];
    }
    DistinctSize(path);
    SubsetSize(seen, rules.Keys);
    PathToRootGrounds(rules, path, |rules|);
    return None;
  }

  /** Climbing lowers the depth by one a step. */
  lemma {:induction false} ClimbLowersDepth(rules: Policy, kind: Id, n: nat)
    requires Accepted(rules) && kind in rules && Climb(rules, kind, n).Some?
    ensures var above := Climb(rules, kind, n).value; above in rules && Depth(rules, kind) == Depth(rules, above) + n
  {
    if n > 0 {
      ClimbLowersDepth(rules, kind, n - 1);
      ParentIsOneUp(rules, Climb(rules, kind, n - 1).value);
    }
  }

  lemma AcceptedIsAcyclic(rules: Policy)
    requires Accepted(rules)
    ensures Acyclic(rules)
  {
    forall kind, n | kind in rules && n > 0 ensures Climb(rules, kind, n) != Some(kind) {
      if Climb(rules, kind, n).Some? { ClimbLowersDepth(rules, kind, n); }
    }
  }

  function KindOf(rule: ScopeKindRule): Id { rule.kind }

  function Kinds(rules: seq<ScopeKindRule>): seq<Id> { MapBy(KindOf, rules) }

  function Table(rules: seq<ScopeKindRule>): Policy {
    if rules == [] then map[] else Table(rules[..|rules|-1])[rules[|rules|-1].kind := rules[|rules|-1].parent]
  }

  lemma {:induction false} TableHolds(rules: seq<ScopeKindRule>)
    requires Distinct(Kinds(rules))
    ensures forall k :: k in Table(rules) <==> k in Kinds(rules)
    ensures forall i :: 0 <= i < |rules| ==> rules[i].kind in Table(rules) && Table(rules)[rules[i].kind] == rules[i].parent
  {
    if rules != [] {
      var n := |rules| - 1;
      assert Kinds(rules[..n]) == Kinds(rules)[..n] && Kinds(rules) == Kinds(rules)[..n] + [rules[n].kind];
      TableHolds(rules[..n]);
      forall i | 0 <= i < n ensures rules[i].kind != rules[n].kind {
        assert Kinds(rules)[i] != Kinds(rules)[n];
      }
    }
  }

  /** The policy says what the rules say, in whatever order they were given. */
  ghost predicate Says(policy: Policy, rules: seq<ScopeKindRule>) {
    && (forall k :: k in policy ==> ScopeKindRule(k, policy[k]) in rules)
    && (forall r :: r in rules ==> r.kind in policy && policy[r.kind] == r.parent)
  }

  function KindRank(rule: ScopeKindRule): Rank { IdRank(rule.kind) }

  lemma SortedRules(rules: seq<ScopeKindRule>)
    ensures var sorted := SortBy(KindRank, rules);
      && AscendsBy(IdRank, Kinds(sorted)) && (forall r :: r in sorted <==> r in rules)
      && multiset(Kinds(sorted)) == multiset(Kinds(rules))
  {
    var sorted := SortBy(KindRank, rules);
    SortBySorts(KindRank, rules);
    forall r ensures r in sorted <==> r in rules {
      assert r in sorted <==> r in multiset(sorted);
      assert r in rules <==> r in multiset(rules);
    }
    MapPermutes(KindOf, sorted, rules);
    forall i, j | 0 <= i < j < |sorted| ensures !Below(IdRank(Kinds(sorted)[j]), IdRank(Kinds(sorted)[i])) {
      assert !Below(KindRank(sorted[j]), KindRank(sorted[i]));
    }
  }

  ghost predicate Repeats(s: seq<Id>, x: Id) { exists i, j :: 0 <= i < j < |s| && s[i] == x && s[j] == x }

  lemma RepeatIsRepeated(sorted: seq<Id>, given: seq<Id>)
    requires AscendsBy(IdRank, sorted) && multiset(sorted) == multiset(given)
    ensures FirstRepeat(sorted).None? <==> Distinct(given)
    ensures FirstRepeat(sorted).Some? ==>
      Repeats(sorted, FirstRepeat(sorted).value) && forall x :: Repeats(sorted, x) ==> !Precedes(x, FirstRepeat(sorted).value)
  {
    FirstRepeatIsLeast(sorted);
    DistinctIsMultiset(sorted);
    DistinctIsMultiset(given);
    if FirstRepeat(sorted).Some? {
      var i :| 0 <= i < |sorted| - 1 && sorted[i] == sorted[i+1] == FirstRepeat(sorted).value;
      assert Repeats(sorted, FirstRepeat(sorted).value);
    }
  }

  /** The table built from the sorted rules. */
  function RuleTable(given: seq<ScopeKindRule>): Policy { Table(SortBy(KindRank, given)) }

  function FirstDuplicateKind(given: seq<ScopeKindRule>): Option<Id> { FirstRepeat(Kinds(SortBy(KindRank, given))) }

  lemma SortedRulesDecide(given: seq<ScopeKindRule>)
    ensures FirstDuplicateKind(given).None? <==> Distinct(Kinds(given))
    ensures FirstDuplicateKind(given).Some? ==> IsLeastRepeat(Kinds(SortBy(KindRank, given)), FirstDuplicateKind(given).value)
    ensures Distinct(Kinds(given)) ==> Says(RuleTable(given), given)
  {
    var sorted := SortBy(KindRank, given);
    SortedRules(given);
    RepeatIsRepeated(Kinds(sorted), Kinds(given));
    if Distinct(Kinds(given)) {
      DistinctIsMultiset(Kinds(given));
      DistinctIsMultiset(Kinds(sorted));
      TableHolds(sorted);
      var table := RuleTable(given);
      forall k | k in table ensures ScopeKindRule(k, table[k]) in given {
        var i :| 0 <= i < |sorted| && Kinds(sorted)[i] == k;
        assert sorted[i] in sorted && sorted[i] == ScopeKindRule(k, table[k]);
      }
      forall r | r in given ensures r.kind in table && table[r.kind] == r.parent {
        assert r in sorted;
      }
    }
  }

  method FirstOrphan(rules: Policy) returns (orphan: Option<Id>)
    ensures orphan.None? <==> ParentsExist(rules)
    ensures orphan.Some? ==> IsLeastOf(Orphans(rules), orphan.value)
  {
    var kinds := Ascending(rules.Keys);
    for i := 0 to |kinds|
      invariant forall j :: 0 <= j < i ==> kinds[j] !in Orphans(rules)
    {
      if rules[kinds[i]].Some? && rules[kinds[i]].value !in rules {
        forall k | k in Orphans(rules) ensures !Precedes(k, kinds[i]) {
          assert k in kinds;
        }
        return Some(kinds[i]);
      }
    }
    forall k | k in rules ensures k !in Orphans(rules) { assert k in kinds; }
    return None;
  }

  lemma FirstEndlessIsLeast(rules: Policy, kinds: seq<Id>, i: nat, kind: Id)
    requires StrictlyAscending(kinds) && (forall k :: k in kinds <==> k in rules)
    requires i < |kinds| && !Grounded(rules, kinds[i], |rules|) && forall j :: 0 <= j < i ==> Grounded(rules, kinds[j], |rules|)
    requires EntersCycle(rules, kinds[i], kind)
    ensures IsFirstCycle(rules, kind)
  {
    forall k | k in rules && Precedes(k, kinds[i]) ensures Grounded(rules, k, |rules|) {
      assert k in kinds;
      var j :| 0 <= j < |kinds| && kinds[j] == k;
    }
    assert LeastEndless(rules, kinds[i]);
  }

  method FirstCycle(rules: Policy) returns (cycle: Option<Id>)
    requires ParentsExist(rules)
    ensures cycle.None? ==> Accepted(rules)
    ensures cycle.Some? ==> cycle.value in rules && ComesRound(rules, cycle.value) && IsFirstCycle(rules, cycle.value)
  {
    var kinds := Ascending(rules.Keys);
    for i := 0 to |kinds|
      invariant forall j :: 0 <= j < i ==> Grounded(rules, kinds[j], |rules|)
    {
      cycle := FindParentCycle(rules, kinds[i]);
      if cycle.Some? {
        FirstEndlessIsLeast(rules, kinds, i, cycle.value);
        return;
      }
    }
    forall k | k in rules ensures Grounded(rules, k, |rules|) { assert k in kinds; }
    return None;
  }

  /**
   * Accepts exactly the rules that name each kind once, name only listed parents, and whose chains of parents end.
   */
  method FromHostRules(given: seq<ScopeKindRule>) returns (result: Result<Policy, Error>)
    ensures result.Ok? <==> Distinct(Kinds(given)) && ParentsExist(RuleTable(given)) && Acyclic(RuleTable(given))
    ensures result.Ok? ==> Says(result.value, given) && Accepted(result.value)
    ensures result.Err? ==> match result.error
      case InvalidScopePolicy(kind, DuplicateKind) => IsLeastRepeat(Kinds(SortBy(KindRank, given)), kind)
      case InvalidScopePolicy(kind, MissingParentKind) => Distinct(Kinds(given)) && IsLeastOf(Orphans(RuleTable(given)), kind)
      case InvalidScopePolicy(kind, ParentCycle) =>
        && Distinct(Kinds(given)) && ParentsExist(RuleTable(given))
        && ComesRound(RuleTable(given), kind) && IsFirstCycle(RuleTable(given), kind)
      case _ => false
  {
    SortedRulesDecide(given);
    var repeated := FirstDuplicateKind(given);
    if repeated.Some? {
      return Err(InvalidScopePolicy(repeated.value, DuplicateKind));
    }
    var rules := RuleTable(given);
    var orphan := FirstOrphan(rules);
    if orphan.Some? {
      return Err(InvalidScopePolicy(orphan.value, MissingParentKind));
    }
    var cycle := FirstCycle(rules);
    if cycle.Some? {
      return Err(InvalidScopePolicy(cycle.value, ParentCycle));
    }
    AcceptedIsAcyclic(rules);
    return Ok(rules);
  }

  /** The chain of parents leads back to the kind itself. */
  ghost predicate ComesRound(rules: Policy, kind: Id) {
    exists n: nat {:trigger Climb(rules, kind, n)} :: n > 0 && Climb(rules, kind, n) == Some(kind)
  }

  function Orphans(rules: Policy): set<Id> {
    set k | k in rules && rules[k].Some? && rules[k].value !in rules
  }

  ghost predicate IsLeastRepeat(s: seq<Id>, x: Id) {
    Repeats(s, x) && forall y :: Repeats(s, y) ==> !Precedes(y, x)
  }

  // ---------------------------------------------------------------- scope identities

  function ValidateIdentity(policy: Policy, scope: ScopeIdentity, parent: Option<ScopeIdentity>): Option<Error> {
    if scope.kind !in policy then Some(UnknownKind(scope))
    else match policy[scope.kind]
      case None =>
        if scope.parent.Some? || parent.Some? then Some(InvalidParent(scope, UnexpectedParent)) else None
      case Some(expected) =>
        if scope.parent.None? then Some(InvalidParent(scope, MissingParent))
        else if parent.None? then Some(InvalidParent(scope, ParentIdentityMissing))
        else if scope.parent.value != parent.value.id then Some(InvalidParent(scope, ParentIdMismatch))
        else if parent.value.kind != expected then Some(InvalidParent(scope, ParentKindMismatch))
        else None
  }

  /** A valid identity names a parent exactly when its kind has one, and sits one step below it. */
  lemma ValidIdentitySitsBelowParent(policy: Policy, scope: ScopeIdentity, parent: Option<ScopeIdentity>)
    requires Accepted(policy) && ValidateIdentity(policy, scope, parent).None?
    ensures scope.kind in policy && (parent.Some? <==> policy[scope.kind].Some?)
    ensures scope.parent == (if parent.Some? then Some(parent.value.id) else None)
    ensures parent.Some? ==>
      parent.value.kind in policy && Depth(policy, scope.kind) == Depth(policy, parent.value.kind) + 1
  {
    if policy[scope.kind].Some? { ParentIsOneUp(policy, scope.kind); }
  }

  // ---------------------------------------------------------------- descriptors

  function CapabilityRank(c: Capability): Rank { Rank(c.id.rank, c.major) }

  function IdOf(c: Capability): Id { c.id }

  function Ids(capabilities: seq<Capability>): seq<Id> { MapBy(IdOf, capabilities) }

  function Normal(d: Descriptor): Descriptor {
    Descriptor(d.id, SortBy(IdRank, d.allowed), SortBy(CapabilityRank, d.offers),
      SortBy(CapabilityRank, d.required), SortBy(CapabilityRank, d.optional))
  }

  /** The same descriptor with its lists in another order. */
  ghost predicate Shuffled(a: Descriptor, b: Descriptor) {
    && a.id == b.id
    && multiset(a.allowed) == multiset(b.allowed) && multiset(a.offers) == multiset(b.offers)
    && multiset(a.required) == multiset(b.required) && multiset(a.optional) == multiset(b.optional)
  }

  lemma NormalForgetsOrder(a: Descriptor, b: Descriptor)
    requires Shuffled(a, b)
    ensures Normal(a) == Normal(b)
  {
    SortByForgetsOrder(IdRank, a.allowed, b.allowed);
    SortByForgetsOrder(CapabilityRank, a.offers, b.offers);
    SortByForgetsOrder(CapabilityRank, a.required, b.required);
    SortByForgetsOrder(CapabilityRank, a.optional, b.optional);
  }

  /** The first optional capability that is required as well. */
  function FirstShared(optional: seq<Capability>, required: seq<Id>): (r: Option<Id>)
    ensures r.None? <==> forall c :: c in optional ==> c.id !in required
    ensures r.Some? ==> r.value in required && exists c :: c in optional && c.id == r.value
  {
    if optional == [] then None
    else if optional[0].id in required then assert optional[0] in optional; Some(optional[0].id)
    else
      var r := FirstShared(optional[1..], required);
      assert r.Some? ==> exists c :: c in optional && c.id == r.value by {
        if r.Some? {
          var c :| c in optional[1..] && c.id == r.value;
          assert c in optional;
        }
      }
      r
  }

  /** The checks of one normalised descriptor, in the order they are made. */
  function DescriptorFault(d: Descriptor, kind: Id): Option<Error> {
    if |d.offers| > MAX_PROVIDES_PER_PLUGIN then
      Some(LimitExceeded(ProvidesPerPlugin, Some(d.id), |d.offers|, MAX_PROVIDES_PER_PLUGIN))
    else if |d.required| > MAX_REQUIRED_PER_PLUGIN then
      Some(LimitExceeded(RequiredPerPlugin, Some(d.id), |d.required|, MAX_REQUIRED_PER_PLUGIN))
    else if |d.optional| > MAX_OPTIONAL_PER_PLUGIN then
      Some(LimitExceeded(OptionalPerPlugin, Some(d.id), |d.optional|, MAX_OPTIONAL_PER_PLUGIN))
    else match ReasonAgainst(d, kind)
      case None => None
      case Some(reason) => Some(InvalidDescriptor(d.id, reason))
  }

  function ReasonAgainst(d: Descriptor, kind: Id): Option<DescriptorReason> {
    if d.allowed == [] then Some(NoAllowedScopes)
    else if FirstRepeat(d.allowed).Some? then Some(DuplicateAllowedScope(FirstRepeat(d.allowed).value))
    else if FirstRepeat(Ids(d.offers)).Some? then Some(DuplicateProvidedCapability(FirstRepeat(Ids(d.offers)).value))
    else if FirstRepeat(Ids(d.required)).Some? then Some(DuplicateRequiredCapability(FirstRepeat(Ids(d.required)).value))
    else if FirstRepeat(Ids(d.optional)).Some? then Some(DuplicateOptionalCapability(FirstRepeat(Ids(d.optional)).value))
    else if FirstShared(d.optional, Ids(d.required)).Some? then
      Some(RequiredAndOptionalCapability(FirstShared(d.optional, Ids(d.required)).value))
    else if kind !in d.allowed then Some(ScopeNotAllowed(kind))
    else None
  }

  /** What a descriptor must satisfy for a scope of this kind, read off the lists as given. */
  ghost predicate FitFor(d: Descriptor, kind: Id) {
    && |d.offers| <= MAX_PROVIDES_PER_PLUGIN && |d.required| <= MAX_REQUIRED_PER_PLUGIN && |d.optional| <= MAX_OPTIONAL_PER_PLUGIN
    && kind in d.allowed && Distinct(d.allowed)
    && Distinct(Ids(d.offers)) && Distinct(Ids(d.required)) && Distinct(Ids(d.optional))
    && NothingShared(d.optional, d.required)
  }

  ghost predicate NothingShared(optional: seq<Capability>, required: seq<Capability>) {
    forall o, r :: o in optional && r in required ==> o.id != r.id
  }

  lemma SortedIds(given: seq<Capability>)
    ensures var sorted := SortBy(CapabilityRank, given);
      && (FirstRepeat(Ids(sorted)).None? <==> Distinct(Ids(given))) && |sorted| == |given|
      && forall c :: c in sorted <==> c in given
  {
    var sorted := SortBy(CapabilityRank, given);
    SortBySorts(CapabilityRank, given);
    MapPermutes(IdOf, sorted, given);
    forall i, j | 0 <= i < j < |sorted| ensures !Below(IdRank(Ids(sorted)[j]), IdRank(Ids(sorted)[i])) {
      assert !Below(CapabilityRank(sorted[j]), CapabilityRank(sorted[i]));
    }
    RepeatIsRepeated(Ids(sorted), Ids(given));
    forall c ensures c in sorted <==> c in given {
      assert c in sorted <==> c in multiset(sorted);
    }
  }

  lemma SortedScopes(given: seq<Id>)
    ensures var sorted := SortBy(IdRank, given);
      && (FirstRepeat(sorted).None? <==> Distinct(given)) && |sorted| == |given| && forall k :: k in sorted <==> k in given
  {
    var sorted := SortBy(IdRank, given);
    SortBySorts(IdRank, given);
    RepeatIsRepeated(sorted, given);
    forall k ensures k in sorted <==> k in given {
      assert k in sorted <==> k in multiset(sorted);
    }
  }

  /** Sorting the lists first does not change which descriptors pass. */
  lemma {:induction false} FaultlessMeansFit(d: Descriptor, kind: Id)
    ensures DescriptorFault(Normal(d), kind).None? <==> FitFor(d, kind)
  {
    SortedIds(d.offers);
    SortedIds(d.required);
    SortedIds(d.optional);
    SortedScopes(d.allowed);
    SharedAfterSorting(d.optional, d.required);
  }

  lemma SharedAfterSorting(optional: seq<Capability>, required: seq<Capability>)
    ensures FirstShared(SortBy(CapabilityRank, optional), Ids(SortBy(CapabilityRank, required))).None? <==>
      NothingShared(optional, required)
  {
    SortedIds(required);
    SortedIds(optional);
    SharedIffCommon(SortBy(CapabilityRank, optional), SortBy(CapabilityRank, required));
  }

  lemma SharedIffCommon(optional: seq<Capability>, required: seq<Capability>)
    ensures FirstShared(optional, Ids(required)).None? <==> NothingShared(optional, required)
  {
    forall o | o in optional ensures o.id in Ids(required) <==> exists r :: r in required && r.id == o.id {
      if o.id in Ids(required) {
        var i :| 0 <= i < |required| && Ids(required)[i] == o.id;
        assert required[i] in required;
      }
      if r :| r in required && r.id == o.id {
        var i :| 0 <= i < |required| && required[i] == r;
        assert Ids(required)[i] == o.id;
      }
    }
  }
}
