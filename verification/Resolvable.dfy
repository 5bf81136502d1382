/** Which scopes resolve, read off the descriptors as they are given, and what each refusal means (resolver.rs). */
module Resolvable {
  import opened Basics
  import opened Ordering
  import opened Model
  import opened Resolver
  import opened Plans
  import Graphs
  import KahnOrder
  import CycleSearch

  // ---------------------------------------------------------------- what is asked of a scope

  ghost predicate OffersHere(given: seq<Descriptor>, p: Id, o: Capability) {
    exists d :: d in given && d.id == p && o in d.offers
  }

  ghost predicate AsksHere(given: seq<Descriptor>, p: Id, r: Capability, kind: RequirementKind) {
    exists d :: d in given && d.id == p && r in if kind.Required? then d.required else d.optional
  }

  ghost predicate Offered(given: seq<Descriptor>, c: Id) { exists p, o :: OffersHere(given, p, o) && o.id == c }

  ghost predicate Provided(given: seq<Descriptor>, inherited: map<Id, Provider>, c: Id) { c in inherited || Offered(given, c) }

  /** The scope names its kind and its parent as the policy has them. */
  ghost predicate IdentityFits(policy: Policy, scope: ScopeIdentity, parent: Option<Plan>) {
    && scope.kind in policy
    && scope.parent == (if parent.Some? then Some(parent.value.scope.id) else None)
    && policy[scope.kind] == (if parent.Some? then Some(parent.value.scope.kind) else None)
  }

  ghost predicate IdsDiffer(given: seq<Descriptor>) {
    forall i, j :: 0 <= i < j < |given| ==> given[i].id != given[j].id
  }

  ghost predicate AllFitFor(given: seq<Descriptor>, kind: Id) { forall d :: d in given ==> FitFor(d, kind) }

  /** Two plugins offer it, or one does and it is inherited as well. */
  ghost predicate Contested(given: seq<Descriptor>, inherited: map<Id, Provider>, c: Id) {
    || (exists p, q, o, u :: OffersHere(given, p, o) && OffersHere(given, q, u) && o.id == u.id == c && p != q)
    || (c in inherited && Offered(given, c))
  }

  /** Somebody provides the capability in another major than this one. */
  ghost predicate ProvidedOtherwise(given: seq<Descriptor>, inherited: map<Id, Provider>, r: Capability) {
    || (r.id in inherited && inherited[r.id].major != r.major)
    || (exists p, o :: OffersHere(given, p, o) && o.id == r.id && o.major != r.major)
  }

  ghost predicate RequirementsHold(given: seq<Descriptor>, inherited: map<Id, Provider>) {
    && (forall p, r :: AsksHere(given, p, r, Required) ==> Provided(given, inherited, r.id))
    && (forall p, r, kind :: AsksHere(given, p, r, kind) ==> !ProvidedOtherwise(given, inherited, r))
  }

  /** Who asks for which capability that somebody provides. */
  ghost function BoundPairs(given: seq<Descriptor>, inherited: map<Id, Provider>): set<(Id, Id)> {
    set d, r | d in given && r in d.required + d.optional && Provided(given, inherited, r.id) :: (d.id, r.id)
  }

  /** An edge from each plugin to those of this scope that ask for what it offers. */
  ghost function Needs(given: seq<Descriptor>): Graphs.Adjacency {
    map p | p in Elems(Plugins(given)) :: set q | q in Plugins(given) && NeedsFrom(given, q, p)
  }

  ghost predicate NeedsFrom(given: seq<Descriptor>, q: Id, p: Id) {
    exists o, r, kind :: OffersHere(given, p, o) && AsksHere(given, q, r, kind) && o.id == r.id
  }

  ghost predicate IsResolvable(policy: Policy, scope: ScopeIdentity, parent: Option<Plan>, given: seq<Descriptor>) {
    && IdentityFits(policy, scope, parent)
    && |given| <= 256 && IdsDiffer(given) && AllFitFor(given, scope.kind)
    && (forall c :: !Contested(given, Inherited(parent), c))
    && RequirementsHold(given, Inherited(parent))
    && |BoundPairs(given, Inherited(parent))| <= 8192
    && Graphs.Acyclic(Needs(given))
  }

  ghost predicate Unfit(given: seq<Descriptor>, kind: Id, p: Id) { exists d :: d in given && d.id == p && !FitFor(d, kind) }

  ghost predicate IsProvider(given: seq<Descriptor>, inherited: map<Id, Provider>, scope: ScopeIdentity, c: Id, provider: Provider) {
    || (c in inherited && inherited[c] == provider)
    || (provider.scope == scope && OffersHere(given, provider.plugin, Capability(c, provider.major)))
  }

  /** What an error says about the scope. */
  ghost predicate Explains(e: Error, policy: Policy, scope: ScopeIdentity, parent: Option<Plan>, given: seq<Descriptor>) {
    var inherited := Inherited(parent);
    match e
    case InvalidScopePolicy(_, _) => false
    case UnknownKind(s) => s == scope && scope.kind !in policy
    case InvalidParent(s, _) => s == scope && scope.kind in policy && !IdentityFits(policy, scope, parent)
    case LimitExceeded(PluginsPerScope, p, n, m) => p == None && n == |given| > m == 256
    case LimitExceeded(ResolvedEdges, _, _, m) => |BoundPairs(given, inherited)| > m == 8192
    case LimitExceeded(_, p, _, _) => p.Some? && Unfit(given, scope.kind, p.value)
    case DuplicatePlugin(p) => exists i, j :: 0 <= i < j < |given| && given[i].id == given[j].id == p
    case InvalidDescriptor(p, _) => Unfit(given, scope.kind, p)
    case DuplicateProvider(c, _) => Contested(given, inherited, c)
    case MissingRequiredCapability(p, c, m) => AsksHere(given, p, Capability(c, m), Required) && !Provided(given, inherited, c)
    case IncompatibleCapabilityMajor(p, c, m, provider) =>
      && (AsksHere(given, p, Capability(c, m), Required) || AsksHere(given, p, Capability(c, m), Optional))
      && provider.major != m && IsProvider(given, inherited, scope, c, provider)
    case DependencyCycle(path) =>
      CycleSearch.LexLeastCycle(Needs(given), path) && CycleSearch.LeastOnAnyCycle(Needs(given), path[0])
  }

  // ---------------------------------------------------------------- from the sorted list back to what was given

  lemma NormalIn(given: seq<Descriptor>, n: Descriptor) returns (d: Descriptor)
    requires n in Canonical(given)
    ensures d in given && n == Normal(d)
  {
    var normals := MapBy(Normal, given);
    SortBySorts(DescriptorRank, normals);
    assert n in multiset(Canonical(given)) && n in normals;
    var i :| 0 <= i < |normals| && normals[i] == n;
    d := given[i];
  }

  lemma OffersOfCanonical(given: seq<Descriptor>, p: Id, o: Capability)
    ensures OffersHere(given, p, o) <==> OffersHere(Canonical(given), p, o)
  {
    if d :| d in given && d.id == p && o in d.offers {
      var i := CanonicalHas(given, d);
      SortedIds(d.offers);
      assert Canonical(given)[i] in Canonical(given);
    }
    if n :| n in Canonical(given) && n.id == p && o in n.offers {
      var d := NormalIn(given, n);
      SortedIds(d.offers);
    }
  }

  lemma DemandsAreAsked(given: seq<Descriptor>, x: Demand)
    ensures x in Demands(Canonical(given)) <==> AsksHere(given, x.plugin, x.capability, x.kind)
  {
    var ds := Canonical(given);
    if x in Demands(ds) {
      DemandsArePluginsDemands(ds, x);
      var n :| n in ds && x in DemandsOf(n);
      var d := NormalIn(given, n);
      DemandsNameTheirPlugin(n, x);
      SortedIds(d.required);
      SortedIds(d.optional);
    }
    if AsksHere(given, x.plugin, x.capability, x.kind) {
      var d :| d in given && d.id == x.plugin && x.capability in if x.kind.Required? then d.required else d.optional;
      var i := CanonicalHas(given, d);
      NormalDemand(d, x);
      DemandIn(ds, i, x);
    }
  }

  lemma PluginsOfCanonical(given: seq<Descriptor>)
    ensures multiset(Plugins(Canonical(given))) == multiset(Plugins(given)) && AscendsBy(IdRank, Plugins(Canonical(given)))
    ensures Elems(Plugins(Canonical(given))) == Elems(Plugins(given)) && |Canonical(given)| == |given|
  {
    var normals, ds := MapBy(Normal, given), Canonical(given);
    SortBySorts(DescriptorRank, normals);
    MapPermutes(PluginOf, ds, normals);
    assert Plugins(normals) == Plugins(given);
    PluginsAscend(ds);
    forall p ensures p in Plugins(ds) <==> p in Plugins(given) {
      assert p in multiset(Plugins(ds)) <==> p in multiset(Plugins(given));
    }
  }

  // ---------------------------------------------------------------- the checks before binding

  lemma IdentityExactly(policy: Policy, scope: ScopeIdentity, parent: Option<Plan>)
    ensures ValidateIdentity(policy, scope, ParentScope(parent)).None? <==> IdentityFits(policy, scope, parent)
  {
  }

  lemma RepeatsExactly(given: seq<Descriptor>)
    ensures FirstRepeat(Plugins(Canonical(given))).None? <==> IdsDiffer(given)
    ensures FirstRepeat(Plugins(Canonical(given))).Some? ==>
      exists i, j :: 0 <= i < j < |given| && given[i].id == given[j].id == FirstRepeat(Plugins(Canonical(given))).value
  {
    PluginsOfCanonical(given);
    RepeatIsRepeated(Plugins(Canonical(given)), Plugins(given));
    assert Distinct(Plugins(given)) <==> IdsDiffer(given) by {
      assert forall i :: 0 <= i < |given| ==> Plugins(given)[i] == given[i].id;
    }
    if FirstRepeat(Plugins(Canonical(given))).Some? {
      RepeatsAmong(Plugins(Canonical(given)), Plugins(given), FirstRepeat(Plugins(Canonical(given))).value);
    }
  }

  /** What stands twice in one listing stands twice in every other listing of the same elements. */
  lemma RepeatsAmong(a: seq<Id>, b: seq<Id>, x: Id)
    requires multiset(a) == multiset(b) && Repeats(a, x)
    ensures Repeats(b, x)
  {
    TwiceMeansRepeated(a, x);
    TwiceMeansRepeated(b, x);
  }

  lemma {:induction false} TwiceMeansRepeated(s: seq<Id>, x: Id)
    ensures Repeats(s, x) <==> multiset(s)[x] >= 2
  {
    if s != [] {
      TwiceMeansRepeated(s[1..], x);
      assert s == [s[0]] + s[1..];
      assert x in s[1..] <==> multiset(s[1..])[x] >= 1;
      if Repeats(s[1..], x) {
        var i, j :| 0 <= i < j < |s[1..]| && s[1..][i] == s[1..][j] == x;
        assert s[i+1] == s[j+1] == x;
      }
      if s[0] == x && x in s[1..] {
        var j :| 0 <= j < |s[1..]| && s[1..][j] == x;
        assert s[0] == s[j+1] == x;
      }
      if Repeats(s, x) {
        var i, j :| 0 <= i < j < |s| && s[i] == s[j] == x;
        assert s[1..][j-1] == x;
        if i > 0 { assert s[1..][i-1] == x; }
      }
    }
  }

  lemma {:induction false} FirstFaultExactly(ds: seq<Descriptor>, kind: Id)
    ensures FirstFault(ds, kind).None? <==> forall d :: d in ds ==> DescriptorFault(d, kind).None?
    ensures FirstFault(ds, kind).Some? ==> exists d :: d in ds && FirstFault(ds, kind) == DescriptorFault(d, kind)
  {
    if ds != [] {
      FirstFaultExactly(ds[1..], kind);
      assert ds == [ds[0]] + ds[1..];
    }
  }

  lemma FitExactly(given: seq<Descriptor>, kind: Id)
    ensures FirstFault(Canonical(given), kind).None? <==> AllFitFor(given, kind)
    ensures FirstFault(Canonical(given), kind).Some? ==>
      exists d :: d in given && !FitFor(d, kind) && FirstFault(Canonical(given), kind) == DescriptorFault(Normal(d), kind)
  {
    var ds := Canonical(given);
    FirstFaultExactly(ds, kind);
    if FirstFault(ds, kind).Some? {
      var n :| n in ds && FirstFault(ds, kind) == DescriptorFault(n, kind);
      var d := NormalIn(given, n);
      FaultlessMeansFit(d, kind);
    } else {
      forall d | d in given ensures FitFor(d, kind) {
        var i := CanonicalHas(given, d);
        assert ds[i] in ds;
        FaultlessMeansFit(d, kind);
      }
    }
  }

  // ---------------------------------------------------------------- who offers what

  /** What the checks on descriptors leave: distinct plugins, none of which offers or asks for a capability twice. */
  ghost predicate Plain(ds: seq<Descriptor>) {
    && Distinct(Plugins(ds))
    && forall d :: d in ds ==> Distinct(Ids(d.offers)) && Distinct(Ids(d.required + d.optional))
  }

  lemma PermutedIdsDiffer(a: seq<Capability>, b: seq<Capability>)
    requires multiset(a) == multiset(b) && Distinct(Ids(a))
    ensures Distinct(Ids(b))
  {
    MapPermutes(IdOf, a, b);
    DistinctIsMultiset(Ids(a));
    DistinctIsMultiset(Ids(b));
  }

  lemma FitAsksOnce(d: Descriptor, kind: Id)
    requires FitFor(d, kind)
    ensures Distinct(Ids(d.required + d.optional))
  {
    var all := d.required + d.optional;
    forall i, j | 0 <= i < j < |all| ensures Ids(all)[i] != Ids(all)[j] {
      if j < |d.required| {
        assert Ids(d.required)[i] == Ids(all)[i] && Ids(d.required)[j] == Ids(all)[j];
      } else if i >= |d.required| {
        assert Ids(d.optional)[i-|d.required|] == Ids(all)[i] && Ids(d.optional)[j-|d.required|] == Ids(all)[j];
      } else {
        assert all[i] in d.required && all[j] in d.optional;
      }
    }
  }

  lemma CanonicalIsPlain(given: seq<Descriptor>, kind: Id)
    requires IdsDiffer(given) && AllFitFor(given, kind)
    ensures Plain(Canonical(given)) && Plain(given)
  {
    var ds := Canonical(given);
    RepeatsExactly(given);
    PluginsOfCanonical(given);
    RepeatIsRepeated(Plugins(ds), Plugins(given));
    RepeatIsRepeated(Plugins(ds), Plugins(ds));
    forall d | d in given ensures Distinct(Ids(d.required + d.optional)) { FitAsksOnce(d, kind); }
    forall n | n in ds ensures Distinct(Ids(n.offers)) && Distinct(Ids(n.required + n.optional)) {
      var d := NormalIn(given, n);
      SortBySorts(CapabilityRank, d.offers);
      SortBySorts(CapabilityRank, d.required);
      SortBySorts(CapabilityRank, d.optional);
      PermutedIdsDiffer(d.offers, n.offers);
      FitAsksOnce(d, kind);
      PermutedIdsDiffer(d.required + d.optional, n.required + n.optional);
    }
  }

  lemma {:induction false} OffersOfMembers(scope: ScopeIdentity, plugin: Id, offers: seq<Capability>, c: Id, p: Provider)
    ensures p in OffersOf(scope, plugin, offers, c) <==> p.plugin == plugin && p.scope == scope && Capability(c, p.major) in offers
  {
    if offers != [] {
      var n := |offers| - 1;
      OffersOfMembers(scope, plugin, offers[..n], c, p);
      assert offers == offers[..n] + [offers[n]];
    }
  }

  lemma {:induction false} OffersMembers(scope: ScopeIdentity, ds: seq<Descriptor>, c: Id, p: Provider)
    ensures p in Offers(scope, ds, c) <==> p.scope == scope && OffersHere(ds, p.plugin, Capability(c, p.major))
  {
    if ds != [] {
      var n := |ds| - 1;
      OffersMembers(scope, ds[..n], c, p);
      OffersOfMembers(scope, ds[n].id, ds[n].offers, c, p);
      assert ds == ds[..n] + [ds[n]];
    }
  }

  lemma {:induction false} OffersOfAtMostOne(scope: ScopeIdentity, plugin: Id, offers: seq<Capability>, c: Id)
    requires Distinct(Ids(offers))
    ensures |OffersOf(scope, plugin, offers, c)| <= 1
  {
    if offers != [] {
      var n := |offers| - 1;
      assert Ids(offers[..n]) == Ids(offers)[..n];
      OffersOfAtMostOne(scope, plugin, offers[..n], c);
      OffersOfFound(scope, plugin, offers[..n], c);
      if j :| 0 <= j < n && offers[..n][j].id == c {
        assert Ids(offers)[j] != Ids(offers)[n];
      }
    }
  }

  lemma {:induction false} OfferersDiffer(scope: ScopeIdentity, ds: seq<Descriptor>, c: Id)
    requires Plain(ds)
    ensures var own := Offers(scope, ds, c); forall i, j :: 0 <= i < j < |own| ==> own[i].plugin != own[j].plugin
  {
    if ds != [] {
      var n := |ds| - 1;
      assert Plugins(ds[..n]) == Plugins(ds)[..n];
      OfferersDiffer(scope, ds[..n], c);
      OffersFound(scope, ds[..n], c);
      OffersOfFound(scope, ds[n].id, ds[n].offers, c);
      assert ds[n] in ds;
      OffersOfAtMostOne(scope, ds[n].id, ds[n].offers, c);
      assert forall p :: p in Plugins(ds[..n]) ==> p != Plugins(ds)[n];
    }
  }

  lemma OfferedExactly(given: seq<Descriptor>, c: Id)
    ensures c in OfferedIds(Canonical(given)) <==> Offered(given, c)
  {
    var ds := Canonical(given);
    if c in OfferedIds(ds) {
      var i, j :| 0 <= i < |ds| && 0 <= j < |ds[i].offers| && ds[i].offers[j].id == c;
      assert OffersHere(ds, ds[i].id, ds[i].offers[j]);
      OffersOfCanonical(given, ds[i].id, ds[i].offers[j]);
    }
    if p, o :| OffersHere(given, p, o) && o.id == c {
      OffersOfCanonical(given, p, o);
      var n :| n in ds && n.id == p && o in n.offers;
    }
  }

  lemma RivalsAreTwo(scope: ScopeIdentity, given: seq<Descriptor>, c: Id)
    requires Plain(Canonical(given)) && |Offers(scope, Canonical(given), c)| > 1
    ensures exists p, q, o, u :: OffersHere(given, p, o) && OffersHere(given, q, u) && o.id == u.id == c && p != q
  {
    var ds := Canonical(given);
    var own := Offers(scope, ds, c);
    OfferersDiffer(scope, ds, c);
    OffersMembers(scope, ds, c, own[0]);
    OffersMembers(scope, ds, c, own[1]);
    OffersOfCanonical(given, own[0].plugin, Capability(c, own[0].major));
    OffersOfCanonical(given, own[1].plugin, Capability(c, own[1].major));
    assert own[0].plugin != own[1].plugin;
  }

  lemma TwoAreRivals(scope: ScopeIdentity, given: seq<Descriptor>, p: Id, q: Id, o: Capability, u: Capability)
    requires OffersHere(given, p, o) && OffersHere(given, q, u) && o.id == u.id && p != q
    ensures |Offers(scope, Canonical(given), o.id)| > 1
  {
    var ds := Canonical(given);
    var own := Offers(scope, ds, o.id);
    OffersOfCanonical(given, p, o);
    OffersOfCanonical(given, q, u);
    OffersMembers(scope, ds, o.id, Provider(p, scope, o.major));
    OffersMembers(scope, ds, o.id, Provider(q, scope, u.major));
    assert o == Capability(o.id, o.major) && u == Capability(o.id, u.major);
    var i :| 0 <= i < |own| && own[i] == Provider(p, scope, o.major);
    var j :| 0 <= j < |own| && own[j] == Provider(q, scope, u.major);
    assert i != j;
  }

  lemma ContestedExactly(scope: ScopeIdentity, inherited: map<Id, Provider>, given: seq<Descriptor>, c: Id)
    requires Plain(Canonical(given))
    ensures c in Clashes(scope, inherited, Canonical(given)) <==> Contested(given, inherited, c)
  {
    var ds := Canonical(given);
    OfferedExactly(given, c);
    OffersFound(scope, ds, c);
    if |Offers(scope, ds, c)| > 1 {
      RivalsAreTwo(scope, given, c);
    }
    if p, q, o, u :| OffersHere(given, p, o) && OffersHere(given, q, u) && o.id == u.id == c && p != q {
      TwoAreRivals(scope, given, p, q, o, u);
    }
  }

  lemma SameDescriptor(given: seq<Descriptor>, d: Descriptor, e: Descriptor)
    requires Distinct(Plugins(given)) && d in given && e in given && d.id == e.id
    ensures d == e
  {
    var i :| 0 <= i < |given| && given[i] == d;
    var j :| 0 <= j < |given| && given[j] == e;
    assert Plugins(given)[i] == Plugins(given)[j];
  }

  lemma SameCapability(listed: seq<Capability>, o: Capability, u: Capability)
    requires Distinct(Ids(listed)) && o in listed && u in listed && o.id == u.id
    ensures o == u
  {
    var k :| 0 <= k < |listed| && listed[k] == o;
    var l :| 0 <= l < |listed| && listed[l] == u;
    assert Ids(listed)[k] == Ids(listed)[l];
  }

  lemma OneOffer(given: seq<Descriptor>, p: Id, o: Capability, u: Capability)
    requires Plain(given) && OffersHere(given, p, o) && OffersHere(given, p, u) && o.id == u.id
    ensures o == u
  {
    var d :| d in given && d.id == p && o in d.offers;
    var e :| e in given && e.id == p && u in e.offers;
    SameDescriptor(given, d, e);
    SameCapability(d.offers, o, u);
  }

  /** The provider entered for an offered capability is the one that offers it. */
  lemma OwnExactly(scope: ScopeIdentity, given: seq<Descriptor>, c: Id)
    ensures c in OwnProviders(scope, Canonical(given)) <==> Offered(given, c)
    ensures c in OwnProviders(scope, Canonical(given)) ==>
      var p := OwnProviders(scope, Canonical(given))[c];
      p.scope == scope && OffersHere(given, p.plugin, Capability(c, p.major))
  {
    var ds := Canonical(given);
    OfferedExactly(given, c);
    if c in OwnProviders(scope, ds) {
      OffersFound(scope, ds, c);
      var p := Offers(scope, ds, c)[0];
      OffersMembers(scope, ds, c, p);
      OffersOfCanonical(given, p.plugin, Capability(c, p.major));
    }
  }

  // ---------------------------------------------------------------- requirements

  predicate IsMet(x: Demand, providers: map<Id, Provider>) {
    if IsBound(x, providers) then providers[x.capability.id].major == x.capability.major else x.kind.Optional?
  }

  lemma {:induction false} CountGrows(xs: seq<Demand>, providers: map<Id, Provider>, n: nat)
    requires n <= |xs|
    ensures BoundCount(xs[..n], providers) <= BoundCount(xs, providers)
    decreases |xs|
  {
    if n < |xs| {
      assert xs[..|xs|-1][..n] == xs[..n];
      CountGrows(xs[..|xs|-1], providers, n);
    } else {
      assert xs[..n] == xs;
    }
  }

  lemma NoFaultExactly(x: Demand, providers: map<Id, Provider>, edges: nat)
    ensures DemandFault(x, providers, edges).None? <==>
      IsMet(x, providers) && (IsBound(x, providers) ==> edges + 1 <= MAX_RESOLVED_EDGES)
  {
  }

  /** The search stops at this demand. */
  ghost predicate StopsAt(xs: seq<Demand>, providers: map<Id, Provider>, n: int, e: Error) {
    0 <= n < |xs| && DemandFault(xs[n], providers, BoundCount(xs[..n], providers)) == Some(e)
  }

  lemma {:induction false} DemandFaultExactly(xs: seq<Demand>, providers: map<Id, Provider>)
    ensures FirstDemandFault(xs, providers).None? <==>
      (forall x :: x in xs ==> IsMet(x, providers)) && BoundCount(xs, providers) <= MAX_RESOLVED_EDGES
    ensures FirstDemandFault(xs, providers).Some? ==> exists n :: StopsAt(xs, providers, n, FirstDemandFault(xs, providers).value)
  {
    if xs != [] {
      var n := |xs| - 1;
      DemandFaultExactly(xs[..n], providers);
      CountGrows(xs, providers, n);
      assert xs == xs[..n] + [xs[n]];
      if FirstDemandFault(xs[..n], providers).Some? {
        var e := FirstDemandFault(xs[..n], providers).value;
        var m :| StopsAt(xs[..n], providers, m, e);
        assert xs[..n][..m] == xs[..m];
        assert StopsAt(xs, providers, m, e);
      } else {
        assert FirstDemandFault(xs, providers) == DemandFault(xs[n], providers, BoundCount(xs[..n], providers));
        NoFaultExactly(xs[n], providers, BoundCount(xs[..n], providers));
        assert BoundCount(xs, providers) == BoundCount(xs[..n], providers) + if IsBound(xs[n], providers) then 1 else 0;
        assert FirstDemandFault(xs, providers).Some? ==> StopsAt(xs, providers, n, FirstDemandFault(xs, providers).value);
        assert forall x :: x in xs <==> x in xs[..n] || x == xs[n];
      }
    }
  }

  function PairOf(x: Demand): (Id, Id) { (x.plugin, x.capability.id) }

  ghost function PairsIn(xs: seq<Demand>, providers: map<Id, Provider>): set<(Id, Id)> {
    set x | x in xs && IsBound(x, providers) :: PairOf(x)
  }

  lemma {:induction false} PairsCount(xs: seq<Demand>, providers: map<Id, Provider>)
    requires Distinct(MapBy(PairOf, xs))
    ensures |PairsIn(xs, providers)| == BoundCount(xs, providers)
  {
    if xs != [] {
      var n := |xs| - 1;
      assert MapBy(PairOf, xs[..n]) == MapBy(PairOf, xs)[..n];
      PairsCount(xs[..n], providers);
      PairsExtended(xs[..n], xs[n], providers);
      assert xs == xs[..n] + [xs[n]];
    }
  }

  lemma PairsExtended(xs: seq<Demand>, x: Demand, providers: map<Id, Provider>)
    requires Distinct(MapBy(PairOf, xs + [x]))
    ensures |PairsIn(xs + [x], providers)| == |PairsIn(xs, providers)| + if IsBound(x, providers) then 1 else 0
  {
    var pairs := MapBy(PairOf, xs + [x]);
    forall i | 0 <= i < |xs| ensures PairOf(xs[i]) != PairOf(x) {
      assert pairs[i] != pairs[|xs|];
    }
    assert PairsIn(xs + [x], providers) == PairsIn(xs, providers) + if IsBound(x, providers) then {PairOf(x)} else {};
  }

  lemma DemandsOfDiffer(d: Descriptor)
    requires Distinct(Ids(d.required + d.optional))
    ensures Distinct(MapBy(PairOf, DemandsOf(d)))
  {
    var asked := AskedBy(d.id, d.required, Required) + AskedBy(d.id, d.optional, Optional);
    var all := d.required + d.optional;
    assert forall i :: 0 <= i < |asked| ==> MapBy(PairOf, asked)[i] == (d.id, Ids(all)[i]);
    SortBySorts(DemandRank, asked);
    MapPermutes(PairOf, DemandsOf(d), asked);
    DistinctIsMultiset(MapBy(PairOf, asked));
    DistinctIsMultiset(MapBy(PairOf, DemandsOf(d)));
  }

  lemma {:induction false} DemandsDiffer(ds: seq<Descriptor>)
    requires Plain(ds)
    ensures Distinct(MapBy(PairOf, Demands(ds)))
  {
    if ds != [] {
      var n := |ds| - 1;
      assert Plugins(ds[..n]) == Plugins(ds)[..n];
      DemandsDiffer(ds[..n]);
      assert ds[n] in ds;
      DemandsOfDiffer(ds[n]);
      var before, last := Demands(ds[..n]), DemandsOf(ds[n]);
      assert MapBy(PairOf, Demands(ds)) == MapBy(PairOf, before) + MapBy(PairOf, last);
      forall i, j | 0 <= i < |before| && 0 <= j < |last| ensures PairOf(before[i]) != PairOf(last[j]) {
        DemandsArePluginsDemands(ds[..n], before[i]);
        DemandsNameTheirPlugin(ds[n], last[j]);
        var k :| 0 <= k < n && Plugins(ds[..n])[k] == before[i].plugin;
        assert Plugins(ds)[k] != Plugins(ds)[n];
      }
      DistinctConcat(MapBy(PairOf, before), MapBy(PairOf, last));
    }
  }

  lemma DistinctConcat<T>(a: seq<T>, b: seq<T>)
    requires Distinct(a) && Distinct(b) && forall i, j :: 0 <= i < |a| && 0 <= j < |b| ==> a[i] != b[j]
    ensures Distinct(a + b)
  {
  }

  // ---------------------------------------------------------------- what the effective providers come to

  /** A scope whose descriptors pass their checks, offers nothing twice, and inherits from other scopes only. */
  ghost predicate Settled(scope: ScopeIdentity, inherited: map<Id, Provider>, given: seq<Descriptor>) {
    && Plain(given) && Plain(Canonical(given))
    && (forall c :: !Contested(given, inherited, c))
    && forall c :: c in inherited ==> inherited[c].scope != scope
  }

  ghost function Effective(scope: ScopeIdentity, inherited: map<Id, Provider>, given: seq<Descriptor>): map<Id, Provider> {
    inherited + OwnProviders(scope, Canonical(given))
  }

  lemma EffectiveAt(scope: ScopeIdentity, inherited: map<Id, Provider>, given: seq<Descriptor>, c: Id)
    requires Settled(scope, inherited, given)
    ensures c in Effective(scope, inherited, given) <==> Provided(given, inherited, c)
    ensures c in inherited ==> !Offered(given, c) && Effective(scope, inherited, given)[c] == inherited[c]
    ensures Offered(given, c) ==>
      var p := Effective(scope, inherited, given)[c];
      p.scope == scope && forall q, o :: OffersHere(given, q, o) && o.id == c ==> q == p.plugin && o.major == p.major
  {
    OwnExactly(scope, given, c);
    assert !Contested(given, inherited, c);
    if Offered(given, c) {
      var p := Effective(scope, inherited, given)[c];
      forall q, o | OffersHere(given, q, o) && o.id == c ensures q == p.plugin && o.major == p.major {
        assert OffersHere(given, p.plugin, Capability(c, p.major));
        if q == p.plugin { OneOffer(given, q, o, Capability(c, p.major)); }
      }
    }
  }

  lemma MetExactly(scope: ScopeIdentity, inherited: map<Id, Provider>, given: seq<Descriptor>, x: Demand)
    requires Settled(scope, inherited, given)
    ensures IsMet(x, Effective(scope, inherited, given)) <==>
      (x.kind.Required? ==> Provided(given, inherited, x.capability.id)) && !ProvidedOtherwise(given, inherited, x.capability)
  {
    var c := x.capability.id;
    EffectiveAt(scope, inherited, given, c);
    if Offered(given, c) {
      var p, o :| OffersHere(given, p, o) && o.id == c;
    }
  }

  lemma AllMetExactly(scope: ScopeIdentity, inherited: map<Id, Provider>, given: seq<Descriptor>)
    requires Settled(scope, inherited, given)
    ensures (forall x :: x in Demands(Canonical(given)) ==> IsMet(x, Effective(scope, inherited, given))) <==>
      RequirementsHold(given, inherited)
  {
    forall x ensures x in Demands(Canonical(given)) <==> AsksHere(given, x.plugin, x.capability, x.kind) { DemandsAreAsked(given, x); }
    forall x ensures IsMet(x, Effective(scope, inherited, given)) <==>
      (x.kind.Required? ==> Provided(given, inherited, x.capability.id)) && !ProvidedOtherwise(given, inherited, x.capability)
    {
      MetExactly(scope, inherited, given, x);
    }
    if forall x :: x in Demands(Canonical(given)) ==> IsMet(x, Effective(scope, inherited, given)) {
      forall p, r, kind | AsksHere(given, p, r, kind)
        ensures !ProvidedOtherwise(given, inherited, r) && (kind.Required? ==> Provided(given, inherited, r.id))
      {
        assert Demand(p, r, kind) in Demands(Canonical(given));
      }
    }
  }

  lemma PairIsBound(scope: ScopeIdentity, inherited: map<Id, Provider>, given: seq<Descriptor>, pair: (Id, Id))
    requires Settled(scope, inherited, given) && pair in PairsIn(Demands(Canonical(given)), Effective(scope, inherited, given))
    ensures pair in BoundPairs(given, inherited)
  {
    var xs, providers := Demands(Canonical(given)), Effective(scope, inherited, given);
    var x :| x in xs && IsBound(x, providers) && PairOf(x) == pair;
    DemandsAreAsked(given, x);
    EffectiveAt(scope, inherited, given, x.capability.id);
    var d :| d in given && d.id == x.plugin && x.capability in if x.kind.Required? then d.required else d.optional;
    assert x.capability in d.required + d.optional;
  }

  lemma BoundIsPair(scope: ScopeIdentity, inherited: map<Id, Provider>, given: seq<Descriptor>, d: Descriptor, r: Capability)
    requires Settled(scope, inherited, given) && d in given && r in d.required + d.optional && Provided(given, inherited, r.id)
    ensures (d.id, r.id) in PairsIn(Demands(Canonical(given)), Effective(scope, inherited, given))
  {
    var kind := if r in d.required then Required else Optional;
    assert AsksHere(given, d.id, r, kind);
    DemandsAreAsked(given, Demand(d.id, r, kind));
    EffectiveAt(scope, inherited, given, r.id);
    assert PairOf(Demand(d.id, r, kind)) == (d.id, r.id);
  }

  lemma PairsExactly(scope: ScopeIdentity, inherited: map<Id, Provider>, given: seq<Descriptor>)
    requires Settled(scope, inherited, given)
    ensures BoundCount(Demands(Canonical(given)), Effective(scope, inherited, given)) == |BoundPairs(given, inherited)|
  {
    var xs, providers := Demands(Canonical(given)), Effective(scope, inherited, given);
    var pairs, bound := PairsIn(xs, providers), BoundPairs(given, inherited);
    forall pair | pair in pairs ensures pair in bound { PairIsBound(scope, inherited, given, pair); }
    forall pair | pair in bound ensures pair in pairs {
      var d, r :| d in given && r in d.required + d.optional && Provided(given, inherited, r.id) && (d.id, r.id) == pair;
      BoundIsPair(scope, inherited, given, d, r);
    }
    assert pairs == bound;
    DemandsDiffer(Canonical(given));
    PairsCount(xs, providers);
  }

  lemma ConsumersExactly(scope: ScopeIdentity, inherited: map<Id, Provider>, given: seq<Descriptor>, p: Id, q: Id)
    requires Settled(scope, inherited, given)
    ensures q in Consumers(Demands(Canonical(given)), Effective(scope, inherited, given), scope, p) <==> NeedsFrom(given, q, p)
  {
    var xs, providers := Demands(Canonical(given)), Effective(scope, inherited, given);
    if q in Consumers(xs, providers, scope, p) {
      var i :| 0 <= i < |xs| && MetBy(xs[i], providers, scope, p) && xs[i].plugin == q;
      var c := xs[i].capability.id;
      assert xs[i] in xs;
      DemandsAreAsked(given, xs[i]);
      EffectiveAt(scope, inherited, given, c);
      OwnExactly(scope, given, c);
    }
    if NeedsFrom(given, q, p) {
      var o, r, kind :| OffersHere(given, p, o) && AsksHere(given, q, r, kind) && o.id == r.id;
      var x := Demand(q, r, kind);
      DemandsAreAsked(given, x);
      EffectiveAt(scope, inherited, given, o.id);
      assert Offered(given, o.id);
      var i :| 0 <= i < |xs| && xs[i] == x;
      assert MetBy(xs[i], providers, scope, p);
    }
  }

  lemma AskersAreListed(given: seq<Descriptor>, q: Id, r: Capability, kind: RequirementKind)
    requires AsksHere(given, q, r, kind)
    ensures q in Plugins(given)
  {
    var d :| d in given && d.id == q && r in if kind.Required? then d.required else d.optional;
    var i :| 0 <= i < |given| && given[i] == d;
    assert Plugins(given)[i] == q;
  }

  lemma ConsumersAre(scope: ScopeIdentity, inherited: map<Id, Provider>, given: seq<Descriptor>, p: Id)
    requires Settled(scope, inherited, given)
    ensures Consumers(Demands(Canonical(given)), Effective(scope, inherited, given), scope, p) ==
      set q | q in Plugins(given) && NeedsFrom(given, q, p)
  {
    var consumers := Consumers(Demands(Canonical(given)), Effective(scope, inherited, given), scope, p);
    forall q ensures q in consumers <==> q in Plugins(given) && NeedsFrom(given, q, p) {
      ConsumersExactly(scope, inherited, given, p, q);
      if NeedsFrom(given, q, p) {
        var o, r, kind :| OffersHere(given, p, o) && AsksHere(given, q, r, kind) && o.id == r.id;
        AskersAreListed(given, q, r, kind);
      }
    }
  }

  lemma GraphExactly(scope: ScopeIdentity, inherited: map<Id, Provider>, given: seq<Descriptor>)
    requires Settled(scope, inherited, given)
    ensures Dependencies(Elems(Plugins(Canonical(given))), Demands(Canonical(given)), Effective(scope, inherited, given), scope) == Needs(given)
  {
    PluginsOfCanonical(given);
    forall p { ConsumersAre(scope, inherited, given, p); }
  }

  // ---------------------------------------------------------------- diagnostics

  lemma {:induction false} AbsencesMembers(xs: seq<Demand>, providers: map<Id, Provider>, a: OptionalAbsent)
    ensures a in Absences(xs, providers) <==> exists x :: x in xs && !IsBound(x, providers) && PairOf(x) == (a.plugin, a.capability)
  {
    if xs != [] {
      var n := |xs| - 1;
      AbsencesMembers(xs[..n], providers, a);
      assert xs == xs[..n] + [xs[n]];
    }
  }

  lemma {:induction false} AbsencesDiffer(xs: seq<Demand>, providers: map<Id, Provider>)
    requires Distinct(MapBy(PairOf, xs))
    ensures Distinct(Absences(xs, providers))
  {
    if xs != [] {
      var n := |xs| - 1;
      assert MapBy(PairOf, xs[..n]) == MapBy(PairOf, xs)[..n];
      AbsencesDiffer(xs[..n], providers);
      var last := OptionalAbsent(xs[n].plugin, xs[n].capability.id);
      AbsencesMembers(xs[..n], providers, last);
      assert forall i :: 0 <= i < n ==> xs[..n][i] == xs[i] && MapBy(PairOf, xs)[i] != MapBy(PairOf, xs)[n];
    }
  }

  /** The diagnostics list each optional capability that is asked for and not provided, once. */
  ghost predicate ListsAbsences(diagnostics: seq<OptionalAbsent>, given: seq<Descriptor>, inherited: map<Id, Provider>) {
    && Distinct(diagnostics)
    && forall a :: a in diagnostics <==>
         !Provided(given, inherited, a.capability) && exists r :: AsksHere(given, a.plugin, r, Optional) && r.id == a.capability
  }

  lemma AbsencesExactly(scope: ScopeIdentity, inherited: map<Id, Provider>, given: seq<Descriptor>)
    requires Settled(scope, inherited, given) && RequirementsHold(given, inherited)
    ensures ListsAbsences(Absences(Demands(Canonical(given)), Effective(scope, inherited, given)), given, inherited)
  {
    var xs, providers := Demands(Canonical(given)), Effective(scope, inherited, given);
    DemandsDiffer(Canonical(given));
    AbsencesDiffer(xs, providers);
    forall a ensures a in Absences(xs, providers) <==>
      !Provided(given, inherited, a.capability) && exists r :: AsksHere(given, a.plugin, r, Optional) && r.id == a.capability
    {
      AbsencesMembers(xs, providers, a);
      EffectiveAt(scope, inherited, given, a.capability);
      if x :| x in xs && !IsBound(x, providers) && PairOf(x) == (a.plugin, a.capability) {
        DemandsAreAsked(given, x);
        assert AsksHere(given, x.plugin, x.capability, x.kind);
      }
      if r :| AsksHere(given, a.plugin, r, Optional) && r.id == a.capability {
        DemandsAreAsked(given, Demand(a.plugin, r, Optional));
        assert PairOf(Demand(a.plugin, r, Optional)) == (a.plugin, a.capability);
      }
    }
  }

  // ---------------------------------------------------------------- which scopes resolve

  /** Topological, and before every other topological order. */
  ghost predicate IsLeastOrder(graph: Graphs.Adjacency, order: seq<Id>) {
    && Graphs.TopologicalOrder(graph, order)
    && forall other :: Graphs.TopologicalOrder(graph, other) ==> other == order || LexLess(order, other)
  }

  lemma MinFirstIsLeast(graph: Graphs.Adjacency, order: seq<Id>)
    requires Graphs.TargetsAreNodes(graph) && Graphs.TopologicalOrder(graph, order) && KahnOrder.MinFirst(graph, order)
    ensures IsLeastOrder(graph, order)
  {
    forall other | Graphs.TopologicalOrder(graph, other) ensures other == order || LexLess(order, other) {
      KahnOrder.MinFirstIsLexLeast(graph, order, other);
    }
  }

  lemma SettledExactly(policy: Policy, scope: ScopeIdentity, parent: Option<Plan>, given: seq<Descriptor>)
    requires Accepted(policy) && (parent.Some? ==> Established(policy, parent.value))
    requires IdentityFits(policy, scope, parent) && IdsDiffer(given) && AllFitFor(given, scope.kind)
    ensures Clashes(scope, Inherited(parent), Canonical(given)) == {} <==> Settled(scope, Inherited(parent), given)
    ensures Clashes(scope, Inherited(parent), Canonical(given)) == {} <==> forall c :: !Contested(given, Inherited(parent), c)
  {
    CanonicalIsPlain(given, scope.kind);
    IdentityExactly(policy, scope, parent);
    LookupsSucceed(policy, scope, parent, Canonical(given));
    forall c ensures c in Clashes(scope, Inherited(parent), Canonical(given)) <==> Contested(given, Inherited(parent), c) {
      ContestedExactly(scope, Inherited(parent), given, c);
    }
  }

  lemma EffectiveIsProvider(scope: ScopeIdentity, inherited: map<Id, Provider>, given: seq<Descriptor>, c: Id)
    requires Settled(scope, inherited, given) && c in Effective(scope, inherited, given)
    ensures IsProvider(given, inherited, scope, c, Effective(scope, inherited, given)[c])
  {
    EffectiveAt(scope, inherited, given, c);
    OwnExactly(scope, given, c);
  }

  lemma TooManyEdges(xs: seq<Demand>, providers: map<Id, Provider>, n: nat)
    requires n < |xs| && IsBound(xs[n], providers) && BoundCount(xs[..n], providers) + 1 > MAX_RESOLVED_EDGES
    ensures BoundCount(xs, providers) > MAX_RESOLVED_EDGES
  {
    CountGrows(xs, providers, n + 1);
    assert xs[..n+1][..n] == xs[..n] && xs[..n+1][n] == xs[n];
  }

  lemma DemandIsAsked(given: seq<Descriptor>, n: nat)
    requires n < |Demands(Canonical(given))|
    ensures var x := Demands(Canonical(given))[n];
      AsksHere(given, x.plugin, Capability(x.capability.id, x.capability.major), x.kind)
  {
    var x := Demands(Canonical(given))[n];
    DemandsAreAsked(given, x);
    assert x in Demands(Canonical(given)) && x.capability == Capability(x.capability.id, x.capability.major);
  }

  /** A demand that stops the search says which requirement fails, and how. */
  lemma FaultExplains(policy: Policy, scope: ScopeIdentity, parent: Option<Plan>, given: seq<Descriptor>, n: nat, e: Error)
    requires Settled(scope, Inherited(parent), given)
    requires StopsAt(Demands(Canonical(given)), Effective(scope, Inherited(parent), given), n, e)
    ensures Explains(e, policy, scope, parent, given)
  {
    var xs, inherited := Demands(Canonical(given)), Inherited(parent);
    var x, providers := xs[n], Effective(scope, inherited, given);
    DemandIsAsked(given, n);
    EffectiveAt(scope, inherited, given, x.capability.id);
    if !IsBound(x, providers) {
      MissingExplains(x, policy, scope, parent, given);
    } else if providers[x.capability.id].major != x.capability.major {
      EffectiveIsProvider(scope, inherited, given, x.capability.id);
      MajorExplains(x, providers[x.capability.id], policy, scope, parent, given);
    } else {
      TooManyEdges(xs, providers, n);
      PairsExactly(scope, inherited, given);
    }
  }

  lemma MissingExplains(x: Demand, policy: Policy, scope: ScopeIdentity, parent: Option<Plan>, given: seq<Descriptor>)
    requires AsksHere(given, x.plugin, Capability(x.capability.id, x.capability.major), x.kind) && x.kind.Required?
    requires !Provided(given, Inherited(parent), x.capability.id)
    ensures Explains(MissingRequiredCapability(x.plugin, x.capability.id, x.capability.major), policy, scope, parent, given)
  {
  }

  lemma MajorExplains(x: Demand, provider: Provider, policy: Policy, scope: ScopeIdentity, parent: Option<Plan>, given: seq<Descriptor>)
    requires AsksHere(given, x.plugin, Capability(x.capability.id, x.capability.major), x.kind)
    requires IsProvider(given, Inherited(parent), scope, x.capability.id, provider) && provider.major != x.capability.major
    ensures Explains(IncompatibleCapabilityMajor(x.plugin, x.capability.id, x.capability.major, provider), policy, scope, parent, given)
  {
  }

  lemma FaultNamesPlugin(d: Descriptor, kind: Id)
    requires DescriptorFault(d, kind).Some?
    ensures var e := DescriptorFault(d, kind).value;
      || (e.InvalidDescriptor? && e.id == d.id)
      || (e.LimitExceeded? && e.plugin == Some(d.id) && !e.limit.PluginsPerScope? && !e.limit.ResolvedEdges?)
  {
  }

  lemma UnfitExplains(e: Error, p: Id, policy: Policy, scope: ScopeIdentity, parent: Option<Plan>, given: seq<Descriptor>)
    requires Unfit(given, scope.kind, p)
    requires (e.InvalidDescriptor? && e.id == p) || (e.LimitExceeded? && e.plugin == Some(p) && !e.limit.PluginsPerScope? && !e.limit.ResolvedEdges?)
    ensures Explains(e, policy, scope, parent, given)
  {
  }

  lemma UnfitRefuses(policy: Policy, scope: ScopeIdentity, parent: Option<Plan>, given: seq<Descriptor>)
    requires IdentityFits(policy, scope, parent) && |given| <= 256 && IdsDiffer(given) && !AllFitFor(given, scope.kind)
    ensures Bind(policy, scope, parent, given).Err? && Explains(Bind(policy, scope, parent, given).error, policy, scope, parent, given)
  {
    IdentityExactly(policy, scope, parent);
    RepeatsExactly(given);
    FitExactly(given, scope.kind);
    var e := FirstFault(Canonical(given), scope.kind);
    var d :| d in given && !FitFor(d, scope.kind) && e == DescriptorFault(Normal(d), scope.kind);
    FaultNamesPlugin(Normal(d), scope.kind);
    UnfitExplains(e.value, d.id, policy, scope, parent, given);
  }

  lemma RepeatsRefuse(policy: Policy, scope: ScopeIdentity, parent: Option<Plan>, given: seq<Descriptor>)
    requires IdentityFits(policy, scope, parent) && |given| <= 256 && !IdsDiffer(given)
    ensures Bind(policy, scope, parent, given).Err? && Explains(Bind(policy, scope, parent, given).error, policy, scope, parent, given)
  {
    IdentityExactly(policy, scope, parent);
    RepeatsExactly(given);
  }

  /** The refusals before anything is bound. */
  lemma EarlyRefusals(policy: Policy, scope: ScopeIdentity, parent: Option<Plan>, given: seq<Descriptor>)
    requires !(IdentityFits(policy, scope, parent) && |given| <= 256 && IdsDiffer(given) && AllFitFor(given, scope.kind))
    ensures Bind(policy, scope, parent, given).Err? && Explains(Bind(policy, scope, parent, given).error, policy, scope, parent, given)
  {
    IdentityExactly(policy, scope, parent);
    if IdentityFits(policy, scope, parent) && |given| <= 256 {
      if IdsDiffer(given) {
        UnfitRefuses(policy, scope, parent, given);
      } else {
        RepeatsRefuse(policy, scope, parent, given);
      }
    }
  }

  /**
   * A scope resolves exactly when its identity fits the policy, its plugins are few enough, distinct and fit for it, no
   * capability is contested, every requirement holds, the bound ones are few enough, and nobody waits for itself. The
   * diagnostics then name the optional capabilities that are missing, and otherwise the error says what is wrong.
   */
  lemma ResolvesExactly(policy: Policy, scope: ScopeIdentity, parent: Option<Plan>, given: seq<Descriptor>, result: Result<Plan, Error>)
    requires Accepted(policy) && (parent.Some? ==> Established(policy, parent.value))
    requires ResolvesTo(policy, scope, parent, given, result)
    ensures result.Ok? <==> IsResolvable(policy, scope, parent, given)
    ensures result.Ok? ==> ListsAbsences(result.value.diagnostics, given, Inherited(parent))
    ensures result.Ok? ==> forall c :: c in result.value.providers <==> Provided(given, Inherited(parent), c)
    ensures result.Ok? ==> IsLeastOrder(Needs(given), result.value.order)
    ensures result.Err? ==> Explains(result.error, policy, scope, parent, given)
  {
    if IdentityFits(policy, scope, parent) && |given| <= 256 && IdsDiffer(given) && AllFitFor(given, scope.kind) {
      SettledExactly(policy, scope, parent, given);
      if Settled(scope, Inherited(parent), given) {
        BindsExactly(policy, scope, parent, given, result);
      } else {
        ContestRefuses(policy, scope, parent, given);
      }
    } else {
      EarlyRefusals(policy, scope, parent, given);
    }
  }

  lemma ContestRefuses(policy: Policy, scope: ScopeIdentity, parent: Option<Plan>, given: seq<Descriptor>)
    requires IdentityFits(policy, scope, parent) && |given| <= 256 && IdsDiffer(given) && AllFitFor(given, scope.kind)
    requires Clashes(scope, Inherited(parent), Canonical(given)) != {}
    ensures Bind(policy, scope, parent, given).Err? && Explains(Bind(policy, scope, parent, given).error, policy, scope, parent, given)
  {
    IdentityExactly(policy, scope, parent);
    RepeatsExactly(given);
    FitExactly(given, scope.kind);
    CanonicalIsPlain(given, scope.kind);
    ContestedExactly(scope, Inherited(parent), given, Least(Clashes(scope, Inherited(parent), Canonical(given))));
  }

  lemma BindsExactly(policy: Policy, scope: ScopeIdentity, parent: Option<Plan>, given: seq<Descriptor>, result: Result<Plan, Error>)
    requires IdentityFits(policy, scope, parent) && |given| <= 256 && IdsDiffer(given) && AllFitFor(given, scope.kind)
    requires Settled(scope, Inherited(parent), given) && Clashes(scope, Inherited(parent), Canonical(given)) == {}
    requires ResolvesTo(policy, scope, parent, given, result)
    ensures result.Ok? <==> IsResolvable(policy, scope, parent, given)
    ensures result.Ok? ==> ListsAbsences(result.value.diagnostics, given, Inherited(parent))
    ensures result.Ok? ==> forall c :: c in result.value.providers <==> Provided(given, Inherited(parent), c)
    ensures result.Ok? ==> IsLeastOrder(Needs(given), result.value.order)
    ensures result.Err? ==> Explains(result.error, policy, scope, parent, given)
  {
    var inherited, ds := Inherited(parent), Canonical(given);
    var xs, providers := Demands(ds), Effective(scope, inherited, given);
    IdentityExactly(policy, scope, parent);
    RepeatsExactly(given);
    FitExactly(given, scope.kind);
    DemandFaultExactly(xs, providers);
    AllMetExactly(scope, inherited, given);
    PairsExactly(scope, inherited, given);
    assert Bind(policy, scope, parent, given) == BindCanonical(scope, inherited, ds);
    if FirstDemandFault(xs, providers).Some? {
      var n :| StopsAt(xs, providers, n, FirstDemandFault(xs, providers).value);
      FaultExplains(policy, scope, parent, given, n, FirstDemandFault(xs, providers).value);
    } else {
      GraphExactly(scope, inherited, given);
      AbsencesExactly(scope, inherited, given);
      forall c ensures c in providers <==> Provided(given, inherited, c) { EffectiveAt(scope, inherited, given, c); }
      if result.Ok? {
        MinFirstIsLeast(Needs(given), result.value.order);
      }
    }
  }
}
