/** What every activation plan promises (resolver.rs, model.rs). */
module Plans {
  import opened Basics
  import opened Ordering
  import opened Model
  import opened Resolver
  import Graphs
  import KahnOrder
  import CycleSearch

  // ---------------------------------------------------------------- one outcome

  lemma {:induction false} LexLessIsAsymmetric(a: seq<Id>, b: seq<Id>)
    ensures !(LexLess(a, b) && LexLess(b, a))
  {
    if a != [] && b != [] && a[0] == b[0] { LexLessIsAsymmetric(a[1..], b[1..]); }
  }

  /** The outcome of a resolution is determined: one plan, or one error down to the path of the cycle. */
  lemma OutcomeIsUnique(policy: Policy, scope: ScopeIdentity, parent: Option<Plan>, given: seq<Descriptor>,
    a: Result<Plan, Error>, b: Result<Plan, Error>)
    requires ResolvesTo(policy, scope, parent, given, a) && ResolvesTo(policy, scope, parent, given, b)
    requires Bind(policy, scope, parent, given).Ok? ==> Graphs.TargetsAreNodes(Bind(policy, scope, parent, given).value.graph)
    ensures a == b
  {
    if Bind(policy, scope, parent, given).Ok? {
      var graph := Bind(policy, scope, parent, given).value.graph;
      if Graphs.Acyclic(graph) {
        KahnOrder.MinFirstIsLexLeast(graph, a.value.order, b.value.order);
        KahnOrder.MinFirstIsLexLeast(graph, b.value.order, a.value.order);
        LexLessIsAsymmetric(a.value.order, b.value.order);
      } else {
        var p, q := a.error.path, b.error.path;
        assert CycleSearch.OnACycle(graph, p[0]) && CycleSearch.OnACycle(graph, q[0]);
        assert p[0] == q[0];
        LexLessIsAsymmetric(p, q);
      }
    }
  }

  // ---------------------------------------------------------------- input order

  /** `b` lists the same descriptors as `a`, each with its lists in some order: `mid` is `a` in the order of `b`. */
  ghost predicate Rearranged(a: seq<Descriptor>, mid: seq<Descriptor>, b: seq<Descriptor>) {
    multiset(a) == multiset(mid) && |mid| == |b| && forall i :: 0 <= i < |b| ==> Shuffled(mid[i], b[i])
  }

  lemma PluginsAscend(ds: seq<Descriptor>)
    requires AscendsBy(DescriptorRank, ds)
    ensures AscendsBy(IdRank, Plugins(ds))
  {
    forall i, j | 0 <= i < j < |ds| ensures !Below(IdRank(Plugins(ds)[j]), IdRank(Plugins(ds)[i])) {
      assert !Below(DescriptorRank(ds[j]), DescriptorRank(ds[i]));
    }
  }

  lemma DistinctPluginsDetermine(ds: seq<Descriptor>)
    requires Distinct(Plugins(ds))
    ensures Determines(DescriptorRank, ds)
  {
    forall x, y | x in ds && y in ds && DescriptorRank(x) == DescriptorRank(y) ensures x == y {
      var i :| 0 <= i < |ds| && ds[i] == x;
      var j :| 0 <= j < |ds| && ds[j] == y;
      assert Plugins(ds)[i] == Plugins(ds)[j];
    }
  }

  /** Sorting meets the same duplicate, or the same list. */
  lemma CanonicalForgetsOrder(a: seq<Descriptor>, mid: seq<Descriptor>, b: seq<Descriptor>)
    requires Rearranged(a, mid, b)
    ensures FirstRepeat(Plugins(Canonical(a))) == FirstRepeat(Plugins(Canonical(b)))
    ensures FirstRepeat(Plugins(Canonical(a))).None? ==> Canonical(a) == Canonical(b)
  {
    var na, nb := MapBy(Normal, a), MapBy(Normal, b);
    forall i | 0 <= i < |b| ensures Normal(mid[i]) == Normal(b[i]) { NormalForgetsOrder(mid[i], b[i]); }
    assert MapBy(Normal, mid) == nb;
    MapPermutes(Normal, a, mid);
    var sa, sb := SortBy(DescriptorRank, na), SortBy(DescriptorRank, nb);
    SortBySorts(DescriptorRank, na);
    SortBySorts(DescriptorRank, nb);
    PluginsAscend(sa);
    PluginsAscend(sb);
    MapPermutes(PluginOf, sa, sb);
    AscendingIsUnique(IdRank, Plugins(sa), Plugins(sb));
    FirstRepeatIsLeast(Plugins(sa));
    if FirstRepeat(Plugins(sa)).None? {
      DistinctPluginsDetermine(sa);
      AscendingIsUnique(DescriptorRank, sa, sb);
    }
  }

  /** The same plan or the same error for every order of the descriptors and of the lists inside them. */
  lemma OrderDoesNotMatter(policy: Policy, scope: ScopeIdentity, parent: Option<Plan>,
    a: seq<Descriptor>, mid: seq<Descriptor>, b: seq<Descriptor>, ra: Result<Plan, Error>, rb: Result<Plan, Error>)
    requires Rearranged(a, mid, b)
    requires ResolvesTo(policy, scope, parent, a, ra) && ResolvesTo(policy, scope, parent, b, rb)
    ensures ra == rb
  {
    assert |a| == |multiset(a)| == |multiset(mid)| == |mid| == |b|;
    CanonicalForgetsOrder(a, mid, b);
    assert Bind(policy, scope, parent, a) == Bind(policy, scope, parent, b);
    if Bind(policy, scope, parent, a).Ok? {
      BindSucceeded(policy, scope, parent, a);
      TargetsAreConsumers(scope, Canonical(a), Bind(policy, scope, parent, a).value);
    }
    OutcomeIsUnique(policy, scope, parent, a, ra, rb);
  }

  // ---------------------------------------------------------------- bindings

  ghost predicate EarlierIn(order: seq<Id>, first: Id, second: Id) {
    exists i, j :: 0 <= i < j < |order| && order[i] == first && order[j] == second
  }

  /**
   * The binding is to the one effective provider of the capability, of exactly the major asked for, which activates
   * earlier in the same scope or comes from the parent's plan; only an optional requirement goes without.
   */
  ghost predicate Met(plan: Plan, parent: Option<Plan>, plugin: Id, b: Binding) {
    && (b.provider.Some? <==> b.capability.id in plan.providers)
    && (b.provider.None? ==> b.kind.Optional?)
    && (b.provider.Some? ==>
          var provider := b.provider.value;
          && provider == plan.providers[b.capability.id] && provider.major == b.capability.major
          && if b.capability.id in Inherited(parent)
             then Inherited(parent)[b.capability.id] == provider && provider.scope != plan.scope
             else provider.scope == plan.scope && EarlierIn(plan.order, provider.plugin, plugin))
  }

  ghost predicate Binds(plan: Plan, plugin: Id, capability: Capability, kind: RequirementKind) {
    plugin in plan.bindings &&
    exists k :: 0 <= k < |plan.bindings[plugin]| && plan.bindings[plugin][k].capability == capability && plan.bindings[plugin][k].kind == kind
  }

  lemma {:induction false} TableLookup(ds: seq<Descriptor>, providers: map<Id, Provider>, i: nat)
    requires Distinct(Plugins(ds)) && i < |ds|
    ensures ds[i].id in BindingTable(ds, providers)
    ensures BindingTable(ds, providers)[ds[i].id] == BindingsFor(DemandsOf(ds[i]), providers)
    decreases |ds|
  {
    var n := |ds| - 1;
    assert Plugins(ds)[..n] == Plugins(ds[..n]);
    if i < n {
      TableLookup(ds[..n], providers, i);
      assert Plugins(ds)[i] != Plugins(ds)[n];
    }
  }

  lemma {:induction false} TableKeys(ds: seq<Descriptor>, providers: map<Id, Provider>, p: Id)
    requires p in BindingTable(ds, providers)
    ensures exists i :: 0 <= i < |ds| && ds[i].id == p
  {
    var n := |ds| - 1;
    if p != ds[n].id { TableKeys(ds[..n], providers, p); }
  }

  lemma {:induction false} DemandIn(ds: seq<Descriptor>, i: nat, x: Demand)
    requires i < |ds| && x in DemandsOf(ds[i])
    ensures x in Demands(ds)
    decreases |ds|
  {
    var n := |ds| - 1;
    if i < n { DemandIn(ds[..n], i, x); }
  }

  lemma {:induction false} FaultlessDemand(xs: seq<Demand>, providers: map<Id, Provider>, x: Demand)
    requires FirstDemandFault(xs, providers).None? && x in xs
    ensures if IsBound(x, providers) then providers[x.capability.id].major == x.capability.major else x.kind.Optional?
  {
    var n := |xs| - 1;
    if x != xs[n] {
      assert x in xs[..n];
      FaultlessDemand(xs[..n], providers, x);
    }
  }

  lemma {:induction false} FaultlessAt(ds: seq<Descriptor>, kind: Id, d: Descriptor)
    requires FirstFault(ds, kind).None? && d in ds
    ensures DescriptorFault(d, kind).None?
  {
    if d != ds[0] {
      assert d in ds[1..];
      FaultlessAt(ds[1..], kind, d);
    }
  }

  lemma DemandIsMet(policy: Policy, scope: ScopeIdentity, parent: Option<Plan>, given: seq<Descriptor>, plan: Plan, x: Demand)
    requires Accepted(policy) && (parent.Some? ==> Established(policy, parent.value))
    requires ResolvesTo(policy, scope, parent, given, Ok(plan)) && x in Demands(Canonical(given))
    ensures Met(plan, parent, x.plugin, BindingOf(x, plan.providers))
  {
    BindSucceeded(policy, scope, parent, given);
    var ds := Canonical(given);
    var b := Bind(policy, scope, parent, given).value;
    FaultlessDemand(Demands(ds), b.providers, x);
    LookupsSucceed(policy, scope, parent, ds);
    if IsBound(x, b.providers) {
      var c := x.capability.id;
      var provider := b.providers[c];
      if c in Inherited(parent) {
        assert c !in Clashes(scope, Inherited(parent), ds);
      } else {
        OffersFound(scope, ds, c);
        var k :| 0 <= k < |Demands(ds)| && Demands(ds)[k] == x;
        assert MetBy(Demands(ds)[k], b.providers, scope, provider.plugin);
        assert Graphs.Edge(b.graph, provider.plugin, x.plugin);
        DemandsArePluginsDemands(ds, x);
        ListedBefore(b.graph, plan.order, provider.plugin, x.plugin);
      }
    }
  }

  lemma ListedBefore(graph: Graphs.Adjacency, order: seq<Id>, u: Id, v: Id)
    requires Graphs.TopologicalOrder(graph, order) && Graphs.Edge(graph, u, v) && v in graph
    ensures EarlierIn(order, u, v)
  {
    assert u in Elems(order) && v in Elems(order);
    var i :| 0 <= i < |order| && order[i] == u;
    var j :| 0 <= j < |order| && order[j] == v;
    assert Graphs.Edge(graph, order[i], order[j]);
  }

  /** Every binding of an accepted plan is met, and every requirement has its binding. */
  lemma BindingsAreMet(policy: Policy, scope: ScopeIdentity, parent: Option<Plan>, given: seq<Descriptor>, plan: Plan)
    requires Accepted(policy) && (parent.Some? ==> Established(policy, parent.value))
    requires ResolvesTo(policy, scope, parent, given, Ok(plan))
    ensures forall p, k :: p in plan.bindings && 0 <= k < |plan.bindings[p]| ==> Met(plan, parent, p, plan.bindings[p][k])
    ensures forall d, r :: d in given && r in d.required ==> Binds(plan, d.id, r, Required)
    ensures forall d, r :: d in given && r in d.optional ==> Binds(plan, d.id, r, Optional)
  {
    BindSucceeded(policy, scope, parent, given);
    var ds := Canonical(given);
    SortBySorts(DescriptorRank, MapBy(Normal, given));
    PluginsAscend(ds);
    FirstRepeatIsLeast(Plugins(ds));
    forall p, k | p in plan.bindings && 0 <= k < |plan.bindings[p]| ensures Met(plan, parent, p, plan.bindings[p][k]) {
      TableKeys(ds, plan.providers, p);
      var i :| 0 <= i < |ds| && ds[i].id == p;
      TableLookup(ds, plan.providers, i);
      var x := DemandsOf(ds[i])[k];
      DemandIn(ds, i, x);
      DemandsNameTheirPlugin(ds[i], x);
      DemandIsMet(policy, scope, parent, given, plan, x);
    }
    forall d, r | d in given && r in d.required ensures Binds(plan, d.id, r, Required) {
      RequirementIsBound(ds, plan, given, d, r, Required);
    }
    forall d, r | d in given && r in d.optional ensures Binds(plan, d.id, r, Optional) {
      RequirementIsBound(ds, plan, given, d, r, Optional);
    }
  }

  lemma CanonicalHas(given: seq<Descriptor>, d: Descriptor) returns (i: nat)
    requires d in given
    ensures i < |Canonical(given)| && Canonical(given)[i] == Normal(d)
  {
    var normals, ds := MapBy(Normal, given), Canonical(given);
    SortBySorts(DescriptorRank, normals);
    var g :| 0 <= g < |given| && given[g] == d;
    assert normals[g] == Normal(d) && normals[g] in multiset(ds);
    i :| 0 <= i < |ds| && ds[i] == Normal(d);
  }

  lemma NormalDemand(d: Descriptor, x: Demand)
    requires x.plugin == d.id && x.capability in if x.kind.Required? then d.required else d.optional
    ensures x in DemandsOf(Normal(d))
  {
    SortedIds(d.required);
    SortedIds(d.optional);
    DemandsNameTheirPlugin(Normal(d), x);
  }

  lemma RequirementIsBound(ds: seq<Descriptor>, plan: Plan, given: seq<Descriptor>, d: Descriptor, r: Capability, kind: RequirementKind)
    requires ds == Canonical(given) && Distinct(Plugins(ds)) && plan.bindings == BindingTable(ds, plan.providers)
    requires d in given && r in if kind.Required? then d.required else d.optional
    ensures Binds(plan, d.id, r, kind)
  {
    var i := CanonicalHas(given, d);
    var x := Demand(d.id, r, kind);
    NormalDemand(d, x);
    var k :| 0 <= k < |DemandsOf(ds[i])| && DemandsOf(ds[i])[k] == x;
    TableLookup(ds, plan.providers, i);
    assert plan.bindings[d.id][k] == BindingOf(x, plan.providers);
  }

  // ---------------------------------------------------------------- chains of scopes

  /** One scope of a chain, with the descriptors it was resolved from. */
  datatype Link = Link(given: seq<Descriptor>, plan: Plan)

  function Above(chain: seq<Link>, i: nat): Option<Plan>
    requires i < |chain|
  {
    if i == 0 then None else Some(chain[i-1].plan)
  }

  ghost predicate LinkAt(policy: Policy, chain: seq<Link>, i: nat)
    requires i < |chain|
  {
    ResolvesTo(policy, chain[i].plan.scope, Above(chain, i), chain[i].given, Ok(chain[i].plan))
  }

  /** Scopes resolved one below the other under one policy. */
  ghost predicate Chain(policy: Policy, chain: seq<Link>) {
    forall i {:trigger LinkAt(policy, chain, i)} :: 0 <= i < |chain| ==> LinkAt(policy, chain, i)
  }

  ghost function Own(link: Link): map<Id, Provider> { OwnProviders(link.plan.scope, Canonical(link.given)) }

  lemma ResolvedIsEstablished(policy: Policy, scope: ScopeIdentity, parent: Option<Plan>, given: seq<Descriptor>, plan: Plan)
    requires Accepted(policy) && (parent.Some? ==> Established(policy, parent.value))
    requires ResolvesTo(policy, scope, parent, given, Ok(plan))
    ensures Established(policy, plan)
  {
    ResolvedPlan(policy, scope, parent, given, plan);
    StaysEstablished(policy, scope, parent, given, plan.order);
  }

  lemma {:induction false} ChainIsEstablished(policy: Policy, chain: seq<Link>, i: nat)
    requires Accepted(policy) && Chain(policy, chain) && i < |chain|
    ensures Established(policy, chain[i].plan)
  {
    assert LinkAt(policy, chain, i);
    if i > 0 { ChainIsEstablished(policy, chain, i - 1); }
    ResolvedIsEstablished(policy, chain[i].plan.scope, Above(chain, i), chain[i].given, chain[i].plan);
  }

  /** The first step down from a plan: its providers are the parent's and its own, with no overlap. */
  lemma ProvidersOfLink(policy: Policy, chain: seq<Link>, i: nat)
    requires Chain(policy, chain) && i < |chain|
    ensures var above := if i == 0 then map[] else chain[i-1].plan.providers;
      chain[i].plan.providers == above + Own(chain[i]) && above.Keys !! Own(chain[i]).Keys
  {
    assert LinkAt(policy, chain, i);
    var parent := Above(chain, i);
    var scope, given := chain[i].plan.scope, chain[i].given;
    ResolvedPlan(policy, scope, parent, given, chain[i].plan);
    BindSucceeded(policy, scope, parent, given);
    forall c | c in Own(chain[i]) ensures c !in Inherited(parent) {
      assert c !in Clashes(scope, Inherited(parent), Canonical(given));
    }
  }

  /** The scope itself provides the capability. */
  ghost predicate OfferedAt(chain: seq<Link>, i: int, c: Id) { 0 <= i < |chain| && c in Own(chain[i]) }

  /** The scope of the chain, at most `n` down, that provides the capability. */
  lemma {:induction false} ProviderComesFrom(policy: Policy, chain: seq<Link>, n: nat, c: Id) returns (from: nat)
    requires Chain(policy, chain) && n < |chain| && c in chain[n].plan.providers
    ensures from <= n && OfferedAt(chain, from, c) && chain[n].plan.providers[c] == Own(chain[from])[c]
    ensures from < n ==> c in chain[n-1].plan.providers && chain[n].plan.providers[c] == chain[n-1].plan.providers[c]
  {
    ProvidersOfLink(policy, chain, n);
    if c in Own(chain[n]) {
      from := n;
    } else {
      from := ProviderComesFrom(policy, chain, n - 1, c);
    }
  }

  lemma {:induction false} OfferedStays(policy: Policy, chain: seq<Link>, i: nat, n: nat, c: Id)
    requires Chain(policy, chain) && i <= n < |chain| && OfferedAt(chain, i, c)
    ensures c in chain[n].plan.providers && chain[n].plan.providers[c] == Own(chain[i])[c]
    ensures i < n ==> c in chain[n-1].plan.providers && !OfferedAt(chain, n, c)
  {
    ProvidersOfLink(policy, chain, n);
    if i < n { OfferedStays(policy, chain, i, n - 1, c); }
  }

  /** Down any chain, the effective providers are the disjoint union of what each scope provides itself. */
  lemma ProvidersDownTheChain(policy: Policy, chain: seq<Link>, n: nat)
    requires Chain(policy, chain) && n < |chain|
    ensures forall c :: c in chain[n].plan.providers ==> exists i :: 0 <= i <= n && OfferedAt(chain, i, c)
    ensures forall i, c :: 0 <= i <= n && OfferedAt(chain, i, c) ==>
      c in chain[n].plan.providers && chain[n].plan.providers[c] == Own(chain[i])[c]
    ensures forall i, j, c :: 0 <= i < j <= n && OfferedAt(chain, i, c) ==> !OfferedAt(chain, j, c)
  {
    forall c | c in chain[n].plan.providers ensures exists i :: 0 <= i <= n && OfferedAt(chain, i, c) {
      var i := ProviderComesFrom(policy, chain, n, c);
    }
    forall i, c | 0 <= i <= n && OfferedAt(chain, i, c)
      ensures c in chain[n].plan.providers && chain[n].plan.providers[c] == Own(chain[i])[c]
    {
      OfferedStays(policy, chain, i, n, c);
    }
    forall i, j, c | 0 <= i < j <= n && OfferedAt(chain, i, c) ensures !OfferedAt(chain, j, c) {
      OfferedStays(policy, chain, i, j, c);
    }
  }

  /** A binding that leaves the scope goes to a plugin of a strict ancestor. */
  lemma BindingsReachAncestors(policy: Policy, chain: seq<Link>, n: nat, p: Id, k: nat) returns (from: nat)
    requires Accepted(policy) && Chain(policy, chain) && n < |chain|
    requires p in chain[n].plan.bindings && k < |chain[n].plan.bindings[p]|
    requires chain[n].plan.bindings[p][k].provider.Some?
    ensures var provider := chain[n].plan.bindings[p][k].provider.value;
      && from <= n && provider.scope == chain[from].plan.scope && provider.plugin in Plugins(Canonical(chain[from].given))
      && (from == n ==> EarlierIn(chain[n].plan.order, provider.plugin, p))
      && (from < n ==> provider.scope != chain[n].plan.scope)
  {
    var plan := chain[n].plan;
    var b := plan.bindings[p][k];
    var c := b.capability.id;
    BindingAtIsMet(policy, chain, n, p, k);
    from := ProviderComesFrom(policy, chain, n, c);
    OffersFound(chain[from].plan.scope, Canonical(chain[from].given), c);
  }

  lemma BindingAtIsMet(policy: Policy, chain: seq<Link>, n: nat, p: Id, k: nat)
    requires Accepted(policy) && Chain(policy, chain) && n < |chain|
    requires p in chain[n].plan.bindings && k < |chain[n].plan.bindings[p]|
    ensures Met(chain[n].plan, Above(chain, n), p, chain[n].plan.bindings[p][k])
  {
    assert LinkAt(policy, chain, n);
    if n > 0 { ChainIsEstablished(policy, chain, n - 1); }
    BindingsAreMet(policy, chain[n].plan.scope, Above(chain, n), chain[n].given, chain[n].plan);
  }
}
