/** Resolving the plugins of one scope into an activation plan (resolver.rs). */
module Resolver {
  import opened Basics
  import opened Ordering
  import opened Model
  import Graphs
  import KahnOrder
  import CycleSearch

  const MAX_PLUGINS_PER_SCOPE := 256
  const MAX_RESOLVED_EDGES := 8192

  datatype RequirementKind = Required | Optional

  /** A requirement of one plugin. */
  datatype Demand = Demand(plugin: Id, capability: Capability, kind: RequirementKind)

  /** `provider` is absent only for an optional requirement that nothing provides. */
  datatype Binding = Binding(capability: Capability, kind: RequirementKind, provider: Option<Provider>)

  datatype OptionalAbsent = OptionalAbsent(plugin: Id, capability: Id)

  datatype Plan = Plan(
    scope: ScopeIdentity, order: seq<Id>, bindings: map<Id, seq<Binding>>, providers: map<Id, Provider>,
    diagnostics: seq<OptionalAbsent>)

  /** Everything but the activation order. */
  datatype Bound = Bound(
    bindings: map<Id, seq<Binding>>, providers: map<Id, Provider>, diagnostics: seq<OptionalAbsent>,
    graph: Graphs.Adjacency)

  // ---------------------------------------------------------------- what the plan of a scope must be

  function DescriptorRank(d: Descriptor): Rank { IdRank(d.id) }

  function PluginOf(d: Descriptor): Id { d.id }

  function Plugins(ds: seq<Descriptor>): seq<Id> { MapBy(PluginOf, ds) }

  /** The descriptors with sorted lists, sorted by plugin. */
  function Canonical(ds: seq<Descriptor>): seq<Descriptor> { SortBy(DescriptorRank, MapBy(Normal, ds)) }

  function FirstFault(ds: seq<Descriptor>, kind: Id): Option<Error> {
    if ds == [] then None
    else match DescriptorFault(ds[0], kind)
      case Some(e) => Some(e)
      case None => FirstFault(ds[1..], kind)
  }

  /** What one plugin offers of a capability, by the declarations seen so far. */
  function OffersOf(scope: ScopeIdentity, plugin: Id, offers: seq<Capability>, c: Id): seq<Provider> {
    if offers == [] then []
    else
      var last := offers[|offers|-1];
      OffersOf(scope, plugin, offers[..|offers|-1], c) + if last.id == c then [Provider(plugin, scope, last.major)] else []
  }

  /** What the plugins of this scope offer of a capability. */
  function Offers(scope: ScopeIdentity, ds: seq<Descriptor>, c: Id): seq<Provider> {
    if ds == [] then []
    else
      var last := ds[|ds|-1];
      Offers(scope, ds[..|ds|-1], c) + OffersOf(scope, last.id, last.offers, c)
  }

  function OfferedIds(ds: seq<Descriptor>): set<Id> {
    set i, j | 0 <= i < |ds| && 0 <= j < |ds[i].offers| :: ds[i].offers[j].id
  }

  /** Capabilities offered more than once here, or here and further up. */
  function Clashes(scope: ScopeIdentity, inherited: map<Id, Provider>, ds: seq<Descriptor>): set<Id> {
    set c | c in OfferedIds(ds) && IsClash(scope, inherited, ds, c)
  }

  predicate IsClash(scope: ScopeIdentity, inherited: map<Id, Provider>, ds: seq<Descriptor>, c: Id) {
    |Offers(scope, ds, c)| > 1 || c in inherited
  }

  function ClashError(scope: ScopeIdentity, inherited: map<Id, Provider>, ds: seq<Descriptor>, c: Id): Error {
    DuplicateProvider(c, SortProviders(Rivals(inherited, c, Offers(scope, ds, c))))
  }

  /** The offers that clash: those of this scope among themselves, or else the one with the inherited provider. */
  function Rivals(inherited: map<Id, Provider>, c: Id, own: seq<Provider>): seq<Provider> {
    if |own| > 1 || c !in inherited then own else [inherited[c]] + own
  }

  // ---------------------------------------------------------------- the order of providers

  /** The fields in the order in which the derived `Ord` compares them. */
  function ProviderKey(p: Provider): seq<nat> {
    [p.plugin.rank, p.scope.kind.rank, p.scope.id.rank, if p.scope.parent.Some? then p.scope.parent.value.rank + 1 else 0,
      p.scope.generation, p.major]
  }

  predicate KeyBelow(a: seq<nat>, b: seq<nat>) {
    b != [] && (a == [] || a[0] < b[0] || (a[0] == b[0] && KeyBelow(a[1..], b[1..])))
  }

  predicate ProviderBelow(p: Provider, q: Provider) { KeyBelow(ProviderKey(p), ProviderKey(q)) }

  function InsertProvider(p: Provider, s: seq<Provider>): seq<Provider> {
    if s == [] || !ProviderBelow(s[0], p) then [p] + s else [s[0]] + InsertProvider(p, s[1..])
  }

  function SortProviders(s: seq<Provider>): seq<Provider> {
    if s == [] then [] else InsertProvider(s[0], SortProviders(s[1..]))
  }

  ghost predicate AscendingProviders(s: seq<Provider>) {
    forall i, j :: 0 <= i < j < |s| ==> !ProviderBelow(s[j], s[i])
  }

  lemma {:induction false} KeysAreOrdered(a: seq<nat>, b: seq<nat>, c: seq<nat>)
    requires KeyBelow(a, b)
    ensures !KeyBelow(b, a) && (KeyBelow(c, b) || KeyBelow(a, c))
  {
    if a != [] && a[0] == b[0] { KeysAreOrdered(a[1..], b[1..], if c == [] then [] else c[1..]); }
  }

  lemma ProvidersAreOrdered(p: Provider, q: Provider, r: Provider)
    requires ProviderBelow(p, q)
    ensures !ProviderBelow(q, p) && (ProviderBelow(r, q) || ProviderBelow(p, r))
  {
    KeysAreOrdered(ProviderKey(p), ProviderKey(q), ProviderKey(r));
  }

  lemma {:induction false} InsertProviderPermutes(p: Provider, s: seq<Provider>)
    ensures multiset(InsertProvider(p, s)) == multiset(s) + multiset{p}
  {
    if s != [] {
      assert s == [s[0]] + s[1..];
      if ProviderBelow(s[0], p) { InsertProviderPermutes(p, s[1..]); }
    }
  }

  lemma {:induction false} InsertProviderAscends(p: Provider, s: seq<Provider>)
    requires AscendingProviders(s)
    ensures AscendingProviders(InsertProvider(p, s))
  {
    if s == [] {
    } else if ProviderBelow(s[0], p) {
      var rest := InsertProvider(p, s[1..]);
      InsertProviderAscends(p, s[1..]);
      InsertProviderPermutes(p, s[1..]);
      ProvidersAreOrdered(s[0], p, p);
      forall j | 0 <= j < |rest| ensures !ProviderBelow(rest[j], s[0]) {
        assert rest[j] in multiset(rest);
        assert rest[j] == p || rest[j] in s[1..];
      }
    } else {
      forall j | 0 <= j < |s| ensures !ProviderBelow(s[j], p) {
        if j > 0 && ProviderBelow(s[j], p) { ProvidersAreOrdered(s[j], p, s[0]); }
      }
    }
  }

  /** The providers named by an error are listed in the order of their fields, each as often as it offered. */
  lemma {:induction false} SortProvidersSorts(s: seq<Provider>)
    ensures AscendingProviders(SortProviders(s)) && multiset(SortProviders(s)) == multiset(s)
  {
    if s != [] {
      assert s == [s[0]] + s[1..];
      SortProvidersSorts(s[1..]);
      InsertProviderPermutes(s[0], SortProviders(s[1..]));
      InsertProviderAscends(s[0], SortProviders(s[1..]));
    }
  }

  lemma {:induction false} OffersOfFound(scope: ScopeIdentity, plugin: Id, offers: seq<Capability>, c: Id)
    ensures OffersOf(scope, plugin, offers, c) != [] <==> exists j :: 0 <= j < |offers| && offers[j].id == c
    ensures forall p :: p in OffersOf(scope, plugin, offers, c) ==> p.plugin == plugin && p.scope == scope
  {
    if offers != [] {
      var n := |offers| - 1;
      OffersOfFound(scope, plugin, offers[..n], c);
      forall j | 0 <= j < n ensures offers[..n][j].id == c <==> offers[j].id == c {}
    }
  }

  lemma {:induction false} OffersFound(scope: ScopeIdentity, ds: seq<Descriptor>, c: Id)
    ensures Offers(scope, ds, c) != [] <==> c in OfferedIds(ds)
    ensures forall p :: p in Offers(scope, ds, c) ==> p.plugin in Plugins(ds) && p.scope == scope
  {
    if ds != [] {
      var n := |ds| - 1;
      OffersFound(scope, ds[..n], c);
      OffersOfFound(scope, ds[n].id, ds[n].offers, c);
      assert c in OfferedIds(ds) <==> c in OfferedIds(ds[..n]) || exists j :: 0 <= j < |ds[n].offers| && ds[n].offers[j].id == c;
      assert Plugins(ds)[n] == ds[n].id;
      forall p | p in Plugins(ds[..n]) ensures p in Plugins(ds) {
        var k :| 0 <= k < n && Plugins(ds[..n])[k] == p;
        assert Plugins(ds)[k] == p;
      }
    }
  }

  function OwnProviders(scope: ScopeIdentity, ds: seq<Descriptor>): map<Id, Provider> {
    map c | c in OfferedIds(ds) :: OffersFound(scope, ds, c); Offers(scope, ds, c)[0]
  }

  function AskedBy(plugin: Id, capabilities: seq<Capability>, kind: RequirementKind): seq<Demand> {
    seq(|capabilities|, i requires 0 <= i < |capabilities| => Demand(plugin, capabilities[i], kind))
  }

  function DemandRank(x: Demand): Rank { Rank(x.capability.id.rank, if x.kind.Required? then 0 else 1) }

  /** The requirements of one plugin, by capability. */
  function DemandsOf(d: Descriptor): seq<Demand> {
    SortBy(DemandRank, AskedBy(d.id, d.required, Required) + AskedBy(d.id, d.optional, Optional))
  }

  function Demands(ds: seq<Descriptor>): seq<Demand> {
    if ds == [] then [] else Demands(ds[..|ds|-1]) + DemandsOf(ds[|ds|-1])
  }

  predicate IsBound(x: Demand, providers: map<Id, Provider>) { x.capability.id in providers }

  function BoundCount(xs: seq<Demand>, providers: map<Id, Provider>): nat {
    if xs == [] then 0 else BoundCount(xs[..|xs|-1], providers) + if IsBound(xs[|xs|-1], providers) then 1 else 0
  }

  /** `edges` requirements were bound before this one. */
  function DemandFault(x: Demand, providers: map<Id, Provider>, edges: nat): Option<Error> {
    if !IsBound(x, providers) then
      if x.kind.Required? then Some(MissingRequiredCapability(x.plugin, x.capability.id, x.capability.major)) else None
    else if providers[x.capability.id].major != x.capability.major then
      Some(IncompatibleCapabilityMajor(x.plugin, x.capability.id, x.capability.major, providers[x.capability.id]))
    else if edges + 1 > MAX_RESOLVED_EDGES then
      Some(LimitExceeded(ResolvedEdges, Some(x.plugin), edges + 1, MAX_RESOLVED_EDGES))
    else None
  }

  function FirstDemandFault(xs: seq<Demand>, providers: map<Id, Provider>): Option<Error> {
    if xs == [] then None
    else
      var n := |xs| - 1;
      match FirstDemandFault(xs[..n], providers)
      case Some(e) => Some(e)
      case None => DemandFault(xs[n], providers, BoundCount(xs[..n], providers))
  }

  function BindingOf(x: Demand, providers: map<Id, Provider>): Binding {
    Binding(x.capability, x.kind, if IsBound(x, providers) then Some(providers[x.capability.id]) else None)
  }

  function BindingsFor(xs: seq<Demand>, providers: map<Id, Provider>): seq<Binding> {
    seq(|xs|, i requires 0 <= i < |xs| => BindingOf(xs[i], providers))
  }

  function BindingTable(ds: seq<Descriptor>, providers: map<Id, Provider>): map<Id, seq<Binding>> {
    if ds == [] then map[]
    else
      var last := ds[|ds|-1];
      BindingTable(ds[..|ds|-1], providers)[last.id := BindingsFor(DemandsOf(last), providers)]
  }

  function Absences(xs: seq<Demand>, providers: map<Id, Provider>): seq<OptionalAbsent> {
    if xs == [] then []
    else
      var last := xs[|xs|-1];
      Absences(xs[..|xs|-1], providers) +
        if IsBound(last, providers) then [] else [OptionalAbsent(last.plugin, last.capability.id)]
  }

  /** The demand is met by plugin `p` of this same scope. */
  predicate MetBy(x: Demand, providers: map<Id, Provider>, scope: ScopeIdentity, p: Id) {
    IsBound(x, providers) && providers[x.capability.id].scope == scope && providers[x.capability.id].plugin == p
  }

  function Consumers(xs: seq<Demand>, providers: map<Id, Provider>, scope: ScopeIdentity, p: Id): set<Id> {
    set i | 0 <= i < |xs| && MetBy(xs[i], providers, scope, p) :: xs[i].plugin
  }

  /** The stable adjacency: an edge from each provider to each consumer in the same scope. */
  function Dependencies(plugins: set<Id>, xs: seq<Demand>, providers: map<Id, Provider>, scope: ScopeIdentity): Graphs.Adjacency {
    map p | p in plugins :: Consumers(xs, providers, scope, p)
  }

  function Inherited(parent: Option<Plan>): map<Id, Provider> { if parent.Some? then parent.value.providers else map[] }

  function ParentScope(parent: Option<Plan>): Option<ScopeIdentity> { if parent.Some? then Some(parent.value.scope) else None }

  /** Everything up to the activation order, or the first error. */
  function Bind(policy: Policy, scope: ScopeIdentity, parent: Option<Plan>, given: seq<Descriptor>): Result<Bound, Error> {
    match ValidateIdentity(policy, scope, ParentScope(parent))
    case Some(e) => Err(e)
    case None =>
      if |given| > MAX_PLUGINS_PER_SCOPE then Err(LimitExceeded(PluginsPerScope, None, |given|, MAX_PLUGINS_PER_SCOPE))
      else
        var ds := Canonical(given);
        match FirstRepeat(Plugins(ds))
        case Some(p) => Err(DuplicatePlugin(p))
        case None =>
          match FirstFault(ds, scope.kind)
          case Some(e) => Err(e)
          case None => BindCanonical(scope, Inherited(parent), ds)
  }

  function BindCanonical(scope: ScopeIdentity, inherited: map<Id, Provider>, ds: seq<Descriptor>): Result<Bound, Error> {
    var clashes := Clashes(scope, inherited, ds);
    if clashes != {} then Err(ClashError(scope, inherited, ds, Least(clashes)))
    else
      var providers := inherited + OwnProviders(scope, ds);
      match FirstDemandFault(Demands(ds), providers)
      case Some(e) => Err(e)
      case None =>
        Ok(Bound(BindingTable(ds, providers), providers, Absences(Demands(ds), providers),
          Dependencies(Elems(Plugins(ds)), Demands(ds), providers, scope)))
  }

  // ---------------------------------------------------------------- the loops

  method FindFault(ds: seq<Descriptor>, kind: Id) returns (fault: Option<Error>)
    ensures fault == FirstFault(ds, kind)
  {
    for i := 0 to |ds|
      invariant FirstFault(ds, kind) == FirstFault(ds[i..], kind)
    {
      fault := DescriptorFault(ds[i], kind);
      if fault.Some? {
        return;
      }
      assert ds[i..][1..] == ds[i+1..];
    }
    return None;
  }

  /** `or_default`: what is listed under a key, if anything. */
  function Held(current: map<Id, seq<Provider>>, c: Id): seq<Provider> { if c in current then current[c] else [] }

  function Push(current: map<Id, seq<Provider>>, c: Id, p: Provider): (next: map<Id, seq<Provider>>)
    ensures forall x :: Held(next, x) == Held(current, x) + if x == c then [p] else []
  {
    current[c := Held(current, c) + [p]]
  }

  ghost predicate NoneEmpty(current: map<Id, seq<Provider>>) { forall c :: c in current ==> current[c] != [] }

  /** The declarations seen so far, added to what was collected before. */
  ghost predicate Added(before: map<Id, seq<Provider>>, current: map<Id, seq<Provider>>, scope: ScopeIdentity, plugin: Id,
    offers: seq<Capability>)
  {
    && NoneEmpty(current)
    && forall c {:trigger Held(current, c)} :: Held(current, c) == Held(before, c) + OffersOf(scope, plugin, offers, c)
  }

  lemma OneMoreAdded(before: map<Id, seq<Provider>>, current: map<Id, seq<Provider>>, scope: ScopeIdentity, plugin: Id,
    offers: seq<Capability>, last: Capability)
    requires Added(before, current, scope, plugin, offers)
    ensures Added(before, Push(current, last.id, Provider(plugin, scope, last.major)), scope, plugin, offers + [last])
  {
    var p := Provider(plugin, scope, last.major);
    var next := Push(current, last.id, p);
    PushedNoneEmpty(current, last.id, p);
    forall c ensures Held(next, c) == Held(before, c) + OffersOf(scope, plugin, offers + [last], c) {
      OffersOfExtended(scope, plugin, offers, last, c);
      assert Held(current, c) == Held(before, c) + OffersOf(scope, plugin, offers, c);
      Regroup(Held(before, c), OffersOf(scope, plugin, offers, c), if last.id == c then [p] else []);
    }
  }

  lemma PushedNoneEmpty(current: map<Id, seq<Provider>>, c: Id, p: Provider)
    requires NoneEmpty(current)
    ensures NoneEmpty(Push(current, c, p))
  {
    forall x | x in Push(current, c, p) ensures Push(current, c, p)[x] != [] {
      assert Push(current, c, p)[x] == Held(Push(current, c, p), x);
    }
  }

  lemma Regroup<T>(a: seq<T>, b: seq<T>, c: seq<T>)
    ensures (a + b) + c == a + (b + c)
  {
  }

  lemma OffersOfExtended(scope: ScopeIdentity, plugin: Id, offers: seq<Capability>, last: Capability, c: Id)
    ensures OffersOf(scope, plugin, offers + [last], c) ==
      OffersOf(scope, plugin, offers, c) + if last.id == c then [Provider(plugin, scope, last.major)] else []
  {
    assert (offers + [last])[..|offers|] == offers;
  }

  /** One plugin's declarations, added to what was collected before. */
  method AddOffers(scope: ScopeIdentity, d: Descriptor, before: map<Id, seq<Provider>>) returns (current: map<Id, seq<Provider>>)
    requires NoneEmpty(before)
    ensures Added(before, current, scope, d.id, d.offers)
  {
    current := before;
    for j := 0 to |d.offers|
      invariant Added(before, current, scope, d.id, d.offers[..j])
    {
      var declaration := d.offers[j];
      OneMoreAdded(before, current, scope, d.id, d.offers[..j], declaration);
      assert d.offers[..j+1] == d.offers[..j] + [declaration];
      current := Push(current, declaration.id, Provider(d.id, scope, declaration.major));
    }
    assert d.offers[..|d.offers|] == d.offers;
  }

  /** The providers of this scope, by capability. */
  ghost predicate Collected(current: map<Id, seq<Provider>>, scope: ScopeIdentity, ds: seq<Descriptor>) {
    NoneEmpty(current) && forall c :: Held(current, c) == Offers(scope, ds, c)
  }

  method CollectOffers(scope: ScopeIdentity, ds: seq<Descriptor>) returns (current: map<Id, seq<Provider>>)
    ensures Collected(current, scope, ds)
  {
    current := map[];
    for i := 0 to |ds|
      invariant Collected(current, scope, ds[..i])
    {
      assert ds[..i+1][..i] == ds[..i];
      current := AddOffers(scope, ds[i], current);
    }
    assert ds[..|ds|] == ds;
  }

  /** The first capability, in order, that is listed twice or inherited. */
  method ScanClashes(inherited: map<Id, Provider>, current: map<Id, seq<Provider>>, capabilities: seq<Id>) returns (at: nat)
    requires forall c :: c in capabilities ==> c in current
    ensures at <= |capabilities|
    ensures forall j :: 0 <= j < at ==> !Suspect(inherited, current, capabilities[j])
    ensures at < |capabilities| ==> Suspect(inherited, current, capabilities[at])
  {
    at := 0;
    while at < |capabilities|
      invariant at <= |capabilities|
      invariant forall j :: 0 <= j < at ==> !Suspect(inherited, current, capabilities[j])
    {
      if Suspect(inherited, current, capabilities[at]) {
        return;
      }
      at := at + 1;
    }
  }

  predicate Suspect(inherited: map<Id, Provider>, current: map<Id, seq<Provider>>, c: Id) {
    |Held(current, c)| > 1 || c in inherited
  }

  method FindClash(inherited: map<Id, Provider>, current: map<Id, seq<Provider>>) returns (clash: Option<Error>)
    ensures clash.None? <==> Suspects(inherited, current) == {}
    ensures clash.Some? ==> clash.value == SuspectError(inherited, current, Least(Suspects(inherited, current)))
  {
    var capabilities := Ascending(current.Keys);
    var at := ScanClashes(inherited, current, capabilities);
    if at == |capabilities| {
      forall c | c in current ensures !Suspect(inherited, current, c) { assert c in capabilities; }
      return None;
    }
    FirstListedIsLeast(capabilities, Suspects(inherited, current), at);
    return Some(SuspectError(inherited, current, capabilities[at]));
  }

  function Suspects(inherited: map<Id, Provider>, current: map<Id, seq<Provider>>): set<Id> {
    set c | c in current && Suspect(inherited, current, c)
  }

  function SuspectError(inherited: map<Id, Provider>, current: map<Id, seq<Provider>>, c: Id): Error {
    DuplicateProvider(c, SortProviders(Rivals(inherited, c, Held(current, c))))
  }

  lemma SuspectsAreClashes(scope: ScopeIdentity, inherited: map<Id, Provider>, ds: seq<Descriptor>, current: map<Id, seq<Provider>>)
    requires Collected(current, scope, ds)
    ensures Suspects(inherited, current) == Clashes(scope, inherited, ds)
    ensures forall c :: SuspectError(inherited, current, c) == ClashError(scope, inherited, ds, c)
  {
    forall c ensures c in Clashes(scope, inherited, ds) <==> c in Suspects(inherited, current) {
      OffersFound(scope, ds, c);
      assert Held(current, c) == Offers(scope, ds, c);
    }
  }

  lemma FirstListedIsLeast(listed: seq<Id>, s: set<Id>, i: nat)
    requires StrictlyAscending(listed) && i < |listed| && listed[i] in s
    requires forall x :: x in s ==> x in listed
    requires forall j :: 0 <= j < i ==> listed[j] !in s
    ensures s != {} && Least(s) == listed[i]
  {
    var j :| 0 <= j < |listed| && listed[j] == Least(s);
  }

  /** The providers of the capabilities in `seen` have been inserted. */
  ghost predicate Inserted(inherited: map<Id, Provider>, current: map<Id, seq<Provider>>, seen: set<Id>, providers: map<Id, Provider>) {
    && NoneEmpty(current) && seen <= current.Keys && providers.Keys == inherited.Keys + seen
    && (forall c :: c in seen ==> providers[c] == current[c][0])
    && (forall c :: c in inherited && c !in seen ==> providers[c] == inherited[c])
  }

  lemma OneMoreInserted(inherited: map<Id, Provider>, current: map<Id, seq<Provider>>, seen: set<Id>, providers: map<Id, Provider>, c: Id)
    requires Inserted(inherited, current, seen, providers) && c in current
    ensures Inserted(inherited, current, seen + {c}, providers[c := current[c][0]])
  {
  }

  method InsertProviders(inherited: map<Id, Provider>, current: map<Id, seq<Provider>>) returns (providers: map<Id, Provider>)
    requires NoneEmpty(current)
    ensures Inserted(inherited, current, current.Keys, providers)
  {
    providers := inherited;
    var pending := current.Keys;
    while pending != {}
      invariant pending <= current.Keys && Inserted(inherited, current, current.Keys - pending, providers)
      decreases pending
    {
      var c := Least(pending);
      OneMoreInserted(inherited, current, current.Keys - pending, providers, c);
      providers := providers[c := current[c][0]];
      assert current.Keys - (pending - {c}) == current.Keys - pending + {c};
      pending := pending - {c};
    }
    assert current.Keys - {} == current.Keys;
  }

  lemma OwnAt(scope: ScopeIdentity, ds: seq<Descriptor>, current: map<Id, seq<Provider>>, c: Id)
    requires Collected(current, scope, ds)
    ensures c in OwnProviders(scope, ds) <==> c in current
    ensures c in current ==> OwnProviders(scope, ds)[c] == current[c][0]
  {
    OffersFound(scope, ds, c);
    assert Held(current, c) == Offers(scope, ds, c);
  }

  lemma MergedProviders(scope: ScopeIdentity, ds: seq<Descriptor>, current: map<Id, seq<Provider>>,
    inherited: map<Id, Provider>, providers: map<Id, Provider>)
    requires Collected(current, scope, ds)
    requires Inserted(inherited, current, current.Keys, providers)
    ensures providers == inherited + OwnProviders(scope, ds)
  {
    var merged := inherited + OwnProviders(scope, ds);
    forall c ensures (c in providers <==> c in merged) && (c in merged ==> providers[c] == merged[c]) {
      OwnAt(scope, ds, current, c);
    }
  }

  /** What binding has produced so far. */
  ghost predicate BoundSoFar(xs: seq<Demand>, plugins: set<Id>, providers: map<Id, Provider>, scope: ScopeIdentity,
    edges: nat, absences: seq<OptionalAbsent>, graph: Graphs.Adjacency)
  {
    && FirstDemandFault(xs, providers).None? && edges == BoundCount(xs, providers)
    && absences == Absences(xs, providers) && graph == Dependencies(plugins, xs, providers, scope)
  }

  /** A provider from this scope is one of this scope's plugins, so the node lookup cannot fail. */
  ghost predicate LocalProvidersListed(plugins: set<Id>, providers: map<Id, Provider>, scope: ScopeIdentity) {
    forall c :: c in providers && providers[c].scope == scope ==> providers[c].plugin in plugins
  }

  method BindDemand(x: Demand, plugins: set<Id>, providers: map<Id, Provider>, scope: ScopeIdentity,
    edges: nat, absences: seq<OptionalAbsent>, graph: Graphs.Adjacency, ghost xs: seq<Demand>)
    returns (fault: Option<Error>, binding: Binding, edges': nat, absences': seq<OptionalAbsent>, graph': Graphs.Adjacency)
    requires BoundSoFar(xs, plugins, providers, scope, edges, absences, graph)
    requires LocalProvidersListed(plugins, providers, scope)
    ensures fault == FirstDemandFault(xs + [x], providers)
    ensures fault.None? ==> binding == BindingOf(x, providers)
    ensures fault.None? ==> BoundSoFar(xs + [x], plugins, providers, scope, edges', absences', graph')
  {
    assert (xs + [x])[..|xs|] == xs;
    edges', absences', graph' := edges, absences, graph;
    binding := Binding(x.capability, x.kind, None);
    fault := None;
    if x.capability.id !in providers {
      if x.kind.Required? {
        fault := Some(MissingRequiredCapability(x.plugin, x.capability.id, x.capability.major));
        return;
      }
      absences' := absences + [OptionalAbsent(x.plugin, x.capability.id)];
      DependenciesExtended(plugins, xs, x, providers, scope);
      return;
    }
    var provider := providers[x.capability.id];
    if provider.major != x.capability.major {
      fault := Some(IncompatibleCapabilityMajor(x.plugin, x.capability.id, x.capability.major, provider));
      return;
    }
    edges' := edges + 1;
    if edges' > MAX_RESOLVED_EDGES {
      fault := Some(LimitExceeded(ResolvedEdges, Some(x.plugin), edges', MAX_RESOLVED_EDGES));
      return;
    }
    if provider.scope == scope {
      assert provider.plugin in graph;
      graph' := Linked(graph, provider.plugin, x.plugin);
    }
    binding := Binding(x.capability, x.kind, Some(provider));
    DependenciesExtended(plugins, xs, x, providers, scope);
  }

  ghost predicate ExtendedBy(xs: seq<Demand>, x: Demand, providers: map<Id, Provider>, scope: ScopeIdentity, p: Id) {
    var added := if MetBy(x, providers, scope, p) then {x.plugin} else {};
    Consumers(xs + [x], providers, scope, p) == Consumers(xs, providers, scope, p) + added
  }

  lemma ConsumersExtended(plugins: set<Id>, xs: seq<Demand>, x: Demand, providers: map<Id, Provider>, scope: ScopeIdentity)
    ensures forall p :: ExtendedBy(xs, x, providers, scope, p)
  {
    forall p ensures ExtendedBy(xs, x, providers, scope, p) {
      var next := xs + [x];
      forall q | q in Consumers(xs, providers, scope, p) ensures q in Consumers(next, providers, scope, p) {
        var i :| 0 <= i < |xs| && MetBy(xs[i], providers, scope, p) && xs[i].plugin == q;
        assert next[i] == xs[i];
      }
      if MetBy(x, providers, scope, p) { assert next[|xs|] == x; }
    }
  }

  /** The next edge goes into the graph when the provider is a plugin of this scope. */
  lemma DependenciesExtended(plugins: set<Id>, xs: seq<Demand>, x: Demand, providers: map<Id, Provider>, scope: ScopeIdentity)
    requires LocalProvidersListed(plugins, providers, scope)
    ensures var graph, next := Dependencies(plugins, xs, providers, scope), Dependencies(plugins, xs + [x], providers, scope);
      if IsBound(x, providers) && providers[x.capability.id].scope == scope
      then next == Linked(graph, providers[x.capability.id].plugin, x.plugin)
      else next == graph
  {
    ConsumersExtended(plugins, xs, x, providers, scope);
    var graph, next := Dependencies(plugins, xs, providers, scope), Dependencies(plugins, xs + [x], providers, scope);
    forall p | p in plugins ensures next[p] == graph[p] + if MetBy(x, providers, scope, p) then {x.plugin} else {} {
      assert ExtendedBy(xs, x, providers, scope, p);
    }
    if IsBound(x, providers) && providers[x.capability.id].scope == scope {
      var linked := Linked(graph, providers[x.capability.id].plugin, x.plugin);
      assert next.Keys == linked.Keys && forall p :: p in next ==> next[p] == linked[p];
    } else {
      assert next.Keys == graph.Keys && forall p :: p in next ==> next[p] == graph[p];
    }
  }

  /** One more edge. */
  function Linked(graph: Graphs.Adjacency, source: Id, target: Id): Graphs.Adjacency
    requires source in graph
  {
    graph[source := graph[source] + {target}]
  }

  /** The requirements of one plugin. */
  method BindPlugin(d: Descriptor, plugins: set<Id>, providers: map<Id, Provider>, scope: ScopeIdentity,
    edges: nat, absences: seq<OptionalAbsent>, graph: Graphs.Adjacency, ghost xs: seq<Demand>)
    returns (fault: Option<Error>, bindings: seq<Binding>, edges': nat, absences': seq<OptionalAbsent>, graph': Graphs.Adjacency)
    requires BoundSoFar(xs, plugins, providers, scope, edges, absences, graph)
    requires LocalProvidersListed(plugins, providers, scope)
    ensures fault == FirstDemandFault(xs + DemandsOf(d), providers)
    ensures fault.None? ==> bindings == BindingsFor(DemandsOf(d), providers)
    ensures fault.None? ==> BoundSoFar(xs + DemandsOf(d), plugins, providers, scope, edges', absences', graph')
  {
    var demands := DemandsOf(d);
    fault, bindings, edges', absences', graph' := None, [], edges, absences, graph;
    assert xs + demands[..0] == xs;
    for k := 0 to |demands|
      invariant BoundSoFar(xs + demands[..k], plugins, providers, scope, edges', absences', graph')
      invariant bindings == BindingsFor(demands[..k], providers) && fault.None?
    {
      assert xs + demands[..k+1] == xs + demands[..k] + [demands[k]];
      var binding;
      fault, binding, edges', absences', graph' :=
        BindDemand(demands[k], plugins, providers, scope, edges', absences', graph', xs + demands[..k]);
      if fault.Some? {
        FaultPersists(xs + demands[..k+1], demands[k+1..], providers);
        assert xs + demands[..k+1] + demands[k+1..] == xs + demands;
        return;
      }
      bindings := bindings + [binding];
    }
    assert demands[..|demands|] == demands;
  }

  lemma {:induction false} FaultPersists(xs: seq<Demand>, more: seq<Demand>, providers: map<Id, Provider>)
    requires FirstDemandFault(xs, providers).Some?
    ensures FirstDemandFault(xs + more, providers) == FirstDemandFault(xs, providers)
  {
    if more == [] {
      assert xs + more == xs;
    } else {
      FaultPersists(xs, more[..|more|-1], providers);
      assert (xs + more)[..|xs + more|-1] == xs + more[..|more|-1];
    }
  }

  method BindAll(ds: seq<Descriptor>, providers: map<Id, Provider>, scope: ScopeIdentity)
    returns (fault: Option<Error>, bindings: map<Id, seq<Binding>>, absences: seq<OptionalAbsent>, graph: Graphs.Adjacency)
    requires LocalProvidersListed(Elems(Plugins(ds)), providers, scope)
    ensures fault == FirstDemandFault(Demands(ds), providers)
    ensures fault.None? ==>
      && bindings == BindingTable(ds, providers) && absences == Absences(Demands(ds), providers)
      && graph == Dependencies(Elems(Plugins(ds)), Demands(ds), providers, scope)
  {
    var plugins := Elems(Plugins(ds));
    graph := map p | p in plugins :: {};
    fault, bindings, absences := None, map[], [];
    var edges := 0;
    NothingBoundYet(plugins, providers, scope);
    for i := 0 to |ds|
      invariant BoundSoFar(Demands(ds[..i]), plugins, providers, scope, edges, absences, graph)
      invariant fault.None? && bindings == BindingTable(ds[..i], providers)
    {
      assert ds[..i+1][..i] == ds[..i];
      var own;
      fault, own, edges, absences, graph :=
        BindPlugin(ds[i], plugins, providers, scope, edges, absences, graph, Demands(ds[..i]));
      if fault.Some? {
        FaultOfPrefix(ds, i + 1, providers);
        return;
      }
      bindings := bindings[ds[i].id := own];
    }
    assert ds[..|ds|] == ds;
  }

  lemma NothingBoundYet(plugins: set<Id>, providers: map<Id, Provider>, scope: ScopeIdentity)
    ensures BoundSoFar([], plugins, providers, scope, 0, [], map p | p in plugins :: {})
  {
    assert forall p :: Consumers([], providers, scope, p) == {};
  }

  lemma FaultOfPrefix(ds: seq<Descriptor>, i: nat, providers: map<Id, Provider>)
    requires i <= |ds| && FirstDemandFault(Demands(ds[..i]), providers).Some?
    ensures FirstDemandFault(Demands(ds), providers) == FirstDemandFault(Demands(ds[..i]), providers)
  {
    DemandsSplit(ds, i);
    var rest := Demands(ds)[|Demands(ds[..i])|..];
    assert Demands(ds[..i]) + rest == Demands(ds);
    FaultPersists(Demands(ds[..i]), rest, providers);
  }

  lemma {:induction false} DemandsSplit(ds: seq<Descriptor>, i: nat)
    requires i <= |ds|
    ensures Demands(ds[..i]) <= Demands(ds)
  {
    if i < |ds| {
      assert ds[..|ds|-1][..i] == ds[..i];
      DemandsSplit(ds[..|ds|-1], i);
    } else {
      assert ds[..i] == ds;
    }
  }

  // ---------------------------------------------------------------- plans

  /** Providers of a plan sit in its scope or above it. */
  ghost predicate Established(policy: Policy, plan: Plan)
    requires Accepted(policy)
  {
    && plan.scope.kind in policy
    && forall c :: c in plan.providers ==>
         plan.providers[c].scope.kind in policy && Depth(policy, plan.providers[c].scope.kind) <= Depth(policy, plan.scope.kind)
  }

  /** Inherited providers sit strictly above this scope, so only its own plugins are looked up in the graph. */
  lemma LookupsSucceed(policy: Policy, scope: ScopeIdentity, parent: Option<Plan>, ds: seq<Descriptor>)
    requires Accepted(policy) && (parent.Some? ==> Established(policy, parent.value))
    requires ValidateIdentity(policy, scope, ParentScope(parent)).None?
    ensures LocalProvidersListed(Elems(Plugins(ds)), Inherited(parent) + OwnProviders(scope, ds), scope)
    ensures forall c :: c in Inherited(parent) ==> Inherited(parent)[c].scope != scope
    ensures forall c :: c in Inherited(parent) ==>
      Inherited(parent)[c].scope.kind in policy && Depth(policy, Inherited(parent)[c].scope.kind) < Depth(policy, scope.kind)
    ensures scope.kind in policy
  {
    ValidIdentitySitsBelowParent(policy, scope, ParentScope(parent));
    forall c | c in OwnProviders(scope, ds) ensures OwnProviders(scope, ds)[c].plugin in Plugins(ds) {
      OffersFound(scope, ds, c);
    }
  }

  /** The outcome of a resolution. */
  ghost predicate ResolvesTo(policy: Policy, scope: ScopeIdentity, parent: Option<Plan>, given: seq<Descriptor>, result: Result<Plan, Error>) {
    match Bind(policy, scope, parent, given)
    case Err(e) => result == Err(e)
    case Ok(b) =>
      if Graphs.Acyclic(b.graph) then
        && result.Ok? && result.value == Plan(scope, result.value.order, b.bindings, b.providers, b.diagnostics)
        && KahnOrder.MinFirst(b.graph, result.value.order) && Graphs.TopologicalOrder(b.graph, result.value.order)
      else
        && result.Err? && result.error.DependencyCycle?
        && CycleSearch.LexLeastCycle(b.graph, result.error.path) && CycleSearch.LeastOnAnyCycle(b.graph, result.error.path[0])
  }

  ghost predicate Kosaraju(components: Graphs.Adjacency -> seq<set<Id>>) {
    forall adj :: Graphs.TargetsAreNodes(adj) ==> CycleSearch.AreComponents(adj, components(adj))
  }

  method Prepare(policy: Policy, scope: ScopeIdentity, parent: Option<Plan>, given: seq<Descriptor>)
    returns (result: Result<Bound, Error>)
    requires Accepted(policy) && (parent.Some? ==> Established(policy, parent.value))
    ensures result == Bind(policy, scope, parent, given)
  {
    var invalid := ValidateIdentity(policy, scope, ParentScope(parent));
    if invalid.Some? {
      return Err(invalid.value);
    }
    if |given| > MAX_PLUGINS_PER_SCOPE {
      return Err(LimitExceeded(PluginsPerScope, None, |given|, MAX_PLUGINS_PER_SCOPE));
    }
    var ds := Canonical(given);
    var repeated := FirstRepeat(Plugins(ds));
    if repeated.Some? {
      return Err(DuplicatePlugin(repeated.value));
    }
    var fault := FindFault(ds, scope.kind);
    if fault.Some? {
      return Err(fault.value);
    }
    LookupsSucceed(policy, scope, parent, ds);
    result := BindSorted(scope, Inherited(parent), ds);
  }

  /** A binding that succeeded went through every check. */
  lemma BindSucceeded(policy: Policy, scope: ScopeIdentity, parent: Option<Plan>, given: seq<Descriptor>)
    requires Bind(policy, scope, parent, given).Ok?
    ensures ValidateIdentity(policy, scope, ParentScope(parent)).None? && |given| <= MAX_PLUGINS_PER_SCOPE
    ensures FirstRepeat(Plugins(Canonical(given))).None? && FirstFault(Canonical(given), scope.kind).None?
    ensures Clashes(scope, Inherited(parent), Canonical(given)) == {}
    ensures var b := Bind(policy, scope, parent, given).value; var ds := Canonical(given);
      && b.providers == Inherited(parent) + OwnProviders(scope, ds) && FirstDemandFault(Demands(ds), b.providers).None?
      && b.bindings == BindingTable(ds, b.providers)
      && b.graph == Dependencies(Elems(Plugins(ds)), Demands(ds), b.providers, scope)
  {
  }

  /** What a plan is made of. */
  lemma ResolvedPlan(policy: Policy, scope: ScopeIdentity, parent: Option<Plan>, given: seq<Descriptor>, plan: Plan)
    requires ResolvesTo(policy, scope, parent, given, Ok(plan))
    ensures Bind(policy, scope, parent, given).Ok?
    ensures var b := Bind(policy, scope, parent, given).value;
      plan == Plan(scope, plan.order, b.bindings, b.providers, b.diagnostics) && Graphs.TopologicalOrder(b.graph, plan.order)
  {
  }

  /** A plan's providers are its parent's and its own, so they sit in its scope or above. */
  lemma StaysEstablished(policy: Policy, scope: ScopeIdentity, parent: Option<Plan>, given: seq<Descriptor>, order: seq<Id>)
    requires Accepted(policy) && (parent.Some? ==> Established(policy, parent.value))
    requires Bind(policy, scope, parent, given).Ok?
    ensures var b := Bind(policy, scope, parent, given).value;
      Established(policy, Plan(scope, order, b.bindings, b.providers, b.diagnostics))
  {
    BindSucceeded(policy, scope, parent, given);
    var ds := Canonical(given);
    LookupsSucceed(policy, scope, parent, ds);
    forall c | c in OwnProviders(scope, ds) ensures OwnProviders(scope, ds)[c].scope == scope {
      OffersFound(scope, ds, c);
    }
  }

  method ResolveActivationPlan(policy: Policy, scope: ScopeIdentity, parent: Option<Plan>, given: seq<Descriptor>,
    kosaraju: Graphs.Adjacency -> seq<set<Id>>)
    returns (result: Result<Plan, Error>)
    requires Accepted(policy) && (parent.Some? ==> Established(policy, parent.value)) && Kosaraju(kosaraju)
    ensures ResolvesTo(policy, scope, parent, given, result)
    ensures result.Ok? ==> Established(policy, result.value)
  {
    var bound := Prepare(policy, scope, parent, given);
    if bound.Err? {
      return Err(bound.error);
    }
    var b := bound.value;
    BindSucceeded(policy, scope, parent, given);
    TargetsAreConsumers(scope, Canonical(given), b);
    var cycle := CycleSearch.CanonicalCycle(b.graph, kosaraju(b.graph));
    if cycle.Some? {
      return Err(DependencyCycle(cycle.value));
    }
    var order := KahnOrder.StableKahnOrder(b.graph);
    StaysEstablished(policy, scope, parent, given, order);
    return Ok(Plan(scope, order, b.bindings, b.providers, b.diagnostics));
  }

  method BindSorted(scope: ScopeIdentity, inherited: map<Id, Provider>, ds: seq<Descriptor>) returns (result: Result<Bound, Error>)
    requires LocalProvidersListed(Elems(Plugins(ds)), inherited + OwnProviders(scope, ds), scope)
    ensures result == BindCanonical(scope, inherited, ds)
  {
    var current := CollectOffers(scope, ds);
    var clash := FindClash(inherited, current);
    SuspectsAreClashes(scope, inherited, ds, current);
    if clash.Some? {
      return Err(clash.value);
    }
    var providers := InsertProviders(inherited, current);
    MergedProviders(scope, ds, current, inherited, providers);
    var fault, bindings, absences, graph := BindAll(ds, providers, scope);
    if fault.Some? {
      return Err(fault.value);
    }
    return Ok(Bound(bindings, providers, absences, graph));
  }

  lemma TargetsAreConsumers(scope: ScopeIdentity, ds: seq<Descriptor>, b: Bound)
    requires b.graph == Dependencies(Elems(Plugins(ds)), Demands(ds), b.providers, scope)
    ensures Graphs.TargetsAreNodes(b.graph)
  {
    forall x | x in Demands(ds) ensures x.plugin in Elems(Plugins(ds)) {
      DemandsArePluginsDemands(ds, x);
    }
  }

  lemma {:induction false} DemandsArePluginsDemands(ds: seq<Descriptor>, x: Demand)
    requires x in Demands(ds)
    ensures x.plugin in Plugins(ds) && exists d :: d in ds && x in DemandsOf(d)
  {
    var n := |ds| - 1;
    if x in DemandsOf(ds[n]) {
      DemandsNameTheirPlugin(ds[n], x);
      assert Plugins(ds)[n] == x.plugin && ds[n] in ds;
    } else {
      DemandsArePluginsDemands(ds[..n], x);
      var i :| 0 <= i < n && Plugins(ds[..n])[i] == x.plugin;
      assert Plugins(ds)[i] == x.plugin;
      var d :| d in ds[..n] && x in DemandsOf(d);
      assert d in ds;
    }
  }

  /** A plugin's demands are its requirements, each once. */
  lemma DemandsNameTheirPlugin(d: Descriptor, x: Demand)
    ensures x in DemandsOf(d) <==>
      x.plugin == d.id && (if x.kind.Required? then x.capability in d.required else x.capability in d.optional)
  {
    var asked := AskedBy(d.id, d.required, Required) + AskedBy(d.id, d.optional, Optional);
    SortBySorts(DemandRank, asked);
    assert x in DemandsOf(d) <==> x in multiset(asked);
    AskedByNames(d.id, d.required, Required, x);
    AskedByNames(d.id, d.optional, Optional, x);
  }

  lemma AskedByNames(plugin: Id, asked: seq<Capability>, kind: RequirementKind, x: Demand)
    ensures x in AskedBy(plugin, asked, kind) <==> x.plugin == plugin && x.kind == kind && x.capability in asked
  {
    if x.plugin == plugin && x.kind == kind && x.capability in asked {
      var i :| 0 <= i < |asked| && asked[i] == x.capability;
      assert AskedBy(plugin, asked, kind)[i] == x;
    }
  }
}
