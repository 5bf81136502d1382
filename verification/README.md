# Verified model of the Rho extension runtime

Rho runs plugins inside scopes: an application scope, a project below it and a workspace below that. This project models
the part of the runtime that decides which plugins run, in which order, with which rights, and how they are taken down
again, and proves what those decisions promise. The sources are `crates/rho-extension-runtime` and the fetch engine of
`crates/rho-server`.

`dafny verify dfyconfig.toml` checks everything. The modules follow the source files.

| modules | source | main results |
|---|---|---|
| `Graphs`, `KahnOrder`, `CycleSearch` | `resolver.rs` | the activation order is the least topological order; the reported cycle is the canonical one |
| `Ordering`, `Model`, `Resolver`, `Plans`, `Resolvable` | `resolver.rs`, `model.rs` | exactly which scopes resolve, and what each error means; one outcome for every order of the input; what bindings mean down a chain of scopes |
| `LeaseProtocol` | `lifecycle.rs` | leases, activation and disposal in every interleaving |
| `Effects`, `Scopes`, `Activation`, `Publication` | `lifecycle.rs` | disposal of scope trees, transactional activation, all-or-nothing publication |
| `Glob`, `Hosts`, `Grants`, `GrantHistory`, `GrantLaws` | `grant.rs` | the matchers mean what their patterns say; over any run, exactly which calls are admitted, told by the requests |
| `Utf8`, `WasmHost`, `Session` | `wasm_host.rs`, `contribution_call.rs` | an arbitrary guest stays within its budgets; one outcome for each call |
| `Contributions` | `contribution.rs` | publication refines a one-shot replacement |
| `JsonSchema` | `json_schema.rs` | validation is the closed-object meaning of an accepted schema, and what its text allows |
| `Fetch` | `plugin_network.rs` | every send is allowed, public and authorised twice, and follows the redirect before it |
| `PluginLifecycle`, `PluginManager` | `instance.rs` | the manager refines a state machine whose runs are coherent with their audit history |

Objects that the source updates in place are classes, proved against state functions or predicates; loops are loops.
Three parts are also state machines over runs: the atomics of a scope (`LeaseProtocol`), the grant store (`GrantHistory`)
and the plugin manager (`PluginLifecycle`). For the last two the class methods are proved to take exactly the steps of the machine.

## Assumptions

- Identifiers are known by their rank in the derived total order of their strings (`Basics.Id`); digests, tokens and host
  ids are such identifiers, so they are injective.
- Atomics are sequentially consistent. The code uses acquire and release.
- What time and the disposers do to a disposal is an input of it, fixed from the start (`Effects.World`): the answer to each
  reading of a deadline, the events of each wait and the result of each disposer. A deadline that has passed stays passed.
  A dispose future that has been polled runs to completion: the scope deadline can keep a child or an effect from being
  started, and a time-out of a disposer is its failed result.
- Operations of the scope manager are sequential, because each holds the publication gate throughout. `Scopes` and
  `Publication` also take activation and disposal of one scope to be sequential; `LeaseProtocol` has every interleaving of
  them, and says when that is right.
- A published candidate is a fresh scope without children, separate from what is published. Only the manager disposes of
  published scopes.
- `kosaraju_scc` is a function parameter constrained to return the classes of mutually reachable vertices.
- The clock of a run of the grant store does not go back. Elsewhere each reading of the clock is a parameter.
- The guest, the resolver, the transport and the authoriser are arbitrary: each answer is a nondeterministic value.
  How a Location is joined to a URL, and which step the bytes of a guest decode to, are function parameters.
- JSON values are those that satisfy `JsonSchema.IsJson`: one word for each string, no name twice in an object. The results
  about schemas hold for all values of the datatype, and so for these.
- `**/x` follows the code: it accepts a value some suffix of which `x` accepts, not only at a component boundary.

## What the code does that a reader might not expect

- `ScopeSlot::from_active` activates without the disposal gate. A disposal can overtake it between the exchange of the state
  and the opening of routing; then a Disposed scope routes and grants leases (`LeaseProtocol.DisposedCanRoute`). It cannot
  exactly when no activator stands there at the moment the disposer closes routing (`LeaseProtocol.CloseIsFinalExactly`). A
  caller has that when `from_active` has returned before the snapshot is shared with anybody who may dispose of it.
- `remaining_leases` of a report is the raw counter. It can show an attempt that is about to be refused, even on a Disposed
  scope on which nobody holds a lease (`LeaseProtocol.DisposedCanCountAnAttempt`).
- A resume without an active call moves a disposed host to quarantine, so `Disposed` is not absorbing; being dead is.
- A cancellation that arrives before `begin_request` can be lost, because that method clears the flag first.
- Two direct registrations can leave a plugin with two identities (`Contributions.RegisterCanMix`), exactly when it is already
  published under another identity (`Contributions.RegisterMixesExactly`). Runs of stage, publish, unpublish, remove and clear cannot.
- A scope candidate that is not `Ready` is disposed of even when its publication is refused for that very reason.
- Marking a plugin as crashed is final for that key: no operation of the manager leaves that state.

## Model

| member | source | states |
|---|---|---|
| `KahnOrder.StableKahnOrder` | crates/rho-extension-runtime/src/resolver.rs:216-252 | On a graph whose edges stay inside it, the loop takes the least ready plugin at every step; it lists every plugin exactly when the graph is acyclic, then in a topological order that is lexicographically least among all topological orders. |
| `KahnOrder.CompleteIffAcyclic` | crates/rho-extension-runtime/src/resolver.rs:184-189 | A min-first run that can go no further has listed all plugins if and only if the graph has no cycle, self-loops included; on an acyclic graph its listing is topological. |
| `KahnOrder.MinFirstIsLexLeast` | crates/rho-extension-runtime/src/resolver.rs:238-251 | Every other topological order of the same graph is lexicographically greater. |
| `KahnOrder.MinFirstRespectsEdges` | crates/rho-extension-runtime/src/resolver.rs:238-251 | A listed provider stands before each of its listed consumers. |
| `KahnOrder.MinFirstIsDistinct` | crates/rho-extension-runtime/src/resolver.rs:238-251 | No plugin is listed twice. |
| `KahnOrder.InDegrees` | crates/rho-extension-runtime/src/resolver.rs:218-229 | After the counting loops each in-degree is the number of distinct predecessors. |
| `KahnOrder.CountsBeforeProcessing` | crates/rho-extension-runtime/src/resolver.rs:240-248 | An in-degree about to be decremented is positive, so the subtraction cannot underflow. |
| `KahnOrder.CountsAfterProcessing` | crates/rho-extension-runtime/src/resolver.rs:240-248 | After the decrements for one plugin each in-degree is again the number of unprocessed distinct predecessors. |
| `KahnOrder.ReadyAfter` | crates/rho-extension-runtime/src/resolver.rs:231-249 | The ready set that the loop maintains is exactly the set of unprocessed plugins without unprocessed predecessors. |
| `Graphs.TopologicalMeansAcyclic` | crates/rho-extension-runtime/src/resolver.rs:184-189 | A graph with a topological order has no closed walk. |
| `Graphs.PredecessorsForceACycle` | crates/rho-extension-runtime/src/resolver.rs:184-189 | A non-empty set of plugins each of which waits for another one of the set contains a cycle: the only way the loop can leave plugins out. |
| `Graphs.CutToSimpleCycle` | crates/rho-extension-runtime/src/resolver.rs:289-316 | Every closed walk contains a closed path from the same vertex with distinct interior vertices. |
| `CycleSearch.CanonicalCycle` | crates/rho-extension-runtime/src/resolver.rs:254-287 | None exactly when the graph is acyclic; otherwise a real simple cycle that starts at the least plugin on any cycle and is lexicographically least among the simple cycles through it. |
| `CycleSearch.Search.FindClosedPath` | crates/rho-extension-runtime/src/resolver.rs:289-316 | The backtracking search returns the lexicographically least closed path that extends the current path inside the component, and None only when there is none, with `path` and `on_path` put back as they were. |
| `CycleSearch.CyclicComponent` | crates/rho-extension-runtime/src/resolver.rs:257-270 | A component of mutually reachable plugins counts as cyclic exactly when its plugins lie on a cycle. |
| `CycleSearch.CycleInsideComponent` | crates/rho-extension-runtime/src/resolver.rs:273-287 | A simple cycle never leaves the component of its first plugin, so the search may stay inside it. |
| `CycleSearch.HeadIsLeastOnAnyCycle` | crates/rho-extension-runtime/src/resolver.rs:267-274 | The head of the first cyclic component is the least plugin on any cycle of the graph. |
| `CycleSearch.FoundIsCanonical` | crates/rho-extension-runtime/src/resolver.rs:273-287 | What the search returns from that head is the least simple cycle through it, and it returns something. |
| `CycleSearch.NoCyclicComponent` | crates/rho-extension-runtime/src/resolver.rs:255-273 | Without a cyclic component the graph is acyclic. |
| `Model.FromHostRules` | crates/rho-extension-runtime/src/model.rs:300-343 | Rules are accepted exactly when no kind is repeated, every parent kind exists and no parent chain comes round; the policy then says what the rules say. A refusal names the least repeated kind, the least kind without its parent, or the kind where the climb from the least kind with an endless chain comes round. |
| `Model.FirstCycleIsUnique` | crates/rho-extension-runtime/src/model.rs:328-340 | The kind named for a parent cycle is determined by the rules: the one that the climb from the least kind with an endless chain meets again. |
| `Model.FindParentCycle` | crates/rho-extension-runtime/src/model.rs:328-340 | The climb with its `seen` set ends at a root, or reports the first kind that it meets again, which reaches itself by its parents. |
| `Model.FirstOrphan` | crates/rho-extension-runtime/src/model.rs:317-326 | The least kind whose parent is not declared, if there is one. |
| `Model.SortedRulesDecide` | crates/rho-extension-runtime/src/model.rs:301-315 | On sorted rules the neighbours reveal a duplicate exactly when there is one, and it is the least. |
| `Model.AcceptedIsAcyclic` | crates/rho-extension-runtime/src/model.rs:328-343 | Under accepted rules no kind is its own ancestor. |
| `Model.ClimbLowersDepth` | crates/rho-extension-runtime/src/model.rs:328-343 | Every step up a parent chain lowers the depth of the kind by one. |
| `Model.ValidIdentitySitsBelowParent` | crates/rho-extension-runtime/src/model.rs:377-438 | A scope that passes has a declared kind, names exactly its parent, and its kind lies one below the parent kind in the policy. |
| `Model.NormalForgetsOrder` | crates/rho-extension-runtime/src/model.rs:135-140 | Normalising gives the same descriptor for every order of its three lists and of its scopes. |
| `Model.FaultlessMeansFit` | crates/rho-extension-runtime/src/model.rs:142-235 | A descriptor passes exactly when it allows the scope kind, its lists keep their limits, no list repeats a capability, and none is both required and optional: a statement that does not depend on the order of the lists. |
| `Model.SharedIffCommon` | crates/rho-extension-runtime/src/model.rs:209-225 | The overlap check finds a capability exactly when one is both required and optional. |
| `Ordering.SortByForgetsOrder` | crates/rho-extension-runtime/src/resolver.rs:29-32 | Sorting by a key that identifies its elements gives one result for all permutations. |
| `Ordering.FirstRepeatIsLeast` | crates/rho-extension-runtime/src/model.rs:238-246 | In a sorted list equal neighbours exist exactly when the list has a duplicate, and the first pair is the least duplicate. |
| `Resolver.ResolveActivationPlan` | crates/rho-extension-runtime/src/resolver.rs:12-198 | The outcome is the specified one: the errors of the checks in their order, else the canonical cycle, else the plan in the least topological order with the effective providers and bindings; `Resolvable.ResolvesExactly` says for which scopes it is a plan. A plan keeps the invariant that makes the next scope down resolvable. |
| `Resolver.Prepare` | crates/rho-extension-runtime/src/resolver.rs:18-182 | All loops up to the cycle search compute the specified providers, bindings, diagnostics and dependency graph, or the first fault. |
| `Resolver.CollectOffers` | crates/rho-extension-runtime/src/resolver.rs:50-63 | The multimap holds for every capability exactly the offers of this scope, in the order of the descriptors. |
| `Resolver.FindClash` | crates/rho-extension-runtime/src/resolver.rs:65-81 | A clash is reported exactly when a capability is offered twice or already inherited, and for the least such capability. |
| `Resolver.SortProvidersSorts` | crates/rho-extension-runtime/src/resolver.rs:65-81 | The providers of a clash are listed in the order of their fields, none lost and none added. |
| `Resolver.InsertProviders` | crates/rho-extension-runtime/src/resolver.rs:83-85 | The effective providers are the inherited ones and the one offer of each capability offered here. |
| `Resolver.BindDemand` | crates/rho-extension-runtime/src/resolver.rs:120-180 | One requirement: the first fault among missing, wrong major and too many edges, or its binding, diagnostic and graph edge. |
| `Resolver.BindAll` | crates/rho-extension-runtime/src/resolver.rs:94-182 | All requirements of all plugins, in order. |
| `Resolver.LookupsSucceed` | crates/rho-extension-runtime/src/resolver.rs:163-171 | The two map lookups cannot fail: a provider recorded with this very scope is a plugin of this scope, because every inherited provider sits at a strictly smaller depth of the policy. |
| `Resolver.StaysEstablished` | crates/rho-extension-runtime/src/resolver.rs:47-85 | The providers of a resolved scope again belong to this scope or to scopes of smaller depth. |
| `Resolver.TargetsAreConsumers` | crates/rho-extension-runtime/src/resolver.rs:163-171 | Every edge of the dependency graph ends at a plugin of the scope. |
| `Plans.OutcomeIsUnique` | crates/rho-extension-runtime/src/resolver.rs:12-198 | Two outcomes that meet the specification are equal: plan or error, down to the path of the reported cycle. |
| `Plans.CanonicalForgetsOrder` | crates/rho-extension-runtime/src/resolver.rs:29-41 | All permutations of the descriptors, and of the lists inside them, sort to the same list or show the same duplicate. |
| `Plans.OrderDoesNotMatter` | crates/rho-extension-runtime/src/resolver.rs:29-45 | The same plan or the same error for every permutation of the descriptors and of the lists inside each. |
| `Plans.BindingsAreMet` | crates/rho-extension-runtime/src/resolver.rs:98-182 | Every binding of a plan with a provider has the required major, and the provider comes earlier in this order or was inherited; each required and optional capability of each descriptor has its binding. |
| `Plans.ResolvedIsEstablished` | crates/rho-extension-runtime/src/resolver.rs:47-85 | The induction step down a chain of scopes. |
| `Plans.ChainIsEstablished` | crates/rho-extension-runtime/src/resolver.rs:12-198 | Every plan down a chain of scopes resolved under one accepted policy keeps the invariant. |
| `Plans.ProvidersDownTheChain` | crates/rho-extension-runtime/src/resolver.rs:47-85 | The effective providers at any depth are the disjoint union of what each scope of the chain provides itself. |
| `Plans.ProviderComesFrom` | crates/rho-extension-runtime/src/resolver.rs:47-85 | Each effective provider is the offer of exactly one scope of the chain. |
| `Plans.OfferedStays` | crates/rho-extension-runtime/src/resolver.rs:65-85 | What a scope offers is inherited unchanged by every scope below, and no scope below offers it again. |
| `Plans.BindingsReachAncestors` | crates/rho-extension-runtime/src/resolver.rs:143-179 | Down any chain, the provider of a binding is earlier in the same activation order or a plugin of a strict ancestor scope. |
| `Resolvable.ResolvesExactly` | crates/rho-extension-runtime/src/resolver.rs:12-198 | Resolution succeeds if and only if the identity fits the policy, at most 256 plugins with distinct ids all fit the scope kind, no capability is offered twice or both offered and inherited, every requirement is met (a required one provided, none provided with another major), at most 8192 requirements are bound, and nothing needs itself round a cycle. A plan lists as absent exactly the unprovided optional requirements, provides exactly what is offered here or inherited, and its order is the least topological order of the needs. An error always names a premise that fails. |
| `Resolvable.BindsExactly` | crates/rho-extension-runtime/src/resolver.rs:94-198 | The same for a scope whose plugins fit and whose offers are settled: success, absences, providers, order and the explanation of each error. |
| `Resolvable.EarlyRefusals` | crates/rho-extension-runtime/src/resolver.rs:12-48 | A scope with a wrong identity, too many plugins, a repeated id or an unfit plugin is refused, and the error names which of these it is and for which plugin. |
| `Resolvable.ContestedExactly` | crates/rho-extension-runtime/src/resolver.rs:65-81 | A capability clashes exactly when two plugins offer it, or one offers it that is already inherited. |
| `Resolvable.ContestRefuses` | crates/rho-extension-runtime/src/resolver.rs:65-81 | A contested capability refuses the scope, and the error names one that is contested. |
| `Resolvable.MetExactly` | crates/rho-extension-runtime/src/resolver.rs:98-161 | A requirement is met exactly when, if it is required, somebody provides the capability, and nobody provides it with another major; an optional one that nobody provides is met. |
| `Resolvable.FaultExplains` | crates/rho-extension-runtime/src/resolver.rs:98-161 | A fault of the binding loop says what is wrong: a required capability that nobody provides, the provider with another major, or more than 8192 bound requirements. |
| `Resolvable.PairsExactly` | crates/rho-extension-runtime/src/resolver.rs:143-161 | The number that is held against the limit of edges is the number of pairs of a plugin and a capability it asks for that somebody provides. |
| `Resolvable.GraphExactly` | crates/rho-extension-runtime/src/resolver.rs:163-171 | An edge leads from one plugin to another exactly when the second asks for a capability that the first offers in this scope. |
| `Resolvable.AbsencesExactly` | crates/rho-extension-runtime/src/resolver.rs:121-141 | The diagnostics list each optional requirement that nobody provides, once, and nothing else. |
| `Resolvable.FitExactly` | crates/rho-extension-runtime/src/model.rs:142-235 | The checks over all descriptors pass exactly when every one fits the kind; else the error is that of an unfit one. |
| `LeaseProtocol.RunKeepsInv` | crates/rho-extension-runtime/src/lifecycle.rs:623-646 | In every interleaving of lessees, gated and ungated activators, quiescers and disposers the shared words and every thread position fit together; a Disposed scope was drained first. |
| `LeaseProtocol.LifecycleNeverFalls` | crates/rho-extension-runtime/src/lifecycle.rs:1246-1331 | The lifecycle rank of a scope never falls; a disposer's closing of routing, whether that close was late, and the end of its wait are never undone. |
| `LeaseProtocol.ShutNeverRoutes` | crates/rho-extension-runtime/src/lifecycle.rs:1246-1260 | From the close by the disposer, and so from Disposing on, the scope never routes again, unless an activator stood just before opening routing when the disposer closed it. |
| `LeaseProtocol.DrainedHoldsNoLease` | crates/rho-extension-runtime/src/lifecycle.rs:1338-1364 | After `wait_for_idle` has returned to a disposer whose close was in time nobody holds a lease, now or later. |
| `LeaseProtocol.ShutGrantsNoLease` | crates/rho-extension-runtime/src/lifecycle.rs:632-646 | After a close in time no thread comes to hold a lease that it did not hold before. |
| `LeaseProtocol.DisposedHoldsNoLease` | crates/rho-extension-runtime/src/lifecycle.rs:1345-1417 | A scope that reached Disposed after a close in time neither routes nor has a lease held, now or later, in any interleaving; a disposal whose wait timed out never reaches Disposed. |
| `LeaseProtocol.CloseIsFinalExactly` | crates/rho-extension-runtime/src/lifecycle.rs:623-646 | Exact condition, over all continuations: after the close by the disposer the scope never routes again, and never grants a lease again, if and only if no activator stood between its exchange and its store at that moment. |
| `LeaseProtocol.NeverRoutesExactly` | crates/rho-extension-runtime/src/lifecycle.rs:1246-1260 | At any later moment: it never routes again if and only if it does not route and no activator is about to open routing. |
| `LeaseProtocol.LateExactly` | crates/rho-extension-runtime/src/lifecycle.rs:1246-1260 | A close counts as late exactly when it happened while some activator stood between its exchange and its store. |
| `LeaseProtocol.GatedActivationIsInTime` | crates/rho-extension-runtime/src/lifecycle.rs:1710-1770 | A close is never late when activation happens under the disposal gate, as publication does it. |
| `LeaseProtocol.DisposedCanRoute` | crates/rho-extension-runtime/src/lifecycle.rs:1666-1675 | A run through `from_active`, which takes no gate: a whole disposal overtakes it, and the Disposed scope routes and has a lease held. |
| `LeaseProtocol.DisposedCanCountAnAttempt` | crates/rho-extension-runtime/src/lifecycle.rs:1439-1447 | A run after which the raw lease counter of a Disposed scope reads one although nobody holds a lease. |
| `LeaseProtocol.WakeupsAreNotLost` | crates/rho-extension-runtime/src/lifecycle.rs:852-863 | No waiter sleeps with the counter at zero unless it has been notified or some thread still stands before its notification. |
| `LeaseProtocol.CounterIsExact` | crates/rho-extension-runtime/src/lifecycle.rs:632-646 | The counter is the number of threads that hold a lease or are about to back out of one. |
| `LeaseProtocol.GateIsExclusive` | crates/rho-extension-runtime/src/lifecycle.rs:1246-1260 | Two threads are never inside the disposal gate at once. |
| `Effects.RegistryHub.Register` | crates/rho-extension-runtime/src/lifecycle.rs:759-850 | A capability is entered exactly when it has no owner yet. |
| `Effects.RegistryHub.Release` | crates/rho-extension-runtime/src/lifecycle.rs:944-1059 | A registration is taken out only for the instance that owns it. |
| `Effects.EffectSink.Push` | crates/rho-extension-runtime/src/lifecycle.rs:359-371 | Effects are recorded in registration order, numbered from zero. |
| `Effects.EffectSink.Register` | crates/rho-extension-runtime/src/lifecycle.rs:373-416 | The registry entry and the effect record are made together or not at all. |
| `Effects.EffectStack.Dispose` | crates/rho-extension-runtime/src/lifecycle.rs:453-544 | The first call runs every disposer once, last registered first, and leaves in the registry what the undisposed records own; a disposer is skipped only when the deadline has passed, and those skipped are the earliest registered; when no deadline passes and every disposer succeeds the report says that all is disposed of; every later call returns the cached report and runs none. |
| `Effects.EffectStack.Settle` | crates/rho-extension-runtime/src/lifecycle.rs:464-525 | One disposer: skipped exactly when the deadline has expired, else disposed of exactly when it answers without a fault; the other records are untouched, and a successful registration disposer frees its entry. |
| `Effects.EffectStack.DisposeEach` | crates/rho-extension-runtime/src/lifecycle.rs:464-525 | The loop: one run for each disposer not skipped, in reverse order, each counted; without a passed deadline none is skipped. |
| `Effects.LateReachesFirst` | crates/rho-extension-runtime/src/lifecycle.rs:464-476 | If any disposer was skipped for the deadline, the first registered one was. |
| `Effects.World.ReadDeadline` | crates/rho-extension-runtime/src/lifecycle.rs:471-476 | A deadline that has passed stays passed; it has passed when some reading of the clock said so. |
| `Effects.RemainingAfter` | crates/rho-extension-runtime/src/lifecycle.rs:453-544 | Disposing one more record releases exactly its own registration. |
| `Scopes.ChildList.Replace` | crates/rho-extension-runtime/src/lifecycle.rs:1280-1288 | The first occurrence of the expected child goes, the candidate comes last, the others keep their order. |
| `Scopes.ChildList.Remove` | crates/rho-extension-runtime/src/lifecycle.rs:1290-1295 | The expected child is gone and the others keep their order. |
| `Scopes.ScopeSnapshot.MarkActive` | crates/rho-extension-runtime/src/lifecycle.rs:1246-1260 | Only a Ready scope becomes Active, and it routes then. |
| `Scopes.ScopeSnapshot.BeginQuiesce` | crates/rho-extension-runtime/src/lifecycle.rs:1297-1331 | Routing and task admission are closed and the tasks cancelled, whatever the state; a later state is kept. |
| `Scopes.ScopeSnapshot.AttachChild` | crates/rho-extension-runtime/src/lifecycle.rs:1262-1278 | A child is appended exactly when the scope is Ready or Active and is its parent. |
| `Scopes.ScopeSnapshot.DisposePlugins` | crates/rho-extension-runtime/src/lifecycle.rs:1388-1396 | The plugins are disposed of in reverse order, each report accounts for its plugin, and the disposers run in the reported order. |
| `Scopes.ScopeSnapshot.WaitForIdle` | crates/rho-extension-runtime/src/lifecycle.rs:1345-1364 | The wait times out exactly when the quiesce deadline expires before the leases and tasks have drained. |
| `Scopes.ScopeSnapshot.DisposeChild` | crates/rho-extension-runtime/src/lifecycle.rs:1369-1386 | A child is skipped exactly when the scope deadline has passed at its turn; a child that is not skipped is disposed of, and its report is the one it caches. |
| `Scopes.ScopeSnapshot.DisposeLeaf` | crates/rho-extension-runtime/src/lifecycle.rs:1333-1451 | A scope without children: the disposers that run are those of its report, it leaves in the registry what they did not free, and when no deadline passes and every disposer succeeds it is disposed of. |
| `Scopes.ScopeSnapshot.DisposeChildren` | crates/rho-extension-runtime/src/lifecycle.rs:1366-1386 | The children are disposed of in reverse order. One is left out only when the scope deadline has passed; otherwise every child has a report afterwards. The disposers run are those of the reports. |
| `Scopes.ScopeSnapshot.QuiesceAndDispose` | crates/rho-extension-runtime/src/lifecycle.rs:1333-1451 | On any tree of scopes: the report accounts for every child in reverse order and every plugin in reverse order, and a Disposed one for all tasks; on a tree not yet disposed of the disposers run in exactly the order of the report, and if no deadline passes and every disposer succeeds the report is Disposed; unless the deadline passed every child has its report and no effect is skipped; a repeated call returns the same report, runs no disposer and changes nothing; no report once given changes; whatever any scope of the tree reports stays true. |
| `Scopes.DisposedMeansWholeSubtree` | crates/rho-extension-runtime/src/lifecycle.rs:1398-1448 | A Disposed report implies, for every scope of the whole subtree, that it is Disposed, holds no lease, has no task left, and every effect record is Disposed. |
| `Activation.BuildScopeCandidate` | crates/rho-extension-runtime/src/lifecycle.rs:1509-1651 | Activation succeeds exactly when no plugin fails, and then the scope is Ready, not routed, with exactly the scripted effects and registrations. Otherwise everything up to and with the first failing plugin was rolled back; if no deadline passes and every disposer succeeds, wholly, with an empty registry. |
| `Activation.ActivatePlugin` | crates/rho-extension-runtime/src/lifecycle.rs:1568-1593 | One plugin adds the effects and registrations of its own script, up to the first refusal. |
| `Activation.PerformRecordsOwn` | crates/rho-extension-runtime/src/lifecycle.rs:359-371 | Every disposer of its own that a plugin pushes is on record, in its name, numbered in order and not yet disposed of. |
| `Activation.PerformRecordsEntries` | crates/rho-extension-runtime/src/lifecycle.rs:373-416 | A registration is on record exactly for the entries that the plugin asked for and nobody had; the registry holds the earlier entries under their owners and the new ones under the plugin. |
| `Activation.ActivateAll` | crates/rho-extension-runtime/src/lifecycle.rs:1568-1603 | The loop stops at the first plugin that fails and holds the effects of all plugins up to it. |
| `Activation.FailActivation` | crates/rho-extension-runtime/src/lifecycle.rs:1604-1639 | The failed activation is rolled back in place: the report covers the effects of all plugins activated so far, and a rollback that reports Disposed leaves the registry empty. |
| `Activation.EntriesMatchRegistrations` | crates/rho-extension-runtime/src/lifecycle.rs:373-416 | At any point of an activation the registry entries correspond one-to-one to the registrations on record. |
| `Activation.PerformKeeps` | crates/rho-extension-runtime/src/lifecycle.rs:373-416 | The correspondence survives every action of a plugin, whatever it registers and wherever it fails. |
| `Activation.CompleteRollbackEmptiesRegistry` | crates/rho-extension-runtime/src/lifecycle.rs:944-1059 | When every record was disposed of, no registry entry is left. |
| `Activation.RollbackReversesRegistration` | crates/rho-extension-runtime/src/lifecycle.rs:1604-1639 | Over all plugins together the disposers run in the exact reverse of the global registration order; those skipped for a deadline are left out and change nothing about the order of the others. |
| `Activation.AllOnTime` | crates/rho-extension-runtime/src/lifecycle.rs:464-476 | When nothing is skipped, nothing is left out of that order. |
| `Activation.RunsReverse` | crates/rho-extension-runtime/src/lifecycle.rs:464-476 | Within one plugin the disposers run in the reverse of its registration order, those skipped for a deadline left out. |
| `Publication.ScopeSlot.PublishWith` | crates/rho-extension-runtime/src/lifecycle.rs:1710-1809 | A Ready candidate replaces the expected occupant and is Active and routed, and the disposers run are those of the report of the retired occupant, one report for each of its effect stacks; in every other case the slot is as before, the candidate was put through disposal in the same sense and the error says which check failed. If no deadline passes and every disposer succeeds, what is retired or refused for the first time is Disposed. |
| `Publication.ScopeManager.constructor` | crates/rho-extension-runtime/src/lifecycle.rs:1894-1912 | The application scope becomes Active and both slots start empty. |
| `Publication.ScopeManager.PublishProjectTree` | crates/rho-extension-runtime/src/lifecycle.rs:2033-2218 | All-or-nothing over both slots: succeeds exactly when both candidates are Ready, parent and child, and both expected occupants match; the disposers run are then those of the report of the former project, with its workspace. Else both slots are as they were, both candidates have reports that cover their effect stacks, and the disposers run are those of these reports, the workspace first. The slots and child lists mirror each other before and after. |
| `Publication.ScopeManager.PublishWorkspace` | crates/rho-extension-runtime/src/lifecycle.rs:1995-2031 | Publishes below the current project exactly when there is one, it is the named parent, and the slot check passes; the mirror of slots and child lists is kept, and the disposers run are those of the scope retired or refused. |
| `Publication.ScopeManager.PublishProject` | crates/rho-extension-runtime/src/lifecycle.rs:1966-1993 | Publishes a project alone exactly when there is no workspace and the slot check passes; the mirror is kept, and the disposers run are those of the scope retired or refused. |
| `Publication.ScopeManager.ClearProject` | crates/rho-extension-runtime/src/lifecycle.rs:2220-2252 | Empties the project slot exactly when it holds the expected scope and no workspace is published, and then runs the disposers of its report; the mirror is kept. |
| `Publication.ScopeManager.ClearWorkspace` | crates/rho-extension-runtime/src/lifecycle.rs:2254-2280 | Empties the workspace slot exactly when it holds the expected scope, and then runs the disposers of its report; the mirror is kept. |
| `Publication.ScopeManager.StageTree` | crates/rho-extension-runtime/src/lifecycle.rs:2043-2189 | The checks and the two swaps before activation, with the undo of the first swap when the second fails. |
| `Publication.ScopeManager.SwapSlots` | crates/rho-extension-runtime/src/lifecycle.rs:2115-2189 | Both slots change or neither does. |
| `Publication.ScopeManager.AdmitTree` | crates/rho-extension-runtime/src/lifecycle.rs:2043-2113 | The workspace is attached to the project exactly when the tree is admitted. |
| `Publication.ScopeManager.CommitTree` | crates/rho-extension-runtime/src/lifecycle.rs:2191-2217 | Activates workspace and project, exchanges the application's child and retires the former tree; the former workspace is spared only if a deadline passed, and is disposed of if the project reports so. |
| `Publication.DisposeCandidates` | crates/rho-extension-runtime/src/lifecycle.rs:1850-1858 | Both refused candidates have reports that cover each effect stack, and the disposers run are exactly those of these reports that are new. |
| `Publication.StacksAreReported` | crates/rho-extension-runtime/src/lifecycle.rs:1388-1396 | Every effect stack of a scope that was put through disposal was itself disposed of. |
| `Publication.DisposeLeaf` | crates/rho-extension-runtime/src/lifecycle.rs:1801-1809 | A scope without children gets a report that covers its effect stacks, the disposers run are those of the report, and nothing runs if it had a report before. |
| `Publication.DisposeParent` | crates/rho-extension-runtime/src/lifecycle.rs:1850-1858 | A project takes the workspace below it along unless a deadline has passed; the disposers run are those of its report. |
| `Publication.PairIsTree` | crates/rho-extension-runtime/src/lifecycle.rs:1850-1858 | A project and the workspace below it form a scope tree in the sense of the disposal theorem. |
| `Glob.GlobMatches` | crates/rho-extension-runtime/src/grant.rs:913-963 | The memoised matcher agrees with the unmemoised meaning of the pattern for all inputs, within 1 + 3(p+1)(v+1) visits. |
| `Glob.Matcher.Visit` | crates/rho-extension-runtime/src/grant.rs:914-954 | A state found in `seen` may be answered false: the answer is exactly the meaning, given that the earlier visits from there on failed. |
| `Glob.Matcher.VisitStar` | crates/rho-extension-runtime/src/grant.rs:927-942 | The branches for `*`, `**` and `**/` together decide the meaning of a starred state. |
| `Glob.StarStep` | crates/rho-extension-runtime/src/grant.rs:927-942 | A star matches nothing, or takes one more byte, which for a single star is no slash. |
| `Glob.SameDepth` | crates/rho-extension-runtime/src/grant.rs:927-954 | A pattern without `**` only matches values with the same number of slashes. |
| `Glob.DoubleStarSlashMeansSomeSuffix` | crates/rho-extension-runtime/src/grant.rs:927-941 | `**/x` accepts exactly the values some suffix of which `x` accepts, at a component boundary or not. |
| `Glob.LiteralPrefix` | crates/rho-extension-runtime/src/grant.rs:943-953 | Literal bytes match themselves. |
| `Glob.StarTakesSegment` | crates/rho-extension-runtime/src/grant.rs:927-942 | A lone `*` accepts exactly the values without a slash. |
| `Glob.DirectoryStar` | crates/rho-extension-runtime/src/grant.rs:927-953 | `dir/*` accepts exactly the direct children of `dir`. |
| `Glob.SeenFitsGrid` | crates/rho-extension-runtime/src/grant.rs:919-926 | The memo holds at most one entry for each pair of positions. |
| `Hosts.HostMatchesMeans` | crates/rho-extension-runtime/src/grant.rs:887-911 | A host pattern accepts exactly the host itself, or for `*.` the proper subdomains of valid domains. |
| `Hosts.WildcardIsProper` | crates/rho-extension-runtime/src/grant.rs:899-911 | A wildcard never accepts the bare domain. |
| `Hosts.HostAllowedMeans` | crates/rho-server/src/plugin_network.rs:475-504 | The fetch engine's own matcher accepts exactly the host itself or the proper subdomains, and never more than the grant monitor's. |
| `Grants.PermissionUseAllowed` | crates/rho-extension-runtime/src/grant.rs:811-869 | The loops over patterns decide whether the use is inside the constraints. |
| `Grants.FindDenial` | crates/rho-extension-runtime/src/grant.rs:629-682 | The checks one after the other give the specified denial. |
| `Grants.PassesExactly` | crates/rho-extension-runtime/src/grant.rs:629-682 | A call passes exactly when the grant is active, bound to this very caller and covers this very use, with the reservation that its stage needs. |
| `Grants.GrantStore.Grant` | crates/rho-extension-runtime/src/grant.rs:370-443 | Refuses an invalid request, one outside the time limits, one whose durable id has a live handle, and a token that is already a handle; else issues the handle and puts it on record for the durable id in place of a stale one. A refused token also takes the stale record away. |
| `Grants.GrantStore.Revoke` | crates/rho-extension-runtime/src/grant.rs:447-456 | Revokes a known handle. |
| `Grants.GrantStore.RevokeDurableGrant` | crates/rho-extension-runtime/src/grant.rs:459-468 | Revokes the handle on record for a durable id. |
| `Grants.GrantStore.Invalidate` | crates/rho-extension-runtime/src/grant.rs:506-542 | Revokes every live grant of a project, host or workspace, and counts them. |
| `Grants.GrantStore.Revalidate` | crates/rho-extension-runtime/src/grant.rs:545-561 | Admits a call and reserves an allow-once grant, or denies it and changes nothing. |
| `Grants.GrantStore.RevalidateAdmitted` | crates/rho-extension-runtime/src/grant.rs:565-574 | The second check of an admitted call. |
| `Grants.GrantStore.Complete` | crates/rho-extension-runtime/src/grant.rs:593-619 | Ends a reservation; success and uncertainty use the grant up. |
| `Grants.Sweep` | crates/rho-extension-runtime/src/grant.rs:506-542 | The loop revokes exactly the grants hit by the target, and counts each once. |
| `GrantHistory.RunKeepsSound` | crates/rho-extension-runtime/src/grant.rs:370-619 | Over any run: reservations are for unused allow-once grants only, and a live handle is the one on record for its durable id. |
| `GrantHistory.RunAges` | crates/rho-extension-runtime/src/grant.rs:370-619 | No grant disappears or changes what it was issued for; use and revocation are never taken back. |
| `GrantHistory.OneLiveHandle` | crates/rho-extension-runtime/src/grant.rs:370-443 | Each durable id has at most one live handle, the one in `durable_handles`. |
| `GrantHistory.SpentIsFinal` | crates/rho-extension-runtime/src/grant.rs:545-561 | A used, revoked or expired grant is never admitted again. |
| `GrantHistory.RevocationIsPermanent` | crates/rho-extension-runtime/src/grant.rs:447-542 | After a revocation or invalidation the grant stays revoked and is never admitted. |
| `GrantHistory.UsedUpOnce` | crates/rho-extension-runtime/src/grant.rs:593-619 | After one successful or uncertain completion of a grant there is no other completion and no admission of it. |
| `GrantHistory.CompletionTakesReservation` | crates/rho-extension-runtime/src/grant.rs:605-619 | A completion consumes the reservation of an allow-once grant. |
| `GrantHistory.ReservationEndedAt` | crates/rho-extension-runtime/src/grant.rs:605-619 | A reservation ends only by a completion. |
| `GrantHistory.AdmissionsAreSeparated` | crates/rho-extension-runtime/src/grant.rs:545-619 | Between two admissions of an allow-once grant lies a completion as a failure before dispatch. |
| `GrantHistory.AdmissionIsJustified` | crates/rho-extension-runtime/src/grant.rs:545-561 | Every admission was of a live grant on record, bound to the caller, whose constraints cover the use. |
| `GrantLaws.AdmittedExactly` | crates/rho-extension-runtime/src/grant.rs:545-561 | Over any run, stated on the requests: a call is admitted if and only if its handle was issued by an earlier request whose binding is that of the call, whose permission and constraints cover the use and which has not expired, nobody withdrew it since, and, for an allow-once request, it was not used up and is not held by an admission without completion. |
| `GrantLaws.CompletedExactly` | crates/rho-extension-runtime/src/grant.rs:593-619 | A completion is accepted if and only if an earlier allow-once request issued the handle and an admission of it stands open. |
| `GrantLaws.IssuedExactly` | crates/rho-extension-runtime/src/grant.rs:370-443 | A request is answered with its handle if and only if it is valid, within its time limit, the token is new and no live grant has its durable id. |
| `GrantLaws.WasIssued` | crates/rho-extension-runtime/src/grant.rs:370-443 | Every grant on record goes back to a request that issued it. |
| `GrantLaws.IssuedOnce` | crates/rho-extension-runtime/src/grant.rs:370-443 | No handle is issued twice. |
| `GrantLaws.IssueFiles` | crates/rho-extension-runtime/src/grant.rs:370-443 | What goes on record is what was asked for, fresh and not revoked. |
| `GrantLaws.FlagsTellHistory` | crates/rho-extension-runtime/src/grant.rs:447-619 | The marks of a grant say exactly what happened since its request: revoked if and only if it was withdrawn, used if and only if it was used up, reserved if and only if an admission stands open. |
| `GrantLaws.AllowOnceIsOnce` | crates/rho-extension-runtime/src/grant.rs:545-619 | After a request for one use: the first completion of an admission other than a failure before dispatch is accepted, and nothing is admitted afterwards. |
| `GrantLaws.AllowOnceIsSeparated` | crates/rho-extension-runtime/src/grant.rs:545-619 | Two admissions under a request for one use have a failure before dispatch between them. |
| `GrantLaws.OnlyAllowOnceIsUsed` | crates/rho-extension-runtime/src/grant.rs:593-619 | A grant that was asked for a project is never used up nor reserved. |
| `GrantLaws.AdmittedUse` | crates/rho-extension-runtime/src/grant.rs:629-869 | What an admitted use is, field by field, in terms of the request: the permission, the size, and the path, operation or host that some pattern of the request covers. |
| `GrantLaws.AdmittedPathStaysInside` | crates/rho-extension-runtime/src/grant.rs:811-869 | No component of an admitted path is empty, a dot or two dots. |
| `GrantLaws.OnRecordForItself` | crates/rho-extension-runtime/src/grant.rs:370-443 | The handle on record for a durable id is a grant of that id. |
| `WasmHost.WasmPluginHost.constructor` | crates/rho-extension-runtime/src/wasm_host.rs:351-405 | A new host is Created and has not entered the guest. |
| `WasmHost.WasmPluginHost.BeginBrokerCall` | crates/rho-extension-runtime/src/wasm_host.rs:463-524 | Whatever the guest does: at most one entry, one live call, and the cancellation record names exactly that call; a second call, a request cancelled in advance and oversized input never reach the guest; a step that is returned is what the bytes named by the guest decode to. |
| `WasmHost.WasmPluginHost.ResumeBrokerCall` | crates/rho-extension-runtime/src/wasm_host.rs:552-619 | At most 8 entries and 1 MiB of raw results for one top-level call, no step repeated at once; a foreign request or a spent budget never reaches the guest; every failure quarantines, a resume without a call included; a step that is returned is what the bytes named by the guest decode to. |
| `WasmHost.WasmPluginHost.CancelBrokerCall` | crates/rho-extension-runtime/src/wasm_host.rs:621-648 | Afterwards no call is live; a foreign request id ends the host. |
| `WasmHost.WasmPluginHost.CancelInflight` | crates/rho-extension-runtime/src/wasm_host.rs:293-302 | The interrupt is set exactly for the request in flight. |
| `WasmHost.WasmPluginHost.QuarantineForTimeout` | crates/rho-extension-runtime/src/wasm_host.rs:659-671 | A live host is quarantined and a dead one is left alone. |
| `WasmHost.WasmPluginHost.HandleFrame` | crates/rho-extension-runtime/src/wasm_host.rs:673-699 | Only the addressed host answers, a dead one refuses without change, the lifecycle only advances, and each success has the answer of its message. |
| `WasmHost.WasmPluginHost.HandleHello` | crates/rho-extension-runtime/src/wasm_host.rs:701-711 | The one version is negotiated, once. |
| `WasmHost.WasmPluginHost.HandleActivate` | crates/rho-extension-runtime/src/wasm_host.rs:713-728 | Ready becomes Active, or the host ends. |
| `WasmHost.WasmPluginHost.HandleEcho` | crates/rho-extension-runtime/src/wasm_host.rs:730-783 | An echo is refused while a broker call is live, is bounded both ways and leaves the state alone or ends the host. |
| `WasmHost.WasmPluginHost.HandleHeartbeat` | crates/rho-extension-runtime/src/wasm_host.rs:785-792 | Only an Active host answers. |
| `WasmHost.WasmPluginHost.CancelBeforeDispatch` | crates/rho-extension-runtime/src/wasm_host.rs:794-809 | A bounded set of requests cancelled in advance. |
| `WasmHost.WasmPluginHost.HandleQuiesce` | crates/rho-extension-runtime/src/wasm_host.rs:811-819 | Ready or Active becomes Quiescing, or the host ends. |
| `WasmHost.WasmPluginHost.HandleDispose` | crates/rho-extension-runtime/src/wasm_host.rs:821-841 | Everything after Created becomes Disposed, or the host ends; the runtime is gone either way. |
| `WasmHost.WasmPluginHost.CallGuest` | crates/rho-extension-runtime/src/wasm_host.rs:843-875 | An arbitrary guest, interrupted by another thread before or during its run, changes nothing but its own memory; a trap of any kind ends the host. |
| `WasmHost.WasmPluginHost.ReadGuestUtf8` | crates/rho-extension-runtime/src/wasm_host.rs:889-915 | Exactly the bytes that the guest names, when they are few enough, inside its memory and UTF-8; the errors in their order otherwise. No read leaves the linear memory. |
| `Utf8.TextExactly` | crates/rho-extension-runtime/src/wasm_host.rs:889-915 | The bytes that are accepted are exactly the UTF-8 encodings of sequences of Unicode scalar values, RFC 3629 sections 3 and 4. |
| `WasmHost.WasmPluginHost.WriteGuestInput` | crates/rho-extension-runtime/src/wasm_host.rs:917-935 | Input lands at the start of the memory or not at all. |
| `WasmHost.WasmPluginHost.BeginRequest` | crates/rho-extension-runtime/src/wasm_host.rs:937-948 | Claims the request unless it was cancelled in advance or another is active; the cancel flag is cleared first, as in the code. |
| `WasmHost.WasmPluginHost.Fail` | crates/rho-extension-runtime/src/wasm_host.rs:965-971 | A failure takes runtime, call and cancellation record together. |
| `WasmHost.DecodeGuestStep` | crates/rho-extension-runtime/src/wasm_host.rs:974-1042 | A step passes exactly when it parses, names this call, keeps its size limit and has well-formed fields. |
| `Session.Begin` | crates/rho-extension-runtime/src/contribution_call.rs:205-324 | No guest entry before all admission checks have passed, the input being of the type of the input schema among them; the session then captures identity, contract major, output schema and deadline of that moment. |
| `Session.CallSession.Resume` | crates/rho-extension-runtime/src/contribution_call.rs:326-355 | Succeeds only before the deadline with the captured identity and major still registered, and only from waiting; while waiting, the session counts the same broker steps as the host, at most 8; a failed resume no longer waits. |
| `Session.CallSession.Finish` | crates/rho-extension-runtime/src/contribution_call.rs:357-404 | An outcome exactly when the call is still served, not over, and the terminal step is its own and its result is small enough and of the type that the output schema describes; the outcome then carries that result; at most one over the whole life of a session; every refusal has its own error. |
| `Session.Admit` | crates/rho-extension-runtime/src/contribution_call.rs:205-270 | The admission checks in their order; `Session.AdmittedExactly` says which calls pass them. |
| `Session.AdmittedExactly` | crates/rho-extension-runtime/src/contribution_call.rs:205-270 | A call is admitted if and only if the handles are valid, the contribution is registered for this very host and can be called, and its input schema takes the input. |
| `Session.RefusalExplains` | crates/rho-extension-runtime/src/contribution_call.rs:205-270 | Each refusal names a condition that fails. |
| `Session.ValidateTerminalResult` | crates/rho-extension-runtime/src/contribution_call.rs:548-566 | A result passes exactly when it keeps the byte limit of its kind and has the type that the output schema describes. |
| `Session.CallSession.Cancel` | crates/rho-extension-runtime/src/contribution_call.rs:406-419 | A cancelled session is over; a failed cancellation means the host is dead. |
| `Session.CallSession.AcceptStep` | crates/rho-extension-runtime/src/contribution_call.rs:421-448 | A broker request is accepted only with a supplied pair of permission and handle. |
| `Session.CallSession.EnsureLive` | crates/rho-extension-runtime/src/contribution_call.rs:450-485 | Passes exactly before the deadline, on the same host identity, with the captured record still registered; otherwise the call is over. |
| `Session.CallSession.InvalidateBeforePublish` | crates/rho-extension-runtime/src/contribution_call.rs:200-203 | The session yields no outcome afterwards. |
| `Contributions.Stage` | crates/rho-extension-runtime/src/contribution.rs:428-447 | A candidate is staged exactly when its declarations are valid, distinct and few enough. |
| `Contributions.ContributionStore.CurrentIdentity` | crates/rho-extension-runtime/src/contribution.rs:513-540 | Returns the one identity published for a plugin, and fails exactly when its records do not agree on one. |
| `Contributions.ContributionStore.Publish` | crates/rho-extension-runtime/src/contribution.rs:452-482 | Clone, retain and register one by one refine a one-shot replacement: it succeeds exactly when the expected identity is current, no capability belongs to another plugin, and the project total stays within 256; on failure nothing changes, and the error is the mismatch, the first taken capability that still had room, or the limit. |
| `Contributions.ContributionStore.Unpublish` | crates/rho-extension-runtime/src/contribution.rs:484-503 | Removes all and only the plugin's records, exactly for its current identity. |
| `Contributions.ContributionStore.Register` | crates/rho-extension-runtime/src/contribution.rs:543-580 | Adds one record or changes nothing. |
| `Contributions.ContributionStore.Remove` | crates/rho-extension-runtime/src/contribution.rs:584-624 | Removes one record of the named instance or changes nothing. |
| `Contributions.ContributionStore.ClearProject` | crates/rho-extension-runtime/src/contribution.rs:636-638 | Removes exactly the project's records. |
| `Contributions.ContributionStore.ClearInstance` | crates/rho-extension-runtime/src/contribution.rs:641-656 | Removes exactly the instance's records. |
| `Contributions.PublicationIsIsolated` | crates/rho-extension-runtime/src/contribution.rs:452-482 | Other plugins and projects are untouched by a publication, and the plugin's current identity afterwards is the candidate's, or none if it declares nothing. |
| `Contributions.TakenExactly` | crates/rho-extension-runtime/src/contribution.rs:465-478 | A candidate is in conflict exactly when another plugin of its project has filed one of its capabilities. |
| `Contributions.FitsExactly` | crates/rho-extension-runtime/src/contribution.rs:465-478 | It fits exactly when the records of the other plugins of its project and its own declarations are at most 256. |
| `Contributions.PublishedExactly` | crates/rho-extension-runtime/src/contribution.rs:452-482 | Afterwards exactly the declared capabilities of the candidate are filed for its plugin, each with its declaration, and everything of other plugins and projects is as before. |
| `Contributions.CurrentExactly` | crates/rho-extension-runtime/src/contribution.rs:513-540 | An identity is current exactly when the plugin has records and all of them are of that identity. |
| `Contributions.ReplacementIsValid` | crates/rho-extension-runtime/src/contribution.rs:452-482 | A publication leaves the store filed, unmixed and within budget. |
| `Contributions.PublishStep` | crates/rho-extension-runtime/src/contribution.rs:465-478 | Registering the next contribution succeeds exactly when it is still free and still fits. |
| `Contributions.RegisterMixesExactly` | crates/rho-extension-runtime/src/contribution.rs:543-580 | A direct registration mixes identities exactly when the plugin is published under another identity. |
| `Contributions.RegisterCanMix` | crates/rho-extension-runtime/src/contribution.rs:543-580 | Two successful direct registrations on an empty store that mix. |
| `Contributions.CurrentIsUnique` | crates/rho-extension-runtime/src/contribution.rs:513-540 | A plugin has at most one current identity. |
| `JsonSchema.NewSchema` | crates/rho-extension-runtime/src/json_schema.rs:49-61 | Accepts exactly the encoded-size-bounded schemas that are well formed from the root and within the two tree-wide totals. |
| `JsonSchema.ValidateSchemaNode` | crates/rho-extension-runtime/src/json_schema.rs:98-186 | Accepts a node exactly when it is well formed and the tree-wide sums of its properties and enum values fit the budget, and charges exactly those sums. |
| `JsonSchema.ValidateChildren` | crates/rho-extension-runtime/src/json_schema.rs:226-246 | The loop over properties charges exactly the sum over the children. |
| `JsonSchema.ValidateEnum` | crates/rho-extension-runtime/src/json_schema.rs:161-184 | An enum is not empty, its values have the type of the node, and all of them are charged to the budget. |
| `JsonSchema.ValidateRequired` | crates/rho-extension-runtime/src/json_schema.rs:248-273 | Required names are declared and distinct. |
| `JsonSchema.InstanceMeans` | crates/rho-extension-runtime/src/json_schema.rs:329-414 | For every well-formed schema, validation accepts exactly the instances that satisfy its declarative closed-object shape, and never reports the depth error. |
| `JsonSchema.AllowsExactly` | crates/rho-extension-runtime/src/json_schema.rs:329-414 | Validation accepts an instance of a well-formed schema if and only if the text of the schema allows it: a string under `required` names a field of the object, no field is undeclared, lengths lie between the numbers under minLength and maxLength or minItems and maxItems, numbers between those under minimum and maximum, and the value is among those under enum. |
| `JsonSchema.ConformsExactly` | crates/rho-extension-runtime/src/json_schema.rs:69-74 | For every accepted schema, to have the described type is to be allowed by the text of the schema. |
| `JsonSchema.ValidateInstance` | crates/rho-extension-runtime/src/json_schema.rs:69-74 | For every accepted schema, decides exactly whether the value has the type that the schema describes, which is whether the text of the schema allows it. |
| `JsonSchema.LookupBySpelling` | crates/rho-extension-runtime/src/json_schema.rs:357-381 | In any value that JSON text can have, a lookup by string finds the one field that is spelled so. |
| `JsonSchema.KeywordsAreCanonical` | crates/rho-extension-runtime/src/json_schema.rs:108-127 | Every word of the schema language is the only word with its spelling, so that a string is a keyword or not, never both. |
| `JsonSchema.ObjectMeans` | crates/rho-extension-runtime/src/json_schema.rs:357-381 | Closed objects: every field is declared and fits, and every required name is present. |
| `JsonSchema.ArrayMeans` | crates/rho-extension-runtime/src/json_schema.rs:382-389 | Arrays: length within bounds and every item fits. |
| `JsonSchema.NumberMeans` | crates/rho-extension-runtime/src/json_schema.rs:394-409 | Numbers: within the bounds and the enum. |
| `JsonSchema.MismatchMeans` | crates/rho-extension-runtime/src/json_schema.rs:345-349 | A value of another type is refused as a mismatch. |
| `Fetch.ValidateUrl` | crates/rho-server/src/plugin_network.rs:436-473 | Accepts exactly bounded plain HTTPS URLs on port 443 without credentials or fragment, to a valid named host that the policy allows. |
| `Fetch.NetworkFetchEngine.Fetch` | crates/rho-server/src/plugin_network.rs:277-294 | Every fetch ends after at most 4 sends, each to an allowed host at public addresses authorised before and after their resolution; the first goes to the requested address and each further one to where the Location of the response before it points; a result shows the last response and counts sends minus one redirects; an error after the first send is uncertain, one before it is not unless an outside party said so. |
| `Fetch.NetworkFetchEngine.FetchInner` | crates/rho-server/src/plugin_network.rs:296-399 | The loop over redirects, every time-out point included; each address comes from the response before it. |
| `Fetch.NetworkFetchEngine.Hop` | crates/rho-server/src/plugin_network.rs:316-351 | One hop sends at most once, and only after its preparation. |
| `Fetch.NetworkFetchEngine.Prepare` | crates/rho-server/src/plugin_network.rs:316-332 | Authorise, resolve, check all addresses public, authorise again. |
| `Fetch.SentExtended` | crates/rho-server/src/plugin_network.rs:316-345 | A send after such a preparation keeps the whole record proper. |
| `Fetch.FollowsExtended` | crates/rho-server/src/plugin_network.rs:345-375 | One more hop to the address named by the last response keeps the chain of redirects. |
| `PluginManager.AuditLog.Record` | crates/rho-extension-runtime/src/instance.rs:118-125 | The retained events are the last 256 of everything ever recorded. |
| `PluginManager.PluginInstance.Transition` | crates/rho-extension-runtime/src/instance.rs:188-202 | A transition happens exactly on an allowed edge and is recorded from where it started. |
| `PluginManager.PluginInstance.Activate` | crates/rho-extension-runtime/src/instance.rs:293-330 | The way up runs to Active or changes nothing; no intermediate state survives. |
| `PluginManager.PluginInstance.Deactivate` | crates/rho-extension-runtime/src/instance.rs:352-368 | The way down runs to Stopped or changes nothing. |
| `PluginManager.PluginManager.Discover` | crates/rho-extension-runtime/src/instance.rs:251-273 | New keys are added, a new digest of an active plugin becomes pending, everything else is left alone. |
| `PluginManager.PluginManager.Enable` | crates/rho-extension-runtime/src/instance.rs:277-338 | Refines the state machine: all steps up with a new generation, host and accepted digest, or an error and no change. |
| `PluginManager.PluginManager.Disable` | crates/rho-extension-runtime/src/instance.rs:342-371 | Refines the state machine: all steps down, or an error and no change. |
| `PluginManager.PluginManager.MarkCrashed` | crates/rho-extension-runtime/src/instance.rs:374-390 | Refines the state machine: Active becomes Crashed without a host, or an error and no change. |
| `PluginManager.PluginManager.Replace` | crates/rho-extension-runtime/src/instance.rs:395-443 | Refines the state machine: the pending candidate of an active plugin replaces exactly the accepted digest its caller named, or an error and no change. |
| `PluginManager.PluginManager.RejectUpdate` | crates/rho-extension-runtime/src/instance.rs:445-449 | Only a pending update is forgotten. |
| `PluginLifecycle.RunKeepsSane` | crates/rho-extension-runtime/src/instance.rs:251-449 | In every run: boundary states are only Discovered, Active, Stopped and Crashed; a host exists exactly when Active; the accepted digest is the one in use and a pending one differs; the history is linked by allowed transitions; and the generation is the number of activations and replacements in it. |
| `PluginLifecycle.ApplyKeepsSane` | crates/rho-extension-runtime/src/instance.rs:251-449 | Every operation on any plugin keeps that invariant for all plugins. |
| `PluginLifecycle.RunAges` | crates/rho-extension-runtime/src/instance.rs:251-449 | Histories only grow, generations never fall, a crashed plugin never changes again. |
| `PluginLifecycle.GenerationsIncrease` | crates/rho-extension-runtime/src/instance.rs:287-336 | Each successful enabling or replacement gets a generation greater than any the plugin had. |
| `PluginLifecycle.GenerationTellsActivationsApart` | crates/rho-extension-runtime/src/instance.rs:287-336 | Two active moments with the same generation have the same package and the same host. |
| `PluginLifecycle.PackagesChangeByReplacement` | crates/rho-extension-runtime/src/instance.rs:395-443 | A change of package is due to one successful replacement by a pending candidate. |
| `PluginLifecycle.EnableEnds` | crates/rho-extension-runtime/src/instance.rs:277-338 | In a coherent registry enabling succeeds exactly for a Discovered or Stopped plugin with generations left, and ends Active with the given host, the same package and the next generation, the digest accepted. |
| `PluginLifecycle.DisableEnds` | crates/rho-extension-runtime/src/instance.rs:342-371 | Disabling succeeds exactly for an Active plugin and ends Stopped without a host, through Quiescing and Disposing. |
| `PluginLifecycle.CrashEnds` | crates/rho-extension-runtime/src/instance.rs:374-390 | Marking as crashed succeeds exactly for an Active plugin, and no later operation changes that plugin. |
| `PluginLifecycle.DisableThenEnable` | crates/rho-extension-runtime/src/instance.rs:277-371 | A disabled plugin can be enabled again, with the same package and one generation more. |
| `PluginLifecycle.ReplaceEnds` | crates/rho-extension-runtime/src/instance.rs:395-443 | Replacing succeeds exactly for the pending candidate of an Active plugin whose digest is the expected one, and ends Active with the candidate. |
| `PluginLifecycle.OthersStay` | crates/rho-extension-runtime/src/instance.rs:251-449 | No operation touches another plugin. |

## Left out

- Fetch.NetworkFetchEngine.Fetch: an error before the first send can be uncertain when the resolver or the authoriser said so itself, as in the code; the model records that in a ghost flag.
- Scopes.ScopeSnapshot.QuiesceAndDispose: a disposal whose future is dropped midway, which leaves no report and visits effects again, is not modelled.
- Scopes.DisposedMeansWholeSubtree: an activation that overlaps the disposal of the same scope is not modelled there; `LeaseProtocol` states over all interleavings when a Disposed scope holds no lease.
- Session.Begin: the encoding of a JSON value is not modelled, so the size of an input or a result is a number given beside the value.
- Real input and output: Wasmtime, reqwest, DNS, timers, the file system, the kernel, the command line and the servers.
- Digests, tokens and UUIDs as bytes; the JSON text and its decoding. A parsed value is a datatype, and numbers compare as reals.
- Text checks: labels, bidi controls, reserved words, header filters, reasons of audit events. Each is one boolean of the model.
- Which addresses are public: each address carries that answer.
- Descriptor fields that the resolver never reads: versions and contribution declarations.
- `ScopeManager::shutdown`, generation numbering and stale-generation checks: short compositions of what is modelled.
- Calls routed through a registry (`call_source`, `call_workspace_tool`, viewers): a lease around an opaque call.
- Diagnostics; a panic is a failed result.
- `evolution.rs`, `gardener.rs`, `builder.rs`, `evaluation.rs`, `observation.rs`, `broker.rs`, `discovery.rs`, `host.rs`, `rho-core`, `rho-protocol`: they would only add easy members.
