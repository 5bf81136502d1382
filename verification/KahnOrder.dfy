/** The min-first Kahn loop that orders one scope's plugins (resolver.rs, `stable_kahn_order`). */
module KahnOrder {
  import opened Basics
  import opened Graphs

  ghost function Predecessors(adj: Adjacency, v: Node): set<Node> {
    set u | u in adj && v in adj[u]
  }

  /** Unprocessed nodes all of whose predecessors are processed. */
  ghost function Ready(adj: Adjacency, done: set<Node>): set<Node> {
    set v | v in adj && v !in done && Predecessors(adj, v) <= done
  }

  /** Every step takes the least ready node, and the steps stop only when none is ready. */
  ghost predicate MinFirst(adj: Adjacency, order: seq<Node>) {
    && Greedy(adj, order)
    && Ready(adj, Elems(order)) == {}
  }

  ghost predicate Greedy(adj: Adjacency, order: seq<Node>) {
    forall k :: 0 <= k < |order| ==> IsLeastReady(adj, Elems(order[..k]), order[k])
  }

  ghost predicate IsLeastReady(adj: Adjacency, done: set<Node>, v: Node) {
    IsLeastOf(Ready(adj, done), v)
  }

  lemma ElemsOfPush(s: seq<Node>, x: Node)
    ensures Elems(s + [x]) == Elems(s) + {x}
  {
  }

  lemma MinFirstIsDistinct(adj: Adjacency, order: seq<Node>)
    requires MinFirst(adj, order)
    ensures Distinct(order) && Elems(order) <= adj.Keys
  {
    forall i, j | 0 <= i < j < |order| ensures order[i] != order[j] {
      assert IsLeastReady(adj, Elems(order[..j]), order[j]);
      assert order[..j][i] == order[i];
    }
    forall x | x in Elems(order) ensures x in adj {
      var k :| 0 <= k < |order| && order[k] == x;
      assert IsLeastReady(adj, Elems(order[..k]), order[k]);
    }
  }

  /** Providers come before consumers in whatever part of the graph the loop reaches. */
  lemma MinFirstRespectsEdges(adj: Adjacency, order: seq<Node>, i: nat, j: nat)
    requires MinFirst(adj, order) && i < |order| && j < |order| && Edge(adj, order[i], order[j])
    ensures i < j
  {
    assert IsLeastReady(adj, Elems(order[..j]), order[j]);
    assert order[i] in Predecessors(adj, order[j]);
    var m :| 0 <= m < j && order[..j][m] == order[i];
    MinFirstIsDistinct(adj, order);
  }

  /** The loop reaches every plugin exactly when the graph is acyclic. */
  lemma CompleteIffAcyclic(adj: Adjacency, order: seq<Node>)
    requires TargetsAreNodes(adj) && MinFirst(adj, order)
    ensures Acyclic(adj) <==> Elems(order) == adj.Keys
    ensures Acyclic(adj) ==> TopologicalOrder(adj, order)
  {
    MinFirstIsDistinct(adj, order);
    forall i, j | 0 <= i < |order| && 0 <= j < |order| && Edge(adj, order[i], order[j]) ensures i < j {
      MinFirstRespectsEdges(adj, order, i, j);
    }
    if Elems(order) == adj.Keys {
      TopologicalMeansAcyclic(adj, order);
    } else {
      var stuck := adj.Keys - Elems(order);
      forall v | v in stuck ensures HasPredecessorIn(adj, stuck, v) {
        assert v !in Ready(adj, Elems(order));
        var u :| u in Predecessors(adj, v) && u !in Elems(order);
        assert u in stuck && Edge(adj, u, v);
      }
      DifferenceEmpty(adj.Keys, Elems(order));
      var v := Inhabited(stuck);
      PredecessorsForceACycle(adj, stuck, [v]);
    }
  }

  lemma {:induction false} FirstDifference(a: seq<Node>, b: seq<Node>) returns (k: nat)
    requires |a| == |b| && a != b
    ensures k < |a| && a[..k] == b[..k] && a[k] != b[k]
  {
    if a[0] != b[0] { return 0; }
    assert a[1..] != b[1..] by {
      assert a == [a[0]] + a[1..] && b == [b[0]] + b[1..];
    }
    var m := FirstDifference(a[1..], b[1..]);
    k := m + 1;
    assert a[..k] == [a[0]] + a[1..][..m] && b[..k] == [b[0]] + b[1..][..m];
  }

  /** Among all topological orders the loop's result is the lexicographically least. */
  lemma MinFirstIsLexLeast(adj: Adjacency, order: seq<Node>, other: seq<Node>)
    requires TargetsAreNodes(adj) && MinFirst(adj, order) && TopologicalOrder(adj, other)
    ensures other == order || LexLess(order, other)
  {
    TopologicalMeansAcyclic(adj, other);
    CompleteIffAcyclic(adj, order);
    DistinctSize(order);
    DistinctSize(other);
    if other != order {
      var k := FirstDifference(order, other);
      assert IsLeastReady(adj, Elems(order[..k]), order[k]);
      assert other[k] in Ready(adj, Elems(order[..k])) by {
        assert other[k] in Elems(other);
        assert other[k] !in other[..k];
        forall u | u in Predecessors(adj, other[k]) ensures u in order[..k] {
          assert u in Elems(other);
          var i :| 0 <= i < |other| && other[i] == u;
          assert Edge(adj, other[i], other[k]);
          assert other[..k][i] == u;
        }
      }
      LexLessAt(order, other, k);
    }
  }

  /** How many distinct predecessors of `v` lie outside `done`. */
  ghost function Open(adj: Adjacency, v: Node, done: set<Node>): nat {
    |Predecessors(adj, v) - done|
  }

  lemma OpenStep(adj: Adjacency, v: Node, done: set<Node>, p: Node)
    requires p in adj && p !in done
    ensures Open(adj, v, done) == Open(adj, v, done + {p}) + if v in adj[p] then 1 else 0
  {
    var before, after := Predecessors(adj, v) - done, Predecessors(adj, v) - (done + {p});
    if v in adj[p] {
      assert p in before && after == before - {p};
    } else {
      assert after == before;
    }
  }

  lemma ReadyIffNoneOpen(adj: Adjacency, v: Node, done: set<Node>)
    requires v in adj && v !in done
    ensures v in Ready(adj, done) <==> Open(adj, v, done) == 0
  {
    DifferenceEmpty(Predecessors(adj, v), done);
  }

  ghost predicate CountIs(degree: map<Node, int>, v: Node, sources: set<Node>)
    requires v in degree
  {
    degree[v] == |sources|
  }

  ghost predicate CountsOpen(adj: Adjacency, degree: map<Node, int>, done: set<Node>) {
    && degree.Keys == adj.Keys
    && forall v {:trigger CountIs(degree, v, Predecessors(adj, v) - done)} :: v in adj ==>
         CountIs(degree, v, Predecessors(adj, v) - done)
  }

  /** Distinct predecessors of `v` among the sources counted so far. */
  ghost function CountedPredecessors(adj: Adjacency, v: Node, counted: set<Node>): set<Node> {
    set u | u in counted && Edge(adj, u, v)
  }

  ghost predicate CountsSources(adj: Adjacency, degree: map<Node, int>, counted: set<Node>) {
    && degree.Keys == adj.Keys
    && forall v {:trigger CountIs(degree, v, CountedPredecessors(adj, v, counted))} :: v in adj ==>
         CountIs(degree, v, CountedPredecessors(adj, v, counted))
  }

  lemma CountSourceStep(adj: Adjacency, v: Node, counted: set<Node>, u: Node)
    requires u in adj && u !in counted
    ensures |CountedPredecessors(adj, v, counted + {u})| ==
            |CountedPredecessors(adj, v, counted)| + if v in adj[u] then 1 else 0
  {
    var before, after := CountedPredecessors(adj, v, counted), CountedPredecessors(adj, v, counted + {u});
    if v in adj[u] {
      assert after == before + {u};
    } else {
      assert after == before;
    }
  }

  /** Counting the source `u` adds one to the in-degree of each of its targets. */
  lemma CountsAfterSource(adj: Adjacency, degree: map<Node, int>, degree': map<Node, int>, counted: set<Node>, u: Node)
    requires u in adj && u !in counted && CountsSources(adj, degree, counted) && degree'.Keys == adj.Keys
    requires forall v {:trigger degree'[v]} :: v in adj ==> degree'[v] == degree[v] + if v in adj[u] then 1 else 0
    ensures CountsSources(adj, degree', counted + {u})
  {
    forall v | v in adj ensures CountIs(degree', v, CountedPredecessors(adj, v, counted + {u})) {
      assert CountIs(degree, v, CountedPredecessors(adj, v, counted));
      CountSourceStep(adj, v, counted, u);
    }
  }

  lemma AllSourcesCounted(adj: Adjacency, degree: map<Node, int>)
    requires CountsSources(adj, degree, adj.Keys)
    ensures CountsOpen(adj, degree, {})
  {
    forall v | v in adj ensures CountIs(degree, v, Predecessors(adj, v) - {}) {
      assert CountIs(degree, v, CountedPredecessors(adj, v, adj.Keys));
      assert CountedPredecessors(adj, v, adj.Keys) == Predecessors(adj, v) - {};
    }
  }

  /** Processing `p` takes one from the count of each of its targets and never underflows. */
  lemma CountsBeforeProcessing(adj: Adjacency, degree: map<Node, int>, done: set<Node>, p: Node, v: Node)
    requires p in adj && p !in done && CountsOpen(adj, degree, done) && v in adj && v in adj[p]
    ensures degree[v] > 0
  {
    assert CountIs(degree, v, Predecessors(adj, v) - done);
    OpenStep(adj, v, done, p);
  }

  lemma CountsAfterProcessing(adj: Adjacency, degree: map<Node, int>, degree': map<Node, int>, done: set<Node>, p: Node)
    requires p in adj && p !in done && CountsOpen(adj, degree, done) && degree'.Keys == adj.Keys
    requires forall v {:trigger degree'[v]} :: v in adj ==> degree'[v] == degree[v] - if v in adj[p] then 1 else 0
    ensures CountsOpen(adj, degree', done + {p})
  {
    forall v | v in adj ensures CountIs(degree', v, Predecessors(adj, v) - (done + {p})) {
      assert CountIs(degree, v, Predecessors(adj, v) - done);
      OpenStep(adj, v, done, p);
    }
  }

  /** One pass over `adj[u]`, in ascending order, adding `u` to the in-degree of each target. */
  method CountSource(adj: Adjacency, degree: map<Node, int>, u: Node) returns (degree': map<Node, int>)
    requires TargetsAreNodes(adj) && u in adj && degree.Keys == adj.Keys
    ensures degree'.Keys == adj.Keys
    ensures forall v {:trigger degree'[v]} :: v in adj ==> degree'[v] == degree[v] + if v in adj[u] then 1 else 0
  {
    degree' := degree;
    var targets := adj[u];
    while targets != {}
      invariant targets <= adj[u] && degree'.Keys == adj.Keys
      invariant forall v {:trigger degree'[v]} :: v in adj ==> degree'[v] == degree[v] + if v in adj[u] - targets then 1 else 0
    {
      var t := Least(targets);
      targets := targets - {t};
      degree' := degree'[t := degree'[t] + 1];
    }
  }

  method ZeroDegrees(adj: Adjacency) returns (degree: map<Node, int>)
    ensures CountsSources(adj, degree, {})
  {
    degree := map v | v in adj :: 0;
    forall v | v in adj ensures CountedPredecessors(adj, v, {}) == {} {}
  }

  lemma ListedOnce(s: set<Node>, i: nat)
    requires i < |Ascending(s)|
    ensures var l := Ascending(s);
            l[i] in s && l[i] !in Elems(l[..i]) && Elems(l[..i+1]) == Elems(l[..i]) + {l[i]}
  {
    var l := Ascending(s);
    assert l[i] in l && l[..i+1] == l[..i] + [l[i]];
    ElemsOfPush(l[..i], l[i]);
  }

  method InDegrees(adj: Adjacency) returns (degree: map<Node, int>)
    requires TargetsAreNodes(adj)
    ensures CountsOpen(adj, degree, {})
  {
    degree := ZeroDegrees(adj);
    var sources := Ascending(adj.Keys);
    ghost var counted: set<Node> := {};
    for i := 0 to |sources|
      invariant counted == Elems(sources[..i]) && CountsSources(adj, degree, counted)
    {
      ListedOnce(adj.Keys, i);
      var degree' := CountSource(adj, degree, sources[i]);
      CountsAfterSource(adj, degree, degree', counted, sources[i]);
      degree, counted := degree', counted + {sources[i]};
    }
    assert sources[..|sources|] == sources && Elems(sources) == adj.Keys;
    AllSourcesCounted(adj, degree);
  }

  /** The decrement loop: `*degree -= 1` on each dependent of `p`, those reaching zero become ready. */
  method Decrement(adj: Adjacency, degree: map<Node, int>, ready: set<Node>, p: Node)
    returns (degree': map<Node, int>, ready': set<Node>)
    requires TargetsAreNodes(adj) && p in adj && degree.Keys == adj.Keys
    requires forall v {:trigger degree[v]} :: v in adj[p] ==> degree[v] > 0
    ensures degree'.Keys == adj.Keys
    ensures forall v {:trigger degree'[v]} :: v in adj ==> degree'[v] == degree[v] - if v in adj[p] then 1 else 0
    ensures forall v {:trigger v in ready'} :: v in ready' <==> v in ready || (v in adj[p] && degree'[v] == 0)
  {
    degree', ready' := degree, ready;
    var targets := adj[p];
    while targets != {}
      invariant targets <= adj[p] && degree'.Keys == adj.Keys
      invariant forall v {:trigger degree'[v]} :: v in adj ==> degree'[v] == degree[v] - if v in adj[p] - targets then 1 else 0
      invariant forall v {:trigger v in ready'} :: v in ready' <==> v in ready || (v in adj[p] - targets && degree'[v] == 0)
    {
      var d := Least(targets);
      targets := targets - {d};
      degree' := degree'[d := degree'[d] - 1];
      if degree'[d] == 0 {
        ready' := ready' + {d};
      }
    }
  }

  /** A processed node has only processed predecessors. */
  ghost predicate PredecessorClosed(adj: Adjacency, done: set<Node>) {
    forall w {:trigger Predecessors(adj, w)} :: w in done ==> Predecessors(adj, w) <= done
  }

  method InitiallyReady(adj: Adjacency, degree: map<Node, int>) returns (ready: set<Node>)
    requires CountsOpen(adj, degree, {})
    ensures ready == Ready(adj, {})
  {
    ready := set v | v in degree && degree[v] == 0;
    forall v {:trigger v in ready} | v in adj ensures v in ready <==> v in Ready(adj, {}) {
      assert CountIs(degree, v, Predecessors(adj, v) - {});
      ReadyIffNoneOpen(adj, v, {});
    }
  }

  lemma ReadyAfterAt(adj: Adjacency, done: set<Node>, p: Node, v: Node)
    requires p in Ready(adj, done) && PredecessorClosed(adj, done) && v in adj
    ensures v in Ready(adj, done + {p}) <==>
              (v in Ready(adj, done) && v != p) || (v in adj[p] && Open(adj, v, done + {p}) == 0)
  {
    if v in adj[p] {
      assert p in Predecessors(adj, v) && v !in done && v != p;
      ReadyIffNoneOpen(adj, v, done + {p});
    } else {
      assert p !in Predecessors(adj, v);
    }
  }

  lemma ReadyAfter(adj: Adjacency, degree: map<Node, int>, ready: set<Node>, done: set<Node>, p: Node)
    requires p in Ready(adj, done) && PredecessorClosed(adj, done) && TargetsAreNodes(adj)
    requires CountsOpen(adj, degree, done + {p})
    requires forall v {:trigger v in ready} :: v in ready <==> v in Ready(adj, done) - {p} || (v in adj[p] && degree[v] == 0)
    ensures ready == Ready(adj, done + {p})
    ensures PredecessorClosed(adj, done + {p})
  {
    forall v {:trigger v in ready} | v in adj ensures v in ready <==> v in Ready(adj, done + {p}) {
      assert CountIs(degree, v, Predecessors(adj, v) - (done + {p}));
      ReadyAfterAt(adj, done, p, v);
    }
  }

  lemma GreedyPush(adj: Adjacency, order: seq<Node>, p: Node)
    requires Greedy(adj, order) && IsLeastReady(adj, Elems(order), p)
    ensures Greedy(adj, order + [p])
  {
    var next := order + [p];
    forall k | 0 <= k < |next| ensures IsLeastReady(adj, Elems(next[..k]), next[k]) {
      if k < |order| {
        assert next[..k] == order[..k];
      } else {
        assert next[..k] == order;
      }
    }
  }

  /** The loop's progress: which nodes are done, which are ready, and the remaining in-degrees. */
  ghost predicate Progress(adj: Adjacency, done: set<Node>, degree: map<Node, int>, ready: set<Node>) {
    && done <= adj.Keys && PredecessorClosed(adj, done)
    && CountsOpen(adj, degree, done)
    && ready == Ready(adj, done)
  }

  lemma ProgressStep(adj: Adjacency, done: set<Node>, degree: map<Node, int>, ready: set<Node>, p: Node,
                     degree': map<Node, int>, ready': set<Node>)
    requires TargetsAreNodes(adj) && Progress(adj, done, degree, ready) && p in ready
    requires degree'.Keys == adj.Keys
    requires forall v {:trigger degree'[v]} :: v in adj ==> degree'[v] == degree[v] - if v in adj[p] then 1 else 0
    requires forall v {:trigger v in ready'} :: v in ready' <==> v in ready - {p} || (v in adj[p] && degree'[v] == 0)
    ensures Progress(adj, done + {p}, degree', ready')
  {
    CountsAfterProcessing(adj, degree, degree', done, p);
    ReadyAfter(adj, degree', ready', done, p);
  }

  method StableKahnOrder(adj: Adjacency) returns (order: seq<Node>)
    requires TargetsAreNodes(adj)
    ensures MinFirst(adj, order)
    ensures Acyclic(adj) <==> Elems(order) == adj.Keys
    ensures Acyclic(adj) ==> TopologicalOrder(adj, order)
    ensures forall other :: TopologicalOrder(adj, other) ==> other == order || LexLess(order, other)
  {
    var degree := InDegrees(adj);
    var ready := InitiallyReady(adj, degree);
    order := [];
    ghost var done: set<Node> := {};
    while ready != {}
      invariant done == Elems(order) && Progress(adj, done, degree, ready) && Greedy(adj, order)
      decreases adj.Keys - done
    {
      var p := Least(ready);
      forall v {:trigger degree[v]} | v in adj[p] ensures degree[v] > 0 {
        CountsBeforeProcessing(adj, degree, done, p, v);
      }
      var degree', ready' := Decrement(adj, degree, ready - {p}, p);
      ProgressStep(adj, done, degree, ready, p, degree', ready');
      GreedyPush(adj, order, p);
      ElemsOfPush(order, p);
      order, degree, ready, done := order + [p], degree', ready', done + {p};
    }
    CompleteIffAcyclic(adj, order);
    forall other | TopologicalOrder(adj, other) ensures other == order || LexLess(order, other) {
      MinFirstIsLexLeast(adj, order, other);
    }
  }
}
