/** Directed graphs over ordered identifiers: walks, cycles and topological orders. */
module Graphs {
  import opened Basics

  type Node = Id

  /** `BTreeMap<PluginId, BTreeSet<PluginId>>`: the targets of each node. */
  type Adjacency = map<Node, set<Node>>

  ghost predicate TargetsAreNodes(adj: Adjacency) {
    forall u :: u in adj ==> adj[u] <= adj.Keys
  }

  predicate Edge(adj: Adjacency, u: Node, v: Node) { u in adj && v in adj[u] }

  ghost predicate Walk(adj: Adjacency, p: seq<Node>) {
    forall i :: 0 <= i < |p| - 1 ==> Edge(adj, p[i], p[i+1])
  }

  ghost predicate ClosedWalk(adj: Adjacency, p: seq<Node>) {
    |p| >= 2 && p[0] == p[|p|-1] && Walk(adj, p)
  }

  ghost predicate Acyclic(adj: Adjacency) { forall p :: !ClosedWalk(adj, p) }

  /** A closed walk that visits no node twice, its two ends excepted. */
  ghost predicate SimpleCycle(adj: Adjacency, p: seq<Node>) {
    ClosedWalk(adj, p) && Distinct(p[..|p|-1])
  }

  ghost predicate TopologicalOrder(adj: Adjacency, order: seq<Node>) {
    && Distinct(order) && Elems(order) == adj.Keys
    && forall i, j :: 0 <= i < |order| && 0 <= j < |order| && Edge(adj, order[i], order[j]) ==> i < j
  }

  ghost predicate WalkBetween(adj: Adjacency, p: seq<Node>, u: Node, v: Node) {
    p != [] && p[0] == u && p[|p|-1] == v && Walk(adj, p)
  }

  ghost predicate Reaches(adj: Adjacency, u: Node, v: Node) {
    exists p :: WalkBetween(adj, p, u, v)
  }

  ghost predicate Mutual(adj: Adjacency, u: Node, v: Node) {
    Reaches(adj, u, v) && Reaches(adj, v, u)
  }

  lemma JoinWalks(adj: Adjacency, p: seq<Node>, q: seq<Node>, u: Node, v: Node, w: Node)
    requires WalkBetween(adj, p, u, v) && WalkBetween(adj, q, v, w)
    ensures WalkBetween(adj, p + q[1..], u, w)
  {
    var r := p + q[1..];
    forall i | 0 <= i < |r| - 1 ensures Edge(adj, r[i], r[i+1]) {
      if i < |p| - 1 {
        assert Edge(adj, p[i], p[i+1]);
      } else {
        var k := i - (|p| - 1);
        assert r[i] == q[k] && r[i+1] == q[k+1];
      }
    }
  }

  lemma SubWalk(adj: Adjacency, p: seq<Node>, i: nat, j: nat)
    requires Walk(adj, p) && i <= j < |p|
    ensures WalkBetween(adj, p[i..j+1], p[i], p[j])
  {
    var q := p[i..j+1];
    forall k | 0 <= k < |q| - 1 ensures Edge(adj, q[k], q[k+1]) {
      assert q[k] == p[i+k] && q[k+1] == p[i+k+1];
    }
  }

  /** All nodes of a closed walk reach one another. */
  lemma ClosedWalkIsMutual(adj: Adjacency, p: seq<Node>, i: nat, j: nat)
    requires ClosedWalk(adj, p) && i < |p| && j < |p|
    ensures Reaches(adj, p[i], p[j])
  {
    var n := |p| - 1;
    SubWalk(adj, p, i, n);
    SubWalk(adj, p, 0, j);
    JoinWalks(adj, p[i..n+1], p[0..j+1], p[i], p[0], p[j]);
  }

  /** Any closed walk through `p[0]` contains a simple cycle through `p[0]` that uses only its nodes. */
  lemma {:induction false} CutToSimpleCycle(adj: Adjacency, p: seq<Node>) returns (c: seq<Node>)
    requires ClosedWalk(adj, p)
    ensures SimpleCycle(adj, c) && c[0] == p[0] && Elems(c) <= Elems(p)
    decreases |p|
  {
    if Distinct(p[..|p|-1]) { return p; }
    var i, j :| 0 <= i < j < |p| - 1 && p[..|p|-1][i] == p[..|p|-1][j];
    var n := |p| - 1;
    SubWalk(adj, p, 0, i);
    SubWalk(adj, p, j, n);
    JoinWalks(adj, p[0..i+1], p[j..n+1], p[0], p[i], p[n]);
    c := CutToSimpleCycle(adj, p[0..i+1] + p[j..n+1][1..]);
  }

  ghost predicate HasPredecessorIn(adj: Adjacency, s: set<Node>, v: Node) {
    exists u :: u in s && Edge(adj, u, v)
  }

  /**
   * If every node of a nonempty set has a predecessor inside the set, following predecessors
   * backwards from `p[0]` must close a walk.
   */
  lemma {:induction false} PredecessorsForceACycle(adj: Adjacency, s: set<Node>, p: seq<Node>)
    requires forall v {:trigger HasPredecessorIn(adj, s, v)} :: v in s ==> HasPredecessorIn(adj, s, v)
    requires p != [] && Elems(p) <= s && Walk(adj, p)
    ensures !Acyclic(adj)
    decreases s - Elems(p)
  {
    assert p[0] in Elems(p) && HasPredecessorIn(adj, s, p[0]);
    var u :| u in s && Edge(adj, u, p[0]);
    var q := [u] + p;
    WalkFrom(adj, u, p);
    if u in p {
      var i :| 0 <= i < |p| && p[i] == u;
      SubWalk(adj, q, 0, i + 1);
      assert ClosedWalk(adj, q[0..i+2]);
    } else {
      assert u in s - Elems(p) && u !in s - Elems(q);
      PredecessorsForceACycle(adj, s, q);
    }
  }

  lemma WalkFrom(adj: Adjacency, u: Node, p: seq<Node>)
    requires p != [] && Walk(adj, p) && Edge(adj, u, p[0])
    ensures Walk(adj, [u] + p) && Elems([u] + p) == {u} + Elems(p)
  {
    var q := [u] + p;
    forall i | 0 <= i < |q| - 1 ensures Edge(adj, q[i], q[i+1]) {
      if i > 0 { assert Edge(adj, p[i-1], p[i-1+1]); }
    }
  }

  /** A topological order leaves no room for a closed walk. */
  lemma TopologicalMeansAcyclic(adj: Adjacency, order: seq<Node>)
    requires TargetsAreNodes(adj) && TopologicalOrder(adj, order)
    ensures Acyclic(adj)
  {
    forall p ensures !ClosedWalk(adj, p) {
      if ClosedWalk(adj, p) {
        var i := PositionsGrow(adj, order, p, |p| - 1);
        assert false;
      }
    }
  }

  lemma {:induction false} PositionsGrow(adj: Adjacency, order: seq<Node>, p: seq<Node>, k: nat) returns (pos: nat)
    requires TargetsAreNodes(adj) && TopologicalOrder(adj, order) && Walk(adj, p) && 1 <= k < |p|
    ensures pos < |order| && order[pos] == p[k]
    ensures forall j :: 0 <= j < |order| && order[j] == p[0] ==> j < pos
  {
    assert Edge(adj, p[k-1], p[k]);
    assert p[k] in Elems(order) && p[k-1] in Elems(order);
    pos :| 0 <= pos < |order| && order[pos] == p[k];
    if k > 1 {
      var before := PositionsGrow(adj, order, p, k - 1);
    }
  }
}
