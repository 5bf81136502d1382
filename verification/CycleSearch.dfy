/** The canonical dependency cycle (resolver.rs, `canonical_cycle` and `find_closed_path`). */
module CycleSearch {
  import opened Basics
  import opened Graphs

  /**
   * The strongly connected components of the graph, in any order: what `kosaraju_scc` delivers.
   * Each one is a class of mutually reachable nodes and together they cover the graph.
   */
  ghost predicate AreComponents(adj: Adjacency, components: seq<set<Node>>) {
    && (forall i :: 0 <= i < |components| ==> components[i] != {} && components[i] <= adj.Keys)
    && (forall i, v, w {:trigger components[i], Mutual(adj, v, w)} ::
          0 <= i < |components| && v in components[i] && w in adj ==> (w in components[i] <==> Mutual(adj, v, w)))
    && (forall v {:trigger Covered(components, v)} :: v in adj ==> Covered(components, v))
  }

  ghost predicate Covered(components: seq<set<Node>>, v: Node) {
    exists i :: 0 <= i < |components| && v in components[i]
  }

  predicate IsCyclic(adj: Adjacency, component: set<Node>) {
    |component| > 1 || exists v :: v in component && Edge(adj, v, v)
  }

  /** Some closed walk passes through `v`. */
  ghost predicate OnACycle(adj: Adjacency, v: Node) {
    exists p :: ClosedWalk(adj, p) && v in p
  }

  ghost predicate LeastOnAnyCycle(adj: Adjacency, v: Node) {
    OnACycle(adj, v) && forall w :: OnACycle(adj, w) ==> !Precedes(w, v)
  }

  /** `c` is least among the simple cycles that start where it starts. */
  ghost predicate LexLeastCycle(adj: Adjacency, c: seq<Node>) {
    SimpleCycle(adj, c) && forall d :: SimpleCycle(adj, d) && d[0] == c[0] ==> d == c || LexLess(c, d)
  }

  /** A simple cycle inside `allowed` that begins with `prefix` and goes on beyond it. */
  ghost predicate Closes(adj: Adjacency, allowed: set<Node>, prefix: seq<Node>, c: seq<Node>) {
    && SimpleCycle(adj, c) && Elems(c) <= allowed
    && |prefix| < |c| && c[..|prefix|] == prefix
  }

  /** The backtracking search, with the path and the on-path set that it mutates. */
  class Search {
    const adj: Adjacency
    const allowed: set<Node>
    const start: Node
    var path: seq<Node>
    var onPath: set<Node>

    ghost predicate Valid()
      reads this
    {
      && TargetsAreNodes(adj) && allowed <= adj.Keys
      && path != [] && path[0] == start
      && onPath == Elems(path) && onPath <= allowed
      && Distinct(path) && Walk(adj, path)
    }

    constructor (adj: Adjacency, allowed: set<Node>, start: Node)
      requires TargetsAreNodes(adj) && allowed <= adj.Keys && start in allowed
      ensures Valid()
      ensures this.adj == adj && this.allowed == allowed && this.start == start && path == [start]
    {
      this.adj, this.allowed, this.start := adj, allowed, start;
      path, onPath := [start], {start};
    }

    /**
     * Either no simple cycle continues the current path and the path is as before, or the result is the
     * lexicographically least one that does.
     */
    method FindClosedPath(current: Node) returns (found: Option<seq<Node>>)
      requires Valid() && current == path[|path|-1]
      modifies this
      ensures found.None? ==> path == old(path) && onPath == old(onPath)
      ensures found.None? ==> forall c :: !Closes(adj, allowed, old(path), c)
      ensures found.Some? ==> Closes(adj, allowed, old(path), found.value)
      ensures found.Some? ==>
        forall c :: Closes(adj, allowed, old(path), c) ==> c == found.value || LexLess(found.value, c)
      decreases allowed - onPath
    {
      var rest := adj[current];
      forall c | Closes(adj, allowed, path, c) ensures c[|path|] in rest {
        FollowsAnEdge(adj, allowed, path, c);
      }
      while rest != {}
        invariant rest <= adj[current] && path == old(path) && onPath == old(onPath)
        invariant forall v, w :: v in adj[current] - rest && w in rest ==> Precedes(v, w)
        invariant forall c :: Closes(adj, allowed, path, c) ==> c[|path|] in rest
      {
        var next := Least(rest);
        ghost var before := rest;
        rest := rest - {next};
        if next !in allowed {
          NotThrough(adj, allowed, path, before, next);
          continue;
        }
        if next == start {
          found := Some(path + [start]);
          ClosedBack(adj, allowed, path);
          ClosingStep(adj, allowed, path, before);
          return;
        }
        if next !in onPath {
          ExtendedPath(adj, path, next);
          path, onPath := path + [next], onPath + {next};
          found := FindClosedPath(next);
          if found.Some? {
            LeastThroughNext(adj, allowed, old(path), before, next, found.value);
            return;
          }
          NoneThroughNext(adj, allowed, old(path), before, next);
          path, onPath := path[..|path|-1], onPath - {next};
        } else {
          NotThrough(adj, allowed, path, before, next);
        }
      }
      found := None;
    }
  }

  lemma FollowsAnEdge(adj: Adjacency, allowed: set<Node>, path: seq<Node>, c: seq<Node>)
    requires path != [] && Closes(adj, allowed, path, c)
    ensures Edge(adj, path[|path|-1], c[|path|])
  {
    assert path[|path|-1] == c[..|path|][|path|-1] == c[|path|-1];
    assert Edge(adj, c[|path|-1], c[|path|-1+1]);
  }

  lemma StillCloses(adj: Adjacency, allowed: set<Node>, path: seq<Node>, next: Node, c: seq<Node>)
    requires path != [] && next != path[0]
    requires Closes(adj, allowed, path, c) && c[|path|] == next
    ensures Closes(adj, allowed, path + [next], c)
  {
    assert c[0] == c[..|path|][0];
    assert c[..|path|+1] == c[..|path|] + [c[|path|]];
  }

  /** The node after the prefix is either new or, at the very end, the start again. */
  lemma NextIsNewOrStart(adj: Adjacency, allowed: set<Node>, path: seq<Node>, c: seq<Node>)
    requires path != [] && Closes(adj, allowed, path, c)
    ensures c[|path|] in allowed
    ensures if |path| == |c| - 1 then c == path + [path[0]] else c[|path|] !in path
  {
    assert c[|path|] in Elems(c);
    assert c[0] == c[..|path|][0];
    if |path| == |c| - 1 {
      assert c == c[..|path|] + [c[|path|]];
    } else {
      var body := c[..|c|-1];
      forall i | 0 <= i < |path| ensures path[i] != c[|path|] {
        assert path[i] == c[..|path|][i] == body[i];
        assert body[i] != body[|path|];
      }
    }
  }

  lemma NotThrough(adj: Adjacency, allowed: set<Node>, path: seq<Node>, rest: set<Node>, next: Node)
    requires path != [] && Distinct(path)
    requires forall c :: Closes(adj, allowed, path, c) ==> c[|path|] in rest
    requires next !in allowed || (next in path && next != path[0])
    ensures forall c :: Closes(adj, allowed, path, c) ==> c[|path|] in rest - {next}
  {
    forall c | Closes(adj, allowed, path, c) ensures c[|path|] != next {
      NextIsNewOrStart(adj, allowed, path, c);
    }
  }

  lemma ExtendedPath(adj: Adjacency, path: seq<Node>, next: Node)
    requires path != [] && Distinct(path) && Walk(adj, path) && next !in path && Edge(adj, path[|path|-1], next)
    ensures Distinct(path + [next]) && Walk(adj, path + [next]) && Elems(path + [next]) == Elems(path) + {next}
  {
    var q := path + [next];
    forall i | 0 <= i < |q| - 1 ensures Edge(adj, q[i], q[i+1]) {
      if i < |path| - 1 { assert Edge(adj, path[i], path[i+1]); }
    }
  }

  lemma ClosedBack(adj: Adjacency, allowed: set<Node>, path: seq<Node>)
    requires path != [] && Distinct(path) && Walk(adj, path) && Elems(path) <= allowed
    requires Edge(adj, path[|path|-1], path[0])
    ensures Closes(adj, allowed, path, path + [path[0]])
  {
    var q := path + [path[0]];
    forall i | 0 <= i < |q| - 1 ensures Edge(adj, q[i], q[i+1]) {
      if i < |path| - 1 { assert Edge(adj, path[i], path[i+1]); }
    }
    assert q[..|q|-1] == path && q[..|path|] == path;
    assert path[0] in Elems(path);
    assert Elems(q) == Elems(path);
  }

  /** Reaching the start closes the path at once; every other continuation is larger. */
  lemma ClosingStep(adj: Adjacency, allowed: set<Node>, path: seq<Node>, rest: set<Node>)
    requires path != [] && IsLeastOf(rest, path[0])
    requires forall c :: Closes(adj, allowed, path, c) ==> c[|path|] in rest
    ensures forall c :: Closes(adj, allowed, path, c) ==> c == path + [path[0]] || LexLess(path + [path[0]], c)
  {
    var q := path + [path[0]];
    assert q[..|path|] == path;
    forall c | Closes(adj, allowed, path, c) ensures c == q || LexLess(q, c) {
      NextIsNewOrStart(adj, allowed, path, c);
      if c != q {
        assert path[0] in path;
        LexLessAt(q, c, |path|);
      }
    }
  }

  /** What the recursive call found beyond `next` is least among all continuations. */
  lemma LeastThroughNext(adj: Adjacency, allowed: set<Node>, path: seq<Node>, rest: set<Node>, next: Node, found: seq<Node>)
    requires IsLeastOf(rest, next) && path != [] && next != path[0]
    requires forall c :: Closes(adj, allowed, path, c) ==> c[|path|] in rest
    requires Closes(adj, allowed, path + [next], found)
    requires forall c :: Closes(adj, allowed, path + [next], c) ==> c == found || LexLess(found, c)
    ensures Closes(adj, allowed, path, found)
    ensures forall c :: Closes(adj, allowed, path, c) ==> c == found || LexLess(found, c)
  {
    var q := path + [next];
    assert found[..|path|] == found[..|q|][..|path|] == path;
    assert found[|path|] == found[..|q|][|path|] == next;
    forall c | Closes(adj, allowed, path, c) ensures c == found || LexLess(found, c) {
      if c[|path|] == next {
        StillCloses(adj, allowed, path, next, c);
      } else {
        LexLessAt(found, c, |path|);
      }
    }
  }

  lemma NoneThroughNext(adj: Adjacency, allowed: set<Node>, path: seq<Node>, rest: set<Node>, next: Node)
    requires path != [] && next != path[0]
    requires forall c :: Closes(adj, allowed, path, c) ==> c[|path|] in rest
    requires forall c :: !Closes(adj, allowed, path + [next], c)
    ensures forall c :: Closes(adj, allowed, path, c) ==> c[|path|] in rest - {next}
  {
    forall c | Closes(adj, allowed, path, c) ensures c[|path|] != next {
      if c[|path|] == next { StillCloses(adj, allowed, path, next, c); }
    }
  }

  /** A node lies on a cycle exactly when its component is cyclic. */
  lemma CyclicComponent(adj: Adjacency, components: seq<set<Node>>, i: nat, v: Node)
    requires TargetsAreNodes(adj) && AreComponents(adj, components) && i < |components| && v in components[i]
    ensures IsCyclic(adj, components[i]) <==> OnACycle(adj, v)
    ensures IsCyclic(adj, components[i]) ==> exists p :: ClosedWalk(adj, p) && p[0] == v
  {
    var component := components[i];
    if IsCyclic(adj, component) {
      if component == {v} {
        assert ClosedWalk(adj, [v, v]) && [v, v][0] == v;
      } else {
        DifferenceEmpty(component, {v});
        var w := Inhabited(component - {v});
        assert Mutual(adj, v, w);
        var p :| WalkBetween(adj, p, v, w);
        var q :| WalkBetween(adj, q, w, v);
        JoinWalks(adj, p, q, v, w, v);
        var r := p + q[1..];
        assert ClosedWalk(adj, r) && r[0] == v && r[0] in r;
      }
    }
    if OnACycle(adj, v) {
      var p :| ClosedWalk(adj, p) && v in p;
      var k :| 0 <= k < |p| && p[k] == v;
      var m := if k < |p| - 1 then k + 1 else 1;
      assert Edge(adj, p[m-1], p[m-1+1]) && p[m-1] == v;
      ClosedWalkIsMutual(adj, p, k, m);
      ClosedWalkIsMutual(adj, p, m, k);
      assert Mutual(adj, v, p[m]) && p[m] in component;
      if p[m] != v { SubsetSize({v, p[m]}, component); }
    }
  }

  /** Every simple cycle through a node stays inside the node's component. */
  lemma CycleInsideComponent(adj: Adjacency, components: seq<set<Node>>, i: nat, c: seq<Node>)
    requires TargetsAreNodes(adj) && AreComponents(adj, components) && i < |components|
    requires SimpleCycle(adj, c) && c[0] in components[i]
    ensures Elems(c) <= components[i]
  {
    forall x | x in Elems(c) ensures x in components[i] {
      var k :| 0 <= k < |c| && c[k] == x;
      ClosedWalkIsMutual(adj, c, 0, k);
      ClosedWalkIsMutual(adj, c, k, 0);
      if k < |c| - 1 { assert Edge(adj, c[k], c[k+1]); }
      assert Mutual(adj, c[0], x);
    }
  }

  /** Sorted components compare by their first, least, members. */
  lemma HeadsDecide(a: set<Node>, b: set<Node>)
    requires a != {} && b != {}
    requires LexLess(Ascending(a), Ascending(b)) || !LexLess(Ascending(b), Ascending(a))
    ensures !Precedes(Least(b), Least(a))
  {
  }

  lemma NoCyclicComponent(adj: Adjacency, components: seq<set<Node>>)
    requires TargetsAreNodes(adj) && AreComponents(adj, components)
    requires forall j :: 0 <= j < |components| ==> !IsCyclic(adj, components[j])
    ensures Acyclic(adj)
  {
    forall p ensures !ClosedWalk(adj, p) {
      if ClosedWalk(adj, p) {
        var i := ComponentOnWalk(adj, components, p, 0);
        assert false;
      }
    }
  }

  /** A node of a closed walk belongs to a cyclic component. */
  lemma ComponentOnWalk(adj: Adjacency, components: seq<set<Node>>, p: seq<Node>, k: nat) returns (i: nat)
    requires TargetsAreNodes(adj) && AreComponents(adj, components) && ClosedWalk(adj, p) && k < |p|
    ensures i < |components| && p[k] in components[i] && IsCyclic(adj, components[i])
  {
    assert Edge(adj, p[0], p[0+1]);
    if k < |p| - 1 { assert Edge(adj, p[k], p[k+1]); }
    assert p[k] in adj && p[k] in p && Covered(components, p[k]);
    i :| 0 <= i < |components| && p[k] in components[i];
    CyclicComponent(adj, components, i, p[k]);
  }

  lemma HeadIsLeastOnAnyCycle(adj: Adjacency, components: seq<set<Node>>, at: nat)
    requires TargetsAreNodes(adj) && AreComponents(adj, components)
    requires at < |components| && IsCyclic(adj, components[at])
    requires forall j :: 0 <= j < |components| && IsCyclic(adj, components[j]) ==>
      !Precedes(Least(components[j]), Least(components[at]))
    ensures LeastOnAnyCycle(adj, Least(components[at]))
  {
    CyclicComponent(adj, components, at, Least(components[at]));
    forall w | OnACycle(adj, w) ensures !Precedes(w, Least(components[at])) {
      var p :| ClosedWalk(adj, p) && w in p;
      var k :| 0 <= k < |p| && p[k] == w;
      var i := ComponentOnWalk(adj, components, p, k);
      assert !Precedes(w, Least(components[i]));
    }
  }

  /** The search from the least member of a cyclic component succeeds and its result is canonical. */
  lemma FoundIsCanonical(adj: Adjacency, components: seq<set<Node>>, at: nat, start: Node, found: Option<seq<Node>>)
    requires TargetsAreNodes(adj) && AreComponents(adj, components)
    requires at < |components| && IsCyclic(adj, components[at]) && start in components[at]
    requires found.None? ==> forall c :: !Closes(adj, components[at], [start], c)
    requires found.Some? ==> Closes(adj, components[at], [start], found.value)
    requires found.Some? ==>
      forall c :: Closes(adj, components[at], [start], c) ==> c == found.value || LexLess(found.value, c)
    ensures found.Some? && LexLeastCycle(adj, found.value) && found.value[0] == start
  {
    CyclicComponent(adj, components, at, start);
    var p :| ClosedWalk(adj, p) && p[0] == start;
    var c := CutToSimpleCycle(adj, p);
    forall d | SimpleCycle(adj, d) && d[0] == start ensures Closes(adj, components[at], [start], d) {
      CycleInsideComponent(adj, components, at, d);
    }
    assert Closes(adj, components[at], [start], c);
    assert found.value[..1][0] == start;
  }

  /**
   * No cycle is reported exactly when the graph is acyclic. Otherwise the report starts at the least
   * plugin that lies on any cycle and is least among the simple cycles through it, in whatever order
   * the components were delivered.
   */
  method CanonicalCycle(adj: Adjacency, components: seq<set<Node>>) returns (cycle: Option<seq<Node>>)
    requires TargetsAreNodes(adj) && AreComponents(adj, components)
    ensures cycle.None? <==> Acyclic(adj)
    ensures cycle.Some? ==> LexLeastCycle(adj, cycle.value) && LeastOnAnyCycle(adj, cycle.value[0])
  {
    var first: Option<set<Node>> := None;
    ghost var at := 0;
    for i := 0 to |components|
      invariant first.None? ==> forall j :: 0 <= j < i ==> !IsCyclic(adj, components[j])
      invariant first.Some? ==> at < i && first.value == components[at] && IsCyclic(adj, first.value)
      invariant first.Some? ==> forall j :: 0 <= j < i && IsCyclic(adj, components[j]) ==>
        !Precedes(Least(components[j]), Least(first.value))
    {
      var component := components[i];
      if IsCyclic(adj, component) {
        if first.None? || LexLess(Ascending(component), Ascending(first.value)) {
          if first.Some? { HeadsDecide(component, first.value); }
          first, at := Some(component), i;
        } else {
          HeadsDecide(first.value, component);
        }
      }
    }
    if first.None? {
      cycle := None;
      NoCyclicComponent(adj, components);
      return;
    }
    var start := Ascending(first.value)[0];
    HeadIsLeastOnAnyCycle(adj, components, at);
    var search := new Search(adj, first.value, start);
    cycle := search.FindClosedPath(start);
    FoundIsCanonical(adj, components, at, start, cycle);
  }
}
