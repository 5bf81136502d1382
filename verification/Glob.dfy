/** The memoised path-glob matcher (grant.rs, `glob_matches`). */
module Glob {
  import opened Basics

  const STAR: byte := 42
  const QUERY: byte := 63
  const SLASH: byte := 47

  ghost predicate SlashFree(s: Bytes) { forall i :: 0 <= i < |s| ==> s[i] != SLASH }

  /** Bytes taken by the wildcard at the head of `p`: two for `**`, one for `*`. */
  function StarWidth(p: Bytes): nat
    requires p != [] && p[0] == STAR
  {
    if |p| > 1 && p[1] == STAR then 2 else 1
  }

  /**
   * The declarative meaning of a pattern. `*` stands for any slash-free stretch and `**` for any stretch at all,
   * after which a `/` that follows `**` may be dropped. `?` stands for one byte other than `/`; every byte stands for itself.
   */
  ghost predicate Meaning(p: Bytes, v: Bytes)
    decreases |p|
  {
    if p == [] then v == []
    else if p[0] == STAR then
      var w := StarWidth(p);
      exists k :: 0 <= k <= |v| && (w == 2 || SlashFree(v[..k])) && AfterStar(p, w, v[k..])
    else
      v != [] && (p[0] == v[0] || (p[0] == QUERY && v[0] != SLASH)) && Meaning(p[1..], v[1..])
  }

  /** What must match once the wildcard of width `w` has taken its stretch. */
  ghost predicate AfterStar(p: Bytes, w: nat, v: Bytes)
    requires 1 <= w <= 2 && w <= |p|
    decreases |p|, 0
  {
    Meaning(p[w..], v) || (w == 2 && |p| > 2 && p[2] == SLASH && Meaning(p[3..], v))
  }

  /** A wildcard matches either by stopping here or by taking one more byte. */
  lemma StarStep(p: Bytes, v: Bytes)
    requires p != [] && p[0] == STAR
    ensures var w := StarWidth(p);
            Meaning(p, v) <==> AfterStar(p, w, v) || (v != [] && (w == 2 || v[0] != SLASH) && Meaning(p, v[1..]))
  {
    var w := StarWidth(p);
    if Meaning(p, v) {
      var k :| 0 <= k <= |v| && (w == 2 || SlashFree(v[..k])) && AfterStar(p, w, v[k..]);
      if k == 0 {
        assert v[0..] == v;
      } else {
        assert v[1..][k-1..] == v[k..] && v[1..][..k-1] == v[..k][1..];
        assert v[0] == v[..k][0];
      }
    }
    if AfterStar(p, w, v) {
      assert v[0..] == v && SlashFree(v[..0]);
    }
    if v != [] && (w == 2 || v[0] != SLASH) && Meaning(p, v[1..]) {
      var k :| 0 <= k <= |v[1..]| && (w == 2 || SlashFree(v[1..][..k])) && AfterStar(p, w, v[1..][k..]);
      assert v[1..][k..] == v[k+1..] && v[..k+1] == [v[0]] + v[1..][..k];
      assert w == 2 || SlashFree(v[..k+1]);
    }
  }

  /** One recursive search over (pattern index, value index) pairs, with the set of pairs already visited. */
  class Matcher {
    const pattern: Bytes
    const value: Bytes
    var seen: set<(nat, nat)>
    /** How many times `Visit` has been entered. */
    ghost var visits: nat

    constructor (pattern: Bytes, value: Bytes)
      ensures this.pattern == pattern && this.value == value && seen == {} && visits == 0
    {
      this.pattern, this.value := pattern, value;
      seen, visits := {}, 0;
    }

    /** What the pair (i, j) stands for: the rest of the pattern against the rest of the value. */
    ghost predicate Holds(s: (nat, nat)) {
      s.0 <= |pattern| && s.1 <= |value| && Meaning(pattern[s.0..], value[s.1..])
    }

    ghost predicate InGrid()
      reads this
    {
      forall s :: s in seen ==> s.0 <= |pattern| && s.1 <= |value|
    }

    /** Pairs not above the current one in the recursion have been visited only to fail. */
    ghost predicate FailedFrom(i: nat, j: nat)
      reads this
    {
      forall s :: s in seen && s.0 + s.1 >= i + j ==> !Holds(s)
    }

    method Visit(i: nat, j: nat) returns (matched: bool)
      requires i <= |pattern| && j <= |value|
      requires InGrid() && FailedFrom(i, j)
      modifies this
      ensures matched <==> Holds((i, j))
      ensures old(seen) <= seen && InGrid()
      ensures !matched ==> forall s :: s in seen && s !in old(seen) ==> !Holds(s)
      ensures visits - old(visits) <= 1 + 3 * (|seen| - |old(seen)|)
      decreases |pattern| - i + |value| - j, 1
    {
      visits := visits + 1;
      if (i, j) in seen {
        return false;
      }
      seen := seen + {(i, j)};
      if i == |pattern| {
        return j == |value|;
      }
      if pattern[i] == STAR {
        matched := VisitStar(i, j);
      } else {
        matched := VisitByte(i, j);
      }
    }

    /** Pairs after (i, j) have been visited only to fail; (i, j) itself is being visited. */
    ghost predicate FailedAfter(i: nat, j: nat)
      reads this
    {
      forall s :: s in seen && s.0 + s.1 >= i + j && s != (i, j) ==> !Holds(s)
    }

    method VisitStar(i: nat, j: nat) returns (matched: bool)
      requires i < |pattern| && j <= |value| && pattern[i] == STAR
      requires InGrid() && FailedAfter(i, j)
      modifies this
      ensures matched <==> Holds((i, j))
      ensures old(seen) <= seen && InGrid()
      ensures !matched ==> forall s :: s in seen && s !in old(seen) ==> !Holds(s)
      ensures visits - old(visits) <= 3 + 3 * (|seen| - |old(seen)|)
      decreases |pattern| - i + |value| - j, 0
    {
      ghost var p, v := pattern[i..], value[j..];
      StarStep(p, v);
      var double := i + 1 < |pattern| && pattern[i+1] == STAR;
      var next := i + if double then 2 else 1;
      assert p[next-i..] == pattern[next..] && (j < |value| ==> v[1..] == value[j+1..]);
      matched := Visit(next, j);
      if matched { return true; }
      if double && next < |pattern| && pattern[next] == SLASH {
        assert p[3..] == pattern[next+1..];
        matched := Visit(next + 1, j);
        if matched { return true; }
      }
      if j < |value| && (double || value[j] != SLASH) {
        matched := Visit(i, j + 1);
      }
    }

    method VisitByte(i: nat, j: nat) returns (matched: bool)
      requires i < |pattern| && j <= |value| && pattern[i] != STAR
      requires InGrid() && FailedAfter(i, j)
      modifies this
      ensures matched <==> Holds((i, j))
      ensures old(seen) <= seen && InGrid()
      ensures !matched ==> forall s :: s in seen && s !in old(seen) ==> !Holds(s)
      ensures visits - old(visits) <= 3 + 3 * (|seen| - |old(seen)|)
      decreases |pattern| - i + |value| - j, 0
    {
      if j == |value| {
        return false;
      }
      ghost var p, v := pattern[i..], value[j..];
      assert p[1..] == pattern[i+1..] && v[1..] == value[j+1..];
      if pattern[i] == QUERY && value[j] != SLASH {
        matched := Visit(i + 1, j + 1);
        if matched { return true; }
      }
      if pattern[i] == value[j] {
        matched := Visit(i + 1, j + 1);
      } else {
        matched := false;
      }
    }
  }

  ghost function Row(i: nat, n: nat): set<(nat, nat)> { set j: nat | j <= n :: (i, j) }

  /** All index pairs of a pattern of length `m` and a value of length `n`. */
  ghost function Grid(m: nat, n: nat): set<(nat, nat)> {
    if m == 0 then Row(0, n) else Grid(m - 1, n) + Row(m, n)
  }

  lemma {:induction false} RowSize(i: nat, n: nat)
    ensures |Row(i, n)| == n + 1
  {
    if n == 0 {
      assert Row(i, 0) == {(i, 0)};
    } else {
      RowSize(i, n - 1);
      assert Row(i, n) == Row(i, n - 1) + {(i, n)};
    }
  }

  lemma {:induction false} GridMembers(m: nat, n: nat, s: (nat, nat))
    ensures s in Grid(m, n) <==> s.0 <= m && s.1 <= n
  {
    if m > 0 { GridMembers(m - 1, n, s); }
  }

  lemma {:induction false} GridSize(m: nat, n: nat)
    ensures |Grid(m, n)| == (m + 1) * (n + 1)
  {
    RowSize(m, n);
    if m > 0 {
      GridSize(m - 1, n);
      forall s | s in Grid(m - 1, n) ensures s !in Row(m, n) { GridMembers(m - 1, n, s); }
      assert Grid(m - 1, n) !! Row(m, n);
      assert (m + 1) * (n + 1) == m * (n + 1) + (n + 1);
    }
  }

  lemma SeenFitsGrid(seen: set<(nat, nat)>, m: nat, n: nat)
    requires forall s :: s in seen ==> s.0 <= m && s.1 <= n
    ensures |seen| <= (m + 1) * (n + 1)
  {
    forall s | s in seen ensures s in Grid(m, n) { GridMembers(m, n, s); }
    GridSize(m, n);
    SubsetSize(seen, Grid(m, n));
  }

  /** The memoised search decides the declarative meaning, in a number of visits bounded by the grid. */
  method GlobMatches(pattern: Bytes, value: Bytes) returns (matched: bool, ghost visits: nat)
    ensures matched <==> Meaning(pattern, value)
    ensures visits <= 1 + 3 * ((|pattern| + 1) * (|value| + 1))
  {
    var m := new Matcher(pattern, value);
    matched := m.Visit(0, 0);
    visits := m.visits;
    assert pattern[0..] == pattern && value[0..] == value;
    SeenFitsGrid(m.seen, |pattern|, |value|);
  }

  function Slashes(s: Bytes): nat {
    if s == [] then 0 else (if s[0] == SLASH then 1 else 0) + Slashes(s[1..])
  }

  ghost predicate NoDoubleStar(p: Bytes) {
    forall i :: 0 <= i < |p| - 1 ==> !(p[i] == STAR && p[i+1] == STAR)
  }

  lemma {:induction false} SlashesAfter(s: Bytes, k: nat)
    requires k <= |s| && SlashFree(s[..k])
    ensures Slashes(s) == Slashes(s[k..])
  {
    if k == 0 {
      assert s[0..] == s;
    } else {
      assert s[0] == s[..k][0] && s[1..][..k-1] == s[..k][1..] && s[1..][k-1..] == s[k..];
      SlashesAfter(s[1..], k - 1);
    }
  }

  /** Without `**` a pattern cannot cross a directory boundary: slashes match one for one. */
  lemma {:induction false} SameDepth(p: Bytes, v: Bytes)
    requires NoDoubleStar(p) && Meaning(p, v)
    ensures Slashes(p) == Slashes(v)
    decreases |p|
  {
    if p != [] {
      assert NoDoubleStar(p[1..]) by {
        forall i | 0 <= i < |p[1..]| - 1 ensures !(p[1..][i] == STAR && p[1..][i+1] == STAR) {
          assert !(p[i+1] == STAR && p[i+1+1] == STAR);
        }
      }
      if p[0] == STAR {
        assert |p| > 1 ==> !(p[0] == STAR && p[0+1] == STAR);
        var k :| 0 <= k <= |v| && SlashFree(v[..k]) && AfterStar(p, 1, v[k..]);
        SlashesAfter(v, k);
        SameDepth(p[1..], v[k..]);
      } else {
        SameDepth(p[1..], v[1..]);
      }
    }
  }

  /** `**` followed by `/` accepts every value that has some suffix matching the rest, at a component boundary or not. */
  lemma DoubleStarSlashMeansSomeSuffix(rest: Bytes, v: Bytes)
    ensures Meaning([STAR, STAR, SLASH] + rest, v) <==> exists k :: 0 <= k <= |v| && Meaning(rest, v[k..])
  {
    var p := [STAR, STAR, SLASH] + rest;
    assert StarWidth(p) == 2 && p[3..] == rest && p[2..][1..] == rest;
    if Meaning(p, v) {
      var k :| 0 <= k <= |v| && AfterStar(p, 2, v[k..]);
      if !Meaning(rest, v[k..]) {
        var q := p[2..];
        assert q[0] == SLASH && q[1..] == rest && Meaning(q, v[k..]);
        assert v[k..][1..] == v[k+1..];
      }
    }
    if k :| 0 <= k <= |v| && Meaning(rest, v[k..]) {
      assert AfterStar(p, 2, v[k..]);
    }
  }

  ghost predicate Literal(p: Bytes) { forall i :: 0 <= i < |p| ==> p[i] != STAR && p[i] != QUERY }

  /** A literal prefix pins down the same prefix of the value. */
  lemma {:induction false} LiteralPrefix(l: Bytes, p: Bytes, v: Bytes)
    requires Literal(l)
    ensures Meaning(l + p, v) <==> l <= v && Meaning(p, v[|l|..])
    decreases |l|
  {
    if l == [] {
      assert l + p == p && (v[0..] == v);
    } else {
      assert (l + p)[1..] == l[1..] + p;
      if v != [] && v[0] == l[0] {
        LiteralPrefix(l[1..], p, v[1..]);
        assert l <= v <==> l[1..] <= v[1..];
        if l <= v { assert v[1..][|l|-1..] == v[|l|..]; }
      }
    }
  }

  /** `dir/` followed by `*` grants exactly the direct entries of `dir`. */
  lemma DirectoryStar(dir: Bytes, v: Bytes)
    requires Literal(dir)
    ensures Meaning(dir + [SLASH, STAR], v) <==> exists name :: SlashFree(name) && v == dir + [SLASH] + name
  {
    var l := dir + [SLASH];
    assert dir + [SLASH, STAR] == l + [STAR];
    LiteralPrefix(l, [STAR], v);
    if l <= v {
      var name := v[|l|..];
      assert v == l + name;
      StarTakesSegment(name);
    }
    if name :| SlashFree(name) && v == dir + [SLASH] + name {
      assert v[|l|..] == name;
      StarTakesSegment(name);
    }
  }

  lemma StarTakesSegment(s: Bytes)
    ensures Meaning([STAR], s) <==> SlashFree(s)
  {
    assert [STAR][1..] == [];
    if Meaning([STAR], s) {
      var k :| 0 <= k <= |s| && SlashFree(s[..k]) && AfterStar([STAR], 1, s[k..]);
      assert Meaning([STAR][1..], s[k..]) && s[k..] == [];
      assert s[..k] == s;
    }
    if SlashFree(s) {
      assert s[..|s|] == s && s[|s|..] == [];
      assert AfterStar([STAR], 1, s[|s|..]);
    }
  }
}
