/** Sorting by a derived key, and the first repeated key of a sorted list (`sort`, `windows(2).find`). */
module Ordering {
  import opened Basics

  /** A derived `Ord` key: compared on the first part, then on the second. */
  datatype Rank = Rank(major: nat, minor: nat)

  predicate Below(a: Rank, b: Rank) { a.major < b.major || (a.major == b.major && a.minor < b.minor) }

  function IdRank(id: Id): Rank { Rank(id.rank, 0) }

  ghost predicate AscendsBy<T>(key: T -> Rank, s: seq<T>) {
    forall i, j :: 0 <= i < j < |s| ==> !Below(key(s[j]), key(s[i]))
  }

  function InsertBy<T>(key: T -> Rank, x: T, s: seq<T>): seq<T> {
    if s == [] || !Below(key(s[0]), key(x)) then [x] + s else [s[0]] + InsertBy(key, x, s[1..])
  }

  /** The stable sort. */
  function SortBy<T>(key: T -> Rank, s: seq<T>): seq<T> {
    if s == [] then [] else InsertBy(key, s[0], SortBy(key, s[1..]))
  }

  lemma {:induction false} InsertByPermutes<T>(key: T -> Rank, x: T, s: seq<T>)
    ensures multiset(InsertBy(key, x, s)) == multiset(s) + multiset{x}
  {
    if s != [] {
      assert s == [s[0]] + s[1..];
      if Below(key(s[0]), key(x)) { InsertByPermutes(key, x, s[1..]); }
    }
  }

  lemma {:induction false} InsertByAscends<T>(key: T -> Rank, x: T, s: seq<T>)
    requires AscendsBy(key, s)
    ensures AscendsBy(key, InsertBy(key, x, s))
  {
    if s != [] && Below(key(s[0]), key(x)) {
      var rest := InsertBy(key, x, s[1..]);
      InsertByAscends(key, x, s[1..]);
      InsertByPermutes(key, x, s[1..]);
      forall j | 0 <= j < |rest| ensures !Below(key(rest[j]), key(s[0])) {
        assert rest[j] in multiset(rest);
        assert rest[j] == x || rest[j] in s[1..];
      }
    }
  }

  lemma {:induction false} SortBySorts<T>(key: T -> Rank, s: seq<T>)
    ensures multiset(SortBy(key, s)) == multiset(s) && AscendsBy(key, SortBy(key, s)) && |SortBy(key, s)| == |s|
  {
    if s != [] {
      assert s == [s[0]] + s[1..];
      SortBySorts(key, s[1..]);
      InsertByPermutes(key, s[0], SortBy(key, s[1..]));
      InsertByAscends(key, s[0], SortBy(key, s[1..]));
    }
    assert |multiset(SortBy(key, s))| == |SortBy(key, s)| && |multiset(s)| == |s|;
  }

  ghost predicate Determines<T>(key: T -> Rank, s: seq<T>) {
    forall x, y :: x in s && y in s && key(x) == key(y) ==> x == y
  }

  lemma SameHead<T>(key: T -> Rank, a: seq<T>, b: seq<T>)
    requires AscendsBy(key, a) && AscendsBy(key, b) && multiset(a) == multiset(b) && Determines(key, a) && a != [] && b != []
    ensures a[0] == b[0]
  {
    assert a[0] in multiset(b) && b[0] in multiset(a);
    var i :| 0 <= i < |b| && b[i] == a[0];
    var j :| 0 <= j < |a| && a[j] == b[0];
    assert !Below(key(b[i]), key(b[0])) && !Below(key(a[j]), key(a[0]));
  }

  lemma TailElements<T>(s: seq<T>)
    requires s != []
    ensures multiset(s[1..]) == multiset(s) - multiset{s[0]}
    ensures forall x :: x in s[1..] ==> x in s
  {
    assert s == [s[0]] + s[1..];
  }

  /** Two ascending listings of the same elements agree when the key tells the elements apart. */
  lemma {:induction false} AscendingIsUnique<T>(key: T -> Rank, a: seq<T>, b: seq<T>)
    requires AscendsBy(key, a) && AscendsBy(key, b) && multiset(a) == multiset(b) && Determines(key, a)
    ensures a == b
  {
    assert |a| == |multiset(a)| == |multiset(b)| == |b|;
    if a != [] {
      SameHead(key, a, b);
      TailElements(a);
      TailElements(b);
      AscendingIsUnique(key, a[1..], b[1..]);
    }
  }

  /** Sorting does not depend on the order it starts from. */
  lemma SortByForgetsOrder<T>(key: T -> Rank, a: seq<T>, b: seq<T>)
    requires multiset(a) == multiset(b) && Determines(key, SortBy(key, a))
    ensures SortBy(key, a) == SortBy(key, b)
  {
    SortBySorts(key, a);
    SortBySorts(key, b);
    AscendingIsUnique(key, SortBy(key, a), SortBy(key, b));
  }

  function MapBy<T, U>(f: T -> U, s: seq<T>): (r: seq<U>)
    ensures |r| == |s| && forall i :: 0 <= i < |s| ==> r[i] == f(s[i])
  {
    seq(|s|, i requires 0 <= i < |s| => f(s[i]))
  }

  lemma MapWithout<T, U>(f: T -> U, s: seq<T>, i: nat)
    requires i < |s|
    ensures multiset(s) == multiset(s[..i] + s[i+1..]) + multiset{s[i]}
    ensures multiset(MapBy(f, s)) == multiset(MapBy(f, s[..i] + s[i+1..])) + multiset{f(s[i])}
  {
    assert s == s[..i] + [s[i]] + s[i+1..];
    var m := MapBy(f, s);
    assert m == m[..i] + [m[i]] + m[i+1..];
    assert MapBy(f, s[..i] + s[i+1..]) == m[..i] + m[i+1..];
  }

  /** Mapping keeps permutations permutations. */
  lemma {:induction false} MapPermutes<T, U>(f: T -> U, a: seq<T>, b: seq<T>)
    requires multiset(a) == multiset(b)
    ensures multiset(MapBy(f, a)) == multiset(MapBy(f, b))
  {
    assert |a| == |multiset(a)| == |multiset(b)| == |b|;
    if a != [] {
      assert a[0] in multiset(b);
      var i :| 0 <= i < |b| && b[i] == a[0];
      MapWithout(f, a, 0);
      MapWithout(f, b, i);
      var a', b' := a[..0] + a[1..], b[..i] + b[i+1..];
      assert multiset(a') == multiset(a) - multiset{a[0]} == multiset(b');
      MapPermutes(f, a', b');
    }
  }

  lemma {:induction false} DistinctIsMultiset<T>(a: seq<T>)
    ensures Distinct(a) <==> forall x :: x in multiset(a) ==> multiset(a)[x] == 1
  {
    if a != [] {
      DistinctIsMultiset(a[1..]);
      assert a == [a[0]] + a[1..];
      assert multiset(a) == multiset{a[0]} + multiset(a[1..]);
      DistinctTail(a);
      assert multiset(a)[a[0]] == 1 + multiset(a[1..])[a[0]];
      assert forall x :: x in multiset(a[1..]) && x != a[0] ==> multiset(a)[x] == multiset(a[1..])[x];
      if a[0] in a[1..] { assert multiset(a)[a[0]] > 1; }
    }
  }

  lemma DistinctTail<T>(a: seq<T>)
    requires a != []
    ensures Distinct(a) <==> a[0] !in a[1..] && Distinct(a[1..])
  {
    if a[0] !in a[1..] && Distinct(a[1..]) {
      forall i, j | 0 <= i < j < |a| ensures a[i] != a[j] {
        assert a[j] == a[1..][j-1];
        if i > 0 { assert a[i] == a[1..][i-1]; }
      }
    }
  }

  /** The first value that stands next to its equal. */
  function FirstRepeat(s: seq<Id>): (r: Option<Id>)
    ensures r.Some? ==> exists i :: 0 <= i < |s| - 1 && s[i] == s[i+1] == r.value
  {
    if |s| < 2 then None
    else if s[0] == s[1] then assert s[0] == s[0+1]; Some(s[0])
    else
      var r := FirstRepeat(s[1..]);
      assert r.Some? ==> exists i :: 1 <= i < |s| - 1 && s[i] == s[i+1] == r.value by {
        if r.Some? {
          var i :| 0 <= i < |s[1..]| - 1 && s[1..][i] == s[1..][i+1] == r.value;
          assert s[i+1] == s[i+1+1] == r.value;
        }
      }
      r
  }

  /** On an ascending list the search finds the least repeated value, and none only when all values differ. */
  lemma {:induction false} FirstRepeatIsLeast(s: seq<Id>)
    requires AscendsBy(IdRank, s)
    ensures FirstRepeat(s).None? <==> Distinct(s)
    ensures FirstRepeat(s).Some? ==>
      forall i, j :: 0 <= i < j < |s| && s[i] == s[j] ==> !Precedes(s[i], FirstRepeat(s).value)
  {
    if |s| >= 2 {
      assert forall i, j :: 0 <= i < j < |s| ==> !Below(IdRank(s[j]), IdRank(s[i]));
      if s[0] != s[1] {
        FirstRepeatIsLeast(s[1..]);
        forall i | 0 < i < |s| ensures s[i] != s[0] {
          assert !Below(IdRank(s[1]), IdRank(s[0]));
          assert i == 1 || !Below(IdRank(s[i]), IdRank(s[1]));
        }
        forall i, j | 0 <= i < j < |s| && s[i] == s[j]
          ensures FirstRepeat(s).Some? && !Precedes(s[i], FirstRepeat(s).value)
        {
          assert s[1..][i-1] == s[i] && s[1..][j-1] == s[j];
        }
      }
    }
  }
}
