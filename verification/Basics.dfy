/** Failure types and ordered finite sets shared by every module of the model. */
module Basics {
  datatype Option<+T> = None | Some(value: T)

  datatype Result<+T, +E> = Ok(value: T) | Err(error: E)

  /** The members of a sequence, as a set. */
  function Elems<T>(s: seq<T>): set<T> { set x | x in s }

  ghost predicate Distinct<T>(s: seq<T>) {
    forall i, j :: 0 <= i < j < |s| ==> s[i] != s[j]
  }

  lemma Inhabited<T>(s: set<T>) returns (a: T)
    requires s != {}
    ensures a in s
  {
    a :| a in s;
  }

  /** A validated identifier, known by its position in the derived total order of its strings. */
  datatype Id = Id(rank: nat)

  predicate Precedes(a: Id, b: Id) { a.rank < b.rank }

  predicate IsLeastOf(s: set<Id>, m: Id) {
    m in s && forall x :: x in s ==> !Precedes(x, m)
  }

  lemma {:induction false} LeastExists(s: set<Id>) returns (m: Id)
    requires s != {}
    ensures IsLeastOf(s, m)
    decreases s
  {
    m := Inhabited(s);
    if s != {m} {
      var other := LeastExists(s - {m});
      forall x | x in s ensures !Precedes(x, if Precedes(other, m) then other else m) {
        assert x == m || x in s - {m};
      }
      if Precedes(other, m) { m := other; }
    }
  }

  /** First key of a `BTreeSet`: what `pop_first` and the head of an ascending iteration yield. */
  function Least(s: set<Id>): (m: Id)
    requires s != {}
    ensures IsLeastOf(s, m)
  {
    assert exists m :: IsLeastOf(s, m) by { var m := LeastExists(s); }
    var m :| m in s && IsLeastOf(s, m);
    m
  }

  ghost predicate StrictlyAscending(l: seq<Id>) {
    forall i, j :: 0 <= i < j < |l| ==> Precedes(l[i], l[j])
  }

  /** The ascending listing of a set, the order in which a `BTreeSet` is iterated. */
  function Ascending(s: set<Id>): (l: seq<Id>)
    ensures StrictlyAscending(l)
    ensures forall x :: x in l <==> x in s
    decreases s
  {
    if s == {} then [] else [Least(s)] + Ascending(s - {Least(s)})
  }

  lemma {:induction false} DistinctSize<T>(s: seq<T>)
    requires Distinct(s)
    ensures |Elems(s)| == |s|
  {
    if s != [] {
      DistinctSize(s[1..]);
      assert Elems(s) == {s[0]} + Elems(s[1..]);
    }
  }

  lemma DifferenceEmpty<T>(a: set<T>, b: set<T>)
    ensures a - b == {} <==> a <= b
  {
    if a - b == {} {
      forall x | x in a ensures x in b {
        assert x in a - b || x in b;
      }
    }
  }

  lemma SubsetSize<T>(a: set<T>, b: set<T>)
    requires a <= b
    ensures |a| <= |b|
    ensures |a| == |b| ==> a == b
  {
    assert b == a + (b - a);
    assert |b| == |a| + |b - a|;
  }

  /** Lexicographic order on `Vec`s, as derived by `Ord`. */
  predicate LexLess(a: seq<Id>, b: seq<Id>) {
    b != [] && (a == [] || Precedes(a[0], b[0]) || (a[0] == b[0] && LexLess(a[1..], b[1..])))
  }

  lemma {:induction false} LexLessAt(a: seq<Id>, b: seq<Id>, k: nat)
    requires k < |a| && k < |b| && a[..k] == b[..k] && Precedes(a[k], b[k])
    ensures LexLess(a, b)
  {
    if k > 0 {
      assert a[0] == a[..k][0] == b[..k][0] == b[0];
      assert a[1..][..k-1] == a[..k][1..] == b[..k][1..] == b[1..][..k-1];
      LexLessAt(a[1..], b[1..], k - 1);
    }
  }

  newtype byte = b: int | 0 <= b < 256

  type Bytes = seq<byte>

  /** The exact identity of one running plugin: its project, its package, its activation and its host. */
  datatype InstanceIdentity = InstanceIdentity(project: Id, plugin: Id, digest: Id, generation: nat, host: Id)
}
