/** Orders and the stable sort behind every `sorted(...)` call of the engine. */
module Ordering {

  ghost predicate TotalPreorder<T(!new)>(le: (T, T) -> bool) {
    && (forall x, y :: le(x, y) || le(y, x))
    && (forall x, y, z :: le(x, y) && le(y, z) ==> le(x, z))
  }

  ghost predicate SortedBy<T>(xs: seq<T>, le: (T, T) -> bool) {
    forall i, j :: 0 <= i < j < |xs| ==> le(xs[i], xs[j])
  }

  /** Puts x in front of the first element that is not below it. */
  function Insert<T>(x: T, ys: seq<T>, le: (T, T) -> bool): seq<T> {
    if ys == [] || le(x, ys[0]) then [x] + ys else [ys[0]] + Insert(x, ys[1..], le)
  }

  /** Insertion sort: of two elements that compare equal, the earlier one stays first. */
  function Sort<T>(xs: seq<T>, le: (T, T) -> bool): seq<T> {
    if xs == [] then [] else Insert(xs[0], Sort(xs[1..], le), le)
  }

  lemma {:induction false} InsertIsPermutation<T>(x: T, ys: seq<T>, le: (T, T) -> bool)
    ensures multiset(Insert(x, ys, le)) == multiset([x] + ys)
  {
    if ys == [] || le(x, ys[0]) {
    } else {
      InsertIsPermutation(x, ys[1..], le);
      assert ys == [ys[0]] + ys[1..];
    }
  }

  lemma {:induction false} InsertKeepsSorted<T(!new)>(x: T, ys: seq<T>, le: (T, T) -> bool)
    requires TotalPreorder(le) && SortedBy(ys, le)
    ensures SortedBy(Insert(x, ys, le), le)
  {
    if ys == [] || le(x, ys[0]) {
    } else {
      InsertKeepsSorted(x, ys[1..], le);
      InsertIsPermutation(x, ys[1..], le);
      var tail := Insert(x, ys[1..], le);
      forall y | y in tail
        ensures le(ys[0], y)
      {
        assert y in multiset(tail);
        assert y == x || y in ys[1..];
      }
    }
  }

  lemma {:induction false} SortIsPermutation<T>(xs: seq<T>, le: (T, T) -> bool)
    ensures multiset(Sort(xs, le)) == multiset(xs)
    ensures |Sort(xs, le)| == |xs|
  {
    if xs == [] {
    } else {
      SortIsPermutation(xs[1..], le);
      InsertIsPermutation(xs[0], Sort(xs[1..], le), le);
      assert xs == [xs[0]] + xs[1..];
    }
    assert |multiset(Sort(xs, le))| == |multiset(xs)|;
  }

  lemma SortHasSameElements<T>(xs: seq<T>, le: (T, T) -> bool)
    ensures forall x :: x in Sort(xs, le) <==> x in xs
  {
    SortIsPermutation(xs, le);
    forall x
      ensures x in Sort(xs, le) <==> x in xs
    {
      assert x in Sort(xs, le) <==> x in multiset(Sort(xs, le));
    }
  }

  lemma {:induction false} SortSorts<T(!new)>(xs: seq<T>, le: (T, T) -> bool)
    requires TotalPreorder(le)
    ensures SortedBy(Sort(xs, le), le)
  {
    if xs == [] {
    } else {
      SortSorts(xs[1..], le);
      InsertKeepsSorted(xs[0], Sort(xs[1..], le), le);
    }
  }

  /** A sorted permutation of distinct elements has no repetition either. */
  lemma SortKeepsDistinct<T>(xs: seq<T>, le: (T, T) -> bool)
    requires forall i, j :: 0 <= i < j < |xs| ==> xs[i] != xs[j]
    ensures forall i, j :: 0 <= i < j < |xs| ==> |Sort(xs, le)| == |xs| && Sort(xs, le)[i] != Sort(xs, le)[j]
  {
    SortIsPermutation(xs, le);
    var ys := Sort(xs, le);
    forall i, j | 0 <= i < j < |xs|
      ensures ys[i] != ys[j]
    {
      if ys[i] == ys[j] {
        CountTwice(ys, i, j);
        DistinctCount(xs, ys[i]);
      }
    }
  }

  lemma CountTwice<T>(ys: seq<T>, i: nat, j: nat)
    requires i < j < |ys| && ys[i] == ys[j]
    ensures multiset(ys)[ys[i]] >= 2
  {
    assert ys == ys[..i] + [ys[i]] + ys[i + 1..j] + [ys[j]] + ys[j + 1..];
  }

  lemma {:induction false} DistinctCount<T>(xs: seq<T>, x: T)
    requires forall i, j :: 0 <= i < j < |xs| ==> xs[i] != xs[j]
    ensures multiset(xs)[x] <= 1
  {
    if xs == [] {
    } else {
      var front := xs[..|xs| - 1];
      DistinctCount(front, x);
      assert xs == front + [xs[|xs| - 1]];
      if xs[|xs| - 1] == x {
        assert x !in front;
        assert multiset(front)[x] == 0;
      }
    }
  }

  /** Sorting what is sorted changes nothing. */
  lemma {:induction false} SortOfSorted<T>(xs: seq<T>, le: (T, T) -> bool)
    requires SortedBy(xs, le)
    ensures Sort(xs, le) == xs
  {
    if xs == [] {
    } else {
      SortOfSorted(xs[1..], le);
    }
  }

  predicate RealLe(a: real, b: real) {
    a <= b
  }

  /** Python's string order: by code point, a proper prefix first. */
  predicate StringLe(a: string, b: string) {
    a == [] || (b != [] && (a[0] < b[0] || (a[0] == b[0] && StringLe(a[1..], b[1..]))))
  }

  lemma {:induction false} StringLeTotal(a: string, b: string)
    ensures StringLe(a, b) || StringLe(b, a)
  {
    if a != [] && b != [] && a[0] == b[0] {
      StringLeTotal(a[1..], b[1..]);
    }
  }

  lemma {:induction false} StringLeTransitive(a: string, b: string, c: string)
    requires StringLe(a, b) && StringLe(b, c)
    ensures StringLe(a, c)
  {
    if a != [] && a[0] == b[0] && b[0] == c[0] {
      StringLeTransitive(a[1..], b[1..], c[1..]);
    }
  }

  lemma {:induction false} StringLeAntisymmetric(a: string, b: string)
    requires StringLe(a, b) && StringLe(b, a)
    ensures a == b
  {
    if a != [] && b != [] {
      StringLeAntisymmetric(a[1..], b[1..]);
      assert a == [a[0]] + a[1..] && b == [b[0]] + b[1..];
    }
  }

  lemma StringOrderIsTotal()
    ensures TotalPreorder(StringLe)
  {
    forall x: string, y: string
      ensures StringLe(x, y) || StringLe(y, x)
    {
      StringLeTotal(x, y);
    }
    forall x: string, y: string, z: string | StringLe(x, y) && StringLe(y, z)
      ensures StringLe(x, z)
    {
      StringLeTransitive(x, y, z);
    }
  }
}
