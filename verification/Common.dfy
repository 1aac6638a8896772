/** Vocabulary shared by every module: optional values, real helpers and finite sums. */
module Common {

  datatype Option<+T> = None | Some(value: T) {
    function GetOr(default: T): T {
      match this
      case Some(v) => v
      case None => default
    }
  }

  /** A Python dict: the keys in insertion order and the value under each. */
  datatype Dict<+V> = Dict(keys: seq<string>, at: map<string, V>) {
    ghost predicate Valid() {
      && (forall i, j :: 0 <= i < j < |keys| ==> keys[i] != keys[j])
      && (forall k :: k in keys <==> k in at)
    }
  }

  /** What a dict holds under a key, if anything. */
  function Lookup<K(==), V>(m: map<K, V>, k: K): Option<V> {
    if k in m then Some(m[k]) else None
  }

  /** Python's v[-n:]: the last n values; all of them when there are no more, and also for n = 0. */
  function LastN<T>(v: seq<T>, n: nat): seq<T> {
    if 0 < n <= |v| then v[|v| - n..] else v
  }

  /** It ends the list, and is as long as asked for; all of a list that is not longer, or if 0 are asked for. */
  lemma LastNEndsTheList<T>(v: seq<T>, n: nat)
    ensures 0 < n <= |v| ==> |LastN(v, n)| == n && v == v[..|v| - n] + LastN(v, n)
    ensures n == 0 || n > |v| ==> LastN(v, n) == v
  {
  }

  function Abs(x: real): real {
    if x < 0.0 then -x else x
  }

  function Max(a: real, b: real): real {
    if a < b then b else a
  }

  function Min(a: real, b: real): real {
    if b < a then b else a
  }

  function Pow(x: real, n: nat): real {
    if n == 0 then 1.0 else x * Pow(x, n - 1)
  }

  function Sum(xs: seq<real>): real {
    if xs == [] then 0.0 else Sum(xs[..|xs| - 1]) + xs[|xs| - 1]
  }

  lemma {:induction false} SumNonNegative(xs: seq<real>)
    requires forall i :: 0 <= i < |xs| ==> xs[i] >= 0.0
    ensures Sum(xs) >= 0.0
    ensures forall i :: 0 <= i < |xs| ==> xs[i] <= Sum(xs)
  {
    if xs == [] {
    } else {
      SumNonNegative(xs[..|xs| - 1]);
      forall i | 0 <= i < |xs|
        ensures xs[i] <= Sum(xs)
      {
        if i < |xs| - 1 {
          assert xs[..|xs| - 1][i] == xs[i];
        }
      }
    }
  }

  /** The sum of f over a list. */
  function SumBy<T>(xs: seq<T>, f: T -> real): real {
    if xs == [] then 0.0 else SumBy(xs[..|xs| - 1], f) + f(xs[|xs| - 1])
  }

  lemma SumBySnoc<T>(xs: seq<T>, x: T, f: T -> real)
    ensures SumBy(xs + [x], f) == SumBy(xs, f) + f(x)
  {
    assert (xs + [x])[..|xs|] == xs;
  }

  lemma {:induction false} SumByConcat<T>(xs: seq<T>, ys: seq<T>, f: T -> real)
    ensures SumBy(xs + ys, f) == SumBy(xs, f) + SumBy(ys, f)
    decreases |ys|
  {
    if ys == [] {
      assert xs + ys == xs;
    } else {
      assert (xs + ys)[..|xs + ys| - 1] == xs + ys[..|ys| - 1];
      SumByConcat(xs, ys[..|ys| - 1], f);
    }
  }

  /** Summation does not depend on the order of the list. */
  lemma {:induction false} SumByPermutation<T>(xs: seq<T>, ys: seq<T>, f: T -> real)
    requires multiset(xs) == multiset(ys)
    ensures SumBy(xs, f) == SumBy(ys, f)
    decreases |xs|
  {
    assert |xs| == |multiset(xs)| == |multiset(ys)| == |ys|;
    if xs == [] {
    } else {
      var front, last := xs[..|xs| - 1], xs[|xs| - 1];
      assert xs == front + [last];
      assert last in multiset(ys);
      var i :| 0 <= i < |ys| && ys[i] == last;
      var rest := ys[..i] + ys[i + 1..];
      assert ys == ys[..i] + ([last] + ys[i + 1..]);
      assert multiset(rest) == multiset(ys) - multiset{last};
      SumByPermutation(front, rest, f);
      SumByConcat(ys[..i], [last] + ys[i + 1..], f);
      SumByConcat([last], ys[i + 1..], f);
      SumByConcat(ys[..i], ys[i + 1..], f);
      SumBySnoc([], last, f);
      assert [] + [last] == [last];
    }
  }

  lemma {:induction false} SumByNonNegative<T>(xs: seq<T>, f: T -> real)
    requires forall x :: x in xs ==> f(x) >= 0.0
    ensures SumBy(xs, f) >= 0.0
    ensures forall x :: x in xs ==> f(x) <= SumBy(xs, f)
  {
    if xs == [] {
    } else {
      var front, last := xs[..|xs| - 1], xs[|xs| - 1];
      assert xs == front + [last];
      SumByNonNegative(front, f);
    }
  }

  lemma {:induction false} SumByCongruence<T>(xs: seq<T>, f: T -> real, g: T -> real)
    requires forall x :: x in xs ==> f(x) == g(x)
    ensures SumBy(xs, f) == SumBy(xs, g)
  {
    if xs == [] {
    } else {
      var front := xs[..|xs| - 1];
      assert xs == front + [xs[|xs| - 1]];
      SumByCongruence(front, f, g);
    }
  }

  lemma {:induction false} SumByZero<T>(xs: seq<T>, f: T -> real)
    requires forall x :: x in xs ==> f(x) == 0.0
    ensures SumBy(xs, f) == 0.0
  {
    if xs == [] {
    } else {
      var front := xs[..|xs| - 1];
      assert xs == front + [xs[|xs| - 1]];
      SumByZero(front, f);
    }
  }
}
