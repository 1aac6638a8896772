/** The fairness index of the dashboard API (`_gini`): a one-pass formula over the sorted
    values, proved equal to the pairwise definition of the Gini coefficient. */
module Gini {
  import opened Common
  import opened Ordering

  ghost predicate NonNegative(xs: seq<real>) {
    forall i :: 0 <= i < |xs| ==> xs[i] >= 0.0
  }

  /** The values the index looks at: negative readings are dropped. */
  function Retained(xs: seq<real>): (ys: seq<real>)
    ensures NonNegative(ys)
  {
    if xs == [] then []
    else if xs[0] >= 0.0 then [xs[0]] + Retained(xs[1..])
    else Retained(xs[1..])
  }

  /** Sum of rank times value, ranks from 1. */
  function RankSum(ys: seq<real>): real {
    if ys == [] then 0.0 else RankSum(ys[..|ys| - 1]) + |ys| as real * ys[|ys| - 1]
  }

  /** The coefficient from the number of values, their sum and their rank sum. */
  function OnePass(n: real, s: real, r: real): (g: real)
    requires n > 0.0 && s > 0.0
  {
    assert n * s > 0.0;
    2.0 * r / (n * s) - (n + 1.0) / n
  }

  function Gini(xs: seq<real>): real {
    var ys := Sort(Retained(xs), RealLe);
    if ys == [] || Sum(ys) == 0.0 then 0.0
    else
      assert Sum(ys) > 0.0 by { SortedForm(xs, ys); }
      OnePass(|ys| as real, Sum(ys), RankSum(ys))
  }

  // The pairwise definition.

  function Distance(y: real): real -> real {
    x => Abs(x - y)
  }

  function Spread(xs: seq<real>): real -> real {
    y => SumBy(xs, Distance(y))
  }

  /** The sum of |x - y| over all ordered pairs of entries. */
  function PairSum(xs: seq<real>): real {
    SumBy(xs, Spread(xs))
  }

  lemma SpreadStep(xs: seq<real>, x: real, y: real)
    ensures Spread(xs + [x])(y) == Spread(xs)(y) + Distance(x)(y)
  {
    SumBySnoc(xs, x, Distance(y));
    assert Distance(y)(x) == Abs(x - y) == Abs(y - x) == Distance(x)(y);
  }

  lemma {:induction false} SpreadOverGrown(xs: seq<real>, x: real, ys: seq<real>)
    ensures SumBy(ys, Spread(xs + [x])) == SumBy(ys, Spread(xs)) + SumBy(ys, Distance(x))
  {
    if ys == [] {
    } else {
      SpreadOverGrown(xs, x, ys[..|ys| - 1]);
      SpreadStep(xs, x, ys[|ys| - 1]);
    }
  }

  lemma {:induction false} DistanceToMaximum(xs: seq<real>, y: real)
    requires forall i :: 0 <= i < |xs| ==> xs[i] <= y
    ensures SumBy(xs, Distance(y)) == |xs| as real * y - Sum(xs)
  {
    if xs == [] {
    } else {
      var n := (|xs| - 1) as real;
      DistanceToMaximum(xs[..|xs| - 1], y);
      assert Distance(y)(xs[|xs| - 1]) == Abs(xs[|xs| - 1] - y);
      assert (n + 1.0) * y == n * y + y;
    }
  }

  lemma PairSumGrows(ys: seq<real>, y: real)
    requires forall i :: 0 <= i < |ys| ==> ys[i] <= y
    ensures PairSum(ys + [y]) == PairSum(ys) + 2.0 * (|ys| as real * y - Sum(ys))
  {
    hide SumBy, Sum;
    var d := SumBy(ys, Distance(y));
    SumBySnoc(ys, y, Spread(ys + [y]));
    SpreadOverGrown(ys, y, ys);
    assert Spread(ys + [y])(y) == d by {
      SumBySnoc(ys, y, Distance(y));
    }
    assert d == |ys| as real * y - Sum(ys) by {
      DistanceToMaximum(ys, y);
    }
  }

  /** On a sorted list the ranks count the pairs. */
  lemma {:induction false} RanksCountPairs(ys: seq<real>)
    requires SortedBy(ys, RealLe)
    ensures PairSum(ys) == 2.0 * (2.0 * RankSum(ys) - (|ys| as real + 1.0) * Sum(ys))
  {
    if ys == [] {
    } else {
      var front, y := ys[..|ys| - 1], ys[|ys| - 1];
      RanksCountPairs(front);
      assert PairSum(ys) == PairSum(front) + 2.0 * (|front| as real * y - Sum(front)) by {
        assert forall i :: 0 <= i < |front| ==> RealLe(ys[i], ys[|ys| - 1]);
        assert ys == front + [y];
        PairSumGrows(front, y);
      }
      assert |ys| as real == |front| as real + 1.0;
      RankStep(|front| as real, Sum(front), RankSum(front), PairSum(front), y);
    }
  }

  lemma RankStep(n: real, s: real, r: real, p: real, y: real)
    requires p == 2.0 * (2.0 * r - (n + 1.0) * s)
    ensures p + 2.0 * (n * y - s) == 2.0 * (2.0 * (r + (n + 1.0) * y) - (n + 1.0 + 1.0) * (s + y))
  {
  }

  lemma {:induction false} SumIsSumBy(xs: seq<real>)
    ensures Sum(xs) == SumBy(xs, x => x)
  {
    if xs == [] {
    } else {
      SumIsSumBy(xs[..|xs| - 1]);
    }
  }

  lemma PermutationKeepsSums(xs: seq<real>, ys: seq<real>)
    requires multiset(xs) == multiset(ys)
    ensures |xs| == |ys| && Sum(xs) == Sum(ys) && PairSum(xs) == PairSum(ys)
  {
    assert |xs| == |multiset(xs)| == |multiset(ys)| == |ys|;
    SumIsSumBy(xs);
    SumIsSumBy(ys);
    SumByPermutation(xs, ys, x => x);
    forall y
      ensures Spread(xs)(y) == Spread(ys)(y)
    {
      SumByPermutation(xs, ys, Distance(y));
    }
    SumByCongruence(xs, Spread(xs), Spread(ys));
    SumByPermutation(xs, ys, Spread(ys));
  }

  lemma SortedForm(xs: seq<real>, ys: seq<real>)
    requires ys == Sort(Retained(xs), RealLe)
    ensures SortedBy(ys, RealLe) && NonNegative(ys)
    ensures multiset(ys) == multiset(Retained(xs)) && |ys| == |Retained(xs)|
    ensures Sum(ys) == Sum(Retained(xs)) >= 0.0 && PairSum(ys) == PairSum(Retained(xs))
  {
    SortSorts(Retained(xs), RealLe);
    SortIsPermutation(Retained(xs), RealLe);
    SortHasSameElements(Retained(xs), RealLe);
    forall i | 0 <= i < |ys|
      ensures ys[i] >= 0.0
    {
      assert ys[i] in Retained(xs);
    }
    PermutationKeepsSums(ys, Retained(xs));
    SumNonNegative(ys);
  }

  /** The number of retained values and their sum. */
  ghost predicate Totals(xs: seq<real>, n: real, s: real) {
    Retained(xs) != [] && n == |Retained(xs)| as real && s == Sum(Retained(xs)) && s > 0.0
  }

  lemma GiniOfSorted(xs: seq<real>, ys: seq<real>, n: real, s: real)
    requires Totals(xs, n, s) && ys == Sort(Retained(xs), RealLe)
    ensures Gini(xs) == OnePass(n, s, RankSum(ys))
  {
    hide OnePass, RankSum, Sum, PairSum;
    SortedForm(xs, ys);
  }

  /** The index is the sum of |x - y| over all ordered pairs, divided by 2 * n * sum. */
  lemma GiniIsPairwise(xs: seq<real>, n: real, s: real)
    requires Totals(xs, n, s)
    ensures Gini(xs) * (2.0 * n * s) == PairSum(Retained(xs))
  {
    hide Gini, OnePass, RankSum, Sort, Retained, Sum, PairSum;
    var ys := Sort(Retained(xs), RealLe);
    SortedForm(xs, ys);
    GiniOfSorted(xs, ys, n, s);
    OnePassOfSorted(ys, n, s, PairSum(Retained(xs)));
  }

  lemma OnePassOfSorted(ys: seq<real>, n: real, s: real, p: real)
    requires SortedBy(ys, RealLe) && ys != []
    requires n == |ys| as real && s == Sum(ys) > 0.0 && p == PairSum(ys)
    ensures OnePass(n, s, RankSum(ys)) * (2.0 * n * s) == p
  {
    RanksCountPairs(ys);
    OnePassFormula(n, s, RankSum(ys), p);
  }

  lemma OnePassFormula(n: real, s: real, r: real, p: real)
    requires n > 0.0 && s > 0.0 && p == 2.0 * (2.0 * r - (n + 1.0) * s)
    ensures OnePass(n, s, r) * (2.0 * n * s) == p
  {
    var q, t := n * s, (n + 1.0) / n;
    assert q > 0.0;
    assert t * n == n + 1.0;
    assert t * q == (n + 1.0) * s;
    assert 2.0 * r / q * q == 2.0 * r;
  }

  lemma Cancel(g: real, h: real, q: real)
    requires q > 0.0 && g * q == h * q
    ensures g == h
  {
    assert (g - h) * q == 0.0;
  }

  lemma GiniFromSums(xs: seq<real>, ys: seq<real>, n: real, s: real)
    requires Totals(xs, n, s) && Totals(ys, n, s)
    requires PairSum(Retained(xs)) == PairSum(Retained(ys))
    ensures Gini(xs) == Gini(ys)
  {
    hide Gini;
    GiniIsPairwise(xs, n, s);
    GiniIsPairwise(ys, n, s);
    Cancel(Gini(xs), Gini(ys), 2.0 * n * s);
  }

  /** Reordering the workloads does not change the index. */
  lemma GiniIgnoresOrder(xs: seq<real>, ys: seq<real>)
    requires multiset(xs) == multiset(ys)
    ensures Gini(xs) == Gini(ys)
  {
    var rx, ry := Retained(xs), Retained(ys);
    RetainedOfPermutation(xs, ys);
    SortedForm(xs, Sort(rx, RealLe));
    SortedForm(ys, Sort(ry, RealLe));
    PermutationKeepsSums(rx, ry);
    if Sum(rx) > 0.0 {
      GiniFromSums(xs, ys, |rx| as real, Sum(rx));
    }
  }

  lemma {:induction false} RetainedCounts(xs: seq<real>, v: real)
    ensures multiset(Retained(xs))[v] == if v >= 0.0 then multiset(xs)[v] else 0
  {
    if xs == [] {
    } else {
      RetainedCounts(xs[1..], v);
      assert xs == [xs[0]] + xs[1..];
    }
  }

  lemma RetainedOfPermutation(xs: seq<real>, ys: seq<real>)
    requires multiset(xs) == multiset(ys)
    ensures multiset(Retained(xs)) == multiset(Retained(ys))
  {
    forall v
      ensures multiset(Retained(xs))[v] == multiset(Retained(ys))[v]
    {
      RetainedCounts(xs, v);
      RetainedCounts(ys, v);
    }
  }

  // Range, and what its two ends mean.

  lemma {:induction false} RankSumBound(ys: seq<real>)
    requires NonNegative(ys)
    ensures RankSum(ys) <= |ys| as real * Sum(ys)
    ensures ys != [] ==>
              (RankSum(ys) == |ys| as real * Sum(ys) <==> ys[|ys| - 1] == Sum(ys))
  {
    if ys == [] {
    } else {
      var front, y := ys[..|ys| - 1], ys[|ys| - 1];
      RankSumBound(front);
      SumNonNegative(front);
      if Sum(front) == 0.0 {
        ZeroRankSum(front);
      }
      BoundStep(|front| as real, Sum(front), y, RankSum(front));
    }
  }

  lemma BoundStep(n: real, s: real, y: real, r: real)
    requires s >= 0.0 && r <= n * s && (s == 0.0 ==> r == 0.0)
    ensures r + (n + 1.0) * y <= (n + 1.0) * (s + y)
    ensures r + (n + 1.0) * y == (n + 1.0) * (s + y) <==> s == 0.0
  {
    assert (n + 1.0) * (s + y) == n * s + s + (n + 1.0) * y;
  }

  lemma {:induction false} ZeroRankSum(ys: seq<real>)
    requires NonNegative(ys) && Sum(ys) == 0.0
    ensures RankSum(ys) == 0.0
  {
    if ys == [] {
    } else {
      SumNonNegative(ys);
      SumNonNegative(ys[..|ys| - 1]);
      ZeroRankSum(ys[..|ys| - 1]);
    }
  }

  /** The index lies in [0, (n-1)/n]; it is (n-1)/n exactly when one workload bears everything. */
  lemma GiniRange(xs: seq<real>, n: real, s: real)
    requires Totals(xs, n, s)
    ensures 0.0 <= Gini(xs) && n * Gini(xs) <= n - 1.0
    ensures n * Gini(xs) == n - 1.0 <==> exists v :: v in Retained(xs) && v == s
  {
    hide Gini, OnePass, RankSum, Sort, Retained, Sum, PairSum, SortedBy;
    var ys := Sort(Retained(xs), RealLe);
    SortedForm(xs, ys);
    GiniOfSorted(xs, ys, n, s);
    SortedRange(ys, n, s);
    LargestBearsAll(Retained(xs), ys);
  }

  lemma SortedRange(ys: seq<real>, n: real, s: real)
    requires SortedBy(ys, RealLe) && NonNegative(ys) && ys != []
    requires n == |ys| as real && s == Sum(ys) > 0.0
    ensures 0.0 <= OnePass(n, s, RankSum(ys))
    ensures n * OnePass(n, s, RankSum(ys)) <= n - 1.0
    ensures n * OnePass(n, s, RankSum(ys)) == n - 1.0 <==> ys[|ys| - 1] == s
  {
    hide OnePass;
    RankSumBound(ys);
    RanksCountPairs(ys);
    PairSumZero(ys);
    OnePassRange(n, s, RankSum(ys));
  }

  lemma LargestBearsAll(xs: seq<real>, ys: seq<real>)
    requires multiset(xs) == multiset(ys) && SortedBy(ys, RealLe) && NonNegative(ys) && ys != []
    requires Sum(xs) == Sum(ys)
    ensures ys[|ys| - 1] == Sum(ys) <==> exists v :: v in xs && v == Sum(xs)
  {
    var last := ys[|ys| - 1];
    assert last in multiset(ys);
    assert last in xs;
    forall v | v in xs && v == Sum(xs)
      ensures last == Sum(ys)
    {
      assert v in multiset(ys);
      var i :| 0 <= i < |ys| && ys[i] == v;
      assert i < |ys| - 1 ==> RealLe(ys[i], ys[|ys| - 1]);
      SumNonNegative(ys);
    }
  }

  lemma OnePassRange(n: real, s: real, r: real)
    requires n > 0.0 && s > 0.0 && r <= n * s && 2.0 * r >= (n + 1.0) * s
    ensures 0.0 <= OnePass(n, s, r)
    ensures n * OnePass(n, s, r) <= n - 1.0
    ensures n * OnePass(n, s, r) == n - 1.0 <==> r == n * s
  {
    var g := OnePass(n, s, r);
    OnePassFormula(n, s, r, 2.0 * (2.0 * r - (n + 1.0) * s));
    assert g * (2.0 * n * s) == 2.0 * (2.0 * r - (n + 1.0) * s);
    RangeStep(n, s, r, g);
  }

  lemma RangeStep(n: real, s: real, r: real, g: real)
    requires n > 0.0 && s > 0.0 && r <= n * s && 2.0 * r >= (n + 1.0) * s
    requires g * (2.0 * n * s) == 2.0 * (2.0 * r - (n + 1.0) * s)
    ensures 0.0 <= g && n * g <= n - 1.0
    ensures n * g == n - 1.0 <==> r == n * s
  {
    var d := n - 1.0 - n * g;
    assert d * s == 2.0 * (n * s - r) by {
      assert n * g * s == g * (2.0 * n * s) / 2.0;
    }
    assert n * s > 0.0;
    assert g * (n * s) >= 0.0;
  }

  lemma PairSumZero(xs: seq<real>)
    ensures PairSum(xs) >= 0.0
    ensures PairSum(xs) == 0.0 <==> forall x, y :: x in xs && y in xs ==> x == y
  {
    forall y
      ensures Spread(xs)(y) >= 0.0 && forall x :: x in xs ==> Abs(x - y) <= Spread(xs)(y)
    {
      assert forall x :: Distance(y)(x) == Abs(x - y);
      SumByNonNegative(xs, Distance(y));
    }
    SumByNonNegative(xs, Spread(xs));
    if PairSum(xs) == 0.0 {
      forall x, y | x in xs && y in xs
        ensures x == y
      {
        assert Spread(xs)(y) <= PairSum(xs);
        assert Abs(x - y) <= Spread(xs)(y);
      }
    }
    if forall x, y :: x in xs && y in xs ==> x == y {
      forall y | y in xs
        ensures Spread(xs)(y) == 0.0
      {
        SumByZero(xs, Distance(y));
      }
      SumByZero(xs, Spread(xs));
    }
  }

  /** Zero means perfectly fair, and only that. */
  lemma GiniZeroIsFair(xs: seq<real>, n: real, s: real)
    requires Totals(xs, n, s)
    ensures Gini(xs) == 0.0 <==>
            forall x, y :: x in Retained(xs) && y in Retained(xs) ==> x == y
  {
    hide Gini;
    GiniIsPairwise(xs, n, s);
    PairSumZero(Retained(xs));
    if PairSum(Retained(xs)) == 0.0 {
      Cancel(Gini(xs), 0.0, 2.0 * n * s);
    }
  }

  function Times(c: real, x: real): real {
    c * x
  }

  function Scaled(c: real, xs: seq<real>): (ys: seq<real>)
    ensures |ys| == |xs| && forall i :: 0 <= i < |xs| ==> ys[i] == Times(c, xs[i])
  {
    seq(|xs|, i requires 0 <= i < |xs| => Times(c, xs[i]))
  }

  lemma {:induction false} RetainedScales(c: real, xs: seq<real>)
    requires c > 0.0
    ensures Retained(Scaled(c, xs)) == Scaled(c, Retained(xs))
  {
    if xs == [] {
    } else {
      RetainedScales(c, xs[1..]);
      assert Scaled(c, xs)[1..] == Scaled(c, xs[1..]);
      assert Times(c, xs[0]) >= 0.0 <==> xs[0] >= 0.0;
    }
  }

  lemma TimesAdd(c: real, a: real, b: real)
    ensures Times(c, a + b) == Times(c, a) + Times(c, b)
    ensures Times(c, a - b) == Times(c, a) - Times(c, b)
  {
  }

  lemma {:induction false} SumScales(c: real, xs: seq<real>)
    ensures Sum(Scaled(c, xs)) == Times(c, Sum(xs))
  {
    hide Times;
    if xs != [] {
      var front := xs[..|xs| - 1];
      SumScales(c, front);
      assert Scaled(c, xs)[..|xs| - 1] == Scaled(c, front);
      TimesAdd(c, Sum(front), xs[|xs| - 1]);
    } else {
      TimesAdd(c, 0.0, 0.0);
    }
  }

  lemma {:induction false} SumByScales(c: real, xs: seq<real>, f: real -> real, g: real -> real)
    requires forall x :: x in xs ==> g(Times(c, x)) == Times(c, f(x))
    ensures SumBy(Scaled(c, xs), g) == Times(c, SumBy(xs, f))
  {
    hide Times;
    if xs != [] {
      var front, last := xs[..|xs| - 1], xs[|xs| - 1];
      assert Scaled(c, xs)[..|xs| - 1] == Scaled(c, front);
      assert xs == front + [last];
      SumByScales(c, front, f, g);
      TimesAdd(c, SumBy(front, f), f(last));
    } else {
      TimesAdd(c, 0.0, 0.0);
    }
  }

  lemma DistanceScale(c: real, x: real, y: real)
    requires c > 0.0
    ensures Distance(Times(c, y))(Times(c, x)) == Times(c, Distance(y)(x))
  {
    var d := x - y;
    TimesAdd(c, x, y);
    assert Abs(c * d) == c * Abs(d);
    assert Distance(Times(c, y))(Times(c, x)) == Abs(Times(c, x) - Times(c, y));
  }

  lemma PairSumScales(c: real, xs: seq<real>)
    requires c > 0.0
    ensures PairSum(Scaled(c, xs)) == Times(c, PairSum(xs))
  {
    hide Times;
    forall y
      ensures Spread(Scaled(c, xs))(Times(c, y)) == Times(c, Spread(xs)(y))
    {
      forall x
        ensures Distance(Times(c, y))(Times(c, x)) == Times(c, Distance(y)(x))
      {
        DistanceScale(c, x, y);
      }
      SumByScales(c, xs, Distance(y), Distance(Times(c, y)));
    }
    SumByScales(c, xs, Spread(xs), Spread(Scaled(c, xs)));
  }

  /** Measuring the stall in other units does not change the index. */
  lemma GiniIgnoresUnits(c: real, xs: seq<real>)
    requires c > 0.0
    ensures Gini(Scaled(c, xs)) == Gini(xs)
  {
    hide Times;
    hide OnePass;
    var ys, s := Retained(xs), Sum(Retained(xs));
    RetainedScales(c, xs);
    SumScales(c, ys);
    SortedForm(xs, Sort(ys, RealLe));
    SortedForm(Scaled(c, xs), Sort(Scaled(c, ys), RealLe));
    TimesSign(c, s);
    if s > 0.0 {
      GiniOfScaledSums(c, xs, Scaled(c, xs), |ys| as real, s);
    }
  }

  lemma TimesSign(c: real, x: real)
    requires c > 0.0
    ensures x > 0.0 ==> Times(c, x) > 0.0
    ensures x == 0.0 ==> Times(c, x) == 0.0
  {
  }

  lemma GiniOfScaledSums(c: real, xs: seq<real>, ys: seq<real>, n: real, s: real)
    requires c > 0.0 && Totals(xs, n, s) && Totals(ys, n, Times(c, s))
    requires Retained(ys) == Scaled(c, Retained(xs))
    ensures Gini(ys) == Gini(xs)
  {
    hide Gini, Times;
    PairSumScales(c, Retained(xs));
    GiniIsPairwise(xs, n, s);
    GiniIsPairwise(ys, n, Times(c, s));
    UnitStep(c, n, s, PairSum(Retained(xs)), Gini(xs), Gini(ys));
  }

  lemma UnitStep(c: real, n: real, s: real, p: real, g: real, h: real)
    requires c > 0.0 && n > 0.0 && s > 0.0
    requires g * (2.0 * n * s) == p && h * (2.0 * n * Times(c, s)) == Times(c, p)
    ensures h == g
  {
    var q := c * (2.0 * n * s);
    assert n * s > 0.0;
    assert q == 2.0 * n * (c * s);
    assert g * q == c * (g * (2.0 * n * s));
    Cancel(h, g, q);
  }

  /** Where there is nothing to share there is no unfairness. */
  lemma NothingIsFair(xs: seq<real>)
    requires forall i :: 0 <= i < |xs| ==> xs[i] <= 0.0
    ensures Gini(xs) == 0.0
  {
    var ys := Sort(Retained(xs), RealLe);
    RetainedMembers(xs);
    SortHasSameElements(Retained(xs), RealLe);
    forall i | 0 <= i < |ys|
      ensures ys[i] == 0.0
    {
      assert ys[i] in Retained(xs);
      assert ys[i] in xs;
    }
    hide Sort, Retained;
    SumOfZeros(ys);
  }

  lemma {:induction false} SumOfZeros(ys: seq<real>)
    requires forall i :: 0 <= i < |ys| ==> ys[i] == 0.0
    ensures Sum(ys) == 0.0
  {
    if ys == [] {
    } else {
      SumOfZeros(ys[..|ys| - 1]);
    }
  }

  lemma {:induction false} RetainedMembers(xs: seq<real>)
    ensures forall x :: x in Retained(xs) <==> x in xs && x >= 0.0
  {
    if xs == [] {
    } else {
      RetainedMembers(xs[1..]);
      assert xs == [xs[0]] + xs[1..];
    }
  }

  /** A negative reading counts for nothing, wherever it stands. */
  lemma {:induction false} NegativesAreDropped(xs: seq<real>, v: real, ys: seq<real>)
    requires v < 0.0
    ensures Retained(xs + [v] + ys) == Retained(xs + ys) && Gini(xs + [v] + ys) == Gini(xs + ys)
  {
    hide Gini;
    if xs == [] {
      assert xs + [v] + ys == [v] + ys && ([v] + ys)[1..] == ys && xs + ys == ys;
    } else {
      NegativesAreDropped(xs[1..], v, ys);
      assert (xs + [v] + ys)[1..] == xs[1..] + [v] + ys && (xs + ys)[1..] == xs[1..] + ys;
    }
    SameRetained(xs + [v] + ys, xs + ys);
  }

  lemma SameRetained(xs: seq<real>, ys: seq<real>)
    requires Retained(xs) == Retained(ys)
    ensures Gini(xs) == Gini(ys)
  {
  }
}
