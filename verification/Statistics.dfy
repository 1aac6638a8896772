/** Order statistics as numpy computes them: percentiles by linear interpolation. */
module Statistics {
  import opened Common
  import opened Ordering

  /** The value at fractional position h of a list. */
  function Interpolate(ys: seq<real>, h: real): real
    requires ys != [] && 0.0 <= h <= (|ys| - 1) as real
  {
    var lo := h.Floor;
    if lo == |ys| - 1 then ys[lo] else Lerp(ys[lo], ys[lo + 1], h - lo as real)
  }

  /** The point a fraction t of the way from a to b. */
  function Lerp(a: real, b: real, t: real): real {
    a + Part(t, b - a)
  }

  /** Where the q-quantile of n sorted values sits. */
  function Position(n: nat, q: real): (h: real)
    requires n > 0 && 0.0 <= q <= 1.0
    ensures 0.0 <= h <= (n - 1) as real
  {
    var m := (n - 1) as real;
    FractionOf(q, m);
    Part(q, m)
  }

  function Part(q: real, m: real): real {
    q * m
  }

  lemma FractionOf(q: real, m: real)
    requires 0.0 <= q <= 1.0 && m >= 0.0
    ensures 0.0 <= Part(q, m) <= m
  {
    ProductOrder(0.0, q, m);
    ProductOrder(q, 1.0, m);
  }

  lemma PartOrder(p: real, q: real, m: real)
    requires p <= q && m >= 0.0
    ensures Part(p, m) <= Part(q, m)
  {
    ProductOrder(p, q, m);
  }

  lemma ProductOrder(a: real, b: real, m: real)
    requires a <= b && m >= 0.0
    ensures a * m <= b * m
  {
    assert (b - a) * m >= 0.0;
  }

  function Quantile(xs: seq<real>, q: real): real
    requires xs != [] && 0.0 <= q <= 1.0
  {
    SortIsPermutation(xs, RealLe);
    Interpolate(Sort(xs, RealLe), Position(|xs|, q))
  }

  function Median(xs: seq<real>): real
    requires xs != []
  {
    Quantile(xs, 0.5)
  }

  function P90(xs: seq<real>): real
    requires xs != []
  {
    Quantile(xs, 0.9)
  }

  function Deviations(xs: seq<real>, c: real): (ds: seq<real>)
    ensures |ds| == |xs| && forall i :: 0 <= i < |xs| ==> ds[i] == Abs(xs[i] - c)
  {
    seq(|xs|, i requires 0 <= i < |xs| => Abs(xs[i] - c))
  }

  /** Median absolute deviation from the median. */
  function Mad(xs: seq<real>): real
    requires xs != []
  {
    Median(Deviations(xs, Median(xs)))
  }

  lemma BetweenNeighbours(a: real, b: real, t: real)
    requires a <= b && 0.0 <= t <= 1.0
    ensures a <= Lerp(a, b, t) <= b
  {
    hide Part;
    FractionOf(t, b - a);
  }

  lemma LerpOrder(a: real, b: real, s: real, t: real)
    requires a <= b && s <= t
    ensures Lerp(a, b, s) <= Lerp(a, b, t)
  {
    hide Part;
    PartOrder(s, t, b - a);
  }

  lemma InterpolateBetween(ys: seq<real>, h: real)
    requires ys != [] && 0.0 <= h <= (|ys| - 1) as real && SortedBy(ys, RealLe)
    ensures ys[h.Floor] <= Interpolate(ys, h)
    ensures Interpolate(ys, h) <= if h.Floor < |ys| - 1 then ys[h.Floor + 1] else ys[h.Floor]
  {
    hide Lerp;
    var lo := h.Floor;
    if lo < |ys| - 1 {
      assert RealLe(ys[lo], ys[lo + 1]);
      BetweenNeighbours(ys[lo], ys[lo + 1], h - lo as real);
    }
  }

  lemma InterpolateMonotone(ys: seq<real>, g: real, h: real)
    requires ys != [] && 0.0 <= g <= h <= (|ys| - 1) as real && SortedBy(ys, RealLe)
    ensures Interpolate(ys, g) <= Interpolate(ys, h)
  {
    hide Lerp;
    InterpolateBetween(ys, g);
    InterpolateBetween(ys, h);
    var lo, hi := g.Floor, h.Floor;
    if lo == hi && lo < |ys| - 1 {
      assert RealLe(ys[lo], ys[lo + 1]);
      LerpOrder(ys[lo], ys[lo + 1], g - lo as real, h - lo as real);
    } else if lo < hi {
      assert lo + 1 < hi ==> RealLe(ys[lo + 1], ys[hi]);
    }
  }

  /** A higher percentile is never lower; in particular the median is at most the 90th percentile. */
  lemma QuantileMonotone(xs: seq<real>, p: real, q: real)
    requires xs != [] && 0.0 <= p <= q <= 1.0
    ensures Quantile(xs, p) <= Quantile(xs, q)
  {
    hide Position;
    SortIsPermutation(xs, RealLe);
    SortSorts(xs, RealLe);
    PositionOrder(|xs|, p, q);
    InterpolateMonotone(Sort(xs, RealLe), Position(|xs|, p), Position(|xs|, q));
  }

  lemma PositionOrder(n: nat, p: real, q: real)
    requires n > 0 && 0.0 <= p <= q <= 1.0
    ensures Position(n, p) <= Position(n, q)
  {
    hide Part;
    PartOrder(p, q, (n - 1) as real);
  }

  /** Percentiles stay inside the range of the data. */
  lemma QuantileInRange(xs: seq<real>, q: real, lo: real, hi: real)
    requires xs != [] && 0.0 <= q <= 1.0 && forall i :: 0 <= i < |xs| ==> lo <= xs[i] <= hi
    ensures lo <= Quantile(xs, q) <= hi
  {
    hide Position, Interpolate;
    var ys := Sort(xs, RealLe);
    SortIsPermutation(xs, RealLe);
    SortHasSameElements(xs, RealLe);
    SortSorts(xs, RealLe);
    InterpolateBetween(ys, Position(|xs|, q));
    forall i | 0 <= i < |ys|
      ensures lo <= ys[i] <= hi
    {
      assert ys[i] in xs;
    }
  }

  /** A list that is constant has no deviation. */
  lemma MadOfConstant(xs: seq<real>, c: real)
    requires xs != [] && forall i :: 0 <= i < |xs| ==> xs[i] == c
    ensures Median(xs) == c && Mad(xs) == 0.0
  {
    hide Quantile;
    QuantileInRange(xs, 0.5, c, c);
    QuantileInRange(Deviations(xs, c), 0.5, 0.0, 0.0);
  }

  lemma HalfPosition(n: nat)
    requires n > 0
    ensures Position(n, 0.5) == (n - 1) as real / 2.0
    ensures Position(n, 0.5).Floor == (n - 1) / 2
  {
    assert n % 2 == 1 ==> (n - 1) as real / 2.0 == ((n - 1) / 2) as real;
    assert n % 2 == 0 ==> (n - 1) as real / 2.0 == ((n - 1) / 2) as real + 0.5;
  }

  lemma MiddleOfSorted(ys: seq<real>)
    requires ys != []
    ensures var n, m := |ys|, Interpolate(ys, (|ys| - 1) as real / 2.0);
            if n % 2 == 1 then m == ys[n / 2] else 2.0 * m == ys[n / 2 - 1] + ys[n / 2]
  {
    var n := |ys|;
    var k := (n - 1) / 2;
    if n % 2 == 1 {
      assert (n - 1) as real / 2.0 == k as real && (k as real).Floor == k;
      assert k < n - 1 ==> Lerp(ys[k], ys[k + 1], 0.0) == ys[k];
    } else {
      assert (n - 1) as real / 2.0 == k as real + 0.5 && (k as real + 0.5).Floor == k;
      assert Lerp(ys[k], ys[k + 1], 0.5) == ys[k] + 0.5 * (ys[k + 1] - ys[k]);
    }
  }

  /** The middle value, or half way between the two in the middle. */
  lemma MedianIsTheMiddle(xs: seq<real>)
    requires xs != []
    ensures var ys, n := Sort(xs, RealLe), |xs|;
            && |ys| == n && SortedBy(ys, RealLe) && multiset(ys) == multiset(xs)
            && if n % 2 == 1 then Median(xs) == ys[n / 2] else 2.0 * Median(xs) == ys[n / 2 - 1] + ys[n / 2]
  {
    hide Position, Interpolate, Sort, SortedBy;
    SortIsPermutation(xs, RealLe);
    SortSorts(xs, RealLe);
    HalfPosition(|xs|);
    MiddleOfSorted(Sort(xs, RealLe));
  }

  /** Of three values the deviation is the distance from the middle one to the nearer of the others. */
  lemma MadOfThree(a: real, b: real, c: real)
    requires a <= b <= c
    ensures Median([a, b, c]) == b && Mad([a, b, c]) == if b - a <= c - b then b - a else c - b
  {
    hide Median;
    MedianOfThree(a, b, c);
    assert Deviations([a, b, c], b) == [b - a, 0.0, c - b];
    MedianAboveLeast(b - a, 0.0, c - b);
  }

  lemma MedianAboveLeast(x: real, y: real, z: real)
    requires y <= x && y <= z
    ensures Median([x, y, z]) == if x <= z then x else z
  {
    var ds := [x, y, z];
    hide Median, Sort, SortedBy;
    MedianIsTheMiddle(ds);
    assert |ds| % 2 == 1 && |ds| / 2 == 1;
    MiddleOfThree(x, y, z, Sort(ds, RealLe));
  }

  lemma MedianOfThree(a: real, b: real, c: real)
    requires a <= b <= c
    ensures Median([a, b, c]) == b
  {
    var xs := [a, b, c];
    assert SortedBy(xs, RealLe);
    hide Median, Sort, SortedBy, Quantile;
    SortOfSorted(xs, RealLe);
    MedianIsTheMiddle(xs);
    assert |xs| % 2 == 1 && |xs| / 2 == 1 && xs[1] == b;
  }

  lemma MiddleOfThree(x: real, y: real, z: real, ys: seq<real>)
    requires multiset(ys) == multiset([x, y, z]) && SortedBy(ys, RealLe) && |ys| == 3 && y <= x && y <= z
    ensures ys[1] == if x <= z then x else z
  {
    assert RealLe(ys[0], ys[1]) && RealLe(ys[1], ys[2]);
    assert ys == [ys[0], ys[1], ys[2]];
    assert y in multiset(ys) && x in multiset(ys) && z in multiset(ys);
    assert multiset(ys) == multiset{ys[0], ys[1], ys[2]} == multiset{x, y, z};
  }
}
