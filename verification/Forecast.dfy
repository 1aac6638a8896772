/** Early warning: least-squares extrapolation of a working set to its memory limit. */
module Forecast {
  import opened Common
  import opened Ordering
  import Detectors

  const MIN_FIT_N := 6
  const MIN_SLOPE := 0.000000001
  const MAX_ETA := 3600.0

  function Prod(x: real, y: real): real {
    x * y
  }

  // Sums over the samples y[0], y[1], ... taken at t = 0, 1, ...

  function SumT(n: nat): real {
    if n == 0 then 0.0 else SumT(n - 1) + (n - 1) as real
  }

  function SumTT(n: nat): real {
    if n == 0 then 0.0 else SumTT(n - 1) + Prod((n - 1) as real, (n - 1) as real)
  }

  function SumTY(y: seq<real>): real {
    if y == [] then 0.0 else SumTY(y[..|y| - 1]) + Prod((|y| - 1) as real, y[|y| - 1])
  }

  function SumYY(y: seq<real>): real {
    if y == [] then 0.0 else SumYY(y[..|y| - 1]) + Prod(y[|y| - 1], y[|y| - 1])
  }

  /** n times the spread of t, of y, and of the two together. */
  function SpreadT(n: nat): real {
    Prod(n as real, SumTT(n)) - Prod(SumT(n), SumT(n))
  }

  function SpreadY(y: seq<real>): real {
    Prod(|y| as real, SumYY(y)) - Prod(Sum(y), Sum(y))
  }

  function Covariance(y: seq<real>): real {
    Prod(|y| as real, SumTY(y)) - Prod(SumT(|y|), Sum(y))
  }

  /** n^2 (n^2 - 1) / 12: positive from two samples on. */
  lemma {:induction false} SpreadTIsPositive(n: nat)
    ensures SumT(n) == n as real * (n as real - 1.0) / 2.0
    ensures SumTT(n) == n as real * (n as real - 1.0) * (2.0 * n as real - 1.0) / 6.0
    ensures n >= 2 ==> SpreadT(n) > 0.0
  {
    hide SpreadT, Prod;
    if n == 0 {
    } else {
      SpreadTIsPositive(n - 1);
      SumsStep((n - 1) as real);
      assert Prod((n - 1) as real, (n - 1) as real) == (n - 1) as real * (n - 1) as real by {
        ProdIsProduct((n - 1) as real, (n - 1) as real);
      }
      assert n as real == (n - 1) as real + 1.0;
    }
    if n >= 2 {
      SpreadForm(n, n as real);
    }
  }

  lemma ProdIsProduct(x: real, y: real)
    ensures Prod(x, y) == x * y
  {
  }

  lemma SumsStep(m: real)
    ensures m * (m - 1.0) / 2.0 + m == (m + 1.0) * m / 2.0
    ensures m * (m - 1.0) * (2.0 * m - 1.0) / 6.0 + m * m == (m + 1.0) * m * (2.0 * m + 1.0) / 6.0
  {
  }

  lemma SpreadForm(n: nat, r: real)
    requires r == n as real >= 2.0 && SumT(n) == r * (r - 1.0) / 2.0
    requires SumTT(n) == r * (r - 1.0) * (2.0 * r - 1.0) / 6.0
    ensures SpreadT(n) > 0.0
  {
    var a := r * (r - 1.0);
    assert a > 0.0;
    assert SumTT(n) == a * (2.0 * r - 1.0) / 6.0;
    assert SpreadT(n) == r * (a * (2.0 * r - 1.0) / 6.0) - a / 2.0 * (a / 2.0);
    assert a * a == a * (r * r - r);
    assert SpreadT(n) == a * (r * r + r) / 12.0;
    assert r * r + r > 0.0;
  }

  function Slope(y: seq<real>): real
    requires |y| >= 2
  {
    SpreadTIsPositive(|y|);
    Covariance(y) / SpreadT(|y|)
  }

  function Intercept(y: seq<real>): real
    requires |y| >= 2
  {
    (Sum(y) - Prod(Slope(y), SumT(|y|))) / |y| as real
  }

  // The fitted line is the least-squares line.

  /** What the line a + b*t leaves of sample t. */
  function Residual(y: real, t: real, a: real, b: real): real {
    y - a - b * t
  }

  function Square(x: real): real {
    x * x
  }

  function ResidualSum(y: seq<real>, a: real, b: real): real {
    if y == [] then 0.0
    else ResidualSum(y[..|y| - 1], a, b) + Residual(y[|y| - 1], (|y| - 1) as real, a, b)
  }

  function ResidualMoment(y: seq<real>, a: real, b: real): real {
    if y == [] then 0.0
    else ResidualMoment(y[..|y| - 1], a, b) + Prod((|y| - 1) as real, Residual(y[|y| - 1], (|y| - 1) as real, a, b))
  }

  function SquaredError(y: seq<real>, a: real, b: real): real {
    if y == [] then 0.0
    else SquaredError(y[..|y| - 1], a, b) + Square(Residual(y[|y| - 1], (|y| - 1) as real, a, b))
  }

  /** The squared error of the line da + db*t against 0. */
  function LineSquares(n: nat, da: real, db: real): real {
    if n == 0 then 0.0 else LineSquares(n - 1, da, db) + Square(da + Prod(db, (n - 1) as real))
  }

  lemma {:induction false} LineSquaresNonNegative(n: nat, da: real, db: real)
    ensures LineSquares(n, da, db) >= 0.0
  {
    if n == 0 {
    } else {
      LineSquaresNonNegative(n - 1, da, db);
      SquareNonNegative(da + Prod(db, (n - 1) as real));
    }
  }

  lemma SquareNonNegative(x: real)
    ensures Square(x) >= 0.0
  {
  }

  lemma {:induction false} ResidualSums(y: seq<real>, a: real, b: real)
    ensures ResidualSum(y, a, b) == Sum(y) - Prod(a, |y| as real) - Prod(b, SumT(|y|))
    ensures ResidualMoment(y, a, b) == SumTY(y) - Prod(a, SumT(|y|)) - Prod(b, SumTT(|y|))
  {
    hide Prod, Residual;
    if y == [] {
      ProdZero(a);
      ProdZero(b);
    } else {
      var k := |y| - 1;
      var t := k as real;
      ResidualSums(y[..k], a, b);
      assert |y| as real == t + 1.0;
      ResidualParts(a, b, t, y[k]);
      ProdAdd(a, t, 1.0);
      ProdAdd(b, SumT(k), t);
      ProdAdd(a, SumT(k), t);
      ProdAdd(b, SumTT(k), Prod(t, t));
    }
  }

  lemma ProdZero(x: real)
    ensures Prod(x, 0.0) == 0.0
  {
  }

  lemma ProdAdd(x: real, y: real, z: real)
    ensures Prod(x, y + z) == Prod(x, y) + Prod(x, z)
  {
  }

  lemma ResidualParts(a: real, b: real, t: real, v: real)
    ensures Residual(v, t, a, b) == v - Prod(a, 1.0) - Prod(b, t)
    ensures Prod(t, Residual(v, t, a, b)) == Prod(t, v) - Prod(a, t) - Prod(b, Prod(t, t))
  {
  }

  /** Moving the line changes the squared error by cross terms and a non-negative square. */
  lemma {:induction false} ErrorOfMovedLine(y: seq<real>, a: real, b: real, da: real, db: real)
    ensures SquaredError(y, a + da, b + db) ==
            SquaredError(y, a, b) - 2.0 * (Prod(da, ResidualSum(y, a, b)) + Prod(db, ResidualMoment(y, a, b)))
            + LineSquares(|y|, da, db)
  {
    hide Prod, Residual, Square;
    if y == [] {
      ProdZero(da);
      ProdZero(db);
    } else {
      var k := |y| - 1;
      var e := Residual(y[k], k as real, a, b);
      ErrorOfMovedLine(y[..k], a, b, da, db);
      ProdAdd(da, ResidualSum(y[..k], a, b), e);
      ProdAdd(db, ResidualMoment(y[..k], a, b), Prod(k as real, e));
      MovedResidual(y[k], k as real, a, b, da, db);
    }
  }

  lemma MovedResidual(v: real, t: real, a: real, b: real, da: real, db: real)
    ensures var e := Residual(v, t, a, b);
            Square(Residual(v, t, a + da, b + db)) ==
            Square(e) - 2.0 * (Prod(da, e) + Prod(db, Prod(t, e))) + Square(da + Prod(db, t))
  {
    var e, m := Residual(v, t, a, b), da + db * t;
    assert Residual(v, t, a + da, b + db) == e - m;
    assert Square(e - m) == Square(e) - 2.0 * (m * e) + Square(m);
    assert m * e == da * e + db * (t * e);
  }

  /** The fitted line leaves no residual in sum or in first moment. */
  lemma NormalEquations(y: seq<real>)
    requires |y| >= 2
    ensures ResidualSum(y, Intercept(y), Slope(y)) == 0.0
    ensures ResidualMoment(y, Intercept(y), Slope(y)) == 0.0
  {
    hide Prod, Slope, Intercept;
    ResidualSums(y, Intercept(y), Slope(y));
    FittedLine(y, |y| as real, SumT(|y|), SumTT(|y|), Sum(y), SumTY(y), Intercept(y), Slope(y));
    NormalAlgebra(|y| as real, SumT(|y|), SumTT(|y|), Sum(y), SumTY(y), Intercept(y), Slope(y));
  }

  /** The two quotients, multiplied out. */
  lemma FittedLine(y: seq<real>, n: real, st: real, stt: real, sy: real, sty: real, a: real, b: real)
    requires |y| >= 2 && n == |y| as real && st == SumT(|y|) && stt == SumTT(|y|) && sy == Sum(y) && sty == SumTY(y)
    requires a == Intercept(y) && b == Slope(y)
    ensures n > 0.0 && Prod(a, n) == sy - Prod(b, st)
    ensures Prod(b, Prod(n, stt) - Prod(st, st)) == Prod(n, sty) - Prod(st, sy)
  {
    hide SumT, SumTT, SumTY, Sum, Prod;
    SpreadTIsPositive(|y|);
    Quotient(Covariance(y), SpreadT(|y|), b);
    Quotient(sy - Prod(b, st), n, a);
  }

  lemma Quotient(x: real, d: real, q: real)
    requires d > 0.0 && q == x / d
    ensures Prod(q, d) == x
  {
  }

  lemma NormalAlgebra(n: real, st: real, stt: real, sy: real, sty: real, a: real, b: real)
    requires n > 0.0 && Prod(a, n) == sy - Prod(b, st)
    requires Prod(b, Prod(n, stt) - Prod(st, st)) == Prod(n, sty) - Prod(st, sy)
    ensures sy - Prod(a, n) - Prod(b, st) == 0.0
    ensures sty - Prod(a, st) - Prod(b, stt) == 0.0
  {
    var m := sty - a * st - b * stt;
    assert m * n == n * sty - (a * n) * st - b * (n * stt);
    assert m * n == 0.0;
  }

  /** No line fits better than the fitted one. */
  lemma LeastSquares(y: seq<real>, a: real, b: real)
    requires |y| >= 2
    ensures SquaredError(y, Intercept(y), Slope(y)) <= SquaredError(y, a, b)
  {
    hide Slope, Intercept, SquaredError, Prod;
    var a0, b0 := Intercept(y), Slope(y);
    NormalEquations(y);
    ErrorOfMovedLine(y, a0, b0, a - a0, b - b0);
    LineSquaresNonNegative(|y|, a - a0, b - b0);
    ProdZero(a - a0);
    ProdZero(b - b0);
  }

  // Extrapolation.

  /** The correlation of y with time is at least 1/2, written without the square root. */
  predicate WellFitted(y: seq<real>) {
    Covariance(y) > 0.0 && 4.0 * Prod(Covariance(y), Covariance(y)) >= Prod(SpreadT(|y|), SpreadY(y))
  }

  predicate Trending(y: seq<real>)
    requires |y| >= 2
  {
    Slope(y) > MIN_SLOPE && WellFitted(y)
  }

  /** Seconds until the limit is hit, if the series is truly heading there. */
  function ForecastToLimit(x: seq<real>, limit: real, tail: nat): Option<real>
    requires |LastN(x, tail)| >= 2
  {
    var y := LastN(x, tail);
    if !Trending(y) then None
    else
      var left := (limit - y[|y| - 1]) / Slope(y);
      var eta := left * Detectors.DT_S;
      if left < 0.0 || eta > MAX_ETA then None else Some(eta)
  }

  /** A forecast is the time at which the fitted slope takes the last value to the limit; there is one
      exactly for a trending series that has not passed the limit and reaches it within the hour. */
  lemma ForecastMeans(x: seq<real>, limit: real, tail: nat)
    requires |LastN(x, tail)| >= 2
    ensures var y := LastN(x, tail); var last := y[|y| - 1];
            && (ForecastToLimit(x, limit, tail).Some? <==>
                  Trending(y) && last <= limit && (limit - last) * Detectors.DT_S <= MAX_ETA * Slope(y))
            && (ForecastToLimit(x, limit, tail).Some? ==>
                  var eta := ForecastToLimit(x, limit, tail).value;
                  0.0 <= eta <= MAX_ETA && last + Slope(y) * (eta / Detectors.DT_S) == limit)
  {
    hide Slope, WellFitted;
    var y := LastN(x, tail);
    if Trending(y) {
      EtaMeans(limit - y[|y| - 1], Slope(y), (limit - y[|y| - 1]) / Slope(y));
    }
  }

  lemma EtaMeans(gap: real, slope: real, left: real)
    requires slope > 0.0 && left == gap / slope
    ensures left < 0.0 <==> gap < 0.0
    ensures left * 5.0 > MAX_ETA <==> gap * 5.0 > MAX_ETA * slope
    ensures slope * (left * 5.0 / 5.0) == gap
  {
    assert left * slope == gap;
    var d := left * 5.0 - MAX_ETA;
    assert d * slope == gap * 5.0 - MAX_ETA * slope;
  }

  /** The least squared error of a line that does not rise: the deviation from the mean. */
  function Deviation(y: seq<real>): real
    requires y != []
  {
    SquaredError(y, Sum(y) / |y| as real, 0.0)
  }

  lemma {:induction false} ErrorParts(y: seq<real>, a: real, b: real)
    ensures SquaredError(y, a, b) ==
            SumYY(y) - Prod(a, Sum(y)) - Prod(b, SumTY(y))
            - Prod(a, ResidualSum(y, a, b)) - Prod(b, ResidualMoment(y, a, b))
  {
    hide Prod, Square, Residual;
    if y == [] {
      ProdZero(a);
      ProdZero(b);
    } else {
      var k := |y| - 1;
      var e := Residual(y[k], k as real, a, b);
      ErrorParts(y[..k], a, b);
      ProdAdd(a, Sum(y[..k]), y[k]);
      ProdAdd(b, SumTY(y[..k]), Prod(k as real, y[k]));
      ProdAdd(a, ResidualSum(y[..k], a, b), e);
      ProdAdd(b, ResidualMoment(y[..k], a, b), Prod(k as real, e));
      SquareParts(y[k], k as real, a, b);
    }
  }

  lemma SquareParts(v: real, t: real, a: real, b: real)
    ensures var e := Residual(v, t, a, b);
            Square(e) == Prod(v, v) - Prod(a, v) - Prod(b, Prod(t, v)) - Prod(a, e) - Prod(b, Prod(t, e))
  {
    var e := Residual(v, t, a, b);
    assert e == v - a - b * t;
    assert e * e == v * e - a * e - b * (t * e);
    assert v * e == v * v - a * v - b * (t * v);
  }

  /** What the fitted line leaves, n times: the spread of the values less slope times covariance; and the same for the
      mean, without the line. */
  lemma ErrorOfFit(y: seq<real>)
    requires |y| >= 2
    ensures Prod(|y| as real, SquaredError(y, Intercept(y), Slope(y))) == SpreadY(y) - Prod(Slope(y), Covariance(y))
    ensures Prod(|y| as real, Deviation(y)) == SpreadY(y)
  {
    hide SquaredError, SumYY, SumTY, Sum, SumT, SumTT, ResidualSum, ResidualMoment, Prod, Slope, Intercept;
    var n, a, b, mean := |y| as real, Intercept(y), Slope(y), Sum(y) / |y| as real;
    NormalEquations(y);
    ErrorParts(y, a, b);
    ErrorParts(y, mean, 0.0);
    ResidualSums(y, mean, 0.0);
    FittedLine(y, n, SumT(|y|), SumTT(|y|), Sum(y), SumTY(y), a, b);
    Quotient(Sum(y), n, mean);
    ProdZero(a);
    ProdZero(b);
    FitAlgebra(n, SumT(|y|), Sum(y), SumTY(y), SumYY(y), a, b);
    MeanAlgebra(n, SumT(|y|), Sum(y), SumTY(y), SumYY(y), ResidualMoment(y, mean, 0.0), mean);
  }

  lemma FitAlgebra(n: real, st: real, sy: real, sty: real, syy: real, a: real, b: real)
    requires Prod(a, n) == sy - Prod(b, st)
    ensures Prod(n, syy - Prod(a, sy) - Prod(b, sty)) ==
            Prod(n, syy) - Prod(sy, sy) - Prod(b, Prod(n, sty) - Prod(st, sy))
  {
    assert n * (syy - a * sy - b * sty) == n * syy - (a * n) * sy - b * (n * sty);
    assert (sy - b * st) * sy == sy * sy - b * (st * sy);
  }

  lemma MeanAlgebra(n: real, st: real, sy: real, sty: real, syy: real, m: real, mean: real)
    requires Prod(mean, n) == sy
    ensures Prod(n, syy - Prod(mean, sy) - Prod(0.0, sty)
                    - Prod(mean, sy - Prod(mean, n) - Prod(0.0, st)) - Prod(0.0, m)) ==
            Prod(n, syy) - Prod(sy, sy)
  {
    assert n * (syy - mean * sy) == n * syy - (mean * n) * sy;
    assert mean * 0.0 == 0.0;
  }

  /** The guard against noise: a rising line counts as a trend exactly if it leaves at most three quarters of the
      squared deviation from the mean. */
  lemma TrendIff(y: seq<real>)
    requires |y| >= 2
    ensures Trending(y) <==>
            Slope(y) > 0.000000001 && SquaredError(y, Intercept(y), Slope(y)) <= 0.75 * Deviation(y)
  {
    hide Prod, SquaredError, Slope, Intercept, SpreadT, SpreadY, Covariance, Deviation;
    var n := |y| as real;
    SpreadTIsPositive(|y|);
    ErrorOfFit(y);
    SlopeTimesSpread(y);
    if Slope(y) > 0.0 {
      TrendAlgebra(n, SpreadT(|y|), SpreadY(y), Covariance(y), Slope(y),
                   SquaredError(y, Intercept(y), Slope(y)), Deviation(y));
    }
  }

  lemma SlopeTimesSpread(y: seq<real>)
    requires |y| >= 2
    ensures SpreadT(|y|) > 0.0 && Prod(Slope(y), SpreadT(|y|)) == Covariance(y)
  {
    hide SpreadT, Covariance, Prod;
    SpreadTIsPositive(|y|);
    Quotient(Covariance(y), SpreadT(|y|), Slope(y));
  }

  lemma TrendAlgebra(n: real, s: real, v: real, c: real, b: real, left: real, all: real)
    requires n > 0.0 && s > 0.0 && b > 0.0 && Prod(b, s) == c
    requires Prod(n, left) == v - Prod(b, c) && Prod(n, all) == v
    ensures c > 0.0
    ensures 4.0 * Prod(c, c) >= Prod(s, v) <==> left <= 0.75 * all
  {
    assert c == b * s && c > 0.0;
    assert n * (0.75 * all - left) == b * c - 0.25 * v;
    assert s * (4.0 * (b * c) - v) == 4.0 * (c * c) - s * v by {
      assert s * (b * c) == (b * s) * c;
    }
    SignOfFactor(n, 0.75 * all - left);
    SignOfFactor(s, 4.0 * (b * c) - v);
  }

  lemma SignOfFactor(n: real, x: real)
    requires n > 0.0
    ensures n * x >= 0.0 <==> x >= 0.0
  {
  }

  ghost predicate IsRamp(y: seq<real>, a: real, b: real) {
    forall i :: 0 <= i < |y| ==> y[i] == a + Prod(b, i as real)
  }

  lemma {:induction false} RampSums(y: seq<real>, a: real, b: real)
    requires IsRamp(y, a, b)
    ensures Sum(y) == Prod(a, |y| as real) + Prod(b, SumT(|y|))
    ensures SumTY(y) == Prod(a, SumT(|y|)) + Prod(b, SumTT(|y|))
    ensures SumYY(y) == Prod(Prod(a, a), |y| as real) + Prod(2.0 * Prod(a, b), SumT(|y|)) + Prod(Prod(b, b), SumTT(|y|))
  {
    hide Prod;
    if y == [] {
      ProdZero(a);
      ProdZero(b);
      ProdZero(Prod(a, a));
      ProdZero(2.0 * Prod(a, b));
      ProdZero(Prod(b, b));
    } else {
      var k := |y| - 1;
      var t := k as real;
      RampSums(y[..k], a, b);
      assert |y| as real == t + 1.0;
      RampParts(a, b, t);
      ProdAdd(a, t, 1.0);
      ProdAdd(b, SumT(k), t);
      ProdAdd(a, SumT(k), t);
      ProdAdd(b, SumTT(k), Prod(t, t));
      ProdAdd(Prod(a, a), t, 1.0);
      ProdAdd(2.0 * Prod(a, b), SumT(k), t);
      ProdAdd(Prod(b, b), SumTT(k), Prod(t, t));
    }
  }

  lemma RampParts(a: real, b: real, t: real)
    ensures a + Prod(b, t) == Prod(a, 1.0) + Prod(b, t)
    ensures Prod(t, a + Prod(b, t)) == Prod(a, t) + Prod(b, Prod(t, t))
    ensures Prod(a + Prod(b, t), a + Prod(b, t)) ==
            Prod(Prod(a, a), 1.0) + Prod(2.0 * Prod(a, b), t) + Prod(Prod(b, b), Prod(t, t))
  {
    var m := b * t;
    assert t * (a + m) == a * t + b * (t * t);
    assert m * m == (b * b) * (t * t);
  }

  /** On an exact ramp the spreads are powers of the slope. */
  lemma RampSpreads(y: seq<real>, a: real, b: real)
    requires IsRamp(y, a, b)
    ensures Covariance(y) == Prod(b, SpreadT(|y|))
    ensures SpreadY(y) == Prod(Prod(b, b), SpreadT(|y|))
  {
    hide Prod;
    RampSums(y, a, b);
    RampAlgebra(|y| as real, SumT(|y|), SumTT(|y|), a, b);
  }

  lemma RampAlgebra(n: real, st: real, stt: real, a: real, b: real)
    ensures Prod(n, Prod(a, st) + Prod(b, stt)) - Prod(st, Prod(a, n) + Prod(b, st)) ==
            Prod(b, Prod(n, stt) - Prod(st, st))
    ensures Prod(n, Prod(Prod(a, a), n) + Prod(2.0 * Prod(a, b), st) + Prod(Prod(b, b), stt))
            - Prod(Prod(a, n) + Prod(b, st), Prod(a, n) + Prod(b, st)) ==
            Prod(Prod(b, b), Prod(n, stt) - Prod(st, st))
  {
    hide Prod;
    RampVariance(n, st, stt, a, b);
    RampCovariance(n, st, stt, a, b);
  }

  lemma RampCovariance(n: real, st: real, stt: real, a: real, b: real)
    ensures Prod(n, Prod(a, st) + Prod(b, stt)) - Prod(st, Prod(a, n) + Prod(b, st)) ==
            Prod(b, Prod(n, stt) - Prod(st, st))
  {
    assert n * (a * st + b * stt) == n * (a * st) + n * (b * stt);
    assert st * (a * n + b * st) == st * (a * n) + st * (b * st);
  }

  lemma RampVariance(n: real, st: real, stt: real, a: real, b: real)
    ensures Prod(n, Prod(Prod(a, a), n) + Prod(2.0 * Prod(a, b), st) + Prod(Prod(b, b), stt))
            - Prod(Prod(a, n) + Prod(b, st), Prod(a, n) + Prod(b, st)) ==
            Prod(Prod(b, b), Prod(n, stt) - Prod(st, st))
  {
    var p, q := a * n, b * st;
    assert (p + q) * (p + q) == p * p + 2.0 * (p * q) + q * q;
    assert n * (a * a * n) == p * p;
    assert n * (2.0 * (a * b) * st) == 2.0 * (p * q);
    assert b * b * (st * st) == q * q;
    assert n * (b * b * stt) == b * b * (n * stt);
  }

  /** An exact rising ramp is recovered exactly and forecast along its own line. */
  lemma RampIsForecast(y: seq<real>, limit: real, a: real, b: real)
    requires |y| >= 2 && IsRamp(y, a, b) && b > MIN_SLOPE
    ensures Slope(y) == b && Trending(y)
    ensures var gap := limit - y[|y| - 1];
            ForecastToLimit(y, limit, |y|) ==
            if gap < 0.0 || gap / b * Detectors.DT_S > MAX_ETA then None else Some(gap / b * Detectors.DT_S)
  {
    hide SpreadT, Covariance, SpreadY;
    SpreadTIsPositive(|y|);
    RampSpreads(y, a, b);
    RampFit(b, SpreadT(|y|), Covariance(y), SpreadY(y));
    assert LastN(y, |y|) == y;
    EtaMeans(limit - y[|y| - 1], b, (limit - y[|y| - 1]) / b);
  }

  lemma RampFit(b: real, s: real, c: real, v: real)
    requires b > 0.0 && s > 0.0 && c == Prod(b, s) && v == Prod(Prod(b, b), s)
    ensures c / s == b && c > 0.0 && 4.0 * Prod(c, c) >= Prod(s, v)
  {
    assert c > 0.0;
    assert c * c == s * v;
    assert s * v > 0.0;
  }

  // Where the fit starts.

  function LastUp(onsets: seq<Detectors.Onset>): Option<nat> {
    if onsets == [] then None
    else if onsets[|onsets| - 1].dir.Up? then Some(onsets[|onsets| - 1].idx)
    else LastUp(onsets[..|onsets| - 1])
  }

  /** From the last upward onset, but at most `tail` and at least `minN` samples. */
  function FitStart(n: nat, onsets: seq<Detectors.Onset>, tail: nat, minN: nat): nat {
    var lo := match LastUp(onsets) case None => n - tail case Some(up) => if n - tail < up then up else n - tail;
    var bounded := if lo < n - minN then lo else n - minN;
    if bounded < 0 then 0 else bounded
  }

  method FitSegment(x: seq<real>, tail: nat, minN: nat) returns (seg: seq<real>)
    ensures FitStart(|x|, Detectors.OnsetsOfSignal(x), tail, minN) <= |x|
    ensures seg == x[FitStart(|x|, Detectors.OnsetsOfSignal(x), tail, minN)..]
  {
    var onsets := Detectors.CusumOnsets(x);
    FitStartInside(|x|, onsets, tail, minN);
    seg := x[FitStart(|x|, onsets, tail, minN)..];
  }

  lemma FitStartInside(n: nat, onsets: seq<Detectors.Onset>, tail: nat, minN: nat)
    ensures FitStart(n, onsets, tail, minN) <= if n < minN then 0 else n - minN
  {
  }

  /** A long enough series is fitted over at least minN and at most max(tail, minN) samples, and over
      nothing before the last upward onset unless minN asks for it. */
  lemma FitLength(n: nat, onsets: seq<Detectors.Onset>, tail: nat, minN: nat)
    requires n >= minN
    ensures var start := FitStart(n, onsets, tail, minN); var len := n - start;
            && minN <= len <= (if tail < minN then minN else tail)
            && (LastUp(onsets).Some? ==> start >= LastUp(onsets).value || len == minN)
  {
  }

  /** The onset the fit is anchored at is the latest upward one. */
  lemma {:induction false} LastUpIsLatest(onsets: seq<Detectors.Onset>, i: nat)
    requires forall a, b :: 0 <= a < b < |onsets| && onsets[a].dir == onsets[b].dir ==> onsets[a].idx <= onsets[b].idx
    requires i < |onsets| && onsets[i].dir.Up?
    ensures LastUp(onsets).Some? && onsets[i].idx <= LastUp(onsets).value
  {
    var k := |onsets| - 1;
    if i < k && !onsets[k].dir.Up? {
      LastUpIsLatest(onsets[..k], i);
    }
  }

  lemma AnchorIsLatestUp(x: seq<real>, i: nat)
    requires i < |Detectors.OnsetsOfSignal(x)| && Detectors.OnsetsOfSignal(x)[i].dir.Up?
    ensures LastUp(Detectors.OnsetsOfSignal(x)).Some?
    ensures Detectors.OnsetsOfSignal(x)[i].idx <= LastUp(Detectors.OnsetsOfSignal(x)).value
  {
    hide Detectors.OnsetsOfSignal;
    var os := Detectors.OnsetsOfSignal(x);
    forall a, b | 0 <= a < b < |os| && os[a].dir == os[b].dir
      ensures os[a].idx <= os[b].idx
    {
      Detectors.SameDirectionInOrder(x, a, b);
    }
    LastUpIsLatest(os, i);
  }

  /** The fit may start at s: it leaves at least minN and at most tail samples, and nothing before an upward onset. */
  ghost predicate MayStart(x: seq<real>, tail: nat, minN: nat, s: nat) {
    && s + minN <= |x| && |x| - s <= tail
    && forall o :: o in Detectors.OnsetsOfSignal(x) && o.dir.Up? ==> o.idx <= s
  }

  /** The fitted segment is as long as it may be: it starts at the first sample at which it may, and where it may start
      nowhere it has exactly minN samples. A series of at most minN samples is fitted whole. */
  lemma FitIsLongest(x: seq<real>, tail: nat, minN: nat)
    ensures var start := FitStart(|x|, Detectors.OnsetsOfSignal(x), tail, minN);
            && (|x| <= minN ==> start == 0)
            && (|x| >= minN && (exists s :: MayStart(x, tail, minN, s)) ==>
                  MayStart(x, tail, minN, start) && forall s :: MayStart(x, tail, minN, s) ==> start <= s)
            && (|x| >= minN && !(exists s :: MayStart(x, tail, minN, s)) ==> start == |x| - minN)
  {
    hide Detectors.OnsetsOfSignal;
    var os := Detectors.OnsetsOfSignal(x);
    var start, up := FitStart(|x|, os, tail, minN), LastUp(os);
    forall o | o in os && o.dir.Up?
      ensures up.Some? && o.idx <= up.value
    {
      var i :| 0 <= i < |os| && os[i] == o;
      AnchorIsLatestUp(x, i);
    }
    LastUpIsOnset(os);
    if |x| >= minN {
      var lo := if up.Some? && up.value > |x| - tail then up.value else if |x| > tail then |x| - tail else 0;
      assert MayStart(x, tail, minN, lo) <==> lo + minN <= |x|;
      assert forall s :: MayStart(x, tail, minN, s) ==> lo <= s && lo + minN <= |x|;
    }
  }

  lemma {:induction false} LastUpIsOnset(onsets: seq<Detectors.Onset>)
    ensures LastUp(onsets).Some? ==> exists o :: o in onsets && o.dir.Up? && o.idx == LastUp(onsets).value
  {
    if onsets != [] {
      var k := |onsets| - 1;
      LastUpIsOnset(onsets[..k]);
      assert onsets == onsets[..k] + [onsets[k]];
    }
  }

  // Warnings.

  datatype Incipient = Incipient(pod: string, eta: real, value: real, limit: real, headroom: real)

  predicate SoonerFirst(a: Incipient, b: Incipient) {
    a.eta <= b.eta
  }

  /** The warning for one pod, if its working set is close to the limit and heading there in time. */
  ghost function WarningOf(pod: string, x: seq<real>, limit: real,
                           horizon: real, tail: nat, minFrac: real): Option<Incipient>
    requires |x| >= 2
  {
    var cur := x[|x| - 1];
    if limit <= 0.0 || cur < minFrac * limit then None
    else
      FitStartInside(|x|, Detectors.OnsetsOfSignal(x), tail, MIN_FIT_N);
      var seg := x[FitStart(|x|, Detectors.OnsetsOfSignal(x), tail, MIN_FIT_N)..];
      match ForecastToLimit(seg, limit, |seg|)
      case None => None
      case Some(eta) =>
        if eta > horizon then None
        else Some(Incipient(pod, eta, cur, limit, Max(0.0, 1.0 - cur / limit)))
  }

  /** The warnings of all pods that have a limit and data, in pod order. */
  ghost function Warnings(pods: seq<string>, mem: map<string, seq<real>>, limits: map<string, real>,
                          horizon: real, tail: nat, minFrac: real): seq<Incipient>
    requires forall p :: p in pods ==> p in mem && |mem[p]| != 1
  {
    if pods == [] then []
    else
      var front, p := Warnings(pods[..|pods| - 1], mem, limits, horizon, tail, minFrac), pods[|pods| - 1];
      if p !in limits || mem[p] == [] then front
      else
        match WarningOf(p, mem[p], limits[p], horizon, tail, minFrac)
        case None => front
        case Some(w) => front + [w]
  }

  method Warn(pod: string, x: seq<real>, limit: real, horizon: real, tail: nat, minFrac: real)
    returns (w: Option<Incipient>)
    requires |x| >= 2
    ensures w == WarningOf(pod, x, limit, horizon, tail, minFrac)
  {
    hide ForecastToLimit, FitStart, Detectors.OnsetsOfSignal;
    w := None;
    var cur := x[|x| - 1];
    if limit > 0.0 && cur >= minFrac * limit {
      FitStartInside(|x|, Detectors.OnsetsOfSignal(x), tail, MIN_FIT_N);
      var seg := FitSegment(x, tail, MIN_FIT_N);
      var eta := ForecastToLimit(seg, limit, |seg|);
      if eta.Some? && eta.value <= horizon {
        w := Some(Incipient(pod, eta.value, cur, limit, Max(0.0, 1.0 - cur / limit)));
      }
    }
  }

  method IncipientFindings(mem: Dict<seq<real>>, limits: map<string, real>, horizon: real, tail: nat, minFrac: real)
    returns (out: seq<Incipient>)
    requires mem.Valid() && forall p :: p in mem.at ==> |mem.at[p]| != 1
    ensures out == Sort(Warnings(mem.keys, mem.at, limits, horizon, tail, minFrac), SoonerFirst)
  {
    hide WarningOf;
    out := [];
    for i := 0 to |mem.keys|
      invariant out == Warnings(mem.keys[..i], mem.at, limits, horizon, tail, minFrac)
    {
      var pod := mem.keys[i];
      var x := mem.at[pod];
      assert mem.keys[..i + 1][..i] == mem.keys[..i];
      if pod in limits && x != [] {
        var w := Warn(pod, x, limits[pod], horizon, tail, minFrac);
        if w.Some? {
          out := out + [w.value];
        }
      }
    }
    assert mem.keys[..|mem.keys|] == mem.keys;
    out := Sort(out, SoonerFirst);
  }

  lemma {:induction false} WarningsAreWarnings(pods: seq<string>, mem: map<string, seq<real>>,
                                               limits: map<string, real>,
                                               horizon: real, tail: nat, minFrac: real, w: Incipient)
    requires forall p :: p in pods ==> p in mem && |mem[p]| != 1
    ensures w in Warnings(pods, mem, limits, horizon, tail, minFrac) <==>
            w.pod in pods && w.pod in limits && mem[w.pod] != []
            && WarningOf(w.pod, mem[w.pod], limits[w.pod], horizon, tail, minFrac) == Some(w)
  {
    hide WarningOf;
    if pods == [] {
    } else {
      var front, p := pods[..|pods| - 1], pods[|pods| - 1];
      assert pods == front + [p];
      WarningsAreWarnings(front, mem, limits, horizon, tail, minFrac, w);
      if p in limits && mem[p] != [] {
        PodOfWarning(p, mem[p], limits[p], horizon, tail, minFrac);
      }
    }
  }

  lemma PodOfWarning(pod: string, x: seq<real>, limit: real, horizon: real, tail: nat, minFrac: real)
    requires |x| >= 2
    ensures var w := WarningOf(pod, x, limit, horizon, tail, minFrac); w.Some? ==> w.value.pod == pod
  {
  }

  /** The list served: soonest first, and a warning is on it exactly when its pod has a positive limit,
      sits past the fraction of it, and its active climb reaches the limit within the horizon. */
  lemma ServedWarnings(mem: Dict<seq<real>>, limits: map<string, real>,
                       horizon: real, tail: nat, minFrac: real, w: Incipient)
    requires mem.Valid() && forall p :: p in mem.at ==> |mem.at[p]| != 1
    ensures var out := Sort(Warnings(mem.keys, mem.at, limits, horizon, tail, minFrac), SoonerFirst);
            && (forall i, j :: 0 <= i < j < |out| ==> out[i].eta <= out[j].eta)
            && (w in out <==> w.pod in mem.keys && w.pod in limits && mem.at[w.pod] != []
                              && WarningOf(w.pod, mem.at[w.pod], limits[w.pod], horizon, tail, minFrac) == Some(w))
  {
    hide WarningOf;
    var ws := Warnings(mem.keys, mem.at, limits, horizon, tail, minFrac);
    SortSorts(ws, SoonerFirst);
    SortHasSameElements(ws, SoonerFirst);
    WarningsAreWarnings(mem.keys, mem.at, limits, horizon, tail, minFrac, w);
  }

  /** Every warning is earned: positive limit, past the fraction, and a time inside the horizon at
      which the fitted climb meets the limit. */
  lemma WarningIsEarned(pod: string, x: seq<real>, limit: real, horizon: real, tail: nat, minFrac: real)
    requires |x| >= 2 && WarningOf(pod, x, limit, horizon, tail, minFrac).Some?
    ensures FitStart(|x|, Detectors.OnsetsOfSignal(x), tail, MIN_FIT_N) + 2 <= |x|
    ensures var w := WarningOf(pod, x, limit, horizon, tail, minFrac).value;
            var seg := x[FitStart(|x|, Detectors.OnsetsOfSignal(x), tail, MIN_FIT_N)..];
            && limit > 0.0 && w.value == x[|x| - 1] >= minFrac * limit && 0.0 <= w.eta <= horizon
            && Trending(seg) && w.value + Slope(seg) * (w.eta / Detectors.DT_S) == limit
  {
    hide ForecastToLimit, Trending, Slope, FitStart, Detectors.OnsetsOfSignal;
    FitStartInside(|x|, Detectors.OnsetsOfSignal(x), tail, MIN_FIT_N);
    var seg := x[FitStart(|x|, Detectors.OnsetsOfSignal(x), tail, MIN_FIT_N)..];
    ForecastMeans(seg, limit, |seg|);
    assert LastN(seg, |seg|) == seg;
  }

  /** Exactly who is warned of: a pod past the fraction of a positive limit whose fitted segment is a trend that reaches
      the limit within the hour and within the horizon. */
  lemma WarnedIff(pod: string, x: seq<real>, limit: real, horizon: real, tail: nat, minFrac: real)
    requires |x| >= 2
    ensures FitStart(|x|, Detectors.OnsetsOfSignal(x), tail, MIN_FIT_N) + 2 <= |x|
    ensures var seg := x[FitStart(|x|, Detectors.OnsetsOfSignal(x), tail, MIN_FIT_N)..];
            WarningOf(pod, x, limit, horizon, tail, minFrac).Some? <==>
            limit > 0.0 && x[|x| - 1] >= minFrac * limit && ReachesInTime(seg, limit, horizon)
  {
    hide ReachesInTime, FitStart, Detectors.OnsetsOfSignal, ForecastToLimit, Max;
    FitStartInside(|x|, Detectors.OnsetsOfSignal(x), tail, MIN_FIT_N);
    var seg := x[FitStart(|x|, Detectors.OnsetsOfSignal(x), tail, MIN_FIT_N)..];
    ForecastIff(seg, limit, horizon);
  }

  /** A trend from the last value, not above the limit, that meets it within the hour and within the horizon, a sample
      being 5 seconds. */
  predicate ReachesInTime(seg: seq<real>, limit: real, horizon: real)
    requires |seg| >= 2
  {
    var gap := (limit - seg[|seg| - 1]) * 5.0;
    Trending(seg) && gap >= 0.0 && gap <= 3600.0 * Slope(seg) && gap <= horizon * Slope(seg)
  }

  /** And what is said: the pod, its last value and its limit, the time at which the slope takes the one to the other,
      and the part of the limit that is left. */
  lemma WarningSays(pod: string, x: seq<real>, limit: real, horizon: real, tail: nat, minFrac: real)
    requires |x| >= 2 && WarningOf(pod, x, limit, horizon, tail, minFrac).Some?
    ensures FitStart(|x|, Detectors.OnsetsOfSignal(x), tail, MIN_FIT_N) + 2 <= |x|
    ensures var seg := x[FitStart(|x|, Detectors.OnsetsOfSignal(x), tail, MIN_FIT_N)..];
            var cur, w := x[|x| - 1], WarningOf(pod, x, limit, horizon, tail, minFrac).value;
            && w.pod == pod && w.value == cur && w.limit == limit
            && w.eta * Slope(seg) == (limit - cur) * 5.0 && w.headroom * limit == limit - cur
  {
    hide Slope, Trending, FitStart, Detectors.OnsetsOfSignal, ForecastToLimit, Max;
    FitStartInside(|x|, Detectors.OnsetsOfSignal(x), tail, MIN_FIT_N);
    var seg := x[FitStart(|x|, Detectors.OnsetsOfSignal(x), tail, MIN_FIT_N)..];
    ForecastIff(seg, limit, horizon);
    HeadroomMeans(x[|x| - 1], limit, x[|x| - 1] / limit);
  }

  lemma ForecastIff(seg: seq<real>, limit: real, horizon: real)
    requires |seg| >= 2
    ensures |LastN(seg, |seg|)| >= 2
    ensures var cur, eta := seg[|seg| - 1], ForecastToLimit(seg, limit, |seg|);
            && (eta.Some? && eta.value <= horizon <==> ReachesInTime(seg, limit, horizon))
            && (eta.Some? ==> eta.value * Slope(seg) == (limit - cur) * 5.0 && cur <= limit)
  {
    hide Trending, Slope;
    assert LastN(seg, |seg|) == seg;
    TrendRises(seg);
    var cur := seg[|seg| - 1];
    if Trending(seg) {
      EtaBounds(limit - cur, Slope(seg), (limit - cur) / Slope(seg), horizon);
    }
  }

  lemma TrendRises(y: seq<real>)
    requires |y| >= 2
    ensures Trending(y) ==> Slope(y) > 0.0
  {
    hide Slope, WellFitted;
  }

  lemma EtaBounds(gap: real, slope: real, left: real, horizon: real)
    requires slope > 0.0 && left == gap / slope
    ensures left < 0.0 <==> gap < 0.0
    ensures left * 5.0 > MAX_ETA <==> gap * 5.0 > 3600.0 * slope
    ensures left * 5.0 > horizon <==> gap * 5.0 > horizon * slope
    ensures left * 5.0 * slope == gap * 5.0
  {
    assert left * slope == gap;
    var d, e := left * 5.0 - MAX_ETA, left * 5.0 - horizon;
    assert d * slope == gap * 5.0 - MAX_ETA * slope;
    assert e * slope == gap * 5.0 - horizon * slope;
    SignOfFactor(slope, d);
    SignOfFactor(slope, e);
    SignOfFactor(slope, -d);
    SignOfFactor(slope, -e);
  }

  lemma HeadroomMeans(cur: real, limit: real, q: real)
    requires limit > 0.0 && q == cur / limit
    ensures cur <= limit ==> Max(0.0, 1.0 - q) * limit == limit - cur
  {
    assert q * limit == cur;
    assert (1.0 - q) * limit == limit - cur;
    SignOfFactor(limit, 1.0 - q);
  }
}
