/** What onsets promise about their order and the warmup, and signals on which they do not. */
module OnsetLaws {
  import opened Common
  import opened Detectors
  import opened Statistics
  import Ordering

  /** The alarms behind the onsets of a signal. */
  ghost function AlarmsOf(x: seq<real>): (alarms: seq<Alarm>)
    ensures |alarms| == |OnsetsOfSignal(x)|
    ensures forall i :: 0 <= i < |alarms| ==>
              && WARMUP <= alarms[i].at < |x| && |x| >= WARMUP + 4
              && OnsetsOfSignal(x)[i] == OnsetOf(ZScores(x), alarms[i])
    ensures forall i, j :: 0 <= i < j < |alarms| ==> alarms[i].at < alarms[j].at
  {
    if |x| < WARMUP + 4 then []
    else
      AlarmsAreSpaced(ZScores(x), K, H, WARMUP, WARMUP, WARMUP);
      Alarms(ZScores(x), K, H, WARMUP, WARMUP, WARMUP)
  }

  /** Alarms respect the warmup, onsets need not: one lies inside it exactly when the stretch that
      leads to its alarm reaches back into it unbroken. */
  lemma OnsetInsideWarmupIff(x: seq<real>, i: nat)
    requires i < |OnsetsOfSignal(x)|
    ensures var a := AlarmsOf(x)[i];
            OnsetsOfSignal(x)[i].idx < WARMUP <==>
            forall t :: WARMUP - 1 <= t < a.at ==> Signed(a.dir, ZScores(x)[t]) > 0.5
  {
    hide ZScores, AlarmsOf, OnsetsOfSignal;
    var a := AlarmsOf(x)[i];
    assert OnsetsOfSignal(x)[i] == OnsetOf(ZScores(x), a);
    BacktrackInsideWarmupIff(ZScores(x), a.at, a.dir);
  }

  /** Onsets of opposite directions come out of order exactly when the stretch of the later alarm covers
      the earlier alarm and the sample before it. */
  lemma OutOfOrderIff(x: seq<real>, i: nat, j: nat)
    requires i < j < |OnsetsOfSignal(x)| && OnsetsOfSignal(x)[i].dir != OnsetsOfSignal(x)[j].dir
    ensures var a, b := AlarmsOf(x)[i], AlarmsOf(x)[j];
            OnsetsOfSignal(x)[j].idx < OnsetsOfSignal(x)[i].idx <==>
            forall t :: a.at - 1 <= t < b.at ==> Signed(b.dir, ZScores(x)[t]) > 0.5
  {
    hide ZScores, AlarmsOf, OnsetsOfSignal;
    var a, b := AlarmsOf(x)[i], AlarmsOf(x)[j];
    assert OnsetsOfSignal(x)[i] == OnsetOf(ZScores(x), a) && OnsetsOfSignal(x)[j] == OnsetOf(ZScores(x), b);
    BacktracksCrossIff(ZScores(x), a.at, b.at, a.dir, b.dir);
  }

  // Every sequence of residuals is that of some signal.

  /** The signal with the given residuals: each sample is its residual on top of the average so far. */
  function SignalOf(r: seq<real>, alpha: real): (x: seq<real>)
    ensures |x| == |r|
  {
    if |r| <= 1 then r
    else
      var front := SignalOf(r[..|r| - 1], alpha);
      front + [EwmaOf(front, alpha)[|r| - 2] + r[|r| - 1]]
  }

  lemma {:induction false} SignalHasResiduals(r: seq<real>, alpha: real)
    requires r != [] && r[0] == 0.0
    ensures Residuals(SignalOf(r, alpha), EwmaOf(SignalOf(r, alpha), alpha)) == r
  {
    hide Smooth;
    if |r| == 1 {
    } else {
      var n := |r| - 1;
      var x, front := SignalOf(r, alpha), SignalOf(r[..n], alpha);
      SignalHasResiduals(r[..n], alpha);
      assert x[..n] == front;
      var base, before := EwmaOf(x, alpha), EwmaOf(front, alpha);
      assert base[..n] == before;
      forall i | 0 <= i < |r|
        ensures Residuals(x, base)[i] == r[i]
      {
        if i < n {
          assert Residuals(front, before)[i] == r[..n][i];
        }
      }
    }
  }

  /** Residuals in units of the floor of the deviation. */
  const UNIT := 0.000001

  function InUnits(z: seq<real>): (r: seq<real>)
    ensures |r| == |z| && forall i :: 0 <= i < |z| ==> r[i] == z[i] * UNIT
  {
    seq(|z|, i requires 0 <= i < |z| => z[i] * UNIT)
  }

  function PrefixLength(n: nat): nat {
    if QuietPrefix(n) < n then QuietPrefix(n) else n
  }

  /** Any z-scores that start at 0 and do not vary in the quiet prefix are those of some signal. */
  lemma SignalHasScores(z: seq<real>)
    requires |z| >= WARMUP + 4 && z[0] == 0.0 && Mad(InUnits(z)[..PrefixLength(|z|)]) == 0.0
    ensures ZScores(SignalOf(InUnits(z), ALPHA)) == z
  {
    hide Mad;
    var r := InUnits(z);
    SignalHasResiduals(r, ALPHA);
    hide EwmaOf, SignalOf, Residuals;
    assert RobustSigma(r[..PrefixLength(|z|)]) == UNIT;
    forall i | 0 <= i < |z|
      ensures r[i] / UNIT == z[i]
    {
      UnitCancels(z[i]);
    }
    assert Scale(r, UNIT) == z;
  }

  lemma UnitCancels(v: real)
    ensures v * UNIT / UNIT == v
  {
  }

  // An onset inside the warmup.

  /** A rise that begins one sample before the warmup ends and alarms on the first sample after it. */
  const EARLY := [0.0, 0.0, 0.0, 0.0, 0.0, 0.0, 0.0, 0.0, 0.0, 0.0, 0.0, 1.0, 6.0, 6.0, 6.0, 6.0]

  lemma MadOfEarly()
    ensures PrefixLength(|EARLY|) == |EARLY| && Mad(InUnits(EARLY)) == 0.0
  {
    var r := InUnits(EARLY);
    MedianOfSixteen(r);
    hide Quantile;
    assert Deviations(r, 0.0) == r;
  }

  lemma MedianOfSixteen(xs: seq<real>)
    requires |xs| == 16 && Ordering.SortedBy(xs, Ordering.RealLe) && xs[7] == xs[8]
    ensures Median(xs) == xs[7]
  {
    Ordering.SortOfSorted(xs, Ordering.RealLe);
    assert Position(16, 0.5) == 7.5 && 7.5.Floor == 7;
    hide Position, Ordering.Sort, Ordering.SortedBy;
    assert Lerp(xs[7], xs[8], 0.5) == xs[7];
  }

  lemma OnsetInsideWarmupHappens()
    ensures var os := OnsetsOfSignal(SignalOf(InUnits(EARLY), ALPHA));
            os != [] && os[0].idx == 11 < WARMUP && Abs(os[0].zpeak) >= 3.0
  {
    MadOfEarly();
    assert InUnits(EARLY)[..|EARLY|] == InUnits(EARLY);
    SignalHasScores(EARLY);
    hide ZScores, SignalOf, InUnits, Mad;
    var z := EARLY;
    assert WindowSum(z, K, Up, 12, 12) > H;
    assert Alarms(z, K, H, 12, 12, 12) == [Alarm(12, Up)] + Alarms(z, K, H, 13, 13, 15);
    assert BacktrackOf(z, 12, Up) == BacktrackOf(z, 11, Up) == 11;
  }

  // Onsets out of order.

  const REVERSAL := [6.0, 20.0, -1.0, -1.0, -10.0, -10.0, -10.0]

  /** Rest, then a spike that re-arms during its own reversal. */
  function SpikeAndReversal(): (z: seq<real>)
    ensures |z| == 31 && z[24..] == REVERSAL && forall i :: 0 <= i < 24 ==> z[i] == 0.0
  {
    seq(24, _ => 0.0) + REVERSAL
  }

  lemma AlarmsOfReversal(z: seq<real>)
    requires |z| == 31 && z[24..] == REVERSAL && forall i :: 0 <= i < 24 ==> z[i] == 0.0
    ensures var alarms := Alarms(z, K, H, WARMUP, WARMUP, WARMUP);
            |alarms| >= 3 && alarms[1] == Alarm(27, Up) && alarms[2] == Alarm(30, Down)
    ensures BacktrackOf(z, 27, Up) == 27 && BacktrackOf(z, 30, Down) == 26
  {
    var w := z[24..];
    assert z[24] == w[0] && z[25] == w[1] && z[26] == w[2] && z[27] == w[3]
           && z[28] == w[4] && z[29] == w[5] && z[30] == w[6];
    NoiseRaisesNoAlarm(z, K, H, 12, 24, 12, 12);
    assert WindowSum(z, K, Up, 24, 24) > H;
    assert WindowSum(z, K, Up, 25, 26) == 18.0;
    assert WindowSum(z, K, Up, 25, 27) > H;
    assert WindowSum(z, K, Down, 30, 30) > H;
    assert Peak(z, K, Up, 28, 28) == 0.0 && Peak(z, K, Up, 28, 29) == 0.0 && Peak(z, K, Up, 28, 30) == 0.0;
    FiresIffPeakExceeds(z, K, H, Up, 28, 30);
    Unarmed(z, 25, 25, 27);
    Unarmed(z, 26, 25, 27);
    Unarmed(z, 28, 28, 30);
    Unarmed(z, 29, 28, 30);
    assert Alarms(z, K, H, 30, 28, 30)[0] == Alarm(30, Down);
    assert Alarms(z, K, H, 27, 25, 27) == [Alarm(27, Up)] + Alarms(z, K, H, 28, 28, 30);
    assert Alarms(z, K, H, 24, 12, 12) == [Alarm(24, Up)] + Alarms(z, K, H, 25, 25, 27);
    BacktrackMeans(z, 27, Up);
    BacktrackMeans(z, 30, Down);
  }

  lemma OutOfOrderHappens()
    ensures var os := OnsetsOfSignal(SignalOf(InUnits(SpikeAndReversal()), ALPHA));
            |os| >= 3 && os[1].dir == Up && os[2].dir == Down && os[2].idx == 26 < os[1].idx == 27
  {
    var z := SpikeAndReversal();
    MadOfConstant(InUnits(z)[..PrefixLength(31)], 0.0);
    SignalHasScores(z);
    hide ZScores, SignalOf, InUnits, Mad, SpikeAndReversal;
    AlarmsOfReversal(z);
  }

  // A disturbance at the end.

  /** k samples at rest, then m samples at level one. */
  function Late(k: nat, m: nat): (v: seq<real>)
    ensures |v| == k + m && forall i :: 0 <= i < |v| ==> v[i] == if i < k then 0.0 else 1.0
  {
    seq(k + m, i requires 0 <= i < k + m => if i < k then 0.0 else 1.0)
  }

  lemma {:induction false} EwmaAtRest(x: seq<real>, alpha: real, k: nat)
    requires x != [] && k <= |x| && forall i :: 0 <= i < k ==> x[i] == 0.0
    ensures forall i :: 0 <= i < k ==> EwmaOf(x, alpha)[i] == 0.0
  {
    if |x| == 1 {
    } else {
      EwmaAtRest(x[..|x| - 1], alpha, if k < |x| then k else k - 1);
    }
  }

  lemma ResidualsOfLate(k: nat, m: nat)
    requires m > 0 && k > 0
    ensures var resid := Residuals(Late(k, m), EwmaOf(Late(k, m), ALPHA));
            resid[k] == 1.0 && forall i :: 0 <= i < k ==> resid[i] == 0.0
  {
    EwmaAtRest(Late(k, m), ALPHA, k);
    hide EwmaOf;
  }

  /** Out of a long enough rest the first sample of the disturbance is a million deviations. */
  lemma ScoresOfLate(k: nat, m: nat)
    requires m > 0 && k >= PrefixLength(k + m) && k >= 16
    ensures var z := ZScores(Late(k, m)); z[k] == 1000000.0 && forall i :: 0 <= i < k ==> z[i] == 0.0
  {
    var x := Late(k, m);
    var resid := Residuals(x, EwmaOf(x, ALPHA));
    ResidualsOfLate(k, m);
    hide EwmaOf, Residuals, Late, Quantile;
    MadOfConstant(resid[..PrefixLength(k + m)], 0.0);
    hide Mad;
    assert RobustSigma(resid[..PrefixLength(k + m)]) == UNIT;
  }

  /** So the disturbance is an onset, and a strong one, however short it is. */
  lemma LateIsOnset(k: nat, m: nat)
    requires m > 0 && k >= PrefixLength(k + m) && k >= 16
    ensures var os := OnsetsOfSignal(Late(k, m)); os != [] && os[0].dir == Up && os[0].zpeak == 1000000.0
  {
    ScoresOfLate(k, m);
    var z := ZScores(Late(k, m));
    hide ZScores, Late;
    NoiseRaisesNoAlarm(z, K, H, WARMUP, k, WARMUP, WARMUP);
    assert WindowSum(z, K, Up, k, k) > H;
    assert Fires(z, K, H, Up, WARMUP, k);
    hide Fires;
  }

  // How residuals and scores behave.

  lemma {:induction false} EwmaOfPrefix(x: seq<real>, alpha: real, t: nat)
    requires 0 < t <= |x|
    ensures EwmaOf(x, alpha)[..t] == EwmaOf(x[..t], alpha)
  {
    hide Smooth;
    if t == |x| {
      assert x[..t] == x && EwmaOf(x, alpha)[..t] == EwmaOf(x, alpha);
    } else {
      var front := x[..|x| - 1];
      EwmaOfPrefix(front, alpha, t);
      assert front[..t] == x[..t];
      assert EwmaOf(x, alpha)[..|x| - 1] == EwmaOf(front, alpha);
    }
  }

  lemma {:induction false} AverageAfterStep(k: nat, m: nat, alpha: real)
    requires k > 0 && m > 0
    ensures EwmaOf(Late(k, m), alpha)[k + m - 1] == 1.0 - Pow(1.0 - alpha, m)
  {
    var x := Late(k, m);
    assert x[..|x| - 1] == Late(k, m - 1);
    if m == 1 {
      EwmaAtRest(Late(k, 0), alpha, k);
    } else {
      AverageAfterStep(k, m - 1, alpha);
    }
  }

  /** A step of height one leaves a residual of one, then of 1 - alpha, and so on: the average before each sample takes
      up a share alpha of what is left. Before the step there is none. */
  lemma StepResponse(k: nat, m: nat, alpha: real, i: nat)
    requires k > 0 && i < m
    ensures var resid := Residuals(Late(k, m), EwmaOf(Late(k, m), alpha));
            resid[k + i] == Pow(1.0 - alpha, i) && forall t :: 0 <= t < k ==> resid[t] == 0.0
  {
    var x := Late(k, m);
    EwmaAtRest(x, alpha, k);
    if i > 0 {
      EwmaOfPrefix(x, alpha, k + i);
      assert x[..k + i] == Late(k, i);
      AverageAfterStep(k, i, alpha);
      assert EwmaOf(x, alpha)[k + i - 1] == EwmaOf(x, alpha)[..k + i][k + i - 1];
    }
    hide EwmaOf;
  }

  /** How many samples set the scale: a third of the series, but at least 24 and at most 60. */
  lemma QuietPrefixMeans(n: nat)
    ensures n < 75 ==> QuietPrefix(n) == 24
    ensures 75 <= n < 180 ==> 3 * QuietPrefix(n) <= n < 3 * QuietPrefix(n) + 3
    ensures n >= 180 ==> QuietPrefix(n) == 60
  {
  }

  /** Once the scale is set, no score depends on what comes later: two signals of one length that agree on a beginning
      no shorter than the quiet prefix have the same scores there. */
  lemma ScoresAreCausal(x: seq<real>, y: seq<real>, t: nat)
    requires |x| == |y| >= WARMUP + 4 && PrefixLength(|x|) <= t <= |x| && x[..t] == y[..t]
    ensures ZScores(x)[..t] == ZScores(y)[..t]
  {
    var m := PrefixLength(|x|);
    EwmaOfPrefix(x, ALPHA, t);
    EwmaOfPrefix(y, ALPHA, t);
    var px, py := EwmaOf(x, ALPHA), EwmaOf(y, ALPHA);
    hide EwmaOf, RobustSigma;
    var rx, ry := Residuals(x, px), Residuals(y, py);
    forall i | 0 <= i < t
      ensures rx[i] == ry[i]
    {
      assert x[i] == x[..t][i] && y[i] == y[..t][i];
      assert px[i] == px[..t][i] && py[i] == py[..t][i];
      if i > 0 {
        assert px[i - 1] == px[..t][i - 1] && py[i - 1] == py[..t][i - 1];
      }
    }
    assert rx[..m] == ry[..m];
  }

  /** In units of the signal: residuals within 0.7413 times their median deviation in the quiet prefix raise no
      alarm. */
  lemma SmallResidualsAreSilent(x: seq<real>)
    requires |x| >= WARMUP + 4
    requires var resid := Residuals(x, EwmaOf(x, ALPHA));
             forall t :: WARMUP <= t < |x| ==> Abs(resid[t]) <= 0.7413 * Mad(resid[..PrefixLength(|x|)])
    ensures OnsetsOfSignal(x) == []
  {
    hide RobustSigma, OnsetsOfSignal, EwmaOf, Residuals, Mad, ZScores, Scale, Abs, PrefixLength;
    var resid := Residuals(x, EwmaOf(x, ALPHA));
    ScoresAreScaled(x);
    var prefix := resid[..PrefixLength(|x|)];
    SigmaAtLeast(prefix);
    forall t | WARMUP <= t < |x|
      ensures Abs(ZScores(x)[t]) <= K
    {
      ScaledMagnitude(resid[t], RobustSigma(prefix));
    }
    NoiseIsSilent(x);
  }

  lemma ScoresAreScaled(x: seq<real>)
    requires |x| >= WARMUP + 4
    ensures 0 < PrefixLength(|x|) <= |x|
    ensures var resid := Residuals(x, EwmaOf(x, ALPHA));
            |resid| == |x| && ZScores(x) == Scale(resid, RobustSigma(resid[..PrefixLength(|x|)]))
  {
    hide EwmaOf, RobustSigma;
  }

  lemma SigmaAtLeast(xs: seq<real>)
    requires xs != []
    ensures RobustSigma(xs) > 0.0 && 0.5 * RobustSigma(xs) >= 0.7413 * Mad(xs)
  {
    hide Mad;
  }

  lemma ScaledMagnitude(v: real, sigma: real)
    requires sigma > 0.0 && Abs(v) <= 0.5 * sigma
    ensures Abs(v / sigma) <= 0.5
  {
    var q := v / sigma;
    assert q * sigma == v;
    assert (0.5 - q) * sigma == 0.5 * sigma - v && (q + 0.5) * sigma == v + 0.5 * sigma;
    NonNegativeFactor(0.5 - q, sigma);
    NonNegativeFactor(q + 0.5, sigma);
  }

  lemma NonNegativeFactor(x: real, sigma: real)
    requires sigma > 0.0 && x * sigma >= 0.0
    ensures x >= 0.0
  {
  }

  /** t raised the alarm of o: some window that ends there carries more than 5 deviations beyond half a deviation a
      sample, and all samples from o on to t exceed half a deviation, but not the one before o. */
  ghost predicate Raises(z: seq<real>, o: Onset, t: nat) {
    && o.idx <= t < |z| && WARMUP <= t && o.zpeak == z[t]
    && (exists j: nat :: WARMUP <= j <= t && WindowSum(z, 0.5, o.dir, j, t) > 5.0)
    && (forall u :: o.idx <= u < t ==> Signed(o.dir, z[u]) > 0.5)
    && (o.idx > 0 ==> Signed(o.dir, z[o.idx - 1]) <= 0.5)
  }

  lemma {:induction false} AlarmsFire(z: seq<real>, i: nat, from: nat, armed: nat, a: Alarm)
    requires WARMUP <= from && WARMUP <= i && a in Alarms(z, K, H, i, from, armed)
    ensures a.at < |z| && WARMUP <= a.at
    ensures exists j: nat :: WARMUP <= j <= a.at && WindowSum(z, K, a.dir, j, a.at) > H
    decreases |z| - i
  {
    hide WindowSum;
    var all := Alarms(z, K, H, i, from, armed);
    if a == Alarm(i, Up) && i >= armed && Fires(z, K, H, Up, from, i) {
    } else if a == Alarm(i, Down) && i >= armed && Fires(z, K, H, Down, from, i) {
    } else if a in Alarms(z, K, H, i + 1, i + 1, i + 3) {
      AlarmsFire(z, i + 1, i + 1, i + 3, a);
    } else {
      AlarmsFire(z, i + 1, from, armed, a);
    }
  }

  /** Every onset is explained by the sample that raised its alarm; its sharpness is that sample's score. */
  lemma OnsetIsExplained(x: seq<real>, o: Onset)
    requires o in OnsetsOfSignal(x)
    ensures |x| >= 16 && exists t: nat :: Raises(ZScores(x), o, t)
  {
    hide ZScores, Fires, WindowSum, Alarms, BacktrackOf;
    var z := ZScores(x);
    var alarms := Alarms(z, K, H, WARMUP, WARMUP, WARMUP);
    AlarmsAreSpaced(z, K, H, WARMUP, WARMUP, WARMUP);
    var i :| 0 <= i < |alarms| && OnsetsOf(z, alarms)[i] == o;
    AlarmsFire(z, WARMUP, WARMUP, WARMUP, alarms[i]);
    AlarmRaises(z, alarms[i]);
  }

  lemma AlarmRaises(z: seq<real>, a: Alarm)
    requires WARMUP <= a.at < |z|
    requires exists j: nat :: WARMUP <= j <= a.at && WindowSum(z, K, a.dir, j, a.at) > H
    ensures Raises(z, OnsetOf(z, a), a.at)
  {
    hide WindowSum, BacktrackOf;
    BacktrackMeans(z, a.at, a.dir);
  }
}
