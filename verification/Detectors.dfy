/** Change detection on one signal: EWMA residuals, two-sided CUSUM with reset and re-arm, and the
    walk back from an alarm to the onset. */
module Detectors {
  import opened Common
  import opened Statistics

  const DT_S := 5.0
  const WARMUP := 12
  const K := 0.5
  const H := 5.0
  const ALPHA := 0.3

  // Smoothing and scaling.

  function Smooth(alpha: real, x: real, previous: real): real {
    alpha * x + (1.0 - alpha) * previous
  }

  function EwmaOf(x: seq<real>, alpha: real): (out: seq<real>)
    requires x != []
    ensures |out| == |x|
  {
    if |x| == 1 then x
    else
      var front := EwmaOf(x[..|x| - 1], alpha);
      front + [Smooth(alpha, x[|x| - 1], front[|front| - 1])]
  }

  method Ewma(x: seq<real>, alpha: real) returns (out: array<real>)
    requires x != []
    ensures fresh(out) && out[..] == EwmaOf(x, alpha)
  {
    hide Smooth;
    out := new real[|x|];
    out[0] := x[0];
    assert out[..1] == x[..1] == EwmaOf(x[..1], alpha);
    for i := 1 to |x|
      invariant out[..i] == EwmaOf(x[..i], alpha)
    {
      ghost var front := out[..i];
      assert front[i - 1] == out[i - 1];
      out[i] := Smooth(alpha, x[i], out[i - 1]);
      assert x[..i + 1][..i] == x[..i];
      assert out[..i + 1] == front + [out[i]];
    }
    assert x[..|x|] == x && out[..|x|] == out[..];
  }

  /** One-step-ahead residuals; the first is 0. */
  function Residuals(x: seq<real>, base: seq<real>): seq<real>
    requires |x| == |base| > 0
  {
    seq(|x|, i requires 0 <= i < |x| => x[i] - (if i == 0 then base[0] else base[i - 1]))
  }

  /** MAD-based deviation with a floor against flat signals. */
  function RobustSigma(x: seq<real>): (s: real)
    requires x != []
    ensures s > 0.0
  {
    Max(1.4826 * Mad(x), 0.000001)
  }

  /** How much of the prefix counts as quiet: a third of it, within 24..60 samples. */
  function QuietPrefix(n: nat): (m: nat)
    ensures 24 <= m <= 60
  {
    if n / 3 < WARMUP * 2 then WARMUP * 2 else if n / 3 < 60 then n / 3 else 60
  }

  function Scale(xs: seq<real>, s: real): (zs: seq<real>)
    requires s > 0.0
    ensures |zs| == |xs| && forall i :: 0 <= i < |xs| ==> zs[i] == xs[i] / s
  {
    seq(|xs|, i requires 0 <= i < |xs| => xs[i] / s)
  }

  /** Residuals in units of the quiet prefix's deviation. */
  function ZScores(x: seq<real>): (z: seq<real>)
    requires |x| >= WARMUP + 4
    ensures |z| == |x|
  {
    var resid := Residuals(x, EwmaOf(x, ALPHA));
    var n := QuietPrefix(|x|);
    Scale(resid, RobustSigma(resid[..if n < |x| then n else |x|]))
  }

  // The definition of an alarm.

  datatype Direction = Up | Down

  function Signed(d: Direction, v: real): real {
    if d == Up then v else -v
  }

  /** The evidence of the samples j..i (both included) for a shift in direction d. */
  function WindowSum(z: seq<real>, k: real, d: Direction, j: nat, i: nat): real
    requires j <= i < |z|
    decreases i - j
  {
    Signed(d, z[i]) - k + if j == i then 0.0 else WindowSum(z, k, d, j, i - 1)
  }

  /** Some window that starts no earlier than from and ends at i carries more than h. */
  ghost predicate Fires(z: seq<real>, k: real, h: real, d: Direction, from: nat, i: nat)
    requires i < |z|
  {
    exists j: nat :: from <= j <= i && WindowSum(z, k, d, j, i) > h
  }

  datatype Alarm = Alarm(at: nat, dir: Direction)

  /** The alarms from sample i on: each forgets everything before it and needs three samples to re-arm. */
  ghost function Alarms(z: seq<real>, k: real, h: real, i: nat, from: nat, armed: nat): seq<Alarm>
    decreases |z| - i
  {
    if i >= |z| then []
    else if i >= armed && Fires(z, k, h, Up, from, i) then [Alarm(i, Up)] + Alarms(z, k, h, i + 1, i + 1, i + 3)
    else if i >= armed && Fires(z, k, h, Down, from, i) then [Alarm(i, Down)] + Alarms(z, k, h, i + 1, i + 1, i + 3)
    else Alarms(z, k, h, i + 1, from, armed)
  }

  // The running statistic the code keeps instead.

  /** max(0, previous + evidence), started at from. */
  function Peak(z: seq<real>, k: real, d: Direction, from: nat, i: nat): real
    requires i <= |z|
    decreases i
  {
    if i <= from then 0.0 else Max(0.0, Peak(z, k, d, from, i - 1) + Signed(d, z[i - 1]) - k)
  }

  /** v is the evidence of some window from..i. */
  ghost predicate IsWindowSum(z: seq<real>, k: real, d: Direction, from: nat, i: nat, v: real)
    requires i < |z|
  {
    exists j: nat :: from <= j <= i && WindowSum(z, k, d, j, i) == v
  }

  /** The statistic is the largest window sum ending here, or 0 if all are negative. */
  lemma {:induction false} PeakIsLargestWindow(z: seq<real>, k: real, d: Direction, from: nat, i: nat)
    requires from <= i < |z|
    ensures var p := Peak(z, k, d, from, i + 1);
            && p >= 0.0
            && (forall j: nat :: from <= j <= i ==> WindowSum(z, k, d, j, i) <= p)
            && (p == 0.0 || IsWindowSum(z, k, d, from, i, p))
    decreases i
  {
    var p, e := Peak(z, k, d, from, i + 1), Signed(d, z[i]) - k;
    assert WindowSum(z, k, d, i, i) == e;
    var q := Peak(z, k, d, from, i);
    assert p == Max(0.0, q + e);
    if i > from {
      PeakIsLargestWindow(z, k, d, from, i - 1);
      forall j: nat | from <= j < i
        ensures WindowSum(z, k, d, j, i) == e + WindowSum(z, k, d, j, i - 1)
      {
      }
      if p > 0.0 && q > 0.0 {
        assert IsWindowSum(z, k, d, from, i - 1, q);
        var j: nat :| from <= j <= i - 1 && WindowSum(z, k, d, j, i - 1) == q;
        assert WindowSum(z, k, d, j, i) == p;
        assert IsWindowSum(z, k, d, from, i, p);
      }
    }
    if q == 0.0 && p > 0.0 {
      assert IsWindowSum(z, k, d, from, i, p);
    }
  }

  lemma FiresIffPeakExceeds(z: seq<real>, k: real, h: real, d: Direction, from: nat, i: nat)
    requires from <= i < |z| && h >= 0.0
    ensures Fires(z, k, h, d, from, i) <==> Peak(z, k, d, from, i + 1) > h
  {
    PeakIsLargestWindow(z, k, d, from, i);
  }

  // Onsets.

  datatype Onset = Onset(idx: nat, dir: Direction, zpeak: real)

  /** The first sample of the unbroken stretch above 0.5 that leads to the alarm. */
  function BacktrackOf(z: seq<real>, at: nat, d: Direction): nat
    requires at < |z|
  {
    if at > 0 && Signed(d, z[at - 1]) > 0.5 then BacktrackOf(z, at - 1, d) else at
  }

  lemma {:induction false} BacktrackMeans(z: seq<real>, at: nat, d: Direction)
    requires at < |z|
    ensures var b := BacktrackOf(z, at, d);
            && b <= at
            && (forall t :: b <= t < at ==> Signed(d, z[t]) > 0.5)
            && (b > 0 ==> Signed(d, z[b - 1]) <= 0.5)
  {
    if at > 0 && Signed(d, z[at - 1]) > 0.5 {
      BacktrackMeans(z, at - 1, d);
    }
  }

  method Backtrack(z: seq<real>, at: nat, d: Direction) returns (i: nat)
    requires at < |z|
    ensures i == BacktrackOf(z, at, d)
  {
    i := at;
    while i > 0 && Signed(d, z[i - 1]) > 0.5
      invariant i <= at && BacktrackOf(z, i, d) == BacktrackOf(z, at, d)
    {
      i := i - 1;
    }
  }

  ghost predicate InRange(z: seq<real>, alarms: seq<Alarm>) {
    forall i :: 0 <= i < |alarms| ==> alarms[i].at < |z|
  }

  ghost predicate Spaced(alarms: seq<Alarm>, first: nat) {
    && (forall i :: 0 <= i < |alarms| ==> first <= alarms[i].at)
    && (forall i, j :: 0 <= i < j < |alarms| ==> alarms[i].at + 3 <= alarms[j].at)
  }

  function OnsetOf(z: seq<real>, a: Alarm): Onset
    requires a.at < |z|
  {
    Onset(BacktrackOf(z, a.at, a.dir), a.dir, z[a.at])
  }

  ghost function OnsetsOf(z: seq<real>, alarms: seq<Alarm>): (os: seq<Onset>)
    requires InRange(z, alarms)
    ensures |os| == |alarms| && forall i :: 0 <= i < |os| ==> os[i] == OnsetOf(z, alarms[i])
  {
    seq(|alarms|, i requires 0 <= i < |alarms| => OnsetOf(z, alarms[i]))
  }

  /** Alarms lie inside the series, at or after the scan position and the arming, at least three apart. */
  lemma {:induction false} AlarmsAreSpaced(z: seq<real>, k: real, h: real, i: nat, from: nat, armed: nat)
    ensures InRange(z, Alarms(z, k, h, i, from, armed))
    ensures Spaced(Alarms(z, k, h, i, from, armed), i) && Spaced(Alarms(z, k, h, i, from, armed), armed)
    decreases |z| - i
  {
    hide Fires;
    var all := Alarms(z, k, h, i, from, armed);
    if i < |z| {
      AlarmsAreSpaced(z, k, h, i + 1, i + 1, i + 3);
      AlarmsAreSpaced(z, k, h, i + 1, from, armed);
      var tail := Alarms(z, k, h, i + 1, i + 1, i + 3);
      if i >= armed && all != Alarms(z, k, h, i + 1, from, armed) {
        assert all == [Alarm(i, Up)] + tail || all == [Alarm(i, Down)] + tail;
      }
    }
  }

  /** The next alarm is the first armed sample at which some window since the last one carries more
      than h; with no alarm left, no armed sample is like that. */
  lemma {:induction false} NextAlarmIsFirst(z: seq<real>, k: real, h: real, i: nat, from: nat, armed: nat)
    ensures var alarms := Alarms(z, k, h, i, from, armed);
            var stop := if alarms == [] then |z| else alarms[0].at;
            && (forall t: nat :: i <= t < stop && armed <= t && t < |z| ==>
                  !Fires(z, k, h, Up, from, t) && !Fires(z, k, h, Down, from, t))
            && (alarms != [] ==>
                  && i <= stop < |z| && armed <= stop && Fires(z, k, h, alarms[0].dir, from, stop)
                  && (alarms[0].dir == Down ==> !Fires(z, k, h, Up, from, stop))
                  && alarms[1..] == Alarms(z, k, h, stop + 1, stop + 1, stop + 3))
    decreases |z| - i
  {
    hide Fires;
    if i < |z| {
      NextAlarmIsFirst(z, k, h, i + 1, from, armed);
    }
  }

  /** The loop of the detector, on z-scores. */
  method Scan(z: seq<real>, k: real, h: real, warmup: nat) returns (onsets: seq<Onset>)
    requires h >= 0.0 && warmup <= |z|
    ensures InRange(z, Alarms(z, k, h, warmup, warmup, warmup))
    ensures onsets == OnsetsOf(z, Alarms(z, k, h, warmup, warmup, warmup))
  {
    hide Fires;
    onsets := [];
    var gp, gn := 0.0, 0.0;
    var armed: nat := warmup;
    ghost var from: nat, done: seq<Alarm> := warmup, [];
    ghost var all := Alarms(z, k, h, warmup, warmup, warmup);
    AlarmsAreSpaced(z, k, h, warmup, warmup, warmup);
    for i := warmup to |z|
      invariant from <= i
      invariant gp == Peak(z, k, Up, from, i) && gn == Peak(z, k, Down, from, i)
      invariant all == done + Alarms(z, k, h, i, from, armed)
      invariant InRange(z, done) && onsets == OnsetsOf(z, done)
    {
      gp := Max(0.0, gp + z[i] - k);
      gn := Max(0.0, gn - z[i] - k);
      FiresIffPeakExceeds(z, k, h, Up, from, i);
      FiresIffPeakExceeds(z, k, h, Down, from, i);
      if gp > h && i >= armed {
        var b := Backtrack(z, i, Up);
        onsets := onsets + [Onset(b, Up, z[i])];
        done := done + [Alarm(i, Up)];
        gp, gn, armed, from := 0.0, 0.0, i + 3, i + 1;
      } else if gn > h && i >= armed {
        var b := Backtrack(z, i, Down);
        onsets := onsets + [Onset(b, Down, z[i])];
        done := done + [Alarm(i, Down)];
        gp, gn, armed, from := 0.0, 0.0, i + 3, i + 1;
      }
    }
    assert all == done;
  }

  /** All onsets of a signal, as a specification. */
  ghost function OnsetsOfSignal(x: seq<real>): seq<Onset> {
    if |x| < WARMUP + 4 then []
    else
      var z := ZScores(x);
      AlarmsAreSpaced(z, K, H, WARMUP, WARMUP, WARMUP);
      OnsetsOf(z, Alarms(z, K, H, WARMUP, WARMUP, WARMUP))
  }

  method CusumOnsets(x: seq<real>) returns (onsets: seq<Onset>)
    ensures onsets == OnsetsOfSignal(x)
  {
    if |x| < WARMUP + 4 {
      return [];
    }
    var base := Ewma(x, ALPHA);
    var resid := Residuals(x, base[..]);
    var n := QuietPrefix(|x|);
    var z := Scale(resid, RobustSigma(resid[..if n < |x| then n else |x|]));
    onsets := Scan(z, K, H, WARMUP);
  }

  // Order of onsets.

  /** Walking back from a later sample of the same direction never passes an earlier onset. */
  lemma {:induction false} BacktrackMonotone(z: seq<real>, a: nat, b: nat, d: Direction)
    requires a <= b < |z|
    ensures BacktrackOf(z, a, d) <= BacktrackOf(z, b, d)
    decreases b
  {
    if a < b && Signed(d, z[b - 1]) > 0.5 {
      BacktrackMonotone(z, a, b - 1, d);
    } else {
      BacktrackMeans(z, a, d);
    }
  }

  /** Onsets of one direction come in order, so the last upward one is the latest. */
  lemma SameDirectionInOrder(x: seq<real>, i: nat, j: nat)
    requires i < j < |OnsetsOfSignal(x)| && OnsetsOfSignal(x)[i].dir == OnsetsOfSignal(x)[j].dir
    ensures OnsetsOfSignal(x)[i].idx <= OnsetsOfSignal(x)[j].idx
  {
    hide ZScores, Fires;
    var z := ZScores(x);
    var alarms := Alarms(z, K, H, WARMUP, WARMUP, WARMUP);
    AlarmsAreSpaced(z, K, H, WARMUP, WARMUP, WARMUP);
    BacktrackMonotone(z, alarms[i].at, alarms[j].at, alarms[i].dir);
  }

  /** Onsets are samples of the signal. */
  lemma OnsetsInSignal(x: seq<real>, i: nat)
    requires i < |OnsetsOfSignal(x)|
    ensures OnsetsOfSignal(x)[i].idx < |x| && |x| >= WARMUP + 4
  {
    hide ZScores, Fires;
    var z := ZScores(x);
    AlarmsAreSpaced(z, K, H, WARMUP, WARMUP, WARMUP);
    var a := Alarms(z, K, H, WARMUP, WARMUP, WARMUP)[i];
    BacktrackMeans(z, a.at, a.dir);
  }

  // What the walk back does not promise.

  /** The walk back enters the warmup exactly when the stretch before the sample reaches into it unbroken. */
  lemma BacktrackInsideWarmupIff(z: seq<real>, at: nat, d: Direction)
    requires WARMUP <= at < |z|
    ensures BacktrackOf(z, at, d) < WARMUP <==> forall t :: WARMUP - 1 <= t < at ==> Signed(d, z[t]) > 0.5
  {
    BacktrackMeans(z, at, d);
  }

  /** Of two walks back in opposite directions the later one ends first exactly when its stretch covers
      the earlier sample and the one before it. */
  lemma BacktracksCrossIff(z: seq<real>, a: nat, b: nat, d: Direction, e: Direction)
    requires a < b < |z| && d != e
    ensures BacktrackOf(z, b, e) < BacktrackOf(z, a, d) <==>
            a > 0 && forall t :: a - 1 <= t < b ==> Signed(e, z[t]) > 0.5
  {
    BacktrackMeans(z, a, d);
    BacktrackMeans(z, b, e);
    if a > 0 && forall t :: a - 1 <= t < b ==> Signed(e, z[t]) > 0.5 {
      assert Signed(e, z[a - 1]) > 0.5;
    }
  }

  lemma Unarmed(z: seq<real>, i: nat, from: nat, armed: nat)
    requires i < armed && i < |z|
    ensures Alarms(z, K, H, i, from, armed) == Alarms(z, K, H, i + 1, from, armed)
  {
  }

  // What the detector does not react to.

  lemma {:induction false} WindowSumOfNoise(z: seq<real>, k: real, d: Direction, j: nat, i: nat)
    requires j <= i < |z| && forall t :: j <= t <= i ==> Abs(z[t]) <= k
    ensures WindowSum(z, k, d, j, i) <= 0.0
    decreases i - j
  {
    if j < i {
      WindowSumOfNoise(z, k, d, j, i - 1);
    }
  }

  /** Over a stretch of noise the scan moves on. */
  lemma {:induction false} NoiseRaisesNoAlarm(z: seq<real>, k: real, h: real, i: nat, stop: nat, from: nat, armed: nat)
    requires from <= i <= stop <= |z| && h >= 0.0 && forall t :: from <= t < stop ==> Abs(z[t]) <= k
    ensures Alarms(z, k, h, i, from, armed) == Alarms(z, k, h, stop, from, armed)
    decreases stop - i
  {
    hide Abs, WindowSum;
    if i < stop {
      forall d, j: nat | from <= j <= i
        ensures WindowSum(z, k, d, j, i) <= 0.0
      {
        WindowSumOfNoise(z, k, d, j, i);
      }
      NoiseRaisesNoAlarm(z, k, h, i + 1, stop, from, armed);
    }
  }

  /** Residuals within half a deviation are noise, however long they last. */
  lemma NoiseIsSilent(x: seq<real>)
    requires |x| >= WARMUP + 4 && forall t :: WARMUP <= t < |x| ==> Abs(ZScores(x)[t]) <= K
    ensures OnsetsOfSignal(x) == []
  {
    hide ZScores, Abs;
    NoiseRaisesNoAlarm(ZScores(x), K, H, WARMUP, |x|, WARMUP, WARMUP);
  }

  function Shifted(x: seq<real>, c: real): (y: seq<real>)
    ensures |y| == |x| && forall i :: 0 <= i < |x| ==> y[i] == x[i] + c
  {
    seq(|x|, i requires 0 <= i < |x| => x[i] + c)
  }

  lemma SmoothShifts(alpha: real, x: real, p: real, c: real)
    ensures Smooth(alpha, x + c, p + c) == Smooth(alpha, x, p) + c
  {
  }

  lemma {:induction false} EwmaShifts(x: seq<real>, alpha: real, c: real)
    requires x != []
    ensures EwmaOf(Shifted(x, c), alpha) == Shifted(EwmaOf(x, alpha), c)
  {
    hide Smooth;
    var n := |x| - 1;
    if n == 0 {
    } else {
      EwmaShifts(x[..n], alpha, c);
      assert Shifted(x, c)[..n] == Shifted(x[..n], c);
      SmoothShifts(alpha, x[n], EwmaOf(x[..n], alpha)[n - 1], c);
    }
  }

  /** Only changes count: a constant offset moves no onset. */
  lemma OffsetKeepsOnsets(x: seq<real>, c: real)
    ensures OnsetsOfSignal(Shifted(x, c)) == OnsetsOfSignal(x)
  {
    hide EwmaOf, Alarms, RobustSigma, OnsetsOf;
    if |x| >= WARMUP + 4 {
      EwmaShifts(x, ALPHA, c);
      assert Residuals(Shifted(x, c), EwmaOf(Shifted(x, c), ALPHA)) == Residuals(x, EwmaOf(x, ALPHA));
    }
  }
}
