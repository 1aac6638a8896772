/** From irregular samples to vectors on one wall-clock grid (`build_inputs`). */
module Resampling {
  import opened Common
  import opened Ordering

  const COLUMNS := 180
  const MIN_SAMPLES := 12

  /** A sample as it arrives; its time may not parse. */
  datatype Sample = Sample(ts: Option<real>, value: real)

  datatype Point = Point(t: real, value: real)

  predicate PointLe(a: Point, b: Point) {
    a.t < b.t || (a.t == b.t && a.value <= b.value)
  }

  ghost predicate InTime(pts: seq<Point>) {
    forall i, j :: 0 <= i < j < |pts| ==> pts[i].t <= pts[j].t
  }

  /** The samples with a time. */
  function Timed(samples: seq<Sample>): (pts: seq<Point>)
    ensures forall p :: p in pts <==> Sample(Some(p.t), p.value) in samples
  {
    if samples == [] then []
    else
      var s := samples[|samples| - 1];
      assert samples == samples[..|samples| - 1] + [s];
      Timed(samples[..|samples| - 1]) + if s.ts.Some? then [Point(s.ts.value, s.value)] else []
  }

  /** The usable samples of one series, in time order. */
  function PointsOf(samples: seq<Sample>): seq<Point> {
    Sort(Timed(samples), PointLe)
  }

  lemma PointsAreInTime(samples: seq<Sample>)
    ensures InTime(PointsOf(samples))
    ensures forall p :: p in PointsOf(samples) <==> Sample(Some(p.t), p.value) in samples
  {
    SortSorts(Timed(samples), PointLe);
    SortHasSameElements(Timed(samples), PointLe);
    var pts := PointsOf(samples);
    assert forall i, j :: 0 <= i < j < |pts| ==> PointLe(pts[i], pts[j]);
  }

  // The simple rule.

  /** The last sample not after the bound; the first sample if all are after it. */
  function Held(pts: seq<Point>, bound: real): (h: nat)
    requires pts != []
    ensures h < |pts|
  {
    if |pts| == 1 || pts[|pts| - 1].t <= bound then |pts| - 1 else Held(pts[..|pts| - 1], bound)
  }

  function GridTime(step: real, latest: real, k: nat): real {
    latest - step * (COLUMNS - 1 - k) as real
  }

  /** What a series shows at grid time g: the held sample, if it is within one step. */
  function Column(step: real, pts: seq<Point>, g: real): Option<real>
    requires pts != []
  {
    var p := pts[Held(pts, g + step / 2.0)];
    if Abs(p.t - g) <= step then Some(p.value) else None
  }

  function ColumnsOf(step: real, pts: seq<Point>, latest: real): (cs: seq<Option<real>>)
    requires pts != []
    ensures |cs| == COLUMNS && forall k :: 0 <= k < COLUMNS ==> cs[k] == Column(step, pts, GridTime(step, latest, k))
  {
    seq(COLUMNS, k requires 0 <= k < COLUMNS => Column(step, pts, GridTime(step, latest, k)))
  }

  function Coverage(cs: seq<Option<real>>): nat {
    if cs == [] then 0 else Coverage(cs[..|cs| - 1]) + if cs[|cs| - 1].Some? then 1 else 0
  }

  /** A gap is no activity. */
  function Filled(cs: seq<Option<real>>): (v: seq<real>)
    ensures |v| == |cs| && forall k :: 0 <= k < |cs| ==> v[k] == cs[k].GetOr(0.0)
  {
    seq(|cs|, k requires 0 <= k < |cs| => cs[k].GetOr(0.0))
  }

  /** A series is kept when it is fresh and covers enough of the grid. */
  predicate Kept(step: real, pts: seq<Point>, latest: real)
    requires pts != []
  {
    pts[|pts| - 1].t >= latest - 2.0 * step && Coverage(ColumnsOf(step, pts, latest)) >= MIN_SAMPLES
  }

  lemma {:induction false} HeldMeans(pts: seq<Point>, bound: real)
    requires pts != [] && InTime(pts)
    ensures var h := Held(pts, bound);
            && (h == 0 || pts[h].t <= bound)
            && forall i :: h < i < |pts| ==> pts[i].t > bound
  {
    if |pts| > 1 && pts[|pts| - 1].t > bound {
      HeldMeans(pts[..|pts| - 1], bound);
    }
  }

  lemma HeldIsMonotone(pts: seq<Point>, a: real, b: real)
    requires pts != [] && InTime(pts) && a <= b
    ensures Held(pts, a) <= Held(pts, b)
  {
    HeldMeans(pts, a);
    HeldMeans(pts, b);
  }

  lemma GridAscends(step: real, latest: real, i: nat, k: nat)
    requires step >= 0.0 && i <= k
    ensures GridTime(step, latest, i) <= GridTime(step, latest, k)
  {
    var gap := (k - i) as real;
    assert GridTime(step, latest, k) == GridTime(step, latest, i) + step * gap;
    assert step * gap >= 0.0;
  }

  // The two-pointer loop.

  /** One series on the grid; column by column, the pointer only moves forward. */
  method Resample(step: real, pts: seq<Point>, latest: real) returns (vec: array<Option<real>>)
    requires step >= 0.0 && pts != [] && InTime(pts)
    ensures fresh(vec) && vec[..] == ColumnsOf(step, pts, latest)
  {
    hide GridTime, Held;
    vec := new Option<real>[COLUMNS](_ => None);
    var j := 0;
    for k := 0 to COLUMNS
      invariant j < |pts|
      invariant j == 0 || forall m: nat :: k <= m ==> j <= Held(pts, GridTime(step, latest, m) + step / 2.0)
      invariant forall i :: 0 <= i < k ==> vec[i] == Column(step, pts, GridTime(step, latest, i))
      invariant forall i :: k <= i < COLUMNS ==> vec[i] == None
    {
      var g := GridTime(step, latest, k);
      var bound := g + step / 2.0;
      HeldMeans(pts, bound);
      while j + 1 < |pts| && pts[j + 1].t <= bound
        invariant j <= Held(pts, bound)
      {
        j := j + 1;
      }
      assert j == Held(pts, bound);
      if Abs(pts[j].t - g) <= step {
        vec[k] := Some(pts[j].value);
      }
      forall m: nat | k + 1 <= m
        ensures j <= Held(pts, GridTime(step, latest, m) + step / 2.0)
      {
        GridAscends(step, latest, k, m);
        HeldIsMonotone(pts, bound, GridTime(step, latest, m) + step / 2.0);
      }
    }
    assert vec[..] == ColumnsOf(step, pts, latest);
  }

  method Covered(vec: array<Option<real>>) returns (count: nat, filled: seq<real>)
    ensures count == Coverage(vec[..]) && filled == Filled(vec[..])
  {
    count, filled := 0, [];
    for k := 0 to vec.Length
      invariant count == Coverage(vec[..k]) && filled == Filled(vec[..k])
    {
      filled := filled + [vec[k].GetOr(0.0)];
      if vec[k].Some? {
        count := count + 1;
      }
      assert vec[..k + 1][..k] == vec[..k];
    }
    assert vec[..vec.Length] == vec[..];
  }

  ghost predicate SeriesOk(series: Dict<seq<Point>>) {
    series.Valid() && forall p :: p in series.at ==> series.at[p] != [] && InTime(series.at[p])
  }

  /** The vectors of one signal: of every kept series, and no other, its columns with the gaps filled. */
  ghost predicate VectorsOf(step: real, series: Dict<seq<Point>>, latest: real, out: Dict<seq<real>>)
    requires SeriesOk(series)
  {
    && out.Valid()
    && (forall p :: p in out.keys <==> p in series.keys && Kept(step, series.at[p], latest))
    && (forall p :: p in out.keys ==> p in series.at && out.at[p] == Filled(ColumnsOf(step, series.at[p], latest)))
  }

  method ToVectors(step: real, series: Dict<seq<Point>>, latest: real) returns (out: Dict<seq<real>>)
    requires step >= 0.0 && SeriesOk(series)
    ensures VectorsOf(step, series, latest, out)
  {
    hide ColumnsOf, Filled, Coverage;
    out := Dict([], map[]);
    for i := 0 to |series.keys|
      invariant out.Valid()
      invariant forall p :: p in out.keys <==> p in series.keys[..i] && Kept(step, series.at[p], latest)
      invariant forall p :: p in out.keys ==>
                  p in series.at && out.at[p] == Filled(ColumnsOf(step, series.at[p], latest))
    {
      var pod := series.keys[i];
      var pts := series.at[pod];
      assert pod !in series.keys[..i];
      if pts[|pts| - 1].t >= latest - 2.0 * step {
        var vec := Resample(step, pts, latest);
        var count, filled := Covered(vec);
        if count >= MIN_SAMPLES {
          out := Dict(out.keys + [pod], out.at[pod := filled]);
        }
      }
    }
    assert series.keys[..|series.keys|] == series.keys;
  }

  // Collecting the series.

  /** One entry of the window: the parts of its key (namespace, pod, ..., signal) and its samples. */
  datatype Entry = Entry(parts: seq<string>, samples: seq<Sample>)

  predicate Wanted(wanted: set<string>, e: Entry) {
    |e.parts| >= 3 && e.parts[|e.parts| - 1] in wanted && |PointsOf(e.samples)| >= MIN_SAMPLES
  }

  /** A dict after d[k] = v. */
  function Put<V>(d: Dict<V>, k: string, v: V): Dict<V> {
    Dict(if k in d.at then d.keys else d.keys + [k], d.at[k := v])
  }

  /** The series of one signal by pod; a later entry for the same pod replaces an earlier one. */
  function SeriesOf(wanted: set<string>, window: seq<Entry>, signal: string): Dict<seq<Point>> {
    if window == [] then Dict([], map[])
    else
      var before, e := SeriesOf(wanted, window[..|window| - 1], signal), window[|window| - 1];
      if Wanted(wanted, e) && e.parts[|e.parts| - 1] == signal then Put(before, e.parts[1], PointsOf(e.samples))
      else before
  }

  /** The newest sample of all wanted series. */
  function LatestOf(wanted: set<string>, window: seq<Entry>): real {
    if window == [] then 0.0
    else
      var before, e := LatestOf(wanted, window[..|window| - 1]), window[|window| - 1];
      if Wanted(wanted, e) then Max(before, PointsOf(e.samples)[|PointsOf(e.samples)| - 1].t) else before
  }

  /** Long enough and over by the given time. */
  ghost predicate EndsBy(pts: seq<Point>, latest: real) {
    |pts| >= MIN_SAMPLES && pts[|pts| - 1].t <= latest
  }

  ghost predicate AllEndBy(s: Dict<seq<Point>>, latest: real) {
    forall p :: p in s.at ==> EndsBy(s.at[p], latest)
  }

  lemma PutKeepsSeries(s: Dict<seq<Point>>, pod: string, pts: seq<Point>, latest: real)
    requires SeriesOk(s) && AllEndBy(s, latest) && InTime(pts) && EndsBy(pts, latest)
    ensures SeriesOk(Put(s, pod, pts)) && AllEndBy(Put(s, pod, pts), latest)
  {
    hide InTime;
  }

  /** Every collected series is in time order and long enough, and none has a sample after the latest. */
  lemma {:induction false} SeriesAreCollected(wanted: set<string>, window: seq<Entry>, signal: string)
    ensures SeriesOk(SeriesOf(wanted, window, signal))
    ensures AllEndBy(SeriesOf(wanted, window, signal), LatestOf(wanted, window))
  {
    hide PointsOf, Put, SeriesOk, InTime;
    if window == [] {
      assert SeriesOk(Dict([], map[])) by { EmptySeries(); }
    } else {
      var front, e := window[..|window| - 1], window[|window| - 1];
      SeriesAreCollected(wanted, front, signal);
      var pts := PointsOf(e.samples);
      PointsAreInTime(e.samples);
      if Wanted(wanted, e) && e.parts[|e.parts| - 1] == signal {
        PutKeepsSeries(SeriesOf(wanted, front, signal), e.parts[1], pts, LatestOf(wanted, window));
      }
    }
  }

  lemma EmptySeries()
    ensures SeriesOk(Dict([], map[]))
  {
  }

  method Collect(wanted: set<string>, window: seq<Entry>) returns (raw: map<string, Dict<seq<Point>>>, latest: real)
    ensures raw.Keys == wanted && latest == LatestOf(wanted, window)
    ensures forall sig :: sig in wanted ==> raw[sig] == SeriesOf(wanted, window, sig)
  {
    hide PointsOf;
    raw, latest := map sig | sig in wanted :: Dict([], map[]), 0.0;
    for i := 0 to |window|
      invariant raw.Keys == wanted && latest == LatestOf(wanted, window[..i])
      invariant forall sig :: sig in wanted ==> raw[sig] == SeriesOf(wanted, window[..i], sig)
    {
      var e := window[i];
      assert window[..i + 1][..i] == window[..i];
      if |e.parts| >= 3 && e.parts[|e.parts| - 1] in wanted {
        var signal, pts := e.parts[|e.parts| - 1], PointsOf(e.samples);
        if |pts| >= MIN_SAMPLES {
          raw := raw[signal := Put(raw[signal], e.parts[1], pts)];
          latest := Max(latest, pts[|pts| - 1].t);
        }
      }
    }
    assert window[..|window|] == window;
  }

  ghost predicate InputsOf(step: real, wanted: set<string>, window: seq<Entry>, sig: string, out: Dict<seq<real>>) {
    SeriesOk(SeriesOf(wanted, window, sig))
    && VectorsOf(step, SeriesOf(wanted, window, sig), LatestOf(wanted, window), out)
  }

  /** All the vectors, signal by signal, on one shared grid. */
  method BuildInputs(step: real, wanted: set<string>, window: seq<Entry>)
    returns (vectors: map<string, Dict<seq<real>>>)
    requires step >= 0.0
    ensures vectors.Keys == wanted
    ensures forall sig :: sig in wanted ==> InputsOf(step, wanted, window, sig, vectors[sig])
  {
    hide VectorsOf, SeriesOf, LatestOf, SeriesOk;
    var raw, latest := Collect(wanted, window);
    vectors := map[];
    var todo := wanted;
    while todo != {}
      invariant todo <= wanted && vectors.Keys == wanted - todo
      invariant forall sig :: sig in vectors ==> InputsOf(step, wanted, window, sig, vectors[sig])
      decreases todo
    {
      var sig :| sig in todo;
      SeriesAreCollected(wanted, window, sig);
      var out := ToVectors(step, raw[sig], latest);
      vectors := vectors[sig := out];
      todo := todo - {sig};
    }
  }

  // What a column means.

  /** A sample serves the column at g when it is at most one step old and at most half a step ahead;
      the first sample of a series may be a whole step ahead. */
  ghost predicate Serves(step: real, pts: seq<Point>, g: real, i: nat) {
    i < |pts| && g - step <= pts[i].t && (pts[i].t <= g + step / 2.0 || (i == 0 && pts[i].t <= g + step))
  }

  /** A column has data exactly when some sample serves it, and then shows the last that does. */
  lemma ColumnIff(step: real, pts: seq<Point>, g: real)
    requires step >= 0.0 && pts != [] && InTime(pts)
    ensures Column(step, pts, g).Some? <==> exists i: nat :: Serves(step, pts, g, i)
    ensures Column(step, pts, g).Some? ==>
              exists i: nat :: Serves(step, pts, g, i) && Column(step, pts, g) == Some(pts[i].value)
                               && forall j: nat :: i < j < |pts| ==> !Serves(step, pts, g, j)
  {
    var h := Held(pts, g + step / 2.0);
    HeldMeans(pts, g + step / 2.0);
    if Column(step, pts, g).Some? {
      assert Serves(step, pts, g, h);
    }
    forall i: nat | Serves(step, pts, g, i)
      ensures Column(step, pts, g).Some?
    {
      assert i <= h;
    }
  }

  /** Column k of two series shows samples taken within two steps of each other. */
  lemma ColumnsAreAligned(step: real, xs: seq<Point>, ys: seq<Point>, latest: real, k: nat)
    requires step >= 0.0 && xs != [] && ys != [] && k < COLUMNS
    requires ColumnsOf(step, xs, latest)[k].Some? && ColumnsOf(step, ys, latest)[k].Some?
    ensures exists i, j :: 0 <= i < |xs| && 0 <= j < |ys| && Abs(xs[i].t - ys[j].t) <= 2.0 * step
              && ColumnsOf(step, xs, latest)[k] == Some(xs[i].value)
              && ColumnsOf(step, ys, latest)[k] == Some(ys[j].value)
  {
    var g := GridTime(step, latest, k);
    var i, j := Held(xs, g + step / 2.0), Held(ys, g + step / 2.0);
    assert Abs(xs[i].t - g) <= step && Abs(ys[j].t - g) <= step;
    assert Abs(xs[i].t - ys[j].t) <= 2.0 * step;
  }

  /** The last column is the newest sample, if the pod was heard from within the last step; a pod that
      has been silent longer is kept for one step more, showing no activity. */
  lemma LastColumn(step: real, pts: seq<Point>, latest: real)
    requires step >= 0.0 && pts != [] && InTime(pts) && pts[|pts| - 1].t <= latest
    ensures ColumnsOf(step, pts, latest)[COLUMNS - 1] ==
            if latest - step <= pts[|pts| - 1].t then Some(pts[|pts| - 1].value) else None
  {
    HeldMeans(pts, latest + step / 2.0);
  }

  /** All vectors have one length, whatever the series looked like. */
  lemma VectorsHaveOneLength(step: real, wanted: set<string>, window: seq<Entry>, sig: string, out: Dict<seq<real>>)
    requires InputsOf(step, wanted, window, sig, out)
    ensures forall p :: p in out.at ==> |out.at[p]| == COLUMNS
  {
    hide SeriesOf, LatestOf, Kept, SeriesOk;
  }

  /** A series sampled every step, at whatever phase. */
  ghost predicate Regular(step: real, pts: seq<Point>) {
    forall i :: 0 <= i < |pts| ==> pts[i].t == pts[0].t + step * i as real
  }

  lemma RegularIsInTime(step: real, pts: seq<Point>)
    requires step >= 0.0 && Regular(step, pts)
    ensures InTime(pts)
  {
    forall i, j | 0 <= i < j < |pts|
      ensures pts[i].t <= pts[j].t
    {
      assert pts[j].t == pts[i].t + step * (j - i) as real;
      assert step * (j - i) as real >= 0.0;
    }
  }

  /** Sampled at the cadence of the grid, no sample is lost and none is used twice: where column k
      shows sample i and sample i + 1 exists, column k + 1 shows sample i + 1. */
  lemma RegularSeriesIsShifted(step: real, pts: seq<Point>, latest: real, k: nat)
    requires step > 0.0 && pts != [] && Regular(step, pts) && k + 1 < COLUMNS
    requires pts[0].t <= GridTime(step, latest, k) + step / 2.0
    ensures var i := Held(pts, GridTime(step, latest, k) + step / 2.0);
            && Held(pts, GridTime(step, latest, k + 1) + step / 2.0) == (if i + 1 < |pts| then i + 1 else i)
            && (i + 1 < |pts| ==>
                  ColumnsOf(step, pts, latest)[k] == Some(pts[i].value)
                  && ColumnsOf(step, pts, latest)[k + 1] == Some(pts[i + 1].value))
  {
    RegularIsInTime(step, pts);
    var g := GridTime(step, latest, k);
    var b := g + step / 2.0;
    var i := Held(pts, b);
    NextColumn(step, latest, k);
    HeldMeans(pts, b);
    HeldMeans(pts, b + step);
    NextSample(step, pts, i);
    assert i + 2 < |pts| ==> pts[i + 2].t > b + step by {
      if i + 2 < |pts| {
        NextSample(step, pts, i + 1);
      }
    }
  }

  lemma NextColumn(step: real, latest: real, k: nat)
    ensures GridTime(step, latest, k + 1) == GridTime(step, latest, k) + step
  {
  }

  lemma NextSample(step: real, pts: seq<Point>, i: nat)
    requires i < |pts| && Regular(step, pts)
    ensures i + 1 < |pts| ==> pts[i + 1].t == pts[i].t + step
  {
  }

  // Which series there are, and where they are filed.

  lemma {:induction false} TimedCount(samples: seq<Sample>)
    ensures |Timed(samples)| == |set i | 0 <= i < |samples| && samples[i].ts.Some?|
  {
    var now := set i | 0 <= i < |samples| && samples[i].ts.Some?;
    if samples == [] {
      assert now == {};
    } else {
      var n := |samples| - 1;
      TimedCount(samples[..n]);
      var before := set i | 0 <= i < |samples[..n]| && samples[..n][i].ts.Some?;
      assert now == before + if samples[n].ts.Some? then {n} else {};
    }
  }

  /** Every sample with a time is a point, none is lost or doubled, and of several at one time the greatest comes
      last. */
  lemma PointsAreSamples(samples: seq<Sample>)
    ensures |PointsOf(samples)| == |set i | 0 <= i < |samples| && samples[i].ts.Some?|
    ensures var pts := PointsOf(samples);
            forall i, j :: 0 <= i < j < |pts| && pts[i].t == pts[j].t ==> pts[i].value <= pts[j].value
  {
    TimedCount(samples);
    SortIsPermutation(Timed(samples), PointLe);
    PointOrder();
    SortSorts(Timed(samples), PointLe);
    var pts := PointsOf(samples);
    hide Sort, Timed;
    assert forall i, j :: 0 <= i < j < |pts| ==> PointLe(pts[i], pts[j]);
  }

  lemma PointOrder()
    ensures TotalPreorder(PointLe)
  {
  }

  /** An entry whose key names at least a namespace, a pod and a wanted signal, and that has enough samples. */
  ghost predicate Files(wanted: set<string>, e: Entry, signal: string, pod: string) {
    && |e.parts| >= 3 && e.parts[|e.parts| - 1] == signal && signal in wanted && e.parts[1] == pod
    && |PointsOf(e.samples)| >= 12
  }

  ghost predicate IsLastFor(wanted: set<string>, window: seq<Entry>, signal: string, pod: string, i: nat) {
    && i < |window| && Files(wanted, window[i], signal, pod)
    && forall j :: i < j < |window| ==> !Files(wanted, window[j], signal, pod)
  }

  lemma SeriesNext(wanted: set<string>, window: seq<Entry>, signal: string, pod: string)
    requires window != []
    ensures var n := |window| - 1;
            Lookup(SeriesOf(wanted, window, signal).at, pod) ==
            if Files(wanted, window[n], signal, pod) then Some(PointsOf(window[n].samples))
            else Lookup(SeriesOf(wanted, window[..n], signal).at, pod)
  {
    hide PointsOf;
  }

  lemma {:induction false} LastFiled(wanted: set<string>, window: seq<Entry>, signal: string, pod: string, i: nat)
    requires IsLastFor(wanted, window, signal, pod, i)
    ensures Lookup(SeriesOf(wanted, window, signal).at, pod) == Some(PointsOf(window[i].samples))
  {
    var n := |window| - 1;
    SeriesNext(wanted, window, signal, pod);
    hide SeriesOf, PointsOf, Files;
    if i < n {
      assert window[..n][i] == window[i] && forall j :: i < j < n ==> window[..n][j] == window[j];
      LastFiled(wanted, window[..n], signal, pod, i);
    }
  }

  lemma LastForStays(wanted: set<string>, window: seq<Entry>, signal: string, pod: string, i: nat)
    requires window != [] && IsLastFor(wanted, window[..|window| - 1], signal, pod, i)
    requires !Files(wanted, window[|window| - 1], signal, pod)
    ensures IsLastFor(wanted, window, signal, pod, i)
  {
    hide Files;
    var front := window[..|window| - 1];
    assert forall j :: 0 <= j < |front| ==> front[j] == window[j];
  }

  lemma {:induction false} FiledByOne(wanted: set<string>, window: seq<Entry>, signal: string, pod: string)
    returns (i: nat)
    requires Lookup(SeriesOf(wanted, window, signal).at, pod).Some?
    ensures IsLastFor(wanted, window, signal, pod, i)
  {
    assert window != [];
    var n := |window| - 1;
    SeriesNext(wanted, window, signal, pod);
    hide SeriesOf, PointsOf, Files, Lookup;
    if Files(wanted, window[n], signal, pod) {
      i := n;
    } else {
      i := FiledByOne(wanted, window[..n], signal, pod);
      LastForStays(wanted, window, signal, pod, i);
    }
  }

  /** A series is filed under the pod and the signal of its key; of several entries for both the last one counts. */
  lemma SeriesIff(wanted: set<string>, window: seq<Entry>, signal: string, pod: string)
    ensures var s := SeriesOf(wanted, window, signal);
            && (pod in s.at <==> exists i: nat :: IsLastFor(wanted, window, signal, pod, i))
            && forall i: nat :: IsLastFor(wanted, window, signal, pod, i) ==>
                 pod in s.at && s.at[pod] == PointsOf(window[i].samples)
  {
    hide SeriesOf, PointsOf, IsLastFor;
    if pod in SeriesOf(wanted, window, signal).at {
      var i := FiledByOne(wanted, window, signal, pod);
    }
    forall i: nat | IsLastFor(wanted, window, signal, pod, i)
      ensures i < |window| && Lookup(SeriesOf(wanted, window, signal).at, pod) == Some(PointsOf(window[i].samples))
    {
      LastFiled(wanted, window, signal, pod, i);
      InsideWindow(wanted, window, signal, pod, i);
    }
  }

  lemma InsideWindow(wanted: set<string>, window: seq<Entry>, signal: string, pod: string, i: nat)
    requires IsLastFor(wanted, window, signal, pod, i)
    ensures i < |window|
  {
  }

  /** The end of the grid is the newest sample of any series that is filed, or time 0. */
  lemma {:induction false} LatestIsNewest(wanted: set<string>, window: seq<Entry>)
    ensures LatestOf(wanted, window) >= 0.0
    ensures forall i, signal, pod :: 0 <= i < |window| && Files(wanted, window[i], signal, pod) ==>
              var pts := PointsOf(window[i].samples); pts[|pts| - 1].t <= LatestOf(wanted, window)
    ensures LatestOf(wanted, window) > 0.0 ==>
              exists i, signal, pod :: 0 <= i < |window| && Files(wanted, window[i], signal, pod)
                && var pts := PointsOf(window[i].samples); pts[|pts| - 1].t == LatestOf(wanted, window)
  {
    hide PointsOf;
    if window == [] {
    } else {
      var n := |window| - 1;
      LatestIsNewest(wanted, window[..n]);
      assert forall i :: 0 <= i < n ==> window[..n][i] == window[i];
      var e := window[n];
      if Wanted(wanted, e) {
        assert Files(wanted, window[n], e.parts[|e.parts| - 1], e.parts[1]);
      }
      if LatestOf(wanted, window) > 0.0 && LatestOf(wanted, window) == LatestOf(wanted, window[..n]) {
        var i, signal, pod :| 0 <= i < n && Files(wanted, window[..n][i], signal, pod)
          && var pts := PointsOf(window[..n][i].samples); pts[|pts| - 1].t == LatestOf(wanted, window[..n]);
        assert Files(wanted, window[i], signal, pod);
      }
    }
  }

  lemma {:induction false} CoverageCounts(cs: seq<Option<real>>)
    ensures Coverage(cs) == |set k | 0 <= k < |cs| && cs[k].Some?|
  {
    var now := set k | 0 <= k < |cs| && cs[k].Some?;
    if cs == [] {
      assert now == {};
    } else {
      var n := |cs| - 1;
      CoverageCounts(cs[..n]);
      var before := set k | 0 <= k < |cs[..n]| && cs[..n][k].Some?;
      assert now == before + if cs[n].Some? then {n} else {};
    }
  }

  /** A pod has a vector exactly when it has a series whose newest sample is at most two steps old and which shows in at
      least twelve columns; the vector shows 0 in the others. */
  lemma VectorIff(step: real, wanted: set<string>, window: seq<Entry>, sig: string, out: Dict<seq<real>>, pod: string)
    requires InputsOf(step, wanted, window, sig, out)
    ensures var s, latest := SeriesOf(wanted, window, sig), LatestOf(wanted, window);
            && (pod in out.at <==>
                  && pod in s.at && s.at[pod] != [] && s.at[pod][|s.at[pod]| - 1].t >= latest - 2.0 * step
                  && |set k | 0 <= k < 180 && ColumnsOf(step, s.at[pod], latest)[k].Some?| >= 12)
            && (pod in out.at ==> |out.at[pod]| == 180 && forall k :: 0 <= k < 180 ==>
                  out.at[pod][k] == match ColumnsOf(step, s.at[pod], latest)[k] case None => 0.0 case Some(v) => v)
  {
    hide SeriesOf, LatestOf, Column, PointsOf, InTime, Coverage;
    var s, latest := SeriesOf(wanted, window, sig), LatestOf(wanted, window);
    if pod in s.at {
      var cs := ColumnsOf(step, s.at[pod], latest);
      hide ColumnsOf;
      CoverageCounts(cs);
      assert (set k | 0 <= k < 180 && cs[k].Some?) == (set k | 0 <= k < |cs| && cs[k].Some?);
    }
  }
}
