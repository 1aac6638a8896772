/** Steady-state baselines per workload: learned slowly, frozen while the workload storms. */
module Baselines {
  import opened Common
  import opened Config
  import opened Statistics
  import Workload

  datatype Baseline = Baseline(median: real, mad: real, n: nat)

  type Table = map<string, Baseline>

  /** The level above which a workload with this baseline counts as deviating. */
  function Limit(c: MemoryConfig, b: Baseline): real {
    b.median + Slack(c, b)
  }

  function Slack(c: MemoryConfig, b: Baseline): real {
    c.devK * Max(b.mad, c.madFloor)
  }

  /** The incident threshold, once the baseline has matured. */
  function BaselineThreshold(c: MemoryConfig, t: Table, w: string): Option<real> {
    match Lookup(t, w)
    case None => None
    case Some(b) => if b.n < c.baseMinN then None else Some(Limit(c, b))
  }

  function Blend(a: real, x: real, y: real): real {
    (1.0 - a) * x + a * y
  }

  predicate Storming(c: MemoryConfig, b: Baseline, vec: seq<real>)
    requires vec != []
  {
    b.n >= c.baseMinN && P90(vec) > Limit(c, b)
  }

  /** The row after one pod's vector has been looked at. */
  function Learn(c: MemoryConfig, row: Option<Baseline>, vec: seq<real>): Option<Baseline> {
    if |vec| < 12 then row
    else
      match row
      case None => Some(Baseline(Median(vec), Mad(vec), 1))
      case Some(b) =>
        if Storming(c, b, vec) then row
        else Some(Baseline(Blend(c.baseAlpha, b.median, Median(vec)), Blend(c.baseAlpha, b.mad, Mad(vec)), b.n + 1))
  }

  function Store(t: Table, w: string, row: Option<Baseline>): Table {
    match row
    case None => t
    case Some(b) => t[w := b]
  }

  /** All the vectors of one pass, pod after pod. */
  function LearnAll(c: MemoryConfig, t: Table, pods: seq<string>, vectors: map<string, seq<real>>): Table
    requires forall p :: p in pods ==> p in vectors
  {
    if pods == [] then t
    else
      var before := LearnAll(c, t, pods[..|pods| - 1], vectors);
      var p := pods[|pods| - 1];
      var w := Workload.StableWorkload(p);
      Store(before, w, Learn(c, Lookup(before, w), vectors[p]))
  }

  /** A matured baseline does not move while its workload storms. */
  lemma StormIsNotLearned(c: MemoryConfig, b: Baseline, vec: seq<real>)
    requires |vec| >= 12 && b.n >= c.baseMinN
    ensures Learn(c, Some(b), vec) == Some(b) <==>
            P90(vec) > Limit(c, b)
  {
  }

  lemma BlendStep(a: real, x: real, y: real, d: real)
    requires 0.0 <= a <= 1.0 && y <= x + d
    ensures Blend(a, x, y) <= x + a * d
  {
    var gap := x + d - y;
    assert a * gap >= 0.0;
    assert Blend(a, x, y) == x + a * d - a * gap;
  }

  lemma ScaleKeepsOrder(u: real, v: real, a: real)
    requires u <= v && 0.0 <= a
    ensures a * u <= a * v
  {
    ProductOrder(u, v, a);
  }

  lemma SlackIsNonNegative(c: MemoryConfig, b: Baseline)
    requires BaselineConfig(c)
    ensures Slack(c, b) >= 0.0 && c.baseAlpha * Slack(c, b) >= 0.0
  {
    ScaleKeepsOrder(0.0, Max(b.mad, c.madFloor), c.devK);
    ScaleKeepsOrder(0.0, Slack(c, b), c.baseAlpha);
  }

  /** One accepted pass raises a matured median by at most baseAlpha times the allowed deviation. */
  lemma AcceptedRaiseIsBounded(c: MemoryConfig, b: Baseline, vec: seq<real>)
    requires BaselineConfig(c) && |vec| >= 12 && b.n >= c.baseMinN
    ensures Learn(c, Some(b), vec).Some?
    ensures Learn(c, Some(b), vec).value.median <= b.median + c.baseAlpha * Slack(c, b)
  {
    hide Quantile, Slack, Blend;
    SlackIsNonNegative(c, b);
    QuantileMonotone(vec, 0.5, 0.9);
    if !Storming(c, b, vec) {
      BlendStep(c.baseAlpha, b.median, Median(vec), Slack(c, b));
    }
  }

  /** The passes of one workload, one vector after the other. */
  function Run(c: MemoryConfig, row: Option<Baseline>, vecs: seq<seq<real>>): Option<Baseline> {
    if vecs == [] then row else Learn(c, Run(c, row, vecs[..|vecs| - 1]), vecs[|vecs| - 1])
  }

  /** However long a storm lasts, the matured baseline, and so the threshold, stay where they were. */
  lemma {:induction false} StormsLeaveNoTrace(c: MemoryConfig, b: Baseline, storm: seq<seq<real>>)
    requires b.n >= c.baseMinN
    requires forall i :: 0 <= i < |storm| ==> |storm[i]| >= 12 && P90(storm[i]) > Limit(c, b)
    ensures Run(c, Some(b), storm) == Some(b)
  {
    hide P90, Limit;
    if storm == [] {
    } else {
      StormsLeaveNoTrace(c, b, storm[..|storm| - 1]);
      StormIsNotLearned(c, b, storm[|storm| - 1]);
    }
  }

  /** Passes at level m with spread d, none of which storms against the baseline of its time. */
  ghost predicate QuietRun(c: MemoryConfig, b: Baseline, quiet: seq<seq<real>>, m: real, d: real) {
    quiet == [] ||
    var front, vec := quiet[..|quiet| - 1], quiet[|quiet| - 1];
    && QuietRun(c, b, front, m, d)
    && |vec| >= 12 && Median(vec) == m && Mad(vec) == d
    && Run(c, Some(b), front).Some? && !Storming(c, Run(c, Some(b), front).value, vec)
  }

  /** Under a quiet level m with spread d, the distances of the median to m and of the deviation to d shrink by
      1 - baseAlpha every pass. */
  lemma {:induction false} QuietPassesConverge(c: MemoryConfig, b: Baseline, quiet: seq<seq<real>>, m: real, d: real)
    requires QuietRun(c, b, quiet, m, d)
    ensures var r := Run(c, Some(b), quiet);
            r.Some? && r.value.n == b.n + |quiet|
            && r.value.median - m == Pow(1.0 - c.baseAlpha, |quiet|) * (b.median - m)
            && r.value.mad - d == Pow(1.0 - c.baseAlpha, |quiet|) * (b.mad - d)
  {
    hide Median, Mad, Storming, Blend;
    if quiet == [] {
    } else {
      var k := |quiet| - 1;
      QuietPassesConverge(c, b, quiet[..k], m, d);
      var r := Run(c, Some(b), quiet[..k]).value;
      ConvergenceStep(c.baseAlpha, r.median, m, Pow(1.0 - c.baseAlpha, k), b.median - m);
      ConvergenceStep(c.baseAlpha, r.mad, d, Pow(1.0 - c.baseAlpha, k), b.mad - d);
    }
  }

  lemma ConvergenceStep(a: real, x: real, m: real, p: real, d: real)
    requires x - m == p * d
    ensures Blend(a, x, m) - m == ((1.0 - a) * p) * d
  {
    assert Blend(a, x, m) - m == (1.0 - a) * (x - m);
  }

  // Where the limit lies.

  /** The limit lies above the median by devK deviations; what is learned of the deviation widens it in that proportion,
      and below the floor it makes no difference. */
  lemma LimitWidens(c: MemoryConfig, b: Baseline, more: real)
    requires more >= 0.0
    ensures b.mad >= c.madFloor ==> Limit(c, b) == b.median + c.devK * b.mad
    ensures b.mad >= c.madFloor ==> Limit(c, b.(mad := b.mad + more)) == Limit(c, b) + c.devK * more
    ensures b.mad <= c.madFloor ==> Limit(c, b) == b.median + c.devK * c.madFloor
  {
  }

  /** A steady workload, from nothing: the baseline is its level and spread, and matures with every pass. */
  lemma {:induction false} SteadyWorkload(c: MemoryConfig, vecs: seq<seq<real>>, m: real, d: real)
    requires vecs != [] && forall i :: 0 <= i < |vecs| ==>
               |vecs[i]| >= 12 && Median(vecs[i]) == m && Mad(vecs[i]) == d
               && P90(vecs[i]) <= m + c.devK * Max(d, c.madFloor)
    ensures Run(c, None, vecs) == Some(Baseline(m, d, |vecs|))
  {
    hide Median, Mad, P90, Limit;
    var k := |vecs| - 1;
    if k > 0 {
      LimitOfSteady(c, Baseline(m, d, k));
      assert |vecs[k]| >= 12;
      SteadyWorkload(c, vecs[..k], m, d);
      BlendOfSame(c.baseAlpha, m);
      BlendOfSame(c.baseAlpha, d);
      assert !Storming(c, Baseline(m, d, k), vecs[k]);
      hide Blend;
      assert Learn(c, Some(Baseline(m, d, k)), vecs[k]) == Some(Baseline(m, d, k + 1));
    } else {
      assert vecs[..k] == [] && Run(c, None, []) == None;
      assert Learn(c, None, vecs[k]) == Some(Baseline(m, d, 1));
    }
  }

  lemma LimitOfSteady(c: MemoryConfig, b: Baseline)
    ensures Limit(c, b) == b.median + c.devK * Max(b.mad, c.madFloor)
  {
  }

  /** A workload has no threshold while its baseline has too few passes, and then one devK of its deviations above its
      level. */
  lemma ThresholdMeans(c: MemoryConfig, t: Table, w: string)
    ensures BaselineThreshold(c, t, w).Some? <==> w in t && t[w].n >= c.baseMinN
    ensures BaselineThreshold(c, t, w).Some? ==>
              BaselineThreshold(c, t, w).value ==
              t[w].median + c.devK * (if t[w].mad < c.madFloor then c.madFloor else t[w].mad)
  {
  }

  lemma BlendOfSame(a: real, x: real)
    ensures Blend(a, x, x) == x
  {
  }

  // The table of a whole pass.

  lemma {:induction false} OtherWorkloadsUntouched(c: MemoryConfig, t: Table, pods: seq<string>,
                                                   vectors: map<string, seq<real>>, w: string)
    requires forall p :: p in pods ==> p in vectors
    requires forall p :: p in pods ==> Workload.StableWorkload(p) != w
    ensures Lookup(LearnAll(c, t, pods, vectors), w) == Lookup(t, w)
  {
    hide Learn;
    if pods == [] {
    } else {
      OtherWorkloadsUntouched(c, t, pods[..|pods| - 1], vectors, w);
    }
  }

  /** With one pod for the workload, the pass does to its row what that pod's vector does. */
  lemma {:induction false} SinglePodRow(c: MemoryConfig, t: Table, pods: seq<string>,
                                        vectors: map<string, seq<real>>, i: nat)
    requires i < |pods| && forall p :: p in pods ==> p in vectors
    requires forall j :: 0 <= j < |pods| && j != i ==>
               Workload.StableWorkload(pods[j]) != Workload.StableWorkload(pods[i])
    ensures var w := Workload.StableWorkload(pods[i]);
            Lookup(LearnAll(c, t, pods, vectors), w) == Learn(c, Lookup(t, w), vectors[pods[i]])
  {
    hide Workload.StableWorkload;
    var k := |pods| - 1;
    var w := Workload.StableWorkload(pods[i]);
    if i < k {
      SinglePodRow(c, t, pods[..k], vectors, i);
    } else {
      OtherWorkloadsUntouched(c, t, pods[..k], vectors, w);
    }
  }

  /** What can have become of the row of a matured baseline: it is untouched or has been updated. */
  ghost predicate Later(b: Baseline, row: Option<Baseline>) {
    row.Some? && (row.value == b || row.value.n > b.n)
  }

  /** A pass leaves the row of a workload alone exactly when every vector of its pods that is long enough
      storms against it. */
  lemma {:induction false} RowUnchangedIff(c: MemoryConfig, t: Table, pods: seq<string>,
                                           vectors: map<string, seq<real>>, w: string, b: Baseline)
    requires forall p :: p in pods ==> p in vectors
    requires Lookup(t, w) == Some(b) && b.n >= c.baseMinN
    ensures Later(b, Lookup(LearnAll(c, t, pods, vectors), w))
    ensures Lookup(LearnAll(c, t, pods, vectors), w) == Some(b) <==>
            forall p :: p in pods && Workload.StableWorkload(p) == w && |vectors[p]| >= 12 ==>
              P90(vectors[p]) > Limit(c, b)
  {
    hide Learn, Workload.StableWorkload, P90, Limit;
    if pods == [] {
    } else {
      var front, last := pods[..|pods| - 1], pods[|pods| - 1];
      assert pods == front + [last];
      RowUnchangedIff(c, t, front, vectors, w, b);
      LearnAdvances(c, b, Lookup(LearnAll(c, t, front, vectors), w), vectors[last]);
    }
  }

  lemma LearnAdvances(c: MemoryConfig, b: Baseline, row: Option<Baseline>, vec: seq<real>)
    requires b.n >= c.baseMinN && Later(b, row)
    ensures Later(b, Learn(c, row, vec))
    ensures Learn(c, row, vec) == Some(b) <==> row == Some(b) && (|vec| >= 12 ==> P90(vec) > Limit(c, b))
  {
    hide P90, Limit, Median, Mad, Blend;
  }

  /** Only the workload of a pod and its values matter, never the pod's name. */
  lemma {:induction false} RestartKeepsBaselines(c: MemoryConfig, t: Table,
                                                 pods: seq<string>, vectors: map<string, seq<real>>,
                                                 pods': seq<string>, vectors': map<string, seq<real>>)
    requires |pods| == |pods'|
    requires forall p :: p in pods ==> p in vectors
    requires forall p :: p in pods' ==> p in vectors'
    requires forall i :: 0 <= i < |pods| ==>
               Workload.StableWorkload(pods[i]) == Workload.StableWorkload(pods'[i])
               && vectors[pods[i]] == vectors'[pods'[i]]
    ensures LearnAll(c, t, pods, vectors) == LearnAll(c, t, pods', vectors')
  {
    hide Learn, Workload.StableWorkload;
    if pods == [] {
    } else {
      RestartKeepsBaselines(c, t, pods[..|pods| - 1], vectors, pods'[..|pods| - 1], vectors');
    }
  }
}
