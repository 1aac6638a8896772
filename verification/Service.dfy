/** One round of the service for one signal: thresholds from memory, a pass, then observe. */
module Service {
  import opened Common
  import opened Config
  import opened Statistics
  import opened Ordering
  import opened CorrelationPass
  import opened GraphMemory
  import opened MemoryService
  import opened OnsetLaws
  import B = Baselines
  import CG = CausalGraph
  import Detection
  import Detectors
  import Digraph
  import EdgeMemory
  import EdgeTable
  import Gate
  import LagCorrelation
  import Merge
  import ObservedRows
  import PassLaws
  import Workload

  /** What each pod is judged against: the threshold of its workload. */
  function ThresholdsOf(c: MemoryConfig, t: B.Table, vectors: Dict<seq<real>>): map<string, Option<real>>
    requires vectors.Valid()
  {
    map pod | pod in vectors.at :: B.BaselineThreshold(c, t, Workload.StableWorkload(pod))
  }

  function WithThresholds(c: MemoryConfig, t: B.Table, p: Inputs): Inputs
    requires p.vectors.Valid()
  {
    p.(baselines := Some(ThresholdsOf(c, t, p.vectors)))
  }

  function PassOf(p: Inputs, out: CG.Report, ts: real): Pass {
    Pass(out, p.vectors, Some(p.physical.shared), ts)
  }

  /** A report can always be observed. */
  lemma ReportIsValid(p: Inputs, corr: LagCorrelation.Corr, d: Detected, out: CG.Report, ts: real)
    requires IsPass(p, corr, d, out)
    ensures PassValid(PassOf(p, out, ts))
  {
    hide IsPass, PassLaws.Lawful;
    assert p.vectors.Valid() by { InputsAreOk(p, corr, d, out); }
    forall e | e in out.edges
      ensures Abs(e.r) <= 1.0
    {
      PassLaws.EveryEdgeIsLawful(p, corr, d, out, e);
      LawfulStrength(d, e);
    }
  }

  lemma InputsAreOk(p: Inputs, corr: LagCorrelation.Corr, d: Detected, out: CG.Report)
    requires IsPass(p, corr, d, out)
    ensures InputsOk(p)
  {
  }

  lemma LawfulStrength(d: Detected, e: Digraph.Edge)
    requires PassLaws.Lawful(d.scene, e)
    ensures 0.5 <= e.r <= 1.0
  {
    hide Gate.Couples, Gate.CouplesSource, Gate.Ordered;
  }

  /** A round that raises leaves the memory as it was. */
  ghost predicate Advanced(c: MemoryConfig, before: Tables, after: Tables, p: Inputs, out: Option<CG.Report>, ts: real)
    requires p.vectors.Valid()
  {
    after == if out.None? then before else Observed(c, before, PassOf(p, out.value, ts))
  }

  /** What is rendered can be merged. */
  lemma RenderedEdges(t: EdgeTable.Table, report: CG.Report, pods: seq<string>, out: Rendering)
    requires EdgeTable.WeightsOk(t) && Merge.CorrelationsOnly(report) && IsRendering(t, report, pods, out)
    ensures Merge.CorrelationsOnly(out.report)
  {
    hide AreHeld, GraphMemory.Judged, LivePairs, PodFor;
    WeightsOfRendered(t, LivePairs(CG.WorkloadEdges(report.edges)), PodFor(pods), report.edges, out.held);
  }

  method Round(mem: Memory, p: Inputs, corr: LagCorrelation.Corr, ts: real)
    returns (out: Option<CG.Report>, rendered: Option<Rendering>)
    requires InputsOk(p) && LagCorrelation.IsCorrelation(corr) && EdgeTable.WeightsOk(mem.edges)
    modifies mem
    ensures exists d :: IsOutcome(WithThresholds(mem.config, old(mem.baselines), p), corr, d, out)
    ensures Advanced(mem.config, old(mem.State()), mem.State(), p, out, ts) && EdgeTable.WeightsOk(mem.edges)
    ensures EdgeConfig(mem.config) && CaseConfig(mem.config) && TablesOk(mem.config, old(mem.State())) ==>
              TablesOk(mem.config, mem.State())
    ensures rendered.Some? <==> out.Some?
    ensures out.Some? ==> IsRendering(mem.edges, out.value, p.vectors.keys, rendered.value)
    ensures out.Some? ==> Merge.CorrelationsOnly(rendered.value.report)
  {
    hide IsPass, IsRendering, Observed, LagCorrelation.IsCorrelation, TablesOk, EdgeTable.WeightsOk;
    var q := WithThresholds(mem.config, mem.baselines, p);
    out := RunPass(q, corr);
    rendered := None;
    if out.Some? {
      ghost var d :| IsOutcome(q, corr, d, out);
      ReportIsValid(q, corr, d, out.value, ts);
      var pass := PassOf(p, out.value, ts);
      if EdgeConfig(mem.config) && CaseConfig(mem.config) && TablesOk(mem.config, mem.State()) {
        ObserveKeepsTables(mem.config, mem.State(), pass);
      }
      var shown, verdict := mem.Observe(pass);
      rendered := Some(shown);
      RenderedEdges(mem.edges, out.value, p.vectors.keys, shown);
    }
  }

  // Reported pods and learning.

  /** What is known of a pod that was reported: its row is mature and its tail exceeds the limit. */
  lemma ReportedPodDeviates(c: MemoryConfig, t: B.Table, p: Inputs, corr: LagCorrelation.Corr,
                            d: Detected, out: CG.Report, pod: string)
    requires p.vectors.Valid() && IsPass(WithThresholds(c, t, p), corr, d, out) && pod in d.active
    ensures pod in p.vectors.at && p.vectors.at[pod] != []
    ensures var row := Lookup(t, Workload.StableWorkload(pod));
            row.Some? && row.value.n >= c.baseMinN
            && P90(LastN(p.vectors.at[pod], p.recent)) > B.Limit(c, row.value)
  {
    hide IsPass, Workload.StableWorkload, P90, B.Limit;
    PassLaws.ActiveDeviates(WithThresholds(c, t, p), corr, d, out, pod);
  }

  ghost predicate HasStrongOnset(x: seq<real>) {
    exists o :: o in Detectors.OnsetsOfSignal(x) && Abs(o.zpeak) >= 3.0
  }

  /** The signal of the pod has a strong onset, its workload has a threshold, and the 90th percentile of its recent tail
      exceeds that. */
  ghost predicate Reportable(c: MemoryConfig, t: B.Table, vectors: Dict<seq<real>>, recent: nat, pod: string) {
    var th := B.BaselineThreshold(c, t, Workload.StableWorkload(pod));
    && pod in vectors.at && vectors.at[pod] != [] && HasStrongOnset(vectors.at[pod])
    && th.Some? && P90(LastN(vectors.at[pod], recent)) > th.value
  }

  /** Exactly which pods a round reports. */
  lemma ReportedIff(c: MemoryConfig, t: B.Table, p: Inputs, corr: LagCorrelation.Corr,
                    d: Detected, out: CG.Report, pod: string)
    requires p.vectors.Valid() && IsPass(WithThresholds(c, t, p), corr, d, out)
    ensures (exists f :: f in out.findings && f.pod == pod) <==> Reportable(c, t, p.vectors, p.recent, pod)
  {
    var q := WithThresholds(c, t, p);
    FoundIffActive(q, corr, d, out, pod);
    PassLaws.ActiveMeansIncident(q, corr, d, out);
    hide IsPass, Workload.StableWorkload, P90, Detection.IsIncident, HasStrongOnset, LastN, B.BaselineThreshold;
    if pod in p.vectors.at && p.vectors.at[pod] != [] {
      ExceedsLimit(c, t, p.vectors, p.recent, pod);
    }
  }

  lemma ExceedsLimit(c: MemoryConfig, t: B.Table, vectors: Dict<seq<real>>, recent: nat, pod: string)
    requires vectors.Valid() && pod in vectors.at && vectors.at[pod] != []
    ensures Detection.IsIncident(Some(ThresholdsOf(c, t, vectors)), recent, pod, vectors.at[pod]) <==>
            Reportable(c, t, vectors, recent, pod)
  {
    var x, th := vectors.at[pod], ThresholdsOf(c, t, vectors);
    assert pod in th && th[pod] == B.BaselineThreshold(c, t, Workload.StableWorkload(pod));
    hide ThresholdsOf, Workload.StableWorkload, Detectors.OnsetsOfSignal, B.BaselineThreshold, Abs, P90, LastN,
         Detection.IsIncident, Detection.Deviates, Detection.StrongOnsets;
    StrongIff(x);
    Detection.IncidentMeans(Some(th), recent, pod, x);
    GateMeans(th, recent, pod, x);
  }

  lemma GateMeans(th: map<string, Option<real>>, recent: nat, pod: string, x: seq<real>)
    requires x != [] && pod in th
    ensures Detection.Deviates(Some(th), recent, pod, x) <==> th[pod].Some? && P90(LastN(x, recent)) > th[pod].value
  {
    hide P90, LastN;
  }

  lemma StrongIff(x: seq<real>)
    ensures Detection.StrongOnsets(Detectors.OnsetsOfSignal(x)) != [] <==> HasStrongOnset(x)
  {
    hide Detectors.OnsetsOfSignal, Abs;
    var os := Detection.StrongOnsets(Detectors.OnsetsOfSignal(x));
    if os != [] {
      assert os[0] in os;
    }
  }

  lemma FoundIffActive(p: Inputs, corr: LagCorrelation.Corr, d: Detected, out: CG.Report, pod: string)
    requires IsPass(p, corr, d, out)
    ensures (exists f :: f in out.findings && f.pod == pod) <==> pod in d.active
  {
    PassLaws.FindingsInOrder(p, corr, d, out);
    PassLaws.PassParts(p, corr, d, out);
    hide IsPass;
    if pod in d.active {
      assert FindingOf(pod, d.raw[pod], d.centre) in out.findings;
    }
  }

  /** Without thresholds every pod with a strong onset is reported. */
  lemma UngatedIff(p: Inputs, corr: LagCorrelation.Corr, d: Detected, out: CG.Report, pod: string)
    requires IsPass(p, corr, d, out) && p.baselines == None && pod in p.vectors.keys
    ensures pod in p.vectors.at
    ensures (exists f :: f in out.findings && f.pod == pod) <==> HasStrongOnset(p.vectors.at[pod])
  {
    FoundIffActive(p, corr, d, out, pod);
    PassLaws.ActiveMeansIncident(p, corr, d, out);
    InputsAreOk(p, corr, d, out);
    hide IsPass, Detectors.OnsetsOfSignal, Detection.StrongOnsets, Abs;
    StrongIff(p.vectors.at[pod]);
  }

  /** After a round every two running workloads whose pods share a disk have a row, with a floor at the prior or
      above. */
  lemma RoundSeedsBackbone(c: MemoryConfig, t: Tables, p: Inputs, out: CG.Report, ts: real, a: string, b: string)
    requires p.vectors.Valid() && {a, b} in p.physical.shared && a in p.vectors.keys && b in p.vectors.keys
    requires var u, v := Workload.StableWorkload(a), Workload.StableWorkload(b); u != v && StringLe(u, v)
    ensures var k := (Workload.StableWorkload(a), Workload.StableWorkload(b));
            var after := Observed(c, t, PassOf(p, out, ts)).edges;
            k in after && after[k].base >= c.prior
  {
    hide Workload.StableWorkload, StringLe, EdgeMemory.Step, EdgeTable.TouchOf, InWorkloads, Observed;
    var pass, k := PassOf(p, out, ts), (Workload.StableWorkload(a), Workload.StableWorkload(b));
    assert EdgeTable.Image({a, b}) == {k.0, k.1};
    ObservedRows.TouchMeans(pass, k);
    ObservedRows.ObservedRow(c, t, pass, k);
    EdgeMemory.SeededFloor(c, Lookup(t.edges, k), EdgeTable.TouchOf(InWorkloads(pass), k));
  }

  /** The row of a reported pod's workload is learned in the same round exactly when some pod of the
      workload has a long enough vector that, seen as a whole, does not exceed the limit. */
  lemma ReportedIsLearnedIff(c: MemoryConfig, t: B.Table, p: Inputs, corr: LagCorrelation.Corr,
                             d: Detected, out: CG.Report, pod: string)
    requires p.vectors.Valid() && IsPass(WithThresholds(c, t, p), corr, d, out) && pod in d.active
    ensures
      var w := Workload.StableWorkload(pod);
      && Lookup(t, w).Some?
      && (Lookup(B.LearnAll(c, t, p.vectors.keys, p.vectors.at), w) != Lookup(t, w) <==>
            exists q :: q in p.vectors.keys && Workload.StableWorkload(q) == w && |p.vectors.at[q]| >= 12
                        && P90(p.vectors.at[q]) <= B.Limit(c, Lookup(t, w).value))
  {
    hide IsPass, Workload.StableWorkload, P90, B.Limit, B.LearnAll, LastN;
    ReportedPodDeviates(c, t, p, corr, d, out, pod);
    var w := Workload.StableWorkload(pod);
    B.RowUnchangedIff(c, t, p.vectors.keys, p.vectors.at, w, Lookup(t, w).value);
  }

  /** Judged on their whole vectors, pods that are all reported are never learned. */
  lemma ReportedIsNotLearned(c: MemoryConfig, t: B.Table, p: Inputs, corr: LagCorrelation.Corr,
                             d: Detected, out: CG.Report, pod: string)
    requires p.vectors.Valid() && IsPass(WithThresholds(c, t, p), corr, d, out) && pod in d.active
    requires forall q :: q in p.vectors.keys && Workload.StableWorkload(q) == Workload.StableWorkload(pod) ==>
               q in d.active && (p.recent == 0 || p.recent >= |p.vectors.at[q]|)
    ensures var w := Workload.StableWorkload(pod);
            Lookup(B.LearnAll(c, t, p.vectors.keys, p.vectors.at), w) == Lookup(t, w)
  {
    hide IsPass, Workload.StableWorkload, P90, B.Limit, B.LearnAll;
    var w := Workload.StableWorkload(pod);
    ReportedPodDeviates(c, t, p, corr, d, out, pod);
    forall q | q in p.vectors.keys && Workload.StableWorkload(q) == w
      ensures p.vectors.at[q] != [] && P90(p.vectors.at[q]) > B.Limit(c, Lookup(t, w).value)
    {
      ReportedPodDeviates(c, t, p, corr, d, out, q);
    }
    B.RowUnchangedIff(c, t, p.vectors.keys, p.vectors.at, w, Lookup(t, w).value);
  }

  // It does happen that a pod is reported and learned.

  lemma LateIsSorted(k: nat, m: nat)
    ensures Sort(Late(k, m), RealLe) == Late(k, m)
  {
    SortOfSorted(Late(k, m), RealLe);
  }

  lemma LatePercentiles()
    ensures P90(Late(177, 3)) == 0.0
    ensures P90(Late(21, 3)) == 0.7
  {
    LateIsSorted(177, 3);
    LateIsSorted(21, 3);
    assert Position(180, 0.9) == 161.1 && 161.1.Floor == 161;
    assert Position(24, 0.9) == 20.7 && 20.7.Floor == 20;
    hide Sort, Position;
  }

  /** A disturbance of three samples: over the last 24 its 90th percentile is 0.7, over all 180 it is 0. */
  lemma ShortStormDeviates(b: B.Baseline)
    requires b.median == 0.0 && b.mad == 0.0
    ensures P90(LastN(Late(177, 3), 24)) > B.Limit(DEFAULTS, b) >= P90(Late(177, 3))
  {
    hide P90, Late;
    assert Late(177, 3)[156..] == Late(21, 3);
    LatePercentiles();
    assert B.Limit(DEFAULTS, b) == 0.04;
  }

  lemma ShortStormIsIncident(thresholds: map<string, Option<real>>, pod: string, b: B.Baseline)
    requires b.median == 0.0 && b.mad == 0.0 && pod in thresholds && thresholds[pod] == Some(B.Limit(DEFAULTS, b))
    ensures Detection.IsIncident(Some(thresholds), 24, pod, Late(177, 3))
  {
    hide P90, Late, B.Limit, Detectors.OnsetsOfSignal, LastN, Detection.StrongOnsets;
    LateIsOnset(177, 3);
    var os := Detectors.OnsetsOfSignal(Late(177, 3));
    assert os[0] in Detection.StrongOnsets(os);
    ShortStormDeviates(b);
  }

  /** In every round with the default parameters and a recent tail of 24, a pod at rest that is disturbed
      for three samples is reported, and the disturbance is learned into its baseline all the same. */
  lemma ShortStormIsReportedAndLearned(t: B.Table, p: Inputs, corr: LagCorrelation.Corr,
                                       d: Detected, out: CG.Report, pod: string, b: B.Baseline)
    requires p.vectors.Valid() && IsPass(WithThresholds(DEFAULTS, t, p), corr, d, out) && p.recent == 24
    requires pod in p.vectors.keys && p.vectors.at[pod] == Late(177, 3)
    requires Lookup(t, Workload.StableWorkload(pod)) == Some(b)
    requires b.median == 0.0 && b.mad == 0.0 && b.n >= DEFAULTS.baseMinN
    ensures pod in d.active
    ensures var w := Workload.StableWorkload(pod);
            Lookup(B.LearnAll(DEFAULTS, t, p.vectors.keys, p.vectors.at), w) != Lookup(t, w)
  {
    hide IsPass, Workload.StableWorkload, P90, B.Limit, B.LearnAll, Late, Detection.IsIncident, LastN;
    var q := WithThresholds(DEFAULTS, t, p);
    ShortStormIsIncident(q.baselines.value, pod, b);
    InputsAreOk(q, corr, d, out);
    PassLaws.ActiveMeansIncident(q, corr, d, out);
    ShortStormDeviates(b);
    ReportedIsLearnedIff(DEFAULTS, t, p, corr, d, out, pod);
  }

  /** A round without findings promotes no case and confirms no edge. */
  lemma QuietRoundOnlyDecays(c: MemoryConfig, t: Tables, p: Inputs, corr: LagCorrelation.Corr,
                             d: Detected, out: CG.Report, ts: real)
    requires IsPass(p, corr, d, out) && out.findings == []
    ensures Observed(c, t, PassOf(p, out, ts)).library == t.library
    ensures InWorkloads(PassOf(p, out, ts)).edges == []
  {
    hide IsPass, EdgeTable.After, B.LearnAll;
    assert p.vectors.Valid() by { InputsAreOk(p, corr, d, out); }
    PassLaws.NoSymptomNoVerdict(p, corr, d, out);
  }
}
