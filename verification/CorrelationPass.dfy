/** `run_pass` as a whole, and what every pass guarantees. */
module CorrelationPass {
  import opened Common
  import opened Digraph
  import opened Ordering
  import opened LagCorrelation
  import opened Detection
  import opened Gate
  import opened Pipeline
  import BlastRadius
  import CG = CausalGraph
  import D = Detectors
  import Ranking

  /** The arguments of a pass; window = 0 and recent = 0 mean "not set", no writes mean none given. */
  datatype Inputs = Inputs(
    vectors: Dict<seq<real>>, physical: Witness, sloBreach: seq<string>, window: nat,
    writes: Dict<seq<real>>, baselines: Thresholds, recent: nat)

  /** Series are dicts; any vector in them may be empty, and their lengths may differ. */
  ghost predicate InputsOk(p: Inputs) {
    p.vectors.Valid() && p.writes.Valid()
  }

  // The analysis window.

  function WindowStart(centre: nat, window: nat, n: nat): nat {
    var lo := if centre - window / 3 < n - window then centre - window / 3 else n - window;
    if lo < 0 then 0 else lo
  }

  /** Python's v[lo:lo + n]. */
  function Slice(v: seq<real>, lo: nat, n: nat): seq<real> {
    if lo >= |v| then [] else if lo + n <= |v| then v[lo..lo + n] else v[lo..]
  }

  function Cut(m: map<string, seq<real>>, lo: nat, n: nat): map<string, seq<real>> {
    map p | p in m :: Slice(m[p], lo, n)
  }

  /** The window lies inside the series, so no slice is empty. */
  lemma WindowIsInside(centre: nat, window: nat, n: nat, v: seq<real>)
    requires window > 0 && |v| == n > 0
    ensures var lo := WindowStart(centre, window, n);
            Slice(v, lo, window) == v[lo..if lo + window <= n then lo + window else n] && |Slice(v, lo, window)| > 0
  {
  }

  /** What is correlated: the whole series, or the window around the event. */
  function Windowed(p: Inputs, m: map<string, seq<real>>, centre: Option<D.Onset>): map<string, seq<real>>
    requires p.vectors.Valid()
  {
    if p.window == 0 || centre.None? || p.vectors.keys == [] then m
    else Cut(m, WindowStart(centre.value.idx, p.window, |p.vectors.at[p.vectors.keys[0]]|), p.window)
  }

  // Findings.

  function FindingOf(pod: string, os: seq<D.Onset>, centre: Option<D.Onset>): CG.Finding
    requires os != []
  {
    var ev := EventOnset(os, centre);
    CG.Finding(pod, OnsetSeconds(ev), Min(Abs(ev.zpeak) / 10.0, 1.0), |os|)
  }

  function FindingsOf(pods: seq<string>, raw: Raw, centre: Option<D.Onset>): (fs: seq<CG.Finding>)
    requires forall p :: p in pods ==> p in raw && raw[p] != []
    ensures |fs| == |pods| && forall i :: 0 <= i < |pods| ==> fs[i] == FindingOf(pods[i], raw[pods[i]], centre)
  {
    seq(|pods|, i requires 0 <= i < |pods| => FindingOf(pods[i], raw[pods[i]], centre))
  }

  predicate Earlier(a: CG.Finding, b: CG.Finding) {
    a.onset <= b.onset
  }

  function EventOnsets(raw: Raw, centre: Option<D.Onset>): map<string, real>
    requires forall p :: p in raw ==> raw[p] != []
  {
    map p | p in raw :: OnsetSeconds(EventOnset(raw[p], centre))
  }

  // The pass.

  /** Everything a pass settles before it looks for edges. */
  datatype Detected = Detected(active: seq<string>, raw: Raw, centre: Option<D.Onset>, scene: Scene)

  ghost predicate IsDetected(p: Inputs, corr: Corr, d: Detected)
    requires InputsOk(p)
  {
    && d.active == ActivePods(p.baselines, p.recent, p.vectors.keys, p.vectors.at)
    && RawOf(d.raw, d.active, p.vectors.at)
    && d.centre == CentreOf(CentreCandidates(p.physical, d.active), d.raw)
    && d.scene.corr == corr && d.scene.physical == p.physical
    && d.scene.vectors == Windowed(p, p.vectors.at, d.centre)
    && d.scene.writes == Windowed(p, p.writes.at, d.centre)
    && d.scene.onset == EventOnsets(d.raw, d.centre)
    && WriteOnsetsOf(d.scene.writeOnset, p.writes.keys, p.writes.at, d.centre)
    && d.scene.active == (set q | q in d.active)
  }

  function Names(keys: seq<string>): seq<string> {
    Sort(keys, StringLe)
  }

  function Seeds(p: Inputs, active: seq<string>): seq<string> {
    if p.sloBreach != [] then p.sloBreach else Names(active)
  }

  /** Every series the pass works on is there. */
  ghost predicate Shaped(p: Inputs, d: Detected) {
    && d.scene.vectors.Keys == p.vectors.at.Keys && d.scene.writes.Keys == p.writes.at.Keys
    && (forall q :: q in p.vectors.keys ==> q in d.scene.vectors)
    && (forall q :: q in p.writes.keys ==> q in d.scene.writes)
    && (forall q :: q in d.active ==> q in d.raw && d.raw[q] != [])
  }

  /** The report of a pass, given what was detected. */
  ghost predicate IsReport(p: Inputs, d: Detected, out: CG.Report)
    requires InputsOk(p) && Shaped(p, d)
  {
    && out.findings == Sort(FindingsOf(d.active, d.raw, d.centre), Earlier)
    && (forall q :: q in Names(p.vectors.keys) ==> q in d.scene.vectors)
    && (forall q :: q in Names(p.writes.keys) ==> q in d.scene.writes)
    && out.edges == EdgesOf(d.scene, Names(p.vectors.keys), Names(p.writes.keys))
    && out.ranking == Ranking.RankingOf(GraphOf(out.edges), Seeds(p, d.active), d.scene.onset, Ranking.TOP)
    && if out.ranking == [] then out.blast == []
       else exists paths :: BlastRadius.IsBlast(GraphOf(out.edges), out.ranking[0].pod, out.blast, paths)
  }

  /** d is what a pass over p detects, and out what it reports. */
  ghost predicate IsPass(p: Inputs, corr: Corr, d: Detected, out: CG.Report) {
    && InputsOk(p) && IsCorrelation(corr)
    && IsDetected(p, corr, d) && Shaped(p, d) && IsReport(p, d, out)
  }

  lemma NamesAreKeys(keys: seq<string>)
    ensures forall q :: q in Names(keys) <==> q in keys
  {
    SortHasSameElements(keys, StringLe);
  }

  method Detect(p: Inputs, corr: Corr) returns (d: Detected)
    requires InputsOk(p)
    ensures IsDetected(p, corr, d)
  {
    var active, raw := DetectIncidents(p.vectors.keys, p.vectors.at, p.baselines, p.recent);
    var centre := CentreOf(CentreCandidates(p.physical, active), raw);
    var writeOnset := WriteOnsets(p.writes.keys, p.writes.at, centre);
    d := Detected(active, raw, centre,
                  Scene(corr, p.physical, Windowed(p, p.vectors.at, centre), Windowed(p, p.writes.at, centre),
                        EventOnsets(raw, centre), writeOnset, set q | q in active));
  }

  /** Some writer has no sample in what is correlated, so that its peak activity is undefined. */
  predicate Raises(d: Detected) {
    exists q :: q in d.scene.writes && d.scene.writes[q] == []
  }

  /** The outcome of a pass: a report, or None when it raises. */
  ghost predicate IsOutcome(p: Inputs, corr: Corr, d: Detected, out: Option<CG.Report>) {
    InputsOk(p) && IsDetected(p, corr, d)
    && match out
       case None => Raises(d)
       case Some(report) => !Raises(d) && IsPass(p, corr, d, report)
  }

  method RunPass(p: Inputs, corr: Corr) returns (out: Option<CG.Report>)
    requires InputsOk(p) && IsCorrelation(corr)
    ensures exists d :: IsOutcome(p, corr, d, out)
  {
    hide IsCorrelation, IsDetected, FindingOf, PairEdgesUpTo, SourceEdges, Chosen, Sort, GraphOf, Ranking.RankingOf,
         BlastRadius.IsBlast, EventOnset;
    var found := Detect(p, corr);
    DetectedShape(p, corr, found);
    var pods, writers, s := Names(p.vectors.keys), Names(p.writes.keys), found.scene;
    NamesAreKeys(p.vectors.keys);
    NamesAreKeys(p.writes.keys);
    var edges := CollectPairEdges(s, pods);
    if writers != [] {
      if Raises(found) {
        assert IsOutcome(p, corr, found, None);
        return None;
      }
      var sources := CollectSourceEdges(s, writers, pods);
      var chosen := ChooseEdges(edges + sources);
      edges := Sort(chosen, ByName);
    }
    EdgesAreCorrelations(s, pods, writers);
    BoundedFromEdges(edges);
    var g := BuildGraph(edges);
    var ranking := Ranking.RankRootCauses(g, Seeds(p, found.active), s.onset, Ranking.TOP);
    var blast: seq<BlastRadius.Hit> := [];
    if ranking != [] {
      Ranking.EveryVerdictExplains(g, Seeds(p, found.active), s.onset, Ranking.TOP, ranking[0]);
      ghost var paths;
      blast, paths := BlastRadius.BlastRadius(g, ranking[0].pod);
    }
    out := Some(CG.Report(Sort(FindingsOf(found.active, found.raw, found.centre), Earlier), edges, ranking, blast));
    assert IsPass(p, corr, found, out.value);
    assert IsOutcome(p, corr, found, out);
  }

  lemma WindowedKeys(p: Inputs, m: map<string, seq<real>>, centre: Option<D.Onset>)
    requires p.vectors.Valid()
    ensures Windowed(p, m, centre).Keys == m.Keys
  {
    hide Slice, WindowStart;
  }

  lemma DetectedShape(p: Inputs, corr: Corr, d: Detected)
    requires InputsOk(p) && IsDetected(p, corr, d)
    ensures Shaped(p, d)
  {
    hide StrongOnsets, D.OnsetsOfSignal, Windowed, WriteOnsetsOf, IsIncident, ActivePods, EventOnset, CentreOf;
    WindowedKeys(p, p.vectors.at, d.centre);
    WindowedKeys(p, p.writes.at, d.centre);
  }
}
