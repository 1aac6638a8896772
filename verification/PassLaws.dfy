/** What every pass guarantees, whatever its inputs. */
module PassLaws {
  import opened Common
  import opened Digraph
  import opened Ordering
  import opened LagCorrelation
  import opened Detection
  import opened Gate
  import opened Pipeline
  import opened CorrelationPass
  import BlastRadius
  import CG = CausalGraph
  import Dt = Detectors
  import Ranking

  // Findings.

  /** One finding for each incident pod and no others, in order of onset. */
  lemma FindingsInOrder(p: Inputs, corr: Corr, d: Detected, out: CG.Report)
    requires IsPass(p, corr, d, out)
    ensures |out.findings| == |d.active|
    ensures forall i, j :: 0 <= i < j < |out.findings| ==> out.findings[i].onset <= out.findings[j].onset
    ensures forall f :: f in out.findings <==>
              exists q :: q in d.active && f == FindingOf(q, d.raw[q], d.centre)
  {
    hide IsDetected, FindingOf, EdgesOf, Ranking.RankingOf, BlastRadius.IsBlast, InputsOk, IsCorrelation;
    var fs := FindingsOf(d.active, d.raw, d.centre);
    SortIsPermutation(fs, Earlier);
    SortHasSameElements(fs, Earlier);
    SortSorts(fs, Earlier);
    assert forall i, j :: 0 <= i < j < |out.findings| ==> Earlier(out.findings[i], out.findings[j]);
    hide Sort, SortedBy;
    forall q | q in d.active
      ensures FindingOf(q, d.raw[q], d.centre) in fs
    {
      var i :| 0 <= i < |d.active| && d.active[i] == q;
      assert fs[i] in fs;
    }
  }

  /** The active pods are the pods with a strong onset that deviate from their own normal. */
  lemma ActiveMeansIncident(p: Inputs, corr: Corr, d: Detected, out: CG.Report)
    requires IsPass(p, corr, d, out)
    ensures forall q :: q in d.active <==>
              q in p.vectors.keys && IsIncident(p.baselines, p.recent, q, p.vectors.at[q])
  {
    hide IsIncident, IsReport, WriteOnsetsOf, EventOnset, StrongOnsets, Windowed, IsCorrelation, CentreOf;
  }

  lemma ActiveDeviates(p: Inputs, corr: Corr, d: Detected, out: CG.Report, q: string)
    requires IsPass(p, corr, d, out) && q in d.active
    ensures q in p.vectors.keys && q in p.vectors.at && p.vectors.at[q] != []
    ensures Deviates(p.baselines, p.recent, q, p.vectors.at[q])
  {
    hide IsReport, IsDetected, StrongOnsets, Deviates, IsCorrelation;
    ActiveMeansIncident(p, corr, d, out);
  }

  /** Exactly the active pods have a known onset. */
  lemma ActiveHaveOnsets(p: Inputs, corr: Corr, d: Detected, out: CG.Report)
    requires IsPass(p, corr, d, out)
    ensures forall q :: q in d.scene.onset <==> q in d.active
    ensures forall q :: q in d.scene.active <==> q in d.active
  {
    hide IsIncident, IsReport, WriteOnsetsOf, EventOnset, StrongOnsets, Windowed, IsCorrelation, CentreOf;
  }

  // Edges.

  /** e joins two different pods of the pass and meets every clause of the gate that admitted it. */
  ghost predicate Lawful(s: Scene, e: Edge) {
    && e.src != e.dst && e.lag >= 0 && e.r <= 1.0
    && if IsSource(e) then
         && e.r >= R_SRC && CouplesSource(s.physical, e.src, e.dst)
         && e.src in s.writeOnset && e.dst in s.active && Activity(s, e.src) > Activity(s, e.dst)
         && (e.dst in s.onset ==>
               "temporal" in e.evidence && s.writeOnset[e.src] <= s.onset[e.dst] + TEMPORAL_TOL_S)
       else
         && e.r >= R_PEAK && Couples(s.physical, e.src, e.dst) && s.active != {}
         && Ordered(s.onset, e.src, e.dst, e.lag)
  }

  lemma PairEdgeIsLawful(s: Scene, a: string, b: string)
    requires a in s.vectors && b in s.vectors && PairEdge(s, a, b).Some? && IsCorrelation(s.corr) && a != b
    ensures Lawful(s, PairEdge(s, a, b).value)
  {
    hide PairEdge, Couples, Ordered, IsCorrelation, CouplesSource, Activity, IsSource;
    PairEdgeMeans(s, a, b);
  }

  lemma SourceEdgeIsLawful(s: Scene, w: string, v: string, e: Edge)
    requires SourceFound(s, w, v, e) && IsCorrelation(s.corr)
    ensures Lawful(s, e)
  {
    hide SourceFound, Couples, Ordered, IsCorrelation, CouplesSource, Activity, IsSource;
    SourceEdgeMeans(s, w, v, e);
  }

  lemma EdgesAreLawful(s: Scene, pods: seq<string>, writers: seq<string>, e: Edge)
    requires forall p :: p in pods ==> p in s.vectors
    requires forall p :: p in writers ==> p in s.writes
    requires Distinct(pods) && IsCorrelation(s.corr) && e in EdgesOf(s, pods, writers)
    ensures Lawful(s, e)
  {
    hide PairEdge, AttributedEdge, IsCorrelation, Better, Lawful;
    var pairs := PairEdgesUpTo(s, pods, |pods|);
    var all := pairs + SourceEdges(s, writers, pods);
    if writers != [] {
      SortHasSameElements(Chosen(all), ByName);
      ChosenMeans(all);
    }
    if e in pairs {
      PairEdgeMember(s, pods, |pods|, e);
      var a: nat, b: nat :| a < |pods| && PairFound(s, pods, a, b, e);
      PairEdgeIsLawful(s, pods[a], pods[b]);
    } else {
      SourceEdgeMember(s, writers, pods, e);
      var w, v :| w in writers && v in pods && SourceFound(s, w, v, e);
      SourceEdgeIsLawful(s, w, v, e);
    }
  }

  lemma NamesDiffer(p: Inputs)
    requires p.vectors.Valid()
    ensures Distinct(Names(p.vectors.keys))
  {
    SortKeepsDistinct(p.vectors.keys, StringLe);
    SortIsPermutation(p.vectors.keys, StringLe);
  }

  /** Every edge of every pass joins a witnessed pair of different pods, is as strong as its gate
      demands, and respects the order of the onsets. */
  lemma EveryEdgeIsLawful(p: Inputs, corr: Corr, d: Detected, out: CG.Report, e: Edge)
    requires IsPass(p, corr, d, out) && e in out.edges
    ensures Lawful(d.scene, e)
  {
    hide EdgesOf, Lawful, IsCorrelation, Sort;
    NamesDiffer(p);
    EdgesAreLawful(d.scene, Names(p.vectors.keys), Names(p.writes.keys), e);
  }

  lemma NoEdgesNoVerdict(seeds: seq<string>, onset: map<string, real>)
    ensures Ranking.RankingOf(GraphOf([]), seeds, onset, Ranking.TOP) == []
  {
    hide Ranking.Candidates, Ranking.SeedSet;
  }

  /** Without a finding there is no edge, no root cause and no blast radius. */
  lemma NoSymptomNoVerdict(p: Inputs, corr: Corr, d: Detected, out: CG.Report)
    requires IsPass(p, corr, d, out) && out.findings == []
    ensures out.edges == [] && out.ranking == [] && out.blast == []
  {
    hide EdgesOf, IsCorrelation, IsIncident, FindingOf, Ranking.RankingOf;
    assert d.active == [] by { FindingsInOrder(p, corr, d, out); }
    if out.edges != [] {
      EveryEdgeIsLawful(p, corr, d, out, out.edges[0]);
      ActiveHaveOnsets(p, corr, d, out);
    }
    NoEdgesNoVerdict(Seeds(p, d.active), d.scene.onset);
  }

  // Source edges.

  /** Edges that follow one another head to tail. */
  ghost predicate Chain(path: seq<Edge>) {
    path != [] && forall i :: 0 <= i < |path| - 1 ==> path[i].dst == path[i + 1].src
  }

  /** Write activity strictly drops along a chain of source edges. */
  lemma {:induction false} ActivityDrops(s: Scene, path: seq<Edge>)
    requires Chain(path) && forall i :: 0 <= i < |path| ==> IsSource(path[i]) && Lawful(s, path[i])
    ensures Activity(s, path[0].src) > Activity(s, path[|path| - 1].dst)
  {
    hide Activity, IsSource, Couples, CouplesSource, Ordered;
    if |path| <= 1 {
    } else {
      ActivityDrops(s, path[1..]);
    }
  }

  /** Source edges never form a cycle: somebody writes hardest. */
  lemma SourceEdgesAreAcyclic(p: Inputs, corr: Corr, d: Detected, out: CG.Report, path: seq<Edge>)
    requires IsPass(p, corr, d, out)
    requires Chain(path) && forall e :: e in path ==> e in out.edges && IsSource(e)
    ensures path[0].src != path[|path| - 1].dst
  {
    hide IsPass, IsSource, Lawful, Activity;
    forall i | 0 <= i < |path|
      ensures IsSource(path[i]) && Lawful(d.scene, path[i])
    {
      EveryEdgeIsLawful(p, corr, d, out, path[i]);
    }
    ActivityDrops(d.scene, path);
  }

  /** Every source edge points at a finding and carries temporal evidence. */
  lemma SourceEdgesAreTimed(p: Inputs, corr: Corr, d: Detected, out: CG.Report, e: Edge)
    requires IsPass(p, corr, d, out) && e in out.edges && IsSource(e)
    ensures "temporal" in e.evidence && e.dst in d.active && e.src in d.scene.writeOnset && e.dst in d.scene.onset
    ensures d.scene.writeOnset[e.src] <= d.scene.onset[e.dst] + TEMPORAL_TOL_S
  {
    hide IsPass, IsSource, Activity, CouplesSource;
    EveryEdgeIsLawful(p, corr, d, out, e);
    ActiveHaveOnsets(p, corr, d, out);
  }

  /** Without a breach list the victim of every write-evidenced edge is among the symptoms the ranking explains. */
  lemma SourceVictimIsSymptom(p: Inputs, corr: Corr, d: Detected, out: CG.Report, e: Edge)
    requires IsPass(p, corr, d, out) && e in out.edges && IsSource(e) && p.sloBreach == []
    ensures e.dst in Ranking.SeedSet(GraphOf(out.edges), Seeds(p, d.active))
  {
    hide IsPass, IsSource, GraphOf, Names;
    SourceEdgesAreTimed(p, corr, d, out, e);
    NamesAreKeys(d.active);
    NodesAreEndpoints(out.edges, e.dst);
  }

  // One edge per pair.

  /** The edges e of a row all join pods[i] to a later pod. */
  lemma {:induction false} RowIsOnePerPair(s: Scene, pods: seq<string>, i: nat, j: nat)
    requires i < j <= |pods| && (forall p :: p in pods ==> p in s.vectors) && Distinct(pods)
    requires IsCorrelation(s.corr)
    ensures OnePerPair(RowEdges(s, pods, i, j))
    ensures forall e :: e in RowEdges(s, pods, i, j) ==> exists b :: i < b < j && Ends(e) == {pods[i], pods[b]}
  {
    hide PairEdge, IsCorrelation, Ends;
    if j > i + 1 {
      RowIsOnePerPair(s, pods, i, j - 1);
      if PairEdge(s, pods[i], pods[j - 1]).Some? {
        PairEdgeEnds(s, pods[i], pods[j - 1]);
        PairsDiffer(pods, i, j - 1);
      }
    }
  }

  lemma PairEdgeEnds(s: Scene, a: string, b: string)
    requires a in s.vectors && b in s.vectors && PairEdge(s, a, b).Some? && IsCorrelation(s.corr)
    ensures Ends(PairEdge(s, a, b).value) == {a, b}
  {
    hide PairEdge, IsCorrelation, Couples, Ordered;
    PairEdgeMeans(s, a, b);
  }

  lemma PairsDiffer(pods: seq<string>, i: nat, k: nat)
    requires i < k < |pods| && Distinct(pods)
    ensures forall b :: i < b < k ==> {pods[i], pods[b]} != {pods[i], pods[k]}
  {
    forall b | i < b < k
      ensures {pods[i], pods[b]} != {pods[i], pods[k]}
    {
      assert pods[k] !in {pods[i], pods[b]};
    }
  }

  lemma {:induction false} PairsAreOnePerPair(s: Scene, pods: seq<string>, i: nat)
    requires i <= |pods| && (forall p :: p in pods ==> p in s.vectors) && Distinct(pods)
    requires IsCorrelation(s.corr)
    ensures OnePerPair(PairEdgesUpTo(s, pods, i))
    ensures forall e :: e in PairEdgesUpTo(s, pods, i) ==>
              exists a, b :: 0 <= a < i && a < b < |pods| && Ends(e) == {pods[a], pods[b]}
  {
    hide RowEdges, IsCorrelation;
    if i == 0 {
    } else {
      var before, row := PairEdgesUpTo(s, pods, i - 1), RowEdges(s, pods, i - 1, |pods|);
      PairsAreOnePerPair(s, pods, i - 1);
      RowIsOnePerPair(s, pods, i - 1, |pods|);
      forall e, f | e in before && f in row
        ensures Ends(e) != Ends(f)
      {
        var a, b :| 0 <= a < i - 1 && a < b < |pods| && Ends(e) == {pods[a], pods[b]};
        var c :| i - 1 < c < |pods| && Ends(f) == {pods[i - 1], pods[c]};
        assert pods[a] in Ends(e) && pods[a] !in Ends(f);
      }
    }
  }

  lemma OnePerPairOfPermutation(xs: seq<Edge>, ys: seq<Edge>)
    requires OnePerPair(xs) && multiset(xs) == multiset(ys)
    ensures OnePerPair(ys)
  {
    forall i, j | 0 <= i < j < |ys|
      ensures Ends(ys[i]) != Ends(ys[j])
    {
      assert ys[i] in multiset(ys) && ys[j] in multiset(ys);
      assert ys[i] in xs && ys[j] in xs;
      if ys[i] == ys[j] {
        CountTwice(ys, i, j);
        DistinctCount(xs, ys[i]);
      }
    }
  }

  /** No two edges of a pass join the same two pods, in either direction. */
  lemma OneEdgePerPair(p: Inputs, corr: Corr, d: Detected, out: CG.Report)
    requires IsPass(p, corr, d, out)
    ensures OnePerPair(out.edges)
  {
    hide IsCorrelation, PairEdgesUpTo, SourceEdges, Chosen, Sort, IsDetected, OnePerPair;
    assert d.scene.corr == corr by { SceneCorr(p, corr, d); }
    NamesDiffer(p);
    var pods, writers := Names(p.vectors.keys), Names(p.writes.keys);
    var pairs := PairEdgesUpTo(d.scene, pods, |pods|);
    if writers == [] {
      PairsAreOnePerPair(d.scene, pods, |pods|);
    } else {
      var all := pairs + SourceEdges(d.scene, writers, pods);
      ChosenMeans(all);
      SortIsPermutation(Chosen(all), ByName);
      OnePerPairOfPermutation(Chosen(all), out.edges);
    }
  }

  lemma SceneCorr(p: Inputs, corr: Corr, d: Detected)
    requires InputsOk(p) && IsDetected(p, corr, d)
    ensures d.scene.corr == corr && d.scene.physical == p.physical
  {
  }

  /** With write signals the edges are in order of their names. */
  lemma EdgesInOrder(p: Inputs, corr: Corr, d: Detected, out: CG.Report)
    requires IsPass(p, corr, d, out) && p.writes.keys != []
    ensures forall i, j :: 0 <= i < j < |out.edges| ==>
              var e, f := out.edges[i], out.edges[j];
              if e.src == f.src then StringLe(e.dst, f.dst) else StringLe(e.src, f.src)
  {
    hide Chosen, PairEdgesUpTo, SourceEdges, SortedBy, IsDetected, IsCorrelation;
    var pods, writers := Names(p.vectors.keys), Names(p.writes.keys);
    SortIsPermutation(p.writes.keys, StringLe);
    hide Sort, ByName;
    ByNameIsOrder();
    SortSorts(Chosen(PairEdgesUpTo(d.scene, pods, |pods|) + SourceEdges(d.scene, writers, pods)), ByName);
    SortedByName(out.edges);
  }

  lemma SortedByName(es: seq<Edge>)
    requires SortedBy(es, ByName)
    ensures forall i, j :: 0 <= i < j < |es| ==>
              if es[i].src == es[j].src then StringLe(es[i].dst, es[j].dst) else StringLe(es[i].src, es[j].src)
  {
    hide StringLe;
    forall i, j | 0 <= i < j < |es|
      ensures if es[i].src == es[j].src then StringLe(es[i].dst, es[j].dst) else StringLe(es[i].src, es[j].src)
    {
      assert ByName(es[i], es[j]);
    }
  }

  /** Found by one of the two loops. */
  ghost predicate Admitted(s: Scene, pods: seq<string>, writers: seq<string>, e: Edge)
    requires forall p :: p in pods ==> p in s.vectors
    requires forall p :: p in writers ==> p in s.writes
  {
    e in PairEdgesUpTo(s, pods, |pods|) || e in SourceEdges(s, writers, pods)
  }

  lemma EdgesRepresent(s: Scene, pods: seq<string>, writers: seq<string>, e: Edge)
    requires forall p :: p in pods ==> p in s.vectors
    requires forall p :: p in writers ==> p in s.writes
    requires Admitted(s, pods, writers, e)
    ensures exists c :: c in EdgesOf(s, pods, writers) && Ends(c) == Ends(e) && !Better(e, c)
  {
    hide PairEdgesUpTo, Chosen, Sort, Better;
    var all := PairEdgesUpTo(s, pods, |pods|) + SourceEdges(s, writers, pods);
    if writers == [] {
      assert e in EdgesOf(s, pods, writers) && !Better(e, e) by { NeverBetterThanItself(e); }
    } else {
      ChosenMeans(all);
      SortHasSameElements(Chosen(all), ByName);
      assert e in all;
    }
  }

  lemma NeverBetterThanItself(e: Edge)
    ensures !Better(e, e)
  {
  }

  /** Whatever was admitted for a pair, the pass keeps an edge for it that is no worse: a source edge if
      there was one, and of the same kind never a weaker one. */
  lemma AdmittedIsRepresented(p: Inputs, corr: Corr, d: Detected, out: CG.Report, e: Edge)
    requires IsPass(p, corr, d, out) && Admitted(d.scene, Names(p.vectors.keys), Names(p.writes.keys), e)
    ensures exists c :: c in out.edges && {c.src, c.dst} == {e.src, e.dst} && KeptFor(c, e)
  {
    hide IsCorrelation, EdgesOf, Admitted, Sort, IsDetected, BlastRadius.IsBlast, Ranking.RankingOf, FindingOf;
    EdgesRepresent(d.scene, Names(p.vectors.keys), Names(p.writes.keys), e);
    var c :| c in out.edges && Ends(c) == Ends(e) && !Better(e, c);
    assert KeptFor(c, e);
  }

  /** c stands for e: a source edge stands for anything weaker or without a source, any other edge only for what is
      neither stronger nor a source. */
  ghost predicate KeptFor(c: Edge, e: Edge) {
    if "write" in c.evidence then "write" !in e.evidence || Abs(c.r) >= Abs(e.r)
    else "write" !in e.evidence && Abs(c.r) >= Abs(e.r)
  }

  // What the pass settles before it looks for edges.

  ghost predicate IsCoupled(d: Detected, q: string) {
    exists r :: r in d.active && r != q && Couples(d.scene.physical, q, r)
  }

  /** The pods among which the centre is looked for. */
  ghost predicate MayBeCentre(d: Detected, q: string) {
    q in d.active && (IsCoupled(d, q) || forall r :: r in d.active ==> !IsCoupled(d, r))
  }

  /** An isolated noisy pod never drags the centre away from coupled ones: the centre is the sharpest strong onset of
      the active pods that share a resource with another one, and only if there are none of all active pods. */
  lemma CentreIsCoupled(p: Inputs, corr: Corr, d: Detected, out: CG.Report)
    requires IsPass(p, corr, d, out)
    ensures d.centre.Some? <==> d.active != []
    ensures d.centre.Some? ==> exists q :: MayBeCentre(d, q) && q in d.raw && d.centre.value in d.raw[q]
    ensures d.centre.Some? ==> forall q, o :: MayBeCentre(d, q) && q in d.raw && o in d.raw[q] ==>
              Abs(o.zpeak) <= Abs(d.centre.value.zpeak)
  {
    hide IsReport, Couples, IsCorrelation, StrongOnsets, EventOnset, Windowed, WriteOnsetsOf, ActivePods, CentreOf, Abs;
    var w, active := p.physical, d.active;
    assert d.scene.physical == w;
    var candidates := CentreCandidates(w, active);
    forall q
      ensures q in candidates <==> MayBeCentre(d, q)
    {
      CandidateIff(d, q);
    }
    if active != [] {
      assert active[0] in active;
      CandidatesExist(w, active);
    }
    CentreIsSharpest(candidates, d.raw);
  }

  lemma CandidatesExist(w: Witness, active: seq<string>)
    ensures CentreCandidates(w, active) == [] <==> active == []
  {
  }

  lemma CandidateIff(d: Detected, q: string)
    ensures q in CentreCandidates(d.scene.physical, d.active) <==> MayBeCentre(d, q)
  {
    hide Couples, CoupledPods;
    var w, active := d.scene.physical, d.active;
    forall r
      ensures r in CoupledPods(w, active, active) <==> r in active && IsCoupled(d, r)
    {
      CoupledPodsMeans(w, active, active, r);
    }
    if CoupledPods(w, active, active) != [] {
      assert CoupledPods(w, active, active)[0] in CoupledPods(w, active, active);
    }
  }

  /** o is a strong onset of the signal, none is nearer to the centre, and without a centre it is the first. */
  ghost predicate IsEvent(x: seq<real>, centre: Option<Dt.Onset>, o: Dt.Onset) {
    var os := StrongOnsets(Dt.OnsetsOfSignal(x));
    && o in Dt.OnsetsOfSignal(x) && Abs(o.zpeak) >= 3.0
    && (centre.None? ==> os[0] == o)
    && (centre.Some? ==> forall u :: u in Dt.OnsetsOfSignal(x) && Abs(u.zpeak) >= 3.0 ==>
          Distance(o.idx, centre.value.idx) <= Distance(u.idx, centre.value.idx))
  }

  lemma EventIsEvent(x: seq<real>, centre: Option<Dt.Onset>)
    requires StrongOnsets(Dt.OnsetsOfSignal(x)) != []
    ensures IsEvent(x, centre, EventOnset(StrongOnsets(Dt.OnsetsOfSignal(x)), centre))
  {
    hide Dt.OnsetsOfSignal, Abs, StrongOnsets, Distance;
  }

  lemma OnsetOfActive(p: Inputs, corr: Corr, d: Detected, q: string)
    requires InputsOk(p) && IsDetected(p, corr, d) && q in d.active
    ensures q in p.vectors.at && q in d.raw && d.raw[q] == StrongOnsets(Dt.OnsetsOfSignal(p.vectors.at[q])) != []
    ensures q in d.scene.onset && d.scene.onset[q] == OnsetSeconds(EventOnset(d.raw[q], d.centre))
  {
    hide StrongOnsets, EventOnset, Windowed, WriteOnsetsOf, ActivePods, CentreOf, Dt.OnsetsOfSignal, OnsetSeconds;
  }

  /** A finding tells when its pod was hit in this event, in seconds of 5 a sample, how sharply, and how many strong
      onsets it had; the edges and the ranking use the same onset. */
  lemma FindingMeans(p: Inputs, corr: Corr, d: Detected, out: CG.Report, f: CG.Finding)
    requires IsPass(p, corr, d, out) && f in out.findings
    ensures f.pod in d.active && f.pod in p.vectors.at && f.pod in d.scene.onset && d.scene.onset[f.pod] == f.onset
    ensures exists o :: IsEvent(p.vectors.at[f.pod], d.centre, o)
                        && f.onset == 5.0 * o.idx as real && f.severity == Min(Abs(o.zpeak) / 10.0, 1.0)
    ensures f.onsets == |StrongOnsets(Dt.OnsetsOfSignal(p.vectors.at[f.pod]))|
  {
    var q := FindingOfActive(p, corr, d, out, f);
    PassParts(p, corr, d, out);
    hide IsPass, IsCorrelation, StrongOnsets, EventOnset, Abs, Min, Dt.OnsetsOfSignal, IsEvent, IsDetected;
    OnsetOfActive(p, corr, d, q);
    EventIsEvent(p.vectors.at[q], d.centre);
    var o := EventOnset(d.raw[q], d.centre);
    assert IsEvent(p.vectors.at[q], d.centre, o);
  }

  lemma PassParts(p: Inputs, corr: Corr, d: Detected, out: CG.Report)
    requires IsPass(p, corr, d, out)
    ensures InputsOk(p) && IsDetected(p, corr, d) && Shaped(p, d)
  {
    hide IsDetected, Shaped, IsReport;
  }

  lemma FindingOfActive(p: Inputs, corr: Corr, d: Detected, out: CG.Report, f: CG.Finding) returns (q: string)
    requires IsPass(p, corr, d, out) && f in out.findings
    ensures q in d.active && q in d.raw && d.raw[q] != [] && f == FindingOf(q, d.raw[q], d.centre)
  {
    FindingsInOrder(p, corr, d, out);
    PassParts(p, corr, d, out);
    hide IsPass, FindingOf, IsDetected;
    q :| q in d.active && f == FindingOf(q, d.raw[q], d.centre);
  }

  /** A writer counts as disturbed exactly when its own signal has a strong onset, from the one nearest to the same
      centre on. */
  lemma WriterOnsetMeans(p: Inputs, corr: Corr, d: Detected, out: CG.Report, w: string)
    requires IsPass(p, corr, d, out) && w in p.writes.keys
    ensures w in p.writes.at
    ensures w in d.scene.writeOnset <==> exists o :: o in Dt.OnsetsOfSignal(p.writes.at[w]) && Abs(o.zpeak) >= 3.0
    ensures w in d.scene.writeOnset ==>
              exists o :: IsEvent(p.writes.at[w], d.centre, o) && d.scene.writeOnset[w] == 5.0 * o.idx as real
  {
    hide IsReport, Couples, IsCorrelation, StrongOnsets, EventOnset, Windowed, ActivePods, CentreOf, Abs,
         Dt.OnsetsOfSignal, IsEvent;
    var os := StrongOnsets(Dt.OnsetsOfSignal(p.writes.at[w]));
    if os != [] {
      assert os[0] in os;
      EventIsEvent(p.writes.at[w], d.centre);
      assert IsEvent(p.writes.at[w], d.centre, EventOnset(os, d.centre));
    }
  }

  /** A slice continues its start, and is as long as asked for or as the list reaches. */
  lemma SliceContinues(v: seq<real>, lo: nat, len: nat)
    ensures |v| <= lo ==> Slice(v, lo, len) == []
    ensures |v| > lo ==>
              v[..lo] + Slice(v, lo, len) <= v && |Slice(v, lo, len)| == if lo + len <= |v| then len else |v| - lo
  {
  }

  function Offset(a: int, b: int): nat {
    if a < b then b - a else a - b
  }

  predicate Fits(lo: nat, len: nat, n: nat) {
    lo + len <= n
  }

  /** Of the stretches that fit, the one that starts nearest to a third of its length before the centre; the start of a
      series that is too short. */
  ghost predicate IsAround(lo: nat, len: nat, n: nat, centre: nat) {
    if len > n then lo == 0
    else Fits(lo, len, n) && forall l: nat :: Fits(l, len, n) ==>
           Offset(lo, centre - len / 3) <= Offset(l, centre - len / 3)
  }

  lemma WindowIsAround(centre: nat, len: nat, n: nat)
    ensures IsAround(WindowStart(centre, len, n), len, n, centre)
    ensures centre < n && 0 < len <= n ==>
              WindowStart(centre, len, n) <= centre < WindowStart(centre, len, n) + len <= n
  {
  }

  lemma SceneIsCut(p: Inputs, corr: Corr, d: Detected)
    requires InputsOk(p) && IsDetected(p, corr, d) && p.window > 0 && d.centre.Some? && p.vectors.keys != []
    ensures var lo := WindowStart(d.centre.value.idx, p.window, |p.vectors.at[p.vectors.keys[0]]|);
            d.scene.vectors == Cut(p.vectors.at, lo, p.window) && d.scene.writes == Cut(p.writes.at, lo, p.window)
  {
    hide StrongOnsets, EventOnset, WriteOnsetsOf, ActivePods, Dt.OnsetsOfSignal, CentreOf, WindowStart, Cut;
  }

  /** All vectors and all writes are correlated over one stretch of time, the same for each; a window that is set holds
      the centre, as nearly as the ends of the series allow a third of the window after its start. */
  lemma OneStretchForAll(p: Inputs, corr: Corr, d: Detected, out: CG.Report) returns (lo: nat)
    requires IsPass(p, corr, d, out) && p.window > 0 && d.centre.Some?
    ensures p.vectors.keys != [] && p.vectors.keys[0] in p.vectors.at
    ensures forall q :: q in p.vectors.at ==>
              q in d.scene.vectors && d.scene.vectors[q] == Slice(p.vectors.at[q], lo, p.window)
    ensures forall q :: q in p.writes.at ==>
              q in d.scene.writes && d.scene.writes[q] == Slice(p.writes.at[q], lo, p.window)
    ensures var c, n := d.centre.value.idx, |p.vectors.at[p.vectors.keys[0]]|;
            IsAround(lo, p.window, n, c) && (c < n && p.window <= n ==> lo <= c < lo + p.window <= n)
  {
    CentreIsCoupled(p, corr, d, out);
    PassParts(p, corr, d, out);
    assert d.active[0] in d.active;
    ActiveDeviates(p, corr, d, out, d.active[0]);
    hide IsPass, IsDetected, WindowStart, IsAround, Slice, Shaped;
    assert p.vectors.keys[0] in p.vectors.keys;
    SceneIsCut(p, corr, d);
    lo := WindowStart(d.centre.value.idx, p.window, |p.vectors.at[p.vectors.keys[0]]|);
    WindowIsAround(d.centre.value.idx, p.window, |p.vectors.at[p.vectors.keys[0]]|);
  }

  /** Without a window everything is correlated whole. */
  lemma WholeWithoutWindow(p: Inputs, corr: Corr, d: Detected, out: CG.Report)
    requires IsPass(p, corr, d, out) && p.window == 0
    ensures d.scene.vectors == p.vectors.at && d.scene.writes == p.writes.at
  {
    hide IsReport, Couples, IsCorrelation, StrongOnsets, EventOnset, WriteOnsetsOf, ActivePods, Abs, Dt.OnsetsOfSignal;
  }

  // The verdict of a pass.

  /** What the verdict has to explain: the pods of the breach list, or without one the active pods, as far as they are
      on the graph; every node if none is. */
  ghost function SymptomsOf(p: Inputs, d: Detected, g: Graph): set<string> {
    var named := set q | q in (if p.sloBreach != [] then p.sloBreach else d.active) && q in g.adj;
    if named == {} then g.adj.Keys else named
  }

  /** The verdict lists the first three in an order, by what they explain of those symptoms and then by their onset, of
      all pods that explain any, each with its part of the whole. */
  lemma VerdictOfPass(p: Inputs, corr: Corr, d: Detected, out: CG.Report) returns (order: seq<string>)
    requires IsPass(p, corr, d, out)
    ensures var g := GraphOf(out.edges);
            if !Ranking.HasEdges(g) then out.ranking == []
            else
              && Ranking.IsOrder(g, SymptomsOf(p, d, g), d.scene.onset, order)
              && Ranking.ListsFirst(g, SymptomsOf(p, d, g), d.scene.onset, 3, order, out.ranking)
  {
    hide IsDetected, GraphOf, IsCorrelation, Ranking.IsOrder, Ranking.ListsFirst, Ranking.HasEdges, Names, EdgesOf,
         FindingsOf, BlastRadius.IsBlast, Shaped;
    var g := GraphOf(out.edges);
    GraphOfIsValid(out.edges);
    order := Ranking.RankingIsTheTop(g, Seeds(p, d.active), d.scene.onset, Ranking.TOP);
    SeedsAreSymptoms(p, d, g);
  }

  lemma SeedsAreSymptoms(p: Inputs, d: Detected, g: Graph)
    ensures Ranking.SeedSet(g, Seeds(p, d.active)) == SymptomsOf(p, d, g)
  {
    hide Names;
    NamesAreKeys(d.active);
    var named := set q | q in (if p.sloBreach != [] then p.sloBreach else d.active) && q in g.adj;
    assert (set s | s in Seeds(p, d.active) && s in g.adj) == named;
  }
}
