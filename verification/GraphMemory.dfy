/** The persistent memory of one signal: the tables, the step `observe` takes on them, and the
    graph it renders. */
module GraphMemory {
  import opened Common
  import opened Config
  import opened Digraph
  import opened EdgeTable
  import B = Baselines
  import BlastRadius
  import CG = CausalGraph
  import CL = CaseLibrary
  import EM = EdgeMemory
  import Promotion
  import Ranking
  import Workload

  /** One call of observe: the pass's report, the current vectors, the shared-disk witness if any. */
  datatype Pass = Pass(report: CG.Report, vectors: Dict<seq<real>>, shared: Option<set<set<string>>>, ts: real)

  datatype Tables = Tables(edges: EdgeTable.Table, library: CL.Library, baselines: B.Table)

  function Present(pods: seq<string>): set<string> {
    Image(set p | p in pods)
  }

  /** The pass in workload space. */
  function InWorkloads(p: Pass): WorkloadPass {
    var present := Present(p.vectors.keys);
    WorkloadPass(if p.shared.Some? then SeedKeys(p.shared.value, present) else {},
                 CG.WorkloadEdges(p.report.edges), present, p.ts)
  }

  function LibraryAfter(c: MemoryConfig, lib: CL.Library, report: CG.Report): CL.Library {
    match Promotion.IncidentOf(c, report)
    case None => lib
    case Some(inc) =>
      assert CL.NearestOk(inc.key, lib.cases) by { CL.NearestIsNearest(inc.key, lib.cases); }
      CL.Promote(c, lib, inc).library
  }

  /** The tables after one observe. */
  function Observed(c: MemoryConfig, t: Tables, p: Pass): Tables
    requires p.vectors.Valid()
  {
    Tables(After(c, t.edges, InWorkloads(p)),
           LibraryAfter(c, t.library, p.report),
           B.LearnAll(c, t.baselines, p.vectors.keys, p.vectors.at))
  }

  // Rendering.

  datatype LiveEdge = LiveEdge(edge: Edge, row: Option<EM.Row>)

  datatype HeldEdge = HeldEdge(edge: Edge, row: EM.Row)

  datatype Rendering = Rendering(live: seq<LiveEdge>, held: seq<HeldEdge>, report: CG.Report)

  /** The pod that stands for each running workload now; of several, the last. */
  function PodFor(pods: seq<string>): map<string, string> {
    if pods == [] then map[]
    else PodFor(pods[..|pods| - 1])[Workload.StableWorkload(pods[|pods| - 1]) := pods[|pods| - 1]]
  }

  predicate Eligible(r: EM.Row) {
    r.visible || r.base > 0.0
  }

  function PairOf(k: Key): set<string> {
    {k.0, k.1}
  }

  function LivePairs(es: seq<Edge>): set<set<string>> {
    set e | e in es :: {e.src, e.dst}
  }

  function LiveEdges(t: EdgeTable.Table, es: seq<Edge>): (ls: seq<LiveEdge>)
    ensures |ls| == |es|
    ensures forall i :: 0 <= i < |es| ==> ls[i] == LiveEdge(es[i], Lookup(t, KeyOf(CG.WorkloadEdge(es[i]))))
  {
    seq(|es|, i requires 0 <= i < |es| => LiveEdge(es[i], Lookup(t, KeyOf(CG.WorkloadEdge(es[i])))))
  }

  /** k is the strongest eligible row of a pair that is not live. */
  ghost predicate Strongest(t: EdgeTable.Table, live: set<set<string>>, k: Key) {
    && k in t && Eligible(t[k]) && PairOf(k) !in live
    && forall j :: j in t && Eligible(t[j]) && PairOf(j) == PairOf(k) ==> t[j].confidence <= t[k].confidence
  }

  function HeldEdgeOf(t: EdgeTable.Table, podFor: map<string, string>, k: Key): HeldEdge
    requires k in t && k.0 in podFor && k.1 in podFor
  {
    HeldEdge(Edge(podFor[k.0], podFor[k.1], t[k].r, t[k].lag, t[k].evidence), t[k])
  }

  /** One held edge, from the strongest row, for each pair that is not live, has an eligible row and
      has both workloads running; keys are the rows they come from. */
  ghost predicate HeldOk(t: EdgeTable.Table, live: set<set<string>>, podFor: map<string, string>,
                         held: seq<HeldEdge>, keys: seq<Key>) {
    && |keys| == |held|
    && (forall i :: 0 <= i < |keys| ==>
          Strongest(t, live, keys[i]) && keys[i].0 in podFor && keys[i].1 in podFor
          && held[i] == HeldEdgeOf(t, podFor, keys[i]))
    && (forall i, j :: 0 <= i < j < |keys| ==> PairOf(keys[i]) != PairOf(keys[j]))
    && (forall k :: k in t && Eligible(t[k]) && PairOf(k) !in live && k.0 in podFor && k.1 in podFor ==>
          exists i :: 0 <= i < |keys| && PairOf(keys[i]) == PairOf(k))
  }

  ghost predicate AreHeld(t: EdgeTable.Table, live: set<set<string>>, podFor: map<string, string>,
                          held: seq<HeldEdge>) {
    exists keys :: HeldOk(t, live, podFor, held, keys)
  }

  function HeldEdges(held: seq<HeldEdge>): (es: seq<Edge>)
    ensures |es| == |held| && forall i :: 0 <= i < |held| ==> es[i] == held[i].edge
  {
    seq(|held|, i requires 0 <= i < |held| => held[i].edge)
  }

  /** The verdict over live and held edges together, when there are symptoms to explain. */
  ghost predicate Judged(report: CG.Report, out: CG.Report) {
    if report.findings == [] || out.edges == [] then
      out.ranking == report.ranking && out.blast == report.blast
    else
      && out.ranking == Ranking.RankingOf(GraphOf(out.edges), CG.PodsOf(report.findings),
                                          CG.OnsetsOf(report.findings), Ranking.TOP)
      && BlastOf(out)
  }

  ghost predicate BlastOf(out: CG.Report) {
    if out.ranking == [] then out.blast == []
    else exists paths :: BlastRadius.IsBlast(GraphOf(out.edges), out.ranking[0].pod, out.blast, paths)
  }

  ghost predicate IsRendering(t: EdgeTable.Table, report: CG.Report, pods: seq<string>, out: Rendering) {
    && out.live == LiveEdges(t, report.edges)
    && AreHeld(t, LivePairs(CG.WorkloadEdges(report.edges)), PodFor(pods), out.held)
    && out.report.findings == report.findings
    && out.report.edges == report.edges + HeldEdges(out.held)
    && Judged(report, out.report)
  }

  lemma {:induction false} PodForMeans(pods: seq<string>)
    ensures forall w :: w in PodFor(pods) <==> w in Present(pods)
    ensures forall w :: w in PodFor(pods) ==> PodFor(pods)[w] in pods && Workload.StableWorkload(PodFor(pods)[w]) == w
  {
    hide Workload.StableWorkload;
    if pods == [] {
    } else {
      var front := pods[..|pods| - 1];
      PodForMeans(front);
      assert pods == front + [pods[|pods| - 1]];
      assert Present(pods) == Present(front) + {Workload.StableWorkload(pods[|pods| - 1])};
    }
  }

  /** A held edge never names a pod that is not running, and its pods are of the row's workloads. */
  lemma HeldEdgesNameRunningPods(t: EdgeTable.Table, report: CG.Report, pods: seq<string>, out: Rendering, h: HeldEdge)
    requires IsRendering(t, report, pods, out) && h in out.held
    ensures h.edge.src in pods && h.edge.dst in pods
    ensures (Workload.StableWorkload(h.edge.src), Workload.StableWorkload(h.edge.dst)) in t
    ensures t[(Workload.StableWorkload(h.edge.src), Workload.StableWorkload(h.edge.dst))] == h.row
  {
    hide Workload.StableWorkload, Judged, HeldOk, LiveEdges, LivePairs, PodFor;
    var live, podFor := LivePairs(CG.WorkloadEdges(report.edges)), PodFor(pods);
    var keys: seq<Key> :| HeldOk(t, live, podFor, out.held, keys);
    var i :| 0 <= i < |out.held| && out.held[i] == h;
    PodForMeans(pods);
    HeldEdgeIsRow(t, live, podFor, out.held, keys, i);
  }

  lemma HeldEdgeIsRow(t: EdgeTable.Table, live: set<set<string>>, podFor: map<string, string>,
                      held: seq<HeldEdge>, keys: seq<Key>, i: nat)
    requires HeldOk(t, live, podFor, held, keys) && i < |held|
    ensures exists k :: k in t && k.0 in podFor && k.1 in podFor && held[i] == HeldEdgeOf(t, podFor, k)
  {
    assert Strongest(t, live, keys[i]);
  }

  lemma FirstHeldHasPod(t: EdgeTable.Table, live: set<set<string>>, podFor: map<string, string>,
                        held: seq<HeldEdge>, keys: seq<Key>)
    requires HeldOk(t, live, podFor, held, keys)
    ensures held != [] ==> keys[0].0 in podFor
  {
  }

  const NOTHING := CG.Report([], [], [], [])

  /** Before any pod is known, whatever the tables hold, nothing is shown. */
  lemma BootstrapShowsNothing(t: EdgeTable.Table, out: Rendering)
    requires IsRendering(t, NOTHING, [], out)
    ensures out == Rendering([], [], NOTHING)
  {
    var keys: seq<Key> :| HeldOk(t, LivePairs(CG.WorkloadEdges([])), PodFor([]), out.held, keys);
    FirstHeldHasPod(t, LivePairs(CG.WorkloadEdges([])), PodFor([]), out.held, keys);
  }

  lemma WeightsOfRendered(t: EdgeTable.Table, live: set<set<string>>, podFor: map<string, string>,
                          es: seq<Edge>, held: seq<HeldEdge>)
    requires AreHeld(t, live, podFor, held) && forall k :: k in t ==> Abs(t[k].r) <= 1.0
    requires forall e :: e in es ==> Abs(e.r) <= 1.0
    ensures forall e :: e in es + HeldEdges(held) ==> Abs(e.r) <= 1.0
  {
    var keys: seq<Key> :| HeldOk(t, live, podFor, held, keys);
    forall i | 0 <= i < |held|
      ensures Abs(held[i].edge.r) <= 1.0
    {
      assert held[i] == HeldEdgeOf(t, podFor, keys[i]);
    }
  }

  // What has been learned stays in view.

  lemma {:induction false} FloorsRiseInRuns(c: MemoryConfig, t: Tables, ps: seq<Pass>, k: Key)
    requires (forall i :: 0 <= i < |ps| ==> ps[i].vectors.Valid()) && k in t.edges
    ensures k in RunTables(c, t, ps).edges && RunTables(c, t, ps).edges[k].base >= t.edges[k].base
  {
    hide After;
    if ps == [] {
    } else {
      FloorsRiseInRuns(c, t, ps[..|ps| - 1], k);
      FloorsOnlyRise(c, RunTables(c, t, ps[..|ps| - 1]).edges, InWorkloads(ps[|ps| - 1]), k);
    }
  }

  ghost predicate Shows(out: Rendering, k: Key) {
    exists e :: e in out.report.edges && {Workload.StableWorkload(e.src), Workload.StableWorkload(e.dst)} == PairOf(k)
  }

  /** A row with a floor is in view, live or held, in every rendering with both its workloads running. */
  lemma FlooredPairIsShown(t: EdgeTable.Table, report: CG.Report, pods: seq<string>, out: Rendering, k: Key)
    requires IsRendering(t, report, pods, out) && k in t && t[k].base > 0.0
    requires k.0 in Present(pods) && k.1 in Present(pods)
    ensures Shows(out, k)
  {
    hide Workload.StableWorkload, Judged, LiveEdges, HeldEdges, PodFor, Present, Shows, LivePairs, HeldOk, PairOf;
    var live, podFor := LivePairs(CG.WorkloadEdges(report.edges)), PodFor(pods);
    PodForMeans(pods);
    if PairOf(k) in live {
      LivePairIsShown(report, out, k);
    } else {
      var keys: seq<Key> :| HeldOk(t, live, podFor, out.held, keys);
      HeldPairIsShown(t, live, podFor, pods, out, keys, k, report.edges);
    }
  }

  lemma LivePairIsShown(report: CG.Report, out: Rendering, k: Key)
    requires PairOf(k) in LivePairs(CG.WorkloadEdges(report.edges)) && report.edges <= out.report.edges
    ensures Shows(out, k)
  {
    hide Workload.StableWorkload;
    var es := CG.WorkloadEdges(report.edges);
    var w :| w in es && {w.src, w.dst} == PairOf(k);
    var i :| 0 <= i < |es| && es[i] == w;
    assert out.report.edges[i] == report.edges[i] && report.edges[i] in out.report.edges;
  }

  lemma HeldPairIsShown(t: EdgeTable.Table, live: set<set<string>>, podFor: map<string, string>, pods: seq<string>,
                        out: Rendering, keys: seq<Key>, k: Key, es: seq<Edge>)
    requires HeldOk(t, live, podFor, out.held, keys) && podFor == PodFor(pods)
    requires k in t && t[k].base > 0.0 && PairOf(k) !in live && k.0 in podFor && k.1 in podFor
    requires out.report.edges == es + HeldEdges(out.held)
    ensures Shows(out, k)
  {
    hide Workload.StableWorkload, PodFor, Strongest;
    var i :| 0 <= i < |keys| && PairOf(keys[i]) == PairOf(k);
    HeldPair(t, live, podFor, pods, out.held, keys, i);
    var e := out.held[i].edge;
    assert HeldEdges(out.held)[i] == e && out.report.edges[|es| + i] == e;
  }

  lemma HeldPair(t: EdgeTable.Table, live: set<set<string>>, podFor: map<string, string>, pods: seq<string>,
                 held: seq<HeldEdge>, keys: seq<Key>, i: nat)
    requires HeldOk(t, live, podFor, held, keys) && i < |keys| && podFor == PodFor(pods)
    ensures i < |held|
    ensures {Workload.StableWorkload(held[i].edge.src), Workload.StableWorkload(held[i].edge.dst)} == PairOf(keys[i])
  {
    hide Workload.StableWorkload, PodFor;
    PodForMeans(pods);
    assert Strongest(t, live, keys[i]);
  }

  /** So a pair that was once given a floor is in view after every further run. */
  lemma LearnedPairIsAlwaysShown(c: MemoryConfig, t: Tables, ps: seq<Pass>, out: Rendering, k: Key)
    requires ps != [] && (forall i :: 0 <= i < |ps| ==> ps[i].vectors.Valid())
    requires k in t.edges && t.edges[k].base > 0.0
    requires
      var last := ps[|ps| - 1];
      k.0 in Present(last.vectors.keys) && k.1 in Present(last.vectors.keys)
      && IsRendering(RunTables(c, t, ps).edges, last.report, last.vectors.keys, out)
    ensures Shows(out, k)
  {
    hide Observed, IsRendering, Shows, Present;
    FloorsRiseInRuns(c, t, ps, k);
    FlooredPairIsShown(RunTables(c, t, ps).edges, ps[|ps| - 1].report, ps[|ps| - 1].vectors.keys, out, k);
  }

  // Whole runs.

  ghost predicate TablesOk(c: MemoryConfig, t: Tables) {
    TableOk(c, t.edges) && CL.LibraryOk(c, t.library)
  }

  /** What a caller owes: vectors form a dict, edges are correlations. */
  ghost predicate PassValid(p: Pass) {
    p.vectors.Valid() && forall e :: e in p.report.edges ==> Abs(e.r) <= 1.0
  }

  lemma PassValidInWorkloads(p: Pass)
    requires PassValid(p)
    ensures PassOk(InWorkloads(p))
  {
    var w := InWorkloads(p);
    forall e | e in w.edges
      ensures Abs(e.r) <= 1.0
    {
      var i :| 0 <= i < |w.edges| && w.edges[i] == e;
      assert p.report.edges[i] in p.report.edges;
    }
  }

  /** Every observe keeps the edge rows well-formed and the case library separated and accounted. */
  lemma ObserveKeepsTables(c: MemoryConfig, t: Tables, p: Pass)
    requires EdgeConfig(c) && CaseConfig(c) && TablesOk(c, t) && PassValid(p)
    ensures TablesOk(c, Observed(c, t, p))
  {
    hide After, CL.Promote, CL.Separated, CL.Accounted;
    PassValidInWorkloads(p);
    PassKeepsTable(c, t.edges, InWorkloads(p));
    match Promotion.IncidentOf(c, p.report)
    case None =>
    case Some(inc) =>
      CL.NearestIsNearest(inc.key, t.library.cases);
      CL.PromoteKeepsSeparated(c, t.library, inc);
      CL.PromoteKeepsAccounted(c, t.library, inc);
  }

  function RunTables(c: MemoryConfig, t: Tables, ps: seq<Pass>): Tables
    requires forall i :: 0 <= i < |ps| ==> ps[i].vectors.Valid()
  {
    if ps == [] then t else Observed(c, RunTables(c, t, ps[..|ps| - 1]), ps[|ps| - 1])
  }

  const EMPTY_TABLES := Tables(map[], CL.Library([], []), map[])

  lemma {:induction false} EveryRunKeepsTables(c: MemoryConfig, ps: seq<Pass>)
    requires EdgeConfig(c) && CaseConfig(c)
    requires forall i :: 0 <= i < |ps| ==> ps[i].vectors.Valid() && PassValid(ps[i])
    ensures TablesOk(c, RunTables(c, EMPTY_TABLES, ps))
  {
    hide Observed;
    if ps == [] {
    } else {
      EveryRunKeepsTables(c, ps[..|ps| - 1]);
      ObserveKeepsTables(c, RunTables(c, EMPTY_TABLES, ps[..|ps| - 1]), ps[|ps| - 1]);
    }
  }

  // Restarts.

  function Images(shared: set<set<string>>): set<set<string>> {
    set pair | pair in shared :: Image(pair)
  }

  /** Two passes that agree once every pod is replaced by its workload. */
  ghost predicate SamePass(p: Pass, q: Pass) {
    && p.ts == q.ts && Promotion.SameIncident(p.report, q.report)
    && |p.vectors.keys| == |q.vectors.keys|
    && (forall i :: 0 <= i < |p.vectors.keys| ==> SamePod(p, q, i))
    && (p.shared.Some? <==> q.shared.Some?)
    && (p.shared.Some? ==> Images(p.shared.value) == Images(q.shared.value))
  }

  ghost predicate SamePod(p: Pass, q: Pass, i: nat)
    requires i < |p.vectors.keys| && i < |q.vectors.keys|
  {
    var a, b := p.vectors.keys[i], q.vectors.keys[i];
    && Workload.StableWorkload(a) == Workload.StableWorkload(b)
    && a in p.vectors.at && b in q.vectors.at && p.vectors.at[a] == q.vectors.at[b]
  }

  lemma SamePresent(xs: seq<string>, ys: seq<string>)
    requires |xs| == |ys|
    requires forall i :: 0 <= i < |xs| ==> Workload.StableWorkload(xs[i]) == Workload.StableWorkload(ys[i])
    ensures Present(xs) <= Present(ys)
  {
    hide Workload.StableWorkload;
    forall w | w in Present(xs)
      ensures w in Present(ys)
    {
      var p :| p in xs && Workload.StableWorkload(p) == w;
      var i :| 0 <= i < |xs| && xs[i] == p;
      assert ys[i] in ys;
    }
  }

  lemma SameSeeds(a: set<set<string>>, b: set<set<string>>, present: set<string>)
    requires Images(a) == Images(b)
    ensures SeedKeys(a, present) <= SeedKeys(b, present)
  {
    forall k | k in SeedKeys(a, present)
      ensures k in SeedKeys(b, present)
    {
      var pair :| pair in a && StandsFor(pair, k.0, k.1);
      assert Image(pair) in Images(b);
      var other :| other in b && Image(other) == Image(pair);
      assert StandsFor(other, k.0, k.1);
    }
  }

  /** Pods restarted under new names leave exactly the same tables, pass after pass. */
  lemma RestartKeepsStep(c: MemoryConfig, t: Tables, p: Pass, q: Pass)
    requires p.vectors.Valid() && q.vectors.Valid() && SamePass(p, q)
    ensures Observed(c, t, p) == Observed(c, t, q)
  {
    hide Workload.StableWorkload, After, SeedKeys, B.LearnAll, LibraryAfter, Image;
    var xs, ys := p.vectors.keys, q.vectors.keys;
    forall i | 0 <= i < |xs|
      ensures Workload.StableWorkload(xs[i]) == Workload.StableWorkload(ys[i])
      ensures xs[i] in p.vectors.at && ys[i] in q.vectors.at && p.vectors.at[xs[i]] == q.vectors.at[ys[i]]
    {
      assert SamePod(p, q, i);
    }
    SamePresent(xs, ys);
    SamePresent(ys, xs);
    assert Present(xs) == Present(ys);
    if p.shared.Some? {
      SameSeeds(p.shared.value, q.shared.value, Present(xs));
      SameSeeds(q.shared.value, p.shared.value, Present(xs));
    }
    assert InWorkloads(p).edges == InWorkloads(q).edges;
    assert InWorkloads(p).seeds == InWorkloads(q).seeds;
    B.RestartKeepsBaselines(c, t.baselines, xs, p.vectors.at, ys, q.vectors.at);
    SameLibrary(c, t.library, p.report, q.report);
  }

  lemma SameLibrary(c: MemoryConfig, lib: CL.Library, g: CG.Report, h: CG.Report)
    requires Promotion.SameIncident(g, h)
    ensures LibraryAfter(c, lib, g) == LibraryAfter(c, lib, h)
  {
    hide Promotion.IncidentOf, CL.Promote;
    Promotion.RestartKeepsIncident(c, g, h);
  }

  lemma {:induction false} RestartKeepsRun(c: MemoryConfig, t: Tables, ps: seq<Pass>, qs: seq<Pass>)
    requires |ps| == |qs|
    requires forall i :: 0 <= i < |ps| ==> ps[i].vectors.Valid() && qs[i].vectors.Valid() && SamePass(ps[i], qs[i])
    ensures RunTables(c, t, ps) == RunTables(c, t, qs)
  {
    hide Observed, SamePass;
    if ps == [] {
    } else {
      RestartKeepsRun(c, t, ps[..|ps| - 1], qs[..|qs| - 1]);
      RestartKeepsStep(c, RunTables(c, t, ps[..|ps| - 1]), ps[|ps| - 1], qs[|qs| - 1]);
    }
  }
}
