/** Pods restarted under new names: the service shows the same graph with the new names in it, whatever it has
    learned before and however often any pod was restarted since. */
module Restart {
  import opened Common
  import opened Config
  import opened Digraph
  import opened GraphMemory
  import opened Renaming
  import BlastRadius
  import CG = CausalGraph
  import EdgeTable
  import Promotion
  import Ranking
  import Workload

  /** New names for all pods at once: different pods stay different and keep their workload. Names that are not
      in use may be mapped in any such way. */
  ghost predicate IsRestart(f: Names) {
    Injective(f) && f("") == "" && forall x :: Workload.StableWorkload(f(x)) == Workload.StableWorkload(x)
  }

  /** One pod takes a new name of its workload, after any earlier restarts: such names for all pods exist. */
  lemma OneMoreRestart(f: Names, a: string, b: string)
    requires IsRestart(f) && a != "" && b != "" && Workload.StableWorkload(a) == Workload.StableWorkload(b)
    ensures IsRestart(x => if f(x) == a then b else if f(x) == b then a else f(x))
  {
    hide Workload.StableWorkload;
    assert forall x, y :: f(x) == f(y) ==> x == y;
  }

  function FindingNamed(f: Names): CG.Finding -> CG.Finding {
    (x: CG.Finding) => x.(pod := f(x.pod))
  }

  function LiveNamed(f: Names): LiveEdge -> LiveEdge {
    (l: LiveEdge) => l.(edge := EdgeNamed(f)(l.edge))
  }

  function HeldNamed(f: Names): HeldEdge -> HeldEdge {
    (h: HeldEdge) => h.(edge := EdgeNamed(f)(h.edge))
  }

  function ReportNamed(f: Names, r: CG.Report): CG.Report {
    CG.Report(Mapped(FindingNamed(f), r.findings), Mapped(EdgeNamed(f), r.edges),
              Mapped(VerdictNamed(f), r.ranking), Mapped(HitNamed(f), r.blast))
  }

  function RenderingNamed(f: Names, out: Rendering): Rendering {
    Rendering(Mapped(LiveNamed(f), out.live), Mapped(HeldNamed(f), out.held), ReportNamed(f, out.report))
  }

  function SharedNamed(f: Names, shared: set<set<string>>): set<set<string>> {
    set pair | pair in shared :: NamedSet(f, pair)
  }

  ghost function VectorsNamed(f: Names, d: Dict<seq<real>>): Dict<seq<real>>
    requires Injective(f) && d.Valid()
  {
    Dict(Mapped(f, d.keys), map k | k in d.at :: f(k) := d.at[k])
  }

  /** The same pass over the renamed pods. */
  ghost function Restarted(f: Names, p: Pass): Pass
    requires IsRestart(f) && p.vectors.Valid()
  {
    Pass(ReportNamed(f, p.report), VectorsNamed(f, p.vectors),
         if p.shared.Some? then Some(SharedNamed(f, p.shared.value)) else None, p.ts)
  }

  // The tables.

  lemma VectorsStayValid(f: Names, d: Dict<seq<real>>)
    requires Injective(f) && d.Valid()
    ensures VectorsNamed(f, d).Valid()
    ensures forall i :: 0 <= i < |d.keys| ==>
              f(d.keys[i]) in VectorsNamed(f, d).at && VectorsNamed(f, d).at[f(d.keys[i])] == d.at[d.keys[i]]
  {
    var e := VectorsNamed(f, d);
    forall m | m in e.keys
      ensures m in e.at
    {
      var i :| 0 <= i < |d.keys| && e.keys[i] == m;
      assert d.keys[i] in d.at;
    }
    forall m | m in e.at
      ensures m in e.keys
    {
      var k :| k in d.at && f(k) == m;
      var i :| 0 <= i < |d.keys| && d.keys[i] == k;
      assert e.keys[i] == m;
    }
  }

  lemma WorkloadEdgesStay(f: Names, es: seq<Edge>)
    requires IsRestart(f)
    ensures CG.WorkloadEdges(Mapped(EdgeNamed(f), es)) == CG.WorkloadEdges(es)
  {
    hide Workload.StableWorkload;
  }

  lemma ImagesStay(f: Names, shared: set<set<string>>)
    requires IsRestart(f)
    ensures Images(SharedNamed(f, shared)) == Images(shared)
  {
    hide Workload.StableWorkload;
    forall pair: set<string>
      ensures EdgeTable.Image(NamedSet(f, pair)) == EdgeTable.Image(pair)
    {
      ImageStays(f, pair);
    }
  }

  lemma ImageStays(f: Names, pair: set<string>)
    requires IsRestart(f)
    ensures EdgeTable.Image(NamedSet(f, pair)) == EdgeTable.Image(pair)
  {
    hide Workload.StableWorkload;
    forall w | w in EdgeTable.Image(pair)
      ensures w in EdgeTable.Image(NamedSet(f, pair))
    {
      var x :| x in pair && Workload.StableWorkload(x) == w;
      assert f(x) in NamedSet(f, pair);
    }
  }

  lemma SameIncidentRenamed(f: Names, r: CG.Report)
    requires IsRestart(f)
    ensures Promotion.SameIncident(r, ReportNamed(f, r))
  {
    hide Workload.StableWorkload;
    WorkloadEdgesStay(f, r.edges);
  }

  lemma RestartedIsSame(f: Names, p: Pass)
    requires IsRestart(f) && p.vectors.Valid()
    ensures Restarted(f, p).vectors.Valid() && SamePass(p, Restarted(f, p))
  {
    hide Workload.StableWorkload, Promotion.SameIncident, ReportNamed, Images, SharedNamed;
    SameIncidentRenamed(f, p.report);
    VectorsStayValid(f, p.vectors);
    if p.shared.Some? {
      ImagesStay(f, p.shared.value);
    }
  }

  // The rendering.

  lemma {:induction false} PodForRenamed(f: Names, pods: seq<string>)
    requires IsRestart(f)
    ensures PodFor(Mapped(f, pods)).Keys == PodFor(pods).Keys
    ensures forall w :: w in PodFor(pods) ==> PodFor(Mapped(f, pods))[w] == f(PodFor(pods)[w])
  {
    hide Workload.StableWorkload;
    if pods == [] {
    } else {
      var front := pods[..|pods| - 1];
      PodForRenamed(f, front);
      assert Mapped(f, pods)[..|pods| - 1] == Mapped(f, front);
    }
  }

  lemma LiveRenamed(f: Names, t: EdgeTable.Table, es: seq<Edge>)
    requires IsRestart(f)
    ensures LiveEdges(t, Mapped(EdgeNamed(f), es)) == Mapped(LiveNamed(f), LiveEdges(t, es))
  {
    hide Workload.StableWorkload, Lookup;
  }

  lemma HeldEdgeRenamed(f: Names, t: EdgeTable.Table, live: set<set<string>>, podFor: map<string, string>,
                        podFor2: map<string, string>, held: seq<HeldEdge>, keys: seq<EdgeTable.Key>, i: nat)
    requires HeldOk(t, live, podFor, held, keys) && podFor2.Keys == podFor.Keys && i < |keys|
    requires forall w :: w in podFor ==> podFor2[w] == f(podFor[w])
    ensures keys[i] in t && keys[i].0 in podFor2 && keys[i].1 in podFor2 && i < |held|
    ensures HeldNamed(f)(held[i]) == HeldEdgeOf(t, podFor2, keys[i])
  {
    hide Eligible, PairOf;
    var k := keys[i];
    assert Strongest(t, live, k) && held[i] == HeldEdgeOf(t, podFor, k);
    assert podFor2[k.0] == f(podFor[k.0]) && podFor2[k.1] == f(podFor[k.1]);
    hide Strongest;
    var e := held[i].edge;
    assert e == Edge(podFor[k.0], podFor[k.1], t[k].r, t[k].lag, t[k].evidence);
    assert EdgeNamed(f)(e) == Edge(podFor2[k.0], podFor2[k.1], t[k].r, t[k].lag, t[k].evidence);
  }

  lemma HeldRenamed(f: Names, t: EdgeTable.Table, live: set<set<string>>, podFor: map<string, string>,
                    podFor2: map<string, string>, held: seq<HeldEdge>)
    requires AreHeld(t, live, podFor, held) && podFor2.Keys == podFor.Keys
    requires forall w :: w in podFor ==> podFor2[w] == f(podFor[w])
    ensures AreHeld(t, live, podFor2, Mapped(HeldNamed(f), held))
  {
    hide Strongest, Eligible, PairOf, HeldEdgeOf;
    var keys: seq<EdgeTable.Key> :| HeldOk(t, live, podFor, held, keys);
    forall i | 0 <= i < |keys|
      ensures keys[i] in t && keys[i].0 in podFor2 && keys[i].1 in podFor2
      ensures Mapped(HeldNamed(f), held)[i] == HeldEdgeOf(t, podFor2, keys[i])
    {
      HeldEdgeRenamed(f, t, live, podFor, podFor2, held, keys, i);
    }
    assert HeldOk(t, live, podFor2, Mapped(HeldNamed(f), held), keys);
  }

  lemma {:induction false} OnsetsOfRenamed(f: Names, fs: seq<CG.Finding>)
    requires Injective(f)
    ensures OnsetsRenamed(f, CG.OnsetsOf(fs), CG.OnsetsOf(Mapped(FindingNamed(f), fs)))
  {
    if fs == [] {
    } else {
      var front := fs[..|fs| - 1];
      OnsetsOfRenamed(f, front);
      assert Mapped(FindingNamed(f), fs)[..|fs| - 1] == Mapped(FindingNamed(f), front);
    }
  }

  lemma VerdictRenamed(f: Names, findings: seq<CG.Finding>, es: seq<Edge>)
    requires Injective(f)
    ensures Renames(f, GraphOf(es), GraphOf(Mapped(EdgeNamed(f), es)))
    ensures var fs := Mapped(FindingNamed(f), findings);
            Ranking.RankingOf(GraphOf(Mapped(EdgeNamed(f), es)), CG.PodsOf(fs), CG.OnsetsOf(fs), Ranking.TOP) ==
            Mapped(VerdictNamed(f),
                   Ranking.RankingOf(GraphOf(es), CG.PodsOf(findings), CG.OnsetsOf(findings), Ranking.TOP))
  {
    hide Ranking.RankingOf, GraphOf, OnsetsRenamed, Renames, CG.OnsetsOf;
    var fs := Mapped(FindingNamed(f), findings);
    GraphOfRenamed(f, es);
    OnsetsOfRenamed(f, findings);
    assert CG.PodsOf(fs) == Mapped(f, CG.PodsOf(findings));
    RankingRenamed(f, GraphOf(es), GraphOf(Mapped(EdgeNamed(f), es)), CG.PodsOf(findings), CG.OnsetsOf(findings),
                   CG.OnsetsOf(fs), Ranking.TOP);
  }

  /** The recomputed verdict of renamed edges and findings is the renamed verdict. */
  lemma JudgedRenamed(f: Names, report: CG.Report, out: CG.Report)
    requires Injective(f) && Judged(report, out)
    ensures Judged(ReportNamed(f, report), ReportNamed(f, out))
  {
    hide Ranking.RankingOf, BlastRadius.IsBlast, GraphOf, Renames, CG.OnsetsOf, CG.PodsOf, Injective;
    if report.findings != [] && out.edges != [] {
      VerdictRenamed(f, report.findings, out.edges);
      if out.ranking != [] {
        var g, h := GraphOf(out.edges), GraphOf(Mapped(EdgeNamed(f), out.edges));
        var paths :| BlastRadius.IsBlast(g, out.ranking[0].pod, out.blast, paths);
        BlastRenamed(f, g, h, out.ranking[0].pod, out.blast, paths);
      }
    }
  }

  /** Over the same tables the renamed report is rendered as the report was, renamed: the same live and held edges
      with the same rows, the same ranking, the same blast radius. */
  lemma RenderingRenamed(f: Names, t: EdgeTable.Table, report: CG.Report, pods: seq<string>, out: Rendering)
    requires IsRestart(f) && IsRendering(t, report, pods, out)
    ensures IsRendering(t, ReportNamed(f, report), Mapped(f, pods), RenderingNamed(f, out))
  {
    hide Workload.StableWorkload, Judged, AreHeld, LivePairs, PodFor;
    LiveRenamed(f, t, report.edges);
    WorkloadEdgesStay(f, report.edges);
    PodForRenamed(f, pods);
    HeldRenamed(f, t, LivePairs(CG.WorkloadEdges(report.edges)), PodFor(pods), PodFor(Mapped(f, pods)), out.held);
    JudgedRenamed(f, report, out.report);
    assert Mapped(EdgeNamed(f), report.edges + HeldEdges(out.held)) ==
           Mapped(EdgeNamed(f), report.edges) + HeldEdges(Mapped(HeldNamed(f), out.held));
  }

  // Whole runs.

  ghost predicate AreRestarts(fs: seq<Names>, ps: seq<Pass>) {
    |fs| == |ps| && forall i :: 0 <= i < |ps| ==> IsRestart(fs[i]) && ps[i].vectors.Valid()
  }

  /** A run in which every pass may have other names than the one before. */
  ghost function RestartedRun(fs: seq<Names>, ps: seq<Pass>): (qs: seq<Pass>)
    requires AreRestarts(fs, ps)
    ensures |qs| == |ps| && forall i :: 0 <= i < |ps| ==> qs[i] == Restarted(fs[i], ps[i])
  {
    seq(|ps|, i requires 0 <= i < |ps| => Restarted(fs[i], ps[i]))
  }

  /** Restart any pods between any two passes of a run: the tables are identical, and what is rendered in the end is
      what would have been rendered without the restarts, under the names of the last pass. */
  lemma RestartsOnlyRename(c: MemoryConfig, t: Tables, ps: seq<Pass>, fs: seq<Names>, out: Rendering)
    requires AreRestarts(fs, ps) && ps != []
    requires IsRendering(RunTables(c, t, ps).edges, ps[|ps| - 1].report, ps[|ps| - 1].vectors.keys, out)
    ensures var qs, f := RestartedRun(fs, ps), fs[|fs| - 1];
            && (forall i :: 0 <= i < |qs| ==> qs[i].vectors.Valid())
            && RunTables(c, t, qs) == RunTables(c, t, ps)
            && IsRendering(RunTables(c, t, qs).edges, qs[|qs| - 1].report, qs[|qs| - 1].vectors.keys,
                           RenderingNamed(f, out))
  {
    hide IsRestart, SamePass, Restarted, RunTables, IsRendering;
    var qs, n := RestartedRun(fs, ps), |ps| - 1;
    forall i | 0 <= i < |ps|
      ensures qs[i].vectors.Valid() && SamePass(ps[i], qs[i])
    {
      RestartedIsSame(fs[i], ps[i]);
    }
    RestartKeepsRun(c, t, ps, qs);
    RenderingRenamed(fs[n], RunTables(c, t, ps).edges, ps[n].report, ps[n].vectors.keys, out);
    RestartedParts(fs[n], ps[n]);
  }

  lemma RestartedParts(f: Names, p: Pass)
    requires IsRestart(f) && p.vectors.Valid()
    ensures Restarted(f, p).report == ReportNamed(f, p.report)
    ensures Restarted(f, p).vectors.keys == Mapped(f, p.vectors.keys)
  {
  }
}
