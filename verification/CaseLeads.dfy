/** The stored lead times: exact means under the service, not so for graphs made by hand. */
module CaseLeads {
  import opened Common
  import opened Config
  import opened CorrelationPass
  import opened Digraph
  import opened GraphMemory
  import BlastRadius
  import CG = CausalGraph
  import CL = CaseLibrary
  import LagCorrelation
  import PassLaws
  import Pipeline
  import Promotion
  import Ranking
  import Workload

  // Reports of passes.

  /** The report of some pass. */
  ghost predicate FromPass(report: CG.Report) {
    exists p, corr, d :: IsPass(p, corr, d, report)
  }

  lemma PassEdgesAreStrong(p: Inputs, corr: LagCorrelation.Corr, d: Detected, out: CG.Report)
    requires IsPass(p, corr, d, out)
    ensures forall e :: e in out.edges ==> 0.5 <= e.r <= 1.0 && e.src != e.dst
  {
    hide IsPass;
    forall e | e in out.edges
      ensures 0.5 <= e.r <= 1.0 && e.src != e.dst
    {
      PassLaws.EveryEdgeIsLawful(p, corr, d, out, e);
      StrengthOfLawful(d.scene, e);
    }
  }

  lemma StrengthOfLawful(s: Pipeline.Scene, e: Edge)
    requires PassLaws.Lawful(s, e)
    ensures 0.5 <= e.r <= 1.0 && e.src != e.dst
  {
  }

  /** Among strong edges every source of an edge has a strong arc to another node. */
  lemma StrongArc(es: seq<Edge>, root: string)
    requires forall e :: e in es ==> 0.5 <= e.r <= 1.0 && e.src != e.dst
    requires exists e :: e in es && e.src == root
    ensures root in GraphOf(es).adj
    ensures exists a :: a in GraphOf(es).adj[root] && a.dst != root && a.weight >= 0.5
  {
    hide GraphOf, LastEdge;
    var g := GraphOf(es);
    var e :| e in es && e.src == root;
    ArcIsLastEdge(es, root, e.dst);
    LastEdgeIsMember(es, root, e.dst);
    FindMeans(g.adj[root], e.dst);
  }

  /** A pass that names a root predicts a victim. */
  lemma RootHasVictim(p: Inputs, corr: LagCorrelation.Corr, d: Detected, out: CG.Report)
    requires IsPass(p, corr, d, out) && out.ranking != []
    ensures out.blast != []
  {
    PassEdgesAreStrong(p, corr, d, out);
    VerdictOfPass(p, corr, d, out);
    var g, root := GraphOf(out.edges), out.ranking[0].pod;
    hide IsPass, GraphOf, Ranking.RankingOf, BlastRadius.IsBlast;
    GraphOfIsValid(out.edges);
    Ranking.RankedPodHasEdge(out.edges, Seeds(p, d.active), d.scene.onset, Ranking.TOP, out.ranking[0]);
    StrongArc(out.edges, root);
    var a :| a in g.adj[root] && a.dst != root && a.weight >= 0.5;
    HalfCarries(a.weight);
    var paths :| BlastRadius.IsBlast(g, root, out.blast, paths);
    BlastRadius.DirectSuccessorIsHit(g, root, out.blast, paths, a);
  }

  lemma VerdictOfPass(p: Inputs, corr: LagCorrelation.Corr, d: Detected, out: CG.Report)
    requires IsPass(p, corr, d, out) && out.ranking != []
    ensures out.ranking == Ranking.RankingOf(GraphOf(out.edges), Seeds(p, d.active), d.scene.onset, Ranking.TOP)
    ensures exists paths :: BlastRadius.IsBlast(GraphOf(out.edges), out.ranking[0].pod, out.blast, paths)
  {
    hide IsDetected, Ranking.RankingOf, BlastRadius.IsBlast, GraphOf, FindingOf;
  }

  lemma HalfCarries(w: real)
    requires w >= 0.5
    ensures Carry(1.0, w) >= CUT
  {
  }

  /** So every incident a pass gives rise to has a known lead. */
  lemma PassLeadIsKnown(c: MemoryConfig, report: CG.Report)
    requires FromPass(report) && Promotion.IncidentOf(c, report).Some?
    ensures Promotion.IncidentOf(c, report).value.lead.Some?
  {
    hide IsPass;
    var p, corr, d :| IsPass(p, corr, d, report);
    RootHasVictim(p, corr, d, report);
  }

  // Runs of the memory over such reports.

  /** Every observation so far has a known lead, and every case is accounted for. */
  ghost predicate LeadsKnown(c: MemoryConfig, lib: CL.Library) {
    CL.LibraryOk(c, lib) && forall k :: 0 <= k < |lib.observations| ==> lib.observations[k].lead.Some?
  }

  lemma PassKeepsLeadsKnown(c: MemoryConfig, lib: CL.Library, report: CG.Report)
    requires CaseConfig(c) && LeadsKnown(c, lib) && FromPass(report)
    ensures LeadsKnown(c, LibraryAfter(c, lib, report))
  {
    hide FromPass, Promotion.IncidentOf, CL.Separated, CL.Accounted;
    match Promotion.IncidentOf(c, report)
    case None =>
    case Some(inc) =>
      PassLeadIsKnown(c, report);
      CL.NearestIsNearest(inc.key, lib.cases);
      CL.PromoteKeepsSeparated(c, lib, inc);
      CL.PromoteKeepsAccounted(c, lib, inc);
      ObservationAdded(c, lib, inc);
  }

  lemma ObservationAdded(c: MemoryConfig, lib: CL.Library, inc: CL.Incident)
    requires CL.NearestOk(inc.key, lib.cases)
    ensures exists id ::
              CL.Promote(c, lib, inc).library.observations == lib.observations + [CL.Observation(id, inc.lead)]
  {
    var id := CL.Promote(c, lib, inc).caseId;
    assert CL.Promote(c, lib, inc).library.observations == lib.observations + [CL.Observation(id, inc.lead)];
  }

  ghost predicate PassesOnly(ps: seq<Pass>) {
    forall i :: 0 <= i < |ps| ==> ps[i].vectors.Valid() && FromPass(ps[i].report)
  }

  lemma {:induction false} RunKeepsLeadsKnown(c: MemoryConfig, ps: seq<Pass>)
    requires CaseConfig(c) && PassesOnly(ps)
    ensures LeadsKnown(c, RunTables(c, EMPTY_TABLES, ps).library)
  {
    hide FromPass, LibraryAfter;
    if ps == [] {
    } else {
      RunKeepsLeadsKnown(c, ps[..|ps| - 1]);
      PassKeepsLeadsKnown(c, RunTables(c, EMPTY_TABLES, ps[..|ps| - 1]).library, ps[|ps| - 1].report);
    }
  }

  lemma {:induction false} LeadsOfKnown(obs: seq<CL.Observation>, id: CL.CaseKey)
    requires forall k :: 0 <= k < |obs| ==> obs[k].lead.Some?
    ensures CL.AllKnown(CL.LeadsOf(obs, id))
  {
    if obs == [] {
    } else {
      LeadsOfKnown(obs[..|obs| - 1], id);
    }
  }

  /** Over every run whose reports come from passes, each case's stored lead is exactly the mean of the
      leads of its observations, all of which are known. */
  lemma StoredLeadIsMean(c: MemoryConfig, ps: seq<Pass>, i: nat)
    requires CaseConfig(c) && PassesOnly(ps) && i < |RunTables(c, EMPTY_TABLES, ps).library.cases|
    ensures var lib := RunTables(c, EMPTY_TABLES, ps).library;
            var leads := CL.LeadsOf(lib.observations, lib.cases[i].id);
            leads != [] && CL.AllKnown(leads) && CL.IsMean(lib.cases[i].lead, leads)
  {
    hide RunTables, FromPass, CL.Separated, CL.IsMean, CL.LeadFold;
    RunKeepsLeadsKnown(c, ps);
    var lib := RunTables(c, EMPTY_TABLES, ps).library;
    assert CL.RowAccounted(lib.cases[i], lib.observations);
    LeadsOfKnown(lib.observations, lib.cases[i].id);
    CL.KnownLeadsAverage(CL.LeadsOf(lib.observations, lib.cases[i].id));
  }

  // Graphs made by hand.

  /** One source edge with the given lag, its source as root, and no predicted victim. */
  function Handmade(a: string, b: string, lag: nat): CG.Report {
    CG.Report([], [Edge(a, b, 1.0, lag, [SOURCE])], [Ranking.Verdict(a, 1.0, None)], [])
  }

  function HandmadeKey(c: MemoryConfig, a: string, b: string): CL.CaseKey {
    var u, v := Workload.StableWorkload(a), Workload.StableWorkload(b);
    CL.CaseKey(u, {v}, c.signal, None, multiset{(u, v)})
  }

  /** Its lead is its lag, unknown for lag 0. */
  lemma IncidentOfHandmade(c: MemoryConfig, a: string, b: string, lag: nat)
    requires Workload.StableWorkload(a) != Workload.StableWorkload(b)
    ensures Promotion.IncidentOf(c, Handmade(a, b, lag)) ==
            Some(CL.Incident(HandmadeKey(c, a, b), if lag > 0 then Some(lag as real) else None))
  {
    hide Workload.StableWorkload;
    var u, v := Workload.StableWorkload(a), Workload.StableWorkload(b);
    var e := Edge(u, v, 1.0, lag, [SOURCE]);
    var raw := Edge(a, b, 1.0, lag, [SOURCE]);
    assert CG.WorkloadEdges([raw]) == [e];
    assert [e][..0] == [] && [raw][..0] == [] && [SOURCE][..0] == [];
    assert e in [e] && SOURCE in e.evidence;
    assert Promotion.PhysicalTags([SOURCE]) == [];
    assert Promotion.AllTags([e]) == [];
    assert Promotion.MotifOf([e]) == multiset{(u, v)};
    assert Promotion.EdgeVictims([e], u) == {v};
    assert Promotion.BlastVictims([], u) == {};
    LeadOfHandmade(a, b, lag);
    var g := Handmade(a, b, lag);
    assert Promotion.HasSourceEdge(CG.WorkloadEdges(g.edges), u);
    assert Promotion.DominantWitness([e]) == None;
    assert Promotion.Victims(g, u) == {v};
    hide Promotion.LeadTime, Promotion.MotifOf, Promotion.DominantWitness, Promotion.Victims, Promotion.HasSourceEdge;
    assert Promotion.IncidentOf(c, g).Some?;
  }

  lemma LeadOfHandmade(a: string, b: string, lag: nat)
    ensures Promotion.LeadTime(Handmade(a, b, lag)) == if lag > 0 then Some(lag as real) else None
  {
    var raw := Edge(a, b, 1.0, lag, [SOURCE]);
    assert [raw][..0] == [] && [lag as int][..0] == [];
    assert Promotion.PositiveLags([raw]) == if lag > 0 then [lag as int] else [];
    assert Promotion.SumInt([lag as int]) == lag;
  }

  /** The library after the first such graph, and after one more of the same shape. */
  lemma FirstOfKind(c: MemoryConfig, inc: CL.Incident)
    requires CaseConfig(c)
    ensures CL.NearestOk(inc.key, [])
    ensures CL.Promote(c, CL.Library([], []), inc).library ==
            CL.Library([CL.CaseRow(inc.key, 1, inc.lead, inc.key)], [CL.Observation(inc.key, inc.lead)])
  {
  }

  lemma NextOfKind(c: MemoryConfig, row: CL.CaseRow, obs: seq<CL.Observation>, lead: Option<real>)
    requires CaseConfig(c)
    ensures CL.NearestOk(row.id, [row])
    ensures CL.Promote(c, CL.Library([row], obs), CL.Incident(row.id, lead)).library ==
            CL.Library([row.(occurrences := row.occurrences + 1, lead := CL.FoldLead(row.lead, row.occurrences, lead))],
                       obs + [CL.Observation(row.id, lead)])
  {
    hide CL.CaseSim, CL.FoldLead;
    CL.SimProperties(row.id, row.id);
    assert [row][..0] == [];
    assert CL.NearestCase(row.id, [row]) == CL.At(0, 1.0);
  }

  function Three(c: MemoryConfig, a: string, b: string): CL.Library {
    var first := LibraryAfter(c, CL.Library([], []), Handmade(a, b, 10));
    LibraryAfter(c, LibraryAfter(c, first, Handmade(a, b, 0)), Handmade(a, b, 40))
  }

  /** Three graphs made by hand, with leads 10, unknown and 40, are one case with a stored lead of 20, where
      the known leads average 25. */
  lemma HandmadeLeadIsSkewed(c: MemoryConfig, a: string, b: string)
    requires CaseConfig(c) && Workload.StableWorkload(a) != Workload.StableWorkload(b)
    ensures var lib, id := Three(c, a, b), HandmadeKey(c, a, b);
            && lib.cases == [CL.CaseRow(id, 3, Some(20.0), id)]
            && CL.LeadsOf(lib.observations, id) == [Some(10.0), None, Some(40.0)]
            && !CL.IsMean(lib.cases[0].lead, CL.LeadsOf(lib.observations, id))
  {
    hide Workload.StableWorkload, Promotion.IncidentOf, Handmade, HandmadeKey, CL.Promote, CL.LeadsOf, CL.IsMean;
    var id := HandmadeKey(c, a, b);
    IncidentOfHandmade(c, a, b, 10);
    IncidentOfHandmade(c, a, b, 0);
    IncidentOfHandmade(c, a, b, 40);
    FirstOfKind(c, CL.Incident(id, Some(10.0)));
    var o1, o2, o3 := CL.Observation(id, Some(10.0)), CL.Observation(id, None), CL.Observation(id, Some(40.0));
    NextOfKind(c, CL.CaseRow(id, 1, Some(10.0), id), [o1], None);
    NextOfKind(c, CL.CaseRow(id, 2, Some(10.0), id), [o1] + [o2], Some(40.0));
    assert CL.WeightedMean(10.0, 2.0, 40.0) == 20.0;
    ThreeLeads(id, o1, o2, o3);
    CL.UnknownLeadSkewsMean();
  }

  lemma ThreeLeads(id: CL.CaseKey, o1: CL.Observation, o2: CL.Observation, o3: CL.Observation)
    requires o1.caseId == o2.caseId == o3.caseId == id
    ensures CL.LeadsOf([o1] + [o2] + [o3], id) == [o1.lead, o2.lead, o3.lead]
  {
    var obs := [o1] + [o2] + [o3];
    assert obs[..|obs| - 1] == [o1, o2] && [o1, o2][..1] == [o1] && [o1][..0] == [];
    assert CL.LeadsOf([o1], id) == [o1.lead];
    assert CL.LeadsOf([o1, o2], id) == [o1.lead, o2.lead];
  }
}
