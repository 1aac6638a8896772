/** Under the service a row's floor never exceeds its confidence, whatever the prior. */
module SeedSafety {
  import opened Common
  import opened Config
  import opened CorrelationPass
  import opened Digraph
  import opened EdgeTable
  import opened GraphMemory
  import CG = CausalGraph
  import EM = EdgeMemory
  import Gate
  import LagCorrelation
  import Ordering
  import PassLaws
  import Pipeline
  import Workload

  /** A pass on a disk signal: its only witness is which of the pods with vectors share a disk. */
  ghost predicate DiskPass(x: Pass) {
    exists p, corr, d :: IsPass(p, corr, d, x.report) && Witnessed(x, p)
  }

  ghost predicate Witnessed(x: Pass, p: Inputs) {
    && x.vectors == p.vectors && x.shared == Some(p.physical.shared)
    && p.physical.ebpf == {} && p.physical.sameNode == {}
    && forall pair :: pair in p.physical.shared ==> forall q :: q in pair ==> q in p.vectors.keys
  }

  /** A pass on any other signal: no disk is witnessed. */
  ghost predicate DisklessPass(x: Pass) {
    x.shared == None || x.shared == Some({})
  }

  ghost predicate AllValid(xs: seq<Pass>) {
    forall i :: 0 <= i < |xs| ==> xs[i].vectors.Valid()
  }

  /** Every edge of a disk pass joins pods of a shared disk, both of them running. */
  lemma DiskEdgeIsShared(p: Inputs, corr: LagCorrelation.Corr, d: Detected, x: Pass, e: Edge)
    requires IsPass(p, corr, d, x.report) && Witnessed(x, p) && e in x.report.edges
    ensures {e.src, e.dst} in p.physical.shared && e.src in x.vectors.keys && e.dst in x.vectors.keys
  {
    PassLaws.EveryEdgeIsLawful(p, corr, d, x.report, e);
    PhysicalOf(p, corr, d, x.report);
    hide IsPass, Gate.Couples, Gate.CouplesSource, Gate.Ordered, Pipeline.Activity, Pipeline.IsSource;
    Gate.CouplesMeans(p.physical, e.src, e.dst);
  }

  lemma PhysicalOf(p: Inputs, corr: LagCorrelation.Corr, d: Detected, out: CG.Report)
    requires IsPass(p, corr, d, out)
    ensures d.scene.physical == p.physical
  {
    hide IsReport;
  }

  /** So a confirmed pair of workloads, in name order, is seeded in the same pass. */
  lemma ConfirmedIsSeeded(x: Pass, k: Key)
    requires DiskPass(x) && k.0 != k.1 && Ordering.StringLe(k.0, k.1)
    ensures TouchOf(InWorkloads(x), k).confirms != [] ==> TouchOf(InWorkloads(x), k).seeded
  {
    hide IsPass, Workload.StableWorkload, Ordering.StringLe;
    var p, corr, d :| IsPass(p, corr, d, x.report) && Witnessed(x, p);
    var es := CG.WorkloadEdges(x.report.edges);
    forall e | e in ConfirmsOf(es, k)
      ensures k in InWorkloads(x).seeds
    {
      ConfirmsOfMember(es, k, e);
      var i :| 0 <= i < |es| && es[i] == e;
      var raw := x.report.edges[i];
      assert raw in x.report.edges;
      DiskEdgeIsShared(p, corr, d, x, raw);
      SharedPairIsSeeded(p.physical.shared, x.vectors.keys, raw.src, raw.dst, k);
    }
    if TouchOf(InWorkloads(x), k).confirms != [] {
      assert ConfirmsOf(es, k)[0] in ConfirmsOf(es, k);
    }
  }

  lemma {:induction false} ConfirmsOfMember(es: seq<Edge>, k: Key, e: Edge)
    requires e in ConfirmsOf(es, k)
    ensures e in es && KeyOf(e) == k
  {
    if KeyOf(es[|es| - 1]) == k && e == es[|es| - 1] {
    } else {
      ConfirmsOfMember(es[..|es| - 1], k, e);
    }
  }

  lemma SharedPairIsSeeded(shared: set<set<string>>, pods: seq<string>, a: string, b: string, k: Key)
    requires {a, b} in shared && a in pods && b in pods
    requires k == (Workload.StableWorkload(a), Workload.StableWorkload(b)) && k.0 != k.1 && Ordering.StringLe(k.0, k.1)
    ensures k in SeedKeys(shared, Present(pods))
  {
    hide Workload.StableWorkload, Ordering.StringLe;
    assert Image({a, b}) == {k.0, k.1};
    assert StandsFor({a, b}, k.0, k.1);
    assert k.0 in Present(pods) && k.1 in Present(pods) by {
      assert a in (set q | q in pods) && b in (set q | q in pods);
    }
  }

  /** A key out of name order, or of one workload, is never seeded. */
  lemma SeedsAreInOrder(x: Pass, k: Key)
    ensures k in InWorkloads(x).seeds ==> k.0 != k.1 && Ordering.StringLe(k.0, k.1)
    ensures DisklessPass(x) ==> k !in InWorkloads(x).seeds
  {
  }

  function AllInWorkloads(xs: seq<Pass>): (ws: seq<WorkloadPass>)
    ensures |ws| == |xs| && forall i :: 0 <= i < |xs| ==> ws[i] == InWorkloads(xs[i])
  {
    seq(|xs|, i requires 0 <= i < |xs| => InWorkloads(xs[i]))
  }

  lemma {:induction false} EdgesOfRun(c: MemoryConfig, xs: seq<Pass>)
    requires AllValid(xs)
    ensures RunTables(c, EMPTY_TABLES, xs).edges == RunTable(c, map[], AllInWorkloads(xs))
  {
    hide After, InWorkloads;
    if xs == [] {
    } else {
      var n := |xs| - 1;
      EdgesOfRun(c, xs[..n]);
      assert AllInWorkloads(xs)[..n] == AllInWorkloads(xs[..n]);
    }
  }

  /** In every run of disk passes, or of passes without a disk witness, every row keeps its floor at or
      below its confidence, for every prior. */
  lemma FloorsHoldInService(c: MemoryConfig, xs: seq<Pass>, k: Key)
    requires EdgeRanges(c) && AllValid(xs)
    requires (forall i :: 0 <= i < |xs| ==> DiskPass(xs[i])) || (forall i :: 0 <= i < |xs| ==> DisklessPass(xs[i]))
    requires k in RunTables(c, EMPTY_TABLES, xs).edges
    ensures EM.InOrder(0.0, RunTables(c, EMPTY_TABLES, xs).edges[k])
  {
    hide DiskPass, Workload.StableWorkload, Ordering.StringLe, EM.Run, RunTable, RunTables, InWorkloads;
    EdgesOfRun(c, xs);
    var ws := AllInWorkloads(xs);
    var ts := Touches(ws, k);
    RunIsRunOnEveryRow(c, map[], ws, k);
    if (forall i :: 0 <= i < |xs| ==> DiskPass(xs[i])) && k.0 != k.1 && Ordering.StringLe(k.0, k.1) {
      forall i | 0 <= i < |ts| && ts[i].confirms != []
        ensures ts[i].seeded
      {
        ConfirmedIsSeeded(xs[i], k);
      }
      EM.SeededRunIsSafe(c, ts);
    } else {
      forall i | 0 <= i < |ts|
        ensures !ts[i].seeded
      {
        SeedsAreInOrder(xs[i], k);
      }
      EM.UnseededRunIsSafe(c, ts);
    }
  }

  /** In every run of passes, of any kind and for every prior, what is visible is believed at the hide level or
      above. */
  lemma VisibleRowsAreConfident(c: MemoryConfig, xs: seq<Pass>, k: Key)
    requires EdgeRanges(c) && AllValid(xs) && k in RunTables(c, EMPTY_TABLES, xs).edges
    ensures EM.ShownIsHeld(c, RunTables(c, EMPTY_TABLES, xs).edges[k])
  {
    hide EM.Run, RunTable, RunTables, InWorkloads;
    EdgesOfRun(c, xs);
    RunIsRunOnEveryRow(c, map[], AllInWorkloads(xs), k);
    EM.VisibleIsConfident(c, Touches(AllInWorkloads(xs), k));
  }

  lemma TouchesOfPrefix(xs: seq<Pass>, k: Key, n: nat)
    requires n <= |xs|
    ensures Touches(AllInWorkloads(xs), k)[..n] == Touches(AllInWorkloads(xs[..n]), k)
  {
    hide InWorkloads, TouchOf;
  }

  /** And every visible row was believed at `show` or above after some pass of the run. */
  lemma VisibleRowsReachedShow(c: MemoryConfig, xs: seq<Pass>, k: Key)
    requires EdgeRanges(c) && AllValid(xs) && k in RunTables(c, EMPTY_TABLES, xs).edges
    requires RunTables(c, EMPTY_TABLES, xs).edges[k].visible
    ensures exists n: nat :: n <= |xs| && AllValid(xs[..n]) && k in RunTables(c, EMPTY_TABLES, xs[..n]).edges
                             && RunTables(c, EMPTY_TABLES, xs[..n]).edges[k].confidence >= c.show
  {
    hide EM.Run, RunTable, RunTables, InWorkloads;
    var ts := Touches(AllInWorkloads(xs), k);
    RowOfRun(c, xs, k);
    EM.VisibleReachedShow(c, ts);
    var n :| 0 <= n <= |ts| && EM.Run(c, None, ts[..n]).Some? && EM.Run(c, None, ts[..n]).value.confidence >= c.show;
    TouchesOfPrefix(xs, k, n);
    RowOfRun(c, xs[..n], k);
  }

  lemma RowOfRun(c: MemoryConfig, xs: seq<Pass>, k: Key)
    requires AllValid(xs)
    ensures Lookup(RunTables(c, EMPTY_TABLES, xs).edges, k) == EM.Run(c, None, Touches(AllInWorkloads(xs), k))
  {
    hide EM.Run, RunTable, RunTables, InWorkloads;
    EdgesOfRun(c, xs);
    RunIsRunOnEveryRow(c, map[], AllInWorkloads(xs), k);
  }
}
