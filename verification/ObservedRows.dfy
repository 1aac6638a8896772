/** What one observe does to a row of the edge table, and what a rendering then shows, in terms of the pods, the edges
    and the shared disks of the pass. */
module ObservedRows {
  import opened Common
  import opened Config
  import opened Digraph
  import opened EdgeTable
  import opened GraphMemory
  import CG = CausalGraph
  import EM = EdgeMemory
  import Ordering
  import Workload

  ghost predicate Running(p: Pass, w: string) {
    exists q :: q in p.vectors.keys && Workload.StableWorkload(q) == w
  }

  /** The edge runs from a pod of the first workload to a pod of the second. */
  predicate RunsFrom(e: Edge, k: Key) {
    Workload.StableWorkload(e.src) == k.0 && Workload.StableWorkload(e.dst) == k.1
  }

  /** The edge joins pods of the two workloads, in either direction. */
  predicate JoinsPair(e: Edge, k: Key) {
    {Workload.StableWorkload(e.src), Workload.StableWorkload(e.dst)} == {k.0, k.1}
  }

  /** Some pods that share a disk are of exactly these two workloads. */
  ghost predicate SharesDisk(p: Pass, k: Key) {
    p.shared.Some? && exists pair :: pair in p.shared.value && Image(pair) == {k.0, k.1}
  }

  /** Which edges of the pass run from k.0 to k.1. */
  ghost function Sightings(es: seq<Edge>, k: Key): set<nat> {
    set i: nat | i < |es| && RunsFrom(es[i], k)
  }

  ghost predicate IsLastSighting(es: seq<Edge>, k: Key, i: nat) {
    i in Sightings(es, k) && forall j :: j in Sightings(es, k) ==> j <= i
  }

  lemma SightingsOfMore(es: seq<Edge>, k: Key)
    requires es != []
    ensures var n := |es| - 1;
            && n !in Sightings(es[..n], k)
            && Sightings(es, k) == Sightings(es[..n], k) + if RunsFrom(es[n], k) then {n} else {}
  {
    hide RunsFrom;
  }

  lemma ConfirmsOfMore(es: seq<Edge>, k: Key)
    requires es != []
    ensures var n := |es| - 1;
            ConfirmsOf(CG.WorkloadEdges(es), k) ==
            ConfirmsOf(CG.WorkloadEdges(es[..n]), k)
            + if RunsFrom(es[n], k) then [es[n].(src := k.0, dst := k.1)] else []
  {
    hide Workload.StableWorkload;
    assert CG.WorkloadEdges(es)[..|es| - 1] == CG.WorkloadEdges(es[..|es| - 1]);
  }

  lemma {:induction false} ConfirmsOfMeans(es: seq<Edge>, k: Key)
    ensures |ConfirmsOf(CG.WorkloadEdges(es), k)| == |Sightings(es, k)|
    ensures forall i: nat :: IsLastSighting(es, k, i) ==>
              var cs := ConfirmsOf(CG.WorkloadEdges(es), k);
              cs != [] && cs[|cs| - 1] == es[i].(src := k.0, dst := k.1)
  {
    hide Workload.StableWorkload, RunsFrom, ConfirmsOf, CG.WorkloadEdges;
    if es == [] {
      NothingSeen(k);
    } else {
      var n := |es| - 1;
      ConfirmsOfMeans(es[..n], k);
      SightingsOfMore(es, k);
      ConfirmsOfMore(es, k);
      hide Sightings;
      forall i: nat | IsLastSighting(es, k, i) && !RunsFrom(es[n], k)
        ensures IsLastSighting(es[..n], k, i)
      {
      }
      forall i: nat | IsLastSighting(es, k, i) && RunsFrom(es[n], k)
        ensures i == n
      {
        SightingsInside(es, k);
      }
      SightingsInside(es[..n], k);
    }
  }

  lemma NothingSeen(k: Key)
    ensures ConfirmsOf(CG.WorkloadEdges([]), k) == [] && Sightings([], k) == {}
  {
  }

  lemma SightingsInside(es: seq<Edge>, k: Key)
    ensures forall i :: i in Sightings(es, k) ==> 0 <= i < |es|
  {
  }

  lemma TouchMeans(p: Pass, k: Key)
    ensures var t := TouchOf(InWorkloads(p), k);
            && t.ts == p.ts && (t.present <==> Running(p, k.0) && Running(p, k.1))
            && (t.seeded <==> t.present && SharesDisk(p, k) && k.0 != k.1 && Ordering.StringLe(k.0, k.1))
            && |t.confirms| == |Sightings(p.report.edges, k)|
            && forall i: nat :: IsLastSighting(p.report.edges, k, i) ==>
                 && t.confirms != []
                 && t.confirms[|t.confirms| - 1] == p.report.edges[i].(src := k.0, dst := k.1)
  {
    ConfirmsOfMeans(p.report.edges, k);
    hide Workload.StableWorkload, Ordering.StringLe, ConfirmsOf, Sightings, IsLastSighting;
    PresentMeans(p, k.0);
    PresentMeans(p, k.1);
    if p.shared.Some? {
      SeedKeysMean(p.shared.value, Present(p.vectors.keys), k);
    }
  }

  lemma PresentMeans(p: Pass, w: string)
    ensures w in Present(p.vectors.keys) <==> Running(p, w)
  {
    hide Workload.StableWorkload;
    if Running(p, w) {
      var q :| q in p.vectors.keys && Workload.StableWorkload(q) == w;
      assert q in set x | x in p.vectors.keys;
    }
  }

  lemma SeedKeysMean(shared: set<set<string>>, present: set<string>, k: Key)
    ensures k in SeedKeys(shared, present) <==>
            && k.0 in present && k.1 in present && k.0 != k.1 && Ordering.StringLe(k.0, k.1)
            && exists pair :: pair in shared && Image(pair) == {k.0, k.1}
  {
    hide Workload.StableWorkload, Ordering.StringLe;
    if exists pair :: pair in shared && Image(pair) == {k.0, k.1} {
      var pair :| pair in shared && Image(pair) == {k.0, k.1};
      assert Image(pair) == {k.0, k.1};
    }
  }

  /** The row of a pair of workloads after an observe is its step under what the pass meant for it. */
  lemma ObservedRow(c: MemoryConfig, t: Tables, p: Pass, k: Key)
    requires p.vectors.Valid()
    ensures Lookup(Observed(c, t, p).edges, k) == EM.Step(c, Lookup(t.edges, k), TouchOf(InWorkloads(p), k))
  {
    hide After, EM.Step, InWorkloads;
    PassIsStepOnEveryRow(c, t.edges, InWorkloads(p), k);
  }

  /** An edge of a pass is filed from the workload of its source to that of its target: there is a row with what the
      last such edge says, and with as many hits more as there were such edges. It is shown if it was shown before or
      is now believed enough. */
  lemma SeenEdgeIsFiled(c: MemoryConfig, t: Tables, p: Pass, k: Key, i: nat)
    requires p.vectors.Valid() && EdgeRanges(c) && IsLastSighting(p.report.edges, k, i)
    requires k in t.edges ==> 0.0 <= t.edges[k].confidence <= 1.0
    ensures var after, e := Observed(c, t, p).edges, p.report.edges[i];
            && k == (Workload.StableWorkload(e.src), Workload.StableWorkload(e.dst)) && k in after
            && after[k].r == e.r && after[k].lag == e.lag && after[k].evidence == e.evidence
            && after[k].lastSeen == p.ts
            && after[k].hits == (if k in t.edges then t.edges[k].hits else 0) + |Sightings(p.report.edges, k)|
            && (after[k].visible <==> (k in t.edges && t.edges[k].visible) || after[k].confidence >= c.show)
  {
    var touch := TouchOf(InWorkloads(p), k);
    TouchMeans(p, k);
    ObservedRow(c, t, p, k);
    hide EM.Step, TouchOf, InWorkloads, Observed, Workload.StableWorkload;
    EM.ConfirmingPass(c, Lookup(t.edges, k), touch);
  }

  lemma UnseenTouch(p: Pass, k: Key)
    requires Sightings(p.report.edges, k) == {}
    ensures var touch := TouchOf(InWorkloads(p), k);
            && touch.confirms == [] && (touch.present <==> Running(p, k.0) && Running(p, k.1))
            && (touch.seeded <==> touch.present && DiskPair(p, k))
  {
    TouchMeans(p, k);
  }

  /** The pair shares a disk, and k names it in name order. */
  ghost predicate DiskPair(p: Pass, k: Key) {
    SharesDisk(p, k) && k.0 != k.1 && Ordering.StringLe(k.0, k.1)
  }

  /** A pair that no edge of the pass runs over is not touched while one of its workloads is gone. */
  lemma AbsentPairIsUntouched(c: MemoryConfig, t: Tables, p: Pass, k: Key)
    requires p.vectors.Valid() && Sightings(p.report.edges, k) == {} && !(Running(p, k.0) && Running(p, k.1))
    ensures Lookup(Observed(c, t, p).edges, k) == Lookup(t.edges, k)
  {
    UnseenTouch(p, k);
    ObservedRow(c, t, p, k);
    hide *;
    EM.AbsentPass(c, Lookup(t.edges, k), TouchOf(InWorkloads(p), k));
  }

  /** While both run, its row loses its part of the confidence, down to its floor, and is hidden exactly if that leaves
      too little; a shared disk lifts the floor to the prior, and opens a row in name order where there is none. */
  lemma UnseenPairDecays(c: MemoryConfig, t: Tables, p: Pass, k: Key)
    requires p.vectors.Valid() && Sightings(p.report.edges, k) == {} && Running(p, k.0) && Running(p, k.1)
    ensures k in Observed(c, t, p).edges <==> k in t.edges || DiskPair(p, k)
    ensures k in t.edges ==> Decayed(c, t.edges[k], Observed(c, t, p).edges[k], DiskPair(p, k))
    ensures k !in t.edges && DiskPair(p, k) ==>
              var row := Observed(c, t, p).edges[k];
              row.base == c.prior && !row.visible && row.hits == 0 && row.r == 0.0
  {
    UnseenTouch(p, k);
    ObservedRow(c, t, p, k);
    var touch := TouchOf(InWorkloads(p), k);
    hide TouchOf, InWorkloads, Observed, DiskPair, Running, Sightings, EM.Step, Decayed;
    QuietRow(c, Lookup(t.edges, k), touch);
  }

  lemma QuietRow(c: MemoryConfig, row: Option<EM.Row>, touch: EM.Touch)
    requires touch.confirms == [] && touch.present
    ensures var out := EM.Step(c, row, touch);
            && (out.Some? <==> row.Some? || touch.seeded)
            && (row.Some? ==> Decayed(c, row.value, out.value, touch.seeded))
            && (row.None? && touch.seeded ==>
                  out.value.base == c.prior && !out.value.visible && out.value.hits == 0 && out.value.r == 0.0)
  {
    hide EM.Step;
    EM.QuietPass(c, row, touch);
  }

  /** What a pass leaves of a row it did not see. */
  predicate Decayed(c: MemoryConfig, was: EM.Row, row: EM.Row, disk: bool) {
    && row.base == (if disk then Max(was.base, c.prior) else was.base)
    && row.confidence == Max(row.base, was.confidence * (1.0 - c.decay))
    && (row.visible <==> was.visible && row.confidence >= c.hide_)
    && row.r == was.r && row.lag == was.lag && row.evidence == was.evidence && row.hits == was.hits
  }

  // What is rendered.

  /** Of the pods of a workload the last one. */
  ghost predicate StandsIn(pods: seq<string>, w: string, q: string) {
    exists i :: 0 <= i < |pods| && pods[i] == q && Workload.StableWorkload(q) == w
                && forall j :: i < j < |pods| ==> Workload.StableWorkload(pods[j]) != w
  }

  lemma {:induction false} PodForIsLast(pods: seq<string>, w: string)
    ensures w in PodFor(pods) <==> exists q :: q in pods && Workload.StableWorkload(q) == w
    ensures w in PodFor(pods) ==> StandsIn(pods, w, PodFor(pods)[w])
  {
    hide Workload.StableWorkload;
    if pods == [] {
    } else {
      var front, last := pods[..|pods| - 1], pods[|pods| - 1];
      assert pods == front + [last];
      PodForIsLast(front, w);
      if Workload.StableWorkload(last) != w && w in PodFor(front) {
        var i :| 0 <= i < |front| && front[i] == PodFor(front)[w]
          && forall j :: i < j < |front| ==> Workload.StableWorkload(front[j]) != w;
        assert pods[i] == front[i];
      }
    }
  }

  /** Shown or floored, and not live. */
  ghost predicate MayBeHeld(t: EdgeTable.Table, live: seq<Edge>, k: Key) {
    && k in t && (t[k].visible || t[k].base > 0.0)
    && forall e :: e in live ==> !JoinsPair(e, k)
  }

  /** h renders the row of k, which no other such row of the pair exceeds, from the pod that stands for the one workload
      to the pod that stands for the other. */
  ghost predicate Renders(t: EdgeTable.Table, live: seq<Edge>, pods: seq<string>, h: HeldEdge, k: Key) {
    && MayBeHeld(t, live, k) && h.row == t[k]
    && StandsIn(pods, k.0, h.edge.src) && StandsIn(pods, k.1, h.edge.dst)
    && h.edge.r == t[k].r && h.edge.lag == t[k].lag && h.edge.evidence == t[k].evidence
    && forall j :: MayBeHeld(t, live, j) && {j.0, j.1} == {k.0, k.1} ==> t[j].confidence <= t[k].confidence
  }

  lemma LiveMeans(es: seq<Edge>, k: Key)
    ensures PairOf(k) in LivePairs(CG.WorkloadEdges(es)) <==> exists e :: e in es && JoinsPair(e, k)
  {
    hide Workload.StableWorkload;
    var ws := CG.WorkloadEdges(es);
    if PairOf(k) in LivePairs(ws) {
      var w :| w in ws && {w.src, w.dst} == PairOf(k);
      var i :| 0 <= i < |ws| && ws[i] == w;
      assert es[i] in es && JoinsPair(es[i], k);
    }
    if exists e :: e in es && JoinsPair(e, k) {
      var e :| e in es && JoinsPair(e, k);
      var i :| 0 <= i < |es| && es[i] == e;
      assert ws[i] in ws && {ws[i].src, ws[i].dst} == PairOf(k);
    }
  }

  lemma StrongestMeans(t: EdgeTable.Table, es: seq<Edge>, k: Key)
    ensures Strongest(t, LivePairs(CG.WorkloadEdges(es)), k) <==>
            MayBeHeld(t, es, k) && forall j :: MayBeHeld(t, es, j) && {j.0, j.1} == {k.0, k.1} ==>
                                      t[j].confidence <= t[k].confidence
  {
    hide JoinsPair, LivePairs, CG.WorkloadEdges;
    forall j: Key
      ensures PairOf(j) in LivePairs(CG.WorkloadEdges(es)) <==> exists e :: e in es && JoinsPair(e, j)
    {
      LiveMeans(es, j);
    }
    SamePairSameLive(es);
  }

  lemma SamePairSameLive(es: seq<Edge>)
    ensures forall j: Key, k: Key, e :: {j.0, j.1} == {k.0, k.1} && e in es ==> (JoinsPair(e, j) <==> JoinsPair(e, k))
  {
  }

  lemma HeldKeyRenders(t: EdgeTable.Table, es: seq<Edge>, pods: seq<string>, held: seq<HeldEdge>,
                       keys: seq<Key>, i: nat)
    requires HeldOk(t, LivePairs(CG.WorkloadEdges(es)), PodFor(pods), held, keys) && i < |keys|
    ensures i < |held| && Renders(t, es, pods, held[i], keys[i])
  {
    hide Workload.StableWorkload, PodFor, LivePairs, StandsIn, CG.WorkloadEdges;
    var k := keys[i];
    assert Strongest(t, LivePairs(CG.WorkloadEdges(es)), k) && held[i] == HeldEdgeOf(t, PodFor(pods), k);
    hide Strongest;
    StrongestMeans(t, es, k);
    PodForIsLast(pods, k.0);
    PodForIsLast(pods, k.1);
  }

  /** Exactly what is held: every edge held renders a row that is shown or floored and whose pair is not live; and
      every such pair with both workloads running is held. */
  lemma HeldIff(t: EdgeTable.Table, report: CG.Report, pods: seq<string>, out: Rendering)
    requires IsRendering(t, report, pods, out)
    ensures forall h :: h in out.held ==> exists k :: Renders(t, report.edges, pods, h, k)
    ensures forall k :: MayBeHeld(t, report.edges, k) && (exists q :: StandsIn(pods, k.0, q))
                        && (exists q :: StandsIn(pods, k.1, q)) ==>
              exists h, j :: h in out.held && Renders(t, report.edges, pods, h, j) && {j.0, j.1} == {k.0, k.1}
  {
    hide Workload.StableWorkload, Judged, LiveEdges, HeldEdges, PodFor, LivePairs, HeldOk, Renders, MayBeHeld;
    var live, podFor := LivePairs(CG.WorkloadEdges(report.edges)), PodFor(pods);
    var keys: seq<Key> :| HeldOk(t, live, podFor, out.held, keys);
    HeldSizes(t, live, podFor, out.held, keys);
    forall h | h in out.held
      ensures exists k :: Renders(t, report.edges, pods, h, k)
    {
      var i :| 0 <= i < |out.held| && out.held[i] == h;
      HeldKeyRenders(t, report.edges, pods, out.held, keys, i);
    }
    forall k | MayBeHeld(t, report.edges, k) && (exists q :: StandsIn(pods, k.0, q))
               && (exists q :: StandsIn(pods, k.1, q))
      ensures exists h, j :: h in out.held && Renders(t, report.edges, pods, h, j) && {j.0, j.1} == {k.0, k.1}
    {
      var i := EligibleIsHeld(t, report.edges, pods, out.held, keys, k);
      HeldKeyRenders(t, report.edges, pods, out.held, keys, i);
      assert out.held[i] in out.held;
    }
  }

  lemma HeldSizes(t: EdgeTable.Table, live: set<set<string>>, podFor: map<string, string>, held: seq<HeldEdge>,
                  keys: seq<Key>)
    requires HeldOk(t, live, podFor, held, keys)
    ensures |keys| == |held|
  {
  }

  lemma EligibleIsHeld(t: EdgeTable.Table, es: seq<Edge>, pods: seq<string>, held: seq<HeldEdge>,
                       keys: seq<Key>, k: Key)
    returns (i: nat)
    requires HeldOk(t, LivePairs(CG.WorkloadEdges(es)), PodFor(pods), held, keys) && MayBeHeld(t, es, k)
    requires (exists q :: StandsIn(pods, k.0, q)) && (exists q :: StandsIn(pods, k.1, q))
    ensures i < |keys| == |held| && {keys[i].0, keys[i].1} == {k.0, k.1}
  {
    hide Workload.StableWorkload, PodFor, LivePairs, CG.WorkloadEdges, Strongest;
    LiveMeans(es, k);
    PodForIsLast(pods, k.0);
    PodForIsLast(pods, k.1);
    i :| i < |keys| && PairOf(keys[i]) == PairOf(k);
  }

  /** Every edge of the pass is rendered, first and in order, with the row of its own direction if there is one. */
  lemma LiveEdgesCarryTheirRow(t: EdgeTable.Table, report: CG.Report, pods: seq<string>, out: Rendering, i: nat)
    requires IsRendering(t, report, pods, out) && i < |report.edges|
    ensures |out.live| == |report.edges| && out.live[i].edge == report.edges[i]
    ensures i < |out.report.edges| && out.report.edges[i] == report.edges[i]
    ensures var k := (Workload.StableWorkload(report.edges[i].src), Workload.StableWorkload(report.edges[i].dst));
            out.live[i].row == if k in t then Some(t[k]) else None
  {
    hide Workload.StableWorkload, Judged, AreHeld, PodFor, LivePairs;
  }
}
