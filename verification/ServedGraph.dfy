/** What the union keeps of each signal's evidence, and where merging and rendering differ. */
module ServedGraph {
  import opened Common
  import opened Digraph
  import opened Merge
  import CG = CausalGraph
  import Config
  import EM = EdgeMemory
  import EdgeTable
  import GraphMemory
  import Impact
  import ImpactOrder
  import Ordering
  import Ranking

  // Duplicates: the digraph keeps the last edge of a pair.

  /** For every ordered pair es has an edge for, the last one in all is at least as strong. */
  ghost predicate KeepsStrength(all: seq<Edge>, es: seq<Edge>) {
    forall u, v :: LastEdge(es, u, v).Some? ==>
      LastEdge(all, u, v).Some? && Abs(LastEdge(es, u, v).value.r) <= Abs(LastEdge(all, u, v).value.r)
  }

  /** The union covers a signal's graph exactly when no later duplicate of its edges is weaker. */
  lemma CoversIff(all: seq<Edge>, es: seq<Edge>)
    ensures ImpactOrder.Covers(GraphOf(all), GraphOf(es)) <==> KeepsStrength(all, es)
  {
    hide GraphOf, LastEdge, Find;
    forall u, v
      ensures ArcOf(GraphOf(es), u, v).Some? <==> LastEdge(es, u, v).Some?
      ensures ArcOf(GraphOf(all), u, v).Some? <==> LastEdge(all, u, v).Some?
      ensures LastEdge(es, u, v).Some? ==> Weight(GraphOf(es), u, v) == Abs(LastEdge(es, u, v).value.r)
      ensures LastEdge(all, u, v).Some? ==> Weight(GraphOf(all), u, v) == Abs(LastEdge(all, u, v).value.r)
    {
      ArcIsLastEdge(es, u, v);
      ArcIsLastEdge(all, u, v);
    }
    hide ArcOf, Weight;
  }

  lemma SignalIsBounded(per: Dict<Served>, k: string)
    requires Correlations(per) && k in per.keys
    ensures var g := GraphOf(per.at[k].report.edges); Valid(g) && Bounded(g)
  {
    assert forall e :: e in per.at[k].report.edges ==> e in ReportEdges(per.at[k]);
    BoundedFromEdges(per.at[k].report.edges);
    GraphOfIsValid(per.at[k].report.edges);
  }

  /** Exactly when everything a signal's own graph explains is explained at least as well by the union:
      when every one of its edges that survives a hop is reached in the union, directly or not, as strongly. */
  lemma MergingKeepsImpactIff(per: Dict<Served>, k: string)
    requires per.Valid() && Correlations(per) && k in per.keys
    ensures ImpactOrder.KeepsImpacts(Union(per), GraphOf(per.at[k].report.edges)) <==>
            ImpactOrder.HopsKept(Union(per), GraphOf(per.at[k].report.edges))
  {
    hide GraphOf, Correlations, Valid, Bounded, ImpactOrder.KeepsImpacts, ImpactOrder.HopsKept;
    SignalIsBounded(per, k);
    UnionIsBounded(per);
    ImpactOrder.KeepsImpactsIff(GraphOf(per.at[k].report.edges), Union(per));
  }

  /** So nothing is lost unless a later signal repeats one of its edges more weakly. */
  lemma MergingKeepsImpact(per: Dict<Served>, k: string)
    requires per.Valid() && Correlations(per) && k in per.keys
    requires KeepsStrength(Items(Gather(per.keys, per.at, ReportEdges)), per.at[k].report.edges)
    ensures ImpactOrder.KeepsImpacts(Union(per), GraphOf(per.at[k].report.edges))
  {
    hide GraphOf, Correlations, Gather, KeepsStrength, ImpactOrder.Covers, Valid, Bounded, ImpactOrder.KeepsImpacts;
    CoversIff(Items(Gather(per.keys, per.at, ReportEdges)), per.at[k].report.edges);
    SignalIsBounded(per, k);
    UnionIsBounded(per);
    ImpactOrder.ImpactGrows(GraphOf(per.at[k].report.edges), Union(per));
  }

  /** Two signals, one after the other, and one finding, by the first. */
  function TwoSignals(s1: string, s2: string, first: seq<Edge>, second: seq<Edge>, f: CG.Finding): Dict<Served> {
    Dict([s1, s2],
         map[s1 := Served(CG.Report([f], first, [], []), map[], map[], 0),
             s2 := Served(CG.Report([], second, [], []), map[], map[], 0)])
  }

  lemma TwoSignalsUnion(s1: string, s2: string, first: seq<Edge>, second: seq<Edge>, f: CG.Finding)
    requires s1 != s2
    ensures var per := TwoSignals(s1, s2, first, second, f);
            && per.Valid() && Union(per) == GraphOf(first + second) && AllFindings(per) == [f]
  {
    hide Gather, TagAll;
    var per := TwoSignals(s1, s2, first, second, f);
    GatherTwo(s1, s2, per.at, ReportEdges);
    GatherTwo(s1, s2, per.at, ReportFindings);
    assert Items(TagAll(s1, first) + TagAll(s2, second)) == first + second;
    assert Items(TagAll(s1, [f]) + TagAll(s2, [])) == [f];
  }

  lemma GatherTwo<T>(s1: string, s2: string, at: map<string, Served>, part: Served -> seq<T>)
    requires s1 in at && s2 in at
    ensures Gather([s1, s2], at, part) == TagAll(s1, part(at[s1])) + TagAll(s2, part(at[s2]))
  {
    var keys := [s1, s2];
    assert keys[..1] == [s1] && keys[..1][..0] == [];
    assert Gather(keys[..1], at, part) == TagAll(s1, part(at[s1]));
  }

  /** A single pair of nodes with one arc, of weight w. */
  ghost predicate OneArc(g: Graph, x: string, y: string, w: real) {
    && x != y && Valid(g) && Bounded(g) && g.adj.Keys == {x, y}
    && (forall u, v :: ArcOf(g, u, v).Some? <==> u == x && v == y)
    && Weight(g, x, y) == w
  }

  lemma DoubledEdge(x: string, y: string, first: Edge, second: Edge)
    requires x != y && first.src == second.src == x && first.dst == second.dst == y
    requires Abs(first.r) <= 1.0 && Abs(second.r) <= 1.0
    ensures OneArc(GraphOf([first, second]), x, y, Abs(second.r))
  {
    var es := [first, second];
    BoundedFromEdges(es);
    GraphOfIsValid(es);
    hide GraphOf, Bounded, Valid;
    forall n
      ensures n in GraphOf(es).adj <==> n in {x, y}
    {
      NodesAreEndpoints(es, n);
      assert es[0] in es;
    }
    forall u, v
      ensures ArcOf(GraphOf(es), u, v).Some? <==> u == x && v == y
      ensures u == x && v == y ==> Weight(GraphOf(es), u, v) == Abs(second.r)
    {
      ArcIsLastEdge(es, u, v);
      assert es[..1] == [first] && [first][..0] == [];
      assert LastEdge(es, u, v) == if u == x && v == y then Some(second) else LastEdge([first], u, v);
      assert LastEdge([first], u, v) == if u == x && v == y then Some(first) else LastEdge([], u, v);
    }
  }

  lemma OneArcHop(g: Graph, x: string, y: string, w: real, p: seq<string>, i: nat)
    requires OneArc(g, x, y, w) && IsWalk(g, p)
    ensures i < |p| - 1 ==> p[i] == x && p[i + 1] == y
  {
    hide ArcOf, Valid, Bounded;
  }

  lemma OneArcWalks(g: Graph, x: string, y: string, w: real, s: string, p: seq<string>)
    requires OneArc(g, x, y, w) && Joins(g, s, y, p) && |p| >= 2
    ensures s == x && p == [x, y] && Gain(g, p) == Carry(1.0, w)
  {
    hide ArcOf, Carry, Valid, Bounded;
    OneArcHop(g, x, y, w, p, 0);
    OneArcHop(g, x, y, w, p, 1);
    assert p == [x, y] && p[..1] == [x];
  }

  lemma OneArcImpact(g: Graph, x: string, y: string, w: real)
    requires OneArc(g, x, y, w)
    ensures y in Impact.BestImpact(g, x) <==> Carry(1.0, w) >= CUT
    ensures y !in Impact.BestImpact(g, y)
  {
    hide Impact.BestImpact, Carry, OneArc, Bounded, Valid;
    assert Valid(g) && Bounded(g) && x in g.adj && y in g.adj && ArcOf(g, x, y).Some? && x != y by {
      OneArcShape(g, x, y, w);
    }
    Impact.BestImpactIsBestWalk(g, x, y);
    Impact.BestImpactIsBestWalk(g, y, y);
    assert Joins(g, x, y, [x, y]);
    OneArcWalks(g, x, y, w, x, [x, y]);
    forall s, p | Joins(g, s, y, p) && |p| >= 2
      ensures s == x && Gain(g, p) == Carry(1.0, w)
    {
      OneArcWalks(g, x, y, w, s, p);
    }
  }

  lemma OneArcShape(g: Graph, x: string, y: string, w: real)
    requires OneArc(g, x, y, w)
    ensures Valid(g) && Bounded(g) && x in g.adj && y in g.adj && ArcOf(g, x, y).Some? && x != y
  {
  }

  /** Whether the finding on y is explained depends on the later signal's edge alone: however strong the
      first one is, a second one that does not carry over the cut leaves no root at all. */
  lemma LaterDuplicateDecides(s1: string, s2: string, x: string, y: string, first: Edge, second: Edge, f: CG.Finding,
                              primary: Option<string>, m: Merged)
    requires s1 != s2 && x != y && first.src == second.src == x && first.dst == second.dst == f.pod == y
    requires Abs(first.r) <= 1.0 && Abs(second.r) <= 1.0
    requires TwoSignals(s1, s2, [first], [second], f).Valid()
    requires IsMerge(TwoSignals(s1, s2, [first], [second], f), primary, m)
    ensures m.ranking == [] <==> Carry(1.0, Abs(second.r)) < CUT
  {
    hide GraphOf, TwoSignals, Carry, StatsOf, Labelled, Ranking.RankingOf, OneArc, Impact.BestImpact, Gather;
    var per := TwoSignals(s1, s2, [first], [second], f);
    var g := GraphOf([first, second]);
    TwoSignalsUnion(s1, s2, [first], [second], f);
    assert [first] + [second] == [first, second];
    DoubledEdge(x, y, first, second);
    OneArcShape(g, x, y, Abs(second.r));
    OneArcImpact(g, x, y, Abs(second.r));
    OneArcNodes(g, x, y, Abs(second.r));
    OnlySymptom(per, f, y);
    Ranking.VerdictIffExplainer(g, Symptoms(per), CG.OnsetsOf([f]), Ranking.TOP);
    assert Ranking.HasEdges(g) && HasCause(g, y);
  }

  /** One finding, on the graph: it is the one symptom. */
  lemma OnlySymptom(per: Dict<Served>, f: CG.Finding, y: string)
    requires per.Valid() && AllFindings(per) == [f] && f.pod == y && y in Union(per).adj
    ensures Symptoms(per) != [] && Ranking.SeedSet(Union(per), Symptoms(per)) == {y}
  {
    hide Union;
    assert f in [f];
    assert y in Symptoms(per);
    SymptomsAreSeeds(per);
  }

  /** The engine does produce such an edge: a pair that a later signal's memory has only just seeded, and
      holds with correlation 0, hides the root that an earlier signal found over the same pair. */
  lemma SeededPairHidesRoot(s1: string, s2: string, first: Edge, f: CG.Finding, primary: Option<string>, m: Merged,
                            c: Config.MemoryConfig, t: EdgeTable.Table, podFor: map<string, string>,
                            k: EdgeTable.Key, ts: real)
    requires s1 != s2 && k in t && t[k] == EM.Seed(c, None, ts) && k.0 in podFor && k.1 in podFor
    requires podFor[k.0] != podFor[k.1] == f.pod && first.src == podFor[k.0] && first.dst == podFor[k.1]
    requires Abs(first.r) <= 1.0
    requires
      var held := GraphMemory.HeldEdgeOf(t, podFor, k).edge;
      TwoSignals(s1, s2, [first], [held], f).Valid() && IsMerge(TwoSignals(s1, s2, [first], [held], f), primary, m)
    ensures m.ranking == []
  {
    hide TwoSignals, IsMerge;
    var held := GraphMemory.HeldEdgeOf(t, podFor, k).edge;
    assert held.r == 0.0 && Carry(1.0, 0.0) == 0.0;
    LaterDuplicateDecides(s1, s2, podFor[k.0], podFor[k.1], first, held, f, primary, m);
  }

  // The same with edges as strong as every pass makes them.

  /** A chain a -> b -> c of which the first edge is given twice. */
  lemma ChainWithDuplicate(a: string, b: string, c: string, e1: Edge, e2: Edge, e3: Edge)
    requires a != b && a != c && b != c && Abs(e1.r) <= 1.0 && Abs(e2.r) <= 1.0 && Abs(e3.r) <= 1.0
    requires e1.src == e3.src == a && e1.dst == e3.dst == e2.src == b && e2.dst == c
    ensures Ranking.IsChain(GraphOf([e1, e2]), a, b, c, Abs(e1.r), Abs(e2.r))
    ensures Ranking.IsChain(GraphOf([e1, e2, e3]), a, b, c, Abs(e3.r), Abs(e2.r))
  {
    hide GraphOf, Ranking.IsChain;
    assert [e1][..0] == [] && [e1, e2][..1] == [e1] && [e1, e2, e3][..2] == [e1, e2];
    forall u, v
      ensures LastEdge([e1, e2], u, v) ==
              if u == b && v == c then Some(e2) else if u == a && v == b then Some(e1) else None
      ensures LastEdge([e1, e2, e3], u, v) ==
              if u == a && v == b then Some(e3) else if u == b && v == c then Some(e2) else None
    {
      assert LastEdge([e1], u, v) == if u == a && v == b then Some(e1) else None;
    }
    ChainFromEdges([e1, e2], a, b, c, e1, e2);
    ChainFromEdges([e1, e2, e3], a, b, c, e3, e2);
  }

  lemma ChainFromEdges(es: seq<Edge>, a: string, b: string, c: string, d: Edge, e: Edge)
    requires a != b && a != c && b != c && forall x :: x in es ==> Abs(x.r) <= 1.0
    requires forall u, v :: LastEdge(es, u, v) ==
               if u == b && v == c then Some(e) else if u == a && v == b then Some(d) else None
    ensures Ranking.IsChain(GraphOf(es), a, b, c, Abs(d.r), Abs(e.r))
  {
    hide GraphOf, LastEdge, Valid, Bounded;
    var g := GraphOf(es);
    GraphOfIsValid(es);
    BoundedFromEdges(es);
    forall u, v
      ensures ArcOf(g, u, v).Some? <==> (u == a && v == b) || (u == b && v == c)
      ensures u == a && v == b ==> Weight(g, u, v) == Abs(d.r)
      ensures u == b && v == c ==> Weight(g, u, v) == Abs(e.r)
    {
      ArcIsLastEdge(es, u, v);
    }
    ArcBounds(g, a, b);
    ArcBounds(g, b, c);
  }

  /** When the cause of a chain is ranked no lower than the victim: over a strong first hop that c survives. */
  ghost predicate CausePrevails(first: Edge, second: Edge) {
    Abs(first.r) >= 5.0 / 7.0 && Carry(Carry(1.0, Abs(second.r)), Abs(first.r)) >= CUT
  }

  /** The first signal finds a -> b -> c with the symptom c, the second repeats a -> b. On its own graph the cause a
      is ranked no lower exactly when the first edge lets it prevail; in the union the second alone decides: the
      verdict is the cause exactly when that one lets it prevail, and the victim b otherwise. */
  lemma LaterDuplicateDemotesCause(s1: string, s2: string, a: string, b: string, c: string,
                                   e1: Edge, e2: Edge, e3: Edge, f: CG.Finding, primary: Option<string>, m: Merged)
    requires s1 != s2 && a != b && a != c && b != c
    requires Abs(e1.r) <= 1.0 && Abs(e2.r) <= 1.0 && Abs(e3.r) <= 1.0 && Carry(1.0, Abs(e2.r)) >= CUT
    requires e1.src == e3.src == a && e1.dst == e3.dst == e2.src == b && e2.dst == f.pod == c
    requires TwoSignals(s1, s2, [e1, e2], [e3], f).Valid()
    requires IsMerge(TwoSignals(s1, s2, [e1, e2], [e3], f), primary, m)
    ensures var alone := GraphOf([e1, e2]);
            Ranking.NodeScore(alone, {c}, a) >= Ranking.NodeScore(alone, {c}, b) <==> CausePrevails(e1, e2)
    ensures m.ranking != [] && m.ranking[0].pod == if CausePrevails(e3, e2) then a else b
  {
    hide GraphOf, TwoSignals, StatsOf, Labelled, Ranking.RankingOf, Gather, Ranking.NodeScore, Ranking.IsChain, Carry;
    var per := TwoSignals(s1, s2, [e1, e2], [e3], f);
    TwoSignalsUnion(s1, s2, [e1, e2], [e3], f);
    assert [e1, e2] + [e3] == [e1, e2, e3];
    ChainWithDuplicate(a, b, c, e1, e2, e3);
    Ranking.ChainVerdictIff(GraphOf([e1, e2]), a, b, c, Abs(e1.r), Abs(e2.r));
    var g := GraphOf([e1, e2, e3]);
    ChainNodes(a, b, c, e1, e2, e3);
    Ranking.ChainVerdictIff(g, a, b, c, Abs(e3.r), Abs(e2.r));
    OnlySymptom(per, f, c);
    assert [f][..0] == [] && CG.OnsetsOf([]) == map[];
    assert CG.OnsetsOf([f]).Keys == {c};
    ChainVerdict(g, a, b, c, Abs(e3.r), Abs(e2.r), Symptoms(per), CG.OnsetsOf([f]));
  }

  lemma ChainNodes(a: string, b: string, c: string, e1: Edge, e2: Edge, e3: Edge)
    requires a != b && a != c && b != c
    requires e1.src == e3.src == a && e1.dst == e3.dst == e2.src == b && e2.dst == c
    ensures GraphOf([e1, e2, e3]).nodes == [a, b, c]
    ensures GraphOf([e1, e2, e3]).adj.Keys == {a, b, c}
  {
    hide SetArc;
    assert [e1][..0] == [] && [e1, e2][..1] == [e1] && [e1, e2, e3][..2] == [e1, e2];
    assert GraphOf([e1]).nodes == [a, b] && GraphOf([e1]).adj.Keys == {a, b};
    assert GraphOf([e1, e2]).nodes == [a, b, c] && GraphOf([e1, e2]).adj.Keys == {a, b, c};
  }

  /** What a chain with the symptom c is ranked as: the cause first if it scores no less than the victim. */
  lemma ChainVerdict(g: Graph, a: string, b: string, c: string, v: real, w: real,
                     seeds: seq<string>, onset: map<string, real>)
    requires Ranking.IsChain(g, a, b, c, v, w) && g.nodes == [a, b, c] && Carry(1.0, w) >= CUT
    requires Ranking.SeedSet(g, seeds) == {c} && a !in onset && b !in onset
    ensures Ranking.RankingOf(g, seeds, onset, Ranking.TOP) != []
    ensures Ranking.RankingOf(g, seeds, onset, Ranking.TOP)[0].pod ==
            if Ranking.NodeScore(g, {c}, a) >= Ranking.NodeScore(g, {c}, b) then a else b
  {
    ChainScores(g, a, b, c, v, w);
    hide Ranking.NodeScore, Ranking.IsChain, Ranking.SeedSet, Carry, Ranking.HasEdges, SumBy, Ordering.Sort,
         Ranking.Candidates, Ranking.Before;
    Ranking.CandidatesArePositive(g, {c}, g.nodes);
    ThreeCandidates(g, a, b, c, onset);
  }

  lemma ThreeCandidates(g: Graph, a: string, b: string, c: string, onset: map<string, real>)
    requires a !in onset && b !in onset
    requires Ranking.NodeScore(g, {c}, b) > 0.0 >= Ranking.NodeScore(g, {c}, c)
    ensures var ranked := Ordering.Sort(Ranking.Candidates(g, {c}, [a, b, c]), Ranking.Before(onset));
            ranked != [] &&
            ranked[0].pod == if Ranking.NodeScore(g, {c}, a) >= Ranking.NodeScore(g, {c}, b) then a else b
  {
    hide Ranking.NodeScore;
    var x, y := Ranking.NodeScore(g, {c}, a), Ranking.NodeScore(g, {c}, b);
    assert [a, b, c][..2] == [a, b] && [a, b][..1] == [a] && [a][..0] == [];
    var first: seq<Ranking.Scored> := if x > 0.0 then [Ranking.Scored(a, x)] else [];
    assert Ranking.Candidates(g, {c}, [a]) == first;
    assert Ranking.Candidates(g, {c}, [a, b]) == first + [Ranking.Scored(b, y)];
    assert Ranking.Candidates(g, {c}, [a, b, c]) == first + [Ranking.Scored(b, y)];
    if first == [] {
      assert first + [Ranking.Scored(b, y)] == [Ranking.Scored(b, y)];
    } else {
      var both := first + [Ranking.Scored(b, y)];
      var le := Ranking.Before(onset);
      assert both[1..] == [Ranking.Scored(b, y)] && both[1..][1..] == [];
      assert Ordering.Sort(both[1..], le) == both[1..];
      assert Ordering.Sort(both, le) == Ordering.Insert(both[0], both[1..], le);
      assert Ordering.Insert(both[0], [], le) == [both[0]];
      assert le(both[0], both[1]) <==> x >= y;
    }
  }

  /** The victim b explains c, and c explains nothing. */
  lemma ChainScores(g: Graph, a: string, b: string, c: string, v: real, w: real)
    requires Ranking.IsChain(g, a, b, c, v, w) && Carry(1.0, w) >= CUT
    ensures Ranking.HasEdges(g)
    ensures Ranking.NodeScore(g, {c}, b) > 0.0 >= Ranking.NodeScore(g, {c}, c)
  {
    Ranking.ChainEnd(g, a, b, c, v, w);
    ChainTail(g, a, b, c, v, w);
    assert Valid(g) && b in g.adj && c in g.adj;
    hide Ranking.NodeScore, Ranking.IsChain, Carry, Impact.BestImpact, Valid, HasCause, Ranking.HasEdges;
    Ranking.PositiveScoreExplains(g, {c}, b);
    Ranking.PositiveScoreExplains(g, {c}, c);
  }

  /** Nothing is reached from c, and c has a cause. */
  lemma ChainTail(g: Graph, a: string, b: string, c: string, v: real, w: real)
    requires Ranking.IsChain(g, a, b, c, v, w)
    ensures c !in Impact.BestImpact(g, c) && HasCause(g, c) && Ranking.HasEdges(g)
  {
    assert Valid(g) && Bounded(g) && c in g.adj && ArcOf(g, b, c).Some? && b in g.adj;
    FindMeans(g.adj[b], c);
    hide Impact.BestImpact, Ranking.IsChain, Valid, Bounded, ArcOf;
    Impact.BestImpactIsBestWalk(g, c, c);
    forall p | Joins(g, c, c, p)
      ensures |p| < 2
    {
      Ranking.ChainArc(g, a, b, c, v, w, p, 0);
      ChainNames(g, a, b, c, v, w);
    }
  }

  lemma ChainNames(g: Graph, a: string, b: string, c: string, v: real, w: real)
    requires Ranking.IsChain(g, a, b, c, v, w)
    ensures a != b && a != c && b != c
  {
  }

  lemma OneArcNodes(g: Graph, x: string, y: string, w: real)
    requires OneArc(g, x, y, w)
    ensures forall n :: n in g.adj <==> n == x || n == y
    ensures g.adj[x] != []
  {
  }

  // A symptom off the graph.

  /** Findings, none of which sits on the graph. */
  ghost predicate OffGraph(fs: seq<CG.Finding>, g: Graph) {
    fs != [] && forall f :: f in fs ==> f.pod !in g.adj
  }

  /** Rendering one signal has no guard against this: it ranks as if every node were a symptom, and so
      names a root whenever some pod has no cause or reaches anything. */
  lemma RenderingBlamesBackbone(report: CG.Report, out: CG.Report)
    requires GraphMemory.Judged(report, out) && out.edges != [] && OffGraph(report.findings, GraphOf(out.edges))
    ensures var g := GraphOf(out.edges);
            out.ranking != [] <==>
            Ranking.HasEdges(g) && exists n :: n in g.adj && (!HasCause(g, n) || Impact.BestImpact(g, n) != map[])
  {
    hide GraphOf, Ranking.RankingOf, HasCause, Impact.BestImpact, GraphMemory.BlastOf, Ranking.HasEdges;
    var g, pods, fs := GraphOf(out.edges), CG.PodsOf(report.findings), report.findings;
    GraphOfIsValid(out.edges);
    Ranking.VerdictIffExplainer(g, pods, CG.OnsetsOf(fs), Ranking.TOP);
    AllNodesSeeded(fs, g);
    forall n | n in g.adj
      ensures Ranking.Explains(g, g.adj.Keys, n) <==> !HasCause(g, n) || Impact.BestImpact(g, n) != map[]
    {
      EveryNodeASymptom(g, n);
    }
    hide Ranking.Explains;
  }

  lemma EveryNodeASymptom(g: Graph, n: string)
    requires Valid(g) && n in g.adj
    ensures Ranking.Explains(g, g.adj.Keys, n) <==> !HasCause(g, n) || Impact.BestImpact(g, n) != map[]
  {
    hide HasCause, Impact.Best;
    if Impact.BestImpact(g, n) != map[] {
      var t :| t in Impact.BestImpact(g, n);
      assert t in g.adj;
    }
  }

  /** For instance: a shared-disk pair x, y has just been seeded, nothing else is known, and some other pod
      shows a finding. Rendering then names x the root cause. */
  lemma BackboneIsBlamed(report: CG.Report, out: CG.Report, c: Config.MemoryConfig, t: EdgeTable.Table,
                         podFor: map<string, string>, k: EdgeTable.Key, ts: real)
    requires k in t && t[k] == EM.Seed(c, None, ts) && k.0 in podFor && k.1 in podFor && podFor[k.0] != podFor[k.1]
    requires out.edges == [GraphMemory.HeldEdgeOf(t, podFor, k).edge] && GraphMemory.Judged(report, out)
    requires report.findings != [] && forall f :: f in report.findings ==> f.pod != podFor[k.0] && f.pod != podFor[k.1]
    ensures out.ranking != [] && forall v :: v in out.ranking ==> v.pod == podFor[k.0]
  {
    hide GraphOf, Ranking.RankingOf, Impact.BestImpact, GraphMemory.BlastOf, OneArc, HasCause, Ranking.HasEdges;
    var e, x, y := out.edges[0], podFor[k.0], podFor[k.1];
    var g := GraphOf([e]);
    SingleEdge(x, y, e);
    OneArcShape(g, x, y, 0.0);
    OneArcNodes(g, x, y, 0.0);
    OneArcCauses(g, x, y, 0.0);
    assert OffGraph(report.findings, g);
    RenderingBlamesBackbone(report, out);
    assert Ranking.HasEdges(g) by { OneArcHasEdges(g, x, y, 0.0); }
    var pods := CG.PodsOf(report.findings);
    AllNodesSeeded(report.findings, g);
    forall v | v in out.ranking
      ensures v.pod == x
    {
      Ranking.EveryVerdictExplains(g, pods, CG.OnsetsOf(report.findings), Ranking.TOP, v);
    }
  }

  lemma AllNodesSeeded(fs: seq<CG.Finding>, g: Graph)
    requires OffGraph(fs, g)
    ensures Ranking.SeedSet(g, CG.PodsOf(fs)) == g.adj.Keys
  {
    var pods := CG.PodsOf(fs);
    forall q | q in pods
      ensures q !in g.adj
    {
      var i :| 0 <= i < |pods| && pods[i] == q;
      assert fs[i] in fs;
    }
  }

  lemma OneArcHasEdges(g: Graph, x: string, y: string, w: real)
    requires OneArc(g, x, y, w)
    ensures Ranking.HasEdges(g)
  {
    OneArcNodes(g, x, y, w);
  }

  /** Only y has a cause, and y reaches nothing. */
  lemma OneArcCauses(g: Graph, x: string, y: string, w: real)
    requires OneArc(g, x, y, w)
    ensures !HasCause(g, x) && HasCause(g, y)
    ensures forall s :: s in g.adj ==> s !in Impact.BestImpact(g, y)
  {
    hide ArcOf, Impact.BestImpact;
    forall s | s in g.adj
      ensures s !in Impact.BestImpact(g, y)
    {
      Impact.BestImpactIsBestWalk(g, y, s);
      forall p | Joins(g, y, s, p)
        ensures |p| < 2
      {
        OneArcHop(g, x, y, w, p, 0);
      }
    }
  }

  lemma SingleEdge(x: string, y: string, e: Edge)
    requires x != y && e.src == x && e.dst == y && Abs(e.r) <= 1.0
    ensures OneArc(GraphOf([e]), x, y, Abs(e.r))
  {
    var es := [e];
    BoundedFromEdges(es);
    GraphOfIsValid(es);
    hide GraphOf, Bounded, Valid;
    forall n
      ensures n in GraphOf(es).adj <==> n in {x, y}
    {
      NodesAreEndpoints(es, n);
      assert es[0] in es;
    }
    assert es[..0] == [];
    forall u, v
      ensures ArcOf(GraphOf(es), u, v).Some? <==> u == x && v == y
      ensures u == x && v == y ==> Weight(GraphOf(es), u, v) == Abs(e.r)
    {
      ArcIsLastEdge(es, u, v);
    }
  }

  /** The merge of that one signal names none. */
  lemma MergingDoesNot(signal: string, s: Served, primary: Option<string>, m: Merged)
    requires Dict([signal], map[signal := s]).Valid() && IsMerge(Dict([signal], map[signal := s]), primary, m)
    requires OffGraph(s.report.findings, GraphOf(s.report.edges))
    ensures m.ranking == [] && m.blast == []
  {
    hide GraphOf, Judged, StatsOf, Labelled;
    var per := Dict([signal], map[signal := s]);
    OneSignal(signal, s);
    assert forall f :: f in AllFindings(per) ==> f.pod !in Union(per).adj;
    NoSymptomNoRoot(per, primary, m);
  }

  lemma OneSignal(signal: string, s: Served)
    ensures var per := Dict([signal], map[signal := s]);
            per.Valid() && Union(per) == GraphOf(s.report.edges) && AllFindings(per) == s.report.findings
  {
    var per := Dict([signal], map[signal := s]);
    assert per.keys[..0] == [];
    assert Gather(per.keys, per.at, ReportEdges) == TagAll(signal, s.report.edges);
    assert Gather(per.keys, per.at, ReportFindings) == TagAll(signal, s.report.findings);
    assert Items(TagAll(signal, s.report.edges)) == s.report.edges;
    assert Items(TagAll(signal, s.report.findings)) == s.report.findings;
  }
}
