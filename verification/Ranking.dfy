/** Root-cause ranking: explanatory reach over the symptom set, penalised when something
    upstream explains the candidate, ties broken by onset, scores normalised. */
module Ranking {
  import opened Common
  import opened Digraph
  import opened Ordering
  import Impact
  import Statistics

  const UPSTREAM_PENALTY := 0.5
  const TOP := 3

  datatype Scored = Scored(pod: string, score: real)

  datatype Verdict = Verdict(pod: string, score: real, onset: Option<real>)

  /** The seeds that sit on the graph; all nodes when none does. */
  function SeedSet(g: Graph, seeds: seq<string>): set<string> {
    var onGraph := set s | s in seeds && s in g.adj;
    if onGraph == {} then g.adj.Keys else onGraph
  }

  function Explained(impact: map<string, real>, symptoms: set<string>): string -> real {
    n => if n in impact && n in symptoms then impact[n] else 0.0
  }

  /** How much of the symptom set a candidate with this impact explains. */
  function Score(g: Graph, symptoms: set<string>, n: string, impact: map<string, real>): real {
    var reach := SumBy(g.nodes, Explained(impact, symptoms));
    if HasCause(g, n) then reach * UPSTREAM_PENALTY
    else if n in symptoms then reach + 1.0
    else reach
  }

  function NodeScore(g: Graph, symptoms: set<string>, n: string): real {
    Score(g, symptoms, n, Impact.BestImpact(g, n))
  }

  /** The candidates that explain anything, in node order. */
  function Candidates(g: Graph, symptoms: set<string>, ns: seq<string>): seq<Scored> {
    if ns == [] then []
    else
      var front, n := Candidates(g, symptoms, ns[..|ns| - 1]), ns[|ns| - 1];
      if NodeScore(g, symptoms, n) > 0.0 then front + [Scored(n, NodeScore(g, symptoms, n))] else front
  }

  /** Unknown onsets come last. */
  predicate OnsetLe(a: Option<real>, b: Option<real>) {
    b.None? || (a.Some? && a.value <= b.value)
  }

  function Before(onset: map<string, real>): (Scored, Scored) -> bool {
    (a: Scored, b: Scored) =>
      a.score > b.score || (a.score == b.score && OnsetLe(Lookup(onset, a.pod), Lookup(onset, b.pod)))
  }

  function ScoreOf(x: Scored): real {
    x.score
  }

  predicate HasEdges(g: Graph) {
    exists n :: n in g.adj && g.adj[n] != []
  }

  function Shares(ranked: seq<Scored>, total: real, onset: map<string, real>): (vs: seq<Verdict>)
    requires total > 0.0
    ensures |vs| == |ranked|
    ensures forall i :: 0 <= i < |ranked| ==>
              vs[i] == Verdict(ranked[i].pod, ranked[i].score / total, Lookup(onset, ranked[i].pod))
  {
    seq(|ranked|, i requires 0 <= i < |ranked| =>
      Verdict(ranked[i].pod, ranked[i].score / total, Lookup(onset, ranked[i].pod)))
  }

  function RankingOf(g: Graph, seeds: seq<string>, onset: map<string, real>, top: nat): seq<Verdict> {
    var scores := Candidates(g, SeedSet(g, seeds), g.nodes);
    var total := SumBy(scores, ScoreOf);
    var ranked := Sort(scores, Before(onset));
    if !HasEdges(g) || scores == [] then []
    else
      assert total > 0.0 by { CandidatesArePositive(g, SeedSet(g, seeds), g.nodes); }
      Shares(ranked[..if top < |ranked| then top else |ranked|], total, onset)
  }

  method RankRootCauses(g: Graph, seeds: seq<string>, onset: map<string, real>, top: nat)
    returns (ranking: seq<Verdict>)
    requires Valid(g) && Bounded(g)
    ensures ranking == RankingOf(g, seeds, onset, top)
  {
    hide Score, Impact.BestImpact, Sort, SumBy, Bounded, HasEdges, SeedSet;
    var symptoms := SeedSet(g, seeds);
    if !HasEdges(g) {
      return [];
    }
    var scores: seq<Scored> := [];
    for i := 0 to |g.nodes|
      invariant scores == Candidates(g, symptoms, g.nodes[..i])
    {
      var impact := Impact.ForwardImpact(g, g.nodes[i]);
      var explain := Score(g, symptoms, g.nodes[i], impact);
      if explain > 0.0 {
        scores := scores + [Scored(g.nodes[i], explain)];
      }
      assert g.nodes[..i + 1][..i] == g.nodes[..i];
    }
    assert g.nodes[..|g.nodes|] == g.nodes;
    CandidatesArePositive(g, symptoms, g.nodes);
    if scores == [] {
      return [];
    }
    var total := SumBy(scores, ScoreOf);
    assert total > 0.0;
    var ranked := Sort(scores, Before(onset));
    ranking := Shares(ranked[..if top < |ranked| then top else |ranked|], total, onset);
  }

  lemma {:induction false} CandidatesArePositive(g: Graph, symptoms: set<string>, ns: seq<string>)
    ensures forall x :: x in Candidates(g, symptoms, ns) ==> x.score > 0.0
    ensures Candidates(g, symptoms, ns) != [] ==> SumBy(Candidates(g, symptoms, ns), ScoreOf) > 0.0
    ensures SumBy(Candidates(g, symptoms, ns), ScoreOf) >= 0.0
  {
    hide NodeScore;
    if ns == [] {
    } else {
      var front, n := Candidates(g, symptoms, ns[..|ns| - 1]), ns[|ns| - 1];
      CandidatesArePositive(g, symptoms, ns[..|ns| - 1]);
      if NodeScore(g, symptoms, n) > 0.0 {
        SumBySnoc(front, Scored(n, NodeScore(g, symptoms, n)), ScoreOf);
      }
    }
  }

  /** Exactly the nodes that explain something are candidates, each with its score. */
  lemma {:induction false} CandidatesAreExplainers(g: Graph, symptoms: set<string>, ns: seq<string>, x: Scored)
    ensures x in Candidates(g, symptoms, ns) <==>
            x.pod in ns && x.score == NodeScore(g, symptoms, x.pod) && x.score > 0.0
  {
    hide NodeScore;
    if ns == [] {
    } else {
      CandidatesAreExplainers(g, symptoms, ns[..|ns| - 1], x);
      assert ns == ns[..|ns| - 1] + [ns[|ns| - 1]];
    }
  }

  lemma BeforeIsOrder(onset: map<string, real>)
    ensures TotalPreorder(Before(onset))
  {
  }

  // What a ranking means.

  ghost predicate DistinctPods(xs: seq<Scored>) {
    forall i, j :: 0 <= i < j < |xs| ==> xs[i].pod != xs[j].pod
  }

  lemma {:induction false} DistinctCandidates(g: Graph, symptoms: set<string>, ns: seq<string>)
    requires Distinct(ns)
    ensures DistinctPods(Candidates(g, symptoms, ns))
    ensures forall x :: x in Candidates(g, symptoms, ns) ==> x.pod in ns
  {
    hide NodeScore;
    if ns == [] {
    } else {
      var front := ns[..|ns| - 1];
      DistinctCandidates(g, symptoms, front);
      assert ns == front + [ns[|ns| - 1]];
      var xs := Candidates(g, symptoms, front);
      forall i | 0 <= i < |xs|
        ensures xs[i].pod != ns[|ns| - 1]
      {
        assert xs[i] in xs;
      }
      var n := ns[|ns| - 1];
      assert Candidates(g, symptoms, ns) ==
             if NodeScore(g, symptoms, n) > 0.0 then xs + [Scored(n, NodeScore(g, symptoms, n))] else xs;
    }
  }

  lemma RankedCandidates(g: Graph, symptoms: set<string>, onset: map<string, real>, ranked: seq<Scored>)
    requires ranked == Sort(Candidates(g, symptoms, g.nodes), Before(onset))
    ensures SortedBy(ranked, Before(onset))
    ensures SumBy(ranked, ScoreOf) == SumBy(Candidates(g, symptoms, g.nodes), ScoreOf)
    ensures |ranked| == |Candidates(g, symptoms, g.nodes)|
    ensures Distinct(g.nodes) ==> DistinctPods(ranked)
    ensures forall x :: x in ranked <==>
              x.pod in g.nodes && x.score == NodeScore(g, symptoms, x.pod) && x.score > 0.0
  {
    hide NodeScore;
    var xs := Candidates(g, symptoms, g.nodes);
    BeforeIsOrder(onset);
    SortSorts(xs, Before(onset));
    SortIsPermutation(xs, Before(onset));
    SortHasSameElements(xs, Before(onset));
    SumByPermutation(ranked, xs, ScoreOf);
    if Distinct(g.nodes) {
      DistinctCandidates(g, symptoms, g.nodes);
      SortKeepsDistinct(xs, Before(onset));
      forall i, j | 0 <= i < j < |ranked|
        ensures ranked[i].pod != ranked[j].pod
      {
        assert ranked[i] in xs && ranked[j] in xs && ranked[i] != ranked[j];
      }
    }
    forall x
      ensures x in ranked <==> x.pod in g.nodes && x.score == NodeScore(g, symptoms, x.pod) && x.score > 0.0
    {
      CandidatesAreExplainers(g, symptoms, g.nodes, x);
    }
  }

  function VerdictScore(v: Verdict): real {
    v.score
  }

  lemma {:induction false} SharesSum(ranked: seq<Scored>, total: real, onset: map<string, real>)
    requires total > 0.0
    ensures SumBy(Shares(ranked, total, onset), VerdictScore) * total == SumBy(ranked, ScoreOf)
  {
    if ranked == [] {
    } else {
      var front, x := ranked[..|ranked| - 1], ranked[|ranked| - 1];
      SharesSum(front, total, onset);
      assert Shares(ranked, total, onset)[..|ranked| - 1] == Shares(front, total, onset);
      assert x.score / total * total == x.score;
      var t := SumBy(Shares(front, total, onset), VerdictScore);
      assert (t + x.score / total) * total == t * total + x.score / total * total;
    }
  }

  lemma ShareBounds(x: real, y: real, total: real)
    requires 0.0 < x <= total && y <= x
    ensures 0.0 < x / total <= 1.0 && y / total <= x / total
    ensures y / total == x / total <==> y == x
  {
    var a, b := x / total, y / total;
    assert a * total == x && b * total == y;
  }

  lemma PrefixOf(ranked: seq<Scored>, k: nat, top: seq<Scored>, onset: map<string, real>)
    requires k <= |ranked| && top == ranked[..k] && SortedBy(ranked, Before(onset))
    requires forall x :: x in ranked ==> x.score > 0.0
    ensures SumBy(top, ScoreOf) <= SumBy(ranked, ScoreOf) && SortedBy(top, Before(onset))
    ensures forall x :: x in top ==> 0.0 < x.score <= SumBy(top, ScoreOf)
  {
    hide SumBy;
    var rest := ranked[k..];
    assert ranked == top + rest;
    SumByConcat(top, rest, ScoreOf);
    SumByNonNegative(rest, ScoreOf);
    SumByNonNegative(top, ScoreOf);
    forall x | x in top
      ensures ScoreOf(x) <= SumBy(top, ScoreOf)
    {
    }
  }

  ghost predicate Normalised(ranking: seq<Verdict>, onset: map<string, real>, top: nat) {
    && |ranking| <= top
    && (forall v :: v in ranking ==> 0.0 < v.score <= 1.0 && v.onset == Lookup(onset, v.pod))
    && (forall i, j :: 0 <= i < j < |ranking| ==>
          && ranking[i].score >= ranking[j].score
          && (ranking[i].score == ranking[j].score ==> OnsetLe(ranking[i].onset, ranking[j].onset)))
    && SumBy(ranking, VerdictScore) <= 1.0
  }

  /** Scores are positive shares of a whole, best first, earlier onset first among equals. */
  lemma RankingIsNormalised(g: Graph, seeds: seq<string>, onset: map<string, real>, top: nat)
    requires Valid(g)
    ensures Normalised(RankingOf(g, seeds, onset, top), onset, top)
  {
    hide NodeScore, Candidates, SeedSet, HasEdges, Sort, SortedBy, Before, Valid, DistinctPods, Lookup, OnsetLe, SumBy;
    var symptoms := SeedSet(g, seeds);
    var scores := Candidates(g, symptoms, g.nodes);
    var ranked, total := Sort(scores, Before(onset)), SumBy(scores, ScoreOf);
    CandidatesArePositive(g, symptoms, g.nodes);
    RankedCandidates(g, symptoms, onset, ranked);
    if HasEdges(g) && scores != [] {
      var k := if top < |ranked| then top else |ranked|;
      assert RankingOf(g, seeds, onset, top) == Shares(ranked[..k], total, onset);
      hide RankingOf;
      PrefixOf(ranked, k, ranked[..k], onset);
      SharesAreNormalised(ranked[..k], total, onset);
    } else {
      assert RankingOf(g, seeds, onset, top) == [];
      NothingIsNormalised(onset, top);
    }
  }

  lemma NothingIsNormalised(onset: map<string, real>, top: nat)
    ensures Normalised([], onset, top)
  {
  }

  /** No pod is ranked twice. */
  lemma RankedPodsDiffer(g: Graph, seeds: seq<string>, onset: map<string, real>, top: nat)
    requires Valid(g)
    ensures var vs := RankingOf(g, seeds, onset, top); forall i, j :: 0 <= i < j < |vs| ==> vs[i].pod != vs[j].pod
  {
    hide NodeScore, Candidates, SeedSet, HasEdges, Sort, SortedBy, Before, SumBy;
    RankedCandidates(g, SeedSet(g, seeds), onset, Sort(Candidates(g, SeedSet(g, seeds), g.nodes), Before(onset)));
  }

  lemma SharesAreNormalised(top: seq<Scored>, total: real, onset: map<string, real>)
    requires total > 0.0 && SumBy(top, ScoreOf) <= total && SortedBy(top, Before(onset))
    requires forall x :: x in top ==> 0.0 < x.score <= total
    ensures Normalised(Shares(top, total, onset), onset, |top|)
  {
    hide SumBy, SortedBy, Lookup, OnsetLe, Before;
    SharesInRange(top, total, onset);
    SharesInOrder(top, total, onset);
    SharesSum(top, total, onset);
    AtMostOne(SumBy(Shares(top, total, onset), VerdictScore), SumBy(top, ScoreOf), total);
  }

  lemma AtMostOne(t: real, s: real, total: real)
    requires total > 0.0 && t * total == s && s <= total
    ensures t <= 1.0
  {
  }

  lemma SharesInRange(top: seq<Scored>, total: real, onset: map<string, real>)
    requires total > 0.0 && forall x :: x in top ==> 0.0 < x.score <= total
    ensures forall v :: v in Shares(top, total, onset) ==> 0.0 < v.score <= 1.0 && v.onset == Lookup(onset, v.pod)
  {
    var vs := Shares(top, total, onset);
    forall i | 0 <= i < |top|
      ensures 0.0 < vs[i].score <= 1.0
    {
      assert top[i] in top;
      ShareBounds(top[i].score, top[i].score, total);
    }
  }

  lemma SharesInOrder(top: seq<Scored>, total: real, onset: map<string, real>)
    requires total > 0.0 && SortedBy(top, Before(onset)) && forall x :: x in top ==> 0.0 < x.score <= total
    ensures var vs := Shares(top, total, onset);
            forall i, j :: 0 <= i < j < |top| ==>
              vs[i].score >= vs[j].score && (vs[i].score == vs[j].score ==> OnsetLe(vs[i].onset, vs[j].onset))
  {
    var vs := Shares(top, total, onset);
    forall i, j | 0 <= i < j < |top|
      ensures vs[i].score >= vs[j].score
      ensures vs[i].score == vs[j].score ==> OnsetLe(vs[i].onset, vs[j].onset)
    {
      assert Before(onset)(top[i], top[j]);
      assert top[i] in top;
      ShareBounds(top[i].score, top[j].score, total);
    }
  }

  /** What makes a node a candidate at all. */
  ghost predicate Explains(g: Graph, symptoms: set<string>, n: string) {
    || (n in symptoms && !HasCause(g, n))
    || exists s :: s in symptoms && s in Impact.BestImpact(g, n)
  }

  lemma PositiveScoreExplains(g: Graph, symptoms: set<string>, n: string)
    requires Valid(g) && n in g.adj
    ensures NodeScore(g, symptoms, n) > 0.0 <==> Explains(g, symptoms, n)
  {
    var impact := Impact.BestImpact(g, n);
    hide Impact.Best;
    var f := Explained(impact, symptoms);
    SumByNonNegative(g.nodes, f);
    if SumBy(g.nodes, f) > 0.0 {
      if forall s :: s in symptoms ==> s !in impact {
        SumByZero(g.nodes, f);
      }
    }
    forall s | s in symptoms && s in impact
      ensures SumBy(g.nodes, f) > 0.0
    {
      assert s in g.nodes;
      assert f(s) == impact[s];
    }
  }

  /** Every ranked pod explains a symptom: it is one itself with nothing upstream, or it reaches one. */
  lemma EveryVerdictExplains(g: Graph, seeds: seq<string>, onset: map<string, real>, top: nat, v: Verdict)
    requires Valid(g) && v in RankingOf(g, seeds, onset, top)
    ensures v.pod in g.adj && Explains(g, SeedSet(g, seeds), v.pod)
  {
    hide NodeScore, Candidates;
    var symptoms := SeedSet(g, seeds);
    var ranked := Sort(Candidates(g, symptoms, g.nodes), Before(onset));
    RankedCandidates(g, symptoms, onset, ranked);
    CandidatesArePositive(g, symptoms, g.nodes);
    var i :| 0 <= i < |RankingOf(g, seeds, onset, top)| && RankingOf(g, seeds, onset, top)[i] == v;
    assert ranked[i] in ranked && ranked[i].pod == v.pod;
    PositiveScoreExplains(g, symptoms, v.pod);
  }

  /** There is a verdict exactly when the graph has an edge and some node explains a symptom. */
  lemma VerdictIffExplainer(g: Graph, seeds: seq<string>, onset: map<string, real>, top: nat)
    requires Valid(g) && top > 0
    ensures RankingOf(g, seeds, onset, top) != [] <==>
            HasEdges(g) && exists n :: n in g.adj && Explains(g, SeedSet(g, seeds), n)
  {
    hide NodeScore, Candidates;
    var symptoms := SeedSet(g, seeds);
    var scores := Candidates(g, symptoms, g.nodes);
    RankedCandidates(g, symptoms, onset, Sort(scores, Before(onset)));
    if scores != [] {
      CandidatesAreExplainers(g, symptoms, g.nodes, scores[0]);
      PositiveScoreExplains(g, symptoms, scores[0].pod);
    }
    forall n | n in g.adj && Explains(g, symptoms, n)
      ensures scores != []
    {
      PositiveScoreExplains(g, symptoms, n);
      CandidatesAreExplainers(g, symptoms, g.nodes, Scored(n, NodeScore(g, symptoms, n)));
    }
  }

  /** Nobody explains more than the first verdict. */
  lemma TopVerdictIsMaximal(g: Graph, seeds: seq<string>, onset: map<string, real>, top: nat, n: string)
    requires Valid(g) && n in g.adj && RankingOf(g, seeds, onset, top) != []
    ensures RankingOf(g, seeds, onset, top)[0].pod in g.adj
    ensures NodeScore(g, SeedSet(g, seeds), n) <=
            NodeScore(g, SeedSet(g, seeds), RankingOf(g, seeds, onset, top)[0].pod)
  {
    hide NodeScore, Candidates;
    var symptoms := SeedSet(g, seeds);
    var ranked := Sort(Candidates(g, symptoms, g.nodes), Before(onset));
    CandidatesArePositive(g, symptoms, g.nodes);
    RankedCandidates(g, symptoms, onset, ranked);
    var first := ranked[0];
    assert first in ranked && first.pod == RankingOf(g, seeds, onset, top)[0].pod;
    if NodeScore(g, symptoms, n) > 0.0 {
      var x := Scored(n, NodeScore(g, symptoms, n));
      assert x in ranked;
      var i :| 0 <= i < |ranked| && ranked[i] == x;
      assert i > 0 ==> Before(onset)(ranked[0], ranked[i]);
    }
  }

  // Who is listed, and with which share.

  function ScoreIn(g: Graph, symptoms: set<string>): string -> real {
    n => NodeScore(g, symptoms, n)
  }

  lemma {:induction false} CandidatesSum(g: Graph, symptoms: set<string>, ns: seq<string>)
    ensures SumBy(Candidates(g, symptoms, ns), ScoreOf) == SumBy(ns, ScoreIn(g, symptoms))
  {
    hide NodeScore;
    if ns == [] {
    } else {
      var front, n := ns[..|ns| - 1], ns[|ns| - 1];
      CandidatesSum(g, symptoms, front);
      ScoresAreNonNegative(g, symptoms, n);
      SumBySnoc(Candidates(g, symptoms, front), Scored(n, NodeScore(g, symptoms, n)), ScoreOf);
    }
  }

  lemma {:induction false} PodsAreCounted(xs: seq<Scored>)
    requires DistinctPods(xs)
    ensures |set x | x in xs :: x.pod| == |xs|
  {
    if xs == [] {
    } else {
      var front, last := xs[..|xs| - 1], xs[|xs| - 1];
      PodsAreCounted(front);
      assert xs == front + [last];
      assert (set x | x in xs :: x.pod) == (set x | x in front :: x.pod) + {last.pod};
    }
  }

  /** The nodes that explain anything. */
  function Scorers(g: Graph, symptoms: set<string>): set<string> {
    set n | n in g.adj && NodeScore(g, symptoms, n) > 0.0
  }

  /** a may stand before b: it scores more, or as much and its onset is no later; an unknown onset is the latest. */
  ghost predicate MayPrecede(g: Graph, symptoms: set<string>, onset: map<string, real>, a: string, b: string) {
    || NodeScore(g, symptoms, a) > NodeScore(g, symptoms, b)
    || (NodeScore(g, symptoms, a) == NodeScore(g, symptoms, b)
        && (b in onset ==> a in onset && onset[a] <= onset[b]))
  }

  /** All scorers, each once, best first. */
  ghost predicate IsOrder(g: Graph, symptoms: set<string>, onset: map<string, real>, order: seq<string>) {
    && |order| == |Scorers(g, symptoms)| && (forall n :: n in order <==> n in Scorers(g, symptoms))
    && forall i, j :: 0 <= i < j < |order| ==> MayPrecede(g, symptoms, onset, order[i], order[j])
  }

  /** The first `top` of the order, each with its part of what all nodes explain together. */
  ghost predicate ListsFirst(g: Graph, symptoms: set<string>, onset: map<string, real>, top: nat,
                             order: seq<string>, vs: seq<Verdict>) {
    && |vs| == (if top < |order| then top else |order|)
    && forall i :: 0 <= i < |vs| ==>
         && vs[i].pod == order[i] && vs[i].onset == Lookup(onset, order[i])
         && vs[i].score * SumBy(g.nodes, ScoreIn(g, symptoms)) == NodeScore(g, symptoms, order[i])
  }

  function PodsOf(xs: seq<Scored>): (pods: seq<string>)
    ensures |pods| == |xs| && forall i :: 0 <= i < |xs| ==> pods[i] == xs[i].pod
  {
    seq(|xs|, i requires 0 <= i < |xs| => xs[i].pod)
  }

  lemma SortedIsOrder(g: Graph, symptoms: set<string>, onset: map<string, real>, xs: seq<Scored>)
    requires Valid(g) && xs == Sort(Candidates(g, symptoms, g.nodes), Before(onset))
    ensures IsOrder(g, symptoms, onset, PodsOf(xs))
    ensures forall x :: x in xs ==> x.score == NodeScore(g, symptoms, x.pod)
  {
    hide NodeScore, Candidates, Sort, SumBy;
    RankedCandidates(g, symptoms, onset, xs);
    PodsAreCounted(xs);
    AllScorersRanked(g, symptoms, xs);
    var order := PodsOf(xs);
    forall i, j | 0 <= i < j < |xs|
      ensures MayPrecede(g, symptoms, onset, order[i], order[j])
    {
      assert Before(onset)(xs[i], xs[j]) && xs[i] in xs && xs[j] in xs;
    }
    hide MayPrecede;
    forall n
      ensures n in order <==> n in Scorers(g, symptoms)
    {
      if n in Scorers(g, symptoms) {
        var x :| x in xs && x.pod == n;
        var i :| 0 <= i < |xs| && xs[i] == x;
        assert order[i] == n;
      }
      if n in order {
        var i :| 0 <= i < |xs| && order[i] == n;
        assert xs[i] in xs;
      }
    }
  }

  /** There is an order of all the nodes that explain anything, by score and then by onset, of which the list is the
      beginning: as long as asked for or as the order is, with each pod's part of the whole. */
  lemma RankingIsTheTop(g: Graph, seeds: seq<string>, onset: map<string, real>, top: nat) returns (order: seq<string>)
    requires Valid(g)
    ensures !HasEdges(g) ==> RankingOf(g, seeds, onset, top) == []
    ensures HasEdges(g) ==> IsOrder(g, SeedSet(g, seeds), onset, order)
    ensures HasEdges(g) ==> ListsFirst(g, SeedSet(g, seeds), onset, top, order, RankingOf(g, seeds, onset, top))
  {
    hide NodeScore, Candidates, SeedSet, HasEdges, Sort, SumBy, Lookup, Before, IsOrder, ListsFirst;
    var symptoms := SeedSet(g, seeds);
    var scores := Candidates(g, symptoms, g.nodes);
    var ranked, total := Sort(scores, Before(onset)), SumBy(scores, ScoreOf);
    order := PodsOf(ranked);
    CandidatesArePositive(g, symptoms, g.nodes);
    CandidatesSum(g, symptoms, g.nodes);
    SortedIsOrder(g, symptoms, onset, ranked);
    SortIsPermutation(scores, Before(onset));
    if HasEdges(g) && scores != [] {
      var k := if top < |ranked| then top else |ranked|;
      assert RankingOf(g, seeds, onset, top) == Shares(ranked[..k], total, onset);
      SharesListFirst(g, symptoms, onset, top, ranked, k, total);
    } else if HasEdges(g) {
      NothingListsFirst(g, symptoms, onset, top, ranked);
    }
  }

  lemma NothingListsFirst(g: Graph, symptoms: set<string>, onset: map<string, real>, top: nat, xs: seq<Scored>)
    requires xs == []
    ensures ListsFirst(g, symptoms, onset, top, PodsOf(xs), [])
  {
  }

  lemma SharesListFirst(g: Graph, symptoms: set<string>, onset: map<string, real>, top: nat, xs: seq<Scored>,
                        k: nat, total: real)
    requires k == (if top < |xs| then top else |xs|) && total == SumBy(g.nodes, ScoreIn(g, symptoms)) > 0.0
    requires forall x :: x in xs ==> x.score == NodeScore(g, symptoms, x.pod)
    ensures ListsFirst(g, symptoms, onset, top, PodsOf(xs), Shares(xs[..k], total, onset))
  {
    hide NodeScore, SumBy, Lookup, ScoreIn;
    var vs := Shares(xs[..k], total, onset);
    forall i | 0 <= i < |vs|
      ensures vs[i].score * total == NodeScore(g, symptoms, xs[i].pod)
    {
      assert xs[i] in xs;
      ShareOfTotal(xs[i].score, total);
    }
  }

  lemma ShareOfTotal(x: real, total: real)
    requires total > 0.0
    ensures x / total * total == x
  {
  }

  lemma AllScorersRanked(g: Graph, symptoms: set<string>, ranked: seq<Scored>)
    requires Valid(g)
    requires forall x :: x in ranked <==>
               x.pod in g.nodes && x.score == NodeScore(g, symptoms, x.pod) && x.score > 0.0
    ensures (set x | x in ranked :: x.pod) == Scorers(g, symptoms)
  {
    hide NodeScore;
    forall n | n in Scorers(g, symptoms)
      ensures n in set x | x in ranked :: x.pod
    {
      assert Scored(n, NodeScore(g, symptoms, n)) in ranked;
    }
  }

  /** On a graph made of edges, a ranked pod is the source of one of them. */
  lemma RankedPodHasEdge(edges: seq<Edge>, seeds: seq<string>, onset: map<string, real>, top: nat, v: Verdict)
    requires forall e :: e in edges ==> Abs(e.r) <= 1.0
    requires v in RankingOf(GraphOf(edges), seeds, onset, top)
    ensures exists e :: e in edges && e.src == v.pod
  {
    var g := GraphOf(edges);
    hide RankingOf, Impact.BestImpact, GraphOf;
    GraphOfIsValid(edges);
    BoundedFromEdges(edges);
    EveryVerdictExplains(g, seeds, onset, top, v);
    if v.pod in SeedSet(g, seeds) && !HasCause(g, v.pod) {
      NodesAreEndpoints(edges, v.pod);
      var e :| e in edges && (e.src == v.pod || e.dst == v.pod);
      if e.src != v.pod {
        ArcIsLastEdge(edges, e.src, e.dst);
        LastEdgeIsMember(edges, e.src, e.dst);
        ArcBounds(g, e.src, e.dst);
      }
    } else {
      var s :| s in SeedSet(g, seeds) && s in Impact.BestImpact(g, v.pod);
      Impact.BestImpactIsBestWalk(g, v.pod, s);
      var p :| Joins(g, v.pod, s, p) && |p| >= 2 && Gain(g, p) >= CUT;
      assert ArcOf(g, p[0], p[1]).Some?;
      ArcIsLastEdge(edges, p[0], p[1]);
      LastEdgeIsMember(edges, p[0], p[1]);
    }
  }

  // A cause against its victim: one hop costs weight * DECAY, being a victim costs half.

  lemma CarryCommutes(x: real, v: real, w: real)
    ensures Carry(Carry(x, v), w) == Carry(Carry(x, w), v)
    ensures Carry(2.0 * x, v) == 2.0 * Carry(x, v)
  {
  }

  lemma CarryAdds(x: real, y: real, w: real)
    ensures Carry(x + y, w) == Carry(x, w) + Carry(y, w)
  {
  }

  lemma {:induction false} GainOfLongerWalk(g: Graph, a: string, p: seq<string>)
    requires a in g.adj && IsWalk(g, p) && ArcOf(g, a, p[0]).Some?
    ensures IsWalk(g, [a] + p) && Gain(g, [a] + p) == Carry(Gain(g, p), Weight(g, a, p[0]))
  {
    hide Carry;
    var q := [a] + p;
    if |p| == 1 {
      assert q[..1] == [a];
    } else {
      var front := p[..|p| - 1];
      assert q[..|q| - 1] == [a] + front;
      GainOfLongerWalk(g, a, front);
      CarryCommutes(Gain(g, front), Weight(g, a, p[0]), Weight(g, p[|p| - 2], p[|p| - 1]));
    }
  }

  /** What b reaches, a cause of b reaches too, one hop weaker. */
  lemma CauseReachesFurther(g: Graph, a: string, b: string, s: string)
    requires Valid(g) && Bounded(g) && a in g.adj && ArcOf(g, a, b).Some? && s in Impact.BestImpact(g, b)
    requires Carry(Impact.BestImpact(g, b)[s], Weight(g, a, b)) >= CUT
    ensures s in Impact.BestImpact(g, a)
    ensures Impact.BestImpact(g, a)[s] >= Carry(Impact.BestImpact(g, b)[s], Weight(g, a, b))
  {
    hide Impact.BestImpact, Carry, Valid, Bounded, Gain;
    ArcBounds(g, a, b);
    Impact.BestImpactIsBestWalk(g, b, s);
    var p :| Joins(g, b, s, p) && |p| >= 2 && Gain(g, p) == Impact.BestImpact(g, b)[s];
    GainOfLongerWalk(g, a, p);
    assert Joins(g, a, s, [a] + p);
    Impact.BestImpactIsBestWalk(g, a, s);
  }

  lemma {:induction false} SumByCarried<T>(xs: seq<T>, f: T -> real, h: T -> real, w: real)
    requires forall x :: x in xs ==> h(x) >= Carry(f(x), w)
    ensures SumBy(xs, h) >= Carry(SumBy(xs, f), w)
  {
    hide Carry;
    if xs == [] {
      CarryAdds(0.0, 0.0, w);
    } else {
      var front, x := xs[..|xs| - 1], xs[|xs| - 1];
      assert xs == front + [x];
      SumByCarried(front, f, h, w);
      CarryAdds(SumBy(front, f), f(x), w);
    }
  }

  /** No symptom that b reaches is lost one hop further up, at a. */
  ghost predicate NoneLost(g: Graph, symptoms: set<string>, a: string, b: string) {
    forall s :: s in symptoms && s in Impact.BestImpact(g, b) ==>
      Carry(Impact.BestImpact(g, b)[s], Weight(g, a, b)) >= CUT
  }

  lemma ReachCarries(g: Graph, symptoms: set<string>, a: string, b: string)
    requires Valid(g) && Bounded(g) && a in g.adj && ArcOf(g, a, b).Some? && NoneLost(g, symptoms, a, b)
    ensures SumBy(g.nodes, Explained(Impact.BestImpact(g, a), symptoms)) >=
            Carry(SumBy(g.nodes, Explained(Impact.BestImpact(g, b), symptoms)), Weight(g, a, b))
  {
    hide Impact.BestImpact, Carry;
    var w := Weight(g, a, b);
    ArcBounds(g, a, b);
    var fa, fb := Explained(Impact.BestImpact(g, a), symptoms), Explained(Impact.BestImpact(g, b), symptoms);
    forall s
      ensures fa(s) >= Carry(fb(s), w)
    {
      CarryAdds(0.0, 0.0, w);
      ImpactsArePositive(g, a, s);
      if s in symptoms && s in Impact.BestImpact(g, b) {
        CauseReachesFurther(g, a, b, s);
      }
    }
    SumByCarried(g.nodes, fb, fa, w);
  }

  /** An uncaused cause scores at least 1.4 * weight times its victim, unless a symptom is lost on
      the way. So from weight 5/7 on it is ranked no lower. */
  lemma CauseAgainstVictim(g: Graph, symptoms: set<string>, a: string, b: string)
    requires Valid(g) && Bounded(g) && a in g.adj && !HasCause(g, a) && ArcOf(g, a, b).Some?
    requires NoneLost(g, symptoms, a, b)
    ensures NodeScore(g, symptoms, a) >= 2.0 * Carry(NodeScore(g, symptoms, b), Weight(g, a, b))
    ensures Weight(g, a, b) >= 5.0 / 7.0 ==> NodeScore(g, symptoms, a) >= NodeScore(g, symptoms, b)
  {
    hide Impact.BestImpact, Carry, SumBy, NoneLost, Explained, Valid, Bounded;
    var w, x := Weight(g, a, b), NodeScore(g, symptoms, b);
    ReachCarries(g, symptoms, a, b);
    assert HasCause(g, b);
    CarryCommutes(x, w, w);
    ScoresAreNonNegative(g, symptoms, b);
    hide ArcOf, Weight;
    if w >= 5.0 / 7.0 {
      HalfPaysOneHop(x, w);
    }
  }

  lemma ScoresAreNonNegative(g: Graph, symptoms: set<string>, n: string)
    ensures NodeScore(g, symptoms, n) >= 0.0
  {
    SumByNonNegative(g.nodes, Explained(Impact.BestImpact(g, n), symptoms));
  }

  lemma ImpactsArePositive(g: Graph, a: string, s: string)
    ensures s in Impact.BestImpact(g, a) ==> Impact.BestImpact(g, a)[s] >= CUT
  {
  }

  lemma HalfPaysOneHop(x: real, w: real)
    requires x >= 0.0 && w >= 5.0 / 7.0
    ensures 2.0 * Carry(x, w) >= x
  {
    assert x * w >= x * (5.0 / 7.0);
  }

  // The other half: below 5/7 a cause with that one effect is outranked.

  /** a points at b and at nothing else. */
  ghost predicate OnlyArc(g: Graph, a: string, b: string) {
    ArcOf(g, a, b).Some? && forall v :: ArcOf(g, a, v).Some? ==> v == b
  }

  /** What a reaches beyond its only successor, the successor reaches one hop more strongly. */
  lemma CauseReachesNoFurther(g: Graph, a: string, b: string, s: string)
    requires Valid(g) && Bounded(g) && a in g.adj && b in g.adj && OnlyArc(g, a, b)
    requires s != b && s in Impact.BestImpact(g, a)
    ensures s in Impact.BestImpact(g, b)
    ensures CUT <= Impact.BestImpact(g, a)[s] <= Carry(Impact.BestImpact(g, b)[s], Weight(g, a, b))
  {
    hide Impact.BestImpact, Carry, Bounded, Valid, Gain;
    ArcBounds(g, a, b);
    Impact.BestImpactIsBestWalk(g, a, s);
    var p :| Joins(g, a, s, p) && |p| >= 2 && Gain(g, p) == Impact.BestImpact(g, a)[s];
    var q := p[1..];
    assert ArcOf(g, p[0], p[0 + 1]).Some?;
    assert p == [a] + q;
    TailIsWalk(g, p);
    GainOfLongerWalk(g, a, q);
    GainBound(g, q);
    CarryBounds(Gain(g, q), Weight(g, a, b));
    assert Joins(g, b, s, q);
    Impact.BestImpactIsBestWalk(g, b, s);
    CarryMonotone(Gain(g, q), Impact.BestImpact(g, b)[s], Weight(g, a, b));
  }

  lemma TailIsWalk(g: Graph, p: seq<string>)
    requires Valid(g) && IsWalk(g, p) && |p| >= 2
    ensures IsWalk(g, p[1..])
  {
    WalkStaysInside(g, p);
    forall i | 0 <= i < |p[1..]| - 1
      ensures ArcOf(g, p[1..][i], p[1..][i + 1]).Some?
    {
      assert ArcOf(g, p[i + 1], p[i + 1 + 1]).Some?;
    }
  }

  lemma {:induction false} SumByCarriedAtMost<T>(xs: seq<T>, f: T -> real, h: T -> real, w: real)
    requires forall x :: x in xs ==> h(x) <= Carry(f(x), w)
    ensures SumBy(xs, h) <= Carry(SumBy(xs, f), w)
  {
    hide Carry;
    if xs == [] {
      CarryAdds(0.0, 0.0, w);
    } else {
      var front, x := xs[..|xs| - 1], xs[|xs| - 1];
      assert xs == front + [x];
      SumByCarriedAtMost(front, f, h, w);
      CarryAdds(SumBy(front, f), f(x), w);
    }
  }

  /** The symptoms that b reaches strongly enough to be reached from a as well. */
  ghost function Surviving(g: Graph, symptoms: set<string>, a: string, b: string): set<string> {
    set s | s in symptoms && s in Impact.BestImpact(g, b) && Carry(Impact.BestImpact(g, b)[s], Weight(g, a, b)) >= CUT
  }

  /** What n explains of a set of symptoms. */
  ghost function Reach(g: Graph, symptoms: set<string>, n: string): real {
    SumBy(g.nodes, Explained(Impact.BestImpact(g, n), symptoms))
  }

  /** What a explains is what b explains of the surviving symptoms, one hop weaker. */
  lemma ReachIsCarried(g: Graph, symptoms: set<string>, a: string, b: string)
    requires Valid(g) && Bounded(g) && a in g.adj && OnlyArc(g, a, b) && b !in symptoms
    ensures Reach(g, symptoms, a) == Carry(Reach(g, Surviving(g, symptoms, a, b), b), Weight(g, a, b))
  {
    hide Impact.BestImpact, Carry, SumBy, Valid, Bounded;
    var w, kept := Weight(g, a, b), Surviving(g, symptoms, a, b);
    ArcBounds(g, a, b);
    var fa, fb := Explained(Impact.BestImpact(g, a), symptoms), Explained(Impact.BestImpact(g, b), kept);
    forall s
      ensures fa(s) == Carry(fb(s), w)
    {
      CarryAdds(0.0, 0.0, w);
      if s in kept {
        CauseReachesFurther(g, a, b, s);
      }
      if s in symptoms && s in Impact.BestImpact(g, a) {
        CauseReachesNoFurther(g, a, b, s);
      }
    }
    SumByCarried(g.nodes, fb, fa, w);
    SumByCarriedAtMost(g.nodes, fb, fa, w);
  }

  lemma SurvivingReach(g: Graph, symptoms: set<string>, a: string, b: string)
    ensures 0.0 <= Reach(g, Surviving(g, symptoms, a, b), b) <= Reach(g, symptoms, b)
    ensures NoneLost(g, symptoms, a, b) ==> Reach(g, Surviving(g, symptoms, a, b), b) == Reach(g, symptoms, b)
  {
    hide Impact.Best, Carry;
    var all := Explained(Impact.BestImpact(g, b), symptoms);
    var kept := Explained(Impact.BestImpact(g, b), Surviving(g, symptoms, a, b));
    forall s
      ensures 0.0 <= kept(s) <= all(s)
    {
      ImpactsArePositive(g, b, s);
    }
    SumByNonNegative(g.nodes, kept);
    SumByMonotone(g.nodes, kept, all);
    if NoneLost(g, symptoms, a, b) {
      SumByCongruence(g.nodes, kept, all);
    }
  }

  lemma {:induction false} SumByMonotone<T>(xs: seq<T>, f: T -> real, h: T -> real)
    requires forall x :: x in xs ==> f(x) <= h(x)
    ensures SumBy(xs, f) <= SumBy(xs, h)
  {
    if xs == [] {
    } else {
      var front := xs[..|xs| - 1];
      assert xs == front + [xs[|xs| - 1]];
      SumByMonotone(front, f, h);
    }
  }

  /** A node whose one arc goes to b reaches b over it, and over nothing stronger. */
  lemma SuccessorImpact(g: Graph, a: string, b: string)
    requires Valid(g) && Bounded(g) && a in g.adj && OnlyArc(g, a, b)
    ensures b in Impact.BestImpact(g, a) <==> Carry(1.0, Weight(g, a, b)) >= CUT
    ensures b in Impact.BestImpact(g, a) ==> Impact.BestImpact(g, a)[b] == Carry(1.0, Weight(g, a, b))
  {
    hide Impact.BestImpact, Carry, Valid, Bounded, Gain;
    var w := Weight(g, a, b);
    ArcBounds(g, a, b);
    Impact.BestImpactIsBestWalk(g, a, b);
    OneHop(g, a, b);
    forall p | Joins(g, a, b, p) && |p| >= 2
      ensures Gain(g, p) <= Carry(1.0, w)
    {
      var q := p[1..];
      assert ArcOf(g, p[0], p[0 + 1]).Some?;
      assert p == [a] + q;
      TailIsWalk(g, p);
      GainOfLongerWalk(g, a, q);
      GainBound(g, q);
      PowDecayShrinks(|q| - 1);
      CarryMonotone(Gain(g, q), 1.0, w);
    }
  }

  /** Beyond its one successor a node reaches what the successor reaches, one hop weaker. */
  lemma ImpactBeyond(g: Graph, a: string, b: string, s: string)
    requires Valid(g) && Bounded(g) && a in g.adj && b in g.adj && OnlyArc(g, a, b) && s != b
    ensures s in Impact.BestImpact(g, a) <==>
            s in Impact.BestImpact(g, b) && Carry(Impact.BestImpact(g, b)[s], Weight(g, a, b)) >= CUT
    ensures s in Impact.BestImpact(g, a) ==>
            Impact.BestImpact(g, a)[s] == Carry(Impact.BestImpact(g, b)[s], Weight(g, a, b))
  {
    hide Impact.BestImpact, Carry, Valid, Bounded;
    if s in Impact.BestImpact(g, a) {
      CauseReachesNoFurther(g, a, b, s);
    }
    if s in Impact.BestImpact(g, b) && Carry(Impact.BestImpact(g, b)[s], Weight(g, a, b)) >= CUT {
      CauseReachesFurther(g, a, b, s);
    }
  }

  lemma {:induction false} SumByDiffersAtOne<T>(xs: seq<T>, f: T -> real, h: T -> real, x: T)
    requires Distinct(xs) && x in xs && forall y :: y in xs && y != x ==> f(y) == h(y)
    ensures SumBy(xs, f) == SumBy(xs, h) + f(x) - h(x)
  {
    var front, last := xs[..|xs| - 1], xs[|xs| - 1];
    assert xs == front + [last];
    if last == x {
      SumByCongruence(front, f, h);
    } else {
      SumByDiffersAtOne(front, f, h, x);
    }
  }

  /** What n explains is what it explains of the other symptoms and what it explains of b. */
  lemma ReachSplits(g: Graph, symptoms: set<string>, n: string, b: string)
    requires Valid(g) && b in g.adj
    ensures Reach(g, symptoms, n) ==
            Reach(g, symptoms - {b}, n) + Explained(Impact.BestImpact(g, n), symptoms)(b)
  {
    hide Impact.BestImpact;
    var all, rest := Explained(Impact.BestImpact(g, n), symptoms), Explained(Impact.BestImpact(g, n), symptoms - {b});
    SumByDiffersAtOne(g.nodes, all, rest, b);
  }

  /** What a explains over its one arc: of b itself, if that is a symptom that survives the hop, and, one hop
      weaker, what b explains of the other symptoms that survive it. */
  ghost function ReachOver(g: Graph, symptoms: set<string>, a: string, b: string): real {
    var w := Weight(g, a, b);
    (if b in symptoms && Carry(1.0, w) >= CUT then Carry(1.0, w) else 0.0)
    + Carry(Reach(g, Surviving(g, symptoms - {b}, a, b), b), w)
  }

  lemma ReachIsOverArc(g: Graph, symptoms: set<string>, a: string, b: string)
    requires Valid(g) && Bounded(g) && a in g.adj && OnlyArc(g, a, b)
    ensures Reach(g, symptoms, a) == ReachOver(g, symptoms, a, b)
  {
    hide Impact.BestImpact, Carry, Reach, Surviving, Valid, Bounded;
    ArcBounds(g, a, b);
    ReachSplits(g, symptoms, a, b);
    ReachIsCarried(g, symptoms - {b}, a, b);
    SuccessorImpact(g, a, b);
  }

  /** Exactly when a cause with one effect is ranked no lower than it: when what it explains over that arc makes up
      for all that the effect explains; if nothing points at the cause that counts twice, with a bonus of 2 for being
      a symptom. */
  lemma CauseOutranksVictimIff(g: Graph, symptoms: set<string>, a: string, b: string)
    requires Valid(g) && Bounded(g) && a in g.adj && OnlyArc(g, a, b)
    ensures NodeScore(g, symptoms, a) >= NodeScore(g, symptoms, b) <==>
            (if HasCause(g, a) then ReachOver(g, symptoms, a, b)
             else 2.0 * ((if a in symptoms then 1.0 else 0.0) + ReachOver(g, symptoms, a, b))) >= Reach(g, symptoms, b)
  {
    hide Impact.BestImpact, SumBy, Explained, ReachOver;
    ReachIsOverArc(g, symptoms, a, b);
    assert HasCause(g, b);
  }

  /** An uncaused cause, neither it nor its effect being a symptom: when twice what it carries over of the surviving
      symptoms makes up for all that its victim explains. */
  lemma OutranksUnlessSymptomIff(g: Graph, symptoms: set<string>, a: string, b: string)
    requires Valid(g) && Bounded(g) && a in g.adj && !HasCause(g, a) && OnlyArc(g, a, b)
    requires a !in symptoms && b !in symptoms
    ensures NodeScore(g, symptoms, a) >= NodeScore(g, symptoms, b) <==>
            2.0 * Carry(Reach(g, Surviving(g, symptoms, a, b), b), Weight(g, a, b)) >= Reach(g, symptoms, b)
  {
    hide Carry, Reach, Surviving, NodeScore, HasCause, Valid, Bounded, OnlyArc;
    CauseOutranksVictimIff(g, symptoms, a, b);
    assert symptoms - {b} == symptoms;
  }

  /** So a cause whose one arc is weaker than 5/7 is ranked below any victim that explains something. */
  lemma WeakCauseIsOutranked(g: Graph, symptoms: set<string>, a: string, b: string)
    requires Valid(g) && Bounded(g) && a in g.adj && !HasCause(g, a) && OnlyArc(g, a, b)
    requires a !in symptoms && b !in symptoms && NodeScore(g, symptoms, b) > 0.0
    requires Weight(g, a, b) < 5.0 / 7.0
    ensures NodeScore(g, symptoms, a) < NodeScore(g, symptoms, b)
  {
    hide Impact.BestImpact, Carry, SumBy, Explained, Surviving;
    assert HasCause(g, b);
    var w, all, kept := Weight(g, a, b), Reach(g, symptoms, b), Reach(g, Surviving(g, symptoms, a, b), b);
    assert NodeScore(g, symptoms, b) == all * UPSTREAM_PENALTY;
    hide Reach, NodeScore;
    OutranksUnlessSymptomIff(g, symptoms, a, b);
    SurvivingReach(g, symptoms, a, b);
    ArcBounds(g, a, b);
    CarryMonotone(kept, all, w);
    HopCostsMoreThanHalf(all, w);
  }

  lemma HopCostsMoreThanHalf(x: real, w: real)
    requires x > 0.0 && w < 5.0 / 7.0
    ensures 2.0 * Carry(x, w) < x
  {
    assert x * w < x * (5.0 / 7.0);
  }

  /** The weight from which a cause makes up for a victim that explains `all`: own is 1 if the victim is a symptom,
      bonus is 2 if the cause is one. */
  function Threshold(all: real, own: real, bonus: real): real
    requires all + own > 0.0
  {
    5.0 / 7.0 * ((all - bonus) / (all + own))
  }

  /** Where no symptom is lost on the hop there is an exact threshold on its weight: 5/7, lowered if the victim is
      a symptom, which its cause explains and it does not explain itself, and if the cause is one. */
  lemma ThresholdWhenNoneLost(g: Graph, symptoms: set<string>, a: string, b: string)
    requires Valid(g) && Bounded(g) && a in g.adj && !HasCause(g, a) && OnlyArc(g, a, b)
    requires NoneLost(g, symptoms, a, b) && (Reach(g, symptoms, b) > 0.0 || b in symptoms)
    requires b in symptoms ==> b !in Impact.BestImpact(g, b) && Carry(1.0, Weight(g, a, b)) >= CUT
    ensures var all := Reach(g, symptoms, b);
            var own, bonus := if b in symptoms then 1.0 else 0.0, if a in symptoms then 2.0 else 0.0;
            && all + own > 0.0
            && (NodeScore(g, symptoms, a) >= NodeScore(g, symptoms, b) <==>
                Weight(g, a, b) >= Threshold(all, own, bonus))
    ensures a !in symptoms && b !in symptoms ==>
              (NodeScore(g, symptoms, a) >= NodeScore(g, symptoms, b) <==> Weight(g, a, b) >= 5.0 / 7.0)
  {
    hide Impact.BestImpact, Carry, SumBy, Explained, Surviving, NodeScore, Valid, Bounded, OnlyArc, HasCause, Weight;
    var w, all := Weight(g, a, b), Reach(g, symptoms, b);
    var own, bonus := if b in symptoms then 1.0 else 0.0, if a in symptoms then 2.0 else 0.0;
    CauseOutranksVictimIff(g, symptoms, a, b);
    NothingLostOver(g, symptoms, a, b);
    SurvivingReach(g, symptoms, a, b);
    hide Reach, ReachOver, NoneLost, Threshold;
    ThresholdMeans(all, own, bonus, w);
  }

  lemma NothingLostOver(g: Graph, symptoms: set<string>, a: string, b: string)
    requires Valid(g) && Bounded(g) && a in g.adj && OnlyArc(g, a, b) && NoneLost(g, symptoms, a, b)
    requires b in symptoms ==> b !in Impact.BestImpact(g, b) && Carry(1.0, Weight(g, a, b)) >= CUT
    ensures ReachOver(g, symptoms, a, b) ==
            Carry(Reach(g, symptoms, b) + if b in symptoms then 1.0 else 0.0, Weight(g, a, b))
  {
    hide Impact.BestImpact, Carry, SumBy, Surviving, Valid, Bounded;
    var w := Weight(g, a, b);
    ArcBounds(g, a, b);
    ReachSplits(g, symptoms, b, b);
    SurvivingReach(g, symptoms - {b}, a, b);
    CarryAdds(Reach(g, symptoms, b), if b in symptoms then 1.0 else 0.0, w);
    CarryAdds(0.0, 0.0, w);
  }

  lemma ThresholdMeans(all: real, own: real, bonus: real, w: real)
    requires all >= 0.0 && own >= 0.0 && all + own > 0.0
    ensures 2.0 * (bonus / 2.0 + Carry(all + own, w)) >= all <==> w >= Threshold(all, own, bonus)
    ensures own == 0.0 && bonus == 0.0 ==> Threshold(all, own, bonus) == 5.0 / 7.0
  {
    var x := all + own;
    var q := (all - bonus) / x;
    assert q * x == all - bonus;
    var t := 5.0 / 7.0 * q;
    assert t * x == 5.0 / 7.0 * (all - bonus);
    if w >= t {
      Statistics.ProductOrder(t, w, x);
    } else {
      assert (t - w) * x > 0.0;
    }
    assert Carry(x, w) == w * x * DECAY;
    if own == 0.0 && bonus == 0.0 {
      assert q == 1.0;
    }
  }

  // Chains of a cause, a victim and a symptom.

  /** a -> b -> c with weights v and w, and nothing else. */
  ghost predicate IsChain(g: Graph, a: string, b: string, c: string, v: real, w: real) {
    && a != b && a != c && b != c && Valid(g) && Bounded(g)
    && a in g.adj && b in g.adj && c in g.adj
    && (forall x, y :: ArcOf(g, x, y).Some? <==> (x == a && y == b) || (x == b && y == c))
    && Weight(g, a, b) == v && Weight(g, b, c) == w
  }

  lemma ChainArc(g: Graph, a: string, b: string, c: string, v: real, w: real, p: seq<string>, i: nat)
    requires IsChain(g, a, b, c, v, w) && IsWalk(g, p)
    ensures i < |p| - 1 ==> (p[i] == a && p[i + 1] == b) || (p[i] == b && p[i + 1] == c)
  {
    hide ArcOf, Valid, Bounded;
    if i < |p| - 1 {
      assert ArcOf(g, p[i], p[i + 1]).Some?;
    }
  }

  /** b reaches c over their arc and in no other way. */
  lemma ChainEnd(g: Graph, a: string, b: string, c: string, v: real, w: real)
    requires IsChain(g, a, b, c, v, w)
    ensures c in Impact.BestImpact(g, b) <==> Carry(1.0, w) >= CUT
    ensures c in Impact.BestImpact(g, b) ==> Impact.BestImpact(g, b)[c] == Carry(1.0, w)
  {
    hide ArcOf, Impact.BestImpact, Carry;
    SuccessorImpact(g, b, c);
  }

  lemma ChainArcs(g: Graph, a: string, b: string, c: string, v: real, w: real)
    requires IsChain(g, a, b, c, v, w)
    ensures OnlyArc(g, a, b) && !HasCause(g, a) && a !in {c} && b !in {c}
  {
    hide ArcOf, Valid, Bounded;
  }

  /** On a chain that explains its symptom c, the cause a is ranked no lower than the victim b exactly
      when the first hop weighs at least 5/7 and the symptom survives it. */
  lemma ChainVerdictIff(g: Graph, a: string, b: string, c: string, v: real, w: real)
    requires IsChain(g, a, b, c, v, w) && Carry(1.0, w) >= CUT
    ensures NodeScore(g, {c}, a) >= NodeScore(g, {c}, b) <==> v >= 5.0 / 7.0 && Carry(Carry(1.0, w), v) >= CUT
  {
    ChainArcs(g, a, b, c, v, w);
    ChainEnd(g, a, b, c, v, w);
    assert Valid(g) && Bounded(g) && a in g.adj && b in g.adj && Weight(g, a, b) == v;
    hide IsChain, Valid, Bounded, NodeScore, Carry, Impact.BestImpact, HasCause, OnlyArc, Weight;
    PositiveScoreExplains(g, {c}, b);
    PositiveScoreExplains(g, {c}, a);
    if Carry(Carry(1.0, w), v) >= CUT {
      ThresholdWhenNoneLost(g, {c}, a, b);
    } else {
      if c in Impact.BestImpact(g, a) {
        CauseReachesNoFurther(g, a, b, c);
      }
    }
  }

  function ChainOf(a: string, b: string, c: string, v: real, w: real): seq<Edge> {
    [Edge(a, b, v, 0, []), Edge(b, c, w, 0, [])]
  }

  lemma ChainShape(a: string, b: string, c: string, v: real, w: real)
    requires a != b && a != c && b != c && 0.0 <= v <= 1.0 && 0.0 <= w <= 1.0
    ensures IsChain(GraphOf(ChainOf(a, b, c, v, w)), a, b, c, v, w)
  {
    hide GraphOf, Bounded, Valid;
    var es := ChainOf(a, b, c, v, w);
    GraphOfIsValid(es);
    BoundedFromEdges(es);
    assert es[..1] == [es[0]] && es[..1][..0] == [];
    forall x, y
      ensures ArcOf(GraphOf(es), x, y) ==
              if x == b && y == c then Some(Arc(c, w, 0)) else if x == a && y == b then Some(Arc(b, v, 0)) else None
    {
      ArcIsLastEdge(es, x, y);
      assert LastEdge(es[..1], x, y) == if x == a && y == b then Some(es[0]) else None;
      assert LastEdge(es, x, y) == if x == b && y == c then Some(es[1]) else LastEdge(es[..1], x, y);
    }
    ArcBounds(GraphOf(es), a, b);
    ArcBounds(GraphOf(es), b, c);
  }

  /** Under a weak first hop the victim is ranked above its cause: a -> b (0.5) -> c (1.0), symptom c. */
  lemma VictimCanOutrankCause(a: string, b: string, c: string)
    requires a != b && a != c && b != c
    ensures var g := GraphOf(ChainOf(a, b, c, 0.5, 1.0));
            ArcOf(g, a, b).Some? && !HasCause(g, a) && NodeScore(g, {c}, a) < NodeScore(g, {c}, b)
  {
    var g := GraphOf(ChainOf(a, b, c, 0.5, 1.0));
    ChainShape(a, b, c, 0.5, 1.0);
    ChainArcs(g, a, b, c, 0.5, 1.0);
    assert Carry(1.0, 1.0) == DECAY;
    hide GraphOf, NodeScore, IsChain, HasCause;
    ChainVerdictIff(g, a, b, c, 0.5, 1.0);
  }

  /** Above 5/7 the cut can still take a symptom from the cause: a -> b (0.8) -> x (0.5) -> d (0.8), symptom d. */
  ghost predicate IsLongChain(g: Graph, a: string, b: string, x: string, d: string) {
    && Valid(g) && Bounded(g) && a in g.adj && b in g.adj && x in g.adj
    && !HasCause(g, a) && OnlyArc(g, a, b) && OnlyArc(g, b, x) && OnlyArc(g, x, d)
    && Weight(g, a, b) == 0.8 && Weight(g, b, x) == 0.5 && Weight(g, x, d) == 0.8
  }

  lemma StrongCauseCanBeOutranked(g: Graph, a: string, b: string, x: string, d: string)
    requires IsLongChain(g, a, b, x, d) && d != x && d != a && d != b
    ensures NodeScore(g, {d}, a) < NodeScore(g, {d}, b)
  {
    hide Impact.BestImpact, Carry, NodeScore, Valid, Bounded, HasCause, OnlyArc, Weight;
    LongChainLevels();
    SuccessorImpact(g, x, d);
    ImpactBeyond(g, b, x, d);
    ImpactBeyond(g, a, b, d);
    PositiveScoreExplains(g, {d}, a);
    PositiveScoreExplains(g, {d}, b);
  }

  lemma LongChainLevels()
    ensures Carry(1.0, 0.8) >= CUT && Carry(Carry(1.0, 0.8), 0.5) >= CUT
    ensures Carry(Carry(Carry(1.0, 0.8), 0.5), 0.8) < CUT
  {
  }

  function LongChain(a: string, b: string, x: string, d: string): seq<Edge> {
    [Edge(a, b, 0.8, 0, []), Edge(b, x, 0.5, 0, []), Edge(x, d, 0.8, 0, [])]
  }

  /** Three edges, each as strong as a pass makes them, are such a chain. */
  lemma LongChainShape(a: string, b: string, x: string, d: string)
    requires a != b && a != x && a != d && b != x && b != d && x != d
    ensures IsLongChain(GraphOf(LongChain(a, b, x, d)), a, b, x, d)
  {
    hide GraphOf, Bounded, Valid;
    var es := LongChain(a, b, x, d);
    GraphOfIsValid(es);
    BoundedFromEdges(es);
    assert es[..2][..1] == [es[0]] && [es[0]][..0] == [];
    forall u, v
      ensures ArcOf(GraphOf(es), u, v) ==
              if u == x && v == d then Some(Arc(d, 0.8, 0))
              else if u == b && v == x then Some(Arc(x, 0.5, 0))
              else if u == a && v == b then Some(Arc(b, 0.8, 0)) else None
    {
      ArcIsLastEdge(es, u, v);
      assert LastEdge(es[..2][..1], u, v) == if u == a && v == b then Some(es[0]) else None;
      assert LastEdge(es[..2], u, v) == if u == b && v == x then Some(es[1]) else LastEdge(es[..2][..1], u, v);
    }
    var g := GraphOf(es);
    ArcBounds(g, a, b);
    ArcBounds(g, b, x);
    ArcBounds(g, x, d);
    assert ArcOf(g, a, b) == Some(Arc(b, 0.8, 0)) && ArcOf(g, b, x) == Some(Arc(x, 0.5, 0));
  }
}
