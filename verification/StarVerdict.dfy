/** A cause whose one victim is itself a symptom, as the victim of every write-evidenced edge is in a pass without
    a breach list: which of the two is ranked higher when the victim has n effects of its own. */
module StarVerdict {
  import opened Common
  import opened Digraph
  import Impact
  import Ranking

  /** a -> b with weight v, b -> every leaf with weight 1, and nothing else. */
  ghost predicate IsStar(g: Graph, a: string, b: string, leaves: seq<string>, v: real) {
    && Valid(g) && Bounded(g) && g.nodes == [a, b] + leaves
    && (forall x, y :: ArcOf(g, x, y).Some? <==> (x == a && y == b) || (x == b && y in leaves))
    && Weight(g, a, b) == v && forall y :: y in leaves ==> Weight(g, b, y) == 1.0
  }

  ghost function Victims(b: string, leaves: seq<string>): set<string> {
    {b} + set y | y in leaves
  }

  lemma StarArcs(g: Graph, a: string, b: string, leaves: seq<string>, v: real)
    requires IsStar(g, a, b, leaves, v)
    ensures a in g.adj && b in g.adj && a != b && a !in leaves && b !in leaves && Distinct(leaves)
    ensures Ranking.OnlyArc(g, a, b) && !HasCause(g, a) && Weight(g, a, b) == v
  {
    hide ArcOf, Bounded;
    assert g.nodes[0] == a && g.nodes[1] == b && g.nodes[2..] == leaves;
  }

  lemma StarHop(g: Graph, a: string, b: string, leaves: seq<string>, v: real, p: seq<string>, i: nat)
    requires IsStar(g, a, b, leaves, v) && IsWalk(g, p)
    ensures i < |p| - 1 ==> (p[i] == a && p[i + 1] == b) || (p[i] == b && p[i + 1] in leaves)
  {
    hide ArcOf, Valid, Bounded;
    if i < |p| - 1 {
      assert ArcOf(g, p[i], p[i + 1]).Some?;
    }
  }

  /** The victim reaches exactly its leaves, each over its own arc. */
  lemma LeafImpact(g: Graph, a: string, b: string, leaves: seq<string>, v: real, s: string)
    requires IsStar(g, a, b, leaves, v)
    ensures s in Impact.BestImpact(g, b) <==> s in leaves
    ensures s in leaves ==> Impact.BestImpact(g, b)[s] == DECAY
  {
    hide Impact.BestImpact, ArcOf, Valid, Bounded, Weight, Gain;
    StarArcs(g, a, b, leaves, v);
    Impact.BestImpactIsBestWalk(g, b, s);
    forall p | Joins(g, b, s, p) && |p| >= 2
      ensures s in leaves && p == [b, s]
    {
      StarHop(g, a, b, leaves, v, p, 0);
      StarHop(g, a, b, leaves, v, p, 1);
    }
    if s in leaves {
      OneHop(g, b, s);
      assert Carry(1.0, 1.0) == DECAY;
    }
  }

  lemma {:induction false} SumOfConstant(xs: seq<string>, f: string -> real, x: real)
    requires forall y :: y in xs ==> f(y) == x
    ensures SumBy(xs, f) == |xs| as real * x
  {
    if xs == [] {
    } else {
      var front := xs[..|xs| - 1];
      assert xs == front + [xs[|xs| - 1]];
      SumOfConstant(front, f, x);
    }
  }

  function PerLeaf(n: nat): real {
    n as real * DECAY
  }

  /** So it explains 0.7 for every leaf. */
  lemma StarReach(g: Graph, a: string, b: string, leaves: seq<string>, v: real)
    requires IsStar(g, a, b, leaves, v)
    ensures Ranking.Reach(g, Victims(b, leaves), b) == PerLeaf(|leaves|)
    ensures b !in Impact.BestImpact(g, b)
  {
    hide Impact.BestImpact, ArcOf, Valid, Bounded, Weight;
    StarArcs(g, a, b, leaves, v);
    LeafImpact(g, a, b, leaves, v, b);
    LeafImpact(g, a, b, leaves, v, a);
    var f := Ranking.Explained(Impact.BestImpact(g, b), Victims(b, leaves));
    forall s | s in leaves
      ensures f(s) == DECAY
    {
      LeafImpact(g, a, b, leaves, v, s);
    }
    SumByConcat([a, b], leaves, f);
    SumByZero([a, b], f);
    SumOfConstant(leaves, f, DECAY);
  }

  function StarThreshold(n: nat): real {
    5.0 * n as real / (10.0 + 7.0 * n as real)
  }

  /** With every node but the cause a symptom, and every leaf in reach of the cause, the cause is ranked no lower
      exactly from weight 5n / (10 + 7n) on. */
  lemma StarVerdictIff(g: Graph, a: string, b: string, leaves: seq<string>, v: real)
    requires IsStar(g, a, b, leaves, v) && Carry(DECAY, v) >= CUT
    ensures Ranking.NodeScore(g, Victims(b, leaves), a) >= Ranking.NodeScore(g, Victims(b, leaves), b) <==>
            v >= StarThreshold(|leaves|)
  {
    StarFacts(g, a, b, leaves, v);
    hide *;
    Ranking.ThresholdWhenNoneLost(g, Victims(b, leaves), a, b);
    ThresholdOfStar(|leaves|);
  }

  lemma StarFacts(g: Graph, a: string, b: string, leaves: seq<string>, v: real)
    requires IsStar(g, a, b, leaves, v) && Carry(DECAY, v) >= CUT
    ensures Valid(g) && Bounded(g) && a in g.adj && !HasCause(g, a) && Ranking.OnlyArc(g, a, b) && Weight(g, a, b) == v
    ensures Ranking.NoneLost(g, Victims(b, leaves), a, b) && Carry(1.0, v) >= CUT
    ensures a !in Victims(b, leaves) && b in Victims(b, leaves) && b !in Impact.BestImpact(g, b)
    ensures Ranking.Reach(g, Victims(b, leaves), b) == PerLeaf(|leaves|)
  {
    StarArcs(g, a, b, leaves, v);
    StarReach(g, a, b, leaves, v);
    NoLeafIsLost(g, a, b, leaves, v);
    hide Impact.BestImpact, Ranking.NoneLost, Ranking.Reach, HasCause, Ranking.OnlyArc, PerLeaf;
  }

  lemma NoLeafIsLost(g: Graph, a: string, b: string, leaves: seq<string>, v: real)
    requires IsStar(g, a, b, leaves, v) && Carry(DECAY, v) >= CUT
    ensures Ranking.NoneLost(g, Victims(b, leaves), a, b)
  {
    hide Impact.BestImpact, ArcOf, Valid, Bounded, Carry;
    forall s | s in Impact.BestImpact(g, b)
      ensures Carry(Impact.BestImpact(g, b)[s], Weight(g, a, b)) >= CUT
    {
      LeafImpact(g, a, b, leaves, v, s);
    }
  }

  lemma ThresholdOfStar(k: nat)
    ensures PerLeaf(k) + 1.0 > 0.0 && Ranking.Threshold(PerLeaf(k), 1.0, 0.0) == StarThreshold(k)
  {
    var n := k as real;
    var x, y := n * DECAY + 1.0, 10.0 + 7.0 * n;
    var q, r := n * DECAY / x, 5.0 * n / y;
    assert q * x == n * DECAY && r * y == 5.0 * n && y == 10.0 * x;
    assert (r - 5.0 / 7.0 * q) * x == 0.0;
  }

  // Such graphs come from edges.

  function StarOf(a: string, b: string, leaves: seq<string>, v: real): (es: seq<Edge>)
    ensures |es| == |leaves| + 1
  {
    if leaves == [] then [Edge(a, b, v, 0, [])]
    else StarOf(a, b, leaves[..|leaves| - 1], v) + [Edge(b, leaves[|leaves| - 1], 1.0, 0, [])]
  }

  lemma DistinctFront<T>(xs: seq<T>, x: T)
    requires Distinct(xs + [x])
    ensures Distinct(xs) && x !in xs
  {
    var all := xs + [x];
    assert all[|xs|] == x && forall i :: 0 <= i < |xs| ==> all[i] == xs[i];
  }

  lemma {:induction false} StarNodes(a: string, b: string, leaves: seq<string>, v: real)
    requires Distinct([a, b] + leaves)
    ensures GraphOf(StarOf(a, b, leaves, v)).nodes == [a, b] + leaves
  {
    hide SetArc;
    var es := StarOf(a, b, leaves, v);
    if leaves == [] {
      assert GraphOf(es) == AddEdge(Graph([], map[]), es[0]);
      assert ([a, b] + leaves)[0] == a && ([a, b] + leaves)[1] == b;
      assert AddNode(AddNode(Graph([], map[]), a), b).nodes == [a, b] + leaves;
    } else {
      var front, last := leaves[..|leaves| - 1], leaves[|leaves| - 1];
      var rest := StarOf(a, b, front, v);
      assert [a, b] + leaves == [a, b] + front + [last] && es[..|es| - 1] == rest;
      DistinctFront([a, b] + front, last);
      StarNodes(a, b, front, v);
      GraphOfIsValid(rest);
      AddLeaf(GraphOf(rest), es[|es| - 1]);
    }
  }

  lemma AddLeaf(g: Graph, e: Edge)
    requires Valid(g) && e.src in g.nodes && e.dst !in g.nodes
    ensures AddEdge(g, e).nodes == g.nodes + [e.dst]
  {
    hide SetArc;
  }

  lemma {:induction false} StarEdges(a: string, b: string, leaves: seq<string>, v: real)
    requires Distinct([a, b] + leaves) && 0.0 <= v <= 1.0
    ensures forall e :: e in StarOf(a, b, leaves, v) ==> 0.0 <= e.r <= 1.0
    ensures forall x, y :: LastEdge(StarOf(a, b, leaves, v), x, y) ==
              if x == b && y in leaves then Some(Edge(b, y, 1.0, 0, []))
              else if x == a && y == b then Some(Edge(a, b, v, 0, [])) else None
  {
    var es := StarOf(a, b, leaves, v);
    if leaves == [] {
      assert es[..0] == [];
    } else {
      var front, last := leaves[..|leaves| - 1], leaves[|leaves| - 1];
      assert leaves == front + [last] && [a, b] + leaves == [a, b] + front + [last];
      DistinctFront([a, b] + front, last);
      StarEdges(a, b, front, v);
      assert es[..|es| - 1] == StarOf(a, b, front, v);
    }
  }

  lemma StarShape(a: string, b: string, leaves: seq<string>, v: real)
    requires Distinct([a, b] + leaves) && 0.0 <= v <= 1.0
    ensures IsStar(GraphOf(StarOf(a, b, leaves, v)), a, b, leaves, v)
  {
    hide GraphOf, LastEdge, StarOf, Valid, Bounded;
    var es := StarOf(a, b, leaves, v);
    StarEdges(a, b, leaves, v);
    StarNodes(a, b, leaves, v);
    assert a != b && b !in leaves && a !in leaves by {
      assert ([a, b] + leaves)[0] == a && ([a, b] + leaves)[1] == b && ([a, b] + leaves)[2..] == leaves;
    }
    GraphOfIsValid(es);
    BoundedFromEdges(es);
    forall x, y
      ensures ArcOf(GraphOf(es), x, y) ==
              if x == b && y in leaves then Some(Arc(y, 1.0, 0))
              else if x == a && y == b then Some(Arc(b, v, 0)) else None
    {
      ArcIsLastEdge(es, x, y);
    }
  }

  /** A writer whose edge weighs one half is ranked below its victim once that has four effects; at 0.6, still
      below 5/7, it is not. */
  lemma SymptomaticVictimCanOutrank(a: string, b: string, leaves: seq<string>)
    requires Distinct([a, b] + leaves) && |leaves| == 4
    ensures var g := GraphOf(StarOf(a, b, leaves, 0.5));
            Ranking.NodeScore(g, Victims(b, leaves), a) < Ranking.NodeScore(g, Victims(b, leaves), b)
    ensures var g := GraphOf(StarOf(a, b, leaves, 0.6));
            Ranking.NodeScore(g, Victims(b, leaves), a) >= Ranking.NodeScore(g, Victims(b, leaves), b)
  {
    hide IsStar, GraphOf, StarOf, Ranking.NodeScore, Victims;
    StarShape(a, b, leaves, 0.5);
    StarShape(a, b, leaves, 0.6);
    StarVerdictIff(GraphOf(StarOf(a, b, leaves, 0.5)), a, b, leaves, 0.5);
    StarVerdictIff(GraphOf(StarOf(a, b, leaves, 0.6)), a, b, leaves, 0.6);
  }
}
