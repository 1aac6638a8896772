/** The causal graph: edges, the directed graph built from them, walks and their decayed gain. */
module Digraph {
  import opened Common

  const DECAY := 0.7
  const CUT := 0.15

  /** The evidence tag of a source edge. */
  const SOURCE := "write"

  /** An accepted edge as the passes exchange it. */
  datatype Edge = Edge(src: string, dst: string, r: real, lag: int, evidence: seq<string>)

  datatype Arc = Arc(dst: string, weight: real, lag: int)

  /** Nodes and out-arcs, both in insertion order. */
  datatype Graph = Graph(nodes: seq<string>, adj: map<string, seq<Arc>>)

  ghost predicate Distinct<T>(xs: seq<T>) {
    forall i, j :: 0 <= i < j < |xs| ==> xs[i] != xs[j]
  }

  ghost predicate ValidArcs(arcs: seq<Arc>) {
    && (forall i, j :: 0 <= i < j < |arcs| ==> arcs[i].dst != arcs[j].dst)
    && (forall i :: 0 <= i < |arcs| ==> arcs[i].weight >= 0.0)
  }

  ghost predicate Valid(g: Graph) {
    && Distinct(g.nodes)
    && (forall n :: n in g.nodes <==> n in g.adj)
    && (forall n :: n in g.adj ==> ValidArcs(g.adj[n]) && forall a :: a in g.adj[n] ==> a.dst in g.adj)
  }

  /** What correlations guarantee: no edge amplifies. */
  ghost predicate Bounded(g: Graph) {
    forall n :: n in g.adj ==> forall a :: a in g.adj[n] ==> a.weight <= 1.0
  }

  function AddNode(g: Graph, n: string): Graph {
    if n in g.adj then g else Graph(g.nodes + [n], g.adj[n := []])
  }

  /** A repeated target keeps its place and takes the new data. */
  function SetArc(arcs: seq<Arc>, a: Arc): seq<Arc> {
    if arcs == [] then [a]
    else if arcs[0].dst == a.dst then [a] + arcs[1..]
    else [arcs[0]] + SetArc(arcs[1..], a)
  }

  function AddEdge(g: Graph, e: Edge): Graph {
    var h := AddNode(AddNode(g, e.src), e.dst);
    h.(adj := h.adj[e.src := SetArc(h.adj[e.src], Arc(e.dst, Abs(e.r), e.lag))])
  }

  function GraphOf(edges: seq<Edge>): Graph {
    if edges == [] then Graph([], map[]) else AddEdge(GraphOf(edges[..|edges| - 1]), edges[|edges| - 1])
  }

  method BuildGraph(edges: seq<Edge>) returns (g: Graph)
    ensures g == GraphOf(edges) && Valid(g)
  {
    g := Graph([], map[]);
    for i := 0 to |edges|
      invariant g == GraphOf(edges[..i])
    {
      g := AddEdge(g, edges[i]);
      assert edges[..i + 1][..i] == edges[..i];
    }
    assert edges[..|edges|] == edges;
    GraphOfIsValid(edges);
  }

  function Find(arcs: seq<Arc>, v: string): Option<Arc> {
    if arcs == [] then None
    else if arcs[0].dst == v then Some(arcs[0])
    else Find(arcs[1..], v)
  }

  /** The arc u -> v, if there is one. */
  function ArcOf(g: Graph, u: string, v: string): Option<Arc> {
    if u in g.adj then Find(g.adj[u], v) else None
  }

  function LastEdge(edges: seq<Edge>, u: string, v: string): Option<Edge> {
    if edges == [] then None
    else
      var e := edges[|edges| - 1];
      if e.src == u && e.dst == v then Some(e) else LastEdge(edges[..|edges| - 1], u, v)
  }

  lemma {:induction false} FindMeans(arcs: seq<Arc>, v: string)
    ensures Find(arcs, v).Some? ==> Find(arcs, v).value in arcs && Find(arcs, v).value.dst == v
    ensures Find(arcs, v).None? <==> forall a :: a in arcs ==> a.dst != v
  {
    if arcs == [] {
    } else {
      FindMeans(arcs[1..], v);
      assert arcs == [arcs[0]] + arcs[1..];
    }
  }

  lemma {:induction false} FindUnique(arcs: seq<Arc>, a: Arc)
    requires ValidArcs(arcs) && a in arcs
    ensures Find(arcs, a.dst) == Some(a)
  {
    if arcs[0] != a {
      FindUnique(arcs[1..], a);
    }
  }

  lemma {:induction false} SetArcMeans(arcs: seq<Arc>, a: Arc, v: string)
    ensures Find(SetArc(arcs, a), v) == if v == a.dst then Some(a) else Find(arcs, v)
    ensures forall b :: b in SetArc(arcs, a) ==> b == a || b in arcs
  {
    if arcs != [] && arcs[0].dst != a.dst {
      SetArcMeans(arcs[1..], a, v);
    }
  }

  lemma {:induction false} SetArcKeepsValid(arcs: seq<Arc>, a: Arc)
    requires ValidArcs(arcs) && a.weight >= 0.0
    ensures ValidArcs(SetArc(arcs, a))
  {
    if arcs != [] && arcs[0].dst != a.dst {
      SetArcKeepsValid(arcs[1..], a);
      SetArcMeans(arcs[1..], a, a.dst);
      var tail := SetArc(arcs[1..], a);
      forall j | 0 <= j < |tail|
        ensures tail[j].dst != arcs[0].dst
      {
        assert tail[j] == a || tail[j] in arcs[1..];
      }
    }
  }

  lemma {:induction false} GraphOfIsValid(edges: seq<Edge>)
    ensures Valid(GraphOf(edges))
  {
    if edges == [] {
    } else {
      var e, g := edges[|edges| - 1], GraphOf(edges[..|edges| - 1]);
      GraphOfIsValid(edges[..|edges| - 1]);
      var h := AddNode(AddNode(g, e.src), e.dst);
      AddNodeKeepsValid(g, e.src);
      AddNodeKeepsValid(AddNode(g, e.src), e.dst);
      AddArcKeepsValid(h, e.src, Arc(e.dst, Abs(e.r), e.lag));
    }
  }

  /** The nodes are the endpoints, nothing else. */
  lemma {:induction false} NodesAreEndpoints(edges: seq<Edge>, n: string)
    ensures n in GraphOf(edges).adj <==> exists e :: e in edges && (e.src == n || e.dst == n)
  {
    if edges == [] {
    } else {
      NodesAreEndpoints(edges[..|edges| - 1], n);
      assert edges == edges[..|edges| - 1] + [edges[|edges| - 1]];
    }
  }

  lemma AddNodeKeepsValid(g: Graph, n: string)
    requires Valid(g)
    ensures Valid(AddNode(g, n)) && AddNode(g, n).adj.Keys == g.adj.Keys + {n}
  {
  }

  lemma AddArcKeepsValid(g: Graph, u: string, a: Arc)
    requires Valid(g) && u in g.adj && a.dst in g.adj && a.weight >= 0.0
    ensures var h := g.(adj := g.adj[u := SetArc(g.adj[u], a)]); Valid(h) && h.adj.Keys == g.adj.Keys
  {
    SetArcKeepsValid(g.adj[u], a);
    SetArcMeans(g.adj[u], a, a.dst);
  }

  /** A digraph holds one arc per ordered pair: the last edge given for it. */
  lemma {:induction false} ArcIsLastEdge(edges: seq<Edge>, u: string, v: string)
    ensures ArcOf(GraphOf(edges), u, v) ==
            match LastEdge(edges, u, v)
            case None => None
            case Some(e) => Some(Arc(v, Abs(e.r), e.lag))
  {
    if edges == [] {
    } else {
      var e := edges[|edges| - 1];
      var g := GraphOf(edges[..|edges| - 1]);
      ArcIsLastEdge(edges[..|edges| - 1], u, v);
      var h := AddNode(AddNode(g, e.src), e.dst);
      SetArcMeans(h.adj[e.src], Arc(e.dst, Abs(e.r), e.lag), v);
    }
  }

  lemma {:induction false} LastEdgeIsMember(edges: seq<Edge>, u: string, v: string)
    ensures LastEdge(edges, u, v).Some? <==> exists e :: e in edges && e.src == u && e.dst == v
    ensures LastEdge(edges, u, v).Some? ==>
              var e := LastEdge(edges, u, v).value; e in edges && e.src == u && e.dst == v
  {
    if edges == [] {
    } else {
      LastEdgeIsMember(edges[..|edges| - 1], u, v);
      assert edges == edges[..|edges| - 1] + [edges[|edges| - 1]];
    }
  }

  lemma BoundedFromEdges(edges: seq<Edge>)
    requires forall e :: e in edges ==> Abs(e.r) <= 1.0
    ensures Bounded(GraphOf(edges))
  {
    var g := GraphOf(edges);
    GraphOfIsValid(edges);
    forall n, a | n in g.adj && a in g.adj[n]
      ensures a.weight <= 1.0
    {
      FindUnique(g.adj[n], a);
      ArcIsLastEdge(edges, n, a.dst);
      LastEdgeIsMember(edges, n, a.dst);
    }
  }

  /** Whether anything points at n. */
  predicate HasCause(g: Graph, n: string) {
    exists u :: u in g.adj && ArcOf(g, u, n).Some?
  }

  // Walks.

  /** What is left of an impact w after one hop over an arc. */
  function Carry(w: real, weight: real): real {
    w * weight * DECAY
  }

  lemma CarryBounds(w: real, weight: real)
    requires w >= 0.0 && 0.0 <= weight <= 1.0
    ensures 0.0 <= Carry(w, weight) <= DECAY * w
  {
    assert w * weight <= w;
  }

  lemma CarryMonotone(v: real, w: real, weight: real)
    requires v <= w && weight >= 0.0
    ensures Carry(v, weight) <= Carry(w, weight)
  {
    assert (w - v) * weight >= 0.0;
  }

  lemma CarryOfZero(w: real, weight: real)
    requires weight >= 0.0 && Carry(w, weight) > 0.0
    ensures w > 0.0 && weight > 0.0
  {
    if w <= 0.0 {
      CarryMonotone(w, 0.0, weight);
    }
  }

  /** The weight of the arc u -> v, 0 where there is none. */
  function Weight(g: Graph, u: string, v: string): real {
    match ArcOf(g, u, v)
    case None => 0.0
    case Some(a) => a.weight
  }

  ghost predicate IsWalk(g: Graph, p: seq<string>) {
    && p != []
    && p[0] in g.adj
    && forall i :: 0 <= i < |p| - 1 ==> ArcOf(g, p[i], p[i + 1]).Some?
  }

  ghost predicate Joins(g: Graph, s: string, t: string, p: seq<string>) {
    IsWalk(g, p) && p[0] == s && p[|p| - 1] == t
  }

  /** The impact carried along p: the product of weight * DECAY over its hops. */
  function Gain(g: Graph, p: seq<string>): real {
    if |p| <= 1 then 1.0
    else Carry(Gain(g, p[..|p| - 1]), Weight(g, p[|p| - 2], p[|p| - 1]))
  }

  function LagSum(g: Graph, p: seq<string>): int {
    if |p| <= 1 then 0
    else
      LagSum(g, p[..|p| - 1]) +
      match ArcOf(g, p[|p| - 2], p[|p| - 1])
      case None => 0
      case Some(a) => a.lag
  }

  lemma ArcBounds(g: Graph, u: string, v: string)
    requires Valid(g) && Bounded(g)
    ensures 0.0 <= Weight(g, u, v) <= 1.0
    ensures ArcOf(g, u, v).Some? ==> u in g.adj && v in g.adj
  {
    if u in g.adj {
      FindMeans(g.adj[u], v);
    }
  }

  lemma {:induction false} GainBound(g: Graph, p: seq<string>)
    requires Valid(g) && Bounded(g) && p != []
    ensures 0.0 <= Gain(g, p) <= Pow(DECAY, |p| - 1)
  {
    hide Carry;
    if |p| <= 1 {
    } else {
      GainBound(g, p[..|p| - 1]);
      ArcBounds(g, p[|p| - 2], p[|p| - 1]);
      CarryBounds(Gain(g, p[..|p| - 1]), Weight(g, p[|p| - 2], p[|p| - 1]));
    }
  }

  lemma {:induction false} PowDecayShrinks(n: nat)
    ensures 0.0 < Pow(DECAY, n) <= 1.0
    ensures n >= 6 ==> Pow(DECAY, n) < CUT
  {
    if n > 6 {
      PowDecayShrinks(n - 1);
    } else if 0 < n < 6 {
      PowDecayShrinks(n - 1);
    } else if n == 6 {
      PowDecayShrinks(5);
      assert Pow(DECAY, 2) == 0.7 * (0.7 * Pow(DECAY, 0));
      assert Pow(DECAY, 4) == 0.7 * (0.7 * Pow(DECAY, 2));
      assert Pow(DECAY, 6) == 0.7 * (0.7 * Pow(DECAY, 4));
    }
  }

  /** A walk that survives the cut has at most five hops. */
  lemma SurvivingWalksAreShort(g: Graph, p: seq<string>)
    requires Valid(g) && Bounded(g) && p != [] && Gain(g, p) >= CUT
    ensures |p| <= 6
  {
    GainBound(g, p);
    PowDecayShrinks(|p| - 1);
  }

  lemma WalkSnoc(g: Graph, p: seq<string>, v: string)
    requires IsWalk(g, p) && ArcOf(g, p[|p| - 1], v).Some?
    ensures IsWalk(g, p + [v])
    ensures Gain(g, p + [v]) == Carry(Gain(g, p), Weight(g, p[|p| - 1], v))
    ensures LagSum(g, p + [v]) == LagSum(g, p) + ArcOf(g, p[|p| - 1], v).value.lag
  {
    assert (p + [v])[..|p|] == p;
  }

  lemma {:induction false} WalkStaysInside(g: Graph, p: seq<string>)
    requires Valid(g) && IsWalk(g, p)
    ensures forall i :: 0 <= i < |p| ==> p[i] in g.adj
  {
    if |p| <= 1 {
    } else {
      WalkStaysInside(g, p[..|p| - 1]);
      FindMeans(g.adj[p[|p| - 2]], p[|p| - 1]);
    }
  }

  /** A walk that survives the cut survives it without its last hop. */
  lemma LastHop(g: Graph, p: seq<string>)
    requires Valid(g) && Bounded(g) && IsWalk(g, p) && |p| > 1
    ensures var v, t := p[|p| - 2], p[|p| - 1];
            && ArcOf(g, v, t).Some? && v in g.adj && IsWalk(g, p[..|p| - 1])
            && ArcOf(g, v, t).value in g.adj[v] && ArcOf(g, v, t).value.dst == t
            && 0.0 <= ArcOf(g, v, t).value.weight <= 1.0
            && Gain(g, p) == Carry(Gain(g, p[..|p| - 1]), ArcOf(g, v, t).value.weight)
            && 0.0 <= Gain(g, p) <= Gain(g, p[..|p| - 1]) <= 1.0
  {
    hide Carry, Find, Valid, Bounded, Pow;
    var v, t, front := p[|p| - 2], p[|p| - 1], p[..|p| - 1];
    assert ArcOf(g, p[|p| - 2], p[|p| - 2 + 1]).Some?;
    FindMeans(g.adj[v], t);
    ArcBounds(g, v, t);
    GainOfLast(g, p);
    hide Gain;
    GainBound(g, front);
    PowDecayShrinks(|front| - 1);
    CarryBounds(Gain(g, front), ArcOf(g, v, t).value.weight);
  }

  lemma GainOfLast(g: Graph, p: seq<string>)
    requires |p| > 1
    ensures Gain(g, p) == Carry(Gain(g, p[..|p| - 1]), Weight(g, p[|p| - 2], p[|p| - 1]))
  {
  }

  lemma OneHop(g: Graph, u: string, v: string)
    requires u in g.adj && ArcOf(g, u, v).Some?
    ensures Joins(g, u, v, [u, v]) && Gain(g, [u, v]) == Carry(1.0, Weight(g, u, v))
  {
    assert [u, v][..1] == [u];
  }
}
