/** Pods under other names: the digraph, the impacts, the ranking and the blast radius of a renamed graph are those
    of the graph, renamed. */
module Renaming {
  import opened Common
  import opened Digraph
  import opened Ordering
  import BlastRadius
  import Impact
  import Ranking

  type Names = string -> string

  ghost predicate Injective(f: Names) {
    forall x, y :: f(x) == f(y) ==> x == y
  }

  function Mapped<A, B>(f: A -> B, xs: seq<A>): (ys: seq<B>)
    ensures |ys| == |xs| && forall i :: 0 <= i < |xs| ==> ys[i] == f(xs[i])
  {
    seq(|xs|, i requires 0 <= i < |xs| => f(xs[i]))
  }

  function ArcNamed(f: Names): Arc -> Arc {
    (a: Arc) => a.(dst := f(a.dst))
  }

  function EdgeNamed(f: Names): Edge -> Edge {
    (e: Edge) => e.(src := f(e.src), dst := f(e.dst))
  }

  function VerdictNamed(f: Names): Ranking.Verdict -> Ranking.Verdict {
    (v: Ranking.Verdict) => v.(pod := f(v.pod))
  }

  function ScoredNamed(f: Names): Ranking.Scored -> Ranking.Scored {
    (x: Ranking.Scored) => x.(pod := f(x.pod))
  }

  function HitNamed(f: Names): BlastRadius.Hit -> BlastRadius.Hit {
    (h: BlastRadius.Hit) => h.(pod := f(h.pod))
  }

  function NamedSet(f: Names, xs: set<string>): set<string> {
    set x | x in xs :: f(x)
  }

  /** h is g with every node renamed. */
  ghost predicate Renames(f: Names, g: Graph, h: Graph) {
    && h.nodes == Mapped(f, g.nodes) && h.adj.Keys == NamedSet(f, g.adj.Keys)
    && forall n :: n in g.adj ==> f(n) in h.adj && h.adj[f(n)] == Mapped(ArcNamed(f), g.adj[n])
  }

  // The digraph.

  lemma {:induction false} SetArcRenamed(f: Names, arcs: seq<Arc>, a: Arc)
    requires Injective(f)
    ensures SetArc(Mapped(ArcNamed(f), arcs), ArcNamed(f)(a)) == Mapped(ArcNamed(f), SetArc(arcs, a))
  {
    if arcs != [] && arcs[0].dst != a.dst {
      SetArcRenamed(f, arcs[1..], a);
      assert Mapped(ArcNamed(f), arcs)[1..] == Mapped(ArcNamed(f), arcs[1..]);
    }
  }

  lemma AddNodeRenamed(f: Names, g: Graph, h: Graph, n: string)
    requires Injective(f) && Renames(f, g, h)
    ensures Renames(f, AddNode(g, n), AddNode(h, f(n)))
  {
    assert f(n) in h.adj ==> n in g.adj;
  }

  lemma SetArcsRenamed(f: Names, g: Graph, h: Graph, u: string, a: Arc)
    requires Injective(f) && Renames(f, g, h) && u in g.adj
    ensures Renames(f, g.(adj := g.adj[u := SetArc(g.adj[u], a)]),
                    h.(adj := h.adj[f(u) := SetArc(h.adj[f(u)], ArcNamed(f)(a))]))
  {
    hide SetArc;
    SetArcRenamed(f, g.adj[u], a);
  }

  lemma AddEdgeRenamed(f: Names, g: Graph, h: Graph, e: Edge)
    requires Injective(f) && Renames(f, g, h)
    ensures Renames(f, AddEdge(g, e), AddEdge(h, EdgeNamed(f)(e)))
  {
    var g2, h2 := AddNode(AddNode(g, e.src), e.dst), AddNode(AddNode(h, f(e.src)), f(e.dst));
    assert e.src in g2.adj && f(e.src) in h2.adj;
    hide SetArc, Renames, AddNode;
    AddNodeRenamed(f, g, h, e.src);
    AddNodeRenamed(f, AddNode(g, e.src), AddNode(h, f(e.src)), e.dst);
    SetArcsRenamed(f, g2, h2, e.src, Arc(e.dst, Abs(e.r), e.lag));
  }

  lemma {:induction false} GraphOfRenamed(f: Names, es: seq<Edge>)
    requires Injective(f)
    ensures Renames(f, GraphOf(es), GraphOf(Mapped(EdgeNamed(f), es)))
  {
    hide AddEdge;
    if es == [] {
    } else {
      var front := es[..|es| - 1];
      GraphOfRenamed(f, front);
      assert Mapped(EdgeNamed(f), es)[..|es| - 1] == Mapped(EdgeNamed(f), front);
      AddEdgeRenamed(f, GraphOf(front), GraphOf(Mapped(EdgeNamed(f), front)), es[|es| - 1]);
    }
  }

  lemma {:induction false} FindRenamed(f: Names, arcs: seq<Arc>, v: string)
    requires Injective(f)
    ensures Find(Mapped(ArcNamed(f), arcs), f(v)) ==
            match Find(arcs, v) case None => None case Some(a) => Some(ArcNamed(f)(a))
  {
    if arcs != [] {
      FindRenamed(f, arcs[1..], v);
      assert Mapped(ArcNamed(f), arcs)[1..] == Mapped(ArcNamed(f), arcs[1..]);
    }
  }

  lemma ArcRenamed(f: Names, g: Graph, h: Graph, u: string, v: string)
    requires Injective(f) && Renames(f, g, h)
    ensures f(u) in h.adj <==> u in g.adj
    ensures ArcOf(h, f(u), f(v)) == match ArcOf(g, u, v) case None => None case Some(a) => Some(ArcNamed(f)(a))
    ensures Weight(h, f(u), f(v)) == Weight(g, u, v)
  {
    hide Find;
    if u in g.adj {
      FindRenamed(f, g.adj[u], v);
    }
  }

  lemma CauseRenamed(f: Names, g: Graph, h: Graph, n: string)
    requires Injective(f) && Renames(f, g, h)
    ensures HasCause(h, f(n)) <==> HasCause(g, n)
  {
    hide ArcOf;
    forall u | u in g.adj
      ensures f(u) in h.adj && (ArcOf(h, f(u), f(n)).Some? <==> ArcOf(g, u, n).Some?)
    {
      ArcRenamed(f, g, h, u, n);
    }
    if HasCause(h, f(n)) {
      var m :| m in h.adj && ArcOf(h, m, f(n)).Some?;
      assert m in NamedSet(f, g.adj.Keys);
    }
  }

  // Impacts.

  lemma {:induction false} BestRenamed(f: Names, g: Graph, h: Graph, s: string, t: string, k: nat)
    requires Injective(f) && Renames(f, g, h)
    ensures Impact.Best(h, f(s), f(t), k) == Impact.Best(g, s, t, k)
    ensures Impact.Label(h, f(s), f(t), k) == Impact.Label(g, s, t, k)
    decreases k, 1, 0
  {
    hide Impact.BestVia, Renames;
    if k > 0 {
      assert h.nodes == Mapped(f, g.nodes) by {
        NodesRenamed(f, g, h);
      }
      ViaRenamed(f, g, h, s, t, k, g.nodes);
    }
  }

  lemma NodesRenamed(f: Names, g: Graph, h: Graph)
    requires Renames(f, g, h)
    ensures h.nodes == Mapped(f, g.nodes)
  {
  }

  lemma {:induction false} ViaRenamed(f: Names, g: Graph, h: Graph, s: string, t: string, k: nat, vs: seq<string>)
    requires Injective(f) && Renames(f, g, h) && k > 0
    ensures Impact.BestVia(h, f(s), f(t), k, Mapped(f, vs)) == Impact.BestVia(g, s, t, k, vs)
    decreases k, 0, |vs|
  {
    hide Carry, Renames, Impact.Label, Weight;
    if vs != [] {
      BestRenamed(f, g, h, s, vs[0], k - 1);
      ArcRenamed(f, g, h, vs[0], t);
      ViaRenamed(f, g, h, s, t, k, vs[1..]);
      assert Mapped(f, vs)[1..] == Mapped(f, vs[1..]);
    }
  }

  lemma ImpactRenamed(f: Names, g: Graph, h: Graph, s: string, t: string)
    requires Injective(f) && Renames(f, g, h)
    ensures f(t) in Impact.BestImpact(h, f(s)) <==> t in Impact.BestImpact(g, s)
    ensures t in Impact.BestImpact(g, s) ==> Impact.BestImpact(h, f(s))[f(t)] == Impact.BestImpact(g, s)[t]
  {
    hide Impact.Best, Renames;
    BestRenamed(f, g, h, s, t, 5);
    ArcRenamed(f, g, h, t, t);
  }

  // The ranking.

  lemma {:induction false} SumByMapped<A, B>(m: A -> B, xs: seq<A>, p: A -> real, q: B -> real)
    requires forall x :: x in xs ==> q(m(x)) == p(x)
    ensures SumBy(Mapped(m, xs), q) == SumBy(xs, p)
  {
    if xs == [] {
    } else {
      var front := xs[..|xs| - 1];
      assert xs == front + [xs[|xs| - 1]];
      assert Mapped(m, xs)[..|xs| - 1] == Mapped(m, front);
      SumByMapped(m, front, p, q);
    }
  }

  lemma ScoreRenamed(f: Names, g: Graph, h: Graph, symptoms: set<string>, n: string)
    requires Injective(f) && Renames(f, g, h)
    ensures Ranking.NodeScore(h, NamedSet(f, symptoms), f(n)) == Ranking.NodeScore(g, symptoms, n)
  {
    hide Impact.BestImpact, Renames, HasCause;
    var p := Ranking.Explained(Impact.BestImpact(g, n), symptoms);
    var q := Ranking.Explained(Impact.BestImpact(h, f(n)), NamedSet(f, symptoms));
    forall x
      ensures q(f(x)) == p(x)
    {
      ImpactRenamed(f, g, h, n, x);
      assert f(x) in NamedSet(f, symptoms) <==> x in symptoms;
    }
    assert f(n) in NamedSet(f, symptoms) <==> n in symptoms;
    NodesRenamed(f, g, h);
    SumByMapped(f, g.nodes, p, q);
    CauseRenamed(f, g, h, n);
  }

  lemma {:induction false} CandidatesRenamed(f: Names, g: Graph, h: Graph, symptoms: set<string>, ns: seq<string>)
    requires Injective(f) && Renames(f, g, h)
    ensures Ranking.Candidates(h, NamedSet(f, symptoms), Mapped(f, ns)) ==
            Mapped(ScoredNamed(f), Ranking.Candidates(g, symptoms, ns))
  {
    hide Ranking.NodeScore, Renames;
    if ns == [] {
    } else {
      var front, n := ns[..|ns| - 1], ns[|ns| - 1];
      CandidatesRenamed(f, g, h, symptoms, front);
      ScoreRenamed(f, g, h, symptoms, n);
      assert Mapped(f, ns)[..|ns| - 1] == Mapped(f, front);
    }
  }

  lemma {:induction false} InsertMapped<A(!new), B>(m: A -> B, x: A, ys: seq<A>, le: (A, A) -> bool, re: (B, B) -> bool)
    requires forall a, b :: re(m(a), m(b)) == le(a, b)
    ensures Insert(m(x), Mapped(m, ys), re) == Mapped(m, Insert(x, ys, le))
  {
    if ys == [] || le(x, ys[0]) {
    } else {
      InsertMapped(m, x, ys[1..], le, re);
      assert Mapped(m, ys)[1..] == Mapped(m, ys[1..]);
    }
  }

  lemma {:induction false} SortMapped<A(!new), B>(m: A -> B, xs: seq<A>, le: (A, A) -> bool, re: (B, B) -> bool)
    requires forall a, b :: re(m(a), m(b)) == le(a, b)
    ensures Sort(Mapped(m, xs), re) == Mapped(m, Sort(xs, le))
  {
    if xs == [] {
    } else {
      SortMapped(m, xs[1..], le, re);
      InsertMapped(m, xs[0], Sort(xs[1..], le), le, re);
      assert Mapped(m, xs)[1..] == Mapped(m, xs[1..]);
    }
  }

  /** Every pod has under its new name the onset it had under the old one. */
  ghost predicate OnsetsRenamed(f: Names, onset: map<string, real>, onset2: map<string, real>) {
    forall n :: Lookup(onset2, f(n)) == Lookup(onset, n)
  }

  lemma SeedSetRenamed(f: Names, g: Graph, h: Graph, seeds: seq<string>)
    requires Injective(f) && Renames(f, g, h)
    ensures Ranking.SeedSet(h, Mapped(f, seeds)) == NamedSet(f, Ranking.SeedSet(g, seeds))
  {
    var onG, onH := set s | s in seeds && s in g.adj, set s | s in Mapped(f, seeds) && s in h.adj;
    forall m | m in onH
      ensures m in NamedSet(f, onG)
    {
      var i :| 0 <= i < |seeds| && Mapped(f, seeds)[i] == m;
      assert seeds[i] in seeds && seeds[i] in g.adj;
    }
    forall s | s in onG
      ensures f(s) in onH
    {
      var i :| 0 <= i < |seeds| && seeds[i] == s;
      assert Mapped(f, seeds)[i] == f(s);
    }
    assert onH == NamedSet(f, onG);
    if onG != {} {
      var s :| s in onG;
      assert f(s) in onH;
    }
  }

  lemma HasEdgesRenamed(f: Names, g: Graph, h: Graph)
    requires Renames(f, g, h)
    ensures Ranking.HasEdges(h) <==> Ranking.HasEdges(g)
  {
    if Ranking.HasEdges(g) {
      var n :| n in g.adj && g.adj[n] != [];
      assert h.adj[f(n)] != [];
    }
    if Ranking.HasEdges(h) {
      var m :| m in h.adj && h.adj[m] != [];
      assert m in NamedSet(f, g.adj.Keys);
    }
  }

  lemma SharesRenamed(f: Names, ranked: seq<Ranking.Scored>, total: real,
                      onset: map<string, real>, onset2: map<string, real>)
    requires total > 0.0 && OnsetsRenamed(f, onset, onset2)
    ensures Ranking.Shares(Mapped(ScoredNamed(f), ranked), total, onset2) ==
            Mapped(VerdictNamed(f), Ranking.Shares(ranked, total, onset))
  {
  }

  lemma OrderRenamed(f: Names, onset: map<string, real>, onset2: map<string, real>)
    requires OnsetsRenamed(f, onset, onset2)
    ensures forall a, b :: Ranking.Before(onset2)(ScoredNamed(f)(a), ScoredNamed(f)(b)) == Ranking.Before(onset)(a, b)
  {
    hide Ranking.OnsetLe, Lookup;
  }

  /** Renaming the pods renames the ranking and changes nothing else in it: not an order, not a score. */
  lemma RankingRenamed(f: Names, g: Graph, h: Graph, seeds: seq<string>,
                       onset: map<string, real>, onset2: map<string, real>, top: nat)
    requires Injective(f) && Renames(f, g, h) && OnsetsRenamed(f, onset, onset2)
    ensures Ranking.RankingOf(h, Mapped(f, seeds), onset2, top) ==
            Mapped(VerdictNamed(f), Ranking.RankingOf(g, seeds, onset, top))
  {
    hide Ranking.Candidates, Ranking.SeedSet, Ranking.HasEdges, Sort, SumBy, Renames, Ranking.Before, OnsetsRenamed;
    var symptoms := Ranking.SeedSet(g, seeds);
    var xs := Ranking.Candidates(g, symptoms, g.nodes);
    var m := ScoredNamed(f);
    SeedSetRenamed(f, g, h, seeds);
    HasEdgesRenamed(f, g, h);
    NodesRenamed(f, g, h);
    CandidatesRenamed(f, g, h, symptoms, g.nodes);
    var ys := Ranking.Candidates(h, NamedSet(f, symptoms), h.nodes);
    assert ys == Mapped(m, xs);
    SumByMapped(m, xs, Ranking.ScoreOf, Ranking.ScoreOf);
    OrderRenamed(f, onset, onset2);
    SortMapped(m, xs, Ranking.Before(onset), Ranking.Before(onset2));
    Ranking.CandidatesArePositive(g, symptoms, g.nodes);
    if Ranking.HasEdges(g) && xs != [] {
      var ranked, total := Sort(xs, Ranking.Before(onset)), SumBy(xs, Ranking.ScoreOf);
      var k := if top < |ranked| then top else |ranked|;
      assert Mapped(m, ranked)[..k] == Mapped(m, ranked[..k]);
      SharesRenamed(f, ranked[..k], total, onset, onset2);
    }
  }

  // The blast radius.

  ghost function NamedPaths(f: Names, paths: BlastRadius.Paths): BlastRadius.Paths
    requires Injective(f)
  {
    map n | n in paths :: f(n) := Mapped(f, paths[n])
  }

  lemma {:induction false} WalkRenamed(f: Names, g: Graph, h: Graph, p: seq<string>)
    requires Injective(f) && Renames(f, g, h) && p != []
    ensures IsWalk(g, p) ==> IsWalk(h, Mapped(f, p))
    ensures Gain(h, Mapped(f, p)) == Gain(g, p) && LagSum(h, Mapped(f, p)) == LagSum(g, p)
  {
    hide Carry, ArcOf, Renames;
    ArcRenamed(f, g, h, p[0], p[0]);
    forall i | 0 <= i < |p| - 1
      ensures ArcOf(h, f(p[i]), f(p[i + 1])).Some? <==> ArcOf(g, p[i], p[i + 1]).Some?
    {
      ArcRenamed(f, g, h, p[i], p[i + 1]);
    }
    if |p| > 1 {
      var front := p[..|p| - 1];
      WalkRenamed(f, g, h, front);
      assert Mapped(f, p)[..|p| - 1] == Mapped(f, front);
      ArcRenamed(f, g, h, p[|p| - 2], p[|p| - 1]);
    }
  }

  lemma DistinctMapped(f: Names, xs: seq<string>)
    requires Injective(f) && Distinct(xs)
    ensures Distinct(Mapped(f, xs))
  {
  }

  lemma BranchRenamed(f: Names, g: Graph, h: Graph, root: string, paths: BlastRadius.Paths, n: string)
    requires Injective(f) && Renames(f, g, h) && n in paths && BlastRadius.Branch(g, root, paths, n)
    ensures f(n) in NamedPaths(f, paths) && BlastRadius.Branch(h, f(root), NamedPaths(f, paths), f(n))
  {
    var p, named := paths[n], NamedPaths(f, paths);
    var q, m := Mapped(f, p), p[|p| - 2];
    assert Joins(g, root, n, p) && Distinct(p) && m in paths && paths[m] == p[..|p| - 1];
    assert named[f(n)] == q && named[f(m)] == Mapped(f, p[..|p| - 1]) && q[|q| - 2] == f(m);
    assert q[..|p| - 1] == Mapped(f, p[..|p| - 1]);
    assert q[0] == f(root) && q[|q| - 1] == f(n) && IsWalk(g, p);
    hide Gain, IsWalk, Renames, NamedPaths, Distinct, Injective;
    WalkRenamed(f, g, h, p);
    DistinctMapped(f, p);
  }

  lemma PathTreeRenamed(f: Names, g: Graph, h: Graph, root: string, paths: BlastRadius.Paths)
    requires Injective(f) && Renames(f, g, h) && BlastRadius.PathTree(g, root, paths)
    ensures BlastRadius.PathTree(h, f(root), NamedPaths(f, paths))
  {
    hide Renames, BlastRadius.Branch;
    forall m | m in NamedPaths(f, paths) && m != f(root)
      ensures BlastRadius.Branch(h, f(root), NamedPaths(f, paths), m)
    {
      var n :| n in paths && f(n) == m;
      BranchRenamed(f, g, h, root, paths, n);
    }
    assert Mapped(f, [root]) == [f(root)];
  }

  lemma HitRenamed(f: Names, g: Graph, h: Graph, root: string, paths: BlastRadius.Paths, n: string)
    requires Injective(f) && Renames(f, g, h) && BlastRadius.PathTree(g, root, paths) && n in paths
    ensures f(n) in NamedPaths(f, paths)
    ensures BlastRadius.HitOf(h, NamedPaths(f, paths), f(n)) == HitNamed(f)(BlastRadius.HitOf(g, paths, n))
  {
    hide Gain, LagSum, ArcOf, Renames;
    assert n != root ==> BlastRadius.Branch(g, root, paths, n);
    WalkRenamed(f, g, h, paths[n]);
  }

  lemma ReportsRenamed(f: Names, g: Graph, h: Graph, root: string, hits: seq<BlastRadius.Hit>, paths: BlastRadius.Paths)
    requires Injective(f) && Renames(f, g, h) && BlastRadius.PathTree(g, root, paths)
    requires BlastRadius.Reports(g, root, hits, paths)
    ensures BlastRadius.Reports(h, f(root), Mapped(HitNamed(f), hits), NamedPaths(f, paths))
  {
    hide BlastRadius.HitOf, Renames, BlastRadius.PathTree;
    var named, out := NamedPaths(f, paths), Mapped(HitNamed(f), hits);
    forall x | x in out
      ensures x.pod != f(root) && x.pod in named && x == BlastRadius.HitOf(h, named, x.pod)
    {
      var i :| 0 <= i < |hits| && out[i] == x;
      assert hits[i] in hits;
      HitRenamed(f, g, h, root, paths, hits[i].pod);
    }
    forall m | m in named && m != f(root)
      ensures BlastRadius.HitOf(h, named, m) in out
    {
      var n :| n in paths && f(n) == m;
      HitRenamed(f, g, h, root, paths, n);
      var i :| 0 <= i < |hits| && hits[i] == BlastRadius.HitOf(g, paths, n);
      assert out[i] == BlastRadius.HitOf(h, named, m);
    }
  }

  lemma ClosedOverRenamed(f: Names, arcs: seq<Arc>, w: real, depth: nat, paths: BlastRadius.Paths)
    requires Injective(f) && BlastRadius.ClosedOver(arcs, w, depth, paths)
    ensures BlastRadius.ClosedOver(Mapped(ArcNamed(f), arcs), w, depth, NamedPaths(f, paths))
  {
    hide Carry;
    var out, named := Mapped(ArcNamed(f), arcs), NamedPaths(f, paths);
    forall b | b in out && Carry(w, b.weight) >= CUT
      ensures b.dst in named && |named[b.dst]| <= depth + 1
    {
      var i :| 0 <= i < |arcs| && out[i] == b;
      assert arcs[i] in arcs;
    }
  }

  lemma ClosedRenamed(f: Names, g: Graph, h: Graph, root: string, paths: BlastRadius.Paths, n: string)
    requires Injective(f) && Renames(f, g, h) && BlastRadius.PathTree(g, root, paths)
    requires n in paths && BlastRadius.Closed(g, paths, n)
    ensures f(n) in NamedPaths(f, paths) && BlastRadius.Closed(h, NamedPaths(f, paths), f(n))
  {
    assert paths[n] != [] by {
      assert n != root ==> BlastRadius.Branch(g, root, paths, n);
    }
    hide Gain, BlastRadius.ClosedOver, BlastRadius.PathTree, IsWalk, Injective;
    WalkRenamed(f, g, h, paths[n]);
    ClosedOverRenamed(f, g.adj[n], Gain(g, paths[n]), |paths[n]|, paths);
    assert NamedPaths(f, paths)[f(n)] == Mapped(f, paths[n]);
  }

  /** Renaming the pods renames what the blast radius may report, hit by hit. */
  lemma BlastRenamed(f: Names, g: Graph, h: Graph, root: string, hits: seq<BlastRadius.Hit>, paths: BlastRadius.Paths)
    requires Injective(f) && Renames(f, g, h) && BlastRadius.IsBlast(g, root, hits, paths)
    ensures BlastRadius.IsBlast(h, f(root), Mapped(HitNamed(f), hits), NamedPaths(f, paths))
  {
    hide BlastRadius.PathTree, BlastRadius.Reports, BlastRadius.Closed, Renames;
    PathTreeRenamed(f, g, h, root, paths);
    ReportsRenamed(f, g, h, root, hits, paths);
    forall m | m in NamedPaths(f, paths)
      ensures BlastRadius.Closed(h, NamedPaths(f, paths), m)
    {
      var n :| n in paths && f(n) == m;
      ClosedRenamed(f, g, h, root, paths, n);
    }
  }
}
