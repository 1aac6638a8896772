/** `blast_radius`: a first-visit breadth-first search over the same graph as Impact, with the
    path it follows to each predicted victim. */
module BlastRadius {
  import opened Common
  import opened Digraph
  import opened Ordering
  import Impact

  datatype Hit = Hit(pod: string, impact: real, eta: int)

  datatype Item = Item(node: string, w: real, eta: int)

  predicate StrongerFirst(a: Hit, b: Hit) {
    a.impact >= b.impact
  }

  type Paths = map<string, seq<string>>

  /** The visited nodes form a tree of simple surviving paths out of the root. */
  ghost predicate PathTree(g: Graph, root: string, paths: Paths) {
    && root in paths && paths[root] == [root]
    && forall n :: n in paths && n != root ==> Branch(g, root, paths, n)
  }

  ghost predicate Branch(g: Graph, root: string, paths: Paths, n: string)
    requires n in paths
  {
    var p := paths[n];
    && |p| >= 2 && Joins(g, root, n, p) && Distinct(p) && Gain(g, p) >= CUT
    && p[|p| - 2] in paths && paths[p[|p| - 2]] == p[..|p| - 1]
  }

  /** Every hop out of n that survives the cut leads to a visited node, at most one hop deeper. */
  ghost predicate Closed(g: Graph, paths: Paths, n: string)
    requires n in paths
  {
    n in g.adj && ClosedOver(g.adj[n], Gain(g, paths[n]), |paths[n]|, paths)
  }

  ghost predicate ClosedOver(arcs: seq<Arc>, w: real, depth: nat, paths: Paths) {
    forall a :: a in arcs && Carry(w, a.weight) >= CUT ==> a.dst in paths && |paths[a.dst]| <= depth + 1
  }

  /** One hit per visited node other than the root, with the impact and delay of its path. */
  ghost predicate Reports(g: Graph, root: string, hits: seq<Hit>, paths: Paths) {
    && (forall i, j :: 0 <= i < j < |hits| ==> hits[i].pod != hits[j].pod)
    && (forall h :: h in hits ==> h.pod != root && h.pod in paths && h == HitOf(g, paths, h.pod))
    && (forall n :: n in paths && n != root ==> HitOf(g, paths, n) in hits)
  }

  ghost function HitOf(g: Graph, paths: Paths, n: string): Hit
    requires n in paths
  {
    Hit(n, Gain(g, paths[n]), LagSum(g, paths[n]))
  }

  ghost predicate IsBlast(g: Graph, root: string, hits: seq<Hit>, paths: Paths) {
    && PathTree(g, root, paths)
    && Reports(g, root, hits, paths)
    && (forall n :: n in paths ==> Closed(g, paths, n))
    && SortedBy(hits, StrongerFirst)
  }

  // The search.

  /** The queue holds visited nodes, shallow first, at most one level apart from any visited node. */
  ghost predicate Queue(g: Graph, paths: Paths, items: seq<Item>, depth: nat) {
    && (forall i :: 0 <= i < |items| ==> Queued(g, paths, items[i], depth))
    && (forall i, j :: 0 <= i < j < |items| && items[i].node in paths && items[j].node in paths ==>
         |paths[items[i].node]| <= |paths[items[j].node]|)
    && (forall n :: n in paths ==> |paths[n]| <= depth + 1)
  }

  ghost predicate Queued(g: Graph, paths: Paths, it: Item, depth: nat) {
    && it.node in paths && it.node in g.adj && depth <= |paths[it.node]|
    && it.w == Gain(g, paths[it.node]) && it.eta == LagSum(g, paths[it.node])
  }

  /** Visited nodes are closed unless they still wait; `busy` is being expanded. */
  ghost predicate Explored(g: Graph, paths: Paths, items: seq<Item>, busy: Option<string>) {
    forall n :: n in paths ==>
      Closed(g, paths, n) || busy == Some(n) || exists i :: 0 <= i < |items| && items[i].node == n
  }

  lemma {:induction false} PathStaysVisited(g: Graph, root: string, paths: Paths, n: string)
    requires PathTree(g, root, paths) && n in paths
    ensures forall m :: m in paths[n] ==> m in paths
    decreases |paths[n]|
  {
    if n != root {
      var p := paths[n];
      assert Branch(g, root, paths, n);
      PathStaysVisited(g, root, paths, p[|p| - 2]);
      assert p == p[..|p| - 1] + [n];
    }
  }

  lemma NodeOfTree(g: Graph, root: string, paths: Paths, n: string)
    requires PathTree(g, root, paths) && n in paths && root in g.adj
    ensures Joins(g, root, n, paths[n]) && Distinct(paths[n])
  {
    assert n != root ==> Branch(g, root, paths, n);
  }

  lemma ArcIsFound(g: Graph, n: string, a: Arc)
    requires Valid(g) && n in g.adj && a in g.adj[n]
    ensures ArcOf(g, n, a.dst) == Some(a)
  {
    FindUnique(g.adj[n], a);
  }

  /** A new branch: one surviving hop beyond a visited node. */
  lemma TreeGrows(g: Graph, root: string, paths: Paths, n: string, a: Arc)
    requires Valid(g) && PathTree(g, root, paths) && n in paths && n in g.adj && root in g.adj
    requires a in g.adj[n] && a.dst !in paths && Carry(Gain(g, paths[n]), a.weight) >= CUT
    ensures PathTree(g, root, paths[a.dst := paths[n] + [a.dst]])
    ensures var grown := paths[a.dst := paths[n] + [a.dst]];
            HitOf(g, grown, a.dst) == Hit(a.dst, Carry(Gain(g, paths[n]), a.weight), LagSum(g, paths[n]) + a.lag)
  {
    hide Carry, Valid;
    var p := paths[n];
    var grown := paths[a.dst := p + [a.dst]];
    NodeOfTree(g, root, paths, n);
    ArcIsFound(g, n, a);
    WalkSnoc(g, p, a.dst);
    PathStaysVisited(g, root, paths, n);
    assert (p + [a.dst])[..|p|] == p;
    assert Branch(g, root, grown, a.dst);
    forall m | m in paths && m != root
      ensures Branch(g, root, grown, m)
    {
      assert Branch(g, root, paths, m);
    }
  }

  lemma ReportsGrow(g: Graph, root: string, hits: seq<Hit>, paths: Paths, n: string, p: seq<string>)
    requires Reports(g, root, hits, paths) && n !in paths && root in paths
    ensures Reports(g, root, hits + [HitOf(g, paths[n := p], n)], paths[n := p])
  {
    hide Gain, LagSum;
    var grown := paths[n := p];
    forall m | m in paths
      ensures HitOf(g, grown, m) == HitOf(g, paths, m)
    {
    }
  }

  lemma ClosedGrows(arcs: seq<Arc>, w: real, depth: nat, paths: Paths, n: string, p: seq<string>)
    requires ClosedOver(arcs, w, depth, paths) && n !in paths
    ensures ClosedOver(arcs, w, depth, paths[n := p])
  {
    hide Carry;
  }

  lemma QueueGrows(g: Graph, paths: Paths, items: seq<Item>, depth: nat, it: Item, p: seq<string>)
    requires Queue(g, paths, items, depth) && it.node !in paths && it.node in g.adj
    requires |p| == depth + 1 && it.w == Gain(g, p) && it.eta == LagSum(g, p)
    ensures Queue(g, paths[it.node := p], items + [it], depth)
  {
    hide Gain, LagSum;
    var grown := paths[it.node := p];
    forall i | 0 <= i < |items|
      ensures Queued(g, grown, items[i], depth)
    {
      assert Queued(g, paths, items[i], depth);
    }
  }

  lemma ExploredGrows(g: Graph, paths: Paths, items: seq<Item>, busy: Option<string>, it: Item, p: seq<string>)
    requires Explored(g, paths, items, busy) && it.node !in paths
    ensures Explored(g, paths[it.node := p], items + [it], busy)
  {
    hide Gain, ClosedOver;
    var grown, more := paths[it.node := p], items + [it];
    forall n | n in grown
      ensures Closed(g, grown, n) || busy == Some(n) || exists i :: 0 <= i < |more| && more[i].node == n
    {
      if n == it.node {
        assert more[|items|].node == n;
      } else if Closed(g, paths, n) {
        ClosedGrows(g.adj[n], Gain(g, paths[n]), |paths[n]|, paths, it.node, p);
      } else if busy != Some(n) {
        var i :| 0 <= i < |items| && items[i].node == n;
        assert more[i].node == n;
      }
    }
  }

  /** Taking the head of the queue fixes the level being expanded. */
  lemma Pop(g: Graph, paths: Paths, items: seq<Item>, depth: nat)
    requires items != [] && Queue(g, paths, items, depth) && Explored(g, paths, items, None)
    ensures items[0].node in paths && items[0].node in g.adj
    ensures var d := |paths[items[0].node]|;
            Queued(g, paths, items[0], d) && Queue(g, paths, items[1..], d)
    ensures Explored(g, paths, items[1..], Some(items[0].node))
  {
    hide Gain, LagSum, Closed;
    assert Queued(g, paths, items[0], depth);
    var rest := items[1..];
    forall i | 0 <= i < |rest|
      ensures Queued(g, paths, rest[i], |paths[items[0].node]|)
    {
      assert Queued(g, paths, items[i + 1], depth);
    }
    forall n | n in paths && !Closed(g, paths, n) && n != items[0].node
      ensures exists i :: 0 <= i < |rest| && rest[i].node == n
    {
      var i :| 0 <= i < |items| && items[i].node == n;
      assert rest[i - 1].node == n;
    }
  }

  lemma Expanded(g: Graph, root: string, hits: seq<Hit>, paths: Paths, items: seq<Item>, e: Item)
    requires e.node in paths && e.node in g.adj && Queued(g, paths, e, |paths[e.node]|)
    requires State(g, root, hits, paths, items, |paths[e.node]|, Some(e.node))
    requires ClosedOver(g.adj[e.node], e.w, |paths[e.node]|, paths)
    ensures State(g, root, hits, paths, items, |paths[e.node]|, None)
  {
    hide Gain, LagSum, ClosedOver, PathTree, Reports, Queue;
    assert Closed(g, paths, e.node);
  }

  lemma ClosedOneMore(arcs: seq<Arc>, i: nat, w: real, depth: nat, paths: Paths)
    requires i < |arcs| && ClosedOver(arcs[..i], w, depth, paths)
    requires Carry(w, arcs[i].weight) >= CUT ==> arcs[i].dst in paths && |paths[arcs[i].dst]| <= depth + 1
    ensures ClosedOver(arcs[..i + 1], w, depth, paths)
  {
    hide Carry;
    assert arcs[..i + 1] == arcs[..i] + [arcs[i]];
  }

  lemma SortedReport(g: Graph, root: string, hits: seq<Hit>, paths: Paths)
    requires Reports(g, root, hits, paths)
    ensures Reports(g, root, Sort(hits, StrongerFirst), paths) && SortedBy(Sort(hits, StrongerFirst), StrongerFirst)
  {
    hide Gain, LagSum;
    SortHasSameElements(hits, StrongerFirst);
    SortSorts(hits, StrongerFirst);
    SortKeepsDistinct(hits, StrongerFirst);
    var out := Sort(hits, StrongerFirst);
    SortIsPermutation(hits, StrongerFirst);
    forall i, j | 0 <= i < j < |out|
      ensures out[i].pod != out[j].pod
    {
      assert out[i] in hits && out[j] in hits && out[i] != out[j];
    }
  }

  lemma Start(g: Graph, root: string)
    requires root in g.adj
    ensures var paths: Paths, items := map[root := [root]], [Item(root, 1.0, 0)];
            State(g, root, [], paths, items, 1, None)
  {
    assert [Item(root, 1.0, 0)][0].node == root;
  }

  ghost predicate State(g: Graph, root: string, hits: seq<Hit>, paths: Paths, items: seq<Item>,
                        depth: nat, busy: Option<string>) {
    && PathTree(g, root, paths) && Reports(g, root, hits, paths)
    && Queue(g, paths, items, depth) && Explored(g, paths, items, busy)
  }

  lemma Visit(g: Graph, root: string, hits: seq<Hit>, paths: Paths, items: seq<Item>, depth: nat,
              e: Item, a: Arc, it: Item, p: seq<string>)
    requires Valid(g) && root in g.adj && e.node in paths && e.node in g.adj && |paths[e.node]| == depth
    requires State(g, root, hits, paths, items, depth, Some(e.node)) && Queued(g, paths, e, depth)
    requires a in g.adj[e.node] && a.dst !in paths && Carry(e.w, a.weight) >= CUT
    requires it == Item(a.dst, Carry(e.w, a.weight), e.eta + a.lag) && p == paths[e.node] + [a.dst]
    ensures State(g, root, hits + [Hit(a.dst, it.w, it.eta)], paths[a.dst := p], items + [it], depth, Some(e.node))
    ensures a.dst in g.adj && Queued(g, paths[a.dst := p], e, depth)
  {
    hide Carry, PathTree, Reports, Queue, Explored, Gain, LagSum;
    TreeGrows(g, root, paths, e.node, a);
    assert root in paths by {
      RootVisited(g, root, paths);
    }
    ReportsGrow(g, root, hits, paths, a.dst, p);
    QueueGrows(g, paths, items, depth, it, p);
    ExploredGrows(g, paths, items, Some(e.node), it, p);
  }

  lemma RootVisited(g: Graph, root: string, paths: Paths)
    requires PathTree(g, root, paths)
    ensures root in paths
  {
  }

  lemma Begin(g: Graph, root: string, hits: seq<Hit>, paths: Paths, items: seq<Item>, depth: nat)
    requires items != [] && State(g, root, hits, paths, items, depth, None)
    ensures items[0].node in paths && items[0].node in g.adj
    ensures Queued(g, paths, items[0], |paths[items[0].node]|)
    ensures State(g, root, hits, paths, items[1..], |paths[items[0].node]|, Some(items[0].node))
    ensures ClosedOver([], items[0].w, |paths[items[0].node]|, paths)
  {
    Pop(g, paths, items, depth);
  }

  lemma Finish(g: Graph, root: string, hits: seq<Hit>, paths: Paths, depth: nat)
    requires State(g, root, hits, paths, [], depth, None)
    ensures IsBlast(g, root, Sort(hits, StrongerFirst), paths)
  {
    hide Closed, PathTree;
    SortedReport(g, root, hits, paths);
  }

  method BlastRadius(g: Graph, root: string) returns (hits: seq<Hit>, ghost paths: Paths)
    requires Valid(g)
    ensures root !in g.adj ==> hits == []
    ensures root in g.adj ==> IsBlast(g, root, hits, paths)
  {
    hide Carry, State, IsBlast, Gain, LagSum, ClosedOver, Valid, Sort, Queued;
    hits, paths := [], map[root := [root]];
    if root !in g.adj {
      return;
    }
    var frontier := [Item(root, 1.0, 0)];
    var seen := {root};
    ghost var depth: nat := 1;
    Start(g, root);
    while frontier != []
      invariant seen == paths.Keys
      invariant State(g, root, hits, paths, frontier, depth, None)
      decreases |g.adj.Keys - seen|, |frontier|
    {
      var e := frontier[0];
      Begin(g, root, hits, paths, frontier, depth);
      frontier := frontier[1..];
      depth := |paths[e.node]|;
      var arcs := g.adj[e.node];
      ghost var room, waiting := |g.adj.Keys - seen|, |frontier|;
      for i := 0 to |arcs|
        invariant seen == paths.Keys && e.node in paths && |paths[e.node]| == depth
        invariant State(g, root, hits, paths, frontier, depth, Some(e.node)) && Queued(g, paths, e, depth)
        invariant ClosedOver(arcs[..i], e.w, depth, paths)
        invariant |g.adj.Keys - seen| < room || (|g.adj.Keys - seen| == room && |frontier| == waiting)
      {
        var a := arcs[i];
        var nw := Carry(e.w, a.weight);
        if a.dst in seen || nw < CUT {
          VisitedIsShallow(g, root, hits, paths, frontier, depth, Some(e.node));
        } else {
          var it := Item(a.dst, nw, e.eta + a.lag);
          ghost var p := paths[e.node] + [a.dst];
          Visit(g, root, hits, paths, frontier, depth, e, a, it, p);
          ClosedGrows(arcs[..i], e.w, depth, paths, a.dst, p);
          VisitShrinksRoom(g.adj.Keys, seen, a.dst);
          seen := seen + {a.dst};
          hits := hits + [Hit(a.dst, it.w, it.eta)];
          frontier := frontier + [it];
          paths := paths[a.dst := p];
        }
        ClosedOneMore(arcs, i, e.w, depth, paths);
      }
      assert arcs[..|arcs|] == arcs;
      Expanded(g, root, hits, paths, frontier, e);
    }
    Finish(g, root, hits, paths, depth);
    hits := Sort(hits, StrongerFirst);
  }

  lemma VisitedIsShallow(g: Graph, root: string, hits: seq<Hit>, paths: Paths, items: seq<Item>,
                         depth: nat, busy: Option<string>)
    requires State(g, root, hits, paths, items, depth, busy)
    ensures forall n :: n in paths ==> |paths[n]| <= depth + 1
  {
  }

  lemma VisitShrinksRoom(all: set<string>, seen: set<string>, n: string)
    requires n in all && n !in seen
    ensures |all - (seen + {n})| < |all - seen|
  {
    assert all - seen == (all - (seen + {n})) + {n};
  }

  // What a blast report tells.

  /** The path behind a hit is simple, has at most five hops, and never beats the best walk. */
  lemma HitIsBelowBest(g: Graph, root: string, hits: seq<Hit>, paths: Paths, h: Hit)
    requires Valid(g) && Bounded(g) && root in g.adj && IsBlast(g, root, hits, paths) && h in hits
    ensures Joins(g, root, h.pod, paths[h.pod]) && Distinct(paths[h.pod]) && 2 <= |paths[h.pod]| <= 6
    ensures h.impact == Gain(g, paths[h.pod]) && h.eta == LagSum(g, paths[h.pod])
    ensures h.pod in Impact.BestImpact(g, root) && CUT <= h.impact <= Impact.BestImpact(g, root)[h.pod]
  {
    hide Carry, Impact.BestImpact, Closed;
    assert Branch(g, root, paths, h.pod);
    SurvivingWalksAreShort(g, paths[h.pod]);
    Impact.BestImpactIsBestWalk(g, root, h.pod);
  }

  /** A direct successor above the cut is reported with exactly its own weight and delay. */
  lemma DirectSuccessorIsHit(g: Graph, root: string, hits: seq<Hit>, paths: Paths, a: Arc)
    requires Valid(g) && root in g.adj && IsBlast(g, root, hits, paths)
    requires a in g.adj[root] && a.dst != root && Carry(1.0, a.weight) >= CUT
    ensures Hit(a.dst, Carry(1.0, a.weight), a.lag) in hits
  {
    hide Carry;
    assert Closed(g, paths, root);
    var p := paths[a.dst];
    assert Branch(g, root, paths, a.dst);
    assert p == [root, a.dst];
    FindUnique(g.adj[root], a);
    WalkSnoc(g, [root], a.dst);
    assert [root] + [a.dst] == p;
    assert HitOf(g, paths, a.dst) in hits;
  }

  ghost predicate Covers(g: Graph, root: string, hits: seq<Hit>) {
    forall t :: t in Impact.BestImpact(g, root) && t != root ==> exists h :: h in hits && h.pod == t
  }

  ghost predicate LabelsAreBest(g: Graph, root: string, hits: seq<Hit>) {
    forall h :: h in hits ==> h.pod in Impact.BestImpact(g, root) && h.impact == Impact.BestImpact(g, root)[h.pod]
  }

  /** Whatever is missed is missed because some reported impact understates the best one. */
  lemma MissedMeansUnderstated(g: Graph, root: string, hits: seq<Hit>, paths: Paths)
    requires Valid(g) && Bounded(g) && root in g.adj && IsBlast(g, root, hits, paths)
    ensures LabelsAreBest(g, root, hits) ==> Covers(g, root, hits)
    ensures !LabelsAreBest(g, root, hits) ==>
              exists h :: h in hits && h.pod in Impact.BestImpact(g, root)
                       && h.impact < Impact.BestImpact(g, root)[h.pod]
  {
    hide Impact.BestImpact, Gain, IsBlast, Reports;
    if LabelsAreBest(g, root, hits) {
      forall t | t in Impact.BestImpact(g, root) && t != root
        ensures exists h :: h in hits && h.pod == t
      {
        Impact.BestImpactIsBestWalk(g, root, t);
        var p :| Joins(g, root, t, p) && |p| >= 2 && Gain(g, p) == Impact.BestImpact(g, root)[t];
        WalkIsFollowed(g, root, hits, paths, p);
        VisitedIsReported(g, root, hits, paths, t);
      }
    } else {
      var h :| h in hits
        && !(h.pod in Impact.BestImpact(g, root) && h.impact == Impact.BestImpact(g, root)[h.pod]);
      HitIsBelowBest(g, root, hits, paths, h);
    }
  }

  lemma VisitedIsReported(g: Graph, root: string, hits: seq<Hit>, paths: Paths, t: string)
    requires IsBlast(g, root, hits, paths) && t in paths && t != root
    ensures HitOf(g, paths, t) in hits
    ensures exists h :: h in hits && h.pod == t
  {
    assert HitOf(g, paths, t) in hits;
  }

  /** Under best labels the search follows every surviving walk, at no greater depth. */
  lemma {:induction false} WalkIsFollowed(g: Graph, root: string, hits: seq<Hit>, paths: Paths, p: seq<string>)
    requires Valid(g) && Bounded(g) && root in g.adj && IsBlast(g, root, hits, paths)
    requires LabelsAreBest(g, root, hits)
    requires IsWalk(g, p) && p[0] == root && Gain(g, p) >= CUT
    ensures p[|p| - 1] in paths && |paths[p[|p| - 1]]| <= |p|
  {
    hide Carry, Impact.BestImpact, Reports, Valid, Bounded, Closed, LabelsAreBest;
    if |p| == 1 {
      assert paths[root] == [root];
    } else {
      var front, v := p[..|p| - 1], p[|p| - 2];
      LastHop(g, p);
      WalkIsFollowed(g, root, hits, paths, front);
      LabelDominates(g, root, hits, paths, front);
      SurvivingHopIsVisited(g, paths, v, ArcOf(g, v, p[|p| - 1]).value, Gain(g, front));
    }
  }

  lemma SurvivingHopIsVisited(g: Graph, paths: Paths, v: string, a: Arc, w: real)
    requires v in paths && Closed(g, paths, v) && a in g.adj[v] && a.weight >= 0.0
    requires w <= Gain(g, paths[v]) && Carry(w, a.weight) >= CUT
    ensures a.dst in paths && |paths[a.dst]| <= |paths[v]| + 1
  {
    hide Carry;
    CarryMonotone(w, Gain(g, paths[v]), a.weight);
  }

  lemma LabelDominates(g: Graph, root: string, hits: seq<Hit>, paths: Paths, p: seq<string>)
    requires Valid(g) && Bounded(g) && root in g.adj && IsBlast(g, root, hits, paths)
    requires LabelsAreBest(g, root, hits)
    requires IsWalk(g, p) && p[0] == root && Gain(g, p) >= CUT && p[|p| - 1] in paths
    ensures Gain(g, p) <= Gain(g, paths[p[|p| - 1]])
  {
    hide Carry, Impact.BestImpact, Closed;
    var v := p[|p| - 1];
    if v == root {
      GainBound(g, p);
      PowDecayShrinks(|p| - 1);
    } else {
      VisitedIsReported(g, root, hits, paths, v);
      Impact.BestImpactIsBestWalk(g, root, v);
      assert Joins(g, root, v, p);
    }
  }

  // Exactly when the report is exact.

  ghost predicate Survives(g: Graph, root: string, t: string, p: seq<string>) {
    Joins(g, root, t, p) && |p| >= 2 && Gain(g, p) >= CUT
  }

  /** A surviving walk to t with the fewest hops. */
  ghost predicate IsFewest(g: Graph, root: string, t: string, p: seq<string>) {
    Survives(g, root, t, p) && forall q :: Survives(g, root, t, q) ==> |p| <= |q|
  }

  ghost predicate IsBest(g: Graph, root: string, t: string, p: seq<string>) {
    t in Impact.BestImpact(g, root) && Gain(g, p) == Impact.BestImpact(g, root)[t]
  }

  /** To every node, the walks with the fewest hops carry the best impact. */
  ghost predicate FewestAreBest(g: Graph, root: string) {
    forall t, p :: t != root && IsFewest(g, root, t, p) ==> IsBest(g, root, t, p)
  }

  /** Walks that tie for the fewest hops carry the same impact; so they do where there is only one. */
  ghost predicate FewestAgree(g: Graph, root: string) {
    forall t, p, q :: t != root && IsFewest(g, root, t, p) && IsFewest(g, root, t, q) ==> Gain(g, p) == Gain(g, q)
  }

  lemma {:induction false} FewestExists(g: Graph, root: string, t: string, p: seq<string>) returns (q: seq<string>)
    requires Survives(g, root, t, p)
    ensures IsFewest(g, root, t, q) && |q| <= |p|
    decreases |p|
  {
    hide Survives;
    if IsFewest(g, root, t, p) {
      q := p;
    } else {
      var shorter :| Survives(g, root, t, shorter) && |shorter| < |p|;
      q := FewestExists(g, root, t, shorter);
    }
  }

  lemma SurvivorIsBounded(g: Graph, root: string, t: string, p: seq<string>)
    requires Valid(g) && Bounded(g) && root in g.adj && Survives(g, root, t, p)
    ensures t in Impact.BestImpact(g, root) && Gain(g, p) <= Impact.BestImpact(g, root)[t]
  {
    hide Impact.BestImpact, Gain;
    Impact.BestImpactIsBestWalk(g, root, t);
  }

  lemma ExtendSurvivor(g: Graph, root: string, q: seq<string>, v: string, t: string, w: real)
    requires Valid(g) && Bounded(g) && Joins(g, root, v, q) && ArcOf(g, v, t).Some?
    requires w <= Gain(g, q) && Carry(w, Weight(g, v, t)) >= CUT
    ensures Survives(g, root, t, q + [t])
  {
    hide Carry, Gain;
    WalkSnoc(g, q, t);
    ArcBounds(g, v, t);
    CarryMonotone(w, Gain(g, q), Weight(g, v, t));
  }

  /** If fewest hops carry the best impact, a fewest walk goes through fewest walks. */
  lemma FrontIsFewest(g: Graph, root: string, t: string, p: seq<string>)
    requires Valid(g) && Bounded(g) && root in g.adj && FewestAreBest(g, root)
    requires IsFewest(g, root, t, p) && |p| > 2
    ensures p[|p| - 2] != root && IsFewest(g, root, p[|p| - 2], p[..|p| - 1])
  {
    hide Carry, Gain, Valid, Bounded, Impact.BestImpact;
    var front, v := p[..|p| - 1], p[|p| - 2];
    LastHop(g, p);
    assert Survives(g, root, v, front);
    if v == root {
      GainOfNode(g, root);
      ExtendSurvivor(g, root, [root], root, t, Gain(g, front));
    }
    var q := FewestExists(g, root, v, front);
    if v != root && |q| < |front| {
      SurvivorIsBounded(g, root, v, front);
      assert IsBest(g, root, v, q);
      ExtendSurvivor(g, root, q, v, t, Gain(g, front));
    }
  }

  lemma GainOfNode(g: Graph, n: string)
    requires n in g.adj
    ensures Joins(g, n, n, [n]) && Gain(g, [n]) == 1.0
  {
  }

  /** Then the search reaches every node over one of its fewest walks. */
  lemma {:induction false} FewestIsFollowed(g: Graph, root: string, hits: seq<Hit>, paths: Paths,
                                            t: string, p: seq<string>)
    requires Valid(g) && Bounded(g) && root in g.adj && IsBlast(g, root, hits, paths) && FewestAreBest(g, root)
    requires t != root && IsFewest(g, root, t, p)
    ensures t in paths && IsFewest(g, root, t, paths[t])
    decreases |p|
  {
    hide Carry, Valid, Bounded, Impact.BestImpact, Reports, Closed, Gain;
    var front, v := p[..|p| - 1], p[|p| - 2];
    LastHop(g, p);
    if |p| > 2 {
      FrontIsFewest(g, root, t, p);
      FewestIsFollowed(g, root, hits, paths, v, front);
      SurvivorIsBounded(g, root, v, front);
      assert IsBest(g, root, v, paths[v]);
    } else {
      GainOfNode(g, root);
      assert front == [root];
    }
    SurvivingHopIsVisited(g, paths, v, ArcOf(g, v, t).value, Gain(g, front));
    assert Branch(g, root, paths, t);
  }

  /** Where fewest hops carry the best impact, the report is complete and exact. */
  lemma FewestBestIsExact(g: Graph, root: string, hits: seq<Hit>, paths: Paths)
    requires Valid(g) && Bounded(g) && root in g.adj && IsBlast(g, root, hits, paths) && FewestAreBest(g, root)
    ensures LabelsAreBest(g, root, hits) && Covers(g, root, hits)
  {
    hide Impact.BestImpact, Carry, Gain, Closed, SortedBy;
    forall h | h in hits
      ensures h.pod in Impact.BestImpact(g, root) && h.impact == Impact.BestImpact(g, root)[h.pod]
    {
      assert Branch(g, root, paths, h.pod);
      var q := FewestExists(g, root, h.pod, paths[h.pod]);
      FewestIsFollowed(g, root, hits, paths, h.pod, q);
      assert IsBest(g, root, h.pod, paths[h.pod]);
    }
    MissedMeansUnderstated(g, root, hits, paths);
  }

  /** If the report is exact, every reachable node has a fewest walk that carries the best impact: the
      one the search took. */
  lemma ExactMeansFewestBest(g: Graph, root: string, hits: seq<Hit>, paths: Paths, t: string)
    requires Valid(g) && Bounded(g) && root in g.adj && IsBlast(g, root, hits, paths) && LabelsAreBest(g, root, hits)
    requires t != root && t in Impact.BestImpact(g, root)
    ensures t in paths && IsFewest(g, root, t, paths[t]) && IsBest(g, root, t, paths[t])
  {
    hide Impact.BestImpact, Carry, Gain, Closed, SortedBy;
    MissedMeansUnderstated(g, root, hits, paths);
    assert t in paths && Branch(g, root, paths, t);
    VisitedIsReported(g, root, hits, paths, t);
    forall q | Survives(g, root, t, q)
      ensures |paths[t]| <= |q|
    {
      WalkIsFollowed(g, root, hits, paths, q);
    }
  }

  /** The report is complete and exact exactly when the walks with the fewest hops are the best ones;
      where walks tie for the fewest hops, this supposes that they carry the same. */
  lemma ReportIsExactIff(g: Graph, root: string, hits: seq<Hit>, paths: Paths)
    requires Valid(g) && Bounded(g) && root in g.adj && IsBlast(g, root, hits, paths) && FewestAgree(g, root)
    ensures LabelsAreBest(g, root, hits) && Covers(g, root, hits) <==> FewestAreBest(g, root)
  {
    hide Impact.BestImpact, Gain, IsBlast, LabelsAreBest, Covers, IsFewest;
    if FewestAreBest(g, root) {
      FewestBestIsExact(g, root, hits, paths);
    } else if LabelsAreBest(g, root, hits) {
      forall t, p | t != root && IsFewest(g, root, t, p)
        ensures IsBest(g, root, t, p)
      {
        FewestSurvives(g, root, t, p);
        SurvivorIsBounded(g, root, t, p);
        ExactMeansFewestBest(g, root, hits, paths, t);
      }
    }
  }

  lemma FewestSurvives(g: Graph, root: string, t: string, p: seq<string>)
    requires IsFewest(g, root, t, p)
    ensures Survives(g, root, t, p)
  {
  }

  // Equal weights.

  ghost predicate Uniform(g: Graph, c: real) {
    0.0 <= c <= 1.0 && forall n :: n in g.adj ==> forall a :: a in g.adj[n] ==> a.weight == c
  }

  /** With equal weights on all arcs breadth first is enough. */
  lemma UniformWeightsAreExact(g: Graph, root: string, hits: seq<Hit>, paths: Paths, c: real)
    requires Valid(g) && Bounded(g) && root in g.adj && IsBlast(g, root, hits, paths) && Uniform(g, c)
    ensures LabelsAreBest(g, root, hits) && Covers(g, root, hits)
  {
    hide IsBlast, LabelsAreBest, Covers, Uniform, Valid, Bounded;
    forall t, p | t != root && IsFewest(g, root, t, p)
      ensures IsBest(g, root, t, p)
    {
      UniformFewestIsBest(g, root, c, t, p);
    }
    FewestBestIsExact(g, root, hits, paths);
  }

  lemma UniformFewestIsBest(g: Graph, root: string, c: real, t: string, p: seq<string>)
    requires Valid(g) && Bounded(g) && root in g.adj && Uniform(g, c) && IsFewest(g, root, t, p)
    ensures IsBest(g, root, t, p)
  {
    hide Impact.BestImpact, Gain, Uniform, Valid, Bounded;
    SurvivorIsBounded(g, root, t, p);
    Impact.BestImpactIsBestWalk(g, root, t);
    var q :| Joins(g, root, t, q) && |q| >= 2 && Gain(g, q) == Impact.BestImpact(g, root)[t];
    ShorterIsStronger(g, c, p, q);
  }

  function CarryN(c: real, n: nat): real {
    if n == 0 then 1.0 else Carry(CarryN(c, n - 1), c)
  }

  lemma {:induction false} UniformGain(g: Graph, c: real, p: seq<string>)
    requires Valid(g) && IsWalk(g, p) && Uniform(g, c)
    ensures Gain(g, p) == CarryN(c, |p| - 1)
  {
    hide Carry;
    if |p| <= 1 {
    } else {
      UniformGain(g, c, p[..|p| - 1]);
      WalkStaysInside(g, p);
      FindMeans(g.adj[p[|p| - 2]], p[|p| - 1]);
    }
  }

  lemma {:induction false} UniformDecreases(c: real, m: nat, n: nat)
    requires 0.0 <= c <= 1.0 && m <= n
    ensures 0.0 <= CarryN(c, n) <= CarryN(c, m)
    decreases n
  {
    hide Carry;
    if n == 0 {
    } else {
      UniformDecreases(c, if m < n then m else n - 1, n - 1);
      CarryBounds(CarryN(c, n - 1), c);
      if m == n {
        UniformDecreases(c, n - 1, n - 1);
      }
    }
  }

  /** Along equal weights the shorter walk carries at least as much. */
  lemma ShorterIsStronger(g: Graph, c: real, p: seq<string>, q: seq<string>)
    requires Valid(g) && Bounded(g) && Uniform(g, c) && IsWalk(g, p) && IsWalk(g, q) && |p| <= |q|
    ensures Gain(g, q) <= Gain(g, p)
  {
    UniformGain(g, c, p);
    UniformGain(g, c, q);
    UniformDecreases(c, |p| - 1, |q| - 1);
  }

  // First visits are not best visits in general.

  function DetourEdges(r: string, a: string, b: string, c: string): seq<Edge> {
    [Edge(r, a, 0.5, 0, []), Edge(r, b, 1.0, 0, []), Edge(b, a, 1.0, 0, []), Edge(a, c, 0.5, 0, [])]
  }

  function Detour(r: string, a: string, b: string, c: string): Graph {
    GraphOf(DetourEdges(r, a, b, c))
  }

  ghost predicate FourNames(r: string, a: string, b: string, c: string) {
    r != a && r != b && r != c && a != b && a != c && b != c
  }

  lemma DetourShape(r: string, a: string, b: string, c: string)
    requires FourNames(r, a, b, c)
    ensures var g := Detour(r, a, b, c); Valid(g) && Bounded(g)
    ensures forall u, v :: ArcOf(Detour(r, a, b, c), u, v) ==
              if (u == r && v == a) || (u == a && v == c) then Some(Arc(v, 0.5, 0))
              else if (u == r && v == b) || (u == b && v == a) then Some(Arc(v, 1.0, 0))
              else None
  {
    hide GraphOf;
    var es := DetourEdges(r, a, b, c);
    GraphOfIsValid(es);
    BoundedFromEdges(es);
    assert es[..3][..2] == es[..2] && es[..3][..2][..1] == es[..1] && es[..3][..2][..1][..0] == [];
    forall u, v
      ensures ArcOf(GraphOf(es), u, v) ==
              if (u == r && v == a) || (u == a && v == c) then Some(Arc(v, 0.5, 0))
              else if (u == r && v == b) || (u == b && v == a) then Some(Arc(v, 1.0, 0))
              else None
    {
      ArcIsLastEdge(es, u, v);
      assert LastEdge(es[..3][..2][..1], u, v) == if u == r && v == a then Some(es[0]) else None;
      assert LastEdge(es[..3][..2], u, v) ==
             if u == r && v == b then Some(es[1]) else LastEdge(es[..3][..2][..1], u, v);
      assert LastEdge(es[..3], u, v) == if u == b && v == a then Some(es[2]) else LastEdge(es[..3][..2], u, v);
    }
  }

  lemma DetourFacts(r: string, a: string, b: string, c: string)
    requires FourNames(r, a, b, c)
    ensures var g := Detour(r, a, b, c);
            && Valid(g) && Bounded(g) && r in g.adj && Arc(a, 0.5, 0) in g.adj[r]
            && ArcOf(g, r, b) == Some(Arc(b, 1.0, 0)) && ArcOf(g, b, a) == Some(Arc(a, 1.0, 0))
            && ArcOf(g, a, c) == Some(Arc(c, 0.5, 0)) && Weight(g, a, c) == 0.5
            && forall v :: ArcOf(g, v, c).Some? ==> v == a
  {
    hide Detour, Valid, Bounded;
    var g := Detour(r, a, b, c);
    DetourShape(r, a, b, c);
    assert ArcOf(g, r, a) == Some(Arc(a, 0.5, 0));
    FindMeans(g.adj[r], a);
  }

  /** a is first met over its weak direct arc, so c, reached strongly through b and a, is never
      predicted, although the ranking's forward impact does reach it. */
  lemma DetourHidesVictim(r: string, a: string, b: string, c: string, hits: seq<Hit>, paths: Paths)
    requires FourNames(r, a, b, c) && IsBlast(Detour(r, a, b, c), r, hits, paths)
    ensures c in Impact.BestImpact(Detour(r, a, b, c), r)
    ensures forall h :: h in hits ==> h.pod != c
  {
    hide Detour, Carry, Impact.BestImpact, Reports, Closed, SortedBy, Gain, Bounded, Valid, Branch;
    var g := Detour(r, a, b, c);
    DetourFacts(r, a, b, c);
    hide ArcOf, Weight;
    DetourReaches(g, r, a, b, c);
    CarriedOver();
    DirectSuccessorIsHit(g, r, hits, paths, Arc(a, 0.5, 0));
    HitIsVisited(g, r, hits, paths, Hit(a, Carry(1.0, 0.5), 0));
    if c in paths {
      OnlyOver(g, r, paths, a, c);
    }
    forall h | h in hits
      ensures h.pod in paths
    {
      HitIsVisited(g, r, hits, paths, h);
    }
  }

  lemma HitIsVisited(g: Graph, root: string, hits: seq<Hit>, paths: Paths, h: Hit)
    requires IsBlast(g, root, hits, paths) && h in hits
    ensures h.pod in paths && h.pod != root && h.impact == Gain(g, paths[h.pod])
  {
    hide Gain;
  }

  /** The impact of a visited node is carried over from its only cause. */
  lemma OnlyOver(g: Graph, root: string, paths: Paths, a: string, n: string)
    requires PathTree(g, root, paths) && n in paths && n != root
    requires forall v :: ArcOf(g, v, n).Some? ==> v == a
    ensures a in paths && CUT <= Gain(g, paths[n]) == Carry(Gain(g, paths[a]), Weight(g, a, n))
  {
    hide Carry;
    assert Branch(g, root, paths, n);
    var p := paths[n];
    assert ArcOf(g, p[|p| - 2], p[|p| - 2 + 1]).Some?;
  }

  lemma CarriedOver()
    ensures Carry(1.0, 0.5) >= CUT && Carry(Carry(1.0, 0.5), 0.5) < CUT
    ensures Carry(Carry(Carry(1.0, 1.0), 1.0), 0.5) >= CUT
  {
  }

  lemma DetourReaches(g: Graph, r: string, a: string, b: string, c: string)
    requires FourNames(r, a, b, c) && Valid(g) && Bounded(g) && r in g.adj
    requires ArcOf(g, r, b) == Some(Arc(b, 1.0, 0)) && ArcOf(g, b, a) == Some(Arc(a, 1.0, 0))
    requires ArcOf(g, a, c) == Some(Arc(c, 0.5, 0))
    ensures c in Impact.BestImpact(g, r)
  {
    hide Carry, Impact.BestImpact, Valid, Bounded;
    WalkSnoc(g, [r], b);
    WalkSnoc(g, [r] + [b], a);
    WalkSnoc(g, [r] + [b] + [a], c);
    var p := [r] + [b] + [a] + [c];
    assert Gain(g, p) == Carry(Carry(Carry(1.0, 1.0), 1.0), 0.5);
    CarriedOver();
    assert Joins(g, r, c, p);
    Impact.BestImpactIsBestWalk(g, r, c);
  }
}
