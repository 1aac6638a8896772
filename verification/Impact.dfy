/** The label-correcting worklist `_forward_impact`, proved equal to the best-walk reference. */
module Impact {
  import opened Common
  import opened Digraph

  // The reference: best gain over walks of a bounded number of hops, round by round.

  /** Best gain of a walk of 1..k hops from s to t, 0 if there is none. */
  function Best(g: Graph, s: string, t: string, k: nat): real
    decreases k, 1, 0
  {
    if k == 0 then 0.0 else BestVia(g, s, t, k, g.nodes)
  }

  /** The same, with the last hop leaving one of vs. */
  function BestVia(g: Graph, s: string, t: string, k: nat, vs: seq<string>): real
    requires k > 0
    decreases k, 0, |vs|
  {
    if vs == [] then 0.0
    else Max(Carry(Label(g, s, vs[0], k - 1), Weight(g, vs[0], t)), BestVia(g, s, t, k, vs[1..]))
  }

  /** As Best, but the empty walk counts too. */
  function Label(g: Graph, s: string, v: string, k: nat): real
    decreases k, 2, 0
  {
    if v == s then Max(1.0, Best(g, s, v, k)) else Best(g, s, v, k)
  }

  /** Who is reached above the cut, and how strongly at best. */
  function BestImpact(g: Graph, s: string): map<string, real> {
    map t | t in g.adj && Best(g, s, t, 5) >= CUT :: Best(g, s, t, 5)
  }

  lemma {:induction false} ViaDominates(g: Graph, s: string, t: string, k: nat, vs: seq<string>, v: string)
    requires k > 0 && v in vs
    ensures BestVia(g, s, t, k, vs) >= Carry(Label(g, s, v, k - 1), Weight(g, v, t))
  {
    hide Carry;
    if vs[0] != v {
      ViaDominates(g, s, t, k, vs[1..], v);
    }
  }

  lemma {:induction false} ViaAttained(g: Graph, s: string, t: string, k: nat, vs: seq<string>) returns (v: string)
    requires k > 0 && BestVia(g, s, t, k, vs) > 0.0
    ensures v in vs && BestVia(g, s, t, k, vs) == Carry(Label(g, s, v, k - 1), Weight(g, v, t))
  {
    hide Carry;
    if BestVia(g, s, t, k, vs) == Carry(Label(g, s, vs[0], k - 1), Weight(g, vs[0], t)) {
      v := vs[0];
    } else {
      v := ViaAttained(g, s, t, k, vs[1..]);
    }
  }

  /** No walk of at most k hops beats Best. */
  lemma {:induction false} BestIsUpperBound(g: Graph, s: string, t: string, k: nat, p: seq<string>)
    requires Valid(g) && Bounded(g) && Joins(g, s, t, p) && 2 <= |p| <= k + 1
    ensures Gain(g, p) <= Best(g, s, t, k)
    decreases k
  {
    hide Carry;
    var front, v := p[..|p| - 1], p[|p| - 2];
    WalkStaysInside(g, p);
    assert Joins(g, s, v, front);
    assert Gain(g, front) <= Label(g, s, v, k - 1) by {
      if |p| > 2 {
        BestIsUpperBound(g, s, v, k - 1, front);
      }
    }
    ViaDominates(g, s, t, k, g.nodes, v);
    ArcBounds(g, v, t);
    CarryMonotone(Gain(g, front), Label(g, s, v, k - 1), Weight(g, v, t));
  }

  /** A positive Best is the gain of some walk. */
  lemma {:induction false} BestIsAttained(g: Graph, s: string, t: string, k: nat) returns (p: seq<string>)
    requires Valid(g) && Bounded(g) && s in g.adj && Best(g, s, t, k) > 0.0
    ensures Joins(g, s, t, p) && 2 <= |p| <= k + 1 && Gain(g, p) == Best(g, s, t, k)
    decreases k
  {
    hide Carry;
    var v := ViaAttained(g, s, t, k, g.nodes);
    ArcBounds(g, v, t);
    var best := Label(g, s, v, k - 1);
    CarryOfZero(best, Weight(g, v, t));
    var q := [s];
    if best == Best(g, s, v, k - 1) {
      q := BestIsAttained(g, s, v, k - 1);
    }
    WalkSnoc(g, q, t);
    p := q + [t];
  }

  /** BestImpact is the best-walk product, over walks of every length, cycles included. */
  lemma BestImpactIsBestWalk(g: Graph, s: string, t: string)
    requires Valid(g) && Bounded(g) && s in g.adj
    ensures t in BestImpact(g, s) <==> exists p :: Joins(g, s, t, p) && |p| >= 2 && Gain(g, p) >= CUT
    ensures t in BestImpact(g, s) ==> exists p :: Joins(g, s, t, p) && |p| >= 2 && Gain(g, p) == BestImpact(g, s)[t]
    ensures t in BestImpact(g, s) ==>
              CUT <= BestImpact(g, s)[t] <= DECAY
              && forall p :: Joins(g, s, t, p) && |p| >= 2 ==> Gain(g, p) <= BestImpact(g, s)[t]
  {
    hide Carry;
    if t in BestImpact(g, s) {
      var p := BestIsAttained(g, s, t, 5);
      GainBound(g, p);
      assert Pow(DECAY, |p| - 1) == DECAY * Pow(DECAY, |p| - 2);
      PowDecayShrinks(|p| - 2);
    }
    forall p | Joins(g, s, t, p) && |p| >= 2 && Gain(g, p) >= CUT
      ensures t in BestImpact(g, s) && Gain(g, p) <= BestImpact(g, s)[t]
    {
      SurvivingWalksAreShort(g, p);
      BestIsUpperBound(g, s, t, 5, p);
      WalkStaysInside(g, p);
    }
  }

  // The worklist.

  datatype Entry = Entry(node: string, w: real)

  /** Every hop out of n, taken with weight w, is cut off or already matched. */
  ghost predicate Settled(arcs: seq<Arc>, impact: map<string, real>, w: real) {
    forall a :: a in arcs ==>
      Carry(w, a.weight) < CUT || (a.dst in impact && Carry(w, a.weight) <= impact[a.dst])
  }

  /** The label w of n has been, or will still be, propagated. */
  ghost predicate Covered(g: Graph, impact: map<string, real>, pending: seq<Entry>, n: string, w: real) {
    n in g.adj && (Entry(n, w) in pending || Settled(g.adj[n], impact, w))
  }

  /** Each pending entry is the end of a surviving walk. */
  ghost predicate Tracked(g: Graph, root: string, pending: seq<Entry>, walks: seq<seq<string>>) {
    && |walks| == |pending|
    && forall i :: 0 <= i < |pending| ==>
         Joins(g, root, pending[i].node, walks[i]) && Gain(g, walks[i]) == pending[i].w && 1 <= |walks[i]| <= 6
  }

  /** Each label is the gain of a walk that survives the cut. */
  ghost predicate Sound(g: Graph, root: string, impact: map<string, real>) {
    forall t :: t in impact ==>
      impact[t] >= CUT && exists p :: Joins(g, root, t, p) && |p| >= 2 && Gain(g, p) == impact[t]
  }

  /** Every label, and the root's own, is covered; `busy` is the entry being expanded. */
  ghost predicate Complete(g: Graph, root: string, impact: map<string, real>, pending: seq<Entry>,
                           busy: Option<Entry>) {
    && (Covered(g, impact, pending, root, 1.0) || busy == Some(Entry(root, 1.0)))
    && forall t :: t in impact ==> Covered(g, impact, pending, t, impact[t]) || busy == Some(Entry(t, impact[t]))
  }

  /** How much work the pending walks can still cause: b^(6 - hops) each. */
  ghost function Work(walks: seq<seq<string>>, b: nat): nat {
    if walks == [] then 0
    else Work(walks[..|walks| - 1], b) + Power(b, if |walks[|walks| - 1]| <= 7 then 7 - |walks[|walks| - 1]| else 0)
  }

  ghost function Power(b: nat, n: nat): nat {
    if n == 0 then 1 else b * Power(b, n - 1)
  }

  lemma {:induction false} PowerPositive(b: nat, n: nat)
    requires b >= 1
    ensures Power(b, n) >= 1
  {
    if n == 0 {
    } else {
      PowerPositive(b, n - 1);
    }
  }

  lemma {:induction false} WorkOfRest(walks: seq<seq<string>>, b: nat)
    requires walks != [] && 1 <= |walks[0]| <= 6
    ensures Work(walks, b) == Power(b, 7 - |walks[0]|) + Work(walks[1..], b)
  {
    if |walks| <= 1 {
    } else {
      WorkOfRest(walks[..|walks| - 1], b);
      assert walks[..|walks| - 1][1..] == walks[1..][..|walks| - 2];
    }
  }

  lemma WorkSnoc(walks: seq<seq<string>>, p: seq<string>, b: nat)
    requires 1 <= |p| <= 6
    ensures Work(walks + [p], b) == Work(walks, b) + Power(b, 7 - |p|)
  {
    assert (walks + [p])[..|walks|] == walks;
  }

  ghost function MaxDegree(g: Graph, ns: seq<string>): nat
    ensures forall n :: n in ns && n in g.adj ==> |g.adj[n]| <= MaxDegree(g, ns)
  {
    if ns == [] then 0
    else
      var rest := MaxDegree(g, ns[1..]);
      if ns[0] in g.adj && |g.adj[ns[0]]| > rest then |g.adj[ns[0]]| else rest
  }

  /** Raising one label keeps everything that was covered. */
  lemma RaiseKeepsCovered(g: Graph, impact: map<string, real>, pending: seq<Entry>, e: Entry, n: string, w: real)
    requires e.node in impact ==> e.w > impact[e.node]
    requires Covered(g, impact, pending, n, w)
    ensures Covered(g, impact[e.node := e.w], pending + [e], n, w)
  {
  }

  lemma RaiseKeepsComplete(g: Graph, root: string, impact: map<string, real>, pending: seq<Entry>,
                           busy: Option<Entry>, e: Entry)
    requires Complete(g, root, impact, pending, busy)
    requires e.node in g.adj && (e.node in impact ==> e.w > impact[e.node])
    ensures Complete(g, root, impact[e.node := e.w], pending + [e], busy)
  {
    var raised := impact[e.node := e.w];
    if Covered(g, impact, pending, root, 1.0) {
      RaiseKeepsCovered(g, impact, pending, e, root, 1.0);
    }
    forall t | t in raised
      ensures Covered(g, raised, pending + [e], t, raised[t]) || busy == Some(Entry(t, raised[t]))
    {
      if t != e.node && Covered(g, impact, pending, t, impact[t]) {
        RaiseKeepsCovered(g, impact, pending, e, t, impact[t]);
      }
    }
  }

  /** At the end every surviving walk is matched by a label. */
  lemma {:induction false} LabelsDominateWalks(g: Graph, root: string, impact: map<string, real>, p: seq<string>)
    requires Valid(g) && Bounded(g) && Complete(g, root, impact, [], None)
    requires IsWalk(g, p) && p[0] == root && |p| >= 2 && Gain(g, p) >= CUT
    ensures p[|p| - 1] in impact && Gain(g, p) <= impact[p[|p| - 1]]
  {
    hide Carry;
    var front, v, t := p[..|p| - 1], p[|p| - 2], p[|p| - 1];
    GainBound(g, front);
    ArcBounds(g, v, t);
    var a := ArcOf(g, v, t).value;
    FindMeans(g.adj[v], t);
    CarryBounds(Gain(g, front), a.weight);
    var w := 1.0;
    if |front| >= 2 {
      LabelsDominateWalks(g, root, impact, front);
      w := impact[v];
      assert Covered(g, impact, [], v, w);
    } else {
      assert Covered(g, impact, [], root, w);
    }
    assert Settled(g.adj[v], impact, w);
    CarryMonotone(Gain(g, front), w, a.weight);
  }

  lemma SoundLabelIsBounded(g: Graph, root: string, impact: map<string, real>, t: string)
    requires Valid(g) && Bounded(g) && root in g.adj && Sound(g, root, impact) && t in impact
    ensures t in BestImpact(g, root) && impact[t] <= BestImpact(g, root)[t]
  {
    hide BestImpact, Carry;
    BestImpactIsBestWalk(g, root, t);
  }

  lemma BestLabelIsFound(g: Graph, root: string, impact: map<string, real>, t: string)
    requires Valid(g) && Bounded(g) && root in g.adj && Complete(g, root, impact, [], None)
    requires t in BestImpact(g, root)
    ensures t in impact && BestImpact(g, root)[t] <= impact[t]
  {
    hide BestImpact, Carry, Complete;
    BestImpactIsBestWalk(g, root, t);
    var p :| Joins(g, root, t, p) && |p| >= 2 && Gain(g, p) == BestImpact(g, root)[t];
    LabelsDominateWalks(g, root, impact, p);
  }

  lemma WorklistResult(g: Graph, root: string, impact: map<string, real>)
    requires Valid(g) && Bounded(g) && root in g.adj
    requires Sound(g, root, impact) && Complete(g, root, impact, [], None)
    ensures impact == BestImpact(g, root)
  {
    hide BestImpact, Sound, Complete;
    var best := BestImpact(g, root);
    forall t | t in impact
      ensures t in best && impact[t] <= best[t]
    {
      SoundLabelIsBounded(g, root, impact, t);
    }
    forall t | t in best
      ensures t in impact && best[t] <= impact[t]
    {
      BestLabelIsFound(g, root, impact, t);
    }
  }

  /** A push extends the walk of the expanded entry by one surviving hop. */
  lemma PushKeepsInvariants(g: Graph, root: string, impact: map<string, real>, pending: seq<Entry>,
                            walks: seq<seq<string>>, walk: seq<string>, e: Entry, a: Arc)
    requires Valid(g) && Bounded(g)
    requires Tracked(g, root, pending, walks) && Sound(g, root, impact)
    requires Joins(g, root, e.node, walk) && Gain(g, walk) == e.w
    requires e.node in g.adj && a in g.adj[e.node] && Carry(e.w, a.weight) >= CUT
    ensures |walk| <= 5 && a.dst in g.adj
    ensures Tracked(g, root, pending + [Entry(a.dst, Carry(e.w, a.weight))], walks + [walk + [a.dst]])
    ensures Sound(g, root, impact[a.dst := Carry(e.w, a.weight)])
  {
    hide Carry;
    var longer := walk + [a.dst];
    FindUnique(g.adj[e.node], a);
    WalkSnoc(g, walk, a.dst);
    SurvivingWalksAreShort(g, longer);
    assert Joins(g, root, a.dst, longer) && Gain(g, longer) == Carry(e.w, a.weight);
  }

  lemma PopKeepsComplete(g: Graph, root: string, impact: map<string, real>, pending: seq<Entry>)
    requires pending != [] && Complete(g, root, impact, pending, None)
    ensures Complete(g, root, impact, pending[1..], Some(pending[0]))
  {
    hide Settled;
    assert pending == [pending[0]] + pending[1..];
  }

  lemma ExpansionIsComplete(g: Graph, root: string, impact: map<string, real>, pending: seq<Entry>, e: Entry)
    requires e.node in g.adj && Settled(g.adj[e.node], impact, e.w)
    requires Complete(g, root, impact, pending, Some(e))
    ensures Complete(g, root, impact, pending, None)
  {
    hide Settled;
  }

  lemma SettleOneMore(arcs: seq<Arc>, i: nat, impact: map<string, real>, raised: map<string, real>, w: real)
    requires i < |arcs| && Settled(arcs[..i], impact, w)
    requires forall t :: t in impact ==> t in raised && impact[t] <= raised[t]
    requires Carry(w, arcs[i].weight) < CUT
             || (arcs[i].dst in raised && Carry(w, arcs[i].weight) <= raised[arcs[i].dst])
    ensures Settled(arcs[..i + 1], raised, w)
  {
    hide Carry;
    assert arcs[..i + 1] == arcs[..i] + [arcs[i]];
  }

  lemma StartInvariants(g: Graph, root: string)
    requires root in g.adj
    ensures Sound(g, root, map[]) && Complete(g, root, map[], [Entry(root, 1.0)], None)
    ensures Tracked(g, root, [Entry(root, 1.0)], [[root]])
  {
  }

  lemma SettledNone(impact: map<string, real>, w: real)
    ensures Settled([], impact, w)
  {
  }

  lemma SharesFit(b: nat, n: nat, degree: nat)
    requires degree < b
    ensures degree * Power(b, n) < Power(b, n + 1)
  {
    PowerPositive(b, n);
  }

  /** The walk of the entry at the head of the queue, and what popping it leaves. */
  lemma FirstWalk(g: Graph, root: string, pending: seq<Entry>, walks: seq<seq<string>>, b: nat)
    returns (walk: seq<string>)
    requires Valid(g) && pending != [] && Tracked(g, root, pending, walks) && b == MaxDegree(g, g.nodes) + 1
    ensures walks != [] && walk == walks[0] && 1 <= |walk| <= 6
    ensures Joins(g, root, pending[0].node, walk) && Gain(g, walk) == pending[0].w
    ensures pending[0].node in g.adj && |g.adj[pending[0].node]| < b
    ensures Tracked(g, root, pending[1..], walks[1..])
    ensures Work(walks, b) == Power(b, 7 - |walk|) + Work(walks[1..], b)
  {
    hide Gain, Power;
    walk := walks[0];
    WalkStaysInside(g, walk);
    WorkOfRest(walks, b);
  }

  /** The worklist: a node is queued again whenever its label improves. */
  method ForwardImpact(g: Graph, root: string) returns (impact: map<string, real>)
    requires Valid(g) && Bounded(g) && root in g.adj
    ensures impact == BestImpact(g, root)
  {
    hide Carry, Complete, Sound, Settled, BestImpact, Tracked, Valid, Bounded, Work, Power, Joins, Gain;
    impact := map[];
    var frontier := [Entry(root, 1.0)];
    ghost var walks := [[root]];
    ghost var b := MaxDegree(g, g.nodes) + 1;
    StartInvariants(g, root);
    while frontier != []
      invariant Tracked(g, root, frontier, walks)
      invariant Sound(g, root, impact)
      invariant Complete(g, root, impact, frontier, None)
      decreases Work(walks, b)
    {
      var e := frontier[0];
      ghost var walk := FirstWalk(g, root, frontier, walks, b);
      var arcs := g.adj[e.node];
      PopKeepsComplete(g, root, impact, frontier);
      frontier, walks := frontier[1..], walks[1..];
      ghost var share, rest := Power(b, 6 - |walk|), Work(walks, b);
      SettledNone(impact, e.w);
      for i := 0 to |arcs|
        invariant Tracked(g, root, frontier, walks)
        invariant Sound(g, root, impact)
        invariant Complete(g, root, impact, frontier, Some(e))
        invariant Settled(arcs[..i], impact, e.w)
        invariant Work(walks, b) <= rest + i * share
      {
        var a := arcs[i];
        var nw := Carry(e.w, a.weight);
        if nw < CUT || (a.dst in impact && nw <= impact[a.dst]) {
          SettleOneMore(arcs, i, impact, impact, e.w);
        } else {
          PushKeepsInvariants(g, root, impact, frontier, walks, walk, e, a);
          RaiseKeepsComplete(g, root, impact, frontier, Some(e), Entry(a.dst, nw));
          SettleOneMore(arcs, i, impact, impact[a.dst := nw], e.w);
          WorkSnoc(walks, walk + [a.dst], b);
          impact := impact[a.dst := nw];
          frontier, walks := frontier + [Entry(a.dst, nw)], walks + [walk + [a.dst]];
        }
        assert (i + 1) * share == i * share + share;
      }
      assert arcs[..|arcs|] == arcs;
      ExpansionIsComplete(g, root, impact, frontier, e);
      SharesFit(b, 6 - |walk|, |arcs|);
    }
    WorklistResult(g, root, impact);
  }

}
