/** When one graph explains everything that another does, at least as well. */
module ImpactOrder {
  import opened Digraph
  import opened Impact

  /** h keeps every impact of g. */
  ghost predicate KeepsImpacts(h: Graph, g: Graph) {
    forall n, t :: n in g.adj && t in BestImpact(g, n) ==> KeepsImpact(h, g, n, t)
  }

  ghost predicate KeepsImpact(h: Graph, g: Graph, n: string, t: string)
    requires t in BestImpact(g, n)
  {
    n in h.adj && t in BestImpact(h, n) && BestImpact(g, n)[t] <= BestImpact(h, n)[t]
  }

  /** Every hop of g that survives by itself is reached in h, directly or not, at least as strongly. */
  ghost predicate HopsKept(h: Graph, g: Graph) {
    forall u, v :: ArcOf(g, u, v).Some? && Carry(1.0, Weight(g, u, v)) >= CUT ==>
      u in h.adj && v in BestImpact(h, u) && BestImpact(h, u)[v] >= Carry(1.0, Weight(g, u, v))
  }

  /** h has every arc of g, at least as strong. */
  ghost predicate Covers(h: Graph, g: Graph) {
    forall u, v :: ArcOf(g, u, v).Some? ==> ArcOf(h, u, v).Some? && Weight(g, u, v) <= Weight(h, u, v)
  }

  // Gains multiply.

  function Product(x: real, y: real): real {
    x * y
  }

  lemma CarryOfProduct(x: real, y: real, w: real)
    ensures Carry(Product(x, y), w) == Product(x, Carry(y, w))
    ensures Product(x, 1.0) == x && Product(x, Carry(1.0, w)) == Carry(x, w)
  {
  }

  lemma ProductGrows(x: real, x': real, y: real, y': real)
    requires 0.0 <= x <= x' && 0.0 <= y <= y'
    ensures Product(x, y) <= Product(x', y')
  {
    assert (x' - x) * y >= 0.0;
    assert x' * (y' - y) >= 0.0;
  }

  /** Two walks that meet make one, which carries the product. */
  lemma {:induction false} JoinWalks(g: Graph, p: seq<string>, q: seq<string>)
    requires IsWalk(g, p) && IsWalk(g, q) && p[|p| - 1] == q[0]
    ensures Joins(g, p[0], q[|q| - 1], p + q[1..]) && Gain(g, p + q[1..]) == Product(Gain(g, p), Gain(g, q))
    decreases |q|
  {
    hide Carry, Product;
    if |q| == 1 {
      assert p + q[1..] == p;
      CarryOfProduct(Gain(g, p), 1.0, 1.0);
    } else {
      var front, t := q[..|q| - 1], q[|q| - 1];
      var joined := p + front[1..];
      JoinWalks(g, p, front);
      assert ArcOf(g, q[|q| - 2], q[|q| - 2 + 1]).Some?;
      assert p + q[1..] == joined + [t];
      WalkSnoc(g, joined, t);
      GainOfLast(g, q);
      CarryOfProduct(Gain(g, p), Gain(g, front), Weight(g, q[|q| - 2], t));
    }
  }

  // The exact condition.

  lemma BestHop(g: Graph, h: Graph, u: string, v: string) returns (q: seq<string>)
    requires Valid(h) && Bounded(h) && HopsKept(h, g)
    requires ArcOf(g, u, v).Some? && Carry(1.0, Weight(g, u, v)) >= CUT
    ensures Joins(h, u, v, q) && |q| >= 2 && Gain(h, q) >= Carry(1.0, Weight(g, u, v))
  {
    hide BestImpact, Gain, Carry;
    BestImpactIsBestWalk(h, u, v);
    q :| Joins(h, u, v, q) && |q| >= 2 && Gain(h, q) == BestImpact(h, u)[v];
  }

  /** A surviving walk of g, each hop replaced by the best walk of h, is a walk of h that carries no less. */
  lemma {:induction false} Replaced(g: Graph, h: Graph, p: seq<string>) returns (q: seq<string>)
    requires Valid(g) && Bounded(g) && Valid(h) && Bounded(h) && HopsKept(h, g)
    requires IsWalk(g, p) && |p| >= 2 && Gain(g, p) >= CUT
    ensures Joins(h, p[0], p[|p| - 1], q) && |q| >= 2 && Gain(h, q) >= Gain(g, p)
    decreases |p|
  {
    hide BestImpact, Carry, Valid, Bounded, HopsKept, Gain, Product, ArcOf;
    var front, u, v := p[..|p| - 1], p[|p| - 2], p[|p| - 1];
    LastHop(g, p);
    var w := Weight(g, u, v);
    ArcBounds(g, u, v);
    CarryMonotone(Gain(g, front), 1.0, w);
    var hop := BestHop(g, h, u, v);
    if |p| == 2 {
      q := hop;
    } else {
      var before := Replaced(g, h, front);
      JoinWalks(h, before, hop);
      ProductGrows(Gain(g, front), Gain(h, before), Carry(1.0, w), Gain(h, hop));
      CarryOfProduct(Gain(g, front), 1.0, w);
      q := before + hop[1..];
    }
  }

  /** Every impact of g is kept exactly when its surviving hops are. */
  lemma KeepsImpactsIff(g: Graph, h: Graph)
    requires Valid(g) && Bounded(g) && Valid(h) && Bounded(h)
    ensures KeepsImpacts(h, g) <==> HopsKept(h, g)
  {
    hide BestImpact, Carry, Valid, Bounded, Gain;
    if HopsKept(h, g) {
      forall n, t | n in g.adj && t in BestImpact(g, n)
        ensures KeepsImpact(h, g, n, t)
      {
        WalkIsKept(g, h, n, t);
      }
    }
    if KeepsImpacts(h, g) {
      forall u, v | ArcOf(g, u, v).Some? && Carry(1.0, Weight(g, u, v)) >= CUT
        ensures u in h.adj && v in BestImpact(h, u) && BestImpact(h, u)[v] >= Carry(1.0, Weight(g, u, v))
      {
        ArcBounds(g, u, v);
        HopIsImpact(g, u, v);
        assert KeepsImpact(h, g, u, v);
      }
    }
  }

  lemma WalkIsKept(g: Graph, h: Graph, n: string, t: string)
    requires Valid(g) && Bounded(g) && Valid(h) && Bounded(h) && HopsKept(h, g)
    requires n in g.adj && t in BestImpact(g, n)
    ensures KeepsImpact(h, g, n, t)
  {
    BestImpactIsBestWalk(g, n, t);
    hide BestImpact, Valid, Bounded, Gain, HopsKept;
    var p :| Joins(g, n, t, p) && |p| >= 2 && Gain(g, p) == BestImpact(g, n)[t];
    var q := Replaced(g, h, p);
    BestImpactIsBestWalk(h, n, t);
  }

  lemma HopIsImpact(g: Graph, u: string, v: string)
    requires Valid(g) && Bounded(g) && u in g.adj && ArcOf(g, u, v).Some? && Carry(1.0, Weight(g, u, v)) >= CUT
    ensures v in BestImpact(g, u) && BestImpact(g, u)[v] >= Carry(1.0, Weight(g, u, v))
  {
    hide BestImpact, Carry;
    BestImpactIsBestWalk(g, u, v);
    OneHop(g, u, v);
  }

  /** In particular no impact is lost over more and stronger arcs. */
  lemma ImpactGrows(g: Graph, h: Graph)
    requires Valid(g) && Bounded(g) && Valid(h) && Bounded(h) && Covers(h, g)
    ensures KeepsImpacts(h, g)
  {
    hide BestImpact, Carry, Valid, Bounded, KeepsImpacts;
    forall u, v | ArcOf(g, u, v).Some? && Carry(1.0, Weight(g, u, v)) >= CUT
      ensures u in h.adj && v in BestImpact(h, u) && BestImpact(h, u)[v] >= Carry(1.0, Weight(g, u, v))
    {
      ArcBounds(h, u, v);
      LegGrows(Weight(g, u, v), Weight(h, u, v));
      HopIsImpact(h, u, v);
    }
    KeepsImpactsIff(g, h);
  }

  lemma LegGrows(v: real, w: real)
    requires v <= w
    ensures Carry(1.0, v) <= Carry(1.0, w)
  {
  }
}
