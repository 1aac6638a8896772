/** Lagged correlation between two signals, over an abstract per-lag coefficient. */
module LagCorrelation {
  import opened Common

  const LAGS: seq<nat> := [0, 5, 15, 30, 60, 120]

  /** The coefficient of src[t] against dst[t + lag], lag in samples. */
  type Corr = (seq<real>, seq<real>, nat) -> real

  ghost predicate IsCorrelation(corr: Corr) {
    forall a, b, lag :: -1.0 <= corr(a, b, lag) <= 1.0
  }

  /** One lag (in seconds) and the coefficient there. */
  datatype Sample = Sample(lag: int, r: real)

  /** The configured lags that leave more than twelve samples. */
  function ProfileOver(corr: Corr, src: seq<real>, dst: seq<real>, lags: seq<nat>): seq<Sample> {
    if lags == [] then []
    else
      var front, lag := ProfileOver(corr, src, dst, lags[..|lags| - 1]), lags[|lags| - 1];
      if lag / 5 >= |src| - 12 then front else front + [Sample(lag, corr(src, dst, lag / 5))]
  }

  function ProfileOf(corr: Corr, src: seq<real>, dst: seq<real>): seq<Sample> {
    ProfileOver(corr, src, dst, LAGS)
  }

  method LagProfile(corr: Corr, src: seq<real>, dst: seq<real>) returns (out: seq<Sample>)
    ensures out == ProfileOf(corr, src, dst)
  {
    out := [];
    for i := 0 to |LAGS|
      invariant out == ProfileOver(corr, src, dst, LAGS[..i])
    {
      var steps := LAGS[i] / 5;
      if steps < |src| - 12 {
        out := out + [Sample(LAGS[i], corr(src, dst, steps))];
      }
      assert LAGS[..i + 1][..i] == LAGS[..i];
    }
    assert LAGS[..|LAGS|] == LAGS;
  }

  lemma {:induction false} ProfileIsBounded(corr: Corr, src: seq<real>, dst: seq<real>, lags: seq<nat>)
    requires IsCorrelation(corr)
    ensures forall s :: s in ProfileOver(corr, src, dst, lags) ==> -1.0 <= s.r <= 1.0 && s.lag in lags && s.lag >= 0
  {
    if lags == [] {
    } else {
      ProfileIsBounded(corr, src, dst, lags[..|lags| - 1]);
      assert lags == lags[..|lags| - 1] + [lags[|lags| - 1]];
    }
  }

  /** The first sample of greatest |r|; (0, 0) when there is none. */
  function Strongest(profile: seq<Sample>): Sample {
    if profile == [] then Sample(0, 0.0)
    else if |profile| == 1 then profile[0]
    else
      var best, last := Strongest(profile[..|profile| - 1]), profile[|profile| - 1];
      if Abs(last.r) > Abs(best.r) then last else best
  }

  /** The first sample of greatest r. */
  function Highest(profile: seq<Sample>): Sample
    requires profile != []
  {
    if |profile| == 1 then profile[0]
    else
      var best, last := Highest(profile[..|profile| - 1]), profile[|profile| - 1];
      if last.r > best.r then last else best
  }

  lemma {:induction false} StrongestMeans(profile: seq<Sample>)
    ensures forall s :: s in profile ==> Abs(s.r) <= Abs(Strongest(profile).r)
    ensures profile != [] ==> Strongest(profile) in profile
    ensures profile == [] ==> Strongest(profile).r == 0.0
  {
    hide Abs;
    if |profile| <= 1 {
      assert profile == [] || profile == [profile[0]];
    } else {
      var front, last := profile[..|profile| - 1], profile[|profile| - 1];
      assert profile == front + [last];
      StrongestMeans(front);
    }
  }

  lemma {:induction false} HighestMeans(profile: seq<Sample>)
    requires profile != []
    ensures Highest(profile) in profile && forall s :: s in profile ==> s.r <= Highest(profile).r
  {
    if |profile| == 1 {
      assert profile == [profile[0]];
    } else {
      var front, last := profile[..|profile| - 1], profile[|profile| - 1];
      assert profile == front + [last];
      HighestMeans(front);
    }
  }

  /** |r| stays elevated at a lag next to the peak. */
  predicate AdjacentSupport(profile: seq<Sample>, peak: int, floor: real) {
    exists i :: 0 <= i < |profile| && profile[i].lag == peak && NeighbourSupport(profile, i, floor)
  }

  predicate NeighbourSupport(profile: seq<Sample>, i: nat, floor: real)
    requires i < |profile|
  {
    (i > 0 && Abs(profile[i - 1].r) >= floor) || (i + 1 < |profile| && Abs(profile[i + 1].r) >= floor)
  }

  // What a profile holds, in terms of the coefficients alone.

  /** A lag (in seconds) at which more than twelve samples of x are left. */
  ghost predicate Usable(x: seq<real>, lag: nat) {
    lag in LAGS && lag / 5 < |x| - 12
  }

  lemma LagsAscend(i: nat, j: nat)
    requires i <= j < |LAGS|
    ensures LAGS[i] <= LAGS[j] && (LAGS[i] == LAGS[j] ==> i == j)
  {
  }

  lemma {:induction false} ProfilePrefix(corr: Corr, x: seq<real>, y: seq<real>, k: nat)
    requires k <= |LAGS|
    ensures var p := ProfileOver(corr, x, y, LAGS[..k]);
            && |p| <= k && (|p| < k ==> LAGS[|p|] / 5 >= |x| - 12)
            && forall i :: 0 <= i < |p| ==> p[i] == Sample(LAGS[i], corr(x, y, LAGS[i] / 5)) && LAGS[i] / 5 < |x| - 12
  {
    if k == 0 {
    } else {
      ProfilePrefix(corr, x, y, k - 1);
      assert LAGS[..k][..k - 1] == LAGS[..k - 1];
      var p := ProfileOver(corr, x, y, LAGS[..k - 1]);
      if |p| < k - 1 {
        LagsAscend(|p|, k - 1);
      }
    }
  }

  /** The profile of x leading y has, in order of lag and once each, the lags at which more than twelve samples are
      left, with the coefficient of x against y that much later. */
  lemma ProfileMeans(corr: Corr, x: seq<real>, y: seq<real>)
    ensures LAGS == [0, 5, 15, 30, 60, 120]
    ensures var p := ProfileOf(corr, x, y);
            && |p| <= |LAGS| && (forall i :: 0 <= i < |LAGS| ==> (i < |p| <==> Usable(x, LAGS[i])))
            && forall i :: 0 <= i < |p| ==> p[i] == Sample(LAGS[i], corr(x, y, LAGS[i] / 5))
  {
    ProfilePrefix(corr, x, y, |LAGS|);
    assert LAGS[..|LAGS|] == LAGS;
    var p := ProfileOf(corr, x, y);
    forall i | |p| <= i < |LAGS|
      ensures !Usable(x, LAGS[i])
    {
      LagsAscend(|p|, i);
    }
  }

  /** r, at this lag, is the greatest coefficient in magnitude with which x leads y, at the least such lag; it is 0 at
      lag 0 where no lag is usable. */
  ghost predicate IsPeak(corr: Corr, x: seq<real>, y: seq<real>, lag: int, r: real) {
    if !Usable(x, 0) then lag == 0 && r == 0.0
    else
      && lag >= 0 && Usable(x, lag) && r == corr(x, y, lag / 5)
      && forall l: nat :: Usable(x, l) ==>
           Abs(corr(x, y, l / 5)) <= Abs(r) && (l < lag ==> Abs(corr(x, y, l / 5)) < Abs(r))
  }

  /** At the configured lag before or after, the coefficient is still at least the floor in magnitude. */
  ghost predicate Supported(corr: Corr, x: seq<real>, y: seq<real>, lag: int, floor: real) {
    exists i, j :: 0 <= i < |LAGS| && 0 <= j < |LAGS| && LAGS[i] == lag && (j == i - 1 || j == i + 1)
                   && Usable(x, LAGS[i]) && Usable(x, LAGS[j]) && Abs(corr(x, y, LAGS[j] / 5)) >= floor
  }

  lemma {:induction false} StrongestIsFirst(profile: seq<Sample>) returns (k: nat)
    requires profile != []
    ensures k < |profile| && Strongest(profile) == profile[k]
    ensures forall i :: 0 <= i < |profile| ==> Abs(profile[i].r) <= Abs(profile[k].r)
    ensures forall i :: 0 <= i < k ==> Abs(profile[i].r) < Abs(profile[k].r)
  {
    hide Abs;
    if |profile| == 1 {
      k := 0;
    } else {
      var front, last := profile[..|profile| - 1], profile[|profile| - 1];
      k := StrongestIsFirst(front);
      if Abs(last.r) > Abs(front[k].r) {
        k := |profile| - 1;
      }
    }
  }

  lemma {:induction false} HighestIsFirst(profile: seq<Sample>) returns (k: nat)
    requires profile != []
    ensures k < |profile| && Highest(profile) == profile[k]
    ensures forall i :: 0 <= i < |profile| ==> profile[i].r <= profile[k].r
    ensures forall i :: 0 <= i < k ==> profile[i].r < profile[k].r
  {
    if |profile| == 1 {
      k := 0;
    } else {
      var front, last := profile[..|profile| - 1], profile[|profile| - 1];
      k := HighestIsFirst(front);
      if last.r > front[k].r {
        k := |profile| - 1;
      }
    }
  }

  lemma StrongestIsPeak(corr: Corr, x: seq<real>, y: seq<real>)
    ensures var best := Strongest(ProfileOf(corr, x, y)); IsPeak(corr, x, y, best.lag, best.r)
  {
    hide Abs, ProfileOf, Usable;
    ProfileMeans(corr, x, y);
    var p := ProfileOf(corr, x, y);
    assert LAGS[0] == 0;
    if p == [] {
      EmptyIsFlat();
    } else {
      var k := StrongestIsFirst(p);
      forall l: nat | Usable(x, l)
        ensures Abs(corr(x, y, l / 5)) <= Abs(p[k].r) && (l < p[k].lag ==> Abs(corr(x, y, l / 5)) < Abs(p[k].r))
      {
        var i := UsableIndex(x, l);
        if l < LAGS[k] && i >= k {
          LagsAscend(k, i);
        }
      }
    }
  }

  lemma UsableIndex(x: seq<real>, l: nat) returns (i: nat)
    requires Usable(x, l)
    ensures i < |LAGS| && LAGS[i] == l
  {
    i :| i < |LAGS| && LAGS[i] == l;
  }

  /** There is one peak. */
  lemma PeakIsUnique(corr: Corr, x: seq<real>, y: seq<real>, lag: int, r: real, lag2: int, r2: real)
    requires IsPeak(corr, x, y, lag, r) && IsPeak(corr, x, y, lag2, r2)
    ensures lag == lag2 && r == r2
  {
    hide Abs;
  }

  lemma SupportMeans(corr: Corr, x: seq<real>, y: seq<real>, lag: int, floor: real)
    ensures AdjacentSupport(ProfileOf(corr, x, y), lag, floor) <==> Supported(corr, x, y, lag, floor)
  {
    hide Abs, ProfileOf, Usable;
    ProfileMeans(corr, x, y);
    var p := ProfileOf(corr, x, y);
    if AdjacentSupport(p, lag, floor) {
      var i :| 0 <= i < |p| && p[i].lag == lag && NeighbourSupport(p, i, floor);
      var j := if i > 0 && Abs(p[i - 1].r) >= floor then i - 1 else i + 1;
      assert LAGS[i] == lag && Abs(corr(x, y, LAGS[j] / 5)) >= floor;
    }
    if Supported(corr, x, y, lag, floor) {
      var i, j :| 0 <= i < |LAGS| && 0 <= j < |LAGS| && LAGS[i] == lag && (j == i - 1 || j == i + 1)
        && Usable(x, LAGS[i]) && Usable(x, LAGS[j]) && Abs(corr(x, y, LAGS[j] / 5)) >= floor;
      assert p[i].lag == lag && NeighbourSupport(p, i, floor);
    }
  }

  const MARGIN := 0.000000001

  datatype Directed = Directed(forward: bool, r: real, lag: int, profile: seq<Sample>)

  /** Both directions over the common recent stretch; the clearly stronger one wins, else forward. */
  function BestDirected(corr: Corr, a: seq<real>, b: seq<real>): Directed {
    var n := if |a| < |b| then |a| else |b|;
    var fwd := ProfileOf(corr, LastN(a, n), LastN(b, n));
    var rev := ProfileOf(corr, LastN(b, n), LastN(a, n));
    var f, r := Strongest(fwd), Strongest(rev);
    if Abs(r.r) > Abs(f.r) + MARGIN then Directed(false, r.r, r.lag, rev)
    else Directed(true, f.r, f.lag, fwd)
  }

  /** How strongly each argument leads the other. */
  function LeadStrength(corr: Corr, a: seq<real>, b: seq<real>): real {
    var n := if |a| < |b| then |a| else |b|;
    Abs(Strongest(ProfileOf(corr, LastN(a, n), LastN(b, n))).r)
  }

  /** Swapping the arguments swaps the verdict exactly when the two directions differ by more than
      the margin; inside it both orders claim that their first argument leads. */
  lemma SwapFlipsDirectionIff(corr: Corr, a: seq<real>, b: seq<real>)
    ensures BestDirected(corr, b, a).forward == !BestDirected(corr, a, b).forward <==>
            Abs(LeadStrength(corr, a, b) - LeadStrength(corr, b, a)) > MARGIN
    ensures BestDirected(corr, b, a).forward == !BestDirected(corr, a, b).forward ==>
              BestDirected(corr, b, a).r == BestDirected(corr, a, b).r
              && BestDirected(corr, b, a).lag == BestDirected(corr, a, b).lag
              && BestDirected(corr, b, a).profile == BestDirected(corr, a, b).profile
  {
    hide ProfileOf, Strongest;
  }

  lemma BestDirectedIsBounded(corr: Corr, a: seq<real>, b: seq<real>)
    requires IsCorrelation(corr)
    ensures -1.0 <= BestDirected(corr, a, b).r <= 1.0 && BestDirected(corr, a, b).lag >= 0
  {
    hide Strongest;
    var n := if |a| < |b| then |a| else |b|;
    ProfileIsBounded(corr, LastN(a, n), LastN(b, n), LAGS);
    ProfileIsBounded(corr, LastN(b, n), LastN(a, n), LAGS);
    StrongestMeans(ProfileOf(corr, LastN(a, n), LastN(b, n)));
    StrongestMeans(ProfileOf(corr, LastN(b, n), LastN(a, n)));
    assert Strongest([]) == Sample(0, 0.0) by {
      EmptyIsFlat();
    }
  }

  lemma EmptyIsFlat()
    ensures Strongest([]) == Sample(0, 0.0)
  {
  }
}
