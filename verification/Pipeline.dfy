/** One correlation pass: from signal vectors to findings, edges, root causes and blast radius. */
module Pipeline {
  import opened Common
  import opened Digraph
  import opened Ordering
  import opened LagCorrelation
  import opened Gate

  const R_SRC := 0.5

  /** What the edge rules look at: the slices to correlate and what was detected before. */
  datatype Scene = Scene(
    corr: Corr, physical: Witness,
    vectors: map<string, seq<real>>, writes: map<string, seq<real>>,
    onset: map<string, real>, writeOnset: map<string, real>, active: set<string>)

  // Victim-to-victim edges.

  /** The edge between two pods, in the direction that correlates better, if the gate admits it. */
  function PairEdge(s: Scene, a: string, b: string): Option<Edge>
    requires a in s.vectors && b in s.vectors
  {
    if !Couples(s.physical, a, b) || s.active == {} then None
    else
      var d := BestDirected(s.corr, s.vectors[a], s.vectors[b]);
      if d.forward then AcceptEdge(a, b, d.r, d.lag, d.profile, s.physical, s.onset)
      else AcceptEdge(b, a, d.r, d.lag, d.profile, s.physical, s.onset)
  }

  // Source edges.

  /** Write activity: the largest magnitude written, 0 for a pod that writes nothing. */
  function PeakAbs(v: seq<real>): real {
    if v == [] then 0.0 else Max(PeakAbs(v[..|v| - 1]), Abs(v[|v| - 1]))
  }

  function Activity(s: Scene, p: string): real {
    if p in s.writes then PeakAbs(s.writes[p]) else 0.0
  }

  predicate SourceTag(k: string) {
    k in SOURCE_COUPLING
  }

  function SourceTags(ks: seq<string>): (r: seq<string>)
    ensures forall k :: k in r <==> k in ks && SourceTag(k)
  {
    if ks == [] then []
    else
      assert ks == ks[..|ks| - 1] + [ks[|ks| - 1]];
      SourceTags(ks[..|ks| - 1]) + if SourceTag(ks[|ks| - 1]) then [ks[|ks| - 1]] else []
  }

  /** The directed edge from a writer to a staller, if its writes lead and raise the stall. */
  function WriterEdge(corr: Corr, src: string, dst: string, wsrc: seq<real>, vdst: seq<real>,
                      w: Witness, wOnset: Option<real>, vOnset: Option<real>): Option<Edge> {
    var kinds := SourceTags(Kinds(w, src, dst));
    var profile := ProfileOf(corr, wsrc, vdst);
    if kinds == [] || profile == [] then None
    else
      var best := Highest(profile);
      if best.r < R_SRC || !AdjacentSupport(profile, best.lag, R_ADJ) then None
      else if wOnset.Some? && vOnset.Some? && wOnset.value > vOnset.value + TEMPORAL_TOL_S then None
      else Some(Edge(src, dst, best.r, best.lag, [SOURCE] + kinds + Flag(wOnset.Some? && vOnset.Some?, "temporal")))
  }

  /** The source edge w -> v: w stormed, v is a victim on the same resource, and w out-writes v. */
  function AttributedEdge(s: Scene, w: string, v: string): Option<Edge>
    requires w in s.writes && v in s.vectors
  {
    if w !in s.writeOnset || v == w || !CouplesSource(s.physical, w, v) || v !in s.active
       || Activity(s, w) <= Activity(s, v) then None
    else WriterEdge(s.corr, w, v, s.writes[w], s.vectors[v], s.physical, Lookup(s.writeOnset, w), Lookup(s.onset, v))
  }

  // All edges, in the order the loops find them.

  function One<T>(x: Option<T>): seq<T> {
    if x.Some? then [x.value] else []
  }

  /** The edges between pods[i] and each of pods[i+1 .. j]. */
  function RowEdges(s: Scene, pods: seq<string>, i: nat, j: nat): seq<Edge>
    requires i < j <= |pods| && forall p :: p in pods ==> p in s.vectors
  {
    if j == i + 1 then [] else RowEdges(s, pods, i, j - 1) + One(PairEdge(s, pods[i], pods[j - 1]))
  }

  function PairEdgesUpTo(s: Scene, pods: seq<string>, i: nat): seq<Edge>
    requires i <= |pods| && forall p :: p in pods ==> p in s.vectors
  {
    if i == 0 then [] else PairEdgesUpTo(s, pods, i - 1) + RowEdges(s, pods, i - 1, |pods|)
  }

  function WriterRow(s: Scene, w: string, pods: seq<string>): seq<Edge>
    requires w in s.writes && forall p :: p in pods ==> p in s.vectors
  {
    if pods == [] then []
    else WriterRow(s, w, pods[..|pods| - 1]) + One(AttributedEdge(s, w, pods[|pods| - 1]))
  }

  function SourceEdges(s: Scene, writers: seq<string>, pods: seq<string>): seq<Edge>
    requires forall p :: p in pods ==> p in s.vectors
    requires forall p :: p in writers ==> p in s.writes
  {
    if writers == [] then []
    else SourceEdges(s, writers[..|writers| - 1], pods) + WriterRow(s, writers[|writers| - 1], pods)
  }

  // One edge per unordered pair.

  predicate IsSource(e: Edge) {
    SOURCE in e.evidence
  }

  /** A source edge beats any other; then the stronger correlation. */
  predicate Better(a: Edge, b: Edge) {
    (IsSource(a) && !IsSource(b)) || (IsSource(a) == IsSource(b) && Abs(a.r) > Abs(b.r))
  }

  function Ends(e: Edge): set<string> {
    {e.src, e.dst}
  }

  /** Keeps the better of e and the edge already chosen for its pair. */
  function Choose(chosen: seq<Edge>, e: Edge): seq<Edge> {
    if chosen == [] then [e]
    else if Ends(chosen[0]) == Ends(e) then [if Better(e, chosen[0]) then e else chosen[0]] + chosen[1..]
    else [chosen[0]] + Choose(chosen[1..], e)
  }

  function Chosen(edges: seq<Edge>): seq<Edge> {
    if edges == [] then [] else Choose(Chosen(edges[..|edges| - 1]), edges[|edges| - 1])
  }

  predicate ByName(a: Edge, b: Edge) {
    if a.src == b.src then StringLe(a.dst, b.dst) else StringLe(a.src, b.src)
  }

  lemma ByNameIsOrder()
    ensures TotalPreorder(ByName)
  {
    StringOrderIsTotal();
    forall a: Edge, b: Edge, c: Edge | ByName(a, b) && ByName(b, c)
      ensures ByName(a, c)
    {
      if a.src == c.src && a.src != b.src {
        StringLeAntisymmetric(a.src, b.src);
      }
    }
  }

  ghost predicate OnePerPair(es: seq<Edge>) {
    forall i, j :: 0 <= i < j < |es| ==> Ends(es[i]) != Ends(es[j])
  }

  /** cs holds, for the pair of each edge, an edge no worse than it. */
  ghost predicate Represents(cs: seq<Edge>, es: seq<Edge>) {
    forall e :: e in es ==> exists c :: c in cs && Ends(c) == Ends(e) && !Better(e, c)
  }

  lemma {:induction false} ChooseKeepsPairs(chosen: seq<Edge>, e: Edge)
    requires OnePerPair(chosen)
    ensures OnePerPair(Choose(chosen, e))
  {
    hide Better;
    if chosen != [] && Ends(chosen[0]) != Ends(e) {
      ChooseKeepsPairs(chosen[1..], e);
      ChooseKeepsEnds(chosen[1..], e);
    }
  }

  lemma {:induction false} ChooseMeans(chosen: seq<Edge>, e: Edge)
    ensures forall c :: c in Choose(chosen, e) ==> c == e || c in chosen
    ensures exists c :: c in Choose(chosen, e) && Ends(c) == Ends(e) && !Better(e, c)
    ensures forall o :: o in chosen ==>
              exists c :: c in Choose(chosen, e) && Ends(c) == Ends(o) && (c == o || Better(c, o))
  {
    var out := Choose(chosen, e);
    if chosen == [] {
      assert e in out;
    } else if Ends(chosen[0]) == Ends(e) {
      assert out[0] in out;
      forall o | o in chosen
        ensures exists c :: c in out && Ends(c) == Ends(o) && (c == o || Better(c, o))
      {
        if o != chosen[0] {
          assert o in chosen[1..] && o in out;
        }
      }
    } else {
      ChooseMeans(chosen[1..], e);
      var tail := Choose(chosen[1..], e);
      assert forall c :: c in tail ==> c in out;
      assert chosen[0] in out;
      forall o | o in chosen
        ensures exists c :: c in out && Ends(c) == Ends(o) && (c == o || Better(c, o))
      {
        if o != chosen[0] {
          assert o in chosen[1..];
        }
      }
    }
  }

  lemma {:induction false} ChooseKeepsEnds(chosen: seq<Edge>, e: Edge)
    ensures forall i :: 0 <= i < |Choose(chosen, e)| ==>
              Ends(Choose(chosen, e)[i]) == Ends(e) || exists c :: c in chosen && Ends(c) == Ends(Choose(chosen, e)[i])
  {
    if chosen != [] && Ends(chosen[0]) != Ends(e) {
      ChooseKeepsEnds(chosen[1..], e);
    }
  }

  lemma BetterChains(a: Edge, b: Edge, c: Edge)
    requires !Better(a, b) && (c == b || Better(c, b))
    ensures !Better(a, c)
  {
  }

  lemma {:induction false} ChosenMeans(edges: seq<Edge>)
    ensures OnePerPair(Chosen(edges)) && Represents(Chosen(edges), edges)
    ensures forall c :: c in Chosen(edges) ==> c in edges
  {
    hide Better;
    if edges != [] {
      var front, e := edges[..|edges| - 1], edges[|edges| - 1];
      assert edges == front + [e];
      ChosenMeans(front);
      ChooseKeepsPairs(Chosen(front), e);
      ChooseMeans(Chosen(front), e);
      assert Chosen(edges) == Choose(Chosen(front), e);
      hide *;
      forall x | x in edges
        ensures exists c :: c in Chosen(edges) && Ends(c) == Ends(x) && !Better(x, c)
      {
        if x in front {
          var b :| b in Chosen(front) && Ends(b) == Ends(x) && !Better(x, b);
          var c :| c in Chosen(edges) && Ends(c) == Ends(b) && (c == b || Better(c, b));
          BetterChains(x, b, c);
        }
      }
    }
  }

  /** The edges of a pass: without write signals the pair edges as found, else the chosen ones by name. */
  function EdgesOf(s: Scene, pods: seq<string>, writers: seq<string>): seq<Edge>
    requires forall p :: p in pods ==> p in s.vectors
    requires forall p :: p in writers ==> p in s.writes
  {
    var pairs := PairEdgesUpTo(s, pods, |pods|);
    if writers == [] then pairs else Sort(Chosen(pairs + SourceEdges(s, writers, pods)), ByName)
  }

  // The loops.

  method CollectPairEdges(s: Scene, pods: seq<string>) returns (edges: seq<Edge>)
    requires forall p :: p in pods ==> p in s.vectors
    ensures edges == PairEdgesUpTo(s, pods, |pods|)
  {
    hide PairEdge;
    edges := [];
    for i := 0 to |pods|
      invariant edges == PairEdgesUpTo(s, pods, i)
    {
      for j := i + 1 to |pods|
        invariant edges == PairEdgesUpTo(s, pods, i) + RowEdges(s, pods, i, j)
      {
        var e := PairEdge(s, pods[i], pods[j]);
        if e.Some? {
          edges := edges + [e.value];
        }
      }
    }
  }

  method CollectSourceEdges(s: Scene, writers: seq<string>, pods: seq<string>) returns (edges: seq<Edge>)
    requires forall p :: p in pods ==> p in s.vectors
    requires forall p :: p in writers ==> p in s.writes
    ensures edges == SourceEdges(s, writers, pods)
  {
    hide AttributedEdge;
    edges := [];
    for i := 0 to |writers|
      invariant edges == SourceEdges(s, writers[..i], pods)
    {
      ghost var before := edges;
      for j := 0 to |pods|
        invariant edges == before + WriterRow(s, writers[i], pods[..j])
      {
        var e := AttributedEdge(s, writers[i], pods[j]);
        if e.Some? {
          edges := edges + [e.value];
        }
        assert pods[..j + 1][..j] == pods[..j];
      }
      assert pods[..|pods|] == pods;
      assert writers[..i + 1][..i] == writers[..i];
    }
    assert writers[..|writers|] == writers;
  }

  method ChooseEdges(edges: seq<Edge>) returns (chosen: seq<Edge>)
    ensures chosen == Chosen(edges)
  {
    chosen := [];
    for i := 0 to |edges|
      invariant chosen == Chosen(edges[..i])
    {
      chosen := Choose(chosen, edges[i]);
      assert edges[..i + 1][..i] == edges[..i];
    }
    assert edges[..|edges|] == edges;
  }

  // What the collected edges are.

  ghost predicate PairFound(s: Scene, pods: seq<string>, a: nat, b: nat, e: Edge)
    requires forall p :: p in pods ==> p in s.vectors
  {
    a < b < |pods| && PairEdge(s, pods[a], pods[b]) == Some(e)
  }

  lemma {:induction false} RowMember(s: Scene, pods: seq<string>, i: nat, j: nat, e: Edge)
    requires i < j <= |pods| && forall p :: p in pods ==> p in s.vectors
    ensures e in RowEdges(s, pods, i, j) <==> exists b: nat :: b < j && PairFound(s, pods, i, b, e)
  {
    hide PairEdge;
    if j > i + 1 {
      RowMember(s, pods, i, j - 1, e);
      if PairEdge(s, pods[i], pods[j - 1]) == Some(e) {
        assert PairFound(s, pods, i, j - 1, e);
      }
    }
  }

  lemma {:induction false} PairEdgeMember(s: Scene, pods: seq<string>, i: nat, e: Edge)
    requires i <= |pods| && forall p :: p in pods ==> p in s.vectors
    ensures e in PairEdgesUpTo(s, pods, i) <==> exists a: nat, b: nat :: a < i && PairFound(s, pods, a, b, e)
  {
    hide PairEdge, RowEdges;
    if i == 0 {
    } else {
      PairEdgeMember(s, pods, i - 1, e);
      RowMember(s, pods, i - 1, |pods|, e);
    }
  }

  ghost predicate SourceFound(s: Scene, w: string, v: string, e: Edge) {
    w in s.writes && v in s.vectors && AttributedEdge(s, w, v) == Some(e)
  }

  lemma {:induction false} WriterRowMember(s: Scene, w: string, pods: seq<string>, e: Edge)
    requires w in s.writes && forall p :: p in pods ==> p in s.vectors
    ensures e in WriterRow(s, w, pods) <==> exists v :: v in pods && SourceFound(s, w, v, e)
  {
    hide AttributedEdge;
    if pods == [] {
    } else {
      WriterRowMember(s, w, pods[..|pods| - 1], e);
      assert pods == pods[..|pods| - 1] + [pods[|pods| - 1]];
      assert AttributedEdge(s, w, pods[|pods| - 1]) == Some(e) <==> SourceFound(s, w, pods[|pods| - 1], e);
    }
  }

  lemma {:induction false} SourceEdgeMember(s: Scene, writers: seq<string>, pods: seq<string>, e: Edge)
    requires forall p :: p in pods ==> p in s.vectors
    requires forall p :: p in writers ==> p in s.writes
    ensures e in SourceEdges(s, writers, pods) <==>
            exists w, v :: w in writers && v in pods && SourceFound(s, w, v, e)
  {
    hide AttributedEdge;
    if writers == [] {
    } else {
      var last := writers[|writers| - 1];
      SourceEdgeMember(s, writers[..|writers| - 1], pods, e);
      WriterRowMember(s, last, pods, e);
      assert writers == writers[..|writers| - 1] + [last];
    }
  }

  /** What makes e an edge of the scene: admitted as a pair edge, or attributed to a writer. */
  ghost predicate IsPairEdge(s: Scene, e: Edge) {
    && e.src in s.vectors && e.dst in s.vectors
    && (PairEdge(s, e.src, e.dst) == Some(e) || PairEdge(s, e.dst, e.src) == Some(e))
  }

  ghost predicate IsSourceEdge(s: Scene, e: Edge) {
    SourceFound(s, e.src, e.dst, e)
  }

  /** The laws of a pair edge. */
  lemma PairEdgeMeans(s: Scene, a: string, b: string)
    requires a in s.vectors && b in s.vectors && PairEdge(s, a, b).Some? && IsCorrelation(s.corr)
    ensures var e := PairEdge(s, a, b).value;
            && ((e.src == a && e.dst == b) || (e.src == b && e.dst == a))
            && R_PEAK <= e.r <= 1.0 && e.lag >= 0 && !IsSource(e)
            && Couples(s.physical, e.src, e.dst) && s.active != {}
            && Ordered(s.onset, e.src, e.dst, e.lag)
  {
    var d := BestDirected(s.corr, s.vectors[a], s.vectors[b]);
    var src, dst := if d.forward then a else b, if d.forward then b else a;
    hide BestDirected, AcceptEdge, Couples, Ordered;
    BestDirectedIsBounded(s.corr, s.vectors[a], s.vectors[b]);
    AcceptIff(src, dst, d.r, d.lag, d.profile, s.physical, s.onset);
    AcceptedEdge(src, dst, d.r, d.lag, d.profile, s.physical, s.onset);
    CouplesMeans(s.physical, a, b);
  }

  // Exactly which edges there are.

  /** The last values of v, as many as both vectors have. */
  function Recent(v: seq<real>, w: seq<real>): seq<real> {
    LastN(v, if |v| < |w| then |v| else |w|)
  }

  /** The edge that src leading dst with this peak makes, or none: it needs a peak of 0.6 that is supported. */
  ghost predicate IsLedBy(s: Scene, e: Option<Edge>, src: string, dst: string, x: seq<real>, y: seq<real>,
                          lag: int, r: real) {
    && (e.Some? <==>
          && s.active != {} && Couples(s.physical, src, dst)
          && r >= 0.6 && Supported(s.corr, x, y, lag, 0.4) && Ordered(s.onset, src, dst, lag))
    && (e.Some? ==> e.value.src == src && e.value.dst == dst && e.value.r == r && e.value.lag == lag)
  }

  /** The edge of a pair points from the pod that leads: the second one if its own peak is the greater by more than
      the margin, else the first; strength and lag are that peak's. */
  lemma PairEdgeIff(s: Scene, a: string, b: string, lag: int, r: real, backLag: int, back: real)
    requires a in s.vectors && b in s.vectors
    requires var x, y := Recent(s.vectors[a], s.vectors[b]), Recent(s.vectors[b], s.vectors[a]);
             IsPeak(s.corr, x, y, lag, r) && IsPeak(s.corr, y, x, backLag, back)
    ensures var x, y := Recent(s.vectors[a], s.vectors[b]), Recent(s.vectors[b], s.vectors[a]);
            if Abs(back) > Abs(r) + 0.000000001 then IsLedBy(s, PairEdge(s, a, b), b, a, y, x, backLag, back)
            else IsLedBy(s, PairEdge(s, a, b), a, b, x, y, lag, r)
  {
    hide IsPeak, Supported, Abs, ProfileOf, Strongest, AdjacentSupport, LastN, AcceptEdge, Couples;
    var x, y := Recent(s.vectors[a], s.vectors[b]), Recent(s.vectors[b], s.vectors[a]);
    StrongestIsPeak(s.corr, x, y);
    StrongestIsPeak(s.corr, y, x);
    var f, g := Strongest(ProfileOf(s.corr, x, y)), Strongest(ProfileOf(s.corr, y, x));
    PeakIsUnique(s.corr, x, y, lag, r, f.lag, f.r);
    PeakIsUnique(s.corr, y, x, backLag, back, g.lag, g.r);
    SupportMeans(s.corr, x, y, lag, 0.4);
    SupportMeans(s.corr, y, x, backLag, 0.4);
    CouplesMeans(s.physical, a, b);
    var d := BestDirected(s.corr, s.vectors[a], s.vectors[b]);
    var src, dst := if d.forward then a else b, if d.forward then b else a;
    AcceptIff(src, dst, d.r, d.lag, d.profile, s.physical, s.onset);
    CouplesMeans(s.physical, src, dst);
    if AcceptEdge(src, dst, d.r, d.lag, d.profile, s.physical, s.onset).Some? {
      AcceptedEdge(src, dst, d.r, d.lag, d.profile, s.physical, s.onset);
    }
  }

  /** m is the largest magnitude in v, 0 for an empty v. */
  lemma {:induction false} PeakAbsMeans(v: seq<real>)
    ensures forall x :: x in v ==> Abs(x) <= PeakAbs(v)
    ensures if v == [] then PeakAbs(v) == 0.0 else exists x :: x in v && Abs(x) == PeakAbs(v)
  {
    if v == [] {
    } else {
      var front, last := v[..|v| - 1], v[|v| - 1];
      assert v == front + [last];
      PeakAbsMeans(front);
      assert last in v;
      if front != [] && PeakAbs(v) == PeakAbs(front) {
        var x :| x in front && Abs(x) == PeakAbs(front);
        assert x in v;
      }
    }
  }

  /** The greatest coefficient with which x leads y, at the least such lag. */
  ghost predicate IsHighest(corr: Corr, x: seq<real>, y: seq<real>, lag: int, r: real) {
    && lag >= 0 && Usable(x, lag) && r == corr(x, y, lag / 5)
    && forall l: nat :: Usable(x, l) ==> corr(x, y, l / 5) <= r && (l < lag ==> corr(x, y, l / 5) < r)
  }

  lemma HighestIsHighest(corr: Corr, x: seq<real>, y: seq<real>)
    ensures Usable(x, 0) <==> ProfileOf(corr, x, y) != []
    ensures Usable(x, 0) ==>
              var best := Highest(ProfileOf(corr, x, y)); IsHighest(corr, x, y, best.lag, best.r)
  {
    hide ProfileOf, Usable;
    ProfileMeans(corr, x, y);
    var p := ProfileOf(corr, x, y);
    assert LAGS[0] == 0;
    if p != [] {
      var k := HighestIsFirst(p);
      forall l: nat | Usable(x, l)
        ensures corr(x, y, l / 5) <= p[k].r && (l < p[k].lag ==> corr(x, y, l / 5) < p[k].r)
      {
        var i := UsableIndex(x, l);
        if l < LAGS[k] && i >= k {
          LagsAscend(k, i);
        }
      }
    }
  }

  /** There is a source edge exactly from a writer with an onset of its own to another, active pod on its resource that
      writes less, if its writes raise the stall, supported, by a highest coefficient of at least one half, and it did
      not start later; the edge carries that coefficient and its lag. */
  lemma SourceEdgeIff(s: Scene, w: string, v: string, lag: int, r: real)
    requires w in s.writes && v in s.vectors
    requires Usable(s.writes[w], 0) ==> IsHighest(s.corr, s.writes[w], s.vectors[v], lag, r)
    ensures AttributedEdge(s, w, v).Some? <==>
            && w in s.writeOnset && v != w && v in s.active && CouplesSource(s.physical, w, v)
            && PeakAbs(s.writes[w]) > (if v in s.writes then PeakAbs(s.writes[v]) else 0.0)
            && Usable(s.writes[w], 0) && r >= 0.5 && Supported(s.corr, s.writes[w], s.vectors[v], lag, 0.4)
            && (v in s.onset ==> s.writeOnset[w] <= s.onset[v] + 10.0)
    ensures AttributedEdge(s, w, v).Some? ==>
              var e := AttributedEdge(s, w, v).value; e.src == w && e.dst == v && e.r == r && e.lag == lag
  {
    hide Supported, Abs, ProfileOf, Highest, AdjacentSupport, Usable, PeakAbs, Kinds;
    var x, y := s.writes[w], s.vectors[v];
    HighestIsHighest(s.corr, x, y);
    SupportMeans(s.corr, x, y, lag, 0.4);
    var tags := SourceTags(Kinds(s.physical, w, v));
    assert tags == [] <==> !CouplesSource(s.physical, w, v) by {
      assert tags != [] ==> tags[0] in tags;
    }
    if Usable(x, 0) {
      var best := Highest(ProfileOf(s.corr, x, y));
      HighestIsUnique(s.corr, x, y, lag, r, best.lag, best.r);
    }
  }

  lemma HighestIsUnique(corr: Corr, x: seq<real>, y: seq<real>, lag: int, r: real, lag2: int, r2: real)
    requires IsHighest(corr, x, y, lag, r) && IsHighest(corr, x, y, lag2, r2)
    ensures lag == lag2 && r == r2
  {
  }

  /** The laws of a source edge. */
  lemma SourceEdgeMeans(s: Scene, w: string, v: string, e: Edge)
    requires SourceFound(s, w, v, e) && IsCorrelation(s.corr)
    ensures e.src == w && e.dst == v && R_SRC <= e.r <= 1.0 && e.lag >= 0 && IsSource(e)
    ensures CouplesSource(s.physical, w, v) && w in s.writeOnset && v in s.active && w != v
    ensures Activity(s, w) > Activity(s, v)
    ensures v in s.onset ==> "temporal" in e.evidence && s.writeOnset[w] <= s.onset[v] + TEMPORAL_TOL_S
  {
    hide CouplesSource, Activity, AdjacentSupport, Kinds;
    var profile := ProfileOf(s.corr, s.writes[w], s.vectors[v]);
    HighestMeans(profile);
    ProfileIsBounded(s.corr, s.writes[w], s.vectors[v], LAGS);
    var tags := SourceTags(Kinds(s.physical, w, v));
    var last := Flag(v in s.onset, "temporal");
    assert forall t :: t in e.evidence <==> t in [SOURCE] || t in tags || t in last;
    assert SOURCE in [SOURCE];
  }

  lemma EdgesAreAdmitted(s: Scene, pods: seq<string>, writers: seq<string>, e: Edge)
    requires forall p :: p in pods ==> p in s.vectors
    requires forall p :: p in writers ==> p in s.writes
    requires IsCorrelation(s.corr) && e in EdgesOf(s, pods, writers)
    ensures IsPairEdge(s, e) || IsSourceEdge(s, e)
    ensures e.src in pods || e.src in writers
    ensures e.dst in pods
  {
    hide PairEdge, AttributedEdge, IsCorrelation, Better;
    var pairs := PairEdgesUpTo(s, pods, |pods|);
    var all := pairs + SourceEdges(s, writers, pods);
    if writers != [] {
      SortHasSameElements(Chosen(all), ByName);
      ChosenMeans(all);
    }
    if e in pairs {
      PairEdgeMember(s, pods, |pods|, e);
      var a: nat, b: nat :| a < |pods| && PairFound(s, pods, a, b, e);
      PairEdgeMeans(s, pods[a], pods[b]);
    } else {
      SourceEdgeMember(s, writers, pods, e);
      var w, v :| w in writers && v in pods && SourceFound(s, w, v, e);
      SourceEdgeMeans(s, w, v, e);
    }
  }

  /** Every edge is a correlation of at least R_SRC and at most 1. */
  lemma EdgesAreCorrelations(s: Scene, pods: seq<string>, writers: seq<string>)
    requires forall p :: p in pods ==> p in s.vectors
    requires forall p :: p in writers ==> p in s.writes
    requires IsCorrelation(s.corr)
    ensures forall e :: e in EdgesOf(s, pods, writers) ==> R_SRC <= e.r <= 1.0 && Abs(e.r) <= 1.0 && e.lag >= 0
  {
    hide EdgesOf, PairEdge, AttributedEdge, IsCorrelation;
    forall e | e in EdgesOf(s, pods, writers)
      ensures R_SRC <= e.r <= 1.0 && e.lag >= 0
    {
      EdgesAreAdmitted(s, pods, writers, e);
      if IsSourceEdge(s, e) {
        SourceEdgeMeans(s, e.src, e.dst, e);
      } else if PairEdge(s, e.src, e.dst) == Some(e) {
        PairEdgeMeans(s, e.src, e.dst);
      } else {
        PairEdgeMeans(s, e.dst, e.src);
      }
    }
  }
}
