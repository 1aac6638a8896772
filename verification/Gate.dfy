/** The evidence gate: an edge needs statistics, a shared resource and a consistent order in time. */
module Gate {
  import opened Common
  import opened Digraph
  import opened LagCorrelation

  const R_PEAK := 0.6
  const R_ADJ := 0.4
  const TEMPORAL_TOL_S := 10.0

  /** Physical relations of the topology; unordered pairs are two-element sets. */
  datatype Witness = Witness(
    ebpf: set<(string, string)>, copressure: set<set<string>>, shared: set<set<string>>, sameNode: set<set<string>>)

  function Flag(b: bool, tag: string): seq<string> {
    if b then [tag] else []
  }

  predicate Network(w: Witness, a: string, b: string) {
    (a, b) in w.ebpf || (b, a) in w.ebpf
  }

  function Kinds(w: Witness, src: string, dst: string): seq<string> {
    Flag(Network(w, src, dst), "ebpf") + Flag({src, dst} in w.copressure, "psi")
    + Flag({src, dst} in w.shared, "pvc") + Flag({src, dst} in w.sameNode, "node")
  }

  /** Tags that admit a correlation edge on their own, and those that admit a source edge. */
  const COUPLING := ["ebpf", "pvc"]
  const SOURCE_COUPLING := ["ebpf", "pvc", "node"]

  predicate Couples(w: Witness, a: string, b: string) {
    exists k :: k in Kinds(w, a, b) && k in COUPLING
  }

  predicate CouplesSource(w: Witness, a: string, b: string) {
    exists k :: k in Kinds(w, a, b) && k in SOURCE_COUPLING
  }

  lemma KindsMeans(w: Witness, a: string, b: string)
    ensures forall k :: k in Kinds(w, a, b) <==>
              || (k == "ebpf" && ((a, b) in w.ebpf || (b, a) in w.ebpf)) || (k == "psi" && {a, b} in w.copressure)
              || (k == "pvc" && {a, b} in w.shared) || (k == "node" && {a, b} in w.sameNode)
  {
    forall k
      ensures k in Kinds(w, a, b) <==>
              || (k == "ebpf" && Network(w, a, b)) || (k == "psi" && {a, b} in w.copressure)
              || (k == "pvc" && {a, b} in w.shared) || (k == "node" && {a, b} in w.sameNode)
    {
      var n, p, s, o := Flag(Network(w, a, b), "ebpf"), Flag({a, b} in w.copressure, "psi"),
                        Flag({a, b} in w.shared, "pvc"), Flag({a, b} in w.sameNode, "node");
      assert k in n + p + s + o <==> k in n || k in p || k in s || k in o;
    }
  }

  /** Coupling is a shared disk or a network dependency; pressure alone never couples. */
  lemma CouplesMeans(w: Witness, a: string, b: string)
    ensures Couples(w, a, b) <==> (a, b) in w.ebpf || (b, a) in w.ebpf || {a, b} in w.shared
    ensures CouplesSource(w, a, b) <==>
              (a, b) in w.ebpf || (b, a) in w.ebpf || {a, b} in w.shared || {a, b} in w.sameNode
    ensures Couples(w, a, b) == Couples(w, b, a) && CouplesSource(w, a, b) == CouplesSource(w, b, a)
    ensures Couples(w, a, b) ==> CouplesSource(w, a, b)
    ensures Kinds(w, a, b) == Kinds(w, b, a)
  {
    hide Kinds;
    CouplesOneWay(w, a, b);
    CouplesOneWay(w, b, a);
    assert {a, b} == {b, a};
    KindsAreSymmetric(w, a, b);
  }

  lemma KindsAreSymmetric(w: Witness, a: string, b: string)
    ensures Kinds(w, a, b) == Kinds(w, b, a) && Network(w, a, b) == Network(w, b, a)
  {
    assert {a, b} == {b, a};
  }

  lemma CouplesOneWay(w: Witness, a: string, b: string)
    ensures Couples(w, a, b) <==> Network(w, a, b) || {a, b} in w.shared
    ensures CouplesSource(w, a, b) <==> Network(w, a, b) || {a, b} in w.shared || {a, b} in w.sameNode
  {
    KindsMeans(w, a, b);
    hide Kinds;
    assert "ebpf" in Kinds(w, a, b) <==> Network(w, a, b);
    assert "pvc" in Kinds(w, a, b) <==> {a, b} in w.shared;
    assert "node" in Kinds(w, a, b) <==> {a, b} in w.sameNode;
    assert "ebpf" in COUPLING && "pvc" in COUPLING && "psi" !in COUPLING && "node" !in COUPLING;
    assert "ebpf" in SOURCE_COUPLING && "pvc" in SOURCE_COUPLING
           && "node" in SOURCE_COUPLING && "psi" !in SOURCE_COUPLING;
  }

  /** Both onsets are known and consistent with the claimed delay, or one is unknown. */
  predicate Ordered(onset: map<string, real>, src: string, dst: string, lag: int) {
    src in onset && dst in onset ==>
      onset[src] <= onset[dst] + TEMPORAL_TOL_S
      && (lag > 0 ==> onset[dst] - onset[src] <= 4.0 * lag as real + TEMPORAL_TOL_S)
  }

  /** Applies the three clauses; the edge carries the evidence that admitted it. */
  function AcceptEdge(src: string, dst: string, r: real, lag: int, profile: seq<Sample>,
                      w: Witness, onset: map<string, real>): Option<Edge> {
    if r < R_PEAK || !AdjacentSupport(profile, lag, R_ADJ) then None
    else
      var kinds := Kinds(w, src, dst);
      if !(exists k :: k in kinds && k in COUPLING) then None
      else if src in onset && dst in onset && onset[src] > onset[dst] + TEMPORAL_TOL_S then None
      else if src in onset && dst in onset && lag > 0
              && onset[dst] - onset[src] > 4.0 * lag as real + TEMPORAL_TOL_S then None
      else Some(Edge(src, dst, r, lag, ["stat"] + kinds + Flag(src in onset && dst in onset, "temporal")))
  }

  /** An edge is accepted exactly when it is strong and supported at a neighbouring lag, its pods share
      a disk or talk to each other, and the onsets, if known, are in order. */
  lemma AcceptIff(src: string, dst: string, r: real, lag: int, profile: seq<Sample>,
                  w: Witness, onset: map<string, real>)
    ensures AcceptEdge(src, dst, r, lag, profile, w, onset).Some? <==>
            && r >= 0.6 && AdjacentSupport(profile, lag, 0.4)
            && ((src, dst) in w.ebpf || (dst, src) in w.ebpf || {src, dst} in w.shared)
            && (src in onset && dst in onset ==>
                  && onset[src] <= onset[dst] + 10.0
                  && (lag > 0 ==> onset[dst] - onset[src] <= 4.0 * lag as real + 10.0))
  {
    hide Kinds, AdjacentSupport;
    CouplesOneWay(w, src, dst);
  }

  /** What an accepted edge says: its ends, its strength, and as evidence the statistics, every relation of its pods,
      and their order if both onsets are known, but never a source. */
  lemma AcceptedEdge(src: string, dst: string, r: real, lag: int, profile: seq<Sample>,
                     w: Witness, onset: map<string, real>)
    requires AcceptEdge(src, dst, r, lag, profile, w, onset).Some?
    ensures var e := AcceptEdge(src, dst, r, lag, profile, w, onset).value;
            && e.src == src && e.dst == dst && e.r == r >= R_PEAK && e.lag == lag
            && "write" !in e.evidence && ("temporal" in e.evidence <==> src in onset && dst in onset)
            && "stat" in e.evidence && ("psi" in e.evidence <==> {src, dst} in w.copressure)
            && ("pvc" in e.evidence <==> {src, dst} in w.shared)
            && ("node" in e.evidence <==> {src, dst} in w.sameNode)
            && ("ebpf" in e.evidence <==> (src, dst) in w.ebpf || (dst, src) in w.ebpf)
  {
    KindsMeans(w, src, dst);
    hide Kinds, AdjacentSupport;
    var e := AcceptEdge(src, dst, r, lag, profile, w, onset).value;
    var known := Flag(src in onset && dst in onset, "temporal");
    assert forall t :: t in e.evidence <==> t == "stat" || t in Kinds(w, src, dst) || t in known;
    assert forall t :: t in known ==> t == "temporal";
    TagsDiffer();
  }

  lemma TagsDiffer()
    ensures "write" != "stat" && "write" != "ebpf" && "write" != "psi" && "write" != "pvc"
            && "write" != "node" && "write" != "temporal"
    ensures "temporal" != "stat" && "temporal" != "ebpf" && "temporal" != "psi"
            && "temporal" != "pvc" && "temporal" != "node"
    ensures "stat" != "ebpf" && "stat" != "psi" && "stat" != "pvc" && "stat" != "node"
  {
  }

  /** Co-pressure and co-location never decide about a correlation edge. */
  lemma PressureNeverAdmits(src: string, dst: string, r: real, lag: int, profile: seq<Sample>,
                            v: Witness, w: Witness, onset: map<string, real>)
    requires v.ebpf == w.ebpf && v.shared == w.shared
    ensures AcceptEdge(src, dst, r, lag, profile, v, onset).Some? <==>
            AcceptEdge(src, dst, r, lag, profile, w, onset).Some?
  {
    hide AcceptEdge, AdjacentSupport;
    AcceptIff(src, dst, r, lag, profile, v, onset);
    AcceptIff(src, dst, r, lag, profile, w, onset);
  }
}
