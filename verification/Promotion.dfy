/** Which graphs become incidents of the case library, and as what. */
module Promotion {
  import opened Common
  import opened Config
  import opened Digraph
  import opened CaseLibrary
  import opened Ordering
  import BlastRadius
  import CG = CausalGraph
  import Workload

  predicate Physical(tag: string) {
    tag != "stat" && tag != "temporal" && tag != "write"
  }

  function PhysicalTags(tags: seq<string>): seq<string> {
    if tags == [] then []
    else PhysicalTags(tags[..|tags| - 1]) + if Physical(tags[|tags| - 1]) then [tags[|tags| - 1]] else []
  }

  function AllTags(es: seq<Edge>): seq<string> {
    if es == [] then [] else AllTags(es[..|es| - 1]) + PhysicalTags(es[|es| - 1].evidence)
  }

  /** More frequent first, then by name. */
  predicate Dominates(tags: seq<string>, a: string, b: string) {
    multiset(tags)[a] > multiset(tags)[b] || (multiset(tags)[a] == multiset(tags)[b] && StringLe(a, b))
  }

  /** The dominating tag among some of the tags. */
  function DominantAmong(tags: seq<string>, some_: seq<string>): (r: Option<string>)
    ensures r.None? <==> some_ == []
    ensures r.Some? ==> r.value in some_ && forall t :: t in some_ ==> Dominates(tags, r.value, t)
  {
    if some_ == [] then None
    else
      var last := some_[|some_| - 1];
      var rest := DominantAmong(tags, some_[..|some_| - 1]);
      assert some_ == some_[..|some_| - 1] + [last];
      StringOrderIsTotal();
      if rest.None? || Dominates(tags, last, rest.value) then Some(last) else rest
  }

  /** The physical witness most edges carry. */
  function DominantWitness(es: seq<Edge>): Option<string> {
    DominantAmong(AllTags(es), AllTags(es))
  }

  function MeanOf(xs: seq<int>): real
    requires xs != []
  {
    SumInt(xs) as real / |xs| as real
  }

  function SumInt(xs: seq<int>): int {
    if xs == [] then 0 else SumInt(xs[..|xs| - 1]) + xs[|xs| - 1]
  }

  function Etas(blast: seq<BlastRadius.Hit>): seq<int> {
    if blast == [] then [] else Etas(blast[..|blast| - 1]) + [blast[|blast| - 1].eta]
  }

  function PositiveLags(es: seq<Edge>): seq<int> {
    if es == [] then []
    else PositiveLags(es[..|es| - 1]) + if es[|es| - 1].lag > 0 then [es[|es| - 1].lag] else []
  }

  /** Mean predicted delay, else mean positive lag, else unknown. */
  function LeadTime(g: CG.Report): Option<real> {
    if Etas(g.blast) != [] then Some(MeanOf(Etas(g.blast)))
    else if PositiveLags(g.edges) != [] then Some(MeanOf(PositiveLags(g.edges)))
    else None
  }

  function MotifOf(es: seq<Edge>): multiset<(string, string)> {
    if es == [] then multiset{}
    else MotifOf(es[..|es| - 1]) + multiset{(es[|es| - 1].src, es[|es| - 1].dst)}
  }

  /** The workloads the blast radius names, the root excepted. */
  function BlastVictims(blast: seq<BlastRadius.Hit>, root: string): set<string> {
    set b | b in blast && b.pod != "" && Workload.StableWorkload(b.pod) != root :: Workload.StableWorkload(b.pod)
  }

  function EdgeVictims(es: seq<Edge>, root: string): set<string> {
    set e | e in es && e.dst != root :: e.dst
  }

  function Victims(g: CG.Report, root: string): set<string> {
    var hit := BlastVictims(g.blast, root);
    if hit != {} then hit else EdgeVictims(CG.WorkloadEdges(g.edges), root)
  }

  /** An edge by which the root itself drives others. */
  predicate HasSourceEdge(es: seq<Edge>, root: string) {
    exists e :: e in es && e.src == root && SOURCE in e.evidence
  }

  /** The incident a graph shows, if its verdict is rooted in a source. */
  function IncidentOf(c: MemoryConfig, g: CG.Report): Option<Incident> {
    if g.ranking == [] || g.edges == [] then None
    else
      var root := Workload.StableWorkload(g.ranking[0].pod);
      var es := CG.WorkloadEdges(g.edges);
      if !HasSourceEdge(es, root) || Victims(g, root) == {} then None
      else Some(Incident(CaseKey(root, Victims(g, root), c.signal, DominantWitness(es), MotifOf(es)), LeadTime(g)))
  }

  lemma {:induction false} MotifMembers(es: seq<Edge>, p: (string, string))
    ensures p in MotifOf(es) <==> exists e :: e in es && (e.src, e.dst) == p
  {
    if es == [] {
    } else {
      MotifMembers(es[..|es| - 1], p);
      assert es == es[..|es| - 1] + [es[|es| - 1]];
    }
  }

  /** Only a source-rooted verdict is promoted: the ranked root owns a write-evidenced edge that is
      part of the motif, and it is not among its own victims. */
  lemma PromotedIsSourceRooted(c: MemoryConfig, g: CG.Report)
    requires IncidentOf(c, g).Some?
    ensures var k := IncidentOf(c, g).value.key;
            && g.ranking != [] && k.root == Workload.StableWorkload(g.ranking[0].pod)
            && (exists e :: e in g.edges && Workload.StableWorkload(e.src) == k.root && SOURCE in e.evidence
                  && (k.root, Workload.StableWorkload(e.dst)) in Motif(k))
            && k.victims != {} && k.root !in k.victims
  {
    hide Workload.StableWorkload;
    var k := IncidentOf(c, g).value.key;
    var es := CG.WorkloadEdges(g.edges);
    var w :| w in es && w.src == k.root && SOURCE in w.evidence;
    var i :| 0 <= i < |es| && es[i] == w;
    var e := g.edges[i];
    assert e in g.edges && CG.WorkloadEdge(e) == w;
    MotifMembers(es, (k.root, w.dst));
    assert (k.root, Workload.StableWorkload(e.dst)) in Motif(k);
  }

  /** The workloads hit according to the verdict: those the blast radius names besides the root, or, if it names none,
      those the edges point at besides the root. */
  ghost predicate IsHit(g: CG.Report, root: string, v: string) {
    v != root &&
    if NamesVictim(g, root) then exists b :: b in g.blast && b.pod != "" && Workload.StableWorkload(b.pod) == v
    else exists e :: e in g.edges && Workload.StableWorkload(e.dst) == v
  }

  ghost predicate NamesVictim(g: CG.Report, root: string) {
    exists b :: b in g.blast && b.pod != "" && Workload.StableWorkload(b.pod) != root
  }

  lemma VictimsMean(g: CG.Report, root: string, v: string)
    ensures v in Victims(g, root) <==> IsHit(g, root, v)
  {
    hide Workload.StableWorkload;
    if NamesVictim(g, root) {
      var b :| b in g.blast && b.pod != "" && Workload.StableWorkload(b.pod) != root;
      assert Workload.StableWorkload(b.pod) in BlastVictims(g.blast, root);
    }
    var ws := CG.WorkloadEdges(g.edges);
    forall e | e in g.edges
      ensures CG.WorkloadEdge(e) in ws
    {
      var i :| 0 <= i < |g.edges| && g.edges[i] == e;
      assert ws[i] == CG.WorkloadEdge(e);
    }
    forall w | w in ws
      ensures exists e :: e in g.edges && CG.WorkloadEdge(e) == w
    {
      var i :| 0 <= i < |ws| && ws[i] == w;
      assert g.edges[i] in g.edges;
    }
  }

  /** A graph is promoted exactly when the workload of its first verdict owns a write-evidenced edge and hits another
      workload; the case is then keyed by that root, the workloads it hits, the arrows between workloads, and the
      signal. */
  lemma PromotedIff(c: MemoryConfig, g: CG.Report)
    ensures IncidentOf(c, g).Some? <==>
            && g.ranking != []
            && (exists e :: e in g.edges && Workload.StableWorkload(e.src) == Workload.StableWorkload(g.ranking[0].pod)
                            && "write" in e.evidence)
            && exists v :: IsHit(g, Workload.StableWorkload(g.ranking[0].pod), v)
    ensures IncidentOf(c, g).Some? ==>
              var k, root := IncidentOf(c, g).value.key, Workload.StableWorkload(g.ranking[0].pod);
              && k.root == root && k.signal == c.signal
              && (forall v :: v in k.victims <==> IsHit(g, root, v))
              && (forall u, v :: (u, v) in Motif(k) <==>
                    exists e :: e in g.edges && Workload.StableWorkload(e.src) == u
                                && Workload.StableWorkload(e.dst) == v)
  {
    hide Workload.StableWorkload, IsHit, Victims, DominantWitness, LeadTime, MotifOf;
    if g.ranking != [] {
      var root := Workload.StableWorkload(g.ranking[0].pod);
      forall v
        ensures v in Victims(g, root) <==> IsHit(g, root, v)
      {
        VictimsMean(g, root, v);
      }
      SourceEdgeMeans(g, root);
      if IncidentOf(c, g).Some? {
        forall u, v
          ensures (u, v) in MotifOf(CG.WorkloadEdges(g.edges)) <==>
                  exists e :: e in g.edges && Workload.StableWorkload(e.src) == u && Workload.StableWorkload(e.dst) == v
        {
          ArrowMeans(g, u, v);
        }
      }
    }
  }

  lemma SourceEdgeMeans(g: CG.Report, root: string)
    ensures HasSourceEdge(CG.WorkloadEdges(g.edges), root) <==>
            exists e :: e in g.edges && Workload.StableWorkload(e.src) == root && "write" in e.evidence
  {
    hide Workload.StableWorkload;
    var ws := CG.WorkloadEdges(g.edges);
    if HasSourceEdge(ws, root) {
      var w :| w in ws && w.src == root && SOURCE in w.evidence;
      var i :| 0 <= i < |ws| && ws[i] == w;
      assert g.edges[i] in g.edges;
    }
    if exists e :: e in g.edges && Workload.StableWorkload(e.src) == root && "write" in e.evidence {
      var e :| e in g.edges && Workload.StableWorkload(e.src) == root && "write" in e.evidence;
      var i :| 0 <= i < |g.edges| && g.edges[i] == e;
      assert ws[i] in ws;
    }
  }

  lemma ArrowMeans(g: CG.Report, u: string, v: string)
    ensures (u, v) in MotifOf(CG.WorkloadEdges(g.edges)) <==>
            exists e :: e in g.edges && Workload.StableWorkload(e.src) == u && Workload.StableWorkload(e.dst) == v
  {
    hide Workload.StableWorkload, MotifOf;
    var ws := CG.WorkloadEdges(g.edges);
    MotifMembers(ws, (u, v));
    if exists w :: w in ws && (w.src, w.dst) == (u, v) {
      var w :| w in ws && (w.src, w.dst) == (u, v);
      var i :| 0 <= i < |ws| && ws[i] == w;
      assert g.edges[i] in g.edges;
    }
    if exists e :: e in g.edges && Workload.StableWorkload(e.src) == u && Workload.StableWorkload(e.dst) == v {
      var e :| e in g.edges && Workload.StableWorkload(e.src) == u && Workload.StableWorkload(e.dst) == v;
      var i :| 0 <= i < |g.edges| && g.edges[i] == e;
      assert ws[i] in ws;
    }
  }

  // The witness of a case.

  /** How often the edges name a tag. */
  function TagCount(es: seq<Edge>, tag: string): nat {
    if es == [] then 0 else TagCount(es[..|es| - 1], tag) + multiset(es[|es| - 1].evidence)[tag]
  }

  /** A tag that names a relation of the pods, not a statistic, an order or a source. */
  predicate NamesRelation(tag: string) {
    tag !in {"stat", "temporal", "write"}
  }

  lemma {:induction false} PhysicalCount(tags: seq<string>, tag: string)
    ensures multiset(PhysicalTags(tags))[tag] == if NamesRelation(tag) then multiset(tags)[tag] else 0
  {
    if tags == [] {
    } else {
      var front, last := tags[..|tags| - 1], tags[|tags| - 1];
      assert tags == front + [last];
      PhysicalCount(front, tag);
    }
  }

  lemma {:induction false} AllTagsCount(es: seq<Edge>, tag: string)
    ensures multiset(AllTags(es))[tag] == if NamesRelation(tag) then TagCount(es, tag) else 0
  {
    hide PhysicalTags;
    if es == [] {
    } else {
      AllTagsCount(es[..|es| - 1], tag);
      PhysicalCount(es[|es| - 1].evidence, tag);
    }
  }

  /** The witness of a case is the relation that most of its evidence names, the first by name among equals. */
  lemma WitnessIsCommonest(es: seq<Edge>)
    ensures DominantWitness(es).None? <==> forall tag :: NamesRelation(tag) ==> TagCount(es, tag) == 0
    ensures DominantWitness(es).Some? ==>
              var w := DominantWitness(es).value;
              && NamesRelation(w) && TagCount(es, w) > 0
              && forall tag :: NamesRelation(tag) ==>
                   || TagCount(es, w) > TagCount(es, tag)
                   || (TagCount(es, w) == TagCount(es, tag) && (TagCount(es, tag) == 0 || StringLe(w, tag)))
  {
    hide StringLe;
    var tags := AllTags(es);
    forall tag
      ensures tag in tags <==> NamesRelation(tag) && TagCount(es, tag) > 0
      ensures NamesRelation(tag) ==> multiset(tags)[tag] == TagCount(es, tag)
    {
      AllTagsCount(es, tag);
      assert tag in tags <==> tag in multiset(tags);
    }
    hide TagCount, AllTags, DominantAmong;
    if tags != [] {
      assert tags[0] in tags;
    }
  }

  // The lead of a case.

  function EtaOf(b: BlastRadius.Hit): real {
    b.eta as real
  }

  function PositiveLag(e: Edge): real {
    if e.lag > 0 then e.lag as real else 0.0
  }

  function One(e: Edge): real {
    if e.lag > 0 then 1.0 else 0.0
  }

  lemma {:induction false} EtasSum(blast: seq<BlastRadius.Hit>)
    ensures |Etas(blast)| == |blast| && SumInt(Etas(blast)) as real == SumBy(blast, EtaOf)
  {
    if blast == [] {
    } else {
      var etas := Etas(blast[..|blast| - 1]);
      EtasSum(blast[..|blast| - 1]);
      assert (etas + [blast[|blast| - 1].eta])[..|etas|] == etas;
    }
  }

  lemma {:induction false} LagsSum(es: seq<Edge>)
    ensures |PositiveLags(es)| as real == SumBy(es, One) && SumInt(PositiveLags(es)) as real == SumBy(es, PositiveLag)
  {
    if es == [] {
    } else {
      var front := es[..|es| - 1];
      LagsSum(front);
      var lags := PositiveLags(front);
      assert (lags + [es[|es| - 1].lag])[..|lags|] == lags;
      assert lags + [] == lags;
    }
  }

  /** The lead is the mean delay of the predicted victims; without any the mean of the positive lags of the edges;
      without those it is unknown. */
  lemma LeadIsMeanDelay(g: CG.Report)
    ensures g.blast != [] ==> LeadTime(g).Some? && LeadTime(g).value * |g.blast| as real == SumBy(g.blast, EtaOf)
    ensures g.blast == [] && SumBy(g.edges, One) > 0.0 ==>
              LeadTime(g).Some? && LeadTime(g).value * SumBy(g.edges, One) == SumBy(g.edges, PositiveLag)
    ensures g.blast == [] && SumBy(g.edges, One) <= 0.0 ==> LeadTime(g).None?
  {
    hide SumBy, MeanOf, Etas, PositiveLags, SumInt;
    EtasSum(g.blast);
    LagsSum(g.edges);
    if g.blast != [] {
      MeanTimesCount(Etas(g.blast));
    } else if PositiveLags(g.edges) != [] {
      MeanTimesCount(PositiveLags(g.edges));
    }
  }

  lemma MeanTimesCount(xs: seq<int>)
    requires xs != []
    ensures MeanOf(xs) * |xs| as real == SumInt(xs) as real
  {
  }

  /** A verdict that is nobody's source mints no case: the victim cascade is left out. */
  lemma CascadeIsNotPromoted(c: MemoryConfig, g: CG.Report)
    requires forall e :: e in g.edges && SOURCE in e.evidence ==>
               g.ranking == [] || Workload.StableWorkload(e.src) != Workload.StableWorkload(g.ranking[0].pod)
    ensures IncidentOf(c, g).None?
  {
    if IncidentOf(c, g).Some? {
      PromotedIsSourceRooted(c, g);
    }
  }

  /** Two graphs that agree once pods are replaced by their workloads. */
  ghost predicate SameIncident(g: CG.Report, h: CG.Report) {
    && CG.WorkloadEdges(g.edges) == CG.WorkloadEdges(h.edges)
    && (g.ranking == [] <==> h.ranking == [])
    && (g.ranking != [] ==>
          Workload.StableWorkload(g.ranking[0].pod) == Workload.StableWorkload(h.ranking[0].pod))
    && |g.blast| == |h.blast|
    && forall i :: 0 <= i < |g.blast| ==> SameHit(g.blast[i], h.blast[i])
  }

  ghost predicate SameHit(a: BlastRadius.Hit, b: BlastRadius.Hit) {
    Workload.StableWorkload(a.pod) == Workload.StableWorkload(b.pod) && (a.pod == "" <==> b.pod == "") && a.eta == b.eta
  }

  lemma {:induction false} SameEtas(xs: seq<BlastRadius.Hit>, ys: seq<BlastRadius.Hit>)
    requires |xs| == |ys| && forall i :: 0 <= i < |xs| ==> SameHit(xs[i], ys[i])
    ensures Etas(xs) == Etas(ys)
  {
    if xs == [] {
    } else {
      SameEtas(xs[..|xs| - 1], ys[..|ys| - 1]);
    }
  }

  lemma {:induction false} SameLags(xs: seq<Edge>, ys: seq<Edge>)
    requires |xs| == |ys| && forall i :: 0 <= i < |xs| ==> CG.WorkloadEdge(xs[i]) == CG.WorkloadEdge(ys[i])
    ensures PositiveLags(xs) == PositiveLags(ys)
  {
    if xs == [] {
    } else {
      SameLags(xs[..|xs| - 1], ys[..|ys| - 1]);
    }
  }

  lemma SameBlastVictims(xs: seq<BlastRadius.Hit>, ys: seq<BlastRadius.Hit>, root: string)
    requires |xs| == |ys| && forall i :: 0 <= i < |xs| ==> SameHit(xs[i], ys[i])
    ensures BlastVictims(xs, root) <= BlastVictims(ys, root)
  {
    forall v | v in BlastVictims(xs, root)
      ensures v in BlastVictims(ys, root)
    {
      var b :| b in xs && b.pod != "" && Workload.StableWorkload(b.pod) != root && Workload.StableWorkload(b.pod) == v;
      var i :| 0 <= i < |xs| && xs[i] == b;
      assert SameHit(xs[i], ys[i]) && ys[i] in ys;
    }
  }

  /** Restarted pods show the same incident. */
  lemma RestartKeepsIncident(c: MemoryConfig, g: CG.Report, h: CG.Report)
    requires SameIncident(g, h)
    ensures IncidentOf(c, g) == IncidentOf(c, h)
  {
    hide Workload.StableWorkload, DominantWitness, MotifOf, LeadTime, Victims, HasSourceEdge;
    assert |g.edges| == |CG.WorkloadEdges(g.edges)| == |h.edges|;
    SameLeadTime(g, h);
    if g.ranking != [] {
      SameVictims(g, h, Workload.StableWorkload(g.ranking[0].pod));
    }
  }

  lemma SameLeadTime(g: CG.Report, h: CG.Report)
    requires SameIncident(g, h)
    ensures LeadTime(g) == LeadTime(h)
  {
    hide Workload.StableWorkload, MeanOf;
    SameEtas(g.blast, h.blast);
    assert |g.edges| == |CG.WorkloadEdges(g.edges)| == |h.edges|;
    forall i | 0 <= i < |g.edges|
      ensures CG.WorkloadEdge(g.edges[i]) == CG.WorkloadEdge(h.edges[i])
    {
      assert CG.WorkloadEdges(g.edges)[i] == CG.WorkloadEdges(h.edges)[i];
    }
    SameLags(g.edges, h.edges);
  }

  lemma SameVictims(g: CG.Report, h: CG.Report, root: string)
    requires SameIncident(g, h)
    ensures Victims(g, root) == Victims(h, root)
  {
    hide Workload.StableWorkload, BlastVictims;
    SameBlastVictims(g.blast, h.blast, root);
    SameBlastVictims(h.blast, g.blast, root);
  }
}
