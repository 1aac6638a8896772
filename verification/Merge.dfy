/** The served graph: the union of the per-signal graphs, re-ranked (`merge_graphs`). */
module Merge {
  import opened Common
  import opened Digraph
  import opened Ordering
  import BlastRadius
  import CG = CausalGraph
  import Ranking

  /** The graph one signal renders, with what its meta block contributes. */
  datatype Served = Served(report: CG.Report, stats: map<string, int>, incident: map<string, string>, pods: nat)

  datatype Tagged<+T> = Tagged(signal: string, item: T)

  datatype Merged = Merged(
    edges: seq<Tagged<Edge>>, findings: seq<Tagged<CG.Finding>>,
    ranking: seq<Ranking.Verdict>, blast: seq<BlastRadius.Hit>,
    owner: Option<string>, signal: Option<string>, incident: map<string, string>,
    signals: seq<string>, stats: map<string, int>, pods: nat, active: nat, accepted: nat)

  const STAT_KEYS := {"edge_memory", "visible_memory_edges", "cases", "families", "open_mistakes", "held_edges"}
  const CASE_KEYS := {"case_id", "case_family", "case_register", "case_sim"}

  // Gathering.

  function ReportEdges(s: Served): seq<Edge> {
    s.report.edges
  }

  function ReportFindings(s: Served): seq<CG.Finding> {
    s.report.findings
  }

  function TagAll<T>(signal: string, xs: seq<T>): (ts: seq<Tagged<T>>)
    ensures |ts| == |xs| && forall i :: 0 <= i < |xs| ==> ts[i] == Tagged(signal, xs[i])
  {
    seq(|xs|, i requires 0 <= i < |xs| => Tagged(signal, xs[i]))
  }

  /** What every signal contributes, signal after signal. */
  function Gather<T>(keys: seq<string>, at: map<string, Served>, part: Served -> seq<T>): seq<Tagged<T>>
    requires forall k :: k in keys ==> k in at
  {
    if keys == [] then []
    else Gather(keys[..|keys| - 1], at, part) + TagAll(keys[|keys| - 1], part(at[keys[|keys| - 1]]))
  }

  function Items<T>(ts: seq<Tagged<T>>): (xs: seq<T>)
    ensures |xs| == |ts| && forall i :: 0 <= i < |ts| ==> xs[i] == ts[i].item
  {
    seq(|ts|, i requires 0 <= i < |ts| => ts[i].item)
  }

  /** An edge or finding is in the union exactly when its signal's graph has it. */
  lemma {:induction false} GatherMember<T>(keys: seq<string>, at: map<string, Served>,
                                           part: Served -> seq<T>, t: Tagged<T>)
    requires forall k :: k in keys ==> k in at
    ensures t in Gather(keys, at, part) <==> t.signal in keys && t.item in part(at[t.signal])
  {
    if keys == [] {
    } else {
      var front, k := keys[..|keys| - 1], keys[|keys| - 1];
      GatherMember(front, at, part, t);
      assert keys == front + [k];
      var tail := TagAll(k, part(at[k]));
      if t.signal == k && t.item in part(at[k]) {
        var i :| 0 <= i < |part(at[k])| && part(at[k])[i] == t.item;
        assert tail[i] == t;
      }
    }
  }

  function CountAll<T>(keys: seq<string>, at: map<string, Served>, part: Served -> seq<T>): nat
    requires forall k :: k in keys ==> k in at
  {
    if keys == [] then 0 else CountAll(keys[..|keys| - 1], at, part) + |part(at[keys[|keys| - 1]])|
  }

  /** Nothing is lost or invented: the union has as many entries as the signals together. */
  lemma {:induction false} GatherConserves<T>(keys: seq<string>, at: map<string, Served>, part: Served -> seq<T>)
    requires forall k :: k in keys ==> k in at
    ensures |Gather(keys, at, part)| == CountAll(keys, at, part)
  {
    if keys == [] {
    } else {
      GatherConserves(keys[..|keys| - 1], at, part);
    }
  }

  /** The findings whose pod sits on the graph. */
  function OnGraph(fs: seq<CG.Finding>, g: Graph): (pods: seq<string>)
    ensures forall p :: p in pods <==> p in g.adj && exists f :: f in fs && f.pod == p
  {
    if fs == [] then []
    else
      var f := fs[|fs| - 1];
      assert fs == fs[..|fs| - 1] + [f];
      OnGraph(fs[..|fs| - 1], g) + if f.pod in g.adj then [f.pod] else []
  }

  function FirstFrom(es: seq<Tagged<Edge>>, root: string): Option<string> {
    if es == [] then None else if es[0].item.src == root then Some(es[0].signal) else FirstFrom(es[1..], root)
  }

  /** The sum of a statistic over the signals that report it; absent when none does. */
  function StatOf(keys: seq<string>, at: map<string, Served>, stat: string): Option<int>
    requires forall k :: k in keys ==> k in at
  {
    if keys == [] then None
    else
      var before, s := StatOf(keys[..|keys| - 1], at, stat), at[keys[|keys| - 1]].stats;
      if stat in s then Some(before.GetOr(0) + s[stat]) else before
  }

  ghost predicate StatsOf(keys: seq<string>, at: map<string, Served>, stats: map<string, int>)
    requires forall k :: k in keys ==> k in at
  {
    && (forall x :: x in stats ==> x in STAT_KEYS && StatOf(keys, at, x) == Some(stats[x]))
    && (forall x :: x in STAT_KEYS && StatOf(keys, at, x).Some? ==> x in stats)
  }

  lemma FirstIsMember<T>(xs: seq<T>)
    ensures xs != [] ==> xs[0] in xs
  {
  }

  /** The largest pod count any signal reports; 0 without signals. */
  function MostPods(keys: seq<string>, at: map<string, Served>): (n: nat)
    requires forall k :: k in keys ==> k in at
    ensures forall k :: k in keys ==> at[k].pods <= n
    ensures keys != [] ==> exists k :: k in keys && at[k].pods == n
  {
    if keys == [] then 0
    else
      var before, last := MostPods(keys[..|keys| - 1], at), keys[|keys| - 1];
      assert keys == keys[..|keys| - 1] + [last];
      if at[last].pods > before || |keys| == 1 then at[last].pods else before
  }

  // The merge.

  function Union(per: Dict<Served>): Graph
    requires per.Valid()
  {
    GraphOf(Items(Gather(per.keys, per.at, ReportEdges)))
  }

  function AllFindings(per: Dict<Served>): seq<CG.Finding>
    requires per.Valid()
  {
    Items(Gather(per.keys, per.at, ReportFindings))
  }

  function Symptoms(per: Dict<Served>): seq<string>
    requires per.Valid()
  {
    OnGraph(AllFindings(per), Union(per))
  }

  /** The verdict over the union: none without a finding that sits on the graph. */
  ghost predicate Judged(per: Dict<Served>, ranking: seq<Ranking.Verdict>, blast: seq<BlastRadius.Hit>)
    requires per.Valid()
  {
    if Symptoms(per) == [] then ranking == [] && blast == []
    else
      && ranking == Ranking.RankingOf(Union(per), Symptoms(per), CG.OnsetsOf(AllFindings(per)), Ranking.TOP)
      && if ranking == [] then blast == []
         else exists paths :: BlastRadius.IsBlast(Union(per), ranking[0].pod, blast, paths)
  }

  /** The label and case shown: those of the signal of the root's first edge. */
  ghost predicate Labelled(per: Dict<Served>, primary: Option<string>, m: Merged)
    requires per.Valid()
  {
    && m.owner == (if m.ranking == [] then None else FirstFrom(m.edges, m.ranking[0].pod))
    && m.signal == (if m.owner.Some? then m.owner
                   else if primary.Some? then primary
                   else if per.keys == [] then None
                   else SortIsPermutation(per.keys, StringLe); Some(Sort(per.keys, StringLe)[0]))
    && m.incident == (if m.owner.Some? && m.owner.value in per.at
                      then CaseOf(per.at[m.owner.value].incident) else map[])
  }

  function CaseOf(info: map<string, string>): map<string, string> {
    map k | k in CASE_KEYS && k in info :: info[k]
  }

  ghost predicate IsMerge(per: Dict<Served>, primary: Option<string>, m: Merged)
    requires per.Valid()
  {
    && m.edges == Gather(per.keys, per.at, ReportEdges)
    && m.findings == Gather(per.keys, per.at, ReportFindings)
    && Judged(per, m.ranking, m.blast)
    && Labelled(per, primary, m)
    && StatsOf(per.keys, per.at, m.stats)
    && m.signals == Sort(per.keys, StringLe) && m.pods == MostPods(per.keys, per.at)
    && m.active == |set f | f in AllFindings(per) :: f.pod| && m.accepted == |m.edges|
  }

  /** Every edge of a report is a correlation. */
  ghost predicate CorrelationsOnly(report: CG.Report) {
    forall e :: e in report.edges ==> Abs(e.r) <= 1.0
  }

  ghost predicate Correlations(per: Dict<Served>) {
    per.Valid() && forall k :: k in per.keys ==> CorrelationsOnly(per.at[k].report)
  }

  lemma UnionIsBounded(per: Dict<Served>)
    requires Correlations(per)
    ensures Valid(Union(per)) && Bounded(Union(per))
  {
    var ts := Gather(per.keys, per.at, ReportEdges);
    var es := Items(ts);
    forall e | e in es
      ensures Abs(e.r) <= 1.0
    {
      var i :| 0 <= i < |es| && es[i] == e;
      GatherMember(per.keys, per.at, ReportEdges, ts[i]);
    }
    BoundedFromEdges(es);
    GraphOfIsValid(es);
  }

  method GatherAll(per: Dict<Served>) returns (edges: seq<Tagged<Edge>>, findings: seq<Tagged<CG.Finding>>)
    requires per.Valid()
    ensures edges == Gather(per.keys, per.at, ReportEdges) && findings == Gather(per.keys, per.at, ReportFindings)
  {
    edges, findings := [], [];
    for i := 0 to |per.keys|
      invariant edges == Gather(per.keys[..i], per.at, ReportEdges)
      invariant findings == Gather(per.keys[..i], per.at, ReportFindings)
    {
      var sig := per.keys[i];
      edges := edges + TagAll(sig, per.at[sig].report.edges);
      findings := findings + TagAll(sig, per.at[sig].report.findings);
      assert per.keys[..i + 1][..i] == per.keys[..i];
    }
    assert per.keys[..|per.keys|] == per.keys;
  }

  method SumStats(per: Dict<Served>) returns (stats: map<string, int>)
    requires per.Valid()
    ensures StatsOf(per.keys, per.at, stats)
  {
    stats := map[];
    hide StatOf;
    NoStats(per.at);
    for i := 0 to |per.keys|
      invariant StatsOf(per.keys[..i], per.at, stats)
    {
      var s := per.at[per.keys[i]].stats;
      stats := map x | x in STAT_KEYS && (x in s || x in stats) ::
        (if x in stats then stats[x] else 0) + if x in s then s[x] else 0;
      forall x
        ensures StatOf(per.keys[..i + 1], per.at, x) ==
                var earlier := StatOf(per.keys[..i], per.at, x);
                if x in s then Some(earlier.GetOr(0) + s[x]) else earlier
      {
        NextStat(per.keys, per.at, i, x);
      }
    }
    assert per.keys[..|per.keys|] == per.keys;
  }

  lemma NoStats(at: map<string, Served>)
    ensures StatsOf([], at, map[])
  {
  }

  lemma NextStat(keys: seq<string>, at: map<string, Served>, i: nat, stat: string)
    requires i < |keys| && forall k :: k in keys ==> k in at
    ensures StatOf(keys[..i + 1], at, stat) ==
            var earlier, s := StatOf(keys[..i], at, stat), at[keys[i]].stats;
            if stat in s then Some(earlier.GetOr(0) + s[stat]) else earlier
  {
    assert keys[..i + 1][..i] == keys[..i];
  }

  method JudgeUnion(per: Dict<Served>, edges: seq<Edge>, findings: seq<CG.Finding>)
    returns (ranking: seq<Ranking.Verdict>, blast: seq<BlastRadius.Hit>)
    requires per.Valid() && Correlations(per)
    requires edges == Items(Gather(per.keys, per.at, ReportEdges)) && findings == AllFindings(per)
    ensures Judged(per, ranking, blast)
  {
    hide Ranking.RankingOf, BlastRadius.IsBlast, Gather, Correlations;
    UnionIsBounded(per);
    FirstIsMember(Symptoms(per));
    ranking, blast := [], [];
    if edges != [] && findings != [] {
      var g := BuildGraph(edges);
      var seeds := OnGraph(findings, g);
      if seeds != [] {
        ranking := Ranking.RankRootCauses(g, seeds, CG.OnsetsOf(findings), Ranking.TOP);
        if ranking != [] {
          Ranking.EveryVerdictExplains(g, seeds, CG.OnsetsOf(findings), Ranking.TOP, ranking[0]);
          ghost var paths;
          blast, paths := BlastRadius.BlastRadius(g, ranking[0].pod);
        }
      }
    }
  }

  method MergeGraphs(per: Dict<Served>, primary: Option<string>) returns (m: Merged)
    requires per.Valid() && Correlations(per)
    ensures IsMerge(per, primary, m)
  {
    hide Judged, Gather, Sort, Correlations, StatsOf;
    var edges, findings := GatherAll(per);
    var fs := Items(findings);
    var ranking, blast := JudgeUnion(per, Items(edges), fs);
    var stats := SumStats(per);
    var owner := if ranking == [] then None else FirstFrom(edges, ranking[0].pod);
    SortIsPermutation(per.keys, StringLe);
    var shown := if owner.Some? then owner
                 else if primary.Some? then primary
                 else if per.keys == [] then None
                 else Some(Sort(per.keys, StringLe)[0]);
    var incident := if owner.Some? && owner.value in per.at then CaseOf(per.at[owner.value].incident) else map[];
    m := Merged(edges, findings, ranking, blast, owner, shown, incident, Sort(per.keys, StringLe), stats,
                MostPods(per.keys, per.at), |set f | f in fs :: f.pod|, |edges|);
  }

  // What every merge guarantees.

  /** Every edge served is an edge of the signal it is tagged with, and none is dropped. */
  lemma UnionIsExact(per: Dict<Served>, primary: Option<string>, m: Merged, t: Tagged<Edge>)
    requires per.Valid() && IsMerge(per, primary, m)
    ensures t in m.edges <==> t.signal in per.keys && t.item in per.at[t.signal].report.edges
    ensures |m.edges| == CountAll(per.keys, per.at, ReportEdges)
  {
    hide Judged, StatsOf;
    GatherMember(per.keys, per.at, ReportEdges, t);
    GatherConserves(per.keys, per.at, ReportEdges);
  }

  /** Held edges alone never convict: without a finding on the graph there is no root and no blast. */
  lemma NoSymptomNoRoot(per: Dict<Served>, primary: Option<string>, m: Merged)
    requires per.Valid() && IsMerge(per, primary, m)
    requires forall f :: f in AllFindings(per) ==> f.pod !in Union(per).adj
    ensures m.ranking == [] && m.blast == [] && m.owner == None
  {
    hide Union, AllFindings, StatsOf;
    FirstIsMember(Symptoms(per));
  }

  /** The symptoms that seed the union are the findings on it. */
  lemma SymptomsAreSeeds(per: Dict<Served>)
    requires per.Valid() && Symptoms(per) != []
    ensures Ranking.SeedSet(Union(per), Symptoms(per)) ==
            set f | f in AllFindings(per) && f.pod in Union(per).adj :: f.pod
  {
    hide Union, AllFindings;
    var g, seeds := Union(per), Symptoms(per);
    var onGraph := set s | s in seeds && s in g.adj;
    assert seeds[0] in onGraph;
    var symptoms := set f | f in AllFindings(per) && f.pod in g.adj :: f.pod;
    forall q
      ensures q in onGraph <==> q in symptoms
    {
    }
  }

  /** Every ranked pod explains a finding: it is a finding without a cause of its own, or its impact
      reaches a finding. */
  lemma EveryRootExplainsFinding(per: Dict<Served>, primary: Option<string>, m: Merged, v: Ranking.Verdict)
    requires per.Valid() && Correlations(per) && IsMerge(per, primary, m) && v in m.ranking
    ensures
      var g := Union(per);
      var findings := set f | f in AllFindings(per) && f.pod in g.adj :: f.pod;
      v.pod in g.adj && Ranking.Explains(g, findings, v.pod)
  {
    hide Union, AllFindings, Symptoms, StatsOf, Labelled, Gather, Correlations,
         Ranking.RankingOf, Ranking.Explains, Ranking.SeedSet, BlastRadius.IsBlast;
    UnionIsBounded(per);
    Ranking.EveryVerdictExplains(Union(per), Symptoms(per), CG.OnsetsOf(AllFindings(per)), Ranking.TOP, v);
    SymptomsAreSeeds(per);
  }

  /** Edge i is the first one out of the root. */
  ghost predicate IsFirstFrom(es: seq<Tagged<Edge>>, root: string, i: nat) {
    i < |es| && es[i].item.src == root && forall j :: 0 <= j < i ==> es[j].item.src != root
  }

  lemma {:induction false} FirstFromMeans(es: seq<Tagged<Edge>>, root: string) returns (i: nat)
    ensures FirstFrom(es, root).Some? <==> exists t :: t in es && t.item.src == root
    ensures FirstFrom(es, root).Some? ==> IsFirstFrom(es, root, i) && es[i].signal == FirstFrom(es, root).value
  {
    i := 0;
    if es == [] || es[0].item.src == root {
      assert es != [] ==> es[0] in es;
    } else {
      var k := FirstFromMeans(es[1..], root);
      i := k + 1;
      assert es == [es[0]] + es[1..];
      assert forall j :: 0 < j < |es| ==> es[j] == es[1..][j - 1];
    }
  }

  /** A root always has an owner: the signal of the first edge out of it, whose own graph has that edge. The graph is
      labelled by it and shows its case. */
  lemma RootHasOwner(per: Dict<Served>, primary: Option<string>, m: Merged) returns (i: nat)
    requires per.Valid() && Correlations(per) && IsMerge(per, primary, m) && m.ranking != []
    ensures IsFirstFrom(m.edges, m.ranking[0].pod, i) && m.owner == Some(m.edges[i].signal) && m.signal == m.owner
    ensures m.owner.value in per.keys && m.edges[i].item in per.at[m.owner.value].report.edges
    ensures forall k :: k in {"case_id", "case_family", "case_register", "case_sim"} ==>
              Lookup(m.incident, k) == Lookup(per.at[m.owner.value].incident, k)
    ensures forall k :: k in m.incident ==> k in {"case_id", "case_family", "case_register", "case_sim"}
  {
    hide Judged, AllFindings, StatsOf, Ranking.RankingOf, GraphOf, Gather, IsFirstFrom, FirstFrom, CaseOf;
    RootHasEdge(per, primary, m);
    i := FirstFromMeans(m.edges, m.ranking[0].pod);
    EdgeOfSignal(per, m, i, m.ranking[0].pod);
    CaseMeans(per.at[m.owner.value].incident);
  }

  lemma RootHasEdge(per: Dict<Served>, primary: Option<string>, m: Merged)
    requires per.Valid() && Correlations(per) && IsMerge(per, primary, m) && m.ranking != []
    ensures exists t :: t in m.edges && t.item.src == m.ranking[0].pod
  {
    hide AllFindings, StatsOf, Ranking.RankingOf, BlastRadius.IsBlast, GraphOf, Labelled;
    var es := Items(m.edges);
    UnionEdgesAreCorrelations(per);
    Ranking.RankedPodHasEdge(es, Symptoms(per), CG.OnsetsOf(AllFindings(per)), Ranking.TOP, m.ranking[0]);
    var e :| e in es && e.src == m.ranking[0].pod;
    var k :| 0 <= k < |es| && es[k] == e;
    assert m.edges[k] in m.edges && m.edges[k].item.src == m.ranking[0].pod;
  }

  lemma EdgeOfSignal(per: Dict<Served>, m: Merged, i: nat, root: string)
    requires per.Valid() && m.edges == Gather(per.keys, per.at, ReportEdges) && IsFirstFrom(m.edges, root, i)
    ensures i < |m.edges| && m.edges[i].signal in per.keys && m.edges[i].signal in per.at
    ensures m.edges[i].item in per.at[m.edges[i].signal].report.edges
  {
    assert m.edges[i] in m.edges;
    GatherMember(per.keys, per.at, ReportEdges, m.edges[i]);
  }

  lemma CaseMeans(info: map<string, string>)
    ensures forall k :: k in {"case_id", "case_family", "case_register", "case_sim"} ==>
              Lookup(CaseOf(info), k) == Lookup(info, k)
    ensures forall k :: k in CaseOf(info) ==> k in {"case_id", "case_family", "case_register", "case_sim"}
  {
  }

  /** Without a root the label is the primary signal, or without one the first signal by name; no case is shown. */
  lemma IdleIsLabelled(per: Dict<Served>, primary: Option<string>, m: Merged)
    requires per.Valid() && IsMerge(per, primary, m) && m.ranking == []
    ensures m.owner == None && m.incident == map[]
    ensures primary.Some? ==> m.signal == primary
    ensures primary.None? && per.keys == [] ==> m.signal == None
    ensures primary.None? && per.keys != [] ==>
              m.signal.Some? && m.signal.value in per.keys && forall k :: k in per.keys ==> StringLe(m.signal.value, k)
  {
    hide Gather, StatsOf, Union, AllFindings, Symptoms, StringLe;
    if primary.None? && per.keys != [] {
      var names := Sort(per.keys, StringLe);
      SortIsPermutation(per.keys, StringLe);
      SortHasSameElements(per.keys, StringLe);
      StringOrderIsTotal();
      SortSorts(per.keys, StringLe);
      assert names[0] in names;
      forall k | k in per.keys
        ensures StringLe(names[0], k)
      {
        LeastIsFirst(names, k);
      }
    }
  }

  lemma LeastIsFirst(names: seq<string>, k: string)
    requires SortedBy(names, StringLe) && k in names
    ensures StringLe(names[0], k)
  {
    hide StringLe;
    var i :| 0 <= i < |names| && names[i] == k;
    StringOrderIsTotal();
  }

  // Statistics.

  function StatIn(at: map<string, Served>, stat: string): string -> int {
    k => if k in at && stat in at[k].stats then at[k].stats[stat] else 0
  }

  function Total(keys: seq<string>, f: string -> int): int {
    if keys == [] then 0 else f(keys[0]) + Total(keys[1..], f)
  }

  lemma {:induction false} TotalSnoc(keys: seq<string>, k: string, f: string -> int)
    ensures Total(keys + [k], f) == Total(keys, f) + f(k)
  {
    if keys == [] {
      assert [] + [k] == [k];
    } else {
      TotalSnoc(keys[1..], k, f);
      assert (keys + [k])[1..] == keys[1..] + [k];
    }
  }

  lemma {:induction false} StatIsTotal(keys: seq<string>, at: map<string, Served>, stat: string)
    requires forall k :: k in keys ==> k in at
    ensures StatOf(keys, at, stat).Some? <==> exists k :: k in keys && stat in at[k].stats
    ensures StatOf(keys, at, stat).GetOr(0) == Total(keys, StatIn(at, stat))
  {
    if keys == [] {
    } else {
      var front, last := keys[..|keys| - 1], keys[|keys| - 1];
      assert keys == front + [last];
      StatIsTotal(front, at, stat);
      TotalSnoc(front, last, StatIn(at, stat));
    }
  }

  /** Each of the six statistics is the sum over the signals that report it, and there exactly if one does. */
  lemma StatsAddUp(per: Dict<Served>, primary: Option<string>, m: Merged, stat: string)
    requires per.Valid() && IsMerge(per, primary, m)
    ensures stat in m.stats <==>
            && stat in {"edge_memory", "visible_memory_edges", "cases", "families", "open_mistakes", "held_edges"}
            && exists k :: k in per.keys && stat in per.at[k].stats
    ensures stat in m.stats ==> m.stats[stat] == Total(per.keys, StatIn(per.at, stat))
  {
    hide Judged, Labelled, Gather, Sort, MostPods, StatOf, AllFindings;
    StatIsTotal(per.keys, per.at, stat);
  }

  /** The counts: the most pods any signal reports, the pods with a finding, and all edges. */
  lemma CountsMean(per: Dict<Served>, primary: Option<string>, m: Merged)
    requires per.Valid() && IsMerge(per, primary, m)
    ensures forall k :: k in per.keys ==> per.at[k].pods <= m.pods
    ensures if per.keys == [] then m.pods == 0 else exists k :: k in per.keys && per.at[k].pods == m.pods
    ensures m.active == |set f | f in Items(m.findings) :: f.pod| && m.accepted == |m.edges|
    ensures SortedBy(m.signals, StringLe) && multiset(m.signals) == multiset(per.keys)
  {
    hide Judged, Labelled, Gather, Sort, StatsOf, StringLe;
    SortIsPermutation(per.keys, StringLe);
    StringOrderIsTotal();
    SortSorts(per.keys, StringLe);
  }

  /** The verdict of the union lists the first three, by what they explain of the findings on it and then by onset, of
      all pods that explain any. */
  lemma VerdictOfUnion(per: Dict<Served>, primary: Option<string>, m: Merged) returns (order: seq<string>)
    requires per.Valid() && Correlations(per) && IsMerge(per, primary, m)
    requires exists f :: f in AllFindings(per) && f.pod in Union(per).adj
    ensures var g := Union(per);
            var findings := set f | f in AllFindings(per) && f.pod in g.adj :: f.pod;
            if !Ranking.HasEdges(g) then m.ranking == []
            else
              && Ranking.IsOrder(g, findings, CG.OnsetsOf(AllFindings(per)), order)
              && Ranking.ListsFirst(g, findings, CG.OnsetsOf(AllFindings(per)), 3, order, m.ranking)
  {
    hide Union, AllFindings, StatsOf, Labelled, Gather, Correlations, Ranking.IsOrder, Ranking.ListsFirst,
         Ranking.HasEdges, Ranking.SeedSet, BlastRadius.IsBlast, Ranking.RankingOf;
    UnionIsBounded(per);
    SymptomsAreSeeds(per);
    order := Ranking.RankingIsTheTop(Union(per), Symptoms(per), CG.OnsetsOf(AllFindings(per)), Ranking.TOP);
  }

  lemma UnionEdgesAreCorrelations(per: Dict<Served>)
    requires Correlations(per)
    ensures forall e :: e in Items(Gather(per.keys, per.at, ReportEdges)) ==> Abs(e.r) <= 1.0
  {
    var ts := Gather(per.keys, per.at, ReportEdges);
    var es := Items(ts);
    forall e | e in es
      ensures Abs(e.r) <= 1.0
    {
      var i :| 0 <= i < |es| && es[i] == e;
      GatherMember(per.keys, per.at, ReportEdges, ts[i]);
    }
  }
}
