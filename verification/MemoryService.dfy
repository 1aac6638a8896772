/** GraphMemory as the service runs it: an object whose tables every observe updates row by row. */
module MemoryService {
  import opened Common
  import opened Config
  import opened Digraph
  import opened EdgeTable
  import opened GraphMemory
  import B = Baselines
  import BlastRadius
  import CG = CausalGraph
  import CL = CaseLibrary
  import EM = EdgeMemory
  import Ordering
  import Promotion
  import Ranking
  import Statistics
  import Workload

  class Memory {
    const config: MemoryConfig
    var edges: EdgeTable.Table
    var cases: seq<CL.CaseRow>
    var observations: seq<CL.Observation>
    var baselines: B.Table

    constructor (c: MemoryConfig)
      ensures config == c && State() == EMPTY_TABLES
    {
      config := c;
      edges, cases, observations, baselines := map[], [], [], map[];
    }

    ghost function State(): Tables
      reads this
    {
      Tables(edges, CL.Library(cases, observations), baselines)
    }

    /** Gives every witnessed shared-disk pair of running workloads at least the prior floor. */
    method SeedStructural(shared: set<set<string>>, present: set<string>, ts: real)
      modifies this`edges
      ensures edges == Seeded(config, old(edges), SeedKeys(shared, present), ts)
    {
      hide Seeded, SeedKeys, StandsFor, Image, Ordering.StringLe;
      SeedNothing(config, edges, ts);
      ghost var before := edges;
      ghost var done: set<set<string>> := {};
      var todo := shared;
      SeedKeysOfNone(present);
      while todo != {}
        invariant done + todo == shared
        invariant edges == Seeded(config, before, SeedKeys(done, present), ts)
        decreases |todo|
      {
        var pair :| pair in todo;
        var names := Image(pair);
        SeedKeysNext(done, pair, present);
        if |names| == 2 {
          var a :| a in names;
          assert |names - {a}| + 1 == |names|;
          var b :| b in names - {a};
          var u, v := a, b;
          if !Ordering.StringLe(a, b) {
            u, v := b, a;
          }
          PairInOrder(pair, a, b);
          SeedKeysOfPair(pair, present, u, v);
          if u in present && v in present {
            var key := (u, v);
            SeedOneMore(config, before, SeedKeys(done, present), key, ts);
            if key !in edges {
              edges := edges[key := EM.Seed(config, None, ts)];
            } else if edges[key].base < config.prior {
              edges := edges[key := edges[key].(base := config.prior)];
            }
          } else {
            assert SeedKeys(done + {pair}, present) == SeedKeys(done, present);
          }
        } else {
          SeedKeysOfOddPair(pair, present);
          assert SeedKeys(done + {pair}, present) == SeedKeys(done, present);
        }
        done, todo := done + {pair}, todo - {pair};
      }
      assert done == shared;
    }

    /** Folds one live edge into the row of its workload pair. */
    method ConfirmEdge(e: Edge, ts: real)
      modifies this`edges
      ensures var w := CG.WorkloadEdge(e);
              edges == old(edges)[KeyOf(w) := EM.Confirm(config, Lookup(old(edges), KeyOf(w)), w, ts)]
    {
      var key := (Workload.StableWorkload(e.src), Workload.StableWorkload(e.dst));
      var conf, prevBase, hits, firstSeen, wasVisible := config.alpha, 0.0, 1, ts, false;
      if key in edges {
        var row := edges[key];
        prevBase := row.base;
        conf := Rise(config.alpha, row.confidence);
        hits := row.hits + 1;
        firstSeen := row.firstSeen;
        wasVisible := row.visible;
      }
      var visible := wasVisible || conf >= config.show;
      var phase := if visible then EM.Active else EM.Confirming;
      edges := edges[key := EM.Row(conf, e.r, e.lag, e.evidence, hits, visible, phase, firstSeen, ts, ts,
                                   Max(prevBase, Fall(config.floorFrac, conf)))];
    }

    method ConfirmEdges(live: seq<Edge>, ts: real)
      modifies this`edges
      ensures edges == ConfirmedTable(config, old(edges), CG.WorkloadEdges(live), ts)
    {
      hide EM.Confirm;
      ghost var es := CG.WorkloadEdges(live);
      for i := 0 to |live|
        invariant edges == ConfirmedTable(config, old(edges), es[..i], ts)
      {
        ConfirmEdge(live[i], ts);
        assert es[..i + 1][..i] == es[..i];
      }
      assert es[..|es|] == es;
    }

    /** Lets every row decay whose pair was not seen although both workloads run. */
    method DecayAbsentEdges(seen: set<Key>, present: set<string>, ts: real)
      modifies this`edges
      ensures edges == Decayed(config, old(edges), seen, present, ts)
    {
      var todo := edges.Keys;
      while todo != {}
        invariant todo <= edges.Keys == old(edges).Keys
        invariant forall k :: k in edges ==>
                    edges[k] == if k in todo then old(edges)[k] else Decayed(config, old(edges), seen, present, ts)[k]
        decreases |todo|
      {
        var k :| k in todo;
        if k !in seen && k.0 in present && k.1 in present {
          var row := edges[k];
          var conf := Max(row.base, Fall(1.0 - config.decay, row.confidence));
          var visible := row.visible && conf >= config.hide_;
          var atFloor := conf <= row.base + EM.EPS && row.base > 0.0;
          edges := edges[k := row.(confidence := conf, visible := visible, updated := ts,
                                   phase := if atFloor then EM.Steady else if visible then EM.Decaying else EM.Hidden)];
        }
        todo := todo - {k};
      }
    }

    /** Folds the incident of a source-rooted report into the case library. */
    method PromoteCase(report: CG.Report) returns (verdict: Option<CL.Outcome>)
      modifies this`cases, this`observations
      ensures CL.Library(cases, observations) == LibraryAfter(config, old(CL.Library(cases, observations)), report)
      ensures verdict.Some? <==> Promotion.IncidentOf(config, report).Some?
      ensures verdict.Some? ==> verdict.value.library == CL.Library(cases, observations)
                                && CL.HasId(cases, verdict.value.caseId)
    {
      hide Promotion.IncidentOf, CL.CaseSim, CL.FoldLead;
      var incident := Promotion.IncidentOf(config, report);
      if incident.None? {
        return None;
      }
      var inc := incident.value;
      var best: CL.Nearest := CL.Nowhere;
      for i := 0 to |cases|
        invariant best == CL.NearestCase(inc.key, cases[..i])
        invariant best.At? ==> best.index < i
      {
        var s := CL.CaseSim(inc.key, cases[i].id);
        if s > CL.BestSim(best) {
          best := CL.At(i, s);
        }
        assert cases[..i + 1][..i] == cases[..i];
      }
      assert cases[..|cases|] == cases;
      CL.NearestIsNearest(inc.key, cases);
      var out := CL.Promote(config, CL.Library(cases, observations), inc);
      PromotedIsFiled(config, CL.Library(cases, observations), inc);
      if best.At? && best.sim >= config.tauMerge {
        var row := cases[best.index];
        cases := cases[best.index := row.(occurrences := row.occurrences + 1,
                                          lead := CL.FoldLead(row.lead, row.occurrences, inc.lead))];
        observations := observations + [CL.Observation(row.id, inc.lead)];
      } else {
        var family := inc.key;
        if best.At? && best.sim >= config.tauFamily {
          family := cases[best.index].family;
        }
        if !CL.HasId(cases, inc.key) {
          cases := cases + [CL.CaseRow(inc.key, 1, inc.lead, family)];
        }
        observations := observations + [CL.Observation(inc.key, inc.lead)];
      }
      verdict := Some(out);
    }

    /** Learns every pod's vector into the baseline of its workload. */
    method UpdateBaselines(vectors: Dict<seq<real>>)
      requires vectors.Valid()
      modifies this`baselines
      ensures baselines == B.LearnAll(config, old(baselines), vectors.keys, vectors.at)
    {
      hide Statistics.P90, Statistics.Median, Statistics.Mad, B.Limit, B.Blend, Workload.StableWorkload, B.Learn;
      for i := 0 to |vectors.keys|
        invariant baselines == B.LearnAll(config, old(baselines), vectors.keys[..i], vectors.at)
      {
        var pod := vectors.keys[i];
        var w := Workload.StableWorkload(pod);
        var vec := vectors.at[pod];
        assert vectors.keys[..i + 1][..i] == vectors.keys[..i];
        LearnMeans(config, Lookup(baselines, w), vec);
        if |vec| >= 12 {
          var med, mad := Statistics.Median(vec), Statistics.Mad(vec);
          if w !in baselines {
            baselines := baselines[w := B.Baseline(med, mad, 1)];
          } else {
            var b := baselines[w];
            if b.n < config.baseMinN || Statistics.P90(vec) <= B.Limit(config, b) {
              baselines := baselines[w := B.Baseline(B.Blend(config.baseAlpha, b.median, med),
                                                     B.Blend(config.baseAlpha, b.mad, mad), b.n + 1)];
            }
          }
        }
      }
      assert vectors.keys[..|vectors.keys|] == vectors.keys;
    }

    /** The strongest row of every pair that is not live, in some order of the table. */
    method StrongestRows(live: set<set<string>>) returns (byPair: map<set<string>, Key>)
      ensures forall p :: p in byPair ==>
                byPair[p] in edges && PairOf(byPair[p]) == p && Strongest(edges, live, byPair[p])
      ensures forall k :: k in edges && Eligible(edges[k]) && PairOf(k) !in live ==> PairOf(k) in byPair
    {
      byPair := map[];
      var todo := edges.Keys;
      while todo != {}
        invariant todo <= edges.Keys
        invariant forall p :: p in byPair ==>
                    byPair[p] in edges && PairOf(byPair[p]) == p && Eligible(edges[byPair[p]]) && p !in live
        invariant forall k :: k in edges && k !in todo && Eligible(edges[k]) && PairOf(k) !in live ==>
                    PairOf(k) in byPair && edges[k].confidence <= edges[byPair[PairOf(k)]].confidence
        decreases |todo|
      {
        var k :| k in todo;
        var pair := {k.0, k.1};
        if Eligible(edges[k]) && pair !in live {
          if pair !in byPair || edges[k].confidence > edges[byPair[pair]].confidence {
            byPair := byPair[pair := k];
          }
        }
        todo := todo - {k};
      }
    }

    /** Renders the chosen rows against the running pods; a pair with a workload gone is skipped. */
    method HoldEdges(live: set<set<string>>, podFor: map<string, string>)
      returns (held: seq<HeldEdge>)
      ensures AreHeld(edges, live, podFor, held)
    {
      hide Strongest, Eligible, HeldEdgeOf, PairOf;
      held := [];
      ghost var keys: seq<Key> := [];
      var byPair := StrongestRows(live);
      var todo := byPair.Keys;
      while todo != {}
        invariant todo <= byPair.Keys
        invariant |keys| == |held|
        invariant forall i :: 0 <= i < |keys| ==>
                    keys[i] in edges && PairOf(keys[i]) in byPair && byPair[PairOf(keys[i])] == keys[i]
                    && PairOf(keys[i]) !in todo
                    && keys[i].0 in podFor && keys[i].1 in podFor && held[i] == HeldEdgeOf(edges, podFor, keys[i])
        invariant forall i, j :: 0 <= i < j < |keys| ==> PairOf(keys[i]) != PairOf(keys[j])
        invariant forall p :: p in byPair && p !in todo && byPair[p].0 in podFor && byPair[p].1 in podFor ==>
                    exists i :: 0 <= i < |keys| && PairOf(keys[i]) == p
        decreases |todo|
      {
        var pair :| pair in todo;
        var k := byPair[pair];
        if k.0 in podFor && k.1 in podFor {
          held := held + [HeldEdgeOf(edges, podFor, k)];
          ghost var earlier := keys;
          keys := keys + [k];
          assert forall i :: 0 <= i < |earlier| ==> PairOf(keys[i]) == PairOf(earlier[i]);
          assert PairOf(keys[|keys| - 1]) == pair;
        }
        todo := todo - {pair};
      }
      EveryPairIsHeld(edges, live, podFor, byPair, keys);
      assert HeldOk(edges, live, podFor, held, keys);
    }

    /** The graph as it is served: live edges, held backbone, and the verdict over both. */
    method Render(report: CG.Report, pods: seq<string>) returns (out: Rendering)
      requires forall e :: e in report.edges ==> Abs(e.r) <= 1.0
      requires WeightsOk(edges)
      ensures IsRendering(edges, report, pods, out)
    {
      var live := LivePairs(CG.WorkloadEdges(report.edges));
      var held := HoldEdges(live, PodFor(pods));
      var all := report.edges + HeldEdges(held);
      WeightsOfRendered(edges, live, PodFor(pods), report.edges, held);
      var ranking, blast := report.ranking, report.blast;
      if report.findings != [] && all != [] {
        BoundedFromEdges(all);
        var g := BuildGraph(all);
        ranking := Ranking.RankRootCauses(g, CG.PodsOf(report.findings), CG.OnsetsOf(report.findings), Ranking.TOP);
        blast := [];
        if ranking != [] {
          Ranking.EveryVerdictExplains(g, CG.PodsOf(report.findings), CG.OnsetsOf(report.findings), Ranking.TOP,
                                       ranking[0]);
          ghost var paths;
          blast, paths := BlastRadius.BlastRadius(g, ranking[0].pod);
        }
      }
      out := Rendering(LiveEdges(edges, report.edges), held, CG.Report(report.findings, all, ranking, blast));
    }

    /** The graph served before the first pass. */
    method BootstrapGraph() returns (out: Rendering)
      requires WeightsOk(edges)
      ensures out == Rendering([], [], NOTHING)
    {
      out := Render(NOTHING, []);
      BootstrapShowsNothing(edges, out);
    }

    /** One pass: baselines, seeds, confirmations, decay, promotion; then the rendered graph. */
    method Observe(p: Pass) returns (out: Rendering, verdict: Option<CL.Outcome>)
      requires PassValid(p) && WeightsOk(edges)
      modifies this
      ensures State() == Observed(config, old(State()), p)
      ensures WeightsOk(edges)
      ensures IsRendering(edges, p.report, p.vectors.keys, out)
      ensures verdict.Some? <==> Promotion.IncidentOf(config, p.report).Some?
    {
      hide IsRendering, Seeded, ConfirmedTable, Decayed, B.LearnAll, SeedKeys, Promotion.IncidentOf,
           CL.Promote, CL.NearestOk, Present, EdgeConfig;
      UpdateBaselines(p.vectors);
      var present := Present(p.vectors.keys);
      var es := CG.WorkloadEdges(p.report.edges);
      var seen := KeysOf(es);
      ghost var before := edges;
      ghost var w := InWorkloads(p);
      SeedNothing(config, edges, p.ts);
      if p.shared.Some? {
        SeedStructural(p.shared.value, present, p.ts);
      }
      ghost var seeded := Seeded(config, before, w.seeds, p.ts);
      assert edges == seeded;
      ConfirmEdges(p.report.edges, p.ts);
      DecayAbsentEdges(seen, present, p.ts);
      PassValidInWorkloads(p);
      PassKeepsWeights(config, before, w);
      verdict := PromoteCase(p.report);
      out := Render(p.report, p.vectors.keys);
    }
  }

  lemma LearnMeans(c: MemoryConfig, row: Option<B.Baseline>, vec: seq<real>)
    ensures |vec| < 12 ==> B.Learn(c, row, vec) == row
    ensures |vec| >= 12 ==>
              var med, mad := Statistics.Median(vec), Statistics.Mad(vec);
              B.Learn(c, row, vec) ==
              match row
              case None => Some(B.Baseline(med, mad, 1))
              case Some(b) =>
                if b.n < c.baseMinN || Statistics.P90(vec) <= B.Limit(c, b)
                then Some(B.Baseline(B.Blend(c.baseAlpha, b.median, med), B.Blend(c.baseAlpha, b.mad, mad), b.n + 1))
                else row
  {
    hide Statistics.P90, Statistics.Median, Statistics.Mad, B.Limit, B.Blend;
  }

  lemma SeedNothing(c: MemoryConfig, t: EdgeTable.Table, ts: real)
    ensures Seeded(c, t, {}, ts) == t
  {
  }

  /** Seeding one key more is one insert, one update, or nothing. */
  lemma SeedOneMore(c: MemoryConfig, t: EdgeTable.Table, keys: set<Key>, k: Key, ts: real)
    ensures var now := Seeded(c, t, keys, ts);
            Seeded(c, t, keys + {k}, ts) ==
            if k !in now then now[k := EM.Seed(c, None, ts)]
            else if now[k].base < c.prior then now[k := now[k].(base := c.prior)]
            else now
  {
    SeedIsIdempotent(c, t, keys, k, ts);
  }

  /** The two workloads of a pair, put in name order. */
  lemma PairInOrder(pair: set<string>, a: string, b: string)
    requires |Image(pair)| == 2 && a in Image(pair) && b in Image(pair) && a != b
    ensures if Ordering.StringLe(a, b) then StandsFor(pair, a, b) else StandsFor(pair, b, a)
  {
    hide Image;
    var names := Image(pair);
    var rest := names - {a, b};
    assert names == {a, b} + rest;
    assert |{a, b}| == 2;
    Ordering.StringLeTotal(a, b);
  }

  lemma PromotedIsFiled(c: MemoryConfig, lib: CL.Library, inc: CL.Incident)
    requires CL.NearestOk(inc.key, lib.cases)
    ensures CL.HasId(CL.Promote(c, lib, inc).library.cases, CL.Promote(c, lib, inc).caseId)
  {
    var out := CL.Promote(c, lib, inc);
    CL.NearestIsNearest(inc.key, lib.cases);
    if out.register.Recurrence? {
      assert out.library.cases[CL.NearestCase(inc.key, lib.cases).index].id == out.caseId;
    } else if !CL.HasId(lib.cases, inc.key) {
      assert out.library.cases[|lib.cases|].id == out.caseId;
    }
  }

  lemma EveryPairIsHeld(t: EdgeTable.Table, live: set<set<string>>, podFor: map<string, string>,
                        byPair: map<set<string>, Key>, keys: seq<Key>)
    requires forall p :: p in byPair ==> PairOf(byPair[p]) == p
    requires forall k :: k in t && Eligible(t[k]) && PairOf(k) !in live ==> PairOf(k) in byPair
    requires forall p :: p in byPair && byPair[p].0 in podFor && byPair[p].1 in podFor ==>
               exists i :: 0 <= i < |keys| && PairOf(keys[i]) == p
    ensures forall k :: k in t && Eligible(t[k]) && PairOf(k) !in live && k.0 in podFor && k.1 in podFor ==>
              exists i :: 0 <= i < |keys| && PairOf(keys[i]) == PairOf(k)
  {
    forall k | k in t && Eligible(t[k]) && PairOf(k) !in live && k.0 in podFor && k.1 in podFor
      ensures exists i :: 0 <= i < |keys| && PairOf(keys[i]) == PairOf(k)
    {
      var j := byPair[PairOf(k)];
      assert j.0 in PairOf(j) && j.1 in PairOf(j);
      assert PairOf(j) == PairOf(k);
    }
  }
}
