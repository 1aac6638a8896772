/** The edge table of one signal, keyed by workload pair: one pass over the whole table does to each
    row exactly what EdgeMemory.Step says. */
module EdgeTable {
  import opened Common
  import opened Config
  import opened Digraph
  import opened EdgeMemory
  import opened Ordering
  import Workload

  type Key = (string, string)

  type Table = map<Key, Row>

  function KeyOf(e: Edge): Key {
    (e.src, e.dst)
  }

  /** What a pass brings, pods already replaced by workloads. */
  datatype WorkloadPass = WorkloadPass(seeds: set<Key>, edges: seq<Edge>, present: set<string>, ts: real)

  // Seeding.

  function Image(pods: set<string>): set<string> {
    set p | p in pods :: Workload.StableWorkload(p)
  }

  /** The pair of pods stands for the two distinct workloads u and v, in name order. */
  predicate StandsFor(pair: set<string>, u: string, v: string) {
    u != v && StringLe(u, v) && Image(pair) == {u, v}
  }

  /** The row keys of the witnessed pairs whose two workloads run. */
  function SeedKeys(shared: set<set<string>>, present: set<string>): set<Key> {
    set pair, u, v | pair in shared && u in present && v in present && StandsFor(pair, u, v) :: (u, v)
  }

  function Seeded(c: MemoryConfig, t: Table, keys: set<Key>, ts: real): Table {
    map k | k in t.Keys + keys :: if k in keys then Seed(c, Lookup(t, k), ts) else t[k]
  }

  /** A second witness for the same pair changes nothing more. */
  lemma SeedIsIdempotent(c: MemoryConfig, t: Table, keys: set<Key>, k: Key, ts: real)
    ensures Seeded(c, Seeded(c, t, keys, ts), {k}, ts) == Seeded(c, t, keys + {k}, ts)
  {
  }

  lemma SeedKeysOfNone(present: set<string>)
    ensures SeedKeys({}, present) == {}
  {
  }

  lemma SeedKeysNext(shared: set<set<string>>, pair: set<string>, present: set<string>)
    ensures SeedKeys(shared + {pair}, present) == SeedKeys(shared, present) + SeedKeys({pair}, present)
  {
    forall k | k in SeedKeys(shared + {pair}, present)
      ensures k in SeedKeys(shared, present) + SeedKeys({pair}, present)
    {
      var p :| p in shared + {pair} && StandsFor(p, k.0, k.1);
      assert p in shared || p in {pair};
    }
    forall k | k in SeedKeys(shared, present) + SeedKeys({pair}, present)
      ensures k in SeedKeys(shared + {pair}, present)
    {
      if k in SeedKeys(shared, present) {
        var p :| p in shared && StandsFor(p, k.0, k.1);
        assert p in shared + {pair};
      } else {
        var p :| p in {pair} && StandsFor(p, k.0, k.1);
        assert p in shared + {pair};
      }
    }
  }

  lemma SeedKeysOfPair(pair: set<string>, present: set<string>, u: string, v: string)
    requires StandsFor(pair, u, v)
    ensures SeedKeys({pair}, present) == if u in present && v in present then {(u, v)} else {}
  {
    forall k | k in SeedKeys({pair}, present)
      ensures k == (u, v) && u in present && v in present
    {
      assert StandsFor(pair, k.0, k.1);
      SameOrderedPair(u, v, k.0, k.1);
    }
    if u in present && v in present {
      assert pair in {pair};
      assert (u, v) in SeedKeys({pair}, present);
    }
  }

  lemma SameOrderedPair(u: string, v: string, a: string, b: string)
    requires u != v && StringLe(u, v) && a != b && StringLe(a, b) && {u, v} == {a, b}
    ensures u == a && v == b
  {
    assert a in {u, v} && b in {u, v} && u in {a, b};
    if a != u {
      StringLeAntisymmetric(u, v);
    }
  }

  lemma PairImageHasTwo(pair: set<string>, u: string, v: string)
    ensures StandsFor(pair, u, v) ==> |Image(pair)| == 2
  {
  }

  lemma SeedKeysOfOddPair(pair: set<string>, present: set<string>)
    requires |Image(pair)| != 2
    ensures SeedKeys({pair}, present) == {}
  {
    forall k
      ensures k !in SeedKeys({pair}, present)
    {
      PairImageHasTwo(pair, k.0, k.1);
    }
  }

  // Confirming and decaying.

  function ConfirmedTable(c: MemoryConfig, t: Table, es: seq<Edge>, ts: real): Table {
    if es == [] then t
    else
      var before, e := ConfirmedTable(c, t, es[..|es| - 1], ts), es[|es| - 1];
      before[KeyOf(e) := Confirm(c, Lookup(before, KeyOf(e)), e, ts)]
  }

  /** The confirmations one row receives, in order. */
  function ConfirmsOf(es: seq<Edge>, k: Key): seq<Edge> {
    if es == [] then []
    else ConfirmsOf(es[..|es| - 1], k) + if KeyOf(es[|es| - 1]) == k then [es[|es| - 1]] else []
  }

  function KeysOf(es: seq<Edge>): set<Key> {
    set e | e in es :: KeyOf(e)
  }

  predicate Decays(k: Key, seen: set<Key>, present: set<string>) {
    k !in seen && k.0 in present && k.1 in present
  }

  function Decayed(c: MemoryConfig, t: Table, seen: set<Key>, present: set<string>, ts: real): Table {
    map k | k in t :: if Decays(k, seen, present) then Decay(c, t[k], ts) else t[k]
  }

  function After(c: MemoryConfig, t: Table, p: WorkloadPass): Table {
    Decayed(c, ConfirmedTable(c, Seeded(c, t, p.seeds, p.ts), p.edges, p.ts), KeysOf(p.edges), p.present, p.ts)
  }

  /** What a pass means for one row. */
  function TouchOf(p: WorkloadPass, k: Key): Touch {
    Touch(k in p.seeds, ConfirmsOf(p.edges, k), k.0 in p.present && k.1 in p.present, p.ts)
  }

  lemma {:induction false} ConfirmedRow(c: MemoryConfig, t: Table, es: seq<Edge>, ts: real, k: Key)
    ensures Lookup(ConfirmedTable(c, t, es, ts), k) == ConfirmAll(c, Lookup(t, k), ConfirmsOf(es, k), ts)
    ensures ConfirmsOf(es, k) == [] <==> k !in KeysOf(es)
  {
    hide Confirm;
    if es == [] {
    } else {
      var front, e := es[..|es| - 1], es[|es| - 1];
      ConfirmedRow(c, t, front, ts, k);
      assert es == front + [e];
      if KeyOf(e) == k {
        var cs := ConfirmsOf(front, k);
        assert ConfirmsOf(es, k) == cs + [e] && (cs + [e])[..|cs|] == cs;
        assert ConfirmAll(c, Lookup(t, k), cs + [e], ts) ==
               Some(Confirm(c, ConfirmAll(c, Lookup(t, k), cs, ts), e, ts));
        assert e in es;
      } else {
        assert ConfirmsOf(es, k) == ConfirmsOf(front, k);
      }
    }
  }

  /** The table pass is the row step, for every key at once. */
  lemma PassIsStepOnEveryRow(c: MemoryConfig, t: Table, p: WorkloadPass, k: Key)
    ensures Lookup(After(c, t, p), k) == Step(c, Lookup(t, k), TouchOf(p, k))
  {
    hide Confirm, Decay, Seed;
    ConfirmedRow(c, Seeded(c, t, p.seeds, p.ts), p.edges, p.ts, k);
  }

  // The table over whole runs.

  /** Every stored edge is a correlation. */
  ghost predicate WeightsOk(t: Table) {
    forall k :: k in t ==> Abs(t[k].r) <= 1.0
  }

  ghost predicate TableOk(c: MemoryConfig, t: Table) {
    WeightsOk(t) && forall k :: k in t ==> RowOk(c, t[k])
  }

  /** Seeds are present pairs and edges are correlations. */
  ghost predicate PassOk(p: WorkloadPass) {
    && (forall k :: k in p.seeds ==> k.0 in p.present && k.1 in p.present)
    && (forall e :: e in p.edges ==> Abs(e.r) <= 1.0)
  }

  lemma {:induction false} ConfirmedWeights(c: MemoryConfig, row: Option<Row>, es: seq<Edge>, ts: real)
    requires row.Some? ==> Abs(row.value.r) <= 1.0
    requires forall e :: e in es ==> Abs(e.r) <= 1.0
    ensures var out := ConfirmAll(c, row, es, ts); out.Some? ==> Abs(out.value.r) <= 1.0
  {
    if es == [] {
    } else {
      ConfirmedWeights(c, row, es[..|es| - 1], ts);
      assert es == es[..|es| - 1] + [es[|es| - 1]];
    }
  }

  lemma {:induction false} ConfirmsAreEdges(es: seq<Edge>, k: Key)
    ensures forall e :: e in ConfirmsOf(es, k) ==> e in es
  {
    if es == [] {
    } else {
      ConfirmsAreEdges(es[..|es| - 1], k);
      assert es == es[..|es| - 1] + [es[|es| - 1]];
    }
  }

  /** A pass keeps every row well-formed, drops none, lowers no floor and hides no floored edge. */
  lemma PassKeepsTable(c: MemoryConfig, t: Table, p: WorkloadPass)
    requires EdgeConfig(c) && TableOk(c, t) && PassOk(p)
    ensures TableOk(c, After(c, t, p))
    ensures forall k :: k in t ==>
              k in After(c, t, p) && After(c, t, p)[k].base >= t[k].base
              && (t[k].visible && t[k].base >= c.hide_ ==> After(c, t, p)[k].visible)
  {
    hide Step, After, RowOk;
    forall k
      ensures k in After(c, t, p) ==> RowOk(c, After(c, t, p)[k]) && Abs(After(c, t, p)[k].r) <= 1.0
      ensures k in t ==>
                k in After(c, t, p) && After(c, t, p)[k].base >= t[k].base
                && (t[k].visible && t[k].base >= c.hide_ ==> After(c, t, p)[k].visible)
    {
      PassIsStepOnEveryRow(c, t, p, k);
      StepKeeps(c, Lookup(t, k), TouchOf(p, k));
      ConfirmsAreEdges(p.edges, k);
      StepWeight(c, Lookup(t, k), TouchOf(p, k));
    }
  }

  lemma StepWeight(c: MemoryConfig, row: Option<Row>, t: Touch)
    requires row.Some? ==> Abs(row.value.r) <= 1.0
    requires forall e :: e in t.confirms ==> Abs(e.r) <= 1.0
    ensures Step(c, row, t).Some? ==> Abs(Step(c, row, t).value.r) <= 1.0
  {
    hide Confirm;
    ConfirmedWeights(c, if t.seeded then Some(Seed(c, row, t.ts)) else row, t.confirms, t.ts);
  }

  lemma PassKeepsWeights(c: MemoryConfig, t: Table, p: WorkloadPass)
    requires WeightsOk(t) && PassOk(p)
    ensures WeightsOk(After(c, t, p))
  {
    hide Step, After;
    forall k
      ensures k in After(c, t, p) ==> Abs(After(c, t, p)[k].r) <= 1.0
    {
      PassIsStepOnEveryRow(c, t, p, k);
      ConfirmsAreEdges(p.edges, k);
      StepWeight(c, Lookup(t, k), TouchOf(p, k));
    }
  }

  /** Whatever the parameters, a pass drops no row and lowers no floor. */
  lemma FloorsOnlyRise(c: MemoryConfig, t: Table, p: WorkloadPass, k: Key)
    requires k in t
    ensures k in After(c, t, p) && After(c, t, p)[k].base >= t[k].base
  {
    hide After, Confirm;
    var touch := TouchOf(p, k);
    PassIsStepOnEveryRow(c, t, p, k);
    ConfirmsKeepFloor(c, if touch.seeded then Seed(c, Some(t[k]), p.ts) else t[k], touch.confirms, p.ts);
  }

  function RunTable(c: MemoryConfig, t: Table, ps: seq<WorkloadPass>): Table {
    if ps == [] then t else After(c, RunTable(c, t, ps[..|ps| - 1]), ps[|ps| - 1])
  }

  function Touches(ps: seq<WorkloadPass>, k: Key): (ts: seq<Touch>)
    ensures |ts| == |ps| && forall i :: 0 <= i < |ps| ==> ts[i] == TouchOf(ps[i], k)
  {
    seq(|ps|, i requires 0 <= i < |ps| => TouchOf(ps[i], k))
  }

  /** Hence every law about a run of one row is a law about that row of the table. */
  lemma {:induction false} RunIsRunOnEveryRow(c: MemoryConfig, t: Table, ps: seq<WorkloadPass>, k: Key)
    ensures Lookup(RunTable(c, t, ps), k) == Run(c, Lookup(t, k), Touches(ps, k))
  {
    hide Step, After;
    if ps == [] {
    } else {
      RunIsRunOnEveryRow(c, t, ps[..|ps| - 1], k);
      assert Touches(ps, k)[..|ps| - 1] == Touches(ps[..|ps| - 1], k);
      PassIsStepOnEveryRow(c, RunTable(c, t, ps[..|ps| - 1]), ps[|ps| - 1], k);
    }
  }
}
