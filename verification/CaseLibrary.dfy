/** The case library: nearest-prototype clustering of incidents with a merge and a family threshold. */
module CaseLibrary {
  import opened Common
  import opened Config

  // Similarity.

  function Jaccard<T(==)>(a: set<T>, b: set<T>): (j: real) {
    if a + b == {} then 1.0 else |a * b| as real / |a + b| as real
  }

  /** What identifies an incident; the case id is a digest of it, taken as the key itself. */
  datatype CaseKey = CaseKey(root: string, victims: set<string>, signal: string, coupling: Option<string>,
                             motif: multiset<(string, string)>)

  function Motif(k: CaseKey): set<(string, string)> {
    set e | e in k.motif
  }

  predicate SameKind(a: CaseKey, b: CaseKey) {
    a.signal == b.signal && a.coupling.GetOr("") == b.coupling.GetOr("")
  }

  /** Structural similarity: 0 across signals or witnesses, else a weighted set overlap. */
  function CaseSim(a: CaseKey, b: CaseKey): real {
    if !SameKind(a, b) then 0.0
    else 0.4 * Jaccard(a.victims, b.victims) + 0.2 * Jaccard({a.root}, {b.root}) + 0.4 * Jaccard(Motif(a), Motif(b))
  }

  lemma SubsetSize<T>(a: set<T>, b: set<T>)
    requires a <= b
    ensures |a| <= |b|
    ensures |a| == |b| ==> a == b
  {
    var rest := b - a;
    assert b == a + rest;
  }

  lemma JaccardProperties<T>(a: set<T>, b: set<T>)
    ensures 0.0 <= Jaccard(a, b) <= 1.0
    ensures Jaccard(a, b) == Jaccard(b, a)
    ensures Jaccard(a, b) == 1.0 <==> a == b
  {
    assert a + b == b + a && a * b == b * a;
    SubsetSize(a * b, a + b);
    if a + b != {} {
      RatioOfSizes(|a * b|, |a + b|);
      if a * b == a + b {
        assert forall t :: t in a ==> t in a + b;
        assert forall t :: t in b ==> t in a + b;
        assert a == b;
      }
    }
  }

  lemma RatioOfSizes(i: nat, u: nat)
    requires i <= u && u > 0
    ensures 0.0 <= i as real / u as real <= 1.0
    ensures i as real / u as real == 1.0 <==> i == u
  {
    var x := i as real / u as real;
    assert x * u as real == i as real;
    RatioBounds(x, i as real, u as real);
  }

  lemma RatioBounds(x: real, i: real, u: real)
    requires x * u == i && 0.0 <= i <= u && u > 0.0
    ensures 0.0 <= x <= 1.0
    ensures x == 1.0 <==> i == u
  {
    var rest := 1.0 - x;
    assert rest * u == u - i;
    SignOfProduct(x, u);
    SignOfProduct(rest, u);
  }

  lemma SignOfProduct(x: real, u: real)
    requires u > 0.0
    ensures x < 0.0 <==> x * u < 0.0
    ensures x > 0.0 <==> x * u > 0.0
  {
  }

  lemma SimProperties(a: CaseKey, b: CaseKey)
    ensures 0.0 <= CaseSim(a, b) <= 1.0
    ensures CaseSim(a, b) == CaseSim(b, a)
    ensures CaseSim(a, b) == 1.0 <==>
            SameKind(a, b) && a.victims == b.victims && a.root == b.root && Motif(a) == Motif(b)
  {
    hide Jaccard, Motif;
    JaccardProperties(a.victims, b.victims);
    JaccardProperties({a.root}, {b.root});
    JaccardProperties(Motif(a), Motif(b));
    assert {a.root} == {b.root} <==> a.root == b.root by {
      assert a.root in {a.root};
    }
  }

  // What each part of a key weighs.

  lemma JaccardOfDisjoint<T>(a: set<T>, b: set<T>)
    requires a * b == {} && a + b != {}
    ensures Jaccard(a, b) == 0.0
  {
  }

  /** Of two incidents of one kind that have nothing in common in one part and everything in the others, that part
      takes 0.4 of the similarity if it is the victims or the motif, 0.2 if it is the root. */
  lemma PartsWeigh(a: CaseKey, b: CaseKey)
    requires a.signal == b.signal && a.coupling == b.coupling
    ensures a.root == b.root && Motif(a) == Motif(b) && a.victims * b.victims == {} && a.victims + b.victims != {} ==>
              CaseSim(a, b) == 0.6
    ensures a.root == b.root && a.victims == b.victims && Motif(a) * Motif(b) == {} && Motif(a) + Motif(b) != {} ==>
              CaseSim(a, b) == 0.6
    ensures a.root != b.root && a.victims == b.victims && Motif(a) == Motif(b) ==> CaseSim(a, b) == 0.8
  {
    hide Motif, Jaccard;
    JaccardProperties(a.victims, b.victims);
    JaccardProperties(Motif(a), Motif(b));
    JaccardProperties({a.root}, {b.root});
    if a.victims * b.victims == {} && a.victims + b.victims != {} {
      JaccardOfDisjoint(a.victims, b.victims);
    }
    if Motif(a) * Motif(b) == {} && Motif(a) + Motif(b) != {} {
      JaccardOfDisjoint(Motif(a), Motif(b));
    }
    if a.root != b.root {
      assert {a.root} * {b.root} == {} && a.root in {a.root} + {b.root};
      JaccardOfDisjoint({a.root}, {b.root});
    }
  }

  /** Incidents on different signals or with different witnesses are not alike at all; no witness counts as an empty
      one. */
  lemma OtherKindIsUnlike(a: CaseKey, b: CaseKey)
    ensures a.signal != b.signal ==> CaseSim(a, b) == 0.0
    ensures forall x, y :: a.coupling == Some(x) && b.coupling == Some(y) && x != y ==> CaseSim(a, b) == 0.0
    ensures forall x :: a.coupling == Some(x) && x != "" && b.coupling == None ==> CaseSim(a, b) == 0.0
    ensures CaseSim(a, b.(coupling := None)) == CaseSim(a, b.(coupling := Some("")))
  {
    hide Jaccard;
    assert Motif(b.(coupling := None)) == Motif(b) == Motif(b.(coupling := Some("")));
  }

  // Incidents of one writer that stalls several victims directly.

  function Arrow(w: string): string -> (string, string) {
    v => (w, v)
  }

  function ArrowsTo(w: string, victims: set<string>): set<(string, string)> {
    set v | v in victims :: Arrow(w)(v)
  }

  function StarKey(w: string, victims: set<string>, signal: string, coupling: Option<string>): CaseKey {
    CaseKey(w, victims, signal, coupling, multiset(ArrowsTo(w, victims)))
  }

  lemma {:induction false} ArrowsAreAsMany(w: string, victims: set<string>)
    ensures |ArrowsTo(w, victims)| == |victims|
    decreases victims
  {
    if victims == {} {
      assert ArrowsTo(w, victims) == {};
    } else {
      var v :| v in victims;
      ArrowsAreAsMany(w, victims - {v});
      assert ArrowsTo(w, victims) == ArrowsTo(w, victims - {v}) + {(w, v)};
      assert (w, v) !in ArrowsTo(w, victims - {v});
    }
  }

  lemma ArrowsOverlap(w: string, a: set<string>, b: set<string>)
    ensures Jaccard(ArrowsTo(w, a), ArrowsTo(w, b)) == Jaccard(a, b)
  {
    assert ArrowsTo(w, a) + ArrowsTo(w, b) == ArrowsTo(w, a + b);
    assert ArrowsTo(w, a) * ArrowsTo(w, b) == ArrowsTo(w, a * b) by {
      forall e | e in ArrowsTo(w, a) * ArrowsTo(w, b)
        ensures e in ArrowsTo(w, a * b)
      {
        assert e == (w, e.1) && e.1 in a && e.1 in b;
      }
    }
    ArrowsAreAsMany(w, a + b);
    ArrowsAreAsMany(w, a * b);
  }

  /** Their similarity is 0.2 and 0.8 of the overlap of their victims. */
  lemma StarSim(w: string, a: set<string>, b: set<string>, signal: string, coupling: Option<string>)
    requires a + b != {}
    ensures CaseSim(StarKey(w, a, signal, coupling), StarKey(w, b, signal, coupling)) ==
            0.2 + 0.8 * (|a * b| as real / |a + b| as real)
  {
    var k, l := StarKey(w, a, signal, coupling), StarKey(w, b, signal, coupling);
    assert Motif(k) == ArrowsTo(w, a) && Motif(l) == ArrowsTo(w, b);
    hide Motif, ArrowsTo;
    assert Jaccard(a, b) == |a * b| as real / |a + b| as real;
    hide Jaccard;
    ArrowsOverlap(w, a, b);
    JaccardProperties({w}, {w});
  }

  // The tables.

  datatype CaseRow = CaseRow(id: CaseKey, occurrences: nat, lead: Option<real>, family: CaseKey)

  datatype Observation = Observation(caseId: CaseKey, lead: Option<real>)

  datatype Library = Library(cases: seq<CaseRow>, observations: seq<Observation>)

  datatype Incident = Incident(key: CaseKey, lead: Option<real>)

  datatype Nearest = Nowhere | At(index: nat, sim: real)

  /** The first case of strictly greatest positive similarity. */
  function NearestCase(key: CaseKey, cases: seq<CaseRow>): Nearest {
    if cases == [] then Nowhere
    else
      var best := NearestCase(key, cases[..|cases| - 1]);
      var s := CaseSim(key, cases[|cases| - 1].id);
      if s > BestSim(best) then At(|cases| - 1, s) else best
  }

  function BestSim(n: Nearest): real {
    match n
    case Nowhere => 0.0
    case At(_, s) => s
  }

  /** A mean o of n values, with x as one value more. */
  function WeightedMean(o: real, n: real, x: real): real
    requires n >= 0.0
  {
    (o * n + x) / (n + 1.0)
  }

  /** The stored lead time after one more incident. */
  function FoldLead(was: Option<real>, n: nat, lead: Option<real>): Option<real> {
    if was.Some? && lead.Some? then Some(WeightedMean(was.value, n as real, lead.value))
    else if lead.None? then was
    else lead
  }

  datatype Register = Recurrence | Variant | Novel

  datatype Outcome = Outcome(library: Library, register: Register, caseId: CaseKey, family: CaseKey, sim: real)

  predicate HasId(cases: seq<CaseRow>, id: CaseKey) {
    exists i :: 0 <= i < |cases| && cases[i].id == id
  }

  /** Folds a recurrence into its case, else opens a variant or a novel case. */
  function Promote(c: MemoryConfig, lib: Library, inc: Incident): Outcome
    requires NearestOk(inc.key, lib.cases)
  {
    var best := NearestCase(inc.key, lib.cases);
    if best.At? && best.sim >= c.tauMerge then
      var row := lib.cases[best.index];
      var updated := row.(occurrences := row.occurrences + 1, lead := FoldLead(row.lead, row.occurrences, inc.lead));
      Outcome(Library(lib.cases[best.index := updated], lib.observations + [Observation(row.id, inc.lead)]),
              Recurrence, row.id, row.family, best.sim)
    else
      var close := best.At? && best.sim >= c.tauFamily;
      var family := if close then lib.cases[best.index].family else inc.key;
      var grown :=
        if HasId(lib.cases, inc.key) then lib.cases          // insert or ignore
        else lib.cases + [CaseRow(inc.key, 1, inc.lead, family)];
      Outcome(Library(grown, lib.observations + [Observation(inc.key, inc.lead)]),
              if close then Variant else Novel, inc.key, family, BestSim(best))
  }

  predicate NearestOk(key: CaseKey, cases: seq<CaseRow>) {
    NearestCase(key, cases).At? ==> NearestCase(key, cases).index < |cases|
  }

  /** The nearest case is a case, and none is nearer. */
  lemma {:induction false} NearestIsNearest(key: CaseKey, cases: seq<CaseRow>)
    ensures var best := NearestCase(key, cases);
            && NearestOk(key, cases)
            && (best.At? ==> best.sim == CaseSim(key, cases[best.index].id) > 0.0)
            && (forall i :: 0 <= i < |cases| ==> CaseSim(key, cases[i].id) <= BestSim(best))
            && (best.At? ==> forall i :: 0 <= i < best.index ==> CaseSim(key, cases[i].id) < best.sim)
  {
    hide CaseSim;
    if cases == [] {
    } else {
      var front := cases[..|cases| - 1];
      NearestIsNearest(key, front);
      assert forall i :: 0 <= i < |front| ==> front[i] == cases[i];
    }
  }

  // Invariants of the library.

  predicate Founder(r: CaseRow) {
    r.family == r.id
  }

  /** Distinct cases are unlike, distinct founders more so, every other case has an older relative. */
  ghost predicate Separated(c: MemoryConfig, cases: seq<CaseRow>) {
    && (forall i, j :: 0 <= i < j < |cases| ==> CaseSim(cases[i].id, cases[j].id) < c.tauMerge)
    && (forall i, j :: 0 <= i < j < |cases| && Founder(cases[i]) && Founder(cases[j]) ==>
          CaseSim(cases[i].id, cases[j].id) < c.tauFamily)
    && (forall i :: 0 <= i < |cases| && !Founder(cases[i]) ==> exists j :: 0 <= j < i && Related(c, cases, i, j))
  }

  /** One step of kinship inside a family. */
  ghost predicate Related(c: MemoryConfig, cases: seq<CaseRow>, i: nat, j: nat)
    requires i < |cases| && j < |cases|
  {
    cases[i].family == cases[j].family && CaseSim(cases[i].id, cases[j].id) >= c.tauFamily
  }

  /** The leads of the observations filed under a case, in order. */
  function LeadsOf(obs: seq<Observation>, id: CaseKey): seq<Option<real>> {
    if obs == [] then []
    else
      var front := LeadsOf(obs[..|obs| - 1], id);
      if obs[|obs| - 1].caseId == id then front + [obs[|obs| - 1].lead] else front
  }

  function LeadFold(ls: seq<Option<real>>): Option<real> {
    if ls == [] then None
    else if |ls| == 1 then ls[0]
    else FoldLead(LeadFold(ls[..|ls| - 1]), |ls| - 1, ls[|ls| - 1])
  }

  /** A case counts its observations and stores the fold of their leads. */
  ghost predicate Accounted(lib: Library) {
    && (forall i :: 0 <= i < |lib.cases| ==> RowAccounted(lib.cases[i], lib.observations))
    && (forall k :: 0 <= k < |lib.observations| ==> HasId(lib.cases, lib.observations[k].caseId))
  }

  ghost predicate RowAccounted(r: CaseRow, obs: seq<Observation>) {
    && r.occurrences == |LeadsOf(obs, r.id)| >= 1
    && r.lead == LeadFold(LeadsOf(obs, r.id))
  }

  ghost predicate LibraryOk(c: MemoryConfig, lib: Library) {
    Separated(c, lib.cases) && Accounted(lib)
  }

  /** Prototypes never move: only the counters of a row may change, and rows are only appended. */
  ghost predicate Extends(before: seq<CaseRow>, after: seq<CaseRow>) {
    |before| <= |after| && forall i :: 0 <= i < |before| ==>
      after[i].id == before[i].id && after[i].family == before[i].family
  }

  lemma SimilarIsNotSeparated(c: MemoryConfig, cases: seq<CaseRow>, key: CaseKey)
    requires CaseConfig(c) && HasId(cases, key)
    ensures var best := NearestCase(key, cases); best.At? && best.sim == 1.0
  {
    NearestIsNearest(key, cases);
    var i :| 0 <= i < |cases| && cases[i].id == key;
    SimProperties(key, key);
    var best := NearestCase(key, cases);
    if best.At? {
      SimProperties(key, cases[best.index].id);
    }
  }

  /** Insert-or-ignore never ignores: a stored id has similarity 1 and is folded instead. */
  lemma InsertNeverIgnores(c: MemoryConfig, lib: Library, inc: Incident)
    requires CaseConfig(c) && NearestOk(inc.key, lib.cases) && Promote(c, lib, inc).register != Recurrence
    ensures !HasId(lib.cases, inc.key)
    ensures var family := Promote(c, lib, inc).family;
            Promote(c, lib, inc).library.cases == lib.cases + [CaseRow(inc.key, 1, inc.lead, family)]
  {
    hide CaseSim;
    if HasId(lib.cases, inc.key) {
      SimilarIsNotSeparated(c, lib.cases, inc.key);
    }
  }

  /** Which of the three outcomes it is depends on the greatest similarity alone. */
  lemma RegisterMeaning(c: MemoryConfig, lib: Library, inc: Incident)
    requires CaseConfig(c) && NearestOk(inc.key, lib.cases)
    ensures var out := Promote(c, lib, inc); var cases := lib.cases;
            && (out.register == Recurrence <==>
                 exists i :: 0 <= i < |cases| && CaseSim(inc.key, cases[i].id) >= c.tauMerge)
            && (out.register == Novel <==>
                 forall i :: 0 <= i < |cases| ==> CaseSim(inc.key, cases[i].id) < c.tauFamily)
            && (forall i :: 0 <= i < |cases| ==> CaseSim(inc.key, cases[i].id) <= out.sim)
            && Extends(cases, out.library.cases) && HasId(out.library.cases, out.caseId)
  {
    hide CaseSim;
    NearestIsNearest(inc.key, lib.cases);
    var out := Promote(c, lib, inc);
    if out.register != Recurrence {
      InsertNeverIgnores(c, lib, inc);
      assert out.library.cases[|lib.cases|].id == inc.key;
    } else {
      var i := NearestCase(inc.key, lib.cases).index;
      assert out.library.cases[i].id == out.caseId;
    }
  }

  lemma RatioAtLeast(i: nat, u: nat, p: nat, q: nat)
    requires u > 0 && q > 0
    ensures i as real / u as real >= p as real / q as real <==> q * i >= p * u
  {
    var x, y := i as real / u as real, p as real / q as real;
    assert x * u as real == i as real && y * q as real == p as real;
    var m := u as real * q as real;
    assert m > 0.0;
    assert x * m == (q * i) as real && y * m == (p * u) as real;
    if x >= y {
      assert (x - y) * m >= 0.0;
    } else {
      assert (y - x) * m > 0.0;
    }
  }

  /** The same writer again, at the default thresholds: the incident recurs exactly if at least 13 of 16 of all victims
      are common to both, and is at least of the family exactly if half of them are. */
  lemma StarRegister(lib: Library, inc: Incident, w: string, a: set<string>, b: set<string>, signal: string,
                     coupling: Option<string>)
    requires inc.key == StarKey(w, a, signal, coupling) && a != {}
    requires |lib.cases| == 1 && lib.cases[0].id == StarKey(w, b, signal, coupling) && NearestOk(inc.key, lib.cases)
    ensures Promote(DEFAULTS, lib, inc).register == Recurrence <==> 16 * |a * b| >= 13 * |a + b|
    ensures Promote(DEFAULTS, lib, inc).register == Novel <==> 2 * |a * b| < |a + b|
  {
    assert a + b != {} by {
      var v :| v in a;
      assert v in a + b;
    }
    StarSim(w, a, b, signal, coupling);
    var i, u := |a * b|, |a + b|;
    hide CaseSim, StarKey, Promote;
    ThresholdsOfOverlap(i as real / u as real);
    OnlyCaseDecides(DEFAULTS, lib, inc);
    RatioAtLeast(i, u, 13, 16);
    RatioAtLeast(i, u, 1, 2);
  }

  lemma OnlyCaseDecides(c: MemoryConfig, lib: Library, inc: Incident)
    requires CaseConfig(c) && |lib.cases| == 1 && NearestOk(inc.key, lib.cases)
    ensures Promote(c, lib, inc).register == Recurrence <==> CaseSim(inc.key, lib.cases[0].id) >= c.tauMerge
    ensures Promote(c, lib, inc).register == Novel <==> CaseSim(inc.key, lib.cases[0].id) < c.tauFamily
  {
    hide CaseSim, Promote;
    RegisterMeaning(c, lib, inc);
  }

  lemma ThresholdsOfOverlap(x: real)
    ensures CaseConfig(DEFAULTS)
    ensures 0.2 + 0.8 * x >= DEFAULTS.tauMerge <==> x >= 13.0 / 16.0
    ensures 0.2 + 0.8 * x < DEFAULTS.tauFamily <==> x < 1.0 / 2.0
  {
  }

  lemma ExtendsKeepsSeparated(c: MemoryConfig, cases: seq<CaseRow>, after: seq<CaseRow>)
    requires Separated(c, cases) && Extends(cases, after) && |cases| == |after|
    ensures Separated(c, after)
  {
    hide CaseSim;
    forall i | 0 <= i < |after| && !Founder(after[i])
      ensures exists j :: 0 <= j < i && Related(c, after, i, j)
    {
      var j :| 0 <= j < i && Related(c, cases, i, j);
      assert Related(c, after, i, j);
    }
  }

  lemma PromoteKeepsSeparated(c: MemoryConfig, lib: Library, inc: Incident)
    requires CaseConfig(c) && Separated(c, lib.cases) && NearestOk(inc.key, lib.cases)
    ensures Separated(c, Promote(c, lib, inc).library.cases)
  {
    hide CaseSim, NearestCase;
    var out, cases := Promote(c, lib, inc), lib.cases;
    var n := |cases|;
    NearestIsNearest(inc.key, cases);
    if out.register == Recurrence {
      ExtendsKeepsSeparated(c, cases, out.library.cases);
    } else {
      InsertNeverIgnores(c, lib, inc);
      var grown := out.library.cases;
      forall i | 0 <= i < n
        ensures CaseSim(grown[i].id, grown[n].id) < c.tauMerge
        ensures Founder(grown[n]) ==> CaseSim(grown[i].id, grown[n].id) < c.tauFamily
      {
        SimProperties(inc.key, cases[i].id);
        if Founder(grown[n]) {
          FounderIsNovel(c, lib, inc);
        }
      }
      forall i | 0 <= i < |grown| && !Founder(grown[i])
        ensures exists j :: 0 <= j < i && Related(c, grown, i, j)
      {
        if i < n {
          var j :| 0 <= j < i && Related(c, cases, i, j);
          assert Related(c, grown, i, j);
        } else {
          var j := NearestCase(inc.key, cases).index;
          assert Related(c, grown, i, j);
        }
      }
    }
  }

  lemma FamilyIsStored(c: MemoryConfig, cases: seq<CaseRow>, i: nat)
    requires Separated(c, cases) && i < |cases|
    ensures HasId(cases, cases[i].family)
  {
    var f := FounderOf(c, cases, i);
    assert cases[f].id == cases[i].family;
  }

  /** A freshly inserted founder was novel: no stored case carries its id as family. */
  lemma FounderIsNovel(c: MemoryConfig, lib: Library, inc: Incident)
    requires CaseConfig(c) && Separated(c, lib.cases) && NearestOk(inc.key, lib.cases)
    requires Promote(c, lib, inc).register != Recurrence && Promote(c, lib, inc).family == inc.key
    ensures BestSim(NearestCase(inc.key, lib.cases)) < c.tauFamily
  {
    hide CaseSim;
    var best := NearestCase(inc.key, lib.cases);
    NearestIsNearest(inc.key, lib.cases);
    InsertNeverIgnores(c, lib, inc);
    if best.At? && best.sim >= c.tauFamily {
      FamilyIsStored(c, lib.cases, best.index);
    }
  }

  /** Following older relatives leads to the founder of the family. */
  lemma {:induction false} FounderOf(c: MemoryConfig, cases: seq<CaseRow>, i: nat) returns (f: nat)
    requires Separated(c, cases) && i < |cases|
    ensures f <= i && Founder(cases[f]) && cases[f].id == cases[i].family
  {
    if Founder(cases[i]) {
      f := i;
    } else {
      var j :| 0 <= j < i && Related(c, cases, i, j);
      f := FounderOf(c, cases, j);
    }
  }

  /** A path of kinship steps inside one family, oldest case last. */
  ghost predicate KinPath(c: MemoryConfig, cases: seq<CaseRow>, path: seq<nat>) {
    && path != [] && (forall k :: 0 <= k < |path| ==> path[k] < |cases|)
    && forall k :: 0 <= k < |path| - 1 ==> path[k + 1] < path[k] && Related(c, cases, path[k], path[k + 1])
  }

  /** Every case is linked to its founder by steps of at least tauFamily inside its own family. */
  lemma {:induction false} CaseLinksToFounder(c: MemoryConfig, cases: seq<CaseRow>, i: nat) returns (path: seq<nat>)
    requires Separated(c, cases) && i < |cases|
    ensures KinPath(c, cases, path) && path[0] == i
    ensures Founder(cases[path[|path| - 1]]) && cases[path[|path| - 1]].id == cases[i].family
  {
    hide CaseSim;
    if Founder(cases[i]) {
      path := [i];
    } else {
      var j :| 0 <= j < i && Related(c, cases, i, j);
      var rest := CaseLinksToFounder(c, cases, j);
      path := [i] + rest;
    }
  }

  // Accounting.

  lemma LeadsOfNext(obs: seq<Observation>, o: Observation, id: CaseKey)
    ensures LeadsOf(obs + [o], id) == if o.caseId == id then LeadsOf(obs, id) + [o.lead] else LeadsOf(obs, id)
  {
    assert (obs + [o])[..|obs|] == obs;
  }

  lemma {:induction false} NoLeadsYet(cases: seq<CaseRow>, obs: seq<Observation>, id: CaseKey)
    requires forall k :: 0 <= k < |obs| ==> HasId(cases, obs[k].caseId)
    requires !HasId(cases, id)
    ensures LeadsOf(obs, id) == []
  {
    if obs == [] {
    } else {
      assert HasId(cases, obs[|obs| - 1].caseId);
      NoLeadsYet(cases, obs[..|obs| - 1], id);
    }
  }

  lemma HasIdKept(before: seq<CaseRow>, after: seq<CaseRow>, id: CaseKey)
    requires Extends(before, after) && HasId(before, id)
    ensures HasId(after, id)
  {
    var i :| 0 <= i < |before| && before[i].id == id;
    assert after[i].id == id;
  }

  lemma IdsAreDistinct(c: MemoryConfig, cases: seq<CaseRow>, i: nat, j: nat)
    requires CaseConfig(c) && Separated(c, cases) && i < |cases| && j < |cases| && cases[i].id == cases[j].id
    ensures i == j
  {
    hide CaseSim;
    SimProperties(cases[i].id, cases[j].id);
  }

  lemma RowStaysAccounted(r: CaseRow, obs: seq<Observation>, o: Observation)
    requires RowAccounted(r, obs)
    ensures o.caseId != r.id ==> RowAccounted(r, obs + [o])
    ensures o.caseId == r.id ==>
              RowAccounted(r.(occurrences := r.occurrences + 1, lead := FoldLead(r.lead, r.occurrences, o.lead)),
                           obs + [o])
  {
    hide FoldLead;
    LeadsOfNext(obs, o, r.id);
    var ls := LeadsOf(obs, r.id);
    assert (ls + [o.lead])[..|ls|] == ls;
  }

  lemma PromoteKeepsAccounted(c: MemoryConfig, lib: Library, inc: Incident)
    requires CaseConfig(c) && LibraryOk(c, lib) && NearestOk(inc.key, lib.cases)
    ensures Accounted(Promote(c, lib, inc).library)
  {
    hide CaseSim, FoldLead, RowAccounted, LeadsOf, Separated;
    var out := Promote(c, lib, inc);
    var o := Observation(out.caseId, inc.lead);
    RegisterMeaning(c, lib, inc);
    var now := out.library;
    assert now.observations == lib.observations + [o];
    if out.register != Recurrence {
      InsertNeverIgnores(c, lib, inc);
      NoLeadsYet(lib.cases, lib.observations, inc.key);
      FirstObservation(lib.observations, o, out.family);
    }
    forall i | 0 <= i < |now.cases|
      ensures RowAccounted(now.cases[i], now.observations)
    {
      if i < |lib.cases| {
        var r := lib.cases[i];
        assert RowAccounted(r, lib.observations);
        RowStaysAccounted(r, lib.observations, o);
        if out.register == Recurrence && o.caseId == r.id {
          IdsAreDistinct(c, lib.cases, i, NearestCase(inc.key, lib.cases).index);
        } else if out.register != Recurrence {
          assert r.id != inc.key;
        }
      }
    }
    forall k | 0 <= k < |now.observations|
      ensures HasId(now.cases, now.observations[k].caseId)
    {
      if k < |lib.observations| {
        HasIdKept(lib.cases, now.cases, lib.observations[k].caseId);
      }
    }
  }

  lemma FirstObservation(obs: seq<Observation>, o: Observation, family: CaseKey)
    requires LeadsOf(obs, o.caseId) == []
    ensures RowAccounted(CaseRow(o.caseId, 1, o.lead, family), obs + [o])
  {
    LeadsOfNext(obs, o, o.caseId);
  }

  // Whole runs.

  function RunLibrary(c: MemoryConfig, incidents: seq<Incident>): Library {
    if incidents == [] then Library([], [])
    else
      var before, inc := RunLibrary(c, incidents[..|incidents| - 1]), incidents[|incidents| - 1];
      assert NearestOk(inc.key, before.cases) by { NearestIsNearest(inc.key, before.cases); }
      Promote(c, before, inc).library
  }

  /** Separation and accounting hold after every sequence of incidents; each incident is observed once. */
  lemma {:induction false} EveryRunIsSeparated(c: MemoryConfig, incidents: seq<Incident>)
    requires CaseConfig(c)
    ensures LibraryOk(c, RunLibrary(c, incidents))
    ensures |RunLibrary(c, incidents).observations| == |incidents|
  {
    if incidents == [] {
    } else {
      var before, inc := RunLibrary(c, incidents[..|incidents| - 1]), incidents[|incidents| - 1];
      EveryRunIsSeparated(c, incidents[..|incidents| - 1]);
      NearestIsNearest(inc.key, before.cases);
      PromoteKeepsSeparated(c, before, inc);
      PromoteKeepsAccounted(c, before, inc);
    }
  }

  /** Prototypes survive every continuation of a run, at the same place. */
  lemma {:induction false} PrototypesNeverMove(c: MemoryConfig, incidents: seq<Incident>, k: nat)
    requires CaseConfig(c) && k <= |incidents|
    ensures Extends(RunLibrary(c, incidents[..k]).cases, RunLibrary(c, incidents).cases)
  {
    hide Promote;
    if k == |incidents| {
      assert incidents[..k] == incidents;
    } else {
      var front, inc := incidents[..|incidents| - 1], incidents[|incidents| - 1];
      PrototypesNeverMove(c, front, k);
      assert front[..k] == incidents[..k];
      NearestIsNearest(inc.key, RunLibrary(c, front).cases);
      RegisterMeaning(c, RunLibrary(c, front), inc);
    }
  }

  function TotalOccurrences(cases: seq<CaseRow>): nat {
    if cases == [] then 0 else TotalOccurrences(cases[..|cases| - 1]) + cases[|cases| - 1].occurrences
  }

  lemma {:induction false} TotalOfUpdate(cases: seq<CaseRow>, i: nat, r: CaseRow)
    requires i < |cases|
    ensures TotalOccurrences(cases[i := r]) + cases[i].occurrences == TotalOccurrences(cases) + r.occurrences
  {
    var k := |cases| - 1;
    if i < k {
      TotalOfUpdate(cases[..k], i, r);
      assert cases[i := r][..k] == cases[..k][i := r];
    } else {
      assert cases[i := r][..k] == cases[..k];
    }
  }

  /** No incident is lost or counted twice: the occurrences add up to the incidents. */
  lemma {:induction false} OccurrencesAddUp(c: MemoryConfig, incidents: seq<Incident>)
    requires CaseConfig(c)
    ensures TotalOccurrences(RunLibrary(c, incidents).cases) == |incidents|
  {
    hide CaseSim, FoldLead;
    if incidents == [] {
    } else {
      var front, inc := incidents[..|incidents| - 1], incidents[|incidents| - 1];
      var lib := RunLibrary(c, front);
      OccurrencesAddUp(c, front);
      NearestIsNearest(inc.key, lib.cases);
      var best := NearestCase(inc.key, lib.cases);
      var out := Promote(c, lib, inc);
      if out.register == Recurrence {
        TotalOfUpdate(lib.cases, best.index, out.library.cases[best.index]);
      } else {
        InsertNeverIgnores(c, lib, inc);
        assert out.library.cases[..|lib.cases|] == lib.cases;
      }
    }
  }

  /** The same incident again is a recurrence of the very case it was filed under. */
  lemma RepeatRecurs(c: MemoryConfig, lib: Library, inc: Incident, again: Incident)
    requires CaseConfig(c) && Separated(c, lib.cases) && NearestOk(inc.key, lib.cases) && again.key == inc.key
    ensures NearestOk(inc.key, Promote(c, lib, inc).library.cases)
    ensures var first := Promote(c, lib, inc); var second := Promote(c, first.library, again);
            second.register == Recurrence && second.caseId == first.caseId && second.family == first.family
  {
    hide CaseSim, FoldLead, Separated;
    var first := Promote(c, lib, inc);
    NearestIsNearest(inc.key, lib.cases);
    NearestIsNearest(inc.key, first.library.cases);
    if first.register == Recurrence {
      SameNearest(inc.key, lib.cases, first.library.cases);
    } else {
      InsertNeverIgnores(c, lib, inc);
      PromoteKeepsSeparated(c, lib, inc);
      assert first.library.cases[|lib.cases|].id == inc.key;
      OwnCaseIsNearest(c, first.library.cases, |lib.cases|);
    }
  }

  lemma OwnCaseIsNearest(c: MemoryConfig, cases: seq<CaseRow>, i: nat)
    requires CaseConfig(c) && Separated(c, cases) && i < |cases|
    ensures NearestCase(cases[i].id, cases) == At(i, 1.0)
  {
    hide CaseSim;
    var key := cases[i].id;
    assert HasId(cases, key);
    SimilarIsNotSeparated(c, cases, key);
    NearestIsNearest(key, cases);
    var best := NearestCase(key, cases);
    SimProperties(key, cases[best.index].id);
  }

  /** The nearest case depends on the prototypes only. */
  lemma {:induction false} SameNearest(key: CaseKey, xs: seq<CaseRow>, ys: seq<CaseRow>)
    requires |xs| == |ys| && forall i :: 0 <= i < |xs| ==> xs[i].id == ys[i].id
    ensures NearestCase(key, xs) == NearestCase(key, ys)
  {
    hide CaseSim;
    if xs == [] {
    } else {
      SameNearest(key, xs[..|xs| - 1], ys[..|ys| - 1]);
    }
  }

  // Lead times.

  predicate AllKnown(ls: seq<Option<real>>) {
    forall i :: 0 <= i < |ls| ==> ls[i].Some?
  }

  /** The sum of the known leads. */
  function KnownSum(ls: seq<Option<real>>): real {
    if ls == [] then 0.0 else KnownSum(ls[..|ls| - 1]) + ls[|ls| - 1].GetOr(0.0)
  }

  function KnownCount(ls: seq<Option<real>>): nat {
    if ls == [] then 0 else KnownCount(ls[..|ls| - 1]) + if ls[|ls| - 1].Some? then 1 else 0
  }

  /** The stored lead is the mean of the known leads. */
  ghost predicate IsMean(lead: Option<real>, ls: seq<Option<real>>) {
    if KnownCount(ls) == 0 then lead.None?
    else lead.Some? && lead.value * KnownCount(ls) as real == KnownSum(ls)
  }

  /** With every lead known, the stored lead is exactly their mean. */
  lemma {:induction false} KnownLeadsAverage(ls: seq<Option<real>>)
    requires AllKnown(ls)
    ensures KnownCount(ls) == |ls| && IsMean(LeadFold(ls), ls)
  {
    if |ls| > 1 {
      var front, x := ls[..|ls| - 1], ls[|ls| - 1].value;
      KnownLeadsAverage(front);
      WeightedStep(LeadFold(front).value, |front| as real, x);
    } else if |ls| == 1 {
      assert ls[..0] == [];
    }
  }

  lemma WeightedStep(o: real, n: real, x: real)
    requires n > 0.0
    ensures WeightedMean(o, n, x) * (n + 1.0) == o * n + x
  {
  }

  lemma {:induction false} CountBound(ls: seq<Option<real>>)
    ensures KnownCount(ls) <= |ls|
    ensures KnownCount(ls) == |ls| <==> AllKnown(ls)
  {
    if ls == [] {
    } else {
      CountBound(ls[..|ls| - 1]);
      assert ls == ls[..|ls| - 1] + [ls[|ls| - 1]];
    }
  }

  /** Once an unknown lead has been folded in, the next known lead leaves the stored value at the
      mean of the known leads only if it equals that mean: the update weighs it by occurrences. */
  lemma MeanSurvivesIff(ls: seq<Option<real>>, x: real)
    requires KnownCount(ls) > 0 && IsMean(LeadFold(ls), ls)
    ensures LeadFold(ls).Some?
    ensures IsMean(LeadFold(ls + [Some(x)]), ls + [Some(x)]) <==> AllKnown(ls) || x == LeadFold(ls).value
  {
    hide FoldLead, AllKnown, WeightedMean;
    CountBound(ls);
    FoldNext(ls, x);
    var o, n, k := LeadFold(ls).value, |ls| as real, KnownCount(ls) as real;
    FoldKnown(o, |ls|, x);
    MeanShift(o, n, k, x, FoldLead(Some(o), |ls|, Some(x)).value);
  }

  lemma FoldNext(ls: seq<Option<real>>, x: real)
    requires ls != []
    ensures LeadFold(ls + [Some(x)]) == FoldLead(LeadFold(ls), |ls|, Some(x))
    ensures KnownCount(ls + [Some(x)]) == KnownCount(ls) + 1
    ensures KnownSum(ls + [Some(x)]) == KnownSum(ls) + x
  {
    hide FoldLead;
    assert (ls + [Some(x)])[..|ls|] == ls;
  }

  lemma FoldKnown(o: real, n: nat, x: real)
    ensures FoldLead(Some(o), n, Some(x)) == Some(WeightedMean(o, n as real, x))
  {
    hide WeightedMean;
  }

  lemma MeanShift(o: real, n: real, k: real, x: real, y: real)
    requires 0.0 < k <= n && y == WeightedMean(o, n, x)
    ensures y * (k + 1.0) == o * k + x <==> k == n || x == o
  {
    var d, e := n - k, y * (k + 1.0) - (o * k + x);
    assert y * (n + 1.0) == o * n + x;
    assert y * (k + 1.0) * (n + 1.0) == (o * n + x) * (k + 1.0);
    assert e * (n + 1.0) == d * (o - x);
    ZeroProduct(e, n + 1.0);
    ZeroProduct(d, o - x);
  }

  lemma ZeroProduct(a: real, b: real)
    ensures a * b == 0.0 <==> a == 0.0 || b == 0.0
  {
  }

  /** A lead of 10, an unknown one, then 40: stored 20, where the known leads average 25. */
  lemma UnknownLeadSkewsMean()
    ensures LeadFold([Some(10.0), None, Some(40.0)]) == Some(20.0)
    ensures !IsMean(LeadFold([Some(10.0), None, Some(40.0)]), [Some(10.0), None, Some(40.0)])
  {
    var ls: seq<Option<real>> := [Some(10.0), None, Some(40.0)];
    assert ls[..2] == [Some(10.0), None] && ls[..2][..1] == [Some(10.0)] && |ls[..1][..0]| == 0;
    assert KnownCount(ls[..1]) == 1 && KnownSum(ls[..1]) == 10.0;
    assert ls[..2][..1] == ls[..1];
    assert LeadFold(ls[..2]) == Some(10.0);
    assert KnownCount(ls[..2]) == 1 && KnownSum(ls[..2]) == 10.0;
  }
}
