/** One row of the edge memory: seeded, confirmed, decayed; shown and hidden with hysteresis. */
module EdgeMemory {
  import opened Common
  import opened Config
  import opened Digraph
  import Statistics

  datatype Phase = Confirming | Active | Steady | Decaying | Hidden

  datatype Row = Row(
    confidence: real, r: real, lag: int, evidence: seq<string>, hits: nat, visible: bool, phase: Phase,
    firstSeen: real, lastSeen: real, updated: real, base: real)

  const EPS := 0.000000001

  lemma RiseBounds(alpha: real, x: real)
    requires 0.0 <= alpha <= 1.0 && 0.0 <= x <= 1.0
    ensures x <= Rise(alpha, x) <= 1.0 && alpha <= Rise(alpha, x)
  {
    RiseGrows(alpha, x);
    RiseGap(alpha, x);
  }

  lemma RiseGrows(alpha: real, x: real)
    requires 0.0 <= alpha && x <= 1.0
    ensures x <= Rise(alpha, x)
  {
    Statistics.ProductOrder(0.0, alpha, 1.0 - x);
  }

  lemma RiseMonotone(alpha: real, x: real, y: real)
    requires alpha <= 1.0 && x <= y
    ensures Rise(alpha, x) <= Rise(alpha, y)
  {
    var rest := 1.0 - alpha;
    Statistics.ProductOrder(x, y, rest);
    assert Rise(alpha, x) == alpha + x * rest && Rise(alpha, y) == alpha + y * rest;
  }

  lemma RiseGap(alpha: real, x: real)
    requires 0.0 <= alpha <= 1.0 && 0.0 <= x <= 1.0
    ensures alpha <= Rise(alpha, x) <= 1.0
  {
    Statistics.ProductOrder(x, 1.0, 1.0 - alpha);
    Statistics.ProductOrder(0.0, x, 1.0 - alpha);
    assert Rise(alpha, x) == alpha + x * (1.0 - alpha);
  }

  lemma FallBounds(keep: real, x: real)
    requires 0.0 <= keep <= 1.0 && 0.0 <= x
    ensures 0.0 <= Fall(keep, x) <= x
  {
    FallIsPart(keep, x);
    hide Fall;
    Statistics.FractionOf(keep, x);
  }

  lemma FallIsPart(keep: real, x: real)
    ensures Fall(keep, x) == Statistics.Part(keep, x)
  {
  }

  lemma FallMonotone(keep: real, x: real, y: real)
    requires 0.0 <= keep && x <= y
    ensures Fall(keep, x) <= Fall(keep, y)
  {
    Statistics.ProductOrder(x, y, keep);
  }

  /** A witnessed shared-disk pair carries at least the topology prior as its floor. */
  function Seed(c: MemoryConfig, row: Option<Row>, ts: real): Row {
    match row
    case None => Row(c.prior, 0.0, 0, ["pvc"], 0, false, Steady, ts, ts, ts, c.prior)
    case Some(r) => if r.base < c.prior then r.(base := c.prior) else r
  }

  /** A live edge raises confidence towards 1 and teaches the floor. */
  function Confirm(c: MemoryConfig, row: Option<Row>, e: Edge, ts: real): Row {
    var conf := match row case None => c.alpha case Some(r) => Rise(c.alpha, r.confidence);
    var prevBase := match row case None => 0.0 case Some(r) => r.base;
    var visible := (row.Some? && row.value.visible) || conf >= c.show;
    Row(conf, e.r, e.lag, e.evidence,
        if row.Some? then row.value.hits + 1 else 1,
        visible, if visible then Active else Confirming,
        if row.Some? then row.value.firstSeen else ts, ts, ts,
        Max(prevBase, Fall(c.floorFrac, conf)))
  }

  /** An absent edge between running workloads decays to its floor, not to zero. */
  function Decay(c: MemoryConfig, r: Row, ts: real): Row {
    var conf := Max(r.base, Fall(1.0 - c.decay, r.confidence));
    var visible := r.visible && conf >= c.hide_;
    var atFloor := conf <= r.base + EPS && r.base > 0.0;
    r.(confidence := conf, visible := visible, updated := ts,
       phase := if atFloor then Steady else if visible then Decaying else Hidden)
  }

  function ConfirmAll(c: MemoryConfig, row: Option<Row>, es: seq<Edge>, ts: real): Option<Row> {
    if es == [] then row else Some(Confirm(c, ConfirmAll(c, row, es[..|es| - 1], ts), es[|es| - 1], ts))
  }

  /** What one pass means for one workload pair. */
  datatype Touch = Touch(seeded: bool, confirms: seq<Edge>, present: bool, ts: real)

  /** One pass over one pair: seed, then confirm, then decay if nothing confirmed it. */
  function Step(c: MemoryConfig, row: Option<Row>, t: Touch): Option<Row> {
    var seeded := if t.seeded then Some(Seed(c, row, t.ts)) else row;
    var confirmed := ConfirmAll(c, seeded, t.confirms, t.ts);
    if t.confirms == [] && t.present && confirmed.Some? then Some(Decay(c, confirmed.value, t.ts)) else confirmed
  }

  /** Seeding only ever touches pairs whose two workloads run. */
  predicate TouchOk(t: Touch) {
    t.seeded ==> t.present
  }

  /** No floor is ever lower than this. */
  function LeastFloor(c: MemoryConfig): real {
    Min(c.prior, FirstFloor(c))
  }

  /** What holds of every row between passes. */
  ghost predicate RowOk(c: MemoryConfig, r: Row) {
    && LeastFloor(c) <= r.base && 0.0 <= r.base <= r.confidence <= 1.0
    && (r.visible ==> r.confidence >= c.hide_)
    && (r.phase.Active? || r.phase.Decaying? ==> r.visible)
    && (r.phase.Confirming? || r.phase.Hidden? ==> !r.visible)
  }

  ghost predicate OptionOk(c: MemoryConfig, row: Option<Row>) {
    row.Some? ==> RowOk(c, row.value)
  }

  // One step.

  /** Seeding alone may lift the floor above the confidence; it does so exactly below the prior. */
  lemma SeedAloneKeepsRowIff(c: MemoryConfig, r: Row, ts: real)
    requires EdgeConfig(c) && RowOk(c, r)
    ensures RowOk(c, Seed(c, Some(r), ts)) <==> c.prior <= r.confidence
  {
  }

  /** What holds of a row in mid-pass: seeding may have lifted its floor to the prior. */
  ghost predicate MidRowOk(c: MemoryConfig, r: Row) {
    && LeastFloor(c) <= r.confidence <= 1.0 && LeastFloor(c) <= r.base && 0.0 <= r.confidence && 0.0 <= r.base
    && r.base <= Max(r.confidence, c.prior)
    && (r.visible ==> r.confidence >= c.hide_)
  }

  lemma ConfirmReachesPrior(c: MemoryConfig, x: real)
    requires EdgeConfig(c) && LeastFloor(c) <= x <= 1.0 && 0.0 <= x
    ensures c.prior <= Rise(c.alpha, x)
  {
    hide Rise, Fall;
    RiseGrows(c.alpha, x);
    if x < c.prior {
      RiseMonotone(c.alpha, FirstFloor(c), x);
    }
  }

  /** Confirming repairs what seeding may have left. */
  lemma ConfirmKeeps(c: MemoryConfig, row: Option<Row>, e: Edge, ts: real)
    requires EdgeConfig(c) && (row.Some? ==> MidRowOk(c, row.value))
    ensures RowOk(c, Confirm(c, row, e, ts))
    ensures row.Some? ==> Confirm(c, row, e, ts).base >= row.value.base
    ensures row.Some? ==> Confirm(c, row, e, ts).confidence >= row.value.confidence
    ensures row.Some? && row.value.visible ==> Confirm(c, row, e, ts).visible
  {
    hide Rise, Fall;
    if row.Some? {
      RiseBounds(c.alpha, row.value.confidence);
      ConfirmReachesPrior(c, row.value.confidence);
    }
    FallBounds(c.floorFrac, Confirm(c, row, e, ts).confidence);
    FallMonotone(c.floorFrac, c.alpha, Confirm(c, row, e, ts).confidence);
  }

  lemma {:induction false} ConfirmAllKeeps(c: MemoryConfig, row: Option<Row>, es: seq<Edge>, ts: real)
    requires EdgeConfig(c) && es != [] && (row.Some? ==> MidRowOk(c, row.value))
    ensures var out := ConfirmAll(c, row, es, ts);
            && out.Some? && RowOk(c, out.value)
            && (row.Some? ==> out.value.base >= row.value.base && out.value.confidence >= row.value.confidence)
            && (row.Some? && row.value.visible ==> out.value.visible)
  {
    hide Confirm;
    var front, e := es[..|es| - 1], es[|es| - 1];
    if front == [] {
    } else {
      ConfirmAllKeeps(c, row, front, ts);
    }
    ConfirmKeeps(c, ConfirmAll(c, row, front, ts), e, ts);
  }

  lemma DecayKeeps(c: MemoryConfig, r: Row, ts: real)
    requires EdgeConfig(c) && LeastFloor(c) <= r.base && 0.0 <= r.base <= 1.0 && 0.0 <= r.confidence <= 1.0
    ensures RowOk(c, Decay(c, r, ts)) && Decay(c, r, ts).base == r.base
    ensures Decay(c, r, ts).confidence >= Fall(1.0 - c.decay, r.confidence)
    ensures r.visible && r.base >= c.hide_ ==> Decay(c, r, ts).visible
  {
    hide Fall;
    FallBounds(1.0 - c.decay, r.confidence);
  }

  /** The least a pass leaves of a confidence. */
  function Kept(c: MemoryConfig, t: Touch, x: real): real {
    if t.confirms == [] && t.present then Fall(1.0 - c.decay, x) else x
  }

  /** A pass keeps every row well-formed, never drops one and never lowers a floor. */
  lemma StepKeeps(c: MemoryConfig, row: Option<Row>, t: Touch)
    requires EdgeConfig(c) && OptionOk(c, row) && TouchOk(t)
    ensures OptionOk(c, Step(c, row, t))
    ensures row.Some? ==> Step(c, row, t).Some? && Step(c, row, t).value.base >= row.value.base
    ensures row.Some? && row.value.visible && row.value.base >= c.hide_ ==> Step(c, row, t).value.visible
    ensures row.Some? ==>
              Step(c, row, t).value.confidence >= Kept(c, t, row.value.confidence)
  {
    hide Confirm, Decay, Fall;
    var seeded := if t.seeded then Some(Seed(c, row, t.ts)) else row;
    if t.confirms != [] {
      ConfirmAllKeeps(c, seeded, t.confirms, t.ts);
    } else if t.present && seeded.Some? {
      DecayKeeps(c, seeded.value, t.ts);
    }
  }

  // Whole runs.

  function Run(c: MemoryConfig, row: Option<Row>, ts: seq<Touch>): Option<Row> {
    if ts == [] then row else Step(c, Run(c, row, ts[..|ts| - 1]), ts[|ts| - 1])
  }

  ghost predicate TouchesOk(ts: seq<Touch>) {
    forall i :: 0 <= i < |ts| ==> TouchOk(ts[i])
  }

  /** Over any run: rows stay well-formed, none disappears, floors only rise. */
  lemma {:induction false} RunKeeps(c: MemoryConfig, row: Option<Row>, ts: seq<Touch>)
    requires EdgeConfig(c) && OptionOk(c, row) && TouchesOk(ts)
    ensures OptionOk(c, Run(c, row, ts))
    ensures row.Some? ==> Run(c, row, ts).Some? && Run(c, row, ts).value.base >= row.value.base
  {
    hide Step;
    if ts == [] {
    } else {
      RunKeeps(c, row, ts[..|ts| - 1]);
      StepKeeps(c, Run(c, row, ts[..|ts| - 1]), ts[|ts| - 1]);
    }
  }

  /** A visible edge whose floor has reached the hide level stays visible for ever. */
  lemma {:induction false} FlooredEdgeNeverHides(c: MemoryConfig, row: Row, ts: seq<Touch>)
    requires EdgeConfig(c) && RowOk(c, row) && TouchesOk(ts)
    requires row.visible && row.base >= c.hide_
    ensures Run(c, Some(row), ts).Some? && Run(c, Some(row), ts).value.visible
  {
    hide Step;
    if ts == [] {
    } else {
      var front := ts[..|ts| - 1];
      FlooredEdgeNeverHides(c, row, front);
      RunKeeps(c, Some(row), front);
      StepKeeps(c, Run(c, Some(row), front), ts[|ts| - 1]);
    }
  }

  // Closed forms.

  /** n confirming passes close the gap to certainty by (1 - alpha)^n. */
  lemma {:induction false} ConfirmsClosedForm(c: MemoryConfig, row: Row, es: seq<Edge>, ts: real)
    ensures var out := ConfirmAll(c, Some(row), es, ts);
            out.Some? && out.value.confidence == 1.0 - Pow(1.0 - c.alpha, |es|) * (1.0 - row.confidence)
            && out.value.hits == row.hits + |es|
  {
    hide Rise, Fall;
    if es == [] {
    } else {
      var k := |es| - 1;
      ConfirmsClosedForm(c, row, es[..k], ts);
      var x := ConfirmAll(c, Some(row), es[..k], ts).value.confidence;
      GapStep(c.alpha, x, Pow(1.0 - c.alpha, k), 1.0 - row.confidence);
    }
  }

  lemma GapStep(alpha: real, x: real, p: real, d: real)
    requires x == 1.0 - p * d
    ensures Rise(alpha, x) == 1.0 - ((1.0 - alpha) * p) * d
  {
  }

  /** A pass that only lets the pair decay. */
  predicate Quiet(t: Touch) {
    !t.seeded && t.confirms == [] && t.present
  }

  /** x after k falls. */
  function FallN(keep: real, x: real, k: nat): real {
    if k == 0 then x else Fall(keep, FallN(keep, x, k - 1))
  }

  lemma {:induction false} FallNIsPower(keep: real, x: real, k: nat)
    ensures FallN(keep, x, k) == Pow(keep, k) * x
  {
    if k == 0 {
    } else {
      FallNIsPower(keep, x, k - 1);
    }
  }

  lemma {:induction false} FallNBounds(keep: real, x: real, k: nat)
    requires 0.0 <= keep <= 1.0 && 0.0 <= x
    ensures 0.0 <= FallN(keep, x, k) <= x
  {
    hide Fall;
    if k == 0 {
    } else {
      FallNBounds(keep, x, k - 1);
      FallBounds(keep, FallN(keep, x, k - 1));
    }
  }

  /** k quiet passes leave the larger of the floor and confidence * (1 - decay)^k. */
  lemma DecayClosedForm(c: MemoryConfig, row: Row, ts: seq<Touch>)
    requires EdgeConfig(c) && RowOk(c, row) && AllQuiet(ts)
    ensures var out := Run(c, Some(row), ts);
            out.Some? && out.value.base == row.base
            && out.value.confidence == Max(row.base, FallN(1.0 - c.decay, row.confidence, |ts|))
  {
    SilenceLeaves(c, row, ts);
  }

  // Hysteresis: how soon a shown edge can be hidden.

  /** How many passes of a run let the pair decay. */
  function Decays(ts: seq<Touch>): nat {
    if ts == [] then 0
    else Decays(ts[..|ts| - 1]) + if ts[|ts| - 1].confirms == [] && ts[|ts| - 1].present then 1 else 0
  }

  /** An edge that reached `show` stays visible as long as show * (1 - decay)^k >= hide, where k
      counts the decaying passes only: whatever confirms or absences come in between. */
  lemma {:induction false} ShownEdgeOutlivesDecays(c: MemoryConfig, row: Row, ts: seq<Touch>)
    requires EdgeConfig(c) && RowOk(c, row) && TouchesOk(ts)
    requires row.visible && row.confidence >= c.show
    requires FallN(1.0 - c.decay, c.show, Decays(ts)) >= c.hide_
    ensures Run(c, Some(row), ts).Some? && Run(c, Some(row), ts).value.visible
    ensures Run(c, Some(row), ts).value.confidence >= FallN(1.0 - c.decay, c.show, Decays(ts))
  {
    hide Step, Fall, RowOk;
    if ts == [] {
    } else {
      var front, t := ts[..|ts| - 1], ts[|ts| - 1];
      var level := FallN(1.0 - c.decay, c.show, Decays(front));
      FallNBounds(1.0 - c.decay, c.show, Decays(front));
      FallBounds(1.0 - c.decay, level);
      ShownEdgeOutlivesDecays(c, row, front);
      RunKeeps(c, Some(row), front);
      StepKeepsVisible(c, Run(c, Some(row), front).value, t, level);
    }
  }

  lemma StepKeepsVisible(c: MemoryConfig, row: Row, t: Touch, level: real)
    requires EdgeConfig(c) && RowOk(c, row) && TouchOk(t) && row.visible
    requires row.confidence >= level && Kept(c, t, level) >= c.hide_
    ensures Step(c, Some(row), t).Some? && Step(c, Some(row), t).value.visible
    ensures Step(c, Some(row), t).value.confidence >= Kept(c, t, level)
  {
    hide Fall, Confirm;
    var seeded := if t.seeded then Seed(c, Some(row), t.ts) else row;
    FallMonotone(1.0 - c.decay, level, row.confidence);
    if t.confirms != [] {
      ConfirmAllKeeps(c, Some(seeded), t.confirms, t.ts);
    }
  }

  /** At the default parameters an edge that reached `show` survives any run with at most eight
      decaying passes... */
  lemma EightDecaysAreHeld(row: Row, ts: seq<Touch>)
    requires RowOk(DEFAULTS, row) && TouchesOk(ts) && row.visible && row.confidence >= DEFAULTS.show
    requires Decays(ts) <= 8
    ensures Run(DEFAULTS, Some(row), ts).Some? && Run(DEFAULTS, Some(row), ts).value.visible
  {
    DefaultsAreValid();
    DefaultLevels();
    FallNDecreases(0.9, 0.6, Decays(ts), 8);
    ShownEdgeOutlivesDecays(DEFAULTS, row, ts);
  }

  lemma {:induction false} FallNDecreases(keep: real, x: real, m: nat, n: nat)
    requires 0.0 <= keep <= 1.0 && 0.0 <= x && m <= n
    ensures FallN(keep, x, n) <= FallN(keep, x, m)
    decreases n
  {
    hide Fall;
    if m < n {
      FallNDecreases(keep, x, m, n - 1);
      FallNBounds(keep, x, n - 1);
      FallBounds(keep, FallN(keep, x, n - 1));
    }
  }

  lemma DefaultLevels()
    ensures FallN(0.9, 0.6, 8) >= 0.25 > FallN(0.9, 0.6, 9)
  {
    assert FallN(0.9, 0.6, 2) == 0.486;
    assert FallN(0.9, 0.6, 4) == 0.39366;
    assert FallN(0.9, 0.6, 6) == 0.3188646;
    assert FallN(0.9, 0.6, 8) == 0.258280326;
  }

  /** ... and from `show` or below, nine quiet passes do hide it, as soon as its floor is below the hide level. */
  lemma NinthQuietPassHides(row: Row, ts: seq<Touch>)
    requires RowOk(DEFAULTS, row) && row.confidence <= DEFAULTS.show && row.base < DEFAULTS.hide_
    requires |ts| >= 9 && AllQuiet(ts)
    ensures Run(DEFAULTS, Some(row), ts).Some? && !Run(DEFAULTS, Some(row), ts).value.visible
  {
    DefaultsAreValid();
    DefaultLevels();
    FallNDecreases(0.9, row.confidence, 9, |ts|);
    FallNOrder(0.9, row.confidence, 0.6, 9);
    QuietVisibleIff(DEFAULTS, row, ts);
  }

  lemma {:induction false} FallNOrder(keep: real, x: real, y: real, k: nat)
    requires 0.0 <= keep && x <= y
    ensures FallN(keep, x, k) <= FallN(keep, y, k)
  {
    hide Fall;
    if k == 0 {
    } else {
      FallNOrder(keep, x, y, k - 1);
      FallMonotone(keep, FallN(keep, x, k - 1), FallN(keep, y, k - 1));
    }
  }

  ghost predicate AllQuiet(ts: seq<Touch>) {
    forall i :: 0 <= i < |ts| ==> Quiet(ts[i])
  }

  /** After k quiet passes a shown edge is still shown exactly when its floor or its decayed confidence
      reaches the hide level. */
  lemma {:induction false} QuietVisibleIff(c: MemoryConfig, row: Row, ts: seq<Touch>)
    requires EdgeConfig(c) && RowOk(c, row) && AllQuiet(ts)
    ensures Run(c, Some(row), ts).Some?
    ensures Run(c, Some(row), ts).value.visible <==>
            row.visible && Max(row.base, FallN(1.0 - c.decay, row.confidence, |ts|)) >= c.hide_
  {
    hide Fall;
    DecayClosedForm(c, row, ts);
    if ts == [] {
    } else {
      var k := |ts| - 1;
      assert AllQuiet(ts[..k]) && Quiet(ts[k]);
      QuietVisibleIff(c, row, ts[..k]);
      FallNDecreases(1.0 - c.decay, row.confidence, k, k + 1);
    }
  }

  // Exactly which edges are permanent.

  /** The least that k falls take from a confidence that stays at the level or above. */
  function Loss(decay: real, level: real, k: nat): real {
    Statistics.Part(k as real, Statistics.Part(decay, level))
  }

  lemma LossOfOneMore(decay: real, level: real, k: nat)
    ensures Loss(decay, level, k + 1) == Loss(decay, level, k) + Statistics.Part(decay, level)
    ensures Loss(decay, level, 0) == 0.0
  {
    PartOfOneMore(k, Statistics.Part(decay, level));
  }

  lemma PartOfOneMore(k: nat, unit: real)
    ensures Statistics.Part((k + 1) as real, unit) == Statistics.Part(k as real, unit) + unit
    ensures Statistics.Part(0.0, unit) == 0.0
  {
  }

  lemma {:induction false} FallNSinks(decay: real, x: real, level: real, k: nat)
    requires 0.0 <= decay <= 1.0 && level > 0.0
    ensures FallN(1.0 - decay, x, k) < level || FallN(1.0 - decay, x, k) <= x - Loss(decay, level, k)
  {
    hide Fall, Loss;
    LossOfOneMore(decay, level, if k == 0 then 0 else k - 1);
    if k == 0 {
    } else {
      FallNSinks(decay, x, level, k - 1);
      FallLoses(decay, FallN(1.0 - decay, x, k - 1), level);
    }
  }

  lemma FallLoses(decay: real, y: real, level: real)
    requires 0.0 <= decay <= 1.0 && level > 0.0
    ensures y >= level ==> Fall(1.0 - decay, y) <= y - Statistics.Part(decay, level)
    ensures y < level ==> Fall(1.0 - decay, y) < level
  {
    FallSplit(decay, y);
    hide Fall, Statistics.Part;
    if y >= level {
      PartGrows(decay, level, y);
    } else if y >= 0.0 {
      Statistics.FractionOf(decay, y);
    } else {
      NegativeFall(decay, y);
    }
  }

  lemma FallSplit(decay: real, y: real)
    ensures Fall(1.0 - decay, y) == y - Statistics.Part(decay, y)
  {
  }

  lemma PartGrows(q: real, x: real, y: real)
    requires q >= 0.0 && x <= y
    ensures Statistics.Part(q, x) <= Statistics.Part(q, y)
  {
    Statistics.ProductOrder(x, y, q);
  }

  lemma NegativeFall(decay: real, y: real)
    requires decay <= 1.0 && y < 0.0
    ensures Fall(1.0 - decay, y) <= 0.0
  {
    var keep := 1.0 - decay;
    Statistics.ProductOrder(y, 0.0, keep);
  }

  /** Falls enough for the level, from any confidence. */
  lemma FallsBelow(decay: real, x: real, level: real, k: nat)
    requires 0.0 <= decay <= 1.0 && level > 0.0 && 0.0 <= x <= 1.0 && Loss(decay, level, k) > 1.0
    ensures FallN(1.0 - decay, x, k) < level
  {
    hide Loss, FallN;
    FallNSinks(decay, x, level, k);
    FallNBounds(1.0 - decay, x, k);
  }

  lemma EnoughFalls(decay: real, level: real) returns (k: nat)
    requires decay > 0.0 && level > 0.0
    ensures Loss(decay, level, k) > 1.0
  {
    PartIsPositive(decay, level);
    hide Statistics.Part;
    k := MoreThanOne(Statistics.Part(decay, level));
  }

  lemma PartIsPositive(x: real, y: real)
    requires x > 0.0 && y > 0.0
    ensures Statistics.Part(x, y) > 0.0
  {
  }

  lemma MoreThanOne(unit: real) returns (k: nat)
    requires unit > 0.0
    ensures Statistics.Part(k as real, unit) > 1.0
  {
    var q := 1.0 / unit;
    InverseOf(unit, q);
    QuotientIsPositive(q, unit);
    k := q.Floor + 1;
    TimesMore(q, k as real, unit);
  }

  lemma InverseOf(unit: real, q: real)
    requires unit > 0.0 && q == 1.0 / unit
    ensures q * unit == 1.0
  {
  }

  lemma QuotientIsPositive(q: real, unit: real)
    requires q * unit == 1.0 && unit > 0.0
    ensures q > 0.0
  {
    if q <= 0.0 {
      Statistics.ProductOrder(q, 0.0, unit);
    }
  }

  lemma TimesMore(q: real, k: real, unit: real)
    requires q < k && unit > 0.0
    ensures q * unit < k * unit
  {
    var gap := k - q;
    assert gap * unit > 0.0;
    assert k * unit == q * unit + gap * unit;
  }

  /** An edge whose floor is below the hide level is hidden by any silence that is long enough. */
  lemma LongSilenceHides(c: MemoryConfig, row: Row, ts: seq<Touch>)
    requires EdgeConfig(c) && RowOk(c, row) && row.base < c.hide_ && AllQuiet(ts)
    requires Loss(c.decay, c.hide_, |ts|) > 1.0
    ensures Run(c, Some(row), ts).Some? && !Run(c, Some(row), ts).value.visible
  {
    hide Loss, FallN, Run;
    QuietVisibleIff(c, row, ts);
    FallsBelow(c.decay, row.confidence, c.hide_, |ts|);
  }

  ghost predicate StaysVisible(c: MemoryConfig, row: Row, ts: seq<Touch>) {
    Run(c, Some(row), ts).Some? && Run(c, Some(row), ts).value.visible
  }

  function Silence(n: nat): (ts: seq<Touch>)
    ensures |ts| == n && AllQuiet(ts) && TouchesOk(ts)
  {
    seq(n, _ => Touch(false, [], true, 0.0))
  }

  /** Without decay nothing that is shown is hidden. */
  lemma {:induction false} UndecayedNeverHides(c: MemoryConfig, row: Row, ts: seq<Touch>)
    requires EdgeConfig(c) && c.decay == 0.0 && RowOk(c, row) && row.visible && TouchesOk(ts)
    ensures StaysVisible(c, row, ts)
  {
    hide Step, RowOk;
    if ts == [] {
    } else {
      var front, t := ts[..|ts| - 1], ts[|ts| - 1];
      UndecayedNeverHides(c, row, front);
      RunKeeps(c, Some(row), front);
      var r := Run(c, Some(row), front).value;
      assert r.confidence >= c.hide_ by {
        assert RowOk(c, r);
        VisibleIsAboveHide(c, r);
      }
      assert Kept(c, t, c.hide_) == c.hide_;
      StepKeepsVisible(c, r, t, c.hide_);
    }
  }

  lemma VisibleIsAboveHide(c: MemoryConfig, r: Row)
    requires RowOk(c, r) && r.visible
    ensures r.confidence >= c.hide_
  {
  }

  /** A visible edge is never hidden again, whatever happens, exactly when nothing decays or its floor has reached
      the hide level. */
  lemma PermanentIff(c: MemoryConfig, row: Row)
    requires EdgeConfig(c) && RowOk(c, row) && row.visible
    ensures (forall ts :: TouchesOk(ts) ==> StaysVisible(c, row, ts)) <==> c.decay == 0.0 || row.base >= c.hide_
  {
    hide Run, Loss;
    if c.decay == 0.0 {
      forall ts | TouchesOk(ts)
        ensures StaysVisible(c, row, ts)
      {
        UndecayedNeverHides(c, row, ts);
      }
    } else if row.base >= c.hide_ {
      forall ts | TouchesOk(ts)
        ensures StaysVisible(c, row, ts)
      {
        FlooredEdgeNeverHides(c, row, ts);
      }
    } else {
      var n := EnoughFalls(c.decay, c.hide_);
      LongSilenceHides(c, row, Silence(n));
      assert !StaysVisible(c, row, Silence(n));
    }
  }

  lemma ConfirmedOnce(c: MemoryConfig, row: Option<Row>, e: Edge, ts: real)
    ensures ConfirmAll(c, row, [e], ts) == Some(Confirm(c, row, e, ts))
  {
    assert [e][..0] == [];
  }

  lemma RunOfTwo(c: MemoryConfig, row: Option<Row>, a: Touch, b: Touch)
    ensures Run(c, row, [a, b]) == Step(c, Step(c, row, a), b)
  {
    hide Step;
    assert [a, b][..1] == [a] && [a][..0] == [];
    assert Run(c, row, [a]) == Step(c, row, a);
  }

  /** At the defaults two confirmations from scratch already pin an edge: visible from then on,
      in every continuation of the run. */
  lemma TwoConfirmsArePermanent(first: Touch, second: Touch, e1: Edge, e2: Edge, rest: seq<Touch>)
    requires first.confirms == [e1] && second.confirms == [e2] && !first.seeded && !second.seeded
    requires TouchesOk(rest)
    ensures var row := Run(DEFAULTS, None, [first, second]);
            row.Some? && row.value.confidence == 0.64 && row.value.base == 0.256
            && Run(DEFAULTS, row, rest).Some? && Run(DEFAULTS, row, rest).value.visible
  {
    DefaultsAreValid();
    var c := DEFAULTS;
    var r1 := Confirm(c, None, e1, first.ts);
    var r2 := Confirm(c, Some(r1), e2, second.ts);
    ConfirmedOnce(c, None, e1, first.ts);
    ConfirmedOnce(c, Some(r1), e2, second.ts);
    RunOfTwo(c, None, first, second);
    FlooredEdgeNeverHides(c, r2, rest);
  }

  // Exactly which priors are safe.

  lemma {:induction false} RunSplits(c: MemoryConfig, row: Option<Row>, xs: seq<Touch>, ys: seq<Touch>)
    ensures Run(c, row, xs + ys) == Run(c, Run(c, row, xs), ys)
    decreases |ys|
  {
    hide Step;
    if ys == [] {
      assert xs + ys == xs;
    } else {
      var front := ys[..|ys| - 1];
      assert (xs + ys)[..|xs + ys| - 1] == xs + front;
      RunSplits(c, row, xs, front);
    }
  }

  lemma RunOfOne(c: MemoryConfig, row: Option<Row>, a: Touch)
    ensures Run(c, row, [a]) == Step(c, row, a)
  {
    hide Step;
    assert [a][..0] == [];
  }

  /** A confirmation, k quiet passes, then a pass that both seeds and confirms. */
  function Relapse(e: Edge, k: nat): (ts: seq<Touch>)
    ensures TouchesOk(ts)
  {
    [Touch(false, [e], true, 0.0)] + Silence(k) + [Touch(true, [e], true, 0.0)]
  }

  /** After that run the floor is at least the prior, the confidence one step above what decay left. */
  lemma RelapseLeaves(c: MemoryConfig, e: Edge, k: nat)
    requires EdgeRanges(c)
    ensures var out, left := Run(c, None, Relapse(e, k)), Max(FirstFloor(c), FallN(1.0 - c.decay, c.alpha, k));
            out.Some? && out.value.base >= c.prior && out.value.confidence == Rise(c.alpha, left)
  {
    hide Rise, Fall, FallN, Run, Step;
    var first, last := Touch(false, [e], true, 0.0), Touch(true, [e], true, 0.0);
    RunSplits(c, None, [first] + Silence(k), [last]);
    RunSplits(c, None, [first], Silence(k));
    RunOfOne(c, None, first);
    RunOfOne(c, Run(c, None, [first] + Silence(k)), last);
    var r1 := Confirm(c, None, e, 0.0);
    StepOfFirst(c, e);
    FallBounds(c.floorFrac, c.alpha);
    SilenceLeaves(c, r1, Silence(k));
    var r2 := Run(c, Some(r1), Silence(k)).value;
    StepOfLast(c, r2, e);
  }

  lemma StepOfFirst(c: MemoryConfig, e: Edge)
    ensures Step(c, None, Touch(false, [e], true, 0.0)) == Some(Confirm(c, None, e, 0.0))
    ensures Confirm(c, None, e, 0.0).confidence == c.alpha && Confirm(c, None, e, 0.0).base == Max(0.0, FirstFloor(c))
  {
    hide Confirm;
    ConfirmedOnce(c, None, e, 0.0);
    FirstConfirm(c, e);
  }

  lemma FirstConfirm(c: MemoryConfig, e: Edge)
    ensures Confirm(c, None, e, 0.0).confidence == c.alpha && Confirm(c, None, e, 0.0).base == Max(0.0, FirstFloor(c))
  {
  }

  lemma StepOfLast(c: MemoryConfig, r: Row, e: Edge)
    ensures var out := Step(c, Some(r), Touch(true, [e], true, 0.0));
            out.Some? && out.value.base >= c.prior && out.value.confidence == Rise(c.alpha, r.confidence)
  {
    hide Rise, Fall;
    ConfirmedOnce(c, Some(Seed(c, Some(r), 0.0)), e, 0.0);
  }

  /** As DecayClosedForm, for any row above its floor and any prior. */
  lemma {:induction false} SilenceLeaves(c: MemoryConfig, row: Row, ts: seq<Touch>)
    requires EdgeRanges(c) && 0.0 <= row.base <= row.confidence && AllQuiet(ts)
    ensures var out := Run(c, Some(row), ts);
            out.Some? && out.value.base == row.base
            && out.value.confidence == Max(row.base, FallN(1.0 - c.decay, row.confidence, |ts|))
  {
    hide Fall;
    if ts == [] {
      assert row.base <= row.confidence;
    } else {
      var k := |ts| - 1;
      SilenceLeaves(c, row, ts[..k]);
      assert Quiet(ts[k]);
      FallBounds(1.0 - c.decay, row.base);
      if FallN(1.0 - c.decay, row.confidence, k) < row.base {
        FallMonotone(1.0 - c.decay, FallN(1.0 - c.decay, row.confidence, k), row.base);
      }
    }
  }

  ghost predicate FloorHolds(c: MemoryConfig, ts: seq<Touch>) {
    Run(c, None, ts).Some? ==> Run(c, None, ts).value.base <= Run(c, None, ts).value.confidence
  }

  /** One confirmation reaches the prior, from the lowest confidence that can be left: the lowest floor, or, where
      nothing decays, alpha. */
  predicate PriorIsReached(c: MemoryConfig) {
    c.prior <= Rise(c.alpha, if c.decay > 0.0 then FirstFloor(c) else c.alpha)
  }

  /** The floor stays below the confidence in every run exactly when one confirmation reaches the prior: from the
      lowest floor, or, where nothing decays, from the lowest confirmed confidence. */
  lemma PriorIsSafeIff(c: MemoryConfig, e: Edge)
    requires EdgeRanges(c)
    ensures (forall ts :: TouchesOk(ts) ==> FloorHolds(c, ts)) <==> PriorIsReached(c)
  {
    hide Run, Rise, Fall, FallN, Relapse, Loss;
    if PriorIsReached(c) {
      forall ts | TouchesOk(ts)
        ensures FloorHolds(c, ts)
      {
        if c.decay > 0.0 {
          RunKeeps(c, None, ts);
        } else {
          UndecayedRunIsSafe(c, ts);
        }
      }
    } else if c.decay > 0.0 {
      var gap := c.prior - Rise(c.alpha, FirstFloor(c));
      var k := EnoughFalls(c.decay, gap);
      RelapseLeaves(c, e, k);
      FallsBelow(c.decay, c.alpha, gap, k);
      FallBounds(c.floorFrac, c.alpha);
      RiseIsShort(c.alpha, FirstFloor(c), FallN(1.0 - c.decay, c.alpha, k), c.prior);
      assert !FloorHolds(c, Relapse(e, k));
    } else {
      var first, second := Touch(false, [e], true, 0.0), Touch(true, [e], true, 0.0);
      PriorAboveAlphaBreaksFloor(c, first, second, e);
      assert TouchesOk([first, second]) && !FloorHolds(c, [first, second]);
    }
  }

  /** What holds without decay: no confidence falls under the prior or under alpha, whichever is lower. */
  ghost predicate Undecayed(c: MemoryConfig, r: Row) {
    InOrder(0.0, r) && Min(c.prior, c.alpha) <= r.confidence
  }

  ghost predicate MidUndecayed(c: MemoryConfig, r: Row) {
    0.0 <= r.base <= Max(r.confidence, c.prior) && Min(c.prior, c.alpha) <= r.confidence && 0.0 <= r.confidence <= 1.0
  }

  lemma {:induction false} ConfirmsOverPrior(c: MemoryConfig, row: Option<Row>, es: seq<Edge>, ts: real)
    requires EdgeRanges(c) && c.prior <= Rise(c.alpha, c.alpha) && es != []
    requires row.Some? ==> MidUndecayed(c, row.value)
    ensures ConfirmAll(c, row, es, ts).Some? && Undecayed(c, ConfirmAll(c, row, es, ts).value)
  {
    hide Rise, Fall;
    var front := es[..|es| - 1];
    var before := ConfirmAll(c, row, front, ts);
    if front != [] {
      ConfirmsOverPrior(c, row, front, ts);
    }
    FallBounds(c.floorFrac, c.alpha);
    if before.Some? {
      var x := before.value.confidence;
      RiseBounds(c.alpha, x);
      FallBounds(c.floorFrac, Rise(c.alpha, x));
      if x >= c.alpha {
        RiseMonotone(c.alpha, c.alpha, x);
      }
    }
  }

  lemma {:induction false} UndecayedRunIsSafe(c: MemoryConfig, ts: seq<Touch>)
    requires EdgeRanges(c) && c.decay == 0.0 && c.prior <= Rise(c.alpha, c.alpha) && TouchesOk(ts)
    ensures Run(c, None, ts).Some? ==> Undecayed(c, Run(c, None, ts).value)
  {
    hide Rise, Confirm;
    if ts == [] {
    } else {
      var front, t := ts[..|ts| - 1], ts[|ts| - 1];
      UndecayedRunIsSafe(c, front);
      var row := Run(c, None, front);
      var seeded := if t.seeded then Some(Seed(c, row, t.ts)) else row;
      if t.confirms != [] {
        ConfirmsOverPrior(c, seeded, t.confirms, t.ts);
      }
    }
  }

  lemma RiseIsShort(alpha: real, x: real, y: real, p: real)
    requires 0.0 <= alpha <= 1.0 && 0.0 <= x && Rise(alpha, x) < p && y < p - Rise(alpha, x)
    ensures Rise(alpha, Max(x, y)) < p
  {
    var rest := 1.0 - alpha;
    Statistics.ProductOrder(0.0, x, rest);
    assert Rise(alpha, x) == alpha + x * rest && Rise(alpha, y) == alpha + y * rest;
    if y >= 0.0 {
      Statistics.ProductOrder(0.0, alpha, y);
      assert y * rest == y - alpha * y;
    }
  }

  /** Whatever the decay, a prior that even the second of two confirmations does not reach is unsafe. */
  lemma PriorAboveAlphaBreaksFloor(c: MemoryConfig, first: Touch, second: Touch, e: Edge)
    requires 0.0 <= c.alpha <= 1.0 && 0.0 <= c.floorFrac <= 1.0 && Rise(c.alpha, c.alpha) < c.prior <= 1.0
    requires first == Touch(false, [e], true, first.ts) && second == Touch(true, [e], true, second.ts)
    ensures var row := Run(c, None, [first, second]);
            row.Some? && row.value.base > row.value.confidence
  {
    hide Rise, Fall;
    var r1 := Confirm(c, None, e, first.ts);
    ConfirmedOnce(c, None, e, first.ts);
    ConfirmedOnce(c, Some(Seed(c, Some(r1), second.ts)), e, second.ts);
    RunOfTwo(c, None, first, second);
    RiseBounds(c.alpha, c.alpha);
    FallBounds(c.floorFrac, c.alpha);
    FallBounds(c.floorFrac, Rise(c.alpha, c.alpha));
  }

  // Runs that are safe whatever the prior.

  ghost predicate InOrder(least: real, r: Row) {
    0.0 <= least <= r.base <= r.confidence <= 1.0
  }

  lemma {:induction false} ConfirmsKeepOrder(c: MemoryConfig, row: Option<Row>, es: seq<Edge>, ts: real, least: real)
    requires EdgeRanges(c) && least >= 0.0 && (row.Some? ==> InOrder(least, row.value)) && (row.None? ==> least == 0.0)
    ensures ConfirmAll(c, row, es, ts).Some? ==> InOrder(least, ConfirmAll(c, row, es, ts).value)
    ensures row.Some? ==> ConfirmAll(c, row, es, ts).Some?
  {
    hide Rise, Fall;
    if es == [] {
    } else {
      var before := ConfirmAll(c, row, es[..|es| - 1], ts);
      ConfirmsKeepOrder(c, row, es[..|es| - 1], ts, least);
      if before.Some? {
        RiseBounds(c.alpha, before.value.confidence);
        FallBounds(c.floorFrac, Rise(c.alpha, before.value.confidence));
      }
      FallBounds(c.floorFrac, c.alpha);
    }
  }

  lemma DecayKeepsOrder(c: MemoryConfig, r: Row, ts: real, least: real)
    requires EdgeRanges(c) && InOrder(least, r)
    ensures InOrder(least, Decay(c, r, ts))
  {
    hide Fall;
    FallBounds(1.0 - c.decay, r.confidence);
  }

  /** If a pair is seeded in every pass that confirms it, its floor lies between the prior and its
      confidence in every run, whatever the parameters in their ranges. */
  lemma {:induction false} SeededRunIsSafe(c: MemoryConfig, ts: seq<Touch>)
    requires EdgeRanges(c) && forall i :: 0 <= i < |ts| && ts[i].confirms != [] ==> ts[i].seeded
    ensures Run(c, None, ts).Some? ==> InOrder(c.prior, Run(c, None, ts).value)
  {
    hide Confirm, Decay;
    if ts == [] {
    } else {
      var front, t := ts[..|ts| - 1], ts[|ts| - 1];
      SeededRunIsSafe(c, front);
      var row := Run(c, None, front);
      if t.seeded {
        ConfirmsKeepOrder(c, Some(Seed(c, row, t.ts)), t.confirms, t.ts, c.prior);
        DecayKeepsOrder(c, Seed(c, row, t.ts), t.ts, c.prior);
      } else if row.Some? {
        DecayKeepsOrder(c, row.value, t.ts, c.prior);
      }
    }
  }

  /** So it is, with 0 for the prior, for a pair that is never seeded. */
  lemma {:induction false} UnseededRunIsSafe(c: MemoryConfig, ts: seq<Touch>)
    requires EdgeRanges(c) && forall i :: 0 <= i < |ts| ==> !ts[i].seeded
    ensures Run(c, None, ts).Some? ==> InOrder(0.0, Run(c, None, ts).value)
  {
    hide Confirm, Decay;
    if ts == [] {
    } else {
      var front, t := ts[..|ts| - 1], ts[|ts| - 1];
      UnseededRunIsSafe(c, front);
      var row := Run(c, None, front);
      ConfirmsKeepOrder(c, row, t.confirms, t.ts, 0.0);
      if row.Some? {
        DecayKeepsOrder(c, row.value, t.ts, 0.0);
      }
    }
  }

  // What is shown is believed, whatever the prior.

  /** A row in range; while it is visible its confidence is at least the hide level. */
  ghost predicate ShownIsHeld(c: MemoryConfig, r: Row) {
    0.0 <= r.base <= 1.0 && 0.0 <= r.confidence <= 1.0 && (r.visible ==> r.confidence >= c.hide_)
  }

  lemma {:induction false} ConfirmsKeepShown(c: MemoryConfig, row: Option<Row>, es: seq<Edge>, ts: real)
    requires EdgeRanges(c) && (row.Some? ==> ShownIsHeld(c, row.value))
    ensures ConfirmAll(c, row, es, ts).Some? ==> ShownIsHeld(c, ConfirmAll(c, row, es, ts).value)
  {
    hide Rise, Fall;
    if es == [] {
    } else {
      var before := ConfirmAll(c, row, es[..|es| - 1], ts);
      ConfirmsKeepShown(c, row, es[..|es| - 1], ts);
      FallBounds(c.floorFrac, c.alpha);
      if before.Some? {
        RiseBounds(c.alpha, before.value.confidence);
        FallBounds(c.floorFrac, Rise(c.alpha, before.value.confidence));
      }
    }
  }

  /** In every run a visible edge's confidence is at least the hide level, for every prior: only what decays can
      fall, and what decays below the level is hidden. */
  lemma {:induction false} VisibleIsConfident(c: MemoryConfig, ts: seq<Touch>)
    requires EdgeRanges(c)
    ensures Run(c, None, ts).Some? ==> ShownIsHeld(c, Run(c, None, ts).value)
  {
    hide Fall, Confirm;
    if ts == [] {
    } else {
      var front, t := ts[..|ts| - 1], ts[|ts| - 1];
      VisibleIsConfident(c, front);
      var row := Run(c, None, front);
      var seeded := if t.seeded then Some(Seed(c, row, t.ts)) else row;
      ConfirmsKeepShown(c, seeded, t.confirms, t.ts);
      if seeded.Some? {
        FallBounds(1.0 - c.decay, seeded.value.confidence);
      }
    }
  }

  // What one pass does to one row, case by case.

  /** The row before the pass, a freshly seeded one if there was none. */
  function Met(c: MemoryConfig, row: Option<Row>, t: Touch): Option<Row> {
    if t.seeded then Some(Seed(c, row, t.ts)) else row
  }

  lemma {:induction false} ConfirmAllMeans(c: MemoryConfig, row: Option<Row>, es: seq<Edge>, ts: real)
    requires EdgeRanges(c) && es != [] && (row.Some? ==> 0.0 <= row.value.confidence <= 1.0)
    ensures var out, last := ConfirmAll(c, row, es, ts), es[|es| - 1];
            && out.Some? && 0.0 <= out.value.confidence <= 1.0
            && (row.Some? ==> out.value.confidence >= row.value.confidence)
            && (out.value.visible <==> (row.Some? && row.value.visible) || out.value.confidence >= c.show)
            && out.value.phase == (if out.value.visible then Active else Confirming)
            && out.value.hits == (if row.Some? then row.value.hits else 0) + |es|
            && out.value.r == last.r && out.value.lag == last.lag && out.value.evidence == last.evidence
            && out.value.firstSeen == (if row.Some? then row.value.firstSeen else ts)
            && out.value.lastSeen == ts && out.value.updated == ts
  {
    hide Rise, Fall;
    var front := es[..|es| - 1];
    var before := ConfirmAll(c, row, front, ts);
    if front != [] {
      ConfirmAllMeans(c, row, front, ts);
    }
    if before.Some? {
      RiseBounds(c.alpha, before.value.confidence);
    }
  }

  /** A pass that confirms an edge shows it exactly if it was shown before or its confidence has now reached `show`; it
      counts its confirmations and keeps strength, lag and evidence of the last one. */
  lemma ConfirmingPass(c: MemoryConfig, row: Option<Row>, t: Touch)
    requires EdgeRanges(c) && t.confirms != [] && (row.Some? ==> 0.0 <= row.value.confidence <= 1.0)
    ensures var out, last := Step(c, row, t), t.confirms[|t.confirms| - 1];
            && out.Some?
            && (out.value.visible <==> (row.Some? && row.value.visible) || out.value.confidence >= c.show)
            && out.value.phase == (if out.value.visible then Active else Confirming)
            && out.value.hits == (if row.Some? then row.value.hits else 0) + |t.confirms|
            && out.value.r == last.r && out.value.lag == last.lag && out.value.evidence == last.evidence
            && out.value.firstSeen == (if row.Some? then row.value.firstSeen else t.ts)
            && out.value.lastSeen == t.ts && out.value.updated == t.ts
  {
    ConfirmAllMeans(c, Met(c, row, t), t.confirms, t.ts);
  }

  /** A pass that does not confirm an edge between running workloads takes its part of the confidence, down to the
      floor, and hides the edge exactly if that leaves less than `hide`; what was seen last is remembered. A witnessed
      pair without a row gets one at the prior, invisible and never hit; a row below the prior is lifted to it. */
  lemma QuietPass(c: MemoryConfig, row: Option<Row>, t: Touch)
    requires t.confirms == [] && t.present
    ensures Step(c, row, t).Some? <==> row.Some? || t.seeded
    ensures row.None? && t.seeded ==>
              var out := Step(c, row, t).value;
              && out.base == c.prior && out.confidence == Max(c.prior, c.prior * (1.0 - c.decay)) && !out.visible
              && out.hits == 0 && out.r == 0.0 && out.evidence == ["pvc"]
              && out.firstSeen == t.ts && out.lastSeen == t.ts
    ensures row.Some? ==>
              var was, out := row.value, Step(c, row, t).value;
              && out.base == (if t.seeded then Max(was.base, c.prior) else was.base)
              && out.confidence == Max(out.base, was.confidence * (1.0 - c.decay))
              && (out.visible <==> was.visible && out.confidence >= c.hide_)
              && out.hits == was.hits && out.r == was.r && out.lag == was.lag && out.evidence == was.evidence
              && out.firstSeen == was.firstSeen && out.lastSeen == was.lastSeen && out.updated == t.ts
    ensures Step(c, row, t).Some? ==>
              var out := Step(c, row, t).value;
              out.phase == if out.confidence <= out.base + 0.000000001 && out.base > 0.0 then Steady
                           else if out.visible then Decaying else Hidden
  {
  }

  /** While one of its workloads is gone an edge is neither seeded nor decays. */
  lemma AbsentPass(c: MemoryConfig, row: Option<Row>, t: Touch)
    requires t.confirms == [] && !t.present && TouchOk(t)
    ensures Step(c, row, t) == row
  {
  }

  lemma {:induction false} ConfirmsKeepFloor(c: MemoryConfig, row: Row, es: seq<Edge>, ts: real)
    ensures ConfirmAll(c, Some(row), es, ts).Some? && ConfirmAll(c, Some(row), es, ts).value.base >= row.base
  {
    if es == [] {
    } else {
      ConfirmsKeepFloor(c, row, es[..|es| - 1], ts);
    }
  }

  /** A pass that seeds a pair leaves it with a floor at the prior or above. */
  lemma SeededFloor(c: MemoryConfig, row: Option<Row>, t: Touch)
    requires t.seeded
    ensures Step(c, row, t).Some? && Step(c, row, t).value.base >= c.prior
  {
    hide Confirm;
    ConfirmsKeepFloor(c, Seed(c, row, t.ts), t.confirms, t.ts);
  }

  function ConfirmCount(ts: seq<Touch>): nat {
    if ts == [] then 0 else ConfirmCount(ts[..|ts| - 1]) + |ts[|ts| - 1].confirms|
  }

  /** Over every run `hits` counts the confirmations, all of them and nothing else. */
  lemma {:induction false} HitsAreConfirms(c: MemoryConfig, ts: seq<Touch>)
    requires EdgeRanges(c)
    ensures if Run(c, None, ts).Some? then Run(c, None, ts).value.hits == ConfirmCount(ts) else ConfirmCount(ts) == 0
  {
    hide Step, ConfirmAll;
    if ts == [] {
    } else {
      var front, t := ts[..|ts| - 1], ts[|ts| - 1];
      HitsAreConfirms(c, front);
      VisibleIsConfident(c, front);
      var row := Run(c, None, front);
      if t.confirms != [] {
        ConfirmingPass(c, row, t);
      } else if t.present {
        QuietPass(c, row, t);
      } else {
        UnseenPass(c, row, t);
      }
    }
  }

  lemma UnseenPass(c: MemoryConfig, row: Option<Row>, t: Touch)
    requires t.confirms == [] && !t.present
    ensures Step(c, row, t) == Met(c, row, t)
    ensures Step(c, row, t).Some? ==> Step(c, row, t).value.hits == if row.Some? then row.value.hits else 0
    ensures Step(c, row, t).Some? && Step(c, row, t).value.visible ==> row.Some? && row.value.visible
  {
  }

  /** The confidence reached `show` after some pass of the run. */
  ghost predicate ReachedShow(c: MemoryConfig, ts: seq<Touch>) {
    exists k :: 0 <= k <= |ts| && Run(c, None, ts[..k]).Some? && Run(c, None, ts[..k]).value.confidence >= c.show
  }

  /** The upper half of the hysteresis: whatever is visible was, at some time, believed at `show` or above. */
  lemma {:induction false} VisibleReachedShow(c: MemoryConfig, ts: seq<Touch>)
    requires EdgeRanges(c) && Run(c, None, ts).Some? && Run(c, None, ts).value.visible
    ensures ReachedShow(c, ts)
  {
    hide Step, ConfirmAll;
    if ts == [] {
    } else {
      var front, t := ts[..|ts| - 1], ts[|ts| - 1];
      var row := Run(c, None, front);
      VisibleIsConfident(c, front);
      if row.Some? && row.value.visible {
        VisibleReachedShow(c, front);
        var k :| 0 <= k <= |front| && Run(c, None, front[..k]).Some?
          && Run(c, None, front[..k]).value.confidence >= c.show;
        assert ts[..k] == front[..k];
      } else if t.confirms != [] {
        ConfirmingPass(c, row, t);
        assert ts[..|ts|] == ts;
      } else if t.present {
        QuietPass(c, row, t);
      } else {
        UnseenPass(c, row, t);
      }
    }
  }

  /** Seen once and then absent: with the parameters of a signal without a backbone, an edge is never shown. */
  lemma OneSightingIsNotShown(c: MemoryConfig, seen: Touch, quiet: Touch, e: Edge)
    requires c == DEFAULTS.(prior := 0.0, floorFrac := 0.0)
    requires seen == Touch(false, [e], true, seen.ts) && quiet == Touch(false, [], true, quiet.ts)
    ensures var row := Run(c, None, [seen, quiet]);
            row.Some? && row.value.confidence == 0.36 && row.value.base == 0.0 && !row.value.visible
  {
    RunOfTwo(c, None, seen, quiet);
    ConfirmedOnce(c, None, e, seen.ts);
  }
}
