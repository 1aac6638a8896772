/** First half of a pass: which pods show an incident, where its centre is, and when each pod was hit. */
module Detection {
  import opened Common
  import opened Statistics
  import D = Detectors
  import Gate

  const MIN_ZPEAK := 3.0

  /** Onsets too weak to mean anything are dropped. */
  ghost function StrongOnsets(os: seq<D.Onset>): (rs: seq<D.Onset>)
    ensures forall o :: o in rs <==> o in os && Abs(o.zpeak) >= MIN_ZPEAK
  {
    if os == [] then []
    else
      assert os == os[..|os| - 1] + [os[|os| - 1]];
      StrongOnsets(os[..|os| - 1]) + if Abs(os[|os| - 1].zpeak) >= MIN_ZPEAK then [os[|os| - 1]] else []
  }

  method Strong(os: seq<D.Onset>) returns (rs: seq<D.Onset>)
    ensures rs == StrongOnsets(os)
  {
    rs := [];
    for i := 0 to |os|
      invariant rs == StrongOnsets(os[..i])
    {
      if Abs(os[i].zpeak) >= MIN_ZPEAK {
        rs := rs + [os[i]];
      }
      assert os[..i + 1][..i] == os[..i];
    }
    assert os[..|os|] == os;
  }

  /** What a pod is judged against: nothing (None), or the learned thresholds, absent while immature. */
  type Thresholds = Option<map<string, Option<real>>>

  /** The pod's 90th percentile clears its learned band, if bands are in use. */
  predicate Deviates(baselines: Thresholds, recent: nat, pod: string, vec: seq<real>)
    requires vec != []
  {
    match baselines
    case None => true
    case Some(b) =>
      pod in b && b[pod].Some? && P90(LastN(vec, recent)) > b[pod].value
  }

  /** A pod is an incident when it has a strong onset and deviates from its own normal; an empty vector
      has no onset. */
  ghost predicate IsIncident(baselines: Thresholds, recent: nat, pod: string, vec: seq<real>)
    ensures IsIncident(baselines, recent, pod, vec) ==> vec != []
  {
    StrongOnsets(D.OnsetsOfSignal(vec)) != [] && Deviates(baselines, recent, pod, vec)
  }

  /** The incident pods, in the order of the input. */
  ghost function ActivePods(baselines: Thresholds, recent: nat, pods: seq<string>,
                            vectors: map<string, seq<real>>): (r: seq<string>)
    requires forall p :: p in pods ==> p in vectors
    ensures forall p :: p in r <==> p in pods && IsIncident(baselines, recent, p, vectors[p])
  {
    if pods == [] then []
    else
      var p := pods[|pods| - 1];
      assert pods == pods[..|pods| - 1] + [p];
      ActivePods(baselines, recent, pods[..|pods| - 1], vectors)
      + if IsIncident(baselines, recent, p, vectors[p]) then [p] else []
  }

  type Raw = map<string, seq<D.Onset>>

  /** Every active pod with its strong onsets. */
  ghost predicate RawOf(raw: Raw, active: seq<string>, vectors: map<string, seq<real>>) {
    && (forall p :: p in raw <==> p in active)
    && forall p :: p in raw ==> p in vectors && raw[p] == StrongOnsets(D.OnsetsOfSignal(vectors[p])) != []
  }

  lemma ActivePodsStep(baselines: Thresholds, recent: nat, pods: seq<string>, vectors: map<string, seq<real>>)
    requires forall p :: p in pods ==> p in vectors
    ensures pods == [] ==> ActivePods(baselines, recent, pods, vectors) == []
    ensures pods != [] ==>
              var k := |pods| - 1;
              ActivePods(baselines, recent, pods, vectors) ==
              ActivePods(baselines, recent, pods[..k], vectors)
              + if IsIncident(baselines, recent, pods[k], vectors[pods[k]]) then [pods[k]] else []
  {
    hide IsIncident;
  }

  lemma IncidentMeans(baselines: Thresholds, recent: nat, pod: string, vec: seq<real>)
    ensures StrongOnsets(D.OnsetsOfSignal(vec)) != [] ==> vec != []
    ensures IsIncident(baselines, recent, pod, vec) <==>
            StrongOnsets(D.OnsetsOfSignal(vec)) != [] && Deviates(baselines, recent, pod, vec)
  {
  }

  method DetectIncidents(pods: seq<string>, vectors: map<string, seq<real>>, baselines: Thresholds, recent: nat)
    returns (active: seq<string>, raw: Raw)
    requires forall p :: p in pods ==> p in vectors
    ensures active == ActivePods(baselines, recent, pods, vectors)
    ensures RawOf(raw, active, vectors)
  {
    hide IsIncident, Deviates, StrongOnsets, D.OnsetsOfSignal, ActivePods;
    ActivePodsStep(baselines, recent, pods[..0], vectors);
    active, raw := [], map[];
    for i := 0 to |pods|
      invariant active == ActivePods(baselines, recent, pods[..i], vectors)
      invariant RawOf(raw, active, vectors)
    {
      var pod := pods[i];
      assert pods[..i + 1][..i] == pods[..i];
      var onsets := D.CusumOnsets(vectors[pod]);
      var strong := Strong(onsets);
      ActivePodsStep(baselines, recent, pods[..i + 1], vectors);
      IncidentMeans(baselines, recent, pod, vectors[pod]);
      if strong != [] && Deviates(baselines, recent, pod, vectors[pod]) {
        active := active + [pod];
        raw := raw[pod := strong];
      }
    }
    assert pods[..|pods|] == pods;
  }

  // The centre of the event.

  /** The first onset of greatest |z|. */
  function Sharpest(os: seq<D.Onset>): (o: D.Onset)
    requires os != []
    ensures o in os && forall x :: x in os ==> Abs(x.zpeak) <= Abs(o.zpeak)
  {
    if |os| == 1 then os[0]
    else
      var best, last := Sharpest(os[..|os| - 1]), os[|os| - 1];
      assert os == os[..|os| - 1] + [last];
      if Abs(last.zpeak) > Abs(best.zpeak) then last else best
  }

  /** The active pods that share a resource with another active pod. */
  function CoupledPods(w: Gate.Witness, active: seq<string>, pods: seq<string>): (r: seq<string>)
    ensures forall p :: p in r ==> p in pods
  {
    if pods == [] then []
    else
      var p := pods[|pods| - 1];
      assert pods == pods[..|pods| - 1] + [p];
      CoupledPods(w, active, pods[..|pods| - 1])
      + if exists q :: q in active && q != p && Gate.Couples(w, p, q) then [p] else []
  }

  lemma {:induction false} CoupledPodsMeans(w: Gate.Witness, active: seq<string>, pods: seq<string>, p: string)
    ensures p in CoupledPods(w, active, pods) <==>
            p in pods && exists q :: q in active && q != p && Gate.Couples(w, p, q)
  {
    hide Gate.Couples;
    if pods == [] {
    } else {
      CoupledPodsMeans(w, active, pods[..|pods| - 1], p);
      assert pods == pods[..|pods| - 1] + [pods[|pods| - 1]];
    }
  }

  /** The pods among which the centre is looked for: the coupled ones, or all if none is coupled. */
  function CentreCandidates(w: Gate.Witness, active: seq<string>): (r: seq<string>)
    ensures forall p :: p in r ==> p in active
  {
    if CoupledPods(w, active, active) != [] then CoupledPods(w, active, active) else active
  }

  /** The sharpest onset over the candidates, the first on ties. */
  function CentreOf(candidates: seq<string>, raw: Raw): Option<D.Onset>
    requires forall p :: p in candidates ==> p in raw && raw[p] != []
  {
    if candidates == [] then None
    else
      var best, o := CentreOf(candidates[..|candidates| - 1], raw), Sharpest(raw[candidates[|candidates| - 1]]);
      if best.None? || Abs(o.zpeak) > Abs(best.value.zpeak) then Some(o) else best
  }

  /** c is an onset of some candidate, and no candidate has one of greater |z|. */
  ghost predicate IsSharpest(candidates: seq<string>, raw: Raw, c: D.Onset)
    requires forall p :: p in candidates ==> p in raw
  {
    && (exists p :: p in candidates && c in raw[p])
    && (forall p, o :: p in candidates && o in raw[p] ==> Abs(o.zpeak) <= Abs(c.zpeak))
  }

  lemma {:induction false} CentreIsSharpest(candidates: seq<string>, raw: Raw)
    requires forall p :: p in candidates ==> p in raw && raw[p] != []
    ensures CentreOf(candidates, raw).None? <==> candidates == []
    ensures CentreOf(candidates, raw).Some? ==> IsSharpest(candidates, raw, CentreOf(candidates, raw).value)
  {
    hide IsSharpest, Sharpest, CentreOf;
    CentreStep(candidates, raw);
    if candidates == [] {
    } else {
      var front, last := candidates[..|candidates| - 1], candidates[|candidates| - 1];
      assert candidates == front + [last];
      CentreIsSharpest(front, raw);
      SharpestOfMore(front, last, raw, CentreOf(front, raw), Sharpest(raw[last]));
    }
  }

  lemma CentreStep(candidates: seq<string>, raw: Raw)
    requires forall p :: p in candidates ==> p in raw && raw[p] != []
    ensures candidates == [] ==> CentreOf(candidates, raw) == None
    ensures candidates != [] ==>
              var best, o := CentreOf(candidates[..|candidates| - 1], raw), Sharpest(raw[candidates[|candidates| - 1]]);
              CentreOf(candidates, raw) == if best.None? || Abs(o.zpeak) > Abs(best.value.zpeak) then Some(o) else best
  {
  }

  lemma SharpestOfMore(front: seq<string>, last: string, raw: Raw, best: Option<D.Onset>, o: D.Onset)
    requires (forall p :: p in front ==> p in raw) && last in raw && o in raw[last]
    requires forall x :: x in raw[last] ==> Abs(x.zpeak) <= Abs(o.zpeak)
    requires best.None? <==> front == []
    requires best.Some? ==> IsSharpest(front, raw, best.value)
    ensures IsSharpest(front + [last], raw,
                       if best.None? || Abs(o.zpeak) > Abs(best.value.zpeak) then o else best.value)
  {
    hide Abs;
    assert last in front + [last];
  }

  // The onset of each pod in this event.

  function Distance(a: nat, b: nat): nat {
    if a < b then b - a else a - b
  }

  /** The first onset nearest to the centre; without a centre, the first onset. */
  function EventOnset(os: seq<D.Onset>, centre: Option<D.Onset>): (o: D.Onset)
    requires os != []
    ensures o in os
    ensures centre.Some? ==> forall x :: x in os ==>
              Distance(o.idx, centre.value.idx) <= Distance(x.idx, centre.value.idx)
  {
    if centre.None? || |os| == 1 then os[0]
    else
      var best, last := EventOnset(os[..|os| - 1], centre), os[|os| - 1];
      assert os == os[..|os| - 1] + [last];
      if Distance(last.idx, centre.value.idx) < Distance(best.idx, centre.value.idx) then last else best
  }

  function OnsetSeconds(o: D.Onset): real {
    o.idx as real * D.DT_S
  }

  /** The disturbed writers, each with the time its own disturbance started. */
  ghost predicate WriteOnsetsOf(onset: map<string, real>, pods: seq<string>, writes: map<string, seq<real>>,
                                centre: Option<D.Onset>)
    requires forall p :: p in pods ==> p in writes
  {
    && (forall p :: p in onset <==> p in pods && StrongOnsets(D.OnsetsOfSignal(writes[p])) != [])
    && (forall p :: p in pods && StrongOnsets(D.OnsetsOfSignal(writes[p])) != [] ==>
          p in onset && onset[p] == OnsetSeconds(EventOnset(StrongOnsets(D.OnsetsOfSignal(writes[p])), centre)))
  }

  method WriteOnsets(pods: seq<string>, writes: map<string, seq<real>>, centre: Option<D.Onset>)
    returns (onset: map<string, real>)
    requires forall p :: p in pods ==> p in writes
    ensures WriteOnsetsOf(onset, pods, writes, centre)
  {
    hide D.OnsetsOfSignal, StrongOnsets, EventOnset, OnsetSeconds;
    onset := map[];
    for i := 0 to |pods|
      invariant WriteOnsetsOf(onset, pods[..i], writes, centre)
    {
      var found := D.CusumOnsets(writes[pods[i]]);
      var strong := Strong(found);
      if strong != [] {
        onset := onset[pods[i] := OnsetSeconds(EventOnset(strong, centre))];
      }
      assert pods[..i + 1] == pods[..i] + [pods[i]];
    }
    assert pods[..|pods|] == pods;
  }
}
