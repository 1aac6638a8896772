/** Pod names to workload names (`stable_workload`, and its twins `workload`). */
module Workload {

  const DASH := '-'

  predicate DashFree(s: string) {
    DASH !in s
  }

  /** One more character in front: a dash opens a new part, anything else extends the first. */
  function Extend(c: char, parts: seq<string>): (r: seq<string>)
    requires parts != [] && forall i :: 0 <= i < |parts| ==> DashFree(parts[i])
    ensures r != [] && forall i :: 0 <= i < |r| ==> DashFree(r[i])
  {
    if c == DASH then [""] + parts
    else
      assert DashFree([c] + parts[0]) by { assert DashFree(parts[0]); }
      [[c] + parts[0]] + parts[1..]
  }

  /** Python's s.split("-"): always at least one part, parts may be empty. */
  function Split(s: string): (parts: seq<string>)
    ensures parts != [] && forall i :: 0 <= i < |parts| ==> DashFree(parts[i])
  {
    if s == [] then [""] else Extend(s[0], Split(s[1..]))
  }

  /** Python's "-".join(parts). */
  function Join(parts: seq<string>): string {
    if parts == [] then ""
    else if |parts| == 1 then parts[0]
    else parts[0] + [DASH] + Join(parts[1..])
  }

  /** Drops the ReplicaSet and pod suffixes; names of one or two parts stay whole. */
  function StableWorkload(pod: string): string {
    var parts := Split(pod);
    if |parts| > 2 then Join(parts[..|parts| - 2]) else pod
  }

  lemma {:induction false} JoinUndoesSplit(s: string)
    ensures Join(Split(s)) == s
  {
    if s == [] {
    } else {
      JoinUndoesSplit(s[1..]);
      var rest := Split(s[1..]);
      assert s == [s[0]] + s[1..];
      if s[0] == DASH {
        assert ([""] + rest)[1..] == rest;
      } else {
        assert ([[s[0]] + rest[0]] + rest[1..])[1..] == rest[1..];
      }
    }
  }

  lemma {:induction false} SplitDashFree(s: string)
    requires DashFree(s)
    ensures Split(s) == [s]
  {
    if s == [] {
    } else {
      SplitDashFree(s[1..]);
      assert s[0] != DASH;
      assert s == [s[0]] + s[1..];
    }
  }

  lemma ExtendConcat(c: char, ps: seq<string>, qs: seq<string>)
    requires ps != [] && forall i :: 0 <= i < |ps| ==> DashFree(ps[i])
    requires forall i :: 0 <= i < |qs| ==> DashFree(qs[i])
    ensures Extend(c, ps + qs) == Extend(c, ps) + qs
  {
    assert (ps + qs)[1..] == ps[1..] + qs;
  }

  /** A dash cuts the name exactly there. */
  lemma {:induction false} SplitAtDash(s: string, t: string)
    ensures Split(s + [DASH] + t) == Split(s) + Split(t)
  {
    var st := s + [DASH] + t;
    if s == [] {
      assert st[1..] == t;
    } else {
      SplitAtDash(s[1..], t);
      assert st[1..] == s[1..] + [DASH] + t;
      ExtendConcat(s[0], Split(s[1..]), Split(t));
    }
  }

  lemma {:induction false} SplitUndoesJoin(parts: seq<string>)
    requires parts != [] && forall i :: 0 <= i < |parts| ==> DashFree(parts[i])
    ensures Split(Join(parts)) == parts
  {
    SplitDashFree(parts[0]);
    if |parts| <= 1 {
    } else {
      SplitUndoesJoin(parts[1..]);
      SplitAtDash(parts[0], Join(parts[1..]));
    }
  }

  /** Whatever the generation's two hashes are, the workload comes back. */
  lemma GenerationIsForgotten(w: string, replicaSet: string, pod: string)
    requires DashFree(replicaSet) && DashFree(pod)
    ensures StableWorkload(w + [DASH] + replicaSet + [DASH] + pod) == w
  {
    SplitAtDash(w + [DASH] + replicaSet, pod);
    SplitAtDash(w, replicaSet);
    SplitDashFree(replicaSet);
    SplitDashFree(pod);
    var parts := Split(w + [DASH] + replicaSet + [DASH] + pod);
    assert parts == Split(w) + [replicaSet, pod];
    assert parts[..|parts| - 2] == Split(w);
    JoinUndoesSplit(w);
  }

  lemma {:induction false} JoinSnoc(parts: seq<string>, last: string)
    requires parts != []
    ensures Join(parts + [last]) == Join(parts) + [DASH] + last
  {
    if |parts| == 1 {
      assert (parts + [last])[1..] == [last];
    } else {
      JoinSnoc(parts[1..], last);
      assert (parts + [last])[1..] == parts[1..] + [last];
    }
  }

  /** Exactly which pods answer to a workload. */
  lemma WorkloadOfPod(pod: string, w: string)
    ensures StableWorkload(pod) == w <==>
            if |Split(pod)| <= 2 then pod == w
            else exists a, b :: DashFree(a) && DashFree(b) && pod == w + [DASH] + a + [DASH] + b
  {
    var parts := Split(pod);
    if |parts| > 2 {
      var n := |parts|;
      var w0, a0, b0 := Join(parts[..n - 2]), parts[n - 2], parts[n - 1];
      JoinSnoc(parts[..n - 2], a0);
      assert parts[..n - 2] + [a0] == parts[..n - 1];
      JoinSnoc(parts[..n - 1], b0);
      assert parts[..n - 1] + [b0] == parts;
      JoinUndoesSplit(pod);
      assert pod == w0 + [DASH] + a0 + [DASH] + b0;
      forall a, b | DashFree(a) && DashFree(b) && pod == w + [DASH] + a + [DASH] + b
        ensures StableWorkload(pod) == w
      {
        GenerationIsForgotten(w, a, b);
      }
    }
  }
}
