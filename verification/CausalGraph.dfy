/** The graph one pass hands on: findings, accepted edges, ranking and blast radius. */
module CausalGraph {
  import opened Digraph
  import BlastRadius
  import Ranking
  import Workload

  datatype Finding = Finding(pod: string, onset: real, severity: real, onsets: nat)

  datatype Report = Report(findings: seq<Finding>, edges: seq<Edge>,
                         ranking: seq<Ranking.Verdict>, blast: seq<BlastRadius.Hit>)

  /** The onset of each finding; a later finding of the same pod replaces an earlier one. */
  function OnsetsOf(fs: seq<Finding>): map<string, real> {
    if fs == [] then map[] else OnsetsOf(fs[..|fs| - 1])[fs[|fs| - 1].pod := fs[|fs| - 1].onset]
  }

  function PodsOf(fs: seq<Finding>): (pods: seq<string>)
    ensures |pods| == |fs| && forall i :: 0 <= i < |fs| ==> pods[i] == fs[i].pod
  {
    seq(|fs|, i requires 0 <= i < |fs| => fs[i].pod)
  }

  /** The edge between workloads that an edge between pods stands for. */
  function WorkloadEdge(e: Edge): Edge {
    e.(src := Workload.StableWorkload(e.src), dst := Workload.StableWorkload(e.dst))
  }

  function WorkloadEdges(es: seq<Edge>): (ws: seq<Edge>)
    ensures |ws| == |es| && forall i :: 0 <= i < |es| ==> ws[i] == WorkloadEdge(es[i])
  {
    seq(|es|, i requires 0 <= i < |es| => WorkloadEdge(es[i]))
  }

  /** The onset of a pod is that of its last finding. */
  lemma {:induction false} OnsetIsLast(fs: seq<Finding>, pod: string)
    ensures pod in OnsetsOf(fs) <==> exists i :: 0 <= i < |fs| && fs[i].pod == pod
    ensures forall i :: 0 <= i < |fs| && fs[i].pod == pod && (forall j :: i < j < |fs| ==> fs[j].pod != pod) ==>
              pod in OnsetsOf(fs) && OnsetsOf(fs)[pod] == fs[i].onset
  {
    if fs == [] {
    } else {
      var n := |fs| - 1;
      OnsetIsLast(fs[..n], pod);
      assert forall i :: 0 <= i < n ==> fs[..n][i] == fs[i];
    }
  }
}
