/** The rounds of a node's owner, in a run of the cluster. */
module RaftRounds {
  import opened RaftTypes
  import opened RaftCluster
  import opened RaftHost
  import RaftTheorems

  /** Whatever a node does between two rounds of its owner keeps the owner in step. */
  lemma StaysInStep(cs: seq<Cluster>, es: seq<Event>, i: nat, a: NodeId, appliedIndex: nat, storage: seq<LogEntry>)
    requires IsRun(cs, es) && i < |es| && a in cs[i].nodes && es[i] != Ready(a)
    requires InStep(cs[i].nodes[a], appliedIndex, storage)
    ensures a in cs[i + 1].nodes && InStep(cs[i + 1].nodes[a], appliedIndex, storage)
  {
    RaftTheorems.BetweenRounds(cs, es, i, a);
  }
}
