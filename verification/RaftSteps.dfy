/** What single steps do, where a run does not show it by itself. */
module RaftSteps {
  import opened RaftTypes
  import opened RaftSpec
  import opened RaftCluster
  import opened RaftRuns
  import opened RaftTheorems
  import opened RaftCatchUp

  function Later(a: nat, b: nat): nat {
    if a < b then b else a
  }

  /** A message of an earlier term is ignored.  Any other but a vote request brings a node to its term, and one
      of a later term makes it a follower. */
  lemma TermAfterStep(n: Node, m: Message)
    requires WellFormed(m) && Tracked(n)
    ensures 0 < m.term < n.term ==> Step(n, m) == n
    ensures !m.Vote? ==> Step(n, m).term == Later(n.term, m.term)
    ensures !m.Vote? && m.term > n.term ==> Step(n, m).role == Follower
    ensures !m.Vote? || m.term > 0 ==> Step(n, m).term >= n.term
  {}

  // ---------------------------------------------------------------- tracks

  /** In every run a refusal does not move a next index.  A leader that probes ignores it; one that replicates
      probes from now on and sends the same entries again. */
  lemma NeverStepsBack(cs: seq<Cluster>, es: seq<Event>, i: nat, m: Message)
    requires IsRun(cs, es) && i < |cs| && m in cs[i].net && m.AppendRsp? && m.reject
    requires m.to in cs[i].nodes && m.from in cs[i].nodes && m.from != m.to
    requires cs[i].nodes[m.to].role == Leader && cs[i].nodes[m.to].term == m.term
    ensures var n := cs[i].nodes[m.to];
            && Tracked(n) && m.from in n.progress
            && var n', t := Step(n, m), n.progress[m.from];
               if t.state == Replicate then
                 && n' == n.(progress := n.progress[m.from := t.(state := Probe)], msgs := n.msgs + Added(n, n'))
                 && |Added(n, n')| == 1 && IsNextNow(n', m.from, Added(n, n')[0])
               else n' == n
  {
    var hs := RunOK(cs, es);
    assert ClusterOK(cs[i], hs[i]);
    assert m in Mail(hs[i]);
    TrackFacts(cs[i], hs[i], m.to, m.from);
    Host(cs[i], hs[i], m.to);
    RefusalHeard(cs[i].nodes[m.to], m, |hs[i].leaders[m.term].base|);
  }

  /** A peer that cannot be reached is probed, from the same index; nothing else changes. */
  lemma UnreachableProbes(n: Node, m: Message)
    requires m.Unreachable? && m.term == 0 && Tracked(n)
    ensures var n' := Step(n, m);
            if n.role == Leader && m.from in n.progress && n.progress[m.from].state == Replicate then
              n' == n.(progress := n.progress[m.from := n.progress[m.from].(state := Probe)])
            else n' == n
  {}

  // ---------------------------------------------------------------- rounds of the owner

  /** A round of the owner applies all that is committed and hands all messages to the network. */
  lemma ReadyAppliesAll(cs: seq<Cluster>, es: seq<Event>, i: nat, a: NodeId)
    requires IsRun(cs, es) && i < |es| && es[i] == Ready(a) && a in cs[i].nodes
    ensures a in cs[i + 1].nodes && a in cs[i + 1].walked
    ensures var n, n' := cs[i].nodes[a], cs[i + 1].nodes[a];
            && n' == n.(applied := n.committed, msgs := []) && n.committed <= |n.log|
            && cs[i + 1].walked[a] == n.log[..n.committed]
            && (forall m :: m in n.msgs ==> m in cs[i + 1].net)
  {
    assert Next(cs[i], cs[i + 1], es[i]);
    CommittedStays(cs, es, i, i + 1, a);
  }
}
