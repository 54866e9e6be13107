/**
 A vote request needs a voter that has neither a vote nor a leader, or that has voted for the candidate before.
 Nothing ever gives a node back both, so its first choice is its last.
 */
module RaftBonds {
  import opened RaftTypes
  import opened RaftSpec
  import opened RaftHistory
  import opened RaftCompleteness
  import opened RaftCluster
  import opened RaftRuns
  import opened RaftTheorems

  /** The node has voted or has a leader. */
  predicate Bound(n: Node) {
    n.vote != NoNode || n.lead != NoNode
  }

  /** The vote is the old one, none, or for the node itself. */
  predicate KeepsVote(n: Node, n': Node) {
    n'.cfg == n.cfg && Bound(n') && (n'.vote == n.vote || n'.vote == NoNode || n'.vote == n.cfg.id)
  }

  /** What holds of the messages of a run. */
  predicate Named(n: Node, m: Message) {
    match m
    case Vote(_, _, _, _, _) => true
    case VoteRsp(_, _, _, _) => m.term <= n.term
    case Propose(_, _, _, _) => m.term > 0 ==> m.from != NoNode
    case Unreachable(_, _, _) => m.term == 0
    case _ => m.from != NoNode
  }

  lemma RoleKeepsVote(n: Node, m: Message)
    requires WellFormed(m) && Tracked(n) && n.cfg.id != NoNode && Bound(n) && Named(n, m)
    ensures KeepsVote(n, StepRole(n, m))
  {
    if m.Propose? && n.role == Leader {
      var n1 := BroadcastAppend(TakeProposal(n, m.entries));
      assert n1.vote == n.vote && n1.lead == n.lead;
    }
  }

  lemma StepKeepsVote(n: Node, m: Message)
    requires WellFormed(m) && Tracked(n) && n.cfg.id != NoNode && Bound(n) && Named(n, m)
    ensures KeepsVote(n, Step(n, m))
  {
    if !Stale(n, m) { RoleKeepsVote(CatchUp(n, m), m); }
  }

  lemma TimerKeepsVote(n: Node)
    requires n.cfg.id != NoNode && Bound(n)
    ensures KeepsVote(n, TimerFires(n))
  {}

  lemma NamedInRun(c: Cluster, h: Hist, m: Message)
    requires ClusterOK(c, h) && m in c.net && m.to in c.nodes
    ensures Named(c.nodes[m.to], m)
  {
    assert m in Mail(h);
    Host(c, h, m.to);
    if m.VoteRsp? { var t :| t in h.recs[m.to].votes && m.term <= t; }
  }

  lemma EventKeepsVote(c: Cluster, h: Hist, c': Cluster, e: Event, v: NodeId)
    requires ClusterOK(c, h) && Next(c, c', e) && v in c.nodes && Bound(c.nodes[v])
    ensures v in c'.nodes && KeepsVote(c.nodes[v], c'.nodes[v])
  {
    Host(c, h, v);
    if v == Actor(e) {
      match e
      case Deliver(m) =>
        NamedInRun(c, h, m);
        StepKeepsVote(c.nodes[v], m);
      case Local(_, m) => StepKeepsVote(c.nodes[v], m);
      case Timer(_) => TimerKeepsVote(c.nodes[v]);
      case Ready(_) =>
    }
  }

  lemma NextKeepsVote(cs: seq<Cluster>, es: seq<Event>, hs: seq<Hist>, k: nat, v: NodeId)
    requires IsRun(cs, es) && Explains(cs, es, hs) && k < |es| && v in cs[k].nodes && Bound(cs[k].nodes[v])
    ensures v in cs[k + 1].nodes && KeepsVote(cs[k].nodes[v], cs[k + 1].nodes[v])
  {
    assert ClusterOK(cs[k], hs[k]);
    assert Next(cs[k], cs[k + 1], es[k]);
    EventKeepsVote(cs[k], hs[k], cs[k + 1], es[k], v);
  }

  lemma KeepsVoteOn(n: Node, n1: Node, n2: Node)
    requires KeepsVote(n, n1) && KeepsVote(n1, n2)
    ensures KeepsVote(n, n2)
  {}

  /** If the node is bound at state k, event k keeps its vote. */
  ghost predicate KeptAt(cs: seq<Cluster>, k: nat, v: NodeId) {
    k + 1 < |cs| && v in cs[k].nodes && v in cs[k + 1].nodes
    && (Bound(cs[k].nodes[v]) ==> KeepsVote(cs[k].nodes[v], cs[k + 1].nodes[v]))
  }

  lemma {:induction false} VoteStays(cs: seq<Cluster>, i: nat, j: nat, v: NodeId)
    requires i <= j < |cs| && v in cs[i].nodes && Bound(cs[i].nodes[v])
    requires forall k: nat {:trigger KeptAt(cs, k, v)} :: i <= k < j ==> KeptAt(cs, k, v)
    ensures v in cs[j].nodes && KeepsVote(cs[i].nodes[v], cs[j].nodes[v])
    decreases j
  {
    if i < j {
      VoteStays(cs, i, j - 1, v);
      assert KeptAt(cs, j - 1, v);
      KeepsVoteOn(cs[i].nodes[v], cs[j - 1].nodes[v], cs[j].nodes[v]);
    }
  }

  // ---------------------------------------------------------------- theorems

  /** In every run a node that has voted or has had a leader stays so, and from then on votes for nobody but the
      candidate it had voted for then and itself. */
  lemma VoteIsSticky(cs: seq<Cluster>, es: seq<Event>, i: nat, j: nat, v: NodeId)
    requires IsRun(cs, es) && i <= j < |cs| && v in cs[i].nodes && Bound(cs[i].nodes[v])
    ensures v in cs[j].nodes && Bound(cs[j].nodes[v])
    ensures cs[j].nodes[v].vote in {cs[i].nodes[v].vote, NoNode, v}
  {
    var hs := RunOK(cs, es);
    forall k: nat {:trigger KeptAt(cs, k, v)} | i <= k < j ensures KeptAt(cs, k, v) {
      MembersStay(cs, es, i, k);
      MembersStay(cs, es, i, k + 1);
      if Bound(cs[k].nodes[v]) { NextKeepsVote(cs, es, hs, k, v); }
    }
    VoteStays(cs, i, j, v);
    assert ClusterOK(cs[i], hs[i]);
    IdOf(cs[i], hs[i], v);
  }

  lemma VoteInTerm(c: Cluster, h: Hist, v: NodeId, t: nat)
    requires ClusterOK(c, h) && v in c.nodes && c.nodes[v].term == t && v in h.recs && t in h.recs[v].votes
    ensures c.nodes[v].vote == h.recs[v].votes[t].cand
  {
    Host(c, h, v);
  }

  /** A vote that the history records was the node's vote at some state of the run. */
  lemma {:induction false} VoteHappened(cs: seq<Cluster>, es: seq<Event>, hs: seq<Hist>, j: nat, v: NodeId, t: nat)
    returns (k: nat)
    requires Explains(cs, es, hs) && j < |cs| && v in hs[j].recs && t in hs[j].recs[v].votes
    ensures k <= j && v in cs[k].nodes && cs[k].nodes[v].term == t
    ensures v in hs[k].recs && t in hs[k].recs[v].votes && hs[k].recs[v].votes[t] == hs[j].recs[v].votes[t]
    decreases j
  {
    assert ClusterOK(cs[j], hs[j]);
    if j == 0 {
      assert false;
    } else {
      var e := es[j - 1];
      if t in hs[j - 1].recs[v].votes && hs[j - 1].recs[v].votes[t] == hs[j].recs[v].votes[t] {
        k := VoteHappened(cs, es, hs, j - 1, v, t);
      } else {
        k := j;
      }
    }
  }

  /** The members of a set that are bound to others than this candidate. */
  ghost predicate BoundToOthers(c: Cluster, others: set<NodeId>, a: NodeId) {
    a !in others && forall v :: v in others ==> v in c.nodes && Bound(c.nodes[v]) && c.nodes[v].vote != a
  }

  lemma NeverVotesFor(cs: seq<Cluster>, es: seq<Event>, hs: seq<Hist>, i: nat, j: nat, v: NodeId, a: NodeId, t: nat)
    requires IsRun(cs, es) && Explains(cs, es, hs) && i < |cs| && j < |cs| && v in cs[i].nodes && a != v && a != NoNode
    requires Bound(cs[i].nodes[v]) && cs[i].nodes[v].vote != a && cs[i].nodes[v].term < t
    requires v in hs[j].recs && t in hs[j].recs[v].votes
    ensures hs[j].recs[v].votes[t].cand != a
  {
    var k := VoteHappened(cs, es, hs, j, v, t);
    assert ClusterOK(cs[k], hs[k]);
    VoteInTerm(cs[k], hs[k], v, t);
    if k <= i { CommittedStays(cs, es, k, i, v); } else { VoteIsSticky(cs, es, i, k, v); }
  }

  /** There is no failover.  In every run, if at some state half of the members or more are bound to others than
      a, then whenever a leads it is in a term that one of them had already reached. */
  lemma NoFailover(cs: seq<Cluster>, es: seq<Event>, i: nat, j: nat, a: NodeId, others: set<NodeId>)
    requires IsRun(cs, es) && i < |cs| && j < |cs| && a in cs[j].nodes && cs[j].nodes[a].role == Leader
    requires BoundToOthers(cs[i], others, a) && 2 * |others| >= |cs[i].nodes|
    ensures exists v :: v in others && v in cs[i].nodes && cs[i].nodes[v].term >= cs[j].nodes[a].term
  {
    var hs := RunOK(cs, es);
    var t := cs[j].nodes[a].term;
    assert ClusterOK(cs[j], hs[j]);
    LeaderFacts(cs[j], hs[j], a);
    MembersStay(cs, es, i, j);
    assert LeaderRecOK(hs[j], t);
    var v := QuorumsMeet(hs[j].ids, others, hs[j].leaders[t].electors);
    assert VotedFor(hs[j], v, t, a, hs[j].leaders[t].base);
    if cs[i].nodes[v].term < t { NeverVotesFor(cs, es, hs, i, j, v, a, t); }
  }
}
