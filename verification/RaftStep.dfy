/** Every event of a run keeps the invariant. */
module RaftStep {
  import opened RaftTypes
  import opened RaftSpec
  import opened RaftHistory
  import opened RaftFrame
  import opened RaftRecord
  import opened RaftVoting
  import opened RaftReplication
  import opened RaftLeading

  /** What one step of a node does to the history and to what the node has committed. */
  ghost predicate Moves(h: Hist, n: Node, h': Hist, n': Node, checked: bool) {
    && n.cfg.id in h.recs
    && Grows(h, h', n.cfg.id)
    && ActsOnlyIn(h, h', n.cfg.id, n'.term)
    && Stable(n, n')
    && (checked && n'.committed > n.committed ==> h'.recs[n.cfg.id].clean == n'.committed)
  }

  ghost predicate Steps(h: Hist, n: Node, h': Hist, n': Node, checked: bool) {
    Good(h', n') && Moves(h, n, h', n', checked)
  }

  lemma FollowerAppendOK(h: Hist, n: Node, m: Message) returns (h': Hist)
    requires Good(h, n) && n.role == Follower && m.Append? && MsgOK(h, m) && m.term == n.term && OneBased(m.entries)
    ensures Steps(h, n, h', HandleAppend(n.(lead := m.from), m), true)
  {
    var n1 := n.(lead := m.from);
    SetLeadOK(h, n, m.from);
    h' := HandleAppendOK(h, n1, m);
    MovesFromLead(h, n, n1, h', HandleAppend(n1, m));
  }

  lemma MovesFromLead(h: Hist, n: Node, n1: Node, h': Hist, n': Node)
    requires n1 == n.(lead := n1.lead) && n.cfg.id in h.recs && Grows(h, h', n.cfg.id)
    requires ActsOnlyIn(h, h', n.cfg.id, n.term) && Stable(n1, n') && n'.term == n.term
    requires n'.committed > n.committed ==> h'.recs[n.cfg.id].clean == n'.committed
    ensures Moves(h, n, h', n', true)
  {}

  lemma FollowerHeartbeatOK(h: Hist, n: Node, m: Message)
    requires Good(h, n) && n.role == Follower && m.Heartbeat? && MsgOK(h, m) && m.term == n.term
    ensures Steps(h, n, h, HandleHeartbeat(n.(lead := m.from), m), false)
  {
    SetLeadOK(h, n, m.from);
    HandleHeartbeatOK(h, n.(lead := m.from), m);
    GrowsRefl(h, n.cfg.id);
  }

  /** The message's term is the node's, unless it is a vote request or carries none. */
  ghost predicate Current(n: Node, m: Message) {
    if m.Vote? then m.term >= n.term else m.term == 0 || m.term == n.term
  }

  lemma TermlessOK(h: Hist, m: Message)
    requires HistOK(h) && MsgOK(h, m) && m.term == 0
    ensures !m.Append? && !m.Heartbeat? && !m.Vote?
    ensures m.VoteRsp? ==> !m.granted
    ensures m.AppendRsp? ==> m.reject
  {
    assert m.term in h.leaders ==> LeaderRecOK(h, m.term);
  }

  lemma VoteOKStep(h: Hist, n: Node, m: Message) returns (h': Hist)
    requires Good(h, n) && m.Vote? && MsgOK(h, m) && m.term >= n.term
    ensures Steps(h, n, h', HandleVote(n, m), true)
  {
    h' := HandleVoteOK(h, n, m);
  }

  lemma StepFollowerOK(h: Hist, n: Node, m: Message) returns (h': Hist)
    requires Good(h, n) && n.role == Follower && MsgOK(h, m) && WellFormed(m) && Current(n, m)
    ensures Steps(h, n, h', StepFollower(n, m), !m.Heartbeat?)
  {
    h' := h;
    GrowsRefl(h, n.cfg.id);
    if m.term == 0 { TermlessOK(h, m); }
    match m
    case Heartbeat(_, _, _, _) => FollowerHeartbeatOK(h, n, m);
    case Append(_, _, _, _, _, _, _) => h' := FollowerAppendOK(h, n, m);
    case Vote(_, _, _, _, _) => h' := VoteOKStep(h, n, m);
    case Propose(_, _, _, _) =>
      SendOK(h, n, Propose(if m.from == NoNode then n.cfg.id else m.from, n.lead,
                           if m.term == 0 then n.term else m.term, m.entries));
    case _ =>
  }

  lemma ElectedStable(n: Node)
    requires n.committed <= |n.log|
    ensures Stable(n, BecomeLeader(n)) && BecomeLeader(n).committed == n.committed && BecomeLeader(n).term == n.term
  {}

  lemma ElectionOK(h: Hist, n: Node) returns (h': Hist)
    requires Good(h, n) && n.role == Candidate && HasQuorum(n)
    ensures Steps(h, n, h', BecomeLeader(n), true)
  {
    ElectedStable(n);
    h' := BecomeLeaderOK(h, n);
  }

  lemma VoteCounted(h: Hist, n: Node, m: Message)
    requires Good(h, n) && n.role == Candidate && m.VoteRsp? && MsgOK(h, m)
    requires m.to == n.cfg.id && (m.granted ==> m.term == n.term)
    ensures Steps(h, n, h, n.(votes := n.votes[m.from := m.granted]), true)
  {
    CountVoteOK(h, n, m);
    GrowsRefl(h, n.cfg.id);
  }

  lemma HandleVoteRspOK(h: Hist, n: Node, m: Message) returns (h': Hist)
    requires Good(h, n) && n.role == Candidate && m.VoteRsp? && MsgOK(h, m)
    requires m.to == n.cfg.id && (m.granted ==> m.term == n.term)
    ensures Steps(h, n, h', HandleVoteRsp(n, m), true)
  {
    var n1 := n.(votes := n.votes[m.from := m.granted]);
    VoteCounted(h, n, m);
    if m.granted && HasQuorum(n1) {
      h' := ElectionOK(h, n1);
      ElectedStable(n1);
      MovesTrans(h, n, h, n1, h', BecomeLeader(n1));
    } else {
      h' := h;
    }
  }

  /** A candidate that hears from the leader of its term follows it. */
  lemma CandidateYields(h: Hist, n: Node, m: Message) returns (h': Hist)
    requires Good(h, n) && n.role == Candidate && MsgOK(h, m) && WellFormed(m) && m.term == n.term
    requires m.Append? || m.Heartbeat?
    ensures Steps(h, n, h', StepCandidate(n, m), !m.Heartbeat?)
  {
    var n1 := BecomeFollower(n, m.term, m.from);
    BecomeFollowerOK(h, n, m.term, m.from);
    if m.Append? {
      h' := FollowerAppendOK(h, n1, m);
    } else {
      h' := h;
      FollowerHeartbeatOK(h, n1, m);
    }
  }

  lemma StepCandidateOK(h: Hist, n: Node, m: Message) returns (h': Hist)
    requires Good(h, n) && n.role == Candidate && MsgOK(h, m) && WellFormed(m) && Current(n, m)
    requires m.VoteRsp? ==> m.to == n.cfg.id
    ensures Steps(h, n, h', StepCandidate(n, m), !m.Heartbeat?)
  {
    h' := h;
    GrowsRefl(h, n.cfg.id);
    if m.term == 0 { TermlessOK(h, m); }
    match m
    case VoteRsp(_, _, _, _) => h' := HandleVoteRspOK(h, n, m);
    case Append(_, _, _, _, _, _, _) => h' := CandidateYields(h, n, m);
    case Heartbeat(_, _, _, _) => h' := CandidateYields(h, n, m);
    case Vote(_, _, _, _, _) => h' := VoteOKStep(h, n, m);
    case _ =>
  }

  /** A leader's step only appends to its log and never lowers its commit index. */
  lemma LeaderStable(n: Node, m: Message)
    requires n.role == Leader && Tracked(n) && n.committed <= |n.log| && !m.Vote?
    ensures Stable(n, StepLeader(n, m)) && StepLeader(n, m).role == Leader && StepLeader(n, m).term == n.term
  {
    if m.Propose? {
      var n1 := BroadcastAppend(TakeProposal(n, m.entries));
      CommitIndexIsLargest(n1, |n1.log|);
    }
    if m.AppendRsp? && m.from in n.progress {
      var n1 := n.(progress := n.progress[m.from := Acked(n.progress[m.from], m.index)]);
      CommitIndexIsLargest(n1, |n1.log|);
    }
  }

  lemma StepLeaderHist(h: Hist, n: Node, m: Message) returns (h': Hist)
    requires Good(h, n) && n.role == Leader && MsgOK(h, m) && Current(n, m) && !m.Vote?
    ensures Good(h', StepLeader(n, m)) && Grows(h, h', n.cfg.id) && ActsOnlyIn(h, h', n.cfg.id, n.term)
  {
    h' := h;
    GrowsRefl(h, n.cfg.id);
    if m.term == 0 { TermlessOK(h, m); }
    match m
    case Propose(_, _, _, _) => if m.entries != [] { h' := HandleProposalOK(h, n, m); }
    case AppendRsp(_, _, _, _, _, _, _) => h' := HandleAppendRspOK(h, n, m);
    case HeartbeatRsp(_, _, _, _) => SendAppendOK(h, n, m.from);
    case Unreachable(_, _, _) => HandleUnreachableOK(h, n, m);
    case _ =>
  }

  lemma StepLeaderOK(h: Hist, n: Node, m: Message) returns (h': Hist)
    requires Good(h, n) && n.role == Leader && MsgOK(h, m) && Current(n, m)
    ensures Steps(h, n, h', StepLeader(n, m), true)
  {
    if m.Vote? {
      h' := VoteOKStep(h, n, m);
    } else {
      h' := StepLeaderHist(h, n, m);
      LeaderStable(n, m);
    }
  }

  lemma CatchUpOK(h: Hist, n: Node, m: Message)
    requires Good(h, n) && MsgOK(h, m) && !Stale(n, m)
    ensures NodeOK(h, CatchUp(n, m)) && Current(CatchUp(n, m), m) && Stable(n, CatchUp(n, m))
    ensures CatchUp(n, m).committed == n.committed
  {
    if m.term > n.term && !m.Vote? {
      BecomeFollowerOK(h, n, m.term, if m.VoteRsp? then NoNode else m.from);
    }
  }

  lemma StepRoleOK(h: Hist, n: Node, m: Message) returns (h': Hist)
    requires Good(h, n) && MsgOK(h, m) && WellFormed(m) && Current(n, m)
    requires m.VoteRsp? ==> m.to == n.cfg.id
    ensures Steps(h, n, h', StepRole(n, m), !m.Heartbeat?)
  {
    match n.role
    case Follower => h' := StepFollowerOK(h, n, m);
    case Candidate => h' := StepCandidateOK(h, n, m);
    case Leader => h' := StepLeaderOK(h, n, m);
  }

  lemma StepOK(h: Hist, n: Node, m: Message) returns (h': Hist)
    requires Good(h, n) && MsgOK(h, m) && WellFormed(m)
    requires m.VoteRsp? ==> m.to == n.cfg.id
    ensures Steps(h, n, h', Step(n, m), !m.Heartbeat?)
  {
    if Stale(n, m) {
      h' := h;
      GrowsRefl(h, n.cfg.id);
    } else {
      CatchUpOK(h, n, m);
      h' := StepRoleOK(h, CatchUp(n, m), m);
    }
  }

  lemma TimerOK(h: Hist, n: Node) returns (h': Hist)
    requires Good(h, n)
    ensures Steps(h, n, h', TimerFires(n), true)
  {
    if n.role == Leader {
      h' := h;
      HeartbeatsOK(h, n);
      GrowsRefl(h, n.cfg.id);
    } else {
      h' := CampaignOK(h, n);
    }
  }

  lemma CandidateStep(h: Hist, n: Node) returns (h': Hist)
    requires Good(h, n) && n.role != Leader
    ensures Steps(h, n, h', BecomeCandidate(n), true)
  {
    h' := BecomeCandidateOK(h, n);
  }

  lemma MovesTrans(h: Hist, n: Node, h1: Hist, n1: Node, h2: Hist, n2: Node)
    requires Moves(h, n, h1, n1, true) && Moves(h1, n1, h2, n2, true)
    requires n1.committed == n.committed == n2.committed && n1.term == n2.term
    ensures Moves(h, n, h2, n2, true)
  {
    GrowsTrans(h, h1, h2, n.cfg.id);
  }

  lemma LoneQuorum(n: Node)
    requires |n.cfg.peers| == 0
    ensures HasQuorum(BecomeCandidate(n))
  {
    assert Granted(BecomeCandidate(n).votes) == {n.cfg.id};
  }

  lemma CampaignOK(h: Hist, n: Node) returns (h': Hist)
    requires Good(h, n) && n.role != Leader
    ensures Steps(h, n, h', Campaign(n), true)
  {
    var n1 := BecomeCandidate(n);
    var h1 := CandidateStep(h, n);
    if |n.cfg.peers| == 0 {
      LoneQuorum(n);
      h' := ElectionOK(h1, n1);
      ElectedStable(n1);
      MovesTrans(h, n, h1, n1, h', BecomeLeader(n1));
    } else {
      h' := h1;
      VoteRequestsOK(h1, n1);
    }
  }

  lemma TakeReadyOK(h: Hist, n: Node)
    requires Good(h, n)
    ensures NodeOK(h, TakeReady(n))
  {}
}
