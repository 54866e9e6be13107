/** Changes of term, votes and elections keep the invariant; a term has one leader. */
module RaftVoting {
  import opened RaftTypes
  import opened RaftSpec
  import opened RaftHistory
  import opened RaftFrame
  import opened RaftCompleteness
  import opened RaftRecord

  lemma KeepsAllLater(ls: map<nat, LeaderRec>, stored: map<nat, nat>, log: seq<LogEntry>, to: nat, to': nat)
    requires StoredOK(ls, stored) && KeepsAll(ls, stored, log, to) && to <= to'
    requires forall t :: t in stored ==> t < to
    ensures KeepsAll(ls, stored, log, to')
  {
    forall from, k: nat {:trigger Keeps(ls, stored, log, from, k, to')}
      | from in stored && from < to' && k <= stored[from]
      ensures Keeps(ls, stored, log, from, k, to')
    {
      assert Keeps(ls, stored, log, from, k, to);
    }
  }

  lemma SendAllOK(h: Hist, n: Node, ms: seq<Message>)
    requires NodeOK(h, n) && forall m :: m in ms ==> MsgOK(h, m)
    ensures NodeOK(h, n.(msgs := n.msgs + ms))
  {}

  lemma SendOK(h: Hist, n: Node, m: Message)
    requires NodeOK(h, n) && MsgOK(h, m)
    ensures NodeOK(h, Send(n, m))
  {
    SendAllOK(h, n, [m]);
  }

  /** Taking over a higher term changes neither the log nor what is known of it. */
  lemma LogInvLater(h: Hist, n: Node, n': Node)
    requires n.cfg.id in h.recs && StoredOK(h.leaders, h.recs[n.cfg.id].stored)
    requires TermsOK(h, n) && LogInv(h, n)
    requires n'.cfg == n.cfg && n'.log == n.log && n'.committed == n.committed && n'.applied == n.applied
    requires n'.term > n.term
    ensures LogInv(h, n')
  {
    KeepsAllLater(h.leaders, h.recs[n.cfg.id].stored, n.log, n.term + 1, n'.term + 1);
  }

  lemma BecomeFollowerOK(h: Hist, n: Node, term: nat, lead: NodeId)
    requires Good(h, n)
    requires term > n.term || (term == n.term && n.role == Candidate && lead != NoNode)
    ensures NodeOK(h, BecomeFollower(n, term, lead))
  {
    var n' := BecomeFollower(n, term, lead);
    if term > n.term {
      LogInvLater(h, n, n');
      CommitKnownGrows(h.leaders, h.leaders, n.term, n.committed, n'.term);
    }
  }

  lemma SetLeadOK(h: Hist, n: Node, lead: NodeId)
    requires Good(h, n) && n.role == Follower && lead != NoNode
    ensures NodeOK(h, n.(lead := lead))
  {}

  /** The history after `n` votes in term t with the log it has. */
  ghost function WithVote(h: Hist, n: Node, t: nat, cand: NodeId): Hist
    requires n.cfg.id in h.recs
  {
    var r := h.recs[n.cfg.id];
    h.(recs := h.recs[n.cfg.id := r.(votes := r.votes[t := VoteRec(cand, n.log)])])
  }

  ghost predicate MayVote(h: Hist, n: Node, t: nat, cand: NodeId)
    requires n.cfg.id in h.recs
  {
    && t >= n.term && t !in h.recs[n.cfg.id].votes
    && (t == n.term ==> n.lead == NoNode)
    && (cand == n.cfg.id
        || (cand in h.recs && t in h.recs[cand].votes && h.recs[cand].votes[t].cand == cand
            && UpToDate(n.log, |h.recs[cand].votes[t].log|, LastTerm(h.recs[cand].votes[t].log))))
  }

  lemma VoteKeeps(h: Hist, n: Node, t: nat)
    requires NodeOK(h, n) && t >= n.term && (t == n.term ==> n.lead == NoNode)
    ensures KeepsAll(h.leaders, h.recs[n.cfg.id].stored, n.log, t)
  {
    var st := h.recs[n.cfg.id].stored;
    forall from, k: nat {:trigger Keeps(h.leaders, st, n.log, from, k, t)} | from in st && from < t && k <= st[from]
      ensures Keeps(h.leaders, st, n.log, from, k, t)
    {
      assert Keeps(h.leaders, st, n.log, from, k, n.term + 1);
    }
  }

  lemma WithVoteGrows(h: Hist, n: Node, t: nat, cand: NodeId)
    requires NodeOK(h, n) && MayVote(h, n, t, cand)
    ensures Grows(h, WithVote(h, n, t, cand), n.cfg.id)
  {}

  lemma WithVoteRec(h: Hist, n: Node, t: nat, cand: NodeId)
    requires Good(h, n) && MayVote(h, n, t, cand)
    ensures RecOK(WithVote(h, n, t, cand), n.cfg.id)
  {
    var id, h' := n.cfg.id, WithVote(h, n, t, cand);
    WithVoteGrows(h, n, t, cand);
    VoteKeeps(h, n, t);
    assert RecOK(h, id);
    forall u {:trigger VoteRecOK(h', id, u)} | u in h'.recs[id].votes ensures VoteRecOK(h', id, u) {
      if u != t {
        assert VoteRecOK(h, id, u);
        VoteBackedGrows(h, h', id, id, u);
      }
    }
  }

  lemma WithVoteOK(h: Hist, n: Node, t: nat, cand: NodeId)
    requires Good(h, n) && MayVote(h, n, t, cand)
    ensures HistOK(WithVote(h, n, t, cand))
  {
    var id, h' := n.cfg.id, WithVote(h, n, t, cand);
    WithVoteGrows(h, n, t, cand);
    WithVoteRec(h, n, t, cand);
    forall s {:trigger RecOK(h', s)} | s in h'.recs ensures RecOK(h', s) {
      if s != id { RecFrame(h, h', id, s); }
    }
    forall u {:trigger LeaderRecOK(h', u)} | u in h'.leaders ensures LeaderRecOK(h', u) { LeaderFrame(h, h', id, u); }
  }

  /** The parts of a node's invariant that do not mention its votes survive its vote. */
  lemma WithVoteNode(h: Hist, n: Node, t: nat, cand: NodeId, n': Node)
    requires Good(h, n) && MayVote(h, n, t, cand) && cand != NoNode
    requires n' == n.(term := t, vote := cand, role := n'.role, lead := n'.lead, votes := n'.votes)
    requires n.role != Leader && n'.role != Leader
    requires n'.role == Candidate ==> cand == n.cfg.id && t > n.term && n'.votes == map[cand := true]
    requires n'.lead == n.lead || t > n.term
    ensures NodeOK(WithVote(h, n, t, cand), n')
  {
    var id, h' := n.cfg.id, WithVote(h, n, t, cand);
    WithVoteGrows(h, n, t, cand);
    if t > n.term { LogInvLater(h, n, n'); }
    CommitKnownGrows(h.leaders, h.leaders, n.term, n.committed, t);
    forall m {:trigger MsgOK(h', m)} | m in n'.msgs ensures MsgOK(h', m) { MsgFrame(h, h', id, m); }
  }

  lemma BecomeCandidateOK(h: Hist, n: Node) returns (h': Hist)
    requires Good(h, n) && n.role != Leader
    ensures Good(h', BecomeCandidate(n)) && Grows(h, h', n.cfg.id)
    ensures ActsOnlyIn(h, h', n.cfg.id, BecomeCandidate(n).term)
  {
    h' := WithVote(h, n, n.term + 1, n.cfg.id);
    WithVoteGrows(h, n, n.term + 1, n.cfg.id);
    WithVoteOK(h, n, n.term + 1, n.cfg.id);
    WithVoteNode(h, n, n.term + 1, n.cfg.id, BecomeCandidate(n));
  }

  /** The reply to a repeated request of the candidate already voted for. */
  lemma RepeatedGrantOK(h: Hist, n: Node, m: Message)
    requires HistOK(h) && Configured(h.ids, n.cfg) && n.cfg.id in h.recs && TermsOK(h, n)
    requires m.Vote? && n.vote == m.from && n.term == m.term && n.vote != NoNode && m.term >= 1
    ensures MsgOK(h, VoteRsp(n.cfg.id, m.from, m.term, true))
  {
    assert RecOK(h, n.cfg.id) && VoteRecOK(h, n.cfg.id, n.term);
  }

  lemma HandleVoteOK(h: Hist, n: Node, m: Message) returns (h': Hist)
    requires Good(h, n) && m.Vote? && MsgOK(h, m) && m.term >= n.term
    ensures Good(h', HandleVote(n, m)) && Grows(h, h', n.cfg.id)
    ensures ActsOnlyIn(h, h', n.cfg.id, HandleVote(n, m).term)
  {
    var id := n.cfg.id;
    if !(CanVote(n, m) && UpToDate(n.log, m.lastLogIndex, m.lastLogTerm)) {
      h' := h;
      SendOK(h, n, VoteRsp(id, m.from, n.term, false));
    } else if n.vote == m.from && n.term == m.term {
      h' := h;
      RepeatedGrantOK(h, n, m);
      SendOK(h, n, VoteRsp(id, m.from, m.term, true));
    } else {
      h' := GrantOK(h, n, m);
    }
  }

  lemma GrantOK(h: Hist, n: Node, m: Message) returns (h': Hist)
    requires Good(h, n) && m.Vote? && MsgOK(h, m) && m.term >= n.term
    requires CanVote(n, m) && UpToDate(n.log, m.lastLogIndex, m.lastLogTerm)
    requires !(n.vote == m.from && n.term == m.term)
    ensures Good(h', HandleVote(n, m)) && Grows(h, h', n.cfg.id)
    ensures ActsOnlyIn(h, h', n.cfg.id, HandleVote(n, m).term)
  {
    var n' := n.(term := m.term, vote := m.from);
    h' := WithVote(h, n, m.term, m.from);
    MayGrant(h, n, m);
    WithVoteGrows(h, n, m.term, m.from);
    WithVoteOK(h, n, m.term, m.from);
    WithVoteNode(h, n, m.term, m.from, n');
    SendOK(h', n', VoteRsp(n.cfg.id, m.from, m.term, true));
  }

  lemma MayGrant(h: Hist, n: Node, m: Message)
    requires NodeOK(h, n) && m.Vote? && VoteOK(h, m) && m.term >= n.term
    requires CanVote(n, m) && UpToDate(n.log, m.lastLogIndex, m.lastLogTerm)
    requires !(n.vote == m.from && n.term == m.term)
    ensures n.role == Follower && MayVote(h, n, m.term, m.from)
  {}

  lemma VoteRequestsOK(h: Hist, n: Node)
    requires Good(h, n) && n.role == Candidate
    ensures NodeOK(h, n.(msgs := n.msgs + VoteRequests(n)))
  {
    forall m {:trigger MsgOK(h, m)} | m in VoteRequests(n) ensures MsgOK(h, m) {
      assert RecOK(h, n.cfg.id) && VoteRecOK(h, n.cfg.id, n.term);
    }
    SendAllOK(h, n, VoteRequests(n));
  }

  lemma CountVoteOK(h: Hist, n: Node, m: Message)
    requires Good(h, n) && n.role == Candidate && m.VoteRsp? && MsgOK(h, m)
    requires m.to == n.cfg.id && (m.granted ==> m.term == n.term)
    ensures NodeOK(h, n.(votes := n.votes[m.from := m.granted]))
  {}

  // ---------------------------------------------------------------- elections

  /** A candidate with a quorum is the member that the leader record of its term names. */
  lemma OneWinner(h: Hist, n: Node)
    requires HistOK(h) && Configured(h.ids, n.cfg) && CandidateInv(h, n)
    requires n.role == Candidate && HasQuorum(n) && n.term in h.leaders
    ensures h.leaders[n.term].id == n.cfg.id
  {
    var r := h.leaders[n.term];
    assert LeaderRecOK(h, n.term);
    var e := QuorumsMeet(h.ids, r.electors, Granted(n.votes));
    assert VotedFor(h, e, n.term, n.cfg.id, n.log);
    assert VotedFor(h, e, n.term, r.id, r.base);
  }

  /** A candidate with a quorum is the first leader of its term. */
  lemma TermIsFree(h: Hist, n: Node)
    requires Good(h, n) && n.role == Candidate && HasQuorum(n)
    ensures n.term !in h.leaders
  {
    if n.term in h.leaders {
      OneWinner(h, n);
      assert false;
    }
  }

  // ---------------------------------------------------------------- a new leader

  ghost function Noop(n: Node): LogEntry {
    LogEntry(|n.log| + 1, n.term, EntryNoop, [])
  }

  ghost function NewLeader(n: Node): LeaderRec {
    LeaderRec(n.cfg.id, n.log, n.log + [Noop(n)], Granted(n.votes), 0, {})
  }

  ghost function WithLeader(h: Hist, n: Node): Hist
    requires n.cfg.id in h.recs
  {
    Record(h, n.cfg.id, n.term, NewLeader(n), |n.log| + 1, n.committed)
  }

  lemma WithLeaderGrows(h: Hist, n: Node)
    requires NodeOK(h, n) && n.term !in h.leaders
    ensures Grows(h, WithLeader(h, n), n.cfg.id)
    ensures ActsOnlyIn(h, WithLeader(h, n), n.cfg.id, n.term)
  {
    RecordGrows(h, n.cfg.id, n.term, NewLeader(n), |n.log| + 1, n.committed);
  }

  lemma WithLeaderRec(h: Hist, n: Node)
    requires Good(h, n) && n.role == Candidate && HasQuorum(n) && n.term !in h.leaders
    ensures LeaderRecOK(WithLeader(h, n), n.term)
  {
    var h' := WithLeader(h, n);
    WithLeaderGrows(h, n);
    ExtendedLogOK(h.leaders, h'.leaders, n.term, n.log, [Noop(n)]);
    RecordedLeaderOK(h, h', n.cfg.id, n.term);
  }

  lemma WithLeaderOK(h: Hist, n: Node)
    requires Good(h, n) && n.role == Candidate && HasQuorum(n) && n.term !in h.leaders
    ensures HistOK(WithLeader(h, n))
  {
    WithLeaderGrows(h, n);
    WithLeaderRec(h, n);
    RecordOK(h, n, NewLeader(n), |n.log| + 1, n.committed);
  }

  /** All that a new leader has committed, in whatever way, is what leaders have committed. */
  lemma NewLeaderClean(h: Hist, n: Node)
    requires Good(h, n) && n.role == Candidate && HasQuorum(n) && n.term !in h.leaders
    ensures CleanUpTo(WithLeader(h, n).leaders, n.log, n.committed)
  {
    var c, h' := n.committed, WithLeader(h, n);
    if c > 0 {
      WithLeaderOK(h, n);
      var u :| u in h.leaders && u <= n.term && c <= h.leaders[u].commit;
      CommitInLater(h', u, n.term, c);
      TakeOfPrefix(n.log, h'.leaders[n.term].log, c);
      assert h'.leaders[u].log[..c] == n.log[..c];
    }
  }

  lemma FreshTracks(ids: set<NodeId>, n: Node)
    requires Configured(ids, n.cfg) && n.progress.Keys <= ids
    ensures FreshProgress(n).Keys == ids
    ensures forall p :: p in FreshProgress(n) ==>
      FreshProgress(n)[p] == if p == n.cfg.id then Track(|n.log| + 1, |n.log|, Replicate)
                             else Track(|n.log| + 1, 0, Probe)
  {
    var peers := PeerSet(n.cfg);
    assert ids == peers + {n.cfg.id};
  }

  lemma NewTracks(h: Hist, n: Node)
    requires Configured(h.ids, n.cfg) && n.cfg.id in h.recs && n.progress.Keys <= h.ids
    ensures TracksHold(WithLeader(h, n), n.cfg.id, n.term, |n.log| + 1, n.committed, FreshProgress(n))
  {
    FreshTracks(h.ids, n);
  }

  lemma NewLeaderLog(h: Hist, n: Node)
    requires Good(h, n) && n.role == Candidate && HasQuorum(n) && n.term !in h.leaders
    ensures var h', log := WithLeader(h, n), n.log + [Noop(n)];
            && StoredOK(h'.leaders, h'.recs[n.cfg.id].stored) && LogHolds(h', n.cfg.id, n.term, log)
            && CommitKnown(h'.leaders, n.term, n.committed) && CleanUpTo(h'.leaders, log, n.committed)
  {
    var h', log := WithLeader(h, n), n.log + [Noop(n)];
    WithLeaderGrows(h, n);
    WithLeaderRec(h, n);
    ExtendedLogHolds(h, n, h', log);
    NewLeaderCommit(h, n);
  }

  lemma NewLeaderCommit(h: Hist, n: Node)
    requires Good(h, n) && n.role == Candidate && HasQuorum(n) && n.term !in h.leaders
    ensures var h', log := WithLeader(h, n), n.log + [Noop(n)];
            CommitKnown(h'.leaders, n.term, n.committed) && CleanUpTo(h'.leaders, log, n.committed)
  {
    var h', log := WithLeader(h, n), n.log + [Noop(n)];
    WithLeaderGrows(h, n);
    NewLeaderClean(h, n);
    CommitKnownGrows(h.leaders, h'.leaders, n.term, n.committed, n.term);
    TakeOfPrefix(n.log, log, n.committed);
    CleanGrows(h'.leaders, h'.leaders, n.log, n.committed, log);
  }

  ghost function Elected(n: Node): Node {
    n.(role := Leader, lead := n.cfg.id, progress := FreshProgress(n), log := n.log + [Noop(n)])
  }

  lemma ElectedTracked(n: Node)
    requires Tracked(n)
    ensures Tracked(Elected(n))
    ensures BecomeLeader(n) == BroadcastHeartbeat(Elected(n))
  {}

  lemma NewLeaderNode(h: Hist, n: Node)
    requires Good(h, n) && n.role == Candidate && HasQuorum(n) && n.term !in h.leaders
    ensures NodeOK(WithLeader(h, n), Elected(n))
  {
    var n1, h' := Elected(n), WithLeader(h, n);
    WithLeaderGrows(h, n);
    NewLeaderLog(h, n);
    RecordTerms(h, n, NewLeader(n), |n.log| + 1, n.committed, Leader, n.cfg.id);
    NewLeaderInv(h, n);
    ElectedTracked(n);
    MsgsFrame(h, h', n.cfg.id, n.msgs);
  }

  lemma NewLeaderInv(h: Hist, n: Node)
    requires Configured(h.ids, n.cfg) && n.cfg.id in h.recs && n.progress.Keys <= h.ids && n.vote == n.cfg.id
    ensures LeaderInv(WithLeader(h, n), Elected(n))
    ensures Elected(n).progress.Keys <= h.ids
  {
    FreshTracks(h.ids, n);
    NewTracks(h, n);
    assert |n.log + [Noop(n)]| == |n.log| + 1;
  }

  lemma BecomeLeaderOK(h: Hist, n: Node) returns (h': Hist)
    requires Good(h, n) && n.role == Candidate && HasQuorum(n)
    ensures Good(h', BecomeLeader(n)) && Grows(h, h', n.cfg.id)
    ensures ActsOnlyIn(h, h', n.cfg.id, n.term)
  {
    TermIsFree(h, n);
    h' := WithLeader(h, n);
    WithLeaderGrows(h, n);
    WithLeaderOK(h, n);
    NewLeaderNode(h, n);
    ElectedTracked(n);
    HeartbeatsOK(h', Elected(n));
  }

  lemma HeartbeatsOK(h: Hist, n: Node)
    requires NodeOK(h, n) && n.role == Leader
    ensures NodeOK(h, BroadcastHeartbeat(n))
  {
    forall m {:trigger MsgOK(h, m)} | m in Heartbeats(n) ensures MsgOK(h, m) {}
    SendAllOK(h, n, Heartbeats(n));
  }
}
