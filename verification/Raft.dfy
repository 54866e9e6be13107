/** A Raft node that changes its fields in place, proved to do what RaftSpec says. */
module RaftMachine {
  import opened RaftTypes
  import Spec = RaftSpec
  import opened RaftLogs
  import opened RaftProgress

  type Ticks = n: nat | n > 0 witness 1

  class Raft {
    const cfg: Config
    const log: RaftLog
    var term: nat
    var vote: NodeId
    var role: Role
    var lead: NodeId
    var votes: map<NodeId, bool>
    var progress: map<NodeId, Progress>
    var msgs: seq<Message>
    const electionTick: Ticks
    const heartbeatTick: nat
    var electionElapsed: nat
    var electionTimeout: nat
    var heartbeatElapsed: nat
    /** What the objects in `progress` say. */
    ghost var tracks: map<NodeId, Track>

    /** The objects this node owns. */
    ghost function Owned(): set<object>
      reads this
    {
      {this, log} + progress.Values
    }

    /** Each member has a track of its own, which says what `ts` says. */
    static ghost predicate Says(ps: map<NodeId, Progress>, ts: map<NodeId, Track>)
      reads ps.Values
    {
      && ps.Keys == ts.Keys
      && forall p :: p in ps ==> ps[p].member == p && ps[p].View() == ts[p] && ts[p].next >= 1
    }

    ghost predicate Valid()
      reads this, log, progress.Values
    {
      log.Valid() && Says(progress, tracks)
    }

    /** The value of the node's fields. */
    ghost function View(): (n: Node)
      requires Valid()
      reads this, log, progress.Values
      ensures Spec.Tracked(n)
    {
      Node(cfg, term, vote, role, lead, votes, tracks, log.Log(), log.committed, log.applied, msgs)
    }

    constructor (config: Config, electionTick: Ticks, heartbeatTick: nat)
      ensures Valid() && View() == Spec.NewNode(config) && fresh(Owned())
      ensures term == 0 && vote == NoNode && role == Follower && lead == NoNode
      ensures View().log == [] && log.committed == 0 && log.applied == 0 && msgs == []
      ensures this.electionTick == electionTick && this.heartbeatTick == heartbeatTick
      ensures electionElapsed == 0 && electionTick <= electionTimeout < 2 * electionTick
    {
      cfg := config;
      this.electionTick, this.heartbeatTick := electionTick, heartbeatTick;
      log := new RaftLog();
      var extra: nat :| extra < electionTick;
      electionElapsed, electionTimeout, heartbeatElapsed := 0, electionTick + extra, 0;
      term, vote, role, lead := 0, NoNode, Follower, NoNode;
      votes, progress, msgs := map[], map[], [];
      tracks := map[];
    }

    // -------------------------------------------------------------- roles

    /** The timeout is drawn anew, between one and two election ticks. */
    method ResetElectionTimeout()
      modifies `electionElapsed, `electionTimeout
      ensures electionElapsed == 0 && electionTick <= electionTimeout < 2 * electionTick
    {
      electionElapsed := 0;
      var extra: nat :| extra < electionTick;
      electionTimeout := electionTick + extra;
    }

    method BecomeFollower(newTerm: nat, newLead: NodeId)
      requires Valid()
      modifies this
      ensures Valid() && progress == old(progress)
      ensures electionElapsed == 0 && electionTick <= electionTimeout < 2 * electionTick
      ensures View() == Spec.BecomeFollower(old(View()), newTerm, newLead)
    {
      if newTerm > term {
        term := newTerm;
        vote := NoNode;
      }
      role := Follower;
      lead := newLead;
      ResetElectionTimeout();
    }

    method BecomeCandidate()
      requires Valid() && role != Leader
      modifies this
      ensures Valid() && progress == old(progress)
      ensures electionElapsed == 0 && electionTick <= electionTimeout < 2 * electionTick
      ensures View() == Spec.BecomeCandidate(old(View()))
    {
      term := term + 1;
      vote := cfg.id;
      role := Candidate;
      lead := NoNode;
      votes := map[];
      votes := votes[cfg.id := true];
      ResetElectionTimeout();
    }

    /** A fresh track for this node and for every peer. */
    method NewProgress(lastIndex: nat) returns (ps: map<NodeId, Progress>)
      requires Valid() && lastIndex == |View().log|
      ensures Says(ps, Spec.FreshProgress(View())) && fresh(ps.Values - progress.Values)
    {
      ghost var v := View();
      ghost var ts: map<NodeId, Track> := v.progress[cfg.id := Track(lastIndex + 1, lastIndex, Replicate)];
      var self := new Progress(cfg.id, lastIndex + 1, lastIndex, Replicate);
      ps := progress[cfg.id := self];
      for i := 0 to |cfg.peers|
        invariant Says(ps, ts) && fresh(ps.Values - progress.Values)
        invariant ts == FreshUpTo(v, i)
      {
        var prog := new Progress(cfg.peers[i], lastIndex + 1, 0, Probe);
        ps := ps[cfg.peers[i] := prog];
        ts := ts[cfg.peers[i] := Track(lastIndex + 1, 0, Probe)];
      }
      FreshIsAll(v);
    }

    method BecomeLeader()
      requires Valid() && role == Candidate
      modifies this, log
      ensures Valid() && fresh(progress.Values - old(progress.Values))
      ensures heartbeatElapsed == 0
      ensures electionElapsed == old(electionElapsed) && electionTimeout == old(electionTimeout)
      ensures View() == Spec.BecomeLeader(old(View()))
    {
      Promote();
      AppendEntry(LogEntry(0, 0, EntryNoop, []));
      BroadcastHeartbeat();
    }

    method Promote()
      requires Valid()
      modifies this
      ensures Valid() && fresh(progress.Values - old(progress.Values))
      ensures heartbeatElapsed == 0
      ensures electionElapsed == old(electionElapsed) && electionTimeout == old(electionTimeout)
      ensures View() == old(View()).(role := Leader, lead := cfg.id, progress := Spec.FreshProgress(old(View())))
    {
      ghost var v := View();
      var ps := NewProgress(log.LastIndex());
      Lead(ps, Spec.FreshProgress(v));
    }

    method Lead(ps: map<NodeId, Progress>, ghost ts: map<NodeId, Track>)
      requires log.Valid() && Says(ps, ts)
      modifies this
      ensures Valid() && progress == ps
      ensures heartbeatElapsed == 0
      ensures electionElapsed == old(electionElapsed) && electionTimeout == old(electionTimeout)
      ensures View() == Node(cfg, term, old(vote), Leader, cfg.id, old(votes), ts,
                             log.Log(), log.committed, log.applied, old(msgs))
      ensures term == old(term)
    {
      role := Leader;
      lead := cfg.id;
      heartbeatElapsed := 0;
      progress := ps;
      tracks := ts;
    }

    method AppendEntry(entry: LogEntry)
      requires Valid()
      modifies log
      ensures Valid()
      ensures View() == old(View()).(log := old(View().log) + [entry.(index := old(|View().log|) + 1, term := term)])
    {
      log.AppendOne(entry.(index := log.LastIndex() + 1, term := term));
    }

    // -------------------------------------------------------------- sending

    method Send(m: Message)
      requires Valid()
      modifies `msgs
      ensures Valid() && View() == Spec.Send(old(View()), m)
    {
      msgs := msgs + [m];
    }

    method BroadcastHeartbeat()
      requires Valid()
      modifies `msgs
      ensures Valid() && View() == Spec.BroadcastHeartbeat(old(View()))
    {
      ghost var v := View();
      for i := 0 to |cfg.peers|
        invariant Valid() && View() == v.(msgs := v.msgs + Spec.Heartbeats(v)[..i])
      {
        Send(Heartbeat(cfg.id, cfg.peers[i], term, log.committed));
        assert Spec.Heartbeats(v)[..i + 1] == Spec.Heartbeats(v)[..i] + [Spec.HeartbeatTo(v, cfg.peers[i])];
      }
      assert Spec.Heartbeats(v)[..|cfg.peers|] == Spec.Heartbeats(v);
    }

    method SendAppend(to: NodeId)
      requires Valid()
      modifies `msgs
      ensures Valid() && View() == Spec.SendAppend(old(View()), to)
    {
      if to !in progress {
        return;
      }
      var prog := progress[to];
      if prog.State == Snapshotting {
        return;
      }
      var nextIndex := prog.NextIndex;
      var prevIndex := nextIndex - 1;
      var prevTerm := log.Term(prevIndex);
      var entries := log.Entries(nextIndex, nextIndex + cfg.maxEntries);
      Send(Append(cfg.id, to, term, prevIndex, prevTerm, entries, log.committed));
    }

    method BroadcastAppend()
      requires Valid()
      modifies `msgs
      ensures Valid() && View() == Spec.BroadcastAppend(old(View()))
    {
      ghost var v := View();
      for i := 0 to |cfg.peers|
        invariant Valid() && View() == Spec.SendAppends(v, i)
      {
        SendAppend(cfg.peers[i]);
      }
    }

    // -------------------------------------------------------------- elections

    method Campaign()
      requires Valid() && role != Leader
      modifies this, log
      ensures Valid() && fresh(progress.Values - old(progress.Values))
      ensures electionElapsed == 0 && electionTick <= electionTimeout < 2 * electionTick
      ensures View() == Spec.Campaign(old(View()))
    {
      BecomeCandidate();
      if |cfg.peers| == 0 {
        BecomeLeader();
        return;
      }
      RequestVotes();
    }

    method RequestVotes()
      requires Valid()
      modifies `msgs
      ensures Valid() && View() == old(View()).(msgs := old(View().msgs) + Spec.VoteRequests(old(View())))
    {
      ghost var v := View();
      var lastIndex := log.LastIndex();
      var lastTerm := log.Term(lastIndex);
      assert lastTerm == Spec.LastTerm(v.log);
      for i := 0 to |cfg.peers|
        invariant Valid() && View() == v.(msgs := v.msgs + Spec.VoteRequests(v)[..i])
      {
        Send(Vote(cfg.id, cfg.peers[i], term, lastIndex, lastTerm));
        assert Spec.VoteRequests(v)[i] == Vote(cfg.id, cfg.peers[i], term, lastIndex, lastTerm);
        assert Spec.VoteRequests(v)[..i + 1] == Spec.VoteRequests(v)[..i] + [Spec.VoteRequests(v)[i]];
      }
      assert Spec.VoteRequests(v)[..|cfg.peers|] == Spec.VoteRequests(v);
    }

    /** Count the granted votes, in whatever order the map yields them. */
    method HasQuorum() returns (yes: bool)
      requires Valid()
      ensures yes <==> Spec.HasQuorum(View())
    {
      var granted := 0;
      var todo := votes.Keys;
      while todo != {}
        invariant todo <= votes.Keys && granted == |Supporters(votes, votes.Keys - todo)|
        decreases |todo|
      {
        var v :| v in todo;
        assert votes.Keys - (todo - {v}) == (votes.Keys - todo) + {v};
        SupportersStep(votes, votes.Keys - todo, v);
        if votes[v] {
          granted := granted + 1;
        }
        todo := todo - {v};
      }
      assert Supporters(votes, votes.Keys - todo) == Spec.Granted(votes);
      var total := 1 + |cfg.peers|;
      return granted * 2 > total;
    }

    method HandleVote(m: Message)
      requires Valid() && m.Vote?
      modifies this
      ensures Valid() && progress == old(progress) && View() == Spec.HandleVote(old(View()), m)
      ensures msgs[|msgs| - 1].VoteRsp?
      ensures electionElapsed == if msgs[|msgs| - 1].granted then 0 else old(electionElapsed)
      ensures electionTimeout == old(electionTimeout)
    {
      var canVote := (vote == NoNode && lead == NoNode) || vote == m.from;
      var logOK := log.IsUpToDate(m.lastLogIndex, m.lastLogTerm);
      if canVote && logOK {
        vote := m.from;
        term := m.term;
        electionElapsed := 0;
        Send(VoteRsp(cfg.id, m.from, m.term, true));
      } else {
        Send(VoteRsp(cfg.id, m.from, term, false));
      }
    }

    method HandleVoteRsp(m: Message)
      requires Valid() && m.VoteRsp? && role == Candidate
      modifies this, log
      ensures Valid() && fresh(progress.Values - old(progress.Values))
      ensures View() == Spec.HandleVoteRsp(old(View()), m)
    {
      if m.granted {
        votes := votes[m.from := true];
        var elected := HasQuorum();
        if elected {
          BecomeLeader();
        }
      } else {
        votes := votes[m.from := false];
      }
    }

    // -------------------------------------------------------------- replication

    method HandleProposal(m: Message)
      requires Valid() && m.Propose?
      modifies this, log, progress.Values
      ensures Valid() && progress == old(progress)
      ensures View() == Spec.HandleProposal(old(View()), m)
    {
      TakeEntries(m.entries);
      if cfg.id in progress {
        var _ := UpdateTrack(cfg.id, log.LastIndex());
      }
      BroadcastAppend();
      MaybeCommit();
    }

    method TakeEntries(es: seq<LogEntry>)
      requires Valid()
      modifies log
      ensures Valid()
      ensures View() == old(View()).(log := old(View().log) + Spec.Numbered(old(View()), es))
    {
      ghost var v := View();
      var first := log.LastIndex() + 1;
      for i := 0 to |es|
        invariant Valid() && View() == v.(log := v.log + Spec.Numbered(v, es)[..i])
      {
        log.AppendOne(es[i].(index := first + i, term := term));
        assert Spec.Numbered(v, es)[..i + 1] == Spec.Numbered(v, es)[..i] + [Spec.Numbered(v, es)[i]];
      }
      assert Spec.Numbered(v, es)[..|es|] == Spec.Numbered(v, es);
    }

    method UpdateTrack(p: NodeId, index: nat) returns (updated: bool)
      requires Valid() && p in progress
      modifies this, progress.Values
      ensures Valid() && progress == old(progress)
      ensures View() == old(View()).(progress := old(tracks)[p := Spec.MaybeUpdate(old(tracks)[p], index)])
      ensures updated <==> index > old(tracks)[p].matched
    {
      assert progress[p].View() == tracks[p];
      updated := progress[p].MaybeUpdate(index);
      tracks := tracks[p := Spec.MaybeUpdate(tracks[p], index)];
    }

    method LogConsistent(prevIndex: nat, prevTerm: nat) returns (ok: bool)
      requires Valid()
      ensures ok <==> Spec.LogConsistent(View().log, prevIndex, prevTerm)
    {
      if prevIndex == 0 {
        return true;
      }
      var myTerm := log.Term(prevIndex);
      return myTerm == prevTerm;
    }

    /** The first index of the stretch of entries with the rejected entry's term, and that term. */
    method FindConflict(rejected: nat) returns (index: nat, conflictTerm: nat)
      requires Valid()
      ensures index == Spec.ConflictIndex(View().log, rejected)
      ensures conflictTerm == Spec.ConflictTerm(View().log, rejected) == Spec.TermAt(View().log, rejected)
      ensures if conflictTerm == 0 then index == |View().log|
              else Spec.IsStretch(View().log, conflictTerm, index, rejected)
    {
      Spec.ConflictIsStretch(View().log, rejected);
      conflictTerm := log.Term(rejected);
      if conflictTerm == 0 {
        return log.LastIndex(), 0;
      }
      index := rejected;
      while index > 0 && log.Term(index - 1) == conflictTerm
        invariant Spec.RunStart(View().log, index, conflictTerm) == Spec.RunStart(View().log, rejected, conflictTerm)
      {
        index := index - 1;
      }
    }

    method HandleAppend(m: Message)
      requires Valid() && m.Append? && Spec.OneBased(m.entries)
      modifies `msgs, log
      ensures Valid() && progress == old(progress)
      ensures View() == Spec.HandleAppend(old(View()), m)
    {
      if m.logIndex < log.committed {
        Send(AppendRsp(cfg.id, m.from, term, log.committed, false, 0, 0));
        return;
      }
      var consistent := LogConsistent(m.logIndex, m.logTerm);
      if !consistent {
        var conflictIndex, conflictTerm := FindConflict(m.logIndex);
        Send(AppendRsp(cfg.id, m.from, term, 0, true, conflictIndex, conflictTerm));
        return;
      }
      AcceptEntries(m);
      Send(AppendRsp(cfg.id, m.from, term, log.LastIndex(), false, 0, 0));
    }

    method AcceptEntries(m: Message)
      requires Valid() && m.Append? && Spec.OneBased(m.entries)
      modifies log
      ensures Valid() && View() == Spec.Accept(old(View()), m)
    {
      if |m.entries| > 0 {
        log.Append(m.entries);
      }
      if m.commit > log.committed {
        var newCommit := m.commit;
        if log.LastIndex() < newCommit {
          newCommit := log.LastIndex();
        }
        var _ := log.CommitTo(newCommit);
      }
    }

    method HandleHeartbeat(m: Message)
      requires Valid() && m.Heartbeat?
      modifies `msgs, log
      ensures Valid() && progress == old(progress)
      ensures View() == Spec.HandleHeartbeat(old(View()), m)
    {
      if m.commit > log.committed {
        var _ := log.CommitTo(m.commit);
      }
      Send(HeartbeatRsp(cfg.id, m.from, term, log.committed));
    }

    method HandleAppendRsp(m: Message)
      requires Valid() && m.AppendRsp?
      modifies this, log, progress.Values
      ensures Valid() && progress == old(progress)
      ensures View() == Spec.HandleAppendRsp(old(View()), m)
    {
      if m.from !in progress {
        return;
      }
      if m.reject {
        var retry := StepBack(m.from, m.index, m.conflictIndex);
        if retry {
          SendAppend(m.from);
        }
        return;
      }
      if m.index > progress[m.from].MatchIndex {
        Acknowledge(m.from, m.index);
        MaybeCommit();
        if progress[m.from].MatchIndex < log.LastIndex() {
          SendAppend(m.from);
        }
      }
    }

    method StepBack(p: NodeId, rejected: nat, conflictIndex: nat) returns (retry: bool)
      requires Valid() && p in progress
      modifies this, progress.Values
      ensures Valid() && progress == old(progress)
      ensures var r := Spec.MaybeDecrTo(old(tracks)[p], rejected, conflictIndex);
              View() == old(View()).(progress := old(tracks)[p := r.0]) && retry == r.1
    {
      assert progress[p].View() == tracks[p];
      retry := progress[p].MaybeDecrTo(rejected, conflictIndex);
      tracks := tracks[p := progress[p].View()];
    }

    method Acknowledge(p: NodeId, index: nat)
      requires Valid() && p in progress && index > tracks[p].matched
      modifies this, progress.Values
      ensures Valid() && progress == old(progress)
      ensures View() == old(View()).(progress := old(tracks)[p := Spec.Acked(old(tracks)[p], index)])
    {
      assert progress[p].View() == tracks[p];
      var prog := progress[p];
      var _ := prog.MaybeUpdate(index);
      if prog.State != Replicate {
        prog.BecomeReplicate();
      }
      tracks := tracks[p := prog.View()];
    }

    method HandleHeartbeatRsp(m: Message)
      requires Valid() && m.HeartbeatRsp?
      modifies this
      ensures Valid() && progress == old(progress)
      ensures View() == Spec.HandleHeartbeatRsp(old(View()), m)
    {
      if m.from in progress {
        assert progress[m.from].View() == tracks[m.from];
        if progress[m.from].MatchIndex < log.LastIndex() {
          SendAppend(m.from);
        }
      }
    }

    method HandleUnreachable(m: Message)
      requires Valid() && m.Unreachable?
      modifies this, progress.Values
      ensures Valid() && progress == old(progress)
      ensures View() == Spec.HandleUnreachable(old(View()), m)
    {
      if m.from in progress {
        assert progress[m.from].View() == tracks[m.from];
        if progress[m.from].State == Replicate {
          progress[m.from].BecomeProbe();
          tracks := tracks[m.from := progress[m.from].View()];
        }
      }
    }

    /** The match indices, in whatever order the map yields them. */
    method MatchIndexes() returns (ms: seq<nat>)
      requires Valid()
      ensures |ms| == |tracks.Keys|
      ensures forall n: nat :: CountAtLeast(ms, n) == |Counted(tracks, tracks.Keys, n)|
    {
      ms := [];
      var todo := progress.Keys;
      ghost var done: set<NodeId> := {};
      while todo != {}
        invariant done !! todo && done + todo == tracks.Keys
        invariant CountsFor(ms, tracks, done)
        decreases |todo|
      {
        var p :| p in todo;
        assert progress[p].View() == tracks[p];
        CountMore(tracks, done, p, ms);
        ms := ms + [progress[p].MatchIndex];
        todo := todo - {p};
        done := done + {p};
      }
      assert done == tracks.Keys;
    }

    method MaybeCommit()
      requires Valid()
      modifies log
      ensures Valid() && View() == Spec.MaybeCommit(old(View()))
    {
      ghost var v := View();
      var ms := MatchIndexes();
      SameCommit(v, ms);
      Spec.CommitIndexIsLargest(v, |v.log|);
      var _ := log.MaybeCommit(ms, term);
    }

    // -------------------------------------------------------------- dispatch

    method StepFollower(m: Message) returns (err: StepError)
      requires Valid() && role == Follower && Spec.WellFormed(m)
      modifies this, log
      ensures Valid() && progress == old(progress)
      ensures View() == Spec.StepFollower(old(View()), m)
      ensures err == if m.Propose? && old(lead) == NoNode then NoLeaderKnown else NoError
      ensures m.Heartbeat? || m.Append? ==> electionElapsed == 0
    {
      err := NoError;
      match m
      case Heartbeat(_, _, _, _) =>
        electionElapsed := 0;
        lead := m.from;
        HandleHeartbeat(m);
      case Append(_, _, _, _, _, _, _) =>
        electionElapsed := 0;
        lead := m.from;
        HandleAppend(m);
      case Vote(_, _, _, _, _) => HandleVote(m);
      case Propose(_, _, _, _) =>
        if lead == NoNode {
          err := NoLeaderKnown;
        } else {
          Send(Propose(if m.from == NoNode then cfg.id else m.from, lead,
                       if m.term == 0 then term else m.term, m.entries));
        }
      case _ =>
    }

    method StepCandidate(m: Message) returns (err: StepError)
      requires Valid() && role == Candidate && Spec.WellFormed(m)
      modifies this, log
      ensures Valid() && fresh(progress.Values - old(progress.Values))
      ensures View() == Spec.StepCandidate(old(View()), m)
      ensures err == if m.Propose? then ElectionInProgress else NoError
      ensures m.Heartbeat? || m.Append? ==> electionElapsed == 0
    {
      err := NoError;
      match m
      case VoteRsp(_, _, _, _) => HandleVoteRsp(m);
      case Append(_, _, _, _, _, _, _) =>
        BecomeFollower(m.term, m.from);
        HandleAppend(m);
      case Heartbeat(_, _, _, _) =>
        BecomeFollower(m.term, m.from);
        HandleHeartbeat(m);
      case Propose(_, _, _, _) => err := ElectionInProgress;
      case Vote(_, _, _, _, _) => HandleVote(m);
      case _ =>
    }

    method StepLeader(m: Message) returns (err: StepError)
      requires Valid() && role == Leader
      modifies this, log, progress.Values
      ensures Valid() && progress == old(progress)
      ensures View() == Spec.StepLeader(old(View()), m)
      ensures err == if m.Propose? && m.entries == [] then EmptyProposal else NoError
    {
      err := NoError;
      match m
      case Propose(_, _, _, _) =>
        if |m.entries| == 0 {
          err := EmptyProposal;
        } else {
          HandleProposal(m);
        }
      case AppendRsp(_, _, _, _, _, _, _) => HandleAppendRsp(m);
      case HeartbeatRsp(_, _, _, _) => HandleHeartbeatRsp(m);
      case Vote(_, _, _, _, _) => HandleVote(m);
      case Unreachable(_, _, _) => HandleUnreachable(m);
      case _ =>
    }

    method StepRole(m: Message) returns (err: StepError)
      requires Valid() && Spec.WellFormed(m)
      modifies this, log, progress.Values
      ensures Valid() && fresh(progress.Values - old(progress.Values))
      ensures View() == Spec.StepRole(old(View()), m)
      ensures err == Spec.RoleError(old(View()), m)
      ensures (m.Heartbeat? || m.Append?) && old(role) != Leader ==> electionElapsed == 0
    {
      match role
      case Follower => err := StepFollower(m);
      case Candidate => err := StepCandidate(m);
      case Leader => err := StepLeader(m);
    }

    method Step(m: Message) returns (err: StepError)
      requires Valid() && Spec.WellFormed(m)
      modifies this, log, progress.Values
      ensures Valid() && fresh(progress.Values - old(progress.Values))
      ensures View() == Spec.Step(old(View()), m)
      ensures err == Spec.ErrorOf(old(View()), m)
      ensures (m.Heartbeat? || m.Append?) && m.term >= old(term) && (old(role) != Leader || m.term > old(term)) ==>
                electionElapsed == 0
    {
      var stale := CatchUp(m);
      if stale {
        return NoError;
      }
      err := StepRole(m);
    }

    /** A message of a higher term may change the role; one of a lower term is ignored. */
    method CatchUp(m: Message) returns (stale: bool)
      requires Valid()
      modifies this
      ensures Valid() && progress == old(progress)
      ensures stale == Spec.Stale(old(View()), m)
      ensures View() == if stale then old(View()) else Spec.CatchUp(old(View()), m)
      ensures !stale && !m.Vote? && m.term > old(term) ==> electionElapsed == 0
    {
      stale := false;
      if m.term == 0 {
      } else if m.term > term {
        if !m.Vote? {
          var newLead := m.from;
          if m.VoteRsp? {
            newLead := NoNode;
          }
          BecomeFollower(m.term, newLead);
        }
      } else if m.term < term {
        stale := true;
      }
    }

    /** One tick of the timer of the role.  If it reaches its timeout, the counter starts over and the timer
        fires. */
    method Tick()
      requires Valid()
      modifies this, log
      ensures Valid() && fresh(progress.Values - old(progress.Values))
      ensures old(role) == Leader && old(heartbeatElapsed) + 1 >= heartbeatTick ==>
                View() == Spec.BroadcastHeartbeat(old(View())) == Spec.TimerFires(old(View())) && heartbeatElapsed == 0
      ensures old(role) == Leader && old(heartbeatElapsed) + 1 < heartbeatTick ==>
                View() == old(View()) && heartbeatElapsed == old(heartbeatElapsed) + 1
      ensures old(role) == Leader ==> electionElapsed == old(electionElapsed) && electionTimeout == old(electionTimeout)
      ensures old(role) != Leader && old(electionElapsed) + 1 >= old(electionTimeout) ==>
                && View() == Spec.Campaign(old(View())) == Spec.TimerFires(old(View()))
                && electionElapsed == 0 && electionTick <= electionTimeout < 2 * electionTick
      ensures old(role) != Leader && old(electionElapsed) + 1 < old(electionTimeout) ==>
                && View() == old(View())
                && electionElapsed == old(electionElapsed) + 1 && electionTimeout == old(electionTimeout)
    {
      if role == Leader {
        heartbeatElapsed := heartbeatElapsed + 1;
        if heartbeatElapsed >= heartbeatTick {
          heartbeatElapsed := 0;
          BroadcastHeartbeat();
        }
      } else {
        electionElapsed := electionElapsed + 1;
        if electionElapsed >= electionTimeout {
          electionElapsed := 0;
          Campaign();
        }
      }
    }

    method TakeMessages() returns (ms: seq<Message>)
      requires Valid()
      modifies `msgs
      ensures Valid() && ms == old(msgs) && View() == old(View()).(msgs := [])
    {
      ms := msgs;
      msgs := [];
    }
  }

  /** Tracks for this node and the first k peers. */
  ghost function FreshUpTo(v: Node, k: nat): map<NodeId, Track>
    requires k <= |v.cfg.peers|
  {
    if k == 0 then v.progress[v.cfg.id := Track(|v.log| + 1, |v.log|, Replicate)]
    else FreshUpTo(v, k - 1)[v.cfg.peers[k - 1] := Track(|v.log| + 1, 0, Probe)]
  }

  lemma {:induction false} FreshAt(v: Node, k: nat)
    requires k <= |v.cfg.peers|
    ensures FreshUpTo(v, k).Keys == v.progress.Keys + {v.cfg.id} + set p | p in v.cfg.peers[..k]
    ensures forall p :: p in FreshUpTo(v, k) ==>
              FreshUpTo(v, k)[p] == (if p in v.cfg.peers[..k] then Track(|v.log| + 1, 0, Probe)
                                     else if p == v.cfg.id then Track(|v.log| + 1, |v.log|, Replicate)
                                     else v.progress[p])
  {
    if k > 0 {
      FreshAt(v, k - 1);
      assert v.cfg.peers[..k] == v.cfg.peers[..k - 1] + [v.cfg.peers[k - 1]];
    }
  }

  lemma FreshIsAll(v: Node)
    ensures FreshUpTo(v, |v.cfg.peers|) == Spec.FreshProgress(v)
  {
    FreshAt(v, |v.cfg.peers|);
    assert v.cfg.peers[..|v.cfg.peers|] == v.cfg.peers;
  }

  ghost function Supporters(votes: map<NodeId, bool>, done: set<NodeId>): set<NodeId> {
    set v | v in done && v in votes && votes[v]
  }

  lemma SupportersStep(votes: map<NodeId, bool>, done: set<NodeId>, v: NodeId)
    requires v in votes && v !in done
    ensures |Supporters(votes, done + {v})| == |Supporters(votes, done)| + if votes[v] then 1 else 0
  {
    assert Supporters(votes, done + {v}) == if votes[v] then Supporters(votes, done) + {v} else Supporters(votes, done);
  }

  /** The members among `done` whose match index reaches n. */
  ghost function Counted(ts: map<NodeId, Track>, done: set<NodeId>, n: nat): set<NodeId> {
    set p | p in done && p in ts && ts[p].matched >= n
  }

  /** The collected match indices are those of the members in `done`. */
  ghost predicate CountsFor(ms: seq<nat>, ts: map<NodeId, Track>, done: set<NodeId>) {
    |ms| == |done| && forall n: nat :: CountAtLeast(ms, n) == |Counted(ts, done, n)|
  }

  lemma {:induction false} CountOne(ts: map<NodeId, Track>, done: set<NodeId>, p: NodeId, ms: seq<nat>, n: nat)
    requires p in ts && p !in done && CountAtLeast(ms, n) == |Counted(ts, done, n)|
    ensures CountAtLeast(ms + [ts[p].matched], n) == |Counted(ts, done + {p}, n)|
  {
    var ms' := ms + [ts[p].matched];
    assert ms'[..|ms|] == ms;
    CountOfPrefix(ms', |ms|, n);
    assert ms'[..|ms| + 1] == ms';
    assert Counted(ts, done + {p}, n)
           == if ts[p].matched >= n then Counted(ts, done, n) + {p} else Counted(ts, done, n);
  }

  lemma {:induction false} CountMore(ts: map<NodeId, Track>, done: set<NodeId>, p: NodeId, ms: seq<nat>)
    requires p in ts && p !in done && CountsFor(ms, ts, done)
    ensures CountsFor(ms + [ts[p].matched], ts, done + {p})
  {
    forall n: nat ensures CountAtLeast(ms + [ts[p].matched], n) == |Counted(ts, done + {p}, n)| {
      CountOne(ts, done, p, ms, n);
    }
  }

  /** Counting the collected match indices is counting the members that hold an index. */
  lemma {:induction false} SameCommit(v: Node, ms: seq<nat>)
    requires |ms| == |v.progress.Keys|
    requires forall n: nat :: CountAtLeast(ms, n) == |Counted(v.progress, v.progress.Keys, n)|
    ensures forall n: nat :: Qualifies(v.log, ms, v.term, n) <==> Spec.CanCommit(v, n)
  {
    forall n: nat ensures Qualifies(v.log, ms, v.term, n) <==> Spec.CanCommit(v, n) {
      assert Counted(v.progress, v.progress.Keys, n) == Spec.Holders(v, n);
      assert |v.progress| == |v.progress.Keys|;
    }
  }
}
