/** What a leader does: replicate, track acknowledgements, commit. */
module RaftLeading {
  import opened RaftTypes
  import opened RaftSpec
  import opened RaftHistory
  import opened RaftFrame
  import opened RaftCompleteness
  import opened RaftRecord
  import opened RaftVoting

  // ---------------------------------------------------------------- sending entries

  lemma AppendToOK(h: Hist, n: Node, to: NodeId)
    requires Good(h, n) && n.role == Leader && to in n.progress
    ensures MsgOK(h, AppendTo(n, to))
  {
    assert LeaderRecOK(h, n.term);
    assert TrackOK(h, n.cfg.id, n.term, |n.log|, n.committed, to, n.progress[to]);
    AppendToFits(h, n, to);
  }

  lemma AppendToFits(h: Hist, n: Node, to: NodeId)
    requires n.term in h.leaders && h.leaders[n.term].log == n.log && n.cfg.maxEntries >= 1
    requires to in n.progress && |h.leaders[n.term].base| < n.progress[to].next <= |n.log| + 1
    requires |h.leaders[n.term].base| < |n.log| && CommitKnown(h.leaders, n.term, n.committed)
    ensures AppendOK(h, AppendTo(n, to))
  {
    SliceIsPart(n.log, n.progress[to].next, n.cfg.maxEntries);
  }

  lemma SliceIsPart(log: seq<LogEntry>, next: nat, max: nat)
    requires 1 <= next <= |log| + 1 && max >= 1
    ensures next - 1 + |Slice(log, next, next + max)| <= |log|
    ensures Slice(log, next, next + max) == log[next - 1..next - 1 + |Slice(log, next, next + max)|]
    ensures next <= |log| ==> |Slice(log, next, next + max)| > 0
  {}

  lemma SendAppendOK(h: Hist, n: Node, to: NodeId)
    requires Good(h, n) && n.role == Leader
    ensures NodeOK(h, SendAppend(n, to))
  {
    if to in n.progress && n.progress[to].state != Snapshotting {
      AppendToOK(h, n, to);
      SendOK(h, n, AppendTo(n, to));
    }
  }

  lemma {:induction false} SendAppendsOK(h: Hist, n: Node, k: nat)
    requires Good(h, n) && n.role == Leader && k <= |n.cfg.peers|
    ensures NodeOK(h, SendAppends(n, k))
  {
    if k > 0 {
      SendAppendsOK(h, n, k - 1);
      SendAppendOK(h, SendAppends(n, k - 1), n.cfg.peers[k - 1]);
    }
  }

  // ---------------------------------------------------------------- new entries

  /** The history after the leader `n` has appended to its log. */
  ghost function WithEntries(h: Hist, n: Node, log: seq<LogEntry>): Hist
    requires n.cfg.id in h.recs && n.term in h.leaders
  {
    Record(h, n.cfg.id, n.term, h.leaders[n.term].(log := log), |log|, h.recs[n.cfg.id].clean)
  }

  ghost predicate Extends(n: Node, log: seq<LogEntry>) {
    n.log <= log
    && forall i :: |n.log| <= i < |log| ==> log[i].index == i + 1 && log[i].term == n.term
  }

  lemma WithEntriesGrows(h: Hist, n: Node, log: seq<LogEntry>)
    requires Leads(h, n) && Extends(n, log)
    ensures Recordable(h, n.cfg.id, n.term, h.leaders[n.term].(log := log), |log|, h.recs[n.cfg.id].clean)
    ensures Grows(h, WithEntries(h, n, log), n.cfg.id)
    ensures ActsOnlyIn(h, WithEntries(h, n, log), n.cfg.id, n.term)
  {
    RecordGrows(h, n.cfg.id, n.term, h.leaders[n.term].(log := log), |log|, h.recs[n.cfg.id].clean);
  }

  lemma WithEntriesRec(h: Hist, n: Node, log: seq<LogEntry>)
    requires Leads(h, n) && Extends(n, log) && LeaderRecOK(h, n.term)
    ensures LeaderRecOK(WithEntries(h, n, log), n.term)
  {
    var h', es := WithEntries(h, n, log), log[|n.log|..];
    WithEntriesGrows(h, n, log);
    assert log == n.log + es;
    ExtendedLogOK(h.leaders, h'.leaders, n.term, n.log, es);
    RecordedLeaderOK(h, h', n.cfg.id, n.term);
  }

  lemma WithEntriesTracks(h: Hist, n: Node, log: seq<LogEntry>, self: Track)
    requires Leads(h, n) && Extends(n, log) && n.cfg.id in n.progress
    requires TracksHold(h, n.cfg.id, n.term, |n.log|, n.committed, n.progress)
    requires self == MaybeUpdate(n.progress[n.cfg.id], |log|)
    ensures TracksHold(WithEntries(h, n, log), n.cfg.id, n.term, |log|, n.committed, n.progress[n.cfg.id := self])
  {
    var id, h', ps := n.cfg.id, WithEntries(h, n, log), n.progress[n.cfg.id := self];
    WithEntriesGrows(h, n, log);
    assert ps.Keys == n.progress.Keys;
    forall p {:trigger TrackOK(h', id, n.term, |log|, n.committed, p, ps[p])} | p in ps
      ensures TrackOK(h', id, n.term, |log|, n.committed, p, ps[p])
    {
      assert TrackOK(h, id, n.term, |n.log|, n.committed, p, n.progress[p]);
      if p != id && n.progress[p].matched > n.committed {
        HasStoredGrows(h, h', id, p, n.term, n.progress[p].matched);
      }
    }
  }

  lemma WithEntriesOK(h: Hist, n: Node, log: seq<LogEntry>)
    requires Good(h, n) && n.role == Leader && Extends(n, log)
    ensures HistOK(WithEntries(h, n, log))
  {
    assert LeaderRecOK(h, n.term);
    WithEntriesGrows(h, n, log);
    WithEntriesRec(h, n, log);
    RecordOK(h, n, h.leaders[n.term].(log := log), |log|, h.recs[n.cfg.id].clean);
  }

  lemma WithEntriesLog(h: Hist, n: Node, log: seq<LogEntry>)
    requires Leads(h, n) && Extends(n, log) && LeaderRecOK(h, n.term)
    requires CommitKnown(h.leaders, n.term, n.committed) && CleanUpTo(h.leaders, n.log, n.committed)
    ensures var h' := WithEntries(h, n, log);
            && StoredOK(h'.leaders, h'.recs[n.cfg.id].stored) && LogHolds(h', n.cfg.id, n.term, log)
            && CommitKnown(h'.leaders, n.term, n.committed) && CleanUpTo(h'.leaders, log, n.committed)
  {
    var h' := WithEntries(h, n, log);
    WithEntriesGrows(h, n, log);
    WithEntriesRec(h, n, log);
    ExtendedLogHolds(h, n, h', log);
    CommitKnownGrows(h.leaders, h'.leaders, n.term, n.committed, n.term);
    TakeOfPrefix(n.log, log, n.committed);
    CleanGrows(h.leaders, h'.leaders, n.log, n.committed, log);
  }

  lemma WithEntriesNode(h: Hist, n: Node, log: seq<LogEntry>, self: Track)
    requires Good(h, n) && n.role == Leader && Extends(n, log)
    requires self == MaybeUpdate(n.progress[n.cfg.id], |log|)
    ensures NodeOK(WithEntries(h, n, log), n.(log := log, progress := n.progress[n.cfg.id := self]))
  {
    WithEntriesKept(h, n, log, self);
    WithEntriesLead(h, n, log, self);
    WithEntriesGrows(h, n, log);
    MsgsFrame(h, WithEntries(h, n, log), n.cfg.id, n.msgs);
  }

  lemma WithEntriesKept(h: Hist, n: Node, log: seq<LogEntry>, self: Track)
    requires Good(h, n) && n.role == Leader && Extends(n, log)
    ensures var h', n' := WithEntries(h, n, log), n.(log := log, progress := n.progress[n.cfg.id := self]);
            && StoredOK(h'.leaders, h'.recs[n.cfg.id].stored)
            && TermsOK(h', n') && LogInv(h', n') && CommitInv(h', n')
  {
    assert LeaderRecOK(h, n.term);
    WithEntriesGrows(h, n, log);
    WithEntriesLog(h, n, log);
    RecordTerms(h, n, h.leaders[n.term].(log := log), |log|, h.recs[n.cfg.id].clean, Leader, n.cfg.id);
  }

  lemma WithEntriesLead(h: Hist, n: Node, log: seq<LogEntry>, self: Track)
    requires Good(h, n) && n.role == Leader && Extends(n, log)
    requires self == MaybeUpdate(n.progress[n.cfg.id], |log|)
    ensures LeaderInv(WithEntries(h, n, log), n.(log := log, progress := n.progress[n.cfg.id := self]))
  {
    assert LeaderRecOK(h, n.term);
    WithEntriesLog(h, n, log);
    WithEntriesTracks(h, n, log, self);
  }

  lemma TakeProposalOK(h: Hist, n: Node, es: seq<LogEntry>) returns (h': Hist)
    requires Good(h, n) && n.role == Leader
    ensures Good(h', TakeProposal(n, es)) && Grows(h, h', n.cfg.id)
    ensures ActsOnlyIn(h, h', n.cfg.id, n.term)
  {
    var log := n.log + Numbered(n, es);
    h' := WithEntries(h, n, log);
    WithEntriesGrows(h, n, log);
    WithEntriesOK(h, n, log);
    WithEntriesNode(h, n, log, MaybeUpdate(n.progress[n.cfg.id], |log|));
  }

  // ---------------------------------------------------------------- commit

  ghost function CommittedRec(h: Hist, n: Node, c: nat): LeaderRec
    requires n.term in h.leaders
  {
    h.leaders[n.term].(commit := c, quorum := Holders(n, c) + {n.cfg.id})
  }

  /** The history after the leader `n` has committed up to c. */
  ghost function WithCommit(h: Hist, n: Node, c: nat): Hist
    requires n.cfg.id in h.recs && n.term in h.leaders
  {
    Record(h, n.cfg.id, n.term, CommittedRec(h, n, c), |n.log|, c)
  }

  /** Those counted for an index, with the leader, are at least half of the members, and all have
      really stored the leader's log that far in this term. */
  lemma HoldersHaveStored(h: Hist, n: Node, c: nat)
    requires Good(h, n) && n.role == Leader && n.committed < c <= |n.log| && CanCommit(n, c)
    ensures var q := Holders(n, c) + {n.cfg.id};
            q <= h.ids && 2 * |q| >= |h.ids| && forall e :: e in q ==> HasStored(h, e, n.term, c)
  {
    var q := Holders(n, c) + {n.cfg.id};
    assert |n.progress| == |n.progress.Keys|;
    SubsetSize(Holders(n, c), q);
    forall e {:trigger HasStored(h, e, n.term, c)} | e in q ensures HasStored(h, e, n.term, c) {
      if e != n.cfg.id {
        assert TrackOK(h, n.cfg.id, n.term, |n.log|, n.committed, e, n.progress[e]);
      }
    }
  }

  lemma WithCommitGrows(h: Hist, n: Node, c: nat)
    requires Leads(h, n) && n.committed < c
    ensures Recordable(h, n.cfg.id, n.term, CommittedRec(h, n, c), |n.log|, c)
    ensures Grows(h, WithCommit(h, n, c), n.cfg.id)
    ensures ActsOnlyIn(h, WithCommit(h, n, c), n.cfg.id, n.term)
  {
    RecordGrows(h, n.cfg.id, n.term, CommittedRec(h, n, c), |n.log|, c);
  }

  lemma OwnTermBeyondBase(base: seq<LogEntry>, log: seq<LogEntry>, t: nat, c: nat)
    requires base <= log && TermsBelow(base, t) && 1 <= c <= |log| && log[c - 1].term == t
    ensures c > |base|
  {
    assert base == log[..|base|];
  }

  lemma WithCommitRec(h: Hist, n: Node, c: nat)
    requires Good(h, n) && n.role == Leader && n.committed < c <= |n.log| && CanCommit(n, c)
    ensures LeaderRecOK(WithCommit(h, n, c), n.term)
  {
    var h', r := WithCommit(h, n, c), h.leaders[n.term];
    WithCommitGrows(h, n, c);
    HoldersHaveStored(h, n, c);
    assert LeaderRecOK(h, n.term);
    LogOKGrows(h.leaders, h'.leaders, r.log);
    OwnTermBeyondBase(r.base, r.log, n.term, c);
    RecordedLeaderOK(h, h', n.cfg.id, n.term);
  }

  lemma WithCommitTracks(h: Hist, n: Node, c: nat)
    requires Leads(h, n) && n.committed < c
    requires TracksHold(h, n.cfg.id, n.term, |n.log|, n.committed, n.progress)
    ensures TracksHold(WithCommit(h, n, c), n.cfg.id, n.term, |n.log|, c, n.progress)
  {
    var id, h' := n.cfg.id, WithCommit(h, n, c);
    WithCommitGrows(h, n, c);
    forall p {:trigger TrackOK(h', id, n.term, |n.log|, c, p, n.progress[p])} | p in n.progress
      ensures TrackOK(h', id, n.term, |n.log|, c, p, n.progress[p])
    {
      assert TrackOK(h, id, n.term, |n.log|, n.committed, p, n.progress[p]);
      if p != id && n.progress[p].matched > n.committed {
        HasStoredGrows(h, h', id, p, n.term, n.progress[p].matched);
      }
    }
  }

  lemma WithCommitOK(h: Hist, n: Node, c: nat)
    requires Good(h, n) && n.role == Leader && n.committed < c <= |n.log| && CanCommit(n, c)
    ensures HistOK(WithCommit(h, n, c))
  {
    WithCommitGrows(h, n, c);
    WithCommitRec(h, n, c);
    RecordOK(h, n, CommittedRec(h, n, c), |n.log|, c);
  }

  lemma WithCommitLog(h: Hist, n: Node, c: nat)
    requires Leads(h, n) && n.committed < c <= |n.log| && LeaderRecOK(WithCommit(h, n, c), n.term)
    ensures var h' := WithCommit(h, n, c);
            && StoredOK(h'.leaders, h'.recs[n.cfg.id].stored) && LogHolds(h', n.cfg.id, n.term, n.log)
            && CommitKnown(h'.leaders, n.term, c) && CleanUpTo(h'.leaders, n.log, c)
  {
    var h' := WithCommit(h, n, c);
    WithCommitGrows(h, n, c);
    ExtendedLogHolds(h, n, h', n.log);
    assert n.term in h'.leaders && c <= h'.leaders[n.term].commit && n.log[..c] <= h'.leaders[n.term].log;
  }

  lemma WithCommitNode(h: Hist, n: Node, c: nat)
    requires Good(h, n) && n.role == Leader && n.committed < c <= |n.log| && CanCommit(n, c)
    ensures NodeOK(WithCommit(h, n, c), n.(committed := c))
  {
    var id, h' := n.cfg.id, WithCommit(h, n, c);
    WithCommitGrows(h, n, c);
    WithCommitRec(h, n, c);
    WithCommitLog(h, n, c);
    RecordTerms(h, n, CommittedRec(h, n, c), |n.log|, c, Leader, id);
    WithCommitTracks(h, n, c);
    MsgsFrame(h, h', id, n.msgs);
  }

  lemma MaybeCommitOK(h: Hist, n: Node) returns (h': Hist)
    requires Good(h, n) && n.role == Leader
    ensures Good(h', MaybeCommit(n)) && Grows(h, h', n.cfg.id)
    ensures ActsOnlyIn(h, h', n.cfg.id, n.term)
  {
    var c := CommitIndex(n, |n.log|);
    CommitIndexIsLargest(n, |n.log|);
    if c == n.committed {
      h' := h;
      assert MaybeCommit(n) == n;
    } else {
      h' := WithCommit(h, n, c);
      WithCommitGrows(h, n, c);
      WithCommitOK(h, n, c);
      WithCommitNode(h, n, c);
    }
  }

  lemma HandleProposalOK(h: Hist, n: Node, m: Message) returns (h': Hist)
    requires Good(h, n) && n.role == Leader && m.Propose?
    ensures Good(h', HandleProposal(n, m)) && Grows(h, h', n.cfg.id)
    ensures ActsOnlyIn(h, h', n.cfg.id, n.term)
  {
    var h1 := TakeProposalOK(h, n, m.entries);
    var n1 := TakeProposal(n, m.entries);
    SendAppendsOK(h1, n1, |n1.cfg.peers|);
    h' := MaybeCommitOK(h1, BroadcastAppend(n1));
    GrowsTrans(h, h1, h', n.cfg.id);
  }

  // ---------------------------------------------------------------- acknowledgements

  /** Replacing one good track by another keeps the node good. */
  lemma TrackUpdateOK(h: Hist, n: Node, p: NodeId, t: Track)
    requires Good(h, n) && n.role == Leader && p in n.progress
    requires TrackOK(h, n.cfg.id, n.term, |n.log|, n.committed, p, t)
    ensures NodeOK(h, n.(progress := n.progress[p := t]))
  {
    assert n.progress[p := t].Keys == n.progress.Keys;
  }

  /** A rejection never takes the next index below the leader's first own entry: it carries index 0,
      which a probing track does not expect, and a replicating one falls back to what is stored. */
  lemma RejectedTrackOK(h: Hist, n: Node, m: Message)
    requires Good(h, n) && n.role == Leader && m.AppendRsp? && MsgOK(h, m) && m.reject && m.from in n.progress
    ensures TrackOK(h, n.cfg.id, n.term, |n.log|, n.committed, m.from,
                    MaybeDecrTo(n.progress[m.from], m.index, m.conflictIndex).0)
  {
    assert TrackOK(h, n.cfg.id, n.term, |n.log|, n.committed, m.from, n.progress[m.from]);
  }

  lemma AckedTrackOK(h: Hist, n: Node, m: Message)
    requires Good(h, n) && n.role == Leader && m.AppendRsp? && MsgOK(h, m) && !m.reject && m.from in n.progress
    requires m.term == n.term && m.index > n.progress[m.from].matched
    ensures TrackOK(h, n.cfg.id, n.term, |n.log|, n.committed, m.from, Acked(n.progress[m.from], m.index))
  {
    assert TrackOK(h, n.cfg.id, n.term, |n.log|, n.committed, m.from, n.progress[m.from]);
  }

  lemma RejectionOK(h: Hist, n: Node, m: Message)
    requires Good(h, n) && n.role == Leader && m.AppendRsp? && MsgOK(h, m) && m.reject
    ensures NodeOK(h, HandleAppendRsp(n, m))
  {
    if m.from in n.progress {
      var p := MaybeDecrTo(n.progress[m.from], m.index, m.conflictIndex).0;
      RejectedTrackOK(h, n, m);
      TrackUpdateOK(h, n, m.from, p);
      SendAppendOK(h, n.(progress := n.progress[m.from := p]), m.from);
    }
  }

  lemma AckOK(h: Hist, n: Node, m: Message) returns (h': Hist)
    requires Good(h, n) && n.role == Leader && m.AppendRsp? && MsgOK(h, m) && !m.reject
    requires m.from in n.progress && m.term == n.term && m.index > n.progress[m.from].matched
    ensures Good(h', HandleAppendRsp(n, m)) && Grows(h, h', n.cfg.id)
    ensures ActsOnlyIn(h, h', n.cfg.id, n.term)
  {
    var p := Acked(n.progress[m.from], m.index);
    AckedTrackOK(h, n, m);
    TrackUpdateOK(h, n, m.from, p);
    h' := AfterAckOK(h, n.(progress := n.progress[m.from := p]), m.from);
  }

  lemma AfterAckOK(h: Hist, n: Node, to: NodeId) returns (h': Hist)
    requires Good(h, n) && n.role == Leader && to in n.progress
    ensures Good(h', AfterAck(n, to)) && Grows(h, h', n.cfg.id)
    ensures ActsOnlyIn(h, h', n.cfg.id, n.term)
  {
    h' := MaybeCommitOK(h, n);
    SendAppendOK(h', MaybeCommit(n), to);
  }

  lemma HandleAppendRspOK(h: Hist, n: Node, m: Message) returns (h': Hist)
    requires Good(h, n) && n.role == Leader && m.AppendRsp? && MsgOK(h, m)
    requires !m.reject ==> m.term == n.term
    ensures Good(h', HandleAppendRsp(n, m)) && Grows(h, h', n.cfg.id)
    ensures ActsOnlyIn(h, h', n.cfg.id, n.term)
  {
    h' := h;
    if m.reject {
      RejectionOK(h, n, m);
    } else if m.from in n.progress && m.index > n.progress[m.from].matched {
      h' := AckOK(h, n, m);
    }
  }

  lemma HandleUnreachableOK(h: Hist, n: Node, m: Message)
    requires Good(h, n) && n.role == Leader && m.Unreachable?
    ensures NodeOK(h, HandleUnreachable(n, m))
  {
    if m.from in n.progress {
      assert TrackOK(h, n.cfg.id, n.term, |n.log|, n.committed, m.from, n.progress[m.from]);
      TrackUpdateOK(h, n, m.from, n.progress[m.from].(state := Probe));
    }
  }
}
