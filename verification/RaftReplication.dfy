/** Appends, acknowledgements and heartbeats keep the invariant. */
module RaftReplication {
  import opened RaftTypes
  import opened RaftSpec
  import opened RaftHistory
  import opened RaftFrame
  import opened RaftCompleteness
  import opened RaftRecord
  import opened RaftVoting

  // ---------------------------------------------------------------- what an append does to a log

  /** If the log agrees with the leader's up to `prev`, an append of the leader's next entries gives
      the log itself when it already holds them, and otherwise exactly the leader's log that far. */
  lemma {:induction false} AppendLogResult(log: seq<LogEntry>, l: seq<LogEntry>, prev: nat, es: seq<LogEntry>)
    requires Agree(log, l) && Numbers(l)
    requires prev + |es| <= |l| && es == l[prev..prev + |es|]
    requires prev <= |log| && log[..prev] == l[..prev]
    ensures OneBased(es)
    ensures AppendLog(log, es) == if l[..prev + |es|] <= log then log else l[..prev + |es|]
    decreases |es|
  {
    PartIsOneBased(l, prev, es);
    if es == [] {
      assert l[..prev] <= log;
    } else {
      NextOfPart(l, prev, es);
      if prev < |log| && log[prev].term == l[prev].term {
        AppendLogResult(log, l, prev + 1, es[1..]);
      } else {
        CutAndAppend(log, l, prev, es);
      }
    }
  }

  lemma PartIsOneBased(l: seq<LogEntry>, prev: nat, es: seq<LogEntry>)
    requires Numbers(l) && prev + |es| <= |l| && es == l[prev..prev + |es|]
    ensures OneBased(es)
  {
    forall i | 0 <= i < |es| ensures es[i].index >= 1 { assert es[i] == l[prev + i]; }
  }

  lemma NextOfPart(l: seq<LogEntry>, prev: nat, es: seq<LogEntry>)
    requires Numbers(l) && prev + |es| <= |l| && es == l[prev..prev + |es|] && es != []
    ensures es[0] == l[prev] && es[0].index == prev + 1 && es[1..] == l[prev + 1..prev + |es|]
  {}

  /** An entry that is missing, or that conflicts, cuts the log there. */
  lemma CutAndAppend(log: seq<LogEntry>, l: seq<LogEntry>, prev: nat, es: seq<LogEntry>)
    requires OneBased(es) && es != [] && es[0].index == prev + 1
    requires prev + |es| <= |l| && es == l[prev..prev + |es|]
    requires prev <= |log| && log[..prev] == l[..prev] && (prev < |log| ==> log[prev].term != l[prev].term)
    ensures AppendLog(log, es) == l[..prev + |es|] && !(l[..prev + |es|] <= log)
  {
    var upTo := prev + |es|;
    assert l[..upTo] == l[..prev] + l[prev..upTo];
    assert l[..upTo][prev] == l[prev];
    assert prev == |log| ==> log == l[..prev];
  }

  /** The consistency check makes the follower's log agree with the leader's up to the checked index. */
  lemma CheckedPrefix(ls: map<nat, LeaderRec>, log: seq<LogEntry>, l: seq<LogEntry>, prev: nat)
    requires LogOK(ls, log) && LogOK(ls, l) && prev <= |l|
    requires LogConsistent(log, prev, TermAt(l, prev))
    ensures prev <= |log| && log[..prev] == l[..prev]
  {
    if prev > 0 { LogMatching(ls, log, l, prev - 1); }
  }

  /** A log that holds an entry of the leader's own term, and none newer, is a prefix of its log. */
  lemma OwnTermPrefix(h: Hist, log: seq<LogEntry>, t: nat, k: nat)
    requires t in h.leaders && LeaderRecOK(h, t) && LogOK(h.leaders, log) && TermsBelow(log, t + 1)
    requires |h.leaders[t].base| < k <= |log| && k <= |h.leaders[t].log| && h.leaders[t].log[..k] <= log
    ensures log <= h.leaders[t].log
  {
    assert log[k - 1] == h.leaders[t].log[k - 1];
    assert log[k - 1].term <= log[|log| - 1].term;
    LastFromLeader(h.leaders, log);
  }

  /** After an accepted append the follower's whole log is a prefix of the leader's, past its no-op. */
  lemma AcceptedLog(h: Hist, log: seq<LogEntry>, m: Message)
    requires m.Append? && AppendOK(h, m) && LeaderRecOK(h, m.term)
    requires LogOK(h.leaders, log) && TermsBelow(log, m.term + 1)
    requires LogConsistent(log, m.logIndex, m.logTerm)
    ensures OneBased(m.entries)
    ensures AppendLog(log, m.entries) <= h.leaders[m.term].log
    ensures |h.leaders[m.term].base| < |AppendLog(log, m.entries)|
    ensures m.logIndex <= |log| && m.logIndex <= |AppendLog(log, m.entries)|
    ensures AppendLog(log, m.entries)[..m.logIndex] == log[..m.logIndex]
    ensures log <= h.leaders[m.term].log ==> log <= AppendLog(log, m.entries)
  {
    var l := h.leaders[m.term].log;
    CheckedPrefix(h.leaders, log, l, m.logIndex);
    LogsAgree(h.leaders, log, l);
    AppendLogResult(log, l, m.logIndex, m.entries);
    var upTo := m.logIndex + |m.entries|;
    if l[..upTo] <= log { OwnTermPrefix(h, log, m.term, upTo); }
  }

  // ---------------------------------------------------------------- the follower accepts

  /** A step keeps the committed entries where they are; only terms and the commit index may grow. */
  ghost predicate Stable(n: Node, n': Node) {
    && n'.cfg == n.cfg && n'.term >= n.term && n'.applied == n.applied
    && n.committed <= n'.committed
    && n.committed <= |n.log| && n.committed <= |n'.log| && n'.log[..n.committed] == n.log[..n.committed]
  }

  /** The history after `n` has stored the first k entries of its term's leader. */
  ghost function WithStored(h: Hist, n: Node, k: nat, clean: nat): Hist
    requires n.cfg.id in h.recs && n.term in h.leaders
  {
    Record(h, n.cfg.id, n.term, h.leaders[n.term], k, clean)
  }

  lemma WithStoredOK(h: Hist, n: Node, k: nat, clean: nat)
    requires HistOK(h) && n.cfg.id in h.recs && TermsOK(h, n) && n.term in h.leaders
    requires |h.leaders[n.term].base| < k <= |h.leaders[n.term].log|
    requires Recordable(h, n.cfg.id, n.term, h.leaders[n.term], k, clean)
    ensures HistOK(WithStored(h, n, k, clean))
    ensures Grows(h, WithStored(h, n, k, clean), n.cfg.id)
    ensures ActsOnlyIn(h, WithStored(h, n, k, clean), n.cfg.id, n.term)
  {
    RecordGrows(h, n.cfg.id, n.term, h.leaders[n.term], k, clean);
    assert LeaderRecOK(h, n.term);
    LeaderFrame(h, WithStored(h, n, k, clean), n.cfg.id, n.term);
    RecordOK(h, n, h.leaders[n.term], k, clean);
  }

  /** Storing a prefix of the leader's log that reaches past its start either keeps what was stored of
      an earlier leader, or that was already missing from what this leader started with. */
  lemma AcceptedKeeps(h: Hist, n: Node, log: seq<LogEntry>, st': map<nat, nat>)
    requires n.cfg.id in h.recs && StoredOK(h.leaders, h.recs[n.cfg.id].stored) && StoredOK(h.leaders, st')
    requires n.term in h.leaders && LeaderRecOK(h, n.term)
    requires log <= h.leaders[n.term].log && |log| > |h.leaders[n.term].base|
    requires st' == h.recs[n.cfg.id].stored[n.term := |log|]
    ensures KeepsAll(h.leaders, st', log, n.term + 1)
  {
    var ls, to := h.leaders, n.term + 1;
    var base := ls[n.term].base;
    forall from, k: nat {:trigger Keeps(ls, st', log, from, k, to)} | from in st' && from < to && k <= st'[from]
      ensures Keeps(ls, st', log, from, k, to)
    {
      if from == n.term {
        assert ls[from].log[..k] <= log;
      } else if ls[from].log[..k] <= base {
        assert base <= log;
      }
    }
  }

  /** The commit index an accepted append leads to is that of a committed leader's log. */
  lemma AcceptedClean(h: Hist, log: seq<LogEntry>, t: nat, commit: nat, c: nat)
    requires HistOK(h) && t in h.leaders && log <= h.leaders[t].log
    requires CommitKnown(h.leaders, t, commit) && c <= commit && c <= |log|
    ensures CleanUpTo(h.leaders, log, c) && CommitKnown(h.leaders, t, c)
  {
    if c > 0 {
      var u :| u in h.leaders && u <= t && commit <= h.leaders[u].commit;
      if u < t { CommitInLater(h, u, t, c); }
      TakeOfPrefix(log, h.leaders[t].log, c);
      assert log[..c] == h.leaders[u].log[..c];
    }
  }

  ghost function CleanAfter(h: Hist, n: Node, m: Message): nat
    requires m.Append? && OneBased(m.entries) && n.cfg.id in h.recs
  {
    if m.commit > n.committed then Accept(n, m).committed else h.recs[n.cfg.id].clean
  }

  lemma AcceptedCommit(h: Hist, n: Node, m: Message)
    requires Good(h, n) && m.Append? && AppendOK(h, m) && OneBased(m.entries) && m.term == n.term
    requires m.logIndex >= n.committed
    requires AppendLog(n.log, m.entries) <= h.leaders[m.term].log
    requires m.logIndex <= |n.log| && m.logIndex <= |AppendLog(n.log, m.entries)|
    requires AppendLog(n.log, m.entries)[..m.logIndex] == n.log[..m.logIndex]
    ensures n.committed <= Accept(n, m).committed <= |Accept(n, m).log|
    ensures CommitKnown(h.leaders, n.term, Accept(n, m).committed)
    ensures h.recs[n.cfg.id].clean <= CleanAfter(h, n, m) <= Accept(n, m).committed
    ensures CleanUpTo(h.leaders, Accept(n, m).log, CleanAfter(h, n, m))
    ensures Accept(n, m).log[..n.committed] == n.log[..n.committed]
  {
    var n1 := Accept(n, m);
    TakeOfPrefix(n.log[..m.logIndex], n.log, n.committed);
    TakeOfPrefix(n.log[..m.logIndex], n1.log, n.committed);
    if m.commit > n.committed {
      AcceptedClean(h, n1.log, m.term, m.commit, n1.committed);
    } else {
      var c := h.recs[n.cfg.id].clean;
      TakeOfPrefix(n.log[..n.committed], n.log, c);
      TakeOfPrefix(n.log[..n.committed], n1.log, c);
      CleanGrows(h.leaders, h.leaders, n.log, c, n1.log);
    }
  }

  lemma AcceptedLogHolds(h: Hist, n: Node, log: seq<LogEntry>, clean: nat)
    requires n.cfg.id in h.recs && StoredOK(h.leaders, h.recs[n.cfg.id].stored)
    requires n.term in h.leaders && LeaderRecOK(h, n.term)
    requires LogOK(h.leaders, log) && log <= h.leaders[n.term].log && |log| > |h.leaders[n.term].base|
    ensures var h' := WithStored(h, n, |log|, clean);
            StoredOK(h'.leaders, h'.recs[n.cfg.id].stored) && LogHolds(h', n.cfg.id, n.term, log)
  {
    var h' := WithStored(h, n, |log|, clean);
    assert h'.leaders == h.leaders;
    LeaderTermsBelow(h, n.term);
    AcceptedKeeps(h, n, log, h'.recs[n.cfg.id].stored);
  }

  lemma AcceptedNode(h: Hist, n: Node, n1: Node, clean: nat)
    requires Good(h, n) && n.role == Follower && n.lead != NoNode && n.term in h.leaders
    requires n1 == n.(log := n1.log, committed := n1.committed)
    requires LogOK(h.leaders, n1.log)
    requires n1.log <= h.leaders[n.term].log && |n1.log| > |h.leaders[n.term].base|
    requires Recordable(h, n.cfg.id, n.term, h.leaders[n.term], |n1.log|, clean)
    requires n.committed <= n1.committed <= |n1.log| && clean <= n1.committed
    requires CommitKnown(h.leaders, n.term, n1.committed) && CleanUpTo(h.leaders, n1.log, clean)
    ensures NodeOK(WithStored(h, n, |n1.log|, clean), n1)
  {
    var h' := WithStored(h, n, |n1.log|, clean);
    assert LeaderRecOK(h, n.term);
    RecordGrows(h, n.cfg.id, n.term, h.leaders[n.term], |n1.log|, clean);
    assert h'.leaders == h.leaders;
    AcceptedLogHolds(h, n, n1.log, clean);
    RecordTerms(h, n, h.leaders[n.term], |n1.log|, clean, n.role, n.lead);
    MsgsFrame(h, h', n.cfg.id, n.msgs);
  }

  lemma AcceptOK(h: Hist, n: Node, m: Message) returns (h': Hist)
    requires Good(h, n) && n.role == Follower && n.lead != NoNode
    requires m.Append? && AppendOK(h, m) && OneBased(m.entries) && m.term == n.term
    requires m.logIndex >= n.committed && LogConsistent(n.log, m.logIndex, m.logTerm)
    ensures Good(h', Accept(n, m)) && Grows(h, h', n.cfg.id)
    ensures AppendRspOK(h', AppendRsp(n.cfg.id, m.from, n.term, |Accept(n, m).log|, false, 0, 0))
    ensures h'.recs[n.cfg.id].clean == CleanAfter(h, n, m)
    ensures ActsOnlyIn(h, h', n.cfg.id, n.term)
    ensures Stable(n, Accept(n, m))
  {
    var n1, clean := Accept(n, m), CleanAfter(h, n, m);
    AcceptReady(h, n, m);
    h' := WithStored(h, n, |n1.log|, clean);
    WithStoredOK(h, n, |n1.log|, clean);
    AcceptedNode(h, n, n1, clean);
  }

  /** What an accepted append gives, before it is recorded. */
  lemma AcceptReady(h: Hist, n: Node, m: Message)
    requires Good(h, n) && m.Append? && AppendOK(h, m) && OneBased(m.entries) && m.term == n.term
    requires m.logIndex >= n.committed && LogConsistent(n.log, m.logIndex, m.logTerm)
    ensures var n1, clean, r := Accept(n, m), CleanAfter(h, n, m), h.leaders[n.term];
            && LogOK(h.leaders, n1.log) && n1.log <= r.log && |n1.log| > |r.base|
            && Recordable(h, n.cfg.id, n.term, r, |n1.log|, clean)
            && n.committed <= n1.committed <= |n1.log| && clean <= n1.committed
            && CommitKnown(h.leaders, n.term, n1.committed) && CleanUpTo(h.leaders, n1.log, clean)
            && Stable(n, n1)
  {
    assert LeaderRecOK(h, n.term);
    AcceptedLog(h, n.log, m);
    AcceptedCommit(h, n, m);
    AcceptedLogOK(h, Accept(n, m).log, n.term);
  }

  lemma AcceptedLogOK(h: Hist, log: seq<LogEntry>, t: nat)
    requires t in h.leaders && LeaderRecOK(h, t) && log <= h.leaders[t].log
    ensures LogOK(h.leaders, log)
  {
    PrefixOK(h.leaders, h.leaders[t].log, |log|);
    assert log == h.leaders[t].log[..|log|];
  }

  /** A commit index above what the leader of the node's term started with was committed by it. */
  lemma CommitInTerm(h: Hist, t: nat, c: nat)
    requires HistOK(h) && t in h.leaders && CommitKnown(h.leaders, t, c) && c > |h.leaders[t].base|
    ensures c <= h.leaders[t].commit
  {
    var u :| u in h.leaders && u <= t && c <= h.leaders[u].commit;
    if u < t {
      LeaderCompleteness(h, u, t);
      assert false;
    }
  }

  /** An append that starts below the commit index is answered with the commit index, which the
      leader itself has committed. */
  lemma EarlyAppendOK(h: Hist, n: Node, m: Message)
    requires Good(h, n) && m.Append? && AppendOK(h, m) && m.term == n.term && m.logIndex < n.committed
    ensures AppendRspOK(h, AppendRsp(n.cfg.id, m.from, n.term, n.committed, false, 0, 0))
  {
    CommitInTerm(h, n.term, n.committed);
    assert LeaderRecOK(h, n.term);
  }

  lemma HandleAppendOK(h: Hist, n: Node, m: Message) returns (h': Hist)
    requires Good(h, n) && n.role == Follower && n.lead != NoNode
    requires m.Append? && MsgOK(h, m) && m.term == n.term && OneBased(m.entries)
    ensures Good(h', HandleAppend(n, m)) && Grows(h, h', n.cfg.id)
    ensures ActsOnlyIn(h, h', n.cfg.id, n.term)
    ensures Stable(n, HandleAppend(n, m))
    ensures HandleAppend(n, m).committed > n.committed ==>
      h'.recs[n.cfg.id].clean == HandleAppend(n, m).committed
  {
    var id := n.cfg.id;
    if m.logIndex < n.committed {
      h' := h;
      EarlyAppendOK(h, n, m);
      SendOK(h, n, AppendRsp(id, m.from, n.term, n.committed, false, 0, 0));
    } else if !LogConsistent(n.log, m.logIndex, m.logTerm) {
      h' := h;
      SendOK(h, n, AppendRsp(id, m.from, n.term, 0, true,
                             ConflictIndex(n.log, m.logIndex), ConflictTerm(n.log, m.logIndex)));
    } else {
      h' := AcceptReplyOK(h, n, m);
    }
  }

  lemma AcceptReplyOK(h: Hist, n: Node, m: Message) returns (h': Hist)
    requires Good(h, n) && n.role == Follower && n.lead != NoNode
    requires m.Append? && AppendOK(h, m) && OneBased(m.entries) && m.term == n.term
    requires m.logIndex >= n.committed && LogConsistent(n.log, m.logIndex, m.logTerm)
    ensures Good(h', HandleAppend(n, m)) && Grows(h, h', n.cfg.id)
    ensures ActsOnlyIn(h, h', n.cfg.id, n.term)
    ensures Stable(n, HandleAppend(n, m))
    ensures HandleAppend(n, m).committed > n.committed ==>
      h'.recs[n.cfg.id].clean == HandleAppend(n, m).committed
  {
    h' := AcceptOK(h, n, m);
    SendOK(h', Accept(n, m), AppendRsp(n.cfg.id, m.from, n.term, |Accept(n, m).log|, false, 0, 0));
  }

  lemma HandleHeartbeatOK(h: Hist, n: Node, m: Message)
    requires Good(h, n) && n.role == Follower
    requires m.Heartbeat? && MsgOK(h, m) && m.term == n.term
    ensures NodeOK(h, HandleHeartbeat(n, m))
  {
    var n1 := n.(committed := CommitTo(n.log, n.committed, m.commit));
    CommitKnownLess(h.leaders, n.term, m.commit, n1.committed, n.committed);
    SendOK(h, n1, HeartbeatRsp(n.cfg.id, m.from, n.term, n1.committed));
  }

  lemma CommitKnownLess(ls: map<nat, LeaderRec>, t: nat, c: nat, d: nat, e: nat)
    requires CommitKnown(ls, t, c) && CommitKnown(ls, t, e) && (d <= c || d <= e)
    ensures CommitKnown(ls, t, d)
  {}
}
