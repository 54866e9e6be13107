/** What the history says of one member survives the acts of the others. */
module RaftFrame {
  import opened RaftTypes
  import opened RaftHistory

  lemma LogOKGrows(ls: map<nat, LeaderRec>, ls': map<nat, LeaderRec>, log: seq<LogEntry>)
    requires LogOK(ls, log) && LeadersGrow(ls, ls')
    ensures LogOK(ls', log)
  {
    forall i {:trigger FromLeader(ls', log, i)} | 0 <= i < |log| ensures FromLeader(ls', log, i) {
      assert FromLeader(ls, log, i);
      assert LeaderGrows(ls[log[i].term], ls'[log[i].term]);
    }
  }

  lemma KeepsGrows(ls: map<nat, LeaderRec>, stored: map<nat, nat>, ls': map<nat, LeaderRec>,
                   stored': map<nat, nat>, log: seq<LogEntry>, from: nat, k: nat, to: nat)
    requires LeadersGrow(ls, ls') && stored.Keys <= stored'.Keys
    requires from in ls && k <= |ls[from].log| && Keeps(ls, stored, log, from, k, to)
    ensures from in ls' && k <= |ls'[from].log| && Keeps(ls', stored', log, from, k, to)
  {
    assert LeaderGrows(ls[from], ls'[from]);
    assert ls'[from].log[..k] == ls[from].log[..k];
    if !(ls[from].log[..k] <= log) {
      var u :| u in stored && from < u < to && u in ls && !(ls[from].log[..k] <= ls[u].base);
      assert LeaderGrows(ls[u], ls'[u]);
      assert u in stored';
    }
  }

  lemma StoredOKGrows(ls: map<nat, LeaderRec>, ls': map<nat, LeaderRec>, stored: map<nat, nat>)
    requires StoredOK(ls, stored) && LeadersGrow(ls, ls')
    ensures StoredOK(ls', stored)
  {
    forall t | t in stored ensures t in ls' && |ls'[t].base| < stored[t] <= |ls'[t].log| {
      assert LeaderGrows(ls[t], ls'[t]);
    }
  }

  /** `stored` may gain entries for terms from `to` on; what it says of earlier terms stays. */
  lemma KeepsAllGrows(ls: map<nat, LeaderRec>, stored: map<nat, nat>, ls': map<nat, LeaderRec>,
                      stored': map<nat, nat>, log: seq<LogEntry>, to: nat)
    requires LeadersGrow(ls, ls') && StoredOK(ls, stored) && StoredOK(ls', stored')
    requires stored.Keys <= stored'.Keys
    requires forall t :: t in stored' && t < to ==> t in stored && stored'[t] == stored[t]
    requires KeepsAll(ls, stored, log, to)
    ensures KeepsAll(ls', stored', log, to)
  {
    forall from, k: nat {:trigger Keeps(ls', stored', log, from, k, to)}
      | from in stored' && from < to && k <= stored'[from]
      ensures Keeps(ls', stored', log, from, k, to)
    {
      assert Keeps(ls, stored, log, from, k, to);
      KeepsGrows(ls, stored, ls', stored', log, from, k, to);
    }
  }

  lemma CommitKnownGrows(ls: map<nat, LeaderRec>, ls': map<nat, LeaderRec>, t: nat, c: nat, t': nat)
    requires LeadersGrow(ls, ls') && CommitKnown(ls, t, c) && t <= t'
    ensures CommitKnown(ls', t', c)
  {
    if c > 0 {
      var u :| u in ls && u <= t && c <= ls[u].commit;
      assert LeaderGrows(ls[u], ls'[u]);
      assert u in ls' && u <= t' && c <= ls'[u].commit;
    }
  }

  lemma CleanGrows(ls: map<nat, LeaderRec>, ls': map<nat, LeaderRec>, log: seq<LogEntry>, c: nat, log': seq<LogEntry>)
    requires LeadersGrow(ls, ls') && CleanUpTo(ls, log, c)
    requires c <= |log'| && log[..c] == log'[..c]
    ensures CleanUpTo(ls', log', c)
  {
    if c > 0 {
      var u :| u in ls && c <= ls[u].commit && log[..c] <= ls[u].log;
      assert LeaderGrows(ls[u], ls'[u]);
      assert u in ls' && c <= ls'[u].commit && log'[..c] <= ls'[u].log;
    }
  }

  lemma VotedForGrows(h: Hist, h': Hist, a: NodeId, e: NodeId, t: nat, cand: NodeId, log: seq<LogEntry>)
    requires Grows(h, h', a) && VotedFor(h, e, t, cand, log)
    ensures VotedFor(h', e, t, cand, log)
  {
    assert e == a ==> RecGrows(h.recs[e], h'.recs[e]);
  }

  lemma HasStoredGrows(h: Hist, h': Hist, a: NodeId, e: NodeId, t: nat, k: nat)
    requires Grows(h, h', a) && HasStored(h, e, t, k)
    ensures HasStored(h', e, t, k)
  {
    assert e == a ==> RecGrows(h.recs[e], h'.recs[e]);
  }

  lemma RecFrame(h: Hist, h': Hist, a: NodeId, s: NodeId)
    requires Grows(h, h', a) && s in h.recs && s != a && RecOK(h, s)
    ensures RecOK(h', s)
  {
    var r := h.recs[s];
    StoredOKGrows(h.leaders, h'.leaders, r.stored);
    forall t {:trigger VoteRecOK(h', s, t)} | t in r.votes
      ensures VoteRecOK(h', s, t)
    {
      assert VoteRecOK(h, s, t);
      LogOKGrows(h.leaders, h'.leaders, r.votes[t].log);
      KeepsAllGrows(h.leaders, r.stored, h'.leaders, r.stored, r.votes[t].log, t);
      VoteBackedGrows(h, h', a, s, t);
    }
  }

  lemma VoteBackedGrows(h: Hist, h': Hist, a: NodeId, e: NodeId, t: nat)
    requires Grows(h, h', a) && e in h.recs && t in h.recs[e].votes && VoteBacked(h, e, t)
    ensures t in h'.recs[e].votes && VoteBacked(h', e, t)
  {
    var c := h.recs[e].votes[t].cand;
    assert e == a ==> RecGrows(h.recs[e], h'.recs[e]);
    assert c == a ==> RecGrows(h.recs[c], h'.recs[c]);
    VotedForGrows(h, h', a, e, t, c, h.recs[c].votes[t].log);
  }

  /** A leader record that did not change stays good. */
  lemma LeaderFrame(h: Hist, h': Hist, a: NodeId, t: nat)
    requires Grows(h, h', a) && t in h.leaders && LeaderRecOK(h, t)
    requires t in h'.leaders && h'.leaders[t] == h.leaders[t]
    ensures LeaderRecOK(h', t)
  {
    var r := h.leaders[t];
    LogOKGrows(h.leaders, h'.leaders, r.log);
    forall e {:trigger VotedFor(h', e, t, r.id, r.base)} | e in r.electors ensures VotedFor(h', e, t, r.id, r.base) {
      VotedForGrows(h, h', a, e, t, r.id, r.base);
    }
    if r.commit > 0 {
      forall e {:trigger HasStored(h', e, t, r.commit)} | e in r.quorum ensures HasStored(h', e, t, r.commit) {
        HasStoredGrows(h, h', a, e, t, r.commit);
      }
    }
  }

  lemma AppendFrame(h: Hist, h': Hist, a: NodeId, m: Message)
    requires Grows(h, h', a) && m.Append? && AppendOK(h, m)
    ensures AppendOK(h', m)
  {
    var l, l' := h.leaders[m.term].log, h'.leaders[m.term].log;
    assert LeaderGrows(h.leaders[m.term], h'.leaders[m.term]);
    assert l' == l + l'[|l|..];
    CommitKnownGrows(h.leaders, h'.leaders, m.term, m.commit, m.term);
  }

  lemma MsgFrame(h: Hist, h': Hist, a: NodeId, m: Message)
    requires Grows(h, h', a) && MsgOK(h, m)
    ensures MsgOK(h', m)
  {
    match m
    case Append(_, _, _, _, _, _, _) => AppendFrame(h, h', a, m);
    case AppendRsp(_, _, _, _, _, _, _) =>
      if !m.reject {
        assert LeaderGrows(h.leaders[m.term], h'.leaders[m.term]);
        if m.index > h.leaders[m.term].commit { HasStoredGrows(h, h', a, m.from, m.term, m.index); }
      }
    case Heartbeat(_, _, _, _) => CommitKnownGrows(h.leaders, h'.leaders, m.term, m.commit, m.term);
    case Vote(_, _, _, _, _) => assert m.from == a ==> RecGrows(h.recs[a], h'.recs[a]);
    case VoteRsp(_, _, _, _) =>
      if m.granted {
        assert m.to == a ==> RecGrows(h.recs[a], h'.recs[a]);
        VotedForGrows(h, h', a, m.from, m.term, m.to, h.recs[m.to].votes[m.term].log);
      }
    case _ =>
  }

  lemma TermsFrame(h: Hist, h': Hist, a: NodeId, n: Node)
    requires Grows(h, h', a) && n.cfg.id in h.recs && n.cfg.id != a && TermsOK(h, n)
    ensures TermsOK(h', n)
  {
    forall t | t in h'.leaders && h'.leaders[t].id == n.cfg.id
      ensures t <= n.term && (t == n.term ==> n.role == Leader)
    {
      assert t in h.leaders;
      assert LeaderGrows(h.leaders[t], h'.leaders[t]);
    }
  }

  lemma LogFrame(h: Hist, h': Hist, a: NodeId, n: Node)
    requires Grows(h, h', a) && n.cfg.id in h.recs && n.cfg.id != a
    requires StoredOK(h.leaders, h.recs[n.cfg.id].stored) && LogInv(h, n)
    ensures StoredOK(h'.leaders, h'.recs[n.cfg.id].stored) && LogInv(h', n)
  {
    var st := h.recs[n.cfg.id].stored;
    StoredOKGrows(h.leaders, h'.leaders, st);
    LogOKGrows(h.leaders, h'.leaders, n.log);
    KeepsAllGrows(h.leaders, st, h'.leaders, st, n.log, n.term + 1);
    if n.term in st { assert LeaderGrows(h.leaders[n.term], h'.leaders[n.term]); }
  }

  lemma RolesFrame(h: Hist, h': Hist, a: NodeId, n: Node)
    requires Grows(h, h', a) && n.cfg.id in h.recs && n.cfg.id != a
    requires CandidateInv(h, n) && LeaderInv(h, n)
    ensures CandidateInv(h', n) && LeaderInv(h', n)
  {
    if n.role == Candidate {
      forall v {:trigger VotedFor(h', v, n.term, n.cfg.id, n.log)} | v in n.votes && n.votes[v]
        ensures VotedFor(h', v, n.term, n.cfg.id, n.log)
      {
        VotedForGrows(h, h', a, v, n.term, n.cfg.id, n.log);
      }
    }
    if n.role == Leader {
      HasStoredGrows(h, h', a, n.cfg.id, n.term, |n.log|);
      forall p {:trigger TrackOK(h', n.cfg.id, n.term, |n.log|, n.committed, p, n.progress[p])} | p in n.progress
        ensures TrackOK(h', n.cfg.id, n.term, |n.log|, n.committed, p, n.progress[p])
      {
        if p != n.cfg.id && n.progress[p].matched > n.committed {
          HasStoredGrows(h, h', a, p, n.term, n.progress[p].matched);
        }
      }
    }
  }

  lemma NodeFrame(h: Hist, h': Hist, a: NodeId, n: Node)
    requires Grows(h, h', a) && n.cfg.id != a && NodeOK(h, n)
    ensures NodeOK(h', n)
  {
    TermsFrame(h, h', a, n);
    LogFrame(h, h', a, n);
    RolesFrame(h, h', a, n);
    CommitKnownGrows(h.leaders, h'.leaders, n.term, n.committed, n.term);
    CleanGrows(h.leaders, h'.leaders, n.log, h.recs[n.cfg.id].clean, n.log);
    forall m {:trigger MsgOK(h', m)} | m in n.msgs ensures MsgOK(h', m) { MsgFrame(h, h', a, m); }
  }

  lemma GrowsRefl(h: Hist, a: NodeId)
    ensures Grows(h, h, a)
  {}

  lemma GrowsTrans(h: Hist, h1: Hist, h2: Hist, a: NodeId)
    requires Grows(h, h1, a) && Grows(h1, h2, a)
    ensures Grows(h, h2, a)
  {
    if a in h.recs {
      assert RecGrows(h.recs[a], h1.recs[a]) && RecGrows(h1.recs[a], h2.recs[a]);
      assert RecGrows(h.recs[a], h2.recs[a]);
    }
    forall t | t in h.leaders
      ensures t in h2.leaders && LeaderGrows(h.leaders[t], h2.leaders[t])
      ensures h.leaders[t].id != a ==> h2.leaders[t] == h.leaders[t]
    {
      assert LeaderGrows(h.leaders[t], h1.leaders[t]) && LeaderGrows(h1.leaders[t], h2.leaders[t]);
    }
    forall t | t in h2.leaders && t !in h.leaders ensures h2.leaders[t].id == a {
      if t in h1.leaders { assert LeaderGrows(h1.leaders[t], h2.leaders[t]); }
    }
  }
}
