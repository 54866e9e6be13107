/** Recording what a member stores, appends or commits in its term keeps the history good. */
module RaftRecord {
  import opened RaftTypes
  import opened RaftHistory
  import opened RaftFrame

  ghost predicate Good(h: Hist, n: Node) {
    HistOK(h) && NodeOK(h, n)
  }

  /** What the steps of a leader need of its log. */
  ghost predicate Leads(h: Hist, n: Node) {
    && n.cfg.id in h.recs
    && StoredOK(h.leaders, h.recs[n.cfg.id].stored)
    && LogHolds(h, n.cfg.id, n.term, n.log)
    && Leading(h, n.cfg.id, n.term, n.log, n.committed)
  }

  /** Member `id` has stored k entries of the leader of t, whose record is now `lr`. */
  ghost function Record(h: Hist, id: NodeId, t: nat, lr: LeaderRec, k: nat, clean: nat): Hist
    requires id in h.recs
  {
    var r := h.recs[id];
    h.(leaders := h.leaders[t := lr],
       recs := h.recs[id := r.(stored := r.stored[t := k], clean := clean)])
  }

  ghost predicate Recordable(h: Hist, id: NodeId, t: nat, lr: LeaderRec, k: nat, clean: nat) {
    && id in h.recs
    && (if t in h.leaders
        then LeaderGrows(h.leaders[t], lr) && (lr == h.leaders[t] || lr.id == id)
        else lr.id == id)
    && (t in h.recs[id].stored ==> h.recs[id].stored[t] <= k)
    && h.recs[id].clean <= clean
  }

  lemma RecordGrows(h: Hist, id: NodeId, t: nat, lr: LeaderRec, k: nat, clean: nat)
    requires Recordable(h, id, t, lr, k, clean)
    ensures Grows(h, Record(h, id, t, lr, k, clean), id)
    ensures ActsOnlyIn(h, Record(h, id, t, lr, k, clean), id, t)
  {
    var h' := Record(h, id, t, lr, k, clean);
    forall u | u in h.leaders ensures u in h'.leaders && LeaderGrows(h.leaders[u], h'.leaders[u]) {}
  }

  lemma RecordStored(h: Hist, id: NodeId, t: nat, lr: LeaderRec, k: nat, clean: nat)
    requires Recordable(h, id, t, lr, k, clean) && |lr.base| < k <= |lr.log|
    requires StoredOK(h.leaders, h.recs[id].stored)
    ensures var h' := Record(h, id, t, lr, k, clean); StoredOK(h'.leaders, h'.recs[id].stored)
  {
    var h' := Record(h, id, t, lr, k, clean);
    RecordGrows(h, id, t, lr, k, clean);
    StoredOKGrows(h.leaders, h'.leaders, h.recs[id].stored);
  }

  /** Storing more in the current term leaves what was promised of votes in earlier ones. */
  lemma RecordVotes(h: Hist, id: NodeId, t: nat, lr: LeaderRec, k: nat, clean: nat)
    requires Recordable(h, id, t, lr, k, clean) && |lr.base| < k <= |lr.log|
    requires RecOK(h, id) && forall u :: u in h.recs[id].votes ==> u <= t
    ensures RecOK(Record(h, id, t, lr, k, clean), id)
  {
    var h' := Record(h, id, t, lr, k, clean);
    var r, r' := h.recs[id], h'.recs[id];
    RecordGrows(h, id, t, lr, k, clean);
    RecordStored(h, id, t, lr, k, clean);
    forall u {:trigger VoteRecOK(h', id, u)} | u in r'.votes ensures VoteRecOK(h', id, u) {
      assert VoteRecOK(h, id, u);
      LogOKGrows(h.leaders, h'.leaders, r.votes[u].log);
      KeepsAllGrows(h.leaders, r.stored, h'.leaders, r'.stored, r.votes[u].log, u);
      VoteBackedGrows(h, h', id, id, u);
    }
  }

  lemma RecordOK(h: Hist, n: Node, lr: LeaderRec, k: nat, clean: nat)
    requires HistOK(h) && n.cfg.id in h.recs && TermsOK(h, n)
    requires Recordable(h, n.cfg.id, n.term, lr, k, clean) && |lr.base| < k <= |lr.log|
    requires LeaderRecOK(Record(h, n.cfg.id, n.term, lr, k, clean), n.term)
    ensures HistOK(Record(h, n.cfg.id, n.term, lr, k, clean))
  {
    var id, h' := n.cfg.id, Record(h, n.cfg.id, n.term, lr, k, clean);
    RecordGrows(h, id, n.term, lr, k, clean);
    assert RecOK(h, id);
    RecordVotes(h, id, n.term, lr, k, clean);
    OthersOK(h, h', id, n.term);
  }

  lemma OthersOK(h: Hist, h': Hist, id: NodeId, t: nat)
    requires HistOK(h) && Grows(h, h', id)
    requires forall u :: u in h'.leaders && u != t ==> u in h.leaders && h'.leaders[u] == h.leaders[u]
    requires id in h'.recs ==> RecOK(h', id)
    requires t in h'.leaders ==> LeaderRecOK(h', t)
    ensures HistOK(h')
  {
    forall s {:trigger RecOK(h', s)} | s in h'.recs ensures RecOK(h', s) {
      if s != id { RecFrame(h, h', id, s); }
    }
    forall u {:trigger LeaderRecOK(h', u)} | u in h'.leaders ensures LeaderRecOK(h', u) {
      if u != t { LeaderFrame(h, h', id, u); }
    }
  }

  /** A leader record is good if its votes and acknowledgements were there before. */
  lemma RecordedLeaderOK(h: Hist, h': Hist, a: NodeId, t: nat)
    requires Grows(h, h', a) && t in h'.leaders && t >= 1
    requires var r := h'.leaders[t];
             && r.id in h.ids && |r.base| < |r.log| && r.base <= r.log
             && LogOK(h'.leaders, r.log) && TermsBelow(r.base, t)
             && (forall i :: |r.base| <= i < |r.log| ==> r.log[i].term == t)
             && r.electors <= h.ids && 2 * |r.electors| > |h.ids|
             && (forall e :: e in r.electors ==> VotedFor(h, e, t, r.id, r.base))
             && (r.commit > 0 ==>
                   && |r.base| < r.commit <= |r.log|
                   && r.quorum <= h.ids && 2 * |r.quorum| >= |h.ids|
                   && (forall e :: e in r.quorum ==> HasStored(h, e, t, r.commit)))
    ensures LeaderRecOK(h', t)
  {
    var r := h'.leaders[t];
    forall e {:trigger VotedFor(h', e, t, r.id, r.base)} | e in r.electors ensures VotedFor(h', e, t, r.id, r.base) {
      VotedForGrows(h, h', a, e, t, r.id, r.base);
    }
    if r.commit > 0 {
      forall e {:trigger HasStored(h', e, t, r.commit)} | e in r.quorum ensures HasStored(h', e, t, r.commit) {
        HasStoredGrows(h, h', a, e, t, r.commit);
      }
    }
  }

  /** Entries numbered on from the end, of the leader's term, extend a good log to a good log. */
  lemma ExtendedLogOK(ls: map<nat, LeaderRec>, ls': map<nat, LeaderRec>, t: nat, log: seq<LogEntry>, es: seq<LogEntry>)
    requires LogOK(ls, log) && LeadersGrow(ls, ls') && TermsBelow(log, t + 1) && t >= 1
    requires forall i :: 0 <= i < |es| ==> es[i].index == |log| + i + 1 && es[i].term == t
    requires t in ls' && log + es <= ls'[t].log
    ensures LogOK(ls', log + es)
  {
    LogOKGrows(ls, ls', log);
    var l := log + es;
    forall i {:trigger FromLeader(ls', l, i)} | 0 <= i < |l| ensures FromLeader(ls', l, i) {
      if i < |log| {
        assert FromLeader(ls', log, i);
        assert l[..i + 1] == log[..i + 1];
      }
    }
  }

  lemma LeaderTermsBelow(h: Hist, t: nat)
    requires t in h.leaders && LeaderRecOK(h, t)
    ensures TermsBelow(h.leaders[t].log, t + 1) && LogOK(h.leaders, h.leaders[t].log)
    ensures h.leaders[t].base <= h.leaders[t].log && |h.leaders[t].base| < |h.leaders[t].log|
  {
    var r := h.leaders[t];
    forall i | 0 <= i < |r.log| ensures r.log[i].term < t + 1 {
      if i < |r.base| { assert r.log[i] == r.base[i]; }
    }
  }

  /** A leader's own log holds once it is recorded as stored. */
  lemma ExtendedLogHolds(h: Hist, n: Node, h': Hist, log: seq<LogEntry>)
    requires Grows(h, h', n.cfg.id) && n.cfg.id in h.recs
    requires StoredOK(h.leaders, h.recs[n.cfg.id].stored) && LogHolds(h, n.cfg.id, n.term, n.log)
    requires n.log <= log && n.term in h'.leaders && log == h'.leaders[n.term].log && LeaderRecOK(h', n.term)
    requires h'.recs[n.cfg.id].stored == h.recs[n.cfg.id].stored[n.term := |log|]
    ensures StoredOK(h'.leaders, h'.recs[n.cfg.id].stored) && LogHolds(h', n.cfg.id, n.term, log)
  {
    LeaderTermsBelow(h', n.term);
    StoredOKGrows(h.leaders, h'.leaders, h.recs[n.cfg.id].stored);
    ExtendedKeeps(h, n, h', log);
  }

  lemma ExtendedKeeps(h: Hist, n: Node, h': Hist, log: seq<LogEntry>)
    requires Grows(h, h', n.cfg.id) && n.cfg.id in h.recs
    requires StoredOK(h.leaders, h.recs[n.cfg.id].stored) && LogHolds(h, n.cfg.id, n.term, n.log)
    requires n.log <= log && n.term in h'.leaders && log == h'.leaders[n.term].log
    requires h'.recs[n.cfg.id].stored == h.recs[n.cfg.id].stored[n.term := |log|]
    requires StoredOK(h'.leaders, h'.recs[n.cfg.id].stored)
    ensures KeepsAll(h'.leaders, h'.recs[n.cfg.id].stored, log, n.term + 1)
  {
    var st, st', to := h.recs[n.cfg.id].stored, h'.recs[n.cfg.id].stored, n.term + 1;
    forall from, k: nat {:trigger Keeps(h'.leaders, st', log, from, k, to)} | from in st' && from < to && k <= st'[from]
      ensures Keeps(h'.leaders, st', log, from, k, to)
    {
      if from != n.term {
        assert Keeps(h.leaders, st, n.log, from, k, to);
        KeepsGrows(h.leaders, st, h'.leaders, st', n.log, from, k, to);
      }
    }
  }

  lemma RecordTerms(h: Hist, n: Node, lr: LeaderRec, k: nat, clean: nat, role: Role, lead: NodeId)
    requires Recordable(h, n.cfg.id, n.term, lr, k, clean) && TermsOK(h, n)
    requires lead != NoNode && (role == Leader || (lr.id != n.cfg.id && role == n.role))
    ensures TermsHold(Record(h, n.cfg.id, n.term, lr, k, clean), n.cfg.id, n.term, n.vote, role, lead)
  {}

  lemma MsgsFrame(h: Hist, h': Hist, a: NodeId, ms: seq<Message>)
    requires Grows(h, h', a) && MsgsOK(h, ms)
    ensures MsgsOK(h', ms)
  {
    forall m {:trigger MsgOK(h', m)} | m in ms ensures MsgOK(h', m) {
      assert MsgOK(h, m);
      MsgFrame(h, h', a, m);
    }
  }
}
