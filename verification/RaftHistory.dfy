/**
 History of a cluster and the invariant that ties nodes and messages to it.

 Every fact that relates two nodes is stated through the history, so the proof looks at one node at a
 time: who voted for whom and with which log, what each term's leader started from and holds, how much
 of it each member has stored in that term, and how far the leader has committed.
 */
module RaftHistory {
  import opened RaftTypes
  import opened RaftSpec

  /** The leader of one term: its log when elected, its log now, its voters, and what it has committed. */
  datatype LeaderRec = LeaderRec(
    id: NodeId,
    base: seq<LogEntry>,
    log: seq<LogEntry>,
    electors: set<NodeId>,
    commit: nat,
    quorum: set<NodeId>)

  /** A vote: for whom, and the voter's log at that moment. */
  datatype VoteRec = VoteRec(cand: NodeId, log: seq<LogEntry>)

  /** One member's votes by term, the length it has stored of each term's leader log, and the part of
      its committed prefix that was committed by its own leadership or by a checked append. */
  datatype NodeRec = NodeRec(votes: map<nat, VoteRec>, stored: map<nat, nat>, clean: nat)

  datatype Hist = Hist(ids: set<NodeId>, leaders: map<nat, LeaderRec>, recs: map<NodeId, NodeRec>)

  // ---------------------------------------------------------------- logs

  ghost predicate Sorted(log: seq<LogEntry>) {
    forall i, j :: 0 <= i <= j < |log| ==> log[i].term <= log[j].term
  }

  ghost predicate TermsBelow(log: seq<LogEntry>, t: nat) {
    forall i :: 0 <= i < |log| ==> log[i].term < t
  }

  /** The first i + 1 entries of a log are what the leader of entry i's term held there. */
  ghost predicate FromLeader(ls: map<nat, LeaderRec>, log: seq<LogEntry>, i: nat)
    requires i < |log|
  {
    log[i].term in ls && log[..i + 1] <= ls[log[i].term].log
  }

  ghost predicate LogOK(ls: map<nat, LeaderRec>, log: seq<LogEntry>) {
    && Sorted(log)
    && Numbers(log)
    && forall i {:trigger FromLeader(ls, log, i)} :: 0 <= i < |log| ==> FromLeader(ls, log, i)
  }

  // ---------------------------------------------------------------- the history

  /** A leader of a term in (from, to) from which this member stored entries started without the
      first k entries of the leader of `from`. */
  ghost predicate Lost(ls: map<nat, LeaderRec>, stored: map<nat, nat>, from: nat, k: nat, to: nat)
    requires from in ls && k <= |ls[from].log|
  {
    exists u :: u in stored && from < u < to && u in ls && !(ls[from].log[..k] <= ls[u].base)
  }

  /** The log keeps the first k entries of the leader of `from`, or they were lost to a later leader. */
  ghost predicate Keeps(ls: map<nat, LeaderRec>, stored: map<nat, nat>, log: seq<LogEntry>,
                        from: nat, k: nat, to: nat)
    requires from in ls && k <= |ls[from].log|
  {
    ls[from].log[..k] <= log || Lost(ls, stored, from, k, to)
  }

  ghost predicate StoredOK(ls: map<nat, LeaderRec>, stored: map<nat, nat>) {
    forall t :: t in stored ==> t in ls && |ls[t].base| < stored[t] <= |ls[t].log|
  }

  ghost predicate KeepsAll(ls: map<nat, LeaderRec>, stored: map<nat, nat>, log: seq<LogEntry>, to: nat)
    requires StoredOK(ls, stored)
  {
    forall from, k: nat {:trigger Keeps(ls, stored, log, from, k, to)} ::
      from in stored && from < to && k <= stored[from] ==> Keeps(ls, stored, log, from, k, to)
  }

  /** `e` voted in term t for `cand`, whose log `log` was at least as recent as its own. */
  ghost predicate VotedFor(h: Hist, e: NodeId, t: nat, cand: NodeId, log: seq<LogEntry>) {
    e in h.recs && t in h.recs[e].votes && h.recs[e].votes[t].cand == cand
    && UpToDate(h.recs[e].votes[t].log, |log|, LastTerm(log))
  }

  /** The candidate of a vote had itself voted in that term, with a log at least as recent. */
  ghost predicate VoteBacked(h: Hist, e: NodeId, t: nat)
    requires e in h.recs && t in h.recs[e].votes
  {
    var c := h.recs[e].votes[t].cand;
    c in h.recs && t in h.recs[c].votes && h.recs[c].votes[t].cand == c
    && VotedFor(h, e, t, c, h.recs[c].votes[t].log)
  }

  ghost predicate VoteRecOK(h: Hist, id: NodeId, t: nat)
    requires id in h.recs && StoredOK(h.leaders, h.recs[id].stored) && t in h.recs[id].votes
  {
    && LogOK(h.leaders, h.recs[id].votes[t].log)
    && KeepsAll(h.leaders, h.recs[id].stored, h.recs[id].votes[t].log, t)
    && VoteBacked(h, id, t)
  }

  ghost predicate VotesOK(h: Hist, id: NodeId)
    requires id in h.recs && StoredOK(h.leaders, h.recs[id].stored)
  {
    forall t {:trigger VoteRecOK(h, id, t)} :: t in h.recs[id].votes ==> VoteRecOK(h, id, t)
  }

  ghost predicate RecOK(h: Hist, id: NodeId)
    requires id in h.recs
  {
    StoredOK(h.leaders, h.recs[id].stored) && VotesOK(h, id)
  }

  ghost predicate HasStored(h: Hist, e: NodeId, t: nat, k: nat) {
    e in h.recs && t in h.recs[e].stored && h.recs[e].stored[t] >= k
  }

  ghost predicate LeaderRecOK(h: Hist, t: nat)
    requires t in h.leaders
  {
    var r := h.leaders[t];
    && t >= 1
    && r.id in h.ids
    && |r.base| < |r.log| && r.base <= r.log
    && LogOK(h.leaders, r.log)
    && TermsBelow(r.base, t)
    && (forall i :: |r.base| <= i < |r.log| ==> r.log[i].term == t)
    && r.electors <= h.ids && 2 * |r.electors| > |h.ids|
    && (forall e {:trigger VotedFor(h, e, t, r.id, r.base)} :: e in r.electors ==> VotedFor(h, e, t, r.id, r.base))
    && (r.commit > 0 ==>
          && |r.base| < r.commit <= |r.log|
          && r.quorum <= h.ids && 2 * |r.quorum| >= |h.ids|
          && (forall e {:trigger HasStored(h, e, t, r.commit)} :: e in r.quorum ==> HasStored(h, e, t, r.commit)))
  }

  ghost predicate HistOK(h: Hist) {
    && h.recs.Keys == h.ids
    && NoNode !in h.ids
    && (forall id {:trigger RecOK(h, id)} :: id in h.recs ==> RecOK(h, id))
    && (forall t {:trigger LeaderRecOK(h, t)} :: t in h.leaders ==> LeaderRecOK(h, t))
  }

  // ---------------------------------------------------------------- commits

  /** Some leader of a term up to t has committed at least c entries. */
  ghost predicate CommitKnown(ls: map<nat, LeaderRec>, t: nat, c: nat) {
    c == 0 || exists u :: u in ls && u <= t && c <= ls[u].commit
  }

  /** The log is a committed leader's log up to c. */
  ghost predicate CleanUpTo(ls: map<nat, LeaderRec>, log: seq<LogEntry>, c: nat) {
    c <= |log|
    && (c == 0 || exists u :: u in ls && c <= ls[u].commit && log[..c] <= ls[u].log)
  }

  // ---------------------------------------------------------------- messages

  ghost predicate AppendOK(h: Hist, m: Message)
    requires m.Append?
  {
    && m.term in h.leaders
    && var r := h.leaders[m.term];
    && |r.base| <= m.logIndex
    && m.logIndex + |m.entries| <= |r.log|
    && m.logTerm == TermAt(r.log, m.logIndex)
    && m.entries == r.log[m.logIndex..m.logIndex + |m.entries|]
    && (m.logIndex == |r.base| ==> |m.entries| > 0)
    && CommitKnown(h.leaders, m.term, m.commit)
  }

  ghost predicate AppendRspOK(h: Hist, m: Message)
    requires m.AppendRsp?
  {
    if m.reject then m.index == 0
    else
      && m.term in h.leaders
      && |h.leaders[m.term].base| < m.index <= |h.leaders[m.term].log|
      && (m.index <= h.leaders[m.term].commit || HasStored(h, m.from, m.term, m.index))
  }

  /** A vote request carries the last index and term of the log the candidate voted for itself with. */
  ghost predicate VoteOK(h: Hist, m: Message)
    requires m.Vote?
  {
    && m.term >= 1
    && m.from in h.recs && m.term in h.recs[m.from].votes
    && var v := h.recs[m.from].votes[m.term];
    && v.cand == m.from && m.lastLogIndex == |v.log| && m.lastLogTerm == LastTerm(v.log)
  }

  /** The member has campaigned, or voted, in this term or a later one. */
  ghost predicate Asked(h: Hist, id: NodeId, term: nat) {
    id in h.recs && exists t :: t in h.recs[id].votes && term <= t
  }

  ghost predicate VoteRspOK(h: Hist, m: Message)
    requires m.VoteRsp?
  {
    && m.from in h.ids
    && Asked(h, m.to, m.term)
    && (m.granted ==>
      && m.term >= 1
      && m.to in h.recs && m.term in h.recs[m.to].votes
      && VotedFor(h, m.from, m.term, m.to, h.recs[m.to].votes[m.term].log))
  }

  ghost predicate MsgOK(h: Hist, m: Message) {
    match m
    case Append(_, _, _, _, _, _, _) => AppendOK(h, m) && m.from != NoNode
    case AppendRsp(_, _, _, _, _, _, _) => AppendRspOK(h, m) && m.from != NoNode
    case HeartbeatRsp(_, _, _, _) => m.from != NoNode
    case Propose(_, _, _, _) => m.term > 0 ==> m.from != NoNode
    case Unreachable(_, _, _) => m.term == 0
    case Heartbeat(_, _, _, _) => m.term in h.leaders && CommitKnown(h.leaders, m.term, m.commit) && m.from != NoNode
    case Vote(_, _, _, _, _) => VoteOK(h, m)
    case VoteRsp(_, _, _, _) => VoteRspOK(h, m)
  }

  // ---------------------------------------------------------------- nodes

  /** Terms, votes and the leader name agree with what the member has done so far. */
  ghost predicate TermsHold(h: Hist, id: NodeId, term: nat, vote: NodeId, role: Role, lead: NodeId)
    requires id in h.recs
  {
    var r := h.recs[id];
    && (forall t :: t in r.votes ==> t <= term)
    && (vote == NoNode <==> term !in r.votes)
    && (vote != NoNode ==> r.votes[term].cand == vote)
    && (forall t :: t in r.stored ==> t <= term)
    && (term in r.stored ==> lead != NoNode)
    && (forall t :: t in h.leaders && h.leaders[t].id == id ==> t <= term && (t == term ==> role == Leader))
  }

  ghost predicate TermsOK(h: Hist, n: Node)
    requires n.cfg.id in h.recs
  {
    TermsHold(h, n.cfg.id, n.term, n.vote, n.role, n.lead)
  }

  /** The log comes from leaders of terms up to `term`, and keeps what was stored unless it was lost. */
  ghost predicate LogHolds(h: Hist, id: NodeId, term: nat, log: seq<LogEntry>)
    requires id in h.recs && StoredOK(h.leaders, h.recs[id].stored)
  {
    var r := h.recs[id];
    && LogOK(h.leaders, log)
    && TermsBelow(log, term + 1)
    && KeepsAll(h.leaders, r.stored, log, term + 1)
    && (term in r.stored ==> log <= h.leaders[term].log && |log| == r.stored[term])
  }

  ghost predicate LogInv(h: Hist, n: Node)
    requires n.cfg.id in h.recs && StoredOK(h.leaders, h.recs[n.cfg.id].stored)
  {
    LogHolds(h, n.cfg.id, n.term, n.log) && n.applied <= n.committed <= |n.log|
  }

  ghost predicate CommitInv(h: Hist, n: Node)
    requires n.cfg.id in h.recs
  {
    && CommitKnown(h.leaders, n.term, n.committed)
    && h.recs[n.cfg.id].clean <= n.committed
    && CleanUpTo(h.leaders, n.log, h.recs[n.cfg.id].clean)
  }

  ghost predicate Campaigning(h: Hist, id: NodeId, term: nat, vote: NodeId, votes: map<NodeId, bool>,
                              log: seq<LogEntry>)
    requires id in h.recs
  {
    && vote == id
    && TermsBelow(log, term)
    && term >= 1
    && votes.Keys <= h.ids
    && term in h.recs[id].votes && h.recs[id].votes[term].log == log
    && (forall v {:trigger VotedFor(h, v, term, id, log)} :: v in votes && votes[v] ==> VotedFor(h, v, term, id, log))
  }

  ghost predicate CandidateInv(h: Hist, n: Node)
    requires n.cfg.id in h.recs
  {
    n.role == Candidate ==> Campaigning(h, n.cfg.id, n.term, n.vote, n.votes, n.log)
  }

  /** What the track of member p promises, for the leader `id` of `term` with `len` entries. */
  ghost predicate TrackOK(h: Hist, id: NodeId, term: nat, len: nat, committed: nat, p: NodeId, t: Track)
    requires term in h.leaders
  {
    var base := |h.leaders[term].base|;
    && base < t.next <= len + 1
    && t.next == (if t.matched == 0 then base else t.matched) + 1
    && t.matched <= len
    && t.state != Snapshotting
    && if p == id then t.matched >= base
       else
         && (t.state == Replicate ==> t.matched > base)
         && (t.matched == 0 || t.matched > base)
         && (t.matched <= committed || HasStored(h, p, term, t.matched))
  }

  ghost predicate TracksHold(h: Hist, id: NodeId, term: nat, len: nat, committed: nat, progress: map<NodeId, Track>)
    requires term in h.leaders
  {
    progress.Keys == h.ids
    && forall p :: p in progress ==> TrackOK(h, id, term, len, committed, p, progress[p])
  }

  ghost predicate Leading(h: Hist, id: NodeId, term: nat, log: seq<LogEntry>, committed: nat)
    requires id in h.recs
  {
    && term in h.leaders
    && h.leaders[term].id == id
    && log == h.leaders[term].log
    && committed >= h.leaders[term].commit
    && HasStored(h, id, term, |log|)
    && h.recs[id].clean == committed
  }

  ghost predicate LeaderInv(h: Hist, n: Node)
    requires n.cfg.id in h.recs
  {
    n.role == Leader ==>
      && n.vote == n.cfg.id
      && n.lead == n.cfg.id
      && Leading(h, n.cfg.id, n.term, n.log, n.committed)
      && TracksHold(h, n.cfg.id, n.term, |n.log|, n.committed, n.progress)
  }

  ghost predicate MsgsOK(h: Hist, ms: seq<Message>) {
    forall m {:trigger MsgOK(h, m)} :: m in ms ==> MsgOK(h, m)
  }

  ghost predicate NodeOK(h: Hist, n: Node) {
    && Configured(h.ids, n.cfg)
    && n.cfg.id in h.recs
    && StoredOK(h.leaders, h.recs[n.cfg.id].stored)
    && TermsOK(h, n)
    && LogInv(h, n)
    && CommitInv(h, n)
    && CandidateInv(h, n)
    && LeaderInv(h, n)
    && Tracked(n) && n.progress.Keys <= h.ids
    && MsgsOK(h, n.msgs)
  }

  // ---------------------------------------------------------------- growth

  ghost predicate RecGrows(r: NodeRec, r': NodeRec) {
    && (forall t :: t in r.votes ==> t in r'.votes && r'.votes[t] == r.votes[t])
    && (forall t :: t in r.stored ==> t in r'.stored && r.stored[t] <= r'.stored[t])
    && r.clean <= r'.clean
  }

  /** Only what member `a` stored in term t, its vote in t, and the leader record of t, may have changed. */
  ghost predicate ActsOnlyIn(h: Hist, h': Hist, a: NodeId, t: nat)
    requires a in h.recs && a in h'.recs
  {
    && (forall u :: u in h'.recs[a].stored && u != t ==>
          u in h.recs[a].stored && h'.recs[a].stored[u] == h.recs[a].stored[u])
    && (forall u :: u in h'.recs[a].votes && u != t ==>
          u in h.recs[a].votes && h'.recs[a].votes[u] == h.recs[a].votes[u])
    && (forall u :: u in h'.leaders && u != t ==> u in h.leaders && h'.leaders[u] == h.leaders[u])
  }

  ghost predicate LeaderGrows(l: LeaderRec, l': LeaderRec) {
    && l'.id == l.id && l'.base == l.base && l'.electors == l.electors
    && l.log <= l'.log && l.commit <= l'.commit
  }

  ghost predicate LeadersGrow(ls: map<nat, LeaderRec>, ls': map<nat, LeaderRec>) {
    forall t :: t in ls ==> t in ls' && LeaderGrows(ls[t], ls'[t])
  }

  /** The history grows by an act of member `a`: what it says of the others stays as it is. */
  ghost predicate Grows(h: Hist, h': Hist, a: NodeId) {
    && h'.ids == h.ids
    && h'.recs.Keys == h.recs.Keys
    && (forall s :: s in h.recs && s != a ==> h'.recs[s] == h.recs[s])
    && (a in h.recs ==> RecGrows(h.recs[a], h'.recs[a]))
    && LeadersGrow(h.leaders, h'.leaders)
    && (forall t :: t in h.leaders && h.leaders[t].id != a ==> h'.leaders[t] == h.leaders[t])
    && (forall t :: t in h'.leaders && t !in h.leaders ==> h'.leaders[t].id == a)
  }
}
