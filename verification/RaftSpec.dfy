/**
 What each handler of a Raft node does, as a function of the node's fields and the message.
 The classes in RaftLog, RaftProgress and Raft are proved to compute these functions.
 */
module RaftSpec {
  import opened RaftTypes

  // ---------------------------------------------------------------- the log

  /** The term stored at an index; 0 for the sentinel and beyond the end. */
  function TermAt(log: seq<LogEntry>, i: nat): nat {
    if 1 <= i <= |log| then log[i - 1].term else 0
  }

  function LastTerm(log: seq<LogEntry>): nat {
    TermAt(log, |log|)
  }

  predicate OneBased(es: seq<LogEntry>) {
    forall i :: 0 <= i < |es| ==> es[i].index >= 1
  }

  /** Skip entries that are already stored; at the first one that is not, cut there and take the rest. */
  function AppendLog(log: seq<LogEntry>, es: seq<LogEntry>): seq<LogEntry>
    requires OneBased(es)
  {
    if es == [] then log
    else if es[0].index > |log| then log + es
    else if TermAt(log, es[0].index) == es[0].term then AppendLog(log, es[1..])
    else log[..es[0].index - 1] + es
  }

  /** Entries lo..hi-1, clipped to what is stored. */
  function Slice(log: seq<LogEntry>, lo: nat, hi: nat): seq<LogEntry> {
    var lo' := if lo < 1 then 1 else lo;
    var hi' := if hi > |log| + 1 then |log| + 1 else hi;
    if lo >= hi || lo' > |log| then []
    else if lo' >= hi' then []
    else log[lo' - 1..hi' - 1]
  }

  /** A candidate's (last index, last term) is at least as recent as this log. */
  predicate UpToDate(log: seq<LogEntry>, lastIndex: nat, lastTerm: nat) {
    if lastTerm != LastTerm(log) then lastTerm > LastTerm(log) else lastIndex >= |log|
  }

  function CommitTo(log: seq<LogEntry>, committed: nat, to: nat): nat {
    if to <= committed then committed else if to > |log| then |log| else to
  }

  predicate LogConsistent(log: seq<LogEntry>, prevIndex: nat, prevTerm: nat) {
    prevIndex == 0 || TermAt(log, prevIndex) == prevTerm
  }

  /** Walk back from `index` while the previous entry has the same term. */
  function RunStart(log: seq<LogEntry>, index: nat, term: nat): nat {
    if index > 0 && TermAt(log, index - 1) == term then RunStart(log, index - 1, term) else index
  }

  function ConflictTerm(log: seq<LogEntry>, rejected: nat): nat {
    TermAt(log, rejected)
  }

  function ConflictIndex(log: seq<LogEntry>, rejected: nat): nat {
    if TermAt(log, rejected) == 0 then |log| else RunStart(log, rejected, TermAt(log, rejected))
  }

  /** The entries from lo to hi are all those of one term that end there. */
  ghost predicate IsStretch(log: seq<LogEntry>, term: nat, lo: nat, hi: nat) {
    && 1 <= lo <= hi <= |log|
    && (forall x :: lo <= x <= hi ==> TermAt(log, x) == term)
    && TermAt(log, lo - 1) != term
  }

  lemma {:induction false} StretchStart(log: seq<LogEntry>, index: nat, hi: nat, term: nat)
    requires 1 <= index <= hi <= |log| && term > 0 && forall x :: index <= x <= hi ==> TermAt(log, x) == term
    ensures IsStretch(log, term, RunStart(log, index, term), hi)
    decreases index
  {
    if TermAt(log, index - 1) == term { StretchStart(log, index - 1, hi, term); }
  }

  /** A conflict is reported at the start of the stretch of entries with the term found there, or at the last
      index if no entry with a term is. */
  lemma ConflictIsStretch(log: seq<LogEntry>, rejected: nat)
    ensures var t := TermAt(log, rejected);
            && ConflictTerm(log, rejected) == t
            && if t == 0 then ConflictIndex(log, rejected) == |log|
               else IsStretch(log, t, ConflictIndex(log, rejected), rejected)
  {
    var t := TermAt(log, rejected);
    if t > 0 { StretchStart(log, rejected, rejected, t); }
  }

  // ---------------------------------------------------------------- progress

  function MaybeUpdate(p: Track, index: nat): Track {
    if index <= p.matched then p
    else p.(matched := index, next := if p.next <= index then index + 1 else p.next)
  }

  function BecomeReplicate(p: Track): Track {
    p.(state := Replicate, next := p.matched + 1)
  }

  /** Whether a rejection makes the leader step back, and the resulting track. */
  function MaybeDecrTo(p: Track, rejected: nat, conflictIndex: nat): (Track, bool) {
    if p.state == Replicate then (p.(state := Probe, next := p.matched + 1), true)
    else if rejected + 1 != p.next then (p, false)
    else
      var newNext := if conflictIndex < 1 then 1 else conflictIndex;
      if newNext < p.next then (p.(next := newNext), true) else (p, false)
  }

  // ---------------------------------------------------------------- sending

  function Send(n: Node, m: Message): Node {
    n.(msgs := n.msgs + [m])
  }

  function HeartbeatTo(n: Node, to: NodeId): Message {
    Heartbeat(n.cfg.id, to, n.term, n.committed)
  }

  /** One heartbeat to each peer, in order. */
  function Heartbeats(n: Node): seq<Message> {
    seq(|n.cfg.peers|, i requires 0 <= i < |n.cfg.peers| => HeartbeatTo(n, n.cfg.peers[i]))
  }

  function AppendTo(n: Node, to: NodeId): Message
    requires to in n.progress && n.progress[to].next >= 1
  {
    var next := n.progress[to].next;
    Append(n.cfg.id, to, n.term, next - 1, TermAt(n.log, next - 1),
           Slice(n.log, next, next + n.cfg.maxEntries), n.committed)
  }

  /** The peers of a node are the other members, each once, and an append can carry an entry. */
  ghost predicate Configured(ids: set<NodeId>, cfg: Config) {
    && cfg.id in ids && cfg.id != NoNode
    && PeerSet(cfg) == ids - {cfg.id}
    && 1 + |cfg.peers| == |ids|
    && cfg.maxEntries >= 1
  }

  /** Every member has a next index, so there is always an entry before it. */
  predicate Tracked(n: Node) {
    forall p :: p in n.progress ==> n.progress[p].next >= 1
  }

  function SendAppend(n: Node, to: NodeId): Node
    requires Tracked(n)
  {
    if to !in n.progress || n.progress[to].state == Snapshotting then n
    else Send(n, AppendTo(n, to))
  }

  /** Send appends to the first `k` peers, in order. */
  function SendAppends(n: Node, k: nat): (n': Node)
    requires Tracked(n) && k <= |n.cfg.peers|
    ensures n' == n.(msgs := n'.msgs)
  {
    if k == 0 then n else SendAppend(SendAppends(n, k - 1), n.cfg.peers[k - 1])
  }

  function BroadcastAppend(n: Node): (n': Node)
    requires Tracked(n)
    ensures n' == n.(msgs := n'.msgs)
  {
    SendAppends(n, |n.cfg.peers|)
  }

  function BroadcastHeartbeat(n: Node): Node {
    n.(msgs := n.msgs + Heartbeats(n))
  }

  // ---------------------------------------------------------------- commit

  function Holders(n: Node, index: nat): set<NodeId> {
    set p | p in n.progress && n.progress[p].matched >= index
  }

  /** The leader counts itself once, and once more through its own track. */
  predicate CanCommit(n: Node, index: nat) {
    1 + |Holders(n, index)| >= (|n.progress| + 1) / 2 + 1 && TermAt(n.log, index) == n.term
  }

  /** The largest index in (committed, from] that can be committed, else `committed`. */
  function CommitIndex(n: Node, from: nat): nat {
    if from <= n.committed then n.committed
    else if CanCommit(n, from) then from
    else CommitIndex(n, from - 1)
  }

  /** `CommitIndex` finds the largest index above the commit index that can be committed. */
  lemma {:induction false} CommitIndexIsLargest(n: Node, from: nat)
    ensures CommitIndex(n, from) >= n.committed
    ensures CommitIndex(n, from) > n.committed ==> CommitIndex(n, from) <= from && CanCommit(n, CommitIndex(n, from))
    ensures forall i :: CommitIndex(n, from) < i <= from ==> !CanCommit(n, i)
  {
    if from > n.committed && !CanCommit(n, from) { CommitIndexIsLargest(n, from - 1); }
  }

  function MaybeCommit(n: Node): Node {
    n.(committed := CommitIndex(n, |n.log|))
  }

  // ---------------------------------------------------------------- roles

  function NewNode(cfg: Config): Node {
    Node(cfg, 0, NoNode, Follower, NoNode, map[], map[], [], 0, 0, [])
  }

  function BecomeFollower(n: Node, term: nat, lead: NodeId): Node {
    var n1 := if term > n.term then n.(term := term, vote := NoNode) else n;
    n1.(role := Follower, lead := lead)
  }

  function BecomeCandidate(n: Node): Node {
    n.(term := n.term + 1, vote := n.cfg.id, role := Candidate, lead := NoNode,
       votes := map[n.cfg.id := true])
  }

  function PeerSet(cfg: Config): set<NodeId> {
    set p | p in cfg.peers
  }

  function FreshProgress(n: Node): map<NodeId, Track> {
    map p | p in n.progress.Keys + {n.cfg.id} + PeerSet(n.cfg) ::
      if p in n.cfg.peers then Track(|n.log| + 1, 0, Probe)
      else if p == n.cfg.id then Track(|n.log| + 1, |n.log|, Replicate)
      else n.progress[p]
  }

  function BecomeLeader(n: Node): Node {
    var n1 := n.(role := Leader, lead := n.cfg.id, progress := FreshProgress(n));
    var n2 := n1.(log := n1.log + [LogEntry(|n1.log| + 1, n1.term, EntryNoop, [])]);
    BroadcastHeartbeat(n2)
  }

  function VoteRequests(n: Node): seq<Message> {
    seq(|n.cfg.peers|, i requires 0 <= i < |n.cfg.peers| =>
      Vote(n.cfg.id, n.cfg.peers[i], n.term, |n.log|, LastTerm(n.log)))
  }

  function Campaign(n: Node): Node {
    var n1 := BecomeCandidate(n);
    if |n.cfg.peers| == 0 then BecomeLeader(n1)
    else n1.(msgs := n1.msgs + VoteRequests(n1))
  }

  function Granted(votes: map<NodeId, bool>): set<NodeId> {
    set v | v in votes && votes[v]
  }

  predicate HasQuorum(n: Node) {
    |Granted(n.votes)| * 2 > 1 + |n.cfg.peers|
  }

  // ---------------------------------------------------------------- handlers

  predicate CanVote(n: Node, m: Message) {
    (n.vote == NoNode && n.lead == NoNode) || n.vote == m.from
  }

  function HandleVote(n: Node, m: Message): Node
    requires m.Vote?
  {
    if CanVote(n, m) && UpToDate(n.log, m.lastLogIndex, m.lastLogTerm) then
      Send(n.(vote := m.from, term := m.term), VoteRsp(n.cfg.id, m.from, m.term, true))
    else
      Send(n, VoteRsp(n.cfg.id, m.from, n.term, false))
  }

  function HandleVoteRsp(n: Node, m: Message): Node
    requires m.VoteRsp?
  {
    var n1 := n.(votes := n.votes[m.from := m.granted]);
    if m.granted && HasQuorum(n1) then BecomeLeader(n1) else n1
  }

  /** Entries carry their own index, and a term. */
  ghost predicate Numbers(log: seq<LogEntry>) {
    forall i :: 0 <= i < |log| ==> log[i].index == i + 1 && log[i].term >= 1
  }

  function Numbered(n: Node, es: seq<LogEntry>): seq<LogEntry> {
    seq(|es|, i requires 0 <= i < |es| => es[i].(index := |n.log| + 1 + i, term := n.term))
  }

  function TakeProposal(n: Node, es: seq<LogEntry>): Node {
    var n1 := n.(log := n.log + Numbered(n, es));
    if n.cfg.id in n1.progress then
      n1.(progress := n1.progress[n.cfg.id := MaybeUpdate(n1.progress[n.cfg.id], |n1.log|)])
    else n1
  }

  function HandleProposal(n: Node, m: Message): Node
    requires m.Propose? && Tracked(n)
  {
    MaybeCommit(BroadcastAppend(TakeProposal(n, m.entries)))
  }

  /** The part of an accepted append that changes the log and the commit index. */
  function Accept(n: Node, m: Message): Node
    requires m.Append? && OneBased(m.entries)
  {
    var n1 := n.(log := AppendLog(n.log, m.entries));
    n1.(committed := if m.commit > n1.committed
                     then CommitTo(n1.log, n1.committed, if |n1.log| < m.commit then |n1.log| else m.commit)
                     else n1.committed)
  }

  function HandleAppend(n: Node, m: Message): Node
    requires m.Append? && OneBased(m.entries)
  {
    if m.logIndex < n.committed then
      Send(n, AppendRsp(n.cfg.id, m.from, n.term, n.committed, false, 0, 0))
    else if !LogConsistent(n.log, m.logIndex, m.logTerm) then
      Send(n, AppendRsp(n.cfg.id, m.from, n.term, 0, true,
                        ConflictIndex(n.log, m.logIndex), ConflictTerm(n.log, m.logIndex)))
    else
      var n1 := Accept(n, m);
      Send(n1, AppendRsp(n.cfg.id, m.from, n.term, |n1.log|, false, 0, 0))
  }

  function HandleHeartbeat(n: Node, m: Message): Node
    requires m.Heartbeat?
  {
    var n1 := n.(committed := CommitTo(n.log, n.committed, m.commit));
    Send(n1, HeartbeatRsp(n.cfg.id, m.from, n.term, n1.committed))
  }

  /** The track of a member that has acknowledged a new index. */
  function Acked(p: Track, index: nat): Track {
    var p1 := MaybeUpdate(p, index);
    if p1.state != Replicate then BecomeReplicate(p1) else p1
  }

  /** Commit what can be committed, and go on sending to a member that still lags. */
  function AfterAck(n: Node, to: NodeId): Node
    requires Tracked(n) && to in n.progress
  {
    var n1 := MaybeCommit(n);
    if n1.progress[to].matched < |n1.log| then SendAppend(n1, to) else n1
  }

  function HandleAppendRsp(n: Node, m: Message): Node
    requires m.AppendRsp? && Tracked(n)
  {
    if m.from !in n.progress then n
    else if m.reject then
      var (p, retry) := MaybeDecrTo(n.progress[m.from], m.index, m.conflictIndex);
      var n1 := n.(progress := n.progress[m.from := p]);
      if retry then SendAppend(n1, m.from) else n1
    else if m.index <= n.progress[m.from].matched then n
    else
      AfterAck(n.(progress := n.progress[m.from := Acked(n.progress[m.from], m.index)]), m.from)
  }

  function HandleHeartbeatRsp(n: Node, m: Message): Node
    requires m.HeartbeatRsp? && Tracked(n)
  {
    if m.from in n.progress && n.progress[m.from].matched < |n.log| then SendAppend(n, m.from) else n
  }

  function HandleUnreachable(n: Node, m: Message): Node
    requires m.Unreachable?
  {
    if m.from in n.progress && n.progress[m.from].state == Replicate then
      n.(progress := n.progress[m.from := n.progress[m.from].(state := Probe)])
    else n
  }

  // ---------------------------------------------------------------- dispatch

  predicate WellFormed(m: Message) {
    m.Append? ==> OneBased(m.entries)
  }

  function StepFollower(n: Node, m: Message): Node
    requires WellFormed(m)
  {
    match m
    case Heartbeat(_, _, _, _) => HandleHeartbeat(n.(lead := m.from), m)
    case Append(_, _, _, _, _, _, _) => HandleAppend(n.(lead := m.from), m)
    case Vote(_, _, _, _, _) => HandleVote(n, m)
    case Propose(_, _, _, _) =>
      if n.lead == NoNode then n
      else Send(n, Propose(if m.from == NoNode then n.cfg.id else m.from, n.lead,
                           if m.term == 0 then n.term else m.term, m.entries))
    case _ => n
  }

  function StepCandidate(n: Node, m: Message): Node
    requires WellFormed(m)
  {
    match m
    case VoteRsp(_, _, _, _) => HandleVoteRsp(n, m)
    case Append(_, _, _, _, _, _, _) => HandleAppend(BecomeFollower(n, m.term, m.from), m)
    case Heartbeat(_, _, _, _) => HandleHeartbeat(BecomeFollower(n, m.term, m.from), m)
    case Vote(_, _, _, _, _) => HandleVote(n, m)
    case _ => n
  }

  function StepLeader(n: Node, m: Message): Node
    requires Tracked(n)
  {
    match m
    case Propose(_, _, _, _) => if m.entries == [] then n else HandleProposal(n, m)
    case AppendRsp(_, _, _, _, _, _, _) => HandleAppendRsp(n, m)
    case HeartbeatRsp(_, _, _, _) => HandleHeartbeatRsp(n, m)
    case Vote(_, _, _, _, _) => HandleVote(n, m)
    case Unreachable(_, _, _) => HandleUnreachable(n, m)
    case _ => n
  }

  /** A message of a higher term, other than a vote request, first turns the receiver into a follower. */
  function CatchUp(n: Node, m: Message): Node {
    if m.term > n.term && !m.Vote? then
      BecomeFollower(n, m.term, if m.VoteRsp? then NoNode else m.from)
    else n
  }

  predicate Stale(n: Node, m: Message) {
    m.term != 0 && m.term < n.term
  }

  function StepRole(n: Node, m: Message): Node
    requires WellFormed(m) && Tracked(n)
  {
    match n.role
    case Follower => StepFollower(n, m)
    case Candidate => StepCandidate(n, m)
    case Leader => StepLeader(n, m)
  }

  function Step(n: Node, m: Message): Node
    requires WellFormed(m) && Tracked(n)
  {
    if Stale(n, m) then n else StepRole(CatchUp(n, m), m)
  }

  function RoleError(n: Node, m: Message): StepError {
    if !m.Propose? then NoError
    else
      match n.role
      case Follower => if n.lead == NoNode then NoLeaderKnown else NoError
      case Candidate => ElectionInProgress
      case Leader => if m.entries == [] then EmptyProposal else NoError
  }

  function ErrorOf(n: Node, m: Message): StepError {
    if Stale(n, m) then NoError else RoleError(CatchUp(n, m), m)
  }

  /** The election timer fires on a node that does not lead; the heartbeat timer on one that does. */
  function TimerFires(n: Node): Node {
    if n.role == Leader then BroadcastHeartbeat(n) else Campaign(n)
  }

  /** The owner takes the outgoing messages and applies what is committed. */
  function TakeReady(n: Node): Node {
    n.(msgs := [], applied := if n.committed > n.applied then n.committed else n.applied)
  }

  function ReadyEntries(n: Node): seq<LogEntry> {
    if n.committed > n.applied then Slice(n.log, n.applied + 1, n.committed + 1) else []
  }
}
