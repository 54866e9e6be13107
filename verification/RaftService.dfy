/** What a cluster does for its clients, in every run: proposals are sent, stored, committed, and nothing else is. */
module RaftService {
  import opened RaftTypes
  import opened RaftSpec
  import opened RaftHistory
  import opened RaftCompleteness
  import opened RaftReplication
  import opened RaftCluster
  import opened RaftRuns
  import opened RaftTheorems
  import opened RaftCatchUp

  // ---------------------------------------------------------------- a leader and a peer of a run

  lemma LoggedInRun(c: Cluster, h: Hist, l: NodeId, p: NodeId)
    requires ClusterOK(c, h) && l in c.nodes && p in c.nodes && p != l
    requires c.nodes[l].role == Leader && c.nodes[p].term <= c.nodes[l].term
    ensures c.nodes[l].term in h.leaders
    ensures Logged(c.nodes[l].log, c.nodes[l].term, c.nodes[p].log, |h.leaders[c.nodes[l].term].base|)
    ensures Numbers(c.nodes[l].log)
  {
    LeaderFacts(c, h, l);
    LogFacts(c, h, l);
    var n, f := c.nodes[l], c.nodes[p];
    OwnEntries(h, n.term);
    MemberLog(c, h, p);
    LogsAgree(h.leaders, f.log, n.log);
    forall x | 0 <= x < |f.log| && f.log[x].term == n.term ensures f.log <= n.log {
      assert f.log[x].term <= f.log[|f.log| - 1].term;
      LastFromLeader(h.leaders, f.log);
    }
  }

  lemma MemberLog(c: Cluster, h: Hist, p: NodeId)
    requires ClusterOK(c, h) && p in c.nodes
    ensures var f := c.nodes[p];
            && f.cfg.id == p && Tracked(f) && LogOK(h.leaders, f.log) && TermsBelow(f.log, f.term + 1)
            && f.committed <= |f.log| && CommitKnown(h.leaders, f.term, f.committed)
            && f.cfg.maxEntries >= 1 && PeerSet(f.cfg) == c.nodes.Keys - {p} && 1 + |f.cfg.peers| == |c.nodes.Keys|
  {
    Host(c, h, p);
  }

  lemma CommitWithinLeader(c: Cluster, h: Hist, l: NodeId, p: NodeId)
    requires ClusterOK(c, h) && l in c.nodes && p in c.nodes
    requires c.nodes[l].role == Leader && c.nodes[p].term <= c.nodes[l].term
    ensures c.nodes[p].committed <= |c.nodes[l].log|
  {
    LeaderFacts(c, h, l);
    MemberLog(c, h, p);
    var n, f := c.nodes[l], c.nodes[p];
    assert LeaderRecOK(h, n.term);
    if f.committed > |h.leaders[n.term].base| { CommitInTerm(h, n.term, f.committed); }
  }

  /** Any leader of a run and any other member of at most its term. */
  lemma PairedInRun(c: Cluster, h: Hist, l: NodeId, p: NodeId)
    requires ClusterOK(c, h) && l in c.nodes && p in c.nodes && p != l
    requires c.nodes[l].role == Leader && c.nodes[p].term <= c.nodes[l].term
    ensures c.nodes[l].term in h.leaders
    ensures Paired(c.nodes[l], c.nodes[p], |h.leaders[c.nodes[l].term].base|)
  {
    LoggedInRun(c, h, l, p);
    CommitWithinLeader(c, h, l, p);
    TrackFacts(c, h, l, p);
    MemberLog(c, h, l);
    MemberLog(c, h, p);
    LogFacts(c, h, l);
    if c.nodes[p].role == Leader && c.nodes[p].term == c.nodes[l].term {
      LeaderFacts(c, h, p);
      LeaderFacts(c, h, l);
    }
    assert LeaderRecOK(h, c.nodes[l].term);
  }

  lemma PairedAt(cs: seq<Cluster>, es: seq<Event>, i: nat, l: NodeId, p: NodeId) returns (b: nat)
    requires IsRun(cs, es) && i < |cs| && l in cs[i].nodes && p in cs[i].nodes && p != l
    requires cs[i].nodes[l].role == Leader && cs[i].nodes[p].term <= cs[i].nodes[l].term
    ensures Paired(cs[i].nodes[l], cs[i].nodes[p], b) && cs[i].nodes[l].cfg.id == l && cs[i].nodes[p].cfg.id == p
  {
    var hs := RunOK(cs, es);
    assert ClusterOK(cs[i], hs[i]);
    PairedInRun(cs[i], hs[i], l, p);
    MemberLog(cs[i], hs[i], l);
    MemberLog(cs[i], hs[i], p);
    b := |hs[i].leaders[cs[i].nodes[l].term].base|;
  }

  // ---------------------------------------------------------------- sending

  lemma CanSendInRun(c: Cluster, h: Hist, l: NodeId, p: NodeId)
    requires ClusterOK(c, h) && l in c.nodes && p in c.nodes && p != l && c.nodes[l].role == Leader
    ensures CanSend(c.nodes[l], p)
  {
    TrackFacts(c, h, l, p);
    MemberLog(c, h, l);
  }

  /** In every run a leader that sends to a peer sends one append: the entries from its next index on, as many
      as fit, with the term of the entry before them. */
  lemma SendsAppend(cs: seq<Cluster>, es: seq<Event>, i: nat, l: NodeId, p: NodeId)
    requires IsRun(cs, es) && i < |cs| && l in cs[i].nodes && p in cs[i].nodes && p != l
    requires cs[i].nodes[l].role == Leader
    ensures var n := cs[i].nodes[l];
            && Tracked(n) && p in n.progress
            && var n' := SendAppend(n, p);
               && n' == n.(msgs := n'.msgs) && |Added(n, n')| == 1 && n'.msgs == n.msgs + Added(n, n')
               && IsNextNow(n, p, Added(n, n')[0])
  {
    var hs := RunOK(cs, es);
    assert ClusterOK(cs[i], hs[i]);
    CanSendInRun(cs[i], hs[i], l, p);
    SendsNext(cs[i].nodes[l], p);
  }

  /** These are the appends to the first peers, in order. */
  ghost predicate ToFirst(n: Node, ms: seq<Message>) {
    |ms| <= |n.cfg.peers| && forall j :: 0 <= j < |ms| ==> IsNextNow(n, n.cfg.peers[j], ms[j])
  }

  lemma {:induction false} SendsToFirst(n: Node, k: nat) returns (ms: seq<Message>)
    requires Tracked(n) && k <= |n.cfg.peers| && forall j :: 0 <= j < k ==> CanSend(n, n.cfg.peers[j])
    ensures SendAppends(n, k) == n.(msgs := n.msgs + ms) && |ms| == k && ToFirst(n, ms)
  {
    if k == 0 {
      ms := [];
      assert n.msgs + [] == n.msgs;
    } else {
      var first := SendsToFirst(n, k - 1);
      var m := SendsOneMore(n, n.(msgs := n.msgs + first), n.cfg.peers[k - 1]);
      ms := OneMore(n, first, m);
    }
  }

  lemma OneMore(n: Node, first: seq<Message>, m: Message) returns (ms: seq<Message>)
    requires ToFirst(n, first) && |first| < |n.cfg.peers| && IsNextNow(n, n.cfg.peers[|first|], m)
    ensures ToFirst(n, ms) && |ms| == |first| + 1 && n.msgs + first + [m] == n.msgs + ms
  {
    ms := first + [m];
    forall j | 0 <= j < |ms| ensures IsNextNow(n, n.cfg.peers[j], ms[j]) {}
  }

  lemma SendsOneMore(n: Node, n1: Node, p: NodeId) returns (m: Message)
    requires CanSend(n, p) && n1 == n.(msgs := n1.msgs)
    ensures IsNextNow(n, p, m) && SendAppend(n1, p) == n1.(msgs := n1.msgs + [m])
  {
    SendsNext(n1, p);
    m := Added(n1, SendAppend(n1, p))[0];
    SameNext(n, n1, p, m);
  }

  // ---------------------------------------------------------------- proposals

  /** The log has grown by these entries: their kinds and data, numbered on, in the leader's term. */
  ghost predicate Takes(log: seq<LogEntry>, term: nat, es: seq<LogEntry>, log': seq<LogEntry>) {
    && |log'| == |log| + |es| && log'[..|log|] == log
    && forall j :: 0 <= j < |es| ==> log'[|log| + j] == LogEntry(|log| + 1 + j, term, es[j].kind, es[j].data)
  }

  ghost predicate IsProposal(n: Node, m: Message) {
    m.Propose? && (m.term == 0 || m.term == n.term) && m.entries != []
  }

  /** A leader stores what is proposed to it. */
  lemma ProposalStored(n: Node, m: Message)
    requires n.role == Leader && Tracked(n) && IsProposal(n, m)
    ensures var n' := Step(n, m);
            && Takes(n.log, n.term, m.entries, n'.log)
            && n' == n.(log := n'.log, progress := n'.progress, committed := n'.committed, msgs := n'.msgs)
  {
    var n1 := TakeProposal(n, m.entries);
    assert n1.log[..|n.log|] == n.log;
  }

  /** A follower hands a proposal on to its leader as it is, and a node without a leader refuses it.  An error
      is returned exactly if the proposal is neither stored nor handed on. */
  lemma ProposalHandedOn(n: Node, m: Message)
    requires Tracked(n) && m.Propose? && m.term == 0
    ensures var n' := Step(n, m);
            && (n.role == Follower && n.lead != NoNode ==>
                  n' == n.(msgs := n.msgs + [Propose(if m.from == NoNode then n.cfg.id else m.from, n.lead,
                                                     n.term, m.entries)]))
            && (ErrorOf(n, m) == NoError <==> n' != n)
            && (ErrorOf(n, m) == NoLeaderKnown <==> n.role == Follower && n.lead == NoNode)
            && (ErrorOf(n, m) == ElectionInProgress <==> n.role == Candidate)
            && (ErrorOf(n, m) == EmptyProposal <==> n.role == Leader && m.entries == [])
  {
    if n.role == Leader && m.entries != [] { ProposalStored(n, m); }
  }

  lemma AllCanTake(n: Node, es: seq<LogEntry>)
    requires Tracked(n) && n.cfg.id !in n.cfg.peers && forall p :: p in n.cfg.peers ==> CanSend(n, p)
    ensures var n1 := TakeProposal(n, es); Tracked(n1) && forall p :: p in n.cfg.peers ==> CanSend(n1, p)
  {
    var n1 := TakeProposal(n, es);
    forall p | p in n.cfg.peers ensures CanSend(n1, p) { assert CanSend(n, p); }
  }

  /** The appends to all peers that a proposal makes a leader send. */
  ghost predicate ToAll(n: Node, ms: seq<Message>, commit: nat) {
    |ms| == |n.cfg.peers|
    && forall j :: 0 <= j < |ms| ==> IsNext(n, n.cfg.peers[j], ms[j]) && ms[j].commit == commit
  }

  /** What a proposal makes of a leader that can send to its peers. */
  lemma ProposalSent(n: Node, m: Message) returns (ms: seq<Message>)
    requires n.role == Leader && Tracked(n) && IsProposal(n, m)
    requires n.cfg.id !in n.cfg.peers && forall p :: p in n.cfg.peers ==> CanSend(n, p)
    ensures var n' := Step(n, m); n'.msgs == n.msgs + ms && ToAll(n', ms, n.committed) && n.committed <= n'.committed
  {
    AllCanTake(n, m.entries);
    var n1 := TakeProposal(n, m.entries);
    ms := SendsToFirst(n1, |n.cfg.peers|);
    var n2 := BroadcastAppend(n1);
    CommitIndexIsLargest(n2, |n2.log|);
    var n' := MaybeCommit(n2);
    assert Step(n, m) == n';
    forall j | 0 <= j < |ms| ensures IsNext(n', n.cfg.peers[j], ms[j]) && ms[j].commit == n.committed {
      assert IsNextNow(n1, n.cfg.peers[j], ms[j]);
    }
  }

  /** The own track of a leader that has taken a proposal reaches the end of its log. */
  lemma OwnTrack(n: Node, m: Message)
    requires n.role == Leader && Tracked(n) && IsProposal(n, m) && n.committed <= |n.log|
    requires n.cfg.id in n.progress && n.progress[n.cfg.id].matched <= |n.log|
    ensures var n' := Step(n, m);
            && n'.progress == n.progress[n.cfg.id := n'.progress[n.cfg.id]]
            && n'.progress[n.cfg.id].matched == |n'.log|
            && (CanCommit(n', |n'.log|) ==> n'.committed == |n'.log|)
  {
    var n1 := TakeProposal(n, m.entries);
    var n2 := BroadcastAppend(n1);
    CommitIndexIsLargest(n2, |n2.log|);
  }

  // ---------------------------------------------------------------- commits

  /** Any half of the members, rounded up, suffices: an entry of the leader's term that they are known to have
      can be committed. */
  lemma HalfSuffices(n: Node, x: nat, q: set<NodeId>)
    requires TermAt(n.log, x) == n.term && 2 * |q| >= |n.progress|
    requires forall p :: p in q ==> p in n.progress && n.progress[p].matched >= x
    ensures CanCommit(n, x)
  {
    SubsetSize(q, Holders(n, x));
  }

  /** One member after the other. */
  ghost function InTurn(talk: (Node, Node, Message) -> Node, l: Node, fs: seq<Node>, ms: seq<Message>): Node
    requires |fs| == |ms|
  {
    if fs == [] then l
    else
      var k := |fs| - 1;
      talk(InTurn(talk, l, fs[..k], ms[..k]), fs[k], ms[k])
  }

  /** The leader talks to these members, one after the other. */
  ghost function TalkEach(l: Node, fs: seq<Node>, ms: seq<Message>, rounds: nat): Node
    requires |fs| == |ms|
  {
    InTurn((l1: Node, f: Node, m: Message) => Talk(l1, f, m, rounds).l, l, fs, ms)
  }

  /** They are different members that lag and are in reach, and each has its next append under way. */
  ghost predicate Ready(l: Node, b: nat, fs: seq<Node>, ms: seq<Message>) {
    && |fs| == |ms|
    && (forall j :: 0 <= j < |fs| ==> Waiting(l, b, fs[j], ms[j]))
    && (forall i, j :: 0 <= i < j < |fs| ==> fs[i].cfg.id != fs[j].cfg.id)
  }

  ghost predicate Waiting(l: Node, b: nat, f: Node, m: Message) {
    Paired(l, f, b) && InReach(l, f) && IsNext(l, f.cfg.id, m) && !AllAcked(l, f.cfg.id)
  }

  function Ids(fs: seq<Node>): set<NodeId> {
    set j | 0 <= j < |fs| :: fs[j].cfg.id
  }

  /** The leader has heard of these members that they have its whole log. */
  ghost predicate HeardAll(l: Node, l': Node, ids: set<NodeId>) {
    && l' == l.(progress := l'.progress, committed := l'.committed, msgs := l'.msgs)
    && Tracked(l') && l'.progress.Keys == l.progress.Keys && l.committed <= l'.committed <= |l.log|
    && (forall p :: p in ids ==> AllAcked(l', p))
    && (forall p :: p in l.progress && p !in ids ==> l'.progress[p] == l.progress[p])
    && (ids != {} && CanCommit(l', |l.log|) ==> l'.committed == |l.log|)
  }

  lemma StillWaiting(l: Node, l1: Node, b: nat, f: Node, m: Message, ids: set<NodeId>)
    requires Waiting(l, b, f, m) && HeardAll(l, l1, ids) && f.cfg.id !in ids
    ensures Waiting(l1, b, f, m)
  {
    assert l1.progress[f.cfg.id] == l.progress[f.cfg.id];
  }

  lemma HeardOneMore(l: Node, l1: Node, l2: Node, b: nat, f: Node, f2: Node, commit: nat, ids: set<NodeId>)
    requires HeardAll(l, l1, ids) && CaughtUp(l1, f.cfg.id, b, commit, l2, f2) && !AllAcked(l1, f.cfg.id)
    ensures HeardAll(l, l2, ids + {f.cfg.id})
  {}

  /** After this talk the leader has heard of one more member. */
  ghost predicate Adds(talk: (Node, Node, Message) -> Node, l: Node, b: nat, l1: Node, f: Node, m: Message,
                       ids: set<NodeId>) {
    HeardAll(l, l1, ids) && Waiting(l, b, f, m) && f.cfg.id !in ids ==> HeardAll(l, talk(l1, f, m), ids + {f.cfg.id})
  }

  lemma {:induction false} HeardInTurn(talk: (Node, Node, Message) -> Node, l: Node, b: nat, fs: seq<Node>,
                                       ms: seq<Message>)
    requires Ready(l, b, fs, ms) && Tracked(l) && l.committed <= |l.log|
    requires forall l1, f, m, ids {:trigger Adds(talk, l, b, l1, f, m, ids)} :: Adds(talk, l, b, l1, f, m, ids)
    ensures HeardAll(l, InTurn(talk, l, fs, ms), Ids(fs))
  {
    if fs == [] {
      HeardNone(l);
      assert Ids(fs) == {};
    } else {
      var k := |fs| - 1;
      var l1 := InTurn(talk, l, fs[..k], ms[..k]);
      LastIsReady(l, b, fs, ms);
      HeardInTurn(talk, l, b, fs[..k], ms[..k]);
      assert Adds(talk, l, b, l1, fs[k], ms[k], Ids(fs[..k]));
    }
  }

  lemma HeardNone(l: Node)
    requires Tracked(l) && l.committed <= |l.log|
    ensures HeardAll(l, l, {})
  {}

  lemma LastIsReady(l: Node, b: nat, fs: seq<Node>, ms: seq<Message>)
    requires Ready(l, b, fs, ms) && fs != []
    ensures var k := |fs| - 1;
            && Ready(l, b, fs[..k], ms[..k]) && Waiting(l, b, fs[k], ms[k])
            && fs[k].cfg.id !in Ids(fs[..k]) && Ids(fs) == Ids(fs[..k]) + {fs[k].cfg.id}
  {
    var k := |fs| - 1;
    forall j | 0 <= j < k ensures Waiting(l, b, fs[..k][j], ms[..k][j]) { assert Waiting(l, b, fs[j], ms[j]); }
    forall i, j | 0 <= i < j < k ensures fs[..k][i].cfg.id != fs[..k][j].cfg.id {
      assert fs[i].cfg.id != fs[j].cfg.id;
    }
  }

  lemma TalkedToAll(l: Node, b: nat, fs: seq<Node>, ms: seq<Message>, rounds: nat)
    requires Ready(l, b, fs, ms) && rounds > |l.log| && Tracked(l) && l.committed <= |l.log|
    ensures HeardAll(l, TalkEach(l, fs, ms, rounds), Ids(fs))
  {
    var talk := (l1: Node, f: Node, m: Message) => Talk(l1, f, m, rounds).l;
    forall l1, f, m, ids {:trigger Adds(talk, l, b, l1, f, m, ids)} ensures Adds(talk, l, b, l1, f, m, ids) {
      if HeardAll(l, l1, ids) && Waiting(l, b, f, m) && f.cfg.id !in ids {
        var s := TalkedToNext(l, l1, b, f, m, rounds, ids);
      }
    }
    HeardInTurn(talk, l, b, fs, ms);
  }

  lemma TalkedToNext(l: Node, l1: Node, b: nat, f: Node, m: Message, rounds: nat, ids: set<NodeId>) returns (s: Moment)
    requires HeardAll(l, l1, ids) && Waiting(l, b, f, m) && f.cfg.id !in ids && rounds > |l.log|
    ensures s == Talk(l1, f, m, rounds) && HeardAll(l, s.l, ids + {f.cfg.id}) && s.f.log == l.log
  {
    StillWaiting(l, l1, b, f, m, ids);
    TalkExactly(l1, f, b, m, rounds);
    s := Talk(l1, f, m, rounds);
    HeardOneMore(l, l1, s.l, b, f, s.f, m.commit, ids);
  }

  // ---------------------------------------------------------------- theorems

  /** In every state of every run, for a leader and a peer of at most its term: however long they talk about
      the next append, the peer gets the leader's log exactly if it has the leader's entries up to where it
      is sent more from, which is never before the leader's own first entry.  If it has not, its log stays
      as it is; if it has, the leader gets to know it, and the peer commits what the leader had committed. */
  lemma CatchUpExactly(cs: seq<Cluster>, es: seq<Event>, i: nat, l: NodeId, p: NodeId, rounds: nat)
    returns (m: Message)
    requires IsRun(cs, es) && i < |cs| && l in cs[i].nodes && p in cs[i].nodes && p != l
    requires cs[i].nodes[l].role == Leader && cs[i].nodes[p].term <= cs[i].nodes[l].term
    requires rounds > |cs[i].nodes[l].log|
    ensures var n, f := cs[i].nodes[l], cs[i].nodes[p];
            && Tracked(n) && p in n.progress && f.cfg.id == p && SendAppend(n, p).msgs == n.msgs + [m]
            && var s := Talk(n, f, m, rounds);
               && (s.f.log == n.log <==> InReach(n, f))
               && (if InReach(n, f) then AllAcked(s.l, p) && s.l.log == n.log && n.committed <= s.f.committed
                   else s.f.log == f.log)
  {
    var n, f := cs[i].nodes[l], cs[i].nodes[p];
    var b := PairedAt(cs, es, i, l, p);
    SendsNext(n, p);
    m := Added(n, SendAppend(n, p))[0];
    TalkExactly(n, f, b, m, rounds);
  }

  /** The commit index after a heartbeat: the leader's, as far as entries are stored, or the old one. */
  function Beaten(f: Node, commit: nat): nat {
    if commit <= f.committed then f.committed else if commit <= |f.log| then commit else |f.log|
  }

  /** A heartbeat of a leader of at least a node's term makes it a follower, raises its commit index as far as
      entries are stored, and is answered. */
  lemma HeartbeatTaken(f: Node, m: Message)
    requires m.Heartbeat? && Tracked(f) && 0 < m.term && f.term <= m.term && (f.role == Leader ==> f.term < m.term)
    ensures var f' := Step(f, m);
            && f'.log == f.log && f'.committed == Beaten(f, m.commit)
            && f'.term == m.term && f'.role == Follower && f'.lead == m.from
            && f'.cfg == f.cfg && f'.progress == f.progress && f'.applied == f.applied
            && f'.msgs == f.msgs + [HeartbeatRsp(f.cfg.id, m.from, m.term, f'.committed)]
  {}

  /** The answer of a member that lags makes the leader send it the next append; that of another does nothing. */
  lemma HeartbeatHeard(n: Node, r: Message)
    requires r.HeartbeatRsp? && n.role == Leader && (r.term == n.term || r.term == 0) && Tracked(n)
    requires r.from in n.progress
    ensures Step(n, r) == if n.progress[r.from].matched < |n.log| then SendAppend(n, r.from) else n
  {}

  /** A heartbeat to a peer that lags starts a talk. */
  lemma HeartbeatPullsUp(n: Node, f: Node, b: nat) returns (l1: Node, f1: Node, m: Message)
    requires Paired(n, f, b) && !AllAcked(n, f.cfg.id)
    ensures Turn(Moment(n, f, [HeartbeatTo(n, f.cfg.id)]), Moment(l1, f1, [m]))
    ensures Paired(l1, f1, b) && IsNextNow(l1, f.cfg.id, m) && l1 == n.(msgs := l1.msgs) && f1.cfg == f.cfg
    ensures f1.log == f.log && f1.committed == Beaten(f, n.committed)
  {
    var p := f.cfg.id;
    var beat := HeartbeatTo(n, p);
    assert n.term > 0 by { assert n.log[|n.log| - 1].term >= 1 && TermAt(n.log, |n.log|) == n.term; }
    HeartbeatTaken(f, beat);
    f1 := Step(f, beat);
    var r := HeartbeatRsp(p, n.cfg.id, n.term, f1.committed);
    TurnsTo(n, f, beat, r);
    HeartbeatHeard(n, r);
    SendsNext(n, p);
    l1 := SendAppend(n, p);
    m := Added(n, l1)[0];
    assert Added(n, l1) == [m];
    StillPaired(n, f, f1, b);
    PairedSending(n, l1, f1, b);
    SameNext(l1, n, p, m);
  }

  lemma PairedSending(n: Node, l1: Node, f: Node, b: nat)
    requires Paired(n, f, b) && l1 == n.(msgs := l1.msgs)
    ensures Paired(l1, f, b)
  {}

  /** In every state of every run a heartbeat to a peer that lags leads to such a talk, from the commit index
      on that the heartbeat leaves. */
  lemma HeartbeatCatchesUp(cs: seq<Cluster>, es: seq<Event>, i: nat, l: NodeId, p: NodeId, rounds: nat)
    requires IsRun(cs, es) && i < |cs| && l in cs[i].nodes && p in cs[i].nodes && p != l
    requires cs[i].nodes[l].role == Leader && cs[i].nodes[p].term <= cs[i].nodes[l].term
    requires !AllAcked(cs[i].nodes[l], p) && rounds > |cs[i].nodes[l].log| + 1
    ensures var n, f := cs[i].nodes[l], cs[i].nodes[p];
            && Tracked(n) && p in n.progress && f.cfg.id == p
            && var s := Talk(n, f, HeartbeatTo(n, p), rounds);
               && (s.f.log == n.log <==> InReach(n, f.(committed := Beaten(f, n.committed))))
               && (s.f.log == n.log || s.f.log == f.log)
  {
    var b := PairedAt(cs, es, i, l, p);
    var s := HeartbeatTalk(cs[i].nodes[l], cs[i].nodes[p], b, rounds);
  }

  lemma HeartbeatTalk(n: Node, f: Node, b: nat, rounds: nat) returns (s: Moment)
    requires Paired(n, f, b) && !AllAcked(n, f.cfg.id) && rounds > |n.log| + 1
    ensures s == Talk(n, f, HeartbeatTo(n, f.cfg.id), rounds)
    ensures s.f.log == n.log <==> InReach(n, f.(committed := Beaten(f, n.committed)))
    ensures s.f.log == n.log || s.f.log == f.log
  {
    var l1, f1, m := HeartbeatPullsUp(n, f, b);
    s := TalkOutcome(l1, f1, b, m, rounds - 1);
    TurnedTalk(n, f, HeartbeatTo(n, f.cfg.id), l1, f1, m, rounds);
    SameReach(l1, f1, n, f.(committed := Beaten(f, n.committed)));
  }

  lemma SameReach(l: Node, f: Node, l': Node, f': Node)
    requires f.cfg.id in l.progress && l.progress[f.cfg.id].next >= 1
    requires f'.cfg.id == f.cfg.id && f'.log == f.log && f'.committed == f.committed
    requires l'.progress == l.progress && l'.log == l.log
    ensures InReach(l, f) == InReach(l', f')
  {}

  lemma TalkOutcome(l: Node, f: Node, b: nat, m: Message, rounds: nat) returns (s: Moment)
    requires Paired(l, f, b) && IsNext(l, f.cfg.id, m) && rounds > |l.log|
    ensures s == Talk(l, f, m, rounds)
    ensures s.f.log == l.log <==> InReach(l, f)
    ensures s.f.log == l.log || s.f.log == f.log
  {
    TalkExactly(l, f, b, m, rounds);
    s := Talk(l, f, m, rounds);
  }

  lemma TurnedTalk(l: Node, f: Node, m: Message, l1: Node, f1: Node, m1: Message, rounds: nat)
    requires Turn(Moment(l, f, [m]), Moment(l1, f1, [m1])) && rounds > 0
    ensures Talk(l, f, m, rounds) == Talk(l1, f1, m1, rounds - 1)
  {
    assert Leads(Round, Moment(l, f, [m]), Moment(l1, f1, [m1]));
    LedOnce(Round, Moment(l, f, [m]), Moment(l1, f1, [m1]), rounds - 1);
  }

  lemma LedOnce<S>(round: S -> S, s: S, s': S, n: nat)
    requires Leads(round, s, s')
    ensures Repeat(round, s, n + 1) == Repeat(round, s', n)
  {}

  /** Different peers of a leader, of at most its term and in its reach. */
  ghost predicate Partners(c: Cluster, l: NodeId, ps: seq<NodeId>) {
    && l in c.nodes && Tracked(c.nodes[l])
    && (forall j :: 0 <= j < |ps| ==> Partner(c, l, ps[j]))
    && (forall i, j :: 0 <= i < j < |ps| ==> ps[i] != ps[j])
  }

  ghost predicate Partner(c: Cluster, l: NodeId, p: NodeId)
    requires l in c.nodes && Tracked(c.nodes[l])
  {
    && p in c.nodes && p != l && c.nodes[p].term <= c.nodes[l].term
    && p in c.nodes[l].progress && c.nodes[p].cfg.id == p && InReach(c.nodes[l], c.nodes[p])
  }

  /** The state after a proposal. */
  lemma Proposed(c: Cluster, h: Hist, l: NodeId, m: Message) returns (c': Cluster, h': Hist)
    requires ClusterOK(c, h) && l in c.nodes && c.nodes[l].role == Leader && IsProposal(c.nodes[l], m) && m.term == 0
    ensures Tracked(c.nodes[l]) && c' == Put(c, l, Step(c.nodes[l], m)) && ClusterOK(c', h')
  {
    MemberLog(c, h, l);
    c' := Put(c, l, Step(c.nodes[l], m));
    h' := NextOK(c, h, c', Local(l, m));
  }

  lemma LeaderCanSend(c: Cluster, h: Hist, l: NodeId)
    requires ClusterOK(c, h) && l in c.nodes && c.nodes[l].role == Leader
    ensures var n := c.nodes[l];
            && n.cfg.id == l && Tracked(n) && l !in n.cfg.peers && (forall p :: p in n.cfg.peers ==> CanSend(n, p))
            && (forall p :: p in c.nodes && p != l ==> p in n.cfg.peers)
            && n.progress.Keys == c.nodes.Keys && n.committed <= |n.log| && TermAt(n.log, |n.log|) == n.term
            && (forall p :: p in n.progress ==> n.progress[p].matched <= |n.log|)
  {
    MemberLog(c, h, l);
    var n := c.nodes[l];
    assert l !in PeerSet(n.cfg);
    forall p | p in n.cfg.peers ensures CanSend(n, p) {
      assert p in PeerSet(n.cfg);
      CanSendInRun(c, h, l, p);
    }
    forall p | p in c.nodes && p != l ensures p in n.cfg.peers { assert p in PeerSet(n.cfg); }
    LeaderTracks(c, h, l);
  }

  lemma LeaderTracks(c: Cluster, h: Hist, l: NodeId)
    requires ClusterOK(c, h) && l in c.nodes && c.nodes[l].role == Leader
    ensures var n := c.nodes[l];
            && n.progress.Keys == c.nodes.Keys && n.committed <= |n.log| && TermAt(n.log, |n.log|) == n.term
            && (forall p :: p in n.progress ==> n.progress[p].matched <= |n.log|)
  {
    Host(c, h, l);
    var n := c.nodes[l];
    assert TracksHold(h, l, n.term, |n.log|, n.committed, n.progress);
    assert LeaderRecOK(h, n.term);
    OwnEntries(h, n.term);
  }

  lemma ReachStays(n: Node, n': Node, f: Node)
    requires f.cfg.id in n.progress && f.cfg.id in n'.progress && n.progress[f.cfg.id].next >= 1
    requires n'.progress[f.cfg.id] == n.progress[f.cfg.id]
    requires n.log <= n'.log && InReach(n, f)
    ensures InReach(n', f)
  {
    var k := Edge(n, f);
    assert n'.log[..k] == n.log[..k];
  }

  /** The leader has taken entries and knows it. */
  ghost predicate Grew(n: Node, n': Node) {
    && n'.role == Leader && n'.cfg == n.cfg && n'.term == n.term && n.cfg.id in n.progress && n.cfg.id in n'.progress
    && n.log <= n'.log && |n.log| < |n'.log|
    && n'.progress == n.progress[n.cfg.id := n'.progress[n.cfg.id]] && n'.progress[n.cfg.id].matched == |n'.log|
    && (CanCommit(n', |n'.log|) ==> n'.committed == |n'.log|)
  }

  lemma ProposalGrows(c: Cluster, h: Hist, l: NodeId, m: Message)
    requires ClusterOK(c, h) && l in c.nodes && c.nodes[l].role == Leader && IsProposal(c.nodes[l], m)
    ensures Tracked(c.nodes[l]) && Grew(c.nodes[l], Step(c.nodes[l], m))
  {
    var n := c.nodes[l];
    LeaderCanSend(c, h, l);
    ProposalStored(n, m);
    OwnTrack(n, m);
    assert Step(n, m).log[..|n.log|] == n.log;
  }

  /** A partner of the leader waits for the append that the proposal makes it send. */
  lemma PartnerWaits(c: Cluster, h: Hist, c': Cluster, h': Hist, l: NodeId, ms: seq<Message>, p: NodeId)
    returns (sent: Message)
    requires ClusterOK(c, h) && ClusterOK(c', h') && l in c.nodes && Tracked(c.nodes[l]) && Partner(c, l, p)
    requires c.nodes[l].role == Leader && l in c'.nodes && Grew(c.nodes[l], c'.nodes[l]) && c' == Put(c, l, c'.nodes[l])
    requires ToAll(c'.nodes[l], ms, c.nodes[l].committed)
    ensures c'.nodes[l].term in h'.leaders && sent in ms && sent.to == p
    ensures Waiting(c'.nodes[l], |h'.leaders[c'.nodes[l].term].base|, c.nodes[p], sent)
  {
    var n, n', f := c.nodes[l], c'.nodes[l], c.nodes[p];
    LeaderCanSend(c, h, l);
    PairedInRun(c', h', l, p);
    ReachStays(n, n', f);
    assert p in n.cfg.peers;
    var k :| 0 <= k < |n.cfg.peers| && n.cfg.peers[k] == p;
    sent := ms[k];
    assert IsNext(n', n'.cfg.peers[k], sent);
  }

  lemma PartnersWait(c: Cluster, h: Hist, c': Cluster, h': Hist, l: NodeId, ms: seq<Message>, ps: seq<NodeId>)
    returns (sent: seq<Message>)
    requires ClusterOK(c, h) && ClusterOK(c', h') && Partners(c, l, ps)
    requires c.nodes[l].role == Leader && l in c'.nodes && Grew(c.nodes[l], c'.nodes[l]) && c' == Put(c, l, c'.nodes[l])
    requires ToAll(c'.nodes[l], ms, c.nodes[l].committed)
    ensures |sent| == |ps| && forall j :: 0 <= j < |ps| ==> sent[j] in ms && sent[j].to == ps[j]
    ensures c'.nodes[l].term in h'.leaders
    ensures Ready(c'.nodes[l], |h'.leaders[c'.nodes[l].term].base|, StatesOf(c, ps), sent)
  {
    LeaderFacts(c', h', l);
    var n', b := c'.nodes[l], |h'.leaders[c'.nodes[l].term].base|;
    sent := [];
    for j := 0 to |ps|
      invariant |sent| == j && forall k :: 0 <= k < j ==> Awaits(c, n', b, ms, ps[k], sent[k])
    {
      assert Partner(c, l, ps[j]);
      var one := PartnerWaits(c, h, c', h', l, ms, ps[j]);
      assert Awaits(c, n', b, ms, ps[j], one);
      sent := sent + [one];
    }
    AreReady(c, l, n', b, ms, ps, sent);
  }

  ghost predicate Awaits(c: Cluster, n': Node, b: nat, ms: seq<Message>, p: NodeId, m: Message) {
    p in c.nodes && m in ms && m.to == p && Waiting(n', b, c.nodes[p], m)
  }

  lemma AreReady(c: Cluster, l: NodeId, n': Node, b: nat, ms: seq<Message>, ps: seq<NodeId>, sent: seq<Message>)
    requires Partners(c, l, ps) && |sent| == |ps|
    requires forall k :: 0 <= k < |ps| ==> Awaits(c, n', b, ms, ps[k], sent[k])
    ensures Ready(n', b, StatesOf(c, ps), sent)
    ensures forall j :: 0 <= j < |ps| ==> sent[j] in ms && sent[j].to == ps[j]
  {
    var fs := StatesOf(c, ps);
    forall j | 0 <= j < |fs| ensures Waiting(n', b, fs[j], sent[j]) { assert Awaits(c, n', b, ms, ps[j], sent[j]); }
    forall i, j | 0 <= i < j < |ps| ensures fs[i].cfg.id != fs[j].cfg.id {
      assert Partner(c, l, ps[i]) && Partner(c, l, ps[j]);
    }
  }

  lemma {:induction false} IdsSize(fs: seq<Node>)
    requires forall i, j :: 0 <= i < j < |fs| ==> fs[i].cfg.id != fs[j].cfg.id
    ensures |Ids(fs)| == |fs|
  {
    if fs == [] {
      assert Ids(fs) == {};
    } else {
      var k := |fs| - 1;
      IdsSize(fs[..k]);
      assert Ids(fs) == Ids(fs[..k]) + {fs[k].cfg.id};
    }
  }

  /** Once a leader's own track is up and it has heard of enough members, its whole log is committed. */
  lemma EnoughCommits(n: Node, l': Node, ids: set<NodeId>)
    requires HeardAll(n, l', ids) && n.cfg.id in n.progress && n.cfg.id !in ids && TermAt(n.log, |n.log|) == n.term
    requires n.progress[n.cfg.id].matched == |n.log| && 2 * (1 + |ids|) >= |n.progress|
    requires ids == {} ==> l' == n && (CanCommit(n, |n.log|) ==> n.committed == |n.log|)
    requires ids <= n.progress.Keys
    ensures l'.committed == |n.log|
  {
    var q := ids + {n.cfg.id};
    forall p | p in q ensures p in l'.progress && l'.progress[p].matched >= |n.log| {
      if p in ids { assert AllAcked(l', p); }
    }
    assert |l'.progress| == |l'.progress.Keys| == |n.progress.Keys| == |n.progress|;
    HalfSuffices(l', |n.log|, q);
  }

  /** In every run: a leader that is given a proposal stores it and sends it to its peers.  If it then talks
      to any of them that are in reach, half of the members with itself, it commits the proposal. */
  lemma ProposalCommits(cs: seq<Cluster>, es: seq<Event>, i: nat, l: NodeId, m: Message, ps: seq<NodeId>, rounds: nat)
    returns (sent: seq<Message>)
    requires IsRun(cs, es) && i < |cs| && Partners(cs[i], l, ps) && cs[i].nodes[l].role == Leader
    requires m.Propose? && m.term == 0 && m.entries != []
    requires 2 * (1 + |ps|) >= |cs[i].nodes| && rounds > |cs[i].nodes[l].log| + |m.entries|
    ensures var n := cs[i].nodes[l];
            var n' := Step(n, m);
            && Takes(n.log, n.term, m.entries, n'.log)
            && |sent| == |ps| && (forall j :: 0 <= j < |ps| ==> sent[j] in Added(n, n') && sent[j].to == ps[j])
            && var l' := TalkEach(n', StatesOf(cs[i], ps), sent, rounds); l'.log == n'.log && l'.committed == |n'.log|
  {
    var hs := RunOK(cs, es);
    var c, h, n := cs[i], hs[i], cs[i].nodes[l];
    assert ClusterOK(c, h);
    ProposalStored(n, m);
    LeaderCanSend(c, h, l);
    ProposalGrows(c, h, l, m);
    var c', h' := Proposed(c, h, l, m);
    var ms := ProposalSent(n, m);
    sent := PartnersWait(c, h, c', h', l, ms, ps);
    Committed(c, h, c', h', l, ps, sent, rounds);
  }

  lemma Committed(c: Cluster, h: Hist, c': Cluster, h': Hist, l: NodeId, ps: seq<NodeId>,
                  sent: seq<Message>, rounds: nat)
    requires ClusterOK(c, h) && ClusterOK(c', h') && Partners(c, l, ps) && |sent| == |ps|
    requires c.nodes[l].role == Leader && l in c'.nodes && Grew(c.nodes[l], c'.nodes[l]) && c' == Put(c, l, c'.nodes[l])
    requires c'.nodes[l].term in h'.leaders
    requires Ready(c'.nodes[l], |h'.leaders[c'.nodes[l].term].base|, StatesOf(c, ps), sent)
    requires 2 * (1 + |ps|) >= |c.nodes| && rounds > |c'.nodes[l].log|
    ensures var l' := TalkEach(c'.nodes[l], StatesOf(c, ps), sent, rounds);
            l'.log == c'.nodes[l].log && l'.committed == |c'.nodes[l].log|
  {
    var n', fs := c'.nodes[l], StatesOf(c, ps);
    LeaderCanSend(c', h', l);
    TalkedToAll(n', |h'.leaders[n'.term].base|, fs, sent, rounds);
    IdsSize(fs);
    assert |n'.progress| == |n'.progress.Keys| == |c.nodes.Keys| == |c.nodes|;
    forall p | p in Ids(fs) ensures p in n'.progress && p != l {
      var j :| 0 <= j < |fs| && fs[j].cfg.id == p;
      assert Partner(c, l, ps[j]);
    }
    EnoughCommits(n', TalkEach(n', fs, sent, rounds), Ids(fs));
  }
}
