/**
 Heartbeats raise the commit index without looking at the log.  This is a run of three nodes in which
 that makes a former leader commit an entry of its own where the cluster has committed another one.
 */
module RaftDivergence {
  import opened RaftTypes
  import opened RaftSpec
  import opened RaftCluster

  const CfgA := Config(1, [2, 3], 100)
  const CfgB := Config(2, [1, 3], 100)
  const CfgC := Config(3, [1, 2], 100)

  const Noop1 := LogEntry(1, 1, EntryNoop, [])
  const Noop2 := LogEntry(1, 2, EntryNoop, [])
  const Given := LogEntry(0, 0, EntryNormal, [])
  const Taken := LogEntry(2, 2, EntryNormal, [])

  const Started := map[1 := Track(1, 0, Probe), 2 := Track(1, 0, Probe), 3 := Track(1, 0, Probe)]
  const LeadsA := Started[1 := Track(1, 0, Replicate)]
  const LeadsB := Started[2 := Track(1, 0, Replicate)]
  const TakenB := Started[2 := Track(3, 2, Replicate)]
  const AckedB := TakenB[3 := Track(3, 2, Replicate)]

  const VoteAB := Vote(1, 2, 1, 0, 0)
  const GrantBA := VoteRsp(2, 1, 1, true)
  const VoteBC := Vote(2, 3, 2, 0, 0)
  const GrantCB := VoteRsp(3, 2, 2, true)
  const AppendBA := Append(2, 1, 2, 0, 0, [Noop2, Taken], 0)
  const AppendBC := Append(2, 3, 2, 0, 0, [Noop2, Taken], 0)
  const AckCB := AppendRsp(3, 2, 2, 2, false, 0, 0)
  const BeatBA := Heartbeat(2, 1, 2, 2)
  const BeatBC := Heartbeat(2, 3, 2, 2)

  // A wins term 1 with B's vote and appends its no-op, which nobody receives.
  const A0 := NewNode(CfgA)
  const A1 := Node(CfgA, 1, 1, Candidate, 0, map[1 := true], map[], [], 0, 0, [VoteAB, Vote(1, 3, 1, 0, 0)])
  const A2 := A1.(msgs := [])
  const A3 := Node(CfgA, 1, 1, Leader, 1, map[1 := true, 2 := true], LeadsA, [Noop1], 0, 0,
                   [Heartbeat(1, 2, 1, 0), Heartbeat(1, 3, 1, 0)])
  // A heartbeat of B makes A a follower that commits its own no-op.
  const A4 := Node(CfgA, 2, 0, Follower, 2, map[1 := true, 2 := true], LeadsA, [Noop1], 1, 0,
                   [Heartbeat(1, 2, 1, 0), Heartbeat(1, 3, 1, 0), HeartbeatRsp(1, 2, 2, 1)])

  const B0 := NewNode(CfgB)
  const B1 := Node(CfgB, 1, 1, Follower, 0, map[], map[], [], 0, 0, [GrantBA])
  const B2 := B1.(msgs := [])
  // B wins term 2 with C's vote, takes an entry, and commits both its entries once C has them.
  const B3 := Node(CfgB, 2, 2, Candidate, 0, map[2 := true], map[], [], 0, 0, [Vote(2, 1, 2, 0, 0), VoteBC])
  const B4 := B3.(msgs := [])
  const B5 := Node(CfgB, 2, 2, Leader, 2, map[2 := true, 3 := true], LeadsB, [Noop2], 0, 0,
                   [Heartbeat(2, 1, 2, 0), Heartbeat(2, 3, 2, 0)])
  const B6 := Node(CfgB, 2, 2, Leader, 2, map[2 := true, 3 := true], TakenB, [Noop2, Taken], 0, 0,
                   [Heartbeat(2, 1, 2, 0), Heartbeat(2, 3, 2, 0), AppendBA, AppendBC])
  const B7 := B6.(msgs := [])
  const B8 := B7.(progress := AckedB, committed := 2)
  const B9 := B8.(msgs := [BeatBA, BeatBC])
  const B10 := B9.(msgs := [], applied := 2)

  const C0 := NewNode(CfgC)
  const C1 := Node(CfgC, 2, 2, Follower, 0, map[], map[], [], 0, 0, [GrantCB])
  const C2 := C1.(msgs := [])
  const C3 := Node(CfgC, 2, 2, Follower, 2, map[], map[], [Noop2, Taken], 0, 0, [AckCB])
  const C4 := C3.(msgs := [])

  // ---------------------------------------------------------------- each node's steps

  lemma CampaignA()
    ensures TimerFires(A0) == A1 && TakeReady(A1) == A2
  {
    var n := BecomeCandidate(A0);
    assert LastTerm(n.log) == 0;
    var ms := VoteRequests(n);
    assert ms[0] == VoteAB && ms[1] == Vote(1, 3, 1, 0, 0);
  }

  lemma ElectA()
    ensures Tracked(A2) && Step(A2, GrantBA) == A3
  {
    var n := A2.(votes := map[1 := true, 2 := true]);
    assert n.votes == A2.votes[2 := true];
    assert Granted(n.votes) == {1, 2};
    assert FreshProgress(n) == LeadsA;
    assert Heartbeats(A3) == A3.msgs;
  }

  lemma BeatA()
    ensures Tracked(A3) && Step(A3, BeatBA) == A4
  {}

  lemma GrantB()
    ensures Tracked(B0) && Step(B0, VoteAB) == B1 && TakeReady(B1) == B2
  {}

  lemma CampaignB()
    ensures TimerFires(B2) == B3 && TakeReady(B3) == B4
  {
    var n := BecomeCandidate(B2);
    assert LastTerm(n.log) == 0;
    var ms := VoteRequests(n);
    assert ms[0] == Vote(2, 1, 2, 0, 0) && ms[1] == VoteBC;
  }

  lemma ElectB()
    ensures Tracked(B4) && Step(B4, GrantCB) == B5
  {
    var n := B4.(votes := map[2 := true, 3 := true]);
    assert n.votes == B4.votes[3 := true];
    assert Granted(n.votes) == {2, 3};
    assert FreshProgress(n) == LeadsB;
    assert Heartbeats(B5) == B5.msgs;
  }

  lemma TakeB()
    ensures TakeProposal(B5, [Given]) == B5.(log := [Noop2, Taken], progress := TakenB)
  {
    assert Numbered(B5, [Given]) == [Taken];
  }

  lemma AppendTwo(n: Node, to: NodeId, x: LogEntry, y: LogEntry)
    requires Tracked(n) && n.log == [x, y] && n.cfg.maxEntries >= 2
    requires to in n.progress && n.progress[to] == Track(1, 0, Probe)
    ensures SendAppend(n, to) == n.(msgs := n.msgs + [Append(n.cfg.id, to, n.term, 0, 0, [x, y], n.committed)])
  {
    assert Slice(n.log, 1, 1 + n.cfg.maxEntries) == n.log;
  }

  lemma BroadcastTwo(n: Node, p: NodeId, q: NodeId, x: LogEntry, y: LogEntry)
    requires Tracked(n) && n.log == [x, y] && n.cfg.maxEntries >= 2 && n.cfg.peers == [p, q]
    requires p in n.progress && n.progress[p] == Track(1, 0, Probe)
    requires q in n.progress && n.progress[q] == Track(1, 0, Probe)
    ensures BroadcastAppend(n)
            == n.(msgs := n.msgs + [Append(n.cfg.id, p, n.term, 0, 0, [x, y], n.committed)]
                                 + [Append(n.cfg.id, q, n.term, 0, 0, [x, y], n.committed)])
  {
    AppendTwo(n, p, x, y);
    var n1 := SendAppend(n, p);
    AppendTwo(n1, q, x, y);
    assert SendAppends(n, 0) == n;
    assert SendAppends(n, 1) == n1;
    assert SendAppends(n, 2) == SendAppend(n1, q);
  }

  lemma SendB(n: Node)
    requires n == B5.(log := [Noop2, Taken], progress := TakenB)
    ensures Tracked(n) && BroadcastAppend(n) == B6
  {
    assert TakenB[1] == Track(1, 0, Probe) && TakenB[3] == Track(1, 0, Probe);
    BroadcastTwo(n, 1, 3, Noop2, Taken);
    assert B6.msgs == n.msgs + [AppendBA] + [AppendBC];
  }

  lemma NoCommitB(n: Node)
    requires n.progress == TakenB && n.committed == 0
    ensures CommitIndex(n, 2) == 0
  {
    assert Holders(n, 2) == {2} && Holders(n, 1) == {2};
    assert |n.progress| == |n.progress.Keys| && n.progress.Keys == {1, 2, 3};
    assert !CanCommit(n, 2) && !CanCommit(n, 1);
    assert CommitIndex(n, 2) == CommitIndex(n, 1) == CommitIndex(n, 0);
  }

  lemma ProposeB()
    ensures Tracked(B5) && Step(B5, Propose(2, 0, 0, [Given])) == B6 && TakeReady(B6) == B7
  {
    TakeB();
    var n := TakeProposal(B5, [Given]);
    SendB(n);
    NoCommitB(B6);
    assert MaybeCommit(B6) == B6;
  }

  lemma CommitB()
    ensures Tracked(B7) && Step(B7, AckCB) == B8
  {
    var n := B7.(progress := AckedB);
    assert Holders(n, 2) == {2, 3};
    assert |n.progress| == |n.progress.Keys| && n.progress.Keys == {1, 2, 3};
  }

  lemma BeatB()
    ensures TimerFires(B8) == B9 && TakeReady(B9) == B10
  {
    assert Heartbeats(B8) == [BeatBA, BeatBC];
  }

  lemma GrantC()
    ensures Tracked(C0) && Step(C0, VoteBC) == C1 && TakeReady(C1) == C2
  {}

  lemma AppendC()
    ensures Tracked(C2) && WellFormed(AppendBC) && Step(C2, AppendBC) == C3 && TakeReady(C3) == C4
  {
    assert AppendLog([], [Noop2, Taken]) == [Noop2, Taken];
  }

  // ---------------------------------------------------------------- the run

  /** The nodes of a state and some messages of its network. */
  ghost predicate Shows(s: Cluster, a: Node, b: Node, c: Node, net: set<Message>) {
    s.nodes == map[1 := a, 2 := b, 3 := c] && s.walked.Keys == {1, 2, 3} && net <= s.net
  }

  /** One more event. */
  lemma Extend(cs: seq<Cluster>, es: seq<Event>, c: Cluster, e: Event)
    requires IsRun(cs, es) && Next(cs[|cs| - 1], c, e)
    ensures IsRun(cs + [c], es + [e])
  {
    var cs', es' := cs + [c], es + [e];
    forall i | 0 <= i < |es'| ensures Next(cs'[i], cs'[i + 1], es'[i]) {
      if i < |es| { assert Next(cs[i], cs[i + 1], es[i]); }
    }
  }

  /** A node takes a step and its messages reach the network. */
  lemma Act(cs: seq<Cluster>, es: seq<Event>, e: Event, id: NodeId, n: Node)
    returns (cs': seq<Cluster>, es': seq<Event>)
    requires IsRun(cs, es) && id in cs[|cs| - 1].nodes
    requires Next(cs[|cs| - 1], Put(cs[|cs| - 1], id, n), e)
    ensures IsRun(cs', es') && |cs'| > 0 && |es'| > 0 && es'[|es'| - 1] == e
    ensures cs'[|cs'| - 1] == Put(cs[|cs| - 1], id, n)
  {
    Extend(cs, es, Put(cs[|cs| - 1], id, n), e);
    cs', es' := cs + [Put(cs[|cs| - 1], id, n)], es + [e];
  }

  lemma Flush(cs: seq<Cluster>, es: seq<Event>, id: NodeId) returns (cs': seq<Cluster>, es': seq<Event>)
    requires IsRun(cs, es) && id in cs[|cs| - 1].nodes && id in cs[|cs| - 1].walked
    ensures IsRun(cs', es') && |cs'| > 0
    ensures var c, c' := cs[|cs| - 1], cs'[|cs'| - 1];
            && c'.nodes == c.nodes[id := TakeReady(c.nodes[id])]
            && c'.walked.Keys == c.walked.Keys
            && c.net <= c'.net && forall m :: m in c.nodes[id].msgs ==> m in c'.net
  {
    var c := cs[|cs| - 1];
    var c' := Put(c, id, TakeReady(c.nodes[id])).(
                walked := c.walked[id := c.walked[id] + ReadyEntries(c.nodes[id])],
                net := c.net + set m | m in c.nodes[id].msgs);
    Extend(cs, es, c', Ready(id));
    cs', es' := cs + [c'], es + [Ready(id)];
    assert c'.walked.Keys == c.walked.Keys;
  }

  lemma ThreeMembers()
    ensures Configured({1, 2, 3}, CfgA) && Configured({1, 2, 3}, CfgB) && Configured({1, 2, 3}, CfgC)
  {
    assert PeerSet(CfgA) == {2, 3} && PeerSet(CfgB) == {1, 3} && PeerSet(CfgC) == {1, 2};
  }

  const Empty := Cluster(map[1 := A0, 2 := B0, 3 := C0], map[1 := [], 2 := [], 3 := []], {})

  lemma StartsEmpty()
    ensures Init(Empty)
  {
    ThreeMembers();
    assert Empty.nodes.Keys == {1, 2, 3} == Empty.walked.Keys;
  }

  lemma Start() returns (cs: seq<Cluster>, es: seq<Event>)
    ensures Last(cs, es, A0, B0, C0, {})
  {
    StartsEmpty();
    cs, es := [Empty], [];
    assert Empty.walked.Keys == {1, 2, 3};
  }

  // The same steps on what a state of the three nodes shows.

  ghost function Pick(id: NodeId, a: Node, b: Node, c: Node): Node {
    if id == 1 then a else if id == 2 then b else c
  }

  ghost predicate Last(cs: seq<Cluster>, es: seq<Event>, a: Node, b: Node, c: Node, net: set<Message>) {
    IsRun(cs, es) && Shows(cs[|cs| - 1], a, b, c, net)
  }

  lemma UpdateShows(nodes: map<NodeId, Node>, id: NodeId, a: Node, b: Node, c: Node, n: Node)
    requires nodes == map[1 := a, 2 := b, 3 := c] && id in {1, 2, 3}
    ensures nodes[id := n]
            == map[1 := if id == 1 then n else a, 2 := if id == 2 then n else b, 3 := if id == 3 then n else c]
  {}

  lemma ActShows(cs: seq<Cluster>, es: seq<Event>, e: Event, id: NodeId, a: Node, b: Node, c: Node,
                 net: set<Message>, n: Node)
    returns (cs': seq<Cluster>, es': seq<Event>)
    requires Last(cs, es, a, b, c, net) && id in {1, 2, 3} && Next(cs[|cs| - 1], Put(cs[|cs| - 1], id, n), e)
    ensures Last(cs', es', if id == 1 then n else a, if id == 2 then n else b, if id == 3 then n else c, net)
    ensures |es'| > 0 && es'[|es'| - 1] == e
  {
    UpdateShows(cs[|cs| - 1].nodes, id, a, b, c, n);
    cs', es' := Act(cs, es, e, id, n);
  }

  lemma FireShows(cs: seq<Cluster>, es: seq<Event>, id: NodeId, a: Node, b: Node, c: Node, net: set<Message>, n: Node)
    returns (cs': seq<Cluster>, es': seq<Event>)
    requires Last(cs, es, a, b, c, net) && id in {1, 2, 3} && TimerFires(Pick(id, a, b, c)) == n
    ensures Last(cs', es', if id == 1 then n else a, if id == 2 then n else b, if id == 3 then n else c, net)
  {
    cs', es' := ActShows(cs, es, Timer(id), id, a, b, c, net, n);
  }

  lemma ReceiveShows(cs: seq<Cluster>, es: seq<Event>, m: Message, a: Node, b: Node, c: Node, net: set<Message>,
                     n: Node)
    returns (cs': seq<Cluster>, es': seq<Event>)
    requires Last(cs, es, a, b, c, net) && m in net && m.to in {1, 2, 3} && WellFormed(m)
    requires Tracked(Pick(m.to, a, b, c)) && Step(Pick(m.to, a, b, c), m) == n
    ensures Last(cs', es', if m.to == 1 then n else a, if m.to == 2 then n else b, if m.to == 3 then n else c, net)
    ensures |es'| > 0 && es'[|es'| - 1] == Deliver(m)
  {
    cs', es' := ActShows(cs, es, Deliver(m), m.to, a, b, c, net, n);
  }

  lemma FlushShows(cs: seq<Cluster>, es: seq<Event>, id: NodeId, a: Node, b: Node, c: Node, m: Message, n: Node)
    returns (cs': seq<Cluster>, es': seq<Event>)
    requires Last(cs, es, a, b, c, {}) && id in {1, 2, 3} && m in Pick(id, a, b, c).msgs
    requires TakeReady(Pick(id, a, b, c)) == n
    ensures Last(cs', es', if id == 1 then n else a, if id == 2 then n else b, if id == 3 then n else c, {m})
  {
    UpdateShows(cs[|cs| - 1].nodes, id, a, b, c, n);
    cs', es' := Flush(cs, es, id);
  }

  lemma FirstElection() returns (cs: seq<Cluster>, es: seq<Event>)
    ensures Last(cs, es, A3, B2, C0, {})
  {
    cs, es := Start();
    CampaignA();
    cs, es := FireShows(cs, es, 1, A0, B0, C0, {}, A1);
    assert VoteAB in A1.msgs;
    cs, es := FlushShows(cs, es, 1, A1, B0, C0, VoteAB, A2);
    GrantB();
    cs, es := ReceiveShows(cs, es, VoteAB, A2, B0, C0, {VoteAB}, B1);
    assert GrantBA in B1.msgs;
    cs, es := FlushShows(cs, es, 2, A2, B1, C0, GrantBA, B2);
    ElectA();
    cs, es := ReceiveShows(cs, es, GrantBA, A2, B2, C0, {GrantBA}, A3);
  }

  lemma SecondElection() returns (cs: seq<Cluster>, es: seq<Event>)
    ensures Last(cs, es, A3, B5, C2, {})
  {
    cs, es := FirstElection();
    CampaignB();
    cs, es := FireShows(cs, es, 2, A3, B2, C0, {}, B3);
    assert VoteBC in B3.msgs;
    cs, es := FlushShows(cs, es, 2, A3, B3, C0, VoteBC, B4);
    GrantC();
    cs, es := ReceiveShows(cs, es, VoteBC, A3, B4, C0, {VoteBC}, C1);
    assert GrantCB in C1.msgs;
    cs, es := FlushShows(cs, es, 3, A3, B4, C1, GrantCB, C2);
    ElectB();
    cs, es := ReceiveShows(cs, es, GrantCB, A3, B4, C2, {GrantCB}, B5);
  }

  lemma Replication() returns (cs: seq<Cluster>, es: seq<Event>)
    ensures Last(cs, es, A3, B7, C4, {AckCB})
  {
    cs, es := SecondElection();
    ProposeB();
    cs, es := ActShows(cs, es, Local(2, Propose(2, 0, 0, [Given])), 2, A3, B5, C2, {}, B6);
    assert AppendBC in B6.msgs;
    cs, es := FlushShows(cs, es, 2, A3, B6, C2, AppendBC, B7);
    AppendC();
    cs, es := ReceiveShows(cs, es, AppendBC, A3, B7, C2, {AppendBC}, C3);
    assert AckCB in C3.msgs;
    cs, es := FlushShows(cs, es, 3, A3, B7, C3, AckCB, C4);
  }

  lemma Beat() returns (cs: seq<Cluster>, es: seq<Event>)
    ensures Last(cs, es, A3, B10, C4, {BeatBA})
  {
    cs, es := Replication();
    CommitB();
    cs, es := ReceiveShows(cs, es, AckCB, A3, B7, C4, {AckCB}, B8);
    BeatB();
    cs, es := FireShows(cs, es, 2, A3, B8, C4, {}, B9);
    assert BeatBA in B9.msgs;
    cs, es := FlushShows(cs, es, 2, A3, B9, C4, BeatBA, B10);
  }

  /** A run in which two nodes have committed different entries at index 1; its last event, a
      heartbeat, is what breaks their agreement. */
  lemma HeartbeatBreaksAgreement() returns (cs: seq<Cluster>, es: seq<Event>, a: NodeId, b: NodeId)
    ensures IsRun(cs, es) && |es| > 0
    ensures var e := es[|es| - 1]; e.Deliver? && e.m.Heartbeat? && e.m.to == a
    ensures var c := cs[|cs| - 1];
            && a in c.nodes && b in c.nodes
            && c.nodes[a].committed >= 1 && c.nodes[b].committed >= 1
            && |c.nodes[a].log| >= 1 && |c.nodes[b].log| >= 1
            && c.nodes[a].log[0] != c.nodes[b].log[0]
  {
    cs, es := Beat();
    BeatA();
    cs, es := ReceiveShows(cs, es, BeatBA, A3, B10, C4, {BeatBA}, A4);
    a, b := 1, 2;
  }
}
