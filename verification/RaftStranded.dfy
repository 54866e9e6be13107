/**
 A leader that probes never steps back.  This is a run of three nodes in which a follower that missed the entries
 of the first leader can get nothing from the second.
 */
module RaftStranded {
  import opened RaftTypes
  import opened RaftSpec
  import opened RaftCluster
  import opened RaftDivergence
  import opened RaftCatchUp
  import opened RaftService

  const Taken1 := LogEntry(2, 1, EntryNormal, [])
  const Noop3 := LogEntry(3, 2, EntryNoop, [])

  const TakenA := LeadsA[1 := Track(3, 2, Replicate)]
  const LeadsLater := map[1 := Track(3, 0, Probe), 2 := Track(3, 2, Replicate), 3 := Track(3, 0, Probe)]

  const AppendAB := Append(1, 2, 1, 0, 0, [Noop1, Taken1], 0)
  const AppendAC := Append(1, 3, 1, 0, 0, [Noop1, Taken1], 0)
  const AckBA := AppendRsp(2, 1, 1, 2, false, 0, 0)
  const LongVoteBC := Vote(2, 3, 2, 2, 1)

  // A takes an entry, which only B receives.
  const P := A3.(log := [Noop1, Taken1], progress := TakenA)
  const A5 := P.(msgs := A3.msgs + [AppendAB] + [AppendAC])
  const A6 := A5.(msgs := [])

  // B wins term 2 with the vote of C, which has nothing.
  const B11 := Node(CfgB, 1, 1, Follower, 1, map[], map[], [Noop1, Taken1], 0, 0, [AckBA])
  const B12 := Node(CfgB, 2, 2, Candidate, 0, map[2 := true], map[], [Noop1, Taken1], 0, 0,
                    [AckBA, Vote(2, 1, 2, 2, 1), LongVoteBC])
  const B13 := B12.(msgs := [])
  const B14 := Node(CfgB, 2, 2, Leader, 2, map[2 := true, 3 := true], LeadsLater, [Noop1, Taken1, Noop3], 0, 0,
                    [Heartbeat(2, 1, 2, 0), Heartbeat(2, 3, 2, 0)])

  lemma NoCommitA(n: Node)
    requires n.progress == TakenA && n.committed == 0
    ensures CommitIndex(n, 2) == 0
  {
    assert Holders(n, 2) == {1} && Holders(n, 1) == {1};
    assert |n.progress| == |n.progress.Keys| && n.progress.Keys == {1, 2, 3};
    assert !CanCommit(n, 2) && !CanCommit(n, 1);
    assert CommitIndex(n, 2) == CommitIndex(n, 1) == CommitIndex(n, 0);
  }

  lemma TakeA()
    ensures Tracked(A3) && TakeProposal(A3, [Given]) == P && Tracked(P)
  {
    assert Numbered(A3, [Given]) == [Taken1];
  }

  lemma SendA(n: Node)
    requires n == P
    ensures Tracked(n) && BroadcastAppend(n) == A5
  {
    assert TakenA[2] == Track(1, 0, Probe) && TakenA[3] == Track(1, 0, Probe);
    BroadcastTwo(n, 2, 3, Noop1, Taken1);
  }

  lemma ProposeA()
    ensures Tracked(A3) && Step(A3, Propose(1, 0, 0, [Given])) == A5 && TakeReady(A5) == A6
  {
    TakeA();
    SendA(P);
    NoCommitA(A5);
    assert MaybeCommit(A5) == A5;
  }

  lemma AppendB()
    ensures Tracked(B2) && WellFormed(AppendAB) && Step(B2, AppendAB) == B11
  {
    assert AppendLog([], [Noop1, Taken1]) == [Noop1, Taken1];
  }

  lemma CampaignLater()
    ensures TimerFires(B11) == B12 && TakeReady(B12) == B13
  {
    var n := BecomeCandidate(B11);
    assert LastTerm(n.log) == 1;
    var ms := VoteRequests(n);
    assert ms[0] == Vote(2, 1, 2, 2, 1) && ms[1] == LongVoteBC;
  }

  lemma GrantLater()
    ensures Tracked(C0) && Step(C0, LongVoteBC) == C1 && TakeReady(C1) == C2
  {}

  lemma ElectLater()
    ensures Tracked(B13) && Step(B13, GrantCB) == B14
  {
    var n := B13.(votes := map[2 := true, 3 := true]);
    assert n.votes == B13.votes[3 := true];
    assert Granted(n.votes) == {2, 3};
    assert FreshProgress(n) == LeadsLater;
    assert Heartbeats(B14) == B14.msgs;
  }

  lemma FirstTerm() returns (cs: seq<Cluster>, es: seq<Event>)
    ensures Last(cs, es, A6, B11, C0, {})
  {
    cs, es := FirstElection();
    ProposeA();
    cs, es := ActShows(cs, es, Local(1, Propose(1, 0, 0, [Given])), 1, A3, B2, C0, {}, A5);
    assert AppendAB in A5.msgs;
    cs, es := FlushShows(cs, es, 1, A5, B2, C0, AppendAB, A6);
    AppendB();
    cs, es := ReceiveShows(cs, es, AppendAB, A6, B2, C0, {AppendAB}, B11);
  }

  lemma SecondTerm() returns (cs: seq<Cluster>, es: seq<Event>)
    ensures Last(cs, es, A6, B14, C2, {})
  {
    cs, es := FirstTerm();
    CampaignLater();
    cs, es := FireShows(cs, es, 2, A6, B11, C0, {}, B12);
    assert LongVoteBC in B12.msgs;
    cs, es := FlushShows(cs, es, 2, A6, B12, C0, LongVoteBC, B13);
    GrantLater();
    cs, es := ReceiveShows(cs, es, LongVoteBC, A6, B13, C0, {LongVoteBC}, C1);
    assert GrantCB in C1.msgs;
    cs, es := FlushShows(cs, es, 3, A6, B13, C1, GrantCB, C2);
    ElectLater();
    cs, es := ReceiveShows(cs, es, GrantCB, A6, B13, C2, {GrantCB}, B14);
  }

  /** A run that ends with a leader and a follower of its term that, however long they talk, stays empty. */
  lemma FollowerIsStranded(rounds: nat) returns (cs: seq<Cluster>, es: seq<Event>, l: NodeId, p: NodeId, m: Message)
    requires rounds > 3
    ensures IsRun(cs, es)
    ensures var c := cs[|cs| - 1];
            && l in c.nodes && p in c.nodes && c.nodes[l].role == Leader && c.nodes[p].term == c.nodes[l].term
            && Tracked(c.nodes[l]) && SendAppend(c.nodes[l], p).msgs == c.nodes[l].msgs + [m]
            && |c.nodes[l].log| == 3 && Talk(c.nodes[l], c.nodes[p], m, rounds).f.log == []
  {
    cs, es := SecondTerm();
    l, p := 2, 3;
    m := CatchUpExactly(cs, es, |cs| - 1, l, p, rounds);
    assert LeadsLater[3] == Track(3, 0, Probe);
    assert !InReach(B14, C2);
  }
}
