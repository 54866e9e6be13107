/** Nothing but what was proposed, and the leaders' no-ops, is ever stored, sent or applied. */
module RaftProposals {
  import opened RaftTypes
  import opened RaftSpec
  import opened RaftCluster
  import opened RaftHost
  import RaftTheorems

  /** Kinds and data of entries. */
  type Payloads = iset<(EntryType, seq<Byte>)>

  ghost predicate Known(ps: Payloads, e: LogEntry) {
    (e.kind == EntryNoop && e.data == []) || (e.kind, e.data) in ps
  }

  ghost predicate KnownLog(ps: Payloads, log: seq<LogEntry>) {
    forall i :: 0 <= i < |log| ==> Known(ps, log[i])
  }

  ghost predicate KnownMsg(ps: Payloads, m: Message) {
    m.Append? || m.Propose? ==> KnownLog(ps, m.entries)
  }

  ghost predicate KnownMsgs(ps: Payloads, ms: seq<Message>) {
    forall i :: 0 <= i < |ms| ==> KnownMsg(ps, ms[i])
  }

  ghost predicate KnownNode(ps: Payloads, n: Node) {
    KnownLog(ps, n.log) && KnownMsgs(ps, n.msgs)
  }

  // ---------------------------------------------------------------- steps

  lemma {:induction false} AppendKnown(ps: Payloads, log: seq<LogEntry>, es: seq<LogEntry>)
    requires OneBased(es) && KnownLog(ps, log) && KnownLog(ps, es)
    ensures KnownLog(ps, AppendLog(log, es))
    decreases |es|
  {
    if es != [] && es[0].index <= |log| && TermAt(log, es[0].index) == es[0].term { AppendKnown(ps, log, es[1..]); }
  }

  lemma SendAppendKnown(ps: Payloads, n: Node, to: NodeId)
    requires Tracked(n) && KnownNode(ps, n)
    ensures KnownNode(ps, SendAppend(n, to))
  {}

  lemma {:induction false} SendAppendsKnown(ps: Payloads, n: Node, k: nat)
    requires Tracked(n) && KnownNode(ps, n) && k <= |n.cfg.peers|
    ensures KnownNode(ps, SendAppends(n, k))
  {
    if k > 0 {
      SendAppendsKnown(ps, n, k - 1);
      SendAppendKnown(ps, SendAppends(n, k - 1), n.cfg.peers[k - 1]);
    }
  }

  lemma ProposalKnown(ps: Payloads, n: Node, m: Message)
    requires Tracked(n) && KnownNode(ps, n) && m.Propose? && KnownMsg(ps, m)
    ensures KnownNode(ps, HandleProposal(n, m))
  {
    var n1 := TakeProposal(n, m.entries);
    forall i | 0 <= i < |n1.log| ensures Known(ps, n1.log[i]) {
      if i >= |n.log| { assert Known(ps, m.entries[i - |n.log|]); }
    }
    SendAppendsKnown(ps, n1, |n1.cfg.peers|);
  }

  lemma LeaderKnown(ps: Payloads, n: Node)
    requires KnownNode(ps, n)
    ensures KnownNode(ps, BecomeLeader(n))
  {}

  lemma HandleAppendKnown(ps: Payloads, n: Node, m: Message)
    requires KnownNode(ps, n) && m.Append? && OneBased(m.entries) && KnownMsg(ps, m)
    ensures KnownNode(ps, HandleAppend(n, m))
  {
    AppendKnown(ps, n.log, m.entries);
  }

  lemma HandleAppendRspKnown(ps: Payloads, n: Node, m: Message)
    requires Tracked(n) && KnownNode(ps, n) && m.AppendRsp?
    ensures KnownNode(ps, HandleAppendRsp(n, m))
  {
    if m.from in n.progress {
      var n1 := n.(progress := n.progress[m.from := MaybeDecrTo(n.progress[m.from], m.index, m.conflictIndex).0]);
      SendAppendKnown(ps, n1, m.from);
      var n2 := MaybeCommit(n.(progress := n.progress[m.from := Acked(n.progress[m.from], m.index)]));
      SendAppendKnown(ps, n2, m.from);
    }
  }

  lemma FollowerKnown(ps: Payloads, n: Node, m: Message)
    requires WellFormed(m) && KnownNode(ps, n) && KnownMsg(ps, m)
    ensures KnownNode(ps, StepFollower(n, m))
  {
    if m.Append? { HandleAppendKnown(ps, n.(lead := m.from), m); }
  }

  lemma CandidateKnown(ps: Payloads, n: Node, m: Message)
    requires WellFormed(m) && KnownNode(ps, n) && KnownMsg(ps, m)
    ensures KnownNode(ps, StepCandidate(n, m))
  {
    if m.Append? { HandleAppendKnown(ps, BecomeFollower(n, m.term, m.from), m); }
    if m.VoteRsp? { LeaderKnown(ps, n.(votes := n.votes[m.from := m.granted])); }
  }

  lemma LeadingKnown(ps: Payloads, n: Node, m: Message)
    requires Tracked(n) && KnownNode(ps, n) && KnownMsg(ps, m)
    ensures KnownNode(ps, StepLeader(n, m))
  {
    if m.Propose? { ProposalKnown(ps, n, m); }
    if m.AppendRsp? { HandleAppendRspKnown(ps, n, m); }
    if m.HeartbeatRsp? { SendAppendKnown(ps, n, m.from); }
  }

  lemma StepKnown(ps: Payloads, n: Node, m: Message)
    requires WellFormed(m) && Tracked(n) && KnownNode(ps, n) && KnownMsg(ps, m)
    ensures KnownNode(ps, Step(n, m))
  {
    var n1 := CatchUp(n, m);
    match n1.role
    case Follower => FollowerKnown(ps, n1, m);
    case Candidate => CandidateKnown(ps, n1, m);
    case Leader => LeadingKnown(ps, n1, m);
  }

  lemma TimerKnown(ps: Payloads, n: Node)
    requires KnownNode(ps, n)
    ensures KnownNode(ps, TimerFires(n))
  {
    LeaderKnown(ps, BecomeCandidate(n));
  }

  // ---------------------------------------------------------------- runs

  /** Event k hands this command to a node. */
  ghost predicate ProposedAt(es: seq<Event>, k: nat, kind: EntryType, data: seq<Byte>) {
    && k < |es| && es[k].Local? && es[k].m.Propose?
    && exists j :: 0 <= j < |es[k].m.entries| && es[k].m.entries[j].kind == kind && es[k].m.entries[j].data == data
  }

  /** What the first i events hand to the nodes. */
  ghost function Said(es: seq<Event>, i: nat): Payloads {
    iset kind: EntryType, data: seq<Byte> | (exists k: nat :: k < i && ProposedAt(es, k, kind, data)) :: (kind, data)
  }

  ghost predicate KnownCluster(ps: Payloads, c: Cluster) {
    && (forall id :: id in c.nodes ==> KnownNode(ps, c.nodes[id]))
    && (forall m :: m in c.net ==> KnownMsg(ps, m))
  }

  lemma MoreKnown(ps: Payloads, qs: Payloads, c: Cluster)
    requires ps <= qs && KnownCluster(ps, c)
    ensures KnownCluster(qs, c)
  {
    forall id | id in c.nodes ensures KnownNode(qs, c.nodes[id]) {
      var n := c.nodes[id];
      assert KnownNode(ps, n);
      forall i | 0 <= i < |n.msgs| ensures KnownMsg(qs, n.msgs[i]) { assert KnownMsg(ps, n.msgs[i]); }
    }
    forall m | m in c.net ensures KnownMsg(qs, m) { assert KnownMsg(ps, m); }
  }

  lemma EventKnown(ps: Payloads, c: Cluster, c': Cluster, e: Event)
    requires KnownCluster(ps, c) && Next(c, c', e) && (e.Local? ==> KnownMsg(ps, e.m))
    ensures KnownCluster(ps, c')
  {
    match e
    case Deliver(m) => StepKnown(ps, c.nodes[m.to], m);
    case Local(id, m) => StepKnown(ps, c.nodes[id], m);
    case Timer(id) => TimerKnown(ps, c.nodes[id]);
    case Ready(id) =>
      forall m | m in c'.net ensures KnownMsg(ps, m) {
        if m in c.nodes[id].msgs {
          assert KnownNode(ps, c.nodes[id]);
          var i :| 0 <= i < |c.nodes[id].msgs| && c.nodes[id].msgs[i] == m;
        }
      }
  }

  lemma {:induction false} RunKnown(cs: seq<Cluster>, es: seq<Event>, i: nat)
    requires IsRun(cs, es) && i < |cs|
    ensures KnownCluster(Said(es, i), cs[i])
  {
    if i > 0 {
      RunKnown(cs, es, i - 1);
      var e := es[i - 1];
      assert Next(cs[i - 1], cs[i], e);
      MoreKnown(Said(es, i - 1), Said(es, i), cs[i - 1]);
      if e.Local? && e.m.Propose? {
        forall j | 0 <= j < |e.m.entries| ensures Known(Said(es, i), e.m.entries[j]) {
          assert ProposedAt(es, i - 1, e.m.entries[j].kind, e.m.entries[j].data);
        }
      }
      EventKnown(Said(es, i), cs[i - 1], cs[i], e);
    }
  }

  // ---------------------------------------------------------------- theorems

  /** In every run, every entry of a log is a leader's no-op or was proposed before, kind and data unchanged. */
  lemma OnlyProposed(cs: seq<Cluster>, es: seq<Event>, i: nat, a: NodeId, x: nat)
    requires IsRun(cs, es) && i < |cs| && a in cs[i].nodes && x < |cs[i].nodes[a].log|
    ensures var e := cs[i].nodes[a].log[x];
            (e.kind == EntryNoop && e.data == []) || exists k: nat :: k < i && ProposedAt(es, k, e.kind, e.data)
  {
    RunKnown(cs, es, i);
    assert KnownNode(Said(es, i), cs[i].nodes[a]);
  }

  /** In every run, every command that the storage of a node is given was proposed before. */
  lemma OnlyProposedApplied(cs: seq<Cluster>, es: seq<Event>, i: nat, a: NodeId, x: nat)
    requires IsRun(cs, es) && i < |cs| && a in cs[i].nodes && a in cs[i].walked && x < |Commands(cs[i].walked[a])|
    ensures var e := Commands(cs[i].walked[a])[x];
            exists k: nat :: k < i && ProposedAt(es, k, e.kind, e.data)
  {
    RaftTheorems.CommittedStays(cs, es, i, i, a);
    var y := CommandAt(cs[i].walked[a], x);
    OnlyProposed(cs, es, i, a, y);
  }
}
