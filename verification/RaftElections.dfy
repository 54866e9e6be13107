/** When a vote is granted, and when an election succeeds. */
module RaftElections {
  import opened RaftTypes
  import opened RaftSpec
  import opened RaftHistory
  import opened RaftCluster
  import opened RaftRuns
  import opened RaftTheorems
  import opened RaftCatchUp

  // ---------------------------------------------------------------- how recent a log is

  /** Log `a` is at least as recent as log `b`. */
  predicate AsRecent(a: seq<LogEntry>, b: seq<LogEntry>) {
    UpToDate(b, |a|, LastTerm(a))
  }

  /** Of two logs one is at least as recent as the other, and this carries over to a third.  Both are as recent
      as each other exactly if they have the same length and last term. */
  lemma RecencyIsTotal(a: seq<LogEntry>, b: seq<LogEntry>, c: seq<LogEntry>)
    ensures AsRecent(a, a) && (AsRecent(a, b) || AsRecent(b, a))
    ensures AsRecent(a, b) && AsRecent(b, c) ==> AsRecent(a, c)
    ensures AsRecent(a, b) && AsRecent(b, a) <==> |a| == |b| && LastTerm(a) == LastTerm(b)
  {}

  /** A log that extends another, or whose last entry is of a later term, is at least as recent. */
  lemma LongerIsAsRecent(a: seq<LogEntry>, b: seq<LogEntry>)
    requires Sorted(a)
    ensures b <= a ==> AsRecent(a, b)
    ensures LastTerm(a) > LastTerm(b) ==> AsRecent(a, b) && !AsRecent(b, a)
  {
    if b <= a && |b| > 0 { assert b[|b| - 1] == a[|b| - 1]; }
  }

  // ---------------------------------------------------------------- one vote

  /** The node has no vote and no leader, or has voted for this candidate before. */
  predicate FreeFor(v: Node, cand: NodeId) {
    (v.vote == NoNode && v.lead == NoNode) || v.vote == cand
  }

  /** A request that is not of an earlier term is answered, and granted exactly if the node is free for the
      candidate and its log is no more recent.  A vote that was granted is the node's vote in that term, so that
      the same request is granted again. */
  lemma VoteExactly(v: Node, m: Message)
    requires m.Vote? && Tracked(v) && m.term > 0
    ensures var v' := Step(v, m);
            var yes := FreeFor(v, m.from) && UpToDate(v.log, m.lastLogIndex, m.lastLogTerm);
            && (m.term < v.term ==> v' == v)
            && (m.term >= v.term ==>
                  && v' == v.(vote := v'.vote, term := v'.term, msgs := v'.msgs)
                  && v'.vote == (if yes then m.from else v.vote) && v'.term == (if yes then m.term else v.term)
                  && v'.msgs == v.msgs + [VoteRsp(v.cfg.id, m.from, v'.term, yes)])
            && (m.term >= v.term && yes ==>
                  Step(v', m) == v'.(msgs := v'.msgs + [VoteRsp(v.cfg.id, m.from, m.term, true)]))
  {}

  // ---------------------------------------------------------------- an election

  /** What a node sends when it campaigns: to each peer a request with its last index and term. */
  lemma CampaignAsks(n: Node)
    requires n.cfg.peers != []
    ensures var c := Campaign(n);
            && c == n.(term := n.term + 1, vote := n.cfg.id, role := Candidate, lead := NoNode,
                       votes := map[n.cfg.id := true], msgs := c.msgs)
            && c.msgs == n.msgs + Added(n, c) && |Added(n, c)| == |n.cfg.peers|
            && forall j :: 0 <= j < |n.cfg.peers| ==>
                 Added(n, c)[j] == Vote(n.cfg.id, n.cfg.peers[j], n.term + 1, |n.log|, TermAt(n.log, |n.log|))
  {
    var c, ms := Campaign(n), VoteRequests(BecomeCandidate(n));
    assert Added(n, c) == ms;
    forall j | 0 <= j < |n.cfg.peers|
      ensures ms[j] == Vote(n.cfg.id, n.cfg.peers[j], n.term + 1, |n.log|, TermAt(n.log, |n.log|))
    {
      assert LastTerm(n.log) == TermAt(n.log, |n.log|);
    }
  }

  /** The voter would grant the request of this node's next campaign. */
  predicate Willing(v: Node, n: Node) {
    v.term <= n.term + 1 && FreeFor(v, n.cfg.id) && AsRecent(n.log, v.log)
  }

  /** The request to one peer is delivered, and so is its answer, if there is one. */
  function Asked(c: Node, v: Node, m: Message): Node {
    if !Tracked(v) || !WellFormed(m) then c
    else
      var answer := Added(v, Step(v, m));
      if answer == [] || !WellFormed(answer[0]) || !Tracked(c) then c else Step(c, answer[0])
  }

  /** The requests to these peers are delivered, and so are their answers. */
  ghost function Polled(ask: (Node, Node, Message) -> Node, c: Node, vs: seq<Node>, ms: seq<Message>): Node
    requires |vs| == |ms|
  {
    if vs == [] then c else ask(Polled(ask, c, vs[..|vs| - 1], ms[..|vs| - 1]), vs[|vs| - 1], ms[|vs| - 1])
  }

  ghost function Yes(n: Node, vs: seq<Node>): set<NodeId> {
    set j | 0 <= j < |vs| && Willing(vs[j], n) :: vs[j].cfg.id
  }

  /** The node leads in the next term, with an entry of its own, and tells its peers. */
  ghost predicate Won(n: Node, c: Node) {
    && c.cfg == n.cfg && c.term == n.term + 1 && c.role == Leader && c.log == n.log + [Opening(n)] && Tracked(c)
    && forall p :: p in n.cfg.peers ==> Heartbeat(n.cfg.id, p, n.term + 1, c.committed) in c.msgs
  }

  /** The node is a candidate in the next term, with the votes of itself and these. */
  predicate Stands(n: Node, c: Node, yes: set<NodeId>) {
    && c.cfg == n.cfg && c.term == n.term + 1 && c.role == Candidate && c.log == n.log && Tracked(c)
    && Granted(c.votes) == yes + {n.cfg.id}
  }

  predicate IsMajority(n: Node, yes: set<NodeId>) {
    2 * (1 + |yes|) > 1 + |n.cfg.peers|
  }

  ghost predicate Standing(n: Node, c: Node, yes: set<NodeId>) {
    n.cfg.id !in yes && if IsMajority(n, yes) then Won(n, c) else Stands(n, c, yes)
  }

  /** The entry with which a new leader opens its term. */
  function Opening(n: Node): LogEntry {
    LogEntry(|n.log| + 1, n.term + 1, EntryNoop, [])
  }

  /** An answer of a member that has not answered yet. */
  lemma HearsVote(n: Node, c: Node, yes: set<NodeId>, v: NodeId, r: Message)
    requires Standing(n, c, yes) && v !in yes && v != n.cfg.id
    requires r.VoteRsp? && r.from == v && r.term <= c.term && (r.granted ==> r.term == c.term)
    ensures Standing(n, Step(c, r), if r.granted then yes + {v} else yes)
  {
    assert |yes + {v}| == |yes| + 1;
    if c.role == Leader {
      assert Step(c, r) == c;
    } else if !Stale(c, r) {
      assert Step(c, r) == HandleVoteRsp(c, r);
      CountsVote(n, c, yes, v, r);
    }
  }

  lemma CountsVote(n: Node, c: Node, yes: set<NodeId>, v: NodeId, r: Message)
    requires Standing(n, c, yes) && c.role == Candidate && v !in yes && v != n.cfg.id && r.VoteRsp? && r.from == v
    ensures Standing(n, HandleVoteRsp(c, r), if r.granted then yes + {v} else yes)
  {
    var c1 := c.(votes := c.votes[v := r.granted]);
    if r.granted {
      VotesFor(c.votes, v, yes, n.cfg.id);
      AfterCount(n, c1, yes + {v});
    } else {
      VotesAgainst(c.votes, v, yes, n.cfg.id);
      assert Stands(n, c1, yes);
    }
  }

  lemma AfterCount(n: Node, c: Node, yes: set<NodeId>)
    requires Stands(n, c, yes) && n.cfg.id !in yes
    ensures Standing(n, if HasQuorum(c) then BecomeLeader(c) else c, yes)
  {
    assert |yes + {n.cfg.id}| == 1 + |yes|;
    NewLeader(c);
  }

  lemma VotesFor(votes: map<NodeId, bool>, v: NodeId, yes: set<NodeId>, id: NodeId)
    requires Granted(votes) == yes + {id} && v != id
    ensures Granted(votes[v := true]) == yes + {v} + {id}
  {
    assert Granted(votes[v := true]) == Granted(votes) + {v};
  }

  lemma VotesAgainst(votes: map<NodeId, bool>, v: NodeId, yes: set<NodeId>, id: NodeId)
    requires Granted(votes) == yes + {id} && v != id && v !in yes
    ensures Granted(votes[v := false]) == yes + {id}
  {}

  lemma NewLeader(c: Node)
    requires Tracked(c)
    ensures var l := BecomeLeader(c);
            && l.role == Leader && l.cfg == c.cfg && l.term == c.term && Tracked(l)
            && l.log == c.log + [LogEntry(|c.log| + 1, c.term, EntryNoop, [])]
            && l.committed == c.committed
            && forall p :: p in c.cfg.peers ==> Heartbeat(c.cfg.id, p, c.term, c.committed) in l.msgs
  {
    var l := BecomeLeader(c);
    var n := l.(msgs := c.msgs);
    BeatsAll(n);
    assert l == BroadcastHeartbeat(n);
  }

  /** A leader whose heartbeat timer fires tells each peer its commit index. */
  lemma BeatsAll(n: Node)
    ensures var n' := BroadcastHeartbeat(n);
            && n' == n.(msgs := n.msgs + Added(n, n')) && |Added(n, n')| == |n.cfg.peers|
            && (forall j :: 0 <= j < |n.cfg.peers| ==>
                  Added(n, n')[j] == Heartbeat(n.cfg.id, n.cfg.peers[j], n.term, n.committed))
            && (forall p :: p in n.cfg.peers ==> Heartbeat(n.cfg.id, p, n.term, n.committed) in n'.msgs)
            && (n.role == Leader ==> TimerFires(n) == n')
  {
    var n', beats := BroadcastHeartbeat(n), Heartbeats(n);
    assert Added(n, n') == beats;
    forall p | p in n.cfg.peers ensures Heartbeat(n.cfg.id, p, n.term, n.committed) in n'.msgs {
      var j :| 0 <= j < |n.cfg.peers| && n.cfg.peers[j] == p;
      assert n'.msgs[|n.msgs| + j] == beats[j];
    }
  }

  // ---------------------------------------------------------------- the whole poll

  /** These are different peers of the node, each with its request under way. */
  ghost predicate Pollable(n: Node, vs: seq<Node>, ms: seq<Message>) {
    && |vs| == |ms|
    && (forall j :: 0 <= j < |vs| ==> Requested(n, vs[j], ms[j]))
    && (forall i, j :: 0 <= i < j < |vs| ==> vs[i].cfg.id != vs[j].cfg.id)
  }

  ghost predicate Requested(n: Node, v: Node, m: Message) {
    && Tracked(v) && v.cfg.id != n.cfg.id
    && m == Vote(n.cfg.id, v.cfg.id, n.term + 1, |n.log|, TermAt(n.log, |n.log|))
  }

  /** Asking one more peer adds its vote if it is willing. */
  ghost predicate AddsVote(ask: (Node, Node, Message) -> Node, n: Node, c: Node, v: Node, m: Message,
                           yes: set<NodeId>) {
    Standing(n, c, yes) && Requested(n, v, m) && v.cfg.id !in yes ==>
      Standing(n, ask(c, v, m), if Willing(v, n) then yes + {v.cfg.id} else yes)
  }

  lemma AskedOnce(n: Node, c: Node, v: Node, m: Message, yes: set<NodeId>)
    requires Standing(n, c, yes) && Requested(n, v, m) && v.cfg.id !in yes
    ensures Standing(n, Asked(c, v, m), if Willing(v, n) then yes + {v.cfg.id} else yes)
  {
    VoteExactly(v, m);
    if v.term <= m.term {
      var r := Step(v, m).msgs[|v.msgs|];
      assert Added(v, Step(v, m)) == [r];
      HearsVote(n, c, yes, v.cfg.id, r);
    } else {
      assert Added(v, Step(v, m)) == [];
    }
  }

  lemma {:induction false} PolledInTurn(ask: (Node, Node, Message) -> Node, n: Node, c: Node, vs: seq<Node>,
                                        ms: seq<Message>)
    requires Standing(n, c, {}) && Pollable(n, vs, ms)
    requires forall c1, v, m, yes {:trigger AddsVote(ask, n, c1, v, m, yes)} :: AddsVote(ask, n, c1, v, m, yes)
    ensures Standing(n, Polled(ask, c, vs, ms), Yes(n, vs))
  {
    if vs == [] {
      assert Yes(n, vs) == {};
    } else {
      var k := |vs| - 1;
      LastPollable(n, vs, ms);
      PolledInTurn(ask, n, c, vs[..k], ms[..k]);
      assert AddsVote(ask, n, Polled(ask, c, vs[..k], ms[..k]), vs[k], ms[k], Yes(n, vs[..k]));
    }
  }

  lemma LastPollable(n: Node, vs: seq<Node>, ms: seq<Message>)
    requires Pollable(n, vs, ms) && vs != []
    ensures var k := |vs| - 1;
            && Pollable(n, vs[..k], ms[..k]) && Requested(n, vs[k], ms[k]) && vs[k].cfg.id !in Yes(n, vs[..k])
            && Yes(n, vs) == if Willing(vs[k], n) then Yes(n, vs[..k]) + {vs[k].cfg.id} else Yes(n, vs[..k])
  {
    var k := |vs| - 1;
    forall j | 0 <= j < k ensures Requested(n, vs[..k][j], ms[..k][j]) { assert Requested(n, vs[j], ms[j]); }
    forall i, j | 0 <= i < j < k ensures vs[..k][i].cfg.id != vs[..k][j].cfg.id {
      assert vs[i].cfg.id != vs[j].cfg.id;
    }
  }

  lemma PolledAll(n: Node, c: Node, vs: seq<Node>, ms: seq<Message>)
    requires Standing(n, c, {}) && Pollable(n, vs, ms)
    ensures Standing(n, Polled(Asked, c, vs, ms), Yes(n, vs))
  {
    forall c1, v, m, yes {:trigger AddsVote(Asked, n, c1, v, m, yes)} ensures AddsVote(Asked, n, c1, v, m, yes) {
      if Standing(n, c1, yes) && Requested(n, v, m) && v.cfg.id !in yes { AskedOnce(n, c1, v, m, yes); }
    }
    PolledInTurn(Asked, n, c, vs, ms);
  }

  /** In every state of every run: if a node that does not lead campaigns, and its requests to some peers and
      their answers arrive, it leads exactly if it and those of them that are willing are a majority. */
  lemma ElectionExactly(cs: seq<Cluster>, es: seq<Event>, i: nat, a: NodeId, ps: seq<NodeId>)
    returns (sent: seq<Message>)
    requires IsRun(cs, es) && i < |cs| && a in cs[i].nodes && cs[i].nodes[a].role != Leader
    requires forall j :: 0 <= j < |ps| ==> ps[j] in cs[i].nodes && ps[j] != a
    requires forall j, k :: 0 <= j < k < |ps| ==> ps[j] != ps[k]
    ensures var n := cs[i].nodes[a];
            var c := TimerFires(n);
            && |sent| == |ps| && (forall j :: 0 <= j < |ps| ==> sent[j] in Added(n, c) && sent[j].to == ps[j])
            && var vs := StatesOf(cs[i], ps);
               var c' := Polled(Asked, c, vs, sent);
               && (c'.role == Leader <==> 2 * (1 + |Yes(n, vs)|) > |cs[i].nodes|)
               && (c'.role == Leader ==> Won(n, c'))
  {
    var hs := RunOK(cs, es);
    assert ClusterOK(cs[i], hs[i]);
    var n, vs := cs[i].nodes[a], StatesOf(cs[i], ps);
    Members(cs[i], hs[i], a);
    Starts(n);
    sent := RequestsTo(cs[i], hs[i], a, ps);
    PolledAll(n, TimerFires(n), vs, sent);
    assert |cs[i].nodes| == |cs[i].nodes.Keys|;
  }

  lemma Members(c: Cluster, h: Hist, a: NodeId)
    requires ClusterOK(c, h) && a in c.nodes
    ensures var n := c.nodes[a];
            && n.cfg.id == a && Tracked(n) && 1 + |n.cfg.peers| == |c.nodes.Keys|
            && (forall p :: p in c.nodes && p != a ==> p in n.cfg.peers) && a !in n.cfg.peers
  {
    Host(c, h, a);
    var n := c.nodes[a];
    forall p | p in c.nodes && p != a ensures p in n.cfg.peers { assert p in PeerSet(n.cfg); }
    assert a !in PeerSet(n.cfg);
  }

  lemma Starts(n: Node)
    requires Tracked(n) && n.role != Leader
    ensures Standing(n, TimerFires(n), {})
  {
    if n.cfg.peers == [] {
      NewLeader(BecomeCandidate(n));
    } else {
      CampaignAsks(n);
      assert Granted(map[n.cfg.id := true]) == {} + {n.cfg.id};
    }
  }

  lemma RequestsTo(c: Cluster, h: Hist, a: NodeId, ps: seq<NodeId>) returns (sent: seq<Message>)
    requires ClusterOK(c, h) && a in c.nodes && c.nodes[a].role != Leader
    requires forall j :: 0 <= j < |ps| ==> ps[j] in c.nodes && ps[j] != a
    requires forall j, k :: 0 <= j < k < |ps| ==> ps[j] != ps[k]
    ensures Pollable(c.nodes[a], StatesOf(c, ps), sent)
    ensures |sent| == |ps|
    ensures forall j :: 0 <= j < |ps| ==> sent[j] in Added(c.nodes[a], TimerFires(c.nodes[a])) && sent[j].to == ps[j]
  {
    var n, vs := c.nodes[a], StatesOf(c, ps);
    Members(c, h, a);
    sent := seq(|ps|, j requires 0 <= j < |ps| => Vote(a, ps[j], n.term + 1, |n.log|, TermAt(n.log, |n.log|)));
    forall j | 0 <= j < |ps|
      ensures Requested(n, vs[j], sent[j]) && vs[j].cfg.id == ps[j] && sent[j] in Added(n, TimerFires(n))
    {
      Members(c, h, ps[j]);
      CampaignAsks(n);
      var k :| 0 <= k < |n.cfg.peers| && n.cfg.peers[k] == ps[j];
      assert Added(n, Campaign(n))[k] == sent[j];
    }
  }

  /** In every run a node that is free votes for a candidate of no earlier term whose log extends its own. */
  lemma ExtensionGetsVote(cs: seq<Cluster>, es: seq<Event>, i: nat, a: NodeId, v: NodeId)
    requires IsRun(cs, es) && i < |cs| && a in cs[i].nodes && v in cs[i].nodes
    requires cs[i].nodes[v].log <= cs[i].nodes[a].log && cs[i].nodes[v].term <= cs[i].nodes[a].term + 1
    requires FreeFor(cs[i].nodes[v], cs[i].nodes[a].cfg.id)
    ensures Willing(cs[i].nodes[v], cs[i].nodes[a])
  {
    var hs := RunOK(cs, es);
    assert ClusterOK(cs[i], hs[i]);
    LogFacts(cs[i], hs[i], a);
    LongerIsAsRecent(cs[i].nodes[a].log, cs[i].nodes[v].log);
  }
}
