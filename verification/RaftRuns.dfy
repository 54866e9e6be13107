/** The invariant holds along every run, and what a history records really happened in the run. */
module RaftRuns {
  import opened RaftTypes
  import opened RaftSpec
  import opened RaftHistory
  import opened RaftFrame
  import opened RaftRecord
  import opened RaftReplication
  import opened RaftCompleteness
  import opened RaftStep
  import opened RaftCluster

  ghost predicate HostOK(h: Hist, id: NodeId, n: Node, walked: seq<LogEntry>) {
    && n.cfg.id == id
    && NodeOK(h, n)
    && walked == n.log[..n.applied]
  }

  /** The nodes, with what they walked, that agree with a history. */
  ghost function Hosts(h: Hist, id: NodeId): iset<(Node, seq<LogEntry>)> {
    iset x: (Node, seq<LogEntry>) | HostOK(h, id, x.0, x.1)
  }

  /** The messages that agree with a history. */
  ghost function Mail(h: Hist): iset<Message> {
    iset m: Message | MsgOK(h, m)
  }

  ghost predicate ClusterOK(c: Cluster, h: Hist) {
    && HistOK(h)
    && h.ids == c.nodes.Keys == c.walked.Keys
    && (forall id {:trigger Hosts(h, id)} :: id in c.nodes ==> (c.nodes[id], c.walked[id]) in Hosts(h, id))
    && (forall m {:trigger m in Mail(h)} :: m in c.net ==> m in Mail(h))
  }

  lemma Host(c: Cluster, h: Hist, id: NodeId)
    requires ClusterOK(c, h) && id in c.nodes
    ensures id in c.walked && HostOK(h, id, c.nodes[id], c.walked[id])
  {
    assert (c.nodes[id], c.walked[id]) in Hosts(h, id);
  }

  ghost function StartHist(c: Cluster): Hist {
    Hist(c.nodes.Keys, map[], map id | id in c.nodes :: NodeRec(map[], map[], 0))
  }

  lemma InitOK(c: Cluster)
    requires Init(c)
    ensures ClusterOK(c, StartHist(c))
  {
    var h := StartHist(c);
    forall id | id in c.nodes ensures (c.nodes[id], c.walked[id]) in Hosts(h, id) {
      NewNodeOK(h, c.nodes[id].cfg);
    }
    StartHistOK(c);
  }

  lemma StartHistOK(c: Cluster)
    requires NoNode !in c.nodes
    ensures HistOK(StartHist(c))
  {}

  lemma NewNodeOK(h: Hist, cfg: Config)
    requires Configured(h.ids, cfg) && h.leaders == map[]
    requires cfg.id in h.recs && h.recs[cfg.id] == NodeRec(map[], map[], 0)
    ensures NodeOK(h, NewNode(cfg))
  {}

  function Actor(e: Event): NodeId {
    match e
    case Deliver(m) => m.to
    case Local(id, _) => id
    case Timer(id) => id
    case Ready(id) => id
  }

  /** The commit index may have been raised by a heartbeat. */
  predicate Unchecked(e: Event) {
    e.Deliver? && e.m.Heartbeat?
  }

  /** What one event does: only the acting node changes, and as `Steps` says. */
  ghost predicate Advances(c: Cluster, h: Hist, c': Cluster, h': Hist, e: Event) {
    var a := Actor(e);
    && Grows(h, h', a)
    && a in c.nodes && c'.nodes.Keys == c.nodes.Keys && a in h.recs
    && (forall id :: id in c.nodes && id != a ==> c'.nodes[id] == c.nodes[id])
    && ActsOnlyIn(h, h', a, c'.nodes[a].term)
    && Settles(c.nodes[a], c'.nodes[a])
    && (c'.nodes[a].committed > c.nodes[a].committed && !Unchecked(e) ==>
          h'.recs[a].clean == c'.nodes[a].committed)
  }

  /** Terms and commit indices never fall, and committed entries stay. */
  ghost predicate Settles(n: Node, n': Node) {
    && n'.term >= n.term
    && n.committed <= n'.committed
    && n.committed <= |n.log| && n.committed <= |n'.log| && n'.log[..n.committed] == n.log[..n.committed]
  }

  lemma AppendIsWellFormed(h: Hist, m: Message)
    requires HistOK(h) && MsgOK(h, m)
    ensures WellFormed(m)
  {
    if m.Append? {
      assert LeaderRecOK(h, m.term);
      forall i | 0 <= i < |m.entries| ensures m.entries[i].index >= 1 {
        assert m.entries[i] == h.leaders[m.term].log[m.logIndex + i];
      }
    }
  }

  /** What was walked stays the applied part of the log. */
  lemma WalkedStays(n: Node, n': Node)
    requires n.applied <= n.committed && Stable(n, n')
    ensures n'.applied <= |n'.log| && n'.log[..n'.applied] == n.log[..n.applied]
  {
    TakeOfPrefix(n.log[..n.committed], n.log, n.applied);
    TakeOfPrefix(n.log[..n.committed], n'.log, n.applied);
  }

  lemma HostFrame(h: Hist, h': Hist, a: NodeId, id: NodeId, n: Node, walked: seq<LogEntry>)
    requires Grows(h, h', a) && id != a && HostOK(h, id, n, walked)
    ensures HostOK(h', id, n, walked)
  {
    NodeFrame(h, h', a, n);
  }

  lemma PutHost(c: Cluster, h: Hist, id: NodeId, n': Node, h': Hist, s: NodeId)
    requires ClusterOK(c, h) && id in c.nodes && Grows(h, h', id) && NodeOK(h', n') && Stable(c.nodes[id], n')
    requires s in c.nodes
    ensures (Put(c, id, n').nodes[s], c.walked[s]) in Hosts(h', s)
  {
    Host(c, h, s);
    if s != id {
      HostFrame(h, h', id, s, c.nodes[s], c.walked[s]);
    } else {
      WalkedStays(c.nodes[id], n');
    }
  }

  /** A step of one node, seen from the cluster. */
  lemma PutOK(c: Cluster, h: Hist, id: NodeId, n': Node, h': Hist)
    requires ClusterOK(c, h) && id in c.nodes && Grows(h, h', id) && Good(h', n') && Stable(c.nodes[id], n')
    ensures ClusterOK(Put(c, id, n'), h')
  {
    var c' := Put(c, id, n');
    forall s {:trigger Hosts(h', s)} | s in c'.nodes ensures (c'.nodes[s], c'.walked[s]) in Hosts(h', s) {
      PutHost(c, h, id, n', h', s);
    }
    forall m {:trigger m in Mail(h')} | m in c'.net ensures m in Mail(h') {
      assert m in Mail(h);
      MsgFrame(h, h', id, m);
    }
  }

  lemma ReadyHost(h: Hist, id: NodeId, n: Node, walked: seq<LogEntry>)
    requires HistOK(h) && HostOK(h, id, n, walked)
    ensures HostOK(h, id, TakeReady(n), walked + ReadyEntries(n))
    ensures Settles(n, TakeReady(n))
  {
    TakeReadyOK(h, n);
    assert n.log[..n.applied] + n.log[n.applied..n.committed] == n.log[..n.committed];
  }

  lemma ReadyHosts(c: Cluster, h: Hist, id: NodeId, c': Cluster, s: NodeId)
    requires ClusterOK(c, h) && Next(c, c', Ready(id)) && s in c.nodes
    ensures (c'.nodes[s], c'.walked[s]) in Hosts(h, s)
  {
    Host(c, h, s);
    if s == id { ReadyHost(h, id, c.nodes[id], c.walked[id]); }
  }

  lemma ReadyNet(c: Cluster, h: Hist, id: NodeId, m: Message)
    requires ClusterOK(c, h) && id in c.nodes && m in c.nodes[id].msgs
    ensures MsgOK(h, m)
  {
    Host(c, h, id);
    assert MsgsOK(h, c.nodes[id].msgs);
  }

  lemma ReadyOK(c: Cluster, h: Hist, id: NodeId, c': Cluster)
    requires ClusterOK(c, h) && Next(c, c', Ready(id))
    ensures ClusterOK(c', h)
  {
    forall s {:trigger Hosts(h, s)} | s in c'.nodes ensures (c'.nodes[s], c'.walked[s]) in Hosts(h, s) {
      ReadyHosts(c, h, id, c', s);
    }
    forall m {:trigger m in Mail(h)} | m in c'.net ensures m in Mail(h) {
      if m in c.nodes[id].msgs { ReadyNet(c, h, id, m); }
    }
  }

  lemma ReadyAdvances(c: Cluster, h: Hist, id: NodeId, c': Cluster)
    requires ClusterOK(c, h) && Next(c, c', Ready(id))
    ensures Advances(c, h, c', h, Ready(id))
  {
    Host(c, h, id);
    ReadyHost(h, id, c.nodes[id], c.walked[id]);
    GrowsRefl(h, id);
  }

  lemma NodeEventOK(c: Cluster, h: Hist, e: Event) returns (h': Hist, n': Node)
    requires ClusterOK(c, h) && !e.Ready? && Actor(e) in c.nodes
    requires e.Deliver? ==> e.m in c.net
    requires e.Local? ==> IsLocal(e.m)
    ensures Steps(h, c.nodes[Actor(e)], h', n', !Unchecked(e))
    ensures e.Deliver? ==> WellFormed(e.m) && Tracked(c.nodes[e.m.to]) && n' == Step(c.nodes[e.m.to], e.m)
    ensures e.Local? ==> Tracked(c.nodes[e.id]) && n' == Step(c.nodes[e.id], e.m)
    ensures e.Timer? ==> n' == TimerFires(c.nodes[e.id])
  {
    var n := c.nodes[Actor(e)];
    Host(c, h, Actor(e));
    match e
    case Deliver(m) =>
      assert m in Mail(h);
      AppendIsWellFormed(h, m);
      n' := Step(n, m);
      h' := StepOK(h, n, m);
    case Local(id, m) =>
      n' := Step(n, m);
      h' := StepOK(h, n, m);
    case Timer(id) =>
      n' := TimerFires(n);
      h' := TimerOK(h, n);
  }

  lemma PutAdvances(c: Cluster, h: Hist, e: Event, n': Node, h': Hist)
    requires Actor(e) in c.nodes && c.nodes[Actor(e)].cfg.id == Actor(e)
    requires Moves(h, c.nodes[Actor(e)], h', n', !Unchecked(e))
    ensures Advances(c, h, Put(c, Actor(e), n'), h', e)
  {}

  lemma NextOK(c: Cluster, h: Hist, c': Cluster, e: Event) returns (h': Hist)
    requires ClusterOK(c, h) && Next(c, c', e)
    ensures ClusterOK(c', h') && Advances(c, h, c', h', e)
  {
    if e.Ready? {
      h' := h;
      ReadyOK(c, h, e.id, c');
      ReadyAdvances(c, h, e.id, c');
    } else {
      var n';
      h', n' := NodeEventOK(c, h, e);
      IdOf(c, h, Actor(e));
      PutOK(c, h, Actor(e), n', h');
      PutAdvances(c, h, e, n', h');
    }
  }

  lemma IdOf(c: Cluster, h: Hist, id: NodeId)
    requires ClusterOK(c, h) && id in c.nodes
    ensures c.nodes[id].cfg.id == id
  {
    Host(c, h, id);
  }

  ghost predicate AllOK(cs: seq<Cluster>, hs: seq<Hist>) {
    |cs| == |hs|
    && forall i {:trigger ClusterOK(cs[i], hs[i])} :: 0 <= i < |cs| ==> ClusterOK(cs[i], hs[i])
  }

  ghost predicate AllAdvance(cs: seq<Cluster>, es: seq<Event>, hs: seq<Hist>) {
    |cs| == |es| + 1 == |hs|
    && forall i: nat {:trigger es[i]} :: i < |es| ==> Advances(cs[i], hs[i], cs[i + 1], hs[i + 1], es[i])
  }

  ghost predicate Fresh(c: Cluster, h: Hist) {
    && h.leaders == map[]
    && forall id :: id in c.nodes ==>
         id in h.recs && h.recs[id] == NodeRec(map[], map[], 0) && c.nodes[id].committed == 0
  }

  /** Histories for the states of a run. */
  ghost predicate Explains(cs: seq<Cluster>, es: seq<Event>, hs: seq<Hist>) {
    |cs| > 0 && AllOK(cs, hs) && AllAdvance(cs, es, hs) && Fresh(cs[0], hs[0])
  }

  lemma {:induction false} RunOK(cs: seq<Cluster>, es: seq<Event>) returns (hs: seq<Hist>)
    requires IsRun(cs, es)
    ensures Explains(cs, es, hs)
    decreases |es|
  {
    if es == [] {
      InitOK(cs[0]);
      hs := [StartHist(cs[0])];
    } else {
      var k := |es| - 1;
      var cs1, es1 := cs[..k + 1], es[..k];
      forall i | 0 <= i < |es1| ensures Next(cs1[i], cs1[i + 1], es1[i]) {
        assert Next(cs[i], cs[i + 1], es[i]);
      }
      var hs1 := RunOK(cs1, es1);
      assert ClusterOK(cs1[k], hs1[k]);
      assert Next(cs[k], cs[k + 1], es[k]);
      var h' := NextOK(cs[k], hs1[k], cs[k + 1], es[k]);
      hs := hs1 + [h'];
      ExtendOK(cs, hs1, h');
      ExtendAdvance(cs, es, hs1, h');
    }
  }

  lemma ExtendOK(cs: seq<Cluster>, hs: seq<Hist>, h': Hist)
    requires |cs| > 0 && AllOK(cs[..|cs| - 1], hs) && ClusterOK(cs[|cs| - 1], h')
    ensures AllOK(cs, hs + [h'])
  {
    var hs' := hs + [h'];
    forall i | 0 <= i < |cs| ensures ClusterOK(cs[i], hs'[i]) {
      if i < |cs| - 1 { assert ClusterOK(cs[..|cs| - 1][i], hs[i]); }
    }
  }

  lemma ExtendAdvance(cs: seq<Cluster>, es: seq<Event>, hs: seq<Hist>, h': Hist)
    requires |es| > 0 && |cs| == |es| + 1
    requires AllAdvance(cs[..|es|], es[..|es| - 1], hs)
    requires Advances(cs[|es| - 1], hs[|es| - 1], cs[|es|], h', es[|es| - 1])
    ensures AllAdvance(cs, es, hs + [h'])
  {
    var k, hs' := |es| - 1, hs + [h'];
    forall i: nat | i < |es| ensures Advances(cs[i], hs'[i], cs[i + 1], hs'[i + 1], es[i]) {
      if i < k {
        assert es[..k][i] == es[i];
        assert cs[..|es|][i] == cs[i] && cs[..|es|][i + 1] == cs[i + 1];
      }
    }
  }

  // ---------------------------------------------------------------- from one state to a later one

  ghost predicate Later(h: Hist, h': Hist) {
    && h'.ids == h.ids && h'.recs.Keys == h.recs.Keys
    && LeadersGrow(h.leaders, h'.leaders)
    && forall s :: s in h.recs ==> RecGrows(h.recs[s], h'.recs[s])
  }

  lemma LaterTrans(h: Hist, h1: Hist, h2: Hist)
    requires Later(h, h1) && Later(h1, h2)
    ensures Later(h, h2)
  {
    forall t | t in h.leaders ensures t in h2.leaders && LeaderGrows(h.leaders[t], h2.leaders[t]) {
      assert LeaderGrows(h.leaders[t], h1.leaders[t]) && LeaderGrows(h1.leaders[t], h2.leaders[t]);
    }
    forall s | s in h.recs ensures RecGrows(h.recs[s], h2.recs[s]) {
      assert RecGrows(h.recs[s], h1.recs[s]) && RecGrows(h1.recs[s], h2.recs[s]);
    }
  }

  lemma GrowsIsLater(h: Hist, h': Hist, a: NodeId)
    requires Grows(h, h', a)
    ensures Later(h, h')
  {}

  lemma {:induction false} HistLater(cs: seq<Cluster>, es: seq<Event>, hs: seq<Hist>, i: nat, j: nat)
    requires Explains(cs, es, hs) && i <= j < |cs|
    ensures Later(hs[i], hs[j])
    decreases j
  {
    if i < j {
      HistLater(cs, es, hs, i, j - 1);
      var e := es[j - 1];
      GrowsIsLater(hs[j - 1], hs[j], Actor(e));
      LaterTrans(hs[i], hs[j - 1], hs[j]);
    }
  }

  lemma SettlesTrans(n: Node, n1: Node, n2: Node)
    requires Settles(n, n1) && Settles(n1, n2)
    ensures Settles(n, n2)
  {
    TakeOfPrefix(n1.log[..n1.committed], n1.log, n.committed);
    TakeOfPrefix(n1.log[..n1.committed], n2.log, n.committed);
  }

  lemma {:induction false} NodeSettles(cs: seq<Cluster>, es: seq<Event>, hs: seq<Hist>, i: nat, j: nat, id: NodeId)
    requires Explains(cs, es, hs) && i <= j < |cs| && id in cs[i].nodes
    ensures id in cs[j].nodes && Settles(cs[i].nodes[id], cs[j].nodes[id])
    decreases j
  {
    if i == j {
      Host(cs[i], hs[i], id);
    } else {
      NodeSettles(cs, es, hs, i, j - 1, id);
      var e := es[j - 1];
      Host(cs[j - 1], hs[j - 1], id);
      assert Settles(cs[j - 1].nodes[id], cs[j].nodes[id]);
      SettlesTrans(cs[i].nodes[id], cs[j - 1].nodes[id], cs[j].nodes[id]);
    }
  }

  /** The members never change. */
  lemma {:induction false} SameMembers(cs: seq<Cluster>, es: seq<Event>, hs: seq<Hist>, i: nat)
    requires Explains(cs, es, hs) && i < |cs|
    ensures cs[i].nodes.Keys == cs[0].nodes.Keys
  {
    if i > 0 {
      SameMembers(cs, es, hs, i - 1);
      var e := es[i - 1];
    }
  }

  // ---------------------------------------------------------------- what the history records happened

  /** A member that is recorded to have stored k entries in term t did so at some state of the run. */
  lemma {:induction false} StoredHappened(cs: seq<Cluster>, es: seq<Event>, hs: seq<Hist>, i: nat, p: NodeId, t: nat)
    returns (j: nat)
    requires Explains(cs, es, hs) && i < |cs| && p in hs[i].recs && t in hs[i].recs[p].stored
    ensures j <= i && p in hs[j].recs && t in hs[j].recs[p].stored
    ensures hs[j].recs[p].stored[t] == hs[i].recs[p].stored[t]
    ensures p in cs[j].nodes && cs[j].nodes[p].term == t
    decreases i
  {
    assert ClusterOK(cs[i], hs[i]);
    if i == 0 {
      assert false;
    } else {
      var e := es[i - 1];
      if t in hs[i - 1].recs[p].stored && hs[i - 1].recs[p].stored[t] == hs[i].recs[p].stored[t] {
        j := StoredHappened(cs, es, hs, i - 1, p, t);
      } else {
        j := i;
      }
    }
  }

  /** The leader record of a term shows a node that led in that term at some state of the run. */
  lemma {:induction false} LeaderHappened(cs: seq<Cluster>, es: seq<Event>, hs: seq<Hist>, i: nat, t: nat)
    returns (j: nat)
    requires Explains(cs, es, hs) && i < |cs| && t in hs[i].leaders
    ensures var id := hs[i].leaders[t].id;
            && j <= i && id in cs[j].nodes && cs[j].nodes[id].role == Leader && cs[j].nodes[id].term == t
            && cs[j].nodes[id].log == hs[i].leaders[t].log
            && cs[j].nodes[id].committed >= hs[i].leaders[t].commit
    decreases i
  {
    assert ClusterOK(cs[i], hs[i]);
    if i == 0 {
      assert false;
    } else {
      var e := es[i - 1];
      if t in hs[i - 1].leaders && hs[i - 1].leaders[t] == hs[i].leaders[t] {
        j := LeaderHappened(cs, es, hs, i - 1, t);
      } else {
        j := i;
        LeaderActed(cs[i - 1], hs[i - 1], cs[i], hs[i], e, t);
      }
    }
  }

  /** A leader record that changes is that of the node that acts. */
  lemma LeaderActed(c: Cluster, h: Hist, c': Cluster, h': Hist, e: Event, t: nat)
    requires Advances(c, h, c', h', e) && ClusterOK(c', h') && t in h'.leaders
    requires !(t in h.leaders && h.leaders[t] == h'.leaders[t])
    ensures var id := h'.leaders[t].id;
            && id in c'.nodes && c'.nodes[id].role == Leader && c'.nodes[id].term == t
            && c'.nodes[id].log == h'.leaders[t].log && c'.nodes[id].committed >= h'.leaders[t].commit
  {
    Host(c', h', Actor(e));
  }
}
