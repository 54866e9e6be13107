/**
 What holds in every run of a cluster of any size.  The statements mention only the states and events
 of the run; the histories appear in the proofs alone.
 */
module RaftTheorems {
  import opened RaftTypes
  import opened RaftSpec
  import opened RaftHistory
  import opened RaftFrame
  import opened RaftCompleteness
  import opened RaftCluster
  import opened RaftRuns
  import opened RaftStep

  function Max(i: nat, j: nat): nat {
    if i < j then j else i
  }

  // ---------------------------------------------------------------- what one state gives

  lemma LeaderFacts(c: Cluster, h: Hist, id: NodeId)
    requires ClusterOK(c, h) && id in c.nodes && c.nodes[id].role == Leader
    ensures var n := c.nodes[id];
            && n.term in h.leaders && h.leaders[n.term].id == id && h.leaders[n.term].log == n.log
            && n.committed <= |n.log| && CommitKnown(h.leaders, n.term, n.committed)
  {
    Host(c, h, id);
  }

  lemma LogFacts(c: Cluster, h: Hist, id: NodeId)
    requires ClusterOK(c, h) && id in c.nodes
    ensures id in c.walked
    ensures var n := c.nodes[id];
            && LogOK(h.leaders, n.log) && n.applied <= n.committed <= |n.log|
            && c.walked[id] == n.log[..n.applied]
  {
    Host(c, h, id);
  }

  lemma CleanFacts(c: Cluster, h: Hist, id: NodeId)
    requires ClusterOK(c, h) && id in c.nodes
    ensures id in h.recs && CleanUpTo(h.leaders, c.nodes[id].log, h.recs[id].clean)
    ensures h.recs[id].clean <= c.nodes[id].committed
  {
    Host(c, h, id);
  }

  lemma StoredFacts(c: Cluster, h: Hist, id: NodeId, t: nat)
    requires ClusterOK(c, h) && id in c.nodes && id in h.recs && t in h.recs[id].stored && c.nodes[id].term == t
    ensures t in h.leaders && c.nodes[id].log <= h.leaders[t].log && |c.nodes[id].log| == h.recs[id].stored[t]
  {
    Host(c, h, id);
  }

  /** The members never change. */
  lemma MembersStay(cs: seq<Cluster>, es: seq<Event>, i: nat, j: nat)
    requires IsRun(cs, es) && i < |cs| && j < |cs|
    ensures cs[i].nodes.Keys == cs[j].nodes.Keys
  {
    var hs := RunOK(cs, es);
    SameMembers(cs, es, hs, i);
    SameMembers(cs, es, hs, j);
  }

  // ---------------------------------------------------------------- election safety

  /** At most one node ever leads in a term. */
  lemma ElectionSafety(cs: seq<Cluster>, es: seq<Event>, i: nat, j: nat, a: NodeId, b: NodeId)
    requires IsRun(cs, es) && i < |cs| && j < |cs| && a in cs[i].nodes && b in cs[j].nodes
    requires cs[i].nodes[a].role == Leader && cs[j].nodes[b].role == Leader
    requires cs[i].nodes[a].term == cs[j].nodes[b].term
    ensures a == b
  {
    var hs := RunOK(cs, es);
    var t, k := cs[i].nodes[a].term, Max(i, j);
    LeaderFacts(cs[i], hs[i], a);
    LeaderFacts(cs[j], hs[j], b);
    HistLater(cs, es, hs, i, k);
    HistLater(cs, es, hs, j, k);
    assert LeaderGrows(hs[i].leaders[t], hs[k].leaders[t]);
    assert LeaderGrows(hs[j].leaders[t], hs[k].leaders[t]);
  }

  // ---------------------------------------------------------------- log matching

  /** Entries with the same index and term, on any nodes at any times, end identical logs. */
  lemma LogsMatch(cs: seq<Cluster>, es: seq<Event>, i: nat, j: nat, a: NodeId, b: NodeId, x: nat)
    requires IsRun(cs, es) && i < |cs| && j < |cs| && a in cs[i].nodes && b in cs[j].nodes
    requires x < |cs[i].nodes[a].log| && x < |cs[j].nodes[b].log|
    requires cs[i].nodes[a].log[x].term == cs[j].nodes[b].log[x].term
    ensures cs[i].nodes[a].log[..x + 1] == cs[j].nodes[b].log[..x + 1]
  {
    var hs := RunOK(cs, es);
    var k := Max(i, j);
    LogFacts(cs[i], hs[i], a);
    LogFacts(cs[j], hs[j], b);
    HistLater(cs, es, hs, i, k);
    HistLater(cs, es, hs, j, k);
    LogOKGrows(hs[i].leaders, hs[k].leaders, cs[i].nodes[a].log);
    LogOKGrows(hs[j].leaders, hs[k].leaders, cs[j].nodes[b].log);
    LogMatching(hs[k].leaders, cs[i].nodes[a].log, cs[j].nodes[b].log, x);
  }

  // ---------------------------------------------------------------- leader completeness

  /** What a leader has committed at any time is in the log of every leader of a later term. */
  lemma LeadersComplete(cs: seq<Cluster>, es: seq<Event>, i: nat, j: nat, a: NodeId, b: NodeId)
    requires IsRun(cs, es) && i < |cs| && j < |cs| && a in cs[i].nodes && b in cs[j].nodes
    requires cs[i].nodes[a].role == Leader && cs[j].nodes[b].role == Leader
    requires cs[i].nodes[a].term < cs[j].nodes[b].term
    ensures cs[i].nodes[a].committed <= |cs[i].nodes[a].log|
    ensures cs[i].nodes[a].log[..cs[i].nodes[a].committed] <= cs[j].nodes[b].log
  {
    var hs := RunOK(cs, es);
    var n, m, k := cs[i].nodes[a], cs[j].nodes[b], Max(i, j);
    LeaderFacts(cs[i], hs[i], a);
    LeaderFacts(cs[j], hs[j], b);
    HistLater(cs, es, hs, i, k);
    HistLater(cs, es, hs, j, k);
    CommitKnownGrows(hs[i].leaders, hs[k].leaders, n.term, n.committed, n.term);
    assert LeaderGrows(hs[i].leaders[n.term], hs[k].leaders[n.term]);
    assert LeaderGrows(hs[j].leaders[m.term], hs[k].leaders[m.term]);
    assert ClusterOK(cs[k], hs[k]);
    assert ClusterOK(cs[j], hs[j]);
    BaseBelow(hs[j], m.term);
    CommittedInBase(hs[k], n.term, m.term, n.committed, n.log, m.log);
  }

  lemma CommittedInBase(h: Hist, t: nat, u: nat, c: nat, log: seq<LogEntry>, later: seq<LogEntry>)
    requires HistOK(h) && t in h.leaders && u in h.leaders && t < u && CommitKnown(h.leaders, t, c)
    requires c <= |log| && log <= h.leaders[t].log && h.leaders[u].base <= later
    ensures log[..c] <= later
  {
    if c > 0 {
      var w :| w in h.leaders && w <= t && c <= h.leaders[w].commit;
      CommitInLater(h, w, u, c);
      if w < t { CommitInLater(h, w, t, c); }
      TakeOfPrefix(log, h.leaders[t].log, c);
      BaseBelow(h, u);
      TakeOfPrefix(h.leaders[u].base, h.leaders[u].log, c);
      TakeOfPrefix(h.leaders[u].base, later, c);
    }
  }

  /** Of two leaders of one term, which are one node, the later log extends the earlier. */
  lemma LeaderAppendOnly(cs: seq<Cluster>, es: seq<Event>, i: nat, j: nat, a: NodeId)
    requires IsRun(cs, es) && i <= j < |cs| && a in cs[i].nodes && a in cs[j].nodes
    requires cs[i].nodes[a].role == Leader && cs[j].nodes[a].role == Leader
    requires cs[i].nodes[a].term == cs[j].nodes[a].term
    ensures cs[i].nodes[a].log <= cs[j].nodes[a].log
  {
    var hs := RunOK(cs, es);
    var t := cs[i].nodes[a].term;
    LeaderFacts(cs[i], hs[i], a);
    LeaderFacts(cs[j], hs[j], a);
    HistLater(cs, es, hs, i, j);
    assert LeaderGrows(hs[i].leaders[t], hs[j].leaders[t]);
  }

  // ---------------------------------------------------------------- match indices

  lemma TrackFacts(c: Cluster, h: Hist, l: NodeId, p: NodeId)
    requires ClusterOK(c, h) && l in c.nodes && c.nodes[l].role == Leader && p in c.nodes && p != l
    ensures p in c.nodes[l].progress && p in h.recs
    ensures var n := c.nodes[l];
            && n.term in h.leaders && h.leaders[n.term].log == n.log
            && TrackOK(h, l, n.term, |n.log|, n.committed, p, n.progress[p])
  {
    Host(c, h, l);
    var n := c.nodes[l];
    assert TracksHold(h, l, n.term, |n.log|, n.committed, n.progress);
  }

  /** While a node leads, the next index of every peer is the one after its match index or, as long as that is 0,
      the index of the leader's no-op: all entries from there on are of its own term.  A match index above
      its commit index names a prefix of its log that the peer stored at some time of this term, and keeps for
      as long as it is in this term. */
  lemma MatchIndexSound(cs: seq<Cluster>, es: seq<Event>, i: nat, l: NodeId, p: NodeId)
    requires IsRun(cs, es) && i < |cs| && l in cs[i].nodes && p in cs[i].nodes && p != l
    requires cs[i].nodes[l].role == Leader
    ensures p in cs[i].nodes[l].progress
    ensures var n := cs[i].nodes[l]; var track := n.progress[p];
            && 1 <= track.next <= |n.log| + 1
            && (forall x :: track.next <= x <= |n.log| ==> TermAt(n.log, x) == n.term)
            && (track.matched > 0 ==> track.next == track.matched + 1)
            && (track.matched == 0 ==> track.next <= |n.log| && TermAt(n.log, track.next - 1) != n.term)
            && track.matched <= |n.log|
            && (track.matched > n.committed ==>
                  && (exists j :: 0 <= j <= i && p in cs[j].nodes && cs[j].nodes[p].term == n.term
                        && n.log[..track.matched] <= cs[j].nodes[p].log)
                  && (forall j :: i <= j < |cs| && p in cs[j].nodes && cs[j].nodes[p].term == n.term ==>
                        n.log[..track.matched] <= cs[j].nodes[p].log))
  {
    var hs := RunOK(cs, es);
    var n := cs[i].nodes[l];
    assert ClusterOK(cs[i], hs[i]);
    TrackFacts(cs[i], hs[i], l, p);
    OwnEntries(hs[i], n.term);
    if n.progress[p].matched > n.committed { MatchIsStored(cs, es, hs, i, l, p); }
  }

  lemma MatchIsStored(cs: seq<Cluster>, es: seq<Event>, hs: seq<Hist>, i: nat, l: NodeId, p: NodeId)
    requires Explains(cs, es, hs) && i < |cs| && l in cs[i].nodes && p in cs[i].nodes[l].progress
    requires var n := cs[i].nodes[l];
             && n.term in hs[i].leaders && hs[i].leaders[n.term].log == n.log
             && n.progress[p].matched <= |n.log| && HasStored(hs[i], p, n.term, n.progress[p].matched)
    ensures var n := cs[i].nodes[l]; var k := n.progress[p].matched;
            && (exists j :: 0 <= j <= i && p in cs[j].nodes && cs[j].nodes[p].term == n.term
                  && n.log[..k] <= cs[j].nodes[p].log)
            && (forall j :: i <= j < |cs| && p in cs[j].nodes && cs[j].nodes[p].term == n.term ==>
                  n.log[..k] <= cs[j].nodes[p].log)
  {
    var n := cs[i].nodes[l];
    var t, k := n.term, n.progress[p].matched;
    var j := StoredBefore(cs, es, hs, i, p, t, k);
    forall j' {:trigger cs[j']} | i <= j' < |cs| && p in cs[j'].nodes && cs[j'].nodes[p].term == t
      ensures n.log[..k] <= cs[j'].nodes[p].log
    {
      StoredAfter(cs, es, hs, i, j', p, t, k);
    }
  }

  lemma OwnEntries(h: Hist, t: nat)
    requires HistOK(h) && t in h.leaders
    ensures forall x :: |h.leaders[t].base| < x <= |h.leaders[t].log| ==> TermAt(h.leaders[t].log, x) == t
    ensures |h.leaders[t].base| < |h.leaders[t].log| && TermAt(h.leaders[t].log, |h.leaders[t].base|) != t
  {
    assert LeaderRecOK(h, t);
    var base, log := h.leaders[t].base, h.leaders[t].log;
    if |base| > 0 { assert log[|base| - 1] == base[|base| - 1]; }
  }

  lemma StoredBefore(cs: seq<Cluster>, es: seq<Event>, hs: seq<Hist>, i: nat, p: NodeId, t: nat, k: nat)
    returns (j: nat)
    requires Explains(cs, es, hs) && i < |cs| && HasStored(hs[i], p, t, k)
    requires t in hs[i].leaders && k <= |hs[i].leaders[t].log|
    ensures j <= i && p in cs[j].nodes && cs[j].nodes[p].term == t
    ensures hs[i].leaders[t].log[..k] <= cs[j].nodes[p].log
  {
    j := StoredHappened(cs, es, hs, i, p, t);
    assert ClusterOK(cs[j], hs[j]);
    StoredFacts(cs[j], hs[j], p, t);
    HistLater(cs, es, hs, j, i);
    assert LeaderGrows(hs[j].leaders[t], hs[i].leaders[t]);
  }

  lemma StoredAfter(cs: seq<Cluster>, es: seq<Event>, hs: seq<Hist>, i: nat, j: nat, p: NodeId, t: nat, k: nat)
    requires Explains(cs, es, hs) && i <= j < |cs| && HasStored(hs[i], p, t, k)
    requires t in hs[i].leaders && k <= |hs[i].leaders[t].log|
    requires p in cs[j].nodes && cs[j].nodes[p].term == t
    ensures hs[i].leaders[t].log[..k] <= cs[j].nodes[p].log
  {
    HistLater(cs, es, hs, i, j);
    assert RecGrows(hs[i].recs[p], hs[j].recs[p]);
    assert ClusterOK(cs[j], hs[j]);
    StoredFacts(cs[j], hs[j], p, t);
    assert LeaderGrows(hs[i].leaders[t], hs[j].leaders[t]);
  }

  // ---------------------------------------------------------------- commits

  /** The commit index that node `id` last reached in the first i events other than by a heartbeat. */
  ghost function Checked(cs: seq<Cluster>, es: seq<Event>, id: NodeId, i: nat): nat
    requires |cs| == |es| + 1 && i <= |es|
    requires forall k :: 0 <= k <= i ==> id in cs[k].nodes
  {
    if i == 0 then 0
    else if cs[i].nodes[id].committed > cs[i - 1].nodes[id].committed && !Unchecked(es[i - 1])
    then cs[i].nodes[id].committed
    else Checked(cs, es, id, i - 1)
  }

  lemma {:induction false} CheckedIsClean(cs: seq<Cluster>, es: seq<Event>, hs: seq<Hist>, id: NodeId, i: nat)
    requires Explains(cs, es, hs) && i <= |es| && forall k :: 0 <= k <= i ==> id in cs[k].nodes
    ensures id in hs[i].recs && Checked(cs, es, id, i) <= hs[i].recs[id].clean
  {
    if i == 0 {
      assert id in cs[0].nodes;
    } else {
      CheckedIsClean(cs, es, hs, id, i - 1);
      StepIsClean(cs[i - 1], hs[i - 1], cs[i], hs[i], es[i - 1], id);
    }
  }

  lemma StepIsClean(c: Cluster, h: Hist, c': Cluster, h': Hist, e: Event, id: NodeId)
    requires Advances(c, h, c', h', e) && id in c.nodes && id in h.recs
    ensures id in c'.nodes && id in h'.recs && h.recs[id].clean <= h'.recs[id].clean
    ensures c'.nodes[id].committed > c.nodes[id].committed && !Unchecked(e) ==>
      h'.recs[id].clean == c'.nodes[id].committed
  {
    if id == Actor(e) { assert RecGrows(h.recs[id], h'.recs[id]); }
  }

  /** Commits made by a leader's own count or by a checked append: any two nodes, at any two times,
      agree on what both have committed in this way. */
  lemma CommitAgreement(cs: seq<Cluster>, es: seq<Event>, i: nat, j: nat, a: NodeId, b: NodeId, c: nat)
    requires IsRun(cs, es) && i < |cs| && j < |cs|
    requires forall k :: 0 <= k <= i ==> a in cs[k].nodes
    requires forall k :: 0 <= k <= j ==> b in cs[k].nodes
    requires c <= Checked(cs, es, a, i) && c <= Checked(cs, es, b, j)
    ensures c <= |cs[i].nodes[a].log| && c <= |cs[j].nodes[b].log|
    ensures cs[i].nodes[a].log[..c] == cs[j].nodes[b].log[..c]
  {
    var hs := RunOK(cs, es);
    var k := Max(i, j);
    CheckedIsClean(cs, es, hs, a, i);
    CheckedIsClean(cs, es, hs, b, j);
    assert ClusterOK(cs[i], hs[i]) && ClusterOK(cs[j], hs[j]) && ClusterOK(cs[k], hs[k]);
    CleanLater(cs, es, hs, i, k, a);
    CleanLater(cs, es, hs, j, k, b);
    CleanAgree(hs[k], cs[i].nodes[a].log, hs[i].recs[a].clean, cs[j].nodes[b].log, hs[j].recs[b].clean, c);
  }

  lemma CleanLater(cs: seq<Cluster>, es: seq<Event>, hs: seq<Hist>, i: nat, k: nat, a: NodeId)
    requires Explains(cs, es, hs) && i <= k < |cs| && a in cs[i].nodes
    ensures a in hs[i].recs && CleanUpTo(hs[k].leaders, cs[i].nodes[a].log, hs[i].recs[a].clean)
  {
    assert ClusterOK(cs[i], hs[i]);
    CleanFacts(cs[i], hs[i], a);
    HistLater(cs, es, hs, i, k);
    CleanGrows(hs[i].leaders, hs[k].leaders, cs[i].nodes[a].log, hs[i].recs[a].clean, cs[i].nodes[a].log);
  }

  /** A commit reached other than by a heartbeat covers entries that some leader has committed. */
  lemma CheckedIsCommitted(cs: seq<Cluster>, es: seq<Event>, i: nat, a: NodeId) returns (j: nat, l: NodeId)
    requires IsRun(cs, es) && i < |cs| && forall k :: 0 <= k <= i ==> a in cs[k].nodes
    requires Checked(cs, es, a, i) > 0
    ensures var c := Checked(cs, es, a, i);
            && j <= i && l in cs[j].nodes && cs[j].nodes[l].role == Leader
            && c <= cs[j].nodes[l].committed && c <= |cs[i].nodes[a].log|
            && cs[i].nodes[a].log[..c] <= cs[j].nodes[l].log
  {
    var hs := RunOK(cs, es);
    var c := Checked(cs, es, a, i);
    CheckedIsClean(cs, es, hs, a, i);
    assert ClusterOK(cs[i], hs[i]);
    CleanFacts(cs[i], hs[i], a);
    var t := CleanWitness(hs[i], cs[i].nodes[a].log, hs[i].recs[a].clean, c);
    j := LeaderHappened(cs, es, hs, i, t);
    l := hs[i].leaders[t].id;
  }

  // ---------------------------------------------------------------- stability and application

  /** On every node, in every run: commit index and term never fall, committed entries stay where they
      are, and what the apply loop has walked is exactly the log up to the applied index, in order. */
  lemma CommittedStays(cs: seq<Cluster>, es: seq<Event>, i: nat, j: nat, a: NodeId)
    requires IsRun(cs, es) && i <= j < |cs| && a in cs[i].nodes
    ensures a in cs[j].nodes && a in cs[i].walked && a in cs[j].walked
    ensures var n, n' := cs[i].nodes[a], cs[j].nodes[a];
            && n.applied <= n.committed <= |n.log|
            && n.committed <= n'.committed <= |n'.log| && n'.applied <= n'.committed && n.term <= n'.term
            && n'.log[..n.committed] == n.log[..n.committed]
            && cs[i].walked[a] == n.log[..n.applied]
            && cs[j].walked[a] == n'.log[..n'.applied]
  {
    var hs := RunOK(cs, es);
    NodeSettles(cs, es, hs, i, j, a);
    assert ClusterOK(cs[i], hs[i]) && ClusterOK(cs[j], hs[j]);
    LogFacts(cs[i], hs[i], a);
    LogFacts(cs[j], hs[j], a);
  }

  /** Only a round of its owner moves the applied index of a node, and no other event changes what was
      applied. */
  lemma BetweenRounds(cs: seq<Cluster>, es: seq<Event>, i: nat, a: NodeId)
    requires IsRun(cs, es) && i < |es| && a in cs[i].nodes && es[i] != Ready(a)
    ensures a in cs[i + 1].nodes
    ensures var n, n' := cs[i].nodes[a], cs[i + 1].nodes[a];
            && Numbers(n.log) && n.applied <= n.committed <= |n.log|
            && Numbers(n'.log) && n'.applied <= n'.committed <= |n'.log|
            && n'.applied == n.applied && n'.log[..n.applied] == n.log[..n.applied]
  {
    var hs := RunOK(cs, es);
    CommittedStays(cs, es, i, i + 1, a);
    assert Next(cs[i], cs[i + 1], es[i]);
    assert ClusterOK(cs[i], hs[i]) && ClusterOK(cs[i + 1], hs[i + 1]);
    LogFacts(cs[i], hs[i], a);
    LogFacts(cs[i + 1], hs[i + 1], a);
    assert cs[i + 1].walked[a] == cs[i].walked[a];
  }

  /** No event gets stuck: a message in the network can always be delivered. */
  lemma DeliveryIsDefined(cs: seq<Cluster>, es: seq<Event>, i: nat, m: Message)
    requires IsRun(cs, es) && i < |cs| && m in cs[i].net && m.to in cs[i].nodes
    ensures WellFormed(m) && Tracked(cs[i].nodes[m.to])
  {
    var hs := RunOK(cs, es);
    assert ClusterOK(cs[i], hs[i]);
    assert m in Mail(hs[i]);
    AppendIsWellFormed(hs[i], m);
    Host(cs[i], hs[i], m.to);
  }

  // ---------------------------------------------------------------- heartbeats

  /** A heartbeat that raises the commit index of a node to c does so correctly, that is to entries the
      leaders have committed, exactly when the node's entry c has the term a leader committed there. */
  lemma HeartbeatCommitsRightly(cs: seq<Cluster>, es: seq<Event>, i: nat, j: nat, l: NodeId)
    requires IsRun(cs, es) && i < |es| && Unchecked(es[i])
    requires var a := es[i].m.to;
             a in cs[i].nodes && a in cs[i + 1].nodes && cs[i + 1].nodes[a].committed > cs[i].nodes[a].committed
    requires j < |cs| && l in cs[j].nodes && cs[j].nodes[l].role == Leader
    requires cs[j].nodes[l].committed >= cs[i + 1].nodes[es[i].m.to].committed
    ensures var n, n', r := cs[i].nodes[es[i].m.to], cs[i + 1].nodes[es[i].m.to], cs[j].nodes[l];
            var c := n'.committed;
            && c == CommitTo(n.log, n.committed, es[i].m.commit) && c <= |n'.log| && c <= |r.log|
            && (n'.log[..c] == r.log[..c] <==> TermAt(n.log, c) == TermAt(r.log, c))
  {
    var hs := RunOK(cs, es);
    var a := es[i].m.to;
    assert Next(cs[i], cs[i + 1], es[i]);
    HeartbeatOnly(cs[i].nodes[a], es[i].m);
    assert ClusterOK(cs[i + 1], hs[i + 1]) && ClusterOK(cs[j], hs[j]);
    LogFacts(cs[i + 1], hs[i + 1], a);
    LogFacts(cs[j], hs[j], l);
    var c := cs[i + 1].nodes[a].committed;
    if TermAt(cs[i].nodes[a].log, c) == TermAt(cs[j].nodes[l].log, c) {
      LogsMatch(cs, es, i + 1, j, a, l, c - 1);
    } else {
      assert cs[i + 1].nodes[a].log[..c][c - 1] != cs[j].nodes[l].log[..c][c - 1];
    }
  }

  lemma HeartbeatOnly(n: Node, m: Message)
    requires m.Heartbeat? && Tracked(n) && Step(n, m).committed > n.committed
    ensures Step(n, m).log == n.log && Step(n, m).committed == CommitTo(n.log, n.committed, m.commit)
    ensures m.term == 0 || n.term <= m.term
  {}

  /** What the sender can see: a heartbeat of its term with a commit index up to a match index that it had
      when that was above its own commit index.  Such a heartbeat only commits what a leader has committed. */
  lemma HeartbeatWithinMatch(cs: seq<Cluster>, es: seq<Event>, i: nat, l: NodeId, p: NodeId, j: nat)
    returns (k: nat, r: NodeId)
    requires IsRun(cs, es) && i <= j < |es| && l in cs[i].nodes && p in cs[i].nodes && p != l
    requires cs[i].nodes[l].role == Leader && p in cs[i].nodes[l].progress
    requires cs[i].nodes[l].progress[p].matched > cs[i].nodes[l].committed
    requires Unchecked(es[j]) && es[j].m.to == p && es[j].m.term == cs[i].nodes[l].term
    requires es[j].m.commit <= cs[i].nodes[l].progress[p].matched
    requires p in cs[j].nodes && p in cs[j + 1].nodes && cs[j + 1].nodes[p].committed > cs[j].nodes[p].committed
    ensures k <= j && r in cs[k].nodes && cs[k].nodes[r].role == Leader
    ensures var n' := cs[j + 1].nodes[p];
            && n'.committed <= |n'.log| && n'.committed <= cs[k].nodes[r].committed
            && n'.log[..n'.committed] <= cs[i].nodes[l].log && n'.log[..n'.committed] <= cs[k].nodes[r].log
  {
    WithinMatchAgrees(cs, es, i, l, p, j);
    k, r := HeartbeatIsBacked(cs, es, j, es[j].m);
    var c := cs[j + 1].nodes[p].committed;
    CommittedStays(cs, es, k, k, r);
    if cs[k].nodes[r].term == cs[i].nodes[l].term {
      ElectionSafety(cs, es, k, i, r, l);
      if k <= i { LeaderAppendOnly(cs, es, k, i, l); } else { LeaderAppendOnly(cs, es, i, k, l); }
    } else {
      LeadersComplete(cs, es, k, i, r, l);
    }
    assert cs[k].nodes[r].log[..c] == cs[i].nodes[l].log[..c];
  }

  lemma WithinMatchAgrees(cs: seq<Cluster>, es: seq<Event>, i: nat, l: NodeId, p: NodeId, j: nat)
    requires IsRun(cs, es) && i <= j < |es| && l in cs[i].nodes && p in cs[i].nodes && p != l
    requires cs[i].nodes[l].role == Leader && p in cs[i].nodes[l].progress
    requires cs[i].nodes[l].progress[p].matched > cs[i].nodes[l].committed
    requires Unchecked(es[j]) && es[j].m.to == p && es[j].m.term == cs[i].nodes[l].term
    requires es[j].m.commit <= cs[i].nodes[l].progress[p].matched
    requires p in cs[j].nodes && p in cs[j + 1].nodes && cs[j + 1].nodes[p].committed > cs[j].nodes[p].committed
    ensures es[j].m in cs[j].net
    ensures var n' := cs[j + 1].nodes[p];
            && n'.committed <= |n'.log| && n'.committed <= es[j].m.commit
            && n'.log[..n'.committed] <= cs[i].nodes[l].log
  {
    var n, track := cs[i].nodes[l], cs[i].nodes[l].progress[p];
    HeartbeatHasTerm(cs, es, j);
    assert Next(cs[j], cs[j + 1], es[j]);
    HeartbeatOnly(cs[j].nodes[p], es[j].m);
    MatchIndexSound(cs, es, i, l, p);
    var k :| 0 <= k <= i && p in cs[k].nodes && cs[k].nodes[p].term == n.term
             && n.log[..track.matched] <= cs[k].nodes[p].log;
    CommittedStays(cs, es, k, j, p);
    CommittedStays(cs, es, j, j + 1, p);
    assert n.log[..track.matched] <= cs[j].nodes[p].log;
    var c := cs[j + 1].nodes[p].committed;
    assert cs[j].nodes[p].log[..c] == n.log[..c];
  }

  lemma HeartbeatHasTerm(cs: seq<Cluster>, es: seq<Event>, j: nat)
    requires IsRun(cs, es) && j < |es| && Unchecked(es[j])
    ensures es[j].m.term > 0
  {
    var hs := RunOK(cs, es);
    assert Next(cs[j], cs[j + 1], es[j]);
    assert ClusterOK(cs[j], hs[j]);
    assert es[j].m in Mail(hs[j]);
    if es[j].m.term == 0 { TermlessOK(hs[j], es[j].m); }
  }

  /** Every heartbeat's commit index was reached by a leader of a term up to its own. */
  lemma HeartbeatIsBacked(cs: seq<Cluster>, es: seq<Event>, i: nat, m: Message) returns (j: nat, l: NodeId)
    requires IsRun(cs, es) && i < |cs| && m in cs[i].net && m.Heartbeat? && m.commit > 0
    ensures j <= i && l in cs[j].nodes && cs[j].nodes[l].role == Leader
    ensures cs[j].nodes[l].term <= m.term && cs[j].nodes[l].committed >= m.commit
  {
    var hs := RunOK(cs, es);
    assert ClusterOK(cs[i], hs[i]);
    assert m in Mail(hs[i]);
    var t :| t in hs[i].leaders && t <= m.term && m.commit <= hs[i].leaders[t].commit;
    j := LeaderHappened(cs, es, hs, i, t);
    l := hs[i].leaders[t].id;
  }

  // ---------------------------------------------------------------- quorums

  /** For any number of members, those a leader counts for an index share a member with the voters of
      any candidate that wins. */
  lemma CommitMeetsElection(ids: set<NodeId>, leader: Node, c: nat, cand: Node) returns (x: NodeId)
    requires leader.progress.Keys == ids && leader.cfg.id in ids && CanCommit(leader, c)
    requires 1 + |cand.cfg.peers| == |ids| && cand.votes.Keys <= ids && HasQuorum(cand)
    ensures x in Holders(leader, c) + {leader.cfg.id} && x in Granted(cand.votes)
  {
    var q := Holders(leader, c) + {leader.cfg.id};
    assert |leader.progress| == |leader.progress.Keys|;
    SubsetSize(Holders(leader, c), q);
    x := QuorumsMeet(ids, q, Granted(cand.votes));
  }
}
