/** Log matching, quorum intersection and leader completeness, as facts about a good history. */
module RaftCompleteness {
  import opened RaftTypes
  import opened RaftSpec
  import opened RaftHistory

  /** Two logs that hold the same term at an index are identical up to it. */
  lemma LogMatching(ls: map<nat, LeaderRec>, a: seq<LogEntry>, b: seq<LogEntry>, i: nat)
    requires LogOK(ls, a) && LogOK(ls, b)
    requires i < |a| && i < |b| && a[i].term == b[i].term
    ensures a[..i + 1] == b[..i + 1]
  {
    assert FromLeader(ls, a, i) && FromLeader(ls, b, i);
  }

  /** Wherever two logs hold the same term at an index, they are identical up to it. */
  ghost predicate Agree(a: seq<LogEntry>, b: seq<LogEntry>) {
    forall x :: 0 <= x < |a| && x < |b| && a[x].term == b[x].term ==> a[..x + 1] == b[..x + 1]
  }

  lemma LogsAgree(ls: map<nat, LeaderRec>, a: seq<LogEntry>, b: seq<LogEntry>)
    requires LogOK(ls, a) && LogOK(ls, b)
    ensures Agree(a, b)
  {
    forall x | 0 <= x < |a| && x < |b| && a[x].term == b[x].term ensures a[..x + 1] == b[..x + 1] {
      LogMatching(ls, a, b, x);
    }
  }

  /** A log whose last entry has term t is a prefix of that term's leader log. */
  lemma LastFromLeader(ls: map<nat, LeaderRec>, log: seq<LogEntry>)
    requires LogOK(ls, log) && |log| > 0
    ensures LastTerm(log) in ls && log <= ls[LastTerm(log)].log
  {
    assert FromLeader(ls, log, |log| - 1);
    assert log[..|log|] == log;
  }

  /** Half of the members and more than half of them have one in common. */
  lemma QuorumsMeet(ids: set<NodeId>, s: set<NodeId>, e: set<NodeId>) returns (x: NodeId)
    requires s <= ids && e <= ids && 2 * |s| >= |ids| && 2 * |e| > |ids|
    ensures x in s && x in e
  {
    SubsetSize(s + e, ids);
    assert |s + e| == |s| + |e| - |s * e|;
    x :| x in s * e;
  }

  lemma SubsetSize<T>(a: set<T>, b: set<T>)
    requires a <= b
    ensures |a| <= |b|
  {
    assert b == a + (b - a);
  }

  /** A log at least as recent as one that holds the first k entries of the leader of t, of which the
      last has term t, holds them too, if the leader of its own last term does. */
  lemma RecentHolds(ls: map<nat, LeaderRec>, voter: seq<LogEntry>, cand: seq<LogEntry>, t: nat, k: nat)
    requires LogOK(ls, voter) && LogOK(ls, cand) && UpToDate(voter, |cand|, LastTerm(cand))
    requires t in ls && 0 < k <= |ls[t].log| && ls[t].log[k - 1].term == t
    requires ls[t].log[..k] <= voter
    requires LastTerm(cand) > t ==> LastTerm(cand) in ls && ls[t].log[..k] <= ls[LastTerm(cand)].log
    ensures ls[t].log[..k] <= cand
  {
    assert voter[k - 1].term == t;
    assert LastTerm(voter) >= t;
    LastFromLeader(ls, voter);
    assert |cand| > 0;
    LastFromLeader(ls, cand);
    if LastTerm(cand) > t {
      NewerLiesBeyond(ls[t].log[..k], voter, ls[LastTerm(cand)].log, |cand| - 1);
    }
  }

  /** An entry of a newer term lies beyond a shared prefix that ends in an older one. */
  lemma NewerLiesBeyond(p: seq<LogEntry>, voter: seq<LogEntry>, log: seq<LogEntry>, j: nat)
    requires |p| > 0 && p <= voter && p <= log && Sorted(voter)
    requires j < |log| && log[j].term > p[|p| - 1].term
    ensures j >= |p|
  {
    var k := |p|;
    assert forall i :: 0 <= i < k ==> log[i] == p[i] == voter[i];
  }

  /** What the leader of t has committed is in the log every later leader starts from. */
  lemma {:induction false} LeaderCompleteness(h: Hist, t: nat, u: nat)
    requires HistOK(h) && t in h.leaders && u in h.leaders && t < u && h.leaders[t].commit > 0
    ensures h.leaders[t].commit <= |h.leaders[t].log|
    ensures h.leaders[t].log[..h.leaders[t].commit] <= h.leaders[u].base
    decreases u
  {
    var ls := h.leaders;
    var k := ls[t].commit;
    assert LeaderRecOK(h, t) && LeaderRecOK(h, u);
    var e := QuorumsMeet(h.ids, ls[t].quorum, ls[u].electors);
    assert HasStored(h, e, t, k) && VotedFor(h, e, u, ls[u].id, ls[u].base);
    var voter := h.recs[e].votes[u].log;
    assert RecOK(h, e);
    assert VoteRecOK(h, e, u);
    assert Keeps(ls, h.recs[e].stored, voter, t, k, u);
    if !(ls[t].log[..k] <= voter) {
      var v :| v in h.recs[e].stored && t < v < u && v in ls && !(ls[t].log[..k] <= ls[v].base);
      LeaderCompleteness(h, t, v);
      assert false;
    }
    BaseOK(h, u);
    var w := LastTerm(ls[u].base);
    if w > t {
      LastFromLeader(ls, ls[u].base);
      LeaderCompleteness(h, t, w);
      assert LeaderRecOK(h, w);
    }
    RecentHolds(ls, voter, ls[u].base, t, k);
  }

  lemma PrefixOK(ls: map<nat, LeaderRec>, log: seq<LogEntry>, k: nat)
    requires LogOK(ls, log) && k <= |log|
    ensures LogOK(ls, log[..k])
  {
    forall i {:trigger FromLeader(ls, log[..k], i)} | 0 <= i < k ensures FromLeader(ls, log[..k], i) {
      assert FromLeader(ls, log, i);
      assert log[..k][..i + 1] == log[..i + 1];
    }
  }

  lemma BaseOK(h: Hist, u: nat)
    requires HistOK(h) && u in h.leaders
    ensures LogOK(h.leaders, h.leaders[u].base)
    ensures LastTerm(h.leaders[u].base) < u
  {
    assert LeaderRecOK(h, u);
    var r := h.leaders[u];
    assert r.base == r.log[..|r.base|];
    PrefixOK(h.leaders, r.log, |r.base|);
  }

  lemma TakeOfPrefix<T>(a: seq<T>, b: seq<T>, c: nat)
    requires a <= b && c <= |a|
    ensures a[..c] == b[..c]
  {}

  lemma CommitInLater(h: Hist, t: nat, u: nat, c: nat)
    requires HistOK(h) && t in h.leaders && u in h.leaders && t < u && 0 < c <= h.leaders[t].commit
    ensures c <= |h.leaders[t].log| && c <= |h.leaders[u].base| < |h.leaders[u].log|
    ensures h.leaders[t].log[..c] == h.leaders[u].log[..c]
  {
    LeaderCompleteness(h, t, u);
    BaseBelow(h, u);
    var k := h.leaders[t].commit;
    TakeOfPrefix(h.leaders[t].log[..k], h.leaders[t].log, c);
    TakeOfPrefix(h.leaders[t].log[..k], h.leaders[u].base, c);
    TakeOfPrefix(h.leaders[u].base, h.leaders[u].log, c);
  }

  lemma BaseBelow(h: Hist, u: nat)
    requires HistOK(h) && u in h.leaders
    ensures h.leaders[u].base <= h.leaders[u].log && |h.leaders[u].base| < |h.leaders[u].log|
    ensures h.leaders[u].commit <= |h.leaders[u].log|
  {
    assert LeaderRecOK(h, u);
  }

  /** Two leaders' committed prefixes: one extends the other. */
  lemma CommitsAgree(h: Hist, t: nat, u: nat, c: nat)
    requires HistOK(h) && t in h.leaders && u in h.leaders
    requires c <= h.leaders[t].commit && c <= h.leaders[u].commit
    ensures c <= |h.leaders[t].log| && c <= |h.leaders[u].log|
    ensures h.leaders[t].log[..c] == h.leaders[u].log[..c]
  {
    BaseBelow(h, t);
    BaseBelow(h, u);
    if c > 0 && t < u { CommitInLater(h, t, u, c); }
    if c > 0 && u < t { CommitInLater(h, u, t, c); }
  }

  /** Clean prefixes agree as far as both go. */
  lemma CleanAgree(h: Hist, a: seq<LogEntry>, ca: nat, b: seq<LogEntry>, cb: nat, c: nat)
    requires HistOK(h) && CleanUpTo(h.leaders, a, ca) && CleanUpTo(h.leaders, b, cb)
    requires c <= ca && c <= cb
    ensures a[..c] == b[..c]
  {
    if c > 0 {
      var t := CleanWitness(h, a, ca, c);
      var u := CleanWitness(h, b, cb, c);
      CommitsAgree(h, t, u, c);
    }
  }

  lemma CleanWitness(h: Hist, a: seq<LogEntry>, ca: nat, c: nat) returns (t: nat)
    requires CleanUpTo(h.leaders, a, ca) && 0 < c <= ca
    ensures t in h.leaders && c <= h.leaders[t].commit && c <= |h.leaders[t].log|
    ensures a[..c] == h.leaders[t].log[..c]
  {
    t :| t in h.leaders && ca <= h.leaders[t].commit && a[..ca] <= h.leaders[t].log;
    TakeOfPrefix(a[..ca], h.leaders[t].log, c);
    TakeOfPrefix(a[..ca], a, c);
  }
}
