/**
 How a leader brings a member up to date: the appends, the answers, and the appends that these trigger.
 A refused append is answered with index 0, so a leader that probes never steps back.
 */
module RaftCatchUp {
  import opened RaftTypes
  import opened RaftSpec
  import opened RaftCompleteness
  import opened RaftReplication

  /** What a step has put into the outbox. */
  function Added(n: Node, n': Node): seq<Message> {
    if |n.msgs| <= |n'.msgs| then n'.msgs[|n.msgs|..] else []
  }

  /** A leader, a member, and what is under way to the member. */
  datatype Moment = Moment(l: Node, f: Node, ms: seq<Message>)

  /** One round: a message is delivered to the member, its answer to the leader, and what the leader sends
      then is under way.  If nothing is, nothing happens.  The conditions make `Step` defined. */
  function Round(s: Moment): Moment {
    if s.ms == [] || !WellFormed(s.ms[0]) || !Tracked(s.f) then s.(ms := [])
    else
      var f := Step(s.f, s.ms[0]);
      var answer := Added(s.f, f);
      if answer == [] || !WellFormed(answer[0]) || !Tracked(s.l) then Moment(s.l, f, [])
      else
        var l := Step(s.l, answer[0]);
        Moment(l, f, Added(s.l, l))
  }

  function Repeat<S>(round: S -> S, s: S, n: nat): S
    decreases n
  {
    if n == 0 then s else Repeat(round, round(s), n - 1)
  }

  /** The leader and the member talk for some rounds. */
  function Talk(l: Node, f: Node, m: Message, rounds: nat): Moment {
    Repeat(Round, Moment(l, f, [m]), rounds)
  }

  // ---------------------------------------------------------------- a leader and a member

  /** The track follows what was acknowledged: the next entry is the one after it, or at first the leader's
      first own one, after `b` others. */
  predicate TrackAt(t: Track, b: nat, len: nat) {
    && t.next == (if t.matched == 0 then b else t.matched) + 1
    && (t.matched == 0 || b < t.matched <= len)
    && t.state != Snapshotting && (t.state == Replicate ==> t.matched > 0)
  }

  /** What holds of a leader, whose log has `b` entries before its own, and a member of at most its term. */
  ghost predicate Paired(l: Node, f: Node, b: nat) {
    && l.role == Leader && Tracked(l) && l.cfg.maxEntries >= 1 && l.committed <= |l.log|
    && Numbers(l.log) && b < |l.log|
    && f.cfg.id in l.progress && f.cfg.id != l.cfg.id && TrackAt(l.progress[f.cfg.id], b, |l.log|)
    && Tracked(f) && f.term <= l.term && (f.role == Leader ==> f.term < l.term)
    && Logged(l.log, l.term, f.log, b)
    && f.committed <= |f.log| && f.committed <= |l.log|
  }

  /** The logs agree; the leader's own entries start after b; a log with one of them is a part of its log. */
  ghost predicate Logged(log: seq<LogEntry>, term: nat, other: seq<LogEntry>, b: nat) {
    && Agree(other, log)
    && (forall x :: b < x <= |log| ==> TermAt(log, x) == term)
    && (forall x :: 0 <= x < |other| && other[x].term == term ==> other <= log)
  }

  /** The index from which on the member is sent entries. */
  function Edge(l: Node, f: Node): nat
    requires f.cfg.id in l.progress && l.progress[f.cfg.id].next >= 1
  {
    var prev := l.progress[f.cfg.id].next - 1;
    if prev < f.committed then f.committed else prev
  }

  /** The member has the leader's entries up to there. */
  predicate InReach(l: Node, f: Node)
    requires f.cfg.id in l.progress && l.progress[f.cfg.id].next >= 1
  {
    Edge(l, f) <= |l.log| && l.log[..Edge(l, f)] <= f.log
  }

  /** Only what the leader knows about the member, the commit index and the outbox have changed. */
  ghost predicate Heard(l: Node, l': Node, p: NodeId) {
    && p in l.progress && p in l'.progress
    && l' == l.(progress := l.progress[p := l'.progress[p]], committed := l'.committed, msgs := l'.msgs)
    && l.committed <= l'.committed
  }

  /** The check of an append succeeds exactly if the member has the entries before it. */
  lemma ConsistentIff(log: seq<LogEntry>, l: seq<LogEntry>, k: nat)
    requires Agree(log, l) && Numbers(l) && k <= |l|
    ensures LogConsistent(log, k, TermAt(l, k)) <==> l[..k] <= log
  {
    if k > 0 && l[..k] <= log { assert l[..k][k - 1] == log[k - 1]; }
  }

  // ---------------------------------------------------------------- the member's answer

  /** The member as a follower of the sender. */
  function Joined(f: Node, m: Message): Node {
    (if m.term > f.term then f.(term := m.term, vote := NoNode) else f).(role := Follower, lead := m.from)
  }

  lemma StepJoins(f: Node, m: Message)
    requires m.Append? && OneBased(m.entries) && Tracked(f)
    requires f.term <= m.term && m.term > 0 && (f.role == Leader ==> f.term < m.term)
    ensures Step(f, m) == HandleAppend(Joined(f, m), m)
  {}

  /** How far the next append to a member goes. */
  function UpTo(l: Node, prev: nat): nat {
    if prev + l.cfg.maxEntries < |l.log| then prev + l.cfg.maxEntries else |l.log|
  }

  /** An append of the entries that this member is to get next. */
  ghost predicate IsNext(l: Node, p: NodeId, m: Message) {
    && p in l.progress && m.Append? && m.from == l.cfg.id && m.to == p && m.term == l.term
    && m.logIndex == l.progress[p].next - 1 <= |l.log| && m.logTerm == TermAt(l.log, m.logIndex)
    && m.entries == l.log[m.logIndex..UpTo(l, m.logIndex)]
    && m.commit <= l.committed
  }

  /** What the leader sends to this member now. */
  ghost predicate IsNextNow(l: Node, p: NodeId, m: Message) {
    IsNext(l, p, m) && m.commit == l.committed
  }

  lemma SameNext(l: Node, l1: Node, p: NodeId, m: Message)
    requires l1 == l.(msgs := l1.msgs) && IsNextNow(l1, p, m)
    ensures IsNextNow(l, p, m)
  {}

  /** The leader can send to this member: entries up to its next index are stored. */
  predicate CanSend(l: Node, p: NodeId) {
    && Tracked(l) && l.cfg.maxEntries >= 1
    && p in l.progress && l.progress[p].state != Snapshotting && l.progress[p].next <= |l.log| + 1
  }

  /** What is sent to a member, whatever the state of its track. */
  lemma SendsNext(l: Node, p: NodeId)
    requires CanSend(l, p)
    ensures var l' := SendAppend(l, p);
            && l' == l.(msgs := l'.msgs) && |Added(l, l')| == 1 && l'.msgs == l.msgs + Added(l, l')
            && IsNextNow(l, p, Added(l, l')[0])
  {
    SliceIs(l, l.progress[p].next);
  }

  lemma SliceIs(l: Node, next: nat)
    requires 1 <= next <= |l.log| + 1 && l.cfg.maxEntries >= 1
    ensures Slice(l.log, next, next + l.cfg.maxEntries) == l.log[next - 1..UpTo(l, next - 1)]
  {}

  /** What an accepted append leaves: a part of the leader's log, longer by what was sent. */
  lemma AcceptedPart(l: Node, f: Node, b: nat, m: Message)
    requires Paired(l, f, b) && IsNext(l, f.cfg.id, m) && l.log[..m.logIndex] <= f.log
    ensures OneBased(m.entries)
    ensures var log := AppendLog(f.log, m.entries);
            log <= l.log && UpTo(l, m.logIndex) <= |log| && (f.log <= l.log ==> f.log <= log)
  {
    assert f.log[..m.logIndex] == l.log[..m.logIndex];
    AppendLogResult(f.log, l.log, m.logIndex, m.entries);
    var k := UpTo(l, m.logIndex);
    if l.log[..k] <= f.log {
      assert l.log[..k][k - 1] == f.log[k - 1];
      assert TermAt(l.log, k) == l.term;
    }
  }

  lemma NextIsWellFormed(l: Node, f: Node, b: nat, m: Message)
    requires Paired(l, f, b) && IsNext(l, f.cfg.id, m)
    ensures WellFormed(m) && l.term > 0
  {
    PartIsOneBased(l.log, m.logIndex, m.entries);
    assert l.log[|l.log| - 1].term >= 1 && TermAt(l.log, |l.log|) == l.term;
  }

  /** The answer to an append, and log and commit index after it: if it starts below the commit index, if it
      does not fit, and if it does. */
  ghost predicate Answered(f: Node, m: Message, fits: bool, f': Node, r: Message) {
    && m.Append? && OneBased(m.entries)
    && f'.cfg == f.cfg && f'.term == m.term && f'.role == Follower && f'.lead == m.from && f'.progress == f.progress
    && f'.msgs == f.msgs + [r] && r.AppendRsp? && r.from == f.cfg.id && r.to == m.from && r.term == m.term
    && if m.logIndex < f.committed then
         !r.reject && r.index == f.committed && f'.log == f.log && f'.committed == f.committed
       else if !fits then
         && r.reject && r.index == 0 && f'.log == f.log && f'.committed == f.committed
         && r.conflictIndex == ConflictIndex(f.log, m.logIndex) && r.conflictTerm == TermAt(f.log, m.logIndex)
       else
         && f'.log == AppendLog(f.log, m.entries) && !r.reject && r.index == |f'.log|
         && f'.committed == (if f.committed < m.commit then
                               (if |f'.log| < m.commit then |f'.log| else m.commit) else f.committed)
  }

  lemma AppendAnswered(f: Node, m: Message) returns (r: Message)
    requires m.Append? && OneBased(m.entries) && Tracked(f)
    requires f.term <= m.term && m.term > 0 && (f.role == Leader ==> f.term < m.term)
    requires f.committed <= |f.log|
    requires m.logIndex >= f.committed && LogConsistent(f.log, m.logIndex, m.logTerm) ==>
               f.committed <= |AppendLog(f.log, m.entries)|
    ensures Answered(f, m, LogConsistent(f.log, m.logIndex, m.logTerm), Step(f, m), r)
  {
    StepJoins(f, m);
    var f' := HandleAppend(Joined(f, m), m);
    r := f'.msgs[|f.msgs|];
  }

  lemma Answers(l: Node, f: Node, b: nat, m: Message) returns (r: Message)
    requires Paired(l, f, b) && IsNext(l, f.cfg.id, m)
    ensures WellFormed(m) && Answered(f, m, l.log[..m.logIndex] <= f.log, Step(f, m), r)
    ensures Added(f, Step(f, m)) == [r]
  {
    NextIsWellFormed(l, f, b, m);
    ConsistentIff(f.log, l.log, m.logIndex);
    if l.log[..m.logIndex] <= f.log { AcceptedPart(l, f, b, m); }
    r := AppendAnswered(f, m);
  }

  // ---------------------------------------------------------------- what the leader makes of it

  /** An acknowledgement of more than before: the track follows it, what can be committed is, and the member
      is sent more if it lags. */
  lemma HearsAck(l: Node, f: Node, b: nat, r: Message)
    requires Paired(l, f, b) && r.AppendRsp? && r.from == f.cfg.id && r.term == l.term && !r.reject
    requires l.progress[f.cfg.id].matched < r.index <= |l.log| && b < r.index
    ensures var l' := Step(l, r);
            && Heard(l, l', f.cfg.id) && Paired(l', f, b)
            && l'.progress[f.cfg.id] == Track(r.index + 1, r.index, Replicate)
            && (CanCommit(l', |l.log|) ==> l'.committed == |l.log|)
            && l'.msgs == l.msgs + Added(l, l')
            && if r.index == |l.log| then Added(l, l') == []
               else |Added(l, l')| == 1 && IsNextNow(l', f.cfg.id, Added(l, l')[0])
  {
    var l1 := l.(progress := l.progress[f.cfg.id := Track(r.index + 1, r.index, Replicate)]);
    AckHeard(l, l1, b, r);
    AckTaken(l, l1, Step(l, r), f, b, r.index);
  }

  lemma AckTaken(l: Node, l1: Node, l': Node, f: Node, b: nat, index: nat)
    requires Paired(l, f, b) && b < index <= |l.log| && Tracked(l1)
    requires l1 == l.(progress := l.progress[f.cfg.id := Track(index + 1, index, Replicate)])
    requires l' == if index < |l.log| then SendAppend(MaybeCommit(l1), f.cfg.id) else MaybeCommit(l1)
    ensures Heard(l, l', f.cfg.id) && Paired(l', f, b) && l'.progress == l1.progress
    ensures CanCommit(l', |l.log|) ==> l'.committed == |l.log|
    ensures l'.msgs == l.msgs + Added(l, l')
    ensures if index == |l.log| then Added(l, l') == []
            else |Added(l, l')| == 1 && IsNextNow(l', f.cfg.id, Added(l, l')[0])
  {
    var l2 := MaybeCommit(l1);
    CommitIndexIsLargest(l1, |l1.log|);
    AckPaired(l, l2, f, b, index);
    if index < |l.log| {
      SendsNext(l2, f.cfg.id);
      AckPaired(l, l', f, b, index);
      SameNext(l', l2, f.cfg.id, Added(l2, l')[0]);
    }
  }

  lemma AckHeard(l: Node, l1: Node, b: nat, r: Message)
    requires l.role == Leader && Tracked(l) && r.AppendRsp? && r.from in l.progress && r.term == l.term && !r.reject
    requires TrackAt(l.progress[r.from], b, |l.log|) && l.progress[r.from].matched < r.index && b < r.index
    requires l1 == l.(progress := l.progress[r.from := Track(r.index + 1, r.index, Replicate)])
    ensures Tracked(l1)
    ensures Step(l, r) == if r.index < |l.log| then SendAppend(MaybeCommit(l1), r.from) else MaybeCommit(l1)
  {
    assert Acked(l.progress[r.from], r.index) == Track(r.index + 1, r.index, Replicate);
  }

  lemma AckPaired(l: Node, l': Node, f: Node, b: nat, index: nat)
    requires Paired(l, f, b) && b < index <= |l.log| && l.committed <= l'.committed <= |l.log|
    requires l' == l.(progress := l.progress[f.cfg.id := Track(index + 1, index, Replicate)],
                      committed := l'.committed, msgs := l'.msgs)
    ensures Heard(l, l', f.cfg.id) && Paired(l', f, b)
  {}

  /** An acknowledgement of no more than before changes nothing. */
  lemma HearsNothingNew(l: Node, r: Message)
    requires l.role == Leader && Tracked(l) && r.AppendRsp? && r.from in l.progress && r.term == l.term && !r.reject
    requires r.index <= l.progress[r.from].matched
    ensures Step(l, r) == l
  {}

  /** A refused append lowers the next index of a track that probes, down to the reported conflict but not below
      1, exactly if it was the one before that index and this is lower.  One that replicates goes back to just
      above what is known.  The match index stays. */
  lemma StepBackExactly(t: Track, rejected: nat, conflictIndex: nat)
    requires t.next >= 1
    ensures var (t', retry) := MaybeDecrTo(t, rejected, conflictIndex);
            && t'.matched == t.matched && t'.next >= 1
            && (t.state == Replicate ==> retry && t' == Track(t.matched + 1, t.matched, Probe))
            && (t.state != Replicate ==>
                  && t'.state == t.state && t'.next <= t.next && (retry <==> t'.next < t.next)
                  && (retry <==> rejected == t.next - 1 && conflictIndex < t.next && t.next > 1)
                  && (retry ==> t'.next == if conflictIndex < 1 then 1 else conflictIndex))
  {}

  lemma RefusalHeard(n: Node, m: Message, b: nat)
    requires m.AppendRsp? && m.reject && m.index == 0 && n.role == Leader && n.term == m.term && m.from in n.progress
    requires CanSend(n, m.from) && (n.progress[m.from].state == Replicate ==> n.progress[m.from].matched > 0)
    requires n.progress[m.from].next == (if n.progress[m.from].matched == 0 then b else n.progress[m.from].matched) + 1
    ensures var n', t := Step(n, m), n.progress[m.from];
            if t.state == Replicate then
              && n' == n.(progress := n.progress[m.from := t.(state := Probe)], msgs := n.msgs + Added(n, n'))
              && |Added(n, n')| == 1 && IsNextNow(n', m.from, Added(n, n')[0])
            else n' == n
  {
    var t := n.progress[m.from];
    StepBackExactly(t, 0, m.conflictIndex);
    var n1 := n.(progress := n.progress[m.from := t.(state := Probe)]);
    if t.state == Replicate {
      assert Step(n, m) == SendAppend(n1, m.from);
      SendsNext(n1, m.from);
      SameNext(Step(n, m), n1, m.from, Added(n1, SendAppend(n1, m.from))[0]);
    } else {
      assert n.progress[m.from := t] == n.progress;
    }
  }

  /** A refusal: a track that replicates goes back to probing, from the same index, and the append is sent
      again.  One that probes stays as it is, and nothing is sent. */
  lemma HearsRefusal(l: Node, f: Node, b: nat, r: Message)
    requires Paired(l, f, b) && r.AppendRsp? && r.from == f.cfg.id && r.term == l.term && r.reject && r.index == 0
    ensures var l', t := Step(l, r), l.progress[f.cfg.id];
            if t.state == Replicate then
              && Heard(l, l', f.cfg.id) && Paired(l', f, b) && l'.progress[f.cfg.id] == t.(state := Probe)
              && |Added(l, l')| == 1 && IsNextNow(l', f.cfg.id, Added(l, l')[0])
            else l' == l
  {
    RefusalHeard(l, r, b);
    if l.progress[f.cfg.id].state == Replicate { ProbesNow(l, Step(l, r), f, b); }
  }

  lemma ProbesNow(l: Node, l': Node, f: Node, b: nat)
    requires Paired(l, f, b)
    requires l' == l.(progress := l.progress[f.cfg.id := l.progress[f.cfg.id].(state := Probe)], msgs := l'.msgs)
    ensures Heard(l, l', f.cfg.id) && Paired(l', f, b)
  {}

  // ---------------------------------------------------------------- one round

  /** A member that takes a part of the leader's log stays paired with it. */
  lemma StillPaired(l: Node, f: Node, f': Node, b: nat)
    requires Paired(l, f, b) && f'.cfg == f.cfg && f'.term == l.term && f'.role == Follower && Tracked(f')
    requires f'.log == f.log || f'.log <= l.log
    requires f'.committed <= |f'.log|
    ensures f'.committed <= |l.log| ==> Paired(l, f', b)
  {}

  /** A round leads from s to s'. */
  ghost predicate Leads<S>(round: S -> S, s: S, s': S) {
    forall n: nat {:trigger Repeat(round, s', n)} :: Repeat(round, s, n + 1) == Repeat(round, s', n)
  }

  ghost predicate Turn(s: Moment, s': Moment) {
    Leads(Round, s, s')
  }

  lemma TurnsTo(l: Node, f: Node, m: Message, answer: Message)
    requires WellFormed(m) && Tracked(f) && Added(f, Step(f, m)) == [answer] && WellFormed(answer) && Tracked(l)
    ensures Turn(Moment(l, f, [m]), Moment(Step(l, answer), Step(f, m), Added(l, Step(l, answer))))
  {
    var s := Moment(l, f, [m]);
    var s' := Moment(Step(l, answer), Step(f, m), Added(l, Step(l, answer)));
    assert Round(s) == s';
    RepeatOnce(Round, s, s');
  }

  lemma RepeatOnce<S>(round: S -> S, s: S, s': S)
    requires round(s) == s'
    ensures Leads(round, s, s')
  {}

  /** The next message of the talk is the next append. */
  ghost predicate GoesOn(l: Node, p: NodeId, ms: seq<Message>) {
    |ms| == 1 && IsNextNow(l, p, ms[0])
  }

  /** The member has acknowledged the whole log. */
  predicate AllAcked(l: Node, p: NodeId) {
    p in l.progress && l.progress[p].matched == |l.log|
  }

  /** Going on from (l, f) to (l', f') in reach: the member is done, or the next append goes further. */
  ghost predicate Nearer(l: Node, f: Node, b: nat, commit: nat, l': Node, f': Node, ms: seq<Message>) {
    var p := f.cfg.id;
    && Heard(l, l', p) && f'.cfg == f.cfg && Paired(l', f', b) && InReach(l', f')
    && (!AllAcked(l, p) && AllAcked(l', p) && CanCommit(l', |l.log|) ==> l'.committed == |l.log|)
    && if AllAcked(l', p) then ms == [] && f'.log == l.log && commit <= f'.committed
       else l'.progress[p].next > l.progress[p].next && GoesOn(l', p, ms)
  }

  lemma RoundInReach(l: Node, f: Node, b: nat, m: Message) returns (l': Node, f': Node, ms: seq<Message>)
    requires Paired(l, f, b) && IsNext(l, f.cfg.id, m) && InReach(l, f)
    ensures Turn(Moment(l, f, [m]), Moment(l', f', ms)) && Nearer(l, f, b, m.commit, l', f', ms)
  {
    var r := Answers(l, f, b, m);
    f' := Step(f, m);
    TurnsTo(l, f, m, r);
    l' := Step(l, r);
    ms := Added(l, l');
    if m.logIndex < f.committed {
      StillPaired(l, f, f', b);
      AckNearer(l, f, b, m.commit, f', r);
    } else {
      AcceptedPart(l, f, b, m);
      StillPaired(l, f, f', b);
      if r.index <= l.progress[f.cfg.id].matched {
        SameNearer(l, f, b, m.commit, f', r);
      } else {
        AckNearer(l, f, b, m.commit, f', r);
      }
    }
  }

  /** A member with the leader's whole log has no more. */
  lemma WholeLog(l: Node, f: Node, b: nat)
    requires Paired(l, f, b) && l.log <= f.log
    ensures f.log == l.log
  {
    assert TermAt(l.log, |l.log|) == l.term && f.log[|l.log| - 1] == l.log[|l.log| - 1];
  }

  lemma AckNearer(l: Node, f: Node, b: nat, commit: nat, f': Node, r: Message)
    requires Paired(l, f', b) && f'.cfg == f.cfg
    requires r.AppendRsp? && r.from == f.cfg.id && r.term == l.term && !r.reject
    requires l.progress[f.cfg.id].matched < r.index <= |l.log| && b < r.index
    requires f'.committed <= r.index && l.log[..r.index] <= f'.log
    requires r.index == |l.log| ==> commit <= f'.committed
    ensures Nearer(l, f, b, commit, Step(l, r), f', Added(l, Step(l, r)))
  {
    HearsAck(l, f', b, r);
    if r.index == |l.log| {
      assert l.log[..r.index] == l.log;
      WholeLog(l, f', b);
    }
  }

  lemma SameNearer(l: Node, f: Node, b: nat, commit: nat, f': Node, r: Message)
    requires Paired(l, f', b) && f'.cfg == f.cfg && f'.log == l.log && f'.committed <= |l.log| && commit <= f'.committed
    requires r.AppendRsp? && r.from == f.cfg.id && r.term == l.term && !r.reject && r.index == |l.log|
    requires l.progress[f.cfg.id].matched == |l.log|
    ensures Nearer(l, f, b, commit, Step(l, r), f', Added(l, Step(l, r)))
  {
    HearsNothingNew(l, r);
    assert l.progress[f.cfg.id := l.progress[f.cfg.id]] == l.progress;
  }

  /** Going on from (l, f) to (l', f') out of reach: the member's log stays as it is. */
  ghost predicate Stuck(l: Node, f: Node, b: nat, l': Node, f': Node, ms: seq<Message>) {
    && Heard(l, l', f.cfg.id) && f'.cfg == f.cfg && f'.log == f.log && Paired(l', f', b) && !InReach(l', f')
    && (ms == [] || GoesOn(l', f.cfg.id, ms))
  }

  lemma RoundOutOfReach(l: Node, f: Node, b: nat, m: Message) returns (l': Node, f': Node, ms: seq<Message>)
    requires Paired(l, f, b) && IsNext(l, f.cfg.id, m) && !InReach(l, f)
    ensures Turn(Moment(l, f, [m]), Moment(l', f', ms)) && Stuck(l, f, b, l', f', ms)
  {
    var r := Answers(l, f, b, m);
    f' := Step(f, m);
    TurnsTo(l, f, m, r);
    l' := Step(l, r);
    ms := Added(l, l');
    StillPaired(l, f, f', b);
    if m.logIndex < f.committed {
      AckStuck(l, f, b, f', r);
    } else {
      RefusedStuck(l, f, b, f', r);
    }
  }

  lemma AckStuck(l: Node, f: Node, b: nat, f': Node, r: Message)
    requires Paired(l, f, b) && Paired(l, f', b) && f'.cfg == f.cfg && f'.log == f.log && f'.committed == f.committed
    requires l.progress[f.cfg.id].next - 1 < f.committed && !InReach(l, f)
    requires r.AppendRsp? && r.from == f.cfg.id && r.term == l.term && !r.reject && r.index == f.committed
    ensures Stuck(l, f, b, Step(l, r), f', Added(l, Step(l, r)))
  {
    HearsAck(l, f', b, r);
  }

  lemma RefusedStuck(l: Node, f: Node, b: nat, f': Node, r: Message)
    requires Paired(l, f, b) && Paired(l, f', b) && f'.cfg == f.cfg && f'.log == f.log && f'.committed == f.committed
    requires !InReach(l, f)
    requires r.AppendRsp? && r.from == f.cfg.id && r.term == l.term && r.reject && r.index == 0
    ensures Stuck(l, f, b, Step(l, r), f', Added(l, Step(l, r)))
  {
    HearsRefusal(l, f', b, r);
    assert l.progress[f.cfg.id := l.progress[f.cfg.id]] == l.progress;
  }

  // ---------------------------------------------------------------- the whole talk

  lemma HeardOn(l: Node, l1: Node, l2: Node, p: NodeId)
    requires Heard(l, l1, p) && Heard(l1, l2, p)
    ensures Heard(l, l2, p)
  {
    assert l.progress[p := l1.progress[p]][p := l2.progress[p]] == l.progress[p := l2.progress[p]];
  }

  /** What the talk ends with for a member in reach. */
  ghost predicate CaughtUp(l: Node, p: NodeId, b: nat, commit: nat, l': Node, f': Node) {
    && Heard(l, l', p) && f'.cfg.id == p && Paired(l', f', b)
    && f'.log == l.log && AllAcked(l', p) && commit <= f'.committed
    && (!AllAcked(l, p) && CanCommit(l', |l.log|) ==> l'.committed == |l.log|)
  }

  lemma CaughtUpNow(l: Node, f: Node, b: nat, commit: nat, l1: Node, f1: Node, ms: seq<Message>)
    requires f.cfg.id in l.progress && Nearer(l, f, b, commit, l1, f1, ms) && AllAcked(l1, f.cfg.id)
    ensures CaughtUp(l, f.cfg.id, b, commit, l1, f1) && ms == []
  {}

  lemma CaughtUpLater(l: Node, f: Node, b: nat, commit: nat, l1: Node, f1: Node, ms: seq<Message>, l2: Node, f2: Node)
    requires f.cfg.id in l.progress && Nearer(l, f, b, commit, l1, f1, ms) && !AllAcked(l1, f.cfg.id)
    requires commit <= l.committed && CaughtUp(l1, f.cfg.id, b, ms[0].commit, l2, f2)
    ensures CaughtUp(l, f.cfg.id, b, commit, l2, f2)
  {
    HeardOn(l, l1, l2, f.cfg.id);
  }

  /** The moments of a talk: it goes on for so many rounds, or until nothing is under way. */
  ghost predicate Course(tr: seq<Moment>, rounds: nat) {
    && 0 < |tr| <= rounds + 1 && (|tr| <= rounds ==> tr[|tr| - 1].ms == [])
    && forall i :: 0 <= i < |tr| - 1 ==> Turn(tr[i], tr[i + 1])
  }

  lemma {:induction false} RepeatAlong<S>(round: S -> S, tr: seq<S>, n: nat)
    requires 0 < |tr| <= n + 1 && (|tr| <= n ==> round(tr[|tr| - 1]) == tr[|tr| - 1])
    requires forall i :: 0 <= i < |tr| - 1 ==> Leads(round, tr[i], tr[i + 1])
    ensures Repeat(round, tr[0], n) == tr[|tr| - 1]
    decreases n
  {
    if n > 0 {
      if |tr| == 1 {
        RepeatAlong(round, tr, n - 1);
      } else {
        forall i | 0 <= i < |tr[1..]| - 1 ensures Leads(round, tr[1..][i], tr[1..][i + 1]) {
          assert Leads(round, tr[i + 1], tr[i + 2]);
        }
        RepeatAlong(round, tr[1..], n - 1);
        assert Leads(round, tr[0], tr[1]);
        assert Repeat(round, tr[0], n - 1 + 1) == Repeat(round, tr[1], n - 1);
      }
    }
  }

  lemma CourseIsTalk(tr: seq<Moment>, rounds: nat)
    requires Course(tr, rounds)
    ensures Repeat(Round, tr[0], rounds) == tr[|tr| - 1]
  {
    forall i | 0 <= i < |tr| - 1 ensures Leads(Round, tr[i], tr[i + 1]) { assert Turn(tr[i], tr[i + 1]); }
    assert |tr| <= rounds ==> Round(tr[|tr| - 1]) == tr[|tr| - 1];
    RepeatAlong(Round, tr, rounds);
  }

  lemma Prolonged(s: Moment, rest: seq<Moment>, rounds: nat) returns (tr: seq<Moment>)
    requires Course(rest, rounds) && Turn(s, rest[0])
    ensures Course(tr, rounds + 1) && tr[0] == s && tr[|tr| - 1] == rest[|rest| - 1]
  {
    tr := [s] + rest;
    forall i | 0 <= i < |rest| ensures Turn(tr[i], tr[i + 1]) {
      if i > 0 { assert Turn(rest[i - 1], rest[i]); }
    }
  }

  lemma StuckGoesOn(l: Node, f: Node, b: nat, l1: Node, f1: Node, ms: seq<Message>)
    requires f.cfg.id in l.progress && Stuck(l, f, b, l1, f1, ms) && ms != []
    ensures ms == [ms[0]] && IsNext(l1, f.cfg.id, ms[0])
    ensures f1.cfg.id == f.cfg.id && f1.log == f.log && Paired(l1, f1, b) && !InReach(l1, f1)
  {}

  /** A course from one moment to another. */
  ghost predicate Leading(tr: seq<Moment>, rounds: nat, s: Moment, l: Node, f: Node) {
    Course(tr, rounds) && tr[0] == s && tr[|tr| - 1].l == l && tr[|tr| - 1].f == f
  }

  lemma {:induction false} CourseInReach(l: Node, f: Node, b: nat, m: Message, rounds: nat)
    returns (tr: seq<Moment>, l': Node, f': Node)
    requires Paired(l, f, b) && IsNext(l, f.cfg.id, m) && InReach(l, f)
    requires rounds + l.progress[f.cfg.id].next > |l.log| + 1
    ensures Leading(tr, rounds, Moment(l, f, [m]), l', f') && CaughtUp(l, f.cfg.id, b, m.commit, l', f')
    decreases rounds
  {
    var l1, f1, ms := RoundInReach(l, f, b, m);
    if AllAcked(l1, f.cfg.id) {
      CaughtUpNow(l, f, b, m.commit, l1, f1, ms);
      l', f' := l1, f1;
      tr := Prolonged(Moment(l, f, [m]), [Moment(l1, f1, ms)], rounds - 1);
    } else {
      NearerGoesOn(l, f, b, m.commit, l1, f1, ms);
      var rest;
      rest, l', f' := CourseInReach(l1, f1, b, ms[0], rounds - 1);
      CaughtUpLater(l, f, b, m.commit, l1, f1, ms, l', f');
      tr := Prolonged(Moment(l, f, [m]), rest, rounds - 1);
    }
  }

  lemma NearerGoesOn(l: Node, f: Node, b: nat, commit: nat, l1: Node, f1: Node, ms: seq<Message>)
    requires f.cfg.id in l.progress && Nearer(l, f, b, commit, l1, f1, ms) && !AllAcked(l1, f.cfg.id)
    ensures ms == [ms[0]] && IsNext(l1, f.cfg.id, ms[0])
    ensures f1.cfg.id == f.cfg.id && Paired(l1, f1, b) && InReach(l1, f1)
    ensures l1.log == l.log && l1.progress[f.cfg.id].next > l.progress[f.cfg.id].next
  {}

  lemma {:induction false} CourseOutOfReach(l: Node, f: Node, b: nat, m: Message, rounds: nat)
    returns (tr: seq<Moment>, l': Node, f': Node)
    requires Paired(l, f, b) && IsNext(l, f.cfg.id, m) && !InReach(l, f)
    ensures Leading(tr, rounds, Moment(l, f, [m]), l', f') && Heard(l, l', f.cfg.id) && f'.log == f.log
    decreases rounds
  {
    if rounds == 0 {
      HeardNothing(l, f.cfg.id);
      tr, l', f' := [Moment(l, f, [m])], l, f;
    } else {
      var l1, f1, ms := RoundOutOfReach(l, f, b, m);
      if ms == [] {
        l', f' := l1, f1;
        tr := Prolonged(Moment(l, f, [m]), [Moment(l1, f1, ms)], rounds - 1);
      } else {
        StuckGoesOn(l, f, b, l1, f1, ms);
        var rest;
        rest, l', f' := CourseOutOfReach(l1, f1, b, ms[0], rounds - 1);
        HeardOn(l, l1, l', f.cfg.id);
        tr := Prolonged(Moment(l, f, [m]), rest, rounds - 1);
      }
    }
  }

  lemma HeardNothing(l: Node, p: NodeId)
    requires p in l.progress
    ensures Heard(l, l, p)
  {
    assert l.progress[p := l.progress[p]] == l.progress;
  }

  /** A member gets the leader's log, however long they talk, exactly if it has its entries up to where it is
      sent more from.  The leader then knows it and the member has committed what it was told. */
  lemma TalkExactly(l: Node, f: Node, b: nat, m: Message, rounds: nat)
    requires Paired(l, f, b) && IsNext(l, f.cfg.id, m) && rounds > |l.log|
    ensures var s := Talk(l, f, m, rounds);
            && Heard(l, s.l, f.cfg.id)
            && (s.f.log == l.log <==> InReach(l, f))
            && (InReach(l, f) ==> CaughtUp(l, f.cfg.id, b, m.commit, s.l, s.f))
            && (!InReach(l, f) ==> s.f.log == f.log)
  {
    if InReach(l, f) {
      var tr, l', f' := CourseInReach(l, f, b, m, rounds);
      CourseIsTalk(tr, rounds);
    } else {
      var tr, l', f' := CourseOutOfReach(l, f, b, m, rounds);
      CourseIsTalk(tr, rounds);
      assert l.log[..Edge(l, f)] <= l.log;
    }
  }
}
