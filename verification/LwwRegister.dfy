/** The last-write-wins register, written through SetAt and Merge. */
module LwwRegisters {
  import opened Keys
  import opened Options

  datatype Reg<V> = Reg(value: Option<V>, timestamp: int, writer: string)

  function Initial<V>(): Reg<V> {
    Reg(None, 0, "")
  }

  /** The order of writes: by timestamp, then by writer. */
  predicate Later(ts: int, writer: string, than: Reg) {
    ts > than.timestamp || (ts == than.timestamp && Less(than.writer, writer))
  }

  predicate Accepts(r: Reg, node: string, ts: int) {
    Later(ts, node, r)
  }

  function Written<V>(r: Reg<V>, node: string, value: V, ts: int): Reg<V> {
    if Accepts(r, node, ts) then Reg(Some(value), ts, node) else r
  }

  function Merged<V>(r: Reg<V>, other: Reg<V>): Reg<V> {
    if Later(other.timestamp, other.writer, r) then other else r
  }

  class LWWRegister<V> {
    const nodeID: string
    var value: Option<V>
    var timestamp: int
    var writerID: string

    function View(): Reg<V>
      reads this
    {
      Reg(value, timestamp, writerID)
    }

    constructor (nodeID: string)
      ensures this.nodeID == nodeID && View() == Initial()
    {
      this.nodeID := nodeID;
      value := None;
      timestamp := 0;
      writerID := "";
    }

    method SetAt(v: V, ts: int)
      modifies this
      ensures View() == Written(old(View()), nodeID, v, ts)
    {
      if ts > timestamp || (ts == timestamp && Less(writerID, nodeID)) {
        value := Some(v);
        timestamp := ts;
        writerID := nodeID;
      }
    }

    method Merge(other: LWWRegister<V>)
      requires other != this
      modifies this
      ensures View() == Merged(old(View()), other.View())
    {
      if other.timestamp > timestamp {
        value := other.value;
        timestamp := other.timestamp;
        writerID := other.writerID;
      } else if other.timestamp == timestamp && Less(writerID, other.writerID) {
        value := other.value;
        writerID := other.writerID;
      }
    }
  }

  // ---------------------------------------------------------------- runs

  datatype Event<V> = Write(at: nat, value: V, ts: int) | Absorb(at: nat, from: nat)

  /** The replicas, what each has absorbed, and every accepted write. */
  datatype World<!V(==)> = World(regs: seq<Reg<V>>, absorbed: seq<set<Reg<V>>>, accepted: set<Reg<V>>)

  ghost predicate Distinct(ids: seq<string>) {
    forall i, j :: 0 <= i < j < |ids| ==> ids[i] != ids[j]
  }

  predicate IsEvent<V>(n: nat, e: Event<V>) {
    match e
    case Write(at, _, _) => at < n
    case Absorb(at, from) => at < n && from < n && at != from
  }

  ghost function Start<V>(n: nat): World<V> {
    World(seq(n, _ => Initial()), seq(n, _ => {}), {})
  }

  ghost function After<V>(ids: seq<string>, w: World<V>, e: Event<V>): World<V>
    requires |w.regs| == |w.absorbed| == |ids| && IsEvent(|ids|, e)
  {
    match e
    case Write(at, value, ts) =>
      var reg := Written(w.regs[at], ids[at], value, ts);
      if Accepts(w.regs[at], ids[at], ts) then
        World(w.regs[at := reg], w.absorbed[at := w.absorbed[at] + {reg}], w.accepted + {reg})
      else w
    case Absorb(at, from) =>
      World(w.regs[at := Merged(w.regs[at], w.regs[from])],
            w.absorbed[at := w.absorbed[at] + w.absorbed[from]], w.accepted)
  }

  ghost predicate AreEvents<V(!new)>(n: nat, es: seq<Event<V>>) {
    forall k :: 0 <= k < |es| ==> IsEvent(n, es[k])
  }

  ghost function Run<V(!new)>(ids: seq<string>, es: seq<Event<V>>): (w: World<V>)
    requires AreEvents(|ids|, es)
    ensures |w.regs| == |w.absorbed| == |ids|
  {
    if es == [] then Start(|ids|) else After(ids, Run(ids, es[..|es| - 1]), es[|es| - 1])
  }

  // ---------------------------------------------------------------- what holds in every run

  /** reg is the initial value or the latest of the writes. */
  ghost predicate IsLatest<V(!new)>(s: set<Reg<V>>, reg: Reg<V>) {
    if s == {} then reg == Initial()
    else reg in s && forall e :: e in s ==> !Later(e.timestamp, e.writer, reg)
  }

  /** A timestamp and a writer name at most one write. */
  ghost predicate OneEach<V(!new)>(s: set<Reg<V>>) {
    forall a, b :: a in s && b in s && a.timestamp == b.timestamp && a.writer == b.writer ==> a == b
  }

  /** The replica that wrote a write holds it or a later one. */
  ghost predicate WriterHolds<V>(ids: seq<string>, w: World<V>, e: Reg<V>)
    requires |w.regs| == |ids|
  {
    exists i :: 0 <= i < |ids| && ids[i] == e.writer && !Later(e.timestamp, e.writer, w.regs[i])
  }

  ghost predicate Good<V(!new)>(ids: seq<string>, w: World<V>) {
    && |w.regs| == |w.absorbed| == |ids|
    && OneEach(w.accepted)
    && (forall e :: e in w.accepted ==> WriterHolds(ids, w, e) && Later(e.timestamp, e.writer, Initial<V>()))
    && (forall i :: 0 <= i < |ids| ==> w.absorbed[i] <= w.accepted && IsLatest(w.absorbed[i], w.regs[i]))
  }

  lemma LaterTrans<V>(a: Reg<V>, b: Reg<V>, c: Reg<V>)
    requires !Later(a.timestamp, a.writer, b) && !Later(b.timestamp, b.writer, c)
    ensures !Later(a.timestamp, a.writer, c)
  {
    KeyOrder();
  }

  lemma AbsorbLatest<V(!new)>(all: set<Reg<V>>, s: set<Reg<V>>, t: set<Reg<V>>, a: Reg<V>, b: Reg<V>)
    requires OneEach(all) && s <= all && t <= all && IsLatest(s, a) && IsLatest(t, b)
    requires forall e :: e in all ==> Later(e.timestamp, e.writer, Initial<V>())
    ensures IsLatest(s + t, Merged(a, b))
  {
    KeyOrder();
    if s != {} && t != {} {
      forall e | e in s + t ensures !Later(e.timestamp, e.writer, Merged(a, b)) {
        if e in s { LaterTrans(e, a, Merged(a, b)); } else { LaterTrans(e, b, Merged(a, b)); }
      }
    } else if t == {} {
      assert s + t == s;
    } else {
      assert s + t == t;
    }
  }

  /** Two stamps are equal or one is later than the other, and never both. */
  lemma LaterIsTotal<V>(a: Reg<V>, b: Reg<V>)
    ensures Later(a.timestamp, a.writer, b) || Later(b.timestamp, b.writer, a)
            || (a.timestamp == b.timestamp && a.writer == b.writer)
    ensures !(Later(a.timestamp, a.writer, b) && Later(b.timestamp, b.writer, a))
    ensures a.timestamp > b.timestamp ==> Later(a.timestamp, a.writer, b)
  {
    KeyOrder();
  }

  lemma MergedNotEarlier<V>(a: Reg<V>, b: Reg<V>)
    ensures !Later(a.timestamp, a.writer, Merged(a, b))
  {
    KeyOrder();
  }

  lemma GoodAfterAbsorb<V(!new)>(ids: seq<string>, w: World<V>, at: nat, from: nat)
    requires Good(ids, w) && IsEvent<V>(|ids|, Absorb(at, from))
    ensures Good(ids, After(ids, w, Absorb(at, from)))
  {
    var w' := After(ids, w, Absorb(at, from));
    AbsorbLatest(w.accepted, w.absorbed[at], w.absorbed[from], w.regs[at], w.regs[from]);
    MergedNotEarlier(w.regs[at], w.regs[from]);
    forall e | e in w'.accepted ensures WriterHolds(ids, w', e) { StillHolds(ids, w, w', at, e); }
  }

  lemma StillHolds<V>(ids: seq<string>, w: World<V>, w': World<V>, at: nat, e: Reg<V>)
    requires |w.regs| == |w'.regs| == |ids| && at < |ids| && WriterHolds(ids, w, e)
    requires w'.regs == w.regs[at := w'.regs[at]]
    requires !Later(w.regs[at].timestamp, w.regs[at].writer, w'.regs[at])
    ensures WriterHolds(ids, w', e)
  {
    var i :| 0 <= i < |ids| && ids[i] == e.writer && !Later(e.timestamp, e.writer, w.regs[i]);
    if i == at { LaterTrans(e, w.regs[i], w'.regs[i]); }
  }

  lemma AcceptedIsNew<V(!new)>(ids: seq<string>, w: World<V>, at: nat, ts: int, e: Reg<V>)
    requires Distinct(ids) && Good(ids, w) && at < |ids| && Accepts(w.regs[at], ids[at], ts) && e in w.accepted
    ensures e.timestamp != ts || e.writer != ids[at]
  {
    assert WriterHolds(ids, w, e);
    var i :| 0 <= i < |ids| && ids[i] == e.writer && !Later(e.timestamp, e.writer, w.regs[i]);
    if i != at { assert ids[i] != ids[at]; }
  }

  lemma AcceptedIsLater<V>(r: Reg<V>, reg: Reg<V>)
    requires r == Initial() || Later(r.timestamp, r.writer, Initial<V>())
    requires Accepts(r, reg.writer, reg.timestamp)
    ensures Later(reg.timestamp, reg.writer, Initial<V>())
    ensures !Later(r.timestamp, r.writer, reg) && !Later(reg.timestamp, reg.writer, reg)
  {
    KeyOrder();
  }

  lemma WriteLatest<V(!new)>(s: set<Reg<V>>, own: Reg<V>, reg: Reg<V>)
    requires IsLatest(s, own) && !Later(own.timestamp, own.writer, reg) && !Later(reg.timestamp, reg.writer, reg)
    ensures IsLatest(s + {reg}, reg)
  {
    forall e | e in s ensures !Later(e.timestamp, e.writer, reg) { LaterTrans(e, own, reg); }
  }

  lemma WriteOneEach<V(!new)>(ids: seq<string>, w: World<V>, at: nat, reg: Reg<V>)
    requires Distinct(ids) && Good(ids, w) && at < |ids| && reg.writer == ids[at]
    requires Accepts(w.regs[at], ids[at], reg.timestamp)
    ensures OneEach(w.accepted + {reg})
  {
    forall e | e in w.accepted ensures e.timestamp != reg.timestamp || e.writer != reg.writer {
      AcceptedIsNew(ids, w, at, reg.timestamp, e);
    }
  }

  lemma WriteHeld<V(!new)>(ids: seq<string>, w: World<V>, w': World<V>, at: nat, e: Reg<V>)
    requires Good(ids, w) && |w'.regs| == |ids| && at < |ids| && w'.regs == w.regs[at := w'.regs[at]]
    requires w'.regs[at].writer == ids[at] && e in w.accepted + {w'.regs[at]}
    requires !Later(w.regs[at].timestamp, w.regs[at].writer, w'.regs[at])
    requires !Later(w'.regs[at].timestamp, w'.regs[at].writer, w'.regs[at])
    ensures WriterHolds(ids, w', e)
  {
    if e in w.accepted { StillHolds(ids, w, w', at, e); } else { assert ids[at] == e.writer; }
  }

  lemma GoodAfterWrite<V(!new)>(ids: seq<string>, w: World<V>, at: nat, value: V, ts: int)
    requires Distinct(ids) && Good(ids, w) && at < |ids|
    ensures Good(ids, After(ids, w, Write(at, value, ts)))
  {
    if Accepts(w.regs[at], ids[at], ts) {
      var w' := After(ids, w, Write(at, value, ts));
      var reg := Reg(Some(value), ts, ids[at]);
      assert IsLatest(w.absorbed[at], w.regs[at]);
      AcceptedIsLater(w.regs[at], reg);
      WriteLatest(w.absorbed[at], w.regs[at], reg);
      WriteOneEach(ids, w, at, reg);
      forall e | e in w'.accepted ensures WriterHolds(ids, w', e) { WriteHeld(ids, w, w', at, e); }
    }
  }

  lemma {:induction false} AlwaysGood<V(!new)>(ids: seq<string>, es: seq<Event<V>>)
    requires Distinct(ids) && AreEvents(|ids|, es)
    ensures Good(ids, Run(ids, es))
  {
    if es != [] {
      var n := |es| - 1;
      AlwaysGood(ids, es[..n]);
      var w := Run(ids, es[..n]);
      match es[n]
      case Write(at, value, ts) => GoodAfterWrite(ids, w, at, value, ts);
      case Absorb(at, from) => GoodAfterAbsorb(ids, w, at, from);
    }
  }

  // ---------------------------------------------------------------- theorems

  /** In every run a timestamp and a writer name at most one accepted write. */
  lemma OneValueEach<V(!new)>(ids: seq<string>, es: seq<Event<V>>, a: Reg<V>, b: Reg<V>)
    requires Distinct(ids) && AreEvents(|ids|, es)
    requires a in Run(ids, es).accepted && b in Run(ids, es).accepted
    requires a.timestamp == b.timestamp && a.writer == b.writer
    ensures a.value == b.value
  {
    AlwaysGood(ids, es);
  }

  /** In every run a replica holds the latest of the accepted writes that it has absorbed. */
  lemma HoldsLatest<V(!new)>(ids: seq<string>, es: seq<Event<V>>, i: nat)
    requires Distinct(ids) && AreEvents(|ids|, es) && i < |ids|
    ensures var w := Run(ids, es);
            w.absorbed[i] <= w.accepted && IsLatest(w.absorbed[i], w.regs[i])
  {
    AlwaysGood(ids, es);
  }

  /** A write is in the register, value, time and writer, unless the register holds one that is not earlier. */
  lemma WriteIsTaken<V>(r: Reg<V>, node: string, value: V, ts: int)
    ensures var r' := Written(r, node, value, ts);
            && !Later(ts, node, r')
            && (r' == r || r' == Reg(Some(value), ts, node))
            && (r' == r <==> !Later(ts, node, r))
  {
    KeyOrder();
  }

  /** Replicas that have absorbed the same writes are equal, in whatever order they absorbed them. */
  lemma Convergence<V(!new)>(ids: seq<string>, es: seq<Event<V>>, i: nat, j: nat)
    requires Distinct(ids) && AreEvents(|ids|, es) && i < |ids| && j < |ids|
    requires Run(ids, es).absorbed[i] == Run(ids, es).absorbed[j]
    ensures Run(ids, es).regs[i] == Run(ids, es).regs[j]
  {
    AlwaysGood(ids, es);
    var w := Run(ids, es);
    assert IsLatest(w.absorbed[i], w.regs[i]) && IsLatest(w.absorbed[j], w.regs[j]);
    KeyOrder();
  }

  /** A replica had this value at some time in the run. */
  ghost predicate Seen<V(!new)>(ids: seq<string>, es: seq<Event<V>>, r: Reg<V>)
    requires AreEvents(|ids|, es)
  {
    exists k, i :: 0 <= k <= |es| && 0 <= i < |ids| && HadAt(ids, es, k, i, r)
  }

  ghost predicate HadAt<V(!new)>(ids: seq<string>, es: seq<Event<V>>, k: nat, i: nat, r: Reg<V>)
    requires AreEvents(|ids|, es) && k <= |es| && i < |ids|
  {
    Run(ids, es[..k]).regs[i] == r
  }

  lemma {:induction false} AcceptedGrows<V(!new)>(ids: seq<string>, es: seq<Event<V>>, k: nat)
    requires AreEvents(|ids|, es) && k <= |es|
    ensures Run(ids, es[..k]).accepted <= Run(ids, es).accepted
  {
    if k < |es| {
      AcceptedGrows(ids, es[..|es| - 1], k);
      assert es[..|es| - 1][..k] == es[..k];
    } else {
      assert es[..k] == es;
    }
  }

  lemma SeenIsAccepted<V(!new)>(ids: seq<string>, es: seq<Event<V>>, r: Reg<V>)
    requires Distinct(ids) && AreEvents(|ids|, es) && Seen(ids, es, r)
    ensures r == Initial() || r in Run(ids, es).accepted
  {
    var k, i :| 0 <= k <= |es| && 0 <= i < |ids| && HadAt(ids, es, k, i, r);
    HoldsLatest(ids, es[..k], i);
    AcceptedGrows(ids, es, k);
  }

  /** Two values seen in a run with the same timestamp and writer are equal. */
  lemma SeenOneEach<V(!new)>(ids: seq<string>, es: seq<Event<V>>, a: Reg<V>, b: Reg<V>)
    requires Distinct(ids) && AreEvents(|ids|, es) && Seen(ids, es, a) && Seen(ids, es, b)
    requires a.timestamp == b.timestamp && a.writer == b.writer
    ensures a == b
  {
    AlwaysGood(ids, es);
    SeenIsAccepted(ids, es, a);
    SeenIsAccepted(ids, es, b);
    KeyOrder();
  }

  /** On the values seen in a run, merging is commutative, associative and idempotent. */
  lemma MergeLaws<V(!new)>(ids: seq<string>, es: seq<Event<V>>, a: Reg<V>, b: Reg<V>, c: Reg<V>)
    requires Distinct(ids) && AreEvents(|ids|, es) && Seen(ids, es, a) && Seen(ids, es, b) && Seen(ids, es, c)
    ensures Merged(a, b) == Merged(b, a)
    ensures Merged(a, Merged(b, c)) == Merged(Merged(a, b), c)
    ensures Merged(a, a) == a
  {
    KeyOrder();
    if a.timestamp == b.timestamp && a.writer == b.writer { SeenOneEach(ids, es, a, b); }
  }

  lemma OneMore<V(!new)>(ids: seq<string>, es: seq<Event<V>>, e: Event<V>)
    requires AreEvents(|ids|, es) && IsEvent(|ids|, e)
    ensures AreEvents(|ids|, es + [e]) && Run(ids, es + [e]) == After(ids, Run(ids, es), e)
  {
    assert (es + [e])[..|es|] == es;
  }

  /** Without distinct ids they need not converge: two replicas named alike write at one time, merge with
      each other, and keep different values. */
  lemma NeedsDistinctIds()
    ensures var ids, es := ["a", "a"], [Write(0, 1, 5), Write(1, 2, 5), Absorb(0, 1), Absorb(1, 0)];
            && AreEvents(|ids|, es)
            && Run(ids, es).absorbed[0] == Run(ids, es).absorbed[1]
            && Run(ids, es).regs[0].value != Run(ids, es).regs[1].value
  {
    var ids := ["a", "a"];
    var e0: Event<int>, e1: Event<int>, e2: Event<int>, e3: Event<int> :=
      Write(0, 1, 5), Write(1, 2, 5), Absorb(0, 1), Absorb(1, 0);
    var x, y := Reg(Some(1), 5, "a"), Reg(Some(2), 5, "a");
    OneMore(ids, [], e0);
    OneMore(ids, [] + [e0], e1);
    OneMore(ids, [] + [e0] + [e1], e2);
    OneMore(ids, [] + [e0] + [e1] + [e2], e3);
    LessIrreflexive("a");
    var w1 := Run(ids, [] + [e0]);
    assert w1.regs == [x, Initial()] && w1.absorbed[0] == {x} && w1.absorbed[1] == {};
    var w2 := Run(ids, [] + [e0] + [e1]);
    assert w2.regs == [x, y] && w2.absorbed[0] == {x} && w2.absorbed[1] == {y};
    var w3 := Run(ids, [] + [e0] + [e1] + [e2]);
    assert w3.regs == [x, y] && w3.absorbed[0] == {x, y} && w3.absorbed[1] == {y};
    assert [e0, e1, e2, e3] == [] + [e0] + [e1] + [e2] + [e3];
  }
}
