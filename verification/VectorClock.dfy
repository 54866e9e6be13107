/** Vector clocks, kept in place, and their exactness over every run. */
module VectorClocks {

  /** Node names are only compared for equality, so the model numbers them. */
  type Name = nat

  type Vector = map<Name, int>

  datatype Relation = Before | After | Concurrent | Equal

  /** A missing component counts as 0. */
  function At(v: Vector, node: Name): int {
    if node in v then v[node] else 0
  }

  function Names(node: Name, peers: seq<Name>): set<Name> {
    {node} + set p | p in peers
  }

  function Zeros(node: Name, peers: seq<Name>): Vector {
    map k | k in Names(node, peers) :: 0
  }

  function Ticked(v: Vector, node: Name): Vector {
    v[node := At(v, node) + 1]
  }

  /** Take the larger component for every node of `r` in `done`. */
  function MergedOver(v: Vector, r: Vector, done: set<Name>): Vector {
    map k | k in v.Keys + (r.Keys * done) ::
      if k in r && k in done && (k !in v || r[k] > v[k]) then r[k] else v[k]
  }

  lemma MergedOneMore(v: Vector, r: Vector, done: set<Name>, k: Name)
    requires k in r && k !in done
    ensures var m := MergedOver(v, r, done);
            MergedOver(v, r, done + {k}) == if k !in m || r[k] > m[k] then m[k := r[k]] else m
  {}

  function Received(v: Vector, r: Vector, node: Name): Vector {
    Ticked(MergedOver(v, r, r.Keys), node)
  }

  ghost predicate Below(a: Vector, b: Vector) {
    forall k :: At(a, k) <= At(b, k)
  }

  /** The order of two vectors, component by component. */
  ghost function Order(a: Vector, b: Vector): Relation {
    if Below(a, b) && Below(b, a) then Equal
    else if Below(a, b) then Before
    else if Below(b, a) then After
    else Concurrent
  }

  class VectorClock {
    const nodeID: Name
    var vector: Vector

    constructor (node: Name, peers: seq<Name>)
      ensures nodeID == node && vector == Zeros(node, peers)
      ensures forall k :: k in vector <==> k == node || k in peers
      ensures forall k :: k in vector ==> vector[k] == 0
    {
      nodeID := node;
      vector := map[node := 0];
      new;
      for i := 0 to |peers|
        invariant vector == Zeros(node, peers[..i])
      {
        assert peers[..i + 1] == peers[..i] + [peers[i]];
        vector := vector[peers[i] := 0];
      }
      assert peers[..|peers|] == peers;
    }

    method Tick() returns (now: Vector)
      requires nodeID in vector
      modifies this
      ensures vector == Ticked(old(vector), nodeID) && now == vector
    {
      vector := vector[nodeID := vector[nodeID] + 1];
      return vector;
    }

    method Send() returns (now: Vector)
      requires nodeID in vector
      modifies this
      ensures vector == Ticked(old(vector), nodeID) && now == vector
    {
      vector := vector[nodeID := vector[nodeID] + 1];
      return vector;
    }

    method Receive(received: Vector) returns (now: Vector)
      requires nodeID in vector
      modifies this
      ensures vector == Received(old(vector), received, nodeID) && now == vector
    {
      MergeIn(received);
      vector := vector[nodeID := vector[nodeID] + 1];
      return vector;
    }

    /** The larger of each component. */
    method MergeIn(received: Vector)
      modifies this
      ensures vector == MergedOver(old(vector), received, received.Keys)
    {
      var todo := received.Keys;
      ghost var was, done: set<Name> := vector, {};
      while todo != {}
        invariant done !! todo && done + todo == received.Keys
        invariant vector == MergedOver(was, received, done)
        decreases todo
      {
        var k :| k in todo;
        MergedOneMore(was, received, done, k);
        if k !in vector || received[k] > vector[k] {
          vector := vector[k := received[k]];
        }
        todo, done := todo - {k}, done + {k};
      }
      assert done == received.Keys;
    }
  }

  /** Some component among `done` is smaller in a than in b. */
  ghost predicate LessInSome(a: Vector, b: Vector, done: set<Name>) {
    exists k :: k in done && At(a, k) < At(b, k)
  }

  lemma LessInOneMore(a: Vector, b: Vector, done: set<Name>, node: Name)
    ensures LessInSome(a, b, done + {node}) <==> LessInSome(a, b, done) || At(a, node) < At(b, node)
  {
    if At(a, node) < At(b, node) { assert node in done + {node}; }
    if LessInSome(a, b, done) {
      var k :| k in done && At(a, k) < At(b, k);
      assert k in done + {node};
    }
  }

  lemma LessIsNotBelow(a: Vector, b: Vector, done: set<Name>)
    ensures LessInSome(a, b, done) ==> !Below(b, a)
    ensures done == a.Keys + b.Keys && !LessInSome(a, b, done) ==> Below(b, a)
  {
    if done == a.Keys + b.Keys && !LessInSome(a, b, done) {
      forall k ensures At(b, k) <= At(a, k) {
        if k in done { assert !(At(a, k) < At(b, k)); }
      }
    }
  }

  /** Looks at the components in any order and stops as soon as the answer is known. */
  method Compare(a: Vector, b: Vector) returns (r: Relation)
    ensures r == Order(a, b)
  {
    var todo := a.Keys + b.Keys;
    ghost var done: set<Name> := {};
    var aLess, bLess := false, false;
    while todo != {}
      invariant done + todo == a.Keys + b.Keys
      invariant aLess == LessInSome(a, b, done) && bLess == LessInSome(b, a, done)
      invariant !(aLess && bLess)
      decreases |todo|
    {
      var node :| node in todo;
      LessInOneMore(a, b, done, node);
      LessInOneMore(b, a, done, node);
      done := done + {node};
      var aVal, bVal := At(a, node), At(b, node);
      if aVal < bVal {
        aLess := true;
      } else if bVal < aVal {
        bLess := true;
      }
      if aLess && bLess {
        BothLess(a, b, done);
        return Concurrent;
      }
      todo := todo - {node};
    }
    LessIsNotBelow(a, b, done);
    LessIsNotBelow(b, a, done);
    if !aLess && !bLess {
      return Equal;
    }
    if aLess {
      return Before;
    }
    return After;
  }

  lemma BothLess(a: Vector, b: Vector, done: set<Name>)
    requires LessInSome(a, b, done) && LessInSome(b, a, done)
    ensures Order(a, b) == Concurrent
  {}

  // ---------------------------------------------------------------- runs

  /** An event at a node; a receipt names the send event whose vector arrives. */
  datatype Event = Tick(node: Name) | Send(node: Name) | Receive(node: Name, from: nat)

  ghost predicate IsRun(run: seq<Event>) {
    forall i :: 0 <= i < |run| && run[i].Receive? ==> run[i].from < i && run[run[i].from].Send?
  }

  /** How many of the first i events are at a node. */
  ghost function Count(run: seq<Event>, i: nat, node: Name): nat
    requires i <= |run|
  {
    if i == 0 then 0 else Count(run, i - 1, node) + if run[i - 1].node == node then 1 else 0
  }

  /** The vector of a node before event i. */
  ghost function Clock(run: seq<Event>, peers: map<Name, seq<Name>>, i: nat, node: Name): Vector
    requires IsRun(run) && i <= |run|
    decreases i, 0
  {
    if i == 0 then Zeros(node, if node in peers then peers[node] else [])
    else if run[i - 1].node == node then Stamp(run, peers, i - 1)
    else Clock(run, peers, i - 1, node)
  }

  /** The vector that event i leaves and returns. */
  ghost function Stamp(run: seq<Event>, peers: map<Name, seq<Name>>, i: nat): Vector
    requires IsRun(run) && i < |run|
    decreases i, 1
  {
    var e := run[i];
    var v := Clock(run, peers, i, e.node);
    if e.Receive? then Received(v, Stamp(run, peers, e.from), e.node) else Ticked(v, e.node)
  }

  /** Event k is an immediate cause of event j: earlier on the same node, or the send that j receives. */
  ghost predicate Cause(run: seq<Event>, k: nat, j: nat)
    requires k < j < |run|
  {
    run[k].node == run[j].node || (run[j].Receive? && run[j].from == k)
  }

  /** Happened-before: a chain of causes leads from i to j. */
  ghost predicate HappenedBefore(run: seq<Event>, i: nat, j: nat)
    requires i < |run| && j < |run|
    decreases j
  {
    exists k :: i <= k < j && Cause(run, k, j) && (k == i || HappenedBefore(run, i, k))
  }

  // ---------------------------------------------------------------- what a component counts

  lemma {:induction false} CountGrows(run: seq<Event>, i: nat, j: nat, node: Name)
    requires i <= j <= |run|
    ensures Count(run, i, node) <= Count(run, j, node)
    decreases j
  {
    if i < j { CountGrows(run, i, j - 1, node); }
  }

  /** No vector is ahead of what has happened at a node, and a node's own component is exact. */
  lemma {:induction false} StampCounts(run: seq<Event>, peers: map<Name, seq<Name>>, i: nat, node: Name)
    requires IsRun(run) && i < |run|
    ensures 0 <= At(Stamp(run, peers, i), node) <= Count(run, i + 1, node)
    ensures node == run[i].node ==> At(Stamp(run, peers, i), node) == Count(run, i + 1, node)
    decreases i, 1
  {
    ClockCounts(run, peers, i, node);
    if run[i].Receive? {
      var f := run[i].from;
      StampCounts(run, peers, f, node);
      CountGrows(run, f + 1, i, node);
    }
  }

  lemma {:induction false} ClockCounts(run: seq<Event>, peers: map<Name, seq<Name>>, i: nat, node: Name)
    requires IsRun(run) && i <= |run|
    ensures forall own :: 0 <= At(Clock(run, peers, i, own), node) <= Count(run, i, node)
    ensures At(Clock(run, peers, i, node), node) == Count(run, i, node)
    decreases i, 0
  {
    if i > 0 {
      StampCounts(run, peers, i - 1, node);
      ClockCounts(run, peers, i - 1, node);
    }
  }

  lemma ReceivedAbove(v: Vector, r: Vector, node: Name)
    requires forall k :: At(v, k) >= 0 && At(r, k) >= 0
    ensures Below(v, Received(v, r, node)) && Below(r, Received(v, r, node))
  {
    var m := MergedOver(v, r, r.Keys);
    forall k ensures At(v, k) <= At(m, k) && At(r, k) <= At(m, k) {
      assert At(v, k) >= 0 && At(r, k) >= 0;
    }
  }

  /** An event's vector is above the clock it starts from and above what it receives. */
  lemma StampAbove(run: seq<Event>, peers: map<Name, seq<Name>>, j: nat)
    requires IsRun(run) && j < |run|
    ensures Below(Clock(run, peers, j, run[j].node), Stamp(run, peers, j))
    ensures run[j].Receive? ==> Below(Stamp(run, peers, run[j].from), Stamp(run, peers, j))
  {
    var v := Clock(run, peers, j, run[j].node);
    forall k ensures At(v, k) >= 0 { ClockCounts(run, peers, j, k); }
    if run[j].Receive? {
      var r := Stamp(run, peers, run[j].from);
      forall k ensures At(v, k) >= 0 && At(r, k) >= 0 { StampCounts(run, peers, run[j].from, k); }
      ReceivedAbove(v, r, run[j].node);
    }
  }

  /** A cause's vector is below its effect's. */
  lemma {:induction false} CauseBelow(run: seq<Event>, peers: map<Name, seq<Name>>, k: nat, j: nat)
    requires IsRun(run) && k < j < |run| && Cause(run, k, j)
    ensures Below(Stamp(run, peers, k), Stamp(run, peers, j))
  {
    StampAbove(run, peers, j);
    if run[k].node == run[j].node { ClockAbove(run, peers, k, j); }
  }

  lemma {:induction false} ClockAbove(run: seq<Event>, peers: map<Name, seq<Name>>, k: nat, i: nat)
    requires IsRun(run) && k < i <= |run|
    ensures Below(Stamp(run, peers, k), Clock(run, peers, i, run[k].node))
    decreases i
  {
    if k < i - 1 {
      ClockAbove(run, peers, k, i - 1);
      StampAbove(run, peers, i - 1);
    }
  }

  lemma {:induction false} PastBelow(run: seq<Event>, peers: map<Name, seq<Name>>, i: nat, j: nat)
    requires IsRun(run) && i < |run| && j < |run| && HappenedBefore(run, i, j)
    ensures i < j && Below(Stamp(run, peers, i), Stamp(run, peers, j))
    decreases j
  {
    var k :| i <= k < j && Cause(run, k, j) && (k == i || HappenedBefore(run, i, k));
    CauseBelow(run, peers, k, j);
    if k != i { PastBelow(run, peers, i, k); }
  }

  /** Appending a cause to a chain. */
  lemma Chain(run: seq<Event>, i: nat, k: nat, j: nat)
    requires i <= k < j < |run| && Cause(run, k, j) && (i == k || HappenedBefore(run, i, k))
    ensures HappenedBefore(run, i, j)
  {}

  /** Every positive component of event j's vector is the count at some event of that node in j's past. */
  lemma {:induction false} Witness(run: seq<Event>, peers: map<Name, seq<Name>>, j: nat, node: Name) returns (i: nat)
    requires IsRun(run) && j < |run| && At(Stamp(run, peers, j), node) > 0
    ensures i <= j && run[i].node == node && Count(run, i + 1, node) == At(Stamp(run, peers, j), node)
    ensures i == j || HappenedBefore(run, i, j)
    decreases j, 1
  {
    var e := run[j];
    StampCounts(run, peers, j, node);
    if node == e.node {
      i := j;
    } else if e.Receive? && At(Stamp(run, peers, e.from), node) == At(Stamp(run, peers, j), node) {
      i := Witness(run, peers, e.from, node);
      Chain(run, i, e.from, j);
    } else {
      var k := ClockSource(run, peers, j, e.node, node);
      i := Witness(run, peers, k, node);
      Chain(run, i, k, j);
    }
  }

  /** A positive component of a node's clock comes from its latest event. */
  lemma {:induction false} ClockSource(run: seq<Event>, peers: map<Name, seq<Name>>, j: nat, own: Name, node: Name)
    returns (k: nat)
    requires IsRun(run) && j <= |run| && At(Clock(run, peers, j, own), node) > 0
    ensures k < j && run[k].node == own && Stamp(run, peers, k) == Clock(run, peers, j, own)
    decreases j, 0
  {
    if run[j - 1].node == own {
      k := j - 1;
    } else {
      k := ClockSource(run, peers, j - 1, own, node);
    }
  }

  /** Event j has seen event i exactly when its component for i's node has reached i's count. */
  lemma SeenExactly(run: seq<Event>, peers: map<Name, seq<Name>>, i: nat, j: nat)
    requires IsRun(run) && i < |run| && j < |run|
    ensures (i == j || HappenedBefore(run, i, j))
            <==> At(Stamp(run, peers, i), run[i].node) <= At(Stamp(run, peers, j), run[i].node)
  {
    var p := run[i].node;
    StampCounts(run, peers, i, p);
    if i != j && HappenedBefore(run, i, j) {
      PastBelow(run, peers, i, j);
    }
    if At(Stamp(run, peers, i), p) <= At(Stamp(run, peers, j), p) {
      var w := Witness(run, peers, j, p);
      if w < i { CountGrows(run, w + 1, i, p); }
      if i < w { Extend(run, i, w, j); }
    }
  }

  /** Earlier on the node of an event in the past is in the past. */
  lemma {:induction false} Extend(run: seq<Event>, i: nat, w: nat, j: nat)
    requires i < w <= j < |run| && run[i].node == run[w].node && (w == j || HappenedBefore(run, w, j))
    ensures HappenedBefore(run, i, j)
    decreases j
  {
    if w == j {
      Chain(run, i, i, j);
    } else {
      var k :| w <= k < j && Cause(run, k, j) && (k == w || HappenedBefore(run, w, k));
      Extend(run, i, w, k);
      Chain(run, i, k, j);
    }
  }

  /** The order of two events' vectors is exactly the order in which they happened. */
  lemma ClocksAreExact(run: seq<Event>, peers: map<Name, seq<Name>>, i: nat, j: nat)
    requires IsRun(run) && i < |run| && j < |run| && i != j
    ensures var r := Order(Stamp(run, peers, i), Stamp(run, peers, j));
            && (r == Before <==> HappenedBefore(run, i, j))
            && (r == After <==> HappenedBefore(run, j, i))
            && (r == Concurrent <==> !HappenedBefore(run, i, j) && !HappenedBefore(run, j, i))
            && r != Equal
  {
    SeenExactly(run, peers, i, j);
    SeenExactly(run, peers, j, i);
    if HappenedBefore(run, i, j) { PastBelow(run, peers, i, j); }
    if HappenedBefore(run, j, i) { PastBelow(run, peers, j, i); }
  }
}
