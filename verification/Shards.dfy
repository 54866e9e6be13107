/** A table of shards that tile the key space, as a value. */
module Shards {
  import opened Keys
  import opened Sorting

  datatype Shard = Shard(id: nat, start: Key, end: Key, group: nat, leader: string, version: nat)

  predicate Contains(s: Shard, key: Key) {
    if s.start != "" && Less(key, s.start) then false
    else if s.end != "" && !Less(key, s.end) then false
    else true
  }

  /** The shard has no keys. */
  predicate Hollow(s: Shard) {
    s.end != "" && !Less(s.start, s.end)
  }

  ghost predicate Follows(ss: seq<Shard>, i: nat, j: nat)
    requires i < |ss| && j < |ss|
  {
    !Less(ss[j].start, ss[i].start)
  }

  ghost predicate Joins(ss: seq<Shard>, i: nat)
    requires i + 1 < |ss|
  {
    ss[i].end == ss[i + 1].start && ss[i].end != ""
  }

  ghost predicate Ascends(ss: seq<Shard>) {
    forall i: nat, j: nat {:trigger Follows(ss, i, j)} :: i < j < |ss| ==> Follows(ss, i, j)
  }

  /** The shards are in order, and each ends where the next begins; only the first and last are open.
      Shards with the same start are allowed: all but the last of them are hollow. */
  ghost predicate Tiled(ss: seq<Shard>) {
    && |ss| > 0
    && ss[0].start == "" && ss[|ss| - 1].end == ""
    && Ascends(ss)
    && (forall i: nat {:trigger Joins(ss, i)} :: i + 1 < |ss| ==> Joins(ss, i))
  }

  ghost predicate Rises(ss: seq<Shard>, i: nat, j: nat)
    requires i < |ss| && j < |ss|
  {
    Less(ss[i].start, ss[j].start)
  }

  /** No two shards have the same start. */
  ghost predicate Strict(ss: seq<Shard>) {
    forall i: nat, j: nat {:trigger Rises(ss, i, j)} :: i < j < |ss| ==> Rises(ss, i, j)
  }

  /** The last shard that does not start above the key. */
  ghost predicate Owns(ss: seq<Shard>, i: nat, key: Key) {
    i < |ss| && !Less(key, ss[i].start) && (i + 1 < |ss| ==> Less(key, ss[i + 1].start))
  }

  lemma {:induction false} SomeOwner(ss: seq<Shard>, key: Key, n: nat) returns (i: nat)
    requires Tiled(ss) && 0 < n <= |ss| && (n < |ss| ==> Less(key, ss[n].start))
    ensures Owns(ss, i, key)
    decreases n
  {
    if !Less(key, ss[n - 1].start) {
      i := n - 1;
    } else {
      i := SomeOwner(ss, key, n - 1);
    }
  }

  /** In a tiled table a shard contains a key exactly if it is the owner, and there is one owner. */
  lemma OwnerContains(ss: seq<Shard>, i: nat, key: Key)
    requires Tiled(ss) && i < |ss|
    ensures Contains(ss[i], key) <==> Owns(ss, i, key)
  {
    if i + 1 < |ss| { assert Joins(ss, i); }
  }

  lemma BeyondOwner(ss: seq<Shard>, i: nat, j: nat, key: Key)
    requires Ascends(ss) && Owns(ss, i, key) && i < j < |ss|
    ensures Less(key, ss[j].start)
  {
    if i + 1 < j {
      assert Follows(ss, i + 1, j);
      KeyOrder();
    }
  }

  lemma BeforeOwner(ss: seq<Shard>, i: nat, j: nat, key: Key)
    requires Ascends(ss) && Owns(ss, i, key) && j <= i
    ensures !Less(key, ss[j].start)
  {
    if j < i {
      assert Follows(ss, j, i);
      NotLessTrans(ss[j].start, ss[i].start, key);
    }
  }

  lemma OneOwner(ss: seq<Shard>, i: nat, j: nat, key: Key)
    requires Ascends(ss) && Owns(ss, i, key) && Owns(ss, j, key)
    ensures i == j
  {
    if i < j { BeyondOwner(ss, i, j, key); }
    if j < i { BeyondOwner(ss, j, i, key); }
  }

  /** The key is in exactly one shard. */
  ghost predicate Once(ss: seq<Shard>, key: Key) {
    && (exists i :: 0 <= i < |ss| && Contains(ss[i], key))
    && (forall i, j :: 0 <= i < |ss| && 0 <= j < |ss| && Contains(ss[i], key) && Contains(ss[j], key) ==> i == j)
  }

  /** Every key is in exactly one shard. */
  lemma EveryKeyOnce(ss: seq<Shard>, key: Key)
    requires Tiled(ss)
    ensures Once(ss, key)
  {
    var k := SomeOwner(ss, key, |ss|);
    OwnerContains(ss, k, key);
    forall i, j | 0 <= i < |ss| && 0 <= j < |ss| && Contains(ss[i], key) && Contains(ss[j], key) ensures i == j {
      OwnerContains(ss, i, key);
      OwnerContains(ss, j, key);
      OneOwner(ss, i, j, key);
    }
  }

  /** A shard of a tiled table does not end before it starts, and a hollow one ends where it starts. */
  lemma EndsAtOrAbove(ss: seq<Shard>, i: nat)
    requires Tiled(ss) && i < |ss|
    ensures ss[i].end == "" <==> i + 1 == |ss|
    ensures ss[i].start == "" <==> i == 0
    ensures ss[i].end == "" || !Less(ss[i].end, ss[i].start)
    ensures Hollow(ss[i]) <==> ss[i].end != "" && ss[i].end == ss[i].start
  {
    if i > 0 { assert Joins(ss, i - 1); }
    if i + 1 < |ss| { assert Joins(ss, i) && Follows(ss, i, i + 1); }
    KeyOrder();
  }

  // ---------------------------------------------------------------- other orders of the same shards

  ghost predicate Tie(ss: seq<Shard>, i: nat)
    requires i + 1 < |ss|
  {
    ss[i].start == ss[i + 1].start ==> Hollow(ss[i])
  }

  /** Of shards with the same start, all but the last are hollow. */
  ghost predicate TiesInOrder(ss: seq<Shard>) {
    forall i: nat {:trigger Tie(ss, i)} :: i + 1 < |ss| ==> Tie(ss, i)
  }

  /** The last shard that does not start above the key contains it. */
  ghost predicate Finds(ss: seq<Shard>, key: Key) {
    exists i: nat :: Owns(ss, i, key) && Contains(ss[i], key)
  }

  /** The shard with the same start that has keys. */
  lemma GroupEnd(ss: seq<Shard>, x: nat) returns (w: nat)
    requires Tiled(ss) && x < |ss|
    ensures x <= w < |ss| && ss[w].start == ss[x].start && !Hollow(ss[w])
  {
    var s := ss[x].start;
    w := SomeOwner(ss, s, |ss|);
    OwnerContains(ss, w, s);
    LessIrreflexive(s);
    if w < x { BeyondOwner(ss, w, x, s); }
    if x < w { assert Follows(ss, x, w); }
    LessTotal(ss[w].start, s);
  }

  /** The shards of a tiled table, put in any ascending order, are tiled exactly if ties are in order. */
  lemma ArrangedTiled(ss: seq<Shard>, t: seq<Shard>)
    requires Tiled(ss) && Ascends(t) && multiset(ss) == multiset(t)
    ensures Tiled(t) <==> TiesInOrder(t)
  {
    if Tiled(t) {
      forall i: nat {:trigger Tie(t, i)} | i + 1 < |t| ensures Tie(t, i) {
        assert Joins(t, i);
        LessIrreflexive(t[i].start);
      }
    }
    if TiesInOrder(t) {
      ArrangedEnds(ss, t);
      forall i: nat {:trigger Joins(t, i)} | i + 1 < |t| ensures Joins(t, i) { ArrangedJoins(ss, t, i); }
    }
  }

  lemma ArrangedEnds(ss: seq<Shard>, t: seq<Shard>)
    requires Tiled(ss) && Ascends(t) && multiset(ss) == multiset(t) && TiesInOrder(t)
    ensures |t| > 0 && t[0].start == "" && t[|t| - 1].end == ""
  {
    var p := Rearranged(ss, t, 0);
    if p > 0 { assert Follows(t, 0, p); }
    var n := |ss| - 1;
    var q := Rearranged(ss, t, n);
    if q + 1 < |t| {
      var y := Rearranged(t, ss, q + 1);
      if y < n { assert Follows(ss, y, n); }
      assert Follows(t, q, q + 1) && Tie(t, q);
      LessTotal(t[q].start, t[q + 1].start);
    }
  }

  lemma ArrangedJoins(ss: seq<Shard>, t: seq<Shard>, i: nat)
    requires Tiled(ss) && Ascends(t) && multiset(ss) == multiset(t) && TiesInOrder(t) && i + 1 < |t|
    ensures Joins(t, i)
  {
    var x := Rearranged(t, ss, i);
    var y := Rearranged(t, ss, i + 1);
    assert Follows(t, i, i + 1) && Tie(t, i);
    EndsAtOrAbove(ss, x);
    EndsAtOrAbove(ss, y);
    if t[i].start != t[i + 1].start {
      LessTotal(t[i].start, t[i + 1].start);
      assert y < x ==> Follows(ss, y, x);
      assert x < y;
      assert Joins(ss, x);
      if x + 1 < y { assert Follows(ss, x + 1, y); }
      NextComesNext(ss, t, i, x);
      LessTotal(t[i].end, t[i + 1].start);
    }
  }

  /** What starts at the end of shard i does not come before shard i + 1. */
  lemma NextComesNext(ss: seq<Shard>, t: seq<Shard>, i: nat, x: nat)
    requires Tiled(ss) && Ascends(t) && multiset(ss) == multiset(t) && TiesInOrder(t) && i + 1 < |t|
    requires x + 1 < |ss| && t[i] == ss[x] && Less(t[i].start, t[i + 1].start)
    ensures !Less(ss[x + 1].start, t[i + 1].start)
  {
    var q := Rearranged(ss, t, x + 1);
    LastOfTies(ss, t, i, x);
    assert Joins(ss, x);
    KeyOrder();
    assert q < i ==> Follows(t, q, i);
    assert q > i + 1 ==> Follows(t, i + 1, q);
  }

  /** The last of those with the same start has keys. */
  lemma LastOfTies(ss: seq<Shard>, t: seq<Shard>, i: nat, x: nat)
    requires Tiled(ss) && Ascends(t) && multiset(ss) == multiset(t) && TiesInOrder(t) && i + 1 < |t|
    requires x < |ss| && t[i] == ss[x] && Less(t[i].start, t[i + 1].start)
    ensures !Hollow(t[i])
  {
    var w := GroupEnd(ss, x);
    var r := Rearranged(ss, t, w);
    assert r > i + 1 ==> Follows(t, i + 1, r);
    assert r < i ==> Follows(t, r, r + 1) && Tie(t, r);
    assert r + 1 < i ==> Follows(t, r + 1, i);
    KeyOrder();
  }

  /** With the shards of a tiled table in any ascending order, the search finds every key exactly if ties
      are in order. */
  lemma ArrangedFinds(ss: seq<Shard>, t: seq<Shard>)
    requires Tiled(ss) && Ascends(t) && multiset(ss) == multiset(t)
    ensures (forall key :: Finds(t, key)) <==> TiesInOrder(t)
  {
    if TiesInOrder(t) {
      ArrangedTiled(ss, t);
      forall key ensures Finds(t, key) { TiledFinds(t, key); }
    }
    if forall key :: Finds(t, key) {
      forall i: nat {:trigger Tie(t, i)} | i + 1 < |t| ensures Tie(t, i) {
        assert Finds(t, t[i].start);
        if t[i].start == t[i + 1].start && !Hollow(t[i]) { NotFound(ss, t, i); }
      }
    }
  }

  lemma TiledFinds(ss: seq<Shard>, key: Key)
    requires Tiled(ss)
    ensures Finds(ss, key)
  {
    var i := SomeOwner(ss, key, |ss|);
    OwnerContains(ss, i, key);
  }

  /** If a shard with keys comes before another with the same start, its own start is not found. */
  lemma NotFound(ss: seq<Shard>, t: seq<Shard>, i: nat)
    requires Tiled(ss) && Ascends(t) && multiset(ss) == multiset(t)
    requires i + 1 < |t| && t[i].start == t[i + 1].start && !Hollow(t[i])
    ensures !Finds(t, t[i].start)
  {
    var s := t[i].start;
    forall j: nat | Owns(t, j, s) ensures !Contains(t[j], s) {
      if j < i { assert Follows(t, j + 1, i + 1); }
      LessIrreflexive(s);
      if Contains(t[j], s) { TwiceContained(ss, t, i, j, s); }
    }
  }

  lemma TwiceContained(ss: seq<Shard>, t: seq<Shard>, i: nat, j: nat, key: Key)
    requires Tiled(ss) && multiset(ss) == multiset(t) && i < |t| && j < |t|
    requires Contains(t[i], key) && Contains(t[j], key)
    ensures i == j
  {
    var x := Rearranged(t, ss, i);
    var y := Rearranged(t, ss, j);
    EveryKeyOnce(ss, key);
    assert t[i] == t[j];
    if i != j {
      RepeatCounts(t, if i < j then i else j, if i < j then j else i);
      var a, b := CountRepeats(ss, t[i]);
    }
  }

  /** Shards with different starts can be put in one ascending order only. */
  lemma OneArrangement(ss: seq<Shard>, t: seq<Shard>)
    requires Strict(ss) && Ascends(t) && multiset(ss) == multiset(t)
    ensures ss == t
  {
    var start := (s: Shard) => s.start;
    forall i, j | 0 <= i < j < |ss| ensures Less(start(ss[i]), start(ss[j])) { assert Rises(ss, i, j); }
    forall i, j | 0 <= i < j < |t| ensures !Less(start(t[j]), start(t[i])) { assert Follows(t, i, j); }
    OneOrder(ss, t, start, Less);
  }

  // ---------------------------------------------------------------- whatever order the sort leaves

  ghost predicate Arranges(ss: seq<Shard>, t: seq<Shard>) {
    Ascends(t) && multiset(ss) == multiset(t)
  }

  /** Every key is in exactly one shard, and the search finds it. */
  ghost predicate Serves(ss: seq<Shard>) {
    forall key :: Once(ss, key) && Finds(ss, key)
  }

  /** A tiled table serves in every ascending order exactly if no two starts are equal. */
  lemma AnyOrderServes(ss: seq<Shard>)
    requires Tiled(ss)
    ensures (forall t :: Arranges(ss, t) ==> Serves(t)) <==> Strict(ss)
  {
    if Strict(ss) {
      forall t | Arranges(ss, t) ensures Serves(t) {
        OneArrangement(ss, t);
        TiledServes(ss);
      }
    } else {
      var i: nat, j: nat :| i < j < |ss| && !Rises(ss, i, j);
      var t := BadOrder(ss, i, j);
      assert Arranges(ss, t);
    }
  }

  lemma TiledServes(ss: seq<Shard>)
    requires Tiled(ss)
    ensures Serves(ss)
  {
    forall key ensures Once(ss, key) && Finds(ss, key) {
      EveryKeyOnce(ss, key);
      TiledFinds(ss, key);
    }
  }

  /** If two starts are equal, some ascending order puts the shard with keys before a hollow one. */
  lemma BadOrder(ss: seq<Shard>, i: nat, j: nat) returns (t: seq<Shard>)
    requires Tiled(ss) && i < j < |ss| && !Rises(ss, i, j)
    ensures Arranges(ss, t) && !Serves(t)
  {
    var w := TiedGroup(ss, i, j);
    t := ss[i := ss[w]][w := ss[i]];
    SwapCounts(ss, i, w);
    forall a: nat, b: nat {:trigger Follows(t, a, b)} | a < b < |t| ensures Follows(t, a, b) {
      assert Follows(ss, a, b);
    }
    NotFound(ss, t, i);
  }

  lemma TiedGroup(ss: seq<Shard>, i: nat, j: nat) returns (w: nat)
    requires Tiled(ss) && i < j < |ss| && !Rises(ss, i, j)
    ensures i < w < |ss| && ss[w].start == ss[i].start == ss[i + 1].start && Hollow(ss[i]) && !Hollow(ss[w])
  {
    assert Follows(ss, i, j) && Follows(ss, i, i + 1) && Joins(ss, i);
    if i + 1 < j { assert Follows(ss, i + 1, j); }
    KeyOrder();
    EndsAtOrAbove(ss, i);
    w := GroupEnd(ss, i);
  }

  // ---------------------------------------------------------------- split and merge

  function SplitAt(ss: seq<Shard>, k: nat, key: Key, id: nat, group: nat): seq<Shard>
    requires k < |ss|
  {
    ss[..k]
    + [ss[k].(end := key, version := ss[k].version + 1), Shard(id, key, ss[k].end, group, "", 1)]
    + ss[k + 1..]
  }

  /** One shard has become two: the lower keeps its name and what belongs to it, in a new version, and the upper is
      a new shard without a leader.  All others are as they were. */
  ghost predicate SplitUp(ss: seq<Shard>, k: nat, key: Key, id: nat, group: nat, t: seq<Shard>)
    requires k < |ss|
  {
    var s := ss[k];
    var lower := Shard(s.id, s.start, key, s.group, s.leader, s.version + 1);
    var upper := Shard(id, key, s.end, group, "", 1);
    multiset(t) == multiset(ss) - multiset{s} + multiset{lower} + multiset{upper}
  }

  lemma SplitIsUp(ss: seq<Shard>, k: nat, key: Key, id: nat, group: nat, t: seq<Shard>)
    requires k < |ss| && multiset(t) == multiset(SplitAt(ss, k, key, id, group))
    ensures SplitUp(ss, k, key, id, group, t)
  {
    assert ss == ss[..k] + [ss[k]] + ss[k + 1..];
    var u := SplitAt(ss, k, key, id, group);
    assert u == ss[..k] + [u[k]] + [u[k + 1]] + ss[k + 1..];
  }

  /** A split at a key the shard contains leaves the table tiled exactly if the key is not "". */
  lemma SplitTiles(ss: seq<Shard>, k: nat, key: Key, id: nat, group: nat)
    requires Tiled(ss) && k < |ss| && Contains(ss[k], key)
    ensures Tiled(SplitAt(ss, k, key, id, group)) <==> key != ""
  {
    var t := SplitAt(ss, k, key, id, group);
    if key != "" {
      forall i: nat, j: nat {:trigger Follows(t, i, j)} | i < j < |t| ensures Follows(t, i, j) {
        SplitFollows(ss, k, key, id, group, i, j);
      }
      forall i: nat {:trigger Joins(t, i)} | i + 1 < |t| ensures Joins(t, i) {
        if i < k { assert Joins(ss, i); }
        if k + 1 < i { assert Joins(ss, i - 1); }
        if i == k + 1 { assert Joins(ss, k); }
      }
    } else {
      assert !Joins(t, k);
    }
  }

  lemma SplitFollows(ss: seq<Shard>, k: nat, key: Key, id: nat, group: nat, i: nat, j: nat)
    requires Tiled(ss) && k < |ss| && Contains(ss[k], key) && i < j < |ss| + 1
    ensures Follows(SplitAt(ss, k, key, id, group), i, j)
  {
    StartsOfSplit(ss, k, key, id, group, i);
    StartsOfSplit(ss, k, key, id, group, j);
    OwnerContains(ss, k, key);
    KeyOrder();
    if j <= k {
      assert Follows(ss, i, j);
    } else if j == k + 1 {
      if i < k { assert Follows(ss, i, k); }
    } else if i == k + 1 {
      BeyondOwner(ss, k, j - 1, key);
    } else {
      assert Follows(ss, if i <= k then i else i - 1, j - 1);
    }
  }

  /** After a split all starts differ exactly if they did before and the key is not the start of the
      shard. */
  lemma SplitStrict(ss: seq<Shard>, k: nat, key: Key, id: nat, group: nat)
    requires Tiled(ss) && k < |ss| && Contains(ss[k], key)
    ensures Strict(SplitAt(ss, k, key, id, group)) <==> Strict(ss) && key != ss[k].start
  {
    var t := SplitAt(ss, k, key, id, group);
    if Strict(ss) && key != ss[k].start {
      forall i: nat, j: nat {:trigger Rises(t, i, j)} | i < j < |t| ensures Rises(t, i, j) {
        SplitRises(ss, k, key, id, group, i, j);
      }
    }
    if key == ss[k].start {
      LessIrreflexive(key);
      assert !Rises(t, k, k + 1);
    }
    if Strict(t) {
      forall i: nat, j: nat {:trigger Rises(ss, i, j)} | i < j < |ss| ensures Rises(ss, i, j) {
        var a, b := if i <= k then i else i + 1, if j <= k then j else j + 1;
        StartsOfSplit(ss, k, key, id, group, a);
        StartsOfSplit(ss, k, key, id, group, b);
        assert Rises(t, a, b);
      }
    }
  }

  lemma SplitRises(ss: seq<Shard>, k: nat, key: Key, id: nat, group: nat, i: nat, j: nat)
    requires Tiled(ss) && Strict(ss) && k < |ss| && Contains(ss[k], key) && key != ss[k].start && i < j < |ss| + 1
    ensures Rises(SplitAt(ss, k, key, id, group), i, j)
  {
    StartsOfSplit(ss, k, key, id, group, i);
    StartsOfSplit(ss, k, key, id, group, j);
    OwnerContains(ss, k, key);
    LessTotal(key, ss[k].start);
    if j <= k {
      assert Rises(ss, i, j);
    } else if j == k + 1 {
      if i < k {
        assert Rises(ss, i, k);
        LessTrans(ss[i].start, ss[k].start, key);
      }
    } else if i == k + 1 {
      BeyondOwner(ss, k, j - 1, key);
    } else {
      assert Rises(ss, if i <= k then i else i - 1, j - 1);
    }
  }

  lemma StartsOfSplit(ss: seq<Shard>, k: nat, key: Key, id: nat, group: nat, i: nat)
    requires k < |ss| && i < |ss| + 1
    ensures SplitAt(ss, k, key, id, group)[i].start
            == if i <= k then ss[i].start else if i == k + 1 then key else ss[i - 1].start
  {}

  /** The two parts of a split shard have its keys between them, each in one part, unless the split is at
      the empty key: then the left part, which becomes open at its end, has every key. */
  lemma SplitParts(s: Shard, split: Key, id: nat, group: nat, key: Key)
    requires Contains(s, split)
    ensures var left, right := s.(end := split, version := s.version + 1), Shard(id, split, s.end, group, "", 1);
            if split == "" then Contains(left, key) && (Contains(right, key) <==> Contains(s, key))
            else (Contains(s, key) <==> Contains(left, key) || Contains(right, key))
                 && !(Contains(left, key) && Contains(right, key))
  {
    KeyOrder();
  }

  /** What a caller can check before a split: the shards serve afterwards, whatever order the sort leaves,
      exactly if all starts differ and the key is not the start of the shard. */
  lemma SplitServes(ss: seq<Shard>, k: nat, key: Key, id: nat, group: nat)
    requires Tiled(ss) && k < |ss| && Contains(ss[k], key)
    ensures (forall t :: Arranges(SplitAt(ss, k, key, id, group), t) ==> Serves(t))
            <==> Strict(ss) && key != ss[k].start
  {
    var split := SplitAt(ss, k, key, id, group);
    SplitTiles(ss, k, key, id, group);
    SplitStrict(ss, k, key, id, group);
    EndsAtOrAbove(ss, k);
    if key != "" {
      AnyOrderServes(split);
    } else {
      forall i: nat, j: nat {:trigger Follows(split, i, j)} | i < j < |split| ensures Follows(split, i, j) {
        SplitFollows(ss, k, key, id, group, i, j);
      }
      assert Arranges(split, split);
      EmptySplitTwice(ss, k, id, group, split);
    }
  }

  // A split at the start of a shard, of a table in which all starts differ: the left part is hollow and the
  // only tie is between the two parts.

  ghost predicate SplitsAtStart(ss: seq<Shard>, k: nat, t: seq<Shard>, id: nat, group: nat) {
    && Tiled(ss) && Strict(ss) && k < |ss| && ss[k].start != ""
    && Ascends(t) && multiset(SplitAt(ss, k, ss[k].start, id, group)) == multiset(t)
  }

  lemma PartsAtStart(ss: seq<Shard>, k: nat, id: nat, group: nat)
    requires Tiled(ss) && Strict(ss) && k < |ss| && ss[k].start != ""
    ensures Contains(ss[k], ss[k].start) && Tiled(SplitAt(ss, k, ss[k].start, id, group))
    ensures var split := SplitAt(ss, k, ss[k].start, id, group); Hollow(split[k]) && !Hollow(split[k + 1])
  {
    EndsAtOrAbove(ss, k);
    LessIrreflexive(ss[k].start);
    if k + 1 < |ss| { assert Joins(ss, k) && Rises(ss, k, k + 1); }
    SplitTiles(ss, k, ss[k].start, id, group);
  }

  lemma OnlyTie(ss: seq<Shard>, k: nat, id: nat, group: nat, x: nat, y: nat)
    requires Tiled(ss) && Strict(ss) && k < |ss| && x < y < |ss| + 1
    requires var split := SplitAt(ss, k, ss[k].start, id, group); split[x].start == split[y].start
    ensures x == k && y == k + 1
  {
    var key := ss[k].start;
    StartsOfSplit(ss, k, key, id, group, x);
    StartsOfSplit(ss, k, key, id, group, y);
    var a, b := if x <= k then x else x - 1, if y <= k then y else y - 1;
    LessIrreflexive(ss[a].start);
    assert a < b ==> Rises(ss, a, b);
  }

  lemma LeftOnce(ss: seq<Shard>, k: nat, t: seq<Shard>, id: nat, group: nat, p: nat, q: nat)
    requires SplitsAtStart(ss, k, t, id, group) && p < |t| && q < |t|
    requires t[p] == t[q] == SplitAt(ss, k, ss[k].start, id, group)[k]
    ensures p == q
  {
    if p != q {
      RepeatCounts(t, if p < q then p else q, if p < q then q else p);
      var x, y := CountRepeats(SplitAt(ss, k, ss[k].start, id, group), t[p]);
      OnlyTie(ss, k, id, group, x, y);
      PartsAtStart(ss, k, id, group);
    }
  }

  /** After a split at the start of a shard the search finds every key exactly if the sort leaves the hollow
      left part before the new shard. */
  lemma SplitAtStart(ss: seq<Shard>, k: nat, t: seq<Shard>, id: nat, group: nat, a: nat, b: nat)
    requires SplitsAtStart(ss, k, t, id, group) && a < |t| && b < |t|
    requires t[a] == SplitAt(ss, k, ss[k].start, id, group)[k] && t[b] == SplitAt(ss, k, ss[k].start, id, group)[k + 1]
    ensures (forall key :: Finds(t, key)) <==> a < b
  {
    var split := SplitAt(ss, k, ss[k].start, id, group);
    PartsAtStart(ss, k, id, group);
    ArrangedFinds(split, t);
    if a < b {
      forall i: nat {:trigger Tie(t, i)} | i + 1 < |t| ensures Tie(t, i) { TieAtStart(ss, k, t, id, group, a, b, i); }
    } else if TiesInOrder(t) {
      assert Tie(t, b);
      if b + 1 < a { assert Follows(t, b + 1, a); }
      assert Follows(t, b, b + 1);
      LessTotal(t[b].start, t[b + 1].start);
    }
  }

  lemma TieAtStart(ss: seq<Shard>, k: nat, t: seq<Shard>, id: nat, group: nat, a: nat, b: nat, i: nat)
    requires SplitsAtStart(ss, k, t, id, group) && a < b < |t| && i + 1 < |t|
    requires t[a] == SplitAt(ss, k, ss[k].start, id, group)[k] && t[b] == SplitAt(ss, k, ss[k].start, id, group)[k + 1]
    ensures Tie(t, i)
  {
    var split := SplitAt(ss, k, ss[k].start, id, group);
    PartsAtStart(ss, k, id, group);
    LessIrreflexive(t[i].start);
    if t[i].start == t[i + 1].start && !Hollow(t[i]) {
      var x := Rearranged(t, split, i);
      var y := Rearranged(t, split, i + 1);
      if x < y {
        OnlyTie(ss, k, id, group, x, y);
      } else if y < x {
        OnlyTie(ss, k, id, group, y, x);
        TwiceContained(split, t, i, b, t[i].start);
        LeftOnce(ss, k, t, id, group, a, i + 1);
      } else {
        TwiceContained(split, t, i, i + 1, t[i].start);
      }
    }
  }

  /** Two shards of which the first ends where the second starts have their keys in the merged one. */
  lemma MergeParts(a: Shard, b: Shard, key: Key)
    requires a.end == b.start && a.end != ""
    requires !Less(a.end, a.start) && (b.end == "" || !Less(b.end, b.start))
    ensures Contains(a.(end := b.end, version := a.version + 1), key) <==> Contains(a, key) || Contains(b, key)
  {
    KeyOrder();
  }

  /** In whatever order they are put, the shards after a split share out the keys exactly if the split was
      not at "". */
  lemma SplitPartitions(ss: seq<Shard>, k: nat, key: Key, id: nat, group: nat, t: seq<Shard>)
    requires Tiled(ss) && k < |ss| && Contains(ss[k], key)
    requires multiset(t) == multiset(SplitAt(ss, k, key, id, group))
    ensures (forall q :: Once(t, q)) <==> key != ""
  {
    var split := SplitAt(ss, k, key, id, group);
    if key != "" {
      SplitTiles(ss, k, key, id, group);
      forall q ensures Once(t, q) {
        EveryKeyOnce(split, q);
        var i :| 0 <= i < |split| && Contains(split[i], q);
        var j := Rearranged(split, t, i);
        forall a, b | 0 <= a < |t| && 0 <= b < |t| && Contains(t[a], q) && Contains(t[b], q) ensures a == b {
          TwiceContained(split, t, a, b, q);
        }
      }
    } else {
      EmptySplitTwice(ss, k, id, group, t);
    }
  }

  lemma EmptySplitTwice(ss: seq<Shard>, k: nat, id: nat, group: nat, t: seq<Shard>)
    requires Tiled(ss) && k < |ss| && Contains(ss[k], "") && multiset(t) == multiset(SplitAt(ss, k, "", id, group))
    ensures !Once(t, "")
  {
    var split := SplitAt(ss, k, "", id, group);
    var left, right := split[k], split[k + 1];
    assert Contains(left, "") && Contains(right, "");
    var i := Rearranged(split, t, k);
    var j := Rearranged(split, t, k + 1);
    if i == j {
      RepeatCounts(split, k, k + 1);
      var a, b := CountRepeats(t, left);
    }
  }

  lemma NotOnce(ss: seq<Shard>)
    requires !(forall key :: Once(ss, key))
    ensures !Tiled(ss)
  {
    var key :| !Once(ss, key);
    if Tiled(ss) { EveryKeyOnce(ss, key); }
  }

  /** Merging the last shard with the first is allowed, since both bounds are "", and loses exactly the keys
      of the two. */
  lemma MergeLastWithFirst(ss: seq<Shard>, key: Key)
    requires Tiled(ss)
    ensures ss[|ss| - 1].end == ss[0].start
    ensures var t := MergeOf(ss, |ss| - 1, 0);
            (exists i :: 0 <= i < |t| && Contains(t[i], key))
            <==> !Contains(ss[0], key) && !Contains(ss[|ss| - 1], key)
  {
    var n := |ss| - 1;
    var t := MergeOf(ss, n, 0);
    if n > 0 { GrownLastIsHollow(ss, key); }
    EveryKeyOnce(ss, key);
    var x :| 0 <= x < |ss| && Contains(ss[x], key);
    if 0 < x < n { assert t[x - 1] == ss[x]; }
    if i :| 0 <= i < |t| && Contains(t[i], key) { assert i + 1 < n ==> t[i] == ss[i + 1]; }
  }

  lemma GrownLastIsHollow(ss: seq<Shard>, key: Key)
    requires Tiled(ss) && |ss| > 1
    ensures var n := |ss| - 1; !Contains(ss[n].(end := ss[0].end, version := ss[n].version + 1), key)
  {
    var n := |ss| - 1;
    assert Joins(ss, 0);
    if n > 1 { assert Follows(ss, 1, n); }
    KeyOrder();
  }

  /** Shard k takes over the end of shard j. */
  function Grown(ss: seq<Shard>, k: nat, j: nat): (t: seq<Shard>)
    requires k < |ss| && j < |ss|
    ensures |t| == |ss|
  {
    ss[k := ss[k].(end := ss[j].end, version := ss[k].version + 1)]
  }

  /** Shard k takes over the end of shard j, which is dropped. */
  function MergeOf(ss: seq<Shard>, k: nat, j: nat): seq<Shard>
    requires k < |ss| && j < |ss|
  {
    Grown(ss, k, j)[..j] + Grown(ss, k, j)[j + 1..]
  }

  /** The shards whose id is not `id`, in order. */
  function Dropped(ss: seq<Shard>, id: nat): seq<Shard> {
    if ss == [] then []
    else Dropped(ss[..|ss| - 1], id) + if ss[|ss| - 1].id == id then [] else [ss[|ss| - 1]]
  }

  /** Two shards have become one: the first, in a new version and with the end of the second, which is gone.  All
      others are as they were. */
  ghost predicate Joined(ss: seq<Shard>, k: nat, j: nat, t: seq<Shard>)
    requires k < |ss| && j < |ss|
  {
    var s := ss[k];
    var all := ss[k := Shard(s.id, s.start, ss[j].end, s.group, s.leader, s.version + 1)];
    |t| == |ss| - 1 && (forall i :: 0 <= i < j ==> t[i] == all[i]) && (forall i :: j <= i < |t| ==> t[i] == all[i + 1])
  }

  lemma MergeIsJoined(ss: seq<Shard>, k: nat, j: nat)
    requires k < |ss| && j < |ss|
    ensures Joined(ss, k, j, MergeOf(ss, k, j))
  {}

  /** Merging a shard with one that starts where it ends leaves the table tiled exactly if that bound is
      not "" and the second is its neighbour or hollow. */
  lemma MergeTiles(ss: seq<Shard>, k: nat, j: nat)
    requires Tiled(ss) && k < |ss| && j < |ss| && ss[k].end == ss[j].start
    ensures Tiled(MergeOf(ss, k, j)) <==> ss[k].end != "" && (j == k + 1 || Hollow(ss[j]))
  {
    EndsAtOrAbove(ss, k);
    EndsAtOrAbove(ss, j);
    if ss[k].end == "" {
      if |ss| > 1 { EndsAtOrAbove(ss, 1); }
    } else if j == k + 1 {
      MergeNeighbour(ss, k);
    } else if Hollow(ss[j]) {
      MergeHollow(ss, k, j);
    } else {
      MergeAcross(ss, k, j);
    }
  }

  /** After a merge every key is in exactly one shard exactly if the common bound is not "". */
  lemma MergeOnce(ss: seq<Shard>, k: nat, j: nat)
    requires Tiled(ss) && k < |ss| && j < |ss| && ss[k].end == ss[j].start
    ensures (forall key :: Once(MergeOf(ss, k, j), key)) <==> ss[k].end != ""
  {
    var t := MergeOf(ss, k, j);
    MergeTiles(ss, k, j);
    if ss[k].end == "" {
      EmptyKeyLost(ss, k, j);
    } else if j == k + 1 || Hollow(ss[j]) {
      TiledServes(t);
    } else {
      forall key ensures Once(t, key) { AcrossOnce(ss, k, j, key); }
    }
  }

  /** After a merge the search finds every key exactly if, besides, the second shard was the neighbour of the
      first or hollow. */
  lemma MergeFinds(ss: seq<Shard>, k: nat, j: nat)
    requires Tiled(ss) && k < |ss| && j < |ss| && ss[k].end == ss[j].start
    ensures (forall key :: Finds(MergeOf(ss, k, j), key)) <==> ss[k].end != "" && (j == k + 1 || Hollow(ss[j]))
  {
    var t := MergeOf(ss, k, j);
    MergeTiles(ss, k, j);
    if ss[k].end == "" {
      EmptyKeyLost(ss, k, j);
    } else if j == k + 1 || Hollow(ss[j]) {
      TiledServes(t);
    } else {
      AcrossHides(ss, k, j);
    }
  }

  lemma EmptyKeyLost(ss: seq<Shard>, k: nat, j: nat)
    requires Tiled(ss) && k < |ss| && j < |ss| && ss[k].end == ss[j].start == ""
    ensures !Once(MergeOf(ss, k, j), "") && !Finds(MergeOf(ss, k, j), "")
  {
    var t := MergeOf(ss, k, j);
    EndsAtOrAbove(ss, j);
    forall i | 0 <= i < |t| ensures Less("", t[i].start) {
      EndsAtOrAbove(ss, i + 1);
      assert t[i].start == ss[i + 1].start;
    }
  }

  /** Only hollow shards lie between a shard and another, with keys, that starts where it ends. */
  lemma Across(ss: seq<Shard>, k: nat, j: nat)
    requires Tiled(ss) && k < |ss| && j < |ss| && ss[k].end == ss[j].start
    requires ss[k].end != "" && j != k + 1 && !Hollow(ss[j])
    ensures k + 1 < j && forall x :: k < x < j ==> ss[x].start == ss[j].start && Hollow(ss[x])
    ensures j + 1 < |ss| ==> Less(ss[j].start, ss[j + 1].start)
  {
    EndsAtOrAbove(ss, k);
    EndsAtOrAbove(ss, j);
    KeyOrder();
    assert j < k ==> Follows(ss, j, k) && Joins(ss, j);
    assert j + 1 < k ==> Follows(ss, j + 1, k);
    assert Joins(ss, k);
    forall x | k < x < j ensures ss[x].start == ss[j].start && Hollow(ss[x]) {
      assert Follows(ss, x, j) && Joins(ss, x);
      assert k + 1 < x ==> Follows(ss, k + 1, x);
      assert x + 1 < j ==> Follows(ss, x + 1, j) && Follows(ss, x, x + 1);
    }
    if j + 1 < |ss| { assert Joins(ss, j); }
  }

  lemma AcrossHides(ss: seq<Shard>, k: nat, j: nat)
    requires Tiled(ss) && k < |ss| && j < |ss| && ss[k].end == ss[j].start
    requires ss[k].end != "" && j != k + 1 && !Hollow(ss[j])
    ensures !Finds(MergeOf(ss, k, j), ss[j].start)
  {
    var t, s := MergeOf(ss, k, j), ss[j].start;
    Across(ss, k, j);
    assert t[j - 1] == ss[j - 1];
    KeyOrder();
    forall i: nat ensures Owns(t, i, s) ==> i == j - 1 {
      if i < j - 1 {
        assert t[i + 1].start == ss[i + 1].start && Follows(ss, i + 1, j);
      } else if j - 1 < i < |t| {
        assert t[i] == ss[i + 1];
        assert i > j ==> Follows(ss, j + 1, i + 1);
      }
    }
  }

  lemma AcrossOnce(ss: seq<Shard>, k: nat, j: nat, key: Key)
    requires Tiled(ss) && k < |ss| && j < |ss| && ss[k].end == ss[j].start
    requires ss[k].end != "" && j != k + 1 && !Hollow(ss[j])
    ensures Once(MergeOf(ss, k, j), key)
  {
    var t := MergeOf(ss, k, j);
    Across(ss, k, j);
    EndsAtOrAbove(ss, k);
    EndsAtOrAbove(ss, j);
    MergeParts(ss[k], ss[j], key);
    EveryKeyOnce(ss, key);
    var x :| 0 <= x < |ss| && Contains(ss[x], key);
    var p := if x == j then k else if x < j then x else x - 1;
    assert Contains(t[p], key);
    forall i | 0 <= i < |t| && Contains(t[i], key) ensures i == p {
      if i != k { assert t[i] == ss[if i < j then i else i + 1]; }
    }
  }

  lemma MergeNeighbour(ss: seq<Shard>, k: nat)
    requires Tiled(ss) && k + 1 < |ss|
    ensures Tiled(MergeOf(ss, k, k + 1))
  {
    var t := MergeOf(ss, k, k + 1);
    forall a: nat, b: nat {:trigger Follows(t, a, b)} | a < b < |t| ensures Follows(t, a, b) {
      assert Follows(ss, if a <= k then a else a + 1, if b <= k then b else b + 1);
    }
    forall i: nat {:trigger Joins(t, i)} | i + 1 < |t| ensures Joins(t, i) {
      assert Joins(ss, if i < k then i else i + 1);
    }
  }

  lemma MergeHollow(ss: seq<Shard>, k: nat, j: nat)
    requires Tiled(ss) && k < |ss| && j < |ss| && ss[k].end == ss[j].start && Hollow(ss[j])
    ensures Tiled(MergeOf(ss, k, j))
  {
    var t := MergeOf(ss, k, j);
    EndsAtOrAbove(ss, j);
    assert forall i :: 0 <= i < |t| ==>
             var o := ss[if i < j then i else i + 1]; t[i].start == o.start && t[i].end == o.end;
    forall a: nat, b: nat {:trigger Follows(t, a, b)} | a < b < |t| ensures Follows(t, a, b) {
      assert Follows(ss, if a < j then a else a + 1, if b < j then b else b + 1);
    }
    assert Joins(ss, j - 1) && Joins(ss, j);
    forall i: nat {:trigger Joins(t, i)} | i + 1 < |t| ensures Joins(t, i) {
      if i + 1 != j { assert Joins(ss, if i < j then i else i + 1); }
    }
  }

  lemma MergeAcross(ss: seq<Shard>, k: nat, j: nat)
    requires Tiled(ss) && k < |ss| && j < |ss| && ss[k].end == ss[j].start
    requires ss[k].end != "" && j != k + 1 && !Hollow(ss[j])
    ensures !Tiled(MergeOf(ss, k, j))
  {
    var t := MergeOf(ss, k, j);
    Across(ss, k, j);
    assert t[k].end == ss[j].end && t[k + 1] == ss[k + 1];
    LessIrreflexive(ss[j].start);
    assert !Joins(t, k);
  }

  /** Merging back what a split made gives the shard its old range, and so the old owner for every key. */
  lemma MergeUndoesSplit(ss: seq<Shard>, k: nat, key: Key, id: nat, group: nat)
    requires k < |ss|
    ensures MergeOf(SplitAt(ss, k, key, id, group), k, k + 1) == ss[k := ss[k].(version := ss[k].version + 2)]
  {}

  // ---------------------------------------------------------------- ranges

  /** The shard has a key of the range. */
  ghost predicate Meets(s: Shard, start: Key, end: Key) {
    exists key :: Contains(s, key) && InRange(key, start, end)
  }

  function Larger(a: Key, b: Key): Key {
    if Less(a, b) then b else a
  }

  /** A shard of a tiled table meets a range exactly if it has keys, ends above the range's start and
      starts below its end. */
  lemma MeetsIff(ss: seq<Shard>, i: nat, start: Key, end: Key)
    requires Tiled(ss) && i < |ss| && (end == "" || Less(start, end))
    ensures Meets(ss[i], start, end)
            <==> !Hollow(ss[i]) && (i + 1 == |ss| || Less(start, ss[i + 1].start))
                 && (end == "" || Less(ss[i].start, end))
  {
    var k := Larger(start, ss[i].start);
    if i + 1 < |ss| { assert Joins(ss, i); }
    if !Hollow(ss[i]) && (i + 1 == |ss| || Less(start, ss[i + 1].start)) && (end == "" || Less(ss[i].start, end)) {
      KeyOrder();
      assert Contains(ss[i], k) && InRange(k, start, end);
    }
    if Meets(ss[i], start, end) {
      var key :| Contains(ss[i], key) && InRange(key, start, end);
      OwnerContains(ss, i, key);
      NotBelow(key, start, if i + 1 < |ss| then ss[i + 1].start else key);
      NotBelow(key, ss[i].start, end);
      NotBelow(key, ss[i].start, ss[i].end);
    }
  }

  /** If a key is not below a and below b, then a is below b. */
  lemma NotBelow(key: Key, a: Key, b: Key)
    requires !Less(key, a)
    ensures Less(key, b) ==> Less(a, b)
  {
    KeyOrder();
    if Less(key, b) && key != a { assert Less(a, key); }
  }

  /** What `RouteRange` asks of one shard: the range cut to the shard. */
  function ClipStart(s: Shard, start: Key): Key {
    if Less(start, s.start) then s.start else start
  }

  function ClipEnd(s: Shard, end: Key): Key {
    if end == "" || (s.end != "" && Less(s.end, end)) then s.end else end
  }

  /** The clipped range holds exactly the keys of the range that the shard contains. */
  lemma ClipExact(s: Shard, start: Key, end: Key, key: Key)
    ensures InRange(key, ClipStart(s, start), ClipEnd(s, end)) <==> InRange(key, start, end) && Contains(s, key)
  {
    KeyOrder();
  }
}
