/** Routing a range scan: the clipped requests tile the range. */
module Routers {
  import opened Keys
  import opened Shards
  import opened ShardMaps

  /** The part of a range that one shard is asked for. */
  datatype Request = Request(start: Key, end: Key, shard: nat)

  ghost predicate Asks(r: Request, key: Key) {
    InRange(key, r.start, r.end)
  }

  /** The request asks for keys. */
  ghost predicate Filled(r: Request) {
    r.end == "" || Less(r.start, r.end)
  }

  /** The requests are the range, cut into adjoining pieces.  A piece is empty exactly if its shard is
      hollow. */
  ghost predicate TilesRange(rs: seq<Request>, ss: seq<Shard>, lo: nat, start: Key, end: Key)
    requires lo + |rs| <= |ss|
  {
    && |rs| > 0
    && rs[0].start == start && rs[|rs| - 1].end == end
    && (forall i :: 0 <= i < |rs| - 1 ==> rs[i].end == rs[i + 1].start && rs[i].end != "")
    && (forall i :: 0 <= i < |rs| ==> (Filled(rs[i]) <==> !Hollow(ss[lo + i])))
  }

  /** Every key of the range is asked of exactly one shard, which contains it, and no other key is. */
  ghost predicate CoversOnce(rs: seq<Request>, ss: seq<Shard>, lo: nat, start: Key, end: Key)
    requires lo + |rs| <= |ss|
  {
    && (forall i :: 0 <= i < |rs| ==> rs[i].shard == ss[lo + i].id)
    && (forall key :: InRange(key, start, end) ==> exists i :: 0 <= i < |rs| && Asks(rs[i], key))
    && (forall key, i, j :: 0 <= i < |rs| && 0 <= j < |rs| && Asks(rs[i], key) && Asks(rs[j], key) ==> i == j)
    && (forall key, i {:trigger Asks(rs[i], key)} :: 0 <= i < |rs| && Asks(rs[i], key) ==>
          InRange(key, start, end) && Contains(ss[lo + i], key))
  }

  /** The request asks the shard for its part of the range. */
  ghost predicate AsksPart(r: Request, s: Shard, start: Key, end: Key) {
    r.shard == s.id && forall key :: Asks(r, key) <==> InRange(key, start, end) && Contains(s, key)
  }

  lemma ClipAsks(s: Shard, start: Key, end: Key)
    ensures AsksPart(Clip(s, start, end), s, start, end)
  {
    forall key ensures Asks(Clip(s, start, end), key) <==> InRange(key, start, end) && Contains(s, key) {
      ClipExact(s, start, end, key);
    }
  }

  function Clip(s: Shard, start: Key, end: Key): Request {
    Request(ClipStart(s, start), ClipEnd(s, end), s.id)
  }

  method RouteRange(sm: ShardMap, start: Key, end: Key) returns (ok: bool, rs: seq<Request>, ghost lo: nat)
    requires Ascending(sm.shards)
    ensures ok <==> |sm.shards| > 0
    ensures sm.Valid() && (end == "" || Less(start, end)) ==>
              ok && lo + |rs| <= |sm.table| && TilesRange(rs, sm.table, lo, start, end)
              && CoversOnce(rs, sm.table, lo, start, end)
    ensures ok && Says(sm.shards, sm.table) ==>
              lo + |rs| <= |sm.table| && forall i :: 0 <= i < |rs| ==> AsksPart(rs[i], sm.table[lo + i], start, end)
    ensures sm.Valid() && (end == "" || Less(start, end)) ==> AskRight(sm, rs)
  {
    rs, lo := [], 0;
    var found, shards, from, to := sm.LookupRange(start, end);
    if !found {
      return false, [], 0;
    }
    ok, lo := true, from;
    for i := 0 to |shards|
      invariant |rs| == i && forall j :: 0 <= j < i ==> rs[j] == Clip(shards[j].Value(), start, end)
    {
      var shard := shards[i];
      var reqStart := start;
      if Less(reqStart, shard.StartKey) {
        reqStart := shard.StartKey;
      }
      var reqEnd := end;
      if end == "" || (shard.EndKey != "" && Less(shard.EndKey, end)) {
        reqEnd := shard.EndKey;
      }
      rs := rs + [Request(reqStart, reqEnd, shard.ShardID)];
    }
    if Says(sm.shards, sm.table) { ClipsOfTable(sm, shards, rs, lo, start, end); }
    if sm.Valid() && (end == "" || Less(start, end)) { Routed(sm, rs, start, end, from, to); }
  }

  lemma ClipsOfTable(sm: ShardMap, shards: seq<ShardDescriptor>, rs: seq<Request>, lo: nat, start: Key, end: Key)
    requires Says(sm.shards, sm.table) && lo + |rs| <= |sm.shards| && shards == sm.shards[lo..lo + |rs|]
    requires forall j :: 0 <= j < |rs| ==> rs[j] == Clip(shards[j].Value(), start, end)
    ensures forall j :: 0 <= j < |rs| ==> rs[j] == Clip(sm.table[lo + j], start, end)
    ensures forall j :: 0 <= j < |rs| ==> AsksPart(rs[j], sm.table[lo + j], start, end)
  {
    forall j | 0 <= j < |rs|
      ensures rs[j] == Clip(sm.table[lo + j], start, end) && AsksPart(rs[j], sm.table[lo + j], start, end)
    {
      assert shards[j] == sm.shards[lo + j] && sm.shards[lo + j].Value() == sm.table[lo + j];
      ClipAsks(sm.table[lo + j], start, end);
    }
  }

  lemma Routed(sm: ShardMap, rs: seq<Request>, start: Key, end: Key, lo: nat, hi: nat)
    requires sm.Valid() && Found(sm.table, start, end, lo, hi) && |rs| == hi - lo
    requires forall j :: 0 <= j < |rs| ==> rs[j] == Clip(sm.table[lo + j], start, end)
    ensures TilesRange(rs, sm.table, lo, start, end) && CoversOnce(rs, sm.table, lo, start, end)
    ensures AskRight(sm, rs)
  {
    ClipsTile(sm.table, start, end, lo, hi, rs);
    ClipsCover(sm.table, start, end, lo, hi, rs);
    forall i, key, d | 0 <= i < |rs| && Asks(rs[i], key) && d in sm.shards && Contains(d.Value(), key)
      ensures rs[i].shard == d.ShardID
    {
      AskedOfOwner(sm, rs, lo, start, end, i, key, d);
    }
  }

  /** Whoever contains a key that is asked for is asked. */
  ghost predicate AskRight(sm: ShardMap, rs: seq<Request>)
    reads sm, sm.shards
  {
    forall i, key, d :: 0 <= i < |rs| && Asks(rs[i], key) && d in sm.shards && Contains(d.Value(), key) ==>
      rs[i].shard == d.ShardID
  }

  /** The shard that is asked for a key is the one that contains it, and so the one that a lookup finds. */
  lemma AskedOfOwner(sm: ShardMap, rs: seq<Request>, lo: nat, start: Key, end: Key, i: nat, key: Key,
                     d: ShardDescriptor)
    requires sm.Valid() && lo + |rs| <= |sm.table| && CoversOnce(rs, sm.table, lo, start, end)
    requires i < |rs| && Asks(rs[i], key) && d in sm.shards && Contains(d.Value(), key)
    ensures rs[i].shard == d.ShardID
  {
    var j :| 0 <= j < |sm.shards| && sm.shards[j] == d;
    assert sm.shards[j].Value() == sm.table[j];
    EveryKeyOnce(sm.table, key);
    assert InRange(key, start, end) && Contains(sm.table[lo + i], key);
  }

  // ---------------------------------------------------------------- why

  ghost predicate Found(ss: seq<Shard>, start: Key, end: Key, lo: nat, hi: nat) {
    && Tiled(ss) && (end == "" || Less(start, end))
    && Reaches(ss, start, end, lo, hi)
    && (forall i :: 0 <= i < |ss| ==> (Meets(ss[i], start, end) <==> lo <= i < hi && !Hollow(ss[i])))
  }

  lemma SomeFound(ss: seq<Shard>, start: Key, end: Key, lo: nat, hi: nat)
    requires Found(ss, start, end, lo, hi)
    ensures lo < hi
  {
    NotBelow(start, ss[lo].start, end);
  }

  lemma ClipsTile(ss: seq<Shard>, start: Key, end: Key, lo: nat, hi: nat, rs: seq<Request>)
    requires Found(ss, start, end, lo, hi) && |rs| == hi - lo
    requires forall j :: 0 <= j < |rs| ==> rs[j] == Clip(ss[lo + j], start, end)
    ensures TilesRange(rs, ss, lo, start, end)
  {
    SomeFound(ss, start, end, lo, hi);
    forall i | 0 <= i < |rs| - 1 ensures rs[i].end == rs[i + 1].start && rs[i].end != "" {
      InnerEdge(ss, start, end, lo, hi, lo + i);
    }
    LastEdge(ss, start, end, lo, hi);
    forall i | 0 <= i < |rs| ensures Filled(rs[i]) <==> !Hollow(ss[lo + i]) {
      FilledPiece(ss, start, end, lo, hi, lo + i);
    }
  }

  lemma InnerEdge(ss: seq<Shard>, start: Key, end: Key, lo: nat, hi: nat, i: nat)
    requires Found(ss, start, end, lo, hi) && lo <= i && i + 1 < hi
    ensures ClipEnd(ss[i], end) == ss[i].end == ss[i + 1].start == ClipStart(ss[i + 1], start)
    ensures ss[i].end != ""
  {
    BeyondOwner(ss, lo, i + 1, start);
    assert Joins(ss, i);
  }

  lemma LastEdge(ss: seq<Shard>, start: Key, end: Key, lo: nat, hi: nat)
    requires Found(ss, start, end, lo, hi) && lo < hi
    ensures ClipEnd(ss[hi - 1], end) == end
  {
    if hi < |ss| { assert Joins(ss, hi - 1); }
  }

  lemma FilledPiece(ss: seq<Shard>, start: Key, end: Key, lo: nat, hi: nat, i: nat)
    requires Found(ss, start, end, lo, hi) && lo <= i < hi
    ensures Filled(Clip(ss[i], start, end)) <==> !Hollow(ss[i])
  {
    var r := Clip(ss[i], start, end);
    if !Hollow(ss[i]) {
      assert Meets(ss[i], start, end);
      var key :| Contains(ss[i], key) && InRange(key, start, end);
      ClipExact(ss[i], start, end, key);
      NotBelow(key, r.start, r.end);
    }
    if Filled(r) {
      LessIrreflexive(r.start);
      assert Asks(r, r.start);
      ClipExact(ss[i], start, end, r.start);
      NotBelow(r.start, ss[i].start, ss[i].end);
    }
  }

  lemma ClipsCover(ss: seq<Shard>, start: Key, end: Key, lo: nat, hi: nat, rs: seq<Request>)
    requires Found(ss, start, end, lo, hi) && |rs| == hi - lo
    requires forall j :: 0 <= j < |rs| ==> rs[j] == Clip(ss[lo + j], start, end)
    ensures CoversOnce(rs, ss, lo, start, end)
  {
    forall key, i | 0 <= i < |rs| && Asks(rs[i], key)
      ensures InRange(key, start, end) && Contains(ss[lo + i], key)
    {
      ClipExact(ss[lo + i], start, end, key);
    }
    forall key | InRange(key, start, end) ensures exists i :: 0 <= i < |rs| && Asks(rs[i], key) {
      EveryKeyOnce(ss, key);
      var k :| 0 <= k < |ss| && Contains(ss[k], key);
      assert Meets(ss[k], start, end);
      ClipExact(ss[k], start, end, key);
      assert Asks(rs[k - lo], key);
    }
    forall key, i, j | 0 <= i < |rs| && 0 <= j < |rs| && Asks(rs[i], key) && Asks(rs[j], key) ensures i == j {
      ClipExact(ss[lo + i], start, end, key);
      ClipExact(ss[lo + j], start, end, key);
      EveryKeyOnce(ss, key);
    }
  }
}
