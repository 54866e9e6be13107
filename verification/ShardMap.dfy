/** The shard map: descriptors shared by an ordered list and an index by id, changed in place. */
module ShardMaps {
  import opened Arithmetic
  import opened Keys
  import opened Sorting
  import opened Shards

  class ShardDescriptor {
    const ShardID: nat
    const StartKey: Key
    var EndKey: Key
    var RaftGroup: nat
    var Leader: string
    var Version: nat

    constructor (s: Shard)
      ensures Value() == s
    {
      ShardID, StartKey, EndKey, RaftGroup, Leader, Version := s.id, s.start, s.end, s.group, s.leader, s.version;
    }

    function Value(): Shard
      reads this
    {
      Shard(ShardID, StartKey, EndKey, RaftGroup, Leader, Version)
    }

    method ContainsKey(key: Key) returns (yes: bool)
      ensures yes <==> Contains(Value(), key)
    {
      if StartKey != "" && Less(key, StartKey) {
        return false;
      }
      if EndKey != "" && !Less(key, EndKey) {
        return false;
      }
      return true;
    }
  }

  /** The descriptors say what the table says. */
  ghost predicate Says(ds: seq<ShardDescriptor>, ss: seq<Shard>)
    reads ds
  {
    |ds| == |ss| && forall i :: 0 <= i < |ds| ==> ds[i].Value() == ss[i]
  }

  ghost function Values(ds: seq<ShardDescriptor>): (ss: seq<Shard>)
    reads ds
    ensures Says(ds, ss)
  {
    seq(|ds|, i requires 0 <= i < |ds| reads ds => ds[i].Value())
  }

  // ---------------------------------------------------------------- sorting by start key

  ghost predicate Ascending(ds: seq<ShardDescriptor>) {
    forall i, j :: 0 <= i < j < |ds| ==> !Less(ds[j].StartKey, ds[i].StartKey)
  }

  method SortByStart(ds: seq<ShardDescriptor>) returns (out: seq<ShardDescriptor>)
    ensures Ascending(out) && multiset(out) == multiset(ds)
  {
    KeyOrder();
    out := Sort(ds, (d: ShardDescriptor) => d.StartKey, Less);
  }

  // ---------------------------------------------------------------- the first table

  /** The character of the i-th cut of the key space into n. */
  function CutCode(n: nat, k: nat): nat
    requires n > 0
  {
    33 + (93 * k) / n
  }

  lemma CutFits(n: nat, k: nat)
    requires 0 < n && k < n
    ensures CutCode(n, k) <= 126
  {
    DivUnique(93 * k, n, (93 * k) / n, (93 * k) % n);
    if (93 * k) / n >= 93 { MulGrows(n, 93, (93 * k) / n); }
  }

  function Cut(n: nat, k: nat): Key
    requires 0 < n && k < n
  {
    CutFits(n, k);
    [CutCode(n, k) as char]
  }

  /** q of the 93 steps from '!' to '~' are as many as fit into k of n equal parts. */
  predicate EvenCut(n: nat, k: nat, q: int) {
    n * q <= 93 * k < n * q + n
  }

  lemma EvenShare(n: nat, k: nat)
    requires 0 < n
    ensures EvenCut(n, k, (93 * k) / n)
  {
    DivBounds(93 * k, n);
  }

  lemma CutAt(n: nat, k: nat, q: int)
    requires 0 < n && k < n && q == (93 * k) / n
    ensures |Cut(n, k)| == 1 && Cut(n, k)[0] as int - '!' as int == q
  {}

  lemma CutIsEven(n: nat, k: nat)
    requires 0 < n && k < n
    ensures |Cut(n, k)| == 1 && EvenCut(n, k, Cut(n, k)[0] as int - '!' as int)
  {
    var q := (93 * k) / n;
    EvenShare(n, k);
    CutAt(n, k, q);
  }

  method ComputeSplitPoints(n: nat) returns (points: seq<Key>)
    ensures |points| == if n <= 1 then 0 else n - 1
    ensures forall i :: 0 <= i < |points| ==> points[i] == Cut(n, i + 1)
    ensures forall i :: 0 <= i < |points| ==> |points[i]| == 1 && EvenCut(n, i + 1, points[i][0] as int - '!' as int)
  {
    points := [];
    if n <= 1 {
      return;
    }
    for i := 0 to n - 1
      invariant |points| == i && forall j :: 0 <= j < i ==> points[j] == Cut(n, j + 1)
    {
      points := points + [Cut(n, i + 1)];
    }
    forall i | 0 <= i < |points|
      ensures |points[i]| == 1 && EvenCut(n, i + 1, points[i][0] as int - '!' as int)
    {
      CutIsEven(n, i + 1);
    }
  }

  function FirstShard(n: nat, i: nat): Shard
    requires i < n
  {
    Shard(i, if i > 0 then Cut(n, i) else "", if i + 1 < n then Cut(n, i + 1) else "", i, "", 1)
  }

  function FirstTable(n: nat): seq<Shard> {
    seq(n, i requires 0 <= i < n => FirstShard(n, i))
  }

  /** Up to 94 shards the cuts rise. */
  lemma CutsRise(n: nat, i: nat, j: nat)
    requires 0 < n <= 94 && 0 < i < j < n
    ensures CutCode(n, i) < CutCode(n, j)
  {
    var q, r := (93 * i) / n, (93 * i) % n;
    if n <= 93 {
      assert n * (q + 1) == n * q + n;
      assert 93 * j >= n * (q + 1);
      DivAtLeast(93 * j, n, q + 1);
    } else {
      DivUnique(93 * i, 94, i - 1, 94 - i);
      DivUnique(93 * j, 94, j - 1, 94 - j);
    }
  }

  /** From 95 shards on two neighbouring cuts coincide. */
  lemma CutsCoincide(n: nat) returns (k: nat)
    requires n >= 95
    ensures 0 < k && k + 1 < n && CutCode(n, k) == CutCode(n, k + 1)
  {
    var d := n - 93;
    k := n / d;
    DivBounds(n, d);
    assert d * k > 0;
    MulGrows(k, 2, d);
    CutsMeet(n, d, k, d * k);
  }

  lemma CutsMeet(n: nat, d: nat, k: nat, p: nat)
    requires n == d + 93 && p == d * k && p <= n < p + d && 0 < k && 2 * k <= p
    ensures k + 1 < n && CutCode(n, k) == CutCode(n, k + 1)
  {
    assert n * k == p + 93 * k;
    assert n * (k - 1) == n * k - n;
    DivUnique(93 * k, n, k - 1, n - p);
    DivUnique(93 * (k + 1), n, k - 1, 2 * n - p - d);
  }

  /** The cuts never fall. */
  lemma CutsAscend(n: nat, i: nat, j: nat)
    requires 0 < n && i <= j
    ensures CutCode(n, i) <= CutCode(n, j)
  {
    DivBounds(93 * i, n);
    DivAtLeast(93 * j, n, (93 * i) / n);
  }

  /** The first table is tiled, whatever the number of shards. */
  lemma FirstTableTiled(n: nat)
    ensures Tiled(FirstTable(n)) == (n >= 1)
  {
    var ss := FirstTable(n);
    if n >= 1 {
      forall i: nat, j: nat {:trigger Follows(ss, i, j)} | i < j < n ensures Follows(ss, i, j) {
        if i > 0 {
          CutsAscend(n, i, j);
          SingleOrder(CutCode(n, j) as char, CutCode(n, i) as char);
        }
      }
      forall i: nat {:trigger Joins(ss, i)} | i + 1 < n ensures Joins(ss, i) {}
    }
  }

  /** Its starts differ, and every shard has keys, exactly if there are at most 94. */
  lemma FirstTableStrict(n: nat)
    ensures Strict(FirstTable(n)) == (n <= 94)
    ensures (exists i :: 0 <= i < n && Hollow(FirstTable(n)[i])) == (n >= 95)
  {
    var ss := FirstTable(n);
    if n <= 94 {
      FirstTableRises(n);
      forall i: nat | i < n ensures !Hollow(ss[i]) {
        if i + 1 < n { assert Rises(ss, i, i + 1); }
      }
    } else {
      var k := FirstTableTies(n);
      assert Hollow(ss[k]);
    }
  }

  lemma FirstTableRises(n: nat)
    requires n <= 94
    ensures Strict(FirstTable(n))
  {
    var ss := FirstTable(n);
    forall i: nat, j: nat {:trigger Rises(ss, i, j)} | i < j < n ensures Rises(ss, i, j) {
      if i > 0 {
        CutsRise(n, i, j);
        SingleOrder(CutCode(n, i) as char, CutCode(n, j) as char);
      }
    }
  }

  lemma FirstTableTies(n: nat) returns (k: nat)
    requires n >= 95
    ensures k < n && Hollow(FirstTable(n)[k]) && !Strict(FirstTable(n))
  {
    k := CutsCoincide(n);
    var ss := FirstTable(n);
    LessIrreflexive(ss[k].start);
    assert !Rises(ss, k, k + 1);
  }

  lemma FirstIndexed(ds: seq<ShardDescriptor>, byID: map<nat, ShardDescriptor>)
    requires forall k: nat :: k in byID <==> k < |ds|
    requires forall i :: 0 <= i < |ds| ==> ds[i].ShardID == i && byID[i] == ds[i]
    ensures Indexes(ds, byID)
  {}

  /** The descriptors of the first table, and their index. */
  method FirstShards(n: nat) returns (list: seq<ShardDescriptor>, byID: map<nat, ShardDescriptor>)
    ensures |list| == n && forall k: nat :: k in byID <==> k < n
    ensures forall j :: 0 <= j < n ==> fresh(list[j]) && list[j].Value() == FirstShard(n, j) && byID[j] == list[j]
  {
    var points := ComputeSplitPoints(n);
    list, byID := [], map[];
    for i := 0 to n
      invariant |list| == i && forall k: nat :: k in byID <==> k < i
      invariant forall j :: 0 <= j < i ==> fresh(list[j]) && list[j].Value() == FirstShard(n, j) && byID[j] == list[j]
    {
      var startKey := if i > 0 then points[i - 1] else "";
      var endKey := if i < |points| then points[i] else "";
      var shard := new ShardDescriptor(Shard(i, startKey, endKey, i, "", 1));
      list := list + [shard];
      byID := byID[i := shard];
    }
  }

  // ---------------------------------------------------------------- the map

  ghost predicate Differ(ds: seq<ShardDescriptor>, i: nat, j: nat)
    requires i < |ds| && j < |ds|
  {
    ds[i].ShardID != ds[j].ShardID
  }

  ghost predicate Distinct(ds: seq<ShardDescriptor>) {
    forall i: nat, j: nat {:trigger Differ(ds, i, j)} :: i < j < |ds| ==> Differ(ds, i, j)
  }

  ghost predicate Filed(ds: seq<ShardDescriptor>, byID: map<nat, ShardDescriptor>, i: nat)
    requires i < |ds|
  {
    ds[i].ShardID in byID && byID[ds[i].ShardID] == ds[i]
  }

  ghost predicate Listed(ds: seq<ShardDescriptor>, byID: map<nat, ShardDescriptor>, id: nat)
    requires id in byID
  {
    byID[id] in ds && byID[id].ShardID == id
  }

  /** The index by id and the list hold the same descriptors. */
  ghost predicate Indexes(ds: seq<ShardDescriptor>, byID: map<nat, ShardDescriptor>) {
    && Distinct(ds)
    && (forall i: nat {:trigger Filed(ds, byID, i)} :: i < |ds| ==> Filed(ds, byID, i))
    && (forall id: nat {:trigger Listed(ds, byID, id)} :: id in byID ==> Listed(ds, byID, id))
  }

  ghost predicate Other(ds: seq<ShardDescriptor>, i: nat, j: nat)
    requires i < |ds| && j < |ds|
  {
    ds[i] != ds[j]
  }

  ghost predicate Apart(ds: seq<ShardDescriptor>) {
    forall i: nat, j: nat {:trigger Other(ds, i, j)} :: i < j < |ds| ==> Other(ds, i, j)
  }

  ghost predicate AllListed(ds: seq<ShardDescriptor>, byID: map<nat, ShardDescriptor>) {
    forall id: nat {:trigger Listed(ds, byID, id)} :: id in byID ==> Listed(ds, byID, id)
  }

  /** What holds of every map that the operations make: the index names descriptors of the list. */
  ghost predicate LinkedTo(ds: seq<ShardDescriptor>, byID: map<nat, ShardDescriptor>, ss: seq<Shard>)
    reads ds
  {
    Says(ds, ss) && Apart(ds) && AllListed(ds, byID)
  }

  lemma IndexesLinked(ds: seq<ShardDescriptor>, byID: map<nat, ShardDescriptor>)
    requires Indexes(ds, byID)
    ensures Apart(ds) && AllListed(ds, byID)
  {
    forall i: nat, j: nat {:trigger Other(ds, i, j)} | i < j < |ds| ensures Other(ds, i, j) {
      assert Differ(ds, i, j);
    }
  }

  ghost predicate Consistent(ds: seq<ShardDescriptor>, byID: map<nat, ShardDescriptor>, ss: seq<Shard>)
    reads ds
  {
    Indexes(ds, byID) && Says(ds, ss) && Tiled(ss)
  }

  lemma AddedIndexed(ds: seq<ShardDescriptor>, byID: map<nat, ShardDescriptor>, k: nat, added: ShardDescriptor)
    requires Indexes(ds, byID) && k < |ds| && added !in ds
    ensures Indexes(ds[..k + 1] + [added] + ds[k + 1..], byID[added.ShardID := added]) <==> added.ShardID !in byID
  {
    var all, m := ds[..k + 1] + [added] + ds[k + 1..], byID[added.ShardID := added];
    assert all[k + 1] == added;
    assert forall i :: 0 <= i < |ds| ==> all[if i <= k then i else i + 1] == ds[i];
    if added.ShardID in byID {
      assert Listed(ds, byID, added.ShardID);
      var i :| 0 <= i < |ds| && ds[i] == byID[added.ShardID];
      var p := if i <= k then i else i + 1;
      assert all[p].ShardID == all[k + 1].ShardID;
      assert !Differ(all, if p < k + 1 then p else k + 1, if p < k + 1 then k + 1 else p);
    } else {
      forall i: nat, j: nat {:trigger Differ(all, i, j)} | i < j < |all| ensures Differ(all, i, j) {
        var p, q := if i <= k then i else i - 1, if j <= k then j else j - 1;
        if i == k + 1 {
          assert Filed(ds, byID, q);
        } else if j == k + 1 {
          assert Filed(ds, byID, p);
        } else {
          assert Differ(ds, p, q);
        }
      }
      forall id: nat {:trigger Listed(all, m, id)} | id in m ensures Listed(all, m, id) {
        if id != added.ShardID {
          assert Listed(ds, byID, id);
          var i :| 0 <= i < |ds| && ds[i] == byID[id];
        }
      }
      forall i: nat {:trigger Filed(all, m, i)} | i < |all| ensures Filed(all, m, i) {
        if i != k + 1 {
          var p := if i <= k then i else i - 1;
          assert all[i] == ds[p] && Filed(ds, byID, p);
        }
      }
    }
  }

  lemma RemovedIndexed(ds: seq<ShardDescriptor>, byID: map<nat, ShardDescriptor>, j: nat)
    requires Indexes(ds, byID) && j < |ds|
    ensures Indexes(ds[..j] + ds[j + 1..], byID - {ds[j].ShardID})
  {
    var rest, m := ds[..j] + ds[j + 1..], byID - {ds[j].ShardID};
    assert forall i :: 0 <= i < |rest| ==> rest[i] == ds[if i < j then i else i + 1];
    forall a: nat, b: nat {:trigger Differ(rest, a, b)} | a < b < |rest| ensures Differ(rest, a, b) {
      assert Differ(ds, if a < j then a else a + 1, if b < j then b else b + 1);
    }
    forall i: nat {:trigger Filed(rest, m, i)} | i < |rest| ensures Filed(rest, m, i) {
      assert Filed(ds, byID, if i < j then i else i + 1);
      if i < j { assert Differ(ds, i, j); } else { assert Differ(ds, j, i + 1); }
    }
    forall id: nat {:trigger Listed(rest, m, id)} | id in m ensures Listed(rest, m, id) {
      assert Listed(ds, byID, id);
      var i :| 0 <= i < |ds| && ds[i] == byID[id];
      assert rest[if i < j then i else i - 1] == ds[i];
    }
  }

  lemma AddedSays(ds: seq<ShardDescriptor>, before: seq<Shard>, k: nat, key: Key, id: nat, group: nat,
                  added: ShardDescriptor)
    requires |before| == |ds| && k < |ds|
    requires forall i :: 0 <= i < |ds| && i != k ==> ds[i].Value() == before[i]
    requires ds[k].Value() == before[k].(end := key, version := before[k].version + 1)
    requires added.Value() == Shard(id, key, before[k].end, group, "", 1)
    ensures Says(ds[..k + 1] + [added] + ds[k + 1..], SplitAt(before, k, key, id, group))
  {}

  lemma RemovedSays(ds: seq<ShardDescriptor>, before: seq<Shard>, k: nat, j: nat)
    requires |before| == |ds| && k < |ds| && j < |ds| && Says(ds, Grown(before, k, j))
    ensures Says(ds[..j] + ds[j + 1..], MergeOf(before, k, j))
  {
    assert forall i :: 0 <= i < |ds| ==> ds[i].Value() == Grown(before, k, j)[i];
  }

  lemma SaysOne(ds: seq<ShardDescriptor>, a: seq<Shard>, b: seq<Shard>)
    requires Says(ds, a) && Says(ds, b)
    ensures a == b
  {}

  class ShardMap {
    var shards: seq<ShardDescriptor>
    var shardsByID: map<nat, ShardDescriptor>
    var version: nat
    /** What the descriptors in `shards` say. */
    ghost var table: seq<Shard>

    ghost predicate Linked()
      reads this, shards
    {
      LinkedTo(shards, shardsByID, table)
    }

    /** List and index agree, and the shards tile the keys. */
    ghost predicate Valid()
      reads this, shards
    {
      Consistent(shards, shardsByID, table)
    }

    constructor ()
      ensures Linked() && shards == [] && shardsByID == map[] && version == 0 && table == []
    {
      shards, shardsByID, version, table := [], map[], 0, [];
    }

    /** Cut the key space into n shards at evenly spaced characters from '!' on.  From 95 on two cuts
        fall on one character, and the shard between them is hollow. */
    method Initialize(n: nat)
      modifies this
      ensures |shards| == n && Indexes(shards, shardsByID) && Says(shards, table)
      ensures table == FirstTable(n) && Valid() == (n >= 1) && Linked() && Ascending(shards)
      ensures forall i :: 0 <= i < n ==>
                table[i].id == i && table[i].group == i && table[i].leader == "" && table[i].version == 1
      ensures version == old(version) + 1
    {
      var list, byID := FirstShards(n);
      shards := list;
      shardsByID := byID;
      version := version + 1;
      table := FirstTable(n);
      FirstTableTiled(n);
      FirstIndexed(list, byID);
      IndexesLinked(list, byID);
      if n >= 1 { SaysAscending(list, FirstTable(n)); }
    }

    /** Binary search for the first shard that starts above a key. */
    method FirstAbove(key: Key) returns (k: nat)
      requires Ascending(shards)
      ensures k <= |shards|
      ensures forall i :: 0 <= i < k ==> !Less(key, shards[i].StartKey)
      ensures forall i :: k <= i < |shards| ==> Less(key, shards[i].StartKey)
    {
      KeyOrder();
      var lo, hi := 0, |shards|;
      while lo < hi
        invariant 0 <= lo <= hi <= |shards|
        invariant forall i :: 0 <= i < lo ==> !Less(key, shards[i].StartKey)
        invariant forall i :: hi <= i < |shards| ==> Less(key, shards[i].StartKey)
      {
        var mid := (lo + hi) / 2;
        if !Less(key, shards[mid].StartKey) {
          forall i | 0 <= i <= mid ensures !Less(key, shards[i].StartKey) {
            if i < mid { assert !Less(shards[mid].StartKey, shards[i].StartKey); }
          }
          lo := mid + 1;
        } else {
          hi := mid;
        }
      }
      return lo;
    }

    /** The last shard that does not start above the key, if it contains it.  In a valid map every key is
        found, in the one shard that contains it. */
    method Lookup(key: Key) returns (found: bool, shard: ShardDescriptor?)
      requires Ascending(shards)
      ensures found ==> shard != null && shard in shards && Contains(shard.Value(), key)
      ensures Says(shards, table) ==> (found <==> Finds(table, key))
      ensures Valid() ==> found
    {
      if |shards| == 0 {
        return false, null;
      }
      var above := FirstAbove(key);
      var idx := if above == 0 then 0 else above - 1;
      var yes := shards[idx].ContainsKey(key);
      if Says(shards, table) { SearchFinds(shards, table, key, above, idx); }
      if Valid() { TiledFinds(table, key); }
      if !yes {
        return false, null;
      }
      return true, shards[idx];
    }

    /** The shards from the one that owns `start` on, up to the first that starts at or above `end`.  Of
        a range with keys these are the shards that meet it, and the hollow ones between.  Of one without
        keys it is none, or the one that owns its start. */
    method LookupRange(start: Key, end: Key)
      returns (found: bool, result: seq<ShardDescriptor>, ghost lo: nat, ghost hi: nat)
      requires Ascending(shards)
      ensures found <==> |shards| > 0
      ensures found ==> lo <= hi <= |shards| && result == shards[lo..hi]
      ensures Valid() ==> found && Reaches(table, start, end, lo, hi)
      ensures Valid() && (end == "" || Less(start, end)) ==>
                forall i :: 0 <= i < |table| ==> (Meets(table[i], start, end) <==> lo <= i < hi && !Hollow(table[i]))
      ensures Valid() ==> (MeetExactly(table, start, end, lo, hi)
                           <==> if end == "" || Less(start, end) then NoneHollow(table, lo, hi)
                                else !Less(table[lo].start, end))
    {
      result, lo, hi := [], 0, 0;
      if |shards| == 0 {
        return false, [], 0, 0;
      }
      found := true;
      var above := FirstAbove(start);
      var startIdx := if above == 0 then 0 else above - 1;
      var i := startIdx;
      while i < |shards|
        invariant startIdx <= i <= |shards| && result == shards[startIdx..i]
        invariant forall j :: startIdx <= j < i ==> end == "" || Less(shards[j].StartKey, end)
      {
        if end != "" && !Less(shards[i].StartKey, end) {
          break;
        }
        result := result + [shards[i]];
        i := i + 1;
      }
      lo, hi := startIdx, i;
      if Valid() { RangeOutcome(shards, table, start, end, above, lo, hi); }
    }

    /** Split a shard at a key it contains.  The new list has the shards of the split table, in ascending
        order.  If the map was valid, the shards share out the keys exactly if the key is not "", and the
        search then finds them all exactly if, of shards with the same start, the sort leaves the hollow ones
        first.  That is certain, whatever the sort does, if all starts differ and the key is not one. */
    method Split(id: nat, key: Key, group: nat) returns (ok: bool, ghost k: nat)
      requires Linked()
      modifies this, shards
      ensures Linked()
      ensures ok <==> id in old(shardsByID) && old(Contains(shardsByID[id].Value(), key))
      ensures !ok ==> shards == old(shards) && shardsByID == old(shardsByID) && table == old(table)
      ensures !ok ==> Valid() == old(Valid())
      ensures version == old(version) + (if ok then 1 else 0)
      ensures ok ==> shardsByID.Keys == old(shardsByID.Keys) + {|old(shards)|}
      ensures ok ==> k < |old(table)| && SplitUp(old(table), k, key, |old(shards)|, group, table)
      ensures ok ==> k < |old(table)| && old(table)[k].id == id && Contains(old(table)[k], key) && Ascending(shards)
      ensures ok ==> Arranges(SplitAt(old(table), k, key, |old(shards)|, group), table)
      ensures ok && Strict(SplitAt(old(table), k, key, |old(shards)|, group)) ==>
                table == SplitAt(old(table), k, key, |old(shards)|, group)
      ensures ok && old(Valid()) ==> SharesOut(key, table)
      ensures ok && old(Valid()) ==> (Valid() <==> key != "" && TiesInOrder(table) && |old(shards)| !in old(shardsByID))
      ensures ok && old(Valid()) && Strict(old(table)) && key != old(table)[k].start ==> Serves(table)
    {
      k := 0;
      if id !in shardsByID {
        return false, 0;
      }
      var original := shardsByID[id];
      var inside := original.ContainsKey(key);
      if !inside {
        return false, 0;
      }
      assert Listed(shards, shardsByID, id);
      k :| 0 <= k < |shards| && shards[k] == original;
      assert original.Value() == table[k];
      SplitFound(original, k, key, group);
      return true, k;
    }

    method SplitFound(original: ShardDescriptor, ghost k: nat, key: Key, group: nat)
      requires Linked() && k < |shards| && shards[k] == original && Contains(table[k], key)
      modifies this, original
      ensures Linked() && Ascending(shards) && version == old(version) + 1
      ensures shardsByID.Keys == old(shardsByID.Keys) + {|old(shards)|}
      ensures SplitUp(old(table), k, key, |old(shards)|, group, table)
      ensures Arranges(SplitAt(old(table), k, key, |old(shards)|, group), table)
      ensures Strict(SplitAt(old(table), k, key, |old(shards)|, group)) ==>
                table == SplitAt(old(table), k, key, |old(shards)|, group)
      ensures old(Valid()) ==> SharesOut(key, table)
      ensures old(Valid()) ==> Valid() == (key != "" && TiesInOrder(table) && |old(shards)| !in old(shardsByID))
      ensures old(Valid()) && Strict(old(table)) && key != old(table)[k].start ==> Serves(table)
    {
      ghost var was := Valid();
      var added, all := Rearrange(original, k, key, group);
      SplitArranged(shards, table, k, key, group, added, all);
      SplitLinked(shards, shardsByID, added, all);
      if was { SplitOutcome(shards, shardsByID, table, k, key, group, added, all); }
      SplitIsUp(table, k, key, |shards|, group, Values(all));
      Install(all, shardsByID[|shards| := added], Values(all));
    }

    method Install(ds: seq<ShardDescriptor>, byID: map<nat, ShardDescriptor>, ghost ss: seq<Shard>)
      requires Says(ds, ss)
      modifies this
      ensures shards == ds && shardsByID == byID && table == ss && version == old(version) + 1
      ensures Says(ds, ss) && Valid() == old(Consistent(ds, byID, ss)) && Linked() == old(LinkedTo(ds, byID, ss))
    {
      shards := ds;
      shardsByID := byID;
      version := version + 1;
      table := ss;
    }

    method Rearrange(original: ShardDescriptor, ghost k: nat, key: Key, group: nat)
      returns (added: ShardDescriptor, all: seq<ShardDescriptor>)
      requires Says(shards, table) && Apart(shards) && k < |shards| && shards[k] == original
      modifies original
      ensures fresh(added) && added.Value() == Shard(|shards|, key, table[k].end, group, "", 1)
      ensures original.Value() == table[k].(end := key, version := table[k].version + 1)
      ensures forall i :: 0 <= i < |shards| && i != k ==> shards[i].Value() == table[i]
      ensures forall i :: 0 <= i < |shards| ==> shards[i].StartKey == old(shards[i].StartKey)
      ensures Ascending(all) && multiset(all) == multiset(shards + [added]) == multiset(shards) + multiset{added}
    {
      added := Divide(original, k, key, group);
      all := SortByStart(shards + [added]);
      assert multiset(shards + [added]) == multiset(shards) + multiset{added};
    }

    /** The lower part keeps the descriptor, the upper part gets a new one. */
    method Divide(original: ShardDescriptor, ghost k: nat, key: Key, group: nat) returns (added: ShardDescriptor)
      requires Says(shards, table) && Apart(shards) && k < |shards| && shards[k] == original
      modifies original
      ensures fresh(added) && added.Value() == Shard(|shards|, key, table[k].end, group, "", 1)
      ensures original.Value() == table[k].(end := key, version := table[k].version + 1)
      ensures forall i :: 0 <= i < |shards| && i != k ==> shards[i].Value() == table[i]
    {
      assert original.Value() == table[k];
      added := new ShardDescriptor(Shard(|shards|, key, original.EndKey, group, "", 1));
      forall i | 0 <= i < |shards| && i != k ensures shards[i] != original {
        assert if i < k then Other(shards, i, k) else Other(shards, k, i);
      }
      original.EndKey := key;
      original.Version := original.Version + 1;
    }

    /** Join two shards of which the first ends where the second starts: the first takes over the end, and
        every descriptor with the id of the second is dropped.  If the map was valid, that is one: every key
        is then still in one shard exactly if the common bound is not "", and the search finds every key, and
        the map stays valid, exactly if besides the second was the neighbour of the first or hollow. */
    method Merge(id1: nat, id2: nat) returns (ok: bool, ghost k: nat, ghost j: nat)
      requires Linked()
      modifies this, shards
      ensures Linked()
      ensures ok <==> id1 in old(shardsByID) && id2 in old(shardsByID)
                      && old(shardsByID[id1].EndKey) == old(shardsByID[id2].StartKey)
      ensures !ok ==> shards == old(shards) && shardsByID == old(shardsByID) && table == old(table)
      ensures !ok ==> Valid() == old(Valid())
      ensures version == old(version) + (if ok then 1 else 0)
      ensures ok ==> shardsByID == old(shardsByID) - {id2}
      ensures ok && old(Valid()) ==> k < |old(table)| && j < |old(table)| && Joined(old(table), k, j, table)
      ensures ok ==> k < |old(table)| && old(table)[k].id == id1 && j < |old(table)| && old(table)[j].id == id2
      ensures ok ==> old(table)[k].end == old(table)[j].start && table == Dropped(Grown(old(table), k, j), id2)
      ensures ok && old(Valid()) ==> table == MergeOf(old(table), k, j)
      ensures ok && old(Valid()) ==> ((forall key :: Once(table, key)) <==> old(table)[k].end != "")
      ensures ok && old(Valid()) ==> ((forall key :: Finds(table, key)) <==> Valid())
      ensures ok && old(Valid()) ==>
                (Valid() <==> old(table)[k].end != "" && (j == k + 1 || Hollow(old(table)[j])))
    {
      k, j := 0, 0;
      if id1 !in shardsByID || id2 !in shardsByID {
        return false, 0, 0;
      }
      var s1, s2 := shardsByID[id1], shardsByID[id2];
      if s1.EndKey != s2.StartKey {
        return false, 0, 0;
      }
      assert Listed(shards, shardsByID, id1) && Listed(shards, shardsByID, id2);
      k :| 0 <= k < |shards| && shards[k] == s1;
      j :| 0 <= j < |shards| && shards[j] == s2;
      assert s1.Value() == table[k] && s2.Value() == table[j];
      MergeFound(s1, s2, k, j);
      return true, k, j;
    }

    method MergeFound(s1: ShardDescriptor, s2: ShardDescriptor, ghost k: nat, ghost j: nat)
      requires Linked() && k < |shards| && shards[k] == s1 && j < |shards| && shards[j] == s2
      requires table[k].end == table[j].start
      modifies this, s1
      ensures version == old(version) + 1 && shardsByID == old(shardsByID) - {s2.ShardID}
      ensures Linked() && table == Dropped(Grown(old(table), k, j), s2.ShardID)
      ensures old(Valid()) ==> table == MergeOf(old(table), k, j) && Joined(old(table), k, j, table)
      ensures old(Valid()) ==> ((forall key :: Once(table, key)) <==> old(table)[k].end != "")
      ensures old(Valid()) ==> ((forall key :: Finds(table, key)) <==> Valid())
      ensures old(Valid()) ==> Valid() == (old(table)[k].end != "" && (j == k + 1 || Hollow(old(table)[j])))
    {
      ghost var was := Valid();
      Absorb(s1, s2, k, j);
      var rest := Remaining(shards, s2.ShardID);
      MergeLinked(shards, shardsByID, table, k, j, s2.ShardID);
      if was { MergeOutcome(shards, shardsByID, table, k, j, rest); }
      MergeIsJoined(table, k, j);
      Install(rest, shardsByID - {s2.ShardID}, Dropped(Grown(table, k, j), s2.ShardID));
    }

    method Absorb(s1: ShardDescriptor, s2: ShardDescriptor, ghost k: nat, ghost j: nat)
      requires Says(shards, table) && Apart(shards)
      requires k < |shards| && shards[k] == s1 && j < |shards| && shards[j] == s2
      modifies s1
      ensures s1.Value() == table[k].(end := table[j].end, version := table[k].version + 1)
      ensures forall i :: 0 <= i < |shards| && i != k ==> shards[i].Value() == table[i]
    {
      assert s1.Value() == table[k] && s2.Value() == table[j];
      forall i | 0 <= i < |shards| && i != k ensures shards[i] != s1 {
        assert if i < k then Other(shards, i, k) else Other(shards, k, i);
      }
      s1.EndKey := s2.EndKey;
      s1.Version := s1.Version + 1;
    }
  }

  lemma SaysAscending(ds: seq<ShardDescriptor>, ss: seq<Shard>)
    requires Says(ds, ss)
    ensures Ascends(ss) <==> Ascending(ds)
  {
    assert forall i :: 0 <= i < |ds| ==> ds[i].Value() == ss[i];
    if Ascends(ss) {
      forall i, j | 0 <= i < j < |ds| ensures !Less(ds[j].StartKey, ds[i].StartKey) { assert Follows(ss, i, j); }
    }
    if Ascending(ds) {
      forall i: nat, j: nat {:trigger Follows(ss, i, j)} | i < j < |ss| ensures Follows(ss, i, j) {
        assert !Less(ds[j].StartKey, ds[i].StartKey);
      }
    }
  }

  lemma SearchFinds(ds: seq<ShardDescriptor>, ss: seq<Shard>, key: Key, above: nat, idx: nat)
    requires Says(ds, ss) && above <= |ds| && |ds| > 0 && idx == (if above == 0 then 0 else above - 1) && Ascending(ds)
    requires forall i :: 0 <= i < above ==> !Less(key, ds[i].StartKey)
    requires forall i :: above <= i < |ds| ==> Less(key, ds[i].StartKey)
    ensures Contains(ds[idx].Value(), key) <==> Finds(ss, key)
  {
    assert forall i :: 0 <= i < |ds| ==> ds[i].Value() == ss[i];
    SaysAscending(ds, ss);
    if above > 0 {
      assert Owns(ss, idx, key);
      forall i: nat | Owns(ss, i, key) ensures i == idx { OneOwner(ss, i, idx, key); }
    } else {
      forall i: nat ensures !Owns(ss, i, key) {
        if i < |ss| { assert Less(key, ds[i].StartKey); }
      }
      assert Less(key, ds[0].StartKey);
    }
  }

  // ---------------------------------------------------------------- what a split gives

  /** The shards hold every key once exactly if the key of the split is not "", and then the search finds every
      key exactly if ties are in order. */
  ghost predicate SharesOut(key: Key, t: seq<Shard>) {
    && ((forall q :: Once(t, q)) <==> key != "")
    && (key != "" ==> ((forall q :: Finds(t, q)) <==> TiesInOrder(t)))
  }

  lemma SplitOutcome(ds: seq<ShardDescriptor>, byID: map<nat, ShardDescriptor>, before: seq<Shard>, k: nat, key: Key,
                     group: nat, added: ShardDescriptor, sorted: seq<ShardDescriptor>)
    requires Indexes(ds, byID) && Tiled(before) && |before| == |ds| && k < |ds|
    requires Contains(before[k], key) && added !in ds && added.ShardID == |ds|
    requires Arranges(SplitAt(before, k, key, |ds|, group), Values(sorted))
    requires multiset(sorted) == multiset(ds) + multiset{added}
    ensures var t, m := Values(sorted), byID[|ds| := added];
            && SharesOut(key, t)
            && Consistent(sorted, m, t) == (key != "" && TiesInOrder(t) && |ds| !in byID)
            && (Strict(before) && key != before[k].start ==> Serves(t))
  {
    var t, split := Values(sorted), SplitAt(before, k, key, |ds|, group);
    SplitPartitions(before, k, key, |ds|, group, t);
    SplitTiles(before, k, key, |ds|, group);
    SplitIndexed(ds, byID, k, added, sorted);
    SplitServes(before, k, key, |ds|, group);
    if key != "" {
      ArrangedTiled(split, t);
      ArrangedFinds(split, t);
    } else {
      NotOnce(t);
    }
  }

  /** No descriptor is in the list twice. */
  lemma SplitLinked(ds: seq<ShardDescriptor>, byID: map<nat, ShardDescriptor>, added: ShardDescriptor,
                    sorted: seq<ShardDescriptor>)
    requires Apart(ds) && AllListed(ds, byID) && added !in ds && multiset(sorted) == multiset(ds + [added])
    ensures Apart(sorted) && AllListed(sorted, byID[added.ShardID := added])
  {
    var all, m := ds + [added], byID[added.ShardID := added];
    forall i: nat, j: nat {:trigger Other(all, i, j)} | i < j < |all| ensures Other(all, i, j) {
      if j < |ds| { assert Other(ds, i, j); }
    }
    forall i: nat, j: nat {:trigger Other(sorted, i, j)} | i < j < |sorted| ensures Other(sorted, i, j) {
      if sorted[i] == sorted[j] {
        RepeatCounts(sorted, i, j);
        var x, y := CountRepeats(all, sorted[i]);
        OncePerList(all, x, y);
      }
    }
    forall id: nat {:trigger Listed(sorted, m, id)} | id in m ensures Listed(sorted, m, id) {
      if id == added.ShardID {
        assert all[|ds|] == added;
        var q := Rearranged(all, sorted, |ds|);
      } else {
        assert Listed(ds, byID, id);
        var i :| 0 <= i < |ds| && ds[i] == byID[id];
        assert all[i] == ds[i];
        var q := Rearranged(all, sorted, i);
      }
    }
  }

  lemma SplitArranged(ds: seq<ShardDescriptor>, before: seq<Shard>, k: nat, key: Key,
                      group: nat, added: ShardDescriptor, sorted: seq<ShardDescriptor>)
    requires |before| == |ds| && k < |ds|
    requires forall i :: 0 <= i < |ds| && i != k ==> ds[i].Value() == before[i]
    requires ds[k].Value() == before[k].(end := key, version := before[k].version + 1)
    requires added.Value() == Shard(|ds|, key, before[k].end, group, "", 1)
    requires Ascending(sorted) && multiset(sorted) == multiset(ds) + multiset{added}
    ensures Arranges(SplitAt(before, k, key, |ds|, group), Values(sorted))
    ensures Strict(SplitAt(before, k, key, |ds|, group)) ==> Values(sorted) == SplitAt(before, k, key, |ds|, group)
  {
    var all := ds[..k + 1] + [added] + ds[k + 1..];
    AddedCounts(ds, k, added);
    AddedSays(ds, before, k, key, |ds|, group, added);
    SaysOne(all, Values(all), SplitAt(before, k, key, |ds|, group));
    SameValues(sorted, all);
    SaysAscending(sorted, Values(sorted));
    if Strict(SplitAt(before, k, key, |ds|, group)) {
      OneArrangement(SplitAt(before, k, key, |ds|, group), Values(sorted));
    }
  }

  lemma AddedCounts(ds: seq<ShardDescriptor>, k: nat, added: ShardDescriptor)
    requires k < |ds|
    ensures multiset(ds[..k + 1] + [added] + ds[k + 1..]) == multiset(ds) + multiset{added}
  {
    InsertedCounts(added, ds[..k + 1], ds[k + 1..]);
    assert ds == ds[..k + 1] + ds[k + 1..];
  }

  lemma SplitIndexed(ds: seq<ShardDescriptor>, byID: map<nat, ShardDescriptor>, k: nat, added: ShardDescriptor,
                     sorted: seq<ShardDescriptor>)
    requires Indexes(ds, byID) && k < |ds| && added !in ds && multiset(sorted) == multiset(ds) + multiset{added}
    ensures Indexes(sorted, byID[added.ShardID := added]) == (added.ShardID !in byID)
  {
    var all, m := ds[..k + 1] + [added] + ds[k + 1..], byID[added.ShardID := added];
    AddedCounts(ds, k, added);
    AddedIndexed(ds, byID, k, added);
    if added.ShardID !in byID { IndexesAny(all, sorted, m); }
    if Indexes(sorted, m) { IndexesAny(sorted, all, m); }
  }

  /** Whether list and index agree does not depend on the order of the list. */
  lemma IndexesAny(a: seq<ShardDescriptor>, b: seq<ShardDescriptor>, byID: map<nat, ShardDescriptor>)
    requires Indexes(a, byID) && multiset(a) == multiset(b)
    ensures Indexes(b, byID)
  {
    forall i: nat {:trigger Filed(b, byID, i)} | i < |b| ensures Filed(b, byID, i) {
      var j := Rearranged(b, a, i);
      assert Filed(a, byID, j);
    }
    forall id: nat {:trigger Listed(b, byID, id)} | id in byID ensures Listed(b, byID, id) {
      assert Listed(a, byID, id);
      var i :| 0 <= i < |a| && a[i] == byID[id];
      var j := Rearranged(a, b, i);
    }
    forall i: nat, j: nat {:trigger Differ(b, i, j)} | i < j < |b| ensures Differ(b, i, j) {
      assert Filed(b, byID, i) && Filed(b, byID, j);
      if b[i] == b[j] {
        RepeatCounts(b, i, j);
        var x, y := CountRepeats(a, b[i]);
        IndexesLinked(a, byID);
        OncePerList(a, x, y);
      }
    }
  }

  lemma OncePerList(ds: seq<ShardDescriptor>, i: nat, j: nat)
    requires Apart(ds) && i < j < |ds|
    ensures ds[i] != ds[j]
  {
    assert Other(ds, i, j);
  }

  lemma SameValues(a: seq<ShardDescriptor>, b: seq<ShardDescriptor>)
    requires multiset(a) == multiset(b)
    ensures multiset(Values(a)) == multiset(Values(b))
  {
    var f := map d | d in a :: d.Value();
    forall d | d in b ensures d in a {
      var j :| 0 <= j < |b| && b[j] == d;
      var i := Rearranged(b, a, j);
    }
    ImageCounts(a, b, f);
    assert Image(a, f) == Values(a) && Image(b, f) == Values(b);
  }

  // ---------------------------------------------------------------- what a merge gives

  lemma MergeOutcome(ds: seq<ShardDescriptor>, byID: map<nat, ShardDescriptor>, before: seq<Shard>, k: nat, j: nat,
                     rest: seq<ShardDescriptor>)
    requires Indexes(ds, byID) && Tiled(before) && |before| == |ds| && k < |ds| && j < |ds|
    requires before[k].end == before[j].start
    requires Says(ds, Grown(before, k, j)) && rest == Without(ds, ds[j].ShardID)
    ensures var t, m := MergeOf(before, k, j), byID - {ds[j].ShardID};
            && Dropped(Grown(before, k, j), ds[j].ShardID) == t
            && ((forall key :: Once(t, key)) <==> before[k].end != "")
            && ((forall key :: Finds(t, key)) <==> Consistent(rest, m, t))
            && Consistent(rest, m, t) == (before[k].end != "" && (j == k + 1 || Hollow(before[j])))
  {
    WithoutOne(ds, j);
    RemovedIndexed(ds, byID, j);
    MergeTiles(before, k, j);
    MergeOnce(before, k, j);
    MergeFinds(before, k, j);
    RemovedSays(ds, before, k, j);
    DroppedSays(ds, Grown(before, k, j), ds[j].ShardID);
    SaysOne(rest, MergeOf(before, k, j), Dropped(Grown(before, k, j), ds[j].ShardID));
  }

  lemma MergeLinked(ds: seq<ShardDescriptor>, byID: map<nat, ShardDescriptor>, before: seq<Shard>, k: nat, j: nat,
                    id: nat)
    requires Apart(ds) && AllListed(ds, byID) && |before| == |ds| && k < |ds| && j < |ds|
    requires forall i :: 0 <= i < |ds| && i != k ==> ds[i].Value() == before[i]
    requires ds[k].Value() == before[k].(end := before[j].end, version := before[k].version + 1)
    ensures Says(ds, Grown(before, k, j))
    ensures LinkedTo(Without(ds, id), byID - {id}, Dropped(Grown(before, k, j), id))
  {
    var rest, m := Without(ds, id), byID - {id};
    DroppedSays(ds, Grown(before, k, j), id);
    WithoutApart(ds, id);
    forall x: nat {:trigger Listed(rest, m, x)} | x in m ensures Listed(rest, m, x) {
      assert Listed(ds, byID, x);
      WithoutHolds(ds, id, byID[x]);
    }
  }

  lemma {:induction false} DroppedSays(ds: seq<ShardDescriptor>, ss: seq<Shard>, id: nat)
    requires Says(ds, ss)
    ensures Says(Without(ds, id), Dropped(ss, id))
    decreases |ds|
  {
    if ds != [] {
      var n := |ds| - 1;
      assert ds[n].Value() == ss[n];
      DroppedSays(ds[..n], ss[..n], id);
    }
  }

  lemma {:induction false} WithoutHolds(ds: seq<ShardDescriptor>, id: nat, d: ShardDescriptor)
    ensures d in Without(ds, id) <==> d in ds && d.ShardID != id
    decreases |ds|
  {
    if ds != [] {
      var n := |ds| - 1;
      WithoutHolds(ds[..n], id, d);
      assert ds == ds[..n] + [ds[n]];
    }
  }

  lemma {:induction false} WithoutApart(ds: seq<ShardDescriptor>, id: nat)
    requires Apart(ds)
    ensures Apart(Without(ds, id))
    decreases |ds|
  {
    if ds != [] {
      var n := |ds| - 1;
      forall i: nat, j: nat {:trigger Other(ds[..n], i, j)} | i < j < n ensures Other(ds[..n], i, j) {
        assert Other(ds, i, j);
      }
      WithoutApart(ds[..n], id);
      WithoutHolds(ds[..n], id, ds[n]);
      assert ds[n] !in ds[..n] by {
        forall i | 0 <= i < n ensures ds[i] != ds[n] { assert Other(ds, i, n); }
      }
      var rest, out := Without(ds[..n], id), Without(ds, id);
      forall i: nat, j: nat {:trigger Other(out, i, j)} | i < j < |out| ensures Other(out, i, j) {
        if j < |rest| { assert Other(rest, i, j); } else { assert out[i] == rest[i]; }
      }
    }
  }

  /** The descriptors whose id is not `id`, in order. */
  ghost function Without(ds: seq<ShardDescriptor>, id: nat): seq<ShardDescriptor> {
    if ds == [] then []
    else Without(ds[..|ds| - 1], id) + if ds[|ds| - 1].ShardID == id then [] else [ds[|ds| - 1]]
  }

  method Remaining(ds: seq<ShardDescriptor>, id: nat) returns (out: seq<ShardDescriptor>)
    ensures out == Without(ds, id)
  {
    out := [];
    for i := 0 to |ds|
      invariant out == Without(ds[..i], id)
    {
      assert ds[..i + 1][..i] == ds[..i];
      if ds[i].ShardID != id {
        out := out + [ds[i]];
      }
    }
    assert ds[..|ds|] == ds;
  }

  lemma {:induction false} WithoutOne(ds: seq<ShardDescriptor>, j: nat)
    requires j < |ds| && Distinct(ds)
    ensures Without(ds, ds[j].ShardID) == ds[..j] + ds[j + 1..]
    decreases |ds|
  {
    var n := |ds| - 1;
    forall a: nat, b: nat {:trigger Differ(ds[..n], a, b)} | a < b < n ensures Differ(ds[..n], a, b) {
      assert Differ(ds, a, b);
    }
    if j == n {
      forall i | 0 <= i < n ensures ds[..n][i].ShardID != ds[n].ShardID { assert Differ(ds, i, n); }
      WithoutNone(ds[..n], ds[n].ShardID);
    } else {
      assert Differ(ds, j, n);
      WithoutOne(ds[..n], j);
      assert ds[..n][..j] == ds[..j] && ds[..n][j + 1..] + [ds[n]] == ds[j + 1..];
    }
  }

  lemma {:induction false} WithoutNone(ds: seq<ShardDescriptor>, id: nat)
    requires forall i :: 0 <= i < |ds| ==> ds[i].ShardID != id
    ensures Without(ds, id) == ds
    decreases |ds|
  {
    if ds != [] { WithoutNone(ds[..|ds| - 1], id); }
  }

  // ---------------------------------------------------------------- what a range lookup gives

  ghost predicate MeetExactly(ss: seq<Shard>, start: Key, end: Key, lo: nat, hi: nat) {
    forall i :: 0 <= i < |ss| ==> (lo <= i < hi <==> Meets(ss[i], start, end))
  }

  ghost predicate NoneHollow(ss: seq<Shard>, lo: nat, hi: nat)
    requires hi <= |ss|
  {
    forall i :: lo <= i < hi ==> !Hollow(ss[i])
  }

  /** From the owner of the start on, the shards that start below the end. */
  ghost predicate Reaches(ss: seq<Shard>, start: Key, end: Key, lo: nat, hi: nat) {
    && lo <= hi <= |ss| && Owns(ss, lo, start)
    && (forall i :: lo <= i < hi ==> end == "" || Less(ss[i].start, end))
    && (hi < |ss| ==> end != "" && !Less(ss[hi].start, end))
  }

  lemma RangeOutcome(ds: seq<ShardDescriptor>, ss: seq<Shard>, start: Key, end: Key, above: nat, lo: nat, hi: nat)
    requires Says(ds, ss) && Tiled(ss) && above <= |ds|
    requires forall i :: 0 <= i < above ==> !Less(start, ds[i].StartKey)
    requires forall i :: above <= i < |ds| ==> Less(start, ds[i].StartKey)
    requires lo == (if above == 0 then 0 else above - 1) && lo <= hi <= |ds|
    requires forall i :: lo <= i < hi ==> end == "" || Less(ds[i].StartKey, end)
    requires hi < |ds| ==> end != "" && !Less(ds[hi].StartKey, end)
    ensures Reaches(ss, start, end, lo, hi)
    ensures end == "" || Less(start, end) ==>
              forall i :: 0 <= i < |ss| ==> (Meets(ss[i], start, end) <==> lo <= i < hi && !Hollow(ss[i]))
    ensures MeetExactly(ss, start, end, lo, hi)
            <==> if end == "" || Less(start, end) then NoneHollow(ss, lo, hi) else !Less(ss[lo].start, end)
  {
    assert forall j :: 0 <= j < |ds| ==> ds[j].Value() == ss[j];
    assert Owns(ss, lo, start);
    if end == "" || Less(start, end) {
      forall i | 0 <= i < |ss| ensures Meets(ss[i], start, end) <==> lo <= i < hi && !Hollow(ss[i]) {
        RangeMeets(ss, start, end, lo, hi, i);
      }
    } else {
      EmptyRange(ss, start, end, lo, hi);
    }
  }

  lemma EmptyRange(ss: seq<Shard>, start: Key, end: Key, lo: nat, hi: nat)
    requires Tiled(ss) && end != "" && !Less(start, end) && Reaches(ss, start, end, lo, hi)
    ensures MeetExactly(ss, start, end, lo, hi) <==> !Less(ss[lo].start, end)
  {
    forall i | 0 <= i < |ss| ensures !Meets(ss[i], start, end) {
      if Meets(ss[i], start, end) {
        var key :| Contains(ss[i], key) && InRange(key, start, end);
        NotBelow(key, start, end);
      }
    }
    assert lo < hi ==> Less(ss[lo].start, end);
    assert lo == hi ==> !Less(ss[lo].start, end);
  }

  /** The shards found for a range with keys are those that meet it, and hollow ones. */
  lemma RangeMeets(ss: seq<Shard>, start: Key, end: Key, lo: nat, hi: nat, i: nat)
    requires Tiled(ss) && (end == "" || Less(start, end)) && Reaches(ss, start, end, lo, hi) && i < |ss|
    ensures Meets(ss[i], start, end) <==> lo <= i < hi && !Hollow(ss[i])
  {
    MeetsIff(ss, i, start, end);
    if i < lo {
      BeforeOwner(ss, lo, i + 1, start);
    } else {
      if i + 1 < |ss| { BeyondOwner(ss, lo, i + 1, start); }
      if i > hi {
        assert Follows(ss, hi, i);
        NotLessTrans(end, ss[hi].start, ss[i].start);
      }
    }
  }

  // ---------------------------------------------------------------- an id used twice

  lemma ThreeShards()
    ensures FirstTable(3)
            == [Shard(0, "", "@", 0, "", 1), Shard(1, "@", "_", 1, "", 1), Shard(2, "_", "", 2, "", 1)]
  {
    assert CutCode(3, 1) == 64 && CutCode(3, 2) == 95;
    assert Cut(3, 1) == "@" && Cut(3, 2) == "_";
  }

  lemma DroppedOfThree(a: Shard, b: Shard, c: Shard, id: nat)
    requires a.id != id && b.id == c.id == id
    ensures Dropped([a, b, c], id) == [a]
  {
    assert [a, b, c][..2] == [a, b] && [a, b][..1] == [a] && [a][..0] == [];
    assert Dropped([a], id) == [a];
    assert Dropped([a, b], id) == [a];
  }

  /** After three shards are made and the first two merged, two are left and one of them has the id 2: a split
      uses it again.  A merge that names it then drops both shards of that id, and loses keys. */
  lemma ReusedIdLosesKeys(group: nat)
    ensures var merged := MergeOf(FirstTable(3), 0, 1);
            && |merged| == 2 && merged[1].id == 2
            && var split := SplitAt(merged, 0, "A", 2, group);
               && split[1].id == split[2].id == 2 && split[0].end == split[1].start && Contains(split[2], "z")
               && var left := Dropped(Grown(split, 0, 1), 2);
                  |left| == 1 && !Contains(left[0], "z")
  {
    ThreeShards();
    var a, b, c := Shard(0, "", "_", 0, "", 2), Shard(1, "@", "_", 1, "", 1), Shard(2, "_", "", 2, "", 1);
    assert MergeOf(FirstTable(3), 0, 1) == [a, c];
    var split := [a.(end := "A", version := 3), Shard(2, "A", "_", group, "", 1), c];
    assert SplitAt([a, c], 0, "A", 2, group) == split;
    SingleOrder('_', 'z');
    SingleOrder('z', '_');
    var grown := split[0].(end := "_", version := 4);
    assert Grown(split, 0, 1) == [grown, split[1], c];
    DroppedOfThree(grown, split[1], c, 2);
  }
}
