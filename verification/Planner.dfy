/**
 Planning a distributed query and merging the shards' answers.

 A shard's executor is taken as an ordered, filtered scan of the shard's part of the store that honours
 the limit it is given.
 */
module Planner {
  import opened Keys
  import opened OrderedSets
  import opened Sorting

  type Value = string

  datatype KeyValue = KeyValue(key: Key, value: Value)

  datatype Aggregation = AggNone | AggCount | AggSum | AggAvg | AggMin | AggMax

  datatype Query = Query(prefix: Key, start: Key, end: Key, filter: (Key, Value) -> bool, agg: Aggregation, limit: int)

  datatype ShardInfo = ShardInfo(id: nat, start: Key, end: Key, leader: string)

  datatype ShardQuery = ShardQuery(
    shard: nat, node: string, start: Key, end: Key, filter: (Key, Value) -> bool, localAgg: Aggregation, limit: int)

  datatype ShardResult = ShardResult(
    shard: nat, entries: seq<KeyValue>, count: nat, sum: real, min: real, max: real, failed: bool)

  datatype QueryResult = QueryResult(
    entries: seq<KeyValue>, count: nat, sum: real, avg: real, min: real, max: real, partial: bool)

  // ---------------------------------------------------------------- planning

  function MaxStr(a: Key, b: Key): Key {
    if Less(b, a) then a else b
  }

  /** The smaller of two ends, of which an empty one is no bound. */
  function MinStr(a: Key, b: Key): Key {
    if a == "" then b
    else if b == "" then a
    else if Less(a, b) then a
    else b
  }

  function Min(a: nat, b: nat): nat {
    if a < b then a else b
  }

  /** The shard may hold answers. */
  predicate Affected(q: Query, s: ShardInfo) {
    && !(q.start != "" && s.end != "" && !Less(q.start, s.end))
    && !(q.end != "" && s.start != "" && !Less(s.start, q.end))
    && (q.prefix != "" ==>
          && !(s.end != "" && Less(s.end, q.prefix))
          && !(s.start != "" && Less(q.prefix, s.start) && !(q.prefix <= s.start)
               && !(s.start[..Min(|q.prefix|, |s.start|)] <= q.prefix)))
  }

  ghost function Pruned(ss: seq<ShardInfo>, q: Query): seq<ShardInfo> {
    if ss == [] then []
    else Pruned(ss[..|ss| - 1], q) + if Affected(q, ss[|ss| - 1]) then [ss[|ss| - 1]] else []
  }

  method PruneShards(ss: seq<ShardInfo>, q: Query) returns (result: seq<ShardInfo>)
    ensures result == Pruned(ss, q)
  {
    result := [];
    for i := 0 to |ss|
      invariant result == Pruned(ss[..i], q)
    {
      assert ss[..i + 1][..i] == ss[..i];
      var shard := ss[i];
      if q.start != "" && shard.end != "" && !Less(q.start, shard.end) {
        continue;
      }
      if q.end != "" && shard.start != "" && !Less(shard.start, q.end) {
        continue;
      }
      if q.prefix != "" {
        if shard.end != "" && Less(shard.end, q.prefix) {
          continue;
        }
        if shard.start != "" && Less(q.prefix, shard.start) && !(q.prefix <= shard.start) {
          if !(shard.start[..Min(|q.prefix|, |shard.start|)] <= q.prefix) {
            continue;
          }
        }
      }
      result := result + [shard];
    }
    assert ss[..|ss|] == ss;
  }

  /** An average is computed from sums. */
  function Pushed(agg: Aggregation): Aggregation {
    if agg == AggAvg then AggSum else agg
  }

  function SubQuery(q: Query, s: ShardInfo): ShardQuery {
    ShardQuery(s.id, s.leader, MaxStr(q.start, s.start), MinStr(q.end, s.end), q.filter, Pushed(q.agg), q.limit)
  }

  /** One sub-query for each shard that may hold answers, to its leader, with the query's filter and limit. */
  method Plan(ss: seq<ShardInfo>, q: Query) returns (plan: seq<ShardQuery>)
    ensures |plan| == |Pruned(ss, q)|
    ensures forall i :: 0 <= i < |plan| ==> plan[i] == SubQuery(q, Pruned(ss, q)[i])
    ensures forall i :: 0 <= i < |plan| ==>
              var s := Pruned(ss, q)[i];
              && plan[i].shard == s.id && plan[i].node == s.leader && plan[i].filter == q.filter
              && plan[i].limit == q.limit && plan[i].localAgg == if q.agg == AggAvg then AggSum else q.agg
  {
    plan := [];
    var affected := PruneShards(ss, q);
    for i := 0 to |affected|
      invariant |plan| == i && forall j :: 0 <= j < i ==> plan[j] == SubQuery(q, affected[j])
    {
      plan := plan + [SubQuery(q, affected[i])];
    }
  }

  // ---------------------------------------------------------------- merging

  function CountAll(rs: seq<ShardResult>): nat {
    if rs == [] then 0 else CountAll(rs[..|rs| - 1]) + if rs[|rs| - 1].failed then 0 else rs[|rs| - 1].count
  }

  function SumAll(rs: seq<ShardResult>): real {
    if rs == [] then 0.0 else SumAll(rs[..|rs| - 1]) + if rs[|rs| - 1].failed then 0.0 else rs[|rs| - 1].sum
  }

  function EntriesAll(rs: seq<ShardResult>): seq<KeyValue> {
    if rs == [] then [] else EntriesAll(rs[..|rs| - 1]) + if rs[|rs| - 1].failed then [] else rs[|rs| - 1].entries
  }

  ghost predicate ByKey(es: seq<KeyValue>) {
    forall i, j :: 0 <= i < j < |es| ==> !Less(es[j].key, es[i].key)
  }

  /** All entries of the shards that answered, sorted by key and cut to the limit. */
  ghost predicate IsMerged(rs: seq<ShardResult>, limit: int, out: seq<KeyValue>) {
    exists all :: ByKey(all) && multiset(all) == multiset(EntriesAll(rs)) && out == Limited(all, limit)
  }

  method SortByKey(es: seq<KeyValue>) returns (out: seq<KeyValue>)
    ensures ByKey(out) && multiset(out) == multiset(es)
  {
    KeyOrder();
    out := Sort(es, (e: KeyValue) => e.key, Less);
  }

  method Totals(rs: seq<ShardResult>) returns (count: nat, sum: real)
    ensures count == CountAll(rs) && sum == SumAll(rs)
  {
    count, sum := 0, 0.0;
    for i := 0 to |rs|
      invariant count == CountAll(rs[..i]) && sum == SumAll(rs[..i])
    {
      assert rs[..i + 1][..i] == rs[..i];
      if !rs[i].failed {
        count := count + rs[i].count;
        sum := sum + rs[i].sum;
      }
    }
    assert rs[..|rs|] == rs;
  }

  method Gather(rs: seq<ShardResult>) returns (all: seq<KeyValue>)
    ensures all == EntriesAll(rs)
  {
    all := [];
    for i := 0 to |rs|
      invariant all == EntriesAll(rs[..i])
    {
      assert rs[..i + 1][..i] == rs[..i];
      if !rs[i].failed {
        all := all + rs[i].entries;
      }
    }
    assert rs[..|rs|] == rs;
  }

  /** Shard j answered. */
  predicate Answered(rs: seq<ShardResult>, j: int) {
    0 <= j < |rs| && !rs[j].failed
  }

  ghost predicate IsMin(rs: seq<ShardResult>, x: real) {
    && (exists j :: Answered(rs, j) && rs[j].min == x)
    && (forall j :: Answered(rs, j) ==> x <= rs[j].min)
  }

  ghost predicate IsMax(rs: seq<ShardResult>, x: real) {
    && (exists j :: Answered(rs, j) && rs[j].max == x)
    && (forall j :: Answered(rs, j) ==> rs[j].max <= x)
  }

  method Smallest(rs: seq<ShardResult>) returns (min: real)
    ensures if exists j :: Answered(rs, j) then IsMin(rs, min) else min == 0.0
  {
    min := 0.0;
    var first := true;
    for i := 0 to |rs|
      invariant first <==> forall j :: Answered(rs, j) ==> j >= i
      invariant first ==> min == 0.0
      invariant !first ==> exists j :: Answered(rs, j) && j < i && rs[j].min == min
      invariant forall j :: Answered(rs, j) && j < i ==> min <= rs[j].min
    {
      if !rs[i].failed {
        assert Answered(rs, i);
        if first || rs[i].min < min {
          min := rs[i].min;
          first := false;
        }
      }
    }
  }

  /** The search starts at 0, so it finds the greatest of the shards' maxima exactly if one of them is at
      least 0. */
  method Largest(rs: seq<ShardResult>) returns (max: real)
    ensures IsMax(rs, max) <==> exists j :: Answered(rs, j) && rs[j].max >= 0.0
    ensures (forall j :: Answered(rs, j) ==> rs[j].max < 0.0) ==> max == 0.0
  {
    max := 0.0;
    for i := 0 to |rs|
      invariant max >= 0.0
      invariant max > 0.0 ==> exists j :: Answered(rs, j) && j < i && rs[j].max == max
      invariant forall j :: Answered(rs, j) && j < i ==> rs[j].max <= max
    {
      if !rs[i].failed {
        assert Answered(rs, i);
        if rs[i].max > max {
          max := rs[i].max;
        }
      }
    }
  }

  /** What the results of the shards that answered come to. */
  ghost predicate Merges(op: Aggregation, limit: int, rs: seq<ShardResult>, r: QueryResult) {
    match op
    case AggCount => r.count == CountAll(rs)
    case AggSum => r.sum == SumAll(rs)
    case AggAvg =>
      if CountAll(rs) == 0 then r.count == 0 && r.sum == 0.0 && r.avg == 0.0
      else r.count == CountAll(rs) && r.sum == SumAll(rs) && r.avg == SumAll(rs) / CountAll(rs) as real
    case AggMin => if exists j :: Answered(rs, j) then IsMin(rs, r.min) else r.min == 0.0
    case AggMax =>
      if exists j :: Answered(rs, j) && rs[j].max >= 0.0 then IsMax(rs, r.max) else !IsMax(rs, r.max) && r.max == 0.0
    case AggNone => IsMerged(rs, limit, r.entries) && r.count == |r.entries|
  }

  method Merge(op: Aggregation, limit: int, rs: seq<ShardResult>) returns (r: QueryResult)
    ensures r.partial <==> exists i :: 0 <= i < |rs| && rs[i].failed
    ensures Merges(op, limit, rs, r)
  {
    var partial := false;
    for i := 0 to |rs|
      invariant partial <==> exists j :: 0 <= j < i && rs[j].failed
    {
      if rs[i].failed {
        partial := true;
      }
    }
    r := QueryResult([], 0, 0.0, 0.0, 0.0, 0.0, partial);
    match op
    case AggCount =>
      var count, _ := Totals(rs);
      r := r.(count := count);
    case AggSum =>
      var _, sum := Totals(rs);
      r := r.(sum := sum);
    case AggAvg =>
      var count, sum := Totals(rs);
      if count > 0 {
        r := r.(avg := sum / count as real, count := count, sum := sum);
      }
    case AggMin =>
      var min := Smallest(rs);
      r := r.(min := min);
    case AggMax =>
      var max := Largest(rs);
      r := r.(max := max);
    case AggNone =>
      var all := Gather(rs);
      all := SortByKey(all);
      ghost var sorted := all;
      if limit > 0 && |all| > limit {
        all := all[..limit];
      }
      assert all == Limited(sorted, limit);
      r := r.(entries := all, count := |all|);
  }
}
