/** Scatter and gather means the same as one ordered, filtered scan of the whole store. */
module ScatterGather {
  import opened Keys
  import opened OrderedSets
  import opened Sorting
  import opened Planner

  type Store = map<Key, Value>

  ghost predicate Holds(s: ShardInfo, key: Key) {
    InRange(key, s.start, s.end)
  }

  ghost predicate Placed(ss: seq<ShardInfo>, key: Key) {
    exists i :: 0 <= i < |ss| && Holds(ss[i], key)
  }

  ghost predicate Apart(s: ShardInfo, t: ShardInfo) {
    forall key :: !(Holds(s, key) && Holds(t, key))
  }

  /** Every key belongs to exactly one shard.  The shards need not be listed in order. */
  ghost predicate Layout(ss: seq<ShardInfo>) {
    && (forall key :: Placed(ss, key))
    && (forall i, j :: 0 <= i < j < |ss| ==> Apart(ss[i], ss[j]))
  }

  ghost function Matching(store: Store, start: Key, end: Key, filter: (Key, Value) -> bool): set<Key> {
    set k | k in store && InRange(k, start, end) && filter(k, store[k])
  }

  ghost function Part(store: Store, s: ShardInfo): Store {
    map k | k in store && Holds(s, k) :: store[k]
  }

  ghost function Entries(store: Store, ks: seq<Key>): seq<KeyValue>
    requires forall k :: k in ks ==> k in store
  {
    seq(|ks|, i requires 0 <= i < |ks| => KeyValue(ks[i], store[ks[i]]))
  }

  ghost function Weight(store: Store, num: Value -> real): Key -> real {
    k => if k in store then num(store[k]) else 0.0
  }

  /** The keys of the ordered scan that a query asks for. */
  ghost function Answer(store: Store, q: Query): (ks: seq<Key>)
    ensures forall k :: k in ks ==> k in store
  {
    var found := Matching(store, q.start, q.end, q.filter);
    OrderedHolds(found);
    assert forall k :: k in Limited(Ordered(found), q.limit) ==> k in Ordered(found);
    Limited(Ordered(found), q.limit)
  }

  /** The least value of f on these keys. */
  ghost predicate IsLowest(ks: seq<Key>, f: Key -> real, x: real) {
    (exists k :: k in ks && f(k) == x) && forall k :: k in ks ==> x <= f(k)
  }

  /** The greatest value of f on these keys. */
  ghost predicate IsHighest(ks: seq<Key>, f: Key -> real, x: real) {
    (exists k :: k in ks && f(k) == x) && forall k :: k in ks ==> f(k) <= x
  }

  /** What a shard's executor returns: of the scan of the shard's part of the store the number of entries, and
      what it was asked for, the entries themselves or their sum, minimum or maximum.  Without entries
      minimum and maximum are left at 0. */
  ghost predicate Executes(store: Store, s: ShardInfo, q: ShardQuery, num: Value -> real, r: ShardResult) {
    var found := Matching(Part(store, s), q.start, q.end, q.filter);
    var ks := Limited(Ordered(found), q.limit);
    && (forall k :: k in ks ==> k in store)
    && r.count == |ks|
    && match q.localAgg
       case AggNone => r.entries == Entries(store, ks)
       case AggSum => r.sum == Sum(ks, Weight(store, num))
       case AggMin => if ks == [] then r.min == 0.0 else IsLowest(ks, Weight(store, num), r.min)
       case AggMax => if ks == [] then r.max == 0.0 else IsHighest(ks, Weight(store, num), r.max)
       case _ => true
  }

  /** An order in which n results may arrive. */
  ghost predicate Arrival(order: seq<nat>, n: nat) {
    && |order| == n
    && (forall j :: 0 <= j < n ==> order[j] < n)
    && (forall i, j :: 0 <= i < j < n ==> order[i] != order[j])
    && (forall i :: 0 <= i < n ==> i in order)
  }

  /** One result per planned shard, each failed or executed, in any order. */
  ghost predicate Gathered(store: Store, kept: seq<ShardInfo>, q: Query, num: Value -> real,
                           order: seq<nat>, rs: seq<ShardResult>) {
    && Arrival(order, |kept|) && |rs| == |kept|
    && forall j :: 0 <= j < |rs| ==>
         rs[j].failed || Executes(store, kept[order[j]], SubQuery(q, kept[order[j]]), num, rs[j])
  }

  // ---------------------------------------------------------------- pruning and clipping

  /** The clipped range of a sub-query holds the keys of the query that are in the shard. */
  lemma SubRange(q: Query, s: ShardInfo, key: Key)
    ensures InRange(key, MaxStr(q.start, s.start), MinStr(q.end, s.end))
            <==> InRange(key, q.start, q.end) && Holds(s, key)
  {
    KeyOrder();
  }

  /** A pruned shard holds no key that the query could match. */
  lemma PrunedHoldsNone(q: Query, s: ShardInfo, key: Key)
    requires !Affected(q, s) && q.prefix <= key && InRange(key, q.start, q.end)
    ensures !Holds(s, key)
  {
    KeyOrder();
    if q.start != "" && s.end != "" && !Less(q.start, s.end) {
    } else if q.end != "" && s.start != "" && !Less(s.start, q.end) {
    } else {
      PrefixNotAbove(q.prefix, key);
      if Less(q.prefix, s.start) && !(q.prefix <= s.start) { PrefixBelow(q.prefix, s.start, key); }
    }
  }

  lemma KeepsPrefix(p: Key, start: Key)
    requires Less(p, start) && !(p <= start)
    ensures !(start[..Min(|p|, |start|)] <= p)
  {
    if |start| < |p| && start <= p { PrefixNotAbove(start, p); }
    assert |start| < |p| ==> start[..|start|] == start;
  }

  /** Some key of the shard starts with the prefix. */
  ghost predicate HoldsPrefixed(s: ShardInfo, prefix: Key) {
    exists key :: Holds(s, key) && prefix <= key
  }

  ghost predicate HoldsSome(s: ShardInfo, start: Key, end: Key) {
    exists key :: Holds(s, key) && InRange(key, start, end)
  }

  lemma RangeMet(q: Query, s: ShardInfo)
    requires (s.end == "" || Less(s.start, s.end)) && (q.end == "" || Less(q.start, q.end))
    ensures HoldsSome(s, q.start, q.end)
            <==> !(q.start != "" && s.end != "" && !Less(q.start, s.end))
                 && !(q.end != "" && s.start != "" && !Less(s.start, q.end))
  {
    KeyOrder();
    var key := MaxStr(q.start, s.start);
    if !(q.start != "" && s.end != "" && !Less(q.start, s.end))
       && !(q.end != "" && s.start != "" && !Less(s.start, q.end)) {
      assert Holds(s, key) && InRange(key, q.start, q.end);
    }
  }

  lemma PrefixMet(s: ShardInfo, p: Key)
    requires (s.end == "" || Less(s.start, s.end)) && s.end != p
    ensures HoldsPrefixed(s, p)
            <==> !(s.end != "" && Less(s.end, p)) && !(Less(p, s.start) && !(p <= s.start))
  {
    KeyOrder();
    if Less(p, s.start) {
      if p <= s.start { assert Holds(s, s.start); }
      forall key | p <= key && !(p <= s.start) ensures !Holds(s, key) { PrefixBelow(p, s.start, key); }
    } else {
      if s.end == "" || Less(p, s.end) { assert Holds(s, p); }
    }
    if s.end != "" && Less(s.end, p) {
      forall key | p <= key ensures !Holds(s, key) { PrefixNotAbove(p, key); }
    }
  }

  /** A shard with keys is kept exactly if it has some in the query's range and, if there is a prefix, some that
      start with it, or if it ends where the prefix begins. */
  lemma KeptExactly(q: Query, s: ShardInfo)
    requires (s.end == "" || Less(s.start, s.end)) && (q.end == "" || Less(q.start, q.end))
    ensures Affected(q, s)
            <==> HoldsSome(s, q.start, q.end)
                 && (q.prefix == "" || s.end == q.prefix || HoldsPrefixed(s, q.prefix))
  {
    KeyOrder();
    RangeMet(q, s);
    if Less(q.prefix, s.start) && !(q.prefix <= s.start) { KeepsPrefix(q.prefix, s.start); }
    if s.end != q.prefix { PrefixMet(s, q.prefix); }
  }

  /** The positions of the kept shards in the layout. */
  lemma {:induction false} Kept(ss: seq<ShardInfo>, q: Query) returns (ps: seq<nat>)
    ensures |ps| == |Pruned(ss, q)|
    ensures forall i :: 0 <= i < |ps| ==> ps[i] < |ss| && ss[ps[i]] == Pruned(ss, q)[i]
    ensures forall i, j :: 0 <= i < j < |ps| ==> ps[i] < ps[j]
    ensures forall p :: 0 <= p < |ss| && Affected(q, ss[p]) ==> p in ps
  {
    if ss == [] {
      ps := [];
    } else {
      var n := |ss| - 1;
      ps := Kept(ss[..n], q);
      if Affected(q, ss[n]) { ps := ps + [n]; }
      forall p | 0 <= p < |ss| && Affected(q, ss[p]) ensures p in ps {
        if p < n { assert ss[..n][p] == ss[p]; } else { assert ps[|ps| - 1] == n; }
      }
    }
  }

  /** The keys of the query that result j answers for. */
  ghost function PartOf(store: Store, kept: seq<ShardInfo>, q: Query, order: seq<nat>, rs: seq<ShardResult>, j: nat)
    : set<Key>
    requires Arrival(order, |kept|) && |rs| == |kept| && j < |rs|
  {
    if rs[j].failed then {}
    else set k | k in Matching(store, q.start, q.end, q.filter) && Holds(kept[order[j]], k)
  }

  ghost function Parts(store: Store, kept: seq<ShardInfo>, q: Query, order: seq<nat>, rs: seq<ShardResult>)
    : seq<set<Key>>
    requires Arrival(order, |kept|) && |rs| == |kept|
  {
    seq(|rs|, j requires 0 <= j < |rs| => PartOf(store, kept, q, order, rs, j))
  }

  lemma PartIsScanned(store: Store, q: Query, s: ShardInfo)
    ensures Matching(Part(store, s), MaxStr(q.start, s.start), MinStr(q.end, s.end), q.filter)
            == set k | k in Matching(store, q.start, q.end, q.filter) && Holds(s, k)
  {
    forall k ensures InRange(k, MaxStr(q.start, s.start), MinStr(q.end, s.end))
                     <==> InRange(k, q.start, q.end) && Holds(s, k) {
      SubRange(q, s, k);
    }
  }

  ghost predicate Disjoint(parts: seq<set<Key>>) {
    forall i, j :: 0 <= i < j < |parts| ==> parts[i] !! parts[j]
  }

  lemma PartsDisjoint(ss: seq<ShardInfo>, store: Store, q: Query, order: seq<nat>, rs: seq<ShardResult>)
    requires Layout(ss) && Arrival(order, |Pruned(ss, q)|) && |rs| == |Pruned(ss, q)|
    ensures Disjoint(Parts(store, Pruned(ss, q), q, order, rs))
  {
    var kept := Pruned(ss, q);
    var parts := Parts(store, kept, q, order, rs);
    forall i, j | 0 <= i < j < |parts| ensures parts[i] !! parts[j] {
      KeptApart(ss, q, order[i], order[j]);
      PartsApart(store, kept, q, order, rs, i, j);
    }
  }

  lemma KeptApart(ss: seq<ShardInfo>, q: Query, i: nat, j: nat)
    requires Layout(ss) && i < |Pruned(ss, q)| && j < |Pruned(ss, q)| && i != j
    ensures Apart(Pruned(ss, q)[i], Pruned(ss, q)[j])
  {
    var ps := Kept(ss, q);
    if i < j { assert ps[i] < ps[j]; } else { assert ps[j] < ps[i]; }
  }

  lemma PartsApart(store: Store, kept: seq<ShardInfo>, q: Query, order: seq<nat>, rs: seq<ShardResult>, i: nat, j: nat)
    requires Arrival(order, |kept|) && |rs| == |kept| && i < |rs| && j < |rs|
    requires Apart(kept[order[i]], kept[order[j]])
    ensures PartOf(store, kept, q, order, rs, i) !! PartOf(store, kept, q, order, rs, j)
  {}

  /** If no shard failed, the parts make up all that the query matches. */
  lemma PartsComplete(ss: seq<ShardInfo>, store: Store, q: Query, order: seq<nat>, rs: seq<ShardResult>)
    requires Layout(ss) && Arrival(order, |Pruned(ss, q)|) && |rs| == |Pruned(ss, q)|
    requires forall k, v :: q.filter(k, v) ==> q.prefix <= k
    requires forall j :: 0 <= j < |rs| ==> !rs[j].failed
    ensures Union(Parts(store, Pruned(ss, q), q, order, rs)) == Matching(store, q.start, q.end, q.filter)
  {
    var kept := Pruned(ss, q);
    var parts := Parts(store, kept, q, order, rs);
    var found := Matching(store, q.start, q.end, q.filter);
    forall k ensures k in Union(parts) <==> k in found {
      InUnion(parts, k);
      if k in found {
        var i := KeptHolder(ss, q, k);
        assert i in order;
        var j :| 0 <= j < |order| && order[j] == i;
        assert k in parts[j];
      }
    }
  }

  lemma KeptHolder(ss: seq<ShardInfo>, q: Query, key: Key) returns (i: nat)
    requires Layout(ss) && q.prefix <= key && InRange(key, q.start, q.end)
    ensures i < |Pruned(ss, q)| && Holds(Pruned(ss, q)[i], key)
  {
    assert Placed(ss, key);
    var p :| 0 <= p < |ss| && Holds(ss[p], key);
    if !Affected(q, ss[p]) { PrunedHoldsNone(q, ss[p], key); }
    var ps := Kept(ss, q);
    i :| 0 <= i < |ps| && ps[i] == p;
  }

  // ---------------------------------------------------------------- entries

  ghost predicate NoRepeat<T>(xs: seq<T>) {
    forall i, j :: 0 <= i < j < |xs| ==> xs[i] != xs[j]
  }

  lemma SameElements<T>(a: seq<T>, b: seq<T>)
    requires multiset(a) == multiset(b)
    ensures forall x :: x in a <==> x in b
    ensures NoRepeat(a) ==> NoRepeat(b)
  {
    forall x ensures x in a <==> x in b { assert x in multiset(a) <==> x in multiset(b); }
    if NoRepeat(a) {
      forall i, j | 0 <= i < j < |b| ensures b[i] != b[j] {
        if b[i] == b[j] {
          RepeatCounts(b, i, j);
          var x, y := CountRepeats(a, b[i]);
        }
      }
    }
  }

  /** The entries are those of the keys of s, each once. */
  ghost predicate Lists(store: Store, s: set<Key>, es: seq<KeyValue>) {
    && NoRepeat(es)
    && (forall e :: e in es ==> e.key in s && e.key in store && e.value == store[e.key])
    && (forall k :: k in s ==> k in store && KeyValue(k, store[k]) in es)
  }

  lemma ScanLists(store: Store, s: set<Key>, limit: int)
    requires forall k :: k in Limited(Ordered(s), limit) ==> k in store
    ensures Lists(store, Firsts(s, limit), Entries(store, Limited(Ordered(s), limit)))
  {
    var ks := Limited(Ordered(s), limit);
    var es := Entries(store, ks);
    OrderedAscends(s);
    KeyOrder();
    forall i, j | 0 <= i < j < |es| ensures es[i] != es[j] { assert Less(ks[i], ks[j]); }
    forall k | k in Firsts(s, limit) ensures KeyValue(k, store[k]) in es {
      var i :| 0 <= i < |ks| && ks[i] == k;
      assert es[i] == KeyValue(k, store[k]);
    }
  }

  lemma {:induction false} OrderedAscends(s: set<Key>)
    ensures Ascends(Ordered(s))
    decreases |s|
  {
    if s != {} {
      var l := Least(s);
      OrderedAscends(s - {l});
      OrderedHolds(s - {l});
      forall j | 0 < j < |Ordered(s)| ensures Less(l, Ordered(s)[j]) {
        var x := Ordered(s - {l})[j - 1];
        assert x in Ordered(s - {l});
        LessTotal(l, x);
      }
    }
  }

  lemma JoinLists(store: Store, a: set<Key>, b: set<Key>, x: seq<KeyValue>, y: seq<KeyValue>)
    requires Lists(store, a, x) && Lists(store, b, y) && a !! b
    ensures Lists(store, a + b, x + y)
  {
    forall i, j | 0 <= i < j < |x + y| ensures (x + y)[i] != (x + y)[j] {
      if i < |x| <= j { assert x[i] in x && y[j - |x|] in y; }
    }
    forall k | k in a + b ensures k in store && KeyValue(k, store[k]) in x + y {}
    forall e | e in x + y ensures e.key in a + b && e.key in store && e.value == store[e.key] {
      assert e in x || e in y;
    }
  }

  lemma {:induction false} AllListed(store: Store, cut: seq<set<Key>>, rs: seq<ShardResult>)
    requires |rs| == |cut| && Disjoint(cut)
    requires forall j :: 0 <= j < |rs| ==> Lists(store, cut[j], if rs[j].failed then [] else rs[j].entries)
    ensures Lists(store, Union(cut), EntriesAll(rs))
  {
    if rs != [] {
      var n := |rs| - 1;
      forall j | 0 <= j < n ensures Lists(store, cut[..n][j], if rs[..n][j].failed then [] else rs[..n][j].entries) {
        assert cut[..n][j] == cut[j] && rs[..n][j] == rs[j];
      }
      AllListed(store, cut[..n], rs[..n]);
      ApartFromLast(cut);
      JoinLists(store, Union(cut[..n]), cut[n], EntriesAll(rs[..n]), if rs[n].failed then [] else rs[n].entries);
    }
  }

  lemma ApartFromLast(cut: seq<set<Key>>)
    requires |cut| > 0 && Disjoint(cut)
    ensures Union(cut[..|cut| - 1]) !! cut[|cut| - 1]
  {
    var n := |cut| - 1;
    forall x | x in Union(cut[..n]) ensures x !in cut[n] {
      InUnion(cut[..n], x);
      var i :| 0 <= i < n && x in cut[..n][i];
      assert cut[i] !! cut[n];
    }
  }

  /** A list of entries sorted by key is the scan of its keys. */
  lemma SortedIsScan(store: Store, s: set<Key>, es: seq<KeyValue>)
    requires Lists(store, s, es) && ByKey(es)
    ensures (forall k :: k in Ordered(s) ==> k in store) && es == Entries(store, Ordered(s))
  {
    var ks := seq(|es|, i requires 0 <= i < |es| => es[i].key);
    KeyOrder();
    forall i, j | 0 <= i < j < |ks| ensures Less(ks[i], ks[j]) {
      assert es[i] in es && es[j] in es && es[i] != es[j];
    }
    forall k ensures k in ks <==> k in s {
      if k in ks {
        var i :| 0 <= i < |ks| && ks[i] == k;
        assert es[i] in es;
      }
      if k in s {
        var i :| 0 <= i < |es| && es[i] == KeyValue(k, store[k]);
        assert ks[i] == k;
      }
    }
    OneOrdering(s, ks);
    OrderedHolds(s);
    forall i | 0 <= i < |es| ensures es[i] == Entries(store, Ordered(s))[i] { assert es[i] in es; }
  }

  // ---------------------------------------------------------------- the theorem

  /** Whatever order the results arrive in and whichever shards fail: the merged entries are the ordered
      scan, cut to the limit, of what the shards that answered hold. */
  lemma ScanOfAnswered(ss: seq<ShardInfo>, store: Store, q: Query, num: Value -> real,
                       order: seq<nat>, rs: seq<ShardResult>, out: seq<KeyValue>)
    requires Layout(ss) && Gathered(store, Pruned(ss, q), q, num, order, rs) && IsMerged(rs, q.limit, out)
    requires q.agg == AggNone
    ensures var ks := Limited(Ordered(Union(Parts(store, Pruned(ss, q), q, order, rs))), q.limit);
            (forall k :: k in ks ==> k in store) && out == Entries(store, ks)
  {
    AnsweredListed(ss, store, q, num, order, rs);
    MergedScan(store, Parts(store, Pruned(ss, q), q, order, rs), rs, q.limit, out);
  }

  ghost function Cuts(parts: seq<set<Key>>, limit: int): seq<set<Key>> {
    seq(|parts|, j requires 0 <= j < |parts| => Firsts(parts[j], limit))
  }

  lemma AnsweredListed(ss: seq<ShardInfo>, store: Store, q: Query, num: Value -> real,
                       order: seq<nat>, rs: seq<ShardResult>)
    requires Layout(ss) && Gathered(store, Pruned(ss, q), q, num, order, rs) && q.agg == AggNone
    ensures Lists(store, Union(Cuts(Parts(store, Pruned(ss, q), q, order, rs), q.limit)), EntriesAll(rs))
  {
    var kept := Pruned(ss, q);
    var parts := Parts(store, kept, q, order, rs);
    var cut := Cuts(parts, q.limit);
    forall j | 0 <= j < |rs| ensures Lists(store, cut[j], if rs[j].failed then [] else rs[j].entries) {
      ResultLists(store, kept, q, num, order, rs, j);
    }
    PartsDisjoint(ss, store, q, order, rs);
    CutDisjoint(parts, cut, q.limit);
    AllListed(store, cut, rs);
  }

  lemma MergedScan(store: Store, parts: seq<set<Key>>, rs: seq<ShardResult>, limit: int, out: seq<KeyValue>)
    requires Lists(store, Union(Cuts(parts, limit)), EntriesAll(rs)) && IsMerged(rs, limit, out)
    ensures var ks := Limited(Ordered(Union(parts)), limit);
            (forall k :: k in ks ==> k in store) && out == Entries(store, ks)
  {
    var cut := Cuts(parts, limit);
    var all :| ByKey(all) && multiset(all) == multiset(EntriesAll(rs)) && out == Limited(all, limit);
    ListsInAnyOrder(store, Union(cut), EntriesAll(rs), all);
    SortedIsScan(store, Union(cut), all);
    LimitPushesDown(parts, cut, limit);
    LimitedScan(store, Ordered(Union(cut)), limit);
  }

  lemma ListsInAnyOrder(store: Store, s: set<Key>, es: seq<KeyValue>, all: seq<KeyValue>)
    requires Lists(store, s, es) && multiset(all) == multiset(es)
    ensures Lists(store, s, all)
  {
    SameElements(es, all);
  }

  lemma LimitedScan(store: Store, ks: seq<Key>, limit: int)
    requires forall k :: k in ks ==> k in store
    ensures forall k :: k in Limited(ks, limit) ==> k in store
    ensures Limited(Entries(store, ks), limit) == Entries(store, Limited(ks, limit))
  {
    assert forall k :: k in Limited(ks, limit) ==> k in ks;
  }

  lemma ResultLists(store: Store, kept: seq<ShardInfo>, q: Query, num: Value -> real,
                    order: seq<nat>, rs: seq<ShardResult>, j: nat)
    requires Gathered(store, kept, q, num, order, rs) && j < |rs| && q.agg == AggNone
    ensures Lists(store, Firsts(PartOf(store, kept, q, order, rs, j), q.limit),
                  if rs[j].failed then [] else rs[j].entries)
  {
    var s := kept[order[j]];
    if rs[j].failed {
      assert Ordered({}) == [];
    } else {
      PartIsScanned(store, q, s);
      ScanLists(store, PartOf(store, kept, q, order, rs, j), q.limit);
    }
  }

  lemma CutDisjoint(parts: seq<set<Key>>, cut: seq<set<Key>>, limit: int)
    requires Disjoint(parts) && |cut| == |parts| && forall i :: 0 <= i < |parts| ==> cut[i] == Firsts(parts[i], limit)
    ensures Disjoint(cut)
  {
    forall i, j | 0 <= i < j < |cut| ensures cut[i] !! cut[j] {
      OrderedHolds(parts[i]);
      OrderedHolds(parts[j]);
      assert forall x :: x in cut[i] ==> x in Ordered(parts[i]);
      assert forall x :: x in cut[j] ==> x in Ordered(parts[j]);
    }
  }

  /** If no shard fails, scatter and gather gives exactly the scan of the whole store. */
  lemma ScatterGatherIsScan(ss: seq<ShardInfo>, store: Store, q: Query, num: Value -> real,
                            order: seq<nat>, rs: seq<ShardResult>, out: seq<KeyValue>)
    requires Layout(ss) && Gathered(store, Pruned(ss, q), q, num, order, rs) && IsMerged(rs, q.limit, out)
    requires q.agg == AggNone
    requires forall k, v :: q.filter(k, v) ==> q.prefix <= k
    requires forall j :: 0 <= j < |rs| ==> !rs[j].failed
    ensures out == Entries(store, Answer(store, q))
  {
    ScanOfAnswered(ss, store, q, num, order, rs, out);
    PartsComplete(ss, store, q, order, rs);
  }

  // ---------------------------------------------------------------- aggregates

  lemma {:induction false} CountOfParts(parts: seq<set<Key>>, rs: seq<ShardResult>)
    requires |rs| == |parts| && Disjoint(parts)
    requires forall j :: 0 <= j < |rs| ==> if rs[j].failed then parts[j] == {} else rs[j].count == |parts[j]|
    ensures CountAll(rs) == |Union(parts)|
  {
    if rs != [] {
      var n := |rs| - 1;
      forall j | 0 <= j < n
        ensures if rs[..n][j].failed then parts[..n][j] == {} else rs[..n][j].count == |parts[..n][j]|
      {
        assert rs[..n][j] == rs[j] && parts[..n][j] == parts[j];
      }
      CountOfParts(parts[..n], rs[..n]);
      ApartFromLast(parts);
    }
  }

  lemma {:induction false} SumOfParts(parts: seq<set<Key>>, f: Key -> real, rs: seq<ShardResult>)
    requires |rs| == |parts| && Disjoint(parts)
    requires forall j :: 0 <= j < |rs| ==> if rs[j].failed then parts[j] == {} else rs[j].sum == Total(parts[j], f)
    ensures SumAll(rs) == Total(Union(parts), f)
  {
    if rs != [] {
      var n := |rs| - 1;
      forall j | 0 <= j < n
        ensures if rs[..n][j].failed then parts[..n][j] == {} else rs[..n][j].sum == Total(parts[..n][j], f)
      {
        assert rs[..n][j] == rs[j] && parts[..n][j] == parts[j];
      }
      SumOfParts(parts[..n], f, rs[..n]);
      ApartFromLast(parts);
      LastSum(Union(parts[..n]), parts[n], f, rs[n]);
    }
  }

  lemma LastSum(before: set<Key>, part: set<Key>, f: Key -> real, r: ShardResult)
    requires before !! part && if r.failed then part == {} else r.sum == Total(part, f)
    ensures Total(before + part, f) == Total(before, f) + if r.failed then 0.0 else r.sum
  {
    TotalOfUnion(before, part, f);
    assert Total({}, f) == 0.0;
  }

  /** What a shard reports of its part, if there is no limit. */
  lemma Reported(store: Store, kept: seq<ShardInfo>, q: Query, num: Value -> real,
                 order: seq<nat>, rs: seq<ShardResult>, j: nat)
    requires Gathered(store, kept, q, num, order, rs) && j < |rs| && !rs[j].failed && q.limit <= 0
    ensures var part, f := PartOf(store, kept, q, order, rs, j), Weight(store, num);
            var ks := Ordered(part);
            && rs[j].count == |part|
            && (q.agg == AggSum || q.agg == AggAvg ==> rs[j].sum == Total(part, f))
            && (q.agg == AggMin ==> if part == {} then rs[j].min == 0.0 else IsLowest(ks, f, rs[j].min))
            && (q.agg == AggMax ==> if part == {} then rs[j].max == 0.0 else IsHighest(ks, f, rs[j].max))
  {
    PartIsScanned(store, q, kept[order[j]]);
    OrderedHolds(PartOf(store, kept, q, order, rs, j));
  }

  /** No shard failed, and there is no limit. */
  ghost predicate Complete(ss: seq<ShardInfo>, store: Store, q: Query, num: Value -> real,
                           order: seq<nat>, rs: seq<ShardResult>) {
    && Layout(ss) && Gathered(store, Pruned(ss, q), q, num, order, rs) && q.limit <= 0
    && (forall k, v :: q.filter(k, v) ==> q.prefix <= k)
    && (forall j :: 0 <= j < |rs| ==> !rs[j].failed)
  }

  lemma TotalsAddUp(ss: seq<ShardInfo>, store: Store, q: Query, num: Value -> real,
                           order: seq<nat>, rs: seq<ShardResult>)
    requires Complete(ss, store, q, num, order, rs)
    ensures CountAll(rs) == |Answer(store, q)|
    ensures q.agg == AggSum || q.agg == AggAvg ==> SumAll(rs) == Sum(Answer(store, q), Weight(store, num))
  {
    var kept := Pruned(ss, q);
    var parts := Parts(store, kept, q, order, rs);
    var f := Weight(store, num);
    PartsDisjoint(ss, store, q, order, rs);
    PartsComplete(ss, store, q, order, rs);
    forall j | 0 <= j < |rs|
      ensures rs[j].count == |parts[j]| && (q.agg == AggSum || q.agg == AggAvg ==> rs[j].sum == Total(parts[j], f))
    {
      Reported(store, kept, q, num, order, rs, j);
    }
    CountOfParts(parts, rs);
    if q.agg == AggSum || q.agg == AggAvg { SumOfParts(parts, f, rs); }
    OrderedHolds(Union(parts));
  }

  /** Without a limit, count, sum and average merged from what the shards report are those of the scan of the
      whole store. */
  lemma AggregatesPushDown(ss: seq<ShardInfo>, store: Store, q: Query, num: Value -> real,
                           order: seq<nat>, rs: seq<ShardResult>, r: QueryResult)
    requires Complete(ss, store, q, num, order, rs) && Merges(q.agg, q.limit, rs, r)
    ensures var ks := Answer(store, q);
            var sum := Sum(ks, Weight(store, num));
            && (q.agg == AggCount ==> r.count == |ks|)
            && (q.agg == AggSum ==> r.sum == sum)
            && (q.agg == AggAvg ==>
                  r.count == |ks| && r.sum == sum && r.avg == if ks == [] then 0.0 else sum / |ks| as real)
  {
    TotalsAddUp(ss, store, q, num, order, rs);
  }

  // ---------------------------------------------------------------- minimum and maximum

  /** Some shard that was asked holds no answer. */
  ghost predicate SomeEmpty(store: Store, kept: seq<ShardInfo>, q: Query, order: seq<nat>, rs: seq<ShardResult>)
    requires Arrival(order, |kept|) && |rs| == |kept|
  {
    exists j :: 0 <= j < |rs| && PartOf(store, kept, q, order, rs, j) == {}
  }

  /** Some shard answers for this key. */
  ghost predicate AnsweredFor(store: Store, kept: seq<ShardInfo>, q: Query, order: seq<nat>, rs: seq<ShardResult>,
                              k: Key)
    requires Arrival(order, |kept|) && |rs| == |kept|
  {
    exists j :: 0 <= j < |rs| && k in PartOf(store, kept, q, order, rs, j)
  }

  lemma AnswerIsUnion(ss: seq<ShardInfo>, store: Store, q: Query, num: Value -> real,
                      order: seq<nat>, rs: seq<ShardResult>, k: Key)
    requires Complete(ss, store, q, num, order, rs)
    ensures k in Answer(store, q) <==> AnsweredFor(store, Pruned(ss, q), q, order, rs, k)
  {
    PartsComplete(ss, store, q, order, rs);
    OrderedHolds(Matching(store, q.start, q.end, q.filter));
    InSomePart(store, Pruned(ss, q), q, order, rs, k);
  }

  lemma InSomePart(store: Store, kept: seq<ShardInfo>, q: Query, order: seq<nat>, rs: seq<ShardResult>, k: Key)
    requires Arrival(order, |kept|) && |rs| == |kept|
    ensures k in Union(Parts(store, kept, q, order, rs)) <==> AnsweredFor(store, kept, q, order, rs, k)
  {
    var parts := Parts(store, kept, q, order, rs);
    InUnion(parts, k);
    if AnsweredFor(store, kept, q, order, rs, k) {
      var j :| 0 <= j < |rs| && k in PartOf(store, kept, q, order, rs, j);
      assert k in parts[j];
    }
  }

  /** What each shard reports of its part when it is asked for the minimum or maximum. */
  ghost predicate Reports(store: Store, kept: seq<ShardInfo>, q: Query, f: Key -> real,
                          order: seq<nat>, rs: seq<ShardResult>, j: nat)
    requires Arrival(order, |kept|) && |rs| == |kept| && j < |rs|
  {
    var part := PartOf(store, kept, q, order, rs, j);
    && !rs[j].failed
    && (q.agg == AggMin ==> if part == {} then rs[j].min == 0.0 else IsLowest(Ordered(part), f, rs[j].min))
    && (q.agg == AggMax ==> if part == {} then rs[j].max == 0.0 else IsHighest(Ordered(part), f, rs[j].max))
    && (forall k :: k in Ordered(part) <==> k in part)
  }

  lemma AllReport(ss: seq<ShardInfo>, store: Store, q: Query, num: Value -> real,
                  order: seq<nat>, rs: seq<ShardResult>)
    requires Complete(ss, store, q, num, order, rs)
    ensures forall j :: 0 <= j < |rs| ==> Reports(store, Pruned(ss, q), q, Weight(store, num), order, rs, j)
  {
    forall j | 0 <= j < |rs| ensures Reports(store, Pruned(ss, q), q, Weight(store, num), order, rs, j) {
      Reported(store, Pruned(ss, q), q, num, order, rs, j);
      OrderedHolds(PartOf(store, Pruned(ss, q), q, order, rs, j));
    }
  }

  /** The merged minimum is right exactly if every shard that was asked holds an answer or some answer is not
      positive: a shard without answers reports 0. */
  lemma MinExactly(ss: seq<ShardInfo>, store: Store, q: Query, num: Value -> real,
                   order: seq<nat>, rs: seq<ShardResult>, r: QueryResult)
    requires Complete(ss, store, q, num, order, rs) && q.agg == AggMin && Merges(q.agg, q.limit, rs, r)
    requires Answer(store, q) != []
    ensures IsLowest(Answer(store, q), Weight(store, num), r.min)
            <==> !SomeEmpty(store, Pruned(ss, q), q, order, rs)
                 || exists k :: k in Answer(store, q) && Weight(store, num)(k) <= 0.0
  {
    var kept, f, ks := Pruned(ss, q), Weight(store, num), Answer(store, q);
    AllReport(ss, store, q, num, order, rs);
    forall k ensures k in ks <==> AnsweredFor(store, kept, q, order, rs, k) {
      AnswerIsUnion(ss, store, q, num, order, rs, k);
    }
    MinOfParts(store, kept, q, f, order, rs, ks, r.min);
  }

  lemma MinOfParts(store: Store, kept: seq<ShardInfo>, q: Query, f: Key -> real, order: seq<nat>,
                   rs: seq<ShardResult>, ks: seq<Key>, min: real)
    requires Arrival(order, |kept|) && |rs| == |kept| && q.agg == AggMin && ks != []
    requires forall j :: 0 <= j < |rs| ==> Reports(store, kept, q, f, order, rs, j)
    requires forall k :: k in ks <==> AnsweredFor(store, kept, q, order, rs, k)
    requires if exists j :: Answered(rs, j) then IsMin(rs, min) else min == 0.0
    ensures IsLowest(ks, f, min) <==> !SomeEmpty(store, kept, q, order, rs) || exists k :: k in ks && f(k) <= 0.0
  {
    assert ks[0] in ks;
    MinIsBelow(store, kept, q, f, order, rs, ks[0], min);
    forall k | k in ks ensures min <= f(k) { MinIsBelow(store, kept, q, f, order, rs, k, min); }
    var w :| Answered(rs, w) && rs[w].min == min;
    assert Reports(store, kept, q, f, order, rs, w);
    if PartOf(store, kept, q, order, rs, w) != {} {
      var k :| k in Ordered(PartOf(store, kept, q, order, rs, w)) && f(k) == min;
      assert AnsweredFor(store, kept, q, order, rs, k);
    }
    if SomeEmpty(store, kept, q, order, rs) { MinIsNotPositive(store, kept, q, f, order, rs, min); }
  }

  lemma MinIsBelow(store: Store, kept: seq<ShardInfo>, q: Query, f: Key -> real, order: seq<nat>,
                   rs: seq<ShardResult>, k: Key, min: real)
    requires Arrival(order, |kept|) && |rs| == |kept| && q.agg == AggMin && AnsweredFor(store, kept, q, order, rs, k)
    requires forall j :: 0 <= j < |rs| ==> Reports(store, kept, q, f, order, rs, j)
    requires if exists j :: Answered(rs, j) then IsMin(rs, min) else min == 0.0
    ensures IsMin(rs, min) && min <= f(k)
  {
    var j :| 0 <= j < |rs| && k in PartOf(store, kept, q, order, rs, j);
    assert Reports(store, kept, q, f, order, rs, j) && Answered(rs, j);
  }

  lemma MinIsNotPositive(store: Store, kept: seq<ShardInfo>, q: Query, f: Key -> real, order: seq<nat>,
                         rs: seq<ShardResult>, min: real)
    requires Arrival(order, |kept|) && |rs| == |kept| && q.agg == AggMin && SomeEmpty(store, kept, q, order, rs)
    requires (forall j :: 0 <= j < |rs| ==> Reports(store, kept, q, f, order, rs, j)) && IsMin(rs, min)
    ensures min <= 0.0
  {
    var e :| 0 <= e < |rs| && PartOf(store, kept, q, order, rs, e) == {};
    assert Reports(store, kept, q, f, order, rs, e) && Answered(rs, e);
  }

  /** The merged maximum is right exactly if some answer is not negative: the search for it starts at 0. */
  lemma MaxExactly(ss: seq<ShardInfo>, store: Store, q: Query, num: Value -> real,
                   order: seq<nat>, rs: seq<ShardResult>, r: QueryResult)
    requires Complete(ss, store, q, num, order, rs) && q.agg == AggMax && Merges(q.agg, q.limit, rs, r)
    ensures IsHighest(Answer(store, q), Weight(store, num), r.max)
            <==> exists k :: k in Answer(store, q) && Weight(store, num)(k) >= 0.0
  {
    var kept, f, ks := Pruned(ss, q), Weight(store, num), Answer(store, q);
    AllReport(ss, store, q, num, order, rs);
    forall k ensures k in ks <==> AnsweredFor(store, kept, q, order, rs, k) {
      AnswerIsUnion(ss, store, q, num, order, rs, k);
    }
    MaxOfParts(store, kept, q, f, order, rs, ks, r.max);
  }

  lemma MaxOfParts(store: Store, kept: seq<ShardInfo>, q: Query, f: Key -> real, order: seq<nat>,
                   rs: seq<ShardResult>, ks: seq<Key>, max: real)
    requires Arrival(order, |kept|) && |rs| == |kept| && q.agg == AggMax
    requires forall j :: 0 <= j < |rs| ==> Reports(store, kept, q, f, order, rs, j)
    requires forall k :: k in ks <==> AnsweredFor(store, kept, q, order, rs, k)
    requires if exists j :: Answered(rs, j) && rs[j].max >= 0.0 then IsMax(rs, max) else max == 0.0
    ensures IsHighest(ks, f, max) <==> exists k :: k in ks && f(k) >= 0.0
  {
    if k0 :| k0 in ks && f(k0) >= 0.0 {
      var j0 :| 0 <= j0 < |rs| && k0 in PartOf(store, kept, q, order, rs, j0);
      assert Reports(store, kept, q, f, order, rs, j0) && Answered(rs, j0);
      forall k | k in ks ensures f(k) <= max {
        var j :| 0 <= j < |rs| && k in PartOf(store, kept, q, order, rs, j);
        assert Reports(store, kept, q, f, order, rs, j) && Answered(rs, j);
      }
      var w :| Answered(rs, w) && rs[w].max == max;
      assert Reports(store, kept, q, f, order, rs, w);
      if PartOf(store, kept, q, order, rs, w) != {} {
        var k :| k in Ordered(PartOf(store, kept, q, order, rs, w)) && f(k) == max;
        assert AnsweredFor(store, kept, q, order, rs, k);
      }
    }
  }
}
