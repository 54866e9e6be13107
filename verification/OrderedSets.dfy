/** Finite sets of keys in ascending order, their prefixes and their sums. */
module OrderedSets {
  import opened Keys

  ghost predicate IsLeast(s: set<Key>, k: Key) {
    k in s && forall x :: x in s ==> !Less(x, k)
  }

  lemma {:induction false} HasLeast(s: set<Key>) returns (k: Key)
    requires s != {}
    ensures IsLeast(s, k)
    decreases |s|
  {
    var x :| x in s;
    if s == {x} {
      k := x;
      LessIrreflexive(x);
    } else {
      var y := HasLeast(s - {x});
      KeyOrder();
      k := if Less(x, y) then x else y;
      forall z | z in s ensures !Less(z, k) {
        if z != x { assert !Less(z, y); }
      }
    }
  }

  lemma LeastExists(s: set<Key>)
    requires s != {}
    ensures exists k :: IsLeast(s, k)
  {
    var k := HasLeast(s);
  }

  ghost function Least(s: set<Key>): (k: Key)
    requires s != {}
    ensures IsLeast(s, k)
  {
    LeastExists(s);
    var k :| IsLeast(s, k);
    k
  }

  lemma LeastIsOne(s: set<Key>, k: Key)
    requires IsLeast(s, k)
    ensures s != {} && Least(s) == k
  {
    LessTotal(Least(s), k);
  }

  /** The elements in ascending order. */
  ghost function Ordered(s: set<Key>): seq<Key>
    decreases |s|
  {
    if s == {} then [] else [Least(s)] + Ordered(s - {Least(s)})
  }

  ghost predicate Ascends(xs: seq<Key>) {
    forall i, j :: 0 <= i < j < |xs| ==> Less(xs[i], xs[j])
  }

  lemma {:induction false} OrderedHolds(s: set<Key>)
    ensures |Ordered(s)| == |s| && forall x :: x in Ordered(s) <==> x in s
    decreases |s|
  {
    if s != {} {
      OrderedHolds(s - {Least(s)});
      assert s == {Least(s)} + (s - {Least(s)});
    }
  }

  /** The only ascending sequence with these elements is the ordered one. */
  lemma {:induction false} OneOrdering(s: set<Key>, xs: seq<Key>)
    requires Ascends(xs) && forall x :: x in xs <==> x in s
    ensures xs == Ordered(s)
    decreases |xs|
  {
    if xs == [] {
      assert s == {};
    } else {
      FirstIsLeast(s, xs);
      var rest := xs[1..];
      forall x ensures x in rest <==> x in s - {xs[0]} { RestHolds(xs, x); }
      OneOrdering(s - {xs[0]}, rest);
    }
  }

  lemma FirstIsLeast(s: set<Key>, xs: seq<Key>)
    requires Ascends(xs) && xs != [] && forall x :: x in xs <==> x in s
    ensures s != {} && Least(s) == xs[0]
  {
    assert xs[0] in xs;
    KeyOrder();
    forall x | x in s ensures !Less(x, xs[0]) {
      var i :| 0 <= i < |xs| && xs[i] == x;
    }
    LeastIsOne(s, xs[0]);
  }

  lemma RestHolds(xs: seq<Key>, x: Key)
    requires Ascends(xs) && xs != []
    ensures x in xs[1..] <==> x in xs && x != xs[0]
  {
    LessIrreflexive(xs[0]);
    if x in xs && x != xs[0] {
      var i :| 0 <= i < |xs| && xs[i] == x;
      assert xs[1..][i - 1] == x;
    }
    if x in xs[1..] {
      var i :| 0 <= i < |xs[1..]| && xs[1..][i] == x;
      assert Less(xs[0], xs[i + 1]);
    }
  }

  // ---------------------------------------------------------------- prefixes

  /** A limit of 0 or less is none. */
  function Limited<T>(xs: seq<T>, limit: int): seq<T> {
    if limit > 0 && |xs| > limit then xs[..limit] else xs
  }

  /** What is left is the first elements, as many as the limit allows. */
  lemma LimitedIsFirst<T>(xs: seq<T>, limit: int)
    ensures Limited(xs, limit) <= xs
    ensures |Limited(xs, limit)| == if 0 < limit < |xs| then limit else |xs|
  {}

  lemma LeastOfSubset(m: set<Key>, a: set<Key>)
    requires m <= a && a != {} && Least(a) in m
    ensures m != {} && Least(m) == Least(a)
  {
    LeastIsOne(m, Least(a));
  }

  lemma OrderedStep(s: set<Key>, l: Key, rest: set<Key>)
    requires s != {} && l == Least(s) && rest == s - {l}
    ensures Ordered(s) == [l] + Ordered(rest) && |Ordered(s)| == 1 + |Ordered(rest)|
  {}

  lemma NotEmpty(s: set<Key>)
    requires |Ordered(s)| > 0
    ensures s != {}
  {}

  /** An element at position r of a set is at position r or earlier in any subset that has it. */
  lemma {:induction false} EarlierInSubset(m: set<Key>, a: set<Key>, r: nat) returns (q: nat)
    requires m <= a && r < |Ordered(a)| && Ordered(a)[r] in m
    ensures q <= r && q < |Ordered(m)| && Ordered(m)[q] == Ordered(a)[r]
    decreases r
  {
    NotEmpty(a);
    var l := Least(a);
    var a' := a - {l};
    OrderedStep(a, l, a');
    if l !in m {
      assert r > 0;
      q := EarlierInSubset(m, a', r - 1);
    } else {
      LeastOfSubset(m, a);
      OrderedStep(m, l, m - {l});
      if r == 0 {
        q := 0;
      } else {
        InOrdered(a', r - 1);
        q := EarlierInSubset(m - {l}, a', r - 1);
        q := q + 1;
      }
    }
  }

  lemma InOrdered(s: set<Key>, r: nat)
    requires r < |Ordered(s)|
    ensures Ordered(s)[r] in s
  {
    OrderedHolds(s);
  }

  /** If a subset has the first k elements, they are its own first k. */
  lemma {:induction false} SamePrefix(b: set<Key>, a: set<Key>, k: nat)
    requires b <= a && k <= |Ordered(a)|
    requires forall r :: 0 <= r < k ==> Ordered(a)[r] in b
    ensures k <= |Ordered(b)| && Ordered(b)[..k] == Ordered(a)[..k]
    decreases k
  {
    if k > 0 {
      NotEmpty(a);
      var l := Least(a);
      var a', b' := a - {l}, b - {l};
      OrderedStep(a, l, a');
      assert Ordered(a)[0] == l;
      LeastOfSubset(b, a);
      OrderedStep(b, l, b');
      forall r | 0 <= r < k - 1 ensures Ordered(a')[r] in b' {
        assert Ordered(a)[r + 1] == Ordered(a')[r];
        InOrdered(a', r);
      }
      SamePrefix(b', a', k - 1);
    }
  }

  /** The union of sets. */
  ghost function Union(ss: seq<set<Key>>): set<Key> {
    if ss == [] then {} else Union(ss[..|ss| - 1]) + ss[|ss| - 1]
  }

  lemma {:induction false} InUnion(ss: seq<set<Key>>, x: Key)
    ensures x in Union(ss) <==> exists i :: 0 <= i < |ss| && x in ss[i]
  {
    if ss != [] {
      var n := |ss| - 1;
      InUnion(ss[..n], x);
      if x in ss[n] { assert 0 <= n < |ss| && x in ss[n]; }
      if x in Union(ss[..n]) {
        var i :| 0 <= i < n && x in ss[..n][i];
        assert x in ss[i];
      }
      if i :| 0 <= i < |ss| && x in ss[i] && i < n { assert x in ss[..n][i]; }
    }
  }

  /** The first elements of a set. */
  ghost function Firsts(s: set<Key>, limit: int): set<Key> {
    set x | x in Limited(Ordered(s), limit)
  }

  /** Limiting every part and then the union gives what limiting the union alone gives. */
  lemma LimitPushesDown(parts: seq<set<Key>>, cut: seq<set<Key>>, limit: int)
    requires |cut| == |parts| && forall i :: 0 <= i < |parts| ==> cut[i] == Firsts(parts[i], limit)
    ensures Limited(Ordered(Union(cut)), limit) == Limited(Ordered(Union(parts)), limit)
  {
    var a, b := Union(parts), Union(cut);
    CutBelow(parts, cut, limit);
    forall r | 0 <= r < |Limited(Ordered(a), limit)| ensures Ordered(a)[r] in b {
      FirstStays(parts, cut, limit, r);
    }
    SameLimited(b, a, limit);
  }

  lemma SameLimited(b: set<Key>, a: set<Key>, limit: int)
    requires b <= a && forall r :: 0 <= r < |Limited(Ordered(a), limit)| ==> Ordered(a)[r] in b
    ensures Limited(Ordered(b), limit) == Limited(Ordered(a), limit)
  {
    var k := |Limited(Ordered(a), limit)|;
    SamePrefix(b, a, k);
    OrderedHolds(a);
    OrderedHolds(b);
    assert a == b + (a - b);
    assert Limited(Ordered(a), limit) == Ordered(a)[..k];
    assert Limited(Ordered(b), limit) == Ordered(b)[..k];
  }

  lemma CutBelow(parts: seq<set<Key>>, cut: seq<set<Key>>, limit: int)
    requires |cut| == |parts| && forall i :: 0 <= i < |parts| ==> cut[i] == Firsts(parts[i], limit)
    ensures Union(cut) <= Union(parts)
  {
    forall x | x in Union(cut) ensures x in Union(parts) {
      InUnion(cut, x);
      InUnion(parts, x);
      var i :| 0 <= i < |cut| && x in cut[i];
      OrderedHolds(parts[i]);
      assert x in Ordered(parts[i]);
    }
  }

  lemma FirstStays(parts: seq<set<Key>>, cut: seq<set<Key>>, limit: int, r: nat)
    requires |cut| == |parts| && forall i :: 0 <= i < |parts| ==> cut[i] == Firsts(parts[i], limit)
    requires r < |Ordered(Union(parts))| && (limit > 0 ==> r < limit)
    ensures Ordered(Union(parts))[r] in Union(cut)
  {
    var a := Union(parts);
    var x := Ordered(a)[r];
    OrderedHolds(a);
    assert x in Ordered(a);
    InUnion(parts, x);
    var i :| 0 <= i < |parts| && x in parts[i];
    forall y | y in parts[i] ensures y in a { InUnion(parts, y); }
    var q := EarlierInSubset(parts[i], a, r);
    assert Limited(Ordered(parts[i]), limit)[q] == x;
    assert x in cut[i];
    InUnion(cut, x);
  }

  // ---------------------------------------------------------------- sums

  ghost function Sum(xs: seq<Key>, f: Key -> real): real {
    if xs == [] then 0.0 else f(xs[0]) + Sum(xs[1..], f)
  }

  ghost function Total(s: set<Key>, f: Key -> real): real {
    Sum(Ordered(s), f)
  }

  lemma TotalStep(s: set<Key>, f: Key -> real)
    requires s != {}
    ensures Total(s, f) == f(Least(s)) + Total(s - {Least(s)}, f)
  {
    assert Ordered(s)[1..] == Ordered(s - {Least(s)});
  }

  lemma {:induction false} TotalOfUnion(a: set<Key>, b: set<Key>, f: Key -> real)
    requires a !! b
    ensures Total(a + b, f) == Total(a, f) + Total(b, f)
    decreases |a + b|
  {
    if a + b == {} {
      assert a == {} && b == {} && a + b == {};
    } else {
      var l := Least(a + b);
      TotalStep(a + b, f);
      if l in a {
        LeastIsOne(a, l);
        TotalStep(a, f);
        assert a + b - {l} == (a - {l}) + b;
        TotalOfUnion(a - {l}, b, f);
      } else {
        LeastIsOne(b, l);
        TotalStep(b, f);
        assert a + b - {l} == a + (b - {l});
        TotalOfUnion(a, b - {l}, f);
      }
    }
  }
}
