/** Sorting by a key, in any order of the keys that is strict and total up to ties. */
module Sorting {

  ghost predicate WeakOrder<K(!new)>(less: (K, K) -> bool) {
    && (forall a, b :: less(a, b) ==> !less(b, a))
    && (forall a, b, c :: !less(b, a) && !less(c, b) ==> !less(c, a))
  }

  ghost predicate SortedBy<T, K>(xs: seq<T>, key: T -> K, less: (K, K) -> bool) {
    forall i, j :: 0 <= i < j < |xs| ==> !less(key(xs[j]), key(xs[i]))
  }

  /** Put an element after those that it is not less than. */
  method Insert<T, K(!new)>(x: T, xs: seq<T>, key: T -> K, less: (K, K) -> bool) returns (out: seq<T>)
    requires WeakOrder(less) && SortedBy(xs, key, less)
    ensures SortedBy(out, key, less) && multiset(out) == multiset(xs) + multiset{x}
  {
    var k := |xs|;
    while k > 0 && less(key(x), key(xs[k - 1]))
      invariant 0 <= k <= |xs|
      invariant forall i :: k <= i < |xs| ==> less(key(x), key(xs[i]))
    {
      k := k - 1;
    }
    out := xs[..k] + [x] + xs[k..];
    InsertedSorted(x, xs, k, key, less);
    InsertedCounts(x, xs[..k], xs[k..]);
    assert xs == xs[..k] + xs[k..];
  }

  lemma InsertedCounts<T>(x: T, a: seq<T>, b: seq<T>)
    ensures multiset(a + [x] + b) == multiset(a + b) + multiset{x}
  {}

  lemma InsertedSorted<T, K(!new)>(x: T, xs: seq<T>, k: nat, key: T -> K, less: (K, K) -> bool)
    requires WeakOrder(less) && SortedBy(xs, key, less) && k <= |xs|
    requires forall i :: k <= i < |xs| ==> less(key(x), key(xs[i]))
    requires k > 0 ==> !less(key(x), key(xs[k - 1]))
    ensures SortedBy(xs[..k] + [x] + xs[k..], key, less)
  {
    var out := xs[..k] + [x] + xs[k..];
    forall i, j | 0 <= i < j < |out| ensures !less(key(out[j]), key(out[i])) {
      if j == k && i < k - 1 { assert !less(key(xs[k - 1]), key(xs[i])); }
    }
  }

  method Sort<T, K(!new)>(xs: seq<T>, key: T -> K, less: (K, K) -> bool) returns (out: seq<T>)
    requires WeakOrder(less)
    ensures SortedBy(out, key, less) && multiset(out) == multiset(xs)
  {
    out := [];
    for i := 0 to |xs|
      invariant SortedBy(out, key, less) && multiset(out) == multiset(xs[..i])
    {
      out := Insert(xs[i], out, key, less);
      assert xs[..i + 1] == xs[..i] + [xs[i]];
    }
    assert xs[..|xs|] == xs;
  }

  // ---------------------------------------------------------------- counting

  lemma RepeatCounts<T>(xs: seq<T>, i: nat, j: nat)
    requires i < j < |xs| && xs[i] == xs[j]
    ensures multiset(xs)[xs[i]] >= 2
  {
    assert xs == xs[..j] + [xs[j]] + xs[j + 1..];
    assert xs[i] in xs[..j];
  }

  lemma {:induction false} CountRepeats<T>(xs: seq<T>, x: T) returns (i: nat, j: nat)
    requires multiset(xs)[x] >= 2
    ensures i < j < |xs| && xs[i] == x && xs[j] == x
    decreases |xs|
  {
    var n := |xs| - 1;
    assert xs == xs[..n] + [xs[n]];
    if xs[n] == x {
      j := n;
      assert x in multiset(xs[..n]);
      i :| 0 <= i < n && xs[..n][i] == x;
    } else {
      i, j := CountRepeats(xs[..n], x);
    }
  }

  lemma LastCounts<T>(xs: seq<T>)
    requires xs != []
    ensures multiset(xs) == multiset(xs[..|xs| - 1]) + multiset{xs[|xs| - 1]}
  {
    assert xs == xs[..|xs| - 1] + [xs[|xs| - 1]];
  }

  lemma RemovedCounts<T>(xs: seq<T>, j: nat)
    requires j < |xs|
    ensures multiset(xs) == multiset(xs[..j] + xs[j + 1..]) + multiset{xs[j]}
  {
    InsertedCounts(xs[j], xs[..j], xs[j + 1..]);
    assert xs == xs[..j] + [xs[j]] + xs[j + 1..];
  }

  lemma SwapCounts<T>(xs: seq<T>, i: nat, j: nat)
    requires i < j < |xs|
    ensures multiset(xs[i := xs[j]][j := xs[i]]) == multiset(xs)
  {
    var ys := xs[i := xs[j]][j := xs[i]];
    var a, b, c := xs[..i], xs[i + 1..j], xs[j + 1..];
    assert xs == a + [xs[i]] + b + [xs[j]] + c;
    assert ys == a + [xs[j]] + b + [xs[i]] + c;
  }

  lemma RemoveSame<T>(a: seq<T>, i: nat, b: seq<T>, j: nat)
    requires multiset(a) == multiset(b) && i < |a| && j < |b| && a[i] == b[j]
    ensures multiset(a[..i] + a[i + 1..]) == multiset(b[..j] + b[j + 1..])
  {
    RemovedCounts(a, i);
    RemovedCounts(b, j);
    assert multiset(a[..i] + a[i + 1..]) == multiset(a) - multiset{a[i]};
  }

  /** What is in one arrangement is in the other. */
  lemma Rearranged<T>(a: seq<T>, b: seq<T>, i: nat) returns (j: nat)
    requires multiset(a) == multiset(b) && i < |a|
    ensures j < |b| && b[j] == a[i]
  {
    assert a[i] in multiset(a);
    assert a[i] in multiset(b);
    j :| 0 <= j < |b| && b[j] == a[i];
  }

  lemma FirstCounts<T>(xs: seq<T>)
    requires xs != []
    ensures multiset(xs) == multiset(xs[1..]) + multiset{xs[0]}
  {
    assert xs == [xs[0]] + xs[1..];
  }

  lemma RestSame<T>(a: seq<T>, b: seq<T>)
    requires a != [] && b != [] && multiset(a) == multiset(b) && a[0] == b[0]
    ensures multiset(a[1..]) == multiset(b[1..])
  {
    FirstCounts(a);
    FirstCounts(b);
    assert multiset(a[1..]) == multiset(a) - multiset{a[0]};
  }

  ghost predicate StrictlySortedBy<T, K>(xs: seq<T>, key: T -> K, less: (K, K) -> bool) {
    forall i, j :: 0 <= i < j < |xs| ==> less(key(xs[i]), key(xs[j]))
  }

  /** Elements with different keys can be sorted in one way only. */
  lemma {:induction false} OneOrder<T, K>(a: seq<T>, b: seq<T>, key: T -> K, less: (K, K) -> bool)
    requires StrictlySortedBy(a, key, less) && SortedBy(b, key, less) && multiset(a) == multiset(b)
    ensures a == b
    decreases |a|
  {
    if a == [] {
      assert |multiset(b)| == 0;
    } else {
      SameFirst(a, b, key, less);
      RestSame(a, b);
      OneOrder(a[1..], b[1..], key, less);
      assert a == [a[0]] + a[1..] && b == [b[0]] + b[1..];
    }
  }

  lemma SameFirst<T, K>(a: seq<T>, b: seq<T>, key: T -> K, less: (K, K) -> bool)
    requires a != [] && StrictlySortedBy(a, key, less) && SortedBy(b, key, less) && multiset(a) == multiset(b)
    ensures b != [] && a[0] == b[0]
  {
    var i := Rearranged(a, b, 0);
    var j := Rearranged(b, a, 0);
    assert i > 0 ==> !less(key(b[i]), key(b[0]));
    assert j > 0 ==> less(key(a[0]), key(a[j]));
  }

  ghost function Image<T, U>(xs: seq<T>, f: map<T, U>): seq<U>
    requires forall x :: x in xs ==> x in f
  {
    seq(|xs|, i requires 0 <= i < |xs| => f[xs[i]])
  }

  lemma ImageWithout<T, U>(xs: seq<T>, f: map<T, U>, j: nat)
    requires j < |xs| && forall x :: x in xs ==> x in f
    ensures forall x :: x in xs[..j] + xs[j + 1..] ==> x in f
    ensures multiset(Image(xs, f)) == multiset(Image(xs[..j] + xs[j + 1..], f)) + multiset{f[xs[j]]}
  {
    assert forall x :: x in xs[..j] + xs[j + 1..] ==> x in xs;
    var all := Image(xs, f);
    RemovedCounts(all, j);
    assert Image(xs[..j] + xs[j + 1..], f) == all[..j] + all[j + 1..];
  }

  /** The same elements have the same images. */
  lemma {:induction false} ImageCounts<T, U>(a: seq<T>, b: seq<T>, f: map<T, U>)
    requires multiset(a) == multiset(b)
    requires (forall x :: x in a ==> x in f) && (forall x :: x in b ==> x in f)
    ensures multiset(Image(a, f)) == multiset(Image(b, f))
    decreases |a|
  {
    if a == [] {
      assert |multiset(b)| == 0;
    } else {
      var j := Rearranged(a, b, 0);
      RemoveSame(a, 0, b, j);
      ImageWithout(a, f, 0);
      ImageWithout(b, f, j);
      ImageCounts(a[..0] + a[1..], b[..j] + b[j + 1..], f);
    }
  }
}
