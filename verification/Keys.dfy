/** Keys and their order: strings, compared lexicographically.  The empty key is the least. */
module Keys {

  type Key = string

  predicate Less(a: Key, b: Key) {
    if b == [] then false
    else if a == [] then true
    else if a[0] != b[0] then a[0] < b[0]
    else Less(a[1..], b[1..])
  }

  lemma {:induction false} LessIrreflexive(a: Key)
    ensures !Less(a, a)
  {
    if a != [] { LessIrreflexive(a[1..]); }
  }

  lemma {:induction false} LessTrans(a: Key, b: Key, c: Key)
    requires Less(a, b) && Less(b, c)
    ensures Less(a, c)
  {
    if a != [] && a[0] == b[0] == c[0] { LessTrans(a[1..], b[1..], c[1..]); }
  }

  lemma {:induction false} LessTotal(a: Key, b: Key)
    ensures a == b || Less(a, b) || Less(b, a)
  {
    if a != [] && b != [] && a[0] == b[0] {
      LessTotal(a[1..], b[1..]);
      assert a == [a[0]] + a[1..] && b == [b[0]] + b[1..];
    }
  }

  /** The order is strict and total, and nothing is below the empty key. */
  lemma KeyOrder()
    ensures forall a :: !Less(a, a)
    ensures forall a, b {:trigger Less(a, b)} :: Less(a, b) ==> !Less(b, a)
    ensures forall a, b, c {:trigger Less(a, b), Less(b, c)} :: Less(a, b) && Less(b, c) ==> Less(a, c)
    ensures forall a, b {:trigger Less(a, b)} :: a != b && !Less(a, b) ==> Less(b, a)
  {
    forall a ensures !Less(a, a) { LessIrreflexive(a); }
    forall a, b, c {:trigger Less(a, b), Less(b, c)} | Less(a, b) && Less(b, c) ensures Less(a, c) {
      LessTrans(a, b, c);
    }
    forall a, b {:trigger Less(a, b)} | a != b && !Less(a, b) ensures Less(b, a) { LessTotal(a, b); }
  }

  lemma NotLessTrans(a: Key, b: Key, c: Key)
    requires !Less(b, a) && !Less(c, b)
    ensures !Less(c, a)
  {
    LessTotal(a, b);
    LessTotal(b, c);
    if Less(c, a) && Less(a, b) { LessTrans(c, a, b); }
  }

  // ---------------------------------------------------------------- prefixes

  /** A key is not below its prefixes. */
  lemma {:induction false} PrefixNotAbove(p: Key, k: Key)
    requires p <= k
    ensures !Less(k, p)
  {
    if p != [] {
      assert p[1..] <= k[1..];
      PrefixNotAbove(p[1..], k[1..]);
    }
  }

  /** If p is below s and not a prefix of it, so is every key that starts with p. */
  lemma {:induction false} PrefixBelow(p: Key, s: Key, k: Key)
    requires Less(p, s) && !(p <= s) && p <= k
    ensures Less(k, s)
  {
    if p[0] == s[0] {
      assert p == [p[0]] + p[1..] && s == [s[0]] + s[1..];
      assert !(p[1..] <= s[1..]);
      assert p[1..] <= k[1..];
      PrefixBelow(p[1..], s[1..], k[1..]);
    }
  }

  /** Two keys of one character are ordered as their characters are. */
  lemma SingleOrder(a: char, b: char)
    ensures Less([a], [b]) <==> a < b
  {}

  // ---------------------------------------------------------------- ranges

  /** A half-open range of keys; an empty end is no bound. */
  predicate InRange(key: Key, start: Key, end: Key) {
    !Less(key, start) && (end == "" || Less(key, end))
  }
}
