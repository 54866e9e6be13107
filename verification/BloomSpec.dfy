/** What the Bloom filter and its byte form mean.  Numbers of 64 bits wrap around as they do in the code. */
module BloomSpec {
  import opened Arithmetic

  const TWO_64 := 0x1_0000_0000_0000_0000

  type Byte = x: int | 0 <= x < 256

  type Key = seq<bv8>

  // ---------------------------------------------------------------- hashing

  const FNV_BASIS: bv64 := 14695981039346656037
  const FNV_PRIME: bv64 := 1099511628211

  function FnvStep(h: bv64, b: bv8): bv64 {
    (h ^ (b as bv64)) * FNV_PRIME
  }

  function Fnv(key: Key): bv64 {
    if key == [] then FNV_BASIS else FnvStep(Fnv(key[..|key| - 1]), key[|key| - 1])
  }

  function Shifted(h: bv64): bv64 {
    h ^ (h >> 33)
  }

  function Scrambled(h: bv64, factor: bv64): bv64 {
    Shifted(h) * factor
  }

  function Mix(h: bv64): bv64 {
    Shifted(Scrambled(Scrambled(h, 0xff51afd7ed558ccd), 0xc4ceb9fe1a85ec53))
  }

  lemma OneByteMore(key: Key, b: bv8)
    ensures Fnv(key + [b]) == FnvStep(Fnv(key), b)
  {
    assert (key + [b])[..|key|] == key;
  }

  /** The first hash is FNV-1a of 64 bits, which has these values for "", "a" and "foo". */
  lemma FnvValues()
    ensures Fnv([]) == 0xcbf29ce484222325
    ensures Fnv([] + [0x61]) == 0xaf63dc4c8601ec8c
    ensures Fnv([] + [0x66] + [0x6f] + [0x6f]) == 0xdcb27518fed9d577
  {
    OneByteMore([], 0x61);
    OneByteMore([], 0x66);
    OneByteMore([] + [0x66], 0x6f);
    OneByteMore([] + [0x66] + [0x6f], 0x6f);
  }

  /** The second hash is the 64-bit finalizer of MurmurHash3, applied to the first. */
  lemma MixValues()
    ensures Mix(0) == 0 && Mix(1) == 0xb456bcfc34c2cb2c && Mix(0xaf63dc4c8601ec8c) == 0x82a2a958a9bece5b
  {}

  /** The sum that probe i reduces to the size of the filter: the second hash, added i times to the first. */
  function Sums(h1: nat, h2: nat, i: nat): nat {
    if i == 0 then h1 % TWO_64 else (Sums(h1, h2, i - 1) + h2) % TWO_64
  }

  lemma {:induction false} SumsClosed(h1: nat, h2: nat, i: nat)
    ensures Sums(h1, h2, i) == (h1 + i * h2) % TWO_64
  {
    if i > 0 {
      SumsClosed(h1, h2, i - 1);
      assert h1 + i * h2 == h1 + (i - 1) * h2 + h2;
      ModOfSum(h1 + (i - 1) * h2, h2, TWO_64);
    }
  }

  /** Each probe goes the second hash further than the one before, round 64 bits. */
  lemma ProbesWalk(h1: nat, h2: nat, i: nat, m: nat)
    requires m > 0
    ensures Probe(h1, h2, i, m) == Sums(h1, h2, i) % m
  {
    SumsClosed(h1, h2, i);
  }

  /** Probe i of a key with these hashes. */
  function Probe(h1: nat, h2: nat, i: nat, m: nat): (pos: nat)
    requires m > 0
    ensures pos < m
  {
    (h1 + i * h2) % TWO_64 % m
  }

  function Position(key: Key, i: nat, m: nat): (pos: nat)
    requires m > 0
    ensures pos < m
  {
    Probe(Fnv(key) as int, Mix(Fnv(key)) as int, i, m)
  }

  /** The probes of a key start at its first hash and go on by its second. */
  lemma KeyProbes(key: Key, i: nat, m: nat)
    requires m > 0
    ensures var h1, h2 := Fnv(key) as int, Mix(Fnv(key)) as int; Position(key, i, m) == Sums(h1, h2, i) % m
  {
    ProbesWalk(Fnv(key) as int, Mix(Fnv(key)) as int, i, m);
  }

  // ---------------------------------------------------------------- bits

  function Index(pos: nat): bv6 {
    (pos % 64) as bv6
  }

  function WithBit(w: bv64, b: bv6): bv64 {
    w | (1 << (b as bv64))
  }

  predicate HasBit(w: bv64, b: bv6) {
    (w >> (b as bv64)) & 1 == 1
  }

  function SetBit(words: seq<bv64>, pos: nat): (r: seq<bv64>)
    requires pos < 64 * |words|
    ensures |r| == |words|
  {
    words[pos / 64 := WithBit(words[pos / 64], Index(pos))]
  }

  predicate BitAt(words: seq<bv64>, pos: nat)
    requires pos < 64 * |words|
  {
    HasBit(words[pos / 64], Index(pos))
  }

  lemma WithThenHas(w: bv64, a: bv6, b: bv6)
    ensures HasBit(WithBit(w, a), b) == (a == b || HasBit(w, b))
  {
    BitLaw(w, a as bv64, b as bv64);
  }

  lemma BitLaw(w: bv64, a: bv64, b: bv64)
    requires a < 64 && b < 64
    ensures ((w | (1 << a)) >> b) & 1 == if a == b then 1 else (w >> b) & 1
  {}

  lemma IndexBack(a: nat)
    requires a < 64
    ensures (a as bv6) as int == a
  {}

  lemma SamePosition(p: nat, q: nat)
    requires p / 64 == q / 64 && Index(p) == Index(q)
    ensures p == q
  {
    IndexBack(p % 64);
    IndexBack(q % 64);
  }

  /** Setting a bit sets that bit and no other. */
  lemma SetBitExact(words: seq<bv64>, pos: nat, q: nat)
    requires pos < 64 * |words| && q < 64 * |words|
    ensures BitAt(SetBit(words, pos), q) <==> pos == q || BitAt(words, q)
  {
    if pos / 64 == q / 64 {
      WithThenHas(words[pos / 64], Index(pos), Index(q));
      if Index(pos) == Index(q) { SamePosition(pos, q); }
    }
  }

  // ---------------------------------------------------------------- adding and finding

  /** Where each probe of a key goes. */
  type Prober = (Key, nat) -> nat

  ghost predicate Within(at: Prober, m: nat) {
    forall key, i :: at(key, i) < m
  }

  /** Where the probes go in a filter of m bits. */
  function Positions(m: nat): (at: Prober)
    ensures m > 0 ==> Within(at, m)
  {
    (key: Key, i: nat) => if m > 0 then Position(key, i, m) else 0
  }

  /** The words after the first k probes of a key were set. */
  ghost function Adding(words: seq<bv64>, key: Key, at: Prober, k: nat): (r: seq<bv64>)
    requires k > 0 ==> Within(at, 64 * |words|)
    ensures |r| == |words|
  {
    if k == 0 then words else SetBit(Adding(words, key, at, k - 1), at(key, k - 1))
  }

  ghost predicate Probes(key: Key, at: Prober, k: nat, pos: nat) {
    exists i :: 0 <= i < k && at(key, i) == pos
  }

  lemma {:induction false} AddingExact(words: seq<bv64>, key: Key, at: Prober, k: nat, pos: nat)
    requires (k > 0 ==> Within(at, 64 * |words|)) && pos < 64 * |words|
    ensures BitAt(Adding(words, key, at, k), pos) <==> Probes(key, at, k, pos) || BitAt(words, pos)
  {
    if k > 0 {
      AddingExact(words, key, at, k - 1, pos);
      SetBitExact(Adding(words, key, at, k - 1), at(key, k - 1), pos);
      if Probes(key, at, k - 1, pos) {
        var i :| 0 <= i < k - 1 && at(key, i) == pos;
        assert 0 <= i < k && at(key, i) == pos;
      }
    }
  }

  /** The first k probes of a key find their bits set. */
  ghost predicate Finds(words: seq<bv64>, key: Key, at: Prober, k: nat)
    requires k > 0 ==> Within(at, 64 * |words|)
  {
    forall i :: 0 <= i < k ==> BitAt(words, at(key, i))
  }

  ghost function AddingAll(words: seq<bv64>, keys: seq<Key>, at: Prober, k: nat): (r: seq<bv64>)
    requires k > 0 ==> Within(at, 64 * |words|)
    ensures |r| == |words|
  {
    if keys == [] then words else Adding(AddingAll(words, keys[..|keys| - 1], at, k), keys[|keys| - 1], at, k)
  }

  function Zeros(n: nat): seq<bv64> {
    seq(n, _ => 0)
  }

  ghost predicate Covered(keys: seq<Key>, at: Prober, k: nat, pos: nat) {
    exists j :: 0 <= j < |keys| && Probes(keys[j], at, k, pos)
  }

  lemma NoBit(n: nat, pos: nat)
    requires pos < 64 * n
    ensures !BitAt(Zeros(n), pos)
  {}

  lemma CoveredByMore(keys: seq<Key>, at: Prober, k: nat, pos: nat)
    requires keys != []
    ensures Covered(keys, at, k, pos)
            <==> Covered(keys[..|keys| - 1], at, k, pos) || Probes(keys[|keys| - 1], at, k, pos)
  {
    var last := |keys| - 1;
    if Covered(keys[..last], at, k, pos) {
      var j :| 0 <= j < last && Probes(keys[..last][j], at, k, pos);
      assert Probes(keys[j], at, k, pos);
    }
    if j :| 0 <= j < last && Probes(keys[j], at, k, pos) { assert Probes(keys[..last][j], at, k, pos); }
  }

  /** The bits set are exactly those that some added key probes. */
  lemma {:induction false} BitsAreProbes(n: nat, keys: seq<Key>, at: Prober, k: nat, pos: nat)
    requires (k > 0 ==> Within(at, 64 * n)) && pos < 64 * n
    ensures BitAt(AddingAll(Zeros(n), keys, at, k), pos) <==> Covered(keys, at, k, pos)
  {
    if keys == [] {
      NoBit(n, pos);
    } else {
      var last := |keys| - 1;
      BitsAreProbes(n, keys[..last], at, k, pos);
      AddingExact(AddingAll(Zeros(n), keys[..last], at, k), keys[last], at, k, pos);
      CoveredByMore(keys, at, k, pos);
    }
  }

  /** After any additions, a key is found exactly if every one of its probes is a probe of an added key. */
  lemma FoundExactly(n: nat, keys: seq<Key>, at: Prober, k: nat, key: Key)
    requires k > 0 ==> Within(at, 64 * n)
    ensures Finds(AddingAll(Zeros(n), keys, at, k), key, at, k)
            <==> forall i :: 0 <= i < k ==> Covered(keys, at, k, at(key, i))
  {
    forall i | 0 <= i < k
      ensures BitAt(AddingAll(Zeros(n), keys, at, k), at(key, i)) <==> Covered(keys, at, k, at(key, i))
    {
      BitsAreProbes(n, keys, at, k, at(key, i));
    }
  }

  /** After any additions, every added key is found. */
  lemma NoFalseNegatives(n: nat, keys: seq<Key>, at: Prober, k: nat, j: nat)
    requires (k > 0 ==> Within(at, 64 * n)) && j < |keys|
    ensures Finds(AddingAll(Zeros(n), keys, at, k), keys[j], at, k)
  {
    FoundExactly(n, keys, at, k, keys[j]);
    forall i | 0 <= i < k ensures Covered(keys, at, k, at(keys[j], i)) {
      assert Probes(keys[j], at, k, at(keys[j], i));
    }
  }

  // ---------------------------------------------------------------- bytes

  /** The last n bytes of a number, the lowest first. */
  function PutLE(x: nat, n: nat): (bs: seq<Byte>)
    ensures |bs| == n
  {
    if n == 0 then [] else [x % 256] + PutLE(x / 256, n - 1)
  }

  function GetLE(bs: seq<Byte>): nat {
    if bs == [] then 0 else bs[0] + 256 * GetLE(bs[1..])
  }

  function Power256(n: nat): nat {
    if n == 0 then 1 else 256 * Power256(n - 1)
  }

  lemma {:induction false} RoundTripLE(x: nat, n: nat)
    requires x < Power256(n)
    ensures GetLE(PutLE(x, n)) == x
  {
    if n > 0 {
      RoundTripLE(x / 256, n - 1);
      assert PutLE(x, n)[1..] == PutLE(x / 256, n - 1);
    }
  }

  lemma {:induction false} GetLEBound(bs: seq<Byte>)
    ensures GetLE(bs) < Power256(|bs|)
  {
    if bs != [] { GetLEBound(bs[1..]); }
  }

  lemma {:induction false} PowerPositive(n: nat)
    ensures Power256(n) > 0
  {
    if n > 0 { PowerPositive(n - 1); }
  }

  /** Byte i of a number is its digit of weight 256 to the i. */
  lemma {:induction false} ByteIs(x: nat, n: nat, i: nat)
    requires i < n
    ensures Power256(i) > 0 && PutLE(x, n)[i] == x / Power256(i) % 256
  {
    PowerPositive(i);
    if i > 0 {
      ByteIs(x / 256, n - 1, i - 1);
      PowerPositive(i - 1);
      DivTwice(x, 256, Power256(i - 1));
    }
  }

  lemma EightBytes()
    ensures Power256(8) == TWO_64
  {
    assert Power256(4) == 256 * 256 * 256 * 256;
  }

  lemma RoundTrip64(x: nat)
    requires x < TWO_64
    ensures GetLE(PutLE(x, 8)) == x
  {
    EightBytes();
    RoundTripLE(x, 8);
  }

  ghost function EncodeAll(xs: seq<nat>): (bs: seq<Byte>)
    ensures |bs| == 8 * |xs|
  {
    if xs == [] then [] else EncodeAll(xs[..|xs| - 1]) + PutLE(xs[|xs| - 1], 8)
  }

  lemma {:induction false} EncodedAt(xs: seq<nat>, i: nat)
    requires i < |xs|
    ensures EncodeAll(xs)[8 * i..8 * i + 8] == PutLE(xs[i], 8)
  {
    var n := |xs| - 1;
    if i < n {
      EncodedAt(xs[..n], i);
      assert EncodeAll(xs)[8 * i..8 * i + 8] == EncodeAll(xs[..n])[8 * i..8 * i + 8];
    }
  }

  lemma OneMoreNumber(xs: seq<nat>, n: nat, bs: seq<Byte>)
    requires n < |xs| && |bs| == 8 * n + 8
    requires bs[..8 * n] == EncodeAll(xs[..n]) && bs[8 * n..] == PutLE(xs[n], 8)
    ensures bs == EncodeAll(xs[..n + 1])
  {
    assert xs[..n + 1][..n] == xs[..n];
    assert bs == bs[..8 * n] + bs[8 * n..];
  }

  lemma FirstNumbers(xs: seq<nat>, bs: seq<Byte>)
    requires |xs| >= 2 && |bs| == 16 && bs[..8] == PutLE(xs[0], 8) && bs[8..] == PutLE(xs[1], 8)
    ensures bs == EncodeAll(xs[..2])
  {
    assert xs[..0] == [] && bs[..8][..0] == [] && bs[..8][0..] == bs[..8];
    OneMoreNumber(xs, 0, bs[..8]);
    OneMoreNumber(xs, 1, bs);
  }

  function Numbers(words: seq<bv64>): seq<nat> {
    seq(|words|, i requires 0 <= i < |words| => words[i] as int)
  }

  ghost function Encode(m: nat, k: nat, words: seq<bv64>): seq<Byte> {
    EncodeAll([m, k] + Numbers(words))
  }

  /** The byte form: size, number of probes and words in turn, each in eight bytes with the lowest first. */
  lemma ByteForm(m: nat, k: nat, words: seq<bv64>, j: nat, i: nat)
    requires j < 2 + |words| && i < 8
    ensures var x := if j == 0 then m else if j == 1 then k else words[j - 2] as int;
            |Encode(m, k, words)| == 16 + 8 * |words| && Power256(i) > 0
            && Encode(m, k, words)[8 * j + i] == x / Power256(i) % 256
  {
    var xs := [m, k] + Numbers(words);
    EncodedAt(xs, j);
    ByteIs(xs[j], 8, i);
    assert EncodeAll(xs)[8 * j..8 * j + 8][i] == EncodeAll(xs)[8 * j + i];
  }

  /** The number at an offset of the bytes. */
  function Uint64(data: seq<Byte>, offset: nat): (x: nat)
    requires offset + 8 <= |data|
    ensures x < TWO_64
  {
    GetLEBound(data[offset..offset + 8]);
    EightBytes();
    GetLE(data[offset..offset + 8])
  }

  /** A number as a word of bits. */
  function AsWord(x: nat): bv64 {
    if x < TWO_64 then x as bv64 else 0
  }

  /** Word i of the bytes, 0 if they end before it. */
  function WordAt(data: seq<Byte>, i: nat, word: nat -> bv64): bv64 {
    var offset := 16 + i * 8;
    if offset + 8 > |data| then 0 else word(Uint64(data, offset))
  }

  ghost function Words(data: seq<Byte>, n: nat, word: nat -> bv64): (words: seq<bv64>)
    ensures |words| == n
  {
    if n == 0 then [] else Words(data, n - 1, word) + [WordAt(data, n - 1, word)]
  }

  lemma {:induction false} WordRead(data: seq<Byte>, n: nat, word: nat -> bv64, i: nat)
    requires i < n
    ensures Words(data, n, word)[i] == WordAt(data, i, word)
  {
    if i < n - 1 { WordRead(data, n - 1, word, i); }
  }

  lemma NumberAt(xs: seq<nat>, i: nat)
    requires i < |xs| && xs[i] < TWO_64
    ensures Uint64(EncodeAll(xs), 8 * i) == xs[i]
  {
    EncodedAt(xs, i);
    RoundTrip64(xs[i]);
  }

  lemma NumberBack(w: bv64)
    ensures 0 <= w as int < TWO_64 && (w as int) as bv64 == w
  {}

  lemma WordBack(w: bv64)
    ensures 0 <= w as int < TWO_64 && AsWord(w as int) == w
  {
    NumberBack(w);
  }

  lemma WordWritten(m: nat, k: nat, words: seq<bv64>, word: nat -> bv64, i: nat)
    requires i < |words| && words[i] as int < TWO_64 && word(words[i] as int) == words[i]
    ensures WordAt(Encode(m, k, words), i, word) == words[i]
  {
    var xs := [m, k] + Numbers(words);
    assert xs[i + 2] == words[i] as int;
    NumberAt(xs, i + 2);
  }

  lemma WordsBack(m: nat, k: nat, words: seq<bv64>, word: nat -> bv64)
    requires forall i :: 0 <= i < |words| ==> words[i] as int < TWO_64 && word(words[i] as int) == words[i]
    ensures Words(Encode(m, k, words), |words|, word) == words
  {
    var data := Encode(m, k, words);
    forall i | 0 <= i < |words| ensures Words(data, |words|, word)[i] == words[i] {
      WordWritten(m, k, words, word, i);
      WordRead(data, |words|, word, i);
    }
  }

  lemma SizesBack(m: nat, k: nat, words: seq<bv64>)
    requires m < TWO_64 && k < TWO_64
    ensures var data := Encode(m, k, words);
            |data| == 16 + 8 * |words| && Uint64(data, 0) == m && Uint64(data, 8) == k
  {
    var xs := [m, k] + Numbers(words);
    NumberAt(xs, 0);
    NumberAt(xs, 1);
  }

  /** Reading back what was written gives the same size, number of probes and words. */
  lemma DecodeEncode(m: nat, k: nat, words: seq<bv64>)
    requires m < TWO_64 && k < TWO_64
    ensures var data := Encode(m, k, words);
            && |data| == 16 + 8 * |words| && Uint64(data, 0) == m && Uint64(data, 8) == k
            && Words(data, |words|, AsWord) == words
  {
    SizesBack(m, k, words);
    forall i | 0 <= i < |words| ensures words[i] as int < TWO_64 && AsWord(words[i] as int) == words[i] {
      WordBack(words[i]);
    }
    WordsBack(m, k, words, AsWord);
  }

  /** The answer of a filter of m bits and k probes, false if it has none to give. */
  ghost predicate Answers(m: nat, k: nat, words: seq<bv64>, key: Key) {
    m == 64 * |words| && (k > 0 ==> m > 0) && Finds(words, key, Positions(m), k)
  }

  /** A filter read back from the bytes of another gives the same answers. */
  lemma SameAnswers(m: nat, k: nat, words: seq<bv64>, key: Key)
    requires m < TWO_64 && k < TWO_64 && m == 64 * |words|
    ensures var data := Encode(m, k, words);
            && |data| >= 16
            && Answers(Uint64(data, 0), Uint64(data, 8), Words(data, Uint64(data, 0) / 64, AsWord), key)
               == Answers(m, k, words, key)
  {
    DecodeEncode(m, k, words);
    var data := Encode(m, k, words);
    SameFilter(m, k, words, Uint64(data, 0), Uint64(data, 8), Words(data, |words|, AsWord), key);
    assert Uint64(data, 0) / 64 == |words|;
  }

  lemma SameFilter(m: nat, k: nat, words: seq<bv64>, m': nat, k': nat, words': seq<bv64>, key: Key)
    requires m == m' && k == k' && words == words'
    ensures Answers(m', k', words', key) == Answers(m, k, words, key)
  {}
}
