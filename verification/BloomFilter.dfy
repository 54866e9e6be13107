/** The Bloom filter, proved against BloomSpec. */
module BloomFilters {
  import opened Spec = BloomSpec

  datatype Result<T> = Ok(value: T) | DataTooShort

  method Hash128(key: Key) returns (h1: bv64, h2: bv64)
    ensures h1 == Fnv(key) && h2 == Mix(h1)
  {
    h1 := Fold(key);
    h2 := Scrambled(h1, 0xff51afd7ed558ccd);
    h2 := Scrambled(h2, 0xc4ceb9fe1a85ec53);
    h2 := Shifted(h2);
  }

  method Fold(key: Key) returns (h1: bv64)
    ensures h1 == Fnv(key)
  {
    h1 := FNV_BASIS;
    for i := 0 to |key|
      invariant h1 == Fnv(key[..i])
    {
      assert key[..i + 1][..i] == key[..i];
      h1 := FnvStep(h1, key[i]);
    }
    assert key[..|key|] == key;
  }

  /** Writes a number at an offset of a buffer, lowest byte first. */
  method PutUint64(buf: array<Byte>, offset: nat, x: nat)
    requires offset + 8 <= buf.Length
    modifies buf
    ensures buf[offset..offset + 8] == PutLE(x, 8)
    ensures buf[..offset] == old(buf[..offset]) && buf[offset + 8..] == old(buf[offset + 8..])
  {
    var rest := x;
    for i := 0 to 8
      invariant buf[offset..offset + i] + PutLE(rest, 8 - i) == PutLE(x, 8)
      invariant buf[..offset] == old(buf[..offset]) && buf[offset + 8..] == old(buf[offset + 8..])
    {
      ghost var done := buf[offset..offset + i];
      buf[offset + i] := rest % 256;
      assert buf[offset..offset + i + 1] == done + [rest % 256];
      rest := rest / 256;
    }
  }

  /** Writes one more number after those already written. */
  method PutNext(buf: array<Byte>, ghost xs: seq<nat>, n: nat, x: nat)
    requires n < |xs| && x == xs[n] && 8 * n + 8 <= buf.Length && buf[..8 * n] == EncodeAll(xs[..n])
    modifies buf
    ensures buf[..8 * (n + 1)] == EncodeAll(xs[..n + 1])
  {
    PutUint64(buf, 8 * n, x);
    OneMoreNumber(xs, n, buf[..8 * n + 8]);
  }

  class BloomFilter {
    var bitset: array<bv64>
    var m: nat
    var k: nat
    var count: nat

    ghost predicate Valid()
      reads this
    {
      m == 64 * bitset.Length && m < TWO_64 && k < TWO_64 && count < TWO_64
    }

    /** Its probes can be computed. */
    ghost predicate Usable()
      reads this
    {
      Valid() && (k > 0 ==> m > 0)
    }

    /** The number of bits is rounded up to whole words, in 64-bit arithmetic. */
    constructor WithParams(m: nat, k: nat)
      requires m < TWO_64 && k < TWO_64
      ensures Valid() && fresh(bitset) && this.k == k && count == 0 && bitset[..] == Zeros(bitset.Length)
      ensures m + 63 < TWO_64 ==> m <= this.m < m + 64
      ensures m + 63 >= TWO_64 ==> this.m == 0
    {
      var wordCount := (m + 63) % TWO_64 / 64;
      this.m := wordCount * 64;
      this.k := k;
      count := 0;
      bitset := new bv64[wordCount](_ => 0);
    }

    constructor FromWords(bitset: array<bv64>, m: nat, k: nat)
      ensures this.bitset == bitset && this.m == m && this.k == k && count == 0
    {
      this.bitset := bitset;
      this.m := m;
      this.k := k;
      count := 0;
    }

    method SetBit(pos: nat)
      requires pos < 64 * bitset.Length
      modifies bitset
      ensures bitset[..] == Spec.SetBit(old(bitset[..]), pos)
    {
      var wordIdx := pos / 64;
      bitset[wordIdx] := WithBit(bitset[wordIdx], Index(pos));
    }

    method GetBit(pos: nat) returns (r: bool)
      requires pos < 64 * bitset.Length
      ensures r == BitAt(bitset[..], pos)
    {
      var wordIdx := pos / 64;
      r := HasBit(bitset[wordIdx], Index(pos));
    }

    method Add(key: Key)
      requires Usable()
      modifies bitset, this`count
      ensures Valid() && bitset[..] == Adding(old(bitset[..]), key, Positions(m), k)
      ensures count == (old(count) + 1) % TWO_64
    {
      var h1, h2 := Hash128(key);
      SetProbes(key, h1 as int, h2 as int, Positions(m));
      count := (count + 1) % TWO_64;
    }

    method SetProbes(ghost key: Key, h1: nat, h2: nat, ghost at: Prober)
      requires Valid() && (k > 0 ==> m > 0 && Within(at, m) && forall i :: Probe(h1, h2, i, m) == at(key, i))
      modifies bitset
      ensures bitset[..] == Adding(old(bitset[..]), key, at, k)
    {
      for i := 0 to k
        invariant bitset[..] == Adding(old(bitset[..]), key, at, i)
      {
        SetBit(Probe(h1, h2, i, m));
      }
    }

    method Contains(key: Key) returns (r: bool)
      requires Usable()
      ensures r == Finds(bitset[..], key, Positions(m), k)
    {
      var h1, h2 := Hash128(key);
      r := CheckProbes(key, h1 as int, h2 as int, Positions(m));
    }

    method CheckProbes(ghost key: Key, h1: nat, h2: nat, ghost at: Prober) returns (r: bool)
      requires Valid() && (k > 0 ==> m > 0 && Within(at, m) && forall i :: Probe(h1, h2, i, m) == at(key, i))
      ensures r == Finds(bitset[..], key, at, k)
    {
      for i := 0 to k
        invariant Finds(bitset[..], key, at, i)
      {
        var found := GetBit(Probe(h1, h2, i, m));
        if !found {
          return false;
        }
      }
      return true;
    }

    method Serialize() returns (buf: array<Byte>)
      requires Valid()
      ensures fresh(buf) && buf[..] == Encode(m, k, bitset[..])
    {
      buf := new Byte[16 + bitset.Length * 8](_ => 0);
      PutUint64(buf, 0, m);
      PutUint64(buf, 8, k);
      FirstNumbers([m, k] + Numbers(bitset[..]), buf[..16]);
      PutWords(buf, [m, k] + Numbers(bitset[..]));
    }

    method PutWords(buf: array<Byte>, ghost xs: seq<nat>)
      requires buf.Length == 16 + 8 * bitset.Length && |xs| == 2 + bitset.Length && xs[2..] == Numbers(bitset[..])
      requires buf[..16] == EncodeAll(xs[..2])
      modifies buf
      ensures buf[..] == EncodeAll(xs)
    {
      for i := 0 to bitset.Length
        invariant buf[..8 * (2 + i)] == EncodeAll(xs[..2 + i])
      {
        assert xs[2 + i] == xs[2..][i];
        PutNext(buf, xs, 2 + i, bitset[i] as int);
      }
      assert xs[..2 + bitset.Length] == xs;
      assert buf[..8 * (2 + bitset.Length)] == buf[..];
    }

    static method Deserialize(data: seq<Byte>) returns (r: Result<BloomFilter>)
      ensures r.DataTooShort? <==> |data| < 16
      ensures r.Ok? ==>
                var f := r.value;
                && fresh(f) && fresh(f.bitset) && f.count == 0
                && (f.Valid() <==> f.m % 64 == 0)
                && (f.Usable() <==> f.m % 64 == 0 && (f.k == 0 || f.m > 0))
                && f.m == Uint64(data, 0) && f.k == Uint64(data, 8) && f.bitset[..] == Words(data, f.m / 64, AsWord)
    {
      if |data| < 16 {
        return DataTooShort;
      }
      var m, k := Uint64(data, 0), Uint64(data, 8);
      var bitset := GetWords(data, m / 64, AsWord);
      var f := new BloomFilter.FromWords(bitset, m, k);
      return Ok(f);
    }

    static method GetWords(data: seq<Byte>, wordCount: nat, word: nat -> bv64) returns (bitset: array<bv64>)
      ensures fresh(bitset) && bitset[..] == Words(data, wordCount, word)
    {
      bitset := new bv64[wordCount](_ => 0);
      ghost var words := Words(data, wordCount, word);
      var i := 0;
      while i < wordCount
        invariant 0 <= i <= wordCount
        invariant forall j :: 0 <= j < i ==> bitset[j] == words[j]
        invariant forall j :: i <= j < wordCount ==> bitset[j] == 0
      {
        WordRead(data, wordCount, word, i);
        var offset := 16 + i * 8;
        if offset + 8 > |data| {
          forall j | i <= j < wordCount ensures words[j] == 0 { WordRead(data, wordCount, word, j); }
          break;
        }
        bitset[i] := word(Uint64(data, offset));
        i := i + 1;
      }
    }
  }
}
