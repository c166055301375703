/**
 The Bloom filter policy: bits chosen by double hashing. The hash of a key is any function to 32-bit words.
 */
module Bloom {
  import opened Bytes

  type HashFn = Bytes -> Word

  // --- Bits ---------------------------------------------------------------------------------

  /** Bit i of n. */
  predicate Has(n: nat, i: nat)
  {
    if i == 0 then n % 2 == 1 else Has(n / 2, i - 1)
  }

  /** n with bit i set. */
  function With(n: nat, i: nat): nat
  {
    if i == 0 then n - n % 2 + 1 else 2 * With(n / 2, i - 1) + n % 2
  }

  lemma {:induction false} WithSets(n: nat, i: nat, j: nat)
    ensures Has(With(n, i), j) <==> i == j || Has(n, j)
  {
    if i > 0 && j > 0 {
      WithSets(n / 2, i - 1, j - 1);
      assert With(n, i) / 2 == With(n / 2, i - 1);
    }
  }

  lemma {:induction false} WithFits(n: nat, i: nat, size: nat)
    requires i < size && n < Pow2(size)
    ensures With(n, i) < Pow2(size)
  {
    if i > 0 { WithFits(n / 2, i - 1, size - 1); }
  }

  /** array[pos / 8] |= 1 << (pos % 8). */
  function SetBit(a: Bytes, pos: nat): (r: Bytes)
    requires pos < 8 * |a|
    ensures |r| == |a|
  {
    BitFits(a[pos / 8], pos % 8);
    a[pos / 8 := With(a[pos / 8], pos % 8)]
  }

  lemma BitFits(b: Byte, i: nat)
    requires i < 8
    ensures With(b, i) < 256
  {
    assert Pow2(8) == 256;
    WithFits(b, i, 8);
  }

  predicate TestBit(a: Bytes, pos: nat)
    requires pos < 8 * |a|
  {
    Has(a[pos / 8], pos % 8)
  }

  lemma SetBitSets(a: Bytes, pos: nat, q: nat)
    requires pos < 8 * |a| && q < 8 * |a|
    ensures TestBit(SetBit(a, pos), q) <==> pos == q || TestBit(a, q)
  {
    WithSets(a[pos / 8], pos % 8, q % 8);
  }

  // --- Probes -------------------------------------------------------------------------------

  /** Rotate right by 17 bits. */
  function Delta(h: Word): Word
  {
    h / 0x2_0000 + h % 0x2_0000 * 0x8000
  }

  /** The hash used for probe j. */
  function Probe(h: Word, j: nat): Word
  {
    if j == 0 then h else (Probe(h, j - 1) + Delta(h)) % 0x1_0000_0000
  }

  /** All k probes of a hash find their bit. */
  ghost predicate Marked(a: Bytes, h: Word, k: nat)
    requires |a| > 0
  {
    forall j :: 0 <= j < k ==> TestBit(a, Probe(h, j) % (8 * |a|))
  }

  /** One of the k probes of a hash goes to bit q. */
  ghost predicate HitBy(h: Word, k: nat, bits: nat, q: nat)
    requires bits > 0
  {
    exists j :: 0 <= j < k && Probe(h, j) % bits == q
  }

  /** A probe of one of the keys goes to bit q. */
  ghost predicate Hit(hash: HashFn, k: nat, keys: seq<Bytes>, bits: nat, q: nat)
    requires bits > 0
  {
    exists key :: key in keys && HitBy(hash(key), k, bits, q)
  }

  /** Bits set so far: those of a and those of the first j probes. */
  ghost predicate Probed(a: Bytes, r: Bytes, h: Word, j: nat)
    requires |a| > 0
  {
    |r| == |a| && forall q :: 0 <= q < 8 * |a| ==> (TestBit(r, q) <==> TestBit(a, q) || HitBy(h, j, 8 * |a|, q))
  }

  /** Setting the bit of probe j. */
  lemma ProbedOneMore(a: Bytes, r: Bytes, h: Word, j: nat)
    requires |a| > 0 && Probed(a, r, h, j)
    ensures Probed(a, SetBit(r, Probe(h, j) % (8 * |a|)), h, j + 1)
  {
    var pos := Probe(h, j) % (8 * |a|);
    forall q | 0 <= q < 8 * |a|
      ensures TestBit(SetBit(r, pos), q) <==> TestBit(a, q) || HitBy(h, j + 1, 8 * |a|, q)
    {
      SetBitSets(r, pos, q);
      assert HitBy(h, j + 1, 8 * |a|, q) <==> HitBy(h, j, 8 * |a|, q) || pos == q;
    }
  }

  /** The inner loop of CreateFilter: the probes of one key. */
  method MarkKey(a: Bytes, h0: Word, k: nat) returns (r: Bytes)
    requires |a| > 0
    ensures Probed(a, r, h0, k)
  {
    var h := h0;
    r := a;
    for j := 0 to k
      invariant Probed(a, r, h0, j) && h == Probe(h0, j)
    {
      ProbedOneMore(a, r, h0, j);
      r := SetBit(r, h % (8 * |a|));
      h := (h + Delta(h0)) % 0x1_0000_0000;
    }
  }

  /** A filter: its bits and, in the last byte, the number of probes. */
  ghost predicate Matches(hash: HashFn, filter: Bytes, key: Bytes)
  {
    |filter| >= 2 && (filter[|filter| - 1] > 30 || Marked(filter[..|filter| - 1], hash(key), filter[|filter| - 1]))
  }

  /** The size of the bit array for n keys: at least 8 bytes. */
  function ArraySize(n: nat, bitsPerKey: nat): (bytes: nat)
    ensures 8 * bytes >= 64 && 8 * bytes >= n * bitsPerKey
  {
    ((if n * bitsPerKey < 64 then 64 else n * bitsPerKey) + 7) / 8
  }

  /** The bit array holds exactly the probes of the keys. */
  ghost predicate Exact(hash: HashFn, k: nat, keys: seq<Bytes>, a: Bytes)
    requires |a| > 0
  {
    forall q :: 0 <= q < 8 * |a| ==> (TestBit(a, q) <==> Hit(hash, k, keys, 8 * |a|, q))
  }

  /** What a filter for the keys lets through: keys all of whose probes go to bits that the keys probe too. */
  ghost predicate LetsThrough(hash: HashFn, bitsPerKey: nat, k: nat, keys: seq<Bytes>, key: Bytes)
  {
    var bits := 8 * ArraySize(|keys|, bitsPerKey);
    k > 30 || forall j :: 0 <= j < k ==> Hit(hash, k, keys, bits, Probe(hash(key), j) % bits)
  }

  /** No false negatives. */
  lemma MembersPass(hash: HashFn, bitsPerKey: nat, k: nat, keys: seq<Bytes>, key: Bytes)
    requires key in keys
    ensures LetsThrough(hash, bitsPerKey, k, keys, key)
  {
  }

  lemma ExactMatches(hash: HashFn, bitsPerKey: nat, k: Byte, keys: seq<Bytes>, a: Bytes, key: Bytes)
    requires |a| == ArraySize(|keys|, bitsPerKey) && Exact(hash, k, keys, a)
    ensures Matches(hash, a + [k], key) <==> LetsThrough(hash, bitsPerKey, k, keys, key)
  {
  }

  lemma {:induction false} NoBits(i: nat)
    ensures !Has(0, i)
  {
    if i > 0 { NoBits(i - 1); }
  }

  lemma ExactEmpty(hash: HashFn, k: nat, n: nat)
    requires n > 0
    ensures Exact(hash, k, [], seq(n, _ => 0))
  {
    var a: Bytes := seq(n, _ => 0);
    forall q | 0 <= q < 8 * |a| ensures !TestBit(a, q) {
      NoBits(q % 8);
    }
  }

  lemma ExactStep(hash: HashFn, k: nat, keys: seq<Bytes>, key: Bytes, a: Bytes, r: Bytes)
    requires |a| > 0 && Exact(hash, k, keys, a) && Probed(a, r, hash(key), k)
    ensures Exact(hash, k, keys + [key], r)
  {
  }

  /** CreateFilter: the filter matches exactly what it should let through. The policy keeps k between 1 and 30. */
  method CreateFilter(hash: HashFn, bitsPerKey: nat, k: Byte, keys: seq<Bytes>) returns (filter: Bytes)
    ensures |filter| == ArraySize(|keys|, bitsPerKey) + 1 && filter[|filter| - 1] == k
    ensures forall key :: Matches(hash, filter, key) <==> LetsThrough(hash, bitsPerKey, k, keys, key)
  {
    var bits := |keys| * bitsPerKey;
    if bits < 64 {
      bits := 64;
    }
    var bytes := (bits + 7) / 8;
    var a: Bytes := seq(bytes, _ => 0);
    ExactEmpty(hash, k, bytes);
    for i := 0 to |keys|
      invariant |a| == bytes && Exact(hash, k, keys[..i], a)
    {
      var r := MarkKey(a, hash(keys[i]), k);
      ExactStep(hash, k, keys[..i], keys[i], a, r);
      assert keys[..i] + [keys[i]] == keys[..i + 1];
      a := r;
    }
    assert keys[..|keys|] == keys;
    filter := a + [k];
    forall key ensures Matches(hash, filter, key) <==> LetsThrough(hash, bitsPerKey, k, keys, key) {
      ExactMatches(hash, bitsPerKey, k, keys, a, key);
    }
  }

  /** KeyMayMatch, both ways: true exactly when the filter matches. */
  method KeyMayMatch(hash: HashFn, key: Bytes, filter: Bytes) returns (may: bool)
    ensures may <==> Matches(hash, filter, key)
  {
    var len := |filter|;
    if len < 2 {
      return false;
    }
    var a := filter[..len - 1];
    var k := filter[len - 1];
    if k > 30 {
      return true;
    }
    var h := hash(key);
    var delta := Delta(h);
    for j := 0 to k
      invariant h == Probe(hash(key), j) && Marked(a, hash(key), j)
    {
      if !TestBit(a, h % (8 * |a|)) {
        return false;
      }
      h := (h + delta) % 0x1_0000_0000;
    }
    return true;
  }
}
