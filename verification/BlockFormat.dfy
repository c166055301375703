/**
 The format of a block: prefix-compressed entries, then the offsets of the restart points, then their number.
 */
module BlockFormat {
  import opened Bytes
  import opened Keys
  import opened Coding

  datatype Pair = Pair(key: Bytes, value: Bytes)

  // --- One entry ----------------------------------------------------------------------------

  /** <shared><non_shared><value_size><key delta><value>. */
  function EntryBytes(shared: nat, e: Pair): (b: Bytes)
    requires shared <= |e.key|
    ensures |b| >= 3 + |e.key| - shared + |e.value|
  {
    Varint(shared) + Varint(|e.key| - shared) + Varint(|e.value|) + (e.key[shared..] + e.value)
  }

  datatype Head = Head(shared: nat, nonShared: nat, valueLength: nat, size: nat)

  /** The three lengths, each as a varint. */
  function ReadHead(s: Bytes): (r: Option<Head>)
    ensures r.Some? ==> 3 <= r.value.size <= |s|
  {
    match ReadVarint32(s)
    case None => None
    case Some(a) =>
      match ReadVarint32(s[a.size..])
      case None => None
      case Some(b) =>
        match ReadVarint32(s[a.size + b.size..])
        case None => None
        case Some(c) => Some(Head(a.value, b.value, c.value, a.size + b.size + c.size))
  }

  /** Addition of 32-bit words. */
  function Add32(a: nat, b: nat): nat { if a + b < WORD32 then a + b else a + b - WORD32 }

  /** DecodeEntry: the fast path when all three lengths are below 128, and the bound check on 32-bit words. */
  function DecodeEntry(s: Bytes): (r: Option<Head>)
    ensures r.Some? ==> 3 <= r.value.size <= |s|
  {
    if |s| < 3 then None
    else
      var h := if s[0] < 128 && s[1] < 128 && s[2] < 128 then Some(Head(s[0], s[1], s[2], 3)) else ReadHead(s);
      if h.None? || |s| - h.value.size < Add32(h.value.nonShared, h.value.valueLength) then None else h
  }

  lemma HeadOf(s: Bytes, a: Taken, b: Taken, c: Taken)
    requires a.size + b.size <= |s| && ReadVarint32(s) == Some(a)
    requires ReadVarint32(s[a.size..]) == Some(b) && ReadVarint32(s[a.size + b.size..]) == Some(c)
    ensures ReadHead(s) == Some(Head(a.value, b.value, c.value, a.size + b.size + c.size))
  {
  }

  lemma Split(x: Bytes, y: Bytes, z: Bytes, rest: Bytes)
    ensures
      var s := x + y + z + rest;
      s == x + (y + z + rest) && s[|x|..] == y + (z + rest) && s[|x| + |y|..] == z + rest
  {
  }

  /** x encodes v: it reads back as v whatever follows. */
  ghost predicate Codes(x: Bytes, v: nat)
  {
    forall rest {:trigger ReadVarint32(x + rest)} :: ReadVarint32(x + rest) == Some(Taken(v, |x|))
  }

  lemma VarintCodes(v: nat)
    requires v < WORD32
    ensures Codes(Varint(v), v)
  {
    forall rest ensures ReadVarint32(Varint(v) + rest) == Some(Taken(v, |Varint(v)|)) {
      Varint32RoundTrip(v, rest);
    }
  }

  lemma ReadThree(x: Bytes, y: Bytes, z: Bytes, rest: Bytes, a: nat, b: nat, c: nat)
    requires Codes(x, a) && Codes(y, b) && Codes(z, c)
    ensures ReadHead(x + y + z + rest) == Some(Head(a, b, c, |x| + |y| + |z|))
  {
    Split(x, y, z, rest);
    assert ReadVarint32(x + (y + z + rest)) == Some(Taken(a, |x|));
    assert ReadVarint32(y + (z + rest)) == Some(Taken(b, |y|));
    assert ReadVarint32(z + rest) == Some(Taken(c, |z|));
    HeadOf(x + y + z + rest, Taken(a, |x|), Taken(b, |y|), Taken(c, |z|));
  }

  /** The fast path agrees with reading three varints. */
  lemma DecodeIsReadHead(s: Bytes)
    requires ReadHead(s).Some?
    ensures
      var h := ReadHead(s).value;
      |s| - h.size >= h.nonShared + h.valueLength && h.nonShared + h.valueLength < WORD32 ==> DecodeEntry(s) == Some(h)
  {
  }

  /**
   The bound check adds 32-bit words. An entry that passes it lies inside the block exactly when that sum does not wrap
   around.
   */
  lemma CheckedEntryFits(s: Bytes)
    requires |s| < WORD32 && DecodeEntry(s).Some?
    ensures
      var h := DecodeEntry(s).value;
      && h.size + Add32(h.nonShared, h.valueLength) <= |s|
      && (h.size + h.nonShared + h.valueLength <= |s| <==> h.nonShared + h.valueLength < WORD32)
  {
  }

  /** Such entries pass: here a key delta of 2^32 - 1 bytes and a value of one in a block of seven bytes. */
  lemma WrappedEntryPasses()
    ensures
      var s: Bytes := [0, 255, 255, 255, 255, 15, 1];
      DecodeEntry(s) == Some(Head(0, 0xffff_ffff, 1, 7))
  {
    var s: Bytes := [0, 255, 255, 255, 255, 15, 1];
    assert ReadVarint32(s) == Some(Taken(0, 1));
    assert s[1..] == [255, 255, 255, 255, 15, 1];
    LongVarint();
    assert s[6..] == [1] && ReadVarint32(s[6..]) == Some(Taken(1, 1));
    HeadOf(s, Taken(0, 1), Taken(0xffff_ffff, 5), Taken(1, 1));
  }

  lemma LongVarint()
    ensures ReadVarint32([255, 255, 255, 255, 15, 1]) == Some(Taken(0xffff_ffff, 5))
  {
    var t: Bytes := [255, 255, 255, 255, 15, 1];
    assert t[1..] == [255, 255, 255, 15, 1] && t[1..][1..] == [255, 255, 15, 1];
    assert t[1..][1..][1..] == [255, 15, 1] && t[1..][1..][1..][1..] == [15, 1];
    assert TakeVarint([15, 1], 1) == Some(Taken(15, 1));
    assert TakeVarint([255, 15, 1], 2) == Some(Taken(0x7ff, 2));
    assert TakeVarint([255, 255, 15, 1], 3) == Some(Taken(0x3_ffff, 3));
    assert TakeVarint([255, 255, 255, 15, 1], 4) == Some(Taken(0x1ff_ffff, 4));
    assert TakeVarint(t, 5) == Some(Taken(0xffff_ffff, 5));
  }

  /** An encoded entry decodes to its lengths, its key delta and its value, whatever follows it. */
  lemma DecodeEncoded(shared: nat, e: Pair, rest: Bytes)
    requires shared <= |e.key| && |e.key| + |e.value| < WORD32
    ensures
      var s := EntryBytes(shared, e) + rest;
      var size := |EntryBytes(shared, e)| - (|e.key| - shared) - |e.value|;
      && DecodeEntry(s) == Some(Head(shared, |e.key| - shared, |e.value|, size))
      && s[size..size + (|e.key| - shared)] == e.key[shared..]
      && s[size + (|e.key| - shared)..|EntryBytes(shared, e)|] == e.value
  {
    VarintCodes(shared);
    VarintCodes(|e.key| - shared);
    VarintCodes(|e.value|);
    assert |e.key[shared..]| == |e.key| - shared;
    DecodeCoded(Varint(shared), Varint(|e.key| - shared), Varint(|e.value|), shared, e.key[shared..], e.value, rest);
  }

  lemma DecodeCoded(x: Bytes, y: Bytes, z: Bytes, shared: nat, delta: Bytes, value: Bytes, rest: Bytes)
    requires Codes(x, shared) && Codes(y, |delta|) && Codes(z, |value|) && |delta| + |value| < WORD32
    ensures
      var s := x + y + z + (delta + value) + rest;
      var size := |x| + |y| + |z|;
      && DecodeEntry(s) == Some(Head(shared, |delta|, |value|, size))
      && s[size..size + |delta|] == delta && s[size + |delta|..size + |delta| + |value|] == value
  {
    Parts(x + y + z, delta, value, rest);
    ReadThree(x, y, z, delta + value + rest, shared, |delta|, |value|);
    DecodeIsReadHead(x + y + z + (delta + value + rest));
  }

  lemma Parts(a: Bytes, b: Bytes, c: Bytes, d: Bytes)
    ensures
      var s := a + (b + c) + d;
      && s[|a|..|a| + |b|] == b && s[|a| + |b|..|a| + |b| + |c|] == c
      && s == a + (b + c + d)
  {
  }

  // --- A whole block ------------------------------------------------------------------------

  /** How the entries of a block lie in it: offs[i] is where entry i starts, the last of offs where the entries end;
      starts[k] is the entry at restart point k; shared[i] is how much of its key entry i leaves out. */
  datatype Layout = Layout(entries: seq<Pair>, offs: seq<nat>, starts: seq<nat>, shared: seq<nat>)

  /** Offsets grow, the first restart point is entry 0, and an empty block has that one restart point. */
  ghost predicate Shape(l: Layout)
  {
    && |l.offs| == |l.entries| + 1 && l.offs[0] == 0 && |l.shared| == |l.entries|
    && (forall i, j :: 0 <= i < j < |l.offs| ==> l.offs[i] < l.offs[j])
    && |l.starts| >= 1 && l.starts[0] == 0
    && (forall k, m :: 0 <= k < m < |l.starts| ==> l.starts[k] < l.starts[m])
    && (forall k :: 0 <= k < |l.starts| ==> l.starts[k] == 0 || l.starts[k] < |l.entries|)
  }

  /** Entry i leaves out a prefix that it shares with its predecessor; entries at restart points leave out nothing. */
  ghost predicate SharedOk(l: Layout, i: int)
    requires Shape(l) && 0 <= i < |l.entries|
  {
    && l.shared[i] <= |l.entries[i].key|
    && (i > 0 ==> l.shared[i] <= |l.entries[i - 1].key| && l.entries[i].key[..l.shared[i]] == l.entries[i - 1].key[..l.shared[i]])
    && (i == 0 || i in l.starts ==> l.shared[i] == 0)
  }

  ghost predicate EntryOk(l: Layout, data: Bytes, i: int)
    requires Shape(l) && 0 <= i < |l.entries| && l.offs[i + 1] <= |data|
  {
    SharedOk(l, i) && data[l.offs[i]..l.offs[i + 1]] == EntryBytes(l.shared[i], l.entries[i])
  }

  function End(l: Layout): nat
    requires |l.offs| >= 1
  {
    l.offs[|l.offs| - 1]
  }

  /** The entries lie in the data as the layout says. */
  ghost predicate Lies(l: Layout, data: Bytes)
  {
    && Shape(l) && End(l) <= |data|
    && forall i :: 0 <= i < |l.entries| ==> l.offs[i + 1] <= |data| && EntryOk(l, data, i)
  }

  /** GetRestartPoint. */
  function RestartPoint(block: Bytes, restarts: nat, k: nat): nat
    requires restarts + 4 * k + 4 <= |block|
  {
    Number(block[restarts + 4 * k..restarts + 4 * k + 4])
  }

  /** A block of the given layout: the entries, and restart points that lead to the entries of starts. */
  ghost predicate IsBlock(l: Layout, block: Bytes)
  {
    && Lies(l, block) && End(l) < WORD32 && |block| == End(l) + 4 * |l.starts| + 4
    && (forall k :: 0 <= k < |l.starts| ==> RestartPoint(block, End(l), k) == l.offs[l.starts[k]])
    && Number(block[|block| - 4..]) == |l.starts|
  }

  datatype Opened = Corrupt | Empty | Entries(restarts: nat, numRestarts: nat)

  /** The Block constructor and NewIterator. */
  function Open(block: Bytes): (r: Opened)
    ensures r.Entries? ==> r.numRestarts > 0 && r.restarts + 4 * r.numRestarts + 4 == |block|
  {
    if |block| < 4 then Corrupt
    else
      var n := Number(block[|block| - 4..]);
      if n > (|block| - 4) / 4 then Corrupt
      else if n == 0 then Empty
      else Entries(|block| - (1 + n) * 4, n)
  }

  lemma OpenBlock(l: Layout, block: Bytes)
    requires IsBlock(l, block)
    ensures Open(block) == Entries(End(l), |l.starts|)
  {
  }
}
