/**
 Fixed-width, varint and length-prefixed codecs. A byte is an integer below 256; unsigned words are integers
 below 2^32 or 2^64, and the bitwise or of fields that share no bit is written as their sum.
 */
module Coding {
  import opened Bytes
  import opened Keys

  const WORD32: nat := 0x1_0000_0000
  const WORD64: nat := 0x1_0000_0000_0000_0000

  function Pow(b: nat, n: nat): (r: nat)
    ensures b > 0 ==> r > 0
  {
    if n == 0 then 1 else b * Pow(b, n - 1)
  }

  // --- Fixed width --------------------------------------------------------------------------

  /** The n low-order bytes of v, least significant first. */
  function Fixed(n: nat, v: nat): (b: Bytes)
    ensures |b| == n
  {
    if n == 0 then [] else [v % 256] + Fixed(n - 1, v / 256)
  }

  /** The number that a little-endian byte string stands for. */
  function Number(b: Bytes): nat
  {
    if b == [] then 0 else b[0] + 256 * Number(b[1..])
  }

  lemma {:induction false} NumberOfFixed(n: nat, v: nat)
    requires v < Pow(256, n)
    ensures Number(Fixed(n, v)) == v
  {
    if n > 0 {
      var p := Pow(256, n - 1);
      assert v / 256 < p;
      NumberOfFixed(n - 1, v / 256);
      assert Fixed(n, v)[1..] == Fixed(n - 1, v / 256);
    }
  }

  lemma {:induction false} FixedOfNumber(b: Bytes)
    ensures Number(b) < Pow(256, |b|) && Fixed(|b|, Number(b)) == b
  {
    if b != [] {
      FixedOfNumber(b[1..]);
      Digit(b[0], Number(b[1..]));
      assert Number(b[1..]) + 1 <= Pow(256, |b| - 1);
      assert b == [b[0]] + b[1..];
    }
  }

  lemma Digit(d: Byte, rest: nat)
    ensures (d + 256 * rest) % 256 == d && (d + 256 * rest) / 256 == rest
  {
  }

  lemma Words()
    ensures Pow(256, 4) == WORD32 && Pow(256, 8) == WORD64
  {
    assert Pow(256, 1) == 256;
    assert Pow(256, 2) == 0x1_0000;
    assert Pow(256, 3) == 0x100_0000;
    assert Pow(256, 4) == WORD32;
    assert Pow(256, 5) == 0x100_0000_0000;
    assert Pow(256, 6) == 0x1_0000_0000_0000;
    assert Pow(256, 7) == 0x100_0000_0000_0000;
  }

  // --- Varints ------------------------------------------------------------------------------

  /** Seven bits to a byte, least significant first, the high bit set on all bytes but the last. */
  function Varint(v: nat): (b: Bytes)
    ensures |b| >= 1
  {
    if v < 128 then [v] else [v % 128 + 128] + Varint(v / 128)
  }

  datatype Taken = Taken(value: nat, size: nat)

  /** The varint at the start of s, of at most groups bytes; its value is not yet truncated. */
  function TakeVarint(s: Bytes, groups: nat): (r: Option<Taken>)
    ensures r.Some? ==> 1 <= r.value.size <= |s| && r.value.size <= groups
    decreases |s|
  {
    if s == [] || groups == 0 then None
    else if s[0] < 128 then Some(Taken(s[0], 1))
    else
      match TakeVarint(s[1..], groups - 1)
      case None => None
      case Some(t) => Some(Taken(s[0] - 128 + 128 * t.value, t.size + 1))
  }

  /** GetVarint32 reads at most five bytes and keeps 32 bits; GetVarint64 reads at most ten and keeps 64. */
  function Truncated(t: Option<Taken>, word: nat): (r: Option<Taken>)
    requires word > 0
    ensures t.Some? <==> r.Some?
    ensures r.Some? ==> r.value.size == t.value.size && r.value.value < word
  {
    match t
    case None => None
    case Some(x) => Some(Taken(x.value % word, x.size))
  }

  function ReadVarint32(s: Bytes): (r: Option<Taken>)
    ensures r.Some? ==> 1 <= r.value.size <= |s| && r.value.value < WORD32
  {
    match TakeVarint(s, 5)
    case None => None
    case Some(x) => Some(Taken(x.value % 0x1_0000_0000, x.size))
  }

  function ReadVarint64(s: Bytes): (r: Option<Taken>)
    ensures r.Some? ==> 1 <= r.value.size <= |s| && r.value.value < WORD64
  {
    match TakeVarint(s, 10)
    case None => None
    case Some(x) => Some(Taken(x.value % 0x1_0000_0000_0000_0000, x.size))
  }

  lemma {:induction false} TakeInvertsVarint(v: nat, rest: Bytes, groups: nat)
    requires v < Pow(128, groups) && groups > 0
    ensures |Varint(v)| <= groups
    ensures TakeVarint(Varint(v) + rest, groups) == Some(Taken(v, |Varint(v)|))
  {
    var s := Varint(v) + rest;
    if v >= 128 {
      assert Pow(128, 1) == 128;
      assert Pow(128, groups) == 128 * Pow(128, groups - 1);
      assert v / 128 < Pow(128, groups - 1);
      TakeInvertsVarint(v / 128, rest, groups - 1);
      assert s[1..] == Varint(v / 128) + rest;
    } else {
      assert Pow(128, 0) == 1;
      assert s[0] == v;
    }
  }

  lemma Groups()
    ensures WORD32 <= Pow(128, 5) && WORD64 <= Pow(128, 10)
  {
    assert Pow(128, 1) == 0x80;
    assert Pow(128, 2) == 0x4000;
    assert Pow(128, 3) == 0x20_0000;
    assert Pow(128, 4) == 0x1000_0000;
    assert Pow(128, 5) == 0x8_0000_0000;
    assert Pow(128, 6) == 0x400_0000_0000;
    assert Pow(128, 7) == 0x2_0000_0000_0000;
    assert Pow(128, 8) == 0x100_0000_0000_0000;
    assert Pow(128, 9) == 0x8000_0000_0000_0000;
    assert Pow(128, 10) == 0x40_0000_0000_0000_0000;
  }

  lemma Varint32RoundTrip(v: nat, rest: Bytes)
    requires v < WORD32
    ensures ReadVarint32(Varint(v) + rest) == Some(Taken(v, |Varint(v)|)) && |Varint(v)| <= 5
  {
    Groups();
    TakeInvertsVarint(v, rest, 5);
  }

  lemma Varint64RoundTrip(v: nat, rest: Bytes)
    requires v < WORD64
    ensures ReadVarint64(Varint(v) + rest) == Some(Taken(v, |Varint(v)|)) && |Varint(v)| <= 10
  {
    Groups();
    TakeInvertsVarint(v, rest, 10);
  }

  /** EncodeVarint32, written out case by case as the source has it. */
  method EncodeVarint32(v: nat) returns (b: Bytes)
    requires v < WORD32
    ensures b == Varint(v)
  {
    Shifts(v);
    if v < 0x80 {
      b := [v];
    } else if v < 0x4000 {
      b := [v % 128 + 128, v / 0x80];
    } else if v < 0x20_0000 {
      b := [v % 128 + 128, v / 0x80 % 128 + 128, v / 0x4000];
      assert Varint(v / 0x80) == [b[1], b[2]];
    } else if v < 0x1000_0000 {
      b := [v % 128 + 128, v / 0x80 % 128 + 128, v / 0x4000 % 128 + 128, v / 0x20_0000];
      assert Varint(v / 0x4000) == [b[2], b[3]];
      assert Varint(v / 0x80) == [b[1], b[2], b[3]];
    } else {
      b := [v % 128 + 128, v / 0x80 % 128 + 128, v / 0x4000 % 128 + 128, v / 0x20_0000 % 128 + 128, v / 0x1000_0000];
      assert Varint(v / 0x20_0000) == [b[3], b[4]];
      assert Varint(v / 0x4000) == [b[2], b[3], b[4]];
      assert Varint(v / 0x80) == [b[1], b[2], b[3], b[4]];
    }
  }

  lemma Shifts(v: nat)
    ensures v / 0x80 / 128 == v / 0x4000
    ensures v / 0x4000 / 128 == v / 0x20_0000
    ensures v / 0x20_0000 / 128 == v / 0x1000_0000
  {
  }

  /** EncodeVarint64's loop. */
  method EncodeVarint64(value: nat) returns (b: Bytes)
    ensures b == Varint(value)
  {
    b := [];
    var v := value;
    while v >= 128
      invariant b + Varint(v) == Varint(value)
    {
      b := b + [v % 128 + 128];
      v := v / 128;
    }
    b := b + [v];
  }

  /** result |= x << shift on a word of the given size, where scale is 2^shift. */
  function OrShifted(result: nat, x: nat, scale: nat, word: nat): nat
    requires word > 0
  {
    (result + x * scale % word) % word
  }

  /** The loop of GetVarint32PtrFallback and GetVarint64Ptr: shift <= 28 allows five bytes, shift <= 63 ten. */
  method GetVarint(s: Bytes, groups: nat, word: nat) returns (r: Option<Taken>)
    requires word > 0
    ensures r == Truncated(TakeVarint(s, groups), word)
  {
    var result: nat, scale: nat, i: nat := 0, 1, 0;
    ghost var sum: nat := 0;
    ghost var whole := TakeVarint(s, groups);
    while i < groups && i < |s|
      invariant i <= |s| && i <= groups
      invariant whole == Joined(sum, scale, i, TakeVarint(s[i..], groups - i))
      invariant result == sum % word
    {
      var byte := s[i];
      assert s[i..][0] == byte && s[i..][1..] == s[i + 1..];
      if byte >= 128 {
        JoinedStep(sum, scale, i, byte - 128, TakeVarint(s[i + 1..], groups - i - 1));
        OrShiftedAdds(sum, byte - 128, scale, word);
        result := OrShifted(result, byte - 128, scale, word);
        sum := Sum(sum, byte - 128, scale);
      } else {
        OrShiftedAdds(sum, byte, scale, word);
        result := OrShifted(result, byte, scale, word);
        return Some(Taken(result, i + 1));
      }
      i := i + 1;
      scale := scale * 128;
    }
    r := None;
  }

  /** GetVarint32 and GetVarint64. */
  method GetVarint32(s: Bytes) returns (r: Option<Taken>)
    ensures r == ReadVarint32(s)
  {
    r := GetVarint(s, 5, WORD32);
  }

  method GetVarint64(s: Bytes) returns (r: Option<Taken>)
    ensures r == ReadVarint64(s)
  {
    r := GetVarint(s, 10, WORD64);
  }

  ghost function Sum(sum: nat, x: nat, scale: nat): nat { sum + x * scale }

  /** What the loop will have read once the rest of the varint is known. */
  ghost function Joined(sum: nat, scale: nat, i: nat, rest: Option<Taken>): Option<Taken>
  {
    match rest
    case None => None
    case Some(t) => Some(Taken(Sum(sum, t.value, scale), i + t.size))
  }

  lemma JoinedStep(sum: nat, scale: nat, i: nat, x: nat, rest: Option<Taken>)
    ensures
      var more := match rest case None => None case Some(t) => Some(Taken(x + 128 * t.value, t.size + 1));
      Joined(sum, scale, i, more) == Joined(Sum(sum, x, scale), scale * 128, i + 1, rest)
  {
    if rest.Some? {
      var v := rest.value.value;
      assert (x + 128 * v) * scale == x * scale + v * (scale * 128);
    }
  }

  lemma OrShiftedAdds(sum: nat, x: nat, scale: nat, word: nat)
    requires word > 0
    ensures OrShifted(sum % word, x, scale, word) == Sum(sum, x, scale) % word
  {
    AddTruncated(sum, x * scale, word);
  }

  lemma AddTruncated(a: nat, b: nat, word: nat)
    requires word > 0
    ensures (a % word + b % word) % word == (a + b) % word
  {
    var x, y, c := a / word, b / word, a % word + b % word;
    Distribute(x, y, c / word, word);
    Remainder(a + b, word, x + y + c / word, c % word);
  }

  lemma Distribute(x: nat, y: nat, z: nat, word: nat)
    ensures (x + y + z) * word == x * word + y * word + z * word
  {
  }

  lemma Remainder(a: nat, word: nat, q: nat, r: nat)
    requires word > 0 && r < word && a == q * word + r
    ensures a % word == r
  {
    var d := a / word - q;
    assert d * word == r - a % word;
    Multiples(d, word);
  }

  lemma Multiples(d: int, word: nat)
    ensures d >= 1 ==> d * word >= word
    ensures d <= -1 ==> d * word + word <= 0
  {
  }

  // --- Length-prefixed slices ---------------------------------------------------------------

  function Prefixed(b: Bytes): Bytes { Varint(|b|) + b }

  datatype Slice = Slice(data: Bytes, size: nat)

  /** GetLengthPrefixedSlice: the slice and the number of bytes it takes from the input. */
  function ReadSlice(s: Bytes): (r: Option<Slice>)
    ensures r.Some? ==> r.value.size <= |s|
  {
    match ReadVarint32(s)
    case None => None
    case Some(n) =>
      if n.size + n.value > |s| then None else Some(Slice(s[n.size..n.size + n.value], n.size + n.value))
  }

  lemma SliceRoundTrip(b: Bytes, rest: Bytes)
    requires |b| < WORD32
    ensures ReadSlice(Prefixed(b) + rest) == Some(Slice(b, |Prefixed(b)|))
  {
    var s := Prefixed(b) + rest;
    var n := |Varint(|b|)|;
    assert s == Varint(|b|) + (b + rest);
    Varint32RoundTrip(|b|, b + rest);
    assert s[n..n + |b|] == b;
  }

  // --- Arrays of fixed-width words ----------------------------------------------------------

  function Fixed32s(words: seq<nat>): (b: Bytes)
    ensures |b| == 4 * |words|
  {
    if words == [] then [] else Fixed32s(words[..|words| - 1]) + Fixed(4, words[|words| - 1])
  }

  lemma {:induction false} Fixed32At(words: seq<nat>, k: nat)
    requires k < |words|
    ensures Fixed32s(words)[4 * k..4 * k + 4] == Fixed(4, words[k])
  {
    var b := Fixed32s(words);
    if k == |words| - 1 {
      assert b == Fixed32s(words[..k]) + Fixed(4, words[k]);
    } else {
      var shorter := words[..|words| - 1];
      Fixed32At(shorter, k);
      assert b[4 * k..4 * k + 4] == Fixed32s(shorter)[4 * k..4 * k + 4];
    }
  }

  lemma Stored32(n: nat)
    requires n < WORD32
    ensures Number(Fixed(4, n)) == n
  {
    Words();
    NumberOfFixed(4, n);
  }

  /** A word of the array reads back. */
  lemma Word32At(words: seq<nat>, k: nat)
    requires k < |words| && words[k] < WORD32
    ensures Number(Fixed32s(words)[4 * k..4 * k + 4]) == words[k]
  {
    Fixed32At(words, k);
    Stored32(words[k]);
  }
}
