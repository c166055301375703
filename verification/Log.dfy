/**
 The record log: a writer that fragments records over 32768-byte blocks and a reader that reassembles them.
 The file is a byte string; short reads occur only at its end. The checksum's inner step is any function.
 */
module Log {
  import opened Bytes
  import opened Keys
  import opened Coding

  const BLOCK: nat := 32768
  const HEADER: nat := 7

  /** A file offset within its block. */
  function Column(at: nat): (c: nat)
    ensures c < BLOCK
  {
    at % 32768
  }

  const ZERO: Byte := 0
  const FULL: Byte := 1
  const FIRST: Byte := 2
  const MIDDLE: Byte := 3
  const LAST: Byte := 4

  // --- Checksums ----------------------------------------------------------------------------

  type CrcStep = (Word, Byte) -> Word

  function Fold(step: CrcStep, l: Word, data: Bytes): Word
    decreases |data|
  {
    if data == [] then l else Fold(step, step(l, data[0]), data[1..])
  }

  function Flip(x: Word): Word { 0xffff_ffff - x }

  /** crc32c::Extend. */
  function Extend(step: CrcStep, crc: Word, data: Bytes): Word
  {
    Flip(Fold(step, Flip(crc), data))
  }

  lemma {:induction false} FoldConcat(step: CrcStep, l: Word, a: Bytes, b: Bytes)
    ensures Fold(step, l, a + b) == Fold(step, Fold(step, l, a), b)
    decreases |a|
  {
    if a == [] {
      assert a + b == b;
    } else {
      assert (a + b)[1..] == a[1..] + b;
      FoldConcat(step, step(l, a[0]), a[1..], b);
    }
  }

  /** Extending the checksum of a gives the checksum of a followed by b. */
  lemma ExtendConcat(step: CrcStep, crc: Word, a: Bytes, b: Bytes)
    ensures Extend(step, Extend(step, crc, a), b) == Extend(step, crc, a + b)
  {
    FoldConcat(step, Flip(crc), a, b);
  }

  const MASK_DELTA: Word := 0xa282_ead8

  /** Rotate right by 15 bits and add a constant, on 32-bit words. */
  function Mask(crc: Word): Word
  {
    (crc / 0x8000 + crc % 0x8000 * 0x2_0000 + MASK_DELTA) % 0x1_0000_0000
  }

  function Unmask(masked: Word): Word
  {
    var rot := (masked - MASK_DELTA) % 0x1_0000_0000;
    (rot / 0x2_0000 + rot % 0x2_0000 * 0x8000) % 0x1_0000_0000
  }

  lemma UnmaskInvertsMask(crc: Word)
    ensures Unmask(Mask(crc)) == crc
  {
    Rotated(crc / 0x8000, crc % 0x8000);
    Shifted(crc / 0x8000 + crc % 0x8000 * 0x2_0000);
  }

  lemma Rotated(a: nat, b: nat)
    requires a < 0x2_0000 && b < 0x8000
    ensures a + b * 0x2_0000 < WORD32 && (a + b * 0x2_0000) / 0x2_0000 == b && (a + b * 0x2_0000) % 0x2_0000 == a
  {
  }

  lemma Shifted(x: nat)
    requires x < WORD32
    ensures ((x + MASK_DELTA) % 0x1_0000_0000 - MASK_DELTA) % 0x1_0000_0000 == x
  {
    var y := x + MASK_DELTA;
    if y < WORD32 { assert y % 0x1_0000_0000 == y; } else { assert y % 0x1_0000_0000 == y - WORD32; }
  }

  // --- What the writer appends --------------------------------------------------------------

  /** Where the next physical record starts: a block with less than a header's room left is padded out. */
  function Landing(at: nat): (o: nat)
    ensures at <= o < at + HEADER && Column(o) + HEADER <= BLOCK
  {
    if BLOCK - Column(at) < HEADER then at + (BLOCK - Column(at)) else at
  }

  function BlockEnd(o: nat): (e: nat)
    ensures o < e <= o + BLOCK && Column(e) == 0
  {
    o - Column(o) + BLOCK
  }

  function Zeros(n: nat): (b: Bytes)
    ensures |b| == n
  {
    seq(n, _ => 0)
  }

  /** EmitPhysicalRecord: checksum, length, type, payload. */
  function Physical(step: CrcStep, kind: Byte, data: Bytes): (b: Bytes)
    ensures |b| == HEADER + |data|
  {
    Fixed(4, Mask(Extend(step, Extend(step, 0, [kind]), data))) + [|data| % 256, |data| / 256 % 256, kind] + data
  }

  /** A way to encode a physical record. */
  type Emit = (Byte, Bytes) -> Bytes

  ghost predicate Sized(emit: Emit)
  {
    forall kind, data :: |emit(kind, data)| == HEADER + |data|
  }

  function Emitter(step: CrcStep): (emit: Emit)
    ensures Sized(emit)
    ensures forall kind, data :: emit(kind, data) == Physical(step, kind, data)
  {
    (kind, data) => Physical(step, kind, data)
  }

  function FragmentKind(begin: bool, end: bool): Byte
  {
    if begin && end then FULL else if begin then FIRST else if end then LAST else MIDDLE
  }

  /** The length of the fragment written at o when left bytes remain. */
  function FragmentLength(o: nat, left: nat): (n: nat)
    requires Column(o) + HEADER <= BLOCK
    ensures n <= left && Column(o) + HEADER + n <= BLOCK
  {
    var avail := BLOCK - Column(o) - HEADER;
    if left < avail then left else avail
  }

  /** 1 when only a header fits in the block, so that the fragment written there is empty. */
  function Tight(at: nat): nat
  {
    if Column(Landing(at)) + HEADER == BLOCK then 1 else 0
  }

  /** A fragment of a record: the file's length before it, the padding before it, kind, payload, and where it ends. */
  datatype Piece = Piece(at: nat, pad: nat, kind: Byte, data: Bytes, next: nat)

  /** A fragment stays within its block. */
  ghost predicate Shaped(p: Piece)
  {
    && p.at + p.pad == Landing(p.at) && p.next == p.at + p.pad + HEADER + |p.data|
    && p.kind != ZERO && Column(Landing(p.at)) + HEADER + |p.data| <= BLOCK
  }

  /** The first fragment AddRecord writes after at for the part of a record that is still to be written. */
  function FirstPiece(at: nat, left: Bytes, begin: bool): (p: Piece)
    ensures Shaped(p) && p.at == at && p.data <= left && p.kind == FragmentKind(begin, |p.data| == |left|)
    ensures p.data == [] && left != [] ==> Tight(p.next) < Tight(at)
  {
    var o := Landing(at);
    var n := FragmentLength(o, |left|);
    FragmentProgress(at, |left|);
    Piece(at, o - at, FragmentKind(begin, n == |left|), left[..n], o + HEADER + n)
  }

  function Pieces(at: nat, left: Bytes, begin: bool): (ps: seq<Piece>)
    ensures ps != []
    decreases |left|, Tight(at)
  {
    var p := FirstPiece(at, left, begin);
    [p] + if |p.data| == |left| then [] else Pieces(p.next, left[|p.data|..], false)
  }

  /** The bytes of some fragments, each after the trailer that it leaves behind. */
  function Laid(emit: Emit, ps: seq<Piece>): Bytes
  {
    if ps == [] then [] else Zeros(ps[0].pad) + emit(ps[0].kind, ps[0].data) + Laid(emit, ps[1..])
  }

  /** What AddRecord appends to a file of length at. */
  function Encoded(emit: Emit, at: nat, left: Bytes, begin: bool): Bytes
  {
    Laid(emit, Pieces(at, left, begin))
  }

  /** Encoded, one fragment at a time. */
  lemma EncodedTurn(emit: Emit, before: Bytes, left: Bytes, begin: bool)
    ensures
      var p := FirstPiece(|before|, left, begin);
      before + Encoded(emit, |before|, left, begin) ==
        before + Zeros(p.pad) + emit(p.kind, p.data) +
        if |p.data| == |left| then [] else Encoded(emit, p.next, left[|p.data|..], false)
  {
    var p := FirstPiece(|before|, left, begin);
    var tail := if |p.data| == |left| then [] else Pieces(p.next, left[|p.data|..], false);
    LaidCons(emit, p, tail);
    Regroup(before, Zeros(p.pad), emit(p.kind, p.data), Laid(emit, tail));
  }

  lemma LaidCons(emit: Emit, p: Piece, ps: seq<Piece>)
    ensures Laid(emit, [p] + ps) == Zeros(p.pad) + emit(p.kind, p.data) + Laid(emit, ps)
  {
    assert ([p] + ps)[1..] == ps;
  }

  lemma Regroup(a: Bytes, b: Bytes, c: Bytes, d: Bytes)
    ensures a + (b + c + d) == a + b + c + d
  {
  }

  lemma FragmentProgress(at: nat, left: nat)
    ensures
      var o := Landing(at);
      var n := FragmentLength(o, left);
      n == 0 && left > 0 ==> Tight(o + HEADER + n) < Tight(at)
  {
  }

  /** The whole file after writing some records. */
  function File(emit: Emit, records: seq<Bytes>): Bytes
  {
    if records == [] then []
    else
      var f := File(emit, records[..|records| - 1]);
      f + Encoded(emit, |f|, records[|records| - 1], true)
  }

  lemma FileSnoc(emit: Emit, records: seq<Bytes>, slice: Bytes)
    ensures File(emit, records + [slice]) == File(emit, records) + Encoded(emit, |File(emit, records)|, slice, true)
  {
    assert (records + [slice])[..|records|] == records;
  }

  lemma OffsetLands(at: nat, offset: nat)
    requires offset <= BLOCK && Column(offset) == Column(at)
    ensures BLOCK - offset < HEADER ==> Landing(at) == at + (BLOCK - offset) && Column(Landing(at)) == 0
    ensures BLOCK - offset >= HEADER ==> Landing(at) == at && offset == Column(at)
  {
  }

  lemma OffsetAdds(o: nat, n: nat)
    ensures Column(o + n) == Column(Column(o) + n)
  {
  }

  class Writer {
    const step: CrcStep
    var dest: Bytes
    var blockOffset: nat
    ghost var records: seq<Bytes>

    ghost predicate Aligned()
      reads this
    {
      blockOffset <= BLOCK && Column(blockOffset) == Column(|dest|)
    }

    ghost predicate Valid()
      reads this
    {
      Aligned() && dest == File(Emitter(step), records)
    }

    constructor (crc: CrcStep)
      ensures Valid() && dest == [] && records == [] && step == crc
    {
      step := crc;
      dest, blockOffset, records := [], 0, [];
    }

    /** The constructor that continues a file of known length. */
    constructor Reopen(crc: CrcStep, file: Bytes, ghost written: seq<Bytes>)
      requires file == File(Emitter(crc), written)
      ensures Valid() && dest == file && records == written && step == crc
    {
      step := crc;
      OffsetAdds(|file|, 0);
      dest, blockOffset, records := file, Column(|file|), written;
    }

    method EmitPhysicalRecord(kind: Byte, data: Bytes)
      requires blockOffset + HEADER + |data| <= BLOCK
      modifies this
      ensures dest == old(dest) + Physical(step, kind, data)
      ensures blockOffset == old(blockOffset) + HEADER + |data| && records == old(records)
    {
      var crc := Extend(step, Extend(step, 0, [kind]), data);
      var header := Fixed(4, Mask(crc)) + [|data| % 256, |data| / 256 % 256, kind];
      dest := dest + header;
      dest := dest + data;
      assert dest == old(dest) + Physical(step, kind, data);
      blockOffset := blockOffset + HEADER + |data|;
    }

    /** Fill the trailer when no header fits. */
    method SwitchBlock()
      requires Aligned()
      modifies this
      ensures dest == old(dest) + Zeros(Landing(|old(dest)|) - |old(dest)|)
      ensures |dest| == Landing(|old(dest)|) && blockOffset == Column(|dest|) && records == old(records)
    {
      OffsetLands(|dest|, blockOffset);
      var leftover := BLOCK - blockOffset;
      if leftover < HEADER {
        if leftover > 0 {
          dest := dest + Zeros(leftover);
        }
        blockOffset := 0;
      }
    }

    /** One turn of AddRecord's loop. */
    method EmitFragment(left: Bytes, begin: bool) returns (n: nat)
      requires Aligned()
      modifies this
      ensures Aligned() && records == old(records) && n <= |left|
      ensures old(dest) + Encoded(Emitter(step), |old(dest)|, left, begin) ==
        dest + if n == |left| then [] else Encoded(Emitter(step), |dest|, left[n..], false)
      ensures n == 0 && left != [] ==> Tight(|dest|) < Tight(|old(dest)|)
    {
      ghost var p := FirstPiece(|dest|, left, begin);
      EncodedTurn(Emitter(step), dest, left, begin);
      SwitchBlock();
      ghost var o := |dest|;
      var avail := BLOCK - blockOffset - HEADER;
      n := if |left| < avail then |left| else avail;
      assert n == |p.data| && left[..n] == p.data;
      EmitPhysicalRecord(FragmentKind(begin, n == |left|), left[..n]);
      assert |dest| == p.next && dest == old(dest) + Zeros(p.pad) + Emitter(step)(p.kind, p.data);
      OffsetAdds(o, HEADER + n);
    }

    method AddRecord(slice: Bytes)
      requires Valid()
      modifies this
      ensures Valid() && records == old(records) + [slice]
    {
      FileSnoc(Emitter(step), records, slice);
      ghost var target := dest + Encoded(Emitter(step), |dest|, slice, true);
      var left, begin, more := slice, true, true;
      while more
        invariant Aligned() && records == old(records)
        invariant target == dest + if more then Encoded(Emitter(step), |dest|, left, begin) else []
        decreases more, |left|, Tight(|dest|)
      {
        var n := EmitFragment(left, begin);
        left := left[n..];
        begin := false;
        more := left != [];
      }
      records := records + [slice];
    }
  }
}
