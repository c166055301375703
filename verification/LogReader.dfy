/**
 Reading a log: what one physical and one logical read return, and the reader that computes them.
 */
module LogReader {
  import opened Bytes
  import opened Keys
  import opened Coding
  import opened Log

  // --- One physical record ------------------------------------------------------------------

  /** What ReadPhysicalRecord returns; dropped lists the sizes it reports as corrupt. */
  datatype Fragment = Eof | Bad(dropped: seq<nat>) | Good(kind: Byte, data: Bytes)

  function Word16(low: int, high: int): nat
    requires 0 <= low && 0 <= high
  {
    low + 256 * high
  }

  /** kEof and kBadRecord: what ReadPhysicalRecord returns in place of a type. A stored type may have these values too. */
  const EOF: Byte := 5
  const BAD_RECORD: Byte := 6

  /** A fragment, and how many bytes of the buffer are gone. */
  datatype Parse = Parse(fragment: Fragment, used: nat)

  /** The physical record at the head of a buffer; full says that the buffer reaches the end of its block. */
  function Parsed(step: CrcStep, checksum: bool, buffer: Bytes, full: bool): (r: Parse)
    requires |buffer| >= HEADER
    ensures 0 < r.used <= |buffer| && (r.fragment.Eof? ==> !full)
  {
    var length := Word16(buffer[4], buffer[5]);
    if HEADER + length > |buffer| then Parse(if full then Bad([|buffer|]) else Eof, |buffer|)
    else if buffer[6] == ZERO && length == 0 then Parse(Bad([]), |buffer|)
    else if checksum && Extend(step, 0, buffer[6..HEADER + length]) != Unmask(Number(buffer[..4]) % 0x1_0000_0000) then
      Parse(Bad([|buffer|]), |buffer|)
    else Parse(Good(buffer[6], buffer[HEADER..HEADER + length]), HEADER + length)
  }

  /** A fragment, and where the unread part of the file then starts. */
  datatype Scan = Scan(fragment: Fragment, at: nat)

  function Min(a: nat, b: nat): nat { if a < b then a else b }

  /** The physical record found when the file has been consumed up to at. */
  function Scanned(step: CrcStep, checksum: bool, file: Bytes, at: nat): (r: Scan)
    ensures r.at <= |file| && (!r.fragment.Eof? ==> at < r.at)
  {
    var o := Landing(at);
    if o + HEADER > |file| then Scan(Eof, |file|)
    else
      var end := Min(|file|, BlockEnd(o));
      var p := Parsed(step, checksum, file[o..end], end == BlockEnd(o));
      Scan(p.fragment, o + p.used)
  }

  // --- One logical record -------------------------------------------------------------------

  /** What ReadRecord returns: a record or the end, where reading stopped, and the sizes reported as corrupt. */
  datatype Outcome = Outcome(record: Option<Bytes>, at: nat, dropped: seq<nat>)

  function Reporting(dropped: seq<nat>, r: Outcome): Outcome
  {
    r.(dropped := dropped + r.dropped)
  }

  /** An unfinished record is reported unless nothing of it has been kept. */
  function Unfinished(inside: bool, scratch: Bytes): seq<nat>
  {
    if inside && scratch != [] then [|scratch|] else []
  }

  /** The effect of one fragment: ReadRecord returns, or goes on with what it has collected. */
  datatype Turn =
    | Done(record: Option<Bytes>, dropped: seq<nat>)
    | More(scratch: Bytes, inside: bool, dropped: seq<nat>)

  function Failed(scratch: Bytes, inside: bool): Turn
  {
    if inside then More([], false, [|scratch|]) else More(scratch, false, [])
  }

  function Turned(fragment: Fragment, scratch: Bytes, inside: bool): (t: Turn)
    ensures fragment.Eof? ==> t.Done? && t.record.None?
  {
    match fragment
    case Eof => Done(None, [])
    case Bad(_) => Failed(scratch, inside)
    case Good(kind, data) =>
      // ReadPhysicalRecord returns the stored type as it is
      if kind == EOF then Done(None, [])
      else if kind == BAD_RECORD then Failed(scratch, inside)
      else if kind == FULL then Done(Some(data), Unfinished(inside, scratch))
      else if kind == FIRST then More(data, true, Unfinished(inside, scratch))
      else if kind == MIDDLE then
        if inside then More(scratch + data, true, []) else More(scratch, false, [|data|])
      else if kind == LAST then
        if inside then Done(Some(scratch + data), []) else More(scratch, false, [|data|])
      else More([], false, [|data| + if inside then |scratch| else 0])
  }

  /** What ReadPhysicalRecord itself reports. */
  function Lost(fragment: Fragment): seq<nat>
  {
    if fragment.Bad? then fragment.dropped else []
  }

  /** A way to read physical records never goes back nor past the end. */
  ghost predicate Advances(scan: nat -> Scan, limit: nat)
  {
    forall at: nat :: at <= limit ==> scan(at).at <= limit && (!scan(at).fragment.Eof? ==> at < scan(at).at)
  }

  /** The physical records of a file. */
  function Scanner(step: CrcStep, checksum: bool, file: Bytes): (scan: nat -> Scan)
    ensures Advances(scan, |file|)
    ensures forall at: nat :: scan(at) == Scanned(step, checksum, file, at)
  {
    (at: nat) => Scanned(step, checksum, file, at)
  }

  function Assembled(scan: nat -> Scan, limit: nat, at: nat, scratch: Bytes, inside: bool): (r: Outcome)
    requires Advances(scan, limit) && at <= limit
    ensures r.at <= limit && (r.record.Some? ==> at < r.at)
    decreases limit - at
  {
    var s := scan(at);
    match Turned(s.fragment, scratch, inside)
    case Done(record, dropped) => Outcome(record, s.at, Lost(s.fragment) + dropped)
    case More(scratch', inside', dropped) =>
      Reporting(Lost(s.fragment) + dropped, Assembled(scan, limit, s.at, scratch', inside'))
  }

  /** Calling ReadRecord until it returns false. */
  datatype Contents = Contents(records: seq<Bytes>, dropped: seq<nat>)

  function ReadAll(scan: nat -> Scan, limit: nat, at: nat): Contents
    requires Advances(scan, limit) && at <= limit
    decreases limit - at
  {
    var r := Assembled(scan, limit, at, [], false);
    if r.record.None? then Contents([], r.dropped)
    else
      var more := ReadAll(scan, limit, r.at);
      Contents([r.record.value] + more.records, r.dropped + more.dropped)
  }

  /** What a log reader makes of a file. */
  function ReadLog(step: CrcStep, checksum: bool, file: Bytes): Contents
  {
    ReadAll(Scanner(step, checksum, file), |file|, 0)
  }

  // --- The reader ---------------------------------------------------------------------------

  /** The buffer is the part of the file from at to end, inside one block; short only at the end of the file. */
  ghost predicate Buffered(length: nat, at: nat, end: nat, eof: bool)
  {
    && at <= end <= length
    && (eof ==> end == length) && (!eof ==> Column(end) == 0)
    && (at < end ==> end <= BlockEnd(at))
    && (at < end && eof ==> end < BlockEnd(at))
  }

  /** A buffer with room for a header stands where a record can start, and reaches as far as its block does. */
  lemma HeaderFits(length: nat, at: nat, end: nat, eof: bool)
    requires Buffered(length, at, end, eof) && at + HEADER <= end
    ensures Landing(at) == at
    ensures end == Min(length, BlockEnd(at)) && (eof <==> end < BlockEnd(at))
  {
  }

  /** Less than a header before a block boundary is a trailer. */
  lemma Trailer(length: nat, at: nat, end: nat)
    requires Buffered(length, at, end, false) && end < at + HEADER
    ensures Landing(at) == end && Landing(end) == end
  {
    if at < end { BlockEdge(at, end); }
  }

  lemma BlockEdge(at: nat, end: nat)
    requires at < end <= BlockEnd(at) && Column(end) == 0
    ensures end == BlockEnd(at)
  {
    var q, r := at / 32768, end / 32768;
    assert at == 32768 * q + Column(at) && end == 32768 * r;
    assert q < r;
  }

  lemma NextBlock(length: nat, end: nat, n: nat)
    requires end <= length && Column(end) == 0 && n == Min(BLOCK, length - end)
    ensures Buffered(length, end, end + n, n < BLOCK)
  {
  }

  class Reader {
    const step: CrcStep
    const checksum: bool
    const file: Bytes
    var buffer: Bytes
    var eof: bool
    /** end_of_buffer_offset_: how much of the file has been read. */
    var end: nat
    /** The sizes given to the reporter. */
    var dropped: seq<nat>

    ghost predicate Valid()
      reads this
    {
      |buffer| <= end <= |file| && buffer == file[At()..end] && Buffered(|file|, At(), end, eof)
    }

    ghost function At(): nat
      requires |buffer| <= end
      reads this
    {
      end - |buffer|
    }

    constructor (crc: CrcStep, check: bool, contents: Bytes)
      ensures Valid() && At() == 0 && dropped == []
      ensures step == crc && checksum == check && file == contents
    {
      step, checksum, file := crc, check, contents;
      buffer, eof, end, dropped := [], false, 0, [];
    }

    /** The refill at the head of ReadPhysicalRecord's loop; false at the end of the file. */
    /** The next block of the file; a short one is the last. */
    method ReadBlock()
      requires Valid() && !eof && |buffer| < HEADER
      modifies `buffer, `eof, `end
      ensures Valid() && Landing(At()) == Landing(old(At())) && (|buffer| < HEADER ==> eof)
    {
      Trailer(|file|, At(), end);
      var n := Min(BLOCK, |file| - end);
      NextBlock(|file|, end, n);
      buffer := file[end..end + n];
      end := end + n;
      if n < BLOCK {
        eof := true;
      }
    }

    method Refill() returns (more: bool)
      requires Valid()
      modifies `buffer, `eof, `end
      ensures Valid()
      ensures more ==> At() == Landing(old(At())) && |buffer| >= HEADER
      ensures !more ==> At() == |file| && Landing(old(At())) + HEADER > |file|
    {
      ghost var o := Landing(At());
      while |buffer| < HEADER
        invariant Valid() && Landing(At()) == o
        decreases if |buffer| < HEADER then if eof then 1 else 2 else 0
      {
        if !eof {
          ReadBlock();
        } else {
          buffer := [];
          return false;
        }
      }
      HeaderFits(|file|, At(), end, eof);
      return true;
    }

    /** ReadPhysicalRecord once a whole header is buffered. */
    method ParseHeader() returns (r: Fragment)
      requires |buffer| >= HEADER
      modifies `buffer, `dropped
      ensures
        var p := Parsed(step, checksum, old(buffer), !eof);
        r == p.fragment && buffer == old(buffer)[p.used..]
      ensures dropped == old(dropped) + Lost(r)
    {
      var length := Word16(buffer[4], buffer[5]);
      var kind := buffer[6];
      if HEADER + length > |buffer| {
        var drop := |buffer|;
        buffer := [];
        if !eof {
          dropped := dropped + [drop];
          return Bad([drop]);
        }
        return Eof;
      }
      if kind == ZERO && length == 0 {
        buffer := [];
        return Bad([]);
      }
      if checksum {
        var expected := Unmask(Number(buffer[..4]) % 0x1_0000_0000);
        var actual := Extend(step, 0, buffer[6..HEADER + length]);
        if actual != expected {
          var drop := |buffer|;
          buffer := [];
          dropped := dropped + [drop];
          return Bad([drop]);
        }
      }
      r := Good(kind, buffer[HEADER..HEADER + length]);
      buffer := buffer[HEADER + length..];
    }

    method ReadPhysicalRecord() returns (r: Fragment)
      requires Valid()
      modifies `buffer, `eof, `end, `dropped
      ensures Valid()
      ensures Scan(r, At()) == Scanned(step, checksum, file, old(At()))
      ensures dropped == old(dropped) + Lost(r)
    {
      var more := Refill();
      if !more {
        return Eof;
      }
      ghost var o := At();
      HeaderFits(|file|, o, end, eof);
      r := ParseHeader();
      StillBuffered(|file|, o, At(), end, eof);
    }

    /** kBadRecord. */
    method Fail(scratch: Bytes, inside: bool) returns (t: Turn)
      modifies `dropped
      ensures t == Failed(scratch, inside) && dropped == old(dropped) + t.dropped
    {
      if inside {
        dropped := dropped + [|scratch|];
        return More([], false, [|scratch|]);
      }
      return More(scratch, inside, []);
    }

    /** The switch of ReadRecord. */
    method Handle(fragment: Fragment, scratch: Bytes, inside: bool) returns (t: Turn)
      modifies `dropped
      ensures t == Turned(fragment, scratch, inside) && dropped == old(dropped) + t.dropped
    {
      match fragment {
        case Eof =>
          return Done(None, []);
        case Bad(_) =>
          t := Fail(scratch, inside);
          return;
        case Good(kind, data) =>
          if kind == EOF {
            return Done(None, []);
          } else if kind == BAD_RECORD {
            t := Fail(scratch, inside);
            return;
          } else if kind == FULL || kind == FIRST {
            var lost: seq<nat> := [];
            if inside && scratch != [] {
              lost := [|scratch|];
              dropped := dropped + lost;
            }
            return if kind == FULL then Done(Some(data), lost) else More(data, true, lost);
          } else if kind == MIDDLE && inside {
            return More(scratch + data, true, []);
          } else if kind == LAST && inside {
            return Done(Some(scratch + data), []);
          } else if kind == MIDDLE || kind == LAST {
            dropped := dropped + [|data|];
            return More(scratch, false, [|data|]);
          } else {
            var lost := |data| + if inside then |scratch| else 0;
            dropped := dropped + [lost];
            return More([], false, [lost]);
          }
      }
    }

    /** One turn of ReadRecord's loop. */
    method ReadFragment(scratch: Bytes, inside: bool) returns (t: Turn)
      requires Valid()
      modifies `buffer, `eof, `end, `dropped
      ensures Valid()
      ensures
        var s := Scanned(step, checksum, file, old(At()));
        && t == Turned(s.fragment, scratch, inside) && At() == s.at
        && dropped == old(dropped) + (Lost(s.fragment) + t.dropped)
    {
      var fragment := ReadPhysicalRecord();
      ghost var lost := dropped;
      t := Handle(fragment, scratch, inside);
      assert dropped == old(dropped) + Lost(fragment) + t.dropped;
    }

    /** ReadRecord with initial_offset_ 0. */
    method ReadRecord() returns (record: Option<Bytes>)
      requires Valid()
      modifies `buffer, `eof, `end, `dropped
      ensures Valid()
      ensures Outcome(record, At(), dropped) ==
        Reporting(old(dropped), Assembled(Scanner(step, checksum, file), |file|, old(At()), [], false))
    {
      ghost var scan := Scanner(step, checksum, file);
      var scratch: Bytes, inside := [], false;
      while true
        invariant Valid()
        invariant Reporting(dropped, Assembled(scan, |file|, At(), scratch, inside)) ==
          Reporting(old(dropped), Assembled(scan, |file|, old(At()), [], false))
        decreases |file| - At()
      {
        AssembledTurn(scan, |file|, At(), scratch, inside, dropped);
        var t := ReadFragment(scratch, inside);
        if t.Done? {
          return t.record;
        }
        scratch, inside := t.scratch, t.inside;
      }
    }
  }

  /** The loop of VersionSet::Recover over ReadRecord. */
  method ReadFile(step: CrcStep, checksum: bool, file: Bytes) returns (c: Contents)
    ensures c == ReadLog(step, checksum, file)
  {
    var reader := new Reader(step, checksum, file);
    var records: seq<Bytes> := [];
    ghost var scan := Scanner(step, checksum, file);
    ghost var total := ReadAll(scan, |file|, 0);
    var more := true;
    while more
      invariant fresh(reader) && reader.Valid()
      invariant reader.step == step && reader.checksum == checksum && reader.file == file
      invariant more ==> total == Preceded(records, reader.dropped, ReadAll(scan, |file|, reader.At()))
      invariant !more ==> total == Contents(records, reader.dropped)
      decreases more, |file| - reader.At()
    {
      ghost var at, dropped := reader.At(), reader.dropped;
      var record := reader.ReadRecord();
      PrecededTurn(scan, |file|, at, records, dropped, Assembled(scan, |file|, at, [], false));
      if record.None? {
        more := false;
      } else {
        records := records + [record.value];
      }
    }
    c := Contents(records, reader.dropped);
  }

  ghost function Preceded(records: seq<Bytes>, dropped: seq<nat>, c: Contents): Contents
  {
    Contents(records + c.records, dropped + c.dropped)
  }

  lemma PrecededTurn(scan: nat -> Scan, limit: nat, at: nat, records: seq<Bytes>, dropped: seq<nat>, r: Outcome)
    requires Advances(scan, limit) && at <= limit && r == Assembled(scan, limit, at, [], false)
    ensures Preceded(records, dropped, ReadAll(scan, limit, at)) ==
      if r.record.None? then Contents(records, dropped + r.dropped)
      else Preceded(records + [r.record.value], dropped + r.dropped, ReadAll(scan, limit, r.at))
  {
  }

  /** Assembled, one fragment at a time, with what has been reported so far. */
  lemma AssembledTurn(scan: nat -> Scan, limit: nat, at: nat, scratch: Bytes, inside: bool, before: seq<nat>)
    requires Advances(scan, limit) && at <= limit
    ensures
      var s := scan(at);
      var t := Turned(s.fragment, scratch, inside);
      var after := before + (Lost(s.fragment) + t.dropped);
      && (t.More? ==> at < s.at <= limit)
      && Reporting(before, Assembled(scan, limit, at, scratch, inside)) ==
           if t.Done? then Outcome(t.record, s.at, after)
           else Reporting(after, Assembled(scan, limit, s.at, t.scratch, t.inside))
  {
  }

  lemma StillBuffered(length: nat, at: nat, later: nat, end: nat, eof: bool)
    requires Buffered(length, at, end, eof) && at <= later <= end
    ensures Buffered(length, later, end, eof)
  {
  }
}
