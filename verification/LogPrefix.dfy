/**
 Every byte prefix of a written log reads back as the records that lie wholly inside it, and nothing is reported.
 */
module LogPrefix {
  import opened Bytes
  import opened Keys
  import opened Coding
  import opened Log
  import opened LogReader

  // --- Physical records ---------------------------------------------------------------------

  lemma HeaderBytes(step: CrcStep, kind: Byte, data: Bytes, tail: Bytes)
    requires |data| < 0x1_0000
    ensures
      var b := Physical(step, kind, data) + tail;
      && Word16(b[4], b[5]) == |data| && b[6] == kind
      && b[..4] == Fixed(4, Mask(Extend(step, Extend(step, 0, [kind]), data)))
      && b[HEADER..HEADER + |data|] == data && b[6..HEADER + |data|] == [kind] + data
  {
  }

  lemma StoredCrc(step: CrcStep, kind: Byte, data: Bytes)
    ensures Unmask(Number(Fixed(4, Mask(Extend(step, Extend(step, 0, [kind]), data)))) % 0x1_0000_0000) == Extend(step, 0, [kind] + data)
  {
    var crc := Extend(step, Extend(step, 0, [kind]), data);
    ExtendConcat(step, 0, [kind], data);
    StoredWord(Mask(crc));
    UnmaskInvertsMask(crc);
  }

  lemma StoredWord(w: Word)
    ensures Number(Fixed(4, w)) % 0x1_0000_0000 == w
  {
    Words();
    NumberOfFixed(4, w);
  }

  lemma ParseGood(step: CrcStep, checksum: bool, buffer: Bytes, full: bool, kind: Byte, data: Bytes)
    requires HEADER + |data| <= |buffer| && Word16(buffer[4], buffer[5]) == |data| && buffer[6] == kind && kind != ZERO
    requires buffer[HEADER..HEADER + |data|] == data
    requires Extend(step, 0, buffer[6..HEADER + |data|]) == Unmask(Number(buffer[..4]) % 0x1_0000_0000)
    ensures Parsed(step, checksum, buffer, full) == Parse(Good(kind, data), HEADER + |data|)
  {
  }

  /** A whole physical record at the head of the buffer is parsed back, whatever follows it. */
  lemma ParsePhysical(step: CrcStep, checksum: bool, kind: Byte, data: Bytes, tail: Bytes, full: bool)
    requires kind != ZERO && |data| < 0x1_0000
    ensures Parsed(step, checksum, Physical(step, kind, data) + tail, full) == Parse(Good(kind, data), HEADER + |data|)
  {
    HeaderBytes(step, kind, data, tail);
    StoredCrc(step, kind, data);
    ParseGood(step, checksum, Physical(step, kind, data) + tail, full, kind, data);
  }

  /** A physical record whose payload is cut off by the end of the file reads as the end of the file. */
  lemma ParseTorn(step: CrcStep, checksum: bool, kind: Byte, data: Bytes, n: nat)
    requires |data| < 0x1_0000 && HEADER <= n < HEADER + |data|
    ensures Parsed(step, checksum, Physical(step, kind, data)[..n], false) == Parse(Eof, n)
  {
    HeaderBytes(step, kind, data, []);
    var p := Physical(step, kind, data);
    assert p + [] == p;
  }

  lemma BlockRoom(o: nat, n: nat)
    requires Column(o) + HEADER + n <= BLOCK
    ensures o + HEADER + n <= BlockEnd(o)
  {
  }

  lemma ScanWhole(step: CrcStep, checksum: bool, file: Bytes, at: nat, kind: Byte, data: Bytes)
    requires kind != ZERO && at <= |file| && Column(Landing(at)) + HEADER + |data| <= BLOCK
    requires
      var o := Landing(at);
      o + HEADER + |data| <= |file| && file[o..o + HEADER + |data|] == Physical(step, kind, data)
    ensures Scanned(step, checksum, file, at) == Scan(Good(kind, data), Landing(at) + HEADER + |data|)
  {
    var o := Landing(at);
    BlockRoom(o, |data|);
    var end := Min(|file|, BlockEnd(o));
    var p := Physical(step, kind, data);
    assert file[o..end] == p + file[o + |p|..end];
    ParsePhysical(step, checksum, kind, data, file[o + |p|..end], end == BlockEnd(o));
  }

  lemma ScanTorn(step: CrcStep, checksum: bool, whole: Bytes, n: nat, at: nat, kind: Byte, data: Bytes)
    requires at <= n <= |whole| && Column(Landing(at)) + HEADER + |data| <= BLOCK
    requires
      var o := Landing(at);
      n < o + HEADER + |data| <= |whole| && whole[o..o + HEADER + |data|] == Physical(step, kind, data)
    ensures Scanned(step, checksum, whole[..n], at) == Scan(Eof, n)
  {
    var o := Landing(at);
    if o + HEADER <= n {
      BlockRoom(o, |data|);
      assert whole[..n][o..n] == Physical(step, kind, data)[..n - o];
      ParseTorn(step, checksum, kind, data, n - o);
    }
  }

  // --- Logical records ----------------------------------------------------------------------

  ghost predicate PieceWritten(emit: Emit, file: Bytes, p: Piece)
  {
    Shaped(p) && p.next <= |file| && file[p.at + p.pad..p.next] == emit(p.kind, p.data)
  }

  function Joined(ps: seq<Piece>): Bytes
  {
    if ps == [] then [] else ps[0].data + Joined(ps[1..])
  }

  /** The pieces follow each other, and their kinds say where the record begins and ends. */
  ghost predicate Linked(ps: seq<Piece>, begin: bool)
  {
    && ps != []
    && (forall i, j :: 0 <= i && j == i + 1 && j < |ps| ==> ps[i].next == ps[j].at)
    && (forall i :: 0 <= i < |ps| ==> ps[i].at < ps[i].next)
    && (forall i :: 0 <= i < |ps| ==> ps[i].kind == FragmentKind(begin && i == 0, i == |ps| - 1))
  }

  lemma {:induction false} PiecesLinked(at: nat, left: Bytes, begin: bool)
    ensures
      var ps := Pieces(at, left, begin);
      && Linked(ps, begin) && Joined(ps) == left && ps[0].at == at
      && forall p :: p in ps ==> Shaped(p)
    decreases |left|, Tight(at)
  {
    var p := FirstPiece(at, left, begin);
    if |p.data| == |left| {
      OnePiece(p, begin);
    } else {
      var tail := Pieces(p.next, left[|p.data|..], false);
      PiecesLinked(p.next, left[|p.data|..], false);
      LinkedCons(p, tail, begin);
      JoinedCons(p, tail);
      assert p.data + left[|p.data|..] == left;
    }
  }

  lemma OnePiece(p: Piece, begin: bool)
    requires p.at < p.next && p.kind == FragmentKind(begin, true)
    ensures Linked([p], begin) && Joined([p]) == p.data
  {
  }

  lemma LinkedCons(p: Piece, ps: seq<Piece>, begin: bool)
    requires Linked(ps, false) && p.next == ps[0].at && p.at < p.next && p.kind == FragmentKind(begin, false)
    ensures Linked([p] + ps, begin)
  {
  }

  lemma JoinedCons(p: Piece, ps: seq<Piece>)
    ensures Joined([p] + ps) == p.data + Joined(ps)
  {
  }

  /** Where the bytes of a chain of pieces stand, every piece stands, and the last one ends with them. */
  lemma {:induction false} LaidWritten(emit: Emit, file: Bytes, at: nat, ps: seq<Piece>)
    requires Sized(emit) && (forall p :: p in ps ==> Shaped(p))
    requires forall i, j :: 0 <= i && j == i + 1 && j < |ps| ==> ps[i].next == ps[j].at
    requires ps != [] && ps[0].at == at
    requires at + |Laid(emit, ps)| <= |file| && file[at..at + |Laid(emit, ps)|] == Laid(emit, ps)
    ensures ps[|ps| - 1].next == at + |Laid(emit, ps)|
    ensures forall p :: p in ps ==> PieceWritten(emit, file, p)
    decreases |ps|
  {
    var p, rest := ps[0], ps[1..];
    Middle(file, at, Zeros(p.pad), emit(p.kind, p.data), Laid(emit, rest));
    assert p in ps && Shaped(p);
    assert PieceWritten(emit, file, p);
    if rest != [] {
      LaidWritten(emit, file, p.next, rest);
      assert ps == [p] + rest;
    }
  }

  lemma Middle(file: Bytes, at: nat, a: Bytes, b: Bytes, c: Bytes)
    requires at + |a + b + c| <= |file| && file[at..at + |a + b + c|] == a + b + c
    ensures file[at + |a|..at + |a| + |b|] == b
    ensures file[at + |a| + |b|..at + |a| + |b| + |c|] == c
  {
    var e := a + b + c;
    forall i | 0 <= i < |e| ensures file[at + i] == e[i] {
      assert file[at..at + |e|][i] == e[i];
    }
    Slices(file, at + |a|, b);
    Slices(file, at + |a| + |b|, c);
  }

  lemma Slices(file: Bytes, at: nat, b: Bytes)
    requires at + |b| <= |file| && forall i :: 0 <= i < |b| ==> file[at + i] == b[i]
    ensures file[at..at + |b|] == b
  {
  }

  /** The first m pieces are read back as they were written. */
  ghost predicate Scans(scan: nat -> Scan, ps: seq<Piece>, m: nat)
  {
    forall i :: 0 <= i < |ps| && i < m ==> scan(ps[i].at) == Scan(Good(ps[i].kind, ps[i].data), ps[i].next)
  }

  /** Assembled, one piece at a time. */
  lemma AssemblePiece(scan: nat -> Scan, limit: nat, p: Piece, begin: bool, end: bool, scratch: Bytes)
    requires Advances(scan, limit) && p.at <= limit && scan(p.at) == Scan(Good(p.kind, p.data), p.next)
    requires p.kind == FragmentKind(begin, end) && (begin ==> scratch == [])
    ensures p.next <= limit
    ensures Assembled(scan, limit, p.at, scratch, !begin) ==
      if end then Outcome(Some(scratch + p.data), p.next, []) else Assembled(scan, limit, p.next, scratch + p.data, true)
  {
    assert scratch + p.data == if begin then p.data else scratch + p.data;
  }

  lemma TailLinked(scan: nat -> Scan, ps: seq<Piece>, begin: bool, m: nat)
    requires Linked(ps, begin) && |ps| > 1 && m > 0 && Scans(scan, ps, m)
    ensures Linked(ps[1..], false) && Scans(scan, ps[1..], m - 1) && ps[1..][0].at == ps[0].next
  {
  }

  /** Pieces that are all there are put together again. */
  lemma {:induction false} AssembleWhole(scan: nat -> Scan, limit: nat, ps: seq<Piece>, begin: bool, scratch: Bytes)
    requires Advances(scan, limit) && Linked(ps, begin) && Scans(scan, ps, |ps|) && ps[0].at <= limit
    requires begin ==> scratch == []
    ensures Assembled(scan, limit, ps[0].at, scratch, !begin) ==
      Outcome(Some(scratch + Joined(ps)), ps[|ps| - 1].next, [])
    decreases |ps|
  {
    var p := ps[0];
    AssemblePiece(scan, limit, p, begin, |ps| == 1, scratch);
    if |ps| == 1 {
      assert p.data + [] == p.data;
    } else {
      TailLinked(scan, ps, begin, |ps|);
      AssembleWhole(scan, limit, ps[1..], false, scratch + p.data);
      assert scratch + p.data + Joined(ps[1..]) == scratch + (p.data + Joined(ps[1..]));
    }
  }

  /** When the file ends before piece m is complete, the record is dropped without a report. */
  lemma {:induction false} AssembleTorn(scan: nat -> Scan, limit: nat, ps: seq<Piece>, begin: bool, scratch: Bytes, m: nat)
    requires Advances(scan, limit) && Linked(ps, begin) && ps[0].at <= limit
    requires m < |ps| && Scans(scan, ps, m) && scan(ps[m].at) == Scan(Eof, limit)
    requires begin ==> scratch == []
    ensures Assembled(scan, limit, ps[0].at, scratch, !begin) == Outcome(None, limit, [])
    decreases m
  {
    if m > 0 {
      AssemblePiece(scan, limit, ps[0], begin, false, scratch);
      TailLinked(scan, ps, begin, m);
      AssembleTorn(scan, limit, ps[1..], false, scratch + ps[0].data, m - 1);
    }
  }

  /** How many of the pieces end within the first n bytes. */
  lemma {:induction false} FirstTorn(ps: seq<Piece>, n: nat) returns (m: nat)
    requires ps != [] && ps[|ps| - 1].next > n
    ensures m < |ps| && ps[m].next > n && forall i :: 0 <= i < m ==> ps[i].next <= n
    decreases |ps|
  {
    if ps[0].next > n {
      m := 0;
    } else {
      var k := FirstTorn(ps[1..], n);
      m := k + 1;
    }
  }

  /** Reading the first n bytes of a file gives back the pieces that lie inside, and ends where one is cut off. */
  ghost predicate Faithful(emit: Emit, whole: Bytes, n: nat, scan: nat -> Scan)
  {
    && Advances(scan, n) && scan(n) == Scan(Eof, n)
    && (forall p {:trigger PieceWritten(emit, whole, p)} :: PieceWritten(emit, whole, p) && p.next <= n ==>
         scan(p.at) == Scan(Good(p.kind, p.data), p.next))
    && (forall p {:trigger PieceWritten(emit, whole, p)} :: PieceWritten(emit, whole, p) && p.at <= n < p.next ==>
         scan(p.at) == Scan(Eof, n))
  }

  lemma ScannerFaithful(step: CrcStep, checksum: bool, whole: Bytes, n: nat)
    requires n <= |whole|
    ensures Faithful(Emitter(step), whole, n, Scanner(step, checksum, whole[..n]))
  {
    var emit, scan := Emitter(step), Scanner(step, checksum, whole[..n]);
    assert Scanned(step, checksum, whole[..n], n) == Scan(Eof, n);
    forall p | PieceWritten(emit, whole, p) && p.next <= n ensures scan(p.at) == Scan(Good(p.kind, p.data), p.next) {
      assert whole[..n][p.at + p.pad..p.next] == whole[p.at + p.pad..p.next];
      ScanWhole(step, checksum, whole[..n], p.at, p.kind, p.data);
    }
    forall p | PieceWritten(emit, whole, p) && p.at <= n < p.next ensures scan(p.at) == Scan(Eof, n) {
      ScanTorn(step, checksum, whole, n, p.at, p.kind, p.data);
    }
  }

  /** A record is returned exactly when its last piece lies inside. */
  lemma ReadPieces(emit: Emit, whole: Bytes, n: nat, scan: nat -> Scan, ps: seq<Piece>)
    requires Faithful(emit, whole, n, scan) && Linked(ps, true) && ps[0].at <= n
    requires forall p :: p in ps ==> PieceWritten(emit, whole, p)
    ensures Assembled(scan, n, ps[0].at, [], false) ==
      if ps[|ps| - 1].next <= n then Outcome(Some(Joined(ps)), ps[|ps| - 1].next, []) else Outcome(None, n, [])
  {
    assert forall i :: 0 <= i < |ps| ==> ps[i] in ps;
    if ps[|ps| - 1].next <= n {
      forall i | 0 <= i < |ps| ensures ps[i].next <= n { LastEnds(ps, i); }
      AssembleWhole(scan, n, ps, true, []);
      assert [] + Joined(ps) == Joined(ps);
    } else {
      var m := FirstTorn(ps, n);
      assert ps[m].at <= n by {
        if m > 0 { assert ps[m - 1].next == ps[m].at; }
      }
      AssembleTorn(scan, n, ps, true, [], m);
    }
  }

  lemma {:induction false} LastEnds(ps: seq<Piece>, i: nat)
    requires i < |ps| && forall j, k :: 0 <= j && k == j + 1 && k < |ps| ==> ps[j].next == ps[k].at
    requires forall j :: 0 <= j < |ps| ==> ps[j].at < ps[j].next
    ensures ps[i].next <= ps[|ps| - 1].next
    decreases |ps| - i
  {
    if i < |ps| - 1 { LastEnds(ps, i + 1); }
  }

  // --- Whole logs ---------------------------------------------------------------------------

  /** How many records end within the first n bytes of the log. */
  function Inside(emit: Emit, records: seq<Bytes>, n: nat): (k: nat)
    requires Sized(emit)
    ensures k <= |records|
  {
    if |File(emit, records)| <= n || records == [] then |records| else Inside(emit, records[..|records| - 1], n)
  }

  lemma EncodedGrows(emit: Emit, at: nat, left: Bytes, begin: bool)
    requires Sized(emit)
    ensures |Encoded(emit, at, left, begin)| >= HEADER
  {
  }

  lemma {:induction false} FilePrefix(emit: Emit, records: seq<Bytes>, k: nat)
    requires Sized(emit) && k <= |records|
    ensures File(emit, records[..k]) <= File(emit, records)
    ensures k < |records| ==> |File(emit, records[..k])| < |File(emit, records)|
  {
    if k < |records| {
      var shorter := records[..|records| - 1];
      EncodedGrows(emit, |File(emit, shorter)|, records[|records| - 1], true);
      FilePrefix(emit, shorter, k);
      assert shorter[..k] == records[..k];
    } else {
      assert records[..k] == records;
    }
  }

  /** Inside counts exactly the records whose encoding lies wholly within the prefix. */
  lemma {:induction false} InsideIff(emit: Emit, records: seq<Bytes>, n: nat, k: nat)
    requires Sized(emit) && k <= |records|
    ensures k <= Inside(emit, records, n) <==> |File(emit, records[..k])| <= n
  {
    if |File(emit, records)| <= n || records == [] {
      FilePrefix(emit, records, k);
    } else if k == |records| {
      assert records[..k] == records;
    } else {
      var shorter := records[..|records| - 1];
      InsideIff(emit, shorter, n, k);
      assert shorter[..k] == records[..k];
    }
  }

  /** Record k of the log is a chain of pieces between the ends of the log without it and with it. */
  lemma RecordPieces(emit: Emit, records: seq<Bytes>, k: nat) returns (ps: seq<Piece>)
    requires Sized(emit) && k < |records|
    ensures Linked(ps, true) && Joined(ps) == records[k]
    ensures ps[0].at == |File(emit, records[..k])| && ps[|ps| - 1].next == |File(emit, records[..k + 1])|
    ensures forall p :: p in ps ==> PieceWritten(emit, File(emit, records), p)
  {
    var whole, f := File(emit, records), File(emit, records[..k]);
    var e := Encoded(emit, |f|, records[k], true);
    assert records[..k + 1] == records[..k] + [records[k]];
    FileSnoc(emit, records[..k], records[k]);
    FilePrefix(emit, records, k + 1);
    Within(whole, f, e);
    ps := PiecesWritten(emit, whole, |f|, records[k]);
  }

  lemma PiecesWritten(emit: Emit, file: Bytes, at: nat, record: Bytes) returns (ps: seq<Piece>)
    requires Sized(emit) && at + |Encoded(emit, at, record, true)| <= |file|
    requires file[at..at + |Encoded(emit, at, record, true)|] == Encoded(emit, at, record, true)
    ensures Linked(ps, true) && Joined(ps) == record
    ensures ps[0].at == at && ps[|ps| - 1].next == at + |Encoded(emit, at, record, true)|
    ensures forall p :: p in ps ==> PieceWritten(emit, file, p)
  {
    ps := Pieces(at, record, true);
    PiecesLinked(at, record, true);
    LaidWritten(emit, file, at, ps);
  }

  lemma Within(whole: Bytes, f: Bytes, e: Bytes)
    requires f + e <= whole
    ensures |f| + |e| <= |whole| && whole[|f|..|f| + |e|] == e
  {
  }

  lemma ReadOne(scan: nat -> Scan, limit: nat, at: nat, r: Outcome)
    requires Advances(scan, limit) && at <= limit && Assembled(scan, limit, at, [], false) == r && r.dropped == []
    ensures r.record.None? ==> ReadAll(scan, limit, at) == Contents([], [])
    ensures r.record.Some? ==> at < r.at <= limit
    ensures r.record.Some? ==>
      var more := ReadAll(scan, limit, r.at);
      ReadAll(scan, limit, at) == Contents([r.record.value] + more.records, more.dropped)
  {
  }

  /** Reading record k out of the first n bytes. */
  lemma ReadRecord(emit: Emit, records: seq<Bytes>, n: nat, scan: nat -> Scan, k: nat)
    requires Sized(emit) && Faithful(emit, File(emit, records), n, scan)
    requires k < |records| && |File(emit, records[..k])| <= n
    ensures Assembled(scan, n, |File(emit, records[..k])|, [], false) ==
      if |File(emit, records[..k + 1])| <= n then Outcome(Some(records[k]), |File(emit, records[..k + 1])|, [])
      else Outcome(None, n, [])
  {
    var ps := RecordPieces(emit, records, k);
    ReadPieces(emit, File(emit, records), n, scan, ps);
  }

  /** Reading on from record k, when the records end where ends says and m of them lie inside. */
  lemma {:induction false} ReadChain(scan: nat -> Scan, limit: nat, records: seq<Bytes>, ends: seq<nat>, k: nat)
    requires Advances(scan, limit) && k < |ends| <= |records| + 1
    requires forall i :: 0 <= i < |ends| ==> ends[i] <= limit
    requires forall i :: 0 <= i < |ends| - 1 ==> Assembled(scan, limit, ends[i], [], false) == Outcome(Some(records[i]), ends[i + 1], [])
    requires Assembled(scan, limit, ends[|ends| - 1], [], false) == Outcome(None, limit, [])
    ensures ReadAll(scan, limit, ends[k]) == Contents(records[k..|ends| - 1], [])
    decreases |ends| - k
  {
    if k < |ends| - 1 {
      var next := ends[k + 1];
      ReadOne(scan, limit, ends[k], Outcome(Some(records[k]), next, []));
      ReadChain(scan, limit, records, ends, k + 1);
      Head(records, k, |ends| - 1);
    } else {
      ReadOne(scan, limit, ends[k], Outcome(None, limit, []));
    }
  }

  lemma Head(records: seq<Bytes>, k: nat, n: nat)
    requires k < n <= |records|
    ensures [records[k]] + records[k + 1..n] == records[k..n]
  {
  }

  /** Where the first m records of the log end. */
  ghost function Ends(emit: Emit, records: seq<Bytes>, m: nat): (ends: seq<nat>)
    requires m <= |records|
    ensures |ends| == m + 1 && forall i :: 0 <= i <= m ==> ends[i] == |File(emit, records[..i])|
  {
    (if m == 0 then [] else Ends(emit, records, m - 1)) + [|File(emit, records[..m])|]
  }

  /** Past the last whole record there is only the end. */
  lemma ReadLast(emit: Emit, records: seq<Bytes>, n: nat, scan: nat -> Scan)
    requires Sized(emit) && Faithful(emit, File(emit, records), n, scan) && n <= |File(emit, records)|
    ensures
      var at := |File(emit, records[..Inside(emit, records, n)])|;
      at <= n && Assembled(scan, n, at, [], false) == Outcome(None, n, [])
  {
    var m := Inside(emit, records, n);
    InsideIff(emit, records, n, m);
    if m == |records| {
      assert records[..m] == records;
      assert |File(emit, records[..m])| == n;
      ReadEnd(scan, n);
    } else {
      ReadCut(emit, records, n, scan, m);
    }
  }

  lemma ReadCut(emit: Emit, records: seq<Bytes>, n: nat, scan: nat -> Scan, k: nat)
    requires Sized(emit) && Faithful(emit, File(emit, records), n, scan)
    requires k == Inside(emit, records, n) < |records| && |File(emit, records[..k])| <= n
    ensures Assembled(scan, n, |File(emit, records[..k])|, [], false) == Outcome(None, n, [])
  {
    InsideIff(emit, records, n, k + 1);
    ReadRecord(emit, records, n, scan, k);
  }

  lemma ReadEnd(scan: nat -> Scan, n: nat)
    requires Advances(scan, n) && scan(n) == Scan(Eof, n)
    ensures Assembled(scan, n, n, [], false) == Outcome(None, n, [])
  {
  }

  lemma ReadInside(emit: Emit, records: seq<Bytes>, n: nat, scan: nat -> Scan, k: nat)
    requires Sized(emit) && Faithful(emit, File(emit, records), n, scan) && n <= |File(emit, records)|
    requires k < Inside(emit, records, n)
    ensures
      var at := |File(emit, records[..k])|;
      at <= n && Assembled(scan, n, at, [], false) == Outcome(Some(records[k]), |File(emit, records[..k + 1])|, [])
  {
    InsideIff(emit, records, n, k);
    InsideIff(emit, records, n, k + 1);
    ReadRecord(emit, records, n, scan, k);
  }

  /** Any faithful way of reading the first n bytes gives the records inside. */
  lemma ReadPrefix(emit: Emit, records: seq<Bytes>, n: nat, scan: nat -> Scan)
    requires Sized(emit) && Faithful(emit, File(emit, records), n, scan) && n <= |File(emit, records)|
    ensures ReadAll(scan, n, 0) == Contents(records[..Inside(emit, records, n)], [])
  {
    var m := Inside(emit, records, n);
    var ends := Ends(emit, records, m);
    ReadLast(emit, records, n, scan);
    forall i | 0 <= i < m
      ensures ends[i] <= n && Assembled(scan, n, ends[i], [], false) == Outcome(Some(records[i]), ends[i + 1], [])
    {
      ReadInside(emit, records, n, scan, i);
    }
    assert ends[0] == 0 by { assert records[..0] == []; }
    ReadChain(scan, n, records, ends, 0);
    assert records[0..m] == records[..m];
  }

  /** Reading any byte prefix of a log gives exactly the records wholly inside it, in order, with no corruption. */
  lemma PrefixReads(step: CrcStep, checksum: bool, records: seq<Bytes>, n: nat)
    requires n <= |File(Emitter(step), records)|
    ensures
      var emit := Emitter(step);
      ReadLog(step, checksum, File(emit, records)[..n]) == Contents(records[..Inside(emit, records, n)], [])
  {
    var emit := Emitter(step);
    var whole := File(emit, records);
    ScannerFaithful(step, checksum, whole, n);
    ReadPrefix(emit, records, n, Scanner(step, checksum, whole[..n]));
  }
}
