/**
 VersionEdit records: the tagged fields that EncodeTo writes and DecodeFrom reads. Internal keys are byte strings here.
 */
module EditCodec {
  import opened Bytes
  import opened Keys
  import opened Coding

  /** FileMetaData as far as a record carries it; the root hash is not part of it. */
  datatype Meta = Meta(number: nat, size: nat, smallest: Bytes, largest: Bytes)

  datatype Field =
    | Comparator(name: Bytes)
    | LogNumber(n: nat)
    | PrevLogNumber(n: nat)
    | NextFile(n: nat)
    | LastSequence(n: nat)
    | CompactPointer(level: nat, key: Bytes)
    | DeletedFile(level: nat, n: nat)
    | NewFile(level: nat, file: Meta)

  /** What fits the format: 64-bit numbers, levels below 7, strings whose length fits 32 bits. */
  predicate Fits(f: Field)
  {
    match f
    case Comparator(name) => |name| < WORD32
    case CompactPointer(level, key) => level < NUM_LEVELS && |key| < WORD32
    case DeletedFile(level, n) => level < NUM_LEVELS && n < WORD64
    case NewFile(level, m) =>
      level < NUM_LEVELS && m.number < WORD64 && m.size < WORD64 && |m.smallest| < WORD32 && |m.largest| < WORD32
    case _ => f.n < WORD64
  }

  function TagOf(f: Field): nat
  {
    match f
    case Comparator(_) => 1
    case LogNumber(_) => 2
    case NextFile(_) => 3
    case LastSequence(_) => 4
    case CompactPointer(_, _) => 5
    case DeletedFile(_, _) => 6
    case NewFile(_, _) => 7
    case PrevLogNumber(_) => 9
  }

  /** The bytes of a field, in front of what follows it. */
  function Put(f: Field, rest: Bytes): Bytes
  {
    Varint(TagOf(f)) + PutBody(f, rest)
  }

  function PutBody(f: Field, rest: Bytes): Bytes
  {
    match f
    case Comparator(name) => Prefixed(name) + rest
    case CompactPointer(level, key) => Varint(level) + (Prefixed(key) + rest)
    case DeletedFile(level, n) => Varint(level) + (Varint(n) + rest)
    case NewFile(level, m) =>
      Varint(level) + (Varint(m.number) + (Varint(m.size) + (Prefixed(m.smallest) + (Prefixed(m.largest) + rest))))
    case _ => Varint(f.n) + rest
  }

  function PutAll(fs: seq<Field>): Bytes
  {
    if fs == [] then [] else Put(fs[0], PutAll(fs[1..]))
  }

  // --- Reading ------------------------------------------------------------------------------

  datatype Got<T> = Got(value: T, rest: Bytes)

  function Get32(s: Bytes): (r: Option<Got<nat>>)
    ensures r.Some? ==> |r.value.rest| < |s|
  {
    match ReadVarint32(s)
    case None => None
    case Some(t) => Some(Got(t.value, s[t.size..]))
  }

  function Get64(s: Bytes): (r: Option<Got<nat>>)
    ensures r.Some? ==> |r.value.rest| < |s|
  {
    match ReadVarint64(s)
    case None => None
    case Some(t) => Some(Got(t.value, s[t.size..]))
  }

  function GetSlice(s: Bytes): (r: Option<Got<Bytes>>)
    ensures r.Some? ==> |r.value.rest| <= |s|
  {
    match ReadSlice(s)
    case None => None
    case Some(x) => Some(Got(x.data, s[x.size..]))
  }

  function GetLevel(s: Bytes): (r: Option<Got<nat>>)
    ensures r.Some? ==> |r.value.rest| < |s|
  {
    match Get32(s)
    case None => None
    case Some(g) => if g.value < NUM_LEVELS then Some(g) else None
  }

  /** The body of a field whose tag has been read. */
  function GetBody(tag: nat, s: Bytes): (r: Option<Got<Field>>)
    ensures r.Some? ==> |r.value.rest| <= |s|
  {
    if tag == 1 then
      match GetSlice(s) case None => None case Some(g) => Some(Got(Comparator(g.value), g.rest))
    else if tag == 2 || tag == 3 || tag == 4 || tag == 9 then
      match Get64(s) case None => None case Some(g) => Some(Got(NumberField(tag, g.value), g.rest))
    else if tag == 5 then
      match GetLevel(s)
      case None => None
      case Some(l) => match GetSlice(l.rest) case None => None case Some(k) => Some(Got(CompactPointer(l.value, k.value), k.rest))
    else if tag == 6 then
      match GetLevel(s)
      case None => None
      case Some(l) => match Get64(l.rest) case None => None case Some(n) => Some(Got(DeletedFile(l.value, n.value), n.rest))
    else if tag == 7 then GetNew(s)
    else None
  }

  function GetNew(s: Bytes): (r: Option<Got<Field>>)
    ensures r.Some? ==> |r.value.rest| <= |s|
  {
    match GetLevel(s)
    case None => None
    case Some(l) => match GetMeta(l.rest) case None => None case Some(m) => Some(Got(NewFile(l.value, m.value), m.rest))
  }

  function NumberField(tag: nat, n: nat): Field
  {
    if tag == 2 then LogNumber(n) else if tag == 3 then NextFile(n) else if tag == 4 then LastSequence(n) else PrevLogNumber(n)
  }

  function GetMeta(s: Bytes): (r: Option<Got<Meta>>)
    ensures r.Some? ==> |r.value.rest| <= |s|
  {
    match Get64(s)
    case None => None
    case Some(a) =>
      match Get64(a.rest)
      case None => None
      case Some(b) =>
        match GetSlice(b.rest)
        case None => None
        case Some(c) =>
          match GetSlice(c.rest)
          case None => None
          case Some(d) => Some(Got(Meta(a.value, b.value, c.value, d.value), d.rest))
  }

  function Get(s: Bytes): (r: Option<Got<Field>>)
    ensures r.Some? ==> |r.value.rest| < |s|
  {
    match Get32(s)
    case None => None
    case Some(t) => GetBody(t.value, t.rest)
  }

  /** DecodeFrom's loop: all fields, or None for a corrupt record. */
  function GetAll(s: Bytes): Option<seq<Field>>
    decreases |s|
  {
    if s == [] then Some([])
    else
      match Get(s)
      case None => None
      case Some(g) => match GetAll(g.rest) case None => None case Some(fs) => Some([g.value] + fs)
  }

  // --- Round trip ---------------------------------------------------------------------------

  lemma Got32(v: nat, rest: Bytes)
    requires v < WORD32
    ensures Get32(Varint(v) + rest) == Some(Got(v, rest))
  {
    Varint32RoundTrip(v, rest);
    assert (Varint(v) + rest)[|Varint(v)|..] == rest;
  }

  lemma Got64(v: nat, rest: Bytes)
    requires v < WORD64
    ensures Get64(Varint(v) + rest) == Some(Got(v, rest))
  {
    Varint64RoundTrip(v, rest);
    assert (Varint(v) + rest)[|Varint(v)|..] == rest;
  }

  lemma GotSlice(b: Bytes, rest: Bytes)
    requires |b| < WORD32
    ensures GetSlice(Prefixed(b) + rest) == Some(Got(b, rest))
  {
    SliceRoundTrip(b, rest);
    assert (Prefixed(b) + rest)[|Prefixed(b)|..] == rest;
  }

  lemma GotMeta(m: Meta, rest: Bytes)
    requires m.number < WORD64 && m.size < WORD64 && |m.smallest| < WORD32 && |m.largest| < WORD32
    ensures GetMeta(Varint(m.number) + (Varint(m.size) + (Prefixed(m.smallest) + (Prefixed(m.largest) + rest)))) == Some(Got(m, rest))
  {
    var d := Prefixed(m.largest) + rest;
    var c := Prefixed(m.smallest) + d;
    var b := Varint(m.size) + c;
    Got64(m.number, b);
    Got64(m.size, c);
    GotSlice(m.smallest, d);
    GotSlice(m.largest, rest);
  }

  lemma GotPointer(level: nat, key: Bytes, rest: Bytes)
    requires level < NUM_LEVELS && |key| < WORD32
    ensures GetBody(5, Varint(level) + (Prefixed(key) + rest)) == Some(Got(CompactPointer(level, key), rest))
  {
    Got32(level, Prefixed(key) + rest);
    GotSlice(key, rest);
  }

  lemma GotDeleted(level: nat, n: nat, rest: Bytes)
    requires level < NUM_LEVELS && n < WORD64
    ensures GetBody(6, Varint(level) + (Varint(n) + rest)) == Some(Got(DeletedFile(level, n), rest))
  {
    Got32(level, Varint(n) + rest);
    Got64(n, rest);
  }

  lemma GotLevel(level: nat, rest: Bytes)
    requires level < NUM_LEVELS
    ensures GetLevel(Varint(level) + rest) == Some(Got(level, rest))
  {
    Got32(level, rest);
  }

  lemma NewOf(s: Bytes, l: Got<nat>, m: Got<Meta>)
    requires GetLevel(s) == Some(l) && GetMeta(l.rest) == Some(m)
    ensures GetNew(s) == Some(Got(NewFile(l.value, m.value), m.rest))
  {
  }

  lemma BodyOfNew(s: Bytes, r: Option<Got<Field>>)
    requires GetNew(s) == r
    ensures GetBody(7, s) == r
  {
  }

  lemma GotNew(level: nat, s: Bytes, m: Meta, rest: Bytes)
    requires level < NUM_LEVELS && GetMeta(s) == Some(Got(m, rest))
    ensures GetBody(7, Varint(level) + s) == Some(Got(NewFile(level, m), rest))
  {
    GotLevel(level, s);
    NewOf(Varint(level) + s, Got(level, s), Got(m, rest));
    BodyOfNew(Varint(level) + s, Some(Got(NewFile(level, m), rest)));
  }

  lemma GotNumber(tag: nat, n: nat, rest: Bytes)
    requires n < WORD64 && (tag == 2 || tag == 3 || tag == 4 || tag == 9)
    ensures GetBody(tag, Varint(n) + rest) == Some(Got(NumberField(tag, n), rest))
  {
    Got64(n, rest);
  }

  lemma GotBody(f: Field, rest: Bytes)
    requires Fits(f)
    ensures GetBody(TagOf(f), PutBody(f, rest)) == Some(Got(f, rest))
  {
    match f {
      case Comparator(name) => GotSlice(name, rest);
      case CompactPointer(level, key) => GotPointer(level, key, rest);
      case DeletedFile(level, n) => GotDeleted(level, n, rest);
      case NewFile(level, m) =>
        var s := Varint(m.number) + (Varint(m.size) + (Prefixed(m.smallest) + (Prefixed(m.largest) + rest)));
        GotMeta(m, rest);
        GotNew(level, s, m, rest);
      case _ => GotNumber(TagOf(f), f.n, rest);
    }
  }

  lemma {:induction false} GotAll(fs: seq<Field>)
    requires forall f :: f in fs ==> Fits(f)
    ensures GetAll(PutAll(fs)) == Some(fs)
  {
    if fs != [] {
      var f, rest := fs[0], PutAll(fs[1..]);
      GotAll(fs[1..]);
      Got32(TagOf(f), PutBody(f, rest));
      GotBody(f, rest);
      assert Get(Put(f, rest)) == Some(Got(f, rest));
      assert fs == [f] + fs[1..];
    }
  }

  // --- Edits --------------------------------------------------------------------------------

  datatype Edit = Edit(comparator: Option<Bytes>, logNumber: Option<nat>, prevLogNumber: Option<nat>, nextFile: Option<nat>,
                       lastSequence: Option<nat>, compactPointers: seq<(nat, Bytes)>, deleted: set<(nat, nat)>, newFiles: seq<(nat, Meta)>)

  const BLANK: Edit := Edit(None, None, None, None, None, [], {}, [])

  /** Clear, which leaves the compaction pointers in place. */
  function Cleared(e: Edit): Edit
  {
    BLANK.(compactPointers := e.compactPointers)
  }

  function Add(e: Edit, f: Field): Edit
  {
    match f
    case Comparator(name) => e.(comparator := Some(name))
    case LogNumber(n) => e.(logNumber := Some(n))
    case PrevLogNumber(n) => e.(prevLogNumber := Some(n))
    case NextFile(n) => e.(nextFile := Some(n))
    case LastSequence(n) => e.(lastSequence := Some(n))
    case CompactPointer(level, key) => e.(compactPointers := e.compactPointers + [(level, key)])
    case DeletedFile(level, n) => e.(deleted := e.deleted + {(level, n)})
    case NewFile(level, m) => e.(newFiles := e.newFiles + [(level, m)])
  }

  function AddAll(e: Edit, fs: seq<Field>): Edit
    decreases |fs|
  {
    if fs == [] then e else AddAll(Add(e, fs[0]), fs[1..])
  }

  lemma {:induction false} AddConcat(e: Edit, a: seq<Field>, b: seq<Field>)
    ensures AddAll(e, a + b) == AddAll(AddAll(e, a), b)
    decreases |a|
  {
    if a == [] {
      assert a + b == b;
    } else {
      assert (a + b)[1..] == a[1..] + b;
      AddConcat(Add(e, a[0]), a[1..], b);
    }
  }

  function Heads(e: Edit): seq<Field>
  {
    (if e.comparator.Some? then [Comparator(e.comparator.value)] else []) +
    (if e.logNumber.Some? then [LogNumber(e.logNumber.value)] else []) +
    (if e.prevLogNumber.Some? then [PrevLogNumber(e.prevLogNumber.value)] else []) +
    (if e.nextFile.Some? then [NextFile(e.nextFile.value)] else []) +
    (if e.lastSequence.Some? then [LastSequence(e.lastSequence.value)] else [])
  }

  function Pointers(ps: seq<(nat, Bytes)>): seq<Field> { seq(|ps|, i requires 0 <= i < |ps| => CompactPointer(ps[i].0, ps[i].1)) }

  function Deletions(ds: seq<(nat, nat)>): seq<Field> { seq(|ds|, i requires 0 <= i < |ds| => DeletedFile(ds[i].0, ds[i].1)) }

  function Additions(ns: seq<(nat, Meta)>): seq<Field> { seq(|ns|, i requires 0 <= i < |ns| => NewFile(ns[i].0, ns[i].1)) }

  /** The fields EncodeTo writes; order lists the deleted files as the set is walked. */
  function Fields(e: Edit, order: seq<(nat, nat)>): seq<Field>
  {
    Heads(e) + Pointers(e.compactPointers) + Deletions(order) + Additions(e.newFiles)
  }

  lemma AddHeads(e: Edit)
    ensures AddAll(BLANK, Heads(e)) == BLANK.(comparator := e.comparator, logNumber := e.logNumber,
      prevLogNumber := e.prevLogNumber, nextFile := e.nextFile, lastSequence := e.lastSequence)
  {
    var a := if e.comparator.Some? then [Comparator(e.comparator.value)] else [];
    var b := if e.logNumber.Some? then [LogNumber(e.logNumber.value)] else [];
    var c := if e.prevLogNumber.Some? then [PrevLogNumber(e.prevLogNumber.value)] else [];
    var d := if e.nextFile.Some? then [NextFile(e.nextFile.value)] else [];
    var f := if e.lastSequence.Some? then [LastSequence(e.lastSequence.value)] else [];
    AddConcat(BLANK, a + b + c + d, f);
    AddConcat(BLANK, a + b + c, d);
    AddConcat(BLANK, a + b, c);
    AddConcat(BLANK, a, b);
  }

  lemma {:induction false} AddPointers(e: Edit, ps: seq<(nat, Bytes)>)
    ensures AddAll(e, Pointers(ps)) == e.(compactPointers := e.compactPointers + ps)
    decreases |ps|
  {
    if ps != [] {
      assert Pointers(ps)[1..] == Pointers(ps[1..]);
      AddPointers(e.(compactPointers := e.compactPointers + [ps[0]]), ps[1..]);
      assert e.compactPointers + [ps[0]] + ps[1..] == e.compactPointers + ps;
    } else {
      assert e.compactPointers + ps == e.compactPointers;
    }
  }

  function Listed(ds: seq<(nat, nat)>): set<(nat, nat)> { set d | d in ds }

  lemma {:induction false} AddDeletions(e: Edit, ds: seq<(nat, nat)>)
    ensures AddAll(e, Deletions(ds)) == e.(deleted := e.deleted + Listed(ds))
    decreases |ds|
  {
    if ds != [] {
      assert Deletions(ds)[1..] == Deletions(ds[1..]);
      AddDeletions(e.(deleted := e.deleted + {ds[0]}), ds[1..]);
      assert ds == [ds[0]] + ds[1..];
      assert e.deleted + {ds[0]} + Listed(ds[1..]) == e.deleted + Listed(ds);
    } else {
      assert e.deleted + Listed(ds) == e.deleted;
    }
  }

  lemma {:induction false} AddAdditions(e: Edit, ns: seq<(nat, Meta)>)
    ensures AddAll(e, Additions(ns)) == e.(newFiles := e.newFiles + ns)
    decreases |ns|
  {
    if ns != [] {
      assert Additions(ns)[1..] == Additions(ns[1..]);
      AddAdditions(e.(newFiles := e.newFiles + [ns[0]]), ns[1..]);
      assert e.newFiles + [ns[0]] + ns[1..] == e.newFiles + ns;
    } else {
      assert e.newFiles + ns == e.newFiles;
    }
  }

  /** The fields of an edit give it back. */
  lemma AddFields(e: Edit, order: seq<(nat, nat)>)
    requires Listed(order) == e.deleted
    ensures AddAll(BLANK, Fields(e, order)) == e
  {
    var h, p, d, n := Heads(e), Pointers(e.compactPointers), Deletions(order), Additions(e.newFiles);
    AddConcat(BLANK, h + p + d, n);
    AddConcat(BLANK, h + p, d);
    AddConcat(BLANK, h, p);
    AddHeads(e);
    var e1 := AddAll(BLANK, h);
    AddPointers(e1, e.compactPointers);
    var e2 := e1.(compactPointers := [] + e.compactPointers);
    AddDeletions(e2, order);
    AddAdditions(e2.(deleted := {} + Listed(order)), e.newFiles);
  }

  ghost predicate Encodable(e: Edit, order: seq<(nat, nat)>)
  {
    Listed(order) == e.deleted && forall f :: f in Fields(e, order) ==> Fits(f)
  }

  /** What DecodeFrom makes of a record, on an edit that held start before. */
  function Decoded(start: Edit, src: Bytes): Option<Edit>
  {
    match GetAll(src)
    case None => None
    case Some(fs) => Some(AddAll(Cleared(start), fs))
  }

  /** Decoding into a new edit inverts encoding. */
  lemma EditRoundTrip(e: Edit, order: seq<(nat, nat)>)
    requires Encodable(e, order)
    ensures Decoded(BLANK, PutAll(Fields(e, order))) == Some(e)
  {
    GotAll(Fields(e, order));
    AddFields(e, order);
  }

  // --- The loops ----------------------------------------------------------------------------

  lemma {:induction false} PutAppend(fs: seq<Field>, f: Field)
    ensures PutAll(fs + [f]) == PutAll(fs) + Put(f, [])
  {
    if fs == [] {
      assert fs + [f] == [f] && [f][1..] == [];
    } else {
      assert (fs + [f])[1..] == fs[1..] + [f];
      PutAppend(fs[1..], f);
      PutOnto(fs[0], PutAll(fs[1..]), Put(f, []));
    }
  }

  /** What follows a field is simply appended. */
  lemma PutOnto(f: Field, a: Bytes, b: Bytes)
    ensures Put(f, a + b) == Put(f, a) + b
  {
    BodyOnto(f, a, b);
    Assoc(Varint(TagOf(f)), PutBody(f, a), b);
  }

  lemma Assoc(a: Bytes, b: Bytes, c: Bytes)
    ensures a + (b + c) == a + b + c
  {
  }

  lemma BodyOnto(f: Field, a: Bytes, b: Bytes)
    ensures PutBody(f, a + b) == PutBody(f, a) + b
  {
    match f {
      case Comparator(name) => Assoc(Prefixed(name), a, b);
      case CompactPointer(level, key) =>
        Assoc(Prefixed(key), a, b);
        Assoc(Varint(level), Prefixed(key) + a, b);
      case DeletedFile(level, n) =>
        Assoc(Varint(n), a, b);
        Assoc(Varint(level), Varint(n) + a, b);
      case NewFile(level, m) =>
        var s4 := Prefixed(m.largest) + a;
        var s3 := Prefixed(m.smallest) + s4;
        var s2 := Varint(m.size) + s3;
        Assoc(Prefixed(m.largest), a, b);
        Assoc(Prefixed(m.smallest), s4, b);
        Assoc(Varint(m.size), s3, b);
        Assoc(Varint(m.number), s2, b);
        Assoc(Varint(level), Varint(m.number) + s2, b);
      case _ => Assoc(Varint(f.n), a, b);
    }
  }

  /** DecodeFrom. */
  method DecodeFrom(start: Edit, src: Bytes) returns (r: Option<Edit>)
    ensures r == Decoded(start, src)
  {
    var e, input := Cleared(start), src;
    ghost var whole := GetAll(src);
    while true
      invariant whole.Some? <==> GetAll(input).Some?
      invariant whole.Some? ==> AddAll(Cleared(start), whole.value) == AddAll(e, GetAll(input).value)
      decreases |input|
    {
      var t := Get32(input);
      if t.None? {
        break;
      }
      var g := GetBody(t.value.value, t.value.rest);
      if g.None? {
        return None;
      }
      e, input := Add(e, g.value.value), g.value.rest;
    }
    if input != [] {
      return None;
    }
    return Some(e);
  }

  /** The optional fields. */
  method PutHeads(e: Edit) returns (dst: Bytes)
    ensures dst == PutAll(Heads(e))
  {
    var heads := Heads(e);
    dst := [];
    for i := 0 to |heads|
      invariant dst == PutAll(heads[..i])
    {
      PutAppend(heads[..i], heads[i]);
      assert heads[..i + 1] == heads[..i] + [heads[i]];
      dst := dst + Put(heads[i], []);
    }
    assert heads[..|heads|] == heads;
  }

  method PutPointers(start: Bytes, ghost fs: seq<Field>, ps: seq<(nat, Bytes)>) returns (dst: Bytes)
    requires start == PutAll(fs)
    ensures dst == PutAll(fs + Pointers(ps))
  {
    dst := start;
    assert fs + Pointers(ps)[..0] == fs;
    for i := 0 to |ps|
      invariant dst == PutAll(fs + Pointers(ps)[..i])
    {
      var f := CompactPointer(ps[i].0, ps[i].1);
      PutNext(fs, Pointers(ps), i);
      dst := dst + Put(f, []);
    }
    assert Pointers(ps)[..|ps|] == Pointers(ps);
  }

  method PutDeletions(start: Bytes, ghost fs: seq<Field>, ds: seq<(nat, nat)>) returns (dst: Bytes)
    requires start == PutAll(fs)
    ensures dst == PutAll(fs + Deletions(ds))
  {
    dst := start;
    assert fs + Deletions(ds)[..0] == fs;
    for i := 0 to |ds|
      invariant dst == PutAll(fs + Deletions(ds)[..i])
    {
      var f := DeletedFile(ds[i].0, ds[i].1);
      PutNext(fs, Deletions(ds), i);
      dst := dst + Put(f, []);
    }
    assert Deletions(ds)[..|ds|] == Deletions(ds);
  }

  method PutAdditions(start: Bytes, ghost fs: seq<Field>, ns: seq<(nat, Meta)>) returns (dst: Bytes)
    requires start == PutAll(fs)
    ensures dst == PutAll(fs + Additions(ns))
  {
    dst := start;
    assert fs + Additions(ns)[..0] == fs;
    for i := 0 to |ns|
      invariant dst == PutAll(fs + Additions(ns)[..i])
    {
      var f := NewFile(ns[i].0, ns[i].1);
      PutNext(fs, Additions(ns), i);
      dst := dst + Put(f, []);
    }
    assert Additions(ns)[..|ns|] == Additions(ns);
  }

  lemma PutNext(fs: seq<Field>, more: seq<Field>, i: nat)
    requires i < |more|
    ensures PutAll(fs + more[..i + 1]) == PutAll(fs + more[..i]) + Put(more[i], [])
  {
    Snoc(fs, more, i);
    PutAppend(fs + more[..i], more[i]);
  }

  lemma Snoc(fs: seq<Field>, more: seq<Field>, i: nat)
    requires i < |more|
    ensures fs + more[..i + 1] == fs + more[..i] + [more[i]]
  {
    assert more[..i + 1] == more[..i] + [more[i]];
  }

  /** EncodeTo. */
  method EncodeTo(e: Edit, order: seq<(nat, nat)>) returns (dst: Bytes)
    ensures dst == PutAll(Fields(e, order))
  {
    dst := PutHeads(e);
    ghost var h, p, d := Heads(e), Pointers(e.compactPointers), Deletions(order);
    dst := PutPointers(dst, h, e.compactPointers);
    dst := PutDeletions(dst, h + p, order);
    dst := PutAdditions(dst, h + p + d, e.newFiles);
  }
}
