/**
 Table::InternalGet on the bytes of a table file: the index block, the handles in it, the filter and the data block, for
 user keys that are byte strings.
 */
module TableBytes {
  import opened Bytes
  import opened Keys
  import opened Coding
  import opened Bloom
  import opened TwoLevel
  import opened Table
  import FilterBlock
  import BlockFormat
  import BlockIter
  import InternalKeys
  import TableFile

  // --- Block handles ------------------------------------------------------------------------

  datatype BlockHandle = BlockHandle(offset: nat, size: nat)

  /** BlockHandle::EncodeTo. */
  function HandleBytes(h: BlockHandle): Bytes { Varint(h.offset) + Varint(h.size) }

  /** BlockHandle::DecodeFrom; what follows the handle is ignored. */
  function ReadHandle(s: Bytes): Option<BlockHandle>
  {
    match ReadVarint64(s)
    case None => None
    case Some(t) =>
      match ReadVarint64(s[t.size..])
      case None => None
      case Some(n) => Some(BlockHandle(t.value, n.value))
  }

  lemma HandleRoundTrip(h: BlockHandle, rest: Bytes)
    requires h.offset < WORD64 && h.size < WORD64
    ensures ReadHandle(HandleBytes(h) + rest) == Some(h)
  {
    var a, b := Varint(h.offset), Varint(h.size);
    assert HandleBytes(h) + rest == a + (b + rest);
    Varint64RoundTrip(h.offset, b + rest);
    Varint64RoundTrip(h.size, rest);
    assert (a + (b + rest))[|a|..] == b + rest;
  }

  // --- What the bytes of a table stand for --------------------------------------------------

  /** An index block: encoded separators, each with the handle of its block. */
  ghost predicate IndexEncodes(pairs: seq<BlockFormat.Pair>, index: seq<IndexEntry>)
  {
    |pairs| == |index| && forall i :: 0 <= i < |pairs| ==> IndexOne(pairs[i], index[i])
  }

  ghost predicate IndexOne(pair: BlockFormat.Pair, x: IndexEntry)
  {
    && InternalKeys.Parse(pair.key).Some? && x.key == InternalKeys.Key(InternalKeys.Parse(pair.key).value)
    && ReadHandle(pair.value).Some? && ReadHandle(pair.value).value.offset == x.handle
  }

  /** The block at a file offset is a block of the entries. */
  ghost predicate BlockEncodes(contents: Bytes, l: BlockFormat.Layout, entries: seq<Entry>)
  {
    BlockFormat.IsBlock(l, contents) && InternalKeys.Encodes(l.entries, entries)
  }

  /** The blocks of a file, and for each of them how its entries lie in it. */
  ghost predicate FileEncodes(blocks: map<nat, Bytes>, layouts: map<nat, BlockFormat.Layout>, file: map<nat, seq<Entry>>)
  {
    forall h :: h in file ==> h in blocks && h in layouts && BlockEncodes(blocks[h], layouts[h], file[h])
  }

  /** What the saver makes of the pair it is handed. */
  datatype Saver = NotFound | Found(value: Bytes) | Deleted | Corrupt

  /** SaveValue. */
  function SaveValue(handed: Option<BlockFormat.Pair>, user: Bytes): Saver
  {
    if handed.None? then NotFound
    else
      match InternalKeys.Parse(handed.value.key)
      case None => Corrupt
      case Some(p) => if p.user != user then NotFound else if p.kind.Value? then Found(handed.value.value) else Deleted
  }

  /** The state that the newest visible entry of a key calls for. */
  function StateFor(r: Option<Entry>): Saver
  {
    match r
    case None => NotFound
    case Some(e) => if e.key.kind.Value? then Found(e.value) else Deleted
  }

  lemma SavesEntry(pair: BlockFormat.Pair, e: Entry, user: Bytes)
    requires InternalKeys.EncodesOne(pair, e)
    ensures SaveValue(Some(pair), user) == StateFor(Saved(Some(e), Rank(user)))
  {
    RankOrder(InternalKeys.Parse(pair.key).value.user, user);
  }

  // --- The index block ----------------------------------------------------------------------

  /** The index as entries, so that it can be searched like a block of entries. */
  ghost function IndexEntries(pairs: seq<BlockFormat.Pair>, index: seq<IndexEntry>): (r: seq<Entry>)
    requires |pairs| == |index|
    ensures |r| == |index| && forall i :: 0 <= i < |index| ==> r[i] == Entry(index[i].key, pairs[i].value)
  {
    seq(|index|, i requires 0 <= i < |index| => Entry(index[i].key, pairs[i].value))
  }

  lemma IndexIncreases(index: seq<IndexEntry>, file: map<nat, seq<Entry>>, p: Plan, i: nat, j: nat)
    requires TableOk(index, file, p) && i < j < |index|
    ensures Before(index[i].key, index[j].key)
  {
    var k := p.cuts[i + 1];
    assert p.cuts[i + 1] < p.cuts[j + 1] <= |p.entries|;
    assert Stored(file, p, i) && Indexed(p, index[i], i) && Stored(file, p, j) && Indexed(p, index[j], j);
    CutOrder(p, index[i], i, k);
    CutOrder(p, index[j], j, k);
  }

  /** Seeking in the index block finds the block that the two-level search names. */
  lemma IndexSeek(pairs: seq<BlockFormat.Pair>, index: seq<IndexEntry>, target: IKey)
    requires |pairs| == |index|
    ensures
      var i := SeekIndex(IndexEntries(pairs, index), target);
      SeekBlock(index, target, 0) == if i < |index| then i else -1
  {
    var r := IndexEntries(pairs, index);
    var i := SeekIndex(r, target);
    forall k | 0 <= k < i ensures Before(index[k].key, target) { assert Before(r[k].key, target); }
  }

  lemma IndexBlock(pairs: seq<BlockFormat.Pair>, index: seq<IndexEntry>, file: map<nat, seq<Entry>>, p: Plan)
    requires TableOk(index, file, p) && IndexEncodes(pairs, index)
    ensures InternalKeys.Encodes(pairs, IndexEntries(pairs, index)) && InternalKeys.KeysIncrease(IndexEntries(pairs, index))
  {
    var r := IndexEntries(pairs, index);
    forall i | 0 <= i < |pairs| ensures InternalKeys.EncodesOne(pairs[i], r[i]) { assert IndexOne(pairs[i], index[i]); }
    forall i, j | 0 <= i < j < |r| ensures Before(r[i].key, r[j].key) { IndexIncreases(index, file, p, i, j); }
  }

  /** The index block's part: the handle of the block to look into. */
  method FindBlock(contents: Bytes, memory: BlockIter.Memory, target: InternalKeys.Parsed,
                   ghost l: BlockFormat.Layout, ghost index: seq<IndexEntry>, ghost file: map<nat, seq<Entry>>, ghost p: Plan)
    returns (offset: Option<nat>)
    requires BlockFormat.IsBlock(l, contents) && IndexEncodes(l.entries, index) && TableOk(index, file, p)
    requires target.sequence <= MAX_SEQUENCE
    ensures
      var i := SeekBlock(index, InternalKeys.Key(target), 0);
      offset == if i == -1 then None else Some(index[i].handle)
  {
    IndexBlock(l.entries, index, file, p);
    IndexSeek(l.entries, index, InternalKeys.Key(target));
    var handed := InternalKeys.SeekBlock(contents, memory, target, l, IndexEntries(l.entries, index));
    offset := None;
    if handed.Some? {
      ghost var i := SeekBlock(index, InternalKeys.Key(target), 0);
      assert IndexOne(l.entries[i], index[i]);
      offset := Some(ReadHandle(handed.value.value).value.offset);
    }
  }

  // --- The lookup ---------------------------------------------------------------------------

  lemma BlockSorted(index: seq<IndexEntry>, file: map<nat, seq<Entry>>, p: Plan, i: nat)
    requires TableOk(index, file, p) && i < |index|
    ensures index[i].handle in file && InternalKeys.KeysIncrease(file[index[i].handle])
  {
    BlockIs(index, file, p, i);
    assert Stored(file, p, i) && Indexed(p, index[i], i);
    var b := file[index[i].handle];
    forall j, k | 0 <= j < k < |b| ensures Before(b[j].key, b[k].key) {
      assert Ahead(p.entries[p.cuts[i] + j].key, p.entries[p.cuts[i] + k].key);
    }
  }

  /** Look into one block. */
  method LookIn(contents: Bytes, memory: BlockIter.Memory, user: Bytes, s: nat, ghost l: BlockFormat.Layout, ghost b: seq<Entry>)
    returns (r: Saver)
    requires BlockEncodes(contents, l, b) && InternalKeys.KeysIncrease(b) && s <= MAX_SEQUENCE
    ensures
      var q := SeekIndex(b, Target(Rank(user), s));
      r == StateFor(Saved(if q < |b| then Some(b[q]) else None, Rank(user)))
  {
    var target := InternalKeys.Parsed(user, s, Value);
    var handed := InternalKeys.SeekBlock(contents, memory, target, l, b);
    ghost var q := SeekIndex(b, InternalKeys.Key(target));
    if handed.Some? { SavesEntry(handed.value, b[q], user); }
    r := SaveValue(handed, user);
  }

  /**
   Table::InternalGet with SaveValue, from bytes to bytes: the newest version of the key at or below the sequence number is
   found, or found deleted, exactly when the table holds one.
   */
  method InternalGet(index: Bytes, blocks: map<nat, Bytes>, filter: Option<Bytes>, hash: HashFn, memory: BlockIter.Memory,
                     user: Bytes, s: nat, ghost il: BlockFormat.Layout, ghost layouts: map<nat, BlockFormat.Layout>,
                     ghost ix: seq<IndexEntry>, ghost file: map<nat, seq<Entry>>, ghost p: Plan, ghost encode: UserKey -> Bytes)
    returns (r: Saver)
    requires s <= MAX_SEQUENCE && TableOk(ix, file, p) && FileEncodes(blocks, layouts, file)
    requires BlockFormat.IsBlock(il, index) && IndexEncodes(il.entries, ix)
    requires filter.Some? ==> TableFile.NoFalseNegatives(hash, filter.value, p, encode) && encode(Rank(user)) == user
    ensures r == StateFor(Find(p.entries, Rank(user), s))
  {
    var target := InternalKeys.Parsed(user, s, Value);
    ghost var i := SeekBlock(ix, InternalKeys.Key(target), 0);
    OneBlockIsEnough(ix, file, p, Rank(user), s);
    var offset := FindBlock(index, memory, target, il, ix, file, p);
    if offset.None? { return NotFound; }
    BlockIs(ix, file, p, i);
    BlockSorted(ix, file, p, i);
    assert Stored(file, p, i) && Indexed(p, ix[i], i);
    if filter.Some? {
      var may := FilterBlock.KeyMayMatch(hash, filter.value, offset.value, user);
      if !may {
        TableFile.RuledOut(hash, filter.value, p, encode, i, Rank(user), InternalKeys.Key(target));
        return NotFound;
      }
    }
    r := LookIn(blocks[offset.value], memory, user, s, layouts[offset.value], file[offset.value]);
  }
}
