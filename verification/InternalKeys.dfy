/**
 Internal keys as byte strings, their comparator and its separators; the order-only part of the model uses the keys that
 they stand for. Blocks and tables of encoded keys are searched as that part says.
 */
module InternalKeys {
  import opened Bytes
  import opened Keys
  import opened Coding
  import BlockFormat
  import BlockBuilder
  import BlockIter
  import Separators
  import Table

  datatype Parsed = Parsed(user: Bytes, sequence: nat, kind: Kind)

  /** PackSequenceAndType. */
  function Pack(sequence: nat, kind: Kind): nat
  {
    sequence * 256 + if kind.Value? then 1 else 0
  }

  /** AppendInternalKey. */
  function Encode(p: Parsed): (b: Bytes)
    ensures |b| == |p.user| + 8
  {
    p.user + Fixed(8, Pack(p.sequence, p.kind))
  }

  function UserPart(b: Bytes): Bytes
    requires |b| >= 8
  {
    b[..|b| - 8]
  }

  function TagPart(b: Bytes): nat
    requires |b| >= 8
  {
    Number(b[|b| - 8..])
  }

  /** ParseInternalKey. */
  function Parse(b: Bytes): Option<Parsed>
  {
    if |b| < 8 then None
    else
      var num := TagPart(b);
      var c := num % 256;
      if c > 1 then None else Some(Parsed(UserPart(b), num / 256, if c == 1 then Value else Deletion))
  }

  lemma Parts(p: Parsed)
    requires p.sequence <= MAX_SEQUENCE
    ensures UserPart(Encode(p)) == p.user && TagPart(Encode(p)) == Pack(p.sequence, p.kind)
  {
    var tag := Fixed(8, Pack(p.sequence, p.kind));
    assert Encode(p)[|p.user|..] == tag && Encode(p)[..|p.user|] == p.user;
    Words();
    NumberOfFixed(8, Pack(p.sequence, p.kind));
  }

  lemma ParseInverts(p: Parsed)
    requires p.sequence <= MAX_SEQUENCE
    ensures Parse(Encode(p)) == Some(p)
  {
    Parts(p);
  }

  /** What parses is the encoding of what it parses to. */
  lemma EncodeInverts(b: Bytes)
    requires Parse(b).Some?
    ensures Encode(Parse(b).value) == b && Parse(b).value.sequence <= MAX_SEQUENCE
  {
    FixedOfNumber(b[|b| - 8..]);
    Words();
    assert b == b[..|b| - 8] + b[|b| - 8..];
    var p := Parse(b).value;
    assert Pack(p.sequence, p.kind) == TagPart(b);
  }

  /** InternalKeyComparator::Compare(a, b) < 0; keys shorter than eight bytes are never passed to it. */
  predicate KeyLess(a: Bytes, b: Bytes)
  {
    |a| >= 8 && |b| >= 8 &&
    (Less(UserPart(a), UserPart(b)) || (UserPart(a) == UserPart(b) && TagPart(a) > TagPart(b)))
  }

  /** The key that an internal key stands for in the order-only part of the model. */
  ghost function Key(p: Parsed): IKey
  {
    IKey(Rank(p.user), p.sequence, p.kind)
  }

  /** The comparator on bytes is the order Before on the keys they stand for. */
  lemma LessIsBefore(p: Parsed, q: Parsed)
    requires p.sequence <= MAX_SEQUENCE && q.sequence <= MAX_SEQUENCE
    ensures KeyLess(Encode(p), Encode(q)) <==> Before(Key(p), Key(q))
    ensures !KeyLess(Encode(p), Encode(q)) && !KeyLess(Encode(q), Encode(p)) <==> p == q
  {
    Parts(p);
    Parts(q);
    RankOrder(p.user, q.user);
    RankOrder(q.user, p.user);
    LessTotal(p.user, q.user);
  }

  /** So blocks of internal keys can be searched. */
  lemma LessIsTransitive()
    ensures BlockBuilder.Transitive(KeyLess)
  {
    forall a, b, c | KeyLess(a, b) && KeyLess(b, c) ensures KeyLess(a, c) {
      LessOnce(a, b, c);
    }
  }

  lemma LessOnce(a: Bytes, b: Bytes, c: Bytes)
    requires KeyLess(a, b) && KeyLess(b, c)
    ensures KeyLess(a, c)
  {
    if Less(UserPart(a), UserPart(b)) && Less(UserPart(b), UserPart(c)) {
      LessTransitive(UserPart(a), UserPart(b), UserPart(c));
    }
  }

  // --- Separators ---------------------------------------------------------------------------

  /** The byte string of a rank. */
  ghost function Unrank(r: UserKey): Option<Bytes>
  {
    if exists b: Bytes :: Rank(b) == r then
      var b: Bytes :| Rank(b) == r;
      Some(b)
    else None
  }

  lemma UnrankRank(b: Bytes)
    ensures Unrank(Rank(b)) == Some(b)
  {
    var c := Unrank(Rank(b)).value;
    RankOrder(b, c);
  }

  ghost function SeparatorOf(a: UserKey, b: UserKey): UserKey
  {
    if Unrank(a).Some? && Unrank(b).Some? then Rank(Separators.ShortestSeparator(Unrank(a).value, Unrank(b).value)) else a
  }

  ghost function SuccessorOf(a: UserKey): UserKey
  {
    if Unrank(a).Some? then Rank(Separators.ShortSuccessor(Unrank(a).value)) else a
  }

  ghost predicate ShorterThan(a: UserKey, b: UserKey)
  {
    Unrank(a).Some? && Unrank(b).Some? && |Unrank(a).value| < |Unrank(b).value|
  }

  /** The bytewise comparator, on the keys that byte strings stand for. */
  ghost function Bytewise(): Table.Shortening
  {
    Table.Shortening((a: UserKey, b: UserKey) => SeparatorOf(a, b), (a: UserKey) => SuccessorOf(a),
                     (a: UserKey, b: UserKey) => ShorterThan(a, b))
  }

  /** It keeps its side of the bargain. */
  lemma BytewiseProper()
    ensures Table.Proper(Bytewise())
  {
    forall a: UserKey, b: UserKey ensures (a < b ==> a <= SeparatorOf(a, b) < b) && (a >= b ==> SeparatorOf(a, b) == a) {
      if Unrank(a).Some? && Unrank(b).Some? {
        var x, y := Unrank(a).value, Unrank(b).value;
        var r := Separators.ShortestSeparator(x, y);
        Separators.SeparatorBetween(x, y);
        RankOrder(x, y);
        RankOrder(r, x);
        RankOrder(r, y);
      }
    }
    forall a: UserKey ensures a <= SuccessorOf(a) {
      if Unrank(a).Some? {
        var x := Unrank(a).value;
        Separators.SuccessorAfter(x);
        RankOrder(x, Separators.ShortSuccessor(x));
      }
    }
  }

  /** InternalKeyComparator::FindShortestSeparator, on parsed keys. */
  function KeySeparator(p: Parsed, q: Parsed): Parsed
  {
    var tmp := Separators.ShortestSeparator(p.user, q.user);
    if |tmp| < |p.user| && Less(p.user, tmp) then Parsed(tmp, MAX_SEQUENCE, Value) else p
  }

  /** InternalKeyComparator::FindShortSuccessor, on parsed keys. */
  function KeySuccessor(p: Parsed): Parsed
  {
    var tmp := Separators.ShortSuccessor(p.user);
    if |tmp| < |p.user| && Less(p.user, tmp) then Parsed(tmp, MAX_SEQUENCE, Value) else p
  }

  /** They stand for the separators that tables are built with. */
  lemma SeparatorsStand(p: Parsed, q: Parsed)
    ensures Key(KeySeparator(p, q)) == Table.Separator(Bytewise(), Key(p), Key(q))
    ensures Key(KeySuccessor(p)) == Table.Successor(Bytewise(), Key(p))
  {
    UnrankRank(p.user);
    UnrankRank(q.user);
    var a, b := Separators.ShortestSeparator(p.user, q.user), Separators.ShortSuccessor(p.user);
    UnrankRank(a);
    UnrankRank(b);
    RankOrder(p.user, a);
    RankOrder(p.user, b);
  }

  // --- Blocks of internal keys --------------------------------------------------------------

  /** The pairs are the entries, with their keys encoded. */
  ghost predicate Encodes(pairs: seq<BlockFormat.Pair>, entries: seq<Entry>)
  {
    |pairs| == |entries| && forall i :: 0 <= i < |pairs| ==> EncodesOne(pairs[i], entries[i])
  }

  ghost predicate EncodesOne(pair: BlockFormat.Pair, e: Entry)
  {
    && Parse(pair.key).Some? && e == Entry(Key(Parse(pair.key).value), pair.value)
  }

  lemma StoredLess(a: BlockFormat.Pair, x: Entry, target: Parsed)
    requires EncodesOne(a, x) && target.sequence <= MAX_SEQUENCE
    ensures KeyLess(a.key, Encode(target)) <==> Before(x.key, Key(target))
  {
    EncodeInverts(a.key);
    LessIsBefore(Parse(a.key).value, target);
  }

  /** Sorted runs and indexes alike have increasing keys. */
  ghost predicate KeysIncrease(entries: seq<Entry>)
  {
    forall i, j :: 0 <= i < j < |entries| ==> Before(entries[i].key, entries[j].key)
  }

  lemma PairIncreases(a: BlockFormat.Pair, b: BlockFormat.Pair, x: Entry, y: Entry)
    requires EncodesOne(a, x) && EncodesOne(b, y) && Before(x.key, y.key)
    ensures KeyLess(a.key, b.key)
  {
    EncodeInverts(b.key);
    StoredLess(a, x, Parse(b.key).value);
  }

  /** The encoded keys increase then, as a block builder demands. */
  lemma EncodedIncreases(pairs: seq<BlockFormat.Pair>, entries: seq<Entry>)
    requires Encodes(pairs, entries) && KeysIncrease(entries)
    ensures BlockBuilder.Increasing(KeyLess, pairs)
  {
    forall i, j | 0 <= i < j < |pairs| ensures KeyLess(pairs[i].key, pairs[j].key) {
      PairIncreases(pairs[i], pairs[j], entries[i], entries[j]);
    }
  }

  /** In a block of encoded keys a seek for an encoded target lands where the order-only model says. */
  lemma SeekLands(pairs: seq<BlockFormat.Pair>, entries: seq<Entry>, target: Parsed)
    requires Encodes(pairs, entries) && target.sequence <= MAX_SEQUENCE
    ensures BlockIter.SeekEntry(pairs, KeyLess, Encode(target)) == SeekIndex(entries, Key(target))
  {
    var i := SeekIndex(entries, Key(target));
    forall j | 0 <= j < |pairs| ensures KeyLess(pairs[j].key, Encode(target)) <==> Before(entries[j].key, Key(target)) {
      assert EncodesOne(pairs[j], entries[j]);
      StoredLess(pairs[j], entries[j], target);
    }
    BlockIter.SeekEntryIs(pairs, KeyLess, Encode(target), i);
  }

  /** The block lookup of Table::InternalGet: open the block, seek, read the entry. */
  method SeekBlock(contents: Bytes, memory: BlockIter.Memory, target: Parsed, ghost l: BlockFormat.Layout, ghost entries: seq<Entry>)
    returns (r: Option<BlockFormat.Pair>)
    requires BlockFormat.IsBlock(l, contents) && Encodes(l.entries, entries) && KeysIncrease(entries) && target.sequence <= MAX_SEQUENCE
    ensures
      var i := SeekIndex(entries, Key(target));
      r == if i < |l.entries| then Some(l.entries[i]) else None
  {
    BlockFormat.OpenBlock(l, contents);
    var it := new BlockIter.BlockIter(KeyLess, contents, memory, l);
    LessIsTransitive();
    EncodedIncreases(l.entries, entries);
    SeekLands(l.entries, entries, target);
    it.Seek(Encode(target));
    r := None;
    if it.Valid() {
      var e := it.Current(SeekIndex(entries, Key(target)));
      r := Some(e);
    }
  }
}
