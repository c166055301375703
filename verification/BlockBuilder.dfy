/**
 BlockBuilder: builds a block by adding entries in increasing key order.
 */
module BlockBuilder {
  import opened Bytes
  import opened Keys
  import opened Coding
  import opened BlockFormat

  type Less = (Bytes, Bytes) -> bool

  ghost predicate Increasing(less: Less, entries: seq<Pair>)
  {
    forall i, j :: 0 <= i < j < |entries| ==> less(entries[i].key, entries[j].key)
  }

  ghost predicate Transitive(less: Less)
  {
    forall a, b, c :: less(a, b) && less(b, c) ==> less(a, c)
  }

  /** The layout after one more entry. */
  ghost function Grown(l: Layout, e: Pair, shared: nat, restart: bool): Layout
    requires Shape(l) && shared <= |e.key|
  {
    Layout(l.entries + [e], l.offs + [End(l) + |EntryBytes(shared, e)|],
           if restart then l.starts + [|l.entries|] else l.starts, l.shared + [shared])
  }

  lemma GrownShape(l: Layout, e: Pair, shared: nat, restart: bool)
    requires Shape(l) && shared <= |e.key| && (restart ==> l.starts[|l.starts| - 1] < |l.entries|)
    ensures Shape(Grown(l, e, shared, restart))
  {
  }

  lemma GrownLies(l: Layout, data: Bytes, e: Pair, shared: nat, restart: bool)
    requires Lies(l, data) && End(l) == |data| && shared <= |e.key|
    requires restart ==> shared == 0 && l.starts[|l.starts| - 1] < |l.entries|
    requires l.entries == [] ==> shared == 0
    requires l.entries != [] ==>
      var last := l.entries[|l.entries| - 1].key;
      shared <= |last| && last[..shared] == e.key[..shared]
    ensures
      var g := Grown(l, e, shared, restart);
      Lies(g, data + EntryBytes(shared, e)) && End(g) == |data + EntryBytes(shared, e)|
  {
    var g, more := Grown(l, e, shared, restart), data + EntryBytes(shared, e);
    GrownShape(l, e, shared, restart);
    forall i | 0 <= i < |g.entries| ensures g.offs[i + 1] <= |more| && EntryOk(g, more, i) {
      if i < |l.entries| {
        OldEntry(l, data, e, shared, restart, i);
      } else {
        assert more[|data|..] == EntryBytes(shared, e);
        assert i in g.starts ==> shared == 0;
      }
    }
  }

  lemma OldEntry(l: Layout, data: Bytes, e: Pair, shared: nat, restart: bool, i: nat)
    requires Lies(l, data) && End(l) == |data| && shared <= |e.key| && i < |l.entries|
    requires Shape(Grown(l, e, shared, restart))
    ensures
      var g, more := Grown(l, e, shared, restart), data + EntryBytes(shared, e);
      g.offs[i + 1] <= |more| && EntryOk(g, more, i)
  {
    var g, more := Grown(l, e, shared, restart), data + EntryBytes(shared, e);
    assert EntryOk(l, data, i) && l.offs[i + 1] <= |data|;
    assert l.offs[i] < l.offs[i + 1];
    assert more[l.offs[i]..l.offs[i + 1]] == data[l.offs[i]..l.offs[i + 1]];
    assert i in g.starts ==> i in l.starts;
  }

  lemma {:induction false} OffsetsGrow(offs: seq<nat>, i: nat)
    requires i < |offs| && forall i, j :: 0 <= i < j < |offs| ==> offs[i] < offs[j]
    ensures i <= offs[i]
  {
    if i > 0 { OffsetsGrow(offs, i - 1); }
  }

  /** What lies in the data lies in any extension of it. */
  lemma LiesBefore(l: Layout, data: Bytes, tail: Bytes)
    requires Lies(l, data)
    ensures Lies(l, data + tail)
  {
    var more := data + tail;
    forall i | 0 <= i < |l.entries| ensures l.offs[i + 1] <= |more| && EntryOk(l, more, i) {
      assert EntryOk(l, data, i) && l.offs[i + 1] <= |data|;
      assert l.offs[i] < l.offs[i + 1];
      assert more[l.offs[i]..l.offs[i + 1]] == data[l.offs[i]..l.offs[i + 1]];
    }
  }

  /** Entries, a restart array and its length make a block. */
  lemma MakeBlock(l: Layout, data: Bytes, r: Bytes, f: Bytes)
    requires Lies(l, data) && End(l) == |data| < WORD32
    requires |r| == 4 * |l.starts| && (forall k :: 0 <= k < |l.starts| ==> RestartPoint(r, 0, k) == l.offs[l.starts[k]])
    requires |f| == 4 && Number(f) == |l.starts|
    ensures IsBlock(l, data + r + f)
  {
    Regroup(data, r, f);
    LiesBefore(l, data, r + f);
    forall k | 0 <= k < |l.starts| ensures RestartPoint(data + r + f, |data|, k) == l.offs[l.starts[k]] {
      RestartInside(data, r, f, k);
    }
  }

  lemma Regroup(data: Bytes, r: Bytes, f: Bytes)
    requires |f| == 4
    ensures data + r + f == data + (r + f) && |data + r + f| == |data| + |r| + 4
    ensures (data + r + f)[|data + r + f| - 4..] == f
  {
  }

  lemma RestartInside(data: Bytes, r: Bytes, f: Bytes, k: nat)
    requires 4 * k + 4 <= |r|
    ensures RestartPoint(data + r + f, |data|, k) == RestartPoint(r, 0, k)
  {
    assert (data + r + f)[|data| + 4 * k..|data| + 4 * k + 4] == r[0 + 4 * k..0 + 4 * k + 4];
  }

  lemma FinishedBlock(l: Layout, data: Bytes, restarts: seq<nat>)
    requires Lies(l, data) && End(l) == |data| < WORD32 && Marks(l, restarts)
    ensures IsBlock(l, data + Fixed32s(restarts) + Fixed(4, |restarts|))
  {
    FewRestarts(l);
    Stored32(|restarts|);
    forall k | 0 <= k < |l.starts| ensures RestartPoint(Fixed32s(restarts), 0, k) == l.offs[l.starts[k]] {
      assert restarts[k] <= End(l);
      Word32At(restarts, k);
    }
    MakeBlock(l, data, Fixed32s(restarts), Fixed(4, |restarts|));
  }

  lemma FewRestarts(l: Layout)
    requires Shape(l)
    ensures |l.starts| <= End(l) || |l.starts| == 1
  {
    OffsetsGrow(l.starts, |l.starts| - 1);
    OffsetsGrow(l.offs, |l.offs| - 1);
  }

  /** Restart points come every interval entries, and counter counts from the last one. */
  ghost predicate Spaced(l: Layout, interval: nat, counter: nat)
  {
    && |l.starts| > 0
    && (forall j, k :: 0 <= j && k == j + 1 && k < |l.starts| ==> l.starts[k] == l.starts[j] + interval)
    && counter == |l.entries| - l.starts[|l.starts| - 1] <= interval
  }

  ghost predicate Marks(l: Layout, restarts: seq<nat>)
    requires Shape(l)
  {
    |restarts| == |l.starts| && forall k :: 0 <= k < |restarts| ==> restarts[k] == l.offs[l.starts[k]]
  }

  ghost function LastKey(l: Layout): Bytes
  {
    if l.entries == [] then [] else l.entries[|l.entries| - 1].key
  }

  lemma GrownSpaced(l: Layout, e: Pair, shared: nat, interval: nat, counter: nat, restarts: seq<nat>)
    requires Shape(l) && shared <= |e.key| && interval >= 1 && Spaced(l, interval, counter) && Marks(l, restarts)
    requires Shape(Grown(l, e, shared, counter >= interval))
    ensures
      var restart := counter >= interval;
      var g := Grown(l, e, shared, restart);
      && Spaced(g, interval, if restart then 1 else counter + 1)
      && Marks(g, if restart then restarts + [End(l)] else restarts)
  {
  }

  datatype Clause = Laid | Regular | Marked | Ordered

  ghost predicate Part(c: Clause, l: Layout, buffer: Bytes, restarts: seq<nat>, interval: nat, counter: nat, less: Less)
  {
    match c
    case Laid => Lies(l, buffer) && End(l) == |buffer|
    case Regular => Spaced(l, interval, counter)
    case Marked => Shape(l) && Marks(l, restarts)
    case Ordered => Increasing(less, l.entries)
  }

  /** What the builder has written: the entries in increasing order, with restart points every interval entries. */
  ghost predicate Sound(l: Layout, buffer: Bytes, restarts: seq<nat>, interval: nat, counter: nat, less: Less)
  {
    forall c :: Part(c, l, buffer, restarts, interval, counter, less)
  }

  lemma SoundParts(l: Layout, buffer: Bytes, restarts: seq<nat>, interval: nat, counter: nat, less: Less)
    requires Sound(l, buffer, restarts, interval, counter, less)
    ensures Lies(l, buffer) && End(l) == |buffer| && Spaced(l, interval, counter) && Marks(l, restarts)
    ensures Increasing(less, l.entries)
  {
    assert Part(Laid, l, buffer, restarts, interval, counter, less) && Part(Regular, l, buffer, restarts, interval, counter, less);
    assert Part(Marked, l, buffer, restarts, interval, counter, less) && Part(Ordered, l, buffer, restarts, interval, counter, less);
  }

  lemma EmptySound(interval: nat, less: Less)
    ensures Sound(Layout([], [0], [0], []), [], [0], interval, 0, less)
  {
  }

  /** The prefix of the last key that an entry may leave out. */
  ghost predicate MayShare(l: Layout, e: Pair, shared: nat)
  {
    shared <= |e.key| && shared <= |LastKey(l)| && LastKey(l)[..shared] == e.key[..shared]
  }

  lemma AddKeeps(l: Layout, buffer: Bytes, restarts: seq<nat>, interval: nat, counter: nat, less: Less, e: Pair, shared: nat)
    requires Sound(l, buffer, restarts, interval, counter, less) && interval >= 1 && Transitive(less)
    requires (buffer == [] || less(LastKey(l), e.key)) && MayShare(l, e, shared) && (counter >= interval ==> shared == 0)
    ensures
      var restart := counter >= interval;
      && Shape(l) && Sound(Grown(l, e, shared, restart), buffer + EntryBytes(shared, e),
               if restart then restarts + [|buffer|] else restarts, interval, if restart then 1 else counter + 1, less)
      && LastKey(Grown(l, e, shared, restart)) == LastKey(l)[..shared] + e.key[shared..]
  {
    SoundParts(l, buffer, restarts, interval, counter, less);
    GrownLies(l, buffer, e, shared, counter >= interval);
    GrownSpaced(l, e, shared, interval, counter, restarts);
    KeepsIncreasing(less, l, e);
    assert e.key[..shared] + e.key[shared..] == e.key;
  }

  class BlockBuilder {
    const interval: nat
    const less: Less
    var buffer: Bytes
    var restarts: seq<nat>
    var counter: nat
    var finished: bool
    var lastKey: Bytes
    ghost var layout: Layout

    ghost predicate Valid()
      reads this
    {
      interval >= 1 && lastKey == LastKey(layout) && Sound(layout, buffer, restarts, interval, counter, less)
    }

    constructor (restartInterval: nat, order: Less)
      requires restartInterval >= 1
      ensures Valid() && !finished && layout.entries == [] && interval == restartInterval && less == order
    {
      interval, less := restartInterval, order;
      buffer, restarts, counter, finished, lastKey := [], [0], 0, false, [];
      layout := Layout([], [0], [0], []);
      EmptySound(restartInterval, order);
    }

    method Reset()
      requires interval >= 1
      modifies this
      ensures Valid() && !finished && layout.entries == []
    {
      buffer, restarts, counter, finished, lastKey := [], [0], 0, false, [];
      layout := Layout([], [0], [0], []);
      EmptySound(interval, less);
    }

    /** The prefix that a key shares with the last one. */
    method CommonPrefix(key: Bytes) returns (shared: nat)
      ensures shared <= |lastKey| && shared <= |key| && lastKey[..shared] == key[..shared]
      ensures shared == |lastKey| || shared == |key| || lastKey[shared] != key[shared]
    {
      var minLength := if |lastKey| < |key| then |lastKey| else |key|;
      shared := 0;
      while shared < minLength && lastKey[shared] == key[shared]
        invariant shared <= minLength && lastKey[..shared] == key[..shared]
      {
        shared := shared + 1;
      }
    }

    /** The part of Add that writes the entry. */
    method Append(shared: nat, key: Bytes, value: Bytes)
      requires shared <= |key|
      modifies `buffer
      ensures buffer == old(buffer) + EntryBytes(shared, Pair(key, value))
    {
      buffer := buffer + Varint(shared) + Varint(|key| - shared) + Varint(|value|);
      buffer := buffer + key[shared..];
      buffer := buffer + value;
    }

    /** The part of Add that starts a new restart point, or finds what the key shares with the last one. */
    method Restart(key: Bytes) returns (shared: nat)
      modifies `restarts, `counter
      ensures shared <= |key| && shared <= |lastKey| && lastKey[..shared] == key[..shared] && (old(counter) >= interval ==> shared == 0)
      ensures restarts == (if old(counter) >= interval then old(restarts) + [|buffer|] else old(restarts))
      ensures counter == if old(counter) >= interval then 0 else old(counter)
    {
      shared := 0;
      if counter < interval {
        shared := CommonPrefix(key);
      } else {
        restarts, counter := restarts + [|buffer|], 0;
      }
    }

    method Add(key: Bytes, value: Bytes)
      requires Valid() && !finished && Transitive(less)
      requires buffer == [] || less(lastKey, key)
      modifies this
      ensures Valid() && !finished
      ensures layout.entries == old(layout.entries) + [Pair(key, value)]
    {
      ghost var restart := counter >= interval;
      var shared := Restart(key);
      AddKeeps(layout, buffer, old(restarts), interval, old(counter), less, Pair(key, value), shared);
      Append(shared, key, value);
      layout := Grown(layout, Pair(key, value), shared, restart);
      lastKey := lastKey[..shared] + key[shared..];
      counter := counter + 1;
    }

    /** The part of Finish that writes the restart array. */
    method AppendRestarts()
      modifies `buffer
      ensures buffer == old(buffer) + Fixed32s(restarts) + Fixed(4, |restarts|)
    {
      for i := 0 to |restarts|
        invariant buffer == old(buffer) + Fixed32s(restarts[..i])
      {
        assert restarts[..i + 1][..i] == restarts[..i];
        buffer := buffer + Fixed(4, restarts[i]);
      }
      assert restarts[..|restarts|] == restarts;
      buffer := buffer + Fixed(4, |restarts|);
    }

    method Finish() returns (block: Bytes)
      requires Valid() && |buffer| < WORD32
      modifies this
      ensures IsBlock(layout, block) && layout == old(layout) && finished
    {
      SoundParts(layout, buffer, restarts, interval, counter, less);
      AppendRestarts();
      FinishedBlock(layout, old(buffer), restarts);
      finished := true;
      block := buffer;
    }
  }

  lemma KeepsIncreasing(less: Less, l: Layout, e: Pair)
    requires Transitive(less) && Increasing(less, l.entries)
    requires l.entries == [] || less(l.entries[|l.entries| - 1].key, e.key)
    ensures Increasing(less, l.entries + [e])
  {
  }
}
