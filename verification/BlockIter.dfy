/**
 Block::Iter: a cursor over the entries of a block, with a binary search over its restart points.
 */
module BlockIter {
  import opened Bytes
  import opened Keys
  import opened Coding
  import opened BlockFormat
  import opened BlockBuilder

  /** Keys are no longer than the entries up to and including their own. */
  lemma {:induction false} KeyBound(l: Layout, data: Bytes, i: nat)
    requires Lies(l, data) && i < |l.entries|
    ensures |l.entries[i].key| + |l.entries[i].value| <= l.offs[i + 1]
  {
    assert EntryOk(l, data, i) && l.offs[i + 1] <= |data|;
    assert l.offs[i] < l.offs[i + 1];
    assert l.offs[i + 1] - l.offs[i] == |EntryBytes(l.shared[i], l.entries[i])|;
    if i > 0 { KeyBound(l, data, i - 1); }
  }

  /** Where the value of entry i starts. */
  ghost function ValueAt(l: Layout, i: nat): int
    requires Shape(l) && i < |l.entries|
  {
    l.offs[i + 1] - |l.entries[i].value|
  }

  /** What DecodeEntry finds at entry i. */
  lemma EntryDecodes(l: Layout, block: Bytes, i: nat)
    requires Lies(l, block) && End(l) < WORD32 && i < |l.entries|
    ensures l.offs[i] < l.offs[i + 1] <= End(l)
    ensures
      var e, p := l.entries[i], l.offs[i];
      var nonShared := |e.key| - l.shared[i];
      var size := ValueAt(l, i) - nonShared - p;
      && nonShared >= 0 && size >= 3
      && DecodeEntry(block[p..End(l)]) == Some(Head(l.shared[i], nonShared, |e.value|, size))
      && block[p + size..p + size + nonShared] == e.key[l.shared[i]..]
      && block[p + size + nonShared..l.offs[i + 1]] == e.value
  {
    assert EntryOk(l, block, i) && l.offs[i + 1] <= |block|;
    KeyBound(l, block, i);
    EntryIn(block, l.offs[i], l.offs[i + 1], End(l), l.shared[i], l.entries[i]);
  }

  lemma EntryIn(block: Bytes, p: nat, q: nat, end: nat, shared: nat, e: Pair)
    requires p <= q <= end <= |block| && shared <= |e.key| && |e.key| + |e.value| < WORD32
    requires block[p..q] == EntryBytes(shared, e)
    ensures
      var nonShared := |e.key| - shared;
      var size := q - p - nonShared - |e.value|;
      && size >= 3 && DecodeEntry(block[p..end]) == Some(Head(shared, nonShared, |e.value|, size))
      && block[p + size..p + size + nonShared] == e.key[shared..]
      && block[p + size + nonShared..q] == e.value
  {
    assert |EntryBytes(shared, e)| == q - p;
    Cut(block, p, q, end, EntryBytes(shared, e));
    EntryHead(shared, e, block[q..end], block[p..end]);
    var nonShared := |e.key| - shared;
    var size := q - p - nonShared - |e.value|;
    SlicesOf(block, p, q, end, size, size + nonShared);
  }

  /** Head, key delta and value at the front of s. */
  lemma EntryHead(shared: nat, e: Pair, rest: Bytes, s: Bytes)
    requires shared <= |e.key| && |e.key| + |e.value| < WORD32 && s == EntryBytes(shared, e) + rest
    ensures
      var n, nonShared := |EntryBytes(shared, e)|, |e.key| - shared;
      var size := n - nonShared - |e.value|;
      && size >= 3 && DecodeEntry(s) == Some(Head(shared, nonShared, |e.value|, size))
      && s[size..size + nonShared] == e.key[shared..] && s[size + nonShared..n] == e.value
  {
    DecodeEncoded(shared, e, rest);
  }

  lemma SlicesOf(block: Bytes, p: nat, q: nat, end: nat, i: nat, j: nat)
    requires p <= q <= end <= |block| && i <= j <= q - p
    ensures block[p..end][i..j] == block[p + i..p + j] && block[p..end][j..q - p] == block[p + j..q]
  {
    SubSlice(block, p, end, i, j);
    SubSlice(block, p, end, j, q - p);
  }

  lemma Cut(block: Bytes, p: nat, q: nat, end: nat, e: Bytes)
    requires p <= q <= end <= |block| && block[p..q] == e
    ensures block[p..end] == e + block[q..end]
  {
  }

  lemma SubSlice(block: Bytes, p: nat, end: nat, i: nat, j: nat)
    requires p <= end <= |block| && i <= j <= end - p
    ensures block[p..end][i..j] == block[p + i..p + j]
  {
    var a, b := block[p..end][i..j], block[p + i..p + j];
    assert |a| == |b|;
    forall k | 0 <= k < |a| ensures a[k] == b[k] { assert a[k] == block[p + (i + k)]; }
  }

  /** The first entry whose key is not before the target. */
  function SeekEntry(entries: seq<Pair>, less: Less, target: Bytes): (i: nat)
    ensures i <= |entries| && (i < |entries| ==> !less(entries[i].key, target))
    ensures forall j :: 0 <= j < i ==> less(entries[j].key, target)
  {
    if entries == [] || !less(entries[0].key, target) then 0 else 1 + SeekEntry(entries[1..], less, target)
  }

  /** The position of a cursor, as the fields of the iterator give it. */
  datatype Place = Place(current: nat, restartIndex: nat, key: Bytes, valueAt: nat, valueSize: nat)

  /** RestartPoint(restartIndex) <= current <= RestartPoint(restartIndex + 1). */
  ghost predicate Between(l: Layout, p: Place, offset: nat)
    requires Shape(l)
  {
    && p.restartIndex < |l.starts| && l.offs[l.starts[p.restartIndex]] <= offset
    && (p.restartIndex + 1 < |l.starts| ==> offset <= l.offs[l.starts[p.restartIndex + 1]])
  }

  /** The cursor stands on entry i. */
  ghost predicate Stands(l: Layout, p: Place, i: int)
    requires Shape(l)
  {
    && 0 <= i < |l.entries| && p.current == l.offs[i] && Between(l, p, p.current)
    && p.key == l.entries[i].key && p.valueAt == ValueAt(l, i) && p.valueSize == |l.entries[i].value|
  }

  /** ParseNextKey would read entry j, or find the end. */
  ghost predicate Pending(l: Layout, p: Place, j: int)
    requires Shape(l)
  {
    && 0 <= j <= |l.entries| && p.valueAt + p.valueSize == l.offs[j]
    && p.restartIndex < |l.starts| && l.offs[l.starts[p.restartIndex]] <= l.offs[j]
    && (j < |l.entries| ==>
         l.shared[j] <= |p.key| && l.shared[j] <= |l.entries[j].key| && p.key[..l.shared[j]] == l.entries[j].key[..l.shared[j]])
  }

  /** From entry i, the next entry to be parsed is i + 1. */
  lemma StandsPending(l: Layout, data: Bytes, p: Place, i: int)
    requires Lies(l, data) && Stands(l, p, i)
    ensures Pending(l, p, i + 1)
  {
    if i + 1 < |l.entries| { assert EntryOk(l, data, i + 1); }
  }

  lemma PendingNext(l: Layout, p: Place, j: int)
    requires Shape(l) && End(l) < WORD32 && Pending(l, p, j)
    ensures Low32(p.valueAt + p.valueSize) == l.offs[j]
  {
  }

  lemma StandsNext(l: Layout, p: Place, i: int)
    requires Shape(l) && End(l) < WORD32 && Stands(l, p, i)
    ensures Low32(p.valueAt + p.valueSize) == l.offs[i + 1]
  {
  }

  /** At a restart point nothing of the previous key is needed. */
  lemma RestartPending(l: Layout, data: Bytes, p: Place, k: nat)
    requires Lies(l, data) && k < |l.starts|
    requires p.restartIndex == k && p.key == [] && p.valueAt == l.offs[l.starts[k]] && p.valueSize == 0
    ensures Pending(l, p, l.starts[k])
  {
    var j := l.starts[k];
    assert j in l.starts;
    if j < |l.entries| { assert EntryOk(l, data, j); }
  }

  /** The bytes of the process's memory that follow the block. */
  type Memory = nat -> Byte

  /** n bytes from an offset on, be they in the block or behind it. */
  function Fetch(block: Bytes, memory: Memory, at: nat, n: nat): (b: Bytes)
    ensures |b| == n
  {
    seq(n, i requires 0 <= i < n => if at + i < |block| then block[at + i] else memory(at + i - |block|))
  }

  lemma FetchInside(block: Bytes, memory: Memory, at: nat, n: nat)
    requires at + n <= |block|
    ensures Fetch(block, memory, at, n) == block[at..at + n]
  {
  }

  /** DecodeEntry has accepted the entry, and the previous key is long enough. */
  predicate Accepted(p: Place, h: Option<Head>)
  {
    h.Some? && h.value.shared <= |p.key|
  }

  /** The new key and value that ParseNextKey takes from an accepted entry, without a further look at the end of the block. */
  function Read(block: Bytes, memory: Memory, p: Place, offset: nat, h: Head): (r: Place)
    requires h.shared <= |p.key|
    ensures r.restartIndex == p.restartIndex && r.current == offset
    ensures r.valueAt + r.valueSize == offset + h.size + h.nonShared + h.valueLength
  {
    var start := offset + h.size;
    Place(offset, p.restartIndex, p.key[..h.shared] + Fetch(block, memory, start, h.nonShared), start + h.nonShared, h.valueLength)
  }

  lemma ReadEntry(l: Layout, block: Bytes, memory: Memory, p: Place, j: nat)
    requires Lies(l, block) && End(l) < WORD32 && Pending(l, p, j) && j < |l.entries|
    ensures l.offs[j] < End(l)
    ensures
      var h := DecodeEntry(block[l.offs[j]..End(l)]);
      && Accepted(p, h)
      && var r := Read(block, memory, p, l.offs[j], h.value);
         r.key == l.entries[j].key && r.valueAt == ValueAt(l, j) && r.valueSize == |l.entries[j].value|
  {
    EntryDecodes(l, block, j);
    var e, h := l.entries[j], DecodeEntry(block[l.offs[j]..End(l)]).value;
    FetchInside(block, memory, l.offs[j] + h.size, h.nonShared);
    assert e.key[..l.shared[j]] + e.key[l.shared[j]..] == e.key;
  }

  lemma PendingAccepted(l: Layout, block: Bytes, memory: Memory, p: Place, j: nat)
    requires Lies(l, block) && End(l) < WORD32 && Pending(l, p, j) && l.offs[j] < End(l)
    ensures j < |l.entries| && Accepted(p, DecodeEntry(block[l.offs[j]..End(l)]))
  {
    ReadEntry(l, block, memory, p, j);
  }

  /** What has been read from the entry, with the restart index moved up, stands on it. */
  lemma StandsRead(l: Layout, block: Bytes, memory: Memory, p: Place, h: Head, r: Place, j: nat)
    requires Lies(l, block) && End(l) < WORD32 && Pending(l, p, j) && j < |l.entries|
    requires DecodeEntry(block[l.offs[j]..End(l)]) == Some(h) && h.shared <= |p.key|
    requires r == Read(block, memory, p, l.offs[j], h).(restartIndex := r.restartIndex) && Between(l, r, r.current)
    ensures Stands(l, r, j)
  {
    ReadEntry(l, block, memory, p, j);
  }

  /** The low 32 bits. */
  function Low32(n: nat): (w: nat)
    ensures w < WORD32 && (n < WORD32 ==> w == n)
  {
    if n < WORD32 then n else Low32(n - WORD32)
  }

  /** The entry's key and value lie before end. */
  predicate Inside(offset: nat, h: Head, end: nat)
  {
    offset + h.size + h.nonShared + h.valueLength <= end
  }

  /** Where an accepted entry ends, as a 32-bit word: inside the block, even if its key or value does not. */
  lemma NextFits(block: Bytes, restarts: nat, offset: nat, h: Head)
    requires restarts <= |block| && restarts < WORD32 && offset < restarts && DecodeEntry(block[offset..restarts]) == Some(h)
    ensures offset < Low32(offset + h.size + h.nonShared + h.valueLength) <= restarts
    ensures Inside(offset, h, restarts) <==> h.nonShared + h.valueLength < WORD32
  {
  }

  class BlockIter {
    const less: Less
    const block: Bytes
    const memory: Memory
    const restarts: nat
    const numRestarts: nat
    var current: nat
    var restartIndex: nat
    var key: Bytes
    var valueAt: nat
    var valueSize: nat
    var corrupt: bool
    /** How the entries lie in the block, if a builder made it. */
    ghost const layout: Layout
    /** The key and value lengths of the current entry, added up without wrapping around. */
    ghost var lengths: nat

    /** What holds of any block, however corrupt. */
    ghost predicate Base()
      reads this
    {
      numRestarts > 0 && restarts + 4 * numRestarts + 4 == |block| && restarts < WORD32
    }

    /** NextEntryOffset. */
    function NextOffset(): nat
      reads this
    {
      Low32(valueAt + valueSize)
    }

    /** The position lies in the block; the current key and value were read from inside it exactly when the lengths fit. */
    ghost predicate Ready()
      reads this
    {
      && Base()
      && (Valid() ==> NextOffset() <= restarts && restartIndex < numRestarts && (valueAt + valueSize <= restarts <==> lengths < WORD32))
    }

    ghost predicate Built()
      reads this
    {
      IsBlock(layout, block) && restarts == End(layout) && numRestarts == |layout.starts|
    }

    ghost function Here(): Place
      reads this
    {
      Place(current, restartIndex, key, valueAt, valueSize)
    }

    predicate Valid()
      reads this
    {
      current < restarts
    }

    /** The iterator stands on entry i of a built block; i is -1 when it is not valid. */
    ghost predicate At(i: int)
      reads this
    {
      Built() && !corrupt && if i == -1 then !Valid() else Stands(layout, Here(), i) && Valid()
    }

    /** The next ParseNextKey will read entry j of a built block. */
    ghost predicate Before(j: int)
      reads this
    {
      Built() && !corrupt && Pending(layout, Here(), j)
    }

    constructor (order: Less, contents: Bytes, bytes: Memory, ghost l: Layout)
      requires Open(contents).Entries? && Open(contents).restarts < WORD32
      ensures Ready() && less == order && block == contents && memory == bytes && layout == l
      ensures IsBlock(l, contents) ==> At(-1)
    {
      var o := Open(contents);
      less, block, memory, restarts, numRestarts, layout := order, contents, bytes, o.restarts, o.numRestarts, l;
      current, restartIndex, key, valueAt, valueSize, corrupt := o.restarts, o.numRestarts, [], 0, 0, false;
      new;
      if IsBlock(l, contents) { OpenBlock(l, contents); }
    }

    function Key(): (r: Bytes)
      requires Valid()
      reads this
      ensures forall i :: At(i) ==> r == layout.entries[i].key
    {
      key
    }

    function Value(): (r: Bytes)
      requires Ready() && Valid()
      reads this
      ensures lengths < WORD32 ==> valueAt + valueSize <= |block| && r == block[valueAt..valueAt + valueSize]
      ensures forall i :: At(i) ==> r == layout.entries[i].value
    {
      assert lengths < WORD32 ==> Fetch(block, memory, valueAt, valueSize) == block[valueAt..valueAt + valueSize];
      assert forall i :: At(i) ==> Fetch(block, memory, valueAt, valueSize) == layout.entries[i].value by {
        forall i | At(i) ensures Fetch(block, memory, valueAt, valueSize) == layout.entries[i].value {
          EntryDecodes(layout, block, i);
          FetchInside(block, memory, valueAt, valueSize);
        }
      }
      Fetch(block, memory, valueAt, valueSize)
    }

    /** Key and value of entry i. */
    method Current(ghost i: int) returns (e: Pair)
      requires Ready() && Valid() && At(i)
      ensures 0 <= i < |layout.entries| && e == layout.entries[i]
    {
      e := Pair(Key(), Value());
    }

    method CorruptionError()
      requires Base()
      modifies this
      ensures Ready() && corrupt && !Valid()
    {
      current, restartIndex, corrupt := restarts, numRestarts, true;
      key, valueSize := [], 0;
    }

    method SeekToRestartPoint(k: nat)
      requires Base() && k < numRestarts
      modifies `key, `restartIndex, `valueAt, `valueSize
      ensures Base() && restartIndex == k
      ensures Built() && !corrupt ==> Before(layout.starts[k])
    {
      key := [];
      restartIndex := k;
      valueAt, valueSize := RestartPoint(block, restarts, k), 0;
      if Built() { RestartPending(layout, block, Here(), k); }
    }

    /** Move the restart index up to the current entry. */
    method AdvanceRestart()
      requires Base() && restartIndex < numRestarts
      modifies `restartIndex
      ensures restartIndex < numRestarts
      ensures Built() && layout.offs[layout.starts[old(restartIndex)]] <= current ==>
        Between(layout, Here(), current)
    {
      while restartIndex + 1 < numRestarts && RestartPoint(block, restarts, restartIndex + 1) < current
        invariant restartIndex < numRestarts
        invariant Built() && layout.offs[layout.starts[old(restartIndex)]] <= current ==>
          layout.offs[layout.starts[restartIndex]] <= current
      {
        restartIndex := restartIndex + 1;
      }
    }

    /** Take key and value from a decoded entry at current. */
    method TakeEntry(h: Head)
      requires h.shared <= |key|
      modifies `key, `valueAt, `valueSize, `lengths
      ensures Here() == Read(block, memory, old(Here()), current, h) && lengths == h.nonShared + h.valueLength
    {
      var start := current + h.size;
      key := key[..h.shared] + Fetch(block, memory, start, h.nonShared);
      valueAt, valueSize := start + h.nonShared, h.valueLength;
      lengths := h.nonShared + h.valueLength;
    }

    method Enter(h: Head)
      requires Base() && restartIndex < numRestarts && current < restarts && h.shared <= |key|
      requires current < Low32(current + h.size + h.nonShared + h.valueLength) <= restarts
      requires Inside(current, h, restarts) <==> h.nonShared + h.valueLength < WORD32
      modifies `key, `valueAt, `valueSize, `lengths, `restartIndex
      ensures Ready() && Here() == Read(block, memory, old(Here()), current, h).(restartIndex := restartIndex)
      ensures current < NextOffset() && lengths == h.nonShared + h.valueLength
      ensures Built() && layout.offs[layout.starts[old(restartIndex)]] <= current ==> Between(layout, Here(), current)
    {
      TakeEntry(h);
      AdvanceRestart();
    }

    /** Read the entry at the end of the current one; false at the end of the block or when it is corrupt. */
    method ParseNextKey(ghost j: int) returns (more: bool)
      requires Base() && restartIndex < numRestarts
      modifies this
      ensures Ready() && more == Valid() && (more ==> old(NextOffset()) < NextOffset())
      ensures old(Before(j)) ==> At(if j < |layout.entries| then j else -1)
    {
      if Before(j) { PendingNext(layout, Here(), j); }
      current := NextOffset();
      if current >= restarts {
        current, restartIndex := restarts, numRestarts;
        return false;
      }
      more := ParseEntry(j);
    }

    lemma AtNext(i: nat)
      requires At(i)
      ensures i < |layout.entries| && NextOffset() == layout.offs[i + 1]
    {
      StandsNext(layout, Here(), i);
    }

    /** ParseNextKey where there is an entry. */
    method ParseEntry(ghost j: int) returns (more: bool)
      requires Base() && restartIndex < numRestarts && current < restarts
      modifies this
      ensures Ready() && more == Valid() && (more ==> old(current) < NextOffset())
      ensures more <==> Accepted(old(Here()), DecodeEntry(block[old(current)..restarts]))
      ensures old(Before(j) && current == layout.offs[j]) ==> j < |layout.entries| && At(j)
    {
      ghost var good, p := Before(j) && current == layout.offs[j], Here();
      var h := DecodeEntry(block[current..restarts]);
      if good { PendingAccepted(layout, block, memory, p, j); }
      if h.None? || |key| < h.value.shared {
        CorruptionError();
        return false;
      }
      NextFits(block, restarts, current, h.value);
      Enter(h.value);
      if good { StandsRead(layout, block, memory, p, h.value, Here(), j); }
      return true;
    }

    method Next(ghost i: int)
      requires Ready() && Valid()
      modifies this
      ensures Ready()
      ensures old(At(i)) ==> At(if i + 1 < |layout.entries| then i + 1 else -1)
    {
      if At(i) { StandsPending(layout, block, Here(), i); }
      var _ := ParseNextKey(i + 1);
    }

    /** Read entry i and go on to the next. */
    method Step(ghost i: int) returns (e: Pair)
      requires Ready() && Valid() && At(i)
      modifies this
      ensures 0 <= i < |layout.entries| && e == layout.entries[i]
      ensures Ready() && At(if i + 1 < |layout.entries| then i + 1 else -1)
    {
      e := Current(i);
      Next(i);
    }

    method SeekToFirst()
      requires Ready()
      modifies this
      ensures Ready()
      ensures old(Built() && !corrupt) ==> At(if layout.entries == [] then -1 else 0)
    {
      SeekToRestartPoint(0);
      var _ := ParseNextKey(0);
    }

    /** All entries, first to last. */
    method ReadAll() returns (r: seq<Pair>)
      requires Ready() && Built() && !corrupt
      modifies this
      ensures r == layout.entries
    {
      r := [];
      SeekToFirst();
      while Valid()
        invariant Ready() && r <= layout.entries && At(if |r| < |layout.entries| then |r| else -1)
        decreases |layout.entries| - |r|
      {
        PrefixSnoc(r, layout.entries);
        var e := Step(|r|);
        r := r + [e];
      }
    }

    /** Parse entries until one ends at or after limit. */
    method ScanUntil(limit: nat, ghost j: int, ghost i: int)
      requires Base() && restartIndex < numRestarts
      requires Before(j) ==> (j <= i < |layout.entries| && limit == layout.offs[i + 1]) || j == |layout.entries|
      modifies this
      ensures Ready()
      ensures old(Before(j)) ==> At(if j < |layout.entries| then i else -1)
    {
      ghost var good, ended := Before(j) && j < |layout.entries|, Before(j) && j == |layout.entries|;
      ghost var at := j;
      var more := ParseNextKey(at);
      if good { AtNext(at); }
      while more && NextOffset() < limit
        invariant Ready() && more == Valid()
        invariant good ==> j <= at <= i && At(at) && NextOffset() == layout.offs[at + 1]
        invariant ended ==> !more && At(-1)
        decreases more, limit - NextOffset()
      {
        if good { OnlyBefore(layout, block, Here(), at, i, limit); }
        at := at + 1;
        more := ParseNextKey(at);
        if good { AtNext(at); }
      }
      if good { OffsetsOrder(layout, i + 1, at + 1); }
    }

    method SeekToLast()
      requires Ready()
      modifies this
      ensures Ready()
      ensures old(Built() && !corrupt) ==> At(|layout.entries| - 1)
    {
      SeekToRestartPoint(numRestarts - 1);
      ScanUntil(restarts, if Built() then layout.starts[numRestarts - 1] else 0, |layout.entries| - 1);
    }

    /** The search in Prev for a restart point before the current entry; false when there is none. */
    method RestartBefore(original: nat) returns (found: bool)
      requires Base() && restartIndex < numRestarts
      modifies `restartIndex
      ensures restartIndex < numRestarts
      ensures found ==> RestartPoint(block, restarts, restartIndex) < original
      ensures !found ==> RestartPoint(block, restarts, 0) >= original
    {
      while RestartPoint(block, restarts, restartIndex) >= original
        invariant restartIndex < numRestarts
        decreases restartIndex
      {
        if restartIndex == 0 {
          return false;
        }
        restartIndex := restartIndex - 1;
      }
      return true;
    }

    method Prev(ghost i: int)
      requires Ready() && Valid()
      modifies this
      ensures Ready()
      ensures old(At(i)) ==> At(i - 1)
    {
      ghost var good := At(i);
      var original := current;
      var found := RestartBefore(original);
      if !found {
        if good { FirstEntry(layout, block, i); }
        current, restartIndex := restarts, numRestarts;
        return;
      }
      ghost var j := if good then layout.starts[restartIndex] else -1;
      if good { RestartIsBefore(layout, block, restartIndex, i); }
      SeekToRestartPoint(restartIndex);
      ScanUntil(original, j, i - 1);
    }

    /** The binary search of Seek: the last restart point known to be before the target. */
    method FindRestart(target: Bytes) returns (left: nat, ok: bool)
      requires Base()
      ensures left < numRestarts
      ensures Built() ==> ok
      ensures Built() && left > 0 ==> layout.starts[left] < |layout.entries| && less(layout.entries[layout.starts[left]].key, target)
    {
      left, ok := 0, true;
      var right := numRestarts - 1;
      while left < right
        invariant left <= right < numRestarts
        invariant Built() && left > 0 ==>
          layout.starts[left] < |layout.entries| && less(layout.entries[layout.starts[left]].key, target)
      {
        var mid := (left + right + 1) / 2;
        var region := RestartPoint(block, restarts, mid);
        var k := RestartKey(block, memory, restarts, region);
        if Built() { RestartKeyIs(layout, block, memory, mid); }
        if k.None? {
          ok := false;
          return;
        }
        if less(k.value, target) {
          left := mid;
        } else {
          right := mid - 1;
        }
      }
    }

    /** Parse entries until one is not before the target. */
    method ScanFor(target: Bytes, ghost j: nat)
      requires Base() && restartIndex < numRestarts
      modifies this
      ensures Ready()
      ensures old(Before(j)) && AllLess(layout.entries, less, target, j) ==>
        var i := SeekEntry(layout.entries, less, target);
        At(if i < |layout.entries| then i else -1)
    {
      ghost var good := Before(j) && AllLess(layout.entries, less, target, j);
      ghost var at := j;
      while true
        invariant Base() && restartIndex < numRestarts
        invariant good ==> Before(at) && AllLess(layout.entries, less, target, at)
        decreases restarts - NextOffset()
      {
        var more := ParseNextKey(at);
        if good { SeekEntryIs(layout.entries, less, target, at); }
        if !more || !less(key, target) {
          return;
        }
        if good { StandsPending(layout, block, Here(), at); }
        at := at + 1;
      }
    }

    method Seek(target: Bytes)
      requires Ready() && Transitive(less)
      modifies this
      ensures Ready()
      ensures old(Built() && !corrupt) && Increasing(less, layout.entries) ==>
        var i := SeekEntry(layout.entries, less, target);
        At(if i < |layout.entries| then i else -1)
    {
      var left, ok := FindRestart(target);
      if !ok {
        CorruptionError();
        return;
      }
      SeekToRestartPoint(left);
      if Built() && Increasing(less, layout.entries) { EarlierKeys(layout, less, target, left); }
      ScanFor(target, if Built() then layout.starts[left] else 0);
    }
  }

  lemma FirstEntry(l: Layout, block: Bytes, i: nat)
    requires IsBlock(l, block) && i < |l.entries| && RestartPoint(block, End(l), 0) >= l.offs[i]
    ensures i == 0
  {
    assert RestartPoint(block, End(l), 0) == l.offs[l.starts[0]];
  }

  lemma RestartIsBefore(l: Layout, block: Bytes, k: nat, i: nat)
    requires IsBlock(l, block) && i < |l.entries| && k < |l.starts| && RestartPoint(block, End(l), k) < l.offs[i]
    ensures l.starts[k] < i
  {
    OffsetsOrder(l, l.starts[k], i);
  }

  /** Reading a block from first to last gives back the entries it was built from. */
  method ReadEntries(order: Less, contents: Bytes, memory: Memory, ghost l: Layout) returns (r: seq<Pair>)
    requires IsBlock(l, contents)
    ensures r == l.entries
  {
    OpenBlock(l, contents);
    var it := new BlockIter(order, contents, memory, l);
    r := it.ReadAll();
  }

  /** The key of the entry at a restart point; None when it is corrupt or leaves out a prefix. */
  function RestartKey(block: Bytes, memory: Memory, restarts: nat, region: nat): Option<Bytes>
    requires restarts <= |block|
  {
    if region > restarts then None
    else
      var h := DecodeEntry(block[region..restarts]);
      if h.None? || h.value.shared != 0 then None else Some(Fetch(block, memory, region + h.value.size, h.value.nonShared))
  }

  lemma RestartShares(l: Layout, block: Bytes, k: nat)
    requires Lies(l, block) && 0 < k < |l.starts|
    ensures l.starts[k] < |l.entries| && l.shared[l.starts[k]] == 0
  {
    assert l.starts[0] < l.starts[k] && l.starts[k] in l.starts;
    assert EntryOk(l, block, l.starts[k]);
  }

  lemma PrefixSnoc(r: seq<Pair>, all: seq<Pair>)
    requires r <= all && |r| < |all|
    ensures r + [all[|r|]] <= all
  {
  }

  lemma RestartKeyIs(l: Layout, block: Bytes, memory: Memory, k: nat)
    requires IsBlock(l, block) && 0 < k < |l.starts|
    ensures l.starts[k] < |l.entries|
    ensures RestartKey(block, memory, End(l), RestartPoint(block, End(l), k)) == Some(l.entries[l.starts[k]].key)
  {
    var j := l.starts[k];
    RestartShares(l, block, k);
    var h := WholeKey(l, block, j);
    KeyAt(block, memory, End(l), l.offs[j], h, l.entries[j].key);
  }

  lemma WholeKey(l: Layout, block: Bytes, j: nat) returns (h: Head)
    requires Lies(l, block) && End(l) < WORD32 && j < |l.entries| && l.shared[j] == 0
    ensures l.offs[j] <= End(l) <= |block| && DecodeEntry(block[l.offs[j]..End(l)]) == Some(h) && h.shared == 0
    ensures l.offs[j] + h.size + h.nonShared <= |block|
    ensures block[l.offs[j] + h.size..l.offs[j] + h.size + h.nonShared] == l.entries[j].key
  {
    EntryDecodes(l, block, j);
    h := DecodeEntry(block[l.offs[j]..End(l)]).value;
    assert l.entries[j].key[0..] == l.entries[j].key;
  }

  lemma KeyAt(block: Bytes, memory: Memory, restarts: nat, region: nat, h: Head, key: Bytes)
    requires region <= restarts <= |block| && DecodeEntry(block[region..restarts]) == Some(h) && h.shared == 0
    requires region + h.size + h.nonShared <= |block| && block[region + h.size..region + h.size + h.nonShared] == key
    ensures RestartKey(block, memory, restarts, region) == Some(key)
  {
    FetchInside(block, memory, region + h.size, h.nonShared);
  }

  /** While the current entry ends before entry i does, the next one is not after entry i. */
  lemma OnlyBefore(l: Layout, data: Bytes, p: Place, at: int, i: int, limit: nat)
    requires Lies(l, data) && Stands(l, p, at) && 0 <= i < |l.entries| && limit == l.offs[i + 1]
    requires p.valueAt + p.valueSize < limit
    ensures Pending(l, p, at + 1) && at + 1 <= i
  {
    StandsPending(l, data, p, at);
    OffsetsOrder(l, at + 1, i + 1);
  }

  lemma OffsetsOrder(l: Layout, i: int, j: int)
    requires Shape(l) && 0 <= i < |l.offs| && 0 <= j < |l.offs|
    ensures l.offs[i] < l.offs[j] ==> i < j
    ensures l.offs[i] <= l.offs[j] ==> i <= j
  {
  }

  /** The first j keys are before the target. */
  ghost predicate AllLess(entries: seq<Pair>, less: Less, target: Bytes, j: int)
  {
    j <= |entries| && forall m :: 0 <= m < j ==> less(entries[m].key, target)
  }

  /** Every entry before a restart point whose key is before the target is before it too. */
  lemma EarlierKeys(l: Layout, less: Less, target: Bytes, k: nat)
    requires Shape(l) && k < |l.starts| && Increasing(less, l.entries) && Transitive(less)
    requires k > 0 ==> l.starts[k] < |l.entries| && less(l.entries[l.starts[k]].key, target)
    ensures AllLess(l.entries, less, target, l.starts[k])
  {
  }

  lemma SeekEntryIs(entries: seq<Pair>, less: Less, target: Bytes, j: nat)
    requires AllLess(entries, less, target, j)
    ensures j == |entries| || !less(entries[j].key, target) ==> SeekEntry(entries, less, target) == j
  {
  }
}
