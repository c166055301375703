/**
 TwoLevelIterator: an index whose entries name data blocks, read as one cursor over the concatenated blocks.
 Blocks may be empty.
 */
module TwoLevel {
  import opened Keys

  /** An index entry: a key, and the handle the block function turns into a data iterator. */
  datatype IndexEntry = IndexEntry(key: IKey, handle: nat)

  /** The entries of the first n blocks. */
  ghost function Flat(index: seq<IndexEntry>, fetch: nat -> seq<Entry>, n: nat): seq<Entry>
    requires n <= |index|
  {
    if n == 0 then [] else Flat(index, fetch, n - 1) + fetch(index[n - 1].handle)
  }

  ghost function Whole(index: seq<IndexEntry>, fetch: nat -> seq<Entry>): seq<Entry>
  {
    Flat(index, fetch, |index|)
  }

  /** Where block n starts in the concatenation. */
  ghost function Start(index: seq<IndexEntry>, fetch: nat -> seq<Entry>, n: nat): nat
    requires n <= |index|
  {
    |Flat(index, fetch, n)|
  }

  lemma {:induction false} FlatPrefix(index: seq<IndexEntry>, fetch: nat -> seq<Entry>, m: nat, n: nat)
    requires m <= n <= |index|
    ensures Flat(index, fetch, m) <= Flat(index, fetch, n)
    decreases n
  {
    if m < n { FlatPrefix(index, fetch, m, n - 1); }
  }

  lemma BlockAt(index: seq<IndexEntry>, fetch: nat -> seq<Entry>, i: nat, j: nat)
    requires i < |index| && j < |fetch(index[i].handle)|
    ensures Start(index, fetch, i) + j < |Whole(index, fetch)|
    ensures Whole(index, fetch)[Start(index, fetch, i) + j] == fetch(index[i].handle)[j]
  {
    FlatPrefix(index, fetch, i + 1, |index|);
  }

  /** Every place of the first n blocks belongs to some block. */
  lemma {:induction false} PlaceIn(index: seq<IndexEntry>, fetch: nat -> seq<Entry>, n: nat, k: nat) returns (i: nat, j: nat)
    requires n <= |index| && k < Start(index, fetch, n)
    ensures i < n && j < |fetch(index[i].handle)| && k == Start(index, fetch, i) + j
  {
    var s := Start(index, fetch, n - 1);
    if k < s {
      i, j := PlaceIn(index, fetch, n - 1, k);
    } else {
      i, j := n - 1, k - s;
    }
  }

  /** Index keys separate: no entry of a block is after its index key, every later entry is. */
  ghost predicate Separated(index: seq<IndexEntry>, fetch: nat -> seq<Entry>)
  {
    && (forall i, j :: 0 <= i < |index| && 0 <= j < |fetch(index[i].handle)| ==> !Before(index[i].key, fetch(index[i].handle)[j].key))
    && (forall i, k :: 0 <= i < |index| && Start(index, fetch, i + 1) <= k < |Whole(index, fetch)| ==>
         Before(index[i].key, Whole(index, fetch)[k].key))
  }

  /** The index iterator's Seek; -1 when there is no index key at or after the target. */
  function SeekBlock(index: seq<IndexEntry>, target: IKey, from: nat): (i: int)
    requires from <= |index|
    ensures i == -1 || from <= i < |index|
    ensures i == -1 ==> forall k :: from <= k < |index| ==> Before(index[k].key, target)
    ensures i != -1 ==> !Before(index[i].key, target) && forall k :: from <= k < i ==> Before(index[k].key, target)
    decreases |index| - from
  {
    if from == |index| then -1
    else if !Before(index[from].key, target) then from
    else SeekBlock(index, target, from + 1)
  }

  /** Where Seek must land: the first entry of the concatenation at or after the target. */
  lemma SeekLands(index: seq<IndexEntry>, fetch: nat -> seq<Entry>, target: IKey)
    requires Separated(index, fetch)
    ensures
      var i := SeekBlock(index, target, 0);
      SeekIndex(Whole(index, fetch), target) ==
        if i == -1 then |Whole(index, fetch)| else Start(index, fetch, i) + SeekIndex(fetch(index[i].handle), target)
  {
    var m := Whole(index, fetch);
    var i := SeekBlock(index, target, 0);
    var n := if i == -1 then |index| else i;
    EarlierBlocks(index, fetch, n, target);
    if i == -1 {
      SeekIndexIs(m, target, |m|);
    } else {
      var b := fetch(index[i].handle);
      var p := SeekIndex(b, target);
      var k := Start(index, fetch, i) + p;
      FlatPrefix(index, fetch, i + 1, |index|);
      forall j | 0 <= j < k ensures Before(m[j].key, target) {
        if j >= Start(index, fetch, i) { BlockAt(index, fetch, i, j - Start(index, fetch, i)); }
      }
      if p < |b| { BlockAt(index, fetch, i, p); }
      SeekIndexIs(m, target, k);
    }
  }

  lemma EarlierBlocks(index: seq<IndexEntry>, fetch: nat -> seq<Entry>, n: nat, target: IKey)
    requires Separated(index, fetch) && n <= |index|
    requires forall i :: 0 <= i < n ==> Before(index[i].key, target)
    ensures Start(index, fetch, n) <= |Whole(index, fetch)|
    ensures forall k :: 0 <= k < Start(index, fetch, n) ==> Before(Whole(index, fetch)[k].key, target)
  {
    FlatPrefix(index, fetch, n, |index|);
    forall k | 0 <= k < Start(index, fetch, n) ensures Before(Whole(index, fetch)[k].key, target) {
      var i, j := PlaceIn(index, fetch, n, k);
      BlockAt(index, fetch, i, j);
    }
  }

  lemma SeekIndexIs(m: seq<Entry>, target: IKey, k: nat)
    requires k <= |m| && (forall j :: 0 <= j < k ==> Before(m[j].key, target))
    requires k < |m| ==> !Before(m[k].key, target)
    ensures SeekIndex(m, target) == k
  {
  }

  class TwoLevelIterator {
    const index: seq<IndexEntry>
    const fetch: nat -> seq<Entry>
    /** The index iterator, -1 when it is not valid. */
    var block: int
    /** The data iterator: None for NULL, and a position that is -1 when it is not valid. */
    var data: Option<seq<Entry>>
    var pos: int
    var handle: nat

    /** The data iterator was made from the saved handle. */
    ghost predicate Framed()
      reads this
    {
      && -1 <= block < |index|
      && (data.Some? ==> data.value == fetch(handle) && -1 <= pos < |data.value|)
    }

    /** The data iterator reads the block that the index iterator stands on. */
    ghost predicate Loaded()
      reads this
    {
      && Framed() && (data.None? <==> block == -1)
      && (data.Some? ==> handle == index[block].handle)
    }

    ghost predicate Ok()
      reads this
    {
      Loaded() && (data.Some? ==> pos != -1)
    }

    /** The place of the cursor in the concatenation; -1 when it is not valid. */
    ghost function At(): int
      requires Loaded()
      reads this
    {
      if data.None? then -1 else Start(index, fetch, block) + pos
    }

    constructor (ix: seq<IndexEntry>, blockFunction: nat -> seq<Entry>)
      ensures Ok() && !Valid() && index == ix && fetch == blockFunction
    {
      index, fetch := ix, blockFunction;
      block, data, pos, handle := -1, None, -1, 0;
    }

    predicate Valid()
      reads this
    {
      data.Some? && pos != -1
    }

    /** key() and value(). */
    function Current(): (e: Entry)
      requires Ok() && Valid()
      reads this
      ensures 0 <= At() < |Whole(index, fetch)| && e == Whole(index, fetch)[At()]
    {
      BlockAt(index, fetch, block, pos);
      data.value[pos]
    }

    method InitDataBlock()
      requires Framed()
      modifies `data, `pos, `handle
      ensures Loaded()
    {
      if block == -1 {
        data := None;
      } else {
        var h := index[block].handle;
        if data.Some? && h == handle {
        } else {
          handle := h;
          data, pos := Some(fetch(h)), -1;
        }
      }
    }

    method SkipEmptyDataBlocksForward(ghost k: int)
      requires Loaded() && 0 <= k <= |Whole(index, fetch)|
      requires data.None? ==> k == |Whole(index, fetch)|
      requires data.Some? && pos == -1 ==> k == Start(index, fetch, block + 1)
      requires data.Some? && pos != -1 ==> k == At()
      modifies this
      ensures Ok() && At() == (if k < |Whole(index, fetch)| then k else -1)
    {
      while data.None? || pos == -1
        invariant Loaded()
        invariant data.None? ==> k == |Whole(index, fetch)|
        invariant data.Some? && pos == -1 ==> k == Start(index, fetch, block + 1)
        invariant data.Some? && pos != -1 ==> k == At()
        decreases if block == -1 then 0 else |index| - block
      {
        if block == -1 {
          data := None;
          return;
        }
        block := if block + 1 < |index| then block + 1 else -1;
        InitDataBlock();
        if data.Some? {
          pos := if |data.value| > 0 then 0 else -1;
        }
      }
      BlockAt(index, fetch, block, pos);
    }

    method SkipEmptyDataBlocksBackward(ghost k: int)
      requires Loaded() && -1 <= k < |Whole(index, fetch)|
      requires data.None? ==> k == -1
      requires data.Some? && pos == -1 ==> k == Start(index, fetch, block) - 1
      requires data.Some? && pos != -1 ==> k == At()
      modifies this
      ensures Ok() && At() == k
    {
      while data.None? || pos == -1
        invariant Loaded()
        invariant data.None? ==> k == -1
        invariant data.Some? && pos == -1 ==> k == Start(index, fetch, block) - 1
        invariant data.Some? && pos != -1 ==> k == At()
        decreases block
      {
        if block == -1 {
          data := None;
          return;
        }
        block := block - 1;
        InitDataBlock();
        if data.Some? {
          pos := |data.value| - 1;
        }
      }
    }

    method Seek(target: IKey)
      requires Ok() && Separated(index, fetch)
      modifies this
      ensures Ok() && At() == SeekTo(Whole(index, fetch), target)
    {
      block := SeekBlock(index, target, 0);
      InitDataBlock();
      if data.Some? {
        pos := SeekTo(data.value, target);
      }
      SeekLands(index, fetch, target);
      SkipEmptyDataBlocksForward(SeekIndex(Whole(index, fetch), target));
    }

    method SeekToFirst()
      requires Ok()
      modifies this
      ensures Ok() && At() == if |Whole(index, fetch)| > 0 then 0 else -1
    {
      block := if |index| > 0 then 0 else -1;
      InitDataBlock();
      if data.Some? {
        pos := if |data.value| > 0 then 0 else -1;
        assert Flat(index, fetch, block + 1) == Flat(index, fetch, block) + data.value;
      }
      SkipEmptyDataBlocksForward(0);
    }

    method SeekToLast()
      requires Ok()
      modifies this
      ensures Ok() && At() == |Whole(index, fetch)| - 1
    {
      block := |index| - 1;
      InitDataBlock();
      if data.Some? {
        pos := |data.value| - 1;
      }
      SkipEmptyDataBlocksBackward(|Whole(index, fetch)| - 1);
    }

    method Next()
      requires Ok() && Valid()
      modifies this
      ensures Ok() && At() == if old(At()) + 1 < |Whole(index, fetch)| then old(At()) + 1 else -1
    {
      BlockAt(index, fetch, block, pos);
      ghost var k := At() + 1;
      pos := if pos + 1 < |data.value| then pos + 1 else -1;
      SkipEmptyDataBlocksForward(k);
    }

    method Prev()
      requires Ok() && Valid()
      modifies this
      ensures Ok() && At() == old(At()) - 1
    {
      BlockAt(index, fetch, block, pos);
      ghost var k := At() - 1;
      pos := pos - 1;
      SkipEmptyDataBlocksBackward(k);
    }
  }
}
