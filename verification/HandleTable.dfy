/**
 HandleTable: the cache's resizing hash table. A bucket's chain of next_hash links is a sequence.
 */
module HandleTable {
  import opened Bytes
  import opened Keys

  /** What a lookup compares: key and hash. */
  datatype Label = Label(key: Bytes, hash: nat)

  /** A handle in the table. */
  datatype Item = Item(id: nat, name: Label)

  /** How hashes are spread over buckets. */
  type Spread = nat -> nat

  ghost predicate Fits(slot: Spread, length: nat)
  {
    forall hash: nat :: slot(hash) < length
  }

  /** hash & (length - 1), for a length that is a power of two. */
  function Mask(length: nat): (slot: Spread)
    requires length > 0
    ensures Fits(slot, length)
  {
    (hash: nat) => hash % length
  }

  /** The position in a chain of the item with a label, or the end of the chain: FindPointer. */
  function FindPointer(chain: seq<Item>, t: Label): (p: nat)
    ensures p <= |chain| && (p < |chain| ==> chain[p].name == t)
    ensures forall i :: 0 <= i < p ==> chain[i].name != t
  {
    if chain == [] || chain[0].name == t then 0 else 1 + FindPointer(chain[1..], t)
  }

  /** A chain by itself: distinct tags of one bucket, with the ids that the map gives. */
  ghost predicate Chain(slot: Spread, chain: seq<Item>, b: nat, contents: map<Label, nat>)
  {
    && (forall i, j :: 0 <= i < j < |chain| ==> chain[i].name != chain[j].name)
    && (forall i :: 0 <= i < |chain| ==> slot(chain[i].name.hash) == b)
    && (forall i :: 0 <= i < |chain| ==> chain[i].name in contents && contents[chain[i].name] == chain[i].id)
  }

  /** The buckets hold exactly the items of the map. */
  ghost predicate Holds(slot: Spread, list: seq<seq<Item>>, contents: map<Label, nat>)
  {
    && Fits(slot, |list|)
    && (forall b {:trigger Chain(slot, list[b], b, contents)} :: 0 <= b < |list| ==> Chain(slot, list[b], b, contents))
    && (forall t {:trigger t in contents} :: t in contents ==> Item(contents[t], t) in list[slot(t.hash)])
  }

  /** How many items the buckets hold. */
  function Total(list: seq<seq<Item>>): nat
  {
    if list == [] then 0 else Total(list[..|list| - 1]) + |list[|list| - 1]|
  }

  lemma {:induction false} TotalUpdate(list: seq<seq<Item>>, b: nat, chain: seq<Item>)
    requires b < |list|
    ensures Total(list[b := chain]) == Total(list) - |list[b]| + |chain|
  {
    var n := |list| - 1;
    var more := list[b := chain];
    if b == n {
      assert more[..n] == list[..n];
    } else {
      TotalUpdate(list[..n], b, chain);
      assert more[..n] == list[..n][b := chain];
    }
  }

  lemma {:induction false} TotalEmpty(n: nat)
    ensures Total(seq(n, _ => [])) == 0
  {
    if n > 0 {
      TotalEmpty(n - 1);
      assert seq(n, _ => [])[..n - 1] == seq<seq<Item>>(n - 1, _ => []);
    }
  }

  /** A chain's search agrees with the map. */
  lemma FindAgrees(slot: Spread, list: seq<seq<Item>>, contents: map<Label, nat>, t: Label)
    requires Holds(slot, list, contents)
    ensures
      var chain := list[slot(t.hash)];
      var p := FindPointer(chain, t);
      && (p < |chain| <==> t in contents)
      && (p < |chain| ==> contents[t] == chain[p].id)
  {
    var b := slot(t.hash);
    assert Chain(slot, list[b], b, contents);
    if t in contents { assert Item(contents[t], t) in list[b]; }
  }

  /** Changing one chain, when the map changes only for tags of its bucket. */
  lemma ChangeChain(slot: Spread, list: seq<seq<Item>>, contents: map<Label, nat>, b: nat, chain: seq<Item>, contents': map<Label, nat>)
    requires Holds(slot, list, contents) && b < |list| && Chain(slot, chain, b, contents')
    requires forall t: Label :: slot(t.hash) != b && t in contents ==> t in contents' && contents'[t] == contents[t]
    requires forall t: Label :: slot(t.hash) != b && t in contents' ==> t in contents
    requires forall t: Label :: t in contents' && slot(t.hash) == b ==> Item(contents'[t], t) in chain
    ensures Holds(slot, list[b := chain], contents')
  {
    var l := list[b := chain];
    forall k | 0 <= k < |l| ensures Chain(slot, l[k], k, contents') {
      if k != b { assert Chain(slot, list[k], k, contents) && l[k] == list[k]; }
    }
    forall t | t in contents' ensures Item(contents'[t], t) in l[slot(t.hash)] {
      if slot(t.hash) != b { assert Item(contents[t], t) in list[slot(t.hash)]; }
    }
  }

  /** The chain after an insertion: the item takes the place of the one with its label, or goes to the end. */
  function Inserted(chain: seq<Item>, h: Item): seq<Item>
  {
    var p := FindPointer(chain, h.name);
    chain[..p] + [h] + if p < |chain| then chain[p + 1..] else []
  }

  lemma InsertedChain(slot: Spread, chain: seq<Item>, b: nat, contents: map<Label, nat>, h: Item)
    requires Chain(slot, chain, b, contents) && slot(h.name.hash) == b
    ensures Chain(slot, Inserted(chain, h), b, contents[h.name := h.id])
    ensures h in Inserted(chain, h) && forall x :: x in chain && x.name != h.name ==> x in Inserted(chain, h)
  {
  }

  lemma InsertHolds(slot: Spread, list: seq<seq<Item>>, contents: map<Label, nat>, h: Item)
    requires Holds(slot, list, contents)
    ensures
      var b := slot(h.name.hash);
      Holds(slot, list[b := Inserted(list[b], h)], contents[h.name := h.id])
  {
    var b := slot(h.name.hash);
    var c := contents[h.name := h.id];
    assert Chain(slot, list[b], b, contents);
    InsertedChain(slot, list[b], b, contents, h);
    forall t: Label | t in c && slot(t.hash) == b ensures Item(c[t], t) in Inserted(list[b], h) {
      if t != h.name { assert Item(contents[t], t) in list[b]; }
    }
    ChangeChain(slot, list, contents, b, Inserted(list[b], h), c);
  }

  function Removed(chain: seq<Item>, p: nat): seq<Item>
    requires p < |chain|
  {
    chain[..p] + chain[p + 1..]
  }

  lemma RemovedChain(slot: Spread, chain: seq<Item>, b: nat, contents: map<Label, nat>, p: nat)
    requires Chain(slot, chain, b, contents) && p < |chain|
    ensures Chain(slot, Removed(chain, p), b, contents - {chain[p].name})
    ensures forall x :: x in chain && x.name != chain[p].name ==> x in Removed(chain, p)
  {
  }

  lemma RemoveHolds(slot: Spread, list: seq<seq<Item>>, contents: map<Label, nat>, t: Label)
    requires Holds(slot, list, contents) && t in contents
    ensures
      var b := slot(t.hash);
      var p := FindPointer(list[b], t);
      p < |list[b]| && Holds(slot, list[b := Removed(list[b], p)], contents - {t})
  {
    FindAgrees(slot, list, contents, t);
    var b := slot(t.hash);
    var p, c := FindPointer(list[b], t), contents - {t};
    assert Chain(slot, list[b], b, contents);
    RemovedChain(slot, list[b], b, contents, p);
    forall u: Label | u in c && slot(u.hash) == b ensures Item(c[u], u) in Removed(list[b], p) {
      assert Item(contents[u], u) in list[b];
    }
    ChangeChain(slot, list, contents, b, Removed(list[b], p), c);
  }

  /** Resize: pushing one more item at the front of its new chain. */
  lemma PushHolds(slot: Spread, list: seq<seq<Item>>, contents: map<Label, nat>, h: Item)
    requires Holds(slot, list, contents) && h.name !in contents
    ensures
      var b := slot(h.name.hash);
      Holds(slot, list[b := [h] + list[b]], contents[h.name := h.id])
  {
    var b := slot(h.name.hash);
    var more, c := [h] + list[b], contents[h.name := h.id];
    assert Chain(slot, list[b], b, contents);
    forall i | 0 < i < |more| ensures more[i] == list[b][i - 1] && more[i].name != h.name {}
    forall t | t in c && slot(t.hash) == b ensures Item(c[t], t) in more {
      if t != h.name { assert Item(contents[t], t) in list[b]; }
    }
    ChangeChain(slot, list, contents, b, more, c);
  }

  // --- The table ----------------------------------------------------------------------------

  ghost predicate PowerOfTwo(n: nat)
  {
    n == 1 || (n > 1 && n % 2 == 0 && PowerOfTwo(n / 2))
  }

  /** A label of the first i chains, or of the first j items of chain i. */
  ghost predicate Moved(slot: Spread, list: seq<seq<Item>>, i: nat, j: nat, t: Label)
  {
    slot(t.hash) < i || (slot(t.hash) == i < |list| && FindPointer(list[i], t) < j)
  }

  /** done is what has been moved out of the old buckets. */
  ghost predicate MovedUpTo(slot: Spread, list: seq<seq<Item>>, contents: map<Label, nat>, i: nat, j: nat, done: map<Label, nat>)
  {
    && (forall t :: t in done ==> t in contents && done[t] == contents[t] && Moved(slot, list, i, j, t))
    && (forall t :: t in contents && Moved(slot, list, i, j, t) ==> t in done)
  }

  lemma MoveOne(slot: Spread, list: seq<seq<Item>>, contents: map<Label, nat>, i: nat, j: nat, done: map<Label, nat>)
    requires Holds(slot, list, contents) && i < |list| && j < |list[i]| && MovedUpTo(slot, list, contents, i, j, done)
    ensures
      var h := list[i][j];
      h.name !in done && MovedUpTo(slot, list, contents, i, j + 1, done[h.name := h.id])
  {
    var h := list[i][j];
    assert Chain(slot, list[i], i, contents);
    assert FindPointer(list[i], h.name) == j;
    var more := done[h.name := h.id];
    forall t | t in contents && Moved(slot, list, i, j + 1, t) ensures t in more {
      if slot(t.hash) == i && FindPointer(list[i], t) == j { assert t == h.name; } else { assert Moved(slot, list, i, j, t); }
    }
  }

  lemma NextChain(slot: Spread, list: seq<seq<Item>>, contents: map<Label, nat>, i: nat, done: map<Label, nat>)
    requires Holds(slot, list, contents) && i < |list| && MovedUpTo(slot, list, contents, i, |list[i]|, done)
    ensures MovedUpTo(slot, list, contents, i + 1, 0, done)
  {
  }

  lemma AllMoved(slot: Spread, list: seq<seq<Item>>, contents: map<Label, nat>, done: map<Label, nat>)
    requires Holds(slot, list, contents) && MovedUpTo(slot, list, contents, |list|, 0, done)
    ensures done == contents
  {
  }

  /** The inner loop of Resize: every item of a chain goes to the front of its new chain. */
  method MoveChain(ghost slot: Spread, ghost list: seq<seq<Item>>, ghost contents: map<Label, nat>, ghost i: nat, chain: seq<Item>,
                   spread: Spread, newList: seq<seq<Item>>, ghost done: map<Label, nat>)
    returns (r: seq<seq<Item>>, ghost all: map<Label, nat>)
    requires Holds(slot, list, contents) && i < |list| && chain == list[i]
    requires Holds(spread, newList, done) && MovedUpTo(slot, list, contents, i, 0, done)
    ensures |r| == |newList| && Holds(spread, r, all) && MovedUpTo(slot, list, contents, i + 1, 0, all)
    ensures Total(r) == Total(newList) + |chain|
  {
    r, all := newList, done;
    for j := 0 to |chain|
      invariant |r| == |newList| && Holds(spread, r, all) && MovedUpTo(slot, list, contents, i, j, all)
      invariant Total(r) == Total(newList) + j
    {
      var h := chain[j];
      var b := spread(h.name.hash);
      MoveOne(slot, list, contents, i, j, all);
      PushHolds(spread, r, all, h);
      TotalUpdate(r, b, [h] + r[b]);
      r := r[b := [h] + r[b]];
      all := all[h.name := h.id];
    }
    NextChain(slot, list, contents, i, all);
  }

  lemma EmptyHolds(slot: Spread, n: nat)
    requires n > 0 && Fits(slot, n)
    ensures Holds(slot, seq(n, _ => []), map[])
  {
  }

  class HandleTable {
    var length: nat
    var elems: nat
    var list: seq<seq<Item>>
    /** The map that the table stands for. */
    ghost var contents: map<Label, nat>

    ghost predicate Valid()
      reads this
    {
      && length > 0 && PowerOfTwo(length) && |list| == length
      && Holds(Mask(length), list, contents) && elems == Total(list)
    }

    constructor ()
      ensures Valid() && contents == map[] && length == 4
    {
      length, elems, contents := 4, 0, map[];
      list := seq(4, _ => []);
      new;
      EmptyHolds(Mask(4), 4);
      TotalEmpty(4);
      assert PowerOfTwo(1) && PowerOfTwo(2) && PowerOfTwo(4);
    }

    method Lookup(t: Label) returns (r: Option<nat>)
      requires Valid()
      ensures r == if t in contents then Some(contents[t]) else None
    {
      FindAgrees(Mask(length), list, contents, t);
      var chain := list[Mask(length)(t.hash)];
      var p := FindPointer(chain, t);
      return if p < |chain| then Some(chain[p].id) else None;
    }

    /** Returns the id that had the same label, if any. */
    method Insert(h: Item) returns (was: Option<nat>)
      requires Valid()
      modifies this
      ensures Valid() && contents == old(contents)[h.name := h.id]
      ensures was == if h.name in old(contents) then Some(old(contents)[h.name]) else None
    {
      var b := Mask(length)(h.name.hash);
      var p := FindPointer(list[b], h.name);
      FindAgrees(Mask(length), list, contents, h.name);
      was := if p < |list[b]| then Some(list[b][p].id) else None;
      InsertHolds(Mask(length), list, contents, h);
      TotalUpdate(list, b, Inserted(list[b], h));
      list := list[b := Inserted(list[b], h)];
      contents := contents[h.name := h.id];
      if was.None? {
        elems := elems + 1;
        if elems > length {
          Resize();
        }
      }
    }

    method Remove(t: Label) returns (was: Option<nat>)
      requires Valid()
      modifies this
      ensures Valid() && contents == old(contents) - {t}
      ensures was == if t in old(contents) then Some(old(contents)[t]) else None
    {
      var b := Mask(length)(t.hash);
      var p := FindPointer(list[b], t);
      FindAgrees(Mask(length), list, contents, t);
      if p < |list[b]| {
        was := Some(list[b][p].id);
        RemoveHolds(Mask(length), list, contents, t);
        TotalUpdate(list, b, Removed(list[b], p));
        list := list[b := Removed(list[b], p)];
        contents := contents - {t};
        elems := elems - 1;
      } else {
        was := None;
        assert contents - {t} == contents;
      }
    }

    /** Resize: the map stays the same. */
    method Resize()
      requires Valid()
      modifies this
      ensures Valid() && contents == old(contents) && elems == old(elems)
    {
      var newLength := NewLength(elems);
      var spread := Mask(newLength);
      var newList := Redistribute(Mask(length), list, contents, spread, newLength);
      list := newList;
      length := newLength;
    }
  }

  /** The least power of two from 4 on that is at least elems. */
  method NewLength(elems: nat) returns (n: nat)
    ensures n >= 4 && n >= elems && PowerOfTwo(n) && (n == 4 || n / 2 < elems)
  {
    n := 4;
    assert PowerOfTwo(1) && PowerOfTwo(2) && PowerOfTwo(4);
    while n < elems
      invariant n >= 4 && PowerOfTwo(n) && (n == 4 || n / 2 < elems)
    {
      assert 2 * n / 2 == n;
      n := 2 * n;
    }
  }

  /** The loop of Resize over the old buckets. */
  method Redistribute(ghost slot: Spread, list: seq<seq<Item>>, ghost contents: map<Label, nat>, spread: Spread, newLength: nat)
    returns (newList: seq<seq<Item>>)
    requires Holds(slot, list, contents) && newLength > 0 && Fits(spread, newLength)
    ensures |newList| == newLength && Holds(spread, newList, contents) && Total(newList) == Total(list)
  {
    newList := seq(newLength, _ => []);
    ghost var done: map<Label, nat> := map[];
    EmptyHolds(spread, newLength);
    TotalEmpty(newLength);
    for i := 0 to |list|
      invariant |newList| == newLength && Holds(spread, newList, done)
      invariant MovedUpTo(slot, list, contents, i, 0, done) && Total(newList) == Total(list[..i])
    {
      assert list[..i + 1][..i] == list[..i];
      newList, done := MoveChain(slot, list, contents, i, list[i], spread, newList, done);
    }
    AllMoved(slot, list, contents, done);
    assert list[..|list|] == list;
  }
}
