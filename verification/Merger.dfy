/**
 MergingIterator: several sorted children read as one cursor over their merge, in both directions.
 */
module Merger {
  import opened Keys

  // --- The merged sequence ------------------------------------------------------------------

  ghost predicate Held(children: seq<seq<Entry>>, e: Entry)
  {
    exists i :: 0 <= i < |children| && e in children[i]
  }

  /** m holds the entries of all children, in order, and no entry is in two children. */
  ghost predicate IsMerge(children: seq<seq<Entry>>, m: seq<Entry>)
  {
    && Sorted(m)
    && (forall i :: 0 <= i < |children| ==> Sorted(children[i]))
    && (forall i, j :: 0 <= i < |children| && 0 <= j < |children[i]| ==> children[i][j] in m)
    && (forall k :: 0 <= k < |m| ==> Held(children, m[k]))
    && (forall i, j, e :: 0 <= i < j < |children| && e in children[i] ==> e !in children[j])
  }

  /** The place of an entry in the merged sequence. */
  ghost function Rank(m: seq<Entry>, e: Entry): (r: nat)
    requires e in m
    ensures r < |m| && m[r] == e
  {
    var r :| 0 <= r < |m| && m[r] == e;
    r
  }

  /** How the children are woven into the merged sequence: ranks[i][j] is the place of entry j of child i,
      and owner[k] and slot[k] lead back from a place to the child and the position that fill it. */
  datatype Weave = Weave(ranks: seq<seq<int>>, owner: seq<int>, slot: seq<int>)

  ghost predicate Increasing(r: seq<int>)
  {
    forall i, j :: 0 <= i < j < |r| ==> r[i] < r[j]
  }

  ghost predicate Child(w: Weave, c: seq<Entry>, m: seq<Entry>, i: int)
    requires 0 <= i < |w.ranks| && |w.owner| == |m|
  {
    && |w.ranks[i]| == |c| && Increasing(w.ranks[i])
    && forall j :: 0 <= j < |c| ==> 0 <= w.ranks[i][j] < |m| && c[j] == m[w.ranks[i][j]] && w.owner[w.ranks[i][j]] == i
  }

  ghost predicate Place(w: Weave, k: int)
    requires 0 <= k < |w.owner| == |w.slot|
  {
    && 0 <= w.owner[k] < |w.ranks| && 0 <= w.slot[k] < |w.ranks[w.owner[k]]|
    && w.ranks[w.owner[k]][w.slot[k]] == k
  }

  ghost predicate Weaves(w: Weave, children: seq<seq<Entry>>, m: seq<Entry>)
  {
    && Sorted(m) && |w.ranks| == |children| && |w.owner| == |m| && |w.slot| == |m|
    && (forall i :: 0 <= i < |children| ==> Child(w, children[i], m, i))
    && (forall k :: 0 <= k < |m| ==> Place(w, k))
  }

  ghost function OwnerOf(children: seq<seq<Entry>>, e: Entry): (i: int)
    requires Held(children, e)
    ensures 0 <= i < |children| && e in children[i]
  {
    var i :| 0 <= i < |children| && e in children[i];
    i
  }

  /** Every merge is woven from its children. */
  lemma MergeWeaves(children: seq<seq<Entry>>, m: seq<Entry>) returns (w: Weave)
    requires IsMerge(children, m)
    ensures Weaves(w, children, m)
  {
    var owner := seq(|m|, k requires 0 <= k < |m| => OwnerOf(children, m[k]));
    var slot := seq(|m|, k requires 0 <= k < |m| => Rank(children[OwnerOf(children, m[k])], m[k]) as int);
    var ranks := seq(|children|, i requires 0 <= i < |children| =>
      seq(|children[i]|, j requires 0 <= j < |children[i]| => Rank(m, children[i][j]) as int));
    w := Weave(ranks, owner, slot);
    forall i | 0 <= i < |children| ensures Child(w, children[i], m, i) {
      WovenChild(children, m, w, i);
    }
    forall k | 0 <= k < |m| ensures Place(w, k) {
      var c := children[owner[k]];
      assert c[slot[k]] == m[k];
    }
  }

  lemma WovenChild(children: seq<seq<Entry>>, m: seq<Entry>, w: Weave, i: int)
    requires IsMerge(children, m) && 0 <= i < |children| == |w.ranks| && |w.owner| == |m|
    requires forall k :: 0 <= k < |m| ==> w.owner[k] == OwnerOf(children, m[k])
    requires |w.ranks[i]| == |children[i]| && forall j :: 0 <= j < |children[i]| ==> w.ranks[i][j] == Rank(m, children[i][j])
    ensures Child(w, children[i], m, i)
  {
  }

  /** In a sorted sequence the comparator agrees with the indices. */
  lemma BeforeIsIndex(m: seq<Entry>, i: int, j: int)
    requires Sorted(m) && 0 <= i < |m| && 0 <= j < |m|
    ensures Before(m[i].key, m[j].key) <==> i < j
  {
  }

  // --- Where a child stands, as ranks -------------------------------------------------------

  /** p is the first position whose rank is at least k; -1 when there is none. */
  ghost predicate AtOrAfter(r: seq<int>, p: int, k: int)
  {
    && -1 <= p < |r|
    && (forall j :: 0 <= j < |r| && (p == -1 || j < p) ==> r[j] < k)
    && (p != -1 ==> r[p] >= k)
  }

  /** p is the last position whose rank is at most k; -1 when there is none. */
  ghost predicate AtOrBefore(r: seq<int>, p: int, k: int)
  {
    && -1 <= p < |r|
    && (forall j :: p < j < |r| ==> r[j] > k)
    && (p != -1 ==> r[p] <= k)
  }

  ghost predicate AllAfter(ranks: seq<seq<int>>, pos: seq<int>, k: int)
    requires |pos| == |ranks|
  {
    forall i :: 0 <= i < |ranks| ==> AtOrAfter(ranks[i], pos[i], k)
  }

  ghost predicate AllBefore(ranks: seq<seq<int>>, pos: seq<int>, k: int)
    requires |pos| == |ranks|
  {
    forall i :: 0 <= i < |ranks| ==> AtOrBefore(ranks[i], pos[i], k)
  }

  /** A child iterator's moves; -1 stands for an iterator that is not valid. */
  function After(c: seq<Entry>, p: int): int
  {
    if p + 1 < |c| then p + 1 else -1
  }

  lemma SeekChild(w: Weave, c: seq<Entry>, m: seq<Entry>, i: int, target: IKey)
    requires Sorted(m) && 0 <= i < |w.ranks| && |w.owner| == |m| && Child(w, c, m, i)
    ensures AtOrAfter(w.ranks[i], SeekTo(c, target), SeekIndex(m, target))
  {
  }

  /** Seeking to an entry's own key finds that entry. */
  /** One step back from where the key of another child would be. */
  lemma StepBack(w: Weave, c: seq<Entry>, m: seq<Entry>, i: int, k: int)
    requires Sorted(m) && 0 <= i < |w.ranks| && |w.owner| == |m| && Child(w, c, m, i) && 0 <= k < |m| && w.owner[k] != i
    ensures
      var p := SeekTo(c, m[k].key);
      AtOrBefore(w.ranks[i], if p != -1 then p - 1 else |c| - 1, k)
  {
    SeekOwn(m, k);
    SeekChild(w, c, m, i, m[k].key);
    var p := SeekTo(c, m[k].key);
    assert p != -1 ==> w.ranks[i][p] != k;
  }

  lemma BeforePrev(w: Weave, children: seq<seq<Entry>>, m: seq<Entry>, pos: seq<int>, c: int, k: int)
    requires Weaves(w, children, m) && |pos| == |children| && 0 <= k < |m| && AllBefore(w.ranks, pos, k)
    requires Place(w, k) && c == w.owner[k] && pos[c] == w.slot[k]
    ensures AllBefore(w.ranks, pos[c := pos[c] - 1], k - 1)
  {
    forall i | 0 <= i < |children| ensures AtOrBefore(w.ranks[i], pos[c := pos[c] - 1][i], k - 1) {
      assert Child(w, children[i], m, i) && AtOrBefore(w.ranks[i], pos[i], k);
    }
  }

  lemma SeekOwn(m: seq<Entry>, k: int)
    requires Sorted(m) && 0 <= k < |m|
    ensures SeekIndex(m, m[k].key) == k
  {
  }

  /** A child's Seek, and its Next when that lands on the very key. */
  function SeekPast(c: seq<Entry>, key: IKey): (p: int)
    ensures -1 <= p < |c|
  {
    var p := SeekTo(c, key);
    if p != -1 && !Before(key, c[p].key) && !Before(c[p].key, key) then After(c, p) else p
  }

  lemma SeekPastChild(w: Weave, c: seq<Entry>, m: seq<Entry>, i: int, k: int)
    requires Sorted(m) && 0 <= i < |w.ranks| && |w.owner| == |m| && Child(w, c, m, i) && 0 <= k < |m|
    ensures AtOrAfter(w.ranks[i], SeekPast(c, m[k].key), k + 1)
  {
  }

  /** The child that owns place k stands there, once every child stands at or after k. */
  lemma OwnerStands(w: Weave, pos: seq<int>, k: int)
    requires |pos| == |w.ranks| && 0 <= k < |w.owner| == |w.slot| && Place(w, k)
    requires Increasing(w.ranks[w.owner[k]])
    requires AtOrAfter(w.ranks[w.owner[k]], pos[w.owner[k]], k) || AtOrBefore(w.ranks[w.owner[k]], pos[w.owner[k]], k)
    ensures pos[w.owner[k]] == w.slot[k]
  {
  }

  // --- The iterator -------------------------------------------------------------------------

  class MergingIterator {
    const children: seq<seq<Entry>>
    ghost const merged: seq<Entry>
    ghost const weave: Weave
    var pos: seq<int>
    var current: int
    var reverse: bool
    /** Where the iterator stands in the merged sequence; -1 when it is not valid. */
    ghost var at: int

    ghost predicate Ok()
      reads this
    {
      && Weaves(weave, children, merged) && |pos| == |children|
      && -1 <= at < |merged|
      && (at == -1 ==> current == -1)
      && (at != -1 ==> Stands())
      && (at != -1 && reverse ==> AllBefore(weave.ranks, pos, at))
      && (at != -1 && !reverse ==> AllAfter(weave.ranks, pos, at))
    }

    ghost predicate Stands()
      requires Weaves(weave, children, merged) && |pos| == |children| && 0 <= at < |merged|
      reads this
    {
      Place(weave, at) && current == weave.owner[at] && pos[current] == weave.slot[at]
    }

    constructor (list: seq<seq<Entry>>, ghost m: seq<Entry>)
      requires IsMerge(list, m)
      ensures Ok() && !Valid() && children == list && merged == m
    {
      ghost var w := MergeWeaves(list, m);
      children, merged, weave := list, m, w;
      pos := seq(|list|, _ => -1);
      current, reverse, at := -1, false, -1;
    }

    predicate Valid()
      reads this
    {
      current != -1
    }

    /** key() and value(). */
    function Current(): (e: Entry)
      requires Ok() && Valid()
      reads this
      ensures 0 <= at < |merged| && e == merged[at]
    {
      assert Child(weave, children[current], merged, current);
      children[current][pos[current]]
    }

    method FindSmallest(ghost k: int)
      requires Weaves(weave, children, merged) && |pos| == |children| && 0 <= k <= |merged|
      requires AllAfter(weave.ranks, pos, k)
      modifies `current, `at
      ensures at == (if k < |merged| then k else -1)
      ensures at == -1 ==> current == -1
      ensures at != -1 ==> Stands()
    {
      var smallest := -1;
      for i := 0 to |children|
        invariant -1 <= smallest < i
        invariant smallest == -1 ==> forall j :: 0 <= j < i ==> pos[j] == -1
        invariant smallest != -1 ==> 0 <= pos[smallest] < |weave.ranks[smallest]|
        invariant smallest != -1 ==> k <= weave.ranks[smallest][pos[smallest]] < |merged|
        invariant smallest != -1 ==> forall j :: 0 <= j < i && pos[j] != -1 ==>
          weave.ranks[smallest][pos[smallest]] <= weave.ranks[j][pos[j]]
      {
        assert AtOrAfter(weave.ranks[i], pos[i], k) && Child(weave, children[i], merged, i);
        if pos[i] != -1 {
          if smallest == -1 {
            smallest := i;
          } else {
            assert Child(weave, children[smallest], merged, smallest);
            BeforeIsIndex(merged, weave.ranks[i][pos[i]], weave.ranks[smallest][pos[smallest]]);
            if Before(children[i][pos[i]].key, children[smallest][pos[smallest]].key) {
              smallest := i;
            }
          }
        }
      }
      current := smallest;
      at := if k < |merged| then k else -1;
      if k < |merged| {
        assert Place(weave, k) && Child(weave, children[weave.owner[k]], merged, weave.owner[k]);
        OwnerStands(weave, pos, k);
        assert Child(weave, children[smallest], merged, smallest);
      }
    }

    method FindLargest(ghost k: int)
      requires Weaves(weave, children, merged) && |pos| == |children| && -1 <= k < |merged|
      requires AllBefore(weave.ranks, pos, k)
      modifies `current, `at
      ensures at == k
      ensures at == -1 ==> current == -1
      ensures at != -1 ==> Stands()
    {
      var largest := -1;
      for i := |children| downto 0
        invariant largest == -1 || i <= largest < |children|
        invariant largest == -1 ==> forall j :: i <= j < |children| ==> pos[j] == -1
        invariant largest != -1 ==> 0 <= pos[largest] < |weave.ranks[largest]|
        invariant largest != -1 ==> 0 <= weave.ranks[largest][pos[largest]] <= k
        invariant largest != -1 ==> forall j :: i <= j < |children| && pos[j] != -1 ==>
          weave.ranks[j][pos[j]] <= weave.ranks[largest][pos[largest]]
      {
        assert AtOrBefore(weave.ranks[i], pos[i], k) && Child(weave, children[i], merged, i);
        if pos[i] != -1 {
          if largest == -1 {
            largest := i;
          } else {
            assert Child(weave, children[largest], merged, largest);
            BeforeIsIndex(merged, weave.ranks[largest][pos[largest]], weave.ranks[i][pos[i]]);
            if Before(children[largest][pos[largest]].key, children[i][pos[i]].key) {
              largest := i;
            }
          }
        }
      }
      current := largest;
      at := k;
      if k >= 0 {
        assert Place(weave, k) && Child(weave, children[weave.owner[k]], merged, weave.owner[k]);
        OwnerStands(weave, pos, k);
        assert Child(weave, children[largest], merged, largest);
      }
    }

    method SeekToFirst()
      requires Ok()
      modifies this
      ensures Ok() && at == (if |merged| > 0 then 0 else -1)
    {
      pos := seq(|children|, i requires 0 <= i < |children| => if |children[i]| > 0 then 0 else -1);
      forall i | 0 <= i < |children| ensures AtOrAfter(weave.ranks[i], pos[i], 0) {
        assert Child(weave, children[i], merged, i);
      }
      FindSmallest(0);
      reverse := false;
    }

    method SeekToLast()
      requires Ok()
      modifies this
      ensures Ok() && at == |merged| - 1
    {
      pos := seq(|children|, i requires 0 <= i < |children| => |children[i]| - 1);
      forall i | 0 <= i < |children| ensures AtOrBefore(weave.ranks[i], pos[i], |merged| - 1) {
        assert Child(weave, children[i], merged, i);
      }
      FindLargest(|merged| - 1);
      reverse := true;
    }

    method Seek(target: IKey)
      requires Ok()
      modifies this
      ensures Ok() && at == SeekTo(merged, target)
    {
      pos := seq(|children|, i requires 0 <= i < |children| => SeekTo(children[i], target));
      forall i | 0 <= i < |children| ensures AtOrAfter(weave.ranks[i], pos[i], SeekIndex(merged, target)) {
        SeekChild(weave, children[i], merged, i, target);
      }
      FindSmallest(SeekIndex(merged, target));
      reverse := false;
    }

    /** The repositioning in Next after a backward move. */
    method Forward()
      requires Ok() && Valid() && reverse
      modifies `pos, `reverse
      ensures Ok() && !reverse
    {
      assert Child(weave, children[current], merged, current);
      var key := children[current][pos[current]].key;
      SeekOwn(merged, at);
      for i := 0 to |children|
        invariant |pos| == |children| && pos[current] == old(pos[current])
        invariant forall j :: 0 <= j < i && j != current ==> AtOrAfter(weave.ranks[j], pos[j], at)
      {
        if i != current {
          SeekPastChild(weave, children[i], merged, i, at);
          pos := pos[i := SeekPast(children[i], key)];
          assert Child(weave, children[i], merged, i);
        }
      }
      reverse := false;
    }

    method Next()
      requires Ok() && Valid()
      modifies this
      ensures Ok() && at == (if old(at) + 1 < |merged| then old(at) + 1 else -1)
    {
      if reverse {
        Forward();
      }
      ghost var k := at;
      assert Child(weave, children[current], merged, current);
      ghost var before := pos;
      pos := pos[current := After(children[current], pos[current])];
      forall i | 0 <= i < |children| ensures AtOrAfter(weave.ranks[i], pos[i], k + 1) {
        assert Child(weave, children[i], merged, i) && AtOrAfter(weave.ranks[i], before[i], k);
      }
      FindSmallest(k + 1);
    }

    /** The repositioning in Prev after a forward move. */
    method Backward()
      requires Ok() && Valid() && !reverse
      modifies `pos, `reverse
      ensures Ok() && reverse
    {
      assert Child(weave, children[current], merged, current);
      var key := children[current][pos[current]].key;
      SeekOwn(merged, at);
      for i := 0 to |children|
        invariant |pos| == |children| && pos[current] == old(pos[current])
        invariant forall j :: 0 <= j < i && j != current ==> AtOrBefore(weave.ranks[j], pos[j], at)
      {
        if i != current {
          var p := SeekTo(children[i], key);
          StepBack(weave, children[i], merged, i, at);
          if p != -1 {
            p := p - 1;
          } else {
            p := |children[i]| - 1;
          }
          pos := pos[i := p];
        }
      }
      reverse := true;
    }

    method Prev()
      requires Ok() && Valid()
      modifies this
      ensures Ok() && at == old(at) - 1
    {
      if !reverse {
        Backward();
      }
      ghost var k := at;
      BeforePrev(weave, children, merged, pos, current, k);
      pos := pos[current := pos[current] - 1];
      FindLargest(k - 1);
    }
  }
}
