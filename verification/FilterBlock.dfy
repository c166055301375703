/**
 The filter block: one filter for every 2048 bytes of table file, found again through an array of offsets.
 */
module FilterBlock {
  import opened Bytes
  import opened Coding
  import opened Bloom

  const BASE_LG: Byte := 11

  /** The filter for the block at an offset: one for every 2048 bytes. */
  function IndexOf(offset: nat): nat { offset / 2048 }

  // --- Reading ------------------------------------------------------------------------------

  /** FilterBlockReader: where the offset array starts and how many filters there are; none when malformed. */
  function ArrayOffset(contents: Bytes): nat
    requires |contents| >= 5
  {
    Number(contents[|contents| - 5..|contents| - 1])
  }

  function NumFilters(contents: Bytes): (n: nat)
    ensures n > 0 ==> |contents| >= 5 && ArrayOffset(contents) + 4 * n + 5 <= |contents|
  {
    if |contents| < 5 || ArrayOffset(contents) > |contents| - 5 then 0
    else (|contents| - 5 - ArrayOffset(contents)) / 4
  }

  function WordAt(contents: Bytes, at: nat): nat
    requires at + 4 <= |contents|
  {
    Number(contents[at..at + 4])
  }

  /** KeyMayMatch for the filter with a given index. */
  ghost predicate FilterMatches(hash: HashFn, contents: Bytes, index: nat, key: Bytes)
  {
    index >= NumFilters(contents) ||
    var base := ArrayOffset(contents);
    var start, limit := WordAt(contents, base + 4 * index), WordAt(contents, base + 4 * index + 4);
    if start <= limit && limit <= base then Matches(hash, contents[start..limit], key) else start != limit
  }

  function ShiftRight(n: nat, k: nat): nat
  {
    if k == 0 then n else ShiftRight(n / 2, k - 1)
  }

  ghost predicate MayMatch(hash: HashFn, contents: Bytes, offset: nat, key: Bytes)
  {
    |contents| < 5 || FilterMatches(hash, contents, ShiftRight(offset, contents[|contents| - 1]), key)
  }

  method KeyMayMatch(hash: HashFn, contents: Bytes, offset: nat, key: Bytes) returns (may: bool)
    ensures may <==> MayMatch(hash, contents, offset, key)
  {
    if |contents| < 5 {
      return true;
    }
    var index := ShiftRight(offset, contents[|contents| - 1]);
    if index < NumFilters(contents) {
      var base := ArrayOffset(contents);
      var start := WordAt(contents, base + 4 * index);
      var limit := WordAt(contents, base + 4 * index + 4);
      if start <= limit && limit <= base {
        may := Bloom.KeyMayMatch(hash, key, contents[start..limit]);
        return;
      } else if start == limit {
        return false;
      }
    }
    return true;
  }

  // --- Building -----------------------------------------------------------------------------

  /** The keys collected for the next filter, one after the other, and where each starts. */
  ghost predicate Flat(keys: Bytes, start: seq<nat>, pending: seq<Bytes>)
  {
    |start| == |pending| && forall i {:trigger KeyAt(keys, start, i, pending[i])} :: 0 <= i < |start| ==> KeyAt(keys, start, i, pending[i])
  }

  ghost predicate KeyAt(keys: Bytes, start: seq<nat>, i: nat, key: Bytes)
    requires i < |start|
  {
    start[i] <= After(keys, start, i) <= |keys| && key == keys[start[i]..After(keys, start, i)]
  }

  function After(keys: Bytes, start: seq<nat>, i: nat): nat
    requires i < |start|
  {
    if i + 1 < |start| then start[i + 1] else |keys|
  }

  /** Where filter f ends. */
  function Limit(result: Bytes, offsets: seq<nat>, f: nat): nat
    requires f < |offsets|
  {
    if f + 1 < |offsets| then offsets[f + 1] else |result|
  }

  /** The policy: a hash, the bits per key and the number of probes. */
  datatype Policy = Policy(hash: HashFn, bitsPerKey: nat, k: Byte)

  /** What the filter of a group of keys lets through; a group without keys has no filter and lets nothing through. */
  ghost predicate Passes(p: Policy, group: seq<Bytes>, key: Bytes)
  {
    group != [] && LetsThrough(p.hash, p.bitsPerKey, p.k, group, key)
  }

  /** The filter tells about the key what the filter of the group should. */
  ghost predicate Tells(p: Policy, filter: Bytes, group: seq<Bytes>, key: Bytes)
  {
    Matches(p.hash, filter, key) <==> Passes(p, group, key)
  }

  ghost predicate IsFilter(p: Policy, filter: Bytes, group: seq<Bytes>)
  {
    forall key :: Tells(p, filter, group, key)
  }

  /** Filter f lies in the result and matches what the filter of its keys lets through. */
  ghost predicate FilterOk(p: Policy, result: Bytes, offsets: seq<nat>, group: seq<Bytes>, f: nat)
    requires f < |offsets|
  {
    && offsets[f] <= Limit(result, offsets, f) <= |result|
    && IsFilter(p, result[offsets[f]..Limit(result, offsets, f)], group)
  }

  ghost predicate FiltersOk(p: Policy, result: Bytes, offsets: seq<nat>, groups: seq<seq<Bytes>>)
  {
    |groups| == |offsets| && forall f :: 0 <= f < |offsets| ==> FilterOk(p, result, offsets, groups[f], f)
  }

  lemma AddedFlat(keys: Bytes, start: seq<nat>, pending: seq<Bytes>, key: Bytes)
    requires Flat(keys, start, pending)
    ensures Flat(keys + key, start + [|keys|], pending + [key])
  {
    var all, starts := keys + key, start + [|keys|];
    forall i | 0 <= i < |starts| ensures KeyAt(all, starts, i, (pending + [key])[i]) {
      if i < |start| {
        assert KeyAt(keys, start, i, pending[i]);
        assert all[starts[i]..After(all, starts, i)] == keys[start[i]..After(keys, start, i)];
      } else {
        assert all[|keys|..] == key;
      }
    }
  }

  lemma MoreFilters(p: Policy, result: Bytes, offsets: seq<nat>, groups: seq<seq<Bytes>>, pending: seq<Bytes>, filter: Bytes)
    requires FiltersOk(p, result, offsets, groups)
    requires IsFilter(p, filter, pending)
    ensures FiltersOk(p, result + filter, offsets + [|result|], groups + [pending])
  {
    var r, o, g := result + filter, offsets + [|result|], groups + [pending];
    forall f | 0 <= f < |o| ensures FilterOk(p, r, o, g[f], f) {
      if f < |offsets| {
        assert FilterOk(p, result, offsets, groups[f], f);
        assert r[o[f]..Limit(r, o, f)] == result[offsets[f]..Limit(result, offsets, f)];
      } else {
        assert r[|result|..] == filter && r[o[f]..Limit(r, o, f)] == filter;
      }
    }
  }

  // --- Reading what was built ---------------------------------------------------------------

  /** The finished block: filters, their offsets, where the offsets start, and the base. */
  function Assembled(result: Bytes, offsets: seq<nat>): Bytes
  {
    result + Fixed32s(offsets) + Fixed(4, |result|) + [BASE_LG]
  }

  lemma AssembledParts(result: Bytes, offsets: seq<nat>)
    requires |result| < WORD32
    ensures
      var c := Assembled(result, offsets);
      && |c| == |result| + 4 * |offsets| + 5 && c[|c| - 1] == BASE_LG
      && ArrayOffset(c) == |result| && NumFilters(c) == |offsets|
  {
    var c := Assembled(result, offsets);
    assert c[|c| - 5..|c| - 1] == Fixed(4, |result|);
    Stored32(|result|);
  }

  /** Word f of the offset array is where filter f starts; the one after the last is where the filters end. */
  lemma AssembledWord(result: Bytes, offsets: seq<nat>, f: nat)
    requires |result| < WORD32 && f <= |offsets| && (f < |offsets| ==> offsets[f] < WORD32)
    ensures WordAt(Assembled(result, offsets), |result| + 4 * f) == if f < |offsets| then offsets[f] else |result|
  {
    var c := Assembled(result, offsets);
    if f < |offsets| {
      assert c[|result| + 4 * f..|result| + 4 * f + 4] == Fixed32s(offsets)[4 * f..4 * f + 4];
      Word32At(offsets, f);
    } else {
      assert c[|result| + 4 * f..|result| + 4 * f + 4] == Fixed(4, |result|);
      Stored32(|result|);
    }
  }

  /** At every offset that leads to filter f, the finished block matches what that filter lets through. */
  lemma AssembledMatches(p: Policy, result: Bytes, offsets: seq<nat>, groups: seq<seq<Bytes>>, f: nat, offset: nat, key: Bytes)
    requires FiltersOk(p, result, offsets, groups) && |result| < WORD32
    requires f < |groups| && IndexOf(offset) == f
    ensures MayMatch(p.hash, Assembled(result, offsets), offset, key) <==> Passes(p, groups[f], key)
  {
    var c := Assembled(result, offsets);
    AssembledParts(result, offsets);
    ShiftBase(offset);
    var start, limit := offsets[f], Limit(result, offsets, f);
    assert FilterOk(p, result, offsets, groups[f], f);
    AssembledWord(result, offsets, f);
    AssembledWord(result, offsets, f + 1);
    assert c[start..limit] == result[start..limit];
    assert Tells(p, result[start..limit], groups[f], key);
  }

  lemma ShiftBase(n: nat)
    ensures ShiftRight(n, BASE_LG) == IndexOf(n)
  {
    ShiftFour(n, 7);
    ShiftFour(n / 16, 3);
    assert n / 16 / 16 == n / 256;
    assert ShiftRight(n / 256, 3) == ShiftRight(n / 512, 2) == ShiftRight(n / 1024, 1) == IndexOf(n);
  }

  lemma ShiftFour(n: nat, k: nat)
    ensures ShiftRight(n, k + 4) == ShiftRight(n / 16, k)
  {
    assert ShiftRight(n, k + 4) == ShiftRight(n / 2, k + 3) == ShiftRight(n / 4, k + 2);
    assert ShiftRight(n / 4, k + 2) == ShiftRight(n / 8, k + 1) == ShiftRight(n / 16, k);
  }

  class FilterBlockBuilder {
    const policy: Policy
    var keys: Bytes
    var start: seq<nat>
    var result: Bytes
    var offsets: seq<nat>
    /** The keys collected for the next filter, and the keys of each finished one. */
    ghost var pending: seq<Bytes>
    ghost var groups: seq<seq<Bytes>>

    ghost predicate Valid()
      reads this
    {
      Flat(keys, start, pending) && FiltersOk(policy, result, offsets, groups)
    }

    constructor (p: Policy)
      ensures Valid() && groups == [] && pending == [] && policy == p
    {
      policy := p;
      keys, start, result, offsets, pending, groups := [], [], [], [], [], [];
    }

    method AddKey(key: Bytes)
      requires Valid()
      modifies this
      ensures Valid() && pending == old(pending) + [key] && groups == old(groups)
    {
      AddedFlat(keys, start, pending, key);
      start := start + [|keys|];
      keys := keys + key;
      pending := pending + [key];
    }

    /** The list of keys from the flattened structure. */
    method KeyList() returns (list: seq<Bytes>)
      requires Flat(keys, start, pending)
      ensures list == pending
    {
      var ends := start + [|keys|];
      list := [];
      for i := 0 to |start|
        invariant list == pending[..i]
      {
        assert KeyAt(keys, start, i, pending[i]) && ends[i + 1] == After(keys, start, i);
        list := list + [keys[ends[i]..ends[i + 1]]];
      }
    }

    /** One more filter, for the keys collected so far. */
    method GenerateFilter()
      requires Valid()
      modifies this
      ensures Valid() && pending == [] && groups == old(groups) + [old(pending)]
    {
      if |start| == 0 {
        MoreFilters(policy, result, offsets, groups, [], []);
        assert result + [] == result;
        offsets := offsets + [|result|];
        groups := groups + [[]];
        return;
      }
      var list := KeyList();
      var filter := CreateFilter(policy.hash, policy.bitsPerKey, policy.k, list);
      MoreFilters(policy, result, offsets, groups, pending, filter);
      offsets := offsets + [|result|];
      result := result + filter;
      groups := groups + [pending];
      keys, start, pending := [], [], [];
    }

    /** A block starts at this offset: from here on keys go to the filter with its index. */
    method StartBlock(offset: nat)
      requires Valid() && IndexOf(offset) >= |groups|
      modifies this
      ensures Valid() && |groups| == IndexOf(offset) && old(groups) <= groups
      ensures |groups| == |old(groups)| ==> pending == old(pending)
      ensures |groups| > |old(groups)| ==> pending == [] && groups[|old(groups)|] == old(pending)
    {
      var index := IndexOf(offset);
      while index > |offsets|
        invariant Valid() && |offsets| <= index && old(groups) <= groups
        invariant |groups| == |old(groups)| ==> pending == old(pending)
        invariant |groups| > |old(groups)| ==> pending == [] && groups[|old(groups)|] == old(pending)
      {
        GenerateFilter();
      }
    }

    /**
     Looked up at any offset that leads to filter f, the finished block matches exactly what the filter of those keys
     lets through, and so every one of those keys.
     */
    method Finish() returns (contents: Bytes)
      requires Valid()
      modifies this
      ensures groups == (if old(pending) == [] then old(groups) else old(groups) + [old(pending)])
      ensures |contents| < WORD32 ==> Answers(policy, contents, groups)
    {
      if |start| != 0 {
        GenerateFilter();
      }
      contents := Assembled(result, offsets);
      if |contents| < WORD32 {
        forall f, offset, key | 0 <= f < |groups| && offset >= 0 && IndexOf(offset) == f
          ensures AnswersAt(policy, contents, groups[f], offset, key)
        {
          AssembledMatches(policy, result, offsets, groups, f, offset, key);
        }
      }
    }
  }

  /** The contents answer for every group of keys at every offset that leads to it. */
  ghost predicate Answers(p: Policy, contents: Bytes, groups: seq<seq<Bytes>>)
  {
    forall f, offset, key :: 0 <= f < |groups| && offset >= 0 && IndexOf(offset) == f ==> AnswersAt(p, contents, groups[f], offset, key)
  }

  ghost predicate AnswersAt(p: Policy, contents: Bytes, group: seq<Bytes>, offset: nat, key: Bytes)
  {
    MayMatch(p.hash, contents, offset, key) <==> Passes(p, group, key)
  }

  /** No false negatives. */
  lemma KeysMatch(p: Policy, contents: Bytes, groups: seq<seq<Bytes>>, f: nat, offset: nat, key: Bytes)
    requires Answers(p, contents, groups) && f < |groups| && IndexOf(offset) == f && key in groups[f]
    ensures MayMatch(p.hash, contents, offset, key)
  {
    MembersPass(p.hash, p.bitsPerKey, p.k, groups[f], key);
    assert AnswersAt(p, contents, groups[f], offset, key);
  }
}
