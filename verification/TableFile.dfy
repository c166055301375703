/**
 TableBuilder and Table::InternalGet, with the filter block.
 */
module TableFile {
  import opened Bytes
  import opened Keys
  import opened Coding
  import opened Bloom
  import FilterBlock
  import opened TwoLevel
  import opened Table

  // --- The plan grows -----------------------------------------------------------------------

  /** The entries that are not yet in a block. */
  function Open(p: Plan): seq<Entry>
    requires |p.cuts| > 0 && p.cuts[|p.cuts| - 1] <= |p.entries|
  {
    p.entries[p.cuts[|p.cuts| - 1]..]
  }

  /** What a builder has made so far: the last block may still lack its index entry. */
  ghost predicate Building(index: seq<IndexEntry>, file: map<nat, seq<Entry>>, p: Plan, pending: bool)
  {
    && PlanOk(p) && p.cuts[|p.cuts| - 1] <= |p.entries|
    && |index| == |p.handles| - (if pending then 1 else 0)
    && (|p.handles| > 0 && Open(p) == [] ==> pending) && (pending ==> |p.handles| > 0 && Open(p) == [])
    && (forall i {:trigger Stored(file, p, i)} :: 0 <= i < |p.handles| ==> Stored(file, p, i))
    && (forall i {:trigger Indexed(p, index[i], i)} :: 0 <= i < |index| ==> Indexed(p, index[i], i))
  }

  ghost predicate IsEmpty(p: Plan) { p.entries == [] && p.cuts == [0] && p.handles == [] }

  lemma EmptyPlan() returns (p: Plan)
    ensures IsEmpty(p) && PlanOk(p)
  {
    p := Plan([], [0], []);
  }

  /** One more entry; every finished block keeps its place and its index entry. */
  lemma GrowEntries(index: seq<IndexEntry>, file: map<nat, seq<Entry>>, p: Plan, e: Entry)
    requires Building(index, file, p, false)
    requires p.entries != [] ==> Ahead(p.entries[|p.entries| - 1].key, e.key)
    ensures Building(index, file, p.(entries := p.entries + [e]), false)
    ensures Open(p.(entries := p.entries + [e])) == Open(p) + [e]
  {
    var q := p.(entries := p.entries + [e]);
    AppendSorted(p.entries, e);
    assert Open(q) == Open(p) + [e];
    forall i | 0 <= i < |q.handles| ensures Stored(file, q, i) {
      assert Stored(file, p, i);
      assert p.cuts[i] < p.cuts[i + 1];
      assert q.entries[q.cuts[i]..q.cuts[i + 1]] == p.entries[p.cuts[i]..p.cuts[i + 1]];
    }
    forall i | 0 <= i < |index| ensures Indexed(q, index[i], i) {
      assert Indexed(p, index[i], i);
      assert p.cuts[i] < p.cuts[i + 1];
      if i + 1 < |p.cuts| - 1 { assert p.cuts[i + 1] < p.cuts[|p.cuts| - 1]; }
    }
  }

  lemma AppendSorted(t: seq<Entry>, e: Entry)
    requires Sorted(t) && (t != [] ==> Ahead(t[|t| - 1].key, e.key))
    ensures Sorted(t + [e])
  {
  }

  /** The pending index entry is made when the next key is known. */
  lemma GrowIndexed(index: seq<IndexEntry>, file: map<nat, seq<Entry>>, p: Plan, e: Entry, f: Shortening)
    requires Building(index, file, p, true) && Proper(f)
    requires Ahead(p.entries[|p.entries| - 1].key, e.key)
    ensures
      var last := p.entries[|p.entries| - 1].key;
      var x := IndexEntry(Separator(f, last, e.key), p.handles[|p.handles| - 1]);
      var q := p.(entries := p.entries + [e]);
      Building(index + [x], file, q, false) && Open(q) == [e]
  {
    var n := |p.handles| - 1;
    assert p.cuts[n] < p.cuts[n + 1];
    var last := p.entries[|p.entries| - 1].key;
    var x := IndexEntry(Separator(f, last, e.key), p.handles[n]);
    var q := p.(entries := p.entries + [e]);
    SeparatorCuts(f, last, e.key);
    AppendSorted(p.entries, e);
    assert Open(q) == [e];
    forall i | 0 <= i < |q.handles| ensures Stored(file, q, i) {
      assert Stored(file, p, i);
      assert p.cuts[i] < p.cuts[i + 1];
      assert q.entries[q.cuts[i]..q.cuts[i + 1]] == p.entries[p.cuts[i]..p.cuts[i + 1]];
    }
    forall i | 0 <= i < |index + [x]| ensures Indexed(q, (index + [x])[i], i) {
      assert p.cuts[i] < p.cuts[i + 1];
      if i < |index| {
        assert Indexed(p, index[i], i);
        assert p.cuts[i + 1] < p.cuts[n + 1];
      }
    }
  }

  /** The open entries become a block. */
  lemma CutBlock(index: seq<IndexEntry>, file: map<nat, seq<Entry>>, p: Plan, offset: nat)
    requires Building(index, file, p, false) && Open(p) != []
    requires forall i :: 0 <= i < |p.handles| ==> p.handles[i] < offset
    ensures
      var q := p.(cuts := p.cuts + [|p.entries|], handles := p.handles + [offset]);
      Building(index, file[offset := Open(p)], q, true)
  {
    var q := p.(cuts := p.cuts + [|p.entries|], handles := p.handles + [offset]);
    var g := file[offset := Open(p)];
    forall i, j | 0 <= i < j < |q.cuts| ensures q.cuts[i] < q.cuts[j] <= |q.entries| {
      if i < |p.cuts| - 1 { assert p.cuts[i] < p.cuts[|p.cuts| - 1]; }
    }
    forall i | 0 <= i < |q.handles| ensures Stored(g, q, i) {
      if i < |p.handles| { assert Stored(file, p, i); }
    }
    forall i | 0 <= i < |index| ensures Indexed(q, index[i], i) {
      assert Indexed(p, index[i], i);
    }
  }

  /** The last index entry. */
  lemma CloseIndex(index: seq<IndexEntry>, file: map<nat, seq<Entry>>, p: Plan, pending: bool, f: Shortening)
    requires Building(index, file, p, pending) && Open(p) == []
    ensures
      var x := index + if pending then [IndexEntry(Successor(f, p.entries[|p.entries| - 1].key), p.handles[|p.handles| - 1])] else [];
      TableOk(x, file, p)
  {
  }

  // --- The filter follows the blocks --------------------------------------------------------

  /** The keys of filter f, whether it is finished or still being collected. */
  ghost predicate Collected(groups: seq<seq<Bytes>>, open: seq<Bytes>, f: nat, key: Bytes)
  {
    if f < |groups| then key in groups[f] else f == |groups| && key in open
  }

  /** Every user key is in the filter of its block, and those of the open block in the filter being collected. */
  ghost predicate Filtered(groups: seq<seq<Bytes>>, open: seq<Bytes>, p: Plan, offset: nat, encode: UserKey -> Bytes)
    requires PlanOk(p) && p.cuts[|p.cuts| - 1] <= |p.entries|
  {
    && |groups| == FilterBlock.IndexOf(offset)
    && (forall i, k {:trigger Collected(groups, open, FilterBlock.IndexOf(p.handles[i]), encode(p.entries[k].key.user))} ::
         0 <= i < |p.handles| && p.cuts[i] <= k < p.cuts[i + 1] ==>
           Collected(groups, open, FilterBlock.IndexOf(p.handles[i]), encode(p.entries[k].key.user)))
    && (forall k :: p.cuts[|p.cuts| - 1] <= k < |p.entries| ==> encode(p.entries[k].key.user) in open)
  }

  lemma EmptyFiltered(groups: seq<seq<Bytes>>, open: seq<Bytes>, p: Plan, encode: UserKey -> Bytes)
    requires IsEmpty(p) && PlanOk(p) && groups == []
    ensures Filtered(groups, open, p, 0, encode)
  {
  }

  lemma FilterAdd(groups: seq<seq<Bytes>>, open: seq<Bytes>, p: Plan, offset: nat, encode: UserKey -> Bytes, e: Entry)
    requires PlanOk(p) && p.cuts[|p.cuts| - 1] <= |p.entries| && Filtered(groups, open, p, offset, encode)
    requires PlanOk(p.(entries := p.entries + [e]))
    ensures Filtered(groups, open + [encode(e.key.user)], p.(entries := p.entries + [e]), offset, encode)
  {
    var q := p.(entries := p.entries + [e]);
    forall i, k | 0 <= i < |q.handles| && q.cuts[i] <= k < q.cuts[i + 1]
      ensures Collected(groups, open + [encode(e.key.user)], FilterBlock.IndexOf(q.handles[i]), encode(q.entries[k].key.user))
    {
      assert Collected(groups, open, FilterBlock.IndexOf(p.handles[i]), encode(p.entries[k].key.user));
    }
  }

  /** The block just cut starts at the old offset, whose filter is the one being collected. */
  lemma FilterCut(groups: seq<seq<Bytes>>, open: seq<Bytes>, p: Plan, offset: nat, encode: UserKey -> Bytes,
                  later: seq<seq<Bytes>>, open': seq<Bytes>, offset': nat)
    requires PlanOk(p) && p.cuts[|p.cuts| - 1] <= |p.entries| && Filtered(groups, open, p, offset, encode)
    requires PlanOk(p.(cuts := p.cuts + [|p.entries|], handles := p.handles + [offset]))
    requires groups <= later && |later| == FilterBlock.IndexOf(offset')
    requires |later| == |groups| ==> open' == open
    requires |later| > |groups| ==> later[|groups|] == open
    ensures Filtered(later, open', p.(cuts := p.cuts + [|p.entries|], handles := p.handles + [offset]), offset', encode)
  {
    var q := p.(cuts := p.cuts + [|p.entries|], handles := p.handles + [offset]);
    forall i, k | 0 <= i < |q.handles| && q.cuts[i] <= k < q.cuts[i + 1]
      ensures Collected(later, open', FilterBlock.IndexOf(q.handles[i]), encode(q.entries[k].key.user))
    {
      if i < |p.handles| {
        assert Collected(groups, open, FilterBlock.IndexOf(p.handles[i]), encode(p.entries[k].key.user));
      }
    }
  }

  /** A filter block never rules out a key of the block it is asked about. */
  ghost predicate NoFalseNegatives(hash: HashFn, contents: Bytes, p: Plan, encode: UserKey -> Bytes)
    requires PlanOk(p)
  {
    forall i, k :: 0 <= i < |p.handles| && p.cuts[i] <= k < p.cuts[i + 1] ==>
      FilterBlock.MayMatch(hash, contents, p.handles[i], encode(p.entries[k].key.user))
  }

  // --- The builder --------------------------------------------------------------------------

  class TableBuilder {
    const short: Shortening
    /** The bytes of a user key, as the filter policy sees them. */
    const encode: UserKey -> Bytes
    const filter: FilterBlock.FilterBlockBuilder?
    var file: map<nat, seq<Entry>>
    var offset: nat
    var dataBlock: seq<Entry>
    var index: seq<IndexEntry>
    var lastKey: IKey
    var pending: bool
    var pendingHandle: nat
    var closed: bool
    ghost var plan: Plan

    ghost predicate Core()
      reads this
    {
      && Building(index, file, plan, pending)
      && dataBlock == Open(plan)
      && (plan.entries != [] ==> lastKey == plan.entries[|plan.entries| - 1].key)
      && (pending ==> pendingHandle == plan.handles[|plan.handles| - 1])
      && (forall i :: 0 <= i < |plan.handles| ==> plan.handles[i] < offset)
    }

    ghost predicate Valid()
      reads this, filter
    {
      Core() && (filter != null ==> filter.Valid() && Filtered(filter.groups, filter.pending, plan, offset, encode))
    }

    constructor (f: Shortening, bytes: UserKey -> Bytes, builder: FilterBlock.FilterBlockBuilder?)
      requires builder != null ==> builder.Valid() && builder.groups == [] && builder.pending == []
      modifies builder
      ensures Valid() && !closed && plan.entries == [] && short == f && encode == bytes && filter == builder
    {
      ghost var p := EmptyPlan();
      if builder != null {
        builder.StartBlock(0);
        EmptyFiltered(builder.groups, builder.pending, p, bytes);
      }
      short, encode, filter := f, bytes, builder;
      file, offset, dataBlock, index, pending, pendingHandle, closed := map[], 0, [], [], false, 0, false;
      lastKey := IKey(0.0, 0, Value);
      plan := p;
    }

    /** The index entry of the last block, once the entry after it is known. */
    method IndexBlock(e: Entry)
      requires Proper(short) && Core() && pending && Ahead(lastKey, e.key)
      modifies `index, `lastKey, `pending
      ensures !pending && Building(index, file, plan.(entries := plan.entries + [e]), false)
      ensures Open(plan.(entries := plan.entries + [e])) == [e]
    {
      GrowIndexed(index, file, plan, e, short);
      lastKey := Separator(short, lastKey, e.key);
      index := index + [IndexEntry(lastKey, pendingHandle)];
      pending := false;
    }

    /** Add's work on the index and the data block. */
    method Append(key: IKey, value: Bytes)
      requires Proper(short) && Core() && (plan.entries != [] ==> Ahead(lastKey, key))
      modifies `index, `lastKey, `pending, `dataBlock, `plan
      ensures Core() && dataBlock != []
      ensures plan == old(plan).(entries := old(plan).entries + [Entry(key, value)])
    {
      var e := Entry(key, value);
      ghost var q := plan.(entries := plan.entries + [e]);
      if pending {
        IndexBlock(e);
      } else {
        GrowEntries(index, file, plan, e);
      }
      HoldEntry(e, q);
    }

    /** The data block gains the entry. */
    method HoldEntry(e: Entry, ghost q: Plan)
      requires !pending && Building(index, file, q, false) && Open(q) == dataBlock + [e] && q.entries[|q.entries| - 1] == e
      requires forall i :: 0 <= i < |q.handles| ==> q.handles[i] < offset
      modifies `lastKey, `dataBlock, `plan
      ensures Core() && dataBlock != [] && plan == q
    {
      lastKey := e.key;
      dataBlock := dataBlock + [e];
      plan := q;
    }

    /** Add, up to the point where the block may be full. */
    method AddEntry(key: IKey, value: Bytes)
      requires Proper(short) && Valid() && (plan.entries != [] ==> Ahead(lastKey, key))
      modifies `index, `lastKey, `pending, `dataBlock, `plan, filter
      ensures Valid() && plan.entries == old(plan.entries) + [Entry(key, value)]
    {
      ghost var before := plan;
      Append(key, value);
      if filter != null {
        FilterAdd(filter.groups, filter.pending, before, offset, encode, Entry(key, value));
        filter.AddKey(encode(key.user));
      }
    }

    /** Add; full says that the size estimate has reached the block size, size is the length of the encoded block. */
    method Add(key: IKey, value: Bytes, full: bool, size: nat)
      requires Proper(short) && Valid() && !closed
      requires plan.entries != [] ==> Ahead(lastKey, key)
      modifies this, filter
      ensures Valid() && !closed && plan.entries == old(plan.entries) + [Entry(key, value)]
    {
      AddEntry(key, value);
      if full {
        Flush(size);
      }
    }

    /** Flush's work on the file. */
    method WriteBlock(size: nat)
      requires Core() && dataBlock != []
      modifies `file, `pendingHandle, `offset, `dataBlock, `pending, `plan
      ensures Core() && dataBlock == [] && offset == old(offset) + size + 5
      ensures plan == old(plan).(cuts := old(plan).cuts + [|old(plan).entries|], handles := old(plan).handles + [old(offset)])
    {
      CutBlock(index, file, plan, offset);
      plan := plan.(cuts := plan.cuts + [|plan.entries|], handles := plan.handles + [offset]);
      file := file[offset := dataBlock];
      pendingHandle := offset;
      offset := offset + size + 5;
      dataBlock := [];
      pending := true;
    }

    method Flush(size: nat)
      requires Valid() && !closed
      modifies this, filter
      ensures Valid() && !closed && dataBlock == [] && plan.entries == old(plan.entries)
    {
      if dataBlock == [] {
        return;
      }
      ghost var before, start := plan, offset;
      WriteBlock(size);
      if filter != null {
        ghost var groups, open := filter.groups, filter.pending;
        filter.StartBlock(offset);
        FilterCut(groups, open, before, start, encode, filter.groups, filter.pending, offset);
      }
    }

    /** Finish's work on the index. */
    method CloseLast()
      requires Core() && dataBlock == []
      modifies `index, `lastKey, `pending
      ensures TableOk(index, file, plan)
    {
      CloseIndex(index, file, plan, pending, short);
      if pending {
        lastKey := Successor(short, lastKey);
        index := index + [IndexEntry(lastKey, pendingHandle)];
        pending := false;
      }
    }

    /** Finish's work on the filter. */
    method FinishFilter() returns (contents: Option<Bytes>)
      requires Valid()
      modifies filter
      ensures contents.Some? <==> filter != null
      ensures filter != null && |contents.value| < WORD32 ==> FilterDone(filter, contents.value, plan, encode)
    {
      contents := None;
      if filter != null {
        ghost var groups, open := filter.groups, filter.pending;
        var c := filter.Finish();
        contents := Some(c);
        if |c| < WORD32 { FilterFinished(filter.policy, c, filter.groups, groups, open, plan, offset, encode); }
      }
    }

    method Finish(size: nat) returns (contents: Option<Bytes>)
      requires Valid() && !closed
      modifies this, filter
      ensures closed && plan.entries == old(plan.entries) && TableOk(index, file, plan)
      ensures contents.Some? <==> filter != null
      ensures filter != null && |contents.value| < WORD32 ==> FilterDone(filter, contents.value, plan, encode)
    {
      Flush(size);
      contents := FinishFilter();
      CloseLast();
      closed := true;
    }
  }

  /** The filter block answers for the keys it was given, and these include the keys of every data block. */
  ghost predicate FilterDone(filter: FilterBlock.FilterBlockBuilder, contents: Bytes, p: Plan, encode: UserKey -> Bytes)
    reads filter
  {
    PlanOk(p) && FilterBlock.Answers(filter.policy, contents, filter.groups) && NoFalseNegatives(filter.policy.hash, contents, p, encode)
  }

  lemma FilterFinished(policy: FilterBlock.Policy, contents: Bytes, all: seq<seq<Bytes>>, groups: seq<seq<Bytes>>, open: seq<Bytes>, p: Plan,
                       offset: nat, encode: UserKey -> Bytes)
    requires PlanOk(p) && p.cuts[|p.cuts| - 1] <= |p.entries| && Filtered(groups, open, p, offset, encode)
    requires all == if open == [] then groups else groups + [open]
    requires FilterBlock.Answers(policy, contents, all)
    ensures NoFalseNegatives(policy.hash, contents, p, encode)
  {
    forall i, k | 0 <= i < |p.handles| && p.cuts[i] <= k < p.cuts[i + 1]
      ensures FilterBlock.MayMatch(policy.hash, contents, p.handles[i], encode(p.entries[k].key.user))
    {
      var f, key := FilterBlock.IndexOf(p.handles[i]), encode(p.entries[k].key.user);
      assert Collected(groups, open, f, key);
      assert f < |all| && key in all[f];
      FilterBlock.KeysMatch(policy, contents, all, f, p.handles[i], key);
    }
  }

  /** Table::InternalGet: what is handed to the saver. */
  method InternalGet(index: seq<IndexEntry>, file: map<nat, seq<Entry>>, filter: Option<Bytes>, hash: HashFn,
                     encode: UserKey -> Bytes, u: UserKey, s: nat, ghost p: Plan) returns (handed: Option<Entry>)
    requires TableOk(index, file, p) && (filter.Some? ==> NoFalseNegatives(hash, filter.value, p, encode))
    ensures Saved(handed, u) == Find(p.entries, u, s)
  {
    var target := Target(u, s);
    OneBlockIsEnough(index, file, p, u, s);
    var i := SeekBlock(index, target, 0);
    if i == -1 {
      return None;
    }
    BlockIs(index, file, p, i);
    var block := Fetch(file)(index[i].handle);
    if filter.Some? {
      var may := FilterBlock.KeyMayMatch(hash, filter.value, index[i].handle, encode(u));
      if !may {
        RuledOut(hash, filter.value, p, encode, i, u, target);
        return None;
      }
    }
    var q := SeekIndex(block, target);
    if q < |block| {
      return Some(block[q]);
    }
    return None;
  }

  /** A block that the filter rules out has no entry of the user key. */
  lemma RuledOut(hash: HashFn, contents: Bytes, p: Plan, encode: UserKey -> Bytes, i: int, u: UserKey, target: IKey)
    requires PlanOk(p) && 0 <= i < |p.handles| && NoFalseNegatives(hash, contents, p, encode)
    requires p.cuts[i] < p.cuts[i + 1] <= |p.entries|
    requires !FilterBlock.MayMatch(hash, contents, p.handles[i], encode(u))
    ensures
      var b := p.entries[p.cuts[i]..p.cuts[i + 1]];
      var q := SeekIndex(b, target);
      Saved(if q < |b| then Some(b[q]) else None, u) == None
  {
  }
}
