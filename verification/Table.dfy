/**
 Table files: a builder that cuts sorted entries into blocks and indexes them with shortened separators, and the
 lookup through index, filter and block. A block stands for its entries; its byte format is BlockFormat.
 */
module Table {
  import opened Keys
  import opened TwoLevel

  // --- Separators on internal keys ----------------------------------------------------------

  /** The user comparator's side of the bargain; InternalKeys.BytewiseProper shows that the bytewise comparator keeps it. */
  datatype Shortening = Shortening(
    separator: (UserKey, UserKey) -> UserKey,
    successor: UserKey -> UserKey,
    shorter: (UserKey, UserKey) -> bool)

  ghost predicate Proper(f: Shortening)
  {
    && (forall a, b :: a < b ==> a <= f.separator(a, b) < b)
    && (forall a, b :: a >= b ==> f.separator(a, b) == a)
    && (forall a :: a <= f.successor(a))
  }

  /** InternalKeyComparator::FindShortestSeparator. */
  function Separator(f: Shortening, start: IKey, limit: IKey): IKey
  {
    var tmp := f.separator(start.user, limit.user);
    if f.shorter(tmp, start.user) && start.user < tmp then IKey(tmp, MAX_SEQUENCE, Value) else start
  }

  /** InternalKeyComparator::FindShortSuccessor. */
  function Successor(f: Shortening, key: IKey): IKey
  {
    var tmp := f.successor(key.user);
    if f.shorter(tmp, key.user) && key.user < tmp then IKey(tmp, MAX_SEQUENCE, Value) else key
  }

  /** A separator after last: last itself, or a key whose user key lies strictly between last and what follows. */
  ghost predicate Cuts(sep: IKey, last: IKey, next: Option<IKey>)
  {
    sep == last || (last.user < sep.user && (next.Some? ==> sep.user < next.value.user))
  }

  lemma SeparatorCuts(f: Shortening, start: IKey, limit: IKey)
    requires Proper(f) && Ahead(start, limit)
    ensures Cuts(Separator(f, start, limit), start, Some(limit))
    ensures !Before(Separator(f, start, limit), start) && Before(Separator(f, start, limit), limit)
  {
    if start.user == limit.user { assert f.separator(start.user, limit.user) == start.user; }
  }

  lemma SuccessorCuts(f: Shortening, key: IKey)
    ensures Cuts(Successor(f, key), key, None) && !Before(Successor(f, key), key)
  {
  }

  // --- The file -----------------------------------------------------------------------------

  /** How a table is cut: block i holds entries cuts[i] up to cuts[i + 1], and starts at file offset handles[i]. */
  datatype Plan = Plan(entries: seq<Entry>, cuts: seq<nat>, handles: seq<nat>)

  ghost predicate PlanOk(p: Plan)
  {
    && Sorted(p.entries) && |p.cuts| == |p.handles| + 1 && p.cuts[0] == 0
    && (forall i, j :: 0 <= i < j < |p.cuts| ==> p.cuts[i] < p.cuts[j] <= |p.entries|)
    && (forall i, j :: 0 <= i < j < |p.handles| ==> p.handles[i] < p.handles[j])
  }

  ghost predicate Stored(file: map<nat, seq<Entry>>, p: Plan, i: int)
    requires PlanOk(p) && 0 <= i < |p.handles|
  {
    p.handles[i] in file && file[p.handles[i]] == p.entries[p.cuts[i]..p.cuts[i + 1]]
  }

  /** The entry that follows block i, if any. */
  ghost function Next(p: Plan, i: int): Option<IKey>
    requires PlanOk(p) && 0 <= i < |p.handles|
  {
    if p.cuts[i + 1] < |p.entries| then Some(p.entries[p.cuts[i + 1]].key) else None
  }

  ghost predicate Indexed(p: Plan, x: IndexEntry, i: int)
    requires PlanOk(p) && 0 <= i < |p.handles|
  {
    x.handle == p.handles[i] && Cuts(x.key, p.entries[p.cuts[i + 1] - 1].key, Next(p, i))
  }

  /** The block function: the entries of the block at a file offset. */
  function Fetch(file: map<nat, seq<Entry>>): (f: nat -> seq<Entry>)
    ensures forall h: nat :: f(h) == if h in file then file[h] else []
  {
    (h: nat) => if h in file then file[h] else []
  }

  /** A finished table: all entries are in blocks, and every block is stored and indexed. */
  ghost predicate TableOk(index: seq<IndexEntry>, file: map<nat, seq<Entry>>, p: Plan)
  {
    && PlanOk(p) && p.cuts[|p.cuts| - 1] == |p.entries| && |index| == |p.handles|
    && forall i :: 0 <= i < |index| ==> Stored(file, p, i) && Indexed(p, index[i], i)
  }

  // --- The index leads to the right block ---------------------------------------------------

  lemma {:induction false} FlatIs(index: seq<IndexEntry>, file: map<nat, seq<Entry>>, p: Plan, n: nat)
    requires TableOk(index, file, p) && n <= |index|
    ensures Flat(index, Fetch(file), n) == p.entries[..p.cuts[n]]
  {
    if n > 0 {
      FlatIs(index, file, p, n - 1);
      assert Stored(file, p, n - 1) && Indexed(p, index[n - 1], n - 1);
      assert p.cuts[n - 1] < p.cuts[n];
      assert p.entries[..p.cuts[n - 1]] + p.entries[p.cuts[n - 1]..p.cuts[n]] == p.entries[..p.cuts[n]];
    }
  }

  /** No entry up to the cut is after the separator, and every later entry is. */
  lemma CutOrder(p: Plan, x: IndexEntry, i: int, k: int)
    requires PlanOk(p) && 0 <= i < |p.handles| && Indexed(p, x, i) && 0 <= k < |p.entries|
    ensures k < p.cuts[i + 1] ==> !Before(x.key, p.entries[k].key)
    ensures k >= p.cuts[i + 1] ==> Before(x.key, p.entries[k].key)
  {
    var c := p.cuts[i + 1];
    assert p.cuts[i] < c;
    if k < c - 1 { assert Ahead(p.entries[k].key, p.entries[c - 1].key); }
    if k >= c {
      assert Ahead(p.entries[c - 1].key, p.entries[k].key);
      if k > c { assert Ahead(p.entries[c].key, p.entries[k].key); }
    }
  }

  /** Block i as the index finds it, and where it stands in the whole. */
  lemma BlockIs(index: seq<IndexEntry>, file: map<nat, seq<Entry>>, p: Plan, i: int)
    requires TableOk(index, file, p) && 0 <= i < |index|
    ensures p.cuts[i] < p.cuts[i + 1] <= |p.entries|
    ensures Fetch(file)(index[i].handle) == p.entries[p.cuts[i]..p.cuts[i + 1]]
    ensures Start(index, Fetch(file), i) == p.cuts[i] && Start(index, Fetch(file), i + 1) == p.cuts[i + 1]
    ensures Indexed(p, index[i], i)
  {
    assert Stored(file, p, i) && Indexed(p, index[i], i);
    FlatIs(index, file, p, i);
    FlatIs(index, file, p, i + 1);
  }

  lemma WholeIs(index: seq<IndexEntry>, file: map<nat, seq<Entry>>, p: Plan)
    requires TableOk(index, file, p)
    ensures Whole(index, Fetch(file)) == p.entries
  {
    FlatIs(index, file, p, |index|);
    assert p.entries[..p.cuts[|index|]] == p.entries;
  }

  lemma TableSeparated(index: seq<IndexEntry>, file: map<nat, seq<Entry>>, p: Plan)
    requires TableOk(index, file, p)
    ensures Separated(index, Fetch(file))
  {
    var fetch := Fetch(file);
    forall i, j | 0 <= i < |index| && 0 <= j < |fetch(index[i].handle)|
      ensures !Before(index[i].key, fetch(index[i].handle)[j].key)
    {
      NotAfterIndex(index, file, p, i, j);
    }
    forall i, k | 0 <= i < |index| && Start(index, fetch, i + 1) <= k < |Whole(index, fetch)|
      ensures Before(index[i].key, Whole(index, fetch)[k].key)
    {
      AfterIndex(index, file, p, i, k);
    }
  }

  lemma NotAfterIndex(index: seq<IndexEntry>, file: map<nat, seq<Entry>>, p: Plan, i: int, j: int)
    requires TableOk(index, file, p) && 0 <= i < |index| && 0 <= j < |Fetch(file)(index[i].handle)|
    ensures !Before(index[i].key, Fetch(file)(index[i].handle)[j].key)
  {
    BlockIs(index, file, p, i);
    CutOrder(p, index[i], i, p.cuts[i] + j);
  }

  lemma AfterIndex(index: seq<IndexEntry>, file: map<nat, seq<Entry>>, p: Plan, i: int, k: int)
    requires TableOk(index, file, p) && 0 <= i < |index|
    requires Start(index, Fetch(file), i + 1) <= k < |Whole(index, Fetch(file))|
    ensures Before(index[i].key, Whole(index, Fetch(file))[k].key)
  {
    WholeIs(index, file, p);
    BlockIs(index, file, p, i);
    CutOrder(p, index[i], i, k);
  }

  /** SaveValue keeps what it is handed only when the user key is the one looked up. */
  function Saved(handed: Option<Entry>, u: UserKey): Option<Entry>
  {
    if handed.Some? && handed.value.key.user == u then handed else None
  }

  /** What InternalGet hands to the saver when the filter does not object. */
  function Handed(index: seq<IndexEntry>, fetch: nat -> seq<Entry>, target: IKey): Option<Entry>
  {
    var i := SeekBlock(index, target, 0);
    if i == -1 then None
    else
      var b := fetch(index[i].handle);
      var q := SeekIndex(b, target);
      if q < |b| then Some(b[q]) else None
  }

  /** When the block that the separator leads to holds nothing at or after the target, the next entry is of another user key. */
  lemma NothingBeyond(p: Plan, x: IndexEntry, i: int, u: UserKey, s: nat)
    requires PlanOk(p) && 0 <= i < |p.handles| && Indexed(p, x, i) && !Before(x.key, Target(u, s))
    requires 0 < p.cuts[i + 1] && Before(p.entries[p.cuts[i + 1] - 1].key, Target(u, s))
    ensures p.cuts[i + 1] < |p.entries| ==> p.entries[p.cuts[i + 1]].key.user != u
  {
  }

  /** Looking into one block only is enough. */
  lemma OneBlockIsEnough(index: seq<IndexEntry>, file: map<nat, seq<Entry>>, p: Plan, u: UserKey, s: nat)
    requires TableOk(index, file, p)
    ensures Saved(Handed(index, Fetch(file), Target(u, s)), u) == Find(p.entries, u, s)
  {
    var fetch, target := Fetch(file), Target(u, s);
    WholeIs(index, file, p);
    TableSeparated(index, file, p);
    SeekLands(index, fetch, target);
    var i := SeekBlock(index, target, 0);
    if i != -1 {
      BlockIs(index, file, p, i);
      InBlock(p, index[i], i, u, s);
    }
  }

  lemma InBlock(p: Plan, x: IndexEntry, i: int, u: UserKey, s: nat)
    requires PlanOk(p) && 0 <= i < |p.handles| && Indexed(p, x, i) && !Before(x.key, Target(u, s))
    requires p.cuts[i] < p.cuts[i + 1] <= |p.entries|
    requires SeekIndex(p.entries, Target(u, s)) == p.cuts[i] + SeekIndex(p.entries[p.cuts[i]..p.cuts[i + 1]], Target(u, s))
    ensures
      var b := p.entries[p.cuts[i]..p.cuts[i + 1]];
      var q := SeekIndex(b, Target(u, s));
      Saved(if q < |b| then Some(b[q]) else None, u) == Find(p.entries, u, s)
  {
    var b := p.entries[p.cuts[i]..p.cuts[i + 1]];
    var q := SeekIndex(b, Target(u, s));
    if q == |b| {
      assert b[|b| - 1] == p.entries[p.cuts[i + 1] - 1];
      NothingBeyond(p, x, i, u, s);
    }
  }
}
