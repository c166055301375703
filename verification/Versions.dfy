/**
 Versions: the files of the seven levels, what makes them well formed, and Version::Get.
 */
module Versions {
  import opened Keys
  import opened Levels

  /** A table file: its size in bytes and the entries it holds. */
  datatype Table = Table(size: nat, entries: seq<Entry>)

  type Sst = File<Table>

  type Version = seq<seq<Sst>>

  function Largest(f: Sst): IKey
  {
    if f.body.entries == [] then f.smallest else f.body.entries[|f.body.entries| - 1].key
  }

  function Min(f: Sst): UserKey { f.smallest.user }

  function Max(f: Sst): UserKey { Largest(f).user }

  predicate Covers(f: Sst, u: UserKey) { Min(f) <= u <= Max(f) }

  /** The user-key ranges of the two files do not meet. */
  predicate Apart(f: Sst, g: Sst) { Max(f) < Min(g) || Max(g) < Min(f) }

  ghost predicate FileOk(f: Sst)
  {
    && f.body.entries != []
    && Sorted(f.body.entries)
    && f.smallest == f.body.entries[0].key
  }

  ghost function FileItems(f: Sst): set<Entry> { Items(f.body.entries) }

  ghost function LevelItems(fs: seq<Sst>): set<Entry>
  {
    set f, e | f in fs && e in f.body.entries :: e
  }

  /** All entries of levels l and below it. */
  ghost function DeepItems(v: Version, l: nat): set<Entry>
  {
    set k, e | l <= k < |v| && e in LevelItems(v[k]) :: e
  }

  ghost function AllItems(v: Version): set<Entry> { DeepItems(v, 0) }

  lemma InRange(f: Sst, e: Entry)
    requires FileOk(f) && e in f.body.entries
    ensures Covers(f, e.key.user)
  {
  }

  lemma ApartShareNothing(f: Sst, g: Sst)
    requires FileOk(f) && FileOk(g) && Apart(f, g)
    ensures Over(FileItems(f), FileItems(g))
  {
  }

  // --- Well-formed versions -----------------------------------------------------------------

  ghost predicate FilesOk(fs: seq<Sst>)
  {
    forall f :: f in fs ==> FileOk(f)
  }

  ghost predicate DistinctNumbers(fs: seq<Sst>)
  {
    forall i, j :: 0 <= i < j < |fs| ==> fs[i].number != fs[j].number
  }

  /** Sorted, with disjoint user-key ranges: what levels 1..6 must be. */
  ghost predicate Disjoint(fs: seq<Sst>)
  {
    forall i, j :: 0 <= i < j < |fs| ==> Max(fs[i]) < Min(fs[j])
  }

  /** In level 0 a file with a larger number is newer. */
  ghost predicate NumberedByAge(fs: seq<Sst>)
  {
    forall f, g {:trigger f in fs, g in fs} :: f in fs && g in fs && f.number > g.number ==> Over(FileItems(f), FileItems(g))
  }

  /** Every file of a level is newer than every file of a deeper level, user key by user key. */
  ghost predicate Layered(v: Version)
  {
    forall l, m, f, g :: 0 <= l < m < |v| && f in v[l] && g in v[m] ==> Over(FileItems(f), FileItems(g))
  }

  /** A file number names one file of the whole version. */
  ghost predicate CrossNumbers(v: Version)
  {
    forall l, m, f, g :: 0 <= l < m < |v| && f in v[l] && g in v[m] ==> f.number != g.number
  }

  ghost predicate VersionOk(v: Version)
  {
    && |v| == NUM_LEVELS
    && (forall l :: 0 <= l < |v| ==> FilesOk(v[l]) && InOrder(v[l]) && DistinctNumbers(v[l]))
    && (forall l :: 1 <= l < |v| ==> Disjoint(v[l]))
    && NumberedByAge(v[0])
    && Layered(v)
  }

  /** The code's own check on levels 1 and up: the largest key of a file comes before the smallest of the next. */
  ghost predicate KeyDisjoint(fs: seq<Sst>)
  {
    forall i, j :: 0 <= i < j < |fs| ==> Ahead(Largest(fs[i]), fs[j].smallest)
  }

  /** In levels 1 and up the files lie one after the other, but neighbours may share a boundary user key. */
  ghost predicate SortedLevels(v: Version)
  {
    && |v| == NUM_LEVELS
    && (forall l :: 0 <= l < |v| ==> FilesOk(v[l]))
    && (forall l :: 1 <= l < |v| ==> KeyDisjoint(v[l]))
  }

  /** What searching one level needs. */
  ghost predicate Searchable(v: Version)
  {
    SortedLevels(v) && DistinctNumbers(v[0]) && NumberedByAge(v[0])
  }

  /** What Version::Get needs of a version. */
  ghost predicate Readable(v: Version)
  {
    Searchable(v) && Layered(v)
  }

  lemma OkReadable(v: Version)
    requires VersionOk(v)
    ensures Readable(v)
  {
  }

  // --- Installing an edit -------------------------------------------------------------------

  /** One level of VersionSet::Builder::Apply and SaveTo. */
  function Replace(v: Version, l: nat, deleted: set<nat>, added: seq<Sst>): Version
    requires l < |v|
  {
    v[l := SaveLevel(v[l], PutAll([], added), deleted)]
  }

  lemma ReplaceExact(v: Version, l: nat, deleted: set<nat>, added: seq<Sst>)
    requires l < |v| && InOrder(v[l]) && DistinctNumbers(added)
    requires forall f, g :: f in v[l] && g in added ==> f.number != g.number
    requires forall g :: g in added ==> g.number !in deleted
    ensures InOrder(Replace(v, l, deleted, added)[l])
    ensures forall f :: f in Replace(v, l, deleted, added)[l] <==> (f in v[l] && f.number !in deleted) || f in added
  {
    PutAllExact([], added);
    SaveLevelExact(v[l], PutAll([], added), deleted);
  }

  /** A level in order whose members have distinct numbers and disjoint ranges is a disjoint level. */
  lemma LevelDisjoint(fs: seq<Sst>)
    requires InOrder(fs) && FilesOk(fs)
    requires forall f, g :: f in fs && g in fs && f != g ==> Apart(f, g)
    ensures Disjoint(fs)
  {
    forall i, j | 0 <= i < j < |fs| ensures Max(fs[i]) < Min(fs[j]) {
      assert Precedes(fs[i], fs[j]);
      assert fs[i] in fs && fs[j] in fs;
      InRange(fs[i], fs[i].body.entries[0]);
      InRange(fs[j], fs[j].body.entries[0]);
      PrecedesTotal(fs[i], fs[i]);
    }
  }

  lemma LevelDistinct(fs: seq<Sst>)
    requires InOrder(fs)
    requires forall f, g :: f in fs && g in fs && f != g ==> f.number != g.number
    ensures DistinctNumbers(fs)
  {
  }

  lemma DistinctMembers(fs: seq<Sst>)
    requires DistinctNumbers(fs)
    ensures forall f, g {:trigger f in fs, g in fs} :: f in fs && g in fs && f != g ==> f.number != g.number
  {
  }

  // --- Version::Get -------------------------------------------------------------------------

  function AddByNumber(fs: seq<Sst>, f: Sst): (r: seq<Sst>)
    ensures forall g :: g in r <==> g in fs || g == f
  {
    if fs == [] || f.number > fs[0].number then [f] + fs
    else
      var rest := AddByNumber(fs[1..], f);
      assert fs == [fs[0]] + fs[1..];
      [fs[0]] + rest
  }

  /** The files of level 0 whose range covers u, newest first. */
  function NewestFirst(fs: seq<Sst>, u: UserKey): (r: seq<Sst>)
    ensures forall f :: f in r <==> f in fs && Covers(f, u)
  {
    if fs == [] then []
    else
      var rest := NewestFirst(fs[1..], u);
      assert fs == [fs[0]] + fs[1..];
      if Covers(fs[0], u) then AddByNumber(rest, fs[0]) else rest
  }

  ghost predicate Descending(fs: seq<Sst>)
  {
    forall i, j :: 0 <= i < j < |fs| ==> fs[i].number > fs[j].number
  }

  lemma {:induction false} AddByNumberDescending(fs: seq<Sst>, f: Sst)
    requires Descending(fs)
    requires forall g :: g in fs ==> g.number != f.number
    ensures Descending(AddByNumber(fs, f))
  {
    if fs != [] && f.number <= fs[0].number {
      assert fs == [fs[0]] + fs[1..];
      assert fs[0] in fs;
      AddByNumberDescending(fs[1..], f);
      forall g | g in AddByNumber(fs[1..], f) ensures fs[0].number > g.number {}
    }
  }

  lemma {:induction false} NewestFirstDescending(fs: seq<Sst>, u: UserKey)
    requires DistinctNumbers(fs)
    ensures Descending(NewestFirst(fs, u))
  {
    if fs != [] {
      NewestFirstDescending(fs[1..], u);
      if Covers(fs[0], u) {
        AddByNumberDescending(NewestFirst(fs[1..], u), fs[0]);
      }
    }
  }

  /** Search the files in the given order and stop at the first hit. */
  function SearchEach(fs: seq<Sst>, u: UserKey, s: nat): Option<Entry>
  {
    if fs == [] then None
    else
      var r := Find(fs[0].body.entries, u, s);
      if r.Some? then r else SearchEach(fs[1..], u, s)
  }

  /** The index of the first file whose largest key is at or after the target. */
  function FindFile(fs: seq<Sst>, target: IKey): (i: nat)
    ensures i <= |fs|
    ensures forall j :: 0 <= j < i ==> Before(Largest(fs[j]), target)
    ensures i < |fs| ==> !Before(Largest(fs[i]), target)
  {
    if fs == [] || !Before(Largest(fs[0]), target) then 0 else 1 + FindFile(fs[1..], target)
  }

  lemma FindFileUnique(fs: seq<Sst>, target: IKey, i: nat)
    requires i <= |fs|
    requires forall j :: 0 <= j < i ==> Before(Largest(fs[j]), target)
    requires i < |fs| ==> !Before(Largest(fs[i]), target)
    ensures FindFile(fs, target) == i
  {
  }

  /** In levels 1 and up only one file can hold the answer. */
  function SearchOne(fs: seq<Sst>, u: UserKey, s: nat): Option<Entry>
  {
    var i := FindFile(fs, Target(u, s));
    if i < |fs| && Min(fs[i]) <= u then Find(fs[i].body.entries, u, s) else None
  }

  function SearchLevel(v: Version, l: nat, u: UserKey, s: nat): Option<Entry>
    requires l < |v|
  {
    if l == 0 then SearchEach(NewestFirst(v[0], u), u, s) else SearchOne(v[l], u, s)
  }

  /** Version::Get from level l down. */
  function SearchFrom(v: Version, l: nat, u: UserKey, s: nat): Option<Entry>
    decreases |v| - l
  {
    if l >= |v| then None
    else
      var r := SearchLevel(v, l, u, s);
      if r.Some? then r else SearchFrom(v, l + 1, u, s)
  }

  lemma FileOver(f: Sst, rest: seq<Sst>)
    requires forall g :: g in rest ==> Over(FileItems(f), FileItems(g))
    ensures Over(FileItems(f), LevelItems(rest))
  {
    forall x, y | x in FileItems(f) && y in LevelItems(rest) && x.key.user == y.key.user ensures x.key.sequence > y.key.sequence {
      var g :| g in rest && y in g.body.entries;
      assert y in FileItems(g);
    }
  }

  lemma FirstOver(fs: seq<Sst>)
    requires Descending(fs) && NumberedByAge(fs) && fs != []
    ensures Over(FileItems(fs[0]), LevelItems(fs[1..]))
  {
    var f, rest := fs[0], fs[1..];
    forall g | g in rest ensures Over(FileItems(f), FileItems(g)) {
      var i :| 0 <= i < |rest| && rest[i] == g;
      assert fs[i + 1] == g && f in fs && g in fs && fs[0].number > fs[i + 1].number;
    }
    FileOver(f, rest);
  }

  lemma {:induction false} SearchEachNewest(fs: seq<Sst>, u: UserKey, s: nat)
    requires FilesOk(fs) && Descending(fs) && NumberedByAge(fs)
    ensures IsNewest(LevelItems(fs), u, s, SearchEach(fs, u, s))
  {
    if fs != [] {
      var f, rest := fs[0], fs[1..];
      assert fs == [f] + rest;
      assert f in fs && FileOk(f) && forall g :: g in rest ==> g in fs;
      SearchEachNewest(rest, u, s);
      FindIsNewest(f.body.entries, u, s);
      FirstOver(fs);
      NewestOfLayers(FileItems(f), LevelItems(rest), u, s, Find(f.body.entries, u, s), SearchEach(rest, u, s));
      assert LevelItems(fs) == FileItems(f) + LevelItems(rest);
    }
  }

  /** Skipping the files whose range does not cover u loses nothing. */
  lemma SearchLevel0Newest(v: Version, u: UserKey, s: nat)
    requires Searchable(v)
    ensures IsNewest(LevelItems(v[0]), u, s, SearchLevel(v, 0, u, s))
  {
    var fs := NewestFirst(v[0], u);
    NewestFirstDescending(v[0], u);
    SearchEachNewest(fs, u, s);
    forall e | e in LevelItems(v[0]) && Sees(e, u, s) ensures e in LevelItems(fs) {
      var f :| f in v[0] && e in f.body.entries;
      InRange(f, e);
    }
    assert LevelItems(fs) <= LevelItems(v[0]);
  }

  lemma AtOrBeforeLargest(f: Sst, e: Entry)
    requires FileOk(f) && e in f.body.entries
    ensures e.key == Largest(f) || Ahead(e.key, Largest(f))
    ensures e.key == f.smallest || Ahead(f.smallest, e.key)
  {
  }

  /** Whatever a reader sees in the level is in the file the binary search names, or older than that file's largest key. */
  lemma SearchOneHit(fs: seq<Sst>, u: UserKey, s: nat, j: nat, e: Entry)
    requires FilesOk(fs) && KeyDisjoint(fs) && j < |fs| && e in fs[j].body.entries && Sees(e, u, s)
    ensures
      var i := FindFile(fs, Target(u, s));
      && i <= j && Min(fs[i]) <= u
      && (i < j ==> Largest(fs[i]).user == u && e.key.sequence < Largest(fs[i]).sequence <= s)
  {
    var i := FindFile(fs, Target(u, s));
    assert fs[j] in fs;
    AtOrBeforeLargest(fs[j], e);
    assert !Before(Largest(fs[j]), Target(u, s));
    assert i <= j;
    if i < j {
      assert fs[i] in fs && Ahead(Largest(fs[i]), fs[j].smallest);
      AtOrBeforeLargest(fs[i], fs[i].body.entries[|fs[i].body.entries| - 1]);
    } else {
      InRange(fs[j], e);
    }
  }

  /** In such a level the binary search names the only file that can hold the newest version of u at or below s. */
  lemma SearchOneNewest(fs: seq<Sst>, u: UserKey, s: nat)
    requires FilesOk(fs) && KeyDisjoint(fs)
    ensures IsNewest(LevelItems(fs), u, s, SearchOne(fs, u, s))
  {
    var i := FindFile(fs, Target(u, s));
    if i < |fs| && Min(fs[i]) <= u {
      assert fs[i] in fs;
      FindIsNewest(fs[i].body.entries, u, s);
    }
    forall e | e in LevelItems(fs) && Sees(e, u, s)
      ensures SearchOne(fs, u, s).Some? && e.key.sequence <= SearchOne(fs, u, s).value.key.sequence
    {
      var f :| f in fs && e in f.body.entries;
      var j :| 0 <= j < |fs| && fs[j] == f;
      SearchOneCovers(fs, u, s, j, e);
    }
  }

  lemma SearchOneCovers(fs: seq<Sst>, u: UserKey, s: nat, j: nat, e: Entry)
    requires FilesOk(fs) && KeyDisjoint(fs) && j < |fs| && e in fs[j].body.entries && Sees(e, u, s)
    ensures SearchOne(fs, u, s).Some? && e.key.sequence <= SearchOne(fs, u, s).value.key.sequence
  {
    SearchOneHit(fs, u, s, j, e);
    var i := FindFile(fs, Target(u, s));
    var t := fs[i].body.entries;
    assert fs[i] in fs;
    FoundCovers(t, u, s, if i < j then t[|t| - 1] else e);
  }

  lemma FoundCovers(t: seq<Entry>, u: UserKey, s: nat, e: Entry)
    requires Sorted(t) && e in t && Sees(e, u, s)
    ensures Find(t, u, s).Some? && e.key.sequence <= Find(t, u, s).value.key.sequence
  {
    FindIsNewest(t, u, s);
    assert e in Items(t);
  }

  // --- Searching some of the levels ---------------------------------------------------------

  /** Version::Get restricted to levels l..k-1. */
  function SearchIn(v: Version, l: nat, k: nat, u: UserKey, s: nat): Option<Entry>
    requires l <= k <= |v|
    decreases k - l
  {
    if l == k then None
    else
      var r := SearchLevel(v, l, u, s);
      if r.Some? then r else SearchIn(v, l + 1, k, u, s)
  }

  lemma {:induction false} SearchSplit(v: Version, l: nat, k: nat, u: UserKey, s: nat)
    requires l <= k <= |v|
    ensures
      var r := SearchIn(v, l, k, u, s);
      SearchFrom(v, l, u, s) == if r.Some? then r else SearchIn(v, k, |v|, u, s)
    decreases |v| - l
  {
    if l < k {
      SearchSplit(v, l + 1, k, u, s);
    } else if l < |v| {
      SearchSplit(v, l + 1, l + 1, u, s);
    }
  }

  ghost function ItemsIn(v: Version, l: nat, k: nat): set<Entry>
    requires k <= |v|
  {
    set m, e | l <= m < k && e in LevelItems(v[m]) :: e
  }

  ghost predicate LayeredIn(v: Version, l: nat, k: nat)
    requires k <= |v|
  {
    forall a, b, f, g :: l <= a < b < k && f in v[a] && g in v[b] ==> Over(FileItems(f), FileItems(g))
  }

  lemma {:induction false} SearchInNewest(v: Version, l: nat, k: nat, u: UserKey, s: nat)
    requires Searchable(v) && l <= k <= |v| && LayeredIn(v, l, k)
    ensures IsNewest(ItemsIn(v, l, k), u, s, SearchIn(v, l, k, u, s))
    decreases k - l
  {
    if l < k {
      SearchInNewest(v, l + 1, k, u, s);
      if l == 0 { SearchLevel0Newest(v, u, s); } else { SearchOneNewest(v[l], u, s); }
      LevelOverItems(v, l, k);
      NewestOfLayers(LevelItems(v[l]), ItemsIn(v, l + 1, k), u, s, SearchLevel(v, l, u, s), SearchIn(v, l + 1, k, u, s));
      assert ItemsIn(v, l, k) == LevelItems(v[l]) + ItemsIn(v, l + 1, k);
    }
  }

  lemma LevelOverItems(v: Version, l: nat, k: nat)
    requires l < k <= |v| && LayeredIn(v, l, k)
    ensures Over(LevelItems(v[l]), ItemsIn(v, l + 1, k))
  {
    forall x, y | x in LevelItems(v[l]) && y in ItemsIn(v, l + 1, k) && x.key.user == y.key.user
      ensures x.key.sequence > y.key.sequence
    {
      var f :| f in v[l] && x in f.body.entries;
      var m :| l + 1 <= m < k && y in LevelItems(v[m]);
      var g :| g in v[m] && y in g.body.entries;
      assert Over(FileItems(f), FileItems(g)) && x in FileItems(f) && y in FileItems(g);
    }
  }

  lemma SearchFromNewest(v: Version, l: nat, u: UserKey, s: nat)
    requires Readable(v) && l <= |v|
    ensures IsNewest(DeepItems(v, l), u, s, SearchFrom(v, l, u, s))
  {
    SearchSplit(v, l, l, u, s);
    SearchInNewest(v, l, |v|, u, s);
    assert ItemsIn(v, l, |v|) == DeepItems(v, l);
  }
}
