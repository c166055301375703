/**
 NewIterator: the memtables, the files of level 0 and one concatenation for each deeper level are merged, and DBIter shows
 what the snapshot may see of the merge.
 */
module Iterators {
  import opened Bytes
  import opened Keys
  import opened Levels
  import opened Versions
  import opened Compactions
  import opened Lsm
  import opened LsmSteps
  import Merger
  import TwoLevel
  import DbIter

  // --- The concatenating iterator of a level ------------------------------------------------

  /** LevelFileNumIterator: the largest key of each file and its number. */
  function LevelIndex(fs: seq<Sst>): (ix: seq<TwoLevel.IndexEntry>)
    ensures |ix| == |fs| && forall i :: 0 <= i < |fs| ==> ix[i] == TwoLevel.IndexEntry(Largest(fs[i]), fs[i].number)
  {
    seq(|fs|, i requires 0 <= i < |fs| => TwoLevel.IndexEntry(Largest(fs[i]), fs[i].number))
  }

  /** The entries of the file with number n. */
  function Numbered(fs: seq<Sst>, n: nat): seq<Entry>
  {
    if fs == [] then [] else if fs[0].number == n then fs[0].body.entries else Numbered(fs[1..], n)
  }

  /** GetFileIterator. */
  function FetchFile(fs: seq<Sst>): (f: nat -> seq<Entry>)
    ensures forall n: nat :: f(n) == Numbered(fs, n)
  {
    (n: nat) => Numbered(fs, n)
  }

  lemma {:induction false} NumberedIs(fs: seq<Sst>, i: nat)
    requires DistinctNumbers(fs) && i < |fs|
    ensures Numbered(fs, fs[i].number) == fs[i].body.entries
  {
    if i > 0 {
      assert fs[0].number != fs[i].number;
      NumberedIs(fs[1..], i - 1);
    }
  }

  lemma {:induction false} LevelFlat(fs: seq<Sst>, n: nat)
    requires DistinctNumbers(fs) && n <= |fs|
    ensures TwoLevel.Flat(LevelIndex(fs), FetchFile(fs), n) == Concat(fs[..n])
  {
    if n > 0 {
      LevelFlat(fs, n - 1);
      NumberedIs(fs, n - 1);
      assert fs[..n] == fs[..n - 1] + [fs[n - 1]];
      ConcatSnoc(fs[..n - 1], fs[n - 1]);
    }
  }

  /** The index keys of a sorted level separate its files, so the two-level iterator is a cursor over the whole level. */
  lemma LevelSeparated(fs: seq<Sst>)
    requires FilesOk(fs) && KeyDisjoint(fs) && DistinctNumbers(fs)
    ensures TwoLevel.Separated(LevelIndex(fs), FetchFile(fs))
    ensures TwoLevel.Whole(LevelIndex(fs), FetchFile(fs)) == Concat(fs)
  {
    var ix, fetch := LevelIndex(fs), FetchFile(fs);
    LevelFlat(fs, |fs|);
    assert fs[..|fs|] == fs;
    forall i, j | 0 <= i < |ix| && 0 <= j < |fetch(ix[i].handle)| ensures !Before(ix[i].key, fetch(ix[i].handle)[j].key) {
      NumberedIs(fs, i);
      assert fs[i] in fs;
      AtOrBeforeLargest(fs[i], fs[i].body.entries[j]);
    }
    forall i, k | 0 <= i < |ix| && TwoLevel.Start(ix, fetch, i + 1) <= k < |TwoLevel.Whole(ix, fetch)|
      ensures Before(ix[i].key, TwoLevel.Whole(ix, fetch)[k].key)
    {
      LaterFile(fs, i, k);
    }
  }

  lemma LaterBlock(ix: seq<TwoLevel.IndexEntry>, fetch: nat -> seq<Entry>, i: nat, m: nat, j: nat, k: nat)
    requires i < |ix| && m < |ix| && j < |fetch(ix[m].handle)|
    requires k == TwoLevel.Start(ix, fetch, m) + j && TwoLevel.Start(ix, fetch, i + 1) <= k
    ensures i < m
  {
    if m <= i { TwoLevel.FlatPrefix(ix, fetch, m + 1, i + 1); }
  }

  lemma LaterFile(fs: seq<Sst>, i: nat, k: nat)
    requires FilesOk(fs) && KeyDisjoint(fs) && DistinctNumbers(fs) && i < |fs|
    requires TwoLevel.Start(LevelIndex(fs), FetchFile(fs), i + 1) <= k < |TwoLevel.Whole(LevelIndex(fs), FetchFile(fs))|
    ensures Before(Largest(fs[i]), TwoLevel.Whole(LevelIndex(fs), FetchFile(fs))[k].key)
  {
    var ix, fetch := LevelIndex(fs), FetchFile(fs);
    var m, j := TwoLevel.PlaceIn(ix, fetch, |ix|, k);
    TwoLevel.BlockAt(ix, fetch, m, j);
    NumberedIs(fs, m);
    LaterBlock(ix, fetch, i, m, j, k);
    assert fs[m] in fs && Ahead(Largest(fs[i]), fs[m].smallest);
    AtOrBeforeLargest(fs[m], fs[m].body.entries[j]);
  }

  // --- Merging ------------------------------------------------------------------------------

  /** Two merges without a common version of a key merge into one. */
  lemma JoinMerges(cs: seq<seq<Entry>>, m: seq<Entry>, ds: seq<seq<Entry>>, n: seq<Entry>)
    requires Merger.IsMerge(cs, m) && Merger.IsMerge(ds, n) && NoTies(Items(m), Items(n))
    ensures Merger.IsMerge(cs + ds, MergeTwo(m, n))
  {
    var all, r := cs + ds, MergeTwo(m, n);
    MergeTwoSorted(m, n);
    forall k | 0 <= k < |r| ensures Merger.Held(all, r[k]) {
      assert r[k] in r;
      if r[k] in m { HeldLeft(cs, ds, m, r[k]); } else { HeldRight(cs, ds, n, r[k]); }
    }
    forall i, j, e | 0 <= i < j < |all| && e in all[i] ensures e !in all[j] {
      if i < |cs| <= j {
        InMerge(cs, m, i, e);
        assert e !in n by { assert e in n ==> e in Items(n); }
        OutsideMerge(ds, n, j - |cs|, e);
      }
    }
    forall i, j | 0 <= i < |all| && 0 <= j < |all[i]| ensures all[i][j] in r {
      if i < |cs| { InMerge(cs, m, i, all[i][j]); } else { InMerge(ds, n, i - |cs|, all[i][j]); }
    }
  }

  lemma InMerge(cs: seq<seq<Entry>>, m: seq<Entry>, i: nat, e: Entry)
    requires Merger.IsMerge(cs, m) && i < |cs| && e in cs[i]
    ensures e in m && e in Items(m)
  {
    var j :| 0 <= j < |cs[i]| && cs[i][j] == e;
  }

  lemma OutsideMerge(cs: seq<seq<Entry>>, m: seq<Entry>, i: nat, e: Entry)
    requires Merger.IsMerge(cs, m) && i < |cs| && e !in m
    ensures e !in cs[i]
  {
    forall j | 0 <= j < |cs[i]| ensures cs[i][j] != e {}
  }

  lemma HeldLeft(cs: seq<seq<Entry>>, ds: seq<seq<Entry>>, m: seq<Entry>, e: Entry)
    requires Merger.IsMerge(cs, m) && e in m
    ensures Merger.Held(cs + ds, e)
  {
    var k :| 0 <= k < |m| && m[k] == e;
    assert Merger.Held(cs, m[k]);
    var i :| 0 <= i < |cs| && e in cs[i];
    assert (cs + ds)[i] == cs[i];
  }

  lemma HeldRight(cs: seq<seq<Entry>>, ds: seq<seq<Entry>>, n: seq<Entry>, e: Entry)
    requires Merger.IsMerge(ds, n) && e in n
    ensures Merger.Held(cs + ds, e)
  {
    var k :| 0 <= k < |n| && n[k] == e;
    assert Merger.Held(ds, n[k]);
    var i :| 0 <= i < |ds| && e in ds[i];
    assert (cs + ds)[|cs| + i] == ds[i];
  }

  lemma OneMerge(t: seq<Entry>)
    requires Sorted(t)
    ensures Merger.IsMerge([t], t)
  {
    forall k | 0 <= k < |t| ensures Merger.Held([t], t[k]) { assert t[k] in [t][0]; }
  }

  // --- The sources of a version ---------------------------------------------------------------

  function FileLists(fs: seq<Sst>): (r: seq<seq<Entry>>)
    ensures |r| == |fs| && forall i :: 0 <= i < |fs| ==> r[i] == fs[i].body.entries
  {
    seq(|fs|, i requires 0 <= i < |fs| => fs[i].body.entries)
  }

  /** One concatenation for each level from l down that has files. */
  ghost function DeepLists(v: Version, l: nat): seq<seq<Entry>>
    decreases |v| - l
  {
    if l >= |v| then []
    else (if v[l] == [] then [] else [Concat(v[l])]) + DeepLists(v, l + 1)
  }

  /** Every entry of a file comes before every entry of the files behind it. */
  lemma FileAhead(fs: seq<Sst>, x: Entry, y: Entry)
    requires FilesOk(fs) && KeyDisjoint(fs) && fs != [] && x in fs[0].body.entries && y in LevelItems(fs[1..])
    ensures Ahead(x.key, y.key)
  {
    var g :| g in fs[1..] && y in g.body.entries;
    var j :| 0 <= j < |fs[1..]| && fs[1..][j] == g;
    assert fs[0] in fs && fs[j + 1] in fs && Ahead(Largest(fs[0]), fs[j + 1].smallest);
    AtOrBeforeLargest(fs[0], x);
    AtOrBeforeLargest(g, y);
  }

  lemma JoinSorted(a: seq<Entry>, b: seq<Entry>)
    requires Sorted(a) && Sorted(b) && forall x, y :: x in a && y in b ==> Ahead(x.key, y.key)
    ensures Sorted(a + b)
  {
  }

  lemma {:induction false} ConcatSorted(fs: seq<Sst>)
    requires FilesOk(fs) && KeyDisjoint(fs)
    ensures Sorted(Concat(fs))
  {
    if fs != [] {
      assert fs[0] in fs && FileOk(fs[0]);
      ConcatSorted(fs[1..]);
      forall x, y | x in fs[0].body.entries && y in Concat(fs[1..]) ensures Ahead(x.key, y.key) { FileAhead(fs, x, y); }
      JoinSorted(fs[0].body.entries, Concat(fs[1..]));
    }
  }

  lemma AddFile(f: Sst, fs: seq<Sst>, m: seq<Entry>)
    requires FileOk(f) && NoTies(FileItems(f), Items(m)) && Merger.IsMerge(FileLists(fs), m)
    ensures Merger.IsMerge(FileLists([f] + fs), MergeTwo(f.body.entries, m))
  {
    assert FileLists([f] + fs) == [f.body.entries] + FileLists(fs);
    OneMerge(f.body.entries);
    JoinMerges([f.body.entries], f.body.entries, FileLists(fs), m);
  }

  lemma RestOk(fs: seq<Sst>)
    requires FilesOk(fs) && PairwiseNoTies(fs) && fs != []
    ensures FileOk(fs[0]) && FilesOk(fs[1..]) && PairwiseNoTies(fs[1..]) && [fs[0]] + fs[1..] == fs
  {
  }

  /** The files of level 0, as their iterators are merged. */
  lemma {:induction false} FilesMerge(fs: seq<Sst>)
    requires FilesOk(fs) && PairwiseNoTies(fs)
    ensures Merger.IsMerge(FileLists(fs), MergeAll(fs))
  {
    if fs != [] {
      RestOk(fs);
      FilesMerge(fs[1..]);
      MergeAllSorted(fs[1..]);
      FirstNoTies(fs);
      AddFile(fs[0], fs[1..], MergeAll(fs[1..]));
    }
  }

  lemma {:induction false} DeepMerge(v: Version, l: nat) returns (m: seq<Entry>)
    requires Readable(v) && 1 <= l <= |v|
    ensures Merger.IsMerge(DeepLists(v, l), m) && Items(m) == DeepItems(v, l)
    decreases |v| - l
  {
    if l == |v| {
      m := [];
    } else {
      m := DeepMerge(v, l + 1);
      assert DeepItems(v, l) == LevelItems(v[l]) + DeepItems(v, l + 1);
      if v[l] == [] {
        assert [] + DeepLists(v, l + 1) == DeepLists(v, l + 1);
      } else {
        ConcatSorted(v[l]);
        OneMerge(Concat(v[l]));
        LevelOverItems(v, l, |v|);
        assert ItemsIn(v, l + 1, |v|) == DeepItems(v, l + 1) && Items(Concat(v[l])) == LevelItems(v[l]);
        JoinMerges([Concat(v[l])], Concat(v[l]), DeepLists(v, l + 1), m);
        m := MergeTwo(Concat(v[l]), m);
      }
    }
  }

  /** Version::AddIterators. */
  ghost function VersionLists(v: Version): seq<seq<Entry>>
    requires v != []
  {
    FileLists(v[0]) + DeepLists(v, 1)
  }

  lemma FirstLevelMerge(v: Version)
    requires Readable(v)
    ensures Merger.IsMerge(FileLists(v[0]), MergeAll(v[0])) && Items(MergeAll(v[0])) == LevelItems(v[0])
  {
    forall i, j | 0 <= i < j < |v[0]| ensures NoTies(FileItems(v[0][i]), FileItems(v[0][j])) {
      SameLevelNoTies(v, 0, v[0][i], v[0][j]);
    }
    FilesMerge(v[0]);
    MergeAllSorted(v[0]);
  }

  lemma FirstLevelApart(v: Version)
    requires Readable(v)
    ensures NoTies(LevelItems(v[0]), DeepItems(v, 1)) && AllItems(v) == LevelItems(v[0]) + DeepItems(v, 1)
  {
    LevelOverItems(v, 0, |v|);
    assert ItemsIn(v, 1, |v|) == DeepItems(v, 1);
    OverNoTies(LevelItems(v[0]), DeepItems(v, 1));
  }

  lemma VersionMerge(v: Version) returns (m: seq<Entry>)
    requires Readable(v)
    ensures Merger.IsMerge(VersionLists(v), m) && Items(m) == AllItems(v)
  {
    var deep := DeepMerge(v, 1);
    FirstLevelMerge(v);
    FirstLevelApart(v);
    JoinMerges(FileLists(v[0]), MergeAll(v[0]), DeepLists(v, 1), deep);
    m := MergeTwo(MergeAll(v[0]), deep);
    MergeTwoSorted(MergeAll(v[0]), deep);
  }

  // --- NewIterator --------------------------------------------------------------------------

  function ImmLists(db: Db): seq<seq<Entry>>
  {
    if db.imm.Some? && db.imm.value in db.tables then [db.tables[db.imm.value]] else []
  }

  /** NewInternalIterator: the children of the merging iterator. */
  ghost function Sources(db: Db): seq<seq<Entry>>
    requires db.mem in db.tables && db.version != []
  {
    [db.tables[db.mem]] + (ImmLists(db) + VersionLists(db.version))
  }

  lemma ImmMerge(db: Db, files: seq<Entry>) returns (m: seq<Entry>)
    requires TablesOk(db) && StackOk(db) && Merger.IsMerge(VersionLists(db.version), files) && Items(files) == FileEntries(db)
    ensures Merger.IsMerge(ImmLists(db) + VersionLists(db.version), m) && Items(m) == ImmItems(db) + FileEntries(db)
  {
    if db.imm.Some? {
      var t := db.tables[db.imm.value];
      OneMerge(t);
      JoinMerges([t], t, VersionLists(db.version), files);
      m := MergeTwo(t, files);
    } else {
      m := files;
      assert [] + VersionLists(db.version) == VersionLists(db.version);
    }
  }

  lemma SourcesMerge(db: Db) returns (m: seq<Entry>)
    requires TablesOk(db) && StackOk(db)
    ensures Merger.IsMerge(Sources(db), m) && Items(m) == Held(db)
  {
    OkReadable(db.version);
    var files := VersionMerge(db.version);
    var older := ImmMerge(db, files);
    var t := db.tables[db.mem];
    OneMerge(t);
    JoinMerges([t], t, ImmLists(db) + VersionLists(db.version), older);
    m := MergeTwo(t, older);
  }

  /** What a DBIter over t at sequence number s shows of user key u. */
  ghost function Listed(t: seq<Entry>, s: nat, u: UserKey): Option<Bytes>
  {
    if exists i :: DbIter.Shown(t, s, i) && t[i].key.user == u then
      var i :| DbIter.Shown(t, s, i) && t[i].key.user == u;
      Some(t[i].value)
    else None
  }

  lemma ListedIsFound(t: seq<Entry>, s: nat, u: UserKey)
    requires Sorted(t)
    ensures Listed(t, s, u) == Outcome(Find(t, u, s))
  {
    var r := Find(t, u, s);
    FindIsNewest(t, u, s);
    forall i | DbIter.Shown(t, s, i) && t[i].key.user == u ensures r == Some(t[i]) && r.value.key.kind.Value? {
      DbIter.ShownIffFound(t, s, i);
    }
    if r.Some? && r.value.key.kind.Value? {
      var i :| 0 <= i < |t| && t[i] == r.value;
      DbIter.ShownIffFound(t, s, i);
    }
  }

  /**
   In every reachable state the sources of NewIterator have a merge, which is what the merging iterator walks, and the
   DBIter over it shows of every user key exactly what the writes committed so far determine.
   */
  lemma NewIteratorIsRight(db: Db) returns (m: seq<Entry>)
    requires Reachable(db)
    ensures db.mem in db.tables && db.version != [] && Merger.IsMerge(Sources(db), m)
    ensures forall u :: Right(db.history, u, Listed(m, |db.history|, u))
  {
    ReachableInv(db);
    InvData(db);
    m := SourcesMerge(db);
    FromHeld(db);
    forall u ensures Right(db.history, u, Listed(m, |db.history|, u)) {
      FindIsNewest(m, u, |db.history|);
      assert Complete(db.history, KeysOf(Held(db)), u);
      NewestIsRight(db.history, db.group[..db.inserted], Held(db), u, Find(m, u, |db.history|));
      ListedIsFound(m, |db.history|, u);
    }
  }
}
