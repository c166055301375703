/**
 What a compaction writes: the merge of its inputs with shadowed entries and obsolete tombstones dropped.
 */
module Compactions {
  import opened Bytes
  import opened Keys
  import opened Levels
  import opened Versions

  // --- The merged input ---------------------------------------------------------------------

  /** No two entries of a and b share both user key and sequence number. */
  ghost predicate NoTies(a: set<Entry>, b: set<Entry>)
  {
    forall x, y {:trigger x in a, y in b} :: x in a && y in b && x.key.user == y.key.user ==> x.key.sequence != y.key.sequence
  }

  function MergeTwo(a: seq<Entry>, b: seq<Entry>): (r: seq<Entry>)
    ensures forall e :: e in r <==> e in a || e in b
    decreases |a| + |b|
  {
    if a == [] then b
    else if b == [] then a
    else if Ahead(b[0].key, a[0].key) then
      assert b == [b[0]] + b[1..];
      [b[0]] + MergeTwo(a, b[1..])
    else
      assert a == [a[0]] + a[1..];
      [a[0]] + MergeTwo(a[1..], b)
  }

  lemma {:induction false} MergeTwoSorted(a: seq<Entry>, b: seq<Entry>)
    requires Sorted(a) && Sorted(b) && NoTies(Items(a), Items(b))
    ensures Sorted(MergeTwo(a, b))
    decreases |a| + |b|
  {
    if a != [] && b != [] {
      assert a[0] in Items(a) && b[0] in Items(b);
      assert Items(a[1..]) <= Items(a) && Items(b[1..]) <= Items(b);
      if Ahead(b[0].key, a[0].key) {
        MergeTwoSorted(a, b[1..]);
        forall e | e in MergeTwo(a, b[1..]) ensures Ahead(b[0].key, e.key) {}
      } else {
        MergeTwoSorted(a[1..], b);
        forall e | e in MergeTwo(a[1..], b) ensures Ahead(a[0].key, e.key) {}
      }
    }
  }

  /** What the merging iterator over the input files yields. */
  function MergeAll(fs: seq<Sst>): (r: seq<Entry>)
  {
    if fs == [] then [] else MergeTwo(fs[0].body.entries, MergeAll(fs[1..]))
  }

  ghost predicate PairwiseNoTies(fs: seq<Sst>)
  {
    forall i, j :: 0 <= i < j < |fs| ==> NoTies(FileItems(fs[i]), FileItems(fs[j]))
  }

  lemma FirstNoTies(fs: seq<Sst>)
    requires PairwiseNoTies(fs) && fs != []
    ensures NoTies(FileItems(fs[0]), LevelItems(fs[1..]))
  {
    forall x, y | x in FileItems(fs[0]) && y in LevelItems(fs[1..]) && x.key.user == y.key.user
      ensures x.key.sequence != y.key.sequence
    {
      var g :| g in fs[1..] && y in g.body.entries;
      var j :| 0 <= j < |fs[1..]| && fs[1..][j] == g;
      assert NoTies(FileItems(fs[0]), FileItems(fs[j + 1])) && y in FileItems(fs[j + 1]);
    }
  }

  lemma {:induction false} MergeAllSorted(fs: seq<Sst>)
    requires FilesOk(fs) && PairwiseNoTies(fs)
    ensures Sorted(MergeAll(fs))
    ensures Items(MergeAll(fs)) == LevelItems(fs)
  {
    if fs != [] {
      assert fs == [fs[0]] + fs[1..];
      MergeAllSorted(fs[1..]);
      FirstNoTies(fs);
      assert FileOk(fs[0]);
      MergeTwoSorted(fs[0].body.entries, MergeAll(fs[1..]));
      assert LevelItems(fs) == FileItems(fs[0]) + LevelItems(fs[1..]);
    }
  }

  // --- Dropping entries ---------------------------------------------------------------------

  /** Compaction::IsBaseLevelForKey: no file below the output level has u in its range. */
  ghost predicate IsBase(v: Version, level: nat, u: UserKey)
  {
    forall l, f :: level + 2 <= l < |v| && f in v[l] ==> !Covers(f, u)
  }

  /** last_sequence_for_key when e is looked at after prev; None is kMaxSequenceNumber. */
  function LastFor(prev: Option<IKey>, e: Entry): Option<nat>
  {
    if prev.Some? && prev.value.user == e.key.user then Some(prev.value.sequence) else None
  }

  /** The drop decision of DoCompactionWork. */
  ghost predicate Dropped(prev: Option<IKey>, e: Entry, snapshot: nat, v: Version, level: nat)
  {
    || (LastFor(prev, e).Some? && LastFor(prev, e).value <= snapshot)
    || (e.key.kind.Deletion? && e.key.sequence <= snapshot && IsBase(v, level, e.key.user))
  }

  /** The entries that DoCompactionWork writes out, given the previously read key. */
  ghost function Survivors(t: seq<Entry>, prev: Option<IKey>, snapshot: nat, v: Version, level: nat): seq<Entry>
  {
    if t == [] then []
    else
      var rest := Survivors(t[1..], Some(t[0].key), snapshot, v, level);
      if Dropped(prev, t[0], snapshot, v, level) then rest else [t[0]] + rest
  }

  /** e is the newest version of its key among a that a reader at the snapshot may see. */
  ghost predicate Top(a: set<Entry>, e: Entry, snapshot: nat)
  {
    forall x {:trigger x in a} :: x in a && x.key.user == e.key.user && x.key.sequence > e.key.sequence ==> x.key.sequence > snapshot
  }

  /** What must survive: versions newer than the snapshot, and the one the snapshot sees unless it is an obsolete tombstone. */
  ghost predicate Needed(a: set<Entry>, e: Entry, snapshot: nat, v: Version, level: nat)
  {
    || e.key.sequence > snapshot
    || (Top(a, e, snapshot) && !(e.key.kind.Deletion? && IsBase(v, level, e.key.user)))
  }

  ghost predicate Follows(t: seq<Entry>, prev: Option<IKey>)
  {
    prev.Some? ==> forall e {:trigger e in t} :: e in t ==> Ahead(prev.value, e.key)
  }

  lemma {:induction false} SurvivorsSorted(t: seq<Entry>, prev: Option<IKey>, snapshot: nat, v: Version, level: nat)
    requires Sorted(t)
    ensures Sorted(Survivors(t, prev, snapshot, v, level))
    ensures forall e :: e in Survivors(t, prev, snapshot, v, level) ==> e in t
  {
    if t != [] {
      SurvivorsSorted(t[1..], Some(t[0].key), snapshot, v, level);
      var s := Survivors(t[1..], Some(t[0].key), snapshot, v, level);
      forall e | e in s ensures Ahead(t[0].key, e.key) { assert e in t[1..]; }
    }
  }

  lemma {:induction false} SurvivesIff(t: seq<Entry>, prev: Option<IKey>, snapshot: nat, v: Version, level: nat, e: Entry)
    requires Sorted(t) && Follows(t, prev) && e in t
    ensures e in Survivors(t, prev, snapshot, v, level) <==>
      Needed(Items(t), e, snapshot, v, level)
      && (prev.Some? && prev.value.user == e.key.user && e.key.sequence <= snapshot ==> prev.value.sequence > snapshot)
  {
    var h, rest := t[0], t[1..];
    assert t == [h] + rest;
    assert Items(t) == Items(rest) + {h};
    var s := Survivors(rest, Some(h.key), snapshot, v, level);
    SurvivorsSorted(rest, Some(h.key), snapshot, v, level);
    forall x | x in rest ensures Ahead(h.key, x.key) {}
    if e == h {
      assert e !in s;
      assert Top(Items(t), h, snapshot);
    } else {
      assert e in rest && Ahead(h.key, e.key);
      SurvivesIff(rest, Some(h.key), snapshot, v, level, e);
      assert Top(Items(t), e, snapshot) <==>
        Top(Items(rest), e, snapshot) && (h.key.user == e.key.user ==> h.key.sequence > snapshot);
      assert e in Survivors(t, prev, snapshot, v, level) <==> e in s;
    }
  }

  /** The loop's one-entry memory decides exactly which entries are needed. */
  lemma SurvivorsExact(t: seq<Entry>, snapshot: nat, v: Version, level: nat)
    requires Sorted(t)
    ensures Sorted(Survivors(t, None, snapshot, v, level))
    ensures forall e :: e in Survivors(t, None, snapshot, v, level) <==> e in t && Needed(Items(t), e, snapshot, v, level)
  {
    SurvivorsSorted(t, None, snapshot, v, level);
    forall e | e in t
      ensures e in Survivors(t, None, snapshot, v, level) <==> Needed(Items(t), e, snapshot, v, level)
    {
      SurvivesIff(t, None, snapshot, v, level, e);
    }
  }

  /** What a reader gets from the newest entry it sees. */
  function Outcome(r: Option<Entry>): Option<Bytes>
  {
    if r.Some? && r.value.key.kind.Value? then Some(r.value.value) else None
  }

  ghost predicate Unique(a: set<Entry>)
  {
    forall x, y {:trigger x in a, y in a} :: x in a && y in a && x.key.user == y.key.user && x.key.sequence == y.key.sequence ==> x == y
  }

  // --- Output files -------------------------------------------------------------------------

  ghost function Concat(fs: seq<Sst>): (r: seq<Entry>)
    ensures forall e :: e in r <==> e in LevelItems(fs)
  {
    if fs == [] then []
    else
      assert fs == [fs[0]] + fs[1..];
      fs[0].body.entries + Concat(fs[1..])
  }

  ghost predicate OnePerUser(t: seq<Entry>)
  {
    forall i, j :: 0 <= i < j < |t| ==> t[i].key.user != t[j].key.user
  }

  /** Without live snapshots nothing in the inputs is newer than the snapshot, and one version per user key survives. */
  lemma OneSurvivorPerUser(t: seq<Entry>, snapshot: nat, v: Version, level: nat)
    requires Sorted(t)
    requires forall e :: e in t ==> e.key.sequence <= snapshot
    ensures OnePerUser(Survivors(t, None, snapshot, v, level))
  {
    SurvivorsExact(t, snapshot, v, level);
    var s := Survivors(t, None, snapshot, v, level);
    forall i, j | 0 <= i < j < |s| ensures s[i].key.user != s[j].key.user {
      assert s[i] in s && s[j] in s;
      assert s[i] in Items(t) && s[j] in Items(t);
      assert Needed(Items(t), s[j], snapshot, v, level);
      assert Ahead(s[i].key, s[j].key);
    }
  }

  /** Output files cut from such a run have disjoint user-key ranges, in order. */
  lemma {:induction false} CutsDisjoint(fs: seq<Sst>)
    requires FilesOk(fs) && Sorted(Concat(fs)) && OnePerUser(Concat(fs))
    ensures Disjoint(fs)
  {
    if fs != [] {
      var f, rest := fs[0], fs[1..];
      assert fs == [f] + rest;
      assert f in fs;
      var n, t := |f.body.entries|, Concat(fs);
      assert Concat(rest) == t[n..];
      CutsDisjoint(rest);
      forall j | 0 <= j < |rest| ensures Max(f) < Min(rest[j]) {
        assert FileOk(rest[j]);
        var e := rest[j].body.entries[0];
        assert rest[j] in rest && e in rest[j].body.entries;
        assert e in LevelItems(rest);
        var k :| 0 <= k < |t[n..]| && t[n..][k] == e;
        assert Ahead(t[n - 1].key, t[n + k].key);
      }
    }
  }
}
