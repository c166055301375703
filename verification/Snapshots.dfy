/**
 Live snapshots: a compaction may cut two versions of one user key into neighbouring files, and the picker looks at user
 keys only, so it does not pull the second file in. When exactly does installing a compaction keep every read at or after
 the oldest snapshot?
 */
module Snapshots {
  import opened Bytes
  import opened Keys
  import opened Levels
  import opened Versions
  import opened Picking
  import opened Compactions
  import opened Lsm
  import opened LsmSteps

  /** Levels are only checked to be disjoint by internal keys; sequence numbers still tell all versions of a key apart. */
  lemma ReadableUnique(v: Version)
    requires Readable(v)
    ensures Unique(AllItems(v))
  {
    forall x, y | x in AllItems(v) && y in AllItems(v) && x.key.user == y.key.user && x.key.sequence == y.key.sequence
      ensures x == y
    {
      var l :| 0 <= l < |v| && x in LevelItems(v[l]);
      var m :| 0 <= m < |v| && y in LevelItems(v[m]);
      var f :| f in v[l] && x in f.body.entries;
      var g :| g in v[m] && y in g.body.entries;
      SamePlace(v, l, f, x, m, g, y);
    }
  }

  lemma SamePlace(v: Version, l: nat, f: Sst, x: Entry, m: nat, g: Sst, y: Entry)
    requires Readable(v) && l < |v| && m < |v| && f in v[l] && g in v[m] && x in f.body.entries && y in g.body.entries
    requires x.key.user == y.key.user && x.key.sequence == y.key.sequence
    ensures x == y
  {
    assert x in FileItems(f) && y in FileItems(g);
    if l != m {
    } else if f == g {
      SortedUnique(f.body.entries, x, y);
    } else if l == 0 {
      DistinctMembers(v[0]);
    } else {
      NoCommonKey(v[l], f, g, x, y);
    }
  }

  // --- The sets of entries around a compaction ----------------------------------------------

  /** Entries of the levels down to the input level that are no inputs: what a read searches before the outputs. */
  ghost function Above(v: Version, level: nat, ins: Inputs): set<Entry>
    requires level < |v|
  {
    set k, f, e | 0 <= k <= level && f in v[k] && !(k == level && f in ins.upper) && e in f.body.entries :: e
  }

  /** Entries of the output level that are no inputs. */
  ghost function Beside(v: Version, level: nat, ins: Inputs): set<Entry>
    requires level + 1 < |v|
  {
    set f, e | f in v[level + 1] && f !in ins.lower && e in f.body.entries :: e
  }

  ghost function MergedInputs(ins: Inputs): seq<Entry> { MergeAll(ins.upper + ins.lower) }

  /** q serves a reader as well as r: the same entry, or nothing in place of a tombstone. */
  ghost predicate Serves(q: Option<Entry>, r: Option<Entry>)
  {
    q == r || (q.None? && r.value.key.kind.Deletion?)
  }

  lemma ServesOutcome(q: Option<Entry>, r: Option<Entry>)
    requires Serves(q, r)
    ensures Outcome(q) == Outcome(r)
  {
  }

  /** y would answer a read at the snapshot or later in place of e. */
  ghost predicate Masks(y: Entry, e: Entry, snapshot: nat)
  {
    y.key.user == e.key.user && e.key.sequence < y.key.sequence <= snapshot
  }

  /** x is an older version of e's key that is no input, and nothing outside the inputs masks e. */
  ghost predicate Exposes(stays: set<Entry>, x: Entry, e: Entry, snapshot: nat)
  {
    && x.key.user == e.key.user && x.key.sequence < e.key.sequence
    && forall y :: y in stays ==> !Masks(y, e, snapshot)
  }

  /** An older version of an input's key stays behind in the input level, where reads now find it first. */
  ghost predicate LeavesOlder(v: Version, level: nat, ins: Inputs, snapshot: nat)
    requires level < |v|
  {
    exists e, x :: e in LevelItems(ins.upper) && x in Above(v, level, ins) && Exposes(Above(v, level, ins), x, e, snapshot)
  }

  /** The compaction drops this tombstone. */
  ghost predicate DropsTombstone(v: Version, level: nat, ins: Inputs, e: Entry, snapshot: nat)
  {
    && e in LevelItems(ins.upper + ins.lower) && e.key.kind.Deletion? && e.key.sequence <= snapshot
    && Top(LevelItems(ins.upper + ins.lower), e, snapshot) && IsBase(v, level, e.key.user)
  }

  /** A dropped tombstone hid an older version in the output level that is no input. */
  ghost predicate Uncovers(v: Version, level: nat, ins: Inputs, snapshot: nat)
    requires level + 1 < |v|
  {
    exists e, x :: DropsTombstone(v, level, ins, e, snapshot) && x in Beside(v, level, ins)
      && Exposes(Above(v, level, ins) + Beside(v, level, ins), x, e, snapshot)
  }

  // --- Reads before and after, on sets ------------------------------------------------------

  /** What lies above, the upper and lower inputs, what lies beside the outputs, and the deeper levels. */
  datatype Around = Around(above: set<Entry>, upper: set<Entry>, lower: set<Entry>, beside: set<Entry>, deeper: set<Entry>)
  {
    ghost function Ins(): set<Entry> { upper + lower }

    ghost function All(): set<Entry> { above + upper + lower + beside + deeper }

    ghost predicate Stacked()
    {
      && Unique(All())
      && Over(above, lower + beside + deeper) && Over(upper, lower + beside + deeper) && Over(lower + beside, deeper)
      && NoTies(above, upper) && NoTies(beside, lower)
      && forall x, y {:trigger x in beside, y in upper} :: x in beside && y in upper ==> x.key.user != y.key.user
    }
  }

  /** What is left of the inputs. */
  ghost predicate IsKept(kept: set<Entry>, ins: set<Entry>, snapshot: nat, v: Version, level: nat)
  {
    forall e :: e in kept <==> e in ins && Needed(ins, e, snapshot, v, level)
  }

  ghost function First(a: Option<Entry>, c: Option<Entry>): Option<Entry> { if a.Some? then a else c }

  /** Among the inputs and what lies deeper, dropping what is not needed changes no read at or after the snapshot. */
  lemma DroppingServes(a: Around, kept: set<Entry>, snapshot: nat, v: Version, level: nat, u: UserKey, s: nat,
                       r: Option<Entry>, q: Option<Entry>)
    requires a.Stacked() && IsKept(kept, a.Ins(), snapshot, v, level) && s >= snapshot
    requires IsBase(v, level, u) ==> forall e :: e in a.deeper ==> e.key.user != u
    requires IsNewest(a.Ins() + a.beside + a.deeper, u, s, r) && IsNewest(kept + a.beside + a.deeper, u, s, q)
    requires r.Some? && r.value in a.Ins() && !Needed(a.Ins(), r.value, snapshot, v, level) ==>
      forall x :: x in a.beside ==> !Sees(x, u, s)
    ensures Serves(q, r)
  {
    if r.Some? && r.value in a.Ins() {
      var n := r.value;
      if Needed(a.Ins(), n, snapshot, v, level) {
        assert n in kept + a.beside + a.deeper;
        assert q.value in a.All() && n in a.All();
      } else {
        assert Top(a.Ins(), n, snapshot);
        assert forall e :: e in kept ==> e in a.Ins() && !Sees(e, u, s);
      }
    } else if r.Some? {
      assert r.value in kept + a.beside + a.deeper;
      assert q.value in a.All() && r.value in a.All();
    } else {
      assert forall e :: e in kept ==> e in a.Ins();
    }
  }

  lemma SomeAbove(a: Around, u: UserKey, s: nat, snapshot: nat, r: Option<Entry>, q: Option<Entry>)
    requires a.Stacked() && s >= snapshot && IsNewest(a.All(), u, s, r) && IsNewest(a.above, u, s, q) && q.Some?
    requires forall e, x :: e in a.upper && x in a.above ==> !Exposes(a.above, x, e, snapshot)
    ensures q == r
  {
    assert q.value in a.All();
    if r.value in a.upper && r != q {
      forall y | y in a.above ensures !Masks(y, r.value, snapshot) { assert y in a.All(); }
      assert Exposes(a.above, q.value, r.value, snapshot);
    }
  }

  /** Reads are kept when nothing older is exposed. */
  lemma SetsKeep(a: Around, kept: set<Entry>, snapshot: nat, v: Version, level: nat, u: UserKey, s: nat,
                 r: Option<Entry>, q: Option<Entry>, c: Option<Entry>)
    requires a.Stacked() && IsKept(kept, a.Ins(), snapshot, v, level) && s >= snapshot
    requires IsBase(v, level, u) ==> forall e :: e in a.deeper ==> e.key.user != u
    requires IsNewest(a.All(), u, s, r) && IsNewest(a.above, u, s, q) && IsNewest(kept + a.beside + a.deeper, u, s, c)
    requires forall e, x :: e in a.upper && x in a.above ==> !Exposes(a.above, x, e, snapshot)
    requires forall e, x :: e in a.Ins() && !Needed(a.Ins(), e, snapshot, v, level) && Top(a.Ins(), e, snapshot) && x in a.beside ==>
      !Exposes(a.above + a.beside, x, e, snapshot)
    ensures Serves(First(q, c), r)
  {
    if q.Some? {
      SomeAbove(a, u, s, snapshot, r, q);
    } else {
      assert IsNewest(a.Ins() + a.beside + a.deeper, u, s, r) by {
        assert r.Some? ==> r.value in a.Ins() + a.beside + a.deeper;
        assert forall e :: e in a.Ins() + a.beside + a.deeper ==> e in a.All();
      }
      if r.Some? && r.value in a.Ins() && !Needed(a.Ins(), r.value, snapshot, v, level) {
        BesideUnseen(a, snapshot, u, s, r.value);
      }
      DroppingServes(a, kept, snapshot, v, level, u, s, r, c);
    }
  }

  lemma BesideUnseen(a: Around, snapshot: nat, u: UserKey, s: nat, n: Entry)
    requires a.Stacked() && s >= snapshot && n in a.Ins() && IsNewest(a.All(), u, s, Some(n))
    requires Top(a.Ins(), n, snapshot) ==> forall x :: x in a.beside ==> !Exposes(a.above + a.beside, x, n, snapshot)
    ensures forall x :: x in a.beside ==> !Sees(x, u, s)
  {
    forall x | x in a.beside && Sees(x, u, s) ensures false {
      assert x in a.All();
      assert x.key.sequence != n.key.sequence;
      assert Top(a.Ins(), n, snapshot) by {
        forall y | y in a.Ins() && y.key.user == n.key.user && y.key.sequence > n.key.sequence ensures y.key.sequence > snapshot {
          assert y in a.All();
        }
      }
      forall y | y in a.above + a.beside ensures !Masks(y, n, snapshot) { assert y in a.All(); }
      assert Exposes(a.above + a.beside, x, n, snapshot);
    }
  }

  ghost function Later(a: nat, b: nat): nat { if a < b then b else a }

  /** An older version above the outputs is read in place of the input's. */
  lemma AboveLoses(a: Around, snapshot: nat, e: Entry, x: Entry, r: Option<Entry>, q: Option<Entry>, c: Option<Entry>)
    requires a.Stacked() && e in a.upper && x in a.above && Exposes(a.above, x, e, snapshot)
    requires var s := Later(e.key.sequence, snapshot); IsNewest(a.All(), e.key.user, s, r) && IsNewest(a.above, e.key.user, s, q)
    ensures !Serves(First(q, c), r)
  {
    var s := Later(e.key.sequence, snapshot);
    assert Sees(x, e.key.user, s) && e in a.All() && Sees(e, e.key.user, s);
    assert q.value in a.above && !Masks(q.value, e, snapshot);
    assert q.value.key.sequence < e.key.sequence;
  }

  /** An older version beside the outputs is read in place of the dropped tombstone. */
  lemma BesideLoses(a: Around, kept: set<Entry>, snapshot: nat, v: Version, level: nat, e: Entry, x: Entry,
                    r: Option<Entry>, q: Option<Entry>, c: Option<Entry>)
    requires a.Stacked() && IsKept(kept, a.Ins(), snapshot, v, level)
    requires IsBase(v, level, e.key.user) && forall y :: y in a.deeper ==> y.key.user != e.key.user
    requires e in a.Ins() && e.key.kind.Deletion? && e.key.sequence <= snapshot && Top(a.Ins(), e, snapshot)
    requires x in a.beside && Exposes(a.above + a.beside, x, e, snapshot)
    requires IsNewest(a.All(), e.key.user, snapshot, r) && IsNewest(a.above, e.key.user, snapshot, q)
    requires IsNewest(kept + a.beside + a.deeper, e.key.user, snapshot, c)
    ensures !Serves(First(q, c), r)
  {
    assert e in a.All() && Sees(e, e.key.user, snapshot) && Sees(x, e.key.user, snapshot);
    assert x in kept + a.beside + a.deeper && c.Some?;
    KeptUnseen(a, kept, snapshot, v, level, e);
    var p := First(q, c).value;
    assert p in a.above + a.beside && !Masks(p, e, snapshot);
    assert p.key.sequence < e.key.sequence;
  }

  /** Nothing of the key of a dropped tombstone is kept for readers at the snapshot. */
  lemma KeptUnseen(a: Around, kept: set<Entry>, snapshot: nat, v: Version, level: nat, e: Entry)
    requires a.Stacked() && IsKept(kept, a.Ins(), snapshot, v, level)
    requires e in a.Ins() && e.key.kind.Deletion? && e.key.sequence <= snapshot && Top(a.Ins(), e, snapshot)
    requires IsBase(v, level, e.key.user)
    ensures forall y :: y in kept ==> !Sees(y, e.key.user, snapshot)
  {
    assert e in a.All();
    assert forall y :: y in kept ==> y in a.Ins() && y in a.All();
  }

  // --- Answers before and after, on sets ----------------------------------------------------

  /** Nothing masks e, and x is the newest of what stays and is older than e; its answer is another one. */
  ghost predicate Misleads(all: set<Entry>, stays: set<Entry>, x: Entry, e: Entry, snapshot: nat)
  {
    && x in stays && x.key.user == e.key.user && x.key.sequence < e.key.sequence && Outcome(Some(x)) != Outcome(Some(e))
    && (forall y :: y in all ==> !Masks(y, e, snapshot))
    && (forall y {:trigger y in stays} ::
         y in stays && y.key.user == e.key.user && y.key.sequence < e.key.sequence ==> y.key.sequence <= x.key.sequence)
  }

  lemma AnsweredAbove(a: Around, u: UserKey, s: nat, snapshot: nat, r: Option<Entry>, q: Option<Entry>)
    requires a.Stacked() && s >= snapshot && IsNewest(a.All(), u, s, r) && IsNewest(a.above, u, s, q) && q.Some?
    requires forall e, x :: e in a.upper ==> !Misleads(a.All(), a.above, x, e, snapshot)
    ensures Outcome(q) == Outcome(r)
  {
    assert q.value in a.All();
    if r != q {
      assert r.value in a.upper;
      assert Outcome(q) != Outcome(r) ==> Misleads(a.All(), a.above, q.value, r.value, snapshot);
    }
  }

  /** When the newest input entry is dropped, only what lies beside the outputs can answer. */
  lemma AnsweredBeside(a: Around, kept: set<Entry>, snapshot: nat, v: Version, level: nat, u: UserKey, s: nat, r: Entry, c: Option<Entry>)
    requires a.Stacked() && IsKept(kept, a.Ins(), snapshot, v, level) && s >= snapshot
    requires IsBase(v, level, u) ==> forall e :: e in a.deeper ==> e.key.user != u
    requires IsNewest(a.All(), u, s, Some(r)) && IsNewest(kept + a.beside + a.deeper, u, s, c)
    requires r in a.Ins() && !Needed(a.Ins(), r, snapshot, v, level)
    ensures r.key.kind.Deletion? && Top(a.Ins(), r, snapshot)
    ensures c.Some? ==> c.value in a.beside && c.value.key.sequence < r.key.sequence
  {
    assert forall y :: y in a.Ins() ==> y in a.All();
    assert Top(a.Ins(), r, snapshot);
    assert forall e :: e in kept ==> e in a.Ins() && !Sees(e, u, s);
    if c.Some? {
      assert c.value in a.beside;
      assert c.value in a.All() && r in a.All();
    }
  }

  lemma AnsweredBelow(a: Around, kept: set<Entry>, snapshot: nat, v: Version, level: nat, u: UserKey, s: nat,
                      r: Option<Entry>, c: Option<Entry>)
    requires a.Stacked() && IsKept(kept, a.Ins(), snapshot, v, level) && s >= snapshot
    requires IsBase(v, level, u) ==> forall e :: e in a.deeper ==> e.key.user != u
    requires IsNewest(a.All(), u, s, r) && IsNewest(a.above, u, s, None) && IsNewest(kept + a.beside + a.deeper, u, s, c)
    requires forall e, x :: e in a.Ins() && !Needed(a.Ins(), e, snapshot, v, level) && Top(a.Ins(), e, snapshot) && x in a.beside ==>
      !Misleads(a.All(), a.above + a.beside, x, e, snapshot)
    ensures Outcome(c) == Outcome(r)
  {
    if r.Some? && r.value in a.Ins() && !Needed(a.Ins(), r.value, snapshot, v, level) {
      AnsweredBeside(a, kept, snapshot, v, level, u, s, r.value, c);
      if c.Some? {
        assert forall y :: y in a.beside ==> y in a.All();
        assert Outcome(c) != Outcome(r) ==> Misleads(a.All(), a.above + a.beside, c.value, r.value, snapshot);
      }
    } else {
      assert IsNewest(a.Ins() + a.beside + a.deeper, u, s, r) by {
        assert r.Some? ==> r.value in a.Ins() + a.beside + a.deeper;
        assert forall e :: e in a.Ins() + a.beside + a.deeper ==> e in a.All();
      }
      DroppingServes(a, kept, snapshot, v, level, u, s, r, c);
      ServesOutcome(c, r);
    }
  }

  lemma MisledAbove(a: Around, snapshot: nat, e: Entry, x: Entry, r: Option<Entry>, q: Option<Entry>)
    requires a.Stacked() && e in a.upper && Misleads(a.All(), a.above, x, e, snapshot)
    requires var s := Later(e.key.sequence, snapshot); IsNewest(a.All(), e.key.user, s, r) && IsNewest(a.above, e.key.user, s, q)
    ensures r == Some(e) && q == Some(x)
  {
    var s := Later(e.key.sequence, snapshot);
    assert e in a.All() && Sees(e, e.key.user, s) && Sees(x, e.key.user, s) && q.value in a.All() && x in a.All();
    assert !Masks(q.value, e, snapshot) && !Masks(r.value, e, snapshot);
  }

  lemma MisledBeside(a: Around, kept: set<Entry>, snapshot: nat, v: Version, level: nat, e: Entry, x: Entry,
                     r: Option<Entry>, q: Option<Entry>, c: Option<Entry>)
    requires a.Stacked() && IsKept(kept, a.Ins(), snapshot, v, level)
    requires IsBase(v, level, e.key.user) && forall y :: y in a.deeper ==> y.key.user != e.key.user
    requires e in a.Ins() && e.key.kind.Deletion? && e.key.sequence <= snapshot && Top(a.Ins(), e, snapshot)
    requires x in a.beside && Misleads(a.All(), a.above + a.beside, x, e, snapshot)
    requires IsNewest(a.All(), e.key.user, snapshot, r) && IsNewest(a.above, e.key.user, snapshot, q)
    requires IsNewest(kept + a.beside + a.deeper, e.key.user, snapshot, c)
    ensures r == Some(e) && First(q, c) == Some(x)
  {
    var u := e.key.user;
    assert e in a.All() && x in a.All() && Sees(e, u, snapshot) && Sees(x, u, snapshot);
    assert r == Some(e) by { assert !Masks(r.value, e, snapshot); }
    KeptUnseen(a, kept, snapshot, v, level, e);
    assert forall y :: y in a.above ==> y in a.above + a.beside && !Masks(y, e, snapshot);
    assert c.value in a.beside && c.value in a.All() && !Masks(c.value, e, snapshot) && c.value in a.above + a.beside;
  }

  // --- Reads before and after a compaction --------------------------------------------------

  /** What the picker delivers: inputs of two levels, the lower ones all those that meet the user keys of the upper ones. */
  ghost predicate Picked(v: Version, level: nat, ins: Inputs)
  {
    && level + 1 < |v| && ins.upper != [] && DistinctNumbers(ins.upper)
    && (forall f :: f in ins.upper ==> f in v[level])
    && ins.lower == Meeting(v[level + 1], Hull(ins.upper))
  }

  lemma PickInputsPicked(v: Version, level: nat, f: Sst, limit: nat)
    requires level + 1 < |v| && f in v[level] && FileOk(f) && DistinctNumbers(v[level])
    ensures Picked(v, level, PickInputs(v, level, f, limit))
  {
    MinMax(f);
    var upper := if level == 0 then Overlapping(v[0], 0, RangeOf(f)) else [f];
    if level == 0 {
      MeetingDistinct(v[0], Closure(v[0], RangeOf(f)));
      assert f in upper;
    }
    var r := Hull(upper + Meeting(v[level + 1], Hull(upper)));
    MeetingDistinct(v[level], Reach(v[level], level, r));
  }

  /** A compaction of the version: its inputs and the output files, cut from the surviving entries at any point. */
  ghost predicate Compacts(v: Version, level: nat, ins: Inputs, outs: seq<Sst>, snapshot: nat)
  {
    && Readable(v) && Picked(v, level, ins)
    && (forall l :: level <= l <= level + 1 ==> InOrder(v[l]) && DistinctNumbers(v[l]))
    && FilesOk(outs) && DistinctNumbers(outs)
    && (forall f, o {:trigger f in v[level + 1], o in outs} :: f in v[level + 1] && o in outs ==> f.number != o.number)
    && Concat(outs) == Survivors(MergedInputs(ins), None, snapshot, v, level)
  }

  ghost function AroundOf(v: Version, level: nat, ins: Inputs): Around
    requires level + 1 < |v|
  {
    Around(Above(v, level, ins), LevelItems(ins.upper), LevelItems(ins.lower), Beside(v, level, ins), DeepItems(v, level + 2))
  }

  lemma AroundAll(v: Version, level: nat, ins: Inputs)
    requires Picked(v, level, ins)
    ensures AroundOf(v, level, ins).All() == AllItems(v)
    ensures AroundOf(v, level, ins).Ins() == LevelItems(ins.upper + ins.lower)
  {
    var a := AroundOf(v, level, ins);
    forall e | e in AllItems(v) ensures e in a.All() {
      var k :| 0 <= k < |v| && e in LevelItems(v[k]);
      var f :| f in v[k] && e in f.body.entries;
      assert k >= level + 2 ==> e in a.deeper;
    }
    forall e | e in a.All() ensures e in AllItems(v) {
      if e in a.upper {
        var f :| f in ins.upper && e in f.body.entries;
        assert e in LevelItems(v[level]);
      } else if e in a.lower {
        var f :| f in ins.lower && e in f.body.entries;
        assert e in LevelItems(v[level + 1]);
      } else if e in a.beside {
        assert e in LevelItems(v[level + 1]);
      } else if e in a.above {
        var k, f :| 0 <= k <= level && f in v[k] && e in f.body.entries;
        assert e in LevelItems(v[k]);
      }
    }
  }

  /** The level of an entry of one of the sets. */
  lemma LevelsOver(v: Version, l: nat, m: nat, x: Entry, y: Entry)
    requires Layered(v) && l < m < |v| && x in LevelItems(v[l]) && y in LevelItems(v[m]) && x.key.user == y.key.user
    ensures x.key.sequence > y.key.sequence
  {
    var f :| f in v[l] && x in f.body.entries;
    var g :| g in v[m] && y in g.body.entries;
    assert Over(FileItems(f), FileItems(g)) && x in FileItems(f) && y in FileItems(g);
  }

  lemma ShallowLevel(v: Version, level: nat, ins: Inputs, e: Entry) returns (l: nat)
    requires Picked(v, level, ins) && e in Above(v, level, ins) + LevelItems(ins.upper)
    ensures l <= level && e in LevelItems(v[l])
  {
    if e in LevelItems(ins.upper) {
      l := level;
    } else {
      var k, f :| 0 <= k <= level && f in v[k] && e in f.body.entries;
      l := k;
    }
  }

  lemma OutputLevel(v: Version, level: nat, ins: Inputs, e: Entry)
    requires Picked(v, level, ins) && e in LevelItems(ins.lower) + Beside(v, level, ins)
    ensures e in LevelItems(v[level + 1])
  {
    if e in LevelItems(ins.lower) {
      var f :| f in ins.lower && e in f.body.entries;
      assert f in v[level + 1];
    }
  }

  lemma DeepLevel(v: Version, level: nat, ins: Inputs, e: Entry) returns (l: nat)
    requires Picked(v, level, ins) && e in LevelItems(ins.lower) + Beside(v, level, ins) + DeepItems(v, level + 2)
    ensures level + 1 <= l < |v| && e in LevelItems(v[l])
  {
    if e in DeepItems(v, level + 2) {
      l :| level + 2 <= l < |v| && e in LevelItems(v[l]);
    } else {
      OutputLevel(v, level, ins, e);
      l := level + 1;
    }
  }

  lemma AroundOver(v: Version, level: nat, ins: Inputs)
    requires Layered(v) && Picked(v, level, ins)
    ensures
      var a := AroundOf(v, level, ins);
      && Over(a.above, a.lower + a.beside + a.deeper) && Over(a.upper, a.lower + a.beside + a.deeper)
      && Over(a.lower + a.beside, a.deeper)
  {
    var a := AroundOf(v, level, ins);
    forall x, y | x in a.above + a.upper && y in a.lower + a.beside + a.deeper && x.key.user == y.key.user
      ensures x.key.sequence > y.key.sequence
    {
      var l := ShallowLevel(v, level, ins, x);
      var m := DeepLevel(v, level, ins, y);
      LevelsOver(v, l, m, x, y);
    }
    forall x, y | x in a.lower + a.beside && y in a.deeper && x.key.user == y.key.user ensures x.key.sequence > y.key.sequence {
      OutputLevel(v, level, ins, x);
      var m :| level + 2 <= m < |v| && y in LevelItems(v[m]);
      LevelsOver(v, level + 1, m, x, y);
    }
  }

  /** An input and a file that is no input have no version of a key in common. */
  lemma AboveNoTies(v: Version, level: nat, ins: Inputs, x: Entry, y: Entry)
    requires Readable(v) && Picked(v, level, ins) && DistinctNumbers(v[level])
    requires x in Above(v, level, ins) && y in LevelItems(ins.upper) && x.key.user == y.key.user
    ensures x.key.sequence != y.key.sequence
  {
    var k, f :| 0 <= k <= level && f in v[k] && !(k == level && f in ins.upper) && x in f.body.entries;
    var g :| g in ins.upper && y in g.body.entries;
    FilesNoTies(v, k, f, x, level, g, y);
  }

  lemma BesideNoTies(v: Version, level: nat, ins: Inputs, x: Entry, y: Entry)
    requires Picked(v, level, ins) && FilesOk(v[level + 1]) && KeyDisjoint(v[level + 1])
    requires x in Beside(v, level, ins) && y in LevelItems(ins.lower) && x.key.user == y.key.user
    ensures x.key.sequence != y.key.sequence
  {
    var f :| f in v[level + 1] && f !in ins.lower && x in f.body.entries;
    var g :| g in ins.lower && y in g.body.entries;
    NoCommonKey(v[level + 1], f, g, x, y);
  }

  lemma FilesNoTies(v: Version, l: nat, f: Sst, x: Entry, m: nat, g: Sst, y: Entry)
    requires Readable(v) && l <= m < |v| && f in v[l] && g in v[m] && DistinctNumbers(v[m])
    requires l == m ==> f != g
    requires x in f.body.entries && y in g.body.entries && x.key.user == y.key.user
    ensures x.key.sequence != y.key.sequence
  {
    assert x in FileItems(f) && y in FileItems(g);
    if l < m {
      assert Over(FileItems(f), FileItems(g));
    } else {
      DistinctMembers(v[m]);
      SameLevelNoTies(v, m, f, g);
    }
  }

  lemma UpperFilesOk(v: Version, level: nat, ins: Inputs)
    requires Searchable(v) && Picked(v, level, ins)
    ensures FilesOk(ins.upper) && FilesOk(ins.lower) && Bounded(Hull(ins.upper))
    ensures forall f :: f in ins.upper ==> Within(f, Hull(ins.upper))
  {
    forall f | f in ins.upper ensures FileOk(f) { assert f in v[level]; }
    forall f | f in ins.lower ensures FileOk(f) { assert f in v[level + 1]; }
    HullTight(ins.upper);
  }

  lemma BesideApart(v: Version, level: nat, ins: Inputs, x: Entry, y: Entry)
    requires Searchable(v) && Picked(v, level, ins) && x in Beside(v, level, ins) && y in LevelItems(ins.upper)
    ensures x.key.user != y.key.user
  {
    UpperFilesOk(v, level, ins);
    var f :| f in v[level + 1] && f !in ins.lower && x in f.body.entries;
    var g :| g in ins.upper && y in g.body.entries;
    InRange(f, x);
    InRange(g, y);
  }

  lemma AroundStacked(v: Version, level: nat, ins: Inputs)
    requires Readable(v) && Picked(v, level, ins) && DistinctNumbers(v[level]) && DistinctNumbers(v[level + 1])
    ensures AroundOf(v, level, ins).Stacked()
  {
    AroundAll(v, level, ins);
    ReadableUnique(v);
    AroundOver(v, level, ins);
    forall x, y | x in Above(v, level, ins) && y in LevelItems(ins.upper) && x.key.user == y.key.user
      ensures x.key.sequence != y.key.sequence { AboveNoTies(v, level, ins, x, y); }
    forall x, y | x in Beside(v, level, ins) && y in LevelItems(ins.lower) && x.key.user == y.key.user
      ensures x.key.sequence != y.key.sequence { BesideNoTies(v, level, ins, x, y); }
    forall x, y | x in Beside(v, level, ins) && y in LevelItems(ins.upper) ensures x.key.user != y.key.user {
      BesideApart(v, level, ins, x, y);
    }
  }

  lemma BaseHoldsNothing(v: Version, level: nat, u: UserKey)
    requires Searchable(v) && IsBase(v, level, u)
    ensures forall e :: e in DeepItems(v, level + 2) ==> e.key.user != u
  {
    forall e | e in DeepItems(v, level + 2) ensures e.key.user != u {
      var k :| level + 2 <= k < |v| && e in LevelItems(v[k]);
      var f :| f in v[k] && e in f.body.entries;
      InRange(f, e);
    }
  }

  lemma SurvivorsKept(v: Version, level: nat, ins: Inputs, snapshot: nat)
    requires Readable(v) && Picked(v, level, ins) && level + 1 < NUM_LEVELS && DistinctNumbers(v[level + 1])
    ensures
      var t := Survivors(MergedInputs(ins), None, snapshot, v, level);
      Sorted(t) && IsKept(Items(t), LevelItems(ins.upper + ins.lower), snapshot, v, level)
  {
    MeetingDistinct(v[level + 1], Hull(ins.upper));
    InputsNoTies(v, level, ins);
    MergeAllSorted(ins.upper + ins.lower);
    SurvivorsExact(MergedInputs(ins), snapshot, v, level);
    assert forall e :: e in MergedInputs(ins) <==> e in Items(MergedInputs(ins));
  }

  lemma DroppingAlone(a: Around, kept: set<Entry>, snapshot: nat, v: Version, level: nat, u: UserKey, s: nat,
                      r: Option<Entry>, q: Option<Entry>)
    requires a.Stacked() && IsKept(kept, a.Ins(), snapshot, v, level) && s >= snapshot
    requires IsBase(v, level, u) ==> forall e :: e in a.deeper ==> e.key.user != u
    requires IsNewest(a.Ins() + a.deeper, u, s, r) && IsNewest(kept + a.deeper, u, s, q)
    ensures Serves(q, r)
  {
    var b := a.(above := {}, beside := {});
    assert b.Ins() == a.Ins() && b.All() <= a.All();
    assert b.Stacked();
    assert b.Ins() + b.beside + b.deeper == a.Ins() + a.deeper && kept + b.beside + b.deeper == kept + a.deeper;
    DroppingServes(b, kept, snapshot, v, level, u, s, r, q);
  }

  /**
   Dropping shadowed entries and obsolete tombstones keeps every read of the inputs and the deeper levels at or after the
   oldest snapshot.
   */
  lemma DroppingKeepsReads(v: Version, level: nat, ins: Inputs, snapshot: nat, u: UserKey, s: nat, r: Option<Entry>, q: Option<Entry>)
    requires Readable(v) && Picked(v, level, ins) && DistinctNumbers(v[level]) && DistinctNumbers(v[level + 1]) && s >= snapshot
    requires IsNewest(LevelItems(ins.upper + ins.lower) + DeepItems(v, level + 2), u, s, r)
    requires IsNewest(Items(Survivors(MergedInputs(ins), None, snapshot, v, level)) + DeepItems(v, level + 2), u, s, q)
    ensures Serves(q, r) && Outcome(q) == Outcome(r)
  {
    AroundAll(v, level, ins);
    AroundStacked(v, level, ins);
    SurvivorsKept(v, level, ins, snapshot);
    if IsBase(v, level, u) { BaseHoldsNothing(v, level, u); }
    var kept := Items(Survivors(MergedInputs(ins), None, snapshot, v, level));
    DroppingAlone(AroundOf(v, level, ins), kept, snapshot, v, level, u, s, r, q);
    ServesOutcome(q, r);
  }

  // --- The version after the compaction -----------------------------------------------------

  /** One file lies altogether before the other. */
  ghost predicate KeyApart(f: Sst, g: Sst) { Ahead(Largest(f), g.smallest) || Ahead(Largest(g), f.smallest) }

  lemma LevelKeyDisjoint(fs: seq<Sst>)
    requires InOrder(fs) && FilesOk(fs) && forall f, g :: f in fs && g in fs && f != g ==> KeyApart(f, g)
    ensures KeyDisjoint(fs)
  {
    forall i, j | 0 <= i < j < |fs| ensures Ahead(Largest(fs[i]), fs[j].smallest) {
      assert fs[i] in fs && fs[j] in fs && Precedes(fs[i], fs[j]);
      PrecedesTotal(fs[i], fs[i]);
      AtOrBeforeLargest(fs[j], fs[j].body.entries[0]);
    }
  }

  lemma KeyApartIn(fs: seq<Sst>, f: Sst, g: Sst)
    requires KeyDisjoint(fs) && f in fs && g in fs && f != g
    ensures KeyApart(f, g)
  {
    var i :| 0 <= i < |fs| && fs[i] == f;
    var j :| 0 <= j < |fs| && fs[j] == g;
    if i < j { assert Ahead(Largest(fs[i]), fs[j].smallest); } else { assert Ahead(Largest(fs[j]), fs[i].smallest); }
  }

  /** Files cut from a sorted run. */
  lemma {:induction false} CutsKeyDisjoint(fs: seq<Sst>)
    requires FilesOk(fs) && Sorted(Concat(fs))
    ensures KeyDisjoint(fs)
  {
    if fs != [] {
      var f, rest := fs[0], fs[1..];
      assert fs == [f] + rest;
      assert f in fs;
      var n, t := |f.body.entries|, Concat(fs);
      assert Concat(rest) == t[n..];
      CutsKeyDisjoint(rest);
      forall j | 0 <= j < |rest| ensures Ahead(Largest(f), rest[j].smallest) {
        assert FileOk(rest[j]);
        var e := rest[j].body.entries[0];
        assert rest[j] in rest && e in rest[j].body.entries;
        assert e in LevelItems(rest);
        var k :| 0 <= k < |t[n..]| && t[n..][k] == e;
        assert Ahead(t[n - 1].key, t[n + k].key);
      }
    }
  }

  /** A file of the output level that is no input lies altogether before or after every input entry. */
  lemma BesideKeyApart(v: Version, level: nat, ins: Inputs, h: Sst, e: Entry)
    requires Searchable(v) && Picked(v, level, ins) && h in v[level + 1] && h !in ins.lower && e in LevelItems(ins.upper + ins.lower)
    requires Bounded(Hull(ins.upper))
    ensures Max(h) < Hull(ins.upper).lo.value ==> Ahead(Largest(h), e.key)
    ensures Max(h) >= Hull(ins.upper).lo.value ==> Ahead(e.key, h.smallest)
  {
    UpperFilesOk(v, level, ins);
    MinMax(h);
    var y :| y in ins.upper + ins.lower && e in y.body.entries;
    if y in ins.upper {
      InRange(y, e);
    } else {
      assert y in ins.lower && Meets(y, Hull(ins.upper));
      KeyApartIn(v[level + 1], y, h);
      MinMax(y);
      AtOrBeforeLargest(y, e);
    }
  }

  lemma OutsMade(v: Version, level: nat, ins: Inputs, outs: seq<Sst>, snapshot: nat)
    requires Compacts(v, level, ins, outs, snapshot)
    ensures KeyDisjoint(outs) && Made(outs, ins.upper + ins.lower)
    ensures LevelItems(outs) == Items(Survivors(MergedInputs(ins), None, snapshot, v, level))
  {
    SurvivorsKept(v, level, ins, snapshot);
    CutsKeyDisjoint(outs);
    assert forall e :: e in LevelItems(outs) <==> e in Concat(outs);
    forall o | o in outs ensures FileItems(o) <= LevelItems(ins.upper + ins.lower) {
      forall e | e in FileItems(o) ensures e in LevelItems(ins.upper + ins.lower) { assert e in LevelItems(outs); }
    }
  }

  lemma OutBeside(v: Version, level: nat, ins: Inputs, o: Sst, h: Sst)
    requires Searchable(v) && Picked(v, level, ins) && h in v[level + 1] && h !in ins.lower
    requires FileOk(o) && FileItems(o) <= LevelItems(ins.upper + ins.lower)
    ensures KeyApart(o, h)
  {
    UpperFilesOk(v, level, ins);
    var t := o.body.entries;
    assert t[0] in FileItems(o) && t[|t| - 1] in FileItems(o);
    BesideKeyApart(v, level, ins, h, t[0]);
    BesideKeyApart(v, level, ins, h, t[|t| - 1]);
  }

  lemma OutputLevelDisjoint(v: Version, level: nat, ins: Inputs, outs: seq<Sst>, fs: seq<Sst>)
    requires Searchable(v) && Picked(v, level, ins) && FilesOk(outs) && KeyDisjoint(outs) && Made(outs, ins.upper + ins.lower)
    requires InOrder(fs) && forall g :: g in fs <==> (g in v[level + 1] && g !in ins.lower) || g in outs
    ensures FilesOk(fs) && KeyDisjoint(fs)
  {
    forall f, g | f in fs && g in fs && f != g ensures KeyApart(f, g) {
      if f in outs && g in outs {
        KeyApartIn(outs, f, g);
      } else if f in outs {
        OutBeside(v, level, ins, f, g);
      } else if g in outs {
        OutBeside(v, level, ins, g, f);
      } else {
        KeyApartIn(v[level + 1], f, g);
      }
    }
    LevelKeyDisjoint(fs);
  }

  lemma InputLevelSearchable(v: Version, level: nat, fs: seq<Sst>)
    requires Searchable(v) && level < |v| && InOrder(fs) && DistinctNumbers(v[level]) && forall g :: g in fs ==> g in v[level]
    ensures FilesOk(fs) && DistinctNumbers(fs)
    ensures level > 0 ==> KeyDisjoint(fs)
    ensures level == 0 ==> NumberedByAge(fs)
  {
    DistinctMembers(v[level]);
    LevelDistinct(fs);
    if level > 0 { SubKeyDisjoint(v[level], fs); }
  }

  lemma CompactsMembers(v: Version, level: nat, ins: Inputs, outs: seq<Sst>, snapshot: nat)
    requires Compacts(v, level, ins, outs, snapshot)
    ensures
      var v' := Compacted(v, level, ins, outs);
      CompactedTo(v, level, ins, outs, v') && InOrder(v'[level]) && InOrder(v'[level + 1])
  {
    CompactedMembers(v, level, ins, outs);
  }

  lemma TwoLevelsSearchable(v: Version, level: nat, v': Version)
    requires Searchable(v) && |v'| == |v| && level + 1 < |v|
    requires forall l :: 0 <= l < |v| && l != level && l != level + 1 ==> v'[l] == v[l]
    requires FilesOk(v'[level]) && DistinctNumbers(v'[level]) && FilesOk(v'[level + 1]) && KeyDisjoint(v'[level + 1])
    requires if level == 0 then NumberedByAge(v'[0]) else KeyDisjoint(v'[level])
    ensures Searchable(v')
  {
  }

  lemma CompactedSearchable(v: Version, level: nat, ins: Inputs, outs: seq<Sst>, snapshot: nat)
    requires Compacts(v, level, ins, outs, snapshot)
    ensures Searchable(Compacted(v, level, ins, outs))
  {
    var v' := Compacted(v, level, ins, outs);
    CompactsMembers(v, level, ins, outs, snapshot);
    OutsMade(v, level, ins, outs, snapshot);
    InputLevelSearchable(v, level, v'[level]);
    OutputLevelDisjoint(v, level, ins, outs, v'[level + 1]);
    TwoLevelsSearchable(v, level, v');
  }

  lemma AboveItems(v: Version, level: nat, ins: Inputs, outs: seq<Sst>, v': Version)
    requires level + 1 < |v| && CompactedTo(v, level, ins, outs, v')
    ensures ItemsIn(v', 0, level + 1) == Above(v, level, ins)
  {
    forall e | e in Above(v, level, ins) ensures e in ItemsIn(v', 0, level + 1) {
      var k, f :| 0 <= k <= level && f in v[k] && !(k == level && f in ins.upper) && e in f.body.entries;
      assert Remains(v, level, ins, k, f) && f in v'[k];
      assert e in LevelItems(v'[k]);
    }
    forall e | e in ItemsIn(v', 0, level + 1) ensures e in Above(v, level, ins) {
      var k :| 0 <= k < level + 1 && e in LevelItems(v'[k]);
      var f :| f in v'[k] && e in f.body.entries;
      assert Remains(v, level, ins, k, f);
    }
  }

  lemma BelowItems(v: Version, level: nat, ins: Inputs, outs: seq<Sst>, v': Version)
    requires level + 1 < |v| && CompactedTo(v, level, ins, outs, v')
    ensures ItemsIn(v', level + 1, |v'|) == LevelItems(outs) + Beside(v, level, ins) + DeepItems(v, level + 2)
  {
    var all, deep := ItemsIn(v', level + 1, |v'|), DeepItems(v, level + 2);
    forall e | e in all ensures e in LevelItems(outs) + Beside(v, level, ins) + deep {
      var k :| level + 1 <= k < |v'| && e in LevelItems(v'[k]);
      var f :| f in v'[k] && e in f.body.entries;
      if f !in outs || k > level + 1 {
        assert Remains(v, level, ins, k, f);
        assert k > level + 1 ==> e in LevelItems(v[k]);
      }
    }
    forall e | e in LevelItems(outs) ensures e in all {
      var o :| o in outs && e in o.body.entries;
      assert o in v'[level + 1] && e in LevelItems(v'[level + 1]);
    }
    forall e | e in Beside(v, level, ins) ensures e in all {
      var f :| f in v[level + 1] && f !in ins.lower && e in f.body.entries;
      assert Remains(v, level, ins, level + 1, f) && e in LevelItems(v'[level + 1]);
    }
    forall e | e in deep ensures e in all {
      var k :| level + 2 <= k < |v| && e in LevelItems(v[k]);
      var f :| f in v[k] && e in f.body.entries;
      assert Remains(v, level, ins, k, f) && e in LevelItems(v'[k]);
    }
  }

  lemma CompactedLayers(v: Version, level: nat, ins: Inputs, outs: seq<Sst>, v': Version)
    requires Layered(v) && Picked(v, level, ins) && CompactedTo(v, level, ins, outs, v') && Made(outs, ins.upper + ins.lower)
    ensures LayeredIn(v', 0, level + 1) && LayeredIn(v', level + 1, |v'|)
  {
    forall a, b, f, g | level + 1 <= a < b < |v'| && f in v'[a] && g in v'[b] ensures Over(FileItems(f), FileItems(g)) {
      assert Remains(v, level, ins, b, g);
      if !Remains(v, level, ins, a, f) { OutputOverDeeper(v, level, ins, f, b, g); }
    }
  }

  /** The read after the compaction: first what lies above, then outputs, what lies beside them and the deeper levels. */
  lemma ReadAfter(v: Version, level: nat, ins: Inputs, outs: seq<Sst>, snapshot: nat, u: UserKey, s: nat)
    returns (q: Option<Entry>, c: Option<Entry>)
    requires Compacts(v, level, ins, outs, snapshot)
    ensures SearchFrom(Compacted(v, level, ins, outs), 0, u, s) == First(q, c)
    ensures IsNewest(Above(v, level, ins), u, s, q)
    ensures IsNewest(Items(Survivors(MergedInputs(ins), None, snapshot, v, level)) + Beside(v, level, ins) +
        DeepItems(v, level + 2), u, s, c)
  {
    var v' := Compacted(v, level, ins, outs);
    CompactsMembers(v, level, ins, outs, snapshot);
    CompactedSearchable(v, level, ins, outs, snapshot);
    OutsMade(v, level, ins, outs, snapshot);
    CompactedLayers(v, level, ins, outs, v');
    q, c := SearchIn(v', 0, level + 1, u, s), SearchIn(v', level + 1, |v'|, u, s);
    SearchSplit(v', 0, level + 1, u, s);
    SearchInNewest(v', 0, level + 1, u, s);
    SearchInNewest(v', level + 1, |v'|, u, s);
    AboveItems(v, level, ins, outs, v');
    BelowItems(v, level, ins, outs, v');
  }

  lemma CompactionKeeps(v: Version, level: nat, ins: Inputs, outs: seq<Sst>, snapshot: nat, u: UserKey, s: nat)
    requires Compacts(v, level, ins, outs, snapshot) && s >= snapshot
    requires !LeavesOlder(v, level, ins, snapshot) && !Uncovers(v, level, ins, snapshot)
    ensures Serves(SearchFrom(Compacted(v, level, ins, outs), 0, u, s), SearchFrom(v, 0, u, s))
  {
    var a := AroundOf(v, level, ins);
    var kept := Items(Survivors(MergedInputs(ins), None, snapshot, v, level));
    var q, c := ReadAfter(v, level, ins, outs, snapshot, u, s);
    SearchFromNewest(v, 0, u, s);
    AroundAll(v, level, ins);
    AroundStacked(v, level, ins);
    SurvivorsKept(v, level, ins, snapshot);
    if IsBase(v, level, u) { BaseHoldsNothing(v, level, u); }
    forall e, x | e in a.Ins() && !Needed(a.Ins(), e, snapshot, v, level) && Top(a.Ins(), e, snapshot) && x in a.beside
      ensures !Exposes(a.above + a.beside, x, e, snapshot)
    {
      assert DropsTombstone(v, level, ins, e, snapshot);
    }
    SetsKeep(a, kept, snapshot, v, level, u, s, SearchFrom(v, 0, u, s), q, c);
  }

  lemma CompactionLosesAbove(v: Version, level: nat, ins: Inputs, outs: seq<Sst>, snapshot: nat, e: Entry, x: Entry)
    requires Compacts(v, level, ins, outs, snapshot)
    requires e in LevelItems(ins.upper) && x in Above(v, level, ins) && Exposes(Above(v, level, ins), x, e, snapshot)
    ensures
      var s := Later(e.key.sequence, snapshot);
      !Serves(SearchFrom(Compacted(v, level, ins, outs), 0, e.key.user, s), SearchFrom(v, 0, e.key.user, s))
  {
    var s := Later(e.key.sequence, snapshot);
    var q, c := ReadAfter(v, level, ins, outs, snapshot, e.key.user, s);
    SearchFromNewest(v, 0, e.key.user, s);
    AroundAll(v, level, ins);
    AroundStacked(v, level, ins);
    AboveLoses(AroundOf(v, level, ins), snapshot, e, x, SearchFrom(v, 0, e.key.user, s), q, c);
  }

  lemma CompactionLosesBeside(v: Version, level: nat, ins: Inputs, outs: seq<Sst>, snapshot: nat, e: Entry, x: Entry)
    requires Compacts(v, level, ins, outs, snapshot) && DropsTombstone(v, level, ins, e, snapshot)
    requires x in Beside(v, level, ins) && Exposes(Above(v, level, ins) + Beside(v, level, ins), x, e, snapshot)
    ensures !Serves(SearchFrom(Compacted(v, level, ins, outs), 0, e.key.user, snapshot), SearchFrom(v, 0, e.key.user, snapshot))
  {
    var u, kept := e.key.user, Items(Survivors(MergedInputs(ins), None, snapshot, v, level));
    var q, c := ReadAfter(v, level, ins, outs, snapshot, u, snapshot);
    SearchFromNewest(v, 0, u, snapshot);
    AroundAll(v, level, ins);
    AroundStacked(v, level, ins);
    SurvivorsKept(v, level, ins, snapshot);
    BaseHoldsNothing(v, level, u);
    BesideLoses(AroundOf(v, level, ins), kept, snapshot, v, level, e, x, SearchFrom(v, 0, u, snapshot), q, c);
  }

  /**
   Installing a compaction keeps every read at or after the oldest snapshot if and only if no older version of an input's
   key stays behind in the input level, and no dropped tombstone hid an older version that stays in the output level.
   */
  lemma CompactionKeepsReadsIff(v: Version, level: nat, ins: Inputs, outs: seq<Sst>, snapshot: nat)
    requires Compacts(v, level, ins, outs, snapshot)
    ensures (forall u, s :: s >= snapshot ==> Serves(SearchFrom(Compacted(v, level, ins, outs), 0, u, s), SearchFrom(v, 0, u, s)))
      <==> !LeavesOlder(v, level, ins, snapshot) && !Uncovers(v, level, ins, snapshot)
  {
    if LeavesOlder(v, level, ins, snapshot) {
      var e, x :| e in LevelItems(ins.upper) && x in Above(v, level, ins) && Exposes(Above(v, level, ins), x, e, snapshot);
      CompactionLosesAbove(v, level, ins, outs, snapshot, e, x);
    } else if Uncovers(v, level, ins, snapshot) {
      var e, x :| DropsTombstone(v, level, ins, e, snapshot) && x in Beside(v, level, ins)
        && Exposes(Above(v, level, ins) + Beside(v, level, ins), x, e, snapshot);
      CompactionLosesBeside(v, level, ins, outs, snapshot, e, x);
    } else {
      forall u, s: nat | s >= snapshot
        ensures Serves(SearchFrom(Compacted(v, level, ins, outs), 0, u, s), SearchFrom(v, 0, u, s))
      {
        CompactionKeeps(v, level, ins, outs, snapshot, u, s);
      }
    }
  }

  /** An older version that stays in the input level gives a reader at the snapshot or later another answer. */
  ghost predicate LeavesStale(v: Version, level: nat, ins: Inputs, snapshot: nat)
    requires level < |v|
  {
    exists e, x :: e in LevelItems(ins.upper) && Misleads(AllItems(v), Above(v, level, ins), x, e, snapshot)
  }

  /** The newest version that stays in the output level under a dropped tombstone is no tombstone. */
  ghost predicate UncoversStale(v: Version, level: nat, ins: Inputs, snapshot: nat)
    requires level + 1 < |v|
  {
    exists e, x :: DropsTombstone(v, level, ins, e, snapshot) && x in Beside(v, level, ins)
      && Misleads(AllItems(v), Above(v, level, ins) + Beside(v, level, ins), x, e, snapshot)
  }

  lemma CompactionAnswers(v: Version, level: nat, ins: Inputs, outs: seq<Sst>, snapshot: nat, u: UserKey, s: nat)
    requires Compacts(v, level, ins, outs, snapshot) && s >= snapshot
    requires !LeavesStale(v, level, ins, snapshot) && !UncoversStale(v, level, ins, snapshot)
    ensures Outcome(SearchFrom(Compacted(v, level, ins, outs), 0, u, s)) == Outcome(SearchFrom(v, 0, u, s))
  {
    var a := AroundOf(v, level, ins);
    var q, c := ReadAfter(v, level, ins, outs, snapshot, u, s);
    SearchFromNewest(v, 0, u, s);
    AroundAll(v, level, ins);
    AroundStacked(v, level, ins);
    if q.Some? {
      AnsweredAbove(a, u, s, snapshot, SearchFrom(v, 0, u, s), q);
    } else {
      SurvivorsKept(v, level, ins, snapshot);
      if IsBase(v, level, u) { BaseHoldsNothing(v, level, u); }
      forall e, x | e in a.Ins() && !Needed(a.Ins(), e, snapshot, v, level) && Top(a.Ins(), e, snapshot) && x in a.beside
        ensures !Misleads(a.All(), a.above + a.beside, x, e, snapshot)
      {
        assert DropsTombstone(v, level, ins, e, snapshot);
      }
      var kept := Items(Survivors(MergedInputs(ins), None, snapshot, v, level));
      AnsweredBelow(a, kept, snapshot, v, level, u, s, SearchFrom(v, 0, u, s), c);
    }
  }

  lemma CompactionMisleadsAbove(v: Version, level: nat, ins: Inputs, outs: seq<Sst>, snapshot: nat, e: Entry, x: Entry)
    requires Compacts(v, level, ins, outs, snapshot)
    requires e in LevelItems(ins.upper) && Misleads(AllItems(v), Above(v, level, ins), x, e, snapshot)
    ensures
      var s := Later(e.key.sequence, snapshot);
      Outcome(SearchFrom(Compacted(v, level, ins, outs), 0, e.key.user, s)) != Outcome(SearchFrom(v, 0, e.key.user, s))
  {
    var s := Later(e.key.sequence, snapshot);
    var q, c := ReadAfter(v, level, ins, outs, snapshot, e.key.user, s);
    SearchFromNewest(v, 0, e.key.user, s);
    AroundAll(v, level, ins);
    AroundStacked(v, level, ins);
    MisledAbove(AroundOf(v, level, ins), snapshot, e, x, SearchFrom(v, 0, e.key.user, s), q);
  }

  lemma CompactionMisleadsBeside(v: Version, level: nat, ins: Inputs, outs: seq<Sst>, snapshot: nat, e: Entry, x: Entry)
    requires Compacts(v, level, ins, outs, snapshot) && DropsTombstone(v, level, ins, e, snapshot)
    requires x in Beside(v, level, ins) && Misleads(AllItems(v), Above(v, level, ins) + Beside(v, level, ins), x, e, snapshot)
    ensures
      var u := e.key.user;
      Outcome(SearchFrom(Compacted(v, level, ins, outs), 0, u, snapshot)) != Outcome(SearchFrom(v, 0, u, snapshot))
  {
    var u, kept := e.key.user, Items(Survivors(MergedInputs(ins), None, snapshot, v, level));
    var q, c := ReadAfter(v, level, ins, outs, snapshot, u, snapshot);
    SearchFromNewest(v, 0, u, snapshot);
    AroundAll(v, level, ins);
    AroundStacked(v, level, ins);
    SurvivorsKept(v, level, ins, snapshot);
    BaseHoldsNothing(v, level, u);
    MisledBeside(AroundOf(v, level, ins), kept, snapshot, v, level, e, x, SearchFrom(v, 0, u, snapshot), q, c);
  }

  /** The same for what the reader is told: a version exposed with the same answer, such as a second tombstone, does no harm. */
  lemma CompactionKeepsAnswersIff(v: Version, level: nat, ins: Inputs, outs: seq<Sst>, snapshot: nat)
    requires Compacts(v, level, ins, outs, snapshot)
    ensures
      (forall u, s :: s >= snapshot ==>
         Outcome(SearchFrom(Compacted(v, level, ins, outs), 0, u, s)) == Outcome(SearchFrom(v, 0, u, s)))
      <==> !LeavesStale(v, level, ins, snapshot) && !UncoversStale(v, level, ins, snapshot)
  {
    if LeavesStale(v, level, ins, snapshot) {
      var e, x :| e in LevelItems(ins.upper) && Misleads(AllItems(v), Above(v, level, ins), x, e, snapshot);
      CompactionMisleadsAbove(v, level, ins, outs, snapshot, e, x);
    } else if UncoversStale(v, level, ins, snapshot) {
      var e, x :| DropsTombstone(v, level, ins, e, snapshot) && x in Beside(v, level, ins)
        && Misleads(AllItems(v), Above(v, level, ins) + Beside(v, level, ins), x, e, snapshot);
      CompactionMisleadsBeside(v, level, ins, outs, snapshot, e, x);
    } else {
      forall u, s: nat | s >= snapshot
        ensures Outcome(SearchFrom(Compacted(v, level, ins, outs), 0, u, s)) == Outcome(SearchFrom(v, 0, u, s))
      {
        CompactionAnswers(v, level, ins, outs, snapshot, u, s);
      }
    }
  }

  /** With disjoint levels nothing older is exposed. */
  lemma DisjointExposesNothing(v: Version, level: nat, ins: Inputs, snapshot: nat)
    requires VersionOk(v) && Picked(v, level, ins) && GoodInputs(v, level, ins)
    ensures !LeavesOlder(v, level, ins, snapshot) && !Uncovers(v, level, ins, snapshot)
  {
    forall e, x | e in LevelItems(ins.upper) && x in Above(v, level, ins) && x.key.user == e.key.user
      ensures x.key.sequence > e.key.sequence
    {
      var k, f :| 0 <= k <= level && f in v[k] && !(k == level && f in ins.upper) && x in f.body.entries;
      var g :| g in ins.upper && e in g.body.entries;
      if k == level { ApartShareNothing(f, g); }
      assert x in FileItems(f) && e in FileItems(g) && Over(FileItems(f), FileItems(g));
    }
    forall e, x | e in LevelItems(ins.upper + ins.lower) && x in Beside(v, level, ins) ensures x.key.user != e.key.user {
      var f :| f in v[level + 1] && f !in ins.lower && x in f.body.entries;
      AllMeet(v, level, ins);
      InputInHull(ins.upper + ins.lower, e);
      InRange(f, x);
    }
  }

  /** On a version with disjoint levels a compaction keeps every read at or after the oldest snapshot. */
  lemma CompactionKeepsReads(v: Version, level: nat, f: Sst, limit: nat, outs: seq<Sst>, snapshot: nat, u: UserKey, s: nat)
    requires VersionOk(v) && level + 1 < NUM_LEVELS && f in v[level] && s >= snapshot
    requires Compacts(v, level, PickInputs(v, level, f, limit), outs, snapshot)
    ensures Outcome(SearchFrom(Compacted(v, level, PickInputs(v, level, f, limit), outs), 0, u, s)) == Outcome(SearchFrom(v, 0, u, s))
  {
    var ins := PickInputs(v, level, f, limit);
    PickInputsGood(v, level, f, limit);
    DisjointExposesNothing(v, level, ins, snapshot);
    CompactionKeeps(v, level, ins, outs, snapshot, u, s);
    ServesOutcome(SearchFrom(Compacted(v, level, ins, outs), 0, u, s), SearchFrom(v, 0, u, s));
  }

  /** The file after f in its level starts with older versions of f's last user key. */
  ghost predicate SharesBoundary(fs: seq<Sst>, f: Sst)
  {
    exists i :: 0 <= i < |fs| - 1 && Borders(fs, f, i)
  }

  ghost predicate Borders(fs: seq<Sst>, f: Sst, i: nat)
    requires i + 1 < |fs|
  {
    fs[i] == f && Min(fs[i + 1]) == Max(f)
  }

  /** A file that the picker moves down alone: nothing in the next level meets it. */
  ghost predicate MovesAlone(v: Version, level: nat, f: Sst)
  {
    && Readable(v) && 1 <= level && level + 1 < NUM_LEVELS && f in v[level]
    && InOrder(v[level]) && DistinctNumbers(v[level]) && InOrder(v[level + 1])
    && (forall g :: g in v[level + 1] ==> g.number != f.number && !Meets(g, RangeOf(f)))
  }

  lemma PickedAlone(v: Version, level: nat, f: Sst, limit: nat)
    requires MovesAlone(v, level, f)
    ensures PickInputs(v, level, f, limit) == Inputs([f], [])
  {
    assert Hull([f]) == RangeOf(f);
    NoneMeet(v[level + 1], RangeOf(f));
  }

  lemma NoneMeet(fs: seq<Sst>, r: Range)
    requires forall g :: g in fs ==> !Meets(g, r)
    ensures Meeting(fs, r) == []
  {
    if Meeting(fs, r) != [] { assert Meeting(fs, r)[0] in Meeting(fs, r); }
  }

  lemma SubKeyDisjoint(a: seq<Sst>, b: seq<Sst>)
    requires KeyDisjoint(a) && FilesOk(a) && InOrder(b) && forall f :: f in b ==> f in a
    ensures KeyDisjoint(b)
  {
    forall i, j | 0 <= i < j < |b| ensures Ahead(Largest(b[i]), b[j].smallest) {
      assert b[i] in b && b[j] in b && Precedes(b[i], b[j]);
      PrecedesTotal(b[i], b[i]);
      var k :| 0 <= k < |a| && a[k] == b[i];
      var m :| 0 <= m < |a| && a[m] == b[j];
      if m < k {
        assert Ahead(Largest(a[m]), a[k].smallest);
        AtOrBeforeLargest(a[m], a[m].body.entries[0]);
      }
    }
  }

  lemma JoinKeyDisjoint(a: seq<Sst>, f: Sst, b: seq<Sst>)
    requires KeyDisjoint(a) && FilesOk(a) && FileOk(f) && InOrder(b) && forall g :: g in b ==> g in a || g == f
    requires forall g :: g in a ==> Apart(f, g)
    ensures KeyDisjoint(b)
  {
    forall i, j | 0 <= i < j < |b| ensures Ahead(Largest(b[i]), b[j].smallest) {
      assert b[i] in b && b[j] in b && Precedes(b[i], b[j]);
      PrecedesTotal(b[i], b[i]);
      if b[i] in a && b[j] in a {
        SubKeyDisjoint(a, [b[i], b[j]]);
        assert [b[i], b[j]][0] == b[i] && [b[i], b[j]][1] == b[j];
      } else {
        assert Apart(b[i], b[j]);
        MinMax(b[i]);
        MinMax(b[j]);
      }
    }
  }

  lemma MovedSearchable(v: Version, level: nat, f: Sst)
    requires MovesAlone(v, level, f)
    ensures CompactedTo(v, level, Inputs([f], []), [f], Moved(v, level, f))
    ensures Searchable(Moved(v, level, f)) && AllItems(Moved(v, level, f)) == AllItems(v)
  {
    var v' := Moved(v, level, f);
    MovedMembers(v, level, f);
    MovedItems(v, level, f, v');
    SubKeyDisjoint(v[level], v'[level]);
    forall g | g in v[level + 1] ensures Apart(f, g) { NotMeetingApart(f, g); }
    JoinKeyDisjoint(v[level + 1], f, v'[level + 1]);
  }

  /** What a read meets before the level that f moves to: the shallower levels and the rest of f's own. */
  ghost function Stayers(v: Version, level: nat, f: Sst): set<Entry>
    requires level < |v|
  {
    Above(v, level, Inputs([f], []))
  }

  ghost function Rest(v: Version, level: nat, f: Sst): set<Entry>
    requires level + 1 < |v|
  {
    Beside(v, level, Inputs([f], [])) + DeepItems(v, level + 2)
  }

  lemma AlonePicked(v: Version, level: nat, f: Sst)
    requires level + 1 < |v| && f in v[level] && forall g :: g in v[level + 1] ==> !Meets(g, RangeOf(f))
    ensures Picked(v, level, Inputs([f], []))
  {
    assert Hull([f]) == RangeOf(f);
    NoneMeet(v[level + 1], RangeOf(f));
  }

  lemma AloneAround(v: Version, level: nat, f: Sst)
    requires Layered(v) && Picked(v, level, Inputs([f], []))
    ensures AllItems(v) == Stayers(v, level, f) + FileItems(f) + Rest(v, level, f)
    ensures Over(Stayers(v, level, f), Rest(v, level, f))
  {
    AroundAll(v, level, Inputs([f], []));
    AroundOver(v, level, Inputs([f], []));
    assert LevelItems([f]) == FileItems(f) && LevelItems([]) == {};
  }

  lemma MovedAround(v: Version, level: nat, f: Sst)
    requires MovesAlone(v, level, f)
    ensures Picked(v, level, Inputs([f], [])) && Unique(AllItems(v))
    ensures AllItems(v) == Stayers(v, level, f) + FileItems(f) + Rest(v, level, f)
    ensures Over(Stayers(v, level, f), Rest(v, level, f))
  {
    AlonePicked(v, level, f);
    AloneAround(v, level, f);
    ReadableUnique(v);
  }

  lemma MovedLayers(v: Version, level: nat, f: Sst)
    requires MovesAlone(v, level, f)
    ensures
      var v' := Moved(v, level, f);
      Searchable(v') && LayeredIn(v', 0, level + 1) && LayeredIn(v', level + 1, |v'|)
  {
    MovedSearchable(v, level, f);
    MovedAround(v, level, f);
    assert [f] + [] == [f] && Made([f], [f]);
    CompactedLayers(v, level, Inputs([f], []), [f], Moved(v, level, f));
  }

  /** The two halves of the version after the move. */
  lemma MovedHalves(v: Version, level: nat, f: Sst)
    requires MovesAlone(v, level, f)
    ensures
      var v' := Moved(v, level, f);
      && |v'| == |v| && ItemsIn(v', 0, level + 1) == Stayers(v, level, f)
      && ItemsIn(v', level + 1, |v'|) == FileItems(f) + Rest(v, level, f)
  {
    var v', ins := Moved(v, level, f), Inputs([f], []);
    MovedMembers(v, level, f);
    AboveItems(v, level, ins, [f], v');
    BelowItems(v, level, ins, [f], v');
    assert LevelItems([f]) == FileItems(f);
  }

  lemma MovedRead(v: Version, level: nat, f: Sst, u: UserKey, s: nat) returns (q: Option<Entry>, c: Option<Entry>)
    requires MovesAlone(v, level, f)
    ensures SearchFrom(Moved(v, level, f), 0, u, s) == First(q, c)
    ensures IsNewest(Stayers(v, level, f), u, s, q) && IsNewest(FileItems(f) + Rest(v, level, f), u, s, c)
  {
    var v' := Moved(v, level, f);
    MovedHalves(v, level, f);
    MovedLayers(v, level, f);
    q, c := SearchIn(v', 0, level + 1, u, s), SearchIn(v', level + 1, |v'|, u, s);
    SearchSplit(v', 0, level + 1, u, s);
    SearchInNewest(v', 0, level + 1, u, s);
    SearchInNewest(v', level + 1, |v'|, u, s);
  }

  /** A reader of u at s gets q instead of the newer r. */
  ghost predicate Replaced(q: Entry, r: Entry, u: UserKey, s: nat)
  {
    q.key.user == r.key.user == u && q.key.sequence < r.key.sequence <= s
  }

  /** A read after the move finds what stays above f's new level, and otherwise what it found before. */
  lemma ReadAfterMove(v: Version, level: nat, f: Sst, u: UserKey, s: nat) returns (q: Option<Entry>)
    requires MovesAlone(v, level, f)
    ensures IsNewest(Stayers(v, level, f), u, s, q)
    ensures
      var r := SearchFrom(v, 0, u, s);
      && SearchFrom(Moved(v, level, f), 0, u, s) == First(q, r)
      && (q.Some? && q != r ==> r.Some? && r.value in FileItems(f) && Replaced(q.value, r.value, u, s))
  {
    var c;
    q, c := MovedRead(v, level, f, u, s);
    SearchFromNewest(v, 0, u, s);
    MovedAround(v, level, f);
    FirstOrSame(Stayers(v, level, f), FileItems(f), Rest(v, level, f), u, s, SearchFrom(v, 0, u, s), q, c);
  }

  lemma FirstOrSame(a: set<Entry>, b: set<Entry>, d: set<Entry>, u: UserKey, s: nat,
                    r: Option<Entry>, q: Option<Entry>, c: Option<Entry>)
    requires Unique(a + b + d) && Over(a, d)
    requires IsNewest(a + b + d, u, s, r) && IsNewest(a, u, s, q) && IsNewest(b + d, u, s, c)
    ensures q.None? ==> c == r
    ensures q.Some? && q != r ==> r.Some? && r.value in b && Replaced(q.value, r.value, u, s)
  {
    if q.None? {
      assert r.Some? ==> r.value in b + d;
      assert c.Some? ==> c.value in a + b + d;
    } else {
      assert q.value in a + b + d;
    }
  }

  /** What stays behind and is older than an entry of f lies in the files after f, which start with f's last user key. */
  lemma LeftBehind(v: Version, level: nat, f: Sst, e: Entry, x: Entry) returns (i: nat)
    requires MovesAlone(v, level, f) && e in FileItems(f) && x in Stayers(v, level, f)
    requires x.key.user == e.key.user && x.key.sequence < e.key.sequence
    ensures i + 1 < |v[level]| && v[level][i] == f && Min(v[level][i + 1]) == Max(f) == e.key.user
    ensures x.key.sequence <= v[level][i + 1].smallest.sequence < Largest(f).sequence
  {
    var fs := v[level];
    var k, g :| 0 <= k <= level && g in v[k] && !(k == level && g in [f]) && x in g.body.entries;
    assert x in FileItems(g);
    assert k < level ==> Over(FileItems(g), FileItems(f));
    i :| 0 <= i < |fs| && fs[i] == f;
    var j :| 0 <= j < |fs| && fs[j] == g;
    AfterInLevel(fs, i, j, e, x);
  }

  lemma AfterInLevel(fs: seq<Sst>, i: nat, j: nat, e: Entry, x: Entry)
    requires FilesOk(fs) && KeyDisjoint(fs) && i < |fs| && j < |fs| && i != j
    requires e in fs[i].body.entries && x in fs[j].body.entries && x.key.user == e.key.user && x.key.sequence < e.key.sequence
    ensures i < j && Min(fs[i + 1]) == Max(fs[i]) == e.key.user
    ensures x.key.sequence <= fs[i + 1].smallest.sequence < Largest(fs[i]).sequence
  {
    assert fs[i] in fs && fs[j] in fs;
    AtOrBeforeLargest(fs[i], e);
    AtOrBeforeLargest(fs[j], x);
    var n := fs[i + 1];
    assert n in fs && Ahead(Largest(fs[i]), n.smallest) && (i + 1 < j ==> Ahead(Largest(n), fs[j].smallest));
    AtOrBeforeLargest(n, n.body.entries[0]);
  }

  /** An entry of a file of the level other than f stays. */
  lemma Stays(v: Version, level: nat, f: Sst, g: Sst, x: Entry)
    requires level < |v| && g in v[level] && g != f && x in g.body.entries
    ensures x in Stayers(v, level, f)
  {
    assert g !in [f];
  }

  /** What stays behind and a reader of e in f may see is not newer than the first entry of the next file. */
  lemma StaysOlder(v: Version, level: nat, f: Sst, e: Entry, y: Entry) returns (i: nat)
    requires MovesAlone(v, level, f) && e in f.body.entries
    requires y in Stayers(v, level, f) && Sees(y, e.key.user, e.key.sequence)
    ensures i + 1 < |v[level]| && v[level][i] == f && y.key.sequence <= v[level][i + 1].smallest.sequence
  {
    MovedAround(v, level, f);
    assert f in [f] && e in LevelItems([f]);
    AboveNoTies(v, level, Inputs([f], []), y, e);
    i := LeftBehind(v, level, f, e, y);
  }

  lemma NextStays(v: Version, level: nat, f: Sst, i: nat, e: Entry)
    requires MovesAlone(v, level, f) && i + 1 < |v[level]| && v[level][i] == f && e in f.body.entries
    requires Min(v[level][i + 1]) == e.key.user
    ensures
      var x := v[level][i + 1];
      && FileOk(x) && x.body.entries[0] in Stayers(v, level, f) && Sees(x.body.entries[0], e.key.user, e.key.sequence)
      && x.smallest.sequence < e.key.sequence
  {
    var x := v[level][i + 1];
    assert FileOk(f) && FileOk(x) && x in v[level] && Ahead(Largest(f), x.smallest);
    AtOrBeforeLargest(f, e);
    Stays(v, level, f, x, x.body.entries[0]);
  }

  /** Readers of an entry of f are served it before the move and the first entry of the next file after it. */
  lemma NextIsRead(v: Version, level: nat, f: Sst, i: nat, e: Entry)
    requires MovesAlone(v, level, f) && i + 1 < |v[level]| && v[level][i] == f && e in f.body.entries
    requires Min(v[level][i + 1]) == e.key.user
    ensures v[level][i + 1].body.entries != []
    ensures
      var u, s := e.key.user, e.key.sequence;
      && SearchFrom(v, 0, u, s) == Some(e)
      && SearchFrom(Moved(v, level, f), 0, u, s) == Some(v[level][i + 1].body.entries[0])
      && v[level][i + 1].smallest.sequence < s
  {
    NextStays(v, level, f, i, e);
    var u, s, d := e.key.user, e.key.sequence, v[level][i + 1].body.entries[0];
    forall y | y in Stayers(v, level, f) && Sees(y, u, s) ensures y.key.sequence <= d.key.sequence {
      var j := StaysOlder(v, level, f, e, y);
    }
    var q := ReadAfterMove(v, level, f, u, s);
    SearchFromNewest(v, 0, u, s);
    MovedAround(v, level, f);
    assert e in AllItems(v);
    NewestIs(AllItems(v), u, s, SearchFrom(v, 0, u, s), e);
    NewestIs(Stayers(v, level, f), u, s, q, d);
  }

  lemma MoveKeepsRead(v: Version, level: nat, f: Sst, u: UserKey, s: nat)
    requires MovesAlone(v, level, f) && !SharesBoundary(v[level], f)
    ensures SearchFrom(Moved(v, level, f), 0, u, s) == SearchFrom(v, 0, u, s)
  {
    var q := ReadAfterMove(v, level, f, u, s);
    var r := SearchFrom(v, 0, u, s);
    if q.Some? && q != r {
      var i := LeftBehind(v, level, f, r.value, q.value);
      assert Borders(v[level], f, i);
    }
  }

  /**
   Moving a file down from level 1 or deeper keeps every read at every sequence number if and only if the file after it
   does not start with older versions of its last user key.
   */
  lemma MoveKeepsReadsIff(v: Version, level: nat, f: Sst)
    requires MovesAlone(v, level, f)
    ensures (forall u, s :: SearchFrom(Moved(v, level, f), 0, u, s) == SearchFrom(v, 0, u, s)) <==> !SharesBoundary(v[level], f)
  {
    if SharesBoundary(v[level], f) {
      var i :| 0 <= i < |v[level]| - 1 && Borders(v[level], f, i);
      assert FileOk(f);
      NextIsRead(v, level, f, i, f.body.entries[|f.body.entries| - 1]);
    } else {
      forall u, s: nat ensures SearchFrom(Moved(v, level, f), 0, u, s) == SearchFrom(v, 0, u, s) {
        MoveKeepsRead(v, level, f, u, s);
      }
    }
  }

  /** The next file starts with another answer for f's last user key than some version of it in f. */
  ghost predicate StaleBoundary(fs: seq<Sst>, f: Sst)
  {
    exists i, e :: 0 <= i < |fs| - 1 && e in f.body.entries && StaleFor(fs, f, i, e)
  }

  ghost predicate StaleFor(fs: seq<Sst>, f: Sst, i: nat, e: Entry)
    requires i + 1 < |fs|
  {
    var t := fs[i + 1].body.entries;
    fs[i] == f && t != [] && Min(fs[i + 1]) == e.key.user && Outcome(Some(t[0])) != Outcome(Some(e))
  }

  /** The move keeps every answer if and only if the next file starts with the same answer as all versions in f. */
  lemma MoveKeepsAnswersIff(v: Version, level: nat, f: Sst)
    requires MovesAlone(v, level, f)
    ensures (forall u, s :: Outcome(SearchFrom(Moved(v, level, f), 0, u, s)) == Outcome(SearchFrom(v, 0, u, s)))
      <==> !StaleBoundary(v[level], f)
  {
    if StaleBoundary(v[level], f) {
      var i, e :| 0 <= i < |v[level]| - 1 && e in f.body.entries && StaleFor(v[level], f, i, e);
      NextIsRead(v, level, f, i, e);
    } else {
      forall u, s: nat ensures Outcome(SearchFrom(Moved(v, level, f), 0, u, s)) == Outcome(SearchFrom(v, 0, u, s)) {
        var q := ReadAfterMove(v, level, f, u, s);
        if q.Some? && q != SearchFrom(v, 0, u, s) { SameAnswer(v, level, f, u, s, SearchFrom(v, 0, u, s).value, q.value); }
      }
    }
  }

  lemma SameAnswer(v: Version, level: nat, f: Sst, u: UserKey, s: nat, r: Entry, q: Entry)
    requires MovesAlone(v, level, f) && !StaleBoundary(v[level], f)
    requires r in FileItems(f) && IsNewest(Stayers(v, level, f), u, s, Some(q))
    requires Replaced(q, r, u, s)
    ensures Outcome(Some(q)) == Outcome(Some(r))
  {
    var i := LeftBehind(v, level, f, r, q);
    NextStays(v, level, f, i, r);
    var d := v[level][i + 1].body.entries[0];
    assert d.key.sequence == q.key.sequence by { assert Sees(d, u, s); }
    MovedAround(v, level, f);
    assert q in AllItems(v) && d in AllItems(v);
    assert !StaleFor(v[level], f, i, r);
  }

  // --- The losses do occur ------------------------------------------------------------------

  function FileWith(n: nat, size: nat, t: seq<Entry>): Sst
    requires t != []
  {
    File(n, t[0].key, Table(size, t))
  }

  /**
   With a snapshot at 3, a compaction keeps versions 5 and 3 of one key, and an output file may end between them. Both
   files pass the code's own overlap check.
   */
  lemma LiveSnapshotSplitsKey(k: UserKey, recent: Bytes, earlier: Bytes, size: nat, v: Version, level: nat)
    ensures
      var e, d := Entry(IKey(k, 5, Value), recent), Entry(IKey(k, 3, Value), earlier);
      var f, x := FileWith(10, size, [e]), FileWith(11, size, [d]);
      && Survivors([e, d], None, 3, v, level) == Concat([f, x])
      && FilesOk([f, x]) && KeyDisjoint([f, x]) && InOrder([f, x]) && SharesBoundary([f, x], f)
  {
    var e, d := Entry(IKey(k, 5, Value), recent), Entry(IKey(k, 3, Value), earlier);
    var f, x := FileWith(10, size, [e]), FileWith(11, size, [d]);
    assert [e, d][1..] == [d] && [d][1..] == [];
    assert Survivors([d], Some(e.key), 3, v, level) == [d];
    assert [f, x][1..] == [x] && [x][1..] == [];
    assert Concat([x]) == [d];
    assert Borders([f, x], f, 0);
  }

  /** Two files of level 1 with some files below them. */
  function SplitVersion(f: Sst, x: Sst, below: seq<Sst>): Version { [[], [f, x], below, [], [], [], []] }

  lemma SplitReadable(f: Sst, x: Sst, below: seq<Sst>)
    requires FileOk(f) && FileOk(x) && Ahead(Largest(f), x.smallest) && Before(f.smallest, x.smallest) && f.number != x.number
    requires FilesOk(below) && KeyDisjoint(below)
    requires forall g :: g in below ==> Over(FileItems(f), FileItems(g)) && Over(FileItems(x), FileItems(g))
    ensures Readable(SplitVersion(f, x, below))
    ensures InOrder(SplitVersion(f, x, below)[1]) && DistinctNumbers(SplitVersion(f, x, below)[1])
  {
  }

  lemma NewestIs(a: set<Entry>, u: UserKey, s: nat, r: Option<Entry>, e: Entry)
    requires Unique(a) && IsNewest(a, u, s, r) && e in a && Sees(e, u, s)
    requires forall x :: x in a && Sees(x, u, s) ==> x.key.sequence <= e.key.sequence
    ensures r == Some(e)
  {
  }

  lemma SplitRead(f: Sst, x: Sst, below: seq<Sst>, e: Entry)
    requires Readable(SplitVersion(f, x, below)) && e in f.body.entries
    ensures SearchFrom(SplitVersion(f, x, below), 0, e.key.user, e.key.sequence) == Some(e)
  {
    var v := SplitVersion(f, x, below);
    SearchFromNewest(v, 0, e.key.user, e.key.sequence);
    ReadableUnique(v);
    assert f in v[1] && e in LevelItems(v[1]) && e in AllItems(v);
    NewestIs(AllItems(v), e.key.user, e.key.sequence, SearchFrom(v, 0, e.key.user, e.key.sequence), e);
  }

  /** Moving the first of two files that share a key makes the read at 5 return version 3. */
  lemma MoveGoesBack(k: UserKey, size: nat, e: Entry, d: Entry)
    requires e.key == IKey(k, 5, Value) && d.key == IKey(k, 3, Value)
    ensures
      var f, x := FileWith(10, size, [e]), FileWith(11, size, [d]);
      var v := SplitVersion(f, x, []);
      && MovesAlone(v, 1, f) && SharesBoundary(v[1], f)
      && SearchFrom(v, 0, k, 5) == Some(e) && SearchFrom(Moved(v, 1, f), 0, k, 5) == Some(d)
  {
    var f, x := FileWith(10, size, [e]), FileWith(11, size, [d]);
    var v := SplitVersion(f, x, []);
    SplitReadable(f, x, []);
    assert f in v[1] && v[1][0] == f && v[1][1] == x && Borders(v[1], f, 0);
    NextIsRead(v, 1, f, 0, e);
  }

  // --- The same for a compaction ------------------------------------------------------------

  /** Version 3 of k begins the file after that of version 5; growing the inputs would pull in a second lower file. */
  ghost predicate SplitKeys(k: UserKey, m: UserKey, e: Entry, d: Entry, p: Entry, w: Entry, q: Entry)
  {
    && k < m && e.key == IKey(k, 5, Value) && d.key == IKey(k, 3, Value) && p.key == IKey(m, 2, Value)
    && w.key == IKey(k, 1, Value) && q.key == IKey(m, 1, Value)
  }

  /** Growing the upper inputs is refused when it would change the number of lower ones. */
  lemma GrowthRefused(v: Version, level: nat, f: Sst, limit: nat, lower: seq<Sst>, expanded: seq<Sst>)
    requires 1 <= level && level + 1 < |v| && lower == Meeting(v[level + 1], RangeOf(f))
    requires expanded == Meeting(v[level], Hull([f] + lower)) && |Meeting(v[level + 1], Hull(expanded))| != |lower|
    ensures PickInputs(v, level, f, limit) == Inputs([f], lower)
  {
    assert Hull([f]) == RangeOf(f);
  }

  lemma PairMeeting(a: Sst, b: Sst, r: Range)
    ensures Meeting([a, b], r) == (if Meets(a, r) then [a] else []) + (if Meets(b, r) then [b] else [])
  {
    assert [a, b][1..] == [b] && [b][1..] == [];
  }

  lemma PairHull(a: Sst, b: Sst)
    ensures Hull([a, b]) == Widen(RangeOf(a), b)
  {
    assert [a, b][..1] == [a];
  }

  lemma SplitPicked(k: UserKey, m: UserKey, f: Sst, x: Sst, g: Sst, h: Sst, limit: nat)
    requires k < m && RangeOf(f) == RangeOf(g) == Range(Some(k), Some(k))
    requires RangeOf(x) == Range(Some(k), Some(m)) && RangeOf(h) == Range(Some(m), Some(m))
    ensures PickInputs(SplitVersion(f, x, [g, h]), 1, f, limit) == Inputs([f], [g])
  {
    PairMeeting(g, h, RangeOf(f));
    assert [f] + [g] == [f, g];
    PairHull(f, g);
    PairMeeting(f, x, RangeOf(f));
    PairHull(f, x);
    PairMeeting(g, h, RangeOf(x));
    GrowthRefused(SplitVersion(f, x, [g, h]), 1, f, limit, [g], [f, x]);
  }

  lemma SplitSurvivors(f: Sst, g: Sst, e: Entry, w: Entry, v: Version)
    requires f.body.entries == [e] && g.body.entries == [w] && e.key.user == w.key.user
    requires e.key == IKey(e.key.user, 5, Value) && w.key == IKey(w.key.user, 1, Value)
    ensures Survivors(MergedInputs(Inputs([f], [g])), None, 3, v, 1) == [e, w]
  {
    assert ([f] + [g])[1..] == [g] && [g][1..] == [];
    assert MergeAll([g]) == [w];
    assert [e][1..] == [] && MergeTwo([e], [w]) == [e, w];
    assert [e, w][1..] == [w] && [w][1..] == [];
    assert Survivors([w], Some(e.key), 3, v, 1) == [w];
  }

  /** The four files, and the file that the compaction of f with g writes. */
  ghost predicate SplitFiles(f: Sst, x: Sst, g: Sst, h: Sst, o: Sst, e: Entry, w: Entry)
  {
    && FileOk(f) && FileOk(x) && FileOk(g) && FileOk(h) && FileOk(o)
    && f.body.entries == [e] && g.body.entries == [w] && o.body.entries == [e, w]
    && Ahead(Largest(f), x.smallest) && Ahead(Largest(g), h.smallest) && Before(g.smallest, h.smallest)
    && f.number == 10 && x.number == 11 && g.number == 4 && h.number == 5 && o.number == 20
  }

  lemma SplitCompacts(f: Sst, x: Sst, g: Sst, h: Sst, o: Sst, e: Entry, w: Entry)
    requires SplitFiles(f, x, g, h, o, e, w) && Readable(SplitVersion(f, x, [g, h]))
    requires InOrder([f, x]) && Picked(SplitVersion(f, x, [g, h]), 1, Inputs([f], [g]))
    requires e.key == IKey(e.key.user, 5, Value) && w.key == IKey(e.key.user, 1, Value)
    ensures Compacts(SplitVersion(f, x, [g, h]), 1, Inputs([f], [g]), [o], 3)
  {
    assert Concat([o]) == [e, w] by { assert [o][1..] == []; }
    SplitSurvivors(f, g, e, w, SplitVersion(f, x, [g, h]));
  }

  lemma SplitMade(k: UserKey, m: UserKey, f: Sst, x: Sst, g: Sst, h: Sst, o: Sst, e: Entry, d: Entry, p: Entry, w: Entry, q: Entry)
    requires SplitKeys(k, m, e, d, p, w, q) && SplitFiles(f, x, g, h, o, e, w) && x.body.entries == [d, p] && h.body.entries == [q]
    ensures Readable(SplitVersion(f, x, [g, h])) && InOrder([f, x]) && DistinctNumbers([f, x])
    ensures RangeOf(f) == RangeOf(g) == Range(Some(k), Some(k))
    ensures RangeOf(x) == Range(Some(k), Some(m)) && RangeOf(h) == Range(Some(m), Some(m))
  {
    SplitReadable(f, x, [g, h]);
  }

  /**
   An ordinary compaction goes back as well, whatever the limit for growing the inputs: with a snapshot at 3, the read at 5
   returns version 3.
   */
  lemma CompactionGoesBack(k: UserKey, m: UserKey, size: nat, limit: nat, e: Entry, d: Entry, p: Entry, w: Entry, q: Entry)
    requires SplitKeys(k, m, e, d, p, w, q)
    ensures
      var f, x, g, h := FileWith(10, size, [e]), FileWith(11, size, [d, p]), FileWith(4, size, [w]), FileWith(5, size, [q]);
      var v, outs := SplitVersion(f, x, [g, h]), [FileWith(20, size, [e, w])];
      var ins := PickInputs(v, 1, f, limit);
      && Compacts(v, 1, ins, outs, 3) && LeavesOlder(v, 1, ins, 3)
      && SearchFrom(v, 0, k, 5) == Some(e) && SearchFrom(Compacted(v, 1, ins, outs), 0, k, 5) == Some(d)
  {
    var f, x, g, h := FileWith(10, size, [e]), FileWith(11, size, [d, p]), FileWith(4, size, [w]), FileWith(5, size, [q]);
    SplitGoesBack(k, m, f, x, g, h, FileWith(20, size, [e, w]), limit, e, d, p, w, q);
  }

  lemma SplitGoesBack(k: UserKey, m: UserKey, f: Sst, x: Sst, g: Sst, h: Sst, o: Sst, limit: nat,
                      e: Entry, d: Entry, p: Entry, w: Entry, q: Entry)
    requires SplitKeys(k, m, e, d, p, w, q) && SplitFiles(f, x, g, h, o, e, w) && x.body.entries == [d, p] && h.body.entries == [q]
    ensures
      var v := SplitVersion(f, x, [g, h]);
      var ins := PickInputs(v, 1, f, limit);
      && Compacts(v, 1, ins, [o], 3) && LeavesOlder(v, 1, ins, 3)
      && SearchFrom(v, 0, k, 5) == Some(e) && SearchFrom(Compacted(v, 1, ins, [o]), 0, k, 5) == Some(d)
  {
    var v, ins := SplitVersion(f, x, [g, h]), Inputs([f], [g]);
    SplitMade(k, m, f, x, g, h, o, e, d, p, w, q);
    SplitPicked(k, m, f, x, g, h, limit);
    assert f in v[1];
    PickInputsPicked(v, 1, f, limit);
    SplitCompacts(f, x, g, h, o, e, w);
    SplitRead(f, x, [g, h], e);
    SplitLeaves(f, x, g, h, e, d, p);
    OlderAbove(v, 1, ins, [o], 3, k, 5, d);
  }

  lemma SplitLeaves(f: Sst, x: Sst, g: Sst, h: Sst, e: Entry, d: Entry, p: Entry)
    requires f != x && f.body.entries == [e] && x.body.entries == [d, p] && d.key.user == e.key.user
    requires d.key.sequence < e.key.sequence && d.key.sequence <= 3 && p.key.user != e.key.user
    ensures
      var v, ins := SplitVersion(f, x, [g, h]), Inputs([f], [g]);
      && LeavesOlder(v, 1, ins, 3) && d in Above(v, 1, ins)
      && forall y :: y in Above(v, 1, ins) && y.key.user == d.key.user ==> y == d
  {
    var v, ins := SplitVersion(f, x, [g, h]), Inputs([f], [g]);
    SplitAbove(f, x, [g, h], ins);
    assert f in ins.upper && e in f.body.entries && d in x.body.entries;
    assert e in LevelItems(ins.upper);
    assert Exposes(Above(v, 1, ins), d, e, 3);
  }

  lemma OlderAbove(v: Version, level: nat, ins: Inputs, outs: seq<Sst>, snapshot: nat, u: UserKey, s: nat, d: Entry)
    requires Compacts(v, level, ins, outs, snapshot) && d in Above(v, level, ins) && Sees(d, u, s)
    requires forall y :: y in Above(v, level, ins) && y.key.user == u ==> y == d
    ensures SearchFrom(Compacted(v, level, ins, outs), 0, u, s) == Some(d)
  {
    var q, c := ReadAfter(v, level, ins, outs, snapshot, u, s);
  }

  lemma SplitAbove(f: Sst, x: Sst, below: seq<Sst>, ins: Inputs)
    requires f != x && ins.upper == [f]
    ensures Above(SplitVersion(f, x, below), 1, ins) == FileItems(x)
  {
    var v := SplitVersion(f, x, below);
    assert x in v[1] && x !in ins.upper;
    forall e | e in FileItems(x) ensures e in Above(v, 1, ins) {}
  }

  // --- A tombstone that is dropped too early ------------------------------------------------

  /** Version 3 of k lies in the file after that of its tombstone, which a compaction of another key pulls in. */
  function BuriedVersion(size: nat, a: Entry, b: Entry, t: Entry, d: Entry): Version
  {
    [[], [FileWith(10, size, [a])], [FileWith(4, size, [b, t]), FileWith(5, size, [d])], [], [], [], []]
  }

  ghost predicate BuriedKeys(j: UserKey, k: UserKey, a: Entry, b: Entry, t: Entry, d: Entry)
  {
    && j < k && a.key == IKey(j, 9, Value) && b.key == IKey(j, 2, Value)
    && t.key == IKey(k, 5, Deletion) && d.key == IKey(k, 3, Value)
  }

  lemma BuriedReadable(j: UserKey, k: UserKey, size: nat, a: Entry, b: Entry, t: Entry, d: Entry)
    requires BuriedKeys(j, k, a, b, t, d)
    ensures
      var v := BuriedVersion(size, a, b, t, d);
      Readable(v) && InOrder(v[1]) && InOrder(v[2]) && DistinctNumbers(v[1]) && DistinctNumbers(v[2])
  {
  }

  lemma BuriedPicked(j: UserKey, k: UserKey, size: nat, limit: nat, a: Entry, b: Entry, t: Entry, d: Entry)
    requires BuriedKeys(j, k, a, b, t, d)
    ensures
      var f, g := FileWith(10, size, [a]), FileWith(4, size, [b, t]);
      PickInputs(BuriedVersion(size, a, b, t, d), 1, f, limit) == Inputs([f], [g])
  {
    var f, g, h := FileWith(10, size, [a]), FileWith(4, size, [b, t]), FileWith(5, size, [d]);
    assert [g, h][1..] == [h] && [h][1..] == [];
    assert Meeting([h], RangeOf(f)) == [] && Meeting([g, h], RangeOf(f)) == [g];
    assert |Meeting([f], Hull([f] + [g]))| <= 1;
  }

  lemma BuriedSurvivors(j: UserKey, k: UserKey, size: nat, a: Entry, b: Entry, t: Entry, d: Entry)
    requires BuriedKeys(j, k, a, b, t, d)
    ensures
      var f, g := FileWith(10, size, [a]), FileWith(4, size, [b, t]);
      Survivors(MergedInputs(Inputs([f], [g])), None, 9, BuriedVersion(size, a, b, t, d), 1) == [a]
  {
    var f, g := FileWith(10, size, [a]), FileWith(4, size, [b, t]);
    var v := BuriedVersion(size, a, b, t, d);
    assert ([f] + [g])[1..] == [g] && [g][1..] == [];
    assert MergeAll([g]) == [b, t];
    assert [a][1..] == [] && MergeTwo([a], [b, t]) == [a, b, t];
    assert [a, b, t][1..] == [b, t] && [b, t][1..] == [t] && [t][1..] == [];
    assert Survivors([t], Some(b.key), 9, v, 1) == [];
    assert Survivors([b, t], Some(a.key), 9, v, 1) == [];
  }

  lemma BuriedCompacts(j: UserKey, k: UserKey, size: nat, limit: nat, a: Entry, b: Entry, t: Entry, d: Entry)
    requires BuriedKeys(j, k, a, b, t, d)
    ensures
      var f, g := FileWith(10, size, [a]), FileWith(4, size, [b, t]);
      Compacts(BuriedVersion(size, a, b, t, d), 1, Inputs([f], [g]), [FileWith(20, size, [a])], 9)
  {
    var f, outs := FileWith(10, size, [a]), [FileWith(20, size, [a])];
    var v := BuriedVersion(size, a, b, t, d);
    BuriedReadable(j, k, size, a, b, t, d);
    BuriedSurvivors(j, k, size, a, b, t, d);
    BuriedPicked(j, k, size, limit, a, b, t, d);
    assert f in v[1];
    PickInputsPicked(v, 1, f, limit);
    assert outs[1..] == [] && Concat(outs) == [a];
  }

  lemma BuriedSets(j: UserKey, k: UserKey, size: nat, a: Entry, b: Entry, t: Entry, d: Entry)
    requires BuriedKeys(j, k, a, b, t, d)
    ensures
      var v, ins := BuriedVersion(size, a, b, t, d), Inputs([FileWith(10, size, [a])], [FileWith(4, size, [b, t])]);
      && Above(v, 1, ins) == {} && Beside(v, 1, ins) == {d} && DeepItems(v, 3) == {}
      && LevelItems(ins.upper + ins.lower) == {a, b, t} && t in AllItems(v)
      && forall e :: e in AllItems(v) ==> e in {a, b, t, d}
  {
    var v := BuriedVersion(size, a, b, t, d);
    var f, g, h := FileWith(10, size, [a]), FileWith(4, size, [b, t]), FileWith(5, size, [d]);
    var ins := Inputs([f], [g]);
    assert h in v[2] && h !in ins.lower && d in h.body.entries;
    assert f in ins.upper + ins.lower && g in ins.upper + ins.lower;
    assert a in f.body.entries && b in g.body.entries && t in g.body.entries;
    assert g in v[2] && t in LevelItems(v[2]);
  }

  /** The key deleted at 5 is read again at 9 as it was written at 3. */
  lemma TombstoneComesUndone(j: UserKey, k: UserKey, size: nat, limit: nat, a: Entry, b: Entry, t: Entry, d: Entry)
    requires BuriedKeys(j, k, a, b, t, d)
    ensures
      var v, f := BuriedVersion(size, a, b, t, d), FileWith(10, size, [a]);
      var ins, outs := PickInputs(v, 1, f, limit), [FileWith(20, size, [a])];
      && Compacts(v, 1, ins, outs, 9) && Uncovers(v, 1, ins, 9)
      && SearchFrom(v, 0, k, 9) == Some(t) && SearchFrom(Compacted(v, 1, ins, outs), 0, k, 9) == Some(d)
  {
    var v, f := BuriedVersion(size, a, b, t, d), FileWith(10, size, [a]);
    var ins, outs := Inputs([f], [FileWith(4, size, [b, t])]), [FileWith(20, size, [a])];
    BuriedPicked(j, k, size, limit, a, b, t, d);
    BuriedCompacts(j, k, size, limit, a, b, t, d);
    BuriedSets(j, k, size, a, b, t, d);
    BuriedUncovers(j, k, size, a, b, t, d);
    BuriedReads(j, k, size, a, b, t, d);
    BuriedSurvivors(j, k, size, a, b, t, d);
    OlderBeside(v, 1, ins, outs, 9, k, d);
  }

  lemma BuriedUncovers(j: UserKey, k: UserKey, size: nat, a: Entry, b: Entry, t: Entry, d: Entry)
    requires BuriedKeys(j, k, a, b, t, d)
    ensures Uncovers(BuriedVersion(size, a, b, t, d), 1, Inputs([FileWith(10, size, [a])], [FileWith(4, size, [b, t])]), 9)
  {
    var v, ins := BuriedVersion(size, a, b, t, d), Inputs([FileWith(10, size, [a])], [FileWith(4, size, [b, t])]);
    BuriedSets(j, k, size, a, b, t, d);
    assert DropsTombstone(v, 1, ins, t, 9) && Exposes(Above(v, 1, ins) + Beside(v, 1, ins), d, t, 9);
  }

  lemma BuriedReads(j: UserKey, k: UserKey, size: nat, a: Entry, b: Entry, t: Entry, d: Entry)
    requires BuriedKeys(j, k, a, b, t, d)
    ensures SearchFrom(BuriedVersion(size, a, b, t, d), 0, k, 9) == Some(t)
  {
    var v := BuriedVersion(size, a, b, t, d);
    BuriedReadable(j, k, size, a, b, t, d);
    BuriedSets(j, k, size, a, b, t, d);
    SearchFromNewest(v, 0, k, 9);
    ReadableUnique(v);
    NewestIs(AllItems(v), k, 9, SearchFrom(v, 0, k, 9), t);
  }

  lemma OlderBeside(v: Version, level: nat, ins: Inputs, outs: seq<Sst>, snapshot: nat, u: UserKey, d: Entry)
    requires Compacts(v, level, ins, outs, snapshot) && Above(v, level, ins) == {} && Beside(v, level, ins) == {d}
    requires DeepItems(v, level + 2) == {} && d.key.user == u && d.key.sequence <= snapshot
    requires forall e :: e in Survivors(MergedInputs(ins), None, snapshot, v, level) ==> e.key.user != u
    ensures SearchFrom(Compacted(v, level, ins, outs), 0, u, snapshot) == Some(d)
  {
    var q, c := ReadAfter(v, level, ins, outs, snapshot, u, snapshot);
    assert Sees(d, u, snapshot);
  }
}
