/**
 One level of a version under a sequence of edits: applying them all to one Builder, as recovery does, against
 installing them one at a time, as LogAndApply does.
 */
module Replay {
  import opened Keys
  import opened Levels

  /** What one edit does to one level. */
  datatype LevelEdit<B> = LevelEdit(deleted: set<nat>, added: seq<File<B>>)

  /** Builder::LevelState: the added files as a set ordered by smallest key, and the deleted numbers. */
  datatype LevelState<B> = LevelState(added: seq<File<B>>, deleted: set<nat>)

  function Numbers<B>(fs: seq<File<B>>): (r: set<nat>)
    ensures forall f :: f in fs ==> f.number in r
  {
    set i | 0 <= i < |fs| :: fs[i].number
  }

  /** Builder::Apply for one level: deletions first, then every added file is taken off the deleted ones. */
  function Apply<B(!new)>(s: LevelState<B>, e: LevelEdit<B>): LevelState<B>
  {
    LevelState(PutAll(s.added, e.added), s.deleted + e.deleted - Numbers(e.added))
  }

  function ApplyAll<B(!new)>(s: LevelState<B>, edits: seq<LevelEdit<B>>): LevelState<B>
  {
    if edits == [] then s else Apply(ApplyAll(s, edits[..|edits| - 1]), edits[|edits| - 1])
  }

  function Save<B(!new)>(base: seq<File<B>>, s: LevelState<B>): seq<File<B>>
  {
    SaveLevel(base, s.added, s.deleted)
  }

  /** Recovery: one Builder for all edits. */
  function Replayed<B(!new)>(base: seq<File<B>>, edits: seq<LevelEdit<B>>): seq<File<B>>
  {
    Save(base, ApplyAll(LevelState([], {}), edits))
  }

  /** LogAndApply: a new Builder for each edit. */
  function Install<B(!new)>(base: seq<File<B>>, e: LevelEdit<B>): seq<File<B>>
  {
    Save(base, Apply(LevelState([], {}), e))
  }

  function Installed<B(!new)>(base: seq<File<B>>, edits: seq<LevelEdit<B>>): seq<File<B>>
  {
    if edits == [] then base else Install(Installed(base, edits[..|edits| - 1]), edits[|edits| - 1])
  }

  /** All files that edits add, in order. */
  function AddedBy<B(!new)>(edits: seq<LevelEdit<B>>): seq<File<B>>
  {
    if edits == [] then [] else AddedBy(edits[..|edits| - 1]) + edits[|edits| - 1].added
  }

  /** No number is added to the level twice, nor while or after it is in the base: none comes back after leaving. */
  ghost predicate NeverBack<B(!new)>(base: seq<File<B>>, edits: seq<LevelEdit<B>>)
  {
    var all := AddedBy(edits);
    && (forall i, j :: 0 <= i < j < |all| ==> all[i].number != all[j].number)
    && (forall f, g :: f in base && g in all ==> f.number != g.number)
  }

  lemma NeverBackPrefix<B(!new)>(base: seq<File<B>>, edits: seq<LevelEdit<B>>)
    requires NeverBack(base, edits) && edits != []
    ensures NeverBack(base, edits[..|edits| - 1])
    ensures
      var before, last := AddedBy(edits[..|edits| - 1]), edits[|edits| - 1].added;
      && (forall i, j :: 0 <= i < j < |last| ==> last[i].number != last[j].number)
      && (forall f, g :: f in before && g in last ==> f.number != g.number)
      && (forall f, g :: f in base && g in last ==> f.number != g.number)
  {
    SplitDistinct(AddedBy(edits[..|edits| - 1]), edits[|edits| - 1].added);
  }

  lemma SplitDistinct<B(!new)>(a: seq<File<B>>, b: seq<File<B>>)
    requires forall i, j :: 0 <= i < j < |a + b| ==> (a + b)[i].number != (a + b)[j].number
    ensures forall i, j :: 0 <= i < j < |a| ==> a[i].number != a[j].number
    ensures forall i, j :: 0 <= i < j < |b| ==> b[i].number != b[j].number
    ensures forall f, g :: f in a && g in b ==> f.number != g.number
  {
    var all := a + b;
    forall i, j | 0 <= i < j < |a| ensures a[i].number != a[j].number { assert all[i] == a[i] && all[j] == a[j]; }
    forall i, j | 0 <= i < j < |b| ensures b[i].number != b[j].number { assert all[|a| + i] == b[i] && all[|a| + j] == b[j]; }
    forall f, g | f in a && g in b ensures f.number != g.number {
      var i :| 0 <= i < |a| && a[i] == f;
      var j :| 0 <= j < |b| && b[j] == g;
      assert all[i] == f && all[|a| + j] == g;
    }
  }

  // --- Well-formed histories ----------------------------------------------------------------

  ghost predicate NumbersDiffer<B(!new)>(fs: seq<File<B>>)
  {
    forall f, g :: f in fs && g in fs && f != g ==> f.number != g.number
  }

  /** Edit e adds files with distinct numbers that the level does not hold. */
  ghost predicate AddsNew<B(!new)>(files: seq<File<B>>, e: LevelEdit<B>)
  {
    && (forall i, j :: 0 <= i < j < |e.added| ==> e.added[i].number != e.added[j].number)
    && (forall f, g :: f in files && g in e.added ==> f.number != g.number)
  }

  /** Every edit adds only numbers that the level does not hold when it is installed. */
  ghost predicate WellFormed<B(!new)>(base: seq<File<B>>, edits: seq<LevelEdit<B>>)
  {
    if edits == [] then InOrder(base) && NumbersDiffer(base)
    else WellFormed(base, edits[..|edits| - 1]) && AddsNew(Installed(base, edits[..|edits| - 1]), edits[|edits| - 1])
  }

  /** The last edit that mentions the number deletes it. */
  ghost predicate Gone<B(!new)>(edits: seq<LevelEdit<B>>, n: nat)
  {
    if edits == [] then false
    else
      var e := edits[|edits| - 1];
      n !in Numbers(e.added) && (n in e.deleted || Gone(edits[..|edits| - 1], n))
  }

  lemma InstallMembers<B(!new)>(files: seq<File<B>>, e: LevelEdit<B>)
    requires InOrder(files) && AddsNew(files, e)
    ensures InOrder(Install(files, e))
    ensures forall f :: f in Install(files, e) <==> (f in files && f.number !in e.deleted) || f in e.added
  {
    PutAllExact([], e.added);
    var gone := {} + e.deleted - Numbers(e.added);
    SaveLevelExact(files, PutAll([], e.added), gone);
    forall f | f in files ensures f.number !in Numbers(e.added) {}
  }

  /** What is installed: distinct numbers, each last mentioned by its addition or only in the base. */
  lemma {:induction false} InstalledFacts<B(!new)>(base: seq<File<B>>, edits: seq<LevelEdit<B>>)
    requires WellFormed(base, edits)
    ensures InOrder(Installed(base, edits)) && NumbersDiffer(Installed(base, edits))
    ensures forall h :: h in Installed(base, edits) ==> !Gone(edits, h.number) && LastMention(base, AddedBy(edits), h)
    decreases |edits|
  {
    if edits != [] {
      var prefix, e := edits[..|edits| - 1], edits[|edits| - 1];
      InstalledFacts(base, prefix);
      var before := Installed(base, prefix);
      InstallMembers(before, e);
      DistinctAdded(e.added);
      forall h | h in Installed(base, edits) ensures !Gone(edits, h.number) && LastMention(base, AddedBy(edits), h) {
        if h in e.added {
          LastOfSnoc(AddedBy(prefix), e.added, h);
        } else {
          assert h.number !in Numbers(e.added);
          LastOfKept(AddedBy(prefix), e.added, h.number);
        }
      }
    }
  }

  lemma DistinctAdded<B(!new)>(fs: seq<File<B>>)
    requires forall i, j :: 0 <= i < j < |fs| ==> fs[i].number != fs[j].number
    ensures NumbersDiffer(fs)
  {
    forall f, g | f in fs && g in fs && f != g ensures f.number != g.number {
      var i :| 0 <= i < |fs| && fs[i] == f;
      var j :| 0 <= j < |fs| && fs[j] == g;
    }
  }

  /** The first, and the last, of the files with a number. */
  function FirstOf<B>(fs: seq<File<B>>, n: nat): (r: Option<File<B>>)
    ensures r.Some? ==> r.value in fs && r.value.number == n
    ensures r.None? ==> n !in Numbers(fs)
  {
    if fs == [] then None
    else if fs[0].number == n then Some(fs[0])
    else
      assert fs == [fs[0]] + fs[1..];
      FirstOf(fs[1..], n)
  }

  function LastOf<B>(fs: seq<File<B>>, n: nat): (r: Option<File<B>>)
    ensures r.Some? ==> r.value in fs && r.value.number == n
    ensures r.None? ==> n !in Numbers(fs)
  {
    if fs == [] then None
    else if fs[|fs| - 1].number == n then Some(fs[|fs| - 1])
    else
      assert fs == fs[..|fs| - 1] + [fs[|fs| - 1]];
      LastOf(fs[..|fs| - 1], n)
  }

  /** The file is the last added one with its number, or comes from the base and was never added. */
  ghost predicate LastMention<B(!new)>(base: seq<File<B>>, added: seq<File<B>>, h: File<B>)
  {
    if h.number in Numbers(added) then LastOf(added, h.number) == Some(h) else h in base
  }

  lemma {:induction false} LastOfConcat<B>(a: seq<File<B>>, b: seq<File<B>>, n: nat)
    ensures LastOf(a + b, n) == if LastOf(b, n).Some? then LastOf(b, n) else LastOf(a, n)
  {
    if b == [] {
      assert a + b == a;
    } else {
      assert (a + b)[..|a + b| - 1] == a + b[..|b| - 1];
      LastOfConcat(a, b[..|b| - 1], n);
    }
  }

  lemma NumbersConcat<B>(a: seq<File<B>>, b: seq<File<B>>, n: nat)
    ensures n in Numbers(a + b) <==> n in Numbers(a) || n in Numbers(b)
  {
    if n in Numbers(a) { var i :| 0 <= i < |a| && a[i].number == n; assert (a + b)[i].number == n; }
    if n in Numbers(b) { var i :| 0 <= i < |b| && b[i].number == n; assert (a + b)[|a| + i].number == n; }
  }

  lemma LastOfSnoc<B(!new)>(a: seq<File<B>>, b: seq<File<B>>, h: File<B>)
    requires h in b && NumbersDiffer(b)
    ensures h.number in Numbers(a + b) && LastOf(a + b, h.number) == Some(h)
  {
    LastOfConcat(a, b, h.number);
    NumbersConcat(a, b, h.number);
  }

  lemma LastOfKept<B(!new)>(a: seq<File<B>>, b: seq<File<B>>, n: nat)
    requires n !in Numbers(b)
    ensures (n in Numbers(a + b) <==> n in Numbers(a)) && LastOf(a + b, n) == LastOf(a, n)
  {
    LastOfConcat(a, b, n);
    NumbersConcat(a, b, n);
  }

  /** A number that some file carries and that is not gone is installed. */
  lemma {:induction false} StillInstalled<B(!new)>(base: seq<File<B>>, edits: seq<LevelEdit<B>>, n: nat) returns (h: File<B>)
    requires WellFormed(base, edits) && !Gone(edits, n) && (n in Numbers(base) || n in Numbers(AddedBy(edits)))
    ensures h in Installed(base, edits) && h.number == n
    decreases |edits|
  {
    if edits == [] {
      h :| h in base && h.number == n;
    } else {
      var prefix, e := edits[..|edits| - 1], edits[|edits| - 1];
      InstalledFacts(base, prefix);
      InstallMembers(Installed(base, prefix), e);
      NumbersConcat(AddedBy(prefix), e.added, n);
      if n in Numbers(e.added) {
        h :| h in e.added && h.number == n;
      } else {
        h := StillInstalled(base, prefix, n);
      }
    }
  }

  // --- The builder's state ------------------------------------------------------------------

  lemma {:induction false} PutAllConcat<B(!new)>(fs: seq<File<B>>, a: seq<File<B>>, b: seq<File<B>>)
    ensures PutAll(fs, a + b) == PutAll(PutAll(fs, a), b)
    decreases |a|
  {
    if a == [] {
      assert a + b == b;
    } else {
      assert (a + b)[1..] == a[1..] + b;
      PutAllConcat(Put(fs, a[0]), a[1..], b);
    }
  }

  lemma {:induction false} BuilderState<B(!new)>(edits: seq<LevelEdit<B>>)
    ensures ApplyAll(LevelState([], {}), edits).added == PutAll([], AddedBy(edits))
    ensures forall n :: n in ApplyAll(LevelState([], {}), edits).deleted <==> Gone(edits, n)
    decreases |edits|
  {
    if edits != [] {
      BuilderState(edits[..|edits| - 1]);
      PutAllConcat([], AddedBy(edits[..|edits| - 1]), edits[|edits| - 1].added);
    }
  }

  /** FileSet keeps the first of each class of equivalent files. */
  lemma {:induction false} PutAllClasses<B(!new)>(fs: seq<File<B>>, added: seq<File<B>>)
    requires InOrder(fs)
    ensures InOrder(PutAll(fs, added))
    ensures forall f :: f in PutAll(fs, added) ==> f in fs || f in added
    ensures forall f :: f in fs ==> f in PutAll(fs, added)
    ensures forall f :: f in added ==> exists g :: g in PutAll(fs, added) && Equivalent(g, f)
    decreases |added|
  {
    if added != [] {
      var a := added[0];
      assert added == [a] + added[1..];
      PutInOrder(fs, a);
      PutAllClasses(Put(fs, a), added[1..]);
      assert exists g :: g in Put(fs, a) && Equivalent(g, a) by {
        if h :| h in fs && Equivalent(h, a) {
          assert h in Put(fs, a);
        } else {
          assert a in Put(fs, a) && Equivalent(a, a);
        }
      }
      forall f | f in added ensures exists g :: g in PutAll(fs, added) && Equivalent(g, f) {
        if f == a { var g :| g in Put(fs, a) && Equivalent(g, a); assert g in PutAll(fs, added); }
      }
    }
  }

  /** The first file with a number is kept, unless the set already holds an equivalent one. */
  lemma {:induction false} FirstKept<B(!new)>(fs: seq<File<B>>, added: seq<File<B>>, n: nat)
    requires InOrder(fs) && FirstOf(added, n).Some? && forall g :: g in fs ==> g.number != n
    ensures FirstOf(added, n).value in PutAll(fs, added)
    decreases |added|
  {
    var a := added[0];
    PutInOrder(fs, a);
    if a.number == n {
      PutAllClasses(Put(fs, a), added[1..]);
    } else {
      FirstKept(Put(fs, a), added[1..], n);
    }
  }

  /** If all files with the number are equivalent, it is the only one kept. */
  lemma OnlyFirst<B(!new)>(added: seq<File<B>>, n: nat, f: File<B>)
    requires f in PutAll([], added) && f.number == n && FirstOf(added, n).Some?
    requires forall g :: g in added && g.number == n ==> g.smallest == FirstOf(added, n).value.smallest
    ensures f == FirstOf(added, n).value
  {
    PutAllClasses([], added);
    FirstKept([], added, n);
    var s, g := PutAll([], added), FirstOf(added, n).value;
    var i :| 0 <= i < |s| && s[i] == f;
    var j :| 0 <= j < |s| && s[j] == g;
    PrecedesTotal(f, g);
    PrecedesTotal(g, f);
  }

  // --- Saving with deletions ----------------------------------------------------------------

  /** Dropping files before the merge or after it is the same. */
  lemma {:induction false} KeepMerge<B(!new)>(base: seq<File<B>>, added: seq<File<B>>, deleted: set<nat>)
    requires InOrder(base) && InOrder(added)
    ensures Keep(Merge(base, added), deleted) == Merge(Keep(base, deleted), Keep(added, deleted))
    decreases |base| + |added|
  {
    if added == [] {
    } else if base != [] && !Precedes(added[0], base[0]) {
      HeadFirst(base);
      KeepMerge(base[1..], added, deleted);
      var b, kb, ka := base[0], Keep(base[1..], deleted), Keep(added, deleted);
      assert ([b] + Merge(base[1..], added))[1..] == Merge(base[1..], added);
      if b.number !in deleted {
        HeadFirst(added);
        NotBefore(b, added, deleted);
        assert ([b] + kb)[1..] == kb;
      }
    } else {
      HeadFirst(added);
      KeepMerge(base, added[1..], deleted);
      var a, kb, ka := added[0], Keep(base, deleted), Keep(added[1..], deleted);
      assert ([a] + Merge(base, added[1..]))[1..] == Merge(base, added[1..]);
      if a.number !in deleted {
        if kb != [] { BeforeKept(a, base, deleted); }
        assert ([a] + ka)[1..] == ka;
      }
    }
  }

  /** A kept added file does not sort before b if the first of them does not. */
  lemma NotBefore<B(!new)>(b: File<B>, added: seq<File<B>>, deleted: set<nat>)
    requires InOrder(added) && added != [] && !Precedes(added[0], b)
    ensures Keep(added, deleted) != [] ==> !Precedes(Keep(added, deleted)[0], b)
  {
    if Keep(added, deleted) != [] {
      var k := Keep(added, deleted)[0];
      assert k in Keep(added, deleted) && k in added;
      HeadFirst(added);
      if k != added[0] && Precedes(k, b) { PrecedesTransitive(added[0], k, b); }
    }
  }

  lemma BeforeKept<B(!new)>(a: File<B>, base: seq<File<B>>, deleted: set<nat>)
    requires InOrder(base) && base != [] && Precedes(a, base[0]) && Keep(base, deleted) != []
    ensures Precedes(a, Keep(base, deleted)[0])
  {
    var k := Keep(base, deleted)[0];
    assert k in Keep(base, deleted) && k in base;
    HeadFirst(base);
    if k != base[0] { PrecedesTransitive(a, base[0], k); }
  }

  lemma {:induction false} MergeCounts<B(!new)>(base: seq<File<B>>, added: seq<File<B>>)
    ensures multiset(Merge(base, added)) == multiset(base) + multiset(added)
    decreases |base| + |added|
  {
    if added != [] {
      if base != [] && !Precedes(added[0], base[0]) {
        assert base == [base[0]] + base[1..];
        MergeCounts(base[1..], added);
      } else {
        assert added == [added[0]] + added[1..];
        MergeCounts(base, added[1..]);
      }
    }
  }

  // --- Replay against installation ----------------------------------------------------------

  /** A number that is not gone comes back as it was: not to the base, always with the same smallest key, and the file
      added first is the file added last. */
  ghost predicate Restored<B(!new)>(base: seq<File<B>>, added: seq<File<B>>, n: nat)
    requires n in Numbers(added)
  {
    && n !in Numbers(base)
    && FirstOf(added, n) == LastOf(added, n)
    && forall g :: g in added && g.number == n ==> g.smallest == FirstOf(added, n).value.smallest
  }

  ghost predicate AllRestored<B(!new)>(base: seq<File<B>>, edits: seq<LevelEdit<B>>)
  {
    forall n :: n in Numbers(AddedBy(edits)) && !Gone(edits, n) ==> Restored(base, AddedBy(edits), n)
  }

  /** What recovery saves: the base and the added files whose numbers are not gone. */
  lemma ReplayedParts<B(!new)>(base: seq<File<B>>, edits: seq<LevelEdit<B>>) returns (kb: seq<File<B>>, ka: seq<File<B>>)
    requires InOrder(base)
    ensures Replayed(base, edits) == Merge(kb, ka) && InOrder(kb) && InOrder(ka)
    ensures forall f :: f in kb <==> f in base && !Gone(edits, f.number)
    ensures forall f :: f in ka <==> f in PutAll([], AddedBy(edits)) && !Gone(edits, f.number)
  {
    BuilderState(edits);
    PutAllClasses([], AddedBy(edits));
    var s := ApplyAll(LevelState([], {}), edits);
    kb, ka := Keep(base, s.deleted), Keep(s.added, s.deleted);
    KeepMerge(base, s.added, s.deleted);
    KeepInOrder(base, s.deleted);
    KeepInOrder(s.added, s.deleted);
  }

  lemma RestoredMember<B(!new)>(base: seq<File<B>>, edits: seq<LevelEdit<B>>, f: File<B>)
    requires WellFormed(base, edits) && AllRestored(base, edits) && NumbersDiffer(base)
    requires !Gone(edits, f.number)
    ensures f in base ==> f in Installed(base, edits)
    ensures f in PutAll([], AddedBy(edits)) ==> f in Installed(base, edits)
  {
    InstalledFacts(base, edits);
    PutAllClasses([], AddedBy(edits));
    if f in base || f in PutAll([], AddedBy(edits)) {
      var h := StillInstalled(base, edits, f.number);
      assert LastMention(base, AddedBy(edits), h);
      if f in PutAll([], AddedBy(edits)) { OnlyFirst(AddedBy(edits), f.number, f); }
    }
  }

  lemma InstalledMember<B(!new)>(base: seq<File<B>>, edits: seq<LevelEdit<B>>, h: File<B>)
    requires WellFormed(base, edits) && AllRestored(base, edits) && h in Installed(base, edits)
    ensures !Gone(edits, h.number) && (h in base || h in PutAll([], AddedBy(edits)))
  {
    InstalledFacts(base, edits);
    if h.number in Numbers(AddedBy(edits)) { FirstKept([], AddedBy(edits), h.number); }
  }

  lemma {:induction false} BaseFacts<B(!new)>(base: seq<File<B>>, edits: seq<LevelEdit<B>>)
    requires WellFormed(base, edits)
    ensures InOrder(base) && NumbersDiffer(base)
    decreases |edits|
  {
    if edits != [] { BaseFacts(base, edits[..|edits| - 1]); }
  }

  lemma RestoredReplays<B(!new)>(base: seq<File<B>>, edits: seq<LevelEdit<B>>)
    requires WellFormed(base, edits) && AllRestored(base, edits)
    ensures Replayed(base, edits) == Installed(base, edits)
  {
    BaseFacts(base, edits);
    InstalledFacts(base, edits);
    PutAllClasses([], AddedBy(edits));
    var kb, ka := ReplayedParts(base, edits);
    forall b, a | b in kb && a in ka ensures !Equivalent(b, a) {
      assert a in AddedBy(edits) && a.number in Numbers(AddedBy(edits));
    }
    MergeInOrder(kb, ka);
    MergeMembers(kb, ka);
    forall f ensures f in Merge(kb, ka) <==> f in Installed(base, edits) {
      if f in Merge(kb, ka) { RestoredMember(base, edits, f); }
      if f in Installed(base, edits) { InstalledMember(base, edits, f); }
    }
    InOrderUnique(Replayed(base, edits), Installed(base, edits));
  }

  lemma NoTwice<B(!new)>(fs: seq<File<B>>, f: File<B>)
    requires InOrder(fs)
    ensures multiset(fs)[f] <= 1
  {
    if f in fs {
      var i :| 0 <= i < |fs| && fs[i] == f;
      assert fs == fs[..i] + [f] + fs[i + 1..];
      PrecedesTotal(f, f);
      assert f !in fs[..i] && f !in fs[i + 1..];
    }
  }

  lemma NotInBoth<B(!new)>(a: seq<File<B>>, b: seq<File<B>>, f: File<B>)
    requires InOrder(Merge(a, b)) && f in a
    ensures f !in b
  {
    MergeCounts(a, b);
    NoTwice(Merge(a, b), f);
    assert multiset(a)[f] >= 1 && (f in b ==> multiset(b)[f] >= 1);
  }

  /** Conversely, where replay and installation agree, numbers come back as they were. */
  lemma AgreementRestores<B(!new)>(base: seq<File<B>>, edits: seq<LevelEdit<B>>, n: nat)
    requires WellFormed(base, edits) && Replayed(base, edits) == Installed(base, edits)
    requires n in Numbers(AddedBy(edits)) && !Gone(edits, n)
    ensures Restored(base, AddedBy(edits), n)
  {
    var added := AddedBy(edits);
    BaseFacts(base, edits);
    InstalledFacts(base, edits);
    var kb, ka := ReplayedParts(base, edits);
    MergeMembers(kb, ka);
    FirstKept([], added, n);
    PutAllClasses([], added);
    var first := FirstOf(added, n).value;
    assert first in ka && first in Merge(kb, ka) && LastMention(base, added, first);
    forall b | b in base ensures b.number != n {
      assert b.number == n ==> b in kb && b in Merge(kb, ka) && LastMention(base, added, b);
      if b in kb { NotInBoth(kb, ka, b); }
    }
    forall g | g in added && g.number == n ensures g.smallest == first.smallest {
      var k :| k in PutAll([], added) && Equivalent(k, g);
      assert k in ka && k in Merge(kb, ka) && LastMention(base, added, k);
    }
  }

  /**
   Replaying all edits at once gives the level that installing them one at a time gave if and only if every number that
   was added and is not gone came back as it was.
   */
  lemma ReplayIsInstallationIff<B(!new)>(base: seq<File<B>>, edits: seq<LevelEdit<B>>)
    requires WellFormed(base, edits)
    ensures Replayed(base, edits) == Installed(base, edits) <==> AllRestored(base, edits)
  {
    if AllRestored(base, edits) {
      RestoredReplays(base, edits);
    }
    if Replayed(base, edits) == Installed(base, edits) {
      forall n | n in Numbers(AddedBy(edits)) && !Gone(edits, n) ensures Restored(base, AddedBy(edits), n) {
        AgreementRestores(base, edits, n);
      }
    }
  }

  lemma {:induction false} NeverBackWellFormed<B(!new)>(base: seq<File<B>>, edits: seq<LevelEdit<B>>)
    requires InOrder(base) && NumbersDiffer(base) && NeverBack(base, edits)
    ensures WellFormed(base, edits)
    ensures forall f :: f in Installed(base, edits) ==> f in base || f in AddedBy(edits)
    decreases |edits|
  {
    if edits != [] {
      NeverBackPrefix(base, edits);
      NeverBackWellFormed(base, edits[..|edits| - 1]);
      InstalledFacts(base, edits[..|edits| - 1]);
      InstallMembers(Installed(base, edits[..|edits| - 1]), edits[|edits| - 1]);
    }
  }

  /** In particular, when no file number comes back to a level it has left. */
  lemma ReplayIsInstallation<B(!new)>(base: seq<File<B>>, edits: seq<LevelEdit<B>>)
    requires InOrder(base) && NumbersDiffer(base) && NeverBack(base, edits)
    ensures Replayed(base, edits) == Installed(base, edits)
  {
    NeverBackWellFormed(base, edits);
    var all := AddedBy(edits);
    DistinctAdded(all);
    forall n | n in Numbers(all) ensures Restored(base, all, n) {
      assert FirstOf(all, n).Some? && LastOf(all, n).Some?;
    }
    RestoredReplays(base, edits);
  }

  /** A number that comes back does make a difference: recovery then keeps the file that had left as well. */
  lemma ComingBackDiffers<B(!new)>(f: File<B>, g: File<B>)
    requires f.number == g.number && Precedes(f, g)
    ensures
      var edits := [LevelEdit({f.number}, []), LevelEdit({}, [g])];
      && !NeverBack([f], edits)
      && Installed([f], edits) == [g] && Replayed([f], edits) == [f, g]
  {
    var first: LevelEdit<B> := LevelEdit({f.number}, []);
    var second := LevelEdit({}, [g]);
    var edits := [first, second];
    var none: seq<LevelEdit<B>> := [];
    OneAdded(g);
    assert edits[..1] == [first] && [first][..0] == none;
    assert g in AddedBy(edits) && f in [f] by {
      assert AddedBy(edits) == AddedBy([first]) + [g];
    }
    assert Installed([f], edits) == [g] by {
      assert Apply(LevelState([], {}), first) == LevelState([], {f.number});
      assert Apply(LevelState([], {}), second) == LevelState([g], {});
      assert Installed([f], [first]) == Install(Installed([f], none), first) == [];
      assert Merge([], [g]) == [g] + Merge([], [g][1..]);
      assert Keep([g], {}) == [g];
    }
    assert ApplyAll(LevelState([], {}), [first]) == Apply(ApplyAll(LevelState([], {}), none), first) == LevelState([], {f.number});
    assert ApplyAll(LevelState([], {}), edits) == LevelState([g], {});
    assert Merge([f], [g]) == [f] + Merge([f][1..], [g]);
    assert [f, g][1..] == [g] && [g][1..] == [];
    assert Keep([f, g], {}) == [f] + Keep([g], {});
  }

  lemma OneAdded<B(!new)>(f: File<B>)
    ensures PutAll([], [f]) == [f] && Numbers([f]) == {f.number} && Numbers<B>([]) == {}
  {
    assert [f][1..] == [];
    assert [f][0].number in Numbers([f]);
  }
}
