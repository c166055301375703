/**
 The file list of one level and the merge that installs an edit (VersionSet::Builder).
 The body B of a file is left open: the manifest stores key bounds, the engine the file's entries.
 */
module Levels {
  import opened Keys

  datatype File<B> = File(number: nat, smallest: IKey, body: B)

  /** BySmallestKey. */
  predicate Precedes<B(!new)>(a: File<B>, b: File<B>)
  {
    Before(a.smallest, b.smallest) || (a.smallest == b.smallest && a.number < b.number)
  }

  ghost predicate InOrder<B(!new)>(fs: seq<File<B>>)
  {
    forall i, j :: 0 <= i < j < |fs| ==> Precedes(fs[i], fs[j])
  }

  /** Neither sorts before the other: std::set keeps only one of them. */
  predicate Equivalent<B(!new)>(a: File<B>, b: File<B>)
  {
    a.smallest == b.smallest && a.number == b.number
  }

  lemma PrecedesTotal<B(!new)>(a: File<B>, b: File<B>)
    ensures Precedes(a, b) || Precedes(b, a) || Equivalent(a, b)
    ensures !(Precedes(a, b) && Precedes(b, a))
    ensures Equivalent(a, b) ==> !Precedes(a, b)
  {
  }

  /** FileSet::insert. */
  function Put<B(!new)>(fs: seq<File<B>>, f: File<B>): (r: seq<File<B>>)
  {
    if fs == [] || Precedes(f, fs[0]) then [f] + fs
    else if Equivalent(fs[0], f) then fs
    else [fs[0]] + Put(fs[1..], f)
  }

  function PutAll<B(!new)>(fs: seq<File<B>>, added: seq<File<B>>): seq<File<B>>
    decreases |added|
  {
    if added == [] then fs else PutAll(Put(fs, added[0]), added[1..])
  }

  /** The order in which SaveTo visits files: upper_bound places a base file before an added one unless the added one sorts first. */
  function Merge<B(!new)>(base: seq<File<B>>, added: seq<File<B>>): seq<File<B>>
  {
    if added == [] then base
    else if base != [] && !Precedes(added[0], base[0]) then [base[0]] + Merge(base[1..], added)
    else [added[0]] + Merge(base, added[1..])
  }

  /** MaybeAddFile over a whole list. */
  function Keep<B(!new)>(fs: seq<File<B>>, deleted: set<nat>): (r: seq<File<B>>)
    ensures forall f :: f in r <==> f in fs && f.number !in deleted
    ensures |r| <= |fs|
  {
    if fs == [] then []
    else
      var rest := Keep(fs[1..], deleted);
      assert fs == [fs[0]] + fs[1..];
      if fs[0].number in deleted then rest else [fs[0]] + rest
  }

  function SaveLevel<B(!new)>(base: seq<File<B>>, added: seq<File<B>>, deleted: set<nat>): seq<File<B>>
  {
    Keep(Merge(base, added), deleted)
  }

  lemma {:induction false} MergeMembers<B(!new)>(base: seq<File<B>>, added: seq<File<B>>)
    ensures forall f :: f in Merge(base, added) <==> f in base || f in added
    decreases |base| + |added|
  {
    if added != [] {
      if base != [] && !Precedes(added[0], base[0]) {
        MergeMembers(base[1..], added);
        assert base == [base[0]] + base[1..];
      } else {
        MergeMembers(base, added[1..]);
        assert added == [added[0]] + added[1..];
      }
    }
  }

  lemma PrecedesTransitive<B(!new)>(a: File<B>, b: File<B>, c: File<B>)
    requires Precedes(a, b) && Precedes(b, c)
    ensures Precedes(a, c)
  {
  }

  lemma HeadFirst<B(!new)>(fs: seq<File<B>>)
    requires InOrder(fs) && fs != []
    ensures InOrder(fs[1..])
    ensures forall g :: g in fs[1..] ==> Precedes(fs[0], g)
    ensures forall g :: g in fs ==> g == fs[0] || g in fs[1..]
  {
    assert fs == [fs[0]] + fs[1..];
  }

  lemma {:induction false} MergeInOrder<B(!new)>(base: seq<File<B>>, added: seq<File<B>>)
    requires InOrder(base) && InOrder(added)
    requires forall b, a :: b in base && a in added ==> !Equivalent(b, a)
    ensures InOrder(Merge(base, added))
    decreases |base| + |added|
  {
    if added == [] || base == [] {
      if added != [] {
        HeadFirst(added);
        MergeInOrder(base, added[1..]);
        MergeMembers(base, added[1..]);
        PrependInOrder(added[0], Merge(base, added[1..]));
      }
    } else {
      var b, a := base[0], added[0];
      HeadFirst(base);
      HeadFirst(added);
      PrecedesTotal(a, b);
      assert !Equivalent(b, a);
      if Precedes(a, b) {
        MergeInOrder(base, added[1..]);
        MergeMembers(base, added[1..]);
        forall f | f in base ensures Precedes(a, f) { if f != b { PrecedesTransitive(a, b, f); } }
        PrependInOrder(a, Merge(base, added[1..]));
      } else {
        MergeInOrder(base[1..], added);
        MergeMembers(base[1..], added);
        forall f | f in added ensures Precedes(b, f) { if f != a { PrecedesTransitive(b, a, f); } }
        PrependInOrder(b, Merge(base[1..], added));
      }
    }
  }

  lemma PrependInOrder<B(!new)>(f: File<B>, fs: seq<File<B>>)
    requires InOrder(fs)
    requires forall g :: g in fs ==> Precedes(f, g)
    ensures InOrder([f] + fs)
  {
  }

  lemma {:induction false} KeepInOrder<B(!new)>(fs: seq<File<B>>, deleted: set<nat>)
    requires InOrder(fs)
    ensures InOrder(Keep(fs, deleted))
  {
    if fs != [] {
      KeepInOrder(fs[1..], deleted);
      if fs[0].number !in deleted { PrependInOrder(fs[0], Keep(fs[1..], deleted)); }
    }
  }

  lemma {:induction false} PutInOrder<B(!new)>(fs: seq<File<B>>, f: File<B>)
    requires InOrder(fs)
    ensures InOrder(Put(fs, f))
    ensures forall g :: g in Put(fs, f) <==> g in fs || (g == f && forall h :: h in fs ==> !Equivalent(h, f))
  {
    if fs != [] {
      HeadFirst(fs);
      PrecedesTotal(fs[0], f);
      if Precedes(f, fs[0]) {
        forall g | g in fs ensures Precedes(f, g) { if g != fs[0] { PrecedesTransitive(f, fs[0], g); } }
        PrependInOrder(f, fs);
      } else if !Equivalent(fs[0], f) {
        PutInOrder(fs[1..], f);
        PrependInOrder(fs[0], Put(fs[1..], f));
      }
    }
  }

  /** Inserting files with distinct numbers one by one keeps them all. */
  lemma {:induction false} PutAllExact<B(!new)>(fs: seq<File<B>>, added: seq<File<B>>)
    requires InOrder(fs)
    requires forall i, j :: 0 <= i < j < |added| ==> added[i].number != added[j].number
    requires forall f, g :: f in fs && g in added ==> f.number != g.number
    ensures InOrder(PutAll(fs, added))
    ensures forall f :: f in PutAll(fs, added) <==> f in fs || f in added
    decreases |added|
  {
    if added != [] {
      assert added == [added[0]] + added[1..];
      assert added[0] in added;
      PutInOrder(fs, added[0]);
      PutAllExact(Put(fs, added[0]), added[1..]);
    }
  }

  lemma SomeMember<B(!new)>(fs: seq<File<B>>)
    ensures fs != [] ==> exists f :: f in fs
  {
    if fs != [] { assert fs[0] in fs; }
  }

  lemma SameHead<B(!new)>(a: seq<File<B>>, b: seq<File<B>>)
    requires InOrder(a) && InOrder(b) && a != [] && b != []
    requires a[0] in b && b[0] in a
    ensures a[0] == b[0]
  {
    HeadFirst(a);
    HeadFirst(b);
    PrecedesTotal(a[0], b[0]);
  }

  /** A list in order is determined by its members. */
  lemma {:induction false} InOrderUnique<B(!new)>(a: seq<File<B>>, b: seq<File<B>>)
    requires InOrder(a) && InOrder(b)
    requires forall f :: f in a <==> f in b
    ensures a == b
  {
    SomeMember(a);
    SomeMember(b);
    if a != [] {
      assert a[0] in a && b[0] in b;
      SameHead(a, b);
      HeadFirst(a);
      HeadFirst(b);
      PrecedesTotal(a[0], a[0]);
      forall f ensures f in a[1..] <==> f in a && f != a[0] {}
      forall f ensures f in b[1..] <==> f in b && f != b[0] {}
      InOrderUnique(a[1..], b[1..]);
      assert a == [a[0]] + a[1..] && b == [b[0]] + b[1..];
    }
  }

  /** Installing added files and dropping deleted ones yields exactly the surviving files, in order. */
  lemma SaveLevelExact<B(!new)>(base: seq<File<B>>, added: seq<File<B>>, deleted: set<nat>)
    requires InOrder(base) && InOrder(added)
    requires forall b, a :: b in base && a in added ==> !Equivalent(b, a)
    ensures InOrder(SaveLevel(base, added, deleted))
    ensures forall f :: f in SaveLevel(base, added, deleted) <==> (f in base || f in added) && f.number !in deleted
  {
    MergeInOrder(base, added);
    MergeMembers(base, added);
    KeepInOrder(Merge(base, added), deleted);
  }

  /** std::upper_bound on a list in order: the first file from i on that sorts after f. */
  method UpperBound<B(!new)>(base: seq<File<B>>, i: nat, f: File<B>) returns (hi: nat)
    requires InOrder(base) && i <= |base|
    ensures i <= hi <= |base|
    ensures forall k :: i <= k < hi ==> !Precedes(f, base[k])
    ensures hi < |base| ==> Precedes(f, base[hi])
  {
    var lo := i;
    hi := |base|;
    while lo < hi
      invariant i <= lo <= hi <= |base|
      invariant forall k :: i <= k < lo ==> !Precedes(f, base[k])
      invariant hi < |base| ==> Precedes(f, base[hi])
    {
      var mid := (lo + hi) / 2;
      if Precedes(f, base[mid]) {
        hi := mid;
      } else {
        forall k | i <= k < mid ensures !Precedes(f, base[k]) {
          if Precedes(f, base[k]) { PrecedesTransitive(f, base[k], base[mid]); }
        }
        lo := mid + 1;
      }
    }
  }

  function MaybeAddFile<B>(files: seq<File<B>>, f: File<B>, deleted: set<nat>): seq<File<B>>
  {
    if f.number in deleted then files else files + [f]
  }

  /** What SaveTo still has to append when it stands at base[i] and added[j]. */
  ghost function Rest<B(!new)>(base: seq<File<B>>, i: nat, added: seq<File<B>>, j: nat, deleted: set<nat>): seq<File<B>>
    requires i <= |base| && j <= |added|
  {
    Keep(Merge(base[i..], added[j..]), deleted)
  }

  lemma KeepStep<B(!new)>(files: seq<File<B>>, f: File<B>, rest: seq<File<B>>, deleted: set<nat>)
    ensures files + Keep([f] + rest, deleted) == MaybeAddFile(files, f, deleted) + Keep(rest, deleted)
  {
    assert ([f] + rest)[1..] == rest;
  }

  lemma TakeBase<B(!new)>(files: seq<File<B>>, base: seq<File<B>>, i: nat, added: seq<File<B>>, j: nat, deleted: set<nat>)
    requires i < |base| && j <= |added| && (j < |added| ==> !Precedes(added[j], base[i]))
    ensures files + Rest(base, i, added, j, deleted) == MaybeAddFile(files, base[i], deleted) + Rest(base, i + 1, added, j, deleted)
  {
    assert base[i..] == [base[i]] + base[i + 1..];
    KeepStep(files, base[i], Merge(base[i + 1..], added[j..]), deleted);
  }

  lemma TakeAdded<B(!new)>(files: seq<File<B>>, base: seq<File<B>>, i: nat, added: seq<File<B>>, j: nat, deleted: set<nat>)
    requires i <= |base| && j < |added| && (i < |base| ==> Precedes(added[j], base[i]))
    ensures files + Rest(base, i, added, j, deleted) == MaybeAddFile(files, added[j], deleted) + Rest(base, i, added, j + 1, deleted)
  {
    assert added[j..] == [added[j]] + added[j + 1..];
    KeepStep(files, added[j], Merge(base[i..], added[j + 1..]), deleted);
  }

  /** The loop that appends the base files up to bpos. */
  method TakeUpTo<B(!new)>(start: seq<File<B>>, base: seq<File<B>>, i0: nat, bpos: nat, added: seq<File<B>>, j: nat, deleted: set<nat>)
    returns (files: seq<File<B>>)
    requires i0 <= bpos <= |base| && j <= |added|
    requires forall k :: i0 <= k < bpos && j < |added| ==> !Precedes(added[j], base[k])
    ensures files + Rest(base, bpos, added, j, deleted) == start + Rest(base, i0, added, j, deleted)
  {
    files := start;
    var i := i0;
    while i < bpos
      invariant i0 <= i <= bpos
      invariant files + Rest(base, i, added, j, deleted) == start + Rest(base, i0, added, j, deleted)
    {
      TakeBase(files, base, i, added, j, deleted);
      files := MaybeAddFile(files, base[i], deleted);
      i := i + 1;
    }
  }

  /** Builder::SaveTo for one level. */
  method SaveTo<B(!new)>(base: seq<File<B>>, added: seq<File<B>>, deleted: set<nat>) returns (files: seq<File<B>>)
    requires InOrder(base)
    ensures files == SaveLevel(base, added, deleted)
  {
    files := [];
    var i := 0;
    assert base[0..] == base && added[0..] == added;
    for j := 0 to |added|
      invariant 0 <= i <= |base|
      invariant files + Rest(base, i, added, j, deleted) == SaveLevel(base, added, deleted)
    {
      var bpos := UpperBound(base, i, added[j]);
      files := TakeUpTo(files, base, i, bpos, added, j, deleted);
      i := bpos;
      TakeAdded(files, base, i, added, j, deleted);
      files := MaybeAddFile(files, added[j], deleted);
    }
    files := TakeUpTo(files, base, i, |base|, added, |added|, deleted);
    assert base[|base|..] == [] && added[|added|..] == [];
  }
}
