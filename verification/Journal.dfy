/**
 The manifest of a run: the edits that the installations of a run of the engine write, level by level. No run brings a
 file number back to a level, so replaying them gives the current version.
 */
module Journal {
  import opened Bytes
  import opened Keys
  import opened Levels
  import opened Versions
  import opened Picking
  import opened Lsm
  import opened LsmSteps
  import Replay
  import EditCodec
  import M = Manifest

  type LevelEdit = Replay.LevelEdit<Table>

  /** An edit: what it does to each level. */
  type Change = c: seq<LevelEdit> | |c| == NUM_LEVELS witness seq(NUM_LEVELS, _ => Replay.LevelEdit({}, []))

  const NOTHING: LevelEdit := Replay.LevelEdit({}, [])

  function NoChange(): Change { seq(NUM_LEVELS, _ => NOTHING) }

  ghost function FlushLevel(db: Db): nat
    requires CanFlush(db) && db.flush.value.file.Some?
  {
    PickLevel(db.version, RangeOf(db.flush.value.file.value), db.limits.grandparents)
  }

  ghost function FlushChange(db: Db): Change
    requires CanFlush(db)
  {
    if db.flush.value.file.None? then NoChange()
    else NoChange()[FlushLevel(db) := Replay.LevelEdit({}, [db.flush.value.file.value])]
  }

  ghost function TwoLevels(level: nat, upper: LevelEdit, lower: LevelEdit): Change
    requires level + 1 < NUM_LEVELS
  {
    NoChange()[level := upper][level + 1 := lower]
  }

  ghost function CompactionChange(c: Compaction): Change
    requires c.level + 1 < NUM_LEVELS
  {
    TwoLevels(c.level, Replay.LevelEdit(Numbers(c.ins.upper), []), Replay.LevelEdit(Numbers(c.ins.lower), c.outputs))
  }

  ghost function MoveChange(level: nat, f: Sst): Change
    requires level + 1 < NUM_LEVELS
  {
    TwoLevels(level, Replay.LevelEdit({f.number}, []), Replay.LevelEdit({}, [f]))
  }

  /** The edit that a step adds to the manifest, if any. */
  ghost function Written(db: Db, s: Step): seq<Change>
  {
    match s
    case InstallFlush => if CanFlush(db) then [FlushChange(db)] else []
    case InstallCompaction =>
      if db.compaction.Some? && db.compaction.value.level + 1 < NUM_LEVELS then [CompactionChange(db.compaction.value)] else []
    case InstallMove =>
      if db.installing.Some? && db.installing.value.MoveInstall? && db.installing.value.level + 1 < NUM_LEVELS
      then [MoveChange(db.installing.value.level, db.installing.value.file)] else []
    case _ => []
  }

  /** The manifest after a run. */
  ghost function Manifest(db: Db, steps: seq<Step>): seq<Change>
    decreases |steps|
  {
    if steps == [] || !Enabled(db, steps[0]) then []
    else Written(db, steps[0]) + Manifest(Next(db, steps[0]), steps[1..])
  }

  /** What the edits do to one level. */
  function Column(m: seq<Change>, l: nat): (r: seq<LevelEdit>)
    requires l < NUM_LEVELS
    ensures |r| == |m|
  {
    seq(|m|, i requires 0 <= i < |m| => m[i][l])
  }

  ghost function Added(m: seq<Change>, l: nat): seq<Sst>
    requires l < NUM_LEVELS
  {
    Replay.AddedBy(Column(m, l))
  }

  lemma ColumnSnoc(m: seq<Change>, c: Change, l: nat)
    requires l < NUM_LEVELS
    ensures Column(m + [c], l) == Column(m, l) + [c[l]]
    ensures Added(m + [c], l) == Added(m, l) + c[l].added
    ensures Replay.Installed([], Column(m + [c], l)) == Replay.Install(Replay.Installed([], Column(m, l)), c[l])
  {
    assert Column(m + [c], l) == Column(m, l) + [c[l]];
    assert (Column(m, l) + [c[l]])[..|m|] == Column(m, l);
  }

  // --- The invariant ------------------------------------------------------------------------

  /** The manifest installs the current version, level by level. */
  ghost predicate Installs(m: seq<Change>, v: Version)
  {
    |v| == NUM_LEVELS && forall l :: 0 <= l < NUM_LEVELS ==> Replay.Installed([], Column(m, l)) == v[l]
  }

  ghost predicate AllDistinct(fs: seq<Sst>)
  {
    forall i, j :: 0 <= i < j < |fs| ==> fs[i].number != fs[j].number
  }

  /** No number is added to a level twice. */
  ghost predicate Once(m: seq<Change>)
  {
    forall l :: 0 <= l < NUM_LEVELS ==> AllDistinct(Added(m, l))
  }

  /** The number of a file still being written. */
  ghost predicate Unborn(db: Db, n: nat)
  {
    || n >= db.nextFile
    || (db.flush.Some? && n == db.flush.value.number)
    || (db.compaction.Some? && db.compaction.value.open == Some(n))
    || (db.compaction.Some? && n in Numbers(db.compaction.value.outputs))
  }

  ghost predicate Mentions(m: seq<Change>, l: nat, n: nat)
    requires l < NUM_LEVELS
  {
    exists f :: f in Added(m, l) && f.number == n
  }

  ghost predicate NoUnborn(m: seq<Change>, db: Db)
  {
    forall l, n :: 0 <= l < NUM_LEVELS && Unborn(db, n) ==> !Mentions(m, l, n)
  }

  /** Files only move down: no file has been in a level below its own. */
  ghost predicate OnlyDown(m: seq<Change>, v: Version)
  {
    |v| == NUM_LEVELS && forall k, l, f :: 0 <= k < l < NUM_LEVELS && f in v[k] ==> !Mentions(m, l, f.number)
  }

  ghost predicate JournalOk(m: seq<Change>, db: Db)
  {
    Installs(m, db.version) && Once(m) && NoUnborn(m, db) && OnlyDown(m, db.version)
  }

  lemma MentionsSnoc(m: seq<Change>, c: Change, l: nat, n: nat)
    requires l < NUM_LEVELS
    ensures Mentions(m + [c], l, n) <==> Mentions(m, l, n) || exists f :: f in c[l].added && f.number == n
  {
    ColumnSnoc(m, c, l);
  }

  ghost predicate Quiet(s: Step) { !s.InstallFlush? && !s.InstallCompaction? && !s.InstallMove? }

  /** Numbers only become unborn by being taken. */
  lemma QuietNumbers(db: Db, s: Step, n: nat)
    requires Enabled(db, s) && Quiet(s) && Unborn(Next(db, s), n)
    ensures Unborn(db, n)
  {
  }

  lemma QuietVersion(db: Db, s: Step)
    requires Enabled(db, s) && Quiet(s)
    ensures Next(db, s).version == db.version
  {
  }

  /** Steps that install nothing. */
  lemma QuietStep(m: seq<Change>, db: Db, s: Step)
    requires Enabled(db, s) && Quiet(s) && JournalOk(m, db)
    ensures JournalOk(m, Next(db, s))
  {
    QuietVersion(db, s);
    forall l, n | 0 <= l < NUM_LEVELS && Unborn(Next(db, s), n) ensures !Mentions(m, l, n) { QuietNumbers(db, s, n); }
  }

  ghost predicate Adds(e: LevelEdit, n: nat) { exists f :: f in e.added && f.number == n }

  /** The edit adds no number to a level that the level has seen. */
  ghost predicate AddsUnseen(m: seq<Change>, c: Change)
  {
    forall l, n :: 0 <= l < NUM_LEVELS && Adds(c[l], n) ==> !Mentions(m, l, n)
  }

  /** What is unborn afterwards was so before and is not added. */
  ghost predicate BornOnce(db: Db, db': Db, c: Change)
  {
    forall n :: Unborn(db', n) ==> Unborn(db, n) && forall l :: 0 <= l < NUM_LEVELS ==> !Adds(c[l], n)
  }

  ghost predicate StaysDown(m: seq<Change>, c: Change, v: Version)
  {
    forall k, l, f :: 0 <= k < l < NUM_LEVELS && k < |v| && f in v[k] ==> Unseen(m, c, l, f.number)
  }

  /** Neither the manifest nor one more edit adds the number to the level. */
  ghost predicate Unseen(m: seq<Change>, c: Change, l: nat, n: nat)
    requires l < NUM_LEVELS
  {
    !Mentions(m, l, n) && !Adds(c[l], n)
  }

  ghost predicate InstallsChange(v: Version, c: Change, v': Version)
  {
    |v| == |v'| == NUM_LEVELS && forall l :: 0 <= l < NUM_LEVELS ==> v'[l] == Replay.Install(v[l], c[l]) && AllDistinct(c[l].added)
  }

  /** One more edit: it installs the new version, adds numbers that the level has not seen, and files only move down. */
  lemma OneMore(m: seq<Change>, c: Change, db: Db, db': Db)
    requires JournalOk(m, db) && InstallsChange(db.version, c, db'.version)
    requires AddsUnseen(m, c) && BornOnce(db, db', c) && StaysDown(m, c, db'.version)
    ensures JournalOk(m + [c], db')
  {
    forall l | 0 <= l < NUM_LEVELS ensures Replay.Installed([], Column(m + [c], l)) == db'.version[l] { ColumnSnoc(m, c, l); }
    OnceMore(m, c);
    forall l, n | 0 <= l < NUM_LEVELS && Unborn(db', n) ensures !Mentions(m + [c], l, n) { MentionsSnoc(m, c, l, n); }
    forall k, l, f | 0 <= k < l < NUM_LEVELS && f in db'.version[k] ensures !Mentions(m + [c], l, f.number) {
      assert Unseen(m, c, l, f.number);
      MentionsSnoc(m, c, l, f.number);
    }
  }

  lemma OnceMore(m: seq<Change>, c: Change)
    requires Once(m) && AddsUnseen(m, c) && forall l :: 0 <= l < NUM_LEVELS ==> AllDistinct(c[l].added)
    ensures Once(m + [c])
  {
    forall l | 0 <= l < NUM_LEVELS ensures AllDistinct(Added(m + [c], l)) {
      ColumnSnoc(m, c, l);
      forall f, g | f in Added(m, l) && g in c[l].added ensures f.number != g.number {
        assert Adds(c[l], g.number) && !Mentions(m, l, g.number);
      }
      DistinctConcat(Added(m, l), c[l].added);
    }
  }

  lemma DistinctConcat(a: seq<Sst>, b: seq<Sst>)
    requires AllDistinct(a) && AllDistinct(b) && forall f, g :: f in a && g in b ==> f.number != g.number
    ensures AllDistinct(a + b)
  {
    var all := a + b;
    forall i, j | 0 <= i < j < |all| ensures all[i].number != all[j].number {
      if i < |a| && j >= |a| { assert all[i] in a && all[j] in b; }
    }
  }

  // --- Installing ---------------------------------------------------------------------------

  lemma {:induction false} KeepAll(fs: seq<Sst>)
    ensures Keep(fs, {}) == fs
  {
    if fs != [] {
      KeepAll(fs[1..]);
      assert fs == [fs[0]] + fs[1..];
    }
  }

  /** Installing an edit is what the engine does to the level. */
  lemma InstallIs(fs: seq<Sst>, e: LevelEdit)
    requires forall f :: f in e.added ==> f.number !in e.deleted
    ensures Replay.Install(fs, e) == SaveLevel(fs, PutAll([], e.added), e.deleted)
    ensures e == NOTHING ==> Replay.Install(fs, e) == fs
  {
    assert {} + e.deleted - Replay.Numbers(e.added) == e.deleted;
    KeepAll(fs);
  }

  lemma FlushInstalls(db: Db)
    requires CanFlush(db)
    ensures InstallsChange(db.version, FlushChange(db), FlushVersion(db))
  {
    var c := FlushChange(db);
    forall l | 0 <= l < NUM_LEVELS ensures FlushVersion(db)[l] == Replay.Install(db.version[l], c[l]) && AllDistinct(c[l].added) {
      InstallIs(db.version[l], c[l]);
    }
  }

  lemma FlushAdds(db: Db, l: nat, n: nat)
    requires CanFlush(db) && FlushOk(db) && l < NUM_LEVELS && Adds(FlushChange(db)[l], n)
    ensures n == db.flush.value.number && db.flush.value.file.Some? && l == FlushLevel(db)
  {
  }

  lemma FlushUnborn(db: Db, n: nat)
    requires FlushOk(db) && NumbersOk(db) && CanFlush(db) && Unborn(FlushInstalled(db), n)
    ensures Unborn(db, n) && n != db.flush.value.number
  {
  }

  /** A file of the new version is the flushed file in its level, or an older one in its place. */
  lemma FlushMembers(db: Db, k: nat, f: Sst)
    requires TablesOk(db) && StackOk(db) && FlushOk(db) && CanFlush(db) && k < NUM_LEVELS && f in FlushVersion(db)[k]
    ensures (f in db.version[k] && f.number != db.flush.value.number) || (db.flush.value.file == Some(f) && k == FlushLevel(db))
  {
    if db.flush.value.file.Some? {
      FlushItems(db);
      JoinMembers(db.version, db.flush.value.file.value, FlushLevel(db));
    }
    if f in db.version[k] { assert HasFile(db.version, f); }
  }

  lemma FlushDown(m: seq<Change>, db: Db, k: nat, l: nat, f: Sst)
    requires TablesOk(db) && StackOk(db) && FlushOk(db) && CanFlush(db) && NoUnborn(m, db) && OnlyDown(m, db.version)
    requires k < l < NUM_LEVELS && f in FlushVersion(db)[k]
    ensures Unseen(m, FlushChange(db), l, f.number)
  {
    FlushMembers(db, k, f);
    if Adds(FlushChange(db)[l], f.number) { FlushAdds(db, l, f.number); }
    if f !in db.version[k] { assert Unborn(db, f.number); }
  }

  lemma FlushUnseen(m: seq<Change>, db: Db)
    requires CanFlush(db) && FlushOk(db) && NoUnborn(m, db)
    ensures AddsUnseen(m, FlushChange(db))
  {
    forall l, n | 0 <= l < NUM_LEVELS && Adds(FlushChange(db)[l], n) ensures !Mentions(m, l, n) {
      FlushAdds(db, l, n);
      assert Unborn(db, n);
    }
  }

  lemma FlushBorn(db: Db)
    requires FlushOk(db) && NumbersOk(db) && CanFlush(db)
    ensures BornOnce(db, FlushInstalled(db), FlushChange(db))
  {
    var c := FlushChange(db);
    forall n: nat | Unborn(FlushInstalled(db), n) ensures Unborn(db, n) && forall l :: 0 <= l < NUM_LEVELS ==> !Adds(c[l], n) {
      FlushUnborn(db, n);
      forall l | 0 <= l < NUM_LEVELS ensures !Adds(c[l], n) { if Adds(c[l], n) { FlushAdds(db, l, n); } }
    }
  }

  lemma FlushStays(m: seq<Change>, db: Db)
    requires TablesOk(db) && StackOk(db) && FlushOk(db) && CanFlush(db) && NoUnborn(m, db) && OnlyDown(m, db.version)
    ensures StaysDown(m, FlushChange(db), FlushVersion(db))
  {
    var v := FlushVersion(db);
    forall k, l, f: Sst | 0 <= k < l < NUM_LEVELS && k < |v| && f in v[k] ensures Unseen(m, FlushChange(db), l, f.number) {
      FlushDown(m, db, k, l, f);
    }
  }

  lemma FlushStep(m: seq<Change>, db: Db)
    requires TablesOk(db) && StackOk(db) && FlushOk(db) && NumbersOk(db) && CanFlush(db) && JournalOk(m, db)
    ensures JournalOk(m + [FlushChange(db)], FlushInstalled(db))
  {
    FlushInstalls(db);
    FlushUnseen(m, db);
    FlushBorn(db);
    FlushStays(m, db);
    OneMore(m, FlushChange(db), db, FlushInstalled(db));
  }

  lemma TwoInstalls(v: Version, level: nat, upper: LevelEdit, lower: LevelEdit)
    requires level + 1 < NUM_LEVELS == |v| && upper.added == [] && AllDistinct(lower.added)
    requires forall f :: f in lower.added ==> f.number !in lower.deleted
    ensures InstallsChange(v, TwoLevels(level, upper, lower),
                           Replace(Replace(v, level, upper.deleted, []), level + 1, lower.deleted, lower.added))
  {
    var c := TwoLevels(level, upper, lower);
    var v' := Replace(Replace(v, level, upper.deleted, []), level + 1, lower.deleted, lower.added);
    forall l | 0 <= l < NUM_LEVELS ensures v'[l] == Replay.Install(v[l], c[l]) && AllDistinct(c[l].added) {
      InstallIs(v[l], c[l]);
    }
  }

  lemma TwoAdd(level: nat, upper: LevelEdit, lower: LevelEdit, l: nat, n: nat)
    requires level + 1 < NUM_LEVELS && upper.added == [] && l < NUM_LEVELS && Adds(TwoLevels(level, upper, lower)[l], n)
    ensures l == level + 1 && Adds(lower, n)
  {
  }

  lemma TwoUnseen(m: seq<Change>, level: nat, upper: LevelEdit, lower: LevelEdit)
    requires level + 1 < NUM_LEVELS && upper.added == [] && forall n :: Adds(lower, n) ==> !Mentions(m, level + 1, n)
    ensures AddsUnseen(m, TwoLevels(level, upper, lower))
  {
    var c := TwoLevels(level, upper, lower);
    forall l, n | 0 <= l < NUM_LEVELS && Adds(c[l], n) ensures !Mentions(m, l, n) { TwoAdd(level, upper, lower, l, n); }
  }

  lemma TwoBorn(db: Db, db': Db, level: nat, upper: LevelEdit, lower: LevelEdit)
    requires level + 1 < NUM_LEVELS && upper.added == [] && forall n :: Unborn(db', n) ==> Unborn(db, n) && !Adds(lower, n)
    ensures BornOnce(db, db', TwoLevels(level, upper, lower))
  {
    var c := TwoLevels(level, upper, lower);
    forall n, l | Unborn(db', n) && 0 <= l < NUM_LEVELS ensures !Adds(c[l], n) { if Adds(c[l], n) { TwoAdd(level, upper, lower, l, n); } }
  }

  lemma TwoStays(m: seq<Change>, v: Version, level: nat, upper: LevelEdit, lower: LevelEdit)
    requires level + 1 < NUM_LEVELS && upper.added == []
    requires forall k, l, f :: 0 <= k < l < NUM_LEVELS && k < |v| && f in v[k] ==>
      !Mentions(m, l, f.number) && (l == level + 1 ==> !Adds(lower, f.number))
    ensures StaysDown(m, TwoLevels(level, upper, lower), v)
  {
    var c := TwoLevels(level, upper, lower);
    forall k, l, f: Sst | 0 <= k < l < NUM_LEVELS && k < |v| && f in v[k] ensures Unseen(m, c, l, f.number) {
      assert !Mentions(m, l, f.number);
      if Adds(c[l], f.number) { TwoAdd(level, upper, lower, l, f.number); }
    }
  }

  ghost function CompactionLower(c: Compaction): LevelEdit { Replay.LevelEdit(Numbers(c.ins.lower), c.outputs) }

  lemma CompactionDown(m: seq<Change>, db: Db, k: nat, l: nat, f: Sst)
    requires StackOk(db) && NumbersOk(db) && CanCompact(db) && CompactionOk(db.version, db.compaction.value)
    requires NoUnborn(m, db) && OnlyDown(m, db.version) && k < l < NUM_LEVELS && f in Installed(db).version[k]
    ensures !Mentions(m, l, f.number)
    ensures l == db.compaction.value.level + 1 ==> !Adds(CompactionLower(db.compaction.value), f.number)
  {
    var c := db.compaction.value;
    InstallItems(db);
    if Remains(db.version, c.level, c.ins, k, f) {
      assert HasFile(db.version, f);
    } else {
      assert f in c.outputs && f.number in Numbers(c.outputs) && Unborn(db, f.number);
    }
  }

  lemma CompactionInstalls(db: Db)
    requires StackOk(db) && NumbersOk(db) && CanCompact(db) && CompactionOk(db.version, db.compaction.value)
    ensures InstallsChange(db.version, CompactionChange(db.compaction.value), Installed(db).version)
  {
    var c := db.compaction.value;
    forall f | f in c.outputs ensures f.number !in Numbers(c.ins.lower) {
      forall g | g in c.ins.lower ensures g.number != f.number { assert g in db.version[c.level + 1]; assert HasFile(db.version, g); }
    }
    TwoInstalls(db.version, c.level, Replay.LevelEdit(Numbers(c.ins.upper), []), CompactionLower(c));
  }

  lemma CompactionStays(m: seq<Change>, db: Db)
    requires StackOk(db) && NumbersOk(db) && CanCompact(db) && CompactionOk(db.version, db.compaction.value)
    requires NoUnborn(m, db) && OnlyDown(m, db.version)
    ensures StaysDown(m, CompactionChange(db.compaction.value), Installed(db).version)
  {
    var c, v := db.compaction.value, Installed(db).version;
    forall k, l, f: Sst | 0 <= k < l < NUM_LEVELS && k < |v| && f in v[k]
      ensures !Mentions(m, l, f.number) && (l == c.level + 1 ==> !Adds(CompactionLower(c), f.number))
    {
      CompactionDown(m, db, k, l, f);
    }
    TwoStays(m, v, c.level, Replay.LevelEdit(Numbers(c.ins.upper), []), CompactionLower(c));
  }

  lemma CompactionNew(m: seq<Change>, db: Db)
    requires NumbersOk(db) && CanCompact(db) && db.compaction.value.level + 1 < NUM_LEVELS && NoUnborn(m, db)
    ensures AddsUnseen(m, CompactionChange(db.compaction.value))
    ensures BornOnce(db, Installed(db), CompactionChange(db.compaction.value))
  {
    var c := db.compaction.value;
    var upper, lower := Replay.LevelEdit(Numbers(c.ins.upper), []), CompactionLower(c);
    forall n: nat | Adds(lower, n) ensures !Mentions(m, c.level + 1, n) && n < db.nextFile {
      assert n in Numbers(c.outputs) && Unborn(db, n);
    }
    TwoUnseen(m, c.level, upper, lower);
    TwoBorn(db, Installed(db), c.level, upper, lower);
  }

  lemma CompactionStep(m: seq<Change>, db: Db)
    requires StackOk(db) && NumbersOk(db) && CanCompact(db) && CompactionOk(db.version, db.compaction.value) && JournalOk(m, db)
    ensures JournalOk(m + [CompactionChange(db.compaction.value)], Installed(db))
  {
    CompactionInstalls(db);
    CompactionNew(m, db);
    CompactionStays(m, db);
    OneMore(m, CompactionChange(db.compaction.value), db, Installed(db));
  }

  lemma MoveDown(m: seq<Change>, db: Db, level: nat, f: Sst, k: nat, l: nat, g: Sst)
    requires StackOk(db) && NumbersOk(db) && HistoryOk(db) && CanMove(db, level, f) && OnlyDown(m, db.version)
    requires k < l < NUM_LEVELS && g in Moved(db.version, level, f)[k]
    ensures !Mentions(m, l, g.number) && (l == level + 1 ==> g.number != f.number)
  {
    MovedVersionOk(db.version, db.history, level, f, db.limits.expanded);
    DistinctMembers(db.version[level]);
    if !Remains(db.version, level, Inputs([f], []), k, g) {
      assert g == f && k == level + 1;
    }
  }

  lemma MoveStep(m: seq<Change>, db: Db, level: nat, f: Sst)
    requires StackOk(db) && NumbersOk(db) && HistoryOk(db) && CanMove(db, level, f) && JournalOk(m, db)
    ensures JournalOk(m + [MoveChange(level, f)], db.(version := Moved(db.version, level, f), installing := None))
  {
    var db' := db.(version := Moved(db.version, level, f), installing := None);
    var upper, lower := Replay.LevelEdit({f.number}, []), Replay.LevelEdit({}, [f]);
    TwoInstalls(db.version, level, upper, lower);
    assert HasFile(db.version, f);
    assert forall n :: Adds(lower, n) <==> n == f.number by { assert f in lower.added; }
    TwoUnseen(m, level, upper, lower);
    TwoBorn(db, db', level, upper, lower);
    forall k, l, g | 0 <= k < l < NUM_LEVELS && k < |db'.version| && g in db'.version[k]
      ensures !Mentions(m, l, g.number) && (l == level + 1 ==> !Adds(lower, g.number))
    {
      MoveDown(m, db, level, f, k, l, g);
    }
    TwoStays(m, db'.version, level, upper, lower);
    OneMore(m, MoveChange(level, f), db, db');
  }

  // --- Runs ---------------------------------------------------------------------------------

  lemma FlushWritten(m: seq<Change>, db: Db)
    requires TablesOk(db) && StackOk(db) && FlushOk(db) && NumbersOk(db) && InstallOk(db) && JournalOk(m, db)
    requires Enabled(db, InstallFlush)
    ensures JournalOk(m + Written(db, InstallFlush), Next(db, InstallFlush))
  {
    assert Next(db, InstallFlush) == FlushInstalled(db);
    FlushStep(m, db);
  }

  lemma CompactionWritten(m: seq<Change>, db: Db)
    requires StackOk(db) && NumbersOk(db) && RunningOk(db) && InstallOk(db) && JournalOk(m, db)
    requires Enabled(db, InstallCompaction)
    ensures JournalOk(m + Written(db, InstallCompaction), Next(db, InstallCompaction))
  {
    assert Next(db, InstallCompaction) == Installed(db);
    CompactionStep(m, db);
  }

  lemma MoveWritten(m: seq<Change>, db: Db)
    requires StackOk(db) && HistoryOk(db) && NumbersOk(db) && InstallOk(db) && JournalOk(m, db)
    requires Enabled(db, InstallMove)
    ensures JournalOk(m + Written(db, InstallMove), Next(db, InstallMove))
  {
    MoveStep(m, db, db.installing.value.level, db.installing.value.file);
  }

  lemma InstallWritten(m: seq<Change>, db: Db, s: Step)
    requires Inv(db) && Enabled(db, s) && JournalOk(m, db) && (s.InstallFlush? || s.InstallCompaction? || s.InstallMove?)
    ensures JournalOk(m + Written(db, s), Next(db, s))
  {
    InvData(db);
    InvFiles(db);
    match s
    case InstallFlush => FlushWritten(m, db);
    case InstallCompaction => CompactionWritten(m, db);
    case InstallMove => MoveWritten(m, db);
  }

  lemma WrittenStep(m: seq<Change>, db: Db, s: Step)
    requires Inv(db) && Enabled(db, s) && JournalOk(m, db)
    ensures JournalOk(m + Written(db, s), Next(db, s))
  {
    if s.InstallFlush? || s.InstallCompaction? || s.InstallMove? {
      InstallWritten(m, db, s);
    } else {
      QuietStep(m, db, s);
      assert Written(db, s) == [] && m + [] == m;
    }
  }

  lemma {:induction false} RunJournal(m: seq<Change>, db: Db, steps: seq<Step>, db': Db)
    requires Inv(db) && Run(db, steps, db') && JournalOk(m, db)
    ensures JournalOk(m + Manifest(db, steps), db')
    decreases |steps|
  {
    if steps == [] {
      assert m + [] == m;
    } else {
      KeepsInv(db, steps[0]);
      WrittenStep(m, db, steps[0]);
      RunJournal(m + Written(db, steps[0]), Next(db, steps[0]), steps[1..], db');
      Regroup(m, Written(db, steps[0]), Manifest(Next(db, steps[0]), steps[1..]));
    }
  }

  lemma Regroup(a: seq<Change>, b: seq<Change>, c: seq<Change>)
    ensures a + (b + c) == a + b + c
  {
  }

  lemma FreshJournal(limits: Limits)
    ensures JournalOk([], Fresh(limits))
  {
    forall l | 0 <= l < NUM_LEVELS ensures Column([], l) == [] && Added([], l) == [] {}
  }

  lemma ReachedJournal(limits: Limits, steps: seq<Step>, db: Db)
    requires Run(Fresh(limits), steps, db)
    ensures JournalOk(Manifest(Fresh(limits), steps), db)
  {
    FreshInv(limits);
    FreshJournal(limits);
    RunJournal([], Fresh(limits), steps, db);
    assert [] + Manifest(Fresh(limits), steps) == Manifest(Fresh(limits), steps);
  }

  /** In every run, no file number comes back to a level, and replaying the manifest gives the current version. */
  lemma ManifestReplays(limits: Limits, steps: seq<Step>, db: Db, l: nat)
    requires Run(Fresh(limits), steps, db) && l < NUM_LEVELS
    ensures
      var edits := Column(Manifest(Fresh(limits), steps), l);
      |db.version| == NUM_LEVELS && Replay.NeverBack([], edits) && Replay.Replayed([], edits) == db.version[l]
  {
    ReachedJournal(limits, steps, db);
    var m := Manifest(Fresh(limits), steps);
    assert AllDistinct(Added(m, l));
    Replay.ReplayIsInstallation([], Column(m, l));
  }

  // --- The encoded manifest -----------------------------------------------------------------

  ghost predicate SameNumbers<A(!new)>(a: seq<File<A>>, b: seq<Sst>)
  {
    |a| == |b| && forall i :: 0 <= i < |a| ==> a[i].number == b[i].number
  }

  /** The edits add files with the numbers of the changes, level by level. */
  ghost predicate Describes(key: Bytes -> IKey, edits: seq<EditCodec.Edit>, m: seq<Change>)
  {
    |edits| == |m| && forall i, l :: 0 <= i < |m| && 0 <= l < NUM_LEVELS ==> SameNumbers(M.AtLevel(key, edits[i], l).added, m[i][l].added)
  }

  lemma SameConcat<A(!new)>(a: seq<File<A>>, b: seq<Sst>, c: seq<File<A>>, d: seq<Sst>)
    requires SameNumbers(a, b) && SameNumbers(c, d)
    ensures SameNumbers(a + c, b + d)
  {
  }

  lemma AddedSnoc(key: Bytes -> IKey, edits: seq<EditCodec.Edit>, e: EditCodec.Edit, l: nat)
    ensures Replay.AddedBy(M.LevelEdits(key, edits + [e], l)) ==
      Replay.AddedBy(M.LevelEdits(key, edits, l)) + M.AtLevel(key, e, l).added
  {
    M.LevelEditsSnoc(key, edits, e, l);
  }

  lemma {:induction false} AddedNumbers(key: Bytes -> IKey, edits: seq<EditCodec.Edit>, m: seq<Change>, l: nat)
    requires Describes(key, edits, m) && l < NUM_LEVELS
    ensures SameNumbers(Replay.AddedBy(M.LevelEdits(key, edits, l)), Added(m, l))
    decreases |m|
  {
    if m == [] {
      assert Column(m, l) == [] && M.LevelEdits(key, edits, l) == [];
    } else {
      var n := |m| - 1;
      var front, e, before, c := edits[..n], edits[n], m[..n], m[n];
      assert Describes(key, front, before);
      AddedNumbers(key, front, before, l);
      assert m == before + [c] && edits == front + [e];
      ColumnSnoc(before, c, l);
      AddedSnoc(key, front, e, l);
      SameConcat(Replay.AddedBy(M.LevelEdits(key, front, l)), Added(before, l), M.AtLevel(key, e, l).added, c[l].added);
    }
  }

  /** The manifest of every run has fresh numbers, which is what recovery from it needs. */
  lemma RunsAreFresh(limits: Limits, steps: seq<Step>, db: Db, key: Bytes -> IKey, edits: seq<EditCodec.Edit>)
    requires Run(Fresh(limits), steps, db) && Describes(key, edits, Manifest(Fresh(limits), steps))
    ensures M.NumbersFresh(key, edits)
  {
    ReachedJournal(limits, steps, db);
    var m := Manifest(Fresh(limits), steps);
    forall l: nat | l < NUM_LEVELS ensures Replay.NeverBack([], M.LevelEdits(key, edits, l)) {
      AddedNumbers(key, edits, m, l);
      assert AllDistinct(Added(m, l));
    }
  }
}
