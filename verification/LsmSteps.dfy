/**
 The steps of the engine and the proof that each of them keeps the invariant.
 */
module LsmSteps {
  import opened Bytes
  import opened Keys
  import opened Levels
  import opened Versions
  import opened Picking
  import opened Compactions
  import opened Lsm

  datatype Step =
    | BeginGroup(ops: seq<Op>)             // Write: the front writer has built its batch group
    | InsertOne                            // InsertInto: one more entry, without the mutex
    | Commit                               // SetLastSequence
    | Switch(id: nat)                      // MakeRoomForWrite: new memtable, the old one becomes immutable
    | StartFlush                           // WriteLevel0Table takes a file number and unlocks
    | BuildFlush(table: Table)             // BuildTable has written the file
    | PrepareFlush                         // file number no longer pending, level choice, LogAndApply unlocks
    | InstallFlush                         // LogAndApply appends the version, imm_ = NULL
    | Pick(level: nat, file: Sst)          // PickCompaction and the start of DoCompactionWork
    | OpenOutput                           // OpenCompactionOutputFile takes a file number
    | Emit(count: nat, size: nat)          // the open output file is finished
    | PrepareCompaction                    // InstallCompactionResults, until LogAndApply unlocks
    | InstallCompaction                    // LogAndApply appends the version, CleanupCompaction
    | PrepareMove(level: nat, file: Sst)   // trivial move, until LogAndApply unlocks
    | InstallMove                          // LogAndApply appends the version
    | DeleteObsolete                       // DeleteObsoleteFiles
    | StartRead(id: nat, user: UserKey)    // Get captures its sources
    | EndRead(id: nat)                     // Get returns

  /** The background thread has nothing in progress. */
  ghost predicate Idle(db: Db) { db.compaction.None? && db.flush.None? && db.imm.None? && db.installing.None? }

  ghost predicate Live(db: Db, n: nat)
  {
    || n in db.pending
    || (exists f :: HasFile(db.version, f) && f.number == n)
    || (db.compaction.Some? && exists f :: HasFile(db.compaction.value.base, f) && f.number == n)
    || (exists i, f :: i in db.gets && HasFile(db.gets[i].version, f) && f.number == n)
  }

  ghost predicate Enabled(db: Db, s: Step)
  {
    match s
    case BeginGroup(ops) => db.group == [] && ops != [] && |db.history| + |ops| <= MAX_SEQUENCE
    case InsertOne => db.mem in db.tables && db.inserted < |db.group|
    case Commit => db.group != [] && db.inserted == |db.group|
    case Switch(id) => db.group == [] && db.imm.None? && id !in db.tables
    case StartFlush => db.imm.Some? && db.flush.None? && db.installing.None?
    case BuildFlush(table) =>
      && db.flush.Some? && db.flush.value.file.None? && db.imm.Some? && db.imm.value in db.tables && db.installing.None?
      && db.tables[db.imm.value] != [] && FlushOf(db.tables[db.imm.value], table.entries)
    case PrepareFlush => db.installing.None? && CanFlush(db)
    case InstallFlush => db.installing.Some? && db.installing.value.FlushInstall?
    case Pick(level, f) => Idle(db) && level + 1 < NUM_LEVELS == |db.version| && f in db.version[level]
    case OpenOutput => db.compaction.Some? && db.compaction.value.open.None? && db.compaction.value.todo != [] && db.installing.None?
    case Emit(count, size) =>
      && db.compaction.Some? && db.compaction.value.open.Some? && 0 < count <= |db.compaction.value.todo| && db.installing.None?
    case PrepareCompaction => db.installing.None? && CanCompact(db)
    case InstallCompaction => db.installing.Some? && db.installing.value.CompactionInstall? && db.compaction.Some?
    case PrepareMove(level, f) => Idle(db) && CanMove(db, level, f)
    case InstallMove => db.installing.Some? && db.installing.value.MoveInstall?
    // only the background thread deletes files, and it is not between the two halves of an installation
    case DeleteObsolete => db.installing.None?
    case StartRead(id, u) => id !in db.gets
    case EndRead(id) => id in db.gets
  }

  ghost function Next(db: Db, s: Step): Db
    requires Enabled(db, s)
  {
    match s
    case BeginGroup(ops) => db.(group := ops, inserted := 0)
    case InsertOne => InsertedOne(db)
    case Commit => db.(history := db.history + db.group, group := [], inserted := 0)
    case Switch(id) => db.(tables := db.tables[id := []], imm := Some(db.mem), mem := id)
    case StartFlush =>
      db.(flush := Some(Flush(db.nextFile, None)), nextFile := db.nextFile + 1, pending := db.pending + {db.nextFile})
    case BuildFlush(table) => FlushBuilt(db, table)
    case PrepareFlush =>
      db.(pending := db.pending - {db.flush.value.number}, installing := Some(FlushInstall(FlushVersion(db))))
    case InstallFlush => db.(version := db.installing.value.version, imm := None, flush := None, installing := None)
    case Pick(level, f) =>
      var ins := PickInputs(db.version, level, f, db.limits.expanded);
      var todo := Survivors(MergeAll(ins.upper + ins.lower), None, |db.history|, db.version, level);
      db.(compaction := Some(Compaction(level, db.version, ins, |db.history|, todo, None, [])))
    case OpenOutput => Opened(db)
    case Emit(count, size) => Emitted(db, count, size)
    case PrepareCompaction =>
      var c := db.compaction.value;
      db.(installing := Some(CompactionInstall(Compacted(db.version, c.level, c.ins, c.outputs))))
    case InstallCompaction =>
      db.(version := db.installing.value.version, compaction := None, pending := db.pending - Numbers(db.compaction.value.outputs),
          installing := None)
    case PrepareMove(level, f) => db.(installing := Some(MoveInstall(level, f, Moved(db.version, level, f))))
    case InstallMove => db.(version := db.installing.value.version, installing := None)
    case DeleteObsolete => db.(disk := map n | n in db.disk && Live(db, n) :: db.disk[n])
    case StartRead(id, u) => db.(gets := db.gets[id := CurrentRead(db, u)])
    case EndRead(id) => db.(gets := db.gets - {id})
  }

  function NextEntry(db: Db): Entry
    requires db.inserted < |db.group|
  {
    EntryOf(db.group[db.inserted], |db.history| + 1 + db.inserted)
  }

  function InsertedOne(db: Db): Db
    requires db.mem in db.tables && db.inserted < |db.group|
  {
    db.(tables := db.tables[db.mem := Insert(db.tables[db.mem], NextEntry(db))], inserted := db.inserted + 1)
  }

  function FlushBuilt(db: Db, table: Table): Db
    requires db.flush.Some? && table.entries != []
  {
    var n := db.flush.value.number;
    db.(flush := Some(Flush(n, Some(File(n, table.entries[0].key, table)))), disk := db.disk[n := table.entries])
  }

  ghost function FlushInstalled(db: Db): Db
    requires |db.version| == NUM_LEVELS && db.flush.Some?
  {
    db.(version := FlushVersion(db), imm := None, flush := None, installing := None)
  }

  function Opened(db: Db): Db
    requires db.compaction.Some?
  {
    db.(compaction := Some(db.compaction.value.(open := Some(db.nextFile))), nextFile := db.nextFile + 1,
        pending := db.pending + {db.nextFile})
  }

  ghost function Emitted(db: Db, count: nat, size: nat): Db
    requires db.compaction.Some? && db.compaction.value.open.Some? && 0 < count <= |db.compaction.value.todo|
  {
    var c := db.compaction.value;
    var t := c.todo[..count];
    var o := File(c.open.value, t[0].key, Table(size, t));
    db.(compaction := Some(c.(todo := c.todo[count..], open := None, outputs := c.outputs + [o])),
        disk := db.disk[c.open.value := t])
  }

  ghost function Installed(db: Db): Db
    requires db.compaction.Some? && db.compaction.value.level + 1 < |db.version|
  {
    var c := db.compaction.value;
    db.(version := Compacted(db.version, c.level, c.ins, c.outputs), compaction := None,
        pending := db.pending - Numbers(c.outputs), installing := None)
  }

  /** An installation in progress depends on nothing that writers and readers change. */
  lemma SameInstall(db: Db, db': Db)
    requires InstallOk(db) && db'.installing == db.installing && db'.limits == db.limits && db'.version == db.version
    requires db.installing.Some? ==> db'.flush == db.flush && db'.compaction == db.compaction
    requires db.imm.Some? ==> db'.imm == db.imm
    requires db.imm.Some? && db.imm.value in db.tables ==> db.imm.value in db'.tables && db'.tables[db.imm.value] == db.tables[db.imm.value]
    ensures InstallOk(db')
  {
  }

  /** Steps that touch neither entries nor history keep what is said about them. */
  lemma SameData(db: Db, db': Db)
    requires TablesOk(db) && StackOk(db) && HistoryOk(db) && ReadsOk(db)
    requires SameForeground(db, db')
    ensures TablesOk(db') && StackOk(db') && HistoryOk(db') && ReadsOk(db')
  {
  }

  /** Steps of writers touch no file. */
  lemma SameFiles(db: Db, db': Db)
    requires FlushOk(db) && NumbersOk(db) && DiskOk(db) && RunningOk(db) && InstallOk(db) && SameBackground(db, db')
    ensures FlushOk(db') && NumbersOk(db') && DiskOk(db') && RunningOk(db') && InstallOk(db')
  {
    SameInstall(db, db');
  }

  ghost predicate SameBackground(db: Db, db': Db)
  {
    && db'.limits == db.limits && db'.version == db.version && db'.nextFile == db.nextFile && db'.flush == db.flush
    && db'.compaction == db.compaction && db'.installing == db.installing && db'.pending == db.pending && db'.disk == db.disk
    && db'.gets == db.gets && (db.imm.Some? ==> db'.imm == db.imm)
    && (db.imm.Some? && db.imm.value in db.tables ==>
          db.imm.value in db'.tables && db'.tables[db.imm.value] == db.tables[db.imm.value])
  }

  lemma ForegroundKeeps(db: Db, db': Db)
    requires Inv(db) && SameBackground(db, db') && TablesOk(db') && StackOk(db') && HistoryOk(db') && ReadsOk(db')
    ensures Inv(db')
  {
    InvFiles(db);
    SameFiles(db, db');
    InvFrom(db');
  }

  ghost predicate SameForeground(db: Db, db': Db)
  {
    && db'.tables == db.tables && db'.mem == db.mem && db'.imm == db.imm && db'.version == db.version
    && db'.history == db.history && db'.group == db.group && db'.inserted == db.inserted && db'.gets == db.gets
  }

  lemma BackgroundKeeps(db: Db, db': Db)
    requires Inv(db) && SameForeground(db, db')
    requires FlushOk(db') && NumbersOk(db') && DiskOk(db') && RunningOk(db') && InstallOk(db')
    ensures Inv(db')
  {
    InvData(db);
    SameData(db, db');
    InvFrom(db');
  }

  // --- Writes -------------------------------------------------------------------------------

  lemma KeepsBeginGroup(db: Db, ops: seq<Op>)
    requires Inv(db) && Enabled(db, BeginGroup(ops))
    ensures Inv(Next(db, BeginGroup(ops)))
  {
    InvData(db);
    assert db.group[..db.inserted] == ops[..0];
    ForegroundKeeps(db, Next(db, BeginGroup(ops)));
  }

  /** The next entry of the group sorts into the memtable and is newer than everything held. */
  lemma InsertOneItems(db: Db)
    requires TablesOk(db) && HistoryOk(db) && db.inserted < |db.group|
    ensures Sorted(Insert(db.tables[db.mem], NextEntry(db)))
    ensures MemItems(InsertedOne(db)) == MemItems(db) + {NextEntry(db)}
    ensures ImmItems(InsertedOne(db)) == ImmItems(db)
    ensures forall x :: x in Held(db) ==> x.key.sequence < NextEntry(db).key.sequence
  {
    FromHeld(db);
    assert forall x :: x in db.tables[db.mem] ==> x in Held(db);
    InsertSorted(db.tables[db.mem], NextEntry(db));
  }

  lemma InsertOneFrom(h: seq<Op>, g: seq<Op>, n: nat, a: set<Entry>)
    requires n < |g| && From(a, h + g[..n])
    ensures From(a + {EntryOf(g[n], |h| + 1 + n)}, h + g[..n + 1])
  {
  }

  lemma InsertOneGroup(h: seq<Op>, g: seq<Op>, n: nat, a: set<Entry>)
    requires n < |g| && GroupIn(h, g, n, a)
    ensures GroupIn(h, g, n + 1, a + {EntryOf(g[n], |h| + 1 + n)})
  {
  }

  lemma InsertOneComplete(h: seq<Op>, a: set<IKey>, b: set<IKey>)
    requires AllComplete(h, a) && a <= b
    requires forall k :: k in b && k !in a ==> k.sequence > |h|
    ensures AllComplete(h, b)
  {
    forall u ensures Complete(h, b, u) {
      assert Complete(h, a, u);
      CompleteGrows(h, a, b, u);
    }
  }

  lemma InsertOneHeld(db: Db)
    requires TablesOk(db) && HistoryOk(db) && db.inserted < |db.group|
    ensures AllComplete(db.history, KeysOf(Held(InsertedOne(db))))
  {
    InsertOneItems(db);
    assert Held(InsertedOne(db)) == Held(db) + {NextEntry(db)};
    assert KeysOf(Held(InsertedOne(db))) == KeysOf(Held(db)) + {NextEntry(db).key};
    InsertOneComplete(db.history, KeysOf(Held(db)), KeysOf(Held(InsertedOne(db))));
  }

  lemma InsertOneHistory(db: Db)
    requires TablesOk(db) && HistoryOk(db) && db.inserted < |db.group|
    ensures HistoryOk(InsertedOne(db))
  {
    InsertOneItems(db);
    InsertOneFrom(db.history, db.group, db.inserted, MemItems(db));
    InsertOneGroup(db.history, db.group, db.inserted, MemItems(db));
    InsertOneHeld(db);
  }

  lemma InsertOneStack(db: Db)
    requires TablesOk(db) && HistoryOk(db) && StackOk(db) && db.inserted < |db.group|
    ensures TablesOk(InsertedOne(db)) && StackOk(InsertedOne(db))
  {
    InsertOneItems(db);
  }

  lemma InsertOneReads(db: Db)
    requires TablesOk(db) && HistoryOk(db) && ReadsOk(db) && db.inserted < |db.group|
    ensures ReadsOk(InsertedOne(db))
  {
    InsertOneItems(db);
    var e := NextEntry(db);
    forall i | i in db.gets ensures ReadOk(InsertedOne(db), db.gets[i]) {
      var r := db.gets[i];
      assert ReadOk(db, r);
      InsertUnseen(db.tables[db.mem], e, r.user, r.snapshot);
      LookupUnseen(db.tables, db.mem, Insert(db.tables[db.mem], e), r);
    }
  }

  lemma KeepsInsertOne(db: Db)
    requires Inv(db) && Enabled(db, InsertOne)
    ensures Inv(Next(db, InsertOne))
  {
    InvData(db);
    InsertOneStack(db);
    InsertOneHistory(db);
    InsertOneReads(db);
    ForegroundKeeps(db, InsertedOne(db));
  }

  /** Entries beyond the history do not disturb what the history says is held. */
  lemma CompleteGrows(h: seq<Op>, a: set<IKey>, b: set<IKey>, u: UserKey)
    requires Complete(h, a, u) && a <= b
    requires forall k :: k in b && k !in a ==> k.sequence > |h|
    ensures Complete(h, b, u)
  {
  }

  lemma CommitComplete(h: seq<Op>, g: seq<Op>, a: set<Entry>, u: UserKey)
    requires From(a, h + g) && Complete(h, KeysOf(a), u)
    requires GroupIn(h, g, |g|, a)
    ensures Complete(h + g, KeysOf(a), u)
  {
    var i := Last(h + g, u);
    LastOfConcat(h, g, u);
    if i >= |h| {
      var e := EntryOf(g[i - |h|], |h| + 1 + (i - |h|));
      assert e in a && e.key in KeysOf(a);
    } else if i >= 0 && !Present(KeysOf(a), u, i + 1) {
      forall k | k in KeysOf(a) ensures k.user != u || k.sequence > |h + g| {
        var e :| e in a && e.key == k;
        FromOne(a, h + g, e);
      }
    }
  }

  lemma CommitHistory(db: Db)
    requires HistoryOk(db) && db.inserted == |db.group|
    ensures HistoryOk(db.(history := db.history + db.group, group := [], inserted := 0))
  {
    var db' := db.(history := db.history + db.group, group := [], inserted := 0);
    assert db.group[..db.inserted] == db.group;
    assert db'.history + db'.group[..0] == db.history + db.group;
    FromHeld(db);
    forall u ensures Complete(db.history + db.group, KeysOf(Held(db)), u) {
      assert Complete(db.history, KeysOf(Held(db)), u);
      CommitComplete(db.history, db.group, Held(db), u);
    }
  }

  lemma KeepsCommit(db: Db)
    requires Inv(db) && Enabled(db, Commit)
    ensures Inv(Next(db, Commit))
  {
    InvData(db);
    var db' := Next(db, Commit);
    CommitHistory(db);
    forall i | i in db'.gets ensures ReadOk(db', db'.gets[i]) {
      assert ReadOk(db, db.gets[i]);
      assert db'.history[..db.gets[i].snapshot] == db.history[..db.gets[i].snapshot];
    }
    ForegroundKeeps(db, db');
  }

  lemma SwitchData(db: Db, id: nat)
    requires TablesOk(db) && StackOk(db) && HistoryOk(db) && Enabled(db, Switch(id))
    ensures
      var db' := Next(db, Switch(id));
      TablesOk(db') && StackOk(db') && HistoryOk(db')
  {
    var db' := Next(db, Switch(id));
    assert MemItems(db') == {} && ImmItems(db') == MemItems(db) && ImmItems(db) == {};
    assert Held(db') == Held(db);
    assert db.history + db.group[..db.inserted] == db.history;
    assert db'.history + db'.group[..db'.inserted] == db.history;
  }

  lemma SwitchReads(db: Db, id: nat)
    requires ReadsOk(db) && Enabled(db, Switch(id))
    ensures ReadsOk(Next(db, Switch(id)))
  {
    forall i | i in db.gets ensures ReadOk(Next(db, Switch(id)), db.gets[i]) { assert ReadOk(db, db.gets[i]); }
  }

  lemma KeepsSwitch(db: Db, id: nat)
    requires Inv(db) && Enabled(db, Switch(id))
    ensures Inv(Next(db, Switch(id)))
  {
    InvData(db);
    SwitchData(db, id);
    SwitchReads(db, id);
    ForegroundKeeps(db, Next(db, Switch(id)));
  }

  // --- Flush --------------------------------------------------------------------------------

  lemma KeepsStartFlush(db: Db)
    requires Inv(db) && Enabled(db, StartFlush)
    ensures Inv(Next(db, StartFlush))
  {
    InvFiles(db);
    assert Holds(db, Tables);
    BackgroundKeeps(db, Next(db, StartFlush));
  }

  lemma FlushedFileOk(t: seq<Entry>, out: seq<Entry>, n: nat, size: nat)
    requires Sorted(t) && t != [] && FlushOf(t, out)
    ensures FileOk(File(n, out[0].key, Table(size, out)))
  {
  }

  lemma WriteFresh(disk: map<nat, seq<Entry>>, n: nat, t: seq<Entry>, v: Version)
    requires n !in disk && VersionOnDisk(disk, v)
    ensures VersionOnDisk(disk[n := t], v)
  {
  }

  lemma BuildFlushDisk(db: Db, table: Table)
    requires DiskOk(db) && FlushOk(db) && NumbersOk(db) && Enabled(db, BuildFlush(table))
    ensures DiskOk(FlushBuilt(db, table))
  {
  }

  lemma KeepsBuildFlush(db: Db, table: Table)
    requires Inv(db) && Enabled(db, BuildFlush(table))
    ensures Inv(Next(db, BuildFlush(table)))
  {
    InvFiles(db);
    assert Holds(db, Tables);
    var n := db.flush.value.number;
    FlushedFileOk(db.tables[db.imm.value], table.entries, n, table.size);
    BuildFlushDisk(db, table);
    BackgroundKeeps(db, FlushBuilt(db, table));
  }

  /** A newer file may join a level if it meets nothing from level 0 down to there, or joins level 0 with the largest number. */
  ghost predicate MayJoin(v: Version, f: Sst, l: nat)
    requires |v| == NUM_LEVELS
  {
    && l < NUM_LEVELS && FileOk(f) && Newer(FileItems(f), AllItems(v))
    && (forall g {:trigger HasFile(v, g)} :: HasFile(v, g) ==> g.number < f.number)
    && (l > 0 ==> forall k :: 0 <= k <= l ==> !SomeMeets(v[k], RangeOf(f)))
  }

  lemma FileInAll(v: Version, l: nat, f: Sst)
    requires l < |v| && f in v[l]
    ensures HasFile(v, f) && FileItems(f) <= AllItems(v)
  {
    forall e | e in FileItems(f) ensures e in AllItems(v) { assert e in LevelItems(v[l]); }
  }

  lemma NotMeetingApart(f: Sst, g: Sst)
    requires FileOk(f) && FileOk(g) && !Meets(g, RangeOf(f))
    ensures Apart(f, g)
  {
  }

  lemma JoinMembers(v: Version, f: Sst, l: nat)
    requires VersionOk(v) && MayJoin(v, f, l)
    ensures InOrder(Replace(v, l, {}, [f])[l])
    ensures forall k, g :: 0 <= k < |v| ==> (g in Replace(v, l, {}, [f])[k] <==> g in v[k] || (k == l && g == f))
  {
    forall g | g in v[l] ensures g.number != f.number { FileInAll(v, l, g); }
    ReplaceExact(v, l, {}, [f]);
  }

  /** The new file is newer than all, and misses what lies above it. */
  lemma JoinOver(v: Version, f: Sst, l: nat)
    requires |v| == NUM_LEVELS && MayJoin(v, f, l) && forall k :: 0 <= k < |v| ==> FilesOk(v[k])
    ensures forall k, g :: 0 <= k < |v| && g in v[k] ==> Over(FileItems(f), FileItems(g)) && g.number < f.number
    ensures forall k, g :: 0 <= k < l && g in v[k] ==> Over(FileItems(g), FileItems(f))
  {
    forall k, g | 0 <= k < |v| && g in v[k] ensures Over(FileItems(f), FileItems(g)) && g.number < f.number { FileInAll(v, k, g); }
    forall k, g | 0 <= k < l && g in v[k] ensures Over(FileItems(g), FileItems(f)) {
      assert !Meets(g, RangeOf(f));
      NotMeetingApart(f, g);
      ApartShareNothing(g, f);
    }
  }

  lemma JoinLayered(v: Version, f: Sst, l: nat, v': Version)
    requires Layered(v) && |v'| == |v| > 0 && NumberedByAge(v[0])
    requires forall k, g :: 0 <= k < |v| && g in v[k] ==> Over(FileItems(f), FileItems(g)) && g.number < f.number
    requires forall k, g :: 0 <= k < l && k < |v| && g in v[k] ==> Over(FileItems(g), FileItems(f))
    requires forall k, g :: 0 <= k < |v| ==> (g in v'[k] <==> g in v[k] || (k == l && g == f))
    ensures Layered(v') && NumberedByAge(v'[0])
  {
  }

  lemma JoinVersionOk(v: Version, f: Sst, l: nat)
    requires VersionOk(v) && MayJoin(v, f, l)
    ensures VersionOk(Replace(v, l, {}, [f]))
  {
    var v' := Replace(v, l, {}, [f]);
    JoinMembers(v, f, l);
    JoinOver(v, f, l);
    JoinLayered(v, f, l, v');
    assert FilesOk(v'[l]);
    DistinctMembers(v[l]);
    forall g | g in v[l] ensures g.number != f.number { FileInAll(v, l, g); }
    LevelDistinct(v'[l]);
    if l > 0 {
      forall x, y | x in v'[l] && y in v'[l] && x != y ensures Apart(x, y) {
        if x != f && y != f { OthersApart(v[l], x, y); }
        else if x == f { assert !Meets(y, RangeOf(f)); NotMeetingApart(f, y); }
        else { assert !Meets(x, RangeOf(f)); NotMeetingApart(f, x); }
      }
      LevelDisjoint(v'[l]);
    }
  }

  lemma JoinItems(v: Version, f: Sst, l: nat, v': Version)
    requires l < |v| && |v'| == |v|
    requires forall k, g :: 0 <= k < |v| ==> (g in v'[k] <==> g in v[k] || (k == l && g == f))
    ensures AllItems(v') == AllItems(v) + FileItems(f)
    ensures forall g :: HasFile(v', g) <==> HasFile(v, g) || g == f
  {
    assert f in v'[l];
    FileInAll(v', l, f);
    forall e | e in AllItems(v') ensures e in AllItems(v) + FileItems(f) {
      var k :| 0 <= k < |v'| && e in LevelItems(v'[k]);
      var g :| g in v'[k] && e in g.body.entries;
      if g in v[k] { FileInAll(v, k, g); }
    }
    forall e | e in AllItems(v) ensures e in AllItems(v') {
      var k :| 0 <= k < |v| && e in LevelItems(v[k]);
      var g :| g in v[k] && e in g.body.entries;
      FileInAll(v', k, g);
    }
    forall g | HasFile(v, g) ensures HasFile(v', g) {
      var k :| 0 <= k < |v| && g in v[k];
      assert g in v'[k];
    }
  }

  lemma FlushKeys(t: seq<Entry>, out: seq<Entry>)
    requires FlushOf(t, out)
    ensures KeysOf(Items(t)) == KeysOf(Items(out))
  {
  }

  /** The bytes that survive the flush still agree with the write. */
  lemma FlushFrom(t: seq<Entry>, out: seq<Entry>, h: seq<Op>)
    requires FlushOf(t, out) && From(Items(t), h)
    ensures From(Items(out), h)
  {
    forall i | 0 <= i < |out| ensures t[i] in Items(t) {}
  }

  lemma KeysOfUnion(a: set<Entry>, b: set<Entry>)
    ensures KeysOf(a + b) == KeysOf(a) + KeysOf(b)
  {
  }

  lemma NewerFlush(a: set<Entry>, t: seq<Entry>, out: seq<Entry>)
    requires FlushOf(t, out) && Newer(a, Items(t))
    ensures Newer(a, Items(out))
  {
    forall i | 0 <= i < |out| ensures t[i] in Items(t) {}
  }

  lemma FlushNewer(t: seq<Entry>, out: seq<Entry>, b: set<Entry>)
    requires FlushOf(t, out) && Newer(Items(t), b)
    ensures Newer(Items(out), b)
  {
    forall i | 0 <= i < |out| ensures t[i] in Items(t) {}
  }

  lemma FlushMayJoin(db: Db)
    requires TablesOk(db) && StackOk(db) && FlushOk(db) && CanFlush(db) && db.flush.value.file.Some?
    ensures
      var f := db.flush.value.file.value;
      MayJoin(db.version, f, PickLevel(db.version, RangeOf(f), db.limits.grandparents))
  {
    FlushNewer(db.tables[db.imm.value], db.flush.value.file.value.body.entries, FileEntries(db));
  }

  lemma JoinSets(v: Version, f: Sst, l: nat)
    requires VersionOk(v) && MayJoin(v, f, l)
    ensures
      var v' := Replace(v, l, {}, [f]);
      AllItems(v') == AllItems(v) + FileItems(f) && forall g :: HasFile(v', g) <==> HasFile(v, g) || g == f
  {
    JoinMembers(v, f, l);
    JoinItems(v, f, l, Replace(v, l, {}, [f]));
  }

  /** What a flush changes in the sets of held entries. */
  lemma FlushItems(db: Db)
    requires TablesOk(db) && StackOk(db) && FlushOk(db) && CanFlush(db) && db.flush.value.file.Some?
    ensures
      var f := db.flush.value.file.value;
      var l := PickLevel(db.version, RangeOf(f), db.limits.grandparents);
      var db' := FlushInstalled(db);
      && MayJoin(db.version, f, l)
      && db'.version == Replace(db.version, l, {}, [f])
      && FlushOf(db.tables[db.imm.value], f.body.entries)
      && MemItems(db') == MemItems(db) && ImmItems(db') == {}
      && ImmItems(db) == Items(db.tables[db.imm.value])
      && FileEntries(db') == FileEntries(db) + FileItems(f)
      && (forall g :: HasFile(db'.version, g) <==> HasFile(db.version, g) || g == f)
  {
    var f := db.flush.value.file.value;
    var l := PickLevel(db.version, RangeOf(f), db.limits.grandparents);
    FlushMayJoin(db);
    JoinSets(db.version, f, l);
  }

  lemma InstallFlushStack(db: Db)
    requires TablesOk(db) && StackOk(db) && FlushOk(db) && CanFlush(db) && db.flush.value.file.Some?
    ensures TablesOk(FlushInstalled(db)) && StackOk(FlushInstalled(db))
  {
    FlushItems(db);
    var f := db.flush.value.file.value;
    var l := PickLevel(db.version, RangeOf(f), db.limits.grandparents);
    JoinVersionOk(db.version, f, l);
    NewerFlush(MemItems(db), db.tables[db.imm.value], f.body.entries);
  }

  lemma InstallFlushHistory(db: Db)
    requires TablesOk(db) && StackOk(db) && FlushOk(db) && HistoryOk(db) && CanFlush(db) && db.flush.value.file.Some?
    ensures HistoryOk(FlushInstalled(db))
  {
    FlushItems(db);
    var f, t := db.flush.value.file.value, db.tables[db.imm.value];
    FlushFrom(t, f.body.entries, db.history);
    FlushKeys(t, f.body.entries);
    var rest := MemItems(db) + FileEntries(db);
    KeysOfUnion(rest, Items(t));
    KeysOfUnion(rest, FileItems(f));
    assert Held(db) == rest + Items(t) && Held(FlushInstalled(db)) == rest + FileItems(f);
  }

  /**
   A flush that lands at the output level of a running compaction or below misses the compaction's key range: the
   union of the input ranges has no gap, so a file that met the range would meet an input on its way down.
   */
  lemma FlushMissesCompaction(v: Version, f: Sst, l: nat, c: Compaction)
    requires VersionOk(v) && MayJoin(v, f, l) && CompactionOk(v, c)
    requires l >= c.level + 1
    ensures !Meets(f, Hull(c.ins.upper + c.ins.lower))
  {
    var all := c.ins.upper + c.ins.lower;
    assert FilesOk(all) by {
      forall g | g in all ensures FileOk(g) { assert g in v[c.level] || g in v[c.level + 1]; }
    }
    HullTight(all);
    var h := Hull(all);
    MinMax(f);
    if Meets(f, h) {
      assert h.lo.value <= h.hi.value by { assert all[0] in all; MinMax(all[0]); }
      var u := if Min(f) < h.lo.value then h.lo.value else Min(f);
      assert Inside(h, u);
      var y :| y in all && Covers(y, u);
      assert Meets(y, RangeOf(f));
      assert false;
    }
  }

  lemma InstallFlushCompaction(v: Version, f: Sst, l: nat, v': Version, c: Compaction)
    requires VersionOk(v) && MayJoin(v, f, l) && CompactionOk(v, c) && |v'| == |v|
    requires forall k, g :: 0 <= k < |v| ==> (g in v'[k] <==> g in v[k] || (k == l && g == f))
    ensures CompactionOk(v', c)
  {
    if l >= c.level + 1 { FlushMissesCompaction(v, f, l, c); }
    forall y | y in c.ins.upper ensures Over(FileItems(f), FileItems(y)) { FileInAll(v, c.level, y); }
  }

  lemma JoinNumbers(v: Version, f: Sst, l: nat, v': Version)
    requires CrossNumbers(v) && |v'| == |v| && forall g :: HasFile(v, g) ==> g.number < f.number
    requires forall k, g :: 0 <= k < |v| ==> (g in v'[k] <==> g in v[k] || (k == l && g == f))
    ensures CrossNumbers(v')
  {
  }

  lemma InstallFlushFiles(db: Db)
    requires TablesOk(db) && StackOk(db) && FlushOk(db) && CrossNumbers(db.version)
    requires CanFlush(db) && db.flush.value.file.Some?
    ensures CrossNumbers(FlushInstalled(db).version)
    ensures forall g :: HasFile(FlushInstalled(db).version, g) <==> HasFile(db.version, g) || g == db.flush.value.file.value
  {
    FlushItems(db);
    var f := db.flush.value.file.value;
    var l := PickLevel(db.version, RangeOf(f), db.limits.grandparents);
    JoinMembers(db.version, f, l);
    JoinNumbers(db.version, f, l, FlushInstalled(db).version);
  }

  /** With the files of the new version known, file numbers and the disk follow. */
  lemma InstallFlushDisk(db: Db, db': Db, f: Sst)
    requires FlushOk(db) && NumbersOk(db) && DiskOk(db) && db.flush.Some? && db.flush.value.file == Some(f)
    requires db' == db.(version := db'.version, imm := None, flush := None, installing := None)
    requires CrossNumbers(db'.version) && forall g :: HasFile(db'.version, g) <==> HasFile(db.version, g) || g == f
    ensures NumbersOk(db') && DiskOk(db')
  {
  }

  lemma InstallFlushEmpty(db: Db)
    requires TablesOk(db) && StackOk(db) && HistoryOk(db) && NumbersOk(db) && DiskOk(db)
    requires CanFlush(db) && db.flush.value.file.None?
    ensures
      var db' := FlushInstalled(db);
      db'.version == db.version && TablesOk(db') && StackOk(db') && HistoryOk(db') && NumbersOk(db') && DiskOk(db')
  {
    assert ImmItems(db) == {} && MemItems(FlushInstalled(db)) == MemItems(db) && Held(FlushInstalled(db)) == Held(db);
  }

  lemma InstallFlushKeepsCompaction(db: Db)
    requires TablesOk(db) && StackOk(db) && FlushOk(db) && db.compaction.Some? && CompactionOk(db.version, db.compaction.value)
    requires CanFlush(db) && db.flush.value.file.Some?
    ensures CompactionOk(FlushInstalled(db).version, db.compaction.value)
  {
    var f := db.flush.value.file.value;
    var l := PickLevel(db.version, RangeOf(f), db.limits.grandparents);
    FlushItems(db);
    JoinMembers(db.version, f, l);
    InstallFlushCompaction(db.version, f, l, FlushInstalled(db).version, db.compaction.value);
  }

  lemma InstallFlushReads(db: Db)
    requires ReadsOk(db) && CanFlush(db)
    ensures ReadsOk(FlushInstalled(db))
  {
  }

  /** Between the halves of the installation the file is in no version and no longer pending. */
  lemma KeepsPrepareFlush(db: Db)
    requires Inv(db) && Enabled(db, PrepareFlush)
    ensures Inv(Next(db, PrepareFlush))
  {
    InvFiles(db);
    var db' := Next(db, PrepareFlush);
    UnpendDisk(db, db');
    BackgroundKeeps(db, db');
  }

  lemma UnpendDisk(db: Db, db': Db)
    requires NumbersOk(db) && DiskOk(db) && db.flush.Some? && db'.installing.Some?
    requires db' == db.(pending := db.pending - {db.flush.value.number}, installing := db'.installing)
    ensures NumbersOk(db') && DiskOk(db')
  {
  }

  lemma KeepsInstallFlush(db: Db)
    requires Inv(db) && Enabled(db, InstallFlush)
    ensures Inv(Next(db, InstallFlush))
  {
    InvData(db);
    InvFiles(db);
    assert CanFlush(db) && Next(db, InstallFlush) == FlushInstalled(db);
    InstallFlushReads(db);
    if db.flush.value.file.Some? {
      InstallFlushStack(db);
      InstallFlushHistory(db);
      InstallFlushFiles(db);
      InstallFlushDisk(db, FlushInstalled(db), db.flush.value.file.value);
      if db.compaction.Some? { InstallFlushKeepsCompaction(db); }
    } else {
      InstallFlushEmpty(db);
    }
    InvFrom(Next(db, InstallFlush));
  }

  // --- Compaction ---------------------------------------------------------------------------

  lemma PickedCompactionOk(v: Version, h: seq<Op>, level: nat, f: Sst, limit: nat)
    requires VersionOk(v) && From(AllItems(v), h) && level + 1 < NUM_LEVELS && f in v[level]
    ensures
      var ins := PickInputs(v, level, f, limit);
      CompactionOk(v, Compaction(level, v, ins, |h|, Survivors(MergeAll(ins.upper + ins.lower), None, |h|, v, level), None, []))
  {
    var ins := PickInputs(v, level, f, limit);
    PickInputsGood(v, level, f, limit);
    forall x, y | x in v[level] && x !in ins.upper && y in ins.upper ensures Over(FileItems(x), FileItems(y)) {
      ApartShareNothing(x, y);
    }
    forall e | e in LevelItems(ins.upper + ins.lower) ensures e.key.sequence <= |h| {
      var g :| g in ins.upper + ins.lower && e in g.body.entries;
      FileInAll(v, if g in ins.upper then level else level + 1, g);
      assert e in AllItems(v);
    }
    assert Concat([]) == [];
  }

  lemma KeepsPick(db: Db, level: nat, f: Sst)
    requires Inv(db) && Enabled(db, Pick(level, f))
    ensures Inv(Next(db, Pick(level, f)))
  {
    InvData(db);
    PickedCompactionOk(db.version, db.history, level, f, db.limits.expanded);
    InvFiles(db);
    BackgroundKeeps(db, Next(db, Pick(level, f)));
  }

  lemma OverNoTies(a: set<Entry>, b: set<Entry>)
    requires Over(a, b)
    ensures NoTies(a, b) && NoTies(b, a)
  {
  }

  lemma NoCommonKey(fs: seq<Sst>, f: Sst, g: Sst, p: Entry, q: Entry)
    requires KeyDisjoint(fs) && FilesOk(fs) && f in fs && g in fs && f != g && p in f.body.entries && q in g.body.entries
    requires p.key.user == q.key.user
    ensures p.key.sequence != q.key.sequence
  {
  }

  lemma SameLevelNoTies(v: Version, l: nat, f: Sst, g: Sst)
    requires Readable(v) && l < |v| && f in v[l] && g in v[l] && f.number != g.number
    ensures NoTies(FileItems(f), FileItems(g))
  {
  }

  lemma InputsNoTies(v: Version, level: nat, ins: Inputs)
    requires Readable(v) && level + 1 < NUM_LEVELS
    requires DistinctNumbers(ins.upper) && DistinctNumbers(ins.lower)
    requires forall f :: f in ins.upper ==> f in v[level]
    requires forall f :: f in ins.lower ==> f in v[level + 1]
    ensures FilesOk(ins.upper + ins.lower) && PairwiseNoTies(ins.upper + ins.lower)
  {
    var all, n := ins.upper + ins.lower, |ins.upper|;
    forall f | f in all ensures FileOk(f) { assert f in v[level] || f in v[level + 1]; }
    forall i, j | 0 <= i < j < |all| ensures NoTies(FileItems(all[i]), FileItems(all[j])) {
      if j < n {
        assert all[i] == ins.upper[i] && all[j] == ins.upper[j];
        SameLevelNoTies(v, level, ins.upper[i], ins.upper[j]);
      } else if i >= n {
        assert all[i] == ins.lower[i - n] && all[j] == ins.lower[j - n];
        assert ins.lower[i - n] in ins.lower && ins.lower[j - n] in ins.lower;
        SameLevelNoTies(v, level + 1, ins.lower[i - n], ins.lower[j - n]);
      } else {
        assert all[i] == ins.upper[i] && all[j] == ins.lower[j - n];
        assert ins.upper[i] in ins.upper && ins.lower[j - n] in ins.lower;
        OverNoTies(FileItems(all[i]), FileItems(all[j]));
      }
    }
  }

  lemma MergedSorted(v: Version, c: Compaction)
    requires VersionOk(v) && CompactionOk(v, c)
    ensures Sorted(Merged(c)) && Items(Merged(c)) == LevelItems(c.ins.upper + c.ins.lower)
    ensures Sorted(Concat(c.outputs) + c.todo) && OnePerUser(Concat(c.outputs) + c.todo)
    ensures forall e :: e in Concat(c.outputs) + c.todo <==>
      e in Items(Merged(c)) && Needed(Items(Merged(c)), e, c.snapshot, c.base, c.level)
  {
    OkReadable(v);
    InputsNoTies(v, c.level, c.ins);
    MergeAllSorted(c.ins.upper + c.ins.lower);
    SurvivorsExact(Merged(c), c.snapshot, c.base, c.level);
    assert forall e :: e in Merged(c) ==> e in Items(Merged(c));
    OneSurvivorPerUser(Merged(c), c.snapshot, c.base, c.level);
  }

  lemma {:induction false} ConcatSnoc(fs: seq<Sst>, f: Sst)
    ensures Concat(fs + [f]) == Concat(fs) + f.body.entries
  {
    if fs == [] {
      assert fs + [f] == [f];
      assert Concat([f]) == f.body.entries + Concat([]);
    } else {
      assert (fs + [f])[1..] == fs[1..] + [f];
      ConcatSnoc(fs[1..], f);
    }
  }

  lemma EmittedOutputs(c: Compaction, n: nat, count: nat, size: nat)
    requires OutputsOk(c) && 0 < count <= |c.todo| && Sorted(Concat(c.outputs) + c.todo)
    requires forall o :: o in c.outputs ==> o.number != n
    ensures
      var o := File(n, c.todo[..count][0].key, Table(size, c.todo[..count]));
      OutputsOk(c.(todo := c.todo[count..], open := None, outputs := c.outputs + [o]))
  {
    var t := c.todo[..count];
    var o := File(n, t[0].key, Table(size, t));
    var all := Concat(c.outputs) + c.todo;
    assert t == all[|Concat(c.outputs)|..|Concat(c.outputs)| + count];
    assert FileOk(o);
    ConcatSnoc(c.outputs, o);
    assert Concat(c.outputs + [o]) + c.todo[count..] == all;
    assert forall i :: 0 <= i < |c.outputs| ==> c.outputs[i] in c.outputs;
    assert Merged(c.(todo := c.todo[count..], open := None, outputs := c.outputs + [o])) == Merged(c);
  }

  lemma EmittedDisk(db: Db, count: nat, size: nat)
    requires NumbersOk(db) && DiskOk(db) && FlushOk(db) && Enabled(db, Emit(count, size))
    ensures NumbersOk(Emitted(db, count, size)) && DiskOk(Emitted(db, count, size)) && FlushOk(Emitted(db, count, size))
  {
    var db' := Emitted(db, count, size);
    var n, t := db.compaction.value.open.value, db.compaction.value.todo[..count];
    WriteFresh(db.disk, n, t, db.version);
    WriteFresh(db.disk, n, t, db.compaction.value.base);
    forall i | i in db'.gets ensures VersionOnDisk(db'.disk, db'.gets[i].version) {
      WriteFresh(db.disk, n, t, db.gets[i].version);
    }
  }

  lemma KeepsOpenOutput(db: Db)
    requires Inv(db) && Enabled(db, OpenOutput)
    ensures Inv(Next(db, OpenOutput))
  {
    InvFiles(db);
    var c := db.compaction.value;
    assert OutputsOk(c) ==> OutputsOk(c.(open := Some(db.nextFile))) by { assert Merged(c.(open := Some(db.nextFile))) == Merged(c); }
    BackgroundKeeps(db, Opened(db));
  }

  lemma KeepsEmit(db: Db, count: nat, size: nat)
    requires Inv(db) && Enabled(db, Emit(count, size))
    ensures Inv(Next(db, Emit(count, size)))
  {
    InvFiles(db);
    assert Holds(db, Stack);
    var c := db.compaction.value;
    assert Sorted(Concat(c.outputs) + c.todo) by { MergedSorted(db.version, c); }
    EmittedOutputs(c, c.open.value, count, size);
    EmittedDisk(db, count, size);
    BackgroundKeeps(db, Emitted(db, count, size));
  }

  /** v' is v with the inputs replaced by the outputs one level down. */
  ghost predicate CompactedTo(v: Version, level: nat, ins: Inputs, outs: seq<Sst>, v': Version)
  {
    && |v'| == |v|
    && forall k, g {:trigger g in v'[k]} {:trigger Remains(v, level, ins, k, g)} :: 0 <= k < |v| ==>
         (g in v'[k] <==> Remains(v, level, ins, k, g) || (k == level + 1 && g in outs))
  }

  /** g is a file of level k that is no input. */
  ghost predicate Remains(v: Version, level: nat, ins: Inputs, k: nat, g: Sst)
    requires k < |v|
  {
    g in v[k] && !(k == level && g in ins.upper) && !(k == level + 1 && g in ins.lower)
  }

  lemma NumberNames(fs: seq<Sst>, part: seq<Sst>, g: Sst)
    requires DistinctNumbers(fs) && g in fs && forall f :: f in part ==> f in fs
    ensures g.number in Numbers(part) <==> g in part
  {
  }

  lemma CompactedMembers(v: Version, level: nat, ins: Inputs, outs: seq<Sst>)
    requires level + 1 < |v| && DistinctNumbers(outs)
    requires InOrder(v[level]) && InOrder(v[level + 1]) && DistinctNumbers(v[level]) && DistinctNumbers(v[level + 1])
    requires forall f :: f in ins.upper ==> f in v[level]
    requires forall f :: f in ins.lower ==> f in v[level + 1]
    requires forall f, o {:trigger f in v[level + 1], o in outs} :: f in v[level + 1] && o in outs ==> f.number != o.number
    ensures CompactedTo(v, level, ins, outs, Compacted(v, level, ins, outs))
    ensures InOrder(Compacted(v, level, ins, outs)[level]) && InOrder(Compacted(v, level, ins, outs)[level + 1])
  {
    var w := Replace(v, level, Numbers(ins.upper), []);
    ReplaceExact(v, level, Numbers(ins.upper), []);
    forall g | g in v[level] ensures g.number in Numbers(ins.upper) <==> g in ins.upper { NumberNames(v[level], ins.upper, g); }
    forall g | g in v[level + 1] ensures g.number in Numbers(ins.lower) <==> g in ins.lower { NumberNames(v[level + 1], ins.lower, g); }
    forall o | o in outs ensures o.number !in Numbers(ins.lower) {}
    ReplaceExact(w, level + 1, Numbers(ins.lower), outs);
  }

  /** Every entry of an output is an entry of some input. */
  ghost predicate Made(outs: seq<Sst>, all: seq<Sst>)
  {
    forall o :: o in outs ==> FileItems(o) <= LevelItems(all)
  }

  lemma OverMade(a: set<Entry>, o: Sst, all: seq<Sst>)
    requires FileItems(o) <= LevelItems(all)
    requires forall y :: y in all ==> Over(a, FileItems(y))
    ensures Over(a, FileItems(o))
  {
    forall e | e in FileItems(o) ensures exists y :: y in all && e in FileItems(y) { InMade(o, all, e); }
  }

  lemma InMade(o: Sst, all: seq<Sst>, e: Entry)
    requires FileItems(o) <= LevelItems(all) && e in FileItems(o)
    ensures exists y :: y in all && e in FileItems(y)
  {
    assert e in LevelItems(all);
    var y :| y in all && e in y.body.entries;
    assert e in FileItems(y);
  }

  lemma MadeOver(o: Sst, b: set<Entry>, all: seq<Sst>)
    requires FileItems(o) <= LevelItems(all)
    requires forall y :: y in all ==> Over(FileItems(y), b)
    ensures Over(FileItems(o), b)
  {
    forall e | e in FileItems(o) ensures exists y :: y in all && e in FileItems(y) { InMade(o, all, e); }
  }

  lemma OutputOverDeeper(v: Version, level: nat, ins: Inputs, o: Sst, m: nat, g: Sst)
    requires Layered(v) && level + 1 < m < |v| && g in v[m] && FileItems(o) <= LevelItems(ins.upper + ins.lower)
    requires forall f :: f in ins.upper ==> f in v[level]
    requires forall f :: f in ins.lower ==> f in v[level + 1]
    ensures Over(FileItems(o), FileItems(g))
  {
    var all := ins.upper + ins.lower;
    forall y | y in all ensures Over(FileItems(y), FileItems(g)) { assert y in v[level] || y in v[level + 1]; }
    MadeOver(o, FileItems(g), all);
  }

  lemma ShallowerOverOutput(v: Version, level: nat, ins: Inputs, o: Sst, l: nat, f: Sst)
    requires Layered(v) && l <= level < |v| - 1 && f in v[l] && FileItems(o) <= LevelItems(ins.upper + ins.lower)
    requires forall g :: g in ins.upper ==> g in v[level]
    requires forall g :: g in ins.lower ==> g in v[level + 1]
    requires l == level ==> forall y :: y in ins.upper ==> Over(FileItems(f), FileItems(y))
    ensures Over(FileItems(f), FileItems(o))
  {
    var all := ins.upper + ins.lower;
    forall y | y in all ensures Over(FileItems(f), FileItems(y)) { assert y in ins.upper || y in v[level + 1]; }
    OverMade(FileItems(f), o, all);
  }

  lemma CompactedLayered(v: Version, level: nat, base: Version, ins: Inputs, snapshot: nat, outs: seq<Sst>, v': Version)
    requires VersionOk(v) && InputsOk(v, level, base, ins, snapshot)
    requires CompactedTo(v, level, ins, outs, v') && Made(outs, ins.upper + ins.lower)
    ensures Layered(v') && NumberedByAge(v'[0])
  {
    forall l, m, f, g | 0 <= l < m < |v'| && f in v'[l] && g in v'[m] ensures Over(FileItems(f), FileItems(g)) {
      if f in v[l] && g in v[m] {
      } else if f !in v[l] {
        assert l == level + 1 && f in outs;
        OutputOverDeeper(v, level, ins, f, m, g);
      } else {
        assert m == level + 1 && g in outs;
        ShallowerOverOutput(v, level, ins, g, l, f);
      }
    }
  }

  lemma OutputInHull(o: Sst, all: seq<Sst>)
    requires FileOk(o) && all != [] && FilesOk(all) && FileItems(o) <= LevelItems(all)
    ensures Within(o, Hull(all))
  {
    HullTight(all);
    var t := o.body.entries;
    forall e | e in t ensures Inside(Hull(all), e.key.user) {
      assert e in FileItems(o);
      var y :| y in all && e in y.body.entries;
      InRange(y, e);
    }
    assert t[0] in t && t[|t| - 1] in t;
  }

  lemma CompactedDisjoint(v: Version, level: nat, base: Version, ins: Inputs, snapshot: nat, outs: seq<Sst>, v': Version)
    requires VersionOk(v) && InputsOk(v, level, base, ins, snapshot)
    requires CompactedTo(v, level, ins, outs, v') && Made(outs, ins.upper + ins.lower)
    requires FilesOk(outs) && Disjoint(outs) && InOrder(v'[level + 1])
    ensures FilesOk(v'[level + 1]) && Disjoint(v'[level + 1])
  {
    var all := ins.upper + ins.lower;
    assert FilesOk(all) by { forall g | g in all ensures FileOk(g) { assert g in v[level] || g in v[level + 1]; } }
    forall x, y | x in v'[level + 1] && y in v'[level + 1] && x != y ensures Apart(x, y) {
      if x in outs && y in outs {
        OthersApart(outs, x, y);
      } else if x in outs || y in outs {
        var o, g := if x in outs then x else y, if x in outs then y else x;
        OutputInHull(o, all);
        HullTight(all);
        MinMax(g);
        assert g in v[level + 1] && g !in ins.lower;
        assert !Meets(g, Hull(all));
      } else {
        OthersApart(v[level + 1], x, y);
      }
    }
    LevelDisjoint(v'[level + 1]);
  }

  lemma CompactedDistinct(v: Version, level: nat, ins: Inputs, outs: seq<Sst>, v': Version, k: nat)
    requires VersionOk(v) && CompactedTo(v, level, ins, outs, v') && DistinctNumbers(outs) && k < |v|
    requires forall f, o {:trigger HasFile(v, f), o in outs} :: HasFile(v, f) && o in outs ==> f.number != o.number
    requires InOrder(v'[k])
    ensures DistinctNumbers(v'[k])
  {
    DistinctMembers(v[k]);
    DistinctMembers(outs);
    forall f | f in v[k] ensures HasFile(v, f) {}
    LevelDistinct(v'[k]);
  }

  lemma CompactedNumbers(v: Version, level: nat, ins: Inputs, outs: seq<Sst>, v': Version)
    requires CrossNumbers(v) && CompactedTo(v, level, ins, outs, v')
    requires forall f, o {:trigger HasFile(v, f), o in outs} :: HasFile(v, f) && o in outs ==> f.number != o.number
    ensures CrossNumbers(v')
  {
    forall l, m, f, g | 0 <= l < m < |v'| && f in v'[l] && g in v'[m] ensures f.number != g.number {
      if f in outs && l == level + 1 {
        assert Remains(v, level, ins, m, g) && HasFile(v, g);
      } else if g in outs && m == level + 1 {
        assert Remains(v, level, ins, l, f) && HasFile(v, f);
      } else {
        assert Remains(v, level, ins, l, f) && Remains(v, level, ins, m, g);
      }
    }
  }

  lemma SubDisjoint(a: seq<Sst>, b: seq<Sst>)
    requires Disjoint(a) && InOrder(b) && FilesOk(b) && forall f :: f in b ==> f in a
    ensures Disjoint(b)
  {
    forall f, g | f in b && g in b && f != g ensures Apart(f, g) { OthersApart(a, f, g); }
    LevelDisjoint(b);
  }

  lemma CompactedShape(v: Version, c: Compaction, v': Version)
    requires VersionOk(v) && InputsOk(v, c.level, c.base, c.ins, c.snapshot)
    requires CompactedTo(v, c.level, c.ins, c.outputs, v') && DistinctNumbers(c.outputs)
    requires InOrder(v'[c.level]) && InOrder(v'[c.level + 1])
    requires forall f, o {:trigger HasFile(v, f), o in c.outputs} :: HasFile(v, f) && o in c.outputs ==> f.number != o.number
    ensures FilesOk(v'[c.level]) && DistinctNumbers(v'[c.level]) && DistinctNumbers(v'[c.level + 1])
    ensures c.level > 0 ==> Disjoint(v'[c.level])
  {
    CompactedDistinct(v, c.level, c.ins, c.outputs, v', c.level);
    CompactedDistinct(v, c.level, c.ins, c.outputs, v', c.level + 1);
    assert forall f :: f in v'[c.level] ==> f in v[c.level];
    if c.level > 0 { SubDisjoint(v[c.level], v'[c.level]); }
  }

  lemma CompactedVersionOk(v: Version, c: Compaction)
    requires VersionOk(v) && CompactionOk(v, c) && c.todo == []
    requires forall f, o {:trigger HasFile(v, f), o in c.outputs} :: HasFile(v, f) && o in c.outputs ==> f.number != o.number
    ensures VersionOk(Compacted(v, c.level, c.ins, c.outputs))
  {
    CompactedStart(v, c);
    OutputsMade(v, c);
    CompactedFromParts(v, c, Compacted(v, c.level, c.ins, c.outputs));
  }

  lemma CompactedStart(v: Version, c: Compaction)
    requires VersionOk(v) && CompactionOk(v, c)
    requires forall f, o {:trigger HasFile(v, f), o in c.outputs} :: HasFile(v, f) && o in c.outputs ==> f.number != o.number
    ensures CompactedTo(v, c.level, c.ins, c.outputs, Compacted(v, c.level, c.ins, c.outputs))
    ensures InOrder(Compacted(v, c.level, c.ins, c.outputs)[c.level])
    ensures InOrder(Compacted(v, c.level, c.ins, c.outputs)[c.level + 1])
  {
    forall f, o | f in v[c.level + 1] && o in c.outputs ensures f.number != o.number { assert HasFile(v, f); }
    CompactedMembers(v, c.level, c.ins, c.outputs);
  }

  lemma CompactedFromParts(v: Version, c: Compaction, v': Version)
    requires VersionOk(v) && InputsOk(v, c.level, c.base, c.ins, c.snapshot) && FilesOk(c.outputs) && DistinctNumbers(c.outputs)
    requires CompactedTo(v, c.level, c.ins, c.outputs, v') && InOrder(v'[c.level]) && InOrder(v'[c.level + 1])
    requires Made(c.outputs, c.ins.upper + c.ins.lower) && Disjoint(c.outputs)
    requires forall f, o {:trigger HasFile(v, f), o in c.outputs} :: HasFile(v, f) && o in c.outputs ==> f.number != o.number
    requires forall k :: 0 <= k < |v| && k != c.level && k != c.level + 1 ==> v'[k] == v[k]
    ensures VersionOk(v')
  {
    CompactedLayered(v, c.level, c.base, c.ins, c.snapshot, c.outputs, v');
    CompactedDisjoint(v, c.level, c.base, c.ins, c.snapshot, c.outputs, v');
    CompactedShape(v, c, v');
    OtherLevelsSame(v, c.level, v');
  }

  lemma OtherLevelsSame(v: Version, level: nat, v': Version)
    requires VersionOk(v) && |v'| == |v| && level + 1 < |v|
    requires forall k :: 0 <= k < |v| && k != level && k != level + 1 ==> v'[k] == v[k]
    requires FilesOk(v'[level]) && InOrder(v'[level]) && DistinctNumbers(v'[level]) && (level > 0 ==> Disjoint(v'[level]))
    requires FilesOk(v'[level + 1]) && InOrder(v'[level + 1]) && DistinctNumbers(v'[level + 1]) && Disjoint(v'[level + 1])
    requires NumberedByAge(v'[0]) && Layered(v')
    ensures VersionOk(v')
  {
  }

  lemma OutputsMade(v: Version, c: Compaction)
    requires VersionOk(v) && CompactionOk(v, c) && c.todo == []
    ensures Made(c.outputs, c.ins.upper + c.ins.lower) && Disjoint(c.outputs)
  {
    MergedSorted(v, c);
    assert Concat(c.outputs) + c.todo == Concat(c.outputs);
    CutsDisjoint(c.outputs);
    forall o | o in c.outputs ensures FileItems(o) <= LevelItems(c.ins.upper + c.ins.lower) {
      forall e | e in FileItems(o) ensures e in LevelItems(c.ins.upper + c.ins.lower) {
        assert e in LevelItems(c.outputs);
        assert e in Concat(c.outputs) + c.todo;
      }
    }
  }

  lemma CompactedItems(v: Version, level: nat, ins: Inputs, outs: seq<Sst>, v': Version)
    requires level + 1 < |v| && CompactedTo(v, level, ins, outs, v') && Made(outs, ins.upper + ins.lower)
    requires forall f :: f in ins.upper ==> f in v[level]
    requires forall f :: f in ins.lower ==> f in v[level + 1]
    ensures AllItems(v') <= AllItems(v)
    ensures forall e :: e in AllItems(v) && e !in AllItems(v') ==> e in LevelItems(ins.upper + ins.lower)
    ensures LevelItems(outs) <= AllItems(v')
  {
    var all := ins.upper + ins.lower;
    forall e | e in AllItems(v') ensures e in AllItems(v) {
      var k :| 0 <= k < |v'| && e in LevelItems(v'[k]);
      var g :| g in v'[k] && e in g.body.entries;
      if g in v[k] { FileInAll(v, k, g); }
      else {
        assert e in FileItems(g);
        var y :| y in all && e in y.body.entries;
        FileInAll(v, if y in ins.upper then level else level + 1, y);
      }
    }
    forall e | e in AllItems(v) && e !in AllItems(v') ensures e in LevelItems(all) {
      var k :| 0 <= k < |v| && e in LevelItems(v[k]);
      var g :| g in v[k] && e in g.body.entries;
      if g in v'[k] { FileInAll(v', k, g); }
      assert g in all;
    }
    forall e | e in LevelItems(outs) ensures e in AllItems(v') {
      var o :| o in outs && e in o.body.entries;
      FileInAll(v', level + 1, o);
    }
  }

  lemma InputsHeld(v: Version, level: nat, ins: Inputs)
    requires level + 1 < |v|
    requires forall f :: f in ins.upper ==> f in v[level]
    requires forall f :: f in ins.lower ==> f in v[level + 1]
    ensures LevelItems(ins.upper + ins.lower) <= AllItems(v)
  {
    forall e | e in LevelItems(ins.upper + ins.lower) ensures e in AllItems(v) {
      var y :| y in ins.upper + ins.lower && e in y.body.entries;
      FileInAll(v, if y in ins.upper then level else level + 1, y);
    }
  }

  lemma InputInHull(all: seq<Sst>, e: Entry)
    requires all != [] && FilesOk(all) && e in LevelItems(all)
    ensures Inside(Hull(all), e.key.user)
  {
  }

  /** At or below the output level no other file covers a key that the compaction covers and that is at its base level. */
  lemma OutsiderMisses(v: Version, c: Compaction, u: UserKey, l: nat, f: Sst)
    requires InputsOk(v, c.level, c.base, c.ins, c.snapshot) && IsBase(c.base, c.level, u)
    requires Inside(Hull(c.ins.upper + c.ins.lower), u)
    requires c.level + 1 <= l < |v| && f in v[l] && (l == c.level + 1 ==> f !in c.ins.lower)
    ensures !Covers(f, u)
  {
    assert Covers(f, u) ==> Meets(f, Hull(c.ins.upper + c.ins.lower));
    assert |c.base| == |v|;
    assert l >= c.level + 2 && f in c.base[l] ==> !Covers(f, u);
  }

  lemma ShallowerIsNewer(v: Version, c: Compaction, l: nat, f: Sst)
    requires VersionOk(v) && InputsOk(v, c.level, c.base, c.ins, c.snapshot)
    requires l <= c.level && f in v[l] && (l == c.level ==> f !in c.ins.upper)
    ensures Over(FileItems(f), LevelItems(c.ins.upper + c.ins.lower))
  {
    forall x, e | x in FileItems(f) && e in LevelItems(c.ins.upper + c.ins.lower) && x.key.user == e.key.user
      ensures x.key.sequence > e.key.sequence
    {
      var y :| y in c.ins.upper + c.ins.lower && e in y.body.entries;
      assert y in c.ins.upper || y in v[c.level + 1];
      assert Over(FileItems(f), FileItems(y)) && e in FileItems(y);
    }
  }

  /** Once a tombstone is dropped at its base level, no file outside the compaction holds an older version of its key. */
  lemma NothingOlder(v: Version, c: Compaction, e: Entry, l: nat, f: Sst, x: Entry)
    requires VersionOk(v) && InputsOk(v, c.level, c.base, c.ins, c.snapshot)
    requires e in LevelItems(c.ins.upper + c.ins.lower) && IsBase(c.base, c.level, e.key.user)
    requires l < |v| && Remains(v, c.level, c.ins, l, f)
    requires x in f.body.entries && x.key.user == e.key.user
    ensures x.key.sequence > e.key.sequence
  {
    if l <= c.level {
      ShallowerIsNewer(v, c, l, f);
      assert x in FileItems(f);
    } else {
      var all := c.ins.upper + c.ins.lower;
      assert FilesOk(all) by { forall g | g in all ensures FileOk(g) { assert g in v[c.level] || g in v[c.level + 1]; } }
      InputInHull(all, e);
      OutsiderMisses(v, c, e.key.user, l, f);
      InRange(f, x);
    }
  }

  /** A surviving entry is the newest input version of its key, so a dropped tombstone leaves none. */
  lemma NoSurvivor(v: Version, c: Compaction, e: Entry, x: Entry)
    requires VersionOk(v) && CompactionOk(v, c)
    requires e in Items(Merged(c)) && e.key.kind.Deletion? && IsBase(c.base, c.level, e.key.user)
    requires x in Concat(c.outputs) + c.todo && x.key.user == e.key.user
    requires x.key.sequence == e.key.sequence ==> x.key.kind == e.key.kind
    ensures x.key.sequence > e.key.sequence
  {
    MergedSorted(v, c);
    assert x in LevelItems(c.ins.upper + c.ins.lower) && e in LevelItems(c.ins.upper + c.ins.lower);
    assert Top(Items(Merged(c)), x, c.snapshot);
  }

  lemma LastIsNewest(h: seq<Op>, a: set<Entry>, e: Entry, x: Entry)
    requires From(a, h) && x in a && x.key.user == e.key.user && e.key.sequence == Last(h, e.key.user) + 1
    ensures x.key.sequence <= e.key.sequence
  {
  }

  lemma LastIsTop(h: seq<Op>, all: set<Entry>, a: set<Entry>, e: Entry, snapshot: nat)
    requires From(all, h) && a <= all && e in a && e.key.sequence == Last(h, e.key.user) + 1
    ensures Top(a, e, snapshot)
  {
    forall x | x in a && x.key.user == e.key.user ensures x.key.sequence <= e.key.sequence { LastIsNewest(h, all, e, x); }
  }

  lemma LastWriteSurvives(h: seq<Op>, v: Version, c: Compaction, e: Entry)
    requires VersionOk(v) && CompactionOk(v, c) && From(AllItems(v), h)
    requires e in LevelItems(c.ins.upper + c.ins.lower) && e.key.sequence == Last(h, e.key.user) + 1
    requires !(e.key.kind.Deletion? && IsBase(c.base, c.level, e.key.user))
    ensures e in Concat(c.outputs) + c.todo
  {
    MergedSorted(v, c);
    InputsHeld(v, c.level, c.ins);
    LastIsTop(h, AllItems(v), Items(Merged(c)), e, c.snapshot);
    assert Needed(Items(Merged(c)), e, c.snapshot, c.base, c.level);
  }

  /** An entry held after the installation is in a file that was no input, or in an output. */
  lemma Whereabouts(v: Version, level: nat, ins: Inputs, outs: seq<Sst>, v': Version, x: Entry) returns (l: nat, f: Sst)
    requires CompactedTo(v, level, ins, outs, v') && x in AllItems(v')
    ensures x in f.body.entries
    ensures (l < |v| && Remains(v, level, ins, l, f)) || x in LevelItems(outs)
  {
    l :| 0 <= l < |v'| && x in LevelItems(v'[l]);
    f :| f in v'[l] && x in f.body.entries;
  }

  /** After the installation only newer versions of the key remain. */
  lemma OnlyNewerRemain(v: Version, c: Compaction, v': Version, e: Entry, x: Entry)
    requires VersionOk(v) && CompactionOk(v, c) && c.todo == []
    requires CompactedTo(v, c.level, c.ins, c.outputs, v')
    requires e in LevelItems(c.ins.upper + c.ins.lower)
    requires e.key.kind.Deletion? && IsBase(c.base, c.level, e.key.user)
    requires x in AllItems(v') && x.key.user == e.key.user
    requires x.key.sequence == e.key.sequence ==> x.key.kind == e.key.kind
    ensures x.key.sequence > e.key.sequence
  {
    var l, f := Whereabouts(v, c.level, c.ins, c.outputs, v', x);
    if x in LevelItems(c.outputs) {
      assert e in Items(Merged(c)) by { MergedSorted(v, c); }
      assert x in Concat(c.outputs) + c.todo;
      NoSurvivor(v, c, e, x);
    } else {
      NothingOlder(v, c, e, l, f, x);
    }
  }

  ghost predicate OnlyNewer(b: set<Entry>, e: Entry)
  {
    forall x :: x in b && x.key.user == e.key.user && (x.key.sequence == e.key.sequence ==> x.key.kind == e.key.kind)
      ==> x.key.sequence > e.key.sequence
  }

  /** If e was the last write to its key and only newer versions remain, no committed version remains. */
  lemma LastLeaves(h: seq<Op>, more: seq<Op>, top: set<Entry>, a: set<Entry>, b: set<Entry>, e: Entry, x: Entry)
    requires From(a, h) && b <= a && e in a && e.key.sequence == Last(h, e.key.user) + 1 && OnlyNewer(b, e)
    requires Newer(top, a) && From(top, h + more)
    requires x in top + b && x.key.user == e.key.user
    ensures x.key.sequence > |h|
  {
    FromOne(a, h, e);
    if x in b { FromOne(a, h, x); } else { FromOne(top, h + more, x); }
  }

  lemma LastLeavesNothing(h: seq<Op>, more: seq<Op>, top: set<Entry>, a: set<Entry>, b: set<Entry>, e: Entry)
    requires From(a, h) && b <= a && e in a && e.key.sequence == Last(h, e.key.user) + 1 && OnlyNewer(b, e)
    requires Newer(top, a) && From(top, h + more)
    ensures Absent(KeysOf(top + b), e.key.user, |h|)
  {
    forall q | q in KeysOf(top + b) && q.user == e.key.user ensures q.sequence > |h| {
      var x :| x in top + b && x.key == q;
      LastLeaves(h, more, top, a, b, e, x);
    }
  }

  /** The last write to u, found among the inputs, survives or leaves nothing of u behind. */
  lemma InputComplete(h: seq<Op>, more: seq<Op>, top: set<Entry>, v: Version, c: Compaction, v': Version, e: Entry)
    requires VersionOk(v) && CompactionOk(v, c) && c.todo == [] && From(AllItems(v), h) && AllItems(v') <= AllItems(v)
    requires CompactedTo(v, c.level, c.ins, c.outputs, v') && LevelItems(c.outputs) <= AllItems(v')
    requires Newer(top, AllItems(v)) && From(top, h + more)
    requires e in LevelItems(c.ins.upper + c.ins.lower) && e in AllItems(v) && e.key.sequence == Last(h, e.key.user) + 1
    ensures Complete(h, KeysOf(top + AllItems(v')), e.key.user)
  {
    var u, b := e.key.user, top + AllItems(v');
    if e.key.kind.Deletion? && IsBase(c.base, c.level, u) {
      assert h[e.key.sequence - 1].kind.Deletion? by { FromOne(AllItems(v), h, e); }
      assert OnlyNewer(AllItems(v'), e) by {
        forall x | x in AllItems(v') && x.key.user == u && (x.key.sequence == e.key.sequence ==> x.key.kind == e.key.kind)
          ensures x.key.sequence > e.key.sequence { OnlyNewerRemain(v, c, v', e, x); }
      }
      LastLeavesNothing(h, more, top, AllItems(v), AllItems(v'), e);
    } else {
      assert e in b && e.key in KeysOf(b) by {
        LastWriteSurvives(h, v, c, e);
        assert e in LevelItems(c.outputs);
      }
    }
  }

  lemma CompactedComplete(h: seq<Op>, more: seq<Op>, top: set<Entry>, v: Version, c: Compaction, v': Version, u: UserKey)
    requires VersionOk(v) && CompactionOk(v, c) && c.todo == [] && From(AllItems(v), h)
    requires CompactedTo(v, c.level, c.ins, c.outputs, v') && Made(c.outputs, c.ins.upper + c.ins.lower)
    requires Newer(top, AllItems(v)) && From(top, h + more) && Complete(h, KeysOf(top + AllItems(v)), u)
    ensures Complete(h, KeysOf(top + AllItems(v')), u)
  {
    var i := Last(h, u);
    var a, b := top + AllItems(v), top + AllItems(v');
    CompactedItems(v, c.level, c.ins, c.outputs, v');
    if i >= 0 && Present(KeysOf(a), u, i + 1) {
      var k :| k in KeysOf(a) && k.user == u && k.sequence == i + 1;
      var e :| e in a && e.key == k;
      if e in b {
        assert e.key in KeysOf(b) && Present(KeysOf(b), u, i + 1);
      } else {
        InputComplete(h, more, top, v, c, v', e);
      }
    } else if i >= 0 {
      assert Absent(KeysOf(a), u, |h|) && b <= a;
      AbsentFewer(b, a, u, |h|);
    }
  }

  lemma AbsentFewer(b: set<Entry>, a: set<Entry>, u: UserKey, n: nat)
    requires b <= a && Absent(KeysOf(a), u, n)
    ensures Absent(KeysOf(b), u, n)
  {
    forall k | k in KeysOf(b) ensures k in KeysOf(a) {}
  }

  lemma InstallItems(db: Db)
    requires StackOk(db) && NumbersOk(db) && CanCompact(db) && CompactionOk(db.version, db.compaction.value)
    ensures
      var c := db.compaction.value;
      var v' := Compacted(db.version, c.level, c.ins, c.outputs);
      && VersionOk(v') && CompactedTo(db.version, c.level, c.ins, c.outputs, v')
      && Made(c.outputs, c.ins.upper + c.ins.lower) && AllItems(v') <= AllItems(db.version)
      && (forall f :: HasFile(v', f) ==> HasFile(db.version, f) || f in c.outputs)
  {
    var c := db.compaction.value;
    var v' := Compacted(db.version, c.level, c.ins, c.outputs);
    CompactedVersionOk(db.version, c);
    CompactedStart(db.version, c);
    OutputsMade(db.version, c);
    CompactedItems(db.version, c.level, c.ins, c.outputs, v');
    CompactedHas(db.version, c.level, c.ins, c.outputs, v');
  }

  lemma CompactedHas(v: Version, level: nat, ins: Inputs, outs: seq<Sst>, v': Version)
    requires CompactedTo(v, level, ins, outs, v')
    ensures forall f :: HasFile(v', f) ==> HasFile(v, f) || f in outs
  {
    forall f | HasFile(v', f) ensures HasFile(v, f) || f in outs {
      var l :| 0 <= l < |v'| && f in v'[l];
    }
  }

  lemma InstallComplete(db: Db)
    requires StackOk(db) && NumbersOk(db) && HistoryOk(db)
    requires CanCompact(db) && CompactionOk(db.version, db.compaction.value)
    ensures AllComplete(db.history, KeysOf(MemItems(db) + ImmItems(db) + AllItems(Installed(db).version)))
  {
    InstallItems(db);
    var top, more := MemItems(db) + ImmItems(db), db.group[..db.inserted];
    var v' := Installed(db).version;
    assert Newer(top, AllItems(db.version)) && From(top, db.history + more) by { FromHeld(db); }
    forall u ensures Complete(db.history, KeysOf(top + AllItems(v')), u) {
      assert Complete(db.history, KeysOf(Held(db)), u);
      CompactedComplete(db.history, more, top, db.version, db.compaction.value, v', u);
    }
  }

  lemma InstallHistory(db: Db, db': Db)
    requires HistoryOk(db) && db' == db.(version := db'.version, compaction := None, pending := db'.pending, installing := None)
    requires AllItems(db'.version) <= AllItems(db.version)
    requires AllComplete(db.history, KeysOf(MemItems(db) + ImmItems(db) + AllItems(db'.version)))
    ensures HistoryOk(db')
  {
  }

  lemma InstallFiles(db: Db)
    requires StackOk(db) && NumbersOk(db) && CanCompact(db) && CompactionOk(db.version, db.compaction.value)
    ensures CrossNumbers(Installed(db).version)
    ensures forall g :: HasFile(Installed(db).version, g) ==> HasFile(db.version, g) || g in db.compaction.value.outputs
  {
    var c := db.compaction.value;
    InstallItems(db);
    CompactedNumbers(db.version, c.level, c.ins, c.outputs, Installed(db).version);
  }

  lemma InstallDisk(db: Db, db': Db)
    requires NumbersOk(db) && DiskOk(db) && db.compaction.Some? && db.flush.None?
    requires db' == db.(version := db'.version, compaction := None, pending := db'.pending, installing := None)
    requires CrossNumbers(db'.version)
    requires forall g :: HasFile(db'.version, g) ==> HasFile(db.version, g) || g in db.compaction.value.outputs
    ensures NumbersOk(db') && DiskOk(db')
  {
  }

  lemma InstallStack(db: Db)
    requires TablesOk(db) && StackOk(db) && NumbersOk(db) && ReadsOk(db)
    requires CanCompact(db) && CompactionOk(db.version, db.compaction.value)
    ensures TablesOk(Installed(db)) && StackOk(Installed(db)) && ReadsOk(Installed(db))
    ensures AllItems(Installed(db).version) <= AllItems(db.version)
  {
    var db' := Installed(db);
    InstallItems(db);
    assert MemItems(db') == MemItems(db) && ImmItems(db') == ImmItems(db);
    InstallReads(db);
  }

  lemma InstallReads(db: Db)
    requires ReadsOk(db) && CanCompact(db)
    ensures ReadsOk(Installed(db))
  {
    assert forall i :: i in db.gets ==> ReadOk(db, db.gets[i]);
  }

  lemma KeepsPrepareCompaction(db: Db)
    requires Inv(db) && Enabled(db, PrepareCompaction)
    ensures Inv(Next(db, PrepareCompaction))
  {
    InvFiles(db);
    BackgroundKeeps(db, Next(db, PrepareCompaction));
  }

  lemma KeepsInstallCompaction(db: Db)
    requires Inv(db) && Enabled(db, InstallCompaction)
    ensures Inv(Next(db, InstallCompaction))
  {
    InvData(db);
    InvFiles(db);
    var db' := Installed(db);
    assert CanCompact(db) && Next(db, InstallCompaction) == db';
    InstallStack(db);
    InstallComplete(db);
    InstallHistory(db, db');
    InstallFiles(db);
    InstallDisk(db, db');
    InvFrom(Next(db, InstallCompaction));
  }

  // --- Trivial move -------------------------------------------------------------------------

  lemma MovedMembers(v: Version, level: nat, f: Sst)
    requires level + 1 < |v| && f in v[level] && InOrder(v[level]) && InOrder(v[level + 1]) && DistinctNumbers(v[level])
    requires forall g :: g in v[level + 1] ==> g.number != f.number
    ensures CompactedTo(v, level, Inputs([f], []), [f], Moved(v, level, f))
    ensures InOrder(Moved(v, level, f)[level]) && InOrder(Moved(v, level, f)[level + 1])
  {
    assert forall g :: g in v[level] ==> (g.number == f.number <==> g == f) by { DistinctMembers(v[level]); }
    ReplaceExact(v, level, {f.number}, []);
    ReplaceExact(Replace(v, level, {f.number}, []), level + 1, {}, [f]);
  }

  lemma MovedLayers(v: Version, h: seq<Op>, level: nat, f: Sst, limit: nat, v': Version)
    requires VersionOk(v) && From(AllItems(v), h) && level + 1 < NUM_LEVELS && f in v[level]
    requires PickInputs(v, level, f, limit) == Inputs([f], [])
    requires CompactedTo(v, level, Inputs([f], []), [f], v') && InOrder(v'[level + 1])
    ensures Layered(v') && NumberedByAge(v'[0]) && FilesOk(v'[level + 1]) && Disjoint(v'[level + 1])
  {
    var ins := Inputs([f], []);
    assert InputsOk(v, level, v, ins, |h|) by { PickedCompactionOk(v, h, level, f, limit); }
    assert ins.upper + ins.lower == [f];
    assert Made([f], [f]);
    CompactedLayered(v, level, v, ins, |h|, [f], v');
    CompactedDisjoint(v, level, v, ins, |h|, [f], v');
  }

  lemma MovedVersionOk(v: Version, h: seq<Op>, level: nat, f: Sst, limit: nat)
    requires VersionOk(v) && CrossNumbers(v) && From(AllItems(v), h) && level + 1 < NUM_LEVELS && f in v[level]
    requires PickInputs(v, level, f, limit) == Inputs([f], [])
    ensures CompactedTo(v, level, Inputs([f], []), [f], Moved(v, level, f))
    ensures VersionOk(Moved(v, level, f))
  {
    var v' := Moved(v, level, f);
    MovedMembers(v, level, f);
    MovedLayers(v, h, level, f, limit, v');
    MovedDistinct(v, level, f, v');
    assert FilesOk(v'[level]);
    if level > 0 { SubDisjoint(v[level], v'[level]); }
    OtherLevelsSame(v, level, v');
  }

  lemma MovedDistinct(v: Version, level: nat, f: Sst, v': Version)
    requires CrossNumbers(v) && level + 1 < |v| && f in v[level] && CompactedTo(v, level, Inputs([f], []), [f], v')
    requires DistinctNumbers(v[level]) && DistinctNumbers(v[level + 1]) && InOrder(v'[level]) && InOrder(v'[level + 1])
    ensures DistinctNumbers(v'[level]) && DistinctNumbers(v'[level + 1])
  {
    DistinctMembers(v[level]);
    DistinctMembers(v[level + 1]);
    LevelDistinct(v'[level]);
    LevelDistinct(v'[level + 1]);
  }

  lemma MovedNumbers(v: Version, level: nat, f: Sst, v': Version)
    requires CrossNumbers(v) && level + 1 < |v| && f in v[level] && DistinctNumbers(v[level])
    requires CompactedTo(v, level, Inputs([f], []), [f], v')
    ensures CrossNumbers(v')
  {
  }

  lemma MovedItems(v: Version, level: nat, f: Sst, v': Version)
    requires level + 1 < |v| && f in v[level] && CompactedTo(v, level, Inputs([f], []), [f], v')
    ensures AllItems(v') == AllItems(v)
    ensures forall g :: HasFile(v', g) <==> HasFile(v, g)
  {
    assert [f] + [] == [f];
    CompactedItems(v, level, Inputs([f], []), [f], v');
    forall g | HasFile(v, g) ensures HasFile(v', g) {
      var l :| 0 <= l < |v| && g in v[l];
      assert f in v'[level + 1];
      assert (l == level && g == f) || g in v'[l];
    }
    forall g | HasFile(v', g) ensures HasFile(v, g) { var l :| 0 <= l < |v'| && g in v'[l]; }
  }

  lemma MovedData(db: Db, db': Db)
    requires HistoryOk(db) && NumbersOk(db) && DiskOk(db) && ReadsOk(db) && db.flush.None? && db.compaction.None?
    requires db' == db.(version := db'.version, installing := None) && CrossNumbers(db'.version)
    requires AllItems(db'.version) == AllItems(db.version)
    requires forall g :: HasFile(db'.version, g) <==> HasFile(db.version, g)
    ensures HistoryOk(db') && NumbersOk(db') && DiskOk(db') && ReadsOk(db') && FlushOk(db')
  {
  }

  lemma KeepsPrepareMove(db: Db, level: nat, f: Sst)
    requires Inv(db) && Enabled(db, PrepareMove(level, f))
    ensures Inv(Next(db, PrepareMove(level, f)))
  {
    InvFiles(db);
    BackgroundKeeps(db, Next(db, PrepareMove(level, f)));
  }

  lemma KeepsInstallMove(db: Db)
    requires Inv(db) && Enabled(db, InstallMove)
    ensures Inv(Next(db, InstallMove))
  {
    InvData(db);
    InvFiles(db);
    var db', level, f := Next(db, InstallMove), db.installing.value.level, db.installing.value.file;
    MovedVersionOk(db.version, db.history, level, f, db.limits.expanded);
    MovedItems(db.version, level, f, db'.version);
    MovedNumbers(db.version, level, f, db'.version);
    MovedData(db, db');
    InvFrom(Next(db, InstallMove));
  }

  // --- Deleting files and reading -----------------------------------------------------------

  lemma KeptOnDisk(db: Db, v: Version)
    requires VersionOnDisk(db.disk, v)
    requires forall f :: HasFile(v, f) ==> Live(db, f.number)
    ensures VersionOnDisk(map n | n in db.disk && Live(db, n) :: db.disk[n], v)
  {
  }

  lemma DeleteObsoleteDisk(db: Db)
    requires DiskOk(db) && FlushOk(db) && db.installing.None?
    ensures DiskOk(Next(db, DeleteObsolete))
  {
    KeptOnDisk(db, db.version);
    forall i | i in db.gets ensures VersionOnDisk(Next(db, DeleteObsolete).disk, db.gets[i].version) {
      KeptOnDisk(db, db.gets[i].version);
    }
    if db.compaction.Some? { KeptOnDisk(db, db.compaction.value.base); }
  }

  lemma KeepsDeleteObsolete(db: Db)
    requires Inv(db) && Enabled(db, DeleteObsolete)
    ensures Inv(Next(db, DeleteObsolete))
  {
    InvFiles(db);
    DeleteObsoleteDisk(db);
    DiskChange(db, Next(db, DeleteObsolete));
  }

  lemma DiskChange(db: Db, db': Db)
    requires Inv(db) && db' == db.(disk := db'.disk) && DiskOk(db')
    ensures Inv(db')
  {
    InvFiles(db);
    SameInstall(db, db');
    BackgroundKeeps(db, db');
  }

  /** Only the set of outstanding reads changes. */
  lemma GetsChange(db: Db, db': Db)
    requires Inv(db) && db' == db.(gets := db'.gets)
    requires forall i :: i in db'.gets ==> ReadOk(db, db'.gets[i]) && VersionOnDisk(db.disk, db'.gets[i].version)
    ensures Inv(db')
  {
    InvData(db);
    InvFiles(db);
    assert MemItems(db') == MemItems(db) && ImmItems(db') == ImmItems(db) && FileEntries(db') == FileEntries(db);
    SameInstall(db, db');
    InvFrom(db');
  }

  lemma KeepsStartRead(db: Db, id: nat, u: UserKey)
    requires Inv(db)
    ensures Inv(db.(gets := db.gets[id := CurrentRead(db, u)]))
  {
    InvData(db);
    InvFiles(db);
    CurrentReadRight(db, u);
    GetsChange(db, db.(gets := db.gets[id := CurrentRead(db, u)]));
  }

  lemma KeepsEndRead(db: Db, id: nat)
    requires Inv(db)
    ensures Inv(db.(gets := db.gets - {id}))
  {
    InvData(db);
    InvFiles(db);
    GetsChange(db, db.(gets := db.gets - {id}));
  }

  // --- Whole runs ---------------------------------------------------------------------------

  lemma KeepsForeground(db: Db, s: Step)
    requires Inv(db) && Enabled(db, s)
    requires s.BeginGroup? || s.InsertOne? || s.Commit? || s.Switch? || s.StartRead? || s.EndRead?
    ensures Inv(Next(db, s))
  {
    match s
    case BeginGroup(ops) => KeepsBeginGroup(db, ops);
    case InsertOne => KeepsInsertOne(db);
    case Commit => KeepsCommit(db);
    case Switch(id) => KeepsSwitch(db, id);
    case StartRead(id, u) => KeepsStartRead(db, id, u);
    case EndRead(id) => KeepsEndRead(db, id);
  }

  lemma KeepsFlushing(db: Db, s: Step)
    requires Inv(db) && Enabled(db, s)
    requires s.StartFlush? || s.BuildFlush? || s.PrepareFlush? || s.InstallFlush? || s.DeleteObsolete?
    ensures Inv(Next(db, s))
  {
    match s
    case StartFlush => KeepsStartFlush(db);
    case BuildFlush(table) => KeepsBuildFlush(db, table);
    case PrepareFlush => KeepsPrepareFlush(db);
    case InstallFlush => KeepsInstallFlush(db);
    case DeleteObsolete => KeepsDeleteObsolete(db);
  }

  lemma KeepsCompacting(db: Db, s: Step)
    requires Inv(db) && Enabled(db, s)
    requires s.Pick? || s.OpenOutput? || s.Emit? || s.PrepareCompaction? || s.InstallCompaction? || s.PrepareMove? || s.InstallMove?
    ensures Inv(Next(db, s))
  {
    match s
    case Pick(level, f) => KeepsPick(db, level, f);
    case OpenOutput => KeepsOpenOutput(db);
    case Emit(count, size) => KeepsEmit(db, count, size);
    case PrepareCompaction => KeepsPrepareCompaction(db);
    case InstallCompaction => KeepsInstallCompaction(db);
    case PrepareMove(level, f) => KeepsPrepareMove(db, level, f);
    case InstallMove => KeepsInstallMove(db);
  }

  lemma KeepsInv(db: Db, s: Step)
    requires Inv(db) && Enabled(db, s)
    ensures Inv(Next(db, s))
  {
    if s.BeginGroup? || s.InsertOne? || s.Commit? || s.Switch? || s.StartRead? || s.EndRead? {
      KeepsForeground(db, s);
    } else if s.StartFlush? || s.BuildFlush? || s.PrepareFlush? || s.InstallFlush? || s.DeleteObsolete? {
      KeepsFlushing(db, s);
    } else {
      KeepsCompacting(db, s);
    }
  }

  /** A freshly created database. */
  function Fresh(limits: Limits): Db
  {
    Db(limits, map[0 := []], 0, None, [[], [], [], [], [], [], []], [], [], 0, 2, None, None, None, {}, map[], map[])
  }

  lemma EmptyVersionOk(v: Version)
    requires |v| == NUM_LEVELS && forall l :: 0 <= l < |v| ==> v[l] == []
    ensures VersionOk(v) && CrossNumbers(v) && AllItems(v) == {} && forall f :: !HasFile(v, f)
  {
  }

  lemma FreshInv(limits: Limits)
    ensures Inv(Fresh(limits))
  {
    var db := Fresh(limits);
    EmptyVersionOk(db.version);
    assert Held(db) == {};
    InvFrom(Fresh(limits));
  }

  /** db' is reached from db by the steps, each enabled where it is taken. */
  ghost predicate Run(db: Db, steps: seq<Step>, db': Db)
    decreases |steps|
  {
    if steps == [] then db' == db
    else Enabled(db, steps[0]) && Run(Next(db, steps[0]), steps[1..], db')
  }

  lemma {:induction false} RunKeepsInv(db: Db, steps: seq<Step>, db': Db)
    requires Inv(db) && Run(db, steps, db')
    ensures Inv(db')
    decreases |steps|
  {
    if steps != [] {
      KeepsInv(db, steps[0]);
      RunKeepsInv(Next(db, steps[0]), steps[1..], db');
    }
  }

  /** The states that a run from a fresh database reaches. */
  ghost predicate Reachable(db: Db)
  {
    exists limits, steps :: Run(Fresh(limits), steps, db)
  }

  lemma ReachableInv(db: Db)
    requires Reachable(db)
    ensures Inv(db)
  {
    var limits, steps :| Run(Fresh(limits), steps, db);
    FreshInv(limits);
    RunKeepsInv(Fresh(limits), steps, db);
  }

  lemma {:induction false} RunThen(db: Db, steps: seq<Step>, db': Db, s: Step)
    requires Run(db, steps, db') && Enabled(db', s)
    ensures Run(db, steps + [s], Next(db', s))
    decreases |steps|
  {
    if steps == [] {
      assert (steps + [s])[1..] == [];
    } else {
      assert (steps + [s])[1..] == steps[1..] + [s];
      RunThen(Next(db, steps[0]), steps[1..], db', s);
    }
  }

  lemma ReachableNext(db: Db, s: Step)
    requires Reachable(db) && Enabled(db, s)
    ensures Reachable(Next(db, s))
  {
    var limits, steps :| Run(Fresh(limits), steps, db);
    RunThen(Fresh(limits), steps, db, s);
  }

  lemma ReachableFresh(limits: Limits)
    ensures Reachable(Fresh(limits))
  {
    assert Run(Fresh(limits), [], Fresh(limits));
  }

  /**
   In every reachable state, a Get that returns now returns the value of the last write committed before it captured
   its sources (the part that a table file keeps), or nothing if that write was a deletion or there was none.
   */
  lemma EveryReadIsRight(db: Db, id: nat)
    requires Reachable(db) && id in db.gets
    ensures db.gets[id].snapshot <= |db.history|
    ensures Right(db.history[..db.gets[id].snapshot], db.gets[id].user, Outcome(Lookup(db.tables, db.gets[id])))
  {
    ReachableInv(db);
    InvData(db);
    assert ReadOk(db, db.gets[id]);
  }

  /** In every reachable state no version in use, by readers or by a compaction, misses a file on disk. */
  lemma NoFileDeletedInUse(db: Db, f: Sst)
    requires Reachable(db)
    requires || HasFile(db.version, f)
             || (exists i :: i in db.gets && HasFile(db.gets[i].version, f))
             || (db.compaction.Some? && HasFile(db.compaction.value.base, f))
    ensures OnDisk(db.disk, f)
  {
    ReachableInv(db);
    InvFiles(db);
  }
}
