/**
 DBImpl: the engine's fields and the critical sections that update them. Each method is one step of the state machine,
 computed by the loops of the source, and keeps the invariant.
 */
module Engine {
  import opened Bytes
  import opened Keys
  import opened Levels
  import opened Versions
  import opened Picking
  import opened Compactions
  import opened Lsm
  import opened LsmSteps
  import Background

  class DBImpl {
    const limits: Limits
    var tables: map<nat, seq<Entry>>
    var mem: nat
    var imm: Option<nat>
    var nextTable: nat
    var version: Version
    var lastSequence: nat
    ghost var history: seq<Op>
    var group: seq<Op>
    var inserted: nat
    var nextFile: nat
    var flush: Option<Flush>
    var compaction: Option<Compaction>
    var installing: Option<Install>
    var pending: set<nat>
    var disk: map<nat, seq<Entry>>
    var gets: map<nat, Read>

    ghost function State(): Db
      reads this
    {
      Db(limits, tables, mem, imm, version, history, group, inserted, nextFile, flush, compaction, installing, pending, disk, gets)
    }

    ghost predicate Valid()
      reads this
    {
      Reachable(State()) && lastSequence == |history| && forall i :: i in tables ==> i < nextTable
    }

    constructor (limits: Limits)
      ensures Valid() && State() == Fresh(limits)
    {
      this.limits := limits;
      tables, mem, imm, nextTable := map[0 := []], 0, None, 1;
      version := [[], [], [], [], [], [], []];
      lastSequence, history, group, inserted := 0, [], [], 0;
      nextFile, flush, compaction, installing, pending, disk, gets := 2, None, None, None, {}, map[], map[];
      new;
      ReachableFresh(limits);
    }

    // --- Writes -----------------------------------------------------------------------------

    /** InsertInto, one entry: done by the front writer without the mutex. */
    method InsertNext()
      requires Valid() && Enabled(State(), InsertOne)
      modifies this
      ensures Valid() && State() == Next(old(State()), InsertOne)
    {
      ReachableNext(State(), InsertOne);
      var e := EntryOf(group[inserted], lastSequence + 1 + inserted);
      tables := tables[mem := Insert(tables[mem], e)];
      inserted := inserted + 1;
    }

    method BeginWrite(ops: seq<Op>)
      requires Valid() && Enabled(State(), BeginGroup(ops))
      modifies this
      ensures Valid() && State() == old(State()).(group := ops, inserted := 0)
    {
      ReachableNext(State(), BeginGroup(ops));
      group, inserted := ops, 0;
    }

    /** SetLastSequence, after the whole group is in the memtable. */
    method EndWrite()
      requires Valid() && group != [] && inserted == |group|
      modifies this
      ensures Valid() && State() == old(State()).(history := old(history + group), group := [], inserted := 0)
    {
      ReachableNext(State(), Commit);
      lastSequence, history := lastSequence + |group|, history + group;
      group, inserted := [], 0;
    }

    /** Write for a group of batches: only the memtable and the history change. */
    method Write(ops: seq<Op>)
      requires Valid() && Enabled(State(), BeginGroup(ops))
      modifies this
      ensures Valid() && State() == old(State()).(tables := tables, history := old(history) + ops, group := [], inserted := 0)
    {
      BeginWrite(ops);
      while inserted < |group|
        invariant Valid() && inserted <= |group|
        invariant State() == old(State()).(tables := tables, group := ops, inserted := inserted)
      {
        ReachableTables(State());
        InsertNext();
      }
      EndWrite();
    }

    /** MakeRoomForWrite: the full memtable becomes immutable. */
    method SwitchMemtable()
      requires Valid() && group == [] && imm.None?
      modifies this
      ensures Valid() && State() == Next(old(State()), Switch(old(nextTable)))
    {
      ReachableNext(State(), Switch(nextTable));
      NewMemTable();
    }

    method NewMemTable()
      modifies `tables, `nextTable, `imm, `mem
      ensures tables == old(tables)[old(nextTable) := []] && nextTable == old(nextTable) + 1
      ensures imm == Some(old(mem)) && mem == old(nextTable)
    {
      imm, mem := Some(mem), nextTable;
      tables, nextTable := tables[nextTable := []], nextTable + 1;
    }

    /** The next file number, protected from DeleteObsoleteFiles. */
    method NewPendingFile() returns (n: nat)
      modifies `nextFile, `pending
      ensures n == old(nextFile) && nextFile == n + 1 && pending == old(pending) + {n}
    {
      n := nextFile;
      nextFile, pending := n + 1, pending + {n};
    }

    // --- Flush ------------------------------------------------------------------------------

    method BeginFlush()
      requires Valid() && Enabled(State(), StartFlush)
      modifies this
      ensures Valid() && State() == Next(old(State()), StartFlush)
    {
      ReachableNext(State(), StartFlush);
      var n := NewPendingFile();
      flush := Some(Flush(n, None));
    }

    /** BuildTable: the VALUE_SIZE bytes at each value's address, then its proof. */
    method BuildTable(size: nat, proofs: seq<Bytes>, junk: seq<Bytes>)
      requires Valid() && flush.Some? && flush.value.file.None? && imm.Some? && imm.value in tables && tables[imm.value] != []
      requires installing.None?
      requires |proofs| == |junk| == |tables[imm.value]|
      requires forall i :: 0 <= i < |proofs| ==> |proofs[i]| == PROOF_SIZE && |junk[i]| == VALUE_SIZE
      modifies this
      ensures Valid() && flush.Some? && flush.value.file.Some?
      ensures Enabled(old(State()), BuildFlush(flush.value.file.value.body))
      ensures State() == Next(old(State()), BuildFlush(flush.value.file.value.body))
    {
      var t := tables[imm.value];
      var out: seq<Entry> := [];
      for i := 0 to |t|
        invariant FlushOf(t[..i], out)
      {
        var value := Window(t[i].value, junk[i]) + proofs[i];
        out := out + [Entry(t[i].key, value)];
      }
      assert t[..|t|] == t;
      var table := Table(size, out);
      ReachableNext(State(), BuildFlush(table));
      var n := flush.value.number;
      flush, disk := Some(Flush(n, Some(File(n, out[0].key, table)))), disk[n := out];
    }

    method FlushLevel(f: Sst) returns (level: nat)
      requires Valid() && |version| == NUM_LEVELS
      ensures level == PickLevel(version, RangeOf(f), limits.grandparents)
    {
      ReachableVersion(State());
      OkReadable(version);
      level := PickLevelForMemTableOutput(version, Min(f), Max(f), limits.grandparents);
    }

    method WithFlushedFile() returns (v: Version)
      requires Valid() && flush.Some? && |version| == NUM_LEVELS
      ensures v == FlushVersion(State())
    {
      v := version;
      if flush.value.file.Some? {
        var f := flush.value.file.value;
        var level := FlushLevel(f);
        ReachableOrder(State());
        var files := SaveTo(version[level], PutAll([], [f]), {});
        v := version[level := files];
      }
    }

    /** CompactMemTable after BuildTable: choose a level in the current version; LogAndApply builds the next version. */
    method PrepareMemtable()
      requires Valid() && Enabled(State(), PrepareFlush)
      modifies this
      ensures Valid() && State() == Next(old(State()), PrepareFlush)
    {
      ReachableNext(State(), PrepareFlush);
      var v := WithFlushedFile();
      BeginInstall(FlushInstall(v), {flush.value.number});
    }

    /** LogAndApply releases the mutex. */
    method BeginInstall(i: Install, finished: set<nat>)
      modifies `pending, `installing
      ensures pending == old(pending) - finished && installing == Some(i)
    {
      pending, installing := pending - finished, Some(i);
    }

    /** LogAndApply appends the version; the memtable is forgotten. */
    method InstallMemtable()
      requires Valid() && Enabled(State(), InstallFlush)
      modifies this
      ensures Valid() && State() == Next(old(State()), InstallFlush)
    {
      ReachableNext(State(), InstallFlush);
      AppendVersion();
      ForgetMemtable();
    }

    method ForgetMemtable()
      modifies `imm, `flush
      ensures imm == None && flush == None
    {
      imm, flush := None, None;
    }

    method AppendVersion()
      requires installing.Some?
      modifies `version, `installing
      ensures version == old(installing).value.version && installing == None
    {
      version, installing := installing.value.version, None;
    }

    // --- Compaction -------------------------------------------------------------------------

    /** PickCompaction for a chosen file; the entries to write are computed by the compaction loop. */
    method PickCompaction(level: nat, f: Sst)
      requires Valid() && Enabled(State(), Pick(level, f))
      modifies this
      ensures Valid() && State() == Next(old(State()), Pick(level, f))
    {
      ReachableNext(State(), Pick(level, f));
      ReachableVersion(State());
      OkReadable(version);
      SeedUpper(version, level, f);
      var upper := [f];
      if level == 0 { upper := GetOverlappingInputs(version[0], 0, Some(Min(f)), Some(Max(f))); }
      var ins := Background.SetupOtherInputs(version, level, upper, limits.expanded);
      var input := MergeAll(ins.upper + ins.lower);
      PickedSorted(version, level, f, limits.expanded);
      var todo := Background.SurvivingEntries(input, lastSequence, version, level);
      compaction := Some(Compaction(level, version, ins, lastSequence, todo, None, []));
    }

    method OpenCompactionOutputFile()
      requires Valid() && Enabled(State(), OpenOutput)
      modifies this
      ensures Valid() && State() == Next(old(State()), OpenOutput)
    {
      ReachableNext(State(), OpenOutput);
      var n := NewPendingFile();
      compaction := Some(compaction.value.(open := Some(n)));
    }

    /** The open output file is finished. */
    method FinishCompactionOutputFile(count: nat, size: nat)
      requires Valid() && Enabled(State(), Emit(count, size))
      modifies this
      ensures Valid() && State() == Next(old(State()), Emit(count, size))
    {
      ReachableNext(State(), Emit(count, size));
      var c := compaction.value;
      var t := c.todo[..count];
      var o := File(c.open.value, t[0].key, Table(size, t));
      compaction := Some(c.(todo := c.todo[count..], open := None, outputs := c.outputs + [o]));
      disk := disk[c.open.value := t];
    }

    /** LogAndApply for an edit that deletes files of two levels and adds files to the lower one. */
    method Edited(v: Version, level: nat, upper: set<nat>, lower: set<nat>, added: seq<Sst>) returns (r: Version)
      requires level + 1 < |v| && InOrder(v[level]) && InOrder(v[level + 1])
      ensures r == Replace(Replace(v, level, upper, []), level + 1, lower, added)
    {
      var a := SaveTo(v[level], [], upper);
      var b := SaveTo(v[level + 1], PutAll([], added), lower);
      r := v[level := a][level + 1 := b];
    }

    method InstallCompactionResults()
      requires Valid() && Enabled(State(), PrepareCompaction)
      modifies this
      ensures Valid() && State() == Next(old(State()), PrepareCompaction)
    {
      ReachableNext(State(), PrepareCompaction);
      ReachableOrder(State());
      var c := compaction.value;
      var v := Edited(version, c.level, Numbers(c.ins.upper), Numbers(c.ins.lower), c.outputs);
      installing := Some(CompactionInstall(v));
    }

    /** LogAndApply appends the version; CleanupCompaction. */
    method CleanupCompaction()
      requires Valid() && Enabled(State(), InstallCompaction)
      modifies this
      ensures Valid() && State() == Next(old(State()), InstallCompaction)
    {
      ReachableNext(State(), InstallCompaction);
      AppendVersion();
      ForgetCompaction();
    }

    method ForgetCompaction()
      requires compaction.Some?
      modifies `pending, `compaction
      ensures pending == old(pending) - Numbers(old(compaction).value.outputs) && compaction == None
    {
      pending, compaction := pending - Numbers(compaction.value.outputs), None;
    }

    /** The trivial move of BackgroundCompaction. */
    method MoveFile(level: nat, f: Sst)
      requires Valid() && Enabled(State(), PrepareMove(level, f))
      modifies this
      ensures Valid() && State() == Next(old(State()), PrepareMove(level, f))
    {
      ReachableNext(State(), PrepareMove(level, f));
      ReachableOrder(State());
      var v := Edited(version, level, {f.number}, {}, [f]);
      installing := Some(MoveInstall(level, f, v));
    }

    method FinishMove()
      requires Valid() && Enabled(State(), InstallMove)
      modifies this
      ensures Valid() && State() == Next(old(State()), InstallMove)
    {
      ReachableNext(State(), InstallMove);
      AppendVersion();
    }

    // --- Reads ------------------------------------------------------------------------------

    method BeginGet(id: nat, u: UserKey)
      requires Valid() && id !in gets
      modifies this
      ensures Valid() && State() == Next(old(State()), StartRead(id, u))
    {
      ReachableNext(State(), StartRead(id, u));
      gets := gets[id := Read(u, lastSequence, mem, imm, version)];
    }

    /** The unlocked part of Get and its return. */
    method EndGet(id: nat) returns (r: Option<Bytes>)
      requires Valid() && id in gets
      modifies this
      ensures Valid() && State() == Next(old(State()), EndRead(id))
      ensures old(gets)[id].snapshot <= |history|
      ensures Right(history[..old(gets)[id].snapshot], old(gets)[id].user, r)
    {
      ReachableNext(State(), EndRead(id));
      EveryReadIsRight(State(), id);
      r := Outcome(Lookup(tables, gets[id]));
      gets := gets - {id};
    }
  }

  /** Versions in use are well formed; sequence numbers stay below kMaxSequenceNumber, which makes the overlap test exact. */
  lemma ReachableVersion(db: Db)
    requires Reachable(db)
    ensures VersionOk(db.version)
    ensures forall l, f :: 0 <= l < |db.version| && f in db.version[l] ==> Largest(f).sequence <= MAX_SEQUENCE
  {
    ReachableInv(db);
    InvData(db);
    SequencesBounded(db);
  }

  lemma ReachableOrder(db: Db)
    requires Reachable(db)
    ensures |db.version| == NUM_LEVELS && forall l :: 0 <= l < NUM_LEVELS ==> InOrder(db.version[l])
  {
    ReachableInv(db);
    InvData(db);
  }

  lemma ReachableTables(db: Db)
    requires Reachable(db)
    ensures db.mem in db.tables && db.inserted <= |db.group|
  {
    ReachableInv(db);
    InvData(db);
  }

  lemma SequencesBounded(db: Db)
    requires StackOk(db) && HistoryOk(db)
    ensures forall l, f :: 0 <= l < |db.version| && f in db.version[l] ==> Largest(f).sequence <= MAX_SEQUENCE
  {
    forall l, f | 0 <= l < |db.version| && f in db.version[l] ensures Largest(f).sequence <= MAX_SEQUENCE {
      FileInAll(db.version, l, f);
      var t := f.body.entries;
      assert FileOk(f) && t[|t| - 1] in FileItems(f);
    }
  }

  lemma SeedUpper(v: Version, level: nat, f: Sst)
    requires VersionOk(v) && level + 1 < NUM_LEVELS && f in v[level]
    ensures level == 0 ==> Overlapping(v[0], 0, RangeOf(f)) != []
  {
    SeedGood(v, level, f);
  }

  lemma PickedSorted(v: Version, level: nat, f: Sst, limit: nat)
    requires VersionOk(v) && level + 1 < NUM_LEVELS && f in v[level]
    ensures Sorted(MergeAll(PickInputs(v, level, f, limit).upper + PickInputs(v, level, f, limit).lower))
  {
    var ins := PickInputs(v, level, f, limit);
    PickInputsGood(v, level, f, limit);
    InputsNoTies(v, level, ins);
    MergeAllSorted(ins.upper + ins.lower);
  }
}
