/**
 The storage engine as a state machine: grouped writes, memtable switch, flush, compaction, trivial move, file
 deletion and reads, each split where the database mutex is released, the manifest write of LogAndApply included.
 The specification is the history of writes.
 */
module Lsm {
  import opened Bytes
  import opened Keys
  import opened Levels
  import opened Versions
  import opened Picking
  import opened Compactions

  // --- The specification: a history of writes -----------------------------------------------

  datatype Op = Op(user: UserKey, kind: Kind, value: Bytes)

  /** The index of the last write to u, or -1. */
  ghost function Last(h: seq<Op>, u: UserKey): (i: int)
    ensures -1 <= i < |h|
    ensures i >= 0 ==> h[i].user == u
    ensures forall j :: i < j < |h| ==> h[j].user != u
  {
    if h == [] then -1
    else if h[|h| - 1].user == u then |h| - 1
    else Last(h[..|h| - 1], u)
  }

  lemma LastUnique(h: seq<Op>, u: UserKey, i: int)
    requires -1 <= i < |h|
    requires i >= 0 ==> h[i].user == u
    requires forall j :: i < j < |h| ==> h[j].user != u
    ensures Last(h, u) == i
  {
  }

  /** w starts with the part of v that a table file keeps. */
  ghost predicate Agrees(w: Bytes, v: Bytes)
  {
    forall i :: 0 <= i < |v| && i < VALUE_SIZE ==> i < |w| && w[i] == v[i]
  }

  /** r is what a read of u must return after the writes h. */
  ghost predicate Right(h: seq<Op>, u: UserKey, r: Option<Bytes>)
  {
    var i := Last(h, u);
    if i >= 0 && h[i].kind.Value? then r.Some? && Agrees(r.value, h[i].value) else r.None?
  }

  // --- Entries and the history --------------------------------------------------------------

  /** MemTableInserter: the entry of the write with sequence number n. */
  function EntryOf(op: Op, n: nat): Entry
  {
    Entry(IKey(op.user, n, op.kind), if op.kind.Value? then op.value else [])
  }

  ghost predicate Matches(e: Entry, op: Op)
  {
    && e.key.user == op.user && e.key.kind == op.kind
    && (op.kind.Value? ==> Agrees(e.value, op.value))
  }

  /** Every entry is the trace of the write with its sequence number. */
  ghost predicate From(a: set<Entry>, h: seq<Op>)
  {
    forall e {:trigger e in a} :: e in a ==> 1 <= e.key.sequence <= |h| && Matches(e, h[e.key.sequence - 1])
  }

  lemma FromOne(a: set<Entry>, h: seq<Op>, e: Entry)
    requires From(a, h) && e in a
    ensures 1 <= e.key.sequence <= |h|
    ensures h[e.key.sequence - 1].user == e.key.user && h[e.key.sequence - 1].kind == e.key.kind
  {
  }

  lemma LastOfConcat(h: seq<Op>, g: seq<Op>, u: UserKey)
    ensures Last(h + g, u) < |h| ==> Last(h + g, u) == Last(h, u)
  {
    var i := Last(h + g, u);
    if i < |h| {
      forall k | i < k < |h| ensures h[k].user != u { assert (h + g)[k] == h[k]; }
      LastUnique(h, u, i);
    }
  }

  ghost function KeysOf(a: set<Entry>): set<IKey>
  {
    set e | e in a :: e.key
  }

  ghost predicate Absent(ks: set<IKey>, u: UserKey, s: nat)
  {
    forall k {:trigger k in ks} :: k in ks ==> k.user != u || k.sequence > s
  }

  ghost predicate Present(ks: set<IKey>, u: UserKey, n: nat)
  {
    exists k :: k in ks && k.user == u && k.sequence == n
  }

  /** The last write to u is still held; a deletion may instead have left no trace of u. */
  ghost predicate Complete(h: seq<Op>, ks: set<IKey>, u: UserKey)
  {
    var i := Last(h, u);
    i >= 0 ==> Present(ks, u, i + 1) || (h[i].kind.Deletion? && Absent(ks, u, |h|))
  }

  lemma NewestIsRight(h: seq<Op>, more: seq<Op>, a: set<Entry>, u: UserKey, r: Option<Entry>)
    requires From(a, h + more) && Complete(h, KeysOf(a), u)
    requires IsNewest(a, u, |h|, r)
    ensures Right(h, u, Outcome(r))
  {
    var i := Last(h, u);
    forall e | e in a && Sees(e, u, |h|) ensures Matches(e, h[e.key.sequence - 1]) && e.key.sequence <= i + 1 {
      assert Matches(e, (h + more)[e.key.sequence - 1]);
    }
    if i >= 0 && Present(KeysOf(a), u, i + 1) {
      var k :| k in KeysOf(a) && k.user == u && k.sequence == i + 1;
      var e :| e in a && e.key == k;
      assert Sees(e, u, |h|);
    } else {
      forall e | e in a ensures !Sees(e, u, |h|) { assert e.key in KeysOf(a); }
    }
  }

  /** a is newer than b altogether. */
  ghost predicate Newer(a: set<Entry>, b: set<Entry>)
  {
    forall x, y {:trigger x in a, y in b} :: x in a && y in b ==> x.key.sequence > y.key.sequence
  }

  // --- The state ----------------------------------------------------------------------------

  /** BuildTable in progress for the immutable memtable. */
  datatype Flush = Flush(number: nat, file: Option<Sst>)

  /** DoCompactionWork in progress: entries still to be written, the number of the open output and files already finished. */
  datatype Compaction = Compaction(
    level: nat, base: Version, ins: Inputs, snapshot: nat, todo: seq<Entry>, open: Option<nat>, outputs: seq<Sst>)

  /** LogAndApply has built this version and released the mutex to write the manifest. */
  datatype Install =
    | FlushInstall(version: Version)
    | CompactionInstall(version: Version)
    | MoveInstall(level: nat, file: Sst, version: Version)

  /** A Get after it has captured its sources under the mutex. */
  datatype Read = Read(user: UserKey, snapshot: nat, mem: nat, imm: Option<nat>, version: Version)

  datatype Limits = Limits(grandparents: nat, expanded: nat)

  datatype Db = Db(
    limits: Limits,
    tables: map<nat, seq<Entry>>,  // memtables by identity
    mem: nat,
    imm: Option<nat>,
    version: Version,
    history: seq<Op>,              // committed writes; LastSequence is its length
    group: seq<Op>,                // the batch group being inserted
    inserted: nat,
    nextFile: nat,
    flush: Option<Flush>,
    compaction: Option<Compaction>,
    installing: Option<Install>,
    pending: set<nat>,             // pending_outputs_
    disk: map<nat, seq<Entry>>,
    gets: map<nat, Read>)

  ghost function MemItems(db: Db): set<Entry> { if db.mem in db.tables then Items(db.tables[db.mem]) else {} }

  ghost function ImmItems(db: Db): set<Entry>
  {
    if db.imm.Some? && db.imm.value in db.tables then Items(db.tables[db.imm.value]) else {}
  }

  ghost function FileEntries(db: Db): set<Entry> { AllItems(db.version) }

  ghost function Held(db: Db): set<Entry> { MemItems(db) + ImmItems(db) + FileEntries(db) }

  /** DBImpl::Get: memtable, immutable memtable, then the files. */
  function Lookup(tables: map<nat, seq<Entry>>, r: Read): Option<Entry>
  {
    var a := if r.mem in tables then Find(tables[r.mem], r.user, r.snapshot) else None;
    if a.Some? then a
    else
      var b := if r.imm.Some? && r.imm.value in tables then Find(tables[r.imm.value], r.user, r.snapshot) else None;
      if b.Some? then b else SearchFrom(r.version, 0, r.user, r.snapshot)
  }

  lemma LookupUnseen(tables: map<nat, seq<Entry>>, i: nat, t: seq<Entry>, r: Read)
    requires i in tables && Find(t, r.user, r.snapshot) == Find(tables[i], r.user, r.snapshot)
    ensures Lookup(tables[i := t], r) == Lookup(tables, r)
  {
  }

  // --- The invariant ------------------------------------------------------------------------

  ghost predicate TablesOk(db: Db)
  {
    && db.mem in db.tables
    && (db.imm.Some? ==> db.imm.value in db.tables && db.imm.value != db.mem)
    && (forall i :: i in db.tables ==> Sorted(db.tables[i]))
  }

  /** Layering: memtable over immutable memtable over files, and the layers of the version. */
  ghost predicate StackOk(db: Db)
  {
    && VersionOk(db.version)
    && Newer(MemItems(db), ImmItems(db))
    && Newer(MemItems(db), FileEntries(db))
    && Newer(ImmItems(db), FileEntries(db))
  }

  ghost predicate AllComplete(h: seq<Op>, ks: set<IKey>)
  {
    forall u :: Complete(h, ks, u)
  }

  /** The first n writes of the group are in the memtable. */
  ghost predicate GroupIn(h: seq<Op>, g: seq<Op>, n: nat, mem: set<Entry>)
    requires n <= |g|
  {
    forall j :: 0 <= j < n ==> EntryOf(g[j], |h| + 1 + j) in mem
  }

  ghost predicate HistoryOk(db: Db)
  {
    && db.inserted <= |db.group|
    && |db.history| + |db.group| <= MAX_SEQUENCE
    && From(MemItems(db), db.history + db.group[..db.inserted])
    && From(ImmItems(db), db.history)
    && From(FileEntries(db), db.history)
    && AllComplete(db.history, KeysOf(Held(db)))
    && GroupIn(db.history, db.group, db.inserted, MemItems(db))
  }

  ghost predicate HasFile(v: Version, f: Sst)
  {
    exists l :: 0 <= l < |v| && f in v[l]
  }

  /** BuildTable keeps the keys and the first VALUE_SIZE bytes of each value, and appends the Merkle proof. */
  ghost predicate FlushOf(t: seq<Entry>, out: seq<Entry>)
  {
    && |out| == |t|
    && forall i :: 0 <= i < |t| ==> out[i].key == t[i].key && Agrees(out[i].value, t[i].value) && |out[i].value| == VALUE_SIZE + PROOF_SIZE
  }

  ghost predicate FlushOk(db: Db)
  {
    db.flush.Some? ==>
      var fl := db.flush.value;
      && db.imm.Some? && db.imm.value in db.tables
      && fl.number < db.nextFile
      && (forall f {:trigger HasFile(db.version, f)} :: HasFile(db.version, f) ==> f.number < fl.number)
      && (fl.file.Some? ==>
            && FileOk(fl.file.value) && fl.file.value.number == fl.number
            && FlushOf(db.tables[db.imm.value], fl.file.value.body.entries))
  }

  /** The facts about the inputs of a running compaction that every other step keeps. */
  ghost predicate InputsOk(v: Version, level: nat, base: Version, ins: Inputs, snapshot: nat)
  {
    && |v| == NUM_LEVELS && level + 1 < NUM_LEVELS && VersionOk(base)
    && ins.upper != []
    && (forall f :: f in ins.upper ==> f in v[level])
    && (forall f :: f in ins.lower ==> f in v[level + 1])
    && DistinctNumbers(ins.upper) && DistinctNumbers(ins.lower)
    && Covered(Hull(ins.upper + ins.lower), ins.upper + ins.lower)
    && (forall g :: g in v[level + 1] && g !in ins.lower ==> !Meets(g, Hull(ins.upper + ins.lower)))
    && (forall x, y :: x in v[level] && x !in ins.upper && y in ins.upper ==> Over(FileItems(x), FileItems(y)))
    && (forall l, g :: level + 2 <= l < |v| && g in v[l] ==> g in base[l] || !Meets(g, Hull(ins.upper + ins.lower)))
    && (forall e {:trigger e in LevelItems(ins.upper + ins.lower)} :: e in LevelItems(ins.upper + ins.lower) ==> e.key.sequence <= snapshot)
  }

  /** The finished output files followed by what is still to be written are exactly the surviving entries. */
  ghost predicate OutputsOk(c: Compaction)
  {
    && FilesOk(c.outputs) && DistinctNumbers(c.outputs)
    && Concat(c.outputs) + c.todo == Survivors(Merged(c), None, c.snapshot, c.base, c.level)
  }

  ghost function Merged(c: Compaction): seq<Entry> { MergeAll(c.ins.upper + c.ins.lower) }

  ghost predicate CompactionOk(v: Version, c: Compaction)
  {
    InputsOk(v, c.level, c.base, c.ins, c.snapshot) && OutputsOk(c)
  }

  ghost predicate NumbersOk(db: Db)
  {
    && CrossNumbers(db.version)
    && (forall f {:trigger HasFile(db.version, f)} :: HasFile(db.version, f) ==> f.number < db.nextFile)
    && (db.compaction.Some? ==>
          forall o {:trigger o in db.compaction.value.outputs} :: o in db.compaction.value.outputs ==>
            && o.number < db.nextFile
            && (db.flush.Some? ==> o.number != db.flush.value.number)
            && (forall f {:trigger HasFile(db.version, f)} :: HasFile(db.version, f) ==> o.number != f.number))
    && (db.compaction.Some? && db.compaction.value.open.Some? ==>
          var n := db.compaction.value.open.value;
          && n < db.nextFile
          && (db.flush.Some? ==> n != db.flush.value.number)
          && (forall o {:trigger o in db.compaction.value.outputs} :: o in db.compaction.value.outputs ==> n != o.number)
          && (forall f {:trigger HasFile(db.version, f)} :: HasFile(db.version, f) ==> n != f.number))
  }

  ghost predicate OnDisk(disk: map<nat, seq<Entry>>, f: Sst)
  {
    f.number in disk && disk[f.number] == f.body.entries
  }

  ghost predicate VersionOnDisk(disk: map<nat, seq<Entry>>, v: Version)
  {
    forall f :: HasFile(v, f) ==> OnDisk(disk, f)
  }

  /** No file that a version in use, a running flush or a running compaction needs has been deleted. */
  ghost predicate DiskOk(db: Db)
  {
    && VersionOnDisk(db.disk, db.version)
    && (forall i :: i in db.gets ==> VersionOnDisk(db.disk, db.gets[i].version))
    && (db.flush.Some? && db.installing.None? ==> db.flush.value.number in db.pending)
    && (db.flush.Some? && db.flush.value.file.None? ==> db.flush.value.number !in db.disk)
    && (db.flush.Some? && db.flush.value.file.Some? ==> OnDisk(db.disk, db.flush.value.file.value))
    && (db.compaction.Some? ==> VersionOnDisk(db.disk, db.compaction.value.base))
    && (db.compaction.Some? ==> forall o {:trigger o in db.compaction.value.outputs} :: o in db.compaction.value.outputs ==>
         OnDisk(db.disk, o) && o.number in db.pending)
    && (db.compaction.Some? && db.compaction.value.open.Some? ==>
          db.compaction.value.open.value in db.pending && db.compaction.value.open.value !in db.disk)
    && (forall n :: n in db.disk ==> n < db.nextFile)
  }

  /** A captured read that finished now would return what the writes before its capture determine. */
  ghost predicate ReadOk(db: Db, r: Read)
  {
    && r.snapshot <= |db.history|
    && r.mem in db.tables && (r.imm.Some? ==> r.imm.value in db.tables)
    && Right(db.history[..r.snapshot], r.user, Outcome(Lookup(db.tables, r)))
  }

  ghost predicate ReadsOk(db: Db)
  {
    forall i :: i in db.gets ==> ReadOk(db, db.gets[i])
  }

  ghost predicate RunningOk(db: Db)
  {
    db.compaction.Some? ==> CompactionOk(db.version, db.compaction.value)
  }

  // --- Installing versions ------------------------------------------------------------------

  function Numbers(fs: seq<Sst>): set<nat>
  {
    set f | f in fs :: f.number
  }

  /** The edit of a flush; an empty memtable leaves no file. */
  ghost function FlushVersion(db: Db): Version
    requires |db.version| == NUM_LEVELS && db.flush.Some?
  {
    var fl := db.flush.value;
    if fl.file.None? then db.version
    else Replace(db.version, PickLevel(db.version, RangeOf(fl.file.value), db.limits.grandparents), {}, [fl.file.value])
  }

  /** The edit of InstallCompactionResults. */
  function Compacted(v: Version, level: nat, ins: Inputs, outputs: seq<Sst>): Version
    requires level + 1 < |v|
  {
    Replace(Replace(v, level, Numbers(ins.upper), []), level + 1, Numbers(ins.lower), outputs)
  }

  /** The edit of a trivial move. */
  function Moved(v: Version, level: nat, f: Sst): Version
    requires level + 1 < |v|
  {
    Replace(Replace(v, level, {f.number}, []), level + 1, {}, [f])
  }

  ghost predicate CanFlush(db: Db)
  {
    && db.flush.Some? && db.imm.Some? && db.imm.value in db.tables && |db.version| == NUM_LEVELS
    && (db.flush.value.file.Some? || db.tables[db.imm.value] == [])
  }

  ghost predicate CanCompact(db: Db)
  {
    && db.compaction.Some? && db.compaction.value.todo == [] && db.compaction.value.open.None? && db.flush.None?
    && db.compaction.value.level + 1 < |db.version|
  }

  ghost predicate CanMove(db: Db, level: nat, f: Sst)
  {
    && db.flush.None? && db.compaction.None? && level + 1 < NUM_LEVELS == |db.version| && f in db.version[level]
    && PickInputs(db.version, level, f, db.limits.expanded) == Inputs([f], [])
  }

  /** The version about to be appended is still the edit of the current one. */
  ghost predicate InstallOk(db: Db)
  {
    match db.installing
    case None => true
    case Some(FlushInstall(v)) => CanFlush(db) && v == FlushVersion(db)
    case Some(CompactionInstall(v)) =>
      CanCompact(db) && v == Compacted(db.version, db.compaction.value.level, db.compaction.value.ins, db.compaction.value.outputs)
    case Some(MoveInstall(level, f, v)) => CanMove(db, level, f) && v == Moved(db.version, level, f)
  }

  /** The clauses of the invariant. */
  datatype Clause = Tables | Stack | History | Reading | Flushing | Numbering | Disk | Running | Installing

  ghost predicate Holds(db: Db, c: Clause)
  {
    match c
    case Tables => TablesOk(db)
    case Stack => StackOk(db)
    case History => HistoryOk(db)
    case Reading => ReadsOk(db)
    case Flushing => FlushOk(db)
    case Numbering => NumbersOk(db)
    case Disk => DiskOk(db)
    case Running => RunningOk(db)
    case Installing => InstallOk(db)
  }

  ghost predicate Inv(db: Db)
  {
    forall c :: Holds(db, c)
  }

  /** The clauses about entries and history. */
  lemma InvData(db: Db)
    requires Inv(db)
    ensures TablesOk(db) && StackOk(db) && HistoryOk(db) && ReadsOk(db)
  {
    assert Holds(db, Tables) && Holds(db, Stack) && Holds(db, History) && Holds(db, Reading);
  }

  /** The clauses about files and what the background thread is doing. */
  lemma InvFiles(db: Db)
    requires Inv(db)
    ensures FlushOk(db) && NumbersOk(db) && DiskOk(db) && RunningOk(db) && InstallOk(db)
  {
    assert Holds(db, Flushing) && Holds(db, Numbering) && Holds(db, Disk) && Holds(db, Running) && Holds(db, Installing);
  }

  lemma InvFrom(db: Db)
    requires TablesOk(db) && StackOk(db) && HistoryOk(db) && ReadsOk(db)
    requires FlushOk(db) && NumbersOk(db) && DiskOk(db) && RunningOk(db) && InstallOk(db)
    ensures Inv(db)
  {
  }

  // --- Reading the current state ------------------------------------------------------------

  lemma NewerOver(a: set<Entry>, b: set<Entry>)
    requires Newer(a, b)
    ensures Over(a, b)
  {
  }

  function CurrentRead(db: Db, u: UserKey): Read
  {
    Read(u, |db.history|, db.mem, db.imm, db.version)
  }

  lemma LookupNewest(db: Db, u: UserKey)
    requires TablesOk(db) && StackOk(db)
    ensures IsNewest(Held(db), u, |db.history|, Lookup(db.tables, CurrentRead(db, u)))
  {
    var s := |db.history|;
    var a := Find(db.tables[db.mem], u, s);
    FindIsNewest(db.tables[db.mem], u, s);
    var b := if db.imm.Some? then Find(db.tables[db.imm.value], u, s) else None;
    if db.imm.Some? { FindIsNewest(db.tables[db.imm.value], u, s); }
    assert IsNewest(ImmItems(db), u, s, b);
    var c := SearchFrom(db.version, 0, u, s);
    OkReadable(db.version);
    SearchFromNewest(db.version, 0, u, s);
    NewestOfThree(MemItems(db), ImmItems(db), FileEntries(db), u, s, a, b, c);
  }

  lemma NewestOfThree(x: set<Entry>, y: set<Entry>, z: set<Entry>, u: UserKey, s: nat, a: Option<Entry>, b: Option<Entry>, c: Option<Entry>)
    requires Newer(x, y) && Newer(x, z) && Newer(y, z)
    requires IsNewest(x, u, s, a) && IsNewest(y, u, s, b) && IsNewest(z, u, s, c)
    ensures IsNewest(x + y + z, u, s, if a.Some? then a else if b.Some? then b else c)
  {
    NewerOver(y, z);
    NewestOfLayers(y, z, u, s, b, c);
    NewerOver(x, y + z);
    NewestOfLayers(x, y + z, u, s, a, if b.Some? then b else c);
    assert x + y + z == x + (y + z);
  }

  /** In every good state a read returns the last write, however the entries are spread over memtables and levels. */
  lemma CurrentReadRight(db: Db, u: UserKey)
    requires TablesOk(db) && StackOk(db) && HistoryOk(db)
    ensures ReadOk(db, CurrentRead(db, u))
  {
    LookupNewest(db, u);
    FromHeld(db);
    assert Complete(db.history, KeysOf(Held(db)), u);
    NewestIsRight(db.history, db.group[..db.inserted], Held(db), u, Lookup(db.tables, CurrentRead(db, u)));
    assert db.history[..|db.history|] == db.history;
  }

  lemma FromHeld(db: Db)
    requires HistoryOk(db)
    ensures From(Held(db), db.history + db.group[..db.inserted])
  {
  }
}
