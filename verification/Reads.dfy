/**
 A Get does not read its sources at one instant: it looks into the memtable, the immutable memtable and the files of each
 level one after the other, while writers and the background thread go on.
 */
module Reads {
  import opened Bytes
  import opened Keys
  import opened Levels
  import opened Versions
  import opened Compactions
  import opened Lsm
  import opened LsmSteps

  function FromMem(tables: map<nat, seq<Entry>>, r: Read): Option<Entry>
  {
    if r.mem in tables then Find(tables[r.mem], r.user, r.snapshot) else None
  }

  function FromImm(tables: map<nat, seq<Entry>>, r: Read): Option<Entry>
  {
    if r.imm.Some? && r.imm.value in tables then Find(tables[r.imm.value], r.user, r.snapshot) else None
  }

  /** The file as it is on disk. */
  function Load(disk: map<nat, seq<Entry>>, f: Sst): Sst
  {
    f.(body := f.body.(entries := if f.number in disk then disk[f.number] else []))
  }

  function LoadLevel(disk: map<nat, seq<Entry>>, fs: seq<Sst>): (r: seq<Sst>)
    ensures |r| == |fs| && forall i :: 0 <= i < |fs| ==> r[i] == Load(disk, fs[i])
  {
    seq(|fs|, i requires 0 <= i < |fs| => Load(disk, fs[i]))
  }

  /** Version::Get from level l down, where level k is read from the disk as it is at the k-th moment. */
  function SearchDisks(ys: seq<Db>, v: Version, l: nat, u: UserKey, s: nat): Option<Entry>
    requires |ys| == |v|
    decreases |v| - l
  {
    if l >= |v| then None
    else
      var r := SearchLevel(v[l := LoadLevel(ys[l].disk, v[l])], l, u, s);
      if r.Some? then r else SearchDisks(ys, v, l + 1, u, s)
  }

  /** DBImpl::Get, at one moment for each memtable and one for each level. */
  function Collected(ys: seq<Db>, r: Read): Option<Entry>
    requires |ys| == 2 + |r.version|
  {
    var a := FromMem(ys[0].tables, r);
    if a.Some? then a
    else
      var b := FromImm(ys[1].tables, r);
      if b.Some? then b else SearchDisks(ys[2..], r.version, 0, r.user, r.snapshot)
  }

  /** From db the engine reaches db' in any number of steps, and the read has not returned. */
  ghost predicate Meanwhile(id: nat, db: Db, db': Db)
  {
    exists steps :: Run(db, steps, db') && EndRead(id) !in steps
  }

  ghost predicate Moments(id: nat, ys: seq<Db>)
  {
    && ys != [] && Reachable(ys[0]) && id in ys[0].gets
    && forall i, j {:trigger Meanwhile(id, ys[i], ys[j])} :: 0 <= i && j == i + 1 && j < |ys| ==> Meanwhile(id, ys[i], ys[j])
  }

  // --- What a step leaves to a read -----------------------------------------------------------

  /** The read finds in db' what it finds in db. */
  ghost predicate Undisturbed(id: nat, db: Db, db': Db)
  {
    && id in db.gets && id in db'.gets && db'.gets[id] == db.gets[id] && db.history <= db'.history
    && FromMem(db'.tables, db.gets[id]) == FromMem(db.tables, db.gets[id])
    && FromImm(db'.tables, db.gets[id]) == FromImm(db.tables, db.gets[id])
  }

  lemma InsertKeepsFinds(tables: map<nat, seq<Entry>>, i: nat, e: Entry, r: Read)
    requires i in tables && Sorted(tables[i]) && Sorted(Insert(tables[i], e)) && e.key.sequence > r.snapshot
    ensures FromMem(tables[i := Insert(tables[i], e)], r) == FromMem(tables, r)
    ensures FromImm(tables[i := Insert(tables[i], e)], r) == FromImm(tables, r)
  {
    InsertUnseen(tables[i], e, r.user, r.snapshot);
  }

  lemma InsertUndisturbed(db: Db, id: nat)
    requires TablesOk(db) && HistoryOk(db) && ReadsOk(db) && db.inserted < |db.group| && id in db.gets
    ensures Undisturbed(id, db, InsertedOne(db))
  {
    InsertOneItems(db);
    assert ReadOk(db, db.gets[id]);
    InsertKeepsFinds(db.tables, db.mem, NextEntry(db), db.gets[id]);
  }

  lemma OtherUndisturbed(db: Db, s: Step, id: nat)
    requires Enabled(db, s) && id in db.gets && s != EndRead(id) && !s.InsertOne?
    requires db.gets[id].mem in db.tables && (db.gets[id].imm.Some? ==> db.gets[id].imm.value in db.tables)
    ensures Undisturbed(id, db, Next(db, s))
  {
  }

  lemma StepUndisturbed(db: Db, s: Step, id: nat)
    requires Inv(db) && Enabled(db, s) && id in db.gets && s != EndRead(id)
    ensures Undisturbed(id, db, Next(db, s))
  {
    if s.InsertOne? {
      InvData(db);
      InsertUndisturbed(db, id);
    } else {
      assert Holds(db, Reading) && ReadOk(db, db.gets[id]);
      OtherUndisturbed(db, s, id);
    }
  }

  lemma {:induction false} RunUndisturbed(db: Db, steps: seq<Step>, db': Db, id: nat)
    requires Inv(db) && Run(db, steps, db') && id in db.gets && EndRead(id) !in steps
    ensures Inv(db') && Undisturbed(id, db, db')
    decreases |steps|
  {
    if steps != [] {
      assert steps[0] in steps;
      KeepsInv(db, steps[0]);
      StepUndisturbed(db, steps[0], id);
      RunUndisturbed(Next(db, steps[0]), steps[1..], db', id);
    }
  }

  lemma {:induction false} MomentUndisturbed(id: nat, ys: seq<Db>, k: nat)
    requires Moments(id, ys) && k < |ys|
    ensures Inv(ys[k]) && Undisturbed(id, ys[0], ys[k])
  {
    if k == 0 {
      ReachableInv(ys[0]);
    } else {
      MomentUndisturbed(id, ys, k - 1);
      assert Meanwhile(id, ys[k - 1], ys[k]);
      var steps :| Run(ys[k - 1], steps, ys[k]) && EndRead(id) !in steps;
      RunUndisturbed(ys[k - 1], steps, ys[k], id);
    }
  }

  // --- The files ------------------------------------------------------------------------------

  lemma LoadsLevel(disk: map<nat, seq<Entry>>, v: Version, l: nat)
    requires VersionOnDisk(disk, v) && l < |v|
    ensures LoadLevel(disk, v[l]) == v[l]
  {
    forall i | 0 <= i < |v[l]| ensures Load(disk, v[l][i]) == v[l][i] {
      assert v[l][i] in v[l] && HasFile(v, v[l][i]);
    }
  }

  lemma {:induction false} DisksSearched(ys: seq<Db>, v: Version, l: nat, u: UserKey, s: nat)
    requires |ys| == |v| && forall k :: 0 <= k < |ys| ==> VersionOnDisk(ys[k].disk, v)
    ensures SearchDisks(ys, v, l, u, s) == SearchFrom(v, l, u, s)
    decreases |v| - l
  {
    if l < |v| {
      LoadsLevel(ys[l].disk, v, l);
      assert v[l := v[l]] == v;
      DisksSearched(ys, v, l + 1, u, s);
    }
  }

  /** The moments are those of one lookup. */
  lemma CollectedIsLookup(id: nat, ys: seq<Db>)
    requires Moments(id, ys) && |ys| == 2 + |ys[0].gets[id].version|
    ensures Collected(ys, ys[0].gets[id]) == Lookup(ys[0].tables, ys[0].gets[id])
  {
    var r := ys[0].gets[id];
    MomentUndisturbed(id, ys, 1);
    forall k | 0 <= k < |ys[2..]| ensures VersionOnDisk(ys[2..][k].disk, r.version) {
      MomentUndisturbed(id, ys, k + 2);
      InvFiles(ys[k + 2]);
      assert id in ys[k + 2].gets;
    }
    DisksSearched(ys[2..], r.version, 0, r.user, r.snapshot);
  }

  /**
   A Get that looks into the memtable, the immutable memtable and the files of every level at moments of its own, with
   anything happening in between, returns what the writes committed before it began determine.
   */
  lemma EveryReadIsRightOverTime(id: nat, ys: seq<Db>)
    requires Moments(id, ys) && |ys| == 2 + |ys[0].gets[id].version|
    ensures
      var r := ys[0].gets[id];
      r.snapshot <= |ys[0].history| && Right(ys[0].history[..r.snapshot], r.user, Outcome(Collected(ys, r)))
  {
    CollectedIsLookup(id, ys);
    EveryReadIsRight(ys[0], id);
  }
}
