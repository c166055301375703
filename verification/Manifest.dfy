/**
 The manifest: LogAndApply appends an edit to a log and installs it; Recover reads the log back and replays it.
 */
module Manifest {
  import opened Bytes
  import opened Keys
  import opened Levels
  import opened Replay
  import EditCodec
  import opened Log
  import opened LogReader
  import opened LogPrefix

  type Edit = EditCodec.Edit
  type Meta = EditCodec.Meta

  // --- Edits, level by level ----------------------------------------------------------------

  /** A file of a level; key reads the internal key that the record stores as bytes. */
  function FileOf(key: Bytes -> IKey, m: Meta): File<Meta>
  {
    File(m.number, key(m.smallest), m)
  }

  function AddedAt(key: Bytes -> IKey, ns: seq<(nat, Meta)>, level: nat): seq<File<Meta>>
  {
    if ns == [] then []
    else
      var rest := AddedAt(key, ns[..|ns| - 1], level);
      var (l, m) := ns[|ns| - 1];
      if l == level then rest + [FileOf(key, m)] else rest
  }

  function DeletedAt(ds: set<(nat, nat)>, level: nat): set<nat>
  {
    set d | d in ds && d.0 == level :: d.1
  }

  function AtLevel(key: Bytes -> IKey, e: Edit, level: nat): LevelEdit<Meta>
  {
    LevelEdit(DeletedAt(e.deleted, level), AddedAt(key, e.newFiles, level))
  }

  function LevelEdits(key: Bytes -> IKey, edits: seq<Edit>, level: nat): (r: seq<LevelEdit<Meta>>)
    ensures |r| == |edits| && forall i :: 0 <= i < |r| ==> r[i] == AtLevel(key, edits[i], level)
  {
    seq(|edits|, i requires 0 <= i < |edits| => AtLevel(key, edits[i], level))
  }

  // --- Builder ------------------------------------------------------------------------------

  lemma {:induction false} PutAllSnoc<B(!new)>(fs: seq<File<B>>, added: seq<File<B>>, f: File<B>)
    ensures Levels.PutAll(fs, added + [f]) == Put(Levels.PutAll(fs, added), f)
    decreases |added|
  {
    if added == [] {
      assert added + [f] == [f] && [f][1..] == [];
    } else {
      assert (added + [f])[1..] == added[1..] + [f];
      PutAllSnoc(Put(fs, added[0]), added[1..], f);
    }
  }

  lemma NumbersSnoc<B(!new)>(fs: seq<File<B>>, f: File<B>)
    ensures Numbers(fs + [f]) == Numbers(fs) + {f.number}
  {
  }

  /** Deleting one file. */
  function Drop(s: LevelState<Meta>, number: nat): LevelState<Meta>
  {
    s.(deleted := s.deleted + {number})
  }

  /** Adding one file. */
  function Take(s: LevelState<Meta>, f: File<Meta>): LevelState<Meta>
  {
    LevelState(Put(s.added, f), s.deleted - {f.number})
  }

  /** Builder::Apply: first the deletions, in any order, then the additions, each in its level. */
  method BuilderApply(key: Bytes -> IKey, states: seq<LevelState<Meta>>, e: Edit) returns (r: seq<LevelState<Meta>>)
    requires |states| == NUM_LEVELS && LevelsOk(e)
    ensures |r| == NUM_LEVELS && forall l :: 0 <= l < NUM_LEVELS ==> r[l] == Apply(states[l], AtLevel(key, e, l))
  {
    r := states;
    var left := e.deleted;
    while left != {}
      invariant |r| == NUM_LEVELS && left <= e.deleted
      invariant forall l :: 0 <= l < NUM_LEVELS ==>
        r[l] == states[l].(deleted := states[l].deleted + DeletedAt(e.deleted - left, l))
      decreases |left|
    {
      var d :| d in left;
      DeletedStep(e.deleted, left, d);
      r := r[d.0 := Drop(r[d.0], d.1)];
      left := left - {d};
    }
    assert e.deleted - left == e.deleted;
    ghost var mid := r;
    for i := 0 to |e.newFiles|
      invariant |r| == NUM_LEVELS
      invariant forall l :: 0 <= l < NUM_LEVELS ==>
        var added := AddedAt(key, e.newFiles[..i], l);
        r[l] == LevelState(Levels.PutAll(states[l].added, added), mid[l].deleted - Numbers(added))
    {
      var (level, m) := e.newFiles[i];
      AddedSnoc(key, e.newFiles, i, states, mid, r);
      r := r[level := Take(r[level], FileOf(key, m))];
    }
    assert e.newFiles[..|e.newFiles|] == e.newFiles;
  }

  lemma DeletedStep(all: set<(nat, nat)>, left: set<(nat, nat)>, d: (nat, nat))
    requires d in left && left <= all
    ensures forall l: nat :: DeletedAt(all - (left - {d}), l) == DeletedAt(all - left, l) + DeletedAt({d}, l)
  {
  }

  lemma AddedSnoc(key: Bytes -> IKey, ns: seq<(nat, Meta)>, i: nat, states: seq<LevelState<Meta>>, mid: seq<LevelState<Meta>>,
                  r: seq<LevelState<Meta>>)
    requires i < |ns| && ns[i].0 < NUM_LEVELS && |states| == |mid| == |r| == NUM_LEVELS
    requires forall l :: 0 <= l < NUM_LEVELS ==>
      var added := AddedAt(key, ns[..i], l);
      r[l] == LevelState(Levels.PutAll(states[l].added, added), mid[l].deleted - Numbers(added))
    ensures forall l :: 0 <= l < NUM_LEVELS ==>
      var added := AddedAt(key, ns[..i + 1], l);
      var s := if l == ns[i].0 then Take(r[l], FileOf(key, ns[i].1)) else r[l];
      s == LevelState(Levels.PutAll(states[l].added, added), mid[l].deleted - Numbers(added))
  {
    assert ns[..i + 1][..i] == ns[..i];
    forall l | 0 <= l < NUM_LEVELS
      ensures
        var added := AddedAt(key, ns[..i + 1], l);
        var s := if l == ns[i].0 then Take(r[l], FileOf(key, ns[i].1)) else r[l];
        s == LevelState(Levels.PutAll(states[l].added, added), mid[l].deleted - Numbers(added))
    {
      var f := FileOf(key, ns[i].1);
      PutAllSnoc(states[l].added, AddedAt(key, ns[..i], l), f);
      NumbersSnoc(AddedAt(key, ns[..i], l), f);
    }
  }

  /** Builder::SaveTo over all levels. */
  method SaveVersion(base: seq<seq<File<Meta>>>, states: seq<LevelState<Meta>>) returns (v: seq<seq<File<Meta>>>)
    requires |base| == |states| == NUM_LEVELS && forall l :: 0 <= l < NUM_LEVELS ==> InOrder(base[l])
    ensures |v| == NUM_LEVELS && forall l :: 0 <= l < NUM_LEVELS ==> v[l] == Save(base[l], states[l])
  {
    v := [];
    for level := 0 to NUM_LEVELS
      invariant |v| == level && forall l :: 0 <= l < level ==> v[l] == Save(base[l], states[l])
    {
      var files := SaveTo(base[level], states[level].added, states[level].deleted);
      v := v + [files];
    }
  }

  // --- Recovery -----------------------------------------------------------------------------

  /** The edits that the records of a manifest decode to; None when one is corrupt. */
  function EditsOf(records: seq<Bytes>): (r: Option<seq<Edit>>)
    ensures r.Some? ==> |r.value| == |records|
  {
    if records == [] then Some([])
    else
      var before := EditsOf(records[..|records| - 1]);
      var last := EditCodec.Decoded(EditCodec.BLANK, records[|records| - 1]);
      if before.None? || last.None? then None else Some(before.value + [last.value])
  }

  /** The counters of a version set, as edits carry them. */
  datatype Counters = Counters(logNumber: Option<nat>, prevLogNumber: Option<nat>, nextFile: Option<nat>, lastSequence: Option<nat>)

  function Newer(a: Option<nat>, b: Option<nat>): Option<nat> { if b.Some? then b else a }

  function Counted(c: Counters, e: Edit): Counters
  {
    Counters(Newer(c.logNumber, e.logNumber), Newer(c.prevLogNumber, e.prevLogNumber),
             Newer(c.nextFile, e.nextFile), Newer(c.lastSequence, e.lastSequence))
  }

  function CountersOf(edits: seq<Edit>): Counters
  {
    if edits == [] then Counters(None, None, None, None) else Counted(CountersOf(edits[..|edits| - 1]), edits[|edits| - 1])
  }

  /** The edit names the comparator in use, or none. */
  predicate SameComparator(name: Bytes, e: Edit)
  {
    e.comparator.None? || e.comparator.value == name
  }

  /** DecodeFrom only gives levels below 7. */
  ghost predicate LevelsOk(e: Edit)
  {
    && (forall d :: d in e.deleted ==> d.0 < NUM_LEVELS)
    && (forall i :: 0 <= i < |e.newFiles| ==> e.newFiles[i].0 < NUM_LEVELS)
  }

  lemma {:induction false} GotLevels(s: Bytes)
    ensures EditCodec.GetAll(s).Some? ==> forall f :: f in EditCodec.GetAll(s).value ==> FieldLevelOk(f)
    decreases |s|
  {
    if s != [] && EditCodec.Get(s).Some? { GotLevels(EditCodec.Get(s).value.rest); }
  }

  predicate FieldLevelOk(f: EditCodec.Field)
  {
    (f.DeletedFile? ==> f.level < NUM_LEVELS) && (f.NewFile? ==> f.level < NUM_LEVELS)
  }

  lemma {:induction false} AddedLevels(e: Edit, fs: seq<EditCodec.Field>)
    requires LevelsOk(e) && forall f :: f in fs ==> FieldLevelOk(f)
    ensures LevelsOk(EditCodec.AddAll(e, fs))
    decreases |fs|
  {
    if fs != [] {
      assert fs[0] in fs;
      AddedLevels(EditCodec.Add(e, fs[0]), fs[1..]);
    }
  }

  lemma DecodedLevels(src: Bytes)
    ensures
      var e := EditCodec.Decoded(EditCodec.BLANK, src);
      e.Some? ==> LevelsOk(e.value)
  {
    GotLevels(src);
    var fs := EditCodec.GetAll(src);
    if fs.Some? { AddedLevels(EditCodec.Cleared(EditCodec.BLANK), fs.value); }
  }

  datatype Recovery = Recovery(version: seq<seq<File<Meta>>>, counters: Counters)

  function ReplayedVersion(key: Bytes -> IKey, edits: seq<Edit>): (v: seq<seq<File<Meta>>>)
    ensures |v| == NUM_LEVELS && forall l :: 0 <= l < NUM_LEVELS ==> v[l] == Replayed([], LevelEdits(key, edits, l))
  {
    seq(NUM_LEVELS, l requires 0 <= l < NUM_LEVELS => Replayed([], LevelEdits(key, edits, l)))
  }

  function InstalledVersion(key: Bytes -> IKey, edits: seq<Edit>): (v: seq<seq<File<Meta>>>)
    ensures |v| == NUM_LEVELS && forall l :: 0 <= l < NUM_LEVELS ==> v[l] == Installed([], LevelEdits(key, edits, l))
  {
    seq(NUM_LEVELS, l requires 0 <= l < NUM_LEVELS => Installed([], LevelEdits(key, edits, l)))
  }

  /** What Recover makes of the records of a manifest; None stands for an error status. */
  function Recovered(key: Bytes -> IKey, name: Bytes, c: Contents): Option<Recovery>
  {
    var edits := EditsOf(c.records);
    if c.dropped != [] || edits.None? || !(forall i :: 0 <= i < |edits.value| ==> SameComparator(name, edits.value[i])) then None
    else
      var n := CountersOf(edits.value);
      if n.nextFile.None? || n.logNumber.None? || n.lastSequence.None? then None
      else Some(Recovery(ReplayedVersion(key, edits.value), n))
  }

  lemma EditsSnoc(records: seq<Bytes>, i: nat)
    requires i < |records| && EditsOf(records[..i]).Some?
    ensures
      var e := EditCodec.Decoded(EditCodec.BLANK, records[i]);
      EditsOf(records[..i + 1]) == if e.None? then None else Some(EditsOf(records[..i]).value + [e.value])
  {
    assert records[..i + 1][..i] == records[..i];
  }

  /** One corrupt record spoils the rest. */
  lemma {:induction false} EditsNone(records: seq<Bytes>, i: nat)
    requires i <= |records| && EditsOf(records[..i]).None?
    ensures EditsOf(records).None?
    decreases |records|
  {
    if i < |records| {
      assert records[..|records| - 1][..i] == records[..i];
      EditsNone(records[..|records| - 1], i);
    } else {
      assert records[..i] == records;
    }
  }

  /** The edits of more records begin with those of fewer. */
  lemma {:induction false} EditsPrefix(records: seq<Bytes>, i: nat)
    requires i <= |records| && EditsOf(records).Some?
    ensures EditsOf(records[..i]).Some? && EditsOf(records[..i]).value <= EditsOf(records).value
    decreases |records|
  {
    if i < |records| {
      assert records[..|records| - 1][..i] == records[..i];
      EditsPrefix(records[..|records| - 1], i);
    } else {
      assert records[..i] == records;
    }
  }

  lemma LevelEditsSnoc(key: Bytes -> IKey, edits: seq<Edit>, e: Edit, l: nat)
    ensures LevelEdits(key, edits + [e], l) == LevelEdits(key, edits, l) + [AtLevel(key, e, l)]
    ensures LevelEdits(key, edits + [e], l)[..|edits|] == LevelEdits(key, edits, l)
  {
  }

  /** The builder's states after some edits. */
  ghost predicate StatesOk(key: Bytes -> IKey, edits: seq<Edit>, states: seq<LevelState<Meta>>)
  {
    |states| == NUM_LEVELS && forall l :: 0 <= l < NUM_LEVELS ==> states[l] == ApplyAll(LevelState([], {}), LevelEdits(key, edits, l))
  }

  lemma StatesStep(key: Bytes -> IKey, edits: seq<Edit>, e: Edit, states: seq<LevelState<Meta>>, more: seq<LevelState<Meta>>)
    requires StatesOk(key, edits, states) && |more| == NUM_LEVELS
    requires forall l :: 0 <= l < NUM_LEVELS ==> more[l] == Apply(states[l], AtLevel(key, e, l))
    ensures StatesOk(key, edits + [e], more)
  {
    forall l | 0 <= l < NUM_LEVELS ensures more[l] == ApplyAll(LevelState([], {}), LevelEdits(key, edits + [e], l)) {
      LevelEditsSnoc(key, edits, e, l);
    }
  }

  /** The loop of Recover over the records. */
  method ReplayRecords(key: Bytes -> IKey, name: Bytes, records: seq<Bytes>)
    returns (ok: bool, states: seq<LevelState<Meta>>, counters: Counters)
    ensures
      var edits := EditsOf(records);
      ok <==> edits.Some? && forall i :: 0 <= i < |edits.value| ==> SameComparator(name, edits.value[i])
    ensures ok ==> StatesOk(key, EditsOf(records).value, states) && counters == CountersOf(EditsOf(records).value)
  {
    states := seq(NUM_LEVELS, _ => LevelState([], {}));
    counters := Counters(None, None, None, None);
    ghost var edits: seq<Edit> := [];
    for i := 0 to |records|
      invariant EditsOf(records[..i]) == Some(edits)
      invariant forall j :: 0 <= j < i ==> SameComparator(name, edits[j])
      invariant StatesOk(key, edits, states) && counters == CountersOf(edits)
    {
      var e := EditCodec.DecodeFrom(EditCodec.BLANK, records[i]);
      EditsSnoc(records, i);
      if e.None? {
        EditsNone(records, i + 1);
        return false, states, counters;
      }
      DecodedLevels(records[i]);
      if e.value.comparator.Some? && e.value.comparator.value != name {
        if EditsOf(records).Some? {
          EditsPrefix(records, i + 1);
          assert EditsOf(records).value[i] == e.value;
        }
        return false, states, counters;
      }
      var more := BuilderApply(key, states, e.value);
      StatesStep(key, edits, e.value, states, more);
      states := more;
      counters := Counted(counters, e.value);
      assert (edits + [e.value])[..|edits|] == edits;
      edits := edits + [e.value];
    }
    assert records[..|records|] == records;
    ok := true;
  }

  /** VersionSet::Recover on the bytes of a manifest, into a version set whose current version is empty. */
  method Recover(key: Bytes -> IKey, name: Bytes, step: CrcStep, file: Bytes) returns (r: Option<Recovery>)
    ensures r == Recovered(key, name, ReadLog(step, true, file))
  {
    var c := ReadFile(step, true, file);
    var ok, states, counters := ReplayRecords(key, name, c.records);
    if c.dropped != [] || !ok {
      return None;
    }
    if counters.nextFile.None? || counters.logNumber.None? || counters.lastSequence.None? {
      return None;
    }
    var v := SaveVersion(seq(NUM_LEVELS, _ => []), states);
    ghost var edits := EditsOf(c.records).value;
    assert v == ReplayedVersion(key, edits);
    r := Some(Recovery(v, counters));
  }

  // --- A crash at any byte ------------------------------------------------------------------

  /** LogAndApply gives every edit all four counters. */
  ghost predicate Stamped(e: Edit)
  {
    e.logNumber.Some? && e.prevLogNumber.Some? && e.nextFile.Some? && e.lastSequence.Some?
  }

  function CountersIn(e: Edit): Counters
  {
    Counters(e.logNumber, e.prevLogNumber, e.nextFile, e.lastSequence)
  }

  /** No file number comes back to a level it has left. */
  ghost predicate NumbersFresh(key: Bytes -> IKey, edits: seq<Edit>)
  {
    forall l: nat :: l < NUM_LEVELS ==> NeverBack([], LevelEdits(key, edits, l))
  }

  lemma {:induction false} FreshPrefix(key: Bytes -> IKey, edits: seq<Edit>, k: nat, l: nat)
    requires k <= |edits| && NeverBack([], LevelEdits(key, edits, l))
    ensures NeverBack([], LevelEdits(key, edits[..k], l))
    decreases |edits|
  {
    if k == |edits| {
      assert edits[..k] == edits;
    } else {
      var n := |edits| - 1;
      NeverBackPrefix([], LevelEdits(key, edits, l));
      assert edits == edits[..n] + [edits[n]];
      LevelEditsSnoc(key, edits[..n], edits[n], l);
      FreshPrefix(key, edits[..n], k, l);
      assert edits[..n][..k] == edits[..k];
    }
  }

  lemma ReplayedIsInstalled(key: Bytes -> IKey, edits: seq<Edit>, k: nat)
    requires k <= |edits| && NumbersFresh(key, edits)
    ensures ReplayedVersion(key, edits[..k]) == InstalledVersion(key, edits[..k])
  {
    forall l | 0 <= l < NUM_LEVELS ensures ReplayedVersion(key, edits[..k])[l] == InstalledVersion(key, edits[..k])[l] {
      FreshPrefix(key, edits, k, l);
      ReplayIsInstallation([], LevelEdits(key, edits[..k], l));
    }
  }

  /** Whatever the byte at which the manifest is cut off, recovery yields the version that was current after the last
      edit wholly inside, and that edit's counters; with no edit inside it reports an error. */
  lemma CrashRecovers(key: Bytes -> IKey, name: Bytes, step: CrcStep, records: seq<Bytes>, edits: seq<Edit>, n: nat)
    requires EditsOf(records) == Some(edits) && NumbersFresh(key, edits) && n <= |Log.File(Emitter(step), records)|
    requires forall i :: 0 <= i < |edits| ==> Stamped(edits[i]) && SameComparator(name, edits[i])
    ensures
      var k := Inside(Emitter(step), records, n);
      Recovered(key, name, ReadLog(step, true, Log.File(Emitter(step), records)[..n])) ==
        if k == 0 then None else Some(Recovery(InstalledVersion(key, edits[..k]), CountersIn(edits[k - 1])))
  {
    PrefixReads(step, true, records, n);
    FromRecords(key, name, records, edits, Inside(Emitter(step), records, n));
  }

  lemma FromRecords(key: Bytes -> IKey, name: Bytes, records: seq<Bytes>, edits: seq<Edit>, k: nat)
    requires EditsOf(records) == Some(edits) && NumbersFresh(key, edits) && k <= |records|
    requires forall i :: 0 <= i < |edits| ==> Stamped(edits[i]) && SameComparator(name, edits[i])
    ensures Recovered(key, name, Contents(records[..k], [])) ==
      if k == 0 then None else Some(Recovery(InstalledVersion(key, edits[..k]), CountersIn(edits[k - 1])))
  {
    EditsTake(records, edits, k);
    RecoveredFrom(key, name, records[..k], edits, k);
  }

  lemma EditsTake(records: seq<Bytes>, edits: seq<Edit>, k: nat)
    requires EditsOf(records) == Some(edits) && k <= |records|
    ensures EditsOf(records[..k]) == Some(edits[..k])
  {
    EditsPrefix(records, k);
    var some := EditsOf(records[..k]).value;
    assert some == edits[..|some|];
  }

  lemma RecoveredFrom(key: Bytes -> IKey, name: Bytes, records: seq<Bytes>, edits: seq<Edit>, k: nat)
    requires k <= |edits| && EditsOf(records) == Some(edits[..k]) && NumbersFresh(key, edits)
    requires forall i :: 0 <= i < |edits| ==> Stamped(edits[i]) && SameComparator(name, edits[i])
    ensures Recovered(key, name, Contents(records, [])) ==
      if k == 0 then None else Some(Recovery(InstalledVersion(key, edits[..k]), CountersIn(edits[k - 1])))
  {
    ReplayedIsInstalled(key, edits, k);
    if k > 0 { LastCounts(edits[..k]); }
  }

  lemma LastCounts(edits: seq<Edit>)
    requires edits != [] && Stamped(edits[|edits| - 1])
    ensures CountersOf(edits) == CountersIn(edits[|edits| - 1])
  {
  }

  // --- The version set ----------------------------------------------------------------------

  /** However many of the records survive, they decode to as many of the edits. */
  ghost predicate Logged(records: seq<Bytes>, edits: seq<Edit>)
  {
    |records| == |edits| && forall k {:trigger EditsOf(records[..k])} :: 0 <= k <= |records| ==> EditsOf(records[..k]) == Some(edits[..k])
  }

  lemma OneLogged(record: Bytes, e: Edit)
    requires EditCodec.Decoded(EditCodec.BLANK, record) == Some(e)
    ensures Logged([record], [e])
  {
    EditsAppend([], [], record, e);
    assert [] + [record] == [record] && [] + [e] == [e];
    forall k | 0 <= k <= 1 ensures EditsOf([record][..k]) == Some([e][..k]) {
      if k == 1 { assert [record][..k] == [record] && [e][..k] == [e]; }
    }
  }

  lemma LoggedSnoc(records: seq<Bytes>, edits: seq<Edit>, record: Bytes, e: Edit)
    requires Logged(records, edits) && Logged([record], [e])
    ensures Logged(records + [record], edits + [e])
  {
    var all, n := records + [record], |records|;
    assert EditCodec.Decoded(EditCodec.BLANK, record) == Some(e) by { OneDecodes(record, e); }
    assert EditsOf(records[..n]) == Some(edits[..n]);
    forall k | 0 <= k <= |all| ensures EditsOf(all[..k]) == Some((edits + [e])[..k]) {
      if k <= n {
        assert all[..k] == records[..k] && (edits + [e])[..k] == edits[..k] && EditsOf(records[..k]) == Some(edits[..k]);
      } else {
        EditsAppend(records, edits, record, e);
        assert all[..k] == all && (edits + [e])[..k] == edits + [e];
      }
    }
  }

  lemma OneDecodes(record: Bytes, e: Edit)
    requires Logged([record], [e])
    ensures EditCodec.Decoded(EditCodec.BLANK, record) == Some(e)
  {
    assert EditsOf([record][..1]) == Some([e][..1]) && [record][..1] == [record] && [e][..1] == [e];
    assert [e][0] == e;
  }

  lemma EditsAppend(records: seq<Bytes>, edits: seq<Edit>, record: Bytes, e: Edit)
    requires EditsOf(records[..|records|]) == Some(edits[..|edits|]) && EditCodec.Decoded(EditCodec.BLANK, record) == Some(e)
    ensures EditsOf(records + [record]) == Some(edits + [e])
  {
    assert (records + [record])[..|records|] == records[..|records|] && edits[..|edits|] == edits;
  }

  class VersionSet {
    const key: Bytes -> IKey
    const descriptor: Writer
    var current: seq<seq<File<Meta>>>
    var logNumber: nat
    var prevLogNumber: nat
    var nextFileNumber: nat
    var lastSequence: nat
    /** The edits installed so far. */
    ghost var edits: seq<Edit>

    ghost predicate Valid()
      reads this, descriptor
    {
      && descriptor.Valid() && Logged(descriptor.records, edits)
      && current == InstalledVersion(key, edits) && NumbersFresh(key, edits)
      && forall i :: 0 <= i < |edits| ==> Stamped(edits[i])
    }

    constructor (keyOf: Bytes -> IKey, step: CrcStep)
      ensures Valid() && edits == [] && fresh(descriptor) && key == keyOf && descriptor.step == step
    {
      key := keyOf;
      descriptor := new Writer(step);
      current := seq(NUM_LEVELS, _ => []);
      logNumber, prevLogNumber, nextFileNumber, lastSequence, edits := 0, 0, 2, 0, [];
    }

    /** The counters that LogAndApply fills in. */
    function Stamp(e: Edit): (r: Edit)
      reads this
      ensures Stamped(r) && r.deleted == e.deleted && r.newFiles == e.newFiles
    {
      e.(logNumber := if e.logNumber.Some? then e.logNumber else Some(logNumber),
         prevLogNumber := if e.prevLogNumber.Some? then e.prevLogNumber else Some(prevLogNumber),
         nextFile := Some(nextFileNumber), lastSequence := Some(lastSequence))
    }

    /** The version with one more edit, through a Builder on the current one. */
    method NextVersion(e: Edit) returns (v: seq<seq<File<Meta>>>)
      requires Valid() && LevelsOk(e) && NumbersFresh(key, edits + [e])
      ensures v == InstalledVersion(key, edits + [e])
    {
      CurrentInOrder(key, edits);
      var states := BuilderApply(key, seq(NUM_LEVELS, _ => LevelState([], {})), e);
      v := SaveVersion(current, states);
      forall l | 0 <= l < NUM_LEVELS ensures v[l] == Installed([], LevelEdits(key, edits + [e], l)) {
        LevelEditsSnoc(key, edits, e, l);
      }
    }

    /** The new record of the manifest. */
    method WriteRecord(record: Bytes, ghost e: Edit)
      requires descriptor.Valid() && Logged(descriptor.records, edits) && Logged([record], [e])
      modifies descriptor
      ensures descriptor.Valid() && Logged(descriptor.records, edits + [e])
    {
      LoggedSnoc(descriptor.records, edits, record, e);
      descriptor.AddRecord(record);
    }

    /** LogAndApply, when the manifest is written; order is that in which the deleted files are listed. */
    method LogAndApply(edit: Edit, order: seq<(nat, nat)>)
      requires Valid() && LevelsOk(edit) && EditCodec.Encodable(Stamp(edit), order)
      requires NumbersFresh(key, edits + [Stamp(edit)])
      modifies this, descriptor
      ensures Valid() && edits == old(edits) + [old(Stamp(edit))]
      ensures logNumber == old(Stamp(edit)).logNumber.value && prevLogNumber == old(Stamp(edit)).prevLogNumber.value
      ensures nextFileNumber == old(nextFileNumber) && lastSequence == old(lastSequence)
    {
      var e := Stamp(edit);
      var v := NextVersion(e);
      var record := EncodeEdit(e, order);
      WriteRecord(record, e);
      AppendVersion(v, e);
    }

    /** Install the new version and its log numbers. */
    method AppendVersion(v: seq<seq<File<Meta>>>, e: Edit)
      requires descriptor.Valid() && Logged(descriptor.records, edits + [e])
      requires v == InstalledVersion(key, edits + [e]) && NumbersFresh(key, edits + [e])
      requires Stamped(e) && forall i :: 0 <= i < |edits| ==> Stamped(edits[i])
      modifies `current, `logNumber, `prevLogNumber, `edits
      ensures Valid() && edits == old(edits) + [e]
      ensures logNumber == e.logNumber.value && prevLogNumber == e.prevLogNumber.value
    {
      current := v;
      logNumber := e.logNumber.value;
      prevLogNumber := e.prevLogNumber.value;
      edits := edits + [e];
    }
  }

  method EncodeEdit(e: Edit, order: seq<(nat, nat)>) returns (record: Bytes)
    requires EditCodec.Encodable(e, order)
    ensures Logged([record], [e])
  {
    record := EditCodec.EncodeTo(e, order);
    EditCodec.EditRoundTrip(e, order);
    OneLogged(record, e);
  }

  lemma CurrentInOrder(key: Bytes -> IKey, edits: seq<Edit>)
    requires NumbersFresh(key, edits)
    ensures forall l :: 0 <= l < NUM_LEVELS ==> InOrder(InstalledVersion(key, edits)[l])
  {
    forall l | 0 <= l < NUM_LEVELS ensures InOrder(InstalledVersion(key, edits)[l]) {
      NeverBackWellFormed([], LevelEdits(key, edits, l));
      InstalledFacts([], LevelEdits(key, edits, l));
    }
  }
}
