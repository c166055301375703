/**
 The loops of the read and compaction paths, each proved against its specification function.
 */
module Background {
  import opened Bytes
  import opened Keys
  import opened Levels
  import opened Versions
  import opened Picking
  import opened Compactions

  // --- Version::Get -------------------------------------------------------------------------

  /** Collect the level-0 files whose range covers u, newest first. */
  method SortNewestFirst(fs: seq<Sst>, u: UserKey) returns (tmp: seq<Sst>)
    ensures tmp == NewestFirst(fs, u)
  {
    tmp := [];
    var i := |fs|;
    while i > 0
      invariant 0 <= i <= |fs|
      invariant tmp == NewestFirst(fs[i..], u)
    {
      i := i - 1;
      assert fs[i..][1..] == fs[i + 1..];
      if Covers(fs[i], u) { tmp := AddByNumber(tmp, fs[i]); }
    }
  }

  method Get(v: Version, u: UserKey, s: nat) returns (r: Option<Entry>)
    requires Readable(v)
    ensures r == SearchFrom(v, 0, u, s)
    ensures IsNewest(AllItems(v), u, s, r)
  {
    SearchFromNewest(v, 0, u, s);
    for level := 0 to NUM_LEVELS
      invariant SearchFrom(v, 0, u, s) == SearchFrom(v, level, u, s)
    {
      var files: seq<Sst>;
      if level == 0 {
        files := SortNewestFirst(v[0], u);
      } else {
        LargestIncrease(v[level]);
        var index := FindFileIndex(v[level], Target(u, s));
        files := if index < |v[level]| && Min(v[level][index]) <= u then [v[level][index]] else [];
      }
      assert SearchEach(files, u, s) == SearchLevel(v, level, u, s);
      for i := 0 to |files|
        invariant SearchEach(files, u, s) == SearchEach(files[i..], u, s)
      {
        assert files[i..][1..] == files[i + 1..];
        var found := Find(files[i].body.entries, u, s);
        if found.Some? { return found; }
      }
    }
    return None;
  }

  // --- SetupOtherInputs ---------------------------------------------------------------------

  /** GetRange compares internal keys; the user keys of its result are those of the hull. */
  method GetRange(fs: seq<Sst>) returns (smallest: IKey, largest: IKey)
    requires fs != []
    ensures Range(Some(smallest.user), Some(largest.user)) == Hull(fs)
  {
    smallest, largest := fs[0].smallest, Largest(fs[0]);
    assert fs[..1] == [fs[0]];
    for i := 1 to |fs|
      invariant Range(Some(smallest.user), Some(largest.user)) == Hull(fs[..i])
    {
      assert fs[..i + 1][..i] == fs[..i];
      if Before(fs[i].smallest, smallest) { smallest := fs[i].smallest; }
      if Before(largest, Largest(fs[i])) { largest := Largest(fs[i]); }
    }
    assert fs[..|fs|] == fs;
  }

  method SetupOtherInputs(v: Version, level: nat, upper: seq<Sst>, limit: nat) returns (c: Inputs)
    requires SortedLevels(v) && level + 1 < NUM_LEVELS && upper != []
    ensures c == OtherInputs(v, level, upper, limit)
  {
    var smallest, largest := GetRange(upper);
    var lower := GetOverlappingInputs(v[level + 1], level + 1, Some(smallest.user), Some(largest.user));
    var allStart, allLimit := GetRange(upper + lower);
    c := Inputs(upper, lower);
    if lower != [] {
      var expanded := GetOverlappingInputs(v[level], level, Some(allStart.user), Some(allLimit.user));
      var lowerSize := SumSizes(lower);
      var expandedSize := SumSizes(expanded);
      if |expanded| > |upper| && lowerSize + expandedSize < limit {
        var newStart, newLimit := GetRange(expanded);
        var expandedLower := GetOverlappingInputs(v[level + 1], level + 1, Some(newStart.user), Some(newLimit.user));
        if |expandedLower| == |lower| {
          c := Inputs(expanded, expandedLower);
        }
      }
    }
  }

  // --- IsBaseLevelForKey --------------------------------------------------------------------

  /** level_ptrs_: one cursor per level that only moves forward, as the keys it is asked about do. */
  class LevelCursors {
    const version: Version
    const level: nat
    var ptrs: seq<nat>
    ghost var last: Option<UserKey>

    constructor (version: Version, level: nat)
      requires SortedLevels(version)
      ensures Valid() && last == None && this.version == version && this.level == level
    {
      this.version, this.level := version, level;
      ptrs, last := [0, 0, 0, 0, 0, 0, 0], None;
    }

    ghost predicate Valid()
      reads this
    {
      && SortedLevels(version) && |ptrs| == NUM_LEVELS
      && forall l :: 0 <= l < NUM_LEVELS ==> Passed(version[l], ptrs[l], last)
    }

    method IsBaseLevelForKey(u: UserKey) returns (base: bool)
      requires Valid()
      requires last.Some? ==> last.value <= u
      modifies this
      ensures Valid() && last == Some(u)
      ensures base <==> IsBase(version, level, u)
    {
      forall l | 0 <= l < NUM_LEVELS ensures Passed(version[l], ptrs[l], Some(u)) { PassedLater(version[l], ptrs[l], last, u); }
      last := Some(u);
      var lvl := level + 2;
      while lvl < NUM_LEVELS
        invariant level + 2 <= lvl
        invariant Valid() && last == Some(u)
        invariant forall l, f :: level + 2 <= l < lvl && l < NUM_LEVELS && f in version[l] ==> !Covers(f, u)
      {
        var files := version[lvl];
        assert Passed(files, ptrs[lvl], last);
        while ptrs[lvl] < |files|
          invariant Valid() && last == Some(u) && Passed(files, ptrs[lvl], Some(u))
          decreases |files| - ptrs[lvl]
        {
          var f := files[ptrs[lvl]];
          if u <= Max(f) {
            if u >= Min(f) {
              assert f in version[lvl] && Covers(f, u);
              return false;
            }
            break;
          }
          ptrs := ptrs[lvl := ptrs[lvl] + 1];
        }
        NoneCovers(files, ptrs[lvl], u);
        lvl := lvl + 1;
      }
      return true;
    }
  }

  /** The files behind a cursor end before the last key asked about. */
  ghost predicate Passed(fs: seq<Sst>, k: nat, last: Option<UserKey>)
  {
    k <= |fs| && forall i :: 0 <= i < k ==> last.Some? && Max(fs[i]) < last.value
  }

  lemma PassedLater(fs: seq<Sst>, k: nat, last: Option<UserKey>, u: UserKey)
    requires Passed(fs, k, last) && (last.Some? ==> last.value <= u)
    ensures Passed(fs, k, Some(u))
  {
  }

  lemma NoneCovers(fs: seq<Sst>, k: nat, u: UserKey)
    requires KeyDisjoint(fs) && FilesOk(fs) && k <= |fs|
    requires forall i :: 0 <= i < k ==> Max(fs[i]) < u
    requires k < |fs| ==> u < Min(fs[k])
    ensures forall f :: f in fs ==> !Covers(f, u)
  {
    forall f | f in fs ensures !Covers(f, u) {
      var i :| 0 <= i < |fs| && fs[i] == f;
      if i > k {
        assert fs[k] in fs;
        MinMax(fs[k]);
        assert Max(fs[k]) <= Min(fs[i]);
      }
    }
  }

  // --- DoCompactionWork ---------------------------------------------------------------------

  ghost function Flatten(outs: seq<seq<Entry>>): seq<Entry>
  {
    if outs == [] then [] else Flatten(outs[..|outs| - 1]) + outs[|outs| - 1]
  }

  lemma FlattenSnoc(outs: seq<seq<Entry>>, t: seq<Entry>)
    ensures Flatten(outs + [t]) == Flatten(outs) + t
  {
  }

  ghost function Previous(input: seq<Entry>, i: nat): Option<IKey>
    requires i <= |input|
  {
    if i == 0 then None else Some(input[i - 1].key)
  }

  ghost function Remaining(input: seq<Entry>, i: nat, snapshot: nat, v: Version, level: nat): seq<Entry>
    requires i <= |input|
  {
    Survivors(input[i..], Previous(input, i), snapshot, v, level)
  }

  /** What has been written and what remains to be read add up to the surviving entries. */
  ghost predicate Progress(input: seq<Entry>, i: nat, snapshot: nat, v: Version, level: nat, written: seq<Entry>)
  {
    i <= |input| && written + Remaining(input, i, snapshot, v, level) == Survivors(input, None, snapshot, v, level)
  }

  lemma ProgressEnds(input: seq<Entry>, snapshot: nat, v: Version, level: nat, written: seq<Entry>)
    ensures Progress(input, 0, snapshot, v, level, [])
    ensures Progress(input, |input|, snapshot, v, level, written) ==> written == Survivors(input, None, snapshot, v, level)
  {
  }

  lemma ProgressStep(input: seq<Entry>, i: nat, snapshot: nat, v: Version, level: nat, written: seq<Entry>, drop: bool)
    requires i < |input| && Progress(input, i, snapshot, v, level, written)
    requires drop <==> Dropped(Previous(input, i), input[i], snapshot, v, level)
    ensures Progress(input, i + 1, snapshot, v, level, if drop then written else written + [input[i]])
  {
  }

  /** The variables of the loop hold the key seen last, and no cursor has been asked about a later one. */
  ghost predicate Remembers(prev: Option<IKey>, user: Option<UserKey>, sequence: Option<nat>, asked: Option<UserKey>)
  {
    && user == (if prev.Some? then Some(prev.value.user) else None)
    && sequence == (if prev.Some? then Some(prev.value.sequence) else None)
    && (asked.Some? ==> user.Some? && asked.value <= user.value)
  }

  /** The first occurrence of a user key forgets the sequence of the one before. */
  method Enter(user: Option<UserKey>, sequence: Option<nat>, e: Entry, ghost prev: Option<IKey>, ghost asked: Option<UserKey>)
    returns (current: Option<UserKey>, last: Option<nat>)
    requires Remembers(prev, user, sequence, asked) && (prev.Some? ==> Ahead(prev.value, e.key))
    ensures current == Some(e.key.user) && last == LastFor(prev, e)
    ensures asked.Some? ==> asked.value <= e.key.user
  {
    current, last := user, sequence;
    if user.None? || user.value != e.key.user {
      current, last := Some(e.key.user), None;
    }
  }

  /** The drop decision for one parsed key. */
  method Obsolete(cursors: LevelCursors, lastSequence: Option<nat>, e: Entry, snapshot: nat, ghost prev: Option<IKey>) returns (drop: bool)
    requires cursors.Valid() && (cursors.last.Some? ==> cursors.last.value <= e.key.user)
    requires lastSequence == LastFor(prev, e)
    modifies cursors
    ensures cursors.Valid() && (cursors.last.Some? ==> cursors.last.value <= e.key.user)
    ensures drop <==> Dropped(prev, e, snapshot, cursors.version, cursors.level)
  {
    drop := false;
    if lastSequence.Some? && lastSequence.value <= snapshot {
      drop := true;
    } else if e.key.kind.Deletion? && e.key.sequence <= snapshot {
      drop := cursors.IsBaseLevelForKey(e.key.user);
    }
  }

  /**
   The loop over the merged input. Whatever the size limits and grandparent overlap decide about where output files
   end, the files hold exactly the surviving entries, in order, and none is empty.
   */
  method DoCompactionWork(input: seq<Entry>, snapshot: nat, v: Version, level: nat, stopBefore: seq<bool>, full: seq<bool>)
    returns (outputs: seq<seq<Entry>>)
    requires SortedLevels(v) && Sorted(input) && |stopBefore| == |full| == |input|
    ensures Flatten(outputs) == Survivors(input, None, snapshot, v, level)
    ensures forall t :: t in outputs ==> t != []
  {
    var cursors := new LevelCursors(v, level);
    outputs := [];
    var builder: seq<Entry> := [];
    var currentUserKey: Option<UserKey> := None;
    var lastSequence: Option<nat> := None;
    ghost var written := [];
    ProgressEnds(input, snapshot, v, level, written);
    for i := 0 to |input|
      invariant cursors.Valid() && cursors.version == v && cursors.level == level
      invariant Remembers(Previous(input, i), currentUserKey, lastSequence, cursors.last)
      invariant forall t :: t in outputs ==> t != []
      invariant written == Flatten(outputs) + builder
      invariant Progress(input, i, snapshot, v, level, written)
    {
      var e := input[i];
      assert i > 0 ==> Ahead(input[i - 1].key, e.key);
      outputs, builder := FinishIf(stopBefore[i] && builder != [], outputs, builder);
      currentUserKey, lastSequence := Enter(currentUserKey, lastSequence, e, Previous(input, i), cursors.last);
      var drop := Obsolete(cursors, lastSequence, e, snapshot, Previous(input, i));
      ProgressStep(input, i, snapshot, v, level, written, drop);
      lastSequence := Some(e.key.sequence);
      if !drop {
        outputs, builder := AddToOutput(outputs, builder, e, full[i]);
        written := written + [e];
      }
    }
    ProgressEnds(input, snapshot, v, level, written);
    outputs, builder := FinishIf(builder != [], outputs, builder);
  }

  /** FinishCompactionOutputFile, when it is time: the open table becomes an output. */
  method FinishIf(finish: bool, outputs: seq<seq<Entry>>, builder: seq<Entry>) returns (outs: seq<seq<Entry>>, open: seq<Entry>)
    requires (finish ==> builder != []) && forall t :: t in outputs ==> t != []
    ensures Flatten(outs) + open == Flatten(outputs) + builder
    ensures open == (if finish then [] else builder) && forall t :: t in outs ==> t != []
  {
    outs, open := outputs, builder;
    if finish {
      FlattenSnoc(outputs, builder);
      outs, open := outputs + [builder], [];
    }
  }

  /** Add an entry to the open table and finish it when it has reached its size. */
  method AddToOutput(outputs: seq<seq<Entry>>, builder: seq<Entry>, e: Entry, full: bool) returns (outs: seq<seq<Entry>>, open: seq<Entry>)
    requires forall t :: t in outputs ==> t != []
    ensures Flatten(outs) + open == Flatten(outputs) + builder + [e]
    ensures forall t :: t in outs ==> t != []
  {
    assert Flatten(outputs) + builder + [e] == Flatten(outputs) + (builder + [e]);
    outs, open := FinishIf(full, outputs, builder + [e]);
  }

  /** The entries of the output files, before they are cut into files. */
  method SurvivingEntries(input: seq<Entry>, snapshot: nat, v: Version, level: nat) returns (t: seq<Entry>)
    requires SortedLevels(v) && Sorted(input)
    ensures t == Survivors(input, None, snapshot, v, level)
  {
    var never := seq(|input|, i => false);
    var outputs := DoCompactionWork(input, snapshot, v, level, never, never);
    t := [];
    for i := 0 to |outputs|
      invariant t == Flatten(outputs[..i])
    {
      assert outputs[..i + 1] == outputs[..i] + [outputs[i]];
      FlattenSnoc(outputs[..i], outputs[i]);
      t := t + outputs[i];
    }
    assert outputs[..|outputs|] == outputs;
  }
}
