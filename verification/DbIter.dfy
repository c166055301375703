/**
 DBIter: a cursor over the newest visible, undeleted version of each user key, on top of a cursor over all entries.
 */
module DbIter {
  import opened Bytes
  import opened Keys

  // --- What the iterator shows --------------------------------------------------------------

  /** Entry i is the newest version of its key at or below s, and not a deletion. */
  ghost predicate Shown(t: seq<Entry>, s: nat, i: int)
  {
    && 0 <= i < |t| && t[i].key.sequence <= s && t[i].key.kind.Value?
    && forall j :: 0 <= j < i && t[j].key.user == t[i].key.user ==> t[j].key.sequence > s
  }

  /** An entry is shown exactly when a Get of its key at s returns it. */
  lemma ShownIffFound(t: seq<Entry>, s: nat, i: nat)
    requires Sorted(t) && i < |t|
    ensures Shown(t, s, i) <==> t[i].key.kind.Value? && Find(t, t[i].key.user, s) == Some(t[i])
  {
  }

  /** r is the first shown index at or after from, or -1. */
  ghost predicate FirstShown(t: seq<Entry>, s: nat, from: int, r: int)
  {
    && (r == -1 || (from <= r && Shown(t, s, r)))
    && forall i :: from <= i && (r == -1 || i < r) ==> !Shown(t, s, i)
  }

  /** r is the last shown index at or before upto, or -1. */
  ghost predicate LastShown(t: seq<Entry>, s: nat, upto: int, r: int)
  {
    && (r == -1 || (r <= upto && Shown(t, s, r)))
    && forall i :: r < i <= upto ==> !Shown(t, s, i)
  }

  lemma UsersIncrease(t: seq<Entry>, i: int, j: int)
    requires Sorted(t) && 0 <= i <= j < |t|
    ensures t[i].key.user <= t[j].key.user
    ensures i < j && t[i].key.user == t[j].key.user ==> t[i].key.sequence > t[j].key.sequence
  {
  }

  // --- The scans ----------------------------------------------------------------------------

  /** Eligible for FindNextUserEntry: shown, and past the key to skip. */
  ghost predicate Eligible(t: seq<Entry>, s: nat, skip: Option<UserKey>, i: int)
  {
    Shown(t, s, i) && (skip.Some? ==> t[i].key.user > skip.value)
  }

  /** Nothing before p hides an entry from p on, apart from what skip accounts for. */
  ghost predicate NextClean(t: seq<Entry>, s: nat, p: int, skip: Option<UserKey>)
  {
    && 0 <= p
    && (forall j, i :: 0 <= j < p <= i < |t| && t[i].key.user == t[j].key.user && (skip.Some? ==> t[i].key.user > skip.value)
          ==> t[j].key.sequence > s)
    && (skip.Some? ==> forall i :: p <= i < |t| && t[i].key.sequence <= s ==> t[i].key.user >= skip.value)
  }

  /** One turn of FindNextUserEntry past entry p. */
  ghost function SkipAfter(t: seq<Entry>, s: nat, p: nat, skip: Option<UserKey>): Option<UserKey>
    requires p < |t|
  {
    if t[p].key.sequence <= s && t[p].key.kind.Deletion? then Some(t[p].key.user) else skip
  }

  ghost predicate Hidden(t: seq<Entry>, s: nat, p: nat, skip: Option<UserKey>)
    requires p < |t|
  {
    t[p].key.sequence > s || t[p].key.kind.Deletion? || (skip.Some? && t[p].key.user <= skip.value)
  }

  /** FindNextUserEntry has come from start to p without finding anything eligible. */
  ghost predicate NextScan(t: seq<Entry>, s: nat, start: int, skip0: Option<UserKey>, p: int, skip: Option<UserKey>)
  {
    && start <= p && NextClean(t, s, p, skip)
    && (forall i :: start <= i < p ==> !Eligible(t, s, skip0, i))
    && (forall i :: p <= i < |t| ==> (Eligible(t, s, skip0, i) <==> Eligible(t, s, skip, i)))
  }

  lemma NextScanTurn(t: seq<Entry>, s: nat, start: int, skip0: Option<UserKey>, p: nat, skip: Option<UserKey>)
    requires Sorted(t) && p < |t| && NextScan(t, s, start, skip0, p, skip)
    ensures Hidden(t, s, p, skip) ==> NextScan(t, s, start, skip0, p + 1, SkipAfter(t, s, p, skip))
    ensures !Hidden(t, s, p, skip) ==> Found(t, s, start, skip0, p)
  {
  }

  /** r is the first eligible index at or after start, or -1. */
  ghost predicate Found(t: seq<Entry>, s: nat, start: int, skip0: Option<UserKey>, r: int)
  {
    && (r == -1 || (start <= r && Eligible(t, s, skip0, r)))
    && forall i :: start <= i && (r == -1 || i < r) ==> !Eligible(t, s, skip0, i)
  }

  lemma ScanExhausted(t: seq<Entry>, s: nat, start: int, skip0: Option<UserKey>, skip: Option<UserKey>)
    requires NextScan(t, s, start, skip0, |t|, skip)
    ensures Found(t, s, start, skip0, -1)
  {
  }

  lemma FoundIsFirst(t: seq<Entry>, s: nat, start: int, r: int)
    requires Found(t, s, start, None, r)
    ensures FirstShown(t, s, start, r)
  {
    assert forall i :: Shown(t, s, i) ==> Eligible(t, s, None, i);
  }

  /** Nothing after p of p's own key, or of an earlier key, is visible. */
  ghost predicate PrevClean(t: seq<Entry>, s: nat, p: int)
  {
    p < |t| && forall i, j :: 0 <= i <= p < j < |t| && t[i].key.user == t[j].key.user ==> t[j].key.sequence > s
  }

  /** The candidate of FindPrevUserEntry after it has scanned back from start to above p; -1 is none. */
  ghost predicate Candidate(t: seq<Entry>, s: nat, start: int, p: int, c: int)
  {
    && -1 <= p <= start < |t|
    && (forall i :: p < i <= start && i != c ==> !Shown(t, s, i))
    && (c != -1 ==> p < c <= start && t[c].key.sequence <= s && t[c].key.kind.Value?)
    && (c != -1 ==> forall j :: p < j < c ==> t[j].key.sequence > s)
  }

  ghost function CandidateAt(t: seq<Entry>, p: nat): int
    requires p < |t|
  {
    if t[p].key.kind.Value? then p else -1
  }

  lemma PrevTurn(t: seq<Entry>, s: nat, start: int, p: nat, c: int)
    requires Sorted(t) && p <= start && Candidate(t, s, start, p, c)
    ensures t[p].key.sequence > s ==> Candidate(t, s, start, p - 1, c)
    ensures t[p].key.sequence <= s && c != -1 && t[p].key.user < t[c].key.user ==> Shown(t, s, c)
    ensures t[p].key.sequence <= s && !(c != -1 && t[p].key.user < t[c].key.user) ==>
      Candidate(t, s, start, p - 1, CandidateAt(t, p))
  {
  }

  // --- The iterator -------------------------------------------------------------------------

  class DBIter {
    const t: seq<Entry>          // what the internal iterator runs over
    const s: nat                 // sequence_
    var pos: int                 // the internal iterator; -1 is invalid
    var reverse: bool            // direction_ == kReverse
    var valid: bool
    var savedKey: Option<UserKey>
    var savedValue: Bytes
    ghost var cur: int           // the entry shown; -1 is none

    ghost predicate Valid()
      reads this
    {
      && Sorted(t) && -1 <= pos < |t|
      && (valid ==> Shown(t, s, cur))
      && (!valid ==> cur == -1)
      && (valid && !reverse ==> pos == cur)
      && (valid && reverse ==> savedKey == Some(t[cur].key.user) && savedValue == t[cur].value)
      && (valid && reverse ==> pos < cur && (pos == -1 || (t[pos].key.sequence <= s && t[pos].key.user < t[cur].key.user)))
      && (valid && reverse ==> forall j :: pos < j < cur ==> t[j].key.sequence > s)
    }

    constructor (t: seq<Entry>, s: nat)
      requires Sorted(t)
      ensures Valid() && !valid && this.t == t && this.s == s
    {
      this.t, this.s := t, s;
      pos, reverse, valid, savedKey, savedValue, cur := -1, false, false, None, [], -1;
    }

    method Key() returns (k: UserKey)
      requires Valid() && valid
      ensures k == t[cur].key.user
    {
      k := if !reverse then t[pos].key.user else savedKey.value;
    }

    method Value() returns (v: Bytes)
      requires Valid() && valid
      ensures v == t[cur].value
    {
      v := if !reverse then t[pos].value else savedValue;
    }

    /** The internal iterator's Next and Prev. */
    function After(p: int): int { if p + 1 < |t| then p + 1 else -1 }

    function Before(p: int): int { p - 1 }

    method FindNextUserEntry(skip0: Option<UserKey>)
      requires Sorted(t) && 0 <= pos < |t| && !reverse && NextClean(t, s, pos, skip0)
      modifies this
      ensures Valid() && !reverse && Found(t, s, old(pos), skip0, cur)
    {
      var skip := skip0;
      ghost var start := pos;
      while true
        invariant 0 <= pos < |t| && !reverse && NextScan(t, s, start, skip0, pos, skip)
        decreases |t| - pos
      {
        NextScanTurn(t, s, start, skip0, pos, skip);
        var e := t[pos];
        if e.key.sequence <= s {
          if e.key.kind.Deletion? {
            skip := Some(e.key.user);
          } else if skip.Some? && e.key.user <= skip.value {
          } else {
            valid, savedKey, cur := true, None, pos;
            return;
          }
        }
        if pos + 1 == |t| { ScanExhausted(t, s, start, skip0, skip); }
        pos := After(pos);
        if pos == -1 { break; }
      }
      valid, savedKey, cur := false, None, -1;
    }

    method FindPrevUserEntry()
      requires Sorted(t) && -1 <= pos < |t| && reverse && PrevClean(t, s, pos)
      modifies this
      ensures Valid() && LastShown(t, s, old(pos), cur) && (valid ==> reverse)
    {
      ghost var start := pos;
      ghost var c := -1;
      var hasValue := false;
      while pos != -1
        invariant -1 <= pos <= start && reverse && Candidate(t, s, start, pos, c)
        invariant hasValue <==> c != -1
        invariant hasValue ==> savedKey == Some(t[c].key.user) && savedValue == t[c].value
        decreases pos
      {
        PrevTurn(t, s, start, pos, c);
        var e := t[pos];
        if e.key.sequence <= s {
          if hasValue && e.key.user < savedKey.value { break; }
          hasValue, c := e.key.kind.Value?, CandidateAt(t, pos);
          if hasValue {
            savedKey, savedValue := Some(e.key.user), e.value;
          } else {
            savedKey, savedValue := None, [];
          }
        }
        pos := Before(pos);
      }
      cur := c;
      if !hasValue {
        valid, savedKey, savedValue, reverse := false, None, [], false;
      } else {
        valid := true;
      }
    }

    method Next()
      requires Valid() && valid
      modifies this
      ensures Valid() && FirstShown(t, s, old(cur) + 1, cur)
    {
      ghost var here := cur;
      if reverse {
        reverse := false;
        pos := if pos == -1 then 0 else After(pos);
      } else {
        savedKey := Some(t[pos].key.user);
      }
      ResumeClean(t, s, pos, here);
      ghost var start := pos;
      FindNextUserEntry(savedKey);
      FoundAfter(t, s, start, here, cur);
    }

    method Prev()
      requires Valid() && valid
      modifies this
      ensures Valid() && LastShown(t, s, old(cur) - 1, cur)
    {
      if !reverse {
        savedKey := Some(t[pos].key.user);
        while true
          invariant 0 <= pos <= cur < |t| && savedKey == Some(t[cur].key.user) && valid && !reverse && cur == old(cur)
          invariant forall j :: pos <= j < cur ==> t[j].key.user == t[cur].key.user
          decreases pos
        {
          pos := Before(pos);
          if pos == -1 {
            valid, savedKey, savedValue, cur := false, None, [], -1;
            return;
          }
          UsersIncrease(t, pos, cur);
          if t[pos].key.user < savedKey.value { break; }
        }
        reverse := true;
        EarlierKeyClean(t, s, pos, cur);
      }
      ReverseClean(t, s, pos, cur);
      FindPrevUserEntry();
    }

    method Seek(target: UserKey)
      requires Valid()
      modifies this
      ensures Valid() && FirstShown(t, s, SeekIndex(t, Target(target, s)), cur)
      ensures forall i :: 0 <= i < |t| && Shown(t, s, i) ==> (t[i].key.user >= target <==> i >= SeekIndex(t, Target(target, s)))
    {
      reverse, savedKey, savedValue := false, None, [];
      var i := SeekIndex(t, Target(target, s));
      SeekClean(t, s, target);
      if i < |t| {
        pos := i;
        ghost var start := pos;
        FindNextUserEntry(None);
        FoundIsFirst(t, s, start, cur);
      } else {
        pos, valid, cur := -1, false, -1;
      }
    }

    method SeekToFirst()
      requires Valid()
      modifies this
      ensures Valid() && FirstShown(t, s, 0, cur)
    {
      reverse, savedValue := false, [];
      if |t| > 0 {
        pos := 0;
        ghost var start := pos;
        FindNextUserEntry(None);
        FoundIsFirst(t, s, start, cur);
      } else {
        pos, valid, cur := -1, false, -1;
      }
    }

    method SeekToLast()
      requires Valid()
      modifies this
      ensures Valid() && LastShown(t, s, |t| - 1, cur)
    {
      reverse, savedValue := true, [];
      pos := |t| - 1;
      FindPrevUserEntry();
    }
  }

  /** Going on from the shown entry: everything up to it is hidden or of its own key. */
  lemma ResumeClean(t: seq<Entry>, s: nat, p: int, cur: int)
    requires Sorted(t) && Shown(t, s, cur) && 0 <= p <= cur
    requires forall j :: p <= j < cur ==> t[j].key.sequence > s
    ensures NextClean(t, s, p, Some(t[cur].key.user))
  {
  }

  /** Past the shown entry's key and past its index are the same for shown entries. */
  lemma EligibleAfter(t: seq<Entry>, s: nat, cur: int)
    requires Sorted(t) && Shown(t, s, cur)
    ensures forall i :: Eligible(t, s, Some(t[cur].key.user), i) <==> Shown(t, s, i) && i > cur
  {
  }

  lemma FoundAfter(t: seq<Entry>, s: nat, start: int, here: int, r: int)
    requires Sorted(t) && Shown(t, s, here) && start <= here && Found(t, s, start, Some(t[here].key.user), r)
    ensures FirstShown(t, s, here + 1, r)
  {
    EligibleAfter(t, s, here);
  }

  lemma EarlierKeyClean(t: seq<Entry>, s: nat, p: int, cur: int)
    requires Sorted(t) && Shown(t, s, cur) && 0 <= p < cur && t[p].key.user < t[cur].key.user
    requires forall j :: p < j < cur ==> t[j].key.user == t[cur].key.user
    ensures PrevClean(t, s, p) && forall i :: p < i < cur ==> !Shown(t, s, i)
  {
  }

  lemma ReverseClean(t: seq<Entry>, s: nat, p: int, cur: int)
    requires Sorted(t) && Shown(t, s, cur) && -1 <= p < cur
    requires PrevClean(t, s, p) || forall j :: p < j < cur ==> t[j].key.sequence > s
    requires PrevClean(t, s, p) || p == -1 || t[p].key.user < t[cur].key.user
    ensures PrevClean(t, s, p)
  {
  }

  lemma SeekClean(t: seq<Entry>, s: nat, target: UserKey)
    requires Sorted(t)
    ensures NextClean(t, s, SeekIndex(t, Target(target, s)), None)
    ensures forall i :: 0 <= i < |t| && Shown(t, s, i) ==> (t[i].key.user >= target <==> i >= SeekIndex(t, Target(target, s)))
  {
    var p := SeekIndex(t, Target(target, s));
    forall j, i | 0 <= j < p <= i < |t| && t[i].key.user == t[j].key.user ensures t[j].key.sequence > s {
      UsersIncrease(t, p, i);
      assert p < |t| ==> !Keys.Before(t[p].key, Target(target, s));
      assert Keys.Before(t[j].key, Target(target, s));
    }
    forall i | 0 <= i < |t| && Shown(t, s, i) ensures t[i].key.user >= target <==> i >= p {
      if i < p { assert Keys.Before(t[i].key, Target(target, s)); }
      else { UsersIncrease(t, p, i); }
    }
  }
}
