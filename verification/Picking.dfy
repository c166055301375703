/**
 Choosing files: overlap tests, GetOverlappingInputs, the inputs of a compaction and the level of a flushed memtable.
 */
module Picking {
  import opened Keys
  import opened Levels
  import opened Versions

  // --- Ranges of user keys ------------------------------------------------------------------

  /** A closed range of user keys; a missing bound (a NULL key) is unbounded. */
  datatype Range = Range(lo: Option<UserKey>, hi: Option<UserKey>)

  predicate Inside(r: Range, u: UserKey)
  {
    (r.lo.Some? ==> r.lo.value <= u) && (r.hi.Some? ==> u <= r.hi.value)
  }

  /** Neither AfterFile(lo) nor BeforeFile(hi). */
  predicate Meets(f: Sst, r: Range)
  {
    (r.lo.Some? ==> r.lo.value <= Max(f)) && (r.hi.Some? ==> Min(f) <= r.hi.value)
  }

  predicate Within(f: Sst, r: Range)
  {
    (r.lo.Some? ==> r.lo.value <= Min(f)) && (r.hi.Some? ==> Max(f) <= r.hi.value)
  }

  predicate Includes(outer: Range, inner: Range)
  {
    && (outer.lo.Some? ==> inner.lo.Some? && outer.lo.value <= inner.lo.value)
    && (outer.hi.Some? ==> inner.hi.Some? && inner.hi.value <= outer.hi.value)
  }

  function RangeOf(f: Sst): Range { Range(Some(Min(f)), Some(Max(f))) }

  /** The file sticks out of the range at its low, or high, end. */
  predicate OutLo(f: Sst, r: Range) { r.lo.Some? && Min(f) < r.lo.value }

  predicate OutHi(f: Sst, r: Range) { r.hi.Some? && Max(f) > r.hi.value }

  function WidenLo(r: Range, f: Sst): Range
  {
    if OutLo(f, r) then Range(Some(Min(f)), r.hi) else r
  }

  function WidenHi(r: Range, f: Sst): Range
  {
    if OutHi(f, r) then Range(r.lo, Some(Max(f))) else r
  }

  function Widen(r: Range, f: Sst): Range { WidenHi(WidenLo(r, f), f) }

  // --- GetOverlappingInputs -----------------------------------------------------------------

  function Meeting(fs: seq<Sst>, r: Range): (m: seq<Sst>)
    ensures forall f :: f in m <==> f in fs && Meets(f, r)
    ensures |m| <= |fs|
  {
    if fs == [] then []
    else
      assert fs == [fs[0]] + fs[1..];
      if Meets(fs[0], r) then [fs[0]] + Meeting(fs[1..], r) else Meeting(fs[1..], r)
  }

  /** How many file ends stick out of the range: the measure that makes the restarts end. */
  ghost function Outside(fs: seq<Sst>, r: Range): nat
  {
    if fs == [] then 0
    else (if OutLo(fs[0], r) then 1 else 0) + (if OutHi(fs[0], r) then 1 else 0) + Outside(fs[1..], r)
  }

  lemma {:induction false} OutsideShrinks(fs: seq<Sst>, r: Range, w: Range, f: Sst)
    requires Includes(w, r)
    ensures Outside(fs, w) <= Outside(fs, r)
    ensures f in fs && ((OutLo(f, r) && !OutLo(f, w)) || (OutHi(f, r) && !OutHi(f, w))) ==> Outside(fs, w) < Outside(fs, r)
  {
    if fs != [] {
      assert fs == [fs[0]] + fs[1..];
      OutsideShrinks(fs[1..], r, w, f);
    }
  }

  /** Every file that meets the range lies inside it. */
  ghost predicate Closed(fs: seq<Sst>, r: Range)
  {
    forall f :: f in fs && Meets(f, r) ==> Within(f, r)
  }

  /** The range after growing it over every file that meets it, until none sticks out. */
  ghost function Closure(fs: seq<Sst>, r: Range): (c: Range)
    ensures Closed(fs, c) && Includes(c, r)
    decreases Outside(fs, r)
  {
    if Closed(fs, r) then r
    else
      var f :| f in fs && Meets(f, r) && !Within(f, r);
      var w := Widen(r, f);
      assert Within(f, w) && Includes(w, r);
      OutsideShrinks(fs, r, w, f);
      Closure(fs, w)
  }

  /** Closure is the least closed range around r. */
  lemma {:induction false} ClosureLeast(fs: seq<Sst>, r: Range, c: Range)
    requires FilesOk(fs) && Closed(fs, c) && Includes(c, r)
    ensures Includes(c, Closure(fs, r))
    decreases Outside(fs, r)
  {
    if !Closed(fs, r) {
      var f :| f in fs && Meets(f, r) && !Within(f, r) && Closure(fs, r) == Closure(fs, Widen(r, f));
      MinMax(f);
      assert Meets(f, c) && Within(f, c);
      var w := Widen(r, f);
      assert Within(f, w) && Includes(w, r) && Includes(c, w);
      OutsideShrinks(fs, r, w, f);
      ClosureLeast(fs, w, c);
    }
  }

  lemma MinMax(f: Sst)
    requires FileOk(f)
    ensures Min(f) <= Max(f)
  {
  }

  lemma IncludesAntisymmetric(a: Range, b: Range)
    requires Includes(a, b) && Includes(b, a)
    ensures a == b
  {
  }

  /** Version::GetOverlappingInputs. */
  ghost function Overlapping(fs: seq<Sst>, level: nat, r: Range): seq<Sst>
  {
    Meeting(fs, if level == 0 then Closure(fs, r) else r)
  }

  /** The code restarts after growing one bound; both bounds stay inside the least closed range. */
  lemma GrowWithin(fs: seq<Sst>, r: Range, goal: Range, f: Sst)
    requires Closed(fs, goal) && Includes(goal, r) && f in fs && FileOk(f) && Meets(f, r)
    ensures Includes(goal, WidenLo(r, f)) && Includes(goal, WidenHi(r, f))
    ensures OutLo(f, r) ==> Outside(fs, WidenLo(r, f)) < Outside(fs, r)
    ensures OutHi(f, r) ==> Outside(fs, WidenHi(r, f)) < Outside(fs, r)
  {
    MinMax(f);
    assert Meets(f, goal) && Within(f, goal);
    OutsideShrinks(fs, r, WidenLo(r, f), f);
    OutsideShrinks(fs, r, WidenHi(r, f), f);
  }

  /** The scan with its restarts, kept inside any closed range around the given one. */
  method Collect(fs: seq<Sst>, level: nat, begin: Option<UserKey>, end: Option<UserKey>, ghost goal: Range)
    returns (inputs: seq<Sst>, r: Range)
    requires FilesOk(fs)
    requires Closed(fs, goal) && Includes(goal, Range(begin, end))
    ensures inputs == Meeting(fs, r) && Includes(r, Range(begin, end))
    ensures level > 0 ==> r == Range(begin, end)
    ensures level == 0 ==> Closed(fs, r) && Includes(goal, r)
  {
    inputs, r := [], Range(begin, end);
    var i := 0;
    while i < |fs|
      invariant 0 <= i <= |fs|
      invariant inputs == Meeting(fs[..i], r)
      invariant Includes(r, Range(begin, end))
      invariant level == 0 ==> Includes(goal, r) && forall f :: f in inputs ==> Within(f, r)
      invariant level > 0 ==> r == Range(begin, end)
      decreases Outside(fs, r), |fs| - i
    {
      var f := fs[i];
      MeetingTake(fs, i, r);
      i := i + 1;
      if r.lo.Some? && Max(f) < r.lo.value {
      } else if r.hi.Some? && Min(f) > r.hi.value {
      } else {
        inputs := inputs + [f];
        if level == 0 {
          GrowWithin(fs, r, goal, f);
          if OutLo(f, r) {
            r, inputs, i := WidenLo(r, f), [], 0;
          } else if OutHi(f, r) {
            r, inputs, i := WidenHi(r, f), [], 0;
          }
        }
      }
    }
    assert fs[..|fs|] == fs;
  }

  method GetOverlappingInputs(fs: seq<Sst>, level: nat, begin: Option<UserKey>, end: Option<UserKey>)
    returns (inputs: seq<Sst>)
    requires FilesOk(fs)
    ensures inputs == Overlapping(fs, level, Range(begin, end))
  {
    ghost var goal := Closure(fs, Range(begin, end));
    var r;
    inputs, r := Collect(fs, level, begin, end, goal);
    if level == 0 {
      ClosureLeast(fs, Range(begin, end), r);
      IncludesAntisymmetric(goal, r);
    }
  }

  lemma MeetingTake(fs: seq<Sst>, i: nat, r: Range)
    requires i < |fs|
    ensures Meeting(fs[..i + 1], r) == if Meets(fs[i], r) then Meeting(fs[..i], r) + [fs[i]] else Meeting(fs[..i], r)
  {
    assert fs[..i + 1] == fs[..i] + [fs[i]];
    MeetingSnoc(fs[..i], fs[i], r);
  }

  lemma {:induction false} MeetingSnoc(fs: seq<Sst>, f: Sst, r: Range)
    ensures Meeting(fs + [f], r) == if Meets(f, r) then Meeting(fs, r) + [f] else Meeting(fs, r)
  {
    if fs != [] {
      assert (fs + [f])[1..] == fs[1..] + [f];
      MeetingSnoc(fs[1..], f, r);
    }
  }

  // --- The inputs of a compaction -----------------------------------------------------------

  /** GetRange: the user keys between the smallest and the largest key of the files. */
  function Hull(fs: seq<Sst>): Range
  {
    if fs == [] then Range(None, None)
    else if |fs| == 1 then RangeOf(fs[0]) else Widen(Hull(fs[..|fs| - 1]), fs[|fs| - 1])
  }

  lemma {:induction false} HullTight(fs: seq<Sst>)
    requires fs != [] && FilesOk(fs)
    ensures Hull(fs).lo.Some? && Hull(fs).hi.Some?
    ensures forall f :: f in fs ==> Within(f, Hull(fs))
    ensures exists f :: f in fs && Min(f) == Hull(fs).lo.value
    ensures exists f :: f in fs && Max(f) == Hull(fs).hi.value
  {
    var last := fs[|fs| - 1];
    if |fs| == 1 {
      assert fs[0] in fs;
    } else {
      var front := fs[..|fs| - 1];
      assert fs == front + [last];
      HullTight(front);
      var f :| f in front && Min(f) == Hull(front).lo.value;
      var g :| g in front && Max(g) == Hull(front).hi.value;
      assert last in fs && f in fs && g in fs;
    }
  }

  /** Every user key of the range lies in the range of some file: the union of the files has no gap there. */
  ghost predicate Covered(r: Range, fs: seq<Sst>)
  {
    forall u :: Inside(r, u) ==> exists f :: f in fs && Covers(f, u)
  }

  ghost predicate Bounded(r: Range) { r.lo.Some? && r.hi.Some? }

  /** Files that all meet one gap-free range have a gap-free hull. */
  lemma HullCovered(fs: seq<Sst>, r: Range, all: seq<Sst>)
    requires fs != [] && FilesOk(fs) && Bounded(r) && Covered(r, all)
    requires forall f :: f in fs ==> f in all && Meets(f, r)
    ensures Covered(Hull(fs), all)
  {
    HullTight(fs);
    var f :| f in fs && Min(f) == Hull(fs).lo.value;
    var g :| g in fs && Max(g) == Hull(fs).hi.value;
    forall u | Inside(Hull(fs), u) ensures exists h :: h in all && Covers(h, u) {
      if u < r.lo.value {
        assert Covers(f, u);
      } else if u > r.hi.value {
        assert Covers(g, u);
      } else {
        assert Inside(r, u);
      }
    }
  }

  lemma {:induction false} ClosureCovered(fs: seq<Sst>, r: Range, extra: seq<Sst>)
    requires FilesOk(fs) && Bounded(r) && Covered(r, fs + extra)
    ensures Bounded(Closure(fs, r)) && Covered(Closure(fs, r), fs + extra)
    decreases Outside(fs, r)
  {
    if !Closed(fs, r) {
      var f :| f in fs && Meets(f, r) && !Within(f, r) && Closure(fs, r) == Closure(fs, Widen(r, f));
      var w := Widen(r, f);
      assert f in fs + extra;
      forall u | Inside(w, u) ensures exists h :: h in fs + extra && Covers(h, u) {
        if Inside(r, u) {} else { assert Covers(f, u); }
      }
      OutsideShrinks(fs, r, w, f);
      ClosureCovered(fs, w, extra);
    }
  }

  /** The range whose files GetOverlappingInputs returns. */
  ghost function Reach(fs: seq<Sst>, level: nat, r: Range): (c: Range)
    ensures Includes(c, r)
  {
    if level == 0 then Closure(fs, r) else r
  }

  lemma ReachCovered(fs: seq<Sst>, level: nat, r: Range, extra: seq<Sst>)
    requires FilesOk(fs) && Bounded(r) && Covered(r, Meeting(fs, r) + extra)
    ensures Bounded(Reach(fs, level, r))
    ensures Covered(Reach(fs, level, r), Overlapping(fs, level, r) + extra)
  {
    if level == 0 {
      var c := Closure(fs, r);
      assert Covered(r, fs + extra) by {
        forall u | Inside(r, u) ensures exists f :: f in fs + extra && Covers(f, u) {
          var f :| f in Meeting(fs, r) + extra && Covers(f, u);
          assert f in fs + extra;
        }
      }
      ClosureCovered(fs, r, extra);
      forall u | Inside(c, u) ensures exists f :: f in Meeting(fs, c) + extra && Covers(f, u) {
        var f :| f in fs + extra && Covers(f, u);
        assert f in fs ==> Meets(f, c);
        assert f in Meeting(fs, c) + extra;
      }
    }
  }

  function TotalSize(fs: seq<Sst>): nat
  {
    if fs == [] then 0 else fs[0].body.size + TotalSize(fs[1..])
  }

  datatype Inputs = Inputs(upper: seq<Sst>, lower: seq<Sst>)

  /** VersionSet::SetupOtherInputs: pull in the files one level down, then widen the upper inputs if that is free. */
  ghost function OtherInputs(v: Version, level: nat, upper: seq<Sst>, limit: nat): Inputs
    requires level + 1 < |v|
  {
    var lower := Overlapping(v[level + 1], level + 1, Hull(upper));
    var expanded := Overlapping(v[level], level, Hull(upper + lower));
    if lower != [] && |expanded| > |upper| && TotalSize(lower) + TotalSize(expanded) < limit
       && |Overlapping(v[level + 1], level + 1, Hull(expanded))| == |lower|
    then Inputs(expanded, Overlapping(v[level + 1], level + 1, Hull(expanded)))
    else Inputs(upper, lower)
  }

  /** VersionSet::PickCompaction for a chosen file; the choice by score, pointer or seeks is left open. */
  ghost function PickInputs(v: Version, level: nat, f: Sst, limit: nat): Inputs
    requires level + 1 < |v|
  {
    OtherInputs(v, level, if level == 0 then Overlapping(v[0], 0, RangeOf(f)) else [f], limit)
  }

  /** What the rest of the engine relies on when it compacts these inputs. */
  ghost predicate GoodInputs(v: Version, level: nat, c: Inputs)
    requires level + 1 < |v|
  {
    && c.upper != []
    && (forall f :: f in c.upper ==> f in v[level])
    && (forall f :: f in c.lower ==> f in v[level + 1])
    && DistinctNumbers(c.upper) && DistinctNumbers(c.lower)
    // the union of the input ranges has no gap
    && Covered(Hull(c.upper + c.lower), c.upper + c.lower)
    // no other file of the output level meets that range
    && (forall g :: g in v[level + 1] && g !in c.lower ==> !Meets(g, Hull(c.upper + c.lower)))
    // no other file of the input level shares keys with an input
    && (forall x, y :: x in v[level] && x !in c.upper && y in c.upper ==> Apart(x, y))
  }

  lemma {:induction false} MeetingDistinct(fs: seq<Sst>, r: Range)
    requires DistinctNumbers(fs)
    ensures DistinctNumbers(Meeting(fs, r))
  {
    if fs != [] {
      MeetingDistinct(fs[1..], r);
      forall g | g in Meeting(fs[1..], r) ensures g.number != fs[0].number {
        var j :| 0 <= j < |fs[1..]| && fs[1..][j] == g;
        assert fs[j + 1] == g;
      }
    }
  }

  /** A filter that keeps more by its condition but not by its count keeps the same. */
  lemma {:induction false} MeetingSame(fs: seq<Sst>, r: Range, w: Range)
    requires Includes(w, r) && FilesOk(fs)
    ensures |Meeting(fs, r)| <= |Meeting(fs, w)|
    ensures |Meeting(fs, r)| == |Meeting(fs, w)| ==> Meeting(fs, r) == Meeting(fs, w)
  {
    if fs != [] {
      assert fs == [fs[0]] + fs[1..];
      MinMax(fs[0]);
      MeetingSame(fs[1..], r, w);
    }
  }

  /** Files of one level that do not share a number are apart when the level is disjoint. */
  lemma OthersApart(fs: seq<Sst>, f: Sst, g: Sst)
    requires Disjoint(fs) && f in fs && g in fs && f != g
    ensures Apart(f, g)
  {
  }

  lemma HullIncluded(fs: seq<Sst>, r: Range)
    requires fs != [] && FilesOk(fs) && Bounded(r)
    requires forall f :: f in fs ==> Within(f, r)
    ensures Includes(r, Hull(fs))
  {
    HullTight(fs);
  }

  /** A file of the output level that meets the hull would meet an input there, or the hull of the upper inputs. */
  lemma NoOtherMeets(v: Version, level: nat, c: Inputs, g: Sst)
    requires VersionOk(v) && level + 1 < NUM_LEVELS
    requires c.upper != [] && FilesOk(c.upper + c.lower)
    requires c.lower == Meeting(v[level + 1], Hull(c.upper))
    requires Covered(Hull(c.upper + c.lower), c.upper + c.lower)
    requires g in v[level + 1] && g !in c.lower
    ensures !Meets(g, Hull(c.upper + c.lower))
  {
    var h := Hull(c.upper + c.lower);
    HullTight(c.upper + c.lower);
    assert FilesOk(c.upper) by { forall f | f in c.upper ensures FileOk(f) { assert f in c.upper + c.lower; } }
    HullTight(c.upper);
    MinMax(g);
    if Meets(g, h) {
      var u := if Min(g) < h.lo.value then h.lo.value else Min(g);
      assert h.lo.value <= h.hi.value by { assert c.upper[0] in c.upper + c.lower; MinMax(c.upper[0]); }
      assert Inside(h, u) && Covers(g, u);
      var y :| y in c.upper + c.lower && Covers(y, u);
      if y !in c.upper { OthersApart(v[level + 1], y, g); }
      assert false;
    }
  }

  lemma GoodFrom(v: Version, level: nat, upper: seq<Sst>, r: Range)
    requires VersionOk(v) && level + 1 < NUM_LEVELS
    requires upper != [] && DistinctNumbers(upper) && forall f :: f in upper ==> f in v[level] && Meets(f, r)
    requires forall x, y :: x in v[level] && x !in upper && y in upper ==> Apart(x, y)
    requires Bounded(r) && Covered(r, upper + Meeting(v[level + 1], Hull(upper)))
    requires forall g :: g in Meeting(v[level + 1], Hull(upper)) ==> Meets(g, r)
    ensures GoodInputs(v, level, Inputs(upper, Meeting(v[level + 1], Hull(upper))))
  {
    var lower := Meeting(v[level + 1], Hull(upper));
    var all := upper + lower;
    assert FilesOk(all) by {
      forall f | f in all ensures FileOk(f) { assert f in v[level] || f in v[level + 1]; }
    }
    MeetingDistinct(v[level + 1], Hull(upper));
    HullCovered(all, r, all);
    forall g | g in v[level + 1] && g !in lower ensures !Meets(g, Hull(all)) {
      NoOtherMeets(v, level, Inputs(upper, lower), g);
    }
  }

  /** The files GetOverlappingInputs returns at the input level share no keys with the files it leaves behind. */
  lemma ReachApart(v: Version, level: nat, r: Range)
    requires VersionOk(v) && level < NUM_LEVELS
    ensures forall x, y :: x in v[level] && x !in Overlapping(v[level], level, r) && y in Overlapping(v[level], level, r) ==> Apart(x, y)
  {
    var fs, c := v[level], Reach(v[level], level, r);
    forall x, y | x in fs && x !in Meeting(fs, c) && y in Meeting(fs, c) ensures Apart(x, y) {
      if level > 0 {
        OthersApart(fs, x, y);
      } else {
        assert Within(y, c) && !Meets(x, c);
        MinMax(x);
        MinMax(y);
      }
    }
  }

  lemma CoveredBySuper(r: Range, a: seq<Sst>, b: seq<Sst>)
    requires Covered(r, a) && forall f :: f in a ==> f in b
    ensures Covered(r, b)
  {
    forall u | Inside(r, u) ensures exists f :: f in b && Covers(f, u) {
      var f :| f in a && Covers(f, u);
    }
  }

  /** The first upper inputs: one file, or in level 0 everything it drags in. */
  lemma SeedGood(v: Version, level: nat, f: Sst)
    requires VersionOk(v) && level + 1 < NUM_LEVELS && f in v[level]
    ensures
      var upper := if level == 0 then Overlapping(v[0], 0, RangeOf(f)) else [f];
      f in upper && GoodInputs(v, level, Inputs(upper, Meeting(v[level + 1], Hull(upper))))
  {
    var r := RangeOf(f);
    MinMax(f);
    assert f in Meeting(v[level], r);
    assert f in Meeting(v[level], r) + [];
    assert Covered(r, Meeting(v[level], r) + []);
    var c := Reach(v[level], level, r);
    var upper := if level == 0 then Overlapping(v[0], 0, r) else [f];
    var lower := Meeting(v[level + 1], Hull(upper));
    ReachCovered(v[level], level, r, []);
    if level == 0 {
      MeetingDistinct(v[0], c);
      ReachApart(v, 0, r);
      assert forall y :: y in upper ==> Within(y, c) && y in v[0];
      CoveredBySuper(c, upper + [], upper + lower);
    } else {
      forall x | x in v[level] && x !in upper ensures Apart(x, f) { OthersApart(v[level], x, f); }
      assert forall u :: Inside(c, u) ==> f in upper + lower && Covers(f, u);
    }
    HullIncluded(upper, c);
    forall g | g in lower ensures Meets(g, c) {}
    GoodFrom(v, level, upper, c);
  }

  lemma AllMeet(v: Version, level: nat, c: Inputs)
    requires VersionOk(v) && level + 1 < NUM_LEVELS && c.upper != []
    requires forall f :: f in c.upper ==> f in v[level]
    requires forall f :: f in c.lower ==> f in v[level + 1]
    ensures FilesOk(c.upper + c.lower) && Bounded(Hull(c.upper + c.lower))
    ensures forall g :: g in c.upper + c.lower ==> Meets(g, Hull(c.upper + c.lower))
  {
    var all := c.upper + c.lower;
    forall g | g in all ensures FileOk(g) { assert g in v[level] || g in v[level + 1]; }
    HullTight(all);
    forall g | g in all ensures Meets(g, Hull(all)) { MinMax(g); }
  }

  /** Widening the upper inputs over the whole range keeps the inputs good if the lower inputs stay the same. */
  lemma ExpandGood(v: Version, level: nat, c: Inputs)
    requires VersionOk(v) && level + 1 < NUM_LEVELS && GoodInputs(v, level, c)
    requires c.lower == Meeting(v[level + 1], Hull(Overlapping(v[level], level, Hull(c.upper + c.lower))))
    ensures GoodInputs(v, level, Inputs(Overlapping(v[level], level, Hull(c.upper + c.lower)), c.lower))
    ensures forall g :: g in c.upper ==> g in Overlapping(v[level], level, Hull(c.upper + c.lower))
  {
    var all, r := c.upper + c.lower, Hull(c.upper + c.lower);
    AllMeet(v, level, c);
    var reach, expanded := Reach(v[level], level, r), Overlapping(v[level], level, r);
    assert forall g :: g in all ==> Meets(g, reach);
    assert c.upper[0] in all && c.upper[0] in expanded;
    assert Covered(reach, expanded + c.lower) && Bounded(reach) by {
      CoveredBySuper(r, all, Meeting(v[level], r) + c.lower);
      ReachCovered(v[level], level, r, c.lower);
    }
    MeetingDistinct(v[level], reach);
    ReachApart(v, level, r);
    GoodFrom(v, level, expanded, reach);
  }

  lemma PickInputsGood(v: Version, level: nat, f: Sst, limit: nat)
    requires VersionOk(v) && level + 1 < NUM_LEVELS && f in v[level]
    ensures GoodInputs(v, level, PickInputs(v, level, f, limit))
    ensures f in PickInputs(v, level, f, limit).upper
  {
    SeedGood(v, level, f);
    var upper := if level == 0 then Overlapping(v[0], 0, RangeOf(f)) else [f];
    var lower := Meeting(v[level + 1], Hull(upper));
    if PickInputs(v, level, f, limit) != Inputs(upper, lower) {
      var expanded := Overlapping(v[level], level, Hull(upper + lower));
      ExpandedSame(v, level, Inputs(upper, lower), expanded);
      ExpandGood(v, level, Inputs(upper, lower));
    }
  }

  lemma ExpandedSame(v: Version, level: nat, c: Inputs, expanded: seq<Sst>)
    requires VersionOk(v) && level + 1 < NUM_LEVELS && GoodInputs(v, level, c) && c.lower == Meeting(v[level + 1], Hull(c.upper))
    requires expanded == Overlapping(v[level], level, Hull(c.upper + c.lower))
    requires |Meeting(v[level + 1], Hull(expanded))| == |c.lower|
    ensures Meeting(v[level + 1], Hull(expanded)) == c.lower
  {
    var all := c.upper + c.lower;
    assert FilesOk(all) by { forall g | g in all ensures FileOk(g) { assert g in v[level] || g in v[level + 1]; } }
    assert FilesOk(c.upper) by { forall g | g in c.upper ensures FileOk(g) { assert g in all; } }
    HullTight(all);
    forall g | g in c.upper ensures g in expanded { assert g in all; MinMax(g); }
    assert c.upper[0] in expanded;
    HullTight(c.upper);
    HullTight(expanded);
    MeetingSame(v[level + 1], Hull(c.upper), Hull(expanded));
  }

  // --- The level of a flushed memtable ------------------------------------------------------

  const MAX_MEM_COMPACT_LEVEL := 2

  ghost predicate SomeMeets(fs: seq<Sst>, r: Range)
  {
    exists f :: f in fs && Meets(f, r)
  }

  /** The loop of PickLevelForMemTableOutput, from a level that has no overlap. */
  ghost function Climb(v: Version, r: Range, limit: nat, level: nat): (l: nat)
    requires |v| == NUM_LEVELS && level <= MAX_MEM_COMPACT_LEVEL
    ensures level <= l <= MAX_MEM_COMPACT_LEVEL
    ensures forall k :: level < k <= l ==> !SomeMeets(v[k], r)
    decreases MAX_MEM_COMPACT_LEVEL - level
  {
    if level == MAX_MEM_COMPACT_LEVEL || SomeMeets(v[level + 1], r)
       || TotalSize(Overlapping(v[level + 2], level + 2, r)) > limit then level
    else Climb(v, r, limit, level + 1)
  }

  /** Version::PickLevelForMemTableOutput: a flush below level 0 meets no file from level 0 down to its own. */
  ghost function PickLevel(v: Version, r: Range, limit: nat): (l: nat)
    requires |v| == NUM_LEVELS
    ensures l <= MAX_MEM_COMPACT_LEVEL
    ensures l > 0 ==> forall k :: 0 <= k <= l ==> !SomeMeets(v[k], r)
  {
    if SomeMeets(v[0], r) then 0 else Climb(v, r, limit, 0)
  }

  // --- The same searches as loops -----------------------------------------------------------

  /** Binary search; the result is the first file whose largest key is at or after the target. */
  method FindFileIndex(fs: seq<Sst>, target: IKey) returns (right: nat)
    requires forall i, j :: 0 <= i < j < |fs| ==> Before(Largest(fs[i]), Largest(fs[j]))
    ensures right == FindFile(fs, target)
  {
    var left := 0;
    right := |fs|;
    while left < right
      invariant 0 <= left <= right <= |fs|
      invariant forall i :: 0 <= i < left ==> Before(Largest(fs[i]), target)
      invariant forall i :: right <= i < |fs| ==> !Before(Largest(fs[i]), target)
    {
      var mid := (left + right) / 2;
      if Before(Largest(fs[mid]), target) {
        left := mid + 1;
      } else {
        right := mid;
      }
    }
    FindFileUnique(fs, target, right);
  }

  lemma LargestIncrease(fs: seq<Sst>)
    requires FilesOk(fs) && KeyDisjoint(fs)
    ensures forall i, j :: 0 <= i < j < |fs| ==> Before(Largest(fs[i]), Largest(fs[j]))
  {
    forall i, j | 0 <= i < j < |fs| ensures Before(Largest(fs[i]), Largest(fs[j])) {
      assert fs[j] in fs;
      AtOrBeforeLargest(fs[j], fs[j].body.entries[0]);
    }
  }

  /** The linear scan of level 0 and the binary search of the sorted levels decide the same question. */
  method SomeFileOverlapsRange(disjointSorted: bool, fs: seq<Sst>, r: Range) returns (overlap: bool)
    requires FilesOk(fs)
    requires disjointSorted ==> KeyDisjoint(fs)
    requires forall f :: f in fs ==> Largest(f).sequence <= MAX_SEQUENCE
    ensures overlap <==> SomeMeets(fs, r)
  {
    if !disjointSorted {
      for i := 0 to |fs|
        invariant forall j :: 0 <= j < i ==> !Meets(fs[j], r)
      {
        if Meets(fs[i], r) {
          assert fs[i] in fs;
          return true;
        }
      }
      return false;
    }
    var index := 0;
    if r.lo.Some? {
      LargestIncrease(fs);
      index := FindFileIndex(fs, Target(r.lo.value, MAX_SEQUENCE));
    }
    assert forall j :: 0 <= j < index ==> r.lo.Some? && Max(fs[j]) < r.lo.value by {
      forall j | 0 <= j < index ensures r.lo.Some? && Max(fs[j]) < r.lo.value { assert fs[j] in fs; }
    }
    if index >= |fs| {
      return false;
    }
    overlap := !(r.hi.Some? && r.hi.value < Min(fs[index]));
    assert fs[index] in fs;
    assert r.lo.Some? ==> r.lo.value <= Max(fs[index]);
    forall j | index < j < |fs| ensures Min(fs[index]) <= Min(fs[j]) {
      MinMax(fs[index]);
      assert Ahead(Largest(fs[index]), fs[j].smallest);
    }
    assert overlap <==> Meets(fs[index], r);
  }

  method SumSizes(fs: seq<Sst>) returns (sum: nat)
    ensures sum == TotalSize(fs)
  {
    sum := 0;
    for i := 0 to |fs|
      invariant sum + TotalSize(fs[i..]) == TotalSize(fs)
    {
      sum := sum + fs[i].body.size;
    }
  }

  method PickLevelForMemTableOutput(v: Version, smallest: UserKey, largest: UserKey, limit: nat) returns (level: nat)
    requires SortedLevels(v)
    requires forall l, f :: 0 <= l < |v| && f in v[l] ==> Largest(f).sequence <= MAX_SEQUENCE
    ensures level == PickLevel(v, Range(Some(smallest), Some(largest)), limit)
  {
    var r := Range(Some(smallest), Some(largest));
    level := 0;
    var overlap := SomeFileOverlapsRange(false, v[0], r);
    if !overlap {
      while level < MAX_MEM_COMPACT_LEVEL
        invariant level <= MAX_MEM_COMPACT_LEVEL
        invariant Climb(v, r, limit, 0) == Climb(v, r, limit, level)
      {
        overlap := SomeFileOverlapsRange(true, v[level + 1], r);
        if overlap { break; }
        var overlaps := GetOverlappingInputs(v[level + 2], level + 2, r.lo, r.hi);
        var sum := SumSizes(overlaps);
        if sum > limit { break; }
        level := level + 1;
      }
    }
  }
}
