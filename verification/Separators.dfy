/**
 FindShortestSeparator and FindShortSuccessor of the bytewise comparator.
 */
module Separators {
  import opened Bytes

  /** A string that is larger at its first difference is larger. */
  lemma FirstDifference(p: Bytes, a: Bytes, b: Bytes)
    requires a != [] && b != [] && a[0] < b[0]
    ensures Less(p + a, p + b)
  {
    LessSamePrefix(p, a, b);
  }

  /** The length of the common prefix. */
  function Common(a: Bytes, b: Bytes): (d: nat)
    ensures d <= |a| && d <= |b|
  {
    if a == [] || b == [] || a[0] != b[0] then 0 else 1 + Common(a[1..], b[1..])
  }

  lemma {:induction false} CommonIs(a: Bytes, b: Bytes, d: nat)
    requires d <= |a| && d <= |b| && a[..d] == b[..d] && (d < |a| && d < |b| ==> a[d] != b[d])
    ensures Common(a, b) == d
  {
    if d > 0 {
      assert a[0] == a[..d][0] == b[..d][0];
      assert a[1..][..d - 1] == a[..d][1..] && b[1..][..d - 1] == b[..d][1..];
      CommonIs(a[1..], b[1..], d - 1);
    }
  }

  lemma {:induction false} CommonPrefix(a: Bytes, b: Bytes)
    ensures a[..Common(a, b)] == b[..Common(a, b)]
    ensures Common(a, b) < |a| && Common(a, b) < |b| ==> a[Common(a, b)] != b[Common(a, b)]
  {
    if a != [] && b != [] && a[0] == b[0] {
      CommonPrefix(a[1..], b[1..]);
      var d := Common(a[1..], b[1..]);
      assert a[..d + 1] == [a[0]] + a[1..][..d] && b[..d + 1] == [b[0]] + b[1..][..d];
    }
  }

  /** FindShortestSeparator: the byte at the first difference is increased, if that stays below the limit's. */
  function ShortestSeparator(start: Bytes, limit: Bytes): Bytes
  {
    var d := Common(start, limit);
    if d < |start| && d < |limit| && start[d] < 255 && start[d] + 1 < limit[d] then start[..d] + [start[d] + 1] else start
  }

  /** FindShortSuccessor: the first byte that is not 255 is increased and ends the string. */
  function ShortSuccessor(key: Bytes): Bytes
  {
    if key == [] then []
    else if key[0] != 255 then [key[0] + 1]
    else [255] + ShortSuccessor(key[1..])
  }

  /** An unchanged start, or a string strictly between start and limit that is no longer. */
  lemma SeparatorBetween(start: Bytes, limit: Bytes)
    ensures
      var r := ShortestSeparator(start, limit);
      && (r == start || (|r| <= |start| && Less(start, r) && Less(r, limit)))
      && (Less(start, limit) ==> !Less(r, start) && Less(r, limit))
      && (!Less(start, limit) ==> r == start)
  {
    var d, r := Common(start, limit), ShortestSeparator(start, limit);
    LessTotal(start, start);
    if r != start {
      CommonPrefix(start, limit);
      assert start == start[..d] + start[d..] && limit == start[..d] + limit[d..];
      FirstDifference(start[..d], start[d..], [start[d] + 1]);
      FirstDifference(start[..d], [start[d] + 1], limit[d..]);
      LessTotal(start, r);
      LessTransitive(start, r, limit);
    }
  }

  /** An unchanged key of bytes 255, or a string after it that is no longer. */
  lemma {:induction false} SuccessorAfter(key: Bytes)
    ensures
      var r := ShortSuccessor(key);
      && (r == key || (|r| <= |key| && Less(key, r)))
      && (r == key <==> forall i :: 0 <= i < |key| ==> key[i] == 255)
  {
    if key != [] && key[0] == 255 {
      SuccessorAfter(key[1..]);
      assert key == [255] + key[1..];
      var r := ShortSuccessor(key);
      assert r[1..] == ShortSuccessor(key[1..]);
      assert (forall i :: 0 <= i < |key| ==> key[i] == 255) <==> (forall i :: 0 <= i < |key[1..]| ==> key[1..][i] == 255) by {
        if forall i :: 0 <= i < |key[1..]| ==> key[1..][i] == 255 {
          forall i | 0 <= i < |key| ensures key[i] == 255 { if i > 0 { assert key[i] == key[1..][i - 1]; } }
        }
      }
    } else if key != [] {
      assert key[0] != 255;
    }
  }

  method FindShortestSeparator(start: Bytes, limit: Bytes) returns (r: Bytes)
    ensures r == ShortestSeparator(start, limit)
  {
    var minLength := if |start| < |limit| then |start| else |limit|;
    var d := 0;
    while d < minLength && start[d] == limit[d]
      invariant d <= minLength && start[..d] == limit[..d]
    {
      d := d + 1;
    }
    CommonIs(start, limit, d);
    if d >= minLength {
      return start;
    }
    var byte := start[d];
    if byte < 255 && byte + 1 < limit[d] {
      return start[..d] + [byte + 1];
    }
    return start;
  }

  lemma SuccessorTurn(key: Bytes, i: nat)
    requires i < |key| && key[i] == 255
    ensures key[..i] + ShortSuccessor(key[i..]) == key[..i + 1] + ShortSuccessor(key[i + 1..])
  {
    assert key[i..][1..] == key[i + 1..] && key[..i + 1] == key[..i] + [255];
    assert key[..i] + ([255] + ShortSuccessor(key[i + 1..])) == key[..i] + [255] + ShortSuccessor(key[i + 1..]);
  }

  method FindShortSuccessor(key: Bytes) returns (r: Bytes)
    ensures r == ShortSuccessor(key)
  {
    for i := 0 to |key|
      invariant forall j :: 0 <= j < i ==> key[j] == 255
      invariant ShortSuccessor(key) == key[..i] + ShortSuccessor(key[i..])
    {
      var byte := key[i];
      if byte != 255 {
        return key[..i] + [byte + 1];
      }
      SuccessorTurn(key, i);
    }
    assert key[..|key|] + [] == key;
    return key;
  }
}
