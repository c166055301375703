/**
 WriteBatch: a byte string of puts and deletes behind a header with sequence number and count.
 */
module WriteBatch {
  import opened Bytes
  import opened Keys
  import opened Coding
  import opened EditCodec

  datatype Op = Put(key: Bytes, value: Bytes) | Delete(key: Bytes)

  const HEADER: nat := 12

  /** A count is read back as an int. */
  const MAX_COUNT: nat := 0x7fff_ffff

  ghost predicate OpFits(op: Op)
  {
    |op.key| < WORD32 && (op.Put? ==> |op.value| < WORD32)
  }

  /** The bytes of an operation, in front of what follows it. */
  function OpBytes(op: Op, rest: Bytes): Bytes
  {
    match op
    case Put(key, value) => [1] + (Prefixed(key) + (Prefixed(value) + rest))
    case Delete(key) => [0] + (Prefixed(key) + rest)
  }

  function Records(ops: seq<Op>): Bytes
  {
    if ops == [] then [] else OpBytes(ops[0], Records(ops[1..]))
  }

  function Rep(sequence: nat, ops: seq<Op>): Bytes
  {
    Fixed(8, sequence) + Fixed(4, |ops|) + Records(ops)
  }

  // --- Reading ------------------------------------------------------------------------------

  function GetOp(s: Bytes): (r: Option<Got<Op>>)
    requires s != []
    ensures r.Some? ==> |r.value.rest| < |s|
  {
    if s[0] == 1 then
      match GetSlice(s[1..])
      case None => None
      case Some(k) => match GetSlice(k.rest) case None => None case Some(v) => Some(Got(Put(k.value, v.value), v.rest))
    else if s[0] == 0 then
      match GetSlice(s[1..]) case None => None case Some(k) => Some(Got(Delete(k.value), k.rest))
    else None
  }

  /** The operations handed to the handler, and whether all of the input could be read. */
  datatype Handed = Handed(ops: seq<Op>, ok: bool)

  function Handled(s: Bytes): Handed
    decreases |s|
  {
    if s == [] then Handed([], true)
    else
      match GetOp(s)
      case None => Handed([], false)
      case Some(g) => var more := Handled(g.rest); Handed([g.value] + more.ops, more.ok)
  }

  /** Iterate: the handler also sees what precedes an error; the count is compared at the end. */
  function Iterated(rep: Bytes): Handed
  {
    if |rep| < HEADER then Handed([], false)
    else
      var h := Handled(rep[HEADER..]);
      Handed(h.ops, h.ok && |h.ops| == Number(rep[8..HEADER]))
  }

  lemma GotOp(op: Op, rest: Bytes)
    requires OpFits(op)
    ensures OpBytes(op, rest) != [] && GetOp(OpBytes(op, rest)) == Some(Got(op, rest))
  {
    var s := OpBytes(op, rest);
    match op {
      case Put(key, value) =>
        assert s[1..] == Prefixed(key) + (Prefixed(value) + rest);
        GotSlice(key, Prefixed(value) + rest);
        GotSlice(value, rest);
      case Delete(key) =>
        assert s[1..] == Prefixed(key) + rest;
        GotSlice(key, rest);
    }
  }

  lemma {:induction false} HandledBack(ops: seq<Op>)
    requires forall op :: op in ops ==> OpFits(op)
    ensures Handled(Records(ops)) == Handed(ops, true)
  {
    if ops != [] {
      assert ops[0] in ops;
      HandledBack(ops[1..]);
      GotOp(ops[0], Records(ops[1..]));
      HandledNext(OpBytes(ops[0], Records(ops[1..])), ops[0], Records(ops[1..]));
      assert ops == [ops[0]] + ops[1..];
    }
  }

  lemma HandledNext(s: Bytes, op: Op, rest: Bytes)
    requires s != [] && GetOp(s) == Some(Got(op, rest))
    ensures Handled(s) == Handed([op] + Handled(rest).ops, Handled(rest).ok)
  {
  }

  lemma RepParts(sequence: nat, ops: seq<Op>)
    requires sequence < WORD64 && |ops| <= MAX_COUNT
    ensures
      var rep := Rep(sequence, ops);
      |rep| >= HEADER && rep[HEADER..] == Records(ops) && Number(rep[..8]) == sequence && Number(rep[8..HEADER]) == |ops|
  {
    HeadParts(Fixed(8, sequence), Fixed(4, |ops|), Records(ops));
    Words();
    NumberOfFixed(8, sequence);
    NumberOfFixed(4, |ops|);
  }

  lemma SequencePart(a: Bytes, a': Bytes, b: Bytes, c: Bytes)
    requires |a| == 8
    ensures |a + b + c| >= 8 && a' + (a + b + c)[8..] == a' + b + c
  {
  }

  lemma HeadParts(a: Bytes, b: Bytes, c: Bytes)
    requires |a| == 8 && |b| == 4
    ensures (a + b + c)[..8] == a && (a + b + c)[8..HEADER] == b && (a + b + c)[HEADER..] == c
  {
  }

  /** A batch hands its operations to the handler, in order and without error. */
  lemma IterateInverts(sequence: nat, ops: seq<Op>)
    requires sequence < WORD64 && |ops| <= MAX_COUNT && forall op :: op in ops ==> OpFits(op)
    ensures Iterated(Rep(sequence, ops)) == Handed(ops, true)
  {
    RepParts(sequence, ops);
    HandledBack(ops);
  }

  lemma {:induction false} RecordsConcat(a: seq<Op>, b: seq<Op>)
    ensures Records(a + b) == Records(a) + Records(b)
    decreases |a|
  {
    if a == [] {
      assert a + b == b;
    } else {
      assert (a + b)[1..] == a[1..] + b;
      RecordsConcat(a[1..], b);
      OpOnto(a[0], Records(a[1..]), Records(b));
    }
  }

  lemma OpOnto(op: Op, a: Bytes, b: Bytes)
    ensures OpBytes(op, a + b) == OpBytes(op, a) + b
  {
  }

  // --- The batch ----------------------------------------------------------------------------

  class WriteBatch {
    var rep: Bytes
    ghost var sequence: nat
    ghost var ops: seq<Op>

    ghost predicate Valid()
      reads this
    {
      sequence < WORD64 && |ops| <= MAX_COUNT && rep == Rep(sequence, ops)
    }

    constructor ()
      ensures Valid() && ops == [] && sequence == 0
    {
      rep := seq(HEADER, _ => 0);
      sequence, ops := 0, [];
      new;
      EmptyRep();
    }

    method Clear()
      modifies this
      ensures Valid() && ops == [] && sequence == 0
    {
      rep := seq(HEADER, _ => 0);
      sequence, ops := 0, [];
      EmptyRep();
    }

    function Count(): (n: nat)
      requires Valid()
      reads this
      ensures n == |ops|
    {
      RepParts(sequence, ops);
      Number(rep[8..HEADER])
    }

    function Sequence(): (n: nat)
      requires Valid()
      reads this
      ensures n == sequence
    {
      RepParts(sequence, ops);
      Number(rep[..8])
    }

    method SetSequence(s: nat)
      requires Valid() && s < WORD64
      modifies this
      ensures Valid() && sequence == s && ops == old(ops)
    {
      SequencePart(Fixed(8, sequence), Fixed(8, s), Fixed(4, |ops|), Records(ops));
      rep := Fixed(8, s) + rep[8..];
      sequence := s;
    }

    /** SetCount and the append that Put, Delete and Append make. */
    method AppendRecords(n: nat, bytes: Bytes, ghost more: seq<Op>)
      requires Valid() && n == |ops| + |more| <= MAX_COUNT && bytes == Records(more)
      modifies this
      ensures Valid() && ops == old(ops) + more && sequence == old(sequence)
    {
      RepParts(sequence, ops);
      HeadParts(Fixed(8, sequence), Fixed(4, |ops|), Records(ops));
      rep := rep[..8] + Fixed(4, n) + rep[HEADER..];
      rep := rep + bytes;
      RecordsConcat(ops, more);
      Assoc(Fixed(8, sequence) + Fixed(4, n), Records(ops), Records(more));
      ops := ops + more;
    }

    method PutOp(key: Bytes, value: Bytes)
      requires Valid() && |ops| < MAX_COUNT
      modifies this
      ensures Valid() && ops == old(ops) + [Put(key, value)] && sequence == old(sequence)
    {
      var count := Count();
      ghost var op := Put(key, value);
      assert [op][1..] == [];
      Spelled(key, value);
      AppendRecords(count + 1, [1] + Prefixed(key) + Prefixed(value), [op]);
    }

    method DeleteOp(key: Bytes)
      requires Valid() && |ops| < MAX_COUNT
      modifies this
      ensures Valid() && ops == old(ops) + [Delete(key)] && sequence == old(sequence)
    {
      var count := Count();
      ghost var op := Delete(key);
      assert [op][1..] == [];
      assert [0] + Prefixed(key) == [0] + (Prefixed(key) + []);
      AppendRecords(count + 1, [0] + Prefixed(key), [op]);
    }

    /** WriteBatchInternal::Append. */
    method Append(src: WriteBatch)
      requires Valid() && src.Valid() && src != this && |ops| + |src.ops| <= MAX_COUNT
      modifies this
      ensures Valid() && ops == old(ops) + src.ops && sequence == old(sequence)
    {
      RepParts(src.sequence, src.ops);
      AppendRecords(Count() + src.Count(), src.rep[HEADER..], src.ops);
    }
  }

  lemma Spelled(key: Bytes, value: Bytes)
    ensures [1] + Prefixed(key) + Prefixed(value) == [1] + (Prefixed(key) + (Prefixed(value) + []))
  {
  }

  lemma EmptyRep()
    ensures seq(HEADER, _ => 0) == Rep(0, [])
  {
  }

  /** The entries that MemTableInserter adds: consecutive sequence numbers from the batch's own. */
  function Sequenced(ops: seq<Op>, first: nat): (r: seq<(nat, Op)>)
    ensures |r| == |ops| && forall i :: 0 <= i < |r| ==> r[i] == (first + i, ops[i])
  {
    seq(|ops|, i requires 0 <= i < |ops| => (first + i, ops[i]))
  }

  /** The loop of Iterate: what it hands to the handler, one call after the other. */
  method Iterate(data: Bytes) returns (h: Handed)
    ensures h == Handled(data)
  {
    var input, seen := data, [];
    while input != []
      invariant Handled(data) == Handed(seen + Handled(input).ops, Handled(input).ok)
      decreases |input|
    {
      var g := GetOp(input);
      if g.None? {
        HandedLast(seen, input);
        return Handed(seen, false);
      }
      HandedTurn(seen, input, g.value);
      seen := seen + [g.value.value];
      input := g.value.rest;
    }
    HandedLast(seen, input);
    h := Handed(seen, true);
  }

  /** MemTableInserter: each call adds an entry and moves to the next sequence number. */
  method AddToMemTable(ops: seq<Op>, first: nat, mem: seq<(nat, Op)>) returns (r: seq<(nat, Op)>)
    ensures r == mem + Sequenced(ops, first)
  {
    r := mem;
    var sequence := first;
    assert mem + Sequenced(ops[..0], first) == mem;
    for i := 0 to |ops|
      invariant sequence == first + i && r == mem + Sequenced(ops[..i], first)
    {
      assert ops[..i + 1] == ops[..i] + [ops[i]];
      InsertedOne(mem, ops[..i], ops[i], first);
      r := r + [(sequence, ops[i])];
      sequence := sequence + 1;
    }
    assert ops[..|ops|] == ops;
  }

  /** InsertInto. */
  method InsertInto(rep: Bytes, mem: seq<(nat, Op)>) returns (r: seq<(nat, Op)>, ok: bool)
    requires |rep| >= HEADER
    ensures r == mem + Sequenced(Iterated(rep).ops, Number(rep[..8])) && ok == Iterated(rep).ok
  {
    var h := Iterate(rep[HEADER..]);
    r := AddToMemTable(h.ops, Number(rep[..8]), mem);
    ok := h.ok && |h.ops| == Number(rep[8..HEADER]);
  }

  lemma HandedLast(seen: seq<Op>, input: Bytes)
    requires input == [] || GetOp(input).None?
    ensures Handed(seen + Handled(input).ops, Handled(input).ok) == Handed(seen, input == [])
  {
  }

  lemma HandedTurn(seen: seq<Op>, input: Bytes, g: Got<Op>)
    requires input != [] && GetOp(input) == Some(g)
    ensures Handed(seen + Handled(input).ops, Handled(input).ok) ==
      Handed(seen + [g.value] + Handled(g.rest).ops, Handled(g.rest).ok)
  {
  }

  lemma InsertedOne(mem: seq<(nat, Op)>, ops: seq<Op>, op: Op, first: nat)
    ensures mem + Sequenced(ops, first) + [(first + |ops|, op)] == mem + Sequenced(ops + [op], first)
  {
  }
}
