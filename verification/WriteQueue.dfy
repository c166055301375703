/**
 The queue of writers in DBImpl::Write: the writer at its front writes for a group and marks the group done.
 A step ends where the mutex is released, or where the unlocked insertion adds one entry.
 */
module WriteQueue {
  import opened Bytes
  import opened Keys
  import opened WriteBatch

  /** A waiting writer; a NULL batch asks for a memtable switch. size is the byte size of the batch. */
  datatype Writer = Writer(id: nat, batch: Option<seq<Op>>, size: nat, sync: bool)

  /** The operations of some writers, in queue order. */
  function OpsOf(ws: seq<Writer>): seq<Op>
  {
    if ws == [] then []
    else
      var last := ws[|ws| - 1];
      OpsOf(ws[..|ws| - 1]) + if last.batch.Some? then last.batch.value else []
  }

  lemma {:induction false} OpsConcat(a: seq<Writer>, b: seq<Writer>)
    ensures OpsOf(a + b) == OpsOf(a) + OpsOf(b)
  {
    if b == [] {
      assert a + b == a;
    } else {
      var n := |b| - 1;
      assert (a + b)[..|a + b| - 1] == a + b[..n];
      OpsConcat(a, b[..n]);
    }
  }

  // --- Choosing a group ---------------------------------------------------------------------

  function MaxSize(first: nat): nat
  {
    if first <= 0x2_0000 then first + 0x2_0000 else 0x10_0000
  }

  /** The summed batch sizes of the first k writers. */
  function SizeOf(ws: seq<Writer>, k: nat): nat
    requires k <= |ws|
  {
    if k == 0 then 0 else SizeOf(ws, k - 1) + if ws[k - 1].batch.Some? then ws[k - 1].size else 0
  }

  /** Whether the writer at position i still joins the group. */
  ghost predicate Joins(ws: seq<Writer>, i: nat)
    requires 0 < i < |ws|
  {
    && !(ws[i].sync && !ws[0].sync)
    && (ws[i].batch.Some? ==> SizeOf(ws, i + 1) <= MaxSize(ws[0].size))
  }

  /** BuildBatchGroup: the longest run of joining writers, and their batches put together. */
  method BuildBatchGroup(queue: seq<Writer>) returns (k: nat, updates: seq<Op>)
    requires queue != [] && queue[0].batch.Some?
    ensures 1 <= k <= |queue| && updates == OpsOf(queue[..k])
    ensures (forall i :: 0 < i < k ==> Joins(queue, i)) && (k < |queue| ==> !Joins(queue, k))
  {
    var size := queue[0].size;
    var maxSize := MaxSize(size);
    updates := queue[0].batch.value;
    k := 1;
    assert queue[..1][..0] == [] && SizeOf(queue, 1) == size;
    while k < |queue|
      invariant 1 <= k <= |queue| && size == SizeOf(queue, k) && updates == OpsOf(queue[..k])
      invariant forall i :: 0 < i < k ==> Joins(queue, i)
    {
      var w := queue[k];
      if w.sync && !queue[0].sync {
        break;
      }
      assert queue[..k + 1][..k] == queue[..k];
      if w.batch.Some? {
        size := size + w.size;
        if size > maxSize {
          break;
        }
        updates := updates + w.batch.value;
      }
      k := k + 1;
    }
  }

  // --- Popping a group ----------------------------------------------------------------------

  function Ids(ws: seq<Writer>): (r: seq<nat>)
    ensures |r| == |ws| && forall i :: 0 <= i < |r| ==> r[i] == ws[i].id
  {
    seq(|ws|, i requires 0 <= i < |ws| => ws[i].id)
  }

  ghost predicate DistinctIds(ws: seq<Writer>)
  {
    forall i, j :: 0 <= i < j < |ws| ==> ws[i].id != ws[j].id
  }

  /** The queue, the writers popped from it and the writers marked done. */
  datatype Popped = Popped(queue: seq<Writer>, popped: seq<Writer>, done: seq<nat>)

  /** One turn of the loop: pop the front writer and mark it done unless it is w. */
  function PopFront(p: Popped, w: nat): Popped
    requires p.queue != []
  {
    var ready := p.queue[0];
    Popped(p.queue[1..], p.popped + [ready], if ready.id != w then p.done + [ready.id] else p.done)
  }

  /** The loop at the end of Write: writer w pops writers until it has popped the last writer of its group. */
  function PopUntil(p: Popped, w: nat, last: nat): Popped
    decreases |p.queue|
  {
    if p.queue == [] then p
    else if p.queue[0].id == last then PopFront(p, w)
    else PopUntil(PopFront(p, w), w, last)
  }

  /** Behind the front writer, the loop pops exactly the writers up to the last and marks every one of them done. */
  lemma {:induction false} PopRest(group: seq<Writer>, rest: seq<Writer>, popped: seq<Writer>, done: seq<nat>, w: nat, last: nat)
    requires group != [] && group[|group| - 1].id == last
    requires forall i :: 0 <= i < |group| ==> group[i].id != w && (i < |group| - 1 ==> group[i].id != last)
    ensures PopUntil(Popped(group + rest, popped, done), w, last) == Popped(rest, popped + group, done + Ids(group))
  {
    var g, tail := group[0], group[1..];
    assert [g] + tail == group;
    PopTurn(g, tail, rest, popped, done, w, last);
    if tail == [] {
      assert [] + rest == rest;
    } else {
      PopRest(tail, rest, popped + [g], done + [g.id], w, last);
      Shift(popped, g, tail);
      Shift(done, g.id, Ids(tail));
      IdsCons(g, tail);
    }
  }

  lemma IdsCons(g: Writer, tail: seq<Writer>)
    ensures Ids([g] + tail) == [g.id] + Ids(tail)
  {
  }

  lemma PopTurn(g: Writer, tail: seq<Writer>, rest: seq<Writer>, popped: seq<Writer>, done: seq<nat>, w: nat, last: nat)
    requires g.id != w
    ensures
      var q := Popped(tail + rest, popped + [g], done + [g.id]);
      PopUntil(Popped([g] + tail + rest, popped, done), w, last) == if g.id == last then q else PopUntil(q, w, last)
  {
    PopFirst(g, tail, rest, popped, done, w);
  }

  lemma PopFirst(g: Writer, tail: seq<Writer>, rest: seq<Writer>, popped: seq<Writer>, done: seq<nat>, w: nat)
    ensures [g] + tail + rest != []
    ensures PopFront(Popped([g] + tail + rest, popped, done), w) ==
      Popped(tail + rest, popped + [g], if g.id == w then done else done + [g.id])
  {
    assert ([g] + tail + rest)[1..] == tail + rest;
  }

  lemma Shift<T>(a: seq<T>, x: T, b: seq<T>)
    ensures a + [x] + b == a + ([x] + b)
  {
  }

  /** The leader is popped without being marked, the rest of its group is popped and marked. */
  lemma PopsSplit(lead: Writer, others: seq<Writer>, rest: seq<Writer>, popped: seq<Writer>, done: seq<nat>, last: nat)
    requires last == (if others == [] then lead else others[|others| - 1]).id
    requires forall i :: 0 <= i < |others| ==> others[i].id != lead.id && (i < |others| - 1 ==> others[i].id != last)
    ensures PopUntil(Popped([lead] + others + rest, popped, done), lead.id, last) ==
      Popped(rest, popped + ([lead] + others), done + Ids(others))
  {
    PopFirst(lead, others, rest, popped, done, lead.id);
    if others == [] {
      assert [] + rest == rest && [lead] + [] == [lead] && Ids([]) == [] && done + [] == done;
    } else {
      PopRest(others, rest, popped + [lead], done, lead.id, last);
      Shift(popped, lead, others);
    }
  }

  /** Started by the front writer, the loop ends with exactly its group popped, and all of the group but itself marked done. */
  lemma PopsGroup(p: Popped, k: nat)
    requires DistinctIds(p.queue) && 1 <= k <= |p.queue|
    ensures PopUntil(p, p.queue[0].id, p.queue[k - 1].id) ==
      Popped(p.queue[k..], p.popped + p.queue[..k], p.done + Ids(p.queue[1..k]))
  {
    var lead, others, rest := p.queue[0], p.queue[1..k], p.queue[k..];
    assert [lead] + others == p.queue[..k] && p.queue[..k] + rest == p.queue;
    PopsSplit(lead, others, rest, p.popped, p.done, p.queue[k - 1].id);
  }

  method PopLoop(queue: seq<Writer>, w: nat, last: nat, ghost k: nat) returns (rest: seq<Writer>, done: seq<nat>)
    requires DistinctIds(queue) && 1 <= k <= |queue| && queue[0].id == w && queue[k - 1].id == last
    ensures rest == queue[k..] && done == Ids(queue[1..k])
  {
    rest, done := queue, [];
    ghost var popped := [];
    PopsGroup(Popped(queue, [], []), k);
    while true
      invariant rest != [] && last in Ids(rest)
      invariant PopUntil(Popped(rest, popped, done), w, last) == PopUntil(Popped(queue, [], []), w, last)
      decreases |rest|
    {
      var ready := rest[0];
      assert Ids(rest) == [ready.id] + Ids(rest[1..]);
      rest, popped := rest[1..], popped + [ready];
      if ready.id != w {
        done := done + [ready.id];
      }
      if ready.id == last {
        break;
      }
    }
  }

  // --- The protocol -------------------------------------------------------------------------

  /** What the front writer w is doing: nothing, or inserting the rest of the batches of the k writers up to the last. */
  datatype Phase = Idle | Inserting(w: nat, last: nat, k: nat, todo: seq<Op>)

  /** mem lists the entries in the order of insertion; finished the writers popped so far, done those that the writer of
      their group has marked done, led those that returned after writing for their group. */
  datatype State = State(queue: seq<Writer>, phase: Phase, mem: seq<(nat, Op)>, lastSequence: nat,
                         finished: seq<Writer>, done: seq<nat>, led: seq<nat>)

  datatype Step =
    | Enqueue(w: Writer)
    | StartGroup(k: nat)
    | InsertNext
    | FinishGroup
    | FinishNull

  ghost predicate Enabled(s: State, t: Step)
  {
    match t
    case Enqueue(w) => forall x :: x in s.finished || x in s.queue ==> x.id != w.id
    case StartGroup(k) => s.phase.Idle? && 1 <= k <= |s.queue| && s.queue[0].batch.Some?
    case InsertNext => s.phase.Inserting? && s.phase.todo != []
    case FinishGroup => s.phase.Inserting? && s.phase.todo == [] && s.phase.k <= |s.queue|
    case FinishNull => s.phase.Idle? && s.queue != [] && s.queue[0].batch.None?
  }

  /** Writer w pops its group and returns. */
  function Pop(s: State, w: nat, last: nat): State
  {
    var p := PopUntil(Popped(s.queue, s.finished, s.done), w, last);
    s.(queue := p.queue, finished := p.popped, done := p.done, led := s.led + [w], phase := Idle)
  }

  ghost function Next(s: State, t: Step): State
    requires Enabled(s, t)
  {
    match t
    case Enqueue(w) => s.(queue := s.queue + [w])
    case StartGroup(k) => s.(phase := Inserting(s.queue[0].id, s.queue[k - 1].id, k, OpsOf(s.queue[..k])))
    case InsertNext =>
      s.(mem := s.mem + [(s.lastSequence + Count(s) + 1, s.phase.todo[0])], phase := s.phase.(todo := s.phase.todo[1..]))
    case FinishGroup => Pop(s, s.phase.w, s.phase.last).(lastSequence := s.lastSequence + |OpsOf(s.queue[..s.phase.k])|)
    case FinishNull => Pop(s, s.queue[0].id, s.queue[0].id)
  }

  /** How many operations of the current group are in the memtable. */
  ghost function Count(s: State): nat
  {
    if s.phase.Inserting? && s.phase.k <= |s.queue| && |s.phase.todo| <= |OpsOf(s.queue[..s.phase.k])|
    then |OpsOf(s.queue[..s.phase.k])| - |s.phase.todo| else 0
  }

  /** What has been inserted for the current group. */
  ghost predicate GroupOk(s: State)
  {
    s.phase.Inserting? ==>
      && 1 <= s.phase.k <= |s.queue| && s.phase.w == s.queue[0].id && s.phase.last == s.queue[s.phase.k - 1].id
      && |s.phase.todo| <= |OpsOf(s.queue[..s.phase.k])|
      && s.phase.todo == OpsOf(s.queue[..s.phase.k])[Count(s)..]
  }

  /** The part of the current group's operations that is in the memtable. */
  ghost function Partial(s: State): seq<Op>
    requires GroupOk(s)
  {
    if s.phase.Idle? then [] else OpsOf(s.queue[..s.phase.k])[..Count(s)]
  }

  /** In every state: entries are those of the finished writers, in queue order, with consecutive sequence numbers
      from 1, followed by part of the current group; the last sequence number covers exactly the finished writers;
      and every finished writer, and no other, has either led a group or been marked done, once. */
  ghost predicate Inv(s: State)
  {
    && GroupOk(s)
    && s.mem == Sequenced(OpsOf(s.finished) + Partial(s), 1)
    && s.lastSequence == |OpsOf(s.finished)|
    && multiset(s.led) + multiset(s.done) == multiset(Ids(s.finished))
    && DistinctIds(s.finished + s.queue)
  }

  const START: State := State([], Idle, [], 0, [], [], [])

  lemma StartInv()
    ensures Inv(START)
  {
  }

  lemma EnqueueKeeps(s: State, w: Writer)
    requires Inv(s) && Enabled(s, Enqueue(w))
    ensures Inv(Next(s, Enqueue(w)))
  {
    var t := Next(s, Enqueue(w));
    assert t.finished + t.queue == (s.finished + s.queue) + [w];
    if s.phase.Inserting? { assert t.queue[..s.phase.k] == s.queue[..s.phase.k]; }
  }

  lemma StartGroupKeeps(s: State, k: nat)
    requires Inv(s) && Enabled(s, StartGroup(k))
    ensures Inv(Next(s, StartGroup(k)))
  {
    var ops := OpsOf(s.queue[..k]);
    assert ops[0..] == ops && ops[..0] == [];
  }

  lemma InsertNextKeeps(s: State)
    requires Inv(s) && Enabled(s, InsertNext)
    ensures Inv(Next(s, InsertNext))
  {
    var t := Next(s, InsertNext);
    var ops, n := OpsOf(s.queue[..s.phase.k]), Count(s);
    assert ops[..n + 1] == ops[..n] + [s.phase.todo[0]];
    var before := OpsOf(s.finished) + Partial(s);
    assert OpsOf(s.finished) + Partial(t) == before + [s.phase.todo[0]];
    InsertedOne([], before, s.phase.todo[0], 1);
  }

  lemma PopKeeps(s: State, k: nat)
    requires Inv(s) && 1 <= k <= |s.queue| && Partial(s) == OpsOf(s.queue[..k])
    ensures Inv(Pop(s, s.queue[0].id, s.queue[k - 1].id).(lastSequence := s.lastSequence + |OpsOf(s.queue[..k])|))
  {
    QueueDistinct(s.finished, s.queue);
    PopsGroup(Popped(s.queue, s.finished, s.done), k);
    OpsConcat(s.finished, s.queue[..k]);
    Regroup(s.finished, s.queue, k);
    MarkedOnce(s.led, s.done, s.finished, s.queue[..k]);
    assert s.queue[..k][1..] == s.queue[1..k];
    assert OpsOf(s.finished + s.queue[..k]) + [] == OpsOf(s.finished) + Partial(s);
  }

  lemma QueueDistinct(a: seq<Writer>, b: seq<Writer>)
    requires DistinctIds(a + b)
    ensures DistinctIds(b)
  {
    forall i, j | 0 <= i < j < |b| ensures b[i].id != b[j].id { assert (a + b)[|a| + i].id != (a + b)[|a| + j].id; }
  }

  lemma MarkedOnce(led: seq<nat>, done: seq<nat>, finished: seq<Writer>, group: seq<Writer>)
    requires group != [] && multiset(led) + multiset(done) == multiset(Ids(finished))
    ensures multiset(led + [group[0].id]) + multiset(done + Ids(group[1..])) == multiset(Ids(finished + group))
  {
    assert Ids(group) == [group[0].id] + Ids(group[1..]);
    IdsConcat(finished, group);
  }

  lemma Regroup(a: seq<Writer>, b: seq<Writer>, k: nat)
    requires k <= |b|
    ensures a + b[..k] + b[k..] == a + b
  {
    assert b == b[..k] + b[k..];
  }

  lemma IdsConcat(a: seq<Writer>, b: seq<Writer>)
    ensures Ids(a + b) == Ids(a) + Ids(b)
  {
  }

  lemma FinishGroupKeeps(s: State)
    requires Inv(s) && Enabled(s, FinishGroup)
    ensures Inv(Next(s, FinishGroup))
  {
    var ops := OpsOf(s.queue[..s.phase.k]);
    assert Count(s) == |ops| && ops[..|ops|] == ops;
    PopKeeps(s, s.phase.k);
  }

  lemma FinishNullKeeps(s: State)
    requires Inv(s) && Enabled(s, FinishNull)
    ensures Inv(Next(s, FinishNull))
  {
    assert s.queue[..1][..0] == [];
    assert OpsOf(s.queue[..1]) == [];
    PopKeeps(s, 1);
    assert Next(s, FinishNull) == Next(s, FinishNull).(lastSequence := s.lastSequence + 0);
  }

  lemma KeepsInv(s: State, t: Step)
    requires Inv(s) && Enabled(s, t)
    ensures Inv(Next(s, t))
  {
    match t {
      case Enqueue(w) => EnqueueKeeps(s, w);
      case StartGroup(k) => StartGroupKeeps(s, k);
      case InsertNext => InsertNextKeeps(s);
      case FinishGroup => FinishGroupKeeps(s);
      case FinishNull => FinishNullKeeps(s);
    }
  }

  ghost predicate Run(s: State, steps: seq<Step>, r: State)
    decreases |steps|
  {
    if steps == [] then r == s else Enabled(s, steps[0]) && Run(Next(s, steps[0]), steps[1..], r)
  }

  lemma {:induction false} RunKeepsInv(s: State, steps: seq<Step>, r: State)
    requires Inv(s) && Run(s, steps, r)
    ensures Inv(r)
    decreases |steps|
  {
    if steps != [] {
      KeepsInv(s, steps[0]);
      RunKeepsInv(Next(s, steps[0]), steps[1..], r);
    }
  }

  /** The sequence numbers of writer i's operations, among all writers that ever queued. */
  ghost function FirstSequence(all: seq<Writer>, i: nat): nat
    requires i <= |all|
  {
    |OpsOf(all[..i])| + 1
  }

  lemma {:induction false} OpsMonotone(all: seq<Writer>, i: nat, j: nat)
    requires i <= j <= |all|
    ensures OpsOf(all[..i]) <= OpsOf(all[..j])
  {
    assert all[..j] == all[..i] + all[i..j];
    OpsConcat(all[..i], all[i..j]);
  }

  /** In every run, a reader that takes the last sequence number as its snapshot sees all of a batch or none of it. */
  lemma AllOrNothing(steps: seq<Step>, r: State, i: nat)
    requires Run(START, steps, r) && i < |r.finished + r.queue|
    ensures
      var all := r.finished + r.queue;
      var first, next := FirstSequence(all, i), FirstSequence(all, i + 1);
      && (i < |r.finished| ==> next - 1 <= r.lastSequence)
      && (i >= |r.finished| ==> r.lastSequence < first)
  {
    StartInv();
    RunKeepsInv(START, steps, r);
    var all := r.finished + r.queue;
    assert all[..|r.finished|] == r.finished;
    if i < |r.finished| { OpsMonotone(all, i + 1, |r.finished|); } else { OpsMonotone(all, |r.finished|, i); }
  }

  function BatchOf(w: Writer): seq<Op> { if w.batch.Some? then w.batch.value else [] }

  /** The operations of writer i stand in the joint list behind those of the writers before it. */
  lemma OpsAt(ws: seq<Writer>, i: nat)
    requires i < |ws|
    ensures
      var n, ops := |OpsOf(ws[..i])|, BatchOf(ws[i]);
      n + |ops| <= |OpsOf(ws)| && OpsOf(ws)[n..n + |ops|] == ops
  {
    assert ws[..i + 1][..i] == ws[..i];
    assert OpsOf(ws[..i + 1]) == OpsOf(ws[..i]) + BatchOf(ws[i]);
    OpsMonotone(ws, i + 1, |ws|);
    assert ws[..|ws|] == ws;
    var n, ops := |OpsOf(ws[..i])|, BatchOf(ws[i]);
    assert OpsOf(ws)[..n + |ops|] == OpsOf(ws[..i]) + ops;
    assert OpsOf(ws)[n..n + |ops|] == OpsOf(ws)[..n + |ops|][n..];
  }

  lemma SequencedPart(all: seq<Op>, n: nat, ops: seq<Op>)
    requires n + |ops| <= |all| && all[n..n + |ops|] == ops
    ensures Sequenced(all, 1)[n..n + |ops|] == Sequenced(ops, n + 1)
  {
    forall j | 0 <= j < |ops| ensures all[n + j] == ops[j] { assert all[n..n + |ops|][j] == ops[j]; }
  }

  /** In every run, the batch of a finished writer is in the memtable, at its place in queue order. */
  lemma InsertedInOrder(steps: seq<Step>, r: State, i: nat)
    requires Run(START, steps, r) && i < |r.finished|
    ensures
      var first, ops := FirstSequence(r.finished, i), BatchOf(r.finished[i]);
      first - 1 + |ops| <= |r.mem| && r.mem[first - 1..first - 1 + |ops|] == Sequenced(ops, first)
  {
    StartInv();
    RunKeepsInv(START, steps, r);
    OpsAt(r.finished, i);
    var all := OpsOf(r.finished) + Partial(r);
    var n, ops := |OpsOf(r.finished[..i])|, BatchOf(r.finished[i]);
    assert all[n..n + |ops|] == OpsOf(r.finished)[n..n + |ops|];
    SequencedPart(all, n, ops);
  }

  lemma {:induction false} CountId(ws: seq<Writer>, id: nat)
    requires DistinctIds(ws)
    ensures multiset(Ids(ws))[id] == if exists w :: w in ws && w.id == id then 1 else 0
  {
    if ws != [] {
      var front, last := ws[..|ws| - 1], ws[|ws| - 1];
      assert ws == front + [last];
      IdsConcat(front, [last]);
      assert Ids([last]) == [last.id];
      CountId(front, id);
      forall w | w in front ensures w.id != last.id {}
    }
  }

  /**
   In every run a writer that has left the queue either led its group, or was marked done by the writer that led it:
   one of the two, once. A writer in the queue has done neither.
   */
  lemma LedOrDone(steps: seq<Step>, r: State, w: Writer)
    requires Run(START, steps, r) && w in r.finished + r.queue
    ensures multiset(r.led)[w.id] + multiset(r.done)[w.id] == if w in r.finished then 1 else 0
  {
    StartInv();
    RunKeepsInv(START, steps, r);
    var all := r.finished + r.queue;
    assert DistinctIds(r.finished) by {
      forall i, j | 0 <= i < j < |r.finished| ensures r.finished[i].id != r.finished[j].id { assert all[i].id != all[j].id; }
    }
    CountId(r.finished, w.id);
    if w !in r.finished {
      var k :| 0 <= k < |r.queue| && r.queue[k] == w;
      forall x | x in r.finished ensures x.id != w.id {
        var i :| 0 <= i < |r.finished| && r.finished[i] == x;
        assert all[i].id != all[|r.finished| + k].id;
      }
    }
    assert multiset(r.led)[w.id] + multiset(r.done)[w.id] == multiset(Ids(r.finished))[w.id];
  }
}
