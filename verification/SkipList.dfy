/**
 The skip list: one writer that stores links one at a time, and readers that search without locks.
 */
module SkipList {
  import opened Keys

  const MAX_HEIGHT := 12

  /** A key stands for its place in the comparator's order. */
  type Key = real

  /** Nodes are named by their keys, which are distinct. */
  datatype Node = Head | At(key: Key)

  /** The link of a node at a level; absent means not yet initialised, None is the NULL pointer. */
  datatype Link = Link(node: Node, level: nat)

  /** The shared memory, and for the specification the set of keys linked at each level. */
  datatype List = List(next: map<Link, Option<Key>>, height: nat, levels: seq<set<Key>>)

  // --- Well-formed lists --------------------------------------------------------------------

  predicate After(k: Key, n: Node) { n.Head? || k > n.key }

  ghost predicate In(s: set<Key>, n: Node) { n.Head? || n.key in s }

  /** r is the successor of n in s. */
  ghost predicate Succ(s: set<Key>, n: Node, r: Option<Key>)
  {
    match r
    case None => forall k :: k in s ==> !After(k, n)
    case Some(x) => x in s && After(x, n) && forall k :: k in s && After(k, n) ==> x <= k
  }

  /** Each level is a sorted list over its keys, and a sublist of the level below. */
  ghost predicate Ok(l: List)
  {
    && |l.levels| == MAX_HEIGHT && 1 <= l.height <= MAX_HEIGHT
    && (forall i :: 0 <= i < MAX_HEIGHT - 1 ==> l.levels[i + 1] <= l.levels[i])
    && (forall i :: l.height <= i < MAX_HEIGHT ==> l.levels[i] == {})
    && (forall i, n :: 0 <= i < MAX_HEIGHT && In(l.levels[i], n) ==>
          Link(n, i) in l.next && Succ(l.levels[i], n, l.next[Link(n, i)]))
  }

  function Empty(): List
  {
    List(map i | 0 <= i < MAX_HEIGHT :: Link(Head, i) := None, 1, seq(MAX_HEIGHT, i => {}))
  }

  lemma EmptyOk()
    ensures Ok(Empty())
  {
  }

  // --- Searching ----------------------------------------------------------------------------

  /** A search for the first key at or after the target; no target stands for the end of the list. */
  datatype Search = Search(target: Option<Key>, node: Node, level: nat)

  predicate Wants(target: Option<Key>, k: Key) { target.None? || k < target.value }

  /** The search stands on a node of its level that lies before the target. */
  ghost predicate On(l: List, q: Search)
  {
    && |l.levels| == MAX_HEIGHT && q.level < MAX_HEIGHT && In(l.levels[q.level], q.node)
    && (q.node.At? ==> Wants(q.target, q.node.key))
  }

  function Begin(l: List, target: Option<Key>): Search
    requires l.height >= 1
  {
    Search(target, Head, l.height - 1)
  }

  datatype Progress = Going(search: Search) | Done(before: Node, found: Option<Key>)

  /** One turn of the loop of FindGreaterOrEqual, FindLessThan and FindLast: read one link, move right or down. */
  function Turn(l: List, q: Search): Progress
    requires Link(q.node, q.level) in l.next
  {
    var next := l.next[Link(q.node, q.level)];
    if next.Some? && Wants(q.target, next.value) then Going(q.(node := At(next.value)))
    else if q.level > 0 then Going(q.(level := q.level - 1))
    else Done(q.node, next)
  }

  /** found is the first key at or after the target, before the last node before it. */
  ghost predicate Splits(s: set<Key>, target: Option<Key>, before: Node, found: Option<Key>)
  {
    && In(s, before) && (before.At? ==> Wants(target, before.key))
    && (forall k :: k in s && Wants(target, k) ==> before.At? && k <= before.key)
    && (found.Some? ==> found.value in s && !Wants(target, found.value))
    && (forall k :: k in s && !Wants(target, k) ==> found.Some? && found.value <= k)
  }

  /** A turn follows an initialised link, keeps its place, and ends exactly at the target in the bottom list of that moment. */
  lemma TurnGood(l: List, q: Search)
    requires Ok(l) && On(l, q)
    ensures Link(q.node, q.level) in l.next
    ensures Turn(l, q).Going? ==> On(l, Turn(l, q).search) && Turn(l, q).search.target == q.target
    ensures Turn(l, q).Done? ==> Splits(l.levels[0], q.target, Turn(l, q).before, Turn(l, q).found)
  {
  }

  // --- Inserting ----------------------------------------------------------------------------

  /** Insert in progress: the levels below i are linked; at level i the new node's own link may be set already. */
  datatype Insertion = Insertion(key: Key, height: nat, prev: seq<Node>, i: nat, prepared: bool)

  /** p is the last node of s before the key. */
  ghost predicate Pred(s: set<Key>, key: Key, p: Node)
  {
    && In(s, p) && After(key, p)
    && forall k :: k in s && k < key ==> !After(k, p)
  }

  ghost predicate Inserting(l: List, w: Insertion)
  {
    && |l.levels| == MAX_HEIGHT && 1 <= w.height <= l.height <= MAX_HEIGHT && w.i <= w.height && |w.prev| >= w.height
    && (forall j :: 0 <= j < w.i ==> w.key in l.levels[j])
    && (forall j :: w.i <= j < MAX_HEIGHT ==> w.key !in l.levels[j])
    && (forall j :: w.i <= j < w.height ==> Pred(l.levels[j], w.key, w.prev[j]))
    && (w.prepared ==> w.i < w.height && Link(At(w.key), w.i) in l.next)
    && (w.prepared ==> Succ(l.levels[w.i], At(w.key), l.next[Link(At(w.key), w.i)]))
  }

  /** max_height_ is raised before the new levels have any link. */
  function Raise(l: List, h: nat): List
  {
    if h > l.height then l.(height := h) else l
  }

  /** x->NoBarrier_SetNext(i, prev[i]->NoBarrier_Next(i)) */
  function Prepare(l: List, w: Insertion): (List, Insertion)
    requires w.i < |w.prev| && Link(w.prev[w.i], w.i) in l.next
  {
    (l.(next := l.next[Link(At(w.key), w.i) := l.next[Link(w.prev[w.i], w.i)]]), w.(prepared := true))
  }

  /** prev[i]->SetNext(i, x) */
  function Publish(l: List, w: Insertion): (List, Insertion)
    requires w.i < |w.prev| && w.i < |l.levels|
  {
    (l.(next := l.next[Link(w.prev[w.i], w.i) := Some(w.key)], levels := l.levels[w.i := l.levels[w.i] + {w.key}]),
     w.(i := w.i + 1, prepared := false))
  }

  lemma RaiseGood(l: List, h: nat)
    requires Ok(l) && h <= MAX_HEIGHT
    ensures Ok(Raise(l, h))
  {
  }

  lemma PrepareGood(l: List, w: Insertion)
    requires Ok(l) && Inserting(l, w) && w.i < w.height && !w.prepared
    ensures Link(w.prev[w.i], w.i) in l.next
    ensures Ok(Prepare(l, w).0) && Inserting(Prepare(l, w).0, Prepare(l, w).1)
    ensures Prepare(l, w).0.levels == l.levels
  {
  }

  lemma PublishGood(l: List, w: Insertion)
    requires Ok(l) && Inserting(l, w) && w.prepared
    ensures Ok(Publish(l, w).0) && Inserting(Publish(l, w).0, Publish(l, w).1)
    ensures Grown(l, Publish(l, w).0)
  {
    var l', w' := Publish(l, w).0, Publish(l, w).1;
    var s, p := l.levels[w.i], w.prev[w.i];
    assert Pred(s, w.key, p);
    forall n | In(l'.levels[w.i], n)
      ensures Link(n, w.i) in l'.next && Succ(l'.levels[w.i], n, l'.next[Link(n, w.i)])
    {
      if n != At(w.key) { PublishSucc(s, w.key, p, n, l.next[Link(n, w.i)]); }
    }
    forall i, n | 0 <= i < MAX_HEIGHT && i != w.i && In(l'.levels[i], n)
      ensures Link(n, i) in l'.next && Succ(l'.levels[i], n, l'.next[Link(n, i)])
    {
      assert In(l.levels[i], n);
    }
    forall j | w'.i <= j < w'.height ensures Pred(l'.levels[j], w'.key, w'.prev[j]) {
      assert Pred(l.levels[j], w.key, w.prev[j]);
    }
  }

  /** Linking a key behind its predecessor changes the successor of the predecessor only. */
  lemma PublishSucc(s: set<Key>, key: Key, p: Node, n: Node, r: Option<Key>)
    requires Pred(s, key, p) && key !in s && In(s, n) && Succ(s, n, r)
    ensures Succ(s + {key}, n, if n == p then Some(key) else r)
  {
  }

  /** Levels only gain keys. */
  ghost predicate Grown(l: List, l': List)
  {
    |l'.levels| == |l.levels| && forall i :: 0 <= i < |l.levels| ==> l.levels[i] <= l'.levels[i]
  }

  // --- One writer and many readers ----------------------------------------------------------

  datatype System = System(list: List, writer: Option<Insertion>, readers: map<nat, Search>)

  datatype Event =
    | StartInsert(key: Key, height: nat, prev: seq<Node>)  // the search is over; max_height_ is stored
    | SetOwnLink
    | SetPrevLink
    | EndInsert
    | StartSearch(id: nat, target: Option<Key>)
    | TakeTurn(id: nat)

  /** What FindGreaterOrEqual leaves in prev, completed with the head for the new levels. */
  ghost predicate Predecessors(l: List, key: Key, h: nat, prev: seq<Node>)
  {
    |prev| == h <= |l.levels| && forall j :: 0 <= j < h ==> Pred(l.levels[j], key, prev[j])
  }

  ghost predicate Enabled(y: System, e: Event)
  {
    match e
    case StartInsert(key, h, prev) =>
      && y.writer.None? && 1 <= h <= MAX_HEIGHT && |y.list.levels| > 0
      && key !in y.list.levels[0] && Predecessors(y.list, key, h, prev)
    case SetOwnLink =>
      && y.writer.Some? && !y.writer.value.prepared && y.writer.value.i < y.writer.value.height <= |y.writer.value.prev|
      && Link(y.writer.value.prev[y.writer.value.i], y.writer.value.i) in y.list.next
    case SetPrevLink =>
      y.writer.Some? && y.writer.value.prepared && y.writer.value.i < |y.writer.value.prev| && y.writer.value.i < |y.list.levels|
    case EndInsert => y.writer.Some? && y.writer.value.i == y.writer.value.height
    case StartSearch(id, target) => id !in y.readers && y.list.height >= 1
    case TakeTurn(id) => id in y.readers && Link(y.readers[id].node, y.readers[id].level) in y.list.next
  }

  function Step(y: System, e: Event): System
    requires Enabled(y, e)
  {
    match e
    case StartInsert(key, h, prev) => y.(list := Raise(y.list, h), writer := Some(Insertion(key, h, prev, 0, false)))
    case SetOwnLink => var r := Prepare(y.list, y.writer.value); y.(list := r.0, writer := Some(r.1))
    case SetPrevLink => var r := Publish(y.list, y.writer.value); y.(list := r.0, writer := Some(r.1))
    case EndInsert => y.(writer := None)
    case StartSearch(id, target) => y.(readers := y.readers[id := Begin(y.list, target)])
    case TakeTurn(id) =>
      var p := Turn(y.list, y.readers[id]);
      y.(readers := if p.Going? then y.readers[id := p.search] else y.readers - {id})
  }

  ghost predicate Good(y: System)
  {
    && Ok(y.list)
    && (y.writer.Some? ==> Inserting(y.list, y.writer.value))
    && (forall i :: i in y.readers ==> On(y.list, y.readers[i]))
  }

  lemma ReadersStable(y: System, l: List)
    requires Good(y) && Grown(y.list, l)
    ensures forall i :: i in y.readers ==> On(l, y.readers[i])
  {
  }

  lemma StartInsertGood(y: System, key: Key, h: nat, prev: seq<Node>)
    requires Good(y) && Enabled(y, StartInsert(key, h, prev))
    ensures Good(Step(y, StartInsert(key, h, prev)))
  {
    RaiseGood(y.list, h);
    ReadersStable(y, Raise(y.list, h));
    NotAbove(y.list, key, 0);
  }

  lemma {:induction false} NotAbove(l: List, key: Key, i: nat)
    requires Ok(l) && i < MAX_HEIGHT && key !in l.levels[i]
    ensures forall j :: i <= j < MAX_HEIGHT ==> key !in l.levels[j]
    decreases MAX_HEIGHT - i
  {
    if i + 1 < MAX_HEIGHT {
      assert l.levels[i + 1] <= l.levels[i];
      NotAbove(l, key, i + 1);
    }
  }

  lemma StepGood(y: System, e: Event)
    requires Good(y) && Enabled(y, e)
    ensures Good(Step(y, e))
  {
    match e
    case StartInsert(key, h, prev) => StartInsertGood(y, key, h, prev);
    case SetOwnLink => PrepareGood(y.list, y.writer.value); ReadersStable(y, Step(y, e).list);
    case SetPrevLink => PublishGood(y.list, y.writer.value); ReadersStable(y, Step(y, e).list);
    case EndInsert =>
    case StartSearch(id, target) =>
    case TakeTurn(id) => TurnGood(y.list, y.readers[id]);
  }

  ghost predicate Run(y: System, events: seq<Event>, y': System)
    decreases |events|
  {
    if events == [] then y' == y else Enabled(y, events[0]) && Run(Step(y, events[0]), events[1..], y')
  }

  lemma {:induction false} RunGood(y: System, events: seq<Event>, y': System)
    requires Good(y) && Run(y, events, y')
    ensures Good(y')
    decreases |events|
  {
    if events != [] {
      StepGood(y, events[0]);
      RunGood(Step(y, events[0]), events[1..], y');
    }
  }

  /**
   However reads and link stores interleave: every list level stays sorted and a sublist of the one below, a reader's
   next link is initialised, and a reader that finishes has found its target's place in the bottom list of that moment.
   */
  lemma EverySearchIsRight(events: seq<Event>, y: System, id: nat)
    requires Run(System(Empty(), None, map[]), events, y) && id in y.readers
    ensures Ok(y.list) && Enabled(y, TakeTurn(id))
    ensures var p := Turn(y.list, y.readers[id]); p.Done? ==> Splits(y.list.levels[0], y.readers[id].target, p.before, p.found)
  {
    EmptyOk();
    RunGood(System(Empty(), None, map[]), events, y);
    TurnGood(y.list, y.readers[id]);
  }

  // --- An iterator during insertions --------------------------------------------------------

  /** Iterator::Next along the bottom list, from the node where the walk began; the keys it has passed since. */
  datatype Walk = Walk(y: System, node: Node, seen: seq<Key>)

  datatype WalkEvent = Meantime(event: Event) | Forward

  ghost predicate WalkEnabled(w: Walk, e: WalkEvent)
  {
    match e
    case Meantime(event) => Enabled(w.y, event)
    case Forward => Link(w.node, 0) in w.y.list.next && w.y.list.next[Link(w.node, 0)].Some?
  }

  function WalkStep(w: Walk, e: WalkEvent): Walk
    requires WalkEnabled(w, e)
  {
    match e
    case Meantime(event) => w.(y := Step(w.y, event))
    case Forward => var k := w.y.list.next[Link(w.node, 0)].value; w.(node := At(k), seen := w.seen + [k])
  }

  ghost predicate WalkRun(w: Walk, events: seq<WalkEvent>, w': Walk)
    decreases |events|
  {
    if events == [] then w' == w else WalkEnabled(w, events[0]) && WalkRun(WalkStep(w, events[0]), events[1..], w')
  }

  /** The keys passed since the walk left the node from increase, and none of start between there and here is missing. */
  ghost predicate Walked(start: set<Key>, from: Node, node: Node, seen: seq<Key>)
  {
    && (forall i, j :: 0 <= i < j < |seen| ==> seen[i] < seen[j])
    && (forall k :: k in seen ==> After(k, from) && !After(k, node))
    && (forall k :: k in start && After(k, from) ==> After(k, node) || k in seen)
    && (from.At? ==> !After(from.key, node))
  }

  ghost predicate WalkOk(start: set<Key>, from: Node, w: Walk)
  {
    && Good(w.y) && In(w.y.list.levels[0], w.node) && start <= w.y.list.levels[0]
    && (forall k :: k in w.seen ==> k in w.y.list.levels[0])
    && Walked(start, from, w.node, w.seen)
  }

  lemma StepGrows(y: System, e: Event)
    requires Good(y) && Enabled(y, e)
    ensures Grown(y.list, Step(y, e).list)
  {
    match e
    case SetOwnLink => PrepareGood(y.list, y.writer.value);
    case SetPrevLink => PublishGood(y.list, y.writer.value);
    case _ =>
  }

  /** Whatever was inserted behind the walk, its next key is the first one of the present list after its node. */
  lemma ForwardWalks(s: set<Key>, start: set<Key>, from: Node, node: Node, seen: seq<Key>, k: Key)
    requires start <= s && Walked(start, from, node, seen) && Succ(s, node, Some(k))
    ensures Walked(start, from, At(k), seen + [k])
  {
    forall i | 0 <= i < |seen| ensures seen[i] < k { assert seen[i] in seen; }
    forall x | x in seen + [k] ensures After(x, from) && !After(x, At(k)) { assert x in seen || x == k; }
    forall x | x in start && After(x, from) ensures After(x, At(k)) || x in seen + [k] {
      assert After(x, node) || x in seen;
    }
  }

  lemma WalkStepOk(start: set<Key>, from: Node, w: Walk, e: WalkEvent)
    requires WalkOk(start, from, w) && WalkEnabled(w, e)
    ensures WalkOk(start, from, WalkStep(w, e))
  {
    match e
    case Meantime(event) =>
      StepGood(w.y, event);
      StepGrows(w.y, event);
    case Forward =>
      ForwardWalks(w.y.list.levels[0], start, from, w.node, w.seen, w.y.list.next[Link(w.node, 0)].value);
  }

  lemma {:induction false} WalkRunOk(start: set<Key>, from: Node, w: Walk, events: seq<WalkEvent>, w': Walk)
    requires WalkOk(start, from, w) && WalkRun(w, events, w')
    ensures WalkOk(start, from, w')
    decreases |events|
  {
    if events != [] {
      WalkStepOk(start, from, w, events[0]);
      WalkRunOk(start, from, WalkStep(w, events[0]), events[1..], w');
    }
  }

  /**
   An iterator that walks forward from any node of the list while keys are inserted finds its next link set at every
   moment, meets increasing keys of the list only, and at its end has met every key that was there when it began.
   */
  lemma EveryWalkIsComplete(events: seq<Event>, y: System, from: Node, moves: seq<WalkEvent>, w: Walk)
    requires Run(System(Empty(), None, map[]), events, y) && |y.list.levels| == MAX_HEIGHT && In(y.list.levels[0], from)
    requires WalkRun(Walk(y, from, []), moves, w)
    ensures Ok(w.y.list) && Link(w.node, 0) in w.y.list.next
    ensures (forall i, j :: 0 <= i < j < |w.seen| ==> w.seen[i] < w.seen[j]) && forall k :: k in w.seen ==> k in w.y.list.levels[0]
    ensures w.y.list.next[Link(w.node, 0)].None? ==> forall k :: k in y.list.levels[0] && After(k, from) ==> k in w.seen
  {
    EmptyOk();
    RunGood(System(Empty(), None, map[]), events, y);
    WalkRunOk(y.list.levels[0], from, Walk(y, from, []), moves, w);
    assert Succ(w.y.list.levels[0], w.node, w.y.list.next[Link(w.node, 0)]);
  }

  // --- The list as an object ----------------------------------------------------------------

  /** The keys of s after node n: what a walk along a level has still ahead. */
  ghost function Beyond(s: set<Key>, n: Node): set<Key>
  {
    set k | k in s && After(k, n)
  }

  class SkipList {
    var next: map<Link, Option<Key>>
    var maxHeight: nat
    ghost var levels: seq<set<Key>>

    ghost function Shape(): List
      reads this
    {
      List(next, maxHeight, levels)
    }

    ghost function Contents(): set<Key>
      reads this
      requires Ok(Shape())
    {
      levels[0]
    }

    constructor ()
      ensures Ok(Shape()) && Contents() == {}
    {
      next := map i | 0 <= i < MAX_HEIGHT :: Link(Head, i) := None;
      maxHeight := 1;
      levels := seq(MAX_HEIGHT, i => {});
      new;
      EmptyOk();
      assert Shape() == Empty();
    }

    /** FindGreaterOrEqual; prev[i] is the last node before the target at level i. */
    method Find(target: Option<Key>) returns (before: Node, found: Option<Key>, prev: seq<Node>)
      requires Ok(Shape())
      ensures Splits(Contents(), target, before, found)
      ensures |prev| == maxHeight
      ensures target.Some? ==> forall j :: 0 <= j < maxHeight ==> Pred(levels[j], target.value, prev[j])
    {
      before := Head;
      var level := maxHeight - 1;
      prev := seq(maxHeight, i => Head);
      while true
        invariant 0 <= level < maxHeight && |prev| == maxHeight
        invariant On(Shape(), Search(target, before, level))
        invariant target.Some? ==> forall j :: level < j < maxHeight ==> Pred(levels[j], target.value, prev[j])
        decreases level, Beyond(levels[level], before)
      {
        TurnGood(Shape(), Search(target, before, level));
        found := next[Link(before, level)];
        assert Succ(levels[level], before, found);
        if found.Some? && Wants(target, found.value) {
          assert found.value in Beyond(levels[level], before) && found.value !in Beyond(levels[level], At(found.value));
          before := At(found.value);
        } else {
          prev := prev[level := before];
          if level == 0 { return; }
          level := level - 1;
        }
      }
    }

    /** Link the new node at level i: its own link first, then its predecessor's. Readers may see either store. */
    method LinkLevel(key: Key, height: nat, prev: seq<Node>, i: nat)
      requires Ok(Shape()) && Inserting(Shape(), Insertion(key, height, prev, i, false)) && i < height
      modifies this
      ensures Ok(Shape()) && Inserting(Shape(), Insertion(key, height, prev, i + 1, false))
      ensures levels == old(levels)[i := old(levels)[i] + {key}]
    {
      ghost var w := Insertion(key, height, prev, i, false);
      PrepareGood(Shape(), w);
      ghost var prepared := Prepare(Shape(), w);
      next := next[Link(At(key), i) := next[Link(prev[i], i)]];
      assert Shape() == prepared.0;
      PublishGood(Shape(), prepared.1);
      ghost var published := Publish(Shape(), prepared.1);
      next, levels := next[Link(prev[i], i) := Some(key)], levels[i := levels[i] + {key}];
      assert Shape() == published.0;
    }

    /** The part of Insert before the links: find the predecessors and raise max_height_. */
    method Prepared(key: Key, height: nat) returns (prev: seq<Node>)
      requires Ok(Shape()) && key !in Contents() && 1 <= height <= MAX_HEIGHT
      modifies this
      ensures Ok(Shape()) && levels == old(levels) && Inserting(Shape(), Insertion(key, height, prev, 0, false))
    {
      var before, found;
      before, found, prev := Find(Some(key));
      NotAbove(Shape(), key, 0);
      RaiseGood(Shape(), height);
      if height > maxHeight {
        prev := prev + seq(height - maxHeight, i => Head);
        maxHeight := height;
      }
    }

    method Insert(key: Key, height: nat)
      requires Ok(Shape()) && key !in Contents() && 1 <= height <= MAX_HEIGHT
      modifies this
      ensures Ok(Shape()) && Contents() == old(Contents()) + {key}
      ensures forall j :: 0 <= j < MAX_HEIGHT ==> levels[j] == old(levels[j]) + if j < height then {key} else {}
    {
      var prev := Prepared(key, height);
      for i := 0 to height
        invariant Ok(Shape()) && Inserting(Shape(), Insertion(key, height, prev, i, false))
        invariant forall j :: 0 <= j < MAX_HEIGHT ==> levels[j] == old(levels[j]) + if j < i then {key} else {}
      {
        LinkLevel(key, height, prev, i);
      }
    }

    method Contains(key: Key) returns (b: bool)
      requires Ok(Shape())
      ensures b <==> key in Contents()
    {
      var before, found, prev := Find(Some(key));
      b := found == Some(key);
    }

    /** Iterator::Prev searches anew from the head. */
    method Prev(key: Key) returns (node: Node)
      requires Ok(Shape()) && key in Contents()
      ensures Pred(Contents(), key, node)
    {
      var found, prev;
      node, found, prev := Find(Some(key));
    }

    method SeekToLast() returns (node: Node)
      requires Ok(Shape())
      ensures In(Contents(), node) && forall k :: k in Contents() ==> node.At? && k <= node.key
    {
      var found, prev;
      node, found, prev := Find(None);
    }
  }
}
