/**
 LRUCache: one shard of the cache. Handles are numbered; the two circular lists are sequences, oldest first.
 */
module LruCache {
  import opened Bytes
  import opened Keys
  import opened HandleTable

  // --- Lists --------------------------------------------------------------------------------

  ghost predicate Distinct(s: seq<nat>)
  {
    forall i, j :: 0 <= i < j < |s| ==> s[i] != s[j]
  }

  /** LRU_Remove. */
  function Without(s: seq<nat>, x: nat): seq<nat>
  {
    if s == [] then [] else if s[0] == x then s[1..] else [s[0]] + Without(s[1..], x)
  }

  lemma {:induction false} WithoutIs(s: seq<nat>, x: nat)
    requires Distinct(s)
    ensures Distinct(Without(s, x)) && forall y :: y in Without(s, x) <==> y in s && y != x
  {
    if s != [] {
      assert s == [s[0]] + s[1..];
      if s[0] != x {
        WithoutIs(s[1..], x);
        assert s[0] !in s[1..];
      } else {
        assert x !in s[1..];
      }
    }
  }

  datatype Info = Info(name: Label, charge: nat)

  /** The sum of charges of a list. */
  function Charges(info: map<nat, Info>, s: seq<nat>): nat
  {
    if s == [] then 0 else (if s[0] in info then info[s[0]].charge else 0) + Charges(info, s[1..])
  }

  lemma {:induction false} ChargesWithout(info: map<nat, Info>, s: seq<nat>, x: nat)
    requires x in s && x in info
    ensures Charges(info, s) == Charges(info, Without(s, x)) + info[x].charge
  {
    if s[0] != x {
      ChargesWithout(info, s[1..], x);
      assert ([s[0]] + Without(s[1..], x))[1..] == Without(s[1..], x);
    }
  }

  lemma {:induction false} ChargesAppend(info: map<nat, Info>, s: seq<nat>, x: nat)
    requires x in info
    ensures Charges(info, s + [x]) == Charges(info, s) + info[x].charge
  {
    if s != [] {
      assert (s + [x])[1..] == s[1..] + [x];
      ChargesAppend(info, s[1..], x);
    }
  }

  lemma {:induction false} ChargesSame(info: map<nat, Info>, more: map<nat, Info>, s: seq<nat>)
    requires forall x :: x in s ==> x in info && x in more && more[x] == info[x]
    ensures Charges(more, s) == Charges(info, s)
  {
    if s != [] { ChargesSame(info, more, s[1..]); }
  }

  // --- The state of a shard -----------------------------------------------------------------

  /** info is fixed when a handle is made; refs has the handles that are not yet deleted; cached has those with in_cache. */
  datatype Shard = Shard(info: map<nat, Info>, refs: map<nat, nat>, cached: set<nat>,
                         lru: seq<nat>, inUse: seq<nat>, usage: nat, deleted: seq<nat>)

  /** refs counts the outstanding handles and the cache's own reference. */
  ghost predicate CountsOk(s: Shard, held: multiset<nat>)
  {
    && (forall e :: e in s.refs ==> s.refs[e] == held[e] + (if e in s.cached then 1 else 0) && s.refs[e] >= 1)
    && (forall e :: e in held || e in s.cached ==> e in s.refs)
  }

  /** Cached entries are split between the two lists by whether a client refers to them. */
  ghost predicate ListsOk(s: Shard)
  {
    && Distinct(s.lru) && Distinct(s.inUse)
    && (forall e :: e in s.lru <==> e in s.cached && e in s.refs && s.refs[e] == 1)
    && (forall e :: e in s.inUse <==> e in s.cached && e in s.refs && s.refs[e] >= 2)
  }

  ghost predicate UsageOk(s: Shard)
  {
    s.usage == Charges(s.info, s.lru) + Charges(s.info, s.inUse)
  }

  /** Each deleter runs at most once, never while the entry is cached or referred to, and always when it is neither. */
  ghost predicate DeletedOk(s: Shard)
  {
    && Distinct(s.deleted) && (forall e :: e in s.deleted ==> e in s.info && e !in s.refs)
    && (forall e :: e in s.refs ==> e in s.info)
    && (forall e :: e in s.info ==> e in s.refs || e in s.deleted)
  }

  ghost predicate Inv(s: Shard, held: multiset<nat>)
  {
    CountsOk(s, held) && ListsOk(s) && UsageOk(s) && DeletedOk(s)
  }

  // --- The steps ----------------------------------------------------------------------------

  function Ref(s: Shard, e: nat): Shard
    requires e in s.refs
  {
    var t := if s.refs[e] == 1 && e in s.cached then s.(lru := Without(s.lru, e), inUse := s.inUse + [e]) else s;
    t.(refs := t.refs[e := t.refs[e] + 1])
  }

  function Unref(s: Shard, e: nat): Shard
    requires e in s.refs && s.refs[e] > 0
  {
    var n := s.refs[e] - 1;
    if n == 0 then s.(refs := s.refs - {e}, deleted := s.deleted + [e])
    else
      var t := s.(refs := s.refs[e := n]);
      if e in s.cached && n == 1 then t.(inUse := Without(s.inUse, e), lru := s.lru + [e]) else t
  }

  /** The part of FinishErase before Unref. */
  function Uncache(s: Shard, e: nat): Shard
    requires e in s.refs && e in s.info && s.info[e].charge <= s.usage
  {
    var t := if s.refs[e] == 1 then s.(lru := Without(s.lru, e)) else s.(inUse := Without(s.inUse, e));
    t.(cached := s.cached - {e}, usage := s.usage - s.info[e].charge)
  }

  lemma RefKeeps(s: Shard, held: multiset<nat>, e: nat)
    requires Inv(s, held) && e in s.refs
    ensures Inv(Ref(s, e), held + multiset{e})
  {
    WithoutIs(s.lru, e);
    if e in s.lru {
      ChargesWithout(s.info, s.lru, e);
      ChargesAppend(s.info, s.inUse, e);
    }
  }

  /** The last reference of an entry that is not cached: it is deleted. */
  lemma UnrefLast(s: Shard, held: multiset<nat>, e: nat)
    requires Inv(s, held) && e in held && s.refs[e] == 1
    ensures Inv(Unref(s, e), held - multiset{e})
  {
  }

  /** The last outside reference of a cached entry: it becomes the newest entry of the lru list. */
  lemma UnrefIdle(s: Shard, held: multiset<nat>, e: nat)
    requires Inv(s, held) && e in held && s.refs[e] == 2 && e in s.cached
    ensures Inv(Unref(s, e), held - multiset{e})
  {
    WithoutIs(s.inUse, e);
    ChargesWithout(s.info, s.inUse, e);
    ChargesAppend(s.info, s.lru, e);
  }

  lemma UnrefMore(s: Shard, held: multiset<nat>, e: nat)
    requires Inv(s, held) && e in held && s.refs[e] >= 2 && (e in s.cached ==> s.refs[e] > 2)
    ensures Inv(Unref(s, e), held - multiset{e})
  {
  }

  lemma UnrefKeeps(s: Shard, held: multiset<nat>, e: nat)
    requires Inv(s, held) && e in held
    ensures Inv(Unref(s, e), held - multiset{e})
  {
    if s.refs[e] == 1 {
      UnrefLast(s, held, e);
    } else if e in s.cached && s.refs[e] == 2 {
      UnrefIdle(s, held, e);
    } else {
      UnrefMore(s, held, e);
    }
  }

  /** The deleter runs exactly when the last reference goes. */
  lemma UnrefDeletes(s: Shard, held: multiset<nat>, e: nat)
    requires CountsOk(s, held) && e in held
    ensures Unref(s, e).cached == s.cached && Unref(s, e).info == s.info
    ensures Unref(s, e).deleted == s.deleted + if held[e] == 1 && e !in s.cached then [e] else []
  {
  }

  lemma ChargeCounted(s: Shard, held: multiset<nat>, e: nat)
    requires Inv(s, held) && e in s.cached
    ensures e in s.refs && e in s.info && s.info[e].charge <= s.usage
    ensures if s.refs[e] == 1 then e in s.lru else e in s.inUse
  {
    if s.refs[e] == 1 { ChargesWithout(s.info, s.lru, e); } else { ChargesWithout(s.info, s.inUse, e); }
  }

  /** While an entry is being erased, the reference that the cache gives up is still counted. */
  lemma UncacheKeeps(s: Shard, held: multiset<nat>, e: nat)
    requires Inv(s, held) && e in s.cached
    ensures e in s.refs && e in s.info && s.info[e].charge <= s.usage
    ensures Inv(Uncache(s, e), held + multiset{e})
  {
    ChargeCounted(s, held, e);
    WithoutIs(s.lru, e);
    WithoutIs(s.inUse, e);
    if s.refs[e] == 1 { ChargesWithout(s.info, s.lru, e); } else { ChargesWithout(s.info, s.inUse, e); }
  }

  /** A new handle, given to the caller and, unless caching is off, to the cache. */
  function Added(s: Shard, e: nat, x: Info, cache: bool): Shard
  {
    var t := s.(info := s.info[e := x]);
    if cache then t.(refs := s.refs[e := 2], cached := s.cached + {e}, inUse := s.inUse + [e], usage := s.usage + x.charge)
    else t.(refs := s.refs[e := 1])
  }

  lemma AddedCounts(s: Shard, held: multiset<nat>, e: nat, x: Info, cache: bool)
    requires CountsOk(s, held) && ListsOk(s) && DeletedOk(s) && e !in s.info
    ensures CountsOk(Added(s, e, x, cache), held + multiset{e}) && DeletedOk(Added(s, e, x, cache))
    ensures ListsOk(Added(s, e, x, cache))
  {
  }

  lemma AddedKeeps(s: Shard, held: multiset<nat>, e: nat, x: Info, cache: bool)
    requires Inv(s, held) && e !in s.info
    ensures Inv(Added(s, e, x, cache), held + multiset{e})
  {
    var t := Added(s, e, x, cache);
    AddedCounts(s, held, e, x, cache);
    ChargesSame(s.info, t.info, s.lru);
    ChargesSame(s.info, t.info, s.inUse);
    if cache { ChargesAppend(t.info, s.inUse, e); }
  }

  /** FinishErase. */
  predicate Erasable(s: Shard, e: nat)
  {
    e in s.refs && s.refs[e] > 0 && e in s.info && s.info[e].charge <= s.usage
  }

  function Erased(s: Shard, e: nat): Shard
    requires Erasable(s, e)
  {
    Unref(Uncache(s, e), e)
  }

  lemma ErasedKeeps(s: Shard, held: multiset<nat>, e: nat)
    requires Inv(s, held) && e in s.cached
    ensures Erasable(s, e)
    ensures Inv(Erased(s, e), held) && Erased(s, e).cached == s.cached - {e} && Erased(s, e).info == s.info
    ensures Erased(s, e).lru == Without(s.lru, e) && s.deleted <= Erased(s, e).deleted
  {
    ChargeCounted(s, held, e);
    UncacheKeeps(s, held, e);
    UnrefKeeps(Uncache(s, e), held + multiset{e}, e);
    assert held + multiset{e} - multiset{e} == held;
    if s.refs[e] != 1 { NothingToRemove(s.lru, e); }
  }

  lemma {:induction false} NothingToRemove(s: seq<nat>, x: nat)
    requires x !in s
    ensures Without(s, x) == s
  {
    if s != [] {
      NothingToRemove(s[1..], x);
      assert s == [s[0]] + s[1..];
    }
  }

  /** The hash table holds exactly the cached entries. */
  ghost predicate Agrees(contents: map<Label, nat>, info: map<nat, Info>, ids: set<nat>)
  {
    && (forall e :: e in ids ==> e in info && info[e].name in contents && contents[info[e].name] == e)
    && (forall t :: t in contents ==> contents[t] in ids && contents[t] in info && info[contents[t]].name == t)
  }

  lemma AgreesWithout(contents: map<Label, nat>, info: map<nat, Info>, ids: set<nat>, t: Label)
    requires Agrees(contents, info, ids) && t in contents
    ensures Agrees(contents - {t}, info, ids - {contents[t]})
  {
  }

  lemma AgreesWith(contents: map<Label, nat>, info: map<nat, Info>, ids: set<nat>, e: nat, x: Info)
    requires Agrees(contents, info, ids) && e !in info && e !in ids
    ensures x.name in contents ==> Agrees(contents[x.name := e], info[e := x], ids + {e} - {contents[x.name]})
    ensures x.name !in contents ==> Agrees(contents[x.name := e], info[e := x], ids + {e})
  {
  }

  /** A handle that is not cached does not concern the table. */
  lemma AgreesSame(contents: map<Label, nat>, info: map<nat, Info>, ids: set<nat>, e: nat, x: Info)
    requires Agrees(contents, info, ids) && e !in info && e !in ids
    ensures Agrees(contents, info[e := x], ids)
  {
  }

  /** The entry with a name, if any, leaves table and cache. */
  ghost function Dropped(s: Shard, contents: map<Label, nat>, t: Label): Shard
    requires t in contents ==> Erasable(s, contents[t])
  {
    if t in contents then Erased(s, contents[t]) else s
  }

  lemma DroppedKeeps(s: Shard, held: multiset<nat>, contents: map<Label, nat>, t: Label)
    requires Inv(s, held) && Agrees(contents, s.info, s.cached)
    ensures t in contents ==> Erasable(s, contents[t])
    ensures
      var d := Dropped(s, contents, t);
      && Inv(d, held) && Agrees(contents - {t}, d.info, d.cached) && d.info == s.info && s.deleted <= d.deleted
      && (t in contents ==> d.lru == Without(s.lru, contents[t]))
  {
    if t in contents {
      ErasedKeeps(s, held, contents[t]);
      AgreesWithout(contents, s.info, s.cached, t);
    } else {
      assert contents - {t} == contents;
    }
  }

  /** The oldest entry of the lru list is cached, and no client refers to it. */
  lemma OldestKept(s: Shard, held: multiset<nat>, contents: map<Label, nat>)
    requires Inv(s, held) && Agrees(contents, s.info, s.cached) && s.lru != []
    ensures s.lru[0] in s.info
    ensures
      var e := s.lru[0];
      var t := s.info[e].name;
      t in contents && contents[t] == e && Without(s.lru, e) == s.lru[1..] && Kept(contents - {t}, contents, held)
  {
  }

  lemma KeptOn(now: map<Label, nat>, mid: map<Label, nat>, before: map<Label, nat>, held: multiset<nat>)
    requires Kept(now, mid, held) && Kept(mid, before, held)
    ensures Kept(now, before, held)
  {
  }

  /** A new entry, in place of the one with the same name. */
  ghost function Entered(s: Shard, contents: map<Label, nat>, e: nat, x: Info): Shard
    requires x.name in contents ==> Erasable(Added(s, e, x, true), contents[x.name])
  {
    var t := Added(s, e, x, true);
    if x.name in contents then Erased(t, contents[x.name]) else t
  }

  lemma EnteredKeeps(s: Shard, held: multiset<nat>, contents: map<Label, nat>, e: nat, x: Info)
    requires Inv(s, held) && e !in s.info && Agrees(contents, s.info, s.cached)
    ensures x.name in contents ==> Erasable(Added(s, e, x, true), contents[x.name])
    ensures
      var t := Entered(s, contents, e, x);
      && Inv(t, held + multiset{e}) && Agrees(contents[x.name := e], t.info, t.cached)
      && t.info == s.info[e := x] && s.deleted <= t.deleted
  {
    AddedKeeps(s, held, e, x, true);
    AgreesWith(contents, s.info, s.cached, e, x);
    if x.name in contents { ErasedKeeps(Added(s, e, x, true), held + multiset{e}, contents[x.name]); }
  }

  lemma UncachedKeeps(s: Shard, held: multiset<nat>, contents: map<Label, nat>, e: nat, x: Info)
    requires Inv(s, held) && e !in s.info && Agrees(contents, s.info, s.cached)
    ensures
      var t := Added(s, e, x, false);
      Inv(t, held + multiset{e}) && Agrees(contents, t.info, t.cached) && t.info == s.info[e := x] && t.deleted == s.deleted
  {
    AddedKeeps(s, held, e, x, false);
    AgreesSame(contents, s.info, s.cached, e, x);
  }

  /** Nothing is added or changed, and only entries that no client refers to are dropped. */
  ghost predicate Kept(now: map<Label, nat>, before: map<Label, nat>, held: multiset<nat>)
  {
    && (forall t :: t in now ==> t in before && now[t] == before[t])
    && (forall t :: t in before && held[before[t]] > 0 ==> t in now)
  }

  // --- The invariant, clause by clause ------------------------------------------------------

  datatype Clause = Counts | Lists | Usage | Deleters | Table | Names

  ghost predicate Part(c: Clause, s: Shard, held: multiset<nat>, contents: map<Label, nat>, next: nat)
  {
    match c
    case Counts => CountsOk(s, held)
    case Lists => ListsOk(s)
    case Usage => UsageOk(s)
    case Deleters => DeletedOk(s)
    case Table => Agrees(contents, s.info, s.cached)
    case Names => forall e :: e in s.info ==> e < next
  }

  /** A shard with the handles that clients have, the contents of its table and the identity of the next handle. */
  ghost predicate Sound(s: Shard, held: multiset<nat>, contents: map<Label, nat>, next: nat)
  {
    forall c :: Part(c, s, held, contents, next)
  }

  lemma SoundParts(s: Shard, held: multiset<nat>, contents: map<Label, nat>, next: nat)
    requires Sound(s, held, contents, next)
    ensures Inv(s, held) && Agrees(contents, s.info, s.cached) && forall e :: e in s.info ==> e < next
  {
    assert Part(Counts, s, held, contents, next) && Part(Lists, s, held, contents, next) && Part(Usage, s, held, contents, next);
    assert Part(Deleters, s, held, contents, next) && Part(Table, s, held, contents, next) && Part(Names, s, held, contents, next);
  }

  lemma SoundFrom(s: Shard, held: multiset<nat>, contents: map<Label, nat>, next: nat)
    requires Inv(s, held) && Agrees(contents, s.info, s.cached) && forall e :: e in s.info ==> e < next
    ensures Sound(s, held, contents, next)
  {
  }

  lemma RefSound(s: Shard, held: multiset<nat>, contents: map<Label, nat>, next: nat, t: Label)
    requires Sound(s, held, contents, next) && t in contents
    ensures contents[t] in s.refs && Sound(Ref(s, contents[t]), held + multiset{contents[t]}, contents, next)
  {
    SoundParts(s, held, contents, next);
    RefKeeps(s, held, contents[t]);
    SoundFrom(Ref(s, contents[t]), held + multiset{contents[t]}, contents, next);
  }

  lemma UnrefSound(s: Shard, held: multiset<nat>, contents: map<Label, nat>, next: nat, e: nat)
    requires Sound(s, held, contents, next) && e in held
    ensures e in s.refs && s.refs[e] > 0 && Sound(Unref(s, e), held - multiset{e}, contents, next)
    ensures Unref(s, e).cached == s.cached
    ensures Unref(s, e).deleted == s.deleted + if held[e] == 1 && e !in s.cached then [e] else []
  {
    SoundParts(s, held, contents, next);
    UnrefKeeps(s, held, e);
    UnrefDeletes(s, held, e);
    SoundFrom(Unref(s, e), held - multiset{e}, contents, next);
  }

  lemma DroppedSound(s: Shard, held: multiset<nat>, contents: map<Label, nat>, next: nat, t: Label)
    requires Sound(s, held, contents, next)
    ensures t in contents ==> Erasable(s, contents[t])
    ensures
      var d := Dropped(s, contents, t);
      && Sound(d, held, contents - {t}, next) && d.info == s.info && s.deleted <= d.deleted
      && (t in contents ==> d.lru == Without(s.lru, contents[t]))
  {
    SoundParts(s, held, contents, next);
    DroppedKeeps(s, held, contents, t);
    SoundFrom(Dropped(s, contents, t), held, contents - {t}, next);
  }

  lemma OldestSound(s: Shard, held: multiset<nat>, contents: map<Label, nat>, next: nat)
    requires Sound(s, held, contents, next) && s.lru != []
    ensures s.lru[0] in s.info
    ensures
      var e := s.lru[0];
      var t := s.info[e].name;
      t in contents && contents[t] == e && Without(s.lru, e) == s.lru[1..] && Kept(contents - {t}, contents, held)
  {
    SoundParts(s, held, contents, next);
    OldestKept(s, held, contents);
  }

  lemma EnteredSound(s: Shard, held: multiset<nat>, contents: map<Label, nat>, e: nat, x: Info)
    requires Sound(s, held, contents, e)
    ensures x.name in contents ==> Erasable(Added(s, e, x, true), contents[x.name])
    ensures Sound(Entered(s, contents, e, x), held + multiset{e}, contents[x.name := e], e + 1)
    ensures s.deleted <= Entered(s, contents, e, x).deleted
  {
    SoundParts(s, held, contents, e);
    EnteredKeeps(s, held, contents, e, x);
    SoundFrom(Entered(s, contents, e, x), held + multiset{e}, contents[x.name := e], e + 1);
  }

  lemma UncachedSound(s: Shard, held: multiset<nat>, contents: map<Label, nat>, e: nat, x: Info)
    requires Sound(s, held, contents, e)
    ensures Sound(Added(s, e, x, false), held + multiset{e}, contents, e + 1)
  {
    SoundParts(s, held, contents, e);
    UncachedKeeps(s, held, contents, e, x);
    SoundFrom(Added(s, e, x, false), held + multiset{e}, contents, e + 1);
  }

  /** When the lru list is empty, clients refer to all that is cached. */
  lemma NoneIdle(s: Shard, held: multiset<nat>, contents: map<Label, nat>, next: nat)
    requires Sound(s, held, contents, next) && s.lru == []
    ensures forall t :: t in contents ==> held[contents[t]] > 0
  {
    SoundParts(s, held, contents, next);
  }

  lemma EmptySound()
    ensures Sound(Shard(map[], map[], {}, [], [], 0, []), multiset{}, map[], 0)
  {
    SoundFrom(Shard(map[], map[], {}, [], [], 0, []), multiset{}, map[], 0);
  }

  class LRUCache {
    const capacity: nat
    const table: HandleTable
    var shard: Shard
    var nextId: nat
    /** The handles that clients have and have not released. */
    ghost var held: multiset<nat>

    ghost predicate Valid()
      reads this, table
    {
      table.Valid() && Sound(shard, held, table.contents, nextId)
    }

    constructor (size: nat)
      ensures Valid() && fresh(table) && held == multiset{} && table.contents == map[] && capacity == size
    {
      capacity := size;
      table := new HandleTable();
      shard := Shard(map[], map[], {}, [], [], 0, []);
      nextId, held := 0, multiset{};
      EmptySound();
    }

    /** The entry has been taken out of the table; the cache gives up its reference. */
    method FinishErase(e: Option<nat>) returns (erased: bool)
      requires e.Some? ==> Erasable(shard, e.value)
      modifies `shard
      ensures erased == e.Some? && shard == (if e.Some? then Erased(old(shard), e.value) else old(shard))
    {
      if e.Some? {
        shard := Uncache(shard, e.value);
        shard := Unref(shard, e.value);
      }
      erased := e.Some?;
    }

    method Lookup(t: Label) returns (r: Option<nat>)
      requires Valid()
      modifies `shard, `held
      ensures Valid() && r == (if t in table.contents then Some(table.contents[t]) else None)
      ensures held == (if r.Some? then old(held) + multiset{r.value} else old(held))
      ensures shard.deleted == old(shard).deleted && shard.cached == old(shard).cached
    {
      r := table.Lookup(t);
      if r.Some? {
        RefSound(shard, held, table.contents, nextId, t);
        shard := Ref(shard, r.value);
        held := held + multiset{r.value};
      }
    }

    method Release(e: nat)
      requires Valid() && e in held
      modifies `shard, `held
      ensures Valid() && held == old(held) - multiset{e} && shard.cached == old(shard).cached
      ensures shard.deleted == old(shard).deleted + if old(held)[e] == 1 && e !in shard.cached then [e] else []
    {
      UnrefSound(shard, held, table.contents, nextId, e);
      shard := Unref(shard, e);
      held := held - multiset{e};
    }

    method Erase(t: Label)
      requires Valid()
      modifies `shard, table
      ensures Valid() && table.contents == old(table.contents) - {t} && old(shard).deleted <= shard.deleted
      ensures shard.info == old(shard).info
      ensures t in old(table.contents) ==> shard.lru == Without(old(shard).lru, old(table.contents)[t])
    {
      DroppedSound(shard, held, table.contents, nextId, t);
      var e := table.Remove(t);
      var _ := FinishErase(e);
    }

    /** Evict the oldest entry that no client refers to. */
    method EvictOldest()
      requires Valid() && shard.lru != []
      modifies `shard, table
      ensures Valid() && shard.lru == old(shard).lru[1..] && shard.info == old(shard).info
      ensures old(shard).deleted <= shard.deleted && Kept(table.contents, old(table.contents), held)
    {
      OldestSound(shard, held, table.contents, nextId);
      Erase(shard.info[shard.lru[0]].name);
    }

    /** The loop at the end of Insert. */
    method Shrink()
      requires Valid()
      modifies `shard, table
      ensures Valid() && (shard.usage <= capacity || shard.lru == [])
      ensures shard.info == old(shard).info && old(shard).deleted <= shard.deleted
      ensures Kept(table.contents, old(table.contents), held)
    {
      while shard.usage > capacity && shard.lru != []
        invariant Valid() && shard.info == old(shard).info && old(shard).deleted <= shard.deleted
        invariant Kept(table.contents, old(table.contents), held)
        decreases |shard.lru|
      {
        ghost var before := table.contents;
        EvictOldest();
        KeptOn(table.contents, before, old(table.contents), held);
      }
    }

    /** Make a handle and put it in place of the entry with the same name. */
    method Enter(t: Label, charge: nat) returns (e: nat)
      requires Valid()
      modifies this, table
      ensures Valid() && e == old(nextId) && held == old(held) + multiset{e}
      ensures table.contents == old(table.contents)[t := e] && old(shard).deleted <= shard.deleted
    {
      EnteredSound(shard, held, table.contents, nextId, Info(t, charge));
      e := PlaceHandle(Info(t, charge));
      held := held + multiset{e};
    }

    method PlaceHandle(x: Info) returns (e: nat)
      requires table.Valid() && (x.name in table.contents ==> Erasable(Added(shard, nextId, x, true), table.contents[x.name]))
      modifies `shard, `nextId, table
      ensures table.Valid() && e == old(nextId) && nextId == e + 1 && table.contents == old(table.contents)[x.name := e]
      ensures shard == Entered(old(shard), old(table.contents), e, x)
    {
      e := MakeHandle(x, true);
      Replace(e, x.name);
    }

    method MakeHandle(x: Info, cache: bool) returns (e: nat)
      modifies `shard, `nextId
      ensures e == old(nextId) && nextId == e + 1 && shard == Added(old(shard), e, x, cache)
    {
      e := nextId;
      shard, nextId := Added(shard, e, x, cache), e + 1;
    }

    /** The hash table takes the new entry, and the one it replaces leaves the cache. */
    method Replace(e: nat, t: Label)
      requires table.Valid() && (t in table.contents ==> Erasable(shard, table.contents[t]))
      modifies `shard, table
      ensures table.Valid() && table.contents == old(table.contents)[t := e]
      ensures shard == if t in old(table.contents) then Erased(old(shard), old(table.contents)[t]) else old(shard)
    {
      var was := table.Insert(Item(e, t));
      var _ := FinishErase(was);
    }

    /** Make a handle when caching is off. */
    method EnterUncached(t: Label, charge: nat) returns (e: nat)
      requires Valid()
      modifies `shard, `nextId, `held
      ensures Valid() && e == old(nextId) && held == old(held) + multiset{e} && shard.deleted == old(shard).deleted
    {
      UncachedSound(shard, held, table.contents, nextId, Info(t, charge));
      e := MakeHandle(Info(t, charge), false);
      held := held + multiset{e};
    }

    /** Right after Insert the cache is within its capacity, or holds only entries that clients refer to. */
    method Insert(t: Label, charge: nat) returns (e: nat)
      requires Valid()
      modifies this, table
      ensures Valid() && e == old(nextId) && held == old(held) + multiset{e}
      ensures shard.usage <= capacity || shard.lru == []
      ensures Kept(table.contents, if capacity > 0 then old(table.contents)[t := e] else old(table.contents), held)
      ensures capacity > 0 ==> t in table.contents && table.contents[t] == e
      ensures old(shard).deleted <= shard.deleted
    {
      if capacity > 0 {
        e := Enter(t, charge);
      } else {
        e := EnterUncached(t, charge);
      }
      Shrink();
    }

    method Prune()
      requires Valid()
      modifies `shard, table
      ensures Valid() && shard.lru == [] && old(shard).deleted <= shard.deleted
      ensures Kept(table.contents, old(table.contents), held) && forall t :: t in table.contents ==> held[table.contents[t]] > 0
    {
      while shard.lru != []
        invariant Valid() && old(shard).deleted <= shard.deleted
        invariant Kept(table.contents, old(table.contents), held)
        decreases |shard.lru|
      {
        ghost var before := table.contents;
        EvictOldest();
        KeptOn(table.contents, before, old(table.contents), held);
      }
      NoneIdle(shard, held, table.contents, nextId);
    }
  }
}
