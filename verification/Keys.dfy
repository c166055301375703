/**
 Internal keys and sorted runs of entries: what a memtable or a table file holds.
 */
module Keys {
  import opened Bytes

  datatype Option<+T> = None | Some(value: T)

  const NUM_LEVELS: nat := 7

  /** kMaxSequenceNumber: 56 bits. */
  const MAX_SEQUENCE: nat := 0xff_ffff_ffff_ffff

  /** The bytes of a value that a table file keeps, and those of the Merkle proof behind them. */
  const VALUE_SIZE: nat := 112
  const PROOF_SIZE: nat := 240

  /** A user key stands for its place in the comparator's order; see Bytes.RankOrder. */
  type UserKey = real

  datatype Kind = Deletion | Value

  datatype IKey = IKey(user: UserKey, sequence: nat, kind: Kind)

  datatype Entry = Entry(key: IKey, value: Bytes)

  /** The bytes that BuildTable copies from the address of a value: past the end of a short value lies junk. */
  function Window(value: Bytes, junk: Bytes): (w: Bytes)
    requires |junk| == VALUE_SIZE
    ensures |w| == VALUE_SIZE && forall i :: 0 <= i < |value| && i < VALUE_SIZE ==> w[i] == value[i]
  {
    (value + junk)[..VALUE_SIZE]
  }

  /** PackSequenceAndType. */
  function Tag(k: IKey): nat
  {
    256 * k.sequence + (if k.kind.Value? then 1 else 0)
  }

  /** InternalKeyComparator: increasing user key, then decreasing sequence number, then decreasing type. */
  predicate Before(a: IKey, b: IKey)
  {
    a.user < b.user || (a.user == b.user && Tag(a) > Tag(b))
  }

  /** The LookupKey for user key u at sequence number s. */
  function Target(u: UserKey, s: nat): IKey
  {
    IKey(u, s, Value)
  }

  /** Before, for keys whose sequence numbers differ: sequence numbers are never shared by two writes. */
  predicate Ahead(a: IKey, b: IKey)
  {
    a.user < b.user || (a.user == b.user && a.sequence > b.sequence)
  }

  ghost predicate Sorted(t: seq<Entry>)
  {
    forall i, j :: 0 <= i < j < |t| ==> Ahead(t[i].key, t[j].key)
  }

  /** The index of the first entry at or after the target: where an iterator's Seek lands. */
  function SeekIndex(t: seq<Entry>, target: IKey): (i: nat)
    ensures i <= |t|
    ensures forall j :: 0 <= j < i ==> Before(t[j].key, target)
    ensures i < |t| ==> !Before(t[i].key, target)
  {
    if t == [] || !Before(t[0].key, target) then 0 else 1 + SeekIndex(t[1..], target)
  }

  /** That index, or -1 at the end. */
  function SeekTo(t: seq<Entry>, target: IKey): (p: int)
    ensures -1 <= p < |t|
  {
    var i := SeekIndex(t, target);
    if i < |t| then i else -1
  }

  /** MemTable::Get, and Table::InternalGet followed by SaveValue: seek, then compare the user key. */
  function Find(t: seq<Entry>, u: UserKey, s: nat): (r: Option<Entry>)
    ensures r.Some? ==> r.value in t && r.value.key.user == u
  {
    var i := SeekIndex(t, Target(u, s));
    if i < |t| && t[i].key.user == u then Some(t[i]) else None
  }

  /** Entry e is a version of user key u that a reader at sequence number s may see. */
  predicate Sees(e: Entry, u: UserKey, s: nat)
  {
    e.key.user == u && e.key.sequence <= s
  }

  ghost function Items(t: seq<Entry>): set<Entry>
  {
    set e | e in t
  }

  /** r is the newest entry of a that a reader of u at s may see, and None when there is none. */
  ghost predicate IsNewest(a: set<Entry>, u: UserKey, s: nat, r: Option<Entry>)
  {
    match r
    case None => forall e :: e in a ==> !Sees(e, u, s)
    case Some(n) =>
      && n in a && Sees(n, u, s)
      && forall e {:trigger Sees(e, u, s)} {:trigger e in a} :: e in a && Sees(e, u, s) ==> e.key.sequence <= n.key.sequence
  }

  lemma FindIsNewest(t: seq<Entry>, u: UserKey, s: nat)
    requires Sorted(t)
    ensures IsNewest(Items(t), u, s, Find(t, u, s))
  {
  }

  /** For every user key, all of a is newer than all of b. */
  ghost predicate Over(a: set<Entry>, b: set<Entry>)
  {
    forall x, y {:trigger x in a, y in b} :: x in a && y in b && x.key.user == y.key.user ==> x.key.sequence > y.key.sequence
  }

  /** Searching a first and b only on a miss finds the newest entry of both. */
  lemma NewestOfLayers(a: set<Entry>, b: set<Entry>, u: UserKey, s: nat, r: Option<Entry>, q: Option<Entry>)
    requires Over(a, b)
    requires IsNewest(a, u, s, r) && IsNewest(b, u, s, q)
    ensures IsNewest(a + b, u, s, if r.Some? then r else q)
  {
  }

  /** SkipList insertion of a key that is not present. */
  function Insert(t: seq<Entry>, e: Entry): (r: seq<Entry>)
    ensures forall x :: x in r <==> x in t || x == e
  {
    var i := SeekIndex(t, e.key);
    assert t == t[..i] + t[i..];
    t[..i] + [e] + t[i..]
  }

  lemma InsertSorted(t: seq<Entry>, e: Entry)
    requires Sorted(t)
    requires forall x :: x in t ==> x.key.user != e.key.user || x.key.sequence != e.key.sequence
    ensures Sorted(Insert(t, e))
  {
    var i, r := SeekIndex(t, e.key), Insert(t, e);
    forall j | 0 <= j < |t| ensures if j < i then Ahead(t[j].key, e.key) else Ahead(e.key, t[j].key) {
      assert t[j] in t;
      if i < j { assert t[i] in t && Ahead(t[i].key, t[j].key); }
    }
    forall a, b | 0 <= a < b < |r| ensures Ahead(r[a].key, r[b].key) {
      assert r[a] == (if a < i then t[a] else if a == i then e else t[a - 1]);
      assert r[b] == (if b < i then t[b] else if b == i then e else t[b - 1]);
    }
  }

  lemma SortedUnique(t: seq<Entry>, x: Entry, y: Entry)
    requires Sorted(t) && x in t && y in t && x.key.user == y.key.user && x.key.sequence == y.key.sequence
    ensures x == y
  {
  }

  /** A reader at s does not notice the insertion of an entry with a larger sequence number. */
  lemma InsertUnseen(t: seq<Entry>, e: Entry, u: UserKey, s: nat)
    requires Sorted(t) && Sorted(Insert(t, e)) && e.key.sequence > s
    ensures Find(Insert(t, e), u, s) == Find(t, u, s)
  {
    var a, r := Items(t), Insert(t, e);
    FindIsNewest(t, u, s);
    FindIsNewest(r, u, s);
    assert Items(r) == a + {e} && !Sees(e, u, s);
    OneNewest(t, u, s, Find(r, u, s), Find(t, u, s));
  }

  lemma OneNewest(t: seq<Entry>, u: UserKey, s: nat, r: Option<Entry>, q: Option<Entry>)
    requires Sorted(t) && IsNewest(Items(t), u, s, r) && IsNewest(Items(t), u, s, q)
    ensures r == q
  {
    if r.Some? && q.Some? { SortedUnique(t, r.value, q.value); }
  }
}
