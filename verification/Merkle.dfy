/**
 The Merkle tree that BuildTable lays out in one array: N = 2^h leaves in slots 0 .. N-1, each further layer right
 after the one below it, and the root in slot 2N-2. The hash of a pair and of a record are any functions.
 */
module Merkle {
  import opened Bytes
  import opened Keys

  type Digest = Bytes

  type PairHash = (Digest, Digest) -> Digest

  // --- The layout ---------------------------------------------------------------------------

  /** The slot of the parent of the node in slot x. */
  function Parent(n: nat, x: nat): nat { x / 2 + n }

  /** The slot of the sibling of the node in slot x. */
  function Sibling(x: nat): (s: nat)
    ensures s / 2 == x / 2 && s != x
  {
    if x % 2 == 1 then x - 1 else x + 1
  }

  /** The node in slot y is the hash of its two children. */
  ghost predicate NodeOk(hash: PairHash, a: seq<Digest>, n: nat, y: nat)
    requires n <= y < |a| && 2 * (y - n) + 1 < |a|
  {
    a[y] == hash(a[2 * (y - n)], a[2 * (y - n) + 1])
  }

  /** Every node from slot n on, up to but not including slot m, is the hash of its children, which lie below it. */
  ghost predicate Hashed(hash: PairHash, a: seq<Digest>, n: nat, m: nat)
    requires m <= |a| && m <= 2 * n - 1
  {
    forall y :: n <= y < m ==> NodeOk(hash, a, n, y)
  }

  /** The tree is complete: slot 2n-2 is the root. */
  ghost predicate Tree(hash: PairHash, a: seq<Digest>, n: nat)
  {
    n >= 1 && |a| == 2 * n && Hashed(hash, a, n, 2 * n - 1)
  }

  /** A node and its sibling, in the order of their slots, hash to their parent. */
  function Join(hash: PairHash, x: nat, node: Digest, sibling: Digest): Digest
  {
    if x % 2 == 1 then hash(sibling, node) else hash(node, sibling)
  }

  lemma ParentHash(hash: PairHash, a: seq<Digest>, n: nat, x: nat)
    requires Tree(hash, a, n) && x < 2 * n - 2
    ensures Parent(n, x) < 2 * n - 1 && Sibling(x) < 2 * n - 2
    ensures a[Parent(n, x)] == Join(hash, x, a[x], a[Sibling(x)])
  {
    var y := Parent(n, x);
    assert 2 * (y - n) == x - x % 2;
    assert NodeOk(hash, a, n, y);
  }

  /** The slots of the layer that has w nodes. */
  ghost predicate InLayer(n: nat, w: nat, x: nat)
  {
    2 * n - 2 * w <= x < 2 * n - w
  }

  lemma ParentLayer(n: nat, w: nat, x: nat)
    requires w >= 2 && w % 2 == 0 && w <= n && InLayer(n, w, x)
    ensures x < 2 * n - 2 && InLayer(n, w / 2, Parent(n, x))
  {
  }

  // --- Building -----------------------------------------------------------------------------

  /** The first loop of BuildTable: one leaf for each record, at most 2^h of them. */
  method FillLeaves(mac: Bytes -> Digest, records: seq<Bytes>, n: nat, a: array<Digest>) returns (count: nat)
    requires a.Length == 2 * n
    modifies a
    ensures count == (if |records| < n then |records| else n)
    ensures forall i :: 0 <= i < count ==> a[i] == mac(records[i])
  {
    count := 0;
    while count < |records| && count < n
      invariant count <= |records| && count <= n
      invariant forall i :: 0 <= i < count ==> a[i] == mac(records[i])
    {
      a[count] := mac(records[count]);
      count := count + 1;
    }
  }

  /** The inner loop: the layer above the stride nodes that start at previous. */
  method FillLayer(hash: PairHash, n: nat, previous: nat, stride: nat, a: array<Digest>)
    requires a.Length == 2 * n && stride % 2 == 0 && 2 <= stride <= n && previous == 2 * n - 2 * stride
    requires Hashed(hash, a[..], n, n + previous / 2)
    modifies a
    ensures Hashed(hash, a[..], n, n + (previous + stride) / 2)
    ensures forall i :: 0 <= i < n ==> a[i] == old(a[i])
  {
    var mp, j := n + previous / 2, 0;
    while j < stride
      invariant 0 <= j <= stride && j % 2 == 0 && mp == n + (previous + j) / 2
      invariant Hashed(hash, a[..], n, mp)
      invariant forall i :: 0 <= i < n ==> a[i] == old(a[i])
    {
      ghost var before := a[..];
      a[mp] := hash(a[previous + j], a[previous + j + 1]);
      OneMore(hash, before, n, mp, a[..]);
      mp := mp + 1;
      j := j + 2;
    }
  }

  /** The loops that fill the inner layers, whatever the leaves are. */
  method FillLayers(hash: PairHash, h: nat, a: array<Digest>)
    requires a.Length == 2 * Pow2(h)
    modifies a
    ensures Tree(hash, a[..], Pow2(h))
    ensures forall i :: 0 <= i < Pow2(h) ==> a[i] == old(a[i])
  {
    var n := Pow2(h);
    var previous: nat, stride := 0, n;
    for i := 0 to h
      invariant stride == Pow2(h - i) <= n && previous == 2 * n - 2 * stride
      invariant Hashed(hash, a[..], n, n + previous / 2)
      invariant forall k :: 0 <= k < n ==> a[k] == old(a[k])
    {
      FillLayer(hash, n, previous, stride, a);
      previous := previous + stride;
      stride := stride / 2;
    }
  }

  lemma OneMore(hash: PairHash, before: seq<Digest>, n: nat, mp: nat, after: seq<Digest>)
    requires n <= mp < 2 * n - 1 && |before| == 2 * n && Hashed(hash, before, n, mp)
    requires after == before[mp := hash(before[2 * (mp - n)], before[2 * (mp - n) + 1])]
    ensures Hashed(hash, after, n, mp + 1)
  {
    forall y | n <= y < mp + 1 ensures NodeOk(hash, after, n, y) {
      if y < mp { assert NodeOk(hash, before, n, y); }
    }
  }

  // --- Proofs -------------------------------------------------------------------------------

  /** h more layers lie above slot x. */
  predicate Under(n: nat, x: nat, h: nat)
  {
    Pow2(h) <= n && 2 * n - 2 * Pow2(h) <= x < 2 * n - Pow2(h)
  }

  lemma Up(n: nat, x: nat, h: nat)
    requires h > 0 && Under(n, x, h)
    ensures x < 2 * n - 2 && Sibling(x) < 2 * n - 2 && Under(n, Parent(n, x), h - 1)
  {
    ParentLayer(n, Pow2(h), x);
  }

  /** The siblings on the way from slot x up through h layers. */
  function Path(a: seq<Digest>, n: nat, x: nat, h: nat): (proof: seq<Digest>)
    requires |a| == 2 * n && Under(n, x, h)
    ensures |proof| == h
    decreases h
  {
    if h == 0 then []
    else
      Up(n, x, h);
      [a[Sibling(x)]] + Path(a, n, Parent(n, x), h - 1)
  }

  lemma PathStep(a: seq<Digest>, n: nat, x: nat, h: nat, proof: seq<Digest>)
    requires |a| == 2 * n && h > 0 && Under(n, x, h)
    ensures Sibling(x) < |a| && Under(n, Parent(n, x), h - 1)
    ensures proof + Path(a, n, x, h) == proof + [a[Sibling(x)]] + Path(a, n, Parent(n, x), h - 1)
  {
    Up(n, x, h);
  }

  /** Hash a node with its proof, in the order that the path's parity gives. */
  function Folded(hash: PairHash, n: nat, x: nat, node: Digest, proof: seq<Digest>): Digest
    decreases |proof|
  {
    if proof == [] then node
    else Folded(hash, n, Parent(n, x), Join(hash, x, node, proof[0]), proof[1..])
  }

  /** For every height, the path of every node folds to the root in slot 2n-2. */
  lemma {:induction false} PathFolds(hash: PairHash, a: seq<Digest>, n: nat, x: nat, h: nat)
    requires Tree(hash, a, n) && Under(n, x, h)
    ensures Folded(hash, n, x, a[x], Path(a, n, x, h)) == a[2 * n - 2]
    decreases h
  {
    if h > 0 {
      Up(n, x, h);
      ParentHash(hash, a, n, x);
      PathFolds(hash, a, n, Parent(n, x), h - 1);
      assert Path(a, n, x, h)[1..] == Path(a, n, Parent(n, x), h - 1);
    }
  }

  ghost predicate Injective(hash: PairHash)
  {
    forall a, b, c, d :: hash(a, b) == hash(c, d) ==> a == c && b == d
  }

  /** With an injective hash only the node itself with its own path folds to the root. */
  lemma {:induction false} OnlyPathFolds(hash: PairHash, a: seq<Digest>, n: nat, x: nat, h: nat, node: Digest, proof: seq<Digest>)
    requires Tree(hash, a, n) && Under(n, x, h) && Injective(hash) && |proof| == h
    ensures Folded(hash, n, x, node, proof) == a[2 * n - 2] <==> node == a[x] && proof == Path(a, n, x, h)
    decreases h
  {
    PathFolds(hash, a, n, x, h);
    if h > 0 && Folded(hash, n, x, node, proof) == a[2 * n - 2] {
      Up(n, x, h);
      ParentHash(hash, a, n, x);
      OnlyPathFolds(hash, a, n, Parent(n, x), h - 1, Join(hash, x, node, proof[0]), proof[1..]);
      assert Join(hash, x, node, proof[0]) == Join(hash, x, a[x], a[Sibling(x)]);
      assert proof == [proof[0]] + proof[1..];
    }
  }

  /** With an injective hash the root determines every node below it. */
  lemma {:induction false} RootDetermines(hash: PairHash, a: seq<Digest>, b: seq<Digest>, n: nat, x: nat)
    requires Tree(hash, a, n) && Tree(hash, b, n) && Injective(hash)
    requires a[2 * n - 2] == b[2 * n - 2] && x <= 2 * n - 2
    ensures a[x] == b[x]
    decreases 2 * n - x
  {
    if x < 2 * n - 2 {
      ParentHash(hash, a, n, x);
      ParentHash(hash, b, n, x);
      RootDetermines(hash, a, b, n, Parent(n, x));
    }
  }

  /** The loop that copies the proof of the record at position index. */
  method ExtractProof(a: array<Digest>, h: nat, position: nat) returns (proof: seq<Digest>)
    requires a.Length == 2 * Pow2(h) && position < Pow2(h)
    ensures proof == Path(a[..], Pow2(h), position, h)
  {
    var n := Pow2(h);
    var index := position;
    proof := [];
    for i := 0 to h
      invariant Under(n, index, h - i)
      invariant proof + Path(a[..], n, index, h - i) == Path(a[..], n, position, h)
    {
      PathStep(a[..], n, index, h - i, proof);
      var pointer := if index % 2 == 1 then index - 1 else index + 1;
      index := index / 2 + n;
      proof := proof + [a[pointer]];
    }
  }

  /** What BuildTable stores for a record: 112 bytes from the address of its value on, then its proof. */
  datatype Stored = Stored(value: Bytes, proof: seq<Digest>)

  /** The Merkle part of BuildTable: stored values and root, for at most 2^h records. A value may be short, as that of a
      deletion is: then what follows it in memory is stored as well. */
  method BuildTable(hash: PairHash, mac: Bytes -> Digest, h: nat, records: seq<Bytes>, values: seq<Bytes>, junk: seq<Bytes>)
    returns (stored: seq<Stored>, root: Digest)
    requires |records| == |values| == |junk| <= Pow2(h) && forall i :: 0 <= i < |junk| ==> |junk[i]| == VALUE_SIZE
    ensures |stored| == |records|
    ensures forall i :: 0 <= i < |stored| ==> stored[i].value == Window(values[i], junk[i]) && |stored[i].proof| == h
    ensures forall i :: 0 <= i < |stored| ==> Folded(hash, Pow2(h), i, mac(records[i]), stored[i].proof) == root
  {
    var n := Pow2(h);
    var a := new Digest[2 * n];
    var count := FillLeaves(mac, records, n, a);
    FillLayers(hash, h, a);
    ghost var t := a[..];
    stored := StoreProofs(a, h, values, junk);
    root := a[2 * n - 2];
    forall i | 0 <= i < |stored| ensures Folded(hash, n, i, mac(records[i]), stored[i].proof) == root {
      PathFolds(hash, t, n, i, h);
      assert t[i] == a[i];
    }
  }

  /** The loop that adds the records with their proofs. */
  method StoreProofs(a: array<Digest>, h: nat, values: seq<Bytes>, junk: seq<Bytes>) returns (stored: seq<Stored>)
    requires a.Length == 2 * Pow2(h) && |values| == |junk| <= Pow2(h) && forall i :: 0 <= i < |junk| ==> |junk[i]| == VALUE_SIZE
    ensures |stored| == |values|
    ensures forall k :: 0 <= k < |stored| ==> stored[k] == Stored(Window(values[k], junk[k]), Path(a[..], Pow2(h), k, h))
  {
    stored := [];
    for i := 0 to |values|
      invariant |stored| == i
      invariant forall k :: 0 <= k < i ==> stored[k] == Stored(Window(values[k], junk[k]), Path(a[..], Pow2(h), k, h))
    {
      var proof := ExtractProof(a, h, i);
      stored := stored + [Stored(Window(values[i], junk[i]), proof)];
    }
  }
}
