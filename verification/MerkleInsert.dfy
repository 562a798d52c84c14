/** Inserting records into the tree. */
module MerkleInsert {
  import opened Wrappers
  import opened MerkleTree

  /** The length of the longest common prefix. */
  function Shared(a: seq<bool>, b: seq<bool>): (n: nat)
    ensures n <= |a| && n <= |b| && a[..n] == b[..n]
    ensures n < |a| && n < |b| ==> a[n] != b[n]
  {
    if a == [] || b == [] || a[0] != b[0] then 0
    else
      var n := Shared(a[1..], b[1..]);
      assert a[..n + 1] == [a[0]] + a[1..][..n] && b[..n + 1] == [b[0]] + b[1..][..n];
      n + 1
  }

  /** Whether the way to the key goes on below the node. */
  predicate GoesOn(t: Tree, at: nat, key: Key)
    requires t.Node? && at < |key|
  {
    var side := t.Side(key[at]);
    side.Some? && side.value.prefix <= key[at..] && side.value.child.Node? && at + |side.value.prefix| < |key|
  }

  /** An inner node with two branches, each on the side it belongs to. */
  function Construct(a: Branch, b: Branch): Tree
    requires a.prefix != []
  {
    if a.prefix[0] then Node(None, Some(b), Some(a)) else Node(None, Some(a), Some(b))
  }

  /** What the last node on the way to the key becomes. */
  function InsertAt(t: Tree, at: nat, key: Key, value: Record): Tree
    requires t.Node? && at < |key|
  {
    var tail, leaf := key[at..], Leaf(key, value);
    match t.Side(key[at])
    case None => t.WithSide(key[at], Branch(tail, leaf))
    case Some(b) =>
      if b.prefix == tail then t.WithSide(key[at], Branch(b.prefix, leaf))
      else
        var n := Shared(tail, b.prefix);
        if n == |tail| then t
        else t.WithSide(key[at], Branch(tail[..n], Construct(Branch(tail[n..], leaf), Branch(b.prefix[n..], b.child))))
  }

  /** The tree with the record for the key. */
  function Insert(t: Tree, at: nat, key: Key, value: Record): (r: Tree)
    requires t.Node? && at < |key|
    ensures r.Node? && r.range == t.range
  {
    match t.Side(key[at])
    case None => InsertAt(t, at, key, value)
    case Some(b) =>
      if b.prefix <= key[at..] && b.child.Node? && at + |b.prefix| < |key|
      then t.WithSide(key[at], Branch(b.prefix, Insert(b.child, at + |b.prefix|, key, value)))
      else InsertAt(t, at, key, value)
  }

  /** The new branch is well placed and holds what the old one held, and the record. */
  ghost predicate Updates(t: Tree, p: seq<bool>, b: Branch, key: Key, value: Record)
    requires t.Node? && |p| < |key|
  {
    WellPlaced(b, p, key[|p|]) && Contents(b.child) == BranchContents(t.Side(key[|p|]))[key := value]
  }

  lemma UpdatedSide(t: Tree, p: seq<bool>, root: bool, b: Branch, key: Key, value: Record)
    requires WellFormed(t, p, root) && t.Node? && p <= key && |p| < |key| == NUM_BITS && Updates(t, p, b, key, value)
    ensures var u := t.WithSide(key[|p|], b);
            WellFormed(u, p, root) && Contents(u) == Contents(t)[key := value]
  {
    var bit := key[|p|];
    var u := t.WithSide(bit, b);
    assert WellFormed(u, p, root) by { assert t.Side(!bit).Some? ==> WellPlaced(t.Side(!bit).value, p, !bit); }
    forall k | k in BranchContents(t.Side(!bit)) ensures |p| < |k| && k[|p|] != bit { KeysOnSide(t, p, root, !bit, k); }
    forall k | k in Contents(b.child) ensures |p| < |k| && k[|p|] == bit { KeysOnSide(u, p, root, bit, k); }
    assert Contents(u) == Contents(t)[key := value];
  }

  lemma {:induction false} NotTooDeep(t: Tree, p: seq<bool>)
    requires WellFormed(t, p, false)
    ensures |p| <= NUM_BITS && (|p| == NUM_BITS <==> t.Leaf?)
  {
    if t.Node? { DepthBounded(t, p, false); }
  }

  lemma NewLeaf(p: seq<bool>, q: seq<bool>, key: Key, value: Record)
    requires q != [] && p + q == key && |key| == NUM_BITS
    ensures WellPlaced(Branch(q, Leaf(key, value)), p, q[0])
  {}

  lemma ConstructContents(a: seq<bool>, b: Branch, key: Key, value: Record)
    requires a != [] && key !in Contents(b.child)
    ensures Contents(Construct(Branch(a, Leaf(key, value)), b)) == Contents(b.child)[key := value]
  {
    var leaf := Branch(a, Leaf(key, value));
    assert BranchContents(Some(leaf)) == map[key := value];
    assert Contents(Construct(leaf, b)) == Contents(b.child)[key := value];
  }

  /** A key below a branch has the branch's bits, so one that leaves it is not below it. */
  lemma KeyBelow(p: seq<bool>, b: Branch, bit: bool, key: Key, n: nat)
    requires WellPlaced(b, p, bit) && n < |b.prefix| && key in Contents(b.child)
    ensures |p| + n < |key| && b.prefix[n] == key[|p| + n]
  {
    KeysExtend(b.child, p + b.prefix, false, key);
    assert key[|p| + n] == (p + b.prefix)[|p| + n];
  }

  lemma Rejoin(p: seq<bool>, s: seq<bool>, n: nat)
    requires n <= |s|
    ensures p + s[..n] + s[n..] == p + s
  {
    assert s[..n] + s[n..] == s;
  }

  /** A node in the middle of a branch, where the key leaves it. */
  lemma SplitBranch(p: seq<bool>, b: Branch, key: Key, value: Record, tail: seq<bool>, n: nat)
    requires key == p + tail && |key| == NUM_BITS && 0 < n < |b.prefix| && n < |tail|
    requires WellPlaced(b, p, tail[0]) && b.prefix[..n] == tail[..n] && b.prefix[n] != tail[n]
    ensures WellPlaced(Branch(tail[..n], Construct(Branch(tail[n..], Leaf(key, value)), Branch(b.prefix[n..], b.child))), p, tail[0])
  {
    Rejoin(p, tail, n);
    Rejoin(p, b.prefix, n);
    NewLeaf(p + tail[..n], tail[n..], key, value);
  }

  lemma InsertInBranch(t: Tree, p: seq<bool>, root: bool, b: Branch, key: Key, value: Record, tail: seq<bool>, n: nat)
    requires WellFormed(t, p, root) && t.Node? && key == p + tail && tail != [] && |key| == NUM_BITS
    requires t.Side(tail[0]) == Some(b) && n == Shared(tail, b.prefix) && n < |tail| && n < |b.prefix|
    ensures var u := t.WithSide(tail[0], Branch(tail[..n], Construct(Branch(tail[n..], Leaf(key, value)), Branch(b.prefix[n..], b.child))));
            WellFormed(u, p, root) && Contents(u) == Contents(t)[key := value]
  {
    assert WellPlaced(b, p, tail[0]);
    SplitBranch(p, b, key, value, tail, n);
    if key in Contents(b.child) { KeyBelow(p, b, tail[0], key, n); }
    ConstructContents(tail[n..], Branch(b.prefix[n..], b.child), key, value);
    UpdatedSide(t, p, root, Branch(tail[..n], Construct(Branch(tail[n..], Leaf(key, value)), Branch(b.prefix[n..], b.child))), key, value);
  }

  lemma InsertLeaf(t: Tree, p: seq<bool>, root: bool, key: Key, value: Record, tail: seq<bool>)
    requires WellFormed(t, p, root) && t.Node? && key == p + tail && tail != [] && |key| == NUM_BITS
    requires t.Side(tail[0]).Some? ==> t.Side(tail[0]).value.prefix == tail
    ensures var u := t.WithSide(tail[0], Branch(tail, Leaf(key, value)));
            WellFormed(u, p, root) && Contents(u) == Contents(t)[key := value]
  {
    NewLeaf(p, tail, key, value);
    if t.Side(tail[0]).Some? { NotTooDeep(t.Side(tail[0]).value.child, key); }
    UpdatedSide(t, p, root, Branch(tail, Leaf(key, value)), key, value);
  }

  lemma InsertAtUpdates(t: Tree, p: seq<bool>, root: bool, key: Key, value: Record, tail: seq<bool>)
    requires WellFormed(t, p, root) && t.Node? && key == p + tail && tail != [] && |key| == NUM_BITS
    requires t.Side(tail[0]).Some? && t.Side(tail[0]).value.prefix <= tail ==> t.Side(tail[0]).value.child.Leaf?
    ensures var u := InsertAt(t, |p|, key, value);
            WellFormed(u, p, root) && Contents(u) == Contents(t)[key := value]
  {
    assert key[|p|..] == tail;
    var side := t.Side(tail[0]);
    if side.None? || side.value.prefix == tail {
      InsertLeaf(t, p, root, key, value, tail);
    } else {
      var b := side.value;
      NotTooDeep(b.child, p + b.prefix);
      PartBeforeEnd(tail, b.prefix);
      InsertAtSplits(t, |p|, key, value, b, tail);
      InsertInBranch(t, p, root, b, key, value, tail, Shared(tail, b.prefix));
    }
  }

  /** Neither ends where they part. */
  lemma PartBeforeEnd(tail: seq<bool>, prefix: seq<bool>)
    requires tail != prefix && |prefix| <= |tail| && (prefix <= tail ==> |prefix| == |tail|)
    ensures Shared(tail, prefix) < |tail| && Shared(tail, prefix) < |prefix|
  {}

  lemma InsertAtSplits(t: Tree, at: nat, key: Key, value: Record, b: Branch, tail: seq<bool>)
    requires t.Node? && at < |key| && tail == key[at..] && t.Side(tail[0]) == Some(b) && b.prefix != tail && Shared(tail, b.prefix) < |tail|
    ensures var n := Shared(tail, b.prefix);
            InsertAt(t, at, key, value) ==
            t.WithSide(tail[0], Branch(tail[..n], Construct(Branch(tail[n..], Leaf(key, value)), Branch(b.prefix[n..], b.child))))
  {}

  lemma InsertBelow(t: Tree, p: seq<bool>, root: bool, b: Branch, child: Tree, key: Key, value: Record)
    requires WellFormed(t, p, root) && t.Node? && p <= key && |p| < |key| == NUM_BITS && t.Side(key[|p|]) == Some(b)
    requires WellFormed(child, p + b.prefix, false) && Contents(child) == Contents(b.child)[key := value]
    ensures var u := t.WithSide(key[|p|], Branch(b.prefix, child));
            WellFormed(u, p, root) && Contents(u) == Contents(t)[key := value]
  {
    UpdatedSide(t, p, root, Branch(b.prefix, child), key, value);
  }

  /** Inserting keeps the tree well-formed, and changes what it holds for the key and nothing else. */
  lemma {:induction false} InsertIsUpdate(t: Tree, p: seq<bool>, root: bool, key: Key, value: Record)
    requires WellFormed(t, p, root) && t.Node? && p <= key && |p| < |key| == NUM_BITS
    ensures var u := Insert(t, |p|, key, value);
            WellFormed(u, p, root) && Contents(u) == Contents(t)[key := value]
  {
    var side := t.Side(key[|p|]);
    if side.Some? && side.value.prefix <= key[|p|..] && side.value.child.Node? {
      var b := side.value;
      NotTooDeep(b.child, p + b.prefix);
      PrefixFrom(p, b.prefix, key);
      InsertIsUpdate(b.child, p + b.prefix, false, key, value);
      InsertBelow(t, p, root, b, Insert(b.child, |p + b.prefix|, key, value), key, value);
    } else {
      InsertAtUpdates(t, p, root, key, value, key[|p|..]);
    }
  }
}
