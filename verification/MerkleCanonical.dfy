/** The shape of a tree, and so its hash, depends only on the records it holds. */
module MerkleCanonical {
  import opened Wrappers
  import opened MerkleTree
  import opened MerkleInsert

  /** Every tree below a root holds some record. */
  lemma {:induction false} SomeKey(t: Tree, p: seq<bool>) returns (k: Key)
    requires WellFormed(t, p, false)
    ensures k in Contents(t)
  {
    if t.Leaf? {
      k := t.key;
    } else {
      assert WellPlaced(t.left.value, p, false);
      k := SomeKey(t.left.value.child, p + t.left.value.prefix);
    }
  }

  /** A node below a root holds keys that differ right after it. */
  lemma BothSides(t: Tree, p: seq<bool>, bit: bool) returns (k: Key)
    requires WellFormed(t, p, false) && t.Node?
    ensures k in Contents(t) && |p| < |k| && k[|p|] == bit
  {
    var b := t.Side(bit).value;
    assert WellPlaced(b, p, bit);
    k := SomeKey(b.child, p + b.prefix);
    KeysOnSide(t, p, false, bit, k);
  }

  /** What a branch holds determines how far its bits go. */
  lemma SamePrefix(p: seq<bool>, bit: bool, a: Branch, b: Branch)
    requires WellPlaced(a, p, bit) && WellPlaced(b, p, bit) && Contents(a.child) == Contents(b.child)
    ensures |b.prefix| <= |a.prefix|
  {
    NotTooDeep(a.child, p + a.prefix);
    NotTooDeep(b.child, p + b.prefix);
    if |a.prefix| < |b.prefix| && a.child.Node? {
      var x := BothSides(a.child, p + a.prefix, false);
      var y := BothSides(a.child, p + a.prefix, true);
      KeysExtend(b.child, p + b.prefix, false, x);
      KeysExtend(b.child, p + b.prefix, false, y);
    }
  }

  lemma SameBits(p: seq<bool>, bit: bool, a: Branch, b: Branch)
    requires WellPlaced(a, p, bit) && WellPlaced(b, p, bit) && Contents(a.child) == Contents(b.child)
    ensures a.prefix == b.prefix
  {
    SamePrefix(p, bit, a, b);
    SamePrefix(p, bit, b, a);
    var k := SomeKey(a.child, p + a.prefix);
    KeysExtend(a.child, p + a.prefix, false, k);
    KeysExtend(b.child, p + b.prefix, false, k);
    assert a.prefix == k[|p|..|p| + |a.prefix|] by { assert (p + a.prefix)[|p|..] == a.prefix; }
    assert b.prefix == k[|p|..|p| + |b.prefix|] by { assert (p + b.prefix)[|p|..] == b.prefix; }
  }

  /** Trees with the same records have the same records on either side. */
  lemma SameSide(t: Tree, u: Tree, p: seq<bool>, root: bool, bit: bool)
    requires WellFormed(t, p, root) && WellFormed(u, p, root) && t.Node? && u.Node? && Contents(t) == Contents(u)
    ensures BranchContents(t.Side(bit)) == BranchContents(u.Side(bit))
  {
    var m, n := BranchContents(t.Side(bit)), BranchContents(u.Side(bit));
    forall k | k in m ensures k in n && m[k] == n[k] { SideInside(t, u, p, root, bit, k); }
    forall k | k in n ensures k in m { SideInside(u, t, p, root, bit, k); }
    assert m.Keys == n.Keys;
  }

  predicate InSide(t: Tree, bit: bool, k: Key)
    requires t.Node?
  {
    k in BranchContents(t.Side(bit))
  }

  lemma SideInside(t: Tree, u: Tree, p: seq<bool>, root: bool, bit: bool, k: Key)
    requires WellFormed(t, p, root) && WellFormed(u, p, root) && t.Node? && u.Node? && Contents(t) == Contents(u)
    ensures InSide(t, bit, k) ==> InSide(u, bit, k) && BranchContents(t.Side(bit))[k] == BranchContents(u.Side(bit))[k]
  {
    if InSide(t, bit, k) {
      KeysOnSide(t, p, root, bit, k);
      OnOneSide(t, p, root, k);
      OnOneSide(u, p, root, k);
    }
  }

  lemma LeafOrNode(t: Tree, u: Tree, p: seq<bool>)
    requires WellFormed(t, p, false) && WellFormed(u, p, false)
    ensures t.Leaf? <==> u.Leaf?
  {
    NotTooDeep(t, p);
    NotTooDeep(u, p);
  }

  /** A branch is there exactly if there is something below it. */
  lemma SideThere(t: Tree, p: seq<bool>, root: bool, bit: bool)
    requires WellFormed(t, p, root) && t.Node?
    ensures t.Side(bit).None? <==> BranchContents(t.Side(bit)) == map[]
  {
    if t.Side(bit).Some? {
      var b := t.Side(bit).value;
      assert WellPlaced(b, p, bit);
      var k := SomeKey(b.child, p + b.prefix);
      assert k in BranchContents(t.Side(bit));
    }
  }

  /** Two well-formed trees that hold the same records, for the same range, are the same. */
  lemma {:induction false} Canonical(t: Tree, u: Tree, p: seq<bool>, root: bool)
    requires WellFormed(t, p, root) && WellFormed(u, p, root) && Contents(t) == Contents(u)
    requires root ==> t.range == u.range
    ensures t == u
    decreases t, 1
  {
    if !root { LeafOrNode(t, u, p); }
    if t.Node? {
      CanonicalSide(t, u, p, root, false);
      CanonicalSide(t, u, p, root, true);
    } else {
      assert t.key in Contents(u);
    }
  }

  lemma {:induction false} CanonicalSide(t: Tree, u: Tree, p: seq<bool>, root: bool, bit: bool)
    requires WellFormed(t, p, root) && WellFormed(u, p, root) && t.Node? && u.Node? && Contents(t) == Contents(u)
    ensures t.Side(bit) == u.Side(bit)
    decreases t, 0
  {
    SameSide(t, u, p, root, bit);
    SideThere(t, p, root, bit);
    SideThere(u, p, root, bit);
    if t.Side(bit).Some? {
      var a, b := t.Side(bit).value, u.Side(bit).value;
      SameBits(p, bit, a, b);
      Canonical(a.child, b.child, p + a.prefix, false);
    }
  }
}
