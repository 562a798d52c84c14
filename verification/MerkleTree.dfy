/**
 The radix tree that holds the records of a range: a branch carries the bits
 that lead to its child, and a leaf lies at the end of all bits of its key.

 A tree stands for its own hash: two trees have the same hash only if they are
 the same.
 */
module MerkleTree {
  import opened Wrappers
  import opened Orderings
  import opened OwnedRanges
  import opened Bits

  const NUM_BITS: nat := 256

  type Key = seq<bool>
  type Record = nat

  /** The hash of a leaf covers its key, that of a root the range of the tree. */
  datatype Tree =
    | Leaf(key: Key, value: Record)
    | Node(range: Option<OwnedRange>, left: Option<Branch>, right: Option<Branch>)
  {
    function Side(bit: bool): Option<Branch>
      requires Node?
    {
      if bit then right else left
    }

    function WithSide(bit: bool, b: Branch): Tree
      requires Node?
    {
      if bit then Node(range, left, Some(b)) else Node(range, Some(b), right)
    }
  }

  datatype Branch = Branch(prefix: seq<bool>, child: Tree)

  // ---- Well-formed trees and what they hold ----

  /** The tree at the end of the bits `p`. Only a root may lack a branch. */
  ghost predicate WellFormed(t: Tree, p: seq<bool>, root: bool) {
    match t
    case Leaf(key, _) => key == p && |key| == NUM_BITS && !root
    case Node(range, left, right) =>
      && (range.Some? <==> root) && (!root ==> left.Some? && right.Some?)
      && (left.Some? ==> WellPlaced(left.value, p, false))
      && (right.Some? ==> WellPlaced(right.value, p, true))
  }

  ghost predicate WellPlaced(b: Branch, p: seq<bool>, bit: bool) {
    b.prefix != [] && b.prefix[0] == bit && WellFormed(b.child, p + b.prefix, false)
  }

  function Contents(t: Tree): map<Key, Record> {
    match t
    case Leaf(key, value) => map[key := value]
    case Node(_, left, right) => BranchContents(left) + BranchContents(right)
  }

  function BranchContents(b: Option<Branch>): map<Key, Record> {
    match b
    case None => map[]
    case Some(Branch(_, child)) => Contents(child)
  }

  lemma {:induction false} KeysExtend(t: Tree, p: seq<bool>, root: bool, k: Key)
    requires WellFormed(t, p, root) && k in Contents(t)
    ensures |k| == NUM_BITS && p <= k
  {
    if t.Node? {
      var b := if k in BranchContents(t.right) then t.right.value else t.left.value;
      KeysExtend(b.child, p + b.prefix, false, k);
    }
  }

  /** The keys on either side of a node differ in the bit after the node's own. */
  lemma KeysOnSide(t: Tree, p: seq<bool>, root: bool, bit: bool, k: Key)
    requires WellFormed(t, p, root) && t.Node? && k in BranchContents(t.Side(bit))
    ensures |p| < |k| == NUM_BITS && k[|p|] == bit && p + t.Side(bit).value.prefix <= k
  {
    var b := t.Side(bit).value;
    KeysExtend(b.child, p + b.prefix, false, k);
    assert (p + b.prefix)[|p|] == b.prefix[0];
  }

  /** So a key is looked for on its own side only. */
  lemma OnOneSide(t: Tree, p: seq<bool>, root: bool, k: Key)
    requires WellFormed(t, p, root) && t.Node? && |p| < |k|
    ensures k in Contents(t) <==> k in BranchContents(t.Side(k[|p|]))
    ensures k in Contents(t) ==> Contents(t)[k] == BranchContents(t.Side(k[|p|]))[k]
  {
    if k in BranchContents(t.Side(!k[|p|])) { KeysOnSide(t, p, root, !k[|p|], k); }
  }

  // ---- Looking up a record ----

  /** The nodes passed on the way to a key, the depth of the last of them, and the record found there. */
  datatype Found = Found(path: seq<Tree>, depth: nat, record: Option<Record>)

  /** The way from a node at depth `at`. */
  function Descend(t: Tree, at: nat, key: Key): (f: Found)
    requires t.Node? && at <= |key|
    ensures f.path != [] && f.path[0] == t && f.depth <= |key|
  {
    if at == |key| || t.Side(key[at]).None? then Found([t], at, None)
    else
      var b := t.Side(key[at]).value;
      if !(b.prefix <= key[at..]) then Found([t], at, None)
      else match b.child {
        case Leaf(_, value) => Found([t], at, Some(value))
        case Node(_, _, _) =>
          var rest := Descend(b.child, at + |b.prefix|, key);
          rest.(path := [t] + rest.path)
      }
  }

  lemma PrefixFrom(p: seq<bool>, q: seq<bool>, key: Key)
    requires p <= key
    ensures p + q <= key <==> q <= key[|p|..]
  {
    assert key == p + key[|p|..];
    if p + q <= key { assert key[|p|..][..|q|] == (p + q)[|p|..]; }
  }

  /** A lookup finds a record exactly if the tree holds one for the key, and finds that. */
  lemma {:induction false} LookupAgrees(t: Tree, p: seq<bool>, root: bool, key: Key)
    requires WellFormed(t, p, root) && t.Node? && p <= key && |p| < |key| == NUM_BITS
    ensures Descend(t, |p|, key).record == if key in Contents(t) then Some(Contents(t)[key]) else None
  {
    var side := t.Side(key[|p|]);
    OnOneSide(t, p, root, key);
    if side.Some? {
      var b := side.value;
      PrefixFrom(p, b.prefix, key);
      if b.prefix <= key[|p|..] {
        if b.child.Node? {
          DepthBounded(b.child, p + b.prefix, false);
          LookupAgrees(b.child, p + b.prefix, false, key);
        } else {
          assert WellFormed(b.child, p + b.prefix, false);
          assert b.child.key == p + b.prefix == key;
        }
      } else if key in BranchContents(side) {
        KeysOnSide(t, p, root, key[|p|], key);
      }
    }
  }

  /** No node other than an empty root lies at the depth of the leaves. */
  lemma {:induction false} DepthBounded(t: Tree, p: seq<bool>, root: bool)
    requires WellFormed(t, p, root) && t.Node? && (t.left.Some? || t.right.Some?)
    ensures |p| < NUM_BITS
  {
    var b := if t.left.Some? then t.left.value else t.right.value;
    assert WellFormed(b.child, p + b.prefix, false);
    if b.child.Node? { DepthBounded(b.child, p + b.prefix, false); }
  }

  /** The way ends where no branch leads on towards the key. */
  lemma {:induction false} PathIsDeepest(t: Tree, at: nat, key: Key)
    requires t.Node? && at <= |key|
    ensures var f := Descend(t, at, key);
            f.record.None? ==> Stops(f.path[|f.path| - 1], f.depth, key)
  {
    if at < |key| && t.Side(key[at]).Some? {
      var b := t.Side(key[at]).value;
      if b.prefix <= key[at..] && b.child.Node? {
        PathIsDeepest(b.child, at + |b.prefix|, key);
        var rest := Descend(b.child, at + |b.prefix|, key).path;
        assert ([t] + rest)[|rest|] == rest[|rest| - 1];
      }
    }
  }

  predicate Stops(t: Tree, at: nat, key: Key)
    requires at <= |key|
  {
    t.Node? && (at < |key| && t.Side(key[at]).Some? ==> !(t.Side(key[at]).value.prefix <= key[at..]))
  }

  // ---- Reading from a store of nodes ----

  /** The child that leads on towards the key. */
  function Next(t: Tree, at: nat, key: Key): Option<Tree>
    requires t.Node? && at < |key|
  {
    match t.Side(key[at])
    case None => None
    case Some(b) => if b.prefix <= key[at..] then Some(b.child) else None
  }

  /** The nodes below `t` that a lookup asks for. */
  function Below(t: Tree, at: nat, key: Key): set<Tree>
    requires t.Node? && at <= |key|
  {
    if at == |key| || Next(t, at, key).None? then {}
    else
      var b := t.Side(key[at]).value;
      {b.child} + if b.child.Node? then Below(b.child, at + |b.prefix|, key) else {}
  }

  function Size(t: Tree): nat {
    match t
    case Leaf(_, _) => 1
    case Node(_, left, right) => 1 + BranchSize(left) + BranchSize(right)
  }

  function BranchSize(b: Option<Branch>): nat {
    match b case None => 0 case Some(Branch(_, child)) => Size(child)
  }

  lemma {:induction false} BelowIsSmaller(t: Tree, at: nat, key: Key, n: Tree)
    requires t.Node? && at <= |key| && n in Below(t, at, key)
    ensures Size(n) < Size(t)
  {
    var b := t.Side(key[at]).value;
    if n != b.child { BelowIsSmaller(b.child, at + |b.prefix|, key, n); }
  }

  lemma NotBelowItself(t: Tree, at: nat, key: Key)
    requires t.Node? && at <= |key|
    ensures t !in Below(t, at, key)
  {
    if t in Below(t, at, key) { BelowIsSmaller(t, at, key, t); }
  }

  /** What is found if the way to the last node of `path` goes on as in `d`. */
  function Onwards(path: seq<Tree>, d: Found): Found
    requires path != []
  {
    d.(path := path[..|path| - 1] + d.path)
  }

  lemma EndsHere(path: seq<Tree>, t: Tree, at: nat, record: Option<Record>)
    requires path != [] && path[|path| - 1] == t
    ensures Onwards(path, Found([t], at, record)) == Found(path, at, record)
  {
    assert path[..|path| - 1] + [t] == path;
  }

  lemma DescendsOn(t: Tree, at: nat, key: Key, b: Branch, path: seq<Tree>)
    requires t.Node? && at < |key| && t.Side(key[at]) == Some(b) && b.prefix <= key[at..] && b.child.Node?
    requires path != [] && path[|path| - 1] == t
    ensures Onwards(path, Descend(t, at, key)) == Onwards(path + [b.child], Descend(b.child, at + |b.prefix|, key))
    ensures Below(t, at, key) == {b.child} + Below(b.child, at + |b.prefix|, key)
  {
    var d := Descend(b.child, at + |b.prefix|, key);
    assert path[..|path| - 1] + ([t] + d.path) == path + d.path;
    assert (path + [b.child])[..|path|] == path;
  }

  lemma StillThere(t: Tree, below: set<Tree>, nodes: set<Tree>)
    requires t !in below
    ensures {t} + below <= nodes ==> below <= nodes - {t}
  {}

  /** A lookup has come along `path` to its last node, at depth `at`, with the nodes it still needs among `nodes`. */
  ghost predicate Underway(root: Tree, key: Key, path: seq<Tree>, at: nat, top: bool, fetched: set<Tree>, nodes: set<Tree>)
    requires root.Node?
  {
    && path != [] && at < |key| == NUM_BITS && path[|path| - 1].Node? && WellFormed(path[|path| - 1], key[..at], top)
    && Descend(root, 0, key) == Onwards(path, Descend(path[|path| - 1], at, key))
    && ({root} + Below(root, 0, key) <= fetched ==> Below(path[|path| - 1], at, key) <= nodes)
  }

  lemma UnderwayOn(root: Tree, key: Key, path: seq<Tree>, at: nat, top: bool, fetched: set<Tree>, nodes: set<Tree>, b: Branch)
    requires root.Node? && Underway(root, key, path, at, top, fetched, nodes)
    requires path[|path| - 1].Side(key[at]) == Some(b) && b.prefix <= key[at..] && b.child.Node?
    ensures Underway(root, key, path + [b.child], at + |b.prefix|, false, fetched, nodes - {b.child})
  {
    var n := path[|path| - 1];
    NodeBelow(n, key, at, top, b);
    NotBelowItself(b.child, at + |b.prefix|, key);
    DescendsOn(n, at, key, b, path);
    StillThere(b.child, Below(b.child, at + |b.prefix|, key), nodes);
  }

  lemma UnderwayEnds(root: Tree, key: Key, path: seq<Tree>, at: nat, top: bool, fetched: set<Tree>, nodes: set<Tree>)
    requires root.Node? && Underway(root, key, path, at, top, fetched, nodes)
    requires Next(path[|path| - 1], at, key).None? || Next(path[|path| - 1], at, key).value.Leaf?
    ensures var next := Next(path[|path| - 1], at, key);
            Descend(root, 0, key) == Found(path, at, if next.Some? then Some(next.value.value) else None)
  {
    var next := Next(path[|path| - 1], at, key);
    EndsHere(path, path[|path| - 1], at, if next.Some? then Some(next.value.value) else None);
  }

  /** No bits of the key are left at a leaf on its way. */
  lemma LeafEndsKey(t: Tree, key: Key, at: nat, root: bool, b: Branch)
    requires t.Node? && at < |key| == NUM_BITS && WellFormed(t, key[..at], root)
    requires t.Side(key[at]) == Some(b) && b.prefix <= key[at..] && b.child.Leaf?
    ensures at + |b.prefix| == |key|
  {
    assert WellFormed(b.child, key[..at] + b.prefix, false);
  }

  /** Follows the branches towards the key, taking each node out of those fetched;
      none if a node is missing. No bits of the key are left at a leaf. */
  method Read(fetched: set<Tree>, root: Tree, key: Key) returns (r: Option<Found>)
    requires WellFormed(root, [], true) && |key| == NUM_BITS
    ensures r.Some? ==> r.value == Descend(root, 0, key)
    ensures r.None? ==> !({root} + Below(root, 0, key) <= fetched)
  {
    if root !in fetched { return None; }
    var nodes, path, n := fetched - {root}, [root], root;
    var at: nat := 0;
    ghost var top := true;
    NotBelowItself(root, 0, key);
    assert Underway(root, key, path, at, true, fetched, nodes) by { assert [root][..0] + Descend(root, 0, key).path == Descend(root, 0, key).path; }
    while true
      invariant Underway(root, key, path, at, top, fetched, nodes) && n == path[|path| - 1]
      decreases n
    {
      var side := n.Side(key[at]);
      if side.None? || !(side.value.prefix <= key[at..]) {
        UnderwayEnds(root, key, path, at, top, fetched, nodes);
        return Some(Found(path, at, None));
      }
      var b := side.value;
      if b.child !in nodes { return None; }
      if b.child.Leaf? {
        assert key[at + |b.prefix|..] == [] by { LeafEndsKey(n, key, at, top, b); }
        UnderwayEnds(root, key, path, at, top, fetched, nodes);
        return Some(Found(path, at, Some(b.child.value)));
      }
      UnderwayOn(root, key, path, at, top, fetched, nodes, b);
      nodes, path, at, n, top := nodes - {b.child}, path + [b.child], at + |b.prefix|, b.child, false;
    }
  }

  lemma NodeBelow(n: Tree, key: Key, at: nat, top: bool, b: Branch)
    requires at < |key| == NUM_BITS && n.Node? && WellFormed(n, key[..at], top)
    requires n.Side(key[at]) == Some(b) && b.prefix <= key[at..] && b.child.Node?
    ensures at + |b.prefix| < |key| && WellFormed(b.child, key[..at + |b.prefix|], false)
  {
    assert key[..at] + b.prefix == key[..at + |b.prefix|];
    assert WellFormed(b.child, key[..at] + b.prefix, false);
    DepthBounded(b.child, key[..at] + b.prefix, false);
  }

  // ---- The outermost records ----

  /** The record furthest to one side. */
  function Outermost(t: Tree, bit: bool): Option<(Key, Record)> {
    match t
    case Leaf(key, value) => Some((key, value))
    case Node(_, _, _) =>
      var side := if t.Side(bit).Some? then t.Side(bit) else t.Side(!bit);
      if side.None? then None else Outermost(side.value.child, bit)
  }

  /** Key `k` lies further to the side than key `j`. */
  predicate Further(bit: bool, k: Key, j: Key) {
    CompareBits(k, j) == if bit then Greater else Less
  }

  lemma {:induction false} FirstDifference(p: seq<bool>, a: Key, b: Key)
    requires p <= a && p <= b && |p| < |a| && |p| < |b| && a[|p|] != b[|p|]
    ensures CompareBits(a, b) == if b[|p|] then Less else Greater
  {
    if p != [] {
      assert p[1..] <= a[1..] && p[1..] <= b[1..];
      FirstDifference(p[1..], a[1..], b[1..]);
    }
  }

  lemma FurtherThanOtherSide(t: Tree, p: seq<bool>, root: bool, bit: bool, k: Key, j: Key)
    requires WellFormed(t, p, root) && t.Node? && k in BranchContents(t.Side(bit)) && j in BranchContents(t.Side(!bit))
    ensures Further(bit, k, j)
  {
    KeysOnSide(t, p, root, bit, k);
    KeysOnSide(t, p, root, !bit, j);
    FirstDifference(p, k, j);
  }

  /** Walking to one side ends at the smallest or the largest key, or nowhere exactly if the tree is empty. */
  lemma {:induction false} OutermostIsExtreme(t: Tree, p: seq<bool>, root: bool, bit: bool)
    requires WellFormed(t, p, root)
    ensures Outermost(t, bit).None? <==> Contents(t) == map[]
    ensures Outermost(t, bit).Some? ==>
              var (k, v) := Outermost(t, bit).value;
              k in Contents(t) && Contents(t)[k] == v && forall j <- Contents(t) :: j == k || Further(bit, k, j)
  {
    if t.Node? && (t.left.Some? || t.right.Some?) {
      var on := if t.Side(bit).Some? then bit else !bit;
      var b := t.Side(on).value;
      OutermostIsExtreme(b.child, p + b.prefix, false, bit);
      OutermostNotEmpty(b.child, p + b.prefix, bit);
      var (k, v) := Outermost(t, bit).value;
      assert k in BranchContents(t.Side(on));
      KeysOnSide(t, p, root, on, k);
      OnOneSide(t, p, root, k);
      forall j | j in Contents(t) ensures j == k || Further(bit, k, j) {
        if j in BranchContents(t.Side(!bit)) && on == bit { FurtherThanOtherSide(t, p, root, bit, k, j); }
      }
    } else if t.Node? {
      assert Contents(t) == map[];
    } else {
      assert t.key in Contents(t);
    }
  }

  lemma {:induction false} OutermostNotEmpty(t: Tree, p: seq<bool>, bit: bool)
    requires WellFormed(t, p, false)
    ensures Outermost(t, bit).Some?
  {
    if t.Node? { OutermostNotEmpty(t.Side(bit).value.child, p + t.Side(bit).value.prefix, bit); }
  }

  /** The walk to the outermost record has come along `path` to `n`, which lies at the gathered bits. */
  ghost predicate Leaning(root: Tree, bit: bool, path: seq<Tree>, n: Tree, key: seq<bool>)
    requires root.Node?
  {
    var o := Outermost(root, bit);
    && Outermost(n, bit) == o
    && (o.Some? ==> |o.value.0| == NUM_BITS && key <= o.value.0)
    && (n.Node? ==>
          && WellFormed(n, key, n == root && path == []) && |key| < NUM_BITS && (o.None? ==> n == root && path == [])
          && (o.Some? ==> Descend(root, 0, o.value.0) == Onwards(path + [n], Descend(n, |key|, o.value.0))))
    && (n.Leaf? ==> o == Some((key, n.value)) && Descend(root, 0, key).path == path && Descend(root, 0, key).record == Some(n.value))
  }

  lemma LeansFirst(root: Tree, bit: bool)
    requires WellFormed(root, [], true)
    ensures Leaning(root, bit, [], root, [])
  {
    var o := Outermost(root, bit);
    if o.Some? {
      OutermostIsExtreme(root, [], true, bit);
      KeysExtend(root, [], true, o.value.0);
      assert [root][..0] + Descend(root, 0, o.value.0).path == Descend(root, 0, o.value.0).path && [] + [root] == [root];
    }
  }

  /** Where the walk goes from a node. */
  function Outwards(t: Tree, bit: bool): Option<Branch>
    requires t.Node?
  {
    if t.Side(bit).Some? then t.Side(bit) else t.Side(!bit)
  }

  lemma OuterBelow(n: Tree, key: seq<bool>, top: bool, bit: bool, b: Branch)
    requires n.Node? && WellFormed(n, key, top) && Outwards(n, bit) == Some(b)
    ensures WellFormed(b.child, key + b.prefix, false) && Outermost(b.child, bit) == Outermost(n, bit) && Outermost(n, bit).Some?
    ensures var outer := Outermost(n, bit).value.0; key + b.prefix <= outer && |key| < |outer| && n.Side(outer[|key|]) == Some(b) && b.prefix <= outer[|key|..]
  {
    var on := if n.Side(bit).Some? then bit else !bit;
    assert WellPlaced(b, key, on);
    OutermostNotEmpty(b.child, key + b.prefix, bit);
    OutermostIsExtreme(b.child, key + b.prefix, false, bit);
    var outer := Outermost(n, bit).value.0;
    KeysExtend(b.child, key + b.prefix, false, outer);
    assert (key + b.prefix)[|key|] == on && outer[|key|..][..|b.prefix|] == b.prefix;
  }

  lemma LeansOn(root: Tree, bit: bool, path: seq<Tree>, n: Tree, key: seq<bool>, b: Branch)
    requires root.Node? && Leaning(root, bit, path, n, key) && n.Node? && Outwards(n, bit) == Some(b)
    ensures Leaning(root, bit, path + [n], b.child, key + b.prefix)
  {
    OuterBelow(n, key, n == root && path == [], bit, b);
    var (outer, value) := Outermost(root, bit).value;
    if b.child.Node? {
      DepthBounded(b.child, key + b.prefix, false);
      DescendsOn(n, |key|, outer, b, path + [n]);
    } else {
      EndsHere(path + [n], n, |key|, Some(value));
    }
  }

  /** Walks to one side, gathering the bits of the key; for an empty tree that of the end of its range.
      The path is the way to the key. */
  method ReadTreeSide(root: Tree, bit: bool, start: Key, end: Key) returns (key: Key, value: Option<Record>, path: seq<Tree>)
    requires WellFormed(root, [], true) && |start| == |end| == NUM_BITS
    ensures Outermost(root, bit) == if value.Some? then Some((key, value.value)) else None
    ensures value.None? ==> key == if bit then end else start
    ensures |key| == NUM_BITS && path == Descend(root, 0, key).path && value == Descend(root, 0, key).record
  {
    var n := root;
    key, path := [], [];
    LeansFirst(root, bit);
    while n.Node?
      invariant Leaning(root, bit, path, n, key)
      decreases n
    {
      var side := Outwards(n, bit);
      if side.None? {
        return if bit then end else start, None, path + [n];
      }
      LeansOn(root, bit, path, n, key, side.value);
      path, key, n := path + [n], key + side.value.prefix, side.value.child;
    }
    value := Some(n.value);
  }
}
