/** Splitting a tree in two at a key, as when a group gives part of its range away. */
module MerkleSplit {
  import opened Wrappers
  import opened Orderings
  import opened OwnedRanges
  import opened Bits
  import opened MerkleTree
  import opened MerkleInsert

  /** What a node leaves on either side of the key, as branches from the node's
      place; an empty prefix stands for a node at that very place. */
  datatype Parts = Parts(left: Option<Branch>, right: Option<Branch>) | AllBelow | AllFrom

  /** At the last node on the way: whether the key lies after its left and not after its right branch. */
  function CutAt(t: Tree, p: seq<bool>, key: Key): Parts
    requires t.Node?
  {
    if t.left.Some? && CompareBits(key, p + t.left.value.prefix) != Greater then AllFrom
    else if t.right.Some? && CompareBits(key, p + t.right.value.prefix) == Greater then AllBelow
    else Parts(t.left, t.right)
  }

  function Extended(prefix: seq<bool>, part: Option<Branch>): Option<Branch> {
    if part.None? then None else Some(Branch(prefix + part.value.prefix, part.value.child))
  }

  /** The node with one side replaced by what is left of it, as a node for the given range. */
  function NodeWith(t: Tree, bit: bool, prefix: seq<bool>, part: Option<Branch>, range: Option<OwnedRange>): Tree
    requires t.Node?
  {
    var b := Extended(prefix, part);
    if bit then Node(range, t.left, b) else Node(range, b, t.right)
  }

  /** One level up: the side with the other branch gets a new node, the other a longer prefix. */
  function RollUp(t: Tree, bit: bool, prefix: seq<bool>, left: Option<Branch>, right: Option<Branch>,
                  leftRange: Option<OwnedRange>, rightRange: Option<OwnedRange>): Parts
    requires t.Node?
  {
    if bit then Parts(Some(Branch([], NodeWith(t, true, prefix, left, leftRange))), Extended(prefix, right))
    else Parts(Extended(prefix, left), Some(Branch([], NodeWith(t, false, prefix, right, rightRange))))
  }

  /** One level up, whether the place to split has been found or not. */
  function OneUp(t: Tree, at: nat, key: Key, below: Parts, leftRange: Option<OwnedRange>, rightRange: Option<OwnedRange>): Parts
    requires t.Node? && at < |key| && t.Side(key[at]).Some?
  {
    match below
    case Parts(l, r) => RollUp(t, key[at], t.Side(key[at]).value.prefix, l, r, leftRange, rightRange)
    case AllBelow => if key[at] then AllBelow else Parts(t.left, t.right)
    case AllFrom => if key[at] then Parts(t.left, t.right) else AllFrom
  }

  /** Splits below the node if the way goes on and a place to split is there, else
      here if everything below lies on one side and the rest on the other. */
  function SplitAt(t: Tree, at: nat, key: Key, leftRange: Option<OwnedRange>, rightRange: Option<OwnedRange>): Parts
    requires t.Node? && at < |key|
  {
    if !GoesOn(t, at, key) then CutAt(t, key[..at], key)
    else
      var b := t.Side(key[at]).value;
      OneUp(t, at, key, SplitAt(b.child, at + |b.prefix|, key, None, None), leftRange, rightRange)
  }

  function EmptyRoot(range: OwnedRange): Tree {
    Node(Some(range), None, None)
  }

  function AsRoot(part: Option<Branch>, range: OwnedRange): Tree {
    if part.None? then EmptyRoot(range)
    else if part.value.prefix == [] then part.value.child
    else if part.value.prefix[0] then Node(Some(range), None, part) else Node(Some(range), part, None)
  }

  /** The trees of the keys before the given key and of those from it on. */
  function RangeSplit(t: Tree, key: Key, left: OwnedRange, right: OwnedRange): (Tree, Tree)
    requires t.Node? && key != []
  {
    match SplitAt(t, 0, key, Some(left), Some(right))
    case AllFrom => (EmptyRoot(left), t.(range := Some(right)))
    case AllBelow => (t.(range := Some(left)), EmptyRoot(right))
    case Parts(l, r) => (AsRoot(l, left), AsRoot(r, right))
  }

  // ---- Splitting along the path ----

  /** The way goes on from one node and depth to the next. */
  predicate LeadsTo(x: (Tree, nat), y: (Tree, nat), key: Key) {
    x.0.Node? && x.1 < |key| && GoesOn(x.0, x.1, key) && y == (x.0.Side(key[x.1]).value.child, x.1 + |x.0.Side(key[x.1]).value.prefix|)
  }

  predicate IsWay(path: seq<(Tree, nat)>, key: Key) {
    && path != [] && path[0].1 == 0
    && (forall i | 0 <= i < |path| :: path[i].0.Node? && path[i].1 < |key|)
    && (forall i, j | 0 <= i < |path| && 0 <= j < |path| && j == i + 1 :: LeadsTo(path[i], path[j], key))
  }

  function RangeFor(i: nat, range: OwnedRange): Option<OwnedRange> {
    if i == 0 then Some(range) else None
  }

  /** What remains to be done above level `i` gives the parts of the root. */
  predicate OnTheWayUp(path: seq<(Tree, nat)>, i: nat, key: Key, left: OwnedRange, right: OwnedRange, parts: Parts)
    requires IsWay(path, key) && i < |path|
  {
    parts == SplitAt(path[i].0, path[i].1, key, RangeFor(i, left), RangeFor(i, right))
  }

  lemma UpOne(path: seq<(Tree, nat)>, i: nat, key: Key, left: OwnedRange, right: OwnedRange, parts: Parts)
    requires IsWay(path, key) && i + 1 < |path| && OnTheWayUp(path, i + 1, key, left, right, parts)
    ensures path[i].0.Node? && path[i].1 < |key| && path[i].0.Side(key[path[i].1]).Some?
    ensures OnTheWayUp(path, i, key, left, right, OneUp(path[i].0, path[i].1, key, parts, RangeFor(i, left), RangeFor(i, right)))
  {
    var t, at := path[i].0, path[i].1;
    assert LeadsTo(path[i], path[i + 1], key);
    SplitsBelow(t, at, key, RangeFor(i, left), RangeFor(i, right));
  }

  lemma SplitsBelow(t: Tree, at: nat, key: Key, left: Option<OwnedRange>, right: Option<OwnedRange>)
    requires t.Node? && at < |key| && GoesOn(t, at, key)
    ensures var b := t.Side(key[at]).value;
            SplitAt(t, at, key, left, right) == OneUp(t, at, key, SplitAt(b.child, at + |b.prefix|, key, None, None), left, right)
  {}

  lemma WayGrows(path: seq<(Tree, nat)>, key: Key, y: (Tree, nat))
    requires IsWay(path, key) && LeadsTo(path[|path| - 1], y, key)
    ensures IsWay(path + [y], key)
  {
    var w := path + [y];
    forall i, j | 0 <= i < |w| && 0 <= j < |w| && j == i + 1 ensures LeadsTo(w[i], w[j], key) {
      if j < |path| { assert LeadsTo(path[i], path[j], key); }
    }
  }

  method WayTo(root: Tree, key: Key) returns (path: seq<(Tree, nat)>)
    requires root.Node? && key != []
    ensures IsWay(path, key) && path[0].0 == root && !GoesOn(path[|path| - 1].0, path[|path| - 1].1, key)
  {
    var t, at: nat := root, 0;
    path := [(t, at)];
    while GoesOn(t, at, key)
      invariant IsWay(path, key) && path[0].0 == root && path[|path| - 1] == (t, at)
      decreases t
    {
      var b := t.Side(key[at]).value;
      WayGrows(path, key, (b.child, at + |b.prefix|));
      t, at := b.child, at + |b.prefix|;
      path := path + [(t, at)];
    }
  }

  /** Goes down to the last node on the way, back up to where the tree is to be split, and rolls the
      two sides up to the root. */
  method SplitAlongPath(root: Tree, key: Key, left: OwnedRange, right: OwnedRange) returns (l: Tree, r: Tree)
    requires root.Node? && key != []
    ensures (l, r) == RangeSplit(root, key, left, right)
  {
    var path := WayTo(root, key);
    var i := |path| - 1;
    var parts := CutAt(path[i].0, key[..path[i].1], key);
    while i > 0 && !parts.Parts?
      invariant 0 <= i < |path| && OnTheWayUp(path, i, key, left, right, parts)
    {
      i := i - 1;
      UpOne(path, i, key, left, right, parts);
      if key[path[i].1] == parts.AllFrom? { parts := Parts(path[i].0.left, path[i].0.right); }
    }
    while i > 0
      invariant 0 <= i < |path| && OnTheWayUp(path, i, key, left, right, parts) && (i > 0 ==> parts.Parts?)
    {
      i := i - 1;
      var (t, at) := path[i];
      UpOne(path, i, key, left, right, parts);
      parts := RollUp(t, key[at], t.Side(key[at]).value.prefix, parts.left, parts.right, RangeFor(i, left), RangeFor(i, right));
    }
    match parts {
      case AllFrom => return EmptyRoot(left), root.(range := Some(right));
      case AllBelow => return root.(range := Some(left)), EmptyRoot(right);
      case Parts(a, b) => return AsRoot(a, left), AsRoot(b, right);
    }
  }

  // ---- Which side of the key a record is on ----

  predicate Before(k: Key, key: Key) {
    CompareBits(k, key) == Less
  }

  function Lower(m: map<Key, Record>, key: Key): map<Key, Record> {
    map k <- m | Before(k, key) :: m[k]
  }

  function Upper(m: map<Key, Record>, key: Key): map<Key, Record> {
    map k <- m | !Before(k, key) :: m[k]
  }

  /** Records on the side of a node that the key does not take lie on that side of the key. */
  lemma OtherSide(t: Tree, p: seq<bool>, root: bool, key: Key, k: Key)
    requires WellFormed(t, p, root) && t.Node? && p <= key && |p| < |key| && k in BranchContents(t.Side(!key[|p|]))
    ensures Before(k, key) <==> key[|p|]
  {
    KeysOnSide(t, p, root, !key[|p|], k);
    FirstDifference(p, k, key);
  }

  /** Records below a branch that the key leaves compare with the key as the branch does. */
  lemma WithBranch(p: seq<bool>, b: Branch, bit: bool, key: Key, k: Key)
    requires WellPlaced(b, p, bit) && p <= key && |key| == NUM_BITS && k in Contents(b.child)
    requires b.child.Leaf? || !(p + b.prefix <= key)
    ensures Before(k, key) <==> CompareBits(key, p + b.prefix) == Greater
  {
    var q := p + b.prefix;
    KeysExtend(b.child, q, false, k);
    NotTooDeep(b.child, q);
    if q <= key {
      assert q == key == k;
      CompareIsEquality(key, key);
    } else {
      var n := Shared(q, key);
      PartBeforeEnd(key, q);
      assert q[..n] <= key && q[..n] <= k && k[n] == q[n];
      FirstDifference(q[..n], key, q);
      FirstDifference(q[..n], k, key);
    }
  }

  // ---- The parts hold what they should ----

  /** A part that holds exactly the records `m`: nothing, a node at this place for the given range, or a branch. */
  ghost predicate PartHolds(part: Option<Branch>, p: seq<bool>, root: bool, range: Option<OwnedRange>, m: map<Key, Record>) {
    match part
    case None => m == map[]
    case Some(b) =>
      && Contents(b.child) == m
      && if b.prefix == [] then b.child.Node? && b.child.range == range && WellFormed(b.child, p, root)
         else WellPlaced(b, p, b.prefix[0])
  }

  ghost predicate Divides(parts: Parts, p: seq<bool>, root: bool, key: Key, left: Option<OwnedRange>, right: Option<OwnedRange>, m: map<Key, Record>) {
    match parts
    case AllBelow => Upper(m, key) == map[]
    case AllFrom => Lower(m, key) == map[]
    case Parts(l, r) =>
      && PartHolds(l, p, root, left, Lower(m, key)) && PartHolds(r, p, root, right, Upper(m, key))
      && (!root ==> l.Some? && r.Some?)
  }

  /** If the two sides of a node are split exactly by the key, so are its records. */
  lemma CutBetween(t: Tree, p: seq<bool>, root: bool, key: Key, left: Option<OwnedRange>, right: Option<OwnedRange>)
    requires WellFormed(t, p, root) && t.Node?
    requires forall k <- BranchContents(t.left) :: Before(k, key)
    requires forall k <- BranchContents(t.right) :: !Before(k, key)
    ensures Divides(Parts(t.left, t.right), p, root, key, left, right, Contents(t))
  {
    assert Lower(Contents(t), key) == BranchContents(t.left);
    assert Upper(Contents(t), key) == BranchContents(t.right);
  }

  lemma CutAtDivides(t: Tree, p: seq<bool>, root: bool, key: Key, left: Option<OwnedRange>, right: Option<OwnedRange>)
    requires WellFormed(t, p, root) && t.Node? && p <= key && |p| < |key| == NUM_BITS && !GoesOn(t, |p|, key)
    ensures Divides(CutAt(t, p, key), p, root, key, left, right, Contents(t))
  {
    forall k | k in BranchContents(t.left) ensures Before(k, key) <==> CompareBits(key, p + t.left.value.prefix) == Greater {
      SideCompares(t, p, root, key, false, k);
    }
    forall k | k in BranchContents(t.right) ensures Before(k, key) <==> CompareBits(key, p + t.right.value.prefix) == Greater {
      SideCompares(t, p, root, key, true, k);
    }
    match CutAt(t, p, key) {
      case Parts(_, _) => CutBetween(t, p, root, key, left, right);
      case AllFrom =>
        forall k | k in Contents(t) ensures !Before(k, key) { NothingBefore(t, p, root, key, k); }
      case AllBelow =>
        forall k | k in Contents(t) ensures Before(k, key) { EverythingBefore(t, p, root, key, k); }
    }
  }

  /** Either side of the last node on the way compares with the key as its branch does. */
  lemma SideCompares(t: Tree, p: seq<bool>, root: bool, key: Key, bit: bool, k: Key)
    requires WellFormed(t, p, root) && t.Node? && p <= key && |p| < |key| == NUM_BITS && !GoesOn(t, |p|, key)
    requires k in BranchContents(t.Side(bit))
    ensures Before(k, key) <==> CompareBits(key, p + t.Side(bit).value.prefix) == Greater
  {
    var b := t.Side(bit).value;
    PrefixFrom(p, b.prefix, key);
    NotTooDeep(b.child, p + b.prefix);
    if p + b.prefix <= key { assert (p + b.prefix)[|p|] == key[|p|]; }
    WithBranch(p, b, bit, key, k);
  }

  lemma NothingBefore(t: Tree, p: seq<bool>, root: bool, key: Key, k: Key)
    requires WellFormed(t, p, root) && t.Node? && p <= key && |p| < |key| == NUM_BITS && !GoesOn(t, |p|, key)
    requires t.left.Some? && CompareBits(key, p + t.left.value.prefix) != Greater && k in Contents(t)
    ensures !Before(k, key)
  {
    if key[|p|] { assert (p + t.left.value.prefix)[|p|] == false; FirstDifference(p, key, p + t.left.value.prefix); }
    if k in BranchContents(t.right) { OtherSide(t, p, root, key, k); } else { SideCompares(t, p, root, key, false, k); }
  }

  lemma EverythingBefore(t: Tree, p: seq<bool>, root: bool, key: Key, k: Key)
    requires WellFormed(t, p, root) && t.Node? && p <= key && |p| < |key| == NUM_BITS && !GoesOn(t, |p|, key)
    requires t.right.Some? && CompareBits(key, p + t.right.value.prefix) == Greater && k in Contents(t)
    ensures Before(k, key)
  {
    if !key[|p|] { assert (p + t.right.value.prefix)[|p|] == true; FirstDifference(p, key, p + t.right.value.prefix); }
    if k in BranchContents(t.right) { SideCompares(t, p, root, key, true, k); } else { OtherSide(t, p, root, key, k); }
  }

  /** The records of a node in terms of its two sides. */
  lemma DividedBySide(t: Tree, p: seq<bool>, root: bool, key: Key)
    requires WellFormed(t, p, root) && t.Node? && p <= key && |p| < |key| == NUM_BITS
    ensures var on, off := BranchContents(t.Side(key[|p|])), BranchContents(t.Side(!key[|p|]));
            if key[|p|] then Lower(Contents(t), key) == off + Lower(on, key) && Upper(Contents(t), key) == Upper(on, key)
            else Lower(Contents(t), key) == Lower(on, key) && Upper(Contents(t), key) == Upper(on, key) + off
  {
    var on, off := BranchContents(t.Side(key[|p|])), BranchContents(t.Side(!key[|p|]));
    forall k | k in off ensures (Before(k, key) <==> key[|p|]) && k !in on {
      OtherSide(t, p, root, key, k);
      if k in on { KeysOnSide(t, p, root, key[|p|], k); KeysOnSide(t, p, root, !key[|p|], k); }
    }
  }

  lemma ExtendedHolds(p: seq<bool>, b: Branch, bit: bool, part: Option<Branch>, root: bool, range: Option<OwnedRange>, m: map<Key, Record>)
    requires WellPlaced(b, p, bit) && PartHolds(part, p + b.prefix, false, None, m) && part.Some?
    ensures WellPlaced(Extended(b.prefix, part).value, p, bit)
    ensures PartHolds(Extended(b.prefix, part), p, root, range, m)
  {
    assert p + (b.prefix + part.value.prefix) == p + b.prefix + part.value.prefix;
    if part.value.prefix == [] { assert p + b.prefix + [] == p + b.prefix; }
  }

  lemma NodeWithHolds(t: Tree, p: seq<bool>, root: bool, bit: bool, b: Branch, part: Option<Branch>, range: Option<OwnedRange>, m: map<Key, Record>)
    requires WellFormed(t, p, root) && t.Node? && t.Side(bit) == Some(b) && (range.Some? <==> root)
    requires PartHolds(part, p + b.prefix, false, None, m) && part.Some?
    ensures var n := NodeWith(t, bit, b.prefix, part, range);
            && WellFormed(n, p, root) && n.range == range
            && Contents(n) == if bit then BranchContents(t.left) + m else m + BranchContents(t.right)
  {
    assert WellPlaced(b, p, bit);
    ExtendedHolds(p, b, bit, part, root, range, m);
  }

  lemma RollUpDivides(t: Tree, p: seq<bool>, root: bool, key: Key, b: Branch, l: Option<Branch>, r: Option<Branch>,
                      left: Option<OwnedRange>, right: Option<OwnedRange>)
    requires WellFormed(t, p, root) && t.Node? && p <= key && |p| < |key| == NUM_BITS && t.Side(key[|p|]) == Some(b)
    requires Divides(Parts(l, r), p + b.prefix, false, key, None, None, Contents(b.child))
    requires (left.Some? <==> root) && (right.Some? <==> root)
    ensures Divides(RollUp(t, key[|p|], b.prefix, l, r, left, right), p, root, key, left, right, Contents(t))
  {
    var bit, m := key[|p|], Contents(b.child);
    assert WellPlaced(b, p, bit);
    DividedBySide(t, p, root, key);
    if bit {
      NodeWithHolds(t, p, root, true, b, l, left, Lower(m, key));
      ExtendedHolds(p, b, true, r, root, right, Upper(m, key));
    } else {
      NodeWithHolds(t, p, root, false, b, r, right, Upper(m, key));
      ExtendedHolds(p, b, false, l, root, left, Lower(m, key));
    }
  }

  /** Where nothing below the node has to be split. */
  lemma OneSidedBelow(t: Tree, p: seq<bool>, root: bool, key: Key, b: Branch, left: Option<OwnedRange>, right: Option<OwnedRange>)
    requires WellFormed(t, p, root) && t.Node? && p <= key && |p| < |key| == NUM_BITS && t.Side(key[|p|]) == Some(b)
    ensures Upper(Contents(b.child), key) == map[] ==>
              Divides(if key[|p|] then AllBelow else Parts(t.left, t.right), p, root, key, left, right, Contents(t))
    ensures Lower(Contents(b.child), key) == map[] ==>
              Divides(if key[|p|] then Parts(t.left, t.right) else AllFrom, p, root, key, left, right, Contents(t))
  {
    DividedBySide(t, p, root, key);
    forall k | k in BranchContents(t.Side(!key[|p|])) ensures Before(k, key) <==> key[|p|] { OtherSide(t, p, root, key, k); }
    if Upper(Contents(b.child), key) == map[] && !key[|p|] {
      forall k | k in Contents(b.child) ensures Before(k, key) { assert !Before(k, key) ==> k in Upper(Contents(b.child), key); }
      CutBetween(t, p, root, key, left, right);
    }
    if Lower(Contents(b.child), key) == map[] && key[|p|] {
      forall k | k in Contents(b.child) ensures !Before(k, key) { assert Before(k, key) ==> k in Lower(Contents(b.child), key); }
      CutBetween(t, p, root, key, left, right);
    }
  }

  lemma {:induction false} SplitDivides(t: Tree, p: seq<bool>, root: bool, key: Key, left: Option<OwnedRange>, right: Option<OwnedRange>)
    requires WellFormed(t, p, root) && t.Node? && p <= key && |p| < |key| == NUM_BITS
    requires (left.Some? <==> root) && (right.Some? <==> root)
    ensures Divides(SplitAt(t, |p|, key, left, right), p, root, key, left, right, Contents(t))
  {
    assert key[..|p|] == p;
    if GoesOn(t, |p|, key) {
      var b := t.Side(key[|p|]).value;
      PrefixFrom(p, b.prefix, key);
      SplitDivides(b.child, p + b.prefix, false, key, None, None);
      match SplitAt(b.child, |p + b.prefix|, key, None, None) {
        case Parts(l, r) => RollUpDivides(t, p, root, key, b, l, r, left, right);
        case AllBelow => OneSidedBelow(t, p, root, key, b, left, right);
        case AllFrom => OneSidedBelow(t, p, root, key, b, left, right);
      }
    } else {
      CutAtDivides(t, p, root, key, left, right);
    }
  }

  lemma AsRootHolds(part: Option<Branch>, range: OwnedRange, m: map<Key, Record>)
    requires PartHolds(part, [], true, Some(range), m)
    ensures var t := AsRoot(part, range);
            t.Node? && t.range == Some(range) && WellFormed(t, [], true) && Contents(t) == m
  {
    if part.Some? && part.value.prefix != [] { assert Contents(AsRoot(part, range)) == m; }
  }

  /** Splitting gives two well-formed trees for the two ranges; the left one holds
      exactly the records before the key, the right one exactly those from it on. */
  lemma RangeSplitDivides(t: Tree, key: Key, left: OwnedRange, right: OwnedRange)
    requires WellFormed(t, [], true) && |key| == NUM_BITS
    ensures var (l, r) := RangeSplit(t, key, left, right);
            && WellFormed(l, [], true) && l.range == Some(left) && Contents(l) == Lower(Contents(t), key)
            && WellFormed(r, [], true) && r.range == Some(right) && Contents(r) == Upper(Contents(t), key)
  {
    SplitDivides(t, [], true, key, Some(left), Some(right));
    var m := Contents(t);
    match SplitAt(t, 0, key, Some(left), Some(right)) {
      case Parts(l, r) =>
        AsRootHolds(l, left, Lower(m, key));
        AsRootHolds(r, right, Upper(m, key));
      case AllBelow =>
        forall k | k in m ensures Before(k, key) { assert !Before(k, key) ==> k in Upper(m, key); }
        assert Lower(m, key) == m;
      case AllFrom =>
        forall k | k in m ensures !Before(k, key) { assert Before(k, key) ==> k in Lower(m, key); }
        assert Upper(m, key) == m;
    }
  }
}
