/** The stored nodes of a tree, and how inserting a record changes them. */
module MerkleStore {
  import opened Wrappers
  import opened MerkleTree
  import opened MerkleInsert
  import opened MerkleCanonical
  import StoreDeltas

  /** A stored node is known by the bits that lead to it and its hash. */
  type NodeKey = (seq<bool>, Tree)

  /** All nodes of the tree at the end of the bits `p`. */
  function Nodes(t: Tree, p: seq<bool>): set<NodeKey> {
    match t
    case Leaf(_, _) => {(p, t)}
    case Node(_, left, right) => {(p, t)} + BranchNodes(left, p) + BranchNodes(right, p)
  }

  function BranchNodes(b: Option<Branch>, p: seq<bool>): set<NodeKey> {
    match b
    case None => {}
    case Some(Branch(prefix, child)) => Nodes(child, p + prefix)
  }

  lemma {:induction false} NodesExtend(t: Tree, p: seq<bool>, x: NodeKey)
    requires x in Nodes(t, p)
    ensures p <= x.0
  {
    if t.Node? && x != (p, t) {
      var b := if x in BranchNodes(t.left, p) then t.left.value else t.right.value;
      NodesExtend(b.child, p + b.prefix, x);
    }
  }

  /** The nodes on one side of a node lie deeper, and on that side. */
  lemma NodesOnSide(t: Tree, p: seq<bool>, root: bool, bit: bool, x: NodeKey)
    requires WellFormed(t, p, root) && t.Node? && x in BranchNodes(t.Side(bit), p)
    ensures |p| < |x.0| && p <= x.0 && x.0[|p|] == bit
  {
    var b := t.Side(bit).value;
    NodesExtend(b.child, p + b.prefix, x);
    assert (p + b.prefix)[|p|] == b.prefix[0];
  }

  // ---- What an insertion adds and removes ----

  /** The nodes added below the last node on the way: the leaf, and the node where a branch is split. */
  function AddedBelow(t: Tree, at: nat, key: Key, value: Record): set<NodeKey>
    requires t.Node? && at < |key|
  {
    var b := InsertAt(t, at, key, value).Side(key[at]);
    {(key, Leaf(key, value))} + if b.Some? && b.value.child.Node? then {(key[..at] + b.value.prefix, b.value.child)} else {}
  }

  function Added(t: Tree, at: nat, key: Key, value: Record): set<NodeKey>
    requires t.Node? && at < |key|
  {
    {(key[..at], Insert(t, at, key, value))} +
    if GoesOn(t, at, key) then
      var b := t.Side(key[at]).value;
      Added(b.child, at + |b.prefix|, key, value)
    else AddedBelow(t, at, key, value)
  }

  /** The nodes on the way, and the leaf of the key if there is one. */
  function Removed(t: Tree, at: nat, key: Key): set<NodeKey>
    requires t.Node? && at < |key|
  {
    {(key[..at], t)} +
    if GoesOn(t, at, key) then
      var b := t.Side(key[at]).value;
      Removed(b.child, at + |b.prefix|, key)
    else
      var side := t.Side(key[at]);
      if side.Some? && side.value.prefix == key[at..] then {(key, side.value.child)} else {}
  }

  lemma {:induction false} RemovedOnWay(t: Tree, at: nat, key: Key, x: NodeKey)
    requires t.Node? && at < |key| && x in Removed(t, at, key)
    ensures x.0 <= key
  {
    if x != (key[..at], t) && GoesOn(t, at, key) {
      var b := t.Side(key[at]).value;
      RemovedOnWay(b.child, at + |b.prefix|, key, x);
    }
  }

  /** What stays of the nodes, and what is new. */
  ghost predicate Follows(x: NodeKey, before: set<NodeKey>, removed: set<NodeKey>, added: set<NodeKey>, after: set<NodeKey>) {
    x in after <==> (x in before && x !in removed) || x in added
  }

  /** Nodes on the other side are not touched. */
  lemma OtherSideStays(t: Tree, p: seq<bool>, root: bool, key: Key, x: NodeKey)
    requires WellFormed(t, p, root) && t.Node? && p <= key && |p| < |key|
    requires x in BranchNodes(t.Side(!key[|p|]), p)
    ensures x !in Removed(t, |p|, key)
  {
    NodesOnSide(t, p, root, !key[|p|], x);
    if x in Removed(t, |p|, key) { RemovedOnWay(t, |p|, key, x); }
  }

  /** If the nodes on the key's side follow, so do all. */
  lemma SideFollows(t: Tree, p: seq<bool>, root: bool, key: Key, b: Branch, removed: set<NodeKey>, added: set<NodeKey>, x: NodeKey)
    requires WellFormed(t, p, root) && t.Node? && p <= key && |p| < |key| == NUM_BITS
    requires Removed(t, |p|, key) == {(p, t)} + removed
    requires Follows(x, BranchNodes(t.Side(key[|p|]), p), removed, added, Nodes(b.child, p + b.prefix))
    ensures var u := t.WithSide(key[|p|], b);
            Follows(x, Nodes(t, p), Removed(t, |p|, key), {(p, u)} + added, Nodes(u, p))
  {
    var bit := key[|p|];
    if x in BranchNodes(t.Side(!bit), p) { OtherSideStays(t, p, root, key, x); }
    if x in BranchNodes(t.Side(bit), p) { NodesOnSide(t, p, root, bit, x); }
  }

  lemma LeafFollows(t: Tree, p: seq<bool>, root: bool, key: Key, value: Record, tail: seq<bool>, x: NodeKey)
    requires WellFormed(t, p, root) && t.Node? && key == p + tail && tail != [] && |key| == NUM_BITS
    requires t.Side(tail[0]).Some? ==> t.Side(tail[0]).value.prefix == tail
    ensures Follows(x, Nodes(t, p), Removed(t, |p|, key), {(p, InsertAt(t, |p|, key, value))} + AddedBelow(t, |p|, key, value),
                    Nodes(InsertAt(t, |p|, key, value), p))
  {
    assert key[|p|..] == tail && key[..|p|] == p;
    var side := t.Side(tail[0]);
    if side.Some? { NotTooDeep(side.value.child, key); }
    var b := Branch(tail, Leaf(key, value));
    assert InsertAt(t, |p|, key, value) == t.WithSide(tail[0], b);
    assert AddedBelow(t, |p|, key, value) == {(key, Leaf(key, value))};
    SideFollows(t, p, root, key, b, if side.Some? then {(key, side.value.child)} else {}, AddedBelow(t, |p|, key, value), x);
  }

  lemma SplitNodes(p: seq<bool>, tail: seq<bool>, b: Branch, key: Key, value: Record, n: nat)
    requires key == p + tail && n < |tail| && n < |b.prefix| && tail[..n] == b.prefix[..n]
    ensures var u := Construct(Branch(tail[n..], Leaf(key, value)), Branch(b.prefix[n..], b.child));
            Nodes(u, p + tail[..n]) == {(p + tail[..n], u), (key, Leaf(key, value))} + Nodes(b.child, p + b.prefix)
  {
    Rejoin(p, tail, n);
    Rejoin(p, b.prefix, n);
    var u := Construct(Branch(tail[n..], Leaf(key, value)), Branch(b.prefix[n..], b.child));
    var q := p + tail[..n];
    assert Nodes(u, q) == {(q, u)} + Nodes(Leaf(key, value), q + tail[n..]) + Nodes(b.child, q + b.prefix[n..]);
  }

  lemma SplitFollows(t: Tree, p: seq<bool>, root: bool, b: Branch, key: Key, value: Record, tail: seq<bool>, n: nat, x: NodeKey)
    requires WellFormed(t, p, root) && t.Node? && key == p + tail && tail != [] && |key| == NUM_BITS
    requires t.Side(tail[0]) == Some(b) && n == Shared(tail, b.prefix) && n < |tail| && n < |b.prefix|
    ensures Follows(x, Nodes(t, p), Removed(t, |p|, key), {(p, InsertAt(t, |p|, key, value))} + AddedBelow(t, |p|, key, value),
                    Nodes(InsertAt(t, |p|, key, value), p))
  {
    assert key[|p|..] == tail && key[..|p|] == p;
    var u := Construct(Branch(tail[n..], Leaf(key, value)), Branch(b.prefix[n..], b.child));
    var c := Branch(tail[..n], u);
    InsertAtSplits(t, |p|, key, value, b, tail);
    SplitNodes(p, tail, b, key, value, n);
    assert AddedBelow(t, |p|, key, value) == {(key, Leaf(key, value)), (p + tail[..n], u)};
    assert tail[n] != b.prefix[n] && !(b.prefix <= tail);
    assert Removed(t, |p|, key) == {(p, t)} + {};
    SideFollows(t, p, root, key, c, {}, AddedBelow(t, |p|, key, value), x);
  }

  lemma OnFollows(t: Tree, p: seq<bool>, root: bool, key: Key, value: Record, b: Branch, at: nat, x: NodeKey)
    requires WellFormed(t, p, root) && t.Node? && p <= key && |p| < |key| == NUM_BITS
    requires GoesOn(t, |p|, key) && t.Side(key[|p|]) == Some(b) && at == |p| + |b.prefix|
    requires Follows(x, Nodes(b.child, p + b.prefix), Removed(b.child, at, key), Added(b.child, at, key, value),
                     Nodes(Insert(b.child, at, key, value), p + b.prefix))
    ensures Follows(x, Nodes(t, p), Removed(t, |p|, key), Added(t, |p|, key, value), Nodes(Insert(t, |p|, key, value), p))
  {
    assert key[..|p|] == p;
    SideFollows(t, p, root, key, Branch(b.prefix, Insert(b.child, at, key, value)), Removed(b.child, at, key), Added(b.child, at, key, value), x);
  }

  /** Inserting leaves exactly the nodes of the new tree. */
  lemma {:induction false} NodesFollow(t: Tree, p: seq<bool>, root: bool, key: Key, value: Record, x: NodeKey)
    requires WellFormed(t, p, root) && t.Node? && p <= key && |p| < |key| == NUM_BITS
    ensures Follows(x, Nodes(t, p), Removed(t, |p|, key), Added(t, |p|, key, value), Nodes(Insert(t, |p|, key, value), p))
  {
    var tail := key[|p|..];
    var side := t.Side(tail[0]);
    assert key == p + tail && key[..|p|] == p;
    if GoesOn(t, |p|, key) {
      var b := side.value;
      PrefixFrom(p, b.prefix, key);
      NodesFollow(b.child, p + b.prefix, false, key, value, x);
      OnFollows(t, p, root, key, value, b, |p + b.prefix|, x);
    } else if side.None? || side.value.prefix == tail {
      LeafFollows(t, p, root, key, value, tail, x);
    } else {
      NotTooDeep(side.value.child, p + side.value.prefix);
      PartBeforeEnd(tail, side.value.prefix);
      SplitFollows(t, p, root, side.value, key, value, tail, Shared(tail, side.value.prefix), x);
    }
  }

  // ---- Inserting along the way, from its end back to the root ----

  /** The nodes on the way to a key, each with its depth. */
  function Way(t: Tree, at: nat, key: Key): (w: seq<(Tree, nat)>)
    requires t.Node? && at < |key|
    ensures w != [] && w[0] == (t, at)
  {
    [(t, at)] +
    if GoesOn(t, at, key) then
      var b := t.Side(key[at]).value;
      Way(b.child, at + |b.prefix|, key)
    else []
  }

  /** Step `y` of the way follows step `x`. */
  predicate LeadsTo(x: (Tree, nat), y: (Tree, nat), key: Key) {
    x.0.Node? && x.1 < |key| && GoesOn(x.0, x.1, key)
    && y == (x.0.Side(key[x.1]).value.child, x.1 + |x.0.Side(key[x.1]).value.prefix|)
  }

  predicate EndsAt(x: (Tree, nat), key: Key) {
    x.0.Node? && x.1 < |key| && !GoesOn(x.0, x.1, key)
  }

  /** Each step of the way leads from a node to its child, and the last node has none to go on to. */
  lemma {:induction false} WayLeads(w: seq<(Tree, nat)>, t: Tree, at: nat, key: Key, i: nat)
    requires t.Node? && at < |key| && w == Way(t, at, key) && i < |w|
    ensures if i + 1 < |w| then LeadsTo(w[i], w[i + 1], key) else EndsAt(w[i], key)
    decreases i
  {
    if GoesOn(t, at, key) {
      var b := t.Side(key[at]).value;
      if i > 0 { WayLeads(w[1..], b.child, at + |b.prefix|, key, i - 1); }
    }
  }

  /** What has been put together from a step of the way down. */
  ghost predicate BuiltFrom(x: (Tree, nat), key: Key, value: Record, t: Tree, added: set<NodeKey>, removed: set<NodeKey>) {
    && x.0.Node? && x.1 < |key|
    && t == Insert(x.0, x.1, key, value) && added == Added(x.0, x.1, key, value) && removed == Removed(x.0, x.1, key)
  }

  lemma BuildUp(x: (Tree, nat), y: (Tree, nat), key: Key, value: Record, t: Tree, added: set<NodeKey>, removed: set<NodeKey>)
    requires LeadsTo(x, y, key) && BuiltFrom(y, key, value, t, added, removed)
    ensures var u := x.0.WithSide(key[x.1], Branch(x.0.Side(key[x.1]).value.prefix, t));
            BuiltFrom(x, key, value, u, {(key[..x.1], u)} + added, {(key[..x.1], x.0)} + removed)
  {}

  lemma BuildLast(x: (Tree, nat), key: Key, value: Record)
    requires EndsAt(x, key)
    ensures var u, side := InsertAt(x.0, x.1, key, value), x.0.Side(key[x.1]);
            BuiltFrom(x, key, value, u, {(key[..x.1], u)} + AddedBelow(x.0, x.1, key, value),
                      {(key[..x.1], x.0)} + if side.Some? && side.value.prefix == key[x.1..] then {(key, side.value.child)} else {})
  {}

  predicate HasAlready(t: Tree, key: Key, value: Record)
    requires t.Node?
  {
    Descend(t, 0, key).record == Some(value)
  }

  /** Does nothing if the record has the value already; otherwise replaces the last node on the way,
      and then every node above it. */
  method InsertRecord(root: Tree, key: Key, value: Record) returns (t: Tree, added: set<NodeKey>, removed: set<NodeKey>)
    requires root.Node? && |key| == NUM_BITS
    ensures HasAlready(root, key, value) ==> t == root && added == {} && removed == {}
    ensures !HasAlready(root, key, value) ==>
              t == Insert(root, 0, key, value) && added == Added(root, 0, key, value) && removed == Removed(root, 0, key)
  {
    if HasAlready(root, key, value) { return root, {}, {}; }
    var way := Way(root, 0, key);
    var i := |way| - 1;
    WayLeads(way, root, 0, key, i);
    BuildLast(way[i], key, value);
    var (last, at) := way[i];
    var side := last.Side(key[at]);
    t := InsertAt(last, at, key, value);
    added := {(key[..at], t)} + AddedBelow(last, at, key, value);
    removed := {(key[..at], last)} + if side.Some? && side.value.prefix == key[at..] then {(key, side.value.child)} else {};
    while i > 0
      invariant 0 <= i < |way| && BuiltFrom(way[i], key, value, t, added, removed)
    {
      WayLeads(way, root, 0, key, i - 1);
      BuildUp(way[i - 1], way[i], key, value, t, added, removed);
      i := i - 1;
      var (parent, depth) := way[i];
      t := parent.WithSide(key[depth], Branch(parent.Side(key[depth]).value.prefix, t));
      added := {(key[..depth], t)} + added;
      removed := {(key[..depth], parent)} + removed;
    }
  }

  // ---- The store ----

  predicate Maps(m: map<Key, Record>, key: Key, value: Record) {
    key in m && m[key] == value
  }

  function Stored(nodes: set<NodeKey>): map<NodeKey, Tree> {
    map x <- nodes :: x.1
  }

  /** The changes that go with an insertion; none if the record has the value already. */
  function InsertDelta(t: Tree, key: Key, value: Record): StoreDeltas.Delta<NodeKey, Tree>
    requires t.Node? && |key| == NUM_BITS
  {
    if HasAlready(t, key, value) then StoreDeltas.Delta(map[], {})
    else StoreDeltas.Build(Stored(Added(t, 0, key, value)), Removed(t, 0, key))
  }

  lemma HasIsMaps(t: Tree, key: Key, value: Record)
    requires WellFormed(t, [], true) && |key| == NUM_BITS
    ensures HasAlready(t, key, value) <==> Maps(Contents(t), key, value)
  {
    LookupAgrees(t, [], true, key);
  }

  /** Inserting the value that a record has leaves the tree as it is. */
  lemma InsertNothing(t: Tree, key: Key, value: Record)
    requires WellFormed(t, [], true) && |key| == NUM_BITS && HasAlready(t, key, value)
    ensures Insert(t, 0, key, value) == t
  {
    HasIsMaps(t, key, value);
    InsertIsUpdate(t, [], true, key, value);
    Canonical(Insert(t, 0, key, value), t, [], true);
  }

  /** A store that holds exactly a tree's nodes holds exactly the new tree's after the changes. */
  lemma StoreFollows(t: Tree, key: Key, value: Record)
    requires WellFormed(t, [], true) && |key| == NUM_BITS
    ensures StoreDeltas.Apply(Stored(Nodes(t, [])), InsertDelta(t, key, value)) == Stored(Nodes(Insert(t, 0, key, value), []))
  {
    if HasAlready(t, key, value) { InsertNothing(t, key, value); } else { ChangesFollow(t, key, value); }
  }

  lemma ChangesFollow(t: Tree, key: Key, value: Record)
    requires WellFormed(t, [], true) && |key| == NUM_BITS && !HasAlready(t, key, value)
    ensures StoreDeltas.Apply(Stored(Nodes(t, [])), InsertDelta(t, key, value)) == Stored(Nodes(Insert(t, 0, key, value), []))
  {
    var before, after := Stored(Nodes(t, [])), Stored(Nodes(Insert(t, 0, key, value), []));
    var added, removed := Stored(Added(t, 0, key, value)), Removed(t, 0, key);
    StoreDeltas.BuildApplies(before, added, removed);
    var changed := before - removed + added;
    forall x: NodeKey ensures x in changed <==> x in after {
      NodesFollow(t, [], true, key, value, x);
    }
    assert changed.Keys == after.Keys && changed == after;
  }

  // ---- A batch of insertions ----

  ghost predicate AllKeys(records: seq<(Key, Record)>) {
    forall i :: 0 <= i < |records| ==> |records[i].0| == NUM_BITS
  }

  function InsertAll(t: Tree, records: seq<(Key, Record)>): (r: Tree)
    requires t.Node? && AllKeys(records)
    ensures r.Node?
  {
    if records == [] then t
    else
      var (key, value) := records[|records| - 1];
      Insert(InsertAll(t, records[..|records| - 1]), 0, key, value)
  }

  function Deltas(t: Tree, records: seq<(Key, Record)>): (ds: seq<StoreDeltas.Delta<NodeKey, Tree>>)
    requires t.Node? && AllKeys(records)
  {
    if records == [] then []
    else
      var (key, value) := records[|records| - 1];
      Deltas(t, records[..|records| - 1]) + [InsertDelta(InsertAll(t, records[..|records| - 1]), key, value)]
  }

  function Updated(m: map<Key, Record>, records: seq<(Key, Record)>): map<Key, Record> {
    if records == [] then m else Updated(m, records[..|records| - 1])[records[|records| - 1].0 := records[|records| - 1].1]
  }

  lemma {:induction false} InsertAllUpdates(t: Tree, records: seq<(Key, Record)>)
    requires WellFormed(t, [], true) && AllKeys(records)
    ensures WellFormed(InsertAll(t, records), [], true) && Contents(InsertAll(t, records)) == Updated(Contents(t), records)
    ensures StoreDeltas.ApplyAll(Stored(Nodes(t, [])), Deltas(t, records)) == Stored(Nodes(InsertAll(t, records), []))
  {
    if records != [] {
      var n := |records| - 1;
      var (key, value) := records[n];
      var u := InsertAll(t, records[..n]);
      InsertAllUpdates(t, records[..n]);
      InsertIsUpdate(u, [], true, key, value);
      StoreFollows(u, key, value);
      var ds := Deltas(t, records[..n]);
      assert (ds + [InsertDelta(u, key, value)])[..|ds|] == ds;
    }
  }

  /** Batches that leave the same records leave the same tree, and so the same root hash. */
  lemma OrderDoesNotMatter(t: Tree, a: seq<(Key, Record)>, b: seq<(Key, Record)>)
    requires WellFormed(t, [], true) && AllKeys(a) && AllKeys(b) && Updated(Contents(t), a) == Updated(Contents(t), b)
    ensures InsertAll(t, a) == InsertAll(t, b)
  {
    InsertAllUpdates(t, a);
    InsertAllUpdates(t, b);
    RangeStays(t, a);
    RangeStays(t, b);
    Canonical(InsertAll(t, a), InsertAll(t, b), [], true);
  }

  lemma {:induction false} RangeStays(t: Tree, records: seq<(Key, Record)>)
    requires t.Node? && AllKeys(records)
    ensures InsertAll(t, records).range == t.range
  {
    if records != [] { RangeStays(t, records[..|records| - 1]); }
  }

  // ---- Nodes that come back ----

  /** A node of a tree holds only records of the tree. */
  lemma {:induction false} NodeHolds(t: Tree, p: seq<bool>, root: bool, x: NodeKey, key: Key, value: Record)
    requires WellFormed(t, p, root) && x in Nodes(t, p) && Maps(Contents(x.1), key, value)
    ensures Maps(Contents(t), key, value)
  {
    if t.Node? && x != (p, t) {
      var bit := x in BranchNodes(t.right, p);
      var b := t.Side(bit).value;
      NodeHolds(b.child, p + b.prefix, false, x, key, value);
      KeysOnSide(t, p, root, bit, key);
      OnOneSide(t, p, root, key);
    }
  }

  lemma {:induction false} AddedHold(t: Tree, p: seq<bool>, root: bool, key: Key, value: Record, x: NodeKey)
    requires WellFormed(t, p, root) && t.Node? && p <= key && |p| < |key| == NUM_BITS && x in Added(t, |p|, key, value)
    ensures Maps(Contents(x.1), key, value)
  {
    InsertIsUpdate(t, p, root, key, value);
    if x != (key[..|p|], Insert(t, |p|, key, value)) {
      if GoesOn(t, |p|, key) {
        var b := t.Side(key[|p|]).value;
        PrefixFrom(p, b.prefix, key);
        AddedHold(b.child, p + b.prefix, false, key, value, x);
      } else {
        var u := InsertAt(t, |p|, key, value);
        assert u == Insert(t, |p|, key, value);
        OnOneSide(u, p, root, key);
      }
    }
  }

  lemma {:induction false} RemovedAreNodes(t: Tree, p: seq<bool>, root: bool, key: Key, x: NodeKey)
    requires WellFormed(t, p, root) && t.Node? && p <= key && |p| < |key| == NUM_BITS && x in Removed(t, |p|, key)
    ensures x in Nodes(t, p)
  {
    var side := t.Side(key[|p|]);
    assert key[..|p|] == p;
    if x != (p, t) {
      if GoesOn(t, |p|, key) {
        PrefixFrom(p, side.value.prefix, key);
        RemovedAreNodes(side.value.child, p + side.value.prefix, false, key, x);
      } else {
        assert p + key[|p|..] == key;
        NotTooDeep(side.value.child, key);
        assert x in BranchNodes(side, p);
      }
    }
  }

  lemma {:induction false} DeltasLength(t: Tree, records: seq<(Key, Record)>)
    requires t.Node? && AllKeys(records)
    ensures |Deltas(t, records)| == |records|
  {
    if records != [] { DeltasLength(t, records[..|records| - 1]); }
  }

  lemma {:induction false} DeltaAt(t: Tree, records: seq<(Key, Record)>, i: nat)
    requires t.Node? && AllKeys(records) && i < |records|
    ensures |Deltas(t, records)| == |records| && Deltas(t, records)[..i] == Deltas(t, records[..i])
    ensures Deltas(t, records)[i] == InsertDelta(InsertAll(t, records[..i]), records[i].0, records[i].1)
  {
    DeltasLength(t, records);
    DeltasLength(t, records[..i]);
    var n := |records| - 1;
    if i < n {
      DeltasLength(t, records[..n]);
      DeltaAt(t, records[..n], i);
      assert records[..n][..i] == records[..i];
    }
  }

  lemma AddedIsNew(t: Tree, key: Key, value: Record, x: NodeKey)
    requires WellFormed(t, [], true) && |key| == NUM_BITS && !HasAlready(t, key, value) && x in Added(t, 0, key, value)
    ensures x !in Nodes(t, [])
  {
    HasIsMaps(t, key, value);
    AddedHold(t, [], true, key, value, x);
    if x in Nodes(t, []) { NodeHolds(t, [], true, x, key, value); }
  }

  /** The changes are exactly the difference between the stored nodes before and after. */
  lemma DeltaIsDifference(t: Tree, key: Key, value: Record)
    requires WellFormed(t, [], true) && |key| == NUM_BITS
    ensures StoreDeltas.Leads(Stored(Nodes(t, [])), InsertDelta(t, key, value), Stored(Nodes(Insert(t, 0, key, value), [])))
  {
    var before, d, after := Stored(Nodes(t, [])), InsertDelta(t, key, value), Stored(Nodes(Insert(t, 0, key, value), []));
    StoreFollows(t, key, value);
    if HasAlready(t, key, value) {
      InsertNothing(t, key, value);
    } else {
      forall x | x in d.add ensures x !in before { AddedIsNew(t, key, value, x); }
      forall x | x in d.remove ensures x in before { RemovedAreNodes(t, [], true, key, x); }
    }
    assert d.add.Keys == after.Keys - before.Keys && d.remove == before.Keys - after.Keys;
  }

  /** The stored nodes after each insertion of the batch. */
  ghost function Stores(t: Tree, records: seq<(Key, Record)>): (s: seq<map<NodeKey, Tree>>)
    requires t.Node? && AllKeys(records)
    ensures |s| == |records| + 1 && forall j :: 0 <= j <= |records| ==> s[j] == Stored(Nodes(InsertAll(t, records[..j]), []))
  {
    seq(|records| + 1, j requires 0 <= j <= |records| => Stored(Nodes(InsertAll(t, records[..j]), [])))
  }

  lemma StoresLead(t: Tree, records: seq<(Key, Record)>)
    requires WellFormed(t, [], true) && AllKeys(records)
    ensures StoreDeltas.Leading(Stores(t, records), Deltas(t, records))
  {
    var stores, ds := Stores(t, records), Deltas(t, records);
    DeltasLength(t, records);
    forall i | 0 <= i < |ds| ensures StoreDeltas.Leads(stores[i], ds[i], stores[i + 1]) {
      DeltaAt(t, records, i);
      InsertAllUpdates(t, records[..i]);
      DeltaIsDifference(InsertAll(t, records[..i]), records[i].0, records[i].1);
      assert records[..i + 1][..i] == records[..i];
    }
  }

  /** The node is there in the beginning and in the end of the batch, but not all the time. */
  ghost predicate NodeReturns(t: Tree, records: seq<(Key, Record)>, x: NodeKey)
    requires t.Node? && AllKeys(records)
  {
    && x in Nodes(t, []) && x in Nodes(InsertAll(t, records), [])
    && exists j :: 0 <= j <= |records| && x !in Nodes(InsertAll(t, records[..j]), [])
  }

  lemma ReturnsIsMissing(t: Tree, records: seq<(Key, Record)>, stores: seq<map<NodeKey, Tree>>, x: NodeKey)
    requires t.Node? && AllKeys(records) && stores == Stores(t, records)
    ensures NodeReturns(t, records, x) <==> x in stores[0] && x in stores[|records|] && StoreDeltas.Missing(stores, x)
  {
    assert records[..0] == [] && records[..|records|] == records;
    if StoreDeltas.Missing(stores, x) {
      var j :| 0 <= j < |stores| && x !in stores[j];
      assert x !in Nodes(InsertAll(t, records[..j]), []);
    }
    if NodeReturns(t, records, x) {
      var j :| 0 <= j <= |records| && x !in Nodes(InsertAll(t, records[..j]), []);
      assert x !in stores[j];
    }
  }

  /** Writing a batch as one squashed delta leaves exactly the nodes of the new tree if and only if no node returns. */
  lemma SquashedNodes(t: Tree, records: seq<(Key, Record)>)
    requires WellFormed(t, [], true) && AllKeys(records)
    ensures StoreDeltas.Apply(Stored(Nodes(t, [])), StoreDeltas.SquashAll(Deltas(t, records))) == Stored(Nodes(InsertAll(t, records), []))
            <==> forall x :: !NodeReturns(t, records, x)
  {
    hide Nodes, InsertAll, Deltas, NodeReturns;
    var stores := Stores(t, records);
    StoresLead(t, records);
    DeltasLength(t, records);
    FirstAndLast(t, records);
    StoreDeltas.SquashAllExact(stores, Deltas(t, records));
    forall x: NodeKey ensures NodeReturns(t, records, x) <==> x in stores[0] && x in stores[|records|] && StoreDeltas.Missing(stores, x) {
      ReturnsIsMissing(t, records, stores, x);
    }
  }

  lemma FirstAndLast(t: Tree, records: seq<(Key, Record)>)
    requires t.Node? && AllKeys(records)
    ensures Stores(t, records)[0] == Stored(Nodes(t, [])) && Stores(t, records)[|records|] == Stored(Nodes(InsertAll(t, records), []))
  {
    assert records[..0] == [] && records[..|records|] == records;
  }

  // ---- Nodes and the records below them ----

  function Under(m: map<Key, Record>, p: seq<bool>): map<Key, Record> {
    map k <- m | p <= k :: m[k]
  }

  /** A node holds exactly the records below it. */
  lemma {:induction false} NodeIsUnder(t: Tree, p: seq<bool>, root: bool, x: NodeKey)
    requires WellFormed(t, p, root) && x in Nodes(t, p)
    ensures WellFormed(x.1, x.0, root && x.0 == p) && Contents(x.1) == Under(Contents(t), x.0)
    ensures x.0 == p ==> x.1 == t
  {
    if t.Node? && x != (p, t) {
      var bit := x in BranchNodes(t.right, p);
      var b := t.Side(bit).value;
      NodesOnSide(t, p, root, bit, x);
      NodeIsUnder(b.child, p + b.prefix, false, x);
      forall k | k in Contents(t) && x.0 <= k ensures k in Contents(b.child) && Contents(b.child)[k] == Contents(t)[k] {
        OnOneSide(t, p, root, k);
      }
      forall k | k in Contents(b.child) ensures k in Contents(t) && Contents(b.child)[k] == Contents(t)[k] {
        KeysOnSide(t, p, root, bit, k);
        OnOneSide(t, p, root, k);
      }
      assert Under(Contents(t), x.0) == Under(Contents(b.child), x.0);
    } else {
      forall k | k in Contents(t) ensures p <= k { KeysExtend(t, p, root, k); }
    }
  }

  /** There is a record at the place, or there are records on both sides of it. */
  ghost predicate Forks(m: map<Key, Record>, p: seq<bool>) {
    p in m || ((exists k <- m :: p + [false] <= k) && (exists k <- m :: p + [true] <= k))
  }

  lemma NodeForks(t: Tree, p: seq<bool>)
    requires WellFormed(t, p, false)
    ensures Forks(Contents(t), p)
  {
    if t.Node? {
      KeyOnSide(t, p, false);
      KeyOnSide(t, p, true);
    }
  }

  lemma KeyOnSide(t: Tree, p: seq<bool>, bit: bool)
    requires WellFormed(t, p, false) && t.Node?
    ensures exists k <- Contents(t) :: p + [bit] <= k
  {
    var b := t.Side(bit).value;
    assert WellPlaced(b, p, bit);
    var k := SomeKey(b.child, p + b.prefix);
    KeysOnSide(t, p, false, bit, k);
    OnOneSide(t, p, false, k);
    assert k in Contents(t) && p <= k && p + [bit] <= k;
  }
  /** The branch towards the place does not lead past it. */
  lemma BranchTowards(t: Tree, q: seq<bool>, root: bool, p: seq<bool>)
    requires WellFormed(t, q, root) && q <= p && q != p && Forks(Under(Contents(t), p), p)
    ensures t.Node? && t.Side(p[|q|]).Some? && q + t.Side(p[|q|]).value.prefix <= p
    ensures Under(Contents(t.Side(p[|q|]).value.child), p) == Under(Contents(t), p)
  {
    var m := Under(Contents(t), p);
    var k :| k in m;
    KeysExtend(t, q, root, k);
    var bit := p[|q|];
    forall j | j in m ensures |q| < |j| == NUM_BITS && j[|q|] == bit && t.Side(bit).Some? && j in Contents(t.Side(bit).value.child)
                              && Contents(t.Side(bit).value.child)[j] == m[j] && q + t.Side(bit).value.prefix <= j
    {
      OnOneSide(t, q, root, j);
      KeysOnSide(t, q, root, bit, j);
    }
    var b := t.Side(bit).value;
    forall j | j in Contents(b.child) ensures j in Contents(t) && Contents(t)[j] == Contents(b.child)[j] {
      KeysOnSide(t, q, root, bit, j);
      OnOneSide(t, q, root, j);
    }
    assert Under(Contents(b.child), p) == m;
    NotPast(m, p, q + b.prefix);
  }

  lemma NotPast(m: map<Key, Record>, p: seq<bool>, r: seq<bool>)
    requires Forks(m, p) && forall k <- m :: p <= k && r <= k && |k| == NUM_BITS
    ensures r <= p
  {
    if p !in m {
      var j :| j in m && p + [false] <= j;
      var k :| k in m && p + [true] <= k;
      assert j[|p|] == (p + [false])[|p|] && k[|p|] == (p + [true])[|p|];
    }
  }

  /** Where records fork there is a node. */
  lemma {:induction false} FindNode(t: Tree, q: seq<bool>, root: bool, p: seq<bool>) returns (n: Tree)
    requires WellFormed(t, q, root) && q <= p && Forks(Under(Contents(t), p), p)
    ensures (p, n) in Nodes(t, q)
  {
    if q == p {
      n := t;
    } else {
      BranchTowards(t, q, root, p);
      var b := t.Side(p[|q|]).value;
      n := FindNode(b.child, q + b.prefix, false, p);
      assert (p, n) in BranchNodes(t.Side(p[|q|]), q);
    }
  }

  /** A node depends on the records below it only. */
  lemma SameNode(t: Tree, u: Tree, x: NodeKey)
    requires WellFormed(t, [], true) && WellFormed(u, [], true) && t.range == u.range
    requires x in Nodes(t, []) && Under(Contents(t), x.0) == Under(Contents(u), x.0)
    ensures x in Nodes(u, [])
  {
    NodeIsUnder(t, [], true, x);
    if x.0 == [] {
      assert Under(Contents(u), []) == Contents(u);
      Canonical(t, u, [], true);
    } else {
      NodeForks(x.1, x.0);
      var n := FindNode(u, [], true, x.0);
      NodeIsUnder(u, [], true, (x.0, n));
      Canonical(x.1, n, x.0, false);
    }
  }

  lemma {:induction false} LeafIsNode(t: Tree, p: seq<bool>, root: bool, key: Key, value: Record)
    requires WellFormed(t, p, root) && Maps(Contents(t), key, value)
    ensures (key, Leaf(key, value)) in Nodes(t, p)
  {
    if t.Node? {
      KeysExtend(t, p, root, key);
      var bit := key in BranchContents(t.right);
      KeysOnSide(t, p, root, bit, key);
      OnOneSide(t, p, root, key);
      var b := t.Side(bit).value;
      LeafIsNode(b.child, p + b.prefix, false, key, value);
      assert (key, Leaf(key, value)) in BranchNodes(t.Side(bit), p);
    }
  }

  // ---- The exact condition on the records ----

  /** A record that was there before gets another value in the batch and has its first value again at the end. */
  ghost predicate FirstValueReturns(m: map<Key, Record>, records: seq<(Key, Record)>) {
    exists i :: 0 <= i < |records| && Changes(m, records[i]) && Maps(Updated(m, records), records[i].0, m[records[i].0])
  }

  predicate Changes(m: map<Key, Record>, r: (Key, Record)) {
    r.0 in m && m[r.0] != r.1
  }

  lemma {:induction false} UpdatedGrows(m: map<Key, Record>, records: seq<(Key, Record)>, j: nat)
    requires j <= |records|
    ensures Updated(m, records[..j]).Keys <= Updated(m, records).Keys
  {
    if j == |records| {
      assert records[..j] == records;
    } else {
      UpdatedGrows(m, records[..|records| - 1], j);
      assert records[..|records| - 1][..j] == records[..j];
    }
  }

  lemma {:induction false} Unchanged(m: map<Key, Record>, records: seq<(Key, Record)>, key: Key)
    requires key in m && forall i :: 0 <= i < |records| && records[i].0 == key ==> !Changes(m, records[i])
    ensures Maps(Updated(m, records), key, m[key])
  {
    if records != [] {
      assert records[|records| - 1].0 == key ==> !Changes(m, records[|records| - 1]);
      Unchanged(m, records[..|records| - 1], key);
    }
  }

  lemma ValueReturnsNode(t: Tree, records: seq<(Key, Record)>, i: nat)
    requires WellFormed(t, [], true) && AllKeys(records) && i < |records| && Changes(Contents(t), records[i])
    requires Maps(Updated(Contents(t), records), records[i].0, Contents(t)[records[i].0])
    ensures exists x :: NodeReturns(t, records, x)
  {
    var (key, other) := records[i];
    var value := Contents(t)[key];
    var x: NodeKey := (key, Leaf(key, value));
    InsertAllUpdates(t, records);
    InsertAllUpdates(t, records[..i + 1]);
    LeafIsNode(t, [], true, key, value);
    LeafIsNode(InsertAll(t, records), [], true, key, value);
    var u := InsertAll(t, records[..i + 1]);
    if x in Nodes(u, []) { NodeHolds(u, [], true, x, key, value); }
    assert NodeReturns(t, records, x);
  }

  /** Records below a place that are the same in the beginning and in the end are the same all the time. */
  lemma SameUnder(m: map<Key, Record>, records: seq<(Key, Record)>, p: seq<bool>, j: nat)
    requires !FirstValueReturns(m, records) && j <= |records| && Under(m, p) == Under(Updated(m, records), p)
    ensures Under(Updated(m, records[..j]), p) == Under(m, p)
  {
    var front := records[..j];
    UpdatedGrows(m, records, j);
    UpdatedGrows(m, front, 0);
    forall k | k in m && p <= k ensures Maps(Updated(m, front), k, m[k]) {
      assert k in Under(m, p) && Maps(Updated(m, records), k, m[k]);
      forall i | 0 <= i < |front| && front[i].0 == k ensures !Changes(m, front[i]) { assert front[i] == records[i]; }
      Unchanged(m, front, k);
    }
    forall k | k in Updated(m, front) && p <= k ensures k in m {
      assert k in Under(Updated(m, records), p);
    }
  }

  lemma NodeReturnsValue(t: Tree, records: seq<(Key, Record)>, x: NodeKey)
    requires WellFormed(t, [], true) && AllKeys(records) && NodeReturns(t, records, x)
    ensures FirstValueReturns(Contents(t), records)
  {
    var m, u := Contents(t), InsertAll(t, records);
    var j :| 0 <= j <= |records| && x !in Nodes(InsertAll(t, records[..j]), []);
    var w := InsertAll(t, records[..j]);
    InsertAllUpdates(t, records);
    InsertAllUpdates(t, records[..j]);
    NodeIsUnder(t, [], true, x);
    NodeIsUnder(u, [], true, x);
    RangeStays(t, records[..j]);
    if !FirstValueReturns(m, records) {
      SameUnder(m, records, x.0, j);
      SameNode(t, w, x);
    }
  }

  /** Writing a batch of insertions as one squashed delta leaves exactly the nodes of the tree that holds
      all the records if and only if no record that changes has its first value again at the end. */
  lemma SquashedBatch(t: Tree, records: seq<(Key, Record)>)
    requires WellFormed(t, [], true) && AllKeys(records)
    ensures StoreDeltas.Apply(Stored(Nodes(t, [])), StoreDeltas.SquashAll(Deltas(t, records))) == Stored(Nodes(InsertAll(t, records), []))
            <==> !FirstValueReturns(Contents(t), records)
    ensures Contents(InsertAll(t, records)) == Updated(Contents(t), records)
  {
    InsertAllUpdates(t, records);
    SquashedNodes(t, records);
    if FirstValueReturns(Contents(t), records) {
      var i :| 0 <= i < |records| && Changes(Contents(t), records[i]) && Maps(Updated(Contents(t), records), records[i].0, Contents(t)[records[i].0]);
      ValueReturnsNode(t, records, i);
    } else {
      forall x ensures !NodeReturns(t, records, x) {
        if NodeReturns(t, records, x) { NodeReturnsValue(t, records, x); }
      }
    }
  }

  // ---- When a value does come back ----

  lemma UpdateBack(m: map<Key, Record>, key: Key, value: Record, other: Record)
    requires Maps(m, key, value)
    ensures m[key := other][key := value] == m
  {}

  /** Giving a record its old value again gives the old tree again. */
  lemma InsertBack(t: Tree, key: Key, value: Record, other: Record, u: Tree, v: Tree)
    requires WellFormed(t, [], true) && |key| == NUM_BITS && Maps(Contents(t), key, value)
    requires u == Insert(t, 0, key, other) && v == Insert(u, 0, key, value)
    ensures WellFormed(u, [], true) && v == t
  {
    InsertIsUpdate(t, [], true, key, other);
    InsertIsUpdate(u, [], true, key, value);
    UpdateBack(Contents(t), key, value, other);
    Canonical(v, t, [], true);
  }

  /** The first of the two changes removes the root, the second adds it. */
  lemma RootComesBack(t: Tree, key: Key, value: Record, other: Record, u: Tree)
    requires WellFormed(t, [], true) && |key| == NUM_BITS && Maps(Contents(t), key, value) && other != value
    requires u == Insert(t, 0, key, other) && Insert(u, 0, key, value) == t
    ensures ([], t) in InsertDelta(t, key, other).remove && ([], t) in InsertDelta(u, key, value).add
  {
    var x: NodeKey := ([], t);
    assert key[..0] == [];
    InsertIsUpdate(t, [], true, key, other);
    HasIsMaps(t, key, other);
    HasIsMaps(u, key, value);
    assert x !in Added(t, 0, key, other) by {
      if x in Added(t, 0, key, other) { AddedHold(t, [], true, key, other, x); }
    }
    assert x in Removed(t, 0, key) && x in Added(u, 0, key, value);
  }

  /** Whatever the tree, squashing two insertions that change a record and change it back is not
      the same as applying them one after the other: the root is removed although it is needed. */
  lemma ValueComesBack(t: Tree, key: Key, value: Record, other: Record)
    requires WellFormed(t, [], true) && |key| == NUM_BITS && Maps(Contents(t), key, value) && other != value
    ensures var store, u := Stored(Nodes(t, [])), Insert(t, 0, key, other);
            var a, b := InsertDelta(t, key, other), InsertDelta(u, key, value);
            StoreDeltas.Apply(StoreDeltas.Apply(store, a), b) == store && StoreDeltas.Apply(store, StoreDeltas.Squash(a, b)) != store
  {
    var store, u := Stored(Nodes(t, [])), Insert(t, 0, key, other);
    var a, b := InsertDelta(t, key, other), InsertDelta(u, key, value);
    InsertBack(t, key, value, other, u, Insert(u, 0, key, value));
    StoreFollows(t, key, other);
    StoreFollows(u, key, value);
    RootComesBack(t, key, value, other, u);
    StoreDeltas.SquashExact(store, a, b);
    assert StoreDeltas.Clashes(store, a, b, ([], t));
  }
}
