/** Merging two trees of adjacent ranges, as when a group takes over a range. */
module MerkleMerge {
  import opened Wrappers
  import RecordIds
  import opened Orderings
  import opened OwnedRanges
  import opened Bits
  import opened MerkleTree
  import opened MerkleInsert
  import opened MerkleCanonical
  import opened MerkleSplit

  // ---- The branches off the way ----

  function FullBranch(b: Option<Branch>, p: seq<bool>): seq<Branch> {
    if b.None? then [] else [Branch(p + b.value.prefix, b.value.child)]
  }

  /** All branches that the way to the key passes by, and both of the last node, with their full prefixes. */
  function Collect(t: Tree, at: nat, key: Key): seq<Branch>
    requires t.Node? && at < |key|
    decreases t, 1
  {
    FullBranch(t.Side(!key[at]), key[..at]) + CollectOn(t, at, key)
  }

  function CollectOn(t: Tree, at: nat, key: Key): seq<Branch>
    requires t.Node? && at < |key|
    decreases t, 0
  {
    if GoesOn(t, at, key) then
      var b := t.Side(key[at]).value;
      Collect(b.child, at + |b.prefix|, key)
    else FullBranch(t.Side(key[at]), key[..at])
  }

  lemma CollectPast(t: Tree, at: nat, key: Key, branches: seq<Branch>)
    requires t.Node? && at < |key| && GoesOn(t, at, key)
    ensures var b := t.Side(key[at]).value;
            branches + Collect(t, at, key) == branches + FullBranch(t.Side(!key[at]), key[..at]) + Collect(b.child, at + |b.prefix|, key)
  {}

  lemma CollectLast(t: Tree, at: nat, key: Key)
    requires t.Node? && at < |key| && !GoesOn(t, at, key)
    ensures Collect(t, at, key) == FullBranch(t.Side(!key[at]), key[..at]) + FullBranch(t.Side(key[at]), key[..at])
  {}

  /** Walks the way to the key and collects the branches. */
  method CollectBranches(root: Tree, key: Key) returns (branches: seq<Branch>)
    requires root.Node? && key != []
    ensures branches == Collect(root, 0, key)
  {
    branches := [];
    var n := root;
    var at: nat := 0;
    while GoesOn(n, at, key)
      invariant n.Node? && at < |key| && branches + Collect(n, at, key) == Collect(root, 0, key)
      decreases n
    {
      var b, off := n.Side(key[at]).value, FullBranch(n.Side(!key[at]), key[..at]);
      CollectPast(n, at, key, branches);
      branches, n, at := branches + off, b.child, at + |b.prefix|;
    }
    CollectLast(n, at, key);
    branches := branches + (FullBranch(n.Side(!key[at]), key[..at]) + FullBranch(n.Side(key[at]), key[..at]));
  }

  /** Those off the way to the outermost record on one side. */
  function Branches(t: Tree, bit: bool): seq<Branch>
    requires t.Node?
  {
    match Outermost(t, bit)
    case None => []
    case Some((key, _)) => if key == [] then [] else Collect(t, 0, key)
  }

  // ---- Putting branches together ----

  function InsertSorted(x: Branch, s: seq<Branch>): (r: seq<Branch>)
    ensures forall b :: b in r <==> b == x || b in s
  {
    if s == [] || CompareBits(x.prefix, s[0].prefix) != Greater then [x] + s else [s[0]] + InsertSorted(x, s[1..])
  }

  function SortByPrefix(s: seq<Branch>): (r: seq<Branch>)
    ensures forall b :: b in r <==> b in s
  {
    if s == [] then [] else InsertSorted(s[0], SortByPrefix(s[1..]))
  }

  /** How many branches come before the first with a one at the position. */
  function ZerosFirst(bs: seq<Branch>, pos: nat): (n: nat)
    requires forall b <- bs :: pos < |b.prefix|
    ensures n <= |bs|
  {
    if bs == [] || bs[0].prefix[pos] then 0 else 1 + ZerosFirst(bs[1..], pos)
  }

  /** One branch from `start` that leads to all the given ones; none where the source would panic. */
  function ReduceToTree(bs: seq<Branch>, start: nat, pos: nat, range: OwnedRange): Option<Branch>
    requires start <= pos
    decreases |bs|, if bs == [] || |bs[0].prefix| < pos then 0 else |bs[0].prefix| - pos
  {
    if bs == [] then None
    else if |bs| == 1 then
      if start <= |bs[0].prefix| then Some(Branch(bs[0].prefix[start..], bs[0].child)) else None
    else if exists b <- bs :: |b.prefix| <= pos then None
    else
      assert bs[0] in bs;
      var n := ZerosFirst(bs, pos);
      if n == 0 || n == |bs| then ReduceToTree(bs, start, pos + 1, range)
      else
        var l, r := ReduceToTree(bs[..n], pos, pos + 1, range), ReduceToTree(bs[n..], pos, pos + 1, range);
        if l.None? || r.None? then None
        else Some(Branch(bs[0].prefix[start..pos], Node(if pos == 0 then Some(range) else None, l, r)))
  }

  function Assemble(branches: seq<Branch>, range: OwnedRange): Option<Tree> {
    var bs := SortByPrefix(branches);
    if bs == [] then Some(EmptyRoot(range))
    else match ReduceToTree(bs, 0, 0, range)
      case None => None
      case Some(b) => Some(AsRoot(Some(b), range))
  }

  /** With the ways to any two keys as proofs. */
  function MergeAlong(l: Tree, lkey: Key, r: Tree, rkey: Key, range: OwnedRange): Option<Tree>
    requires l.Node? && r.Node? && lkey != [] && rkey != []
  {
    Assemble(Collect(l, 0, lkey) + Collect(r, 0, rkey), range)
  }

  /** With proofs that lean to the other tree. */
  function Merge(l: Tree, r: Tree, range: OwnedRange): Option<Tree>
    requires l.Node? && r.Node?
  {
    Assemble(Branches(l, true) + Branches(r, false), range)
  }

  // ---- Lists of branches ----

  /** Neither prefix is a prefix of the other. */
  predicate Apart(a: Branch, b: Branch) {
    !(a.prefix <= b.prefix) && !(b.prefix <= a.prefix)
  }

  predicate PrefixFree(s: seq<Branch>) {
    s != [] ==> (forall b <- s[1..] :: Apart(s[0], b)) && PrefixFree(s[1..])
  }

  predicate Sorted(s: seq<Branch>) {
    s != [] ==> (forall b <- s[1..] :: CompareBits(s[0].prefix, b.prefix) != Greater) && Sorted(s[1..])
  }

  lemma {:induction false} BitsOpposite(a: seq<bool>, b: seq<bool>)
    ensures CompareBits(a, b) == Less <==> CompareBits(b, a) == Greater
  {
    if a != [] && b != [] { BitsOpposite(a[1..], b[1..]); }
  }

  lemma {:induction false} BitsTransitive(a: seq<bool>, b: seq<bool>, c: seq<bool>)
    requires CompareBits(a, b) != Greater && CompareBits(b, c) != Greater
    ensures CompareBits(a, c) != Greater
  {
    if a != [] && a[0] == b[0] == c[0] { BitsTransitive(a[1..], b[1..], c[1..]); }
  }

  lemma {:induction false} InsertSorts(x: Branch, s: seq<Branch>)
    requires Sorted(s)
    ensures Sorted(InsertSorted(x, s))
  {
    if s != [] {
      if CompareBits(x.prefix, s[0].prefix) != Greater {
        assert ([x] + s)[1..] == s;
        forall b | b in s ensures CompareBits(x.prefix, b.prefix) != Greater {
          if b != s[0] { BitsTransitive(x.prefix, s[0].prefix, b.prefix); }
        }
      } else {
        InsertSorts(x, s[1..]);
        var t := InsertSorted(x, s[1..]);
        assert ([s[0]] + t)[1..] == t;
        BitsOpposite(s[0].prefix, x.prefix);
      }
    }
  }

  lemma {:induction false} InsertApart(x: Branch, s: seq<Branch>)
    ensures PrefixFree(InsertSorted(x, s)) <==> PrefixFree(s) && forall b <- s :: Apart(x, b)
  {
    if s != [] {
      if CompareBits(x.prefix, s[0].prefix) != Greater {
        assert ([x] + s)[1..] == s;
      } else {
        InsertApart(x, s[1..]);
        var t := InsertSorted(x, s[1..]);
        assert ([s[0]] + t)[1..] == t;
        assert s == [s[0]] + s[1..];
        assert (forall b <- s :: Apart(x, b)) <==> Apart(x, s[0]) && forall b <- s[1..] :: Apart(x, b);
        assert Apart(x, s[0]) <==> Apart(s[0], x);
      }
    }
  }

  /** Sorting puts the branches in order and leaves them apart, or not, as they were. */
  lemma {:induction false} SortKeeps(s: seq<Branch>)
    ensures Sorted(SortByPrefix(s)) && (PrefixFree(SortByPrefix(s)) <==> PrefixFree(s))
  {
    if s != [] {
      SortKeeps(s[1..]);
      InsertSorts(s[0], SortByPrefix(s[1..]));
      InsertApart(s[0], SortByPrefix(s[1..]));
    }
  }

  lemma {:induction false} PrefixFreeConcat(a: seq<Branch>, b: seq<Branch>)
    requires PrefixFree(a) && PrefixFree(b) && forall x, y :: x in a && y in b ==> Apart(x, y)
    ensures PrefixFree(a + b)
  {
    if a == [] {
      assert a + b == b;
    } else {
      assert (a + b)[1..] == a[1..] + b;
      assert a[0] in a;
      PrefixFreeConcat(a[1..], b);
    }
  }

  lemma {:induction false} PartsKeep(s: seq<Branch>, n: nat)
    requires PrefixFree(s) && Sorted(s) && n <= |s|
    ensures PrefixFree(s[..n]) && Sorted(s[..n]) && PrefixFree(s[n..]) && Sorted(s[n..])
  {
    if n > 0 {
      PartsKeep(s[1..], n - 1);
      assert s[..n][1..] == s[1..][..n - 1] && s[n..] == s[1..][n - 1..];
    }
  }

  lemma {:induction false} ApartAt(s: seq<Branch>, i: nat, j: nat)
    requires PrefixFree(s) && i < j < |s|
    ensures Apart(s[i], s[j])
  {
    if i > 0 { ApartAt(s[1..], i - 1, j - 1); } else { assert s[j] == s[1..][j - 1]; }
  }

  // ---- What the branches hold together ----

  function Pieces(bs: seq<Branch>): set<map<Key, Record>> {
    set b <- bs :: Contents(b.child)
  }

  /** The map is the union of the pieces, which agree. */
  ghost predicate Covers(ms: set<map<Key, Record>>, m: map<Key, Record>) {
    && (forall n, k :: n in ms && k in n ==> k in m && m[k] == n[k])
    && (forall k <- m :: exists n <- ms :: k in n)
  }

  lemma CoversUnique(ms: set<map<Key, Record>>, m: map<Key, Record>, n: map<Key, Record>)
    requires Covers(ms, m) && Covers(ms, n)
    ensures m == n
  {
    assert m.Keys == n.Keys;
    forall k | k in m ensures m[k] == n[k] { var x :| x in ms && k in x; }
  }

  lemma CoversUnion(a: set<map<Key, Record>>, b: set<map<Key, Record>>, m: map<Key, Record>, n: map<Key, Record>)
    requires Covers(a, m) && Covers(b, n) && m.Keys !! n.Keys
    ensures Covers(a + b, m + n)
  {
    forall x, k | x in a + b && k in x ensures k in m + n && (m + n)[k] == x[k] {
      if x in a { assert k in m && k !in n; } else { assert k in n; }
    }
    forall k | k in m + n ensures exists x <- a + b :: k in x {
      if k in n { InOneOf(b, a + b, n, k); } else { InOneOf(a, a + b, m, k); }
    }
  }

  lemma InOneOf(a: set<map<Key, Record>>, b: set<map<Key, Record>>, m: map<Key, Record>, k: Key)
    requires Covers(a, m) && a <= b && k in m
    ensures exists x <- b :: k in x
  {
    var x :| x in a && k in x;
    assert x in b;
  }

  lemma PiecesOfBoth(a: seq<Branch>, b: seq<Branch>)
    ensures Pieces(a + b) == Pieces(a) + Pieces(b)
  {}

  // ---- The branches off the way ----

  /** Branches below the place `p` that lie apart and hold the records `m` together. */
  ghost predicate Spread(bs: seq<Branch>, p: seq<bool>, m: map<Key, Record>) {
    && PrefixFree(bs) && Covers(Pieces(bs), m)
    && (forall b <- bs :: p <= b.prefix && b.prefix != [] && WellFormed(b.child, b.prefix, false))
  }

  lemma FullBranchSpread(t: Tree, p: seq<bool>, root: bool, bit: bool)
    requires WellFormed(t, p, root) && t.Node?
    ensures Spread(FullBranch(t.Side(bit), p), p + [bit], BranchContents(t.Side(bit)))
  {
    var side := t.Side(bit);
    if side.Some? {
      var b := Branch(p + side.value.prefix, side.value.child);
      assert FullBranch(side, p) == [b] && Pieces([b]) == {Contents(b.child)};
      assert WellPlaced(side.value, p, bit);
    } else {
      assert Pieces([]) == {};
    }
  }

  lemma DifferApart(p: seq<bool>, a: Branch, b: Branch, bit: bool)
    requires p + [bit] <= a.prefix && p + [!bit] <= b.prefix
    ensures Apart(a, b)
  {
    assert a.prefix[|p|] == (p + [bit])[|p|] && b.prefix[|p|] == (p + [!bit])[|p|];
  }

  lemma SpreadUnion(a: seq<Branch>, b: seq<Branch>, p: seq<bool>, m: map<Key, Record>, n: map<Key, Record>)
    requires Spread(a, p, m) && Spread(b, p, n) && m.Keys !! n.Keys
    requires forall x, y :: x in a && y in b ==> Apart(x, y)
    ensures Spread(a + b, p, m + n)
  {
    PrefixFreeConcat(a, b);
    PiecesOfBoth(a, b);
    CoversUnion(Pieces(a), Pieces(b), m, n);
  }

  lemma SpreadTogether(off: seq<Branch>, on: seq<Branch>, p: seq<bool>, bit: bool, m: map<Key, Record>, n: map<Key, Record>)
    requires Spread(off, p + [!bit], m) && Spread(on, p + [bit], n) && m.Keys !! n.Keys
    ensures Spread(off + on, p, m + n)
  {
    forall x, y | x in off && y in on ensures Apart(x, y) { DifferApart(p, x, y, !bit); }
    SpreadHigher(off, p + [!bit], p, m);
    SpreadHigher(on, p + [bit], p, n);
    SpreadUnion(off, on, p, m, n);
  }

  lemma SidesTogether(t: Tree, p: seq<bool>, root: bool, bit: bool)
    requires WellFormed(t, p, root) && t.Node?
    ensures BranchContents(t.Side(!bit)).Keys !! BranchContents(t.Side(bit)).Keys
    ensures BranchContents(t.Side(!bit)) + BranchContents(t.Side(bit)) == Contents(t)
  {
    forall k | k in BranchContents(t.Side(!bit)) ensures k !in BranchContents(t.Side(bit)) {
      KeysOnSide(t, p, root, !bit, k);
      if k in BranchContents(t.Side(bit)) { KeysOnSide(t, p, root, bit, k); }
    }
  }

  lemma SpreadHigher(bs: seq<Branch>, p: seq<bool>, q: seq<bool>, m: map<Key, Record>)
    requires Spread(bs, p, m) && q <= p
    ensures Spread(bs, q, m)
  {}

  lemma {:induction false} CollectSpread(t: Tree, p: seq<bool>, root: bool, key: Key)
    requires WellFormed(t, p, root) && t.Node? && p <= key && |p| < |key| == NUM_BITS
    ensures Spread(Collect(t, |p|, key), p, Contents(t))
  {
    var bit := key[|p|];
    var on := CollectOn(t, |p|, key);
    assert key[..|p|] == p;
    FullBranchSpread(t, p, root, !bit);
    if GoesOn(t, |p|, key) {
      var b := t.Side(bit).value;
      PrefixFrom(p, b.prefix, key);
      assert WellPlaced(b, p, bit) && p + [bit] <= p + b.prefix;
      CollectSpread(b.child, p + b.prefix, false, key);
      SpreadHigher(on, p + b.prefix, p + [bit], Contents(b.child));
    } else {
      FullBranchSpread(t, p, root, bit);
    }
    SidesTogether(t, p, root, bit);
    SpreadTogether(FullBranch(t.Side(!bit), p), on, p, bit, BranchContents(t.Side(!bit)), BranchContents(t.Side(bit)));
  }

  /** A branch off the way to a record does not lead towards it, except for the record's own leaf. */
  lemma {:induction false} CollectOffTheWay(t: Tree, p: seq<bool>, root: bool, key: Key, b: Branch)
    requires WellFormed(t, p, root) && t.Node? && p <= key && |p| < |key| == NUM_BITS && key in Contents(t)
    requires b in Collect(t, |p|, key) && b.prefix <= key
    ensures b.prefix == key
  {
    var bit := key[|p|];
    assert key[..|p|] == p;
    FullBranchSpread(t, p, root, !bit);
    assert (p + [!bit])[|p|] == !bit && b !in FullBranch(t.Side(!bit), p);
    OnOneSide(t, p, root, key);
    var c := t.Side(bit).value;
    KeysOnSide(t, p, root, bit, key);
    PrefixFrom(p, c.prefix, key);
    assert WellPlaced(c, p, bit);
    if GoesOn(t, |p|, key) {
      CollectOffTheWay(c.child, p + c.prefix, false, key, b);
    } else {
      NotTooDeep(c.child, p + c.prefix);
    }
  }

  // ---- Branches of two trees with separate keys ----

  /** Keys under the same prefix lie next to each other. */
  lemma Between(q: seq<bool>, low: Key, x: Key, high: Key)
    requires q <= low && q <= high && |x| == |low| == |high|
    requires CompareBits(low, x) != Greater && CompareBits(x, high) != Greater
    ensures q <= x
  {
    if !(q <= x) {
      PartBeforeEnd(x, q);
      var n := Shared(x, q);
      assert q[..n] <= x && q[..n] <= low && q[..n] <= high && low[n] == q[n] == high[n] != x[n];
      FirstDifference(q[..n], low, x);
      FirstDifference(q[..n], x, high);
    }
  }

  ghost predicate AllBefore(m: map<Key, Record>, n: map<Key, Record>) {
    forall j, k :: j in m && k in n ==> Before(j, k)
  }

  /** The outermost record on one side of a tree. */
  ghost predicate Extreme(key: Key, m: map<Key, Record>, bit: bool) {
    key in m && forall k <- m :: k == key || Further(bit, key, k)
  }

  /** A branch off the way to the outermost record leads to nothing beyond that record. */
  lemma NotBeyond(t: Tree, key: Key, bit: bool, b: Branch, k: Key, beyond: Key)
    requires WellFormed(t, [], true) && |key| == NUM_BITS && Extreme(key, Contents(t), bit) && b in Collect(t, 0, key)
    requires b.prefix <= k && k in Contents(t) && |k| == |beyond| == NUM_BITS && Further(bit, beyond, key)
    ensures !(b.prefix <= beyond)
  {
    if b.prefix <= beyond {
      BitsOpposite(key, beyond);
      BitsOpposite(key, k);
      BitsOpposite(k, key);
      CompareIsEquality(key, k);
      CompareIsEquality(key, key);
      assert key <= beyond ==> key == beyond;
      if bit { Between(b.prefix, k, key, beyond); } else { Between(b.prefix, beyond, key, k); }
      CollectOffTheWay(t, [], true, key, b);
    }
  }

  lemma SomeKeyOf(t: Tree, key: Key, b: Branch) returns (k: Key)
    requires WellFormed(t, [], true) && |key| == NUM_BITS && b in Collect(t, 0, key)
    ensures b.prefix <= k && k in Contents(t) && |k| == NUM_BITS
  {
    CollectSpread(t, [], true, key);
    k := SomeKey(b.child, b.prefix);
    assert Contents(b.child) in Pieces(Collect(t, 0, key));
    KeysExtend(b.child, b.prefix, false, k);
  }

  lemma ApartAcross(l: Tree, r: Tree, lk: Key, rk: Key, a: Branch, b: Branch)
    requires WellFormed(l, [], true) && WellFormed(r, [], true) && AllBefore(Contents(l), Contents(r))
    requires |lk| == |rk| == NUM_BITS && Extreme(lk, Contents(l), true) && Extreme(rk, Contents(r), false)
    requires a in Collect(l, 0, lk) && b in Collect(r, 0, rk)
    ensures Apart(a, b)
  {
    var j := SomeKeyOf(l, lk, a);
    var k := SomeKeyOf(r, rk, b);
    assert Before(lk, k) && Before(j, rk);
    BitsOpposite(lk, k);
    NotBeyond(l, lk, true, a, j, k);
    NotBeyond(r, rk, false, b, k, j);
  }

  // ---- Putting branches together gives a tree ----

  ghost predicate Ready(bs: seq<Branch>, c: seq<bool>) {
    && bs != [] && PrefixFree(bs) && Sorted(bs)
    && (forall b <- bs :: c <= b.prefix && b.prefix != [] && WellFormed(b.child, b.prefix, false))
  }

  /** The result leads from the first `start` bits to a tree, a root if it lies at the very top, that holds the pieces. */
  ghost predicate Builds(r: Option<Branch>, ms: set<map<Key, Record>>, c: seq<bool>, start: nat, range: OwnedRange)
    requires start <= |c|
  {
    r.Some? && var q := c[..start] + r.value.prefix;
    && c <= q && WellFormed(r.value.child, q, q == []) && (q == [] ==> r.value.child.range == Some(range))
    && Covers(ms, Contents(r.value.child))
  }

  lemma AllLonger(bs: seq<Branch>, c: seq<bool>, b: Branch)
    requires Ready(bs, c) && |bs| > 1 && b in bs
    ensures |c| < |b.prefix|
  {
    var i :| 0 <= i < |bs| && bs[i] == b;
    var j := if i == 0 then 1 else 0;
    assert c <= bs[j].prefix;
    if i < j { ApartAt(bs, i, j); } else { ApartAt(bs, j, i); }
  }

  lemma {:induction false} ZerosThenOnes(bs: seq<Branch>, c: seq<bool>)
    requires Sorted(bs) && forall b <- bs :: c <= b.prefix && |c| < |b.prefix|
    ensures var n := ZerosFirst(bs, |c|);
            (forall b <- bs[..n] :: c + [false] <= b.prefix) && (forall b <- bs[n..] :: c + [true] <= b.prefix)
  {
    if bs != [] {
      var n := ZerosFirst(bs, |c|);
      if bs[0].prefix[|c|] {
        forall b | b in bs ensures b.prefix[|c|] {
          if !b.prefix[|c|] { assert b in bs[1..]; FirstDifference(c, bs[0].prefix, b.prefix); }
        }
        assert bs[n..] == bs;
      } else {
        ZerosThenOnes(bs[1..], c);
        assert bs[..n] == [bs[0]] + bs[1..][..n - 1] && bs[n..] == bs[1..][n - 1..];
      }
    }
  }

  lemma ReadyParts(bs: seq<Branch>, c: seq<bool>)
    requires Ready(bs, c) && forall b <- bs :: |c| < |b.prefix|
    ensures var n := ZerosFirst(bs, |c|);
            && (n > 0 ==> Ready(bs[..n], c + [false])) && (n < |bs| ==> Ready(bs[n..], c + [true]))
  {
    var n := ZerosFirst(bs, |c|);
    ZerosThenOnes(bs, c);
    PartsKeep(bs, n);
  }

  lemma SingleBuilds(b: Branch, c: seq<bool>, start: nat, range: OwnedRange)
    requires Ready([b], c) && start <= |c|
    ensures Builds(Some(Branch(b.prefix[start..], b.child)), Pieces([b]), c, start, range)
  {
    assert b in [b];
    assert c[..start] + b.prefix[start..] == b.prefix;
    assert Pieces([b]) == {Contents(b.child)};
  }

  lemma JoinBuilds(l: Option<Branch>, r: Option<Branch>, a: seq<Branch>, b: seq<Branch>, c: seq<bool>, start: nat, range: OwnedRange)
    requires start <= |c| && Builds(l, Pieces(a), c + [false], |c|, range) && Builds(r, Pieces(b), c + [true], |c|, range)
    ensures Builds(Some(Branch(c[start..], Node(if c == [] then Some(range) else None, l, r))), Pieces(a + b), c, start, range)
  {
    var t := Node(if c == [] then Some(range) else None, l, r);
    assert (c + [false])[..|c|] == c && (c + [true])[..|c|] == c;
    PlacedBelow(c, l.value, false);
    PlacedBelow(c, r.value, true);
    assert c[..start] + c[start..] == c;
    SidesTogether(t, c, c == [], true);
    PiecesOfBoth(a, b);
    CoversUnion(Pieces(a), Pieces(b), Contents(l.value.child), Contents(r.value.child));
  }

  lemma PlacedBelow(c: seq<bool>, b: Branch, bit: bool)
    requires c + [bit] <= c + b.prefix && WellFormed(b.child, c + b.prefix, false)
    ensures WellPlaced(b, c, bit)
  {
    assert (c + [bit])[|c|] == (c + b.prefix)[|c|];
  }

  lemma BuildsDeeper(r: Option<Branch>, ms: set<map<Key, Record>>, c: seq<bool>, bit: bool, start: nat, range: OwnedRange)
    requires start <= |c| && Builds(r, ms, c + [bit], start, range)
    ensures Builds(r, ms, c, start, range)
  {
    assert (c + [bit])[..start] == c[..start] && c <= c + [bit];
  }

  lemma ReduceStep(bs: seq<Branch>, start: nat, pos: nat, range: OwnedRange, n: nat)
    requires start <= pos && |bs| > 1 && (forall b <- bs :: pos < |b.prefix|) && n == ZerosFirst(bs, pos) && 0 < n < |bs|
    ensures bs[0] in bs
    ensures var l, r := ReduceToTree(bs[..n], pos, pos + 1, range), ReduceToTree(bs[n..], pos, pos + 1, range);
            l.Some? && r.Some? ==>
              ReduceToTree(bs, start, pos, range)
              == Some(Branch(bs[0].prefix[start..pos], Node(if pos == 0 then Some(range) else None, l, r)))
  {}

  lemma ReduceJoins(bs: seq<Branch>, c: seq<bool>, start: nat, range: OwnedRange, n: nat, l: Option<Branch>, r: Option<Branch>)
    requires bs != [] && start <= |c| && c <= bs[0].prefix && n <= |bs|
    requires Builds(l, Pieces(bs[..n]), c + [false], |c|, range) && Builds(r, Pieces(bs[n..]), c + [true], |c|, range)
    ensures Builds(Some(Branch(bs[0].prefix[start..|c|], Node(if |c| == 0 then Some(range) else None, l, r))), Pieces(bs), c, start, range)
  {
    JoinBuilds(l, r, bs[..n], bs[n..], c, start, range);
    assert bs[..n] + bs[n..] == bs && bs[0].prefix[start..|c|] == c[start..];
  }

  lemma ReduceGroups(bs: seq<Branch>, c: seq<bool>, start: nat, range: OwnedRange, n: nat)
    requires start <= |c| && |bs| > 1 && (forall b <- bs :: c <= b.prefix && |c| < |b.prefix|)
    requires n == ZerosFirst(bs, |c|) && 0 < n < |bs|
    requires Builds(ReduceToTree(bs[..n], |c|, |c| + 1, range), Pieces(bs[..n]), c + [false], |c|, range)
    requires Builds(ReduceToTree(bs[n..], |c|, |c| + 1, range), Pieces(bs[n..]), c + [true], |c|, range)
    ensures Builds(ReduceToTree(bs, start, |c|, range), Pieces(bs), c, start, range)
  {
    ReduceStep(bs, start, |c|, range, n);
    ReduceJoins(bs, c, start, range, n, ReduceToTree(bs[..n], |c|, |c| + 1, range), ReduceToTree(bs[n..], |c|, |c| + 1, range));
  }

  lemma ReduceSame(bs: seq<Branch>, c: seq<bool>, start: nat, range: OwnedRange, bit: bool)
    requires start <= |c| && |bs| > 1 && (forall b <- bs :: |c| < |b.prefix|)
    requires ZerosFirst(bs, |c|) == if bit then 0 else |bs|
    requires Builds(ReduceToTree(bs, start, |c| + 1, range), Pieces(bs), c + [bit], start, range)
    ensures Builds(ReduceToTree(bs, start, |c|, range), Pieces(bs), c, start, range)
  {
    BuildsDeeper(ReduceToTree(bs, start, |c| + 1, range), Pieces(bs), c, bit, start, range);
  }

  lemma {:induction false} ReduceBuilds(bs: seq<Branch>, c: seq<bool>, start: nat, range: OwnedRange)
    requires Ready(bs, c) && start <= |c|
    ensures Builds(ReduceToTree(bs, start, |c|, range), Pieces(bs), c, start, range)
    decreases |bs|, |bs[0].prefix| - |c|, 1
  {
    if |bs| == 1 {
      assert bs == [bs[0]];
      SingleBuilds(bs[0], c, start, range);
    } else {
      forall b | b in bs ensures |c| < |b.prefix| { AllLonger(bs, c, b); }
      ReadyParts(bs, c);
      var n := ZerosFirst(bs, |c|);
      assert bs[0] in bs;
      if n == 0 || n == |bs| {
        assert bs == if n == 0 then bs[n..] else bs[..n];
        ReduceBuilds(bs, c + [n == 0], start, range);
        ReduceSame(bs, c, start, range, n == 0);
      } else {
        GroupsBuild(bs, c, start, range, bs[..n], bs[n..]);
      }
    }
  }

  lemma {:induction false} GroupsBuild(bs: seq<Branch>, c: seq<bool>, start: nat, range: OwnedRange, zeros: seq<Branch>, ones: seq<Branch>)
    requires start <= |c| && (forall b <- bs :: c <= b.prefix && |c| < |b.prefix|)
    requires bs == zeros + ones && |zeros| == ZerosFirst(bs, |c|) && Ready(zeros, c + [false]) && Ready(ones, c + [true])
    ensures Builds(ReduceToTree(bs, start, |c|, range), Pieces(bs), c, start, range)
    decreases |bs|, |bs[0].prefix| - |c|, 0
  {
    ReduceBuilds(zeros, c + [false], |c|, range);
    ReduceBuilds(ones, c + [true], |c|, range);
    assert zeros == bs[..|zeros|] && ones == bs[|zeros|..];
    ReduceGroups(bs, c, start, range, |zeros|);
  }

  lemma ClashInOne(zeros: seq<Branch>, ones: seq<Branch>, c: seq<bool>)
    requires (forall b <- zeros :: c + [false] <= b.prefix) && (forall b <- ones :: c + [true] <= b.prefix)
    ensures PrefixFree(zeros + ones) || !PrefixFree(zeros) || !PrefixFree(ones)
  {
    forall x, y | x in zeros && y in ones ensures Apart(x, y) { DifferApart(c, x, y, false); }
    if PrefixFree(zeros) && PrefixFree(ones) { PrefixFreeConcat(zeros, ones); }
  }

  lemma {:induction false} SortedParts(s: seq<Branch>, n: nat)
    requires Sorted(s) && n <= |s|
    ensures Sorted(s[..n]) && Sorted(s[n..])
  {
    if n > 0 {
      SortedParts(s[1..], n - 1);
      assert s[..n][1..] == s[1..][..n - 1] && s[n..] == s[1..][n - 1..];
    }
  }

  lemma OneGroupFails(bs: seq<Branch>, start: nat, pos: nat, range: OwnedRange, n: nat)
    requires start <= pos && |bs| > 1 && (forall b <- bs :: pos < |b.prefix|) && n == ZerosFirst(bs, pos) && 0 < n < |bs|
    requires ReduceToTree(bs[..n], pos, pos + 1, range).None? || ReduceToTree(bs[n..], pos, pos + 1, range).None?
    ensures ReduceToTree(bs, start, pos, range).None?
  {
    assert bs[0] in bs;
  }

  lemma GoesTogether(bs: seq<Branch>, start: nat, pos: nat, range: OwnedRange)
    requires start <= pos && |bs| > 1 && (forall b <- bs :: pos < |b.prefix|) && (ZerosFirst(bs, pos) == 0 || ZerosFirst(bs, pos) == |bs|)
    ensures ReduceToTree(bs, start, pos, range) == ReduceToTree(bs, start, pos + 1, range)
  {}

  lemma TooShort(bs: seq<Branch>, start: nat, pos: nat, range: OwnedRange)
    requires start <= pos && !PrefixFree(bs) && !forall b <- bs :: pos < |b.prefix|
    ensures ReduceToTree(bs, start, pos, range).None?
  {}

  /** Two branches of which one begins the other stay together until one is too short. */
  lemma {:induction false} ReduceFails(bs: seq<Branch>, c: seq<bool>, start: nat, range: OwnedRange)
    requires Sorted(bs) && start <= |c| && !PrefixFree(bs) && forall b <- bs :: c <= b.prefix
    ensures ReduceToTree(bs, start, |c|, range).None?
    decreases |bs|, |bs[0].prefix| - |c|, 1
  {
    if forall b <- bs :: |c| < |b.prefix| {
      assert bs[0] in bs;
      var n := ZerosFirst(bs, |c|);
      ZerosThenOnes(bs, c);
      if n == 0 || n == |bs| {
        TogetherFail(bs, c, start, range, n == 0);
      } else {
        SortedParts(bs, n);
        assert bs == bs[..n] + bs[n..];
        ClashInOne(bs[..n], bs[n..], c);
        GroupFails(bs, c, range, bs[..n], bs[n..]);
        OneGroupFails(bs, start, |c|, range, n);
      }
    } else {
      TooShort(bs, start, |c|, range);
    }
  }

  lemma {:induction false} TogetherFail(bs: seq<Branch>, c: seq<bool>, start: nat, range: OwnedRange, ones: bool)
    requires Sorted(bs) && start <= |c| && !PrefixFree(bs) && (forall b <- bs :: |c| < |b.prefix|)
    requires ZerosFirst(bs, |c|) == if ones then 0 else |bs|
    requires (forall b <- bs[..ZerosFirst(bs, |c|)] :: c + [false] <= b.prefix) && (forall b <- bs[ZerosFirst(bs, |c|)..] :: c + [true] <= b.prefix)
    ensures ReduceToTree(bs, start, |c|, range).None?
    decreases |bs|, |bs[0].prefix| - |c|, 0
  {
    assert bs == if ones then bs[0..] else bs[..|bs|];
    assert bs[0] in bs;
    ReduceFails(bs, c + [ones], start, range);
    GoesTogether(bs, start, |c|, range);
  }

  lemma {:induction false} GroupFails(bs: seq<Branch>, c: seq<bool>, range: OwnedRange, zeros: seq<Branch>, ones: seq<Branch>)
    requires (forall b <- bs :: |c| < |b.prefix|) && |zeros| < |bs| && |ones| < |bs|
    requires Sorted(zeros) && Sorted(ones) && (forall b <- zeros :: c + [false] <= b.prefix) && (forall b <- ones :: c + [true] <= b.prefix)
    requires !PrefixFree(zeros) || !PrefixFree(ones)
    ensures ReduceToTree(zeros, |c|, |c| + 1, range).None? || ReduceToTree(ones, |c|, |c| + 1, range).None?
    decreases |bs|, 0, 0
  {
    hide ReduceToTree;
    if !PrefixFree(zeros) { ReduceFails(zeros, c + [false], |c|, range); } else { ReduceFails(ones, c + [true], |c|, range); }
  }

  // ---- Merging ----

  lemma BranchesSpread(t: Tree, bit: bool)
    requires WellFormed(t, [], true) && t.Node?
    ensures Spread(Branches(t, bit), [], Contents(t))
    ensures Outermost(t, bit).Some? ==> var key := Outermost(t, bit).value.0;
              |key| == NUM_BITS && Extreme(key, Contents(t), bit) && Branches(t, bit) == Collect(t, 0, key)
    ensures Outermost(t, bit).None? ==> Branches(t, bit) == []
  {
    OutermostIsExtreme(t, [], true, bit);
    if Outermost(t, bit).Some? {
      var key := Outermost(t, bit).value.0;
      KeysExtend(t, [], true, key);
      CollectSpread(t, [], true, key);
    } else {
      assert Pieces([]) == {};
    }
  }

  lemma NoneShared(m: map<Key, Record>, n: map<Key, Record>)
    requires AllBefore(m, n)
    ensures m.Keys !! n.Keys
  {
    forall k | k in m ensures k !in n { CompareIsEquality(k, k); }
  }

  lemma BothSpread(l: Tree, r: Tree)
    requires WellFormed(l, [], true) && WellFormed(r, [], true) && l.Node? && r.Node? && AllBefore(Contents(l), Contents(r))
    ensures Spread(Branches(l, true) + Branches(r, false), [], Contents(l) + Contents(r))
  {
    var a, b := Branches(l, true), Branches(r, false);
    BranchesSpread(l, true);
    BranchesSpread(r, false);
    forall x, y | x in a && y in b ensures Apart(x, y) {
      ApartAcross(l, r, Outermost(l, true).value.0, Outermost(r, false).value.0, x, y);
    }
    NoneShared(Contents(l), Contents(r));
    SpreadUnion(a, b, [], Contents(l), Contents(r));
  }

  /** Branches can be put together exactly if none begins another; then they give the
      well-formed tree for the range with all their records. */
  lemma AssembleExact(bs: seq<Branch>, range: OwnedRange)
    requires forall b <- bs :: b.prefix != [] && WellFormed(b.child, b.prefix, false)
    ensures Assemble(bs, range).Some? <==> PrefixFree(bs)
    ensures PrefixFree(bs) ==> var t := Assemble(bs, range).value;
              t.Node? && t.range == Some(range) && WellFormed(t, [], true) && Covers(Pieces(bs), Contents(t))
  {
    var sorted := SortByPrefix(bs);
    SortKeeps(bs);
    assert Pieces(sorted) == Pieces(bs);
    if sorted == [] {
      assert Contents(EmptyRoot(range)) == map[] && bs == [];
    } else if PrefixFree(bs) {
      ReduceBuilds(sorted, [], 0, range);
      var b := ReduceToTree(sorted, 0, 0, range).value;
      assert [] + b.prefix == b.prefix;
      AsRootHolds(Some(b), range, Contents(b.child));
    } else {
      ReduceFails(sorted, [], 0, range);
    }
  }

  /** Merging two well-formed trees, all keys of the one before all of the other, with proofs that lean
      to each other never panics and gives the well-formed tree for the new range with the records of both. */
  lemma MergeJoins(l: Tree, r: Tree, range: OwnedRange)
    requires WellFormed(l, [], true) && WellFormed(r, [], true) && l.Node? && r.Node? && AllBefore(Contents(l), Contents(r))
    ensures Merge(l, r, range).Some?
    ensures var t := Merge(l, r, range).value;
            t.Node? && t.range == Some(range) && WellFormed(t, [], true) && Contents(t) == Contents(l) + Contents(r)
  {
    var bs := Branches(l, true) + Branches(r, false);
    BothSpread(l, r);
    AssembleExact(bs, range);
    CoversUnique(Pieces(bs), Contents(Merge(l, r, range).value), Contents(l) + Contents(r));
  }

  // ---- Merging along any two ways ----

  /** No branch leads towards a record of the map. */
  ghost predicate Clear(bs: seq<Branch>, m: map<Key, Record>) {
    forall b, k :: b in bs && k in m ==> !(b.prefix <= k)
  }

  ghost predicate AllApart(a: seq<Branch>, b: seq<Branch>) {
    forall x, y :: x in a && y in b ==> Apart(x, y)
  }

  lemma ApartInBoth(a: seq<Branch>, b: seq<Branch>, x: Branch, y: Branch)
    requires PrefixFree(a + b) && x in a && y in b
    ensures Apart(x, y)
  {
    var i :| 0 <= i < |a| && a[i] == x;
    var j :| 0 <= j < |b| && b[j] == y;
    ApartAt(a + b, i, |a| + j);
  }

  lemma BranchTo(t: Tree, key: Key, k: Key) returns (b: Branch)
    requires WellFormed(t, [], true) && t.Node? && |key| == NUM_BITS && k in Contents(t)
    ensures b in Collect(t, 0, key) && b.prefix <= k
  {
    CollectSpread(t, [], true, key);
    var m :| m in Pieces(Collect(t, 0, key)) && k in m;
    b :| b in Collect(t, 0, key) && Contents(b.child) == m;
    KeysExtend(b.child, b.prefix, false, k);
  }

  lemma BothBegin(p: seq<bool>, q: seq<bool>, k: Key)
    requires p <= k && q <= k
    ensures p <= q || q <= p
  {}

  lemma ApartIsClear(a: seq<Branch>, t: Tree, key: Key)
    requires WellFormed(t, [], true) && t.Node? && |key| == NUM_BITS && AllApart(a, Collect(t, 0, key))
    ensures Clear(a, Contents(t))
  {
    forall x, k | x in a && k in Contents(t) ensures !(x.prefix <= k) {
      var y := BranchTo(t, key, k);
      if x.prefix <= k { BothBegin(x.prefix, y.prefix, k); }
    }
  }

  lemma NotUnder(x: Branch, y: Branch, j: Key, k: Key)
    requires x.prefix <= j && y.prefix <= k && !(x.prefix <= k) && !(y.prefix <= j)
    ensures Apart(x, y)
  {}

  lemma ClearAreApart(l: Tree, lkey: Key, r: Tree, rkey: Key)
    requires WellFormed(l, [], true) && WellFormed(r, [], true) && l.Node? && r.Node? && |lkey| == |rkey| == NUM_BITS
    requires Clear(Collect(l, 0, lkey), Contents(r)) && Clear(Collect(r, 0, rkey), Contents(l))
    ensures AllApart(Collect(l, 0, lkey), Collect(r, 0, rkey))
  {
    forall x, y | x in Collect(l, 0, lkey) && y in Collect(r, 0, rkey) ensures Apart(x, y) {
      var j := SomeKeyOf(l, lkey, x);
      var k := SomeKeyOf(r, rkey, y);
      NotUnder(x, y, j, k);
    }
  }

  lemma ClearIsApart(l: Tree, lkey: Key, r: Tree, rkey: Key)
    requires WellFormed(l, [], true) && WellFormed(r, [], true) && l.Node? && r.Node? && |lkey| == |rkey| == NUM_BITS
    ensures PrefixFree(Collect(l, 0, lkey) + Collect(r, 0, rkey)) <==> Clear(Collect(l, 0, lkey), Contents(r)) && Clear(Collect(r, 0, rkey), Contents(l))
  {
    var a, b := Collect(l, 0, lkey), Collect(r, 0, rkey);
    if PrefixFree(a + b) {
      forall x, y | x in a && y in b ensures Apart(x, y) && Apart(y, x) { ApartInBoth(a, b, x, y); }
      ApartIsClear(a, r, rkey);
      ApartIsClear(b, l, lkey);
    } else if Clear(a, Contents(r)) && Clear(b, Contents(l)) {
      CollectSpread(l, [], true, lkey);
      CollectSpread(r, [], true, rkey);
      ClearAreApart(l, lkey, r, rkey);
      PrefixFreeConcat(a, b);
    }
  }

  /** Whichever two ways are given as proofs, merging panics exactly if a branch off one of them leads
      towards a record of the other tree; if it does not, the result is that of proofs that lean. */
  lemma MergeAlongExact(l: Tree, lkey: Key, r: Tree, rkey: Key, range: OwnedRange)
    requires WellFormed(l, [], true) && WellFormed(r, [], true) && l.Node? && r.Node? && AllBefore(Contents(l), Contents(r))
    requires |lkey| == |rkey| == NUM_BITS
    ensures MergeAlong(l, lkey, r, rkey, range).Some? <==> Clear(Collect(l, 0, lkey), Contents(r)) && Clear(Collect(r, 0, rkey), Contents(l))
    ensures MergeAlong(l, lkey, r, rkey, range).Some? ==> MergeAlong(l, lkey, r, rkey, range) == Merge(l, r, range)
  {
    var a, b := Collect(l, 0, lkey), Collect(r, 0, rkey);
    CollectSpread(l, [], true, lkey);
    CollectSpread(r, [], true, rkey);
    AssembleExact(a + b, range);
    ClearIsApart(l, lkey, r, rkey);
    if PrefixFree(a + b) {
      var t := Assemble(a + b, range).value;
      NoneShared(Contents(l), Contents(r));
      PiecesOfBoth(a, b);
      CoversUnion(Pieces(a), Pieces(b), Contents(l), Contents(r));
      CoversUnique(Pieces(a + b), Contents(t), Contents(l) + Contents(r));
      MergeJoins(l, r, range);
      Canonical(t, Merge(l, r, range).value, [], true);
    }
  }

  lemma SplitInOrder(m: map<Key, Record>, key: Key)
    ensures AllBefore(Lower(m, key), Upper(m, key)) && Lower(m, key) + Upper(m, key) == m
  {
    forall j, k | j in Lower(m, key) && k in Upper(m, key) ensures Before(j, k) {
      BitsOpposite(key, k);
      BitsOpposite(k, key);
      if !Before(j, k) {
        BitsOpposite(k, j);
        BitsOpposite(j, k);
        BitsTransitive(key, k, j);
        BitsOpposite(j, key);
      }
    }
  }

  // ---- Trees and their ranges ----

  /** A tree for a range, with records of that range only. */
  ghost predicate Owned(t: Tree) {
    && WellFormed(t, [], true) && t.Node? && t.range.value.Valid()
    && forall k <- Contents(t) :: t.range.value.start <= BitValue(k) <= t.range.value.end
  }

  /** The key becomes the first of the right side. */
  function SplitTree(t: Tree, key: Key, id: RecordId): (Tree, Tree)
    requires t.Node? && t.range.Some? && key != [] && id > 0
  {
    RangeSplit(t, key, OwnedRange(t.range.value.start, id - 1), OwnedRange(id, t.range.value.end))
  }

  datatype Merged = NotAdjacentRanges | Panics | MergedTo(tree: Tree)

  function MergeTrees(mine: Tree, other: Tree): Merged
    requires mine.Node? && mine.range.Some? && mine.range.value.Valid()
    requires other.Node? && other.range.Some? && other.range.value.Valid()
  {
    match mine.range.value.Join(other.range.value)
    case None => NotAdjacentRanges
    case Some(range) =>
      var t := if mine.range.value.start < other.range.value.start then Merge(mine, other, range) else Merge(other, mine, range);
      if t.None? then Panics else MergedTo(t.value)
  }

  lemma BeforeIsLess(j: Key, k: Key)
    requires |j| == |k|
    ensures Before(j, k) <==> BitValue(j) < BitValue(k)
  {
    BitOrderIsNumberOrder(j, k);
  }

  lemma OwnedKey(t: Tree, k: Key)
    requires Owned(t) && k in Contents(t)
    ensures |k| == NUM_BITS && t.range.value.start <= BitValue(k) <= t.range.value.end
  {
    KeysExtend(t, [], true, k);
  }

  lemma SplitTreeDivides(t: Tree, key: Key, id: RecordId)
    requires Owned(t) && |key| == NUM_BITS && BitValue(key) == id && t.range.value.start < id <= t.range.value.end
    ensures var (l, r) := SplitTree(t, key, id);
            && Owned(l) && Contents(l) == Lower(Contents(t), key) && l.range.value == OwnedRange(t.range.value.start, id - 1)
            && Owned(r) && Contents(r) == Upper(Contents(t), key) && r.range.value == OwnedRange(id, t.range.value.end)
  {
    RangeSplitDivides(t, key, OwnedRange(t.range.value.start, id - 1), OwnedRange(id, t.range.value.end));
    forall k | k in Contents(t) ensures (Before(k, key) <==> BitValue(k) < id) && t.range.value.start <= BitValue(k) <= t.range.value.end {
      OwnedKey(t, k);
      BeforeIsLess(k, key);
    }
  }

  lemma RangesInOrder(l: Tree, r: Tree)
    requires Owned(l) && Owned(r) && l.range.value.end < r.range.value.start
    ensures AllBefore(Contents(l), Contents(r))
  {
    forall j, k | j in Contents(l) && k in Contents(r) ensures Before(j, k) {
      OwnedKey(l, j);
      OwnedKey(r, k);
      BeforeIsLess(j, k);
    }
  }

  lemma MergeOwned(l: Tree, r: Tree, range: OwnedRange)
    requires Owned(l) && Owned(r) && l.range.value.end + 1 == r.range.value.start && range == OwnedRange(l.range.value.start, r.range.value.end)
    ensures Merge(l, r, range).Some?
    ensures var t := Merge(l, r, range).value;
            Owned(t) && t.range == Some(range) && Contents(t) == Contents(l) + Contents(r) && Contents(l).Keys !! Contents(r).Keys
  {
    RangesInOrder(l, r);
    NoneShared(Contents(l), Contents(r));
    MergeJoins(l, r, range);
    var t := Merge(l, r, range).value;
    forall k | k in Contents(t) ensures range.start <= BitValue(k) <= range.end {
      if k in Contents(l) { OwnedKey(l, k); } else { OwnedKey(r, k); }
    }
  }

  lemma EitherOrder(m: map<Key, Record>, n: map<Key, Record>)
    requires m.Keys !! n.Keys
    ensures m + n == n + m
  {}

  /** Two trees merge exactly if their ranges are adjacent, in either order; the result
      is a tree for the joined range with the records of both. */
  lemma MergeTreesExact(mine: Tree, other: Tree)
    requires Owned(mine) && Owned(other)
    ensures match mine.range.value.Join(other.range.value) {
              case None => MergeTrees(mine, other) == NotAdjacentRanges
              case Some(range) =>
                MergeTrees(mine, other).MergedTo? && var t := MergeTrees(mine, other).tree;
                && Owned(t) && t.range == Some(range) && Contents(t) == Contents(mine) + Contents(other)
                && Contents(mine).Keys !! Contents(other).Keys
            }
  {
    var a, b := mine.range.value, other.range.value;
    if a.end + 1 == b.start {
      MergeOwned(mine, other, OwnedRange(a.start, b.end));
    } else if b.end + 1 == a.start {
      MergeOwned(other, mine, OwnedRange(b.start, a.end));
      EitherOrder(Contents(mine), Contents(other));
    }
  }

  /** With the ways to any two keys as proofs. */
  function MergeWith(mine: Tree, mkey: Key, other: Tree, okey: Key): Merged
    requires mine.Node? && mine.range.Some? && mine.range.value.Valid() && mkey != []
    requires other.Node? && other.range.Some? && other.range.value.Valid() && okey != []
  {
    match mine.range.value.Join(other.range.value)
    case None => NotAdjacentRanges
    case Some(range) =>
      var t :=
        if mine.range.value.start < other.range.value.start then MergeAlong(mine, mkey, other, okey, range)
        else MergeAlong(other, okey, mine, mkey, range);
      if t.None? then Panics else MergedTo(t.value)
  }

  /** Neither way has a branch off it that leads towards a record of the other tree. */
  ghost predicate ClearWays(a: Tree, akey: Key, b: Tree, bkey: Key)
    requires a.Node? && b.Node? && akey != [] && bkey != []
  {
    Clear(Collect(a, 0, akey), Contents(b)) && Clear(Collect(b, 0, bkey), Contents(a))
  }

  /** Trees with adjacent ranges merge exactly if the ways given as proofs are clear, always into the
      same tree; otherwise merging panics. */
  lemma MergeWithExact(mine: Tree, mkey: Key, other: Tree, okey: Key)
    requires Owned(mine) && Owned(other) && |mkey| == |okey| == NUM_BITS
    ensures MergeWith(mine, mkey, other, okey) ==
            if mine.range.value.Join(other.range.value).None? then NotAdjacentRanges
            else if ClearWays(mine, mkey, other, okey) then MergeTrees(mine, other)
            else Panics
  {
    MergeTreesExact(mine, other);
    var a, b := mine.range.value, other.range.value;
    if a.end + 1 == b.start {
      RangesInOrder(mine, other);
      MergeAlongExact(mine, mkey, other, okey, OwnedRange(a.start, b.end));
    } else if b.end + 1 == a.start {
      RangesInOrder(other, mine);
      MergeAlongExact(other, okey, mine, mkey, OwnedRange(b.start, a.end));
    }
  }

  lemma EmptyHasNoBranches(t: Tree, key: Key)
    requires WellFormed(t, [], true) && t.Node? && |key| == NUM_BITS && Contents(t) == map[]
    ensures Collect(t, 0, key) == []
  {
    if Collect(t, 0, key) != [] { var k := SomeKeyOf(t, key, Collect(t, 0, key)[0]); }
  }

  /** Ways that lean to the other tree, as they are read from the store, are clear. */
  lemma LeaningIsClear(l: Tree, lkey: Key, r: Tree, rkey: Key)
    requires WellFormed(l, [], true) && WellFormed(r, [], true) && l.Node? && r.Node? && AllBefore(Contents(l), Contents(r))
    requires |lkey| == |rkey| == NUM_BITS
    requires Outermost(l, true).Some? ==> Outermost(l, true).value.0 == lkey
    requires Outermost(r, false).Some? ==> Outermost(r, false).value.0 == rkey
    ensures ClearWays(l, lkey, r, rkey)
  {
    var a, b := Collect(l, 0, lkey), Collect(r, 0, rkey);
    OutermostIsExtreme(l, [], true, true);
    OutermostIsExtreme(r, [], true, false);
    if Contents(l) == map[] { EmptyHasNoBranches(l, lkey); }
    if Contents(r) == map[] { EmptyHasNoBranches(r, rkey); }
    forall x, y | x in a && y in b ensures Apart(x, y) && Apart(y, x) { ApartAcross(l, r, lkey, rkey, x, y); }
    ApartIsClear(a, r, rkey);
    ApartIsClear(b, l, lkey);
  }

  /** With proofs that lean to each other, merging never panics. */
  lemma LeaningMerges(mine: Tree, mkey: Key, other: Tree, okey: Key)
    requires Owned(mine) && Owned(other) && |mkey| == |okey| == NUM_BITS
    requires var bit := mine.range.value.start < other.range.value.start;
             && (Outermost(mine, bit).Some? ==> Outermost(mine, bit).value.0 == mkey)
             && (Outermost(other, !bit).Some? ==> Outermost(other, !bit).value.0 == okey)
    ensures MergeWith(mine, mkey, other, okey) == MergeTrees(mine, other) && !MergeWith(mine, mkey, other, okey).Panics?
  {
    MergeTreesExact(mine, other);
    MergeWithExact(mine, mkey, other, okey);
    var a, b := mine.range.value, other.range.value;
    if a.end + 1 == b.start {
      RangesInOrder(mine, other);
      LeaningIsClear(mine, mkey, other, okey);
    } else if b.end + 1 == a.start {
      RangesInOrder(other, mine);
      LeaningIsClear(other, okey, mine, mkey);
    }
  }

  // ---- A way that does not lean ----

  function Zeros(n: nat): (s: seq<bool>)
    ensures |s| == n
  {
    seq(n, _ => false)
  }

  function Padded(p: seq<bool>): (k: Key)
    requires |p| <= NUM_BITS
    ensures |k| == NUM_BITS && p <= k
  {
    p + Zeros(NUM_BITS - |p|)
  }

  function LeafBelow(p: seq<bool>, q: seq<bool>, v: Record): Branch
    requires |p| + |q| <= NUM_BITS
  {
    Branch(q + Zeros(NUM_BITS - |p| - |q|), Leaf(Padded(p + q), v))
  }

  lemma LeafBelowPlaced(p: seq<bool>, q: seq<bool>, v: Record)
    requires |p| + |q| <= NUM_BITS && q != []
    ensures WellPlaced(LeafBelow(p, q, v), p, q[0])
  {
    assert p + LeafBelow(p, q, v).prefix == Padded(p + q);
  }

  /** Records at 000..., 010... and 011..., and nothing from 0111... on. */
  function ThreeRecords(v: Record, range: OwnedRange): Tree {
    var f, t := false, true;
    var pair := Node(None, Some(LeafBelow([f, t], [f], v)), Some(LeafBelow([f, t], [t, f], v)));
    Node(Some(range), Some(Branch([f], Node(None, Some(LeafBelow([f], [f], v)), Some(Branch([t], pair))))), None)
  }

  function OneRecord(v: Record, range: OwnedRange): Tree {
    Node(Some(range), Some(LeafBelow([], [false, true, true, true], v)), None)
  }

  lemma TwoPlaced(p: seq<bool>, a: Branch, b: Branch)
    requires WellPlaced(a, p, false) && WellPlaced(b, p, true)
    ensures WellFormed(Node(None, Some(a), Some(b)), p, false)
  {}

  lemma PlacedAt(p: seq<bool>, q: seq<bool>, t: Tree)
    requires q != [] && WellFormed(t, p + q, false)
    ensures WellPlaced(Branch(q, t), p, q[0])
  {}

  lemma ThreeWellFormed(v: Record, range: OwnedRange)
    ensures WellFormed(ThreeRecords(v, range), [], true)
  {
    var f, t, tree := false, true, ThreeRecords(v, range);
    var inner := tree.left.value.child;
    var pair := inner.right.value.child;
    LeafBelowPlaced([f, t], [f], v);
    LeafBelowPlaced([f, t], [t, f], v);
    TwoPlaced([f, t], pair.left.value, pair.right.value);
    assert [f] + [t] == [f, t];
    PlacedAt([f], [t], pair);
    LeafBelowPlaced([f], [f], v);
    TwoPlaced([f], inner.left.value, inner.right.value);
    assert [] + [f] == [f];
    PlacedAt([], [f], inner);
  }

  lemma InEither(t: Tree, k: Key)
    requires t.Node? && t.left.Some? && k in Contents(t)
    ensures k in Contents(t.left.value.child) || (t.right.Some? && k in Contents(t.right.value.child))
  {}

  lemma ThreeKeys(v: Record, range: OwnedRange, k: Key)
    requires k in Contents(ThreeRecords(v, range))
    ensures |k| == NUM_BITS && ([false, false] <= k || [false, true, false] <= k || [false, true, true, false] <= k)
  {
    var tree := ThreeRecords(v, range);
    var inner := tree.left.value.child;
    var pair := inner.right.value.child;
    assert [false] + [false] == [false, false] && [false, true] + [false] == [false, true, false];
    assert [false, true] + [true, false] == [false, true, true, false];
    InEither(tree, k);
    InEither(inner, k);
    if k in Contents(pair) { InEither(pair, k); }
  }

  lemma OffTheWayToFirst(v: Record, range: OwnedRange)
    ensures exists b :: b in Collect(ThreeRecords(v, range), 0, Padded([false, false])) && b.prefix == [false, true]
  {
    var f, t, tree, key := false, true, ThreeRecords(v, range), Padded([false, false]);
    var inner := tree.left.value.child;
    var b := Branch([f, t], inner.right.value.child);
    assert key[0] == [f, f][0] && key[1] == [f, f][1] && key[..1] == [f] && key[0..] == key;
    assert [f] + [t] == [f, t];
    assert FullBranch(inner.Side(t), [f]) == [b];
    assert b in Collect(inner, 1, key);
    assert GoesOn(tree, 0, key);
    assert Collect(tree, 0, key) == Collect(inner, 1, key);
  }

  lemma IsAnId(k: Key)
    requires |k| == NUM_BITS && !k[0]
    ensures BitValue(k) < MAX_ID
  {
    var bytes: Packed := seq(32, _ => 255);
    var top := BitsOf(bytes, 256);
    assert top[0];
    FirstDifference([], k, top);
    BeforeIsLess(k, top);
    BitsAndBytesAgree(bytes);
    RecordIds.IdsAreNumbers(Numbers(bytes));
  }

  lemma ThreeOwned(v: Record, seven: Key)
    requires seven == Padded([false, true, true, true])
    ensures 0 < BitValue(seven) < MAX_ID && Owned(ThreeRecords(v, OwnedRange(0, BitValue(seven) - 1)))
  {
    var first := Padded([false, false]);
    IsAnId(seven);
    BelowSeven(first, seven);
    var tree := ThreeRecords(v, OwnedRange(0, BitValue(seven) - 1));
    ThreeWellFormed(v, OwnedRange(0, BitValue(seven) - 1));
    forall k | k in Contents(tree) ensures BitValue(k) < BitValue(seven) {
      ThreeKeys(v, OwnedRange(0, BitValue(seven) - 1), k);
      BelowSeven(k, seven);
    }
  }

  lemma BelowSeven(k: Key, seven: Key)
    requires |k| == |seven| == NUM_BITS && [false, true, true, true] <= seven
    requires [false, false] <= k || [false, true, false] <= k || [false, true, true, false] <= k
    ensures BitValue(k) < BitValue(seven)
  {
    var n := if [false, false] <= k then 1 else if [false, true, false] <= k then 2 else 3;
    assert seven[..4] == [false, true, true, true];
    assert seven[n] && !k[n] && k[..n] == seven[..n];
    FirstDifference(k[..n], k, seven);
    BeforeIsLess(k, seven);
  }

  lemma OneOwned(v: Record, seven: Key)
    requires seven == Padded([false, true, true, true]) && BitValue(seven) < MAX_ID
    ensures var r := OneRecord(v, OwnedRange(BitValue(seven), MAX_ID)); Owned(r) && Contents(r) == map[seven := v]
  {
    var q := [false, true, true, true];
    var r := OneRecord(v, OwnedRange(BitValue(seven), MAX_ID));
    LeafBelowPlaced([], q, v);
    assert [] + q == q && WellPlaced(r.left.value, [], false);
    OnlyLeaf(r.range, r.left.value.prefix, seven, v);
  }

  lemma OnlyLeaf(range: Option<OwnedRange>, p: seq<bool>, k: Key, v: Record)
    ensures Contents(Node(range, Some(Branch(p, Leaf(k, v))), None)) == map[k := v]
  {
    var t, m := Node(range, Some(Branch(p, Leaf(k, v))), None), map[k := v];
    assert Contents(t) == BranchContents(t.left) + BranchContents(t.right) && BranchContents(t.left) == Contents(Leaf(k, v)) == m;
    assert m + map[] == m;
  }

  lemma FirstIsThere(v: Record, range: OwnedRange)
    ensures Padded([false, false]) in Contents(ThreeRecords(v, range))
  {
    assert [false] + [false] == [false, false];
    var inner := ThreeRecords(v, range).left.value.child;
    assert Padded([false, false]) in Contents(inner.left.value.child);
    ThreeWellFormed(v, range);
    assert [] + [false] == [false] && WellPlaced(ThreeRecords(v, range).left.value, [], false);
    SidesTogether(inner, [false], false, true);
  }

  /** A way that does not lean can make merging panic. */
  lemma NotLeaningPanics(v: Record)
    ensures exists mine, mkey, other, okey ::
              && Owned(mine) && Owned(other) && mine.range.value.end + 1 == other.range.value.start && |mkey| == |okey| == NUM_BITS
              && mkey in Contents(mine) && okey in Contents(other) && MergeWith(mine, mkey, other, okey) == Panics
  {
    var first, seven := Padded([false, false]), Padded([false, true, true, true]);
    ThreeOwned(v, seven);
    OneOwned(v, seven);
    var l, r := ThreeRecords(v, OwnedRange(0, BitValue(seven) - 1)), OneRecord(v, OwnedRange(BitValue(seven), MAX_ID));
    FirstIsThere(v, OwnedRange(0, BitValue(seven) - 1));
    OffTheWayToFirst(v, OwnedRange(0, BitValue(seven) - 1));
    var b :| b in Collect(l, 0, first) && b.prefix == [false, true];
    assert b.prefix <= seven && !ClearWays(l, first, r, seven);
    MergeWithExact(l, first, r, seven);
  }

  /** Merging undoes splitting, in whichever order the two are given. */
  lemma SplitThenMerge(t: Tree, key: Key, id: RecordId)
    requires Owned(t) && |key| == NUM_BITS && BitValue(key) == id && t.range.value.start < id <= t.range.value.end
    ensures var (l, r) := SplitTree(t, key, id);
            Owned(l) && Owned(r) && MergeTrees(l, r) == MergedTo(t) && MergeTrees(r, l) == MergedTo(t)
  {
    var (l, r) := SplitTree(t, key, id);
    SplitTreeDivides(t, key, id);
    SplitInOrder(Contents(t), key);
    MergeOwned(l, r, t.range.value);
    Canonical(t, Merge(l, r, t.range.value).value, [], true);
  }

  lemma PartsBack(m: map<Key, Record>, n: map<Key, Record>, key: Key)
    requires (forall k <- m :: Before(k, key)) && (forall k <- n :: !Before(k, key))
    ensures Lower(m + n, key) == m && Upper(m + n, key) == n
  {}

  lemma KeptApart(l: Tree, r: Tree, key: Key)
    requires Owned(l) && Owned(r) && l.range.value.end < r.range.value.start
    requires |key| == NUM_BITS && BitValue(key) == r.range.value.start
    ensures Lower(Contents(l) + Contents(r), key) == Contents(l) && Upper(Contents(l) + Contents(r), key) == Contents(r)
  {
    forall k | k in Contents(l) ensures Before(k, key) { OwnedKey(l, k); BeforeIsLess(k, key); }
    forall k | k in Contents(r) ensures !Before(k, key) { OwnedKey(r, k); BeforeIsLess(k, key); }
    PartsBack(Contents(l), Contents(r), key);
  }

  /** Splitting undoes merging. */
  lemma MergeThenSplit(l: Tree, r: Tree, key: Key)
    requires Owned(l) && Owned(r) && l.range.value.end + 1 == r.range.value.start
    requires |key| == NUM_BITS && BitValue(key) == r.range.value.start
    ensures MergeTrees(l, r).MergedTo? && Owned(MergeTrees(l, r).tree)
    ensures SplitTree(MergeTrees(l, r).tree, key, r.range.value.start) == (l, r)
  {
    MergeTreesExact(l, r);
    var t := MergeTrees(l, r).tree;
    SplitTreeDivides(t, key, r.range.value.start);
    KeptApart(l, r, key);
    var (a, b) := SplitTree(t, key, r.range.value.start);
    Canonical(a, l, [], true);
    Canonical(b, r, [], true);
  }
}
