/** The bytes that are hashed for a node of the tree. */
module NodeHashes {
  import opened Wrappers
  import opened RecordIds
  import B = Bits

  /** A branch as it is hashed: the bits of its prefix and the hash of its child. */
  datatype Branch = Branch(prefix: seq<bool>, hash: Bytes)

  datatype Node =
    | Leaf(key: Bytes, value: Bytes)
    | Interior(left: Branch, right: Branch)
    | Root(start: Bytes, end: Bytes, leftMaybe: Option<Branch>, rightMaybe: Option<Branch>)

  // ---- Packing bits ----

  function PackNext(p: seq<bv8>, n: nat, bit: bool): (q: seq<bv8>)
    requires n <= 8 * |p| < n + 8
    ensures n + 1 <= 8 * |q| < n + 9
  {
    if n % 8 == 0 then p + [B.WithBit(0, 0, bit)] else p[n / 8 := B.WithBit(p[n / 8], n % 8, bit)]
  }

  /** The bits in bytes, as pushing them one after the other leaves them. */
  function Pack(bits: seq<bool>): (p: seq<bv8>)
    ensures |bits| <= 8 * |p| < |bits| + 8
  {
    if bits == [] then [] else PackNext(Pack(bits[..|bits| - 1]), |bits| - 1, bits[|bits| - 1])
  }

  lemma BitInNext(p: seq<bv8>, n: nat, bit: bool, i: nat)
    requires i <= n <= 8 * |p| < n + 8
    ensures B.Bit(PackNext(p, n, bit), i) == if i == n then bit else B.Bit(p, i)
  {}

  lemma {:induction false} PackHolds(bits: seq<bool>)
    ensures B.BitsOf(Pack(bits), |bits|) == bits
  {
    if bits != [] {
      var n := |bits| - 1;
      PackHolds(bits[..n]);
      var p, q := Pack(bits[..n]), PackNext(Pack(bits[..n]), n, bits[n]);
      forall i | 0 <= i < |bits| ensures B.BitsOf(q, |bits|)[i] == bits[i] {
        if i < n { assert B.BitsOf(p, n)[i] == bits[..n][i]; }
        BitInNext(p, n, bits[n], i);
      }
    }
  }

  lemma NumbersInjective(a: seq<bv8>, b: seq<bv8>)
    requires B.Numbers(a) == B.Numbers(b)
    ensures a == b
  {
    assert |B.Numbers(a)| == |a| && |B.Numbers(b)| == |b|;
    forall i | 0 <= i < |a| ensures a[i] == b[i] {
      assert B.Numbers(a)[i] == B.Numbers(b)[i];
    }
  }

  // ---- The bytes ----

  function ToBe(n: nat, width: nat): (b: Bytes)
    ensures |b| == width
  {
    if width == 0 then [] else ToBe(n / 256, width - 1) + [n % 256]
  }

  lemma {:induction false} ToBeInjective(m: nat, n: nat, width: nat)
    requires m < Power(width) && n < Power(width) && ToBe(m, width) == ToBe(n, width)
    ensures m == n
  {
    if width > 0 {
      var a, b := ToBe(m / 256, width - 1), ToBe(n / 256, width - 1);
      assert (a + [m % 256])[..width - 1] == a && (b + [n % 256])[..width - 1] == b;
      assert (a + [m % 256])[width - 1] == m % 256 && (b + [n % 256])[width - 1] == n % 256;
      ToBeInjective(m / 256, n / 256, width - 1);
    }
  }

  const LEAF: Bytes := [108, 101, 97, 102]
  const INTERIOR: Bytes := [105, 110, 116, 101, 114, 105, 111, 114]
  const ROOT: Bytes := [114, 111, 111, 116]

  function Zeros(n: nat): (b: Bytes)
    ensures |b| == n && forall i :: 0 <= i < n ==> b[i] == 0
  {
    seq(n, _ => 0)
  }

  function OrZero(b: Option<Branch>, hashLen: nat): Branch {
    if b.Some? then b.value else Branch([], Zeros(hashLen))
  }

  function PrefixBytes(b: Branch): Bytes {
    B.Numbers(Pack(b.prefix))
  }

  /** The length of a branch in the hashed bytes, which must fit a byte. */
  function BranchLen(b: Branch): nat {
    2 + |PrefixBytes(b)| + |b.hash|
  }

  function BranchBytes(b: Branch): (r: Bytes)
    ensures |r| == BranchLen(b)
  {
    ToBe(|b.prefix|, 2) + PrefixBytes(b) + b.hash
  }

  predicate ValidBranch(b: Branch, hashLen: nat) {
    |b.prefix| <= B.MAX_BITS && |b.hash| == hashLen
  }

  predicate ValidNode(n: Node, hashLen: nat) {
    hashLen + 34 < 256
    && match n
       case Leaf(key, value) => |key| == NUM_BYTES && |value| < Power(8)
       case Interior(left, right) => ValidBranch(left, hashLen) && ValidBranch(right, hashLen)
       case Root(start, end, left, right) =>
         && |start| == |end| == NUM_BYTES
         && (left.Some? ==> ValidBranch(left.value, hashLen) && left.value.prefix != [])
         && (right.Some? ==> ValidBranch(right.value, hashLen) && right.value.prefix != [])
  }

  function BothBranches(left: Branch, right: Branch, hashLen: nat): Bytes
    requires ValidBranch(left, hashLen) && ValidBranch(right, hashLen) && hashLen + 34 < 256
  {
    [BranchLen(left), BranchLen(right)] + (BranchBytes(left) + BranchBytes(right))
  }

  function HashInput(n: Node, hashLen: nat): Bytes
    requires ValidNode(n, hashLen)
  {
    match n
    case Leaf(key, value) => LEAF + (key + (ToBe(|value|, 8) + value))
    case Interior(left, right) => INTERIOR + BothBranches(left, right, hashLen)
    case Root(start, end, left, right) => ROOT + (start + (end + BothBranches(OrZero(left, hashLen), OrZero(right, hashLen), hashLen)))
  }

  // ---- Different nodes, different bytes ----

  lemma SplitEqual(a: Bytes, b: Bytes, c: Bytes, d: Bytes)
    requires |a| == |c| && a + b == c + d
    ensures a == c && b == d
  {
    assert (a + b)[..|a|] == a && (c + d)[..|a|] == c;
    assert (a + b)[|a|..] == b && (c + d)[|a|..] == d;
  }

  lemma BranchInjective(a: Branch, b: Branch, hashLen: nat)
    requires ValidBranch(a, hashLen) && ValidBranch(b, hashLen) && BranchBytes(a) == BranchBytes(b)
    ensures a == b
  {
    var x, y := PrefixBytes(a), PrefixBytes(b);
    assert ToBe(|a.prefix|, 2) + (x + a.hash) == BranchBytes(a) && ToBe(|b.prefix|, 2) + (y + b.hash) == BranchBytes(b);
    SplitEqual(ToBe(|a.prefix|, 2), x + a.hash, ToBe(|b.prefix|, 2), y + b.hash);
    assert Power(2) == 65536;
    ToBeInjective(|a.prefix|, |b.prefix|, 2);
    SplitEqual(x, a.hash, y, b.hash);
    NumbersInjective(Pack(a.prefix), Pack(b.prefix));
    PackHolds(a.prefix);
    PackHolds(b.prefix);
  }

  lemma BranchesInjective(a: Branch, b: Branch, c: Branch, d: Branch, hashLen: nat)
    requires ValidBranch(a, hashLen) && ValidBranch(b, hashLen) && ValidBranch(c, hashLen) && ValidBranch(d, hashLen) && hashLen + 34 < 256
    requires BothBranches(a, b, hashLen) == BothBranches(c, d, hashLen)
    ensures a == c && b == d
  {
    SplitEqual([BranchLen(a), BranchLen(b)], BranchBytes(a) + BranchBytes(b), [BranchLen(c), BranchLen(d)], BranchBytes(c) + BranchBytes(d));
    assert [BranchLen(a), BranchLen(b)][0] == [BranchLen(c), BranchLen(d)][0];
    SplitEqual(BranchBytes(a), BranchBytes(b), BranchBytes(c), BranchBytes(d));
    BranchInjective(a, c, hashLen);
    BranchInjective(b, d, hashLen);
  }

  lemma KindsDiffer(m: Node, n: Node, hashLen: nat)
    requires ValidNode(m, hashLen) && ValidNode(n, hashLen) && HashInput(m, hashLen) == HashInput(n, hashLen)
    ensures (m.Leaf? <==> n.Leaf?) && (m.Interior? <==> n.Interior?)
  {
    assert HashInput(m, hashLen)[0] == if m.Leaf? then 108 else if m.Interior? then 105 else 114;
    assert HashInput(n, hashLen)[0] == if n.Leaf? then 108 else if n.Interior? then 105 else 114;
  }

  /** Two nodes are hashed from the same bytes only if they are the same in every part. */
  lemma HashInputInjective(m: Node, n: Node, hashLen: nat)
    requires ValidNode(m, hashLen) && ValidNode(n, hashLen) && HashInput(m, hashLen) == HashInput(n, hashLen)
    ensures m == n
  {
    KindsDiffer(m, n, hashLen);
    match m {
      case Leaf(key, value) => LeavesInjective(key, value, n.key, n.value);
      case Interior(left, right) =>
        SplitEqual(INTERIOR, BothBranches(left, right, hashLen), INTERIOR, BothBranches(n.left, n.right, hashLen));
        BranchesInjective(left, right, n.left, n.right, hashLen);
      case Root(start, end, left, right) => RootsInjective(m, n, hashLen);
    }
  }

  lemma LeavesInjective(key: Bytes, value: Bytes, key': Bytes, value': Bytes)
    requires |key| == |key'|
    requires LEAF + (key + (ToBe(|value|, 8) + value)) == LEAF + (key' + (ToBe(|value'|, 8) + value'))
    ensures key == key' && value == value'
  {
    SplitEqual(LEAF, key + (ToBe(|value|, 8) + value), LEAF, key' + (ToBe(|value'|, 8) + value'));
    SplitEqual(key, ToBe(|value|, 8) + value, key', ToBe(|value'|, 8) + value');
    SplitEqual(ToBe(|value|, 8), value, ToBe(|value'|, 8), value');
  }

  lemma RootsInjective(m: Node, n: Node, hashLen: nat)
    requires ValidNode(m, hashLen) && ValidNode(n, hashLen) && m.Root? && n.Root? && HashInput(m, hashLen) == HashInput(n, hashLen)
    ensures m == n
  {
    var ml, mr, nl, nr := OrZero(m.leftMaybe, hashLen), OrZero(m.rightMaybe, hashLen), OrZero(n.leftMaybe, hashLen), OrZero(n.rightMaybe, hashLen);
    var x, y := BothBranches(ml, mr, hashLen), BothBranches(nl, nr, hashLen);
    SplitEqual(ROOT, m.start + (m.end + x), ROOT, n.start + (n.end + y));
    SplitEqual(m.start, m.end + x, n.start, n.end + y);
    SplitEqual(m.end, x, n.end, y);
    BranchesInjective(ml, mr, nl, nr, hashLen);
  }
}
