/** Sequences of up to 256 bits packed into bytes, most significant bit first. */
module Bits {
  import opened Wrappers
  import RecordIds
  import opened Orderings

  const MAX_BITS: nat := 256

  type Packed = seq<bv8>

  // ---- Bits of bytes ----

  /** `1 << (7 - k)` */
  function Mask(k: nat): bv8
    requires k < 8
  {
    match k
    case 0 => 128 case 1 => 64 case 2 => 32 case 3 => 16
    case 4 => 8 case 5 => 4 case 6 => 2 case 7 => 1
  }

  predicate HasBit(b: bv8, k: nat)
    requires k < 8
  {
    b & Mask(k) != 0
  }

  function WithBit(b: bv8, k: nat, bit: bool): bv8
    requires k < 8
  {
    if bit then b | Mask(k) else b & !Mask(k)
  }

  lemma WithBitSets(b: bv8, k: nat, bit: bool, j: nat)
    requires k < 8 && j < 8
    ensures HasBit(WithBit(b, k, bit), j) == if j == k then bit else HasBit(b, j)
  {}

  lemma SameBits(a: bv8, b: bv8)
    requires forall k :: 0 <= k < 8 ==> HasBit(a, k) == HasBit(b, k)
    ensures a == b
  {
    assert HasBit(a, 0) == HasBit(b, 0) && HasBit(a, 1) == HasBit(b, 1) && HasBit(a, 2) == HasBit(b, 2) && HasBit(a, 3) == HasBit(b, 3);
    assert HasBit(a, 4) == HasBit(b, 4) && HasBit(a, 5) == HasBit(b, 5) && HasBit(a, 6) == HasBit(b, 6) && HasBit(a, 7) == HasBit(b, 7);
  }

  function Weight(bit: bool, v: nat): nat {
    if bit then v else 0
  }

  /** The `i`-th bit of a string of bytes. */
  predicate Bit(bytes: Packed, i: nat)
    requires i < 8 * |bytes|
  {
    HasBit(bytes[i / 8], i % 8)
  }

  /** The first `n` bits. */
  function BitsOf(bytes: Packed, n: nat): (s: seq<bool>)
    requires n <= 8 * |bytes|
    ensures |s| == n && forall i :: 0 <= i < n ==> s[i] == Bit(bytes, i)
  {
    seq(n, i requires 0 <= i < n => Bit(bytes, i))
  }

  // ---- Comparing ----

  /** The order of bit sequences: the first difference decides, and a proper prefix comes first. */
  function CompareBits(a: seq<bool>, b: seq<bool>): Ordering {
    if a == [] && b == [] then Equal
    else if a == [] then Less
    else if b == [] then Greater
    else if a[0] == b[0] then CompareBits(a[1..], b[1..])
    else if b[0] then Less else Greater
  }

  lemma {:induction false} CompareIsEquality(a: seq<bool>, b: seq<bool>)
    ensures CompareBits(a, b) == Equal <==> a == b
  {
    if a != [] && b != [] && a[0] == b[0] {
      CompareIsEquality(a[1..], b[1..]);
      assert a == [a[0]] + a[1..] && b == [b[0]] + b[1..];
    }
  }

  lemma {:induction false} CompareLonger(a: seq<bool>, b: seq<bool>, x: bool, y: bool)
    requires |a| == |b|
    ensures CompareBits(a + [x], b + [y]) == if CompareBits(a, b) != Equal then CompareBits(a, b) else CompareBits([x], [y])
  {
    if a == [] {
      assert a + [x] == [x] && b + [y] == [y];
    } else {
      assert (a + [x])[1..] == a[1..] + [x] && (b + [y])[1..] == b[1..] + [y];
      CompareLonger(a[1..], b[1..], x, y);
    }
  }

  /** The number written in binary. */
  function BitValue(s: seq<bool>): nat {
    if s == [] then 0 else 2 * BitValue(s[..|s| - 1]) + Weight(s[|s| - 1], 1)
  }

  lemma {:induction false} BitOrderIsNumberOrder(a: seq<bool>, b: seq<bool>)
    requires |a| == |b|
    ensures CompareBits(a, b) == CompareNumbers(BitValue(a), BitValue(b))
  {
    if a != [] {
      var n := |a| - 1;
      BitOrderIsNumberOrder(a[..n], b[..n]);
      CompareLonger(a[..n], b[..n], a[n], b[n]);
      assert a == a[..n] + [a[n]] && b == b[..n] + [b[n]];
    }
  }

  function Numbers(bytes: Packed): RecordIds.Bytes {
    seq(|bytes|, i requires 0 <= i < |bytes| => bytes[i] as nat)
  }

  function FourBits(b0: bool, b1: bool, b2: bool, b3: bool): nat {
    Weight(b0, 8) + Weight(b1, 4) + Weight(b2, 2) + Weight(b3, 1)
  }

  lemma BitValueOfFour(t: seq<bool>, n: nat)
    requires n + 4 <= |t|
    ensures BitValue(t[..n + 4]) == 16 * BitValue(t[..n]) + FourBits(t[n], t[n + 1], t[n + 2], t[n + 3])
  {
    BitValueStep(t, n);
    BitValueStep(t, n + 1);
    BitValueStep(t, n + 2);
    BitValueStep(t, n + 3);
  }

  lemma BitValueOfEight(s: seq<bool>, e: seq<bool>)
    requires |e| == 8
    ensures BitValue(s + e) == 256 * BitValue(s) + 16 * FourBits(e[0], e[1], e[2], e[3]) + FourBits(e[4], e[5], e[6], e[7])
  {
    var t, n := s + e, |s|;
    BitValueOfFour(t, n);
    BitValueOfFour(t, n + 4);
    assert t[..n] == s && t[..n + 8] == t;
  }

  lemma BitValueOfByte(s: seq<bool>, b: bv8)
    ensures BitValue(s + BitsOf([b], 8)) == 256 * BitValue(s) + b as nat
  {
    BitValueOfEight(s, BitsOf([b], 8));
  }

  lemma BitValueStep(t: seq<bool>, i: nat)
    requires i < |t|
    ensures BitValue(t[..i + 1]) == 2 * BitValue(t[..i]) + Weight(t[i], 1)
  {
    assert t[..i + 1][..i] == t[..i];
  }

  lemma BitsOfLonger(front: Packed, last: bv8)
    ensures BitsOf(front + [last], 8 * |front| + 8) == BitsOf(front, 8 * |front|) + BitsOf([last], 8)
  {}

  /** Reading the bits as a binary number gives the number the bytes stand for. */
  lemma {:induction false} BitsAndBytesAgree(bytes: Packed)
    ensures BitValue(BitsOf(bytes, 8 * |bytes|)) == RecordIds.Value(Numbers(bytes))
  {
    if bytes != [] {
      var n := |bytes| - 1;
      var front, last := bytes[..n], bytes[n];
      BitsAndBytesAgree(front);
      BitValueOfByte(BitsOf(front, 8 * n), last);
      BitsOfLonger(front, last);
      assert bytes == front + [last];
      assert Numbers(bytes)[..n] == Numbers(front);
    }
  }

  /** For ids of one length, the order of their bits, the order of their bytes
      and the order of the numbers they stand for are the same. */
  lemma OrdersCoincide(a: Packed, b: Packed)
    requires |a| == |b|
    ensures CompareBits(BitsOf(a, 8 * |a|), BitsOf(b, 8 * |b|)) == RecordIds.Compare(Numbers(a), Numbers(b))
    ensures RecordIds.Compare(Numbers(a), Numbers(b)) == CompareNumbers(RecordIds.Value(Numbers(a)), RecordIds.Value(Numbers(b)))
  {
    BitsAndBytesAgree(a);
    BitsAndBytesAgree(b);
    BitOrderIsNumberOrder(BitsOf(a, 8 * |a|), BitsOf(b, 8 * |b|));
    RecordIds.ByteOrderIsNumberOrder(Numbers(a), Numbers(b));
  }

  /** Comparing two iterators in step. */
  method CmpImpl(a: seq<bool>, b: seq<bool>) returns (r: Ordering)
    ensures r == CompareBits(a, b)
  {
    var i := 0;
    while true
      invariant i <= |a| && i <= |b|
      invariant CompareBits(a[i..], b[i..]) == CompareBits(a, b)
      decreases |a| - i
    {
      if i == |a| && i == |b| { return Equal; }
      if i == |a| { return Less; }
      if i == |b| { return Greater; }
      if !a[i] && b[i] { return Less; }
      if a[i] && !b[i] { return Greater; }
      assert a[i..][1..] == a[i + 1..] && b[i..][1..] == b[i + 1..];
      i := i + 1;
    }
  }

  /** Whether `a` starts with all of `b`. */
  method StartsWith(a: seq<bool>, b: seq<bool>) returns (r: bool)
    ensures r <==> b <= a
  {
    if |b| > |a| { return false; }
    for i := 0 to |b|
      invariant a[..i] == b[..i]
    {
      if a[i] != b[i] { return false; }
    }
    return true;
  }

  /** The length of the longest common prefix. */
  method CommonPrefix(a: seq<bool>, b: seq<bool>) returns (n: nat)
    ensures n <= |a| && n <= |b| && a[..n] == b[..n]
    ensures forall m :: n < m <= |a| && m <= |b| ==> a[..m] != b[..m]
  {
    n := 0;
    while n < |a| && n < |b|
      invariant n <= |a| && n <= |b| && a[..n] == b[..n]
    {
      if a[n] != b[n] {
        forall m | n < m <= |a| && m <= |b| ensures a[..m] != b[..m] { assert a[..m][n] != b[..m][n]; }
        return;
      }
      n := n + 1;
    }
  }

  // ---- Bounds ----

  datatype Bound = Unbounded | Included(at: nat) | Excluded(at: nat)

  /** The start and the length that two bounds select out of `len` positions; none where the source asserts. */
  function BoundsToStartLen(lower: Bound, upper: Bound, len: nat): (r: Option<(nat, nat)>)
    ensures r.Some? ==> r.value.0 + r.value.1 <= len
    ensures r.Some? ==> forall i: nat :: InBounds(lower, upper, len, i) <==> r.value.0 <= i < r.value.0 + r.value.1
    ensures r.None? ==> (forall i: nat :: !InBounds(lower, upper, len, i)) || exists i: nat :: InBounds(lower, upper, len, i) && i >= len
  {
    var start := match lower case Unbounded => 0 case Included(p) => p case Excluded(p) => p + 1;
    assert upper.Included? ==> upper.at < start || InBounds(lower, upper, len, upper.at);
    assert upper.Excluded? ==> upper.at <= start || InBounds(lower, upper, len, upper.at - 1);
    if start > len then None
    else match upper
      case Unbounded => Some((start, len - start))
      case Included(p) => if p < start || p >= len then None else Some((start, p - start + 1))
      case Excluded(p) => if p < start || p > len then None else Some((start, p - start))
  }

  predicate InBounds(lower: Bound, upper: Bound, len: nat, i: nat) {
    && (match lower case Unbounded => true case Included(p) => p <= i case Excluded(p) => p < i)
    && (match upper case Unbounded => i < len case Included(p) => i <= p case Excluded(p) => i < p)
  }

  // ---- The packed vector ----

  /** What is kept about the bytes: bits from `len` on are zero. */
  ghost predicate Clean(bytes: Packed, len: nat) {
    && |bytes| == MAX_BITS / 8 && len <= MAX_BITS
    && forall i :: len <= i < MAX_BITS ==> !Bit(bytes, i)
  }

  /** Because unused bits are zero, the stored form is determined by the bits. */
  lemma StoredFormIsUnique(a: Packed, b: Packed, len: nat)
    requires Clean(a, len) && Clean(b, len) && BitsOf(a, len) == BitsOf(b, len)
    ensures a == b
  {
    forall n | 0 <= n < MAX_BITS / 8 ensures a[n] == b[n] {
      forall k | 0 <= k < 8 ensures HasBit(a[n], k) == HasBit(b[n], k) {
        var i := 8 * n + k;
        assert Bit(a, i) == HasBit(a[n], k) && Bit(b, i) == HasBit(b[n], k);
        assert i < len ==> BitsOf(a, len)[i] == BitsOf(b, len)[i];
      }
      SameBits(a[n], b[n]);
    }
  }

  lemma PushKeeps(a: Packed, len: nat, bit: bool)
    requires Clean(a, len) && len < MAX_BITS
    ensures var b := a[len / 8 := WithBit(a[len / 8], len % 8, bit)];
            Clean(b, len + 1) && BitsOf(b, len + 1) == BitsOf(a, len) + [bit]
  {
    var b := a[len / 8 := WithBit(a[len / 8], len % 8, bit)];
    forall i | 0 <= i < MAX_BITS ensures Bit(b, i) == if i == len then bit else Bit(a, i) {
      if i / 8 == len / 8 { WithBitSets(a[len / 8], len % 8, bit, i % 8); }
    }
  }

  class BitVec {
    var len: nat
    const bits: array<bv8>

    ghost predicate Valid()
      reads this, bits
    {
      Clean(bits[..], len)
    }

    ghost function Contents(): seq<bool>
      reads this, bits
      requires Valid()
    {
      BitsOf(bits[..], len)
    }

    constructor ()
      ensures Valid() && fresh(bits) && Contents() == []
    {
      len := 0;
      bits := new bv8[MAX_BITS / 8](_ => 0);
    }

    /** A copy of the bytes, all of whose bits are used. */
    constructor FromBytes(bytes: Packed)
      requires |bytes| <= MAX_BITS / 8
      ensures Valid() && fresh(bits) && Contents() == BitsOf(bytes, 8 * |bytes|)
    {
      len := 8 * |bytes|;
      bits := new bv8[MAX_BITS / 8](i => if 0 <= i < |bytes| then bytes[i] else 0);
      new;
      assert forall i :: 0 <= i < |bytes| ==> bits[..][i] == bytes[i];
    }

    /** The bytes that hold used bits. */
    method AsBytes() returns (r: Packed)
      requires Valid()
      ensures len <= 8 * |r| < len + 8 && BitsOf(r, len) == Contents()
      ensures forall i :: len <= i < 8 * |r| ==> !Bit(r, i)
    {
      var last := if len % 8 == 0 then len / 8 else len / 8 + 1;
      r := bits[..last];
      assert forall i :: 0 <= i < 8 * |r| ==> Bit(r, i) == Bit(bits[..], i);
    }

    method Push(bit: bool)
      requires Valid() && len < MAX_BITS
      modifies `len, bits
      ensures Valid() && Contents() == old(Contents()) + [bit]
    {
      PushKeeps(bits[..], len, bit);
      ghost var before := bits[..];
      bits[len / 8] := WithBit(bits[len / 8], len % 8, bit);
      assert bits[..] == before[len / 8 := WithBit(before[len / 8], len % 8, bit)];
      len := len + 1;
    }

    method Extend(other: seq<bool>)
      requires Valid() && len + |other| <= MAX_BITS
      modifies `len, bits
      ensures Valid() && Contents() == old(Contents()) + other
    {
      for i := 0 to |other|
        invariant Valid() && len == old(len) + i && Contents() == old(Contents()) + other[..i]
      {
        Push(other[i]);
      }
    }

    method At(i: nat) returns (bit: bool)
      requires Valid() && i < len
      ensures bit == Contents()[i]
    {
      bit := HasBit(bits[i / 8], i % 8);
    }

    /** Equality as derived: the same length and the same bytes. */
    method Equals(other: BitVec) returns (same: bool)
      requires Valid() && other.Valid()
      ensures same <==> Contents() == other.Contents()
    {
      same := len == other.len && bits[..] == other.bits[..];
      if len == other.len && Contents() == other.Contents() { StoredFormIsUnique(bits[..], other.bits[..], len); }
    }
  }

  /** A record id turned into bits and back. */
  method IdRoundTrip(id: Packed) returns (r: Packed)
    requires |id| == MAX_BITS / 8
    ensures r == id
  {
    var v := new BitVec.FromBytes(id);
    r := v.AsBytes();
    StoredFormIsUnique(r, id, MAX_BITS);
  }

  /** A part of a vector, which must not change while it is in use. */
  lemma SlicedTwice(s: seq<bool>, offset: nat, len: nat, start: nat, n: nat)
    requires offset + len <= |s| && start + n <= len
    ensures s[start + offset..start + offset + n] == s[offset..offset + len][start..start + n]
  {
    var a, b := s[start + offset..start + offset + n], s[offset..offset + len];
    forall i | 0 <= i < n ensures a[i] == b[start..start + n][i] { assert b[start + i] == s[offset + start + i]; }
  }

  datatype BitSlice = BitSlice(vec: BitVec, offset: nat, len: nat) {
    ghost predicate Valid()
      reads vec, vec.bits
    {
      vec.Valid() && offset + len <= vec.len
    }

    ghost function Contents(): seq<bool>
      reads vec, vec.bits
      requires Valid()
    {
      vec.Contents()[offset..offset + len]
    }

    method At(i: nat) returns (bit: bool)
      requires Valid() && i < len
      ensures bit == Contents()[i]
    {
      bit := vec.At(i + offset);
    }

    /** The bits that iterating yields, one position after the other. */
    method Iter() returns (s: seq<bool>)
      requires Valid()
      ensures s == Contents()
    {
      s := [];
      for i := 0 to len
        invariant s == Contents()[..i]
      {
        var bit := At(i);
        s := s + [bit];
      }
    }

    /** A slice of a slice is the slice of the bits; none where the bounds are refused. */
    method Slice(lower: Bound, upper: Bound) returns (r: Option<BitSlice>)
      requires Valid()
      ensures r.Some? <==> BoundsToStartLen(lower, upper, len).Some?
      ensures r.Some? ==> var (start, n) := BoundsToStartLen(lower, upper, len).value;
                          r.value.vec == vec && r.value.Valid() && r.value.Contents() == Contents()[start..start + n]
    {
      var b := BoundsToStartLen(lower, upper, len);
      if b.None? { return None; }
      var (start, n) := b.value;
      var part := BitSlice(vec, start + offset, n);
      SlicedTwice(vec.Contents(), offset, len, start, n);
      return Some(part);
    }

    /** The longest prefix shared with some other bits. */
    method SharedPrefix(other: seq<bool>) returns (r: BitSlice)
      requires Valid()
      ensures r.vec == vec && r.Valid() && r.Contents() <= Contents() && r.Contents() <= other
      ensures forall m :: r.len < m <= len && m <= |other| ==> Contents()[..m] != other[..m]
    {
      var s := Iter();
      var n := CommonPrefix(s, other);
      r := BitSlice(vec, offset, n);
      assert r.Contents() == Contents()[..n] == other[..n];
    }
  }
}
