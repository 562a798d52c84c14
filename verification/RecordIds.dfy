/** Record ids as the byte strings the system stores, and the numbers they stand for. */
module RecordIds {
  import opened Wrappers
  import opened Orderings
  import R = OwnedRanges
  import RangeOwners

  type Byte = x: nat | x < 256
  type Bytes = seq<Byte>

  const NUM_BYTES: nat := 32

  /** `v` followed by `n` zero bytes. */
  function Shifted(v: nat, n: nat): nat {
    if n == 0 then v else 256 * Shifted(v, n - 1)
  }

  function Power(n: nat): nat {
    Shifted(1, n)
  }

  /** The number written by the bytes, most significant byte first. */
  function Value(b: Bytes): nat {
    if b == [] then 0 else 256 * Value(b[..|b| - 1]) + b[|b| - 1]
  }

  lemma {:induction false} ShiftedTwice(v: nat, m: nat, n: nat)
    ensures Shifted(v, m + n) == Shifted(Shifted(v, m), n)
  {
    if n > 0 { ShiftedTwice(v, m, n - 1); }
  }

  lemma {:induction false} ShiftedUp(v: nat, n: nat)
    ensures Shifted(v + 1, n) == Shifted(v, n) + Power(n)
  {
    if n > 0 { ShiftedUp(v, n - 1); }
  }

  lemma {:induction false} ShiftedGrows(v: nat, w: nat, n: nat)
    requires v <= w
    ensures Shifted(v, n) <= Shifted(w, n)
  {
    if n > 0 { ShiftedGrows(v, w, n - 1); }
  }

  lemma {:induction false} ShiftedIsProduct(v: nat, n: nat)
    ensures Shifted(v, n) == v * Power(n)
  {
    if n > 0 { ShiftedIsProduct(v, n - 1); }
  }

  lemma {:induction false} ValueAppends(a: Bytes, b: Bytes)
    ensures Value(a + b) == Shifted(Value(a), |b|) + Value(b)
    decreases |b|
  {
    if b == [] {
      assert a + b == a;
    } else {
      var front := b[..|b| - 1];
      ValueAppends(a, front);
      assert (a + b)[..|a + b| - 1] == a + front;
    }
  }

  lemma {:induction false} ValueBounded(b: Bytes)
    ensures Value(b) < Power(|b|)
  {
    if b != [] { ValueBounded(b[..|b| - 1]); }
  }

  ghost predicate All(b: Bytes, x: Byte) {
    forall i :: 0 <= i < |b| ==> b[i] == x
  }

  lemma {:induction false} ValueOfZeros(b: Bytes)
    requires All(b, 0)
    ensures Value(b) == 0
  {
    if b != [] { ValueOfZeros(b[..|b| - 1]); }
  }

  lemma {:induction false} ValueOfOnes(b: Bytes)
    requires All(b, 255)
    ensures Value(b) == Power(|b|) - 1
  {
    if b != [] { ValueOfOnes(b[..|b| - 1]); }
  }

  /** The value split after one position. */
  lemma ValueAround(b: Bytes, i: nat)
    requires i < |b|
    ensures Value(b) == Shifted(Value(b[..i + 1]), |b| - i - 1) + Value(b[i + 1..])
    ensures Value(b[..i + 1]) == 256 * Value(b[..i]) + b[i]
  {
    assert b == b[..i + 1] + b[i + 1..];
    ValueAppends(b[..i + 1], b[i + 1..]);
    assert b[..i + 1][..i] == b[..i];
  }

  /** Changing one byte by one while the bytes after it wrap around changes the number by one. */
  lemma CarryAt(low: Bytes, high: Bytes, i: nat)
    requires |low| == |high| && i < |low| && low[..i] == high[..i] && low[i] < 255 && high[i] == low[i] + 1
    requires All(low[i + 1..], 255) && All(high[i + 1..], 0)
    ensures Value(high) == Value(low) + 1
  {
    ValueAround(low, i);
    ValueAround(high, i);
    ValueOfOnes(low[i + 1..]);
    ValueOfZeros(high[i + 1..]);
    ShiftedUp(Value(low[..i + 1]), |low| - i - 1);
  }

  /** The following id, or none after the highest. */
  method Next(id: Bytes) returns (r: Option<Bytes>)
    ensures r.Some? ==> |r.value| == |id| && Value(r.value) == Value(id) + 1
    ensures r.None? <==> Value(id) == Power(|id|) - 1
  {
    var b := id;
    var i := |b|;
    while i > 0
      invariant 0 <= i <= |b| == |id| && b[..i] == id[..i]
      invariant All(id[i..], 255) && All(b[i..], 0)
    {
      i := i - 1;
      if b[i] < 255 {
        b := b[i := b[i] + 1];
        CarryAt(id, b, i);
        ValueBounded(b);
        return Some(b);
      }
      b := b[i := 0];
    }
    assert id[0..] == id;
    ValueOfOnes(id);
    return None;
  }

  /** The preceding id, or none before the lowest. */
  method Prev(id: Bytes) returns (r: Option<Bytes>)
    ensures r.Some? ==> |r.value| == |id| && Value(r.value) == Value(id) - 1
    ensures r.None? <==> Value(id) == 0
  {
    var b := id;
    var i := |b|;
    while i > 0
      invariant 0 <= i <= |b| == |id| && b[..i] == id[..i]
      invariant All(id[i..], 0) && All(b[i..], 255)
    {
      i := i - 1;
      if b[i] > 0 {
        b := b[i := b[i] - 1];
        CarryAt(b, id, i);
        return Some(b);
      }
      b := b[i := 255];
    }
    assert id[0..] == id;
    ValueOfZeros(id);
    return None;
  }

  // ---- Order ----

  /** Comparing byte by byte. */
  function Compare(a: Bytes, b: Bytes): Ordering {
    if a == [] && b == [] then Equal
    else if a == [] then Less
    else if b == [] then Greater
    else if a[0] < b[0] then Less
    else if a[0] > b[0] then Greater
    else Compare(a[1..], b[1..])
  }

  lemma ValueFromFirst(b: Bytes)
    requires b != []
    ensures Value(b) == Shifted(b[0], |b| - 1) + Value(b[1..])
  {
    var first := b[..1];
    assert b == first + b[1..] && first[..0] == [];
    ValueAppends(first, b[1..]);
    assert Value(first) == b[0];
  }

  lemma LeadDecides(x: nat, y: nat, n: nat, v: nat, w: nat)
    requires x < y && v < Power(n)
    ensures Shifted(x, n) + v < Shifted(y, n) + w
  {
    ShiftedGrows(x + 1, y, n);
    ShiftedUp(x, n);
  }

  /** For ids of one length the byte order is the number order. */
  lemma {:induction false} ByteOrderIsNumberOrder(a: Bytes, b: Bytes)
    requires |a| == |b|
    ensures Compare(a, b) == CompareNumbers(Value(a), Value(b))
    ensures Value(a) == Value(b) <==> a == b
  {
    if a != [] {
      var n := |a| - 1;
      ValueFromFirst(a);
      ValueFromFirst(b);
      ValueBounded(a[1..]);
      ValueBounded(b[1..]);
      ByteOrderIsNumberOrder(a[1..], b[1..]);
      if a[0] < b[0] {
        LeadDecides(a[0], b[0], n, Value(a[1..]), Value(b[1..]));
      } else if b[0] < a[0] {
        LeadDecides(b[0], a[0], n, Value(b[1..]), Value(a[1..]));
      } else {
        assert a == [a[0]] + a[1..] && b == [b[0]] + b[1..];
      }
    }
  }

  // ---- Ids with given first bytes ----

  /** The id with its first bytes replaced. */
  function With(id: Bytes, p: Bytes): Bytes
    requires |p| <= |id|
  {
    p + id[|p|..]
  }

  lemma PowersAgree()
    ensures Power(4) == RangeOwners.SPACE && Power(28) == RangeOwners.UNIT && Power(32) == R.MAX_ID + 1
  {
    ShiftedByEight(1);
    ShiftedTwice(1, 8, 8);
    ShiftedByEight(Power(8));
    ShiftedTwice(1, 16, 8);
    ShiftedByEight(Power(16));
    ShiftedTwice(1, 24, 8);
    ShiftedByEight(Power(24));
  }

  lemma ShiftedByEight(v: nat)
    ensures Shifted(v, 8) == 0x1_0000_0000_0000_0000 * v
    ensures Shifted(v, 4) == 0x1_0000_0000 * v
  {
    assert Shifted(v, 1) == 256 * Shifted(v, 0);
    assert Shifted(v, 3) == 256 * Shifted(v, 2);
    assert Shifted(v, 5) == 256 * Shifted(v, 4);
    assert Shifted(v, 7) == 256 * Shifted(v, 6);
  }

  /** The numbers that the even partition of the id space computes with are those
      of the lowest and the highest id with the given first four bytes. */
  lemma PrefixedIds(low: Bytes, high: Bytes, p: Bytes)
    requires |low| == |high| == NUM_BYTES && All(low, 0) && All(high, 255) && |p| == 4
    ensures Value(p) < RangeOwners.SPACE
    ensures Value(With(low, p)) == RangeOwners.LowestWith(Value(p))
    ensures Value(With(high, p)) == RangeOwners.HighestWith(Value(p))
  {
    PowersAgree();
    ValueBounded(p);
    ValueAppends(p, low[4..]);
    ValueAppends(p, high[4..]);
    ShiftedIsProduct(Value(p), 28);
    ValueOfZeros(low[4..]);
    ValueOfOnes(high[4..]);
  }

  /** Stored ids and numbers correspond: every id is a number, `Next` and `Prev`
      of bytes above agree with those of numbers. */
  lemma IdsAreNumbers(id: Bytes)
    requires |id| == NUM_BYTES
    ensures Value(id) <= R.MAX_ID
    ensures R.Next(Value(id)).None? <==> Value(id) == Power(|id|) - 1
    ensures R.Prev(Value(id)).None? <==> Value(id) == 0
  {
    PowersAgree();
    ValueBounded(id);
  }
}
