/** Record ids as numbers, and the inclusive ranges of them that groups own. */
module OwnedRanges {
  import opened Wrappers

  const MAX_ID: nat := 0xFFFF_FFFF_FFFF_FFFF_FFFF_FFFF_FFFF_FFFF_FFFF_FFFF_FFFF_FFFF_FFFF_FFFF_FFFF_FFFF

  type RecordId = x: nat | x <= MAX_ID

  function Next(id: RecordId): Option<RecordId> {
    if id < MAX_ID then Some(id + 1) else None
  }

  function Prev(id: RecordId): Option<RecordId> {
    if id > 0 then Some(id - 1) else None
  }

  datatype OwnedRange = OwnedRange(start: RecordId, end: RecordId) {
    predicate Valid() {
      start <= end
    }

    predicate Contains(id: RecordId)
      requires Valid()
    {
      start <= id <= end
    }

    predicate Overlaps(other: OwnedRange)
      requires Valid() && other.Valid()
    {
      Contains(other.start) || Contains(other.end) || other.Contains(start) || other.Contains(end)
    }

    /** The single range resulting from merging two adjacent ones. */
    function Join(other: OwnedRange): Option<OwnedRange>
      requires Valid() && other.Valid()
    {
      if Next(end) == Some(other.start) then Some(OwnedRange(start, other.end))
      else if Next(other.end) == Some(start) then Some(OwnedRange(other.start, end))
      else None
    }

    /** Where the right side starts when `other` is split out of this range. */
    function SplitAt(other: OwnedRange): Option<RecordId>
      requires Valid() && other.Valid()
    {
      if start == other.start && other.end < end then Next(other.end)
      else if end == other.end && other.start > start then Some(other.start)
      else None
    }

    function Union(other: OwnedRange): OwnedRange {
      OwnedRange(if start <= other.start then start else other.start,
                 if end >= other.end then end else other.end)
    }
  }

  /** Overlapping is having an id in common. */
  lemma OverlapsIsSharing(a: OwnedRange, b: OwnedRange)
    requires a.Valid() && b.Valid()
    ensures a.Overlaps(b) <==> exists id: RecordId :: a.Contains(id) && b.Contains(id)
  {
    if a.Overlaps(b) {
      assert a.Contains(a.start) && a.Contains(a.end) && b.Contains(b.start) && b.Contains(b.end);
    }
  }

  /** Ranges without a common id join exactly when their ids together are a range, which is the result. */
  lemma JoinIsExact(a: OwnedRange, b: OwnedRange)
    requires a.Valid() && b.Valid() && !a.Overlaps(b)
    ensures a.Join(b).Some? ==> a.Join(b).value.Valid() && IsUnion(a.Join(b).value, a, b)
    ensures forall c: OwnedRange | c.Valid() && IsUnion(c, a, b) :: a.Join(b) == Some(c)
  {
    forall c: OwnedRange | c.Valid() && IsUnion(c, a, b) ensures a.Join(b) == Some(c) {
      if a.start <= b.start { JoinsInOrder(a, b, c); } else { JoinsInOrder(b, a, c); }
    }
  }

  ghost predicate IsUnion(c: OwnedRange, a: OwnedRange, b: OwnedRange)
    requires a.Valid() && b.Valid() && c.Valid()
  {
    forall id: RecordId :: c.Contains(id) <==> a.Contains(id) || b.Contains(id)
  }

  lemma JoinsInOrder(a: OwnedRange, b: OwnedRange, c: OwnedRange)
    requires a.Valid() && b.Valid() && c.Valid() && !a.Overlaps(b) && a.start <= b.start && IsUnion(c, a, b)
    ensures a.end + 1 == b.start && c == OwnedRange(a.start, b.end)
  {
    assert c.Contains(a.start) && c.Contains(b.start) && c.Contains(b.end) && c.Contains(a.end);
    assert a.Contains(c.start) || b.Contains(c.start);
    assert a.Contains(c.end) || b.Contains(c.end);
    assert c.Contains(a.end + 1);
  }
}
