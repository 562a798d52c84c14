/** Lists of owners: checking that a reported list covers a range, and
    dividing the whole id space into ranges of about the same size. */
module RangeOwners {
  import opened Wrappers
  import opened OwnedRanges
  import opened Transfers

  predicate Valid(owners: Owners) {
    forall o <- owners :: o.1.Valid()
  }

  // ---- The check ----

  /** The owners that have ids of the range. */
  function Overlapping(owners: Owners, range: OwnedRange): (r: Owners)
    requires Valid(owners) && range.Valid()
    ensures forall o :: o in r <==> o in owners && range.Overlaps(o.1)
  {
    if owners == [] then []
    else (if range.Overlaps(owners[0].1) then [owners[0]] else []) + Overlapping(owners[1..], range)
  }

  function Insert(o: (GroupId, OwnedRange), s: Owners): (r: Owners)
    ensures forall x :: x in r <==> x == o || x in s
    ensures |r| == |s| + 1
  {
    if s == [] || o.1.start <= s[0].1.start then [o] + s else [s[0]] + Insert(o, s[1..])
  }

  /** Stable sorting by the start of the range. */
  function SortByStart(s: Owners): (r: Owners)
    ensures forall x :: x in r <==> x in s
    ensures |r| == |s|
  {
    if s == [] then [] else Insert(s[0], SortByStart(s[1..]))
  }

  predicate Adjacent(s: Owners) {
    forall i, j :: 0 <= i < |s| && 0 <= j < |s| && j == i + 1 ==> Next(s[i].1.end) == Some(s[j].1.start)
  }

  function VerifyRangeOwners(owners: Owners, range: OwnedRange): Option<Owners>
    requires Valid(owners) && range.Valid()
  {
    var s := SortByStart(Overlapping(owners, range));
    if s != [] && s[0].1.start <= range.start && s[|s| - 1].1.end >= range.end && Adjacent(s) then Some(s) else None
  }

  // ---- Counting owners ----

  /** How many of the owners contain the id. */
  function OwnersOf(owners: Owners, id: RecordId): nat
    requires Valid(owners)
  {
    if owners == [] then 0
    else (if owners[0].1.Contains(id) then 1 else 0) + OwnersOf(owners[1..], id)
  }

  lemma {:induction false} InsertCounts(o: (GroupId, OwnedRange), s: Owners, id: RecordId)
    requires Valid(s) && o.1.Valid()
    ensures OwnersOf(Insert(o, s), id) == OwnersOf(s, id) + if o.1.Contains(id) then 1 else 0
  {
    if s == [] || o.1.start <= s[0].1.start {
      assert ([o] + s)[1..] == s;
    } else {
      InsertCounts(o, s[1..], id);
      var t := Insert(o, s[1..]);
      assert ([s[0]] + t)[1..] == t;
    }
  }

  lemma {:induction false} SortCounts(s: Owners, id: RecordId)
    requires Valid(s)
    ensures OwnersOf(SortByStart(s), id) == OwnersOf(s, id)
  {
    if s != [] {
      SortCounts(s[1..], id);
      InsertCounts(s[0], SortByStart(s[1..]), id);
    }
  }

  lemma {:induction false} OverlappingCounts(owners: Owners, range: OwnedRange, id: RecordId)
    requires Valid(owners) && range.Valid() && range.Contains(id)
    ensures OwnersOf(Overlapping(owners, range), id) == OwnersOf(owners, id)
  {
    if owners != [] {
      OverlappingCounts(owners[1..], range, id);
      var rest := Overlapping(owners[1..], range);
      assert ([owners[0]] + rest)[1..] == rest && [] + rest == rest;
    }
  }

  predicate Sorted(s: Owners) {
    forall i, j :: 0 <= i < j < |s| ==> s[i].1.start <= s[j].1.start
  }

  lemma {:induction false} InsertSorts(o: (GroupId, OwnedRange), s: Owners)
    requires Sorted(s)
    ensures Sorted(Insert(o, s))
  {
    if s != [] && o.1.start > s[0].1.start {
      InsertSorts(o, s[1..]);
      var t := Insert(o, s[1..]);
      forall x | x in t ensures s[0].1.start <= x.1.start {
        if x != o { var i :| 0 <= i < |s[1..]| && s[1..][i] == x; }
      }
    }
  }

  lemma {:induction false} SortSorts(s: Owners)
    ensures Sorted(SortByStart(s))
  {
    if s != [] {
      SortSorts(s[1..]);
      InsertSorts(s[0], SortByStart(s[1..]));
    }
  }

  lemma {:induction false} CountsOne(s: Owners, id: RecordId, i: nat)
    requires Valid(s) && i < |s| && s[i].1.Contains(id)
    ensures OwnersOf(s, id) >= 1
  {
    if i > 0 { CountsOne(s[1..], id, i - 1); }
  }

  lemma {:induction false} CountsTwo(s: Owners, id: RecordId, i: nat, j: nat)
    requires Valid(s) && i < j < |s| && s[i].1.Contains(id) && s[j].1.Contains(id)
    ensures OwnersOf(s, id) >= 2
  {
    if i > 0 { CountsTwo(s[1..], id, i - 1, j - 1); } else { CountsOne(s[1..], id, j - 1); }
  }

  lemma {:induction false} SomeOwner(s: Owners, id: RecordId) returns (i: nat)
    requires Valid(s) && OwnersOf(s, id) > 0
    ensures i < |s| && s[i].1.Contains(id)
  {
    if s[0].1.Contains(id) { i := 0; } else { var k := SomeOwner(s[1..], id); i := k + 1; }
  }

  /** A second owner shows in the count. */
  lemma {:induction false} AnotherOwner(s: Owners, id: RecordId, i: nat) returns (j: nat)
    requires Valid(s) && i < |s| && s[i].1.Contains(id) && OwnersOf(s, id) > 1
    ensures j < |s| && j != i && s[j].1.Contains(id)
  {
    if i == 0 {
      var k := SomeOwner(s[1..], id);
      j := k + 1;
    } else if s[0].1.Contains(id) {
      j := 0;
    } else {
      var k := AnotherOwner(s[1..], id, i - 1);
      j := k + 1;
    }
  }

  // ---- The check is exact ----

  ghost predicate OwnedOnce(owners: Owners, range: OwnedRange)
    requires Valid(owners) && range.Valid()
  {
    forall id: RecordId :: range.Contains(id) ==> OwnersOf(owners, id) == 1
  }

  ghost predicate Candidates(s: Owners, range: OwnedRange) {
    && range.Valid() && Valid(s) && Sorted(s)
    && forall i :: 0 <= i < |s| ==> range.Overlaps(s[i].1)
  }

  /** In a list sorted by start whose members all have ids of the range, two
      neighbours that are both needed do not share an id. */
  lemma NoSharing(s: Owners, range: OwnedRange, i: nat, j: nat)
    requires Candidates(s, range) && OwnedOnce(s, range) && i < j < |s|
    ensures s[i].1.end < s[j].1.start
  {
    if s[j].1.start <= s[i].1.end {
      var id := if s[j].1.start >= range.start then s[j].1.start else range.start;
      CountsTwo(s, id, i, j);
      assert range.Contains(id);
    }
  }

  lemma NoGap(s: Owners, range: OwnedRange, i: nat)
    requires Candidates(s, range) && OwnedOnce(s, range) && i + 1 < |s|
    ensures s[i].1.end + 1 == s[i + 1].1.start
  {
    NoSharing(s, range, i, i + 1);
    var id := s[i].1.end + 1;
    if id < s[i + 1].1.start {
      assert range.Contains(id);
      var k := SomeOwner(s, id);
      if k < i { NoSharing(s, range, k, i); }
    }
  }

  lemma OwnedOnceTiles(s: Owners, range: OwnedRange)
    requires Candidates(s, range) && OwnedOnce(s, range)
    ensures Tiles(s, range) && Adjacent(s)
  {
    assert range.Contains(range.start) && range.Contains(range.end);
    var first := SomeOwner(s, range.start);
    var last := SomeOwner(s, range.end);
    if last < |s| - 1 { NoSharing(s, range, last, |s| - 1); }
    forall i, j | 0 <= i < j < |s| && j == i + 1 ensures s[i].1.end + 1 == s[j].1.start { NoGap(s, range, i); }
  }

  lemma TilesOwnOnce(s: Owners, range: OwnedRange)
    requires Valid(s) && range.Valid() && Tiles(s, range)
    ensures OwnedOnce(s, range)
  {
    forall id: RecordId | range.Contains(id) ensures OwnersOf(s, id) == 1 {
      var i := TileOf(s, range, id, |s| - 1);
      CountsOne(s, id, i);
      if OwnersOf(s, id) > 1 {
        var j := AnotherOwner(s, id, i);
        if i < j { TilesInOrder(s, range, i, j); } else { TilesInOrder(s, range, j, i); }
      }
    }
  }

  /** The check accepts exactly the lists in which every id of the range has one
      owner, and returns those owners, in order and without gaps. */
  lemma OwnerCheckExact(owners: Owners, range: OwnedRange)
    requires Valid(owners) && range.Valid()
    ensures VerifyRangeOwners(owners, range).Some? <==> OwnedOnce(owners, range)
    ensures VerifyRangeOwners(owners, range).Some? ==>
              var s := VerifyRangeOwners(owners, range).value;
              Tiles(s, range) && forall o :: o in s <==> o in owners && range.Overlaps(o.1)
  {
    var kept := Overlapping(owners, range);
    var s := SortByStart(kept);
    SortSorts(kept);
    forall id: RecordId | range.Contains(id) ensures OwnersOf(s, id) == OwnersOf(owners, id) {
      SortCounts(kept, id);
      OverlappingCounts(owners, range, id);
    }
    assert Candidates(s, range);
    if OwnedOnce(owners, range) {
      OwnedOnceTiles(s, range);
    }
    if VerifyRangeOwners(owners, range).Some? {
      assert Tiles(s, range);
      TilesOwnOnce(s, range);
    }
  }

  /** Planning from checked reports: if every report is true and the check
      passes on the range the planner asks for, the planner's promises hold. */
  lemma CheckedPlan(w: World, dest: GroupId, reports: Owners, target: OwnedRange)
    requires Consistent(w) && target.Valid() && Shows(reports, w) && Valid(reports)
    requires OwnedBy(w, dest).Some? ==> OwnedBy(w, dest).value.Valid()
    requires VerifyRangeOwners(reports, PlanTransfersRange(OwnedBy(w, dest), target)).Some?
    ensures var owners := VerifyRangeOwners(reports, PlanTransfersRange(OwnedBy(w, dest), target)).value;
            Informed(w, dest, owners, target)
  {
    var range := PlanTransfersRange(OwnedBy(w, dest), target);
    OwnerCheckExact(reports, range);
    var s := VerifyRangeOwners(reports, range).value;
    forall i | 0 <= i < |s| ensures s[i].0 in w && w[s[i].0] == s[i].1 {
      assert s[i] in reports;
    }
  }

  // ---- Dividing the id space ----

  const SPACE: nat := 0x1_0000_0000
  /** How many ids share their first four bytes. */
  const UNIT: nat := 0x1_0000_0000_0000_0000_0000_0000_0000_0000_0000_0000_0000_0000_0000_0000

  /** The lowest id with the given first four bytes. */
  function LowestWith(prefix: nat): RecordId
    requires prefix < SPACE
  {
    prefix * UNIT
  }

  function HighestWith(prefix: nat): RecordId
    requires prefix < SPACE
  {
    prefix * UNIT + (UNIT - 1)
  }

  lemma {:induction false} Shares(s: nat, n: nat, i: nat)
    requires i < n
    ensures s * i <= s * (i + 1) <= s * n
  {
    assert s * (n - i - 1) >= 0;
    assert s * n == s * (i + 1) + s * (n - i - 1);
  }

  lemma PrefixFits(n: nat, i: nat)
    requires 0 < n <= 1_000_000 && i < n
    ensures SPACE / n * i < SPACE && SPACE / n * (i + 1) <= SPACE
  {
    var s := SPACE / n;
    Shares(s, n, i);
    assert s * (i + 1) == s * i + s;
  }

  function PartitionAt(n: nat, i: nat): OwnedRange
    requires 0 < n && i < n <= 1_000_000
  {
    PrefixFits(n, i);
    assert SPACE / n >= 1;
    assert i + 1 < n ==> SPACE / n * (i + 1) >= 1;
    OwnedRange(LowestWith(SPACE / n * i), if i + 1 < n then HighestWith(SPACE / n * (i + 1) - 1) else MAX_ID)
  }

  /** More than a million parts is refused, and no parts divides by zero. */
  function PartitionEvenly(n: nat): (r: seq<OwnedRange>)
    requires 0 < n <= 1_000_000
    ensures |r| == n
  {
    seq(n, i requires 0 <= i < n => PartitionAt(n, i))
  }

  function Size(r: OwnedRange): int {
    r.end - r.start + 1
  }

  /** The parts are a tiling of the whole space, all but the last have the same
      size, and the last has less than `n` units more. */
  lemma PartitionIsEven(n: nat)
    requires 0 < n <= 1_000_000
    ensures var p := PartitionEvenly(n);
            && p[0].start == 0 && p[n - 1].end == MAX_ID
            && (forall i, j :: 0 <= i < j < n && j == i + 1 ==> p[i].end + 1 == p[j].start)
            && (forall i :: 0 <= i < n ==> p[i].Valid())
            && (forall i :: 0 <= i < n - 1 ==> Size(p[i]) == SPACE / n * UNIT)
            && SPACE / n * UNIT <= Size(p[n - 1]) < SPACE / n * UNIT + n * UNIT
  {
    var p := PartitionEvenly(n);
    var s := SPACE / n;
    forall i | 0 <= i < n - 1 ensures p[i].Valid() && Size(p[i]) == s * UNIT && p[i].end + 1 == p[i + 1].start {
    }
    LastPart(n);
  }

  lemma LastPart(n: nat)
    requires 0 < n <= 1_000_000
    ensures PartitionAt(n, n - 1).Valid()
    ensures SPACE / n * UNIT <= Size(PartitionAt(n, n - 1)) < SPACE / n * UNIT + n * UNIT
  {
    var s := SPACE / n;
    assert SPACE == s * n + SPACE % n;
    assert s * n == s * (n - 1) + s;
    assert MAX_ID + 1 == SPACE * UNIT;
    assert Size(PartitionAt(n, n - 1)) == (s + SPACE % n) * UNIT;
  }
}
