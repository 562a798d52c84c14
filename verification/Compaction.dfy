/**
 The leader agent's log compaction: rows whose entries nobody needs are
 replaced with tombstones, oldest first.

 A row holds several entries, but only where it starts is remembered.
 */
module Compaction {
  import opened Wrappers

  type Index = nat

  /** The agent knows `start`; how many entries the row holds is for the specification. */
  datatype Row = Row(start: Index, count: nat) {
    function Last(): int {
      start + count - 1
    }
  }

  /** Rows that hold one entry after the other, without gaps. */
  ghost predicate Contiguous(rows: seq<Row>) {
    && (forall i :: 0 <= i < |rows| ==> rows[i].count >= 1)
    && (forall i, j :: 0 <= i < |rows| && 0 <= j < |rows| && j == i + 1 ==> rows[i].start + rows[i].count == rows[j].start)
  }

  lemma {:induction false} StartsInOrder(rows: seq<Row>, i: nat, j: nat)
    requires Contiguous(rows) && i < j < |rows|
    ensures rows[i].Last() < rows[j].start
  {
    if i + 1 < j { StartsInOrder(rows, i, j - 1); }
  }

  predicate Continues(rows: seq<Row>, row: Row) {
    row.count >= 1 && (rows != [] ==> rows[|rows| - 1].Last() + 1 == row.start)
  }

  // ---- One compaction ----

  /** How many rows start at or before the index. */
  function Past(rows: seq<Row>, index: Index): (n: nat)
    ensures n <= |rows|
  {
    if rows == [] || rows[0].start > index then 0 else 1 + Past(rows[1..], index)
  }

  /** How many rows go; the entries of the last of them must end at or before the index. */
  function Compactible(rows: seq<Row>, index: Index): (n: nat)
    ensures n <= |rows|
  {
    var past := Past(rows, index);
    if past == 0 then 0
    else if past < |rows| && rows[past].start == index + 1 then past
    else past - 1
  }

  lemma {:induction false} PastIsExact(rows: seq<Row>, index: Index, i: nat)
    requires Contiguous(rows) && i < |rows|
    ensures i < Past(rows, index) <==> rows[i].start <= index
  {
    if i == 0 {
    } else if rows[0].start > index {
      StartsInOrder(rows, 0, i);
    } else {
      PastIsExact(rows[1..], index, i - 1);
    }
  }

  /** Exactly the rows whose entries all are at or before the index go, but never
      the last row, whose end is not known. */
  lemma CompactibleIsExact(rows: seq<Row>, index: Index, i: nat)
    requires Contiguous(rows) && i < |rows|
    ensures i < Compactible(rows, index) <==> rows[i].Last() <= index && i < |rows| - 1
  {
    var past := Past(rows, index);
    PastIsExact(rows, index, i);
    if i + 1 < |rows| { PastIsExact(rows, index, i + 1); }
    if past < |rows| {
      PastIsExact(rows, index, past);
      if past > i + 1 { StartsInOrder(rows, i + 1, past); }
      if i > past { StartsInOrder(rows, past, i); }
    }
    if past > i + 1 { StartsInOrder(rows, i, past - 1); }
  }

  // ---- The leader's rows ----

  datatype Leader = Leader(uncompacted: seq<Row>, committed: Option<Index>, captured: Option<Index>)

  /** May compact below the commit index, and up to what the leader's HSM has captured. */
  function CompactIndex(l: Leader): Option<Index> {
    if l.committed.None? || l.captured.None? || l.committed.value <= 1 then None
    else Some(if l.committed.value - 1 <= l.captured.value then l.committed.value - 1 else l.captured.value)
  }

  class LeaderRows {
    var uncompacted: seq<Row>
    var committed: Option<Index>
    var captured: Option<Index>

    ghost function State(): Leader
      reads this
    {
      Leader(uncompacted, committed, captured)
    }

    ghost predicate Valid()
      reads this
    {
      Contiguous(uncompacted)
    }

    constructor ()
      ensures Valid() && State() == Leader([], None, None)
    {
      uncompacted, committed, captured := [], None, None;
    }

    method Appended(row: Row)
      modifies this
      ensures State() == old(State()).(uncompacted := old(uncompacted) + [row])
      ensures old(Valid()) && Continues(old(uncompacted), row) ==> Valid()
    {
      uncompacted := uncompacted + [row];
    }

    /** The commit index never goes back, so what could be compacted still can. */
    method Committed(index: Index)
      modifies this`committed
      ensures forall i :: Compacted(old(State()), i) ==> Compacted(State(), i)
      ensures State() == old(State()).(committed := Later(old(committed), index))
    {
      if committed.None? || committed.value < index { committed := Some(index); }
    }

    method Captured(index: Index)
      modifies this`captured
      ensures (old(captured).Some? ==> old(captured).value <= index) ==> forall i :: Compacted(old(State()), i) ==> Compacted(State(), i)
      ensures State() == old(State()).(captured := Some(index))
    {
      captured := Some(index);
    }

    /** Puts the rows of earlier leaders in front; refuses lists that do not fit together. */
    method Init(read: seq<Row>, leaderStart: Index) returns (ok: bool)
      modifies this
      ensures ok == Fits(read, old(uncompacted), leaderStart)
      ensures State() == if ok then old(State()).(uncompacted := read + old(uncompacted)) else old(State())
    {
      ok := (read == [] || read[|read| - 1].start < leaderStart) && (uncompacted == [] || uncompacted[0].start == leaderStart);
      if ok { uncompacted := read + uncompacted; }
    }

    /** Finds how many rows start at or before the index, and splits there or one row before. */
    method SplitOffCompactiblePrefix(index: Index) returns (taken: seq<Row>)
      requires Valid()
      modifies this`uncompacted
      ensures Valid() && taken == old(uncompacted)[..Compactible(old(uncompacted), index)]
      ensures forall i :: 0 <= i < |old(uncompacted)| ==> (i < |taken| <==> old(uncompacted)[i].Last() <= index && i < |old(uncompacted)| - 1)
      ensures State() == old(State()).(uncompacted := old(uncompacted)[Compactible(old(uncompacted), index)..])
    {
      forall i | 0 <= i < |uncompacted|
        ensures i < Compactible(uncompacted, index) <==> uncompacted[i].Last() <= index && i < |uncompacted| - 1
      {
        CompactibleIsExact(uncompacted, index, i);
      }
      var past := Past(uncompacted, index);
      if past == 0 { return []; }
      var at := if past < |uncompacted| && uncompacted[past].start == index + 1 then past else past - 1;
      taken := uncompacted[..at];
      uncompacted := uncompacted[at..];
    }
  }

  function Later(committed: Option<Index>, index: Index): Option<Index> {
    if committed.None? || committed.value < index then Some(index) else committed
  }

  predicate Fits(read: seq<Row>, own: seq<Row>, leaderStart: Index) {
    (read == [] || read[|read| - 1].start < leaderStart) && (own == [] || own[0].start == leaderStart)
  }

  // ---- All runs ----

  /** `older` are the rows of earlier leaders, which end where this leader starts;
      `posted` are the indexes handed to the compactor so far, which may act on any of them later. */
  datatype System = System(older: seq<Row>, own: seq<Row>, leaderStart: Index,
                           leader: Leader, ready: bool, posted: set<Index>, tombstones: seq<Row>)

  datatype Step = DoAppend(count: nat) | DoCommit(index: Index) | DoCapture(index: Index) | DoPost | DoInit | DoCompact(index: Index)

  function New(older: seq<Row>, leaderStart: Index): System {
    System(older, [], leaderStart, Leader([], None, None), false, {}, [])
  }

  function NextStart(s: System): Index {
    if s.own == [] then s.leaderStart else s.own[|s.own| - 1].start + s.own[|s.own| - 1].count
  }

  /** The captured index of an HSM never goes back. */
  predicate Possible(s: System, step: Step) {
    match step
    case DoAppend(count) => count >= 1
    case DoCommit(_) => true
    case DoCapture(index) => s.leader.captured.Some? ==> s.leader.captured.value <= index
    case DoPost => true
    case DoInit => !s.ready
    case DoCompact(index) => s.ready && index in s.posted
  }

  /** Where the assertions on the lists to be joined fail. */
  predicate Panics(s: System, step: Step) {
    step.DoInit? && !Fits(s.older, s.leader.uncompacted, s.leaderStart)
  }

  function Apply(s: System, step: Step): System
    requires Possible(s, step)
  {
    match step
    case DoAppend(count) =>
      var row := Row(NextStart(s), count);
      s.(own := s.own + [row], leader := s.leader.(uncompacted := s.leader.uncompacted + [row]))
    case DoCommit(index) => s.(leader := s.leader.(committed := Later(s.leader.committed, index)))
    case DoCapture(index) => s.(leader := s.leader.(captured := Some(index)))
    case DoPost => if CompactIndex(s.leader).Some? then s.(posted := s.posted + {CompactIndex(s.leader).value}) else s
    case DoInit => s.(ready := true, leader := s.leader.(uncompacted := s.older + s.leader.uncompacted))
    case DoCompact(index) =>
      var n := Compactible(s.leader.uncompacted, index);
      s.(leader := s.leader.(uncompacted := s.leader.uncompacted[n..]), tombstones := s.tombstones + s.leader.uncompacted[..n])
  }

  ghost predicate IsRun(older: seq<Row>, leaderStart: Index, run: seq<System>, steps: seq<Step>) {
    && Contiguous(older) && (older != [] ==> older[|older| - 1].Last() + 1 == leaderStart)
    && |run| == |steps| + 1 && run[0] == New(older, leaderStart)
    && forall i {:trigger steps[i]} :: 0 <= i < |steps| ==> Possible(run[i], steps[i]) && run[i + 1] == Apply(run[i], steps[i])
  }

  /** An index that may be compacted: below the commit index, and captured. */
  predicate Compacted(l: Leader, index: int) {
    && l.committed.Some? && index < l.committed.value
    && l.captured.Some? && index <= l.captured.value
  }

  /** The rows are those of the log, in order, and nothing is lost. */
  ghost predicate Rows(s: System) {
    && Contiguous(s.older + s.own)
    && (s.older != [] ==> s.older[|s.older| - 1].Last() + 1 == s.leaderStart)
    && (s.own != [] ==> s.own[0].start == s.leaderStart)
    && (if s.ready then s.tombstones + s.leader.uncompacted == s.older + s.own
        else s.tombstones == [] && s.leader.uncompacted == s.own)
  }

  predicate Safe(s: System) {
    && (forall index <- s.posted :: Compacted(s.leader, index))
    && (forall r <- s.tombstones :: Compacted(s.leader, r.Last()))
  }

  predicate KeepsLast(s: System) {
    s.ready && s.older + s.own != [] ==> s.leader.uncompacted != []
  }

  ghost predicate Inv(s: System) {
    Rows(s) && Safe(s) && KeepsLast(s)
  }

  lemma ContiguousLonger(rows: seq<Row>, row: Row)
    requires Contiguous(rows) && Continues(rows, row)
    ensures Contiguous(rows + [row])
  {}

  lemma AppendKeeps(s: System, count: nat)
    requires Inv(s) && count >= 1
    ensures Inv(Apply(s, DoAppend(count)))
  {
    var row := Row(NextStart(s), count);
    assert s.older + (s.own + [row]) == (s.older + s.own) + [row];
    ContiguousLonger(s.older + s.own, row);
    assert s.tombstones + (s.leader.uncompacted + [row]) == (s.tombstones + s.leader.uncompacted) + [row];
  }

  lemma UncompactedContiguous(s: System)
    requires Rows(s) && s.ready
    ensures Contiguous(s.leader.uncompacted)
  {
    var all, t := s.older + s.own, |s.tombstones|;
    assert forall i :: 0 <= i < |s.leader.uncompacted| ==> s.leader.uncompacted[i] == all[t + i];
  }

  lemma CompactKeeps(s: System, index: Index)
    requires Inv(s) && Possible(s, DoCompact(index))
    ensures Inv(Apply(s, DoCompact(index)))
  {
    UncompactedContiguous(s);
    var rows, n := s.leader.uncompacted, Compactible(s.leader.uncompacted, index);
    assert s.tombstones + rows[..n] + rows[n..] == s.tombstones + rows;
    forall r | r in rows[..n] ensures Compacted(s.leader, r.Last()) {
      var i :| 0 <= i < n && rows[i] == r;
      CompactibleIsExact(rows, index, i);
    }
    if rows != [] { CompactibleIsExact(rows, index, |rows| - 1); }
  }

  lemma StepKeeps(s: System, step: Step)
    requires Inv(s) && Possible(s, step)
    ensures Inv(Apply(s, step))
  {
    match step
    case DoAppend(count) => AppendKeeps(s, count);
    case DoCompact(index) => CompactKeeps(s, index);
    case DoCommit(_) =>
    case DoCapture(_) =>
    case DoPost =>
    case DoInit =>
  }

  lemma {:induction false} RunKeeps(older: seq<Row>, leaderStart: Index, run: seq<System>, steps: seq<Step>, j: nat)
    requires IsRun(older, leaderStart, run, steps) && j < |run|
    ensures Inv(run[j])
  {
    if j == 0 {
      assert older + [] == older;
    } else {
      RunKeeps(older, leaderStart, run, steps, j - 1);
      StepKeeps(run[j - 1], steps[j - 1]);
    }
  }

  /** In every run: no assertion fails; once the older rows are read, tombstones
      followed by the remaining rows are all rows; no tombstone was a row with an
      entry at or past the commit index, or past what the leader has captured;
      and the last row is kept. */
  lemma CompactionSafe(older: seq<Row>, leaderStart: Index, run: seq<System>, steps: seq<Step>, j: nat, step: Step)
    requires IsRun(older, leaderStart, run, steps) && j < |run|
    ensures Possible(run[j], step) ==> !Panics(run[j], step)
    ensures run[j].ready ==> run[j].tombstones + run[j].leader.uncompacted == run[j].older + run[j].own
    ensures Contiguous(run[j].older + run[j].own)
    ensures forall r <- run[j].tombstones :: Compacted(run[j].leader, r.Last())
    ensures run[j].ready && run[j].older + run[j].own != [] ==> run[j].leader.uncompacted != []
  {
    RunKeeps(older, leaderStart, run, steps, j);
    var s := run[j];
    if s.older != [] { assert (s.older + s.own)[|s.older| - 1] == s.older[|s.older| - 1]; }
  }

  /** A compaction in a run takes every row it may take, and no other. */
  lemma CompactionComplete(older: seq<Row>, leaderStart: Index, run: seq<System>, steps: seq<Step>, j: nat, i: nat)
    requires IsRun(older, leaderStart, run, steps) && j < |steps| && steps[j].DoCompact? && i < |run[j].leader.uncompacted|
    ensures var s := run[j];
            (s.leader.uncompacted[i] in run[j + 1].tombstones) <==>
            s.leader.uncompacted[i].Last() <= steps[j].index && i < |s.leader.uncompacted| - 1
  {
    RunKeeps(older, leaderStart, run, steps, j);
    var s := run[j];
    var rows, n := s.leader.uncompacted, Compactible(s.leader.uncompacted, steps[j].index);
    UncompactedContiguous(s);
    CompactibleIsExact(rows, steps[j].index, i);
    var t := s.tombstones + rows[..n];
    if i < n {
      assert t[|s.tombstones| + i] == rows[i];
    } else if rows[i] in t {
      var k :| 0 <= k < |t| && t[k] == rows[i];
      var all := s.older + s.own;
      assert all[k] == t[k] && all[|s.tombstones| + i] == rows[i];
      StartsInOrder(all, k, |s.tombstones| + i);
    }
  }
}
