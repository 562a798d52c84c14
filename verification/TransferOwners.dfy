/** In orderly runs of the transfer protocol no two groups own an id. */
module TransferOwners {
  import opened Wrappers
  import opened OwnedRanges
  import opened OwnershipTransfer
  import opened TransferRealm

  // ---- No two groups own an id ----

  /** Entries of two groups: what they own is apart; what one gives the other does not own, unless it is the
      receiver; and they give different ids. */
  predicate EntriesOk(a: Entry, m: GroupId, b: Entry) {
    && (a.partition.Some? && b.partition.Some? ==> Apart(a.partition.value.range, b.partition.value.range))
    && (Gives(a) ==> Clear(b, Given(a).range) || GivesTo(a, m))
    && (Gives(a) && Gives(b) ==> Apart(Given(a).range, Given(b).range))
  }

  ghost predicate PairOk(g: Group, m: GroupId, h: Group) {
    forall x: Log, y: Log | IsView(g, x) && IsView(h, y) :: EntriesOk(LastOf(x), m, LastOf(y))
  }

  /** Entry `b` owns all ids of the range that entry `a` owns. */
  predicate Retains(a: Entry, b: Entry, r: OwnedRange) {
    a.partition.Some? && !Apart(a.partition.value.range, r) ==>
      var o := a.partition.value.range;
      Whole(b, OwnedRange(if o.start < r.start then r.start else o.start, if o.end < r.end then o.end else r.end))
  }

  /** While group `g` has not completed a transfer to `m`, what `m` has taken of it stays there. */
  ghost predicate StaysTaken(g: Group, m: GroupId, h: Group) {
    forall x: Log, y: Log, z: Log | IsView(g, x) && GivesTo(LastOf(x), m) && IsView(h, y) && IsView(h, z) && y <= z ::
      Retains(LastOf(y), LastOf(z), Given(LastOf(x)).range)
  }

  ghost predicate Separate(w: World) {
    forall n, m | n in w.groups && m in w.groups && n != m ::
      PairOk(w.groups[n], m, w.groups[m]) && StaysTaken(w.groups[n], m, w.groups[m])
  }

  // ---- The order of steps ----

  function Value(p: Partition, id: RecordId): Option<Record> {
    if id in p.records then Some(p.records[id]) else None
  }

  predicate OwnsAs(e: Entry, id: RecordId, x: Option<Record>) {
    Holds(e, id) && Value(e.partition.value, id) == x
  }

  predicate GivesAs(e: Entry, id: RecordId, x: Option<Record>) {
    Gives(e) && Given(e).range.start <= id <= Given(e).range.end && Value(Given(e), id) == x
  }

  /** No transfer of any id of the range to the group is waiting to be completed. */
  ghost predicate NotReceiving(w: World, n: GroupId, range: OwnedRange) {
    forall m, x: Log | m in w.groups && m != n && IsView(w.groups[m], x) && GivesTo(LastOf(x), n) :: Apart(Given(LastOf(x)).range, range)
  }

  ghost predicate GivesAll(g: Group, d: GroupId, id: RecordId, x: Option<Record>) {
    forall y: Log | IsView(g, y) :: GivesTo(LastOf(y), d) && GivesAs(LastOf(y), id, x)
  }

  ghost predicate ArrivesFrom(w: World, n: GroupId, d: GroupId, id: RecordId, x: Option<Record>) {
    n in w.groups && n != d && GivesAll(w.groups[n], d, id, x)
  }

  ghost predicate Arrives(w: World, d: GroupId, id: RecordId, x: Option<Record>) {
    exists n :: ArrivesFrom(w, n, d, id, x)
  }

  /** Whatever comes to be committed, every id of the partition is being given to group `d`, with its record. */
  ghost predicate Arriving(w: World, d: GroupId, p: Partition) {
    forall id: RecordId | p.range.start <= id <= p.range.end :: Arrives(w, d, id, Value(p, id))
  }

  /** A leader whose log could still be committed adds an entry. */
  predicate Adds(w: World, step: Step)
    requires AllOk(w) && Possible(w, step)
  {
    step.Ask? && step.leader in w.groups[step.group].current && |Answered(w, step).0.log| > |w.groups[step.group].leaders[step.leader].log|
  }

  /** The order in which steps are to be taken: a group gives no id while a transfer of it to the group has not
      been completed at its source; a range is taken while it is being given; and a transfer is completed after
      its range has arrived for good. */
  ghost predicate Orderly(w: World, step: Step)
    requires AllOk(w) && Possible(w, step)
  {
    Adds(w, step) ==>
      match step.request
      case TransferOut(_, range, _, _) => NotReceiving(w, step.group, range)
      case TransferIn(_, p, _, _) => Arriving(w, step.group, p)
      case Complete(d, range) => d in w.groups ==> Whole(LastOf(w.groups[d].log), range)
      case _ => true
  }

  // ---- Adding an entry ----

  /** An entry that can follow log `x` in group `n`, as far as group `m` is concerned. */
  ghost predicate Fits(n: GroupId, x: Log, e: Entry, m: GroupId, h: Group) {
    && (forall y: Log | IsView(h, y) :: EntriesOk(e, m, LastOf(y)) && EntriesOk(LastOf(y), n, e))
    && (GivesTo(e, m) && e.transferring != LastOf(x).transferring ==> forall y: Log | IsView(h, y) :: Clear(LastOf(y), Given(e).range))
    && (forall y: Log | IsView(h, y) && GivesTo(LastOf(y), n) :: Retains(LastOf(x), e, Given(LastOf(y)).range))
  }

  lemma LastOfLonger(x: Log, e: Entry)
    ensures LastOf(x + [e]) == e
  {}

  lemma FitsPair(n: GroupId, g: Group, x: Log, e: Entry, f: Group, m: GroupId, h: Group)
    requires PairOk(g, m, h) && PairOk(h, n, g) && Extended(g, f, x, e) && Fits(n, x, e, m, h)
    ensures PairOk(f, m, h) && PairOk(h, n, f)
  {
    LastOfLonger(x, e);
  }

  lemma RetainsTransitive(a: Entry, b: Entry, c: Entry, r: OwnedRange)
    requires Ranged(a) && r.Valid() && Retains(a, b, r) && Retains(b, c, r)
    ensures Retains(a, c, r)
  {}

  lemma FitsStays(n: GroupId, g: Group, x: Log, e: Entry, f: Group, m: GroupId, h: Group)
    requires StaysTaken(g, m, h) && StaysTaken(h, n, g) && Extended(g, f, x, e) && Fits(n, x, e, m, h)
    requires GroupOk(n, g) && GroupOk(n, f) && GroupOk(m, h)
    ensures StaysTaken(f, m, h) && StaysTaken(h, n, f)
  {
    LastOfLonger(x, e);
    forall u: Log, y: Log, z: Log | IsView(f, u) && GivesTo(LastOf(u), m) && IsView(h, y) && IsView(h, z) && y <= z
      ensures Retains(LastOf(y), LastOf(z), Given(LastOf(u)).range)
    {
      if !IsView(g, u) && e.transferring == LastOf(x).transferring { assert GivesTo(LastOf(x), m); }
    }
    forall u: Log, y: Log, z: Log | IsView(h, u) && GivesTo(LastOf(u), n) && IsView(f, y) && IsView(f, z) && y <= z
      ensures Retains(LastOf(y), LastOf(z), Given(LastOf(u)).range)
    {
      ViewOk(n, f, y);
      if IsView(g, z) {
        ViewPrefix(g, z, y);
      } else if y != z {
        assert y <= x;
        ViewPrefix(g, x, y);
        ViewOk(m, h, u);
        RetainsTransitive(LastOf(y), LastOf(x), e, Given(LastOf(u)).range);
      }
    }
  }

  /** An entry that owns the same range and gives nothing new. */
  predicate AsLast(last: Entry, e: Entry) {
    && (e.partition.Some? <==> last.partition.Some?)
    && (e.partition.Some? ==> e.partition.value.range == last.partition.value.range)
    && (Gives(e) ==> e.transferring == last.transferring)
  }

  lemma FitsAsLast(n: GroupId, g: Group, x: Log, e: Entry, m: GroupId, h: Group)
    requires IsView(g, x) && PairOk(g, m, h) && PairOk(h, n, g) && AsLast(LastOf(x), e)
    ensures Fits(n, x, e, m, h)
  {
    forall y: Log | IsView(h, y) ensures EntriesOk(e, m, LastOf(y)) && EntriesOk(LastOf(y), n, e) {
      assert EntriesOk(LastOf(x), m, LastOf(y)) && EntriesOk(LastOf(y), n, LastOf(x));
    }
  }

  lemma OutRetains(last: Entry, e: Entry, r: OwnedRange)
    requires Ranged(last) && KeepsRest(last, e) && Given(e).range.Valid() && r.Valid() && Apart(r, Given(e).range)
    ensures Retains(last, e, r)
  {
    if !Apart(last.partition.value.range, r) {
      var o := last.partition.value.range;
      var low: RecordId, high: RecordId := if o.start < r.start then r.start else o.start, if o.end < r.end then o.end else r.end;
      assert Holds(last, low) && Holds(last, high);
    }
  }

  /** An entry that gives part of what the group owned, of which nothing is being given to the group. */
  lemma FitsOut(n: GroupId, g: Group, x: Log, e: Entry, m: GroupId, h: Group)
    requires IsView(g, x) && PairOk(g, m, h) && PairOk(h, n, g) && Ranged(LastOf(x)) && EntryOk(n, e, |x|) && KeepsRest(LastOf(x), e)
    requires forall y: Log | IsView(h, y) :: EntryOk(m, LastOf(y), |y| - 1) && (GivesTo(LastOf(y), n) ==> Apart(Given(LastOf(y)).range, Given(e).range))
    ensures Fits(n, x, e, m, h)
  {
    forall y: Log | IsView(h, y)
      ensures EntriesOk(e, m, LastOf(y)) && EntriesOk(LastOf(y), n, e) && Clear(LastOf(y), Given(e).range)
      ensures GivesTo(LastOf(y), n) ==> Retains(LastOf(x), e, Given(LastOf(y)).range)
    {
      assert EntriesOk(LastOf(x), m, LastOf(y)) && EntriesOk(LastOf(y), n, LastOf(x));
      if GivesTo(LastOf(y), n) { OutRetains(LastOf(x), e, Given(LastOf(y)).range); }
    }
  }

  lemma SharedId(a: OwnedRange, b: OwnedRange) returns (id: RecordId)
    requires a.Valid() && b.Valid() && !Apart(a, b)
    ensures a.Contains(id) && b.Contains(id)
  {
    id := if a.start < b.start then b.start else a.start;
  }

  /** What is arriving at `d` no other group owns, or gives to anybody else. */
  lemma ArrivingAlone(w: World, d: GroupId, p: Partition, m: GroupId, y: Log)
    requires AllOk(w) && Separate(w) && d in w.groups && m in w.groups && m != d && p.range.Valid() && Arriving(w, d, p) && IsView(w.groups[m], y)
    ensures Clear(LastOf(y), p.range) && (Gives(LastOf(y)) ==> GivesTo(LastOf(y), d) || Apart(Given(LastOf(y)).range, p.range))
  {
    var b := LastOf(y);
    ViewOk(m, w.groups[m], y);
    if !Clear(b, p.range) {
      var id := SharedId(b.partition.value.range, p.range);
      NotElsewhere(w, d, p, m, y, id);
    }
    if Gives(b) && !GivesTo(b, d) && !Apart(Given(b).range, p.range) {
      var id := SharedId(Given(b).range, p.range);
      NotElsewhere(w, d, p, m, y, id);
    }
  }

  lemma NotElsewhere(w: World, d: GroupId, p: Partition, m: GroupId, y: Log, id: RecordId)
    requires AllOk(w) && Separate(w) && d in w.groups && m in w.groups && m != d && p.range.start <= id <= p.range.end && Arriving(w, d, p) && IsView(w.groups[m], y)
    ensures !Holds(LastOf(y), id) && (Gives(LastOf(y)) && Given(LastOf(y)).range.start <= id <= Given(LastOf(y)).range.end ==> GivesTo(LastOf(y), d))
  {
    assert Arrives(w, d, id, Value(p, id));
    var n :| ArrivesFrom(w, n, d, id, Value(p, id));
    if n == m {
      ViewOk(m, w.groups[m], y);
    } else {
      assert PairOk(w.groups[n], m, w.groups[m]);
      GivenApart(w.groups[n], d, id, Value(p, id), m, w.groups[m], y);
    }
  }

  lemma GivenApart(g: Group, d: GroupId, id: RecordId, x: Option<Record>, m: GroupId, h: Group, y: Log)
    requires GivesAll(g, d, id, x) && PairOk(g, m, h) && IsView(h, y) && m != d
    ensures !Holds(LastOf(y), id) && (Gives(LastOf(y)) ==> !(Given(LastOf(y)).range.start <= id <= Given(LastOf(y)).range.end))
  {
    assert IsView(g, g.log);
    assert EntriesOk(LastOf(g.log), m, LastOf(y));
  }

  lemma JoinedEntries(n: GroupId, last: Entry, p: Partition, e: Entry, m: GroupId, b: Entry)
    requires Ranged(last) && p.range.Valid() && Joined(last, p, e) && EntriesOk(last, m, b) && EntriesOk(b, n, last) && Ranged(b)
    requires Clear(b, p.range) && (Gives(b) ==> Given(b).range.Valid() && (GivesTo(b, n) || Apart(Given(b).range, p.range)))
    ensures EntriesOk(e, m, b) && EntriesOk(b, n, e) && (Gives(b) ==> Retains(last, e, Given(b).range))
  {}

  /** An entry that takes what is arriving. */
  lemma FitsIn(w: World, d: GroupId, x: Log, p: Partition, e: Entry, m: GroupId)
    requires AllOk(w) && Separate(w) && d in w.groups && m in w.groups && m != d && IsView(w.groups[d], x) && Ranged(LastOf(x))
    requires p.range.Valid() && Joined(LastOf(x), p, e) && Arriving(w, d, p)
    ensures Fits(d, x, e, m, w.groups[m])
  {
    var g, h := w.groups[d], w.groups[m];
    assert PairOk(g, m, h) && PairOk(h, d, g);
    forall y: Log | IsView(h, y)
      ensures EntriesOk(e, m, LastOf(y)) && EntriesOk(LastOf(y), d, e) && (Gives(LastOf(y)) ==> Retains(LastOf(x), e, Given(LastOf(y)).range))
    {
      ViewOk(m, h, y);
      ArrivingAlone(w, d, p, m, y);
      assert EntriesOk(LastOf(x), m, LastOf(y)) && EntriesOk(LastOf(y), d, LastOf(x));
      JoinedEntries(d, LastOf(x), p, e, m, LastOf(y));
    }
  }

  // ---- Every step ----

  lemma SeparateExtended(w: World, n: GroupId, x: Log, e: Entry, v: World)
    requires AllOk(w) && AllOk(v) && Separate(w) && n in w.groups && n in v.groups && v.groups == w.groups[n := v.groups[n]]
    requires Extended(w.groups[n], v.groups[n], x, e) && forall m <- w.groups | m != n :: Fits(n, x, e, m, w.groups[m])
    ensures Separate(v)
  {
    hide PairOk, StaysTaken, Fits, Extended;
    forall m | m in w.groups && m != n
      ensures PairOk(v.groups[n], m, v.groups[m]) && StaysTaken(v.groups[n], m, v.groups[m])
      ensures PairOk(v.groups[m], n, v.groups[n]) && StaysTaken(v.groups[m], n, v.groups[n])
    {
      FitsPair(n, w.groups[n], x, e, v.groups[n], m, w.groups[m]);
      FitsStays(n, w.groups[n], x, e, v.groups[n], m, w.groups[m]);
    }
  }

  lemma NoMorePair(n: GroupId, g: Group, f: Group, m: GroupId, h: Group)
    requires PairOk(g, m, h) && PairOk(h, n, g) && StaysTaken(g, m, h) && StaysTaken(h, n, g) && NoMore(g, f)
    ensures PairOk(f, m, h) && PairOk(h, n, f) && StaysTaken(f, m, h) && StaysTaken(h, n, f)
  {}

  lemma SeparateNoMore(w: World, n: GroupId, v: World)
    requires Separate(w) && n in w.groups && n in v.groups && v.groups == w.groups[n := v.groups[n]] && NoMore(w.groups[n], v.groups[n])
    ensures Separate(v)
  {
    forall m | m in w.groups && m != n
      ensures PairOk(v.groups[n], m, v.groups[m]) && StaysTaken(v.groups[n], m, v.groups[m])
      ensures PairOk(v.groups[m], n, v.groups[n]) && StaysTaken(v.groups[m], n, v.groups[n])
    {
      NoMorePair(n, w.groups[n], v.groups[n], m, w.groups[m]);
    }
  }

  lemma StepNoMore(w: World, step: Step)
    requires AllOk(w) && Possible(w, step) && !Adds(w, step)
    ensures NoMore(w.groups[step.group], NextGroup(w, step))
  {
    var n, g := step.group, w.groups[step.group];
    match step {
      case Ask(_, l, _) =>
        AnsweredOk(w, step);
        SameLogNoMore(g, l, Answered(w, step).0);
      case Commit(_, l, count) => CommittedNoMore(n, g, l, count);
      case Lead(_, l, from, count) => LedNoMore(n, g, l, from, count);
    }
  }

  lemma StepExtends(w: World, step: Step)
    requires AllOk(w) && Possible(w, step) && Adds(w, step)
    ensures var g, h := w.groups[step.group], Answered(w, step).0;
            && Extended(g, NextGroup(w, step), g.leaders[step.leader].log, h.Last()) && IsView(NextGroup(w, step), h.log)
            && h.log == g.leaders[step.leader].log + [h.Last()]
  {
    AnsweredOk(w, step);
    AppendedExtends(w.groups[step.group], step.leader, Answered(w, step).0);
  }

  /** Entries of other kinds are like the last. */
  lemma MostlyAsLast(w: World, n: GroupId, g: Leader, request: Request)
    requires Ranged(g.Last()) && !request.TransferOut? && !request.TransferIn? && |After(w, n, g, request).0.log| > |g.log|
    ensures AsLast(g.Last(), After(w, n, g, request).0.Last())
  {}

  lemma FitsStep(w: World, step: Step, m: GroupId)
    requires AllOk(w) && Separate(w) && Possible(w, step) && Orderly(w, step) && Adds(w, step) && m in w.groups && m != step.group
    ensures Fits(step.group, w.groups[step.group].leaders[step.leader].log, Answered(w, step).0.Last(), m, w.groups[m])
  {
    var n, l := step.group, step.leader;
    var g, x, e := w.groups[n], w.groups[n].leaders[l].log, Answered(w, step).0.Last();
    StepExtends(w, step);
    LastOk(n, g.leaders[l]);
    match step.request {
      case TransferOut(d, range, nonce, proof) => FitsOutStep(w, n, l, d, range, PreparedStatement(n, d, range, nonce) in w.prepared, proof, m);
      case TransferIn(s, p, nonce, proofs) =>
        TransferInOutcome(n, g.leaders[l], s, p, nonce, TransferStatement(n, p, nonce) in w.stated, proofs);
        FitsIn(w, n, x, p, e, m);
      case State(_, _) =>
      case _ =>
        MostlyAsLast(w, n, g.leaders[l], step.request);
        assert PairOk(g, m, w.groups[m]) && PairOk(w.groups[m], n, g);
        FitsAsLast(n, g, x, e, m, w.groups[m]);
    }
  }

  lemma FitsOutStep(w: World, n: GroupId, l: LeaderId, d: GroupId, range: OwnedRange, genuine: bool, proof: SplitProof, m: GroupId)
    requires AllOk(w) && Separate(w) && n in w.groups && m in w.groups && m != n && l in w.groups[n].leaders && NotReceiving(w, n, range)
    requires IsView(w.groups[n], w.groups[n].leaders[l].log) && Ranged(w.groups[n].leaders[l].Last())
    requires |HandleTransferOut(w.groups[n].leaders[l], n, d, range, genuine, proof).0.log| > |w.groups[n].leaders[l].log|
    ensures Fits(n, w.groups[n].leaders[l].log, HandleTransferOut(w.groups[n].leaders[l], n, d, range, genuine, proof).0.Last(), m, w.groups[m])
  {
    var g := w.groups[n].leaders[l];
    var h := HandleTransferOut(g, n, d, range, genuine, proof).0;
    TransferOutOutcome(n, g, d, range, genuine, proof);
    LastOk(n, h);
    assert PairOk(w.groups[n], m, w.groups[m]) && PairOk(w.groups[m], n, w.groups[n]);
    forall y: Log | IsView(w.groups[m], y) ensures EntryOk(m, LastOf(y), |y| - 1) { ViewOk(m, w.groups[m], y); }
    FitsOut(n, w.groups[n], g.log, h.Last(), m, w.groups[m]);
  }

  /** An orderly step keeps the groups apart. */
  lemma NextSeparate(w: World, step: Step)
    requires AllOk(w) && Separate(w) && Possible(w, step) && Orderly(w, step)
    ensures Separate(NextWorld(w, step))
  {
    var n, v := step.group, NextWorld(w, step);
    OnlyThisGroup(w, step);
    NextOk(w, step);
    if Adds(w, step) {
      StepExtends(w, step);
      forall m | m in w.groups && m != n ensures Fits(n, w.groups[n].leaders[step.leader].log, Answered(w, step).0.Last(), m, w.groups[m]) {
        FitsStep(w, step, m);
      }
      SeparateExtended(w, n, w.groups[n].leaders[step.leader].log, Answered(w, step).0.Last(), v);
    } else {
      StepNoMore(w, step);
      SeparateNoMore(w, n, v);
    }
  }
}
