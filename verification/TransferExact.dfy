/** The order of steps is exactly what keeps every id in one place. */
module TransferExact {
  import opened Wrappers
  import opened OwnedRanges
  import opened OwnershipTransfer
  import opened TransferRealm
  import opened TransferOwners
  import opened TransferRecords

  /** The step leaves every id in one place, and its record as it was. */
  ghost predicate Sound(w: World, step: Step)
    requires AllOk(w) && Possible(w, step)
  {
    EachInOnePlace(NextWorld(w, step)) && RecordsKept(w, step)
  }

  // ---- The order is needed ----

  /** The committed logs, but for two groups. */
  function CommittedBut(w: World, n: GroupId, x: Log, m: GroupId, y: Log): Choice {
    map k <- w.groups :: if k == n then x else if k == m then y else w.groups[k].log
  }

  lemma CommittedButIsChoice(w: World, n: GroupId, x: Log, m: GroupId, y: Log)
    requires n in w.groups && m in w.groups && IsView(w.groups[n], x) && IsView(w.groups[m], y)
    ensures IsChoice(w, CommittedBut(w, n, x, m, y))
  {}

  /** After completing a transfer of which an id has not arrived, that id has no place. */
  lemma CompletedTooEarly(c: Choice, b: Choice, n: GroupId, d: GroupId, m: GroupId, id: RecordId, x: Option<Record>)
    requires Consistent(b) && n in b && d in b && n != d && OneMore(n, Entry(LastOf(b[n]).partition, None), c, b)
    requires GivesTo(LastOf(b[n]), d) && Given(LastOf(b[n])).range.start <= id <= Given(LastOf(b[n])).range.end && !Holds(LastOf(b[d]), id)
    ensures !StoredBy(c, m, id, x)
  {
    LastsAfter(n, Entry(LastOf(b[n]).partition, None), c, b);
    assert EntryOk(n, LastOf(b[n]), |b[n]| - 1);
    if m in c && m != n { assert EntriesOk(LastOf(b[n]), m, LastOf(b[m])); }
  }

  /** After giving what is still being given to the group, an id in both has two places. */
  lemma GivenTooEarly(n: GroupId, e: Entry, c: Choice, b: Choice, m: GroupId, id: RecordId)
    requires Consistent(b) && OneMore(n, e, c, b) && EntryOk(n, e, |b[n]|) && m in b && m != n && Holds(LastOf(b[n]), id)
    requires Gives(e) && e.transferring.value.destination in b && GivesAs(e, id, Value(Given(e), id))
    requires GivesTo(LastOf(b[m]), n) && GivesAs(LastOf(b[m]), id, Value(Given(LastOf(b[m])), id))
    ensures !HasOnePlace(c, id)
  {
    var d := e.transferring.value.destination;
    LastsAfter(n, e, c, b);
    assert EntriesOk(LastOf(b[n]), d, LastOf(b[d]));
    assert StoredBy(c, n, id, Value(Given(e), id));
    assert StoredBy(c, m, id, Value(Given(LastOf(b[m])), id));
  }

  /** After taking an id that is elsewhere, or is being given with another record, it has two places or another record. */
  lemma TakenWrongly(d: GroupId, e: Entry, c: Choice, b: Choice, n: GroupId, id: RecordId, x: Option<Record>, y: Option<Record>)
    requires OneMore(d, e, c, b) && OwnsAs(e, id, x) && !Holds(LastOf(b[d]), id) && !Gives(LastOf(b[d]))
    requires StoredBy(b, n, id, y) && !(GivesTo(LastOf(b[n]), d) && GivesAs(LastOf(b[n]), id, x))
    ensures !(HasOnePlace(c, id) && Stored(c, id, y))
  {
    LastsAfter(d, e, c, b);
    assert StoredBy(c, d, id, x);
    if !GivesTo(LastOf(b[n]), d) || OwnsAs(LastOf(b[n]), id, y) { assert StoredBy(c, n, id, y); }
  }

  lemma ChoiceAfter(w: World, n: GroupId, v: World, b: Choice, z: Log)
    requires IsChoice(w, b) && n in w.groups && n in v.groups && v.groups == w.groups[n := v.groups[n]] && IsView(v.groups[n], z)
    ensures IsChoice(v, Put(b, n, z))
  {}

  /** Group `n` may come to have `y`, which ends in `e`, committed after `x`. */
  ghost predicate MayAdd(w: World, n: GroupId, x: Log, e: Entry, y: Log, v: World) {
    && n in w.groups && n in v.groups && v.groups == w.groups[n := v.groups[n]]
    && IsView(w.groups[n], x) && IsView(v.groups[n], y) && y == x + [e]
  }

  lemma Choose(w: World, n: GroupId, x: Log, e: Entry, y: Log, v: World, m: GroupId, z: Log) returns (b: Choice, c: Choice)
    requires AllConsistent(w) && MayAdd(w, n, x, e, y, v) && m in w.groups && m != n && IsView(w.groups[m], z)
    ensures Consistent(b) && IsChoice(v, c) && OneMore(n, e, c, b) && b.Keys == w.groups.Keys && b[n] == x && b[m] == z
  {
    b := CommittedBut(w, n, x, m, z);
    CommittedButIsChoice(w, n, x, m, z);
    c := Put(b, n, y);
    ChoiceAfter(w, n, v, b, y);
  }

  lemma DisorderlyComplete(w: World, n: GroupId, x: Log, y: Log, d: GroupId, v: World)
    requires AllConsistent(w) && MayAdd(w, n, x, Entry(LastOf(x).partition, None), y, v) && d in w.groups && n != d && GivesTo(LastOf(x), d)
    requires !Whole(LastOf(w.groups[d].log), Given(LastOf(x)).range)
    ensures !EachInOnePlace(v)
  {
    var b, c := Choose(w, n, x, Entry(LastOf(x).partition, None), y, v, d, w.groups[d].log);
    NoPlace(b, c, n, d);
  }

  lemma NoPlace(b: Choice, c: Choice, n: GroupId, d: GroupId)
    requires Consistent(b) && n in b && d in b && n != d && OneMore(n, Entry(LastOf(b[n]).partition, None), c, b)
    requires GivesTo(LastOf(b[n]), d) && !Whole(LastOf(b[d]), Given(LastOf(b[n])).range)
    ensures exists id :: !HasOnePlace(c, id)
  {
    var r := Given(LastOf(b[n])).range;
    assert EntryOk(n, LastOf(b[n]), |b[n]| - 1);
    var id := if Holds(LastOf(b[d]), r.start) then r.end else r.start;
    forall m, y ensures !StoredBy(c, m, id, y) { CompletedTooEarly(c, b, n, d, m, id, y); }
    assert !HasOnePlace(c, id);
  }

  lemma DisorderlyOut(w: World, n: GroupId, x: Log, e: Entry, y: Log, m: GroupId, z: Log, v: World)
    requires AllConsistent(w) && MayAdd(w, n, x, e, y, v) && m in w.groups && n != m && IsView(w.groups[m], z)
    requires EntryOk(n, e, |x|) && Gives(e) && e.transferring.value.destination in w.groups && KeepsRest(LastOf(x), e)
    requires GivesTo(LastOf(z), n) && !Apart(Given(LastOf(z)).range, Given(e).range)
    ensures !EachInOnePlace(v)
  {
    var b, c := Choose(w, n, x, e, y, v, m, z);
    TwoPlaces(b, c, n, e, m);
  }

  lemma TwoPlaces(b: Choice, c: Choice, n: GroupId, e: Entry, m: GroupId)
    requires Consistent(b) && OneMore(n, e, c, b) && EntryOk(n, e, |b[n]|) && m in b && m != n && KeepsRest(LastOf(b[n]), e)
    requires e.transferring.value.destination in b && GivesTo(LastOf(b[m]), n) && !Apart(Given(LastOf(b[m])).range, Given(e).range)
    ensures exists id :: !HasOnePlace(c, id)
  {
    assert EntryOk(m, LastOf(b[m]), |b[m]| - 1);
    var id := SharedId(Given(LastOf(b[m])).range, Given(e).range);
    GivenTooEarly(n, e, c, b, m, id);
  }

  /** Where an id that group `d` takes is stored before, another group gives it to `d` with the same record. */
  lemma TakenFrom(w: World, d: GroupId, x: Log, e: Entry, y: Log, v: World, b: Choice, id: RecordId, r: Option<Record>) returns (n: GroupId)
    requires AllPlaced(w) && MayAdd(w, d, x, e, y, v) && IsChoice(w, b) && d in b && b[d] == x && EachInOnePlace(v)
    requires OwnsAs(e, id, r) && !Holds(LastOf(x), id) && !Gives(LastOf(x)) && forall z | Stored(b, id, z) :: Stored(Put(b, d, y), id, z)
    ensures n in b && n != d && GivesTo(LastOf(b[n]), d) && GivesAs(LastOf(b[n]), id, r)
  {
    var c := Put(b, d, y);
    ChoiceAfter(w, d, v, b, y);
    assert Placed(b, id);
    var z :| Stored(b, id, z);
    n :| StoredBy(b, n, id, z);
    assert HasOnePlace(c, id) && Stored(c, id, z);
    if !(GivesTo(LastOf(b[n]), d) && GivesAs(LastOf(b[n]), id, r)) { TakenWrongly(d, e, c, b, n, id, r, z); }
  }

  /** Then so does every log of that group that may come to be committed. */
  lemma TakenFromAll(w: World, d: GroupId, x: Log, e: Entry, y: Log, v: World, b: Choice, n: GroupId, id: RecordId, r: Option<Record>, z: Log)
    requires AllPlaced(w) && MayAdd(w, d, x, e, y, v) && EachInOnePlace(v) && IsChoice(w, b) && Consistent(b) && d in b && b[d] == x
    requires OwnsAs(e, id, r) && !Holds(LastOf(x), id) && !Gives(LastOf(x))
    requires n in b && n != d && GivesTo(LastOf(b[n]), d) && GivesAs(LastOf(b[n]), id, r) && IsView(w.groups[n], z)
    requires forall s | Stored(Put(b, n, z), id, s) :: Stored(Put(Put(b, n, z), d, y), id, s)
    ensures GivesTo(LastOf(z), d) && GivesAs(LastOf(z), id, r)
  {
    assert forall k | k in b && k != n :: EntriesOk(LastOf(b[n]), k, LastOf(b[k]));
    var m := TakenFrom(w, d, x, e, y, v, Put(b, n, z), id, r);
  }

  lemma KeptAt(w: World, d: GroupId, x: Log, y: Log, request: Request, b: Choice, id: RecordId)
    requires KeptFrom(w, d, x, y, request) && !request.Write? && IsChoice(w, b) && d in b && b[d] == x
    ensures forall z | Stored(b, id, z) :: Stored(Put(b, d, y), id, z)
  {
    forall z | Stored(b, id, z) ensures Stored(Put(b, d, y), id, z) { assert Written(request, id, z) == z; }
  }

  lemma ArrivesById(w: World, d: GroupId, x: Log, e: Entry, y: Log, v: World, request: Request, b: Choice, id: RecordId, r: Option<Record>) returns (n: GroupId)
    requires AllPlaced(w) && MayAdd(w, d, x, e, y, v) && EachInOnePlace(v) && KeptFrom(w, d, x, y, request) && !request.Write?
    requires IsChoice(w, b) && Consistent(b) && d in b && b[d] == x && OwnsAs(e, id, r) && !Holds(LastOf(x), id) && !Gives(LastOf(x))
    ensures ArrivesFrom(w, n, d, id, r)
  {
    KeptAt(w, d, x, y, request, b, id);
    n := TakenFrom(w, d, x, e, y, v, b, id, r);
    forall z: Log | IsView(w.groups[n], z) ensures GivesTo(LastOf(z), d) && GivesAs(LastOf(z), id, r) {
      KeptAt(w, d, x, y, request, Put(b, n, z), id);
      TakenFromAll(w, d, x, e, y, v, b, n, id, r, z);
    }
  }

  lemma DisorderlyIn(w: World, d: GroupId, x: Log, e: Entry, y: Log, p: Partition, v: World, request: Request)
    requires AllConsistent(w) && AllPlaced(w) && MayAdd(w, d, x, e, y, v) && EachInOnePlace(v) && KeptFrom(w, d, x, y, request) && !request.Write?
    requires Ranged(LastOf(x)) && Tidy(LastOf(x)) && p.range.Valid() && Inside(p) && Joined(LastOf(x), p, e)
    ensures Arriving(w, d, p)
  {
    var b := CommittedBut(w, d, x, d, x);
    CommittedButIsChoice(w, d, x, d, x);
    forall id: RecordId | p.range.start <= id <= p.range.end ensures Arrives(w, d, id, Value(p, id)) {
      var n := ArrivesJoined(w, d, x, e, y, p, v, request, b, id);
    }
  }

  lemma ArrivesJoined(w: World, d: GroupId, x: Log, e: Entry, y: Log, p: Partition, v: World, request: Request, b: Choice, id: RecordId) returns (n: GroupId)
    requires AllPlaced(w) && MayAdd(w, d, x, e, y, v) && EachInOnePlace(v) && KeptFrom(w, d, x, y, request) && !request.Write?
    requires IsChoice(w, b) && Consistent(b) && d in b && b[d] == x && p.range.start <= id <= p.range.end
    requires Ranged(LastOf(x)) && Tidy(LastOf(x)) && p.range.Valid() && Inside(p) && Joined(LastOf(x), p, e)
    ensures ArrivesFrom(w, n, d, id, Value(p, id))
  {
    InTakes(LastOf(x), p, e, id);
    n := ArrivesById(w, d, x, e, y, v, request, b, id, Value(p, id));
  }

  // ---- Exactly ----

  lemma StepMayAdd(w: World, step: Step)
    requires AllOk(w) && Possible(w, step) && Adds(w, step)
    ensures var x, h := w.groups[step.group].leaders[step.leader].log, Answered(w, step).0;
            MayAdd(w, step.group, x, h.Last(), h.log, NextWorld(w, step))
  {
    StepExtends(w, step);
    OnlyThisGroup(w, step);
  }

  lemma SoundOut(w: World, n: GroupId, l: LeaderId, d: GroupId, range: OwnedRange, nonce: Nonce, proof: SplitProof)
    requires Safe(w) && Possible(w, Ask(n, l, TransferOut(d, range, nonce, proof))) && Adds(w, Ask(n, l, TransferOut(d, range, nonce, proof)))
    requires EachInOnePlace(NextWorld(w, Ask(n, l, TransferOut(d, range, nonce, proof))))
    ensures NotReceiving(w, n, range)
  {
    var step, g := Ask(n, l, TransferOut(d, range, nonce, proof)), w.groups[n].leaders[l];
    var h := Answered(w, step).0;
    LastOk(n, g);
    assert g.Last() in g.log;
    StepMayAdd(w, step);
    SeparateConsistent(w);
    OutStepContinues(w, n, g, d, range, nonce, proof);
    TransferOutOutcome(n, g, d, range, PreparedStatement(n, d, range, nonce) in w.prepared, proof);
    LastOk(n, h);
    forall m, z: Log | m in w.groups && m != n && IsView(w.groups[m], z) && GivesTo(LastOf(z), n) ensures Apart(Given(LastOf(z)).range, range) {
      if !Apart(Given(LastOf(z)).range, range) { DisorderlyOut(w, n, g.log, h.Last(), h.log, m, z, NextWorld(w, step)); }
    }
  }

  lemma SoundIn(w: World, n: GroupId, l: LeaderId, s: GroupId, p: Partition, nonce: Nonce, proofs: MergeProofs)
    requires Safe(w) && Possible(w, Ask(n, l, TransferIn(s, p, nonce, proofs))) && Adds(w, Ask(n, l, TransferIn(s, p, nonce, proofs)))
    requires EachInOnePlace(NextWorld(w, Ask(n, l, TransferIn(s, p, nonce, proofs)))) && RecordsKept(w, Ask(n, l, TransferIn(s, p, nonce, proofs)))
    ensures Arriving(w, n, p)
  {
    var step, g := Ask(n, l, TransferIn(s, p, nonce, proofs)), w.groups[n].leaders[l];
    LastOk(n, g);
    assert g.Last() in g.log;
    StepMayAdd(w, step);
    SeparateConsistent(w);
    InStepTidy(w, n, g, s, p, nonce, proofs);
    DisorderlyIn(w, n, g.log, Answered(w, step).0.Last(), Answered(w, step).0.log, p, NextWorld(w, step), step.request);
  }

  lemma CompletesShape(n: GroupId, g: Leader, d: GroupId, range: OwnedRange)
    requires LeaderOk(n, g) && |HandleComplete(g, n, d, range).0.log| > |g.log|
    ensures Ranged(g.Last()) && n != d && GivesTo(g.Last(), d) && Given(g.Last()).range == range
    ensures HandleComplete(g, n, d, range).0.Last() == Entry(g.Last().partition, None)
  {
    LastOk(n, g);
  }

  lemma SoundComplete(w: World, n: GroupId, l: LeaderId, d: GroupId, range: OwnedRange)
    requires Safe(w) && Possible(w, Ask(n, l, Complete(d, range))) && Adds(w, Ask(n, l, Complete(d, range))) && d in w.groups
    requires EachInOnePlace(NextWorld(w, Ask(n, l, Complete(d, range))))
    ensures Whole(LastOf(w.groups[d].log), range)
  {
    var step, g := Ask(n, l, Complete(d, range)), w.groups[n].leaders[l];
    CompletesShape(n, g, d, range);
    StepMayAdd(w, step);
    SeparateConsistent(w);
    if !Whole(LastOf(w.groups[d].log), range) { DisorderlyComplete(w, n, g.log, Answered(w, step).0.log, d, NextWorld(w, step)); }
  }

  /** From a safe world, a step leaves every id in one place with its record exactly if it is orderly. */
  lemma OrderlyIsExact(w: World, step: Step)
    requires Safe(w) && Possible(w, step)
    ensures Sound(w, step) <==> Orderly(w, step)
  {
    if Orderly(w, step) {
      NextSafe(w, step);
      SafeInOnePlace(NextWorld(w, step));
    }
    if Sound(w, step) && Adds(w, step) {
      match step.request {
        case TransferOut(d, range, nonce, proof) => SoundOut(w, step.group, step.leader, d, range, nonce, proof);
        case TransferIn(s, p, nonce, proofs) => SoundIn(w, step.group, step.leader, s, p, nonce, proofs);
        case Complete(d, range) => if d in w.groups { SoundComplete(w, step.group, step.leader, d, range); }
        case _ =>
      }
    }
  }

  // ---- Runs ----

  /** One group owns everything and has the records; the others own nothing. Each has one leader. */
  ghost predicate Initial(w: World, first: GroupId, records: map<RecordId, Record>) {
    && first in w.groups && w.stated == {} && w.prepared == {} && w.nonces == {}
    && w.groups[first] == Start(Entry(Some(Partition(OwnedRange(0, MAX_ID), records)), None))
    && forall n <- w.groups | n != first :: w.groups[n] == Start(Entry(None, None))
  }

  function Start(e: Entry): Group {
    Group([e], map[0 := Leader([e], 0, None, e.partition.Some?)], {0})
  }

  ghost predicate IsRun(w: World, steps: seq<Step>)
    decreases |steps|
  {
    AllOk(w) && (steps != [] ==> Possible(w, steps[0]) && IsRun(NextWorld(w, steps[0]), steps[1..]))
  }

  ghost predicate IsOrderlyRun(w: World, steps: seq<Step>)
    requires IsRun(w, steps)
    decreases |steps|
  {
    steps != [] ==> Orderly(w, steps[0]) && IsOrderlyRun(NextWorld(w, steps[0]), steps[1..])
  }

  /** Every step of the run leaves every id in one place, with its record. */
  ghost predicate IsSoundRun(w: World, steps: seq<Step>)
    requires IsRun(w, steps)
    decreases |steps|
  {
    steps != [] ==> Sound(w, steps[0]) && IsSoundRun(NextWorld(w, steps[0]), steps[1..])
  }

  lemma {:induction false} RunIsExact(w: World, steps: seq<Step>)
    requires Safe(w) && IsRun(w, steps)
    ensures IsSoundRun(w, steps) <==> IsOrderlyRun(w, steps)
    decreases |steps|
  {
    if steps != [] {
      OrderlyIsExact(w, steps[0]);
      if Orderly(w, steps[0]) {
        NextSafe(w, steps[0]);
        RunIsExact(NextWorld(w, steps[0]), steps[1..]);
      }
    }
  }

  lemma StartView(e: Entry, x: Log)
    requires IsView(Start(e), x)
    ensures x == [e]
  {}

  lemma StartOk(n: GroupId, e: Entry)
    requires e.transferring.None? && Ranged(e)
    ensures GroupOk(n, Start(e))
  {
    assert LogOk(n, [e]);
  }

  function FirstEntry(n: GroupId, first: GroupId, records: map<RecordId, Record>): Entry {
    Entry(if n == first then Some(Partition(OwnedRange(0, MAX_ID), records)) else None, None)
  }

  lemma InitialOk(w: World, first: GroupId, records: map<RecordId, Record>)
    requires Initial(w, first, records)
    ensures AllOk(w)
  {
    forall n | n in w.groups ensures GroupOk(n, w.groups[n]) { StartOk(n, FirstEntry(n, first, records)); }
  }

  lemma InitialFine(w: World, first: GroupId, records: map<RecordId, Record>)
    requires Initial(w, first, records)
    ensures AllFine(w)
  {
    forall n | n in w.groups ensures FineGroup(w.groups.Keys, w.groups[n]) {
      assert Tidy(FirstEntry(n, first, records)) && w.groups[n] == Start(FirstEntry(n, first, records));
    }
  }

  lemma InitialView(w: World, first: GroupId, records: map<RecordId, Record>, n: GroupId, x: Log)
    requires Initial(w, first, records) && n in w.groups && IsView(w.groups[n], x)
    ensures LastOf(x) == FirstEntry(n, first, records)
  {
    StartView(FirstEntry(n, first, records), x);
  }

  lemma InitialSeparate(w: World, first: GroupId, records: map<RecordId, Record>)
    requires Initial(w, first, records)
    ensures Separate(w)
  {
    forall n, m | n in w.groups && m in w.groups && n != m ensures PairOk(w.groups[n], m, w.groups[m]) && StaysTaken(w.groups[n], m, w.groups[m]) {
      forall x: Log | IsView(w.groups[n], x) ensures LastOf(x) == FirstEntry(n, first, records) { InitialView(w, first, records, n, x); }
      forall y: Log | IsView(w.groups[m], y) ensures LastOf(y) == FirstEntry(m, first, records) { InitialView(w, first, records, m, y); }
    }
  }

  lemma InitialPlaced(w: World, first: GroupId, records: map<RecordId, Record>)
    requires Initial(w, first, records)
    ensures AllPlaced(w)
  {
    forall c, id | IsChoice(w, c) ensures Placed(c, id) {
      assert IsView(w.groups[first], c[first]);
      InitialView(w, first, records, first, c[first]);
      var x := Value(Partition(OwnedRange(0, MAX_ID), records), id);
      assert StoredBy(c, first, id, x);
      assert Stored(c, id, x);
    }
  }

  lemma InitialSafe(w: World, first: GroupId, records: map<RecordId, Record>)
    requires Initial(w, first, records)
    ensures Safe(w)
  {
    InitialOk(w, first, records);
    InitialFine(w, first, records);
    InitialSeparate(w, first, records);
    InitialPlaced(w, first, records);
  }

  /** A run with any requests to any leaders, commits and changes of leader keeps every id in exactly one place,
      with its record, at every step exactly if all of its steps are orderly. */
  lemma OneOwner(w: World, first: GroupId, records: map<RecordId, Record>, steps: seq<Step>)
    requires Initial(w, first, records) && IsRun(w, steps)
    ensures IsSoundRun(w, steps) <==> IsOrderlyRun(w, steps)
  {
    InitialSafe(w, first, records);
    RunIsExact(w, steps);
  }
}
