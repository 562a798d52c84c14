/** In orderly runs of the transfer protocol every id has exactly one place, and keeps its record. */
module TransferRecords {
  import opened Wrappers
  import opened OwnedRanges
  import opened OwnershipTransfer
  import opened TransferRealm
  import opened TransferOwners

  // ---- Every id has one place ----

  type Choice = map<GroupId, Log>

  function Put(c: Choice, n: GroupId, x: Log): Choice {
    c[n := x]
  }

  /** For each group a log that may come to be committed. */
  ghost predicate IsChoice(w: World, c: Choice) {
    c.Keys == w.groups.Keys && forall n <- c :: IsView(w.groups[n], c[n])
  }

  /** The group owns the id, or gives it to a group that does not own it yet; `x` is the record, if there is one. */
  predicate StoredBy(c: Choice, n: GroupId, id: RecordId, x: Option<Record>) {
    n in c && var e := LastOf(c[n]);
    || OwnsAs(e, id, x)
    || (GivesAs(e, id, x) && var d := e.transferring.value.destination; d in c && !Holds(LastOf(c[d]), id))
  }

  ghost predicate Stored(c: Choice, id: RecordId, x: Option<Record>) {
    exists n :: StoredBy(c, n, id, x)
  }

  ghost predicate Consistent(c: Choice) {
    && (forall n <- c :: EntryOk(n, LastOf(c[n]), |c[n]| - 1))
    && (forall n, m | n in c && m in c && n != m :: EntriesOk(LastOf(c[n]), m, LastOf(c[m])))
  }

  lemma ChoicesConsistent(w: World, c: Choice)
    requires AllOk(w) && Separate(w) && IsChoice(w, c)
    ensures Consistent(c)
  {
    forall n | n in c ensures EntryOk(n, LastOf(c[n]), |c[n]| - 1) { ViewOk(n, w.groups[n], c[n]); }
    forall n, m | n in c && m in c && n != m ensures EntriesOk(LastOf(c[n]), m, LastOf(c[m])) {
      assert PairOk(w.groups[n], m, w.groups[m]);
    }
  }

  ghost predicate AllConsistent(w: World) {
    forall c | IsChoice(w, c) :: Consistent(c)
  }

  lemma SeparateConsistent(w: World)
    requires AllOk(w) && Separate(w)
    ensures AllConsistent(w)
  {
    forall c | IsChoice(w, c) ensures Consistent(c) { ChoicesConsistent(w, c); }
  }

  lemma OneAmongTwo(a: Entry, m: GroupId, b: Entry, id: RecordId, x: Option<Record>, y: Option<Record>)
    requires EntriesOk(a, m, b) && (OwnsAs(a, id, x) || GivesAs(a, id, x)) && (OwnsAs(b, id, y) || GivesAs(b, id, y))
    ensures (OwnsAs(b, id, y) && GivesTo(a, m) && GivesAs(a, id, x)) || (OwnsAs(a, id, x) && GivesAs(b, id, y))
  {}

  lemma OnePlace(c: Choice, n: GroupId, m: GroupId, id: RecordId, x: Option<Record>, y: Option<Record>)
    requires Consistent(c) && StoredBy(c, n, id, x) && StoredBy(c, m, id, y)
    ensures n == m && x == y
  {
    if n != m {
      OneAmongTwo(LastOf(c[n]), m, LastOf(c[m]), id, x, y);
      OneAmongTwo(LastOf(c[m]), n, LastOf(c[n]), id, y, x);
    }
  }

  /** Group `n` is where the id is, with the record `x` if there is one. */
  ghost predicate OnlyPlace(c: Choice, n: GroupId, id: RecordId, x: Option<Record>) {
    StoredBy(c, n, id, x) && forall m, y :: StoredBy(c, m, id, y) ==> m == n && y == x
  }

  ghost predicate HasOnePlace(c: Choice, id: RecordId) {
    exists n, x :: OnlyPlace(c, n, id, x)
  }

  /** Whichever logs come to be committed, every id is owned by exactly one group or given by exactly one group
      to one that does not own it yet. */
  ghost predicate EachInOnePlace(w: World) {
    forall c, id | IsChoice(w, c) :: HasOnePlace(c, id)
  }

  ghost predicate AllPlaced(w: World) {
    forall c, id | IsChoice(w, c) :: Placed(c, id)
  }

  ghost predicate Placed(c: Choice, id: RecordId) {
    exists x :: Stored(c, id, x)
  }

  // ---- One more entry ----

  /** What the group had is still there, or on its way. */
  predicate Keeps(last: Entry, e: Entry, id: RecordId) {
    Holds(last, id) ==> OwnsAs(e, id, Value(last.partition.value, id)) || GivesAs(e, id, Value(last.partition.value, id))
  }

  /** What it has in addition is as it was given. */
  predicate Takes(last: Entry, e: Entry, given: Entry, id: RecordId) {
    Holds(e, id) && !Holds(last, id) && Gives(given) && GivesAs(given, id, Value(Given(given), id)) ==> OwnsAs(e, id, Value(Given(given), id))
  }

  ghost predicate Arrived(w: World, d: GroupId, r: OwnedRange) {
    d in w.groups && forall y: Log | IsView(w.groups[d], y) :: Whole(LastOf(y), r)
  }

  /** After the entry every record is where it was or where it was to go. */
  ghost predicate Continues(w: World, n: GroupId, last: Entry, e: Entry) {
    && (forall id :: Keeps(last, e, id))
    && (Gives(e) ==> e.transferring.value.destination in w.groups && e.transferring.value.destination != n)
    && (Gives(last) ==> e.transferring == last.transferring || Arrived(w, last.transferring.value.destination, Given(last).range))
    && (forall m, y: Log, id | m in w.groups && m != n && IsView(w.groups[m], y) && GivesTo(LastOf(y), n) :: Takes(last, e, LastOf(y), id))
  }

  /** Choice `c` has the new entry `e` of group `n`, and `b` has the log before. */
  predicate OneMore(n: GroupId, e: Entry, c: Choice, b: Choice) {
    n in b && c == Put(b, n, b[n] + [e])
  }

  lemma LastsAfter(n: GroupId, e: Entry, c: Choice, b: Choice)
    requires OneMore(n, e, c, b)
    ensures c.Keys == b.Keys && LastOf(c[n]) == e && forall k <- c | k != n :: c[k] == b[k]
  {}

  lemma StaysStoredHere(w: World, n: GroupId, e: Entry, c: Choice, b: Choice, id: RecordId, x: Option<Record>)
    requires IsChoice(w, b) && Consistent(b) && OneMore(n, e, c, b) && Continues(w, n, LastOf(b[n]), e) && StoredBy(b, n, id, x)
    ensures StoredBy(c, n, id, x)
  {
    var last := LastOf(b[n]);
    LastsAfter(n, e, c, b);
    if OwnsAs(last, id, x) {
      assert Keeps(last, e, id);
      if GivesAs(e, id, x) { assert EntriesOk(last, e.transferring.value.destination, LastOf(b[e.transferring.value.destination])); }
    }
  }

  lemma StaysStoredThere(w: World, n: GroupId, e: Entry, c: Choice, b: Choice, m: GroupId, id: RecordId, x: Option<Record>)
    requires IsChoice(w, b) && OneMore(n, e, c, b) && Continues(w, n, LastOf(b[n]), e) && m != n && StoredBy(b, m, id, x)
    ensures StoredBy(c, m, id, x) || StoredBy(c, n, id, x)
  {
    LastsAfter(n, e, c, b);
    if GivesTo(LastOf(b[m]), n) { assert Takes(LastOf(b[n]), e, LastOf(b[m]), id); }
  }

  lemma ContinuesStores(w: World, n: GroupId, e: Entry, c: Choice, b: Choice, id: RecordId, x: Option<Record>)
    requires IsChoice(w, b) && Consistent(b) && OneMore(n, e, c, b) && Continues(w, n, LastOf(b[n]), e) && Stored(b, id, x)
    ensures Stored(c, id, x)
  {
    var m :| StoredBy(b, m, id, x);
    if m == n { StaysStoredHere(w, n, e, c, b, id, x); } else { StaysStoredThere(w, n, e, c, b, m, id, x); }
  }

  /** The record written, or the one there was. */
  function Written(request: Request, id: RecordId, x: Option<Record>): Option<Record> {
    if request.Write? && request.id == id then Some(request.value) else x
  }

  lemma WriteStores(n: GroupId, e: Entry, c: Choice, b: Choice, key: RecordId, value: Record, id: RecordId, x: Option<Record>)
    requires Consistent(b) && OneMore(n, e, c, b) && WritesTo(LastOf(b[n]), e, key, value) && Stored(b, id, x)
    ensures Stored(c, id, if id == key then Some(value) else x)
  {
    var last := LastOf(b[n]);
    LastsAfter(n, e, c, b);
    var m :| StoredBy(b, m, id, x);
    assert EntryOk(n, last, |b[n]| - 1);
    if id == key { OnePlace(b, m, n, id, x, Value(last.partition.value, id)); }
    assert StoredBy(c, m, id, if id == key then Some(value) else x);
  }

  // ---- Which entries continue ----

  predicate Inside(p: Partition) {
    forall id <- p.records :: p.range.start <= id <= p.range.end
  }

  /** Partitions have records of their own range only. */
  predicate Tidy(e: Entry) {
    (e.partition.Some? ==> Inside(e.partition.value)) && (Gives(e) ==> Inside(Given(e)))
  }

  /** The groups to which entries give exist. */
  predicate FineLog(ids: set<GroupId>, log: Log) {
    forall e <- log :: Tidy(e) && (Gives(e) ==> e.transferring.value.destination in ids)
  }

  ghost predicate FineGroup(ids: set<GroupId>, g: Group) {
    FineLog(ids, g.log) && forall l <- g.leaders :: FineLog(ids, g.leaders[l].log)
  }

  ghost predicate AllFine(w: World) {
    && (forall n <- w.groups :: FineGroup(w.groups.Keys, w.groups[n]))
    && (forall p <- w.prepared :: p.destination in w.groups) && (forall s <- w.stated :: Inside(s.partition))
  }

  lemma OutKeeps(p: Partition, range: OwnedRange, d: GroupId, at: nat, id: RecordId)
    requires p.range.Valid() && range.Valid() && p.range.SplitAt(range).Some? && p.range.SplitAt(range).value > 0
    requires Divide(p, range, p.range.SplitAt(range).value).Some?
    ensures var (keeping, going) := Divide(p, range, p.range.SplitAt(range).value).value;
            Keeps(Entry(Some(p), None), Entry(Some(keeping), Some(Out(d, going, at))), id) && Inside(keeping) && Inside(going)
  {}

  lemma OutContinues(w: World, n: GroupId, g: Leader, d: GroupId, range: OwnedRange, genuine: bool, proof: SplitProof)
    requires LeaderOk(n, g) && Ranged(g.Last()) && Tidy(g.Last()) && d in w.groups
    requires |HandleTransferOut(g, n, d, range, genuine, proof).0.log| > |g.log|
    ensures var e := HandleTransferOut(g, n, d, range, genuine, proof).0.Last(); Continues(w, n, g.Last(), e) && Tidy(e)
  {
    var e, p := HandleTransferOut(g, n, d, range, genuine, proof).0.Last(), g.Last().partition.value;
    assert g.Last() == Entry(Some(p), None);
    TransferOutOutcome(n, g, d, range, genuine, proof);
    if p.range != range {
      forall id ensures Keeps(g.Last(), e, id) { OutKeeps(p, range, d, |g.log|, id); }
      OutKeeps(p, range, d, |g.log|, 0);
    }
  }

  lemma MergedKeeps(p: Partition, q: Partition, id: RecordId)
    requires p.range.Valid() && q.range.Valid() && Inside(p) && Inside(q) && Merged(p, q).Some?
    ensures var e := Merged(p, q).value;
            && Inside(e)
            && (p.range.start <= id <= p.range.end ==> Value(e, id) == Value(p, id))
            && (q.range.start <= id <= q.range.end ==> Value(e, id) == Value(q, id))
            && (e.range.start <= id <= e.range.end <==> p.range.start <= id <= p.range.end || q.range.start <= id <= q.range.end)
  {}

  lemma InTakes(last: Entry, p: Partition, e: Entry, id: RecordId)
    requires Ranged(last) && Tidy(last) && p.range.Valid() && Inside(p) && Joined(last, p, e)
    ensures Keeps(last, e, id) && Tidy(e)
    ensures Holds(e, id) && !Holds(last, id) ==> p.range.start <= id <= p.range.end
    ensures p.range.start <= id <= p.range.end ==> OwnsAs(e, id, Value(p, id)) && !Holds(last, id)
  {
    if last.partition.Some? { MergedKeeps(last.partition.value, p, id); }
  }

  /** What is given to `d` of what arrives is what arrives. */
  lemma GivenIsArriving(w: World, d: GroupId, p: Partition, m: GroupId, y: Log, id: RecordId)
    requires Separate(w) && d in w.groups && m in w.groups && m != d && p.range.start <= id <= p.range.end && Arriving(w, d, p)
    requires IsView(w.groups[m], y) && Gives(LastOf(y)) && Given(LastOf(y)).range.start <= id <= Given(LastOf(y)).range.end
    ensures Value(Given(LastOf(y)), id) == Value(p, id)
  {
    assert Arrives(w, d, id, Value(p, id));
    var n :| ArrivesFrom(w, n, d, id, Value(p, id));
    if n == m {
      assert GivesAs(LastOf(y), id, Value(p, id));
    } else {
      assert PairOk(w.groups[n], m, w.groups[m]);
      GivenApart(w.groups[n], d, id, Value(p, id), m, w.groups[m], y);
    }
  }

  lemma InContinues(w: World, d: GroupId, last: Entry, p: Partition, e: Entry)
    requires Separate(w) && d in w.groups && Ranged(last) && Tidy(last) && p.range.Valid() && Inside(p) && Joined(last, p, e) && Arriving(w, d, p)
    ensures Continues(w, d, last, e) && Tidy(e)
  {
    InTakes(last, p, e, 0);
    forall id ensures Keeps(last, e, id) { InTakes(last, p, e, id); }
    forall m, y: Log, id: RecordId | m in w.groups && m != d && IsView(w.groups[m], y) && GivesTo(LastOf(y), d) ensures Takes(last, e, LastOf(y), id) {
      InTakes(last, p, e, id);
      if Holds(e, id) && !Holds(last, id) && Given(LastOf(y)).range.start <= id <= Given(LastOf(y)).range.end { GivenIsArriving(w, d, p, m, y, id); }
    }
  }

  lemma SameContinues(w: World, n: GroupId, last: Entry, e: Entry)
    requires e.partition == last.partition && !Gives(e) && (Gives(last) ==> Arrived(w, last.transferring.value.destination, Given(last).range))
    ensures Continues(w, n, last, e)
  {}

  lemma RetainsWhole(a: Entry, b: Entry, r: OwnedRange)
    requires r.Valid() && Whole(a, r) && Retains(a, b, r)
    ensures Whole(b, r)
  {}

  /** A range that has been committed at its receiver stays while the giver has not completed. */
  lemma CompletedArrived(w: World, n: GroupId, x: Log, d: GroupId)
    requires AllOk(w) && Separate(w) && n in w.groups && d in w.groups && n != d && IsView(w.groups[n], x) && GivesTo(LastOf(x), d)
    requires Whole(LastOf(w.groups[d].log), Given(LastOf(x)).range)
    ensures Arrived(w, d, Given(LastOf(x)).range)
  {
    var g, h := w.groups[n], w.groups[d];
    ViewOk(n, g, x);
    assert StaysTaken(g, d, h) && IsView(h, h.log);
    forall y: Log | IsView(h, y) ensures Whole(LastOf(y), Given(LastOf(x)).range) {
      ViewOk(d, h, y);
      RetainsWhole(LastOf(h.log), LastOf(y), Given(LastOf(x)).range);
    }
  }

  lemma OutStepContinues(w: World, n: GroupId, g: Leader, d: GroupId, range: OwnedRange, nonce: Nonce, proof: SplitProof)
    requires (forall p <- w.prepared :: p.destination in w.groups) && LeaderOk(n, g) && Ranged(g.Last()) && Tidy(g.Last())
    requires |After(w, n, g, TransferOut(d, range, nonce, proof)).0.log| > |g.log|
    ensures var e := After(w, n, g, TransferOut(d, range, nonce, proof)).0.Last(); Continues(w, n, g.Last(), e) && Tidy(e) && GivesTo(e, d) && d in w.groups
  {
    assert PreparedStatement(n, d, range, nonce) in w.prepared;
    TransferOutOutcome(n, g, d, range, true, proof);
    OutContinues(w, n, g, d, range, true, proof);
  }

  lemma InStepTidy(w: World, n: GroupId, g: Leader, s: GroupId, p: Partition, nonce: Nonce, proofs: MergeProofs)
    requires LeaderOk(n, g) && Ranged(g.Last()) && Tidy(g.Last()) && (forall t <- w.stated :: Inside(t.partition))
    requires |After(w, n, g, TransferIn(s, p, nonce, proofs)).0.log| > |g.log|
    ensures p.range.Valid() && Joined(g.Last(), p, After(w, n, g, TransferIn(s, p, nonce, proofs)).0.Last())
    ensures Inside(p) && TransferStatement(n, p, nonce) in w.stated && Tidy(After(w, n, g, TransferIn(s, p, nonce, proofs)).0.Last())
  {
    TransferInOutcome(n, g, s, p, nonce, TransferStatement(n, p, nonce) in w.stated, proofs);
    InTakes(g.Last(), p, After(w, n, g, TransferIn(s, p, nonce, proofs)).0.Last(), 0);
  }

  lemma OtherContinues(w: World, n: GroupId, g: Leader, request: Request)
    requires Ranged(g.Last()) && (request.Prepare? || request.Cancel? || request.Complete?) && |After(w, n, g, request).0.log| > |g.log|
    requires request.Complete? ==> Arrived(w, request.destination, request.range)
    ensures Continues(w, n, g.Last(), After(w, n, g, request).0.Last())
  {
    SameContinues(w, n, g.Last(), After(w, n, g, request).0.Last());
  }

  /** An entry that an orderly request other than a write adds. */
  lemma StepContinues(w: World, n: GroupId, l: LeaderId, request: Request)
    requires AllOk(w) && Separate(w) && AllFine(w) && Possible(w, Ask(n, l, request))
    requires Adds(w, Ask(n, l, request)) && Orderly(w, Ask(n, l, request)) && !request.Write?
    ensures Ranged(w.groups[n].leaders[l].Last())
    ensures Continues(w, n, w.groups[n].leaders[l].Last(), After(w, n, w.groups[n].leaders[l], request).0.Last())
  {
    var g := w.groups[n].leaders[l];
    LastOk(n, g);
    assert g.Last() in g.log;
    match request {
      case TransferOut(d, range, nonce, proof) => OutStepContinues(w, n, g, d, range, nonce, proof);
      case TransferIn(s, p, nonce, proofs) =>
        InStepTidy(w, n, g, s, p, nonce, proofs);
        InContinues(w, n, g.Last(), p, After(w, n, g, request).0.Last());
      case Complete(d, range) =>
        CompleteArrives(w, n, l, d, range);
        OtherContinues(w, n, g, request);
      case Prepare(_, _, _) => OtherContinues(w, n, g, request);
      case Cancel(_, _) => OtherContinues(w, n, g, request);
      case State(_, _) =>
    }
  }

  lemma CompleteArrives(w: World, n: GroupId, l: LeaderId, d: GroupId, range: OwnedRange)
    requires AllOk(w) && Separate(w) && AllFine(w) && Possible(w, Ask(n, l, Complete(d, range)))
    requires Adds(w, Ask(n, l, Complete(d, range))) && Orderly(w, Ask(n, l, Complete(d, range)))
    ensures Arrived(w, d, range)
  {
    var g := w.groups[n].leaders[l];
    LastOk(n, g);
    assert g.Last() in g.log && GivesTo(g.Last(), d) && Given(g.Last()).range == range;
    assert Leads(w.groups[n], l, g.log);
    CompletedArrived(w, n, g.log, d);
  }

  // ---- Every step ----

  /** Every id has exactly one place, and will. */
  ghost predicate Safe(w: World) {
    AllOk(w) && Separate(w) && AllFine(w) && AllPlaced(w)
  }

  lemma AnsweredFine(w: World, n: GroupId, g: Leader, request: Request)
    requires (forall p <- w.prepared :: p.destination in w.groups) && (forall t <- w.stated :: Inside(t.partition))
    requires LeaderOk(n, g) && Ranged(g.Last()) && FineLog(w.groups.Keys, g.log)
    ensures FineLog(w.groups.Keys, After(w, n, g, request).0.log)
  {
    var h := After(w, n, g, request).0;
    AfterShape(w, n, g, request);
    assert g.Last() in g.log;
    if h.log != g.log {
      match request {
        case TransferOut(d, range, nonce, proof) => OutStepContinues(w, n, g, d, range, nonce, proof);
        case TransferIn(s, p, nonce, proofs) => InStepTidy(w, n, g, s, p, nonce, proofs);
        case _ =>
      }
    }
  }

  lemma StatedInside(w: World, step: Step)
    requires AllOk(w) && AllFine(w) && Possible(w, step)
    ensures forall s <- NextWorld(w, step).stated :: Inside(s.partition)
  {
    if step.Ask? && step.request.State? {
      var g := w.groups[step.group].leaders[step.leader];
      assert g.Last() in g.log && Tidy(g.Last());
    }
  }

  lemma PrefixFine(ids: set<GroupId>, log: Log, count: nat)
    requires FineLog(ids, log) && 0 < count <= |log|
    ensures FineLog(ids, log[..count])
  {
    forall e | e in log[..count] ensures e in log {}
  }

  lemma NextGroupFine(w: World, step: Step)
    requires AllOk(w) && AllFine(w) && Possible(w, step)
    ensures FineGroup(w.groups.Keys, NextGroup(w, step))
  {
    var n, g, ids := step.group, w.groups[step.group], w.groups.Keys;
    assert FineGroup(ids, g);
    match step {
      case Ask(_, l, request) =>
        LastOk(n, g.leaders[l]);
        AnsweredFine(w, n, g.leaders[l], request);
      case Commit(_, l, count) => if |g.log| < count { PrefixFine(ids, g.leaders[l].log, count); }
      case Lead(_, _, from, count) => PrefixFine(ids, if from.None? then g.log else g.leaders[from.value].log, count);
    }
  }

  lemma NextFine(w: World, step: Step)
    requires AllOk(w) && AllFine(w) && Possible(w, step)
    ensures AllFine(NextWorld(w, step))
  {
    StatedInside(w, step);
    NextGroupFine(w, step);
    OnlyThisGroup(w, step);
  }

  /** If log `y` is committed after `x`, every id has the record it had, except for one that is written. */
  ghost predicate KeptFrom(w: World, n: GroupId, x: Log, y: Log, request: Request) {
    forall b, id, z | IsChoice(w, b) && n in b && b[n] == x && Stored(b, id, z) :: Stored(Put(b, n, y), id, Written(request, id, z))
  }

  ghost predicate RecordsKept(w: World, step: Step)
    requires AllOk(w) && Possible(w, step)
  {
    Adds(w, step) ==> KeptFrom(w, step.group, w.groups[step.group].leaders[step.leader].log, Answered(w, step).0.log, step.request)
  }

  ghost predicate Follows(w: World, n: GroupId, last: Entry, e: Entry, request: Request) {
    if request.Write? then WritesTo(last, e, request.id, request.value) else Continues(w, n, last, e)
  }

  lemma StepFollows(w: World, step: Step)
    requires AllOk(w) && Separate(w) && AllFine(w) && Possible(w, step) && Orderly(w, step) && Adds(w, step)
    ensures Follows(w, step.group, w.groups[step.group].leaders[step.leader].Last(), Answered(w, step).0.Last(), step.request)
  {
    if step.request.Write? {
      WriteOutcome(step.group, w.groups[step.group].leaders[step.leader], step.request.id, step.request.value);
    } else {
      StepContinues(w, step.group, step.leader, step.request);
    }
  }

  lemma FollowsStores(w: World, n: GroupId, e: Entry, request: Request, c: Choice, b: Choice, id: RecordId, y: Option<Record>)
    requires IsChoice(w, b) && Consistent(b) && OneMore(n, e, c, b) && Follows(w, n, LastOf(b[n]), e, request) && Stored(b, id, y)
    ensures Stored(c, id, Written(request, id, y))
  {
    if request.Write? {
      WriteStores(n, e, c, b, request.id, request.value, id, y);
    } else {
      ContinuesStores(w, n, e, c, b, id, y);
    }
  }

  /** A choice after the step was one before, or has the new entry. */
  lemma ChoiceBefore(w: World, n: GroupId, v: World, c: Choice)
    requires n in w.groups && n in v.groups && v.groups == w.groups[n := v.groups[n]] && IsChoice(v, c)
    ensures n in c && forall y: Log | IsView(w.groups[n], y) :: IsChoice(w, Put(c, n, y))
  {
    assert c.Keys == w.groups.Keys;
    forall m | m in c && m != n ensures IsView(w.groups[m], c[m]) { assert IsView(v.groups[m], c[m]); }
  }

  lemma PlacedNoMore(w: World, n: GroupId, v: World)
    requires AllPlaced(w) && n in w.groups && n in v.groups && v.groups == w.groups[n := v.groups[n]] && NoMore(w.groups[n], v.groups[n])
    ensures AllPlaced(v)
  {
    forall c, id | IsChoice(v, c) ensures Placed(c, id) {
      ChoiceBefore(w, n, v, c);
      assert c == Put(c, n, c[n]) && IsView(v.groups[n], c[n]);
    }
  }

  lemma PlacedExtended(w: World, n: GroupId, v: World, x: Log, e: Entry, request: Request)
    requires AllConsistent(w) && AllPlaced(w) && n in w.groups && n in v.groups && v.groups == w.groups[n := v.groups[n]]
    requires Extended(w.groups[n], v.groups[n], x, e) && Follows(w, n, LastOf(x), e, request)
    ensures AllPlaced(v)
  {
    forall c, id | IsChoice(v, c) ensures Placed(c, id) {
      ChoiceBefore(w, n, v, c);
      if IsView(w.groups[n], c[n]) {
        assert c == Put(c, n, c[n]);
      } else {
        assert IsView(v.groups[n], c[n]);
        BeforeNewest(n, x, e, c);
        PlacedNewest(w, n, e, request, c, Put(c, n, x), id);
      }
    }
  }

  lemma BeforeNewest(n: GroupId, x: Log, e: Entry, c: Choice)
    requires n in c && c[n] == x + [e]
    ensures OneMore(n, e, c, Put(c, n, x))
  {
    assert c == Put(Put(c, n, x), n, x + [e]);
  }

  lemma PlacedNewest(w: World, n: GroupId, e: Entry, request: Request, c: Choice, b: Choice, id: RecordId)
    requires AllPlaced(w) && IsChoice(w, b) && Consistent(b) && OneMore(n, e, c, b) && Follows(w, n, LastOf(b[n]), e, request)
    ensures Placed(c, id)
  {
    assert Placed(b, id);
    var y :| Stored(b, id, y);
    FollowsStores(w, n, e, request, c, b, id, y);
  }

  lemma NextPlaced(w: World, step: Step)
    requires Safe(w) && Possible(w, step) && Orderly(w, step)
    ensures AllPlaced(NextWorld(w, step))
  {
    var n, v := step.group, NextWorld(w, step);
    OnlyThisGroup(w, step);
    if Adds(w, step) {
      StepExtends(w, step);
      StepFollows(w, step);
      SeparateConsistent(w);
      PlacedExtended(w, n, v, w.groups[n].leaders[step.leader].log, Answered(w, step).0.Last(), step.request);
    } else {
      StepNoMore(w, step);
      PlacedNoMore(w, n, v);
    }
  }

  lemma NextKept(w: World, step: Step)
    requires Safe(w) && Possible(w, step) && Orderly(w, step)
    ensures RecordsKept(w, step)
  {
    if Adds(w, step) {
      var n, x, e := step.group, w.groups[step.group].leaders[step.leader].log, Answered(w, step).0.Last();
      StepExtends(w, step);
      StepFollows(w, step);
      forall b, id, y | IsChoice(w, b) && n in b && b[n] == x && Stored(b, id, y) ensures Stored(Put(b, n, x + [e]), id, Written(step.request, id, y)) {
        ChoicesConsistent(w, b);
        FollowsStores(w, n, e, step.request, Put(b, n, x + [e]), b, id, y);
      }
    }
  }

  lemma NextSafe(w: World, step: Step)
    requires Safe(w) && Possible(w, step) && Orderly(w, step)
    ensures Safe(NextWorld(w, step)) && RecordsKept(w, step)
  {
    NextOk(w, step);
    NextSeparate(w, step);
    NextFine(w, step);
    NextPlaced(w, step);
    NextKept(w, step);
  }

  lemma SafeInOnePlace(w: World)
    requires Safe(w)
    ensures EachInOnePlace(w)
  {
    forall c, id | IsChoice(w, c) ensures HasOnePlace(c, id) {
      ChoicesConsistent(w, c);
      assert Placed(c, id);
      var x :| Stored(c, id, x);
      var n :| StoredBy(c, n, id, x);
      forall m, y | StoredBy(c, m, id, y) ensures m == n && y == x { OnePlace(c, m, n, id, y, x); }
      assert OnlyPlace(c, n, id, x);
    }
  }
}
