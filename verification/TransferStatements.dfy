/** Statements made by leaders that have not been replaced make taking a range orderly. */
module TransferStatements {
  import opened Wrappers
  import opened OwnedRanges
  import opened OwnershipTransfer
  import opened TransferRealm
  import opened TransferOwners
  import opened TransferRecords
  import opened TransferExact

  // ---- What a live statement rests on ----

  predicate GivesThis(e: Entry, d: GroupId, p: Partition) {
    GivesTo(e, d) && Given(e) == p
  }

  /** Whatever comes to be committed, the group gives the partition to `d`. */
  ghost predicate AllGive(g: Group, d: GroupId, p: Partition) {
    forall x: Log | IsView(g, x) :: GivesThis(LastOf(x), d, p)
  }

  /** The leader would take the partition now. */
  predicate Live(g: Leader, s: TransferStatement) {
    g.incoming == Some(s.nonce) && Awaits(g.Last()) && g.Last().transferring.value.range == s.partition.range
  }

  ghost predicate LiveAt(w: World, k: LeaderId, s: TransferStatement) {
    && s.destination in w.groups && k in w.groups[s.destination].current && k in w.groups[s.destination].leaders
    && Live(w.groups[s.destination].leaders[k], s)
  }

  ghost predicate BackedBy(w: World, n: GroupId, s: TransferStatement) {
    n in w.groups && n != s.destination && AllGive(w.groups[n], s.destination, s.partition)
  }

  ghost predicate Backed(w: World, s: TransferStatement) {
    exists n :: BackedBy(w, n, s)
  }

  ghost predicate AllBacked(w: World) {
    forall s, k | s in w.stated && LiveAt(w, k, s) :: Backed(w, s)
  }

  /** The partition that log `u` gives is given by the entry too, or has arrived. */
  ghost predicate StillGiven(w: World, u: Log, e: Entry) {
    Gives(LastOf(u)) ==>
      var d := LastOf(u).transferring.value.destination; GivesThis(e, d, Given(LastOf(u))) || Arrived(w, d, Given(LastOf(u)).range)
  }

  /** A log that follows one in which a partition is given gives it too, or the partition has arrived. */
  ghost predicate GivesOn(w: World, n: GroupId) {
    n in w.groups && forall u: Log, x: Log | IsView(w.groups[n], u) && IsView(w.groups[n], x) && u <= x :: StillGiven(w, u, LastOf(x))
  }

  ghost predicate Fresh(w: World) {
    AllBacked(w) && (forall n <- w.groups :: GivesOn(w, n)) && forall s <- w.stated :: s.nonce in w.nonces
  }

  /** A statement that is backed is about what is arriving. */
  lemma BackedArrives(w: World, s: TransferStatement)
    requires Backed(w, s)
    ensures Arriving(w, s.destination, s.partition)
  {
    var n :| BackedBy(w, n, s);
    forall id: RecordId | s.partition.range.start <= id <= s.partition.range.end ensures Arrives(w, s.destination, id, Value(s.partition, id)) {
      assert ArrivesFrom(w, n, s.destination, id, Value(s.partition, id));
    }
  }

  /** What has arrived is not awaited. */
  lemma NotAwaited(w: World, d: GroupId, k: LeaderId, r: OwnedRange)
    requires AllOk(w) && Arrived(w, d, r) && r.Valid() && k in w.groups[d].current && k in w.groups[d].leaders
    ensures !(Awaits(w.groups[d].leaders[k].Last()) && w.groups[d].leaders[k].Last().transferring.value.range == r)
  {
    var g := w.groups[d].leaders[k];
    LastOk(d, g);
    assert GroupOk(d, w.groups[d]);
    assert Leads(w.groups[d], k, g.log);
    assert IsView(w.groups[d], g.log);
  }

  /** A statement by a leader that has not been replaced is backed, or about what has arrived. */
  lemma NewlyBacked(w: World, n: GroupId, l: LeaderId, d: GroupId)
    requires AllOk(w) && n in w.groups && l in w.groups[n].leaders && l in w.groups[n].current && GivesOn(w, n)
    requires HandleStatement(w.groups[n].leaders[l], n, d).1 == Done
    ensures var p := HandleStatement(w.groups[n].leaders[l], n, d).0.value;
            n != d && p.range.Valid() && (AllGive(w.groups[n], d, p) || Arrived(w, d, p.range))
  {
    var g, h := w.groups[n], w.groups[n].leaders[l];
    var p := Given(h.Last());
    LastOk(n, h);
    StatementOutcome(n, h, d);
    assert GroupOk(n, g);
    var i := |g.log| - 1;
    assert h.log[..h.known] <= g.log && g.log <= h.log;
    assert g.log[i] == h.log[i] && h.log[i].transferring == h.Last().transferring;
    assert IsView(g, g.log) && GivesThis(LastOf(g.log), d, p);
    if !Arrived(w, d, p.range) {
      forall x: Log | IsView(g, x) ensures GivesThis(LastOf(x), d, p) { ViewOk(n, g, x); }
    }
  }

  // ---- Every step ----

  lemma CommittedWasView(w: World, step: Step, d: GroupId)
    requires AllOk(w) && Possible(w, step) && d in w.groups
    ensures IsView(w.groups[d], NextWorld(w, step).groups[d].log)
  {
    OnlyThisGroup(w, step);
    if d == step.group {
      assert IsView(NextGroup(w, step), NextGroup(w, step).log);
      if Adds(w, step) { StepExtends(w, step); } else { StepNoMore(w, step); }
    }
  }

  lemma ArrivedStays(w: World, step: Step, n: GroupId, u: Log, d: GroupId)
    requires AllOk(w) && Possible(w, step) && AllOk(NextWorld(w, step)) && Separate(NextWorld(w, step)) && n in w.groups && n != d
    requires IsView(NextWorld(w, step).groups[n], u) && GivesTo(LastOf(u), d) && Arrived(w, d, Given(LastOf(u)).range)
    ensures Arrived(NextWorld(w, step), d, Given(LastOf(u)).range)
  {
    CommittedWasView(w, step, d);
    CompletedArrived(NextWorld(w, step), n, u, d);
  }

  /** What follows an entry that gives something. */
  lemma AfterGiving(w: World, n: GroupId, g: Leader, request: Request)
    requires Ranged(g.Last()) && Gives(g.Last()) && |After(w, n, g, request).0.log| > |g.log|
    ensures After(w, n, g, request).0.Last().transferring == g.Last().transferring || request == Complete(g.Last().transferring.value.destination, Given(g.Last()).range)
  {}

  lemma CarriesOrArrived(w: World, n: GroupId, l: LeaderId, request: Request)
    requires AllOk(w) && Separate(w) && AllFine(w) && Possible(w, Ask(n, l, request)) && Adds(w, Ask(n, l, request)) && Orderly(w, Ask(n, l, request))
    ensures StillGiven(w, w.groups[n].leaders[l].log, Answered(w, Ask(n, l, request)).0.Last())
  {
    var g := w.groups[n].leaders[l];
    LastOk(n, g);
    if Gives(g.Last()) {
      var d, r := g.Last().transferring.value.destination, Given(g.Last()).range;
      AfterGiving(w, n, g, request);
      if request == Complete(d, r) { CompleteArrives(w, n, l, d, r); }
    }
  }

  lemma GivesOnExtended(w: World, n: GroupId, f: Group, y: Log, e: Entry, u: Log, x: Log)
    requires GivesOn(w, n) && Extended(w.groups[n], f, y, e) && w.groups[n].log <= u <= x && IsView(f, x) && StillGiven(w, y, e)
    ensures StillGiven(w, u, LastOf(x))
  {
    var g := w.groups[n];
    LastOfLonger(y, e);
    if IsView(g, x) {
      ViewPrefix(g, x, u);
    } else if u != x {
      assert u <= y;
      ViewPrefix(g, y, u);
    }
  }

  lemma GivesOnNext(w: World, step: Step, n: GroupId)
    requires Safe(w) && Possible(w, step) && Orderly(w, step) && AllOk(NextWorld(w, step)) && Separate(NextWorld(w, step)) && n in w.groups && GivesOn(w, n)
    ensures GivesOn(NextWorld(w, step), n)
  {
    var v := NextWorld(w, step);
    OnlyThisGroup(w, step);
    forall u: Log, x: Log | IsView(v.groups[n], u) && IsView(v.groups[n], x) && u <= x
      ensures StillGiven(v, u, LastOf(x))
    {
      GivesOnAfter(w, step, n, u, x);
      ViewOk(n, v.groups[n], u);
      if Gives(LastOf(u)) && Arrived(w, LastOf(u).transferring.value.destination, Given(LastOf(u)).range) {
        ArrivedStays(w, step, n, u, LastOf(u).transferring.value.destination);
      }
    }
  }

  lemma GivesOnAdded(w: World, step: Step, u: Log, x: Log)
    requires AllOk(w) && Separate(w) && AllFine(w) && Possible(w, step) && Orderly(w, step) && Adds(w, step) && GivesOn(w, step.group)
    requires w.groups[step.group].log <= u <= x && IsView(NextGroup(w, step), x)
    ensures StillGiven(w, u, LastOf(x))
  {
    StepExtends(w, step);
    CarriesOrArrived(w, step.group, step.leader, step.request);
    GivesOnExtended(w, step.group, NextGroup(w, step), w.groups[step.group].leaders[step.leader].log, Answered(w, step).0.Last(), u, x);
  }

  lemma GivesOnAfter(w: World, step: Step, n: GroupId, u: Log, x: Log)
    requires AllOk(w) && Separate(w) && AllFine(w) && Possible(w, step) && Orderly(w, step) && n in w.groups && GivesOn(w, n)
    requires IsView(NextWorld(w, step).groups[n], u) && IsView(NextWorld(w, step).groups[n], x) && u <= x
    ensures StillGiven(w, u, LastOf(x))
  {
    OnlyThisGroup(w, step);
    if n == step.group && Adds(w, step) {
      StepExtends(w, step);
      ExtendsCommitted(w, step, u);
      GivesOnAdded(w, step, u, x);
    } else if n == step.group {
      StepNoMore(w, step);
    }
  }

  lemma ExtendsCommitted(w: World, step: Step, u: Log)
    requires AllOk(w) && Possible(w, step) && Adds(w, step) && IsView(NextGroup(w, step), u)
    ensures w.groups[step.group].log <= u
  {
    NextOk(w, step);
    ViewOk(step.group, NextWorld(w, step).groups[step.group], u);
  }

  // ---- Statements stay backed ----

  /** No answer makes an old statement usable. */
  lemma NotRevived(w: World, n: GroupId, g: Leader, request: Request, s: TransferStatement)
    requires LeaderOk(n, g) && Ranged(g.Last()) && s.nonce in w.nonces && (request.Prepare? ==> request.nonce !in w.nonces)
    requires LeaderOk(n, After(w, n, g, request).0) && Live(After(w, n, g, request).0, s)
    ensures Live(g, s)
  {}

  lemma LiveBefore(w: World, step: Step, k: LeaderId, s: TransferStatement)
    requires AllOk(w) && Possible(w, step) && s.nonce in w.nonces && LiveAt(NextWorld(w, step), k, s)
    ensures LiveAt(w, k, s)
  {
    var n, v := step.group, NextWorld(w, step);
    OnlyThisGroup(w, step);
    if n == s.destination && step.Ask? && k == step.leader {
      AnsweredOk(w, step);
      LastOk(n, w.groups[n].leaders[k]);
      NotRevived(w, n, w.groups[n].leaders[k], step.request, s);
    }
  }

  lemma AddsGiving(w: World, step: Step, s: TransferStatement, k: LeaderId)
    requires AllOk(w) && Separate(w) && AllFine(w) && Possible(w, step) && Orderly(w, step) && Adds(w, step) && BackedBy(w, step.group, s) && LiveAt(w, k, s)
    ensures GivesThis(Answered(w, step).0.Last(), s.destination, s.partition)
  {
    StepExtends(w, step);
    CarriesOrArrived(w, step.group, step.leader, step.request);
    NotArrived(w, step.group, s, k);
    assert GivesThis(LastOf(w.groups[step.group].leaders[step.leader].log), s.destination, s.partition);
  }

  lemma GroupGoesOn(w: World, step: Step, s: TransferStatement, k: LeaderId)
    requires AllOk(w) && Separate(w) && AllFine(w) && Possible(w, step) && Orderly(w, step) && BackedBy(w, step.group, s) && LiveAt(w, k, s)
    ensures AllGive(NextGroup(w, step), s.destination, s.partition)
  {
    var g := w.groups[step.group];
    if Adds(w, step) {
      StepExtends(w, step);
      AddsGiving(w, step, s, k);
      AllGiveExtended(g, NextGroup(w, step), g.leaders[step.leader].log, Answered(w, step).0.Last(), s.destination, s.partition);
    } else {
      StepNoMore(w, step);
    }
  }

  lemma GoesOnGiving(w: World, step: Step, n: GroupId, s: TransferStatement, k: LeaderId)
    requires AllOk(w) && Separate(w) && AllFine(w) && Possible(w, step) && Orderly(w, step) && BackedBy(w, n, s) && LiveAt(w, k, s)
    ensures BackedBy(NextWorld(w, step), n, s)
  {
    OnlyThisGroup(w, step);
    if n == step.group { GroupGoesOn(w, step, s, k); } else { BackedElsewhere(w, step.group, NextWorld(w, step), n, s); }
  }

  lemma BackedElsewhere(w: World, m: GroupId, v: World, n: GroupId, s: TransferStatement)
    requires m in v.groups && v.groups == w.groups[m := v.groups[m]] && n != m && BackedBy(w, n, s)
    ensures BackedBy(v, n, s)
  {}

  lemma NotArrived(w: World, n: GroupId, s: TransferStatement, k: LeaderId)
    requires AllOk(w) && BackedBy(w, n, s) && LiveAt(w, k, s)
    ensures !Arrived(w, s.destination, s.partition.range)
  {
    ViewOk(n, w.groups[n], w.groups[n].log);
    if Arrived(w, s.destination, s.partition.range) {
      assert GivesThis(LastOf(w.groups[n].log), s.destination, s.partition);
      NotAwaited(w, s.destination, k, s.partition.range);
    }
  }

  lemma AllGiveExtended(g: Group, f: Group, x: Log, e: Entry, d: GroupId, p: Partition)
    requires AllGive(g, d, p) && Extended(g, f, x, e) && GivesThis(e, d, p)
    ensures AllGive(f, d, p)
  {
    LastOfLonger(x, e);
  }

  lemma BackedNext(w: World, step: Step, k: LeaderId, s: TransferStatement)
    requires Safe(w) && Fresh(w) && Possible(w, step) && Orderly(w, step) && s in w.stated && LiveAt(NextWorld(w, step), k, s)
    ensures Backed(NextWorld(w, step), s)
  {
    LiveBefore(w, step, k, s);
    var n :| BackedBy(w, n, s);
    GoesOnGiving(w, step, n, s, k);
  }

  /** Statements are made by leaders that have not been replaced. */
  predicate UpToDate(w: World, step: Step) {
    step.Ask? && step.request.State? ==> step.group in w.groups && step.leader in w.groups[step.group].current
  }

  lemma NewStatement(w: World, step: Step, s: TransferStatement)
    requires AllOk(w) && Possible(w, step) && s in NextWorld(w, step).stated && s !in w.stated
    ensures step.Ask? && step.request.State? && s.destination == step.request.destination && s.nonce in NextWorld(w, step).nonces
    ensures var g := w.groups[step.group].leaders[step.leader];
            HandleStatement(g, step.group, s.destination) == (Some(s.partition), Done) && NextWorld(w, step).groups == w.groups
  {
    var n, l := step.group, step.leader;
    StatementOutcome(n, w.groups[n].leaders[l], s.destination);
    assert w.groups[n].(leaders := w.groups[n].leaders[l := w.groups[n].leaders[l]]) == w.groups[n];
  }

  lemma BackedNew(w: World, step: Step, k: LeaderId, s: TransferStatement)
    requires AllOk(w) && Fresh(w) && Possible(w, step) && UpToDate(w, step) && s in NextWorld(w, step).stated && s !in w.stated && LiveAt(NextWorld(w, step), k, s)
    ensures Backed(NextWorld(w, step), s)
  {
    NewStatement(w, step, s);
    NewlyBacked(w, step.group, step.leader, s.destination);
    if Arrived(w, s.destination, s.partition.range) { NotAwaited(w, s.destination, k, s.partition.range); }
    assert BackedBy(NextWorld(w, step), step.group, s);
  }

  lemma NoncesKnown(w: World, step: Step)
    requires AllOk(w) && Possible(w, step) && forall s <- w.stated :: s.nonce in w.nonces
    ensures forall s <- NextWorld(w, step).stated :: s.nonce in NextWorld(w, step).nonces
  {
    forall s | s in NextWorld(w, step).stated ensures s.nonce in NextWorld(w, step).nonces {
      if s !in w.stated { NewStatement(w, step, s); }
    }
  }

  lemma FreshNext(w: World, step: Step)
    requires Safe(w) && Fresh(w) && Possible(w, step) && Orderly(w, step) && UpToDate(w, step)
    ensures Fresh(NextWorld(w, step))
  {
    var v := NextWorld(w, step);
    NextOk(w, step);
    NextSeparate(w, step);
    NoncesKnown(w, step);
    forall s, k | s in v.stated && LiveAt(v, k, s) ensures Backed(v, s) {
      if s in w.stated { BackedNext(w, step, k, s); } else { BackedNew(w, step, k, s); }
    }
    forall n | n in v.groups ensures GivesOn(v, n) { GivesOnNext(w, step, n); }
  }

  /** A leader that would take a range on a statement takes what is arriving. */
  lemma FreshIsOrderly(w: World, step: Step)
    requires AllOk(w) && Fresh(w) && Possible(w, step) && step.Ask? && step.request.TransferIn?
    ensures Orderly(w, step)
  {
    if Adds(w, step) {
      var n, l, q := step.group, step.leader, step.request;
      var g, s := w.groups[n].leaders[l], TransferStatement(n, q.partition, q.nonce);
      LastOk(n, g);
      TransferInOutcome(n, g, q.source, q.partition, q.nonce, s in w.stated, q.proofs);
      assert LiveAt(w, l, s);
      BackedArrives(w, s);
    }
  }

  // ---- Runs ----

  /** Giving and completing are orderly, and statements are made by leaders that have not been replaced. */
  ghost predicate IsCarefulRun(w: World, steps: seq<Step>)
    requires IsRun(w, steps)
    decreases |steps|
  {
    steps != [] ==>
      && ((steps[0].Ask? && steps[0].request.TransferIn?) || Orderly(w, steps[0])) && UpToDate(w, steps[0])
      && IsCarefulRun(NextWorld(w, steps[0]), steps[1..])
  }

  lemma {:induction false} CarefulFrom(w: World, steps: seq<Step>)
    requires Safe(w) && Fresh(w) && IsRun(w, steps) && IsCarefulRun(w, steps)
    ensures IsOrderlyRun(w, steps)
    decreases |steps|
  {
    if steps != [] {
      if steps[0].Ask? && steps[0].request.TransferIn? { FreshIsOrderly(w, steps[0]); }
      NextSafe(w, steps[0]);
      FreshNext(w, steps[0]);
      CarefulFrom(NextWorld(w, steps[0]), steps[1..]);
    }
  }

  lemma InitialFresh(w: World, first: GroupId, records: map<RecordId, Record>)
    requires Initial(w, first, records)
    ensures Fresh(w)
  {
    forall n | n in w.groups ensures GivesOn(w, n) {
      forall u: Log | IsView(w.groups[n], u) ensures !Gives(LastOf(u)) { InitialView(w, first, records, n, u); }
    }
  }

  /** Nothing need be known about ranges that are taken: nonces and statements see to it. */
  lemma CarefulIsOrderly(w: World, first: GroupId, records: map<RecordId, Record>, steps: seq<Step>)
    requires Initial(w, first, records) && IsRun(w, steps) && IsCarefulRun(w, steps)
    ensures IsOrderlyRun(w, steps)
  {
    InitialSafe(w, first, records);
    InitialFresh(w, first, records);
    CarefulFrom(w, steps);
  }
}
