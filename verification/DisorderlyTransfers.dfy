/** Transfers in a good and in a bad order. */
module DisorderlyTransfers {
  import opened Wrappers
  import opened OwnedRanges
  import opened OwnershipTransfer
  import opened TransferRealm
  import opened TransferOwners
  import opened TransferRecords
  import opened TransferExact
  import opened TransferStatements
  import TransferTrees

  function Final(w: World, steps: seq<Step>): World
    requires IsRun(w, steps)
    decreases |steps|
  {
    if steps == [] then w else Final(NextWorld(w, steps[0]), steps[1..])
  }

  /** If `strict`, all steps are orderly, and statements are made by leaders that have not been replaced. */
  ghost predicate RunsTo(w: World, steps: seq<Step>, v: World, strict: bool) {
    IsRun(w, steps) && Final(w, steps) == v && AllOk(v) && (strict ==> IsOrderlyRun(w, steps) && Safe(v) && Fresh(v))
  }

  ghost predicate Reaches(w: World, v: World, strict: bool) {
    exists steps :: RunsTo(w, steps, v, strict)
  }

  lemma {:induction false} Longer(w: World, steps: seq<Step>, step: Step)
    requires IsRun(w, steps) && AllOk(Final(w, steps)) && Possible(Final(w, steps), step)
    ensures IsRun(w, steps + [step]) && Final(w, steps + [step]) == NextWorld(Final(w, steps), step)
    ensures IsOrderlyRun(w, steps) && Orderly(Final(w, steps), step) ==> IsOrderlyRun(w, steps + [step])
    decreases |steps|
  {
    if steps == [] {
      assert steps + [step] == [step];
      NextOk(w, step);
      assert IsRun(NextWorld(w, step), []);
    } else {
      assert (steps + [step])[1..] == steps[1..] + [step];
      Longer(NextWorld(w, steps[0]), steps[1..], step);
    }
  }

  lemma ReachesNext(from: World, w: World, step: Step, strict: bool)
    requires Reaches(from, w, strict) && AllOk(w) && Possible(w, step) && (strict ==> Orderly(w, step) && UpToDate(w, step))
    ensures Reaches(from, NextWorld(w, step), strict)
  {
    var steps :| RunsTo(from, steps, w, strict);
    Longer(from, steps, step);
    NextOk(w, step);
    if strict {
      NextSafe(w, step);
      FreshNext(w, step);
    }
    assert RunsTo(from, steps + [step], NextWorld(w, step), strict);
  }

  lemma ReachedOk(from: World, w: World, strict: bool)
    requires Reaches(from, w, strict)
    ensures AllOk(w)
  {
    var steps :| RunsTo(from, steps, w, strict);
  }

  lemma ReachedFresh(from: World, w: World)
    requires Reaches(from, w, true)
    ensures AllOk(w) && Fresh(w)
  {
    var steps :| RunsTo(from, steps, w, true);
  }

  // ---- Groups with one leader, whose entries are all committed ----

  predicate Lone(w: World, n: GroupId, l: LeaderId, g: Leader) {
    n in w.groups && l in w.groups[n].leaders && w.groups[n].leaders[l] == g && w.groups[n].log == g.log && w.groups[n].current == {l}
  }

  lemma LoneView(g: Group, l: LeaderId, x: Log)
    requires g.current == {l} && l in g.leaders && g.leaders[l].log == g.log && IsView(g, x)
    ensures x == g.log
  {}

  function Grown(g: Group, l: LeaderId, h: Leader): Group {
    Group(h.log, g.leaders[l := h.(known := |h.log|)], {l})
  }

  predicate GrownAt(w: World, v: World, n: GroupId, l: LeaderId, h: Leader) {
    n in w.groups && v.groups == w.groups[n := Grown(w.groups[n], l, h)]
  }

  predicate SameSaid(w: World, v: World) {
    v.prepared == w.prepared && v.stated == w.stated && v.nonces == w.nonces
  }

  /** Asking for something that is done in the order of things. */
  ghost predicate MayAsk(w: World, n: GroupId, l: LeaderId, request: Request, strict: bool) {
    AllOk(w) && Possible(w, Ask(n, l, request)) && (strict ==> Orderly(w, Ask(n, l, request)) && UpToDate(w, Ask(n, l, request)))
  }

  lemma Asks(from: World, w: World, n: GroupId, l: LeaderId, request: Request, h: Leader, strict: bool) returns (v: World)
    requires Reaches(from, w, strict) && MayAsk(w, n, l, request, strict) && Answered(w, Ask(n, l, request)).0 == h
    ensures Reaches(from, v, strict) && v == NextWorld(w, Ask(n, l, request))
    ensures v.groups == w.groups[n := w.groups[n].(leaders := w.groups[n].leaders[l := h])]
  {
    hide Reaches;
    ReachesNext(from, w, Ask(n, l, request), strict);
    OnlyThisGroup(w, Ask(n, l, request));
    v := NextWorld(w, Ask(n, l, request));
  }

  lemma CommitEffect(g: Group, l: LeaderId)
    requires l in g.leaders && |g.log| < |g.leaders[l].log| && forall k <- g.current :: k == l || (k in g.leaders && !(g.leaders[l].log <= g.leaders[k].log))
    requires l in g.current
    ensures Committed(g, l, |g.leaders[l].log|) == Grown(g, l, g.leaders[l])
  {
    var h := g.leaders[l];
    assert h.log[..|h.log|] == h.log;
    assert (set k <- g.current | k in g.leaders && h.log <= g.leaders[k].log) == {l};
  }

  /** The leader commits its last entry. */
  lemma Commits(from: World, w: World, n: GroupId, l: LeaderId, strict: bool) returns (v: World)
    requires Reaches(from, w, strict) && n in w.groups && l in w.groups[n].leaders && l in w.groups[n].current && |w.groups[n].log| < |w.groups[n].leaders[l].log|
    requires forall k <- w.groups[n].current :: k == l || (k in w.groups[n].leaders && !(w.groups[n].leaders[l].log <= w.groups[n].leaders[k].log))
    ensures Reaches(from, v, strict) && SameSaid(w, v) && GrownAt(w, v, n, l, w.groups[n].leaders[l])
  {
    hide Reaches;
    var step := Commit(n, l, |w.groups[n].leaders[l].log|);
    ReachedOk(from, w, strict);
    CommitEffect(w.groups[n], l);
    ReachesNext(from, w, step, strict);
    OnlyThisGroup(w, step);
    v := NextWorld(w, step);
  }

  lemma GrownTwice(w: World, u: World, v: World, n: GroupId, l: LeaderId, h: Leader)
    requires n in w.groups && u.groups == w.groups[n := w.groups[n].(leaders := w.groups[n].leaders[l := h])] && GrownAt(u, v, n, l, h)
    ensures GrownAt(w, v, n, l, h)
  {
    var k := h.(known := |h.log|);
    assert w.groups[n].leaders[l := h][l := k] == w.groups[n].leaders[l := k];
  }

  lemma CommitsAsked(from: World, w: World, u: World, n: GroupId, l: LeaderId, g: Leader, h: Leader, strict: bool) returns (v: World)
    requires Reaches(from, u, strict) && Lone(w, n, l, g) && u.groups == w.groups[n := w.groups[n].(leaders := w.groups[n].leaders[l := h])] && |g.log| < |h.log|
    ensures Reaches(from, v, strict) && SameSaid(u, v) && GrownAt(w, v, n, l, h)
  {
    hide Reaches;
    v := Commits(from, u, n, l, strict);
    GrownTwice(w, u, v, n, l, h);
  }

  lemma AsksAndCommits(from: World, w: World, n: GroupId, l: LeaderId, g: Leader, request: Request, h: Leader, strict: bool) returns (v: World)
    requires Reaches(from, w, strict) && MayAsk(w, n, l, request, strict) && Lone(w, n, l, g) && Answered(w, Ask(n, l, request)).0 == h && |g.log| < |h.log|
    ensures Reaches(from, v, strict) && SameSaid(NextWorld(w, Ask(n, l, request)), v) && GrownAt(w, v, n, l, h)
  {
    hide Reaches;
    var u := Asks(from, w, n, l, request, h, strict);
    v := CommitsAsked(from, w, u, n, l, g, h, strict);
  }

  // ---- The steps of a transfer ----

  function Preparing(g: Leader, s: GroupId, range: OwnedRange, nonce: Nonce): Leader {
    g.Append(Entry(None, Some(In(s, range, |g.log|)))).(incoming := Some(nonce))
  }

  function Giving(g: Leader, d: GroupId, p: Partition): Leader {
    g.Append(Entry(None, Some(Out(d, p, |g.log|)))).(tree := false)
  }

  function Taking(g: Leader, p: Partition): Leader {
    g.Append(Entry(Some(p), None)).(incoming := None, tree := true)
  }

  lemma Prepares(from: World, w: World, d: GroupId, k: LeaderId, g: Leader, s: GroupId, range: OwnedRange, nonce: Nonce, strict: bool) returns (v: World)
    requires Reaches(from, w, strict) && Lone(w, d, k, g) && g.Last() == Entry(None, None) && s != d && range.Valid() && nonce !in w.nonces
    ensures Reaches(from, v, strict) && GrownAt(w, v, d, k, Preparing(g, s, range, nonce))
    ensures v.stated == w.stated && v.nonces == w.nonces + {nonce} && PreparedStatement(s, d, range, nonce) in v.prepared
  {
    hide Reaches;
    ReachedOk(from, w, strict);
    v := AsksAndCommits(from, w, d, k, g, Prepare(s, range, nonce), Preparing(g, s, range, nonce), strict);
  }

  lemma GivesOut(from: World, w: World, s: GroupId, l: LeaderId, g: Leader, d: GroupId, p: Partition, nonce: Nonce, strict: bool) returns (v: World)
    requires Reaches(from, w, strict) && Lone(w, s, l, g) && g.Last() == Entry(Some(p), None) && s != d && p.range.Valid() && PreparedStatement(s, d, p.range, nonce) in w.prepared
    requires strict ==> NotReceiving(w, s, p.range)
    ensures Reaches(from, v, strict) && GrownAt(w, v, s, l, Giving(g, d, p)) && SameSaid(w, v)
  {
    hide Reaches;
    ReachedOk(from, w, strict);
    v := AsksAndCommits(from, w, s, l, g, TransferOut(d, p.range, nonce, NoProof), Giving(g, d, p), strict);
  }

  predicate IsGiving(w: World, s: GroupId, l: LeaderId, d: GroupId, p: Partition) {
    s in w.groups && l in w.groups[s].leaders && var g := w.groups[s].leaders[l];
    GivesThis(g.Last(), d, p) && g.Last().partition.None? && g.known == |g.log|
  }

  lemma States(from: World, w: World, s: GroupId, l: LeaderId, d: GroupId, p: Partition, nonce: Nonce, strict: bool) returns (v: World)
    requires Reaches(from, w, strict) && s != d && IsGiving(w, s, l, d, p) && (strict ==> l in w.groups[s].current)
    ensures Reaches(from, v, strict) && v.groups == w.groups && v.prepared == w.prepared && v.nonces == w.nonces + {nonce} && TransferStatement(d, p, nonce) in v.stated
  {
    hide Reaches;
    ReachedOk(from, w, strict);
    var g := w.groups[s].leaders[l];
    LastOk(s, g);
    v := Asks(from, w, s, l, State(d, nonce), g, strict);
    assert w.groups[s].leaders[l := g] == w.groups[s].leaders;
  }

  lemma TakesIn(from: World, w: World, d: GroupId, k: LeaderId, g: Leader, s: GroupId, p: Partition, nonce: Nonce, strict: bool) returns (v: World)
    requires Reaches(from, w, strict) && Lone(w, d, k, g) && g.Last().partition.None? && g.Last().transferring.Some? && g.Last().transferring.value.In?
    requires g.Last().transferring.value.source == s && g.Last().transferring.value.range == p.range && g.incoming == Some(nonce) && TransferStatement(d, p, nonce) in w.stated
    ensures Reaches(from, v, strict) && GrownAt(w, v, d, k, Taking(g, p)) && SameSaid(w, v)
  {
    hide Reaches;
    ReachedOk(from, w, strict);
    var request := TransferIn(s, p, nonce, NoProofs);
    LastOk(d, g);
    if strict {
      ReachedFresh(from, w);
      FreshIsOrderly(w, Ask(d, k, request));
    }
    v := AsksAndCommits(from, w, d, k, g, request, Taking(g, p), strict);
  }

  lemma Completes(from: World, w: World, s: GroupId, l: LeaderId, g: Leader, d: GroupId, p: Partition, strict: bool) returns (v: World)
    requires Reaches(from, w, strict) && Lone(w, s, l, g) && s != d && GivesThis(g.Last(), d, p) && g.Last().partition.None?
    requires strict ==> d in w.groups && Whole(LastOf(w.groups[d].log), p.range)
    ensures Reaches(from, v, strict) && GrownAt(w, v, s, l, g.Append(Entry(None, None))) && SameSaid(w, v)
  {
    hide Reaches;
    ReachedOk(from, w, strict);
    v := AsksAndCommits(from, w, s, l, g, Complete(d, p.range), g.Append(Entry(None, None)), strict);
  }

  // ---- Whole transfers ----

  function Known(h: Leader): Leader {
    h.(known := |h.log|)
  }

  ghost predicate NobodyGives(w: World, s: GroupId) {
    forall m, x: Log | m in w.groups && m != s && IsView(w.groups[m], x) :: !GivesTo(LastOf(x), s)
  }

  lemma NobodyGivesStill(w: World, v: World, n: GroupId, l: LeaderId, h: Leader, s: GroupId)
    requires NobodyGives(w, s) && GrownAt(w, v, n, l, h) && !GivesTo(h.Last(), s)
    ensures NobodyGives(v, s)
  {
    forall m, x: Log | m in v.groups && m != s && IsView(v.groups[m], x) ensures !GivesTo(LastOf(x), s) {
      if m == n { LoneView(v.groups[n], l, x); }
    }
  }

  ghost predicate Awaiting(f: Leader, s: GroupId, range: OwnedRange, nonce: Nonce) {
    exists at :: f.Last() == Entry(None, Some(In(s, range, at))) && f.incoming == Some(nonce)
  }

  lemma StatesAndTakes(from: World, w: World, s: GroupId, l: LeaderId, d: GroupId, k: LeaderId, f: Leader, p: Partition, nonce: Nonce, strict: bool) returns (v: World)
    requires Reaches(from, w, strict) && s != d && IsGiving(w, s, l, d, p) && Lone(w, d, k, f) && Awaiting(f, s, p.range, nonce) && (strict ==> l in w.groups[s].current)
    ensures Reaches(from, v, strict) && v.nonces == w.nonces + {nonce} && GrownAt(w, v, d, k, Taking(f, p))
  {
    hide Reaches;
    var u := States(from, w, s, l, d, p, nonce, strict);
    v := TakesIn(from, u, d, k, f, s, p, nonce, strict);
  }

  /** Only the two groups have changed. */
  predicate OnlyBoth(w: World, v: World, s: GroupId, l: LeaderId, g: Leader, d: GroupId, k: LeaderId, f: Leader) {
    && Lone(v, s, l, g) && Lone(v, d, k, f) && s in w.groups && w.groups.Keys == v.groups.Keys && v.groups[s].leaders.Keys == w.groups[s].leaders.Keys
    && forall m <- w.groups | m != s && m != d :: v.groups[m] == w.groups[m]
  }

  lemma BothGrown(w: World, t: World, u: World, v: World, s: GroupId, l: LeaderId, g: Leader, d: GroupId, k: LeaderId, e: Leader, f: Leader)
    requires d in w.groups && s in w.groups && l in w.groups[s].leaders && s != d && GrownAt(w, t, d, k, e) && GrownAt(t, u, s, l, g) && GrownAt(u, v, d, k, f)
    ensures OnlyBoth(w, v, s, l, Known(g), d, k, Known(f))
  {}

  lemma GrownApart(w: World, v: World, n: GroupId, l: LeaderId, h: Leader, m: GroupId, k: LeaderId, f: Leader)
    requires GrownAt(w, v, n, l, h) && m != n && Lone(w, m, k, f)
    ensures Lone(v, m, k, f) && Lone(v, n, l, Known(h))
  {}

  lemma GivesAndTakes(from: World, w: World, s: GroupId, l: LeaderId, g: Leader, d: GroupId, k: LeaderId, f: Leader, p: Partition, nonce: Nonce, strict: bool) returns (u: World, v: World)
    requires Reaches(from, w, strict) && Lone(w, s, l, g) && g.Last() == Entry(Some(p), None) && Lone(w, d, k, f) && Awaiting(f, s, p.range, nonce)
    requires s != d && p.range.Valid() && PreparedStatement(s, d, p.range, nonce) in w.prepared && (strict ==> NotReceiving(w, s, p.range))
    ensures Reaches(from, v, strict) && v.nonces == w.nonces + {nonce} && GrownAt(w, u, s, l, Giving(g, d, p)) && GrownAt(u, v, d, k, Taking(f, p))
  {
    hide Reaches;
    u := GivesOut(from, w, s, l, g, d, p, nonce, strict);
    GrownApart(w, u, s, l, Giving(g, d, p), d, k, f);
    v := StatesAndTakes(from, u, s, l, d, k, f, p, nonce, strict);
  }

  /** Asked in the right order, the groups move a range that the source owns to a destination that owns nothing. */
  lemma TransferMoves(from: World, w: World, s: GroupId, l: LeaderId, g: Leader, d: GroupId, k: LeaderId, f: Leader, p: Partition, nonce: Nonce, strict: bool) returns (v: World)
    requires Reaches(from, w, strict) && Lone(w, s, l, g) && g.Last() == Entry(Some(p), None) && Lone(w, d, k, f) && f.Last() == Entry(None, None)
    requires s != d && p.range.Valid() && nonce !in w.nonces && (strict ==> NobodyGives(w, s))
    ensures Reaches(from, v, strict) && v.nonces == w.nonces + {nonce}
    ensures OnlyBoth(w, v, s, l, Known(Giving(g, d, p)), d, k, Known(Taking(Known(Preparing(f, s, p.range, nonce)), p)))
  {
    hide Reaches;
    var e := Preparing(f, s, p.range, nonce);
    var t := Prepares(from, w, d, k, f, s, p.range, nonce, strict);
    GrownApart(w, t, d, k, e, s, l, g);
    if strict {
      NobodyGivesStill(w, t, d, k, e, s);
      NobodyGivesReceives(t, s, p.range);
    }
    var u;
    u, v := GivesAndTakes(from, t, s, l, g, d, k, Known(e), p, nonce, strict);
    BothGrown(w, t, u, v, s, l, Giving(g, d, p), d, k, e, Taking(Known(e), p));
  }

  lemma NobodyGivesReceives(w: World, s: GroupId, range: OwnedRange)
    requires NobodyGives(w, s)
    ensures NotReceiving(w, s, range)
  {}

  /** A source that has not been told of the completion gives the range once more. */
  lemma GivesAgain(from: World, w: World, s: GroupId, l: LeaderId, d: GroupId, k: LeaderId, f: Leader, p: Partition, nonce: Nonce, g: Leader, c: GroupId, j: LeaderId) returns (v: World)
    requires Reaches(from, w, false) && s != d && p.range.Valid() && nonce !in w.nonces && IsGiving(w, s, l, d, p) && Lone(w, d, k, f) && f.Last() == Entry(None, None)
    requires c != d && Lone(w, c, j, g)
    ensures Reaches(from, v, false) && Lone(v, d, k, Known(Taking(Known(Preparing(f, s, p.range, nonce)), p))) && Lone(v, c, j, g)
  {
    hide Reaches;
    var e := Preparing(f, s, p.range, nonce);
    var t := Prepares(from, w, d, k, f, s, p.range, nonce, false);
    GrownApart(w, t, d, k, e, c, j, g);
    v := StatesAndTakes(from, t, s, l, d, k, Known(e), p, nonce, false);
    GrownApart(t, v, d, k, Taking(Known(e), p), c, j, g);
  }

  // ---- Bad orders ----

  function First(n: GroupId, a: GroupId, records: map<RecordId, Record>): Leader {
    var e := FirstEntry(n, a, records);
    Leader([e], 0, None, e.partition.Some?)
  }

  lemma Starts(w: World, first: GroupId, records: map<RecordId, Record>, strict: bool)
    requires Initial(w, first, records)
    ensures Reaches(w, w, strict)
  {
    InitialOk(w, first, records);
    if strict {
      InitialSafe(w, first, records);
      InitialFresh(w, first, records);
    }
    assert RunsTo(w, [], w, strict);
  }

  lemma StartsLone(w: World, first: GroupId, records: map<RecordId, Record>, n: GroupId)
    requires Initial(w, first, records) && n in w.groups
    ensures Lone(w, n, 0, First(n, first, records)) && w.nonces == {}
  {}

  /** Group `n` owns the partition by its leader's and its committed log. */
  predicate Owns(w: World, n: GroupId, p: Partition) {
    n in w.groups && LastOf(w.groups[n].log) == Entry(Some(p), None)
  }

  predicate GivingAll(g: Leader, d: GroupId, p: Partition) {
    GivesThis(g.Last(), d, p) && g.Last().partition.None? && g.known == |g.log|
  }

  /** A transfer among three groups. */
  lemma MovesPast(from: World, w: World, s: GroupId, g: Leader, d: GroupId, f: Leader, c: GroupId, j: LeaderId, h: Leader, p: Partition, nonce: Nonce, strict: bool)
    returns (v: World, a: Leader, b: Leader)
    requires Reaches(from, w, strict) && Lone(w, s, 0, g) && g.Last() == Entry(Some(p), None) && Lone(w, d, 0, f) && f.Last() == Entry(None, None) && Lone(w, c, j, h)
    requires s != d && c != s && c != d && p.range.Valid() && nonce !in w.nonces && (strict ==> NobodyGives(w, s))
    ensures Reaches(from, v, strict) && v.nonces == w.nonces + {nonce} && OnlyBoth(w, v, s, 0, a, d, 0, b)
    ensures GivingAll(a, d, p) && b.Last() == Entry(Some(p), None) && Lone(v, c, j, h)
  {
    hide Reaches;
    v := TransferMoves(from, w, s, 0, g, d, 0, f, p, nonce, strict);
    a, b := Known(Giving(g, d, p)), Known(Taking(Known(Preparing(f, s, p.range, nonce)), p));
  }

  lemma CompletesPast(from: World, w: World, s: GroupId, g: Leader, d: GroupId, h: Leader, c: GroupId, j: LeaderId, f: Leader, p: Partition, strict: bool) returns (v: World, a: Leader)
    requires Reaches(from, w, strict) && Lone(w, s, 0, g) && GivingAll(g, d, p) && Lone(w, d, 0, h) && Lone(w, c, j, f) && s != d && c != s
    requires strict ==> Whole(h.Last(), p.range)
    ensures Reaches(from, v, strict) && v.nonces == w.nonces && Lone(v, s, 0, a) && a.Last() == Entry(None, None) && Lone(v, d, 0, h) && Lone(v, c, j, f)
    ensures w.groups.Keys == v.groups.Keys && forall m <- w.groups | m != s :: v.groups[m] == w.groups[m]
  {
    hide Reaches;
    v := Completes(from, w, s, 0, g, d, p, strict);
    a := Known(g.Append(Entry(None, None)));
    GrownApart(w, v, s, 0, g.Append(Entry(None, None)), d, 0, h);
    GrownApart(w, v, s, 0, g.Append(Entry(None, None)), c, j, f);
  }

  /** If a group gives a range on before the transfer that brought it has been completed at its source,
      the source can give it once more, and two groups own everything. */
  lemma TwoOwners(w: World, a: GroupId, records: map<RecordId, Record>, b: GroupId, c: GroupId)
    requires Initial(w, a, records) && b in w.groups && c in w.groups && a != b && b != c && a != c
    ensures var p := Partition(OwnedRange(0, MAX_ID), records); exists v :: Reaches(w, v, false) && Owns(v, b, p) && Owns(v, c, p)
  {
    hide Reaches;
    var p := Partition(OwnedRange(0, MAX_ID), records);
    Starts(w, a, records, false);
    StartsLone(w, a, records, a);
    StartsLone(w, a, records, b);
    StartsLone(w, a, records, c);
    var t, a1, b1 := MovesPast(w, w, a, First(a, a, records), b, First(b, a, records), c, 0, First(c, a, records), p, 0, false);
    var v := DoublesAfter(w, t, a, a1, b, b1, c, First(c, a, records), p);
  }

  lemma DoublesAfter(from: World, w: World, a: GroupId, g: Leader, b: GroupId, f: Leader, c: GroupId, h: Leader, p: Partition) returns (v: World)
    requires Reaches(from, w, false) && w.nonces == {0} && a != b && b != c && a != c && p.range.Valid()
    requires Lone(w, a, 0, g) && GivingAll(g, b, p) && Lone(w, b, 0, f) && f.Last() == Entry(Some(p), None) && Lone(w, c, 0, h) && h.Last() == Entry(None, None)
    ensures Reaches(from, v, false) && Owns(v, b, p) && Owns(v, c, p)
  {
    hide Reaches;
    var t, b1, c1 := MovesPast(from, w, b, f, c, h, a, 0, g, p, 1, false);
    var u, b2 := CompletesPast(from, t, b, b1, c, c1, a, 0, g, p, false);
    v := GivesAgain(from, u, a, 0, b, 0, b2, p, 2, c1, c, 0);
  }

  /** Whatever comes to be committed, the group neither owns nor gives anything. */
  ghost predicate HasNothing(g: Group) {
    forall x: Log | IsView(g, x) :: LastOf(x).partition.None? && !Gives(LastOf(x))
  }

  lemma LoneHasNothing(w: World, n: GroupId, l: LeaderId, g: Leader)
    requires Lone(w, n, l, g) && g.Last().partition.None? && !Gives(g.Last())
    ensures HasNothing(w.groups[n])
  {
    forall x: Log | IsView(w.groups[n], x) ensures x == g.log { LoneView(w.groups[n], l, x); }
  }

  ghost predicate NobodyHas(v: World) {
    forall n <- v.groups :: HasNothing(v.groups[n])
  }

  lemma NobodyLeft(w: World, v: World, a: GroupId, records: map<RecordId, Record>, b: GroupId, h: Leader, f: Leader)
    requires Initial(w, a, records) && v.groups.Keys == w.groups.Keys && Lone(v, a, 0, Known(h)) && Lone(v, b, 0, Known(f))
    requires h.Last() == Entry(None, None) && f.Last().partition.None? && !Gives(f.Last())
    requires forall n <- w.groups :: n != a && n != b ==> v.groups[n] == w.groups[n]
    ensures NobodyHas(v)
  {
    forall n | n in v.groups ensures HasNothing(v.groups[n]) {
      if n == a { LoneHasNothing(v, a, 0, Known(h)); }
      else if n == b { LoneHasNothing(v, b, 0, Known(f)); }
      else { StartsLone(w, a, records, n); LoneHasNothing(w, n, 0, First(n, a, records)); }
    }
  }

  /** If a transfer is completed before the range has arrived, the range is lost. */
  lemma LostRange(w: World, a: GroupId, records: map<RecordId, Record>, b: GroupId)
    requires Initial(w, a, records) && b in w.groups && a != b
    ensures exists v :: Reaches(w, v, false) && v.groups.Keys == w.groups.Keys && NobodyHas(v)
  {
    hide Reaches;
    var p := Partition(OwnedRange(0, MAX_ID), records);
    var g, f := First(a, a, records), First(b, a, records);
    Starts(w, a, records, false);
    StartsLone(w, a, records, a);
    StartsLone(w, a, records, b);
    var t := Prepares(w, w, b, 0, f, a, p.range, 0, false);
    GrownApart(w, t, b, 0, Preparing(f, a, p.range, 0), a, 0, g);
    var u := GivesOut(w, t, a, 0, g, b, p, 0, false);
    GrownApart(t, u, a, 0, Giving(g, b, p), b, 0, Known(Preparing(f, a, p.range, 0)));
    var h := Known(Giving(g, b, p));
    var v := Completes(w, u, a, 0, h, b, p, false);
    GrownApart(u, v, a, 0, h.Append(Entry(None, None)), b, 0, Known(Preparing(f, a, p.range, 0)));
    NobodyLeft(w, v, a, records, b, h.Append(Entry(None, None)), Preparing(f, a, p.range, 0));
  }

  // ---- A leader that has been replaced ----

  /** Somebody else starts to lead with the same log. */
  lemma TakesOver(from: World, w: World, n: GroupId, l: LeaderId, g: Leader, j: LeaderId, strict: bool) returns (v: World)
    requires Reaches(from, w, strict) && Lone(w, n, l, g) && j !in w.groups[n].leaders
    ensures Reaches(from, v, strict) && SameSaid(w, v)
    ensures v.groups == w.groups[n := Group(g.log, w.groups[n].leaders[j := Leader(g.log, 0, None, g.Last().partition.Some?)], {l, j})]
  {
    hide Reaches;
    ReachedOk(from, w, strict);
    var step := Lead(n, j, Some(l), |g.log|);
    assert g.log[..|g.log|] == g.log;
    ReachesNext(from, w, step, strict);
    OnlyThisGroup(w, step);
    v := NextWorld(w, step);
    assert {l} + {j} == {l, j};
  }

  function Completing(g: Leader, j: LeaderId): Leader {
    Leader(g.log, 0, None, g.Last().partition.Some?).Append(Entry(None, None))
  }

  lemma AsksAnew(from: World, w: World, u: World, n: GroupId, l: LeaderId, g: Leader, j: LeaderId, d: GroupId, p: Partition) returns (v: World)
    requires Reaches(from, u, true) && n in w.groups && l in w.groups[n].leaders && w.groups[n].leaders[l] == g && j !in w.groups[n].leaders
    requires u.groups == w.groups[n := Group(g.log, w.groups[n].leaders[j := Leader(g.log, 0, None, g.Last().partition.Some?)], {l, j})]
    requires n != d && GivingAll(g, d, p) && d in w.groups && Whole(LastOf(w.groups[d].log), p.range)
    ensures Reaches(from, v, true) && SameSaid(u, v)
    ensures v.groups == u.groups[n := u.groups[n].(leaders := u.groups[n].leaders[j := Completing(g, j)])]
  {
    hide Reaches;
    ReachedOk(from, u, true);
    v := Asks(from, u, n, j, Complete(d, p.range), Completing(g, j), true);
  }

  function Replaced(g: Group, l: LeaderId, j: LeaderId): Group
    requires l in g.leaders
  {
    Group(g.leaders[l].log + [Entry(None, None)], g.leaders[j := Known(Completing(g.leaders[l], j))], {j})
  }

  /** The new leader completes the transfer, and the old one is not told. */
  lemma CompletesAnew(from: World, w: World, n: GroupId, l: LeaderId, g: Leader, j: LeaderId, d: GroupId, p: Partition) returns (v: World)
    requires Reaches(from, w, true) && Lone(w, n, l, g) && j !in w.groups[n].leaders
    requires n != d && GivingAll(g, d, p) && d in w.groups && Whole(LastOf(w.groups[d].log), p.range)
    ensures Reaches(from, v, true) && SameSaid(w, v) && v.groups == w.groups[n := Replaced(w.groups[n], l, j)]
  {
    hide Reaches;
    var u := TakesOver(from, w, n, l, g, j, true);
    var t := AsksAnew(from, w, u, n, l, g, j, d, p);
    var f := Leader(g.log, 0, None, g.Last().partition.Some?);
    var h := Completing(g, j);
    assert t.groups[n] == Group(g.log, w.groups[n].leaders[j := f][j := h], {l, j});
    v := Commits(from, t, n, j, true);
    assert w.groups[n].leaders[j := f][j := h][j := Known(h)] == w.groups[n].leaders[j := Known(h)];
  }

  lemma InitialNobodyGives(w: World, first: GroupId, records: map<RecordId, Record>, s: GroupId)
    requires Initial(w, first, records)
    ensures NobodyGives(w, s)
  {
    forall m, x: Log | m in w.groups && m != s && IsView(w.groups[m], x) ensures !GivesTo(LastOf(x), s) { InitialView(w, first, records, m, x); }
  }

  lemma NobodyGivesNow(w: World, first: GroupId, records: map<RecordId, Record>, v: World, a: GroupId, j: LeaderId, g: Leader, b: GroupId)
    requires Initial(w, first, records) && w.groups.Keys == v.groups.Keys && Lone(v, a, j, g) && !GivesTo(g.Last(), b)
    requires forall m <- w.groups | m != a && m != b :: v.groups[m] == w.groups[m]
    ensures NobodyGives(v, b)
  {
    forall m, x: Log | m in v.groups && m != b && IsView(v.groups[m], x) ensures !GivesTo(LastOf(x), b) {
      if m == a { LoneView(v.groups[a], j, x); } else { InitialView(w, first, records, m, x); }
    }
  }

  /** The old leader makes a statement for the new nonce, and the receiver takes the range it had given on. */
  ghost predicate Doubles(v: World, a: GroupId, b: GroupId, c: GroupId, p: Partition) {
    && AllOk(v) && a in v.groups && 0 !in v.groups[a].current && Owns(v, c, p)
    && var s1, s2 := Ask(a, 0, State(b, 2)), Ask(b, 0, TransferIn(a, p, 2, NoProofs));
       && Possible(v, s1) && Orderly(v, s1) && AllOk(NextWorld(v, s1)) && Possible(NextWorld(v, s1), s2) && AllOk(NextWorld(NextWorld(v, s1), s2))
       && var y := NextWorld(NextWorld(v, s1), s2);
          Owns(y, c, p) && b in y.groups && 0 in y.groups[b].leaders && 0 in y.groups[b].current && y.groups[b].leaders[0].Last() == Entry(Some(p), None)
  }

  lemma SameGroup(groups: map<GroupId, Group>, a: GroupId, l: LeaderId, g: Leader)
    requires a in groups && l in groups[a].leaders && groups[a].leaders[l] == g
    ensures groups[a := groups[a].(leaders := groups[a].leaders[l := g])] == groups
  {
    assert groups[a].leaders[l := g] == groups[a].leaders;
  }

  lemma StatedAgain(v: World, a: GroupId, g: Leader, b: GroupId, p: Partition)
    requires AllOk(v) && a in v.groups && 0 in v.groups[a].leaders && v.groups[a].leaders[0] == g && 0 !in v.groups[a].current && GivingAll(g, b, p) && a != b
    ensures var s1 := Ask(a, 0, State(b, 2));
            && Possible(v, s1) && Orderly(v, s1) && AllOk(NextWorld(v, s1))
            && NextWorld(v, s1).groups == v.groups && TransferStatement(b, p, 2) in NextWorld(v, s1).stated
  {
    var s1 := Ask(a, 0, State(b, 2));
    LastOk(a, g);
    NextOk(v, s1);
    hide AllOk;
    OnlyThisGroup(v, s1);
    SameGroup(v.groups, a, 0, g);
  }

  lemma TakenAgain(u: World, a: GroupId, b: GroupId, f: Leader, p: Partition)
    requires AllOk(u) && Lone(u, b, 0, f) && Awaiting(f, a, p.range, 2) && TransferStatement(b, p, 2) in u.stated
    ensures var s2 := Ask(b, 0, TransferIn(a, p, 2, NoProofs));
            && Possible(u, s2) && AllOk(NextWorld(u, s2)) && NextWorld(u, s2).groups == u.groups[b := u.groups[b].(leaders := u.groups[b].leaders[0 := Taking(f, p)])]
  {
    var s2 := Ask(b, 0, TransferIn(a, p, 2, NoProofs));
    LastOk(b, f);
    NextOk(u, s2);
    hide AllOk;
    assert After(u, b, f, s2.request) == (Taking(f, p), Done);
    OnlyThisGroup(u, s2);
  }

  lemma DoublesNow(v: World, a: GroupId, g: Leader, b: GroupId, f: Leader, c: GroupId, p: Partition)
    requires AllOk(v) && a in v.groups && 0 in v.groups[a].leaders && v.groups[a].leaders[0] == g && 0 !in v.groups[a].current && GivingAll(g, b, p) && a != b && b != c
    requires Lone(v, b, 0, f) && Awaiting(f, a, p.range, 2) && Owns(v, c, p)
    ensures Doubles(v, a, b, c, p)
  {
    StatedAgain(v, a, g, b, p);
    TakenAgain(NextWorld(v, Ask(a, 0, State(b, 2))), a, b, f, p);
  }

  /** The range goes on in order, and its receiver waits for it once more. */
  lemma GoesOn(from: World, w: World, a: GroupId, j: LeaderId, h: Leader, b: GroupId, f: Leader, c: GroupId, g: Leader, p: Partition) returns (v: World, e: Leader)
    requires Reaches(from, w, true) && w.nonces == {0} && NobodyGives(w, b) && a != b && b != c && a != c && p.range.Valid()
    requires Lone(w, a, j, h) && Lone(w, b, 0, f) && f.Last() == Entry(Some(p), None) && Lone(w, c, 0, g) && g.Last() == Entry(None, None)
    ensures Reaches(from, v, true) && a in v.groups && v.groups[a] == w.groups[a] && Lone(v, b, 0, e) && Awaiting(e, a, p.range, 2) && Owns(v, c, p)
  {
    hide Reaches;
    var y, b2, c2 := MovesPast(from, w, b, f, c, g, a, j, h, p, 1, true);
    var z, b3 := CompletesPast(from, y, b, b2, c, c2, a, j, h, p, true);
    v := Prepares(from, z, b, 0, b3, a, p.range, 2, true);
    e := Known(Preparing(b3, a, p.range, 2));
    GrownApart(z, v, b, 0, Preparing(b3, a, p.range, 2), c, 0, c2);
  }

  /** The range goes to `b`, and a new leader of `a` completes that without the old one. */
  lemma ReplacedAfter(w: World, a: GroupId, records: map<RecordId, Record>, b: GroupId, c: GroupId, p: Partition) returns (v: World, g: Leader, h: Leader, f: Leader)
    requires Initial(w, a, records) && b in w.groups && c in w.groups && a != b && b != c && a != c && p == Partition(OwnedRange(0, MAX_ID), records)
    ensures Reaches(w, v, true) && v.nonces == {0} && NobodyGives(v, b)
    ensures Lone(v, a, 1, h) && 0 in v.groups[a].leaders && v.groups[a].leaders[0] == g && GivingAll(g, b, p)
    ensures Lone(v, b, 0, f) && f.Last() == Entry(Some(p), None) && Lone(v, c, 0, First(c, a, records))
  {
    hide Reaches;
    Starts(w, a, records, true);
    StartsLone(w, a, records, a);
    StartsLone(w, a, records, b);
    StartsLone(w, a, records, c);
    InitialNobodyGives(w, a, records, a);
    var t;
    t, g, f := MovesPast(w, w, a, First(a, a, records), b, First(b, a, records), c, 0, First(c, a, records), p, 0, true);
    v := CompletesAnew(w, t, a, 0, g, 1, b, p);
    h := Known(Completing(g, 1));
    NobodyGivesNow(w, a, records, v, a, 1, h, b);
  }

  /** A leader of the source that has been replaced and does not know can have the range taken once more, though
      all steps before are orderly and all statements before were made by leaders in office. */
  lemma ReplacedLeader(w: World, a: GroupId, records: map<RecordId, Record>, b: GroupId, c: GroupId)
    requires Initial(w, a, records) && b in w.groups && c in w.groups && a != b && b != c && a != c
    ensures exists v :: Reaches(w, v, true) && Doubles(v, a, b, c, Partition(OwnedRange(0, MAX_ID), records))
  {
    hide Reaches;
    var p := Partition(OwnedRange(0, MAX_ID), records);
    var u, g, h, f := ReplacedAfter(w, a, records, b, c, p);
    var v, e := GoesOn(w, u, a, 1, h, b, f, c, First(c, a, records), p);
    ReachedOk(w, v, true);
    DoublesNow(v, a, g, b, e, c, p);
  }

  // ---- A proof that is refused ----

  lemma StaleAnswer(w: World, a: GroupId, g: Leader, b: GroupId, p: Partition, nonce: Nonce)
    requires g.Last() == Entry(Some(p), None) && p.range == OwnedRange(0, MAX_ID) && g.tree && a != b && PreparedStatement(a, b, OwnedRange(0, 0), nonce) in w.prepared
    ensures After(w, a, g, TransferOut(b, OwnedRange(0, 0), nonce, StalePath)).1 == StaleProof
  {}

  /** A leader whose split is refused because the proof is stale panics when it is asked again. */
  lemma RetryPanics(w: World, a: GroupId, records: map<RecordId, Record>, b: GroupId, proof: SplitProof)
    requires Initial(w, a, records) && b in w.groups && a != b && !proof.NoProof? && !proof.OtherKey?
    ensures exists v, nonce :: Reaches(w, v, true) && TransferTrees.RetryPanicsAt(v, a, 0, b, OwnedRange(0, 0), nonce, proof)
  {
    hide Reaches;
    var g, f := First(a, a, records), First(b, a, records);
    Starts(w, a, records, true);
    StartsLone(w, a, records, a);
    StartsLone(w, a, records, b);
    var v := Prepares(w, w, b, 0, f, a, OwnedRange(0, 0), 0, true);
    GrownApart(w, v, b, 0, Preparing(f, a, OwnedRange(0, 0), 0), a, 0, g);
    ReachedOk(w, v, true);
    StaleAnswer(v, a, g, b, Partition(OwnedRange(0, MAX_ID), records), 0);
    TransferTrees.RetriedProofPanics(v, a, 0, b, OwnedRange(0, 0), 0, proof);
  }
}
