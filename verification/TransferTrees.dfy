/** A leader that refuses a proof loses its tree, and panics when it needs the tree next. */
module TransferTrees {
  import opened Wrappers
  import opened OwnedRanges
  import opened OwnershipTransfer
  import opened TransferRealm
  import opened TransferExact

  /** A leader has its tree exactly if it owns a partition, as is documented. */
  predicate HasTree(g: Leader) {
    g.tree <==> g.Last().partition.Some?
  }

  /** The answer takes more than the leader's log. */
  predicate NeedsTree(w: World, n: GroupId, g: Leader, request: Request) {
    match request
    case TransferOut(d, range, nonce, proof) => Splits(g, n, d, range, PreparedStatement(n, d, range, nonce) in w.prepared, proof)
    case TransferIn(s, p, nonce, proofs) => Merges(g, s, p, nonce, TransferStatement(n, p, nonce) in w.stated, proofs)
    case Write(id, _) => Holds(g.Last(), id)
    case _ => false
  }

  /** The proofs make the tree panic. */
  predicate Breaks(request: Request) {
    (request.TransferOut? && request.proof.BrokenPath?) || (request.TransferIn? && request.proofs.BrokenPaths?)
  }

  /** The tree finds the proofs to be stale or wrong. */
  predicate Refuses(request: Request) {
    (request.TransferOut? && (request.proof.StalePath? || request.proof.WrongPath?))
    || (request.TransferIn? && (request.proofs.StalePaths? || request.proofs.WrongPaths?))
  }

  /** An answer panics exactly if it needs a tree that the leader does not have, or its proofs are broken. */
  lemma PanicIsExact(w: World, n: GroupId, g: Leader, request: Request)
    requires LeaderOk(n, g)
    ensures Ranged(g.Last())
    ensures After(w, n, g, request).1 == Panic <==> NeedsTree(w, n, g, request) && (!g.tree || Breaks(request))
  {
    LastOk(n, g);
    match request {
      case Prepare(s, range, nonce) => PrepareOutcome(n, g, s, range, nonce);
      case TransferOut(d, range, nonce, proof) => TransferOutOutcome(n, g, d, range, PreparedStatement(n, d, range, nonce) in w.prepared, proof);
      case TransferIn(s, p, nonce, proofs) => TransferInOutcome(n, g, s, p, nonce, TransferStatement(n, p, nonce) in w.stated, proofs);
      case Write(id, value) => WriteOutcome(n, g, id, value);
      case _ =>
    }
  }

  /** Which leaders lack their tree after the request. */
  lemma TreeAfter(w: World, n: GroupId, g: Leader, request: Request, refused: bool)
    requires LeaderOk(n, g) && Ranged(g.Last()) && TreeKnown(g, refused)
    ensures TreeKnown(After(w, n, g, request).0, Refused(w, n, g, request, refused))
  {
    if request.TransferOut? && Splits(g, n, request.destination, request.range, PreparedStatement(n, request.destination, request.range, request.nonce) in w.prepared, request.proof) {
      DivideIsExact(g.Last().partition.value, request.range);
    }
  }

  /** A proof has been refused, and the leader has owned something ever since. */
  predicate Refused(w: World, n: GroupId, g: Leader, request: Request, before: bool)
    requires Ranged(g.Last())
  {
    After(w, n, g, request).0.Last().partition.Some? && (before || (NeedsTree(w, n, g, request) && Refuses(request)))
  }

  // ---- Runs ----

  type Refusals = set<(GroupId, LeaderId)>

  function Marked(refused: Refusals, n: GroupId, l: LeaderId, again: bool): Refusals {
    if again then refused + {(n, l)} else refused - {(n, l)}
  }

  lemma MarkedSame(refused: Refusals, n: GroupId, l: LeaderId)
    ensures Marked(refused, n, l, (n, l) in refused) == refused
  {}

  function NextRefusals(w: World, step: Step, refused: Refusals): Refusals
    requires AllOk(w) && Possible(w, step)
  {
    if !step.Ask? then refused
    else
      var n, l := step.group, step.leader;
      var g := w.groups[n].leaders[l];
      LastOk(n, g);
      Marked(refused, n, l, Refused(w, n, g, step.request, (n, l) in refused))
  }

  /** No request that needs the tree is made to a leader after it has refused a proof, for as long as it owns
      anything, and no proofs are broken. */
  ghost predicate IsGentleRun(w: World, steps: seq<Step>, refused: Refusals)
    requires IsRun(w, steps)
    decreases |steps|
  {
    steps != [] ==>
      && (steps[0].Ask? && NeedsTree(w, steps[0].group, w.groups[steps[0].group].leaders[steps[0].leader], steps[0].request) ==>
            (steps[0].group, steps[0].leader) !in refused && !Breaks(steps[0].request))
      && IsGentleRun(NextWorld(w, steps[0]), steps[1..], NextRefusals(w, steps[0], refused))
  }

  ghost predicate PanicFree(w: World, steps: seq<Step>)
    requires IsRun(w, steps)
    decreases |steps|
  {
    steps != [] ==> (steps[0].Ask? ==> Answered(w, steps[0]).1 != Panic) && PanicFree(NextWorld(w, steps[0]), steps[1..])
  }

  ghost predicate TreesKnown(w: World, refused: Refusals) {
    && (forall n, l | n in w.groups && l in w.groups[n].leaders :: TreeKnown(w.groups[n].leaders[l], (n, l) in refused))
    && (forall x <- refused :: x.0 in w.groups && x.1 in w.groups[x.0].leaders)
  }

  predicate TreeKnown(g: Leader, refused: bool) {
    (refused ==> g.Last().partition.Some?) && (g.tree <==> g.Last().partition.Some? && !refused)
  }

  lemma TreesPut(w: World, n: GroupId, l: LeaderId, h: Leader, v: World, refused: Refusals, again: bool)
    requires TreesKnown(w, refused) && n in w.groups && n in v.groups && v.groups == w.groups[n := v.groups[n]]
    requires v.groups[n].leaders == w.groups[n].leaders[l := h] && TreeKnown(h, again)
    ensures TreesKnown(v, Marked(refused, n, l, again))
  {
    var after := Marked(refused, n, l, again);
    forall m, k | m in v.groups && k in v.groups[m].leaders ensures TreeKnown(v.groups[m].leaders[k], (m, k) in after) {
      if m != n || k != l { assert TreeKnown(w.groups[m].leaders[k], (m, k) in refused); }
    }
  }

  lemma AskTreesKnown(w: World, step: Step, refused: Refusals)
    requires AllOk(w) && Possible(w, step) && step.Ask? && TreesKnown(w, refused)
    ensures TreesKnown(NextWorld(w, step), NextRefusals(w, step, refused))
  {
    var n, l := step.group, step.leader;
    var g := w.groups[n].leaders[l];
    OnlyThisGroup(w, step);
    LastOk(n, g);
    assert TreeKnown(g, (n, l) in refused);
    TreeAfter(w, n, g, step.request, (n, l) in refused);
    TreesPut(w, n, l, Answered(w, step).0, NextWorld(w, step), refused, Refused(w, n, g, step.request, (n, l) in refused));
  }

  lemma CommitTreesKnown(w: World, step: Step, refused: Refusals)
    requires AllOk(w) && Possible(w, step) && step.Commit? && TreesKnown(w, refused)
    ensures TreesKnown(NextWorld(w, step), refused)
  {
    var n, l := step.group, step.leader;
    OnlyThisGroup(w, step);
    assert TreeKnown(w.groups[n].leaders[l], (n, l) in refused);
    TreesPut(w, n, l, w.groups[n].leaders[l].(known := step.count), NextWorld(w, step), refused, (n, l) in refused);
    MarkedSame(refused, n, l);
  }

  lemma LeadTreesKnown(w: World, step: Step, refused: Refusals)
    requires AllOk(w) && Possible(w, step) && step.Lead? && TreesKnown(w, refused)
    ensures TreesKnown(NextWorld(w, step), refused)
  {
    var n, l := step.group, step.leader;
    OnlyThisGroup(w, step);
    assert (n, l) !in refused;
    MarkedSame(refused, n, l);
    TreesPut(w, n, l, NextGroup(w, step).leaders[l], NextWorld(w, step), refused, false);
  }

  lemma NextTreesKnown(w: World, step: Step, refused: Refusals)
    requires AllOk(w) && Possible(w, step) && TreesKnown(w, refused)
    ensures TreesKnown(NextWorld(w, step), NextRefusals(w, step, refused))
  {
    match step {
      case Ask(_, _, _) => AskTreesKnown(w, step, refused);
      case Commit(_, _, _) => CommitTreesKnown(w, step, refused);
      case Lead(_, _, _, _) => LeadTreesKnown(w, step, refused);
    }
  }

  lemma {:induction false} GentleFrom(w: World, steps: seq<Step>, refused: Refusals)
    requires IsRun(w, steps) && TreesKnown(w, refused)
    ensures PanicFree(w, steps) <==> IsGentleRun(w, steps, refused)
    decreases |steps|
  {
    if steps != [] {
      if steps[0].Ask? {
        var n, l := steps[0].group, steps[0].leader;
        PanicIsExact(w, n, w.groups[n].leaders[l], steps[0].request);
        assert TreeKnown(w.groups[n].leaders[l], (n, l) in refused);
      }
      NextTreesKnown(w, steps[0], refused);
      GentleFrom(NextWorld(w, steps[0]), steps[1..], NextRefusals(w, steps[0], refused));
    }
  }

  lemma InitialTrees(w: World, first: GroupId, records: map<RecordId, Record>)
    requires Initial(w, first, records)
    ensures TreesKnown(w, {})
  {
    forall n, l | n in w.groups && l in w.groups[n].leaders ensures TreeKnown(w.groups[n].leaders[l], false) {
      assert w.groups[n] == Start(FirstEntry(n, first, records));
    }
  }

  /** A run is free of panics exactly if it is gentle. */
  lemma PanicFreeIsExact(w: World, first: GroupId, records: map<RecordId, Record>, steps: seq<Step>)
    requires Initial(w, first, records) && IsRun(w, steps)
    ensures PanicFree(w, steps) <==> IsGentleRun(w, steps, {})
  {
    InitialTrees(w, first, records);
    GentleFrom(w, steps, {});
  }

  /** A split is refused because of a stale proof, and asking for it again panics. */
  ghost predicate RetryPanicsAt(w: World, n: GroupId, l: LeaderId, d: GroupId, range: OwnedRange, nonce: Nonce, proof: SplitProof) {
    && AllOk(w) && Possible(w, Ask(n, l, TransferOut(d, range, nonce, StalePath)))
    && Answered(w, Ask(n, l, TransferOut(d, range, nonce, StalePath))).1 == StaleProof
    && var v := NextWorld(w, Ask(n, l, TransferOut(d, range, nonce, StalePath)));
       && AllOk(v) && Possible(v, Ask(n, l, TransferOut(d, range, nonce, proof)))
       && !HasTree(v.groups[n].leaders[l]) && Answered(v, Ask(n, l, TransferOut(d, range, nonce, proof))).1 == Panic
  }

  /** A refused proof makes the leader lose its tree, so asking the same again with any proof panics. */
  lemma RetriedProofPanics(w: World, n: GroupId, l: LeaderId, d: GroupId, range: OwnedRange, nonce: Nonce, proof: SplitProof)
    requires AllOk(w) && Possible(w, Ask(n, l, TransferOut(d, range, nonce, StalePath))) && !proof.NoProof? && !proof.OtherKey?
    requires Answered(w, Ask(n, l, TransferOut(d, range, nonce, StalePath))).1 == StaleProof
    ensures RetryPanicsAt(w, n, l, d, range, nonce, proof)
  {
    var step, g := Ask(n, l, TransferOut(d, range, nonce, StalePath)), w.groups[n].leaders[l];
    NextOk(w, step);
    OnlyThisGroup(w, step);
    LastOk(n, g);
    TransferOutOutcome(n, g, d, range, PreparedStatement(n, d, range, nonce) in w.prepared, StalePath);
    TransferOutOutcome(n, g.(tree := false), d, range, PreparedStatement(n, d, range, nonce) in w.prepared, proof);
  }
}
