/**
 The five-step protocol that moves the ownership of a range from one group to
 another: the handlers of a group's leader.
 */
module OwnershipTransfer {
  import opened Wrappers
  import opened OwnedRanges

  type GroupId = nat
  type LeaderId = nat
  type Nonce = nat
  type Record = nat

  /** A range and the records of the tree that goes with it. */
  datatype Partition = Partition(range: OwnedRange, records: map<RecordId, Record>)

  datatype Transferring =
    | In(source: GroupId, range: OwnedRange, at: nat)
    | Out(destination: GroupId, partition: Partition, at: nat)

  datatype Entry = Entry(partition: Option<Partition>, transferring: Option<Transferring>)

  type Log = s: seq<Entry> | s != [] witness [Entry(None, None)]

  function LastOf(log: Log): Entry {
    log[|log| - 1]
  }

  /** A leader's log, how much of it it knows to be committed, its nonce for an incoming transfer, and whether
      it has the tree of its partition. */
  datatype Leader = Leader(log: Log, known: nat, incoming: Option<Nonce>, tree: bool) {
    function Last(): Entry {
      LastOf(log)
    }

    function Append(e: Entry): Leader {
      this.(log := log + [e])
    }
  }

  datatype Response =
    | Done | Panic | InvalidGroup | UnacceptableRange | OtherTransferPending | NotOwner | InvalidStatement
    | NotTransferring | Busy | NotPrepared | InvalidNonce | MissingProof | StaleProof | InvalidProof

  /** What comes with a request to split a tree: no proof, one for another key, or one that the tree
      finds to be stale, wrong, malformed so that it panics, or right. */
  datatype SplitProof = NoProof | OtherKey | StalePath | WrongPath | BrokenPath | RightPath

  /** What comes with a request to merge trees: no proofs, those of another tree, or proofs that are found to be
      stale or wrong, that are malformed or clash so that merging panics, or that are right. */
  datatype MergeProofs = NoProofs | OtherTree | StalePaths | WrongPaths | BrokenPaths | RightPaths

  // ---- The leader's handlers ----

  /** Ranges in the log are valid, which the source asserts before joining or splitting them. */
  predicate Ranged(e: Entry) {
    && (e.partition.Some? ==> e.partition.value.range.Valid())
    && (e.transferring.Some? && e.transferring.value.In? ==> e.transferring.value.range.Valid())
  }

  function HandlePrepare(g: Leader, source: GroupId, destination: GroupId, range: OwnedRange, nonce: Nonce): (Leader, Response)
    requires Ranged(g.Last())
  {
    if destination == source then (g, InvalidGroup)
    else if !range.Valid() then (g, UnacceptableRange)
    else
      var last := g.Last();
      match last.transferring
      case None =>
        if last.partition.Some? && last.partition.value.range.Join(range).None? then (g, UnacceptableRange)
        else (g.Append(Entry(last.partition, Some(In(source, range, |g.log|)))).(incoming := Some(nonce)), Done)
      case Some(Out(_, _, _)) => (g, OtherTransferPending)
      case Some(In(s, r, _)) =>
        if s == source && r == range then (g.(incoming := Some(nonce)), Done) else (g, OtherTransferPending)
  }

  function Restrict(records: map<RecordId, Record>, range: OwnedRange): map<RecordId, Record> {
    map id <- records | range.start <= id <= range.end :: records[id]
  }

  function Part(p: Partition, range: OwnedRange): Partition {
    Partition(range, Restrict(p.records, range))
  }

  /** What is kept and what goes when a range leaves a partition; none where the source would panic. */
  function Divide(p: Partition, range: OwnedRange, key: RecordId): Option<(Partition, Partition)>
    requires key > 0
  {
    var left, right := OwnedRange(p.range.start, key - 1), OwnedRange(key, p.range.end);
    if left == range then Some((Part(p, right), Part(p, left)))
    else if right == range then Some((Part(p, left), Part(p, right)))
    else None
  }

  /** Splits the tree of the last entry; a proof that is refused costs the leader its tree. */
  function SplitOff(g: Leader, destination: GroupId, range: OwnedRange, proof: SplitProof): (Leader, Response)
    requires Ranged(g.Last()) && g.Last().partition.Some? && range.Valid()
  {
    if proof.NoProof? then (g, MissingProof)
    else
      var p := g.Last().partition.value;
      match p.range.SplitAt(range)
      case None => (g, NotOwner)
      case Some(key) =>
        if proof.OtherKey? then (g, MissingProof)
        else if !g.tree then (g, Panic)
        else if proof.StalePath? then (g.(tree := false), StaleProof)
        else if proof.WrongPath? then (g.(tree := false), InvalidProof)
        else if proof.BrokenPath? then (g, Panic)
        else match Divide(p, range, key)
          case None => (g, Panic)
          case Some((keeping, going)) => (g.Append(Entry(Some(keeping), Some(Out(destination, going, |g.log|)))), Done)
  }

  function HandleTransferOut(g: Leader, source: GroupId, destination: GroupId, range: OwnedRange, genuine: bool, proof: SplitProof): (Leader, Response)
    requires Ranged(g.Last())
  {
    if source == destination then (g, InvalidGroup)
    else if !range.Valid() then (g, NotOwner)
    else if !genuine then (g, InvalidStatement)
    else
      var last := g.Last();
      match last.transferring
      case Some(In(_, _, _)) => (g, OtherTransferPending)
      case Some(Out(d, p, _)) => if d == destination && p.range == range then (g, Done) else (g, OtherTransferPending)
      case None =>
        if last.partition.None? then (g, NotOwner)
        else if last.partition.value.range != range then SplitOff(g, destination, range, proof)
        else (g.Append(Entry(None, Some(Out(destination, last.partition.value, |g.log|)))).(tree := false), Done)
  }

  /** The partition about which the leader makes a statement. */
  function HandleStatement(g: Leader, source: GroupId, destination: GroupId): (Option<Partition>, Response) {
    if source == destination then (None, InvalidGroup)
    else match g.Last().transferring
      case Some(Out(d, p, at)) =>
        if d != destination then (None, NotTransferring)
        else if g.known <= at then (None, Busy)
        else (Some(p), Done)
      case _ => (None, NotTransferring)
  }

  function Merged(p: Partition, q: Partition): Option<Partition>
    requires p.range.Valid() && q.range.Valid()
  {
    match p.range.Join(q.range)
    case None => None
    case Some(range) => Some(Partition(range, p.records + q.records))
  }

  /** Merges the trees; proofs that are refused cost the leader its tree. */
  function MergeIn(g: Leader, merged: Partition, proofs: MergeProofs): (Leader, Response) {
    if !g.tree then (g, Panic)
    else match proofs
      case StalePaths => (g.(tree := false), StaleProof)
      case WrongPaths => (g.(tree := false), InvalidProof)
      case BrokenPaths => (g, Panic)
      case _ => (g.Append(Entry(Some(merged), None)), Done)
  }

  function HandleTransferIn(g: Leader, source: GroupId, p: Partition, nonce: Nonce, genuine: bool, proofs: MergeProofs): (Leader, Response)
    requires Ranged(g.Last())
  {
    var last := g.Last();
    match last.transferring
    case Some(In(s, r, _)) =>
      if r != p.range || s != source then (g, NotPrepared)
      else if g.incoming != Some(nonce) then (g, InvalidNonce)
      else
        var h := g.(incoming := None);
        if last.partition.None? then
          if !genuine then (h, InvalidStatement) else (h.Append(Entry(Some(p), None)).(tree := true), Done)
        else
          var merged := Merged(last.partition.value, p);
          if merged.None? then (h, Panic)
          else if proofs.NoProofs? then (h, MissingProof)
          else if proofs.OtherTree? then (h, InvalidProof)
          else if !genuine then (h, InvalidStatement)
          else MergeIn(h, merged.value, proofs)
    case _ => (g, NotPrepared)
  }

  function HandleComplete(g: Leader, source: GroupId, destination: GroupId, range: OwnedRange): (Leader, Response) {
    if source == destination then (g, InvalidGroup)
    else match g.Last().transferring
      case Some(Out(d, p, _)) =>
        if d == destination && p.range == range then (g.Append(Entry(g.Last().partition, None)), Done) else (g, NotTransferring)
      case _ => (g, NotTransferring)
  }

  function HandleCancel(g: Leader, source: GroupId, range: OwnedRange): (Leader, Response) {
    match g.Last().transferring
    case Some(In(s, r, _)) =>
      if r == range && s == source then (g.Append(Entry(g.Last().partition, None)).(incoming := None), Done) else (g, NotPrepared)
    case _ => (g, NotPrepared)
  }

  /** An application request that stores a record; the transfer in progress is carried along. */
  function HandleWrite(g: Leader, id: RecordId, value: Record): (Leader, Response)
    requires Ranged(g.Last())
  {
    var last := g.Last();
    if last.partition.None? || !last.partition.value.range.Contains(id) then (g, NotOwner)
    else if !g.tree then (g, Panic)
    else
      var p := last.partition.value;
      (g.Append(last.(partition := Some(p.(records := p.records[id := value])))), Done)
  }

  // ---- A leader by itself, whatever it is asked ----

  predicate Holds(e: Entry, id: RecordId) {
    e.partition.Some? && e.partition.value.range.start <= id <= e.partition.value.range.end
  }

  predicate Apart(a: OwnedRange, b: OwnedRange) {
    a.end < b.start || b.end < a.start
  }

  /** The entry owns nothing of the range, or all of it. */
  predicate Clear(e: Entry, r: OwnedRange) {
    e.partition.Some? ==> Apart(e.partition.value.range, r)
  }

  predicate Whole(e: Entry, r: OwnedRange) {
    e.partition.Some? && e.partition.value.range.start <= r.start && r.end <= e.partition.value.range.end
  }

  predicate Gives(e: Entry) {
    e.transferring.Some? && e.transferring.value.Out?
  }

  function Given(e: Entry): Partition
    requires Gives(e)
  {
    e.transferring.value.partition
  }

  predicate GivesTo(e: Entry, d: GroupId) {
    Gives(e) && e.transferring.value.destination == d
  }

  predicate Awaits(e: Entry) {
    e.transferring.Some? && e.transferring.value.In?
  }

  /** An entry of group `n`: what it gives is not its own any more, and what it awaits it can take. */
  predicate EntryOk(n: GroupId, e: Entry, i: int) {
    && Ranged(e)
    && (Gives(e) ==> !GivesTo(e, n) && Given(e).range.Valid() && e.transferring.value.at <= i && Clear(e, Given(e).range))
    && (Awaits(e) && e.partition.Some? ==> e.partition.value.range.Join(e.transferring.value.range).Some?)
  }

  ghost predicate LogOk(n: GroupId, log: Log) {
    && (forall i | 0 <= i < |log| :: EntryOk(n, log[i], i))
    && (forall i, k | 0 <= k <= i < |log| && Gives(log[i]) && log[i].transferring.value.at <= k :: log[k].transferring == log[i].transferring)
  }

  ghost predicate LeaderOk(n: GroupId, g: Leader) {
    LogOk(n, g.log) && g.known <= |g.log| && (g.incoming.Some? ==> Awaits(g.Last())) && (g.tree ==> g.Last().partition.Some?)
  }

  lemma LastOk(n: GroupId, g: Leader)
    requires LeaderOk(n, g)
    ensures EntryOk(n, g.Last(), |g.log| - 1)
  {}

  lemma AppendOk(n: GroupId, g: Leader, e: Entry, h: Leader)
    requires LeaderOk(n, g) && EntryOk(n, e, |g.log|) && h.log == g.log + [e] && h.known == g.known
    requires (h.incoming.Some? ==> Awaits(e)) && (h.tree ==> e.partition.Some?)
    requires Gives(e) ==> e.transferring == g.Last().transferring || e.transferring.value.at == |g.log|
    ensures LeaderOk(n, h)
  {
    forall i, k | 0 <= k <= i < |h.log| && Gives(h.log[i]) && h.log[i].transferring.value.at <= k ensures h.log[k].transferring == h.log[i].transferring {
      if i < |g.log| {} else if k < |g.log| { assert Gives(g.log[|g.log| - 1]); }
    }
  }

  /** A split at the right key gives the range and the rest. */
  lemma DivideIsExact(p: Partition, range: OwnedRange)
    requires p.range.Valid() && range.Valid() && p.range.SplitAt(range).Some?
    ensures var key := p.range.SplitAt(range).value; key > 0 && Divide(p, range, key).Some?
    ensures var (keeping, going) := Divide(p, range, p.range.SplitAt(range).value).value;
            && going == Part(p, range) && keeping.range.Valid() && Apart(keeping.range, range)
            && (forall id: RecordId :: p.range.Contains(id) <==> keeping.range.Contains(id) || range.Contains(id))
            && keeping == Part(p, keeping.range)
  {}

  /** A transfer is prepared exactly if nothing else is in progress and the group could take the range; then the
      group waits for it under the new nonce, and owns what it owned. */
  lemma PrepareOutcome(n: GroupId, g: Leader, source: GroupId, range: OwnedRange, nonce: Nonce)
    requires LeaderOk(n, g)
    ensures Ranged(g.Last())
    ensures var (h, r) := HandlePrepare(g, source, n, range, nonce);
            && LeaderOk(n, h) && h.Last().partition == g.Last().partition && r != Panic
            && (r != Done ==> h == g)
            && (r == Done ==> h.incoming == Some(nonce) && Awaits(h.Last()) && h.Last().transferring.value.range == range)
            && (r == Done <==> source != n && range.Valid()
                               && if g.Last().transferring.None? then g.Last().partition.Some? ==> g.Last().partition.value.range.Join(range).Some?
                                  else Awaits(g.Last()) && g.Last().transferring.value.source == source && g.Last().transferring.value.range == range)
  {
    LastOk(n, g);
    var (h, r) := HandlePrepare(g, source, n, range, nonce);
    if h.log != g.log { AppendOk(n, g, h.Last(), h); }
  }

  /** Where the answer needs the tree. */
  predicate Splits(g: Leader, n: GroupId, d: GroupId, range: OwnedRange, genuine: bool, proof: SplitProof) {
    && n != d && range.Valid() && genuine && g.Last().transferring.None? && g.Last().partition.Some?
    && g.Last().partition.value.range.Valid() && g.Last().partition.value.range != range
    && g.Last().partition.value.range.SplitAt(range).Some? && !proof.NoProof? && !proof.OtherKey?
  }

  /** Giving a range takes exactly its ids from the group; the handler panics exactly if it has to split a tree
      that it does not have or with a malformed proof, and loses the tree exactly if it refuses the proof. */
  lemma TransferOutOutcome(n: GroupId, g: Leader, d: GroupId, range: OwnedRange, genuine: bool, proof: SplitProof)
    requires LeaderOk(n, g)
    ensures Ranged(g.Last())
    ensures var (h, r) := HandleTransferOut(g, n, d, range, genuine, proof);
            && LeaderOk(n, h) && (r == Panic <==> Splits(g, n, d, range, genuine, proof) && (!g.tree || proof.BrokenPath?))
            && (r in {StaleProof, InvalidProof} <==> Splits(g, n, d, range, genuine, proof) && g.tree && (proof.StalePath? || proof.WrongPath?))
            && (h.log == g.log || (h.log == g.log + [h.Last()] && KeepsRest(g.Last(), h.Last()) && Given(h.Last()).range == range && GivesTo(h.Last(), d)))
  {
    LastOk(n, g);
    var (h, r) := HandleTransferOut(g, n, d, range, genuine, proof);
    if g.Last().transferring.None? && g.Last().partition.Some? {
      var p := g.Last().partition.value;
      if p.range != range && range.Valid() && p.range.SplitAt(range).Some? { DivideIsExact(p, range); }
      if h.log != g.log { AppendOk(n, g, h.Last(), h); }
    }
  }

  /** The entry has all that the last one had, except for the range that it gives. */
  ghost predicate KeepsRest(last: Entry, e: Entry) {
    && last.transferring.None? && Gives(e) && Whole(last, Given(e).range)
    && (e.partition.Some? ==> Whole(last, e.partition.value.range))
    && forall id: RecordId :: Holds(last, id) ==> Holds(e, id) || Given(e).range.start <= id <= Given(e).range.end
  }

  /** Where the answer needs the tree. */
  predicate Merges(g: Leader, source: GroupId, p: Partition, nonce: Nonce, genuine: bool, proofs: MergeProofs) {
    && Awaits(g.Last()) && g.Last().transferring.value.range == p.range && g.Last().transferring.value.source == source
    && g.incoming == Some(nonce) && genuine && g.Last().partition.Some? && !proofs.NoProofs? && !proofs.OtherTree?
  }

  /** Taking a range adds exactly its ids: the ranges can be joined whatever has happened since the transfer was
      prepared. The handler panics exactly if it has to merge with a tree that it does not have or with broken
      proofs, and loses the tree exactly if it refuses the proofs. */
  lemma TransferInOutcome(n: GroupId, g: Leader, source: GroupId, p: Partition, nonce: Nonce, genuine: bool, proofs: MergeProofs)
    requires LeaderOk(n, g)
    ensures Ranged(g.Last())
    ensures var (h, r) := HandleTransferIn(g, source, p, nonce, genuine, proofs);
            && LeaderOk(n, h) && (r == Panic <==> Merges(g, source, p, nonce, genuine, proofs) && (!g.tree || proofs.BrokenPaths?))
            && (!h.tree && g.tree <==> Merges(g, source, p, nonce, genuine, proofs) && g.tree && (proofs.StalePaths? || proofs.WrongPaths?))
            && (h.log == g.log || (h.log == g.log + [h.Last()] && p.range.Valid() && Joined(g.Last(), p, h.Last()) && genuine && g.incoming == Some(nonce)))
  {
    LastOk(n, g);
    var (h, r) := HandleTransferIn(g, source, p, nonce, genuine, proofs);
    if h.log != g.log { AppendOk(n, g, h.Last(), h); }
  }

  predicate Joined(last: Entry, p: Partition, e: Entry)
    requires Ranged(last) && p.range.Valid()
  {
    && Awaits(last) && last.transferring.value.range == p.range
    && (last.partition.Some? ==> last.partition.value.range.Join(p.range).Some?)
    && e == Entry(if last.partition.None? then Some(p) else Merged(last.partition.value, p), None)
  }

  /** Completing and cancelling end the transfer and change nothing else. */
  lemma EndOutcome(n: GroupId, g: Leader, m: GroupId, range: OwnedRange)
    requires LeaderOk(n, g)
    ensures var (h, r) := HandleComplete(g, n, m, range);
            && LeaderOk(n, h) && r != Panic && (r != Done ==> h == g)
            && (r == Done <==> n != m && GivesTo(g.Last(), m) && Given(g.Last()).range == range)
            && (r == Done ==> h == g.Append(Entry(g.Last().partition, None)))
    ensures var (h, r) := HandleCancel(g, m, range);
            && LeaderOk(n, h) && r != Panic && (r != Done ==> h == g)
            && (r == Done <==> Awaits(g.Last()) && g.Last().transferring.value.source == m && g.Last().transferring.value.range == range)
            && (r == Done ==> h == g.Append(Entry(g.Last().partition, None)).(incoming := None))
  {
    LastOk(n, g);
    var (a, r) := HandleComplete(g, n, m, range);
    var (b, q) := HandleCancel(g, m, range);
    if r == Done { AppendOk(n, g, a.Last(), a); }
    if q == Done { AppendOk(n, g, b.Last(), b); }
  }

  lemma WriteOutcome(n: GroupId, g: Leader, id: RecordId, value: Record)
    requires LeaderOk(n, g)
    ensures Ranged(g.Last())
    ensures var (h, r) := HandleWrite(g, id, value);
            && LeaderOk(n, h) && (r == Panic <==> Holds(g.Last(), id) && !g.tree) && (r != Done ==> h == g)
            && (r == Done ==> Holds(g.Last(), id) && h == g.Append(h.Last()) && WritesTo(g.Last(), h.Last(), id, value))
  {
    LastOk(n, g);
    var (h, r) := HandleWrite(g, id, value);
    if r == Done { AppendOk(n, g, h.Last(), h); }
  }

  predicate WritesTo(last: Entry, e: Entry, id: RecordId, x: Record) {
    Holds(last, id) && e == last.(partition := Some(last.partition.value.(records := last.partition.value.records[id := x])))
  }

  /** A statement is made exactly about what the leader's last entry gives and the leader knows to be committed. */
  lemma StatementOutcome(n: GroupId, g: Leader, d: GroupId)
    requires LeaderOk(n, g)
    ensures var (p, r) := HandleStatement(g, n, d);
            && (r == Done <==> GivesTo(g.Last(), d) && g.Last().transferring.value.at < g.known) && (r == Done <==> p.Some?)
            && (r == Done ==> n != d && p == Some(Given(g.Last())) && forall i | g.known <= i + 1 <= |g.log| :: 0 <= i && g.log[i].transferring == g.Last().transferring)
  {}

  // ---- The handlers as they run ----

  /** The leader's volatile state, updated in place by the requests. Every handler leaves it valid. */
  class LeaderState {
    const group: GroupId
    var log: Log
    var known: nat
    var incoming: Option<Nonce>
    var tree: bool

    /** A new leader starts from the log that it has captured. */
    constructor (group: GroupId, log: Log)
      requires LogOk(group, log)
      ensures this.group == group && Valid() && State() == Leader(log, 0, None, LastOf(log).partition.Some?)
    {
      this.group, this.log, known, incoming, tree := group, log, 0, None, LastOf(log).partition.Some?;
    }

    function State(): Leader
      reads this
    {
      Leader(log, known, incoming, tree)
    }

    ghost predicate Valid()
      reads this
    {
      LeaderOk(group, State())
    }

    method Append(partition: Option<Partition>, transferring: Option<Transferring>)
      modifies this
      ensures State() == old(State()).Append(Entry(partition, transferring))
    {
      log := log + [Entry(partition, transferring)];
    }

    method PrepareTransfer(source: GroupId, range: OwnedRange, nonce: Nonce) returns (r: Response)
      requires Valid()
      modifies this
      ensures Valid() && (State(), r) == HandlePrepare(old(State()), source, group, range, nonce)
      ensures LastOf(log).partition == LastOf(old(log)).partition && r != Panic
    {
      PrepareOutcome(group, State(), source, range, nonce);
      if group == source { return InvalidGroup; }
      if !range.Valid() { return UnacceptableRange; }
      var last := LastOf(log);
      match last.transferring {
        case None =>
          if last.partition.Some? {
            var joined := last.partition.value.range.Join(range);
            if joined.None? { return UnacceptableRange; }
          }
          Append(last.partition, Some(In(source, range, |log|)));
        case Some(Out(_, _, _)) => return OtherTransferPending;
        case Some(In(s, t, _)) => if s != source || t != range { return OtherTransferPending; }
      }
      incoming := Some(nonce);
      return Done;
    }

    method TransferOut(destination: GroupId, range: OwnedRange, genuine: bool, proof: SplitProof) returns (r: Response)
      requires Valid()
      modifies this
      ensures Valid() && (State(), r) == HandleTransferOut(old(State()), group, destination, range, genuine, proof)
      ensures r == Panic <==> Splits(old(State()), group, destination, range, genuine, proof) && (!old(tree) || proof.BrokenPath?)
    {
      TransferOutOutcome(group, State(), destination, range, genuine, proof);
      if group == destination { return InvalidGroup; }
      if !range.Valid() { return NotOwner; }
      if !genuine { return InvalidStatement; }
      var last := LastOf(log);
      match last.transferring {
        case None =>
        case Some(In(_, _, _)) => return OtherTransferPending;
        case Some(Out(d, p, _)) => return if d == destination && p.range == range then Done else OtherTransferPending;
      }
      if last.partition.None? { return NotOwner; }
      var p := last.partition.value;
      var keeping, going := None, p;
      if p.range != range {
        if proof.NoProof? { return MissingProof; }
        var key := p.range.SplitAt(range);
        if key.None? { return NotOwner; }
        if proof.OtherKey? { return MissingProof; }
        if !tree || proof.BrokenPath? { return Panic; }
        if proof.StalePath? {
          tree := false;
          return StaleProof;
        }
        if proof.WrongPath? {
          tree := false;
          return InvalidProof;
        }
        var parts := Divide(p, range, key.value);
        if parts.None? { return Panic; }
        keeping, going := Some(parts.value.0), parts.value.1;
      }
      tree := keeping.Some?;
      Append(keeping, Some(Out(destination, going, |log|)));
      return Done;
    }

    method MakeStatement(destination: GroupId) returns (p: Option<Partition>, r: Response)
      requires Valid()
      ensures (p, r) == HandleStatement(State(), group, destination)
      ensures p.Some? <==> GivesTo(LastOf(log), destination) && LastOf(log).transferring.value.at < known
    {
      StatementOutcome(group, State(), destination);
      if group == destination { return None, InvalidGroup; }
      match LastOf(log).transferring {
        case Some(Out(d, q, at)) =>
          if d != destination { return None, NotTransferring; }
          if known <= at { return None, Busy; }
          return Some(q), Done;
        case _ => return None, NotTransferring;
      }
    }

    method TransferIn(source: GroupId, p: Partition, nonce: Nonce, genuine: bool, proofs: MergeProofs) returns (r: Response)
      requires Valid()
      modifies this
      ensures Valid() && (State(), r) == HandleTransferIn(old(State()), source, p, nonce, genuine, proofs)
      ensures r == Panic <==> Merges(old(State()), source, p, nonce, genuine, proofs) && (!old(tree) || proofs.BrokenPaths?)
    {
      TransferInOutcome(group, State(), source, p, nonce, genuine, proofs);
      var last := LastOf(log);
      match last.transferring {
        case Some(In(s, t, _)) => if t != p.range || s != source { return NotPrepared; }
        case _ => return NotPrepared;
      }
      if incoming != Some(nonce) { return InvalidNonce; }
      incoming := None;
      var partition := Some(p);
      if last.partition.Some? {
        partition := Merged(last.partition.value, p);
        if partition.None? { return Panic; }
        if proofs.NoProofs? { return MissingProof; }
        if proofs.OtherTree? { return InvalidProof; }
      }
      if !genuine { return InvalidStatement; }
      if last.partition.Some? {
        if !tree || proofs.BrokenPaths? { return Panic; }
        tree := false;
        if proofs.StalePaths? { return StaleProof; }
        if proofs.WrongPaths? { return InvalidProof; }
      }
      Append(partition, None);
      tree := true;
      return Done;
    }

    method CompleteTransfer(destination: GroupId, range: OwnedRange) returns (r: Response)
      requires Valid()
      modifies this
      ensures Valid() && (State(), r) == HandleComplete(old(State()), group, destination, range)
      ensures LastOf(log).partition == LastOf(old(log)).partition && tree == old(tree)
    {
      EndOutcome(group, State(), destination, range);
      if group == destination { return InvalidGroup; }
      match LastOf(log).transferring {
        case Some(Out(d, p, _)) => if d != destination || p.range != range { return NotTransferring; }
        case _ => return NotTransferring;
      }
      Append(LastOf(log).partition, None);
      return Done;
    }

    method CancelPreparedTransfer(source: GroupId, range: OwnedRange) returns (r: Response)
      requires Valid()
      modifies this
      ensures Valid() && (State(), r) == HandleCancel(old(State()), source, range)
      ensures LastOf(log).partition == LastOf(old(log)).partition && tree == old(tree)
    {
      EndOutcome(group, State(), source, range);
      match LastOf(log).transferring {
        case Some(In(s, t, _)) => if t != range || s != source { return NotPrepared; }
        case _ => return NotPrepared;
      }
      Append(LastOf(log).partition, None);
      incoming := None;
      return Done;
    }
  }
}
