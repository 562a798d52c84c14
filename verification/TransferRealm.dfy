/** The groups of a realm during ownership transfers, asked anything at any time. */
module TransferRealm {
  import opened Wrappers
  import opened OwnedRanges
  import opened OwnershipTransfer

  /** The committed log, all who have ever led the group, and those whose log could still be committed. */
  datatype Group = Group(log: Log, leaders: map<LeaderId, Leader>, current: set<LeaderId>)

  datatype PreparedStatement = PreparedStatement(source: GroupId, destination: GroupId, range: OwnedRange, nonce: Nonce)

  /** It names the receiver and not the giver. */
  datatype TransferStatement = TransferStatement(destination: GroupId, partition: Partition, nonce: Nonce)

  /** The groups, and the statements and nonces there have been. */
  datatype World = World(groups: map<GroupId, Group>, prepared: set<PreparedStatement>, stated: set<TransferStatement>, nonces: set<Nonce>)

  datatype Request =
    | Prepare(source: GroupId, range: OwnedRange, nonce: Nonce)
    | TransferOut(destination: GroupId, range: OwnedRange, nonce: Nonce, proof: SplitProof)
    | State(destination: GroupId, nonce: Nonce)
    | TransferIn(source: GroupId, partition: Partition, nonce: Nonce, proofs: MergeProofs)
    | Complete(destination: GroupId, range: OwnedRange)
    | Cancel(source: GroupId, range: OwnedRange)
    | Write(id: RecordId, value: Record)

  /** Some leader of a group is asked something, or has its entries committed, or somebody starts to lead with
      entries that are committed or were some leader's. */
  datatype Step =
    | Ask(group: GroupId, leader: LeaderId, request: Request)
    | Commit(group: GroupId, leader: LeaderId, count: nat)
    | Lead(group: GroupId, leader: LeaderId, from: Option<LeaderId>, count: nat)

  // ---- Steps ----

  ghost predicate GroupOk(n: GroupId, g: Group) {
    && LogOk(n, g.log)
    && (forall l <- g.leaders :: LeaderOk(n, g.leaders[l]) && g.leaders[l].log[..g.leaders[l].known] <= g.log)
    && (forall l <- g.current :: l in g.leaders && g.log <= g.leaders[l].log)
  }

  ghost predicate AllOk(w: World) {
    forall n <- w.groups :: GroupOk(n, w.groups[n])
  }

  /** Nonces are new. Only a leader whose log extends the committed one commits more of it, and others learn
      what is committed; nobody leads twice. */
  predicate Possible(w: World, step: Step) {
    step.group in w.groups && var g := w.groups[step.group];
    match step
    case Ask(_, l, request) => l in g.leaders && (request.Prepare? ==> request.nonce !in w.nonces)
    case Commit(_, l, count) =>
      l in g.leaders && count <= |g.leaders[l].log| && ((l in g.current && |g.log| <= count) || g.leaders[l].log[..count] <= g.log)
    case Lead(_, l, from, count) =>
      l !in g.leaders && 0 < count && if from.None? then count <= |g.log| else from.value in g.leaders && count <= |g.leaders[from.value].log|
  }

  function After(w: World, n: GroupId, g: Leader, request: Request): (Leader, Response)
    requires Ranged(g.Last())
  {
    match request
    case Prepare(source, range, nonce) => HandlePrepare(g, source, n, range, nonce)
    case TransferOut(d, range, nonce, proof) => HandleTransferOut(g, n, d, range, PreparedStatement(n, d, range, nonce) in w.prepared, proof)
    case State(d, _) => (g, HandleStatement(g, n, d).1)
    case TransferIn(source, p, nonce, proofs) => HandleTransferIn(g, source, p, nonce, TransferStatement(n, p, nonce) in w.stated, proofs)
    case Complete(d, range) => HandleComplete(g, n, d, range)
    case Cancel(source, range) => HandleCancel(g, source, range)
    case Write(id, value) => HandleWrite(g, id, value)
  }

  function Committed(g: Group, l: LeaderId, count: nat): Group
    requires l in g.leaders && count <= |g.leaders[l].log|
  {
    var log: Log := if |g.log| < count then g.leaders[l].log[..count] else g.log;
    Group(log, g.leaders[l := g.leaders[l].(known := count)], set k <- g.current | k in g.leaders && log <= g.leaders[k].log)
  }

  function Led(g: Group, l: LeaderId, from: Option<LeaderId>, count: nat): Group
    requires 0 < count && if from.None? then count <= |g.log| else from.value in g.leaders && count <= |g.leaders[from.value].log|
  {
    var log: Log := if from.None? then g.log[..count] else g.leaders[from.value].log[..count];
    var current := (from.None? || from.value in g.current) && |g.log| <= count;
    Group(g.log, g.leaders[l := Leader(log, 0, None, LastOf(log).partition.Some?)], if current then g.current + {l} else g.current)
  }

  function Answered(w: World, step: Step): (Leader, Response)
    requires AllOk(w) && Possible(w, step) && step.Ask?
  {
    LastOk(step.group, w.groups[step.group].leaders[step.leader]);
    After(w, step.group, w.groups[step.group].leaders[step.leader], step.request)
  }

  function NextGroup(w: World, step: Step): Group
    requires AllOk(w) && Possible(w, step)
  {
    var g := w.groups[step.group];
    match step
    case Ask(_, l, _) => g.(leaders := g.leaders[l := Answered(w, step).0])
    case Commit(_, l, count) => Committed(g, l, count)
    case Lead(_, l, from, count) => Led(g, l, from, count)
  }

  function NextWorld(w: World, step: Step): World
    requires AllOk(w) && Possible(w, step)
  {
    var v := w.(groups := w.groups[step.group := NextGroup(w, step)]);
    if !step.Ask? || Answered(w, step).1 != Done then v
    else match step.request
      case Prepare(s, range, nonce) =>
        v.(prepared := w.prepared + {PreparedStatement(s, step.group, range, nonce)}, nonces := w.nonces + {nonce})
      case State(d, nonce) =>
        v.(stated := w.stated + {TransferStatement(d, HandleStatement(w.groups[step.group].leaders[step.leader], step.group, d).0.value, nonce)},
           nonces := w.nonces + {nonce})
      case _ => v
  }

  lemma OnlyThisGroup(w: World, step: Step)
    requires AllOk(w) && Possible(w, step)
    ensures NextWorld(w, step).groups == w.groups[step.group := NextGroup(w, step)] && NextWorld(w, step).groups.Keys == w.groups.Keys
  {}

  lemma AfterOk(w: World, n: GroupId, g: Leader, request: Request)
    requires LeaderOk(n, g)
    ensures Ranged(g.Last()) && LeaderOk(n, After(w, n, g, request).0)
  {
    LastOk(n, g);
    match request {
      case Prepare(s, range, nonce) => PrepareOutcome(n, g, s, range, nonce);
      case TransferOut(d, range, nonce, proof) => TransferOutOutcome(n, g, d, range, PreparedStatement(n, d, range, nonce) in w.prepared, proof);
      case State(_, _) =>
      case TransferIn(s, p, nonce, proofs) => TransferInOutcome(n, g, s, p, nonce, TransferStatement(n, p, nonce) in w.stated, proofs);
      case Complete(d, range) => EndOutcome(n, g, d, range);
      case Cancel(s, range) => EndOutcome(n, g, s, range);
      case Write(id, value) => WriteOutcome(n, g, id, value);
    }
  }

  lemma AfterShape(w: World, n: GroupId, g: Leader, request: Request)
    requires Ranged(g.Last())
    ensures var h := After(w, n, g, request).0; h.known == g.known && (h.log == g.log || h.log == g.log + [h.Last()])
  {}

  lemma AnsweredOk(w: World, step: Step)
    requires AllOk(w) && Possible(w, step) && step.Ask?
    ensures var g, h := w.groups[step.group].leaders[step.leader], Answered(w, step).0;
            LeaderOk(step.group, h) && h.known == g.known && (h.log == g.log || h.log == g.log + [h.Last()])
  {
    AfterOk(w, step.group, w.groups[step.group].leaders[step.leader], step.request);
    AfterShape(w, step.group, w.groups[step.group].leaders[step.leader], step.request);
  }

  lemma PrefixOk(n: GroupId, log: Log, count: nat)
    requires LogOk(n, log) && 0 < count <= |log|
    ensures LogOk(n, log[..count])
  {}

  lemma CommittedOk(n: GroupId, g: Group, l: LeaderId, count: nat)
    requires GroupOk(n, g) && l in g.leaders && count <= |g.leaders[l].log| && ((l in g.current && |g.log| <= count) || g.leaders[l].log[..count] <= g.log)
    ensures GroupOk(n, Committed(g, l, count)) && g.log <= Committed(g, l, count).log
  {
    if |g.log| < count { PrefixOk(n, g.leaders[l].log, count); }
    var log := Committed(g, l, count).log;
    assert g.leaders[l].log[..count] <= log;
    forall k | k in g.leaders ensures g.leaders[k].log[..g.leaders[k].known] <= log {}
  }

  lemma LedOk(n: GroupId, g: Group, l: LeaderId, from: Option<LeaderId>, count: nat)
    requires GroupOk(n, g) && l !in g.leaders && 0 < count
    requires if from.None? then count <= |g.log| else from.value in g.leaders && count <= |g.leaders[from.value].log|
    ensures GroupOk(n, Led(g, l, from, count))
  {
    PrefixOk(n, if from.None? then g.log else g.leaders[from.value].log, count);
  }

  lemma NextOk(w: World, step: Step)
    requires AllOk(w) && Possible(w, step)
    ensures AllOk(NextWorld(w, step))
  {
    var n, g := step.group, w.groups[step.group];
    match step {
      case Ask(_, l, _) => AnsweredOk(w, step);
      case Commit(_, l, count) => CommittedOk(n, g, l, count);
      case Lead(_, l, from, count) => LedOk(n, g, l, from, count);
    }
    OnlyThisGroup(w, step);
  }

  // ---- Logs that may come to be committed ----

  predicate Leads(g: Group, l: LeaderId, x: Log) {
    l in g.current && l in g.leaders && g.log <= x && x <= g.leaders[l].log
  }

  /** The committed log, or part of a leader's that extends it. */
  ghost predicate IsView(g: Group, x: Log) {
    x == g.log || exists l :: Leads(g, l, x)
  }

  lemma ViewOk(n: GroupId, g: Group, x: Log)
    requires GroupOk(n, g) && IsView(g, x)
    ensures g.log <= x && LogOk(n, x) && EntryOk(n, LastOf(x), |x| - 1)
  {
    if x != g.log {
      var l :| Leads(g, l, x);
      PrefixOk(n, g.leaders[l].log, |x|);
      assert g.leaders[l].log[..|x|] == x;
    }
  }

  lemma ViewPrefix(g: Group, x: Log, y: Log)
    requires IsView(g, x) && g.log <= y <= x
    ensures IsView(g, y)
  {
    if x != g.log {
      var l :| Leads(g, l, x);
      assert Leads(g, l, y);
    }
  }

  /** Somebody whose log could still be committed has added an entry. */
  ghost predicate Extended(g: Group, h: Group, x: Log, e: Entry) {
    IsView(g, x) && h.log == g.log && forall y: Log :: IsView(h, y) ==> IsView(g, y) || y == x + [e]
  }

  ghost predicate NoMore(g: Group, h: Group) {
    forall y: Log :: IsView(h, y) ==> IsView(g, y)
  }

  lemma SameLogNoMore(g: Group, l: LeaderId, h: Leader)
    requires l in g.leaders && (h.log == g.leaders[l].log || l !in g.current)
    ensures NoMore(g, g.(leaders := g.leaders[l := h]))
  {
    var f := g.(leaders := g.leaders[l := h]);
    forall y: Log | IsView(f, y) ensures IsView(g, y) {
      if y != g.log { var k :| Leads(f, k, y); assert Leads(g, k, y); }
    }
  }

  lemma CommittedNoMore(n: GroupId, g: Group, l: LeaderId, count: nat)
    requires GroupOk(n, g) && l in g.leaders && count <= |g.leaders[l].log| && ((l in g.current && |g.log| <= count) || g.leaders[l].log[..count] <= g.log)
    ensures NoMore(g, Committed(g, l, count))
  {
    var f := Committed(g, l, count);
    CommittedOk(n, g, l, count);
    forall y: Log | IsView(f, y) ensures IsView(g, y) {
      if y == f.log {
        if f.log != g.log { assert Leads(g, l, y); }
      } else {
        var k :| Leads(f, k, y);
        assert Leads(g, k, y);
      }
    }
  }

  lemma LedNoMore(n: GroupId, g: Group, l: LeaderId, from: Option<LeaderId>, count: nat)
    requires GroupOk(n, g) && l !in g.leaders && 0 < count
    requires if from.None? then count <= |g.log| else from.value in g.leaders && count <= |g.leaders[from.value].log|
    ensures NoMore(g, Led(g, l, from, count))
  {
    var f := Led(g, l, from, count);
    forall y: Log | IsView(f, y) ensures IsView(g, y) {
      if y != g.log {
        var k :| Leads(f, k, y);
        if k == l {
          assert from.Some? && Leads(g, from.value, y);
        } else {
          assert Leads(g, k, y);
        }
      }
    }
  }

  lemma AppendedExtends(g: Group, l: LeaderId, h: Leader)
    requires l in g.current && l in g.leaders && g.log <= g.leaders[l].log && h.log == g.leaders[l].log + [h.Last()]
    ensures Extended(g, g.(leaders := g.leaders[l := h]), g.leaders[l].log, h.Last())
    ensures IsView(g.(leaders := g.leaders[l := h]), h.log)
  {
    var f, x := g.(leaders := g.leaders[l := h]), g.leaders[l].log;
    assert Leads(g, l, x) && Leads(f, l, h.log);
    forall y: Log | IsView(f, y) ensures IsView(g, y) || y == h.log {
      if y != g.log {
        var k :| Leads(f, k, y);
        if k == l && y != h.log { assert y <= x; }
        if y != h.log { assert Leads(g, k, y); }
      }
    }
  }
}
