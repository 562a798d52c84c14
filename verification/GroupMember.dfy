/**
 One HSM's state for one replication group, and what each request does to it.

 A request either answers, possibly after changing the state, or makes the HSM
 panic. Panics are explicit so that the conditions for them can be stated.
 */
module GroupMember {
  import opened Wrappers
  import opened MacChain
  import opened Election

  // ---- State ----

  datatype LeaderLogEntry = LeaderLogEntry(entry: LogEntry, response: Option<nat>)

  /** A contiguous series of log entries, never empty. */
  type LeaderLog = seq<LeaderLogEntry>

  datatype Capture = Capture(index: nat, mac: EntryMac)

  datatype Role =
    | Witness
    | Leader(log: LeaderLog, committed: Option<nat>, starting: nat)
    | SteppingDown(log: LeaderLog, committed: Option<nat>, abandoned: seq<EntryMac>,
                   stepdownAt: nat, leaderStarting: nat)

  /** `persisted` survives a restart; everything after it is volatile. */
  datatype Member = Member(id: HsmId, persisted: Option<Capture>, captured: Option<Capture>, role: Role, clock: nat)

  datatype Reply<+R> = Panic | Reply(member: Member, response: R)

  predicate LogsValid(m: Member) {
    !m.role.Witness? ==> ValidLog(m.role.log)
  }

  // ---- The leader's log ----

  function FirstIndex(log: LeaderLog): nat
    requires log != []
  {
    log[0].entry.index
  }

  function LastIndex(log: LeaderLog): nat
    requires log != []
  {
    log[|log| - 1].entry.index
  }

  predicate Follows(e: LogEntry, last: LogEntry) {
    e.index == last.index + 1 && e.prevMac == last.entryMac
  }

  predicate ValidLog(log: LeaderLog) {
    && log != []
    && (forall i :: 0 <= i < |log| ==> ValidMac(log[i].entry) && WellIndexed(log[i].entry.entryMac))
    && (forall i :: 0 < i < |log| ==> Follows(log[i].entry, log[i - 1].entry))
  }

  /** Looks an entry up by its offset from the first index. */
  function GetIndex(log: LeaderLog, index: nat): Option<LeaderLogEntry>
    requires ValidLog(log)
  {
    IndexesContiguous(log);
    if index < FirstIndex(log) || index > LastIndex(log) then None
    else Some(log[index - FirstIndex(log)])
  }

  /** That finds the entry a search would find. */
  lemma GetIndexIsSearch(log: LeaderLog, index: nat)
    requires ValidLog(log)
    ensures var r := GetIndex(log, index);
            if r.Some? then r.value in log && r.value.entry.index == index else forall x <- log :: x.entry.index != index
  {
    IndexesContiguous(log);
  }

  lemma {:induction false} IndexesContiguous(log: LeaderLog)
    requires ValidLog(log)
    ensures forall i :: 0 <= i < |log| ==> log[i].entry.index == FirstIndex(log) + i
    ensures LastIndex(log) == FirstIndex(log) + |log| - 1
  {
    if |log| > 1 {
      IndexesContiguous(log[..|log| - 1]);
      assert Follows(log[|log| - 1].entry, log[|log| - 2].entry);
    }
  }

  /** An entry of the log precedes every later entry of the log. */
  lemma {:induction false} LogOnChain(log: LeaderLog, i: nat, j: nat)
    requires ValidLog(log) && i <= j < |log|
    ensures OnChain(log[i].entry.entryMac, log[j].entry.entryMac)
  {
    if i < j {
      LogOnChain(log, i, j - 1);
      assert Follows(log[j].entry, log[j - 1].entry);
    }
  }

  /** The part of the log up to and including `index`. */
  function UpTo(log: LeaderLog, index: nat): (keep: LeaderLog)
    requires ValidLog(log) && FirstIndex(log) <= index
    ensures keep <= log && ValidLog(keep) && FirstIndex(keep) == FirstIndex(log)
    ensures LastIndex(keep) == if index < LastIndex(log) then index else LastIndex(log)
  {
    if index >= LastIndex(log) then log
    else IndexesContiguous(log); log[..index - FirstIndex(log) + 1]
  }

  /** The MACs of a log's entries, last first. */
  function MacsInReverse(log: LeaderLog): seq<EntryMac> {
    if log == [] then [] else [log[|log| - 1].entry.entryMac] + MacsInReverse(log[..|log| - 1])
  }

  // ---- Creating and joining a group, restarting, persisting ----

  function FirstEntry(id: HsmId, payload: Payload): LogEntry {
    BuildEntry(id, FIRST_INDEX, payload, ZeroMac)
  }

  function Lead(e: LogEntry): Role {
    Leader([LeaderLogEntry(e, None)], None, e.index + 1)
  }

  function NewGroup(id: HsmId, payload: Payload): Member {
    Member(id, None, None, Lead(FirstEntry(id, payload)), 1)
  }

  function JoinGroup(id: HsmId): Member {
    Member(id, None, None, Witness, 1)
  }

  function Restart(m: Member): Member {
    Member(m.id, m.persisted, m.persisted, Witness, 1)
  }

  function Persist(m: Member): Member {
    if m.captured.Some? then m.(persisted := m.captured) else m
  }

  // ---- Roles ----

  function MakeWitness(m: Member): Member {
    if m.role.Witness? then m else m.(role := Witness, clock := m.clock + 1)
  }

  datatype BecomeLeaderResponse = LeaderOk | InvalidMac | NotCaptured(have: Option<nat>) | StepdownInProgress

  function BecomeLeader(m: Member, last: LogEntry): Reply<BecomeLeaderResponse> {
    var p := Persist(m);
    if p.role.SteppingDown? then Reply(p, StepdownInProgress)
    else if p.persisted.None? then Reply(p, NotCaptured(None))
    else if last.index != p.persisted.value.index || last.entryMac != p.persisted.value.mac then
      Reply(p, NotCaptured(Some(p.persisted.value.index)))
    else if !ValidMac(last) then Reply(p, InvalidMac)
    else if p.role.Leader? then Reply(p, LeaderOk)
    else Reply(p.(role := Lead(last), clock := p.clock + 1), LeaderOk)
  }

  /** The entry the leader adds next; its MAC chains to the end of its log. */
  function NextEntry(m: Member, payload: Payload): LogEntry
    requires m.role.Leader? && m.role.log != []
  {
    var last := m.role.log[|m.role.log| - 1].entry;
    BuildEntry(m.id, last.index + 1, payload, last.entryMac)
  }

  function AppendNext(m: Member, payload: Payload, response: Option<nat>): Member
    requires m.role.Leader? && m.role.log != []
  {
    m.(role := Leader(m.role.log + [LeaderLogEntry(NextEntry(m, payload), response)], m.role.committed, m.role.starting))
  }

  /** Gives up leadership at `index`. What the log holds beyond it is abandoned;
      a log that starts beyond it cannot be cut, which is a panic. */
  function StepDownAt(m: Member, index: nat): (r: Reply<()>)
    requires m.role.Leader? && ValidLog(m.role.log)
    ensures r.Reply? ==> LogsValid(r.member)
  {
    var log := m.role.log;
    if m.role.committed == Some(index) && LastIndex(log) == index then
      Reply(MakeWitness(m), ())
    else if index < FirstIndex(log) then Panic
    else
      var keep := UpTo(log, index);
      Reply(m.(role := SteppingDown(keep, m.role.committed, MacsInReverse(log[|keep|..]), index, m.role.starting),
               clock := m.clock + 1), ())
  }

  // ---- Capturing ----

  datatype LogEntryStatus = Same | PriorIndex | FutureIndex | EntryMacMismatch

  function HasLogDiverged(log: LeaderLog, captured: LogEntry): LogEntryStatus
    requires ValidLog(log)
  {
    if captured.index < FirstIndex(log) then PriorIndex
    else if captured.index > LastIndex(log) then FutureIndex
    else
      IndexesContiguous(log);
      if log[captured.index - FirstIndex(log)].entry.entryMac != captured.entryMac then EntryMacMismatch else Same
  }

  datatype CaptureNextResponse = CaptureOk | MissingEntries | CaptureInvalidMac | MissingPrev | InvalidChain

  /** What is wrong with `e` as the next entry after what `m` has captured, if anything. */
  function CaptureProblem(m: Member, e: LogEntry): Option<CaptureNextResponse> {
    if !ValidMac(e) then Some(CaptureInvalidMac)
    else if m.captured.None? then
      if e.index != FIRST_INDEX then Some(MissingPrev)
      else if e.prevMac != ZeroMac then Some(InvalidChain)
      else None
    else
      if e.index != m.captured.value.index + 1 then Some(MissingPrev)
      else if e.prevMac != m.captured.value.mac then Some(InvalidChain)
      else None
  }

  /** A leader that captures an entry it did not expect gives up leadership. */
  function CaptureAsLeader(m: Member, e: LogEntry): (r: Reply<()>)
    requires LogsValid(m)
    ensures r.Reply? ==> LogsValid(r.member)
  {
    if !m.role.Leader? then Reply(m, ())
    else match HasLogDiverged(m.role.log, e) {
      case Same => Reply(m, ())
      case PriorIndex => Reply(m, ())
      case FutureIndex => StepDownAt(m, LastIndex(m.role.log))
      case EntryMacMismatch => if e.index <= 1 then Panic else StepDownAt(m, e.index - 1)
    }
  }

  function Pushed(log: LeaderLog, e: LogEntry): (r: LeaderLog)
    requires ValidLog(log) && ValidMac(e) && Follows(e, log[|log| - 1].entry)
    ensures ValidLog(r)
  {
    log + [LeaderLogEntry(e, None)]
  }

  /** While stepping down the log follows what is captured, so that commits of
      another leader's later entries can finish the step-down. */
  function CaptureSteppingDown(m: Member, e: LogEntry): (r: Reply<()>)
    requires LogsValid(m) && ValidMac(e)
    ensures r.Reply? ==> LogsValid(r.member)
  {
    if !m.role.SteppingDown? then Reply(m, ())
    else
      var log := m.role.log;
      match HasLogDiverged(log, e) {
        case Same => Reply(m, ())
        case PriorIndex => Reply(m, ())
        case EntryMacMismatch =>
          if e.index <= FirstIndex(log) then Panic
          else
            var keep := UpTo(log, e.index - 1);
            if !Follows(e, keep[|keep| - 1].entry) then Panic
            else Reply(m.(role := SteppingDown(
                            Pushed(keep, e),
                            m.role.committed,
                            m.role.abandoned + MacsInReverse(log[|keep|..]),
                            if e.index - 1 < m.role.stepdownAt then e.index - 1 else m.role.stepdownAt,
                            m.role.leaderStarting)), ())
        case FutureIndex =>
          if !Follows(e, log[|log| - 1].entry) then Panic
          else Reply(m.(role := SteppingDown(Pushed(log, e), m.role.committed, m.role.abandoned,
                                             m.role.stepdownAt, m.role.leaderStarting)), ())
      }
  }

  /** Takes over one entry that has no problem. */
  function CaptureEntry(m: Member, e: LogEntry): (r: Reply<()>)
    requires LogsValid(m) && ValidMac(e)
    ensures r.Reply? ==> LogsValid(r.member)
  {
    var c := CaptureAsLeader(m.(captured := Some(Capture(e.index, e.entryMac))), e);
    if c.Panic? then Panic else CaptureSteppingDown(c.member, e)
  }

  /** Entries before one with a problem stay captured. */
  function CaptureEntries(m: Member, entries: seq<LogEntry>): (r: Reply<CaptureNextResponse>)
    requires LogsValid(m)
    decreases |entries|
  {
    if entries == [] then Reply(m, CaptureOk)
    else
      var problem := CaptureProblem(m, entries[0]);
      if problem.Some? then Reply(m, problem.value)
      else
        var c := CaptureEntry(m, entries[0]);
        if c.Panic? then Panic else CaptureEntries(c.member, entries[1..])
  }

  function CaptureNext(m: Member, entries: seq<LogEntry>): Reply<CaptureNextResponse>
    requires LogsValid(m)
  {
    if entries == [] then Reply(m, MissingEntries) else CaptureEntries(m, entries)
  }

  /** A claim that `hsm` has persisted a capture; `statement` is a MAC over the rest. */
  datatype Captured = Captured(hsm: HsmId, index: nat, mac: EntryMac, statement: CapturedStatement)

  datatype CapturedStatement = Statement(hsm: HsmId, index: nat, mac: EntryMac)

  predicate Verifies(c: Captured) {
    c.statement == Statement(c.hsm, c.index, c.mac)
  }

  function StateCapture(m: Member): (c: Captured)
    requires m.persisted.Some?
    ensures Verifies(c)
  {
    var p := m.persisted.value;
    Captured(m.id, p.index, p.mac, Statement(m.id, p.index, p.mac))
  }

  datatype CaptureJumpResponse = JumpOk | NotWitness | InvalidStatement | StaleIndex

  function CaptureJump(m: Member, jump: Captured): Reply<CaptureJumpResponse> {
    if !m.role.Witness? then Reply(m, NotWitness)
    else if !Verifies(jump) then Reply(m, InvalidStatement)
    else if m.captured.Some? && m.captured.value.index >= jump.index then Reply(m, StaleIndex)
    else Reply(m.(captured := Some(Capture(jump.index, jump.mac))), JumpOk)
  }

  // ---- Committing ----

  datatype CommitResponse =
    | NotLeader
    | NoQuorum
    | Committed(index: nat, responses: seq<(EntryMac, nat)>, abandoned: seq<EntryMac>)

  /** A claim counts if it verifies and names an entry of this leader's log. */
  predicate Counts(log: LeaderLog, c: Captured)
    requires ValidLog(log)
  {
    && Verifies(c)
    && var x := GetIndex(log, c.index);
       x.Some? && x.value.entry.entryMac == c.mac
  }

  function Tally(votes: Ballot, log: LeaderLog, captures: seq<Captured>): Ballot
    requires ValidLog(log)
  {
    if captures == [] then votes
    else
      var before := Tally(votes, log, captures[..|captures| - 1]);
      var c := captures[|captures| - 1];
      if Counts(log, c) && c.hsm in before then before[c.hsm := Some(c.index)] else before
  }

  function NoVotes(config: set<HsmId>): Ballot {
    map h <- config :: None
  }

  /** The responses held in a log, in log order. */
  function Responses(log: LeaderLog): seq<(EntryMac, nat)> {
    if log == [] then []
    else
      var x := log[|log| - 1];
      Responses(log[..|log| - 1]) + if x.response.Some? then [(x.entry.entryMac, x.response.value)] else []
  }

  /** The index to commit: the outcome of the vote, kept from going past the
      step-down point or back behind an earlier commit. */
  function CommitIndex(role: Role, outcome: nat): nat
    requires !role.Witness?
  {
    var i := if role.SteppingDown? && role.stepdownAt < outcome then role.stepdownAt else outcome;
    if role.committed.Some? && i < role.committed.value then role.committed.value else i
  }

  function Commit(m: Member, outcome: Option<nat>): Reply<CommitResponse>
    requires LogsValid(m)
  {
    if m.role.Witness? then Reply(m, NotLeader)
    else if outcome.None? then Reply(m, NoQuorum)
    else
      var log := m.role.log;
      var index := CommitIndex(m.role, outcome.value);
      if index < FirstIndex(log) || index > LastIndex(log) then Panic
      else
        IndexesContiguous(log);
        var n := index - FirstIndex(log);
        var rest := [log[n].(response := None)] + log[n + 1..];
        Reply(AfterCommit(m, index, rest), Committed(index, Responses(log[..n + 1]), if m.role.Leader? then [] else m.role.abandoned))
  }

  /** The state once `index` is committed and `rest` is left of the log: a step-down may be over. */
  function AfterCommit(m: Member, index: nat, rest: LeaderLog): Member
    requires !m.role.Witness?
  {
    if m.role.Leader? then m.(role := Leader(rest, Some(index), m.role.starting))
    else
      var sd := m.(role := SteppingDown(rest, Some(index), [], m.role.stepdownAt, m.role.leaderStarting));
      if index >= m.role.stepdownAt then MakeWitness(sd) else sd
  }

  // ---- The invariant every request keeps ----

  predicate GoodCapture(c: Capture) {
    c.mac.EntryMacOf? && WellIndexed(c.mac) && c.mac.index == c.index
  }

  /** What is captured agrees with the part of the log it overlaps, and never runs ahead of the log. */
  predicate CapturedInLog(log: LeaderLog, c: Capture)
    requires ValidLog(log)
  {
    && c.index <= LastIndex(log)
    && (FirstIndex(log) <= c.index ==> GetIndex(log, c.index).Some? && GetIndex(log, c.index).value.entry.entryMac == c.mac)
  }

  predicate MemberInv(m: Member) {
    && (m.captured.Some? ==> GoodCapture(m.captured.value))
    && (m.persisted.Some? ==> m.captured.Some? && GoodCapture(m.persisted.value))
    && LogsValid(m)
    && (!m.role.Witness? ==>
          && (m.role.committed.Some? ==> m.role.committed.value == FirstIndex(m.role.log))
          && (m.captured.Some? ==> CapturedInLog(m.role.log, m.captured.value)))
    && (m.role.SteppingDown? ==> FirstIndex(m.role.log) <= m.role.stepdownAt <= LastIndex(m.role.log))
  }

  lemma NewGroupInv(id: HsmId, payload: Payload)
    ensures MemberInv(NewGroup(id, payload)) && MemberInv(JoinGroup(id))
  {}

  lemma RestartInv(m: Member)
    requires MemberInv(m)
    ensures MemberInv(Restart(m)) && MemberInv(Persist(m)) && MemberInv(MakeWitness(m))
  {}

  lemma BecomeLeaderInv(m: Member, last: LogEntry)
    requires MemberInv(m)
    ensures BecomeLeader(m, last).Reply? && MemberInv(BecomeLeader(m, last).member)
  {
    var p := Persist(m);
    if p.role.Witness? && p.persisted.Some? && last.index == p.persisted.value.index
       && last.entryMac == p.persisted.value.mac && ValidMac(last) {
    }
  }

  lemma AppendInv(m: Member, payload: Payload, response: Option<nat>)
    requires MemberInv(m) && m.role.Leader?
    ensures MemberInv(AppendNext(m, payload, response))
  {
    var log := m.role.log;
    var log' := AppendNext(m, payload, response).role.log;
    IndexesContiguous(log);
    assert ValidLog(log');
    IndexesContiguous(log');
  }

  /** Giving up leadership panics exactly when the log starts past the chosen index. */
  lemma StepDownInv(m: Member, index: nat)
    requires MemberInv(m) && m.role.Leader? && index <= LastIndex(m.role.log)
    requires m.captured.Some? ==> m.captured.value.index <= index
    ensures StepDownAt(m, index).Panic? <==> index < FirstIndex(m.role.log)
    ensures StepDownAt(m, index).Reply? ==> MemberInv(StepDownAt(m, index).member)
  {
    var log := m.role.log;
    if index >= FirstIndex(log) {
      IndexesContiguous(log);
      IndexesContiguous(UpTo(log, index));
    }
  }

  /** The log up to the entry before `e` can take `e` if what was captured before is in it. */
  lemma FollowsKept(m: Member, e: LogEntry, keep: LeaderLog)
    requires MemberInv(m) && !m.role.Witness? && CaptureProblem(m, e).None?
    requires FirstIndex(m.role.log) < e.index <= LastIndex(m.role.log) + 1
    requires keep == UpTo(m.role.log, e.index - 1)
    ensures Follows(e, keep[|keep| - 1].entry)
    ensures ValidLog(keep + [LeaderLogEntry(e, None)])
    ensures CapturedInLog(keep + [LeaderLogEntry(e, None)], Capture(e.index, e.entryMac))
  {
    var log := m.role.log;
    IndexesContiguous(log);
    IndexesContiguous(keep);
    var log' := keep + [LeaderLogEntry(e, None)];
    assert ValidLog(log');
    IndexesContiguous(log');
  }

  ghost predicate ContradictsFirst(m: Member, e: LogEntry) {
    && !m.role.Witness? && m.role.log != []
    && e.index == FirstIndex(m.role.log)
    && e.entryMac != m.role.log[0].entry.entryMac
  }

  lemma CaptureSteppingDownInv(m: Member, e: LogEntry)
    requires MemberInv(m) && m.role.SteppingDown? && CaptureProblem(m, e).None?
    ensures var r := CaptureSteppingDown(m.(captured := Some(Capture(e.index, e.entryMac))), e);
            && (r.Panic? <==> ContradictsFirst(m, e))
            && (r.Reply? ==> MemberInv(r.member) && r.member.captured == Some(Capture(e.index, e.entryMac)))
  {
    var log := m.role.log;
    if HasLogDiverged(log, e) in {FutureIndex, EntryMacMismatch} {
      if e.index > FirstIndex(log) { SteppingDownExtends(m, e); }
    } else if e.index >= FirstIndex(log) {
      IndexesContiguous(log);
    }
  }

  lemma SteppingDownExtends(m: Member, e: LogEntry)
    requires MemberInv(m) && m.role.SteppingDown? && CaptureProblem(m, e).None?
    requires HasLogDiverged(m.role.log, e) in {FutureIndex, EntryMacMismatch} && e.index > FirstIndex(m.role.log)
    ensures var r := CaptureSteppingDown(m.(captured := Some(Capture(e.index, e.entryMac))), e);
            r.Reply? && MemberInv(r.member) && r.member.captured == Some(Capture(e.index, e.entryMac))
  {
    FollowsKept(m, e, UpTo(m.role.log, e.index - 1));
  }

  lemma CaptureLeaderInv(m: Member, e: LogEntry)
    requires MemberInv(m) && CaptureProblem(m, e).None? && m.role.Leader?
    ensures CaptureEntry(m, e).Panic? <==> ContradictsFirst(m, e)
    ensures CaptureEntry(m, e).Reply? ==>
              && MemberInv(CaptureEntry(m, e).member)
              && CaptureEntry(m, e).member.captured == Some(Capture(e.index, e.entryMac))
  {
    var log := m.role.log;
    IndexesContiguous(log);
    match HasLogDiverged(log, e) {
      case Same =>
      case PriorIndex =>
      case FutureIndex => DivergedAsLeader(m, e, LastIndex(log));
      case EntryMacMismatch => if e.index > FirstIndex(log) { DivergedAsLeader(m, e, e.index - 1); }
    }
  }

  /** Capturing keeps the invariant. It panics exactly when the captured entry
      contradicts the very first entry of the log this HSM leads with. */
  lemma CaptureEntryInv(m: Member, e: LogEntry)
    requires MemberInv(m) && CaptureProblem(m, e).None?
    ensures CaptureEntry(m, e).Panic? <==> ContradictsFirst(m, e)
    ensures CaptureEntry(m, e).Reply? ==>
              && MemberInv(CaptureEntry(m, e).member)
              && CaptureEntry(m, e).member.captured == Some(Capture(e.index, e.entryMac))
  {
    if m.role.Leader? {
      CaptureLeaderInv(m, e);
    } else {
      if m.role.SteppingDown? { CaptureSteppingDownInv(m, e); }
    }
  }

  lemma DivergedAsLeader(m: Member, e: LogEntry, at: nat)
    requires MemberInv(m) && m.role.Leader? && CaptureProblem(m, e).None?
    requires FirstIndex(m.role.log) <= at <= LastIndex(m.role.log) && e.index == at + 1
    ensures var c := m.(captured := Some(Capture(e.index, e.entryMac)));
            var r := StepDownAt(c, at);
            && r.Reply?
            && var q := CaptureSteppingDown(r.member, e);
               q.Reply? && MemberInv(q.member) && q.member.captured == c.captured
  {
    var log := m.role.log;
    var keep := UpTo(log, at);
    FollowsKept(m, e, keep);
    var r := StepDownAt(m.(captured := Some(Capture(e.index, e.entryMac))), at);
    if r.member.role.SteppingDown? {
      assert r.member.role.log == keep;
    }
  }

  /** The captured MAC, or the MAC before the first entry. */
  function CapturedMac(c: Option<Capture>): EntryMac {
    if c.Some? then c.value.mac else ZeroMac
  }

  lemma CaptureEntryKeeps(m: Member, e: LogEntry)
    requires LogsValid(m) && ValidMac(e)
    ensures CaptureEntry(m, e).Reply? ==> CaptureEntry(m, e).member.id == m.id && CaptureEntry(m, e).member.persisted == m.persisted
  {}

  /** However far a batch gets, what is captured afterwards follows what was captured before. */
  lemma {:induction false} CaptureEntriesInv(m: Member, entries: seq<LogEntry>)
    requires MemberInv(m)
    ensures var r := CaptureEntries(m, entries);
            r.Reply? ==>
              && MemberInv(r.member) && r.member.persisted == m.persisted && r.member.id == m.id
              && OnChain(CapturedMac(m.captured), CapturedMac(r.member.captured))
    decreases |entries|
  {
    if entries != [] && CaptureProblem(m, entries[0]).None? {
      var e := entries[0];
      CaptureEntryInv(m, e);
      CaptureEntryKeeps(m, e);
      var c := CaptureEntry(m, e);
      if c.Reply? {
        CaptureEntriesInv(c.member, entries[1..]);
        var r := CaptureEntries(c.member, entries[1..]);
        if r.Reply? {
          OnChainTransitive(CapturedMac(m.captured), e.entryMac, CapturedMac(r.member.captured));
        }
      }
    }
  }

  // ---- Committing never panics, and commits entries of the log ----

  /** Every vote in a tally names an entry of the log, by a verified claim. */
  lemma {:induction false} TallyInLog(config: set<HsmId>, log: LeaderLog, captures: seq<Captured>)
    requires ValidLog(log)
    ensures var t := Tally(NoVotes(config), log, captures);
            && t.Keys == config
            && forall h <- config | t[h].Some? ::
                 exists c <- captures :: Counts(log, c) && c.hsm == h && c.index == t[h].value
  {
    if captures != [] { TallyInLog(config, log, captures[..|captures| - 1]); }
  }

  lemma OutcomeInLog(config: set<HsmId>, log: LeaderLog, captures: seq<Captured>, outcome: nat)
    requires ValidLog(log) && IsOutcome(Tally(NoVotes(config), log, captures), Some(outcome))
    ensures FirstIndex(log) <= outcome <= LastIndex(log)
  {
    var t := Tally(NoVotes(config), log, captures);
    TallyInLog(config, log, captures);
    IndexesContiguous(log);
    if forall h <- config :: t[h] != Some(outcome) {
      ReachedNext(t, outcome);
      assert false;
    }
    var h :| h in config && t[h] == Some(outcome);
  }

  lemma ReachedNext(t: Ballot, i: nat)
    requires forall h <- t :: t[h] != Some(i)
    ensures Carries(t, i) ==> Carries(t, i + 1)
  {
    assert Reached(t, i) == Reached(t, i + 1);
  }

  /** A commit by the votes given never trips the checks in the trimming of the log. */
  lemma CommitInv(m: Member, config: set<HsmId>, captures: seq<Captured>, outcome: Option<nat>)
    requires MemberInv(m)
    requires !m.role.Witness? ==> IsOutcome(Tally(NoVotes(config), m.role.log, captures), outcome)
    ensures Commit(m, outcome).Reply?
    ensures MemberInv(Commit(m, outcome).member)
  {
    if !m.role.Witness? && outcome.Some? {
      OutcomeInLog(config, m.role.log, captures, outcome.value);
      TrimmedInv(m, outcome.value);
    }
  }

  lemma TrimmedInv(m: Member, outcome: nat)
    requires MemberInv(m) && !m.role.Witness? && FirstIndex(m.role.log) <= outcome <= LastIndex(m.role.log)
    ensures Commit(m, Some(outcome)).Reply?
    ensures MemberInv(Commit(m, Some(outcome)).member)
  {
    var log := m.role.log;
    IndexesContiguous(log);
    var n := CommitIndex(m.role, outcome) - FirstIndex(log);
    var rest := [log[n].(response := None)] + log[n + 1..];
    RestValid(log, n);
    if m.captured.Some? {
      IndexesContiguous(rest);
      assert CapturedInLog(rest, m.captured.value);
    }
  }

  lemma RestValid(log: LeaderLog, n: nat)
    requires ValidLog(log) && n < |log|
    ensures var rest := [log[n].(response := None)] + log[n + 1..];
            && ValidLog(rest) && FirstIndex(rest) == log[n].entry.index
            && LastIndex(rest) == LastIndex(log)
            && forall i :: 0 <= i < |rest| ==> rest[i].entry == log[n + i].entry
  {
    var rest := [log[n].(response := None)] + log[n + 1..];
    forall i | 0 <= i < |rest| ensures rest[i].entry == log[n + i].entry {}
    forall i | 0 < i < |rest| ensures Follows(rest[i].entry, rest[i - 1].entry) {
      assert Follows(log[n + i].entry, log[n + i - 1].entry);
    }
  }
}
