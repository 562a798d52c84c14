/**
 A replication group as a whole: its HSMs, driven in any order by agents that
 are free to feed them any log entries and any capture claims they can get hold
 of. MACs cannot be forged: an entry that verifies was built by an HSM, and a
 claim that verifies was stated by one.

 The theorems say that everything the group ever commits lies on one chain, in
 every run in which each jump either follows the chain or goes to an entry that
 a majority has already stated, and that a jump doing neither can break that.
 */
module Agreement {
  import opened Wrappers
  import opened MacChain
  import opened Election
  import opened GroupMember
  import V = CaptureVotes

  datatype System = System(
    config: set<HsmId>,
    members: map<HsmId, Member>,
    issued: set<EntryMac>,
    statements: set<CapturedStatement>,
    commits: set<EntryMac>,
    released: set<EntryMac>)

  datatype Step =
    | DoJoinGroup(hsm: HsmId)
    | DoAppend(hsm: HsmId, payload: Payload, response: Option<nat>)
    | DoCaptureNext(hsm: HsmId, entries: seq<LogEntry>)
    | DoCaptureJump(hsm: HsmId, jump: Captured)
    | DoPersistState(hsm: HsmId)
    | DoBecomeLeader(hsm: HsmId, last: LogEntry)
    | DoStepDown(hsm: HsmId)
    | DoForceStepDown(hsm: HsmId)
    | DoCommit(hsm: HsmId, captures: seq<Captured>, outcome: Option<nat>)
    | DoRestart(hsm: HsmId)

  function Init(config: set<HsmId>, creator: HsmId, payload: Payload): System {
    var m := NewGroup(creator, payload);
    System(config, map[creator := m], {FirstEntry(creator, payload).entryMac}, {}, {}, {})
  }

  ghost predicate Genuine(s: System, c: Captured) {
    Verifies(c) ==> c.statement in s.statements
  }

  /** What the environment can do in state `s`. A commit comes with the outcome of its vote. */
  ghost predicate Enabled(s: System, step: Step) {
    match step
    case DoJoinGroup(h) => h in s.config
    case DoAppend(h, _, _) => h in s.members && s.members[h].role.Leader? && LogsValid(s.members[h])
    case DoCaptureNext(h, entries) =>
      && h in s.members && LogsValid(s.members[h])
      && forall e <- entries :: ValidMac(e) ==> e.entryMac in s.issued
    case DoCaptureJump(h, jump) => h in s.members && Genuine(s, jump)
    case DoPersistState(h) => h in s.members
    case DoBecomeLeader(h, _) => h in s.members
    case DoStepDown(h) => h in s.members && LogsValid(s.members[h])
    case DoForceStepDown(h) => h in s.members
    case DoCommit(h, captures, outcome) =>
      && h in s.members && LogsValid(s.members[h])
      && (forall c <- captures :: Genuine(s, c))
      && (!s.members[h].role.Witness? ==>
            IsOutcome(Tally(NoVotes(s.config), s.members[h].role.log, captures), outcome))
    case DoRestart(h) => h in s.members
  }

  /** An HSM that panicked comes back as after any restart. */
  function After<R>(m: Member, r: Reply<R>): Member {
    if r.Panic? then Restart(m) else r.member
  }

  function Put(s: System, h: HsmId, m: Member): System {
    s.(members := s.members[h := m])
  }

  ghost function Apply(s: System, step: Step): System
    requires Enabled(s, step)
  {
    match step
    case DoJoinGroup(h) => if h in s.members then s else Put(s, h, JoinGroup(h))
    case DoAppend(h, payload, response) =>
      Put(s, h, AppendNext(s.members[h], payload, response))
      .(issued := s.issued + {NextEntry(s.members[h], payload).entryMac})
    case DoCaptureNext(h, entries) => Put(s, h, After(s.members[h], CaptureNext(s.members[h], entries)))
    case DoCaptureJump(h, jump) => Put(s, h, After(s.members[h], CaptureJump(s.members[h], jump)))
    case DoPersistState(h) =>
      var p := Persist(s.members[h]);
      Put(s, h, p).(statements := if p.persisted.Some? then s.statements + {StateCapture(p).statement} else s.statements)
    case DoBecomeLeader(h, last) => Put(s, h, After(s.members[h], BecomeLeader(s.members[h], last)))
    case DoStepDown(h) =>
      var m := s.members[h];
      if m.role.Leader? then Put(s, h, After(m, StepDownAt(m, LastIndex(m.role.log)))) else s
    case DoForceStepDown(h) => Put(s, h, MakeWitness(s.members[h]))
    case DoCommit(h, captures, outcome) =>
      var m := s.members[h];
      var r := Commit(m, outcome);
      var t := Put(s, h, After(m, r));
      if r.Panic? || !r.response.Committed? then t
      else t.(commits := s.commits + {CommittedMac(m, r.response.index)},
              released := s.released + set x <- r.response.responses :: x.0)
    case DoRestart(h) => Put(s, h, Restart(s.members[h]))
  }

  /** The MAC of the log entry with the given index. */
  function CommittedMac(m: Member, index: nat): EntryMac
    requires LogsValid(m)
  {
    if m.role.Witness? then ZeroMac
    else var x := GetIndex(m.role.log, index);
         if x.Some? then x.value.entry.entryMac else ZeroMac
  }

  // ---- The group seen as voters ----

  function View(s: System): V.Votes {
    V.Votes(s.config,
            map h <- s.config :: if h in s.members then CapturedMac(s.members[h].captured) else ZeroMac,
            map h <- s.config :: if h in s.members then CapturedMac(s.members[h].persisted) else ZeroMac,
            set x <- s.statements :: (x.hsm, x.mac))
  }

  /** A jump that is refused, or goes to an entry that follows what the HSM has persisted or an entry past that
      which a majority has stated. */
  ghost predicate SafeJump(s: System, step: Step) {
    step.DoCaptureJump? && step.hsm in s.members && CaptureJump(s.members[step.hsm], step.jump).response.JumpOk? ==>
      V.Linked(View(s), CapturedMac(s.members[step.hsm].persisted), step.jump.mac)
  }

  // ---- Invariant ----

  ghost predicate MembersGood(s: System) {
    && s.members.Keys <= s.config
    && forall h <- s.members :: s.members[h].id == h && MemberInv(s.members[h])
  }

  ghost predicate StatementsGood(s: System) {
    forall x <- s.statements :: x.hsm in s.config && GoodCapture(Capture(x.index, x.mac))
  }

  ghost predicate CommitsGood(s: System) {
    && (forall c <- s.commits :: V.Certified(View(s), c))
    && (forall r <- s.released :: exists c <- s.commits :: OnChain(r, c))
  }

  ghost predicate Inv(s: System) {
    MembersGood(s) && StatementsGood(s) && V.Inv(View(s)) && CommitsGood(s)
  }

  // ---- One HSM moves ----

  lemma PutView(s: System, h: HsmId, m: Member)
    requires h in s.config
    ensures View(Put(s, h, m)) ==
            View(s).(captured := View(s).captured[h := CapturedMac(m.captured)],
                     persisted := View(s).persisted[h := CapturedMac(m.persisted)])
  {}

  /** Certified commits stay certified as the voters move on. */
  lemma MemberStep(s: System, h: HsmId, s': System, e: V.Event)
    requires Inv(s) && h in s.members && h in s'.members
    requires s' == Put(s, h, s'.members[h]).(issued := s'.issued, statements := s'.statements)
    requires s'.members[h].id == h && MemberInv(s'.members[h])
    requires StatementsGood(s') && V.Next(View(s), e, View(s'))
    ensures Inv(s')
  {
    V.NextInv(View(s), e, View(s'));
    forall c <- s.commits ensures V.Certified(View(s'), c) { V.CertifiedStays(View(s), View(s'), c); }
  }

  /** A move that captures and persists nothing is a restart without effect on the votes. */
  lemma QuietStep(s: System, h: HsmId, s': System)
    requires Inv(s) && h in s.members && h in s'.members
    requires s' == Put(s, h, s'.members[h]).(issued := s'.issued)
    requires s'.members[h].id == h && MemberInv(s'.members[h])
    requires s'.members[h].captured == s.members[h].captured && s'.members[h].persisted == s.members[h].persisted
    ensures Inv(s') && View(s') == View(s)
  {
    PutView(s, h, s'.members[h]);
    assert View(s') == View(s);
    MemberStep(s, h, s', V.Capture(h, View(s).captured[h]));
  }

  lemma RestartStep(s: System, h: HsmId)
    requires Inv(s) && h in s.members
    ensures Inv(Put(s, h, Restart(s.members[h])))
  {
    RestartInv(s.members[h]);
    PutView(s, h, Restart(s.members[h]));
    MemberStep(s, h, Put(s, h, Restart(s.members[h])), V.Restart(h));
  }

  lemma CaptureStep(s: System, h: HsmId, m': Member)
    requires Inv(s) && h in s.members
    requires m'.id == h && MemberInv(m') && m'.persisted == s.members[h].persisted
    requires m'.captured.None? ==> s.members[h].captured.None?
    requires var c := CapturedMac(s.members[h].captured);
             || OnChain(c, CapturedMac(m'.captured))
             || V.Linked(View(s), CapturedMac(m'.persisted), CapturedMac(m'.captured))
    ensures Inv(Put(s, h, m'))
  {
    PutView(s, h, m');
    MemberStep(s, h, Put(s, h, m'), V.Capture(h, CapturedMac(m'.captured)));
  }

  lemma CaptureNextStep(s: System, h: HsmId, entries: seq<LogEntry>)
    requires Inv(s) && Enabled(s, DoCaptureNext(h, entries))
    ensures Inv(Apply(s, DoCaptureNext(h, entries)))
  {
    var m := s.members[h];
    var r := CaptureNext(m, entries);
    if r.Panic? {
      RestartStep(s, h);
    } else {
      CaptureEntriesInv(m, entries);
      if entries == [] { QuietStep(s, h, Put(s, h, m)); } else { CaptureStep(s, h, r.member); }
    }
  }

  lemma CaptureJumpStep(s: System, h: HsmId, jump: Captured)
    requires Inv(s) && Enabled(s, DoCaptureJump(h, jump)) && SafeJump(s, DoCaptureJump(h, jump))
    ensures Inv(Apply(s, DoCaptureJump(h, jump)))
  {
    var m := s.members[h];
    var r := CaptureJump(m, jump);
    if r.response.JumpOk? {
      assert jump.statement in s.statements;
      CaptureStep(s, h, r.member);
    } else {
      QuietStep(s, h, Put(s, h, m));
    }
  }

  /** A jump keeps the invariant from which agreement follows exactly if it is safe. */
  lemma JumpIsExact(s: System, h: HsmId, jump: Captured)
    requires Inv(s) && Enabled(s, DoCaptureJump(h, jump))
    ensures Inv(Apply(s, DoCaptureJump(h, jump))) <==> SafeJump(s, DoCaptureJump(h, jump))
  {
    hide Inv;
    JumpApplies(s, h, jump);
    if SafeJump(s, DoCaptureJump(h, jump)) {
      CaptureJumpStep(s, h, jump);
    } else if Inv(Apply(s, DoCaptureJump(h, jump))) {
      TakenIsLinked(s, h, CaptureJump(s.members[h], jump).member);
    }
  }

  lemma JumpApplies(s: System, h: HsmId, jump: Captured)
    requires Enabled(s, DoCaptureJump(h, jump))
    ensures CaptureJump(s.members[h], jump).Reply? && Apply(s, DoCaptureJump(h, jump)) == Put(s, h, CaptureJump(s.members[h], jump).member)
  {}

  lemma TakenIsLinked(s: System, h: HsmId, m: Member)
    requires Inv(Put(s, h, m)) && h in s.members
    ensures V.Linked(View(s), CapturedMac(m.persisted), CapturedMac(m.captured))
  {
    var v := View(Put(s, h, m));
    PutView(s, h, m);
    assert V.Linked(v, v.persisted[h], v.captured[h]);
    V.LinkedAlike(v, View(s), v.persisted[h], v.captured[h]);
  }

  /** Jumps along the chain from what is captured, and to an entry that a majority has stated, are safe. */
  lemma UsualJumpsSafe(s: System, h: HsmId, jump: Captured)
    requires Inv(s) && Enabled(s, DoCaptureJump(h, jump))
    requires OnChain(CapturedMac(s.members[h].captured), jump.mac) || V.Certified(View(s), jump.mac)
    ensures SafeJump(s, DoCaptureJump(h, jump))
  {
    var m := s.members[h];
    var a, b := CapturedMac(m.persisted), CapturedMac(m.captured);
    if CaptureJump(m, jump).response.JumpOk? {
      assert jump.statement in s.statements;
      assert V.Linked(View(s), View(s).persisted[h], View(s).captured[h]);
      assert OnChain(jump.mac, jump.mac);
      V.LinkedTransitive(View(s), a, b, jump.mac);
    }
  }

  lemma PersistStateStep(s: System, h: HsmId)
    requires Inv(s) && Enabled(s, DoPersistState(h))
    ensures Inv(Apply(s, DoPersistState(h)))
  {
    var s' := Apply(s, DoPersistState(h));
    var p := Persist(s.members[h]);
    RestartInv(s.members[h]);
    PutView(s, h, p);
    if p.persisted.Some? {
      var x := StateCapture(p).statement;
      assert View(s').statements == View(s).statements + {(x.hsm, x.mac)};
    } else {
      assert View(s').statements == View(s).statements;
    }
    MemberStep(s, h, s', V.Persist(h, true));
  }

  lemma PersistStep(s: System, h: HsmId, m': Member)
    requires Inv(s) && h in s.members
    requires m'.id == h && MemberInv(m')
    requires m'.captured == s.members[h].captured && CapturedMac(m'.persisted) == CapturedMac(m'.captured)
    ensures Inv(Put(s, h, m'))
  {
    var s' := Put(s, h, m');
    PutView(s, h, m');
    assert View(s') == View(s).(persisted := View(s).persisted[h := View(s).captured[h]]);
    MemberStep(s, h, s', V.Persist(h, false));
  }

  lemma BecomeLeaderStep(s: System, h: HsmId, last: LogEntry)
    requires Inv(s) && Enabled(s, DoBecomeLeader(h, last))
    ensures Inv(Apply(s, DoBecomeLeader(h, last)))
  {
    var m := s.members[h];
    BecomeLeaderInv(m, last);
    PersistStep(s, h, BecomeLeader(m, last).member);
  }

  // ---- Committing ----

  /** Whoever reached index `i` in the tally has stated the log's entry at any
      index up to `i`, or an entry after it. */
  lemma ReachedHaveVoted(s: System, log: LeaderLog, captures: seq<Captured>, i: nat, n: nat)
    requires StatementsGood(s) && ValidLog(log) && (forall c <- captures :: Genuine(s, c))
    requires n < |log| && log[n].entry.index <= i
    ensures Reached(Tally(NoVotes(s.config), log, captures), i) <= V.Voters(View(s), log[n].entry.entryMac)
  {
    var t := Tally(NoVotes(s.config), log, captures);
    TallyInLog(s.config, log, captures);
    IndexesContiguous(log);
    forall h <- Reached(t, i) ensures h in V.Voters(View(s), log[n].entry.entryMac) {
      var c :| c in captures && Counts(log, c) && c.hsm == h && c.index == t[h].value;
      LogOnChain(log, n, c.index - FirstIndex(log));
      assert (h, c.mac) in View(s).statements;
    }
  }

  /** An entry of the log up to the outcome of the vote is certified. */
  lemma OutcomeCertified(s: System, log: LeaderLog, captures: seq<Captured>, outcome: nat, n: nat)
    requires StatementsGood(s) && ValidLog(log) && (forall c <- captures :: Genuine(s, c))
    requires IsOutcome(Tally(NoVotes(s.config), log, captures), Some(outcome))
    requires n < |log| && log[n].entry.index <= outcome
    ensures V.Certified(View(s), log[n].entry.entryMac)
  {
    var t := Tally(NoVotes(s.config), log, captures);
    TallyInLog(s.config, log, captures);
    ReachedHaveVoted(s, log, captures, outcome, n);
    assert |t| == |t.Keys|;
    V.MajorityGrows(s.config, Reached(t, outcome), V.Voters(View(s), log[n].entry.entryMac));
  }

  /** Responses are only released for entries up to the committed one. */
  lemma {:induction false} ResponsesOnChain(log: LeaderLog, n: nat)
    requires ValidLog(log) && n <= |log|
    ensures forall x <- Responses(log[..n]) :: n > 0 && OnChain(x.0, log[n - 1].entry.entryMac)
  {
    if n > 0 {
      assert log[..n][..n - 1] == log[..n - 1];
      ResponsesOnChain(log, n - 1);
      if n > 1 { LogOnChain(log, n - 2, n - 1); }
      forall x <- Responses(log[..n]) ensures OnChain(x.0, log[n - 1].entry.entryMac) {
        if x in Responses(log[..n - 1]) {
          OnChainTransitive(x.0, log[n - 2].entry.entryMac, log[n - 1].entry.entryMac);
        }
      }
    }
  }

  lemma CommitEffect(m: Member, outcome: nat, n: nat)
    requires MemberInv(m) && !m.role.Witness?
    requires FirstIndex(m.role.log) <= outcome <= LastIndex(m.role.log)
    requires n == CommitIndex(m.role, outcome) - FirstIndex(m.role.log)
    ensures n < |m.role.log|
    ensures m.role.log[n].entry.index <= outcome
    ensures CommittedMac(m, CommitIndex(m.role, outcome)) == m.role.log[n].entry.entryMac
    ensures var r := Commit(m, Some(outcome));
            && r.Reply? && r.response.Committed? && r.response.index == CommitIndex(m.role, outcome)
            && r.response.responses == Responses(m.role.log[..n + 1])
            && r.member.id == m.id && r.member.captured == m.captured && r.member.persisted == m.persisted
  {
    IndexesContiguous(m.role.log);
  }

  lemma CommitStep(s: System, h: HsmId, captures: seq<Captured>, outcome: Option<nat>)
    requires Inv(s) && Enabled(s, DoCommit(h, captures, outcome))
    ensures Inv(Apply(s, DoCommit(h, captures, outcome)))
  {
    var m := s.members[h];
    CommitInv(m, s.config, captures, outcome);
    if m.role.Witness? || outcome.None? {
      QuietStep(s, h, Put(s, h, m));
    } else {
      OutcomeInLog(s.config, m.role.log, captures, outcome.value);
      NewCommit(s, h, captures, outcome.value, CommitIndex(m.role, outcome.value) - FirstIndex(m.role.log));
    }
  }

  /** What a commit changes. */
  lemma ApplyCommit(s: System, h: HsmId, captures: seq<Captured>, outcome: nat, n: nat, c: EntryMac, t: System)
    requires Enabled(s, DoCommit(h, captures, Some(outcome))) && MemberInv(s.members[h]) && !s.members[h].role.Witness?
    requires FirstIndex(s.members[h].role.log) <= outcome <= LastIndex(s.members[h].role.log)
    requires n == CommitIndex(s.members[h].role, outcome) - FirstIndex(s.members[h].role.log) < |s.members[h].role.log|
    requires c == s.members[h].role.log[n].entry.entryMac && Commit(s.members[h], Some(outcome)).Reply?
    requires t == Put(s, h, Commit(s.members[h], Some(outcome)).member)
    ensures Apply(s, DoCommit(h, captures, Some(outcome))) ==
            t.(commits := t.commits + {c}, released := t.released + set x <- Responses(s.members[h].role.log[..n + 1]) :: x.0)
  {
    CommitEffect(s.members[h], outcome, n);
  }

  lemma NewCommit(s: System, h: HsmId, captures: seq<Captured>, outcome: nat, n: nat)
    requires Inv(s) && Enabled(s, DoCommit(h, captures, Some(outcome))) && !s.members[h].role.Witness?
    requires FirstIndex(s.members[h].role.log) <= outcome <= LastIndex(s.members[h].role.log)
    requires n == CommitIndex(s.members[h].role, outcome) - FirstIndex(s.members[h].role.log)
    ensures Inv(Apply(s, DoCommit(h, captures, Some(outcome))))
  {
    var m := s.members[h];
    CommitInv(m, s.config, captures, Some(outcome));
    CommitEffect(m, outcome, n);
    var c, t := m.role.log[n].entry.entryMac, Put(s, h, Commit(m, Some(outcome)).member);
    OutcomeCertified(s, m.role.log, captures, outcome, n);
    ResponsesOnChain(m.role.log, n + 1);
    QuietStep(s, h, t);
    CommitRecorded(t, c, set x <- Responses(m.role.log[..n + 1]) :: x.0);
    ApplyCommit(s, h, captures, outcome, n, c, t);
  }

  lemma CommitRecorded(s: System, c: EntryMac, freed: set<EntryMac>)
    requires Inv(s) && V.Certified(View(s), c) && (forall r <- freed :: OnChain(r, c))
    ensures Inv(s.(commits := s.commits + {c}, released := s.released + freed))
  {
    var s' := s.(commits := s.commits + {c}, released := s.released + freed);
    assert View(s') == View(s);
  }

  // ---- Every step, every run ----

  lemma InitInv(config: set<HsmId>, creator: HsmId, payload: Payload)
    requires creator in config
    ensures Inv(Init(config, creator, payload))
  {
    NewGroupInv(creator, payload);
    V.InitInv(config);
    assert View(Init(config, creator, payload)) == V.Init(config);
  }

  lemma JoinGroupStep(s: System, h: HsmId)
    requires Inv(s) && Enabled(s, DoJoinGroup(h))
    ensures Inv(Apply(s, DoJoinGroup(h)))
  {
    if h !in s.members {
      JoinView(s, h);
      NewGroupInv(h, 0);
      assert MembersGood(Put(s, h, JoinGroup(h)));
    }
  }

  /** An HSM that joins looks like one that is not there yet. */
  lemma JoinView(s: System, h: HsmId)
    requires h in s.config && h !in s.members
    ensures View(Put(s, h, JoinGroup(h))) == View(s)
  {}

  lemma StepDownStep(s: System, h: HsmId)
    requires Inv(s) && Enabled(s, DoStepDown(h))
    ensures Inv(Apply(s, DoStepDown(h)))
  {
    var m := s.members[h];
    if m.role.Leader? {
      IndexesContiguous(m.role.log);
      StepDownInv(m, LastIndex(m.role.log));
      QuietStep(s, h, Put(s, h, StepDownAt(m, LastIndex(m.role.log)).member));
    }
  }

  lemma ForceStepDownStep(s: System, h: HsmId)
    requires Inv(s) && Enabled(s, DoForceStepDown(h))
    ensures Inv(Apply(s, DoForceStepDown(h)))
  {
    RestartInv(s.members[h]);
    QuietStep(s, h, Put(s, h, MakeWitness(s.members[h])));
  }

  lemma AppendStep(s: System, h: HsmId, payload: Payload, response: Option<nat>)
    requires Inv(s) && Enabled(s, DoAppend(h, payload, response))
    ensures Inv(Apply(s, DoAppend(h, payload, response)))
  {
    AppendInv(s.members[h], payload, response);
    QuietStep(s, h, Apply(s, DoAppend(h, payload, response)));
  }

  lemma StepInv(s: System, step: Step)
    requires Inv(s) && Enabled(s, step) && SafeJump(s, step)
    ensures Inv(Apply(s, step))
  {
    match step
    case DoJoinGroup(h) => JoinGroupStep(s, h);
    case DoAppend(h, payload, response) => AppendStep(s, h, payload, response);
    case DoCaptureNext(h, entries) => CaptureNextStep(s, h, entries);
    case DoCaptureJump(h, jump) => CaptureJumpStep(s, h, jump);
    case DoPersistState(h) => PersistStateStep(s, h);
    case DoBecomeLeader(h, last) => BecomeLeaderStep(s, h, last);
    case DoStepDown(h) => StepDownStep(s, h);
    case DoForceStepDown(h) => ForceStepDownStep(s, h);
    case DoCommit(h, captures, outcome) => CommitStep(s, h, captures, outcome);
    case DoRestart(h) => RestartStep(s, h);
  }

  ghost predicate IsNew(s: System) {
    exists creator, payload :: creator in s.config && s == Init(s.config, creator, payload)
  }

  /** `run` is what the steps lead through, starting from a new group. */
  ghost predicate IsRun(run: seq<System>, steps: seq<Step>) {
    && |run| == |steps| + 1
    && IsNew(run[0])
    && forall i :: 0 <= i < |steps| ==> Enabled(run[i], steps[i]) && run[i + 1] == Apply(run[i], steps[i])
  }

  ghost predicate JumpsSafely(run: seq<System>, steps: seq<Step>)
    requires |run| == |steps| + 1
  {
    forall i :: 0 <= i < |steps| ==> SafeJump(run[i], steps[i])
  }

  lemma {:induction false} RunInv(run: seq<System>, steps: seq<Step>, i: nat)
    requires IsRun(run, steps) && JumpsSafely(run, steps) && i < |run|
    ensures Inv(run[i])
  {
    if i == 0 {
      var creator, payload :| creator in run[0].config && run[0] == Init(run[0].config, creator, payload);
      InitInv(run[0].config, creator, payload);
    } else {
      RunInv(run, steps, i - 1);
      StepInv(run[i - 1], steps[i - 1]);
    }
  }

  lemma {:induction false} CommitsGrow(run: seq<System>, steps: seq<Step>, i: nat, j: nat)
    requires IsRun(run, steps) && i <= j < |run|
    ensures run[i].commits <= run[j].commits && run[i].released <= run[j].released
  {
    if i < j {
      CommitsGrow(run, steps, i, j - 1);
      assert Enabled(run[j - 1], steps[j - 1]) && run[j] == Apply(run[j - 1], steps[j - 1]);
    }
  }

  /** Agreement: whatever any two HSMs commit, at any two moments of a run, lies
      on one chain; and two commits of the same index commit the same entry. */
  lemma CommitsAgree(run: seq<System>, steps: seq<Step>, i: nat, j: nat, a: EntryMac, b: EntryMac)
    requires IsRun(run, steps) && JumpsSafely(run, steps)
    requires i < |run| && j < |run| && a in run[i].commits && b in run[j].commits
    ensures !Diverged(a, b)
    ensures Index(a) == Index(b) ==> a == b
  {
    var k := if i < j then j else i;
    CommitsGrow(run, steps, i, k);
    CommitsGrow(run, steps, j, k);
    RunInv(run, steps, k);
    StateAgrees(run[k], a, b);
  }

  lemma StateAgrees(s: System, a: EntryMac, b: EntryMac)
    requires Inv(s) && a in s.commits && b in s.commits
    ensures !Diverged(a, b)
    ensures Index(a) == Index(b) ==> a == b
  {
    CertifiedWellIndexed(s, a);
    CertifiedWellIndexed(s, b);
    assert !Diverged(a, b);
    if OnChain(a, b) { IndexAlongChain(a, b); } else { IndexAlongChain(b, a); }
  }

  lemma CertifiedWellIndexed(s: System, m: EntryMac)
    requires Inv(s) && V.Certified(View(s), m)
    ensures WellIndexed(m)
  {
    var h :| h in V.Voters(View(s), m);
    var x :| x in View(s).statements && x.0 == h && OnChain(m, x.1);
    IndexAlongChain(m, x.1);
  }

  /** No client sees a response for an entry off the agreed chain: any two
      released responses belong to entries of one chain. */
  lemma ResponsesAgree(run: seq<System>, steps: seq<Step>, i: nat, j: nat, a: EntryMac, b: EntryMac)
    requires IsRun(run, steps) && JumpsSafely(run, steps)
    requires i < |run| && j < |run| && a in run[i].released && b in run[j].released
    ensures !Diverged(a, b)
  {
    RunInv(run, steps, i);
    RunInv(run, steps, j);
    var c :| c in run[i].commits && OnChain(a, c);
    var d :| d in run[j].commits && OnChain(b, d);
    CommitsAgree(run, steps, i, j, c, d);
    if OnChain(c, d) {
      OnChainTransitive(a, c, d);
      SharedDescendant(a, b, d);
    } else {
      OnChainTransitive(b, d, c);
      SharedDescendant(a, b, c);
    }
  }

  // ---- Nothing is committed that no HSM built ----

  ghost predicate BuiltMac(issued: set<EntryMac>, m: EntryMac) {
    m == ZeroMac || m in issued
  }

  ghost predicate BuiltLog(issued: set<EntryMac>, log: LeaderLog) {
    forall i :: 0 <= i < |log| ==> log[i].entry.entryMac in issued
  }

  ghost predicate BuiltMember(issued: set<EntryMac>, m: Member) {
    && BuiltMac(issued, CapturedMac(m.captured)) && BuiltMac(issued, CapturedMac(m.persisted))
    && (!m.role.Witness? ==> BuiltLog(issued, m.role.log))
  }

  ghost predicate Built(s: System) {
    && (forall m <- s.issued :: m.EntryMacOf? && BuiltMac(s.issued, m.prev))
    && (forall h <- s.members :: BuiltMember(s.issued, s.members[h]))
    && (forall x <- s.statements :: x.mac in s.issued)
  }

  lemma CaptureEntryBuilt(issued: set<EntryMac>, m: Member, e: LogEntry)
    requires LogsValid(m) && BuiltMember(issued, m) && ValidMac(e) && e.entryMac in issued && CaptureEntry(m, e).Reply?
    ensures BuiltMember(issued, CaptureEntry(m, e).member)
  {}

  lemma {:induction false} CaptureEntriesBuilt(issued: set<EntryMac>, m: Member, entries: seq<LogEntry>)
    requires LogsValid(m) && BuiltMember(issued, m)
    requires forall e <- entries :: ValidMac(e) ==> e.entryMac in issued
    ensures CaptureEntries(m, entries).Reply? ==> BuiltMember(issued, CaptureEntries(m, entries).member)
    decreases |entries|
  {
    if entries != [] && CaptureProblem(m, entries[0]).None? && CaptureEntry(m, entries[0]).Reply? {
      CaptureEntryBuilt(issued, m, entries[0]);
      CaptureEntriesBuilt(issued, CaptureEntry(m, entries[0]).member, entries[1..]);
    }
  }

  lemma CommitBuilt(issued: set<EntryMac>, m: Member, outcome: Option<nat>)
    requires LogsValid(m) && BuiltMember(issued, m) && Commit(m, outcome).Reply?
    ensures BuiltMember(issued, Commit(m, outcome).member)
  {
    if !m.role.Witness? && outcome.Some? {
      IndexesContiguous(m.role.log);
      RestValid(m.role.log, CommitIndex(m.role, outcome.value) - FirstIndex(m.role.log));
    }
  }

  lemma AppendBuilt(s: System, h: HsmId, payload: Payload, response: Option<nat>)
    requires Built(s) && Enabled(s, DoAppend(h, payload, response))
    ensures Built(Apply(s, DoAppend(h, payload, response)))
  {
    var m := s.members[h];
    var s' := Apply(s, DoAppend(h, payload, response));
    var last := m.role.log[|m.role.log| - 1].entry.entryMac;
    assert last in s.issued && NextEntry(m, payload).entryMac.prev == last;
    forall g <- s'.members ensures BuiltMember(s'.issued, s'.members[g]) {
      assert g in s.members && BuiltMember(s.issued, s.members[g]);
    }
  }

  lemma StepBuilt(s: System, step: Step)
    requires MembersGood(s) && Built(s) && Enabled(s, step)
    ensures Built(Apply(s, step))
  {
    match step
    case DoAppend(h, payload, response) => AppendBuilt(s, h, payload, response);
    case DoCaptureNext(h, entries) => CaptureEntriesBuilt(s.issued, s.members[h], entries);
    case DoCommit(h, _, outcome) => if Commit(s.members[h], outcome).Reply? { CommitBuilt(s.issued, s.members[h], outcome); }
    case _ =>
  }

  lemma NewBuilt(s: System)
    requires IsNew(s)
    ensures Built(s)
  {}

  lemma RunMembers(run: seq<System>, steps: seq<Step>, i: nat)
    requires IsRun(run, steps) && JumpsSafely(run, steps) && i < |run|
    ensures MembersGood(run[i])
  {
    RunInv(run, steps, i);
  }

  lemma {:induction false} RunBuilt(run: seq<System>, steps: seq<Step>, i: nat)
    requires IsRun(run, steps) && JumpsSafely(run, steps) && i < |run|
    ensures Built(run[i])
  {
    if i == 0 {
      NewBuilt(run[0]);
    } else {
      RunBuilt(run, steps, i - 1);
      RunMembers(run, steps, i - 1);
      StepBuilt(run[i - 1], steps[i - 1]);
    }
  }

  lemma {:induction false} BehindBuilt(s: System, a: EntryMac, b: EntryMac)
    requires Built(s) && BuiltMac(s.issued, b) && OnChain(a, b)
    ensures BuiltMac(s.issued, a)
  {
    if a != b { BehindBuilt(s, a, b.prev); }
  }

  /** Integrity: a committed entry, and every entry before it, was built by a leader of the group. */
  lemma CommittedWasBuilt(run: seq<System>, steps: seq<Step>, i: nat, a: EntryMac, b: EntryMac)
    requires IsRun(run, steps) && JumpsSafely(run, steps)
    requires i < |run| && b in run[i].commits && OnChain(a, b)
    ensures BuiltMac(run[i].issued, a)
  {
    var s := run[i];
    RunInv(run, steps, i);
    RunBuilt(run, steps, i);
    var h :| h in V.Voters(View(s), b);
    var x :| x in View(s).statements && x.0 == h && OnChain(b, x.1);
    OnChainTransitive(a, b, x.1);
    BehindBuilt(s, a, x.1);
  }
}
