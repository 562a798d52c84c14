/**
 Why jumps have to be restricted. Three HSMs, 0, 1 and 2, and one jump that
 neither follows the chain nor goes to an entry stated by a majority: HSM 0 and
 HSM 2 both end up leading, and commit diverged logs.
 */
module UnsafeJump {
  import opened Wrappers
  import opened MacChain
  import opened Election
  import opened GroupMember
  import opened Agreement
  import V = CaptureVotes

  const GROUP: set<HsmId> := {0, 1, 2}

  // HSM 0 creates the group and adds one entry; HSM 2 adds two others.
  function First(): LogEntry { FirstEntry(0, 0) }
  function Left2(): LogEntry { BuildEntry(0, 2, 1, First().entryMac) }
  function Right2(): LogEntry { BuildEntry(2, 2, 1, First().entryMac) }
  function Right3(): LogEntry { BuildEntry(2, 3, 1, Right2().entryMac) }

  function At(e: LogEntry): Option<Capture> { Some(Capture(e.index, e.entryMac)) }

  function Claim(h: HsmId, e: LogEntry): Captured {
    Captured(h, e.index, e.entryMac, Statement(h, e.index, e.entryMac))
  }

  function Log(es: seq<LogEntry>): LeaderLog
  {
    seq(|es|, i requires 0 <= i < |es| => LeaderLogEntry(es[i], None))
  }

  lemma LeftLeader()
    ensures NewGroup(0, 0) == Member(0, None, None, Leader(Log([First()]), None, 2), 1)
    ensures NextEntry(NewGroup(0, 0), 1) == Left2()
    ensures AppendNext(NewGroup(0, 0), 1, None) == Member(0, None, None, Leader(Log([First(), Left2()]), None, 2), 1)
  {
    assert Log([First()]) == [LeaderLogEntry(First(), None)];
    assert Log([First()]) + [LeaderLogEntry(Left2(), None)] == Log([First(), Left2()]);
  }

  lemma CapturesTwo(m: Member, a: LogEntry, b: LogEntry)
    requires LogsValid(m) && CaptureProblem(m, a).None? && CaptureEntry(m, a).Reply?
    requires CaptureProblem(CaptureEntry(m, a).member, b).None?
    ensures CaptureNext(m, [a, b]) == (var c := CaptureEntry(CaptureEntry(m, a).member, b);
                                       if c.Panic? then Panic else Reply(c.member, CaptureOk))
  {
    var c := CaptureEntry(m, a).member;
    assert [a, b][1..] == [b] && [b][1..] == [];
    assert CaptureEntries(c, [b]) == (var d := CaptureEntry(c, b);
                                      if d.Panic? then Panic else Reply(d.member, CaptureOk)) by {
      if CaptureEntry(c, b).Reply? { assert CaptureEntries(CaptureEntry(c, b).member, []) == Reply(CaptureEntry(c, b).member, CaptureOk); }
    }
  }

  lemma CapturesOne(m: Member, a: LogEntry)
    requires LogsValid(m) && CaptureProblem(m, a).None? && CaptureEntry(m, a).Reply?
    ensures CaptureNext(m, [a]) == Reply(CaptureEntry(m, a).member, CaptureOk)
  {
    assert [a][1..] == [];
    assert CaptureEntries(CaptureEntry(m, a).member, []) == Reply(CaptureEntry(m, a).member, CaptureOk);
  }

  lemma LogsGood()
    ensures ValidLog(Log([First(), Left2()])) && ValidLog(Log([First()]))
    ensures ValidLog(Log([First(), Right2()])) && ValidLog(Log([First(), Right2(), Right3()]))
  {
  }

  lemma LeaderCaptures()
    ensures LogsValid(Member(0, None, None, Leader(Log([First(), Left2()]), None, 2), 1))
    ensures CaptureNext(Member(0, None, None, Leader(Log([First(), Left2()]), None, 2), 1), [First(), Left2()])
            == Reply(Member(0, None, At(Left2()), Leader(Log([First(), Left2()]), None, 2), 1), CaptureOk)
  {
    LogsGood();
    CapturesTwo(Member(0, None, None, Leader(Log([First(), Left2()]), None, 2), 1), First(), Left2());
  }

  lemma WitnessCaptures()
    ensures CaptureNext(JoinGroup(1), [First(), Left2()]) == Reply(Member(1, None, At(Left2()), Witness, 1), CaptureOk)
    ensures CaptureNext(JoinGroup(2), [First()]) == Reply(Member(2, None, At(First()), Witness, 1), CaptureOk)
  {
    CapturesTwo(JoinGroup(1), First(), Left2());
    CapturesOne(JoinGroup(2), First());
  }

  lemma RightLeader()
    ensures BecomeLeader(Member(2, None, At(First()), Witness, 1), First())
            == Reply(Member(2, At(First()), At(First()), Leader(Log([First()]), None, 2), 2), LeaderOk)
    ensures var m := Member(2, At(First()), At(First()), Leader(Log([First()]), None, 2), 2);
            && NextEntry(m, 1) == Right2()
            && AppendNext(m, 1, None) == Member(2, At(First()), At(First()), Leader(Log([First(), Right2()]), None, 2), 2)
    ensures var m := Member(2, At(First()), At(First()), Leader(Log([First(), Right2()]), None, 2), 2);
            && NextEntry(m, 1) == Right3()
            && AppendNext(m, 1, None) == Member(2, At(First()), At(First()), Leader(Log([First(), Right2(), Right3()]), None, 2), 2)
  {
    assert Log([First()]) == [LeaderLogEntry(First(), None)];
    assert Log([First()]) + [LeaderLogEntry(Right2(), None)] == Log([First(), Right2()]);
    assert Log([First(), Right2()]) + [LeaderLogEntry(Right3(), None)] == Log([First(), Right2(), Right3()]);
  }

  lemma RightCaptures()
    ensures var m := Member(2, At(First()), At(First()), Leader(Log([First(), Right2(), Right3()]), None, 2), 2);
            && LogsValid(m)
            && CaptureNext(m, [Right2(), Right3()])
               == Reply(Member(2, At(First()), At(Right3()), Leader(Log([First(), Right2(), Right3()]), None, 2), 2), CaptureOk)
  {
    LogsGood();
    CapturesTwo(Member(2, At(First()), At(First()), Leader(Log([First(), Right2(), Right3()]), None, 2), 2), Right2(), Right3());
  }

  // ---- The votes ----

  lemma TwoVotes(log: LeaderLog, g: HsmId, h: HsmId, e: LogEntry)
    requires g in GROUP && h in GROUP && g != h && ValidLog(log)
    requires Counts(log, Claim(g, e)) && Counts(log, Claim(h, e))
    ensures IsOutcome(Tally(NoVotes(GROUP), log, [Claim(g, e), Claim(h, e)]), Some(e.index))
  {
    var t := Tally(NoVotes(GROUP), log, [Claim(g, e), Claim(h, e)]);
    assert [Claim(g, e), Claim(h, e)][..1] == [Claim(g, e)] && [Claim(g, e)][..0] == [];
    assert Tally(NoVotes(GROUP), log, [Claim(g, e)]) == NoVotes(GROUP)[g := Some(e.index)];
    assert t == NoVotes(GROUP)[g := Some(e.index)][h := Some(e.index)];
    assert t.Keys == GROUP && |t| == |t.Keys| == 3;
    assert Reached(t, e.index) == {g, h};
    forall j: nat | j > e.index ensures !Carries(t, j) { assert Reached(t, j) == {}; }
  }

  lemma {:induction false} NoResponses(log: LeaderLog)
    requires forall i :: 0 <= i < |log| ==> log[i].response == None
    ensures Responses(log) == []
  {
    if log != [] { NoResponses(log[..|log| - 1]); }
  }

  lemma LeftCommits()
    ensures var m := Member(0, At(Left2()), At(Left2()), Leader(Log([First(), Left2()]), None, 2), 1);
            && LogsValid(m)
            && IsOutcome(Tally(NoVotes(GROUP), m.role.log, [Claim(0, Left2()), Claim(1, Left2())]), Some(2))
            && Commit(m, Some(2)) == Reply(Member(0, At(Left2()), At(Left2()), Leader(Log([Left2()]), Some(2), 2), 1), Committed(2, [], []))
            && CommittedMac(m, 2) == Left2().entryMac
  {
    LogsGood();
    var log := Log([First(), Left2()]);
    TwoVotes(log, 0, 1, Left2());
    NoResponses(log[..2]);
    assert [log[1].(response := None)] + log[2..] == Log([Left2()]);
  }

  lemma RightCommits()
    ensures var m := Member(2, At(Right3()), At(Right3()), Leader(Log([First(), Right2(), Right3()]), None, 2), 2);
            && LogsValid(m)
            && IsOutcome(Tally(NoVotes(GROUP), m.role.log, [Claim(1, Right3()), Claim(2, Right3())]), Some(3))
            && Commit(m, Some(3)) == Reply(Member(2, At(Right3()), At(Right3()), Leader(Log([Right3()]), Some(3), 2), 2), Committed(3, [], []))
            && CommittedMac(m, 3) == Right3().entryMac
  {
    LogsGood();
    var log := Log([First(), Right2(), Right3()]);
    TwoVotes(log, 1, 2, Right3());
    NoResponses(log[..3]);
    assert [log[2].(response := None)] + log[3..] == Log([Right3()]);
  }

  // ---- The run ----

  ghost predicate JumpFree(steps: seq<Step>) {
    forall i :: 0 <= i < |steps| ==> !steps[i].DoCaptureJump?
  }

  ghost predicate Leads(run: seq<System>, steps: seq<Step>, s: System) {
    IsRun(run, steps) && run[|steps|] == s
  }

  /** Some run without any jump leads to `s`. */
  ghost predicate Happens(s: System) {
    exists run, steps :: Leads(run, steps, s) && JumpFree(steps)
  }

  lemma Extend(run: seq<System>, steps: seq<Step>, s: System, step: Step, s': System)
    requires Leads(run, steps, s) && Enabled(s, step) && Apply(s, step) == s'
    ensures Leads(run + [s'], steps + [step], s')
  {
    var run', steps' := run + [s'], steps + [step];
    assert IsNew(run'[0]);
    forall i | 0 <= i < |steps'| ensures Enabled(run'[i], steps'[i]) && run'[i + 1] == Apply(run'[i], steps'[i]) {
      if i < |steps| { assert steps'[i] == steps[i] && run'[i] == run[i] && run'[i + 1] == run[i + 1]; }
    }
  }

  lemma Go(s: System, step: Step, s': System)
    requires Happens(s) && Enabled(s, step) && Apply(s, step) == s' && !step.DoCaptureJump?
    ensures Happens(s')
  {
    var run, steps :| Leads(run, steps, s) && JumpFree(steps);
    Extend(run, steps, s, step, s');
    assert JumpFree(steps + [step]);
  }

  // One lemma per kind of step: what it does is given, and it happens.

  lemma Captures(s: System, h: HsmId, entries: seq<LogEntry>, m: Member)
    requires Happens(s) && h in s.members && LogsValid(s.members[h]) && (forall e <- entries :: e.entryMac in s.issued)
    requires CaptureNext(s.members[h], entries) == Reply(m, CaptureOk)
    ensures Happens(Put(s, h, m))
  {
    Go(s, DoCaptureNext(h, entries), Put(s, h, m));
  }

  lemma Appends(s: System, h: HsmId, m: Member, e: LogEntry)
    requires Happens(s) && h in s.members && LogsValid(s.members[h]) && s.members[h].role.Leader?
    requires AppendNext(s.members[h], 1, None) == m && NextEntry(s.members[h], 1) == e
    ensures Happens(Put(s, h, m).(issued := s.issued + {e.entryMac}))
  {
    Go(s, DoAppend(h, 1, None), Put(s, h, m).(issued := s.issued + {e.entryMac}));
  }

  lemma Persists(s: System, h: HsmId, m: Member, x: CapturedStatement)
    requires Happens(s) && h in s.members && s.members[h].captured.Some?
    requires Persist(s.members[h]) == m && StateCapture(m).statement == x
    ensures Happens(Put(s, h, m).(statements := s.statements + {x}))
  {
    Go(s, DoPersistState(h), Put(s, h, m).(statements := s.statements + {x}));
  }

  function Mac1(): EntryMac { First().entryMac }
  function MacL(): EntryMac { Left2().entryMac }
  function MacR2(): EntryMac { Right2().entryMac }
  function MacR3(): EntryMac { Right3().entryMac }
  function LeftRole(): Role { Leader(Log([First(), Left2()]), None, 2) }
  function RightRole(): Role { Leader(Log([First(), Right2(), Right3()]), None, 2) }
  function LeftLeading(): Member { Member(0, At(Left2()), At(Left2()), Leader(Log([Left2()]), Some(2), 2), 1) }
  function Voter(): Member { Member(1, At(Left2()), At(Left2()), Witness, 1) }
  function RightLeading(): Member { Member(2, At(Right3()), At(Right3()), RightRole(), 2) }

  lemma Start() returns (s: System)
    ensures Happens(s) && s.config == GROUP && s.released == {} && s.members == map[0 := NewGroup(0, 0), 1 := JoinGroup(1), 2 := JoinGroup(2)]
    ensures s.issued == {Mac1()} && s.statements == {} && s.commits == {}
  {
    var r := Init(GROUP, 0, 0);
    assert IsNew(r);
    assert Leads([r], [], r) && JumpFree([]);
    Go(r, DoJoinGroup(1), Put(r, 1, JoinGroup(1)));
    s := Put(Put(r, 1, JoinGroup(1)), 2, JoinGroup(2));
    Go(Put(r, 1, JoinGroup(1)), DoJoinGroup(2), s);
  }

  /** HSM 0 leads, and HSM 0 and HSM 1 capture its second entry. */
  lemma LeftCaptured() returns (s: System)
    ensures Happens(s) && s.config == GROUP && s.released == {} && s.members.Keys == {0, 1, 2}
    ensures s.members[0] == Member(0, None, At(Left2()), LeftRole(), 1)
    ensures s.members[1] == Member(1, None, At(Left2()), Witness, 1) && s.members[2] == JoinGroup(2)
    ensures s.issued == {Mac1(), MacL()} && s.statements == {} && s.commits == {}
  {
    s := Start();
    LeftLeader();
    LogsGood();
    Appends(s, 0, Member(0, None, None, LeftRole(), 1), Left2());
    s := Put(s, 0, Member(0, None, None, LeftRole(), 1)).(issued := s.issued + {MacL()});
    LeaderCaptures();
    Captures(s, 0, [First(), Left2()], Member(0, None, At(Left2()), LeftRole(), 1));
    s := Put(s, 0, Member(0, None, At(Left2()), LeftRole(), 1));
    WitnessCaptures();
    Captures(s, 1, [First(), Left2()], Member(1, None, At(Left2()), Witness, 1));
    s := Put(s, 1, Member(1, None, At(Left2()), Witness, 1));
  }

  lemma LeftStated() returns (s: System)
    ensures Happens(s) && s.config == GROUP && s.released == {} && s.members.Keys == {0, 1, 2}
    ensures s.members[0] == Member(0, At(Left2()), At(Left2()), LeftRole(), 1)
    ensures s.members[1] == Voter() && s.members[2] == JoinGroup(2)
    ensures s.issued == {Mac1(), MacL()} && s.commits == {}
    ensures s.statements == {Statement(0, 2, MacL()), Statement(1, 2, MacL())}
  {
    s := LeftCaptured();
    var a := Member(0, At(Left2()), At(Left2()), LeftRole(), 1);
    Persists(s, 0, a, Statement(0, 2, MacL()));
    s := Put(s, 0, a).(statements := s.statements + {Statement(0, 2, MacL())});
    Persists(s, 1, Voter(), Statement(1, 2, MacL()));
    s := Put(s, 1, Voter()).(statements := s.statements + {Statement(1, 2, MacL())});
  }

  lemma CommitApplies(s: System, h: HsmId, g: HsmId, k: HsmId, e: LogEntry, m: Member)
    requires h in s.members && LogsValid(s.members[h]) && !s.members[h].role.Witness? && s.released == {}
    requires Claim(g, e).statement in s.statements && Claim(k, e).statement in s.statements
    requires IsOutcome(Tally(NoVotes(s.config), s.members[h].role.log, [Claim(g, e), Claim(k, e)]), Some(e.index))
    requires Commit(s.members[h], Some(e.index)) == Reply(m, Committed(e.index, [], []))
    requires CommittedMac(s.members[h], e.index) == e.entryMac
    ensures var step := DoCommit(h, [Claim(g, e), Claim(k, e)], Some(e.index));
            Enabled(s, step) && Apply(s, step) == Put(s, h, m).(commits := s.commits + {e.entryMac})
  {
    assert Put(s, h, m).released == s.released + {};
  }

  lemma LeftCommitted() returns (s: System)
    ensures Happens(s) && s.config == GROUP && s.released == {} && s.members.Keys == {0, 1, 2}
    ensures s.members[1] == Voter() && s.members[2] == JoinGroup(2)
    ensures s.issued == {Mac1(), MacL()} && s.commits == {MacL()}
    ensures s.statements == {Statement(0, 2, MacL()), Statement(1, 2, MacL())}
  {
    var r := LeftStated();
    LeftCommits();
    CommitApplies(r, 0, 0, 1, Left2(), LeftLeading());
    s := Put(r, 0, LeftLeading()).(commits := r.commits + {MacL()});
    Go(r, DoCommit(0, [Claim(0, Left2()), Claim(1, Left2())], Some(2)), s);
  }

  lemma BecomesLeader(s: System, h: HsmId, last: LogEntry, m: Member)
    requires Happens(s) && h in s.members && BecomeLeader(s.members[h], last) == Reply(m, LeaderOk)
    ensures Happens(Put(s, h, m))
  {
    Go(s, DoBecomeLeader(h, last), Put(s, h, m));
  }

  /** HSM 2, which has seen only the first entry, leads as well. */
  lemma RightLeads() returns (s: System)
    ensures Happens(s) && s.config == GROUP && s.released == {} && s.members.Keys == {0, 1, 2}
    ensures s.members[1] == Voter()
    ensures s.members[2] == Member(2, At(First()), At(First()), Leader(Log([First()]), None, 2), 2)
    ensures s.issued == {Mac1(), MacL()} && s.commits == {MacL()}
    ensures s.statements == {Statement(0, 2, MacL()), Statement(1, 2, MacL())}
  {
    s := LeftCommitted();
    WitnessCaptures();
    Captures(s, 2, [First()], Member(2, None, At(First()), Witness, 1));
    s := Put(s, 2, Member(2, None, At(First()), Witness, 1));
    RightLeader();
    BecomesLeader(s, 2, First(), Member(2, At(First()), At(First()), Leader(Log([First()]), None, 2), 2));
    s := Put(s, 2, Member(2, At(First()), At(First()), Leader(Log([First()]), None, 2), 2));
  }

  lemma RightAppended() returns (s: System)
    ensures Happens(s) && s.config == GROUP && s.released == {} && s.members.Keys == {0, 1, 2}
    ensures s.members[1] == Voter() && s.members[2] == Member(2, At(First()), At(First()), RightRole(), 2)
    ensures s.issued == {Mac1(), MacL(), MacR2(), MacR3()} && s.commits == {MacL()}
    ensures s.statements == {Statement(0, 2, MacL()), Statement(1, 2, MacL())}
  {
    s := RightLeads();
    LogsGood();
    RightLeader();
    var m := Member(2, At(First()), At(First()), Leader(Log([First(), Right2()]), None, 2), 2);
    Appends(s, 2, m, Right2());
    s := Put(s, 2, m).(issued := s.issued + {MacR2()});
    m := Member(2, At(First()), At(First()), RightRole(), 2);
    Appends(s, 2, m, Right3());
    s := Put(s, 2, m).(issued := s.issued + {MacR3()});
  }

  /** HSM 2 captures and states the two entries it added. */
  lemma RightStated() returns (s: System)
    ensures Happens(s) && s.config == GROUP && s.released == {} && s.members.Keys == {0, 1, 2}
    ensures s.members[1] == Voter() && s.members[2] == RightLeading() && s.commits == {MacL()}
    ensures s.statements == {Statement(0, 2, MacL()), Statement(1, 2, MacL()), Statement(2, 3, MacR3())}
  {
    s := RightAppended();
    RightCaptures();
    var m := Member(2, At(First()), At(Right3()), RightRole(), 2);
    Captures(s, 2, [Right2(), Right3()], m);
    s := Put(s, 2, m);
    Persists(s, 2, RightLeading(), Statement(2, 3, MacR3()));
    s := Put(s, 2, RightLeading()).(statements := s.statements + {Statement(2, 3, MacR3())});
  }

  function Adopter(persisted: LogEntry): Member { Member(1, At(persisted), At(Right3()), Witness, 1) }

  /** The jump of HSM 1 to what HSM 2 stated, and what follows it. */
  lemma Aftermath(s: System, t: System, u: System, w: System)
    requires s.config == GROUP && s.released == {} && s.members.Keys == {0, 1, 2}
    requires s.members[1] == Voter() && s.members[2] == RightLeading() && s.commits == {MacL()}
    requires Statement(2, 3, MacR3()) in s.statements
    requires t == Put(s, 1, Adopter(Left2()))
    requires u == Put(t, 1, Adopter(Right3())).(statements := s.statements + {Statement(1, 3, MacR3())})
    requires w == Put(u, 2, Member(2, At(Right3()), At(Right3()), Leader(Log([Right3()]), Some(3), 2), 2)).(commits := s.commits + {MacR3()})
    ensures Enabled(s, DoCaptureJump(1, Claim(2, Right3()))) && Apply(s, DoCaptureJump(1, Claim(2, Right3()))) == t
    ensures Enabled(t, DoPersistState(1)) && Apply(t, DoPersistState(1)) == u
    ensures var step := DoCommit(2, [Claim(1, Right3()), Claim(2, Right3())], Some(3));
            Enabled(u, step) && Apply(u, step) == w
  {
    RightCommits();
    CommitApplies(u, 2, 1, 2, Right3(), Member(2, At(Right3()), At(Right3()), Leader(Log([Right3()]), Some(3), 2), 2));
  }

  ghost predicate Forked(s: System) {
    exists a, b :: a in s.commits && b in s.commits && Diverged(a, b)
  }

  /** A run with a single jump, an unsafe one, in which two leaders commit diverged entries. */
  lemma UnsafeJumpForks() returns (run: seq<System>, steps: seq<Step>, jump: nat)
    ensures IsRun(run, steps) && jump < |steps| && Forked(run[|steps|])
    ensures forall i :: 0 <= i < |steps| ==> (steps[i].DoCaptureJump? <==> i == jump)
    ensures !SafeJump(run[jump], steps[jump])
  {
    run, steps, jump := ForkedRun();
    if JumpsSafely(run, steps) {
      var a, b :| a in run[|steps|].commits && b in run[|steps|].commits && Diverged(a, b);
      CommitsAgree(run, steps, |steps|, |steps|, a, b);
      assert false;
    }
    var i :| 0 <= i < |steps| && !SafeJump(run[i], steps[i]);
  }

  lemma ForkedRun() returns (run: seq<System>, steps: seq<Step>, jump: nat)
    ensures IsRun(run, steps) && jump < |steps| && Forked(run[|steps|])
    ensures forall i :: 0 <= i < |steps| ==> (steps[i].DoCaptureJump? <==> i == jump)
  {
    var s := RightStated();
    var t := Put(s, 1, Adopter(Left2()));
    var u := Put(t, 1, Adopter(Right3())).(statements := s.statements + {Statement(1, 3, MacR3())});
    var w := Put(u, 2, Member(2, At(Right3()), At(Right3()), Leader(Log([Right3()]), Some(3), 2), 2)).(commits := s.commits + {MacR3()});
    Aftermath(s, t, u, w);
    assert Forked(w) by { assert MacL() in w.commits && MacR3() in w.commits && Diverged(MacL(), MacR3()); }
    run, steps :| Leads(run, steps, s) && JumpFree(steps);
    jump := |steps|;
    run, steps := ThreeMore(run, steps, s, DoCaptureJump(1, Claim(2, Right3())), t, DoPersistState(1), u,
                            DoCommit(2, [Claim(1, Right3()), Claim(2, Right3())], Some(3)), w);
  }

  lemma ThreeMore(run: seq<System>, steps: seq<Step>, s: System, a: Step, t: System, b: Step, u: System, c: Step, w: System)
    returns (run': seq<System>, steps': seq<Step>)
    requires Leads(run, steps, s) && JumpFree(steps) && a.DoCaptureJump? && !b.DoCaptureJump? && !c.DoCaptureJump?
    requires Enabled(s, a) && Apply(s, a) == t && Enabled(t, b) && Apply(t, b) == u && Enabled(u, c) && Apply(u, c) == w
    ensures Leads(run', steps', w) && |steps| < |steps'|
    ensures forall i :: 0 <= i < |steps'| ==> (steps'[i].DoCaptureJump? <==> i == |steps|)
  {
    Extend(run, steps, s, a, t);
    Extend(run + [t], steps + [a], t, b, u);
    Extend(run + [t] + [u], steps + [a] + [b], u, c, w);
    run', steps' := run + [t] + [u] + [w], steps + [a] + [b] + [c];
  }
}
