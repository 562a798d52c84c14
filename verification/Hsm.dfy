/**
 The HSM's handlers for one group, as they change its fields step by step. Each
 is proved to do what the function of the same name in `GroupMember` says.
 */
module Hsm {
  import opened Wrappers
  import opened MacChain
  import opened Election
  import opened GroupMember

  function Voters(config: seq<HsmId>): set<HsmId> {
    set h | h in config
  }

  class GroupHsm {
    const id: HsmId
    const config: seq<HsmId>
    // In NVRAM.
    var persisted: Option<Capture>
    // Volatile.
    var captured: Option<Capture>
    var role: Role
    var clock: nat

    ghost function State(): Member
      reads this
    {
      Member(id, persisted, captured, role, clock)
    }

    ghost predicate Valid()
      reads this
    {
      MemberInv(State()) && config != []
    }

    constructor NewGroup(id: HsmId, config: seq<HsmId>, payload: Payload)
      requires id in config
      ensures Valid() && State() == GroupMember.NewGroup(id, payload) && this.config == config
    {
      this.id, this.config := id, config;
      persisted, captured := None, None;
      role, clock := Lead(FirstEntry(id, payload)), 1;
      new;
      NewGroupInv(id, payload);
    }

    /** Also how an HSM comes up again, with whatever NVRAM holds. */
    constructor Boot(id: HsmId, config: seq<HsmId>, nvram: Option<Capture>)
      requires id in config && (nvram.Some? ==> GoodCapture(nvram.value))
      ensures Valid() && State() == Member(id, nvram, nvram, Witness, 1) && this.config == config
    {
      this.id, this.config := id, config;
      persisted, captured := nvram, nvram;
      role, clock := Witness, 1;
    }

    method PersistCurrentCaptures()
      requires Valid()
      modifies this`persisted
      ensures Valid() && State() == Persist(old(State()))
    {
      if captured.Some? {
        persisted := captured;
      }
    }

    method HandlePersistState() returns (c: Option<Captured>)
      requires Valid()
      modifies this`persisted
      ensures Valid() && State() == Persist(old(State()))
      ensures c == if persisted.Some? then Some(StateCapture(State())) else None
    {
      PersistCurrentCaptures();
      c := None;
      if persisted.Some? {
        var p := persisted.value;
        c := Some(Captured(id, p.index, p.mac, Statement(id, p.index, p.mac)));
      }
    }

    method HandleBecomeLeader(last: LogEntry) returns (r: BecomeLeaderResponse)
      requires Valid()
      modifies this
      ensures Valid() && Reply(State(), r) == BecomeLeader(old(State()), last)
    {
      BecomeLeaderInv(State(), last);
      PersistCurrentCaptures();
      if role.SteppingDown? {
        return StepdownInProgress;
      }
      match persisted {
        case None => return NotCaptured(None);
        case Some(p) =>
          if last.index != p.index || last.entryMac != p.mac {
            return NotCaptured(Some(p.index));
          }
          if !ValidMac(last) {
            return InvalidMac;
          }
      }
      if !role.Leader? {
        role, clock := Lead(last), clock + 1;
      }
      r := LeaderOk;
    }

    method Append(payload: Payload, response: Option<nat>) returns (e: LogEntry)
      requires Valid() && role.Leader?
      modifies this`role
      ensures Valid() && State() == AppendNext(old(State()), payload, response) && e == NextEntry(old(State()), payload)
    {
      AppendInv(State(), payload, response);
      var last := role.log[|role.log| - 1].entry;
      e := BuildEntry(id, last.index + 1, payload, last.entryMac);
      role := Leader(role.log + [LeaderLogEntry(e, response)], role.committed, role.starting);
    }

    /** Pops entries until the log ends at `index`. The check that the log never
        becomes empty is what can panic; the HSM is gone then. */
    method StepDown(index: nat) returns (panicked: bool)
      requires role.Leader? && ValidLog(role.log)
      modifies this
      ensures panicked <==> StepDownAt(old(State()), index).Panic?
      ensures !panicked ==> Reply(State(), ()) == StepDownAt(old(State()), index)
    {
      var leader := role;
      var log := leader.log;
      if leader.committed.Some? {
        if leader.committed.value == index && LastIndex(log) == index {
          role, clock := Witness, clock + 1;
          return false;
        }
      }
      var abandoned;
      panicked, log, abandoned := PopPast(log, index);
      if panicked {
        return;
      }
      role := SteppingDown(log, leader.committed, abandoned, index, leader.starting);
      clock := clock + 1;
    }

    method HandleStepDown(force: bool) returns (ok: bool)
      requires Valid()
      modifies this
      ensures Valid()
      ensures force ==> ok == !old(role).Witness? && State() == MakeWitness(old(State()))
      ensures !force && !old(role).Leader? ==> !ok && State() == old(State())
      ensures !force && old(role).Leader? ==> ok && Reply(State(), ()) == StepDownAt(old(State()), LastIndex(old(role).log))
    {
      RestartInv(State());
      if force {
        ok := !role.Witness?;
        if ok {
          role, clock := Witness, clock + 1;
        }
      } else if role.Leader? {
        IndexesContiguous(role.log);
        StepDownInv(State(), LastIndex(role.log));
        var panicked := StepDown(LastIndex(role.log));
        ok := true;
      } else {
        ok := false;
      }
    }

    // ---- Capturing ----

    /** A leader meets a captured entry that its own log does not have. */
    method MeetAsLeader(e: LogEntry) returns (panicked: bool)
      requires LogsValid(State())
      modifies this
      ensures panicked <==> CaptureAsLeader(old(State()), e).Panic?
      ensures !panicked ==> Reply(State(), ()) == CaptureAsLeader(old(State()), e)
    {
      panicked := false;
      if role.Leader? {
        match HasLogDiverged(role.log, e) {
          case Same =>
          case PriorIndex =>
          case FutureIndex => panicked := StepDown(LastIndex(role.log));
          case EntryMacMismatch =>
            if e.index <= 1 {
              panicked := true;
            } else {
              panicked := StepDown(e.index - 1);
            }
        }
      }
    }

    /** While stepping down, the log is rebuilt from what is captured. */
    method MeetSteppingDown(e: LogEntry) returns (panicked: bool)
      requires LogsValid(State()) && ValidMac(e)
      modifies this
      ensures panicked <==> CaptureSteppingDown(old(State()), e).Panic?
      ensures !panicked ==> Reply(State(), ()) == CaptureSteppingDown(old(State()), e)
    {
      if !role.SteppingDown? {
        return false;
      }
      var sd := role;
      var log := sd.log;
      match HasLogDiverged(log, e) {
        case Same => return false;
        case PriorIndex => return false;
        case FutureIndex =>
          if !Follows(e, log[|log| - 1].entry) {
            return true;
          }
          role := SteppingDown(log + [LeaderLogEntry(e, None)], sd.committed, sd.abandoned, sd.stepdownAt, sd.leaderStarting);
          return false;
        case EntryMacMismatch =>
          var stepdownAt := if e.index - 1 < sd.stepdownAt then e.index - 1 else sd.stepdownAt;
          var abandoned;
          panicked, log, abandoned := PopPast(log, e.index - 1);
          if panicked {
            return;
          }
          if !Follows(e, log[|log| - 1].entry) {
            return true;
          }
          role := SteppingDown(log + [LeaderLogEntry(e, None)], sd.committed, sd.abandoned + abandoned, stepdownAt, sd.leaderStarting);
          return false;
      }
    }

    method HandleCaptureNext(entries: seq<LogEntry>) returns (panicked: bool, r: CaptureNextResponse)
      requires Valid()
      modifies this
      ensures panicked <==> CaptureNext(old(State()), entries).Panic?
      ensures !panicked ==> Valid() && Reply(State(), r) == CaptureNext(old(State()), entries)
    {
      panicked := false;
      if entries == [] {
        return false, MissingEntries;
      }
      for i := 0 to |entries|
        invariant Valid() && CaptureEntries(State(), entries[i..]) == CaptureEntries(old(State()), entries)
      {
        var e := entries[i];
        assert entries[i..][0] == e && entries[i..][1..] == entries[i + 1..];
        if !ValidMac(e) {
          return false, CaptureInvalidMac;
        }
        match captured {
          case None =>
            if e.index != FIRST_INDEX {
              return false, MissingPrev;
            }
            if e.prevMac != ZeroMac {
              return false, InvalidChain;
            }
          case Some(c) =>
            if e.index != c.index + 1 {
              return false, MissingPrev;
            }
            if e.prevMac != c.mac {
              return false, InvalidChain;
            }
        }
        CaptureEntryInv(State(), e);
        captured := Some(Capture(e.index, e.entryMac));
        panicked := MeetAsLeader(e);
        if panicked {
          return true, InvalidChain;
        }
        panicked := MeetSteppingDown(e);
        if panicked {
          return true, InvalidChain;
        }
      }
      r := CaptureOk;
    }

    method HandleCaptureJump(jump: Captured) returns (r: CaptureJumpResponse)
      requires Valid()
      modifies this`captured
      ensures Reply(State(), r) == CaptureJump(old(State()), jump)
      ensures GoodCapture(Capture(jump.index, jump.mac)) || !r.JumpOk? ==> Valid()
    {
      if !role.Witness? {
        return NotWitness;
      }
      if !Verifies(jump) {
        return InvalidStatement;
      }
      if captured.Some? && captured.value.index >= jump.index {
        return StaleIndex;
      }
      captured := Some(Capture(jump.index, jump.mac));
      r := JumpOk;
    }

    // ---- Committing ----

    method HandleCommit(captures: seq<Captured>) returns (r: CommitResponse, ghost outcome: Option<nat>)
      requires Valid()
      modifies this
      ensures Valid()
      ensures !old(role).Witness? ==> IsOutcome(Tally(NoVotes(Voters(config)), old(role).log, captures), outcome)
      ensures Reply(State(), r) == Commit(old(State()), outcome)
    {
      if role.Witness? {
        return NotLeader, None;
      }
      var vote := ElectionOutcome(config, role.log, captures);
      outcome := vote;
      if vote.None? {
        return NoQuorum, outcome;
      }
      OutcomeInLog(Voters(config), role.log, captures, vote.value);
      r := CommitAt(vote.value);
    }

    /** Commits up to the outcome of the vote, but not past a step-down nor back behind an earlier commit. */
    method CommitAt(vote: nat) returns (r: CommitResponse)
      requires Valid() && !role.Witness? && FirstIndex(role.log) <= vote <= LastIndex(role.log)
      modifies this
      ensures Valid() && Reply(State(), r) == Commit(old(State()), Some(vote))
    {
      TrimmedInv(State(), vote);
      var index := CommitIndex(role, vote);
      var log, responses := TrimTo(role.log, index);
      var abandoned := Settle(index, log);
      r := Committed(index, responses, abandoned);
    }

    /** Records a commit; a leader stepping down may be done with it. */
    method Settle(index: nat, rest: LeaderLog) returns (abandoned: seq<EntryMac>)
      requires !role.Witness?
      modifies this
      ensures State() == AfterCommit(old(State()), index, rest)
      ensures abandoned == if old(role).Leader? then [] else old(role).abandoned
    {
      if role.Leader? {
        abandoned := [];
        role := Leader(rest, Some(index), role.starting);
      } else {
        abandoned := role.abandoned;
        if index >= role.stepdownAt {
          role, clock := Witness, clock + 1;
        } else {
          role := SteppingDown(rest, Some(index), [], role.stepdownAt, role.leaderStarting);
        }
      }
    }
  }

  /** Lets every claim that counts vote. */
  method ElectionOutcome(config: seq<HsmId>, log: LeaderLog, captures: seq<Captured>) returns (outcome: Option<nat>)
    requires config != [] && ValidLog(log)
    ensures IsOutcome(Tally(NoVotes(Voters(config)), log, captures), outcome)
  {
    var election := new HsmElection(config);
    for i := 0 to |captures|
      invariant fresh(election)
      invariant election.votes == Tally(NoVotes(Voters(config)), log, captures[..i])
    {
      var c := captures[i];
      assert captures[..i + 1][..i] == captures[..i];
      if Verifies(c) {
        var x := GetIndex(log, c.index);
        if x.Some? && x.value.entry.entryMac == c.mac {
          election.Vote(c.hsm, c.index);
        }
      }
    }
    assert captures[..|captures|] == captures;
    outcome := election.Outcome();
  }

  /** Pops entries off the front of a log up to `index`, taking their responses
      and that of the first entry kept. */
  method TrimTo(log: LeaderLog, index: nat) returns (rest: LeaderLog, responses: seq<(EntryMac, nat)>)
    requires ValidLog(log) && FirstIndex(log) <= index <= LastIndex(log)
    ensures var n := index - FirstIndex(log);
            && n < |log| && rest == [log[n].(response := None)] + log[n + 1..]
            && responses == Responses(log[..n + 1])
  {
    IndexesContiguous(log);
    responses := [];
    rest := log;
    ghost var n := 0;
    while FirstIndex(rest) < index
      invariant n < |log| && rest == log[n..] && FirstIndex(rest) <= index
      invariant responses == Responses(log[..n])
      decreases |rest|
    {
      assert log[..n + 1][..n] == log[..n];
      var x := rest[0];
      rest := rest[1..];
      if x.response.Some? {
        responses := responses + [(x.entry.entryMac, x.response.value)];
      }
      n := n + 1;
    }
    assert log[..n + 1][..n] == log[..n];
    if rest[0].response.Some? {
      responses := responses + [(rest[0].entry.entryMac, rest[0].response.value)];
    }
    rest := [rest[0].(response := None)] + rest[1..];
  }

  /** Pops entries off the end of a log until it ends at `index`. A log must
      never become empty, so a log that starts past `index` is a panic. */
  method PopPast(log: LeaderLog, index: nat) returns (panicked: bool, kept: LeaderLog, popped: seq<EntryMac>)
    requires ValidLog(log)
    ensures panicked <==> index < FirstIndex(log)
    ensures !panicked ==> kept == UpTo(log, index) && popped == MacsInReverse(log[|kept|..])
  {
    kept, popped := log, [];
    IndexesContiguous(log);
    while LastIndex(kept) > index
      invariant kept != [] && kept <= log && popped == MacsInReverse(log[|kept|..])
      invariant |kept| < |log| ==> index <= LastIndex(kept)
      decreases |kept|
    {
      if |kept| <= 1 {
        return true, kept, popped;
      }
      PushMac(log, |kept| - 1);
      popped := popped + [kept[|kept| - 1].entry.entryMac];
      kept := kept[..|kept| - 1];
    }
    panicked := false;
  }

  /** Popping one more entry appends its MAC to the abandoned ones. */
  lemma {:induction false} PushMac(all: LeaderLog, n: nat)
    requires n < |all|
    ensures MacsInReverse(all[n..]) == MacsInReverse(all[n + 1..]) + [all[n].entry.entryMac]
    decreases |all|
  {
    if n + 1 < |all| {
      var front := all[..|all| - 1];
      PushMac(front, n);
      assert all[n..][..|all[n..]| - 1] == front[n..];
      assert all[n + 1..][..|all[n + 1..]| - 1] == front[n + 1..];
    } else {
      assert all[n..] == [all[n]];
    }
  }
}
