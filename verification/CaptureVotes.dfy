/**
 The voting core of a replication group: what each HSM has captured in memory,
 what it has persisted, and the capture statements it has ever issued. A log
 entry is certified once a strict majority has stated it or an entry after it.

 The theorem of this module is that certified entries never diverge. It is
 about every interleaving of captures, persists and restarts, with captures
 that follow the chain from what is captured or persisted, and jumps to
 entries that follow a certified one past what is persisted.
 */
module CaptureVotes {
  import opened MacChain

  datatype Votes = Votes(
    config: set<HsmId>,
    captured: map<HsmId, EntryMac>,
    persisted: map<HsmId, EntryMac>,
    statements: set<(HsmId, EntryMac)>)

  datatype Event =
    | Capture(hsm: HsmId, mac: EntryMac)
    | Persist(hsm: HsmId, stated: bool)
    | Restart(hsm: HsmId)

  ghost predicate WellFormed(v: Votes) {
    && v.captured.Keys == v.config && v.persisted.Keys == v.config
    && (forall h <- v.config :: WellIndexed(v.captured[h]) && WellIndexed(v.persisted[h]))
    && (forall s <- v.statements :: s.0 in v.config && WellIndexed(s.1))
  }

  ghost predicate Voted(v: Votes, h: HsmId, m: EntryMac) {
    exists s <- v.statements :: s.0 == h && OnChain(m, s.1)
  }

  ghost function Voters(v: Votes, m: EntryMac): set<HsmId> {
    set h <- v.config | Voted(v, h, m)
  }

  predicate Majority(config: set<HsmId>, q: set<HsmId>) {
    2 * |q| > |config|
  }

  ghost predicate Certified(v: Votes, m: EntryMac) {
    Majority(v.config, Voters(v, m))
  }

  /** `b` was captured after `a`: either it follows `a`, or a jump to a
      certified entry past `a` came in between. */
  ghost predicate Linked(v: Votes, a: EntryMac, b: EntryMac) {
    OnChain(a, b) || LeptOver(v, a, b)
  }

  ghost predicate LeptOver(v: Votes, a: EntryMac, b: EntryMac) {
    exists k :: Certified(v, k) && Index(a) < Index(k) && OnChain(k, b)
  }

  /** Having persisted past a certified entry diverged from `m`, this HSM can
      never again capture `m`. */
  ghost predicate LockedOut(v: Votes, h: HsmId, m: EntryMac)
    requires v.persisted.Keys == v.config
  {
    && h in v.config
    && exists k :: Certified(v, k) && Diverged(k, m) && OnChain(k, v.persisted[h])
  }

  ghost function Blockers(v: Votes, m: EntryMac): set<HsmId>
    requires v.persisted.Keys == v.config
  {
    set h <- v.config | !Voted(v, h, m) && LockedOut(v, h, m)
  }

  ghost predicate NoDivergence(v: Votes) {
    forall a, b :: Certified(v, a) && Certified(v, b) ==> !Diverged(a, b)
  }

  /** What each HSM of `v` stated, persisted and captured came in an order that
      follows the chain, up to jumps to entries certified in `u`. */
  ghost predicate OrderedBy(u: Votes, v: Votes)
    requires WellFormed(v)
  {
    && (forall h <- v.config :: Linked(u, v.persisted[h], v.captured[h]))
    && (forall s <- v.statements :: Linked(u, s.1, v.persisted[s.0]))
    && (forall s, t | s in v.statements && t in v.statements && s.0 == t.0 ::
          Linked(u, s.1, t.1) || Linked(u, t.1, s.1))
  }

  ghost predicate Blocked(v: Votes)
    requires v.persisted.Keys == v.config
  {
    forall k, m :: Certified(v, k) && Diverged(k, m) ==> Majority(v.config, Blockers(v, m))
  }

  ghost predicate Inv(v: Votes) {
    && WellFormed(v) && OrderedBy(v, v) && NoDivergence(v) && Blocked(v)
  }

  function Init(config: set<HsmId>): Votes {
    Votes(config, map h <- config :: ZeroMac, map h <- config :: ZeroMac, {})
  }

  ghost predicate Next(v: Votes, e: Event, v': Votes)
    requires WellFormed(v)
  {
    && e.hsm in v.config
    && match e {
         case Capture(h, m) =>
           && WellIndexed(m)
           && (OnChain(v.captured[h], m) || Linked(v, v.persisted[h], m))
           && v' == v.(captured := v.captured[h := m])
         case Persist(h, stated) =>
           var c := v.captured[h];
           v' == v.(persisted := v.persisted[h := c],
                    statements := if stated && c != ZeroMac then v.statements + {(h, c)} else v.statements)
         case Restart(h) =>
           v' == v.(captured := v.captured[h := v.persisted[h]])
       }
  }

  // ---- Majorities ----

  lemma MajoritiesMeet(config: set<HsmId>, p: set<HsmId>, q: set<HsmId>) returns (h: HsmId)
    requires p <= config && q <= config && Majority(config, p) && Majority(config, q)
    ensures h in p && h in q
  {
    if p * q == {} {
      assert |p + q| == |p| + |q|;
      Contained(p + q, config);
      assert false;
    }
    h :| h in p * q;
  }

  lemma Contained(a: set<HsmId>, b: set<HsmId>)
    requires a <= b
    ensures |a| <= |b|
  {
    assert b == a + (b - a);
  }

  lemma MajorityGrows(config: set<HsmId>, p: set<HsmId>, q: set<HsmId>)
    requires p <= q && Majority(config, p)
    ensures Majority(config, q)
  {
    Contained(p, q);
  }

  // ---- Certification only grows ----

  ghost predicate Extends(v: Votes, v': Votes) {
    v'.config == v.config && v.statements <= v'.statements
  }

  lemma CertifiedStays(v: Votes, v': Votes, m: EntryMac)
    requires Extends(v, v') && Certified(v, m)
    ensures Certified(v', m)
  {
    assert Voters(v, m) <= Voters(v', m);
    MajorityGrows(v.config, Voters(v, m), Voters(v', m));
  }

  lemma LinkedStays(v: Votes, v': Votes, a: EntryMac, b: EntryMac)
    requires Extends(v, v') && Linked(v, a, b)
    ensures Linked(v', a, b)
  {
    if !OnChain(a, b) {
      var k :| Certified(v, k) && Index(a) < Index(k) && OnChain(k, b);
      CertifiedStays(v, v', k);
    }
  }

  // ---- Links compose, and carry certified entries along ----

  lemma LinkedTransitive(v: Votes, a: EntryMac, b: EntryMac, c: EntryMac)
    requires WellIndexed(b) && WellIndexed(c) && Linked(v, a, b) && Linked(v, b, c)
    ensures Linked(v, a, c)
  {
    if OnChain(b, c) {
      if OnChain(a, b) {
        OnChainTransitive(a, b, c);
      } else {
        var k :| Certified(v, k) && Index(a) < Index(k) && OnChain(k, b);
        OnChainTransitive(k, b, c);
      }
    } else {
      var k :| Certified(v, k) && Index(b) < Index(k) && OnChain(k, c);
      if OnChain(a, b) {
        IndexAlongChain(a, b);
      } else {
        var j :| Certified(v, j) && Index(a) < Index(j) && OnChain(j, b);
        IndexAlongChain(j, b);
      }
    }
  }

  /** Which captures are linked depends on the statements only. */
  lemma LinkedAlike(v: Votes, u: Votes, a: EntryMac, b: EntryMac)
    requires v.config == u.config && v.statements == u.statements && Linked(v, a, b)
    ensures Linked(u, a, b)
  {
    if !OnChain(a, b) {
      var k :| Certified(v, k) && Index(a) < Index(k) && OnChain(k, b);
      assert Voters(u, k) == Voters(v, k) && Certified(u, k);
    }
  }

  /** Once past a certified entry, an HSM stays past it. */
  lemma StaysPast(v: Votes, k: EntryMac, a: EntryMac, b: EntryMac)
    requires NoDivergence(v) && Certified(v, k) && OnChain(k, a)
    requires WellIndexed(a) && WellIndexed(b) && Linked(v, a, b)
    ensures OnChain(k, b)
  {
    if OnChain(a, b) {
      OnChainTransitive(k, a, b);
    } else {
      var j :| Certified(v, j) && Index(a) < Index(j) && OnChain(j, b);
      IndexAlongChain(k, a);
      assert !Diverged(k, j);
      if !OnChain(k, j) {
        IndexAlongChain(j, b);
        IndexAlongChain(j, k);
        assert false;
      }
      OnChainTransitive(k, j, b);
    }
  }

  // ---- Captures, persists and restarts keep the order ----

  lemma CapturedStaysAhead(v: Votes, e: Event, v': Votes, h: HsmId)
    requires Inv(v) && Next(v, e, v') && h in v.config
    ensures Linked(v, v'.persisted[h], v'.captured[h])
  {
    if e.Capture? && e.hsm == h && !Linked(v, v.persisted[h], e.mac) {
      assert OnChain(e.mac, e.mac);
      LinkedTransitive(v, v.persisted[h], v.captured[h], e.mac);
    }
  }

  /** Statements stay behind what is persisted, and those of one HSM in line. */
  lemma StatedStaysBehind(v: Votes, e: Event, v': Votes, s: (HsmId, EntryMac))
    requires Inv(v) && Next(v, e, v') && s in v'.statements
    ensures s.0 in v.config && Linked(v, s.1, v'.persisted[s.0])
  {
    if s in v.statements {
      LinkedTransitive(v, s.1, v.persisted[s.0], v.captured[s.0]);
    }
  }

  lemma StatedInLine(v: Votes, e: Event, v': Votes, s: (HsmId, EntryMac), t: (HsmId, EntryMac))
    requires Inv(v) && Next(v, e, v') && s in v'.statements && t in v'.statements && s.0 == t.0
    ensures Linked(v, s.1, t.1) || Linked(v, t.1, s.1)
  {
    if s !in v.statements && t in v.statements { StatedStaysBehind(v, e, v', t); }
    if t !in v.statements && s in v.statements { StatedStaysBehind(v, e, v', s); }
  }

  lemma OrderStays(v: Votes, e: Event, v': Votes)
    requires Inv(v) && Next(v, e, v')
    ensures WellFormed(v') && Extends(v, v') && OrderedBy(v, v')
  {
    assert WellFormed(v') && Extends(v, v');
    hide Linked;
    forall h <- v.config ensures Linked(v, v'.persisted[h], v'.captured[h]) { CapturedStaysAhead(v, e, v', h); }
    forall s <- v'.statements ensures Linked(v, s.1, v'.persisted[s.0]) { StatedStaysBehind(v, e, v', s); }
    forall s, t | s in v'.statements && t in v'.statements && s.0 == t.0 ensures Linked(v, s.1, t.1) || Linked(v, t.1, s.1) {
      StatedInLine(v, e, v', s, t);
    }
  }

  lemma OrderedByLater(v: Votes, v': Votes)
    requires WellFormed(v') && Extends(v, v') && OrderedBy(v, v')
    ensures OrderedBy(v', v')
  {
    forall a, b | Linked(v, a, b) ensures Linked(v', a, b) { LinkedStays(v, v', a, b); }
  }

  // ---- An HSM locked out of an entry never states it ----

  lemma NeverCaptured(v: Votes, h: HsmId, k: EntryMac, m: EntryMac)
    requires Inv(v) && h in v.config
    requires Certified(v, k) && Diverged(k, m) && OnChain(k, v.persisted[h])
    ensures OnChain(k, v.captured[h]) && !OnChain(m, v.captured[h])
  {
    StaysPast(v, k, v.persisted[h], v.captured[h]);
    if OnChain(m, v.captured[h]) {
      SharedDescendant(k, m, v.captured[h]);
    }
  }

  lemma NotVotedStays(v: Votes, e: Event, v': Votes, h: HsmId, m: EntryMac)
    requires WellFormed(v) && Next(v, e, v') && h in v.config
    requires !OnChain(m, v.captured[h]) && !Voted(v, h, m)
    ensures !Voted(v', h, m)
  {}

  lemma BlockersStay(v: Votes, e: Event, v': Votes, m: EntryMac)
    requires Inv(v) && Next(v, e, v') && WellFormed(v') && Extends(v, v')
    ensures Blockers(v, m) <= Blockers(v', m)
  {
    forall h <- v.config | h in Blockers(v, m) ensures h in Blockers(v', m) {
      BlockerStays(v, e, v', m, h);
    }
  }

  lemma PersistedStaysPast(v: Votes, e: Event, v': Votes, h: HsmId, k: EntryMac)
    requires WellFormed(v) && Next(v, e, v') && h in v.config && OnChain(k, v.persisted[h]) && OnChain(k, v.captured[h])
    ensures h in v'.persisted && OnChain(k, v'.persisted[h])
  {}

  lemma BlockerStays(v: Votes, e: Event, v': Votes, m: EntryMac, h: HsmId)
    requires Inv(v) && Next(v, e, v') && WellFormed(v') && Extends(v, v')
    requires LockedOut(v, h, m) && !Voted(v, h, m)
    ensures LockedOut(v', h, m) && !Voted(v', h, m)
  {
    var k :| Certified(v, k) && Diverged(k, m) && OnChain(k, v.persisted[h]);
    hide Next, Linked, Certified, NoDivergence, Blocked, OrderedBy;
    NeverCaptured(v, h, k, m);
    NotVotedStays(v, e, v', h, m);
    PersistedStaysPast(v, e, v', h, k);
    CertifiedStays(v, v', k);
  }

  // ---- A newly certified entry does not diverge from an older one ----

  lemma OldAndNew(v: Votes, e: Event, v': Votes, older: EntryMac, newer: EntryMac)
    requires Inv(v) && Next(v, e, v') && WellFormed(v') && Extends(v, v')
    requires Certified(v, older) && Certified(v', newer)
    ensures !Diverged(older, newer)
  {
    if Diverged(older, newer) {
      BlockersStay(v, e, v', newer);
      MajorityGrows(v.config, Blockers(v, newer), Blockers(v', newer));
      var h := MajoritiesMeet(v.config, Voters(v', newer), Blockers(v', newer));
      assert false;
    }
  }

  /** The only way an entry becomes certified is that the acting HSM states it. */
  lemma NewlyCertified(v: Votes, e: Event, v': Votes, m: EntryMac)
    requires WellFormed(v) && Next(v, e, v') && Certified(v', m) && !Certified(v, m)
    ensures e.Persist? && OnChain(m, v.captured[e.hsm])
  {
    if !(e.Persist? && OnChain(m, v.captured[e.hsm])) {
      assert Voters(v', m) <= Voters(v, m);
      MajorityGrows(v.config, Voters(v', m), Voters(v, m));
    }
  }

  lemma NoDivergenceStays(v: Votes, e: Event, v': Votes)
    requires Inv(v) && Next(v, e, v') && WellFormed(v') && Extends(v, v')
    ensures NoDivergence(v')
  {
    forall a, b | Certified(v', a) && Certified(v', b) ensures !Diverged(a, b) {
      if Certified(v, a) {
        OldAndNew(v, e, v', a, b);
      } else if Certified(v, b) {
        OldAndNew(v, e, v', b, a);
      } else {
        NewlyCertified(v, e, v', a);
        NewlyCertified(v, e, v', b);
        SharedDescendant(a, b, v.captured[e.hsm]);
      }
    }
  }

  // ---- A newly certified entry blocks every entry diverged from it ----

  /** An HSM that has stated two diverged entries jumped in between, to an entry
      that was certified by then and diverges from the one left behind. */
  lemma DivergedStatements(v: Votes, k: EntryMac, m: EntryMac, s: EntryMac, t: EntryMac) returns (j: EntryMac)
    requires WellIndexed(s) && WellIndexed(t) && OnChain(k, s) && OnChain(m, t) && Diverged(k, m)
    requires Linked(v, t, s)
    ensures Certified(v, j) && OnChain(j, s) && Index(m) < Index(j)
  {
    if OnChain(t, s) {
      OnChainTransitive(m, t, s);
      SharedDescendant(k, m, s);
      assert false;
    }
    j :| Certified(v, j) && Index(t) < Index(j) && OnChain(j, s);
    IndexAlongChain(m, t);
  }

  lemma NotDivergedLater(k: EntryMac, m: EntryMac, j: EntryMac, s: EntryMac)
    requires WellIndexed(s) && OnChain(j, s) && OnChain(k, s)
    requires Index(m) < Index(j) && !Diverged(j, m) && WellIndexed(m)
    ensures !Diverged(k, m)
  {
    IndexAlongChain(j, s);
    if OnChain(j, m) {
      IndexAlongChain(j, m);
      assert false;
    }
    OnChainTransitive(m, j, s);
    SharedDescendant(k, m, s);
  }

  lemma VoterNeverVotedDiverged(v: Votes, v': Votes, k: EntryMac, m: EntryMac, h: HsmId)
    requires Inv(v) && WellFormed(v') && OrderedBy(v, v') && Extends(v, v') && NoDivergence(v')
    requires Certified(v', k) && Diverged(k, m) && Voted(v', h, k)
    requires forall j | Certified(v, j) :: !Diverged(j, m)
    ensures !Voted(v', h, m)
  {
    if Voted(v', h, m) {
      var s :| s in v'.statements && s.0 == h && OnChain(k, s.1);
      var t :| t in v'.statements && t.0 == h && OnChain(m, t.1);
      IndexAlongChain(m, t.1);
      IndexAlongChain(k, s.1);
      if Linked(v, t.1, s.1) {
        var j := DivergedStatements(v, k, m, s.1, t.1);
        NotDivergedLater(k, m, j, s.1);
      } else {
        var j := DivergedStatements(v, m, k, t.1, s.1);
        CertifiedStays(v, v', j);
        assert !Diverged(j, k);
        NotDivergedLater(m, k, j, t.1);
      }
      assert false;
    }
  }

  lemma NewlyCertifiedBlocks(v: Votes, v': Votes, k: EntryMac, m: EntryMac)
    requires Inv(v) && WellFormed(v') && OrderedBy(v, v') && Extends(v, v') && NoDivergence(v')
    requires Certified(v', k) && Diverged(k, m)
    requires forall j | Certified(v, j) :: !Diverged(j, m)
    ensures Majority(v.config, Blockers(v', m))
  {
    OrderedByLater(v, v');
    forall h <- Voters(v', k) ensures h in Blockers(v', m) {
      VoterNeverVotedDiverged(v, v', k, m, h);
      var s :| s in v'.statements && s.0 == h && OnChain(k, s.1);
      StaysPast(v', k, s.1, v'.persisted[h]);
      assert LockedOut(v', h, m);
    }
    MajorityGrows(v.config, Voters(v', k), Blockers(v', m));
  }

  lemma BlockedStays(v: Votes, e: Event, v': Votes)
    requires Inv(v) && Next(v, e, v')
    requires WellFormed(v') && OrderedBy(v, v') && Extends(v, v') && NoDivergence(v')
    ensures Blocked(v')
  {
    forall k, m | Certified(v', k) && Diverged(k, m) ensures Majority(v'.config, Blockers(v', m)) {
      if j :| Certified(v, j) && Diverged(j, m) {
        BlockersStay(v, e, v', m);
        MajorityGrows(v.config, Blockers(v, m), Blockers(v', m));
      } else {
        NewlyCertifiedBlocks(v, v', k, m);
      }
    }
  }

  // ---- The theorem ----

  lemma InitInv(config: set<HsmId>)
    ensures Inv(Init(config))
  {
    var v := Init(config);
    forall m ensures !Certified(v, m) {
      assert Voters(v, m) == {};
    }
  }

  lemma NextInv(v: Votes, e: Event, v': Votes)
    requires Inv(v) && Next(v, e, v')
    ensures Inv(v') && Extends(v, v')
  {
    OrderStays(v, e, v');
    NoDivergenceStays(v, e, v');
    BlockedStays(v, e, v');
    OrderedByLater(v, v');
  }
}
