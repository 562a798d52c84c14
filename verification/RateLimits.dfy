/**
 Limiting the rate of requests on a node of a cluster, where a request that was
 turned away holds a reservation and nodes tell each other what they have
 admitted, reserved and used.
 */
module RateLimits {
  import opened Wrappers

  /** Milliseconds. */
  type Time = nat
  type Id = nat

  const SECOND: Time := 1000
  const RESERVATION_LIFETIME: Time := 2000

  // ---- Ordered queues ----

  predicate SortedBy<T(!new)>(s: seq<T>, key: T -> Time) {
    forall i, j :: 0 <= i < j < |s| ==> key(s[i]) <= key(s[j])
  }

  function InsertBy<T>(s: seq<T>, x: T, key: T -> Time): (r: seq<T>)
    ensures multiset(r) == multiset(s) + multiset{x}
  {
    if s == [] then [x]
    else if key(x) <= key(s[0]) then [x] + s
    else
      var t := InsertBy(s[1..], x, key);
      assert s == [s[0]] + s[1..];
      [s[0]] + t
  }

  /** Adds an item where it belongs, at the end if nothing in the queue is larger. */
  function AddBy<T>(s: seq<T>, x: T, key: T -> Time): (r: seq<T>)
    ensures multiset(r) == multiset(s) + multiset{x}
  {
    if s == [] || key(s[|s| - 1]) <= key(x) then s + [x] else InsertBy(s, x, key)
  }

  function SortBy<T>(s: seq<T>, key: T -> Time): (r: seq<T>)
    ensures multiset(r) == multiset(s)
  {
    if s == [] then []
    else
      assert s == [s[0]] + s[1..];
      InsertBy(SortBy(s[1..], key), s[0], key)
  }

  lemma {:induction false} InsertSorts<T(!new)>(s: seq<T>, x: T, key: T -> Time)
    requires SortedBy(s, key)
    ensures SortedBy(InsertBy(s, x, key), key)
  {
    if s != [] && key(x) > key(s[0]) {
      InsertSorts(s[1..], x, key);
      var t := InsertBy(s[1..], x, key);
      forall i | 0 <= i < |t| ensures key(s[0]) <= key(t[i]) {
        assert t[i] in multiset(t);
        if t[i] != x {
          assert t[i] in multiset(s[1..]);
          var k :| 0 <= k < |s[1..]| && s[1..][k] == t[i];
        }
      }
    }
  }

  lemma AddSorts<T(!new)>(s: seq<T>, x: T, key: T -> Time)
    requires SortedBy(s, key)
    ensures SortedBy(AddBy(s, x, key), key)
  {
    InsertSorts(s, x, key);
  }

  lemma {:induction false} SortSorts<T(!new)>(s: seq<T>, key: T -> Time)
    ensures SortedBy(SortBy(s, key), key)
  {
    if s != [] {
      SortSorts(s[1..], key);
      InsertSorts(SortBy(s[1..], key), s[0], key);
    }
  }

  function TimeOf(t: Time): Time { t }

  function RemoveSmaller(s: seq<Time>, upto: Time): seq<Time> {
    if s != [] && s[0] < upto then RemoveSmaller(s[1..], upto) else s
  }

  // ---- Reservations ----

  datatype Expiry = Expiry(when: Time, id: Id)

  function WhenOf(e: Expiry): Time { e.when }

  datatype ReservationSet = ReservationSet(expiry: seq<Expiry>, ids: map<Id, Time>)

  /** Drops what has expired before `upto`. */
  function Expire(r: ReservationSet, upto: Time): ReservationSet
    decreases |r.expiry|
  {
    if r.expiry == [] || r.expiry[0].when >= upto then r
    else
      var e := r.expiry[0];
      var ids := if e.id in r.ids && r.ids[e.id] == e.when then r.ids - {e.id} else r.ids;
      Expire(ReservationSet(r.expiry[1..], ids), upto)
  }

  /** Takes a reservation out of the set, if there is one for the record. */
  function Take(r: ReservationSet, now: Time, id: Id): (ReservationSet, Option<Time>) {
    var e := Expire(r, now);
    (e.(ids := e.ids - {id}), if id in e.ids then Some(e.ids[id]) else None)
  }

  function Reserve(r: ReservationSet, expires: Time, id: Id): ReservationSet {
    ReservationSet(AddBy(r.expiry, Expiry(expires, id), WhenOf),
                   r.ids[id := if id in r.ids && r.ids[id] > expires then r.ids[id] else expires])
  }

  datatype Reservations = Reservations(mine: ReservationSet, others: ReservationSet, used: set<(Time, Id)>, usedOthers: set<(Time, Id)>)

  /** The reservations afterwards, and the one that was honoured. */
  function UseReservation(r: Reservations, now: Time, id: Id): (Reservations, Option<Time>) {
    var (mine, fromMine) := Take(r.mine, now, id);
    var (others, fromOthers) := if fromMine.None? then Take(r.others, now, id) else (r.others, None);
    var found := if fromMine.Some? then fromMine else fromOthers;
    if found.None? then (r.(mine := mine, others := others), None)
    else
      var key := (found.value, id);
      (Reservations(mine, others, r.used + {key}, r.usedOthers),
       if key in r.used || key in r.usedOthers then None else found)
  }

  // ---- The limiter ----

  datatype Limiter = Limiter(rate: nat, mine: seq<Time>, others: seq<Time>, reservations: Reservations)

  datatype State = State(reqs: seq<Time>, reservations: ReservationSet, used: set<(Time, Id)>)

  const NO_RESERVATIONS: ReservationSet := ReservationSet([], map[])
  const NO_STATE: State := State([], NO_RESERVATIONS, {})

  function NewLimiter(rate: nat): Limiter {
    Limiter(rate, [], [], Reservations(NO_RESERVATIONS, NO_RESERVATIONS, {}, {}))
  }

  /** `within` is whether the rate alone allows the request, `reservation` what was honoured. */
  datatype Decision = Decision(used: nat, within: bool, reservation: Option<Time>) {
    predicate Allowed() {
      within || reservation.Some?
    }
  }

  /** Decides about a request. The clock is past the first second of its era. */
  function Allow(l: Limiter, now: Time, id: Id): (Limiter, Decision)
    requires now >= SECOND
  {
    var mine := RemoveSmaller(l.mine, now - SECOND);
    var others := RemoveSmaller(l.others, now - SECOND);
    var (reservations, honoured) := UseReservation(l.reservations, now, id);
    var d := Decide(|mine| + |others|, l.rate, honoured);
    (Limiter(l.rate, if d.Allowed() then AddBy(mine, now, TimeOf) else mine, others, reservations), d)
  }

  function Decide(count: nat, rate: nat, honoured: Option<Time>): Decision {
    Decision(count, count < rate, honoured)
  }

  function AddReservation(l: Limiter, now: Time, id: Id): Limiter {
    l.(reservations := l.reservations.(mine := Reserve(l.reservations.mine, now + RESERVATION_LIFETIME, id)))
  }

  function Prune(used: set<(Time, Id)>, before: Time): set<(Time, Id)> {
    set u <- used | u.0 >= before
  }

  /** What is told to the other nodes; forgets uses that are long over. */
  function Share(l: Limiter, now: Time): (Limiter, State)
    requires now >= 2 * RESERVATION_LIFETIME
  {
    var used := Prune(l.reservations.used, now - 2 * RESERVATION_LIFETIME);
    (l.(reservations := l.reservations.(used := used)), State(l.mine, l.reservations.mine, used))
  }

  function Concat(states: seq<State>): State {
    if states == [] then NO_STATE
    else
      var s, t := Concat(states[..|states| - 1]), states[|states| - 1];
      State(s.reqs + t.reqs, ReservationSet(s.reservations.expiry + t.reservations.expiry, s.reservations.ids + t.reservations.ids), s.used + t.used)
  }

  function Merge(states: seq<State>): State {
    if |states| == 1 then states[0]
    else
      var s := Concat(states);
      State(SortBy(s.reqs, TimeOf), s.reservations.(expiry := SortBy(s.reservations.expiry, WhenOf)), s.used)
  }

  function UpdateFromPeers(l: Limiter, merged: State): Limiter {
    l.(others := merged.reqs,
       reservations := l.reservations.(others := merged.reservations, usedOthers := merged.used))
  }

  // ---- Reservations expire ----

  ghost predicate Tracked(r: ReservationSet) {
    && SortedBy(r.expiry, WhenOf)
    && forall id <- r.ids :: Expiry(r.ids[id], id) in r.expiry
  }

  lemma {:induction false} ExpireKeeps(r: ReservationSet, upto: Time)
    requires Tracked(r)
    ensures Tracked(Expire(r, upto)) && forall id <- Expire(r, upto).ids :: Expire(r, upto).ids[id] >= upto
    decreases |r.expiry|
  {
    if r.expiry == [] {
    } else if r.expiry[0].when >= upto {
      forall id | id in r.ids ensures r.ids[id] >= upto {
        var i :| 0 <= i < |r.expiry| && r.expiry[i] == Expiry(r.ids[id], id);
        assert WhenOf(r.expiry[0]) <= WhenOf(r.expiry[i]);
      }
    } else {
      var e := r.expiry[0];
      var ids := if e.id in r.ids && r.ids[e.id] == e.when then r.ids - {e.id} else r.ids;
      assert r.expiry == [e] + r.expiry[1..];
      ExpireKeeps(ReservationSet(r.expiry[1..], ids), upto);
    }
  }

  lemma TakeKeeps(r: ReservationSet, now: Time, id: Id)
    requires Tracked(r)
    ensures Tracked(Take(r, now, id).0) && (Take(r, now, id).1.Some? ==> Take(r, now, id).1.value >= now)
  {
    ExpireKeeps(r, now);
  }

  lemma ReserveKeeps(r: ReservationSet, expires: Time, id: Id)
    requires Tracked(r)
    ensures Tracked(Reserve(r, expires, id))
  {
    var e := Expiry(expires, id);
    var t := AddBy(r.expiry, e, WhenOf);
    AddSorts(r.expiry, e, WhenOf);
    forall x | x == e || x in r.expiry ensures x in t {
      assert x in multiset(r.expiry) + multiset{e};
      assert x in multiset(t);
    }
  }

  lemma {:induction false} ConcatTracks(states: seq<State>, id: Id)
    requires forall s <- states :: Tracked(s.reservations)
    requires id in Concat(states).reservations.ids
    ensures var r := Concat(states).reservations; Expiry(r.ids[id], id) in r.expiry
  {
    var n := |states| - 1;
    if id !in states[n].reservations.ids { ConcatTracks(states[..n], id); }
  }

  lemma MergeKeeps(states: seq<State>)
    requires forall s <- states :: Tracked(s.reservations)
    ensures Tracked(Merge(states).reservations)
  {
    if |states| != 1 {
      var r := Concat(states).reservations;
      var t := SortBy(r.expiry, WhenOf);
      SortSorts(r.expiry, WhenOf);
      forall id | id in r.ids ensures Expiry(r.ids[id], id) in t {
        ConcatTracks(states, id);
        assert Expiry(r.ids[id], id) in multiset(r.expiry);
        assert Expiry(r.ids[id], id) in multiset(t);
      }
    } else {
      assert states[0] in states;
    }
  }

  ghost predicate AllTracked(r: Reservations) {
    Tracked(r.mine) && Tracked(r.others)
  }

  /** Using a reservation honours one that has not expired and was not used before. */
  lemma UseKeeps(r: Reservations, now: Time, id: Id)
    requires AllTracked(r)
    ensures var (t, honoured) := UseReservation(r, now, id);
            && AllTracked(t) && r.used <= t.used
            && (honoured.Some? ==> honoured.value >= now && (honoured.value, id) !in r.used && (honoured.value, id) in t.used)
  {
    TakeKeeps(r.mine, now, id);
    TakeKeeps(r.others, now, id);
  }

  lemma {:induction false} LiveStays(r: ReservationSet, upto: Time, id: Id)
    requires id in r.ids && r.ids[id] >= upto
    ensures id in Expire(r, upto).ids && Expire(r, upto).ids[id] == r.ids[id]
    decreases |r.expiry|
  {
    if r.expiry != [] && r.expiry[0].when < upto {
      var e := r.expiry[0];
      LiveStays(ReservationSet(r.expiry[1..], if e.id in r.ids && r.ids[e.id] == e.when then r.ids - {e.id} else r.ids), upto, id);
    }
  }

  // ---- A cluster of nodes ----

  /** A reservation that was honoured, and when. */
  datatype Use = Use(expires: Time, id: Id, at: Time)

  datatype Admission = Admission(at: Time, within: bool)

  /** A limiter, the latest time its node's clock has shown, what it has decided, and the highest rate it has had. */
  datatype Node = Node(limiter: Limiter, latest: Time, uses: seq<Use>, admissions: seq<Admission>, highest: nat)

  /** `sent` are the states that nodes have shared; they may arrive at any time, in any combination and repeatedly. */
  datatype Cluster = Cluster(nodes: seq<Node>, sent: set<State>)

  datatype Step =
    | DoAllow(node: nat, now: Time, id: Id)
    | DoReserve(node: nat, now: Time, id: Id)
    | DoShare(node: nat, now: Time)
    | DoUpdate(node: nat, states: seq<State>)
    | DoSetRate(node: nat, rate: nat)

  /** Steps that look at the clock. */
  predicate Timed(step: Step) {
    step.DoAllow? || step.DoReserve? || step.DoShare?
  }

  /** Every clock is some seconds past the start of its era. */
  predicate Possible(c: Cluster, step: Step) {
    && step.node < |c.nodes|
    && (step.DoUpdate? ==> forall s <- step.states :: s in c.sent)
    && (Timed(step) ==> step.now >= 2 * RESERVATION_LIFETIME)
  }

  function Later(a: Time, b: Time): Time { if a >= b then a else b }

  function AllowAt(n: Node, now: Time, id: Id): Node
    requires now >= SECOND
  {
    var (l, d) := Allow(n.limiter, now, id);
    Node(l, Later(n.latest, now),
         if d.reservation.Some? then n.uses + [Use(d.reservation.value, id, now)] else n.uses,
         if d.Allowed() then n.admissions + [Admission(now, d.within)] else n.admissions,
         n.highest)
  }

  function NodeAfter(n: Node, step: Step): Node
    requires Timed(step) ==> step.now >= 2 * RESERVATION_LIFETIME
  {
    match step
    case DoAllow(_, now, id) => AllowAt(n, now, id)
    case DoReserve(_, now, id) => n.(limiter := AddReservation(n.limiter, now, id), latest := Later(n.latest, now))
    case DoShare(_, now) => n.(limiter := Share(n.limiter, now).0, latest := Later(n.latest, now))
    case DoUpdate(_, states) => n.(limiter := UpdateFromPeers(n.limiter, Merge(states)))
    case DoSetRate(_, rate) => n.(limiter := n.limiter.(rate := rate), highest := Later(n.highest, rate))
  }

  function Apply(c: Cluster, step: Step): Cluster
    requires Possible(c, step)
  {
    Cluster(c.nodes[step.node := NodeAfter(c.nodes[step.node], step)],
            if step.DoShare? then c.sent + {Share(c.nodes[step.node].limiter, step.now).1} else c.sent)
  }

  ghost predicate IsRun(rates: seq<nat>, run: seq<Cluster>, steps: seq<Step>) {
    && |run| == |steps| + 1
    && run[0] == Cluster(seq(|rates|, i requires 0 <= i < |rates| => Node(NewLimiter(rates[i]), 0, [], [], rates[i])), {})
    && forall i {:trigger steps[i]} :: 0 <= i < |steps| ==> Possible(run[i], steps[i]) && run[i + 1] == Apply(run[i], steps[i])
  }

  /** The node's clock never shows a time more than `slack` before one it has shown. */
  ghost predicate StepsBackAtMost(run: seq<Cluster>, steps: seq<Step>, n: nat, slack: Time)
    requires |run| == |steps| + 1
  {
    forall i {:trigger steps[i]} :: 0 <= i < |steps| && steps[i].node == n < |run[i].nodes| && Timed(steps[i]) ==>
      run[i].nodes[n].latest <= steps[i].now + slack
  }

  // ---- Reservations are honoured once ----

  ghost predicate ClusterTracked(c: Cluster) {
    && (forall i :: 0 <= i < |c.nodes| ==> AllTracked(c.nodes[i].limiter.reservations))
    && (forall s <- c.sent :: Tracked(s.reservations))
  }

  lemma NodeStaysTracked(n: Node, step: Step)
    requires Timed(step) ==> step.now >= 2 * RESERVATION_LIFETIME
    requires AllTracked(n.limiter.reservations) && (step.DoUpdate? ==> forall s <- step.states :: Tracked(s.reservations))
    ensures AllTracked(NodeAfter(n, step).limiter.reservations)
  {
    match step
    case DoAllow(_, now, id) =>
      UseKeeps(n.limiter.reservations, now, id);
      assert NodeAfter(n, step).limiter.reservations == UseReservation(n.limiter.reservations, now, id).0;
    case DoReserve(_, now, id) =>
      ReserveKeeps(n.limiter.reservations.mine, now + RESERVATION_LIFETIME, id);
    case DoShare(_, now) =>
    case DoUpdate(_, states) =>
      MergeKeeps(states);
    case DoSetRate(_, _) =>
  }

  lemma {:induction false} RunTracked(rates: seq<nat>, run: seq<Cluster>, steps: seq<Step>, j: nat)
    requires IsRun(rates, run, steps) && j < |run|
    ensures ClusterTracked(run[j]) && |run[j].nodes| == |rates|
  {
    if j > 0 {
      RunTracked(rates, run, steps, j - 1);
      var step := steps[j - 1];
      NodeStaysTracked(run[j - 1].nodes[step.node], step);
    }
  }

  predicate Distinct(uses: seq<Use>) {
    forall i, j :: 0 <= i < j < |uses| ==> (uses[i].expires, uses[i].id) != (uses[j].expires, uses[j].id)
  }

  predicate InTime(uses: seq<Use>) {
    forall u <- uses :: u.at <= u.expires
  }

  /** What the node has used it remembers, except what no clock will show again. */
  ghost predicate Remembers(n: Node) {
    && Distinct(n.uses) && InTime(n.uses)
    && forall u <- n.uses :: (u.expires, u.id) in n.limiter.reservations.used || u.expires + 2 * RESERVATION_LIFETIME < n.latest
  }

  lemma AllowRemembers(n: Node, now: Time, id: Id)
    requires Remembers(n) && AllTracked(n.limiter.reservations) && now >= SECOND && n.latest <= now + 2 * RESERVATION_LIFETIME
    ensures Remembers(AllowAt(n, now, id))
  {
    UseKeeps(n.limiter.reservations, now, id);
  }

  lemma StepRemembers(n: Node, step: Step)
    requires Remembers(n) && AllTracked(n.limiter.reservations)
    requires Timed(step) ==> step.now >= 2 * RESERVATION_LIFETIME && n.latest <= step.now + 2 * RESERVATION_LIFETIME
    ensures Remembers(NodeAfter(n, step))
  {
    if step.DoAllow? { AllowRemembers(n, step.now, step.id); }
  }

  /** While a node's clock never steps back by more than four seconds, the node
      honours each reservation at most once, and none after it has expired,
      whatever the other nodes' clocks do and whatever arrives from them. */
  lemma {:induction false} HonouredOnce(rates: seq<nat>, run: seq<Cluster>, steps: seq<Step>, n: nat, j: nat)
    requires IsRun(rates, run, steps) && n < |rates| && j < |run| && StepsBackAtMost(run, steps, n, 2 * RESERVATION_LIFETIME)
    ensures |run[j].nodes| == |rates| && Remembers(run[j].nodes[n])
  {
    RunTracked(rates, run, steps, j);
    if j > 0 {
      RunTracked(rates, run, steps, j - 1);
      HonouredOnce(rates, run, steps, n, j - 1);
      var step := steps[j - 1];
      if step.node == n { StepRemembers(run[j - 1].nodes[n], step); }
    }
  }

  // ---- Reservations are honoured ----

  /** The node holds a reservation for the record that lasts at least until the given time. */
  predicate Held(n: Node, id: Id, until: Time) {
    var ids := n.limiter.reservations.mine.ids;
    id in ids && ids[id] >= until
  }

  /** The step is no request for the record at the node, and no request there past the given time. */
  predicate Spares(step: Step, n: nat, id: Id, until: Time) {
    step.DoAllow? && step.node == n ==> step.id != id && step.now <= until
  }

  lemma StepHolds(n: Node, step: Step, id: Id, until: Time)
    requires Timed(step) ==> step.now >= 2 * RESERVATION_LIFETIME
    requires Held(n, id, until) && Spares(step, step.node, id, until)
    ensures Held(NodeAfter(n, step), id, until)
  {
    if step.DoAllow? { LiveStays(n.limiter.reservations.mine, step.now, id); }
  }

  lemma {:induction false} RunHolds(rates: seq<nat>, run: seq<Cluster>, steps: seq<Step>, n: nat, i: nat, j: nat, now: Time, id: Id)
    requires IsRun(rates, run, steps) && i < j <= |steps| && steps[i] == DoReserve(n, now, id)
    requires forall k :: i < k < j ==> Spares(steps[k], n, id, now + RESERVATION_LIFETIME)
    ensures n < |run[j].nodes| && Held(run[j].nodes[n], id, now + RESERVATION_LIFETIME)
  {
    var step := steps[j - 1];
    if i < j - 1 {
      RunHolds(rates, run, steps, n, i, j - 1, now, id);
      if step.node == n { StepHolds(run[j - 1].nodes[n], step, id, now + RESERVATION_LIFETIME); }
    }
  }

  /** In every run, a record that has got a reservation and comes back to the node within its lifetime is
      admitted whatever the rate, unless that reservation is known to have been used. In between anything may
      have happened, except a request for the record and a clock past the lifetime. */
  lemma ReservationIsHonoured(rates: seq<nat>, run: seq<Cluster>, steps: seq<Step>, n: nat, i: nat, j: nat, now: Time, later: Time, id: Id)
    requires IsRun(rates, run, steps) && i < j < |steps| && steps[i] == DoReserve(n, now, id) && steps[j] == DoAllow(n, later, id)
    requires later <= now + RESERVATION_LIFETIME && forall k :: i < k < j ==> Spares(steps[k], n, id, now + RESERVATION_LIFETIME)
    ensures n < |run[j].nodes| && Held(run[j].nodes[n], id, now + RESERVATION_LIFETIME)
    ensures var l, uses := run[j].nodes[n].limiter, run[j].nodes[n].uses;
            var expires := l.reservations.mine.ids[id];
            if (expires, id) in l.reservations.used + l.reservations.usedOthers then run[j + 1].nodes[n].uses == uses
            else Allow(l, later, id).1.Allowed() && run[j + 1].nodes[n].uses == uses + [Use(expires, id, later)]
  {
    RunHolds(rates, run, steps, n, i, j, now, id);
    LiveStays(run[j].nodes[n].limiter.reservations.mine, later, id);
  }

  // ---- Four seconds is as far as it goes ----

  // One reservation, for record 7, until the time 12000.

  function Fresh(): Node { Node(NewLimiter(1), 0, [], [], 1) }
  function Reserved(): Node { NodeAfter(Fresh(), DoReserve(0, 10000, 7)) }
  function Shared(): State { Share(Reserved().limiter, 10000).1 }
  function Told(): Node { NodeAfter(Reserved(), DoShare(1, 10000)) }
  function Used(): Node { NodeAfter(Reserved(), DoAllow(0, 10000, 7)) }
  function Forgot(): Node { NodeAfter(Used(), DoShare(0, 16001)) }
  function Updated(): Node { NodeAfter(Forgot(), DoUpdate(0, [Shared()])) }
  function Again(): Node { NodeAfter(Updated(), DoAllow(0, 12000, 7)) }

  function TwiceSteps(): seq<Step> {
    [DoReserve(0, 10000, 7), DoReserve(1, 10000, 7), DoShare(1, 10000), DoAllow(0, 10000, 7), DoShare(0, 16001), DoUpdate(0, [Shared()]), DoAllow(0, 12000, 7)]
  }

  function TwiceRun(): seq<Cluster> {
    var sent := {Shared(), Share(Used().limiter, 16001).1};
    [Cluster([Fresh(), Fresh()], {}), Cluster([Reserved(), Fresh()], {}), Cluster([Reserved(), Reserved()], {}),
     Cluster([Reserved(), Told()], {Shared()}), Cluster([Used(), Told()], {Shared()}), Cluster([Forgot(), Told()], sent),
     Cluster([Updated(), Told()], sent), Cluster([Again(), Told()], sent)]
  }

  lemma Latest()
    ensures Fresh().latest == 0 && Reserved().latest == Used().latest == 10000 && Updated().latest == Forgot().latest == 16001
  {}

  lemma UsedTwice()
    ensures |Again().uses| == 2 && !Distinct(Again().uses)
  {
    assert Again().uses[0] == Use(12000, 7, 10000) && Again().uses[1] == Use(12000, 7, 12000);
  }

  lemma FirstMoves(a: Node, b: Node, sent: set<State>, step: Step)
    requires Possible(Cluster([a, b], sent), step) && step.node == 0
    ensures Apply(Cluster([a, b], sent), step) == Cluster([NodeAfter(a, step), b], if step.DoShare? then sent + {Share(a.limiter, step.now).1} else sent)
  {}

  lemma SecondMoves(a: Node, b: Node, sent: set<State>, step: Step)
    requires Possible(Cluster([a, b], sent), step) && step.node == 1
    ensures Apply(Cluster([a, b], sent), step) == Cluster([a, NodeAfter(b, step)], if step.DoShare? then sent + {Share(b.limiter, step.now).1} else sent)
  {}

  lemma SameElsewhere()
    ensures NodeAfter(Fresh(), DoReserve(1, 10000, 7)) == Reserved()
  {}

  lemma TwiceIsRun()
    ensures IsRun([1, 1], TwiceRun(), TwiceSteps())
  {
    hide NodeAfter, Share, Apply;
    var run, steps := TwiceRun(), TwiceSteps();
    assert run[0].nodes == seq(2, i requires 0 <= i < 2 => Node(NewLimiter([1, 1][i]), 0, [], [], [1, 1][i]));
    FirstMoves(Fresh(), Fresh(), {}, steps[0]);
    SecondMoves(Reserved(), Fresh(), {}, steps[1]);
    SameElsewhere();
    SecondMoves(Reserved(), Reserved(), {}, steps[2]);
    assert {} + {Shared()} == {Shared()};
    FirstMoves(Reserved(), Told(), {Shared()}, steps[3]);
    FirstMoves(Used(), Told(), {Shared()}, steps[4]);
    assert {Shared()} + {Share(Used().limiter, 16001).1} == run[5].sent;
    FirstMoves(Forgot(), Told(), run[5].sent, steps[5]);
    FirstMoves(Updated(), Told(), run[5].sent, steps[6]);
  }

  /** If a clock steps back by a millisecond more than four seconds, a node can
      honour a reservation twice: two nodes have made the same reservation, the
      first uses its own, forgets that, is told of the second's, steps back and
      uses that. */
  lemma FourSecondsIsTight()
    ensures exists run: seq<Cluster>, steps: seq<Step> ::
              && IsRun([1, 1], run, steps) && StepsBackAtMost(run, steps, 0, 2 * RESERVATION_LIFETIME + 1)
              && |run[|steps|].nodes| == 2 && !Distinct(run[|steps|].nodes[0].uses)
  {
    hide NodeAfter, Share, Apply;
    var run, steps := TwiceRun(), TwiceSteps();
    TwiceIsRun();
    UsedTwice();
    Latest();
    hide IsRun;
    assert StepsBackAtMost(run, steps, 0, 2 * RESERVATION_LIFETIME + 1);
  }

  // ---- The rate is kept ----

  function CountFrom(s: seq<Time>, from: Time): nat {
    if s == [] then 0 else (if s[0] >= from then 1 else 0) + CountFrom(s[1..], from)
  }

  lemma {:induction false} CountFromBounded(s: seq<Time>, from: Time)
    ensures CountFrom(s, from) <= |s|
  {
    if s != [] { CountFromBounded(s[1..], from); }
  }

  lemma {:induction false} CountFromAppends(s: seq<Time>, t: seq<Time>, from: Time)
    ensures CountFrom(s + t, from) == CountFrom(s, from) + CountFrom(t, from)
  {
    if s == [] {
      assert s + t == t;
    } else {
      assert (s + t)[1..] == s[1..] + t;
      CountFromAppends(s[1..], t, from);
    }
  }

  lemma {:induction false} RemoveSmallerCounts(s: seq<Time>, upto: Time, from: Time)
    requires upto <= from
    ensures CountFrom(RemoveSmaller(s, upto), from) == CountFrom(s, from)
  {
    if s != [] { RemoveSmallerCounts(s[1..], upto, from); }
  }

  lemma {:induction false} InsertCounts(s: seq<Time>, x: Time, from: Time)
    ensures CountFrom(InsertBy(s, x, TimeOf), from) == CountFrom(s, from) + (if x >= from then 1 else 0)
  {
    if s != [] && TimeOf(x) > TimeOf(s[0]) {
      InsertCounts(s[1..], x, from);
      var t := InsertBy(s[1..], x, TimeOf);
      assert ([s[0]] + t)[1..] == t;
    } else {
      assert ([x] + s)[1..] == s;
    }
  }

  lemma AddCounts(s: seq<Time>, x: Time, from: Time)
    ensures CountFrom(AddBy(s, x, TimeOf), from) == CountFrom(s, from) + (if x >= from then 1 else 0)
  {
    InsertCounts(s, x, from);
    CountFromAppends(s, [x], from);
  }

  function Recent(a: seq<Admission>, from: Time): nat {
    if a == [] then 0 else Recent(a[..|a| - 1], from) + (if a[|a| - 1].at >= from then 1 else 0)
  }

  /** How many requests were admitted within the rate in the given time. */
  function WithinRate(a: seq<Admission>, from: Time, to: Time): nat {
    if a == [] then 0
    else WithinRate(a[..|a| - 1], from, to) + (if a[|a| - 1].within && from <= a[|a| - 1].at <= to then 1 else 0)
  }

  lemma {:induction false} WithinIsRecent(a: seq<Admission>, from: Time, to: Time, since: Time)
    requires since <= from
    ensures WithinRate(a, from, to) <= Recent(a, since)
  {
    if a != [] { WithinIsRecent(a[..|a| - 1], from, to, since); }
  }

  /** What was admitted in the last second is still counted. */
  ghost predicate Counted(n: Node) {
    forall from: Time :: n.latest <= from + SECOND ==> Recent(n.admissions, from) <= CountFrom(n.limiter.mine, from)
  }

  ghost predicate KeepsRate(n: Node) {
    forall from: Time, to: Time :: to <= from + SECOND ==> WithinRate(n.admissions, from, to) <= n.highest
  }

  lemma AllowCounts(n: Node, now: Time, id: Id)
    requires Counted(n) && now >= SECOND && n.latest <= now
    ensures Counted(AllowAt(n, now, id))
  {
    var (l, d) := Allow(n.limiter, now, id);
    var m := AllowAt(n, now, id);
    var mine := RemoveSmaller(n.limiter.mine, now - SECOND);
    forall from: Time | m.latest <= from + SECOND ensures Recent(m.admissions, from) <= CountFrom(m.limiter.mine, from) {
      RemoveSmallerCounts(n.limiter.mine, now - SECOND, from);
      if d.Allowed() {
        AddCounts(mine, now, from);
        assert m.admissions[..|n.admissions|] == n.admissions;
      }
    }
  }

  /** A request admitted within the rate leaves room for itself in its window. */
  lemma RoomInWindow(n: Node, now: Time, from: Time, to: Time)
    requires Counted(n) && now >= SECOND && n.latest <= now && now - SECOND <= from
    ensures WithinRate(n.admissions, from, to) <= |RemoveSmaller(n.limiter.mine, now - SECOND)|
  {
    WithinIsRecent(n.admissions, from, to, now - SECOND);
    RemoveSmallerCounts(n.limiter.mine, now - SECOND, now - SECOND);
    CountFromBounded(RemoveSmaller(n.limiter.mine, now - SECOND), now - SECOND);
  }

  lemma AllowKeepsRate(n: Node, now: Time, id: Id, from: Time, to: Time)
    requires Counted(n) && KeepsRate(n) && n.limiter.rate <= n.highest && now >= SECOND && n.latest <= now && to <= from + SECOND
    ensures WithinRate(AllowAt(n, now, id).admissions, from, to) <= n.highest
  {
    var d := Allow(n.limiter, now, id).1;
    assert WithinRate(n.admissions, from, to) <= n.highest;
    assert (n.admissions + [Admission(now, d.within)])[..|n.admissions|] == n.admissions;
    if d.within && from <= now <= to { RoomInWindow(n, now, from, to); }
  }

  lemma StepKeepsRate(n: Node, step: Step)
    requires Counted(n) && KeepsRate(n) && n.limiter.rate <= n.highest
    requires Timed(step) ==> step.now >= 2 * RESERVATION_LIFETIME && n.latest <= step.now
    ensures Counted(NodeAfter(n, step)) && KeepsRate(NodeAfter(n, step)) && NodeAfter(n, step).limiter.rate <= NodeAfter(n, step).highest
  {
    if step.DoAllow? {
      AllowCounts(n, step.now, step.id);
      forall from: Time, to: Time | to <= from + SECOND
        ensures WithinRate(NodeAfter(n, step).admissions, from, to) <= n.highest
      {
        AllowKeepsRate(n, step.now, step.id, from, to);
      }
    }
  }

  /** The highest of the rate a node starts with and those it is then set to. */
  function HighestRate(rate: nat, steps: seq<Step>, n: nat): nat {
    if steps == [] then rate
    else
      var h, step := HighestRate(rate, steps[..|steps| - 1], n), steps[|steps| - 1];
      if step.DoSetRate? && step.node == n && step.rate > h then step.rate else h
  }

  /** While a node's clock does not step back, the requests it admits without
      need of a reservation in any second are no more than the highest rate it
      has had, whatever reservations and states of peers come in between. */
  lemma {:induction false} RateKept(rates: seq<nat>, run: seq<Cluster>, steps: seq<Step>, n: nat, j: nat)
    requires IsRun(rates, run, steps) && n < |rates| && j < |run| && StepsBackAtMost(run, steps, n, 0)
    ensures |run[j].nodes| == |rates| && Counted(run[j].nodes[n]) && KeepsRate(run[j].nodes[n])
    ensures run[j].nodes[n].limiter.rate <= run[j].nodes[n].highest == HighestRate(rates[n], steps[..j], n)
  {
    if j > 0 {
      RateKept(rates, run, steps, n, j - 1);
      assert steps[..j][..j - 1] == steps[..j - 1];
      var step := steps[j - 1];
      if step.node == n { StepKeepsRate(run[j - 1].nodes[n], step); }
    }
  }

  // ---- The limiter's methods ----

  method RemoveOld(s: seq<Time>, upto: Time) returns (r: seq<Time>)
    ensures r == RemoveSmaller(s, upto)
  {
    r := s;
    while r != [] && r[0] < upto
      invariant RemoveSmaller(r, upto) == RemoveSmaller(s, upto)
    {
      r := r[1..];
    }
  }

  method ExpireOld(r: ReservationSet, upto: Time) returns (t: ReservationSet)
    ensures t == Expire(r, upto)
  {
    var expiry := r.expiry;
    var ids: map<Id, Time> := r.ids;
    while expiry != [] && expiry[0].when < upto
      invariant Expire(ReservationSet(expiry, ids), upto) == Expire(r, upto)
      decreases |expiry|
    {
      var e := expiry[0];
      expiry := expiry[1..];
      if e.id in ids && ids[e.id] == e.when { ids := ids - {e.id}; }
    }
    t := ReservationSet(expiry, ids);
  }

  class RateLimiter {
    var rate: nat
    var myReqs: seq<Time>
    var othersReqs: seq<Time>
    var mine: ReservationSet
    var others: ReservationSet
    var used: set<(Time, Id)>
    var usedOthers: set<(Time, Id)>

    ghost function Value(): Limiter
      reads this
    {
      Limiter(rate, myReqs, othersReqs, Reservations(mine, others, used, usedOthers))
    }

    /** Every reservation is in the queue of those to expire, which is in order. */
    ghost predicate Valid()
      reads this
    {
      AllTracked(Value().reservations)
    }

    constructor (rate: nat)
      ensures Valid() && Value() == NewLimiter(rate)
    {
      this.rate, myReqs, othersReqs := rate, [], [];
      mine, others, used, usedOthers := NO_RESERVATIONS, NO_RESERVATIONS, {}, {};
    }

    method UpdateLimit(newRate: nat)
      requires Valid()
      modifies this
      ensures Valid() && Value() == old(Value()).(rate := newRate)
    {
      rate := newRate;
    }

    method Use(now: Time, id: Id) returns (honoured: Option<Time>)
      requires Valid()
      modifies this
      ensures Valid() && (honoured.Some? ==> honoured.value >= now && (honoured.value, id) !in old(used) && (honoured.value, id) in used)
      ensures rate == old(rate) && myReqs == old(myReqs) && othersReqs == old(othersReqs)
      ensures (Value().reservations, honoured) == UseReservation(old(Value()).reservations, now, id)
    {
      UseKeeps(Value().reservations, now, id);
      mine := ExpireOld(mine, now);
      honoured := if id in mine.ids then Some(mine.ids[id]) else None;
      mine := mine.(ids := mine.ids - {id});
      if honoured.None? {
        others := ExpireOld(others, now);
        honoured := if id in others.ids then Some(others.ids[id]) else None;
        others := others.(ids := others.ids - {id});
      }
      if honoured.Some? {
        var key := (honoured.value, id);
        if key in used || key in usedOthers { honoured := None; }
        used := used + {key};
      }
    }

    method AllowInner(now: Time, id: Id) returns (d: Decision)
      requires Valid() && now >= SECOND
      modifies this
      ensures Valid() && Value() == Allow(old(Value()), now, id).0 && d == Allow(old(Value()), now, id).1
    {
      myReqs := RemoveOld(myReqs, now - SECOND);
      othersReqs := RemoveOld(othersReqs, now - SECOND);
      var honoured := Use(now, id);
      ghost var reservations := Value().reservations;
      d := Decide(|myReqs| + |othersReqs|, rate, honoured);
      assert d == Allow(old(Value()), now, id).1;
      if d.Allowed() { myReqs := AddBy(myReqs, now, TimeOf); }
      assert Value().reservations == reservations;
    }

    method AddReservationInner(now: Time, id: Id)
      requires Valid()
      modifies this
      ensures Valid() && Value() == AddReservation(old(Value()), now, id)
      ensures id in mine.ids && mine.ids[id] >= now + RESERVATION_LIFETIME
    {
      ReserveKeeps(mine, now + RESERVATION_LIFETIME, id);
      mine := Reserve(mine, now + RESERVATION_LIFETIME, id);
    }

    method ShareState(now: Time) returns (s: State)
      requires Valid() && now >= 2 * RESERVATION_LIFETIME
      modifies this
      ensures Valid() && (Value(), s) == Share(old(Value()), now)
      ensures Tracked(s.reservations) && forall u <- old(used) :: u.0 + 2 * RESERVATION_LIFETIME >= now ==> u in s.used && u in used
    {
      used := Prune(used, now - 2 * RESERVATION_LIFETIME);
      s := State(myReqs, mine, used);
    }

    method Update(states: seq<State>)
      requires Valid() && forall s <- states :: Tracked(s.reservations)
      modifies this
      ensures Valid() && Value() == UpdateFromPeers(old(Value()), Merge(states))
    {
      MergeKeeps(states);
      var merged := Merge(states);
      othersReqs, others, usedOthers := merged.reqs, merged.reservations, merged.used;
    }
  }
}
