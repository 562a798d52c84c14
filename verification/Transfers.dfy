/**
 Planning the moves of ranges between groups that make one group own a given
 range, and executing such a plan.

 The planner looks at a list of owners that it does not update as it plans. That
 the plan nevertheless works is what the theorems here are about.
 */
module Transfers {
  import opened Wrappers
  import opened OwnedRanges

  type GroupId = nat
  type Owners = seq<(GroupId, OwnedRange)>

  datatype TransferStep = TransferStep(source: GroupId, destination: GroupId, range: OwnedRange)

  datatype PlanTransfersError = DisjointDestination | UnableToSplitSourceRange

  /** `Panicked` stands for an `expect` on an owner that is not in the list. */
  datatype Plan = Planned(steps: seq<TransferStep>) | Failed(error: PlanTransfersError) | Panicked

  // ---- Executing ----

  /** What each group owns. A group that owns nothing is not in the map. */
  type World = map<GroupId, OwnedRange>

  predicate AllValid(w: World) {
    forall g <- w :: w[g].Valid()
  }

  /** The source gives its whole range or an edge of it, and the receiver owns
      nothing or an adjacent range. */
  predicate Legal(w: World, t: TransferStep)
    requires AllValid(w)
  {
    && t.range.Valid() && t.source != t.destination
    && t.source in w && (w[t.source] == t.range || w[t.source].SplitAt(t.range).Some?)
    && (t.destination in w ==> w[t.destination].Join(t.range).Some?)
  }

  /** What is left of a range after giving an edge of it away. */
  function Rest(r: OwnedRange, given: OwnedRange): OwnedRange
    requires r.Valid() && given.Valid() && r.SplitAt(given).Some?
  {
    if r.start == given.start then OwnedRange(given.end + 1, r.end) else OwnedRange(r.start, given.start - 1)
  }

  function Transfer(w: World, t: TransferStep): (w': World)
    requires AllValid(w) && Legal(w, t)
    ensures AllValid(w')
  {
    var left := if w[t.source] == t.range then w - {t.source} else w[t.source := Rest(w[t.source], t.range)];
    left[t.destination := if t.destination in w then w[t.destination].Join(t.range).value else t.range]
  }

  /** The world after all steps, if each is legal in its turn. */
  function Execute(w: World, steps: seq<TransferStep>): (r: Option<World>)
    requires AllValid(w)
    ensures r.Some? ==> AllValid(r.value)
    decreases |steps|
  {
    if steps == [] then Some(w)
    else if !Legal(w, steps[0]) then None
    else Execute(Transfer(w, steps[0]), steps[1..])
  }

  ghost predicate Consistent(w: World) {
    && AllValid(w)
    && (forall g, h :: g in w && h in w && g != h ==> !w[g].Overlaps(w[h]))
  }

  ghost predicate Owned(w: World, id: RecordId)
    requires AllValid(w)
  {
    exists g <- w :: w[g].Contains(id)
  }

  /** No id gets a second owner, and no id loses its owner or gains one it did not have. */
  ghost predicate Conserves(w: World, w': World) {
    && Consistent(w) && Consistent(w')
    && forall id: RecordId :: Owned(w, id) <==> Owned(w', id)
  }

  /** Where an id ends up: the moved ids change hands, all others stay. */
  lemma TransferMoves(w: World, t: TransferStep, g: GroupId, id: RecordId)
    requires Consistent(w) && Legal(w, t)
    ensures var w' := Transfer(w, t);
            (g in w' && w'[g].Contains(id)) <==>
            (if t.range.Contains(id) then g == t.destination else g in w && w[g].Contains(id))
  {
    assert t.range.Contains(id) ==> w[t.source].Contains(id);
    if t.range.Contains(id) && g != t.source && g in w {
      OverlapsIsSharing(w[t.source], w[g]);
    }
  }

  lemma TransferConserves(w: World, t: TransferStep)
    requires Consistent(w) && Legal(w, t)
    ensures Conserves(w, Transfer(w, t))
  {
    var w' := Transfer(w, t);
    forall g, h | g in w' && h in w' && g != h ensures !w'[g].Overlaps(w'[h]) {
      TransferDisjoint(w, t, g, h);
    }
    forall id: RecordId ensures Owned(w, id) <==> Owned(w', id) {
      TransferOwned(w, t, id);
    }
  }

  lemma TransferDisjoint(w: World, t: TransferStep, g: GroupId, h: GroupId)
    requires Consistent(w) && Legal(w, t) && g in Transfer(w, t) && h in Transfer(w, t) && g != h
    ensures !Transfer(w, t)[g].Overlaps(Transfer(w, t)[h])
  {
    var w' := Transfer(w, t);
    OverlapsIsSharing(w'[g], w'[h]);
    if w'[g].Overlaps(w'[h]) {
      var id: RecordId :| w'[g].Contains(id) && w'[h].Contains(id);
      TransferMoves(w, t, g, id);
      TransferMoves(w, t, h, id);
      OverlapsIsSharing(w[g], w[h]);
    }
  }

  lemma TransferOwned(w: World, t: TransferStep, id: RecordId)
    requires Consistent(w) && Legal(w, t)
    ensures Owned(w, id) <==> Owned(Transfer(w, t), id)
  {
    var w' := Transfer(w, t);
    if t.range.Contains(id) {
      TransferMoves(w, t, t.destination, id);
      assert w[t.source].Contains(id);
    } else {
      forall g ensures (g in w' && w'[g].Contains(id)) <==> (g in w && w[g].Contains(id)) { TransferMoves(w, t, g, id); }
    }
  }

  /** Every prefix of an executable plan is executable and conserves ownership. */
  lemma {:induction false} ExecuteConserves(w: World, steps: seq<TransferStep>, n: nat)
    requires Consistent(w) && Execute(w, steps).Some? && n <= |steps|
    ensures Execute(w, steps[..n]).Some? && Conserves(w, Execute(w, steps[..n]).value)
    decreases n
  {
    if n > 0 {
      TransferConserves(w, steps[0]);
      var w' := Transfer(w, steps[0]);
      assert steps[..n][0] == steps[0] && steps[..n][1..] == steps[1..][..n - 1];
      ExecuteConserves(w', steps[1..], n - 1);
    }
  }

  // ---- Planning ----

  function PlanTransfersRange(destOwns: Option<OwnedRange>, target: OwnedRange): OwnedRange {
    match destOwns
    case None => target
    case Some(existing) =>
      var u := target.Union(existing);
      OwnedRange(if u.start > 0 then u.start - 1 else u.start, if u.end < MAX_ID then u.end + 1 else u.end)
  }

  datatype Key = EndsAt(id: int) | StartsAt(id: int) | Holds(id: int)

  predicate Matches(k: Key, r: OwnedRange) {
    match k
    case EndsAt(id) => r.end == id
    case StartsAt(id) => r.start == id
    case Holds(id) => r.start <= id <= r.end
  }

  /** The first owner in the list that matches. */
  function Find(owners: Owners, k: Key): (r: Option<(GroupId, OwnedRange)>)
    ensures r.Some? ==> r.value in owners && Matches(k, r.value.1)
    ensures r.None? ==> forall o <- owners :: !Matches(k, o.1)
  {
    if owners == [] then None
    else if Matches(k, owners[0].1) then Some(owners[0])
    else Find(owners[1..], k)
  }

  /** Takes everything from the target's start up to `start` that is missing below it. */
  function TakeLower(dest: GroupId, owners: Owners, start: RecordId, target: OwnedRange): Plan
    requires forall o <- owners :: o.1.Valid()
    decreases start
  {
    if start <= target.start then Planned([])
    else match Find(owners, EndsAt(start - 1)) {
      case None => Panicked
      case Some((g, r)) =>
        var from := if r.start >= target.start then r.start else target.start;
        if g == dest then Panicked
        else
          var rest := TakeLower(dest, owners, from, target);
          if rest.Planned? then Planned([TransferStep(g, dest, OwnedRange(from, r.end))] + rest.steps) else rest
    }
  }

  /** Takes everything from `start` to the target's end. */
  function TakeHigher(dest: GroupId, owners: Owners, start: RecordId, target: OwnedRange): Plan
    requires (forall o <- owners :: o.1.Valid()) && start <= target.end
    decreases target.end - start
  {
    match Find(owners, Holds(start)) {
      case None => Panicked
      case Some((g, r)) =>
        var end := if r.end <= target.end then r.end else target.end;
        if start != r.start && end != r.end then Failed(UnableToSplitSourceRange)
        else
          var t := TransferStep(g, dest, OwnedRange(start, end));
          if end == target.end then Planned([t])
          else
            var rest := TakeHigher(dest, owners, end + 1, target);
            if rest.Planned? then Planned([t] + rest.steps) else rest
    }
  }

  function Then(p: Plan, q: Plan): Plan {
    if !p.Planned? then p else if !q.Planned? then q else Planned(p.steps + q.steps)
  }

  /** Gives away what the destination owns below the target. */
  function GiveLower(dest: GroupId, owns: OwnedRange, owners: Owners, target: OwnedRange): Plan {
    if owns.start >= target.start then Planned([])
    else match Find(owners, EndsAt(owns.start - 1)) {
      case None => Panicked
      case Some((g, _)) => Planned([TransferStep(dest, g, OwnedRange(owns.start, target.start - 1))])
    }
  }

  /** Gives away what the destination owns above the target. */
  function GiveHigher(dest: GroupId, owns: OwnedRange, owners: Owners, target: OwnedRange): Plan {
    if owns.end <= target.end then Planned([])
    else match Find(owners, StartsAt(owns.end + 1)) {
      case None => Panicked
      case Some((g, _)) => Planned([TransferStep(dest, g, OwnedRange(target.end + 1, owns.end))])
    }
  }

  /** The part of a range inside the target. */
  function Clip(owns: OwnedRange, target: OwnedRange): OwnedRange {
    OwnedRange(if owns.start < target.start then target.start else owns.start,
               if owns.end > target.end then target.end else owns.end)
  }

  /** Everything that is taken once the destination owns only `kept`. */
  function Takes(dest: GroupId, owners: Owners, kept: OwnedRange, target: OwnedRange): Plan
    requires kept.end <= target.end && forall o <- owners :: o.1.Valid()
  {
    Then(TakeLower(dest, owners, kept.start, target), TakesHigher(dest, owners, kept.end, target))
  }

  function TakesHigher(dest: GroupId, owners: Owners, to: RecordId, target: OwnedRange): Plan
    requires to <= target.end && forall o <- owners :: o.1.Valid()
  {
    if to == target.end then Planned([]) else TakeHigher(dest, owners, to + 1, target)
  }

  function PlanTransfers(dest: GroupId, destOwns: Option<OwnedRange>, owners: Owners, target: OwnedRange): Plan
    requires target.Valid() && (destOwns.Some? ==> destOwns.value.Valid()) && forall o <- owners :: o.1.Valid()
  {
    match destOwns
    case None => TakeHigher(dest, owners, target.start, target)
    case Some(owns) =>
      if !target.Overlaps(owns) then Failed(DisjointDestination)
      else
        var kept := Clip(owns, target);
        Then(Then(GiveLower(dest, owns, owners, target), GiveHigher(dest, owns, owners, target)), Takes(dest, owners, kept, target))
  }

  // ---- Owners that tile a range ----

  /** The owners are in order and leave no gap, and cover the range. */
  ghost predicate Tiles(owners: Owners, range: OwnedRange) {
    && owners != []
    && (forall i :: 0 <= i < |owners| ==> owners[i].1.Valid())
    && (forall i, j :: 0 <= i < j < |owners| && j == i + 1 ==> owners[i].1.end + 1 == owners[j].1.start)
    && owners[0].1.start <= range.start && range.end <= owners[|owners| - 1].1.end
  }

  lemma {:induction false} TilesInOrder(owners: Owners, range: OwnedRange, i: nat, j: nat)
    requires Tiles(owners, range) && i < j < |owners|
    ensures owners[i].1.end < owners[j].1.start
  {
    if i + 1 < j { TilesInOrder(owners, range, i, j - 1); }
  }

  /** In a tiling, at most one owner matches, so looking for it finds it. */
  lemma FindInTiles(owners: Owners, range: OwnedRange, k: Key, i: nat)
    requires Tiles(owners, range) && i < |owners| && Matches(k, owners[i].1)
    ensures Find(owners, k) == Some(owners[i])
  {
    var f := Find(owners, k);
    var j :| 0 <= j < |owners| && owners[j] == f.value;
    if i < j { TilesInOrder(owners, range, i, j); }
    if j < i { TilesInOrder(owners, range, j, i); }
  }

  lemma {:induction false} TileOf(owners: Owners, range: OwnedRange, id: RecordId, n: nat) returns (i: nat)
    requires Tiles(owners, range) && n < |owners| && owners[0].1.start <= id <= owners[n].1.end
    ensures i <= n && owners[i].1.Contains(id)
  {
    if n == 0 || owners[n].1.start <= id {
      i := n;
    } else {
      i := TileOf(owners, range, id, n - 1);
    }
  }

  // ---- Moving ranges to and from the destination ----

  predicate SameOutside(w: World, w': World, s: set<GroupId>) {
    && (forall g <- w | g !in s :: g in w' && w'[g] == w[g])
    && (forall g <- w' | g !in s :: g in w)
  }

  function Groups(owners: Owners, lo: nat, hi: nat): set<GroupId>
    requires lo <= hi <= |owners|
  {
    set i | lo <= i < hi :: owners[i].0
  }

  /** The owners from `lo` to `hi` own what the list says, and none is the destination. */
  ghost predicate Current(w: World, dest: GroupId, owners: Owners, lo: nat, hi: nat) {
    forall i :: lo <= i < hi < |owners| + 1 ==> owners[i].0 != dest && owners[i].0 in w && w[owners[i].0] == owners[i].1
  }

  lemma {:induction false} ExecuteConcat(w: World, a: seq<TransferStep>, b: seq<TransferStep>)
    requires AllValid(w) && Execute(w, a).Some?
    ensures Execute(w, a + b) == Execute(Execute(w, a).value, b)
    decreases |a|
  {
    if a == [] {
      assert a + b == b;
    } else {
      assert (a + b)[1..] == a[1..] + b;
      ExecuteConcat(Transfer(w, a[0]), a[1..], b);
    }
  }

  /** Executing `p` leads from `w` to `w'`, where the destination owns `owns`;
      of the other groups only those in `touched` may own something else. */
  ghost predicate Achieves(w: World, p: Plan, w': World, dest: GroupId, owns: OwnedRange, touched: set<GroupId>) {
    && AllValid(w) && AllValid(w') && p.Planned? && Execute(w, p.steps) == Some(w')
    && dest in w' && w'[dest] == owns && SameOutside(w, w', touched + {dest})
  }

  lemma OneStep(w: World, t: TransferStep) returns (w': World)
    requires AllValid(w) && Legal(w, t)
    ensures w' == Transfer(w, t)  && Execute(w, [t]) == Some(w')
  {
    w' := Transfer(w, t);
    assert [t][1..] == [];
  }

  /** Taking the upper part of the range just below. */
  lemma TakeBelow(w: World, dest: GroupId, g: GroupId, from: RecordId) returns (w': World)
    requires AllValid(w) && dest in w && g in w && g != dest
    requires w[g].end + 1 == w[dest].start && w[g].start <= from <= w[g].end
    ensures Achieves(w, Planned([TransferStep(g, dest, OwnedRange(from, w[g].end))]), w', dest, OwnedRange(from, w[dest].end), {g})
  {
    w' := OneStep(w, TransferStep(g, dest, OwnedRange(from, w[g].end)));
  }

  /** Taking the lower part of the range just above, or any edge if the destination owns nothing. */
  lemma TakeAbove(w: World, dest: GroupId, g: GroupId, from: RecordId, to: RecordId) returns (w': World)
    requires AllValid(w) && g in w && g != dest && w[g].start <= from <= to <= w[g].end
    requires from == w[g].start || to == w[g].end
    requires dest in w ==> w[dest].end + 1 == from
    ensures Achieves(w, Planned([TransferStep(g, dest, OwnedRange(from, to))]), w', dest,
                     OwnedRange(if dest in w then w[dest].start else from, to), {g})
  {
    w' := OneStep(w, TransferStep(g, dest, OwnedRange(from, to)));
  }

  /** Giving an edge to the neighbour on that side. */
  lemma GiveEdge(w: World, dest: GroupId, g: GroupId, given: OwnedRange) returns (w': World)
    requires AllValid(w) && dest in w && g in w && g != dest && given.Valid()
    requires w[dest].SplitAt(given).Some? && w[g].Join(given).Some?
    ensures Achieves(w, Planned([TransferStep(dest, g, given)]), w', dest, Rest(w[dest], given), {g})
  {
    w' := OneStep(w, TransferStep(dest, g, given));
  }

  /** One plan after another. */
  lemma AchievesThen(w: World, p: Plan, u: World, q: Plan, w': World, dest: GroupId, mid: OwnedRange, owns: OwnedRange, s: set<GroupId>, t: set<GroupId>, r: set<GroupId>)
    requires Achieves(w, p, u, dest, mid, s) && Achieves(u, q, w', dest, owns, t) && s + t <= r
    ensures Achieves(w, Then(p, q), w', dest, owns, r)
  {
    ExecuteConcat(w, p.steps, q.steps);
  }

  predicate Distinct(owners: Owners) {
    forall i, j :: 0 <= i < j < |owners| ==> owners[i].0 != owners[j].0
  }

  // ---- Taking everything below ----

  function Higher(a: RecordId, b: RecordId): RecordId { if a >= b then a else b }

  lemma TakeLowerUnfolds(dest: GroupId, owners: Owners, range: OwnedRange, k: nat, start: RecordId, target: OwnedRange)
    requires Tiles(owners, range) && k < |owners| && owners[k].1.end + 1 == start > target.start && owners[k].0 != dest
    ensures var from := Higher(owners[k].1.start, target.start);
            TakeLower(dest, owners, start, target) ==
            Then(Planned([TransferStep(owners[k].0, dest, OwnedRange(from, owners[k].1.end))]), TakeLower(dest, owners, from, target))
  {
    FindInTiles(owners, range, EndsAt(start - 1), k);
  }

  /** `k` owners lie below the destination, which they reach up to. */
  ghost predicate CanTakeLower(w: World, dest: GroupId, owners: Owners, range: OwnedRange, k: nat, target: OwnedRange) {
    && AllValid(w) && dest in w && Tiles(owners, range) && Distinct(owners) && k <= |owners|
    && owners[0].1.start <= target.start <= w[dest].start
    && (w[dest].start > target.start ==> k > 0 && owners[k - 1].1.end + 1 == w[dest].start)
    && Current(w, dest, owners, 0, k)
  }

  lemma TakeLowerOne(w: World, dest: GroupId, owners: Owners, range: OwnedRange, k: nat, target: OwnedRange, from: RecordId, p: Plan)
    returns (w': World)
    requires CanTakeLower(w, dest, owners, range, k, target) && w[dest].start > target.start
    requires from == Higher(owners[k - 1].1.start, target.start)
    requires p == Planned([TransferStep(owners[k - 1].0, dest, OwnedRange(from, owners[k - 1].1.end))])
    ensures Achieves(w, p, w', dest, OwnedRange(from, w[dest].end), Groups(owners, k - 1, k))
    ensures CanTakeLower(w', dest, owners, range, k - 1, target)
    ensures TakeLower(dest, owners, w[dest].start, target) == Then(p, TakeLower(dest, owners, from, target))
  {
    TakeLowerUnfolds(dest, owners, range, k - 1, w[dest].start, target);
    w' := TakeBelow(w, dest, owners[k - 1].0, from);
    assert Groups(owners, k - 1, k) == {owners[k - 1].0};
  }

  /** Taking from the owners below, nearest first, until the target's start is reached. */
  lemma {:induction false} TakeLowerAchieves(w: World, dest: GroupId, owners: Owners, range: OwnedRange, k: nat, target: OwnedRange, owns: OwnedRange)
    returns (w': World)
    requires CanTakeLower(w, dest, owners, range, k, target) && owns == OwnedRange(target.start, w[dest].end)
    ensures Achieves(w, TakeLower(dest, owners, w[dest].start, target), w', dest, owns, Groups(owners, 0, k))
    decreases k
  {
    if w[dest].start > target.start {
      var from := Higher(owners[k - 1].1.start, target.start);
      var p := Planned([TransferStep(owners[k - 1].0, dest, OwnedRange(from, owners[k - 1].1.end))]);
      var u := TakeLowerOne(w, dest, owners, range, k, target, from, p);
      w' := TakeLowerAchieves(u, dest, owners, range, k - 1, target, owns);
      AchievesThen(w, p, u, TakeLower(dest, owners, from, target), w', dest, OwnedRange(from, w[dest].end), owns,
                   Groups(owners, k - 1, k), Groups(owners, 0, k - 1), Groups(owners, 0, k));
    } else {
      w' := w;
    }
  }

  // ---- Taking everything above ----

  /** The last step up to the target's end. */
  lemma TakeHigherEnds(dest: GroupId, owners: Owners, range: OwnedRange, k: nat, start: RecordId, target: OwnedRange)
    requires Tiles(owners, range) && k < |owners| && owners[k].1.Contains(start) && start <= target.end <= owners[k].1.end
    ensures TakeHigher(dest, owners, start, target) ==
            if start != owners[k].1.start && target.end != owners[k].1.end then Failed(UnableToSplitSourceRange)
            else Planned([TransferStep(owners[k].0, dest, OwnedRange(start, target.end))])
  {
    FindInTiles(owners, range, Holds(start), k);
  }

  lemma TakeHigherGoesOn(dest: GroupId, owners: Owners, range: OwnedRange, k: nat, start: RecordId, target: OwnedRange)
    requires Tiles(owners, range) && k < |owners| && owners[k].1.Contains(start) && owners[k].1.end < target.end
    ensures TakeHigher(dest, owners, start, target) ==
            Then(Planned([TransferStep(owners[k].0, dest, OwnedRange(start, owners[k].1.end))]),
                 TakeHigher(dest, owners, owners[k].1.end + 1, target))
  {
    FindInTiles(owners, range, Holds(start), k);
  }

  /** Where the destination's range starts once it has taken ids from `start` on. */
  function StartsFrom(w: World, dest: GroupId, start: RecordId): RecordId {
    if dest in w then w[dest].start else start
  }

  ghost predicate CanTakeHigher(w: World, dest: GroupId, owners: Owners, range: OwnedRange, k: nat, start: RecordId, target: OwnedRange) {
    && AllValid(w) && Tiles(owners, range) && Distinct(owners) && k < |owners| && owners[k].1.Contains(start)
    && start <= target.end <= owners[|owners| - 1].1.end
    && (dest in w ==> w[dest].end + 1 == start == owners[k].1.start)
    && Current(w, dest, owners, k, |owners|)
  }

  lemma TakeHigherLast(w: World, dest: GroupId, owners: Owners, range: OwnedRange, k: nat, start: RecordId, target: OwnedRange)
    returns (w': World)
    requires CanTakeHigher(w, dest, owners, range, k, start, target) && target.end <= owners[k].1.end
    requires start == owners[k].1.start || target.end == owners[k].1.end
    ensures Achieves(w, TakeHigher(dest, owners, start, target), w', dest, OwnedRange(StartsFrom(w, dest, start), target.end), Groups(owners, k, |owners|))
  {
    TakeHigherEnds(dest, owners, range, k, start, target);
    w' := TakeAbove(w, dest, owners[k].0, start, target.end);
  }

  lemma TakeHigherOne(w: World, dest: GroupId, owners: Owners, range: OwnedRange, k: nat, start: RecordId, target: OwnedRange, p: Plan)
    returns (w': World)
    requires CanTakeHigher(w, dest, owners, range, k, start, target) && owners[k].1.end < target.end
    requires p == Planned([TransferStep(owners[k].0, dest, OwnedRange(start, owners[k].1.end))])
    ensures Achieves(w, p, w', dest, OwnedRange(StartsFrom(w, dest, start), owners[k].1.end), Groups(owners, k, k + 1))
    ensures k + 1 < |owners| && CanTakeHigher(w', dest, owners, range, k + 1, owners[k].1.end + 1, target)
    ensures owners[k + 1].1.start == owners[k].1.end + 1
    ensures TakeHigher(dest, owners, start, target) == Then(p, TakeHigher(dest, owners, owners[k].1.end + 1, target))
  {
    TakeHigherGoesOn(dest, owners, range, k, start, target);
    w' := TakeAbove(w, dest, owners[k].0, start, owners[k].1.end);
    assert Groups(owners, k, k + 1) == {owners[k].0};
  }

  /** Taking from the owners above, nearest first, until the target's end is reached. */
  lemma {:induction false} TakeHigherAchieves(w: World, dest: GroupId, owners: Owners, range: OwnedRange, k: nat, start: RecordId, target: OwnedRange, owns: OwnedRange)
    returns (w': World)
    requires CanTakeHigher(w, dest, owners, range, k, start, target) && owns == OwnedRange(StartsFrom(w, dest, start), target.end)
    requires start == owners[k].1.start || target.end >= owners[k].1.end
    ensures Achieves(w, TakeHigher(dest, owners, start, target), w', dest, owns, Groups(owners, k, |owners|))
    decreases |owners| - k
  {
    var next := owners[k].1.end + 1;
    if target.end < next {
      w' := TakeHigherLast(w, dest, owners, range, k, start, target);
    } else {
      var p := Planned([TransferStep(owners[k].0, dest, OwnedRange(start, next - 1))]);
      var u := TakeHigherOne(w, dest, owners, range, k, start, target, p);
      w' := TakeHigherAchieves(u, dest, owners, range, k + 1, next, target, owns);
      AchievesThen(w, p, u, TakeHigher(dest, owners, next, target), w', dest, OwnedRange(StartsFrom(w, dest, start), next - 1), owns,
                   Groups(owners, k, k + 1), Groups(owners, k + 1, |owners|), Groups(owners, k, |owners|));
    }
  }

  // ---- Giving away ----

  lemma GiveLowerFinds(dest: GroupId, owners: Owners, range: OwnedRange, owns: OwnedRange, target: OwnedRange, d: nat)
    requires Tiles(owners, range) && 0 < d < |owners| && owners[d] == (dest, owns) && owns.start < target.start
    ensures owns.start > 0
    ensures GiveLower(dest, owns, owners, target) == Planned([TransferStep(dest, owners[d - 1].0, OwnedRange(owns.start, target.start - 1))])
  {
    FindInTiles(owners, range, EndsAt(owns.start - 1), d - 1);
  }

  lemma GiveHigherFinds(dest: GroupId, owners: Owners, range: OwnedRange, owns: OwnedRange, target: OwnedRange, d: nat)
    requires Tiles(owners, range) && d + 1 < |owners| && owners[d] == (dest, owns) && owns.end > target.end
    ensures GiveHigher(dest, owns, owners, target) == Planned([TransferStep(dest, owners[d + 1].0, OwnedRange(target.end + 1, owns.end))])
  {
    FindInTiles(owners, range, StartsAt(owns.end + 1), d + 1);
  }

  /** Giving the lower edge to the owner just below. */
  lemma GiveLowerEdge(w: World, dest: GroupId, g: GroupId, from: RecordId) returns (w': World)
    requires AllValid(w) && dest in w && g in w && g != dest && w[g].end + 1 == w[dest].start < from <= w[dest].end
    ensures Achieves(w, Planned([TransferStep(dest, g, OwnedRange(w[dest].start, from - 1))]), w', dest, OwnedRange(from, w[dest].end), {g})
  {
    w' := GiveEdge(w, dest, g, OwnedRange(w[dest].start, from - 1));
  }

  /** Giving the upper edge to the owner just above. */
  lemma GiveHigherEdge(w: World, dest: GroupId, g: GroupId, to: RecordId) returns (w': World)
    requires AllValid(w) && dest in w && g in w && g != dest && w[dest].start <= to < w[dest].end && w[dest].end + 1 == w[g].start
    ensures Achieves(w, Planned([TransferStep(dest, g, OwnedRange(to + 1, w[dest].end))]), w', dest, OwnedRange(w[dest].start, to), {g})
  {
    w' := GiveEdge(w, dest, g, OwnedRange(to + 1, w[dest].end));
  }

  // ---- The whole plan ----

  /** The list shows what its groups own in `w`. */
  ghost predicate Shows(owners: Owners, w: World) {
    forall i :: 0 <= i < |owners| ==> owners[i].0 in w && w[owners[i].0] == owners[i].1
  }

  function OwnedBy(w: World, g: GroupId): Option<OwnedRange> {
    if g in w then Some(w[g]) else None
  }

  /** What the planner is given: the owners around the ids it has to look at. */
  ghost predicate Informed(w: World, dest: GroupId, owners: Owners, target: OwnedRange) {
    && Consistent(w) && target.Valid() && Shows(owners, w)
    && Tiles(owners, PlanTransfersRange(OwnedBy(w, dest), target))
  }

  lemma TilesDistinct(w: World, owners: Owners, range: OwnedRange)
    requires Tiles(owners, range) && Shows(owners, w)
    ensures Distinct(owners)
  {
    forall i, j | 0 <= i < j < |owners| ensures owners[i].0 != owners[j].0 { TilesInOrder(owners, range, i, j); }
  }

  /** A destination that owns something is in the list. */
  lemma DestinationListed(w: World, dest: GroupId, owners: Owners, target: OwnedRange) returns (d: nat)
    requires Informed(w, dest, owners, target) && dest in w
    ensures d < |owners| && owners[d] == (dest, w[dest])
  {
    var range := PlanTransfersRange(OwnedBy(w, dest), target);
    d := TileOf(owners, range, w[dest].start, |owners| - 1);
    assert w[dest].Contains(w[dest].start) && w[owners[d].0].Contains(w[dest].start);
    assert owners[d].0 != dest ==> w[dest].Overlaps(w[owners[d].0]);
  }

  /** The planner's view of a destination that owns the `d`-th range of the list, with ids of the target in it. */
  ghost predicate Placed(w: World, dest: GroupId, owners: Owners, range: OwnedRange, target: OwnedRange, d: nat) {
    && AllValid(w) && Tiles(owners, range) && Distinct(owners) && target.Valid()
    && d < |owners| && dest in w && owners[d] == (dest, w[dest])
    && w[dest].start <= target.end && target.start <= w[dest].end
    && owners[0].1.start <= target.start && target.end <= owners[|owners| - 1].1.end
    && Current(w, dest, owners, 0, d) && Current(w, dest, owners, d + 1, |owners|)
  }

  lemma GiveLowerPhase(w: World, dest: GroupId, owners: Owners, range: OwnedRange, target: OwnedRange, d: nat) returns (u: World)
    requires Placed(w, dest, owners, range, target, d) && (w[dest].start < target.start ==> d > 0)
    ensures Achieves(w, GiveLower(dest, w[dest], owners, target), u, dest, OwnedRange(Clip(w[dest], target).start, w[dest].end), Groups(owners, 0, d))
    ensures Current(u, dest, owners, d + 1, |owners|)
    ensures w[dest].start >= target.start ==> Current(u, dest, owners, 0, d)
  {
    if w[dest].start < target.start {
      GiveLowerFinds(dest, owners, range, w[dest], target, d);
      u := GiveLowerEdge(w, dest, owners[d - 1].0, target.start);
    } else {
      u := w;
    }
  }

  lemma GiveHigherPhase(w: World, dest: GroupId, owners: Owners, range: OwnedRange, target: OwnedRange, d: nat, owns: OwnedRange, from: RecordId)
    returns (u: World)
    requires AllValid(w) && Tiles(owners, range) && Distinct(owners) && d < |owners| && owners[d] == (dest, owns)
    requires dest in w && w[dest] == OwnedRange(from, owns.end) && from <= target.end && (owns.end > target.end ==> d + 1 < |owners|)
    requires Current(w, dest, owners, d + 1, |owners|)
    ensures Achieves(w, GiveHigher(dest, owns, owners, target), u, dest, OwnedRange(from, Clip(owns, target).end), Groups(owners, d + 1, |owners|))
    ensures Current(w, dest, owners, 0, d) ==> Current(u, dest, owners, 0, d)
    ensures owns.end <= target.end ==> u == w
  {
    if owns.end > target.end {
      GiveHigherFinds(dest, owners, range, owns, target, d);
      u := GiveHigherEdge(w, dest, owners[d + 1].0, target.end);
    } else {
      u := w;
    }
  }

  lemma TakeHigherPhase(w: World, dest: GroupId, owners: Owners, range: OwnedRange, target: OwnedRange, d: nat, to: RecordId)
    returns (u: World)
    requires AllValid(w) && Tiles(owners, range) && Distinct(owners) && d < |owners|
    requires dest in w && w[dest] == OwnedRange(target.start, to) && to <= target.end <= owners[|owners| - 1].1.end
    requires to < target.end ==> owners[d].1.end == to && Current(w, dest, owners, d + 1, |owners|)
    ensures Achieves(w, TakesHigher(dest, owners, to, target), u, dest, target, Groups(owners, d + 1, |owners|))
  {
    if to == target.end {
      u := w;
    } else {
      u := TakeHigherAchieves(w, dest, owners, range, d + 1, to + 1, target, target);
    }
  }

  lemma TakeLowerPhase(w: World, dest: GroupId, owners: Owners, range: OwnedRange, target: OwnedRange, d: nat, kept: OwnedRange)
    returns (u: World)
    requires AllValid(w) && Tiles(owners, range) && Distinct(owners) && d < |owners| && dest in w && w[dest] == kept
    requires owners[0].1.start <= target.start <= kept.start
    requires kept.start > target.start ==> owners[d].1.start == kept.start && Current(w, dest, owners, 0, d)
    ensures Achieves(w, TakeLower(dest, owners, kept.start, target), u, dest, OwnedRange(target.start, kept.end), Groups(owners, 0, d))
    ensures Current(w, dest, owners, d + 1, |owners|) ==> Current(u, dest, owners, d + 1, |owners|)
  {
    if kept.start > target.start {
      u := TakeLowerAchieves(w, dest, owners, range, d, target, OwnedRange(target.start, kept.end));
    } else {
      u := w;
    }
  }

  lemma TakePhases(w: World, dest: GroupId, owners: Owners, range: OwnedRange, target: OwnedRange, d: nat, kept: OwnedRange, all: set<GroupId>)
    returns (w': World)
    requires AllValid(w) && Tiles(owners, range) && Distinct(owners) && d < |owners| && dest in w && w[dest] == kept
    requires owners[0].1.start <= target.start <= kept.start && kept.end <= target.end <= owners[|owners| - 1].1.end
    requires kept.start > target.start ==> owners[d].1.start == kept.start && Current(w, dest, owners, 0, d)
    requires kept.end < target.end ==> owners[d].1.end == kept.end && Current(w, dest, owners, d + 1, |owners|)
    requires all == Groups(owners, 0, |owners|)
    ensures Achieves(w, Takes(dest, owners, kept, target), w', dest, target, all)
  {
    var u := TakeLowerPhase(w, dest, owners, range, target, d, kept);
    w' := TakeHigherPhase(u, dest, owners, range, target, d, kept.end);
    AchievesThen(w, TakeLower(dest, owners, kept.start, target), u, TakesHigher(dest, owners, kept.end, target), w',
                 dest, OwnedRange(target.start, kept.end), target, Groups(owners, 0, d), Groups(owners, d + 1, |owners|), all);
  }

  lemma GivePhases(w: World, dest: GroupId, owners: Owners, range: OwnedRange, target: OwnedRange, d: nat, owns: OwnedRange, kept: OwnedRange, all: set<GroupId>)
    returns (u: World)
    requires Placed(w, dest, owners, range, target, d) && owns == w[dest] && kept == Clip(owns, target)
    requires (owns.start < target.start ==> d > 0) && (owns.end > target.end ==> d + 1 < |owners|)
    requires all == Groups(owners, 0, |owners|)
    ensures Achieves(w, Then(GiveLower(dest, owns, owners, target), GiveHigher(dest, owns, owners, target)), u, dest, kept, all)
    ensures owns.start >= target.start ==> Current(u, dest, owners, 0, d)
    ensures owns.end <= target.end ==> Current(u, dest, owners, d + 1, |owners|)
  {
    var v := GiveLowerPhase(w, dest, owners, range, target, d);
    u := GiveHigherPhase(v, dest, owners, range, target, d, owns, kept.start);
    AchievesThen(w, GiveLower(dest, owns, owners, target), v, GiveHigher(dest, owns, owners, target), u, dest,
                 OwnedRange(kept.start, owns.end), kept, Groups(owners, 0, d), Groups(owners, d + 1, |owners|), all);
  }

  /** The plan of a destination that has a neighbour wherever it has something to give away. */
  lemma OwnerPlanAchieves(w: World, dest: GroupId, owners: Owners, range: OwnedRange, target: OwnedRange, d: nat, owns: OwnedRange, all: set<GroupId>)
    returns (w': World)
    requires Placed(w, dest, owners, range, target, d) && owns == w[dest]
    requires (owns.start < target.start ==> d > 0) && (owns.end > target.end ==> d + 1 < |owners|)
    requires all == Groups(owners, 0, |owners|)
    ensures Achieves(w, PlanTransfers(dest, Some(owns), owners, target), w', dest, target, all)
  {
    var kept := Clip(owns, target);
    var u := GivePhases(w, dest, owners, range, target, d, owns, kept, all);
    w' := TakePhases(u, dest, owners, range, target, d, kept, all);
    AchievesThen(w, Then(GiveLower(dest, owns, owners, target), GiveHigher(dest, owns, owners, target)), u, Takes(dest, owners, kept, target), w',
                 dest, kept, target, all, all, all);
  }

  // ---- What the planner promises ----

  /** The destination has ids to give away on a side where nobody is next to it. */
  predicate Stuck(owns: OwnedRange, target: OwnedRange) {
    (owns.start == 0 && 0 < target.start) || (owns.end == MAX_ID && target.end < MAX_ID)
  }

  /** One owner extends past the target on both sides. */
  ghost predicate Enclosed(owners: Owners, target: OwnedRange) {
    exists o <- owners :: o.1.start < target.start && target.end < o.1.end
  }

  lemma StuckPanics(dest: GroupId, owns: OwnedRange, owners: Owners, target: OwnedRange)
    requires target.Valid() && owns.Valid() && target.Overlaps(owns) && Stuck(owns, target) && forall o <- owners :: o.1.Valid()
    ensures PlanTransfers(dest, Some(owns), owners, target).Panicked?
  {}

  lemma OwnerPlan(w: World, dest: GroupId, owners: Owners, target: OwnedRange) returns (w': World)
    requires Informed(w, dest, owners, target) && dest in w && target.Overlaps(w[dest]) && !Stuck(w[dest], target)
    ensures Achieves(w, PlanTransfers(dest, OwnedBy(w, dest), owners, target), w', dest, target, Groups(owners, 0, |owners|))
  {
    var range := PlanTransfersRange(OwnedBy(w, dest), target);
    var d := DestinationListed(w, dest, owners, target);
    TilesDistinct(w, owners, range);
    w' := OwnerPlanAchieves(w, dest, owners, range, target, d, w[dest], Groups(owners, 0, |owners|));
  }

  /** A destination that owns nothing. */
  lemma NewcomerPlan(w: World, dest: GroupId, owners: Owners, target: OwnedRange) returns (w': World)
    requires Informed(w, dest, owners, target) && dest !in w
    ensures var p := PlanTransfers(dest, OwnedBy(w, dest), owners, target);
            if Enclosed(owners, target) then p == Failed(UnableToSplitSourceRange)
            else Achieves(w, p, w', dest, target, Groups(owners, 0, |owners|))
  {
    TilesDistinct(w, owners, target);
    var k := TileOf(owners, target, target.start, |owners| - 1);
    if owners[k].1.start < target.start && target.end < owners[k].1.end {
      TakeHigherEnds(dest, owners, target, k, target.start, target);
      assert owners[k] in owners;
      w' := w;
    } else {
      assert !Enclosed(owners, target) by { OnlyTile(owners, target, k); }
      w' := TakeHigherAchieves(w, dest, owners, target, k, target.start, target, target);
    }
  }

  lemma OnlyTile(owners: Owners, target: OwnedRange, k: nat)
    requires Tiles(owners, target) && target.Valid() && k < |owners| && owners[k].1.Contains(target.start)
    requires !(owners[k].1.start < target.start && target.end < owners[k].1.end)
    ensures !Enclosed(owners, target)
  {
    forall i | 0 <= i < |owners| ensures !(owners[i].1.start < target.start && target.end < owners[i].1.end) {
      if i < k { TilesInOrder(owners, target, i, k); }
      if k < i { TilesInOrder(owners, target, k, i); }
    }
  }

  /** What comes of planning: exactly when it fails and how, and otherwise a plan
      that can be executed, moves no id out of ownership, and ends with the
      destination owning the target. */
  lemma PlanOutcome(w: World, dest: GroupId, owners: Owners, target: OwnedRange)
    requires Informed(w, dest, owners, target)
    ensures var p := PlanTransfers(dest, OwnedBy(w, dest), owners, target);
            && (p == Failed(DisjointDestination) <==> dest in w && !target.Overlaps(w[dest]))
            && (p == Failed(UnableToSplitSourceRange) <==> dest !in w && Enclosed(owners, target))
            && (p == Panicked <==> dest in w && target.Overlaps(w[dest]) && Stuck(w[dest], target))
            && (p.Planned? ==> Carries(w, p.steps, dest, target))
  {
    if dest !in w {
      var w' := NewcomerPlan(w, dest, owners, target);
    } else if target.Overlaps(w[dest]) {
      if Stuck(w[dest], target) {
        StuckPanics(dest, w[dest], owners, target);
      } else {
        var w' := OwnerPlan(w, dest, owners, target);
      }
    }
    var p := PlanTransfers(dest, OwnedBy(w, dest), owners, target);
    if p.Planned? { PlanCarries(w, p.steps, dest, target); }
  }

  /** Each step is legal in its turn, every step conserves ownership, and the destination ends with the target. */
  ghost predicate Carries(w: World, steps: seq<TransferStep>, dest: GroupId, target: OwnedRange) {
    && AllValid(w) && Execute(w, steps).Some?
    && (forall n :: 0 <= n <= |steps| ==> Execute(w, steps[..n]).Some? && Conserves(w, Execute(w, steps[..n]).value))
    && OwnedBy(Execute(w, steps).value, dest) == Some(target)
  }

  lemma PlanCarries(w: World, steps: seq<TransferStep>, dest: GroupId, target: OwnedRange)
    requires Consistent(w) && Execute(w, steps).Some? && OwnedBy(Execute(w, steps).value, dest) == Some(target)
    ensures Carries(w, steps, dest, target)
  {
    forall n | 0 <= n <= |steps| ensures Execute(w, steps[..n]).Some? && Conserves(w, Execute(w, steps[..n]).value) {
      ExecuteConserves(w, steps, n);
    }
  }

  // ---- The planner itself ----

  /** Gives away what is owned outside the target. */
  method GiveAway(dest: GroupId, owns: OwnedRange, owners: Owners, target: OwnedRange) returns (p: Plan)
    requires target.Valid() && owns.Valid() && target.Overlaps(owns)
    ensures p == Then(GiveLower(dest, owns, owners, target), GiveHigher(dest, owns, owners, target))
  {
    var transfers: seq<TransferStep> := [];
    if owns.start < target.start {
      var found := Find(owners, EndsAt(owns.start - 1));
      if found.None? { return Panicked; }
      transfers := transfers + [TransferStep(dest, found.value.0, OwnedRange(owns.start, target.start - 1))];
    }
    if owns.end > target.end {
      var found := Find(owners, StartsAt(owns.end + 1));
      if found.None? { return Panicked; }
      transfers := transfers + [TransferStep(dest, found.value.0, OwnedRange(target.end + 1, owns.end))];
    }
    return Planned(transfers);
  }

  /** Takes what is missing below, on top of the steps planned so far. */
  method TakeAllLower(dest: GroupId, owners: Owners, from: RecordId, target: OwnedRange, planned: seq<TransferStep>) returns (p: Plan)
    requires forall o <- owners :: o.1.Valid()
    ensures p == Then(Planned(planned), TakeLower(dest, owners, from, target))
  {
    var transfers, start: RecordId := planned, from;
    while start > target.start
      invariant Then(Planned(transfers), TakeLower(dest, owners, start, target)) == Then(Planned(planned), TakeLower(dest, owners, from, target))
    {
      var found := Find(owners, EndsAt(start - 1));
      if found.None? { return Panicked; }
      var (group, range) := found.value;
      if group == dest { return Panicked; }
      var next := if range.start >= target.start then range.start else target.start;
      var t := TransferStep(group, dest, OwnedRange(next, range.end));
      start, transfers := next, transfers + [t];
    }
    return Planned(transfers);
  }

  /** Takes everything from `from` to the target's end, on top of the steps planned so far. */
  method TakeAllHigher(dest: GroupId, owners: Owners, from: RecordId, target: OwnedRange, planned: seq<TransferStep>) returns (p: Plan)
    requires (forall o <- owners :: o.1.Valid()) && from <= target.end
    ensures p == Then(Planned(planned), TakeHigher(dest, owners, from, target))
  {
    var transfers, start: RecordId := planned, from;
    while true
      invariant start <= target.end
      invariant Then(Planned(transfers), TakeHigher(dest, owners, start, target)) == Then(Planned(planned), TakeHigher(dest, owners, from, target))
      decreases target.end - start
    {
      var found := Find(owners, Holds(start));
      if found.None? { return Panicked; }
      var (group, r) := found.value;
      var end := if r.end <= target.end then r.end else target.end;
      if start != r.start && end != r.end { return Failed(UnableToSplitSourceRange); }
      var t := TransferStep(group, dest, OwnedRange(start, end));
      if end == target.end { return Planned(transfers + [t]); }
      transfers, start := transfers + [t], end + 1;
    }
  }

  /** The planner, as the source runs it: four stages pushing onto one list. */
  method MakePlan(dest: GroupId, destOwns: Option<OwnedRange>, owners: Owners, target: OwnedRange) returns (p: Plan)
    requires target.Valid() && (destOwns.Some? ==> destOwns.value.Valid()) && forall o <- owners :: o.1.Valid()
    ensures p == PlanTransfers(dest, destOwns, owners, target)
  {
    if destOwns.None? {
      p := TakeAllHigher(dest, owners, target.start, target, []);
      return;
    }
    if !target.Overlaps(destOwns.value) { return Failed(DisjointDestination); }
    p := GiveAway(dest, destOwns.value, owners, target);
    if !p.Planned? { return; }
    var owns := Clip(destOwns.value, target);
    p := TakeAllLower(dest, owners, owns.start, target, p.steps);
    if !p.Planned? || owns.end == target.end { return; }
    p := TakeAllHigher(dest, owners, owns.end + 1, target, p.steps);
  }
}
