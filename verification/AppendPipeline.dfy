/**
 The leader agent's queue of log entries waiting to be written.

 Requests arrive in any order. A task that finds the next entry in the queue
 writes it with those that follow, and goes on until the next entry is missing.
 Submissions, the task's locked section and the store's replies interleave
 freely.
 */
module AppendPipeline {
  import opened Wrappers

  type Index = nat

  const MAX_INDEX: Index := 0xFFFF_FFFF_FFFF_FFFF
  const MAX_APPEND_BATCH_SIZE: nat := 100

  /** An entry, with what is to be written along with it. */
  datatype Append = Append(index: Index, payload: nat)

  datatype AppendingState = NotAppending(next: Index) | Appending

  // ---- What the lock protects ----

  datatype Leader = Leader(queue: map<Index, Append>, appending: AppendingState)

  /** The entries at consecutive indexes from `next` on and below `end`. */
  function TakeBatch(queue: map<Index, Append>, next: Index, end: Index): (batch: seq<Append>)
    requires next <= end
    ensures next + |batch| <= end
    decreases end - next
  {
    if next == end || next !in queue then [] else [queue[next]] + TakeBatch(queue, next + 1, end)
  }

  lemma {:induction false} BatchIsMaximal(queue: map<Index, Append>, next: Index, end: Index)
    requires next <= end
    ensures var batch := TakeBatch(queue, next, end);
            && (forall i :: next <= i < next + |batch| ==> i in queue && batch[i - next] == queue[i])
            && (next + |batch| < end ==> next + |batch| !in queue)
    decreases end - next
  {
    if next != end && next in queue { BatchIsMaximal(queue, next + 1, end); }
  }

  function WithoutRange(queue: map<Index, Append>, from: Index, n: nat): map<Index, Append> {
    map i <- queue | !(from <= i < from + n) :: queue[i]
  }

  /** A new request, and the index to start a task with if none is running. */
  function Submit(l: Leader, a: Append): (Leader, Option<Index>) {
    (Leader(l.queue[a.index := a], Appending),
     if l.appending.NotAppending? then Some(l.appending.next) else None)
  }

  /** The task's locked section: what it goes on to write, and where it is then. */
  function Drain(l: Leader, next: Index): (Leader, seq<Append>, Index) {
    var batch := TakeBatch(l.queue, next, next + MAX_APPEND_BATCH_SIZE);
    (Leader(WithoutRange(l.queue, next, |batch|), if batch == [] then NotAppending(next) else l.appending),
     batch, next + |batch|)
  }

  /** After the store has found another leader's entry: nothing is appended any more. */
  function Refuse(l: Leader): Leader {
    Leader(map[], NotAppending(MAX_INDEX))
  }

  /** Removes entry after entry from the queue. */
  method TakeEntries(queue: map<Index, Append>, from: Index) returns (batch: seq<Append>, next: Index, rest: map<Index, Append>)
    ensures batch == TakeBatch(queue, from, from + MAX_APPEND_BATCH_SIZE)
    ensures next == from + |batch| && rest == WithoutRange(queue, from, |batch|)
  {
    ghost var end := from + MAX_APPEND_BATCH_SIZE;
    ghost var all := TakeBatch(queue, from, end);
    batch, next, rest := [], from, queue;
    while next in rest
      invariant next == from + |batch| < end
      invariant rest == WithoutRange(queue, from, |batch|)
      invariant all == batch + TakeBatch(queue, next, end)
      decreases end - next
    {
      batch := batch + [rest[next]];
      rest := rest - {next};
      next := next + 1;
      if |batch| >= MAX_APPEND_BATCH_SIZE { break; }
    }
    assert all == batch + [];
  }

  lemma DrainedInOrder(queue: map<Index, Append>, from: Index)
    requires forall i <- queue :: queue[i].index == i
    ensures var batch := TakeBatch(queue, from, from + MAX_APPEND_BATCH_SIZE);
            Consecutive(from, batch) && (batch == [] ==> from !in queue)
  {
    BatchIsMaximal(queue, from, from + MAX_APPEND_BATCH_SIZE);
    var batch := TakeBatch(queue, from, from + MAX_APPEND_BATCH_SIZE);
    forall k | 0 <= k < |batch| ensures batch[k].index == from + k { assert from + k in queue && batch[from + k - from] == queue[from + k]; }
  }

  class LeaderQueue {
    var queue: map<Index, Append>
    var appending: AppendingState

    ghost function State(): Leader
      reads this
    {
      Leader(queue, appending)
    }

    /** A queue at which no task is at work lacks the entry it waits for. */
    ghost predicate Valid()
      reads this
    {
      (forall i <- queue :: queue[i].index == i) && (appending.NotAppending? ==> appending.next !in queue)
    }

    constructor (next: Index)
      ensures Valid() && State() == Leader(map[], NotAppending(next))
    {
      queue, appending := map[], NotAppending(next);
    }

    method SubmitRequest(a: Append) returns (start: Option<Index>)
      requires Valid() && a.index !in queue
      modifies this
      ensures Valid() && (State(), start) == Submit(old(State()), a)
    {
      queue := queue[a.index := a];
      start := if appending.NotAppending? then Some(appending.next) else None;
      appending := Appending;
    }

    /** Removes entry after entry; taking the entry at the highest index would panic. */
    method DrainQueue(from: Index) returns (batch: seq<Append>, next: Index)
      requires Valid() && appending.Appending? && Drain(State(), from).2 <= MAX_INDEX
      modifies this
      ensures Valid() && (State(), batch, next) == Drain(old(State()), from)
      ensures Consecutive(from, batch) && |batch| <= MAX_APPEND_BATCH_SIZE
    {
      DrainedInOrder(queue, from);
      batch, next, queue := TakeEntries(queue, from);
      if batch == [] { appending := NotAppending(next); }
    }

    method StopAppending()
      modifies this
      ensures Valid() && State() == Refuse(old(State()))
    {
      queue, appending := map[], NotAppending(MAX_INDEX);
    }
  }

  // ---- All interleavings ----

  /** A task is about to enter its locked section, or waits for the store. */
  datatype Task = Draining(next: Index) | Storing(next: Index)

  /** `sent` are the batches given to the store, all but at most the last of
      them accepted; `submitted` are all requests so far. */
  datatype System = System(leader: Leader, tasks: seq<Task>, sent: seq<seq<Append>>, accepted: nat, refused: bool, submitted: set<Append>)

  datatype Step = DoSubmit(a: Append) | DoDrain(task: nat) | StoreAccepts(task: nat) | StoreRefuses(task: nat)

  function New(first: Index): System {
    System(Leader(map[], NotAppending(first)), [], [], 0, false, {})
  }

  function Without(tasks: seq<Task>, i: nat): seq<Task>
    requires i < |tasks|
  {
    tasks[..i] + tasks[i + 1..]
  }

  predicate Possible(s: System, step: Step) {
    match step
    case DoSubmit(a) => a.index <= MAX_INDEX
    case DoDrain(i) => i < |s.tasks| && s.tasks[i].Draining?
    case StoreAccepts(i) => i < |s.tasks| && s.tasks[i].Storing?
    case StoreRefuses(i) => i < |s.tasks| && s.tasks[i].Storing?
  }

  /** Where an assertion of the source fails, or an index overflows. */
  predicate Panics(s: System, step: Step)
    requires Possible(s, step)
  {
    match step
    case DoSubmit(a) => a.index in s.leader.queue
    case DoDrain(i) => !s.leader.appending.Appending? || Drain(s.leader, s.tasks[i].next).2 > MAX_INDEX
    case StoreAccepts(_) => false
    case StoreRefuses(_) => false
  }

  function Apply(s: System, step: Step): System
    requires Possible(s, step)
  {
    match step
    case DoSubmit(a) =>
      var (leader, start) := Submit(s.leader, a);
      s.(leader := leader, tasks := if start.Some? then s.tasks + [Draining(start.value)] else s.tasks, submitted := s.submitted + {a})
    case DoDrain(i) =>
      var (leader, batch, next) := Drain(s.leader, s.tasks[i].next);
      if batch == [] then s.(leader := leader, tasks := Without(s.tasks, i))
      else s.(leader := leader, tasks := s.tasks[i := Storing(next)], sent := s.sent + [batch])
    case StoreAccepts(i) => s.(tasks := s.tasks[i := Draining(s.tasks[i].next)], accepted := s.accepted + 1)
    case StoreRefuses(i) => s.(leader := Refuse(s.leader), tasks := Without(s.tasks, i), refused := true)
  }

  /** A run: every step is possible where it is taken and does not panic. */
  ghost predicate IsRun(first: Index, run: seq<System>, steps: seq<Step>) {
    && first <= MAX_INDEX && |run| == |steps| + 1 && run[0] == New(first)
    && forall i {:trigger steps[i]} :: 0 <= i < |steps| ==>
         Possible(run[i], steps[i]) && !Panics(run[i], steps[i]) && run[i + 1] == Apply(run[i], steps[i])
  }

  // ---- What every step keeps ----

  function Flat(batches: seq<seq<Append>>): seq<Append> {
    if batches == [] then [] else Flat(batches[..|batches| - 1]) + batches[|batches| - 1]
  }

  /** Where the next entry to write is. */
  function NextIndex(s: System): Index {
    if s.tasks != [] then s.tasks[0].next
    else if s.leader.appending.NotAppending? then s.leader.appending.next else 0
  }

  /** One task exactly when the state says so, and none stops with work left. */
  predicate OneAppender(s: System) {
    && |s.tasks| == (if s.leader.appending.Appending? then 1 else 0)
    && (s.leader.appending.NotAppending? ==> s.leader.appending.next !in s.leader.queue)
  }

  predicate Consecutive(first: Index, entries: seq<Append>) {
    forall k :: 0 <= k < |entries| ==> entries[k].index == first + k
  }

  predicate BatchSizes(batches: seq<seq<Append>>) {
    forall b <- batches :: 1 <= |b| <= MAX_APPEND_BATCH_SIZE
  }

  /** What has been submitted is in the queue, or was at a lower index. */
  predicate Queued(s: System) {
    && (forall i <- s.leader.queue :: s.leader.queue[i].index == i && s.leader.queue[i] in s.submitted)
    && (forall a <- Flat(s.sent) :: a in s.submitted)
    && (!s.refused ==> forall a <- s.submitted :: a.index < NextIndex(s) || a.index in s.leader.queue)
  }

  predicate Progress(s: System, first: Index) {
    && NextIndex(s) <= MAX_INDEX
    && NextIndex(s) == (if s.refused then MAX_INDEX else first + |Flat(s.sent)|)
    && (s.tasks != [] && s.tasks[0].Storing? ==> !s.refused && s.sent != [])
    && |s.sent| == s.accepted + (if s.refused || (s.tasks != [] && s.tasks[0].Storing?) then 1 else 0)
  }

  ghost predicate Inv(s: System, first: Index) {
    && OneAppender(s) && Consecutive(first, Flat(s.sent)) && BatchSizes(s.sent) && Queued(s) && Progress(s, first)
  }

  /** A batch continues what has been sent, with entries that were submitted. */
  lemma BatchFollowsOn(s: System, first: Index, batch: seq<Append>)
    requires Inv(s, first) && s.tasks != [] && !s.refused
    requires batch == TakeBatch(s.leader.queue, s.tasks[0].next, s.tasks[0].next + MAX_APPEND_BATCH_SIZE)
    ensures Consecutive(first, Flat(s.sent + [batch]))
    ensures forall a <- Flat(s.sent + [batch]) :: a in s.submitted
  {
    var next := s.tasks[0].next;
    BatchIsMaximal(s.leader.queue, next, next + MAX_APPEND_BATCH_SIZE);
    forall k | 0 <= k < |batch| ensures batch[k].index == next + k && batch[k] in s.submitted {
      assert next + k in s.leader.queue && batch[next + k - next] == s.leader.queue[next + k];
    }
  }

  /** Nothing is sent after a refusal: the task would have to take the entry at the highest index. */
  lemma DrainSends(s: System, first: Index, i: nat, batch: seq<Append>)
    requires Inv(s, first) && Possible(s, DoDrain(i)) && !Panics(s, DoDrain(i))
    requires batch == Drain(s.leader, s.tasks[i].next).1 != []
    ensures !s.refused && Inv(Apply(s, DoDrain(i)), first)
  {
    assert !s.refused;
    BatchFollowsOn(s, first, batch);
  }

  lemma DrainKeeps(s: System, first: Index, i: nat)
    requires Inv(s, first) && Possible(s, DoDrain(i)) && !Panics(s, DoDrain(i))
    ensures Inv(Apply(s, DoDrain(i)), first)
    ensures s.refused ==> Apply(s, DoDrain(i)).sent == s.sent
  {
    var batch := Drain(s.leader, s.tasks[i].next).1;
    if batch != [] { DrainSends(s, first, i, batch); }
  }

  lemma StepKeeps(s: System, first: Index, step: Step)
    requires Inv(s, first) && Possible(s, step) && !Panics(s, step)
    ensures var t := Apply(s, step);
            Inv(t, first) && s.sent <= t.sent && s.accepted <= t.accepted && (s.refused ==> t.refused && t.sent == s.sent)
  {
    match step
    case DoSubmit(a) =>
    case DoDrain(i) => DrainKeeps(s, first, i);
    case StoreAccepts(i) =>
    case StoreRefuses(i) =>
  }

  lemma {:induction false} RunKeeps(first: Index, run: seq<System>, steps: seq<Step>, i: nat, j: nat)
    requires IsRun(first, run, steps) && i <= j < |run|
    ensures Inv(run[j], first) && run[i].sent <= run[j].sent && (run[i].refused ==> run[j].refused && run[j].sent == run[i].sent)
    decreases j
  {
    if j > 0 {
      RunKeeps(first, run, steps, if i < j then i else 0, j - 1);
      StepKeeps(run[j - 1], first, steps[j - 1]);
    }
  }

  // ---- What the store sees ----

  /** In every run: there is at most one task; a stopped queue does not hold the
      entry it waits for; the store is given the indexes from the first on, each
      once and in order, each entry one that was submitted, in batches of at most
      a hundred; and after a refusal it is given nothing more. */
  lemma PipelineSafe(first: Index, run: seq<System>, steps: seq<Step>, i: nat, j: nat)
    requires IsRun(first, run, steps) && i <= j < |run|
    ensures OneAppender(run[j])
    ensures Consecutive(first, Flat(run[j].sent)) && BatchSizes(run[j].sent)
    ensures forall a <- Flat(run[j].sent) :: a in run[j].submitted
    ensures run[i].sent <= run[j].sent && (run[i].refused ==> run[j].sent == run[i].sent)
  {
    RunKeeps(first, run, steps, i, j);
  }

  /** No assertion of the task fails: it panics only if it takes the entry at the highest index. */
  lemma DrainPanics(first: Index, run: seq<System>, steps: seq<Step>, j: nat, i: nat)
    requires IsRun(first, run, steps) && j < |run| && Possible(run[j], DoDrain(i))
    ensures Panics(run[j], DoDrain(i)) <==>
            var next := NextIndex(run[j]);
            next <= MAX_INDEX < next + MAX_APPEND_BATCH_SIZE && forall k :: next <= k <= MAX_INDEX ==> k in run[j].leader.queue
  {
    RunKeeps(first, run, steps, 0, j);
    var s := run[j];
    var next := s.tasks[i].next;
    var batch := Drain(s.leader, next).1;
    BatchIsMaximal(s.leader.queue, next, next + MAX_APPEND_BATCH_SIZE);
    if next + |batch| > MAX_INDEX {
      assert next <= MAX_INDEX;
    }
  }

  /** Once the task has stopped, everything that could be written has been: the
      entry after the last one written was never submitted. */
  lemma QuiescentIsComplete(first: Index, run: seq<System>, steps: seq<Step>, j: nat, a: Append)
    requires IsRun(first, run, steps) && j < |run| && run[j].tasks == [] && !run[j].refused && a in run[j].submitted
    ensures a.index != first + |Flat(run[j].sent)|
  {
    RunKeeps(first, run, steps, 0, j);
  }

  // ---- Rows ----

  /** The rows the store reports: one for each accepted batch. */
  function RowStarts(batches: seq<seq<Append>>): seq<Index>
    requires BatchSizes(batches)
  {
    seq(|batches|, i requires 0 <= i < |batches| => assert batches[i] in batches; batches[i][0].index)
  }

  lemma {:induction false} RowStartsAt(first: Index, batches: seq<seq<Append>>, i: nat)
    requires BatchSizes(batches) && Consecutive(first, Flat(batches)) && i < |batches|
    ensures RowStarts(batches)[i] == first + |Flat(batches[..i])|
    decreases |batches|
  {
    var n := |batches| - 1;
    var front := batches[..n];
    assert Flat(batches) == Flat(front) + batches[n];
    if i < n {
      assert Consecutive(first, Flat(front)) by {
        assert forall k :: 0 <= k < |Flat(front)| ==> Flat(batches)[k] == Flat(front)[k];
      }
      RowStartsAt(first, front, i);
      assert front[..i] == batches[..i];
    } else {
      assert batches[n] in batches && Flat(batches)[|Flat(front)|] == batches[n][0];
    }
  }

  /** The first row starts at the first index, and each other where the one before it ends. */
  lemma RowsFollowOn(first: Index, batches: seq<seq<Append>>, i: nat)
    requires BatchSizes(batches) && Consecutive(first, Flat(batches)) && i < |batches|
    ensures RowStarts(batches)[i] == if i == 0 then first else RowStarts(batches)[i - 1] + |batches[i - 1]|
  {
    RowStartsAt(first, batches, i);
    if i > 0 {
      RowStartsAt(first, batches, i - 1);
      assert batches[..i] == batches[..i - 1] + [batches[i - 1]];
    }
  }
}
