/** The split pipeline as a step system: a scheduler that admits tasks in list order against a memory
    budget, workers that push batches into two-slot channels, and one consumer that drains and retires
    tasks in the same order.

    `Job` fixes the tasks' estimates and the batches each would push; a run is any list of enabled steps.
    `Sound`, kept by every step, ties the budget to the admitted tasks and the emission to the serial output. */
module Scheduler {
  import opened Orders
  import opened Values

  /** A task's memory estimate, the batches it pushes unless it is cancelled, and whether it ends in an error. */
  datatype Task<P> = Task(est: nat, batches: seq<seq<P>>, broken: bool)

  datatype Job<P> = Job(tasks: seq<Task<P>>, limit: nat, workers: nat)

  ghost predicate Wellformed<P>(j: Job<P>) {
    j.limit > 0 && j.workers > 0 && forall t :: t in j.tasks ==> t.est > 0
  }

  /** An estimate over the whole budget is clamped to it. */
  function Est<P>(j: Job<P>, t: nat): nat
    requires t < |j.tasks|
  {
    if j.tasks[t].est > j.limit then j.limit else j.tasks[t].est
  }

  datatype Worker = Running | Closing | Gone

  /** An admitted task: batches pushed and consumed so far, and how its worker stands. */
  datatype Handle = Handle(sent: nat, taken: nat, worker: Worker, err: bool)

  /** The scheduler goroutine: waiting for budget, for a worker slot, or for room in the ordered queue. */
  datatype Sched = Acquiring | Slotting | Pushing | Exited

  datatype State<P> = State(
    sched: Sched, used: int, slots: nat, handles: seq<Handle>, ordered: seq<nat>,
    cur: Option<nat>, retired: nat, cancelled: bool, failed: Option<nat>, emitted: seq<P>, counted: nat, done: bool)

  datatype Step =
    | Acquire | TakeSlot | Push | Close | GiveUp
    | Emit(t: nat) | Finish(t: nat, ok: bool) | FreeSlot(t: nat)
    | Next | Take | Retire | End

  function Init<P>(): State<P> { State(Acquiring, 0, 0, [], [], None, 0, false, None, [], 0, false) }

  predicate Enabled<P>(j: Job<P>, s: State<P>, a: Step) {
    var i := |s.handles|;
    match a
    case Acquire => s.sched.Acquiring? && i < |j.tasks| && s.used + Est(j, i) <= j.limit
    case TakeSlot => s.sched.Slotting? && s.slots < j.workers
    case Push => s.sched.Pushing? && |s.ordered| < j.workers && i < |j.tasks|
    case Close => s.sched.Acquiring? && i == |j.tasks|
    case GiveUp => s.cancelled && !s.sched.Exited? && i < |j.tasks|
    case Emit(t) => t < i && i <= |j.tasks| && s.handles[t].worker.Running? && s.handles[t].sent < |j.tasks[t].batches|
      && s.handles[t].sent - s.handles[t].taken < 2
    case Finish(t, ok) => t < i && i <= |j.tasks| && s.handles[t].worker.Running?
      && ((!ok && s.cancelled) || (s.handles[t].sent == |j.tasks[t].batches| && ok == !j.tasks[t].broken))
    case FreeSlot(t) => t < i && s.handles[t].worker.Closing? && s.slots > 0
    case Next => s.cur.None? && s.ordered != []
    case Take => s.cur.Some? && s.cur.value < i && s.handles[s.cur.value].taken < s.handles[s.cur.value].sent
      && i <= |j.tasks| && s.handles[s.cur.value].sent <= |j.tasks[s.cur.value].batches|
    case Retire => s.cur.Some? && s.cur.value < i && i <= |j.tasks|
      && s.handles[s.cur.value].taken == s.handles[s.cur.value].sent && !s.handles[s.cur.value].worker.Running?
    case End => !s.done && s.cur.None? && s.ordered == [] && s.sched.Exited? && forall t :: 0 <= t < i ==> s.handles[t].worker.Gone?
  }

  function SetHandle<P>(s: State<P>, t: nat, h: Handle): State<P>
    requires t < |s.handles|
  {
    s.(handles := s.handles[t := h])
  }

  function Apply<P>(j: Job<P>, s: State<P>, a: Step): State<P>
    requires Enabled(j, s, a)
  {
    var i := |s.handles|;
    match a
    case Acquire => s.(used := s.used + Est(j, i), sched := Slotting)
    case TakeSlot => s.(slots := s.slots + 1, sched := Pushing)
    case Push => s.(ordered := s.ordered + [i], handles := s.handles + [Handle(0, 0, Running, false)], sched := Acquiring)
    case Close => s.(sched := Exited)
    case GiveUp => s.(sched := Exited, used := if s.sched.Acquiring? then s.used else s.used - Est(j, i),
                      slots := if s.sched.Pushing? && s.slots > 0 then s.slots - 1 else s.slots)
    case Emit(t) => SetHandle(s, t, s.handles[t].(sent := s.handles[t].sent + 1))
    case Finish(t, ok) => SetHandle(s, t, s.handles[t].(worker := Closing, err := !ok))
    case FreeSlot(t) => SetHandle(s, t, s.handles[t].(worker := Gone)).(slots := s.slots - 1)
    case Next => s.(cur := Some(s.ordered[0]), ordered := s.ordered[1..])
    case Take =>
      var t := s.cur.value;
      var b := j.tasks[t].batches[s.handles[t].taken];
      SetHandle(s, t, s.handles[t].(taken := s.handles[t].taken + 1)).(emitted := if s.failed.None? then s.emitted + b else s.emitted)
    case Retire =>
      var t := s.cur.value;
      var first := s.failed.None? && s.handles[t].err;
      s.(cur := None, retired := s.retired + 1, used := s.used - Est(j, t), cancelled := s.cancelled || first,
         failed := if first then Some(t) else s.failed, counted := if s.failed.None? && !first then s.counted + 1 else s.counted)
    case End => s.(done := true)
  }

  predicate Runs<P>(j: Job<P>, s: State<P>, steps: seq<Step>)
    decreases |steps|
  {
    steps == [] || (Enabled(j, s, steps[0]) && Runs(j, Apply(j, s, steps[0]), steps[1..]))
  }

  function Exec<P>(j: Job<P>, s: State<P>, steps: seq<Step>): State<P>
    requires Runs(j, s, steps)
    decreases |steps|
  {
    if steps == [] then s else Exec(j, Apply(j, s, steps[0]), steps[1..])
  }

  // ---- the invariant ----

  function SumEst<P>(j: Job<P>, lo: nat, hi: nat): nat
    requires hi <= |j.tasks|
    decreases hi
  {
    if hi <= lo then 0 else SumEst(j, lo, hi - 1) + Est(j, hi - 1)
  }

  function Busy(hs: seq<Handle>): nat {
    if hs == [] then 0 else Busy(hs[..|hs| - 1]) + (if hs[|hs| - 1].worker.Gone? then 0 else 1)
  }

  function OutOf<P>(t: Task<P>): seq<P> { Flatten(t.batches) }

  /** The output of the first n tasks, one after the other. */
  function OutUpTo<P>(j: Job<P>, n: nat): seq<P>
    requires n <= |j.tasks|
  {
    if n == 0 then [] else OutUpTo(j, n - 1) + OutOf(j.tasks[n - 1])
  }

  /** Tasks are admitted, queued and retired in list order: those admitted and not retired are the current
      one followed by the queue. */
  ghost predicate InOrder<P>(j: Job<P>, s: State<P>) {
    var front := s.retired + (if s.cur.Some? then 1 else 0);
    && |s.handles| <= |j.tasks| && |s.ordered| <= j.workers
    && (s.cur.Some? ==> s.cur.value == s.retired)
    && front + |s.ordered| == |s.handles|
    && (forall k :: 0 <= k < |s.ordered| ==> s.ordered[k] == front + k)
    && (s.sched.Slotting? || s.sched.Pushing? ==> |s.handles| < |j.tasks|)
    && (s.sched.Exited? ==> |s.handles| == |j.tasks| || s.cancelled)
    && (s.cancelled <==> s.failed.Some?)
    && (s.done ==> s.sched.Exited? && s.cur.None? && s.ordered == [])
  }

  /** The budget in use is the sum of the admitted, unretired tasks' clamped estimates. */
  ghost predicate Budgeted<P>(j: Job<P>, s: State<P>)
    requires InOrder(j, s)
  {
    && s.used == SumEst(j, s.retired, |s.handles|) + (if s.sched.Slotting? || s.sched.Pushing? then Est(j, |s.handles|) else 0)
    && s.used <= j.limit
    && s.slots == Busy(s.handles) + (if s.sched.Pushing? then 1 else 0) <= j.workers
  }

  ghost predicate HandleOk<P>(t: Task<P>, h: Handle) {
    && h.taken <= h.sent <= |t.batches| && h.sent - h.taken <= 2
    && (!h.worker.Running? && !h.err ==> h.sent == |t.batches| && !t.broken)
    && (h.worker.Running? ==> !h.err)
  }

  ghost predicate HandlesOk<P>(j: Job<P>, s: State<P>)
    requires |s.handles| <= |j.tasks|
  {
    forall t :: 0 <= t < |s.handles| ==> HandleOk(j.tasks[t], s.handles[t])
  }

  /** Retired tasks are finished and consumed, tasks behind the current one are not looked at yet. */
  ghost predicate Consumed<P>(s: State<P>) {
    && (forall t :: 0 <= t < |s.handles| && t < s.retired ==> !s.handles[t].worker.Running? && s.handles[t].taken == s.handles[t].sent)
    && (forall t :: 0 <= t < |s.handles| && t > s.retired ==> s.handles[t].taken == 0)
    && (s.cur.None? && s.retired < |s.handles| ==> s.handles[s.retired].taken == 0)
  }

  /** Before a failure is known, an error is that of a broken task, behind all its batches. */
  ghost predicate ErrorsReal<P>(j: Job<P>, s: State<P>)
    requires |s.handles| <= |j.tasks|
  {
    s.failed.None? ==>
      forall t :: 0 <= t < |s.handles| && s.handles[t].err ==> s.handles[t].sent == |j.tasks[t].batches| && j.tasks[t].broken
  }

  ghost predicate Handled<P>(j: Job<P>, s: State<P>)
    requires |s.handles| <= |j.tasks|
  {
    HandlesOk(j, s) && Consumed(s) && ErrorsReal(j, s)
  }

  /** What was emitted is the output of the retired tasks and the consumed batches of the current one; after
      a failure, the output up to and including the first broken task. */
  ghost predicate Emits<P>(j: Job<P>, s: State<P>)
    requires InOrder(j, s) && Handled(j, s)
  {
    match s.failed
    case None =>
      && s.counted == s.retired
      && (forall t :: 0 <= t < s.retired ==> !j.tasks[t].broken)
      && s.emitted == OutUpTo(j, s.retired)
           + (if s.cur.Some? then Flatten(j.tasks[s.retired].batches[..s.handles[s.retired].taken]) else [])
    case Some(t) =>
      && t < s.retired && s.counted == t && j.tasks[t].broken
      && (forall u :: 0 <= u < t ==> !j.tasks[u].broken)
      && s.emitted == OutUpTo(j, t + 1)
  }

  ghost predicate Sound<P>(j: Job<P>, s: State<P>) {
    InOrder(j, s) && Budgeted(j, s) && Handled(j, s) && Emits(j, s)
  }

  lemma InitIsSound<P>(j: Job<P>)
    requires Wellformed(j)
    ensures Sound(j, Init<P>())
  {}

  lemma {:induction false} BusySet(hs: seq<Handle>, t: nat, h: Handle)
    requires t < |hs|
    ensures Busy(hs[t := h]) == Busy(hs) - (if hs[t].worker.Gone? then 0 else 1) + (if h.worker.Gone? then 0 else 1)
    decreases |hs|
  {
    var gs := hs[t := h];
    var n := |hs| - 1;
    if t == n { assert gs[..n] == hs[..n]; } else {
      assert gs[..n] == hs[..n][t := h];
      BusySet(hs[..n], t, h);
    }
  }

  lemma {:induction false} SumSplit<P>(j: Job<P>, lo: nat, hi: nat)
    requires lo < hi <= |j.tasks|
    ensures SumEst(j, lo, hi) == Est(j, lo) + SumEst(j, lo + 1, hi)
    decreases hi
  {
    if lo + 1 < hi { SumSplit(j, lo, hi - 1); }
  }

  lemma FlattenTake<P>(bs: seq<seq<P>>, n: nat)
    requires n < |bs|
    ensures Flatten(bs[..n + 1]) == Flatten(bs[..n]) + bs[n]
  {
    assert bs[..n + 1] == bs[..n] + [bs[n]];
    FlattenConcat(bs[..n], [bs[n]]);
    assert Flatten([bs[n]]) == bs[n] + Flatten([bs[n]][1..]);
  }

  lemma StepKeepsOrder<P>(j: Job<P>, s: State<P>, a: Step)
    requires Wellformed(j) && Sound(j, s) && Enabled(j, s, a)
    ensures InOrder(j, Apply(j, s, a))
  {
    hide OutUpTo, SumEst, Busy;
  }

  /** A step of one worker, or a batch taken from it. */
  lemma HandleStepKeepsBudget<P>(j: Job<P>, s: State<P>, a: Step)
    requires InOrder(j, s) && Budgeted(j, s) && Enabled(j, s, a) && InOrder(j, Apply(j, s, a))
    requires a.Emit? || a.Finish? || a.FreeSlot? || a.Take?
    ensures Budgeted(j, Apply(j, s, a))
  {
    hide InOrder, SumEst, Busy;
    var t := if a.Take? then s.cur.value else a.t;
    BusySet(s.handles, t, Apply(j, s, a).handles[t]);
  }

  lemma RetireKeepsBudget<P>(j: Job<P>, s: State<P>)
    requires InOrder(j, s) && Budgeted(j, s) && Enabled(j, s, Retire) && InOrder(j, Apply(j, s, Retire))
    ensures Budgeted(j, Apply(j, s, Retire))
  {
    hide Busy;
    SumSplit(j, s.retired, |s.handles|);
  }

  lemma StepKeepsBudget<P>(j: Job<P>, s: State<P>, a: Step)
    requires Wellformed(j) && Sound(j, s) && Enabled(j, s, a)
    requires InOrder(j, Apply(j, s, a))
    ensures Budgeted(j, Apply(j, s, a))
  {
    hide OutUpTo, Emits, HandleOk, Flatten, Handled;
    if a.Emit? || a.Finish? || a.FreeSlot? || a.Take? {
      HandleStepKeepsBudget(j, s, a);
    } else if a.Retire? {
      RetireKeepsBudget(j, s);
    } else if a.Push? {
      assert Apply(j, s, a).handles[..|s.handles|] == s.handles;
    }
  }

  lemma StepKeepsHandlesOk<P>(j: Job<P>, s: State<P>, a: Step)
    requires Wellformed(j) && InOrder(j, s) && Handled(j, s) && Enabled(j, s, a) && InOrder(j, Apply(j, s, a))
    ensures HandlesOk(j, Apply(j, s, a))
  {
    hide ErrorsReal, Consumed;
  }

  lemma StepKeepsConsumed<P>(j: Job<P>, s: State<P>, a: Step)
    requires Wellformed(j) && InOrder(j, s) && Handled(j, s) && Enabled(j, s, a) && InOrder(j, Apply(j, s, a))
    ensures Consumed(Apply(j, s, a))
  {
    hide ErrorsReal;
  }

  lemma StepKeepsErrorsReal<P>(j: Job<P>, s: State<P>, a: Step)
    requires Wellformed(j) && InOrder(j, s) && Handled(j, s) && Enabled(j, s, a) && InOrder(j, Apply(j, s, a))
    ensures ErrorsReal(j, Apply(j, s, a))
  {
    hide Consumed;
  }

  lemma StepKeepsHandles<P>(j: Job<P>, s: State<P>, a: Step)
    requires Wellformed(j) && Sound(j, s) && Enabled(j, s, a)
    requires InOrder(j, Apply(j, s, a))
    ensures Handled(j, Apply(j, s, a))
  {
    hide OutUpTo, SumEst, Busy, InOrder, Budgeted, Emits, Enabled, Apply, HandlesOk, Consumed, ErrorsReal;
    StepKeepsHandlesOk(j, s, a);
    StepKeepsConsumed(j, s, a);
    StepKeepsErrorsReal(j, s, a);
  }

  /** A step that neither moves the consumer nor emits. */
  lemma QuietKeepsOutput<P>(j: Job<P>, s: State<P>, t: State<P>)
    requires InOrder(j, s) && Handled(j, s) && Emits(j, s) && InOrder(j, t) && Handled(j, t)
    requires t.failed == s.failed && t.retired == s.retired && t.cur == s.cur && t.counted == s.counted && t.emitted == s.emitted
    requires s.cur.Some? ==> t.handles[s.retired].taken == s.handles[s.retired].taken
    ensures Emits(j, t)
  {
    hide Flatten, Handled, OutUpTo;
  }

  lemma NextKeepsOutput<P>(j: Job<P>, s: State<P>)
    requires Sound(j, s) && Enabled(j, s, Next) && InOrder(j, Apply(j, s, Next)) && Handled(j, Apply(j, s, Next))
    ensures Emits(j, Apply(j, s, Next))
  {
    hide Flatten, OutUpTo, Budgeted;
    NoBatches(j.tasks[s.retired].batches);
  }

  lemma TakeKeepsOutput<P>(j: Job<P>, s: State<P>)
    requires Sound(j, s) && Enabled(j, s, Take) && InOrder(j, Apply(j, s, Take)) && Handled(j, Apply(j, s, Take))
    ensures Emits(j, Apply(j, s, Take))
  {
    hide Flatten, OutUpTo, Budgeted, Handled;
    FlattenTake(j.tasks[s.cur.value].batches, s.handles[s.cur.value].taken);
  }

  lemma RetireKeepsOutput<P>(j: Job<P>, s: State<P>)
    requires Sound(j, s) && Enabled(j, s, Retire) && InOrder(j, Apply(j, s, Retire)) && Handled(j, Apply(j, s, Retire))
    ensures Emits(j, Apply(j, s, Retire))
  {
    hide Flatten, Budgeted, Consumed;
    var t := s.cur.value;
    assert HandleOk(j.tasks[t], s.handles[t]);
    TakeAll(j.tasks[t].batches);
  }

  lemma StepKeepsOutput<P>(j: Job<P>, s: State<P>, a: Step)
    requires Wellformed(j) && Sound(j, s) && Enabled(j, s, a)
    requires InOrder(j, Apply(j, s, a)) && Handled(j, Apply(j, s, a))
    ensures Emits(j, Apply(j, s, a))
  {
    hide Flatten, OutUpTo, Budgeted, Handled, Emits;
    match a
    case Next => NextKeepsOutput(j, s);
    case Take => TakeKeepsOutput(j, s);
    case Retire => RetireKeepsOutput(j, s);
    case _ => QuietKeepsOutput(j, s, Apply(j, s, a));
  }

  lemma NoBatches<P>(bs: seq<seq<P>>)
    ensures Flatten(bs[..0]) == []
  {}

  lemma StepKeepsSound<P>(j: Job<P>, s: State<P>, a: Step)
    requires Wellformed(j) && Sound(j, s) && Enabled(j, s, a)
    ensures Sound(j, Apply(j, s, a))
  {
    hide InOrder, Budgeted, Handled, Emits, Enabled, Apply;
    StepKeepsOrder(j, s, a);
    StepKeepsBudget(j, s, a);
    StepKeepsHandles(j, s, a);
    StepKeepsOutput(j, s, a);
  }

  lemma {:induction false} RunKeepsSound<P>(j: Job<P>, s: State<P>, steps: seq<Step>)
    requires Wellformed(j) && Sound(j, s) && Runs(j, s, steps)
    ensures Sound(j, Exec(j, s, steps))
    decreases |steps|
  {
    hide Sound, Enabled, Apply;
    if steps != [] {
      StepKeepsSound(j, s, steps[0]);
      RunKeepsSound(j, Apply(j, s, steps[0]), steps[1..]);
    }
  }

  ghost predicate Reachable<P(!new)>(j: Job<P>, s: State<P>) {
    exists steps :: Runs(j, Init<P>(), steps) && Exec(j, Init<P>(), steps) == s
  }

  lemma ReachableIsSound<P(!new)>(j: Job<P>, s: State<P>)
    requires Wellformed(j) && Reachable(j, s)
    ensures Sound(j, s)
  {
    hide Sound;
    var steps :| Runs(j, Init<P>(), steps) && Exec(j, Init<P>(), steps) == s;
    InitIsSound(j);
    RunKeepsSound(j, Init<P>(), steps);
  }

  // ---- main results ----

  /** Tasks that hold budget: admitted or acquired, and not yet retired. */
  ghost predicate Holds<P>(s: State<P>, t: nat) {
    s.retired <= t < |s.handles| || (t == |s.handles| && (s.sched.Slotting? || s.sched.Pushing?))
  }

  /** The number of tasks whose estimate is in `used`. */
  ghost function HeldUpTo<P>(s: State<P>): nat {
    |s.handles| + (if s.sched.Slotting? || s.sched.Pushing? then 1 else 0)
  }

  /** In every reachable state the budget in use is exactly the sum of the clamped estimates of the tasks
      that hold it, never more than the limit; those tasks are consecutive in list order. */
  lemma BudgetIsHeld<P(!new)>(j: Job<P>, s: State<P>)
    requires Wellformed(j) && Reachable(j, s)
    ensures s.retired <= HeldUpTo(s) <= |j.tasks|
    ensures s.used == SumEst(j, s.retired, HeldUpTo(s)) <= j.limit
    ensures forall t: nat :: Holds(s, t) <==> s.retired <= t < HeldUpTo(s)
  {
    ReachableIsSound(j, s);
  }

  lemma {:induction false} SumHasTwo<P>(j: Job<P>, lo: nat, hi: nat, t: nat, u: nat)
    requires Wellformed(j) && lo <= t < hi <= |j.tasks| && lo <= u < hi && t != u
    ensures SumEst(j, lo, hi) >= Est(j, t) + Est(j, u)
    decreases hi
  {
    if t < hi - 1 && u < hi - 1 {
      SumHasTwo(j, lo, hi - 1, t, u);
    } else {
      SumHasOne(j, lo, hi - 1, if t == hi - 1 then u else t);
    }
  }

  lemma {:induction false} SumHasOne<P>(j: Job<P>, lo: nat, hi: nat, t: nat)
    requires lo <= t < hi <= |j.tasks|
    ensures SumEst(j, lo, hi) >= Est(j, t)
    decreases hi
  {
    if t < hi - 1 { SumHasOne(j, lo, hi - 1, t); }
  }

  /** A task whose estimate fills the budget holds it alone. */
  lemma OversizedRunsAlone<P(!new)>(j: Job<P>, s: State<P>, t: nat, u: nat)
    requires Wellformed(j) && Reachable(j, s) && Holds(s, t) && Holds(s, u)
    requires t < |j.tasks| && j.tasks[t].est >= j.limit
    ensures t == u
  {
    hide SumEst;
    BudgetIsHeld(j, s);
    if t != u {
      assert j.tasks[u] in j.tasks;
      SumHasTwo(j, s.retired, HeldUpTo(s), t, u);
    }
  }

  /** The tasks' own estimates. */
  function SumRaw<P>(j: Job<P>, lo: nat, hi: nat): nat
    requires hi <= |j.tasks|
    decreases hi
  {
    if hi <= lo then 0 else SumRaw(j, lo, hi - 1) + j.tasks[hi - 1].est
  }

  lemma {:induction false} RawIsEst<P>(j: Job<P>, lo: nat, hi: nat)
    requires hi <= |j.tasks| && forall t :: lo <= t < hi ==> j.tasks[t].est <= j.limit
    ensures SumRaw(j, lo, hi) == SumEst(j, lo, hi)
    decreases hi
  {
    if lo < hi { RawIsEst(j, lo, hi - 1); }
  }

  /** The estimates of all tasks that are admitted and not retired fit the budget together, unless there is only one
      such task. */
  lemma EstimatesFit<P(!new)>(j: Job<P>, s: State<P>)
    requires Wellformed(j) && Reachable(j, s)
    ensures s.retired <= HeldUpTo(s) <= |j.tasks|
    ensures HeldUpTo(s) - s.retired <= 1 || SumRaw(j, s.retired, HeldUpTo(s)) <= j.limit
  {
    hide SumEst, SumRaw, Holds;
    BudgetIsHeld(j, s);
    if HeldUpTo(s) - s.retired > 1 {
      forall t | s.retired <= t < HeldUpTo(s) ensures j.tasks[t].est <= j.limit {
        if j.tasks[t].est > j.limit { OversizedRunsAlone(j, s, t, if t == s.retired then t + 1 else s.retired); }
      }
      RawIsEst(j, s.retired, HeldUpTo(s));
    }
  }

  lemma {:induction false} OutUpToGrows<P>(j: Job<P>, n: nat, m: nat)
    requires n <= m <= |j.tasks|
    ensures OutUpTo(j, n) <= OutUpTo(j, m)
    decreases m
  {
    if n < m { OutUpToGrows(j, n, m - 1); }
  }

  lemma SomeBatches<P>(bs: seq<seq<P>>, n: nat)
    requires n <= |bs|
    ensures Flatten(bs[..n]) <= Flatten(bs)
  {
    TakeDrop(bs, n);
    FlattenConcat(bs[..n], bs[n..]);
  }

  /** How many tasks' output is emitted in the end: all, or those up to the first broken one. */
  function Last<P>(j: Job<P>, from: nat): (n: nat)
    requires from <= |j.tasks|
    ensures from <= n <= |j.tasks|
    decreases |j.tasks| - from
  {
    if from == |j.tasks| then from else if j.tasks[from].broken then from + 1 else Last(j, from + 1)
  }

  lemma {:induction false} LastIs<P>(j: Job<P>, from: nat, n: nat)
    requires from <= n <= |j.tasks| && forall t :: from <= t < n ==> !j.tasks[t].broken
    ensures n == |j.tasks| ==> Last(j, from) == n
    ensures n < |j.tasks| && j.tasks[n].broken ==> Last(j, from) == n + 1
    ensures n <= Last(j, from)
    decreases n - from
  {
    if from < n { LastIs(j, from + 1, n); }
  }

  lemma {:induction false} BeforeLast<P>(j: Job<P>, from: nat)
    requires from <= |j.tasks|
    ensures forall t :: from <= t < Last(j, from) - 1 ==> !j.tasks[t].broken
    decreases |j.tasks| - from
  {
    if from < |j.tasks| && !j.tasks[from].broken { BeforeLast(j, from + 1); }
  }

  lemma CountedInRange<P(!new)>(j: Job<P>, s: State<P>)
    requires Wellformed(j) && Reachable(j, s)
    ensures s.counted <= |j.tasks|
  {
    ReachableIsSound(j, s);
  }

  /** What the consumer emits in the end. */
  function Output<P>(j: Job<P>): seq<P> { OutUpTo(j, Last(j, 0)) }

  /** Under every schedule, what the consumer has emitted is a prefix of one fixed output, and all of it when
      it returns: the tasks' outputs in list order, up to and including the first broken task. */
  lemma EmitsOutput<P(!new)>(j: Job<P>, s: State<P>)
    requires Wellformed(j) && Reachable(j, s)
    ensures s.emitted <= Output(j)
    ensures s.done ==> s.emitted == Output(j)
  {
    hide Flatten, SumEst, Busy;
    ReachableIsSound(j, s);
    var n := if s.failed.Some? then s.failed.value else s.retired;
    LastIs(j, 0, n);
    OutUpToGrows(j, n, Last(j, 0));
    if s.failed.None? && s.cur.Some? {
      SomeBatches(j.tasks[n].batches, s.handles[n].taken);
      LaterLast(j, n);
      OutUpToGrows(j, n + 1, Last(j, 0));
      assert OutUpTo(j, n + 1) == OutUpTo(j, n) + OutOf(j.tasks[n]);
    }
  }

  lemma LaterLast<P>(j: Job<P>, n: nat)
    requires n < |j.tasks| && forall t :: 0 <= t < n ==> !j.tasks[t].broken
    ensures n + 1 <= Last(j, 0)
  {
    LastIs(j, 0, n);
    if !j.tasks[n].broken { LastIs(j, 0, n + 1); }
  }

  /** When the consumer returns, a failure is reported exactly when some task is broken; it is that of the first
      such task, and exactly the tasks before it are counted. */
  lemma FailureIsFirstBroken<P(!new)>(j: Job<P>, s: State<P>)
    requires Wellformed(j) && Reachable(j, s)
    ensures s.failed.Some? ==> s.failed.value < |j.tasks| && j.tasks[s.failed.value].broken && s.counted == s.failed.value
    ensures forall t :: 0 <= t < s.counted && t < |j.tasks| ==> !j.tasks[t].broken
    ensures s.done && s.failed.None? ==> s.counted == |j.tasks|
  {
    hide Flatten, SumEst, Busy, OutUpTo;
    ReachableIsSound(j, s);
  }

  lemma {:induction false} SomeoneBusy(hs: seq<Handle>) returns (t: nat)
    requires Busy(hs) > 0
    ensures t < |hs| && !hs[t].worker.Gone?
    decreases |hs|
  {
    if hs[|hs| - 1].worker.Gone? { t := SomeoneBusy(hs[..|hs| - 1]); } else { t := |hs| - 1; }
  }

  lemma {:induction false} BusyIfNotGone(hs: seq<Handle>, t: nat)
    requires t < |hs| && !hs[t].worker.Gone?
    ensures Busy(hs) > 0
    decreases |hs|
  {
    if t < |hs| - 1 { BusyIfNotGone(hs[..|hs| - 1], t); }
  }

  /** No reachable state is stuck: until the consumer has returned, some step is enabled. */
  method NeverStuck<P(!new)>(j: Job<P>, s: State<P>) returns (a: Step)
    requires Wellformed(j) && Reachable(j, s) && !s.done
    ensures Enabled(j, s, a)
  {
    hide OutUpTo, Flatten, Emits;
    ReachableIsSound(j, s);
    var i := |s.handles|;
    if s.cur.Some? {
      var h := s.handles[s.cur.value];
      a := if h.taken < h.sent then Take
           else if !h.worker.Running? then Retire
           else if h.sent < |j.tasks[s.cur.value].batches| then Emit(s.cur.value) else Finish(s.cur.value, !j.tasks[s.cur.value].broken);
    } else if s.ordered != [] {
      a := Next;
    } else if s.sched.Acquiring? {
      a := if i < |j.tasks| then Acquire else Close;
    } else if s.sched.Pushing? {
      a := Push;
    } else if s.sched.Slotting? && s.slots < j.workers {
      a := TakeSlot;
    } else if t: nat :| t < i && !s.handles[t].worker.Gone? {
      BusyIfNotGone(s.handles, t);
      a := FreeSlot(t);
    } else {
      if s.sched.Slotting? { ghost var t := SomeoneBusy(s.handles); }
      a := End;
    }
  }

  // ---- every run ends ----

  function Rank(h: Handle, n: nat): nat {
    var pending := if h.sent >= h.taken then h.sent - h.taken else 0;
    match h.worker
    case Running => pending + 3 + (if h.sent <= n then 2 * (n - h.sent) else 0)
    case Closing => pending + 2
    case Gone => pending + 1
  }

  function RankSum<P>(j: Job<P>, hs: seq<Handle>): nat
    requires |hs| <= |j.tasks|
  {
    if hs == [] then 0 else RankSum(j, hs[..|hs| - 1]) + Rank(hs[|hs| - 1], |j.tasks[|hs| - 1].batches|)
  }

  lemma {:induction false} RankSet<P>(j: Job<P>, hs: seq<Handle>, t: nat, h: Handle)
    requires t < |hs| <= |j.tasks|
    ensures RankSum(j, hs[t := h]) == RankSum(j, hs) - Rank(hs[t], |j.tasks[t].batches|) + Rank(h, |j.tasks[t].batches|)
    decreases |hs|
  {
    hide Rank;
    var gs := hs[t := h];
    var n := |hs| - 1;
    if t == n { assert gs[..n] == hs[..n]; } else {
      assert gs[..n] == hs[..n][t := h];
      RankSet(j, hs[..n], t, h);
    }
  }

  /** The work of the tasks not yet admitted. */
  function Ahead<P>(j: Job<P>, i: nat): nat
    requires i <= |j.tasks|
    decreases |j.tasks| - i
  {
    if i == |j.tasks| then 0 else 2 * |j.tasks[i].batches| + 8 + Ahead(j, i + 1)
  }

  /** What is left to do. */
  ghost function Left<P>(j: Job<P>, s: State<P>): int
    requires |s.handles| <= |j.tasks|
  {
    RankSum(j, s.handles) + 2 * |s.ordered| + (if s.cur.Some? then 1 else 0) + (if s.done then 0 else 1)
    + (match s.sched
       case Acquiring => Ahead(j, |s.handles|) + 1
       case Slotting => Ahead(j, |s.handles|)
       case Pushing => Ahead(j, |s.handles|) - 1
       case Exited => 0)
  }

  lemma HandleStepLowersLeft<P>(j: Job<P>, s: State<P>, a: Step)
    requires InOrder(j, s) && Handled(j, s) && Enabled(j, s, a)
    requires a.Emit? || a.Finish? || a.FreeSlot? || a.Take?
    ensures Left(j, Apply(j, s, a)) < Left(j, s)
  {
    hide Ahead, OutUpTo, RankSum;
    var t := if a.Take? then s.cur.value else a.t;
    var h, g, n := s.handles[t], Apply(j, s, a).handles[t], |j.tasks[t].batches|;
    RankSet(j, s.handles, t, g);
    assert HandleOk(j.tasks[t], h);
    assert Rank(g, n) < Rank(h, n);
  }

  lemma StepLowersLeft<P>(j: Job<P>, s: State<P>, a: Step)
    requires Wellformed(j) && Sound(j, s) && Enabled(j, s, a)
    ensures InOrder(j, Apply(j, s, a)) && 0 <= Left(j, Apply(j, s, a)) < Left(j, s)
  {
    hide OutUpTo, SumEst, Busy, Emits, Budgeted, Handled, Rank;
    StepKeepsOrder(j, s, a);
    if a.Emit? || a.Finish? || a.FreeSlot? || a.Take? {
      HandleStepLowersLeft(j, s, a);
    } else if a.Push? {
      assert Apply(j, s, a).handles[..|s.handles|] == s.handles;
      NewRank(|j.tasks[|s.handles|].batches|);
    }
  }

  lemma NewRank(n: nat)
    ensures Rank(Handle(0, 0, Running, false), n) == 2 * n + 3
  {}

  /** No run takes more than `Left` steps; with `NeverStuck`, every run ends with the consumer's return. */
  lemma {:induction false} RunsEnd<P>(j: Job<P>, s: State<P>, steps: seq<Step>)
    requires Wellformed(j) && Sound(j, s) && Runs(j, s, steps)
    ensures |steps| <= Left(j, s)
    decreases |steps|
  {
    hide Left, Sound, Enabled, Apply;
    if steps != [] {
      StepLowersLeft(j, s, steps[0]);
      StepKeepsSound(j, s, steps[0]);
      RunsEnd(j, Apply(j, s, steps[0]), steps[1..]);
    } else {
      assert Left(j, s) >= 0 by { LeftIsNat(j, s); }
    }
  }

  lemma LeftIsNat<P>(j: Job<P>, s: State<P>)
    requires Sound(j, s)
    ensures |s.handles| <= |j.tasks| && Left(j, s) >= 0
  {}

  // ---- playing a schedule ----

  lemma {:induction false} RunsOneMore<P>(j: Job<P>, s: State<P>, steps: seq<Step>, a: Step)
    requires Runs(j, s, steps) && Enabled(j, Exec(j, s, steps), a)
    ensures Runs(j, s, steps + [a]) && Exec(j, s, steps + [a]) == Apply(j, Exec(j, s, steps), a)
    decreases |steps|
  {
    hide Enabled, Apply;
    if steps == [] {
      assert steps + [a] == [a];
      assert Runs(j, Apply(j, s, a), [a][1..]);
    } else {
      RunsOneMore(j, Apply(j, s, steps[0]), steps[1..], a);
      assert (steps + [a])[1..] == steps[1..] + [a];
    }
  }

  lemma Extend<P(!new)>(j: Job<P>, s: State<P>, a: Step)
    requires Reachable(j, s) && Enabled(j, s, a)
    ensures Reachable(j, Apply(j, s, a))
  {
    hide Enabled, Apply;
    var steps :| Runs(j, Init<P>(), steps) && Exec(j, Init<P>(), steps) == s;
    RunsOneMore(j, Init<P>(), steps, a);
  }

  lemma InitIsReachable<P(!new)>(j: Job<P>)
    ensures Reachable(j, Init<P>())
  {
    assert Runs(j, Init<P>(), []) && Exec(j, Init<P>(), []) == Init<P>();
  }

  /** Interleaves the goroutines as the schedule says, as far as its steps are enabled, and then goes on in
      some order until the consumer returns. */
  method Play<P(!new)>(j: Job<P>, schedule: seq<Step>) returns (s: State<P>)
    requires Wellformed(j)
    ensures Reachable(j, s) && s.done
  {
    hide Reachable, Enabled, Apply, Left, Sound;
    s := Init();
    InitIsReachable(j);
    for i := 0 to |schedule|
      invariant Reachable(j, s)
    {
      if Enabled(j, s, schedule[i]) {
        Extend(j, s, schedule[i]);
        s := Apply(j, s, schedule[i]);
      }
    }
    ReachableIsSound(j, s);
    LeftIsNat(j, s);
    while !s.done
      invariant Reachable(j, s) && Sound(j, s) && |s.handles| <= |j.tasks| && Left(j, s) >= 0
      decreases Left(j, s)
    {
      var a := NeverStuck(j, s);
      StepLowersLeft(j, s, a);
      Extend(j, s, a);
      s := Apply(j, s, a);
      ReachableIsSound(j, s);
      LeftIsNat(j, s);
    }
  }
}
