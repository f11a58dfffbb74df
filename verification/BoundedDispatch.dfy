/** `run_bounded_iterator`: the items of an iterator are dispatched to concurrent handlers under a
    semaphore. Code between two awaits is one step; steps of the loop, of the tasks and of the
    environment interleave in any order. */
module BoundedDispatch {

  datatype Option<+T> = None | Some(value: T)

  datatype Error = TimeoutError | CancelledError | Raised(name: string)

  /** How a handler's task ends. A cancelled task is no error to its done-callback. */
  datatype Outcome = Completed | Failed(error: Error) | Cancelled

  /** `Released` is the time between the semaphore release and the done-callback. */
  datatype TaskState = Created | Running | Released(outcome: Outcome) | Recorded(outcome: Outcome)

  datatype Task = Task(item: string, state: TaskState)

  datatype Exit = Normal | Throws(error: Error)

  /** Where the loop stands. `Joining` is the gather of the finally block, `Unwinding` the one that
      follows a cancellation of the loop, and `Abandoning` a cancelled `Joining`. */
  datatype Control =
    | Checking | Acquiring | AwaitingItem | Yielding
    | Unwinding | Joining(exit: Exit) | Abandoning | Left(exit: Exit)

  /** `served`, `recorded`, `lost`, `cancelled` and `exhausted` only keep the history: the items the
      iterator returned, the errors recorded, the tasks cancelled before they ran, and so on. */
  datatype State = State(
    concurrency: nat, permits: nat, inFlight: set<nat>, firstError: Option<Error>, stop: bool,
    control: Control, tasks: seq<Task>,
    served: seq<string>, recorded: seq<Error>, lost: nat, cancelled: bool, exhausted: bool)

  datatype Step =
    | Check | Acquire | NextItem(item: string) | NextStop | NextTimeout | NextRaise(error: Error) | Resume
    | TaskStart(i: nat) | HandlerEnd(i: nat, outcome: Outcome) | TaskDropped(i: nat) | Callback(i: nat)
    | SetStop | Cancel | Unwound | Leave

  function Init(concurrency: nat): State {
    State(concurrency, concurrency, {}, None, false, Checking, [], [], [], 0, false, false)
  }

  predicate InState(s: State, i: nat, state: TaskState) {
    i < |s.tasks| && s.tasks[i].state == state
  }

  /** The caller is cancelled at most once. Joins end when every done-callback has run. A task that
      is cancelled before it first runs never enters the block that releases its permit. */
  predicate Enabled(s: State, step: Step) {
    match step
    case Check => s.control.Checking?
    case Acquire => s.control.Acquiring? && s.permits > 0
    case NextItem(_) => s.control.AwaitingItem?
    case NextStop => s.control.AwaitingItem?
    case NextTimeout => s.control.AwaitingItem?
    case NextRaise(e) => s.control.AwaitingItem? && e != CancelledError && e != TimeoutError
    case Resume => s.control.Yielding?
    case TaskStart(i) => InState(s, i, Created)
    case HandlerEnd(i, _) => InState(s, i, Running)
    case TaskDropped(i) => InState(s, i, Created) && s.cancelled
    case Callback(i) => i < |s.tasks| && s.tasks[i].state.Released?
    case SetStop => true
    case Cancel =>
      && !s.cancelled
      && (s.control.Acquiring? || s.control.AwaitingItem? || s.control.Yielding?
          || (s.control.Joining? && s.inFlight != {}))
    case Unwound => s.control.Unwinding? && s.inFlight == {}
    case Leave => (s.control.Joining? || s.control.Abandoning?) && s.inFlight == {}
  }

  function WithTask(s: State, i: nat, state: TaskState): State
    requires i < |s.tasks|
  {
    s.(tasks := s.tasks[i := s.tasks[i].(state := state)])
  }

  function After(s: State, step: Step): State
    requires Enabled(s, step)
  {
    match step
    case Check => s.(control := if s.stop then Joining(Normal) else Acquiring)
    case Acquire =>
      if s.firstError.Some? then s.(control := Joining(Throws(s.firstError.value)))
      else if s.stop then s.(control := Joining(Normal))
      else s.(permits := s.permits - 1, control := AwaitingItem)
    case NextItem(item) =>
      s.(tasks := s.tasks + [Task(item, Created)], inFlight := s.inFlight + {|s.tasks|},
         served := s.served + [item], control := Checking)
    case NextStop => s.(permits := s.permits + 1, control := Joining(Normal), exhausted := true)
    case NextTimeout =>
      s.(permits := s.permits + 1, control := if s.inFlight != {} then Yielding else Joining(Throws(TimeoutError)))
    case NextRaise(e) => s.(permits := s.permits + 1, control := Joining(Throws(e)))
    case Resume => s.(control := Checking)
    case TaskStart(i) => WithTask(s, i, Running)
    case HandlerEnd(i, outcome) => WithTask(s, i, Released(outcome)).(permits := s.permits + 1)
    case TaskDropped(i) => WithTask(s, i, Released(Cancelled)).(lost := s.lost + 1)
    case Callback(i) =>
      var outcome := s.tasks[i].state.outcome;
      var s := WithTask(s, i, Recorded(outcome)).(inFlight := s.inFlight - {i});
      if outcome.Failed? then
        s.(recorded := s.recorded + [outcome.error],
           firstError := if s.firstError.Some? then s.firstError else Some(outcome.error))
      else s
    case SetStop => s.(stop := true)
    case Cancel =>
      s.(permits := if s.control.AwaitingItem? then s.permits + 1 else s.permits, cancelled := true,
         control := if s.control.Joining? then Abandoning else Unwinding)
    case Unwound => s.(control := Joining(Throws(CancelledError)))
    case Leave =>
      s.(control := Left(
        if s.control.Abandoning? then Throws(CancelledError)
        else if s.firstError.Some? then Throws(s.firstError.value)
        else s.control.exit))
  }

  /** The state a list of steps leads to, if each is enabled when its turn comes. */
  function Exec(s: State, steps: seq<Step>): Option<State>
    decreases steps
  {
    if steps == [] then Some(s)
    else if Enabled(s, steps[0]) then Exec(After(s, steps[0]), steps[1..])
    else None
  }

  // ---- The invariant

  predicate HoldsPermit(state: TaskState) {
    state.Created? || state.Running?
  }

  /** Created tasks that have not released their permit. */
  function Unreleased(tasks: seq<Task>): nat {
    if tasks == [] then 0 else
    Unreleased(tasks[..|tasks| - 1]) + if HoldsPermit(tasks[|tasks| - 1].state) then 1 else 0
  }

  function HeldByLoop(control: Control): nat {
    if control.AwaitingItem? then 1 else 0
  }

  ghost predicate Permits(s: State) {
    && s.permits + HeldByLoop(s.control) + Unreleased(s.tasks) + s.lost == s.concurrency
    && (!s.cancelled ==> s.lost == 0)
  }

  ghost predicate Tracked(s: State) {
    && (forall i :: i in s.inFlight <==> 0 <= i < |s.tasks| && !s.tasks[i].state.Recorded?)
    && |s.served| == |s.tasks|
    && (forall i | 0 <= i < |s.tasks| :: s.served[i] == s.tasks[i].item)
  }

  ghost predicate Errors(s: State) {
    && s.firstError == (if s.recorded == [] then None else Some(s.recorded[0]))
    && (forall e | e in s.recorded :: exists i: nat :: InState(s, i, Recorded(Failed(e))))
    && (forall i | 0 <= i < |s.tasks| ::
          s.tasks[i].state.Recorded? && s.tasks[i].state.outcome.Failed? ==> s.tasks[i].state.outcome.error in s.recorded)
  }

  /** Why and how the loop has left, or is about to. */
  ghost predicate Exits(s: State) {
    && (s.control.Unwinding? || s.control.Abandoning? ==> s.cancelled)
    && (s.control.Joining? && s.control.exit.Normal? ==> s.stop || s.exhausted)
    && (s.control.Left? ==>
          && s.inFlight == {}
          && (s.control.exit.Normal? ==> s.recorded == [] && (s.stop || s.exhausted))
          && (!s.cancelled && s.recorded != [] ==> s.control.exit == Throws(s.recorded[0])))
  }

  ghost predicate Inv(s: State) {
    Permits(s) && Tracked(s) && Errors(s) && Exits(s)
  }

  lemma {:induction false} UnreleasedUpdate(tasks: seq<Task>, i: nat, t: Task)
    requires i < |tasks|
    ensures Unreleased(tasks[i := t]) + (if HoldsPermit(tasks[i].state) then 1 else 0)
         == Unreleased(tasks) + (if HoldsPermit(t.state) then 1 else 0)
  {
    var n := |tasks| - 1;
    if i == n {
      assert tasks[i := t][..n] == tasks[..n];
    } else {
      assert tasks[i := t][..n] == tasks[..n][i := t];
      UnreleasedUpdate(tasks[..n], i, t);
    }
  }

  lemma {:induction false} UnreleasedGone(tasks: seq<Task>)
    ensures (forall i | 0 <= i < |tasks| :: !HoldsPermit(tasks[i].state)) ==> Unreleased(tasks) == 0
  {
    if tasks != [] {
      UnreleasedGone(tasks[..|tasks| - 1]);
    }
  }

  lemma InitInv(concurrency: nat)
    ensures Inv(Init(concurrency))
  {
  }

  lemma UnreleasedAppend(tasks: seq<Task>, t: Task)
    ensures Unreleased(tasks + [t]) == Unreleased(tasks) + if HoldsPermit(t.state) then 1 else 0
  {
    assert (tasks + [t])[..|tasks|] == tasks;
  }

  predicate MovesTask(step: Step) {
    step.TaskStart? || step.HandlerEnd? || step.TaskDropped? || step.Callback?
  }

  lemma TaskKeepsPermits(s: State, step: Step)
    requires Permits(s) && MovesTask(step) && Enabled(s, step)
    ensures Permits(After(s, step))
  {
    var t := After(s, step).tasks[step.i];
    UnreleasedUpdate(s.tasks, step.i, t);
    assert After(s, step).tasks == s.tasks[step.i := t];
  }

  lemma PermitsKept(s: State, step: Step)
    requires Permits(s) && Enabled(s, step)
    ensures Permits(After(s, step))
  {
    if MovesTask(step) {
      TaskKeepsPermits(s, step);
    } else if step.NextItem? {
      UnreleasedAppend(s.tasks, Task(step.item, Created));
    } else {
      assert After(s, step).tasks == s.tasks;
    }
  }

  lemma ItemKeepsTracked(s: State, item: string)
    requires Tracked(s) && Enabled(s, NextItem(item))
    ensures Tracked(After(s, NextItem(item)))
  {
    assert forall i | 0 <= i < |s.tasks| :: After(s, NextItem(item)).tasks[i] == s.tasks[i];
  }

  lemma TaskKeepsTracked(s: State, i: nat, state: TaskState)
    requires Tracked(s) && i < |s.tasks| && !s.tasks[i].state.Recorded? && !state.Recorded?
    ensures Tracked(WithTask(s, i, state))
  {
    var s' := WithTask(s, i, state);
    assert forall k | 0 <= k < |s.tasks| && k != i :: s'.tasks[k] == s.tasks[k];
  }

  lemma CallbackKeepsTracked(s: State, i: nat)
    requires Tracked(s) && Enabled(s, Callback(i))
    ensures Tracked(After(s, Callback(i)))
  {
    assert forall k | 0 <= k < |s.tasks| && k != i :: After(s, Callback(i)).tasks[k] == s.tasks[k];
  }

  lemma TrackedKept(s: State, step: Step)
    requires Tracked(s) && Enabled(s, step)
    ensures Tracked(After(s, step))
  {
    match step
    case NextItem(item) => ItemKeepsTracked(s, item);
    case TaskStart(i) => TaskKeepsTracked(s, i, Running);
    case HandlerEnd(i, outcome) => TaskKeepsTracked(s, i, Released(outcome));
    case TaskDropped(i) => TaskKeepsTracked(s, i, Released(Cancelled));
    case Callback(i) => CallbackKeepsTracked(s, i);
    case _ =>
  }

  lemma ErrorsKept(s: State, step: Step)
    requires Errors(s) && Enabled(s, step)
    ensures Errors(After(s, step))
  {
    if step.Callback? {
      CallbackKeepsErrors(s, step.i);
    } else {
      var s' := After(s, step);
      assert s'.recorded == s.recorded && s'.firstError == s.firstError;
      assert forall i: nat | i < |s.tasks| && s.tasks[i].state.Recorded? :: s'.tasks[i] == s.tasks[i];
      assert forall i: nat | i < |s'.tasks| && s'.tasks[i].state.Recorded? :: i < |s.tasks| && s'.tasks[i] == s.tasks[i];
      forall e | e in s.recorded
        ensures exists i: nat :: InState(s', i, Recorded(Failed(e)))
      {
        var i: nat :| InState(s, i, Recorded(Failed(e)));
        assert InState(s', i, Recorded(Failed(e)));
      }
    }
  }

  lemma CallbackRecords(s: State, i: nat, e: Error)
    requires Errors(s) && Enabled(s, Callback(i)) && e in After(s, Callback(i)).recorded
    ensures exists k: nat :: InState(After(s, Callback(i)), k, Recorded(Failed(e)))
  {
    if e in s.recorded {
      var k: nat :| InState(s, k, Recorded(Failed(e)));
      assert InState(After(s, Callback(i)), k, Recorded(Failed(e)));
    } else {
      assert InState(After(s, Callback(i)), i, Recorded(Failed(e)));
    }
  }

  lemma CallbackKeepsErrors(s: State, i: nat)
    requires Errors(s) && Enabled(s, Callback(i))
    ensures Errors(After(s, Callback(i)))
  {
    var s' := After(s, Callback(i));
    forall e | e in s'.recorded
      ensures exists k: nat :: InState(s', k, Recorded(Failed(e)))
    {
      CallbackRecords(s, i, e);
    }
    assert forall e | e in s.recorded :: e in s'.recorded;
    assert forall k: nat | k < |s.tasks| && k != i :: s'.tasks[k] == s.tasks[k];
  }

  lemma ExitsKept(s: State, step: Step)
    requires Tracked(s) && Errors(s) && Exits(s) && Enabled(s, step)
    ensures Exits(After(s, step))
  {
    if s.control.Left? {
      assert forall i :: i !in s.inFlight;
    }
  }

  lemma StepKeepsInv(s: State, step: Step)
    requires Inv(s) && Enabled(s, step)
    ensures Inv(After(s, step))
  {
    PermitsKept(s, step);
    TrackedKept(s, step);
    ErrorsKept(s, step);
    ExitsKept(s, step);
  }

  lemma {:induction false} RunKeepsInv(s: State, steps: seq<Step>)
    requires Inv(s) && Exec(s, steps).Some?
    ensures Inv(Exec(s, steps).value) && Exec(s, steps).value.concurrency == s.concurrency
    decreases steps
  {
    if steps != [] {
      StepKeepsInv(s, steps[0]);
      RunKeepsInv(After(s, steps[0]), steps[1..]);
    }
  }

  // ---- What every run keeps

  /** Permits are conserved: those free, the one held while an item is fetched, those of tasks that
      have not released theirs, and those lost to tasks cancelled before they ran. So no more than
      `concurrency` handlers are ever at work. */
  lemma PermitConservation(concurrency: nat, steps: seq<Step>)
    requires Exec(Init(concurrency), steps).Some?
    ensures var s := Exec(Init(concurrency), steps).value;
            && s.permits + HeldByLoop(s.control) + Unreleased(s.tasks) + s.lost == concurrency
            && Unreleased(s.tasks) <= concurrency
            && (!s.cancelled ==> s.permits + HeldByLoop(s.control) + Unreleased(s.tasks) == concurrency)
            && (!s.cancelled && s.control.Left? ==> s.permits == concurrency)
  {
    InitInv(concurrency);
    RunKeepsInv(Init(concurrency), steps);
    var s := Exec(Init(concurrency), steps).value;
    if s.control.Left? {
      AllRecorded(s);
      UnreleasedGone(s.tasks);
    }
  }

  lemma AllRecorded(s: State)
    requires Inv(s) && s.control.Left?
    ensures forall i | 0 <= i < |s.tasks| :: s.tasks[i].state.Recorded?
  {
    forall i | 0 <= i < |s.tasks|
      ensures s.tasks[i].state.Recorded?
    {
      assert i !in s.inFlight;
    }
  }

  /** The tasks created are exactly the items the iterator returned, in order and once each; and the
      tasks in flight are exactly those whose done-callback has not run. */
  lemma DispatchFollowsIterator(concurrency: nat, steps: seq<Step>)
    requires Exec(Init(concurrency), steps).Some?
    ensures var s := Exec(Init(concurrency), steps).value;
            && |s.tasks| == |s.served|
            && (forall i | 0 <= i < |s.tasks| :: s.tasks[i].item == s.served[i])
            && (forall i :: i in s.inFlight <==> 0 <= i < |s.tasks| && !s.tasks[i].state.Recorded?)
  {
    InitInv(concurrency);
    RunKeepsInv(Init(concurrency), steps);
  }

  /** The loop leaves only when every handler has finished, and what leaves is decided: unless the
      caller was cancelled, it is the first recorded error whenever a handler failed, over any other
      exception; and no error at all only if none failed and the loop was stopped or ran dry. */
  lemma LeavesWithFirstError(concurrency: nat, steps: seq<Step>)
    requires Exec(Init(concurrency), steps).Some? && Exec(Init(concurrency), steps).value.control.Left?
    ensures var s := Exec(Init(concurrency), steps).value;
            && (forall i | 0 <= i < |s.tasks| :: s.tasks[i].state.Recorded?)
            && (s.recorded == [] <==>
                  forall i | 0 <= i < |s.tasks| :: !s.tasks[i].state.outcome.Failed?)
            && (!s.cancelled && s.recorded != [] ==> s.control.exit == Throws(s.recorded[0]))
            && (s.control.exit.Normal? ==> s.recorded == [] && (s.stop || s.exhausted))
  {
    InitInv(concurrency);
    RunKeepsInv(Init(concurrency), steps);
    var s := Exec(Init(concurrency), steps).value;
    AllRecorded(s);
    if s.recorded != [] {
      var i: nat :| InState(s, i, Recorded(Failed(s.recorded[0])));
      assert s.tasks[i].state.outcome.Failed?;
    }
  }

  /** Once it has left, nothing but the stop event can still happen. */
  lemma LeftIsFinal(concurrency: nat, steps: seq<Step>, step: Step)
    requires Exec(Init(concurrency), steps).Some? && Exec(Init(concurrency), steps).value.control.Left?
    requires Enabled(Exec(Init(concurrency), steps).value, step)
    ensures step == SetStop
  {
    InitInv(concurrency);
    RunKeepsInv(Init(concurrency), steps);
    AllRecorded(Exec(Init(concurrency), steps).value);
  }

  /** After stop is set or an error is recorded, at most one more item is dispatched, and none when
      the loop was not already waiting for one. */
  lemma AtMostOneMore(concurrency: nat, steps: seq<Step>, more: seq<Step>)
    requires Exec(Init(concurrency), steps).Some?
    requires var s := Exec(Init(concurrency), steps).value;
             (s.stop || s.recorded != []) && Exec(s, more).Some?
    ensures var s := Exec(Init(concurrency), steps).value;
            |s.served| <= |Exec(s, more).value.served| <= |s.served| + HeldByLoop(s.control)
  {
    InitInv(concurrency);
    RunKeepsInv(Init(concurrency), steps);
    AtMostOneMoreFrom(Exec(Init(concurrency), steps).value, more);
  }

  /** With stop set or an error recorded, the loop never starts to wait for another item. */
  lemma NoNewFetch(s: State, step: Step)
    requires Errors(s) && (s.stop || s.recorded != []) && Enabled(s, step)
    ensures var s' := After(s, step);
            && (s'.stop || s'.recorded != [])
            && |s.served| <= |s'.served| && |s'.served| + HeldByLoop(s'.control) <= |s.served| + HeldByLoop(s.control)
  {
  }

  lemma {:induction false} AtMostOneMoreFrom(s: State, steps: seq<Step>)
    requires Inv(s) && (s.stop || s.recorded != []) && Exec(s, steps).Some?
    ensures |s.served| <= |Exec(s, steps).value.served| <= |s.served| + HeldByLoop(s.control)
    decreases steps
  {
    if steps != [] {
      StepKeepsInv(s, steps[0]);
      NoNewFetch(s, steps[0]);
      AtMostOneMoreFrom(After(s, steps[0]), steps[1..]);
    }
  }

  // ---- The tasks in flight

  /** Tasks that have released their permit and await their done-callback. */
  function Awaiting(tasks: seq<Task>): nat {
    if tasks == [] then 0 else
    Awaiting(tasks[..|tasks| - 1]) + if tasks[|tasks| - 1].state.Released? then 1 else 0
  }

  lemma {:induction false} InFlightCount(tasks: seq<Task>, inFlight: set<nat>)
    requires forall i :: i in inFlight <==> 0 <= i < |tasks| && !tasks[i].state.Recorded?
    ensures |inFlight| == Unreleased(tasks) + Awaiting(tasks)
    decreases |tasks|
  {
    if tasks == [] {
      assert inFlight == {};
    } else {
      var n := |tasks| - 1;
      InFlightCount(tasks[..n], inFlight - {n});
      assert n in inFlight <==> !tasks[n].state.Recorded?;
    }
  }

  /** The tasks in flight are those with a permit and those that await their done-callback; so they are
      within the bound exactly while no more of the latter wait than permits are free, held by the loop
      or lost. */
  lemma InFlightBoundExactly(concurrency: nat, steps: seq<Step>)
    requires Exec(Init(concurrency), steps).Some?
    ensures var s := Exec(Init(concurrency), steps).value;
            && |s.inFlight| == Unreleased(s.tasks) + Awaiting(s.tasks)
            && (|s.inFlight| <= concurrency <==> Awaiting(s.tasks) <= s.permits + HeldByLoop(s.control) + s.lost)
  {
    InitInv(concurrency);
    RunKeepsInv(Init(concurrency), steps);
    var s := Exec(Init(concurrency), steps).value;
    InFlightCount(s.tasks, s.inFlight);
  }

  lemma ExecStep(s: State, step: Step, steps: seq<Step>)
    requires Enabled(s, step)
    ensures Exec(s, [step] + steps) == Exec(After(s, step), steps)
  {
    assert ([step] + steps)[1..] == steps;
  }

  lemma FirstDispatched(a: string)
    ensures Exec(Init(1), [Check] + ([Acquire] + [NextItem(a)]))
            == Some(State(1, 0, {0}, None, false, Checking, [Task(a, Created)], [a], [], 0, false, false))
  {
    var s := After(After(Init(1), Check), Acquire);
    var t := After(s, NextItem(a));
    assert t.inFlight == {0} && t.tasks == [Task(a, Created)] && t.served == [a];
    ExecStep(s, NextItem(a), []);
    ExecStep(After(Init(1), Check), Acquire, [NextItem(a)]);
    ExecStep(Init(1), Check, [Acquire] + [NextItem(a)]);
  }

  lemma FirstReleased(a: string)
    ensures Exec(State(1, 0, {0}, None, false, Checking, [Task(a, Created)], [a], [], 0, false, false),
                 [TaskStart(0)] + [HandlerEnd(0, Completed)])
            == Some(State(1, 1, {0}, None, false, Checking, [Task(a, Released(Completed))], [a], [], 0, false, false))
  {
    var s := State(1, 0, {0}, None, false, Checking, [Task(a, Created)], [a], [], 0, false, false);
    var t := After(After(s, TaskStart(0)), HandlerEnd(0, Completed));
    assert t.tasks == [Task(a, Released(Completed))];
    ExecStep(After(s, TaskStart(0)), HandlerEnd(0, Completed), []);
    ExecStep(s, TaskStart(0), [HandlerEnd(0, Completed)]);
  }

  /** With a bound of one, two tasks can be in flight: between a release and the done-callback the next
      item may already have been dispatched. */
  lemma InFlightMayExceed(a: string, b: string)
    ensures var first, second := [Check] + ([Acquire] + [NextItem(a)]), [TaskStart(0)] + [HandlerEnd(0, Completed)];
            var third := [Check] + ([Acquire] + [NextItem(b)]);
            && Exec(Init(1), first).Some? && Exec(Exec(Init(1), first).value, second).Some?
            && Exec(Exec(Exec(Init(1), first).value, second).value, third).Some?
            && |Exec(Exec(Exec(Init(1), first).value, second).value, third).value.inFlight| == 2
  {
    FirstDispatched(a);
    FirstReleased(a);
    var s := State(1, 1, {0}, None, false, Checking, [Task(a, Released(Completed))], [a], [], 0, false, false);
    var s1 := After(After(s, Check), Acquire);
    ExecStep(s1, NextItem(b), []);
    ExecStep(After(s, Check), Acquire, [NextItem(b)]);
    ExecStep(s, Check, [Acquire] + [NextItem(b)]);
    assert After(s1, NextItem(b)).inFlight == {0, 1};
  }

  // ---- Something can always happen

  /** A cancelled loop fetches no more. */
  ghost predicate Quits(s: State) {
    s.cancelled ==> s.control.Unwinding? || s.control.Joining? || s.control.Abandoning? || s.control.Left?
  }

  lemma {:induction false} RunKeepsQuits(s: State, steps: seq<Step>)
    requires Quits(s) && Exec(s, steps).Some?
    ensures Quits(Exec(s, steps).value)
    decreases steps
  {
    if steps != [] {
      RunKeepsQuits(After(s, steps[0]), steps[1..]);
    }
  }

  lemma {:induction false} SomeHoldPermits(tasks: seq<Task>)
    requires Unreleased(tasks) > 0
    ensures exists i: nat :: i < |tasks| && HoldsPermit(tasks[i].state)
    decreases |tasks|
  {
    var n := |tasks| - 1;
    if !HoldsPermit(tasks[n].state) {
      SomeHoldPermits(tasks[..n]);
      var i: nat :| i < n && HoldsPermit(tasks[..n][i].state);
      assert HoldsPermit(tasks[i].state);
    }
  }

  /** The step that an unrecorded task has before it. */
  function NextOf(s: State, i: nat): Step
    requires i < |s.tasks|
  {
    match s.tasks[i].state
    case Created => TaskStart(i)
    case Running => HandlerEnd(i, Completed)
    case _ => Callback(i)
  }

  predicate Moves(step: Step) {
    step != SetStop && step != Cancel
  }

  lemma TaskCanMove(s: State, i: nat)
    requires i < |s.tasks| && !s.tasks[i].state.Recorded?
    ensures Moves(NextOf(s, i)) && Enabled(s, NextOf(s, i))
  {
  }

  /** No deadlock: until the loop has left, the loop, a task or a callback can take a step. */
  lemma NeverStuck(concurrency: nat, steps: seq<Step>)
    requires concurrency >= 1 && Exec(Init(concurrency), steps).Some?
    requires !Exec(Init(concurrency), steps).value.control.Left?
    ensures exists step :: Moves(step) && Enabled(Exec(Init(concurrency), steps).value, step)
  {
    InitInv(concurrency);
    RunKeepsInv(Init(concurrency), steps);
    RunKeepsQuits(Init(concurrency), steps);
    StateCanMove(Exec(Init(concurrency), steps).value);
  }

  lemma EndCanMove(s: State)
    requires Tracked(s) && (s.control.Unwinding? || s.control.Joining? || s.control.Abandoning?)
    ensures exists step :: Moves(step) && Enabled(s, step)
  {
    NoneOrSome(s);
    if i: nat :| i < |s.tasks| && !s.tasks[i].state.Recorded? {
      TaskCanMove(s, i);
    } else {
      assert Enabled(s, if s.control.Unwinding? then Unwound else Leave);
    }
  }

  lemma AcquireCanMove(s: State)
    requires Permits(s) && s.control.Acquiring? && !s.cancelled && s.concurrency >= 1
    ensures exists step :: Moves(step) && Enabled(s, step)
  {
    if s.permits > 0 {
      assert Enabled(s, Acquire);
    } else {
      SomeHoldPermits(s.tasks);
      var i: nat :| i < |s.tasks| && HoldsPermit(s.tasks[i].state);
      TaskCanMove(s, i);
    }
  }

  lemma StateCanMove(s: State)
    requires Inv(s) && Quits(s) && s.concurrency >= 1 && !s.control.Left?
    ensures exists step :: Moves(step) && Enabled(s, step)
  {
    if s.control.Acquiring? {
      AcquireCanMove(s);
    } else if s.control.Checking? {
      assert Enabled(s, Check);
    } else if s.control.AwaitingItem? {
      assert Enabled(s, NextStop);
    } else if s.control.Yielding? {
      assert Enabled(s, Resume);
    } else {
      EndCanMove(s);
    }
  }

  lemma NoneOrSome(s: State)
    requires Tracked(s)
    ensures s.inFlight == {} || exists i: nat :: i < |s.tasks| && !s.tasks[i].state.Recorded?
  {
    if forall i: nat | i < |s.tasks| :: s.tasks[i].state.Recorded? {
      assert forall i :: i !in s.inFlight;
    }
  }

  // ---- The loop, its tasks and its callbacks

  class Dispatcher {
    const concurrency: nat
    var permits: nat
    var inFlight: set<nat>
    var firstError: Option<Error>
    var stop: bool
    var control: Control
    var tasks: seq<Task>
    ghost var served: seq<string>
    ghost var recorded: seq<Error>
    ghost var lost: nat
    ghost var cancelled: bool
    ghost var exhausted: bool

    constructor (concurrency: nat)
      requires concurrency >= 1
      ensures S() == Init(concurrency)
    {
      this.concurrency, permits, inFlight, firstError, stop := concurrency, concurrency, {}, None, false;
      control, tasks := Checking, [];
      served, recorded, lost, cancelled, exhausted := [], [], 0, false, false;
    }

    ghost function S(): State
      reads this
    {
      State(concurrency, permits, inFlight, firstError, stop, control, tasks,
            served, recorded, lost, cancelled, exhausted)
    }

    /** The head of the loop. */
    method CheckStop()
      requires Enabled(S(), Check)
      modifies this`control
      ensures S() == After(old(S()), Check)
    {
      if stop {
        control := Joining(Normal);
      } else {
        control := Acquiring;
      }
    }

    /** From the semaphore's answer to the next await. */
    method Acquired()
      requires Enabled(S(), Acquire)
      modifies this`permits, this`control
      ensures S() == After(old(S()), Acquire)
    {
      permits := permits - 1;
      if firstError.Some? {
        permits := permits + 1;
        control := Joining(Throws(firstError.value));
        return;
      }
      if stop {
        permits := permits + 1;
        control := Joining(Normal);
        return;
      }
      control := AwaitingItem;
    }

    method ItemArrives(item: string)
      requires Enabled(S(), NextItem(item))
      modifies this`tasks, this`inFlight, this`control, this`served
      ensures S() == After(old(S()), NextItem(item))
    {
      tasks := tasks + [Task(item, Created)];
      inFlight := inFlight + {|tasks| - 1};
      served := served + [item];
      control := Checking;
    }

    method IteratorEnds()
      requires Enabled(S(), NextStop)
      modifies this`permits, this`control, this`exhausted
      ensures S() == After(old(S()), NextStop)
    {
      permits := permits + 1;
      control := Joining(Normal);
      exhausted := true;
    }

    method IteratorTimesOut()
      requires Enabled(S(), NextTimeout)
      modifies this`permits, this`control
      ensures S() == After(old(S()), NextTimeout)
    {
      permits := permits + 1;
      if inFlight != {} {
        control := Yielding;
        return;
      }
      control := Joining(Throws(TimeoutError));
    }

    method IteratorRaises(error: Error)
      requires Enabled(S(), NextRaise(error))
      modifies this`permits, this`control
      ensures S() == After(old(S()), NextRaise(error))
    {
      permits := permits + 1;
      control := Joining(Throws(error));
    }

    method Resumed()
      requires Enabled(S(), Resume)
      modifies this`control
      ensures S() == After(old(S()), Resume)
    {
      control := Checking;
    }

    method TaskStarts(i: nat)
      requires Enabled(S(), TaskStart(i))
      modifies this`tasks
      ensures S() == After(old(S()), TaskStart(i))
    {
      tasks := tasks[i := tasks[i].(state := Running)];
    }

    /** The handler is over, however it ended: its permit is released. */
    method HandlerEnds(i: nat, outcome: Outcome)
      requires Enabled(S(), HandlerEnd(i, outcome))
      modifies this`tasks, this`permits
      ensures S() == After(old(S()), HandlerEnd(i, outcome))
    {
      tasks := tasks[i := tasks[i].(state := Released(outcome))];
      permits := permits + 1;
    }

    method TaskIsDropped(i: nat)
      requires Enabled(S(), TaskDropped(i))
      modifies this`tasks, this`lost
      ensures S() == After(old(S()), TaskDropped(i))
    {
      tasks := tasks[i := tasks[i].(state := Released(Cancelled))];
      lost := lost + 1;
    }

    /** The done-callback of a task. */
    method RecordCompletion(i: nat)
      requires Enabled(S(), Callback(i))
      modifies this`tasks, this`inFlight, this`firstError, this`recorded
      ensures S() == After(old(S()), Callback(i))
    {
      var outcome := tasks[i].state.outcome;
      tasks := tasks[i := tasks[i].(state := Recorded(outcome))];
      inFlight := inFlight - {i};
      if outcome.Failed? {
        recorded := recorded + [outcome.error];
        if firstError.None? {
          firstError := Some(outcome.error);
        }
      }
    }

    method StopIsSet()
      modifies this`stop
      ensures S() == After(old(S()), SetStop)
    {
      stop := true;
    }

    /** The caller is cancelled while the loop awaits. */
    method CancelLoop()
      requires Enabled(S(), Cancel)
      modifies this`permits, this`control, this`cancelled
      ensures S() == After(old(S()), Cancel)
    {
      cancelled := true;
      if control.Joining? {
        control := Abandoning;
        return;
      }
      if control.AwaitingItem? {
        permits := permits + 1;
      }
      control := Unwinding;
    }

    method UnwindingIsOver()
      requires Enabled(S(), Unwound)
      modifies this`control
      ensures S() == After(old(S()), Unwound)
    {
      control := Joining(Throws(CancelledError));
    }

    /** The end of the finally block. */
    method Leaves()
      requires Enabled(S(), Leave)
      modifies this`control
      ensures S() == After(old(S()), Leave)
    {
      if control.Abandoning? {
        control := Left(Throws(CancelledError));
      } else if firstError.Some? {
        control := Left(Throws(firstError.value));
      } else {
        control := Left(control.exit);
      }
    }

    method Perform(step: Step)
      requires Enabled(S(), step)
      modifies this
      ensures S() == After(old(S()), step)
    {
      match step {
        case Check => CheckStop();
        case Acquire => Acquired();
        case NextItem(item) => ItemArrives(item);
        case NextStop => IteratorEnds();
        case NextTimeout => IteratorTimesOut();
        case NextRaise(error) => IteratorRaises(error);
        case Resume => Resumed();
        case TaskStart(i) => TaskStarts(i);
        case HandlerEnd(i, outcome) => HandlerEnds(i, outcome);
        case TaskDropped(i) => TaskIsDropped(i);
        case Callback(i) => RecordCompletion(i);
        case SetStop => StopIsSet();
        case Cancel => CancelLoop();
        case Unwound => UnwindingIsOver();
        case Leave => Leaves();
      }
    }

    /** Any interleaving: the object goes through exactly the states of the run. */
    method Play(steps: seq<Step>)
      requires Exec(S(), steps).Some?
      modifies this
      ensures S() == Exec(old(S()), steps).value
    {
      for k := 0 to |steps|
        invariant Exec(S(), steps[k..]) == Exec(old(S()), steps)
      {
        assert steps[k..][0] == steps[k] && steps[k..][1..] == steps[k + 1..];
        Perform(steps[k]);
      }
    }
  }

  /** The start of a call; null is the source's `ValueError`. */
  method StartDispatch(concurrency: int) returns (dispatcher: Dispatcher?)
    ensures dispatcher == null <==> concurrency < 1
    ensures dispatcher != null ==> fresh(dispatcher) && dispatcher.S() == Init(concurrency)
  {
    if concurrency < 1 {
      return null;
    }
    dispatcher := new Dispatcher(concurrency);
  }
}
