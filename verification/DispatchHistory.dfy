/** What a dispatch does, told by the events of a run alone: the items that arrived, the handlers that
    ended, the callbacks that ran and the answers of the iterator. */
module DispatchHistory {
  import opened BoundedDispatch

  // ---- Reading a list of events

  /** The items the iterator has returned. */
  function ItemsIn(steps: seq<Step>): seq<string> {
    if steps == [] then []
    else
      var rest, step := ItemsIn(steps[..|steps| - 1]), steps[|steps| - 1];
      if step.NextItem? then rest + [step.item] else rest
  }

  /** How the handler of the i-th item has ended, if it has. */
  function OutcomeIn(steps: seq<Step>, i: nat): Option<Outcome> {
    if steps == [] then None
    else
      var step := steps[|steps| - 1];
      if step.HandlerEnd? && step.i == i then Some(step.outcome)
      else if step == TaskDropped(i) then Some(Cancelled)
      else OutcomeIn(steps[..|steps| - 1], i)
  }

  /** The errors of failed handlers, in the order their done-callbacks ran. */
  function FailuresIn(steps: seq<Step>): seq<Error> {
    if steps == [] then []
    else
      var front, step := steps[..|steps| - 1], steps[|steps| - 1];
      if step.Callback? && OutcomeIn(front, step.i).Some? && OutcomeIn(front, step.i).value.Failed?
      then FailuresIn(front) + [OutcomeIn(front, step.i).value.error]
      else FailuresIn(front)
  }

  /** The done-callback of every item has run. */
  predicate AllBack(steps: seq<Step>) {
    forall i: nat | i < |ItemsIn(steps)| :: Callback(i) in steps
  }

  /** The event ends the fetching: the iterator ran dry, raised, or timed out with nothing in flight,
      or the caller was cancelled. */
  predicate Ending(before: seq<Step>, step: Step) {
    step.NextStop? || step.NextRaise? || step.Cancel? || (step.NextTimeout? && AllBack(before))
  }

  predicate Ended(steps: seq<Step>) {
    steps != [] && (Ended(steps[..|steps| - 1]) || Ending(steps[..|steps| - 1], steps[|steps| - 1]))
  }

  /** What the events make the loop raise, handlers aside. */
  function Pending(steps: seq<Step>): Exit {
    if steps == [] then Normal
    else
      var front, step := steps[..|steps| - 1], steps[|steps| - 1];
      if step.NextRaise? then Throws(step.error)
      else if step.NextTimeout? && AllBack(front) then Throws(TimeoutError)
      else if step.Cancel? then Throws(CancelledError)
      else Pending(front)
  }

  /** The loop has not begun to join its tasks. */
  predicate Fetching(control: Control) {
    control.Checking? || control.Acquiring? || control.AwaitingItem? || control.Yielding?
  }

  /** The caller was cancelled when the loop was joining its tasks already. */
  ghost predicate CancelledLate(concurrency: nat, steps: seq<Step>) {
    steps != [] &&
    (var front := steps[..|steps| - 1];
     || CancelledLate(concurrency, front)
     || (steps[|steps| - 1].Cancel? && Exec(Init(concurrency), front).Some?
         && !Fetching(Exec(Init(concurrency), front).value.control)))
  }

  // ---- Appending an event

  lemma {:induction false} ExecSnoc(s: State, steps: seq<Step>)
    requires steps != [] && Exec(s, steps).Some?
    ensures var n := |steps| - 1;
            && Exec(s, steps[..n]).Some? && Enabled(Exec(s, steps[..n]).value, steps[n])
            && Exec(s, steps) == Some(After(Exec(s, steps[..n]).value, steps[n]))
    decreases |steps|
  {
    var n := |steps| - 1;
    if n == 0 {
      assert steps[1..] == [];
    } else {
      ExecSnoc(After(s, steps[0]), steps[1..]);
      assert steps[..n][1..] == steps[1..][..n - 1];
    }
  }

  // ---- The state told by the events

  ghost predicate TasksTold(s: State, steps: seq<Step>) {
    && s.served == ItemsIn(steps) && |s.tasks| == |s.served|
    && (forall i: nat | i < |s.tasks| :: s.tasks[i].item == s.served[i])
    && (forall i: nat | i < |s.tasks| :: s.tasks[i].state.Recorded? <==> Callback(i) in steps)
  }

  ghost predicate OutcomesTold(s: State, steps: seq<Step>) {
    && (forall i: nat | i < |s.tasks| :: OutcomeIn(steps, i) ==
          if s.tasks[i].state.Released? || s.tasks[i].state.Recorded? then Some(s.tasks[i].state.outcome) else None)
    && (forall i: nat | i >= |s.tasks| :: OutcomeIn(steps, i) == None && Callback(i) !in steps)
    && s.recorded == FailuresIn(steps)
  }

  ghost predicate FlagsTold(s: State, steps: seq<Step>) {
    && (s.stop <==> SetStop in steps)
    && (s.cancelled <==> Cancel in steps)
    && (s.exhausted <==> NextStop in steps)
  }

  ghost predicate EndTold(s: State, steps: seq<Step>, late: bool) {
    && (Ended(steps) ==> !Fetching(s.control))
    && (!Fetching(s.control) ==> Ended(steps) || s.stop || s.recorded != [])
    && (!Ended(steps) ==> Pending(steps) == Normal)
    && (Fetching(s.control) || s.control.Unwinding? || s.control.Joining? ==> !late)
    && (s.control.Unwinding? ==> Pending(steps) == Throws(CancelledError))
    && (s.control.Joining? && s.recorded == [] ==> s.control.exit == Pending(steps))
    && (s.control.Abandoning? ==> late)
    && (s.control.Left? ==> s.control.exit == Verdict(steps, late))
  }

  /** What leaves: a cancellation of the join over all, then the first failure of a handler, then what
      ended the fetching. */
  function Verdict(steps: seq<Step>, late: bool): Exit {
    if late then Throws(CancelledError)
    else if FailuresIn(steps) != [] then Throws(FailuresIn(steps)[0])
    else Pending(steps)
  }

  lemma InSnoc(steps: seq<Step>, step: Step, any: Step)
    ensures (steps + [step])[..|steps|] == steps
    ensures any in steps + [step] <==> any in steps || any == step
  {
  }

  lemma TasksNext(s: State, steps: seq<Step>, step: Step)
    requires TasksTold(s, steps) && OutcomesTold(s, steps) && Enabled(s, step)
    ensures TasksTold(After(s, step), steps + [step])
  {
    var s' := After(s, step);
    InSnoc(steps, step, step);
    forall i: nat | i < |s'.tasks|
      ensures s'.tasks[i].item == s'.served[i]
      ensures s'.tasks[i].state.Recorded? <==> Callback(i) in steps + [step]
    {
      InSnoc(steps, step, Callback(i));
    }
  }

  lemma OutcomesNext(s: State, steps: seq<Step>, step: Step)
    requires TasksTold(s, steps) && OutcomesTold(s, steps) && Enabled(s, step)
    ensures OutcomesTold(After(s, step), steps + [step])
  {
    var s' := After(s, step);
    InSnoc(steps, step, step);
    forall i: nat
      ensures i < |s'.tasks| ==>
                OutcomeIn(steps + [step], i) ==
                (if s'.tasks[i].state.Released? || s'.tasks[i].state.Recorded? then Some(s'.tasks[i].state.outcome)
                 else None)
      ensures i >= |s'.tasks| ==> OutcomeIn(steps + [step], i) == None && Callback(i) !in steps + [step]
    {
      InSnoc(steps, step, Callback(i));
    }
  }

  lemma FlagsNext(s: State, steps: seq<Step>, step: Step)
    requires FlagsTold(s, steps) && Enabled(s, step)
    ensures FlagsTold(After(s, step), steps + [step])
  {
    InSnoc(steps, step, SetStop);
    InSnoc(steps, step, Cancel);
    InSnoc(steps, step, NextStop);
  }

  /** Nothing is in flight exactly when every done-callback has run. */
  lemma QuietIsAllBack(s: State, steps: seq<Step>)
    requires TasksTold(s, steps) && Tracked(s)
    ensures s.inFlight == {} <==> AllBack(steps)
  {
    if AllBack(steps) {
      assert forall i :: i !in s.inFlight;
    } else {
      var i: nat :| i < |ItemsIn(steps)| && Callback(i) !in steps;
      assert i in s.inFlight;
    }
  }

  /** What is known of a state when its end is told. */
  ghost predicate Known(s: State, steps: seq<Step>) {
    && (s.inFlight == {} <==> AllBack(steps))
    && s.recorded == FailuresIn(steps)
    && s.firstError == (if s.recorded == [] then None else Some(s.recorded[0]))
    && (s.control.Joining? && s.control.exit.Normal? ==> s.stop || s.exhausted)
  }

  /** A step of a task, or the stop event: the loop stays where it is. */
  lemma AsideNext(s: State, steps: seq<Step>, step: Step, late: bool)
    requires Known(s, steps) && EndTold(s, steps, late) && Enabled(s, step)
    requires MovesTask(step) || step.SetStop?
    requires After(s, step).recorded == FailuresIn(steps + [step]) && (s.control.Left? ==> !MovesTask(step))
    ensures EndTold(After(s, step), steps + [step], late)
  {
    InSnoc(steps, step, step);
    assert After(s, step).control == s.control && s.recorded <= After(s, step).recorded;
  }

  /** A step of the loop, or its cancellation. */
  lemma LoopNext(s: State, steps: seq<Step>, step: Step, late: bool)
    requires Known(s, steps) && EndTold(s, steps, late) && Enabled(s, step)
    requires !MovesTask(step) && !step.SetStop?
    requires s.recorded == FailuresIn(steps + [step])
    ensures EndTold(After(s, step), steps + [step], late || (step.Cancel? && !Fetching(s.control)))
  {
    InSnoc(steps, step, step);
  }

  lemma EndNext(s: State, steps: seq<Step>, step: Step, late: bool)
    requires TasksTold(s, steps) && OutcomesTold(s, steps) && EndTold(s, steps, late) && Inv(s) && Enabled(s, step)
    requires OutcomesTold(After(s, step), steps + [step])
    ensures EndTold(After(s, step), steps + [step], late || (step.Cancel? && !Fetching(s.control)))
  {
    QuietIsAllBack(s, steps);
    if MovesTask(step) || step.SetStop? {
      if s.control.Left? {
        AllRecorded(s);
      }
      AsideNext(s, steps, step, late);
    } else {
      LoopNext(s, steps, step, late);
    }
  }

  lemma {:induction false} RunIsTold(concurrency: nat, steps: seq<Step>)
    requires Exec(Init(concurrency), steps).Some?
    ensures var s := Exec(Init(concurrency), steps).value;
            && Inv(s) && TasksTold(s, steps) && OutcomesTold(s, steps) && FlagsTold(s, steps)
            && EndTold(s, steps, CancelledLate(concurrency, steps))
    decreases |steps|
  {
    InitInv(concurrency);
    RunKeepsInv(Init(concurrency), steps);
    if steps != [] {
      var front, step := steps[..|steps| - 1], steps[|steps| - 1];
      ExecSnoc(Init(concurrency), steps);
      RunIsTold(concurrency, front);
      assert steps == front + [step];
      var s := Exec(Init(concurrency), front).value;
      TasksNext(s, front, step);
      OutcomesNext(s, front, step);
      FlagsNext(s, front, step);
      EndNext(s, front, step, CancelledLate(concurrency, front));
    }
  }

  // ---- What every run keeps

  /** The tasks are the items that arrived, in order; each is recorded exactly once its done-callback
      has run; and the errors recorded are those of the handlers that failed. */
  lemma StateIsTold(concurrency: nat, steps: seq<Step>)
    requires Exec(Init(concurrency), steps).Some?
    ensures var s := Exec(Init(concurrency), steps).value;
            && |s.tasks| == |ItemsIn(steps)|
            && (forall i: nat | i < |s.tasks| :: s.tasks[i].item == ItemsIn(steps)[i])
            && (forall i: nat | i < |s.tasks| :: s.tasks[i].state.Recorded? <==> Callback(i) in steps)
            && (s.inFlight == {} <==> AllBack(steps))
            && (s.stop <==> SetStop in steps) && (s.cancelled <==> Cancel in steps)
            && s.recorded == FailuresIn(steps)
            && s.firstError == (if FailuresIn(steps) == [] then None else Some(FailuresIn(steps)[0]))
  {
    RunIsTold(concurrency, steps);
    QuietIsAllBack(Exec(Init(concurrency), steps).value, steps);
  }

  /** The loop stops fetching when the iterator is dry, raises, or times out with nothing in flight, or
      when the caller is cancelled; short of that, only for the stop event or a handler's failure. */
  lemma FetchingEnds(concurrency: nat, steps: seq<Step>)
    requires Exec(Init(concurrency), steps).Some?
    ensures var control := Exec(Init(concurrency), steps).value.control;
            && (Ended(steps) ==> !Fetching(control))
            && (!Fetching(control) ==> Ended(steps) || SetStop in steps || FailuresIn(steps) != [])
  {
    RunIsTold(concurrency, steps);
  }

  /** At its head, and when a permit arrives, the loop sees that stop is set; and then also that a handler
      has failed. It fetches on otherwise. */
  lemma StopIsSeen(concurrency: nat, steps: seq<Step>)
    requires Exec(Init(concurrency), steps).Some?
    ensures var s := Exec(Init(concurrency), steps).value;
            && (Enabled(s, Check) ==> (Fetching(After(s, Check).control) <==> SetStop !in steps))
            && (Enabled(s, Acquire) ==>
                  (Fetching(After(s, Acquire).control) <==> SetStop !in steps && FailuresIn(steps) == []))
  {
    RunIsTold(concurrency, steps);
  }

  /** A timeout of the iterator ends the loop exactly if every done-callback has run; otherwise the loop
      goes back to its head after one turn of the event loop. Either way its permit is free again. */
  lemma TimeoutEndsExactly(concurrency: nat, steps: seq<Step>)
    requires Exec(Init(concurrency), steps + [NextTimeout]).Some?
    ensures var s := Exec(Init(concurrency), steps + [NextTimeout]).value;
            && (AllBack(steps) ==> s.control == Joining(Throws(TimeoutError)))
            && (!AllBack(steps) ==> Enabled(s, Resume) && After(s, Resume).control == Checking)
            && Exec(Init(concurrency), steps).Some?
            && s == Exec(Init(concurrency), steps).value.(
                 control := s.control, permits := Exec(Init(concurrency), steps).value.permits + 1)
  {
    InSnoc(steps, NextTimeout, NextTimeout);
    ExecSnoc(Init(concurrency), steps + [NextTimeout]);
    RunIsTold(concurrency, steps);
    QuietIsAllBack(Exec(Init(concurrency), steps).value, steps);
  }

  /** What leaves is decided by the events alone: a cancellation of the join comes first, then the first
      handler that failed, then what ended the fetching. */
  lemma EventsDecideExit(concurrency: nat, steps: seq<Step>)
    requires Exec(Init(concurrency), steps).Some? && Exec(Init(concurrency), steps).value.control.Left?
    ensures Exec(Init(concurrency), steps).value.control.exit
            == (if CancelledLate(concurrency, steps) then Throws(CancelledError)
                else if FailuresIn(steps) != [] then Throws(FailuresIn(steps)[0])
                else Pending(steps))
  {
    RunIsTold(concurrency, steps);
  }

  /** The iterator has raised e, or has timed out with nothing in flight. */
  ghost predicate IteratorThrew(steps: seq<Step>, e: Error) {
    || NextRaise(e) in steps
    || (e == TimeoutError && exists k: nat :: k < |steps| && steps[k] == NextTimeout && AllBack(steps[..k]))
  }

  lemma ThrewSnoc(steps: seq<Step>, step: Step, e: Error)
    ensures IteratorThrew(steps + [step], e) <==>
              IteratorThrew(steps, e) || step == NextRaise(e)
              || (e == TimeoutError && step == NextTimeout && AllBack(steps))
  {
    var all := steps + [step];
    InSnoc(steps, step, NextRaise(e));
    forall k: nat | k < |steps|
      ensures all[k] == steps[k] && all[..k] == steps[..k]
    {
    }
    assert all[|steps|] == step && all[..|steps|] == steps;
  }

  lemma {:induction false} PendingIsThrown(concurrency: nat, steps: seq<Step>, e: Error)
    requires Exec(Init(concurrency), steps).Some? && Cancel !in steps
    ensures Pending(steps) == Throws(e) <==> IteratorThrew(steps, e)
    ensures IteratorThrew(steps, e) ==> Ended(steps)
    decreases |steps|
  {
    if steps != [] {
      var front, step := steps[..|steps| - 1], steps[|steps| - 1];
      ExecSnoc(Init(concurrency), steps);
      assert steps == front + [step];
      PendingIsThrown(concurrency, front, e);
      RunIsTold(concurrency, front);
      ThrewSnoc(front, step, e);
    }
  }

  /** Without a failed handler or a cancellation, an exception leaves exactly if the iterator threw it,
      and a timeout counts only with nothing in flight. */
  lemma LeavesWhatIteratorThrew(concurrency: nat, steps: seq<Step>, e: Error)
    requires Exec(Init(concurrency), steps).Some? && Exec(Init(concurrency), steps).value.control.Left?
    requires FailuresIn(steps) == [] && Cancel !in steps
    ensures Exec(Init(concurrency), steps).value.control.exit == Throws(e) <==> IteratorThrew(steps, e)
  {
    EventsDecideExit(concurrency, steps);
    NotLate(concurrency, steps);
    PendingIsThrown(concurrency, steps, e);
  }

  lemma {:induction false} NotLate(concurrency: nat, steps: seq<Step>)
    requires Cancel !in steps
    ensures !CancelledLate(concurrency, steps)
    decreases |steps|
  {
    if steps != [] {
      NotLate(concurrency, steps[..|steps| - 1]);
    }
  }
}
