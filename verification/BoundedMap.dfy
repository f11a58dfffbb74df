/** `map_bounded`: a pool of workers shares one index into the items and one list of results. Code
    between two awaits is one step; the steps of the workers and of the caller interleave in any
    order. */
module BoundedMap {

  datatype Option<+T> = None | Some(value: T)

  datatype Error = CancelledError | Raised(name: string)

  datatype Worker = Ready | Busy(index: nat) | Finished | Failed(error: Error) | Cancelled

  /** `Cancelling` is a gather whose caller has been cancelled: it ends with the first worker that fails
      or is cancelled, or when all have finished. */
  datatype Control = Gathering | Cancelling | Unwinding(error: Error) | Returned | Raises(error: Error)

  /** `calls` keeps the history of claims: which worker took which index; `cancelled` says that the
      caller was cancelled. */
  datatype State = State(
    items: seq<string>, nextIndex: nat, results: seq<Option<string>>, workers: seq<Worker>,
    control: Control, calls: seq<(nat, nat)>, cancelled: bool)

  datatype Step =
    | Start(w: nat) | Answer(w: nat) | Fail(w: nat, error: Error) | WorkerCancelled(w: nat)
    | GatherFails(w: nat) | CallerCancelled | GatherCancelled | Unwound | Return

  /** What the call answers before any task exists, if it does. */
  datatype Begun = InvalidConcurrency | NothingToDo | Started(state: State)

  function Min(a: nat, b: nat): nat {
    if a < b then a else b
  }

  function Begin(items: seq<string>, concurrency: int): Begun {
    if concurrency < 1 then InvalidConcurrency
    else if items == [] then NothingToDo
    else Started(State(items, 0, seq(|items|, i => None), seq(Min(concurrency, |items|), i => Ready), Gathering, [],
                       false))
  }

  predicate Done(w: Worker) {
    !w.Ready? && !w.Busy?
  }

  /** A worker is only cancelled with or by the caller, and it may also ignore that, or fail at it. */
  predicate Enabled(s: State, step: Step) {
    match step
    case Start(w) => w < |s.workers| && s.workers[w].Ready?
    case Answer(w) => w < |s.workers| && s.workers[w].Busy? && s.workers[w].index < |s.items| == |s.results|
    case Fail(w, _) => w < |s.workers| && s.workers[w].Busy?
    case WorkerCancelled(w) => w < |s.workers| && !Done(s.workers[w]) && (s.control.Cancelling? || s.control.Unwinding?)
    case GatherFails(w) => w < |s.workers| && s.workers[w].Failed? && (s.control.Gathering? || s.control.Cancelling?)
    case CallerCancelled => s.control.Gathering?
    case GatherCancelled =>
      s.control.Cancelling?
      && ((exists w :: w in s.workers && (w.Cancelled? || w.Failed?)) || forall w | w in s.workers :: w.Finished?)
    case Unwound => s.control.Unwinding? && forall w | w in s.workers :: Done(w)
    case Return => s.control.Gathering? && forall w | w in s.workers :: w.Finished?
  }

  /** The head of a worker's loop: it claims the next index, or it is finished. */
  function Claim(s: State, w: nat): State
    requires w < |s.workers|
  {
    if s.nextIndex < |s.items| then
      s.(workers := s.workers[w := Busy(s.nextIndex)], nextIndex := s.nextIndex + 1,
         calls := s.calls + [(w, s.nextIndex)])
    else s.(workers := s.workers[w := Finished])
  }

  /** `f` is what the worker function answers for an item. */
  function After(f: string -> string, s: State, step: Step): State
    requires Enabled(s, step)
  {
    match step
    case Start(w) => Claim(s, w)
    case Answer(w) =>
      var index := s.workers[w].index;
      Claim(s.(results := s.results[index := Some(f(s.items[index]))]), w)
    case Fail(w, e) => s.(workers := s.workers[w := Failed(e)])
    case WorkerCancelled(w) => s.(workers := s.workers[w := Cancelled])
    case GatherFails(w) => s.(control := Unwinding(s.workers[w].error))
    case CallerCancelled => s.(control := Cancelling, cancelled := true)
    case GatherCancelled => s.(control := Unwinding(CancelledError))
    case Unwound => s.(control := Raises(s.control.error))
    case Return => s.(control := Returned)
  }

  function Exec(f: string -> string, s: State, steps: seq<Step>): Option<State>
    decreases steps
  {
    if steps == [] then Some(s)
    else if Enabled(s, steps[0]) then Exec(f, After(f, s, steps[0]), steps[1..])
    else None
  }

  // ---- The invariant

  /** Index i has its result, or the worker that claimed it is still at it or has come to grief. */
  predicate Accounted(f: string -> string, s: State, i: nat)
    requires i < |s.calls| && i < |s.items| && |s.results| == |s.items|
  {
    var w := s.calls[i].0;
    w < |s.workers| &&
    (s.results[i] == Some(f(s.items[i])) || s.workers[w] == Busy(i) || s.workers[w].Failed? || s.workers[w].Cancelled?)
  }

  /** An error that a worker failed with, or the cancellation of the caller. */
  ghost predicate Blamed(s: State, e: Error) {
    (exists w :: 0 <= w < |s.workers| && s.workers[w] == Failed(e)) || (e == CancelledError && s.cancelled)
  }

  ghost predicate Blames(s: State) {
    && (s.control.Cancelling? ==> s.cancelled)
    && (s.control.Unwinding? || s.control.Raises? ==> Blamed(s, s.control.error))
  }

  ghost predicate Inv(f: string -> string, s: State) {
    && |s.results| == |s.items| && |s.calls| == s.nextIndex <= |s.items|
    && (forall k | 0 <= k < |s.calls| :: s.calls[k].1 == k && Accounted(f, s, k))
    && (forall w | 0 <= w < |s.workers| && s.workers[w].Busy? ::
          s.workers[w].index < s.nextIndex && s.calls[s.workers[w].index].0 == w)
    && (forall w | 0 <= w < |s.workers| && s.workers[w].Finished? :: s.nextIndex == |s.items|)
    && (forall i | 0 <= i < |s.items| && s.results[i].Some? :: i < s.nextIndex && s.results[i].value == f(s.items[i]))
    && (s.control.Returned? ==> forall w | 0 <= w < |s.workers| :: s.workers[w].Finished?)
    && (s.control.Raises? ==> forall w | 0 <= w < |s.workers| :: Done(s.workers[w]))
  }

  lemma BeginInv(f: string -> string, items: seq<string>, concurrency: int)
    ensures Begin(items, concurrency).Started? ==>
              var s := Begin(items, concurrency).state;
              Inv(f, s) && |s.workers| == Min(concurrency, |items|) > 0 && s.items == items
  {
  }

  lemma StartKeepsInv(f: string -> string, s: State, w: nat)
    requires Inv(f, s) && Enabled(s, Start(w))
    ensures Inv(f, After(f, s, Start(w)))
  {
    var s' := After(f, s, Start(w));
    forall k | 0 <= k < |s'.calls|
      ensures s'.calls[k].1 == k && Accounted(f, s', k)
    {
      assert k < |s.calls| ==> Accounted(f, s, k);
    }
  }

  lemma AnswerKeepsInv(f: string -> string, s: State, w: nat)
    requires Inv(f, s) && Enabled(s, Answer(w))
    ensures Inv(f, After(f, s, Answer(w)))
  {
    var s' := After(f, s, Answer(w));
    forall k | 0 <= k < |s'.calls|
      ensures s'.calls[k].1 == k && Accounted(f, s', k)
    {
      assert k < |s.calls| ==> Accounted(f, s, k);
    }
  }

  lemma EndKeepsInv(f: string -> string, s: State, w: nat, step: Step)
    requires (step.Fail? || step.WorkerCancelled?) && step.w == w && Inv(f, s) && Enabled(s, step)
    ensures Inv(f, After(f, s, step))
  {
    var s' := After(f, s, step);
    forall k | 0 <= k < |s'.calls|
      ensures s'.calls[k].1 == k && Accounted(f, s', k)
    {
      assert Accounted(f, s, k);
    }
  }

  lemma StepKeepsInv(f: string -> string, s: State, step: Step)
    requires Inv(f, s) && Enabled(s, step)
    ensures Inv(f, After(f, s, step))
    ensures After(f, s, step).items == s.items && |After(f, s, step).workers| == |s.workers|
  {
    match step
    case Start(w) => StartKeepsInv(f, s, w);
    case Answer(w) => AnswerKeepsInv(f, s, w);
    case Fail(w, _) => EndKeepsInv(f, s, w, step);
    case WorkerCancelled(w) => EndKeepsInv(f, s, w, step);
    case _ => ControlKeepsInv(f, s, step);
  }

  lemma ControlKeepsInv(f: string -> string, s: State, step: Step)
    requires Inv(f, s) && Enabled(s, step)
    requires !step.Start? && !step.Answer? && !step.Fail? && !step.WorkerCancelled?
    ensures Inv(f, After(f, s, step))
  {
    var s' := After(f, s, step);
    forall k | 0 <= k < |s'.calls|
      ensures Accounted(f, s', k)
    {
      assert Accounted(f, s, k);
    }
  }

  lemma {:induction false} RunKeepsInv(f: string -> string, s: State, steps: seq<Step>)
    requires Inv(f, s) && Exec(f, s, steps).Some?
    ensures var s' := Exec(f, s, steps).value;
            Inv(f, s') && s'.items == s.items && |s'.workers| == |s.workers|
    decreases steps
  {
    if steps != [] {
      StepKeepsInv(f, s, steps[0]);
      RunKeepsInv(f, After(f, s, steps[0]), steps[1..]);
    }
  }

  lemma StepKeepsBlames(f: string -> string, s: State, step: Step)
    requires Blames(s) && Enabled(s, step)
    ensures Blames(After(f, s, step))
  {
    var s' := After(f, s, step);
    if (s.control.Unwinding? || s.control.Raises?) && !(s.control.error == CancelledError && s.cancelled) {
      var w :| 0 <= w < |s.workers| && s.workers[w] == Failed(s.control.error);
      assert s'.workers[w] == s.workers[w];
    }
    if step.GatherFails? {
      assert s'.workers[step.w] == Failed(s'.control.error);
    }
  }

  lemma {:induction false} RunKeepsBlames(f: string -> string, s: State, steps: seq<Step>)
    requires Blames(s) && Exec(f, s, steps).Some?
    ensures Blames(Exec(f, s, steps).value)
    decreases steps
  {
    if steps != [] {
      StepKeepsBlames(f, s, steps[0]);
      RunKeepsBlames(f, After(f, s, steps[0]), steps[1..]);
    }
  }

  // ---- What every run keeps

  /** What leaves is an error that some worker failed with, or else the cancellation of the caller. */
  lemma RaisesWorkersError(f: string -> string, items: seq<string>, concurrency: int, steps: seq<Step>)
    requires Begin(items, concurrency).Started? && Exec(f, Begin(items, concurrency).state, steps).Some?
    requires Exec(f, Begin(items, concurrency).state, steps).value.control.Raises?
    ensures var s := Exec(f, Begin(items, concurrency).state, steps).value;
            || (exists w :: 0 <= w < |s.workers| && s.workers[w] == Failed(s.control.error))
            || (s.control.error == CancelledError && s.cancelled)
  {
    RunKeepsBlames(f, Begin(items, concurrency).state, steps);
  }

  /** Workers are cancelled only once the caller is, or another has failed; so a gather that still waits
      has no cancelled worker. */
  ghost predicate Spared(s: State) {
    s.control.Gathering? ==> forall w | w in s.workers :: !w.Cancelled?
  }

  lemma StepKeepsSpared(f: string -> string, s: State, step: Step)
    requires Spared(s) && Enabled(s, step)
    ensures Spared(After(f, s, step))
  {
    var s' := After(f, s, step);
    if s'.control.Gathering? {
      forall w | w in s'.workers
        ensures !w.Cancelled?
      {
        var k :| 0 <= k < |s'.workers| && s'.workers[k] == w;
        assert s'.workers[k] == s.workers[k] ==> w in s.workers;
      }
    }
  }

  lemma {:induction false} RunKeepsSpared(f: string -> string, s: State, steps: seq<Step>)
    requires Spared(s) && Exec(f, s, steps).Some?
    ensures Spared(Exec(f, s, steps).value)
    decreases steps
  {
    if steps != [] {
      StepKeepsSpared(f, s, steps[0]);
      RunKeepsSpared(f, After(f, s, steps[0]), steps[1..]);
    }
  }

  /** No deadlock: until the call has returned or raised, some worker or the gather can take a step other
      than a cancellation of the caller. */
  lemma NeverStuck(f: string -> string, items: seq<string>, concurrency: int, steps: seq<Step>)
    requires Begin(items, concurrency).Started? && Exec(f, Begin(items, concurrency).state, steps).Some?
    requires var s := Exec(f, Begin(items, concurrency).state, steps).value; !s.control.Returned? && !s.control.Raises?
    ensures exists step ::
              step != CallerCancelled && Enabled(Exec(f, Begin(items, concurrency).state, steps).value, step)
  {
    BeginInv(f, items, concurrency);
    RunKeepsInv(f, Begin(items, concurrency).state, steps);
    RunKeepsSpared(f, Begin(items, concurrency).state, steps);
    StateCanMove(f, Exec(f, Begin(items, concurrency).state, steps).value);
  }

  lemma StateCanMove(f: string -> string, s: State)
    requires Inv(f, s) && Spared(s) && !s.control.Returned? && !s.control.Raises?
    ensures exists step :: step != CallerCancelled && Enabled(s, step)
  {
    if w :| 0 <= w < |s.workers| && s.workers[w].Ready? {
      assert Enabled(s, Start(w));
    } else if w :| 0 <= w < |s.workers| && s.workers[w].Busy? {
      assert Enabled(s, Fail(w, CancelledError));
    } else if s.control.Unwinding? {
      assert Enabled(s, Unwound);
    } else if w :| 0 <= w < |s.workers| && s.workers[w].Failed? {
      assert Enabled(s, GatherFails(w));
    } else if s.control.Gathering? {
      assert Enabled(s, Return);
    } else {
      assert Enabled(s, GatherCancelled);
    }
  }

  /** The plain, one-at-a-time map. */
  function SequentialMap(f: string -> string, items: seq<string>): seq<string> {
    if items == [] then [] else [f(items[0])] + SequentialMap(f, items[1..])
  }

  lemma {:induction false} SequentialMapAt(f: string -> string, items: seq<string>, i: nat)
    requires i < |items|
    ensures |SequentialMap(f, items)| == |items| && SequentialMap(f, items)[i] == f(items[i])
  {
    if i > 0 {
      SequentialMapAt(f, items[1..], i - 1);
    } else if |items| > 1 {
      SequentialMapAt(f, items[1..], 0);
    }
  }

  /** Each index is claimed exactly once, in order, so that the claimed indexes are those below the
      shared one; no two workers are at the same index; and there are never more workers than the
      bound or the items. */
  lemma ClaimsAreExact(f: string -> string, items: seq<string>, concurrency: int, steps: seq<Step>)
    requires Begin(items, concurrency).Started? && Exec(f, Begin(items, concurrency).state, steps).Some?
    ensures var s := Exec(f, Begin(items, concurrency).state, steps).value;
            && |s.calls| == s.nextIndex <= |items|
            && (forall k | 0 <= k < |s.calls| :: s.calls[k].1 == k)
            && (forall v, w | 0 <= v < w < |s.workers| && s.workers[v].Busy? && s.workers[w].Busy? ::
                  s.workers[v].index != s.workers[w].index)
            && |s.workers| == if concurrency < |items| then concurrency else |items|
  {
    BeginInv(f, items, concurrency);
    RunKeepsInv(f, Begin(items, concurrency).state, steps);
  }

  /** Under every interleaving, a normal return hands back the sequential map of the items; and no
      exit, normal or not, leaves a worker behind. */
  lemma RefinesSequentialMap(f: string -> string, items: seq<string>, concurrency: int, steps: seq<Step>)
    requires Begin(items, concurrency).Started? && Exec(f, Begin(items, concurrency).state, steps).Some?
    ensures var s := Exec(f, Begin(items, concurrency).state, steps).value;
            && |s.results| == |SequentialMap(f, items)| == |items|
            && (s.control.Returned? ==>
                  forall i | 0 <= i < |items| :: s.results[i] == Some(SequentialMap(f, items)[i]))
            && (forall i | 0 <= i < |items| && s.results[i].Some? :: s.results[i].value == SequentialMap(f, items)[i])
            && (s.control.Returned? || s.control.Raises? ==> forall w | 0 <= w < |s.workers| :: Done(s.workers[w]))
  {
    BeginInv(f, items, concurrency);
    RunKeepsInv(f, Begin(items, concurrency).state, steps);
    var s := Exec(f, Begin(items, concurrency).state, steps).value;
    SequentialMapAt(f, items, 0);
    forall i | 0 <= i < |items|
      ensures s.results[i].Some? ==> s.results[i].value == SequentialMap(f, items)[i]
      ensures s.control.Returned? ==> s.results[i] == Some(SequentialMap(f, items)[i])
    {
      SequentialMapAt(f, items, i);
      if s.control.Returned? {
        assert s.workers[0].Finished? && s.nextIndex == |items|;
        assert Accounted(f, s, i);
      }
    }
  }

  // ---- The shared index, the list of results and the workers

  class Mapper {
    const f: string -> string
    const items: seq<string>
    var nextIndex: nat
    const results: array<Option<string>>
    var workers: seq<Worker>
    var control: Control
    ghost var calls: seq<(nat, nat)>
    ghost var cancelled: bool

    constructor (f: string -> string, items: seq<string>, concurrency: int)
      requires Begin(items, concurrency).Started?
      ensures this.f == f && fresh(results) && S() == Begin(items, concurrency).state
    {
      this.f, this.items, nextIndex := f, items, 0;
      var none := new Option<string>[|items|](i => None);
      results := none;
      workers := seq(Min(concurrency, |items|), i => Ready);
      control, calls, cancelled := Gathering, [], false;
      new;
      assert results[..] == seq(|items|, i => None);
    }

    ghost function S(): State
      reads this, results
    {
      State(items, nextIndex, results[..], workers, control, calls, cancelled)
    }

    /** The head of a worker's loop. */
    method ClaimNext(w: nat)
      requires w < |workers|
      modifies this`nextIndex, this`workers, this`calls
      ensures S() == Claim(old(S()), w)
    {
      if nextIndex < |items| {
        workers := workers[w := Busy(nextIndex)];
        calls := calls + [(w, nextIndex)];
        nextIndex := nextIndex + 1;
      } else {
        workers := workers[w := Finished];
      }
    }

    /** The awaited worker call answers: its result is stored, and the loop goes on. */
    method Answered(w: nat)
      requires Enabled(S(), Answer(w))
      modifies this`nextIndex, this`workers, this`calls, results
      ensures S() == After(f, old(S()), Answer(w))
    {
      var index := workers[w].index;
      results[index] := Some(f(items[index]));
      assert results[..] == old(results[..])[index := Some(f(items[index]))];
      ClaimNext(w);
    }

    method Perform(step: Step)
      requires Enabled(S(), step)
      modifies this, results
      ensures S() == After(f, old(S()), step)
    {
      match step {
        case Start(w) => ClaimNext(w);
        case Answer(w) => Answered(w);
        case Fail(w, e) => workers := workers[w := Failed(e)];
        case WorkerCancelled(w) => workers := workers[w := Cancelled];
        case GatherFails(w) => control := Unwinding(workers[w].error);
        case CallerCancelled =>
          control := Cancelling;
          cancelled := true;
        case GatherCancelled => control := Unwinding(CancelledError);
        case Unwound => control := Raises(control.error);
        case Return => control := Returned;
      }
    }

    /** Any interleaving: the object goes through exactly the states of the run. */
    method Play(steps: seq<Step>)
      requires Exec(f, S(), steps).Some?
      modifies this, results
      ensures S() == Exec(f, old(S()), steps).value
    {
      for k := 0 to |steps|
        invariant Exec(f, S(), steps[k..]) == Exec(f, old(S()), steps)
      {
        assert steps[k..][0] == steps[k] && steps[k..][1..] == steps[k + 1..];
        Perform(steps[k]);
      }
    }
  }
}
