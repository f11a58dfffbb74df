/** `requestJson`: reads of the same address share one request, and at most eight requests hold a
    slot. The slot of a finished read is handed to the read that has waited longest. */
module AdmissionQueue {

  datatype Option<+T> = None | Some(value: T)

  const SLOTS := 8

  /** A read that waits is `Granted` its slot by another's end, and runs on from there later. */
  datatype Phase = Waiting | Granted | Running | Finished

  datatype Request = Request(url: string, phase: Phase)

  /** Reads are numbered as they are made. `admitted` keeps the order in which they got a slot. */
  datatype State = State(
    activeReads: nat, readQueue: seq<nat>, pendingReads: map<string, nat>, requests: seq<Request>, admitted: seq<nat>)

  datatype Step = Call(url: string) | Bypass | Resume(i: nat) | End(i: nat)

  const INIT := State(0, [], map[], [], [])

  predicate InPhase(s: State, i: nat, phase: Phase) {
    i < |s.requests| && s.requests[i].phase == phase
  }

  /** A read ends however its network request went. */
  predicate Enabled(s: State, step: Step) {
    match step
    case Call(_) => true
    case Bypass => true
    case Resume(i) => InPhase(s, i, Granted)
    case End(i) => InPhase(s, i, Running)
  }

  function WithPhase(s: State, i: nat, phase: Phase): State
    requires i < |s.requests|
  {
    s.(requests := s.requests[i := s.requests[i].(phase := phase)])
  }

  /** A call joins the pending read of its address, or becomes a read that takes a slot or waits. */
  function AfterCall(s: State, url: string): State {
    var i := |s.requests|;
    if url in s.pendingReads then s
    else if s.activeReads >= SLOTS then
      s.(readQueue := s.readQueue + [i], requests := s.requests + [Request(url, Waiting)],
         pendingReads := s.pendingReads[url := i])
    else
      s.(activeReads := s.activeReads + 1, requests := s.requests + [Request(url, Running)],
         pendingReads := s.pendingReads[url := i], admitted := s.admitted + [i])
  }

  /** The end of a read hands its slot to the first in the queue, or gives it back. */
  function AfterEnd(s: State, i: nat): State
    requires InPhase(s, i, Running)
  {
    var s := WithPhase(s, i, Finished).(pendingReads := s.pendingReads - {s.requests[i].url});
    if s.readQueue != [] then
      var n := s.readQueue[0];
      (if n < |s.requests| then WithPhase(s, n, Granted) else s)
        .(readQueue := s.readQueue[1..], admitted := s.admitted + [n])
    else s.(activeReads := if s.activeReads > 0 then s.activeReads - 1 else 0)
  }

  function After(s: State, step: Step): State
    requires Enabled(s, step)
  {
    match step
    case Call(url) => AfterCall(s, url)
    case Bypass => s
    case Resume(i) => WithPhase(s, i, Running)
    case End(i) => AfterEnd(s, i)
  }

  function Exec(s: State, steps: seq<Step>): Option<State>
    decreases steps
  {
    if steps == [] then Some(s)
    else if Enabled(s, steps[0]) then Exec(After(s, steps[0]), steps[1..])
    else None
  }

  // ---- The invariant

  predicate HoldsSlot(phase: Phase) {
    phase.Granted? || phase.Running?
  }

  function Holders(requests: seq<Request>): nat {
    if requests == [] then 0 else
    Holders(requests[..|requests| - 1]) + if HoldsSlot(requests[|requests| - 1].phase) then 1 else 0
  }

  ghost predicate SlotsCounted(s: State) {
    && s.activeReads == Holders(s.requests) <= SLOTS
    && (s.readQueue != [] ==> s.activeReads == SLOTS)
  }

  /** Read i is in its place among those admitted, or in the queue behind them. */
  predicate Placed(s: State, i: nat)
    requires i < |s.requests| == |s.admitted| + |s.readQueue|
  {
    if i < |s.admitted| then s.admitted[i] == i && !s.requests[i].phase.Waiting?
    else s.readQueue[i - |s.admitted|] == i && s.requests[i].phase.Waiting?
  }

  /** Those admitted, and then those in the queue, are all reads in the order they were made. */
  ghost predicate InOrder(s: State) {
    && |s.requests| == |s.admitted| + |s.readQueue|
    && forall i | 0 <= i < |s.requests| :: Placed(s, i)
  }

  /** The entry of an address belongs to its one unfinished read. */
  ghost predicate Owned(s: State) {
    && (forall url | url in s.pendingReads ::
          && s.pendingReads[url] < |s.requests| && s.requests[s.pendingReads[url]].url == url
          && !s.requests[s.pendingReads[url]].phase.Finished?)
    && (forall i | 0 <= i < |s.requests| && !s.requests[i].phase.Finished? ::
          s.requests[i].url in s.pendingReads && s.pendingReads[s.requests[i].url] == i)
  }

  ghost predicate Inv(s: State) {
    SlotsCounted(s) && InOrder(s) && Owned(s)
  }

  lemma {:induction false} HoldersUpdate(requests: seq<Request>, i: nat, r: Request)
    requires i < |requests|
    ensures Holders(requests[i := r]) + (if HoldsSlot(requests[i].phase) then 1 else 0)
         == Holders(requests) + (if HoldsSlot(r.phase) then 1 else 0)
  {
    var n := |requests| - 1;
    if i == n {
      assert requests[i := r][..n] == requests[..n];
    } else {
      assert requests[i := r][..n] == requests[..n][i := r];
      HoldersUpdate(requests[..n], i, r);
    }
  }

  lemma HoldersAppend(requests: seq<Request>, r: Request)
    ensures Holders(requests + [r]) == Holders(requests) + if HoldsSlot(r.phase) then 1 else 0
  {
    assert (requests + [r])[..|requests|] == requests;
  }

  lemma {:induction false} HolderExists(requests: seq<Request>, i: nat)
    requires i < |requests| && HoldsSlot(requests[i].phase)
    ensures Holders(requests) > 0
  {
    if i < |requests| - 1 {
      HolderExists(requests[..|requests| - 1], i);
    }
  }

  lemma CallKeepsInv(s: State, url: string)
    requires Inv(s)
    ensures Inv(AfterCall(s, url))
  {
    if url !in s.pendingReads {
      var s' := AfterCall(s, url);
      HoldersAppend(s.requests, Request(url, if s.activeReads >= SLOTS then Waiting else Running));
      forall k | 0 <= k < |s'.requests|
        ensures Placed(s', k)
      {
        assert k < |s.requests| ==> Placed(s, k);
      }
      OwnedAfterCall(s, url);
    }
  }

  lemma OwnedAfterCall(s: State, url: string)
    requires Owned(s)
    ensures Owned(AfterCall(s, url))
  {
  }

  lemma EndKeepsSlots(s: State, i: nat)
    requires Inv(s) && InPhase(s, i, Running)
    ensures SlotsCounted(AfterEnd(s, i))
  {
    var finished := s.requests[i := s.requests[i].(phase := Finished)];
    HoldersUpdate(s.requests, i, finished[i]);
    HolderExists(s.requests, i);
    if s.readQueue != [] {
      var n := s.readQueue[0];
      assert Placed(s, |s.admitted|) && n == |s.admitted|;
      HoldersUpdate(finished, n, finished[n].(phase := Granted));
    }
  }

  lemma EndKeepsOrder(s: State, i: nat)
    requires Inv(s) && InPhase(s, i, Running)
    ensures InOrder(AfterEnd(s, i))
  {
    var s' := AfterEnd(s, i);
    assert Placed(s, i) && i < |s.admitted|;
    if s.readQueue != [] {
      assert Placed(s, |s.admitted|) && s.readQueue[0] == |s.admitted|;
    }
    forall k | 0 <= k < |s'.requests|
      ensures Placed(s', k)
    {
      assert Placed(s, k);
    }
  }

  lemma EndKeepsOwners(s: State, i: nat)
    requires Inv(s) && InPhase(s, i, Running)
    ensures Owned(AfterEnd(s, i))
  {
    var s' := AfterEnd(s, i);
    forall k | 0 <= k < |s'.requests|
      ensures s'.requests[k].url == s.requests[k].url
      ensures s'.requests[k].phase.Finished? <==> k == i || s.requests[k].phase.Finished?
    {
      assert s.readQueue != [] ==> Placed(s, |s.admitted|) && s.readQueue[0] == |s.admitted|;
    }
  }

  lemma ResumeKeepsInv(s: State, i: nat)
    requires Inv(s) && InPhase(s, i, Granted)
    ensures Inv(WithPhase(s, i, Running))
  {
    HoldersUpdate(s.requests, i, s.requests[i].(phase := Running));
    forall k | 0 <= k < |s.requests|
      ensures Placed(WithPhase(s, i, Running), k)
    {
      assert Placed(s, k);
    }
  }

  lemma StepKeepsInv(s: State, step: Step)
    requires Inv(s) && Enabled(s, step)
    ensures Inv(After(s, step))
  {
    match step {
      case Call(url) => CallKeepsInv(s, url);
      case Bypass =>
      case Resume(i) => ResumeKeepsInv(s, i);
      case End(i) =>
        EndKeepsSlots(s, i);
        EndKeepsOrder(s, i);
        EndKeepsOwners(s, i);
    }
  }

  lemma {:induction false} RunKeepsInv(s: State, steps: seq<Step>)
    requires Inv(s) && Exec(s, steps).Some?
    ensures Inv(Exec(s, steps).value)
    decreases steps
  {
    if steps != [] {
      StepKeepsInv(s, steps[0]);
      RunKeepsInv(After(s, steps[0]), steps[1..]);
    }
  }

  // ---- What every run keeps

  /** The counter is the number of reads that hold a slot, never more than eight; and nobody waits
      while a slot is free. */
  lemma SlotsAreBounded(steps: seq<Step>)
    requires Exec(INIT, steps).Some?
    ensures var s := Exec(INIT, steps).value;
            && s.activeReads == Holders(s.requests) <= SLOTS
            && ((exists i :: 0 <= i < |s.requests| && s.requests[i].phase.Waiting?) ==> s.activeReads == SLOTS)
  {
    RunKeepsInv(INIT, steps);
    var s := Exec(INIT, steps).value;
    forall i | 0 <= i < |s.requests| && s.requests[i].phase.Waiting?
      ensures s.readQueue != []
    {
      assert Placed(s, i);
    }
  }

  /** No read overtakes another: slots are given in exactly the order the reads were made, and a
      read that waits finds all that were made before it admitted or before it in the queue. */
  lemma FirstInFirstOut(steps: seq<Step>)
    requires Exec(INIT, steps).Some?
    ensures var s := Exec(INIT, steps).value;
            s.admitted + s.readQueue == seq(|s.requests|, k => k)
    ensures var s := Exec(INIT, steps).value;
            forall i, j | 0 <= i < j < |s.requests| && s.requests[i].phase.Waiting? :: s.requests[j].phase.Waiting?
  {
    RunKeepsInv(INIT, steps);
    var s := Exec(INIT, steps).value;
    forall i, j | 0 <= i < j < |s.requests| && s.requests[i].phase.Waiting?
      ensures s.requests[j].phase.Waiting?
    {
      assert Placed(s, i) && Placed(s, j);
    }
    var all := s.admitted + s.readQueue;
    forall k | 0 <= k < |s.requests|
      ensures all[k] == k
    {
      assert Placed(s, k);
    }
  }

  /** Each address has at most one unfinished read, and its entry lives exactly as long: a call while
      there is one joins it, and a call while there is none makes one. */
  lemma OneReadPerAddress(steps: seq<Step>, url: string)
    requires Exec(INIT, steps).Some?
    ensures var s := Exec(INIT, steps).value;
            && (forall i, j | 0 <= i < j < |s.requests| && s.requests[i].url == s.requests[j].url ::
                  s.requests[i].phase.Finished? || s.requests[j].phase.Finished?)
            && (url in s.pendingReads <==>
                  exists i :: 0 <= i < |s.requests| && s.requests[i].url == url && !s.requests[i].phase.Finished?)
            && |AfterCall(s, url).requests| == |s.requests| + (if url in s.pendingReads then 0 else 1)
  {
    RunKeepsInv(INIT, steps);
  }

  // ---- The module's variables

  class Requests {
    var activeReads: nat
    var readQueue: seq<nat>
    var pendingReads: map<string, nat>
    var requests: seq<Request>
    ghost var admitted: seq<nat>

    constructor ()
      ensures S() == INIT
    {
      activeReads, readQueue, pendingReads, requests, admitted := 0, [], map[], [], [];
    }

    ghost function S(): State
      reads this
    {
      State(activeReads, readQueue, pendingReads, requests, admitted)
    }

    /** A plain GET: the read whose promise the call answers. Any other call bypasses the queue. */
    method RequestJson(url: string) returns (owner: nat)
      modifies this
      ensures S() == AfterCall(old(S()), url)
      ensures url in pendingReads && owner == pendingReads[url]
    {
      if url in pendingReads {
        return pendingReads[url];
      }
      owner := |requests|;
      if activeReads >= SLOTS {
        readQueue := readQueue + [owner];
        requests := requests + [Request(url, Waiting)];
      } else {
        activeReads := activeReads + 1;
        requests := requests + [Request(url, Running)];
        admitted := admitted + [owner];
      }
      pendingReads := pendingReads[url := owner];
    }

    method Resumed(i: nat)
      requires Enabled(S(), Resume(i))
      modifies this`requests
      ensures S() == After(old(S()), Resume(i))
    {
      requests := requests[i := requests[i].(phase := Running)];
    }

    /** The finally block of a read. */
    method Ended(i: nat)
      requires Enabled(S(), End(i)) && activeReads > 0
      requires readQueue != [] ==> readQueue[0] < |requests|
      modifies this
      ensures S() == After(old(S()), End(i))
    {
      var url := requests[i].url;
      requests := requests[i := requests[i].(phase := Finished)];
      if readQueue != [] {
        var n := readQueue[0];
        readQueue := readQueue[1..];
        requests := requests[n := requests[n].(phase := Granted)];
        admitted := admitted + [n];
      } else {
        activeReads := activeReads - 1;
      }
      pendingReads := pendingReads - {url};
    }

    /** Any interleaving of calls, resumptions and ends: the variables go through exactly the states
        of the run. */
    method Play(steps: seq<Step>)
      requires Inv(S()) && Exec(S(), steps).Some?
      modifies this
      ensures S() == Exec(old(S()), steps).value && Inv(S())
    {
      for k := 0 to |steps|
        invariant Inv(S()) && Exec(S(), steps[k..]) == Exec(old(S()), steps)
      {
        var step := steps[k];
        assert steps[k..][0] == step && steps[k..][1..] == steps[k + 1..];
        StepKeepsInv(S(), step);
        match step {
          case Call(url) => var _ := RequestJson(url);
          case Bypass =>
          case Resume(i) => Resumed(i);
          case End(i) =>
            CanEnd(S(), i);
            Ended(i);
        }
      }
    }
  }

  lemma CanEnd(s: State, i: nat)
    requires Inv(s) && InPhase(s, i, Running)
    ensures s.activeReads > 0 && (s.readQueue != [] ==> s.readQueue[0] < |s.requests|)
  {
    HolderExists(s.requests, i);
    assert s.readQueue != [] ==> Placed(s, |s.admitted|);
  }
}
