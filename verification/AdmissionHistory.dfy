/** Who reads when, told by the calls and ends of a run alone; and that every read gets its turn. */
module AdmissionHistory {
  import opened AdmissionQueue

  // ---- Reading a list of events

  /** The addresses of the reads made: a call makes one unless a read of its address has not ended. */
  function ReadsIn(steps: seq<Step>): seq<string> {
    if steps == [] then []
    else
      var front, step := steps[..|steps| - 1], steps[|steps| - 1];
      var urls := ReadsIn(front);
      if step.Call? && !UnderWay(front, urls, step.url) then urls + [step.url] else urls
  }

  predicate UnderWay(steps: seq<Step>, urls: seq<string>, url: string) {
    exists i: nat :: i < |urls| && urls[i] == url && End(i) !in steps
  }

  /** How many reads have ended. */
  function Ends(steps: seq<Step>): nat {
    if steps == [] then 0 else Ends(steps[..|steps| - 1]) + if steps[|steps| - 1].End? then 1 else 0
  }

  // ---- The state told by the events

  ghost predicate ReadsTold(s: State, steps: seq<Step>) {
    && |s.requests| == |ReadsIn(steps)|
    && (forall i | 0 <= i < |s.requests| :: ReadTold(s, steps, i))
    && (forall i: nat | i >= |s.requests| :: End(i) !in steps)
  }

  ghost predicate ReadTold(s: State, steps: seq<Step>, i: nat)
    requires i < |s.requests| == |ReadsIn(steps)|
  {
    s.requests[i].url == ReadsIn(steps)[i] && (s.requests[i].phase.Finished? <==> End(i) in steps)
  }

  /** Slots are taken by the first reads, eight more than have ended. */
  ghost predicate SlotsTold(s: State, steps: seq<Step>) {
    && |s.admitted| == s.activeReads + Ends(steps)
    && (s.readQueue != [] ==> |s.admitted| == SLOTS + Ends(steps))
    && |s.admitted| <= SLOTS + Ends(steps)
  }

  lemma ExecSnoc(s: State, steps: seq<Step>)
    requires steps != [] && Exec(s, steps).Some?
    ensures var n := |steps| - 1;
            && Exec(s, steps[..n]).Some? && Enabled(Exec(s, steps[..n]).value, steps[n])
            && Exec(s, steps) == Some(After(Exec(s, steps[..n]).value, steps[n]))
    decreases |steps|
  {
    var n := |steps| - 1;
    if n == 0 {
      assert steps[1..] == [];
    } else {
      ExecSnoc(After(s, steps[0]), steps[1..]);
      assert steps[..n][1..] == steps[1..][..n - 1];
    }
  }

  lemma InSnoc(steps: seq<Step>, step: Step, any: Step)
    ensures (steps + [step])[..|steps|] == steps
    ensures any in steps + [step] <==> any in steps || any == step
  {
  }

  /** A call joins exactly if a read of its address has not ended. */
  lemma JoinsUnderWay(s: State, steps: seq<Step>, url: string)
    requires Inv(s) && ReadsTold(s, steps)
    ensures url in s.pendingReads <==> UnderWay(steps, ReadsIn(steps), url)
  {
    if url in s.pendingReads {
      assert ReadTold(s, steps, s.pendingReads[url]);
    }
    if i: nat :| i < |ReadsIn(steps)| && ReadsIn(steps)[i] == url && End(i) !in steps {
      assert ReadTold(s, steps, i);
    }
  }

  /** What a step leaves of the other reads. */
  lemma OthersStay(s: State, step: Step, i: nat)
    requires Inv(s) && Enabled(s, step) && i < |s.requests|
    ensures i < |After(s, step).requests| && After(s, step).requests[i].url == s.requests[i].url
    ensures After(s, step).requests[i].phase.Finished? <==> s.requests[i].phase.Finished? || step == End(i)
  {
    if step.End? && s.readQueue != [] {
      assert Placed(s, |s.admitted|) && s.readQueue[0] == |s.admitted|;
    }
  }

  lemma ReadsNext(s: State, steps: seq<Step>, step: Step)
    requires Inv(s) && ReadsTold(s, steps) && Enabled(s, step)
    ensures ReadsTold(After(s, step), steps + [step])
  {
    var s' := After(s, step);
    InSnoc(steps, step, step);
    if step.Call? {
      JoinsUnderWay(s, steps, step.url);
    }
    forall i | 0 <= i < |s'.requests|
      ensures ReadTold(s', steps + [step], i)
    {
      InSnoc(steps, step, End(i));
      if i < |s.requests| {
        assert ReadTold(s, steps, i);
        OthersStay(s, step, i);
      }
    }
    forall i: nat | i >= |s'.requests|
      ensures End(i) !in steps + [step]
    {
      InSnoc(steps, step, End(i));
    }
  }

  lemma SlotsNext(s: State, steps: seq<Step>, step: Step)
    requires Inv(s) && SlotsTold(s, steps) && Enabled(s, step)
    ensures SlotsTold(After(s, step), steps + [step])
  {
    InSnoc(steps, step, step);
    if step.End? {
      HolderExists(s.requests, step.i);
    }
  }

  lemma {:induction false} RunIsTold(steps: seq<Step>)
    requires Exec(INIT, steps).Some?
    ensures var s := Exec(INIT, steps).value; Inv(s) && ReadsTold(s, steps) && SlotsTold(s, steps)
    decreases |steps|
  {
    RunKeepsInv(INIT, steps);
    if steps != [] {
      var front, step := steps[..|steps| - 1], steps[|steps| - 1];
      ExecSnoc(INIT, steps);
      RunIsTold(front);
      assert steps == front + [step];
      var s := Exec(INIT, front).value;
      ReadsNext(s, front, step);
      SlotsNext(s, front, step);
    }
  }

  // ---- Who reads when

  /** The reads are those of the calls that found no read of their address under way. Read number i, from
      zero, has its slot as soon as more than i - 8 reads have ended, whichever those are, and not before. */
  lemma TurnIsByCount(steps: seq<Step>, i: nat)
    requires Exec(INIT, steps).Some?
    ensures var s := Exec(INIT, steps).value;
            && |s.requests| == |ReadsIn(steps)|
            && (i < |s.requests| ==>
                  && s.requests[i].url == ReadsIn(steps)[i]
                  && (s.requests[i].phase.Finished? <==> End(i) in steps)
                  && (s.requests[i].phase.Waiting? <==> i >= 8 + Ends(steps)))
  {
    RunIsTold(steps);
    var s := Exec(INIT, steps).value;
    if i < |s.requests| {
      assert ReadTold(s, steps, i) && Placed(s, i);
    }
  }

  /** A call answers with the read of its address that has not ended; it makes one if there is none. */
  lemma CallsShareReads(steps: seq<Step>, url: string)
    requires Exec(INIT, steps).Some?
    ensures var s := AfterCall(Exec(INIT, steps).value, url);
            && url in s.pendingReads
            && s.pendingReads[url] < |s.requests| && s.requests[s.pendingReads[url]].url == url
            && (if UnderWay(steps, ReadsIn(steps), url)
                then |s.requests| == |ReadsIn(steps)| && End(s.pendingReads[url]) !in steps
                else s.pendingReads[url] == |ReadsIn(steps)|)
  {
    RunIsTold(steps);
    var s := Exec(INIT, steps).value;
    JoinsUnderWay(s, steps, url);
    CallKeepsInv(s, url);
    if url in s.pendingReads {
      assert ReadTold(s, steps, s.pendingReads[url]);
    }
  }

  // ---- Every read gets its turn

  /** What a read still has before it: a slot, its resumption, its end. */
  function Ahead(phase: Phase): nat {
    match phase
    case Waiting => 3
    case Granted => 2
    case Running => 1
    case Finished => 0
  }

  function AllAhead(requests: seq<Request>): nat {
    if requests == [] then 0 else AllAhead(requests[..|requests| - 1]) + Ahead(requests[|requests| - 1].phase)
  }

  lemma {:induction false} AheadUpdate(requests: seq<Request>, i: nat, r: Request)
    requires i < |requests|
    ensures AllAhead(requests[i := r]) + Ahead(requests[i].phase) == AllAhead(requests) + Ahead(r.phase)
  {
    var n := |requests| - 1;
    if i == n {
      assert requests[i := r][..n] == requests[..n];
    } else {
      assert requests[i := r][..n] == requests[..n][i := r];
      AheadUpdate(requests[..n], i, r);
    }
  }

  predicate Works(step: Step) {
    step.Resume? || step.End?
  }

  lemma WorkIsDone(s: State, step: Step)
    requires Inv(s) && Enabled(s, step) && Works(step)
    ensures AllAhead(After(s, step).requests) < AllAhead(s.requests)
  {
    var i := step.i;
    if step.Resume? {
      AheadUpdate(s.requests, i, s.requests[i].(phase := Running));
    } else {
      var finished := s.requests[i := s.requests[i].(phase := Finished)];
      AheadUpdate(s.requests, i, finished[i]);
      if s.readQueue != [] {
        assert Placed(s, |s.admitted|) && s.readQueue[0] == |s.admitted|;
        AheadUpdate(finished, s.readQueue[0], finished[s.readQueue[0]].(phase := Granted));
      }
    }
  }

  /** Without new calls, a run ends: it takes at most three steps for each read. */
  lemma {:induction false} WorkRunsDry(s: State, steps: seq<Step>)
    requires Inv(s) && Exec(s, steps).Some? && forall k | 0 <= k < |steps| :: Works(steps[k])
    ensures |steps| <= AllAhead(s.requests)
    decreases steps
  {
    if steps != [] {
      WorkIsDone(s, steps[0]);
      StepKeepsInv(s, steps[0]);
      WorkRunsDry(After(s, steps[0]), steps[1..]);
    }
  }

  lemma {:induction false} NoHolders(requests: seq<Request>)
    requires forall i | 0 <= i < |requests| :: !HoldsSlot(requests[i].phase)
    ensures Holders(requests) == 0
  {
    if requests != [] {
      NoHolders(requests[..|requests| - 1]);
    }
  }

  /** And it ends only when every read has: as long as one has not, some read can resume or end. */
  lemma NoReadIsStuck(steps: seq<Step>)
    requires Exec(INIT, steps).Some?
    requires forall step | Works(step) :: !Enabled(Exec(INIT, steps).value, step)
    ensures var s := Exec(INIT, steps).value;
            && (forall i | 0 <= i < |s.requests| :: s.requests[i].phase.Finished?)
            && s.activeReads == 0 && s.readQueue == [] && s.pendingReads == map[]
  {
    RunKeepsInv(INIT, steps);
    var s := Exec(INIT, steps).value;
    forall i | 0 <= i < |s.requests|
      ensures !HoldsSlot(s.requests[i].phase)
    {
      assert !Enabled(s, Resume(i)) && !Enabled(s, End(i));
    }
    NoHolders(s.requests);
    forall i | 0 <= i < |s.requests|
      ensures s.requests[i].phase.Finished?
    {
      assert Placed(s, i);
    }
    assert forall url :: url !in s.pendingReads;
  }

  /** A read whose slot was handed over runs on, and can then end. */
  lemma GrantedRuns(steps: seq<Step>, i: nat)
    requires Exec(INIT, steps).Some? && InPhase(Exec(INIT, steps).value, i, Granted)
    ensures var s := Exec(INIT, steps).value;
            && Enabled(s, Resume(i)) && Enabled(After(s, Resume(i)), End(i))
            && End(i) !in steps && i < 8 + Ends(steps)
  {
    TurnIsByCount(steps, i);
  }
}
