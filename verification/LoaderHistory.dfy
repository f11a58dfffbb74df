/** What `loadServices` shows and answers, told by the events of a run alone: mounts, calls, responses and
    failures. */
module LoaderHistory {
  import opened ServicesLoader

  // ---- Reading a list of events

  datatype Started = Started(background: bool, requireFresh: bool)

  /** The load with this token has been answered. */
  predicate Answered(steps: seq<Step>, token: nat) {
    steps != [] &&
    (|| Answered(steps[..|steps| - 1], token)
     || (steps[|steps| - 1].Response? && steps[|steps| - 1].token == token)
     || steps[|steps| - 1] == Failure(token))
  }

  /** The loads that were started: a call joins the newest one while that is not answered, unless it
      must be fresh, or must be in the foreground and that one is not. */
  function LoadsIn(steps: seq<Step>): seq<Started> {
    if steps == [] then []
    else
      var front, step := steps[..|steps| - 1], steps[|steps| - 1];
      if step.Mount? then Called(front, LoadsIn(front), false, false)
      else if step.Call? then Called(front, LoadsIn(front), step.background, step.requireFresh)
      else LoadsIn(front)
  }

  function Called(front: seq<Step>, loads: seq<Started>, background: bool, requireFresh: bool): seq<Started> {
    if loads != [] && !Answered(front, |loads|) && !requireFresh && (background || !loads[|loads| - 1].background)
    then loads
    else loads + [Started(background, requireFresh)]
  }

  predicate MountedIn(steps: seq<Step>) {
    steps != [] &&
    (steps[|steps| - 1].Mount? || (!steps[|steps| - 1].Unmount? && MountedIn(steps[..|steps| - 1])))
  }

  /** A response lands if its load is the newest. */
  predicate Lands(front: seq<Step>, step: Step) {
    step.Response? && step.token == |LoadsIn(front)|
  }

  /** The list that landed last. */
  function HeldIn(steps: seq<Step>): Services {
    if steps == [] then []
    else
      var front, step := steps[..|steps| - 1], steps[|steps| - 1];
      if Lands(front, step) then step.services else HeldIn(front)
  }

  /** The list that landed last while mounted. */
  function ShownIn(steps: seq<Step>): Services {
    if steps == [] then []
    else
      var front, step := steps[..|steps| - 1], steps[|steps| - 1];
      if Lands(front, step) && MountedIn(front) then step.services else ShownIn(front)
  }

  /** The newest load has failed while mounted, and none has landed while mounted since. */
  predicate ErrorIn(steps: seq<Step>) {
    steps != [] &&
    var front, step := steps[..|steps| - 1], steps[|steps| - 1];
    if Lands(front, step) && MountedIn(front) then false
    else if step.Failure? && step.token == |LoadsIn(front)| && MountedIn(front) then true
    else ErrorIn(front)
  }

  /** How a load has been settled: its own list if that landed; otherwise a fresh one is refused, and any
      other gets the list then held. */
  function ResultIn(steps: seq<Step>, token: nat): Option<Result> {
    if steps == [] then None
    else
      var front, step := steps[..|steps| - 1], steps[|steps| - 1];
      if step.Response? && step.token == token then
        if token == |LoadsIn(front)| then Some(Resolved(step.services))
        else if 0 < token <= |LoadsIn(front)| && LoadsIn(front)[token - 1].requireFresh then Some(Rejected(true))
        else Some(Resolved(HeldIn(front)))
      else if step == Failure(token) then
        if 0 < token <= |LoadsIn(front)| && LoadsIn(front)[token - 1].requireFresh then Some(Rejected(false))
        else Some(Resolved(HeldIn(front)))
      else ResultIn(front, token)
  }

  // ---- The state told by the events

  ghost predicate LoadsTold(s: State, steps: seq<Step>) {
    && |s.loads| == |LoadsIn(steps)|
    && (forall i | 0 <= i < |s.loads| :: LoadTold(s, steps, i))
    && (forall token: nat | token == 0 || token > |s.loads| ::
          !Answered(steps, token) && ResultIn(steps, token) == None)
  }

  ghost predicate LoadTold(s: State, steps: seq<Step>, i: nat)
    requires i < |s.loads| == |LoadsIn(steps)|
  {
    && s.loads[i].background == LoadsIn(steps)[i].background
    && s.loads[i].requireFresh == LoadsIn(steps)[i].requireFresh
    && s.loads[i].result == ResultIn(steps, i + 1)
    && (s.loads[i].result.Some? <==> Answered(steps, i + 1))
  }

  ghost predicate ViewTold(s: State, steps: seq<Step>) {
    && s.mounted == MountedIn(steps)
    && s.current == HeldIn(steps) && s.shown == ShownIn(steps) && s.error == ErrorIn(steps)
  }

  lemma ExecSnoc(s: State, steps: seq<Step>)
    requires steps != [] && Exec(s, steps).Some?
    ensures var n := |steps| - 1;
            && Exec(s, steps[..n]).Some? && Enabled(Exec(s, steps[..n]).value, steps[n])
            && Exec(s, steps) == Some(After(Exec(s, steps[..n]).value, steps[n]))
    decreases |steps|
  {
    var n := |steps| - 1;
    if n == 0 {
      assert steps[1..] == [];
    } else {
      ExecSnoc(After(s, steps[0]), steps[1..]);
      assert steps[..n][1..] == steps[1..][..n - 1];
    }
  }

  lemma ViewNext(s: State, steps: seq<Step>, step: Step)
    requires Newest(s) && LoadsTold(s, steps) && ViewTold(s, steps) && Enabled(s, step)
    ensures ViewTold(After(s, step), steps + [step])
  {
    assert (steps + [step])[..|steps|] == steps;
  }

  /** What the events say of one token after one more event. */
  lemma TokenNext(steps: seq<Step>, step: Step, token: nat)
    ensures LoadsIn(steps + [step]) ==
            if step.Mount? then Called(steps, LoadsIn(steps), false, false)
            else if step.Call? then Called(steps, LoadsIn(steps), step.background, step.requireFresh)
            else LoadsIn(steps)
    ensures Answered(steps + [step], token) <==>
              Answered(steps, token) || (step.Response? && step.token == token) || step == Failure(token)
    ensures !(step.Response? && step.token == token) && step != Failure(token) ==>
              ResultIn(steps + [step], token) == ResultIn(steps, token)
  {
    assert (steps + [step])[..|steps|] == steps;
  }

  lemma JoinsTold(s: State, steps: seq<Step>, background: bool, requireFresh: bool)
    requires Newest(s) && LoadsTold(s, steps)
    ensures |AfterCall(s, background, requireFresh).loads| == |Called(steps, LoadsIn(steps), background, requireFresh)|
    ensures Joins(s, background, requireFresh) <==>
              s.loads != [] && !Answered(steps, |s.loads|) && !requireFresh
              && (background || !LoadsIn(steps)[|s.loads| - 1].background)
  {
    assert |s.loads| > 0 ==> LoadTold(s, steps, |s.loads| - 1);
  }

  /** A call: the loads are those of before, and perhaps a new one that nothing has answered. */
  lemma CallNext(s: State, steps: seq<Step>, step: Step, background: bool, requireFresh: bool)
    requires Newest(s) && LoadsTold(s, steps) && Enabled(s, step)
    requires (step.Mount? && !background && !requireFresh) || step == Call(background, requireFresh)
    ensures LoadsTold(After(s, step), steps + [step])
  {
    var s' := After(s, step);
    JoinsTold(s, steps, background, requireFresh);
    TokenNext(steps, step, 0);
    forall i | 0 <= i < |s'.loads|
      ensures LoadTold(s', steps + [step], i)
    {
      TokenNext(steps, step, i + 1);
      assert i < |s.loads| ==> LoadTold(s, steps, i) && s'.loads[i] == s.loads[i];
    }
    forall token: nat | token == 0 || token > |s'.loads|
      ensures !Answered(steps + [step], token) && ResultIn(steps + [step], token) == None
    {
      TokenNext(steps, step, token);
    }
  }

  /** What the events say of an answer's own token. */
  lemma OwnToken(steps: seq<Step>, step: Step)
    requires step.Response? || step.Failure?
    ensures Answered(steps + [step], step.token)
    ensures var loads, token := LoadsIn(steps), step.token;
            var refused := 0 < token <= |loads| && loads[token - 1].requireFresh;
            ResultIn(steps + [step], token) == Some(
              if step.Response? && token == |loads| then Resolved(step.services)
              else if refused then Rejected(step.Response?) else Resolved(HeldIn(steps)))
  {
    assert (steps + [step])[..|steps|] == steps;
  }

  /** What an answer makes of its own load. */
  lemma OwnAnswer(s: State, steps: seq<Step>, step: Step)
    requires Newest(s) && LoadsTold(s, steps) && s.current == HeldIn(steps) && Enabled(s, step)
    requires step.Response? || step.Failure?
    ensures After(s, step).loads == s.loads[step.token - 1 := After(s, step).loads[step.token - 1]]
    ensures var load := After(s, step).loads[step.token - 1];
            && load.background == s.loads[step.token - 1].background
            && load.requireFresh == s.loads[step.token - 1].requireFresh
            && load.result.Some? && load.result == ResultIn(steps + [step], step.token)
            && Answered(steps + [step], step.token)
  {
    OwnToken(steps, step);
    assert LoadTold(s, steps, step.token - 1);
  }

  lemma AnswerNext(s: State, steps: seq<Step>, step: Step)
    requires Newest(s) && LoadsTold(s, steps) && ViewTold(s, steps) && Enabled(s, step)
    requires step.Response? || step.Failure?
    ensures LoadsTold(After(s, step), steps + [step])
  {
    var s' := After(s, step);
    OwnAnswer(s, steps, step);
    TokenNext(steps, step, 0);
    forall i | 0 <= i < |s.loads|
      ensures LoadTold(s', steps + [step], i)
    {
      TokenNext(steps, step, i + 1);
      assert LoadTold(s, steps, i);
      assert i != step.token - 1 ==> s'.loads[i] == s.loads[i];
    }
    forall token: nat | token == 0 || token > |s.loads|
      ensures !Answered(steps + [step], token) && ResultIn(steps + [step], token) == None
    {
      TokenNext(steps, step, token);
    }
  }

  lemma UnmountNext(s: State, steps: seq<Step>)
    requires LoadsTold(s, steps) && Enabled(s, Unmount)
    ensures LoadsTold(After(s, Unmount), steps + [Unmount])
  {
    TokenNext(steps, Unmount, 0);
    forall i | 0 <= i < |s.loads|
      ensures LoadTold(After(s, Unmount), steps + [Unmount], i)
    {
      TokenNext(steps, Unmount, i + 1);
      assert LoadTold(s, steps, i);
    }
    forall token: nat | token == 0 || token > |s.loads|
      ensures !Answered(steps + [Unmount], token) && ResultIn(steps + [Unmount], token) == None
    {
      TokenNext(steps, Unmount, token);
    }
  }

  lemma LoadsNext(s: State, steps: seq<Step>, step: Step)
    requires Newest(s) && LoadsTold(s, steps) && ViewTold(s, steps) && Enabled(s, step)
    ensures LoadsTold(After(s, step), steps + [step])
  {
    match step
    case Mount => CallNext(s, steps, step, false, false);
    case Call(background, requireFresh) => CallNext(s, steps, step, background, requireFresh);
    case Unmount => UnmountNext(s, steps);
    case _ => AnswerNext(s, steps, step);
  }

  lemma {:induction false} RunIsTold(steps: seq<Step>)
    requires Exec(INIT, steps).Some?
    ensures var s := Exec(INIT, steps).value; LoadsTold(s, steps) && ViewTold(s, steps) && Inv(s)
    decreases |steps|
  {
    RunKeepsInv(INIT, steps);
    if steps != [] {
      var front, step := steps[..|steps| - 1], steps[|steps| - 1];
      ExecSnoc(INIT, steps);
      RunIsTold(front);
      assert steps == front + [step];
      var s := Exec(INIT, front).value;
      LoadsNext(s, front, step);
      ViewNext(s, front, step);
    }
  }

  // ---- What every run shows

  /** A load is started by a mount or a call, unless the call joins the newest load: that is not answered
      yet, and the call is neither fresh nor one in the foreground while that load is in the background. */
  lemma LoadsAreStarted(steps: seq<Step>)
    requires Exec(INIT, steps).Some?
    ensures var s := Exec(INIT, steps).value;
            && |s.loads| == |LoadsIn(steps)|
            && forall i | 0 <= i < |s.loads| ::
                 s.loads[i].background == LoadsIn(steps)[i].background
                 && s.loads[i].requireFresh == LoadsIn(steps)[i].requireFresh
  {
    RunIsTold(steps);
    var s := Exec(INIT, steps).value;
    forall i | 0 <= i < |s.loads|
      ensures s.loads[i].background == LoadsIn(steps)[i].background
              && s.loads[i].requireFresh == LoadsIn(steps)[i].requireFresh
    {
      assert LoadTold(s, steps, i);
    }
  }

  /** What is shown is the list that landed last while mounted, with an error exactly if the newest load
      has failed while mounted and none has landed since; and while mounted the provider says loading
      exactly while its newest load is in the foreground and not answered. */
  lemma ShowsLastLanded(steps: seq<Step>)
    requires Exec(INIT, steps).Some?
    ensures var s, loads := Exec(INIT, steps).value, LoadsIn(steps);
            && s.mounted == MountedIn(steps)
            && s.shown == ShownIn(steps) && s.error == ErrorIn(steps) && s.current == HeldIn(steps)
            && (s.mounted ==>
                  (s.loading <==> loads != [] && !Answered(steps, |loads|) && !loads[|loads| - 1].background))
  {
    RunIsTold(steps);
    var s := Exec(INIT, steps).value;
    assert s.loads != [] ==> LoadTold(s, steps, |s.loads| - 1);
  }

  /** A load is settled by its answer: with its own list if that lands; otherwise a fresh load is
      refused, and any other gets the list then held. */
  lemma AnswersSettle(steps: seq<Step>, token: nat)
    requires Exec(INIT, steps).Some? && 0 < token <= |Exec(INIT, steps).value.loads|
    ensures var load := Exec(INIT, steps).value.loads[token - 1];
            load.result == ResultIn(steps, token) && (load.result.Some? <==> Answered(steps, token))
  {
    RunIsTold(steps);
    assert LoadTold(Exec(INIT, steps).value, steps, token - 1);
  }
}
