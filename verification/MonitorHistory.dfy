/** What `useMonitorRead` shows, told by the events of a run alone: the props rendered, the effects that
    ran and the answers heard. */
module MonitorHistory {
  import opened MonitorRead

  // ---- Reading a list of events

  /** The props last rendered. */
  function PropsIn(props: Props, steps: seq<Step>): Props {
    if steps == [] then props
    else if steps[|steps| - 1].Render? then steps[|steps| - 1].props
    else PropsIn(props, steps[..|steps| - 1])
  }

  function KeyIn(props: Props, steps: seq<Step>): Key {
    KeyOf(PropsIn(props, steps).provider, PropsIn(props, steps).request)
  }

  /** The props of the effect that ran last. */
  function EffectIn(props: Props, steps: seq<Step>): Option<Props> {
    if steps == [] then None
    else if steps[|steps| - 1].RunEffect? then Some(PropsIn(props, steps[..|steps| - 1]))
    else EffectIn(props, steps[..|steps| - 1])
  }

  /** The key an answer is heard under. */
  function AnswerKey(props: Props, steps: seq<Step>): Key {
    var effect := EffectIn(props, steps);
    if effect.Some? then KeyOf(effect.value.provider, effect.value.request) else Plain("")
  }

  /** The message of the last failure that speaks of its provider. */
  function FaultIn(props: Props, steps: seq<Step>): string {
    if steps == [] then ""
    else
      var front, step := steps[..|steps| - 1], steps[|steps| - 1];
      if && step.ReadFails? && EffectIn(props, front).Some?
         && ProviderFault(EffectIn(props, front).value.provider, step.status)
      then step.message
      else FaultIn(props, front)
  }

  /** The value of the last success under a key, if the hook has not turned to another key since. */
  function ValueIn(props: Props, steps: seq<Step>, key: Key): Option<string> {
    if steps == [] then None
    else
      var front, step := steps[..|steps| - 1], steps[|steps| - 1];
      if step.ReadSucceeds? then (if AnswerKey(props, front) == key then Some(step.value) else None)
      else if step.RunEffect? && PropsIn(props, front).enabled && KeyIn(props, front) != key then None
      else ValueIn(props, front, key)
  }

  /** What last happened to the record: a read began, or was put off by a pause, or it was answered. */
  datatype Turn =
    | Untouched | Began(key: Key) | PutOff(key: Key, message: string)
    | Answered(key: Key) | Refused(key: Key, message: string)

  ghost function TurnIn(props: Props, steps: seq<Step>): Turn {
    if steps == [] then Untouched
    else
      var front, step := steps[..|steps| - 1], steps[|steps| - 1];
      if step.RunEffect? && PropsIn(props, front).enabled then
        if Exec(Init(props), front).Some? && Paused(Exec(Init(props), front).value)
        then PutOff(KeyIn(props, front), FaultIn(props, front))
        else Began(KeyIn(props, front))
      else if step.ReadSucceeds? then Answered(AnswerKey(props, front))
      else if step.ReadFails? then Refused(AnswerKey(props, front), step.message)
      else TurnIn(props, front)
  }

  function TurnKey(turn: Turn): Key {
    if turn.Untouched? then Plain("") else turn.key
  }

  function TurnError(turn: Turn): Option<string> {
    if turn.PutOff? || turn.Refused? then Some(turn.message) else None
  }

  // ---- The state told by the events

  ghost predicate PropsTold(props: Props, s: State, steps: seq<Step>) {
    && s.props == PropsIn(props, steps)
    && (s.effect.Some? <==> EffectIn(props, steps).Some?)
    && (s.effect.Some? ==> s.effect.value.props == EffectIn(props, steps).value)
    && (s.effect.Some? && s.effect.value.reading ==> s.effect.value.props.enabled)
    && (s.cooldown.until > 0.0 ==> s.cooldown.error == FaultIn(props, steps))
    && s.now >= 0.0
  }

  ghost predicate RecordTold(props: Props, s: State, steps: seq<Step>) {
    var turn := TurnIn(props, steps);
    && s.shown.key == TurnKey(turn) && s.shown.error == TurnError(turn) && s.shown.loading == turn.Began?
    && (s.effect.Some? && s.effect.value.reading ==> turn.Began?)
    && (s.effect.Some? && s.effect.value.props.enabled ==>
          TurnKey(turn) == AnswerKey(props, steps) && (s.effect.value.reading <==> turn.Began?))
    && (turn.Untouched? ==> s.effect.Some? ==> !s.effect.value.props.enabled)
  }

  ghost predicate ValueTold(props: Props, s: State, steps: seq<Step>) {
    forall key :: ValueAt(props, s, steps, key)
  }

  ghost predicate ValueAt(props: Props, s: State, steps: seq<Step>, key: Key) {
    ValueIn(props, steps, key) ==
    if s.shown.key == key && s.shown.data.Some? then Some(s.shown.data.value.value) else None
  }

  lemma ExecSnoc(s: State, steps: seq<Step>)
    requires steps != [] && Exec(s, steps).Some?
    ensures var n := |steps| - 1;
            && Exec(s, steps[..n]).Some? && Enabled(Exec(s, steps[..n]).value, steps[n])
            && Exec(s, steps) == Some(After(Exec(s, steps[..n]).value, steps[n]))
    decreases |steps|
  {
    var n := |steps| - 1;
    if n == 0 {
      assert steps[1..] == [];
    } else {
      ExecSnoc(After(s, steps[0]), steps[1..]);
      assert steps[..n][1..] == steps[1..][..n - 1];
    }
  }

  lemma PropsNext(props: Props, s: State, steps: seq<Step>, step: Step)
    requires PropsTold(props, s, steps) && Enabled(s, step)
    ensures PropsTold(props, After(s, step), steps + [step])
  {
    assert (steps + [step])[..|steps|] == steps;
  }

  lemma RecordNext(props: Props, s: State, steps: seq<Step>, step: Step)
    requires PropsTold(props, s, steps) && RecordTold(props, s, steps) && Enabled(s, step)
    requires Exec(Init(props), steps) == Some(s)
    ensures RecordTold(props, After(s, step), steps + [step])
  {
    assert (steps + [step])[..|steps|] == steps;
  }

  lemma ValueNext(props: Props, s: State, steps: seq<Step>, step: Step)
    requires PropsTold(props, s, steps) && ValueTold(props, s, steps) && DataOwned(s) && Enabled(s, step)
    ensures ValueTold(props, After(s, step), steps + [step])
  {
    assert (steps + [step])[..|steps|] == steps;
    forall key
      ensures ValueAt(props, After(s, step), steps + [step], key)
    {
      assert ValueAt(props, s, steps, key);
    }
  }

  lemma {:induction false} RunIsTold(props: Props, steps: seq<Step>)
    requires Exec(Init(props), steps).Some?
    ensures var s := Exec(Init(props), steps).value;
            PropsTold(props, s, steps) && RecordTold(props, s, steps) && ValueTold(props, s, steps) && Inv(s)
    decreases |steps|
  {
    RunKeepsInv(Init(props), steps);
    if steps == [] {
      assert forall key :: ValueAt(props, Init(props), [], key);
    } else {
      var front, step := steps[..|steps| - 1], steps[|steps| - 1];
      ExecSnoc(Init(props), steps);
      RunIsTold(props, front);
      assert steps == front + [step];
      var s := Exec(Init(props), front).value;
      PropsNext(props, s, front, step);
      RecordNext(props, s, front, step);
      ValueNext(props, s, front, step);
    }
  }

  // ---- What every run shows

  /** Keys tell requests apart, and providers. */
  lemma KeysTellApart(a: Props, b: Props)
    ensures KeyOf(a.provider, a.request) == KeyOf(b.provider, b.request) <==>
              a.provider == b.provider && a.request == b.request
  {
  }

  /** The data displayed is the value of the last success under the key now asked for, since the hook
      last turned to another key; and none, if there is no such success. */
  lemma DisplaysLastValue(props: Props, steps: seq<Step>)
    requires Exec(Init(props), steps).Some?
    ensures var key := KeyIn(props, steps);
            var value := ValueIn(props, steps, key);
            Displayed(Exec(Init(props), steps).value).data
            == (if value.Some? then Some(Data(value.value, key)) else None)
  {
    RunIsTold(props, steps);
    assert ValueAt(props, Exec(Init(props), steps).value, steps, KeyIn(props, steps));
  }

  /** The error displayed is that of the last answer under the key now asked for, or of the failure
      behind the pause that put the read off; a read that began clears it. Under a key not turned to yet
      there is no error, and the hook says loading if it is enabled. */
  lemma DisplaysLastTurn(props: Props, steps: seq<Step>)
    requires Exec(Init(props), steps).Some?
    ensures var displayed := Displayed(Exec(Init(props), steps).value);
            var key, turn := KeyIn(props, steps), TurnIn(props, steps);
            if TurnKey(turn) == key then displayed.error == TurnError(turn) && displayed.loading == turn.Began?
            else displayed.error == None && displayed.loading == PropsIn(props, steps).enabled
  {
    RunIsTold(props, steps);
  }

  predicate UnderWay(s: State) {
    s.effect.Some? && s.effect.value.reading
  }

  /** The hook was disabled in the middle of a read of the key it displays. */
  ghost predicate CutOff(props: Props, steps: seq<Step>) {
    !PropsIn(props, steps).enabled && TurnIn(props, steps) == Began(KeyIn(props, steps))
  }

  /** With the effect up to date, the hook says loading exactly while a read is under way, unless it was
      disabled in the middle of that read: then, and only then, it says loading with no read under way. */
  lemma LoadingExactly(props: Props, steps: seq<Step>)
    requires Exec(Init(props), steps).Some? && !Enabled(Exec(Init(props), steps).value, RunEffect)
    ensures var s := Exec(Init(props), steps).value;
            && ((Displayed(s).loading <==> UnderWay(s)) <==> !CutOff(props, steps))
            && (CutOff(props, steps) ==> Displayed(s).loading)
  {
    RunIsTold(props, steps);
  }

  lemma CutOffHappens(request: string, provider: string)
    ensures var on, off := Props(request, provider, true, 0), Props(request, provider, false, 0);
            var steps := [RunEffect] + ([Render(off)] + [RunEffect]);
            && Exec(Init(on), steps).Some?
            && var s := Exec(Init(on), steps).value;
            && !Enabled(s, RunEffect) && !UnderWay(s) && Displayed(s).loading && !s.props.enabled
  {
    var on, off := Props(request, provider, true, 0), Props(request, provider, false, 0);
    var s1 := After(Init(on), RunEffect);
    var s2 := After(s1, Render(off));
    ExecStep(s2, RunEffect, []);
    ExecStep(s1, Render(off), [RunEffect]);
    ExecStep(Init(on), RunEffect, [Render(off)] + [RunEffect]);
  }

  /** As long as answers are heard in time, an effect of the enabled hook reads exactly if no pause of
      its provider is open; otherwise it only waits. */
  lemma ReadsUnlessPaused(props: Props, steps: seq<Step>)
    requires Exec(Init(props), steps + [RunEffect]).Some? && Exec(Init(props), steps).Some?
    requires Timely(Init(props), steps) && PropsIn(props, steps).enabled
    ensures var s, t := Exec(Init(props), steps).value, Exec(Init(props), steps + [RunEffect]).value;
            var provider := PropsIn(props, steps).provider;
            && (UnderWay(t) <==> provider == "" || OwnUntil(s.log, provider) <= s.now)
            && t.log == (if UnderWay(t) then s.log + [ReadStarted(provider, s.now)] else s.log)
            && t.effect.Some? && (t.effect.value.timer.Some? <==> !UnderWay(t))
  {
    ExecSnoc(Init(props), steps + [RunEffect]);
    assert (steps + [RunEffect])[..|steps|] == steps;
    RunIsTold(props, steps);
    StartHolds(props);
    TimelyKeepsHistory(Init(props), steps);
  }

  /** As long as answers are heard in time, a failure that speaks of the provider is counted, opens a
      pause whose length follows from its place in the row and the random number, and leaves the hook
      paused with a timer; any other failure leaves the provider's record as it is. */
  lemma FaultsPause(props: Props, steps: seq<Step>, message: string, status: int, random: real)
    requires var answer := ReadFails(message, status, random);
             && Exec(Init(props), steps).Some? && Timely(Init(props), steps)
             && Enabled(Exec(Init(props), steps).value, answer) && !Misheard(Exec(Init(props), steps).value, answer)
    ensures var s := Exec(Init(props), steps).value;
            var t := After(s, ReadFails(message, status, random));
            var provider := s.props.provider;
            if s.effect.value.props.provider != "" && (status == 0 || status >= 500) then
              && Consecutive(t.log, provider) == Consecutive(s.log, provider) + 1
              && (var k := Consecutive(t.log, provider);
                  var nominal := if k == 1 then 45000.0 else if k == 2 then 90000.0 else if k == 3 then 180000.0
                                 else 300000.0;
                  var jittered := nominal * (0.9 + random * 0.2);
                  OwnUntil(t.log, provider) == s.now + if jittered < 300000.0 then jittered else 300000.0)
              && OwnUntil(t.log, provider) > t.now && Paused(t) && t.effect.value.timer.Some?
            else t.log == s.log && t.cooldown == s.cooldown && t.effect.value.timer.None?
  {
    StartHolds(props);
    TimelyKeepsHistory(Init(props), steps);
    RunKeepsInv(Init(props), steps);
    var s := Exec(Init(props), steps).value;
    if ProviderFault(s.effect.value.props.provider, status) {
      FailureKeepsRecord(s, message, status, random);
      PauseBounds(s.cooldown.failures + 1, random);
      DelayTable(s.cooldown.failures + 1);
      RecordAppend(s.log, ProviderFailed(s.props.provider, s.now, Pause(s.cooldown.failures + 1, random)),
                   s.props.provider);
    }
  }
}
