/** `useMonitorRead`: a monitoring read with a circuit breaker per provider. Renders, effects, timers
    and answers interleave in any order; only the clock never goes back. */
module MonitorRead {

  datatype Option<+T> = None | Some(value: T)

  /** The composite key of a provider's request, or the plain key of a request without one. */
  datatype Key = Plain(request: string) | Under(provider: string, request: string)

  function KeyOf(provider: string, request: string): Key {
    if provider != "" then Under(provider, request) else Plain(request)
  }

  /** `under` remembers the key of the effect whose read fetched the value. */
  datatype Data = Data(value: string, under: Key)

  datatype Cooldown = Cooldown(key: string, until: real, failures: nat, error: string)

  /** The record held in React state. */
  datatype Shown = Shown(key: Key, data: Option<Data>, error: Option<string>, loading: bool)

  datatype Props = Props(request: string, provider: string, enabled: bool, revision: int)

  /** The effect that is alive, with what it depends on. Answers to earlier effects change nothing. */
  datatype Effect = Effect(props: Props, probe: nat, reading: bool, timer: Option<real>)

  /** What happened, told by the provider whose read it was; a change is one of the provider asked for. */
  datatype Event =
    | ReadStarted(provider: string, at: real)
    | ProviderFailed(provider: string, at: real, pause: real)
    | ReadSucceeded(provider: string)
    | ProviderChanged

  datatype State = State(
    now: real, props: Props, probe: nat, cooldown: Cooldown, shown: Shown, effect: Option<Effect>, log: seq<Event>)

  datatype Step =
    | Tick(elapsed: real) | Render(props: Props) | RunEffect
    | ReadSucceeds(value: string) | ReadFails(message: string, status: int, random: real) | TimerFires

  function Init(props: Props): State {
    State(0.0, props, 0, Cooldown(props.provider, 0.0, 0, ""), Shown(Plain(""), None, None, false), None, [])
  }

  function MinReal(a: real, b: real): real { if a <= b then a else b }

  function MaxReal(a: real, b: real): real { if a <= b then b else a }

  function Doubled(k: nat): real {
    if k == 0 then 1.0 else 2.0 * Doubled(k - 1)
  }

  /** The nominal pause after the k-th consecutive failure, in milliseconds. */
  function Delay(k: nat): real
    requires k >= 1
  {
    MinReal(300000.0, 45000.0 * Doubled(if k - 1 < 3 then k - 1 else 3))
  }

  function Pause(k: nat, random: real): real
    requires k >= 1
  {
    MinReal(300000.0, Delay(k) * (0.9 + random * 0.2))
  }

  /** Only an answer without a status, or with one of 500 and up, speaks of the provider. */
  predicate ProviderFault(provider: string, status: int) {
    provider != "" && (status == 0 || status >= 500)
  }

  predicate Enabled(s: State, step: Step) {
    match step
    case Tick(elapsed) => elapsed >= 0.0
    case Render(_) => true
    case RunEffect => s.effect.None? || s.effect.value.props != s.props || s.effect.value.probe != s.probe
    case ReadSucceeds(_) => s.effect.Some? && s.effect.value.reading
    case ReadFails(_, _, random) => s.effect.Some? && s.effect.value.reading && 0.0 <= random < 1.0
    case TimerFires => s.effect.Some? && s.effect.value.timer.Some? && s.effect.value.timer.value <= s.now
  }

  /** What the state keeps of the data when an effect starts under a key. */
  function KeptData(s: State, key: Key): Option<Data> {
    if s.shown.key == key then s.shown.data else None
  }

  function RecoveryTime(now: real, until: real): real {
    now + MaxReal(1.0, until - now)
  }

  function AfterEffect(s: State): State {
    var p := s.props;
    var key := KeyOf(p.provider, p.request);
    if !p.enabled then
      s.(effect := Some(Effect(p, s.probe, false, None)))
    else if p.provider != "" && s.cooldown.until > s.now then
      s.(effect := Some(Effect(p, s.probe, false, Some(RecoveryTime(s.now, s.cooldown.until)))),
         shown := Shown(key, KeptData(s, key), Some(s.cooldown.error), false))
    else
      s.(effect := Some(Effect(p, s.probe, true, None)),
         shown := Shown(key, KeptData(s, key), None, true),
         log := s.log + [ReadStarted(p.provider, s.now)])
  }

  function AfterFailure(s: State, message: string, status: int, random: real): State
    requires s.effect.Some?
  {
    var e := s.effect.value;
    var shown := s.shown.(error := Some(message), loading := false);
    if ProviderFault(e.props.provider, status) then
      var failures := s.cooldown.failures + 1;
      var pause := Pause(failures, random);
      s.(cooldown := Cooldown(s.cooldown.key, s.now + pause, failures, message), shown := shown,
         effect := Some(e.(reading := false, timer := Some(RecoveryTime(s.now, s.now + pause)))),
         log := s.log + [ProviderFailed(e.props.provider, s.now, pause)])
    else s.(shown := shown, effect := Some(e.(reading := false)))
  }

  function After(s: State, step: Step): State
    requires Enabled(s, step)
  {
    match step
    case Tick(elapsed) => s.(now := s.now + elapsed)
    case Render(props) =>
      s.(props := props,
         cooldown := if s.cooldown.key != props.provider then Cooldown(props.provider, 0.0, 0, "") else s.cooldown,
         log := if s.props.provider != props.provider then s.log + [ProviderChanged] else s.log)
    case RunEffect => AfterEffect(s)
    case ReadSucceeds(value) =>
      var e := s.effect.value;
      var key := KeyOf(e.props.provider, e.props.request);
      s.(cooldown := Cooldown(e.props.provider, 0.0, 0, ""),
         shown := Shown(key, Some(Data(value, key)), None, false),
         effect := Some(e.(reading := false)), log := s.log + [ReadSucceeded(e.props.provider)])
    case ReadFails(message, status, random) => AfterFailure(s, message, status, random)
    case TimerFires => s.(probe := s.probe + 1, effect := Some(s.effect.value.(timer := None)))
  }

  function Exec(s: State, steps: seq<Step>): Option<State>
    decreases steps
  {
    if steps == [] then Some(s)
    else if Enabled(s, steps[0]) then Exec(After(s, steps[0]), steps[1..])
    else None
  }

  /** What the hook returns: the record, if it is that of the key now asked for. */
  function Displayed(s: State): Shown {
    var key := KeyOf(s.props.provider, s.props.request);
    if s.shown.key == key then s.shown else Shown(key, None, None, s.props.enabled)
  }

  function Paused(s: State): bool {
    s.props.provider != "" && s.cooldown.until > s.now
  }

  // ---- A provider's own record

  /** A provider's failures start anew with a success of its own, and when another provider is asked for. */
  predicate Resets(e: Event, provider: string) {
    e.ProviderChanged? || e == ReadSucceeded(provider)
  }

  predicate FailureOf(e: Event, provider: string) {
    e.ProviderFailed? && e.provider == provider
  }

  /** The failures of a provider in a row. */
  function Consecutive(log: seq<Event>, provider: string): nat {
    if log == [] || Resets(log[|log| - 1], provider) then 0
    else Consecutive(log[..|log| - 1], provider) + if FailureOf(log[|log| - 1], provider) then 1 else 0
  }

  /** The end of the pause after the last of them. */
  function OwnUntil(log: seq<Event>, provider: string): real {
    if log == [] || Resets(log[|log| - 1], provider) then 0.0
    else if FailureOf(log[|log| - 1], provider) then log[|log| - 1].at + log[|log| - 1].pause
    else OwnUntil(log[..|log| - 1], provider)
  }

  /** The cooldown is the record of the provider asked for: its failures, and its pause. */
  ghost predicate Owned(s: State) {
    && s.cooldown.key == s.props.provider
    && s.cooldown.failures == Consecutive(s.log, s.props.provider)
    && s.cooldown.until == OwnUntil(s.log, s.props.provider)
  }

  /** An answer that touches the cooldown, heard when another provider than its own is asked for. */
  predicate Misheard(s: State, step: Step)
    requires Enabled(s, step)
  {
    && (step.ReadSucceeds? || step.ReadFails?)
    && s.effect.value.props.provider != s.props.provider
    && (step.ReadFails? ==> ProviderFault(s.effect.value.props.provider, step.status))
  }

  /** No answer of the run is misheard. */
  ghost predicate Timely(s: State, steps: seq<Step>)
    requires Exec(s, steps).Some?
    decreases steps
  {
    steps != [] ==> !Misheard(s, steps[0]) && Timely(After(s, steps[0]), steps[1..])
  }

  /** The cooldown is the right record in every state of the run. */
  ghost predicate AlwaysOwned(s: State, steps: seq<Step>)
    requires Exec(s, steps).Some?
    decreases steps
  {
    Owned(s) && (steps != [] ==> AlwaysOwned(After(s, steps[0]), steps[1..]))
  }

  lemma RecordAppend(log: seq<Event>, e: Event, provider: string)
    ensures Consecutive(log + [e], provider) ==
            if Resets(e, provider) then 0 else Consecutive(log, provider) + if FailureOf(e, provider) then 1 else 0
    ensures OwnUntil(log + [e], provider) ==
            if Resets(e, provider) then 0.0
            else if FailureOf(e, provider) then e.at + e.pause else OwnUntil(log, provider)
  {
    assert (log + [e])[..|log|] == log;
  }

  lemma QuietKeepsRecord(s: State, step: Step)
    requires Owned(s) && Enabled(s, step) && !step.ReadSucceeds? && !step.ReadFails?
    ensures Owned(After(s, step))
  {
    match step
    case Render(props) =>
      if s.props.provider != props.provider {
        RecordAppend(s.log, ProviderChanged, props.provider);
      }
    case RunEffect =>
      RecordAppend(s.log, ReadStarted(s.props.provider, s.now), s.props.provider);
    case _ =>
  }

  lemma SuccessKeepsRecord(s: State, value: string)
    requires Owned(s) && Enabled(s, ReadSucceeds(value))
    ensures Owned(After(s, ReadSucceeds(value))) <==> s.effect.value.props.provider == s.props.provider
  {
    RecordAppend(s.log, ReadSucceeded(s.effect.value.props.provider), s.props.provider);
  }

  lemma FailureKeepsRecord(s: State, message: string, status: int, random: real)
    requires Owned(s) && Enabled(s, ReadFails(message, status, random))
    requires ProviderFault(s.effect.value.props.provider, status)
    ensures Owned(After(s, ReadFails(message, status, random))) <==> s.effect.value.props.provider == s.props.provider
  {
    var pause := Pause(s.cooldown.failures + 1, random);
    RecordAppend(s.log, ProviderFailed(s.effect.value.props.provider, s.now, pause), s.props.provider);
  }

  /** A step spoils the record exactly if it is a misheard answer. */
  lemma StepOwnedExactly(s: State, step: Step)
    requires Owned(s) && Enabled(s, step)
    ensures Owned(After(s, step)) <==> !Misheard(s, step)
  {
    match step
    case ReadSucceeds(value) => SuccessKeepsRecord(s, value);
    case ReadFails(message, status, random) =>
      if ProviderFault(s.effect.value.props.provider, status) {
        FailureKeepsRecord(s, message, status, random);
      }
    case _ => QuietKeepsRecord(s, step);
  }

  lemma {:induction false} RunOwnedExactly(s: State, steps: seq<Step>)
    requires Owned(s) && Exec(s, steps).Some?
    ensures AlwaysOwned(s, steps) <==> Timely(s, steps)
    decreases steps
  {
    if steps != [] {
      StepOwnedExactly(s, steps[0]);
      var next := After(s, steps[0]);
      if Owned(next) {
        RunOwnedExactly(next, steps[1..]);
      } else {
        assert !AlwaysOwned(next, steps[1..]);
      }
    }
  }

  /** Over any run, the cooldown is the record of the provider asked for, throughout, if and only if
      every answer that touches it is heard while its own provider is asked for. */
  lemma RecordIsOwnExactly(props: Props, steps: seq<Step>)
    requires Exec(Init(props), steps).Some?
    ensures AlwaysOwned(Init(props), steps) <==> Timely(Init(props), steps)
  {
    RunOwnedExactly(Init(props), steps);
  }

  // ---- The invariants

  /** Nothing between i and j makes the provider's failures start anew. */
  ghost predicate NoReset(log: seq<Event>, provider: string, i: nat, j: nat)
    requires j <= |log|
  {
    forall k | i <= k < j :: !Resets(log[k], provider)
  }

  /** Every pause of the provider that is still open ends by `until`. */
  ghost predicate OpenWithin(log: seq<Event>, provider: string, until: real) {
    forall i: nat | i < |log| && FailureOf(log[i], provider) && NoReset(log, provider, i, |log|) ::
      log[i].at + log[i].pause <= until
  }

  /** Only named providers fail. */
  ghost predicate Named(log: seq<Event>) {
    forall i: nat | i < |log| && log[i].ProviderFailed? :: log[i].provider != ""
  }

  ghost predicate Waits(log: seq<Event>, i: nat, j: nat)
    requires i < j < |log|
  {
    log[i].ProviderFailed? && log[j].ReadStarted? && log[j].provider == log[i].provider
    && NoReset(log, log[i].provider, i, j) ==>
      log[i].at + log[i].pause <= log[j].at
  }

  /** No read started under a provider before the end of a pause of its own that was still open. */
  ghost predicate ReadsWait(log: seq<Event>) {
    forall i: nat, j: nat | i < j < |log| && log[j].ReadStarted? :: Waits(log, i, j)
  }

  /** The pause after a failure is that of its place in the row. */
  ghost predicate PauseInRange(log: seq<Event>, i: nat)
    requires i < |log| && log[i].ProviderFailed?
  {
    InRange(Consecutive(log[..i], log[i].provider) + 1, log[i].pause)
  }

  ghost predicate InRange(k: nat, pause: real)
    requires k >= 1
  {
    0.9 * Delay(k) <= pause <= MinReal(300000.0, 1.1 * Delay(k))
  }

  ghost predicate PausesInRange(log: seq<Event>) {
    forall i: nat | i < |log| && log[i].ProviderFailed? :: PauseInRange(log, i)
  }

  ghost predicate HistoryHolds(s: State) {
    && Owned(s)
    && OpenWithin(s.log, s.props.provider, s.cooldown.until)
    && ReadsWait(s.log) && Named(s.log)
    && PausesInRange(s.log)
  }

  /** A read under a provider is under way only while no pause is open; a timer never fires before
      the pause ends; and an up-to-date effect that sees an open pause has a timer set. */
  ghost predicate EffectSound(s: State) {
    && s.now >= 0.0
    && (s.effect.Some? ==>
          var e := s.effect.value;
          && (e.reading && e.props.provider != "" ==> s.cooldown.until <= s.now)
          && (e.reading ==> e.timer.None?)
          && (e.timer.Some? ==> e.timer.value >= s.cooldown.until && e.timer.value >= 0.0)
          && (e.props.enabled && e.props.provider != "" && e.probe == s.probe && s.cooldown.until > s.now ==>
                e.timer.Some?))
  }

  /** Data is held under the key it was fetched under, and a read under way owns the record. */
  ghost predicate DataOwned(s: State) {
    && (s.shown.data.Some? ==> s.shown.key == s.shown.data.value.under)
    && (s.effect.Some? && s.effect.value.reading ==>
          s.shown.key == KeyOf(s.effect.value.props.provider, s.effect.value.props.request))
  }

  /** What every run keeps, timely or not. */
  ghost predicate Inv(s: State) {
    EffectSound(s) && DataOwned(s)
  }

  lemma DelayTable(k: nat)
    requires k >= 1
    ensures Delay(k) == (if k == 1 then 45000.0 else if k == 2 then 90000.0 else if k == 3 then 180000.0 else 300000.0)
  {
    assert Doubled(0) == 1.0 && Doubled(1) == 2.0 && Doubled(2) == 4.0 && Doubled(3) == 8.0;
  }

  lemma PauseBounds(k: nat, random: real)
    requires k >= 1 && 0.0 <= random < 1.0
    ensures InRange(k, Pause(k, random))
  {
    DelayTable(k);
    var d := Delay(k);
    assert d * (0.9 + random * 0.2) == 0.9 * d + (random * 0.2) * d;
    assert 0.0 <= (random * 0.2) * d <= 0.2 * d;
  }

  lemma NoResetShorter(log: seq<Event>, e: Event, provider: string, i: nat, j: nat)
    requires j <= |log| && NoReset(log + [e], provider, i, j)
    ensures NoReset(log, provider, i, j)
  {
    forall k | i <= k < j
      ensures !Resets(log[k], provider)
    {
      assert (log + [e])[k] == log[k];
    }
  }

  lemma OpenAppend(log: seq<Event>, e: Event, provider: string, until: real, later: real)
    requires Resets(e, provider) || (OpenWithin(log, provider, until) && until <= later)
    requires FailureOf(e, provider) ==> e.at + e.pause <= later
    ensures OpenWithin(log + [e], provider, later)
  {
    var longer := log + [e];
    forall i: nat | i < |longer| && FailureOf(longer[i], provider) && NoReset(longer, provider, i, |longer|)
      ensures longer[i].at + longer[i].pause <= later
    {
      assert !Resets(longer[|log|], provider);
      if i < |log| {
        NoResetShorter(log, e, provider, i, |log|);
      }
    }
  }

  lemma WaitsStill(log: seq<Event>, e: Event, i: nat, j: nat)
    requires i < j < |log| && Waits(log, i, j)
    ensures Waits(log + [e], i, j)
  {
    var longer := log + [e];
    assert longer[i] == log[i] && longer[j] == log[j];
    if longer[i].ProviderFailed? && NoReset(longer, longer[i].provider, i, j) {
      NoResetShorter(log, e, longer[i].provider, i, j);
    }
  }

  lemma LastWaits(log: seq<Event>, e: Event, i: nat, until: real)
    requires i < |log| && e.ReadStarted? && Named(log)
    requires e.provider != "" ==> OpenWithin(log, e.provider, until) && until <= e.at
    ensures Waits(log + [e], i, |log|)
  {
    var longer := log + [e];
    assert longer[i] == log[i] && longer[|log|] == e;
    if log[i].ProviderFailed? && log[i].provider == e.provider && NoReset(longer, log[i].provider, i, |log|) {
      NoResetShorter(log, e, log[i].provider, i, |log|);
    }
  }

  lemma WaitAppend(log: seq<Event>, e: Event, until: real)
    requires ReadsWait(log) && Named(log)
    requires e.ReadStarted? && e.provider != "" ==> OpenWithin(log, e.provider, until) && until <= e.at
    ensures ReadsWait(log + [e])
  {
    var longer := log + [e];
    forall i: nat, j: nat | i < j < |longer| && longer[j].ReadStarted?
      ensures Waits(longer, i, j)
    {
      if j < |log| {
        assert longer[j] == log[j];
        WaitsStill(log, e, i, j);
      } else {
        LastWaits(log, e, i, until);
      }
    }
  }

  lemma RangeAt(log: seq<Event>, longer: seq<Event>, i: nat)
    requires i < |log| && log[i].ProviderFailed? && PauseInRange(log, i)
    requires |log| <= |longer| && longer[..|log|] == log
    ensures longer[i].ProviderFailed? && PauseInRange(longer, i)
  {
    assert longer[i] == longer[..|log|][i];
    assert longer[..i] == longer[..|log|][..i];
  }

  lemma RangeAppend(log: seq<Event>, e: Event)
    requires PausesInRange(log)
    requires e.ProviderFailed? ==> InRange(Consecutive(log, e.provider) + 1, e.pause)
    ensures PausesInRange(log + [e])
  {
    var longer := log + [e];
    assert longer[..|log|] == log;
    forall i: nat | i < |longer| && longer[i].ProviderFailed?
      ensures PauseInRange(longer, i)
    {
      if i < |log| {
        assert log[i] == longer[i];
        RangeAt(log, longer, i);
      }
    }
  }

  /** One more event keeps the parts of the history other than the record itself. */
  lemma HistoryAppend(log: seq<Event>, e: Event, provider: string, until: real, later: real)
    requires ReadsWait(log) && Named(log) && PausesInRange(log)
    requires Resets(e, provider) || (OpenWithin(log, provider, until) && until <= later)
    requires FailureOf(e, provider) ==> e.at + e.pause <= later
    requires e.ReadStarted? && e.provider != "" ==> e.provider == provider && until <= e.at
    requires e.ProviderFailed? ==> e.provider != "" && InRange(Consecutive(log, e.provider) + 1, e.pause)
    ensures OpenWithin(log + [e], provider, later)
    ensures ReadsWait(log + [e]) && Named(log + [e]) && PausesInRange(log + [e])
  {
    OpenAppend(log, e, provider, until, later);
    WaitAppend(log, e, until);
    RangeAppend(log, e);
  }

  lemma FailureKeepsHistory(s: State, message: string, status: int, random: real)
    requires HistoryHolds(s) && EffectSound(s) && Enabled(s, ReadFails(message, status, random))
    requires ProviderFault(s.effect.value.props.provider, status) && s.effect.value.props.provider == s.props.provider
    ensures HistoryHolds(After(s, ReadFails(message, status, random)))
  {
    var pause := Pause(s.cooldown.failures + 1, random);
    PauseBounds(s.cooldown.failures + 1, random);
    DelayTable(s.cooldown.failures + 1);
    FailureKeepsRecord(s, message, status, random);
    var e := ProviderFailed(s.props.provider, s.now, pause);
    HistoryAppend(s.log, e, s.props.provider, s.cooldown.until, s.now + pause);
  }

  lemma StartKeepsHistory(s: State)
    requires HistoryHolds(s) && Enabled(s, RunEffect)
    ensures HistoryHolds(After(s, RunEffect))
  {
    QuietKeepsRecord(s, RunEffect);
    var p := s.props.provider;
    if s.props.enabled && !(p != "" && s.cooldown.until > s.now) {
      HistoryAppend(s.log, ReadStarted(p, s.now), p, s.cooldown.until, s.cooldown.until);
    }
  }

  lemma RenderKeepsHistory(s: State, props: Props)
    requires HistoryHolds(s)
    ensures HistoryHolds(After(s, Render(props)))
  {
    QuietKeepsRecord(s, Render(props));
    if s.props.provider != props.provider {
      HistoryAppend(s.log, ProviderChanged, props.provider, 0.0, 0.0);
    }
  }

  lemma SuccessKeepsHistory(s: State, value: string)
    requires HistoryHolds(s) && Enabled(s, ReadSucceeds(value)) && s.effect.value.props.provider == s.props.provider
    ensures HistoryHolds(After(s, ReadSucceeds(value)))
  {
    SuccessKeepsRecord(s, value);
    HistoryAppend(s.log, ReadSucceeded(s.props.provider), s.props.provider, s.cooldown.until, 0.0);
  }

  lemma StepKeepsHistory(s: State, step: Step)
    requires HistoryHolds(s) && EffectSound(s) && Enabled(s, step) && !Misheard(s, step)
    ensures HistoryHolds(After(s, step))
  {
    match step
    case Tick(_) =>
    case TimerFires =>
    case Render(props) => RenderKeepsHistory(s, props);
    case RunEffect => StartKeepsHistory(s);
    case ReadSucceeds(value) => SuccessKeepsHistory(s, value);
    case ReadFails(message, status, random) =>
      if ProviderFault(s.effect.value.props.provider, status) {
        FailureKeepsHistory(s, message, status, random);
      }
  }

  lemma StepKeepsInv(s: State, step: Step)
    requires Inv(s) && Enabled(s, step)
    ensures Inv(After(s, step))
  {
  }

  lemma {:induction false} RunKeepsInv(s: State, steps: seq<Step>)
    requires Inv(s) && Exec(s, steps).Some?
    ensures Inv(Exec(s, steps).value)
    decreases steps
  {
    if steps != [] {
      StepKeepsInv(s, steps[0]);
      RunKeepsInv(After(s, steps[0]), steps[1..]);
    }
  }

  lemma {:induction false} TimelyKeepsHistory(s: State, steps: seq<Step>)
    requires HistoryHolds(s) && Inv(s) && Exec(s, steps).Some? && Timely(s, steps)
    ensures HistoryHolds(Exec(s, steps).value)
    decreases steps
  {
    if steps != [] {
      StepKeepsHistory(s, steps[0]);
      StepKeepsInv(s, steps[0]);
      TimelyKeepsHistory(After(s, steps[0]), steps[1..]);
    }
  }

  lemma StartHolds(props: Props)
    ensures HistoryHolds(Init(props)) && Inv(Init(props))
  {
  }

  // ---- What timely runs keep

  /** The circuit breaker: once a provider has failed, no read starts under it before the pause is over,
      unless it succeeded or another provider was asked for in between. */
  lemma NoReadDuringPause(props: Props, steps: seq<Step>, i: nat, j: nat)
    requires Exec(Init(props), steps).Some? && Timely(Init(props), steps)
    requires var log := Exec(Init(props), steps).value.log;
             && i < j < |log| && log[i].ProviderFailed? && log[j].ReadStarted? && log[j].provider == log[i].provider
             && NoReset(log, log[i].provider, i, j)
    ensures var log := Exec(Init(props), steps).value.log; log[i].at + log[i].pause <= log[j].at
  {
    StartHolds(props);
    TimelyKeepsHistory(Init(props), steps);
    assert Waits(Exec(Init(props), steps).value.log, i, j);
  }

  /** A provider's k-th failure in a row pauses for 45 s, 90 s, 180 s and from then on 300 s, up to a
      tenth more or less, and never for more than 300 s. */
  lemma BackoffIsCapped(props: Props, steps: seq<Step>, i: nat)
    requires Exec(Init(props), steps).Some? && Timely(Init(props), steps)
    requires var log := Exec(Init(props), steps).value.log; i < |log| && log[i].ProviderFailed?
    ensures var log := Exec(Init(props), steps).value.log;
            var k := Consecutive(log[..i], log[i].provider) + 1;
            var nominal := if k == 1 then 45000.0 else if k == 2 then 90000.0 else if k == 3 then 180000.0 else 300000.0;
            0.9 * nominal <= log[i].pause <= MinReal(300000.0, 1.1 * nominal)
  {
    StartHolds(props);
    TimelyKeepsHistory(Init(props), steps);
    var log := Exec(Init(props), steps).value.log;
    assert PauseInRange(log, i);
    DelayTable(Consecutive(log[..i], log[i].provider) + 1);
  }

  // ---- What a misheard answer does

  lemma ExecStep(s: State, step: Step, steps: seq<Step>)
    requires Enabled(s, step)
    ensures Exec(s, [step] + steps) == Exec(After(s, step), steps)
  {
    assert ([step] + steps)[1..] == steps;
  }

  /** What may follow a misheard success: the new provider is read and fails, its page renders again,
      and its effect runs again. */
  function Relapse(s: State, message: string, random: real): seq<Step> {
    var next := s.props.(revision := s.props.revision + 1);
    [RunEffect] + ([ReadFails(message, 503, random)] + ([Render(next)] + [RunEffect]))
  }

  lemma ExecTimely(s: State, step: Step, steps: seq<Step>)
    requires Enabled(s, step) && !Misheard(s, step) && Exec(After(s, step), steps).Some? && Timely(After(s, step), steps)
    ensures Exec(s, [step] + steps) == Exec(After(s, step), steps) && Timely(s, [step] + steps)
  {
    ExecStep(s, step, steps);
    assert ([step] + steps)[1..] == steps;
  }

  lemma RelapseStates(s: State, message: string, random: real)
    requires s.props.enabled && s.props.provider != "" && 0.0 <= random < 1.0 && s.now >= 0.0
    requires s.cooldown.until <= s.now && s.cooldown.key != s.props.provider && s.cooldown.failures == 0
    requires s.effect.Some? && s.effect.value.props.provider != s.props.provider
    ensures Exec(s, Relapse(s, message, random)).Some? && Timely(s, Relapse(s, message, random))
    ensures var p, t := s.props.provider, Exec(s, Relapse(s, message, random)).value;
            && t.log == s.log + [ReadStarted(p, s.now)] + [ProviderFailed(p, s.now, Pause(1, random))]
                        + [ReadStarted(p, s.now)]
            && t.cooldown == Cooldown(p, 0.0, 0, "")
  {
    var next := s.props.(revision := s.props.revision + 1);
    var s1 := After(s, RunEffect);
    var s2 := After(s1, ReadFails(message, 503, random));
    var s3 := After(s2, Render(next));
    ExecTimely(s3, RunEffect, []);
    ExecTimely(s2, Render(next), [RunEffect]);
    ExecTimely(s1, ReadFails(message, 503, random), [Render(next)] + [RunEffect]);
    ExecTimely(s, RunEffect, [ReadFails(message, 503, random)] + ([Render(next)] + [RunEffect]));
  }

  /** Whenever a success is misheard while the new provider is enabled, the circuit breaker can fail
      it: without any change of provider or success, and with every answer heard in time, a read can
      start under the provider in the very moment of its failure, which is forgotten. */
  lemma MisheardSuccessForgetsPause(s: State, value: string, message: string, random: real)
    requires Inv(s) && Enabled(s, ReadSucceeds(value)) && Misheard(s, ReadSucceeds(value))
    requires s.props.enabled && s.props.provider != "" && 0.0 <= random < 1.0
    ensures var p, t := s.props.provider, After(s, ReadSucceeds(value));
            && Exec(t, Relapse(t, message, random)).Some? && Timely(t, Relapse(t, message, random))
            && var u := Exec(t, Relapse(t, message, random)).value;
            && u.log == t.log + [ReadStarted(p, s.now)] + [ProviderFailed(p, s.now, Pause(1, random))]
                        + [ReadStarted(p, s.now)]
            && Pause(1, random) >= 40500.0 && u.cooldown.failures == 0
  {
    var t := After(s, ReadSucceeds(value));
    RelapseStates(t, message, random);
    PauseBounds(1, random);
    DelayTable(1);
  }

  /** A misheard failure makes the provider asked for pay for another one's: from a right record, its
      failures are one more than its own, and its pause is not its own. */
  lemma MisheardFailureIsCharged(s: State, message: string, status: int, random: real)
    requires Owned(s) && EffectSound(s) && Enabled(s, ReadFails(message, status, random))
    requires Misheard(s, ReadFails(message, status, random))
    ensures var t := After(s, ReadFails(message, status, random));
            && t.cooldown.key == s.props.provider
            && t.cooldown.failures == Consecutive(t.log, s.props.provider) + 1
            && OwnUntil(t.log, s.props.provider) <= s.now < t.cooldown.until
  {
    var pause := Pause(s.cooldown.failures + 1, random);
    RecordAppend(s.log, ProviderFailed(s.effect.value.props.provider, s.now, pause), s.props.provider);
    PauseBounds(s.cooldown.failures + 1, random);
    DelayTable(s.cooldown.failures + 1);
  }

  // ---- Exactly when the breaker can fail

  /** No failure of the provider is still open. */
  ghost predicate NoneOpen(log: seq<Event>, provider: string) {
    forall i: nat | i < |log| && FailureOf(log[i], provider) :: !NoReset(log, provider, i, |log|)
  }

  /** What the circuit breaker needs: the open pauses are known, or nothing can start a read. */
  ghost predicate Breaker(s: State) {
    var p := s.props.provider;
    && ReadsWait(s.log) && Named(s.log)
    && (s.cooldown.key == p ==> OpenWithin(s.log, p, s.cooldown.until))
    && (s.cooldown.key != p ==>
          && (!s.props.enabled || p == "") && NoneOpen(s.log, p)
          && (s.effect.Some? && s.effect.value.reading && s.effect.value.props.provider == p ==> p == ""))
  }

  /** An effect left over from another provider has not heard the new one fail. */
  ghost predicate Unheard(s: State) {
    s.effect.Some? && s.effect.value.props.provider != s.props.provider ==> NoneOpen(s.log, s.props.provider)
  }

  lemma NoneOpenAppend(log: seq<Event>, e: Event, provider: string)
    requires Resets(e, provider) || (NoneOpen(log, provider) && !FailureOf(e, provider))
    ensures NoneOpen(log + [e], provider)
  {
    var longer := log + [e];
    forall i: nat | i < |longer| && FailureOf(longer[i], provider)
      ensures !NoReset(longer, provider, i, |longer|)
    {
      if NoReset(longer, provider, i, |longer|) {
        assert !Resets(longer[|log|], provider);
        NoResetShorter(log, e, provider, i, |log|);
      }
    }
  }

  lemma RenderKeepsBreaker(s: State, props: Props)
    requires Breaker(s)
    ensures Breaker(After(s, Render(props)))
  {
    if s.props.provider != props.provider {
      OpenAppend(s.log, ProviderChanged, props.provider, 0.0, After(s, Render(props)).cooldown.until);
      WaitAppend(s.log, ProviderChanged, 0.0);
    }
  }

  lemma StartKeepsBreaker(s: State)
    requires Breaker(s) && Enabled(s, RunEffect)
    ensures Breaker(After(s, RunEffect))
  {
    var p := s.props.provider;
    if s.props.enabled && !(p != "" && s.cooldown.until > s.now) {
      var e := ReadStarted(p, s.now);
      WaitAppend(s.log, e, s.cooldown.until);
      if s.cooldown.key == p {
        OpenAppend(s.log, e, p, s.cooldown.until, s.cooldown.until);
      } else {
        NoneOpenAppend(s.log, e, p);
      }
    }
  }

  /** An answer heard in time; or any failure at all, as long as the record is keyed to the provider. */
  lemma AnswerKeepsBreaker(s: State, step: Step)
    requires Breaker(s) && EffectSound(s) && Enabled(s, step) && (step.ReadSucceeds? || step.ReadFails?)
    requires !Misheard(s, step) || (step.ReadFails? && s.cooldown.key == s.props.provider)
    ensures Breaker(After(s, step))
  {
    var p, own := s.props.provider, s.effect.value.props.provider;
    if step.ReadSucceeds? {
      OpenAppend(s.log, ReadSucceeded(own), p, 0.0, 0.0);
      WaitAppend(s.log, ReadSucceeded(own), 0.0);
    } else if ProviderFault(own, step.status) {
      var pause := Pause(s.cooldown.failures + 1, step.random);
      PauseBounds(s.cooldown.failures + 1, step.random);
      DelayTable(s.cooldown.failures + 1);
      OpenAppend(s.log, ProviderFailed(own, s.now, pause), p, s.cooldown.until, s.now + pause);
      WaitAppend(s.log, ProviderFailed(own, s.now, pause), 0.0);
    }
  }

  lemma StepKeepsBreaker(s: State, step: Step)
    requires Breaker(s) && EffectSound(s) && Enabled(s, step) && !Misheard(s, step)
    ensures Breaker(After(s, step))
  {
    match step
    case Render(props) => RenderKeepsBreaker(s, props);
    case RunEffect => StartKeepsBreaker(s);
    case ReadSucceeds(_) => AnswerKeepsBreaker(s, step);
    case ReadFails(_, _, _) => AnswerKeepsBreaker(s, step);
    case _ =>
  }

  lemma {:induction false} TimelyKeepsBreaker(s: State, steps: seq<Step>)
    requires Breaker(s) && Inv(s) && Exec(s, steps).Some? && Timely(s, steps)
    ensures Breaker(Exec(s, steps).value)
    decreases steps
  {
    if steps != [] {
      StepKeepsBreaker(s, steps[0]);
      StepKeepsInv(s, steps[0]);
      TimelyKeepsBreaker(After(s, steps[0]), steps[1..]);
    }
  }

  lemma StepKeepsUnheard(s: State, step: Step)
    requires Unheard(s) && Enabled(s, step) && !Misheard(s, step)
    ensures Unheard(After(s, step))
  {
    if step.Render? && s.props.provider != step.props.provider {
      NoneOpenAppend(s.log, ProviderChanged, step.props.provider);
    }
  }

  lemma {:induction false} TimelyKeepsUnheard(s: State, steps: seq<Step>)
    requires Unheard(s) && Exec(s, steps).Some? && Timely(s, steps)
    ensures Unheard(Exec(s, steps).value)
    decreases steps
  {
    if steps != [] {
      StepKeepsUnheard(s, steps[0]);
      TimelyKeepsUnheard(After(s, steps[0]), steps[1..]);
    }
  }

  /** A misheard success that lets the next effect read without a record of its provider. */
  predicate Forgets(s: State, step: Step)
    requires Enabled(s, step)
  {
    step.ReadSucceeds? && Misheard(s, step) && s.props.enabled && s.props.provider != ""
  }

  lemma UnforgottenKeepsBreaker(s: State, step: Step)
    requires HistoryHolds(s) && EffectSound(s) && Unheard(s) && Enabled(s, step) && !Forgets(s, step)
    ensures Breaker(After(s, step))
  {
    if !Misheard(s, step) {
      StepKeepsBreaker(s, step);
    } else if step.ReadFails? {
      AnswerKeepsBreaker(s, step);
    } else {
      NoneOpenAppend(s.log, ReadSucceeded(s.effect.value.props.provider), s.props.provider);
      WaitAppend(s.log, ReadSucceeded(s.effect.value.props.provider), 0.0);
    }
  }

  /** Such a step is two steps away: a read is under way, and another provider is rendered. */
  lemma ForgettingHappens(a: string, b: string, request: string, value: string)
    requires a != b && b != ""
    ensures var early, late := Props(request, a, true, 0), Props(request, b, true, 0);
            var steps := [RunEffect] + [Render(late)];
            && Exec(Init(early), steps).Some? && Timely(Init(early), steps)
            && var s := Exec(Init(early), steps).value;
            && Enabled(s, ReadSucceeds(value)) && Forgets(s, ReadSucceeds(value))
  {
    var early, late := Props(request, a, true, 0), Props(request, b, true, 0);
    ExecTimely(After(Init(early), RunEffect), Render(late), []);
    ExecTimely(Init(early), RunEffect, [Render(late)]);
  }

  /** From now on, as long as answers are heard in time, no read starts during a pause. */
  ghost predicate BreakerHolds(s: State) {
    forall steps | Exec(s, steps).Some? && Timely(s, steps) :: ReadsWait(Exec(s, steps).value.log)
  }

  lemma ForgottenBreaks(s: State, step: Step)
    requires Inv(s) && Enabled(s, step) && Forgets(s, step)
    ensures !BreakerHolds(After(s, step))
  {
    var t := After(s, step);
    MisheardSuccessForgetsPause(s, step.value, "", 0.0);
    var log := Exec(t, Relapse(t, "", 0.0)).value.log;
    var i := |t.log| + 1;
    assert log[i] == ProviderFailed(s.props.provider, s.now, Pause(1, 0.0));
    assert log[i + 1] == ReadStarted(s.props.provider, s.now);
    assert !Waits(log, i, i + 1);
  }

  /** After any run whose answers were heard in time, one more step, whatever it is, leaves the circuit
      breaker intact if and only if it is not a success heard under another, enabled provider. */
  lemma BreakerHoldsExactly(props: Props, steps: seq<Step>, step: Step)
    requires Exec(Init(props), steps).Some? && Timely(Init(props), steps)
    requires Enabled(Exec(Init(props), steps).value, step)
    ensures var s := Exec(Init(props), steps).value; BreakerHolds(After(s, step)) <==> !Forgets(s, step)
  {
    var s := Exec(Init(props), steps).value;
    StartHolds(props);
    TimelyKeepsHistory(Init(props), steps);
    RunKeepsInv(Init(props), steps);
    TimelyKeepsUnheard(Init(props), steps);
    if Forgets(s, step) {
      ForgottenBreaks(s, step);
    } else {
      UnforgottenKeepsBreaker(s, step);
      StepKeepsInv(s, step);
      var t := After(s, step);
      forall more | Exec(t, more).Some? && Timely(t, more)
        ensures ReadsWait(Exec(t, more).value.log)
      {
        TimelyKeepsBreaker(t, more);
      }
    }
  }

  // ---- What every run keeps

  /** Whatever is displayed was fetched under the key now asked for, even between a change of key and
      the effect that follows it. */
  lemma DisplayedIsOwned(props: Props, steps: seq<Step>)
    requires Exec(Init(props), steps).Some?
    ensures var s := Exec(Init(props), steps).value;
            var key := KeyOf(s.props.provider, s.props.request);
            Displayed(s).key == key && (Displayed(s).data.Some? ==> Displayed(s).data.value.under == key)
  {
    RunKeepsInv(Init(props), steps);
  }

  /** A pause ends in a read: while the hook is enabled and paused with its effect up to date, a timer
      is set for no earlier than the end of the pause, and when it fires the next effect reads. */
  lemma PauseEndsInRead(props: Props, steps: seq<Step>, elapsed: real)
    requires Exec(Init(props), steps).Some?
    requires var s := Exec(Init(props), steps).value; s.props.enabled && Paused(s) && !Enabled(s, RunEffect)
    ensures var s := Exec(Init(props), steps).value;
            s.effect.value.timer.Some? && s.cooldown.until <= s.effect.value.timer.value
    ensures var s := Exec(Init(props), steps).value;
            s.effect.value.timer.value <= s.now + elapsed ==>
              && Enabled(s, Tick(elapsed)) && Enabled(After(s, Tick(elapsed)), TimerFires)
              && var fired := After(After(s, Tick(elapsed)), TimerFires);
              && Enabled(fired, RunEffect)
              && After(fired, RunEffect).log == s.log + [ReadStarted(s.props.provider, s.now + elapsed)]
  {
    RunKeepsInv(Init(props), steps);
  }

  // ---- The hook's refs and state

  class Hook {
    var now: real
    var props: Props
    var probe: nat
    var cooldown: Cooldown
    var shown: Shown
    var effect: Option<Effect>
    ghost var log: seq<Event>

    constructor (props: Props)
      ensures S() == Init(props)
    {
      now, this.props, probe, effect, log := 0.0, props, 0, None, [];
      cooldown := Cooldown(props.provider, 0.0, 0, "");
      shown := Shown(Plain(""), None, None, false);
    }

    ghost function S(): State
      reads this
    {
      State(now, props, probe, cooldown, shown, effect, log)
    }

    method Render(next: Props) returns (displayed: Shown, paused: bool)
      modifies this`props, this`cooldown, this`log
      ensures S() == After(old(S()), Step.Render(next))
      ensures displayed == Displayed(S()) && paused == Paused(S())
    {
      if props.provider != next.provider {
        log := log + [ProviderChanged];
      }
      props := next;
      if cooldown.key != next.provider {
        cooldown := Cooldown(next.provider, 0.0, 0, "");
      }
      var key := KeyOf(next.provider, next.request);
      displayed := if shown.key == key then shown else Shown(key, None, None, next.enabled);
      paused := next.provider != "" && cooldown.until > now;
    }

    method RunEffect()
      requires Enabled(S(), Step.RunEffect)
      modifies this`effect, this`shown, this`log
      ensures S() == After(old(S()), Step.RunEffect)
    {
      effect := Some(Effect(props, probe, false, None));
      if !props.enabled {
        return;
      }
      var key := KeyOf(props.provider, props.request);
      var kept := if shown.key == key then shown.data else None;
      if props.provider != "" && cooldown.until > now {
        shown := Shown(key, kept, Some(cooldown.error), false);
        WaitForRecovery();
        return;
      }
      shown := Shown(key, kept, None, true);
      effect := Some(effect.value.(reading := true));
      log := log + [ReadStarted(props.provider, now)];
    }

    method WaitForRecovery()
      requires effect.Some?
      modifies this`effect
      ensures effect == Some(old(effect.value).(timer := Some(RecoveryTime(now, cooldown.until))))
    {
      effect := Some(effect.value.(timer := Some(now + MaxReal(1.0, cooldown.until - now))));
    }

    method Succeeded(value: string)
      requires Enabled(S(), ReadSucceeds(value))
      modifies this`cooldown, this`shown, this`effect, this`log
      ensures S() == After(old(S()), ReadSucceeds(value))
    {
      var p := effect.value.props;
      var key := KeyOf(p.provider, p.request);
      cooldown := Cooldown(p.provider, 0.0, 0, "");
      shown := Shown(key, Some(Data(value, key)), None, false);
      effect := Some(effect.value.(reading := false));
      log := log + [ReadSucceeded(p.provider)];
    }

    method Failed(message: string, status: int, random: real)
      requires Enabled(S(), ReadFails(message, status, random))
      modifies this`cooldown, this`shown, this`effect, this`log
      ensures S() == After(old(S()), ReadFails(message, status, random))
    {
      effect := Some(effect.value.(reading := false));
      if effect.value.props.provider != "" && (status == 0 || status >= 500) {
        cooldown := cooldown.(failures := cooldown.failures + 1);
        var pause := Pause(cooldown.failures, random);
        cooldown := cooldown.(until := now + pause);
        cooldown := cooldown.(error := message);
        WaitForRecovery();
        log := log + [ProviderFailed(effect.value.props.provider, now, pause)];
      }
      shown := shown.(error := Some(message), loading := false);
    }

    method Perform(step: Step)
      requires Enabled(S(), step)
      modifies this
      ensures S() == After(old(S()), step)
    {
      match step {
        case Tick(elapsed) => now := now + elapsed;
        case Render(next) => var _, _ := Render(next);
        case RunEffect => RunEffect();
        case ReadSucceeds(value) => Succeeded(value);
        case ReadFails(message, status, random) => Failed(message, status, random);
        case TimerFires =>
          probe := probe + 1;
          effect := Some(effect.value.(timer := None));
      }
    }

    /** Any interleaving: the object goes through exactly the states of the run. */
    method Play(steps: seq<Step>)
      requires Exec(S(), steps).Some?
      modifies this
      ensures S() == Exec(old(S()), steps).value
    {
      for k := 0 to |steps|
        invariant Exec(S(), steps[k..]) == Exec(old(S()), steps)
      {
        assert steps[k..][0] == steps[k] && steps[k..][1..] == steps[k + 1..];
        Perform(steps[k]);
      }
    }
  }
}
