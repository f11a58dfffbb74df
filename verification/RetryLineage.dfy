/** The header algebra that carries retry state from one delivery of a task to the next, through
    automatic retries and manual handoffs. */
module RetryLineage {
  import opened RetryValues

  /** The header names the source knows, each by its own constructor; `x-relayna-retry-attempt` is
      `ATTEMPT`, and so on through `x-relayna-manual-retry-reason`. */
  datatype Key =
    | ATTEMPT | MAX_RETRIES | SOURCE_QUEUE | FAILURE_REASON | EXCEPTION_TYPE
    | COUNT | FROM_TYPE | SOURCE_CONSUMER | REASON | TASK_ID | Other(name: string)

  type Headers = map<Key, Value>

  const AUTOMATIC: set<Key> := {ATTEMPT, MAX_RETRIES, SOURCE_QUEUE, FAILURE_REASON, EXCEPTION_TYPE}
  const MANUAL: set<Key> := {COUNT, FROM_TYPE, SOURCE_CONSUMER, REASON}
  const RESERVED: set<Key> := AUTOMATIC + MANUAL + {TASK_ID}

  // ---- Readers

  function RetryAttempt(parse: IntParser, headers: Headers): nat {
    if ATTEMPT !in headers || headers[ATTEMPT] == Null then 0 else
    match AsInt(parse, headers[ATTEMPT])
    case Some(n) => Max(0, n)
    case None => 0
  }

  function HeaderInt(parse: IntParser, headers: Headers, key: Key): Option<int> {
    if key !in headers || headers[key] == Null then None else AsInt(parse, headers[key])
  }

  function ManualRetryCount(parse: IntParser, headers: Headers): nat {
    var n := HeaderInt(parse, headers, COUNT);
    Max(0, if n.Some? then n.value else 0)
  }

  function Get(headers: Headers, key: Key): Option<Value> {
    if key in headers then Some(headers[key]) else None
  }

  /** A number that comes back as text reads as the same number. */
  lemma TextReadsAsNumber(parse: IntParser, headers: Headers, n: int, text: string)
    requires parse(text) == Some(n)
    ensures RetryAttempt(parse, headers[ATTEMPT := Str(text)]) == RetryAttempt(parse, headers[ATTEMPT := Int(n)])
            == if n < 0 then 0 else n
    ensures ManualRetryCount(parse, headers[COUNT := Str(text)]) == ManualRetryCount(parse, headers[COUNT := Int(n)])
            == if n < 0 then 0 else n
  {
  }

  // ---- Writers

  function OrNull(text: Option<string>): Value {
    if text.Some? then Str(text.value) else Null
  }

  function OrEmpty(extra: Option<Headers>): Headers {
    if extra.Some? then extra.value else map[]
  }

  /** What an automatic retry says in one header: its own five it always sets, extra headers come
      next, and everything else passes through. */
  function RetrySays(sourceQueue: string, attempt: int, maxRetries: int, reason: string, exceptionType: Option<string>,
                     extra: Headers, before: Option<Value>, key: Key): Option<Value> {
    match key
    case ATTEMPT => Some(Int(attempt))
    case MAX_RETRIES => Some(Int(maxRetries))
    case SOURCE_QUEUE => Some(Str(sourceQueue))
    case FAILURE_REASON => Some(Str(reason))
    case EXCEPTION_TYPE => Some(OrNull(exceptionType))
    case _ => if key in extra then Some(extra[key]) else before
  }

  /** What a handoff says in one header: extra headers win, its own it sets or erases, and the others
      pass through. */
  function HandoffSays(count: int, previousType: Option<string>, sourceConsumer: string, reason: Option<string>,
                       taskId: string, extra: Headers, before: Option<Value>, key: Key): Option<Value> {
    if key in extra then Some(extra[key])
    else
      match key
      case COUNT => Some(Int(count))
      case TASK_ID => Some(Str(taskId))
      case SOURCE_CONSUMER => Some(Str(sourceConsumer))
      case FROM_TYPE => if Given(previousType) then Some(Str(previousType.value)) else None
      case REASON => if Given(reason) then Some(Str(reason.value)) else None
      case Other(_) => before
      case _ => None
  }

  /** Header by header, what the next delivery of an automatic retry carries; and the attempt that its
      consumer reads back, whatever the extra headers. */
  method RetryHeaders(messageHeaders: Headers, sourceQueue: string, attempt: int, maxRetries: int, reason: string,
                      exceptionType: Option<string>, extra: Option<Headers>, ghost parse: IntParser)
    returns (headers: Headers)
    ensures forall key :: Get(headers, key) ==
              RetrySays(sourceQueue, attempt, maxRetries, reason, exceptionType, OrEmpty(extra),
                        Get(messageHeaders, key), key)
    ensures RetryAttempt(parse, headers) == Max(0, attempt)
    ensures extra.None? ==> ManualRetryCount(parse, headers) == ManualRetryCount(parse, messageHeaders)
  {
    headers := messageHeaders;
    headers := headers + OrEmpty(extra);
    headers := headers[ATTEMPT := Int(attempt)];
    headers := headers[MAX_RETRIES := Int(maxRetries)];
    headers := headers[SOURCE_QUEUE := Str(sourceQueue)];
    headers := headers[FAILURE_REASON := Str(reason)];
    headers := headers[EXCEPTION_TYPE := OrNull(exceptionType)];
  }

  /** Header by header, what a handed-off delivery carries; and what its consumer reads back: no
      attempt and the new count, unless extra headers say otherwise. */
  method HandoffHeaders(headers: Headers, count: int, previousType: Option<string>, sourceConsumer: string,
                        reason: Option<string>, taskId: string, extra: Option<Headers>, ghost parse: IntParser)
    returns (forwarded: Headers)
    ensures forall key :: Get(forwarded, key) ==
              HandoffSays(count, previousType, sourceConsumer, reason, taskId, OrEmpty(extra), Get(headers, key), key)
    ensures ATTEMPT !in OrEmpty(extra) ==> RetryAttempt(parse, forwarded) == 0
    ensures COUNT !in OrEmpty(extra) ==> ManualRetryCount(parse, forwarded) == Max(0, count)
  {
    forwarded := map key | key in headers && key !in AUTOMATIC && key !in MANUAL :: headers[key];
    forwarded := forwarded[TASK_ID := Str(taskId)];
    forwarded := forwarded[COUNT := Int(count)];
    forwarded := forwarded[SOURCE_CONSUMER := Str(sourceConsumer)];
    if Given(previousType) {
      forwarded := forwarded[FROM_TYPE := Str(previousType.value)];
    }
    if Given(reason) {
      forwarded := forwarded[REASON := Str(reason.value)];
    }
    ghost var own := forwarded;
    forwarded := forwarded + OrEmpty(extra);
    forall key
      ensures Get(forwarded, key) ==
                HandoffSays(count, previousType, sourceConsumer, reason, taskId, OrEmpty(extra), Get(headers, key), key)
    {
      assert Get(forwarded, key) == if key in OrEmpty(extra) then Some(OrEmpty(extra)[key]) else Get(own, key);
    }
    HandoffReads(parse, forwarded, count, OrEmpty(extra));
  }

  lemma HandoffReads(parse: IntParser, forwarded: Headers, count: int, extra: Headers)
    requires ATTEMPT !in extra ==> Get(forwarded, ATTEMPT) == None
    requires COUNT !in extra ==> Get(forwarded, COUNT) == Some(Int(count))
    ensures ATTEMPT !in extra ==> RetryAttempt(parse, forwarded) == 0
    ensures COUNT !in extra ==> ManualRetryCount(parse, forwarded) == Max(0, count)
  {
  }

  // ---- Chains of deliveries

  /** A delivery is followed by an automatic retry, or by a manual handoff whose count is the one
      read back from its headers, plus one. */
  datatype Step =
    | Automatic(sourceQueue: string, attempt: int, maxRetries: int, reason: string,
                exceptionType: Option<string>, extra: Headers)
    | Handoff(previousType: Option<string>, sourceConsumer: string, why: Option<string>, taskId: string, extra: Headers)

  function RetryMap(headers: Headers, step: Step): Headers
    requires step.Automatic?
  {
    (headers + step.extra)[ATTEMPT := Int(step.attempt)][MAX_RETRIES := Int(step.maxRetries)]
      [SOURCE_QUEUE := Str(step.sourceQueue)][FAILURE_REASON := Str(step.reason)]
      [EXCEPTION_TYPE := OrNull(step.exceptionType)]
  }

  function HandoffMap(headers: Headers, count: int, step: Step): Headers
    requires step.Handoff?
  {
    var kept := map key | key in headers && key !in AUTOMATIC && key !in MANUAL :: headers[key];
    var always := kept[TASK_ID := Str(step.taskId)][COUNT := Int(count)][SOURCE_CONSUMER := Str(step.sourceConsumer)];
    var typed := if Given(step.previousType) then always[FROM_TYPE := Str(step.previousType.value)] else always;
    (if Given(step.why) then typed[REASON := Str(step.why.value)] else typed) + step.extra
  }

  /** The headers of the next delivery. */
  function Next(parse: IntParser, headers: Headers, step: Step): Headers {
    if step.Automatic? then RetryMap(headers, step) else HandoffMap(headers, ManualRetryCount(parse, headers) + 1, step)
  }

  /** The headers after a chain of steps. */
  function Chain(parse: IntParser, headers: Headers, steps: seq<Step>): Headers {
    if steps == [] then headers else
    Next(parse, Chain(parse, headers, steps[..|steps| - 1]), steps[|steps| - 1])
  }

  ghost predicate Clean(steps: seq<Step>) {
    forall i | 0 <= i < |steps| :: steps[i].extra.Keys !! RESERVED
  }

  function Handoffs(steps: seq<Step>): nat {
    if steps == [] then 0 else Handoffs(steps[..|steps| - 1]) + if steps[|steps| - 1].Handoff? then 1 else 0
  }

  /** What one step does to one header, `count` being the manual count before it: it writes it,
      erases it, or leaves it alone. */
  function Effect(count: nat, before: Option<Value>, step: Step, key: Key): Option<Value> {
    match step
    case Automatic(queue, attempt, max, reason, exc, extra) =>
      RetrySays(queue, attempt, max, reason, exc, extra, before, key)
    case Handoff(previousType, consumer, why, taskId, extra) =>
      HandoffSays(count + 1, previousType, consumer, why, taskId, extra, before, key)
  }

  /** What a chain does to one header. */
  function Trace(count: nat, initial: Option<Value>, steps: seq<Step>, key: Key): Option<Value> {
    if steps == [] then initial else
    var earlier := steps[..|steps| - 1];
    Effect(count + Handoffs(earlier), Trace(count, initial, earlier, key), steps[|steps| - 1], key)
  }

  lemma CountAfterStep(parse: IntParser, headers: Headers, step: Step)
    requires step.extra.Keys !! RESERVED
    ensures ManualRetryCount(parse, Next(parse, headers, step))
         == ManualRetryCount(parse, headers) + if step.Handoff? then 1 else 0
  {
    assert COUNT !in step.extra.Keys;
  }

  /** However automatic retries and handoffs alternate, the manual count grows by exactly the number
      of handoffs. */
  lemma {:induction false} CountGrowsByHandoffs(parse: IntParser, headers: Headers, steps: seq<Step>)
    requires Clean(steps)
    ensures ManualRetryCount(parse, Chain(parse, headers, steps)) == ManualRetryCount(parse, headers) + Handoffs(steps)
  {
    if steps != [] {
      var earlier := steps[..|steps| - 1];
      CountGrowsByHandoffs(parse, headers, earlier);
      CountAfterStep(parse, Chain(parse, headers, earlier), steps[|steps| - 1]);
    }
  }

  lemma HandoffEffect(headers: Headers, count: int, step: Step, key: Key)
    requires step.Handoff?
    ensures Get(HandoffMap(headers, count, step), key) ==
            HandoffSays(count, step.previousType, step.sourceConsumer, step.why, step.taskId, step.extra,
                        Get(headers, key), key)
  {
  }

  /** One step, header by header, whatever its extra headers. */
  lemma StepEffect(parse: IntParser, headers: Headers, step: Step, key: Key)
    ensures Get(Next(parse, headers, step), key)
         == Effect(ManualRetryCount(parse, headers), Get(headers, key), step, key)
  {
    if step.Handoff? {
      HandoffEffect(headers, ManualRetryCount(parse, headers) + 1, step, key);
    }
  }

  /** Headers that say the same in every place are the same. */
  lemma SameHeaders(a: Headers, b: Headers)
    requires forall key :: Get(a, key) == Get(b, key)
    ensures a == b
  {
    forall key
      ensures key in a <==> key in b
      ensures key in a ==> a[key] == b[key]
    {
      assert Get(a, key) == Get(b, key);
    }
  }

  /** Every header after a chain is what the trace of that header says: nothing stale survives, and
      nothing is lost. */
  lemma {:induction false} ChainFollowsTrace(parse: IntParser, headers: Headers, steps: seq<Step>, key: Key)
    requires Clean(steps)
    ensures Get(Chain(parse, headers, steps), key)
         == Trace(ManualRetryCount(parse, headers), Get(headers, key), steps, key)
  {
    if steps != [] {
      var earlier, step := steps[..|steps| - 1], steps[|steps| - 1];
      ChainFollowsTrace(parse, headers, earlier, key);
      CountGrowsByHandoffs(parse, headers, earlier);
      var count := ManualRetryCount(parse, headers);
      LastStepFollows(parse, Chain(parse, headers, earlier), steps, key, count, Get(headers, key));
    }
  }

  lemma LastStepFollows(parse: IntParser, h: Headers, steps: seq<Step>, key: Key, count: nat, initial: Option<Value>)
    requires steps != [] && steps[|steps| - 1].extra.Keys !! RESERVED
    requires ManualRetryCount(parse, h) == count + Handoffs(steps[..|steps| - 1])
    requires Get(h, key) == Trace(count, initial, steps[..|steps| - 1], key)
    ensures Get(Next(parse, h, steps[|steps| - 1]), key) == Trace(count, initial, steps, key)
  {
    StepEffect(parse, h, steps[|steps| - 1], key);
  }

  /** The attempt read back is the one last written, or 0 after a handoff. */
  lemma AttemptReadsBack(parse: IntParser, headers: Headers, steps: seq<Step>)
    requires Clean(steps) && steps != []
    ensures var last := steps[|steps| - 1];
            RetryAttempt(parse, Chain(parse, headers, steps)) == if last.Automatic? then Max(0, last.attempt) else 0
  {
    ChainFollowsTrace(parse, headers, steps, ATTEMPT);
  }

  lemma {:induction false} ManualSurvivesRetries(parse: IntParser, headers: Headers, steps: seq<Step>, i: nat, key: Key)
    requires Clean(steps) && i <= |steps| && key in MANUAL + {TASK_ID}
    requires forall j | i <= j < |steps| :: steps[j].Automatic?
    ensures Get(Chain(parse, headers, steps), key) == Get(Chain(parse, headers, steps[..i]), key)
  {
    if i == |steps| {
      assert steps[..i] == steps;
    } else {
      var earlier, step := steps[..|steps| - 1], steps[|steps| - 1];
      ManualSurvivesRetries(parse, headers, earlier, i, key);
      assert earlier[..i] == steps[..i];
      RetryKeepsManual(parse, Chain(parse, headers, earlier), step, key);
    }
  }

  lemma RetryKeepsManual(parse: IntParser, headers: Headers, step: Step, key: Key)
    requires step.Automatic? && step.extra.Keys !! RESERVED && key in MANUAL + {TASK_ID}
    ensures Get(Next(parse, headers, step), key) == Get(headers, key)
  {
    assert key !in step.extra.Keys && key !in AUTOMATIC;
  }

  /** What a handoff leaves in a header of the manual lineage other than the count. */
  function HandoffLeaves(step: Step, key: Key): Option<Value>
    requires step.Handoff?
  {
    match key
    case SOURCE_CONSUMER => Some(Str(step.sourceConsumer))
    case REASON => if Given(step.why) then Some(Str(step.why.value)) else None
    case FROM_TYPE => if Given(step.previousType) then Some(Str(step.previousType.value)) else None
    case _ => Some(Str(step.taskId))
  }

  lemma HandoffLeft(parse: IntParser, headers: Headers, step: Step, key: Key)
    requires step.Handoff? && step.extra.Keys !! RESERVED && key in MANUAL + {TASK_ID} && key != COUNT
    ensures Get(Next(parse, headers, step), key) == HandoffLeaves(step, key)
  {
    StepEffect(parse, headers, step, key);
    assert key !in step.extra.Keys;
  }

  /** The manual lineage read after a chain is that of its last handoff, however many automatic
      retries have followed it: no reason, task type or source of an earlier one survives. */
  lemma {:induction false} LastHandoffSpeaks(parse: IntParser, headers: Headers, steps: seq<Step>, i: nat, key: Key)
    requires Clean(steps) && i < |steps| && steps[i].Handoff? && key in MANUAL + {TASK_ID} && key != COUNT
    requires forall j | i < j < |steps| :: steps[j].Automatic?
    ensures Get(Chain(parse, headers, steps), key) == HandoffLeaves(steps[i], key)
  {
    var upTo := steps[..i + 1];
    assert upTo[..i] == steps[..i];
    HandoffLeft(parse, Chain(parse, headers, steps[..i]), steps[i], key);
    ManualSurvivesRetries(parse, headers, steps, i + 1, key);
  }

  /** Right after a handoff nothing is left of the automatic retries before it. */
  lemma HandoffEndsRetries(parse: IntParser, headers: Headers, step: Step, key: Key)
    requires step.Handoff? && step.extra.Keys !! RESERVED && key in AUTOMATIC
    ensures key !in Next(parse, headers, step)
  {
    StepEffect(parse, headers, step, key);
  }

  /** Headers outside the reserved ones that no step sets are untouched by any chain. */
  lemma {:induction false} UnreservedUntouched(parse: IntParser, headers: Headers, steps: seq<Step>, key: Key)
    requires Clean(steps) && key !in RESERVED
    requires forall i | 0 <= i < |steps| :: key !in steps[i].extra
    ensures Get(Chain(parse, headers, steps), key) == Get(headers, key)
  {
    if steps != [] {
      var earlier, step := steps[..|steps| - 1], steps[|steps| - 1];
      UnreservedUntouched(parse, headers, earlier, key);
      var h := Chain(parse, headers, earlier);
      StepEffect(parse, h, step, key);
    }
  }

  /** A handoff counts itself exactly when its extra headers leave the count alone, or happen to say
      the same. */
  lemma HandoffCountsIff(parse: IntParser, headers: Headers, step: Step)
    requires step.Handoff?
    ensures ManualRetryCount(parse, Next(parse, headers, step)) == ManualRetryCount(parse, headers) + 1
       <==> (COUNT in step.extra ==> ManualRetryCount(parse, step.extra) == ManualRetryCount(parse, headers) + 1)
  {
  }

  /** Extra headers that say zero make a handoff uncounted. */
  lemma HandoffMayBeUncounted(parse: IntParser, headers: Headers, taskId: string, consumer: string)
    ensures var step := Handoff(None, consumer, None, taskId, map[COUNT := Int(0)]);
            ManualRetryCount(parse, Next(parse, headers, step)) == 0
  {
  }
}
