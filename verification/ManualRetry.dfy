/** `manual_retry`: the task of a delivery is rewritten and handed off under the same id. */
module ManualRetry {
  import opened RetryValues
  import opened RetryLineage
  import StatusMeta

  datatype Field =
    | TaskId | CorrelationId | TaskType | Service | Payload | Priority | SpecVersion | CreatedAt | Extra(name: string)

  datatype Data = Nothing | Number(n: int) | Text(text: string) | Dict(entries: map<string, Data>)

  type Task = map<Field, Data>

  const RESERVED_FIELDS: set<Field> :=
    {TaskId, CorrelationId, TaskType, Service, Payload, Priority, SpecVersion, CreatedAt}

  /** What the envelope model makes of raw fields: the fields it writes out, or a validation error. */
  type Validator = Task -> Option<Task>

  datatype Rejection =
    | BothPayloads | NotATaskContext | EmptyTaskType | ReservedFields(names: set<Field>) | InvalidTask

  datatype Outcome = Rejected(why: Rejection) | HandedOff

  datatype Change = Change(
    taskType: Option<string>, payload: Option<map<string, Data>>, payloadMerge: Option<map<string, Data>>,
    service: Option<string>, correlationId: Option<string>, priority: Option<int>, reason: Option<string>,
    message: Option<string>, meta: Option<StatusMeta.Meta>, headers: Option<Headers>, extraFields: Option<Task>)

  datatype Request = Request(task: Task, headers: Headers, statusMessage: string, statusMeta: StatusMeta.Meta)

  /** What the status event of a handoff says. */
  function MessageOf(change: Change): string {
    if Given(change.message) then change.message.value
    else if Given(change.reason) then change.reason.value
    else "Task handed off for manual retry."
  }

  /** `str(task.get("task_type") or "").strip() or None` */
  function TypeOf(strip: Stripper, task: Task): Option<string> {
    if TaskType in task && task[TaskType].Text? && strip(task[TaskType].text) != ""
    then Some(strip(task[TaskType].text)) else None
  }

  function EntriesOf(task: Task): map<string, Data> {
    if Payload in task && task[Payload].Dict? then task[Payload].entries else map[]
  }

  function Put(task: Task, field: Field, data: Option<Data>): Task {
    if data.Some? then task[field := data.value] else task
  }

  function Look(task: Task, field: Field): Option<Data> {
    if field in task then Some(task[field]) else None
  }

  class TaskContext {
    const rawPayload: Task
    const taskId: string
    const correlationId: Option<string>
    const consumerName: string
    const headers: Headers
    const isTaskContext: bool
    const strip: Stripper
    const manualRetryCount: nat
    var request: Option<Request>

    /** A task consumer builds the context of a delivery from its headers. */
    constructor (parse: IntParser, headers: Headers, rawPayload: Task, taskId: string, correlationId: Option<string>,
                 consumerName: string, isTaskContext: bool, strip: Stripper)
      ensures Reads(parse) && request == None && this.headers == headers && this.rawPayload == rawPayload
      ensures this.taskId == taskId && this.correlationId == correlationId && this.consumerName == consumerName
      ensures this.isTaskContext == isTaskContext && this.strip == strip
    {
      this.headers, this.rawPayload, this.taskId, this.correlationId := headers, rawPayload, taskId, correlationId;
      this.consumerName, this.isTaskContext, this.strip := consumerName, isTaskContext, strip;
      manualRetryCount := ManualRetryCount(parse, headers);
      request := None;
    }

    predicate Reads(parse: IntParser) {
      manualRetryCount == ManualRetryCount(parse, headers)
    }

    predicate BlankType(change: Change) {
      change.taskType.Some? && strip(change.taskType.value) == ""
    }

    /** The extra fields that the envelope itself knows. */
    function Reserved(change: Change): set<Field> {
      if change.extraFields.Some? then set field | field in change.extraFields.value && !field.Extra? else {}
    }

    /** A new task type is not blank, and extra fields keep to unreserved names. */
    predicate Acceptable(change: Change) {
      !BlankType(change) && Reserved(change) == {}
    }

    /** The fields of the handed-off task, before it is validated again. */
    method NextTask(current: Task, change: Change) returns (refused: Option<Rejection>, next: Task)
      requires !(change.payload.Some? && change.payloadMerge.Some?)
      ensures refused == if BlankType(change) then Some(EmptyTaskType)
                         else if Reserved(change) != {} then Some(ReservedFields(Reserved(change))) else None
      ensures refused.None? ==> next == Rewritten(current, change)
    {
      next := current[TaskId := Text(taskId)];
      next := next[CorrelationId := Correlation(current, change)];
      if change.priority.Some? {
        next := next[Priority := Number(change.priority.value)];
      }
      if change.taskType.Some? {
        var resolved := strip(change.taskType.value);
        if resolved == "" {
          return Some(EmptyTaskType), next;
        }
        next := next[TaskType := Text(resolved)];
      }
      if change.service.Some? {
        next := next[Service := Text(change.service.value)];
      }
      if change.payload.Some? {
        next := next[Payload := Dict(change.payload.value)];
      } else if change.payloadMerge.Some? {
        next := next[Payload := Dict(EntriesOf(next) + change.payloadMerge.value)];
      }
      if change.extraFields.Some? {
        var conflicting := set field | field in change.extraFields.value && field in RESERVED_FIELDS;
        assert conflicting == Reserved(change);
        if conflicting != {} {
          return Some(ReservedFields(conflicting)), next;
        }
        next := next + change.extraFields.value;
      }
      refused := None;
    }

    function Renamed(current: Task, change: Change): Task {
      var next := current[TaskId := Text(taskId)][CorrelationId := Correlation(current, change)];
      var next := Put(next, Priority, if change.priority.Some? then Some(Number(change.priority.value)) else None);
      var next := Put(next, TaskType, if change.taskType.Some? then Some(Text(strip(change.taskType.value))) else None);
      Put(next, Service, if change.service.Some? then Some(Text(change.service.value)) else None)
    }

    function Rewritten(current: Task, change: Change): Task {
      var next := Renamed(current, change);
      var next := Put(next, Payload,
        if change.payload.Some? then Some(Dict(change.payload.value))
        else if change.payloadMerge.Some? then Some(Dict(EntriesOf(next) + change.payloadMerge.value)) else None);
      if change.extraFields.Some? then next + change.extraFields.value else next
    }

    lemma RenamedSays(current: Task, change: Change, field: Field)
      ensures Look(Renamed(current, change), field) ==
              if field.Payload? || field.Extra? then Look(current, field) else FieldAfter(current, change, field)
    {
    }

    /** A handed-off task keeps this task's id, takes what the change names, and keeps every other
        field as it was. */
    lemma RewrittenSays(current: Task, change: Change, field: Field)
      requires Acceptable(change)
      ensures Look(Rewritten(current, change), field) == FieldAfter(current, change, field)
    {
      RenamedSays(current, change, field);
      RenamedSays(current, change, Payload);
      assert change.extraFields.Some? && field in change.extraFields.value ==> field.Extra? || field in Reserved(change);
    }

    /** Entry by entry: a merged payload holds what the merge names, and every other entry of the old
        payload, if that was a mapping. */
    lemma MergedPayloadSays(current: Task, change: Change, name: string)
      requires Acceptable(change) && change.payload.None? && change.payloadMerge.Some?
      ensures var next := Rewritten(current, change);
              && Payload in next && next[Payload].Dict?
              && var entries, merge := next[Payload].entries, change.payloadMerge.value;
              if name in merge then name in entries && entries[name] == merge[name]
              else if Payload in current && current[Payload].Dict? && name in current[Payload].entries then
                name in entries && entries[name] == current[Payload].entries[name]
              else name !in entries
    {
      RewrittenSays(current, change, Payload);
    }

    /** The type of the task before the handoff, without white space around it, if it says something. */
    ghost predicate WasOfType(current: Task, previous: Option<string>) {
      match previous
      case Some(name) =>
        name != "" && TaskType in current && current[TaskType].Text? && strip(current[TaskType].text) == name
      case None => TaskType in current && current[TaskType].Text? ==> strip(current[TaskType].text) == ""
    }

    /** What a request says to the reader of its status event: this context, one handoff further. */
    predicate Announces(previous: Option<string>, change: Change, request: Request, parse: IntParser,
                        show: StatusMeta.Show) {
      var own := StatusMeta.Own(StatusMeta.OrNothing(change.meta));
      var reading := StatusMeta.MetaFromStatus(parse, show, request.statusMeta);
      && (change.message.Some? && change.message.value != "" ==> request.statusMessage == change.message.value)
      && (!Given(change.message) && change.reason.Some? && change.reason.value != "" ==>
            request.statusMessage == change.reason.value)
      && (!Given(change.message) && !Given(change.reason) ==>
            request.statusMessage == "Task handed off for manual retry.")
      && reading.count == (if StatusMeta.N in own then StatusMeta.CoerceNonNegative(parse, own[StatusMeta.N], 0)
                           else manualRetryCount + 1)
      && reading.previousType == StatusMeta.OwnOr(show, own, StatusMeta.PREVIOUS_TYPE, previous)
      && reading.source == StatusMeta.StringOrNone(
                             show, if StatusMeta.SOURCE in own then own[StatusMeta.SOURCE] else Str(consumerName))
      && reading.reason == StatusMeta.OwnOr(show, own, StatusMeta.WHY, change.reason)
    }

    /** The headers of a handoff are those of the next step of the chain. */
    method NextHeaders(current: Task, change: Change, ghost parse: IntParser) returns (forwarded: Headers)
      requires Reads(parse)
      ensures forwarded == Next(parse, headers, Handoff(
                TypeOf(strip, current), consumerName, change.reason, taskId, OrEmpty(change.headers)))
    {
      forwarded := HandoffHeaders(headers, manualRetryCount + 1, TypeOf(strip, current), consumerName, change.reason,
                                  taskId, change.headers, parse);
      ghost var step := Handoff(TypeOf(strip, current), consumerName, change.reason, taskId, OrEmpty(change.headers));
      forall key
        ensures Get(forwarded, key) == Get(Next(parse, headers, step), key)
      {
        StepEffect(parse, headers, step, key);
      }
      SameHeaders(forwarded, Next(parse, headers, step));
    }

    /** `manual_retry`. A refusal says why, and leaves no request behind. A handoff's headers are those
        of the next step of the chain, its task keeps this task's id, takes what the change names, and
        keeps every other field, and its status event announces it. */
    method ManualRetry(change: Change, validate: Validator, ghost parse: IntParser, ghost show: StatusMeta.Show)
      returns (r: Outcome, ghost previous: Option<string>)
      requires Reads(parse)
      modifies this
      ensures r == Rejected(BothPayloads) <==> change.payload.Some? && change.payloadMerge.Some?
      ensures r == Rejected(NotATaskContext) <==>
                && !(change.payload.Some? && change.payloadMerge.Some?)
                && !(isTaskContext && validate(rawPayload).Some?)
      ensures r == Rejected(EmptyTaskType) <==>
                && !(change.payload.Some? && change.payloadMerge.Some?)
                && isTaskContext && validate(rawPayload).Some? && BlankType(change)
      ensures (exists names :: r == Rejected(ReservedFields(names))) <==>
                && !(change.payload.Some? && change.payloadMerge.Some?)
                && isTaskContext && validate(rawPayload).Some? && !BlankType(change) && Reserved(change) != {}
      ensures r.Rejected? && r.why.ReservedFields? ==> r.why.names == Reserved(change)
      ensures r.Rejected? ==> request == old(request)
      ensures r.HandedOff? <==>
                && !(change.payload.Some? && change.payloadMerge.Some?)
                && isTaskContext && validate(rawPayload).Some? && Acceptable(change)
                && validate(Rewritten(validate(rawPayload).value, change)).Some?
      ensures r.HandedOff? ==>
                && request.Some? && WasOfType(validate(rawPayload).value, previous)
                && request.value.headers == Next(parse, headers, Handoff(
                     previous, consumerName, change.reason, taskId, OrEmpty(change.headers)))
                && validate(Rewritten(validate(rawPayload).value, change)) == Some(request.value.task)
                && Announces(previous, change, request.value, parse, show)
    {
      if change.payload.Some? && change.payloadMerge.Some? {
        return Rejected(BothPayloads), None;
      }
      if !isTaskContext {
        return Rejected(NotATaskContext), None;
      }
      var validated := validate(rawPayload);
      if validated.None? {
        return Rejected(NotATaskContext), None;
      }
      var current := validated.value;
      var refused, next := NextTask(current, change);
      if refused.Some? {
        return Rejected(refused.value), None;
      }
      var prepared := validate(next);
      if prepared.None? {
        return Rejected(InvalidTask), None;
      }
      var forwarded := NextHeaders(current, change, parse);
      var meta := StatusMeta.HandoffMeta(
        manualRetryCount + 1, TypeOf(strip, current), consumerName, change.reason, TypeOf(strip, prepared.value),
        change.meta, parse, show);
      request := Some(Request(prepared.value, forwarded, MessageOf(change), meta));
      return HandedOff, TypeOf(strip, current);
    }

    /** The first of the given, the context's and the task's own correlation id that says something. */
    function Correlation(current: Task, change: Change): Data {
      if Given(change.correlationId) then Text(change.correlationId.value)
      else if Given(correlationId) then Text(correlationId.value)
      else if CorrelationId in current then current[CorrelationId] else Nothing
    }

    /** What the handed-off task says in one field. */
    function FieldAfter(current: Task, change: Change, field: Field): Option<Data> {
      var kept := if field in current then Some(current[field]) else None;
      match field
      case TaskId => Some(Text(taskId))
      case CorrelationId =>
        if change.correlationId.Some? && change.correlationId.value != "" then Some(Text(change.correlationId.value))
        else if correlationId.Some? && correlationId.value != "" then Some(Text(correlationId.value))
        else if kept.Some? then kept else Some(Nothing)
      case Priority => if change.priority.Some? then Some(Number(change.priority.value)) else kept
      case TaskType => if change.taskType.Some? then Some(Text(strip(change.taskType.value))) else kept
      case Service => if change.service.Some? then Some(Text(change.service.value)) else kept
      case Payload =>
        if change.payload.Some? then Some(Dict(change.payload.value))
        else if change.payloadMerge.Some? then Some(Dict(EntriesOf(current) + change.payloadMerge.value))
        else kept
      case Extra(_) =>
        if change.extraFields.Some? && field in change.extraFields.value then Some(change.extraFields.value[field])
        else kept
      case _ => kept
    }
  }
}
