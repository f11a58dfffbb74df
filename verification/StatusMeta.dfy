/** The manual-retry lineage that is merged into the metadata of a status event, and how a reader of the
    event gets it back. */
module StatusMeta {
  import opened RetryValues

  /** The names in the lineage mapping; `count` is N, the others follow the context's fields. */
  datatype Field = N | PREVIOUS_TYPE | SOURCE | WHY | TARGET_TYPE | OtherField(name: string)

  type Lineage = map<Field, Value>

  /** Python distinguishes a mapping from every other value. */
  datatype Entry = Plain(value: Value) | Mapping(fields: Lineage)

  datatype Name = MANUAL_RETRY | OtherName(name: string)

  type Meta = map<Name, Entry>

  datatype Context = Context(count: nat, previousType: Option<string>, source: Option<string>, reason: Option<string>)

  /** What a reader of a status event gets. */
  datatype Reading = Reading(count: nat, previousType: Option<string>, source: Option<string>, reason: Option<string>)

  /** How Python prints a value that is not None, stripped. */
  type Show = Value -> string

  function CoerceNonNegative(parse: IntParser, value: Value, fallback: int): nat {
    match AsInt(parse, value)
    case Some(n) => Max(0, n)
    case None => Max(0, fallback)
  }

  function FieldOr(fields: Lineage, field: Field): Value {
    if field in fields then fields[field] else Null
  }

  function StringOrNone(show: Show, value: Value): Option<string> {
    if value == Null || show(value) == "" then None else Some(show(value))
  }

  function WithField(fields: Lineage, field: Field, text: Option<string>): Lineage {
    if Given(text) then fields[field := Str(text.value)] else fields
  }

  /** A context without any lineage contributes nothing. */
  function ContextLineage(c: Context): Option<Lineage> {
    var fields := WithField(WithField(WithField(map[N := Int(c.count)], PREVIOUS_TYPE, c.previousType),
                                      SOURCE, c.source), WHY, c.reason);
    if fields.Keys == {N} && fields[N] == Int(0) then None else Some(fields)
  }

  function Merged(parse: IntParser, c: Context, meta: Meta): Meta {
    var lineage := ContextLineage(c);
    if lineage.None? then meta
    else if MANUAL_RETRY in meta && meta[MANUAL_RETRY].Mapping? then
      var fields := lineage.value + meta[MANUAL_RETRY].fields;
      meta[MANUAL_RETRY := Mapping(fields[N := Int(CoerceNonNegative(parse, FieldOr(fields, N), c.count))])]
    else meta[MANUAL_RETRY := Mapping(lineage.value)]
  }

  /** The reader on the other side. */
  function MetaFromStatus(parse: IntParser, show: Show, meta: Meta): Reading {
    if MANUAL_RETRY !in meta || meta[MANUAL_RETRY].Plain? then Reading(0, None, None, None)
    else
      var fields := meta[MANUAL_RETRY].fields;
      Reading(CoerceNonNegative(parse, FieldOr(fields, N), 0), StringOrNone(show, FieldOr(fields, PREVIOUS_TYPE)),
              StringOrNone(show, FieldOr(fields, SOURCE)), StringOrNone(show, FieldOr(fields, WHY)))
  }

  // ---- What the reader gets

  /** What the caller's own metadata says about the lineage. */
  function Own(meta: Meta): Lineage {
    if MANUAL_RETRY in meta && meta[MANUAL_RETRY].Mapping? then meta[MANUAL_RETRY].fields else map[]
  }

  function OwnOr(show: Show, own: Lineage, field: Field, fromContext: Option<string>): Option<string> {
    if field in own then StringOrNone(show, own[field])
    else if Given(fromContext) then StringOrNone(show, Str(fromContext.value)) else None
  }

  function OrNothing(meta: Option<Meta>): Meta {
    if meta.Some? then meta.value else map[]
  }

  function Entries(meta: Meta, name: Name): Option<Entry> {
    if name in meta then Some(meta[name]) else None
  }

  /** Field by field: what the caller says, and otherwise the context's lineage; a count that is no
      number falls back to the context's, and none is negative. */
  predicate ReadsBack(parse: IntParser, show: Show, c: Context, own: Lineage, reading: Reading) {
    && reading.count == (if N in own then CoerceNonNegative(parse, own[N], c.count) else c.count)
    && reading.previousType == OwnOr(show, own, PREVIOUS_TYPE, c.previousType)
    && reading.source == OwnOr(show, own, SOURCE, c.source)
    && reading.reason == OwnOr(show, own, WHY, c.reason)
  }

  lemma LineageFields(c: Context)
    ensures var lineage := ContextLineage(c);
            lineage.Some? ==>
              && N in lineage.value && lineage.value[N] == Int(c.count)
              && (PREVIOUS_TYPE in lineage.value <==> Given(c.previousType))
              && (Given(c.previousType) ==> lineage.value[PREVIOUS_TYPE] == Str(c.previousType.value))
              && (SOURCE in lineage.value <==> Given(c.source))
              && (Given(c.source) ==> lineage.value[SOURCE] == Str(c.source.value))
              && (WHY in lineage.value <==> Given(c.reason))
              && (Given(c.reason) ==> lineage.value[WHY] == Str(c.reason.value))
    ensures ContextLineage(c).None? <==> c.count == 0 && !Given(c.previousType) && !Given(c.source) && !Given(c.reason)
  {
    var one := WithField(map[N := Int(c.count)], PREVIOUS_TYPE, c.previousType);
    var two := WithField(one, SOURCE, c.source);
    var three := WithField(two, WHY, c.reason);
    assert N in three && three[N] == Int(c.count);
    assert PREVIOUS_TYPE in three <==> Given(c.previousType);
    assert SOURCE in three <==> Given(c.source);
    assert WHY in three <==> Given(c.reason);
    if !Given(c.previousType) && !Given(c.source) && !Given(c.reason) {
      assert three.Keys == {N};
    }
  }

  /** What is read back of merged metadata is the caller's word, or else the context's. */
  lemma MergeReadsBack(parse: IntParser, show: Show, c: Context, meta: Meta)
    ensures ReadsBack(parse, show, c, Own(meta), MetaFromStatus(parse, show, Merged(parse, c, meta)))
  {
    LineageFields(c);
  }

  /** The update of the metadata dictionary, and what it means: a reader gets, field by field, the
      caller's value or else the context's, and every other entry is as the caller gave it. */
  method MergeStatusMeta(parse: IntParser, c: Context, given: Option<Meta>, ghost show: Show) returns (merged: Meta)
    ensures ReadsBack(parse, show, c, Own(OrNothing(given)), MetaFromStatus(parse, show, merged))
    ensures forall name :: Entries(merged, OtherName(name)) == Entries(OrNothing(given), OtherName(name))
    ensures forall field | field in Own(OrNothing(given)) && field != N ::
              field in Own(merged) && Own(merged)[field] == Own(OrNothing(given))[field]
    ensures merged == Merged(parse, c, OrNothing(given))
  {
    merged := if given.Some? then given.value else map[];
    ghost var meta := merged;
    MergeReadsBack(parse, show, c, meta);
    var lineage := ContextLineage(c);
    if lineage.None? {
      return;
    }
    if MANUAL_RETRY in merged && merged[MANUAL_RETRY].Mapping? {
      var mergedManualRetry := lineage.value + merged[MANUAL_RETRY].fields;
      mergedManualRetry := mergedManualRetry[N := Int(CoerceNonNegative(parse, FieldOr(mergedManualRetry, N), c.count))];
      merged := merged[MANUAL_RETRY := Mapping(mergedManualRetry)];
      return;
    }
    merged := merged[MANUAL_RETRY := Mapping(lineage.value)];
  }

  /** The printing of a string that has no white space around it is that string. */
  ghost predicate PrintsPlainly(show: Show, text: Option<string>) {
    Given(text) ==> show(Str(text.value)) == text.value
  }

  function Dropped(text: Option<string>): Option<string> {
    if Given(text) then text else None
  }

  /** A caller who says nothing about the lineage leaves the reader with the context itself; one who says a
      count with that count, if it is a number, and none below zero. */
  lemma ContextReadsBack(parse: IntParser, show: Show, c: Context, meta: Meta)
    requires PrintsPlainly(show, c.previousType) && PrintsPlainly(show, c.source) && PrintsPlainly(show, c.reason)
    ensures Own(meta) == map[] ==>
              MetaFromStatus(parse, show, Merged(parse, c, meta))
              == Reading(c.count, Dropped(c.previousType), Dropped(c.source), Dropped(c.reason))
    ensures N in Own(meta) ==>
              MetaFromStatus(parse, show, Merged(parse, c, meta)).count ==
              match Own(meta)[N]
              case Int(n) => if n < 0 then 0 else n
              case Str(text) =>
                if parse(text).None? then c.count else if parse(text).value < 0 then 0 else parse(text).value
              case _ => c.count
  {
    MergeReadsBack(parse, show, c, meta);
    LineageFields(c);
  }

  /** Nothing else in the metadata changes. */
  lemma OthersUntouched(parse: IntParser, c: Context, meta: Meta, name: string)
    ensures Entries(Merged(parse, c, meta), OtherName(name)) == Entries(meta, OtherName(name))
  {
  }

  /** Merging a second time changes nothing. */
  lemma MergeIsIdempotent(parse: IntParser, c: Context, meta: Meta)
    ensures Merged(parse, c, Merged(parse, c, meta)) == Merged(parse, c, meta)
  {
    LineageFields(c);
    var once := Merged(parse, c, meta);
    var lineage := ContextLineage(c);
    if lineage.Some? {
      var fields := once[MANUAL_RETRY].fields;
      assert lineage.value.Keys <= fields.Keys;
      assert (lineage.value + fields) == fields;
      assert fields[N].Int? && fields[N].n >= 0;
      assert fields[N := fields[N]] == fields;
    }
  }

  // ---- The metadata of a handoff

  /** What a handoff itself says of the lineage; its source it always names. */
  ghost predicate Tells(fields: Lineage, field: Field, text: Option<string>) {
    if Given(text) then field in fields && fields[field] == Str(text.value) else field !in fields
  }

  method HandoffFields(count: nat, previousType: Option<string>, source: string, reason: Option<string>,
                       targetType: Option<string>)
    returns (fields: Lineage)
    ensures N in fields && fields[N] == Int(count) && SOURCE in fields && fields[SOURCE] == Str(source)
    ensures Tells(fields, PREVIOUS_TYPE, previousType) && Tells(fields, WHY, reason)
    ensures Tells(fields, TARGET_TYPE, targetType)
  {
    fields := map[N := Int(count), SOURCE := Str(source)];
    if Given(previousType) {
      fields := fields[PREVIOUS_TYPE := Str(previousType.value)];
    }
    if Given(reason) {
      fields := fields[WHY := Str(reason.value)];
    }
    if Given(targetType) {
      fields := fields[TARGET_TYPE := Str(targetType.value)];
    }
  }

  /** The metadata of the status event that announces a handoff: a reader gets the caller's value or
      else the handoff's, and the target type is there if there is one. */
  method HandoffMeta(count: nat, previousType: Option<string>, source: string, reason: Option<string>,
                     targetType: Option<string>, extra: Option<Meta>, ghost parse: IntParser, ghost show: Show)
    returns (meta: Meta)
    ensures var own, reading := Own(OrNothing(extra)), MetaFromStatus(parse, show, meta);
            && reading.count == (if N in own then CoerceNonNegative(parse, own[N], 0) else count)
            && reading.previousType == OwnOr(show, own, PREVIOUS_TYPE, previousType)
            && reading.source == StringOrNone(show, if SOURCE in own then own[SOURCE] else Str(source))
            && reading.reason == OwnOr(show, own, WHY, reason)
    ensures var own, fields := Own(OrNothing(extra)), Own(meta);
            && (forall field | field in own :: field in fields && fields[field] == own[field])
            && (TARGET_TYPE !in own && Given(targetType) ==>
                  TARGET_TYPE in fields && fields[TARGET_TYPE] == Str(targetType.value))
    ensures forall name :: Entries(meta, OtherName(name)) == Entries(OrNothing(extra), OtherName(name))
  {
    meta := if extra.Some? then extra.value else map[];
    var manualRetry := HandoffFields(count, previousType, source, reason, targetType);
    if MANUAL_RETRY in meta && meta[MANUAL_RETRY].Mapping? {
      meta := meta[MANUAL_RETRY := Mapping(manualRetry + meta[MANUAL_RETRY].fields)];
    } else {
      meta := meta[MANUAL_RETRY := Mapping(manualRetry)];
    }
  }
}
