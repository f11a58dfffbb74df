/** The edit form of a service: a record becomes a draft of plain text fields, and a draft becomes the
    payload that is saved. Which records survive the round trip is stated exactly. */
module ServiceDraft {
  import opened LabelPairs

  datatype Option<+T> = None | Some(value: T)

  /** A field that the source leaves out, sets to null or sets to undefined is None. */
  type Optional = Option<string>

  datatype LogConfig = LogConfig(
    profileId: Optional, provider: string, baseUrl: string, tenantId: Optional, selector: Labels,
    sourceLabel: Optional, podLabel: Optional, podMatchMode: Optional, podValueTemplate: Optional,
    taskIdLabel: Optional, correlationIdLabel: Optional, levelLabel: Optional,
    taskMatchMode: Optional, taskMatchTemplate: Optional)

  datatype MetricsConfig = MetricsConfig(
    profileId: Optional, provider: string, baseUrl: string, namespace: string, selector: Labels,
    runtimeServiceLabelValue: Optional, namespaceLabel: string, podLabel: string, containerLabel: string,
    stepSeconds: int, taskWindowPaddingSeconds: int)

  datatype TraceConfig = TraceConfig(
    profileId: Optional, provider: string, baseUrl: string, publicBaseUrl: Optional, tenantId: Optional,
    queryPath: string)

  datatype Service = Service(
    serviceId: string, name: string, baseUrl: string, environment: string, tags: seq<string>, authMode: string,
    log: Option<LogConfig>, metrics: Option<MetricsConfig>, trace: Option<TraceConfig>)

  /** A number typed as text; what does not read as a number counts as zero. */
  datatype NumberText = Digits(value: int) | NotANumber

  datatype LogDraft = LogDraft(
    profileId: string, provider: string, baseUrl: string, tenantId: string, labelKey: string, labelValue: string,
    appLabelKey: string, selector: string, sourceLabel: string, podLabel: string, podMatchMode: string,
    podValueTemplate: string, taskIdLabel: string, correlationIdLabel: string, levelLabel: string,
    taskMatchMode: string, taskMatchTemplate: string)

  datatype MetricsDraft = MetricsDraft(
    profileId: string, provider: string, baseUrl: string, namespace: string, labelKey: string, labelValue: string,
    selector: string, runtimeServiceLabelValue: string, namespaceLabel: string, podLabel: string,
    containerLabel: string, stepSeconds: NumberText, taskWindowPaddingSeconds: NumberText)

  datatype TraceDraft = TraceDraft(
    profileId: string, provider: string, baseUrl: string, publicBaseUrl: string, tenantId: string, queryPath: string)

  datatype Draft = Draft(
    serviceId: string, name: string, baseUrl: string, environment: string, tags: string, authMode: string,
    log: LogDraft, metrics: MetricsDraft, trace: TraceDraft)

  const TRACE_PATH := "/api/traces/{trace_id}"

  // ---- From a record to a draft

  function OrElse(text: string, default: string): string {
    if text == "" then default else text
  }

  function Text(field: Optional, default: string): string {
    if field.Some? then OrElse(field.value, default) else default
  }

  datatype SplitSelector = SplitSelector(key: string, value: string, additional: string)

  function EntryOfKey(entries: seq<Entry>, key: string): (index: int)
    ensures -1 <= index < |entries|
    ensures index >= 0 ==> entries[index].key == key
    ensures index == -1 ==> forall e | e in entries :: e.key != key
  {
    if entries == [] then -1
    else if entries[0].key == key then 0
    else
      var rest := EntryOfKey(entries[1..], key);
      if rest == -1 then -1 else rest + 1
  }

  /** The entry shown in its own two fields: that of `service`, or else the first. */
  function Preferred(entries: seq<Entry>): (index: nat)
    requires entries != []
    ensures index < |entries|
  {
    var service := EntryOfKey(entries, "service");
    if service >= 0 then service else 0
  }

  function Without(entries: seq<Entry>, key: string): (others: seq<Entry>)
    ensures forall e | e in others :: e in entries && e.key != key
    ensures forall e | e in entries && e.key != key :: e in others
  {
    if entries == [] then []
    else (if entries[0].key != key then [entries[0]] else []) + Without(entries[1..], key)
  }

  function SplitServiceSelectorLabels(entries: seq<Entry>): SplitSelector {
    if entries == [] then SplitSelector("", "", "")
    else
      var preferred := entries[Preferred(entries)];
      SplitSelector(preferred.key, preferred.value, FormatLabelPairs(Without(entries, preferred.key)))
  }

  function LogToDraft(config: Option<LogConfig>, entries: seq<Entry>): LogDraft {
    var split := SplitServiceSelectorLabels(entries);
    if config.None? then
      LogDraft("", "", "", "", split.key, split.value, "", split.additional, "", "pod", "exact", "{pod}", "", "", "",
               "label", "")
    else
      var c := config.value;
      LogDraft(Text(c.profileId, ""), c.provider, c.baseUrl, Text(c.tenantId, ""), split.key, split.value,
               Text(c.sourceLabel, ""), split.additional, Text(c.sourceLabel, ""), Text(c.podLabel, "pod"),
               Text(c.podMatchMode, "exact"), Text(c.podValueTemplate, "{pod}"), Text(c.taskIdLabel, ""),
               Text(c.correlationIdLabel, ""), Text(c.levelLabel, ""), Text(c.taskMatchMode, "label"),
               Text(c.taskMatchTemplate, ""))
  }

  function Seconds(value: int, default: int): NumberText {
    Digits(if value == 0 then default else value)
  }

  function MetricsToDraft(config: Option<MetricsConfig>, entries: seq<Entry>): MetricsDraft {
    var split := SplitServiceSelectorLabels(entries);
    if config.None? then
      MetricsDraft("", "", "", "", split.key, split.value, split.additional, "", "namespace", "pod", "container",
                   Digits(30), Digits(120))
    else
      var c := config.value;
      MetricsDraft(Text(c.profileId, ""), c.provider, c.baseUrl, c.namespace, split.key, split.value,
                   split.additional, Text(c.runtimeServiceLabelValue, ""), OrElse(c.namespaceLabel, "namespace"),
                   OrElse(c.podLabel, "pod"), OrElse(c.containerLabel, "container"), Seconds(c.stepSeconds, 30),
                   Seconds(c.taskWindowPaddingSeconds, 120))
  }

  function TraceToDraft(config: Option<TraceConfig>): TraceDraft {
    if config.None? then TraceDraft("", "", "", "", "", TRACE_PATH)
    else
      var c := config.value;
      TraceDraft(Text(c.profileId, ""), c.provider, c.baseUrl, Text(c.publicBaseUrl, ""), Text(c.tenantId, ""),
                 OrElse(c.queryPath, TRACE_PATH))
  }

  /** The entries of the two label records arrive in the collation's order. */
  function ServiceToDraft(s: Service, logEntries: seq<Entry>, metricsEntries: seq<Entry>): Draft {
    Draft(s.serviceId, s.name, s.baseUrl, s.environment, Join(s.tags), s.authMode,
          LogToDraft(s.log, logEntries), MetricsToDraft(s.metrics, metricsEntries), TraceToDraft(s.trace))
  }

  /** An optional text that is present is neither blank nor padded. */
  predicate Tidy(field: Optional) {
    field.Some? ==> field.value != "" && Trimmed(field.value)
  }

  // ---- From a draft to a payload

  function MergedSelector(key: string, value: string, additional: string): Labels {
    var labels := ParsedLabels(additional);
    if Trim(key) != "" && Trim(value) != "" then labels[Trim(key) := Trim(value)] else labels
  }

  function LabelOf(labels: Labels, key: string): Optional {
    if key in labels then Some(labels[key]) else None
  }

  /** The merge into the local map: the pair of fields counts if neither is blank, and then for its own
      key only; for every other key the text decides; and no label is ever blank or padded. */
  method MergeSelector(key: string, value: string, additional: string) returns (labels: Labels)
    ensures Trim(key) != "" && Trim(value) != "" ==> LabelOf(labels, Trim(key)) == Some(Trim(value))
    ensures forall other | other != Trim(key) :: LabelOf(labels, other) == LabelOf(ParsedLabels(additional), other)
    ensures forall k | k in labels :: Tidy(Some(k)) && Tidy(Some(labels[k]))
    ensures labels == MergedSelector(key, value, additional)
  {
    labels := ParseLabelPairs(additional);
    ParsedIsClean(additional);
    forall k | k in labels
      ensures Tidy(Some(k)) && Tidy(Some(labels[k]))
    {
      assert CleanEntry(Entry(k, labels[k]));
    }
    TrimTrims(key);
    TrimTrims(value);
    if Trim(key) != "" && Trim(value) != "" {
      labels := labels[Trim(key) := Trim(value)];
    }
  }

  /** `x || null` and `x || undefined`. */
  function OrNone(text: string): Optional {
    if text == "" then None else Some(text)
  }

  predicate HasLog(d: LogDraft) {
    || d.provider != "" || Trim(d.baseUrl) != "" || Trim(d.labelKey) != "" || Trim(d.labelValue) != ""
    || Trim(d.appLabelKey) != "" || Trim(d.selector) != "" || Trim(d.podLabel) != "pod"
    || d.podMatchMode != "exact" || Trim(d.podValueTemplate) != "{pod}" || Trim(d.taskIdLabel) != ""
    || Trim(d.correlationIdLabel) != "" || Trim(d.levelLabel) != "" || Trim(d.taskMatchTemplate) != ""
    || d.taskMatchMode != "label" || Trim(d.tenantId) != ""
  }

  function LogPayload(d: LogDraft): Option<LogConfig> {
    LogWith(d, MergedSelector(d.labelKey, d.labelValue, d.selector))
  }

  function LogWith(d: LogDraft, selector: Labels): Option<LogConfig> {
    if !HasLog(d) then None
    else
      Some(LogConfig(
             OrNone(d.profileId), OrElse(d.provider, "loki"), Trim(d.baseUrl), OrNone(Trim(d.tenantId)),
             selector, OrNone(Trim(d.appLabelKey)),
             Some(OrElse(Trim(d.podLabel), "pod")), Some(OrElse(d.podMatchMode, "exact")),
             Some(OrElse(Trim(d.podValueTemplate), "{pod}")), OrNone(Trim(d.taskIdLabel)),
             OrNone(Trim(d.correlationIdLabel)), OrNone(Trim(d.levelLabel)),
             Some(OrElse(d.taskMatchMode, "label")), OrNone(Trim(d.taskMatchTemplate))))
  }

  predicate HasMetrics(d: MetricsDraft) {
    || d.provider != "" || Trim(d.baseUrl) != "" || Trim(d.namespace) != "" || Trim(d.labelKey) != ""
    || Trim(d.labelValue) != "" || Trim(d.selector) != "" || Trim(d.runtimeServiceLabelValue) != ""
  }

  function NumberOr(text: NumberText, default: int): int {
    if text.NotANumber? || text.value == 0 then default else text.value
  }

  function MetricsPayload(d: MetricsDraft): Option<MetricsConfig> {
    MetricsWith(d, MergedSelector(d.labelKey, d.labelValue, d.selector))
  }

  function MetricsWith(d: MetricsDraft, selector: Labels): Option<MetricsConfig> {
    if !HasMetrics(d) then None
    else
      Some(MetricsConfig(
             OrNone(d.profileId), OrElse(d.provider, "prometheus"), Trim(d.baseUrl), Trim(d.namespace),
             selector, OrNone(Trim(d.runtimeServiceLabelValue)),
             OrElse(Trim(d.namespaceLabel), "namespace"), OrElse(Trim(d.podLabel), "pod"),
             OrElse(Trim(d.containerLabel), "container"), NumberOr(d.stepSeconds, 30),
             NumberOr(d.taskWindowPaddingSeconds, 120)))
  }

  predicate HasTrace(d: TraceDraft) {
    d.provider == "tempo"
    && (Trim(d.baseUrl) != "" || Trim(d.publicBaseUrl) != "" || Trim(d.tenantId) != "" || Trim(d.queryPath) != TRACE_PATH)
  }

  function TracePayload(d: TraceDraft): Option<TraceConfig> {
    if !HasTrace(d) then None
    else
      Some(TraceConfig(OrNone(d.profileId), OrElse(d.provider, "tempo"), Trim(d.baseUrl), OrNone(Trim(d.publicBaseUrl)),
                       OrNone(Trim(d.tenantId)), OrElse(Trim(d.queryPath), TRACE_PATH)))
  }

  function BuildServicePayload(d: Draft): Service {
    Service(Trim(d.serviceId), Trim(d.name), Trim(d.baseUrl), Trim(d.environment), Items(d.tags), Trim(d.authMode),
            LogPayload(d.log), MetricsPayload(d.metrics), TracePayload(d.trace))
  }

  // ---- Selector labels

  /** The preferred entry travels in its own fields, so it only has to be trimmed; every other one has
      to be clean. */
  ghost predicate SurvivesBeside(entries: seq<Entry>, preferred: Entry) {
    && preferred.key != "" && Trimmed(preferred.key) && preferred.value != "" && Trimmed(preferred.value)
    && forall e | e in entries && e.key != preferred.key :: CleanEntry(e)
  }

  ghost predicate SelectorSurvives(entries: seq<Entry>) {
    entries != [] ==> SurvivesBeside(entries, entries[Preferred(entries)])
  }

  lemma TrimEmpty()
    ensures Trim("") == ""
  {
  }

  ghost predicate DistinctKeys(entries: seq<Entry>) {
    forall i, j | 0 <= i < j < |entries| :: entries[i].key != entries[j].key
  }

  /** The pair of fields shows the label named `service`, or without one the first in the collation's order. */
  lemma ServiceIsShown(entries: seq<Entry>, i: nat)
    requires i < |entries| && DistinctKeys(entries)
    requires entries[i].key == "service" || (i == 0 && forall e | e in entries :: e.key != "service")
    ensures var split := SplitServiceSelectorLabels(entries);
            split.key == entries[i].key && split.value == entries[i].value
  {
    var index := EntryOfKey(entries, "service");
    assert entries[i] in entries;
    assert index >= 0 ==> entries[index] in entries;
  }

  lemma {:induction false} WithoutDistinct(entries: seq<Entry>, key: string)
    requires DistinctKeys(entries)
    ensures DistinctKeys(Without(entries, key))
    decreases |entries|
  {
    if entries != [] {
      WithoutDistinct(entries[1..], key);
      var rest := Without(entries[1..], key);
      forall k | 0 <= k < |rest|
        ensures rest[k].key != entries[0].key
      {
        assert rest[k] in entries[1..];
      }
      assert DistinctKeys([entries[0]] + rest);
    }
  }

  lemma WithoutListsKey(entries: seq<Entry>, labels: Labels, key: string, k: string)
    requires Lists(entries, labels) && k in labels && k != key
    ensures exists i :: 0 <= i < |Without(entries, key)| && Without(entries, key)[i].key == k
  {
    var i :| 0 <= i < |entries| && entries[i].key == k;
    assert entries[i] in entries;
    assert entries[i] in Without(entries, key);
  }

  lemma WithoutLists(entries: seq<Entry>, labels: Labels, key: string)
    requires Lists(entries, labels)
    ensures Lists(Without(entries, key), labels - {key})
  {
    var others, rest := Without(entries, key), labels - {key};
    WithoutDistinct(entries, key);
    forall i | 0 <= i < |others|
      ensures others[i].key in rest && rest[others[i].key] == others[i].value
    {
      assert others[i] in entries;
    }
    forall k | k in rest
      ensures exists i :: 0 <= i < |others| && others[i].key == k
    {
      WithoutListsKey(entries, labels, key, k);
    }
  }

  lemma TrimExactly(s: string)
    ensures Trim(s) == s <==> Trimmed(s)
  {
    TrimTrims(s);
  }

  lemma OthersClean(entries: seq<Entry>, labels: Labels, key: string)
    requires Lists(entries, labels) && forall e | e in entries && e.key != key :: CleanEntry(e)
    ensures CleanLabels(labels - {key})
  {
    forall k | k in labels - {key}
      ensures CleanEntry(Entry(k, labels[k]))
    {
      var i :| 0 <= i < |entries| && entries[i].key == k;
      assert entries[i] in entries && entries[i] == Entry(k, labels[k]);
    }
  }

  lemma PutBack(labels: Labels, key: string)
    requires key in labels
    ensures (labels - {key})[key := labels[key]] == labels
  {
  }

  lemma SurvivorsMerge(entries: seq<Entry>, labels: Labels, preferred: Entry)
    requires Lists(entries, labels) && preferred.key in labels && labels[preferred.key] == preferred.value
    requires SurvivesBeside(entries, preferred)
    ensures MergedSelector(preferred.key, preferred.value, FormatLabelPairs(Without(entries, preferred.key))) == labels
  {
    var text := FormatLabelPairs(Without(entries, preferred.key));
    var rest := labels - {preferred.key};
    assert ParsedLabels(text) == rest by {
      WithoutLists(entries, labels, preferred.key);
      OthersClean(entries, labels, preferred.key);
      LabelsSurviveExactly(Without(entries, preferred.key), rest);
    }
    TrimExactly(preferred.key);
    TrimExactly(preferred.value);
    PutBack(labels, preferred.key);
  }

  lemma MergedSurvive(entries: seq<Entry>, labels: Labels, parsed: Labels, preferred: Entry)
    requires Lists(entries, labels) && preferred.key in labels && labels[preferred.key] == preferred.value
    requires CleanLabels(parsed)
    requires labels == if Trim(preferred.key) != "" && Trim(preferred.value) != ""
                       then parsed[Trim(preferred.key) := Trim(preferred.value)] else parsed
    ensures SurvivesBeside(entries, preferred)
  {
    TrimExactly(preferred.key);
    TrimExactly(preferred.value);
    PreferredSurvives(labels, parsed, preferred, Trim(preferred.key), Trim(preferred.value));
    forall e | e in entries && e.key != preferred.key
      ensures CleanEntry(e)
    {
      assert labels[e.key] == e.value;
      assert e.key in parsed && parsed[e.key] == e.value;
      assert CleanEntry(Entry(e.key, parsed[e.key]));
    }
  }

  lemma PreferredSurvives(labels: Labels, parsed: Labels, preferred: Entry, key: string, value: string)
    requires preferred.key in labels && labels[preferred.key] == preferred.value && CleanLabels(parsed)
    requires labels == if key != "" && value != "" then parsed[key := value] else parsed
    requires Trimmed(preferred.key) <==> key == preferred.key
    requires Trimmed(preferred.value) <==> value == preferred.value
    ensures key == preferred.key != "" && value == preferred.value != ""
  {
    if preferred.key in parsed {
      assert CleanEntry(Entry(preferred.key, parsed[preferred.key]));
    }
  }

  /** Splitting the selector and merging it back gives the same labels exactly when it survives. */
  lemma SelectorSurvivesExactly(entries: seq<Entry>, labels: Labels)
    requires Lists(entries, labels)
    ensures var split := SplitServiceSelectorLabels(entries);
            MergedSelector(split.key, split.value, split.additional) == labels <==> SelectorSurvives(entries)
  {
    if entries == [] {
      TrimEmpty();
      assert labels == map[];
      JoinedItems([]);
    } else {
      var preferred := entries[Preferred(entries)];
      var text := FormatLabelPairs(Without(entries, preferred.key));
      if SurvivesBeside(entries, preferred) {
        SurvivorsMerge(entries, labels, preferred);
      }
      if MergedSelector(preferred.key, preferred.value, text) == labels {
        ParsedIsClean(text);
        MergedSurvive(entries, labels, ParsedLabels(text), preferred);
      }
    }
  }

  // ---- The round trip

  predicate NotEmpty(field: Optional) {
    field.Some? ==> field.value != ""
  }

  function WithDefault(field: Optional, default: string): Optional {
    if field.None? then Some(default) else field
  }

  function DefaultedLog(c: LogConfig): LogConfig {
    c.(podLabel := WithDefault(c.podLabel, "pod"),
       podMatchMode := WithDefault(c.podMatchMode, "exact"),
       podValueTemplate := WithDefault(c.podValueTemplate, "{pod}"),
       taskMatchMode := WithDefault(c.taskMatchMode, "label"))
  }

  /** The record as it comes back: an absent pod label, match mode or template is given its default. */
  function Defaulted(s: Service): Service {
    if s.log.None? then s else s.(log := Some(DefaultedLog(s.log.value)))
  }

  ghost predicate TidyLog(c: LogConfig, entries: seq<Entry>) {
    && NotEmpty(c.profileId) && c.provider != "" && Trimmed(c.baseUrl) && Tidy(c.tenantId)
    && SelectorSurvives(entries)
    && Tidy(c.sourceLabel) && Tidy(c.podLabel) && NotEmpty(c.podMatchMode) && Tidy(c.podValueTemplate)
    && Tidy(c.taskIdLabel) && Tidy(c.correlationIdLabel) && Tidy(c.levelLabel)
    && NotEmpty(c.taskMatchMode) && Tidy(c.taskMatchTemplate)
  }

  ghost predicate TidyMetrics(c: MetricsConfig, entries: seq<Entry>) {
    && NotEmpty(c.profileId) && c.provider != "" && Trimmed(c.baseUrl) && Trimmed(c.namespace)
    && SelectorSurvives(entries)
    && Tidy(c.runtimeServiceLabelValue) && Tidy(Some(c.namespaceLabel)) && Tidy(Some(c.podLabel))
    && Tidy(Some(c.containerLabel)) && c.stepSeconds != 0 && c.taskWindowPaddingSeconds != 0
  }

  /** A trace configuration that says nothing beyond its provider and the default path. */
  predicate Bare(c: TraceConfig) {
    c.baseUrl == "" && c.publicBaseUrl.None? && c.tenantId.None? && c.queryPath == TRACE_PATH
  }

  predicate TidyTrace(c: TraceConfig) {
    && NotEmpty(c.profileId) && c.provider == "tempo" && Trimmed(c.baseUrl) && Tidy(c.publicBaseUrl)
    && Tidy(c.tenantId) && Tidy(Some(c.queryPath)) && !Bare(c)
  }

  ghost predicate Lossless(s: Service, logEntries: seq<Entry>, metricsEntries: seq<Entry>) {
    && Trimmed(s.serviceId) && Trimmed(s.name) && Trimmed(s.baseUrl) && Trimmed(s.environment) && Trimmed(s.authMode)
    && (forall tag | tag in s.tags :: CleanItem(tag))
    && (s.log.Some? ==> TidyLog(s.log.value, logEntries))
    && (s.metrics.Some? ==> TidyMetrics(s.metrics.value, metricsEntries))
    && (s.trace.Some? ==> TidyTrace(s.trace.value))
  }

  function SelectorOfLog(s: Service): Labels {
    if s.log.Some? then s.log.value.selector else map[]
  }

  function SelectorOfMetrics(s: Service): Labels {
    if s.metrics.Some? then s.metrics.value.selector else map[]
  }

  /** `Text(field, "")` trimmed or dropped gives the field back exactly when it is tidy. */
  lemma OptionalExactly(field: Optional)
    ensures OrNone(Trim(Text(field, ""))) == field <==> Tidy(field)
  {
    TrimEmpty();
    TrimExactly(Text(field, ""));
  }

  lemma DefaultExactly(field: Optional, default: string)
    requires default != "" && Trimmed(default)
    ensures OrElse(Trim(Text(field, default)), default) == WithDefault(field, default).value <==> Tidy(field)
  {
    TrimExactly(Text(field, default));
    TrimExactly(default);
  }

  lemma ModeExactly(mode: Optional, default: string)
    requires default != ""
    ensures OrElse(Text(mode, default), default) == WithDefault(mode, default).value <==> NotEmpty(mode)
  {
  }

  lemma ProfileExactly(profile: Optional)
    ensures OrNone(Text(profile, "")) == profile <==> NotEmpty(profile)
  {
  }

  lemma NameExactly(name: string, default: string)
    requires default != "" && Trimmed(default)
    ensures OrElse(Trim(OrElse(name, default)), default) == name <==> Tidy(Some(name))
  {
    TrimExactly(OrElse(name, default));
    TrimExactly(default);
  }

  lemma SecondsExactly(value: int, default: int)
    requires default != 0
    ensures NumberOr(Seconds(value, default), default) == value <==> value != 0
  {
  }

  /** The optional fields of a log configuration. */
  lemma LogOptionals(c: LogConfig)
    ensures OrNone(Trim(Text(c.tenantId, ""))) == c.tenantId <==> Tidy(c.tenantId)
    ensures OrNone(Trim(Text(c.sourceLabel, ""))) == c.sourceLabel <==> Tidy(c.sourceLabel)
    ensures OrNone(Trim(Text(c.taskIdLabel, ""))) == c.taskIdLabel <==> Tidy(c.taskIdLabel)
    ensures OrNone(Trim(Text(c.correlationIdLabel, ""))) == c.correlationIdLabel <==> Tidy(c.correlationIdLabel)
    ensures OrNone(Trim(Text(c.levelLabel, ""))) == c.levelLabel <==> Tidy(c.levelLabel)
    ensures OrNone(Trim(Text(c.taskMatchTemplate, ""))) == c.taskMatchTemplate <==> Tidy(c.taskMatchTemplate)
  {
    OptionalExactly(c.tenantId);
    OptionalExactly(c.sourceLabel);
    OptionalExactly(c.taskIdLabel);
    OptionalExactly(c.correlationIdLabel);
    OptionalExactly(c.levelLabel);
    OptionalExactly(c.taskMatchTemplate);
  }

  /** What comes back of a log configuration that is there. */
  function LogReturn(c: LogConfig, selector: Labels): LogConfig {
    LogConfig(OrNone(Text(c.profileId, "")), OrElse(c.provider, "loki"), Trim(c.baseUrl),
              OrNone(Trim(Text(c.tenantId, ""))), selector, OrNone(Trim(Text(c.sourceLabel, ""))),
              Some(OrElse(Trim(Text(c.podLabel, "pod")), "pod")), Some(OrElse(Text(c.podMatchMode, "exact"), "exact")),
              Some(OrElse(Trim(Text(c.podValueTemplate, "{pod}")), "{pod}")), OrNone(Trim(Text(c.taskIdLabel, ""))),
              OrNone(Trim(Text(c.correlationIdLabel, ""))), OrNone(Trim(Text(c.levelLabel, ""))),
              Some(OrElse(Text(c.taskMatchMode, "label"), "label")), OrNone(Trim(Text(c.taskMatchTemplate, ""))))
  }

  lemma LogDefaults(c: LogConfig)
    ensures OrElse(Trim(Text(c.podLabel, "pod")), "pod") == WithDefault(c.podLabel, "pod").value <==> Tidy(c.podLabel)
    ensures OrElse(Text(c.podMatchMode, "exact"), "exact") == WithDefault(c.podMatchMode, "exact").value
            <==> NotEmpty(c.podMatchMode)
    ensures OrElse(Trim(Text(c.podValueTemplate, "{pod}")), "{pod}") == WithDefault(c.podValueTemplate, "{pod}").value
            <==> Tidy(c.podValueTemplate)
    ensures OrElse(Text(c.taskMatchMode, "label"), "label") == WithDefault(c.taskMatchMode, "label").value
            <==> NotEmpty(c.taskMatchMode)
  {
    DefaultExactly(c.podLabel, "pod");
    ModeExactly(c.podMatchMode, "exact");
    DefaultExactly(c.podValueTemplate, "{pod}");
    ModeExactly(c.taskMatchMode, "label");
  }

  lemma LogReturnExactly(c: LogConfig, selector: Labels)
    requires c.provider != ""
    ensures LogReturn(c, selector) == DefaultedLog(c) <==>
              && NotEmpty(c.profileId) && Trimmed(c.baseUrl) && Tidy(c.tenantId) && selector == c.selector
              && Tidy(c.sourceLabel) && Tidy(c.podLabel) && NotEmpty(c.podMatchMode) && Tidy(c.podValueTemplate)
              && Tidy(c.taskIdLabel) && Tidy(c.correlationIdLabel) && Tidy(c.levelLabel)
              && NotEmpty(c.taskMatchMode) && Tidy(c.taskMatchTemplate)
  {
    LogOptionals(c);
    LogDefaults(c);
    ProfileExactly(c.profileId);
    TrimExactly(c.baseUrl);
  }

  lemma LogSurvivesExactly(c: LogConfig, entries: seq<Entry>)
    requires Lists(entries, c.selector)
    ensures LogPayload(LogToDraft(Some(c), entries)) == Some(DefaultedLog(c)) <==> TidyLog(c, entries)
  {
    var split := SplitServiceSelectorLabels(entries);
    var selector := MergedSelector(split.key, split.value, split.additional);
    SelectorSurvivesExactly(entries, c.selector);
    if c.provider != "" {
      LogReturnExactly(c, selector);
      assert LogPayload(LogToDraft(Some(c), entries)) == Some(LogReturn(c, selector));
    }
  }

  lemma MetricsNames(c: MetricsConfig)
    ensures OrElse(Trim(OrElse(c.namespaceLabel, "namespace")), "namespace") == c.namespaceLabel
            <==> Tidy(Some(c.namespaceLabel))
    ensures OrElse(Trim(OrElse(c.podLabel, "pod")), "pod") == c.podLabel <==> Tidy(Some(c.podLabel))
    ensures OrElse(Trim(OrElse(c.containerLabel, "container")), "container") == c.containerLabel
            <==> Tidy(Some(c.containerLabel))
  {
    NameExactly(c.namespaceLabel, "namespace");
    NameExactly(c.podLabel, "pod");
    NameExactly(c.containerLabel, "container");
  }

  /** What comes back of a metrics configuration that is there. */
  function MetricsReturn(c: MetricsConfig, selector: Labels): MetricsConfig {
    MetricsConfig(OrNone(Text(c.profileId, "")), OrElse(c.provider, "prometheus"), Trim(c.baseUrl), Trim(c.namespace),
                  selector, OrNone(Trim(Text(c.runtimeServiceLabelValue, ""))),
                  OrElse(Trim(OrElse(c.namespaceLabel, "namespace")), "namespace"),
                  OrElse(Trim(OrElse(c.podLabel, "pod")), "pod"),
                  OrElse(Trim(OrElse(c.containerLabel, "container")), "container"),
                  NumberOr(Seconds(c.stepSeconds, 30), 30), NumberOr(Seconds(c.taskWindowPaddingSeconds, 120), 120))
  }

  lemma MetricsReturnExactly(c: MetricsConfig, selector: Labels)
    requires c.provider != ""
    ensures MetricsReturn(c, selector) == c <==>
              && NotEmpty(c.profileId) && Trimmed(c.baseUrl) && Trimmed(c.namespace) && selector == c.selector
              && Tidy(c.runtimeServiceLabelValue) && Tidy(Some(c.namespaceLabel)) && Tidy(Some(c.podLabel))
              && Tidy(Some(c.containerLabel)) && c.stepSeconds != 0 && c.taskWindowPaddingSeconds != 0
  {
    ProfileExactly(c.profileId);
    TrimExactly(c.baseUrl);
    TrimExactly(c.namespace);
    OptionalExactly(c.runtimeServiceLabelValue);
    MetricsNames(c);
    SecondsExactly(c.stepSeconds, 30);
    SecondsExactly(c.taskWindowPaddingSeconds, 120);
  }

  lemma MetricsSurviveExactly(c: MetricsConfig, entries: seq<Entry>)
    requires Lists(entries, c.selector)
    ensures MetricsPayload(MetricsToDraft(Some(c), entries)) == Some(c) <==> TidyMetrics(c, entries)
  {
    var split := SplitServiceSelectorLabels(entries);
    var selector := MergedSelector(split.key, split.value, split.additional);
    SelectorSurvivesExactly(entries, c.selector);
    if c.provider != "" {
      MetricsReturnExactly(c, selector);
      assert MetricsPayload(MetricsToDraft(Some(c), entries)) == Some(MetricsReturn(c, selector));
    }
  }

  lemma TraceSurvivesExactly(c: TraceConfig)
    ensures TracePayload(TraceToDraft(Some(c))) == Some(c) <==> TidyTrace(c)
  {
    ProfileExactly(c.profileId);
    TrimEmpty();
    TrimExactly(c.baseUrl);
    OptionalExactly(c.publicBaseUrl);
    OptionalExactly(c.tenantId);
    NameExactly(c.queryPath, TRACE_PATH);
    TrimExactly(TRACE_PATH);
    TrimExactly(OrElse(c.queryPath, TRACE_PATH));
  }

  /** A bare trace configuration comes back as none at all. */
  lemma BareTraceIsLost(c: TraceConfig)
    requires Bare(c)
    ensures TracePayload(TraceToDraft(Some(c))) == None
  {
    TrimEmpty();
    TrimExactly(TRACE_PATH);
  }

  /** A service without a configuration is saved without it. */
  lemma AbsentStaysAbsent()
    ensures LogPayload(LogToDraft(None, [])) == None
    ensures MetricsPayload(MetricsToDraft(None, [])) == None
    ensures TracePayload(TraceToDraft(None)) == None
  {
    TrimEmpty();
    TrimExactly("pod");
    TrimExactly("{pod}");
    TrimExactly(TRACE_PATH);
  }

  lemma NoEntries(entries: seq<Entry>, labels: Labels)
    requires Lists(entries, labels)
    ensures entries == [] || labels != map[]
  {
    if entries != [] {
      assert entries[0].key in labels;
    }
  }

  lemma LogSide(s: Service, entries: seq<Entry>)
    requires Lists(entries, SelectorOfLog(s))
    ensures LogPayload(LogToDraft(s.log, entries)) == Defaulted(s).log
            <==> (s.log.Some? ==> TidyLog(s.log.value, entries))
  {
    if s.log.Some? {
      LogSurvivesExactly(s.log.value, entries);
    } else {
      NoEntries(entries, map[]);
      AbsentStaysAbsent();
    }
  }

  lemma MetricsSide(s: Service, entries: seq<Entry>)
    requires Lists(entries, SelectorOfMetrics(s))
    ensures MetricsPayload(MetricsToDraft(s.metrics, entries)) == s.metrics
            <==> (s.metrics.Some? ==> TidyMetrics(s.metrics.value, entries))
  {
    if s.metrics.Some? {
      MetricsSurviveExactly(s.metrics.value, entries);
    } else {
      NoEntries(entries, map[]);
      AbsentStaysAbsent();
    }
  }

  lemma TraceSide(s: Service)
    ensures TracePayload(TraceToDraft(s.trace)) == s.trace <==> (s.trace.Some? ==> TidyTrace(s.trace.value))
  {
    if s.trace.Some? {
      TraceSurvivesExactly(s.trace.value);
    } else {
      AbsentStaysAbsent();
    }
  }

  lemma NamesSide(s: Service)
    ensures Trim(s.serviceId) == s.serviceId && Trim(s.name) == s.name && Trim(s.baseUrl) == s.baseUrl
            && Trim(s.environment) == s.environment && Trim(s.authMode) == s.authMode && Items(Join(s.tags)) == s.tags
            <==>
            Trimmed(s.serviceId) && Trimmed(s.name) && Trimmed(s.baseUrl) && Trimmed(s.environment)
            && Trimmed(s.authMode) && forall tag | tag in s.tags :: CleanItem(tag)
  {
    TrimExactly(s.serviceId);
    TrimExactly(s.name);
    TrimExactly(s.baseUrl);
    TrimExactly(s.environment);
    TrimExactly(s.authMode);
    TagsSurviveExactly(s.tags);
  }

  // ---- Records that the registry hands out

  /** The registry's records name their provider and a base URL that is not blank. */
  predicate Receivable(s: Service) {
    && (s.log.Some? ==> s.log.value.provider == "loki" && Trim(s.log.value.baseUrl) != "")
    && (s.metrics.Some? ==> s.metrics.value.provider == "prometheus" && Trim(s.metrics.value.baseUrl) != "")
    && (s.trace.Some? ==> s.trace.value.provider == "tempo" && Trim(s.trace.value.baseUrl) != "")
  }

  lemma LogStatus(s: Service, entries: seq<Entry>)
    requires Lists(entries, SelectorOfLog(s)) && Receivable(s)
    ensures LogPayload(LogToDraft(s.log, entries)).Some? <==> s.log.Some?
  {
    if s.log.None? {
      NoEntries(entries, map[]);
      AbsentStaysAbsent();
    }
  }

  lemma MetricsStatus(s: Service, entries: seq<Entry>)
    requires Lists(entries, SelectorOfMetrics(s)) && Receivable(s)
    ensures MetricsPayload(MetricsToDraft(s.metrics, entries)).Some? <==> s.metrics.Some?
  {
    if s.metrics.None? {
      NoEntries(entries, map[]);
      AbsentStaysAbsent();
    }
  }

  /** For every record of the registry, whatever its labels, tags and texts, each configuration is saved
      if and only if it was there. */
  lemma StatusSurvives(s: Service, logEntries: seq<Entry>, metricsEntries: seq<Entry>)
    requires Lists(logEntries, SelectorOfLog(s)) && Lists(metricsEntries, SelectorOfMetrics(s)) && Receivable(s)
    ensures var payload := BuildServicePayload(ServiceToDraft(s, logEntries, metricsEntries));
            && (payload.log.Some? <==> s.log.Some?)
            && (payload.metrics.Some? <==> s.metrics.Some?)
            && (payload.trace.Some? <==> s.trace.Some?)
  {
    LogStatus(s, logEntries);
    MetricsStatus(s, metricsEntries);
    if s.trace.None? {
      AbsentStaysAbsent();
    }
  }

  /** The registry allows a padding of zero; the form makes it two minutes, and leaves every other one. */
  lemma PaddingSurvivesExactly(c: MetricsConfig, entries: seq<Entry>)
    requires c.provider == "prometheus"
    ensures var saved := MetricsPayload(MetricsToDraft(Some(c), entries));
            && saved.Some?
            && (saved.value.taskWindowPaddingSeconds == c.taskWindowPaddingSeconds <==> c.taskWindowPaddingSeconds != 0)
            && (c.taskWindowPaddingSeconds == 0 ==> saved.value.taskWindowPaddingSeconds == 120)
  {
  }

  /** Saving an unedited draft gives the record back, up to the defaults, exactly when the record is
      lossless: in particular each configuration is there after the round trip if and only if it was. */
  lemma RoundTripExactly(s: Service, logEntries: seq<Entry>, metricsEntries: seq<Entry>)
    requires Lists(logEntries, SelectorOfLog(s)) && Lists(metricsEntries, SelectorOfMetrics(s))
    ensures BuildServicePayload(ServiceToDraft(s, logEntries, metricsEntries)) == Defaulted(s)
            <==> Lossless(s, logEntries, metricsEntries)
  {
    NamesSide(s);
    LogSide(s, logEntries);
    MetricsSide(s, metricsEntries);
    TraceSide(s);
  }

  /** The payload of a draft; from an unedited one it is the record again, exactly if that is lossless. */
  method BuildPayload(d: Draft, ghost s: Service, ghost logEntries: seq<Entry>, ghost metricsEntries: seq<Entry>)
    returns (payload: Service)
    requires Lists(logEntries, SelectorOfLog(s)) && Lists(metricsEntries, SelectorOfMetrics(s))
    ensures d == ServiceToDraft(s, logEntries, metricsEntries) ==>
              (payload == Defaulted(s) <==> Lossless(s, logEntries, metricsEntries))
    ensures payload == BuildServicePayload(d)
  {
    var logSelector := MergeSelector(d.log.labelKey, d.log.labelValue, d.log.selector);
    var metricsSelector := MergeSelector(d.metrics.labelKey, d.metrics.labelValue, d.metrics.selector);
    RoundTripExactly(s, logEntries, metricsEntries);
    payload := Service(
      Trim(d.serviceId), Trim(d.name), Trim(d.baseUrl), Trim(d.environment), Items(d.tags), Trim(d.authMode),
      LogWith(d.log, logSelector), MetricsWith(d.metrics, metricsSelector), TracePayload(d.trace));
  }
}
