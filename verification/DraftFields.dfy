/** What saving a draft means field by field, however it was edited. */
module DraftFields {
  import opened Splitting
  import opened LabelPairs
  import opened LabelReading
  import opened ServiceDraft

  // ---- One field

  /** A blank field is saved as nothing, any other without the white space around it. */
  ghost predicate Keeps(typed: string, saved: Optional) {
    if Blank(typed) then saved == None else saved.Some? && Core(typed, saved.value)
  }

  /** A blank field is saved as its default. */
  ghost predicate KeepsOr(typed: string, saved: Optional, default: string) {
    saved.Some? && if Blank(typed) then saved.value == default else Core(typed, saved.value)
  }

  /** A choice is saved as it stands, an empty one as its default. */
  predicate Chooses(chosen: string, saved: Optional, default: string) {
    saved == Some(if chosen == "" then default else chosen)
  }

  predicate Names(profile: string, saved: Optional) {
    if profile == "" then saved == None else saved == Some(profile)
  }

  predicate Counts(typed: NumberText, saved: int, default: int) {
    saved == if typed.Digits? && typed.value != 0 then typed.value else default
  }

  /** The labels saved: the pair of fields says its own key, if neither is blank; for any other key the
      last part of the text that names it does. */
  ghost predicate Labelled(key: string, value: string, text: string, saved: Labels) {
    forall parts, k, v | Spells(parts, text, ',') ::
      Holds(saved, k, v) <==>
        if !Blank(key) && !Blank(value) && Core(key, k) then Core(value, v) else LastSays(parts, k, v)
  }

  lemma TrimSaves(typed: string)
    ensures Core(typed, Trim(typed)) && (Trim(typed) == "" <==> Blank(typed))
  {
    TrimIsTheCore(typed, Trim(typed));
  }

  lemma SelectorSaves(key: string, value: string, text: string)
    ensures Labelled(key, value, text, MergedSelector(key, value, text))
  {
    var saved := MergedSelector(key, value, text);
    forall parts, k, v | Spells(parts, text, ',')
      ensures Holds(saved, k, v) <==>
                if !Blank(key) && !Blank(value) && Core(key, k) then Core(value, v) else LastSays(parts, k, v)
    {
      TrimIsTheCore(key, k);
      TrimIsTheCore(value, v);
      LabelsAreLastSaid(text, parts, k, v);
    }
  }

  // ---- The three configurations

  /** Nothing is typed into the log form, and its choices are as they were. */
  ghost predicate LogUntouched(d: LogDraft) {
    && d.provider == "" && Blank(d.baseUrl) && Blank(d.labelKey) && Blank(d.labelValue) && Blank(d.appLabelKey)
    && Blank(d.selector) && Core(d.podLabel, "pod") && d.podMatchMode == "exact" && Core(d.podValueTemplate, "{pod}")
    && Blank(d.taskIdLabel) && Blank(d.correlationIdLabel) && Blank(d.levelLabel) && Blank(d.taskMatchTemplate)
    && d.taskMatchMode == "label" && Blank(d.tenantId)
  }

  /** A log draft is saved exactly if it was touched, each field of its own. */
  lemma LogDraftSaves(d: LogDraft)
    ensures LogPayload(d).None? <==> LogUntouched(d)
    ensures LogPayload(d).Some? ==>
              var c := LogPayload(d).value;
              && Names(d.profileId, c.profileId) && Chooses(d.provider, Some(c.provider), "loki")
              && Core(d.baseUrl, c.baseUrl) && Keeps(d.tenantId, c.tenantId)
              && Labelled(d.labelKey, d.labelValue, d.selector, c.selector)
              && Keeps(d.appLabelKey, c.sourceLabel)
              && KeepsOr(d.podLabel, c.podLabel, "pod") && Chooses(d.podMatchMode, c.podMatchMode, "exact")
              && KeepsOr(d.podValueTemplate, c.podValueTemplate, "{pod}")
              && Keeps(d.taskIdLabel, c.taskIdLabel) && Keeps(d.correlationIdLabel, c.correlationIdLabel)
              && Keeps(d.levelLabel, c.levelLabel) && Chooses(d.taskMatchMode, c.taskMatchMode, "label")
              && Keeps(d.taskMatchTemplate, c.taskMatchTemplate)
  {
    forall typed | typed in {d.baseUrl, d.labelKey, d.labelValue, d.appLabelKey, d.selector, d.podLabel,
                             d.podValueTemplate, d.taskIdLabel, d.correlationIdLabel, d.levelLabel,
                             d.taskMatchTemplate, d.tenantId}
      ensures Core(typed, Trim(typed)) && (Trim(typed) == "" <==> Blank(typed))
    {
      TrimSaves(typed);
    }
    TrimIsTheCore(d.podLabel, "pod");
    TrimIsTheCore(d.podValueTemplate, "{pod}");
    SelectorSaves(d.labelKey, d.labelValue, d.selector);
  }

  ghost predicate MetricsUntouched(d: MetricsDraft) {
    && d.provider == "" && Blank(d.baseUrl) && Blank(d.namespace) && Blank(d.labelKey) && Blank(d.labelValue)
    && Blank(d.selector) && Blank(d.runtimeServiceLabelValue)
  }

  /** A metrics draft is saved exactly if one of the first seven fields was touched, each field of its own;
      what does not read as a number other than zero is saved as the default. */
  lemma MetricsDraftSaves(d: MetricsDraft)
    ensures MetricsPayload(d).None? <==> MetricsUntouched(d)
    ensures MetricsPayload(d).Some? ==>
              var c := MetricsPayload(d).value;
              && Names(d.profileId, c.profileId) && Chooses(d.provider, Some(c.provider), "prometheus")
              && Core(d.baseUrl, c.baseUrl) && Core(d.namespace, c.namespace)
              && Labelled(d.labelKey, d.labelValue, d.selector, c.selector)
              && Keeps(d.runtimeServiceLabelValue, c.runtimeServiceLabelValue)
              && KeepsOr(d.namespaceLabel, Some(c.namespaceLabel), "namespace")
              && KeepsOr(d.podLabel, Some(c.podLabel), "pod")
              && KeepsOr(d.containerLabel, Some(c.containerLabel), "container")
              && Counts(d.stepSeconds, c.stepSeconds, 30)
              && Counts(d.taskWindowPaddingSeconds, c.taskWindowPaddingSeconds, 120)
  {
    forall typed | typed in {d.baseUrl, d.namespace, d.labelKey, d.labelValue, d.selector, d.runtimeServiceLabelValue,
                             d.namespaceLabel, d.podLabel, d.containerLabel}
      ensures Core(typed, Trim(typed)) && (Trim(typed) == "" <==> Blank(typed))
    {
      TrimSaves(typed);
    }
    SelectorSaves(d.labelKey, d.labelValue, d.selector);
  }

  /** A trace draft is saved exactly if its provider is tempo and something else was touched. */
  lemma TraceDraftSaves(d: TraceDraft)
    ensures TracePayload(d).Some? <==>
              d.provider == "tempo"
              && !(Blank(d.baseUrl) && Blank(d.publicBaseUrl) && Blank(d.tenantId)
                   && Core(d.queryPath, "/api/traces/{trace_id}"))
    ensures TracePayload(d).Some? ==>
              var c := TracePayload(d).value;
              && Names(d.profileId, c.profileId) && c.provider == "tempo" && Core(d.baseUrl, c.baseUrl)
              && Keeps(d.publicBaseUrl, c.publicBaseUrl) && Keeps(d.tenantId, c.tenantId)
              && KeepsOr(d.queryPath, Some(c.queryPath), "/api/traces/{trace_id}")
  {
    TrimSaves(d.baseUrl);
    TrimSaves(d.publicBaseUrl);
    TrimSaves(d.tenantId);
    TrimSaves(d.queryPath);
    TrimIsTheCore(d.queryPath, "/api/traces/{trace_id}");
  }

  /** The whole draft: its names without the white space around them, its tags the parts of the text that
      are not blank, and each configuration from its own part of the form. */
  lemma DraftSaves(d: Draft) returns (places: seq<nat>)
    ensures var s := BuildServicePayload(d);
            && Core(d.serviceId, s.serviceId) && Core(d.name, s.name) && Core(d.baseUrl, s.baseUrl)
            && Core(d.environment, s.environment) && Core(d.authMode, s.authMode)
            && (forall parts | Spells(parts, d.tags, ',') :: Picked(parts, s.tags, places))
            && s.log == LogPayload(d.log) && s.metrics == MetricsPayload(d.metrics) && s.trace == TracePayload(d.trace)
  {
    TrimSaves(d.serviceId);
    TrimSaves(d.name);
    TrimSaves(d.baseUrl);
    TrimSaves(d.environment);
    TrimSaves(d.authMode);
    SplitIsUnique(d.tags, ',', Split(d.tags, ','));
    places := ItemsAreParts(d.tags, Split(d.tags, ','));
    forall parts | Spells(parts, d.tags, ',')
      ensures Picked(parts, Items(d.tags), places)
    {
      SplitIsUnique(d.tags, ',', parts);
    }
  }
}
