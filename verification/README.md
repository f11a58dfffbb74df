# Relayna, modelled and proved

Relayna moves tasks through RabbitMQ and shows what happens to them in a browser application, Studio.
This project models the parts of both that hold state across calls, interleave, or calculate exactly,
and proves what they promise: about every run, every input, every order of events.

Each component is one module (a few share a helper module). What the source changes in place is a class
here, with the source's own fields; its methods are proved against functions on plain values, and the
properties are lemmas about those functions over all runs. Where the source only computes, there are
functions and lemmas.

A step system is a list of enabled steps; the modules named `...History` state the same components'
behaviour over the list of steps alone, so that what a run shows can be read off the calls, answers and
failures that happened, without following its states.

| files | component |
|---|---|
| `Streams`, `GreedyMerge`, `ScopedResults`, `FederatedRuns`, `EmptyPages` | the client-side merge of many paged services, and whole browsing runs over it |
| `BoundedDispatch`, `DispatchHistory`, `BoundedMap` | the two concurrency engines of the consumer, as step systems, and what their events alone decide |
| `TopicRouting` | topic bindings (section 3.1.3.3 of AMQP 0-9-1) and the stage resolver on top of them |
| `RetryValues`, `RetryLineage`, `StatusMeta`, `ManualRetry` | the headers and the metadata that carry retry state from delivery to delivery, and the manual handoff that writes both |
| `AdmissionQueue`, `ServicesLoader`, `MonitorRead` | eight read slots with hand-over, the latest-wins loader, the circuit breaker per provider |
| `AdmissionHistory`, `LoaderHistory`, `MonitorHistory` | the same three, told by the events of a run: who reads when, what is shown, what is answered |
| `DecimalMultiples`, `InitialNumber` | exact divisibility of decimals, and the first number a form proposes (sections 6.2.1 to 6.2.5 of JSON Schema Validation, draft 2020-12) |
| `LabelPairs`, `LabelReading`, `ServiceDraft`, `DraftFields` | printing and parsing of label pairs, the round trip of the service form, and what an edited draft saves |
| `AnsiSegments`, `AnsiCodes`, `MermaidIds` | coloured log text (section 5.4 of ECMA-48), and collision-free node names |
| `GraphLevels`, `GraphPlacement` | the layout of execution graphs, cycles included |
| `Splitting`, `Places` | splitting a text at a separator, and picking places of a list: shared by the others |

`dafny verify dfyconfig.toml` checks everything.

## Where the code does not do what it says

These are results: each has a lemma with the concrete case, and one with the exact condition under which
the code does meet the property.

- The docstring of `run_bounded_iterator` speaks of a hard in-flight bound. The set named `in_flight` can
  be larger than the bound, because a done-callback runs after the release of the permit
  (`BoundedDispatch.InFlightMayExceed`). It is within the bound exactly while no more tasks await their
  callback than permits are out of the handlers' hands (`BoundedDispatch.InFlightBoundExactly`); the bound
  on tasks that hold a permit is never broken (`BoundedDispatch.PermitConservation`).
- A service that answers an empty page before its last sits out the rest of the call, and the merge goes on
  without it (`EmptyPages.EmptyPageBreaksOrder`). A call emits the next part of the greedy merge exactly if
  no item is emitted that the next one of a service sitting out beats, and none is held back when the call
  stops short of its limit (`ScopedResults.CallExactly`, `FederatedRuns.ScopedRead`). Nothing is ever lost
  or repeated (`FederatedRuns.Browse`).
- An answer to a provider's read that arrives after another provider has been rendered, but before the next
  effect has run, still reaches the cooldown. A success re-keys it, so that the new provider's next failure
  is forgotten by the next render (`MonitorRead.MisheardSuccessForgetsPause`, and
  `MonitorRead.ForgettingHappens` for a run that leads there); a failure is charged to the new provider
  (`MonitorRead.MisheardFailureIsCharged`). The cooldown is the record of the provider asked for, throughout
  a run, if and only if no answer is misheard in this way (`MonitorRead.RecordIsOwnExactly`); the circuit
  breaker itself is lost exactly by a misheard success under an enabled provider
  (`MonitorRead.BreakerHoldsExactly`).
- A hook that is disabled in the middle of a read goes on saying that it is loading, with no read under way
  (`MonitorHistory.CutOffHappens`). With its effect up to date it says so exactly while it reads, if and only
  if it has not been disabled in the middle of a read of the key it displays
  (`MonitorHistory.LoadingExactly`).
- For an integer field, `multipleOf` replaces the step of 1 instead of joining it, so that the form may
  propose a fraction although an integer would do (`InitialNumber.FractionalStepFails`,
  `InitialNumber.IntegerStepExactly`).
- The registry accepts a metrics padding of zero, which the edit form makes two minutes
  (`ServiceDraft.PaddingSurvivesExactly`), and tags and labels with commas, which it splits
  (`LabelPairs.CommaSplitsTag`; `LabelPairs.TagsSurviveExactly`, `LabelPairs.LabelsSurviveExactly`).
- Extra headers given to a manual handoff override the count it has just written
  (`RetryLineage.HandoffMayBeUncounted`, `RetryLineage.HandoffCountsIff`).

## Assumptions

- Interleaving: code between two awaits (or two callbacks of the event loop) is one step; steps of
  different activities interleave in any order. The clock of `MonitorRead` does not go back.
- A join ends when every done-callback has run, and the caller of `run_bounded_iterator` is cancelled at
  most once. A handler cancelled before its first step never releases its permit, which the history
  counts as `lost`.
- Upstream pages are stable: the same cursor gives the same page whenever its read succeeds. Chains of
  cursors are finite only where a lemma says `Finite`, and without empty pages only where it says `Dense`.
- Service ids and graph ids stand for their rank in the collation that sorts them; service ids in one
  list are distinct. `requireFresh` loads are foreground loads.
- `int` of a string, `str.strip`, the validation of a task envelope and the printing of a header value are
  functions handed in as parameters; nothing depends on what they are.
- The registry hands out configurations with their provider and a base URL that is not blank
  (`studio/backend/src/relayna_studio/registry.py:416-419`); only `ServiceDraft.StatusSurvives` relies on it.

## Model

| member | source | states |
|---|---|---|
| Streams.SameCursorSameFuture | apps/studio/src/scoped-results.ts:14-27 | two places of a chain with the same cursor have the same pages from there on |
| Streams.PositionDeterminesPrefix | apps/studio/src/scoped-results.ts:8-8 | a position of cursor, skip and done denotes one prefix of the service's stream, whichever page of the chain it is read at |
| Streams.StreamOfWalk | apps/studio/src/scoped-results.ts:18-24 | the stream of a service is what a client finds who follows `next_cursor` until it is missing, empty or the page's own |
| GreedyMerge.TakeConserves | apps/studio/src/scoped-results.ts:33-38 | what the merge has taken of a service and what it has left are together that service's stream |
| GreedyMerge.MergeIsUnique | apps/studio/src/scoped-results.ts:33-45 | there is only one complete greedy merge of given streams |
| GreedyMerge.MergeDescends | apps/studio/src/scoped-results.ts:33-36 | the greedy merge of descending streams descends by key, and equal keys by service id |
| ScopedResults.LoadConserves | apps/studio/src/scoped-results.ts:14-27 | a load, successful or failed, empty page or not, leaves every position denoting exactly what has been emitted |
| ScopedResults.ShiftConserves | apps/studio/src/scoped-results.ts:36-43 | so does emitting the head row of a service |
| ScopedResults.BestShown | apps/studio/src/scoped-results.ts:33-36 | the best row shown is the next one of the greedy merge of everything unread exactly if no service that sits out has a better one |
| ScopedResults.EmitIsGreedy | apps/studio/src/scoped-results.ts:33-36 | each emission keeps the trace greedy exactly as long as nothing undercuts a service that sits out |
| ScopedResults.CallExactly | apps/studio/src/scoped-results.ts:29-45 | a call without failures has emitted exactly the next part of the greedy merge if and only if no item undercuts a service sitting out behind an empty page and, short of the limit, none is held back |
| ScopedResults.DenseIsGreedy | apps/studio/src/scoped-results.ts:22-25 | without empty pages before the last, nothing is ever undercut or held back |
| ScopedResults.NeverPasses | apps/studio/src/scoped-results.ts:22-25 | a service whose chain has no empty page before its last never sits out a call |
| ScopedResults.FailuresAreReported | apps/studio/src/scoped-results.ts:17-26 | an error is reported exactly for the reads that failed, with the message of the failure |
| ScopedResults.AnsweringAreFetched | apps/studio/src/scoped-results.ts:21-21 | the scanned services are those that answered a page, each once |
| ScopedResults.Call.Load | apps/studio/src/scoped-results.ts:14-28 | an unfinished service is read once at its position, a finished one not at all, and the call's maps change as the value-level load says |
| ScopedResults.Call.Shift | apps/studio/src/scoped-results.ts:36-43 | the in-place emission of one row, with the move to the following page |
| ScopedResults.Call.Run | apps/studio/src/scoped-results.ts:29-45 | one whole call conserves every stream, reads exactly the unfinished services, tells of each failed read, moves something unless a read failed, and is greedy exactly if nothing is undercut or held back |
| FederatedRuns.ScopedRead | apps/studio/src/scoped-results.ts:3-47 | one call: exactly the unfinished services are read, and no further than rows are wanted; errors and scanned services are those of the failed and of the answered reads; exact positions afterwards, at most `limit` items, a null cursor exactly when every service is done or a read of it failed, strict progress, and the next part of the greedy merge exactly if no service behind an empty page is overtaken |
| FederatedRuns.EmittedIsPrefix | apps/studio/src/scoped-results.ts:8-43 | what has been emitted for a service is a gap-free, duplicate-free prefix of its stream, and all of it once the service is done |
| FederatedRuns.Browse | apps/studio/src/scoped-results.ts:3-47 | conservation over any run: any services and limits per call, any failures, any empty pages |
| FederatedRuns.Drain | apps/studio/src/scoped-results.ts:29-47 | feeding the cursor back ends, short exactly if some read failed; otherwise every stream comes out in full, and without inner empty pages as the greedy merge |
| FederatedRuns.PageSizeIndependence | apps/studio/src/scoped-results.ts:29-47 | two complete runs emit the same list, whatever limits each used, descending when the streams are |
| EmptyPages.EmptyPageBreaksOrder | apps/studio/src/scoped-results.ts:22-25 | with one empty inner page the call emits another item than the one the merge begins with |
| BoundedDispatch.PermitConservation | src/relayna/_async.py:57-119 | free permits, the loop's permit, unreleased tasks and lost permits add up to the bound; before a cancellation none is lost, and all are back at exit |
| BoundedDispatch.InFlightBoundExactly | src/relayna/_async.py:51-77 | in flight are the tasks with a permit and those awaiting their callback; they are within the bound exactly while the latter are no more than the permits that are free, held by the loop or lost |
| BoundedDispatch.InFlightMayExceed | src/relayna/_async.py:51-69 | with a bound of one, two tasks can be in flight |
| BoundedDispatch.DispatchFollowsIterator | src/relayna/_async.py:93-107 | the created tasks are the items the iterator returned, in order, once each; in flight are those without a done-callback yet |
| BoundedDispatch.LeavesWithFirstError | src/relayna/_async.py:67-118 | the loop leaves only when every handler has finished; uncancelled it leaves with the first recorded error if a handler failed, over any other exception |
| BoundedDispatch.LeftIsFinal | src/relayna/_async.py:114-118 | nothing is still running once it has left |
| BoundedDispatch.NeverStuck | src/relayna/_async.py:82-118 | until the loop has left, it, a task or a callback can take a step: there is no deadlock |
| BoundedDispatch.AtMostOneMore | src/relayna/_async.py:82-93 | after stop is set or an error is recorded, at most the item already waited for is still dispatched |
| DispatchHistory.StateIsTold | src/relayna/_async.py:61-77 | the tasks are the items that arrived, those in flight the ones whose callback has not run, and the error kept is that of the first callback of a failed handler |
| DispatchHistory.FetchingEnds | src/relayna/_async.py:82-107 | fetching ends when the iterator is dry, raises, or times out with nothing in flight, or on cancellation; otherwise only for the stop event or a handler's failure |
| DispatchHistory.StopIsSeen | src/relayna/_async.py:83-91 | at its head the loop goes on exactly if stop is not set, and with a permit exactly if moreover no handler has failed |
| DispatchHistory.TimeoutEndsExactly | src/relayna/_async.py:96-102 | a timeout ends the loop exactly if every callback has run; otherwise the loop goes back to its head, its permit given back |
| DispatchHistory.EventsDecideExit | src/relayna/_async.py:83-118 | what leaves is decided by the events: a cancelled join, else the first failed handler, else what ended the fetching |
| DispatchHistory.LeavesWhatIteratorThrew | src/relayna/_async.py:92-104 | with no failed handler and no cancellation an exception leaves exactly if the iterator threw it, a timeout only with nothing in flight |
| BoundedDispatch.StartDispatch | src/relayna/_async.py:54-59 | a bound below one is refused; any other starts with all permits free |
| BoundedDispatch.Dispatcher.Acquired | src/relayna/_async.py:85-91 | the checks after the semaphore has been acquired: first error, then stop, then the fetch |
| BoundedDispatch.Dispatcher.ItemArrives | src/relayna/_async.py:105-107 | an item becomes a task in flight |
| BoundedDispatch.Dispatcher.IteratorTimesOut | src/relayna/_async.py:97-102 | a timeout gives the permit back and is an error only with nothing in flight |
| BoundedDispatch.Dispatcher.RecordCompletion | src/relayna/_async.py:67-77 | the done-callback: out of the set, and the first error is kept |
| BoundedDispatch.Dispatcher.CancelLoop | src/relayna/_async.py:108-113 | a cancellation gives a fetching loop's permit back and turns to the tasks in flight |
| BoundedDispatch.Dispatcher.Leaves | src/relayna/_async.py:114-118 | what is raised at the end |
| BoundedDispatch.Dispatcher.Play | src/relayna/_async.py:45-118 | under any interleaving the object goes through exactly the states of the step system |
| BoundedMap.ClaimsAreExact | src/relayna/_async.py:24-34 | each index is claimed once, the claimed ones are those below the shared index, no two workers share one, and there are min(bound, items) workers |
| BoundedMap.RefinesSequentialMap | src/relayna/_async.py:24-42 | under every interleaving a normal return holds the sequential map of the items, every answer in its place, and no exit leaves a worker behind |
| BoundedMap.RaisesWorkersError | src/relayna/_async.py:36-41 | what is raised is an error that some worker failed with, or the cancellation of the caller |
| BoundedMap.NeverStuck | src/relayna/_async.py:27-41 | until the call has returned or raised, a worker or the gather can take a step |
| BoundedMap.Mapper.ClaimNext | src/relayna/_async.py:29-33 | a worker claims the next index or finishes |
| BoundedMap.Mapper.Play | src/relayna/_async.py:11-42 | the shared index, the list and the workers go through exactly the states of the step system |
| TopicRouting.MatchIffSegments | src/relayna/consumer/context.py:455-469 | the recursion holds exactly when the routing words split into one fitting segment per token |
| TopicRouting.TopicBindingMatches | src/relayna/consumer/context.py:451-471 | so does the memoised matcher, on the words between the dots of the two keys |
| Splitting.SplitIsUnique | src/relayna/consumer/context.py:452-453 | a key is split into the only words without dots that give it back when joined |
| TopicRouting.Matcher.Lookup | src/relayna/consumer/context.py:455-469 | the cache only ever holds right answers, and the recursion ends |
| TopicRouting.MatchesItself | src/relayna/consumer/context.py:451-471 | every key matches itself, even read as a binding |
| TopicRouting.MatchesConcat | src/relayna/consumer/context.py:451-471 | a binding in two parts matches exactly the words that can be cut accordingly |
| TopicRouting.EquivalentInside | src/relayna/consumer/context.py:451-471 | equivalent parts may replace each other inside any binding |
| TopicRouting.HashLaws | src/relayna/consumer/context.py:459-463 | `#.#` is `#` and `#.*` is `*.#`, inside any binding |
| TopicRouting.Resolve | src/relayna/consumer/context.py:432-448 | the earliest publish key, else exact binding, else entry route, else pattern; else the key error |
| TopicRouting.ResolutionIsSoundAndComplete | src/relayna/consumer/context.py:432-448 | it fails exactly when no publish key, entry route or binding pattern fits, and what it answers fits |
| TopicRouting.TiersInOrder | src/relayna/consumer/context.py:433-443 | the first stage with the key as publish key answers; without one the first that binds the very key; without one the first entry route |
| TopicRouting.ExactIsPattern | src/relayna/consumer/context.py:436-447 | an exact binding hit is always a pattern hit |
| TopicRouting.OwnKeyResolvesToStage | src/relayna/consumer/context.py:433-435 | with distinct publish keys a stage's own key leads back to it |
| RetryLineage.RetryHeaders | src/relayna/consumer/context.py:515-532 | header by header what an automatic retry carries; the attempt read back is the one given, and without extra headers the manual count is kept |
| RetryLineage.HandoffHeaders | src/relayna/consumer/context.py:603-637 | header by header what a handoff carries; unless extra headers say otherwise, no attempt and the new count are read back |
| RetryLineage.StepEffect | src/relayna/consumer/context.py:515-637 | one step of a chain, header by header, whatever its extra headers |
| RetryLineage.TextReadsAsNumber | src/relayna/consumer/context.py:505-568 | an attempt or a count that comes back as text reads as the same number, none below zero |
| RetryLineage.CountGrowsByHandoffs | src/relayna/consumer/context.py:567-568 | over any chain of steps the manual count grows by exactly the number of handoffs |
| RetryLineage.ChainFollowsTrace | src/relayna/consumer/context.py:515-637 | every header after any chain is what the history of that header alone says |
| RetryLineage.AttemptReadsBack | src/relayna/consumer/context.py:505-512 | the attempt read back is the last one written, or 0 after a handoff |
| RetryLineage.LastHandoffSpeaks | src/relayna/consumer/context.py:603-637 | source, reason and task type are those of the last handoff, however many retries followed; nothing stale survives |
| RetryLineage.HandoffEndsRetries | src/relayna/consumer/context.py:613-628 | a handoff leaves no automatic-retry header |
| RetryLineage.UnreservedUntouched | src/relayna/consumer/context.py:515-637 | headers that nobody names pass through any chain |
| RetryLineage.HandoffCountsIff | src/relayna/consumer/context.py:630-636 | with arbitrary extra headers, a handoff counts itself exactly when they leave the count alone or say the same |
| RetryLineage.HandoffMayBeUncounted | src/relayna/consumer/context.py:630-636 | extra headers that say zero leave a handoff uncounted |
| ManualRetry.TaskContext.RewrittenSays | src/relayna/consumer/context.py:225-260 | field by field, what a handed-off task says |
| ManualRetry.TaskContext.MergedPayloadSays | src/relayna/consumer/context.py:239-242 | entry by entry, a merged payload takes what the merge names and keeps the rest of the old one |
| ManualRetry.TaskContext.ManualRetry | src/relayna/consumer/context.py:200-287 | each refusal is given exactly for its own reason, and leaves no request; otherwise the request carries the rewritten and validated task, the chain's next headers with the former type, and a message and metadata that announce it |
| StatusMeta.MergeStatusMeta | src/relayna/consumer/context.py:289-304 | a reader of the updated dictionary gets, field by field, the caller's value or else the context's, and every other entry is as given |
| StatusMeta.HandoffMeta | src/relayna/consumer/context.py:653-675 | a reader of a handoff's metadata gets the caller's value or else the handoff's, with the new count and the target type |
| StatusMeta.MergeReadsBack | src/relayna/consumer/context.py:571-589 | field by field, a reader of the merged metadata gets the caller's value, else the context's lineage, and a count that is never negative |
| StatusMeta.ContextReadsBack | src/relayna/consumer/context.py:571-589 | a caller who says nothing of the lineage leaves the reader with the context itself; a count the caller says is read as the number it is, none below zero |
| StatusMeta.OthersUntouched | src/relayna/consumer/context.py:289-304 | no other entry changes |
| StatusMeta.MergeIsIdempotent | src/relayna/consumer/context.py:289-304 | merging twice is merging once |
| AdmissionQueue.SlotsAreBounded | apps/studio/src/api.ts:51-63 | the counter is the number of slot holders, at most eight, and exactly eight while anyone waits |
| AdmissionQueue.FirstInFirstOut | apps/studio/src/api.ts:60-63 | slots are given in exactly the order of the calls |
| AdmissionQueue.OneReadPerAddress | apps/studio/src/api.ts:57-65 | an address has at most one unfinished read, its entry lives as long, and a call joins it exactly while it is there |
| AdmissionHistory.TurnIsByCount | apps/studio/src/api.ts:55-64 | the reads are those of calls that found none of their address under way; read number i has its slot as soon as more than i - 8 reads have ended, and not before |
| AdmissionHistory.CallsShareReads | apps/studio/src/api.ts:57-66 | a call answers with the read of its address that has not ended, or makes one if there is none |
| AdmissionHistory.WorkRunsDry | apps/studio/src/api.ts:59-64 | without new calls a run takes at most three steps for each read |
| AdmissionHistory.NoReadIsStuck | apps/studio/src/api.ts:59-64 | as long as a read has not ended, some read can run on or end; then no slot, no place in the queue and no entry is left |
| AdmissionHistory.GrantedRuns | apps/studio/src/api.ts:60-63 | a read whose slot was handed over runs on, and can then end |
| AdmissionQueue.Requests.RequestJson | apps/studio/src/api.ts:55-66 | one call on the module's variables |
| AdmissionQueue.Requests.Ended | apps/studio/src/api.ts:62-63 | the end of a read hands its slot to the first in the queue or gives it up |
| AdmissionQueue.Requests.Play | apps/studio/src/api.ts:51-67 | under any interleaving the variables go through exactly the states of the step system |
| ServicesLoader.LatestWins | apps/studio/src/services-context.tsx:112-128 | responses land in strictly increasing order of their tokens |
| ServicesLoader.InFlightIsNewest | apps/studio/src/services-context.tsx:103-152 | the in-flight record, if there is one, carries the newest token |
| ServicesLoader.LoadingIffForeground | apps/studio/src/services-context.tsx:116-148 | while mounted, loading is shown exactly while a foreground load is in flight |
| ServicesLoader.FreshIsUncontested | apps/studio/src/services-context.tsx:129-139 | a fresh load resolves only with its own response, landed; superseded, it is refused and changes nothing |
| LoaderHistory.LoadsAreStarted | apps/studio/src/services-context.tsx:103-114 | a load is started by a mount or a call, except a call that joins the newest load because that is not answered and fits |
| LoaderHistory.ShowsLastLanded | apps/studio/src/services-context.tsx:115-148 | what is shown is the list that landed last while mounted; the error and loading flags likewise follow from the answers |
| LoaderHistory.AnswersSettle | apps/studio/src/services-context.tsx:118-141 | a load resolves with its own list if that landed; otherwise a fresh one is refused, and any other gets the list then held |
| ServicesLoader.Provider.LoadServices | apps/studio/src/services-context.tsx:103-155 | joining a load in flight, or starting a newer one |
| ServicesLoader.Provider.Responded | apps/studio/src/services-context.tsx:118-130 | what an answer does to refs and state |
| ServicesLoader.Provider.Play | apps/studio/src/services-context.tsx:103-155 | under any interleaving refs and state go through exactly the states of the step system |
| MonitorRead.RecordIsOwnExactly | apps/studio/src/monitor-data.ts:14-17 | over any run, the cooldown holds the failures in a row and the pause of the provider asked for, throughout, if and only if no answer is heard while another provider is asked for |
| MonitorRead.StepOwnedExactly | apps/studio/src/monitor-data.ts:44-67 | a single step spoils a right record exactly if it is a misheard success or provider failure |
| MonitorRead.NoReadDuringPause | apps/studio/src/monitor-data.ts:30-37 | in runs whose answers are heard in time, no read starts under a provider before the pause after its failure is over, unless it succeeded or another provider was asked for in between |
| MonitorRead.BackoffIsCapped | apps/studio/src/monitor-data.ts:61-66 | in such runs a provider's k-th failure in a row pauses for min(300 s, 45 s doubled at most three times), up to a tenth more or less, and never for more than 300 s |
| MonitorRead.BreakerHoldsExactly | apps/studio/src/monitor-data.ts:44-56 | after any such run, one more step of any kind leaves the circuit breaker intact for good if and only if it is not a success heard under another, enabled provider |
| MonitorRead.MisheardSuccessForgetsPause | apps/studio/src/monitor-data.ts:44-56 | whenever such a success is heard, a failure of the new provider can be followed by a read in the same moment |
| MonitorRead.ForgettingHappens | apps/studio/src/monitor-data.ts:14-17 | a run of two steps leads to such a success |
| MonitorRead.MisheardFailureIsCharged | apps/studio/src/monitor-data.ts:61-66 | a misheard failure always leaves the provider asked for with one failure more than its own, and paused |
| MonitorRead.DisplayedIsOwned | apps/studio/src/monitor-data.ts:82-85 | what is displayed was fetched under the key now asked for |
| MonitorHistory.DisplaysLastValue | apps/studio/src/monitor-data.ts:37-56 | the data displayed is the value of the last success under the key asked for since the hook last turned to another key, or none |
| MonitorHistory.DisplaysLastTurn | apps/studio/src/monitor-data.ts:32-72 | the error is that of the last answer or of the pause that put the read off; loading is said after a read began, and before the first effect under a new key if enabled |
| MonitorHistory.LoadingExactly | apps/studio/src/monitor-data.ts:25-43 | with the effect up to date, loading is said exactly while a read is under way, if and only if the hook was not disabled in the middle of it |
| MonitorHistory.CutOffHappens | apps/studio/src/monitor-data.ts:25-26 | three steps lead to a disabled hook that says loading with no read under way |
| MonitorHistory.ReadsUnlessPaused | apps/studio/src/monitor-data.ts:25-45 | in timely runs an effect of the enabled hook reads exactly if no pause of its provider is open, and waits with a timer otherwise |
| MonitorHistory.FaultsPause | apps/studio/src/monitor-data.ts:57-72 | in timely runs a failure without a status or with one of 500 and up is counted and opens a pause of the exact length; any other leaves the provider's record alone |
| MonitorHistory.KeysTellApart | apps/studio/src/monitor-data.ts:12-12 | keys tell requests and providers apart |
| MonitorRead.PauseEndsInRead | apps/studio/src/monitor-data.ts:27-37 | an enabled, paused, up-to-date hook has a timer for no earlier than the end of the pause, and when it fires the next effect reads |
| MonitorRead.Hook.Render | apps/studio/src/monitor-data.ts:12-19 | a new provider resets the cooldown; what is returned |
| MonitorRead.Hook.RunEffect | apps/studio/src/monitor-data.ts:24-46 | the effect waits during a pause and reads otherwise |
| MonitorRead.Hook.Failed | apps/studio/src/monitor-data.ts:57-72 | what a failed read does to the cooldown and the record |
| MonitorRead.Hook.Play | apps/studio/src/monitor-data.ts:12-85 | under any interleaving refs and state go through exactly the states of the step system |
| DecimalMultiples.DecimalDenotes | apps/studio/src/load-testing.tsx:35-39 | dropping the point and counting it into the exponent keeps the number |
| DecimalMultiples.DivisibilityIsExact | apps/studio/src/load-testing.tsx:33-45 | the check accepts exactly the whole multiples of a positive step |
| DecimalMultiples.NotationIrrelevant | apps/studio/src/load-testing.tsx:33-45 | however the two numbers are written |
| InitialNumber.InitialNumber | apps/studio/src/load-testing.tsx:47-65 | the search returns a number that satisfies the schema if there is one and the step fits, and with a step one closest to zero |
| InitialNumber.FieldChecksSchema | apps/studio/src/load-testing.tsx:136-141 | the field's native bounds and messages accept exactly what the schema's bounds, step and integer range allow |
| InitialNumber.SteppedSearch | apps/studio/src/load-testing.tsx:52-58 | with a step, a multiple in the bounds is found whenever there is one, and none is closer to zero |
| InitialNumber.PlainSearch | apps/studio/src/load-testing.tsx:59-63 | without one, a number in the bounds is found whenever there is one |
| InitialNumber.FirstNumberSatisfies | apps/studio/src/load-testing.tsx:47-65 | if the field accepts any number, it accepts the proposed one |
| InitialNumber.FractionalStepFails | apps/studio/src/load-testing.tsx:50-50 | an integer field with a step of one half is given one half |
| InitialNumber.IntegerStepExactly | apps/studio/src/load-testing.tsx:50-58 | for an integer field the search is right under all bounds if and only if the step is whole, or no integer in range but zero is a multiple of it |
| LabelPairs.ParseLabelPairs | apps/studio/src/api.ts:124-142 | the loop that fills the record computes the labels of the text |
| LabelPairs.ParsedIsClean | apps/studio/src/api.ts:124-142 | whatever the text, the labels read from it are trimmed, not blank, and free of separators |
| LabelPairs.LabelsSurviveExactly | apps/studio/src/api.ts:124-149 | parsing undoes formatting if and only if every label is clean, in whatever order the labels are printed |
| LabelPairs.CommaSplitsTag | apps/studio/src/api.ts:269-272 | a tag with a comma comes back as two |
| LabelPairs.TagsSurviveExactly | apps/studio/src/api.ts:269-272 | a list of tags survives the form if and only if every tag is clean |
| LabelReading.TrimIsTheCore | apps/studio/src/api.ts:124-139 | trimming removes exactly the white space around a text |
| LabelReading.ItemsAreParts | apps/studio/src/api.ts:269-272 | for any text, the tags are the parts between commas that are not blank, in order, trimmed |
| LabelReading.LabelsAreLastSaid | apps/studio/src/api.ts:124-142 | for any text, a label is there exactly if some part names it and no later part names its key again |
| ServiceDraft.SelectorSurvivesExactly | apps/studio/src/api.ts:151-170 | splitting the selector labels and merging them back is lossless if and only if the preferred entry is trimmed and the others are clean |
| ServiceDraft.ServiceIsShown | apps/studio/src/api.ts:151-165 | the pair of fields shows the label named `service`, or without one the first |
| ServiceDraft.MergeSelector | apps/studio/src/api.ts:222-225 | in the merged labels the two fields decide about their own key, the text about every other, and nothing is blank or padded |
| DraftFields.LogDraftSaves | apps/studio/src/api.ts:222-291 | however edited, a log draft is saved exactly if it was touched, and what each of its fields then saves |
| DraftFields.MetricsDraftSaves | apps/studio/src/api.ts:243-306 | the same for metrics, with the defaults of numbers that do not read |
| DraftFields.TraceDraftSaves | apps/studio/src/api.ts:256-316 | the same for traces |
| DraftFields.DraftSaves | apps/studio/src/api.ts:264-318 | the names, the tags and the three configurations of any draft |
| ServiceDraft.BuildPayload | apps/studio/src/api.ts:221-318 | from an unedited draft the payload is the record again, up to the defaults, exactly if the record is lossless |
| ServiceDraft.StatusSurvives | apps/studio/src/api.ts:226-316 | for every record of the registry each configuration is saved if and only if it was there |
| ServiceDraft.PaddingSurvivesExactly | apps/studio/src/api.ts:211-211 | the task window padding comes back exactly if it is not zero |
| ServiceDraft.LogSurvivesExactly | apps/studio/src/api.ts:222-291 | a log configuration comes back, defaults filled in, if and only if it is tidy |
| ServiceDraft.MetricsSurviveExactly | apps/studio/src/api.ts:243-306 | a metrics configuration comes back if and only if it is tidy |
| ServiceDraft.TraceSurvivesExactly | apps/studio/src/api.ts:256-316 | a trace configuration comes back if and only if it is tidy and says something |
| ServiceDraft.BareTraceIsLost | apps/studio/src/api.ts:256-262 | one that says nothing comes back as none |
| ServiceDraft.AbsentStaysAbsent | apps/studio/src/api.ts:172-318 | an absent configuration stays absent, whatever the defaults in the draft |
| ServiceDraft.RoundTripExactly | apps/studio/src/api.ts:172-318 | saving an unedited draft gives the whole record back, up to the defaults, if and only if the record is lossless |
| AnsiSegments.SequenceLengthMatches | apps/studio/src/ui.tsx:706-706 | the stripping pattern matches in at most one way, and the scanner finds it |
| AnsiSegments.ColouringLengthMatches | apps/studio/src/ui.tsx:705-705 | likewise the colouring pattern |
| AnsiSegments.ColouringIsSequence | apps/studio/src/ui.tsx:705-706 | whatever colours is also stripped, by the same match |
| AnsiSegments.State.ApplyAnsiCode | apps/studio/src/ui.tsx:730-751 | one code's effect on colour and weight |
| AnsiSegments.PlainPiece | apps/studio/src/ui.tsx:761-776 | a piece between two colouring sequences can be stripped on its own |
| AnsiSegments.ShownIsStripped | apps/studio/src/ui.tsx:726-728 | the characters of the reference reading are those that stripping leaves |
| AnsiSegments.ParseAnsiSegments | apps/studio/src/ui.tsx:753-788 | for every text, the segments show each visible character once, in order, in the style of all codes before it; their texts are the stripped text |
| AnsiCodes.TextTakesStyle | apps/studio/src/ui.tsx:707-783 | text behind a colouring sequence has the colour of the last number in it that speaks of colour and the weight of the last that speaks of weight, blanks, leading zeros and numbers too large to be finite included |
| AnsiCodes.ResetMakesPlain | apps/studio/src/ui.tsx:731-735 | after a sequence that ends in a reset everything is plain |
| AnsiCodes.PlainText | apps/studio/src/ui.tsx:761-786 | text without an escape is shown as it is |
| AnsiCodes.OtherSequencesVanish | apps/studio/src/ui.tsx:726-728 | any other control sequence shows nothing and changes nothing |
| MermaidIds.FreeName | apps/studio/src/ui.tsx:582-592 | the first candidate not in use is found; the search ends |
| MermaidIds.BaseNameShows | apps/studio/src/ui.tsx:583-583 | the base shows the id with every other character an underscore and none at its ends, or `item` |
| MermaidIds.AssignIds | apps/studio/src/ui.tsx:578-592 | the names are plain and pairwise different, each the first candidate of its id that no earlier name has taken, and each id has that of its last occurrence |
| MermaidIds.NamesAreUnique | apps/studio/src/ui.tsx:578-592 | different ids never share a name |
| GraphLevels.LevelNodes | apps/studio/src/graph-surface.tsx:26-65 | the worklist ends on every graph, cycles included; its queue is the starting nodes and then each id in the order in which the expansions of the queue first meet it |
| GraphLevels.StartsExactly | apps/studio/src/graph-surface.tsx:41-44 | it starts at the nodes that no edge points to, or at the first node of a graph without one |
| GraphLevels.RootsInOrder | apps/studio/src/graph-surface.tsx:41-41 | those nodes come in the order of the node list |
| GraphLevels.TargetsInOrder | apps/studio/src/graph-surface.tsx:35-38 | the targets of an id are those of its edges, in the order of the edge list |
| GraphLevels.VisitedIsReachable | apps/studio/src/graph-surface.tsx:39-65 | exactly what can be reached from a starting node is visited, once each, at the length of some walk to it |
| GraphLevels.LevelIsLongestForward | apps/studio/src/graph-surface.tsx:49-65 | a level is exactly the length of the longest walk that expands its ids in queue order, and at most the number of expansions |
| GraphLevels.LevelsAboveZero | apps/studio/src/graph-surface.tsx:49-68 | a node is right of the first column exactly if an edge leads to it from one that is reached; a node that no edge points to never is |
| GraphPlacement.EveryNodeOnce | apps/studio/src/graph-surface.tsx:66-89 | the nodes placed are the nodes of the graph, each as often as it occurs |
| GraphPlacement.ColumnsStand | apps/studio/src/graph-surface.tsx:73-89 | columns from left to right at their levels, rows by id from the top without gaps |
| GraphPlacement.PositionsDistinct | apps/studio/src/graph-surface.tsx:87-89 | no two nodes share a position |
| GraphPlacement.BuildFlowNodes | apps/studio/src/graph-surface.tsx:26-115 | the whole layout: worklist levels, every node once, at a position of its own in the column of its level; what no edge points to at the left, and further right exactly what an edge leads to from a node that is reached |

## Left out

- `benchmarks/` and `scripts/`: timing, reports, subprocesses and live brokers.
- Routers, lifespan wiring, Pydantic models, metrics, storage, Redis keys, the transport codec, and the
  internals of topologies, policies, dead-letter handling and consumers; a topology is its list of stages
  with keys, plus entry routes, and when to retry is the caller's decision.
- React rendering, styling, labels and timestamps of nodes, focus and the DOM; the effect that copies the
  services state back into its ref.
- `fetch`, its time limits, abort signals, CSRF headers and sign-in: a network call is a step that succeeds
  or fails. Requests that are no plain reads bypass the queue and are not modelled.
- Floating point: numbers are exact reals, so rounding, overflow and negative zero do not occur.
- Header values that are floats: `int` of a value is a parameter for strings and defined for integers only.
- The JSON and URI encoding of the cursor is the identity; so is the JSON encoding of composite keys.
- Collation: sorting by `localeCompare` is sorting by rank, and label entries come in any order.
- `initialInput`, apart from its numeric case: it copies defaults, first choices and the shape of the schema.
- The text lines of the Mermaid chart, and the lookup of colours for graph nodes.
- RetryLineage.CountGrowsByHandoffs: for chains whose extra headers avoid the reserved names; what happens
  otherwise is `RetryLineage.HandoffCountsIff`.
- ServiceDraft.RoundTripExactly: the two numeric fields travel as numbers or as text that is no number; how
  a number prints is not modelled.
- FederatedRuns.Drain: a run with a failed read is not followed to its end, since a failing service may fail
  for ever; `FederatedRuns.Browse` covers such runs.
