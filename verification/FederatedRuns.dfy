/** Whole client runs over `ScopedResults`: feeding the returned cursor back, call after call. */
module FederatedRuns {
  import opened Streams
  import opened GreedyMerge
  import opened ScopedResults

  function Decoded(cursor: Option<Positions>): Positions {
    if cursor.Some? then cursor.value else map[]
  }

  predicate Reported(errors: seq<ErrorEntry>, s: Sid) {
    exists e :: e in errors && e.service == s
  }

  /** A run so far: the positions it holds, the page of its chain each service stands in, and all it
      has emitted, with the service each item came from. */
  datatype Progress = Progress(positions: Positions, depth: map<Sid, nat>, trace: Trace)

  /** The positions say exactly what has been emitted for each service. */
  ghost predicate Exact(up: Upstream, run: Progress) {
    forall s :: ExactFor(up, run, s)
  }

  ghost predicate ExactFor(up: Upstream, run: Progress, s: Sid) {
    SlotGood(up, s, Slot(PosOf(run.positions, s), [], Start), DepthOf(run.depth, s), Of(run.trace, s))
  }

  /** What a run still has to do for one service. */
  ghost function Owes(up: Upstream, last: Sid -> nat, run: Progress, s: Sid): nat {
    Todo(up, s, last(s), DepthOf(run.depth, s), Of(run.trace, s))
  }

  ghost function Full(up: Upstream, ids: seq<Sid>, last: Sid -> nat): Rest {
    map s | s in ids :: Stream(up, s, last(s))
  }

  /** The run has emitted an initial part of the greedy merge of the full streams. */
  ghost predicate Greedy(up: Upstream, ids: seq<Sid>, last: Sid -> nat, trace: Trace) {
    trace == Take(Full(up, ids, last), |trace|)
  }

  /** What a call of the run starts from. */
  ghost function OriginOf(up: Upstream, ids: seq<Sid>, run: Progress): Origin {
    var past := run.trace;
    Origin(up, ids, s => Of(past, s), run.depth)
  }

  /** The call emitted the next part of the greedy merge, as much as its limit allows. */
  ghost predicate GreedyPart(up: Upstream, ids: seq<Sid>, last: Sid -> nat, trace: Trace, part: Trace, limit: nat) {
    part == Take(Left(Full(up, ids, last), |trace|), limit)
  }

  /** No service with more items sat out behind an empty page while an item was emitted that its next
      one beats, or while the limit was not reached. */
  ghost predicate NoneOvertaken(up: Upstream, ids: seq<Sid>, last: Sid -> nat, run: Progress, run': Progress,
                                part: Trace, limit: nat) {
    var o, l := OriginOf(up, ids, run), Ledger(run'.depth, part);
    NoUndercut(o, l, last) && (|part| < limit ==> forall s :: !Held(o, l, last, s))
  }

  ghost predicate NoneFailed(log: seq<Asked>) {
    forall q | q in log :: q.result.Fetched?
  }

  /** Some read of the service has failed. */
  ghost predicate Refused(log: seq<Asked>, s: Sid) {
    exists q :: q in log && q.service == s && q.result.Failed?
  }

  /** The reads of a stable upstream: the pages answered are its pages. */
  ghost predicate Genuine(up: Upstream, log: seq<Asked>) {
    forall q | q in log && q.result.Fetched? :: q.result.page == up(q.service, q.at)
  }

  /** The response tells of the reads: its errors are those of the failed reads, its scanned services
      those that answered a page. */
  ghost predicate Faithful(r: Response, log: seq<Asked>) {
    && (forall s, detail :: ErrorEntry(s, detail) in r.errors <==> exists q :: q in log && FailedWith(q, s, detail))
    && (r.errors == [] <==> NoneFailed(log))
    && Distinct(r.scanned)
    && (forall s :: s in r.scanned <==> exists q :: q in log && q.service == s && q.result.Fetched?)
  }

  lemma TellsFaithfully(r: Response, log: seq<Asked>)
    requires r.errors == Failures(log) && r.scanned == Answering(log)
    ensures Faithful(r, log) && forall s :: Reported(r.errors, s) <==> Refused(log, s)
  {
    forall s, detail
      ensures ErrorEntry(s, detail) in r.errors <==> exists q :: q in log && FailedWith(q, s, detail)
    {
      FailuresAreReported(log, s, detail);
    }
    FailuresCount(log);
    AnsweringAreFetched(log);
    forall s
      ensures Reported(r.errors, s) <==> Refused(log, s)
    {
      ReportedIsRefused(r.errors, log, s);
    }
  }

  lemma ReportedIsRefused(errors: seq<ErrorEntry>, log: seq<Asked>, s: Sid)
    requires errors == Failures(log)
    ensures Reported(errors, s) <==> Refused(log, s)
  {
    if Reported(errors, s) {
      var e :| e in errors && e.service == s;
      FailuresAreReported(log, s, e.detail);
      assert ErrorEntry(s, e.detail) in errors;
      var q :| q in log && FailedWith(q, s, e.detail);
      assert q.service == s && q.result.Failed?;
    }
    if Refused(log, s) {
      var q :| q in log && q.service == s && q.result.Failed?;
      FailuresAreReported(log, s, Detail(q.result.failure));
      assert FailedWith(q, s, Detail(q.result.failure));
    }
  }

  function AtLeastZero(limit: int): nat {
    if limit > 0 then limit else 0
  }

  /** The services read are the unfinished ones of the call. */
  ghost predicate ReadsUnfinished(log: seq<Asked>, ids: seq<Sid>, start: Positions) {
    forall s :: (exists q :: q in log && q.service == s) <==> s in ids && !PosOf(start, s).done
  }

  ghost predicate OwesNoMore(up: Upstream, ids: seq<Sid>, last: Sid -> nat, run: Progress, run': Progress) {
    forall s | s in ids :: Owes(up, last, run', s) <= Owes(up, last, run, s)
  }

  ghost predicate OwesLess(up: Upstream, ids: seq<Sid>, last: Sid -> nat, run: Progress, run': Progress) {
    exists s :: s in ids && Owes(up, last, run', s) < Owes(up, last, run, s)
  }

  /** The call itself, and what it leaves behind in its variables. */
  method MakeCall(up: Upstream, ids: seq<Sid>, cursor: Option<Positions>, limit: int,
                  ghost run: Progress, ghost last: Sid -> nat)
    returns (r: Response, ghost v: View, ghost l: Ledger, ghost log: seq<Asked>)
    requires Exact(up, run) && Decoded(cursor) == run.positions && Distinct(ids)
    ensures r.items == v.items && r.errors == v.errors && r.scanned == v.scanned
    ensures r.nextCursor.Some? ==> r.nextCursor.value == v.positions
    ensures r.nextCursor.None? <==> forall s | s in ids :: PosOf(v.positions, s).done || Reported(v.errors, s)
    ensures ToldIn(OriginOf(up, ids, run), run.positions, v, log)
    ensures |log| <= |ids| + if 0 < |v.items| == limit then limit - 1 else |v.items|
    ensures Conserved(OriginOf(up, ids, run), v, l) && Scoped(OriginOf(up, ids, run), v, l)
    ensures |v.items| <= AtLeastZero(limit)
    ensures Finite(up, ids, last) && v.errors == [] && |v.items| < limit ==>
              AllPlaced(OriginOf(up, ids, run), v, l) && Exhausted(v.pages)
    ensures v.errors == [] && limit > 0 ==> Moved(OriginOf(up, ids, run), v, l)
    ensures Finite(up, ids, last) && v.errors == [] ==>
              InOrder(OriginOf(up, ids, run), v, l, AtLeastZero(limit), last)
  {
    var call := new Call(up, ids, cursor);
    ghost var o := OriginOf(up, ids, run);
    StartsConserved(o, call.V(), run);
    l := call.Run(limit, o, Ledger(run.depth, []), last);
    var more := exists s :: s in ids && !PosOf(call.positions, s).done && !Reported(call.errors, s);
    r := Response(call.items, if more then Some(call.positions) else None, call.errors, call.scanned);
    v, log := call.V(), call.log;
  }

  /** One call of a run. `log` holds the reads it made, in the order they ended. */
  method ScopedRead(up: Upstream, ids: seq<Sid>, cursor: Option<Positions>, limit: int,
                    ghost run: Progress, ghost last: Sid -> nat)
    returns (r: Response, ghost run': Progress, ghost part: Trace, ghost log: seq<Asked>)
    requires Exact(up, run) && Decoded(cursor) == run.positions && Distinct(ids)
    // the reads: each unfinished service is read, none else, and only as far as rows are wanted
    ensures ReadsUnfinished(log, ids, Decoded(cursor))
    ensures |log| <= |ids| + if 0 < |r.items| == limit then limit - 1 else |r.items|
    ensures Genuine(up, log) && Faithful(r, log)
    // conservation, whatever fails and whichever pages are empty
    ensures Exact(up, run') && run'.trace == run.trace + part
    ensures r.items == Payloads(part) && |r.items| <= AtLeastZero(limit)
    // what the returned cursor means
    ensures r.nextCursor.Some? ==> r.nextCursor.value == run'.positions
    ensures r.nextCursor.None? <==> forall s | s in ids :: PosOf(run'.positions, s).done || Refused(log, s)
    // progress
    ensures Finite(up, ids, last) ==> OwesNoMore(up, ids, last, run, run')
    ensures Finite(up, ids, last) && r.nextCursor.Some? && NoneFailed(log) && limit > 0 ==>
              OwesLess(up, ids, last, run, run')
    ensures Dense(up, ids, last) && NoneFailed(log) && |r.items| < limit ==> r.nextCursor.None?
    // order, exactly
    ensures Finite(up, ids, last) && NoneFailed(log) && Greedy(up, ids, last, run.trace) ==>
              (GreedyPart(up, ids, last, run.trace, part, AtLeastZero(limit)) <==>
                 NoneOvertaken(up, ids, last, run, run', part, AtLeastZero(limit)))
    ensures Dense(up, ids, last) ==> NoneOvertaken(up, ids, last, run, run', part, AtLeastZero(limit))
    ensures Dense(up, ids, last) && NoneFailed(log) && Greedy(up, ids, last, run.trace) ==>
              Greedy(up, ids, last, run'.trace)
  {
    ghost var v, l;
    r, v, l, log := MakeCall(up, ids, cursor, limit, run, last);
    part := l.trace;
    run' := Progress(v.positions, l.depth, run.trace + part);
    TellsFaithfully(r, log);
    OnlyUnfinishedRead(log, run.positions, ids);
    EndsExact(OriginOf(up, ids, run), v, l, run);
    ProgressOfCall(up, ids, last, run, run', part, v);
    if Dense(up, ids, last) && r.errors == [] && |r.items| < limit {
      ShortIsDone(OriginOf(up, ids, run), v, l, last);
    }
    OrderOfCall(up, ids, last, run, run', part, limit, r.errors == [], v, l);
  }

  lemma OnlyUnfinishedRead(log: seq<Asked>, start: Positions, ids: seq<Sid>)
    requires Whom(log) == Unfinished(start, IdSet(ids))
    ensures ReadsUnfinished(log, ids, start)
  {
    forall s
      ensures (exists q :: q in log && q.service == s) <==> s in ids && !PosOf(start, s).done
    {
      assert s in Whom(log) <==> exists q :: q in log && q.service == s;
      assert s in IdSet(ids) <==> s in ids;
    }
  }

  lemma ProgressOfCall(up: Upstream, ids: seq<Sid>, last: Sid -> nat, run: Progress, run': Progress, part: Trace,
                       v: View)
    requires Exact(up, run) && Exact(up, run') && run'.trace == run.trace + part
    requires forall s :: DepthOf(run.depth, s) <= DepthOf(run'.depth, s)
    ensures Finite(up, ids, last) ==> OwesNoMore(up, ids, last, run, run')
    ensures Finite(up, ids, last) && Moved(OriginOf(up, ids, run), v, Ledger(run'.depth, part)) ==>
              (forall s | s in ids :: PosOf(v.positions, s).done) || OwesLess(up, ids, last, run, run')
  {
    if Finite(up, ids, last) {
      Shrinks(up, ids, last, run, run', part);
      if s :| s in ids && (Of(part, s) != [] || DepthOf(run.depth, s) < DepthOf(run'.depth, s)) {
        assert Owes(up, last, run', s) < Owes(up, last, run, s);
      }
    }
  }

  lemma OrderOfCall(up: Upstream, ids: seq<Sid>, last: Sid -> nat, run: Progress, run': Progress, part: Trace,
                    limit: int, smooth: bool, v: View, l: Ledger)
    requires l == Ledger(run'.depth, part) && run'.trace == run.trace + part && |part| <= AtLeastZero(limit)
    requires Conserved(OriginOf(up, ids, run), v, l)
    requires |v.items| == |part|
    requires Finite(up, ids, last) && smooth ==> InOrder(OriginOf(up, ids, run), v, l, AtLeastZero(limit), last)
    ensures Finite(up, ids, last) && smooth && Greedy(up, ids, last, run.trace) ==>
              (GreedyPart(up, ids, last, run.trace, part, AtLeastZero(limit)) <==>
                 NoneOvertaken(up, ids, last, run, run', part, AtLeastZero(limit)))
    ensures Dense(up, ids, last) ==> NoneOvertaken(up, ids, last, run, run', part, AtLeastZero(limit))
    ensures Dense(up, ids, last) && smooth && Greedy(up, ids, last, run.trace) ==> Greedy(up, ids, last, run'.trace)
  {
    if Dense(up, ids, last) {
      DenseIsGreedy(OriginOf(up, ids, run), v, l, last);
    }
    if Finite(up, ids, last) && smooth && Greedy(up, ids, last, run.trace) {
      UnreadIsLeft(up, ids, last, run);
      if Dense(up, ids, last) {
        TakeFrom(Full(up, ids, last), run.trace, part, AtLeastZero(limit));
      }
    }
  }

  lemma StartsConserved(o: Origin, v: View, run: Progress)
    requires v.pages == map[] && Exact(o.up, run) && v.positions == run.positions
    requires o.startDepth == run.depth && forall s :: o.before(s) == Of(run.trace, s)
    ensures Reading(o, v, Ledger(run.depth, []), {})
  {
    forall s
      ensures Good(o, v, Ledger(run.depth, []), s)
    {
      assert ExactFor(o.up, run, s);
      assert o.before(s) + Of([], s) == o.before(s);
    }
  }

  lemma EndsExact(o: Origin, v: View, l: Ledger, run: Progress)
    requires Conserved(o, v, l) && o.startDepth == run.depth && forall s :: o.before(s) == Of(run.trace, s)
    ensures Exact(o.up, Progress(v.positions, l.depth, run.trace + l.trace))
    ensures forall s :: DepthOf(run.depth, s) <= DepthOf(l.depth, s)
  {
    forall s
      ensures ExactFor(o.up, Progress(v.positions, l.depth, run.trace + l.trace), s)
      ensures DepthOf(run.depth, s) <= DepthOf(l.depth, s)
    {
      assert Good(o, v, l, s);
      OfConcat(run.trace, l.trace, s);
    }
  }

  lemma Shrinks(up: Upstream, ids: seq<Sid>, last: Sid -> nat, run: Progress, run': Progress, part: Trace)
    requires Finite(up, ids, last) && Exact(up, run) && Exact(up, run')
    requires run'.trace == run.trace + part
    requires forall s :: DepthOf(run.depth, s) <= DepthOf(run'.depth, s)
    ensures forall s | s in ids :: Owes(up, last, run', s) <= Owes(up, last, run, s)
    ensures forall s | s in ids && (Of(part, s) != [] || DepthOf(run.depth, s) < DepthOf(run'.depth, s)) ::
              Owes(up, last, run', s) < Owes(up, last, run, s)
  {
    forall s | s in ids
      ensures Owes(up, last, run', s) <= Owes(up, last, run, s)
      ensures Of(part, s) != [] || DepthOf(run.depth, s) < DepthOf(run'.depth, s) ==>
                Owes(up, last, run', s) < Owes(up, last, run, s)
    {
      OfConcat(run.trace, part, s);
      assert ExactFor(up, run, s) && ExactFor(up, run', s);
      TodoShrinks(up, s, last(s), PosOf(run.positions, s), DepthOf(run.depth, s), Of(run.trace, s),
                  PosOf(run'.positions, s), DepthOf(run'.depth, s), Of(part, s));
    }
  }

  lemma UnreadIsLeftAt(stream: seq<Item>, of: seq<Item>, left: seq<Item>)
    requires stream == of + left
    ensures (if |of| <= |stream| then stream[|of|..] else []) == left
  {
  }

  /** What is unread after a greedy trace is what the greedy merge has left. */
  lemma UnreadIsLeft(up: Upstream, ids: seq<Sid>, last: Sid -> nat, run: Progress)
    requires Greedy(up, ids, last, run.trace)
    ensures Rests(OriginOf(up, ids, run), last) == Left(Full(up, ids, last), |run.trace|)
  {
    var full := Full(up, ids, last);
    var left := Left(full, |run.trace|);
    LeftKeys(full, |run.trace|);
    forall s | s in ids
      ensures UnreadOf(up, s, last(s), Of(run.trace, s)) == left[s]
    {
      TakeConserves(full, |run.trace|, s);
      UnreadIsLeftAt(full[s], Of(run.trace, s), left[s]);
    }
  }

  lemma TakeFrom(rest: Rest, trace: Trace, part: Trace, limit: nat)
    requires trace == Take(rest, |trace|) && part == Take(Left(rest, |trace|), limit)
    ensures trace + part == Take(rest, |trace + part|)
  {
    TakeShort(Left(rest, |trace|), limit);
    TakeSplits(rest, |trace|, |part|);
  }

  lemma StartsExact(up: Upstream)
    ensures Exact(up, Progress(map[], map[], []))
  {
    forall s
      ensures ExactFor(up, Progress(map[], map[], []), s)
    {
    }
  }

  /** The items emitted for a service are an initial part of its stream, without gap or repetition,
      and the position held for it stands exactly past them. */
  lemma EmittedIsPrefix(up: Upstream, run: Progress, s: Sid, last: nat)
    requires Exact(up, run) && Ends(up, s, last)
    ensures Of(run.trace, s) <= Stream(up, s, last)
    ensures PosOf(run.positions, s).done ==> Of(run.trace, s) == Stream(up, s, last)
  {
    assert ExactFor(up, run, s);
    RowsComeNext(up, s, Slot(PosOf(run.positions, s), [], Start), DepthOf(run.depth, s), Of(run.trace, s), last);
  }

  /** The items of a run are what it has emitted, its cursor stands exactly behind them, and each
      service has given an initial part of its stream. */
  ghost predicate Accounted(up: Upstream, items: seq<Item>, cursor: Option<Positions>, run: Progress) {
    && items == Payloads(run.trace) && Exact(up, run)
    && (cursor.Some? ==> cursor.value == run.positions)
    && (forall s, last: nat | Ends(up, s, last) :: Of(run.trace, s) <= Stream(up, s, last))
  }

  /** Any run at all: each step may name other services and another limit, any read may fail, any
      page may be empty. */
  method Browse(up: Upstream, script: seq<(seq<Sid>, int)>) returns (items: seq<Item>, cursor: Option<Positions>)
    requires forall i | 0 <= i < |script| :: Distinct(script[i].0)
    ensures exists run :: Accounted(up, items, cursor, run)
  {
    ghost var run := Progress(map[], map[], []);
    items, cursor := [], None;
    StartsExact(up);
    var i := 0;
    while i < |script|
      invariant 0 <= i <= |script|
      invariant items == Payloads(run.trace) && Exact(up, run)
      invariant if i < |script| then Decoded(cursor) == run.positions
                else cursor.Some? ==> cursor.value == run.positions
    {
      var r;
      ghost var part, run0, log := [], run, [];
      r, run, part, log := ScopedRead(up, script[i].0, cursor, script[i].1, run0, s => 0);
      PayloadsConcat(run0.trace, part);
      items := items + r.items;
      cursor := r.nextCursor;
      i := if cursor.Some? then i + 1 else |script|;
    }
    forall s, last: nat | Ends(up, s, last)
      ensures Of(run.trace, s) <= Stream(up, s, last)
    {
      EmittedIsPrefix(up, run, s, last);
    }
    assert Accounted(up, items, cursor, run);
  }

  // ---- Running to the end

  ghost function Sum(ids: seq<Sid>, w: Sid -> nat): nat {
    if ids == [] then 0 else w(ids[0]) + Sum(ids[1..], w)
  }

  lemma {:induction false} SumShrinks(ids: seq<Sid>, w: Sid -> nat, w': Sid -> nat)
    requires forall s | s in ids :: w'(s) <= w(s)
    ensures Sum(ids, w') <= Sum(ids, w)
    ensures (exists s :: s in ids && w'(s) < w(s)) ==> Sum(ids, w') < Sum(ids, w)
  {
    if ids != [] {
      SumShrinks(ids[1..], w, w');
      assert forall s | s in ids :: s == ids[0] || s in ids[1..];
    }
  }

  ghost function Work(up: Upstream, ids: seq<Sid>, last: Sid -> nat, run: Progress): nat {
    Sum(ids, s => Owes(up, last, run, s))
  }

  lemma WorkShrinks(up: Upstream, ids: seq<Sid>, last: Sid -> nat, run: Progress, run': Progress)
    requires OwesNoMore(up, ids, last, run, run')
    ensures OwesLess(up, ids, last, run, run') ==>
              Work(up, ids, last, run') < Work(up, ids, last, run)
  {
    SumShrinks(ids, s => Owes(up, last, run, s), s => Owes(up, last, run', s));
  }

  /** With nothing left unfinished, a greedy trace is the whole merge. */
  lemma DoneIsMerged(up: Upstream, ids: seq<Sid>, last: Sid -> nat, run: Progress)
    requires Exact(up, run) && Finite(up, ids, last) && forall s | s in ids :: PosOf(run.positions, s).done
    ensures forall s | s in ids :: Of(run.trace, s) == Stream(up, s, last(s))
    ensures Greedy(up, ids, last, run.trace) ==> IsMerge(Full(up, ids, last), run.trace)
  {
    forall s | s in ids
      ensures Of(run.trace, s) == Stream(up, s, last(s))
    {
      EmittedIsPrefix(up, run, s, last(s));
    }
    if Greedy(up, ids, last, run.trace) {
      var full := Full(up, ids, last);
      LeftKeys(full, |run.trace|);
      forall s | s in ids
        ensures Left(full, |run.trace|)[s] == []
      {
        TakeConserves(full, |run.trace|, s);
      }
    }
  }

  /** The items are all the items of all streams; in the order of the greedy merge, if no chain has an
      empty page before its last. */
  ghost predicate Complete(up: Upstream, ids: seq<Sid>, last: Sid -> nat, items: seq<Item>, trace: Trace) {
    && items == Payloads(trace)
    && (forall s | s in ids :: Of(trace, s) == Stream(up, s, last(s)))
    && (Dense(up, ids, last) ==> IsMerge(Full(up, ids, last), trace))
  }

  /** Reading on until the cursor is null, with a limit of at least one chosen anew for each call.
      `log` holds all its reads. The run ends, stopping short exactly if one of them failed; and unless
      one did, it is then complete. */
  method Drain(up: Upstream, ids: seq<Sid>, ghost last: Sid -> nat)
    returns (items: seq<Item>, failed: bool, ghost log: seq<Asked>)
    requires Distinct(ids) && Finite(up, ids, last)
    ensures Genuine(up, log) && (failed <==> !NoneFailed(log))
    ensures !failed ==> exists trace :: Complete(up, ids, last, items, trace)
  {
    ghost var run := Progress(map[], map[], []);
    var cursor: Option<Positions> := None;
    var more := true;
    items, failed, log := [], false, [];
    StartsExact(up);
    while more && !failed
      invariant items == Payloads(run.trace) && Exact(up, run)
      invariant Genuine(up, log) && (failed <==> !NoneFailed(log))
      invariant more ==> Decoded(cursor) == run.positions
      invariant !more && !failed ==> forall s | s in ids :: PosOf(run.positions, s).done
      invariant Dense(up, ids, last) && !failed ==> Greedy(up, ids, last, run.trace)
      decreases more && !failed, Work(up, ids, last, run)
    {
      var limit: nat :| limit > 0;
      var r;
      ghost var part, run0, called := [], run, [];
      r, run, part, called := ScopedRead(up, ids, cursor, limit, run0, last);
      log := log + called;
      WorkShrinks(up, ids, last, run0, run);
      PayloadsConcat(run0.trace, part);
      items := items + r.items;
      failed := r.errors != [];
      cursor := r.nextCursor;
      more := cursor.Some?;
    }
    if !failed {
      DoneIsMerged(up, ids, last, run);
      assert Complete(up, ids, last, items, run.trace);
    }
  }

  /** Two complete runs, whatever limits each chose for its calls, emit the same list; and it descends
      when every stream does. */
  lemma PageSizeIndependence(up: Upstream, ids: seq<Sid>, last: Sid -> nat, items: seq<Item>, a: Trace,
                             items': seq<Item>, b: Trace)
    requires Dense(up, ids, last) && Complete(up, ids, last, items, a) && Complete(up, ids, last, items', b)
    ensures items == items'
    ensures (forall s | s in ids :: StreamDescending(Stream(up, s, last(s)))) ==> TraceDescending(a)
  {
    MergeIsUnique(Full(up, ids, last), a, b);
    if forall s | s in ids :: StreamDescending(Stream(up, s, last(s))) {
      MergeDescends(Full(up, ids, last), |a|);
    }
  }
}
