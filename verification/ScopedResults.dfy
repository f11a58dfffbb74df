/** Client-side federation of paged task reads: one call merges the pages of many services and
    returns a cursor that holds one position per service. */
module ScopedResults {
  import opened Streams
  import opened GreedyMerge

  datatype Failure = Raised(message: string) | Opaque

  datatype FetchResult = Fetched(page: Page) | Failed(failure: Failure)

  datatype ErrorEntry = ErrorEntry(service: Sid, detail: string)

  type Positions = map<Sid, Position>

  datatype Response = Response(
    items: seq<Item>, nextCursor: Option<Positions>, errors: seq<ErrorEntry>, scanned: seq<Sid>)

  /** What one call holds for one service: its position, and the rows and next cursor of the page
      it last read. */
  datatype Slot = Slot(pos: Position, rows: seq<Item>, next: Cursor)

  /** The saved position of a service; one not seen yet starts at its first page. */
  function PosOf(positions: Positions, s: Sid): Position {
    if s in positions then positions[s] else Position(Start, 0, false)
  }

  // ---- One service

  /** A page arrives: its remaining rows are shown; past an empty page the position moves on. */
  function LoadSlot(slot: Slot, page: Page): Slot {
    var rows := if slot.pos.skip <= |page.items| then page.items[slot.pos.skip..] else [];
    var next := OrNull(page.nextCursor);
    var following := Follow(page, slot.pos.cursor);
    if rows != [] then Slot(slot.pos, rows, next)
    else if following != Start then Slot(Position(following, 0, false), [], next)
    else Slot(slot.pos.(done := true), [], next)
  }

  /** The first row is emitted; past the last row of a page the position moves on. */
  function ShiftSlot(slot: Slot): Slot
    requires slot.rows != []
  {
    var pos := slot.pos.(skip := slot.pos.skip + 1);
    if slot.rows[1..] != [] then Slot(pos, slot.rows[1..], slot.next)
    else if slot.next != Start && slot.next != pos.cursor then Slot(Position(slot.next, 0, false), [], slot.next)
    else Slot(pos.(done := true), [], slot.next)
  }

  /** `got` is what has been emitted for a service: its position stands exactly past that, in page
      n of its chain, and the rows shown are the rest of that page. */
  ghost predicate SlotGood(up: Upstream, s: Sid, slot: Slot, n: nat, got: seq<Item>) {
    && Denotes(up, s, slot.pos, n)
    && Before(up, s, slot.pos, n) == got
    && (slot.rows != [] ==>
          && !slot.pos.done
          && slot.rows == PageAt(up, s, n).items[slot.pos.skip..]
          && slot.next == OrNull(PageAt(up, s, n).nextCursor))
  }

  /** A service that needs no read: it shows rows, or it is finished. */
  predicate Settled(slot: Slot) {
    slot.pos.done || slot.rows != []
  }

  /** Reading a page emits nothing and keeps the position exact: the service is settled, or it has
      moved past an empty page. */
  lemma LoadKeeps(up: Upstream, s: Sid, slot: Slot, n: nat, got: seq<Item>) returns (m: nat)
    requires SlotGood(up, s, slot, n, got) && slot.rows == [] && !slot.pos.done
    ensures SlotGood(up, s, LoadSlot(slot, up(s, slot.pos.cursor)), m, got)
    ensures if m == n then Settled(LoadSlot(slot, up(s, slot.pos.cursor)))
            else m == n + 1 && PageAt(up, s, n).items == [] && NthCursor(up, s, m) != Start
  {
    var page := up(s, slot.pos.cursor);
    assert NthCursor(up, s, n + 1) == Follow(page, slot.pos.cursor);
    m := n;
    if page.items[slot.pos.skip..] == [] {
      assert |page.items[slot.pos.skip..]| == 0;
      assert Read(up, s, n + 1) == Read(up, s, n) + [];
      if Follow(page, slot.pos.cursor) != Start {
        m := n + 1;
      }
    }
  }

  /** Emitting the first row moves the position by exactly that row. */
  lemma ShiftKeeps(up: Upstream, s: Sid, slot: Slot, n: nat, got: seq<Item>) returns (m: nat)
    requires SlotGood(up, s, slot, n, got) && slot.rows != []
    ensures SlotGood(up, s, ShiftSlot(slot), m, got + [slot.rows[0]])
    ensures if m == n then Settled(ShiftSlot(slot)) else m == n + 1 && NthCursor(up, s, m) != Start
  {
    var items := PageAt(up, s, n).items;
    var k := slot.pos.skip;
    assert NthCursor(up, s, n + 1) == Follow(PageAt(up, s, n), slot.pos.cursor);
    assert items[..k + 1] == items[..k] + [items[k]];
    assert slot.rows[1..] == items[k + 1..];
    m := n;
    if slot.rows[1..] == [] {
      assert |slot.rows[1..]| == 0;
      assert items[..k + 1] == items;
      assert Read(up, s, n + 1) == Read(up, s, n) + items;
      if Follow(PageAt(up, s, n), slot.pos.cursor) != Start {
        m := n + 1;
      }
    }
  }

  // ---- The streams not yet emitted

  ghost function UnreadOf(up: Upstream, s: Sid, last: nat, got: seq<Item>): seq<Item> {
    var stream := Stream(up, s, last);
    if |got| <= |stream| then stream[|got|..] else []
  }

  /** The rows shown are the next unread items, and a finished service has none left. */
  lemma RowsComeNext(up: Upstream, s: Sid, slot: Slot, n: nat, got: seq<Item>, last: nat)
    requires SlotGood(up, s, slot, n, got) && Ends(up, s, last)
    ensures got <= Stream(up, s, last) && n <= last
    ensures slot.rows <= UnreadOf(up, s, last, got)
    ensures slot.pos.done ==> got == Stream(up, s, last) && UnreadOf(up, s, last, got) == []
  {
    BeforeIsPrefix(up, s, slot.pos, n, last);
    if slot.rows != [] {
      var items := PageAt(up, s, n).items;
      ReadGrows(up, s, n + 1, last + 1);
      assert items == items[..slot.pos.skip] + items[slot.pos.skip..];
      assert Read(up, s, n + 1) == got + slot.rows;
    }
  }

  /** What a service still owes: unread items and unvisited pages. */
  ghost function Todo(up: Upstream, s: Sid, last: nat, n: nat, got: seq<Item>): nat {
    |UnreadOf(up, s, last, got)| + if n <= last then last - n else 0
  }

  ghost function DepthOf(depth: map<Sid, nat>, s: Sid): nat {
    if s in depth then depth[s] else 0
  }

  ghost predicate Distinct(ids: seq<Sid>) {
    forall i, j :: 0 <= i < j < |ids| ==> ids[i] != ids[j]
  }

  ghost predicate Finite(up: Upstream, ids: seq<Sid>, last: Sid -> nat) {
    forall s | s in ids :: Ends(up, s, last(s))
  }

  /** No page but the last may be empty. */
  ghost predicate Dense(up: Upstream, ids: seq<Sid>, last: Sid -> nat) {
    && Finite(up, ids, last)
    && forall s, i: nat | s in ids && i < last(s) :: PageAt(up, s, i).items != []
  }

  ghost function Unread(up: Upstream, ids: seq<Sid>, last: Sid -> nat, got: Sid -> seq<Item>): Rest {
    map s | s in ids :: UnreadOf(up, s, last(s), got(s))
  }

  // ---- The state of one call

  datatype View = View(
    positions: Positions, pages: map<Sid, seq<Item>>, next: map<Sid, Cursor>,
    items: seq<Item>, errors: seq<ErrorEntry>, scanned: seq<Sid>)

  function SlotIn(v: View, s: Sid): Slot {
    Slot(PosOf(v.positions, s), if s in v.pages then v.pages[s] else [], if s in v.next then v.next[s] else Start)
  }

  function Detail(failure: Failure): string {
    if failure.Raised? then failure.message else "Service read failed."
  }

  /** `load`: a finished service is not read; a failed read is reported and moves nothing. */
  function AfterLoad(v: View, sid: Sid, r: FetchResult): View {
    var v := v.(positions := v.positions[sid := PosOf(v.positions, sid)]);
    if PosOf(v.positions, sid).done then v
    else if r.Failed? then v.(errors := v.errors + [ErrorEntry(sid, Detail(r.failure))])
    else
      var slot := LoadSlot(SlotIn(v, sid), r.page);
      v.(positions := v.positions[sid := slot.pos], pages := v.pages[sid := slot.rows],
         next := v.next[sid := slot.next], scanned := if sid in v.scanned then v.scanned else v.scanned + [sid])
  }

  /** The first row of a service is emitted. */
  function AfterShift(v: View, sid: Sid): View
    requires SlotIn(v, sid).rows != []
  {
    var slot := ShiftSlot(SlotIn(v, sid));
    v.(positions := v.positions[sid := slot.pos], pages := v.pages[sid := slot.rows],
       items := v.items + [SlotIn(v, sid).rows[0]])
  }

  /** What a call starts from: `before` is what earlier calls emitted for each service, and
      `startDepth` the page of its chain each service stood in. */
  datatype Origin = Origin(up: Upstream, ids: seq<Sid>, before: Sid -> seq<Item>, startDepth: map<Sid, nat>)

  /** The page each service stands in now, and what the call has emitted from which service. */
  datatype Ledger = Ledger(depth: map<Sid, nat>, trace: Trace)

  ghost predicate Good(o: Origin, v: View, l: Ledger, s: Sid) {
    && SlotGood(o.up, s, SlotIn(v, s), DepthOf(l.depth, s), o.before(s) + Of(l.trace, s))
    && DepthOf(o.startDepth, s) <= DepthOf(l.depth, s)
  }

  /** Conservation: every position stands exactly past what this call and those before emitted. */
  ghost predicate Conserved(o: Origin, v: View, l: Ledger) {
    forall s :: Good(o, v, l, s)
  }

  predicate Failing(v: View, s: Sid) {
    exists e :: e in v.errors && e.service == s
  }

  /** The service has moved past an empty page that is not the last of its chain, and is not read again. */
  ghost predicate PassedEmpty(o: Origin, l: Ledger, s: Sid) {
    && DepthOf(o.startDepth, s) < DepthOf(l.depth, s)
    && PageAt(o.up, s, DepthOf(l.depth, s) - 1).items == []
    && NthCursor(o.up, s, DepthOf(l.depth, s)) != Start
  }

  /** A service takes part in the merge, or it sits the call out. */
  ghost predicate Placed(o: Origin, v: View, l: Ledger, s: Sid) {
    if PassedEmpty(o, l, s) then SlotIn(v, s).rows == [] && !SlotIn(v, s).pos.done else Settled(SlotIn(v, s))
  }

  ghost predicate Ready(o: Origin, v: View, l: Ledger, s: Sid) {
    s in v.positions && (Failing(v, s) || Placed(o, v, l, s))
  }

  /** Rows are shown, and items emitted, only for the services this call reads; each of those has a
      position. */
  ghost predicate Scoped(o: Origin, v: View, l: Ledger) {
    && (forall s | SlotIn(v, s).rows != [] :: s in o.ids)
    && (forall s | s in o.ids :: s in v.positions)
    && (forall i | 0 <= i < |l.trace| :: l.trace[i].0 in o.ids)
    && |v.items| == |l.trace| && v.items == Payloads(l.trace)
  }

  lemma OthersStay(o: Origin, v: View, l: Ledger, v': View, l': Ledger, s: Sid)
    requires Good(o, v, l, s) && SlotIn(v', s) == SlotIn(v, s)
    requires DepthOf(l'.depth, s) == DepthOf(l.depth, s) && Of(l'.trace, s) == Of(l.trace, s)
    ensures Good(o, v', l', s)
  {
  }

  lemma LoadMovesOne(o: Origin, v: View, l: Ledger, sid: Sid, r: FetchResult) returns (m: nat)
    requires Good(o, v, l, sid) && SlotIn(v, sid).rows == []
    requires r.Fetched? ==> r.page == o.up(sid, PosOf(v.positions, sid).cursor)
    ensures Good(o, AfterLoad(v, sid, r), l.(depth := l.depth[sid := m]), sid) && m >= DepthOf(l.depth, sid)
    ensures !PassedEmpty(o, l, sid) ==> Ready(o, AfterLoad(v, sid, r), l.(depth := l.depth[sid := m]), sid)
    ensures !PassedEmpty(o, l, sid) && |AfterLoad(v, sid, r).errors| == |v.errors| ==>
              Placed(o, AfterLoad(v, sid, r), l.(depth := l.depth[sid := m]), sid)
  {
    var v' := AfterLoad(v, sid, r);
    m := DepthOf(l.depth, sid);
    if SlotIn(v, sid).pos.done || r.Failed? {
      assert SlotIn(v', sid) == SlotIn(v, sid);
      assert r.Failed? && !SlotIn(v, sid).pos.done ==> v'.errors[|v.errors|] in v'.errors;
    } else {
      m := LoadKeeps(o.up, sid, SlotIn(v, sid), m, o.before(sid) + Of(l.trace, sid));
      assert SlotIn(v', sid) == LoadSlot(SlotIn(v, sid), r.page);
    }
  }

  lemma LoadConserves(o: Origin, v: View, l: Ledger, sid: Sid, r: FetchResult) returns (l': Ledger)
    requires Conserved(o, v, l) && SlotIn(v, sid).rows == []
    requires r.Fetched? ==> r.page == o.up(sid, PosOf(v.positions, sid).cursor)
    ensures Conserved(o, AfterLoad(v, sid, r), l')
    ensures l'.trace == l.trace && DepthOf(l'.depth, sid) >= DepthOf(l.depth, sid)
    ensures forall s | s != sid :: DepthOf(l'.depth, s) == DepthOf(l.depth, s)
    ensures !PassedEmpty(o, l, sid) ==> Ready(o, AfterLoad(v, sid, r), l', sid)
    ensures !PassedEmpty(o, l, sid) && |AfterLoad(v, sid, r).errors| == |v.errors| ==>
              Placed(o, AfterLoad(v, sid, r), l', sid)
  {
    assert Good(o, v, l, sid);
    var m := LoadMovesOne(o, v, l, sid, r);
    l' := l.(depth := l.depth[sid := m]);
    forall s | s != sid
      ensures Good(o, AfterLoad(v, sid, r), l', s)
    {
      OthersStay(o, v, l, AfterLoad(v, sid, r), l', s);
    }
  }

  lemma ShiftMovesOne(o: Origin, v: View, l: Ledger, sid: Sid) returns (m: nat)
    requires Good(o, v, l, sid) && SlotIn(v, sid).rows != []
    ensures Good(o, AfterShift(v, sid), Ledger(l.depth[sid := m], l.trace + [(sid, SlotIn(v, sid).rows[0])]), sid)
    ensures m >= DepthOf(l.depth, sid)
    ensures m == DepthOf(l.depth, sid) || (m == DepthOf(l.depth, sid) + 1 && PageAt(o.up, sid, m - 1).items != [])
  {
    var x := SlotIn(v, sid).rows[0];
    var got := o.before(sid) + Of(l.trace, sid);
    m := ShiftKeeps(o.up, sid, SlotIn(v, sid), DepthOf(l.depth, sid), got);
    Recorded(l.trace, sid, x, sid);
    assert got + [x] == o.before(sid) + (Of(l.trace, sid) + [x]);
    assert SlotIn(AfterShift(v, sid), sid) == ShiftSlot(SlotIn(v, sid));
  }

  lemma ShiftSparesOthers(o: Origin, v: View, l: Ledger, sid: Sid, m: nat, s: Sid)
    requires Conserved(o, v, l) && SlotIn(v, sid).rows != [] && s != sid
    ensures Good(o, AfterShift(v, sid), Ledger(l.depth[sid := m], l.trace + [(sid, SlotIn(v, sid).rows[0])]), s)
  {
    var x := SlotIn(v, sid).rows[0];
    assert Good(o, v, l, s);
    Recorded(l.trace, sid, x, s);
    OthersStay(o, v, l, AfterShift(v, sid), Ledger(l.depth[sid := m], l.trace + [(sid, x)]), s);
  }

  lemma ShiftPassesNothing(o: Origin, l: Ledger, l': Ledger, sid: Sid)
    requires var n, m := DepthOf(l.depth, sid), DepthOf(l'.depth, sid);
             m == n || (m == n + 1 && PageAt(o.up, sid, m - 1).items != [])
    ensures !PassedEmpty(o, l, sid) ==> !PassedEmpty(o, l', sid)
  {
  }

  lemma ShiftConserves(o: Origin, v: View, l: Ledger, sid: Sid) returns (l': Ledger)
    requires Conserved(o, v, l) && SlotIn(v, sid).rows != []
    ensures Conserved(o, AfterShift(v, sid), l')
    ensures l'.trace == l.trace + [(sid, SlotIn(v, sid).rows[0])]
    ensures forall s :: DepthOf(l'.depth, s) >= DepthOf(l.depth, s)
    ensures forall s | s != sid :: DepthOf(l'.depth, s) == DepthOf(l.depth, s)
    ensures !PassedEmpty(o, l, sid) ==> !PassedEmpty(o, l', sid)
    ensures !SlotIn(v, sid).pos.done
  {
    assert Good(o, v, l, sid);
    var m := ShiftMovesOne(o, v, l, sid);
    var x := SlotIn(v, sid).rows[0];
    l' := Ledger(l.depth[sid := m], l.trace + [(sid, x)]);
    forall s | s != sid
      ensures Good(o, AfterShift(v, sid), l', s)
    {
      ShiftSparesOthers(o, v, l, sid, m, s);
    }
    ShiftPassesNothing(o, l, l', sid);
  }

  function IdSet(ids: seq<Sid>): set<Sid> {
    set s | s in ids
  }

  /** Reading is under way: the services of `ready` are ready, and no other shows a row. */
  ghost predicate Reading(o: Origin, v: View, l: Ledger, ready: set<Sid>) {
    && Conserved(o, v, l)
    && (forall s | s in ready :: Ready(o, v, l, s))
    && (forall s | s !in ready :: SlotIn(v, s).rows == [] && !PassedEmpty(o, l, s))
  }

  lemma StaysReady(o: Origin, v: View, l: Ledger, sid: Sid, r: FetchResult, l': Ledger, s: Sid)
    requires s != sid && DepthOf(l'.depth, s) == DepthOf(l.depth, s)
    ensures SlotIn(AfterLoad(v, sid, r), s) == SlotIn(v, s)
    ensures Ready(o, v, l, s) ==> Ready(o, AfterLoad(v, sid, r), l', s)
    ensures PassedEmpty(o, l', s) == PassedEmpty(o, l, s)
  {
    if Failing(v, s) {
      var e :| e in v.errors && e.service == s;
      assert e in AfterLoad(v, sid, r).errors;
    }
  }

  lemma ReadOne(o: Origin, v: View, l: Ledger, ready: set<Sid>, sid: Sid, r: FetchResult) returns (l': Ledger)
    requires Reading(o, v, l, ready) && sid !in ready
    requires r.Fetched? ==> r.page == o.up(sid, PosOf(v.positions, sid).cursor)
    ensures Reading(o, AfterLoad(v, sid, r), l', ready + {sid}) && l'.trace == l.trace
  {
    l' := LoadConserves(o, v, l, sid, r);
    forall s | s != sid
      ensures SlotIn(AfterLoad(v, sid, r), s) == SlotIn(v, s)
      ensures Ready(o, v, l, s) ==> Ready(o, AfterLoad(v, sid, r), l', s)
      ensures PassedEmpty(o, l', s) == PassedEmpty(o, l, s)
    {
      StaysReady(o, v, l, sid, r, l', s);
    }
  }

  // ---- When the merge is the greedy merge

  ghost predicate AllPlaced(o: Origin, v: View, l: Ledger) {
    forall s | s in o.ids :: Placed(o, v, l, s)
  }

  /** What is unread of a service now. */
  ghost function UnreadNow(o: Origin, l: Ledger, last: Sid -> nat, s: Sid): seq<Item> {
    UnreadOf(o.up, s, last(s), o.before(s) + Of(l.trace, s))
  }

  /** A service sits out behind an empty page although it has more items. */
  ghost predicate Held(o: Origin, l: Ledger, last: Sid -> nat, s: Sid) {
    s in o.ids && PassedEmpty(o, l, s) && UnreadNow(o, l, last, s) != []
  }

  /** How much of the trace there is up to the last item of a service: it is read at the start of a
      call, and then only after its own items. */
  function Since(trace: Trace, s: Sid): (n: nat)
    ensures n <= |trace|
  {
    if trace == [] then 0
    else if trace[|trace| - 1].0 == s then |trace|
    else Since(trace[..|trace| - 1], s)
  }

  /** The k-th item was emitted while s sat out, and the next item of s beats it. */
  ghost predicate Undercut(o: Origin, l: Ledger, last: Sid -> nat, s: Sid, k: nat) {
    && Held(o, l, last, s) && Since(l.trace, s) <= k < |l.trace|
    && !Beats(l.trace[k].0, l.trace[k].1, s, UnreadNow(o, l, last, s)[0])
  }

  ghost predicate NoUndercut(o: Origin, l: Ledger, last: Sid -> nat) {
    forall s, k: nat :: !Undercut(o, l, last, s, k)
  }

  ghost function Rests(o: Origin, last: Sid -> nat): Rest {
    Unread(o.up, o.ids, last, o.before)
  }

  /** The items emitted are the first of the greedy merge exactly if none undercuts a service that
      sits out. */
  ghost predicate Exactly(o: Origin, l: Ledger, last: Sid -> nat) {
    l.trace == Take(Rests(o, last), |l.trace|) <==> NoUndercut(o, l, last)
  }

  /** A service whose chain has no empty page before its last never passes one. */
  lemma NeverPasses(o: Origin, v: View, l: Ledger, s: Sid, last: Sid -> nat)
    requires Good(o, v, l, s) && Dense(o.up, o.ids, last) && s in o.ids
    ensures !PassedEmpty(o, l, s)
  {
    LiveWithinEnd(o.up, s, DepthOf(l.depth, s), last(s));
  }

  /** As long as the trace is greedy, what the merge has left of a service is what is unread of it. */
  lemma LeftIsUnread(o: Origin, l: Ledger, last: Sid -> nat, s: Sid)
    requires s in o.ids && l.trace == Take(Rests(o, last), |l.trace|)
    requires o.before(s) <= Stream(o.up, s, last(s))
    ensures s in Left(Rests(o, last), |l.trace|) && Left(Rests(o, last), |l.trace|)[s] == UnreadNow(o, l, last, s)
  {
    TakeConserves(Rests(o, last), |l.trace|, s);
    var stream, before, of := Stream(o.up, s, last(s)), o.before(s), Of(l.trace, s);
    assert stream[|before|..] == of + Left(Rests(o, last), |l.trace|)[s];
    assert stream[|before + of|..] == stream[|before|..][|of|..];
  }

  /** A service that takes part shows the next of what is unread, and nothing only if nothing is. */
  lemma ShownIsUnread(o: Origin, v: View, l: Ledger, last: Sid -> nat, s: Sid)
    requires Good(o, v, l, s) && Finite(o.up, o.ids, last) && s in o.ids
    ensures o.before(s) <= Stream(o.up, s, last(s))
    ensures SlotIn(v, s).rows <= UnreadNow(o, l, last, s)
    ensures Settled(SlotIn(v, s)) && SlotIn(v, s).rows == [] ==> UnreadNow(o, l, last, s) == []
  {
    RowsComeNext(o.up, s, SlotIn(v, s), DepthOf(l.depth, s), o.before(s) + Of(l.trace, s), last(s));
    assert o.before(s) <= o.before(s) + Of(l.trace, s);
  }

  /** What the greedy merge has left, service by service. */
  lemma LeftShows(o: Origin, v: View, l: Ledger, last: Sid -> nat, s: Sid)
    requires Conserved(o, v, l) && AllPlaced(o, v, l) && Finite(o.up, o.ids, last) && s in o.ids
    requires l.trace == Take(Rests(o, last), |l.trace|)
    ensures var left := Left(Rests(o, last), |l.trace|);
            && s in left && left[s] == UnreadNow(o, l, last, s) && SlotIn(v, s).rows <= left[s]
            && (left[s] != [] ==> Held(o, l, last, s) || SlotIn(v, s).rows != [])
  {
    assert Good(o, v, l, s);
    ShownIsUnread(o, v, l, last, s);
    LeftIsUnread(o, l, last, s);
  }

  /** The row no service that sits out would beat. */
  ghost predicate Unbeaten(o: Origin, l: Ledger, last: Sid -> nat, sid: Sid, x: Item) {
    forall s | Held(o, l, last, s) :: Beats(sid, x, s, UnreadNow(o, l, last, s)[0])
  }

  /** The best row shown is the next pick of the greedy merge exactly if no service that sits out has
      a better one. */
  lemma BestShown(o: Origin, v: View, l: Ledger, last: Sid -> nat, sid: Sid)
    requires Conserved(o, v, l) && Scoped(o, v, l) && AllPlaced(o, v, l) && Finite(o.up, o.ids, last)
    requires l.trace == Take(Rests(o, last), |l.trace|) && IsBest(v.pages, sid)
    ensures var left := Left(Rests(o, last), |l.trace|);
            && sid in left && left[sid] != [] && left[sid][0] == v.pages[sid][0]
            && (IsBest(left, sid) <==> Unbeaten(o, l, last, sid, v.pages[sid][0]))
  {
    var left, x := Left(Rests(o, last), |l.trace|), v.pages[sid][0];
    assert SlotIn(v, sid).rows == v.pages[sid];
    LeftKeys(Rests(o, last), |l.trace|);
    LeftShows(o, v, l, last, sid);
    if IsBest(left, sid) {
      forall s | Held(o, l, last, s)
        ensures Beats(sid, x, s, UnreadNow(o, l, last, s)[0])
      {
        LeftShows(o, v, l, last, s);
      }
    }
    if Unbeaten(o, l, last, sid, x) {
      forall s | s in left && left[s] != []
        ensures Beats(sid, left[sid][0], s, left[s][0])
      {
        LeftShows(o, v, l, last, s);
        if !Held(o, l, last, s) {
          assert s in v.pages && left[s][0] == v.pages[s][0];
        }
      }
    }
  }

  /** With no row shown the greedy merge is over exactly if no service is held. */
  lemma NothingShown(o: Origin, v: View, l: Ledger, last: Sid -> nat)
    requires Conserved(o, v, l) && AllPlaced(o, v, l) && Finite(o.up, o.ids, last) && Exhausted(v.pages)
    requires l.trace == Take(Rests(o, last), |l.trace|)
    ensures Exhausted(Left(Rests(o, last), |l.trace|)) <==> forall s :: !Held(o, l, last, s)
  {
    var left := Left(Rests(o, last), |l.trace|);
    LeftKeys(Rests(o, last), |l.trace|);
    forall s | s in o.ids
      ensures s in left && (left[s] != [] <==> Held(o, l, last, s))
    {
      LeftShows(o, v, l, last, s);
      assert SlotIn(v, s).rows == [];
    }
  }

  // ---- The merge loop

  /** As long as no read has failed, the items emitted are greedy exactly if none undercuts a service
      that sits out; and while more is wanted, every service takes part or sits out. */
  ghost predicate OnTrack(o: Origin, v: View, l: Ledger, limit: int, last: Sid -> nat) {
    Finite(o.up, o.ids, last) && v.errors == [] ==> Exactly(o, l, last) && (|v.items| < limit ==> AllPlaced(o, v, l))
  }

  /** Nothing is undone: finished services stay finished, errors stay reported. */
  ghost predicate Advances(v: View, l: Ledger, v': View, l': Ledger) {
    && (forall s :: DepthOf(l'.depth, s) >= DepthOf(l.depth, s))
    && (forall s | SlotIn(v, s).pos.done :: SlotIn(v', s).pos.done)
    && |v.errors| <= |v'.errors|
  }

  lemma AdvancesOn(v: View, l: Ledger, w: View, m: Ledger, v': View, l': Ledger)
    requires Advances(v, l, w, m) && Advances(w, m, v', l')
    ensures Advances(v, l, v', l')
  {
  }

  lemma StartsOnTrack(o: Origin, v: View, l: Ledger, limit: int, last: Sid -> nat)
    requires Reading(o, v, l, IdSet(o.ids)) && l.trace == [] && v.items == []
    ensures Scoped(o, v, l) && OnTrack(o, v, l, limit, last)
    ensures (exists s :: SlotIn(v, s).rows != []) ==> !Exhausted(v.pages)
  {
    forall s
      ensures s in o.ids <==> s in IdSet(o.ids)
    {
    }
    if v.errors == [] {
      forall s | s in o.ids
        ensures Placed(o, v, l, s)
      {
        assert s in IdSet(o.ids) && Ready(o, v, l, s);
      }
    }
  }

  /** Emitting the best row shown is one step of the merge. */
  lemma EmitStep(o: Origin, v: View, l: Ledger, sid: Sid) returns (l': Ledger)
    requires Conserved(o, v, l) && Scoped(o, v, l) && SlotIn(v, sid).rows != []
    ensures Conserved(o, AfterShift(v, sid), l') && Scoped(o, AfterShift(v, sid), l')
    ensures Advances(v, l, AfterShift(v, sid), l')
    ensures l'.trace == l.trace + [(sid, SlotIn(v, sid).rows[0])]
    ensures !SlotIn(v, sid).pos.done
    ensures forall s | s != sid :: SlotIn(AfterShift(v, sid), s) == SlotIn(v, s)
    ensures forall s | s != sid :: DepthOf(l'.depth, s) == DepthOf(l.depth, s)
    ensures !PassedEmpty(o, l, sid) ==> !PassedEmpty(o, l', sid)
  {
    assert sid in o.ids;
    l' := ShiftConserves(o, v, l, sid);
  }

  /** One more item of another service leaves a service that sits out as it was. */
  lemma UndercutKept(o: Origin, l: Ledger, l': Ledger, last: Sid -> nat, sid: Sid, x: Item, s: Sid, k: nat)
    requires l'.trace == l.trace + [(sid, x)] && s != sid && DepthOf(l'.depth, s) == DepthOf(l.depth, s)
    ensures k < |l.trace| ==> (Undercut(o, l', last, s, k) <==> Undercut(o, l, last, s, k))
    ensures Undercut(o, l', last, s, |l.trace|) <==>
              Held(o, l, last, s) && !Beats(sid, x, s, UnreadNow(o, l, last, s)[0])
  {
    Recorded(l.trace, sid, x, s);
    assert l'.trace[..|l.trace|] == l.trace;
    assert Held(o, l', last, s) <==> Held(o, l, last, s);
    assert UnreadNow(o, l', last, s) == UnreadNow(o, l, last, s);
    assert k < |l.trace| ==> l'.trace[k] == l.trace[k];
  }

  lemma UndercutNext(o: Origin, l: Ledger, l': Ledger, last: Sid -> nat, sid: Sid, x: Item)
    requires l'.trace == l.trace + [(sid, x)] && forall s | s != sid :: DepthOf(l'.depth, s) == DepthOf(l.depth, s)
    requires !PassedEmpty(o, l, sid) && !PassedEmpty(o, l', sid)
    ensures NoUndercut(o, l', last) <==> NoUndercut(o, l, last) && Unbeaten(o, l, last, sid, x)
  {
    if NoUndercut(o, l', last) {
      forall s, k: nat
        ensures !Undercut(o, l, last, s, k)
      {
        if s != sid {
          UndercutKept(o, l, l', last, sid, x, s, k);
        }
      }
      forall s | Held(o, l, last, s)
        ensures Beats(sid, x, s, UnreadNow(o, l, last, s)[0])
      {
        UndercutKept(o, l, l', last, sid, x, s, |l.trace|);
      }
    }
    if NoUndercut(o, l, last) && Unbeaten(o, l, last, sid, x) {
      forall s, k: nat
        ensures !Undercut(o, l', last, s, k)
      {
        if s != sid {
          UndercutKept(o, l, l', last, sid, x, s, k);
        }
      }
    }
  }

  /** Emitting the best row shown keeps the exact condition. */
  lemma EmitIsGreedy(o: Origin, v: View, l: Ledger, last: Sid -> nat, sid: Sid, l': Ledger)
    requires Conserved(o, v, l) && Scoped(o, v, l) && AllPlaced(o, v, l) && Finite(o.up, o.ids, last)
    requires Exactly(o, l, last) && IsBest(v.pages, sid) && sid in o.ids
    requires l'.trace == l.trace + [(sid, v.pages[sid][0])]
    requires forall s | s != sid :: DepthOf(l'.depth, s) == DepthOf(l.depth, s)
    requires !PassedEmpty(o, l, sid) && !PassedEmpty(o, l', sid)
    ensures Exactly(o, l', last)
  {
    var x := v.pages[sid][0];
    UndercutNext(o, l, l', last, sid, x);
    if l.trace == Take(Rests(o, last), |l.trace|) {
      BestShown(o, v, l, last, sid);
      TakeNextIff(Rests(o, last), |l.trace|, sid);
    } else {
      TakeNotPrefix(Rests(o, last), l.trace, (sid, x));
    }
  }

  lemma EmitKeepsPlaces(o: Origin, v: View, l: Ledger, sid: Sid, l': Ledger)
    requires AllPlaced(o, v, l) && SlotIn(v, sid).rows != [] && sid in o.ids
    requires forall s | s != sid :: DepthOf(l'.depth, s) == DepthOf(l.depth, s)
    ensures !PassedEmpty(o, l, sid)
    ensures forall s | s in o.ids && s != sid :: Placed(o, AfterShift(v, sid), l', s)
    ensures !PassedEmpty(o, l', sid) && Settled(SlotIn(AfterShift(v, sid), sid)) ==> AllPlaced(o, AfterShift(v, sid), l')
  {
    assert Placed(o, v, l, sid);
    forall s | s in o.ids && s != sid
      ensures Placed(o, AfterShift(v, sid), l', s)
    {
      assert Placed(o, v, l, s) && SlotIn(AfterShift(v, sid), s) == SlotIn(v, s);
    }
  }

  /** One emission, as far as the merge order is concerned. */
  lemma EmitOnTrack(o: Origin, v: View, l: Ledger, limit: int, last: Sid -> nat, sid: Sid, l': Ledger)
    requires Conserved(o, v, l) && Scoped(o, v, l) && OnTrack(o, v, l, limit, last)
    requires |v.items| < limit && sid in v.pages && IsBest(v.pages, sid)
    requires l'.trace == l.trace + [(sid, v.pages[sid][0])]
    requires forall s | s != sid :: DepthOf(l'.depth, s) == DepthOf(l.depth, s)
    requires !PassedEmpty(o, l, sid) ==> !PassedEmpty(o, l', sid)
    ensures OnTrack(o, AfterShift(v, sid), l', |v.items| + 1, last)
    ensures Settled(SlotIn(AfterShift(v, sid), sid)) ==> OnTrack(o, AfterShift(v, sid), l', limit, last)
    ensures Finite(o.up, o.ids, last) && v.errors == [] ==>
              !PassedEmpty(o, l', sid) && forall s | s in o.ids && s != sid :: Placed(o, AfterShift(v, sid), l', s)
  {
    if Finite(o.up, o.ids, last) && v.errors == [] {
      assert SlotIn(v, sid).rows == v.pages[sid];
      EmitKeepsPlaces(o, v, l, sid, l');
      EmitIsGreedy(o, v, l, last, sid, l');
    }
  }

  /** A service that is read right after its own item cannot have been undercut yet. */
  lemma LoadKeepsUndercut(o: Origin, l: Ledger, l': Ledger, last: Sid -> nat, sid: Sid, s: Sid, k: nat)
    requires !PassedEmpty(o, l, sid) && l'.trace == l.trace && l.trace != [] && l.trace[|l.trace| - 1].0 == sid
    requires s != sid ==> DepthOf(l'.depth, s) == DepthOf(l.depth, s)
    ensures Undercut(o, l', last, s, k) <==> Undercut(o, l, last, s, k)
  {
    assert UnreadNow(o, l', last, s) == UnreadNow(o, l, last, s);
    if s == sid {
      assert Since(l.trace, sid) == |l.trace|;
    } else {
      assert Held(o, l', last, s) <==> Held(o, l, last, s);
    }
  }

  lemma LoadKeepsExactly(o: Origin, l: Ledger, l': Ledger, last: Sid -> nat, sid: Sid)
    requires Exactly(o, l, last) && !PassedEmpty(o, l, sid) && l'.trace == l.trace
    requires l.trace != [] && l.trace[|l.trace| - 1].0 == sid
    requires forall s | s != sid :: DepthOf(l'.depth, s) == DepthOf(l.depth, s)
    ensures Exactly(o, l', last)
  {
    forall s, k: nat
      ensures Undercut(o, l', last, s, k) <==> Undercut(o, l, last, s, k)
    {
      LoadKeepsUndercut(o, l, l', last, sid, s, k);
    }
  }

  /** Reading on where a page was used up keeps the merge on track. */
  lemma LoadStep(o: Origin, v: View, l: Ledger, limit: int, last: Sid -> nat, sid: Sid, r: FetchResult)
    returns (l': Ledger)
    requires Conserved(o, v, l) && Scoped(o, v, l) && OnTrack(o, v, l, |v.items|, last)
    requires sid in o.ids && SlotIn(v, sid).rows == [] && l.trace != [] && l.trace[|l.trace| - 1].0 == sid
    requires Finite(o.up, o.ids, last) && v.errors == [] ==>
               !PassedEmpty(o, l, sid) && forall s | s in o.ids && s != sid :: Placed(o, v, l, s)
    requires r.Fetched? ==> r.page == o.up(sid, PosOf(v.positions, sid).cursor)
    ensures Conserved(o, AfterLoad(v, sid, r), l') && Scoped(o, AfterLoad(v, sid, r), l')
    ensures Advances(v, l, AfterLoad(v, sid, r), l')
    ensures OnTrack(o, AfterLoad(v, sid, r), l', limit, last)
  {
    l' := LoadConserves(o, v, l, sid, r);
    LoadScoped(o, v, l, sid, r, l');
    var v' := AfterLoad(v, sid, r);
    if Finite(o.up, o.ids, last) && v'.errors == [] {
      LoadKeepsExactly(o, l, l', last, sid);
      forall s | s in o.ids
        ensures Placed(o, v', l', s)
      {
        if s != sid {
          StaysReady(o, v, l, sid, r, l', s);
        }
      }
    }
  }

  lemma LoadScoped(o: Origin, v: View, l: Ledger, sid: Sid, r: FetchResult, l': Ledger)
    requires Scoped(o, v, l) && sid in o.ids && l'.trace == l.trace && SlotIn(v, sid).rows == []
    requires DepthOf(l'.depth, sid) >= DepthOf(l.depth, sid)
    requires forall s | s != sid :: DepthOf(l'.depth, s) == DepthOf(l.depth, s)
    ensures Scoped(o, AfterLoad(v, sid, r), l') && Advances(v, l, AfterLoad(v, sid, r), l')
  {
    var v' := AfterLoad(v, sid, r);
    forall s | s != sid
      ensures SlotIn(v', s) == SlotIn(v, s)
    {
    }
  }

  /** The outcome of a call without failures: it has emitted exactly the next part of the greedy merge,
      if and only if no item undercuts a service that sat out, and, where it stopped short of the
      limit, no service was held back. */
  lemma CallExactly(o: Origin, v: View, l: Ledger, limit: nat, last: Sid -> nat)
    requires Conserved(o, v, l) && Finite(o.up, o.ids, last) && Exactly(o, l, last)
    requires |l.trace| <= limit && (|l.trace| < limit ==> AllPlaced(o, v, l) && Exhausted(v.pages))
    ensures l.trace == Take(Rests(o, last), limit) <==>
              NoUndercut(o, l, last) && (|l.trace| < limit ==> forall s :: !Held(o, l, last, s))
  {
    if |l.trace| < limit {
      TakeShort(Rests(o, last), limit);
      if l.trace == Take(Rests(o, last), |l.trace|) {
        NothingShown(o, v, l, last);
        TakeAllIff(Rests(o, last), |l.trace|, limit);
      }
    }
  }

  lemma DenseIsGreedy(o: Origin, v: View, l: Ledger, last: Sid -> nat)
    requires Conserved(o, v, l) && Dense(o.up, o.ids, last)
    ensures NoUndercut(o, l, last) && forall s :: !Held(o, l, last, s)
  {
    forall s
      ensures !Held(o, l, last, s)
    {
      if s in o.ids {
        assert Good(o, v, l, s);
        NeverPasses(o, v, l, s, last);
      }
    }
  }

  // ---- What a call reads

  /** One read, as the call made it and the service answered it. */
  datatype Asked = Asked(service: Sid, at: Cursor, result: FetchResult)

  /** What the failed reads leave, in the order the reads ended. */
  function Failures(log: seq<Asked>): seq<ErrorEntry> {
    if log == [] then []
    else
      var rest, q := Failures(log[..|log| - 1]), log[|log| - 1];
      if q.result.Failed? then rest + [ErrorEntry(q.service, Detail(q.result.failure))] else rest
  }

  /** The services that have answered a page, each once. */
  function Answering(log: seq<Asked>): seq<Sid> {
    if log == [] then []
    else
      var rest, q := Answering(log[..|log| - 1]), log[|log| - 1];
      if q.result.Fetched? && q.service !in rest then rest + [q.service] else rest
  }

  predicate FailedWith(q: Asked, s: Sid, detail: string) {
    && q.service == s
    && (q.result == Failed(Raised(detail)) || (q.result == Failed(Opaque) && detail == "Service read failed."))
  }

  /** An error is reported exactly for the reads that failed, with the message of the failure. */
  lemma {:induction false} FailuresAreReported(log: seq<Asked>, s: Sid, detail: string)
    ensures ErrorEntry(s, detail) in Failures(log) <==> exists q :: q in log && FailedWith(q, s, detail)
  {
    if log != [] {
      var front, q := log[..|log| - 1], log[|log| - 1];
      FailuresAreReported(front, s, detail);
      assert log == front + [q];
      assert q.result.Failed? ==> (FailedWith(q, s, detail) <==>
                                     ErrorEntry(q.service, Detail(q.result.failure)) == ErrorEntry(s, detail));
    }
  }

  lemma {:induction false} FailuresCount(log: seq<Asked>)
    ensures Failures(log) == [] <==> forall q | q in log :: q.result.Fetched?
  {
    if log != [] {
      FailuresCount(log[..|log| - 1]);
      assert log == log[..|log| - 1] + [log[|log| - 1]];
    }
  }

  lemma {:induction false} AnsweringAreFetched(log: seq<Asked>)
    ensures Distinct(Answering(log))
    ensures forall s :: s in Answering(log) <==> exists q :: q in log && q.service == s && q.result.Fetched?
  {
    if log != [] {
      var front, q := log[..|log| - 1], log[|log| - 1];
      AnsweringAreFetched(front);
      assert log == front + [q];
      assert forall s | s in Answering(log) :: s in Answering(front) || (s == q.service && q.result.Fetched?);
    }
  }

  /** The services that have been read. */
  function Whom(log: seq<Asked>): set<Sid> {
    set q | q in log :: q.service
  }

  /** The services of a set that are not finished. */
  function Unfinished(positions: Positions, of: set<Sid>): set<Sid> {
    set s | s in of && !PosOf(positions, s).done
  }

  /** The read that a load makes: none, if the service is finished. */
  function Noted(log: seq<Asked>, positions: Positions, sid: Sid, r: FetchResult): seq<Asked> {
    if PosOf(positions, sid).done then log else log + [Asked(sid, PosOf(positions, sid).cursor, r)]
  }

  /** The errors are those of the failed reads, the scanned services those that answered, and no
      finished service becomes unfinished. */
  ghost predicate Told(up: Upstream, start: Positions, v: View, log: seq<Asked>) {
    && v.errors == Failures(log) && v.scanned == Answering(log)
    && (forall q | q in log && q.result.Fetched? :: q.result.page == up(q.service, q.at))
    && (forall s | PosOf(start, s).done :: PosOf(v.positions, s).done)
  }

  /** Told, while the services of `read` have been read and no other. */
  ghost predicate ToldOf(up: Upstream, start: Positions, v: View, log: seq<Asked>, read: set<Sid>) {
    && Told(up, start, v, log)
    && Whom(log) == Unfinished(start, read)
    && forall s | s !in read :: PosOf(v.positions, s) == PosOf(start, s)
  }

  lemma WhomNext(log: seq<Asked>, q: Asked)
    ensures Whom(log + [q]) == Whom(log) + {q.service}
  {
    assert q in log + [q];
    assert forall p :: p in log + [q] <==> p in log || p == q;
    forall s
      ensures s in Whom(log + [q]) <==> s in Whom(log) + {q.service}
    {
      if s in Whom(log) {
        var p :| p in log && p.service == s;
        assert p in log + [q];
      }
    }
  }

  lemma LoadTold(up: Upstream, start: Positions, v: View, log: seq<Asked>, sid: Sid, r: FetchResult)
    requires Told(up, start, v, log)
    requires r.Fetched? ==> r.page == up(sid, PosOf(v.positions, sid).cursor)
    ensures Told(up, start, AfterLoad(v, sid, r), Noted(log, v.positions, sid, r))
  {
    if !PosOf(v.positions, sid).done {
      var log' := Noted(log, v.positions, sid, r);
      assert log'[..|log'| - 1] == log;
    }
  }

  lemma LoadToldOf(up: Upstream, start: Positions, v: View, log: seq<Asked>, read: set<Sid>, sid: Sid, r: FetchResult)
    requires ToldOf(up, start, v, log, read) && sid !in read
    requires r.Fetched? ==> r.page == up(sid, PosOf(v.positions, sid).cursor)
    ensures ToldOf(up, start, AfterLoad(v, sid, r), Noted(log, v.positions, sid, r), read + {sid})
  {
    LoadTold(up, start, v, log, sid, r);
    assert PosOf(v.positions, sid) == PosOf(start, sid);
    if PosOf(start, sid).done {
      assert Unfinished(start, read + {sid}) == Unfinished(start, read);
    } else {
      WhomNext(log, Asked(sid, PosOf(v.positions, sid).cursor, r));
      assert Unfinished(start, read + {sid}) == Unfinished(start, read) + {sid};
    }
  }

  lemma ShiftTold(up: Upstream, start: Positions, v: View, log: seq<Asked>, sid: Sid)
    requires Told(up, start, v, log) && SlotIn(v, sid).rows != [] && !PosOf(v.positions, sid).done
    ensures Told(up, start, AfterShift(v, sid), log)
  {
  }

  /** Told, with none read but the unfinished services of the call. */
  ghost predicate ToldIn(o: Origin, start: Positions, v: View, log: seq<Asked>) {
    Told(o.up, start, v, log) && Whom(log) == Unfinished(start, IdSet(o.ids))
  }

  lemma LoadToldIn(o: Origin, start: Positions, v: View, log: seq<Asked>, sid: Sid, r: FetchResult)
    requires ToldIn(o, start, v, log) && sid in o.ids
    requires r.Fetched? ==> r.page == o.up(sid, PosOf(v.positions, sid).cursor)
    ensures ToldIn(o, start, AfterLoad(v, sid, r), Noted(log, v.positions, sid, r))
  {
    LoadTold(o.up, start, v, log, sid, r);
    if !PosOf(v.positions, sid).done {
      WhomNext(log, Asked(sid, PosOf(v.positions, sid).cursor, r));
      assert sid in Unfinished(start, IdSet(o.ids));
    }
  }

  lemma SizeOfIds(ids: seq<Sid>)
    ensures |IdSet(ids)| <= |ids|
  {
    if ids != [] {
      SizeOfIds(ids[1..]);
      assert IdSet(ids) == IdSet(ids[1..]) + {ids[0]};
    }
  }

  /** A batch holds none of the services before it. */
  lemma BatchIds(ids: seq<Sid>, offset: nat, end: nat)
    requires Distinct(ids) && offset <= end <= |ids|
    ensures IdSet(ids[offset..end]) !! IdSet(ids[..offset])
    ensures IdSet(ids[..end]) == IdSet(ids[..offset]) + IdSet(ids[offset..end])
    ensures |IdSet(ids[offset..end])| <= end - offset
  {
    SizeOfIds(ids[offset..end]);
    assert ids[..end] == ids[..offset] + ids[offset..end];
  }

  // ---- One call

  /** When a service is left unfinished, the call emitted something or moved a service to a later page. */
  ghost predicate Moved(o: Origin, v: View, l: Ledger) {
    (exists s :: s in o.ids && !PosOf(v.positions, s).done) ==>
      exists s :: s in o.ids && (Of(l.trace, s) != [] || DepthOf(l.depth, s) > DepthOf(o.startDepth, s))
  }

  /** The call emitted the next part of the greedy merge exactly if nothing undercut a service that
      sat out, and none was held back where it stopped short of the limit. */
  ghost predicate InOrder(o: Origin, v: View, l: Ledger, limit: nat, last: Sid -> nat) {
    l.trace == Take(Rests(o, last), limit) <==>
      NoUndercut(o, l, last) && (|v.items| < limit ==> forall s :: !Held(o, l, last, s))
  }

  class Call {
    const up: Upstream
    const ids: seq<Sid>
    var positions: Positions
    var pages: map<Sid, seq<Item>>
    var next: map<Sid, Cursor>
    var items: seq<Item>
    var errors: seq<ErrorEntry>
    var scanned: seq<Sid>
    ghost var log: seq<Asked>

    constructor (up: Upstream, ids: seq<Sid>, cursor: Option<Positions>)
      ensures this.up == up && this.ids == ids
      ensures V() == View(if cursor.Some? then cursor.value else map[], map[], map[], [], [], [])
      ensures log == []
    {
      this.up, this.ids := up, ids;
      positions := if cursor.Some? then cursor.value else map[];
      pages, next, items, errors, scanned := map[], map[], [], [], [];
      log := [];
    }

    ghost function V(): View
      reads this
    {
      View(positions, pages, next, items, errors, scanned)
    }

    /** A network read of a stable upstream: it answers the page, or fails at will. */
    method FetchPage(s: Sid, cursor: Cursor) returns (r: FetchResult)
      modifies this`log
      ensures r.Fetched? ==> r.page == up(s, cursor)
      ensures log == old(log) + [Asked(s, cursor, r)]
    {
      if * {
        r := Fetched(up(s, cursor));
      } else if * {
        var message: string := *;
        r := Failed(Raised(message));
      } else {
        r := Failed(Opaque);
      }
      log := log + [Asked(s, cursor, r)];
    }

    /** Reads the page a service's position names, unless the service is finished. */
    method Load(sid: Sid) returns (ghost r: FetchResult)
      modifies this
      ensures log == Noted(old(log), old(positions), sid, r)
      ensures r.Fetched? ==> r.page == up(sid, PosOf(old(positions), sid).cursor)
      ensures V() == AfterLoad(old(V()), sid, r)
    {
      positions := positions[sid := PosOf(positions, sid)];
      var position := positions[sid];
      if position.done {
        return Failed(Opaque);
      }
      var result := FetchPage(sid, position.cursor);
      r := result;
      if result.Failed? {
        errors := errors + [ErrorEntry(sid, Detail(result.failure))];
        return;
      }
      var payload := result.page;
      pages := pages[sid := if position.skip <= |payload.items| then payload.items[position.skip..] else []];
      next := next[sid := OrNull(payload.nextCursor)];
      if sid !in scanned {
        scanned := scanned + [sid];
      }
      if pages[sid] == [] {
        var following := OrNull(payload.nextCursor);
        if following != Start && following != position.cursor {
          positions := positions[sid := Position(following, 0, false)];
        } else {
          positions := positions[sid := position.(done := true)];
        }
      }
    }

    /** Emits the first row of a service; `moved` says that its next page is still to be read. */
    method Shift(sid: Sid) returns (moved: bool)
      requires SlotIn(V(), sid).rows != []
      modifies this
      ensures V() == AfterShift(old(V()), sid) && log == old(log)
      ensures moved <==> !Settled(SlotIn(V(), sid))
    {
      ghost var slot := ShiftSlot(SlotIn(V(), sid));
      var rows := pages[sid];
      items := items + [rows[0]];
      pages := pages[sid := rows[1..]];
      positions := positions[sid := PosOf(positions, sid).(skip := PosOf(positions, sid).skip + 1)];
      moved := false;
      if pages[sid] == [] {
        var following := if sid in next then next[sid] else Start;
        if following != Start && following != positions[sid].cursor {
          positions := positions[sid := Position(following, 0, false)];
          moved := true;
        } else {
          positions := positions[sid := positions[sid].(done := true)];
        }
      }
      assert SlotIn(V(), sid) == slot;
    }

    /** Reads one batch of services; the reads complete in any order. */
    method LoadBatch(batch: set<Sid>, ghost o: Origin, ghost l: Ledger, ghost ready: set<Sid>, ghost start: Positions)
      returns (ghost l': Ledger)
      requires o.up == up && Reading(o, V(), l, ready) && batch !! ready
      requires ToldOf(up, start, V(), log, ready)
      modifies this
      ensures Reading(o, V(), l', ready + batch) && l'.trace == l.trace && items == old(items)
      ensures ToldOf(up, start, V(), log, ready + batch) && |log| <= |old(log)| + |batch|
    {
      var pending := batch;
      l' := l;
      while exists s :: s in pending
        invariant pending <= batch
        invariant Reading(o, V(), l', ready + (batch - pending)) && l'.trace == l.trace && items == old(items)
        invariant ToldOf(up, start, V(), log, ready + (batch - pending))
        invariant |log| <= |old(log)| + |batch| - |pending|
        decreases |pending|
      {
        var sid :| sid in pending;
        ghost var v, m, done, log0 := V(), l', ready + (batch - pending), log;
        ghost var r := Load(sid);
        l' := ReadOne(o, v, m, done, sid, r);
        LoadToldOf(up, start, v, log0, done, sid, r);
        pending := pending - {sid};
        assert ready + (batch - pending) == done + {sid};
      }
      assert batch - pending == batch;
    }

    /** Reads a page of every service, in batches of four. */
    method LoadAll(ghost o: Origin, ghost l: Ledger) returns (ghost l': Ledger)
      requires o.up == up && Distinct(ids) && Reading(o, V(), l, {}) && ToldOf(up, positions, V(), log, {}) && log == []
      modifies this
      ensures Reading(o, V(), l', IdSet(ids)) && l'.trace == l.trace && items == old(items)
      ensures ToldOf(up, old(positions), V(), log, IdSet(ids)) && |log| <= |ids|
    {
      var offset := 0;
      l' := l;
      while offset < |ids|
        invariant 0 <= offset <= |ids|
        invariant Reading(o, V(), l', IdSet(ids[..offset])) && l'.trace == l.trace && items == old(items)
        invariant ToldOf(up, old(positions), V(), log, IdSet(ids[..offset])) && |log| <= offset
      {
        var end := if offset + 4 < |ids| then offset + 4 else |ids|;
        var batch := IdSet(ids[offset..end]);
        ghost var ready := IdSet(ids[..offset]);
        BatchIds(ids, offset, end);
        l' := LoadBatch(batch, o, l', ready, old(positions));
        offset := end;
      }
      assert ids[..offset] == ids;
    }

    /** Emits the best row shown. */
    method EmitRow(sid: Sid, limit: int, ghost o: Origin, ghost l: Ledger, ghost last: Sid -> nat)
      returns (moved: bool, ghost l': Ledger)
      requires o.up == up && Conserved(o, V(), l) && Scoped(o, V(), l) && OnTrack(o, V(), l, limit, last)
      requires |items| < limit && sid in pages && IsBest(pages, sid)
      modifies this
      ensures Conserved(o, V(), l') && Scoped(o, V(), l') && Advances(old(V()), l, V(), l')
      ensures |items| == |old(items)| + 1 && errors == old(errors)
      ensures V() == AfterShift(old(V()), sid) && log == old(log) && !PosOf(old(positions), sid).done
      ensures l'.trace != [] && l'.trace[|l'.trace| - 1].0 == sid && sid in o.ids
      ensures OnTrack(o, V(), l', if moved then |items| else limit, last)
      ensures moved ==> SlotIn(V(), sid).rows == []
      ensures moved && Finite(o.up, o.ids, last) && errors == [] ==>
                !PassedEmpty(o, l', sid) && forall s | s in o.ids && s != sid :: Placed(o, V(), l', s)
    {
      ghost var v := V();
      assert SlotIn(v, sid).rows == pages[sid];
      moved := Shift(sid);
      l' := EmitStep(o, v, l, sid);
      EmitOnTrack(o, v, l, limit, last, sid, l');
    }

    /** One round of the merge: the best row shown goes out, and where that used up a page and more is
        wanted, the next page is read. */
    method EmitNext(limit: int, ghost o: Origin, ghost l: Ledger, ghost last: Sid -> nat, ghost start: Positions)
      returns (ghost l': Ledger)
      requires o.up == up && Conserved(o, V(), l) && Scoped(o, V(), l) && OnTrack(o, V(), l, limit, last)
      requires |items| < limit && !Exhausted(pages) && ToldIn(o, start, V(), log)
      modifies this
      ensures Conserved(o, V(), l') && Scoped(o, V(), l') && Advances(old(V()), l, V(), l')
      ensures OnTrack(o, V(), l', limit, last)
      ensures |items| == |old(items)| + 1
      ensures ToldIn(o, start, V(), log) && |log| <= |old(log)| + if |items| < limit then 1 else 0
    {
      BestExists(pages);
      var sid :| sid in pages && IsBest(pages, sid);
      var moved;
      ghost var v0, log0 := V(), log;
      moved, l' := EmitRow(sid, limit, o, l, last);
      ShiftTold(up, start, v0, log0, sid);
      if moved && |items| < limit {
        ghost var v, m := V(), l';
        ghost var r := Load(sid);
        l' := LoadStep(o, v, m, limit, last, sid, r);
        LoadToldIn(o, start, v, log0, sid, r);
      }
    }

    /** Emits rows in merge order until `limit` are out or none is shown. */
    method MergeRows(limit: int, ghost o: Origin, ghost l: Ledger, ghost last: Sid -> nat, ghost start: Positions)
      returns (ghost l': Ledger)
      requires o.up == up && Conserved(o, V(), l) && Scoped(o, V(), l) && OnTrack(o, V(), l, limit, last)
      requires items == [] && ToldIn(o, start, V(), log)
      modifies this
      ensures Conserved(o, V(), l') && Scoped(o, V(), l') && Advances(old(V()), l, V(), l')
      ensures OnTrack(o, V(), l', limit, last)
      ensures limit > 0 && !Exhausted(old(pages)) ==> items != []
      ensures if |items| < limit then Exhausted(pages) else |items| == if limit > 0 then limit else 0
      ensures ToldIn(o, start, V(), log)
      ensures |log| <= |old(log)| + if 0 < |items| == limit then limit - 1 else |items|
    {
      l' := l;
      while |items| < limit && !Exhausted(pages)
        invariant Conserved(o, V(), l') && Scoped(o, V(), l') && Advances(old(V()), l, V(), l')
        invariant OnTrack(o, V(), l', limit, last)
        invariant items != [] || pages == old(pages)
        invariant |items| <= if limit > 0 then limit else 0
        invariant ToldIn(o, start, V(), log)
        invariant |log| <= |old(log)| + if 0 < |items| == limit then limit - 1 else |items|
        decreases limit - |items|
      {
        ghost var v, m := V(), l';
        l' := EmitNext(limit, o, m, last, start);
        AdvancesOn(old(V()), l, v, m, V(), l');
      }
    }

    /** The whole call, from fresh page maps. */
    method Run(limit: int, ghost o: Origin, ghost l: Ledger, ghost last: Sid -> nat) returns (ghost l': Ledger)
      requires o.up == up && o.ids == ids && Distinct(ids) && Reading(o, V(), l, {})
      requires l == Ledger(o.startDepth, []) && items == [] && errors == [] && scanned == [] && log == []
      modifies this
      ensures ToldIn(o, old(positions), V(), log)
      ensures |log| <= |ids| + if 0 < |items| == limit then limit - 1 else |items|
      ensures Conserved(o, V(), l') && Scoped(o, V(), l')
      ensures |items| <= if limit > 0 then limit else 0
      ensures Finite(up, ids, last) && errors == [] && |items| < limit ==> AllPlaced(o, V(), l') && Exhausted(pages)
      ensures errors == [] && limit > 0 ==> Moved(o, V(), l')
      ensures Finite(up, ids, last) && errors == [] ==> InOrder(o, V(), l', if limit > 0 then limit else 0, last)
    {
      assert ToldOf(up, positions, V(), log, {});
      l' := LoadAll(o, l);
      ghost var v, m := V(), l';
      StartsOnTrack(o, v, m, limit, last);
      l' := MergeRows(limit, o, m, last, old(positions));
      if errors == [] && limit > 0 {
        SomethingMoved(o, v, m, V(), l');
      }
      if Finite(up, ids, last) && errors == [] {
        CallExactly(o, V(), l', if limit > 0 then limit else 0, last);
      }
    }
  }

  lemma SomethingMoved(o: Origin, v: View, l: Ledger, v': View, l': Ledger)
    requires Reading(o, v, l, IdSet(o.ids)) && Scoped(o, v', l') && Advances(v, l, v', l')
    requires !Exhausted(v.pages) ==> v'.items != []
    requires v'.errors == []
    ensures Moved(o, v', l')
  {
    if s :| s in o.ids && !PosOf(v'.positions, s).done {
      assert s in IdSet(o.ids) && Ready(o, v, l, s);
      assert !SlotIn(v', s).pos.done;
      if SlotIn(v, s).rows != [] {
        assert !Exhausted(v.pages);
        assert l'.trace[0].0 in o.ids && Of(l'.trace, l'.trace[0].0) != [];
      }
    }
  }

  /** A call over dense chains that stops short of its limit has finished every service. */
  lemma ShortIsDone(o: Origin, v: View, l: Ledger, last: Sid -> nat)
    requires Conserved(o, v, l) && AllPlaced(o, v, l) && Exhausted(v.pages) && Dense(o.up, o.ids, last)
    ensures forall s | s in o.ids :: PosOf(v.positions, s).done
  {
    forall s | s in o.ids
      ensures PosOf(v.positions, s).done
    {
      assert Good(o, v, l, s) && Placed(o, v, l, s);
      NeverPasses(o, v, l, s, last);
    }
  }

  /** A service never owes more after a call, and owes less if it emitted or moved to a later page. */
  lemma TodoShrinks(up: Upstream, s: Sid, last: nat, pos: Position, n: nat, got: seq<Item>,
                    pos': Position, n': nat, emitted: seq<Item>)
    requires SlotGood(up, s, Slot(pos, [], Start), n, got) && Ends(up, s, last)
    requires SlotGood(up, s, Slot(pos', [], Start), n', got + emitted) && n <= n'
    ensures Todo(up, s, last, n', got + emitted) <= Todo(up, s, last, n, got)
    ensures emitted != [] || n < n' ==> Todo(up, s, last, n', got + emitted) < Todo(up, s, last, n, got)
  {
    RowsComeNext(up, s, Slot(pos, [], Start), n, got, last);
    RowsComeNext(up, s, Slot(pos', [], Start), n', got + emitted, last);
  }
}
