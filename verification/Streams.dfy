/** What a paged upstream service holds: the chain of pages its cursors link, the stream those
    pages spell out, and what a saved position stands for. */
module Streams {

  /** A service id, given as its rank in the order `localeCompare` puts ids in. */
  type Sid = int

  datatype Option<+T> = None | Some(value: T)

  /** A page cursor; `Start` is the source's `null`. */
  datatype Cursor = Start | At(token: string)

  /** `key` is the rank of `order(item)` in the `localeCompare` order. */
  datatype Item = Item(payload: string, key: int)

  datatype Page = Page(items: seq<Item>, nextCursor: Option<string>)

  datatype Position = Position(cursor: Cursor, skip: nat, done: bool)

  /** A stable upstream: the page each service answers for each cursor. */
  type Upstream = (Sid, Cursor) -> Page

  /** `next_cursor || null`: the empty string is as good as no cursor. */
  function OrNull(next: Option<string>): Cursor {
    if next.Some? && next.value != "" then At(next.value) else Start
  }

  /** The cursor that follows `at`, or `Start` when the page names none or names itself. */
  function Follow(page: Page, at: Cursor): Cursor {
    var next := OrNull(page.nextCursor);
    if next != at then next else Start
  }

  /** The cursor of the n-th page of a service. */
  function NthCursor(up: Upstream, s: Sid, n: nat): Cursor {
    if n == 0 then Start else
    var at := NthCursor(up, s, n - 1);
    Follow(up(s, at), at)
  }

  function PageAt(up: Upstream, s: Sid, n: nat): Page {
    up(s, NthCursor(up, s, n))
  }

  /** The chain of a service has a page number n. */
  ghost predicate Live(up: Upstream, s: Sid, n: nat) {
    forall i :: 0 < i <= n ==> NthCursor(up, s, i) != Start
  }

  /** The items of the first n pages. */
  function Read(up: Upstream, s: Sid, n: nat): seq<Item> {
    if n == 0 then [] else Read(up, s, n - 1) + PageAt(up, s, n - 1).items
  }

  /** The chain is finite, and `last` is its last page. */
  ghost predicate Ends(up: Upstream, s: Sid, last: nat) {
    Live(up, s, last) && NthCursor(up, s, last + 1) == Start
  }

  /** Everything a service with a finite chain holds. */
  function Stream(up: Upstream, s: Sid, last: nat): seq<Item> {
    Read(up, s, last + 1)
  }

  /** A page leads from one cursor to the next: its own, unless that is empty or names the page itself. */
  predicate LeadsTo(page: Page, at: Cursor, next: Cursor) {
    next.At? && next.token != "" && next != at && page.nextCursor == Some(next.token)
  }

  predicate LeadsNowhere(page: Page, at: Cursor) {
    page.nextCursor.None? || page.nextCursor.value == "" || At(page.nextCursor.value) == at
  }

  /** The cursors a client goes through who follows `next_cursor` from the first page to the last. */
  ghost predicate Walk(up: Upstream, s: Sid, cursors: seq<Cursor>) {
    && cursors != [] && cursors[0] == Start
    && (forall i | 0 < i < |cursors| :: LeadsTo(up(s, cursors[i - 1]), cursors[i - 1], cursors[i]))
    && LeadsNowhere(up(s, cursors[|cursors| - 1]), cursors[|cursors| - 1])
  }

  /** The items of a list of pages, one page after the other. */
  function ItemsAt(up: Upstream, s: Sid, cursors: seq<Cursor>): seq<Item> {
    if cursors == [] then []
    else ItemsAt(up, s, cursors[..|cursors| - 1]) + up(s, cursors[|cursors| - 1]).items
  }

  lemma {:induction false} WalkIsChain(up: Upstream, s: Sid, cursors: seq<Cursor>, n: nat)
    requires Walk(up, s, cursors) && n < |cursors|
    ensures NthCursor(up, s, n) == cursors[n] && Live(up, s, n)
    ensures Read(up, s, n + 1) == ItemsAt(up, s, cursors[..n + 1])
  {
    assert cursors[..n + 1][..n] == cursors[..n];
    if n > 0 {
      WalkIsChain(up, s, cursors, n - 1);
    }
  }

  /** The stream of a finite chain is what a client finds who follows `next_cursor` to the end. */
  lemma StreamOfWalk(up: Upstream, s: Sid, cursors: seq<Cursor>)
    requires Walk(up, s, cursors)
    ensures Ends(up, s, |cursors| - 1) && Stream(up, s, |cursors| - 1) == ItemsAt(up, s, cursors)
  {
    WalkIsChain(up, s, cursors, |cursors| - 1);
    assert cursors[..|cursors|] == cursors;
  }

  /** A saved position stands in page n, before one of its items (or at an empty page's start),
      and is done only at the very end. */
  ghost predicate Denotes(up: Upstream, s: Sid, pos: Position, n: nat) {
    && Live(up, s, n)
    && pos.cursor == NthCursor(up, s, n)
    && pos.skip <= |PageAt(up, s, n).items|
    && (if pos.done then NthCursor(up, s, n + 1) == Start && pos.skip == |PageAt(up, s, n).items|
        else pos.skip < |PageAt(up, s, n).items| || pos.skip == 0)
  }

  /** The part of the stream that lies before a position. */
  function Before(up: Upstream, s: Sid, pos: Position, n: nat): seq<Item>
    requires pos.skip <= |PageAt(up, s, n).items|
  {
    Read(up, s, n) + PageAt(up, s, n).items[..pos.skip]
  }

  lemma LiveWithinEnd(up: Upstream, s: Sid, n: nat, last: nat)
    requires Live(up, s, n) && Ends(up, s, last)
    ensures n <= last
  {
    assert NthCursor(up, s, last + 1) == Start;
  }

  lemma {:induction false} ReadGrows(up: Upstream, s: Sid, n: nat, m: nat)
    requires n <= m
    ensures Read(up, s, n) <= Read(up, s, m)
    decreases m
  {
    if n < m {
      ReadGrows(up, s, n, m - 1);
    }
  }

  /** What a position has behind it is always an initial part of the whole stream, and all of it
      exactly when the position is done. */
  lemma BeforeIsPrefix(up: Upstream, s: Sid, pos: Position, n: nat, last: nat)
    requires Denotes(up, s, pos, n) && Ends(up, s, last)
    ensures n <= last
    ensures Before(up, s, pos, n) <= Stream(up, s, last)
    ensures pos.done ==> n == last && Before(up, s, pos, n) == Stream(up, s, last)
  {
    LiveWithinEnd(up, s, n, last);
    var items := PageAt(up, s, n).items;
    assert Read(up, s, n + 1) == Read(up, s, n) + items;
    assert Before(up, s, pos, n) <= Read(up, s, n + 1);
    ReadGrows(up, s, n + 1, last + 1);
    if pos.done {
      assert NthCursor(up, s, n + 1) == Start;
      assert items[..pos.skip] == items;
    }
  }

  lemma {:induction false} SameCursorSameFuture(up: Upstream, s: Sid, n: nat, m: nat, k: nat)
    requires NthCursor(up, s, n) == NthCursor(up, s, m)
    ensures NthCursor(up, s, n + k) == NthCursor(up, s, m + k)
  {
    if k > 0 {
      SameCursorSameFuture(up, s, n, m, k - 1);
    }
  }

  /** The pair (cursor, skip) alone fixes how much of a finite chain has been read. */
  lemma PositionDeterminesPrefix(up: Upstream, s: Sid, pos: Position, n: nat, m: nat, last: nat)
    requires Denotes(up, s, pos, n) && Denotes(up, s, pos, m) && Ends(up, s, last)
    ensures n == m
  {
    LiveWithinEnd(up, s, n, last);
    LiveWithinEnd(up, s, m, last);
    if n < m {
      SameCursorSameFuture(up, s, n, m, last + 1 - m);
    } else if m < n {
      SameCursorSameFuture(up, s, m, n, last + 1 - n);
    }
  }
}
