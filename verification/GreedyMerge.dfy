/** The reference merge: repeatedly take the best head among the remaining streams. */
module GreedyMerge {
  import opened Streams

  type Rest = map<Sid, seq<Item>>
  type Trace = seq<(Sid, Item)>

  /** The merge order: descending by item key, ties descending by service id. */
  predicate Beats(s: Sid, x: Item, t: Sid, y: Item) {
    x.key > y.key || (x.key == y.key && s >= t)
  }

  predicate Exhausted(rest: Rest) {
    forall s | s in rest :: rest[s] == []
  }

  predicate IsBest(rest: Rest, s: Sid) {
    && s in rest && rest[s] != []
    && forall t | t in rest && rest[t] != [] :: Beats(s, rest[s][0], t, rest[t][0])
  }

  lemma BestAmong(rest: Rest, ids: set<Sid>) returns (s: Sid)
    requires ids <= rest.Keys && exists t :: t in ids
    requires forall t | t in ids :: rest[t] != []
    ensures s in ids
    ensures forall t | t in ids :: Beats(s, rest[s][0], t, rest[t][0])
    decreases |ids|
  {
    s :| s in ids && rest[s] != [];
    if t :| t in ids && t != s {
      assert t in ids - {s};
      var r := BestAmong(rest, ids - {s});
      if Beats(r, rest[r][0], s, rest[s][0]) {
        s := r;
      }
    }
  }

  lemma BestExists(rest: Rest)
    requires !Exhausted(rest)
    ensures exists s :: IsBest(rest, s)
  {
    var nonempty := set t | t in rest && rest[t] != [];
    var t :| t in rest && rest[t] != [];
    assert t in nonempty;
    var s := BestAmong(rest, nonempty);
    assert IsBest(rest, s);
  }

  ghost function Best(rest: Rest): (s: Sid)
    requires !Exhausted(rest)
    ensures IsBest(rest, s)
    ensures forall t :: IsBest(rest, t) ==> t == s
  {
    BestExists(rest);
    var s :| IsBest(rest, s);
    s
  }

  /** The first n picks of the greedy merge (fewer when the streams run out). */
  ghost function Take(rest: Rest, n: nat): Trace {
    if n == 0 || Exhausted(rest) then [] else
    var s := Best(rest);
    [(s, rest[s][0])] + Take(rest[s := rest[s][1..]], n - 1)
  }

  /** What n picks leave behind. */
  ghost function Left(rest: Rest, n: nat): Rest {
    if n == 0 || Exhausted(rest) then rest else
    var s := Best(rest);
    Left(rest[s := rest[s][1..]], n - 1)
  }

  /** The items a trace took from one service. */
  function Of(trace: Trace, s: Sid): seq<Item> {
    if trace == [] then [] else
    (if trace[0].0 == s then [trace[0].1] else []) + Of(trace[1..], s)
  }

  function Payloads(trace: Trace): seq<Item> {
    seq(|trace|, i requires 0 <= i < |trace| => trace[i].1)
  }

  lemma PayloadsConcat(a: Trace, b: Trace)
    ensures Payloads(a + b) == Payloads(a) + Payloads(b)
  {
  }

  lemma {:induction false} OfConcat(a: Trace, b: Trace, s: Sid)
    ensures Of(a + b, s) == Of(a, s) + Of(b, s)
  {
    if a == [] {
      assert a + b == b;
    } else {
      var head := if a[0].0 == s then [a[0].1] else [];
      calc {
        Of(a + b, s);
        { assert (a + b)[0] == a[0] && (a + b)[1..] == a[1..] + b; }
        head + Of(a[1..] + b, s);
        { OfConcat(a[1..], b, s); }
        head + (Of(a[1..], s) + Of(b, s));
        (head + Of(a[1..], s)) + Of(b, s);
        Of(a, s) + Of(b, s);
      }
    }
  }

  /** Recording one more pick adds it to its own service's list, and to no other. */
  lemma Recorded(trace: Trace, s: Sid, x: Item, t: Sid)
    ensures Of(trace + [(s, x)], t) == Of(trace, t) + if s == t then [x] else []
  {
    OfConcat(trace, [(s, x)], t);
    assert [(s, x)][1..] == [];
  }

  /** Taking a items and then b more is taking a + b: where a call stops does not matter. */
  lemma {:induction false} TakeSplits(rest: Rest, a: nat, b: nat)
    ensures Take(rest, a + b) == Take(rest, a) + Take(Left(rest, a), b)
    ensures Left(rest, a + b) == Left(Left(rest, a), b)
  {
    if a > 0 && !Exhausted(rest) {
      var s := Best(rest);
      TakeSplits(rest[s := rest[s][1..]], a - 1, b);
    }
  }

  /** Every service's stream is what the merge took from it followed by what is left of it. */
  lemma {:induction false} TakeConserves(rest: Rest, n: nat, s: Sid)
    requires s in rest
    ensures s in Left(rest, n)
    ensures rest[s] == Of(Take(rest, n), s) + Left(rest, n)[s]
  {
    if n > 0 && !Exhausted(rest) {
      var b := Best(rest);
      var next := rest[b := rest[b][1..]];
      TakeConserves(next, n - 1, s);
      assert Take(rest, n)[1..] == Take(next, n - 1);
      if s == b {
        assert rest[b] == [rest[b][0]] + rest[b][1..];
      }
    }
  }

  lemma {:induction false} LeftKeys(rest: Rest, n: nat)
    ensures Left(rest, n).Keys == rest.Keys
  {
    if n > 0 && !Exhausted(rest) {
      var b := Best(rest);
      LeftKeys(rest[b := rest[b][1..]], n - 1);
    }
  }

  lemma {:induction false} TakeShort(rest: Rest, n: nat)
    ensures |Take(rest, n)| <= n && Take(rest, n) == Take(rest, |Take(rest, n)|)
  {
    if n > 0 && !Exhausted(rest) {
      var b := Best(rest);
      TakeShort(rest[b := rest[b][1..]], n - 1);
    }
  }

  lemma TakeOneMore(rest: Rest, n: nat, s: Sid)
    requires IsBest(Left(rest, n), s)
    ensures Take(rest, n + 1) == Take(rest, n) + [(s, Left(rest, n)[s][0])]
  {
    var left := Left(rest, n);
    TakeSplits(rest, n, 1);
    assert Take(left[s := left[s][1..]], 0) == [];
    assert Take(left, 1) == [(s, left[s][0])];
  }

  lemma TakeNoMore(rest: Rest, n: nat, m: nat)
    requires Exhausted(Left(rest, n)) && n <= m
    ensures Take(rest, m) == Take(rest, n)
  {
    TakeSplits(rest, n, m - n);
  }

  /** A head is the next pick exactly if it is the best one. */
  lemma TakeNextIff(rest: Rest, n: nat, s: Sid)
    requires s in Left(rest, n) && Left(rest, n)[s] != []
    ensures Take(rest, n) + [(s, Left(rest, n)[s][0])] == Take(rest, n + 1) <==> IsBest(Left(rest, n), s)
  {
    var b := Best(Left(rest, n));
    TakeOneMore(rest, n, b);
    if IsBest(Left(rest, n), s) {
      assert s == b;
    }
    var next, best := (s, Left(rest, n)[s][0]), (b, Left(rest, n)[b][0]);
    if Take(rest, n) + [next] == Take(rest, n + 1) {
      assert (Take(rest, n) + [next])[|Take(rest, n)|] == (Take(rest, n) + [best])[|Take(rest, n)|];
    }
  }

  /** What has left the greedy merge does not come back to it. */
  lemma TakeNotPrefix(rest: Rest, trace: Trace, next: (Sid, Item))
    requires trace != Take(rest, |trace|)
    ensures trace + [next] != Take(rest, |trace| + 1)
  {
    var n := |trace|;
    TakeSplits(rest, n, 1);
    TakeShort(rest, n);
    TakeShort(Left(rest, n), 1);
    var longer := trace + [next];
    assert longer[..n] == trace;
    assert |Take(rest, n + 1)| == n + 1 ==> Take(rest, n + 1)[..n] == Take(rest, n);
  }

  /** Stopping short of a limit takes all that may be taken exactly if nothing is left. */
  lemma TakeAllIff(rest: Rest, n: nat, limit: nat)
    requires n < limit && |Take(rest, n)| == n
    ensures Take(rest, n) == Take(rest, limit) <==> Exhausted(Left(rest, n))
  {
    if Exhausted(Left(rest, n)) {
      TakeNoMore(rest, n, limit);
    } else {
      TakeOneMore(rest, n, Best(Left(rest, n)));
      TakeSplits(rest, n + 1, limit - n - 1);
    }
  }

  /** The whole greedy merge of some streams. */
  ghost predicate IsMerge(rest: Rest, trace: Trace) {
    trace == Take(rest, |trace|) && Exhausted(Left(rest, |trace|))
  }

  lemma MergeIsUnique(rest: Rest, a: Trace, b: Trace)
    requires IsMerge(rest, a) && IsMerge(rest, b)
    ensures a == b
  {
    if |a| <= |b| {
      TakeNoMore(rest, |a|, |b|);
    } else {
      TakeNoMore(rest, |b|, |a|);
    }
  }

  ghost predicate StreamDescending(items: seq<Item>) {
    forall i, j :: 0 <= i < j < |items| ==> items[i].key >= items[j].key
  }

  /** Descending by item key, items of equal keys by service id. */
  ghost predicate TraceDescending(trace: Trace) {
    forall i, j :: 0 <= i < j < |trace| ==>
      trace[i].1.key > trace[j].1.key || (trace[i].1.key == trace[j].1.key && trace[i].0 >= trace[j].0)
  }

  lemma {:induction false} PicksComeFromRest(rest: Rest, n: nat, i: nat)
    requires i < |Take(rest, n)|
    ensures var (s, x) := Take(rest, n)[i]; s in rest && x in rest[s]
  {
    var b := Best(rest);
    var next := rest[b := rest[b][1..]];
    if i > 0 {
      PicksComeFromRest(next, n - 1, i - 1);
      assert Take(rest, n)[i] == Take(next, n - 1)[i - 1];
    }
  }

  /** Merging streams that are each descending gives a list descending by (key, service id). */
  lemma {:induction false} MergeDescends(rest: Rest, n: nat)
    requires forall s | s in rest :: StreamDescending(rest[s])
    ensures TraceDescending(Take(rest, n))
  {
    if n > 0 && !Exhausted(rest) {
      var b := Best(rest);
      var next := rest[b := rest[b][1..]];
      var trace := Take(rest, n);
      MergeDescends(next, n - 1);
      assert trace[1..] == Take(next, n - 1);
      forall i, j | 0 <= i < j < |trace|
        ensures Beats(trace[i].0, trace[i].1, trace[j].0, trace[j].1)
      {
        assert trace[j] == trace[1..][j - 1];
        if i > 0 {
          assert trace[i] == trace[1..][i - 1];
        } else {
          PicksComeFromRest(rest, n, j);
          var (s, x) := trace[j];
          var k :| 0 <= k < |rest[s]| && rest[s][k] == x;
          assert rest[s][0].key >= x.key;
        }
      }
    }
  }
}
