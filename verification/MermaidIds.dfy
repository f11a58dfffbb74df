/** The node names of a Mermaid flowchart: whatever the ids of a graph contain, the names are plain and
    no two nodes share one. */
module MermaidIds {

  // ---- Names

  predicate IsPlain(c: char) {
    '0' <= c <= '9' || 'A' <= c <= 'Z' || 'a' <= c <= 'z' || c == '_'
  }

  ghost predicate Plain(name: string) {
    forall i | 0 <= i < |name| :: IsPlain(name[i])
  }

  function Sanitized(id: string): (text: string)
    ensures |text| == |id| && Plain(text)
  {
    if id == "" then "" else [if IsPlain(id[0]) then id[0] else '_'] + Sanitized(id[1..])
  }

  function WithoutLeading(text: string): (rest: string)
    ensures Plain(text) ==> Plain(rest)
  {
    if text != "" && text[0] == '_' then WithoutLeading(text[1..]) else text
  }

  function WithoutTrailing(text: string): (rest: string)
    ensures Plain(text) ==> Plain(rest)
  {
    if text != "" && text[|text| - 1] == '_' then WithoutTrailing(text[..|text| - 1]) else text
  }

  function BaseName(id: string): (base: string)
    ensures Plain(base)
  {
    var stripped := WithoutTrailing(WithoutLeading(Sanitized(id)));
    "node_" + if stripped == "" then "item" else stripped
  }

  ghost predicate Underscores(text: string) {
    forall i | 0 <= i < |text| :: text[i] == '_'
  }

  lemma {:induction false} LeadingAre(text: string)
    ensures exists before :: Underscores(before) && text == before + WithoutLeading(text)
    ensures WithoutLeading(text) != "" ==> WithoutLeading(text)[0] != '_'
    decreases |text|
  {
    if text != "" && text[0] == '_' {
      LeadingAre(text[1..]);
      var before :| Underscores(before) && text[1..] == before + WithoutLeading(text[1..]);
      assert Underscores("_" + before) && text == ("_" + before) + WithoutLeading(text);
    } else {
      assert Underscores("") && text == "" + WithoutLeading(text);
    }
  }

  lemma {:induction false} TrailingAre(text: string)
    ensures exists after :: Underscores(after) && text == WithoutTrailing(text) + after
    ensures WithoutTrailing(text) != "" ==>
              WithoutTrailing(text)[|WithoutTrailing(text)| - 1] != '_' && WithoutTrailing(text)[0] == text[0]
    decreases |text|
  {
    if text != "" && text[|text| - 1] == '_' {
      var n := |text| - 1;
      TrailingAre(text[..n]);
      var after :| Underscores(after) && text[..n] == WithoutTrailing(text[..n]) + after;
      assert Underscores(after + "_") && text == WithoutTrailing(text) + (after + "_");
    } else {
      assert Underscores("") && text == WithoutTrailing(text) + "";
    }
  }

  lemma {:induction false} SanitizedAt(id: string, i: nat)
    requires i < |id|
    ensures Sanitized(id)[i] == if IsPlain(id[i]) then id[i] else '_'
    decreases |id|
  {
    if i > 0 {
      SanitizedAt(id[1..], i - 1);
    }
  }

  /** The id with every other character turned into an underscore. */
  ghost predicate Masks(id: string, text: string) {
    |text| == |id| && forall i | 0 <= i < |id| :: text[i] == if IsPlain(id[i]) then id[i] else '_'
  }

  lemma SanitizedMasks(id: string)
    ensures Masks(id, Sanitized(id))
  {
    forall i | 0 <= i < |id|
      ensures Sanitized(id)[i] == if IsPlain(id[i]) then id[i] else '_'
    {
      SanitizedAt(id, i);
    }
  }

  /** The base name shows the id without the underscores at its two ends, once every character that is not
      plain is one; and `item` if nothing is left. */
  lemma BaseNameShows(id: string) returns (before: string, shown: string, after: string)
    ensures Masks(id, before + shown + after) && Underscores(before) && Underscores(after)
    ensures shown != "" ==> shown[0] != '_' && shown[|shown| - 1] != '_'
    ensures BaseName(id) == "node_" + if shown == "" then "item" else shown
  {
    var text := Sanitized(id);
    SanitizedMasks(id);
    LeadingAre(text);
    before :| Underscores(before) && text == before + WithoutLeading(text);
    TrailingAre(WithoutLeading(text));
    shown := WithoutTrailing(WithoutLeading(text));
    after :| Underscores(after) && WithoutLeading(text) == shown + after;
    assert before + shown + after == text;
  }

  function Decimal(n: nat): (digits: string)
    ensures Plain(digits) && digits != ""
  {
    if n < 10 then [('0' as int + n) as char] else Decimal(n / 10) + [('0' as int + n % 10) as char]
  }

  function Value(digits: string): int {
    if digits == "" then 0 else 10 * Value(digits[..|digits| - 1]) + (digits[|digits| - 1] as int - '0' as int)
  }

  /** The names tried for a node: the base name, then the base name numbered from 2. */
  function Candidate(base: string, suffix: nat): (name: string)
    ensures Plain(base) ==> Plain(name)
  {
    if suffix < 2 then base else base + "_" + Decimal(suffix)
  }

  // ---- A free name is always found

  lemma {:induction false} DecimalReads(n: nat)
    ensures Value(Decimal(n)) == n
    decreases n
  {
    if n >= 10 {
      DecimalReads(n / 10);
      var digits := Decimal(n);
      assert digits[..|digits| - 1] == Decimal(n / 10);
    } else {
      assert Decimal(n)[..0] == "";
    }
  }

  lemma CandidatesDiffer(base: string, i: nat, j: nat)
    requires 1 <= i < j
    ensures Candidate(base, i) != Candidate(base, j)
  {
    if i >= 2 {
      DecimalReads(i);
      DecimalReads(j);
      var k := |base| + 1;
      assert Candidate(base, i)[k..] == Decimal(i) && Candidate(base, j)[k..] == Decimal(j);
    }
  }

  /** The candidates with suffixes below n. */
  ghost function Tried(base: string, n: nat): set<string> {
    if n <= 1 then {} else Tried(base, n - 1) + {Candidate(base, n - 1)}
  }

  lemma {:induction false} TriedCount(base: string, n: nat)
    requires n >= 1
    ensures |Tried(base, n)| == n - 1
    ensures forall name | name in Tried(base, n) :: exists i :: 1 <= i < n && name == Candidate(base, i)
    decreases n
  {
    if n > 1 {
      TriedCount(base, n - 1);
      if Candidate(base, n - 1) in Tried(base, n - 1) {
        var i :| 1 <= i < n - 1 && Candidate(base, n - 1) == Candidate(base, i);
        CandidatesDiffer(base, i, n - 1);
      }
    }
  }

  lemma SubsetCount<T>(a: set<T>, b: set<T>)
    requires a <= b
    ensures |a| <= |b|
  {
    assert b == a + (b - a);
  }

  /** While every candidate so far was taken, there are no more of them than names in use. */
  lemma TriedFits(base: string, n: nat, used: set<string>)
    requires n >= 1 && Tried(base, n) <= used
    ensures n - 1 <= |used|
  {
    TriedCount(base, n);
    SubsetCount(Tried(base, n), used);
  }

  /** The first candidate that is not in use; the search always ends. */
  method FreeName(base: string, used: set<string>) returns (candidate: string)
    ensures candidate !in used
    ensures exists n: nat :: n >= 1 && candidate == Candidate(base, n) && Tried(base, n) <= used
  {
    candidate := base;
    var suffix := 2;
    while candidate in used
      invariant suffix >= 2 && candidate == Candidate(base, suffix - 1)
      invariant Tried(base, suffix - 1) <= used
      decreases |used| + 2 - suffix
    {
      assert Tried(base, suffix) == Tried(base, suffix - 1) + {candidate};
      TriedFits(base, suffix, used);
      candidate := base + "_" + Decimal(suffix);
      suffix := suffix + 1;
    }
  }

  // ---- One name per node

  /** The first candidate of its id that none before it has taken. */
  ghost predicate FirstFree(nodes: seq<string>, names: seq<string>, i: nat)
    requires i < |names| == |nodes|
  {
    exists n: nat :: FreeAt(BaseName(nodes[i]), names[i], names[..i], n)
  }

  ghost predicate FreeAt(base: string, name: string, before: seq<string>, n: nat) {
    n >= 1 && name == Candidate(base, n) && forall m | 1 <= m < n :: Candidate(base, m) in before
  }

  lemma {:induction false} TriedIn(base: string, n: nat, used: set<string>, m: nat)
    requires Tried(base, n) <= used && 1 <= m < n
    ensures Candidate(base, m) in used
    decreases n
  {
    if m < n - 1 {
      TriedIn(base, n - 1, used, m);
    }
  }

  lemma FreeIsFirst(nodes: seq<string>, names: seq<string>, id: string, name: string, used: set<string>)
    requires |names| == |nodes| && forall i | 0 <= i < |names| :: FirstFree(nodes, names, i)
    requires forall other | other in used :: other in names
    requires exists n: nat :: n >= 1 && name == Candidate(BaseName(id), n) && Tried(BaseName(id), n) <= used
    ensures forall i | 0 <= i <= |names| :: FirstFree(nodes + [id], names + [name], i)
  {
    forall i | 0 <= i <= |names|
      ensures FirstFree(nodes + [id], names + [name], i)
    {
      if i < |names| {
        assert FirstFree(nodes, names, i);
        var n: nat :| FreeAt(BaseName(nodes[i]), names[i], names[..i], n);
        assert (names + [name])[..i] == names[..i];
        assert FreeAt(BaseName((nodes + [id])[i]), (names + [name])[i], (names + [name])[..i], n);
      } else {
        var n: nat :| n >= 1 && name == Candidate(BaseName(id), n) && Tried(BaseName(id), n) <= used;
        forall m | 1 <= m < n
          ensures Candidate(BaseName(id), m) in names
        {
          TriedIn(BaseName(id), n, used, m);
        }
        assert (names + [name])[..i] == names;
        assert FreeAt(BaseName((nodes + [id])[i]), (names + [name])[i], (names + [name])[..i], n);
      }
    }
  }

  /** The names given to the ids in turn. */
  ghost predicate Named(nodes: seq<string>, names: seq<string>) {
    && |names| == |nodes|
    && (forall i | 0 <= i < |names| :: Plain(names[i]))
    && (forall i | 0 <= i < |names| :: FirstFree(nodes, names, i))
    && (forall i, j | 0 <= i < j < |names| :: names[i] != names[j])
  }

  /** Every id has a name, that of its last occurrence. */
  ghost predicate Recorded(nodes: seq<string>, names: seq<string>, ids: map<string, string>) {
    && |names| == |nodes|
    && (forall id :: id in ids <==> id in nodes)
    && (forall id | id in ids :: exists i: nat :: LastAt(nodes, id, i) && ids[id] == names[i])
  }

  ghost predicate LastAt(nodes: seq<string>, id: string, i: nat) {
    i < |nodes| && nodes[i] == id && forall j | i < j < |nodes| :: nodes[j] != id
  }

  /** Plain names, one per place in the list and no two the same, recorded by id. */
  ghost predicate Assigned(nodes: seq<string>, ids: map<string, string>) {
    exists names :: Named(nodes, names) && Recorded(nodes, names, ids)
  }

  lemma RecordNext(nodes: seq<string>, names: seq<string>, ids: map<string, string>, id: string, name: string)
    requires Recorded(nodes, names, ids)
    ensures Recorded(nodes + [id], names + [name], ids[id := name])
  {
    var longer, longerIds := nodes + [id], ids[id := name];
    forall other | other in longerIds
      ensures exists i: nat :: LastAt(longer, other, i) && longerIds[other] == (names + [name])[i]
    {
      if other == id {
        assert LastAt(longer, id, |nodes|);
      } else {
        var i: nat :| LastAt(nodes, other, i) && ids[other] == names[i];
        assert LastAt(longer, other, i);
      }
    }
  }

  method AssignIds(nodes: seq<string>) returns (ids: map<string, string>)
    ensures Assigned(nodes, ids)
  {
    var used: set<string> := {};
    ids := map[];
    ghost var names := [];
    for k := 0 to |nodes|
      invariant Named(nodes[..k], names) && Recorded(nodes[..k], names, ids)
      invariant forall name :: name in names <==> name in used
    {
      var candidate := FreeName(BaseName(nodes[k]), used);
      RecordNext(nodes[..k], names, ids, nodes[k], candidate);
      FreeIsFirst(nodes[..k], names, nodes[k], candidate, used);
      assert nodes[..k] + [nodes[k]] == nodes[..k + 1];
      ids := ids[nodes[k] := candidate];
      used := used + {candidate};
      names := names + [candidate];
    }
    assert nodes[..|nodes|] == nodes;
  }

  lemma NamesDiffer(nodes: seq<string>, names: seq<string>, i: nat, j: nat)
    requires Named(nodes, names) && i < |names| && j < |names| && nodes[i] != nodes[j]
    ensures names[i] != names[j]
  {
  }

  /** Different ids never share a name, even if they read the same once sanitized. */
  lemma NamesAreUnique(nodes: seq<string>, ids: map<string, string>, a: string, b: string)
    requires Assigned(nodes, ids) && a in nodes && b in nodes && a != b
    ensures a in ids && b in ids && ids[a] != ids[b] && Plain(ids[a])
  {
    var names :| Named(nodes, names) && Recorded(nodes, names, ids);
    var i: nat :| LastAt(nodes, a, i) && ids[a] == names[i];
    var j: nat :| LastAt(nodes, b, j) && ids[b] == names[j];
    NamesDiffer(nodes, names, i, j);
  }
}
