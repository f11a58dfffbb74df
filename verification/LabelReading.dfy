/** What the comma-separated texts of the service form mean, for any text a user may type. */
module LabelReading {
  import opened Splitting
  import opened LabelPairs
  import Places

  // ---- White space

  ghost predicate Blank(s: string) {
    forall i | 0 <= i < |s| :: IsSpace(s[i])
  }

  /** t is s without the white space around it. */
  ghost predicate Core(s: string, t: string) {
    Trimmed(t) && exists before, after :: Blank(before) && Blank(after) && s == before + t + after
  }

  lemma {:induction false} StartIsBlank(s: string)
    ensures exists before :: Blank(before) && s == before + TrimStart(s)
    decreases |s|
  {
    if s != "" && IsSpace(s[0]) {
      StartIsBlank(s[1..]);
      var before :| Blank(before) && s[1..] == before + TrimStart(s[1..]);
      assert Blank([s[0]] + before) && s == ([s[0]] + before) + TrimStart(s);
    } else {
      assert Blank("") && s == "" + TrimStart(s);
    }
  }

  lemma {:induction false} EndIsBlank(s: string)
    ensures exists after :: Blank(after) && s == TrimEnd(s) + after
    decreases |s|
  {
    if s != "" && IsSpace(s[|s| - 1]) {
      var n := |s| - 1;
      EndIsBlank(s[..n]);
      var after :| Blank(after) && s[..n] == TrimEnd(s[..n]) + after;
      assert Blank(after + [s[n]]) && s == TrimEnd(s) + (after + [s[n]]);
    } else {
      assert Blank("") && s == TrimEnd(s) + "";
    }
  }

  lemma TrimIsCore(s: string)
    ensures Core(s, Trim(s))
  {
    StartIsBlank(s);
    EndIsBlank(TrimStart(s));
    TrimTrims(s);
    var before :| Blank(before) && s == before + TrimStart(s);
    var after :| Blank(after) && TrimStart(s) == Trim(s) + after;
    assert s == before + Trim(s) + after;
  }

  lemma {:induction false} TrimStartSkips(before: string, rest: string)
    requires Blank(before)
    ensures TrimStart(before + rest) == TrimStart(rest)
    decreases |before|
  {
    if before == "" {
      assert before + rest == rest;
    } else {
      assert (before + rest)[1..] == before[1..] + rest;
      TrimStartSkips(before[1..], rest);
    }
  }

  lemma {:induction false} TrimEndSkips(rest: string, after: string)
    requires Blank(after)
    ensures TrimEnd(rest + after) == TrimEnd(rest)
    decreases |after|
  {
    if after == "" {
      assert rest + after == rest;
    } else {
      var n := |after| - 1;
      assert (rest + after)[..|rest + after| - 1] == rest + after[..n];
      TrimEndSkips(rest, after[..n]);
    }
  }

  /** Trimming takes away exactly the white space around a text, and there is only one way to do that. */
  lemma TrimIsTheCore(s: string, t: string)
    ensures Core(s, t) <==> t == Trim(s)
    ensures Trim(s) == "" <==> Blank(s)
  {
    TrimIsCore(s);
    if Core(s, t) {
      CoreIsTrim(s, t);
    }
    BlankTrims(s);
  }

  lemma CoreIsTrim(s: string, t: string)
    requires Core(s, t)
    ensures t == Trim(s)
  {
    var before, after :| Blank(before) && Blank(after) && s == before + t + after;
    assert s == before + (t + after);
    TrimStartSkips(before, t + after);
    if t == "" {
      TrimStartSkips(after, "");
      assert t + after == after == after + "";
    } else {
      assert TrimStart(t + after) == t + after;
      TrimEndSkips(t, after);
    }
  }

  lemma BlankTrims(s: string)
    ensures Trim(s) == "" <==> Blank(s)
  {
    TrimIsCore(s);
    if Trim(s) == "" {
      var before, after :| Blank(before) && Blank(after) && s == before + "" + after;
      assert s == before + after;
    }
    if Blank(s) {
      assert Core(s, "") by {
        assert Blank("") && s == s + "" + "";
      }
      CoreIsTrim(s, "");
    }
  }

  // ---- Items

  /** The items are the parts that are not blank, in order, without the white space around them. */
  ghost predicate Picked(parts: seq<string>, items: seq<string>, places: seq<nat>) {
    && Places.InOrder(places, |parts|) && |items| == |places|
    && (forall p | 0 <= p < |places| :: Core(parts[places[p]], items[p]))
    && (forall k: nat | k < |parts| :: k in places <==> !Blank(parts[k]))
  }

  lemma {:induction false} NonBlankSnoc(parts: seq<string>, last: string)
    ensures NonBlank(parts + [last]) == NonBlank(parts) + (if Trim(last) != "" then [Trim(last)] else [])
    decreases |parts|
  {
    if parts == [] {
      assert parts + [last] == [last];
      assert NonBlank([last][1..]) == [];
    } else {
      assert (parts + [last])[1..] == parts[1..] + [last];
      NonBlankSnoc(parts[1..], last);
    }
  }

  lemma {:induction false} NonBlankPicks(parts: seq<string>) returns (places: seq<nat>)
    ensures Picked(parts, NonBlank(parts), places)
    decreases |parts|
  {
    if parts == [] {
      places := [];
    } else {
      var n := |parts| - 1;
      var front, last := parts[..n], parts[n];
      var earlier := NonBlankPicks(front);
      NonBlankSnoc(front, last);
      assert parts == front + [last];
      TrimIsTheCore(last, Trim(last));
      if Trim(last) != "" {
        PicksTake(front, last, NonBlank(front), earlier);
        places := earlier + [n];
      } else {
        PicksSkip(front, last, NonBlank(front), earlier);
        assert NonBlank(parts) == NonBlank(front);
        places := earlier;
      }
    }
  }

  lemma PicksSkip(front: seq<string>, last: string, items: seq<string>, places: seq<nat>)
    requires Picked(front, items, places) && Blank(last)
    ensures Picked(front + [last], items, places)
  {
    var parts := front + [last];
    Places.InOrderThen(places, |front|);
    forall p | 0 <= p < |places|
      ensures Core(parts[places[p]], items[p])
    {
      assert parts[places[p]] == front[places[p]];
    }
    forall k: nat | k < |parts|
      ensures k in places <==> !Blank(parts[k])
    {
      assert k < |front| ==> parts[k] == front[k];
    }
  }

  lemma PicksTake(front: seq<string>, last: string, items: seq<string>, places: seq<nat>)
    requires Picked(front, items, places) && !Blank(last) && Core(last, Trim(last))
    ensures Picked(front + [last], items + [Trim(last)], places + [|front|])
  {
    var parts, more, longer := front + [last], items + [Trim(last)], places + [|front|];
    Places.InOrderThen(places, |front|);
    forall p | 0 <= p < |longer|
      ensures Core(parts[longer[p]], more[p])
    {
      if p < |places| {
        assert longer[p] == places[p] && parts[places[p]] == front[places[p]] && more[p] == items[p];
      }
    }
    forall k: nat | k < |parts|
      ensures k in longer <==> !Blank(parts[k])
    {
      if k < |front| {
        assert parts[k] == front[k] && (k in longer <==> k in places);
      } else {
        assert longer[|places|] == k;
      }
    }
  }

  /** The tags saved are the parts of the text that are not blank, in order, trimmed. */
  lemma ItemsAreParts(text: string, parts: seq<string>) returns (places: seq<nat>)
    requires Spells(parts, text, ',')
    ensures Picked(parts, Items(text), places)
  {
    SplitIsUnique(text, ',', parts);
    places := NonBlankPicks(parts);
  }

  // ---- Labels

  /** The part names a label: what stands before its first `=`, and what stands behind it, neither blank. */
  ghost predicate Says(part: string, key: string, value: string) {
    key != "" && value != "" && exists left, right ::
      '=' !in left && part == left + "=" + right && Core(left, key) && Core(right, value)
  }

  function PairOf(item: string): (pair: Entry)
  {
    var separator := IndexOf(item, '=');
    if separator <= 0 then Entry("", "") else Entry(Trim(item[..separator]), Trim(item[separator + 1..]))
  }

  lemma BlankConcat(a: string, b: string)
    requires Blank(a) && Blank(b)
    ensures Blank(a + b)
  {
  }

  lemma TrimBefore(right: string, after: string)
    requires Blank(after)
    ensures Trim(right + after) == Trim(right)
  {
    TrimIsCore(right);
    var t := Trim(right);
    var a, b :| Blank(a) && Blank(b) && right == a + t + b;
    BlankConcat(b, after);
    assert right + after == a + t + (b + after);
    CoreIsTrim(right + after, t);
  }

  lemma FirstSign(l: string, r: string, left: string, right: string)
    requires '=' !in l && '=' !in left && l + ['='] + r == left + ['='] + right
    ensures l == left && r == right
  {
    IndexIsFirst(l, '=', r);
    IndexIsFirst(left, '=', right);
    var part := l + ['='] + r;
    assert l == part[..|l|] && r == part[|l| + 1..];
    assert left == part[..|l|] && right == part[|l| + 1..];
  }

  lemma SaysSplit(part: string, left: string, right: string, key: string, value: string)
    requires '=' !in left && part == left + "=" + right
    ensures Says(part, key, value) <==> key == Trim(left) && value == Trim(right) && key != "" && value != ""
  {
    TrimIsTheCore(left, key);
    TrimIsTheCore(right, value);
    if Says(part, key, value) {
      var l, r :| '=' !in l && part == l + "=" + r && Core(l, key) && Core(r, value);
      FirstSign(l, r, left, right);
    }
  }

  lemma SaysHasSign(part: string, key: string, value: string)
    ensures Says(part, key, value) ==> '=' in part
  {
    if Says(part, key, value) {
      var left, right :| '=' !in left && part == left + "=" + right && Core(left, key) && Core(right, value);
      assert part[|left|] == '=';
    }
  }

  lemma NoSignAround(part: string, before: string, item: string, after: string)
    requires Blank(before) && Blank(after) && part == before + item + after
    ensures '=' in part ==> '=' in item
    ensures '=' !in before
  {
  }

  lemma SidesOfSign(part: string, before: string, item: string, after: string, i: nat)
    requires part == before + item + after && i < |item| && item[i] == '='
    ensures part == before + (item[..i] + "=" + item[i + 1..]) + after
    ensures part == (before + item[..i]) + "=" + (item[i + 1..] + after)
  {
    assert item == item[..i] + "=" + item[i + 1..];
  }

  /** The item of a part says what the part says. */
  lemma PairIsSaid(part: string, key: string, value: string)
    ensures Says(part, key, value) <==> PairOf(Trim(part)) == Entry(key, value) && key != "" && value != ""
  {
    var item := Trim(part);
    TrimIsCore(part);
    var before, after :| Blank(before) && Blank(after) && part == before + item + after;
    NoSignAround(part, before, item, after);
    var i := IndexOf(item, '=');
    if i == -1 {
      SaysHasSign(part, key, value);
    } else {
      SidesOfSign(part, before, item, after, i);
      TrimStartSkips(before, item[..i]);
      TrimBefore(item[i + 1..], after);
      SaysSplit(part, before + item[..i], item[i + 1..] + after, key, value);
      TrimTrims("");
    }
  }

  /** The last of the parts that name the key. */
  ghost predicate LastSays(parts: seq<string>, key: string, value: string) {
    exists i :: 0 <= i < |parts| && SaysLast(parts, i, key, value)
  }

  ghost predicate SaysLast(parts: seq<string>, i: nat, key: string, value: string)
    requires i < |parts|
  {
    Says(parts[i], key, value) && forall j, other | i < j < |parts| :: !Says(parts[j], key, other)
  }

  ghost predicate NoneSays(parts: seq<string>, key: string) {
    forall j, value | 0 <= j < |parts| :: !Says(parts[j], key, value)
  }

  lemma LastShifts(parts: seq<string>, key: string, value: string)
    requires parts != []
    ensures NoneSays(parts, key) <==> NoneSays(parts[1..], key) && forall other :: !Says(parts[0], key, other)
    ensures LastSays(parts, key, value) <==>
              LastSays(parts[1..], key, value) || (NoneSays(parts[1..], key) && Says(parts[0], key, value))
  {
    var rest := parts[1..];
    assert forall j | 0 <= j < |rest| :: rest[j] == parts[j + 1];
    assert NoneSays(parts, key) ==> forall j, v | 0 <= j < |rest| :: !Says(rest[j], key, v);
    assert NoneSays(rest, key) ==> forall j, v | 1 <= j < |parts| :: !Says(parts[j], key, v) by {
      forall j, v | NoneSays(rest, key) && 1 <= j < |parts|
        ensures !Says(parts[j], key, v)
      {
        assert rest[j - 1] == parts[j];
      }
    }
    if i :| 0 <= i < |rest| && SaysLast(rest, i, key, value) {
      forall j, other | i + 1 < j < |parts|
        ensures !Says(parts[j], key, other)
      {
        assert rest[j - 1] == parts[j];
      }
      assert SaysLast(parts, i + 1, key, value);
    }
    if i :| 0 <= i < |parts| && SaysLast(parts, i, key, value) {
      if i > 0 {
        assert SaysLast(rest, i - 1, key, value);
      }
    }
    if NoneSays(rest, key) && Says(parts[0], key, value) {
      assert SaysLast(parts, 0, key, value);
    }
  }

  predicate Holds(labels: Labels, key: string, value: string) {
    key in labels && labels[key] == value
  }

  function Added(labels: Labels, part: string): Labels {
    if Trim(part) != "" then AddItem(labels, Trim(part)) else labels
  }

  lemma AddsPair(labels: Labels, part: string)
    ensures var pair := PairOf(Trim(part));
            Added(labels, part) == if pair.key != "" && pair.value != "" then labels[pair.key := pair.value] else labels
  {
    PairAdds(labels, Trim(part));
  }

  lemma PairAdds(labels: Labels, item: string)
    ensures var pair := PairOf(item);
            AddItem(labels, item)
            == if pair.key != "" && pair.value != "" then labels[pair.key := pair.value] else labels
    ensures item == "" ==> PairOf(item) == Entry("", "")
  {
  }

  lemma AddHolds(labels: Labels, part: string, key: string, value: string)
    ensures Holds(Added(labels, part), key, value) <==>
              Says(part, key, value) || ((forall other :: !Says(part, key, other)) && Holds(labels, key, value))
  {
    AddsPair(labels, part);
    forall other
      ensures Says(part, key, other) <==> PairOf(Trim(part)) == Entry(key, other) && key != "" && other != ""
    {
      PairIsSaid(part, key, other);
    }
    assert PairOf(Trim(part)) == Entry(PairOf(Trim(part)).key, PairOf(Trim(part)).value);
  }

  lemma NonBlankFirst(parts: seq<string>)
    requires parts != []
    ensures NonBlank(parts) ==
            if Trim(parts[0]) == "" then NonBlank(parts[1..]) else [Trim(parts[0])] + NonBlank(parts[1..])
  {
    assert [] + NonBlank(parts[1..]) == NonBlank(parts[1..]);
  }

  lemma AddItemsFirst(labels: Labels, item: string, rest: seq<string>)
    ensures AddItems(labels, [item] + rest) == AddItems(AddItem(labels, item), rest)
  {
    assert ([item] + rest)[1..] == rest;
  }

  lemma AddsFirst(labels: Labels, parts: seq<string>)
    requires parts != []
    ensures AddItems(labels, NonBlank(parts)) == AddItems(Added(labels, parts[0]), NonBlank(parts[1..]))
  {
    NonBlankFirst(parts);
    AddItemsFirst(labels, Trim(parts[0]), NonBlank(parts[1..]));
  }

  lemma {:induction false} AddsLast(labels: Labels, parts: seq<string>, key: string, value: string)
    ensures Holds(AddItems(labels, NonBlank(parts)), key, value) <==>
              LastSays(parts, key, value) || (NoneSays(parts, key) && Holds(labels, key, value))
    decreases |parts|
  {
    if parts != [] {
      AddsFirst(labels, parts);
      AddsLast(Added(labels, parts[0]), parts[1..], key, value);
      LastShifts(parts, key, value);
      AddHolds(labels, parts[0], key, value);
    }
  }

  /** A text of labels holds a label exactly if some part of it names that key with that value and no
      later part names the key again. */
  lemma LabelsAreLastSaid(text: string, parts: seq<string>, key: string, value: string)
    requires Spells(parts, text, ',')
    ensures key in ParsedLabels(text) && ParsedLabels(text)[key] == value <==> LastSays(parts, key, value)
  {
    SplitIsUnique(text, ',', parts);
    AddsLast(map[], parts, key, value);
  }
}
