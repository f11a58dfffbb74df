/** The comma-separated text of the service form: tags, and label pairs printed as `key=value`. Both
    directions, and exactly which labels and tags survive the round trip. */
module LabelPairs {
  import opened Splitting

  type Labels = map<string, string>

  datatype Entry = Entry(key: string, value: string)

  // ---- Text

  /** What `trim` removes: white space and line terminators. */
  predicate IsSpace(c: char) {
    var code := c as int;
    || 9 <= code <= 13 || code == 32 || code == 160 || code == 5760 || 8192 <= code <= 8202
    || code == 8232 || code == 8233 || code == 8239 || code == 8287 || code == 12288 || code == 65279
  }

  function TrimStart(s: string): string {
    if s != "" && IsSpace(s[0]) then TrimStart(s[1..]) else s
  }

  function TrimEnd(s: string): string {
    if s != "" && IsSpace(s[|s| - 1]) then TrimEnd(s[..|s| - 1]) else s
  }

  function Trim(s: string): string {
    TrimEnd(TrimStart(s))
  }

  predicate Trimmed(s: string) {
    s != "" ==> !IsSpace(s[0]) && !IsSpace(s[|s| - 1])
  }

  function Join(items: seq<string>): string {
    if items == [] then ""
    else if |items| == 1 then items[0]
    else items[0] + ", " + Join(items[1..])
  }

  /** Trim every part and drop the blank ones. */
  function NonBlank(parts: seq<string>): seq<string> {
    if parts == [] then []
    else
      var item := Trim(parts[0]);
      (if item != "" then [item] else []) + NonBlank(parts[1..])
  }

  function Items(text: string): seq<string> {
    NonBlank(Split(text, ','))
  }

  /** The first position of a character, or -1. */
  function IndexOf(s: string, c: char): (index: int)
    ensures -1 <= index < |s|
    ensures index >= 0 ==> s[index] == c && forall k | 0 <= k < index :: s[k] != c
    ensures index == -1 ==> c !in s
  {
    if s == "" then -1
    else if s[0] == c then 0
    else
      var rest := IndexOf(s[1..], c);
      if rest == -1 then -1 else rest + 1
  }

  // ---- Printing and parsing

  function AddItem(labels: Labels, item: string): Labels {
    var separator := IndexOf(item, '=');
    if separator <= 0 then labels
    else
      var key := Trim(item[..separator]);
      var value := Trim(item[separator + 1..]);
      if key == "" || value == "" then labels else labels[key := value]
  }

  function AddItems(labels: Labels, items: seq<string>): Labels
    decreases items
  {
    if items == [] then labels else AddItems(AddItem(labels, items[0]), items[1..])
  }

  function ParsedLabels(text: string): Labels {
    AddItems(map[], Items(text))
  }

  method ParseLabelPairs(text: string) returns (labels: Labels)
    ensures labels == ParsedLabels(text)
  {
    labels := map[];
    var items := Items(text);
    for i := 0 to |items|
      invariant AddItems(labels, items[i..]) == ParsedLabels(text)
    {
      var item := items[i];
      assert items[i..][0] == item && items[i..][1..] == items[i + 1..];
      var separator := IndexOf(item, '=');
      if separator > 0 {
        var key := Trim(item[..separator]);
        var value := Trim(item[separator + 1..]);
        if key != "" && value != "" {
          labels := labels[key := value];
        }
      }
    }
  }

  function Printed(entries: seq<Entry>): (items: seq<string>)
    ensures |items| == |entries|
    ensures forall i | 0 <= i < |items| :: items[i] == entries[i].key + "=" + entries[i].value
  {
    if entries == [] then [] else [entries[0].key + "=" + entries[0].value] + Printed(entries[1..])
  }

  /** The entries arrive in the collation's order; no property below depends on which order that is. */
  function FormatLabelPairs(entries: seq<Entry>): string {
    Join(Printed(entries))
  }

  /** The entries of a record, once each, in some order. */
  ghost predicate Lists(entries: seq<Entry>, labels: Labels) {
    && (forall i, j | 0 <= i < j < |entries| :: entries[i].key != entries[j].key)
    && (forall i | 0 <= i < |entries| :: entries[i].key in labels && labels[entries[i].key] == entries[i].value)
    && (forall key | key in labels :: exists i :: 0 <= i < |entries| && entries[i].key == key)
  }

  // ---- What survives

  /** A tag, or a printed label, that reads back as itself. */
  predicate CleanItem(item: string) {
    item != "" && Trimmed(item) && ',' !in item
  }

  predicate CleanEntry(e: Entry) {
    && e.key != "" && Trimmed(e.key) && ',' !in e.key && '=' !in e.key
    && e.value != "" && Trimmed(e.value) && ',' !in e.value
  }

  ghost predicate CleanLabels(labels: Labels) {
    forall key | key in labels :: CleanEntry(Entry(key, labels[key]))
  }

  lemma TrimEndTrims(s: string)
    ensures |TrimEnd(s)| <= |s| && TrimEnd(s) == s[..|TrimEnd(s)|]
    ensures TrimEnd(s) != "" ==> !IsSpace(TrimEnd(s)[|TrimEnd(s)| - 1])
  {
    if s != "" && IsSpace(s[|s| - 1]) {
      TrimEndTrims(s[..|s| - 1]);
    }
  }

  lemma TrimStartTrims(s: string)
    ensures |TrimStart(s)| <= |s| && TrimStart(s) == s[|s| - |TrimStart(s)|..]
    ensures TrimStart(s) != "" ==> !IsSpace(TrimStart(s)[0])
  {
    if s != "" && IsSpace(s[0]) {
      TrimStartTrims(s[1..]);
    }
  }

  /** Trimming leaves trimmed text, made of the characters that were there. */
  lemma TrimTrims(s: string)
    ensures Trimmed(Trim(s))
    ensures forall c | c in Trim(s) :: c in s
    ensures Trimmed(s) ==> Trim(s) == s
  {
    var start := TrimStart(s);
    TrimStartTrims(s);
    TrimEndTrims(start);
    assert forall c | c in Trim(s) :: c in start;
    if Trim(s) != "" {
      assert Trim(s)[0] == start[0];
    }
  }

  lemma SpaceBefore(s: string)
    ensures Trim(" " + s) == Trim(s)
  {
    assert (" " + s)[1..] == s;
  }

  lemma SplitSpace(text: string)
    ensures var parts := Split(text, ','); Split(" " + text, ',') == [" " + parts[0]] + parts[1..]
  {
    assert (" " + text)[1..] == text;
  }

  lemma SpacedItems(text: string)
    ensures Items(" " + text) == Items(text)
  {
    var parts := Split(text, ',');
    SplitSpace(text);
    SpaceBefore(parts[0]);
    assert Split(" " + text, ',')[1..] == parts[1..];
  }

  /** The items of joined clean items are those items. */
  lemma {:induction false} JoinedItems(items: seq<string>)
    requires forall item | item in items :: CleanItem(item)
    ensures Items(Join(items)) == items
    decreases |items|
  {
    if items == [] {
      assert Split("", ',') == [""];
      assert NonBlank([""]) == [];
    } else {
      var first := items[0];
      assert CleanItem(first);
      TrimTrims(first);
      if |items| == 1 {
        SplitWhole(first, ',');
        assert NonBlank([first]) == [first] + NonBlank([]);
      } else {
        var rest := Join(items[1..]);
        JoinedItems(items[1..]);
        SpacedItems(rest);
        assert Join(items) == first + [','] + (" " + rest);
        SplitFirst(first, " " + rest, ',');
        var parts := Split(" " + rest, ',');
        assert ([first] + parts)[1..] == parts;
        assert Items(Join(items)) == [first] + NonBlank(parts);
      }
    }
  }

  lemma {:induction false} ItemsAreClean(parts: seq<string>)
    requires forall part | part in parts :: ',' !in part
    ensures forall item | item in NonBlank(parts) :: CleanItem(item)
    decreases |parts|
  {
    if parts != [] {
      TrimTrims(parts[0]);
      ItemsAreClean(parts[1..]);
    }
  }

  /** A list of tags survives the form exactly when every tag is clean. */
  lemma TagsSurviveExactly(tags: seq<string>)
    ensures Items(Join(tags)) == tags <==> forall tag | tag in tags :: CleanItem(tag)
  {
    ItemsAreClean(Split(Join(tags), ','));
    if forall tag | tag in tags :: CleanItem(tag) {
      JoinedItems(tags);
    }
  }

  /** A tag with a comma comes back as two. */
  lemma CommaSplitsTag()
    ensures Items(Join(["a,b"])) == ["a", "b"]
  {
    SplitFirst("a", "b", ',');
    SplitWhole("b", ',');
    assert "a" + [','] + "b" == "a,b";
    TrimTrims("a");
    TrimTrims("b");
    assert ["a"] + ["b"] == ["a", "b"] && ["a", "b"][1..] == ["b"] && ["b"][1..] == [];
    assert NonBlank(["b"]) == ["b"];
  }

  // ---- Labels

  lemma IndexIsFirst(a: string, c: char, b: string)
    requires c !in a
    ensures IndexOf(a + [c] + b, c) == |a|
  {
    var s := a + [c] + b;
    var i := IndexOf(s, c);
    assert s[|a|] == c;
    assert forall k | 0 <= k < |a| :: s[k] == a[k];
  }

  lemma CleanEntryPrints(e: Entry, labels: Labels)
    requires CleanEntry(e)
    ensures CleanItem(e.key + "=" + e.value)
    ensures AddItem(labels, e.key + "=" + e.value) == labels[e.key := e.value]
  {
    var item := e.key + ['='] + e.value;
    IndexIsFirst(e.key, '=', e.value);
    assert item == e.key + "=" + e.value;
    assert item[..|e.key|] == e.key && item[|e.key| + 1..] == e.value;
    TrimTrims(e.key);
    TrimTrims(e.value);
  }

  function PutAll(labels: Labels, entries: seq<Entry>): Labels
    decreases entries
  {
    if entries == [] then labels else PutAll(labels[entries[0].key := entries[0].value], entries[1..])
  }

  lemma {:induction false} AddPrinted(labels: Labels, entries: seq<Entry>)
    requires forall e | e in entries :: CleanEntry(e)
    ensures AddItems(labels, Printed(entries)) == PutAll(labels, entries)
    decreases |entries|
  {
    if entries != [] {
      var e := entries[0];
      CleanEntryPrints(e, labels);
      assert Printed(entries)[1..] == Printed(entries[1..]);
      AddPrinted(labels[e.key := e.value], entries[1..]);
    }
  }

  lemma {:induction false} PutAllKeeps(labels: Labels, entries: seq<Entry>, key: string)
    requires forall i | 0 <= i < |entries| :: entries[i].key != key
    ensures key in PutAll(labels, entries) <==> key in labels
    ensures key in labels ==> PutAll(labels, entries)[key] == labels[key]
    decreases |entries|
  {
    if entries != [] {
      PutAllKeeps(labels[entries[0].key := entries[0].value], entries[1..], key);
    }
  }

  lemma {:induction false} PutAllHolds(labels: Labels, entries: seq<Entry>, i: nat)
    requires i < |entries|
    requires forall j, k | 0 <= j < k < |entries| :: entries[j].key != entries[k].key
    ensures entries[i].key in PutAll(labels, entries)
    ensures PutAll(labels, entries)[entries[i].key] == entries[i].value
    decreases |entries|
  {
    var more := labels[entries[0].key := entries[0].value];
    if i == 0 {
      PutAllKeeps(more, entries[1..], entries[0].key);
    } else {
      PutAllHolds(more, entries[1..], i - 1);
    }
  }

  lemma PutAllLists(entries: seq<Entry>, labels: Labels)
    requires Lists(entries, labels)
    ensures PutAll(map[], entries) == labels
  {
    var put := PutAll(map[], entries);
    forall key: string
      ensures key in put <==> key in labels
      ensures key in labels ==> key in put && put[key] == labels[key]
    {
      if key in labels {
        var i: nat :| i < |entries| && entries[i].key == key;
        PutAllHolds(map[], entries, i);
      } else {
        PutAllKeeps(map[], entries, key);
      }
    }
  }

  lemma AddItemIsClean(labels: Labels, item: string)
    requires CleanLabels(labels) && CleanItem(item)
    ensures CleanLabels(AddItem(labels, item))
  {
    var separator := IndexOf(item, '=');
    if separator > 0 {
      TrimTrims(item[..separator]);
      TrimTrims(item[separator + 1..]);
    }
  }

  lemma {:induction false} AddItemsIsClean(labels: Labels, items: seq<string>)
    requires CleanLabels(labels) && forall item | item in items :: CleanItem(item)
    ensures CleanLabels(AddItems(labels, items))
    decreases |items|
  {
    if items != [] {
      AddItemIsClean(labels, items[0]);
      AddItemsIsClean(AddItem(labels, items[0]), items[1..]);
    }
  }

  /** Whatever the text, the labels read from it are clean. */
  lemma ParsedIsClean(text: string)
    ensures CleanLabels(ParsedLabels(text))
  {
    ItemsAreClean(Split(text, ','));
    AddItemsIsClean(map[], Items(text));
  }

  /** Labels survive printing and parsing exactly when every one of them is clean. */
  lemma LabelsSurviveExactly(entries: seq<Entry>, labels: Labels)
    requires Lists(entries, labels)
    ensures ParsedLabels(FormatLabelPairs(entries)) == labels <==> CleanLabels(labels)
  {
    ParsedIsClean(FormatLabelPairs(entries));
    if CleanLabels(labels) {
      forall i | 0 <= i < |entries|
        ensures CleanEntry(entries[i]) && CleanItem(Printed(entries)[i])
      {
        assert entries[i] == Entry(entries[i].key, labels[entries[i].key]);
        CleanEntryPrints(entries[i], labels);
      }
      JoinedItems(Printed(entries));
      AddPrinted(map[], entries);
      PutAllLists(entries, labels);
    }
  }
}
