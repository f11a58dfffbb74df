/** Splitting a text at a separator, as `split` does in Python and in JavaScript. */
module Splitting {

  /** Always at least one part, possibly empty; no part holds the separator. */
  function Split(text: string, separator: char): (parts: seq<string>)
    ensures |parts| >= 1
    ensures forall part | part in parts :: separator !in part
  {
    if text == "" then [""]
    else
      var rest := Split(text[1..], separator);
      if text[0] == separator then [""] + rest
      else [[text[0]] + rest[0]] + rest[1..]
  }

  /** The parts with separators between them. */
  function Glued(parts: seq<string>, separator: char): string
    requires parts != []
  {
    if |parts| == 1 then parts[0] else parts[0] + [separator] + Glued(parts[1..], separator)
  }

  /** The text consists of these parts: no part holds the separator, and glued together they are the text. */
  ghost predicate Spells(parts: seq<string>, text: string, separator: char) {
    parts != [] && (forall i | 0 <= i < |parts| :: separator !in parts[i]) && Glued(parts, separator) == text
  }

  lemma {:induction false} SplitWhole(a: string, separator: char)
    requires separator !in a
    ensures Split(a, separator) == [a]
  {
    if a != "" {
      SplitWhole(a[1..], separator);
      assert [a[0]] + a[1..] == a;
    }
  }

  lemma {:induction false} SplitFirst(a: string, b: string, separator: char)
    requires separator !in a
    ensures Split(a + [separator] + b, separator) == [a] + Split(b, separator)
  {
    var text := a + [separator] + b;
    if a == "" {
      assert text[0] == separator && text[1..] == b;
    } else {
      var shorter := a[1..] + [separator] + b;
      SplitFirst(a[1..], b, separator);
      assert text[0] == a[0] && text[1..] == shorter;
      assert [a[0]] + a[1..] == a;
      assert ([a[1..]] + Split(b, separator))[1..] == Split(b, separator);
    }
  }

  lemma GluedHead(c: char, head: string, tail: seq<string>, separator: char)
    ensures Glued([[c] + head] + tail, separator) == [c] + Glued([head] + tail, separator)
  {
    assert ([[c] + head] + tail)[1..] == tail && ([head] + tail)[1..] == tail;
    if tail != [] {
      var rest := [separator] + Glued(tail, separator);
      assert ([c] + head) + [separator] + Glued(tail, separator) == [c] + (head + rest);
      assert head + [separator] + Glued(tail, separator) == head + rest;
    }
  }

  lemma {:induction false} SplitGlues(text: string, separator: char)
    ensures Glued(Split(text, separator), separator) == text
  {
    if text != "" {
      var rest := Split(text[1..], separator);
      SplitGlues(text[1..], separator);
      assert text == [text[0]] + text[1..];
      if text[0] == separator {
        assert ([""] + rest)[1..] == rest;
        assert "" + [separator] + text[1..] == text;
      } else {
        GluedHead(text[0], rest[0], rest[1..], separator);
        assert [rest[0]] + rest[1..] == rest;
      }
    }
  }

  lemma {:induction false} GluedSplits(parts: seq<string>, separator: char)
    requires parts != [] && forall i | 0 <= i < |parts| :: separator !in parts[i]
    ensures Split(Glued(parts, separator), separator) == parts
    decreases |parts|
  {
    if |parts| == 1 {
      SplitWhole(parts[0], separator);
    } else {
      GluedSplits(parts[1..], separator);
      SplitFirst(parts[0], Glued(parts[1..], separator), separator);
      assert [parts[0]] + parts[1..] == parts;
    }
  }

  /** Every text consists of exactly one list of parts: splitting and gluing are inverse. */
  lemma SplitIsUnique(text: string, separator: char, parts: seq<string>)
    ensures Spells(parts, text, separator) <==> parts == Split(text, separator)
  {
    SplitGlues(text, separator);
    if Spells(parts, text, separator) {
      GluedSplits(parts, separator);
    }
  }
}
