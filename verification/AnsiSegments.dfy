/** Coloured log text: splitting a message at its SGR sequences and stripping what other control
    sequences it holds, against a reference reading one character at a time (control sequences as in
    section 5.4 of ECMA-48). */
module AnsiSegments {
  import opened Splitting

  datatype Colour = Default | Text | Red | Green | Yellow | Blue | Magenta | Cyan | Muted

  datatype Style = Style(colour: Colour, fontWeight: int)

  datatype Segment = Segment(text: string, style: Style)

  /** A visible character with the style it is shown in. */
  datatype Cell = Cell(c: char, style: Style)

  const ESC: char := 27 as char
  const PLAIN := Style(Default, 400)

  // ---- The two patterns

  predicate Between(c: char, low: int, high: int) {
    low <= c as int <= high
  }

  predicate IsParameter(c: char) {
    Between(c, 0x30, 0x3F)
  }

  predicate IsIntermediate(c: char) {
    Between(c, 0x20, 0x2F)
  }

  predicate IsFinal(c: char) {
    Between(c, 0x40, 0x7E)
  }

  /** The second character of a two-character sequence; an opening bracket is not one. */
  predicate IsShort(c: char) {
    Between(c, 0x40, 0x5A) || Between(c, 0x5C, 0x5F)
  }

  predicate IsCode(c: char) {
    Between(c, 0x30, 0x39) || c == ';'
  }

  /** The texts that the stripping pattern describes. */
  ghost predicate IsSequence(t: string) {
    && |t| >= 2 && t[0] == ESC
    && ((|t| == 2 && IsShort(t[1]))
        || (|t| >= 3 && t[1] == '[' && IsFinal(t[|t| - 1])
            && exists k :: 2 <= k <= |t| - 1 && AllParameters(t, 2, k) && AllIntermediates(t, k, |t| - 1)))
  }

  ghost predicate AllParameters(t: string, low: nat, high: nat)
    requires high <= |t|
  {
    forall i | low <= i < high :: IsParameter(t[i])
  }

  ghost predicate AllIntermediates(t: string, low: nat, high: nat)
    requires high <= |t|
  {
    forall i | low <= i < high :: IsIntermediate(t[i])
  }

  /** The texts that the colouring pattern describes. */
  ghost predicate IsColouring(t: string) {
    |t| >= 3 && t[0] == ESC && t[1] == '[' && t[|t| - 1] == 'm' && forall i | 2 <= i < |t| - 1 :: IsCode(t[i])
  }

  function Parameters(s: string, start: nat): (stop: nat)
    requires start <= |s|
    ensures start <= stop <= |s| && AllParameters(s, start, stop)
    ensures stop < |s| ==> !IsParameter(s[stop])
    decreases |s| - start
  {
    if start < |s| && IsParameter(s[start]) then Parameters(s, start + 1) else start
  }

  function Intermediates(s: string, start: nat): (stop: nat)
    requires start <= |s|
    ensures start <= stop <= |s| && AllIntermediates(s, start, stop)
    ensures stop < |s| ==> !IsIntermediate(s[stop])
    decreases |s| - start
  {
    if start < |s| && IsIntermediate(s[start]) then Intermediates(s, start + 1) else start
  }

  function Codes(s: string, start: nat): (stop: nat)
    requires start <= |s|
    ensures start <= stop <= |s| && forall i | start <= i < stop :: IsCode(s[i])
    ensures stop < |s| ==> !IsCode(s[stop])
    decreases |s| - start
  {
    if start < |s| && IsCode(s[start]) then Codes(s, start + 1) else start
  }

  /** How much of the text the stripping pattern matches at its start, or 0. */
  function SequenceLength(s: string): (length: nat)
    ensures length <= |s|
  {
    if |s| < 2 || s[0] != ESC then 0
    else if IsShort(s[1]) then 2
    else if s[1] != '[' then 0
    else
      var last := Intermediates(s, Parameters(s, 2));
      if last < |s| && IsFinal(s[last]) then last + 1 else 0
  }

  /** The same for the colouring pattern. */
  function ColouringLength(s: string): (length: nat)
    ensures length <= |s| && (length > 0 ==> length >= 3)
  {
    if |s| < 3 || s[0] != ESC || s[1] != '[' then 0
    else
      var last := Codes(s, 2);
      if last < |s| && s[last] == 'm' then last + 1 else 0
  }

  lemma ParametersStop(s: string, start: nat, k: nat)
    requires start <= k < |s| && AllParameters(s, start, k) && !IsParameter(s[k])
    ensures Parameters(s, start) == k
    decreases k - start
  {
  }

  lemma IntermediatesStop(s: string, start: nat, k: nat)
    requires start <= k < |s| && AllIntermediates(s, start, k) && !IsIntermediate(s[k])
    ensures Intermediates(s, start) == k
    decreases k - start
  {
  }

  /** There is never a choice of match: the three classes of characters are disjoint. */
  lemma SequenceLengthMatches(s: string, n: nat)
    requires n <= |s|
    ensures IsSequence(s[..n]) <==> n > 0 && SequenceLength(s) == n
  {
    var t := s[..n];
    if IsSequence(t) && n > 2 {
      var k :| 2 <= k <= n - 1 && AllParameters(t, 2, k) && AllIntermediates(t, k, n - 1);
      assert s[1] == t[1] && s[n - 1] == t[n - 1] && s[k] == t[k];
      assert AllParameters(s, 2, k) by {
        assert forall i | 2 <= i < k :: s[i] == t[i];
      }
      assert AllIntermediates(s, k, n - 1) by {
        assert forall i | k <= i < n - 1 :: s[i] == t[i];
      }
      ParametersStop(s, 2, k);
      IntermediatesStop(s, k, n - 1);
    }
    if n > 0 && SequenceLength(s) == n && s[1] == '[' {
      var p := Parameters(s, 2);
      assert AllParameters(t, 2, p) && AllIntermediates(t, p, n - 1);
    }
  }

  lemma ColouringLengthMatches(s: string, n: nat)
    requires n <= |s|
    ensures IsColouring(s[..n]) <==> n > 0 && ColouringLength(s) == n
  {
    var t := s[..n];
    if IsColouring(t) {
      assert forall i | 2 <= i < n - 1 :: s[i] == t[i];
      assert s[n - 1] == 'm';
      assert Codes(s, 2) == n - 1;
    }
  }

  /** A colouring sequence is stripped too, and by the same match. */
  lemma ColouringIsSequence(s: string)
    requires ColouringLength(s) > 0
    ensures SequenceLength(s) == ColouringLength(s)
  {
    var n := ColouringLength(s);
    var t := s[..n];
    assert AllParameters(t, 2, n - 1) && AllIntermediates(t, n - 1, n - 1);
    assert IsSequence(t);
    SequenceLengthMatches(s, n);
  }

  // ---- Codes

  /** Two to the power 194. */
  const STRIDE: int := 0x4_000000000000_000000000000_000000000000_000000000000

  /** The least whole number that reads as infinity: two to the power 970, 2^54 - 1 times. */
  const OVERFLOW: int := 0x3F_FFFFFFFFFFFF * STRIDE * STRIDE * STRIDE * STRIDE * STRIDE

  function ParseInt(digits: string): int {
    if digits == "" then 0
    else 10 * ParseInt(digits[..|digits| - 1]) + (digits[|digits| - 1] as int - '0' as int)
  }

  function FiniteCodes(items: seq<string>): seq<int>
    decreases items
  {
    if items == [] then []
    else (if ParseInt(items[0]) < OVERFLOW then [ParseInt(items[0])] else []) + FiniteCodes(items[1..])
  }

  /** The codes of a sequence; one that names none resets the style. */
  function CodesOf(parameters: string): seq<int> {
    var codes := FiniteCodes(Split(parameters, ';'));
    if codes == [] then [0] else codes
  }

  function ColourOf(code: int): Colour {
    match code
    case 30 => Text
    case 31 => Red
    case 32 => Green
    case 33 => Yellow
    case 34 => Blue
    case 35 => Magenta
    case 36 => Cyan
    case 37 => Muted
    case 90 => Muted
    case 91 => Red
    case 92 => Green
    case 93 => Yellow
    case 94 => Blue
    case 95 => Magenta
    case 96 => Cyan
    case 97 => Text
    case _ => Default
  }

  function Applied(style: Style, code: int): Style {
    if code == 0 then PLAIN
    else if code == 1 then style.(fontWeight := 700)
    else if code == 22 then style.(fontWeight := 400)
    else if code == 39 then style.(colour := Default)
    else if ColourOf(code) != Default then style.(colour := ColourOf(code))
    else style
  }

  function AppliedAll(style: Style, codes: seq<int>): Style
    decreases codes
  {
    if codes == [] then style else AppliedAll(Applied(style, codes[0]), codes[1..])
  }

  /** The style after a colouring sequence of length n at the start of the text. */
  function StyleAfter(style: Style, s: string, n: nat): Style
    requires 3 <= n <= |s|
  {
    AppliedAll(style, CodesOf(s[2..n - 1]))
  }

  // ---- The reference reading

  /** The visible characters in order, each with the style in force: a colouring sequence changes the
      style, any other control sequence is skipped, and everything else is shown. */
  function Shown(s: string, style: Style): seq<Cell>
    decreases |s|
  {
    if s == "" then []
    else if ColouringLength(s) > 0 then Shown(s[ColouringLength(s)..], StyleAfter(style, s, ColouringLength(s)))
    else if SequenceLength(s) > 0 then Shown(s[SequenceLength(s)..], style)
    else [Cell(s[0], style)] + Shown(s[1..], style)
  }

  /** Every match of the stripping pattern removed. */
  function StripAnsi(s: string): string
    decreases |s|
  {
    if s == "" then ""
    else if SequenceLength(s) > 0 then StripAnsi(s[SequenceLength(s)..])
    else [s[0]] + StripAnsi(s[1..])
  }

  function Painted(text: string, style: Style): (cells: seq<Cell>)
    ensures |cells| == |text|
    ensures forall i | 0 <= i < |text| :: cells[i] == Cell(text[i], style)
  {
    if text == "" then [] else [Cell(text[0], style)] + Painted(text[1..], style)
  }

  function Flattened(segments: seq<Segment>): seq<Cell> {
    if segments == [] then []
    else Flattened(segments[..|segments| - 1]) + Painted(segments[|segments| - 1].text, segments[|segments| - 1].style)
  }

  function Texts(segments: seq<Segment>): string {
    if segments == [] then "" else Texts(segments[..|segments| - 1]) + segments[|segments| - 1].text
  }

  // ---- Cutting is harmless

  /** What follows a cut: nothing, or the escape of the next sequence. */
  predicate Cuts(rest: string) {
    rest != "" ==> rest[0] == ESC
  }

  lemma ParametersCut(a: string, rest: string, start: nat)
    requires start <= |a| && Cuts(rest)
    ensures Parameters(a + rest, start) == Parameters(a, start)
    decreases |a| - start
  {
    if start < |a| && IsParameter(a[start]) {
      ParametersCut(a, rest, start + 1);
    }
  }

  lemma IntermediatesCut(a: string, rest: string, start: nat)
    requires start <= |a| && Cuts(rest)
    ensures Intermediates(a + rest, start) == Intermediates(a, start)
    decreases |a| - start
  {
    if start < |a| && IsIntermediate(a[start]) {
      IntermediatesCut(a, rest, start + 1);
    }
  }

  /** No sequence reaches over the escape of another one. */
  lemma SequenceCut(a: string, rest: string)
    requires a != "" && Cuts(rest)
    ensures SequenceLength(a + rest) == SequenceLength(a)
  {
    if |a| >= 2 {
      ParametersCut(a, rest, 2);
      IntermediatesCut(a, rest, Parameters(a, 2));
    } else if rest != "" {
      assert (a + rest)[1] == ESC;
    }
  }

  /** No colouring sequence starts in the first n characters. */
  ghost predicate Uncoloured(s: string, n: nat)
    requires n <= |s|
  {
    forall i | 0 <= i < n :: ColouringLength(s[i..]) == 0
  }

  lemma UncolouredLater(s: string, n: nat, m: nat)
    requires m <= n <= |s| && Uncoloured(s, n)
    ensures Uncoloured(s[m..], n - m)
  {
    forall i | 0 <= i < n - m
      ensures ColouringLength(s[m..][i..]) == 0
    {
      assert s[m..][i..] == s[m + i..];
    }
  }

  /** Up to the next colouring sequence, the text can be stripped on its own. */
  lemma {:induction false} PlainPiece(a: string, rest: string, style: Style)
    requires Cuts(rest) && Uncoloured(a + rest, |a|)
    ensures Shown(a + rest, style) == Painted(StripAnsi(a), style) + Shown(rest, style)
    decreases |a|
  {
    if a == "" {
      assert a + rest == rest;
    } else {
      assert (a + rest)[0..] == a + rest;
      SequenceCut(a, rest);
      var m := if SequenceLength(a) > 0 then SequenceLength(a) else 1;
      UncolouredLater(a + rest, |a|, m);
      assert (a + rest)[m..] == a[m..] + rest;
      PlainPiece(a[m..], rest, style);
      if SequenceLength(a) == 0 {
        PaintedMore(a[0], StripAnsi(a[1..]), style, Shown(rest, style));
      }
    }
  }

  lemma PaintedMore(c: char, text: string, style: Style, after: seq<Cell>)
    ensures Painted([c] + text, style) + after == [Cell(c, style)] + (Painted(text, style) + after)
  {
    assert ([c] + text)[1..] == text;
  }

  /** The position of the next colouring sequence, or the end. */
  function NextColouring(s: string, start: nat): (index: nat)
    requires start <= |s|
    ensures start <= index <= |s|
    ensures index < |s| ==> ColouringLength(s[index..]) > 0
    ensures forall i | start <= i < index :: ColouringLength(s[i..]) == 0
    decreases |s| - start
  {
    if start == |s| then start
    else if ColouringLength(s[start..]) > 0 then start
    else NextColouring(s, start + 1)
  }

  /** One round of the loop: the piece before the next colouring sequence, then that sequence. */
  lemma NextPiece(s: string, start: nat, style: Style)
    requires start <= |s|
    ensures var index := NextColouring(s, start);
            Shown(s[start..], style) == Painted(StripAnsi(s[start..index]), style) + Shown(s[index..], style)
  {
    var index := NextColouring(s, start);
    var a, rest := s[start..index], s[index..];
    assert s[start..] == a + rest;
    forall i | 0 <= i < |a|
      ensures ColouringLength((a + rest)[i..]) == 0
    {
      assert (a + rest)[i..] == s[start + i..];
    }
    PlainPiece(a, rest, style);
  }

  lemma LastPiece(s: string, start: nat, style: Style)
    requires start <= |s| && NextColouring(s, start) == |s|
    ensures Shown(s[start..], style) == Painted(StripAnsi(s[start..]), style) + []
  {
    NextPiece(s, start, style);
    assert s[start..] == s[start..|s|] && s[|s|..] == "";
  }

  lemma FlattenedAppend(segments: seq<Segment>, segment: Segment)
    ensures Flattened(segments + [segment]) == Flattened(segments) + Painted(segment.text, segment.style)
    ensures Texts(segments + [segment]) == Texts(segments) + segment.text
  {
    assert (segments + [segment])[..|segments|] == segments;
  }

  function Chars(cells: seq<Cell>): (text: string)
    ensures |text| == |cells| && forall i | 0 <= i < |cells| :: text[i] == cells[i].c
  {
    if cells == [] then "" else [cells[0].c] + Chars(cells[1..])
  }

  /** The characters of the reference reading are those that stripping leaves. */
  lemma {:induction false} ShownIsStripped(s: string, style: Style)
    ensures Chars(Shown(s, style)) == StripAnsi(s)
    decreases |s|
  {
    if s != "" {
      if ColouringLength(s) > 0 {
        ColouringIsSequence(s);
        ShownIsStripped(s[ColouringLength(s)..], StyleAfter(style, s, ColouringLength(s)));
      } else if SequenceLength(s) > 0 {
        ShownIsStripped(s[SequenceLength(s)..], style);
      } else {
        ShownIsStripped(s[1..], style);
        assert Shown(s, style)[1..] == Shown(s[1..], style);
      }
    }
  }

  lemma {:induction false} FlattenedTexts(segments: seq<Segment>)
    ensures Chars(Flattened(segments)) == Texts(segments)
    decreases |segments|
  {
    if segments != [] {
      FlattenedTexts(segments[..|segments| - 1]);
    }
  }

  /** Segments that show what the reference reading shows hold the stripped text. */
  lemma TextsAreStripped(s: string, segments: seq<Segment>)
    requires Flattened(segments) == Shown(s, PLAIN)
    ensures Texts(segments) == StripAnsi(s)
  {
    FlattenedTexts(segments);
    ShownIsStripped(s, PLAIN);
  }

  // ---- The parser

  class State {
    var colour: Colour
    var fontWeight: int

    constructor ()
      ensures Now() == PLAIN
    {
      colour, fontWeight := Default, 400;
    }

    function Now(): Style
      reads this
    {
      Style(colour, fontWeight)
    }

    method ApplyAnsiCode(code: int)
      modifies this
      ensures Now() == Applied(old(Now()), code)
    {
      if code == 0 {
        colour := Default;
        fontWeight := 400;
        return;
      }
      if code == 1 {
        fontWeight := 700;
        return;
      }
      if code == 22 {
        fontWeight := 400;
        return;
      }
      if code == 39 {
        colour := Default;
        return;
      }
      if ColourOf(code) != Default {
        colour := ColourOf(code);
      }
    }

    /** All the codes of the colouring sequence that the text starts with, one after the other. */
    method ApplyColouring(s: string, length: nat)
      requires 3 <= length <= |s|
      modifies this
      ensures Now() == StyleAfter(old(Now()), s, length)
    {
      var codes := CodesOf(s[2..length - 1]);
      for i := 0 to |codes|
        invariant AppliedAll(Now(), codes[i..]) == AppliedAll(old(Now()), codes)
      {
        assert codes[i..][0] == codes[i] && codes[i..][1..] == codes[i + 1..];
        ApplyAnsiCode(codes[i]);
      }
    }
  }

  method PushSegment(segments: seq<Segment>, text: string, style: Style) returns (longer: seq<Segment>)
    requires forall segment | segment in segments :: segment.text != ""
    ensures Flattened(longer) == Flattened(segments) + Painted(StripAnsi(text), style)
    ensures forall segment | segment in longer :: segment.text != ""
  {
    var normalized := StripAnsi(text);
    longer := segments;
    if normalized != "" {
      FlattenedAppend(segments, Segment(normalized, style));
      longer := segments + [Segment(normalized, style)];
    }
  }

  /** The segments so far and the reading of the rest make up the whole reading. */
  ghost predicate Progress(whole: seq<Cell>, segments: seq<Segment>, rest: seq<Cell>) {
    Flattened(segments) + rest == whole
  }

  lemma PieceDone(whole: seq<Cell>, before: seq<Segment>, after: seq<Segment>, piece: seq<Cell>, rest: seq<Cell>)
    requires Progress(whole, before, piece + rest) && Flattened(after) == Flattened(before) + piece
    ensures Progress(whole, after, rest)
  {
    assert Flattened(before) + (piece + rest) == (Flattened(before) + piece) + rest;
  }

  lemma ColouringDone(value: string, index: nat, style: Style, lastIndex: nat, next: Style)
    requires index < lastIndex <= |value| && lastIndex - index == ColouringLength(value[index..])
    requires next == StyleAfter(style, value[index..], lastIndex - index)
    ensures Shown(value[index..], style) == Shown(value[lastIndex..], next)
  {
    assert value[index..][lastIndex - index..] == value[lastIndex..];
  }

  /** The loop over the colouring sequences, and the piece after the last one. */
  method CollectSegments(value: string) returns (segments: seq<Segment>)
    ensures Flattened(segments) == Shown(value, PLAIN)
    ensures forall segment | segment in segments :: segment.text != ""
  {
    var state := new State();
    segments := [];
    var lastIndex := 0;
    ghost var style, whole := PLAIN, Shown(value, PLAIN);
    ghost var rest := whole;
    assert value[0..] == value;
    while NextColouring(value, lastIndex) < |value|
      invariant lastIndex <= |value|
      invariant style == state.Now()
      invariant rest == Shown(value[lastIndex..], style)
      invariant Progress(whole, segments, rest)
      invariant forall segment | segment in segments :: segment.text != ""
      decreases |value| - lastIndex
    {
      var index := NextColouring(value, lastIndex);
      ghost var before := segments;
      segments := PushSegment(segments, value[lastIndex..index], state.Now());
      NextPiece(value, lastIndex, style);
      rest := Shown(value[index..], style);
      PieceDone(whole, before, segments, Painted(StripAnsi(value[lastIndex..index]), style), rest);
      lastIndex := index + ColouringLength(value[index..]);
      state.ApplyColouring(value[index..], lastIndex - index);
      ColouringDone(value, index, style, lastIndex, state.Now());
      style := state.Now();
    }
    ghost var before := segments;
    segments := PushSegment(segments, value[lastIndex..], state.Now());
    LastPiece(value, lastIndex, style);
    PieceDone(whole, before, segments, rest, []);
  }

  /** Every visible character once, in order and in its style; no segment is empty, unless nothing at
      all is visible. */
  method ParseAnsiSegments(value: string) returns (segments: seq<Segment>)
    ensures Flattened(segments) == Shown(value, PLAIN)
    ensures Texts(segments) == StripAnsi(value)
    ensures segments != []
    ensures (forall segment | segment in segments :: segment.text != "") || segments == [Segment("", PLAIN)]
  {
    segments := CollectSegments(value);
    TextsAreStripped(value, segments);
    if segments == [] {
      segments := [Segment(StripAnsi(value), PLAIN)];
      FlattenedAppend([], segments[0]);
    }
  }
}
