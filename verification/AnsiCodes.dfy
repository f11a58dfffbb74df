/** What the codes of a colouring sequence do to the text behind it, from the numbers written in the
    sequence. */
module AnsiCodes {
  import opened AnsiSegments
  import opened Splitting

  // ---- Writing a sequence

  /** One item between the semicolons: nothing, or a number, perhaps with leading zeros. */
  datatype Item = Blank | Number(zeros: nat, value: nat)

  function Digit(d: nat): char
    requires d < 10
  {
    (d + '0' as int) as char
  }

  function Decimal(n: nat): string {
    if n < 10 then [Digit(n)] else Decimal(n / 10) + [Digit(n % 10)]
  }

  function Zeros(k: nat): string {
    if k == 0 then "" else "0" + Zeros(k - 1)
  }

  function Written(item: Item): string {
    if item.Blank? then "" else Zeros(item.zeros) + Decimal(item.value)
  }

  function AllWritten(items: seq<Item>): seq<string> {
    if items == [] then [] else [Written(items[0])] + AllWritten(items[1..])
  }

  /** ESC [ items m */
  function Sequence(items: seq<Item>): string
    requires items != []
  {
    [ESC, '['] + Glued(AllWritten(items), ';') + "m"
  }

  // ---- What the codes say

  function Value(item: Item): nat {
    if item.Blank? then 0 else item.value
  }

  /** The numbers that do not read as infinity. */
  function Finite(items: seq<Item>): seq<int> {
    if items == [] then []
    else if Value(items[0]) < OVERFLOW then [Value(items[0])] + Finite(items[1..])
    else Finite(items[1..])
  }

  /** A sequence without a number resets. */
  function Effective(items: seq<Item>): seq<int> {
    if Finite(items) == [] then [0] else Finite(items)
  }

  const HUES: seq<Colour> := [Red, Green, Yellow, Blue, Magenta, Cyan]

  /** What a code says about the colour, if anything: the hues are those of 31 to 36 and of 91 to 96. */
  predicate SpeaksOfColour(code: int) {
    code == 0 || code == 39 || 30 <= code <= 37 || 90 <= code <= 97
  }

  function ColourSaid(code: int): Colour
    requires SpeaksOfColour(code)
  {
    if code == 0 || code == 39 then Default
    else if code == 30 || code == 97 then Text
    else if code == 37 || code == 90 then Muted
    else HUES[if code < 40 then code - 31 else code - 91]
  }

  /** The last code that speaks of the colour decides it. */
  function ColourAfter(colour: Colour, codes: seq<int>): Colour {
    if codes == [] then colour
    else if SpeaksOfColour(codes[|codes| - 1]) then ColourSaid(codes[|codes| - 1])
    else ColourAfter(colour, codes[..|codes| - 1])
  }

  /** And so with the weight: 1 is bold, 0 and 22 are not. */
  function WeightAfter(weight: int, codes: seq<int>): int {
    if codes == [] then weight
    else
      var last := codes[|codes| - 1];
      if last == 1 then 700 else if last == 0 || last == 22 then 400 else WeightAfter(weight, codes[..|codes| - 1])
  }

  // ---- Reading what was written

  ghost predicate Digits(text: string) {
    forall i | 0 <= i < |text| :: '0' <= text[i] <= '9'
  }

  lemma {:induction false} DecimalReads(n: nat)
    ensures Decimal(n) != "" && Digits(Decimal(n)) && ParseInt(Decimal(n)) == n
  {
    if n >= 10 {
      DecimalReads(n / 10);
      assert Decimal(n)[..|Decimal(n)| - 1] == Decimal(n / 10);
    } else {
      assert Decimal(n)[..0] == "";
    }
  }

  lemma {:induction false} ZeroReads(text: string)
    requires Digits(text)
    ensures Digits("0" + text) && ParseInt("0" + text) == ParseInt(text)
    decreases |text|
  {
    var longer := "0" + text;
    if text == "" {
      assert longer[..0] == "";
    } else {
      assert longer[..|longer| - 1] == "0" + text[..|text| - 1];
      ZeroReads(text[..|text| - 1]);
    }
  }

  lemma {:induction false} ZerosRead(k: nat, text: string)
    requires Digits(text)
    ensures Digits(Zeros(k) + text) && ParseInt(Zeros(k) + text) == ParseInt(text)
  {
    if k == 0 {
      assert Zeros(k) + text == text;
    } else {
      var shorter := Zeros(k - 1) + text;
      ZerosRead(k - 1, text);
      ZeroReads(shorter);
      assert Zeros(k) + text == "0" + shorter;
    }
  }

  lemma WrittenReads(item: Item)
    ensures Digits(Written(item)) && ParseInt(Written(item)) == Value(item)
  {
    if item.Number? {
      DecimalReads(item.value);
      ZerosRead(item.zeros, Decimal(item.value));
    }
  }

  lemma {:induction false} AllRead(items: seq<Item>)
    ensures |AllWritten(items)| == |items| && FiniteCodes(AllWritten(items)) == Finite(items)
    ensures forall i | 0 <= i < |items| :: Digits(AllWritten(items)[i])
    decreases |items|
  {
    if items != [] {
      WrittenReads(items[0]);
      AllRead(items[1..]);
      assert AllWritten(items)[1..] == AllWritten(items[1..]);
    }
  }

  ghost predicate AllCodes(text: string) {
    forall i | 0 <= i < |text| :: IsCode(text[i])
  }

  lemma CodesConcat(a: string, b: string)
    requires AllCodes(a) && AllCodes(b)
    ensures AllCodes(a + ";" + b)
  {
  }

  lemma {:induction false} JoinedIsCode(texts: seq<string>)
    requires texts != [] && forall i | 0 <= i < |texts| :: Digits(texts[i])
    ensures AllCodes(Glued(texts, ';'))
    decreases |texts|
  {
    assert Digits(texts[0]);
    if |texts| > 1 {
      JoinedIsCode(texts[1..]);
      CodesConcat(texts[0], Glued(texts[1..], ';'));
    }
  }

  lemma SpeaksByOneCode(style: Style, code: int)
    ensures Applied(style, code).colour == (if SpeaksOfColour(code) then ColourSaid(code) else style.colour)
    ensures Applied(style, code).fontWeight
            == (if code == 1 then 700 else if code == 0 || code == 22 then 400 else style.fontWeight)
  {
  }

  lemma {:induction false} AppliedSnoc(style: Style, codes: seq<int>, last: int)
    ensures AppliedAll(style, codes + [last]) == Applied(AppliedAll(style, codes), last)
    decreases |codes|
  {
    if codes != [] {
      AppliedSnoc(Applied(style, codes[0]), codes[1..], last);
      assert (codes + [last])[1..] == codes[1..] + [last];
    }
  }

  /** All codes together: the last word on the colour and the last word on the weight. */
  lemma {:induction false} LastWordsCount(style: Style, codes: seq<int>)
    ensures AppliedAll(style, codes) == Style(ColourAfter(style.colour, codes), WeightAfter(style.fontWeight, codes))
    decreases |codes|
  {
    if codes != [] {
      var shorter, last := codes[..|codes| - 1], codes[|codes| - 1];
      LastWordsCount(style, shorter);
      AppliedSnoc(style, shorter, last);
      assert codes == shorter + [last];
      SpeaksByOneCode(AppliedAll(style, shorter), last);
    }
  }

  lemma BracketedIsColouring(parameters: string)
    requires AllCodes(parameters)
    ensures IsColouring([ESC, '['] + parameters + "m")
  {
    var t := [ESC, '['] + parameters + "m";
    forall i | 2 <= i < |t| - 1
      ensures IsCode(t[i])
    {
      assert t[i] == parameters[i - 2];
    }
  }

  lemma BracketedCuts(parameters: string, rest: string)
    ensures var t := [ESC, '['] + parameters + "m";
            (t + rest)[..|t|] == t && (t + rest)[2..|t| - 1] == parameters && (t + rest)[|t|..] == rest
  {
  }

  lemma BracketedLength(parameters: string, rest: string)
    requires AllCodes(parameters)
    ensures var t := [ESC, '['] + parameters + "m"; ColouringLength(t + rest) == |t|
  {
    var t := [ESC, '['] + parameters + "m";
    BracketedIsColouring(parameters);
    BracketedCuts(parameters, rest);
    ColouringLengthMatches(t + rest, |t|);
  }

  lemma SequenceColours(items: seq<Item>, rest: string)
    requires items != []
    ensures var s, n := Sequence(items) + rest, |Sequence(items)|;
            && ColouringLength(s) == n && n >= 3 && s[n..] == rest
            && CodesOf(s[2..n - 1]) == Effective(items)
  {
    AllRead(items);
    GluedSplits(AllWritten(items), ';');
    JoinedIsCode(AllWritten(items));
    BracketedLength(Glued(AllWritten(items), ';'), rest);
    BracketedCuts(Glued(AllWritten(items), ';'), rest);
  }

  /** Whatever follows a colouring sequence is shown as its numbers say: the last one about the colour
      decides the colour, the last one about the weight the weight; what none speaks of stays. */
  lemma TextTakesStyle(items: seq<Item>, rest: string, style: Style)
    requires items != []
    ensures var codes := Effective(items);
            Shown(Sequence(items) + rest, style)
            == Shown(rest, Style(ColourAfter(style.colour, codes), WeightAfter(style.fontWeight, codes)))
  {
    SequenceColours(items, rest);
    LastWordsCount(style, Effective(items));
  }

  /** A reset as the last item makes all that follows plain, whatever came before it. */
  lemma ResetMakesPlain(items: seq<Item>, rest: string, style: Style)
    requires items != [] && Value(items[|items| - 1]) == 0
    ensures Shown(Sequence(items) + rest, style) == Shown(rest, PLAIN)
  {
    TextTakesStyle(items, rest, style);
    EndsFinite(items);
  }

  lemma {:induction false} EndsFinite(items: seq<Item>)
    requires items != [] && Value(items[|items| - 1]) == 0
    ensures Finite(items) != [] && Finite(items)[|Finite(items)| - 1] == 0
    decreases |items|
  {
    if |items| > 1 {
      EndsFinite(items[1..]);
    }
  }

  /** Text without an escape is shown as it is, in the style in force. */
  lemma {:induction false} PlainText(text: string, rest: string, style: Style)
    requires ESC !in text
    ensures Shown(text + rest, style) == Painted(text, style) + Shown(rest, style)
    decreases |text|
  {
    if text == "" {
      assert text + rest == rest;
    } else {
      assert (text + rest)[0] == text[0] && (text + rest)[1..] == text[1..] + rest;
      PlainText(text[1..], rest, style);
      PaintedMore(text[0], text[1..], style, Shown(rest, style));
      assert [text[0]] + text[1..] == text;
    }
  }

  /** A control sequence that is no colouring one shows nothing and changes nothing. */
  lemma OtherSequencesVanish(sequence: string, rest: string, style: Style)
    requires IsSequence(sequence) && !IsColouring(sequence)
    ensures Shown(sequence + rest, style) == Shown(rest, style)
  {
    var s, n := sequence + rest, |sequence|;
    assert s[..n] == sequence && s[n..] == rest;
    SequenceLengthMatches(s, n);
    if ColouringLength(s) > 0 {
      ColouringIsSequence(s);
      ColouringLengthMatches(s, n);
    }
  }
}
