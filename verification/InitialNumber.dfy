/** The first value a request form proposes for a number, and the checks its field applies. Numbers
    are exact; an absent bound is an infinite one. */
module InitialNumber {
  import opened DecimalMultiples

  datatype Option<+T> = None | Some(value: T)

  datatype Schema = Schema(
    integer: bool, minimum: Option<real>, exclusiveMinimum: Option<real>,
    maximum: Option<real>, exclusiveMaximum: Option<real>, multipleOf: Option<real>)

  const EPSILON: real := 1.0 / 4503599627370496.0
  const MAX_SAFE_INTEGER: real := 9007199254740991.0

  // ---- What the field accepts

  ghost predicate InBounds(s: Schema, x: real) {
    && (s.minimum.Some? ==> s.minimum.value <= x)
    && (s.exclusiveMinimum.Some? ==> s.exclusiveMinimum.value < x)
    && (s.maximum.Some? ==> x <= s.maximum.value)
    && (s.exclusiveMaximum.Some? ==> x < s.exclusiveMaximum.value)
  }

  predicate Whole(x: real) {
    x == x.Floor as real
  }

  ghost predicate SafeInteger(x: real) {
    Whole(x) && -MAX_SAFE_INTEGER <= x <= MAX_SAFE_INTEGER
  }

  /** The schema's bounds and step, for a number that the field can hold. */
  ghost predicate Satisfies(s: Schema, x: real) {
    && InBounds(s, x)
    && (s.integer ==> SafeInteger(x))
    && (s.multipleOf.Some? ==> s.multipleOf.value > 0.0 && IsMultiple(x, s.multipleOf.value))
  }

  /** The checks of the field: its native bounds, where an inclusive bound hides an exclusive one, and
      its validity messages. The value and the multiple are given as they print. */
  ghost predicate FieldAccepts(s: Schema, x: Numeral, multiple: Option<Numeral>)
    requires multiple.Some? == s.multipleOf.Some?
  {
    var value := NumeralValue(x);
    var min := if s.minimum.Some? then s.minimum else s.exclusiveMinimum;
    var max := if s.maximum.Some? then s.maximum else s.exclusiveMaximum;
    var invalid := (s.exclusiveMinimum.Some? && value <= s.exclusiveMinimum.value)
                   || (s.exclusiveMaximum.Some? && value >= s.exclusiveMaximum.value);
    var invalidMultiple := multiple.Some? && !IsDecimalMultiple(Finite(x), Finite(multiple.value));
    var invalidInteger := s.integer && !SafeInteger(value);
    && (min.Some? ==> min.value <= value)
    && (max.Some? ==> value <= max.value)
    && !invalid && !invalidMultiple && !invalidInteger
  }

  /** The field's checks are exactly the schema's. */
  lemma FieldChecksSchema(s: Schema, x: Numeral, multiple: Option<Numeral>)
    requires multiple.Some? == s.multipleOf.Some?
    requires multiple.Some? ==> NumeralValue(multiple.value) == s.multipleOf.value
    ensures FieldAccepts(s, x, multiple) <==> Satisfies(s, NumeralValue(x))
  {
    if multiple.Some? {
      DivisibilityIsExact(x, multiple.value);
    }
  }

  // ---- The search

  /** The larger of two lower bounds. */
  function Higher(a: Option<real>, b: Option<real>): Option<real> {
    if a.None? then b else if b.None? || b.value <= a.value then a else b
  }

  /** The smaller of two upper bounds. */
  function Lower(a: Option<real>, b: Option<real>): Option<real> {
    if a.None? then b else if b.None? || a.value <= b.value then a else b
  }

  function Ceil(x: real): int {
    -((-x).Floor)
  }

  /** A step of zero counts as none. */
  function StepOf(s: Schema): Option<real> {
    var step := if s.multipleOf.Some? then s.multipleOf else if s.integer then Some(1.0) else None;
    if step == Some(0.0) then None else step
  }

  function Abs(x: real): real {
    if x < 0.0 then -x else x
  }

  function Nudge(bound: real): real {
    if Abs(bound) * EPSILON > 1.0 then Abs(bound) * EPSILON else 1.0
  }

  /** Zero, moved into the bounds. */
  function Clamped(lower: Option<real>, upper: Option<real>): real {
    var raised := if lower.Some? && lower.value > 0.0 then lower.value else 0.0;
    if upper.Some? && upper.value < raised then upper.value else raised
  }

  function RoundedUp(x: real, step: real): real
    requires step != 0.0
  {
    Times(Ceil(x / step), step)
  }

  function RoundedDown(x: real, step: real): real
    requires step != 0.0
  {
    Times((x / step).Floor, step)
  }

  function AtStep(s: Schema, upper: Option<real>, start: real, step: real): real
    requires step != 0.0
    requires s.exclusiveMaximum.Some? ==> upper.Some?
  {
    var up := RoundedUp(start, step);
    var above := if s.exclusiveMinimum == Some(up) then up + step else up;
    if (upper.Some? && above > upper.value) || s.exclusiveMaximum == Some(above) then
      var down := RoundedDown(upper.value, step);
      if s.exclusiveMaximum == Some(down) then down - step else down
    else above
  }

  function BetweenSteps(s: Schema, lower: Option<real>, upper: Option<real>, start: real): real
    requires s.exclusiveMinimum.Some? ==> lower.Some?
    requires s.exclusiveMaximum.Some? ==> upper.Some?
  {
    if s.exclusiveMinimum == Some(start) || s.exclusiveMaximum == Some(start) then
      if lower.Some? && upper.Some? then lower.value / 2.0 + upper.value / 2.0
      else if s.exclusiveMinimum == Some(start) then lower.value + Nudge(lower.value)
      else upper.value - Nudge(upper.value)
    else start
  }

  function FirstNumber(s: Schema): real {
    var lower := Higher(s.minimum, s.exclusiveMinimum);
    var upper := Lower(s.maximum, s.exclusiveMaximum);
    var start := Clamped(lower, upper);
    var step := StepOf(s);
    if step.Some? then AtStep(s, upper, start, step.value) else BetweenSteps(s, lower, upper, start)
  }

  // ---- Steps

  lemma TimesStep(k: int, step: real)
    ensures Times(k + 1, step) == Times(k, step) + step
    ensures Times(k - 1, step) == Times(k, step) - step
  {
  }

  lemma TimesOrder(j: int, k: int, step: real)
    requires step > 0.0 && j <= k
    ensures Times(j, step) <= Times(k, step)
    ensures j < k ==> Times(j, step) + step <= Times(k, step)
  {
    if j < k {
      Grows((k - j) as real, step);
      assert Times(k, step) - Times(j, step) == (k - j) as real * step;
    }
  }

  lemma Grows(n: real, step: real)
    requires n >= 1.0 && step > 0.0
    ensures n * step >= step
  {
    assert (n - 1.0) * step >= 0.0;
  }

  lemma Divided(v: real, step: real, k: int)
    requires step > 0.0
    ensures v <= Times(k, step) <==> v / step <= k as real
    ensures Times(k, step) <= v <==> k as real <= v / step
  {
    assert v == v / step * step;
    Product(v / step, k as real, step);
    Product(k as real, v / step, step);
  }

  lemma Product(a: real, b: real, step: real)
    requires step > 0.0
    ensures a <= b <==> a * step <= b * step
  {
    if a <= b {
      assert (b - a) * step >= 0.0;
    } else {
      assert (a - b) * step > 0.0;
    }
  }

  /** Rounding up finds the least multiple that is not below. */
  lemma RoundUp(v: real, step: real, k: int)
    requires step > 0.0
    ensures v <= Times(Ceil(v / step), step)
    ensures v <= Times(k, step) ==> Ceil(v / step) <= k
  {
    Divided(v, step, Ceil(v / step));
    Divided(v, step, k);
  }

  lemma RoundDown(v: real, step: real, k: int)
    requires step > 0.0
    ensures Times((v / step).Floor, step) <= v
    ensures Times(k, step) <= v ==> k <= (v / step).Floor
  {
    Divided(v, step, (v / step).Floor);
    Divided(v, step, k);
  }

  // ---- The search succeeds

  function LowerBound(s: Schema): Option<real> {
    Higher(s.minimum, s.exclusiveMinimum)
  }

  function UpperBound(s: Schema): Option<real> {
    Lower(s.maximum, s.exclusiveMaximum)
  }

  function Start(s: Schema): real {
    Clamped(LowerBound(s), UpperBound(s))
  }

  lemma WithinBounds(s: Schema, x: real)
    requires InBounds(s, x)
    ensures LowerBound(s).Some? ==> LowerBound(s).value <= x && LowerBound(s).value <= Start(s)
    ensures UpperBound(s).Some? ==> x <= UpperBound(s).value && Start(s) <= UpperBound(s).value
    ensures x < Start(s) ==> Start(s) <= 0.0
    ensures Start(s) < 0.0 ==> UpperBound(s) == Some(Start(s))
  {
  }

  /** From a multiple in the bounds that is not below the start, rounding up stays within reach. */
  lemma FoundUpwards(s: Schema, step: real, k: int)
    requires step > 0.0 && InBounds(s, Times(k, step)) && Start(s) <= Times(k, step)
    ensures var r := AtStep(s, UpperBound(s), Start(s), step);
            InBounds(s, r) && IsMultiple(r, step) && Abs(r) <= Abs(Times(k, step))
  {
    var n := Ceil(Start(s) / step);
    WithinBounds(s, Times(k, step));
    RoundUp(Start(s), step, k);
    TimesStep(n, step);
    TimesOrder(n, k, step);
  }

  /** From one below the start, it is zero, or the largest multiple under the upper bounds. */
  lemma FoundDownwards(s: Schema, step: real, k: int)
    requires step > 0.0 && InBounds(s, Times(k, step)) && Times(k, step) < Start(s)
    ensures var r := AtStep(s, UpperBound(s), Start(s), step);
            InBounds(s, r) && IsMultiple(r, step) && Abs(r) <= Abs(Times(k, step))
  {
    var x, start, upper := Times(k, step), Start(s), UpperBound(s);
    var n := Ceil(start / step);
    WithinBounds(s, x);
    RoundUp(start, step, k);
    if start == 0.0 {
      assert Times(0, step) == 0.0;
      RoundUp(start, step, 0);
      TimesOrder(n, 0, step);
    }
    var up := Times(n, step);
    assert s.exclusiveMinimum != Some(up);
    if (upper.Some? && up > upper.value) || s.exclusiveMaximum == Some(up) {
      var d := (upper.value / step).Floor;
      RoundDown(upper.value, step, k);
      TimesStep(d, step);
      TimesOrder(k, d, step);
    }
  }

  /** With a step, the search returns a multiple in the bounds whenever there is one, and none of them
      is closer to zero. */
  lemma SteppedSearch(s: Schema, step: real, x: real)
    requires StepOf(s) == Some(step) && step > 0.0 && InBounds(s, x) && IsMultiple(x, step)
    ensures InBounds(s, FirstNumber(s)) && IsMultiple(FirstNumber(s), step) && Abs(FirstNumber(s)) <= Abs(x)
  {
    var k: int :| x == Times(k, step);
    if Start(s) <= x {
      FoundUpwards(s, step, k);
    } else {
      FoundDownwards(s, step, k);
    }
  }

  /** Without one, it returns the number in the bounds that is closest to zero, unless that is an
      excluded end; then some number strictly inside. */
  lemma PlainSearch(s: Schema, x: real)
    requires StepOf(s).None? && InBounds(s, x)
    ensures InBounds(s, FirstNumber(s))
    ensures InBounds(s, Start(s)) ==> FirstNumber(s) == Start(s) && Abs(Start(s)) <= Abs(x)
  {
    WithinBounds(s, x);
  }

  /** A whole multiple of a whole step is whole. */
  lemma WholeMultiple(x: real, step: real)
    requires Whole(step) && IsMultiple(x, step)
    ensures Whole(x)
  {
    var k: int :| x == Times(k, step);
    assert x == (k * step.Floor) as real by {
      assert (k * step.Floor) as real == k as real * step.Floor as real;
    }
  }

  lemma WholeIsMultiple(x: real)
    requires Whole(x)
    ensures IsMultiple(x, 1.0)
  {
    assert x == Times(x.Floor, 1.0);
  }

  /** A step that keeps an integer schema to whole numbers. */
  predicate StepFits(s: Schema) {
    s.integer && s.multipleOf.Some? ==> Whole(s.multipleOf.value)
  }

  /** If the field accepts any number at all, then it accepts the one that is proposed first. */
  lemma FirstNumberSatisfies(s: Schema, x: real)
    requires Satisfies(s, x) && StepFits(s)
    ensures Satisfies(s, FirstNumber(s))
    ensures StepOf(s).Some? ==> Abs(FirstNumber(s)) <= Abs(x)
  {
    if StepOf(s).Some? {
      var step := StepOf(s).value;
      if s.multipleOf.None? {
        WholeIsMultiple(x);
      }
      SteppedSearch(s, step, x);
      if s.integer {
        WholeMultiple(FirstNumber(s), step);
      }
    } else {
      PlainSearch(s, x);
    }
  }

  lemma FirstNumberServes(s: Schema)
    ensures StepFits(s) && (exists x :: Satisfies(s, x)) ==> Satisfies(s, FirstNumber(s))
    ensures StepFits(s) && StepOf(s).Some? ==> forall x | Satisfies(s, x) :: Abs(FirstNumber(s)) <= Abs(x)
  {
    if StepFits(s) {
      forall x | Satisfies(s, x)
        ensures Satisfies(s, FirstNumber(s)) && (StepOf(s).Some? ==> Abs(FirstNumber(s)) <= Abs(x))
      {
        FirstNumberSatisfies(s, x);
      }
    }
  }

  /** The branch with a step: round up, or else down. */
  method StepNumber(s: Schema, upper: Option<real>, start: real, step: real) returns (value: real)
    requires step != 0.0 && (s.exclusiveMaximum.Some? ==> upper.Some?)
    ensures value == AtStep(s, upper, start, step)
  {
    value := RoundedUp(start, step);
    if s.exclusiveMinimum == Some(value) {
      value := value + step;
    }
    if (upper.Some? && value > upper.value) || s.exclusiveMaximum == Some(value) {
      value := RoundedDown(upper.value, step);
      if s.exclusiveMaximum == Some(value) {
        value := value - step;
      }
    }
  }

  /** The search. If any number satisfies a schema whose step fits it, the one returned does; and with a
      step none that does is closer to zero. */
  method InitialNumber(s: Schema) returns (value: real)
    ensures StepFits(s) && (exists x :: Satisfies(s, x)) ==> Satisfies(s, value)
    ensures StepFits(s) && StepOf(s).Some? ==> forall x | Satisfies(s, x) :: Abs(value) <= Abs(x)
    ensures value == FirstNumber(s)
  {
    var lower := Higher(s.minimum, s.exclusiveMinimum);
    var upper := Lower(s.maximum, s.exclusiveMaximum);
    var step := StepOf(s);
    value := 0.0;
    if lower.Some? && lower.value > value {
      value := lower.value;
    }
    if upper.Some? && upper.value < value {
      value := upper.value;
    }
    if step.Some? {
      value := StepNumber(s, upper, value, step.value);
    } else if s.exclusiveMinimum == Some(value) || s.exclusiveMaximum == Some(value) {
      if lower.Some? && upper.Some? {
        value := lower.value / 2.0 + upper.value / 2.0;
      } else if s.exclusiveMinimum == Some(value) {
        value := lower.value + Nudge(lower.value);
      } else {
        value := upper.value - Nudge(upper.value);
      }
    }
    FirstNumberServes(s);
  }

  // ---- An integer schema with a fractional step

  function FractionalSchema(q: real): Schema {
    Schema(true, Some(q), None, None, None, Some(q))
  }

  /** The step is taken instead of 1, not beside it: with a step of one half the form proposes one
      half for an integer of at least one half, although 1 would do. */
  lemma FractionalStepFails()
    ensures FirstNumber(FractionalSchema(0.5)) == 0.5
    ensures !Satisfies(FractionalSchema(0.5), 0.5) && Satisfies(FractionalSchema(0.5), 1.0)
  {
    assert Ceil(0.5 / 0.5) == 1 && Times(1, 0.5) == 0.5;
    assert Times(2, 0.5) == 1.0;
    assert Whole(1.0) && !Whole(0.5);
  }

  /** Some integer that the field can hold, other than zero, is a multiple of q. */
  ghost predicate Reachable(q: real) {
    exists k: int :: k >= 1 && SafeInteger(Times(k, q))
  }

  /** If x is acceptable, so is the number proposed first. */
  ghost predicate Served(s: Schema, x: real) {
    Satisfies(s, x) ==> Satisfies(s, FirstNumber(s))
  }

  /** For an integer schema with a step q, the first number is acceptable under all bounds that leave
      an acceptable number if and only if q is whole, or has no whole multiple in range but zero. */
  lemma IntegerStepExactly(q: real)
    requires q > 0.0
    ensures (forall s: Schema, x: real | s.integer && s.multipleOf == Some(q) :: Served(s, x))
            <==> Whole(q) || !Reachable(q)
  {
    if Whole(q) {
      forall s: Schema, x: real | s.integer && s.multipleOf == Some(q)
        ensures Served(s, x)
      {
        if Satisfies(s, x) {
          FirstNumberSatisfies(s, x);
        }
      }
    } else if Reachable(q) {
      var k: int :| k >= 1 && SafeInteger(Times(k, q));
      FractionalCase(q, k);
      assert !Served(FractionalSchema(q), Times(k, q));
    } else {
      forall s: Schema, x: real | s.integer && s.multipleOf == Some(q)
        ensures Served(s, x)
      {
        if Satisfies(s, x) {
          OnlyZero(q, x);
          SteppedSearch(s, q, x);
        }
      }
    }
  }

  lemma FractionalCase(q: real, k: int)
    requires q > 0.0 && !Whole(q) && k >= 1 && SafeInteger(Times(k, q))
    ensures var s := FractionalSchema(q);
            s.integer && s.multipleOf == Some(q) && Satisfies(s, Times(k, q)) && !Satisfies(s, FirstNumber(s))
  {
    var s := FractionalSchema(q);
    assert q / q == 1.0;
    assert Ceil(1.0) == 1;
    assert Times(1, q) == q;
    TimesOrder(1, k, q);
  }

  lemma TimesMirror(k: int, q: real)
    ensures Times(-k, q) == -Times(k, q)
  {
  }

  lemma WholeMirror(x: real, n: int)
    requires x == n as real
    ensures -x == (-n) as real && (-x).Floor == -n
  {
  }

  lemma SafeMirror(x: real)
    requires SafeInteger(x)
    ensures SafeInteger(-x)
  {
    WholeMirror(x, x.Floor);
  }

  lemma OnlyZero(q: real, x: real)
    requires !Reachable(q) && SafeInteger(x) && IsMultiple(x, q)
    ensures x == 0.0
  {
    var k: int :| x == Times(k, q);
    TimesMirror(k, q);
    SafeMirror(x);
    assert !(k >= 1) && !(-k >= 1);
    assert Times(0, q) == 0.0;
  }
}
