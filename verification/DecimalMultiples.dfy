/** Exact divisibility of decimal numerals, as the request form checks `multipleOf`. */
module DecimalMultiples {

  /** How a finite number prints: an optional sign, digits, digits after the point, a power of ten. */
  datatype Numeral = Numeral(negative: bool, whole: seq<int>, fraction: seq<int>, exponent: int)

  datatype Number = NotFinite | Finite(numeral: Numeral)

  /** A whole coefficient and a power of ten. */
  datatype Decimal = Decimal(coefficient: int, exponent: int)

  function DigitsValue(digits: seq<int>): int {
    if digits == [] then 0 else 10 * DigitsValue(digits[..|digits| - 1]) + digits[|digits| - 1]
  }

  function Ten(n: nat): (power: int)
    ensures power >= 1
  {
    if n == 0 then 1 else 10 * Ten(n - 1)
  }

  /** The coefficient times ten to the exponent. */
  function Scaled(coefficient: int, exponent: int): real
    decreases if exponent < 0 then -exponent else exponent
  {
    if exponent == 0 then coefficient as real
    else if exponent > 0 then Scaled(10 * coefficient, exponent - 1)
    else Scaled(coefficient, exponent + 1) / 10.0
  }

  function DecimalValue(d: Decimal): real {
    Scaled(d.coefficient, d.exponent)
  }

  /** What a printed number denotes: its whole digits, and the digits after the point at their places. */
  function NumeralValue(n: Numeral): real {
    var magnitude := Scaled(DigitsValue(n.whole), n.exponent)
                     + Scaled(DigitsValue(n.fraction), n.exponent - |n.fraction|);
    if n.negative then -magnitude else magnitude
  }

  /** Drop the point and count the digits after it into the exponent. */
  function ToDecimal(n: Numeral): Decimal {
    var digits := DigitsValue(n.whole + n.fraction);
    Decimal(if n.negative then -digits else digits, n.exponent - |n.fraction|)
  }

  /** The remainder of a division that truncates towards zero. */
  function Remainder(a: int, b: int): int
    requires b > 0
  {
    if a >= 0 then a % b else -((-a) % b)
  }

  /** The remainder of one coefficient by the other, once both stand over the smaller exponent. */
  function AlignedRemainder(left: Decimal, right: Decimal): int
    requires right.coefficient > 0
  {
    var difference := left.exponent - right.exponent;
    if difference >= 0 then Remainder(left.coefficient * Ten(difference), right.coefficient)
    else Remainder(left.coefficient, Widened(right.coefficient, -difference))
  }

  function Widened(coefficient: int, places: nat): (wide: int)
    requires coefficient > 0
    ensures wide > 0
  {
    coefficient * Ten(places)
  }

  predicate IsDecimalMultiple(value: Number, multiple: Number) {
    if value.NotFinite? || multiple.NotFinite? || NumeralValue(multiple.numeral) <= 0.0 then false
    else
      PositiveCoefficient(multiple.numeral);
      AlignedRemainder(ToDecimal(value.numeral), ToDecimal(multiple.numeral)) == 0
  }

  function Times(k: int, step: real): real {
    k as real * step
  }

  ghost predicate IsMultiple(x: real, step: real) {
    exists k: int :: x == Times(k, step)
  }

  function WholeTimes(k: int, b: int): int {
    k * b
  }

  // ---- Powers of ten

  lemma {:induction false} ScaledAdd(a: int, b: int, e: int)
    ensures Scaled(a + b, e) == Scaled(a, e) + Scaled(b, e)
    decreases if e < 0 then -e else e
  {
    if e > 0 {
      assert 10 * (a + b) == 10 * a + 10 * b;
      ScaledAdd(10 * a, 10 * b, e - 1);
    } else if e < 0 {
      ScaledAdd(a, b, e + 1);
    }
  }

  lemma {:induction false} ScaledTimes(k: int, b: int, e: int)
    ensures Scaled(WholeTimes(k, b), e) == Times(k, Scaled(b, e))
    decreases if e < 0 then -e else e
  {
    if e > 0 {
      assert 10 * WholeTimes(k, b) == WholeTimes(k, 10 * b);
      ScaledTimes(k, 10 * b, e - 1);
    } else if e < 0 {
      ScaledTimes(k, b, e + 1);
      TimesTenth(k, Scaled(b, e + 1));
    } else {
      assert (k * b) as real == k as real * b as real;
    }
  }

  lemma TimesTenth(k: int, x: real)
    ensures Times(k, x / 10.0) == Times(k, x) / 10.0
  {
  }

  lemma {:induction false} ScaledOrdered(a: int, b: int, e: int)
    ensures a < b <==> Scaled(a, e) < Scaled(b, e)
    decreases if e < 0 then -e else e
  {
    if e > 0 {
      ScaledOrdered(10 * a, 10 * b, e - 1);
    } else if e < 0 {
      ScaledOrdered(a, b, e + 1);
    }
  }

  lemma {:induction false} ScaledZero(e: int)
    ensures Scaled(0, e) == 0.0
    decreases if e < 0 then -e else e
  {
    if e > 0 {
      ScaledZero(e - 1);
    } else if e < 0 {
      ScaledZero(e + 1);
    }
  }

  lemma {:induction false} ScaledTenfold(c: int, e: int)
    ensures Scaled(10 * c, e) == 10.0 * Scaled(c, e)
    decreases if e < 0 then -e else e
  {
    if e > 0 {
      ScaledTenfold(10 * c, e - 1);
    } else if e < 0 {
      ScaledTenfold(c, e + 1);
    }
  }

  /** Moving n places from the exponent into the coefficient. */
  lemma {:induction false} Rescale(c: int, e: int, n: nat)
    ensures Scaled(c, e + n) == Scaled(c * Ten(n), e)
    decreases n
  {
    if n > 0 {
      Rescale(10 * c, e, n - 1);
      assert (10 * c) * Ten(n - 1) == c * Ten(n);
      ScaleUp(c, e + n - 1);
    }
  }

  lemma ScaleUp(c: int, e: int)
    ensures Scaled(c, e + 1) == Scaled(10 * c, e)
  {
    if e < 0 {
      ScaledTenfold(c, e + 1);
    }
  }

  lemma {:induction false} DigitsConcat(a: seq<int>, b: seq<int>)
    ensures DigitsValue(a + b) == DigitsValue(a) * Ten(|b|) + DigitsValue(b)
    decreases |b|
  {
    if b == [] {
      assert a + b == a;
    } else {
      var shorter := b[..|b| - 1];
      DigitsConcat(a, shorter);
      assert (a + b)[..|a + b| - 1] == a + shorter;
      assert 10 * (DigitsValue(a) * Ten(|shorter|)) == DigitsValue(a) * Ten(|b|);
    }
  }

  /** Dropping the point keeps the number: the decimal denotes what the numeral prints. */
  lemma DecimalDenotes(n: Numeral)
    ensures DecimalValue(ToDecimal(n)) == NumeralValue(n)
  {
    var w, f, p := DigitsValue(n.whole), DigitsValue(n.fraction), |n.fraction|;
    var small := n.exponent - p;
    DigitsConcat(n.whole, n.fraction);
    Rescale(w, small, p);
    ScaledAdd(w * Ten(p), f, small);
    if n.negative {
      var digits := DigitsValue(n.whole + n.fraction);
      ScaledAdd(digits, -digits, small);
      ScaledZero(small);
    }
  }

  lemma PositiveCoefficient(n: Numeral)
    ensures NumeralValue(n) > 0.0 <==> ToDecimal(n).coefficient > 0
  {
    var d := ToDecimal(n);
    DecimalDenotes(n);
    ScaledZero(d.exponent);
    ScaledOrdered(0, d.coefficient, d.exponent);
  }

  // ---- Remainders

  lemma RemainderZero(a: int, b: int)
    requires b > 0
    ensures Remainder(a, b) == 0 <==> exists k: int :: a == WholeTimes(k, b)
  {
    var size := if a >= 0 then a else -a;
    if size % b == 0 {
      var q := size / b;
      assert a == WholeTimes(if a >= 0 then q else -q, b);
    }
    if k: int :| a == WholeTimes(k, b) {
      var m := if a >= 0 then k else -k;
      MultipleLeavesNothing(m, b);
      assert size == m * b;
    }
  }

  lemma MultipleLeavesNothing(m: int, b: int)
    requires b > 0
    ensures (m * b) % b == 0
  {
    var q, r := m * b / b, (m * b) % b;
    BelowOne(m - q, b, r);
  }

  /** A multiple of b strictly below b and not negative is zero. */
  lemma BelowOne(d: int, b: int, r: int)
    requires b > 0 && 0 <= r < b && d * b == r
    ensures r == 0
  {
    AtLeast(d, b);
  }

  lemma AtLeast(d: int, b: int)
    requires b > 0
    ensures d >= 1 ==> d * b >= b
    ensures d <= -1 ==> d * b <= -b
  {
  }

  /** Over a common exponent the ratio is whole exactly when nothing remains. */
  lemma CommonExponent(a: int, b: int, e: int)
    requires b > 0
    ensures Remainder(a, b) == 0 <==> IsMultiple(Scaled(a, e), Scaled(b, e))
  {
    RemainderZero(a, b);
    forall k: int
      ensures a == WholeTimes(k, b) <==> Scaled(a, e) == Times(k, Scaled(b, e))
    {
      ScaledTimes(k, b, e);
      ScaledOrdered(a, WholeTimes(k, b), e);
      ScaledOrdered(WholeTimes(k, b), a, e);
    }
  }

  lemma DecimalsDivide(left: Decimal, right: Decimal)
    requires right.coefficient > 0
    ensures AlignedRemainder(left, right) == 0 <==> IsMultiple(DecimalValue(left), DecimalValue(right))
  {
    var difference := left.exponent - right.exponent;
    if difference >= 0 {
      Rescale(left.coefficient, right.exponent, difference);
      CommonExponent(left.coefficient * Ten(difference), right.coefficient, right.exponent);
    } else {
      Rescale(right.coefficient, left.exponent, -difference);
      CommonExponent(left.coefficient, Widened(right.coefficient, -difference), left.exponent);
    }
  }

  /** The check is exact: it accepts a value precisely when the value is a whole number of multiples. */
  lemma DivisibilityIsExact(value: Numeral, multiple: Numeral)
    ensures IsDecimalMultiple(Finite(value), Finite(multiple))
            <==> NumeralValue(multiple) > 0.0 && IsMultiple(NumeralValue(value), NumeralValue(multiple))
  {
    if NumeralValue(multiple) > 0.0 {
      DecimalDenotes(value);
      DecimalDenotes(multiple);
      PositiveCoefficient(multiple);
      DecimalsDivide(ToDecimal(value), ToDecimal(multiple));
    }
  }

  /** Two ways of printing the same numbers get the same answer. */
  lemma NotationIrrelevant(value: Numeral, multiple: Numeral, value': Numeral, multiple': Numeral)
    requires NumeralValue(value) == NumeralValue(value') && NumeralValue(multiple) == NumeralValue(multiple')
    ensures IsDecimalMultiple(Finite(value), Finite(multiple)) == IsDecimalMultiple(Finite(value'), Finite(multiple'))
  {
    DivisibilityIsExact(value, multiple);
    DivisibilityIsExact(value', multiple');
  }
}
