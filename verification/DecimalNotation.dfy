/**
 * The canonical text of a decimal number: `format(value.normalize(), "f")`. Normalizing
 * rounds to 28 significant digits, half to even, and drops trailing zeros.
 */
module DecimalNotation {
  import opened Prelude
  import opened Digits

  /** The number (-1)^negative * coefficient * 10^exponent. */
  datatype Number = Number(negative: bool, coefficient: nat, exponent: int)

  const PRECISION: nat := 28

  // ----- numeric value -----

  function Least(x: int, y: int): int {
    if x < y then x else y
  }

  /** The magnitude in units of 10^unit. */
  function Scaled(d: Number, unit: int): nat
    requires unit <= d.exponent
  {
    d.coefficient * Pow10(d.exponent - unit)
  }

  ghost predicate SameMagnitude(a: Number, b: Number) {
    var unit := Least(a.exponent, b.exponent);
    Scaled(a, unit) == Scaled(b, unit)
  }

  /** Numeric equality; a zero equals a zero of either sign. */
  ghost predicate SameValue(a: Number, b: Number) {
    SameMagnitude(a, b) && (a.negative == b.negative || a.coefficient == 0)
  }

  // ----- normalization -----

  function Stripped(d: Number): (r: Number)
    ensures r.negative == d.negative
    decreases d.coefficient
  {
    if d.coefficient == 0 then Number(d.negative, 0, 0)
    else if d.coefficient % 10 == 0 then Stripped(Number(d.negative, d.coefficient / 10, d.exponent + 1))
    else d
  }

  /** `n / unit` to the nearest integer, halves to the even one. */
  function RoundHalfEven(n: nat, unit: nat): nat
    requires unit > 0
  {
    var kept, rest := n / unit, n % unit;
    if 2 * rest > unit || (2 * rest == unit && kept % 2 == 1) then kept + 1 else kept
  }

  function Rounded(d: Number): Number {
    var count := |Text(d.coefficient)|;
    if count <= PRECISION then d
    else
      Number(d.negative, RoundHalfEven(d.coefficient, Pow10(count - PRECISION)), d.exponent + count - PRECISION)
  }

  function Normalized(d: Number): Number {
    Stripped(Rounded(d))
  }

  // ----- fixed-point text -----

  function Signed(negative: bool, body: string): string {
    if negative then ['-'] + body else body
  }

  /** Digits with a point before the last `places` of them, padded with zeros as needed. */
  function Pointed(digits: string, places: nat): string
    requires digits != [] && places > 0
  {
    if |digits| > places then digits[..|digits| - places] + ['.'] + digits[|digits| - places..]
    else ['0'] + ['.'] + (Zeros(places - |digits|) + digits)
  }

  function Fixed(d: Number): string {
    var digits := Text(d.coefficient);
    Signed(d.negative, if d.exponent >= 0 then digits + Zeros(d.exponent) else Pointed(digits, -d.exponent))
  }

  /** The canonical text. */
  function Print(d: Number): string {
    Fixed(Normalized(d))
  }

  /** Reads `[-]digits[.digits]`. */
  function Parse(s: string): Option<Number> {
    if s == [] then None
    else if s[0] == '-' then ParseUnsigned(s[1..], true)
    else ParseUnsigned(s, false)
  }

  function DotIndex(s: string): (i: nat)
    ensures i <= |s| && (forall k :: 0 <= k < i ==> s[k] != '.') && (i < |s| ==> s[i] == '.')
  {
    if s == [] || s[0] == '.' then 0 else 1 + DotIndex(s[1..])
  }

  predicate DigitsOnly(s: string)
    ensures DigitsOnly(s) <==> AllDigits(s)
  {
    forall c <- s :: IsDigit(c)
  }

  function ParseUnsigned(s: string, negative: bool): Option<Number> {
    var dot := DotIndex(s);
    var whole, fraction := s[..dot], if dot < |s| then s[dot + 1..] else [];
    if whole != [] && (dot < |s| ==> fraction != []) && DigitsOnly(whole) && DigitsOnly(fraction)
    then Some(Number(negative, Value(whole + fraction), -|fraction|))
    else None
  }

  // ----- reading back -----

  lemma DotAt(a: string, b: string)
    requires AllDigits(a)
    ensures DotIndex(a + ['.'] + b) == |a|
  {
    var s := a + ['.'] + b;
    assert s[|a|] == '.';
    forall k | 0 <= k < |a|
      ensures s[k] != '.'
    {
      assert s[k] == a[k] && a[k] in a;
    }
  }

  lemma NoDot(a: string)
    requires AllDigits(a)
    ensures DotIndex(a) == |a|
  {
    forall k | 0 <= k < |a|
      ensures a[k] != '.'
    {
      assert a[k] in a;
    }
  }

  lemma ReadSign(negative: bool, body: string)
    requires body != [] && IsDigit(body[0])
    ensures Parse(Signed(negative, body)) == ParseUnsigned(body, negative)
  {
    assert (['-'] + body)[1..] == body;
  }

  lemma ReadWhole(a: string, negative: bool)
    requires AllDigits(a) && a != []
    ensures ParseUnsigned(a, negative) == Some(Number(negative, Value(a), 0))
  {
    NoDot(a);
    assert a[..|a|] == a && a + [] == a;
  }

  lemma SplitDigits(digits: string, n: nat)
    requires AllDigits(digits) && n <= |digits|
    ensures AllDigits(digits[..n]) && AllDigits(digits[n..]) && digits[..n] + digits[n..] == digits
  {
    assert forall c <- digits[..n] :: c in digits;
    assert forall c <- digits[n..] :: c in digits;
  }

  lemma ValueOfPadded(k: nat, digits: string)
    requires AllDigits(digits)
    ensures AllDigits(Zeros(k) + digits) && Value(Zeros(k) + digits) == Value(digits)
  {
    ValueOfConcat(Zeros(k), digits);
    ValueOfZeros(k);
  }

  /** The text shows `places` decimals of the digits' value, whatever sign stands before it. */
  ghost predicate Shows(text: string, value: nat, places: int) {
    && text != [] && IsDigit(text[0])
    && forall negative :: ParseUnsigned(text, negative) == Some(Number(negative, value, -places))
  }

  lemma PartsShow(a: string, b: string, digits: string)
    requires AllDigits(a) && a != [] && AllDigits(b) && b != []
    requires digits == a + b && AllDigits(digits)
    ensures Shows(a + ['.'] + b, Value(digits), |b|)
  {
    var s := a + ['.'] + b;
    DotAt(a, b);
    assert s[..|a|] == a && s[|a| + 1..] == b;
    assert s[0] == a[0] && a[0] in a;
  }

  lemma PointedInside(digits: string, places: nat)
    requires AllDigits(digits) && 0 < places < |digits|
    ensures Shows(Pointed(digits, places), Value(digits), places)
  {
    var n := |digits| - places;
    SplitDigits(digits, n);
    PartsShow(digits[..n], digits[n..], digits);
  }

  lemma ZeroBeforePoint(fraction: string)
    requires AllDigits(fraction) && fraction != []
    ensures Shows(['0'] + ['.'] + fraction, Value(fraction), |fraction|)
  {
    assert Zeros(1) == ['0'];
    ValueOfPadded(1, fraction);
    PartsShow(['0'], fraction, ['0'] + fraction);
  }

  lemma PointedInFront(digits: string, places: nat)
    requires AllDigits(digits) && digits != [] && |digits| <= places
    ensures Shows(Pointed(digits, places), Value(digits), places)
  {
    var fraction := Zeros(places - |digits|) + digits;
    ValueOfPadded(places - |digits|, digits);
    ZeroBeforePoint(fraction);
    assert |fraction| == places;
    assert Value(fraction) == Value(digits);
    assert Shows(['0'] + ['.'] + fraction, Value(digits), places);
    assert Pointed(digits, places) == ['0'] + ['.'] + fraction;
  }

  lemma WholeShows(digits: string, zeros: nat)
    requires AllDigits(digits) && digits != []
    ensures Shows(digits + Zeros(zeros), Value(digits) * Pow10(zeros), 0)
  {
    var whole := digits + Zeros(zeros);
    ValueOfConcat(digits, Zeros(zeros));
    ValueOfZeros(zeros);
    assert whole[0] == digits[0] && digits[0] in digits;
    forall negative
      ensures ParseUnsigned(whole, negative) == Some(Number(negative, Value(whole), 0))
    {
      ReadWhole(whole, negative);
    }
  }

  /** What reading a fixed-point text gives: an integer, or the number itself. */
  function ReadBack(d: Number): Number {
    if d.exponent >= 0 then Number(d.negative, d.coefficient * Pow10(d.exponent), 0) else d
  }

  lemma FixedReadsBack(d: Number)
    ensures Parse(Fixed(d)) == Some(ReadBack(d))
  {
    var digits := Text(d.coefficient);
    ValueOfText(d.coefficient);
    if d.exponent >= 0 {
      WholeShows(digits, d.exponent);
      ReadSign(d.negative, digits + Zeros(d.exponent));
    } else {
      var places := -d.exponent;
      if |digits| > places {
        PointedInside(digits, places);
      } else {
        PointedInFront(digits, places);
      }
      ReadSign(d.negative, Pointed(digits, places));
    }
  }

  // ----- magnitudes in a common unit -----

  lemma TimesTen(x: nat, p: nat)
    ensures x * (10 * p) == (10 * x) * p
  {}

  lemma Associate(x: nat, p: nat, q: nat)
    ensures (x * p) * q == x * (p * q)
  {}

  lemma {:induction false} Pow10Sum(a: nat, b: nat)
    ensures Pow10(a + b) == Pow10(a) * Pow10(b)
  {
    if a > 0 {
      Pow10Sum(a - 1, b);
      Associate(10, Pow10(a - 1), Pow10(b));
    }
  }

  lemma Refined(d: Number, unit: int, finer: int)
    requires finer <= unit <= d.exponent
    ensures Scaled(d, finer) == Scaled(d, unit) * Pow10(unit - finer)
  {
    Pow10Sum(d.exponent - unit, unit - finer);
    Associate(d.coefficient, Pow10(d.exponent - unit), Pow10(unit - finer));
  }

  lemma ScalingGrows(x: nat, y: nat, p: nat)
    requires x < y && p >= 1
    ensures x * p < y * p
  {}

  lemma Cancel(x: nat, y: nat, p: nat)
    requires p >= 1
    ensures x * p == y * p <==> x == y
  {
    if x < y {
      ScalingGrows(x, y, p);
    } else if y < x {
      ScalingGrows(y, x, p);
    }
  }

  /** Magnitudes may be compared in any unit that both numbers are multiples of. */
  lemma SameInAnyUnit(a: Number, b: Number, unit: int)
    requires unit <= a.exponent && unit <= b.exponent
    ensures SameMagnitude(a, b) <==> Scaled(a, unit) == Scaled(b, unit)
  {
    var coarse := Least(a.exponent, b.exponent);
    Refined(a, coarse, unit);
    Refined(b, coarse, unit);
    Cancel(Scaled(a, coarse), Scaled(b, coarse), Pow10(coarse - unit));
  }

  lemma SameTransitive(a: Number, b: Number, c: Number)
    requires SameMagnitude(a, b) && SameMagnitude(b, c)
    ensures SameMagnitude(a, c)
  {
    var unit := Least(a.exponent, Least(b.exponent, c.exponent));
    SameInAnyUnit(a, b, unit);
    SameInAnyUnit(b, c, unit);
    SameInAnyUnit(a, c, unit);
  }

  lemma ReadBackKeepsMagnitude(d: Number)
    ensures SameMagnitude(ReadBack(d), d)
  {
    if d.exponent >= 0 {
      assert Least(0, d.exponent) == 0;
      assert Pow10(0) == 1;
    }
  }

  // ----- the stripped form -----

  ghost predicate IsStripped(d: Number) {
    d.coefficient % 10 != 0 || (d.coefficient == 0 && d.exponent == 0)
  }

  lemma {:induction false} StrippingKeepsMagnitude(d: Number)
    ensures IsStripped(Stripped(d)) && SameMagnitude(Stripped(d), d)
    decreases d.coefficient
  {
    if d.coefficient != 0 && d.coefficient % 10 == 0 {
      var shorter := Number(d.negative, d.coefficient / 10, d.exponent + 1);
      StrippingKeepsMagnitude(shorter);
      assert Pow10(1) == 10 * Pow10(0);
      assert SameMagnitude(shorter, d);
      SameTransitive(Stripped(d), shorter, d);
    }
  }

  lemma ShiftedIsDivisible(x: nat, k: nat)
    requires k > 0
    ensures (x * Pow10(k)) % 10 == 0
    ensures x * Pow10(k) == 0 <==> x == 0
  {
    var y := x * Pow10(k - 1);
    assert x * Pow10(k) == 10 * y by {
      TimesTen(x, Pow10(k - 1));
      Associate(10, x, Pow10(k - 1));
    }
    Cancel(x, 0, Pow10(k));
  }

  lemma StrippedIsUnique(a: Number, b: Number)
    requires IsStripped(a) && IsStripped(b) && SameMagnitude(a, b)
    ensures a.coefficient == b.coefficient && a.exponent == b.exponent
  {
    assert Pow10(0) == 1;
    if a.exponent > b.exponent {
      ShiftedIsDivisible(a.coefficient, a.exponent - b.exponent);
    } else if b.exponent > a.exponent {
      ShiftedIsDivisible(b.coefficient, b.exponent - a.exponent);
    }
  }

  // ----- the canonical text -----

  /** Two decimals have one text exactly when they are the same number after rounding, of the same sign. */
  lemma PrintAlike(a: Number, b: Number)
    ensures Print(a) == Print(b) <==> SameMagnitude(Rounded(a), Rounded(b)) && a.negative == b.negative
  {
    var x, y := Rounded(a), Rounded(b);
    StrippingKeepsMagnitude(x);
    StrippingKeepsMagnitude(y);
    if SameMagnitude(x, y) && a.negative == b.negative {
      SameTransitive(Stripped(x), x, y);
      SameTransitive(Stripped(x), y, Stripped(y));
      StrippedIsUnique(Stripped(x), Stripped(y));
    }
    if Print(a) == Print(b) {
      FixedReadsBack(Stripped(x));
      FixedReadsBack(Stripped(y));
      ReadBackKeepsMagnitude(Stripped(x));
      ReadBackKeepsMagnitude(Stripped(y));
      SameTransitive(x, Stripped(x), ReadBack(Stripped(x)));
      SameTransitive(x, ReadBack(Stripped(y)), Stripped(y));
      SameTransitive(x, Stripped(y), y);
    }
  }

  /** No significant digit stands beyond the 28th. */
  predicate FitsPrecision(d: Number) {
    var count := |Text(d.coefficient)|;
    count <= 28 || d.coefficient % Pow10(count - 28) == 0
  }

  /** Division of a multiple: quotient and rest are forced. */
  lemma MultipleHasNoRest(x: nat, p: nat)
    requires p >= 1
    ensures (x * p) % p == 0
  {
    var q, r := (x * p) / p, (x * p) % p;
    QuotientIsForced(q, r, x, p);
  }

  lemma QuotientIsForced(q: nat, r: nat, x: nat, p: nat)
    requires q * p + r == x * p && r < p
    ensures r == 0
  {
    if q < x {
      assert x * p == q * p + (x - q) * p;
      ScalingGrows(0, x - q, p);
      if x - q > 1 {
        ScalingGrows(1, x - q, p);
      }
    } else if x < q {
      ScalingGrows(x, q, p);
    }
  }

  lemma RoundingIsExact(n: nat, unit: nat)
    requires unit > 0
    ensures RoundHalfEven(n, unit) * unit == n <==> n % unit == 0
  {
    MultipleHasNoRest(RoundHalfEven(n, unit), unit);
  }

  /** Rounding is to a nearest multiple, and to the even one of two. */
  lemma RoundingIsNearest(n: nat, unit: nat)
    requires unit > 0
    ensures var twice: int := 2 * (RoundHalfEven(n, unit) * unit - n);
            && 0 <= twice + unit && twice <= unit
            && (twice == unit || twice + unit == 0 ==> RoundHalfEven(n, unit) % 2 == 0)
  {
    var kept := n / unit;
    assert n == kept * unit + n % unit;
    assert (kept + 1) * unit == kept * unit + unit;
  }

  lemma RoundedKeepsMagnitude(d: Number)
    ensures SameMagnitude(Rounded(d), d) <==> FitsPrecision(d)
  {
    var count := |Text(d.coefficient)|;
    assert Pow10(0) == 1;
    if count > PRECISION {
      RoundingIsExact(d.coefficient, Pow10(count - PRECISION));
    }
  }

  /** The text reads back as the same number, of the same sign, exactly when no digit was cut. */
  lemma PrintReadsBack(d: Number)
    ensures Parse(Print(d)).Some? && Parse(Print(d)).value.negative == d.negative
    ensures SameMagnitude(Parse(Print(d)).value, d) <==> FitsPrecision(d)
  {
    var r := Rounded(d);
    var back := ReadBack(Stripped(r));
    FixedReadsBack(Stripped(r));
    StrippingKeepsMagnitude(r);
    ReadBackKeepsMagnitude(Stripped(r));
    SameTransitive(back, Stripped(r), r);
    RoundedKeepsMagnitude(d);
    if SameMagnitude(r, d) {
      SameTransitive(back, r, d);
    }
    if SameMagnitude(back, d) {
      SameTransitive(r, back, d);
    }
  }

  /**
   * Of a number of more than 28 digits the text shows a nearest one that keeps 28 of them,
   * the even one of two.
   */
  lemma LongDecimalsAreRounded(d: Number, unit: nat)
    requires |Text(d.coefficient)| > 28 && unit == Pow10(|Text(d.coefficient)| - 28)
    ensures var r := Rounded(d);
            var twice: int := 2 * (r.coefficient * unit - d.coefficient);
            && r.negative == d.negative && r.exponent == d.exponent + |Text(d.coefficient)| - 28
            && 0 <= twice + unit && twice <= unit
            && (twice == unit || twice + unit == 0 ==> r.coefficient % 2 == 0)
    ensures Parse(Print(d)).Some? && SameMagnitude(Parse(Print(d)).value, Rounded(d))
  {
    RoundingIsNearest(d.coefficient, unit);
    var r := Rounded(d);
    FixedReadsBack(Stripped(r));
    StrippingKeepsMagnitude(r);
    ReadBackKeepsMagnitude(Stripped(r));
    SameTransitive(ReadBack(Stripped(r)), Stripped(r), r);
  }

  /** Up to the precision, the text identifies the number: equal numbers share it, save zeros of opposite sign. */
  lemma PrintIdentifies(a: Number, b: Number)
    requires FitsPrecision(a) && FitsPrecision(b)
    ensures Print(a) == Print(b) <==> SameValue(a, b) && (a.coefficient == 0 ==> a.negative == b.negative)
  {
    RoundedKeepsMagnitude(a);
    RoundedKeepsMagnitude(b);
    var x, y := Rounded(a), Rounded(b);
    if SameMagnitude(a, b) {
      SameTransitive(x, a, b);
      SameTransitive(x, b, y);
    }
    if SameMagnitude(x, y) {
      SameTransitive(a, x, y);
      SameTransitive(a, y, b);
    }
    PrintAlike(a, b);
  }

  /** Beyond the precision it does not: these four neighbours of a 29-digit number share its text. */
  lemma LongDecimalsCollide(d: Number, j: nat)
    requires |Text(d.coefficient)| == 29 && d.coefficient % 10 == 0 && 1 <= j <= 4
    ensures Print(d) == Print(d.(coefficient := d.coefficient + j))
    ensures !SameValue(d, d.(coefficient := d.coefficient + j))
  {
    var n := d.coefficient + j;
    assert n / 10 == d.coefficient / 10 && |Text(n)| == PRECISION + 1;
    assert Pow10(1) == 10 * Pow10(0);
    assert RoundHalfEven(n, 10) == RoundHalfEven(d.coefficient, 10);
  }
}
