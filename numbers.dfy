/** Decimal rounding and fixed-point text, as Python's `round(x, n)` and the
    `:.nf` format specification apply them. Both round the exact value to
    the nearest multiple of 10^-n, ties to the even neighbour. */
module Numbers {

  import opened Results
  import opened Strings

  /** The nearest integer, ties to the even one. */
  function RoundHalfEven(x: real): (n: int)
    ensures -0.5 <= n as real - x <= 0.5
    ensures n as real - x == 0.5 || x - n as real == 0.5 ==> n % 2 == 0
  {
    var f := x.Floor;
    var d := x - f as real;
    if d < 0.5 then f
    else if d > 0.5 then f + 1
    else if f % 2 == 0 then f
    else f + 1
  }

  /** `x` times 10^places: `x` measured in units of the last of `places`
      decimal places. */
  function Shift(x: real, places: nat): real
  {
    x * Pow10(places) as real
  }

  /** `x` in units of the last of `places` decimal places, rounded; it has
      the sign of `x` or is zero. */
  function Scaled(x: real, places: nat): (n: int)
    ensures x < 0.0 ==> n <= 0
    ensures x >= 0.0 ==> n >= 0
  {
    SignOfScaled(x, Pow10(places) as real);
    RoundHalfEven(Shift(x, places))
  }

  lemma SignOfScaled(x: real, p: real)
    requires p >= 1.0
    ensures x < 0.0 ==> x * p < 0.0
    ensures x >= 0.0 ==> x * p >= 0.0
  {
  }

  /** `round(x, places)`: a multiple of 10^-places, namely `x` shifted by
      `places` digits, rounded to the nearest integer with ties to the even
      one, and shifted back; so within half a unit of the last place of `x`. */
  function Round(x: real, places: nat): (y: real)
    ensures Shift(y, places) == RoundHalfEven(Shift(x, places)) as real
    ensures -0.5 <= (y - x) * Pow10(places) as real <= 0.5
  {
    Rescaled(Scaled(x, places), Pow10(places) as real, x);
    Scaled(x, places) as real / Pow10(places) as real
  }

  /** Dividing the rounded scaled value back down gives a value on the grid
      whose distance from `x` is the rounding error, scaled down. */
  lemma Rescaled(n: int, p: real, x: real)
    requires p >= 1.0 && -0.5 <= n as real - x * p <= 0.5
    ensures n as real / p * p == n as real
    ensures -0.5 <= (n as real / p - x) * p <= 0.5
  {
    assert (n as real / p - x) * p == n as real - x * p;
  }

  /** `s` preceded by as many zeros as make it `width` characters long. */
  function PadLeft(s: string, width: nat): (r: string)
    ensures |r| >= width && |r| >= |s|
    ensures AllDigits(s) ==> AllDigits(r) && DigitsValue(r) == DigitsValue(s)
    decreases width - |s|
  {
    if |s| >= width then s
    else
      var r := PadLeft("0" + s, width);
      ZeroPrefix(s);
      r
  }

  lemma ZeroPrefix(s: string)
    ensures AllDigits(s) ==> AllDigits("0" + s) && DigitsValue("0" + s) == DigitsValue(s)
  {
    if s != [] && AllDigits(s) {
      assert ("0" + s)[..|s|] == "0" + s[..|s| - 1];
      ZeroPrefix(s[..|s| - 1]);
    }
  }

  /** An integer part followed, when there is a fraction, by a point and
      the fraction. */
  function PointAt(whole: string, frac: string): string
  {
    if frac == [] then whole else whole + ("." + frac)
  }

  /** `format(x, f".{places}f")`: an optional minus sign, the integer part,
      and, when `places` is positive, a point followed by exactly `places`
      digits. */
  function Fixed(x: real, places: nat): (t: string)
    ensures t != []
  {
    PointText(x < 0.0, Scaled(x, places), places)
  }

  /** The digits of `|n|`, padded to at least `places + 1`, the last
      `places` of them after a point, signed when `negative`. */
  function PointText(negative: bool, n: int, places: nat): (t: string)
    ensures t != []
  {
    (if negative then "-" else "") + Point(Padded(n, places), places)
  }

  /** The decimal digits of `|n|`, with leading zeros up to `places + 1`. */
  function Padded(n: int, places: nat): (digits: string)
    ensures |digits| >= places + 1 && AllDigits(digits)
    ensures DigitsValue(digits) == if n < 0 then -n else n
  {
    PadLeft(NatToString(if n < 0 then -n else n), places + 1)
  }

  /** `digits` with a point before the last `places` of them. */
  function Point(digits: string, places: nat): string
    requires places < |digits|
  {
    PointAt(digits[..|digits| - places], digits[|digits| - places..])
  }

  /** The text `Fixed` produces reads back, through `float()`, as the value
      `round` produces: formatting and rounding agree. */
  lemma FixedReadsBack(x: real, places: nat)
    ensures ParseDecimal(Fixed(x, places)) == Some(Round(x, places))
  {
    PointTextReadsBack(x < 0.0, Scaled(x, places), places);
    RoundIsScaled(x, places);
  }

  lemma RoundIsScaled(x: real, places: nat)
    ensures Round(x, places) == Scaled(x, places) as real / Pow10(places) as real
  {
  }

  /** Signed padded digits read back as `n / 10^places`. */
  lemma PointTextReadsBack(negative: bool, n: int, places: nat)
    requires negative ==> n <= 0
    requires !negative ==> n >= 0
    ensures ParseDecimal(PointText(negative, n, places)) == Some(n as real / Pow10(places) as real)
  {
    var digits := Padded(n, places);
    var k := |digits| - places;
    var whole, frac := digits[..k], digits[k..];
    assert |frac| == places;
    assert whole + frac == digits;
    SliceDigits(digits, k);
    SignedReadsBack(negative, n, whole, frac, n as real / Pow10(places) as real);
  }

  /** Signed digits of `|n|`, the last `|frac|` after a point, read back as
      `n / 10^|frac|`. */
  lemma SignedReadsBack(negative: bool, n: int, whole: string, frac: string, value: real)
    requires whole != [] && AllDigits(whole) && AllDigits(frac)
    requires AllDigits(whole + frac) && DigitsValue(whole + frac) == (if n < 0 then -n else n)
    requires negative ==> n <= 0
    requires !negative ==> n >= 0
    requires value == n as real / Pow10(|frac|) as real
    ensures ParseDecimal((if negative then "-" else "") + PointAt(whole, frac)) == Some(value)
  {
    Quotient(negative, n, Pow10(|frac|));
    PointAtReads(negative, whole, frac, n as real / Pow10(|frac|) as real);
  }

  lemma Quotient(negative: bool, n: int, p: nat)
    requires p > 0
    requires negative ==> n <= 0
    requires !negative ==> n >= 0
    ensures var m := if n < 0 then -n else n;
            (if negative then -(m as real / p as real) else m as real / p as real)
            == n as real / p as real
  {
  }

  /** Signed point-separated digits read back as their value. */
  lemma PointAtReads(negative: bool, whole: string, frac: string, value: real)
    requires whole != [] && AllDigits(whole) && AllDigits(frac)
    requires var v := DigitsValue(whole + frac) as real / Pow10(|frac|) as real;
             value == if negative then -v else v
    ensures ParseDecimal((if negative then "-" else "") + PointAt(whole, frac)) == Some(value)
  {
    if frac == [] {
      assert PointAt(whole, frac) == whole && whole + frac == whole;
      PlainReads(negative, whole, value);
    } else {
      PointUnsigned(whole, frac);
      PointReads(negative, whole, frac, DigitsValue(whole + frac) as real / Pow10(|frac|) as real, value);
    }
  }

  lemma PlainReads(negative: bool, whole: string, value: real)
    requires whole != [] && AllDigits(whole)
    requires var v := DigitsValue(whole) as real; value == if negative then -v else v
    ensures ParseDecimal((if negative then "-" else "") + whole) == Some(value)
  {
    DigitsParse(whole);
    SignedText(negative, whole, DigitsValue(whole) as real);
  }

  lemma PointReads(negative: bool, whole: string, frac: string, v: real, value: real)
    requires whole != [] && frac != [] && AllDigits(whole) && AllDigits(frac)
    requires ParseUnsigned(whole + ("." + frac)) == Some(v)
    requires value == if negative then -v else v
    ensures ParseDecimal((if negative then "-" else "") + (whole + ("." + frac))) == Some(value)
  {
    var body := whole + ("." + frac);
    assert body[0] == whole[0] && body[|body| - 1] == frac[|frac| - 1];
    SignedText(negative, body, v);
  }

  /** Digits, a point and digits read as all the digits scaled down by the
      length of the fraction. */
  lemma PointUnsigned(whole: string, frac: string)
    requires AllDigits(whole) && AllDigits(frac) && frac != []
    ensures AllDigits(whole + frac)
    ensures ParseUnsigned(whole + ("." + frac))
            == Some(DigitsValue(whole + frac) as real / Pow10(|frac|) as real)
  {
    var w := DigitsValue(whole);
    ScanDigits(whole, "." + frac, 0, 0, false, false);
    assert ("." + frac)[1..] == frac;
    assert Scan("." + frac, w, 0, false, whole != []) == Scan(frac, w, 0, true, whole != []);
    ScanFraction(frac, w, whole != []);
    DigitsConcat(whole, frac);
  }

  /** Digits after the point are scaled down by their number. */
  lemma ScanFraction(frac: string, w: nat, digit: bool)
    requires frac != [] && AllDigits(frac)
    ensures Scan(frac, w, 0, true, digit)
            == Some((w * Pow10(|frac|) + DigitsValue(frac)) as real / Pow10(|frac|) as real)
  {
    assert frac + "" == frac;
    ScanDigits(frac, "", w, 0, true, digit);
  }

  /** Fixed-point text holds only a sign, digits and a point. */
  lemma FixedChars(x: real, places: nat)
    ensures forall c :: c in Fixed(x, places) ==> c == '-' || c == '.' || IsDigit(c)
  {
    PointTextChars(x < 0.0, Scaled(x, places), places);
  }

  lemma PointTextChars(negative: bool, n: int, places: nat)
    ensures forall c :: c in PointText(negative, n, places) ==> c == '-' || c == '.' || IsDigit(c)
  {
    var digits := Padded(n, places);
    var k := |digits| - places;
    SliceDigits(digits, k);
    PointAtChars(digits[..k], digits[k..]);
    SignChars(negative, Point(digits, places));
  }

  lemma SliceDigits(s: string, k: nat)
    requires AllDigits(s) && k <= |s|
    ensures AllDigits(s[..k]) && AllDigits(s[k..])
  {
  }

  lemma SignChars(negative: bool, body: string)
    requires forall c :: c in body ==> c == '.' || IsDigit(c)
    ensures forall c :: c in (if negative then "-" else "") + body ==> c == '-' || c == '.' || IsDigit(c)
  {
  }

  lemma PointAtChars(whole: string, frac: string)
    requires AllDigits(whole) && AllDigits(frac)
    ensures forall c :: c in PointAt(whole, frac) ==> c == '.' || IsDigit(c)
  {
    forall c | c in PointAt(whole, frac) ensures c == '.' || IsDigit(c) {
      if c in whole {
        var i :| 0 <= i < |whole| && whole[i] == c;
      } else if c in frac {
        var i :| 0 <= i < |frac| && frac[i] == c;
      }
    }
  }
}
