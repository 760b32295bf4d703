/**
 * Python's `int(text)` and `float(text)` on the decimal notation the two jobs
 * meet: an optional sign, ASCII digits, and for `float` one optional point.
 * Numbers are exact (`int`, `real`); no IEEE-754 rounding is modelled.
 */
module Numbers {
  import opened Wrappers
  import opened Text

  /** Position of the first `c` in `s`, or `|s|` when `s` has none. */
  function IndexOf(s: string, c: char): (k: nat)
    ensures k <= |s|
    ensures k < |s| ==> s[k] == c
    ensures forall i :: 0 <= i < k ==> s[i] != c
  {
    if s == [] then 0
    else if s[0] == c then 0
    else 1 + IndexOf(s[1..], c)
  }

  /** The value of the digits after a decimal point: `0.frac`. */
  function FractionValue(frac: string): real
    requires AllDigits(frac)
  {
    if frac == [] then 0.0 else (DigitValue(frac[0]) as real + FractionValue(frac[1..])) / 10.0
  }

  /** The value of `whole.frac` written in decimal. */
  function DecimalValue(whole: string, frac: string): real
    requires AllDigits(whole) && AllDigits(frac)
  {
    DigitsValue(whole) as real + FractionValue(frac)
  }

  /** Python's `int(s)`: an optional sign followed by at least one digit. */
  function ParseInt(s: string): (r: Option<int>)
  {
    if s != [] && (s[0] == '-' || s[0] == '+') then
      var digits := s[1..];
      if digits != [] && AllDigits(digits) then
        var v: int := DigitsValue(digits);
        Some(if s[0] == '-' then -v else v)
      else None
    else if s != [] && AllDigits(s) then Some(DigitsValue(s))
    else None
  }

  /** Leading zeros are accepted: a non-empty digit string reads as its value. */
  lemma ParseIntDigits(s: string)
    requires s != [] && AllDigits(s)
    ensures ParseInt(s) == Some(DigitsValue(s))
  {
  }

  /** `int(str(i)) == i`. */
  lemma ParseIntOfIntToString(i: int)
    ensures ParseInt(IntToString(i)) == Some(i)
  {
    var s := IntToString(i);
    if i < 0 {
      var digits := NatToString(-i);
      assert s == "-" + digits;
      assert s[0] == '-' && s[1..] == digits;
      NatToStringValue(-i);
    } else {
      var digits := NatToString(i);
      assert s == digits;
      assert IsDigit(s[0]);
      NatToStringValue(i);
    }
  }

  /** `float(s)` without a sign: digits, optionally one point, digits, at least one digit in all. */
  function ParseUnsignedFloat(s: string): Option<real>
  {
    var k := IndexOf(s, '.');
    var whole := s[..k];
    var frac := if k < |s| then s[k + 1..] else "";
    if AllDigits(whole) && AllDigits(frac) && |whole| + |frac| >= 1 then
      Some(DecimalValue(whole, frac))
    else None
  }

  /** Python's `float(s)` on decimal notation with an optional sign. */
  function ParseFloat(s: string): Option<real>
  {
    if s != [] && s[0] == '-' then
      match ParseUnsignedFloat(s[1..])
      case Some(v) => Some(-v)
      case None => None
    else if s != [] && s[0] == '+' then ParseUnsignedFloat(s[1..])
    else ParseUnsignedFloat(s)
  }

  /** The first occurrence is found wherever it is. */
  lemma IndexOfFirst(s: string, c: char, k: nat)
    requires k <= |s| && (k < |s| ==> s[k] == c)
    requires forall i :: 0 <= i < k ==> s[i] != c
    ensures IndexOf(s, c) == k
  {
  }

  /** Any decimal `whole.frac` with a digit somewhere reads back as its value. */
  lemma ParseFloatDecimal(whole: string, frac: string)
    requires AllDigits(whole) && AllDigits(frac) && |whole| + |frac| >= 1
    ensures ParseFloat(whole + "." + frac) == Some(DecimalValue(whole, frac))
  {
    var s := whole + "." + frac;
    IndexOfFirst(s, '.', |whole|);
    assert s[..|whole|] == whole;
    assert s[|whole| + 1..] == frac;
    assert ParseFloat(s) == ParseUnsignedFloat(s);
  }

  /** A digit string without a point reads back as the integer it denotes. */
  lemma ParseFloatDigits(whole: string)
    requires whole != [] && AllDigits(whole)
    ensures ParseFloat(whole) == Some(DigitsValue(whole) as real)
  {
    IndexOfFirst(whole, '.', |whole|);
    assert whole[..|whole|] == whole;
    assert ParseFloat(whole) == ParseUnsignedFloat(whole);
  }

  /** `float(str(n)) == n` for a non-negative integer. */
  lemma ParseFloatOfNat(n: nat)
    ensures ParseFloat(NatToString(n)) == Some(n as real)
  {
    ParseFloatDigits(NatToString(n));
    NatToStringValue(n);
  }
}
