/**
 * `memory_size` of the D-ITG sender job: a decimal magnitude with an optional
 * `K`, `M` or `G` suffix, scaled by the multiplier once per suffix level.
 * The job uses it with `float` and 1024 for the data size and with `int` and
 * 1000 for the bandwidth.
 */
module SizeParsing {
  import opened Wrappers
  import opened Text
  import opened Numbers

  datatype Unit = NoUnit | Kilo | Mega | Giga

  /** The two groups of the pattern: the base split at its optional point, and the unit. */
  datatype Magnitude = Magnitude(whole: string, point: bool, frac: string, unit: Unit)

  /** The `converter` argument: Python's `float` or `int`. */
  datatype Converter = ToFloat | ToInt

  datatype SizeError =
    | WrongFormat    // the text does not match the pattern
    | NotAnInteger   // `int()` refuses a base that has a point

  predicate IsUnitChar(c: char) {
    c == 'K' || c == 'M' || c == 'G'
  }

  predicate IsSizeChar(c: char) {
    IsDigit(c) || c == '.' || IsUnitChar(c)
  }

  function UnitOf(c: char): Unit {
    if c == 'K' then Kilo else if c == 'M' then Mega else if c == 'G' then Giga else NoUnit
  }

  function Suffix(u: Unit): string {
    match u
    case NoUnit => ""
    case Kilo => "K"
    case Mega => "M"
    case Giga => "G"
  }

  /** What the pattern `\d+\.?\d*` can capture as a base: at least one digit before the optional point. */
  predicate WellFormed(m: Magnitude) {
    m.whole != [] && AllDigits(m.whole) && AllDigits(m.frac) && (!m.point ==> m.frac == [])
  }

  /** The text a magnitude is written as. */
  function Render(m: Magnitude): string {
    m.whole + (if m.point then "." else "") + m.frac + Suffix(m.unit)
  }

  /** Splits off a final unit letter, if there is one. */
  function SplitUnit(s: string): (r: (string, Unit))
    ensures r.0 + Suffix(r.1) == s
  {
    if s != [] && IsUnitChar(s[|s| - 1]) then (s[..|s| - 1], UnitOf(s[|s| - 1])) else (s, NoUnit)
  }

  /** Splits a base at its first point, if there is one. */
  function SplitPoint(base: string): (r: (string, bool, string))
    ensures r.0 + (if r.1 then "." else "") + r.2 == base
    ensures '.' !in r.0 && (!r.1 ==> r.2 == [])
  {
    var k := IndexOf(base, '.');
    if k < |base| then
      assert base == base[..k] + "." + base[k + 1..];
      (base[..k], true, base[k + 1..])
    else
      assert base == base[..k];
      (base, false, "")
  }

  /** `re.fullmatch(r'(\d+\.?\d*)(K|M|G)?', s)` and its two groups. */
  function Match(s: string): (r: Option<Magnitude>)
    ensures r.Some? ==> WellFormed(r.value)
  {
    var (base, unit) := SplitUnit(s);
    var (whole, point, frac) := SplitPoint(base);
    if whole != [] && AllDigits(whole) && AllDigits(frac) then Some(Magnitude(whole, point, frac, unit))
    else None
  }

  /** A base that does not end in a unit letter keeps the unit appended to it apart. */
  lemma SplitUnitOf(base: string, u: Unit)
    requires base != [] && !IsUnitChar(base[|base| - 1])
    ensures SplitUnit(base + Suffix(u)) == (base, u)
  {
    if u == NoUnit {
      assert base + Suffix(u) == base;
    } else {
      assert (base + Suffix(u))[..|base|] == base;
    }
  }

  /** A point-free whole part is cut at the point that follows it. */
  lemma SplitPointOf(whole: string, point: bool, frac: string)
    requires '.' !in whole && (!point ==> frac == [])
    ensures SplitPoint(whole + (if point then "." else "") + frac) == (whole, point, frac)
  {
    var base := whole + (if point then "." else "") + frac;
    IndexOfFirst(base, '.', |whole|);
    assert base[..|whole|] == whole;
    if point {
      assert base[|whole| + 1..] == frac;
    } else {
      assert base == whole;
    }
  }

  /** Every well-formed magnitude is matched, with exactly its groups. */
  lemma MatchRender(m: Magnitude)
    requires WellFormed(m)
    ensures Match(Render(m)) == Some(m)
  {
    var base := m.whole + (if m.point then "." else "") + m.frac;
    assert !IsUnitChar(base[|base| - 1]) by {
      if m.point && m.frac == [] {
        assert base[|base| - 1] == '.';
      } else if m.point {
        assert base[|base| - 1] == m.frac[|m.frac| - 1];
      } else {
        assert base[|base| - 1] == m.whole[|m.whole| - 1];
      }
    }
    SplitUnitOf(base, m.unit);
    assert Render(m) == base + Suffix(m.unit);
    assert '.' !in m.whole by {
      assert forall i :: 0 <= i < |m.whole| ==> IsDigit(m.whole[i]);
    }
    SplitPointOf(m.whole, m.point, m.frac);
  }

  /** Whatever is matched is the rendering of its groups: nothing is skipped or added. */
  lemma RenderMatch(s: string)
    requires Match(s).Some?
    ensures Render(Match(s).value) == s
  {
  }

  /** A matched text starts with a digit, uses only digits, `.` and the unit letters, and has a unit letter only at its end. */
  lemma MatchShape(s: string)
    requires Match(s).Some?
    ensures s != [] && IsDigit(s[0])
    ensures forall i :: 0 <= i < |s| ==> IsSizeChar(s[i])
    ensures forall i :: 0 <= i < |s| - 1 ==> !IsUnitChar(s[i])
  {
    var m := Match(s).value;
    RenderMatch(s);
    var base := m.whole + (if m.point then "." else "") + m.frac;
    assert s == base + Suffix(m.unit);
    assert base[0] == m.whole[0];
    assert forall i :: 0 <= i < |base| ==> IsDigit(base[i]) || base[i] == '.';
  }

  /** How many times a unit applies the multiplier: none 0, `K` 1, `M` 2, `G` 3. */
  function Level(u: Unit): (k: nat)
    ensures k <= 3
  {
    match u
    case NoUnit => 0
    case Kilo => 1
    case Mega => 2
    case Giga => 3
  }

  function Power(b: int, k: nat): int {
    if k == 0 then 1 else Power(b, k - 1) * b
  }

  /** The factor a unit stands for: `multiplier` raised to the unit's level. */
  function Factor(u: Unit, multiplier: int): int {
    Power(multiplier, Level(u))
  }

  /** The factors written out: 1, m, m*m, m*m*m, as the source's branches multiply. */
  lemma FactorLevels(multiplier: int)
    ensures Factor(NoUnit, multiplier) == 1
    ensures Factor(Kilo, multiplier) == multiplier
    ensures Factor(Mega, multiplier) == multiplier * multiplier
    ensures Factor(Giga, multiplier) == multiplier * multiplier * multiplier
  {
    assert Power(multiplier, 1) == multiplier;
    assert Power(multiplier, 2) == multiplier * multiplier;
  }

  /** The number a well-formed magnitude stands for: its base times its unit's factor. */
  function Value(m: Magnitude, multiplier: int): real
    requires WellFormed(m)
  {
    DecimalValue(m.whole, m.frac) * Factor(m.unit, multiplier) as real
  }

  /** `memory_size(value, converter, multiplier)`. */
  function MemorySize(value: string, converter: Converter, multiplier: int): (r: Result<real, SizeError>)
    ensures r.Success? <==> Match(value).Some? && !(converter == ToInt && Match(value).value.point)
    ensures r == Failure(WrongFormat) <==> Match(value).None?
    ensures r.Success? ==> r.value == Value(Match(value).value, multiplier)
  {
    var matched := Match(value);
    if matched.None? then Failure(WrongFormat)
    else if converter == ToInt && matched.value.point then Failure(NotAnInteger)
    else Success(Value(matched.value, multiplier))
  }

  /** A matched text the converter accepts stands for the magnitude's value. */
  lemma MemorySizeOfMatch(value: string, m: Magnitude, converter: Converter, multiplier: int)
    requires Match(value) == Some(m) && !(converter == ToInt && m.point)
    ensures MemorySize(value, converter, multiplier) == Success(Value(m, multiplier))
  {
  }

  /** An integer with a suffix is matched with a point-free base. */
  lemma MatchOfInteger(n: nat, u: Unit)
    ensures Match(NatToString(n) + Suffix(u)) == Some(Magnitude(NatToString(n), false, "", u))
  {
    var mag := Magnitude(NatToString(n), false, "", u);
    assert Render(mag) == NatToString(n) + Suffix(u);
    MatchRender(mag);
  }

  /** The value of a point-free base is the integer it spells, times the unit's factor. */
  lemma ValueOfInteger(n: nat, u: Unit, multiplier: int)
    ensures Value(Magnitude(NatToString(n), false, "", u), multiplier) == (n * Factor(u, multiplier)) as real
  {
    DecimalOfNat(n);
    ValueOfDigits(NatToString(n), n, u, multiplier);
  }

  lemma ValueOfDigits(w: string, n: nat, u: Unit, multiplier: int)
    requires w != [] && AllDigits(w) && DecimalValue(w, "") == n as real
    ensures Value(Magnitude(w, false, "", u), multiplier) == (n * Factor(u, multiplier)) as real
  {
    CastProduct(n, Factor(u, multiplier));
  }

  lemma DecimalOfNat(n: nat)
    ensures DecimalValue(NatToString(n), "") == n as real
  {
    NatToStringValue(n);
  }

  lemma CastProduct(a: int, b: int)
    ensures (a * b) as real == a as real * b as real
  {
  }

  /** An integer with a suffix reads as the integer times the unit's factor. */
  lemma MemorySizeOfInteger(n: nat, u: Unit, converter: Converter, multiplier: int)
    ensures MemorySize(NatToString(n) + Suffix(u), converter, multiplier) == Success((n * Factor(u, multiplier)) as real)
  {
    MatchOfInteger(n, u);
    MemorySizeOfMatch(NatToString(n) + Suffix(u), Magnitude(NatToString(n), false, "", u), converter, multiplier);
    ValueOfInteger(n, u, multiplier);
  }

  /** With `int` the value is a whole number, as `int(base) * multiplier ...` is. */
  lemma MemorySizeIntIsWhole(value: string, multiplier: int)
    requires MemorySize(value, ToInt, multiplier).Success?
    ensures var v := MemorySize(value, ToInt, multiplier).value; v == v.Floor as real
  {
    var mag := Match(value).value;
    var b := DigitsValue(mag.whole);
    var k := b * Factor(mag.unit, multiplier);
    assert DecimalValue(mag.whole, mag.frac) == b as real by {
      assert !mag.point && mag.frac == [];
    }
    CastProduct(b, Factor(mag.unit, multiplier));
    assert Value(mag, multiplier) == k as real;
  }

  lemma ValueOfParts(whole: string, point: bool, frac: string, u: Unit, multiplier: int)
    requires WellFormed(Magnitude(whole, point, frac, u))
    ensures Value(Magnitude(whole, point, frac, u), multiplier) == DecimalValue(whole, frac) * Factor(u, multiplier) as real
  {
  }

  /** A decimal with a point is matched with its three parts. */
  lemma MatchOfDecimal(whole: string, frac: string, u: Unit)
    requires whole != [] && AllDigits(whole) && AllDigits(frac)
    ensures Match(whole + "." + frac + Suffix(u)) == Some(Magnitude(whole, true, frac, u))
  {
    var m := Magnitude(whole, true, frac, u);
    assert Render(m) == whole + "." + frac + Suffix(u);
    MatchRender(m);
  }

  /** With `float`, a decimal with a point is scaled the same way. */
  lemma MemorySizeOfDecimal(whole: string, frac: string, u: Unit, multiplier: int)
    requires whole != [] && AllDigits(whole) && AllDigits(frac)
    ensures MemorySize(whole + "." + frac + Suffix(u), ToFloat, multiplier)
         == Success(DecimalValue(whole, frac) * Factor(u, multiplier) as real)
  {
    var s, m := whole + "." + frac + Suffix(u), Magnitude(whole, true, frac, u);
    MatchOfDecimal(whole, frac, u);
    MemorySizeOfMatch(s, m, ToFloat, multiplier);
    ValueOfParts(whole, true, frac, u, multiplier);
  }

  /** `int()` refuses a base with a point, even when nothing follows it. */
  lemma MemorySizeIntRefusesPoint(whole: string, frac: string, u: Unit, multiplier: int)
    requires whole != [] && AllDigits(whole) && AllDigits(frac)
    ensures MemorySize(whole + "." + frac + Suffix(u), ToInt, multiplier) == Failure(NotAnInteger)
  {
    MatchOfDecimal(whole, frac, u);
  }

  /**
   * Texts the pattern refuses: the empty text, one not starting with a digit
   * (a leading point), one with any other character (a lower-case suffix), and
   * one with text after the unit letter.
   */
  lemma MemorySizeRejects(value: string, converter: Converter, multiplier: int)
    requires || value == []
             || !IsDigit(value[0])
             || (exists i :: 0 <= i < |value| && !IsSizeChar(value[i]))
             || (exists i :: 0 <= i < |value| - 1 && IsUnitChar(value[i]))
    ensures MemorySize(value, converter, multiplier) == Failure(WrongFormat)
  {
    if Match(value).Some? {
      MatchShape(value);
    }
  }

  /** The bandwidth option: `2K` with `int` and 1000 is 2000. */
  lemma BandwidthExample()
    ensures MemorySize("2K", ToInt, 1000) == Success(2000.0)
  {
    MemorySizeOfInteger(2, Kilo, ToInt, 1000);
    FactorLevels(1000);
    assert NatToString(2) + Suffix(Kilo) == "2K";
  }

  /** `1.5M` with `float` and 1024 is 1.5 * 1024 * 1024. */
  lemma DataSizeExample()
    ensures MemorySize("1.5M", ToFloat, 1024) == Success(1.5 * 1048576.0)
  {
    MemorySizeOfDecimal("1", "5", Mega, 1024);
    FactorLevels(1024);
    assert "1" + "." + "5" + Suffix(Mega) == "1.5M";
    assert DecimalValue("1", "5") == 1.5;
  }
}
