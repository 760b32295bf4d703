/**
 * The handful of Python `str` operations both jobs rely on: decimal digits,
 * `str(int)`, `strip()`, `split(' ')`, `sep.join(...)`, `upper()` and `lower()`.
 */
module Text {

  // ----- digits and str(int) -----

  predicate IsDigit(c: char) {
    '0' <= c <= '9'
  }

  predicate AllDigits(s: string) {
    forall i :: 0 <= i < |s| ==> IsDigit(s[i])
  }

  function DigitValue(c: char): (d: nat)
    requires IsDigit(c)
    ensures d < 10
  {
    c as int - '0' as int
  }

  function DigitChar(d: nat): (c: char)
    requires d < 10
    ensures IsDigit(c) && DigitValue(c) == d
  {
    ('0' as int + d) as char
  }

  function Pow10(n: nat): (p: nat)
    ensures p >= 1
  {
    if n == 0 then 1 else 10 * Pow10(n - 1)
  }

  /** The number a string of decimal digits denotes, most significant digit first. */
  function DigitsValue(s: string): nat
    requires AllDigits(s)
  {
    if s == [] then 0 else DigitsValue(s[..|s| - 1]) * 10 + DigitValue(s[|s| - 1])
  }

  /** Reading a concatenation of digit strings: the left part is shifted by the length of the right. */
  lemma {:induction false} DigitsValueAppend(a: string, b: string)
    requires AllDigits(a) && AllDigits(b)
    ensures AllDigits(a + b)
    ensures DigitsValue(a + b) == DigitsValue(a) * Pow10(|b|) + DigitsValue(b)
  {
    if b == [] {
      assert a + b == a;
    } else {
      var b' := b[..|b| - 1];
      assert (a + b)[..|a + b| - 1] == a + b';
      assert (a + b)[|a + b| - 1] == b[|b| - 1];
      DigitsValueAppend(a, b');
      assert AllDigits(a + b') && AllDigits(a + b);
      var x, y, p, d := DigitsValue(a), DigitsValue(b'), Pow10(|b'|), DigitValue(b[|b| - 1]);
      assert DigitsValue(a + b) == DigitsValue(a + b') * 10 + d;
      assert DigitsValue(b) == y * 10 + d;
      assert Pow10(|b|) == p * 10;
      ShiftStep(x, y, p, d);
    }
  }

  lemma ShiftStep(x: int, y: int, p: int, d: int)
    ensures (x * p + y) * 10 + d == x * (p * 10) + (y * 10 + d)
  {
  }

  /** Python's `str(n)` for a non-negative integer. */
  function NatToString(n: nat): (s: string)
    ensures |s| >= 1 && AllDigits(s)
  {
    if n < 10 then [DigitChar(n)] else NatToString(n / 10) + [DigitChar(n % 10)]
  }

  /** `str(n)` reads back as `n`. */
  lemma {:induction false} NatToStringValue(n: nat)
    ensures DigitsValue(NatToString(n)) == n
  {
    if n >= 10 {
      var s := NatToString(n);
      assert s[..|s| - 1] == NatToString(n / 10);
      NatToStringValue(n / 10);
    }
  }

  /** Python's `str(i)` for any integer: a minus sign before the digits of a negative one. */
  function IntToString(i: int): (s: string)
    ensures i >= 0 ==> s == NatToString(i)
    ensures i < 0 ==> s == "-" + NatToString(-i)
  {
    if i < 0 then "-" + NatToString(-i) else NatToString(i)
  }

  // ----- whitespace and strip() -----

  /** The characters for which Python's `str.isspace()` holds. */
  predicate IsSpace(c: char) {
    || c == ' '
    || '\t' <= c <= '\r'
    || '\U{1C}' <= c <= '\U{1F}'
    || c == '\U{85}' || c == '\U{A0}' || c == '\U{1680}'
    || '\U{2000}' <= c <= '\U{200A}'
    || c == '\U{2028}' || c == '\U{2029}' || c == '\U{202F}' || c == '\U{205F}' || c == '\U{3000}'
  }

  predicate NoSpace(s: string) {
    forall i :: 0 <= i < |s| ==> !IsSpace(s[i])
  }

  /** `s` with its leading whitespace removed. */
  function TrimStart(s: string): (r: string)
    ensures |r| <= |s| && r == s[|s| - |r|..]
    ensures forall i :: 0 <= i < |s| - |r| ==> IsSpace(s[i])
    ensures r != [] ==> !IsSpace(r[0])
  {
    if s != [] && IsSpace(s[0]) then TrimStart(s[1..]) else s
  }

  /** `s` with its trailing whitespace removed. */
  function TrimEnd(s: string): (r: string)
    ensures |r| <= |s| && r == s[..|r|]
    ensures forall i :: |r| <= i < |s| ==> IsSpace(s[i])
    ensures r != [] ==> !IsSpace(r[|r| - 1])
  {
    if s != [] && IsSpace(s[|s| - 1]) then TrimEnd(s[..|s| - 1]) else s
  }

  /** Python's `s.strip()`: whitespace removed at both ends, nothing removed inside. */
  function Strip(s: string): (r: string)
    ensures |r| <= |s|
    ensures r != [] ==> !IsSpace(r[0]) && !IsSpace(r[|r| - 1])
  {
    TrimEnd(TrimStart(s))
  }

  /** A string that has no whitespace at either end is left alone by `strip()`. */
  lemma StripKeeps(s: string)
    requires s != [] ==> !IsSpace(s[0]) && !IsSpace(s[|s| - 1])
    ensures Strip(s) == s
  {
  }

  // ----- split() and join() -----

  /**
   * Python's `s.split(sep)` for a one-character separator: every occurrence
   * separates two fields, so adjacent separators give empty fields and the
   * empty string gives one empty field.
   */
  function Split(s: string, sep: char): (parts: seq<string>)
    ensures |parts| >= 1
    ensures forall i :: 0 <= i < |parts| ==> sep !in parts[i]
  {
    if s == [] then [""]
    else
      var init := Split(s[..|s| - 1], sep);
      var c := s[|s| - 1];
      if c == sep then init + [""] else init[..|init| - 1] + [init[|init| - 1] + [c]]
  }

  /** Python's `sep.join(parts)`. */
  function Join(parts: seq<string>, sep: string): (s: string)
  {
    if |parts| == 0 then ""
    else if |parts| == 1 then parts[0]
    else Join(parts[..|parts| - 1], sep) + sep + parts[|parts| - 1]
  }

  /** Joining one more field appends the separator and the field. */
  lemma JoinAppend(parts: seq<string>, p: string, sep: string)
    requires |parts| >= 1
    ensures Join(parts + [p], sep) == Join(parts, sep) + sep + p
  {
    assert (parts + [p])[..|parts|] == parts;
  }

  /** A join of several parts is the first part, the separator, then the join of the rest. */
  lemma {:induction false} JoinFirst(parts: seq<string>, sep: string)
    requires |parts| >= 2
    ensures Join(parts, sep) == parts[0] + sep + Join(parts[1..], sep)
  {
    var init, last := parts[..|parts| - 1], parts[|parts| - 1];
    if |parts| > 2 {
      JoinFirst(init, sep);
      assert init[1..] == parts[1..][..|parts| - 2];
      JoinAppend(init[1..], last, sep);
      assert init[1..] + [last] == parts[1..];
    } else {
      assert parts[1..] == [last];
    }
  }

  /** Extending the last field extends the joined string. */
  lemma JoinExtendLast(parts: seq<string>, c: char, sep: string)
    requires |parts| >= 1
    ensures Join(parts[..|parts| - 1] + [parts[|parts| - 1] + [c]], sep) == Join(parts, sep) + [c]
  {
    var init, last := parts[..|parts| - 1], parts[|parts| - 1];
    if |parts| > 1 {
      JoinAppend(init, last + [c], sep);
      JoinAppend(init, last, sep);
      assert init + [last] == parts;
    }
  }

  /** Joining the fields of a split with the same separator gives back the string. */
  lemma {:induction false} JoinSplit(s: string, sep: char)
    ensures Join(Split(s, sep), [sep]) == s
  {
    if s != [] {
      var s', c := s[..|s| - 1], s[|s| - 1];
      var init := Split(s', sep);
      JoinSplit(s', sep);
      assert s == s' + [c];
      if c == sep {
        JoinAppend(init, "", [sep]);
      } else {
        JoinExtendLast(init, c, [sep]);
      }
    }
  }

  /** A field free of the separator stays whole when split. */
  lemma {:induction false} SplitField(w: string, sep: char)
    requires sep !in w
    ensures Split(w, sep) == [w]
  {
    if w != [] {
      SplitField(w[..|w| - 1], sep);
      assert w == w[..|w| - 1] + [w[|w| - 1]];
    }
  }

  /** Splitting `t + sep + w`, with no separator in `w`, adds `w` as one more field. */
  lemma {:induction false} SplitAfterSeparator(t: string, sep: char, w: string)
    requires sep !in w
    ensures Split(t + [sep] + w, sep) == Split(t, sep) + [w]
  {
    if w == [] {
      assert t + [sep] + w == t + [sep];
      assert (t + [sep])[..|t|] == t;
    } else {
      var w' := w[..|w| - 1];
      assert (t + [sep] + w)[..|t + [sep] + w| - 1] == t + [sep] + w';
      SplitAfterSeparator(t, sep, w');
      assert w' + [w[|w| - 1]] == w;
    }
  }

  /** Splitting a join of separator-free fields gives back the fields. */
  lemma {:induction false} SplitJoin(parts: seq<string>, sep: char)
    requires |parts| >= 1
    requires forall i :: 0 <= i < |parts| ==> sep !in parts[i]
    ensures Split(Join(parts, [sep]), sep) == parts
  {
    if |parts| == 1 {
      SplitField(parts[0], sep);
    } else {
      var init := parts[..|parts| - 1];
      SplitJoin(init, sep);
      SplitAfterSeparator(Join(init, [sep]), sep, parts[|parts| - 1]);
      assert init + [parts[|parts| - 1]] == parts;
    }
  }

  // ----- case mapping -----

  function UpperChar(c: char): char {
    if 'a' <= c <= 'z' then (c as int - 32) as char else c
  }

  function LowerChar(c: char): char {
    if 'A' <= c <= 'Z' then (c as int + 32) as char else c
  }

  /** Python's `s.upper()` on ASCII letters. */
  function ToUpper(s: string): (r: string)
    ensures |r| == |s| && forall i :: 0 <= i < |s| ==> r[i] == UpperChar(s[i])
  {
    seq(|s|, i requires 0 <= i < |s| => UpperChar(s[i]))
  }

  /** Python's `s.lower()` on ASCII letters. */
  function ToLower(s: string): (r: string)
    ensures |r| == |s| && forall i :: 0 <= i < |s| ==> r[i] == LowerChar(s[i])
  {
    seq(|s|, i requires 0 <= i < |s| => LowerChar(s[i]))
  }
}
