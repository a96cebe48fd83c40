/**
 * Decimal digit strings: their value (Python's `int()` on a str), `str(n)`, and the
 * zero-padded fields `%m`, `%d` and `%Y` of `strftime`.
 */
module Decimal {
  import opened Wrappers
  import opened Text

  function DigitValue(c: char): nat
    requires IsDigit(c)
  {
    c as int - '0' as int
  }

  function DigitChar(d: nat): (c: char)
    requires d < 10
    ensures IsDigit(c) && DigitValue(c) == d
  {
    (d + '0' as int) as char
  }

  /** The number a non-empty or empty run of ASCII digits spells (leading zeros allowed). */
  function ValueOf(s: string): nat
    requires AllDigits(s)
  {
    if s == [] then 0 else ValueOf(s[..|s| - 1]) * 10 + DigitValue(s[|s| - 1])
  }

  lemma ValueOfAppend(s: string, c: char)
    requires AllDigits(s) && IsDigit(c)
    ensures ValueOf(s + [c]) == ValueOf(s) * 10 + DigitValue(c)
  {
    assert (s + [c])[..|s|] == s;
  }

  lemma ValueOfFour(s: string)
    requires |s| == 4 && AllDigits(s)
    ensures ValueOf(s) == ((DigitValue(s[0]) * 10 + DigitValue(s[1])) * 10 + DigitValue(s[2])) * 10 + DigitValue(s[3])
  {
    ValueOfAppend([], s[0]);
    assert [] + [s[0]] == [s[0]];
    ValueOfAppend([s[0]], s[1]);
    assert [s[0]] + [s[1]] == [s[0], s[1]];
    ValueOfAppend([s[0], s[1]], s[2]);
    assert [s[0], s[1]] + [s[2]] == [s[0], s[1], s[2]];
    ValueOfAppend([s[0], s[1], s[2]], s[3]);
    assert [s[0], s[1], s[2]] + [s[3]] == s;
  }

  lemma ValueOfTwo(s: string)
    requires |s| == 2 && AllDigits(s)
    ensures ValueOf(s) == DigitValue(s[0]) * 10 + DigitValue(s[1])
  {
    ValueOfAppend([], s[0]);
    assert [] + [s[0]] == [s[0]];
    ValueOfAppend([s[0]], s[1]);
    assert [s[0]] + [s[1]] == s;
  }

  /** `str(n)` for a natural number. */
  function Show(n: nat): (s: string)
    ensures s != [] && AllDigits(s)
    ensures ValueOf(s) == n
    ensures |s| > 1 ==> s[0] != '0'
  {
    if n < 10 then [DigitChar(n)]
    else
      var s := Show(n / 10) + [DigitChar(n % 10)];
      assert s[..|s| - 1] == Show(n / 10);
      s
  }

  /** Distinct numbers are shown as distinct strings. */
  lemma ShowInjective(m: nat, n: nat)
    requires Show(m) == Show(n)
    ensures m == n
  {
    assert ValueOf(Show(m)) == m;
  }

  /** Two-digit zero-padded field, as `%m` and `%d` print it. */
  function Pad2(n: nat): (s: string)
    requires n < 100
    ensures |s| == 2 && AllDigits(s) && ValueOf(s) == n
  {
    var s := [DigitChar(n / 10), DigitChar(n % 10)];
    ValueOfTwo(s);
    s
  }

  /** Four-digit zero-padded year. */
  function Pad4(n: nat): (s: string)
    requires n < 10000
    ensures |s| == 4 && AllDigits(s) && ValueOf(s) == n
  {
    var s := [DigitChar(n / 1000), DigitChar(n / 100 % 10), DigitChar(n / 10 % 10), DigitChar(n % 10)];
    ValueOfFour(s);
    assert n / 1000 * 10 + n / 100 % 10 == n / 100;
    assert n / 100 * 10 + n / 10 % 10 == n / 10;
    s
  }

  /** Padding undoes reading: a two-digit field is exactly `Pad2` of its value. */
  lemma Pad2OfValue(s: string)
    requires |s| == 2 && AllDigits(s)
    ensures ValueOf(s) < 100 && Pad2(ValueOf(s)) == s
  {
    ValueOfTwo(s);
    var v := ValueOf(s);
    assert v == DigitValue(s[0]) * 10 + DigitValue(s[1]);
    assert v / 10 == DigitValue(s[0]) && v % 10 == DigitValue(s[1]);
  }

  /** A four-digit field is exactly `Pad4` of its value. */
  lemma Pad4OfValue(s: string)
    requires |s| == 4 && AllDigits(s)
    ensures ValueOf(s) < 10000 && Pad4(ValueOf(s)) == s
  {
    ValueOfFour(s);
    FourDigits(DigitValue(s[0]), DigitValue(s[1]), DigitValue(s[2]), DigitValue(s[3]));
  }

  /** The decimal digits of a four-digit number, from the most significant. */
  lemma FourDigits(a: nat, b: nat, c: nat, d: nat)
    requires a < 10 && b < 10 && c < 10 && d < 10
    ensures var v := ((a * 10 + b) * 10 + c) * 10 + d;
      && v < 10000 && v / 1000 == a && v / 100 % 10 == b && v / 10 % 10 == c && v % 10 == d
  {
    var v := ((a * 10 + b) * 10 + c) * 10 + d;
    assert v / 10 == (a * 10 + b) * 10 + c && v % 10 == d;
    assert v / 100 == a * 10 + b;
    assert v / 1000 == a;
  }

  /** Digits and single underscores between digits, as `int()` accepts them. */
  predicate IsDigitGroups(s: string) {
    && s != []
    && IsDigit(s[0]) && IsDigit(s[|s| - 1])
    && (forall i :: 0 <= i < |s| ==> IsDigit(s[i]) || s[i] == '_')
    && (forall i :: 0 <= i < |s| - 1 ==> !(s[i] == '_' && s[i + 1] == '_'))
  }

  function DropUnderscores(s: string): (r: string)
    requires forall i :: 0 <= i < |s| ==> IsDigit(s[i]) || s[i] == '_'
    ensures AllDigits(r)
  {
    if s == [] then [] else (if s[0] == '_' then [] else [s[0]]) + DropUnderscores(s[1..])
  }

  /** The digits after an optional sign, as a signed number. */
  function SignedValue(t: string): Option<int> {
    if t != [] && (t[0] == '+' || t[0] == '-') then
      var body := t[1..];
      if IsDigitGroups(body) then
        var v: int := ValueOf(DropUnderscores(body));
        Some(if t[0] == '-' then -v else v)
      else None
    else if IsDigitGroups(t) then Some(ValueOf(DropUnderscores(t)))
    else None
  }

  /**
   * Python's `int(text)` for a str in base 10: surrounding whitespace, an optional sign,
   * then digits optionally grouped by single underscores; anything else is a ValueError (None).
   */
  function ParseInt(text: string): Option<int> {
    SignedValue(Strip(text))
  }

  /** A plain digit string reads as its value. */
  lemma ParseDigits(text: string)
    requires AllDigits(text) && text != []
    ensures ParseInt(text) == Some(ValueOf(text))
  {
    StripDigits(text);
    DigitsAreGroups(text);
    DropUnderscoresOfDigits(text);
    assert IsDigit(text[0]);
  }

  /** A digit string has no whitespace to strip. */
  lemma StripDigits(text: string)
    requires AllDigits(text) && text != []
    ensures Strip(text) == text
  {
    DigitIsNotSpace(text[0]);
    DigitIsNotSpace(text[|text| - 1]);
  }

  /** A digit string is a single digit group. */
  lemma DigitsAreGroups(text: string)
    requires AllDigits(text) && text != []
    ensures IsDigitGroups(text)
  {
    assert IsDigit(text[0]) && IsDigit(text[|text| - 1]);
    forall i | 0 <= i < |text| - 1 ensures !(text[i] == '_' && text[i + 1] == '_') {
      assert IsDigit(text[i]);
    }
  }

  lemma DigitIsNotSpace(c: char)
    requires IsDigit(c)
    ensures !IsSpace(c)
  {
  }

  lemma {:induction false} DropUnderscoresOfDigits(s: string)
    requires AllDigits(s)
    ensures DropUnderscores(s) == s
  {
    if s != [] {
      DropUnderscoresOfDigits(s[1..]);
    }
  }

  /** `int(str(n)) == n`. */
  lemma ParseShow(n: nat)
    ensures ParseInt(Show(n)) == Some(n)
  {
    ParseDigits(Show(n));
  }
}
