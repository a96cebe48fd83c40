/**
 * The date normaliser of the cleaner: `datetime.strptime` restricted to the eleven
 * formats the cleaner tries, the ordinal-suffix retry, and `strftime('%Y-%m-%d')`.
 *
 * `strptime` compiles a format into a regular expression (case-insensitive, a blank
 * in the format matching `\s+`), requires it to consume the whole input, then builds
 * a date, which fails for year 0 or a day past the end of its month. Each directive
 * below follows the alternatives of that regular expression: trying them in the
 * regex's order without backtracking into earlier directives gives the same outcome,
 * because no directive that follows a numeric field can start with a digit.
 */
module Dates {
  import opened Wrappers
  import opened Text
  import opened Decimal

  datatype Directive =
    | Year            // %Y: exactly four digits
    | MonthNumber     // %m: 1[0-2] | 0[1-9] | [1-9]
    | Day             // %d: 3[01] | [12]\d | 0[1-9] | [1-9] | ' '[1-9]
    | MonthName       // %B: a full English month name, in any case
    | MonthAbbrev     // %b: an English three-letter month abbreviation, in any case
    | Literal(c: char)
    | Gap             // a blank in the format: one or more whitespace characters

  type Format = seq<Directive>

  const IsoDash: Format := [Year, Literal('-'), MonthNumber, Literal('-'), Day]            // %Y-%m-%d
  const DayDash: Format := [Day, Literal('-'), MonthNumber, Literal('-'), Year]            // %d-%m-%Y
  const MonthSlash: Format := [MonthNumber, Literal('/'), Day, Literal('/'), Year]         // %m/%d/%Y
  const DaySlash: Format := [Day, Literal('/'), MonthNumber, Literal('/'), Year]           // %d/%m/%Y
  const YearSlash: Format := [Year, Literal('/'), MonthNumber, Literal('/'), Day]          // %Y/%m/%d
  const DayMonthName: Format := [Day, Gap, MonthName, Gap, Year]                           // %d %B %Y
  const DayMonthAbbrev: Format := [Day, Gap, MonthAbbrev, Gap, Year]                       // %d %b %Y
  const MonthNameDay: Format := [MonthName, Gap, Day, Literal(','), Gap, Year]             // %B %d, %Y
  const MonthAbbrevDay: Format := [MonthAbbrev, Gap, Day, Literal(','), Gap, Year]         // %b %d, %Y
  const DayAbbrevDash: Format := [Day, Literal('-'), MonthAbbrev, Literal('-'), Year]      // %d-%b-%Y
  const DayDot: Format := [Day, Literal('.'), MonthNumber, Literal('.'), Year]             // %d.%m.%Y

  /** The formats of clean/cleaner.py, in the order they are tried. */
  const DateFormats: seq<Format> := [
    IsoDash, DayDash, MonthSlash, DaySlash, YearSlash, DayMonthName, DayMonthAbbrev,
    MonthNameDay, MonthAbbrevDay, DayAbbrevDash, DayDot
  ]

  const MonthNames: seq<string> := [
    "january", "february", "march", "april", "may", "june", "july",
    "august", "september", "october", "november", "december"
  ]

  const MonthAbbrevs: seq<string> := [
    "jan", "feb", "mar", "apr", "may", "jun", "jul", "aug", "sep", "oct", "nov", "dec"
  ]

  /** The fields a match fills in; `strptime` starts from 1900-01-01. */
  datatype Fields = Fields(year: int, month: int, day: int)

  const Unset := Fields(1900, 1, 1)

  predicate IsLeapYear(y: int) {
    (y % 4 == 0 && y % 100 != 0) || y % 400 == 0
  }

  function DaysInMonth(y: int, m: int): int
    requires 1 <= m <= 12
  {
    if m == 2 then (if IsLeapYear(y) then 29 else 28)
    else if m == 4 || m == 6 || m == 9 || m == 11 then 30
    else 31
  }

  /** What `datetime` accepts: year 1..9999, month 1..12, day within its month. */
  predicate IsValidDate(f: Fields) {
    1 <= f.year <= 9999 && 1 <= f.month <= 12 && 1 <= f.day <= DaysInMonth(f.year, f.month)
  }

  /** A matched number and how many characters it used. */
  datatype Number = Number(value: nat, width: nat)

  function TwoDigits(s: string): nat
    requires |s| >= 2 && IsDigit(s[0]) && IsDigit(s[1])
  {
    DigitValue(s[0]) * 10 + DigitValue(s[1])
  }

  /** The `%m` alternatives, tried in order. */
  function MatchMonthNumber(s: string): (r: Option<Number>)
    ensures r.Some? ==> 1 <= r.value.value <= 12 && 1 <= r.value.width <= |s|
  {
    if |s| >= 2 && IsDigit(s[0]) && IsDigit(s[1]) && 1 <= TwoDigits(s) <= 12 then Some(Number(TwoDigits(s), 2))
    else if |s| >= 1 && '1' <= s[0] <= '9' then Some(Number(DigitValue(s[0]), 1))
    else None
  }

  /** The `%d` alternatives, tried in order, including the blank-then-digit one. */
  function MatchDay(s: string): (r: Option<Number>)
    ensures r.Some? ==> 1 <= r.value.value <= 31 && 1 <= r.value.width <= |s|
  {
    if |s| >= 2 && IsDigit(s[0]) && IsDigit(s[1]) && 1 <= TwoDigits(s) <= 31 then Some(Number(TwoDigits(s), 2))
    else if |s| >= 1 && '1' <= s[0] <= '9' then Some(Number(DigitValue(s[0]), 1))
    else if |s| >= 2 && s[0] == ' ' && '1' <= s[1] <= '9' then Some(Number(DigitValue(s[1]), 2))
    else None
  }

  /** The first name (month index from 1) that starts `s`, ignoring case. */
  function MatchName(s: string, names: seq<string>, k: nat): (r: Option<Number>)
    requires k <= |names|
    ensures r.Some? ==> r.value.width <= |s|
    decreases |names| - k
  {
    if k == |names| then None
    else if |names[k]| <= |s| && LowerStr(s[..|names[k]|]) == names[k] then Some(Number(k + 1, |names[k]|))
    else MatchName(s, names, k + 1)
  }

  /** The compiled regular expression of `fmt`, anchored at both ends, filling `f`. */
  function Match(fmt: Format, s: string, f: Fields): Option<Fields>
    decreases |fmt|
  {
    if fmt == [] then (if s == [] then Some(f) else None)
    else match fmt[0]
      case Year =>
        if |s| >= 4 && AllDigits(s[..4]) then Match(fmt[1..], s[4..], f.(year := ValueOf(s[..4]))) else None
      case MonthNumber =>
        (match MatchMonthNumber(s)
         case None => None
         case Some(n) => Match(fmt[1..], s[n.width..], f.(month := n.value)))
      case Day =>
        (match MatchDay(s)
         case None => None
         case Some(n) => Match(fmt[1..], s[n.width..], f.(day := n.value)))
      case MonthName =>
        (match MatchName(s, MonthNames, 0)
         case None => None
         case Some(n) => Match(fmt[1..], s[n.width..], f.(month := n.value)))
      case MonthAbbrev =>
        (match MatchName(s, MonthAbbrevs, 0)
         case None => None
         case Some(n) => Match(fmt[1..], s[n.width..], f.(month := n.value)))
      case Literal(c) =>
        if s != [] && s[0] == c then Match(fmt[1..], s[1..], f) else None
      case Gap =>
        var n := SpaceRun(s);
        if n == 0 then None else Match(fmt[1..], s[n..], f)
  }

  /** `datetime.strptime(s, fmt)`: None stands for the ValueError. */
  function Strptime(fmt: Format, s: string): (r: Option<Fields>)
    ensures r.Some? ==> IsValidDate(r.value)
  {
    var m := Match(fmt, s, Unset);
    if m.Some? && IsValidDate(m.value) then m else None
  }

  /** The loop over formats with early return: the first format that parses decides. */
  function TryFormats(fmts: seq<Format>, s: string): (r: Option<Fields>)
    ensures r.None? <==> forall i :: 0 <= i < |fmts| ==> Strptime(fmts[i], s).None?
    ensures r.Some? ==> exists i :: 0 <= i < |fmts| && Strptime(fmts[i], s) == r
                                    && forall j :: 0 <= j < i ==> Strptime(fmts[j], s).None?
  {
    if fmts == [] then None
    else
      var r := Strptime(fmts[0], s);
      if r.Some? then r
      else
        var rest := TryFormats(fmts[1..], s);
        assert forall i :: 1 <= i < |fmts| ==> fmts[i] == fmts[1..][i - 1];
        rest
  }

  /** `dt.strftime('%Y-%m-%d')` */
  function IsoText(f: Fields): (s: string)
    requires IsValidDate(f)
  {
    Pad4(f.year) + "-" + Pad2(f.month) + "-" + Pad2(f.day)
  }

  /** The canonical form the cleaner emits: `YYYY-MM-DD` naming a real calendar date. */
  predicate IsIsoDate(s: string) {
    && |s| == 10 && s[4] == '-' && s[7] == '-'
    && AllDigits(s[..4]) && AllDigits(s[5..7]) && AllDigits(s[8..])
    && IsValidDate(Fields(ValueOf(s[..4]), ValueOf(s[5..7]), ValueOf(s[8..])))
  }

  lemma IsoTextIsIso(f: Fields)
    requires IsValidDate(f)
    ensures IsIsoDate(IsoText(f))
  {
    var s := IsoText(f);
    assert s[..4] == Pad4(f.year);
    assert s[5..7] == Pad2(f.month);
    assert s[8..] == Pad2(f.day);
  }

  predicate IsOrdinalSuffix(s: string) {
    s == "st" || s == "nd" || s == "rd" || s == "th"
  }

  /** Some digit is directly followed by an ordinal suffix. */
  predicate HasOrdinal(s: string) {
    exists i :: 0 <= i < |s| - 2 && IsDigit(s[i]) && IsOrdinalSuffix(s[i + 1..i + 3])
  }

  /**
   * `re.sub(r'(\d+)(st|nd|rd|th)', r'\1', s)`: a suffix is dropped when it directly
   * follows a digit; scanning resumes after the dropped suffix. The text changes exactly
   * when it holds such a suffix.
   */
  function StripOrdinals(s: string): (r: string)
    ensures |r| <= |s|
    ensures !HasOrdinal(s) ==> r == s
    ensures HasOrdinal(s) ==> |r| < |s|
  {
    if |s| < 3 then s
    else if IsDigit(s[0]) && IsOrdinalSuffix(s[1..3]) then [s[0]] + StripOrdinals(s[3..])
    else
      OrdinalInTail(s);
      [s[0]] + StripOrdinals(s[1..])
  }

  /** A digit followed by an ordinal suffix loses the suffix. */
  lemma StripOrdinalsSuffix(d: char, x: string)
    requires IsDigit(d) && IsOrdinalSuffix(x)
    ensures StripOrdinals([d] + x) == [d]
  {
    var s := [d] + x;
    assert s[1..3] == x && s[3..] == [];
  }

  /**
   * The substitution works piece by piece when neither of the first piece's last two
   * characters is a digit, so no match straddles the seam.
   */
  lemma {:induction false} StripOrdinalsAppend(a: string, b: string)
    requires |a| < 1 || !IsDigit(a[|a| - 1])
    requires |a| < 2 || !IsDigit(a[|a| - 2])
    ensures StripOrdinals(a + b) == StripOrdinals(a) + StripOrdinals(b)
  {
    if a == [] {
      assert a + b == b;
    } else if |a + b| < 3 {
      assert StripOrdinals(a + b) == a + b && StripOrdinals(a) == a && StripOrdinals(b) == b;
    } else if |a| >= 3 && IsDigit(a[0]) && IsOrdinalSuffix(a[1..3]) {
      var t := a[3..];
      assert t == [] || (t[|t| - 1] == a[|a| - 1] && (|t| < 2 || t[|t| - 2] == a[|a| - 2]));
      StripOrdinalsAppend(t, b);
      SkipAppend(a, b);
    } else {
      var t := a[1..];
      assert t == [] || (t[|t| - 1] == a[|a| - 1] && (|t| < 2 || t[|t| - 2] == a[|a| - 2]));
      StripOrdinalsAppend(t, b);
      HeadAppend(a, b);
    }
  }

  /** The step of StripOrdinalsAppend where `a` starts with a digit and a suffix. */
  lemma SkipAppend(a: string, b: string)
    requires |a| >= 3 && IsDigit(a[0]) && IsOrdinalSuffix(a[1..3])
    requires StripOrdinals(a[3..] + b) == StripOrdinals(a[3..]) + StripOrdinals(b)
    ensures StripOrdinals(a + b) == StripOrdinals(a) + StripOrdinals(b)
  {
    SkipOfAppend(a, b);
    StripOrdinalsSkip(a);
    ConsAssoc(a[0], StripOrdinals(a[3..]), StripOrdinals(b));
  }

  lemma SkipOfAppend(a: string, b: string)
    requires |a| >= 3 && IsDigit(a[0]) && IsOrdinalSuffix(a[1..3])
    ensures StripOrdinals(a + b) == [a[0]] + StripOrdinals(a[3..] + b)
  {
    var s := a + b;
    assert s[0] == a[0] && s[1..3] == a[1..3] && s[3..] == a[3..] + b;
  }

  /** The step of StripOrdinalsAppend where the first character of `a` stays put. */
  lemma HeadAppend(a: string, b: string)
    requires a != [] && |a + b| >= 3 && !(|a| >= 3 && IsDigit(a[0]) && IsOrdinalSuffix(a[1..3]))
    requires |a| < 3 ==> !IsDigit(a[0])
    requires StripOrdinals(a[1..] + b) == StripOrdinals(a[1..]) + StripOrdinals(b)
    ensures StripOrdinals(a + b) == StripOrdinals(a) + StripOrdinals(b)
  {
    HeadOfAppend(a, b);
    StripOrdinalsHead(a);
    ConsAssoc(a[0], StripOrdinals(a[1..]), StripOrdinals(b));
  }

  lemma HeadOfAppend(a: string, b: string)
    requires a != [] && |a + b| >= 3 && !(|a| >= 3 && IsDigit(a[0]) && IsOrdinalSuffix(a[1..3]))
    requires |a| < 3 ==> !IsDigit(a[0])
    ensures StripOrdinals(a + b) == [a[0]] + StripOrdinals(a[1..] + b)
  {
    var s := a + b;
    assert s[0] == a[0] && s[1..] == a[1..] + b;
    if |a| >= 3 {
      assert s[1..3] == a[1..3];
    }
  }

  lemma ConsAssoc(c: char, x: string, y: string)
    ensures [c] + (x + y) == ([c] + x) + y
  {
  }

  /** A digit and a suffix at the front: the digit stays, the suffix goes. */
  lemma StripOrdinalsSkip(s: string)
    requires |s| >= 3 && IsDigit(s[0]) && IsOrdinalSuffix(s[1..3])
    ensures StripOrdinals(s) == [s[0]] + StripOrdinals(s[3..])
  {
  }

  /** When `a` does not start with a digit and a suffix, its first character stays put. */
  lemma StripOrdinalsHead(a: string)
    requires a != [] && !(|a| >= 3 && IsDigit(a[0]) && IsOrdinalSuffix(a[1..3]))
    ensures StripOrdinals(a) == [a[0]] + StripOrdinals(a[1..])
  {
    if |a| < 3 {
      assert StripOrdinals(a[1..]) == a[1..];
    }
  }

  /** Without a suffix after its first character, `s` holds one exactly when its tail does. */
  lemma OrdinalInTail(s: string)
    requires |s| >= 3 && !(IsDigit(s[0]) && IsOrdinalSuffix(s[1..3]))
    ensures HasOrdinal(s) <==> HasOrdinal(s[1..])
  {
    var t := s[1..];
    if HasOrdinal(s) {
      var i :| 0 <= i < |s| - 2 && IsDigit(s[i]) && IsOrdinalSuffix(s[i + 1..i + 3]);
      assert t[i - 1] == s[i] && t[i..i + 2] == s[i + 1..i + 3];
    }
    if HasOrdinal(t) {
      var j :| 0 <= j < |t| - 2 && IsDigit(t[j]) && IsOrdinalSuffix(t[j + 1..j + 3]);
      assert t[j] == s[j + 1] && t[j + 1..j + 3] == s[j + 2..j + 4];
    }
  }

  /**
   * `_clean_date` as a value: None for a falsy input; otherwise the first format that
   * parses the stripped text, else the first that parses it with ordinals removed.
   */
  function NormalizeDate(dateStr: Option<string>): (r: Option<string>)
    ensures r.Some? ==> IsIsoDate(r.value)
    ensures dateStr.None? || dateStr.value == [] ==> r.None?
  {
    if dateStr.None? || dateStr.value == [] then None
    else
      var s := Strip(dateStr.value);
      match IsoReading(s)
      case Some(iso) => Some(iso)
      case None => IsoReading(StripOrdinals(s))
  }

  /** The ISO text of the first format in the list that parses `s`. */
  function IsoReading(s: string): (r: Option<string>)
    ensures r.Some? ==> IsIsoDate(r.value)
  {
    match TryFormats(DateFormats, s)
    case Some(f) => IsoTextIsIso(f); Some(IsoText(f))
    case None => None
  }

  function IsoFields(s: string): Fields
    requires IsIsoDate(s)
  {
    Fields(ValueOf(s[..4]), ValueOf(s[5..7]), ValueOf(s[8..]))
  }

  lemma IsoFormatReads(s: string)
    requires IsIsoDate(s)
    ensures Strptime(IsoDash, s) == Some(IsoFields(s))
  {
    var f := IsoFields(s);
    ValueOfTwo(s[5..7]);
    ValueOfTwo(s[8..]);
    var m, d := s[5..], s[8..];
    assert m[..2] == s[5..7] && d == s[8..10];
    assert MatchMonthNumber(m) == Some(Number(f.month, 2));
    assert MatchDay(d) == Some(Number(f.day, 2));
    var fmt := IsoDash;
    assert Match(fmt[4..], d, Unset.(year := f.year).(month := f.month)) == Some(f);
    assert Match(fmt[3..], s[7..], Unset.(year := f.year).(month := f.month)) == Some(f);
    assert Match(fmt[2..], m, Unset.(year := f.year)) == Some(f);
    assert Match(fmt[1..], s[4..], Unset.(year := f.year)) == Some(f);
  }

  lemma IsoTextOfFields(s: string)
    requires IsIsoDate(s)
    ensures IsoText(IsoFields(s)) == s
  {
    Pad4OfValue(s[..4]);
    Pad2OfValue(s[5..7]);
    Pad2OfValue(s[8..]);
    assert s[..4] + "-" + s[5..7] + "-" + s[8..] == s;
  }

  /** A canonical date is left unchanged: the ISO format is tried first and reads it back. */
  lemma IsoDateIsFixed(s: string)
    requires IsIsoDate(s)
    ensures NormalizeDate(Some(s)) == Some(s)
  {
    IsoReadsBack(s);
    ReadingDecides(s);
  }

  /** Stripping leaves a canonical date alone, and the ISO format then reads it back. */
  lemma IsoReadsBack(s: string)
    requires IsIsoDate(s)
    ensures IsoReading(Strip(s)) == Some(s)
  {
    IsoIsStripped(s);
    IsoReadsItself(s);
  }

  /** When the stripped text parses, the ordinal retry is never reached. */
  lemma ReadingDecides(t: string)
    requires t != [] && IsoReading(Strip(t)).Some?
    ensures NormalizeDate(Some(t)) == IsoReading(Strip(t))
  {
  }

  lemma IsoIsStripped(s: string)
    requires IsIsoDate(s)
    ensures Strip(s) == s
  {
    assert IsDigit(s[0]) && IsDigit(s[9]);
  }

  /** The first format, `%Y-%m-%d`, reads a canonical date and writes it back unchanged. */
  lemma IsoReadsItself(s: string)
    requires IsIsoDate(s)
    ensures IsoReading(s) == Some(s)
  {
    IsoFormatReads(s);
    FirstFormatWins(DateFormats, s, 0);
    IsoTextOfFields(s);
  }

  /** In a list of formats, the first that parses decides, whatever the later ones say. */
  lemma FirstFormatWins(fmts: seq<Format>, s: string, i: nat)
    requires i < |fmts| && Strptime(fmts[i], s).Some?
    requires forall j :: 0 <= j < i ==> Strptime(fmts[j], s).None?
    ensures TryFormats(fmts, s) == Strptime(fmts[i], s)
  {
  }

  /** One or two leading digits, the two-digit reading a month, then the character `c`. */
  predicate MonthPrefix(s: string, c: char) {
    && |s| >= 2 && IsDigit(s[0])
    && (s[1] == c || (|s| >= 3 && IsDigit(s[1]) && s[2] == c && 1 <= TwoDigits(s) <= 12))
  }

  /** A format that starts `%m` and a literal character matches only such a prefix. */
  lemma MonthThenLiteral(fmt: Format, s: string, f: Fields, c: char)
    requires |fmt| >= 2 && fmt[0] == MonthNumber && fmt[1] == Literal(c)
    requires Match(fmt, s, f).Some?
    ensures MonthPrefix(s, c)
  {
    var n := MatchMonthNumber(s).value;
    var t := s[n.width..];
    assert Match(fmt[1..], t, f.(month := n.value)).Some?;
    assert fmt[1..][0] == Literal(c);
    assert t != [] && t[0] == c;
    if |s| >= 2 && IsDigit(s[0]) && IsDigit(s[1]) && 1 <= TwoDigits(s) <= 12 {
      assert n.width == 2 && s[2] == t[0];
    } else {
      assert n.width == 1 && s[1] == t[0];
    }
  }

  /** A format that starts `%Y` needs four leading digits, which such a prefix lacks. */
  lemma YearRejectsMonthPrefix(fmt: Format, s: string, f: Fields, c: char)
    requires fmt != [] && fmt[0] == Year && !IsDigit(c) && MonthPrefix(s, c)
    ensures Match(fmt, s, f).None?
  {
    if |s| >= 4 {
      assert !AllDigits(s[..4]) by {
        if s[1] == c { assert s[..4][1] == c; } else { assert s[..4][2] == c; }
      }
    }
  }

  /**
   * A format that starts `%d` and the literal `d` reads the same digits as a day, since
   * every month number is a day number, and then finds `c` instead of `d`.
   */
  lemma DayRejectsMonthPrefix(fmt: Format, s: string, f: Fields, c: char, d: char)
    requires |fmt| >= 2 && fmt[0] == Day && fmt[1] == Literal(d)
    requires c != d && !IsDigit(c) && MonthPrefix(s, c)
    ensures Match(fmt, s, f).None?
  {
    assert fmt[1..][0] == Literal(d);
    match MatchDay(s)
    case None =>
    case Some(n) =>
      assert s[n.width] == c;
      assert s[n.width..][0] == c;
  }

  lemma FormatsInOrder()
    ensures DateFormats[0] == IsoDash && DateFormats[1] == DayDash && DateFormats[2] == MonthSlash
  {
  }

  /**
   * Whenever `%m/%d/%Y` reads a text, that reading is the cleaner's: `%d/%m/%Y`, later
   * in the list, is never consulted, even when it would also parse.
   */
  lemma MonthFirstWins(s: string)
    requires Strptime(MonthSlash, s).Some?
    ensures TryFormats(DateFormats, s) == Strptime(MonthSlash, s)
  {
    MonthThenLiteral(MonthSlash, s, Unset, '/');
    YearRejectsMonthPrefix(IsoDash, s, Unset, '/');
    DayRejectsMonthPrefix(DayDash, s, Unset, '/', '-');
    FormatsInOrder();
    FirstFormatWins(DateFormats, s, 2);
  }

  /** So `_clean_date` turns an ambiguous slash date into its month-first reading. */
  lemma MonthFirstNormalizes(s: string)
    requires s != [] && NotPadded(s) && Strptime(MonthSlash, s).Some?
    ensures NormalizeDate(Some(s)) == Some(IsoText(Strptime(MonthSlash, s).value))
  {
    MonthFirstWins(s);
  }

  /** The loop of `_clean_date`: the format list is scanned, then scanned again without ordinals. */
  method CleanDate(dateStr: Option<string>) returns (r: Option<string>)
    ensures r == NormalizeDate(dateStr)
  {
    if dateStr.None? || dateStr.value == [] {
      return None;
    }
    var s := Strip(dateStr.value);
    r := ScanFormats(s);
    if r.None? {
      var cleaned := StripOrdinals(s);
      r := ScanFormats(cleaned);
    }
  }

  /** One `for fmt in date_formats` loop, returning at the first format that parses. */
  method ScanFormats(s: string) returns (r: Option<string>)
    ensures r == IsoReading(s)
  {
    var parsed := FirstParse(DateFormats, s);
    if parsed.Some? {
      return Some(IsoText(parsed.value));
    }
    return None;
  }

  /** The `for fmt in date_formats` loop: the first format that parses wins. */
  method FirstParse(fmts: seq<Format>, s: string) returns (parsed: Option<Fields>)
    ensures parsed == TryFormats(fmts, s)
  {
    var i := 0;
    while i < |fmts|
      invariant 0 <= i <= |fmts|
      invariant TryFormats(fmts, s) == TryFormats(fmts[i..], s)
    {
      assert fmts[i..][1..] == fmts[i + 1..];
      var attempt := Strptime(fmts[i], s);
      if attempt.Some? {
        return attempt;
      }
      i := i + 1;
    }
    return None;
  }
}
