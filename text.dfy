/**
 * Character classes and the string operations the cleaner and the parser share:
 * Python's notion of whitespace, `re.sub(r'\s+', ' ', s)`, `str.strip()`,
 * ASCII lower-casing and substring containment.
 */
module Text {

  /** Python's `str.isspace()`, which is also the set `\s` matches in a str regex. */
  predicate IsSpace(c: char) {
    var n := c as int;
    n == 0x20 || 0x09 <= n <= 0x0D || 0x1C <= n <= 0x1F || n == 0x85 || n == 0xA0
    || n == 0x1680 || 0x2000 <= n <= 0x200A || n == 0x2028 || n == 0x2029
    || n == 0x202F || n == 0x205F || n == 0x3000
  }

  predicate IsDigit(c: char) { '0' <= c <= '9' }

  predicate IsLetter(c: char) { 'a' <= c <= 'z' || 'A' <= c <= 'Z' }

  predicate IsAlnum(c: char) { IsDigit(c) || IsLetter(c) }

  predicate AllDigits(s: string) { forall i :: 0 <= i < |s| ==> IsDigit(s[i]) }

  predicate HasDigit(s: string) { exists i :: 0 <= i < |s| && IsDigit(s[i]) }

  /** `c.lower()` on the ASCII letters. */
  function Lower(c: char): char {
    if 'A' <= c <= 'Z' then (c as int + 32) as char else c
  }

  function LowerStr(s: string): string {
    seq(|s|, i requires 0 <= i < |s| => Lower(s[i]))
  }

  predicate OccursAt(s: string, t: string, i: int) {
    0 <= i && i + |t| <= |s| && s[i..i + |t|] == t
  }

  /** Python's `t in s` for strings. */
  predicate Contains(s: string, t: string) {
    exists i :: 0 <= i <= |s| && OccursAt(s, t, i)
  }

  /** Every character is whitespace (vacuously true of ""). */
  predicate Blank(s: string) {
    forall i :: 0 <= i < |s| ==> IsSpace(s[i])
  }

  /** The length of the whitespace run that starts `s`: what a greedy `\s*` consumes. */
  function SpaceRun(s: string): (n: nat)
    ensures n <= |s|
  {
    if s != [] && IsSpace(s[0]) then 1 + SpaceRun(s[1..]) else 0
  }

  /** The only whitespace is the blank ' ', and no two whitespace characters are adjacent. */
  predicate Tidy(s: string) {
    && (forall i :: 0 <= i < |s| && IsSpace(s[i]) ==> s[i] == ' ')
    && (forall i, j :: 0 <= i < j < |s| && IsSpace(s[i]) && IsSpace(s[j]) ==> j > i + 1)
  }

  /** Neither end is whitespace: what `strip()` leaves. */
  predicate NotPadded(s: string) {
    s == [] || (!IsSpace(s[0]) && !IsSpace(s[|s| - 1]))
  }

  /** The shape of a cleaned text field: non-empty, stripped, tidy. */
  predicate IsCleanText(s: string) {
    s != [] && NotPadded(s) && Tidy(s)
  }

  /** The non-whitespace characters of `s`, in order: what cleaning must not touch. */
  function NonSpace(s: string): (r: string)
    ensures |r| <= |s|
    ensures r == [] <==> Blank(s)
    ensures forall i :: 0 <= i < |r| ==> !IsSpace(r[i])
  {
    if s == [] then []
    else if IsSpace(s[0]) then NonSpace(s[1..])
    else [s[0]] + NonSpace(s[1..])
  }

  /** `re.sub(r'\s+', ' ', s)`: a whitespace character is kept, as ' ', only when it ends its run. */
  function Collapse(s: string): (r: string)
    ensures |r| <= |s|
    ensures r == [] <==> s == []
    ensures r != [] ==> (IsSpace(r[0]) <==> IsSpace(s[0]))
    ensures r != [] ==> (IsSpace(r[|r| - 1]) <==> IsSpace(s[|s| - 1]))
  {
    if s == [] then []
    else if IsSpace(s[0]) then
      if |s| > 1 && IsSpace(s[1]) then Collapse(s[1..]) else [' '] + Collapse(s[1..])
    else [s[0]] + Collapse(s[1..])
  }

  /** The collapse leaves tidy text. */
  lemma {:induction false} CollapseIsTidy(s: string)
    ensures Tidy(Collapse(s))
  {
    if s != [] {
      CollapseIsTidy(s[1..]);
      var rest := Collapse(s[1..]);
      if IsSpace(s[0]) && !(|s| > 1 && IsSpace(s[1])) {
        ConsTidy(' ', rest);
      } else if !IsSpace(s[0]) {
        ConsTidy(s[0], rest);
      }
    }
  }

  /** Putting a character in front of tidy text keeps it tidy unless two blanks meet. */
  lemma ConsTidy(c: char, t: string)
    requires Tidy(t) && (IsSpace(c) ==> c == ' ')
    requires IsSpace(c) && t != [] ==> !IsSpace(t[0])
    ensures Tidy([c] + t)
  {
    var r := [c] + t;
    forall i, j | 0 <= i < j < |r| && IsSpace(r[i]) && IsSpace(r[j]) ensures j > i + 1 {
      assert r[j] == t[j - 1];
      if i > 0 {
        assert r[i] == t[i - 1];
      }
    }
  }

  /** A non-empty whitespace run collapses to one blank. */
  lemma {:induction false} CollapseBlank(w: string)
    requires w != [] && Blank(w)
    ensures Collapse(w) == " "
  {
    if |w| > 1 {
      CollapseBlank(w[1..]);
    }
  }

  /** A whitespace run before a word becomes one blank in front of the word's collapse. */
  lemma {:induction false} CollapseRun(w: string, b: string)
    requires w != [] && Blank(w)
    requires b == [] || !IsSpace(b[0])
    ensures Collapse(w + b) == [' '] + Collapse(b)
  {
    var s := w + b;
    assert s[0] == w[0] && s[1..] == w[1..] + b;
    if |w| > 1 {
      assert s[1] == w[1];
      CollapseRun(w[1..], b);
      assert Collapse(s) == Collapse(s[1..]);
    } else {
      assert s[1..] == b;
      assert Collapse(s) == [' '] + Collapse(s[1..]);
    }
  }

  /** `re.sub(r'\s+', ' ', "a \t b")` is `"a b"`. */
  lemma CollapseExample()
    ensures Collapse("a \t b") == "a b"
  {
    assert "a \t b" == "a" + (" \t " + "b");
    CollapseAppend("a", " \t " + "b");
    CollapseRun(" \t ", "b");
  }

  /**
   * The collapse works piece by piece when the first piece does not end in whitespace,
   * so no run straddles the seam.
   */
  lemma {:induction false} CollapseAppend(a: string, b: string)
    requires a == [] || !IsSpace(a[|a| - 1])
    ensures Collapse(a + b) == Collapse(a) + Collapse(b)
  {
    if a != [] {
      var s := a + b;
      assert s[0] == a[0] && s[1..] == a[1..] + b;
      CollapseAppend(a[1..], b);
      if !IsSpace(a[0]) {
        assert Collapse(s) == [a[0]] + Collapse(s[1..]);
        assert Collapse(a) == [a[0]] + Collapse(a[1..]);
      } else if IsSpace(a[1]) {
        assert s[1] == a[1];
        assert Collapse(s) == Collapse(s[1..]);
        assert Collapse(a) == Collapse(a[1..]);
      } else {
        assert s[1] == a[1];
        assert Collapse(s) == [' '] + Collapse(s[1..]);
        assert Collapse(a) == [' '] + Collapse(a[1..]);
      }
    } else {
      assert a + b == b;
    }
  }

  /** The collapse keeps the non-whitespace characters. */
  lemma {:induction false} CollapseNonSpace(s: string)
    ensures NonSpace(Collapse(s)) == NonSpace(s)
  {
    if s != [] {
      CollapseNonSpace(s[1..]);
      var rest := Collapse(s[1..]);
      if IsSpace(s[0]) && !(|s| > 1 && IsSpace(s[1])) {
        assert ([' '] + rest)[1..] == rest;
      } else if !IsSpace(s[0]) {
        assert ([s[0]] + rest)[1..] == rest;
      }
    }
  }

  /** Text that is already tidy is left alone by the collapse. */
  lemma {:induction false} CollapseTidy(s: string)
    requires Tidy(s)
    ensures Collapse(s) == s
  {
    if s != [] {
      var t := s[1..];
      TidyTail(s);
      CollapseTidy(t);
      TidyHead(s);
      CollapseFixedByTail(s);
    }
  }

  /** A tidy text's first whitespace character is a blank followed by a non-blank. */
  lemma TidyHead(s: string)
    requires Tidy(s) && s != []
    ensures IsSpace(s[0]) ==> s[0] == ' ' && (|s| > 1 ==> !IsSpace(s[1]))
  {
    if IsSpace(s[0]) && |s| > 1 {
      assert 0 < 1 < |s|;
    }
  }

  /**
   * When the collapse leaves the tail alone and the first character does not start a
   * whitespace run, it leaves the whole text alone.
   */
  lemma CollapseFixedByTail(s: string)
    requires s != [] && Collapse(s[1..]) == s[1..]
    requires IsSpace(s[0]) ==> s[0] == ' ' && (|s| > 1 ==> !IsSpace(s[1]))
    ensures Collapse(s) == s
  {
    assert [s[0]] + s[1..] == s;
  }

  /** Dropping the first character keeps text tidy. */
  lemma TidyTail(s: string)
    requires Tidy(s) && s != []
    ensures Tidy(s[1..])
  {
    var t := s[1..];
    forall i | 0 <= i < |t| && IsSpace(t[i]) ensures t[i] == ' ' {
      assert t[i] == s[i + 1];
    }
    forall i, j | 0 <= i < j < |t| && IsSpace(t[i]) && IsSpace(t[j]) ensures j > i + 1 {
      assert t[i] == s[i + 1] && t[j] == s[j + 1];
    }
  }

  /** `s.lstrip()` */
  function StripLeading(s: string): (r: string)
    ensures |r| <= |s| && r == s[|s| - |r|..]
    ensures r == [] || !IsSpace(r[0])
  {
    if s != [] && IsSpace(s[0]) then StripLeading(s[1..]) else s
  }

  lemma {:induction false} StripLeadingNonSpace(s: string)
    ensures NonSpace(StripLeading(s)) == NonSpace(s)
  {
    if s != [] && IsSpace(s[0]) {
      StripLeadingNonSpace(s[1..]);
    }
  }

  /** A slice of tidy text is tidy. */
  lemma TidySlice(s: string, lo: nat, hi: nat)
    requires lo <= hi <= |s| && Tidy(s)
    ensures Tidy(s[lo..hi])
  {
    var t := s[lo..hi];
    forall i, j | 0 <= i < j < |t| && IsSpace(t[i]) && IsSpace(t[j]) ensures j > i + 1 {
      assert t[i] == s[lo + i] && t[j] == s[lo + j];
    }
  }

  /** `s.rstrip()` */
  function StripTrailing(s: string): (r: string)
    ensures |r| <= |s| && r == s[..|r|]
    ensures r == [] || !IsSpace(r[|r| - 1])
  {
    if s != [] && IsSpace(s[|s| - 1]) then StripTrailing(s[..|s| - 1]) else s
  }

  lemma {:induction false} StripTrailingNonSpace(s: string)
    ensures NonSpace(StripTrailing(s)) == NonSpace(s)
  {
    if s != [] && IsSpace(s[|s| - 1]) {
      var init := s[..|s| - 1];
      StripTrailingNonSpace(init);
      NonSpaceSplit(init, [s[|s| - 1]]);
      assert init + [s[|s| - 1]] == s;
    }
  }

  lemma {:induction false} NonSpaceSplit(a: string, b: string)
    ensures NonSpace(a + b) == NonSpace(a) + NonSpace(b)
  {
    if a == [] {
      assert a + b == b;
    } else {
      assert (a + b)[1..] == a[1..] + b;
      NonSpaceSplit(a[1..], b);
    }
  }

  /** Python's `s.strip()` with no argument. */
  function Strip(s: string): (r: string)
    ensures NotPadded(r)
    ensures NotPadded(s) ==> r == s
  {
    var lead := StripLeading(s);
    var r := StripTrailing(lead);
    assert r != [] ==> r[0] == lead[0];
    r
  }

  /** Stripping keeps every non-whitespace character, so it yields "" exactly on blank text. */
  lemma StripFacts(s: string)
    ensures Strip(s) == [] <==> Blank(s)
    ensures NonSpace(Strip(s)) == NonSpace(s)
    ensures Tidy(s) ==> Tidy(Strip(s))
  {
    var lead := StripLeading(s);
    var r := StripTrailing(lead);
    StripLeadingNonSpace(s);
    StripTrailingNonSpace(lead);
    assert NonSpace(r) == NonSpace(s);
    if r != [] {
      assert NonSpace(r) != [] by {
        assert !IsSpace(r[0]);
      }
    }
    if Tidy(s) {
      StripTidy(s);
    }
  }

  /** What `strip()` returns is a contiguous piece of its input. */
  lemma StripInside(s: string)
    ensures Contains(s, Strip(s))
  {
    var lead := StripLeading(s);
    var r := StripTrailing(lead);
    var i := |s| - |lead|;
    assert s[i..i + |r|] == lead[..|r|] == r;
    assert OccursAt(s, r, i);
  }

  lemma StripTidy(s: string)
    requires Tidy(s)
    ensures Tidy(Strip(s))
  {
    var lead := StripLeading(s);
    var r := StripTrailing(lead);
    TidySlice(s, |s| - |lead|, |s|);
    assert s[|s| - |lead|..|s|] == lead;
    TidySlice(lead, 0, |r|);
    assert lead[0..|r|] == r;
  }
}
