/**
 * The boilerplate phrases the cleaner removes from descriptions, and the two
 * whitespace substitutions that follow the removal.
 *
 * Each of the seven case-insensitive regular expressions is a chain of tokens: a word,
 * `\s+`, `\s*`, an optional character, or a fixed number of digits. Matching the tokens
 * greedily from left to right, without backtracking, gives the regex engine's match:
 * every `\s+`/`\s*` is followed by a word, `©?`, digits or the end of the pattern,
 * none of which can start with whitespace, so giving back a blank never helps; and each
 * optional character (`n?`, `:?`, `©?`) is followed by a token that cannot start with
 * that character.
 */
module Boilerplate {
  import opened Wrappers
  import opened Text

  datatype Token =
    | Word(w: string)   // these letters, in any case (w is written in lower case)
    | Spaces            // \s+
    | OptSpaces         // \s*
    | Opt(c: char)      // c?, in any case
    | Digits(n: nat)    // \d{n}

  type Pattern = seq<Token>

  /** Every pattern starts with a non-empty word, so a match is never empty. */
  predicate StartsWithWord(p: Pattern) {
    p != [] && p[0].Word? && p[0].w != []
  }

  // this\s+is\s+an?\s+tender\s+notice
  const TenderNotice: Pattern :=
    [Word("this"), Spaces, Word("is"), Spaces, Word("a"), Opt('n'), Spaces, Word("tender"), Spaces, Word("notice")]
  // please\s+read\s+carefully
  const ReadCarefully: Pattern := [Word("please"), Spaces, Word("read"), Spaces, Word("carefully")]
  // important\s+notice:?\s*
  const ImportantNotice: Pattern := [Word("important"), Spaces, Word("notice"), Opt(':'), OptSpaces]
  // disclaimer:?\s*
  const Disclaimer: Pattern := [Word("disclaimer"), Opt(':'), OptSpaces]
  // terms\s+and\s+conditions:?\s*
  const TermsAndConditions: Pattern :=
    [Word("terms"), Spaces, Word("and"), Spaces, Word("conditions"), Opt(':'), OptSpaces]
  // for\s+more\s+information\s+visit
  const MoreInformation: Pattern :=
    [Word("for"), Spaces, Word("more"), Spaces, Word("information"), Spaces, Word("visit")]
  // copyright\s+©?\s*\d{4}
  const Copyright: Pattern := [Word("copyright"), Spaces, Opt('©'), OptSpaces, Digits(4)]

  /** `BOILERPLATE_PATTERNS` of clean/cleaner.py, in the order they are applied. */
  const Patterns: seq<Pattern> := [
    TenderNotice, ReadCarefully, ImportantNotice, Disclaimer, TermsAndConditions,
    MoreInformation, Copyright
  ]

  lemma PatternsStartWithWords()
    ensures forall i :: 0 <= i < |Patterns| ==> StartsWithWord(Patterns[i])
  {
  }

  /** How much of `s` one token consumes at its start, if it matches there. */
  function TokenLen(t: Token, s: string): (r: Option<nat>)
    ensures r.Some? ==> r.value <= |s|
  {
    match t
    case Word(w) => if |w| <= |s| && LowerStr(s[..|w|]) == w then Some(|w|) else None
    case Spaces => var n := SpaceRun(s); if n == 0 then None else Some(n)
    case OptSpaces => Some(SpaceRun(s))
    case Opt(c) => if s != [] && Lower(s[0]) == c then Some(1) else Some(0)
    case Digits(n) => if n <= |s| && AllDigits(s[..n]) then Some(n) else None
  }

  /** The length of the match of `p` anchored at the start of `s`, if there is one. */
  function MatchLen(p: Pattern, s: string): (r: Option<nat>)
    ensures r.Some? ==> r.value <= |s|
    ensures r.Some? && StartsWithWord(p) ==> r.value > 0
    decreases |p|
  {
    if p == [] then Some(0)
    else
      match TokenLen(p[0], s)
      case None => None
      case Some(k) =>
        match MatchLen(p[1..], s[k..])
        case None => None
        case Some(m) => Some(k + m)
  }

  /** The pattern matches nowhere in `s`. */
  predicate Absent(p: Pattern, s: string) {
    forall i :: 0 <= i < |s| ==> MatchLen(p, s[i..]).None?
  }

  /**
   * `re.sub(p, '', s)`: scanning from the left, a match is deleted and the scan resumes
   * after it; where nothing matches, one character is kept.
   */
  function RemoveAll(p: Pattern, s: string): (r: string)
    requires StartsWithWord(p)
    ensures |r| <= |s|
    ensures Absent(p, s) ==> r == s
    decreases |s|
  {
    if s == [] then []
    else
      match MatchLen(p, s)
      case Some(n) =>
        assert s[0..] == s;
        RemoveAll(p, s[n..])
      case None =>
        assert Absent(p, s) ==> Absent(p, s[1..]) by {
          forall i | 0 <= i < |s| - 1 ensures s[1..][i..] == s[i + 1..] { }
        }
        [s[0]] + RemoveAll(p, s[1..])
  }

  /** The loop of `_clean_description` over the patterns, as a fold. */
  function RemovePatterns(ps: seq<Pattern>, s: string): (r: string)
    requires forall i :: 0 <= i < |ps| ==> StartsWithWord(ps[i])
    ensures |r| <= |s|
    ensures (forall i :: 0 <= i < |ps| ==> Absent(ps[i], s)) ==> r == s
  {
    if ps == [] then s else RemovePatterns(ps[1..], RemoveAll(ps[0], s))
  }

  /**
   * `re.sub(r'\n\s*\n+', '\n\n', s)`. At a newline, `\s*` first takes the whole
   * whitespace run and then gives back until `\n+` can match, so a match reaches the
   * end of the last newline of the run; a run holding no further newline is no match.
   */
  function BlankLinesLen(s: string): (r: Option<nat>)
    ensures r.Some? ==> 2 <= r.value <= |s|
  {
    if s != [] && s[0] == '\n' then
      var run := s[1..1 + SpaceRun(s[1..])];
      match LastNewline(run)
      case Some(k) => Some(k + 2)
      case None => None
    else None
  }

  /** The index of the last newline in `s`. */
  function LastNewline(s: string): (r: Option<nat>)
    ensures r.Some? ==> r.value < |s| && s[r.value] == '\n'
    ensures r.None? <==> forall i :: 0 <= i < |s| ==> s[i] != '\n'
  {
    if s == [] then None
    else if s[|s| - 1] == '\n' then Some(|s| - 1)
    else LastNewline(s[..|s| - 1])
  }

  function SquashBlankLines(s: string): (r: string)
    ensures (forall i :: 0 <= i < |s| ==> s[i] != '\n') ==> r == s
    decreases |s|
  {
    if s == [] then []
    else
      match BlankLinesLen(s)
      case Some(n) => "\n\n" + SquashBlankLines(s[n..])
      case None => [s[0]] + SquashBlankLines(s[1..])
  }

  /**
   * The blank-line rule runs after `\s+` has become ' ', so it never changes anything:
   * the paragraph breaks it was meant to keep are already gone.
   */
  lemma BlankLineRuleIsDead(s: string)
    ensures SquashBlankLines(Collapse(s)) == Collapse(s)
  {
    var c := Collapse(s);
    CollapseIsTidy(s);
    forall i | 0 <= i < |c| ensures c[i] != '\n' {
      if c[i] == '\n' {
        assert IsSpace(c[i]);
      }
    }
  }
}
