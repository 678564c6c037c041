/** The string primitives of the ECMAScript library that the core relies on:
    `toUpperCase`, `trim`, `indexOf` and `includes`. */
module Text {

  /** `[A-Z]` in a regular expression without the `i` flag. */
  predicate IsUpperLetter(c: char) { 'A' <= c <= 'Z' }

  /** `[0-9]` and `\d`. */
  predicate IsDigit(c: char) { '0' <= c <= '9' }

  /** `[A-Z0-9]`, the class used by the negative look-aheads of the ticker patterns. */
  predicate IsWordChar(c: char) { IsUpperLetter(c) || IsDigit(c) }

  /** A character that `toUpperCase` changes into a single other character: ASCII a-z,
      Latin-1 à-þ except ÷, ÿ (to Ÿ), µ (to Greek capital mu), and the dotless i and the
      long s, which become the ASCII letters I and S. */
  predicate HasUpperForm(c: char)
  {
    ('a' <= c <= 'z') || ('\U{00E0}' <= c <= '\U{00FE}' && c != '\U{00F7}') || c == '\U{00FF}' || c == '\U{00B5}'
    || IsAsciiUpperFromOther(c)
  }

  /** The two characters outside `[a-z]` that `toUpperCase` maps into `[A-Z]` one for one:
      dotless i (to I) and long s (to S). */
  predicate IsAsciiUpperFromOther(c: char)
  {
    c == '\U{0131}' || c == '\U{017F}'
  }

  function UpperChar(c: char): (u: char)
    ensures HasUpperForm(c) || u == c
    ensures IsUpperLetter(u) <==> IsUpperLetter(c) || 'a' <= c <= 'z' || IsAsciiUpperFromOther(c)
    ensures IsDigit(u) <==> IsDigit(c)
  {
    if 'a' <= c <= 'z' || ('\U{00E0}' <= c <= '\U{00FE}' && c != '\U{00F7}') then (c as int - 32) as char
    else if c == '\U{0131}' then 'I'
    else if c == '\U{017F}' then 'S'
    else if c == '\U{00FF}' then '\U{0178}'
    else if c == '\U{00B5}' then '\U{039C}'
    else c
  }

  /** `s.toUpperCase()`, one character at a time. */
  function Upper(s: string): (r: string)
    ensures |r| == |s|
    ensures forall i :: 0 <= i < |s| ==> r[i] == UpperChar(s[i])
  {
    seq(|s|, i requires 0 <= i < |s| => UpperChar(s[i]))
  }

  /** The WhiteSpace and LineTerminator code points that `trim` removes. */
  const SpaceChars: set<char> := {
    '\t', '\n', '\U{000B}', '\U{000C}', '\r', ' ', '\U{00A0}', '\U{1680}',
    '\U{2000}', '\U{2001}', '\U{2002}', '\U{2003}', '\U{2004}',
    '\U{2005}', '\U{2006}', '\U{2007}', '\U{2008}', '\U{2009}', '\U{200A}',
    '\U{2028}', '\U{2029}', '\U{202F}', '\U{205F}', '\U{3000}', '\U{FEFF}'
  }

  predicate IsSpace(c: char)
  {
    c in SpaceChars
  }

  function TrimStart(s: string): (r: string)
    ensures |r| <= |s|
    ensures r == s[|s| - |r|..]
    ensures r == [] || !IsSpace(r[0])
  {
    if |s| > 0 && IsSpace(s[0]) then TrimStart(s[1..]) else s
  }

  function TrimEnd(s: string): (r: string)
    ensures |r| <= |s|
    ensures r == s[..|r|]
    ensures r == [] || !IsSpace(r[|r| - 1])
  {
    if |s| > 0 && IsSpace(s[|s| - 1]) then TrimEnd(s[..|s| - 1]) else s
  }

  /** `s.trim()`. */
  function Trim(s: string): string
  {
    TrimEnd(TrimStart(s))
  }

  /** Upper-casing never creates nor removes a white-space character. */
  lemma UpperCharSpace(c: char)
    ensures IsSpace(UpperChar(c)) <==> IsSpace(c)
  {
  }

  lemma {:induction false} UpperIdempotent(s: string)
    ensures Upper(Upper(s)) == Upper(s)
  {
    assert forall i :: 0 <= i < |s| ==> UpperChar(UpperChar(s[i])) == UpperChar(s[i]);
  }

  lemma {:induction false} TrimStartUpper(s: string)
    ensures TrimStart(Upper(s)) == Upper(TrimStart(s))
    decreases |s|
  {
    if |s| > 0 {
      var u := Upper(s);
      UpperCharSpace(s[0]);
      if IsSpace(s[0]) {
        assert IsSpace(u[0]);
        assert u[1..] == Upper(s[1..]);
        TrimStartUpper(s[1..]);
      }
    }
  }

  lemma {:induction false} TrimEndUpper(s: string)
    ensures TrimEnd(Upper(s)) == Upper(TrimEnd(s))
    decreases |s|
  {
    if |s| > 0 {
      var u := Upper(s);
      UpperCharSpace(s[|s| - 1]);
      if IsSpace(s[|s| - 1]) {
        assert IsSpace(u[|s| - 1]);
        assert u[..|s| - 1] == Upper(s[..|s| - 1]);
        TrimEndUpper(s[..|s| - 1]);
      }
    }
  }

  /** Trimming and upper-casing commute. */
  lemma TrimUpperCommute(s: string)
    ensures Trim(Upper(s)) == Upper(Trim(s))
  {
    TrimStartUpper(s);
    TrimEndUpper(TrimStart(s));
  }

  lemma TrimStartOfTrimmed(s: string)
    requires s == [] || !IsSpace(s[0])
    ensures TrimStart(s) == s
  {
  }

  lemma TrimEndOfTrimmed(s: string)
    requires s == [] || !IsSpace(s[|s| - 1])
    ensures TrimEnd(s) == s
  {
  }

  /** A trimmed string neither starts nor ends with white space. */
  lemma TrimmedEnds(s: string)
    ensures Trim(s) == [] || (!IsSpace(Trim(s)[0]) && !IsSpace(Trim(s)[|Trim(s)| - 1]))
  {
    var a := TrimStart(s);
    var b := TrimEnd(a);
    if b != [] {
      assert b[0] == a[0];
    }
  }

  /** Trimming twice is trimming once. */
  lemma TrimIdempotent(s: string)
    ensures Trim(Trim(s)) == Trim(s)
  {
    TrimmedEnds(s);
    TrimStartOfTrimmed(Trim(s));
    TrimEndOfTrimmed(Trim(s));
  }

  /** `pat` occurs in `s` starting at offset `p`. */
  predicate OccursAt(s: string, pat: string, p: nat)
  {
    p + |pat| <= |s| && s[p..p + |pat|] == pat
  }

  /** `s.indexOf(pat, from)` for a non-empty `pat`: the first offset at or after `from`
      where `pat` occurs, or -1 when there is none. */
  function IndexOf(s: string, pat: string, from: nat): (r: int)
    requires |pat| > 0
    ensures r == -1 || (from <= r && OccursAt(s, pat, r))
    decreases |s| - from
  {
    if from + |pat| > |s| then -1
    else if OccursAt(s, pat, from) then from
    else IndexOf(s, pat, from + 1)
  }

  /** `indexOf` returns the first occurrence: none lies between `from` and the result, and
      -1 means there is none at all from `from` on. */
  lemma {:induction false} IndexOfFirst(s: string, pat: string, from: nat)
    requires |pat| > 0
    ensures IndexOf(s, pat, from) == -1 ==> forall p :: from <= p ==> !OccursAt(s, pat, p)
    ensures IndexOf(s, pat, from) != -1 ==> forall p :: from <= p < IndexOf(s, pat, from) ==> !OccursAt(s, pat, p)
    decreases |s| - from
  {
    if from + |pat| <= |s| && !OccursAt(s, pat, from) {
      IndexOfFirst(s, pat, from + 1);
    }
  }

  /** `s.substring(start, end)`: both ends are clamped to the length and swapped when the
      start lies past the end. */
  function Substring(s: string, start: nat, end: nat): (r: string)
    ensures start <= end <= |s| ==> r == s[start..end]
    ensures end < start <= |s| ==> r == s[end..start]
    ensures |r| <= |s|
  {
    var a := if start < |s| then start else |s|;
    var b := if end < |s| then end else |s|;
    if a <= b then s[a..b] else s[b..a]
  }

  /** `s.includes(pat)`. */
  predicate Contains(s: string, pat: string)
  {
    exists p: nat | p <= |s| :: OccursAt(s, pat, p)
  }

  /** Upper-casing leaves a string with no lower-case character as it is. */
  lemma UpperOfNoLower(s: string)
    requires forall i :: 0 <= i < |s| ==> !HasUpperForm(s[i])
    ensures Upper(s) == s
  {
  }

  /** Upper-casing leaves a string of `[A-Z0-9]` characters as it is. */
  lemma UpperOfWordChars(s: string)
    requires forall i :: 0 <= i < |s| ==> IsWordChar(s[i])
    ensures Upper(s) == s
  {
  }
}
