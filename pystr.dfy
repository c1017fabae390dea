/** The parts of Python's `str` behaviour the pretty-printer relies on:
    `str.isspace`, `str.split()` with no argument, `str.splitlines()`,
    `sep.join(xs)`, `" " * n` and `f"{n}"` for a non-negative integer. */
module PyStr {

  /** Python's whitespace: exactly the characters for which `str.isspace()`
      holds, which are also what `str.split()` splits on and what the regular
      expression class `\s` matches in a `str` pattern. */
  predicate IsSpace(c: char) {
    || ('\U{9}' <= c <= '\U{D}')
    || ('\U{1C}' <= c <= '\U{20}')
    || c == '\U{85}' || c == '\U{A0}' || c == '\U{1680}'
    || ('\U{2000}' <= c <= '\U{200A}')
    || c == '\U{2028}' || c == '\U{2029}' || c == '\U{202F}' || c == '\U{205F}' || c == '\U{3000}'
  }

  /** The characters `str.splitlines()` treats as line boundaries
      (`"\r\n"` counts as one boundary). */
  predicate IsLineBreak(c: char) {
    || c == '\n' || c == '\r' || c == '\U{B}' || c == '\U{C}'
    || c == '\U{1C}' || c == '\U{1D}' || c == '\U{1E}'
    || c == '\U{85}' || c == '\U{2028}' || c == '\U{2029}'
  }

  /** `s.isspace()`: non-empty and all whitespace. */
  predicate IsSpaceStr(s: string) {
    |s| > 0 && forall i :: 0 <= i < |s| ==> IsSpace(s[i])
  }

  predicate NoSpace(s: string) {
    forall i :: 0 <= i < |s| ==> !IsSpace(s[i])
  }

  predicate NoLineBreak(s: string) {
    forall i :: 0 <= i < |s| ==> !IsLineBreak(s[i])
  }

  lemma LineBreakIsSpace(c: char)
    requires IsLineBreak(c)
    ensures IsSpace(c)
  {
  }

  /** A line holds no newline. */
  lemma LineBreakIsNewline(s: string)
    requires NoLineBreak(s)
    ensures NoNewline(s) && '\n' !in s
  {
  }

  /** Index of the first character satisfying `IsSpace`, or `|s|`. */
  function FirstSpace(s: string): (i: nat)
    ensures i <= |s|
    ensures NoSpace(s[..i])
    ensures i < |s| ==> IsSpace(s[i])
  {
    if s == [] then 0
    else if IsSpace(s[0]) then 0
    else
      var k := FirstSpace(s[1..]);
      assert s[1..][..k] == s[1..k + 1];
      1 + k
  }

  /** Index of the first line-boundary character, or `|s|`. */
  function FirstLineBreak(s: string): (i: nat)
    ensures i <= |s|
    ensures NoLineBreak(s[..i])
    ensures i < |s| ==> IsLineBreak(s[i])
  {
    if s == [] then 0
    else if IsLineBreak(s[0]) then 0
    else
      var k := FirstLineBreak(s[1..]);
      assert s[1..][..k] == s[1..k + 1];
      1 + k
  }

  /** `s.split()`: the maximal runs of non-whitespace characters, in order. */
  function SplitWords(s: string): (ws: seq<string>)
    decreases |s|
  {
    if s == [] then []
    else if IsSpace(s[0]) then SplitWords(s[1..])
    else
      var i := FirstSpace(s);
      [s[..i]] + SplitWords(s[i..])
  }

  /** Every word `split()` returns is non-empty and free of whitespace. */
  lemma {:induction false} SplitWordsAreWords(s: string)
    ensures forall k :: 0 <= k < |SplitWords(s)| ==>
      |SplitWords(s)[k]| > 0 && NoSpace(SplitWords(s)[k])
    decreases |s|
  {
    if s == [] {
    } else if IsSpace(s[0]) {
      SplitWordsAreWords(s[1..]);
    } else {
      SplitWordsAreWords(s[FirstSpace(s)..]);
    }
  }

  /** The characters of `s` that are not whitespace, in order. */
  function RemoveSpaces(s: string): (r: string)
  {
    if s == [] then [] else (if IsSpace(s[0]) then [] else [s[0]]) + RemoveSpaces(s[1..])
  }

  function Concat(xs: seq<string>): string
  {
    if xs == [] then [] else xs[0] + Concat(xs[1..])
  }

  lemma {:induction false} RemoveSpacesAppend(a: string, b: string)
    ensures RemoveSpaces(a + b) == RemoveSpaces(a) + RemoveSpaces(b)
  {
    if a == [] {
      assert a + b == b;
    } else {
      assert (a + b)[1..] == a[1..] + b;
      RemoveSpacesAppend(a[1..], b);
    }
  }

  lemma {:induction false} RemoveSpacesOfWord(s: string)
    requires NoSpace(s)
    ensures RemoveSpaces(s) == s
  {
    if s != [] {
      RemoveSpacesOfWord(s[1..]);
    }
  }

  /** Gluing the words of `s.split()` back together gives back every
      non-whitespace character of `s`: splitting loses only whitespace. */
  lemma {:induction false} SplitWordsKeepsContent(s: string)
    ensures Concat(SplitWords(s)) == RemoveSpaces(s)
    decreases |s|
  {
    if s == [] {
    } else if IsSpace(s[0]) {
      SplitWordsKeepsContent(s[1..]);
    } else {
      var i := FirstSpace(s);
      SplitWordsKeepsContent(s[i..]);
      assert s == s[..i] + s[i..];
      RemoveSpacesAppend(s[..i], s[i..]);
      RemoveSpacesOfWord(s[..i]);
    }
  }

  /** Length of the boundary starting at `s[i]`: `"\r\n"` is one boundary of
      two characters, every other boundary is one character. */
  function BreakWidth(s: string, i: nat): (w: nat)
    requires i < |s|
    ensures 1 <= w <= 2 && i + w <= |s|
  {
    if s[i] == '\r' && i + 1 < |s| && s[i + 1] == '\n' then 2 else 1
  }

  /** `s.splitlines()`: the lines of `s` without their boundaries; a final
      boundary does not start a new (empty) line, and `""` has no lines. */
  function SplitLines(s: string): (ls: seq<string>)
    decreases |s|
  {
    if s == [] then []
    else
      var i := FirstLineBreak(s);
      if i == |s| then [s] else [s[..i]] + SplitLines(s[i + BreakWidth(s, i)..])
  }

  /** No line `splitlines()` returns contains a line boundary. */
  lemma {:induction false} SplitLinesHaveNoBreaks(s: string)
    ensures forall k :: 0 <= k < |SplitLines(s)| ==> NoLineBreak(SplitLines(s)[k])
    decreases |s|
  {
    if s != [] {
      var i := FirstLineBreak(s);
      if i < |s| {
        SplitLinesHaveNoBreaks(s[i + BreakWidth(s, i)..]);
      }
    }
  }

  lemma {:induction false} FirstLineBreakOfLine(s: string)
    requires NoLineBreak(s)
    ensures FirstLineBreak(s) == |s|
  {
    if s != [] {
      FirstLineBreakOfLine(s[1..]);
    }
  }

  /** A string without line boundaries is a single line (or none, if empty). */
  lemma SplitLinesOfLine(s: string)
    requires NoLineBreak(s)
    ensures SplitLines(s) == if s == [] then [] else [s]
  {
    FirstLineBreakOfLine(s);
  }

  lemma {:induction false} FirstLineBreakAfterLine(a: string, b: string)
    requires NoLineBreak(a)
    ensures FirstLineBreak(a + "\n" + b) == |a|
  {
    if a != [] {
      assert (a + "\n" + b)[1..] == a[1..] + "\n" + b;
      FirstLineBreakAfterLine(a[1..], b);
    }
  }

  /** A line followed by `'\n'` is the first line of the text, and the rest
      is split on its own. */
  lemma SplitLinesAfterLine(a: string, b: string)
    requires NoLineBreak(a)
    ensures SplitLines(a + "\n" + b) == [a] + SplitLines(b)
  {
    var s := a + "\n" + b;
    FirstLineBreakAfterLine(a, b);
    assert s[..|a|] == a;
    assert s[|a| + 1..] == b;
  }

  /** A string of at most one character is at most one line. */
  lemma SplitLinesShort(s: string)
    requires |s| <= 1
    ensures |SplitLines(s)| <= 1
  {
    if s != [] {
      assert s[1..] == [];
    }
  }

  /** `sep.join(xs)`. */
  function Join(sep: string, xs: seq<string>): (r: string)
  {
    if xs == [] then []
    else if |xs| == 1 then xs[0]
    else xs[0] + sep + Join(sep, xs[1..])
  }

  /** Splitting on `'\n'`: the inverse of `"\n".join` for newline-free parts. */
  function SplitNewlines(s: string): (r: seq<string>)
    ensures |r| >= 1
    decreases |s|
  {
    if s == [] then [[]]
    else if s[0] == '\n' then [[]] + SplitNewlines(s[1..])
    else
      var rest := SplitNewlines(s[1..]);
      [[s[0]] + rest[0]] + rest[1..]
  }

  predicate NoNewline(s: string) {
    forall i :: 0 <= i < |s| ==> s[i] != '\n'
  }

  lemma {:induction false} SplitNewlinesPrefix(a: string, b: string)
    requires NoNewline(a)
    ensures SplitNewlines(a + b) == [a + SplitNewlines(b)[0]] + SplitNewlines(b)[1..]
  {
    if a != [] {
      assert (a + b)[1..] == a[1..] + b;
      SplitNewlinesPrefix(a[1..], b);
      assert [a[0]] + (a[1..] + SplitNewlines(b)[0]) == a + SplitNewlines(b)[0];
    } else {
      var r := SplitNewlines(b);
      assert a + b == b;
      assert a + r[0] == r[0];
      assert r == [r[0]] + r[1..];
    }
  }

  /** `"\n".join` loses nothing: splitting the joined text at its newlines
      gives back the parts, as long as no part holds a newline itself. */
  lemma {:induction false} JoinNewlinesRoundTrip(xs: seq<string>)
    requires |xs| >= 1
    requires forall k :: 0 <= k < |xs| ==> NoNewline(xs[k])
    ensures SplitNewlines(Join("\n", xs)) == xs
  {
    if |xs| == 1 {
      SplitNewlinesPrefix(xs[0], []);
      assert xs[0] + [] == xs[0];
    } else {
      var tail := Join("\n", xs[1..]);
      JoinNewlinesRoundTrip(xs[1..]);
      assert xs[0] + "\n" + tail == xs[0] + ("\n" + tail);
      SplitNewlinesPrefix(xs[0], "\n" + tail);
      assert ("\n" + tail)[1..] == tail;
      assert SplitNewlines("\n" + tail) == [[]] + SplitNewlines(tail);
      assert xs[0] + [] == xs[0];
      assert xs == [xs[0]] + xs[1..];
    }
  }

  /** `" " * n` (an empty string when `n <= 0`). */
  function Spaces(n: int): (s: string)
    ensures |s| == if n <= 0 then 0 else n
    ensures forall i :: 0 <= i < |s| ==> s[i] == ' '
    decreases n
  {
    if n <= 0 then [] else Spaces(n - 1) + " "
  }

  predicate IsDigit(c: char) {
    '0' <= c <= '9'
  }

  function DigitChar(d: nat): (c: char)
    requires d < 10
    ensures IsDigit(c)
  {
    ['0', '1', '2', '3', '4', '5', '6', '7', '8', '9'][d]
  }

  function DigitValue(c: char): (d: nat)
    requires IsDigit(c)
    ensures d < 10
  {
    if c == '0' then 0 else if c == '1' then 1 else if c == '2' then 2
    else if c == '3' then 3 else if c == '4' then 4 else if c == '5' then 5
    else if c == '6' then 6 else if c == '7' then 7 else if c == '8' then 8 else 9
  }

  /** `f"{n}"` for a non-negative integer: its decimal digits, no sign and no
      leading zero. */
  function NatToString(n: nat): (s: string)
    ensures |s| >= 1
    ensures forall i :: 0 <= i < |s| ==> IsDigit(s[i])
    decreases n
  {
    if n < 10 then [DigitChar(n)] else NatToString(n / 10) + [DigitChar(n % 10)]
  }

  /** Reads a run of decimal digits. */
  function ParseNat(s: string): (n: nat)
    requires forall i :: 0 <= i < |s| ==> IsDigit(s[i])
    decreases |s|
  {
    if s == [] then 0 else 10 * ParseNat(s[..|s| - 1]) + DigitValue(s[|s| - 1])
  }

  /** Reading back the decimal form of `n` gives `n`. */
  lemma {:induction false} NatToStringRoundTrip(n: nat)
    ensures ParseNat(NatToString(n)) == n
    decreases n
  {
    var s := NatToString(n);
    if n < 10 {
      assert s[..0] == [];
    } else {
      NatToStringRoundTrip(n / 10);
      assert s[..|s| - 1] == NatToString(n / 10);
    }
  }

  lemma NatToStringInjective(m: nat, n: nat)
    requires NatToString(m) == NatToString(n)
    ensures m == n
  {
    NatToStringRoundTrip(m);
    NatToStringRoundTrip(n);
  }
}
