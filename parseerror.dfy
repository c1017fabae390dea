/** The parse error report (talonfmt/parse_error.py, `ParseError`): a
    description of where a syntax error lies, and the offending source
    lines, each followed by a line of carets under the erroneous columns.

    A tree-sitter `Point` is a zero-based (row, column) pair; the error
    only keeps its start and end points. */
module ParseErrors {
  import opened Results
  import PyStr

  datatype Point = Point(row: nat, column: nat)

  datatype ParseError = ParseError(startPosition: Point, endPosition: Point)

  // ---------------------------------------------------------------------
  // Describing the range
  // ---------------------------------------------------------------------

  /** `point_to_str`: `"line R, column C"`. */
  function PointToStr(p: Point): string {
    "line " + (PyStr.NatToString(p.row) + (", column " + PyStr.NatToString(p.column)))
  }

  /** `range()`: one line and two columns when the error starts and ends on
      the same row; otherwise both points, after a leading space. */
  function Range(e: ParseError): string {
    var (s, t) := (e.startPosition, e.endPosition);
    if s.row == t.row then
      "on line " + (PyStr.NatToString(s.row) + (" between column " + (PyStr.NatToString(s.column)
        + (" and " + PyStr.NatToString(t.column)))))
    else
      " between " + (PointToStr(s) + (" and " + PointToStr(t)))
  }

  /** Text that cannot continue a run of digits. */
  predicate StopsDigits(s: string) {
    s == [] || !PyStr.IsDigit(s[0])
  }

  predicate AllDigits(s: string) {
    forall i :: 0 <= i < |s| ==> PyStr.IsDigit(s[i])
  }

  /** The length of the run of digits `s` starts with. */
  function DigitRun(s: string): nat {
    if s == [] || !PyStr.IsDigit(s[0]) then 0 else 1 + DigitRun(s[1..])
  }

  lemma {:induction false} DigitRunOf(a: string, x: string)
    requires AllDigits(a) && StopsDigits(x)
    ensures DigitRun(a + x) == |a|
  {
    if a == [] {
      assert a + x == x;
    } else {
      assert (a + x)[1..] == a[1..] + x;
      DigitRunOf(a[1..], x);
    }
  }

  /** A run of digits followed by text that does not start with a digit is
      read back unambiguously. */
  lemma DigitsSplit(a: string, x: string, b: string, y: string)
    requires AllDigits(a) && AllDigits(b) && StopsDigits(x) && StopsDigits(y)
    requires a + x == b + y
    ensures a == b && x == y
  {
    DigitRunOf(a, x);
    DigitRunOf(b, y);
    assert a == (a + x)[..|a|] && b == (b + y)[..|b|];
    assert x == (a + x)[|a|..] && y == (b + y)[|b|..];
  }

  lemma Unprefix(p: string, x: string, y: string)
    requires p + x == p + y
    ensures x == y
  {
    assert x == (p + x)[|p|..] && y == (p + y)[|p|..];
  }

  /** A number in decimal, followed by text that does not start with a
      digit, is read back unambiguously. */
  lemma NumberSplit(m: nat, x: string, n: nat, y: string)
    requires StopsDigits(x) && StopsDigits(y)
    requires PyStr.NatToString(m) + x == PyStr.NatToString(n) + y
    ensures m == n && x == y
  {
    DigitsSplit(PyStr.NatToString(m), x, PyStr.NatToString(n), y);
    PyStr.NatToStringInjective(m, n);
  }

  /** `point_to_str` followed by text that does not start with a digit is
      read back unambiguously. */
  lemma PointToStrSplit(p: Point, x: string, q: Point, y: string)
    requires StopsDigits(x) && StopsDigits(y)
    requires PointToStr(p) + x == PointToStr(q) + y
    ensures p == q && x == y
  {
    var (pr, pc) := (PyStr.NatToString(p.row), PyStr.NatToString(p.column));
    var (qr, qc) := (PyStr.NatToString(q.row), PyStr.NatToString(q.column));
    assert PointToStr(p) + x == "line " + (pr + (", column " + (pc + x)));
    assert PointToStr(q) + y == "line " + (qr + (", column " + (qc + y)));
    Unprefix("line ", pr + (", column " + (pc + x)), qr + (", column " + (qc + y)));
    NumberSplit(p.row, ", column " + (pc + x), q.row, ", column " + (qc + y));
    Unprefix(", column ", pc + x, qc + y);
    NumberSplit(p.column, x, q.column, y);
  }

  /** The description of a range identifies the range: two errors with the
      same description start and end at the same points. */
  lemma RangeIdentifies(e: ParseError, f: ParseError)
    requires Range(e) == Range(f)
    ensures e == f
  {
    var (s, t, u, v) := (e.startPosition, e.endPosition, f.startPosition, f.endPosition);
    if s.row == t.row && u.row == v.row {
      var (sr, sc, tc) := (PyStr.NatToString(s.row), PyStr.NatToString(s.column), PyStr.NatToString(t.column));
      var (ur, uc, vc) := (PyStr.NatToString(u.row), PyStr.NatToString(u.column), PyStr.NatToString(v.column));
      Unprefix("on line ", sr + (" between column " + (sc + (" and " + tc))), ur + (" between column " + (uc + (" and " + vc))));
      NumberSplit(s.row, " between column " + (sc + (" and " + tc)), u.row, " between column " + (uc + (" and " + vc)));
      Unprefix(" between column ", sc + (" and " + tc), uc + (" and " + vc));
      NumberSplit(s.column, " and " + tc, u.column, " and " + vc);
      Unprefix(" and ", tc, vc);
      PyStr.NatToStringInjective(t.column, v.column);
    } else if s.row != t.row && u.row != v.row {
      var (x, y) := (" and " + PointToStr(t), " and " + PointToStr(v));
      Unprefix(" between ", PointToStr(s) + x, PointToStr(u) + y);
      PointToStrSplit(s, x, u, y);
      Unprefix(" and ", PointToStr(t), PointToStr(v));
      assert PointToStr(t) + "" == PointToStr(t) && PointToStr(v) + "" == PointToStr(v);
      PointToStrSplit(t, "", v, "");
    } else {
      RangeStarts(e);
      RangeStarts(f);
      assert false;
    }
  }

  /** A same-row description starts with `'o'`, any other with a space. */
  lemma RangeStarts(e: ParseError)
    ensures Range(e)[0] == if e.startPosition.row == e.endPosition.row then 'o' else ' '
  {
  }

  // ---------------------------------------------------------------------
  // The annotated region
  // ---------------------------------------------------------------------

  /** The marker under column `c`: a caret when `start < c <= end`. */
  function Marker(c: int, start: int, end: int): char {
    if c <= start || end < c then ' ' else '^'
  }

  /** The markers under the first `n` columns of a line: a caret exactly
      under the columns after `start` up to `end`, a space elsewhere. */
  function Annotation(n: nat, start: int, end: int): (a: string)
    ensures |a| == n
    ensures forall c :: 0 <= c < n ==> (a[c] == '^' <==> start < c <= end)
    ensures forall c :: 0 <= c < n ==> (a[c] == '^' || a[c] == ' ')
  {
    if n == 0 then [] else Annotation(n - 1, start, end) + [Marker(n - 1, start, end)]
  }

  /** The first marked column on line `l` of the selected lines: the
      error's start column on the first line, column 0 after that. */
  function StartColumn(e: ParseError, l: nat): int {
    if l == 0 then e.startPosition.column else 0
  }

  /** The last marked column on line `l` of `lines`: the error's end column
      on the last line, the line's length before that. */
  function EndColumn(e: ParseError, lines: seq<string>, l: nat): int
    requires l < |lines|
  {
    if l == |lines| - 1 then e.endPosition.column else |lines[l]|
  }

  /** The first `k` lines of `lines`, each followed by its markers. */
  function Annotated(e: ParseError, lines: seq<string>, k: nat): (out: seq<string>)
    requires k <= |lines|
    ensures |out| == 2 * k
  {
    if k == 0 then []
    else
      var l := k - 1;
      Annotated(e, lines, l) + [lines[l], Annotation(|lines[l]|, StartColumn(e, l), EndColumn(e, lines, l))]
  }

  /** The output alternates: line `l` at position `2 l`, its markers, as
      long as the line, right after it. */
  lemma {:induction false} AnnotatedAlternates(e: ParseError, lines: seq<string>, k: nat)
    requires k <= |lines|
    ensures forall l :: 0 <= l < k ==> Annotated(e, lines, k)[2 * l] == lines[l]
    ensures forall l :: 0 <= l < k ==>
      Annotated(e, lines, k)[2 * l + 1] == Annotation(|lines[l]|, StartColumn(e, l), EndColumn(e, lines, l))
  {
    if k > 0 {
      AnnotatedAlternates(e, lines, k - 1);
      var prefix := Annotated(e, lines, k - 1);
      assert forall i :: 0 <= i < |prefix| ==> Annotated(e, lines, k)[i] == prefix[i];
    }
  }

  /** `annotated_lines`: for each line, the line, then its markers, built
      one column at a time. */
  method AnnotatedLines(e: ParseError, lines: seq<string>) returns (out: seq<string>)
    ensures out == Annotated(e, lines, |lines|)
  {
    out := [];
    var l := 0;
    while l < |lines|
      invariant 0 <= l <= |lines|
      invariant out == Annotated(e, lines, l)
    {
      var line := lines[l];
      out := out + [line];
      var start := if l == 0 then e.startPosition.column else 0;
      var end := if l == |lines| - 1 then e.endPosition.column else |line|;
      var annotation: string := [];
      var c := 0;
      while c < |line|
        invariant 0 <= c <= |line|
        invariant annotation == Annotation(c, start, end)
      {
        if c <= start || end < c {
          annotation := annotation + [' '];
        } else {
          annotation := annotation + ['^'];
        }
        c := c + 1;
      }
      out := out + [annotation];
      l := l + 1;
    }
  }

  /** `lines[lo:hi]` for non-negative bounds, which Python clamps to the
      list. */
  function Slice<T>(xs: seq<T>, lo: nat, hi: nat): (r: seq<T>)
    ensures |r| == if hi <= lo || |xs| <= lo then 0 else (if hi < |xs| then hi else |xs|) - lo
    ensures forall k :: 0 <= k < |r| ==> r[k] == xs[lo + k]
  {
    var top := if hi < |xs| then hi else |xs|;
    if lo < top then xs[lo..top] else []
  }

  /** The source lines the error covers, from its start row to its end row. */
  function SelectedLines(e: ParseError, contents: string): seq<string> {
    Slice(PyStr.SplitLines(contents), e.startPosition.row, e.endPosition.row + 1)
  }

  /** `annotated_region`. */
  function AnnotatedRegion(e: ParseError, contents: string): string {
    var lines := SelectedLines(e, contents);
    PyStr.Join("\n", Annotated(e, lines, |lines|))
  }

  /** `message`: the range, then the annotated region, each ending a line;
      `filename` is named when it is given and not empty. */
  function Message(e: ParseError, contents: string, filename: Option<string>): string {
    Header(e, filename) + "\n" + AnnotatedRegion(e, contents) + "\n"
  }

  /** The first line of the message: `"Parse error "`, then `"in F "` when
      a non-empty `filename` is given, then the range and a colon. */
  function Header(e: ParseError, filename: Option<string>): string {
    "Parse error " + (Location(filename) + (Range(e) + ":"))
  }

  /** `in <filename> ` when a file name is given and is not empty. */
  function Location(filename: Option<string>): string {
    if filename.Some? && filename.value != "" then "in " + filename.value + " " else ""
  }

  // ---------------------------------------------------------------------
  // Laws of the report
  // ---------------------------------------------------------------------

  lemma NoNewlineAppend(a: string, b: string)
    requires PyStr.NoNewline(a) && PyStr.NoNewline(b)
    ensures PyStr.NoNewline(a + b)
  {
    assert forall i :: 0 <= i < |a + b| ==> (a + b)[i] == if i < |a| then a[i] else b[i - |a|];
  }

  lemma DigitsNoNewline(n: nat)
    ensures PyStr.NoNewline(PyStr.NatToString(n))
  {
  }

  /** The range description is a single line. */
  lemma RangeNoNewline(e: ParseError)
    ensures PyStr.NoNewline(Range(e))
  {
    var (s, t) := (e.startPosition, e.endPosition);
    var (sr, sc, tr, tc) := (PyStr.NatToString(s.row), PyStr.NatToString(s.column), PyStr.NatToString(t.row), PyStr.NatToString(t.column));
    DigitsNoNewline(s.row);
    DigitsNoNewline(s.column);
    DigitsNoNewline(t.row);
    DigitsNoNewline(t.column);
    if s.row == t.row {
      NoNewlineAppend(" and ", tc);
      NoNewlineAppend(sc, " and " + tc);
      NoNewlineAppend(" between column ", sc + (" and " + tc));
      NoNewlineAppend(sr, " between column " + (sc + (" and " + tc)));
      NoNewlineAppend("on line ", sr + (" between column " + (sc + (" and " + tc))));
    } else {
      PointNoNewline(s);
      PointNoNewline(t);
      NoNewlineAppend(" and ", PointToStr(t));
      NoNewlineAppend(PointToStr(s), " and " + PointToStr(t));
      NoNewlineAppend(" between ", PointToStr(s) + (" and " + PointToStr(t)));
    }
  }

  lemma PointNoNewline(p: Point)
    ensures PyStr.NoNewline(PointToStr(p))
  {
    var (r, c) := (PyStr.NatToString(p.row), PyStr.NatToString(p.column));
    DigitsNoNewline(p.row);
    DigitsNoNewline(p.column);
    NoNewlineAppend(", column ", c);
    NoNewlineAppend(r, ", column " + c);
    NoNewlineAppend("line ", r + (", column " + c));
  }

  /** No line of the annotated region holds a newline: the selected lines
      come from `splitlines()`, and markers are spaces and carets. */
  lemma AnnotatedNoNewline(e: ParseError, contents: string)
    ensures forall k :: 0 <= k < |Annotated(e, SelectedLines(e, contents), |SelectedLines(e, contents)|)| ==>
      PyStr.NoNewline(Annotated(e, SelectedLines(e, contents), |SelectedLines(e, contents)|)[k])
  {
    var all := PyStr.SplitLines(contents);
    var lines := SelectedLines(e, contents);
    var out := Annotated(e, lines, |lines|);
    PyStr.SplitLinesHaveNoBreaks(contents);
    AnnotatedAlternates(e, lines, |lines|);
    forall k | 0 <= k < |out|
      ensures PyStr.NoNewline(out[k])
    {
      var l := k / 2;
      assert k == 2 * l || k == 2 * l + 1;
      assert lines[l] == all[e.startPosition.row + l];
      PyStr.LineBreakIsNewline(lines[l]);
    }
  }

  lemma {:induction false} JoinCons(sep: string, x: string, xs: seq<string>)
    requires xs != []
    ensures PyStr.Join(sep, [x] + xs) == x + sep + PyStr.Join(sep, xs)
  {
    assert ([x] + xs)[1..] == xs;
  }

  lemma {:induction false} JoinSnoc(sep: string, xs: seq<string>, y: string)
    requires xs != []
    ensures PyStr.Join(sep, xs + [y]) == PyStr.Join(sep, xs) + sep + y
  {
    if |xs| == 1 {
      assert xs + [y] == [xs[0], y];
      assert [xs[0], y][1..] == [y];
    } else {
      assert (xs + [y])[1..] == xs[1..] + [y];
      JoinSnoc(sep, xs[1..], y);
    }
  }

  /** The region splits back into its lines: each selected source line,
      then its markers. */
  lemma RegionLines(e: ParseError, contents: string)
    requires SelectedLines(e, contents) != []
    ensures PyStr.SplitNewlines(AnnotatedRegion(e, contents)) ==
      Annotated(e, SelectedLines(e, contents), |SelectedLines(e, contents)|)
  {
    AnnotatedNoNewline(e, contents);
    PyStr.JoinNewlinesRoundTrip(Annotated(e, SelectedLines(e, contents), |SelectedLines(e, contents)|));
  }

  lemma HeaderNoNewline(e: ParseError, filename: Option<string>)
    requires filename.Some? ==> PyStr.NoNewline(filename.value)
    ensures PyStr.NoNewline(Header(e, filename))
  {
    RangeNoNewline(e);
    if filename.Some? {
      NoNewlineAppend("in ", filename.value);
      NoNewlineAppend("in " + filename.value, " ");
    }
    NoNewlineAppend(Range(e), ":");
    NoNewlineAppend(Location(filename), Range(e) + ":");
    NoNewlineAppend("Parse error ", Location(filename) + (Range(e) + ":"));
  }

  /** A line, some lines and an empty line: none of them holds a newline
      when the first ones do not. */
  lemma FramedNoNewline(first: string, body: seq<string>)
    requires PyStr.NoNewline(first)
    requires forall k :: 0 <= k < |body| ==> PyStr.NoNewline(body[k])
    ensures forall k :: 0 <= k < |[first] + body + [""]| ==> PyStr.NoNewline(([first] + body + [""])[k])
  {
    var all := [first] + body + [""];
    forall k | 0 <= k < |all| ensures PyStr.NoNewline(all[k]) {
      if 0 < k < |all| - 1 {
        assert all[k] == body[k - 1];
      }
    }
  }

  /** The message is its header, the region's lines and an empty last line,
      joined by newlines. */
  lemma MessageIsJoin(e: ParseError, contents: string, filename: Option<string>)
    requires SelectedLines(e, contents) != []
    ensures Message(e, contents, filename) ==
      PyStr.Join("\n", [Header(e, filename)] + Annotated(e, SelectedLines(e, contents), |SelectedLines(e, contents)|) + [""])
  {
    var header := Header(e, filename);
    var lines := SelectedLines(e, contents);
    var body := Annotated(e, lines, |lines|);
    var region := AnnotatedRegion(e, contents);
    JoinSnoc("\n", body, "");
    JoinCons("\n", header, body + [""]);
    assert [header] + (body + [""]) == [header] + body + [""];
    assert header + "\n" + (region + "\n" + "") == header + "\n" + region + "\n";
  }

  /** The message, split at its newlines: the header ending in `':'`, the
      selected lines each followed by its markers, and the empty rest after
      the final newline. */
  lemma MessageLines(e: ParseError, contents: string, filename: Option<string>)
    requires SelectedLines(e, contents) != []
    requires filename.Some? ==> PyStr.NoNewline(filename.value)
    ensures PyStr.SplitNewlines(Message(e, contents, filename)) ==
      [Header(e, filename)] + Annotated(e, SelectedLines(e, contents), |SelectedLines(e, contents)|) + [""]
  {
    var lines := SelectedLines(e, contents);
    var body := Annotated(e, lines, |lines|);
    var all := [Header(e, filename)] + body + [""];
    MessageIsJoin(e, contents, filename);
    HeaderNoNewline(e, filename);
    AnnotatedNoNewline(e, contents);
    FramedNoNewline(Header(e, filename), body);
    PyStr.JoinNewlinesRoundTrip(all);
  }

  /** Naming the file only inserts `"in F "` after `"Parse error "`; the
      rest of the message does not depend on the file name. */
  lemma HeaderNamesFile(e: ParseError, f: string)
    requires f != ""
    ensures Header(e, Some(f)) == "Parse error " + "in " + f + " " + Header(e, None)[|"Parse error "|..]
    ensures Header(e, Some("")) == Header(e, None)
  {
    InsertAfter("Parse error ", "in " + f + " ", Range(e) + ":");
  }

  /** Text inserted after a prefix, in terms of what follows the prefix
      when nothing is inserted. */
  lemma InsertAfter(p: string, ins: string, rest: string)
    ensures p + (ins + rest) == p + ins + (p + ("" + rest))[|p|..]
  {
    assert "" + rest == rest;
    assert (p + rest)[|p|..] == rest;
  }
}
