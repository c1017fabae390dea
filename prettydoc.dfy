/** The document algebra of the `talonfmt` pretty-printer
    (talonfmt/prettyprinter/doc.py): the document variants, the checks their
    constructors make, the interned texts, the `splat` flattener and the smart
    constructors and operators built on it.

    A Python constructor that fails one of its assertions is modelled as a
    function returning `Err`; a document the Python code can hold is one that
    passed those checks, which `WellFormed` states. The interned `Empty`,
    `Space` and `Line` objects are constants: every way of building a `Text`
    with one of those three strings returns the interned object, so comparing
    by identity and comparing by value agree on them. */
module PrettyDoc {
  import opened PyStr
  import opened Results

  datatype Doc =
    | Text(text: string)
    | HStretch(doc: Doc)
    | VStretch(doc: Doc)
    | Nest(indent: int, doc: Doc)
    | Alt(docs: seq<Doc>)
    | Cat(docs: seq<Doc>)
    | Row(cols: seq<Doc>)
    | Table(rows: seq<Doc>)

  /** The constructor assertion that failed. */
  datatype Failure =
    | TextNotWord        // Text.__init__: not interned and no leading non-space
    | NestOfNest         // Nest.__init__: the child is still a Nest
    | IndentNotPositive  // Nest.__init__: the indent is not positive
    | AltInAlt           // Alt.__post_init__
    | CatInCat           // Cat.__post_init__: a Cat inside the Cat
    | EmptyInCat         // Cat.__post_init__: Empty inside the Cat
    | RowInRow           // Row.__post_init__
    | RowNotRow          // Table.__post_init__: a row that is not a Row

  const Empty: Doc := Text("")
  const Space: Doc := Text(" ")
  const Line: Doc := Text("\n")
  const SoftLine: Doc := Alt([Empty, Line])

  /** The three texts `Text.__new__` interns. */
  predicate Interned(s: string) {
    s == "" || s == " " || s == "\n"
  }

  /** `re.match(r"\S+", s)` succeeds: the match is anchored at the start only,
      so later whitespace (as in `"a b"`) is allowed. */
  predicate StartsWithNonSpace(s: string) {
    |s| > 0 && !IsSpace(s[0])
  }

  /** The invariants every constructor asserts, holding at every level. */
  predicate WellFormed(d: Doc) {
    match d
    case Text(s) => Interned(s) || StartsWithNonSpace(s)
    case HStretch(c) => WellFormed(c)
    case VStretch(c) => WellFormed(c)
    case Nest(i, c) => i > 0 && !c.Nest? && WellFormed(c)
    case Alt(ds) => forall x <- ds :: !x.Alt? && WellFormed(x)
    case Cat(ds) => forall x <- ds :: !x.Cat? && x != Empty && WellFormed(x)
    case Row(cs) => forall x <- cs :: !x.Row? && WellFormed(x)
    case Table(rs) => forall x <- rs :: x.Row? && WellFormed(x)
  }

  /** `Text(s)`: `Text.__new__` followed by `Text.__init__`. */
  function NewText(s: string): (r: Result<Doc, Failure>)
    ensures r.Ok? <==> Interned(s) || StartsWithNonSpace(s)
    ensures r.Ok? ==> r.value == Text(s) && WellFormed(r.value)
    ensures s == "" ==> r == Ok(Empty)
    ensures s == " " ==> r == Ok(Space)
    ensures s == "\n" ==> r == Ok(Line)
  {
    if s == "" then Ok(Empty)
    else if s == " " then Ok(Space)
    else if s == "\n" then Ok(Line)
    else if StartsWithNonSpace(s) then Ok(Text(s))
    else Err(TextNotWord)
  }

  /** `Nest(indent, doc)`: a directly nested `Nest` is merged by adding the
      indents; the result must have a positive indent and a non-`Nest` child. */
  function NewNest(indent: int, doc: Doc): (r: Result<Doc, Failure>)
    ensures r.Ok? ==> r.value.Nest? && r.value.indent > 0 && !r.value.doc.Nest?
    ensures !doc.Nest? ==> (r.Ok? <==> indent > 0)
    ensures !doc.Nest? && r.Ok? ==> r.value == Nest(indent, doc)
  {
    var (i, child) := if doc.Nest? then (indent + doc.indent, doc.doc) else (indent, doc);
    if child.Nest? then Err(NestOfNest)
    else if i <= 0 then Err(IndentNotPositive)
    else Ok(Nest(i, child))
  }

  /** `Alt(docs)` with its `__post_init__` check. */
  function NewAlt(docs: seq<Doc>): (r: Result<Doc, Failure>)
    ensures r.Ok? <==> forall x <- docs :: !x.Alt?
    ensures r.Ok? ==> r.value == Alt(docs)
  {
    if exists x <- docs :: x.Alt? then Err(AltInAlt) else Ok(Alt(docs))
  }

  /** `Cat(docs)` with its `__post_init__` checks, in their order. */
  function NewCat(docs: seq<Doc>): (r: Result<Doc, Failure>)
    ensures r.Ok? <==> (forall x <- docs :: !x.Cat?) && Empty !in docs
    ensures r.Ok? ==> r.value == Cat(docs)
  {
    if exists x <- docs :: x.Cat? then Err(CatInCat)
    else if Empty in docs then Err(EmptyInCat)
    else Ok(Cat(docs))
  }

  /** `Row(cols)` with its `__post_init__` check. */
  function NewRow(cols: seq<Doc>): (r: Result<Doc, Failure>)
    ensures r.Ok? <==> forall x <- cols :: !x.Row?
    ensures r.Ok? ==> r.value == Row(cols)
  {
    if exists x <- cols :: x.Row? then Err(RowInRow) else Ok(Row(cols))
  }

  /** `Table(rows)` with its `__post_init__` check. */
  function NewTable(rows: seq<Doc>): (r: Result<Doc, Failure>)
    ensures r.Ok? <==> forall x <- rows :: x.Row?
    ensures r.Ok? ==> r.value == Table(rows)
  {
    if exists x <- rows :: !x.Row? then Err(RowNotRow) else Ok(Table(rows))
  }

  // ---------------------------------------------------------------------
  // Document-like arguments and `splat`
  // ---------------------------------------------------------------------

  /** `DocLike`: a string, a document, or an iterable of document-likes. */
  datatype DocLike = Str(s: string) | Of(doc: Doc) | Many(items: seq<DocLike>)

  /** The class `splat` is asked to unpack one level (the source only ever
      passes none or one of `Cat`, `Row`, `Alt`). */
  datatype Unpack = NoUnpack | UnpackCat | UnpackRow | UnpackAlt

  predicate Unpacks(u: Unpack, d: Doc) {
    (u == UnpackCat && d.Cat?) || (u == UnpackRow && d.Row?) || (u == UnpackAlt && d.Alt?)
  }

  /** What `splat` yields for one document: its elements when it is of the
      unpacked class, otherwise the document itself. */
  function Unpacked(d: Doc, u: Unpack): seq<Doc> {
    if Unpacks(u, d) then (if d.Row? then d.cols else d.docs) else [d]
  }

  /** `splat(doclike, unpack)`: strings go through `Text.lines`, documents
      are unpacked one level when of the unpacked class, iterables are
      flattened completely. */
  function Splat(dl: DocLike, u: Unpack): seq<Doc>
    decreases dl
  {
    match dl
    case Str(s) => Unpacked(Lines(s), u)
    case Of(d) => Unpacked(d, u)
    case Many(items) => SplatAll(items, u)
  }

  function SplatAll(items: seq<DocLike>, u: Unpack): seq<Doc>
    decreases items
  {
    if items == [] then [] else Splat(items[0], u) + SplatAll(items[1..], u)
  }

  /** A sequence of documents passed as one iterable argument. */
  function Items(ds: seq<Doc>): (r: seq<DocLike>)
    ensures |r| == |ds| && forall i :: 0 <= i < |ds| ==> r[i] == Of(ds[i])
  {
    seq(|ds|, i requires 0 <= i < |ds| => Of(ds[i]))
  }

  /** `more_itertools.intersperse(sep, ds)`. */
  function Intersperse(sep: Doc, ds: seq<Doc>): seq<Doc> {
    if |ds| <= 1 then ds else [ds[0], sep] + Intersperse(sep, ds[1..])
  }

  /** The parts, in order, with `sep` spliced in between consecutive parts. */
  function JoinSeqs(sep: seq<Doc>, parts: seq<seq<Doc>>): seq<Doc> {
    if |parts| == 0 then []
    else if |parts| == 1 then parts[0]
    else parts[0] + sep + JoinSeqs(sep, parts[1..])
  }

  /** `Text.words(s)`: the words of `s.split()`, separated by `Space`. */
  function Words(s: string): Doc {
    var ws := SplitWords(s);
    Cat(Intersperse(Space, seq(|ws|, i requires 0 <= i < |ws| => Text(ws[i]))))
  }

  /** `Text.lines(s)`: the words of each line of `s.splitlines()`, the
      lines separated by `Line`. */
  function Lines(s: string): Doc {
    var ls := SplitLines(s);
    Cat(JoinSeqs([Line], seq(|ls|, i requires 0 <= i < |ls| => Words(ls[i]).docs)))
  }

  // ---------------------------------------------------------------------
  // Smart constructors and operators
  // ---------------------------------------------------------------------

  /** `cat(*doclike)`. */
  function CatOf(args: seq<DocLike>): Result<Doc, Failure> {
    NewCat(SplatAll(args, UnpackCat))
  }

  /** `row(*doclike)`. */
  function RowOf(args: seq<DocLike>): Result<Doc, Failure> {
    NewRow(SplatAll(args, UnpackRow))
  }

  /** `alt(*doclike)`. */
  function AltOf(args: seq<DocLike>): Result<Doc, Failure> {
    NewAlt(SplatAll(args, UnpackAlt))
  }

  /** `self.then(other)`, also `self / other`. */
  function Then(self: Doc, other: DocLike): Result<Doc, Failure> {
    CatOf([Of(self), other])
  }

  /** `other / self`: `cat(other).then(self)`. */
  function ThenFrom(other: DocLike, self: Doc): Result<Doc, Failure> {
    var c :- CatOf([other]);
    Then(c, Of(self))
  }

  /** `self.join(*others)`: the separator goes between the top-level
      documents of `others` before `cat` flattens them. */
  function Join(self: Doc, others: seq<DocLike>): Result<Doc, Failure> {
    CatOf([Many(Items(Intersperse(self, SplatAll(others, NoUnpack))))])
  }

  /** `self // other`: `self.then(Space).then(other)`. */
  function SpaceThen(self: Doc, other: DocLike): Result<Doc, Failure> {
    var c :- Then(self, Of(Space));
    Then(c, other)
  }

  /** `other // self`: `cat(other).then(Space).then(self)`. */
  function SpaceThenFrom(other: DocLike, self: Doc): Result<Doc, Failure> {
    var c :- CatOf([other]);
    var d :- Then(c, Of(Space));
    Then(d, Of(self))
  }

  /** `self & other` and `other & self`. */
  function Beside(self: Doc, other: DocLike): Result<Doc, Failure> {
    RowOf([Of(self), other])
  }

  function BesideFrom(other: DocLike, self: Doc): Result<Doc, Failure> {
    RowOf([other, Of(self)])
  }

  /** `self | other` and `other | self`. */
  function Or(self: Doc, other: DocLike): Result<Doc, Failure> {
    AltOf([Of(self), other])
  }

  function OrFrom(other: DocLike, self: Doc): Result<Doc, Failure> {
    AltOf([other, Of(self)])
  }

  /** `text * times` (and `times * text`): `cat(repeat(text, times))`. */
  function Times(text: Doc, times: int): Result<Doc, Failure>
    requires text.Text?
  {
    CatOf([Many(seq(if times <= 0 then 0 else times, _ => Of(text)))])
  }

  /** `cat(open, doclike, close)`, shared by the bracket helpers. */
  function Between(open: string, args: seq<DocLike>, close: string): Result<Doc, Failure> {
    CatOf([Str(open), Many(args), Str(close)])
  }

  function Parens(args: seq<DocLike>): Result<Doc, Failure> { Between("(", args, ")") }
  function Brackets(args: seq<DocLike>): Result<Doc, Failure> { Between("[", args, "]") }
  function Braces(args: seq<DocLike>): Result<Doc, Failure> { Between("{", args, "}") }
  function Angles(args: seq<DocLike>): Result<Doc, Failure> { Between("<", args, ">") }
  function Quote(args: seq<DocLike>): Result<Doc, Failure> { Between("\"", args, "\"") }

  // ---------------------------------------------------------------------
  // Laws
  // ---------------------------------------------------------------------

  predicate LikeWellFormed(dl: DocLike) {
    match dl
    case Str(_) => true
    case Of(d) => WellFormed(d)
    case Many(items) => forall x <- items :: LikeWellFormed(x)
  }

  /** `splat` over a sequence of documents: each one unpacked one level. */
  function UnpackAll(ds: seq<Doc>, u: Unpack): seq<Doc> {
    if ds == [] then [] else Unpacked(ds[0], u) + UnpackAll(ds[1..], u)
  }

  function Parts(ds: seq<Doc>, u: Unpack): (r: seq<seq<Doc>>)
    ensures |r| == |ds| && forall i :: 0 <= i < |ds| ==> r[i] == Unpacked(ds[i], u)
  {
    seq(|ds|, i requires 0 <= i < |ds| => Unpacked(ds[i], u))
  }

  /** The text a sequence of `Text` documents spells (other documents
      contribute nothing). */
  function Spelled(ds: seq<Doc>): string
  {
    if ds == [] then [] else (if ds[0].Text? then ds[0].text else []) + Spelled(ds[1..])
  }

  lemma SplatAllOne(x: DocLike, u: Unpack)
    ensures SplatAll([x], u) == Splat(x, u)
  {
    assert [x][1..] == [];
  }

  lemma SplatAllTwo(x: DocLike, y: DocLike, u: Unpack)
    ensures SplatAll([x, y], u) == Splat(x, u) + Splat(y, u)
  {
    assert [x, y][1..] == [y];
    SplatAllOne(y, u);
  }

  lemma SplatAllThree(x: DocLike, y: DocLike, z: DocLike, u: Unpack)
    ensures SplatAll([x, y, z], u) == Splat(x, u) + Splat(y, u) + Splat(z, u)
  {
    assert [x, y, z][1..] == [y, z];
    SplatAllTwo(y, z, u);
  }

  lemma {:induction false} SplatAllAppend(a: seq<DocLike>, b: seq<DocLike>, u: Unpack)
    ensures SplatAll(a + b, u) == SplatAll(a, u) + SplatAll(b, u)
  {
    if a == [] {
      assert a + b == b;
    } else {
      assert (a + b)[1..] == a[1..] + b;
      SplatAllAppend(a[1..], b, u);
    }
  }

  lemma {:induction false} SplatItems(ds: seq<Doc>, u: Unpack)
    ensures SplatAll(Items(ds), u) == UnpackAll(ds, u)
  {
    if ds != [] {
      assert Items(ds)[1..] == Items(ds[1..]);
      SplatItems(ds[1..], u);
    }
  }

  lemma {:induction false} UnpackAllUnchanged(ds: seq<Doc>, u: Unpack)
    requires forall x <- ds :: !Unpacks(u, x)
    ensures UnpackAll(ds, u) == ds
  {
    if ds != [] {
      UnpackAllUnchanged(ds[1..], u);
    }
  }

  lemma {:induction false} IntersperseMembers(sep: Doc, ds: seq<Doc>)
    ensures forall x <- Intersperse(sep, ds) :: x == sep || x in ds
  {
    if |ds| > 1 {
      IntersperseMembers(sep, ds[1..]);
    }
  }

  /** Unpacking after interspersing is joining the unpacked parts: the
      separator lands between top-level documents only, never inside one. */
  lemma {:induction false} UnpackIntersperse(sep: Doc, ds: seq<Doc>, u: Unpack)
    ensures UnpackAll(Intersperse(sep, ds), u) == JoinSeqs(Unpacked(sep, u), Parts(ds, u))
  {
    if |ds| == 1 {
      assert UnpackAll(ds[1..], u) == [];
      assert Unpacked(ds[0], u) + [] == Unpacked(ds[0], u);
    } else if |ds| > 1 {
      var rest := Intersperse(sep, ds[1..]);
      UnpackIntersperse(sep, ds[1..], u);
      assert Intersperse(sep, ds) == [ds[0]] + ([sep] + rest);
      assert Parts(ds, u)[1..] == Parts(ds[1..], u);
      calc {
        UnpackAll(Intersperse(sep, ds), u);
        Unpacked(ds[0], u) + UnpackAll([sep] + rest, u);
        { assert ([sep] + rest)[1..] == rest; }
        Unpacked(ds[0], u) + (Unpacked(sep, u) + UnpackAll(rest, u));
      }
    }
  }

  /** `sep.join(*others)` puts `sep` between the top-level documents of
      `others` and then flattens: each `Cat` among them contributes its
      elements with no separator inserted inside it. */
  lemma JoinSeparatesTopLevel(sep: Doc, others: seq<DocLike>)
    ensures Join(sep, others) ==
      NewCat(JoinSeqs(Unpacked(sep, UnpackCat), Parts(SplatAll(others, NoUnpack), UnpackCat)))
  {
    var xs := Intersperse(sep, SplatAll(others, NoUnpack));
    assert SplatAll([Many(Items(xs))], UnpackCat) == SplatAll(Items(xs), UnpackCat);
    SplatItems(xs, UnpackCat);
    UnpackIntersperse(sep, SplatAll(others, NoUnpack), UnpackCat);
  }

  lemma {:induction false} FirstSpaceOfWord(w: string)
    requires NoSpace(w)
    ensures FirstSpace(w) == |w|
  {
    if w != [] {
      FirstSpaceOfWord(w[1..]);
    }
  }

  /** A string of one word, without whitespace, becomes that one `Text`. */
  lemma LinesOfWord(w: string)
    requires |w| > 0 && NoSpace(w)
    ensures Lines(w) == Cat([Text(w)])
  {
    FirstSpaceOfWord(w);
    assert w[|w|..] == [];
    assert w[..|w|] == w;
    assert SplitWords(w) == [w];
    forall i | 0 <= i < |w| ensures !IsLineBreak(w[i]) {
      if IsLineBreak(w[i]) {
        LineBreakIsSpace(w[i]);
      }
    }
    SplitLinesOfLine(w);
  }

  lemma {:induction false} WordsAreTexts(s: string)
    ensures forall x <- Words(s).docs ::
      x == Space || (x.Text? && |x.text| > 0 && NoSpace(x.text))
  {
    var ws := SplitWords(s);
    SplitWordsAreWords(s);
    IntersperseMembers(Space, seq(|ws|, i requires 0 <= i < |ws| => Text(ws[i])));
  }

  lemma {:induction false} JoinSeqsMembers(sep: seq<Doc>, parts: seq<seq<Doc>>)
    ensures forall x <- JoinSeqs(sep, parts) :: x in sep || exists i :: 0 <= i < |parts| && x in parts[i]
  {
    if |parts| > 1 {
      JoinSeqsMembers(sep, parts[1..]);
      forall x <- JoinSeqs(sep, parts[1..])
        ensures x in sep || exists i :: 0 <= i < |parts| && x in parts[i]
      {
        if x !in sep {
          var i :| 0 <= i < |parts[1..]| && x in parts[1..][i];
          assert x in parts[i + 1];
        }
      }
    }
  }

  /** Everything `Text.lines` produces is a word `Text`, `Space` or `Line`. */
  lemma LinesAreTexts(s: string)
    ensures forall x <- Lines(s).docs ::
      x == Space || x == Line || (x.Text? && |x.text| > 0 && NoSpace(x.text))
  {
    var ls := SplitLines(s);
    var parts := seq(|ls|, i requires 0 <= i < |ls| => Words(ls[i]).docs);
    JoinSeqsMembers([Line], parts);
    forall x <- Lines(s).docs
      ensures x == Space || x == Line || (x.Text? && |x.text| > 0 && NoSpace(x.text))
    {
      if x != Line {
        var i :| 0 <= i < |parts| && x in parts[i];
        WordsAreTexts(ls[i]);
      }
    }
  }

  /** `Text.lines(s)` is a well-formed flat `Cat`. */
  lemma LinesWellFormed(s: string)
    ensures WellFormed(Lines(s))
    ensures forall x <- Lines(s).docs :: x.Text? && x != Empty
  {
    LinesAreTexts(s);
  }

  /** `Text.words` is `Space.join` over the `Text` of each word, as the
      source composes it. */
  lemma WordsIsSpaceJoin(s: string)
    ensures
      var ws := SplitWords(s);
      Join(Space, [Many(Items(seq(|ws|, i requires 0 <= i < |ws| => Text(ws[i]))))]) == Ok(Words(s))
  {
    var ws := SplitWords(s);
    var texts := seq(|ws|, i requires 0 <= i < |ws| => Text(ws[i]));
    assert SplatAll([Many(Items(texts))], NoUnpack) == SplatAll(Items(texts), NoUnpack);
    SplatItems(texts, NoUnpack);
    UnpackAllUnchanged(texts, NoUnpack);
    var xs := Intersperse(Space, texts);
    assert SplatAll([Many(Items(xs))], UnpackCat) == SplatAll(Items(xs), UnpackCat);
    SplatItems(xs, UnpackCat);
    WordsAreTexts(s);
    UnpackAllUnchanged(xs, UnpackCat);
  }

  /** `Text.words` of each line. */
  function WordsOfLines(ls: seq<string>): (ws: seq<Doc>)
    ensures |ws| == |ls| && forall i :: 0 <= i < |ls| ==> ws[i] == Words(ls[i])
  {
    seq(|ls|, i requires 0 <= i < |ls| => Words(ls[i]))
  }

  /** `Text.lines` is `Line.join` over `Text.words` of each line, as the
      source composes it. */
  lemma LinesIsLineJoin(s: string)
    ensures Join(Line, [Many(Items(WordsOfLines(SplitLines(s))))]) == Ok(Lines(s))
  {
    LineJoinIsNewCat(s);
    LinesIsCat(s);
  }

  lemma LineJoinIsNewCat(s: string)
    ensures Join(Line, [Many(Items(WordsOfLines(SplitLines(s))))]) == NewCat(Lines(s).docs)
  {
    var ls := SplitLines(s);
    var words := WordsOfLines(ls);
    SplatOneIterable(words);
    JoinSeparatesTopLevel(Line, [Many(Items(words))]);
    assert Parts(words, UnpackCat) == seq(|ls|, i requires 0 <= i < |ls| => Words(ls[i]).docs);
    assert Unpacked(Line, UnpackCat) == [Line];
  }

  /** One iterable of documents, splatted without unpacking, is those
      documents. */
  lemma SplatOneIterable(ds: seq<Doc>)
    ensures SplatAll([Many(Items(ds))], NoUnpack) == ds
  {
    assert SplatAll([Many(Items(ds))], NoUnpack) == SplatAll(Items(ds), NoUnpack) by {
      assert [Many(Items(ds))][1..] == [];
    }
    SplatItems(ds, NoUnpack);
    UnpackAllUnchanged(ds, NoUnpack);
  }

  lemma LinesIsCat(s: string)
    ensures NewCat(Lines(s).docs) == Ok(Lines(s))
  {
    LinesAreTexts(s);
    assert forall x <- Lines(s).docs :: !x.Cat? && x != Empty;
  }

  lemma {:induction false} SpelledAppend(a: seq<Doc>, b: seq<Doc>)
    ensures Spelled(a + b) == Spelled(a) + Spelled(b)
  {
    if a == [] {
      assert a + b == b;
    } else {
      assert (a + b)[1..] == a[1..] + b;
      SpelledAppend(a[1..], b);
    }
  }

  lemma {:induction false} SpelledWords(ws: seq<string>)
    ensures Spelled(Intersperse(Space, seq(|ws|, i requires 0 <= i < |ws| => Text(ws[i])))) == PyStr.Join(" ", ws)
  {
    var texts := seq(|ws|, i requires 0 <= i < |ws| => Text(ws[i]));
    if |ws| == 1 {
      assert Spelled(texts) == ws[0] + Spelled([]);
    } else if |ws| > 1 {
      var rest := seq(|ws[1..]|, i requires 0 <= i < |ws[1..]| => Text(ws[1..][i]));
      assert texts[1..] == rest;
      SpelledWords(ws[1..]);
      SpelledAppend([texts[0], Space], Intersperse(Space, rest));
      assert Spelled([texts[0], Space]) == ws[0] + " ";
    }
  }

  lemma {:induction false} SpelledJoinSeqs(parts: seq<seq<Doc>>, texts: seq<string>)
    requires |parts| == |texts|
    requires forall i :: 0 <= i < |parts| ==> Spelled(parts[i]) == texts[i]
    ensures Spelled(JoinSeqs([Line], parts)) == PyStr.Join("\n", texts)
  {
    if |parts| > 1 {
      SpelledJoinSeqs(parts[1..], texts[1..]);
      SpelledAppend(parts[0], [Line]);
      SpelledAppend(parts[0] + [Line], JoinSeqs([Line], parts[1..]));
    }
  }

  /** What `Text.lines(s)` spells: each line's words rejoined by single
      spaces, the lines rejoined by newlines. Runs of whitespace inside a
      line collapse; blank lines stay. */
  lemma SpelledLines(s: string)
    ensures forall x <- Lines(s).docs :: x.Text?
    ensures
      var ls := SplitLines(s);
      Spelled(Lines(s).docs) ==
        PyStr.Join("\n", seq(|ls|, i requires 0 <= i < |ls| => PyStr.Join(" ", SplitWords(ls[i]))))
  {
    var ls := SplitLines(s);
    var parts := seq(|ls|, i requires 0 <= i < |ls| => Words(ls[i]).docs);
    var texts := seq(|ls|, i requires 0 <= i < |ls| => PyStr.Join(" ", SplitWords(ls[i])));
    forall i | 0 <= i < |parts|
      ensures Spelled(parts[i]) == texts[i]
    {
      SpelledWords(SplitWords(ls[i]));
    }
    SpelledJoinSeqs(parts, texts);
    LinesAreTexts(s);
  }

  /** What `splat` yields from well-formed input is well-formed and never of
      the class it unpacks. */
  lemma {:induction false} SplatWellFormed(dl: DocLike, u: Unpack)
    requires LikeWellFormed(dl)
    ensures forall x <- Splat(dl, u) :: WellFormed(x) && !Unpacks(u, x)
    decreases dl, 1
  {
    match dl
    case Str(s) =>
      LinesWellFormed(s);
    case Of(d) =>
    case Many(items) =>
      SplatAllWellFormed(items, u);
  }

  lemma {:induction false} SplatAllWellFormed(items: seq<DocLike>, u: Unpack)
    requires forall x <- items :: LikeWellFormed(x)
    ensures forall x <- SplatAll(items, u) :: WellFormed(x) && !Unpacks(u, x)
    decreases items, 0
  {
    if items != [] {
      SplatWellFormed(items[0], u);
      SplatAllWellFormed(items[1..], u);
    }
  }

  /** `cat` never produces a `Cat` inside a `Cat` from well-formed input; it
      fails exactly when `Empty` is among the spliced documents (it does not
      drop `Empty`), and otherwise yields a well-formed `Cat`. */
  lemma CatOfFlat(args: seq<DocLike>)
    requires forall x <- args :: LikeWellFormed(x)
    ensures CatOf(args).Ok? <==> Empty !in SplatAll(args, UnpackCat)
    ensures CatOf(args).Ok? ==> WellFormed(CatOf(args).value)
  {
    SplatAllWellFormed(args, UnpackCat);
  }

  /** `row` on well-formed input always succeeds, with no `Row` inside. */
  lemma RowOfFlat(args: seq<DocLike>)
    requires forall x <- args :: LikeWellFormed(x)
    ensures RowOf(args).Ok? && WellFormed(RowOf(args).value)
  {
    SplatAllWellFormed(args, UnpackRow);
  }

  /** `alt` on well-formed input always succeeds, with no `Alt` inside. */
  lemma AltOfFlat(args: seq<DocLike>)
    requires forall x <- args :: LikeWellFormed(x)
    ensures AltOf(args).Ok? && WellFormed(AltOf(args).value)
  {
    SplatAllWellFormed(args, UnpackAlt);
  }

  /** `a // b` puts exactly one `Space` between the parts of `a` and of `b`. */
  lemma SpaceThenOneSpace(a: Doc, b: DocLike)
    requires WellFormed(a) && LikeWellFormed(b)
    ensures SpaceThen(a, b).Ok? <==> Empty !in Unpacked(a, UnpackCat) + Splat(b, UnpackCat)
    ensures SpaceThen(a, b).Ok? ==>
      SpaceThen(a, b).value == Cat(Unpacked(a, UnpackCat) + [Space] + Splat(b, UnpackCat))
  {
    var pa, pb := Unpacked(a, UnpackCat), Splat(b, UnpackCat);
    SplatAllTwo(Of(a), Of(Space), UnpackCat);
    SplatAllOne(b, UnpackCat);
    SplatWellFormed(Of(a), UnpackCat);
    SplatWellFormed(b, UnpackCat);
    if Empty !in pa {
      SplatAllTwo(Of(Cat(pa + [Space])), b, UnpackCat);
    }
  }

  lemma {:induction false} SplatCopies(t: Doc, n: nat)
    requires t.Text?
    ensures SplatAll(seq(n, _ => Of(t)), UnpackCat) == seq(n, _ => t)
  {
    if n > 0 {
      assert seq(n, _ => Of(t))[1..] == seq(n - 1, _ => Of(t));
      SplatCopies(t, n - 1);
      assert [t] + seq(n - 1, _ => t) == seq(n, _ => t);
    }
  }

  /** `t * n` is a `Cat` of `n` copies of `t` (none when `n <= 0`); with
      `t` the empty text and `n > 0` the `Cat` check fails. */
  lemma TimesRepeats(t: Doc, n: int)
    requires t.Text?
    ensures Times(t, n) ==
      if n > 0 && t == Empty then Err(EmptyInCat)
      else Ok(Cat(seq(if n <= 0 then 0 else n, _ => t)))
  {
    var k := if n <= 0 then 0 else n;
    assert SplatAll([Many(seq(k, _ => Of(t)))], UnpackCat) == SplatAll(seq(k, _ => Of(t)), UnpackCat);
    SplatCopies(t, k);
    if n > 0 && t == Empty {
      assert seq(k, _ => t)[0] == Empty;
    }
  }

  /** The bracket helpers put one fixed opening and one fixed closing `Text`
      around the flattened content. */
  lemma BetweenWraps(open: string, args: seq<DocLike>, close: string)
    requires |open| > 0 && NoSpace(open) && |close| > 0 && NoSpace(close)
    ensures Between(open, args, close) ==
      NewCat([Text(open)] + SplatAll(args, UnpackCat) + [Text(close)])
  {
    LinesOfWord(open);
    LinesOfWord(close);
    SplatAllThree(Str(open), Many(args), Str(close), UnpackCat);
  }

  /** `Nest(i, Nest(j, d))` is `Nest(i + j, d)`. */
  lemma NestMerges(i: int, j: int, d: Doc)
    requires !d.Nest?
    ensures NewNest(i, Nest(j, d)) == NewNest(i + j, d)
  {
  }

  /** The regular expression is anchored at the start only. */
  lemma TextChecksFirstCharacterOnly()
    ensures NewText("a b") == Ok(Text("a b"))
    ensures NewText(" a") == Err(TextNotWord)
    ensures NewText("\ta") == Err(TextNotWord)
  {
  }

  /** `SoftLine` is `Empty | Line`. */
  lemma SoftLineIsAlternative()
    ensures Or(Empty, Of(Line)) == Ok(SoftLine)
  {
    SplatAllTwo(Of(Empty), Of(Line), UnpackAlt);
    assert Splat(Of(Empty), UnpackAlt) + Splat(Of(Line), UnpackAlt) == [Empty, Line];
  }

  /** `cat` keeps `Empty` and so trips the `Cat` check on it. */
  lemma CatKeepsEmpty(d: Doc)
    ensures CatOf([Of(d), Of(Empty)]) == (if d.Cat? then NewCat(d.docs + [Empty]) else NewCat([d, Empty]))
    ensures CatOf([Of(Empty)]) == Err(EmptyInCat)
  {
    SplatAllTwo(Of(d), Of(Empty), UnpackCat);
    SplatAllOne(Of(Empty), UnpackCat);
  }
}
