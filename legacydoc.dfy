/** The older document algebra of the pretty-printer
    (talon_fmt/prettyprinter/doc.py): separate `Empty` and `Line` singletons,
    texts without newlines, the interned `Space` and `SoftLine`, `nest`
    arithmetic, and the `flatten`-based smart constructors and operators.

    A Python constructor that fails one of its assertions is modelled as a
    function returning `Err`. The singletons and the interned objects are
    constants: every constructor that could produce an equal object returns
    the interned one, so comparing by identity and by value agree on them.

    `Cat.__init__` as written keeps only the falsy documents
    (`filterfalse(bool, ...)`); `CatAsWritten` models that, and `NewCat`
    is the evidently intended constructor, which drops them and which
    everything else here is built on. */
module LegacyDoc {
  import opened Results
  import PyStr

  datatype Doc =
    | Empty
    | Line
    | Text(text: string)
    | HStretch(charText: Doc)
    | VStretch(doc: Doc)
    | Nest(indent: int, doc: Doc)
    | Alt(docs: seq<Doc>)
    | Cat(docs: seq<Doc>)
    | Row(docs: seq<Doc>)

  /** The constructor assertion that failed (each an `AssertionError`). */
  datatype Failure =
    | TextHasNewline     // Text.__init__
    | StretchNotText     // HStretch.__init__: the character is not a Text
    | StretchNotOneChar  // HStretch.__init__: the text is not one character
    | NestOfNest         // Nest.__init__: the child is still a Nest
    | IndentNotPositive  // Nest.__init__
    | AltInAlt           // Alt.__init__
    | CatInCat           // Cat.__init__: a Cat inside the Cat
    | EmptyInCat         // Cat.__init__: Empty inside the Cat
    | RowInRow           // Row.__init__

  const Space: Doc := Text(" ")
  const SoftLine: Doc := Alt([Empty, Line])

  /** The invariants the constructors assert, holding at every level. */
  predicate WellFormed(d: Doc) {
    match d
    case Empty => true
    case Line => true
    case Text(t) => t != "" && '\n' !in t
    case HStretch(c) => c.Text? && |c.text| == 1 && WellFormed(c)
    case VStretch(c) => WellFormed(c)
    case Nest(i, c) => i > 0 && !c.Nest? && WellFormed(c)
    case Alt(ds) => |ds| > 0 && forall x <- ds :: !x.Alt? && WellFormed(x)
    case Cat(ds) => forall x <- ds :: !x.Cat? && x != Empty && WellFormed(x)
    case Row(ds) => forall x <- ds :: !x.Row? && WellFormed(x)
  }

  // ---------------------------------------------------------------------
  // Constructors
  // ---------------------------------------------------------------------

  /** `Text(s)`: `Text.__new__` (an empty string is `Empty`, a single space
      the interned `Space`) followed, for a `Text`, by `Text.__init__`. */
  function NewText(s: string): (r: Result<Doc, Failure>)
    ensures r.Err? <==> s != "" && '\n' in s
    ensures r.Ok? ==> WellFormed(r.value) && (r.value == Empty <==> s == "")
    ensures r.Ok? && s != "" ==> r.value == Text(s)
  {
    if s == "" then Ok(Empty)
    else if s == " " then Ok(Space)
    else if '\n' in s then Err(TextHasNewline)
    else Ok(Text(s))
  }

  /** The class `flatten` is asked to unpack one level. */
  datatype Kind = CatKind | AltKind | RowKind

  predicate IsKind(d: Doc, k: Kind) {
    match k
    case CatKind => d.Cat?
    case AltKind => d.Alt?
    case RowKind => d.Row?
  }

  /** Some document of `ds` is of class `k`. */
  predicate AnyKind(ds: seq<Doc>, k: Kind) {
    ds != [] && (IsKind(ds[0], k) || AnyKind(ds[1..], k))
  }

  lemma {:induction false} AnyKindIff(ds: seq<Doc>, k: Kind)
    ensures AnyKind(ds, k) <==> exists x <- ds :: IsKind(x, k)
  {
    if ds != [] {
      AnyKindIff(ds[1..], k);
      assert forall x <- ds :: x == ds[0] || x in ds[1..];
      assert forall x <- ds[1..] :: x in ds;
    }
  }

  /** `flatten` over documents: each one unpacked one level when it is of
      the unpacked class. */
  function Splice(ds: seq<Doc>, k: Kind): seq<Doc> {
    if ds == [] then [] else (if IsKind(ds[0], k) then ds[0].docs else [ds[0]]) + Splice(ds[1..], k)
  }

  /** The documents whose truth value is `!empties`: `filter(bool, ds)` keeps
      every document but `Empty`, `filterfalse(bool, ds)` keeps only `Empty`
      (every other document is truthy). */
  function Select(ds: seq<Doc>, empties: bool): seq<Doc> {
    if ds == [] then [] else (if (ds[0] == Empty) == empties then [ds[0]] else []) + Select(ds[1..], empties)
  }

  /** `Cat(docs)` as written: `filterfalse(bool, ...)` keeps only the
      `Empty` documents, which the next assertion then rejects. */
  function CatAsWritten(ds: seq<Doc>): (r: Result<Doc, Failure>)
  {
    var kept := Select(Splice(ds, CatKind), true);
    if AnyKind(kept, CatKind) then Err(CatInCat)
    else if Empty in kept then Err(EmptyInCat)
    else Ok(Cat(kept))
  }

  /** `Cat(docs)` as intended: the flattened documents without `Empty`. */
  function NewCat(ds: seq<Doc>): (r: Result<Doc, Failure>)
    ensures r.Ok? ==> r.value.Cat? && forall x <- r.value.docs :: !x.Cat? && x != Empty
    ensures r.Err? ==> r.error == CatInCat
  {
    var kept := Select(Splice(ds, CatKind), false);
    if AnyKind(kept, CatKind) then Err(CatInCat)
    else
      AnyKindIff(kept, CatKind);
      SelectMembers(Splice(ds, CatKind), false);
      Ok(Cat(kept))
  }

  /** `Row(docs)`. */
  function NewRow(ds: seq<Doc>): (r: Result<Doc, Failure>)
    ensures r.Ok? ==> r.value.Row? && forall x <- r.value.docs :: !x.Row?
  {
    var docs := Splice(ds, RowKind);
    if AnyKind(docs, RowKind) then Err(RowInRow) else AnyKindIff(docs, RowKind); Ok(Row(docs))
  }

  /** `Alt(docs)`: `Alt.__new__` (no alternatives is `Empty`; exactly
      `Empty` then `Line` is the interned `SoftLine`) followed, for an
      `Alt`, by `Alt.__init__`. */
  function NewAlt(ds: seq<Doc>): (r: Result<Doc, Failure>)
  {
    var docs := Splice(ds, AltKind);
    if docs == [] then Ok(Empty)
    else if docs == [Empty, Line] then Ok(SoftLine)
    else if AnyKind(docs, AltKind) then Err(AltInAlt)
    else Ok(Alt(docs))
  }

  /** `Nest(indent, doc)` once `doc` is a document: a nested `Nest` is
      merged by adding the indents. */
  function NestOf(indent: int, d: Doc): (r: Result<Doc, Failure>)
    ensures r.Ok? ==> r.value.Nest? && r.value.indent > 0 && !r.value.doc.Nest?
  {
    var (i, c) := if d.Nest? then (indent + d.indent, d.doc) else (indent, d);
    if c.Nest? then Err(NestOfNest)
    else if i <= 0 then Err(IndentNotPositive)
    else Ok(Nest(i, c))
  }

  // ---------------------------------------------------------------------
  // Document-like arguments
  // ---------------------------------------------------------------------

  /** `DocLike`: a string or a document. */
  datatype DocLike = Str(s: string) | Of(doc: Doc)

  /** `DocLikes`: one document-like or an iterable of them. */
  datatype DocLikes = One(item: DocLike) | Many(items: seq<DocLike>)

  /** Python truthiness of a document-like: the empty string and `Empty`
      are false. */
  predicate Truthy(dl: DocLike) {
    match dl
    case Str(s) => s != ""
    case Of(d) => d != Empty
  }

  /** `more_itertools.intersperse(sep, ds)`. */
  function Intersperse(sep: Doc, ds: seq<Doc>): (r: seq<Doc>)
    ensures |r| == if ds == [] then 0 else 2 * |ds| - 1
  {
    if |ds| <= 1 then ds else [ds[0], sep] + Intersperse(sep, ds[1..])
  }

  /** `Text(line)` for each line, in order. */
  function TextsOf(lines: seq<string>): (r: Result<seq<Doc>, Failure>)
    ensures r.Ok? ==> |r.value| == |lines|
  {
    if lines == [] then Ok([])
    else
      var d := NewText(lines[0]);
      var rest := TextsOf(lines[1..]);
      if d.Err? then Err(d.error) else if rest.Err? then rest else Ok([d.value] + rest.value)
  }

  /** `to_doc(doc_like)`: a string of several lines is `cat` of its lines
      separated by `Line` (each line is one `Text`, see `ToDocOfLine`);
      any other string is `Text` of the whole string, line boundaries and
      all; a document is itself. */
  function ToDoc(dl: DocLike): (r: Result<Doc, Failure>)
  {
    match dl
    case Of(d) => Ok(d)
    case Str(s) =>
      var lines := PyStr.SplitLines(s);
      if |lines| > 1 then
        var ds :- TextsOf(lines);
        NewCat(Intersperse(Line, ds))
      else NewText(s)
  }

  /** `to_docs(doc_likes)`. */
  function ToDocs(x: DocLikes): (r: Result<seq<Doc>, Failure>)
  {
    match x
    case One(dl) => var d :- ToDoc(dl); Ok([d])
    case Many(items) => ToDocAll(items)
  }

  function ToDocAll(items: seq<DocLike>): (r: Result<seq<Doc>, Failure>)
    ensures r.Ok? ==> |r.value| == |items|
  {
    if items == [] then Ok([])
    else
      var d :- ToDoc(items[0]);
      var rest :- ToDocAll(items[1..]);
      Ok([d] + rest)
  }

  /** `flatten(doc_likes, unpack_cls)`: a document of the unpacked class
      gives its elements, anything else goes through `to_doc`. */
  function Flatten(items: seq<DocLike>, k: Kind): (r: Result<seq<Doc>, Failure>)
  {
    if items == [] then Ok([])
    else
      var first := ItemDocs(items[0], k);
      if first.Err? then Err(first.error)
      else
        var rest := Flatten(items[1..], k);
        if rest.Err? then rest else Ok(first.value + rest.value)
  }

  /** What `flatten` yields for one document-like. */
  function ItemDocs(dl: DocLike, k: Kind): Result<seq<Doc>, Failure> {
    if dl.Of? && IsKind(dl.doc, k) then Ok(dl.doc.docs)
    else
      var d :- ToDoc(dl);
      Ok([d])
  }

  /** Strings passed as an iterable of document-likes. */
  function StrItems(ss: seq<string>): (r: seq<DocLike>)
    ensures |r| == |ss| && forall i :: 0 <= i < |ss| ==> r[i] == Str(ss[i])
  {
    seq(|ss|, i requires 0 <= i < |ss| => Str(ss[i]))
  }

  /** Documents passed as an iterable of document-likes. */
  function Items(ds: seq<Doc>): (r: seq<DocLike>)
    ensures |r| == |ds| && forall i :: 0 <= i < |ds| ==> r[i] == Of(ds[i])
  {
    seq(|ds|, i requires 0 <= i < |ds| => Of(ds[i]))
  }

  // ---------------------------------------------------------------------
  // Smart constructors and operators
  // ---------------------------------------------------------------------

  /** `cat(doc_likes, separator)`. The test `if docs:` is on a generator,
      which is always true, so the `Empty` branch is never taken. A truthy
      separator goes through `to_doc` before any document. */
  function CatOf(items: seq<DocLike>, separator: Option<DocLike>): (r: Result<Doc, Failure>)
    ensures r.Ok? ==> r.value.Cat?
  {
    if separator.Some? && Truthy(separator.value) then
      var sep :- ToDoc(separator.value);
      var ds :- Flatten(items, CatKind);
      NewCat(Intersperse(sep, ds))
    else
      var ds :- Flatten(items, CatKind);
      NewCat(ds)
  }

  /** `row(doc_likes)`. */
  function RowOf(items: seq<DocLike>): (r: Result<Doc, Failure>)
    ensures r.Ok? ==> r.value.Row?
  {
    var ds :- Flatten(items, RowKind);
    NewRow(ds)
  }

  /** `alt(doc_likes)`. */
  function AltOf(items: seq<DocLike>): Result<Doc, Failure>
  {
    var ds :- Flatten(items, AltKind);
    NewAlt(ds)
  }

  /** `self.then(other)`, also `self / other`. */
  function Then(self: Doc, other: DocLike): Result<Doc, Failure> {
    CatOf([Of(self), other], None)
  }

  /** `other / self`. */
  function ThenFrom(other: DocLike, self: Doc): Result<Doc, Failure> {
    var o :- ToDoc(other);
    Then(o, Of(self))
  }

  /** `self.join(others)`: `self` separates the documents of `others`,
      unless `self` is `Empty`, which is false and so no separator. */
  function Join(self: Doc, others: DocLikes): Result<Doc, Failure> {
    var ds :- ToDocs(others);
    CatOf(Items(ds), Some(Of(self)))
  }

  /** `self.nest(indent)`, with the overrides of `EmptyType` and `Nest`. */
  function NestBy(self: Doc, indent: int): Result<Doc, Failure> {
    match self
    case Empty => Ok(Empty)
    case Nest(k, c) => if k + indent <= 0 then Ok(c) else NestOf(k + indent, c)
    case _ => if indent <= 0 then Ok(self) else NestOf(indent, self)
  }

  /** `Nest(indent, doc_like)`. */
  function NewNest(indent: int, dl: DocLike): Result<Doc, Failure> {
    var d :- ToDoc(dl);
    NestOf(indent, d)
  }

  /** `self // other`: one `Space` between, unless `other` is already
      `Space` or `Empty`. */
  function SpaceThen(self: Doc, other: DocLike): Result<Doc, Failure> {
    var o :- ToDoc(other);
    if o == Space || o == Empty then Then(self, Of(o))
    else
      var c :- Then(self, Of(Space));
      Then(c, Of(o))
  }

  /** `other // self`. */
  function SpaceThenFrom(other: DocLike, self: Doc): Result<Doc, Failure> {
    var o :- ToDoc(other);
    SpaceThen(o, Of(self))
  }

  /** `self & other` and `other & self`. */
  function Beside(self: Doc, other: DocLike): Result<Doc, Failure> {
    RowOf([Of(self), other])
  }

  function BesideFrom(other: DocLike, self: Doc): Result<Doc, Failure> {
    var o :- ToDoc(other);
    Beside(o, Of(self))
  }

  /** `self | other` and `other | self`. */
  function Or(self: Doc, other: DocLike): Result<Doc, Failure> {
    AltOf([Of(self), other])
  }

  function OrFrom(other: DocLike, self: Doc): Result<Doc, Failure> {
    var o :- ToDoc(other);
    Or(o, Of(self))
  }

  /** `text * times` (and `times * text`): `cat(repeat(text, times))`. */
  function Times(text: Doc, times: int): Result<Doc, Failure>
    requires text.Text?
  {
    CatOf(Items(Copies(text, times)), None)
  }

  function Copies(d: Doc, n: int): (r: seq<Doc>)
    ensures |r| == if n <= 0 then 0 else n
    ensures forall x <- r :: x == d
    decreases n
  {
    if n <= 0 then [] else [d] + Copies(d, n - 1)
  }

  /** `HStretch(char)`: the character must be a one-character `Text`. */
  function NewHStretch(dl: DocLike): (r: Result<Doc, Failure>)
    ensures r.Ok? ==> r.value.HStretch? && r.value.charText.Text? && |r.value.charText.text| == 1
  {
    var c :- ToDoc(dl);
    if !c.Text? then Err(StretchNotText)
    else if |c.text| != 1 then Err(StretchNotOneChar)
    else Ok(HStretch(c))
  }

  /** `VStretch(doc)`. */
  function NewVStretch(dl: DocLike): Result<Doc, Failure> {
    var d :- ToDoc(dl);
    Ok(VStretch(d))
  }

  /** `between(open, doc_likes, close, separator=...)`. Every failure on
      the way is a string with a newline, so the order in which the lazy
      generators would meet them does not matter. */
  function Between(open: DocLike, x: DocLikes, close: DocLike, separator: Option<DocLike>): Result<Doc, Failure> {
    var ds :- ToDocs(x);
    CatOf([open] + Items(ds) + [close], separator)
  }

  function Parens(x: DocLikes, separator: Option<DocLike>): Result<Doc, Failure> {
    Between(Str("("), x, Str(")"), separator)
  }

  function Brackets(x: DocLikes, separator: Option<DocLike>): Result<Doc, Failure> {
    Between(Str("["), x, Str("]"), separator)
  }

  function Braces(x: DocLikes, separator: Option<DocLike>): Result<Doc, Failure> {
    Between(Str("{"), x, Str("}"), separator)
  }

  function Angles(x: DocLikes, separator: Option<DocLike>): Result<Doc, Failure> {
    Between(Str("<"), x, Str(">"), separator)
  }

  // ---------------------------------------------------------------------
  // repr
  // ---------------------------------------------------------------------

  /** The documents whose `repr` the classes define themselves: `Empty`,
      `Line` and alternatives of those. */
  predicate HasOwnRepr(d: Doc) {
    match d
    case Empty => true
    case Line => true
    case Alt(ds) => forall x <- ds :: HasOwnRepr(x)
    case _ => false
  }

  /** `repr(d)`. */
  function Repr(d: Doc): string
    requires HasOwnRepr(d)
  {
    match d
    case Empty => "Empty"
    case Line => "Line"
    case Alt(ds) => if d == SoftLine then "SoftLine" else PyStr.Join(" | ", ReprAll(ds))
  }

  function ReprAll(ds: seq<Doc>): (r: seq<string>)
    requires forall x <- ds :: HasOwnRepr(x)
    ensures |r| == |ds|
  {
    if ds == [] then [] else [Repr(ds[0])] + ReprAll(ds[1..])
  }

  // ---------------------------------------------------------------------
  // Laws
  // ---------------------------------------------------------------------

  lemma {:induction false} SelectMembers(ds: seq<Doc>, empties: bool)
    ensures forall x <- Select(ds, empties) :: x in ds && (x == Empty) == empties
  {
    if ds != [] {
      SelectMembers(ds[1..], empties);
    }
  }

  lemma {:induction false} SelectAppend(a: seq<Doc>, b: seq<Doc>, empties: bool)
    ensures Select(a + b, empties) == Select(a, empties) + Select(b, empties)
  {
    if a == [] {
      assert a + b == b;
    } else {
      var head := if (a[0] == Empty) == empties then [a[0]] else [];
      assert (a + b)[0] == a[0];
      assert (a + b)[1..] == a[1..] + b;
      SelectAppend(a[1..], b, empties);
      assert Select(a + b, empties) == head + Select(a[1..] + b, empties);
      assert head + (Select(a[1..], empties) + Select(b, empties)) == (head + Select(a[1..], empties)) + Select(b, empties);
    }
  }

  lemma {:induction false} SpliceAppend(a: seq<Doc>, b: seq<Doc>, k: Kind)
    ensures Splice(a + b, k) == Splice(a, k) + Splice(b, k)
  {
    if a == [] {
      assert a + b == b;
    } else {
      assert (a + b)[1..] == a[1..] + b;
      SpliceAppend(a[1..], b, k);
    }
  }

  /** Flattening well-formed documents leaves none of the unpacked class:
      such a document's own elements are never of its class. */
  lemma {:induction false} SpliceWellFormed(ds: seq<Doc>, k: Kind)
    requires forall x <- ds :: WellFormed(x)
    ensures forall x <- Splice(ds, k) :: WellFormed(x) && !IsKind(x, k)
  {
    if ds != [] {
      assert ds[0] in ds;
      forall x <- ds[1..] ensures WellFormed(x) {
        assert x in ds;
      }
      SpliceWellFormed(ds[1..], k);
    }
  }

  lemma {:induction false} SpliceUnchanged(ds: seq<Doc>, k: Kind)
    requires forall x <- ds :: !IsKind(x, k)
    ensures Splice(ds, k) == ds
  {
    if ds != [] {
      assert ds[0] in ds;
      forall x <- ds[1..] ensures !IsKind(x, k) {
        assert x in ds;
      }
      SpliceUnchanged(ds[1..], k);
      assert ds == [ds[0]] + ds[1..];
    }
  }

  /** `flatten` over documents is `Splice`. */
  lemma {:induction false} FlattenItems(ds: seq<Doc>, k: Kind)
    ensures Flatten(Items(ds), k) == Ok(Splice(ds, k))
  {
    if ds != [] {
      assert Items(ds)[1..] == Items(ds[1..]);
      FlattenItems(ds[1..], k);
    }
  }

  /** What a document contributes to a concatenation: nothing for `Empty`,
      the elements of a `Cat`, otherwise itself. */
  function Parts(d: Doc): seq<Doc> {
    if d == Empty then [] else if d.Cat? then d.docs else [d]
  }

  function PartsAll(ds: seq<Doc>): seq<Doc> {
    if ds == [] then [] else Parts(ds[0]) + PartsAll(ds[1..])
  }

  lemma {:induction false} PartsAllAppend(a: seq<Doc>, b: seq<Doc>)
    ensures PartsAll(a + b) == PartsAll(a) + PartsAll(b)
  {
    if a == [] {
      assert a + b == b;
    } else {
      assert (a + b)[1..] == a[1..] + b;
      PartsAllAppend(a[1..], b);
    }
  }

  lemma PartsAllOne(d: Doc)
    ensures PartsAll([d]) == Parts(d)
  {
    assert [d][1..] == [];
  }

  /** Documents that are neither `Cat` nor `Empty` are their own parts. */
  lemma {:induction false} PartsAllUnchanged(ds: seq<Doc>)
    requires forall x <- ds :: !x.Cat? && x != Empty
    ensures PartsAll(ds) == ds
  {
    if ds != [] {
      assert ds[0] in ds;
      forall x <- ds[1..] ensures !x.Cat? && x != Empty {
        assert x in ds;
      }
      PartsAllUnchanged(ds[1..]);
      assert ds == [ds[0]] + ds[1..];
    }
  }

  /** Splicing the `Cat`s out of well-formed documents keeps their parts. */
  lemma {:induction false} PartsAllSplice(ds: seq<Doc>)
    requires forall x <- ds :: WellFormed(x)
    ensures PartsAll(Splice(ds, CatKind)) == PartsAll(ds)
  {
    if ds != [] {
      var d := ds[0];
      assert d in ds;
      forall x <- ds[1..] ensures WellFormed(x) {
        assert x in ds;
      }
      PartsAllSplice(ds[1..]);
      var first := if d.Cat? then d.docs else [d];
      PartsAllAppend(first, Splice(ds[1..], CatKind));
      if d.Cat? {
        PartsAllUnchanged(d.docs);
      } else {
        assert PartsAll([d]) == Parts(d) by {
          assert [d][1..] == [];
        }
      }
    }
  }

  lemma {:induction false} SelectOfWellFormedCat(ds: seq<Doc>)
    requires forall x <- ds :: !x.Cat? && x != Empty
    ensures Select(ds, false) == ds
  {
    if ds != [] {
      assert ds[0] in ds;
      forall x <- ds[1..] ensures !x.Cat? && x != Empty {
        assert x in ds;
      }
      SelectOfWellFormedCat(ds[1..]);
      assert ds == [ds[0]] + ds[1..];
    }
  }

  /** Keeping the truthy documents of the flattened sequence is collecting
      the parts of each document, for well-formed documents. */
  lemma {:induction false} SelectSpliceIsParts(ds: seq<Doc>)
    requires forall x <- ds :: WellFormed(x)
    ensures Select(Splice(ds, CatKind), false) == PartsAll(ds)
  {
    if ds != [] {
      var d := ds[0];
      assert d in ds;
      forall x <- ds[1..] ensures WellFormed(x) {
        assert x in ds;
      }
      SelectSpliceIsParts(ds[1..]);
      var first := if d.Cat? then d.docs else [d];
      SelectAppend(first, Splice(ds[1..], CatKind), false);
      if d.Cat? {
        SelectOfWellFormedCat(d.docs);
      }
    }
  }

  /** The corrected `Cat` of well-formed documents always succeeds: it holds
      the parts of each document in order, and is well formed. */
  lemma NewCatOfWellFormed(ds: seq<Doc>)
    requires forall x <- ds :: WellFormed(x)
    ensures NewCat(ds) == Ok(Cat(PartsAll(ds)))
    ensures WellFormed(NewCat(ds).value)
  {
    SpliceWellFormed(ds, CatKind);
    SelectSpliceIsParts(ds);
    SelectMembers(Splice(ds, CatKind), false);
    AnyKindIff(Select(Splice(ds, CatKind), false), CatKind);
  }

  /** The `Cat` constructor as written keeps nothing: whatever it is given,
      a `Cat` it builds is empty, and any `Empty` among the flattened
      documents trips the assertion that no element is `Empty`. */
  lemma CatAsWrittenKeepsNothing(ds: seq<Doc>)
    ensures CatAsWritten(ds).Ok? ==> CatAsWritten(ds).value == Cat([])
    ensures Empty in Splice(ds, CatKind) ==> CatAsWritten(ds) == Err(EmptyInCat)
  {
    var flat := Splice(ds, CatKind);
    var kept := Select(flat, true);
    SelectMembers(flat, true);
    AnyKindIff(kept, CatKind);
    if kept != [] {
      assert kept[0] in kept;
    }
    if Empty in flat {
      var i :| 0 <= i < |flat| && flat[i] == Empty;
      assert flat == flat[..i] + [flat[i]] + flat[i + 1..];
      SelectAppend(flat[..i] + [flat[i]], flat[i + 1..], true);
      SelectAppend(flat[..i], [flat[i]], true);
      assert Empty in kept;
    }
  }

  /** What `to_doc("hello\nworld")` hands to `Cat`: as written the text is
      lost, corrected it is kept. */
  lemma CatAsWrittenLosesText()
    ensures CatAsWritten([Text("hello"), Line, Text("world")]) == Ok(Cat([]))
    ensures NewCat([Text("hello"), Line, Text("world")]) == Ok(Cat([Text("hello"), Line, Text("world")]))
  {
    var ds := [Text("hello"), Line, Text("world")];
    assert Splice(ds, CatKind) == ds;
    assert Select(ds, true) == [];
    assert Select(ds, false) == ds;
  }

  // --- to_doc ---

  /** A string without line boundaries is one `Text` (or `Empty`). */
  lemma ToDocOfLine(s: string)
    requires PyStr.NoLineBreak(s)
    ensures ToDoc(Str(s)) == NewText(s)
  {
    PyStr.SplitLinesOfLine(s);
  }

  lemma {:induction false} TextsOfLines(lines: seq<string>)
    requires forall l <- lines :: PyStr.NoLineBreak(l)
    ensures TextsOf(lines).Ok?
    ensures forall d <- TextsOf(lines).value :: WellFormed(d) && !d.Cat?
    ensures Flatten(StrItems(lines), CatKind) == TextsOf(lines)
  {
    if lines != [] {
      assert lines[0] in lines;
      forall l <- lines[1..] ensures PyStr.NoLineBreak(l) {
        assert l in lines;
      }
      PyStr.LineBreakIsNewline(lines[0]);
      ToDocOfLine(lines[0]);
      TextsOfLines(lines[1..]);
      assert StrItems(lines)[1..] == StrItems(lines[1..]);
    }
  }

  lemma {:induction false} IntersperseMembers(sep: Doc, ds: seq<Doc>)
    ensures forall x <- Intersperse(sep, ds) :: x == sep || x in ds
  {
    if |ds| > 1 {
      IntersperseMembers(sep, ds[1..]);
      forall x <- ds[1..] ensures x in ds {
      }
    }
  }

  /** `to_doc` of a string of several lines is `cat(lines, separator=Line)`,
      which is what the source calls. */
  lemma ToDocIsCatOfLines(s: string)
    requires |PyStr.SplitLines(s)| > 1
    ensures ToDoc(Str(s)) == CatOf(StrItems(PyStr.SplitLines(s)), Some(Of(Line)))
  {
    PyStr.SplitLinesHaveNoBreaks(s);
    TextsOfLines(PyStr.SplitLines(s));
  }

  /** `to_doc` of a well-formed document or of a string never builds a
      malformed document, and fails only on a newline inside a `Text`. */
  lemma ToDocWellFormed(dl: DocLike)
    requires dl.Of? ==> WellFormed(dl.doc)
    ensures ToDoc(dl).Ok? ==> WellFormed(ToDoc(dl).value)
    ensures ToDoc(dl).Err? ==> ToDoc(dl).error == TextHasNewline
  {
    if dl.Str? && |PyStr.SplitLines(dl.s)| > 1 {
      var lines := PyStr.SplitLines(dl.s);
      PyStr.SplitLinesHaveNoBreaks(dl.s);
      TextsOfLines(lines);
      var ds := TextsOf(lines).value;
      IntersperseMembers(Line, ds);
      NewCatOfWellFormed(Intersperse(Line, ds));
    }
  }

  /** The text a plain document spells: `Line` is a newline, `Empty` is
      nothing. */
  predicate Plain(d: Doc) {
    d == Empty || d == Line || d.Text?
  }

  function Spell(d: Doc): string
    requires Plain(d)
  {
    if d == Line then "\n" else if d == Empty then "" else d.text
  }

  function SpellAll(ds: seq<Doc>): string
    requires forall x <- ds :: Plain(x)
  {
    if ds == [] then "" else Spell(ds[0]) + SpellAll(ds[1..])
  }

  lemma {:induction false} SpellAllAppend(a: seq<Doc>, b: seq<Doc>)
    requires forall x <- a :: Plain(x)
    requires forall x <- b :: Plain(x)
    ensures forall x <- a + b :: Plain(x)
    ensures SpellAll(a + b) == SpellAll(a) + SpellAll(b)
  {
    if a == [] {
      assert a + b == b;
    } else {
      assert (a + b)[0] == a[0];
      assert (a + b)[1..] == a[1..] + b;
      SpellAllAppend(a[1..], b);
    }
  }

  lemma {:induction false} SpellTexts(lines: seq<string>)
    requires TextsOf(lines).Ok?
    ensures forall x <- TextsOf(lines).value :: Plain(x)
    ensures forall i :: 0 <= i < |lines| ==> Spell(TextsOf(lines).value[i]) == lines[i]
  {
    if lines != [] {
      SpellTexts(lines[1..]);
    }
  }

  lemma {:induction false} SpellIntersperse(ds: seq<Doc>, lines: seq<string>)
    requires |ds| == |lines| > 0
    requires forall x <- ds :: Plain(x)
    requires forall i :: 0 <= i < |ds| ==> Spell(ds[i]) == lines[i]
    ensures forall x <- Intersperse(Line, ds) :: Plain(x)
    ensures SpellAll(Intersperse(Line, ds)) == PyStr.Join("\n", lines)
  {
    IntersperseMembers(Line, ds);
    if |ds| > 1 {
      assert ds[0] in ds;
      forall x <- ds[1..] ensures Plain(x) {
        assert x in ds;
      }
      SpellIntersperse(ds[1..], lines[1..]);
      var rest := Intersperse(Line, ds[1..]);
      SpellAllAppend([ds[0], Line], rest);
      assert SpellAll([ds[0], Line]) == lines[0] + "\n";
    } else {
      assert ds[0] in ds;
    }
  }

  lemma {:induction false} SpellSelect(ds: seq<Doc>)
    requires forall x <- ds :: Plain(x)
    ensures forall x <- Select(ds, false) :: Plain(x)
    ensures SpellAll(Select(ds, false)) == SpellAll(ds)
  {
    SelectMembers(ds, false);
    if ds != [] {
      assert ds[0] in ds;
      forall x <- ds[1..] ensures Plain(x) {
        assert x in ds;
      }
      SpellSelect(ds[1..]);
      SpellAllAppend(if ds[0] == Empty then [] else [ds[0]], Select(ds[1..], false));
    }
  }

  /** `to_doc` keeps every line of a multi-line string: the `Cat` it builds
      spells the lines joined by newlines, so splitting that text at its
      newlines gives back `s.splitlines()`. */
  lemma ToDocKeepsLines(s: string)
    requires |PyStr.SplitLines(s)| > 1
    ensures ToDoc(Str(s)).Ok? && ToDoc(Str(s)).value.Cat?
    ensures forall x <- ToDoc(Str(s)).value.docs :: Plain(x)
    ensures SpellAll(ToDoc(Str(s)).value.docs) == PyStr.Join("\n", PyStr.SplitLines(s))
    ensures PyStr.SplitNewlines(SpellAll(ToDoc(Str(s)).value.docs)) == PyStr.SplitLines(s)
  {
    var lines := PyStr.SplitLines(s);
    PyStr.SplitLinesHaveNoBreaks(s);
    CatOfLines(lines);
    forall l <- lines ensures PyStr.NoNewline(l) {
      PyStr.LineBreakIsNewline(l);
    }
    PyStr.JoinNewlinesRoundTrip(lines);
  }

  /** The `Cat` of the texts of lines, with `Line` between them, spells the
      lines joined by newlines. */
  lemma CatOfLines(lines: seq<string>)
    requires |lines| > 0 && forall l <- lines :: PyStr.NoLineBreak(l)
    ensures TextsOf(lines).Ok?
    ensures var c := NewCat(Intersperse(Line, TextsOf(lines).value));
      c.Ok? && c.value.Cat? && (forall x <- c.value.docs :: Plain(x)) &&
      SpellAll(c.value.docs) == PyStr.Join("\n", lines)
  {
    TextsOfLines(lines);
    var ds := TextsOf(lines).value;
    SpellTexts(lines);
    SpellIntersperse(ds, lines);
    var mixed := Intersperse(Line, ds);
    IntersperseMembers(Line, ds);
    forall x <- mixed ensures !x.Cat? {
    }
    SpliceUnchanged(mixed, CatKind);
    SpellSelect(mixed);
    SelectMembers(mixed, false);
    AnyKindIff(Select(mixed, false), CatKind);
  }

  /** A text ending in a newline is one line for `splitlines`, so `to_doc`
      makes a `Text` of it, newline and all, and the `Text` assertion
      fails. */
  lemma ToDocTrailingNewline()
    ensures ToDoc(Str("a\n")) == Err(TextHasNewline)
  {
    PyStr.SplitLinesAfterLine("a", "");
    assert "a" + "\n" + "" == "a\n";
    assert PyStr.SplitLines("") == [];
    assert PyStr.SplitLines("a\n") == ["a"];
    assert "a\n"[1] == '\n';
    assert NewText("a\n") == Err(TextHasNewline);
  }

  /** Two non-empty lines around a newline become two texts around `Line`
      (the source's own example is `"hello\nworld"`). */
  lemma ToDocTwoLines(a: string, b: string)
    requires a != "" && b != ""
    requires PyStr.NoLineBreak(a) && PyStr.NoLineBreak(b)
    ensures ToDoc(Str(a + "\n" + b)) == Ok(Cat([Text(a), Line, Text(b)]))
  {
    PyStr.SplitLinesAfterLine(a, b);
    PyStr.SplitLinesOfLine(b);
    PyStr.LineBreakIsNewline(a);
    PyStr.LineBreakIsNewline(b);
    var lines := [a, b];
    assert TextsOf([b]) == Ok([Text(b)]) by {
      assert [b][1..] == [];
      assert TextsOf([]) == Ok([]);
      assert [Text(b)] + [] == [Text(b)];
    }
    assert TextsOf(lines) == Ok([Text(a), Text(b)]) by {
      assert lines[1..] == [b];
      assert [Text(a)] + [Text(b)] == [Text(a), Text(b)];
    }
    var ds := [Text(a), Line, Text(b)];
    assert Intersperse(Line, [Text(a), Text(b)]) == ds;
    NewCatOfWellFormed(ds);
    PartsAllUnchanged(ds);
  }

  // --- cat, row, alt ---

  predicate LikeWellFormed(dl: DocLike) {
    dl.Of? ==> WellFormed(dl.doc)
  }

  lemma {:induction false} FlattenWellFormed(items: seq<DocLike>, k: Kind)
    requires forall x <- items :: LikeWellFormed(x)
    ensures Flatten(items, k).Ok? ==> forall d <- Flatten(items, k).value :: WellFormed(d)
    ensures Flatten(items, k).Err? ==> Flatten(items, k).error == TextHasNewline
  {
    if items != [] {
      assert items[0] in items;
      forall x <- items[1..] ensures LikeWellFormed(x) {
        assert x in items;
      }
      ToDocWellFormed(items[0]);
      FlattenWellFormed(items[1..], k);
    }
  }

  /** `cat` of well-formed documents and strings fails only on a string
      that is one line holding a newline, and builds a well-formed `Cat`:
      never `Empty`, no `Cat` directly in it and no `Empty` in it. */
  lemma CatOfWellFormed(items: seq<DocLike>, separator: Option<DocLike>)
    requires forall x <- items :: LikeWellFormed(x)
    requires separator.Some? ==> LikeWellFormed(separator.value)
    ensures CatOf(items, separator).Err? ==> CatOf(items, separator).error == TextHasNewline
    ensures CatOf(items, separator).Ok? ==> CatOf(items, separator).value.Cat? && WellFormed(CatOf(items, separator).value)
  {
    FlattenWellFormed(items, CatKind);
    var flat := Flatten(items, CatKind);
    if separator.Some? && Truthy(separator.value) {
      ToDocWellFormed(separator.value);
      var sep := ToDoc(separator.value);
      if sep.Ok? && flat.Ok? {
        IntersperseMembers(sep.value, flat.value);
        NewCatOfWellFormed(Intersperse(sep.value, flat.value));
      }
    } else if flat.Ok? {
      NewCatOfWellFormed(flat.value);
    }
  }

  /** `row` of well-formed arguments fails only on a newline in a string
      and splices `Row` arguments one level: no `Row` directly in a `Row`. */
  lemma RowOfWellFormed(items: seq<DocLike>)
    requires forall x <- items :: LikeWellFormed(x)
    ensures RowOf(items).Err? ==> RowOf(items).error == TextHasNewline
    ensures RowOf(items).Ok? ==> WellFormed(RowOf(items).value)
  {
    FlattenWellFormed(items, RowKind);
    var flat := Flatten(items, RowKind);
    if flat.Ok? {
      SpliceWellFormed(flat.value, RowKind);
      AnyKindIff(Splice(flat.value, RowKind), RowKind);
    }
  }

  /** `alt` of well-formed arguments fails only on a newline in a string,
      and gives `Empty`, the interned `SoftLine` or a well-formed `Alt`. */
  lemma AltOfWellFormed(items: seq<DocLike>)
    requires forall x <- items :: LikeWellFormed(x)
    ensures AltOf(items).Err? ==> AltOf(items).error == TextHasNewline
    ensures AltOf(items).Ok? ==> WellFormed(AltOf(items).value)
  {
    FlattenWellFormed(items, AltKind);
    var flat := Flatten(items, AltKind);
    if flat.Ok? {
      SpliceWellFormed(flat.value, AltKind);
      AnyKindIff(Splice(flat.value, AltKind), AltKind);
    }
  }

  /** `Alt` of `Empty` then `Line` is the interned `SoftLine`, whose repr is
      `"SoftLine"`; any other pair is an ordinary `Alt` whose repr joins
      the alternatives' reprs with `" | "`. */
  lemma SoftLineInterned()
    ensures Or(Empty, Of(Line)) == Ok(SoftLine)
    ensures Repr(SoftLine) == "SoftLine"
    ensures Or(Line, Of(Empty)) == Ok(Alt([Line, Empty]))
    ensures Repr(Alt([Line, Empty])) == "Line | Empty"
  {
    assert Splice([Empty, Line], AltKind) == [Empty, Line];
    assert Splice([Line, Empty], AltKind) == [Line, Empty];
    assert ReprAll([Line, Empty]) == ["Line", "Empty"] by {
      assert [Line, Empty][1..] == [Empty];
    }
  }

  /** No alternatives is `Empty`; a single alternative stays an `Alt`. */
  lemma AltOfFewAlternatives(d: Doc)
    requires !d.Alt?
    ensures AltOf([]) == Ok(Empty)
    ensures AltOf([Of(d)]) == Ok(Alt([d]))
  {
    FlattenItems([d], AltKind);
    assert Items([d]) == [Of(d)];
    assert Splice([d], AltKind) == [d];
    assert !AnyKind([d], AltKind) by {
      assert [d][1..] == [];
    }
  }

  // --- then, //, join, *, between ---

  /** Composing two well-formed documents concatenates their parts. */
  lemma ThenParts(a: Doc, b: Doc)
    requires WellFormed(a) && WellFormed(b)
    ensures Then(a, Of(b)) == Ok(Cat(Parts(a) + Parts(b)))
    ensures WellFormed(Then(a, Of(b)).value)
  {
    FlattenItems([a, b], CatKind);
    assert Items([a, b]) == [Of(a), Of(b)];
    var flat := Splice([a, b], CatKind);
    SpliceWellFormed([a, b], CatKind);
    SpliceUnchanged(flat, CatKind);
    NewCatOfWellFormed(flat);
    SelectSpliceIsParts([a, b]);
    assert PartsAll([a, b]) == Parts(a) + Parts(b) by {
      PartsAllAppend([a], [b]);
      PartsAllOne(a);
      PartsAllOne(b);
      assert [a] + [b] == [a, b];
    }
  }

  /** `a // b` puts exactly one `Space` between the parts of `a` and `b`,
      and none of its own when `b` is `Space` or `Empty`. */
  lemma SpaceThenOneSpace(a: Doc, b: Doc)
    requires WellFormed(a) && WellFormed(b)
    ensures SpaceThen(a, Of(b)) ==
      Ok(Cat(Parts(a) + (if b == Space || b == Empty then [] else [Space]) + Parts(b)))
  {
    if b == Space || b == Empty {
      ThenParts(a, b);
      assert Parts(a) + [] + Parts(b) == Parts(a) + Parts(b);
    } else {
      ThenParts(a, Space);
      var c := Cat(Parts(a) + [Space]);
      ThenParts(c, b);
    }
  }

  /** `t * n` is a `Cat` of `n` copies of `t`. */
  lemma TimesRepeats(t: Doc, n: int)
    requires t.Text? && WellFormed(t)
    ensures Times(t, n) == Ok(Cat(Copies(t, n)))
  {
    var ds := Copies(t, n);
    FlattenItems(ds, CatKind);
    assert forall x <- ds :: WellFormed(x) && !x.Cat?;
    SpliceUnchanged(ds, CatKind);
    NewCatOfWellFormed(ds);
    PartsAllCopies(t, n);
  }

  lemma {:induction false} PartsAllCopies(t: Doc, n: int)
    requires t.Text?
    ensures PartsAll(Copies(t, n)) == Copies(t, n)
    decreases n
  {
    if n > 0 {
      PartsAllCopies(t, n - 1);
    }
  }

  /** `self.join(others)` flattens the `Cat`s among `others` first and then
      puts `self` between every two of the resulting documents, so the
      separator also lands inside an item that is a `Cat`; an `Empty`
      separator is false and adds nothing. */
  lemma JoinSeparates(sep: Doc, ds: seq<Doc>)
    requires WellFormed(sep) && forall x <- ds :: WellFormed(x)
    ensures Join(sep, Many(Items(ds))) ==
      Ok(Cat(PartsAll(if sep == Empty then Splice(ds, CatKind) else Intersperse(sep, Splice(ds, CatKind)))))
  {
    ToDocAllItems(ds);
    FlattenItems(ds, CatKind);
    SpliceWellFormed(ds, CatKind);
    var flat := Splice(ds, CatKind);
    if sep == Empty {
      NewCatOfWellFormed(flat);
    } else {
      IntersperseMembers(sep, flat);
      NewCatOfWellFormed(Intersperse(sep, flat));
    }
  }

  lemma {:induction false} ToDocAllItems(ds: seq<Doc>)
    ensures ToDocAll(Items(ds)) == Ok(ds)
  {
    if ds != [] {
      assert Items(ds)[1..] == Items(ds[1..]);
      ToDocAllItems(ds[1..]);
      assert ds == [ds[0]] + ds[1..];
    }
  }

  /** A one-character string other than a newline is one `Text`. */
  lemma OneCharText(c: string)
    requires |c| == 1 && c != "\n"
    ensures ToDoc(Str(c)) == Ok(Text(c))
  {
    PyStr.SplitLinesShort(c);
  }

  lemma {:induction false} FlattenAppend(a: seq<DocLike>, b: seq<DocLike>, k: Kind)
    requires Flatten(a, k).Ok?
    ensures Flatten(a + b, k) ==
      if Flatten(b, k).Err? then Err(Flatten(b, k).error) else Ok(Flatten(a, k).value + Flatten(b, k).value)
  {
    if a == [] {
      assert a + b == b;
      if Flatten(b, k).Ok? {
        assert Flatten(a, k).value + Flatten(b, k).value == Flatten(b, k).value;
      }
    } else {
      assert (a + b)[0] == a[0];
      assert (a + b)[1..] == a[1..] + b;
      FlattenAppend(a[1..], b, k);
      var first := ItemDocs(a[0], k).value;
      var fb := Flatten(b, k);
      if fb.Ok? {
        assert first + (Flatten(a[1..], k).value + fb.value) == (first + Flatten(a[1..], k).value) + fb.value;
      }
    }
  }

  lemma {:induction false} IntersperseSnoc(sep: Doc, ds: seq<Doc>, y: Doc)
    requires |ds| >= 1
    ensures Intersperse(sep, ds + [y]) == Intersperse(sep, ds) + [sep, y]
  {
    if |ds| > 1 {
      assert (ds + [y])[1..] == ds[1..] + [y];
      IntersperseSnoc(sep, ds[1..], y);
    }
  }

  lemma FlattenBracketed(open: string, ds: seq<Doc>, close: string)
    requires |open| == 1 && open != "\n" && |close| == 1 && close != "\n"
    ensures Flatten([Str(open)] + Items(ds) + [Str(close)], CatKind) ==
      Ok([Text(open)] + Splice(ds, CatKind) + [Text(close)])
  {
    OneCharText(open);
    OneCharText(close);
    FlattenItems(ds, CatKind);
    assert Flatten([], CatKind) == Ok([]);
    assert Flatten([Str(close)], CatKind) == Ok([Text(close)]) by {
      assert [Str(close)][1..] == [];
      assert [Text(close)] + [] == [Text(close)];
    }
    assert Flatten([Str(open)], CatKind) == Ok([Text(open)]) by {
      assert [Str(open)][1..] == [];
      assert [Text(open)] + [] == [Text(open)];
    }
    FlattenAppend(Items(ds), [Str(close)], CatKind);
    FlattenAppend([Str(open)], Items(ds) + [Str(close)], CatKind);
    assert [Str(open)] + Items(ds) + [Str(close)] == [Str(open)] + (Items(ds) + [Str(close)]);
    assert [Text(open)] + (Splice(ds, CatKind) + [Text(close)]) == [Text(open)] + Splice(ds, CatKind) + [Text(close)];
  }

  /** `between` first flattens the opening text, the documents and the
      closing text. */
  lemma BetweenFlattens(open: string, ds: seq<Doc>, close: string, separator: Option<DocLike>)
    requires |open| == 1 && open != "\n" && |close| == 1 && close != "\n"
    requires separator.Some? ==> separator.value.Of?
    ensures var flat := [Text(open)] + Splice(ds, CatKind) + [Text(close)];
      Between(Str(open), Many(Items(ds)), Str(close), separator) ==
        if separator.Some? && Truthy(separator.value) then NewCat(Intersperse(separator.value.doc, flat))
        else NewCat(flat)
  {
    ToDocAllItems(ds);
    FlattenBracketed(open, ds, close);
  }

  /** Interspersing keeps the first and the last document in place. */
  lemma PartsAllIntersperseEnds(sep: Doc, a: Doc, middle: seq<Doc>, c: Doc)
    requires a != Empty && !a.Cat? && c != Empty && !c.Cat?
    ensures var r := PartsAll(Intersperse(sep, [a] + middle + [c]));
      |r| >= 2 && r[0] == a && r[|r| - 1] == c
  {
    IntersperseSnoc(sep, [a] + middle, c);
    var front := Intersperse(sep, [a] + middle);
    assert front[0] == a;
    PartsAllAppend(front, [sep, c]);
    assert PartsAll([sep, c]) == Parts(sep) + [c] by {
      assert [sep, c][1..] == [c];
      PartsAllOne(c);
    }
    assert PartsAll(front) == [a] + PartsAll(front[1..]);
  }

  /** `between(open, docs, close)` of well-formed documents, for
      one-character brackets: the opening text, the parts of the documents,
      the closing text. */
  lemma BetweenWraps(open: string, ds: seq<Doc>, close: string)
    requires |open| == 1 && open != "\n" && |close| == 1 && close != "\n"
    requires forall x <- ds :: WellFormed(x)
    ensures Between(Str(open), Many(Items(ds)), Str(close), None) == Ok(Cat([Text(open)] + PartsAll(ds) + [Text(close)]))
  {
    BetweenFlattens(open, ds, close, None);
    var middle := Splice(ds, CatKind);
    var flat := [Text(open)] + middle + [Text(close)];
    FlatWellFormed(open, ds, close);
    NewCatOfWellFormed(flat);
    PartsAllSplice(ds);
    PartsAllUnchanged([Text(open)]);
    PartsAllUnchanged([Text(close)]);
    PartsAllAppend([Text(open)] + middle, [Text(close)]);
    PartsAllAppend([Text(open)], middle);
  }

  /** With any well-formed separator the brackets still come first and
      last. */
  lemma BetweenWrapsSeparated(open: string, ds: seq<Doc>, close: string, separator: Doc)
    requires |open| == 1 && open != "\n" && |close| == 1 && close != "\n"
    requires forall x <- ds :: WellFormed(x)
    requires WellFormed(separator)
    ensures Between(Str(open), Many(Items(ds)), Str(close), Some(Of(separator))).Ok?
    ensures var r := Between(Str(open), Many(Items(ds)), Str(close), Some(Of(separator))).value.docs;
      |r| >= 2 && r[0] == Text(open) && r[|r| - 1] == Text(close)
  {
    var b := Between(Str(open), Many(Items(ds)), Str(close), Some(Of(separator)));
    var flat := [Text(open)] + Splice(ds, CatKind) + [Text(close)];
    BetweenFlattens(open, ds, close, Some(Of(separator)));
    if separator == Empty {
      assert b == NewCat(flat);
      BetweenFlattens(open, ds, close, None);
      BetweenWraps(open, ds, close);
      var r := [Text(open)] + PartsAll(ds) + [Text(close)];
      assert b == Ok(Cat(r));
    } else {
      assert b == NewCat(Intersperse(separator, flat));
      SeparatedFlatWraps(open, ds, close, separator);
    }
  }

  lemma SeparatedFlatWraps(open: string, ds: seq<Doc>, close: string, separator: Doc)
    requires |open| == 1 && open != "\n" && |close| == 1 && close != "\n"
    requires forall x <- ds :: WellFormed(x)
    requires WellFormed(separator)
    ensures var flat := [Text(open)] + Splice(ds, CatKind) + [Text(close)];
      NewCat(Intersperse(separator, flat)).Ok? &&
      var r := NewCat(Intersperse(separator, flat)).value.docs;
      |r| >= 2 && r[0] == Text(open) && r[|r| - 1] == Text(close)
  {
    var middle := Splice(ds, CatKind);
    var mixed := Intersperse(separator, [Text(open)] + middle + [Text(close)]);
    MixedWellFormed(open, ds, close, separator);
    NewCatOfWellFormed(mixed);
    PartsAllIntersperseEnds(separator, Text(open), middle, Text(close));
  }

  /** The bracketed, separated items are all well-formed. */
  lemma MixedWellFormed(open: string, ds: seq<Doc>, close: string, separator: Doc)
    requires |open| == 1 && open != "\n" && |close| == 1 && close != "\n"
    requires forall x <- ds :: WellFormed(x)
    requires WellFormed(separator)
    ensures forall x <- Intersperse(separator, [Text(open)] + Splice(ds, CatKind) + [Text(close)]) :: WellFormed(x)
  {
    FlatWellFormed(open, ds, close);
    IntersperseMembers(separator, [Text(open)] + Splice(ds, CatKind) + [Text(close)]);
  }

  /** The bracketed items are all well-formed. */
  lemma FlatWellFormed(open: string, ds: seq<Doc>, close: string)
    requires |open| == 1 && open != "\n" && |close| == 1 && close != "\n"
    requires forall x <- ds :: WellFormed(x)
    ensures forall x <- [Text(open)] + Splice(ds, CatKind) + [Text(close)] :: WellFormed(x)
  {
    var middle := Splice(ds, CatKind);
    SpliceWellFormed(ds, CatKind);
    var flat := [Text(open)] + middle + [Text(close)];
    CharTextWellFormed(open);
    CharTextWellFormed(close);
    forall x <- flat ensures WellFormed(x) {
      assert x == Text(open) || x in middle || x == Text(close);
    }
  }

  lemma CharTextWellFormed(s: string)
    requires |s| == 1 && s != "\n"
    ensures WellFormed(Text(s))
  {
    assert s == [s[0]];
  }

  // --- nest ---

  /** `nest` arithmetic: a non-positive indent leaves a document that is not
      a `Nest` unchanged, `Empty` stays `Empty`, and nesting a `Nest` adds
      to its indent, unwrapping it when the sum is not positive. */
  lemma NestArithmetic(d: Doc, indent: int)
    requires WellFormed(d)
    ensures d == Empty ==> NestBy(d, indent) == Ok(Empty)
    ensures d != Empty && !d.Nest? ==>
      NestBy(d, indent) == if indent <= 0 then Ok(d) else Ok(Nest(indent, d))
    ensures d.Nest? ==>
      NestBy(d, indent) == if d.indent + indent <= 0 then Ok(d.doc) else Ok(Nest(d.indent + indent, d.doc))
    ensures NestBy(d, indent).Ok? && WellFormed(NestBy(d, indent).value)
  {
    if d.Nest? {
      NestByNest(d.indent, d.doc, indent);
    } else if d != Empty {
      NestByOther(d, indent);
    }
  }

  lemma NestByNest(k: int, c: Doc, indent: int)
    requires WellFormed(Nest(k, c))
    ensures NestBy(Nest(k, c), indent) == if k + indent <= 0 then Ok(c) else Ok(Nest(k + indent, c))
    ensures WellFormed(c) && WellFormed(Nest(k + indent, c)) == (k + indent > 0)
  {
    assert WellFormed(c) && !c.Nest?;
  }

  lemma NestByOther(d: Doc, indent: int)
    requires WellFormed(d) && d != Empty && !d.Nest?
    ensures NestBy(d, indent) == if indent <= 0 then Ok(d) else Ok(Nest(indent, d))
    ensures indent > 0 ==> WellFormed(Nest(indent, d))
  {
    if indent > 0 {
      assert NestOf(indent, d) == Ok(Nest(indent, d));
    }
  }

  /** Nesting twice by positive amounts is nesting once by their sum. */
  lemma NestTwice(d: Doc, i: int, j: int)
    requires WellFormed(d) && i > 0 && j > 0
    ensures NestBy(d, i).Ok?
    ensures NestBy(NestBy(d, i).value, j) == NestBy(d, i + j)
  {
    NestArithmetic(d, i);
  }

  /** The `Nest` constructor merges a directly nested `Nest` by adding the
      indents, and rejects a sum that is not positive. */
  lemma NewNestMerges(i: int, k: int, c: Doc)
    requires WellFormed(Nest(k, c))
    ensures NewNest(i, Of(Nest(k, c))) == if i + k > 0 then Ok(Nest(i + k, c)) else Err(IndentNotPositive)
  {
  }

  /** `HStretch` accepts exactly a one-character text. */
  lemma HStretchOfString(s: string)
    requires '\n' !in s
    ensures NewHStretch(Str(s)).Ok? <==> |s| == 1
  {
    if |s| <= 1 {
      PyStr.SplitLinesShort(s);
    }
  }
}
