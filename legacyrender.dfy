/** The simple renderer of the older pretty-printer
    (talon_fmt/prettyprinter/render.py, `SimpleDocRenderer`): a
    `DocTransformer` whose result is a stream of tokens, where a token is a
    piece of text or `None` for a line break.  It takes the first layout of
    every `Alt`, re-indents nested documents line by line, and writes the
    stream out, one `"\n"` per line break.

    Python's generators fail lazily: a stream that reaches a case without
    tokens raises when it is consumed.  A stream is modelled as the
    complete token sequence or the exception that consuming it raises.
    The `Empty`, `Row` and `Table` cases end in `pass`, so they return
    `None`, and consuming `None` as a stream raises `TypeError`.  For
    `Row` and `Table` that leaves the simple renderer without a row layout;
    for `Empty` it makes every `SoftLine` unrenderable, and the evidently
    intended case is the empty stream.  `Tokens` is the intended renderer
    over the intended fold; `TokensAsWritten` is the same fold with only
    the `Empty` case as written; `SourceStream` composes the renderer as
    written with `transform` as written, lazy `map` included. */
module LegacyRender {
  import opened Results
  import PyStr
  import opened LegacyDoc
  import opened LegacyTransformer

  /** Some text, or `None` for a line break. */
  type Token = Option<string>

  /** The exceptions that consuming a stream raises. */
  datatype RenderError =
    | TypeError   // a case returned `None` instead of a stream
    | IndexError  // `docs_hist[0]` of an `Alt` without alternatives
    | TransformRaised(exc: Raised)  // `transform` as written, on a `Row` or a stretch

  type Stream = Result<seq<Token>, RenderError>

  /** The stream `transform_Empty` returns as written. */
  const EmptyAsWritten: Stream := Err(TypeError)

  /** The evidently intended stream of `Empty`: no tokens. */
  const EmptyIntended: Stream := Ok([])

  // ---------------------------------------------------------------------
  // The nesting state machine
  // ---------------------------------------------------------------------

  /** A token that `str.isspace` accepts. */
  predicate IsSpaceToken(t: Token) {
    t.Some? && PyStr.IsSpaceStr(t.value)
  }

  /** The tokens `transform_Nest` yields for `ts`, with `leading` the
      indentation, in the state (`hasContent`, `buffer`): a line break
      flushes the buffer and starts a new line; on a line without content a
      whitespace token is held back in the buffer, and the first other text
      is preceded by `leading` and the buffer.  A buffer left at the end of
      the stream is dropped. */
  function NestFrom(ts: seq<Token>, leading: string, hasContent: bool, buffer: seq<Token>): seq<Token>
  {
    if ts == [] then []
    else if ts[0].None? then buffer + [None] + NestFrom(ts[1..], leading, false, [])
    else if hasContent then [ts[0]] + NestFrom(ts[1..], leading, true, buffer)
    else if IsSpaceToken(ts[0]) then NestFrom(ts[1..], leading, false, buffer + [ts[0]])
    else [Some(leading)] + buffer + [ts[0]] + NestFrom(ts[1..], leading, true, [])
  }

  /** `transform_Nest`: the loop over the child's tokens, with `has_content`
      and `line_buffer`. */
  method NestTokens(indent: int, ts: seq<Token>) returns (out: seq<Token>)
    ensures out == NestFrom(ts, PyStr.Spaces(indent), false, [])
  {
    var leading := PyStr.Spaces(indent);
    var hasContent := false;
    var lineBuffer: seq<Token> := [];
    out := [];
    var i := 0;
    while i < |ts|
      invariant 0 <= i <= |ts|
      invariant out + NestFrom(ts[i..], leading, hasContent, lineBuffer) == NestFrom(ts, leading, false, [])
    {
      var token := ts[i];
      NestFromStep(ts, i, leading, hasContent, lineBuffer);
      var emitted: seq<Token>;
      if token.Some? {
        if hasContent {
          emitted := [token];
        } else if PyStr.IsSpaceStr(token.value) {
          emitted := [];
          lineBuffer := lineBuffer + [token];
        } else {
          hasContent := true;
          emitted := [Some(leading)] + lineBuffer + [token];
          lineBuffer := [];
        }
      } else {
        emitted := lineBuffer + [token];
        lineBuffer := [];
        hasContent := false;
      }
      var tail := NestFrom(ts[i + 1..], leading, hasContent, lineBuffer);
      assert out + (emitted + tail) == (out + emitted) + tail;
      out := out + emitted;
      i := i + 1;
    }
  }

  /** One step of `NestFrom`, at position `i` of `ts`. */
  lemma NestFromStep(ts: seq<Token>, i: nat, leading: string, hasContent: bool, buffer: seq<Token>)
    requires i < |ts|
    ensures var rest, t := ts[i + 1..], ts[i];
      NestFrom(ts[i..], leading, hasContent, buffer) ==
        if t.None? then (buffer + [None]) + NestFrom(rest, leading, false, [])
        else if hasContent then [t] + NestFrom(rest, leading, true, buffer)
        else if IsSpaceToken(t) then [] + NestFrom(rest, leading, false, buffer + [t])
        else ([Some(leading)] + buffer + [t]) + NestFrom(rest, leading, true, [])
  {
    assert ts[i..][1..] == ts[i + 1..];
    var tail := NestFrom(ts[i + 1..], leading, false, buffer + [ts[i]]);
    assert [] + tail == tail;
  }

  // ---------------------------------------------------------------------
  // Streams
  // ---------------------------------------------------------------------

  /** The stream of `d` when `Empty` streams as `empty`. */
  function TokensWith(empty: Stream, d: Doc): Stream
    decreases d
  {
    match d
    case Empty => empty
    case Line => Ok([None])
    case Text(s) => Ok([Some(s)])
    case Nest(i, c) =>
      var ts :- TokensWith(empty, c);
      Ok(NestFrom(ts, PyStr.Spaces(i), false, []))
    case Alt(ds) => if ds == [] then Err(IndexError) else TokensWith(empty, ds[0])
    case Cat(ds) => TokensAllWith(empty, ds)
    case Row(_) => Err(TypeError)
    case HStretch(c) => TokensWith(empty, c)
    case VStretch(c) => TokensWith(empty, c)
  }

  /** `transform_Cat`: the streams of `ds` one after the other; the first
      failure is the one raised. */
  function TokensAllWith(empty: Stream, ds: seq<Doc>): Stream
    decreases ds
  {
    if ds == [] then Ok([])
    else
      var ts :- TokensWith(empty, ds[0]);
      var rest :- TokensAllWith(empty, ds[1..]);
      Ok(ts + rest)
  }

  /** The stream of `d` as the renderer is written. */
  function TokensAsWritten(d: Doc): Stream {
    TokensWith(EmptyAsWritten, d)
  }

  /** The stream of `d` with `Empty` streaming nothing. */
  function Tokens(d: Doc): Stream {
    TokensWith(EmptyIntended, d)
  }

  /** The first failure among `ss`, or their tokens one after the other. */
  function Chain(ss: seq<Stream>): Stream {
    if ss == [] then Ok([])
    else
      var ts :- ss[0];
      var rest :- Chain(ss[1..]);
      Ok(ts + rest)
  }

  /** The renderer's `transform_*` methods. */
  function RenderCases(empty: Stream): Transformer<Stream> {
    Transformer(
      empty,
      Ok([None]),
      s => Ok([Some(s)]),
      (i, s: Stream, _) => if s.Err? then Err(s.error) else Ok(NestFrom(s.value, PyStr.Spaces(i), false, [])),
      ds => if ds == [] then Err(IndexError) else TokensWith(empty, ds[0]),
      (ss, _) => Chain(ss),
      (_, _) => Err(TypeError),
      (s, _) => s,
      (s, _) => s)
  }

  lemma TokensAllCons(empty: Stream, ds: seq<Doc>)
    requires ds != [] && TokensWith(empty, ds[0]).Ok? && TokensAllWith(empty, ds[1..]).Ok?
    ensures TokensAllWith(empty, ds) == Ok(TokensWith(empty, ds[0]).value + TokensAllWith(empty, ds[1..]).value)
  {
  }

  /** The token-stream renderer is the fold of its cases. */
  lemma {:induction false} RendererIsTransformer(empty: Stream, d: Doc)
    ensures TokensWith(empty, d) == Transform(RenderCases(empty), d)
    decreases d
  {
    match d
    case Nest(i, c) =>
      RendererIsTransformer(empty, c);
    case Cat(ds) =>
      RendererIsTransformerAll(empty, ds);
    case HStretch(c) =>
      RendererIsTransformer(empty, c);
    case VStretch(c) =>
      RendererIsTransformer(empty, c);
    case _ =>
  }

  lemma {:induction false} RendererIsTransformerAll(empty: Stream, ds: seq<Doc>)
    ensures TokensAllWith(empty, ds) == Chain(TransformAll(RenderCases(empty), ds))
    decreases ds
  {
    if ds != [] {
      RendererIsTransformer(empty, ds[0]);
      RendererIsTransformerAll(empty, ds[1..]);
      assert TransformAll(RenderCases(empty), ds)[1..] == TransformAll(RenderCases(empty), ds[1..]);
    }
  }

  // ---------------------------------------------------------------------
  // The renderer on top of `transform` as written
  // ---------------------------------------------------------------------

  /** `transform_Cat`'s loop over the lazy items of a `Cat`: each item's
      stream in turn, and an item that raises ends the stream with that
      exception. */
  function LazyChain(xs: Items<Stream>): Stream {
    if xs == [] then Ok([])
    else if xs[0].Err? then Err(TransformRaised(xs[0].error))
    else
      var ts :- xs[0].value;
      var rest :- LazyChain(xs[1..]);
      Ok(ts + rest)
  }

  /** The renderer's `transform_Cat` as a case of `transform` as written:
      a generator, so it returns without consuming any item. */
  function CatCase(xs: Items<Stream>, ds: seq<Doc>): Result<Stream, Raised> {
    Ok(LazyChain(xs))
  }

  /** The stream of `d` as the renderer and `transform` are written:
      `Empty` raises `TypeError` when consumed, a `Row` `AttributeError`
      and a stretch `NameError`; the first in document order is raised. */
  function SourceTokens(d: Doc): Stream
    decreases d
  {
    match d
    case Empty => Err(TypeError)
    case Line => Ok([None])
    case Text(s) => Ok([Some(s)])
    case Nest(i, c) =>
      var ts :- SourceTokens(c);
      Ok(NestFrom(ts, PyStr.Spaces(i), false, []))
    case Alt(ds) => if ds == [] then Err(IndexError) else SourceTokens(ds[0])
    case Cat(ds) => SourceTokensAll(ds)
    case Row(_) => Err(TransformRaised(AttributeError))
    case HStretch(_) => Err(TransformRaised(NameError))
    case VStretch(_) => Err(TransformRaised(NameError))
  }

  function SourceTokensAll(ds: seq<Doc>): Stream
    decreases ds
  {
    if ds == [] then Ok([])
    else
      var ts :- SourceTokens(ds[0]);
      var rest :- SourceTokensAll(ds[1..]);
      Ok(ts + rest)
  }

  /** The renderer's cases as written; `transform_Alt` transforms its first
      alternative when its stream is consumed. */
  function SourceCases(): Transformer<Stream> {
    RenderCases(EmptyAsWritten).(alt := ds => if ds == [] then Err(IndexError) else SourceTokens(ds[0]))
  }

  /** What `render` as written consumes: `transform` raises at once, or
      returns the stream, which may raise as it is consumed. */
  function SourceStream(d: Doc): Stream {
    match TransformAsWritten(SourceCases(), CatCase, d)
    case Err(e) => Err(TransformRaised(e))
    case Ok(s) => s
  }

  /** Composing the renderer as written with `transform` as written and its
      lazy `map` raises the first failure in document order. */
  lemma {:induction false} SourceStreamIsDirect(d: Doc)
    ensures SourceStream(d) == SourceTokens(d)
    decreases d
  {
    match d
    case Nest(i, c) =>
      SourceStreamIsDirect(c);
    case Cat(ds) =>
      SourceStreamIsDirectAll(ds);
    case _ =>
  }

  lemma {:induction false} SourceStreamIsDirectAll(ds: seq<Doc>)
    ensures LazyChain(MapAsWritten(SourceCases(), CatCase, ds)) == SourceTokensAll(ds)
    decreases ds
  {
    if ds != [] {
      SourceStreamIsDirect(ds[0]);
      SourceStreamIsDirectAll(ds[1..]);
      assert MapAsWritten(SourceCases(), CatCase, ds)[1..] == MapAsWritten(SourceCases(), CatCase, ds[1..]);
    }
  }

  /** The documents the code as written renders: no `Empty`, `Row` or
      stretch on the way, and a first alternative in every `Alt` taken. */
  predicate RenderableAsWritten(d: Doc) {
    match d
    case Empty => false
    case Row(_) => false
    case HStretch(_) => false
    case VStretch(_) => false
    case Alt(ds) => ds != [] && RenderableAsWritten(ds[0])
    case Cat(ds) => forall x <- ds :: RenderableAsWritten(x)
    case Nest(_, c) => RenderableAsWritten(c)
    case _ => true
  }

  /** As written, rendering succeeds exactly on those documents, and then
      streams what the intended renderer streams. */
  lemma {:induction false} SourceOkIff(d: Doc)
    ensures SourceTokens(d).Ok? <==> RenderableAsWritten(d)
    ensures SourceTokens(d).Ok? ==> SourceTokens(d) == Tokens(d)
    decreases d
  {
    match d
    case Nest(_, c) =>
      SourceOkIff(c);
    case Alt(ds) =>
      if ds != [] {
        SourceOkIff(ds[0]);
      }
    case Cat(ds) =>
      SourceOkIffAll(ds);
    case _ =>
  }

  lemma {:induction false} SourceOkIffAll(ds: seq<Doc>)
    ensures SourceTokensAll(ds).Ok? <==> forall x <- ds :: RenderableAsWritten(x)
    ensures SourceTokensAll(ds).Ok? ==> SourceTokensAll(ds) == TokensAllWith(EmptyIntended, ds)
    decreases ds
  {
    if ds != [] {
      SourceOkIff(ds[0]);
      SourceOkIffAll(ds[1..]);
      assert forall x <- ds :: x == ds[0] || x in ds[1..];
    }
  }

  /** The first failure in document order is the one raised: an `Empty`
      before a `Row` raises `TypeError`, the `Row` alone `AttributeError`,
      and a stretch `NameError`, even under a `Nest`. */
  lemma SourceFirstFailure(s: string)
    ensures SourceStream(Cat([Empty, Row([])])) == Err(TypeError)
    ensures SourceStream(Cat([Text(s), Row([]), Empty])) == Err(TransformRaised(AttributeError))
    ensures SourceStream(Nest(2, HStretch(Text("-")))) == Err(TransformRaised(NameError))
    ensures SourceStream(SoftLine) == Err(TypeError)
  {
    SourceStreamIsDirect(Cat([Empty, Row([])]));
    SourceStreamIsDirect(Cat([Text(s), Row([]), Empty]));
    SourceStreamIsDirect(Nest(2, HStretch(Text("-"))));
    SourceStreamIsDirect(SoftLine);
    assert [Empty, Row([])][1..] == [Row([])];
    assert [Text(s), Row([]), Empty][1..] == [Row([]), Empty];
    assert [Row([]), Empty][1..] == [Empty];
    assert SourceTokensAll([Row([]), Empty]) == Err(TransformRaised(AttributeError));
    assert SourceTokens([Text(s), Row([]), Empty][0]) == Ok([Some(s)]);
    assert SourceTokensAll([Text(s), Row([]), Empty]) == Err(TransformRaised(AttributeError));
  }

  // ---------------------------------------------------------------------
  // Writing
  // ---------------------------------------------------------------------

  /** The text a token writes. */
  function Piece(t: Token): string {
    if t.Some? then t.value else "\n"
  }

  /** The text a stream writes. */
  function Written(ts: seq<Token>): string {
    if ts == [] then "" else Piece(ts[0]) + Written(ts[1..])
  }

  /** `render`: the stream of `d`, written token by token into a buffer. */
  method Render(d: Doc) returns (r: Result<string, RenderError>)
    ensures Tokens(d).Err? ==> r == Err(Tokens(d).error)
    ensures Tokens(d).Ok? ==> r == Ok(Written(Tokens(d).value))
  {
    var tokens := Tokens(d);
    if tokens.Err? {
      return Err(tokens.error);
    }
    var ts := tokens.value;
    var buffer := "";
    var i := 0;
    while i < |ts|
      invariant 0 <= i <= |ts|
      invariant buffer + Written(ts[i..]) == Written(ts)
    {
      assert ts[i..][1..] == ts[i + 1..];
      var token := ts[i];
      if token.Some? {
        buffer := buffer + token.value;
      } else {
        buffer := buffer + "\n";
      }
      i := i + 1;
    }
    assert ts[i..] == [] && Written([]) == "";
    assert buffer == Written(ts) by {
      assert buffer + "" == buffer;
    }
    return Ok(buffer);
  }

  // ---------------------------------------------------------------------
  // Laws of the nesting state machine
  // ---------------------------------------------------------------------

  /** A text made of whitespace only (the empty text included). */
  predicate Blank(t: Token) {
    t.Some? && forall i :: 0 <= i < |t.value| ==> PyStr.IsSpace(t.value[i])
  }

  /** The tokens of `ts` that are not blank: the line breaks and the
      texts with content. */
  function Significant(ts: seq<Token>): seq<Token> {
    if ts == [] then [] else (if Blank(ts[0]) then [] else [ts[0]]) + Significant(ts[1..])
  }

  lemma {:induction false} SignificantAppend(a: seq<Token>, b: seq<Token>)
    ensures Significant(a + b) == Significant(a) + Significant(b)
  {
    if a == [] {
      assert a + b == b;
    } else {
      assert (a + b)[1..] == a[1..] + b;
      SignificantAppend(a[1..], b);
    }
  }

  lemma {:induction false} SignificantOfBlanks(ts: seq<Token>)
    requires forall t <- ts :: Blank(t)
    ensures Significant(ts) == []
  {
    if ts != [] {
      assert ts[0] in ts;
      SignificantOfBlanks(ts[1..]);
    }
  }

  /** Nesting only adds, holds back or drops whitespace: every line break
      and every text with content comes out, in order, and nothing else
      with content is added. */
  lemma {:induction false} NestKeepsSignificant(ts: seq<Token>, leading: string, hasContent: bool, buffer: seq<Token>)
    requires forall i :: 0 <= i < |leading| ==> PyStr.IsSpace(leading[i])
    requires forall t <- buffer :: Blank(t)
    ensures Significant(NestFrom(ts, leading, hasContent, buffer)) == Significant(ts)
  {
    if ts != [] {
      var t, rest := ts[0], ts[1..];
      assert ts == [t] + rest;
      SignificantAppend([t], rest);
      if t.None? {
        NestKeepsSignificant(rest, leading, false, []);
        BlanksThen(buffer, [t], NestFrom(rest, leading, false, []));
      } else if hasContent {
        NestKeepsSignificant(rest, leading, true, buffer);
        BlanksThen([], [t], NestFrom(rest, leading, true, buffer));
      } else if IsSpaceToken(t) {
        NestKeepsSignificant(rest, leading, false, buffer + [t]);
        SignificantOfBlanks([t]);
      } else {
        NestKeepsSignificant(rest, leading, true, []);
        BlanksThen([Some(leading)] + buffer, [t], NestFrom(rest, leading, true, []));
      }
    }
  }

  /** Blank tokens before `mid` vanish from the significant tokens. */
  lemma BlanksThen(blanks: seq<Token>, mid: seq<Token>, tail: seq<Token>)
    requires forall t <- blanks :: Blank(t)
    ensures Significant(blanks + mid + tail) == Significant(mid) + Significant(tail)
  {
    SignificantOfBlanks(blanks);
    SignificantAppend(blanks + mid, tail);
    SignificantAppend(blanks, mid);
    assert [] + Significant(mid) == Significant(mid);
  }

  /** On a line without content, whitespace tokens are only collected. */
  lemma {:induction false} SpacesAreHeld(ss: seq<Token>, rest: seq<Token>, leading: string, buffer: seq<Token>)
    requires forall t <- ss :: IsSpaceToken(t)
    ensures NestFrom(ss + rest, leading, false, buffer) == NestFrom(rest, leading, false, buffer + ss)
  {
    if ss == [] {
      assert ss + rest == rest;
      assert buffer + ss == buffer;
    } else {
      assert ss[0] in ss;
      assert (ss + rest)[1..] == ss[1..] + rest;
      SpacesAreHeld(ss[1..], rest, leading, buffer + [ss[0]]);
      assert buffer + [ss[0]] + ss[1..] == buffer + ss;
    }
  }

  /** The first text with content on a line is preceded by the indentation
      and then by the whitespace before it. */
  lemma FirstContentIndented(ss: seq<Token>, t: Token, rest: seq<Token>, leading: string)
    requires forall s <- ss :: IsSpaceToken(s)
    requires t.Some? && !IsSpaceToken(t)
    ensures NestFrom(ss + [t] + rest, leading, false, []) ==
      [Some(leading)] + ss + [t] + NestFrom(rest, leading, true, [])
  {
    assert ss + [t] + rest == ss + ([t] + rest);
    SpacesAreHeld(ss, [t] + rest, leading, []);
    assert [] + ss == ss;
    assert ([t] + rest)[1..] == rest;
  }

  /** A line holding only whitespace is written without indentation. */
  lemma BlankLineNotIndented(ss: seq<Token>, rest: seq<Token>, leading: string)
    requires forall s <- ss :: IsSpaceToken(s)
    ensures NestFrom(ss + [None] + rest, leading, false, []) ==
      ss + [None] + NestFrom(rest, leading, false, [])
  {
    assert ss + [None] + rest == ss + ([None] + rest);
    SpacesAreHeld(ss, [None] + rest, leading, []);
    assert [] + ss == ss;
    assert ([None] + rest)[1..] == rest;
  }

  /** Whitespace after the last line break is dropped. */
  lemma TrailingSpacesDropped(ss: seq<Token>, leading: string)
    requires forall s <- ss :: IsSpaceToken(s)
    ensures NestFrom(ss, leading, false, []) == []
  {
    SpacesAreHeld(ss, [], leading, []);
    assert ss + [] == ss;
  }

  /** After the content has started, texts pass through unchanged up to the
      next line break. */
  lemma {:induction false} ContentPassesThrough(cs: seq<Token>, rest: seq<Token>, leading: string)
    requires forall c <- cs :: c.Some?
    ensures NestFrom(cs + rest, leading, true, []) == cs + NestFrom(rest, leading, true, [])
  {
    if cs == [] {
      assert cs + rest == rest;
    } else {
      assert cs[0] in cs;
      assert (cs + rest)[1..] == cs[1..] + rest;
      ContentPassesThrough(cs[1..], rest, leading);
      assert [cs[0]] + (cs[1..] + NestFrom(rest, leading, true, [])) == cs + NestFrom(rest, leading, true, []);
    }
  }

  /** Every token nesting yields comes from the input, from the buffer, or
      is the indentation. */
  lemma {:induction false} NestTokensFrom(ts: seq<Token>, leading: string, hasContent: bool, buffer: seq<Token>)
    ensures forall x <- NestFrom(ts, leading, hasContent, buffer) :: x in ts || x in buffer || x == Some(leading)
  {
    if ts != [] {
      var t, rest := ts[0], ts[1..];
      assert forall x <- rest :: x in ts;
      if t.None? {
        NestTokensFrom(rest, leading, false, []);
      } else if hasContent {
        NestTokensFrom(rest, leading, true, buffer);
      } else if IsSpaceToken(t) {
        NestTokensFrom(rest, leading, false, buffer + [t]);
      } else {
        NestTokensFrom(rest, leading, true, []);
      }
    }
  }

  // ---------------------------------------------------------------------
  // Laws of the renderer
  // ---------------------------------------------------------------------

  /** The documents the renderer gets through: no `Row` on the way, and a
      first alternative in every `Alt` it takes. */
  predicate Renderable(d: Doc) {
    match d
    case Row(_) => false
    case Alt(ds) => ds != [] && Renderable(ds[0])
    case Cat(ds) => forall x <- ds :: Renderable(x)
    case Nest(_, c) => Renderable(c)
    case HStretch(c) => Renderable(c)
    case VStretch(c) => Renderable(c)
    case _ => true
  }

  /** Rendering succeeds exactly on the renderable documents. */
  lemma {:induction false} TokensOkIff(d: Doc)
    ensures Tokens(d).Ok? <==> Renderable(d)
    decreases d
  {
    match d
    case Nest(_, c) =>
      TokensOkIff(c);
    case Alt(ds) =>
      if ds != [] {
        TokensOkIff(ds[0]);
      }
    case Cat(ds) =>
      TokensAllOkIff(ds);
    case HStretch(c) =>
      TokensOkIff(c);
    case VStretch(c) =>
      TokensOkIff(c);
    case _ =>
  }

  lemma {:induction false} TokensAllOkIff(ds: seq<Doc>)
    ensures TokensAllWith(EmptyIntended, ds).Ok? <==> forall x <- ds :: Renderable(x)
    decreases ds
  {
    if ds != [] {
      TokensOkIff(ds[0]);
      TokensAllOkIff(ds[1..]);
      assert forall x <- ds :: x == ds[0] || x in ds[1..];
    }
  }

  /** Where the renderer as written gets through, it agrees with the
      intended one. */
  lemma {:induction false} AsWrittenRenderAgrees(d: Doc)
    ensures TokensAsWritten(d).Ok? ==> TokensAsWritten(d) == Tokens(d)
    decreases d
  {
    match d
    case Nest(_, c) =>
      AsWrittenRenderAgrees(c);
    case Alt(ds) =>
      if ds != [] {
        AsWrittenRenderAgrees(ds[0]);
      }
    case Cat(ds) =>
      AsWrittenRenderAgreesAll(ds);
    case HStretch(c) =>
      AsWrittenRenderAgrees(c);
    case VStretch(c) =>
      AsWrittenRenderAgrees(c);
    case _ =>
  }

  lemma {:induction false} AsWrittenRenderAgreesAll(ds: seq<Doc>)
    ensures TokensAllWith(EmptyAsWritten, ds).Ok? ==>
      TokensAllWith(EmptyAsWritten, ds) == TokensAllWith(EmptyIntended, ds)
    decreases ds
  {
    if ds != [] {
      AsWrittenRenderAgrees(ds[0]);
      AsWrittenRenderAgreesAll(ds[1..]);
    }
  }

  /** As written, a `SoftLine` cannot be rendered, nor can a document that
      takes one; the intended renderer writes nothing for it. */
  lemma SoftLineRaises(a: string, b: string)
    ensures TokensAsWritten(SoftLine) == Err(TypeError)
    ensures TokensAsWritten(Cat([Text(a), SoftLine, Text(b)])) == Err(TypeError)
    ensures Tokens(SoftLine) == Ok([])
    ensures Tokens(Cat([Text(a), SoftLine, Text(b)])) == Ok([Some(a), Some(b)])
  {
    var ds := [Text(a), SoftLine, Text(b)];
    assert ds[1..] == [SoftLine, Text(b)] && ds[1..][1..] == [Text(b)];
    assert TokensAsWritten(SoftLine) == Err(TypeError);
    assert TokensAllWith(EmptyAsWritten, ds[1..]) == Err(TypeError);
    assert TokensWith(EmptyAsWritten, ds[0]) == Ok([Some(a)]);
    assert TokensAllWith(EmptyAsWritten, ds) == Err(TypeError);
    assert TokensAsWritten(Cat(ds)) == TokensAllWith(EmptyAsWritten, ds);
    var e := EmptyIntended;
    assert TokensAllWith(e, [Text(b)]) == Ok([Some(b)]) by {
      assert [Text(b)][1..] == [];
      assert TokensAllWith(e, []) == Ok([]);
      TokensAllCons(e, [Text(b)]);
      assert [Some(b)] + [] == [Some(b)];
    }
    assert TokensAllWith(e, ds[1..]) == Ok([Some(b)]) by {
      assert TokensWith(e, SoftLine) == Ok([]);
      TokensAllCons(e, ds[1..]);
      assert [] + [Some(b)] == [Some(b)];
    }
    TokensAllCons(e, ds);
    assert [Some(a)] + [Some(b)] == [Some(a), Some(b)];
  }

  /** A `Cat` streams its parts one after the other. */
  lemma {:induction false} CatStreamsInOrder(a: seq<Doc>, b: seq<Doc>)
    ensures TokensAllWith(EmptyIntended, a + b) ==
      (if TokensAllWith(EmptyIntended, a).Err? then TokensAllWith(EmptyIntended, a)
       else if TokensAllWith(EmptyIntended, b).Err? then TokensAllWith(EmptyIntended, b)
       else Ok(TokensAllWith(EmptyIntended, a).value + TokensAllWith(EmptyIntended, b).value))
  {
    if a == [] {
      assert a + b == b;
      var rb := TokensAllWith(EmptyIntended, b);
      if rb.Ok? {
        assert [] + rb.value == rb.value;
      }
    } else {
      assert (a + b)[0] == a[0] && (a + b)[1..] == a[1..] + b;
      CatStreamsInOrder(a[1..], b);
      var h := TokensWith(EmptyIntended, a[0]);
      var ra := TokensAllWith(EmptyIntended, a[1..]);
      var rb := TokensAllWith(EmptyIntended, b);
      if h.Ok? && ra.Ok? && rb.Ok? {
        assert h.value + (ra.value + rb.value) == (h.value + ra.value) + rb.value;
      }
    }
  }

  /** Every line of a nested text is indented: a `Nest` around text, a line
      break and text writes the indentation before each text. */
  lemma NestIndentsEachLine(indent: int, a: string, b: string)
    requires !PyStr.IsSpaceStr(a) && !PyStr.IsSpaceStr(b)
    ensures Tokens(Nest(indent, Cat([Text(a), Line, Text(b)]))) ==
      Ok([Some(PyStr.Spaces(indent)), Some(a), None, Some(PyStr.Spaces(indent)), Some(b)])
  {
    var ds := [Text(a), Line, Text(b)];
    assert ds[1..] == [Line, Text(b)] && ds[1..][1..] == [Text(b)] && ds[1..][1..][1..] == [];
    var ts := [Some(a), None, Some(b)];
    var e := EmptyIntended;
    assert TokensAllWith(e, [Text(b)]) == Ok([Some(b)]) by {
      assert [Text(b)][1..] == [];
      assert TokensAllWith(e, []) == Ok([]);
      TokensAllCons(e, [Text(b)]);
      assert [Some(b)] + [] == [Some(b)];
    }
    assert TokensAllWith(e, ds[1..]) == Ok([None, Some(b)]) by {
      TokensAllCons(e, ds[1..]);
      assert [None] + [Some(b)] == [None, Some(b)];
    }
    assert Tokens(Cat(ds)) == Ok(ts) by {
      TokensAllCons(e, ds);
      assert [Some(a)] + [None, Some(b)] == ts;
    }
    var lead := PyStr.Spaces(indent);
    assert ts[1..] == [None, Some(b)] && ts[1..][1..] == [Some(b)] && [Some(b)][1..] == [];
    assert NestFrom([Some(b)], lead, false, []) == [Some(lead), Some(b)] by {
      assert [Some(lead)] + [] + [Some(b)] + [] == [Some(lead), Some(b)];
    }
    assert NestFrom(ts[1..], lead, true, []) == [None, Some(lead), Some(b)] by {
      assert [] + [None] + [Some(lead), Some(b)] == [None, Some(lead), Some(b)];
    }
    assert NestFrom(ts, lead, false, []) == [Some(lead), Some(a), None, Some(lead), Some(b)] by {
      assert [Some(lead)] + [] + [Some(a)] + [None, Some(lead), Some(b)] == [Some(lead), Some(a), None, Some(lead), Some(b)];
    }
  }

  // ---------------------------------------------------------------------
  // Laws of writing
  // ---------------------------------------------------------------------

  /** The lines of a stream: the texts between its line breaks. */
  function Lines(ts: seq<Token>): (ls: seq<string>)
    ensures |ls| >= 1
  {
    if ts == [] then [""]
    else
      var rest := Lines(ts[1..]);
      if ts[0].None? then [""] + rest else [ts[0].value + rest[0]] + rest[1..]
  }

  /** The number of line breaks in a stream. */
  function Breaks(ts: seq<Token>): nat {
    if ts == [] then 0 else (if ts[0].None? then 1 else 0) + Breaks(ts[1..])
  }

  lemma {:induction false} LinesCount(ts: seq<Token>)
    ensures |Lines(ts)| == Breaks(ts) + 1
  {
    if ts != [] {
      LinesCount(ts[1..]);
    }
  }

  lemma JoinPrefix(sep: string, a: string, xs: seq<string>)
    requires |xs| >= 1
    ensures PyStr.Join(sep, [a + xs[0]] + xs[1..]) == a + PyStr.Join(sep, xs)
  {
    var ys := [a + xs[0]] + xs[1..];
    assert ys[1..] == xs[1..];
  }

  /** The written text is the stream's lines joined by newlines. */
  lemma {:induction false} WrittenIsJoin(ts: seq<Token>)
    ensures Written(ts) == PyStr.Join("\n", Lines(ts))
  {
    if ts != [] {
      var rest := Lines(ts[1..]);
      WrittenIsJoin(ts[1..]);
      if ts[0].None? {
        assert ([""] + rest)[1..] == rest;
      } else {
        JoinPrefix("\n", ts[0].value, rest);
      }
    }
  }

  /** No text in the stream holds a newline. */
  predicate NewlineFree(ts: seq<Token>) {
    forall t <- ts :: t.Some? ==> PyStr.NoNewline(t.value)
  }

  lemma {:induction false} LinesNewlineFree(ts: seq<Token>)
    requires NewlineFree(ts)
    ensures forall k :: 0 <= k < |Lines(ts)| ==> PyStr.NoNewline(Lines(ts)[k])
  {
    if ts != [] {
      assert forall t <- ts[1..] :: t in ts;
      LinesNewlineFree(ts[1..]);
      assert ts[0] in ts;
    }
  }

  /** Writing loses nothing: splitting the written text at its newlines
      gives back the stream's lines, one more than its line breaks. */
  lemma WrittenLines(ts: seq<Token>)
    requires NewlineFree(ts)
    ensures PyStr.SplitNewlines(Written(ts)) == Lines(ts)
    ensures |PyStr.SplitNewlines(Written(ts))| == Breaks(ts) + 1
  {
    WrittenIsJoin(ts);
    LinesNewlineFree(ts);
    PyStr.JoinNewlinesRoundTrip(Lines(ts));
    LinesCount(ts);
  }

  /** The stream of a well-formed document holds no newline inside a text:
      `Text` rejects newlines and the indentation is spaces. */
  lemma {:induction false} TokensNewlineFree(d: Doc)
    requires WellFormed(d) && Tokens(d).Ok?
    ensures NewlineFree(Tokens(d).value)
    decreases d
  {
    match d
    case Nest(i, c) =>
      TokensNewlineFree(c);
      NestTokensFrom(Tokens(c).value, PyStr.Spaces(i), false, []);
    case Alt(ds) =>
      TokensNewlineFree(ds[0]);
    case Cat(ds) =>
      TokensAllNewlineFree(ds);
    case HStretch(c) =>
      TokensNewlineFree(c);
    case VStretch(c) =>
      TokensNewlineFree(c);
    case Text(s) =>
      assert PyStr.NoNewline(s);
    case _ =>
  }

  lemma {:induction false} TokensAllNewlineFree(ds: seq<Doc>)
    requires forall x <- ds :: WellFormed(x)
    requires TokensAllWith(EmptyIntended, ds).Ok?
    ensures NewlineFree(TokensAllWith(EmptyIntended, ds).value)
    decreases ds
  {
    if ds != [] {
      assert ds[0] in ds;
      assert forall x <- ds[1..] :: x in ds;
      TokensNewlineFree(ds[0]);
      TokensAllNewlineFree(ds[1..]);
    }
  }

  /** The rendered text of a well-formed document has one line per line
      break in its stream, plus one, and those lines are the stream's. */
  lemma RenderedLines(d: Doc)
    requires WellFormed(d) && Tokens(d).Ok?
    ensures PyStr.SplitNewlines(Written(Tokens(d).value)) == Lines(Tokens(d).value)
    ensures |PyStr.SplitNewlines(Written(Tokens(d).value))| == Breaks(Tokens(d).value) + 1
  {
    TokensNewlineFree(d);
    WrittenLines(Tokens(d).value);
  }
}
