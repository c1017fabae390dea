/** The generic fold over the older documents
    (talon_fmt/prettyprinter/transformer.py, `DocTransformer`): one case per
    kind of document; every case but `Alt` receives its children already
    transformed, together with the original children (the `_hist`
    arguments), and `Alt` receives only its original alternatives.

    A subclass's `transform_*` methods are the fields of a `Transformer`
    value.  `transform` as written fails on two kinds of document:
    the `Row` case reads a field `cols` that `Row` does not have, and every
    document that gets past the `Row` test reaches a test against `Table`, a
    name the module's star import does not bring in.  `TransformAsWritten`
    models that, with `transform_all` as the lazy `map` it is: the children
    of a `Cat` are transformed only when its case consumes them, while the
    child of a `Nest` is transformed at once.  `Transform` is the evidently
    intended fold, which the renderer is built on. */
module LegacyTransformer {
  import opened Results
  import opened LegacyDoc

  /** The `transform_*` methods of one `DocTransformer` subclass. */
  datatype Transformer<!R> = Transformer(
    empty: R,
    line: R,
    text: string -> R,
    nest: (int, R, Doc) -> R,
    alt: seq<Doc> -> R,
    cat: (seq<R>, seq<Doc>) -> R,
    row: (seq<R>, seq<Doc>) -> R,
    hstretch: (R, Doc) -> R,
    vstretch: (R, Doc) -> R)

  /** The exceptions `transform` as written raises by itself. */
  datatype Raised =
    | AttributeError  // `doc.cols` on a Row, whose field is `docs`
    | NameError       // `Table`, which is not defined in the module

  // ---------------------------------------------------------------------
  // The fold
  // ---------------------------------------------------------------------

  /** `transform`, with each kind of document sent to its own case. */
  function Transform<R>(t: Transformer<R>, d: Doc): R
    decreases d
  {
    match d
    case Empty => t.empty
    case Line => t.line
    case Text(s) => t.text(s)
    case Nest(i, c) => t.nest(i, Transform(t, c), c)
    case Alt(ds) => t.alt(ds)
    case Cat(ds) => t.cat(TransformAll(t, ds), ds)
    case Row(ds) => t.row(TransformAll(t, ds), ds)
    case HStretch(c) => t.hstretch(Transform(t, c), c)
    case VStretch(c) => t.vstretch(Transform(t, c), c)
  }

  /** `transform_all`: the children, transformed one by one. */
  function TransformAll<R>(t: Transformer<R>, ds: seq<Doc>): (rs: seq<R>)
    ensures |rs| == |ds|
    ensures forall i :: 0 <= i < |ds| ==> rs[i] == Transform(t, ds[i])
    decreases ds
  {
    if ds == [] then [] else [Transform(t, ds[0])] + TransformAll(t, ds[1..])
  }

  /** What a `transform_Cat` case receives as written: the lazy
      `map(self.transform, docs)`, one item per child, each either the
      child's result or the exception that computing it raises.  An item
      raises only when the case consumes it. */
  type Items<R> = seq<Result<R, Raised>>

  /** `transform` as written, for a subclass whose `transform_Cat` case is
      `cat`: given the lazy items, it returns a result or raises while
      consuming them.  A `Row` raises `AttributeError` and an `HStretch` or a
      `VStretch` raises `NameError` at once, and so does a `Nest` around one
      (its child is transformed at once); a `Cat` hands its items to `cat`
      unconsumed. */
  function TransformAsWritten<R>(t: Transformer<R>, cat: (Items<R>, seq<Doc>) -> Result<R, Raised>, d: Doc): Result<R, Raised>
    decreases d
  {
    match d
    case Empty => Ok(t.empty)
    case Line => Ok(t.line)
    case Text(s) => Ok(t.text(s))
    case Nest(i, c) =>
      var r :- TransformAsWritten(t, cat, c);
      Ok(t.nest(i, r, c))
    case Alt(ds) => Ok(t.alt(ds))
    case Cat(ds) => cat(MapAsWritten(t, cat, ds), ds)
    case Row(_) => Err(AttributeError)
    case HStretch(_) => Err(NameError)
    case VStretch(_) => Err(NameError)
  }

  /** `transform_all` as written: `map(self.transform, docs)`. */
  function MapAsWritten<R>(t: Transformer<R>, cat: (Items<R>, seq<Doc>) -> Result<R, Raised>, ds: seq<Doc>): (xs: Items<R>)
    ensures |xs| == |ds|
    ensures forall i :: 0 <= i < |ds| ==> xs[i] == TransformAsWritten(t, cat, ds[i])
    decreases ds
  {
    if ds == [] then [] else [TransformAsWritten(t, cat, ds[0])] + MapAsWritten(t, cat, ds[1..])
  }

  /** Consuming the items in order: the first exception, or every result. */
  function Consumed<R>(xs: Items<R>): Result<seq<R>, Raised> {
    if xs == [] then Ok([])
    else
      var r :- xs[0];
      var rs :- Consumed(xs[1..]);
      Ok([r] + rs)
  }

  /** A `transform_Cat` case that consumes all its items first and then
      does what `t.cat` does, as a case that builds a tuple or a list does. */
  function Consuming<R>(t: Transformer<R>): (Items<R>, seq<Doc>) -> Result<R, Raised> {
    (xs, ds) => if Consumed(xs).Err? then Err(Consumed(xs).error) else Ok(t.cat(Consumed(xs).value, ds))
  }

  /** The exception `transform` as written raises by itself, before any
      case runs: a `Row` or a stretch, possibly under `Nest`s. */
  function EagerFailure(d: Doc): Option<Raised> {
    match d
    case Row(_) => Some(AttributeError)
    case HStretch(_) => Some(NameError)
    case VStretch(_) => Some(NameError)
    case Nest(_, c) => EagerFailure(c)
    case _ => None
  }

  /** The documents `transform` as written gets through when `transform_Cat`
      consumes its items: no `Row`, `HStretch` or `VStretch` that it has to
      transform (alternatives are never transformed). */
  predicate Transformable(d: Doc) {
    match d
    case Row(_) => false
    case HStretch(_) => false
    case VStretch(_) => false
    case Nest(_, c) => Transformable(c)
    case Cat(ds) => forall x <- ds :: Transformable(x)
    case _ => true
  }

  // ---------------------------------------------------------------------
  // Laws
  // ---------------------------------------------------------------------

  /** The document under all the `Nest`s around it. */
  function Unnested(d: Doc): (u: Doc)
    ensures !u.Nest?
  {
    if d.Nest? then Unnested(d.doc) else d
  }

  /** Whatever the subclass, `transform` as written raises by itself exactly
      the eager failure; any other document is transformed unless a `Cat`
      under its `Nest`s fails, and a `Cat` is up to its case. */
  lemma {:induction false} AsWrittenRaises<R>(t: Transformer<R>, cat: (Items<R>, seq<Doc>) -> Result<R, Raised>, d: Doc)
    ensures EagerFailure(d).Some? ==> TransformAsWritten(t, cat, d) == Err(EagerFailure(d).value)
    ensures EagerFailure(d).None? && !Unnested(d).Cat? ==> TransformAsWritten(t, cat, d).Ok?
    ensures d.Cat? ==> TransformAsWritten(t, cat, d) == cat(MapAsWritten(t, cat, d.docs), d.docs)
  {
    match d
    case Nest(i, c) =>
      AsWrittenRaises(t, cat, c);
    case _ =>
  }

  /** For a subclass whose `transform_Cat` consumes its items, `transform`
      as written succeeds exactly on the transformable documents, and then
      agrees with the intended fold. */
  lemma {:induction false} AsWrittenAgrees<R>(t: Transformer<R>, d: Doc)
    ensures TransformAsWritten(t, Consuming(t), d).Ok? <==> Transformable(d)
    ensures TransformAsWritten(t, Consuming(t), d).Ok? ==> TransformAsWritten(t, Consuming(t), d).value == Transform(t, d)
    decreases d
  {
    match d
    case Nest(i, c) =>
      AsWrittenAgrees(t, c);
    case Cat(ds) =>
      AsWrittenAgreesAll(t, ds);
    case _ =>
  }

  lemma {:induction false} AsWrittenAgreesAll<R>(t: Transformer<R>, ds: seq<Doc>)
    ensures Consumed(MapAsWritten(t, Consuming(t), ds)).Ok? <==> forall x <- ds :: Transformable(x)
    ensures Consumed(MapAsWritten(t, Consuming(t), ds)).Ok? ==> Consumed(MapAsWritten(t, Consuming(t), ds)).value == TransformAll(t, ds)
    decreases ds
  {
    if ds != [] {
      AsWrittenAgrees(t, ds[0]);
      AsWrittenAgreesAll(t, ds[1..]);
      assert MapAsWritten(t, Consuming(t), ds)[1..] == MapAsWritten(t, Consuming(t), ds[1..]);
      assert forall x <- ds :: x == ds[0] || x in ds[1..];
    }
  }

  /** Whatever the subclass, a `Cat` whose items would all succeed receives
      them as the intended fold computes them. */
  lemma {:induction false} LazyItemsAgree<R>(t: Transformer<R>, cat: (Items<R>, seq<Doc>) -> Result<R, Raised>, ds: seq<Doc>)
    requires forall x <- ds :: Transformable(x)
    requires forall rs: seq<R>, es: seq<Doc> :: cat(Oks(rs), es) == Ok(t.cat(rs, es))
    ensures MapAsWritten(t, cat, ds) == Oks(TransformAll(t, ds))
    decreases ds
  {
    if ds != [] {
      LazyAgrees(t, cat, ds[0]);
      LazyItemsAgree(t, cat, ds[1..]);
    }
  }

  /** Whatever the subclass, if its `transform_Cat` given items that all
      succeed does what the intended case does, `transform` as written
      agrees with the intended fold on the transformable documents. */
  lemma {:induction false} LazyAgrees<R>(t: Transformer<R>, cat: (Items<R>, seq<Doc>) -> Result<R, Raised>, d: Doc)
    requires Transformable(d)
    requires forall rs: seq<R>, es: seq<Doc> :: cat(Oks(rs), es) == Ok(t.cat(rs, es))
    ensures TransformAsWritten(t, cat, d) == Ok(Transform(t, d))
    decreases d
  {
    match d
    case Nest(i, c) =>
      LazyAgrees(t, cat, c);
    case Cat(ds) =>
      LazyItemsAgree(t, cat, ds);
    case _ =>
  }

  /** Results that all succeed, as items. */
  function Oks<R>(rs: seq<R>): (xs: Items<R>)
    ensures |xs| == |rs|
    ensures forall i :: 0 <= i < |rs| ==> xs[i] == Ok(rs[i])
  {
    if rs == [] then [] else [Ok(rs[0])] + Oks(rs[1..])
  }

  /** The transformer that rebuilds every document from its transformed
      children. */
  function Rebuild(): Transformer<Doc> {
    Transformer(
      Empty,
      Line,
      s => Text(s),
      (i, r, _) => Nest(i, r),
      ds => Alt(ds),
      (rs, _) => Cat(rs),
      (rs, _) => Row(rs),
      (r, _) => HStretch(r),
      (r, _) => VStretch(r))
  }

  /** Each case receives exactly the transformed children: rebuilding them
      gives back the document. */
  lemma {:induction false} RebuildIsIdentity(d: Doc)
    ensures Transform(Rebuild(), d) == d
    decreases d
  {
    match d
    case Nest(i, c) =>
      RebuildIsIdentity(c);
    case Cat(ds) =>
      RebuildAllIsIdentity(ds);
    case Row(ds) =>
      RebuildAllIsIdentity(ds);
    case HStretch(c) =>
      RebuildIsIdentity(c);
    case VStretch(c) =>
      RebuildIsIdentity(c);
    case _ =>
  }

  lemma {:induction false} RebuildAllIsIdentity(ds: seq<Doc>)
    ensures TransformAll(Rebuild(), ds) == ds
    decreases ds
  {
    if ds != [] {
      RebuildIsIdentity(ds[0]);
      RebuildAllIsIdentity(ds[1..]);
    }
  }

  /** As written, a stretch cannot be transformed at all, not even by the
      transformer that rebuilds it, and neither can a row; the intended
      fold rebuilds both. */
  lemma StretchAndRowRaise(c: Doc, ds: seq<Doc>)
    ensures TransformAsWritten(Rebuild(), Consuming(Rebuild()), HStretch(c)) == Err(NameError)
    ensures TransformAsWritten(Rebuild(), Consuming(Rebuild()), VStretch(c)) == Err(NameError)
    ensures TransformAsWritten(Rebuild(), Consuming(Rebuild()), Row(ds)) == Err(AttributeError)
    ensures TransformAsWritten(Rebuild(), Consuming(Rebuild()), Nest(1, Row(ds))) == Err(AttributeError)
    ensures Transform(Rebuild(), HStretch(c)) == HStretch(c)
    ensures Transform(Rebuild(), Row(ds)) == Row(ds)
  {
    RebuildIsIdentity(HStretch(c));
    RebuildIsIdentity(Row(ds));
  }
}
