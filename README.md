# talonfmt pretty-printer, modelled in Dafny

talonfmt formats Talon voice-command files. Its formatters build a layout
document and hand it to a renderer. This project models that document
layer, in two generations:

- **The newer pretty-printer** (`talonfmt/prettyprinter/`), in two modules.
  - `PrettyDoc` (prettydoc.dfy) models `doc.py`:
    - `Text`, with the interned `Empty`, `Space` and `Line`;
    - `Nest`, `Alt`, `Cat`, `Row` and `Table`, each with its constructor assertions;
    - the `splat` flattener, `cat`/`row`/`alt`, the operators `/`, `//`, `&`, `|` and `*`;
    - `Text.words` and `Text.lines`, and the bracket helpers.
  - `PrettyRender` (prettyrender.dfy) models `render.py`'s `SimpleDocRenderer`.
    - `Alt` takes its first alternative; `Cat` concatenates.
    - A `Row` is framed by `hsep` and `Line`.
    - `Nest` re-indents line by line. This uses a `has_content`/`line_indent` loop, modelled as a method.
    - `Table` is laid out in two phases over `CellBuffer`, `RowBuffer` and `TableBuffer` classes:
      - the first phase fills the buffers and sums each cell's `min_width`;
      - the second pads every cell with `hpad` to its column width, which is the largest `min_width` in that column.
  - The renderer reads `alts` on `Alt`, `cells` and `info.hsep`/`info.hpad` on `Row`. The shown `doc.py` has none of these fields. So the renderer is modelled over its own document type, which has exactly these fields.
  - A token is identified by its text, and its width is the length of that text.
- **The older pretty-printer** (`talon_fmt/prettyprinter/`), in three modules.
  - `LegacyDoc` (legacydoc.dfy) models `doc.py`:
    - the `Empty` and `Line` singletons;
    - texts, which may not contain newlines;
    - the interned `Space` and `SoftLine`;
    - `nest` arithmetic;
    - `to_doc`/`to_docs`/`flatten`, `cat`/`row`/`alt`, the operators and `between` with the bracket helpers.
  - `LegacyTransformer` (legacytransformer.dfy) models the `DocTransformer` fold, as intended and as written, with `transform_all`'s lazy `map`.
  - `LegacyRender` (legacyrender.dfy) models the fold-based `SimpleDocRenderer`. Its `Nest` case holds leading whitespace in a line buffer. Its `render` writes `None` tokens as newlines.
- **The parse error report** (`talonfmt/parse_error.py`) is modelled in `ParseErrors` (parseerror.dfy). It covers:
  - the range description;
  - the caret annotation under the offending lines, built by a loop that is modelled as a method;
  - the final message.

Helper modules:
- `PyStr` (pystr.dfy) models the parts of Python's `str` that the code relies on: `isspace`, `split()`, `splitlines()`, `join` and decimal formatting of integers.
- `Results` (results.dfy) holds `Option` and `Result`.

Modelling conventions:
- A constructor assertion that fails, and any other exception, is an `Err` value.
- Interned objects and singletons are constants. Every constructor returns the interned object for an equal value, so identity tests (`is`) become value comparisons.
- A generator is modelled as the complete sequence of its tokens, or the exception that consuming it raises.

## Model

| member | source | states |
|---|---|---|
| PyStr.SplitWordsAreWords | talonfmt/prettyprinter/doc.py:125-127 | every word `str.split()` yields is non-empty and holds no whitespace |
| PyStr.SplitWordsKeepsContent | talonfmt/prettyprinter/doc.py:125-127 | the words of `split()`, glued together, are exactly the non-whitespace characters of the string, in order |
| PyStr.SplitLinesHaveNoBreaks | talon_fmt/prettyprinter/doc.py:25 | no line returned by `splitlines()` contains a line boundary |
| PyStr.SplitLinesOfLine | talon_fmt/prettyprinter/doc.py:25-29 | a string without line boundaries is one line, or no line when it is empty |
| PyStr.SplitLinesAfterLine | talon_fmt/prettyprinter/doc.py:25 | a line followed by `"\n"` is the first line, and the rest splits on its own |
| PyStr.SplitLinesShort | talon_fmt/prettyprinter/doc.py:25-29 | a string of at most one character is at most one line |
| PyStr.JoinNewlinesRoundTrip | talonfmt/parse_error.py:45 | splitting `"\n".join(xs)` at its newlines gives back `xs` when no part holds a newline |
| PyStr.Spaces | talon_fmt/prettyprinter/render.py:45 | `" " * n` is `max(n, 0)` spaces |
| PyStr.NatToStringRoundTrip | talonfmt/parse_error.py:19 | the decimal form of a row or column reads back as the same number |
| PyStr.NatToStringInjective | talonfmt/parse_error.py:19 | different numbers have different decimal forms |
| PrettyDoc.NewText | talonfmt/prettyprinter/doc.py:141-159 | `Text(s)` succeeds exactly when `s` is one of the three interned texts or starts with a non-whitespace character; `""`, `" "` and `"\n"` give `Empty`, `Space` and `Line`; a result is well-formed |
| PrettyDoc.TextChecksFirstCharacterOnly | talonfmt/prettyprinter/doc.py:152-159 | the regular expression is anchored at the start only: `"a b"` is accepted; `" a"` and `"\ta"` are rejected |
| PrettyDoc.NewNest | talonfmt/prettyprinter/doc.py:200-211 | a built `Nest` has a positive indent and a child that is not a `Nest`; for a non-`Nest` child it succeeds exactly when the indent is positive |
| PrettyDoc.NestMerges | talonfmt/prettyprinter/doc.py:200-211 | `Nest(i, Nest(j, d))` is `Nest(i + j, d)`, with the same success condition |
| PrettyDoc.NewAlt | talonfmt/prettyprinter/doc.py:223-225 | `Alt(docs)` succeeds exactly when no alternative is an `Alt` |
| PrettyDoc.NewCat | talonfmt/prettyprinter/doc.py:239-243 | `Cat(docs)` succeeds exactly when no element is a `Cat` and none is `Empty` |
| PrettyDoc.NewRow | talonfmt/prettyprinter/doc.py:253-255 | `Row(cols)` succeeds exactly when no column is a `Row` |
| PrettyDoc.NewTable | talonfmt/prettyprinter/doc.py:265-267 | `Table(rows)` succeeds exactly when every row is a `Row` |
| PrettyDoc.SplatAllAppend | talonfmt/prettyprinter/doc.py:17-35 | `splat` of two argument lists one after the other is the two splats one after the other |
| PrettyDoc.SplatItems | talonfmt/prettyprinter/doc.py:17-35 | splatting an iterable of documents unpacks exactly the documents of the unpacked class, one level deep, and keeps the rest |
| PrettyDoc.UnpackAllUnchanged | talonfmt/prettyprinter/doc.py:29-30 | documents of no unpacked class pass through `splat` unchanged |
| PrettyDoc.SplatWellFormed | talonfmt/prettyprinter/doc.py:17-35 | from well-formed arguments `splat` yields well-formed documents, none of them of the unpacked class |
| PrettyDoc.CatOfFlat | talonfmt/prettyprinter/doc.py:38-39 | `cat` of well-formed arguments never nests a `Cat` in a `Cat`; it fails exactly when `Empty` is among the spliced documents, and otherwise yields a well-formed `Cat` |
| PrettyDoc.CatKeepsEmpty | talonfmt/prettyprinter/doc.py:38-39 | `cat` does not drop `Empty`, so a `Cat` that receives it trips the assertion |
| PrettyDoc.RowOfFlat | talonfmt/prettyprinter/doc.py:42-43 | `row` of well-formed arguments always succeeds and never nests a `Row` in a `Row` |
| PrettyDoc.AltOfFlat | talonfmt/prettyprinter/doc.py:46-47 | `alt` of well-formed arguments always succeeds and never nests an `Alt` in an `Alt` |
| PrettyDoc.UnpackIntersperse | talonfmt/prettyprinter/doc.py:57-66 | flattening after interspersing a separator is joining the flattened parts with the flattened separator |
| PrettyDoc.JoinSeparatesTopLevel | talonfmt/prettyprinter/doc.py:57-66 | `sep.join(xs)` puts the separator between the top-level documents only: a `Cat` among them contributes its elements with no separator inside |
| PrettyDoc.WordsAreTexts | talonfmt/prettyprinter/doc.py:125-127 | `Text.words` yields only `Space` and non-empty texts without whitespace |
| PrettyDoc.WordsIsSpaceJoin | talonfmt/prettyprinter/doc.py:125-127 | `Text.words(s)` is `Space.join` over the `Text` of each word, as the source composes it |
| PrettyDoc.SpelledWords | talonfmt/prettyprinter/doc.py:125-127 | the texts of `Text.words` spell the words rejoined by single spaces |
| PrettyDoc.LinesOfWord | talonfmt/prettyprinter/doc.py:129-131 | a single word becomes a `Cat` of exactly that one `Text` |
| PrettyDoc.LinesAreTexts | talonfmt/prettyprinter/doc.py:129-131 | `Text.lines` yields only words, `Space` and `Line` |
| PrettyDoc.LinesWellFormed | talonfmt/prettyprinter/doc.py:26-27 | a string given to `splat` becomes a well-formed, flat `Cat` of non-empty texts |
| PrettyDoc.LinesIsLineJoin | talonfmt/prettyprinter/doc.py:129-131 | `Text.lines(s)` is `Line.join` over `Text.words` of each line, as the source composes it |
| PrettyDoc.SpelledLines | talonfmt/prettyprinter/doc.py:125-131 | `Text.lines(s)` spells each line's words rejoined by single spaces, with the lines rejoined by newlines; runs of whitespace collapse and blank lines stay |
| PrettyDoc.SpaceThenOneSpace | talonfmt/prettyprinter/doc.py:80-90 | `a // b` is the parts of `a`, exactly one `Space`, then the parts of `b`; it fails exactly when `Empty` is among those parts |
| PrettyDoc.TimesRepeats | talonfmt/prettyprinter/doc.py:170-174 | `t * n` is a `Cat` of `n` copies of `t` (none when `n <= 0`), and fails when `t` is `Empty` and `n > 0` |
| PrettyDoc.BetweenWraps | talonfmt/prettyprinter/doc.py:282-299 | the bracket helpers build one fixed opening `Text`, the flattened content, and one fixed closing `Text` |
| PrettyDoc.SoftLineIsAlternative | talonfmt/prettyprinter/doc.py:277 | `SoftLine` is the alternative of `Empty` and `Line` |
| PrettyRender.Repeat | talonfmt/prettyprinter/render.py:102-104 | `repeat(t, n)` is `n` copies of `t`, none when `n <= 0` |
| PrettyRender.WidthRepeat | talonfmt/prettyprinter/render.py:102-104 | `n` copies of a token are `n` times its width |
| PrettyRender.FramedIsJoin | talonfmt/prettyprinter/render.py:68-76 | the framing shared by rows and tables is the `hsep`-join of the parts followed by one `Line`, and nothing for no parts |
| PrettyRender.IndentTokens | talonfmt/prettyprinter/render.py:110-127 | the `Nest` loop with its `has_content`/`line_indent` variables emits what the nesting state machine emits from an empty line |
| PrettyRender.RenderEach | talonfmt/prettyprinter/render.py:49-51 | `render_stream` renders one stream per document |
| PrettyRender.CatRendersInOrder | talonfmt/prettyprinter/render.py:64-66 | a `Cat` renders its children in order with nothing between them; the first failure is the one raised |
| PrettyRender.ToStrOfCat | talonfmt/prettyprinter/render.py:42-43 | `to_str` is the concatenation of the token texts in emission order |
| PrettyRender.AltRendersFirst | talonfmt/prettyprinter/render.py:57-60 | a non-empty `Alt` renders as its first alternative, whatever the others are |
| PrettyRender.EmptyAltVanishes | talonfmt/prettyprinter/render.py:61-62 | an `Alt` of no alternatives yields no tokens and raises nothing, even inside a `Cat` |
| PrettyRender.RowLayout | talonfmt/prettyprinter/render.py:68-76 | a `Row` of `n >= 1` cells renders the cells with `hsep` between them and one `Line` at the end; a `Row` of no cells renders nothing |
| PrettyRender.MaxCells | talonfmt/prettyprinter/render.py:81 | `n_cols` bounds every row's cell count and is the cell count of some row |
| PrettyRender.ColumnCount | talonfmt/prettyprinter/render.py:80-81 | the column count exists only for a non-empty table whose rows are all `Row`s |
| PrettyRender.RenderCells | talonfmt/prettyprinter/render.py:87-92 | a row whose cells render gives exactly `n_cols` cell streams |
| PrettyRender.RenderGrid | talonfmt/prettyprinter/render.py:84-94 | a table whose cells render gives one row of `n_cols` cell streams per row |
| PrettyRender.CellsComplete | talonfmt/prettyprinter/render.py:87-88 | if the first `n` cells of a row render, the row has at least `n` cells |
| PrettyRender.GridRowsComplete | talonfmt/prettyprinter/render.py:87-88 | if a table's grid renders, every row has at least `n_cols` cells |
| PrettyRender.ColumnWidthIsMax | talonfmt/prettyprinter/render.py:36-37 | column `j`'s width is at least every cell's width in column `j` and equals some cell's width |
| PrettyRender.ColumnWidths | talonfmt/prettyprinter/render.py:103 | one width per column |
| PrettyRender.CellBuffer.constructor | talonfmt/prettyprinter/render.py:20-23 | a new cell buffer is empty, with `min_width` 0 |
| PrettyRender.RowBuffer.constructor | talonfmt/prettyprinter/render.py:26-29 | a new row buffer keeps the row's info and has no cells |
| PrettyRender.RowBuffer.Append | talonfmt/prettyprinter/render.py:93 | appending a filled cell buffer adds that one cell and keeps the buffer consistent with the rendered cells |
| PrettyRender.TableBuffer.constructor | talonfmt/prettyprinter/render.py:32-34 | a new table buffer has no rows |
| PrettyRender.TableBuffer.Append | talonfmt/prettyprinter/render.py:94 | appending a row buffer adds that one row, and the table buffer holds the grid grown by that row |
| PrettyRender.TableBuffer.ColWidth | talonfmt/prettyprinter/render.py:36-37 | `col_width(j)` is at least every row's `min_width` in column `j` and equals one of them |
| PrettyRender.CountColumns | talonfmt/prettyprinter/render.py:80-81 | the loop computes the column count, or `ValueError` for no rows and `AttributeError` for a row that is not a `Row` |
| PrettyRender.FillCell | talonfmt/prettyprinter/render.py:89-92 | a filled cell buffer holds the cell's tokens, and its `min_width` is their total width |
| PrettyRender.FillRow | talonfmt/prettyprinter/render.py:86-93 | the row buffer holds the rendered first `n_cols` cells, or the error rendering them raises (`IndexError` for a missing cell) |
| PrettyRender.FillTable | talonfmt/prettyprinter/render.py:83-94 | the table buffer holds the rendered grid with every row's info, or the first error that rendering raises |
| PrettyRender.ColWidthIsColumnWidth | talonfmt/prettyprinter/render.py:36-37 | the buffers' `max` is the widest rendered cell of the column |
| PrettyRender.EmitCell | talonfmt/prettyprinter/render.py:100-108 | cell `j` of row `i` is emitted as its tokens, `hpad` up to the column width, then `hsep`, or `Line` for the last column |
| PrettyRender.EmitRow | talonfmt/prettyprinter/render.py:97-108 | a row is emitted as its padded cells framed by `hsep` and `Line` |
| PrettyRender.EmitRows | talonfmt/prettyprinter/render.py:96-108 | the second phase emits every row of the filled table, in order |
| PrettyRender.RenderTable | talonfmt/prettyprinter/render.py:78-108 | the two-phase `Table` case over the buffers produces exactly the table's rendering, errors included |
| PrettyRender.RenderTableOk | talonfmt/prettyprinter/render.py:78-108 | a table whose cells render comes out as its rows with padded cells |
| PrettyRender.RenderTableErr | talonfmt/prettyprinter/render.py:80-92 | a table fails with the column-count error, or else with the first cell error |
| PrettyRender.TableShape | talonfmt/prettyprinter/render.py:80-88 | a table needs rows (`ValueError`), all of them `Row`s (`AttributeError`), and renders only when all rows have the same number of cells |
| PrettyRender.PaddedWidth | talonfmt/prettyprinter/render.py:98-104 | a padded cell is its width plus one `hpad` per missing unit of width, which is exactly the column width for a one-character `hpad` |
| PrettyRender.CellOutWidth | talonfmt/prettyprinter/render.py:100-106 | a padded cell that is not the last in its row takes its column width plus the width of `hsep` |
| PrettyRender.CellOffsets | talonfmt/prettyprinter/render.py:97-108 | with a one-character `hpad`, cell `j` starts at the sum of the earlier column widths plus `j` separators, in every row |
| PrettyRender.ColumnsAligned | talonfmt/prettyprinter/render.py:98-104 | every padded cell is exactly as wide as its column, so cells end at the same offset in every row |
| PrettyRender.NestKeepsNonSpace | talonfmt/prettyprinter/render.py:110-127 | nesting only adds, drops or moves `Space` tokens: every other token comes out in order and in the same number |
| PrettyRender.LeadingSpacesCounted | talonfmt/prettyprinter/render.py:119-123 | leading `Space` tokens on a line without content are counted in `line_indent`, not emitted |
| PrettyRender.BlankLineUnindented | talonfmt/prettyprinter/render.py:115-123 | a line of only `Space` tokens comes out as a bare `Line`, with no indentation |
| PrettyRender.FirstTokenIndented | talonfmt/prettyprinter/render.py:122-127 | the first other token of a line is preceded by `line_indent + indent` spaces |
| PrettyRender.ContentPassesThrough | talonfmt/prettyprinter/render.py:119-120 | once a line has content, its tokens pass through unchanged up to the next `Line` |
| PrettyRender.LineIndentCarriesOver | talonfmt/prettyprinter/render.py:112-117 | `line_indent` is never reset at a `Line`: one leading space on the first line also indents the next line |
| LegacyDoc.NewText | talon_fmt/prettyprinter/doc.py:201-213 | `Text(s)` fails exactly when a non-empty `s` holds a newline; `""` gives `Empty`, and any other string gives a well-formed text |
| LegacyDoc.NestOf | talon_fmt/prettyprinter/doc.py:259-270 | a built `Nest` has a positive indent and a child that is not a `Nest` |
| LegacyDoc.NewNestMerges | talon_fmt/prettyprinter/doc.py:259-270 | the `Nest` constructor merges a directly nested `Nest` by adding the indents, and fails when the sum is not positive |
| LegacyDoc.NestArithmetic | talon_fmt/prettyprinter/doc.py:94-101 | `Empty.nest` is `Empty`; any other non-`Nest` is kept for `i <= 0` and wrapped otherwise; `Nest(k, d).nest(i)` is `Nest(k + i, d)`, or `d` when `k + i <= 0`; the result is well-formed |
| LegacyDoc.NestByNest | talon_fmt/prettyprinter/doc.py:272-278 | the `Nest.nest` override adds to the indent, and unwraps when the sum is not positive |
| LegacyDoc.NestByOther | talon_fmt/prettyprinter/doc.py:94-101 | `Doc.nest` keeps the document for a non-positive indent and wraps it otherwise |
| LegacyDoc.NestTwice | talon_fmt/prettyprinter/doc.py:94-101 | nesting twice by positive amounts is nesting once by their sum |
| LegacyDoc.NewHStretch | talon_fmt/prettyprinter/doc.py:226-235 | a built `HStretch` holds a one-character `Text` |
| LegacyDoc.HStretchOfString | talon_fmt/prettyprinter/doc.py:226-235 | `HStretch` of a newline-free string succeeds exactly when the string has one character |
| LegacyDoc.NewCat | talon_fmt/prettyprinter/doc.py:332-338 | the intended `Cat` never holds a `Cat` or `Empty`, and can only fail on a nested `Cat` |
| LegacyDoc.NewCatOfWellFormed | talon_fmt/prettyprinter/doc.py:332-338 | the intended `Cat` of well-formed documents always succeeds and is well-formed |
| LegacyDoc.CatAsWrittenKeepsNothing | talon_fmt/prettyprinter/doc.py:332-338 | as written, a `Cat` that is built is always empty, and any `Empty` among the flattened documents trips the assertion |
| LegacyDoc.CatAsWrittenLosesText | talon_fmt/prettyprinter/doc.py:23-29 | as written, the `Cat` for `"hello\nworld"` is empty; as intended it holds both lines around `Line` |
| LegacyDoc.SelectMembers | talon_fmt/prettyprinter/doc.py:333 | `filter`/`filterfalse(bool, …)` keep input documents whose emptiness is the one selected |
| LegacyDoc.SelectSpliceIsParts | talon_fmt/prettyprinter/doc.py:333 | dropping `Empty` from the flattened well-formed documents collects exactly their parts |
| LegacyDoc.NewRow | talon_fmt/prettyprinter/doc.py:352-356 | a built `Row` has no `Row` among its columns |
| LegacyDoc.SpliceWellFormed | talon_fmt/prettyprinter/doc.py:47-56 | flattening well-formed documents leaves none of the unpacked class, and all well-formed |
| LegacyDoc.SpliceUnchanged | talon_fmt/prettyprinter/doc.py:47-56 | documents of no unpacked class are not changed by flattening |
| LegacyDoc.FlattenItems | talon_fmt/prettyprinter/doc.py:47-56 | `flatten` over documents unpacks exactly those of the unpacked class, one level |
| LegacyDoc.FlattenWellFormed | talon_fmt/prettyprinter/doc.py:47-56 | `flatten` of well-formed arguments yields well-formed documents, and can fail only on a newline in a string |
| LegacyDoc.ToDocAll | talon_fmt/prettyprinter/doc.py:37-44 | `to_docs` yields one document per document-like |
| LegacyDoc.ToDocAllItems | talon_fmt/prettyprinter/doc.py:37-44 | `to_docs` of documents is those documents |
| LegacyDoc.ToDocOfLine | talon_fmt/prettyprinter/doc.py:23-31 | a string without line boundaries is just `Text` of it |
| LegacyDoc.OneCharText | talon_fmt/prettyprinter/doc.py:23-31 | a one-character string other than a newline is one `Text` |
| LegacyDoc.TextsOfLines | talon_fmt/prettyprinter/doc.py:23-29 | the lines of a string all become well-formed texts, and `flatten` gives exactly those texts |
| LegacyDoc.ToDocIsCatOfLines | talon_fmt/prettyprinter/doc.py:23-27 | `to_doc` of a multi-line string is `cat(lines, separator=Line)` |
| LegacyDoc.CatOfLines | talon_fmt/prettyprinter/doc.py:23-27 | the texts of the lines with `Line` between them form a `Cat` that spells the lines rejoined by newlines |
| LegacyDoc.ToDocKeepsLines | talon_fmt/prettyprinter/doc.py:23-27 | `to_doc` of a multi-line string keeps every line: its `Cat` spells the lines joined by newlines, and splitting that at newlines gives back the lines |
| LegacyDoc.ToDocTwoLines | talon_fmt/prettyprinter/doc.py:23-27 | two non-empty lines around a newline become two texts around `Line` |
| LegacyDoc.ToDocTrailingNewline | talon_fmt/prettyprinter/doc.py:211-213 | `"a\n"` is one line for `splitlines`, so it becomes `Text("a\n")`, which fails the no-newline assertion |
| LegacyDoc.ToDocWellFormed | talon_fmt/prettyprinter/doc.py:23-31 | `to_doc` of a string or well-formed document gives a well-formed document, or fails only on a newline in a text |
| LegacyDoc.CatOf | talon_fmt/prettyprinter/doc.py:59-70 | `cat` never returns `Empty`, because its emptiness test is on a generator that is always true |
| LegacyDoc.CatOfWellFormed | talon_fmt/prettyprinter/doc.py:59-70 | `cat` of well-formed arguments yields a well-formed `Cat`, and fails only on a newline in a string |
| LegacyDoc.RowOf | talon_fmt/prettyprinter/doc.py:73-74 | `row` builds a `Row` |
| LegacyDoc.RowOfWellFormed | talon_fmt/prettyprinter/doc.py:73-74 | `row` of well-formed arguments yields a well-formed `Row`, and fails only on a newline in a string |
| LegacyDoc.AltOfWellFormed | talon_fmt/prettyprinter/doc.py:297-310 | `alt` of well-formed arguments yields a well-formed result, and fails only on a newline in a string |
| LegacyDoc.SoftLineInterned | talon_fmt/prettyprinter/doc.py:297-321 | the alternative of `Empty` then `Line` is the interned `SoftLine`, with repr `"SoftLine"`; `Line` then `Empty` is an ordinary `Alt`, whose repr joins the two names with a bar between spaces |
| LegacyDoc.AltOfFewAlternatives | talon_fmt/prettyprinter/doc.py:297-306 | no alternatives give `Empty`, and one alternative stays an `Alt` |
| LegacyDoc.ThenParts | talon_fmt/prettyprinter/doc.py:82-86 | `a / b` of well-formed documents concatenates their parts, with inner `Cat`s spliced and `Empty` dropped |
| LegacyDoc.SpaceThenOneSpace | talon_fmt/prettyprinter/doc.py:115-123 | `a // b` puts exactly one `Space` between the parts of `a` and `b`, and none when `b` is `Space` or `Empty` |
| LegacyDoc.TimesRepeats | talon_fmt/prettyprinter/doc.py:215-216 | `t * n` is a `Cat` of `n` copies of `t` |
| LegacyDoc.JoinSeparates | talon_fmt/prettyprinter/doc.py:88-92 | `sep.join(ds)` flattens the `Cat`s first and puts `sep` between every two resulting documents; an `Empty` separator adds nothing |
| LegacyDoc.BetweenFlattens | talon_fmt/prettyprinter/doc.py:371-382 | `between` flattens the opening text, the documents and the closing text, then separates them |
| LegacyDoc.BetweenWraps | talon_fmt/prettyprinter/doc.py:371-406 | the bracket helpers without a separator give the opening text, the parts of the documents, and the closing text |
| LegacyDoc.BetweenWrapsSeparated | talon_fmt/prettyprinter/doc.py:371-382 | with a well-formed separator, `between` still succeeds, with the opening text first and the closing text last |
| LegacyTransformer.TransformAll | talon_fmt/prettyprinter/transformer.py:47-48 | `transform_all` maps `transform` over the children: one result per child, each the transform of that child, in order |
| LegacyTransformer.RebuildIsIdentity | talon_fmt/prettyprinter/transformer.py:11-44 | each case receives exactly the transformed children and the original fields, so the rebuilding transformer gives back every document |
| LegacyTransformer.RebuildAllIsIdentity | talon_fmt/prettyprinter/transformer.py:47-48 | the children are transformed in order, one result each |
| LegacyTransformer.MapAsWritten | talon_fmt/prettyprinter/transformer.py:47-48 | `map(self.transform, docs)` as written: one lazy item per child, in order, each the child's result or the exception computing it raises |
| LegacyTransformer.AsWrittenRaises | talon_fmt/prettyprinter/transformer.py:11-45 | whatever the subclass, `transform` as written raises by itself exactly on a `Row` (`AttributeError`) or a stretch (`NameError`) under any number of `Nest`s; every other document is transformed unless a `Cat` under its `Nest`s fails; a `Cat` hands its items to `transform_Cat` unconsumed |
| LegacyTransformer.AsWrittenAgrees | talon_fmt/prettyprinter/transformer.py:11-45 | for a subclass whose `transform_Cat` consumes its items, `transform` as written succeeds exactly on documents with no `Row`, `HStretch` or `VStretch` to transform, and there agrees with the intended fold |
| LegacyTransformer.AsWrittenAgreesAll | talon_fmt/prettyprinter/transformer.py:47-48 | consuming the lazy `map` of a sequence of children succeeds exactly when every child is transformable, and gives the intended results in order |
| LegacyTransformer.LazyAgrees | talon_fmt/prettyprinter/transformer.py:11-48 | for any subclass whose `transform_Cat`, given items that all succeed, does what the intended case does, `transform` as written agrees with the intended fold on every transformable document |
| LegacyTransformer.LazyItemsAgree | talon_fmt/prettyprinter/transformer.py:47-48 | the lazy items of transformable children are exactly the intended results |
| LegacyTransformer.StretchAndRowRaise | talon_fmt/prettyprinter/transformer.py:29-44 | as written a stretch raises `NameError` and a row raises `AttributeError`, even inside a `Nest`; the intended fold rebuilds both |
| LegacyRender.NestTokens | talon_fmt/prettyprinter/render.py:44-65 | the `transform_Nest` loop, with its `has_content` flag and line buffer, emits what the nesting state machine emits from an empty line |
| LegacyRender.RendererIsTransformer | talon_fmt/prettyprinter/render.py:20 | the token stream of a document is the `DocTransformer` fold of the renderer's cases |
| LegacyRender.RendererIsTransformerAll | talon_fmt/prettyprinter/render.py:67-70 | `transform_Cat` chains the children's streams, and the first failure is the one raised |
| LegacyRender.Render | talon_fmt/prettyprinter/render.py:21-29 | `render` writes every text token as is and every `None` as `"\n"`, in order, or raises the stream's exception |
| LegacyRender.WrittenIsJoin | talon_fmt/prettyprinter/render.py:24-28 | the written text is the stream's lines joined by newlines |
| LegacyRender.WrittenLines | talon_fmt/prettyprinter/render.py:24-28 | writing loses nothing: splitting the output at newlines gives back the lines, one more than the line breaks |
| LegacyRender.TokensNewlineFree | talon_fmt/prettyprinter/render.py:35-41 | the stream of a well-formed document holds no newline inside a text token |
| LegacyRender.RenderedLines | talon_fmt/prettyprinter/render.py:21-29 | the rendered text of a well-formed document has exactly one line per `Line` plus one |
| LegacyRender.TokensOkIff | talon_fmt/prettyprinter/render.py:31-90 | rendering succeeds exactly when no `Row` is reached and every `Alt` taken has a first alternative |
| LegacyRender.CatStreamsInOrder | talon_fmt/prettyprinter/render.py:67-70 | a `Cat` streams its parts one after the other |
| LegacyRender.AsWrittenRenderAgrees | talon_fmt/prettyprinter/render.py:31-33 | where the renderer as written gets through, it gives the same stream as with `Empty` streaming nothing |
| LegacyRender.SourceStreamIsDirect | talon_fmt/prettyprinter/render.py:21-90 | the renderer as written on top of `transform` as written, with its lazy `map` and its eager `Nest`, raises the first failure in document order: `TypeError` for an `Empty`, `AttributeError` for a `Row`, `NameError` for a stretch, `IndexError` for an `Alt` without alternatives |
| LegacyRender.SourceOkIff | talon_fmt/prettyprinter/render.py:21-90 | as written, rendering succeeds exactly when no `Empty`, `Row` or stretch is reached and every `Alt` taken has a first alternative, and then streams what the intended renderer streams |
| LegacyRender.SourceFirstFailure | talon_fmt/prettyprinter/render.py:67-70 | `Cat([Empty, Row([])])` raises `TypeError`, because the lazy `map` reaches `Empty` before the `Row`; a `Row` before an `Empty` raises `AttributeError`; a nested stretch raises `NameError`; `SoftLine` raises `TypeError` |
| LegacyRender.SoftLineRaises | talon_fmt/prettyprinter/render.py:31-33 | as written a `SoftLine` raises `TypeError`, even between two texts; with `Empty` streaming nothing it renders nothing |
| LegacyRender.NestKeepsSignificant | talon_fmt/prettyprinter/render.py:47-65 | nesting only adds, holds back or drops whitespace: line breaks and non-whitespace texts pass through in order and in the same number |
| LegacyRender.SpacesAreHeld | talon_fmt/prettyprinter/render.py:53-54 | on a line without content, whitespace tokens are only buffered |
| LegacyRender.FirstContentIndented | talon_fmt/prettyprinter/render.py:55-60 | the first text with content on a line comes after the indentation and then the buffered whitespace |
| LegacyRender.BlankLineNotIndented | talon_fmt/prettyprinter/render.py:61-65 | a line of only whitespace gets no indentation; its buffered whitespace is flushed before the line break |
| LegacyRender.TrailingSpacesDropped | talon_fmt/prettyprinter/render.py:47-65 | whitespace still buffered at the end of the stream is dropped |
| LegacyRender.ContentPassesThrough | talon_fmt/prettyprinter/render.py:49-51 | once a line has content, its texts pass through unchanged up to the next line break |
| LegacyRender.NestTokensFrom | talon_fmt/prettyprinter/render.py:44-65 | every token nesting yields comes from the input or the buffer, or is the indentation |
| LegacyRender.NestIndentsEachLine | talon_fmt/prettyprinter/render.py:44-65 | each line of a nested text is indented, the first line included |
| ParseErrors.NumberSplit | talonfmt/parse_error.py:19 | a decimal number followed by text that does not start with a digit determines both the number and the text |
| ParseErrors.PointToStrSplit | talonfmt/parse_error.py:18-19 | `point_to_str` followed by text that does not start with a digit determines the point and the text |
| ParseErrors.RangeIdentifies | talonfmt/parse_error.py:21-25 | the range description identifies the error: two errors with the same description have the same positions |
| ParseErrors.RangeStarts | talonfmt/parse_error.py:21-25 | a same-row description starts `"on line"`, and any other starts with a space |
| ParseErrors.RangeNoNewline | talonfmt/parse_error.py:21-25 | the range description is a single line |
| ParseErrors.Annotation | talonfmt/parse_error.py:36-41 | the annotation is as long as its line, with `'^'` exactly under the columns `c` with `start < c <= end` and a space elsewhere |
| ParseErrors.Annotated | talonfmt/parse_error.py:28-41 | two output lines per selected line |
| ParseErrors.AnnotatedAlternates | talonfmt/parse_error.py:28-41 | output line `2l` is source line `l`, and output line `2l+1` is its annotation, from the start column on the first line and up to the end column on the last |
| ParseErrors.AnnotatedLines | talonfmt/parse_error.py:28-41 | the `annotated_lines` loop produces that alternating sequence |
| ParseErrors.Slice | talonfmt/parse_error.py:44 | `lines[lo:hi]` clamps to the list and keeps the lines from `lo` in order |
| ParseErrors.AnnotatedNoNewline | talonfmt/parse_error.py:28-44 | no line of the annotated region holds a newline |
| ParseErrors.RegionLines | talonfmt/parse_error.py:43-45 | splitting the region at its newlines gives back each selected line followed by its annotation |
| ParseErrors.HeaderNoNewline | talonfmt/parse_error.py:50-52 | the header line holds no newline when the file name holds none |
| ParseErrors.HeaderNamesFile | talonfmt/parse_error.py:50-52 | a non-empty file name only inserts `"in F "` after `"Parse error "`; an empty one is the same as none |
| ParseErrors.MessageIsJoin | talonfmt/parse_error.py:47-55 | the message is the header, the region's lines and an empty last line, joined by newlines |
| ParseErrors.MessageLines | talonfmt/parse_error.py:47-55 | split at its newlines, the message is the header, then each selected line followed by its annotation, then an empty rest |

## Left out

- Identity: object identity (`is`) and the write-once intern caches (`Text.intern`, `Alt.intern`, the `@singleton` classes) are modelled by values and constants. Every constructor returns the interned object for an equal value.
- The newer `Text.__repr__` and `HStretch`/`VStretch` (talonfmt/prettyprinter/doc.py:161-168, 177-184) are not modelled. The first is display only; the others have no checks. The renderer raises `TypeError` for the stretches.
- The newer renderer is modelled over its own document type with `alts`, `cells` and `info` (`hsep`, `hpad`). The shown talonfmt/prettyprinter/doc.py defines none of these fields.
- Token streams are modelled as complete sequences, or the exception that consuming them raises. Which exception is raised follows the laziness of the generators and of `transform_all`'s `map` (LegacyRender.SourceStreamIsDirect). How much of a stream is consumed before an exception surfaces is not modelled.
- When several errors are possible, the model raises the first in document order.
- The `ValueError` at talon_fmt/prettyprinter/transformer.py:45 is not modelled. The document type is closed, so no document reaches it.
- The `Table` case of the older transformer (talon_fmt/prettyprinter/transformer.py:33-36) is not modelled as a case. The older document module defines no `Table`. Its `isinstance` test is modelled as the `NameError` it raises.
- The older renderer's `transform_Row` and `transform_Table` (talon_fmt/prettyprinter/render.py:72-78) return `None`. They are modelled as that `TypeError`, so the older simple renderer has no row layout.
- The unasserted "alternatives in increasing width" invariant of the older `Alt` is not modelled.
- Building a `ParseError` from a tree-sitter `TalonError`: the start and end points are taken as parameters.
- talonfmt/prettyprinter/transformer.py is not part of this model; it is commented out.
- The width-aware renderer from the external `doc_printer` package is not part of this model. Neither are the Talon formatters, the command-line entry points, the equivalence checks and patches, the editorconfig and import shims, and the tests.
- LegacyDoc.BetweenWrapsSeparated: proved for a document separator only. A string separator goes through `to_doc` first and is not covered.
- LegacyDoc.BetweenWraps: proved for one-character brackets, which is what the bracket helpers pass.
- PrettyRender.ColumnsAligned: stated for a one-character `hpad`. The padding counts tokens, not characters, so a wider `hpad` overshoots the column width (PrettyRender.PaddedWidth gives the general width).
- LegacyRender.Render: the renderer is built on the intended fold and the intended `Empty` stream. The code as written is LegacyRender.SourceStream, related to it by LegacyRender.SourceOkIff; LegacyRender.AsWrittenRenderAgrees relates the variant where only `Empty` is as written.
- LegacyTransformer.AsWrittenAgrees: stated for a subclass whose `transform_Cat` consumes all its items before anything else. For other subclasses the lazy items are described by LegacyTransformer.LazyAgrees and LegacyTransformer.AsWrittenRaises; for the renderer, whose `transform_Cat` is a generator, by LegacyRender.SourceStreamIsDirect.
- LegacyTransformer.AsWrittenAgreesAll: stated for the same consuming `transform_Cat`, for the items of a sequence of children.
- LegacyDoc.ThenParts: stated of the intended `Cat` (LegacyDoc.NewCat). As written, every `Cat` it builds is `Cat(())` or fails with an `AssertionError` (LegacyDoc.CatAsWrittenKeepsNothing).
- LegacyDoc.SpaceThenOneSpace: stated of the intended `Cat` (LegacyDoc.NewCat). As written, every `Cat` it builds is `Cat(())` or fails with an `AssertionError` (LegacyDoc.CatAsWrittenKeepsNothing).
- LegacyDoc.TimesRepeats: stated of the intended `Cat` (LegacyDoc.NewCat). As written, every `Cat` it builds is `Cat(())` or fails with an `AssertionError` (LegacyDoc.CatAsWrittenKeepsNothing).
- LegacyDoc.JoinSeparates: stated of the intended `Cat` (LegacyDoc.NewCat). As written, every `Cat` it builds is `Cat(())` or fails with an `AssertionError` (LegacyDoc.CatAsWrittenKeepsNothing).
- LegacyDoc.BetweenFlattens: stated of the intended `Cat` (LegacyDoc.NewCat). As written, every `Cat` it builds is `Cat(())` or fails with an `AssertionError` (LegacyDoc.CatAsWrittenKeepsNothing).
- LegacyDoc.BetweenWraps: stated of the intended `Cat` (LegacyDoc.NewCat). As written, every `Cat` it builds is `Cat(())` or fails with an `AssertionError` (LegacyDoc.CatAsWrittenKeepsNothing).
- LegacyDoc.BetweenWrapsSeparated: stated of the intended `Cat` (LegacyDoc.NewCat). As written, every `Cat` it builds is `Cat(())` or fails with an `AssertionError` (LegacyDoc.CatAsWrittenKeepsNothing).
- LegacyDoc.CatOfLines: stated of the intended `Cat` (LegacyDoc.NewCat). As written, every `Cat` it builds is `Cat(())` or fails with an `AssertionError` (LegacyDoc.CatAsWrittenKeepsNothing).
- LegacyDoc.ToDocKeepsLines: stated of the intended `Cat` (LegacyDoc.NewCat). As written, every `Cat` it builds is `Cat(())` or fails with an `AssertionError` (LegacyDoc.CatAsWrittenKeepsNothing).
- LegacyDoc.ToDocTwoLines: stated of the intended `Cat` (LegacyDoc.NewCat). As written, every `Cat` it builds is `Cat(())` or fails with an `AssertionError` (LegacyDoc.CatAsWrittenKeepsNothing).
- LegacyDoc.ToDocWellFormed: stated of the intended `Cat` (LegacyDoc.NewCat). As written, every `Cat` it builds is `Cat(())` or fails with an `AssertionError` (LegacyDoc.CatAsWrittenKeepsNothing).
- LegacyDoc.FlattenWellFormed: stated of the intended `Cat` (LegacyDoc.NewCat). As written, every `Cat` it builds is `Cat(())` or fails with an `AssertionError` (LegacyDoc.CatAsWrittenKeepsNothing).
- LegacyDoc.CatOfWellFormed: stated of the intended `Cat` (LegacyDoc.NewCat). As written, every `Cat` it builds is `Cat(())` or fails with an `AssertionError` (LegacyDoc.CatAsWrittenKeepsNothing).
- LegacyDoc.RowOfWellFormed: stated of the intended `Cat` (LegacyDoc.NewCat). As written, every `Cat` it builds is `Cat(())` or fails with an `AssertionError` (LegacyDoc.CatAsWrittenKeepsNothing).
- LegacyDoc.AltOfWellFormed: stated of the intended `Cat` (LegacyDoc.NewCat). As written, every `Cat` it builds is `Cat(())` or fails with an `AssertionError` (LegacyDoc.CatAsWrittenKeepsNothing).
- Every older operation that ends in a `Cat` is modelled on the intended `Cat`. As written, for example, `to_doc("a\n\nb")` fails because the blank line is `Empty`, and `parens(["x"])` is `Cat(())`.

## Findings

| source | as written | input that shows it | evidently intended | confidence | as-written member | corrected member |
|---|---|---|---|---|---|---|
| talon_fmt/prettyprinter/doc.py:333 | `Cat.__init__` keeps the documents that `filterfalse(bool, …)` selects. That is only the falsy `Empty`, which the assertion at line 338 then rejects, so every `Cat` that is built is empty. | `to_doc("hello\nworld")` builds `Cat(())` | drop `Empty` and keep every other document (`filter(bool, …)`) | not executed | LegacyDoc.CatAsWrittenLosesText | LegacyDoc.NewCatOfWellFormed |
| talon_fmt/prettyprinter/transformer.py:33 | `isinstance(doc, Table)` names `Table`, which the older document module does not define, so every `HStretch` and `VStretch` raises `NameError` before its own case | `transform(HStretch(Text("-")))` | skip the undefined class and reach the stretch cases | not executed | LegacyTransformer.StretchAndRowRaise | LegacyTransformer.RebuildIsIdentity |
| talon_fmt/prettyprinter/transformer.py:31 | the `Row` case reads `doc.cols`, but a `Row`'s field is `docs`, so every `Row` raises `AttributeError` | `transform(Row(["a", "b"]))` | transform `doc.docs` | not executed | LegacyTransformer.AsWrittenAgrees | LegacyTransformer.RebuildIsIdentity |
| talon_fmt/prettyprinter/render.py:31-33 | `transform_Empty` contains no `yield`, so it returns `None`, and any `Empty` reached while streaming raises `TypeError`; this includes every `SoftLine` | `render(SoftLine)` | an empty stream | not executed | LegacyRender.SoftLineRaises | LegacyRender.TokensOkIff |
