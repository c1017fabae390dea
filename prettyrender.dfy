/** The simple renderer of the newer pretty-printer (`SimpleDocRenderer`):
    it turns a document into a stream of text tokens, taking the first
    layout of every `Alt`, laying out tables in aligned columns and
    re-indenting nested documents line by line.

    The renderer reads `alts` on `Alt`, `cells` and `info` (a `RowInfo` with
    the separator token `hsep` and the padding token `hpad`) on `Row`; it is
    modelled over a document type that has exactly those fields.  A token is
    a `Text`; since `Text` always interns `""`, `" "` and `"\n"`, a token is
    identified here by its text, and `token is Line` / `token is Space` become
    comparisons with `"\n"` and `" "`.  The width of a token is the length of
    its text. */
module PrettyRender {
  import opened Results
  import PyStr

  type Token = string

  const LineToken: Token := "\n"
  const SpaceToken: Token := " "

  datatype RowInfo = RowInfo(hsep: Token, hpad: Token)

  datatype Doc =
    | Text(text: string)
    | HStretch(doc: Doc)
    | VStretch(doc: Doc)
    | Nest(indent: int, doc: Doc)
    | Alt(alts: seq<Doc>)
    | Cat(docs: seq<Doc>)
    | Row(cells: seq<Doc>, info: RowInfo)
    | Table(rows: seq<Doc>)

  /** The exceptions rendering can raise.  `TypeError`: a document class with
      no registered case (the stretch documents); `ValueError`: `max` over a
      table with no rows; `AttributeError`: a table row that is not a `Row`;
      `IndexError`: a table row with fewer cells than the widest row. */
  datatype RenderError = TypeError | ValueError | AttributeError | IndexError

  // ---------------------------------------------------------------------
  // Token sequences
  // ---------------------------------------------------------------------

  /** The tokens of several streams, one stream after the other. */
  function Flatten(xss: seq<seq<Token>>): (r: seq<Token>)
  {
    if xss == [] then [] else xss[0] + Flatten(xss[1..])
  }

  lemma {:induction false} FlattenAppend(a: seq<seq<Token>>, b: seq<seq<Token>>)
    ensures Flatten(a + b) == Flatten(a) + Flatten(b)
  {
    if a == [] {
      assert a + b == b;
    } else {
      assert (a + b)[1..] == a[1..] + b;
      FlattenAppend(a[1..], b);
    }
  }

  /** `repeat(token, n)`: `n` copies, none when `n <= 0`. */
  function Repeat(t: Token, n: int): (r: seq<Token>)
    ensures |r| == if n <= 0 then 0 else n
    ensures forall k :: 0 <= k < |r| ==> r[k] == t
  {
    seq(if n <= 0 then 0 else n, _ => t)
  }

  /** `len(token)` summed over a stream. */
  function Width(ts: seq<Token>): (w: nat)
  {
    if ts == [] then 0 else Width(ts[..|ts| - 1]) + |ts[|ts| - 1]|
  }

  lemma {:induction false} WidthAppend(a: seq<Token>, b: seq<Token>)
    ensures Width(a + b) == Width(a) + Width(b)
    decreases |b|
  {
    if b == [] {
      assert a + b == a;
    } else {
      assert (a + b)[..|a + b| - 1] == a + b[..|b| - 1];
      WidthAppend(a, b[..|b| - 1]);
    }
  }

  lemma {:induction false} WidthRepeat(t: Token, n: nat)
    ensures Width(Repeat(t, n)) == n * |t|
  {
    if n > 0 {
      assert Repeat(t, n)[..n - 1] == Repeat(t, n - 1);
      WidthRepeat(t, n - 1);
    }
  }

  /** The separator-then-`Line` framing shared by `Row` and `Table`: every
      part is followed by `hsep`, except the last, which is followed by
      `Line`. */
  function Framed(parts: seq<seq<Token>>, hsep: Token): seq<Token>
  {
    Flatten(seq(|parts|, j requires 0 <= j < |parts| =>
      parts[j] + [if j < |parts| - 1 then hsep else LineToken]))
  }

  /** The parts with `sep` between consecutive parts. */
  function JoinTokens(parts: seq<seq<Token>>, sep: Token): seq<Token>
  {
    if parts == [] then []
    else if |parts| == 1 then parts[0]
    else parts[0] + [sep] + JoinTokens(parts[1..], sep)
  }

  /** The framing is the `hsep`-join of the parts with one `Line` at the end
      (and nothing at all for no parts). */
  lemma {:induction false} FramedIsJoin(parts: seq<seq<Token>>, hsep: Token)
    ensures Framed(parts, hsep) == if parts == [] then [] else JoinTokens(parts, hsep) + [LineToken]
  {
    var outs := seq(|parts|, j requires 0 <= j < |parts| =>
      parts[j] + [if j < |parts| - 1 then hsep else LineToken]);
    if |parts| == 1 {
      assert outs[1..] == [];
      assert Flatten(outs) == outs[0] + Flatten(outs[1..]);
    } else if |parts| > 1 {
      FramedIsJoin(parts[1..], hsep);
      assert outs[1..] == seq(|parts| - 1, j requires 0 <= j < |parts| - 1 =>
        parts[1..][j] + [if j < |parts| - 2 then hsep else LineToken]);
    }
  }

  // ---------------------------------------------------------------------
  // The nesting state machine
  // ---------------------------------------------------------------------

  /** The tokens a `Nest` of `indent` emits for `ts`, in the state
      (`hasContent`, `lineIndent`): a `Line` ends the line's content; on a
      line without content yet a `Space` only raises `lineIndent`, and the
      first other token is preceded by `lineIndent + indent` spaces.
      `lineIndent` is never reset. */
  function NestFrom(ts: seq<Token>, indent: int, hasContent: bool, lineIndent: int): seq<Token>
  {
    if ts == [] then []
    else if ts[0] == LineToken then [LineToken] + NestFrom(ts[1..], indent, false, lineIndent)
    else if hasContent then [ts[0]] + NestFrom(ts[1..], indent, true, lineIndent)
    else if ts[0] == SpaceToken then NestFrom(ts[1..], indent, false, lineIndent + 1)
    else Repeat(SpaceToken, lineIndent + indent) + [ts[0]] + NestFrom(ts[1..], indent, true, lineIndent)
  }

  /** The `Nest` case's loop over the child's tokens, with its two state
      variables. */
  method IndentTokens(ts: seq<Token>, indent: int) returns (out: seq<Token>)
    ensures out == NestFrom(ts, indent, false, 0)
  {
    var hasContent := false;
    var lineIndent := 0;
    out := [];
    var i := 0;
    while i < |ts|
      invariant 0 <= i <= |ts|
      invariant out + NestFrom(ts[i..], indent, hasContent, lineIndent) == NestFrom(ts, indent, false, 0)
    {
      var t := ts[i];
      assert ts[i..][1..] == ts[i + 1..];
      if t == LineToken {
        hasContent := false;
        out := out + [LineToken];
      } else if hasContent {
        out := out + [t];
      } else if t == SpaceToken {
        lineIndent := lineIndent + 1;
      } else {
        hasContent := true;
        out := out + Repeat(SpaceToken, lineIndent + indent) + [t];
      }
      i := i + 1;
    }
  }

  // ---------------------------------------------------------------------
  // Rendering
  // ---------------------------------------------------------------------

  /** The token stream of `d`, or the exception that rendering raises. */
  function Render(d: Doc): Result<seq<Token>, RenderError>
    decreases d
  {
    match d
    case Text(_) => Ok([d.text])
    case HStretch(_) => Err(TypeError)
    case VStretch(_) => Err(TypeError)
    case Nest(indent, child) =>
      var ts :- Render(child);
      Ok(NestFrom(ts, indent, false, 0))
    case Alt(alts) =>
      if alts == [] then Ok([]) else Render(alts[0])
    case Cat(docs) =>
      var parts :- RenderEach(docs);
      Ok(Flatten(parts))
    case Row(cells, info) =>
      var parts :- RenderEach(cells);
      Ok(Framed(parts, info.hsep))
    case Table(rows) =>
      var nCols :- ColumnCount(rows);
      var grid :- RenderGrid(rows, nCols);
      Ok(TableTokens(grid, Infos(rows), nCols))
  }

  /** The streams of `ds`, in order; the first failure wins. */
  function RenderEach(ds: seq<Doc>): (r: Result<seq<seq<Token>>, RenderError>)
    ensures r.Ok? ==> |r.value| == |ds|
    decreases ds
  {
    if ds == [] then Ok([])
    else
      var t :- Render(ds[0]);
      var rest :- RenderEach(ds[1..]);
      Ok([t] + rest)
  }

  /** `to_str`: the texts of the tokens, one after the other. */
  function ToStr(d: Doc): Result<string, RenderError> {
    var ts :- Render(d);
    Ok(PyStr.Concat(ts))
  }

  // ---------------------------------------------------------------------
  // Tables
  // ---------------------------------------------------------------------

  /** The largest cell count of the rows (all of which are `Row`s). */
  function MaxCells(rows: seq<Doc>): (n: nat)
    requires |rows| > 0 && forall k :: 0 <= k < |rows| ==> rows[k].Row?
    ensures forall k :: 0 <= k < |rows| ==> |rows[k].cells| <= n
    ensures exists k :: 0 <= k < |rows| && |rows[k].cells| == n
  {
    if |rows| == 1 then |rows[0].cells|
    else
      var m := MaxCells(rows[..|rows| - 1]);
      var last := |rows[|rows| - 1].cells|;
      if m < last then last else m
  }

  /** `max(len(row.cells) for row in doc.rows)`. */
  function ColumnCount(rows: seq<Doc>): (r: Result<nat, RenderError>)
    ensures r.Ok? ==> |rows| > 0 && forall k :: 0 <= k < |rows| ==> rows[k].Row?
  {
    if rows == [] then Err(ValueError)
    else if exists k :: 0 <= k < |rows| && !rows[k].Row? then Err(AttributeError)
    else Ok(MaxCells(rows))
  }

  function Infos(rows: seq<Doc>): (r: seq<RowInfo>)
    requires forall k :: 0 <= k < |rows| ==> rows[k].Row?
    ensures |r| == |rows|
  {
    seq(|rows|, i requires 0 <= i < |rows| => rows[i].info)
  }

  /** The streams of the first `n` cells of `row`, in order; a missing cell
      raises `IndexError` when it is reached. */
  function RenderCells(row: Doc, n: nat): (r: Result<seq<seq<Token>>, RenderError>)
    requires row.Row?
    ensures r.Ok? ==> |r.value| == n
    decreases row, n
  {
    if n == 0 then Ok([])
    else
      var prefix :- RenderCells(row, n - 1);
      if n - 1 >= |row.cells| then Err(IndexError)
      else
        var t :- Render(row.cells[n - 1]);
        Ok(prefix + [t])
  }

  predicate IsGrid(grid: seq<seq<seq<Token>>>, nCols: nat) {
    forall i :: 0 <= i < |grid| ==> |grid[i]| == nCols
  }

  /** The cell streams of the rows, row by row; the first failure wins. */
  function RenderGrid(rows: seq<Doc>, nCols: nat): (r: Result<seq<seq<seq<Token>>>, RenderError>)
    requires forall k :: 0 <= k < |rows| ==> rows[k].Row?
    ensures r.Ok? ==> |r.value| == |rows| && IsGrid(r.value, nCols)
    decreases rows
  {
    if rows == [] then Ok([])
    else
      var prefix :- RenderGrid(rows[..|rows| - 1], nCols);
      var cells :- RenderCells(rows[|rows| - 1], nCols);
      Ok(prefix + [cells])
  }

  /** `TableBuffer.col_width(j)` on the rendered cells: the widest cell of
      column `j`. */
  function ColumnWidth(grid: seq<seq<seq<Token>>>, j: nat): nat
    requires |grid| > 0 && forall i :: 0 <= i < |grid| ==> j < |grid[i]|
  {
    if |grid| == 1 then Width(grid[0][j])
    else
      var m := ColumnWidth(grid[..|grid| - 1], j);
      var last := Width(grid[|grid| - 1][j]);
      if m < last then last else m
  }

  /** The column width is the width of the widest cell of the column: no
      cell is wider, and some cell is exactly that wide. */
  lemma {:induction false} ColumnWidthIsMax(grid: seq<seq<seq<Token>>>, j: nat)
    requires |grid| > 0 && forall i :: 0 <= i < |grid| ==> j < |grid[i]|
    ensures forall i :: 0 <= i < |grid| ==> Width(grid[i][j]) <= ColumnWidth(grid, j)
    ensures exists i :: 0 <= i < |grid| && Width(grid[i][j]) == ColumnWidth(grid, j)
  {
    var n := |grid| - 1;
    if n == 0 {
      assert Width(grid[0][j]) == ColumnWidth(grid, j);
    } else {
      var front := grid[..n];
      ColumnWidthIsMax(front, j);
      assert forall i :: 0 <= i < |front| ==> front[i] == grid[i];
      if ColumnWidth(front, j) < Width(grid[n][j]) {
        assert Width(grid[n][j]) == ColumnWidth(grid, j);
      } else {
        var i :| 0 <= i < |front| && Width(front[i][j]) == ColumnWidth(front, j);
        assert Width(grid[i][j]) == ColumnWidth(grid, j);
      }
    }
  }

  function ColumnWidths(grid: seq<seq<seq<Token>>>, nCols: nat): (ws: seq<nat>)
    requires |grid| > 0 && IsGrid(grid, nCols)
    ensures |ws| == nCols
  {
    seq(nCols, j requires 0 <= j < nCols => ColumnWidth(grid, j))
  }

  /** A cell followed by `hpad` up to the column width. */
  function Padded(cell: seq<Token>, info: RowInfo, w: int): seq<Token> {
    cell + Repeat(info.hpad, w - Width(cell))
  }

  /** One table row: its padded cells, framed by `hsep` and `Line`. */
  function TableRow(cells: seq<seq<Token>>, info: RowInfo, widths: seq<nat>): seq<Token>
    requires |widths| == |cells|
  {
    Framed(seq(|cells|, j requires 0 <= j < |cells| => Padded(cells[j], info, widths[j])), info.hsep)
  }

  /** The tokens of a table whose cells rendered to `grid`. */
  function TableTokens(grid: seq<seq<seq<Token>>>, infos: seq<RowInfo>, nCols: nat): seq<Token>
    requires |grid| == |infos| && IsGrid(grid, nCols)
  {
    if grid == [] then []
    else
      var widths := ColumnWidths(grid, nCols);
      Flatten(seq(|grid|, i requires 0 <= i < |grid| => TableRow(grid[i], infos[i], widths)))
  }

  // ---------------------------------------------------------------------
  // The table buffers
  // ---------------------------------------------------------------------

  /** The tokens of one cell and their total width. */
  class CellBuffer {
    var minWidth: int
    var buffer: seq<Token>

    constructor ()
      ensures minWidth == 0 && buffer == []
    {
      minWidth := 0;
      buffer := [];
    }
  }

  /** The cell buffers of one row, with the row's `RowInfo`. */
  class RowBuffer {
    var info: RowInfo
    var buffer: seq<CellBuffer>

    constructor (info: RowInfo)
      ensures this.info == info && buffer == []
    {
      this.info := info;
      buffer := [];
    }

    /** `row_buffer.buffer.append(cell_buffer)`. */
    method Append(cell: CellBuffer, ghost cells: seq<seq<Token>>, ghost tokens: seq<Token>)
      requires RowHolds(this, cells, info)
      requires cell.buffer == tokens && cell.minWidth == Width(tokens)
      modifies this
      ensures buffer == old(buffer) + [cell] && info == old(info)
      ensures RowHolds(this, cells + [tokens], info)
    {
      buffer := buffer + [cell];
    }
  }

  class TableBuffer {
    var buffer: seq<RowBuffer>
    /** The row and cell buffers reachable from `buffer`. */
    ghost var Repr: set<object>

    constructor ()
      ensures buffer == [] && Repr == {}
    {
      buffer := [];
      Repr := {};
    }

    /** `table_buffer.buffer.append(row_buffer)`. */
    method Append(rowBuffer: RowBuffer, ghost grid: seq<seq<seq<Token>>>, ghost infos: seq<RowInfo>,
                  ghost cells: seq<seq<Token>>, ghost info: RowInfo)
      requires Holds(this, grid, infos) && RowHolds(rowBuffer, cells, info)
      modifies this
      ensures buffer == old(buffer) + [rowBuffer]
      ensures Holds(this, grid + [cells], infos + [info])
    {
      buffer := buffer + [rowBuffer];
      Repr := Repr + {rowBuffer} + set j | 0 <= j < |rowBuffer.buffer| :: rowBuffer.buffer[j];
    }

    /** `col_width(j)`: the largest `min_width` in column `j`. */
    method ColWidth(j: nat) returns (w: int)
      requires |buffer| > 0 && forall i :: 0 <= i < |buffer| ==> j < |buffer[i].buffer|
      ensures forall i :: 0 <= i < |buffer| ==> buffer[i].buffer[j].minWidth <= w
      ensures exists i :: 0 <= i < |buffer| && buffer[i].buffer[j].minWidth == w
    {
      w := buffer[0].buffer[j].minWidth;
      ghost var at := 0;
      var i := 1;
      while i < |buffer|
        invariant 1 <= i <= |buffer|
        invariant forall k :: 0 <= k < i ==> buffer[k].buffer[j].minWidth <= w
        invariant 0 <= at < i && buffer[at].buffer[j].minWidth == w
      {
        if w < buffer[i].buffer[j].minWidth {
          w := buffer[i].buffer[j].minWidth;
          at := i;
        }
        i := i + 1;
      }
    }
  }

  /** Row buffer `rb` holds the rendered cells `cells` of a row with
      `info`: cell `j`'s buffer holds the tokens `cells[j]` and their width. */
  predicate RowHolds(rb: RowBuffer, cells: seq<seq<Token>>, info: RowInfo)
    reads rb, rb.buffer
  {
    && rb.info == info
    && |rb.buffer| == |cells|
    && forall j :: 0 <= j < |cells| ==>
         rb.buffer[j].buffer == cells[j] && rb.buffer[j].minWidth == Width(cells[j])
  }

  /** The table buffer holds the rendered `grid` of rows with `infos`. */
  ghost predicate Holds(tb: TableBuffer, grid: seq<seq<seq<Token>>>, infos: seq<RowInfo>)
    reads tb, tb.Repr
  {
    && |tb.buffer| == |grid| == |infos|
    && (forall i :: 0 <= i < |tb.buffer| ==> tb.buffer[i] in tb.Repr)
    && (forall i, j :: 0 <= i < |tb.buffer| && 0 <= j < |tb.buffer[i].buffer| ==> tb.buffer[i].buffer[j] in tb.Repr)
    && forall i :: 0 <= i < |grid| ==> RowHolds(tb.buffer[i], grid[i], infos[i])
  }

  lemma {:induction false} CellsErrorSticks(row: Doc, m: nat, n: nat)
    requires row.Row? && m <= n && RenderCells(row, m).Err?
    ensures RenderCells(row, n) == RenderCells(row, m)
    decreases n
  {
    if m < n {
      CellsErrorSticks(row, m, n - 1);
    }
  }

  lemma {:induction false} GridErrorSticks(rows: seq<Doc>, m: nat, nCols: nat)
    requires m <= |rows| && forall k :: 0 <= k < |rows| ==> rows[k].Row?
    requires RenderGrid(rows[..m], nCols).Err?
    ensures RenderGrid(rows, nCols) == RenderGrid(rows[..m], nCols)
    decreases |rows|
  {
    if m < |rows| {
      assert rows[..|rows| - 1][..m] == rows[..m];
      GridErrorSticks(rows[..|rows| - 1], m, nCols);
    } else {
      assert rows[..m] == rows;
    }
  }

  lemma FlattenSnoc(xs: seq<seq<Token>>, x: seq<Token>)
    ensures Flatten(xs + [x]) == Flatten(xs) + x
  {
    FlattenAppend(xs, [x]);
    assert Flatten([x]) == x + Flatten([]);
  }

  /** One more cell rendered: a missing cell raises `IndexError`, a cell
      that fails to render raises its error, any other cell is appended. */
  lemma CellsStep(row: Doc, j: nat, cells: seq<seq<Token>>)
    requires row.Row? && RenderCells(row, j) == Ok(cells)
    ensures j >= |row.cells| ==> RenderCells(row, j + 1) == Err(IndexError)
    ensures j < |row.cells| && Render(row.cells[j]).Err? ==> RenderCells(row, j + 1) == Err(Render(row.cells[j]).error)
    ensures j < |row.cells| && Render(row.cells[j]).Ok? ==> RenderCells(row, j + 1) == Ok(cells + [Render(row.cells[j]).value])
  {
  }

  /** One more row rendered: the grid and the infos grow by that row. */
  lemma GridStep(rows: seq<Doc>, i: nat, nCols: nat, grid: seq<seq<seq<Token>>>, cells: seq<seq<Token>>)
    requires i < |rows| && forall k :: 0 <= k < |rows| ==> rows[k].Row?
    requires RenderGrid(rows[..i], nCols) == Ok(grid) && RenderCells(rows[i], nCols) == Ok(cells)
    ensures RenderGrid(rows[..i + 1], nCols) == Ok(grid + [cells])
    ensures Infos(rows[..i + 1]) == Infos(rows[..i]) + [rows[i].info]
  {
    assert rows[..i + 1][..i] == rows[..i];
  }

  /** `n_cols`: the loop behind `max(len(row.cells) for row in doc.rows)`. */
  method CountColumns(rows: seq<Doc>) returns (r: Result<nat, RenderError>)
    ensures r == ColumnCount(rows)
  {
    if |rows| == 0 {
      return Err(ValueError);
    }
    var nCols := 0;
    var i := 0;
    while i < |rows|
      invariant 0 <= i <= |rows|
      invariant forall k :: 0 <= k < i ==> rows[k].Row?
      invariant i > 0 ==> nCols == MaxCells(rows[..i])
    {
      if !rows[i].Row? {
        return Err(AttributeError);
      }
      assert rows[..i + 1][..i] == rows[..i];
      var n := |rows[i].cells|;
      if i == 0 || nCols < n {
        nCols := n;
      }
      i := i + 1;
    }
    assert rows[..|rows|] == rows;
    return Ok(nCols);
  }

  /** One `CellBuffer`, filled token by token. */
  method FillCell(tokens: seq<Token>) returns (cell: CellBuffer)
    ensures fresh(cell)
    ensures cell.buffer == tokens && cell.minWidth == Width(tokens)
  {
    cell := new CellBuffer();
    var k := 0;
    while k < |tokens|
      invariant 0 <= k <= |tokens|
      invariant cell.buffer == tokens[..k] && cell.minWidth == Width(tokens[..k])
    {
      var token := tokens[k];
      assert tokens[..k + 1][..k] == tokens[..k];
      cell.minWidth := cell.minWidth + |token|;
      cell.buffer := cell.buffer + [token];
      k := k + 1;
    }
    assert tokens[..k] == tokens;
  }

  /** The `RowBuffer` of one row: the first `nCols` cells rendered into
      fresh cell buffers, or the first exception. */
  method FillRow(row: Doc, nCols: nat) returns (rowBuffer: RowBuffer, ghost cells: seq<seq<Token>>, failure: Option<RenderError>)
    requires row.Row?
    ensures failure.None? ==> RenderCells(row, nCols) == Ok(cells) && RowHolds(rowBuffer, cells, row.info)
    ensures failure.Some? ==> RenderCells(row, nCols) == Err(failure.value)
  {
    rowBuffer := new RowBuffer(row.info);
    cells := [];
    var j := 0;
    while j < nCols
      invariant 0 <= j <= nCols
      invariant RenderCells(row, j) == Ok(cells)
      invariant RowHolds(rowBuffer, cells, row.info)
    {
      CellsStep(row, j, cells);
      if j >= |row.cells| {
        CellsErrorSticks(row, j + 1, nCols);
        return rowBuffer, cells, Some(IndexError);
      }
      var rendered := Render(row.cells[j]);
      if rendered.Err? {
        CellsErrorSticks(row, j + 1, nCols);
        return rowBuffer, cells, Some(rendered.error);
      }
      var cell := FillCell(rendered.value);
      rowBuffer.Append(cell, cells, rendered.value);
      cells := cells + [rendered.value];
      j := j + 1;
    }
    failure := None;
  }

  /** The first phase of the `Table` case: one `RowBuffer` per row. */
  method FillTable(rows: seq<Doc>, nCols: nat) returns (table: TableBuffer, ghost grid: seq<seq<seq<Token>>>, failure: Option<RenderError>)
    requires forall k :: 0 <= k < |rows| ==> rows[k].Row?
    ensures failure.None? ==> RenderGrid(rows, nCols) == Ok(grid) && Holds(table, grid, Infos(rows))
    ensures failure.Some? ==> RenderGrid(rows, nCols) == Err(failure.value)
  {
    table := new TableBuffer();
    grid := [];
    var i := 0;
    while i < |rows|
      invariant 0 <= i <= |rows|
      invariant RenderGrid(rows[..i], nCols) == Ok(grid)
      invariant Holds(table, grid, Infos(rows[..i]))
    {
      var rowBuffer, cells, rowFailure := FillRow(rows[i], nCols);
      if rowFailure.Some? {
        assert rows[..i + 1][..i] == rows[..i];
        GridErrorSticks(rows, i + 1, nCols);
        return table, grid, rowFailure;
      }
      GridStep(rows, i, nCols, grid, cells);
      table.Append(rowBuffer, grid, Infos(rows[..i]), cells, rows[i].info);
      grid := grid + [cells];
      i := i + 1;
    }
    assert rows[..i] == rows;
    failure := None;
  }

  /** The `max` the buffers compute for column `j` is the widest rendered
      cell of that column. */
  lemma ColWidthIsColumnWidth(table: TableBuffer, grid: seq<seq<seq<Token>>>, infos: seq<RowInfo>, nCols: nat, j: nat, w: int)
    requires |grid| > 0 && IsGrid(grid, nCols) && Holds(table, grid, infos) && j < nCols
    requires forall i :: 0 <= i < |table.buffer| ==> table.buffer[i].buffer[j].minWidth <= w
    requires exists i :: 0 <= i < |table.buffer| && table.buffer[i].buffer[j].minWidth == w
    ensures w == ColumnWidth(grid, j)
  {
    ColumnWidthIsMax(grid, j);
    var a :| 0 <= a < |table.buffer| && table.buffer[a].buffer[j].minWidth == w;
    assert RowHolds(table.buffer[a], grid[a], infos[a]);
    var b :| 0 <= b < |grid| && Width(grid[b][j]) == ColumnWidth(grid, j);
    assert RowHolds(table.buffer[b], grid[b], infos[b]);
  }

  /** Cell `j` of row `i`: its buffered tokens, `hpad` up to the column
      width, and `hsep` (or `Line` after the last column). */
  method EmitCell(table: TableBuffer, i: nat, j: nat, ghost grid: seq<seq<seq<Token>>>, ghost infos: seq<RowInfo>, nCols: nat)
    returns (out: seq<Token>)
    requires |grid| > 0 && IsGrid(grid, nCols) && Holds(table, grid, infos) && i < |grid| && j < nCols
    ensures out == CellOut(grid[i], infos[i], ColumnWidths(grid, nCols), j)
  {
    assert RowHolds(table.buffer[i], grid[i], infos[i]);
    assert forall k :: 0 <= k < |table.buffer| ==> j < |table.buffer[k].buffer| by {
      forall k | 0 <= k < |table.buffer| ensures j < |table.buffer[k].buffer| {
        assert RowHolds(table.buffer[k], grid[k], infos[k]);
      }
    }
    var info := table.buffer[i].info;
    var cellBuffer := table.buffer[i].buffer[j];
    var w := table.ColWidth(j);
    ColWidthIsColumnWidth(table, grid, infos, nCols, j, w);
    out := cellBuffer.buffer + Repeat(info.hpad, w - cellBuffer.minWidth);
    if j < nCols - 1 {
      out := out + [info.hsep];
    } else {
      out := out + [LineToken];
    }
  }

  /** The second phase for row `i`: its cells one after the other. */
  method EmitRow(table: TableBuffer, i: nat, ghost grid: seq<seq<seq<Token>>>, ghost infos: seq<RowInfo>, nCols: nat)
    returns (out: seq<Token>)
    requires |grid| > 0 && IsGrid(grid, nCols) && Holds(table, grid, infos) && i < |grid|
    ensures out == TableRow(grid[i], infos[i], ColumnWidths(grid, nCols))
  {
    ghost var widths := ColumnWidths(grid, nCols);
    out := [];
    var j := 0;
    while j < nCols
      invariant 0 <= j <= nCols
      invariant out == RowPrefix(grid[i], infos[i], widths, j)
    {
      var part := EmitCell(table, i, j, grid, infos, nCols);
      out := out + part;
      j := j + 1;
    }
    RowPrefixIsTableRow(grid[i], infos[i], widths);
  }

  /** Cell `j` of a table row as emitted: padded, then `hsep` or `Line`. */
  function CellOut(cells: seq<seq<Token>>, info: RowInfo, widths: seq<nat>, j: nat): seq<Token>
    requires |widths| == |cells| && j < |cells|
  {
    Padded(cells[j], info, widths[j]) + [if j < |cells| - 1 then info.hsep else LineToken]
  }

  /** The first `j` cells of a table row as emitted. */
  function RowPrefix(cells: seq<seq<Token>>, info: RowInfo, widths: seq<nat>, j: nat): seq<Token>
    requires |widths| == |cells| && j <= |cells|
  {
    if j == 0 then [] else RowPrefix(cells, info, widths, j - 1) + CellOut(cells, info, widths, j - 1)
  }

  lemma {:induction false} RowPrefixIsFlatten(cells: seq<seq<Token>>, info: RowInfo, widths: seq<nat>, j: nat)
    requires |widths| == |cells| && j <= |cells|
    ensures RowPrefix(cells, info, widths, j) ==
      Flatten(seq(j, l requires 0 <= l < j => CellOut(cells, info, widths, l)))
  {
    if j > 0 {
      RowPrefixIsFlatten(cells, info, widths, j - 1);
      var xs := seq(j - 1, l requires 0 <= l < j - 1 => CellOut(cells, info, widths, l));
      FlattenSnoc(xs, CellOut(cells, info, widths, j - 1));
      assert xs + [CellOut(cells, info, widths, j - 1)] ==
        seq(j, l requires 0 <= l < j => CellOut(cells, info, widths, l));
    }
  }

  lemma RowPrefixIsTableRow(cells: seq<seq<Token>>, info: RowInfo, widths: seq<nat>)
    requires |widths| == |cells|
    ensures RowPrefix(cells, info, widths, |cells|) == TableRow(cells, info, widths)
  {
    RowPrefixIsFlatten(cells, info, widths, |cells|);
    TableRowIsFlatten(cells, info, widths,
      seq(|cells|, l requires 0 <= l < |cells| => CellOut(cells, info, widths, l)));
  }

  lemma TableRowIsFlatten(cells: seq<seq<Token>>, info: RowInfo, widths: seq<nat>, parts: seq<seq<Token>>)
    requires |widths| == |cells| == |parts|
    requires forall l :: 0 <= l < |parts| ==>
      parts[l] == Padded(cells[l], info, widths[l]) + [if l < |cells| - 1 then info.hsep else LineToken]
    ensures TableRow(cells, info, widths) == Flatten(parts)
  {
    var padded := seq(|cells|, l requires 0 <= l < |cells| => Padded(cells[l], info, widths[l]));
    assert parts == seq(|cells|, l requires 0 <= l < |cells| =>
      padded[l] + [if l < |cells| - 1 then info.hsep else LineToken]);
  }

  /** The first `i` rows of a table as emitted. */
  function TablePrefix(grid: seq<seq<seq<Token>>>, infos: seq<RowInfo>, widths: seq<nat>, i: nat): seq<Token>
    requires i <= |grid| == |infos| && forall k :: 0 <= k < |grid| ==> |grid[k]| == |widths|
  {
    if i == 0 then [] else TablePrefix(grid, infos, widths, i - 1) + TableRow(grid[i - 1], infos[i - 1], widths)
  }

  lemma {:induction false} TablePrefixIsFlatten(grid: seq<seq<seq<Token>>>, infos: seq<RowInfo>, widths: seq<nat>, i: nat)
    requires i <= |grid| == |infos| && forall k :: 0 <= k < |grid| ==> |grid[k]| == |widths|
    ensures TablePrefix(grid, infos, widths, i) ==
      Flatten(seq(i, k requires 0 <= k < i => TableRow(grid[k], infos[k], widths)))
  {
    if i > 0 {
      TablePrefixIsFlatten(grid, infos, widths, i - 1);
      var xs := seq(i - 1, k requires 0 <= k < i - 1 => TableRow(grid[k], infos[k], widths));
      FlattenSnoc(xs, TableRow(grid[i - 1], infos[i - 1], widths));
      assert xs + [TableRow(grid[i - 1], infos[i - 1], widths)] ==
        seq(i, k requires 0 <= k < i => TableRow(grid[k], infos[k], widths));
    }
  }

  lemma TablePrefixIsTableTokens(grid: seq<seq<seq<Token>>>, infos: seq<RowInfo>, nCols: nat)
    requires |grid| > 0 && |grid| == |infos| && IsGrid(grid, nCols)
    ensures TablePrefix(grid, infos, ColumnWidths(grid, nCols), |grid|) == TableTokens(grid, infos, nCols)
  {
    TablePrefixIsFlatten(grid, infos, ColumnWidths(grid, nCols), |grid|);
  }

  lemma RenderTableOk(rows: seq<Doc>, nCols: nat, grid: seq<seq<seq<Token>>>)
    requires ColumnCount(rows) == Ok(nCols) && RenderGrid(rows, nCols) == Ok(grid)
    ensures Render(Table(rows)) == Ok(TableTokens(grid, Infos(rows), nCols))
  {
  }

  lemma RenderTableErr(rows: seq<Doc>, nCols: nat)
    requires ColumnCount(rows).Err? || (ColumnCount(rows) == Ok(nCols) && RenderGrid(rows, nCols).Err?)
    ensures ColumnCount(rows).Err? ==> Render(Table(rows)) == Err(ColumnCount(rows).error)
    ensures ColumnCount(rows).Ok? ==> Render(Table(rows)) == Err(RenderGrid(rows, nCols).error)
  {
  }

  /** The second phase: every row of the filled table, one after the other. */
  method EmitRows(table: TableBuffer, ghost grid: seq<seq<seq<Token>>>, ghost infos: seq<RowInfo>, nCols: nat)
    returns (out: seq<Token>)
    requires |grid| > 0 && |grid| == |infos| && IsGrid(grid, nCols) && Holds(table, grid, infos)
    ensures out == TableTokens(grid, infos, nCols)
  {
    ghost var widths := ColumnWidths(grid, nCols);
    out := [];
    var i := 0;
    while i < |table.buffer|
      invariant 0 <= i <= |grid|
      invariant out == TablePrefix(grid, infos, widths, i)
    {
      var line := EmitRow(table, i, grid, infos, nCols);
      out := out + line;
      i := i + 1;
    }
    TablePrefixIsTableTokens(grid, infos, nCols);
  }

  /** The `Table` case as the source runs it: fill a `CellBuffer` per cell,
      a `RowBuffer` per row and one `TableBuffer`, then emit every row. */
  method RenderTable(rows: seq<Doc>) returns (r: Result<seq<Token>, RenderError>)
    ensures r == Render(Table(rows))
  {
    var counted := CountColumns(rows);
    if counted.Err? {
      RenderTableErr(rows, 0);
      return Err(counted.error);
    }
    var nCols := counted.value;
    var table, grid, failure := FillTable(rows, nCols);
    if failure.Some? {
      RenderTableErr(rows, nCols);
      return Err(failure.value);
    }
    var out := EmitRows(table, grid, Infos(rows), nCols);
    RenderTableOk(rows, nCols, grid);
    return Ok(out);
  }

  // ---------------------------------------------------------------------
  // Laws of the renderer
  // ---------------------------------------------------------------------

  lemma {:induction false} RenderEachAppend(a: seq<Doc>, b: seq<Doc>)
    ensures RenderEach(a + b) ==
      (var x :- RenderEach(a); var y :- RenderEach(b); Ok(x + y))
  {
    if a == [] {
      assert a + b == b;
      var rb := RenderEach(b);
      if rb.Ok? {
        assert [] + rb.value == rb.value;
      }
    } else {
      assert (a + b)[0] == a[0] && (a + b)[1..] == a[1..] + b;
      RenderEachAppend(a[1..], b);
      var r0, ra, rb := Render(a[0]), RenderEach(a[1..]), RenderEach(b);
      if r0.Ok? && ra.Ok? && rb.Ok? {
        assert [r0.value] + (ra.value + rb.value) == ([r0.value] + ra.value) + rb.value;
      }
    }
  }

  /** A `Cat` renders its children in order, with nothing in between; the
      first child that fails decides the failure. */
  lemma CatRendersInOrder(a: seq<Doc>, b: seq<Doc>)
    ensures Render(Cat(a + b)) ==
      (var x :- Render(Cat(a)); var y :- Render(Cat(b)); Ok(x + y))
  {
    RenderEachAppend(a, b);
    var ra, rb := RenderEach(a), RenderEach(b);
    if ra.Ok? && rb.Ok? {
      FlattenAppend(ra.value, rb.value);
    }
  }

  lemma {:induction false} ConcatAppend(a: seq<string>, b: seq<string>)
    ensures PyStr.Concat(a + b) == PyStr.Concat(a) + PyStr.Concat(b)
  {
    if a == [] {
      assert a + b == b;
    } else {
      assert (a + b)[1..] == a[1..] + b;
      ConcatAppend(a[1..], b);
    }
  }

  /** `to_str` of a `Cat` is the `to_str` of its parts, glued together. */
  lemma ToStrOfCat(a: seq<Doc>, b: seq<Doc>)
    ensures ToStr(Cat(a + b)) ==
      (var x :- ToStr(Cat(a)); var y :- ToStr(Cat(b)); Ok(x + y))
  {
    CatRendersInOrder(a, b);
    var ra, rb := Render(Cat(a)), Render(Cat(b));
    if ra.Ok? && rb.Ok? {
      ConcatAppend(ra.value, rb.value);
    }
  }

  /** Only the first alternative of an `Alt` is ever rendered: the others
      may be anything, even documents that cannot be rendered. */
  lemma AltRendersFirst(first: Doc, rest: seq<Doc>, others: seq<Doc>)
    ensures Render(Alt([first] + rest)) == Render(first)
    ensures Render(Alt([first] + rest)) == Render(Alt([first] + others))
  {
  }

  /** An `Alt` without alternatives produces no tokens and raises nothing
      (the generator returns its error value instead of raising it), so
      inside a `Cat` it disappears. */
  lemma EmptyAltVanishes(before: seq<Doc>, after: seq<Doc>)
    ensures Render(Alt([])) == Ok([])
    ensures Render(Cat(before + [Alt([])] + after)) == Render(Cat(before + after))
  {
    CatRendersInOrder(before + [Alt([])], after);
    CatRendersInOrder(before, [Alt([])]);
    CatRendersInOrder(before, after);
    assert [Alt([])][1..] == [];
    var rb := Render(Cat(before));
    if rb.Ok? {
      assert rb.value + [] == rb.value;
    }
  }

  /** A `Row` of `n >= 1` cells renders as the cells joined by `hsep`, then
      one `Line`; a `Row` of no cells renders nothing. */
  lemma RowLayout(cells: seq<Doc>, info: RowInfo)
    ensures Render(Row(cells, info)) ==
      (var parts :- RenderEach(cells);
       Ok(if cells == [] then [] else JoinTokens(parts, info.hsep) + [LineToken]))
  {
    var r := RenderEach(cells);
    if r.Ok? {
      FramedIsJoin(r.value, info.hsep);
    }
  }

  /** A table renders only when it has rows, all of them `Row`s with the same
      number of cells; an empty table raises `ValueError` and a row that is
      not a `Row` raises `AttributeError`. */
  lemma TableShape(rows: seq<Doc>)
    ensures rows == [] ==> Render(Table(rows)) == Err(ValueError)
    ensures rows != [] && (exists k :: 0 <= k < |rows| && !rows[k].Row?) ==>
      Render(Table(rows)) == Err(AttributeError)
    ensures Render(Table(rows)).Ok? ==>
      && |rows| > 0
      && (forall k :: 0 <= k < |rows| ==> rows[k].Row?)
      && (forall k :: 0 <= k < |rows| ==> |rows[k].cells| == |rows[0].cells|)
  {
    if Render(Table(rows)).Ok? {
      var n := MaxCells(rows);
      var grid := RenderGrid(rows, n).value;
      forall k | 0 <= k < |rows|
        ensures |rows[k].cells| == n
      {
        GridRowsComplete(rows, n, k);
      }
    }
  }

  lemma {:induction false} CellsComplete(row: Doc, n: nat)
    requires row.Row? && RenderCells(row, n).Ok?
    ensures n <= |row.cells|
  {
    if n > 0 {
      CellsComplete(row, n - 1);
    }
  }

  lemma {:induction false} GridRowsComplete(rows: seq<Doc>, n: nat, k: nat)
    requires forall i :: 0 <= i < |rows| ==> rows[i].Row?
    requires RenderGrid(rows, n).Ok? && k < |rows|
    ensures n <= |rows[k].cells|
    decreases |rows|
  {
    if k == |rows| - 1 {
      CellsComplete(rows[k], n);
    } else {
      GridRowsComplete(rows[..|rows| - 1], n, k);
    }
  }

  /** A cell padded with a one-character `hpad` up to the column width is
      exactly as wide as the column. */
  lemma PaddedWidth(cell: seq<Token>, info: RowInfo, w: nat)
    requires Width(cell) <= w
    ensures Width(Padded(cell, info, w)) == Width(cell) + (w - Width(cell)) * |info.hpad|
    ensures |info.hpad| == 1 ==> Width(Padded(cell, info, w)) == w
  {
    WidthAppend(cell, Repeat(info.hpad, w - Width(cell)));
    WidthRepeat(info.hpad, w - Width(cell));
  }

  function Sum(ws: seq<nat>): nat {
    if ws == [] then 0 else Sum(ws[..|ws| - 1]) + ws[|ws| - 1]
  }

  /** A padded cell that is not the row's last, with its `hsep`. */
  lemma CellOutWidth(cells: seq<seq<Token>>, info: RowInfo, widths: seq<nat>, j: nat)
    requires |widths| == |cells| && j < |cells| - 1 && |info.hpad| == 1
    requires Width(cells[j]) <= widths[j]
    ensures Width(CellOut(cells, info, widths, j)) == widths[j] + |info.hsep|
  {
    PaddedWidth(cells[j], info, widths[j]);
    WidthAppend(Padded(cells[j], info, widths[j]), [info.hsep]);
    assert [info.hsep][..0] == [];
  }

  lemma SumSnoc(widths: seq<nat>, j: nat)
    requires 0 < j <= |widths|
    ensures Sum(widths[..j]) == Sum(widths[..j - 1]) + widths[j - 1]
  {
    assert widths[..j][..j - 1] == widths[..j - 1];
  }

  lemma MulSucc(k: nat, h: nat)
    ensures k * h + h == (k + 1) * h
  {
  }

  /** In a table row with a one-character `hpad`, cell `j` starts at
      `w[0] + ... + w[j-1] + j * len(hsep)`, whatever the row's cells hold:
      every column starts at the same offset in every row that uses
      separators of the same width. */
  lemma {:induction false} CellOffsets(cells: seq<seq<Token>>, info: RowInfo, widths: seq<nat>, j: nat)
    requires |widths| == |cells| && j < |cells| && |info.hpad| == 1
    requires forall l :: 0 <= l < |cells| ==> Width(cells[l]) <= widths[l]
    ensures Width(RowPrefix(cells, info, widths, j)) == Sum(widths[..j]) + j * |info.hsep|
  {
    if j > 0 {
      var h := |info.hsep|;
      var front, last := RowPrefix(cells, info, widths, j - 1), CellOut(cells, info, widths, j - 1);
      assert RowPrefix(cells, info, widths, j) == front + last;
      CellOffsets(cells, info, widths, j - 1);
      CellOutWidth(cells, info, widths, j - 1);
      WidthAppend(front, last);
      SumSnoc(widths, j);
      MulSucc(j - 1, h);
    } else {
      assert widths[..0] == [];
    }
  }

  /** Every rendered cell fits its column: the column width bounds the
      cell, so padding never goes negative, and every column of a
      rendered table is padded to the same width in each row that pads with
      a one-character `hpad`. */
  lemma ColumnsAligned(grid: seq<seq<seq<Token>>>, infos: seq<RowInfo>, nCols: nat, i: nat, j: nat)
    requires |grid| > 0 && |grid| == |infos| && IsGrid(grid, nCols) && i < |grid| && j < nCols
    requires |infos[i].hpad| == 1
    ensures Width(Padded(grid[i][j], infos[i], ColumnWidths(grid, nCols)[j])) == ColumnWidths(grid, nCols)[j]
  {
    ColumnWidthIsMax(grid, j);
    PaddedWidth(grid[i][j], infos[i], ColumnWidth(grid, j));
  }

  // ---------------------------------------------------------------------
  // Laws of the nesting state machine
  // ---------------------------------------------------------------------

  /** The tokens of `ts` other than `Space`. */
  function NonSpace(ts: seq<Token>): seq<Token> {
    if ts == [] then []
    else (if ts[0] == SpaceToken then [] else [ts[0]]) + NonSpace(ts[1..])
  }

  lemma {:induction false} NonSpaceAppend(a: seq<Token>, b: seq<Token>)
    ensures NonSpace(a + b) == NonSpace(a) + NonSpace(b)
  {
    if a == [] {
      assert a + b == b;
    } else {
      assert (a + b)[1..] == a[1..] + b;
      NonSpaceAppend(a[1..], b);
    }
  }

  lemma {:induction false} NonSpaceOfSpaces(n: int)
    ensures NonSpace(Repeat(SpaceToken, n)) == []
    decreases if n <= 0 then 0 else n
  {
    if n > 0 {
      assert Repeat(SpaceToken, n)[1..] == Repeat(SpaceToken, n - 1);
      NonSpaceOfSpaces(n - 1);
    }
  }

  /** Nesting only adds, drops or moves `Space` tokens: every other token,
      `Line` included, comes out in order and in the same number. */
  lemma {:induction false} NestKeepsNonSpace(ts: seq<Token>, indent: int, hasContent: bool, lineIndent: int)
    ensures NonSpace(NestFrom(ts, indent, hasContent, lineIndent)) == NonSpace(ts)
  {
    if ts != [] {
      var t := ts[0];
      if t == LineToken {
        NestKeepsNonSpace(ts[1..], indent, false, lineIndent);
        NonSpaceAppend([LineToken], NestFrom(ts[1..], indent, false, lineIndent));
      } else if hasContent {
        NestKeepsNonSpace(ts[1..], indent, true, lineIndent);
        NonSpaceAppend([t], NestFrom(ts[1..], indent, true, lineIndent));
      } else if t == SpaceToken {
        NestKeepsNonSpace(ts[1..], indent, false, lineIndent + 1);
      } else {
        var pad := Repeat(SpaceToken, lineIndent + indent);
        NestKeepsNonSpace(ts[1..], indent, true, lineIndent);
        NonSpaceAppend(pad + [t], NestFrom(ts[1..], indent, true, lineIndent));
        NonSpaceAppend(pad, [t]);
        NonSpaceOfSpaces(lineIndent + indent);
      }
    }
  }

  predicate AllSpaces(ss: seq<Token>) {
    forall k :: 0 <= k < |ss| ==> ss[k] == SpaceToken
  }

  /** On a line without content yet, leading `Space` tokens are not emitted:
      each one raises the line indent instead. */
  lemma {:induction false} LeadingSpacesCounted(ss: seq<Token>, rest: seq<Token>, indent: int, lineIndent: int)
    requires AllSpaces(ss)
    ensures NestFrom(ss + rest, indent, false, lineIndent) == NestFrom(rest, indent, false, lineIndent + |ss|)
  {
    if ss != [] {
      assert (ss + rest)[1..] == ss[1..] + rest;
      LeadingSpacesCounted(ss[1..], rest, indent, lineIndent + 1);
    } else {
      assert ss + rest == rest;
    }
  }

  /** A line of nothing but `Space` tokens comes out as a bare `Line`: no
      indentation and none of its spaces, which still count towards the
      indent of later lines. */
  lemma BlankLineUnindented(ss: seq<Token>, rest: seq<Token>, indent: int, lineIndent: int)
    requires AllSpaces(ss)
    ensures NestFrom(ss + [LineToken] + rest, indent, false, lineIndent) ==
      [LineToken] + NestFrom(rest, indent, false, lineIndent + |ss|)
  {
    assert ss + [LineToken] + rest == ss + ([LineToken] + rest);
    LeadingSpacesCounted(ss, [LineToken] + rest, indent, lineIndent);
    assert ([LineToken] + rest)[1..] == rest;
  }

  /** The first token of a line that is neither `Space` nor `Line` is
      preceded by `lineIndent + indent` spaces, counting the line's own
      leading spaces in `lineIndent`. */
  lemma FirstTokenIndented(ss: seq<Token>, t: Token, rest: seq<Token>, indent: int, lineIndent: int)
    requires AllSpaces(ss) && t != SpaceToken && t != LineToken
    ensures NestFrom(ss + [t] + rest, indent, false, lineIndent) ==
      Repeat(SpaceToken, lineIndent + |ss| + indent) + [t] + NestFrom(rest, indent, true, lineIndent + |ss|)
  {
    assert ss + [t] + rest == ss + ([t] + rest);
    LeadingSpacesCounted(ss, [t] + rest, indent, lineIndent);
    assert ([t] + rest)[1..] == rest;
  }

  /** Once a line has content, its tokens pass through unchanged up to the
      next `Line`. */
  lemma {:induction false} ContentPassesThrough(cs: seq<Token>, rest: seq<Token>, indent: int, lineIndent: int)
    requires forall k :: 0 <= k < |cs| ==> cs[k] != LineToken
    ensures NestFrom(cs + rest, indent, true, lineIndent) == cs + NestFrom(rest, indent, true, lineIndent)
  {
    if cs != [] {
      assert (cs + rest)[1..] == cs[1..] + rest;
      ContentPassesThrough(cs[1..], rest, indent, lineIndent);
      assert [cs[0]] + (cs[1..] + NestFrom(rest, indent, true, lineIndent)) == cs + NestFrom(rest, indent, true, lineIndent);
    } else {
      assert cs + rest == rest;
    }
  }

  /** `line_indent` is not reset at a `Line`: with indent 2, the tokens
      `" "`, `"a"`, `Line`, `"b"` put three spaces before `b` as well as
      before `a`, although `b`'s line has no leading space. */
  lemma LineIndentCarriesOver()
    ensures NestFrom([" ", "a", "\n", "b"], 2, false, 0) ==
      [" ", " ", " ", "a", "\n", " ", " ", " ", "b"]
  {
    var three := Repeat(SpaceToken, 3);
    assert three == [" ", " ", " "];
    assert NestFrom(["b"], 2, false, 1) == three + ["b"] + NestFrom([], 2, true, 1);
    assert NestFrom(["\n", "b"], 2, true, 1) == ["\n"] + NestFrom(["b"], 2, false, 1);
    assert NestFrom(["a", "\n", "b"], 2, false, 1) == three + ["a"] + NestFrom(["\n", "b"], 2, true, 1);
    assert NestFrom([" ", "a", "\n", "b"], 2, false, 0) == NestFrom(["a", "\n", "b"], 2, false, 1);
  }
}
