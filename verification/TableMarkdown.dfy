/** `_table_markdown` (restructure.py): Docling's cells fill a grid in place, which is printed with its
    header row first. */
module TableMarkdown {
  import opened Common
  import opened Text
  import opened TableText

  /** An offset as the JSON holds it. */
  datatype Offset = Missing | NotInteger | Integer(value: int)

  /** One entry of `table_cells`. */
  datatype Cell =
    | NotMapping
    | Cell(text: Option<string>, startRow: Offset, row: Offset, startColumn: Offset, column: Offset, header: bool)

  datatype Placed = Placed(row: nat, column: nat, text: string, header: bool)

  const MAX_TABLE_CELLS := 10_000
  const MAX_ROWS: nat := 1_000
  const MAX_COLUMNS: nat := 256

  function Or(first: Offset, second: Offset): Offset {
    if first == Missing then second else first
  }

  function RowOf(c: Cell, fallback: nat): Offset
    requires c.Cell?
  {
    Or(c.startRow, Or(c.row, Integer(fallback)))
  }

  function ColumnOf(c: Cell): Offset
    requires c.Cell?
  {
    Or(c.startColumn, Or(c.column, Integer(0)))
  }

  /** The cell has text and a position; others are skipped. */
  predicate Placeable(c: Cell, i: nat) {
    && c.Cell? && c.text.Some?
    && RowOf(c, i).Integer? && ColumnOf(c).Integer? && RowOf(c, i).value >= 0 && ColumnOf(c).value >= 0
  }

  predicate TooFar(c: Cell, i: nat) {
    Placeable(c, i) && (RowOf(c, i).value >= MAX_ROWS || ColumnOf(c).value >= MAX_COLUMNS)
  }

  function Place(c: Cell, i: nat): Placed
    requires Placeable(c, i)
  {
    Placed(RowOf(c, i).value, ColumnOf(c).value, TableCell(c.text.value), c.header)
  }

  /** The cells that have a place, in order. */
  function PlacedCells(cells: seq<Cell>): seq<Placed> {
    if cells == [] then []
    else
      var n := |cells| - 1;
      PlacedCells(cells[..n]) + if Placeable(cells[n], n) then [Place(cells[n], n)] else []
  }

  ghost predicate TableAccepted(cells: seq<Cell>) {
    |cells| <= MAX_TABLE_CELLS && forall i | 0 <= i < |cells| :: !TooFar(cells[i], i)
  }

  // ----- the grid

  /** The texts placed at one position, in order. */
  function TextsAt(placed: seq<Placed>, r: nat, c: nat): seq<string> {
    if placed == [] then []
    else
      var last := placed[|placed| - 1];
      TextsAt(placed[..|placed| - 1], r, c) + if last.row == r && last.column == c then [last.text] else []
  }

  function Merge(cell: string, text: string): string {
    if cell == "" then text else cell + (" / " + text)
  }

  function Merged(texts: seq<string>): string {
    if texts == [] then "" else Merge(Merged(texts[..|texts| - 1]), texts[|texts| - 1])
  }

  function Trimmed(texts: seq<string>): seq<string> {
    if texts == [] then [] else if texts[0] == "" then Trimmed(texts[1..]) else texts
  }

  /** A position shows its texts joined, past any leading empty ones. */
  lemma {:induction false} MergedMeaning(texts: seq<string>)
    ensures Merged(texts) == Join(Trimmed(texts), " / ")
    ensures Merged(texts) == "" <==> Trimmed(texts) == []
  {
    if texts != [] {
      var n := |texts| - 1;
      MergedMeaning(texts[..n]);
      TrimmedSnoc(texts[..n], texts[n]);
      assert texts == texts[..n] + [texts[n]];
      if Trimmed(texts[..n]) != [] { JoinSnoc(Trimmed(texts[..n]), texts[n], " / "); }
    }
  }

  lemma {:induction false} TrimmedSnoc(texts: seq<string>, text: string)
    ensures Trimmed(texts + [text]) ==
      if Trimmed(texts) == [] then (if text == "" then [] else [text]) else Trimmed(texts) + [text]
  {
    if texts == [] {
      assert texts + [text] == [text] && [text][1..] == [];
    } else if texts[0] == "" {
      assert (texts + [text])[1..] == texts[1..] + [text];
      TrimmedSnoc(texts[1..], text);
    }
  }

  function MaxRow(placed: seq<Placed>): int {
    if placed == [] then -1
    else
      var rest := MaxRow(placed[..|placed| - 1]);
      if placed[|placed| - 1].row > rest then placed[|placed| - 1].row else rest
  }

  function MaxColumn(placed: seq<Placed>): int {
    if placed == [] then -1
    else
      var rest := MaxColumn(placed[..|placed| - 1]);
      if placed[|placed| - 1].column > rest then placed[|placed| - 1].column else rest
  }

  lemma {:induction false} MaxBounds(placed: seq<Placed>)
    ensures forall i | 0 <= i < |placed| :: placed[i].row <= MaxRow(placed) && placed[i].column <= MaxColumn(placed)
    ensures placed != [] ==> MaxRow(placed) >= 0 && MaxColumn(placed) >= 0
  {
    if placed != [] {
      MaxBounds(placed[..|placed| - 1]);
      assert forall i | 0 <= i < |placed| - 1 :: placed[..|placed| - 1][i] == placed[i];
    }
  }

  function CellAt(placed: seq<Placed>, r: nat, c: nat): string {
    Merged(TextsAt(placed, r, c))
  }

  /** The rectangular grid the placed cells describe. */
  function Grid(placed: seq<Placed>): (grid: seq<seq<string>>) {
    seq(MaxRow(placed) + 1, (r: nat) => seq(MaxColumn(placed) + 1, (c: nat) => CellAt(placed, r, c)))
  }

  // ----- where a cell stands

  /** The offset of the first name that is present, else the given number. */
  predicate Offsets(first: Offset, second: Offset, otherwise: nat, n: nat) {
    if first != Missing then first == Integer(n) else if second != Missing then second == Integer(n) else n == otherwise
  }

  /** The `i`-th entry is a cell with text in row `r` and column `c`: a row that is not given is the
      entry's number, a column that is not given the first. */
  predicate StandsAt(cell: Cell, i: nat, r: nat, c: nat) {
    && cell.Cell? && cell.text.Some?
    && Offsets(cell.startRow, cell.row, i, r) && Offsets(cell.startColumn, cell.column, 0, c)
  }

  ghost function StandsIn(cells: seq<Cell>, r: nat, c: nat): nat -> bool {
    (i: nat) => i < |cells| && StandsAt(cells[i], i, r, c)
  }

  lemma StandsMeaning(cell: Cell, i: nat, r: nat, c: nat)
    ensures StandsAt(cell, i, r, c) <==>
      Placeable(cell, i) && RowOf(cell, i) == Integer(r) && ColumnOf(cell) == Integer(c)
  {
  }

  function CellText(cell: Cell): string {
    if cell.Cell? && cell.text.Some? then TableCell(cell.text.value) else ""
  }

  /** The texts of the entries at these positions. */
  ghost predicate TextsOf(cells: seq<Cell>, at: seq<nat>, texts: seq<string>) {
    |texts| == |at| && forall k | 0 <= k < |at| :: at[k] < |cells| && texts[k] == CellText(cells[at[k]])
  }

  lemma TextsSame(cells: seq<Cell>, at: seq<nat>, texts: seq<string>)
    requires cells != [] && TextsOf(cells[..|cells| - 1], at, texts)
    ensures TextsOf(cells, at, texts)
  {
    assert forall k | 0 <= k < |at| :: cells[at[k]] == cells[..|cells| - 1][at[k]];
  }

  lemma TextsGrow(cells: seq<Cell>, at: seq<nat>, texts: seq<string>, i: nat)
    requires TextsOf(cells, at, texts) && i < |cells|
    ensures TextsOf(cells, at + [i], texts + [CellText(cells[i])])
  {
  }

  /** A position holds the texts of exactly the entries that stand there, in order. */
  lemma {:induction false} TextsMeaning(cells: seq<Cell>, r: nat, c: nat) returns (at: seq<nat>)
    ensures Picks(at, StandsIn(cells, r, c), |cells|)
    ensures TextsOf(cells, at, TextsAt(PlacedCells(cells), r, c))
  {
    if cells == [] {
      at := [];
    } else {
      var n := |cells| - 1;
      var before := TextsMeaning(cells[..n], r, c);
      var texts := TextsAt(PlacedCells(cells[..n]), r, c);
      FrontStands(cells, r, c, before);
      PicksSnoc(before, StandsIn(cells, r, c), n);
      TextsSame(cells, before, texts);
      TextsGrow(cells, before, texts, n);
      LastText(cells, r, c);
      at := before + if StandsIn(cells, r, c)(n) then [n] else [];
      assert before + [] == before && texts + [] == texts;
    }
  }

  lemma FrontStands(cells: seq<Cell>, r: nat, c: nat, at: seq<nat>)
    requires cells != [] && Picks(at, StandsIn(cells[..|cells| - 1], r, c), |cells| - 1)
    ensures Picks(at, StandsIn(cells, r, c), |cells| - 1)
  {
    forall i: nat | i < |cells| - 1
      ensures StandsIn(cells, r, c)(i) == StandsIn(cells[..|cells| - 1], r, c)(i)
    {
    }
  }

  lemma LastText(cells: seq<Cell>, r: nat, c: nat)
    requires cells != []
    ensures var n := |cells| - 1;
      TextsAt(PlacedCells(cells), r, c) == TextsAt(PlacedCells(cells[..n]), r, c) +
        if StandsAt(cells[n], n, r, c) then [CellText(cells[n])] else []
  {
    var n := |cells| - 1;
    StandsMeaning(cells[n], n, r, c);
    if Placeable(cells[n], n) {
      var before := PlacedCells(cells[..n]);
      assert (before + [Place(cells[n], n)])[..|before|] == before;
    } else {
      assert PlacedCells(cells) == PlacedCells(cells[..n]) + [] == PlacedCells(cells[..n]);
    }
  }

  lemma StandingPlace(cell: Cell, i: nat, r: nat, c: nat)
    requires StandsAt(cell, i, r, c)
    ensures Placeable(cell, i) && Place(cell, i) == Placed(r, c, TableCell(cell.text.value), cell.header)
  {
    StandsMeaning(cell, i, r, c);
  }

  lemma {:induction false} PlacedHas(cells: seq<Cell>, i: nat)
    requires i < |cells| && Placeable(cells[i], i)
    ensures Place(cells[i], i) in PlacedCells(cells)
  {
    var n := |cells| - 1;
    if i < n {
      assert cells[..n][i] == cells[i];
      PlacedHas(cells[..n], i);
    }
  }

  lemma MaxReaches(placed: seq<Placed>, p: Placed)
    requires p in placed
    ensures p.row <= MaxRow(placed) && p.column <= MaxColumn(placed)
  {
    MaxBounds(placed);
    var k :| 0 <= k < |placed| && placed[k] == p;
  }

  /** The grid reaches every entry that stands somewhere. */
  lemma GridReaches(cells: seq<Cell>, i: nat, r: nat, c: nat)
    requires i < |cells| && StandsAt(cells[i], i, r, c)
    ensures r <= MaxRow(PlacedCells(cells)) && c <= MaxColumn(PlacedCells(cells))
  {
    StandingPlace(cells[i], i, r, c);
    PlacedHas(cells, i);
    MaxReaches(PlacedCells(cells), Placed(r, c, TableCell(cells[i].text.value), cells[i].header));
  }

  /** A table is accepted exactly with at most 10000 entries, none of which stands behind row 1000 or
      column 256. */
  lemma AcceptedMeaning(cells: seq<Cell>)
    ensures TableAccepted(cells) <==>
      && |cells| <= 10_000
      && forall i: nat, r: nat, c: nat | i < |cells| && StandsAt(cells[i], i, r, c) :: r < 1_000 && c < 256
  {
    forall i: nat, r: nat, c: nat | i < |cells| && StandsAt(cells[i], i, r, c)
      ensures TooFar(cells[i], i) <==> r >= 1_000 || c >= 256
    {
      StandsMeaning(cells[i], i, r, c);
    }
    forall i: nat | i < |cells| && TooFar(cells[i], i)
      ensures StandsAt(cells[i], i, RowOf(cells[i], i).value, ColumnOf(cells[i]).value)
    {
      StandsMeaning(cells[i], i, RowOf(cells[i], i).value, ColumnOf(cells[i]).value);
    }
  }

  /** What a position of the printed grid shows: the texts of the entries that stand there, in order,
      joined by slashes past any leading empty ones. */
  lemma PositionMeaning(cells: seq<Cell>, r: nat, c: nat) returns (at: seq<nat>, texts: seq<string>)
    ensures Picks(at, StandsIn(cells, r, c), |cells|) && TextsOf(cells, at, texts)
    ensures CellAt(PlacedCells(cells), r, c) == Join(Trimmed(texts), " / ")
  {
    at := TextsMeaning(cells, r, c);
    texts := TextsAt(PlacedCells(cells), r, c);
    MergedMeaning(texts);
  }

  /** The topmost row with a header cell, else the first row. */
  ghost predicate IsHeaderRow(placed: seq<Placed>, h: nat) {
    if exists i :: 0 <= i < |placed| && placed[i].header
    then (exists i :: 0 <= i < |placed| && placed[i].header && placed[i].row == h)
      && forall i | 0 <= i < |placed| && placed[i].header :: h <= placed[i].row
    else h == 0
  }

  // ----- the code

  lemma PlacedSnoc(cells: seq<Cell>, i: nat)
    requires i < |cells|
    ensures PlacedCells(cells[..i + 1]) == PlacedCells(cells[..i]) + if Placeable(cells[i], i) then [Place(cells[i], i)]
      else []
  {
    assert cells[..i + 1][..i] == cells[..i];
  }

  /** What is known after the first `i` cells. */
  ghost predicate ReadSoFar(cells: seq<Cell>, i: nat, placed: seq<Placed>, maxRow: int, maxColumn: int)
    requires i <= |cells|
  {
    && placed == PlacedCells(cells[..i]) && maxRow == MaxRow(placed) && maxColumn == MaxColumn(placed)
    && maxRow < MAX_ROWS && maxColumn < MAX_COLUMNS
  }

  ghost predicate NoneTooFar(cells: seq<Cell>, i: nat)
    requires i <= |cells|
  {
    forall j | 0 <= j < i :: !TooFar(cells[j], j)
  }

  /** One cell: skipped, placed, or out of bounds. */
  method ReadCell(cells: seq<Cell>, i: nat, placed: seq<Placed>, maxRow: int, maxColumn: int)
    returns (ok: bool, longer: seq<Placed>, row: int, column: int)
    requires i < |cells| && ReadSoFar(cells, i, placed, maxRow, maxColumn)
    ensures ok <==> !TooFar(cells[i], i)
    ensures ok ==> ReadSoFar(cells, i + 1, longer, row, column)
  {
    var cell := cells[i];
    PlacedSnoc(cells, i);
    ok, longer, row, column := true, placed, maxRow, maxColumn;
    if Placeable(cell, i) {
      var r, c := RowOf(cell, i).value, ColumnOf(cell).value;
      ok := r < MAX_ROWS && c < MAX_COLUMNS;
      if ok {
        longer := placed + [Placed(r, c, TableCell(cell.text.value), cell.header)];
        assert longer[..|longer| - 1] == placed;
        row := if r > maxRow then r else maxRow;
        column := if c > maxColumn then c else maxColumn;
      }
    }
  }

  /** The loop that reads the cells. */
  method ReadCells(cells: seq<Cell>) returns (ok: bool, placed: seq<Placed>, maxRow: int, maxColumn: int)
    ensures ok <==> NoneTooFar(cells, |cells|)
    ensures ok ==> placed == PlacedCells(cells) && maxRow == MaxRow(placed) && maxColumn == MaxColumn(placed)
    ensures ok ==> maxRow < MAX_ROWS && maxColumn < MAX_COLUMNS
  {
    ok, placed, maxRow, maxColumn := true, [], -1, -1;
    var i := 0;
    while i < |cells| && ok
      invariant 0 <= i <= |cells|
      invariant ok ==> ReadSoFar(cells, i, placed, maxRow, maxColumn)
      invariant ok <==> NoneTooFar(cells, i)
    {
      ok, placed, maxRow, maxColumn := ReadCell(cells, i, placed, maxRow, maxColumn);
      i := i + 1;
    }
    if ok { assert cells[..i] == cells; }
  }

  lemma TextsSnoc(placed: seq<Placed>, i: nat, r: nat, c: nat)
    requires i < |placed|
    ensures CellAt(placed[..i + 1], r, c) ==
      if placed[i].row == r && placed[i].column == c then Merge(CellAt(placed[..i], r, c), placed[i].text)
      else CellAt(placed[..i], r, c)
  {
    assert placed[..i + 1][..i] == placed[..i];
    var before := TextsAt(placed[..i], r, c);
    if placed[i].row == r && placed[i].column == c {
      assert (before + [placed[i].text])[..|before|] == before;
    } else {
      assert before + [] == before;
    }
  }

  /** Every position of the grid shows its merged texts. */
  ghost predicate Shows(grid: array2<string>, placed: seq<Placed>)
    reads grid
  {
    forall r, c | 0 <= r < grid.Length0 && 0 <= c < grid.Length1 :: grid[r, c] == CellAt(placed, r, c)
  }

  /** One cell's text is put into, or appended to, its position. */
  method PutCell(grid: array2<string>, ghost placed: seq<Placed>, ghost i: nat, p: Placed)
    requires i < |placed| && p == placed[i] && p.row < grid.Length0 && p.column < grid.Length1
    requires Shows(grid, placed[..i])
    modifies grid
    ensures Shows(grid, placed[..i + 1])
  {
    if grid[p.row, p.column] != "" {
      grid[p.row, p.column] := grid[p.row, p.column] + (" / " + p.text);
    } else {
      grid[p.row, p.column] := p.text;
    }
    forall r, c | 0 <= r < grid.Length0 && 0 <= c < grid.Length1 ensures grid[r, c] == CellAt(placed[..i + 1], r, c) {
      TextsSnoc(placed, i, r, c);
    }
  }

  /** The loop that fills the grid. */
  method FillGrid(placed: seq<Placed>, grid: array2<string>)
    requires forall i | 0 <= i < |placed| :: placed[i].row < grid.Length0 && placed[i].column < grid.Length1
    requires forall r, c | 0 <= r < grid.Length0 && 0 <= c < grid.Length1 :: grid[r, c] == ""
    modifies grid
    ensures Shows(grid, placed)
  {
    var i := 0;
    while i < |placed|
      invariant 0 <= i <= |placed|
      invariant Shows(grid, placed[..i])
    {
      PutCell(grid, placed, i, placed[i]);
      i := i + 1;
    }
    assert placed[..i] == placed;
  }

  method HeaderRow(placed: seq<Placed>) returns (h: nat)
    ensures IsHeaderRow(placed, h)
  {
    h := 0;
    var found := false;
    var i := 0;
    while i < |placed|
      invariant 0 <= i <= |placed|
      invariant found <==> exists j :: 0 <= j < i && placed[j].header
      invariant found ==> exists j :: 0 <= j < i && placed[j].header && placed[j].row == h
      invariant found ==> forall j | 0 <= j < i && placed[j].header :: h <= placed[j].row
      invariant !found ==> h == 0
    {
      if placed[i].header {
        if !found || placed[i].row < h { h := placed[i].row; }
        found := true;
      }
      i := i + 1;
    }
  }

  /** `_table_markdown`; `cells` is None when there is no list of cells. */
  method Render(cells: Option<seq<Cell>>) returns (r: Result<string>)
    ensures cells.Some? ==> (r.Ok? <==> TableAccepted(cells.value))
    ensures cells.None? ==> r == Ok("")
    ensures r.Ok? && cells.Some? ==>
      var placed := PlacedCells(cells.value);
      if placed == [] then r.value == ""
      else exists h: nat ::
        IsHeaderRow(placed, h) && h < |Grid(placed)| && r.value == TableText.TableText(Grid(placed), h)
  {
    if cells.None? || cells.value == [] {
      return Ok("");
    }
    if |cells.value| > MAX_TABLE_CELLS {
      return Err("Docling table exceeds its cell limit");
    }
    var ok, placed, maxRow, maxColumn := ReadCells(cells.value);
    if !ok {
      return Err("Docling table dimensions exceed their limit");
    }
    if placed == [] {
      return Ok("");
    }
    MaxBounds(placed);
    var grid := new string[maxRow + 1, maxColumn + 1]((r, c) => "");
    FillGrid(placed, grid);
    var rows := seq(maxRow + 1, (r: nat) requires r < grid.Length0 reads grid =>
      seq(maxColumn + 1, (c: nat) requires r < grid.Length0 && c < grid.Length1 reads grid => grid[r, c]));
    assert rows == Grid(placed) by {
      forall r | 0 <= r < |rows| ensures rows[r] == Grid(placed)[r] {
        assert forall c | 0 <= c < |rows[r]| :: rows[r][c] == CellAt(placed, r, c) == Grid(placed)[r][c];
      }
    }
    var h := HeaderRow(placed);
    r := Ok(TableText.TableText(rows, h));
  }

  // ----- what the reader gets back

  lemma {:induction false} PlacedPrintable(cells: seq<Cell>)
    ensures forall i | 0 <= i < |PlacedCells(cells)| :: Printable(PlacedCells(cells)[i].text)
  {
    if cells != [] {
      var n := |cells| - 1;
      PlacedPrintable(cells[..n]);
      if Placeable(cells[n], n) { TableCellPrintable(cells[n].text.value); }
    }
  }

  lemma {:induction false} TextsPrintable(placed: seq<Placed>, r: nat, c: nat)
    requires forall i | 0 <= i < |placed| :: Printable(placed[i].text)
    ensures Printable(CellAt(placed, r, c))
  {
    if placed != [] {
      var n := |placed| - 1;
      TextsPrintable(placed[..n], r, c);
      TextsSnoc(placed, n, r, c);
      assert placed[..n + 1] == placed;
      PrintableSpaced(CellAt(placed[..n], r, c), " / ", placed[n].text);
    }
  }

  /** Reading the Markdown back gives the grid of the placed cells, header row first, whatever their
      texts: pipes, backslashes, blanks and truncated cells included. */
  lemma RenderRoundTrip(cells: seq<Cell>, h: nat)
    requires PlacedCells(cells) != [] && h < |Grid(PlacedCells(cells))|
    ensures var grid := Grid(PlacedCells(cells));
      ReadTable(TableText.TableText(grid, h)) == [grid[h]] + Without(grid, h)
  {
    var placed := PlacedCells(cells);
    var grid := Grid(placed);
    MaxBounds(placed);
    PlacedPrintable(cells);
    forall r | 0 <= r < |grid| ensures grid[r] != [] && PrintableRow(grid[r]) {
      forall c | 0 <= c < |grid[r]| ensures Printable(grid[r][c]) { TextsPrintable(placed, r, c); }
    }
    TableText.TableRoundTrip(grid, h);
  }
}

