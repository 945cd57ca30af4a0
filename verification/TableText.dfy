/** The Markdown table syntax of restructure.py: how a cell is escaped, how rows are printed, and the
    reader that undoes the printing. */
module TableText {
  import opened Common
  import opened Text

  const CELL_LIMIT := 16_000

  // ----- `_table_cell`

  /** `value.replace("|", "\\|")`. */
  function Escaped(s: string): string {
    if s == [] then [] else (if s[0] == '|' then ['\\', '|'] else [s[0]]) + Escaped(s[1..])
  }

  /** `value.replace("\x00", "")`. */
  function WithoutNul(s: string): string {
    if s == [] then [] else (if s[0] == 0 as char then [] else [s[0]]) + WithoutNul(s[1..])
  }

  function TableCell(value: string): string {
    var line := SingleLine(WithoutNul(Escaped(value)));
    if |line| <= CELL_LIMIT then line else line[..CELL_LIMIT]
  }

  // ----- what a cell says

  /** A backslash in front of a pipe is dropped. */
  function Unescaped(s: string): string {
    if |s| > 1 && s[0] == '\\' && s[1] == '|' then ['|'] + Unescaped(s[2..])
    else if s == [] then []
    else [s[0]] + Unescaped(s[1..])
  }

  /** What one character becomes. */
  function Escape(c: char): string {
    if c == '|' then ['\\', '|'] else [c]
  }

  lemma EscapedHead(c: char, rest: string)
    ensures Escaped([c] + rest) == Escape(c) + Escaped(rest)
  {
    assert ([c] + rest)[1..] == rest;
  }

  lemma EscapedTail(s: string)
    requires s != []
    ensures Escaped(s) == Escape(s[0]) + Escaped(s[1..])
  {
  }

  /** Escaping loses nothing, whatever backslashes the text holds. */
  lemma {:induction false} EscapeRoundTrip(s: string)
    ensures Unescaped(Escaped(s)) == s
  {
    if s != [] {
      var e := Escaped(s[1..]);
      EscapeRoundTrip(s[1..]);
      if s[0] == '|' {
        assert Escaped(s)[2..] == e;
      } else {
        assert Escaped(s)[1..] == e;
        assert e != [] ==> e[0] != '|';
      }
    }
  }

  lemma {:induction false} NulConcat(a: string, b: string)
    ensures WithoutNul(a + b) == WithoutNul(a) + WithoutNul(b)
  {
    if a == [] {
      assert a + b == b;
    } else {
      assert (a + b)[1..] == a[1..] + b;
      NulConcat(a[1..], b);
    }
  }

  lemma {:induction false} EscapedConcat(a: string, b: string)
    ensures Escaped(a + b) == Escaped(a) + Escaped(b)
  {
    if a == [] {
      assert a + b == b;
    } else {
      assert (a + b)[1..] == a[1..] + b;
      EscapedConcat(a[1..], b);
    }
  }

  lemma NulEscape(c: char)
    ensures WithoutNul(Escape(c)) == Escaped(WithoutNul([c]))
  {
    assert WithoutNul([]) == [] && Escaped([]) == [];
    assert [c][1..] == [] && ['\\', '|'][1..] == ['|'] && ['|'][1..] == [];
  }

  lemma {:induction false} EscapedWithoutNul(s: string)
    ensures WithoutNul(Escaped(s)) == Escaped(WithoutNul(s))
  {
    if s != [] {
      var c, rest := s[0], s[1..];
      EscapedWithoutNul(rest);
      EscapedTail(s);
      NulConcat(Escape(c), Escaped(rest));
      NulEscape(c);
      EscapedConcat(WithoutNul([c]), WithoutNul(rest));
      assert s == [c] + rest;
      NulConcat([c], rest);
    }
  }

  lemma {:induction false} EscapedBlank(s: string)
    ensures Blank(Escaped(s)) <==> Blank(s)
    ensures s != [] ==> Escaped(s) != [] && (IsSpace(Escaped(s)[0]) <==> IsSpace(s[0]))
  {
    if s != [] {
      EscapedBlank(s[1..]);
      var e := Escaped(s);
      if s[0] == '|' {
        assert !IsSpace(e[0]) && !IsSpace(s[0]);
      } else {
        assert e == [s[0]] + Escaped(s[1..]);
        BlankCons(s[0], s[1..]);
        BlankCons(s[0], Escaped(s[1..]));
        assert s == [s[0]] + s[1..];
      }
    }
  }

  lemma BlankCons(c: char, rest: string)
    ensures Blank([c] + rest) <==> IsSpace(c) && Blank(rest)
  {
    if Blank([c] + rest) {
      assert forall i | 0 <= i < |rest| :: rest[i] == ([c] + rest)[i + 1];
      assert ([c] + rest)[0] == c;
    }
  }

  /** The rest of a line behind a character that is no whitespace. */
  function Behind(rest: string): string {
    if rest != [] && IsSpace(rest[0]) && !Blank(rest) then " " + Squeezed(rest) else Squeezed(rest)
  }

  lemma SqueezedHead(c: char, rest: string)
    ensures Squeezed([c] + rest) == if IsSpace(c) then Squeezed(rest) else [c] + Behind(rest)
  {
    assert ([c] + rest)[1..] == rest;
    BlankCons(c, rest);
    if Blank([c] + rest) { assert Squeezed(rest) == []; }
  }

  lemma SqueezedEscape(c: char, rest: string)
    ensures Squeezed(Escape(c) + rest) == if IsSpace(c) then Squeezed(rest) else Escape(c) + Behind(rest)
  {
    if c == '|' {
      assert Escape(c) == ['\\'] + ['|'];
      Associates(['\\'], ['|'], rest);
      Associates(['\\'], ['|'], Behind(rest));
      SqueezedHead('\\', ['|'] + rest);
      SqueezedHead('|', rest);
      assert Behind(['|'] + rest) == Squeezed(['|'] + rest);
    } else {
      SqueezedHead(c, rest);
    }
  }

  lemma EscapedBehind(rest: string)
    requires Squeezed(Escaped(rest)) == Escaped(Squeezed(rest))
    ensures Behind(Escaped(rest)) == Escaped(Behind(rest))
  {
    EscapedBlank(rest);
    EscapedHead(' ', Squeezed(rest));
    assert Escape(' ') == " ";
  }

  /** Cleaning the whitespace and escaping the pipes do not depend on their order. */
  lemma {:induction false} EscapedSqueezed(s: string)
    ensures Squeezed(Escaped(s)) == Escaped(Squeezed(s))
  {
    if s != [] {
      var c, rest := s[0], s[1..];
      EscapedSqueezed(rest);
      EscapedBehind(rest);
      EscapedTail(s);
      SqueezedEscape(c, Escaped(rest));
      assert s == [c] + rest;
      SqueezedHead(c, rest);
      EscapedHead(c, Behind(rest));
    }
  }

  /** A cell is the cleaned text with its pipes escaped, cut at the limit; what it says, its escapes
      undone, is the text on one line without NUL characters. */
  lemma CellMeaning(value: string)
    ensures var clean := Squeezed(WithoutNul(value));
      && TableCell(value) == (if |Escaped(clean)| <= CELL_LIMIT then Escaped(clean) else Escaped(clean)[..CELL_LIMIT])
      && (|Escaped(clean)| <= CELL_LIMIT ==> Unescaped(TableCell(value)) == clean)
  {
    EscapedWithoutNul(value);
    SingleLineMeaning(Escaped(WithoutNul(value)));
    EscapedSqueezed(WithoutNul(value));
    EscapeRoundTrip(Squeezed(WithoutNul(value)));
  }

  /** Every pipe is preceded by a backslash; `escaped` says whether the text before ended in one. */
  predicate Guarded(s: string, escaped: bool) {
    s == [] || ((s[0] == '|' ==> escaped) && Guarded(s[1..], s[0] == '\\'))
  }

  function EndsEscaped(s: string, escaped: bool): bool {
    if s == [] then escaped else s[|s| - 1] == '\\'
  }

  lemma {:induction false} GuardedConcat(a: string, b: string, escaped: bool)
    ensures Guarded(a + b, escaped) <==> Guarded(a, escaped) && Guarded(b, EndsEscaped(a, escaped))
  {
    if a == [] {
      assert a + b == b;
    } else {
      assert (a + b)[1..] == a[1..] + b;
      GuardedConcat(a[1..], b, a[0] == '\\');
    }
  }

  lemma {:induction false} EscapedGuarded(s: string, escaped: bool)
    ensures Guarded(Escaped(s), escaped)
  {
    if s != [] {
      if s[0] == '|' {
        EscapedGuarded(s[1..], false);
        assert Escaped(s)[1..] == ['|'] + Escaped(s[1..]);
        assert Escaped(s)[1..][1..] == Escaped(s[1..]);
      } else {
        EscapedGuarded(s[1..], s[0] == '\\');
        assert Escaped(s)[1..] == Escaped(s[1..]);
      }
    }
  }

  lemma {:induction false} GuardedWeakens(s: string)
    requires Guarded(s, false)
    ensures Guarded(s, true)
  {
  }

  lemma {:induction false} WithoutNulGuarded(s: string, escaped: bool)
    requires Guarded(s, escaped)
    ensures Guarded(WithoutNul(s), escaped)
  {
    if s != [] {
      WithoutNulGuarded(s[1..], s[0] == '\\');
      if s[0] == 0 as char {
        assert WithoutNul(s) == WithoutNul(s[1..]);
        if escaped { GuardedWeakens(WithoutNul(s[1..])); }
      } else {
        assert WithoutNul(s)[1..] == WithoutNul(s[1..]);
      }
    }
  }

  lemma {:induction false} WordsGuarded(s: string, escaped: bool)
    requires Guarded(s, escaped) && (escaped ==> s == [] || IsSpace(s[0]))
    ensures forall i | 0 <= i < |Words(s)| :: Guarded(Words(s)[i], false)
  {
    if s == [] {
    } else if IsSpace(s[0]) {
      WordsGuarded(s[1..], false);
    } else {
      var n := WordLength(s);
      assert s == s[..n] + s[n..];
      GuardedConcat(s[..n], s[n..], escaped);
      WordsGuarded(s[n..], EndsEscaped(s[..n], escaped));
    }
  }

  /** A cell that cannot break its row: guarded pipes and no line break. */
  ghost predicate Printable(s: string) {
    Guarded(s, false) && forall i | 0 <= i < |s| :: s[i] != '\n'
  }

  lemma PrintableSpaced(a: string, separator: string, b: string)
    requires Printable(a) && Printable(b) && (separator == " " || separator == " / ")
    ensures Printable(a + (separator + b))
  {
    GuardedSeparator(separator, EndsEscaped(a, false));
    GuardedConcat(separator, b, EndsEscaped(a, false));
    GuardedConcat(a, separator + b, false);
  }

  lemma GuardedSeparator(separator: string, escaped: bool)
    requires separator == " " || separator == " / "
    ensures Guarded(separator, escaped) && !EndsEscaped(separator, escaped)
  {
  }

  lemma {:induction false} JoinPrintable(parts: seq<string>)
    requires forall i | 0 <= i < |parts| :: Printable(parts[i])
    ensures Printable(Join(parts, " "))
  {
    if |parts| > 1 {
      JoinPrintable(parts[1..]);
      PrintableSpaced(parts[0], " ", Join(parts[1..], " "));
    }
  }

  lemma PrefixPrintable(s: string, n: nat)
    requires Printable(s) && n <= |s|
    ensures Printable(s[..n])
  {
    assert s == s[..n] + s[n..];
    GuardedConcat(s[..n], s[n..], false);
  }

  lemma WordPrintable(w: string)
    requires IsWord(w) && Guarded(w, false)
    ensures Printable(w)
  {
  }

  /** Whatever the cell says, its text cannot split its row or its line. */
  lemma TableCellPrintable(value: string)
    ensures Printable(TableCell(value)) && |TableCell(value)| <= CELL_LIMIT
  {
    var s := WithoutNul(Escaped(value));
    EscapedGuarded(value, false);
    WithoutNulGuarded(Escaped(value), false);
    WordsGuarded(s, false);
    var words := Words(s);
    forall i | 0 <= i < |words| ensures Printable(words[i]) { WordPrintable(words[i]); }
    JoinPrintable(words);
    var line := SingleLine(s);
    if |line| > CELL_LIMIT { PrefixPrintable(line, CELL_LIMIT); }
  }

  // ----- printing

  /** `"| " + " | ".join(row) + " |"`. */
  function RowText(row: seq<string>): string {
    "| " + Join(row, " | ") + " |"
  }

  function Dashes(n: nat): seq<string> {
    seq(n, i => "---")
  }

  /** The grid's rows without the header's. */
  function Without(grid: seq<seq<string>>, h: nat): seq<seq<string>>
    requires h < |grid|
  {
    grid[..h] + grid[h + 1..]
  }

  function Lines(grid: seq<seq<string>>, h: nat): seq<string>
    requires h < |grid|
  {
    [RowText(grid[h]), RowText(Dashes(|grid[h]|))] + Map(Without(grid, h), (row: seq<string>) => RowText(row))
  }

  function TableText(grid: seq<seq<string>>, h: nat): string
    requires h < |grid|
  {
    Join(Lines(grid, h), "\n")
  }

  // ----- reading back

  /** Splits at the pipes that no backslash precedes. */
  function SplitPipes(s: string, escaped: bool): (r: seq<string>)
    ensures r != []
  {
    if s == [] then [""]
    else if s[0] == '|' && !escaped then [""] + SplitPipes(s[1..], false)
    else
      var rest := SplitPipes(s[1..], s[0] == '\\');
      [[s[0]] + rest[0]] + rest[1..]
  }

  function SplitLines(s: string): (r: seq<string>)
    ensures r != []
  {
    if s == [] then [""]
    else if s[0] == '\n' then [""] + SplitLines(s[1..])
    else
      var rest := SplitLines(s[1..]);
      [[s[0]] + rest[0]] + rest[1..]
  }

  /** One space off each side. */
  function Unpadded(piece: string): string {
    if |piece| < 2 then piece else piece[1..|piece| - 1]
  }

  function Unpadding(): string -> string {
    (piece: string) => Unpadded(piece)
  }

  /** The cells of one printed row: what stands between the splitting pipes. */
  function ReadRow(line: string): seq<string> {
    var pieces := SplitPipes(line, false);
    if |pieces| < 2 then [] else Map(pieces[1..|pieces| - 1], Unpadding())
  }

  function ReadingRow(): string -> seq<string> {
    (line: string) => ReadRow(line)
  }

  /** The header row and then, past the divider, the other rows. */
  function ReadTable(text: string): seq<seq<string>> {
    var lines := SplitLines(text);
    [ReadRow(lines[0])] + if |lines| < 2 then [] else Map(lines[2..], ReadingRow())
  }

  lemma {:induction false} SplitGuarded(a: string, b: string, escaped: bool)
    requires Guarded(a, escaped) && !EndsEscaped(a, escaped)
    ensures SplitPipes(a + ("|" + b), escaped) == [a] + SplitPipes(b, false)
  {
    var s := a + ("|" + b);
    if a == [] {
      assert s == "|" + b && s[1..] == b;
    } else {
      assert s[0] == a[0] && s[1..] == a[1..] + ("|" + b);
      SplitGuarded(a[1..], b, a[0] == '\\');
      assert [a[0]] + a[1..] == a && ([a[1..]] + SplitPipes(b, false))[1..] == SplitPipes(b, false);
    }
  }

  /** What follows the first pipe of a printed row. */
  function Cells(row: seq<string>): string {
    if row == [] then "" else (" " + row[0] + " ") + ("|" + Cells(row[1..]))
  }

  /** One more cell in front of a printed rest. */
  lemma CellBefore(cell: string, tail: string)
    ensures " " + (cell + (" | " + tail)) + " |" == (" " + cell + " ") + ("|" + (" " + tail + " |"))
  {
    var rest := " " + tail;
    assert " | " == " " + ("|" + " ");
    Associates(" ", "|" + " ", tail);
    Associates("|", " ", tail);
    Associates(cell, " ", "|" + rest);
    Associates(" ", cell + " ", "|" + rest);
    Associates(" ", cell, " ");
    Associates(" " + cell + " ", "|" + rest, " |");
    Associates("|", rest, " |");
  }

  lemma {:induction false} CellsMeaning(row: seq<string>)
    requires row != []
    ensures " " + Join(row, " | ") + " |" == Cells(row)
  {
    if |row| == 1 {
      assert Cells(row[1..]) == "" && " |" == " " + "|" && "|" + "" == "|";
      Associates(" " + row[0], " ", "|");
    } else {
      CellsMeaning(row[1..]);
      CellBefore(row[0], Join(row[1..], " | "));
    }
  }

  lemma RowIsCells(row: seq<string>)
    requires row != []
    ensures RowText(row) == "|" + Cells(row)
  {
    CellsMeaning(row);
    assert "| " == "|" + " ";
    Associates("|", " ", Join(row, " | "));
    Associates("|", " " + Join(row, " | "), " |");
  }

  ghost predicate PrintableRow(row: seq<string>) {
    forall i | 0 <= i < |row| :: Printable(row[i])
  }

  lemma PaddedGuarded(cell: string)
    requires Printable(cell)
    ensures var piece := " " + cell + " ";
      Guarded(piece, false) && !EndsEscaped(piece, false) && Unpadded(piece) == cell
  {
    var piece := " " + cell + " ";
    GuardedSeparator(" ", false);
    GuardedConcat(" ", cell, false);
    GuardedSeparator(" ", EndsEscaped(" " + cell, false));
    GuardedConcat(" " + cell, " ", false);
    assert piece[1..|piece| - 1] == cell;
  }

  function Padded(row: seq<string>): seq<string> {
    Map(row, (cell: string) => " " + cell + " ")
  }

  lemma {:induction false} SplitCells(row: seq<string>)
    requires PrintableRow(row)
    ensures SplitPipes(Cells(row), false) == Padded(row) + [""]
  {
    if row != [] {
      PaddedGuarded(row[0]);
      SplitGuarded(" " + row[0] + " ", Cells(row[1..]), false);
      SplitCells(row[1..]);
      assert Padded(row) == [" " + row[0] + " "] + Padded(row[1..]);
    }
  }

  lemma UnpaddedRow(row: seq<string>)
    requires PrintableRow(row)
    ensures Map(Padded(row), Unpadding()) == row
  {
  }

  lemma SplitRow(row: seq<string>)
    requires row != [] && PrintableRow(row)
    ensures SplitPipes(RowText(row), false) == [""] + (Padded(row) + [""])
  {
    RowIsCells(row);
    SplitGuarded("", Cells(row), false);
    assert "" + ("|" + Cells(row)) == RowText(row);
    SplitCells(row);
  }

  /** Reading a printed row gives its cells back. */
  lemma RowRoundTrip(row: seq<string>)
    requires row != [] && PrintableRow(row)
    ensures ReadRow(RowText(row)) == row
  {
    SplitRow(row);
    var pieces := [""] + (Padded(row) + [""]);
    assert pieces[1..|pieces| - 1] == Padded(row);
    UnpaddedRow(row);
  }

  ghost predicate OneLine(s: string) {
    forall i | 0 <= i < |s| :: s[i] != '\n'
  }

  lemma {:induction false} SplitFirstLine(a: string, b: string)
    requires OneLine(a)
    ensures SplitLines(a + ("\n" + b)) == [a] + SplitLines(b)
  {
    var s := a + ("\n" + b);
    if a == [] {
      assert s == "\n" + b && s[1..] == b;
    } else {
      assert s[0] == a[0] && s[1..] == a[1..] + ("\n" + b);
      SplitFirstLine(a[1..], b);
      assert [a[0]] + a[1..] == a && ([a[1..]] + SplitLines(b))[1..] == SplitLines(b);
    }
  }

  lemma {:induction false} SplitOneLine(a: string)
    requires OneLine(a)
    ensures SplitLines(a) == [a]
  {
    if a != [] {
      SplitOneLine(a[1..]);
      assert [a[0]] + a[1..] == a;
    }
  }

  lemma {:induction false} LinesRoundTrip(lines: seq<string>)
    requires lines != [] && forall i | 0 <= i < |lines| :: OneLine(lines[i])
    ensures SplitLines(Join(lines, "\n")) == lines
  {
    if |lines| == 1 {
      SplitOneLine(lines[0]);
    } else {
      LinesRoundTrip(lines[1..]);
      SplitFirstLine(lines[0], Join(lines[1..], "\n"));
      assert lines == [lines[0]] + lines[1..];
    }
  }

  lemma {:induction false} CellsOneLine(row: seq<string>)
    requires PrintableRow(row)
    ensures OneLine(Cells(row))
  {
    if row != [] { CellsOneLine(row[1..]); }
  }

  lemma RowOneLine(row: seq<string>)
    requires row != [] && PrintableRow(row)
    ensures OneLine(RowText(row))
  {
    RowIsCells(row);
    CellsOneLine(row);
  }

  lemma DashesPrintable(n: nat)
    ensures PrintableRow(Dashes(n))
  {
  }

  /** A rectangular grid of printable cells with at least one column. */
  ghost predicate PrintableGrid(grid: seq<seq<string>>) {
    forall r | 0 <= r < |grid| :: grid[r] != [] && PrintableRow(grid[r])
  }

  /** Reading a printed table gives the same grid back, header row first. */
  lemma TableRoundTrip(grid: seq<seq<string>>, h: nat)
    requires h < |grid| && PrintableGrid(grid)
    ensures ReadTable(TableText(grid, h)) == [grid[h]] + Without(grid, h)
  {
    LinesPrintable(grid, h);
    LinesRoundTrip(Lines(grid, h));
    RowRoundTrip(grid[h]);
    BodyRoundTrip(grid, h);
  }

  lemma LinesPrintable(grid: seq<seq<string>>, h: nat)
    requires h < |grid| && PrintableGrid(grid)
    ensures forall i | 0 <= i < |Lines(grid, h)| :: OneLine(Lines(grid, h)[i])
  {
    var lines := Lines(grid, h);
    DashesPrintable(|grid[h]|);
    forall i | 0 <= i < |lines| ensures OneLine(lines[i]) {
      if i == 0 {
        RowOneLine(grid[h]);
      } else if i == 1 {
        RowOneLine(Dashes(|grid[h]|));
      } else {
        RowOneLine(Without(grid, h)[i - 2]);
      }
    }
  }

  lemma BodyRoundTrip(grid: seq<seq<string>>, h: nat)
    requires h < |grid| && PrintableGrid(grid)
    ensures Map(Lines(grid, h)[2..], ReadingRow()) == Without(grid, h)
  {
    var lines := Lines(grid, h);
    var body := Without(grid, h);
    var read := Map(lines[2..], ReadingRow());
    assert |read| == |body|;
    forall i | 0 <= i < |body| ensures read[i] == body[i] {
      assert lines[2..][i] == RowText(body[i]);
      RowRoundTrip(body[i]);
    }
  }
}
