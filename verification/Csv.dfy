/**
 The CSV export of the audit log and the CSV reader of the chart viewer. Reading an
 export gives its rows and cells back, changed only by the apostrophe that keeps
 spreadsheets from running a cell as a formula, except that rows of empty cells go.
 */
module Csv {
  import opened Joining

  type Row = seq<string>
  type Grid = seq<Row>

  // ----- Printing -------------------------------------------------------------------

  predicate StartsFormula(s: string) {
    s != "" && s[0] in "=+-@\t\r"
  }

  predicate Special(c: char) {
    c == '\"' || c == ',' || c == '\n' || c == '\r'
  }

  predicate NeedsQuotes(s: string) {
    exists i :: 0 <= i < |s| && Special(s[i])
  }

  function Guard(s: string): string {
    if StartsFormula(s) then "'" + s else s
  }

  function DoubleQuotes(s: string): string {
    if s == "" then "" else (if s[0] == '\"' then "\"\"" else [s[0]]) + DoubleQuotes(s[1..])
  }

  function Escape(s: string): string {
    var g := Guard(s);
    if NeedsQuotes(g) then "\"" + (DoubleQuotes(g) + "\"") else g
  }

  function EscapeAll(row: Row): (texts: seq<string>)
    ensures |texts| == |row| && forall i :: 0 <= i < |row| ==> texts[i] == Escape(row[i])
  {
    seq(|row|, i requires 0 <= i < |row| => Escape(row[i]))
  }

  function RowText(row: Row): string {
    Join(EscapeAll(row), ",")
  }

  function RowTexts(grid: Grid): (texts: seq<string>)
    ensures |texts| == |grid| && forall i :: 0 <= i < |grid| ==> texts[i] == RowText(grid[i])
  {
    if grid == [] then [] else [RowText(grid[0])] + RowTexts(grid[1..])
  }

  function GridText(grid: Grid): string {
    Join(RowTexts(grid), "\n")
  }

  // ----- Reading --------------------------------------------------------------------

  /** The reader's variables. */
  datatype Reader = Reader(rows: Grid, row: Row, field: string, inQuotes: bool)

  const START := Reader([], [], "", false)

  predicate Blank(row: Row) {
    forall i :: 0 <= i < |row| ==> row[i] == ""
  }

  function EndField(r: Reader): Reader {
    r.(row := r.row + [r.field], field := "")
  }

  function EndRow(r: Reader): Reader {
    var row := r.row + [r.field];
    r.(rows := if Blank(row) then r.rows else r.rows + [row], row := [], field := "")
  }

  /** How much of the text one turn of the loop takes. */
  function Taken(s: string, inQuotes: bool): (n: nat)
    requires s != ""
    ensures 1 <= n <= |s|
  {
    if |s| > 1 && ((inQuotes && s[0] == '\"' && s[1] == '\"') || (!inQuotes && s[0] == '\r' && s[1] == '\n')) then 2 else 1
  }

  function Turn(s: string, r: Reader): Reader
    requires s != ""
  {
    if r.inQuotes then
      if s[0] == '\"' && Taken(s, true) == 1 then r.(inQuotes := false) else r.(field := r.field + [s[0]])
    else if s[0] == '\"' then r.(inQuotes := true)
    else if s[0] == ',' then EndField(r)
    else if s[0] == '\n' || s[0] == '\r' then EndRow(r)
    else r.(field := r.field + [s[0]])
  }

  function Scan(s: string, r: Reader): Reader
    decreases |s|
  {
    if s == "" then r else Scan(s[Taken(s, r.inQuotes)..], Turn(s, r))
  }

  function Finish(r: Reader): Grid {
    if r.field != "" || r.row != [] then EndRow(r).rows else r.rows
  }

  function Parsed(text: string): Grid {
    Finish(Scan(text, START))
  }

  method HasText(row: Row) returns (some: bool)
    ensures some <==> !Blank(row)
  {
    for i := 0 to |row|
      invariant forall k :: 0 <= k < i ==> row[k] == ""
    {
      if row[i] != "" {
        return true;
      }
    }
    return false;
  }

  method ParseCsv(text: string) returns (rows: Grid)
    ensures rows == Parsed(text)
  {
    rows := [];
    var field: string, row: Row, inQuotes := "", [], false;
    var i := 0;
    while i < |text|
      invariant i <= |text|
      invariant Scan(text, START) == Scan(text[i..], Reader(rows, row, field, inQuotes))
      decreases |text| - i
    {
      var ch := text[i];
      ghost var s := text[i..];
      ghost var before := Reader(rows, row, field, inQuotes);
      ghost var at := i;
      if inQuotes {
        if ch == '\"' {
          if i + 1 < |text| && text[i + 1] == '\"' {
            field := field + "\"";
            i := i + 1;
          } else {
            inQuotes := false;
          }
        } else {
          field := field + [ch];
        }
      } else if ch == '\"' {
        inQuotes := true;
      } else if ch == ',' {
        row := row + [field];
        field := "";
      } else if ch == '\n' || ch == '\r' {
        if ch == '\r' && i + 1 < |text| && text[i + 1] == '\n' {
          i := i + 1;
        }
        row := row + [field];
        field := "";
        var some := HasText(row);
        if some {
          rows := rows + [row];
        }
        row := [];
      } else {
        field := field + [ch];
      }
      i := i + 1;
      assert Reader(rows, row, field, inQuotes) == Turn(s, before);
      assert text[i..] == s[Taken(s, before.inQuotes)..];
    }
    assert text[i..] == "";
    if field != "" || row != [] {
      row := row + [field];
      var some := HasText(row);
      if some {
        rows := rows + [row];
      }
    }
  }

  // ----- Reading what was printed ------------------------------------------------------

  function GuardAll(row: Row): (r: Row)
    ensures |r| == |row| && forall i :: 0 <= i < |row| ==> r[i] == Guard(row[i])
  {
    seq(|row|, i requires 0 <= i < |row| => Guard(row[i]))
  }

  function GuardGrid(grid: Grid): (g: Grid)
    ensures |g| == |grid| && forall i :: 0 <= i < |grid| ==> g[i] == GuardAll(grid[i])
  {
    seq(|grid|, i requires 0 <= i < |grid| => GuardAll(grid[i]))
  }

  /** The rows with something in them. */
  function NonBlank(grid: Grid): Grid {
    if grid == [] then [] else (if Blank(grid[0]) then [] else [grid[0]]) + NonBlank(grid[1..])
  }

  /** What can follow a cell. */
  predicate EndsCell(s: string) {
    s == "" || s[0] == ',' || s[0] == '\n'
  }

  lemma ScanStep(c: char, s: string, r: Reader)
    requires s == "" || !(r.inQuotes && c == '\"' && s[0] == '\"')
    requires s == "" || !(!r.inQuotes && c == '\r' && s[0] == '\n')
    ensures Taken([c] + s, r.inQuotes) == 1 && Scan([c] + s, r) == Scan(s, Turn([c] + s, r))
  {
    assert ([c] + s)[1..] == s;
  }

  lemma MoveFirst(f: string, w: string)
    requires w != ""
    ensures (f + [w[0]]) + w[1..] == f + w
  {
  }

  lemma {:induction false} ScanPlain(w: string, s: string, r: Reader)
    requires !NeedsQuotes(w) && !r.inQuotes
    ensures Scan(w + s, r) == Scan(s, r.(field := r.field + w))
    decreases |w|
  {
    if w == "" {
      assert w + s == s && r.field + w == r.field;
    } else {
      assert !Special(w[0]);
      assert w + s == [w[0]] + (w[1..] + s);
      ScanStep(w[0], w[1..] + s, r);
      assert !NeedsQuotes(w[1..]) by {
        assert forall i :: 0 <= i < |w[1..]| ==> w[1..][i] == w[i + 1];
      }
      var r' := r.(field := r.field + [w[0]]);
      ScanPlain(w[1..], s, r');
      MoveFirst(r.field, w);
    }
  }

  lemma ScanQuotedChar(c: char, s: string, r: Reader)
    requires r.inQuotes
    ensures Scan((if c == '\"' then "\"\"" else [c]) + s, r) == Scan(s, r.(field := r.field + [c]))
  {
    if c == '\"' {
      assert ("\"\"" + s)[2..] == s;
    } else {
      ScanStep(c, s, r);
    }
  }

  lemma QuotedText(w: string, s: string)
    requires w != ""
    ensures DoubleQuotes(w) + s == (if w[0] == '\"' then "\"\"" else [w[0]]) + (DoubleQuotes(w[1..]) + s)
  {
  }

  lemma {:induction false} ScanQuoted(w: string, s: string, r: Reader)
    requires r.inQuotes
    ensures Scan(DoubleQuotes(w) + s, r) == Scan(s, r.(field := r.field + w))
    decreases |w|
  {
    if w == "" {
      assert DoubleQuotes(w) + s == s && r.field + w == r.field;
    } else {
      QuotedText(w, s);
      var rest := DoubleQuotes(w[1..]) + s;
      ScanQuotedChar(w[0], rest, r);
      ScanQuoted(w[1..], s, r.(field := r.field + [w[0]]));
      MoveFirst(r.field, w);
    }
  }

  lemma ScanCell(c: string, s: string, r: Reader)
    requires !r.inQuotes && r.field == "" && EndsCell(s)
    ensures Scan(Escape(c) + s, r) == Scan(s, r.(field := Guard(c)))
  {
    var g := Guard(c);
    assert "" + g == g;
    if NeedsQuotes(g) {
      var rest := DoubleQuotes(g) + ("\"" + s);
      assert Escape(c) + s == "\"" + rest;
      ScanStep('\"', rest, r);
      ScanQuoted(g, "\"" + s, r.(inQuotes := true));
      ScanStep('\"', s, r.(inQuotes := true, field := g));
    } else {
      ScanPlain(g, s, r);
    }
  }

  lemma RowTextStep(row: Row, s: string)
    requires |row| > 1
    ensures RowText(row) + s == Escape(row[0]) + ("," + (RowText(row[1..]) + s))
  {
    assert EscapeAll(row)[1..] == EscapeAll(row[1..]);
  }

  /** The reader after a row's text: all cells read, the last one still open. */
  function AfterRow(row: Row, r: Reader): Reader
    requires row != []
  {
    r.(row := r.row + GuardAll(row[..|row| - 1]), field := Guard(row[|row| - 1]))
  }

  lemma AfterRowStep(row: Row, r: Reader)
    requires |row| > 1 && r.field == ""
    ensures AfterRow(row[1..], EndField(r.(field := Guard(row[0])))) == AfterRow(row, r)
  {
    var init := row[..|row| - 1];
    assert row[1..][..|row| - 2] == init[1..];
    assert r.row + [Guard(row[0])] + GuardAll(init[1..]) == r.row + GuardAll(init);
  }

  lemma {:induction false} ScanRow(row: Row, s: string, r: Reader)
    requires row != [] && !r.inQuotes && r.field == "" && (s == "" || s[0] == '\n')
    ensures Scan(RowText(row) + s, r) == Scan(s, AfterRow(row, r))
    decreases |row|
  {
    if |row| == 1 {
      assert RowText(row) == Escape(row[0]);
      ScanCell(row[0], s, r);
      assert r.row + GuardAll([]) == r.row;
    } else {
      var rest := RowText(row[1..]) + s;
      RowTextStep(row, s);
      ScanCell(row[0], "," + rest, r);
      ScanStep(',', rest, r.(field := Guard(row[0])));
      ScanRow(row[1..], s, EndField(r.(field := Guard(row[0]))));
      AfterRowStep(row, r);
    }
  }

  /** The reader between two rows. */
  predicate AtRow(r: Reader) {
    !r.inQuotes && r.field == "" && r.row == []
  }

  function AddRow(row: Row, r: Reader): Reader {
    if Blank(row) then r else r.(rows := r.rows + [row])
  }

  lemma AfterRowIs(row: Row, r: Reader)
    requires AtRow(r) && row != []
    ensures AfterRow(row, r).row + [AfterRow(row, r).field] == GuardAll(row)
    ensures AfterRow(row, r).rows == r.rows && !AfterRow(row, r).inQuotes
  {
    assert row == row[..|row| - 1] + [row[|row| - 1]];
  }

  lemma RowCloses(row: Row, r: Reader)
    requires AtRow(r) && row != []
    ensures EndRow(AfterRow(row, r)) == AddRow(GuardAll(row), r)
    ensures Finish(AfterRow(row, r)) == AddRow(GuardAll(row), r).rows
  {
    AfterRowIs(row, r);
    var a := AfterRow(row, r);
    if a.field == "" && a.row == [] {
      assert GuardAll(row) == [""];
    }
  }

  lemma EndOfLine(s: string, r: Reader)
    requires !r.inQuotes
    ensures Scan("\n" + s, r) == Scan(s, EndRow(r))
  {
    ScanStep('\n', s, r);
  }

  lemma ScanLine(row: Row, s: string, r: Reader)
    requires AtRow(r)
    ensures Scan(RowText(row) + ("\n" + s), r) == Scan(s, AddRow(GuardAll(row), r))
  {
    if row == [] {
      assert RowText(row) + ("\n" + s) == "\n" + s;
      EndOfLine(s, r);
    } else {
      ScanRow(row, "\n" + s, r);
      EndOfLine(s, AfterRow(row, r));
      RowCloses(row, r);
    }
  }

  lemma LastLine(row: Row, r: Reader)
    requires AtRow(r)
    ensures Finish(Scan(RowText(row), r)) == AddRow(GuardAll(row), r).rows
  {
    if row != [] {
      var s := "";
      ScanRow(row, s, r);
      assert RowText(row) + s == RowText(row);
      RowCloses(row, r);
    }
  }

  lemma GridTextStep(grid: Grid)
    requires |grid| > 1
    ensures GridText(grid) == RowText(grid[0]) + ("\n" + GridText(grid[1..]))
  {
    assert RowTexts(grid)[1..] == RowTexts(grid[1..]);
  }

  lemma NonBlankStep(grid: Grid, r: Reader)
    requires grid != []
    ensures AddRow(GuardAll(grid[0]), r).rows + NonBlank(GuardGrid(grid[1..])) == r.rows + NonBlank(GuardGrid(grid))
  {
    assert GuardGrid(grid)[1..] == GuardGrid(grid[1..]);
  }

  lemma {:induction false} ScanGrid(grid: Grid, r: Reader)
    requires AtRow(r)
    ensures Finish(Scan(GridText(grid), r)) == r.rows + NonBlank(GuardGrid(grid))
    decreases |grid|
  {
    if grid != [] {
      NonBlankStep(grid, r);
    }
    if |grid| == 1 {
      LastLine(grid[0], r);
      assert NonBlank(GuardGrid(grid[1..])) == [];
    } else if |grid| > 1 {
      GridTextStep(grid);
      ScanLine(grid[0], GridText(grid[1..]), r);
      ScanGrid(grid[1..], AddRow(GuardAll(grid[0]), r));
    }
  }

  /** Reading a printed grid gives its rows with guarded cells, rows of empty cells left out. */
  lemma ParsePrint(grid: Grid)
    ensures Parsed(GridText(grid)) == NonBlank(GuardGrid(grid))
  {
    ScanGrid(grid, START);
  }

  lemma {:induction false} NonBlankIsAll(grid: Grid)
    ensures |NonBlank(grid)| <= |grid|
    ensures NonBlank(grid) == grid <==> forall i :: 0 <= i < |grid| ==> !Blank(grid[i])
  {
    if grid != [] {
      NonBlankIsAll(grid[1..]);
      assert grid == [grid[0]] + grid[1..];
      assert (forall i :: 0 <= i < |grid| ==> !Blank(grid[i]))
        <==> !Blank(grid[0]) && forall i :: 0 <= i < |grid[1..]| ==> !Blank(grid[1..][i]);
    }
  }

  lemma GuardKeepsBlank(row: Row)
    ensures Blank(GuardAll(row)) <==> Blank(row)
  {
    forall i | 0 <= i < |row|
      ensures GuardAll(row)[i] == "" <==> row[i] == ""
    {
    }
  }

  /** Every row comes back exactly when every row has a cell with something in it. */
  lemma AllRowsReadBackExactly(grid: Grid)
    ensures Parsed(GridText(grid)) == GuardGrid(grid) <==> forall i :: 0 <= i < |grid| ==> !Blank(grid[i])
  {
    ParsePrint(grid);
    NonBlankIsAll(GuardGrid(grid));
    forall i | 0 <= i < |grid|
      ensures Blank(GuardGrid(grid)[i]) <==> Blank(grid[i])
    {
      GuardKeepsBlank(grid[i]);
    }
  }

  lemma {:induction false} NonBlankRows(grid: Grid, row: Row)
    ensures row in NonBlank(grid) ==> row in grid
  {
    if grid != [] {
      NonBlankRows(grid[1..], row);
    }
  }

  /** No cell of a printed grid reads as a formula. */
  lemma NoCellIsAFormula(grid: Grid, row: Row, i: nat)
    requires row in Parsed(GridText(grid)) && i < |row|
    ensures !StartsFormula(row[i])
  {
    ParsePrint(grid);
    NonBlankRows(GuardGrid(grid), row);
  }

  /** Two cells get the same guarded text exactly if they are equal or one is the other, a formula, with an apostrophe before it. */
  lemma GuardCollidesExactly(a: string, b: string)
    ensures Guard(a) == Guard(b) <==> a == b || (StartsFormula(a) && b == "'" + a) || (StartsFormula(b) && a == "'" + b)
  {
    if StartsFormula(a) && StartsFormula(b) && "'" + a == "'" + b {
      assert a == ("'" + a)[1..] && b == ("'" + b)[1..];
    }
    assert StartsFormula(a) ==> !StartsFormula("'" + a);
    assert StartsFormula(b) ==> !StartsFormula("'" + b);
  }

  lemma GuardKeepsExactly(row: Row)
    ensures GuardAll(row) == row <==> forall i :: 0 <= i < |row| ==> !StartsFormula(row[i])
  {
    forall i | 0 <= i < |row|
      ensures Guard(row[i]) == row[i] <==> !StartsFormula(row[i])
    {
      assert |"'" + row[i]| == |row[i]| + 1;
    }
    if GuardAll(row) == row {
      assert forall i :: 0 <= i < |row| ==> GuardAll(row)[i] == row[i];
    }
  }

  /** No cell of the grid looks like a formula. */
  ghost predicate NoFormulas(grid: Grid) {
    forall i, k :: 0 <= i < |grid| && 0 <= k < |grid[i]| ==> !StartsFormula(grid[i][k])
  }

  lemma GuardGridKeepsExactly(grid: Grid)
    ensures GuardGrid(grid) == grid <==> NoFormulas(grid)
  {
    forall i | 0 <= i < |grid|
      ensures GuardAll(grid[i]) == grid[i] <==> forall k :: 0 <= k < |grid[i]| ==> !StartsFormula(grid[i][k])
    {
      GuardKeepsExactly(grid[i]);
    }
    if GuardGrid(grid) == grid {
      assert forall i :: 0 <= i < |grid| ==> GuardGrid(grid)[i] == grid[i];
    }
  }

  /** A grid reads back as itself exactly when no row is blank and no cell starts like a formula. */
  lemma GridReadsBackExactly(grid: Grid)
    ensures Parsed(GridText(grid)) == grid <==> (forall i :: 0 <= i < |grid| ==> !Blank(grid[i])) && NoFormulas(grid)
  {
    ParsePrint(grid);
    AllRowsReadBackExactly(grid);
    GuardGridKeepsExactly(grid);
    NonBlankIsAll(GuardGrid(grid));
    if Parsed(GridText(grid)) == grid {
      assert |NonBlank(GuardGrid(grid))| == |GuardGrid(grid)|;
      NonBlankFull(GuardGrid(grid));
    }
  }

  lemma {:induction false} NonBlankFull(grid: Grid)
    requires |NonBlank(grid)| == |grid|
    ensures NonBlank(grid) == grid
  {
    if grid != [] {
      NonBlankIsAll(grid[1..]);
      NonBlankFull(grid[1..]);
      assert grid == [grid[0]] + grid[1..];
    }
  }

  /** Such a collision in an export: a formula and the same text entered with an apostrophe. */
  lemma GuardIsAmbiguous(formula: string)
    requires StartsFormula(formula)
    ensures GridText([[formula]]) == GridText([["'" + formula]])
  {
    var a, b := formula, "'" + formula;
    GuardCollidesExactly(a, b);
    assert EscapeAll([a]) == EscapeAll([b]);
    assert RowTexts([[a]]) == RowTexts([[b]]);
  }

  // ----- The export ---------------------------------------------------------------------

  const CSV_COLUMNS: Row := [
    "id", "occurred_at", "actor_type", "actor_username", "actor_ref", "action_code",
    "resource_type_code", "resource_id", "result", "correlation_id", "error_code"
  ]

  /** A row of the audit log by column; a missing column is null. */
  type Record = map<string, string>

  function CellOf(r: Record, column: string): string {
    if column in r then r[column] else ""
  }

  function Cells(r: Record): (row: Row)
    ensures |row| == |CSV_COLUMNS| && forall i :: 0 <= i < |row| ==> row[i] == CellOf(r, CSV_COLUMNS[i])
  {
    seq(|CSV_COLUMNS|, i requires 0 <= i < |CSV_COLUMNS| => CellOf(r, CSV_COLUMNS[i]))
  }

  function AllCells(records: seq<Record>): (grid: Grid)
    ensures |grid| == |records| && forall i :: 0 <= i < |records| ==> grid[i] == Cells(records[i])
  {
    seq(|records|, i requires 0 <= i < |records| => Cells(records[i]))
  }

  predicate PlainName(s: string) {
    s != "" && forall i :: 0 <= i < |s| ==> 'a' <= s[i] <= 'z' || s[i] == '_'
  }

  lemma PlainNames()
    ensures forall i :: 0 <= i < |CSV_COLUMNS| ==> PlainName(CSV_COLUMNS[i])
  {
  }

  /** The header is written without escaping and needs none. */
  lemma HeaderNeedsNoEscaping()
    ensures EscapeAll(CSV_COLUMNS) == CSV_COLUMNS == GuardAll(CSV_COLUMNS)
  {
    PlainNames();
    forall i | 0 <= i < |CSV_COLUMNS|
      ensures Escape(CSV_COLUMNS[i]) == CSV_COLUMNS[i] == Guard(CSV_COLUMNS[i])
    {
      assert PlainName(CSV_COLUMNS[i]);
    }
  }

  lemma HeaderText()
    ensures RowText(CSV_COLUMNS) == Join(CSV_COLUMNS, ",")
  {
    HeaderNeedsNoEscaping();
  }

  lemma RowTextsCons(row: Row, grid: Grid)
    ensures RowTexts([row] + grid) == [RowText(row)] + RowTexts(grid)
  {
    assert ([row] + grid)[1..] == grid;
  }

  lemma LineAt(records: seq<Record>, i: nat)
    requires i < |records|
    ensures |RowTexts(AllCells(records))| == |records|
    ensures RowTexts(AllCells(records))[i] == RowText(Cells(records[i]))
  {
  }

  lemma OneMoreLine(head: string, texts: seq<string>, i: nat)
    requires i < |texts|
    ensures [head] + texts[..i] + [texts[i]] == [head] + texts[..i + 1]
  {
  }

  method ExportLines(head: string, records: seq<Record>) returns (lines: seq<string>)
    ensures lines == [head] + RowTexts(AllCells(records))
  {
    lines := [head];
    ghost var texts := RowTexts(AllCells(records));
    for i := 0 to |records|
      invariant lines == [head] + texts[..i]
    {
      var line := RowText(Cells(records[i]));
      LineAt(records, i);
      OneMoreLine(head, texts, i);
      lines := lines + [line];
    }
  }

  method ExportCsv(records: seq<Record>) returns (text: string)
    ensures text == GridText([CSV_COLUMNS] + AllCells(records))
  {
    var lines := ExportLines(Join(CSV_COLUMNS, ","), records);
    text := Join(lines, "\n");
    HeaderText();
    RowTextsCons(CSV_COLUMNS, AllCells(records));
  }

  lemma GuardGridCons(row: Row, grid: Grid)
    ensures GuardGrid([row] + grid) == [GuardAll(row)] + GuardGrid(grid)
  {
  }

  lemma IdIsFirst(record: Record)
    ensures Cells(record)[0] == CellOf(record, "id") && CSV_COLUMNS[0] == "id"
  {
  }

  lemma GridReadsBack(header: Row, rows: Grid)
    requires header == GuardAll(header) && !Blank(header)
    requires forall i :: 0 <= i < |rows| ==> !Blank(rows[i])
    ensures Parsed(GridText([header] + rows)) == [header] + GuardGrid(rows)
  {
    AllRowsReadBackExactly([header] + rows);
    GuardGridCons(header, rows);
  }

  /** An export of log rows that have an id reads back as the header and every row. */
  lemma ExportReadsBack(records: seq<Record>)
    requires forall i :: 0 <= i < |records| ==> CellOf(records[i], "id") != ""
    ensures Parsed(GridText([CSV_COLUMNS] + AllCells(records))) == [CSV_COLUMNS] + GuardGrid(AllCells(records))
  {
    var rows := AllCells(records);
    forall i | 0 <= i < |rows|
      ensures !Blank(rows[i])
    {
      IdIsFirst(records[i]);
    }
    IdIsFirst(map[]);
    HeaderNeedsNoEscaping();
    GridReadsBack(CSV_COLUMNS, rows);
  }

  // ----- Formulas and line ends ------------------------------------------------------------

  /** A guarded cell never starts with one of the six characters, and only those are guarded. */
  lemma FormulasAre(s: string)
    ensures StartsFormula(s) <==> s != "" && s[0] in {'=', '+', '-', '@', '\t', '\r'}
    ensures Guard(s) == if s != "" && s[0] in {'=', '+', '-', '@', '\t', '\r'} then "'" + s else s
  {
  }

  lemma EndRowIs(r: Reader)
    requires !r.inQuotes
    ensures var row := r.row + [r.field];
            EndRow(r) == Reader(if exists i :: 0 <= i < |row| && row[i] != "" then r.rows + [row] else r.rows, [], "", false)
  {
    var row := r.row + [r.field];
    if i :| 0 <= i < |r.row| && r.row[i] != "" {
      assert row[i] != "";
    }
    assert row[|r.row|] == r.field;
    assert forall i :: 0 <= i < |r.row| ==> row[i] == r.row[i];
  }

  lemma CrEndsRow(rest: string, r: Reader)
    requires !r.inQuotes && (rest == "" || rest[0] != '\n')
    ensures Scan("\r" + rest, r) == Scan(rest, EndRow(r))
  {
    var s := "\r" + rest;
    assert s[1..] == rest && Taken(s, false) == 1;
  }

  lemma CrLfEndsRow(rest: string, r: Reader)
    requires !r.inQuotes
    ensures Scan("\r" + ("\n" + rest), r) == Scan(rest, EndRow(r))
  {
    var s := "\r" + ("\n" + rest);
    assert s[0] == '\r' && s[1] == '\n' && s[2..] == rest && Taken(s, false) == 2;
  }

  /** Outside quotes LF, CR and CR LF all end the row, and alike; a row of empty cells is dropped. */
  lemma LineEndsAreAlike(rest: string, r: Reader, next: Reader)
    requires !r.inQuotes
    requires var row := r.row + [r.field];
             next == Reader(if exists i :: 0 <= i < |row| && row[i] != "" then r.rows + [row] else r.rows, [], "", false)
    ensures Scan("\n" + rest, r) == Scan(rest, next)
    ensures Scan("\r" + ("\n" + rest), r) == Scan(rest, next)
    ensures rest == "" || rest[0] != '\n' ==> Scan("\r" + rest, r) == Scan(rest, next)
  {
    EndRowIs(r);
    EndOfLine(rest, r);
    CrLfEndsRow(rest, r);
    if rest == "" || rest[0] != '\n' {
      CrEndsRow(rest, r);
    }
  }

  /** The columns of an export, in order, and so its first line. */
  lemma ColumnsAre()
    ensures |CSV_COLUMNS| == 11
    ensures CSV_COLUMNS[..6] == ["id", "occurred_at", "actor_type", "actor_username", "actor_ref", "action_code"]
    ensures CSV_COLUMNS[6..] == ["resource_type_code", "resource_id", "result", "correlation_id", "error_code"]
  {
  }

  /** A cell is quoted exactly if it has a quote, a comma or a line end in it, and only then changed beyond its guard. */
  lemma QuotedExactly(s: string)
    ensures if exists c :: c in Guard(s) && c in {'\"', ',', '\n', '\r'}
            then Escape(s) == "\"" + (DoubleQuotes(Guard(s)) + "\"") else Escape(s) == Guard(s)
  {
    var g := Guard(s);
    if c :| c in g && c in {'\"', ',', '\n', '\r'} {
      var i :| 0 <= i < |g| && g[i] == c;
      assert Special(g[i]);
    }
    if NeedsQuotes(g) {
      var i :| 0 <= i < |g| && Special(g[i]);
      assert g[i] in g;
    }
  }

  /** A record's cell under each column is its value there, and empty for null. */
  lemma CellsAre(r: Record, i: nat)
    requires i < |CSV_COLUMNS|
    ensures CSV_COLUMNS[i] in r ==> Cells(r)[i] == r[CSV_COLUMNS[i]]
    ensures CSV_COLUMNS[i] !in r ==> Cells(r)[i] == ""
  {
  }
}
