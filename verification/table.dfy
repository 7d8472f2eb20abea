/** `generate_markdown_table` of gen-wiki.py, and a reader for the tables it
    writes: reading a rendered table back gives the heading, the first
    record's keys as columns, and one row of cell texts per record. */
module Table {
  import opened Options
  import opened Text
  import opened State

  /** `str(item.get(h, ''))`: the text of the record's value for the column,
      or the empty text when the record lacks the column. A value that is
      Python `None` prints as `None`, and a cell is empty exactly when the
      record lacks the column or holds the empty string there. */
  function Cell(record: Dict, column: string): (r: string)
    ensures column !in Keys(record) ==> r == ""
    ensures column in Keys(record) ==> r == ValueText(Get(record, column).value)
    ensures Get(record, column) == Some(Null) ==> r == "None"
    ensures r == "" <==> column !in Keys(record) || Get(record, column) == Some(Str(""))
  {
    match Get(record, column)
    case Some(v) =>
      (match v
       case Int(n) => assert |IntText(n)| > 0; ValueText(v)
       case _ => ValueText(v))
    case None => ""
  }

  function Cells(record: Dict, columns: seq<string>): seq<string> {
    seq(|columns|, j requires 0 <= j < |columns| => Cell(record, columns[j]))
  }

  /** `"| " + " | ".join(cells) + " |"`: a line framed by `| ` and ` |`,
      which `ParseRow` reads back into its cells. */
  function Row(cells: seq<string>): (r: string)
    ensures |r| >= 4 && StartsWith(r, "| ") && EndsWith(r, " |")
  {
    StartsWithAppend("| ", Join(cells, " | ") + " |");
    EndsWithAppend("| " + Join(cells, " | "), " |");
    "| " + Join(cells, " | ") + " |"
  }

  /** `['---'] * n` */
  function Dashes(n: nat): seq<string> {
    seq(n, _ => "---")
  }

  /** The loop of gen-wiki.py lines 62-64: one row per record, in order. */
  function BodyRows(data: seq<Dict>, columns: seq<string>): string {
    if data == [] then "" else Row(Cells(data[0], columns)) + "\n" + BodyRows(data[1..], columns)
  }

  /** `generate_markdown_table(header, data)`; the output is empty exactly
      when there are no records. */
  function Render(header: string, data: seq<Dict>): (r: string)
    ensures r == "" <==> data == []
  {
    if data == [] then ""
    else
      var columns := Keys(data[0]);
      "### " + header + "\n\n" + Row(columns) + "\n" + Row(Dashes(|columns|)) + "\n"
      + BodyRows(data, columns) + "\n"
  }

  /** The cell texts of every record under the given columns. */
  function Grid(data: seq<Dict>, columns: seq<string>): seq<seq<string>> {
    seq(|data|, i requires 0 <= i < |data| => Cells(data[i], columns))
  }

  function RowLines(data: seq<Dict>, columns: seq<string>): seq<string> {
    seq(|data|, i requires 0 <= i < |data| => Row(Cells(data[i], columns)))
  }

  /** The lines of a rendered table: heading, blank line, header row,
      separator row, one row per record, blank line. */
  function TableLines(header: string, data: seq<Dict>): seq<string>
    requires data != []
  {
    var columns := Keys(data[0]);
    ["### " + header, "", Row(columns), Row(Dashes(|columns|))] + RowLines(data, columns) + [""]
  }

  lemma BodyRowsAsLines(data: seq<Dict>, columns: seq<string>)
    ensures BodyRows(data, columns) == UnLines(RowLines(data, columns))
  {
    assert RowLines(data, columns) == RowsOf(Grid(data, columns));
    BodyRowsOfGrid(data, columns);
  }

  lemma {:induction false} BodyRowsOfGrid(data: seq<Dict>, columns: seq<string>)
    ensures BodyRows(data, columns) == UnLines(RowsOf(Grid(data, columns)))
  {
    if data != [] {
      var grid := Grid(data, columns);
      GridTail(data, columns);
      assert RowsOf(grid)[1..] == RowsOf(grid[1..]);
      BodyRowsOfGrid(data[1..], columns);
    }
  }

  lemma GridTail(data: seq<Dict>, columns: seq<string>)
    requires data != []
    ensures Grid(data, columns)[0] == Cells(data[0], columns)
    ensures Grid(data, columns)[1..] == Grid(data[1..], columns)
  {
  }

  /** The first four lines of a table, as `Render` writes them. */
  lemma HeadAsLines(heading: string, columnRow: string, ruleRow: string)
    ensures UnLines([heading, "", columnRow, ruleRow]) == heading + "\n\n" + columnRow + "\n" + ruleRow + "\n"
  {
    var head := [heading, "", columnRow, ruleRow];
    assert UnLines(head[3..]) == ruleRow + "\n";
    assert UnLines(head[2..]) == columnRow + "\n" + (ruleRow + "\n");
    assert UnLines(head[1..]) == "\n" + (columnRow + "\n" + (ruleRow + "\n"));
  }

  /** A rendered table is exactly its `TableLines`, each ended by a newline. */
  lemma RenderAsLines(header: string, data: seq<Dict>)
    requires data != []
    ensures Render(header, data) == UnLines(TableLines(header, data))
  {
    var columns := Keys(data[0]);
    var head := ["### " + header, "", Row(columns), Row(Dashes(|columns|))];
    var body := RowLines(data, columns);
    BodyRowsAsLines(data, columns);
    UnLinesAppend(head + body, [""]);
    UnLinesAppend(head, body);
    HeadAsLines("### " + header, Row(columns), Row(Dashes(|columns|)));
    var top := "### " + header + "\n\n" + Row(columns) + "\n" + Row(Dashes(|columns|)) + "\n";
    assert Render(header, data) == top + BodyRows(data, columns) + "\n";
    assert UnLines(TableLines(header, data)) == top + UnLines(body) + UnLines([""]);
  }

  /** A text that fits in one cell of one row. */
  predicate Fits(s: string) {
    '|' !in s && '\n' !in s
  }

  predicate AllFit(cells: seq<string>) {
    forall j :: 0 <= j < |cells| ==> Fits(cells[j])
  }

  /** The header and every cell of the table fit on their line. */
  predicate Printable(header: string, data: seq<Dict>)
    requires data != []
  {
    && OneLine(header)
    && AllFit(Keys(data[0]))
    && forall i :: 0 <= i < |data| ==> AllFit(Cells(data[i], Keys(data[0])))
  }

  lemma {:induction false} JoinOneLine(parts: seq<string>, sep: string)
    requires forall j :: 0 <= j < |parts| ==> OneLine(parts[j])
    requires OneLine(sep)
    ensures OneLine(Join(parts, sep))
  {
    if |parts| > 1 {
      assert forall j :: 0 <= j < |parts[1..]| ==> parts[1..][j] == parts[j + 1];
      JoinOneLine(parts[1..], sep);
    }
  }

  /** The header, the column names and every cell hold no newline. */
  predicate OneLineTable(header: string, data: seq<Dict>)
    requires data != []
  {
    && OneLine(header)
    && (forall j :: 0 <= j < |Keys(data[0])| ==> OneLine(Keys(data[0])[j]))
    && forall i, j :: 0 <= i < |data| && 0 <= j < |Keys(data[0])| ==> OneLine(Cells(data[i], Keys(data[0]))[j])
  }

  lemma PrintableOneLine(header: string, data: seq<Dict>)
    requires data != [] && Printable(header, data)
    ensures OneLineTable(header, data)
  {
    var columns := Keys(data[0]);
    forall i, j | 0 <= i < |data| && 0 <= j < |columns|
      ensures OneLine(Cells(data[i], columns)[j])
    {
      assert Fits(Cells(data[i], columns)[j]);
    }
  }

  /** Every line of a table without newlines in its texts is one line. */
  lemma TableLinesOneLine(header: string, data: seq<Dict>)
    requires data != [] && OneLineTable(header, data)
    ensures forall i :: 0 <= i < |TableLines(header, data)| ==> OneLine(TableLines(header, data)[i])
  {
    var columns := Keys(data[0]);
    var head := ["### " + header, "", Row(columns), Row(Dashes(|columns|))];
    var body := RowLines(data, columns);
    HeadOneLine(header, columns);
    RowLinesOneLine(data, columns);
    LinesOneLine(head, body);
  }

  /** The four head lines of a table are single lines. */
  lemma HeadOneLine(header: string, columns: seq<string>)
    requires OneLine(header) && forall j :: 0 <= j < |columns| ==> OneLine(columns[j])
    ensures var head := ["### " + header, "", Row(columns), Row(Dashes(|columns|))];
      forall i :: 0 <= i < |head| ==> OneLine(head[i])
  {
    JoinOneLine(columns, " | ");
    JoinOneLine(Dashes(|columns|), " | ");
  }

  lemma LinesOneLine(head: seq<string>, body: seq<string>)
    requires forall i :: 0 <= i < |head| ==> OneLine(head[i])
    requires forall i :: 0 <= i < |body| ==> OneLine(body[i])
    ensures forall i :: 0 <= i < |head + body + [""]| ==> OneLine((head + body + [""])[i])
  {
  }

  lemma RowLinesOneLine(data: seq<Dict>, columns: seq<string>)
    requires forall i, j :: 0 <= i < |data| && 0 <= j < |columns| ==> OneLine(Cells(data[i], columns)[j])
    ensures forall i :: 0 <= i < |data| ==> OneLine(RowLines(data, columns)[i])
  {
    forall i | 0 <= i < |data| ensures OneLine(RowLines(data, columns)[i]) {
      JoinOneLine(Cells(data[i], columns), " | ");
    }
  }

  /** A table whose header, column names and cells hold no newline has
      exactly `|data| + 5` lines: heading, blank line, header row, separator
      row, one row per record and a blank line. */
  lemma RenderLines(header: string, data: seq<Dict>)
    requires data != [] && OneLineTable(header, data)
    ensures Lines(Render(header, data)) == TableLines(header, data)
    ensures |Lines(Render(header, data))| == |data| + 5
  {
    TableLinesOneLine(header, data);
    RenderAsLines(header, data);
    LinesOfUnLines(TableLines(header, data));
  }

  /** The cells of a row after its leading bar, each written ` text |`. */
  function RowCat(cells: seq<string>): string {
    if cells == [] then "" else " " + cells[0] + " |" + RowCat(cells[1..])
  }

  lemma {:induction false} RowCatOfJoin(cells: seq<string>)
    requires cells != []
    ensures RowCat(cells) == " " + Join(cells, " | ") + " |"
  {
    if |cells| > 1 {
      RowCatOfJoin(cells[1..]);
      assert Join(cells, " | ") == cells[0] + " | " + Join(cells[1..], " | ");
    }
  }

  lemma RowAsCat(cells: seq<string>)
    requires cells != []
    ensures Row(cells) == "|" + RowCat(cells)
  {
    RowCatOfJoin(cells);
  }

  /** A row without columns is written like a row with one empty column, so
      a reader cannot tell the two apart. */
  lemma RowWithoutColumns()
    ensures Row([]) == Row([""])
  {
  }

  /** Reads the cells after a row's leading bar. */
  function ParseCells(s: string): Option<seq<string>>
    decreases |s|
  {
    if s == [] then Some([])
    else
      var k := FirstIndex(s, '|');
      if k == |s| || k < 2 || s[0] != ' ' || s[k - 1] != ' ' then None
      else
        match ParseCells(s[k + 1..])
        case None => None
        case Some(rest) => Some([s[1..k - 1]] + rest)
  }

  /** Reads the cells of one table row. */
  function ParseRow(line: string): Option<seq<string>> {
    if line != [] && line[0] == '|' then ParseCells(line[1..]) else None
  }

  /** One ` text |` chunk is read back as the cell `text`. */
  lemma ParseCellsStep(c: string, rest: string)
    requires Fits(c)
    ensures ParseCells(" " + c + " |" + rest) ==
      match ParseCells(rest)
      case None => None
      case Some(cs) => Some([c] + cs)
  {
    var chunk := " " + c + " ";
    var s := " " + c + " |" + rest;
    assert s == chunk + ['|'] + rest;
    FirstIndexAfter(chunk, '|', rest);
    assert s[1..|chunk| - 1] == c;
    assert s[|chunk| + 1..] == rest;
  }

  lemma AllFitTail(cells: seq<string>)
    requires cells != [] && AllFit(cells)
    ensures AllFit(cells[1..])
  {
    forall j | 0 <= j < |cells| - 1 ensures Fits(cells[1..][j]) {
      assert cells[1..][j] == cells[j + 1];
    }
  }

  lemma {:induction false} ParseCellsOfRowCat(cells: seq<string>)
    requires AllFit(cells)
    ensures ParseCells(RowCat(cells)) == Some(cells)
  {
    if cells != [] {
      AllFitTail(cells);
      ParseCellsOfRowCat(cells[1..]);
      ParseCellsCons(cells);
    }
  }

  /** The induction step: a first cell in front of cells that read back. */
  lemma ParseCellsCons(cells: seq<string>)
    requires cells != [] && AllFit(cells)
    requires ParseCells(RowCat(cells[1..])) == Some(cells[1..])
    ensures ParseCells(RowCat(cells)) == Some(cells)
  {
    var c, tail := cells[0], cells[1..];
    assert Fits(c);
    assert RowCat(cells) == " " + c + " |" + RowCat(tail);
    ParseCellsStep(c, RowCat(tail));
    assert cells == [c] + tail;
  }

  /** Reading a row gives back its cells, when there is at least one and
      none holds a bar or a newline. */
  lemma ParseRowOfRow(cells: seq<string>)
    requires cells != [] && AllFit(cells)
    ensures ParseRow(Row(cells)) == Some(cells)
  {
    RowAsCat(cells);
    ParseCellsOfRowCat(cells);
    assert Row(cells)[1..] == RowCat(cells);
  }

  function ParseRows(lines: seq<string>): Option<seq<seq<string>>> {
    if lines == [] then Some([])
    else
      match (ParseRow(lines[0]), ParseRows(lines[1..]))
      case (Some(r), Some(rs)) => Some([r] + rs)
      case _ => None
  }

  /** A table as a reader sees it. */
  datatype View = View(header: string, columns: seq<string>, rows: seq<seq<string>>)

  /** Reads a Markdown table in the shape the tool writes. */
  function ParseTable(s: string): Option<View> {
    var ls := Lines(s);
    if |ls| < 5 || !StartsWith(ls[0], "### ") || ls[1] != "" || ls[|ls| - 1] != "" then None
    else
      match (ParseRow(ls[2]), ParseRow(ls[3]), ParseRows(ls[4..|ls| - 1]))
      case (Some(columns), Some(rule), Some(rows)) =>
        if rule == Dashes(|columns|) then Some(View(ls[0][4..], columns, rows)) else None
      case _ => None
  }

  /** Each row of a grid, as `Row` writes it. */
  function RowsOf(grid: seq<seq<string>>): seq<string> {
    seq(|grid|, i requires 0 <= i < |grid| => Row(grid[i]))
  }

  lemma {:induction false} ParseRowsOfRows(grid: seq<seq<string>>)
    requires forall i :: 0 <= i < |grid| ==> grid[i] != [] && AllFit(grid[i])
    ensures ParseRows(RowsOf(grid)) == Some(grid)
  {
    if grid != [] {
      var ls := RowsOf(grid);
      ParseRowOfRow(grid[0]);
      assert ls[1..] == RowsOf(grid[1..]);
      ParseRowsOfRows(grid[1..]);
      ParseRowsStep(ls, grid[0], grid[1..]);
      assert grid == [grid[0]] + grid[1..];
    }
  }

  lemma ParseRowsStep(lines: seq<string>, first: seq<string>, rest: seq<seq<string>>)
    requires lines != [] && ParseRow(lines[0]) == Some(first) && ParseRows(lines[1..]) == Some(rest)
    ensures ParseRows(lines) == Some([first] + rest)
  {
  }

  lemma ParseTableLines(s: string, header: string, data: seq<Dict>)
    requires data != [] && Keys(data[0]) != [] && Printable(header, data)
    requires Lines(s) == TableLines(header, data)
    ensures ParseTable(s) == Some(View(header, Keys(data[0]), Grid(data, Keys(data[0]))))
  {
    var columns := Keys(data[0]);
    var grid := Grid(data, columns);
    assert RowLines(data, columns) == RowsOf(grid);
    forall i | 0 <= i < |grid| ensures grid[i] != [] && AllFit(grid[i]) {
      assert AllFit(Cells(data[i], columns));
    }
    ParseTableOfLines(s, header, columns, grid);
  }

  /** A text whose lines are a table's heading, blank line, header row,
      separator row, rows and final blank line reads back as that table. */
  lemma ParseTableOfLines(s: string, header: string, columns: seq<string>, grid: seq<seq<string>>)
    requires columns != [] && AllFit(columns)
    requires forall i :: 0 <= i < |grid| ==> grid[i] != [] && AllFit(grid[i])
    requires Lines(s) == ["### " + header, "", Row(columns), Row(Dashes(|columns|))] + RowsOf(grid) + [""]
    ensures ParseTable(s) == Some(View(header, columns, grid))
  {
    var ls := Lines(s);
    assert |ls| == |grid| + 5 && ls[1] == "" && ls[|ls| - 1] == "";
    assert ls[2] == Row(columns) && ls[3] == Row(Dashes(|columns|));
    ParseRowOfRow(columns);
    assert AllFit(Dashes(|columns|));
    ParseRowOfRow(Dashes(|columns|));
    assert ls[4..|ls| - 1] == RowsOf(grid);
    ParseRowsOfRows(grid);
    assert ls[0] == "### " + header;
    assert StartsWith(ls[0], "### ") && ls[0][4..] == header;
  }

  /** Reading a printable rendered table back gives its heading, the FIRST
      record's keys as the columns, and for each record, in order, the text
      of its value under each column ("" for a key it lacks). */
  lemma ParseRender(header: string, data: seq<Dict>)
    requires data != [] && Keys(data[0]) != [] && Printable(header, data)
    ensures ParseTable(Render(header, data)) == Some(View(header, Keys(data[0]), Grid(data, Keys(data[0]))))
  {
    PrintableOneLine(header, data);
    RenderLines(header, data);
    ParseTableLines(Render(header, data), header, data);
  }

  lemma TwoCellRow(a: string, b: string, text: string)
    requires text == "| " + a + " | " + b + " |"
    ensures Row([a, b]) == text
  {
    assert Join([a, b], " | ") == a + " | " + Join([b], " | ");
  }

  lemma ExampleHeadRows()
    ensures Row(["col1", "col2"]) == "| col1 | col2 |"
    ensures Row(["---", "---"]) == "| --- | --- |"
  {
    TwoCellRow("col1", "col2", "| col1 | col2 |");
    TwoCellRow("---", "---", "| --- | --- |");
  }

  lemma ExampleBodyRows()
    ensures Row(["data1", "data2"]) == "| data1 | data2 |"
    ensures Row(["data3", "data4"]) == "| data3 | data4 |"
  {
    TwoCellRow("data1", "data2", "| data1 | data2 |");
    TwoCellRow("data3", "data4", "| data3 | data4 |");
  }

  lemma ExampleCells(r1: Dict, r2: Dict, columns: seq<string>)
    requires r1 == [Entry("col1", Str("data1")), Entry("col2", Str("data2"))]
    requires r2 == [Entry("col1", Str("data3")), Entry("col2", Str("data4"))]
    requires columns == ["col1", "col2"]
    ensures Keys(r1) == columns
    ensures Cells(r1, columns) == ["data1", "data2"]
    ensures Cells(r2, columns) == ["data3", "data4"]
  {
    assert "col1" != "col2" by { assert "col1"[3] != "col2"[3]; }
    assert Get(r1, "col2") == Get(r1[1..], "col2");
    assert Get(r2, "col2") == Get(r2[1..], "col2");
  }

  lemma ExampleRowLines(r1: Dict, r2: Dict, columns: seq<string>)
    requires r1 == [Entry("col1", Str("data1")), Entry("col2", Str("data2"))]
    requires r2 == [Entry("col1", Str("data3")), Entry("col2", Str("data4"))]
    requires columns == ["col1", "col2"]
    ensures Keys(r1) == columns
    ensures RowLines([r1, r2], columns) == ["| data1 | data2 |", "| data3 | data4 |"]
  {
    ExampleCells(r1, r2, columns);
    ExampleBodyRows();
  }

  lemma ExampleLines(header: string, r1: Dict, r2: Dict, ls: seq<string>)
    requires header == "Test Table"
    requires r1 == [Entry("col1", Str("data1")), Entry("col2", Str("data2"))]
    requires r2 == [Entry("col1", Str("data3")), Entry("col2", Str("data4"))]
    requires ls == ["### Test Table", "", "| col1 | col2 |", "| --- | --- |", "| data1 | data2 |", "| data3 | data4 |", ""]
    ensures TableLines(header, [r1, r2]) == ls
  {
    var columns := ["col1", "col2"];
    ExampleRowLines(r1, r2, columns);
    ExampleHeadRows();
    assert Dashes(2) == ["---", "---"];
    assert "### " + header == "### Test Table";
    var head := ["### Test Table", "", "| col1 | col2 |", "| --- | --- |"];
    var body := ["| data1 | data2 |", "| data3 | data4 |"];
    assert TableLines(header, [r1, r2]) ==
      ["### " + header, "", Row(columns), Row(Dashes(2))] + RowLines([r1, r2], columns) + [""];
    assert ["### " + header, "", Row(columns), Row(Dashes(2))] == head;
    assert TableLines(header, [r1, r2]) == head + body + [""];
    assert ls == head + body + [""];
  }

  /** The example of the tool's test suite, line by line. */
  lemma RenderExample()
    ensures Render("Test Table", [[Entry("col1", Str("data1")), Entry("col2", Str("data2"))],
                                  [Entry("col1", Str("data3")), Entry("col2", Str("data4"))]])
      == UnLines(["### Test Table", "", "| col1 | col2 |", "| --- | --- |", "| data1 | data2 |", "| data3 | data4 |", ""])
  {
    var r1 := [Entry("col1", Str("data1")), Entry("col2", Str("data2"))];
    var r2 := [Entry("col1", Str("data3")), Entry("col2", Str("data4"))];
    RenderAsLines("Test Table", [r1, r2]);
    ExampleLines("Test Table", [Entry("col1", Str("data1")), Entry("col2", Str("data2"))],
                 [Entry("col1", Str("data3")), Entry("col2", Str("data4"))],
                 ["### Test Table", "", "| col1 | col2 |", "| --- | --- |", "| data1 | data2 |", "| data3 | data4 |", ""]);
  }
}
