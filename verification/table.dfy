/** `TableBuilder` (src/markdown/table.rs): columns of equal length rendered
    as a markdown table, one line for the header and one per row. */
module Table {
  import opened Wrappers
  import opened Strings
  import opened Columns
  import opened Section

  /** The builder: a title, the columns in insertion order, and the row
      count fixed by the first column. */
  datatype TableBuilder = TableBuilder(title: string, columns: seq<Column>, rowCount: Option<nat>)

  /** What `new` and `add_column` keep true: the row count is set exactly
      when there is a column, and every column has that many rows. */
  predicate Consistent(tb: TableBuilder) {
    && (tb.rowCount.None? <==> |tb.columns| == 0)
    && forall i :: 0 <= i < |tb.columns| ==> tb.rowCount == Some(Len(tb.columns[i]))
  }

  function New(title: string): (tb: TableBuilder)
    ensures tb.title == title && |tb.columns| == 0 && Consistent(tb)
  {
    TableBuilder(title, [], None)
  }

  /** `add_column`: a column whose length differs from the first column's
      makes the source panic, so the model requires equal lengths. */
  function AddColumn(tb: TableBuilder, c: Column): (r: TableBuilder)
    requires tb.rowCount.None? || tb.rowCount.value == Len(c)
    ensures r.title == tb.title
    ensures r.columns == tb.columns + [c]
    ensures r.rowCount == Some(Len(c))
    ensures Consistent(tb) ==> Consistent(r)
  {
    TableBuilder(tb.title, tb.columns + [c], Some(Len(c)))
  }

  const NoData: string := "No data available."

  /** `format!("| {} |", cells.join(" | "))`. */
  function FormatRow(cells: seq<string>): (r: string)
    ensures StartsWith(r, "| ") && |r| >= 4 && r[|r| - 2..] == " |"
  {
    "| " + Join(cells, " | ") + " |"
  }

  /** Between the leading "| " and the trailing " |" a line holds exactly
      the cells joined by " | ". */
  lemma FormatRowJoins(cells: seq<string>)
    ensures var r := FormatRow(cells);
      |r| == |Join(cells, " | ")| + 4 && r[2..|r| - 2] == Join(cells, " | ")
  {
    var r := FormatRow(cells);
    assert r == "| " + Join(cells, " | ") + " |";
  }

  function Widths(columns: seq<Column>): (ws: seq<nat>)
    ensures |ws| == |columns|
    ensures forall i :: 0 <= i < |columns| ==> ws[i] == Width(columns[i])
  {
    if |columns| == 0 then [] else Widths(columns[..|columns| - 1]) + [Width(columns[|columns| - 1])]
  }

  /** The header of every column, each at its own width. */
  function HeaderCells(columns: seq<Column>): (cells: seq<string>)
    ensures |cells| == |columns|
    ensures forall i :: 0 <= i < |columns| ==> cells[i] == FormatHeader(columns[i], Width(columns[i]))
  {
    if |columns| == 0 then []
    else
      var c := columns[|columns| - 1];
      HeaderCells(columns[..|columns| - 1]) + [FormatHeader(c, Width(c))]
  }

  /** Row `row` of every column, each at the column's own width. */
  function RowCells(columns: seq<Column>, row: nat): (cells: seq<string>)
    requires forall i :: 0 <= i < |columns| ==> row < Len(columns[i])
    ensures |cells| == |columns|
    ensures forall i :: 0 <= i < |columns| ==> cells[i] == FormatCell(columns[i], row, Width(columns[i]))
  {
    if |columns| == 0 then []
    else
      var init, c := columns[..|columns| - 1], columns[|columns| - 1];
      assert forall i :: 0 <= i < |init| ==> init[i] == columns[i];
      RowCells(init, row) + [FormatCell(c, row, Width(c))]
  }

  /** The cells of a row over two column lists side by side are the cells
      over the first list followed by the cells over the second. */
  lemma RowCellsAppend(a: seq<Column>, b: seq<Column>, row: nat)
    requires forall i :: 0 <= i < |a| ==> row < Len(a[i])
    requires forall i :: 0 <= i < |b| ==> row < Len(b[i])
    ensures forall i :: 0 <= i < |a + b| ==> row < Len((a + b)[i])
    ensures RowCells(a + b, row) == RowCells(a, row) + RowCells(b, row)
  {
    assert forall i :: 0 <= i < |a + b| ==> (a + b)[i] == if i < |a| then a[i] else b[i - |a|];
    var whole, left, right := RowCells(a + b, row), RowCells(a, row), RowCells(b, row);
    forall i | 0 <= i < |whole|
      ensures whole[i] == (left + right)[i]
    {
      if i < |a| {
        assert (a + b)[i] == a[i];
      } else {
        assert (a + b)[i] == b[i - |a|];
      }
    }
    assert whole == left + right;
  }

  /** The lines of the rows `0 .. n - 1`. */
  function RowLines(columns: seq<Column>, n: nat): (lines: seq<string>)
    requires forall i :: 0 <= i < |columns| ==> n <= Len(columns[i])
    ensures |lines| == n
    ensures forall row :: 0 <= row < n ==> lines[row] == FormatRow(RowCells(columns, row))
  {
    if n == 0 then [] else RowLines(columns, n - 1) + [FormatRow(RowCells(columns, n - 1))]
  }

  /** `build`: a table with no rows says so; otherwise a header line and one
      line per row. */
  function Build(tb: TableBuilder): (s: LeaderboardSection)
    requires Consistent(tb)
    ensures s.title == tb.title
    ensures tb.rowCount.UnwrapOr(0) == 0 ==> s.lines == [NoData]
    ensures tb.rowCount.UnwrapOr(0) > 0 ==>
      && |s.lines| == tb.rowCount.value + 1
      && s.lines[0] == FormatRow(HeaderCells(tb.columns))
      && forall row :: 0 <= row < tb.rowCount.value ==>
           s.lines[row + 1] == FormatRow(RowCells(tb.columns, row))
  {
    var rowCount := tb.rowCount.UnwrapOr(0);
    if rowCount == 0 then AddLine(Section.New(tb.title), NoData)
    else
      var lines := [FormatRow(HeaderCells(tb.columns))] + RowLines(tb.columns, rowCount);
      NewThenAddLines(tb.title, lines);
      AddLines(Section.New(tb.title), lines)
  }

  /** `build_table_content`, written as the source's loop over row indexes. */
  method BuildTableContent(tb: TableBuilder) returns (s: LeaderboardSection)
    requires Consistent(tb) && tb.rowCount.Some? && tb.rowCount.value > 0
    ensures s == Build(tb)
  {
    var rowCount := tb.rowCount.value;
    var header := FormatRow(HeaderCells(tb.columns));
    s := AddLine(Section.New(tb.title), header);
    var row := 0;
    while row < rowCount
      invariant 0 <= row <= rowCount
      invariant s.title == tb.title
      invariant s.lines == [header] + RowLines(tb.columns, row)
    {
      s := AddLine(s, FormatRow(RowCells(tb.columns, row)));
      row := row + 1;
    }
    assert s == LeaderboardSection(tb.title, [header] + RowLines(tb.columns, rowCount));
    BuildHasHeaderAndRows(tb);
  }

  lemma BuildHasHeaderAndRows(tb: TableBuilder)
    requires Consistent(tb) && tb.rowCount.Some? && tb.rowCount.value > 0
    ensures Build(tb) == LeaderboardSection(tb.title,
      [FormatRow(HeaderCells(tb.columns))] + RowLines(tb.columns, tb.rowCount.value))
  {
    NewThenAddLines(tb.title, [FormatRow(HeaderCells(tb.columns))] + RowLines(tb.columns, tb.rowCount.value));
  }

  /** A line's length is fixed by the lengths of its cells. */
  lemma {:induction false} JoinSameLengths(xs: seq<string>, ys: seq<string>, sep: string)
    requires |xs| == |ys|
    requires forall i :: 0 <= i < |xs| ==> |xs[i]| == |ys[i]|
    ensures |Join(xs, sep)| == |Join(ys, sep)|
    decreases |xs|
  {
    if |xs| > 1 {
      JoinSameLengths(xs[1..], ys[1..], sep);
    }
  }

  /** In a table of text columns a row line is as long as the header line. */
  lemma TextRowAligned(columns: seq<Column>, row: nat)
    requires forall k :: 0 <= k < |columns| ==> columns[k].Text? && row < Len(columns[k])
    ensures |FormatRow(RowCells(columns, row))| == |FormatRow(HeaderCells(columns))|
  {
    var cells, header := RowCells(columns, row), HeaderCells(columns);
    forall k | 0 <= k < |cells|
      ensures |cells[k]| == |header[k]|
    {
      TextCellsAligned(columns[k], row);
    }
    JoinSameLengths(cells, header, " | ");
    FormatRowJoins(cells);
    FormatRowJoins(header);
  }

  /** In a table of text columns every line, header included, has the same
      length: the columns line up. */
  lemma TextTableAligned(tb: TableBuilder, i: nat, j: nat)
    requires Consistent(tb) && tb.rowCount.UnwrapOr(0) > 0
    requires forall k :: 0 <= k < |tb.columns| ==> tb.columns[k].Text?
    requires i < |Build(tb).lines| && j < |Build(tb).lines|
    ensures |Build(tb).lines[i]| == |Build(tb).lines[j]|
  {
    var lines := Build(tb).lines;
    forall r | 1 <= r < |lines|
      ensures |lines[r]| == |lines[0]|
    {
      TextRowAligned(tb.columns, r - 1);
    }
  }

  /** Building a table from scratch: add the columns of `cs` one by one. */
  function AddColumns(tb: TableBuilder, cs: seq<Column>): TableBuilder
    requires forall k :: 0 <= k < |cs| ==> Len(cs[k]) == Len(cs[0])
    requires |cs| > 0 && tb.rowCount.Some? ==> tb.rowCount.value == Len(cs[0])
    decreases |cs|
  {
    if |cs| == 0 then tb
    else AddColumns(AddColumn(tb, cs[0]), cs[1..])
  }

  /** Columns of equal length added to a new builder give a consistent
      builder that keeps the title and the insertion order. */
  lemma {:induction false} AddColumnsKeepsOrder(tb: TableBuilder, cs: seq<Column>)
    requires Consistent(tb)
    requires forall k :: 0 <= k < |cs| ==> Len(cs[k]) == Len(cs[0])
    requires |cs| > 0 && tb.rowCount.Some? ==> tb.rowCount.value == Len(cs[0])
    ensures var r := AddColumns(tb, cs);
      Consistent(r) && r.title == tb.title && r.columns == tb.columns + cs
    decreases |cs|
  {
    if |cs| > 0 {
      AddColumnsKeepsOrder(AddColumn(tb, cs[0]), cs[1..]);
      assert tb.columns + [cs[0]] + cs[1..] == tb.columns + cs;
    }
  }
}
