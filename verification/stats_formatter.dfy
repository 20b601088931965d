/** The older, row-generic table of src/markdown/stats_formatter.rs: every
    column computes its cells from a row, and every line starts with a link,
    either to a match or to the row's player. Rows are of any type `R`; the
    `HasPlayerId` trait becomes the function `playerIdOf`. */
module StatsFormatter {
  import opened Wrappers
  import opened Strings
  import opened Section
  import Table
  import OpenDotaLinks
  import Columns

  const LinkSymbol: string := "@"

  /** A column: its header, how a row becomes a cell, optionally how wide a
      row's cell counts, and optionally which match a row links to. */
  datatype LegacyColumn<!R> = LegacyColumn(
    header: string,
    valueOf: R -> string,
    widthOf: Option<R -> nat>,
    matchIdOf: Option<R -> Option<int>>)

  datatype LegacyTable<!R> = LegacyTable(
    title: string,
    columns: seq<LegacyColumn<R>>,
    linkOf: Option<R -> string>)

  /** `Column::new`: no width or match-id function yet. */
  function NewColumn<R>(header: string, valueOf: R -> string): (c: LegacyColumn<R>)
    ensures c.header == header && c.widthOf.None? && c.matchIdOf.None?
  {
    LegacyColumn(header, valueOf, None, None)
  }

  function WithWidthFn<R>(c: LegacyColumn<R>, widthOf: R -> nat): (r: LegacyColumn<R>)
    ensures r.header == c.header && r.matchIdOf == c.matchIdOf && r.widthOf.Some?
  {
    c.(widthOf := Some(widthOf))
  }

  function WithMatchIdFn<R>(c: LegacyColumn<R>, matchIdOf: R -> Option<int>): (r: LegacyColumn<R>)
    ensures r.header == c.header && r.widthOf == c.widthOf && r.matchIdOf.Some?
  {
    c.(matchIdOf := Some(matchIdOf))
  }

  function NewTable<R>(title: string): (t: LegacyTable<R>)
    ensures t.title == title && |t.columns| == 0 && t.linkOf.None?
  {
    LegacyTable(title, [], None)
  }

  function AddColumn<R>(t: LegacyTable<R>, c: LegacyColumn<R>): (r: LegacyTable<R>)
    ensures r.title == t.title && r.columns == t.columns + [c]
  {
    t.(columns := t.columns + [c])
  }

  function WithLinkFn<R>(t: LegacyTable<R>, linkOf: R -> string): (r: LegacyTable<R>)
    ensures r.title == t.title && r.columns == t.columns && r.linkOf.Some?
  {
    t.(linkOf := Some(linkOf))
  }

  /** How wide one row's cell counts: the width function if set, else the
      length of the cell's text. */
  function CellWidth<R>(c: LegacyColumn<R>, row: R): nat {
    match c.widthOf
    case Some(w) => w(row)
    case None => |c.valueOf(row)|
  }

  /** `calculate_width`: the header length or the widest cell, whichever is
      larger. */
  function ColumnWidth<R>(c: LegacyColumn<R>, rows: seq<R>): (w: nat)
    ensures w >= |c.header|
    ensures forall i :: 0 <= i < |rows| ==> CellWidth(c, rows[i]) <= w
    ensures w == |c.header| || exists i :: 0 <= i < |rows| && CellWidth(c, rows[i]) == w
  {
    if |rows| == 0 then |c.header|
    else
      var rest := ColumnWidth(c, rows[..|rows| - 1]);
      var last := CellWidth(c, rows[|rows| - 1]);
      assert forall i :: 0 <= i < |rows| - 1 ==> rows[..|rows| - 1][i] == rows[i];
      if last > rest then last else rest
  }

  function HeaderCells<R>(columns: seq<LegacyColumn<R>>, rows: seq<R>): (cells: seq<string>)
    ensures |cells| == |columns|
    ensures forall k :: 0 <= k < |columns| ==>
      cells[k] == Columns.FormatWithStyle(columns[k].header, ColumnWidth(columns[k], rows), true)
  {
    if |columns| == 0 then []
    else
      var c := columns[|columns| - 1];
      HeaderCells(columns[..|columns| - 1], rows) + [Columns.FormatWithStyle(c.header, ColumnWidth(c, rows), true)]
  }

  function RowCells<R>(columns: seq<LegacyColumn<R>>, rows: seq<R>, row: R): (cells: seq<string>)
    ensures |cells| == |columns|
    ensures forall k :: 0 <= k < |columns| ==>
      cells[k] == Columns.FormatWithStyle(columns[k].valueOf(row), ColumnWidth(columns[k], rows), true)
  {
    if |columns| == 0 then []
    else
      var c := columns[|columns| - 1];
      RowCells(columns[..|columns| - 1], rows, row) + [Columns.FormatWithStyle(c.valueOf(row), ColumnWidth(c, rows), true)]
  }

  /** `fmt_profile_url`: the URL in angle brackets, so Discord shows no preview. */
  function ProfileLink(text: string, playerId: int): string {
    "[" + text + "](<" + OpenDotaLinks.ProfileUrl(playerId) + ">)"
  }

  /** `fmt_match_url`. */
  function MatchLink(text: string, matchId: int): string {
    Columns.MaskLink(OpenDotaLinks.MatchUrl(matchId), text)
  }

  /** Column `c` gives `row` a positive match id. */
  predicate GivesMatch<R>(c: LegacyColumn<R>, row: R) {
    c.matchIdOf.Some? && c.matchIdOf.value(row).Some? && c.matchIdOf.value(row).value > 0
  }

  /** The match id of the first column that gives the row a positive one. */
  function FirstMatchId<R>(columns: seq<LegacyColumn<R>>, row: R): (r: Option<int>)
    ensures r.None? <==> forall k :: 0 <= k < |columns| ==> !GivesMatch(columns[k], row)
    ensures r.Some? ==> exists k :: (0 <= k < |columns| && GivesMatch(columns[k], row)
      && r.value == columns[k].matchIdOf.value(row).value
      && forall j :: 0 <= j < k ==> !GivesMatch(columns[j], row))
  {
    if |columns| == 0 then None
    else if GivesMatch(columns[0], row) then Some(columns[0].matchIdOf.value(row).value)
    else
      var r := FirstMatchId(columns[1..], row);
      assert forall k :: 1 <= k < |columns| ==> columns[1..][k - 1] == columns[k];
      if r.Some? then
        assert exists k :: (1 <= k < |columns| && GivesMatch(columns[k], row)
          && r.value == columns[k].matchIdOf.value(row).value
          && forall j :: 0 <= j < k ==> !GivesMatch(columns[j], row)) by {
          var k :| 0 <= k < |columns| - 1 && GivesMatch(columns[1..][k], row)
            && r.value == columns[1..][k].matchIdOf.value(row).value
            && forall j :: 0 <= j < k ==> !GivesMatch(columns[1..][j], row);
          assert forall j :: 1 <= j < k + 1 ==> !GivesMatch(columns[j], row);
        }
        r
      else r
  }

  /** The link that starts a row's line: a match link if some column gives a
      match id, else the table's link function, else the player's profile. */
  function RowLink<R>(t: LegacyTable<R>, row: R, playerIdOf: R -> int): string {
    match FirstMatchId(t.columns, row)
    case Some(id) => MatchLink(LinkSymbol, id)
    case None =>
      match t.linkOf
      case Some(f) => f(row)
      case None => ProfileLink(LinkSymbol, playerIdOf(row))
  }

  /** The line of one row: its link, a space, and its cells. */
  function RowLine<R>(t: LegacyTable<R>, rows: seq<R>, row: R, playerIdOf: R -> int): string {
    RowLink(t, row, playerIdOf) + " " + Table.FormatRow(RowCells(t.columns, rows, row))
  }

  function RowLines<R>(t: LegacyTable<R>, rows: seq<R>, n: nat, playerIdOf: R -> int): (lines: seq<string>)
    requires n <= |rows|
    ensures |lines| == n
    ensures forall i :: 0 <= i < n ==> lines[i] == RowLine(t, rows, rows[i], playerIdOf)
  {
    if n == 0 then []
    else
      var prev := RowLines(t, rows, n - 1, playerIdOf);
      var lines := prev + [RowLine(t, rows, rows[n - 1], playerIdOf)];
      assert forall i :: 0 <= i < n - 1 ==> lines[i] == prev[i];
      lines
  }

  /** The header line: the link symbol in place of a link, then the headers. */
  function HeaderLine<R>(t: LegacyTable<R>, rows: seq<R>): string {
    LinkSymbol + " " + Table.FormatRow(HeaderCells(t.columns, rows))
  }

  /** `build`: no rows gives the single line "No data available."; otherwise
      a header line and one line per row, in input order. */
  function Build<R>(t: LegacyTable<R>, rows: seq<R>, playerIdOf: R -> int): (s: LeaderboardSection)
    ensures s.title == t.title
    ensures |rows| == 0 ==> s.lines == [Table.NoData]
    ensures |rows| > 0 ==>
      && |s.lines| == |rows| + 1
      && s.lines[0] == HeaderLine(t, rows)
      && forall i :: 0 <= i < |rows| ==> s.lines[i + 1] == RowLine(t, rows, rows[i], playerIdOf)
  {
    if |rows| == 0 then AddLine(Section.New(t.title), Table.NoData)
    else
      var lines := [HeaderLine(t, rows)] + RowLines(t, rows, |rows|, playerIdOf);
      NewThenAddLines(t.title, lines);
      AddLines(Section.New(t.title), lines)
  }

  /** Which link a row gets, case by case. */
  lemma RowLinkChoice<R>(t: LegacyTable<R>, row: R, playerIdOf: R -> int)
    ensures (exists k :: 0 <= k < |t.columns| && GivesMatch(t.columns[k], row)) ==>
      exists id :: id > 0 && RowLink(t, row, playerIdOf) == MatchLink(LinkSymbol, id)
    ensures (forall k :: 0 <= k < |t.columns| ==> !GivesMatch(t.columns[k], row)) && t.linkOf.Some? ==>
      RowLink(t, row, playerIdOf) == t.linkOf.value(row)
    ensures (forall k :: 0 <= k < |t.columns| ==> !GivesMatch(t.columns[k], row)) && t.linkOf.None? ==>
      RowLink(t, row, playerIdOf) == ProfileLink(LinkSymbol, playerIdOf(row))
  {
    var r := FirstMatchId(t.columns, row);
    if r.Some? {
      var k :| 0 <= k < |t.columns| && GivesMatch(t.columns[k], row)
        && r.value == t.columns[k].matchIdOf.value(row).value;
      assert RowLink(t, row, playerIdOf) == MatchLink(LinkSymbol, r.value);
      assert r.value > 0;
    }
  }

  /** Equal texts around equal middles: the middles are equal. */
  lemma MiddleEqual(h: string, x: string, y: string, t: string)
    requires h + x + t == h + y + t
    ensures x == y
  {
    var s := h + x + t;
    assert |x| == |y|;
    assert s[|h|..|h| + |x|] == x;
    assert (h + y + t)[|h|..|h| + |y|] == y;
  }

  lemma ProfileLinksIdentify(text: string, a: int, b: int)
    requires ProfileLink(text, a) == ProfileLink(text, b)
    ensures a == b
  {
    var head := "[" + text + "](<";
    assert ProfileLink(text, a) == head + OpenDotaLinks.ProfileUrl(a) + ">)";
    assert ProfileLink(text, b) == head + OpenDotaLinks.ProfileUrl(b) + ">)";
    MiddleEqual(head, OpenDotaLinks.ProfileUrl(a), OpenDotaLinks.ProfileUrl(b), ">)");
    OpenDotaLinks.UrlsIdentify(a, b);
  }

  lemma MatchLinksIdentify(text: string, a: int, b: int)
    requires MatchLink(text, a) == MatchLink(text, b)
    ensures a == b
  {
    var head := "[" + text + "](";
    assert MatchLink(text, a) == head + OpenDotaLinks.MatchUrl(a) + ")";
    assert MatchLink(text, b) == head + OpenDotaLinks.MatchUrl(b) + ")";
    MiddleEqual(head, OpenDotaLinks.MatchUrl(a), OpenDotaLinks.MatchUrl(b), ")");
    OpenDotaLinks.UrlsIdentify(a, b);
  }

  lemma ProfileIsNotMatchLink(text: string, a: int, b: int)
    ensures ProfileLink(text, a) != MatchLink(text, b)
  {
    var n := |text| + 3;
    var head := "[" + text + "](";
    var pa, mb := OpenDotaLinks.ProfileUrl(a), OpenDotaLinks.MatchUrl(b);
    assert ProfileLink(text, a) == head + "<" + pa + ">)";
    assert MatchLink(text, b) == head + mb + ")";
    assert (head + "<" + pa + ">)")[n] == '<';
    assert (head + mb + ")")[n] == mb[0] == 'h';
  }

  /** A row's profile link names its player, and a match link its match:
      different ids give different links, and the two kinds never coincide. */
  lemma LinksIdentify(text: string, a: int, b: int)
    ensures ProfileLink(text, a) == ProfileLink(text, b) ==> a == b
    ensures MatchLink(text, a) == MatchLink(text, b) ==> a == b
    ensures ProfileLink(text, a) != MatchLink(text, b)
  {
    if ProfileLink(text, a) == ProfileLink(text, b) {
      ProfileLinksIdentify(text, a, b);
    }
    if MatchLink(text, a) == MatchLink(text, b) {
      MatchLinksIdentify(text, a, b);
    }
    ProfileIsNotMatchLink(text, a, b);
  }
}
