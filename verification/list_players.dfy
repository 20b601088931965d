/** `format_list_players` (src/discord/player_commands/list_players.rs): the
    players registered to a server, sorted by display name, as a title line
    and a table of name, id and profile link. */
module ListPlayers {
  import opened Wrappers
  import opened Strings
  import opened Sorting
  import opened Columns
  import opened Section
  import opened OpenDotaLinks
  import opened PlayerServers
  import opened SectionFormatter
  import Table

  // -------------------------------------------------------------------------
  // String order (Rust's `String::cmp`)
  // -------------------------------------------------------------------------

  /** Lexicographic order on characters; for UTF-8 text this is the byte
      order Rust compares strings by. A proper prefix comes first. */
  predicate LexLess(a: string, b: string) {
    if |a| == 0 then |b| > 0
    else if |b| == 0 then false
    else if a[0] != b[0] then a[0] < b[0]
    else LexLess(a[1..], b[1..])
  }

  lemma {:induction false} LexAsymmetric(a: string, b: string)
    ensures LexLess(a, b) ==> !LexLess(b, a)
    decreases |a|
  {
    if |a| > 0 && |b| > 0 && a[0] == b[0] {
      LexAsymmetric(a[1..], b[1..]);
    }
  }

  lemma {:induction false} LexTotal(a: string, b: string)
    ensures a == b || LexLess(a, b) || LexLess(b, a)
    decreases |a|
  {
    if |a| > 0 && |b| > 0 && a[0] == b[0] {
      LexTotal(a[1..], b[1..]);
      if a[1..] == b[1..] {
        assert a == [a[0]] + a[1..] && b == [b[0]] + b[1..];
      }
    }
  }

  lemma {:induction false} LexTransitive(a: string, b: string, c: string)
    requires LexLess(a, b) && LexLess(b, c)
    ensures LexLess(a, c)
    decreases |a|
  {
    if |a| > 0 && a[0] == b[0] && b[0] == c[0] {
      LexTransitive(a[1..], b[1..], c[1..]);
    }
  }

  /** `a.display_name().cmp(b.display_name()) == Less`. */
  function ByDisplayName(): (before: (PlayerServer, PlayerServer) -> bool) {
    (a: PlayerServer, b: PlayerServer) => LexLess(DisplayName(a), DisplayName(b))
  }

  lemma ByDisplayNameOrder()
    ensures StrictWeakOrder(ByDisplayName())
  {
    var before := ByDisplayName();
    forall a, b | before(a, b)
      ensures !before(b, a)
    {
      LexAsymmetric(DisplayName(a), DisplayName(b));
    }
    forall a, b, c | !before(b, a) && !before(c, b)
      ensures !before(c, a)
    {
      var x, y, z := DisplayName(a), DisplayName(b), DisplayName(c);
      LexTotal(x, y);
      LexTotal(y, z);
      if LexLess(x, y) && LexLess(y, z) {
        LexTransitive(x, y, z);
      }
      LexAsymmetric(x, z);
      if x == z {
        LexAsymmetric(x, x);
      }
    }
  }

  // -------------------------------------------------------------------------
  // The list
  // -------------------------------------------------------------------------

  const TitleSuffix := " player(s) registered to this server:"

  function ListTitle(count: nat): string {
    IntToString(count) + TitleSuffix
  }

  function IdText(p: PlayerServer): string {
    IntToString(p.playerId)
  }

  function ProfileOf(p: PlayerServer): string {
    ProfileUrl(p.playerId)
  }

  /** The players in display-name order: a permutation of the input, sorted,
      keeping the input order among equal names. */
  function SortedPlayers(players: seq<PlayerServer>): (sorted: seq<PlayerServer>)
    ensures |sorted| == |players| && multiset(sorted) == multiset(players)
    ensures SortedBy(ByDisplayName(), sorted)
    ensures forall i, j :: 0 <= i < j < |sorted| ==> !LexLess(DisplayName(sorted[j]), DisplayName(sorted[i]))
    ensures forall k :: TieClass(ByDisplayName(), sorted, k) == TieClass(ByDisplayName(), players, k)
  {
    ByDisplayNameOrder();
    SortSpec(players, ByDisplayName());
    Sort(players, ByDisplayName())
  }

  function NameColumn(sorted: seq<PlayerServer>): Column {
    NewText("Player Name", MapSeq(sorted, DisplayName))
  }

  function IdColumn(sorted: seq<PlayerServer>): Column {
    NewText("Player ID", MapSeq(sorted, IdText))
  }

  function LinkColumn(sorted: seq<PlayerServer>): Column {
    NewLink(MapSeq(sorted, ProfileOf))
  }

  /** The three columns, added in this order to a new builder. */
  function ListBuilder(title: string, sorted: seq<PlayerServer>): (tb: Table.TableBuilder)
    ensures tb.title == title && Table.Consistent(tb)
    ensures tb.columns == [NameColumn(sorted), IdColumn(sorted), LinkColumn(sorted)]
    ensures tb.rowCount == Some(|sorted|)
  {
    Table.AddColumn(Table.AddColumn(Table.AddColumn(Table.New(title),
      NameColumn(sorted)), IdColumn(sorted)), LinkColumn(sorted))
  }

  /** The table `format_list_players` builds. */
  function ListTable(players: seq<PlayerServer>): (s: LeaderboardSection)
    ensures s.title == ListTitle(|players|)
    ensures |players| == 0 ==> s.lines == [Table.NoData]
    ensures |players| > 0 ==> |s.lines| == |players| + 1
  {
    Table.Build(ListBuilder(ListTitle(|players|), SortedPlayers(players)))
  }

  /** The cells of row `i`: the name and the id in backticks, padded, and
      the link. */
  function RowOf(sorted: seq<PlayerServer>, i: nat): seq<string>
    requires i < |sorted|
  {
    var p := sorted[i];
    [ FormatWithStyle(DisplayName(p), Width(NameColumn(sorted)), true),
      FormatWithStyle(IdText(p), Width(IdColumn(sorted)), true),
      MaskLink(ProfileUrl(p.playerId), LinkSymbol) ]
  }

  lemma BuiltLine(title: string, sorted: seq<PlayerServer>, i: nat)
    requires i < |sorted|
    ensures var tb := ListBuilder(title, sorted);
      && |Table.Build(tb).lines| == |sorted| + 1
      && Table.Build(tb).lines[i + 1] == Table.FormatRow(Table.RowCells(tb.columns, i))
  {
  }

  lemma BuiltCells(sorted: seq<PlayerServer>, i: nat)
    requires i < |sorted|
    ensures var cols := [NameColumn(sorted), IdColumn(sorted), LinkColumn(sorted)];
      Table.RowCells(cols, i) == RowOf(sorted, i)
  {
    var cols := [NameColumn(sorted), IdColumn(sorted), LinkColumn(sorted)];
    var cells := Table.RowCells(cols, i);
    var p := sorted[i];
    LinkCellUnpadded(cols[2], i);
    assert cells[0] == FormatWithStyle(DisplayName(p), Width(cols[0]), true);
    assert cells[1] == FormatWithStyle(IdText(p), Width(cols[1]), true);
    assert cells[2] == MaskLink(ProfileUrl(p.playerId), LinkSymbol);
  }

  lemma BuiltRow(title: string, sorted: seq<PlayerServer>, i: nat)
    requires i < |sorted|
    ensures |Table.Build(ListBuilder(title, sorted)).lines| == |sorted| + 1
    ensures Table.Build(ListBuilder(title, sorted)).lines[i + 1] == Table.FormatRow(RowOf(sorted, i))
  {
    BuiltLine(title, sorted, i);
    BuiltCells(sorted, i);
  }

  /** Row `i` of the table shows the `i`-th player in name order: the
      display name and the decimal id, each padded to its column, and the
      profile link. */
  lemma ListRow(players: seq<PlayerServer>, i: nat)
    requires i < |players|
    ensures var sorted := SortedPlayers(players);
      ListTable(players).lines[i + 1] == Table.FormatRow(RowOf(sorted, i))
  {
    BuiltRow(ListTitle(|players|), SortedPlayers(players), i);
  }

  /** `format_list_players`: the title line, then the table's lines, joined
      by newlines; with no players, the title and "No data available.". */
  function FormatListPlayers(players: seq<PlayerServer>): (r: string)
    ensures StartsWith(r, ListTitle(|players|) + "\n")
    ensures |players| == 0 ==> r == ListTitle(0) + "\n" + Table.NoData
  {
    var title := ListTitle(|players|);
    if |players| == 0 then title + "\n" + Table.NoData
    else
      var table := ListTable(players);
      var lines := [table.title] + table.lines;
      JoinCons(table.title, table.lines, "\n");
      StartsWithFacts(Join(table.lines, "\n"), "", "", title + "\n", "");
      Join(lines, "\n")
  }

  /** When no name holds a newline, splitting the text at newlines gives the
      title, the header and then one row per player in name order. */
  lemma ListLines(players: seq<PlayerServer>)
    requires |players| > 0
    requires forall k :: 0 <= k < |players| ==> '\n' !in DisplayName(players[k])
    ensures var lines := Split(FormatListPlayers(players), "\n");
      && |lines| == |players| + 2
      && lines[0] == ListTitle(|players|)
      && lines[1..] == ListTable(players).lines
  {
    var table := ListTable(players);
    var xs := [table.title] + table.lines;
    assert FormatListPlayers(players) == Join(xs, "\n");
    LinesArePlain(players);
    SplitJoinChar(xs, '\n');
  }

  lemma LinesArePlain(players: seq<PlayerServer>)
    requires |players| > 0
    requires forall k :: 0 <= k < |players| ==> '\n' !in DisplayName(players[k])
    ensures var xs := [ListTable(players).title] + ListTable(players).lines;
      forall k :: 0 <= k < |xs| ==> '\n' !in xs[k]
  {
    TitleHasNoNewline(|players|);
    TableLinesArePlain(players);
    PlainPrepend(ListTable(players).title, ListTable(players).lines);
  }

  lemma PlainPrepend(title: string, lines: seq<string>)
    requires '\n' !in title
    requires forall k :: 0 <= k < |lines| ==> '\n' !in lines[k]
    ensures forall k :: 0 <= k < |[title] + lines| ==> '\n' !in ([title] + lines)[k]
  {
  }

  lemma TableLinesArePlain(players: seq<PlayerServer>)
    requires |players| > 0
    requires forall k :: 0 <= k < |players| ==> '\n' !in DisplayName(players[k])
    ensures forall k :: 0 <= k < |ListTable(players).lines| ==> '\n' !in ListTable(players).lines[k]
  {
    forall k | 0 <= k < |ListTable(players).lines|
      ensures '\n' !in ListTable(players).lines[k]
    {
      TableLineIsPlain(players, k);
    }
  }

  lemma TableLineIsPlain(players: seq<PlayerServer>, k: nat)
    requires |players| > 0
    requires forall j :: 0 <= j < |players| ==> '\n' !in DisplayName(players[j])
    requires k < |ListTable(players).lines|
    ensures '\n' !in ListTable(players).lines[k]
  {
    if k == 0 {
      HeaderLineHasNoNewline(players);
    } else {
      RowLineHasNoNewline(players, k - 1);
    }
  }

  lemma IntHasNoNewline(i: int)
    ensures '\n' !in IntToString(i)
  {
    var r := IntToString(i);
    forall k | 0 <= k < |r|
      ensures r[k] != '\n'
    {
      if k == 0 && i >= 0 {
        assert r == NatToString(i);
      }
    }
  }

  lemma PadHasNoNewline(s: string, width: nat)
    requires '\n' !in s
    ensures '\n' !in PadRight(s, width)
  {
    var r := PadRight(s, width);
    forall k | 0 <= k < |r|
      ensures r[k] != '\n'
    {
      if k < |s| {
        assert r[k] == r[..|s|][k];
      }
    }
  }

  lemma {:induction false} JoinHasNoNewline(xs: seq<string>, sep: string)
    requires '\n' !in sep
    requires forall k :: 0 <= k < |xs| ==> '\n' !in xs[k]
    ensures '\n' !in Join(xs, sep)
    decreases |xs|
  {
    if |xs| > 1 {
      JoinHasNoNewline(xs[1..], sep);
    }
  }

  lemma RowHasNoNewline(cells: seq<string>)
    requires forall k :: 0 <= k < |cells| ==> '\n' !in cells[k]
    ensures '\n' !in Table.FormatRow(cells)
  {
    JoinHasNoNewline(cells, " | ");
  }

  lemma StyledHasNoNewline(v: string, w: nat)
    requires '\n' !in v
    ensures '\n' !in FormatWithStyle(v, w, true)
  {
    PadHasNoNewline(v, w);
  }

  lemma ProfileLinkHasNoNewline(id: int)
    ensures '\n' !in MaskLink(ProfileUrl(id), LinkSymbol)
  {
    IntHasNoNewline(id);
  }

  /** The header text of a column has no line break. */
  predicate PlainHeader(c: Column) {
    match c
    case Text(h, _, _) => '\n' !in h
    case Link(t, _) => '\n' !in t
  }

  lemma ColumnHeaderHasNoNewline(c: Column, w: nat)
    requires PlainHeader(c)
    ensures '\n' !in FormatHeader(c, w)
  {
    match c
    case Text(h, _, code) =>
      PadHasNoNewline(h, w);
      if code {
        StyledHasNoNewline(h, w);
      }
    case Link(t, _) => PadHasNoNewline(t, w);
  }

  lemma HeaderCellsHaveNoNewline(cols: seq<Column>)
    requires forall k :: 0 <= k < |cols| ==> PlainHeader(cols[k])
    ensures forall k :: 0 <= k < |Table.HeaderCells(cols)| ==> '\n' !in Table.HeaderCells(cols)[k]
  {
    var cells := Table.HeaderCells(cols);
    forall k | 0 <= k < |cells|
      ensures '\n' !in cells[k]
    {
      ColumnHeaderHasNoNewline(cols[k], Width(cols[k]));
    }
  }

  lemma HeaderHasNoNewline(title: string, sorted: seq<PlayerServer>)
    requires |sorted| > 0
    ensures '\n' !in Table.Build(ListBuilder(title, sorted)).lines[0]
  {
    var tb := ListBuilder(title, sorted);
    assert '\n' !in "Player Name" && '\n' !in "Player ID" && '\n' !in LinkSymbol;
    assert PlainHeader(tb.columns[0]) && PlainHeader(tb.columns[1]) && PlainHeader(tb.columns[2]);
    HeaderCellsHaveNoNewline(tb.columns);
    RowHasNoNewline(Table.HeaderCells(tb.columns));
  }

  lemma RowCellsHaveNoNewline(sorted: seq<PlayerServer>, i: nat)
    requires i < |sorted| && '\n' !in DisplayName(sorted[i])
    ensures '\n' !in Table.FormatRow(RowOf(sorted, i))
  {
    var p := sorted[i];
    var cells := RowOf(sorted, i);
    StyledHasNoNewline(DisplayName(p), Width(NameColumn(sorted)));
    IntHasNoNewline(p.playerId);
    StyledHasNoNewline(IdText(p), Width(IdColumn(sorted)));
    ProfileLinkHasNoNewline(p.playerId);
    RowHasNoNewline(cells);
  }

  lemma TitleSuffixHasNoNewline()
    ensures '\n' !in TitleSuffix
  {
    forall k | 0 <= k < |TitleSuffix|
      ensures TitleSuffix[k] != '\n'
    {
    }
  }

  lemma TitleHasNoNewline(n: nat)
    ensures '\n' !in ListTitle(n)
  {
    IntHasNoNewline(n);
    TitleSuffixHasNoNewline();
    var i := IntToString(n);
    assert forall k :: 0 <= k < |i + TitleSuffix| ==> (i + TitleSuffix)[k] in i || (i + TitleSuffix)[k] in TitleSuffix;
  }

  lemma SortedKeepsNoNewline(players: seq<PlayerServer>, i: nat)
    requires forall j :: 0 <= j < |players| ==> '\n' !in DisplayName(players[j])
    requires i < |players|
    ensures '\n' !in DisplayName(SortedPlayers(players)[i])
  {
    var p := SortedPlayers(players)[i];
    assert p in multiset(players);
    var j :| 0 <= j < |players| && players[j] == p;
  }

  lemma HeaderLineHasNoNewline(players: seq<PlayerServer>)
    requires |players| > 0
    ensures '\n' !in ListTable(players).lines[0]
  {
    HeaderHasNoNewline(ListTitle(|players|), SortedPlayers(players));
  }

  lemma RowLineHasNoNewline(players: seq<PlayerServer>, i: nat)
    requires forall j :: 0 <= j < |players| ==> '\n' !in DisplayName(players[j])
    requires i < |players|
    ensures '\n' !in ListTable(players).lines[i + 1]
  {
    var sorted := SortedPlayers(players);
    SortedKeepsNoNewline(players, i);
    BuiltRow(ListTitle(|players|), sorted, i);
    RowCellsHaveNoNewline(sorted, i);
  }
}
