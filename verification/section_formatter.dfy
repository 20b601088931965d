/** The four kinds of leaderboard section (src/leaderboard/section_formatter.rs).
    Each keeps the players that qualify, ranks them best first with recency
    as the tie-break, names the first one in the title, and shows one table
    row per ranked player.

    Text the model does not compute is a parameter: the float percentages
    and averages (`Formatters`), the date text, the emoji, and the hero names
    (a map from hero id to name). */
module SectionFormatter {
  import opened Wrappers
  import opened Strings
  import opened Sorting
  import opened Rates
  import opened Columns
  import opened Section
  import Table
  import OpenDotaLinks
  import opened StatsCalculator

  /** The float and date text, given rather than computed. */
  datatype Formatters = Formatters(
    /** `{:.0}` of `num / den * 100` in `f64`. */
    percent: (int, int) -> string,
    /** The same, computed in `f32` (the Pick% column). */
    percent32: (int, int) -> string,
    /** `{:.2}` of `total / count` in `f32`. */
    average: (int, int) -> string,
    /** `(total as f32 / count) as i32`, the average a duration shows. */
    averageSeconds: (int, int) -> int,
    /** `format_section_timestamp` (src/util/dates.rs). */
    timestamp: int -> string)

  const UnknownHero: string := "Unknown Hero"

  /** `get_hero_by_id(id).unwrap_or("Unknown Hero")`. */
  function HeroName(heroes: map<int, string>, id: int): (name: string)
    ensures id in heroes ==> name == heroes[id]
    ensures id !in heroes ==> name == UnknownHero
  {
    if id in heroes then heroes[id] else UnknownHero
  }

  /** `format!("{:>3.0}%", p)`, given the text of `p`. */
  function PercentCell(p: string): (r: string)
    ensures |r| == Max(|p|, 3) + 1 && r[|r| - 1] == '%'
    ensures r[|r| - 1 - |p|..|r| - 1] == p
  {
    PadLeft(p, 3) + "%"
  }

  function MapSeq<T, U>(xs: seq<T>, f: T -> U): (r: seq<U>)
    ensures |r| == |xs|
    ensures forall i :: 0 <= i < |xs| ==> r[i] == f(xs[i])
  {
    seq(|xs|, i requires 0 <= i < |xs| => f(xs[i]))
  }

  // -------------------------------------------------------------------------
  // The shared table
  // -------------------------------------------------------------------------

  function PlayerName(s: PlayerStats): string {
    s.playerName
  }

  function ProfileUrlOf(s: PlayerStats): string {
    OpenDotaLinks.ProfileUrl(s.playerId)
  }

  /** What every section's table does: a link column first when
      `includeLinks`, then the text columns; one row per ranked player. */
  function Standings(title: string, includeLinks: bool, links: seq<string>, texts: seq<Column>): (s: LeaderboardSection)
    requires |texts| > 0
    requires forall k :: 0 <= k < |texts| ==> Len(texts[k]) == |links|
    ensures s.title == title
    ensures |links| == 0 ==> s.lines == [Table.NoData]
    ensures |links| > 0 ==> |s.lines| == |links| + 1
  {
    StandingsTable(title, includeLinks, links, texts);
    Table.Build(Table.AddColumns(Table.New(title), StandingColumns(includeLinks, links, texts)))
  }

  function StandingColumns(includeLinks: bool, links: seq<string>, texts: seq<Column>): seq<Column> {
    (if includeLinks then [NewLink(links)] else []) + texts
  }

  /** The builder behind `Standings` is consistent, with one row per link. */
  lemma StandingsTable(title: string, includeLinks: bool, links: seq<string>, texts: seq<Column>)
    requires |texts| > 0
    requires forall k :: 0 <= k < |texts| ==> Len(texts[k]) == |links|
    ensures var cols := StandingColumns(includeLinks, links, texts);
      && (forall k :: 0 <= k < |cols| ==> Len(cols[k]) == Len(cols[0]))
      && var tb := Table.AddColumns(Table.New(title), cols);
      && Table.Consistent(tb) && tb.title == title && tb.columns == cols
      && tb.rowCount == Some(|links|)
  {
    var cols := StandingColumns(includeLinks, links, texts);
    assert Len(cols[0]) == |links|;
    Table.AddColumnsKeepsOrder(Table.New(title), cols);
    var tb := Table.AddColumns(Table.New(title), cols);
    assert tb.columns[0] == cols[0];
  }

  /** The row of ranked player `i` starts with the player's link, when there
      is a link column, and then the player's name. */
  predicate RowsFollow(sec: LeaderboardSection, ranking: seq<PlayerStats>, includeLinks: bool,
                       link: PlayerStats -> string)
  {
    && |sec.lines| == |ranking| + 1
    && forall i :: 0 <= i < |ranking| ==>
         StartsWith(sec.lines[i + 1], RowStart(includeLinks, link(ranking[i]), ranking[i].playerName))
  }

  /** How the row of a player starts: the link cell when there is one,
      then a backtick and the player's name. */
  function RowStart(includeLinks: bool, link: string, name: string): string {
    if includeLinks then "| " + MaskLink(link, LinkSymbol) + " | `" + name else "| `" + name
  }

  /** A table line starts with its first cell. */
  lemma FormatRowFirst(cells: seq<string>, name: string)
    requires |cells| >= 1 && StartsWith(cells[0], "`" + name)
    ensures StartsWith(Table.FormatRow(cells), RowStart(false, "", name))
  {
    var sep := " | ";
    var p := "`" + name;
    JoinHead(cells, sep);
    StartsWithFacts(Join(cells, sep), cells[0], p, "", "");
    StartsWithFacts(Join(cells, sep), p, "", "| ", " |");
    assert "| " + p == RowStart(false, "", name);
  }

  /** A table line starts with its first two cells. */
  lemma FormatRowSecond(cells: seq<string>, link: string, name: string)
    requires |cells| >= 2 && cells[0] == MaskLink(link, LinkSymbol) && StartsWith(cells[1], "`" + name)
    ensures StartsWith(Table.FormatRow(cells), RowStart(true, link, name))
  {
    var sep := " | ";
    var q := "`" + name;
    assert cells == [cells[0]] + cells[1..];
    JoinCons(cells[0], cells[1..], sep);
    JoinHead(cells[1..], sep);
    StartsWithFacts(Join(cells[1..], sep), cells[1], q, "", "");
    StartsWithFacts(Join(cells[1..], sep), q, "", "| " + cells[0] + sep, " |");
    assert Table.FormatRow(cells) == "| " + cells[0] + sep + Join(cells[1..], sep) + " |";
    assert "| " + cells[0] + sep + q == RowStart(true, link, name);
  }

  /** A text cell in inline code starts with a backtick and its value. */
  lemma TextCellStart(c: Column, i: nat)
    requires c.Text? && c.inlineCode && i < Len(c)
    ensures StartsWith(FormatCell(c, i, Width(c)), "`" + c.values[i])
  {
    var v := c.values[i];
    var first := FormatCell(c, i, Width(c));
    assert first == "`" + PadRight(v, Width(c)) + "`";
    assert first[..|v| + 1] == "`" + PadRight(v, Width(c))[..|v|];
  }

  lemma StandingsLine(title: string, includeLinks: bool, links: seq<string>, texts: seq<Column>, i: nat)
    requires |texts| > 0
    requires forall k :: 0 <= k < |texts| ==> Len(texts[k]) == |links|
    requires i < |links|
    ensures var cols := StandingColumns(includeLinks, links, texts);
      && (forall k :: 0 <= k < |cols| ==> i < Len(cols[k]))
      && Standings(title, includeLinks, links, texts).lines[i + 1] == Table.FormatRow(Table.RowCells(cols, i))
  {
    StandingsTable(title, includeLinks, links, texts);
  }

  /** The first cells of row `i`: the link, if any, then the first text cell. */
  lemma StandingCells(includeLinks: bool, links: seq<string>, texts: seq<Column>, i: nat)
    requires |texts| > 0 && texts[0].Text?
    requires forall k :: 0 <= k < |texts| ==> Len(texts[k]) == |links|
    requires i < |links|
    ensures var cols := StandingColumns(includeLinks, links, texts);
      && (forall k :: 0 <= k < |cols| ==> i < Len(cols[k]))
      && var cells := Table.RowCells(cols, i);
      && |cells| == |cols|
      && (includeLinks ==> cells[0] == MaskLink(links[i], LinkSymbol)
                           && cells[1] == FormatCell(texts[0], i, Width(texts[0])))
      && (!includeLinks ==> cells[0] == FormatCell(texts[0], i, Width(texts[0])))
  {
    var cols := StandingColumns(includeLinks, links, texts);
    assert forall k :: 0 <= k < |cols| ==> i < Len(cols[k]);
    if includeLinks {
      LinkCellUnpadded(cols[0], i);
      assert cols[1] == texts[0];
    } else {
      assert cols[0] == texts[0];
    }
  }

  lemma StandingsRow(title: string, includeLinks: bool, links: seq<string>, texts: seq<Column>, i: nat)
    requires |texts| > 0 && texts[0].Text? && texts[0].inlineCode
    requires forall k :: 0 <= k < |texts| ==> Len(texts[k]) == |links|
    requires i < |links|
    ensures StartsWith(Standings(title, includeLinks, links, texts).lines[i + 1],
      RowStart(includeLinks, links[i], texts[0].values[i]))
  {
    var cols := StandingColumns(includeLinks, links, texts);
    StandingsLine(title, includeLinks, links, texts, i);
    var cells := Table.RowCells(cols, i);
    TextCellStart(texts[0], i);
    StandingCells(includeLinks, links, texts, i);
    if includeLinks {
      FormatRowSecond(cells, links[i], texts[0].values[i]);
    } else {
      FormatRowFirst(cells, texts[0].values[i]);
    }
  }

  /** `Standings` over a ranking whose first text column is the players'
      names shows the ranking row by row. */
  lemma StandingsFollowRanking(title: string, includeLinks: bool, ranking: seq<PlayerStats>,
                               link: PlayerStats -> string, texts: seq<Column>)
    requires |ranking| > 0
    requires |texts| > 0 && texts[0] == NewText("Player", MapSeq(ranking, PlayerName))
    requires forall k :: 0 <= k < |texts| ==> Len(texts[k]) == |ranking|
    ensures RowsFollow(Standings(title, includeLinks, MapSeq(ranking, link), texts), ranking, includeLinks, link)
  {
    var links := MapSeq(ranking, link);
    forall i | 0 <= i < |ranking|
      ensures StartsWith(Standings(title, includeLinks, links, texts).lines[i + 1],
        RowStart(includeLinks, link(ranking[i]), ranking[i].playerName))
    {
      StandingsRow(title, includeLinks, links, texts, i);
    }
  }

  /** `texts` are text columns in inline code with the given headers, in
      order, and `n` values each. */
  predicate TextColumns(texts: seq<Column>, headers: seq<string>, n: nat) {
    && |texts| == |headers|
    && forall k :: 0 <= k < |texts| ==>
         texts[k].Text? && texts[k].inlineCode && texts[k].header == headers[k] && |texts[k].values| == n
  }

  /** The cells of table row `i`: the masked link when there is a link
      column, then each text column's value for the row at the column's
      width. */
  function RowCellsOf(includeLinks: bool, link: string, texts: seq<Column>, i: nat): (cells: seq<string>)
    requires forall k :: 0 <= k < |texts| ==> i < Len(texts[k])
    ensures |cells| == |texts| + (if includeLinks then 1 else 0)
  {
    (if includeLinks then [MaskLink(link, LinkSymbol)] else []) + Table.RowCells(texts, i)
  }

  /** Row `i` of the section's table shows ranked player `i`: its link, if
      any, then its value in every text column. */
  predicate RowsShow(sec: LeaderboardSection, ranking: seq<PlayerStats>, includeLinks: bool,
                     link: PlayerStats -> string, texts: seq<Column>)
  {
    && |sec.lines| == |ranking| + 1
    && (forall k :: 0 <= k < |texts| ==> texts[k].Text? && texts[k].inlineCode && |texts[k].values| == |ranking|)
    && forall i :: 0 <= i < |ranking| ==>
         sec.lines[i + 1] == Table.FormatRow(RowCellsOf(includeLinks, link(ranking[i]), texts, i))
  }

  /** With a link column in front, a row's cells are the masked link
      followed by the text columns' cells. */
  lemma LinkedCells(links: seq<string>, texts: seq<Column>, i: nat)
    requires forall k :: 0 <= k < |texts| ==> Len(texts[k]) == |links|
    requires i < |links|
    ensures forall k :: 0 <= k < |[NewLink(links)] + texts| ==> i < Len(([NewLink(links)] + texts)[k])
    ensures Table.RowCells([NewLink(links)] + texts, i) == [MaskLink(links[i], LinkSymbol)] + Table.RowCells(texts, i)
  {
    var link := NewLink(links);
    Table.RowCellsAppend([link], texts, i);
    LinkCellUnpadded(link, i);
    assert Table.RowCells([link], i) == [MaskLink(links[i], LinkSymbol)];
  }

  /** The table cells of one row are the link cell and the text cells. */
  lemma StandingsCellsOf(includeLinks: bool, links: seq<string>, texts: seq<Column>, i: nat)
    requires forall k :: 0 <= k < |texts| ==> Len(texts[k]) == |links|
    requires i < |links|
    ensures var cols := StandingColumns(includeLinks, links, texts);
      && (forall k :: 0 <= k < |cols| ==> i < Len(cols[k]))
      && Table.RowCells(cols, i) == RowCellsOf(includeLinks, links[i], texts, i)
  {
    if includeLinks {
      LinkedCells(links, texts, i);
    } else {
      assert StandingColumns(includeLinks, links, texts) == texts;
    }
  }

  /** `Standings` over a ranking shows each ranked player's values row by row. */
  lemma StandingsShow(title: string, includeLinks: bool, ranking: seq<PlayerStats>,
                      link: PlayerStats -> string, texts: seq<Column>)
    requires |ranking| > 0 && |texts| > 0
    requires forall k :: 0 <= k < |texts| ==> texts[k].Text? && texts[k].inlineCode && |texts[k].values| == |ranking|
    ensures RowsShow(Standings(title, includeLinks, MapSeq(ranking, link), texts), ranking, includeLinks, link, texts)
  {
    var links := MapSeq(ranking, link);
    var sec := Standings(title, includeLinks, links, texts);
    forall i | 0 <= i < |ranking|
      ensures sec.lines[i + 1] == Table.FormatRow(RowCellsOf(includeLinks, link(ranking[i]), texts, i))
    {
      StandingsLine(title, includeLinks, links, texts, i);
      StandingsCellsOf(includeLinks, links, texts, i);
    }
  }

  /** Every row line after the header starts with a link cell, or with
      the first text cell when there is no link column. */
  predicate RowsLinked(sec: LeaderboardSection, linked: bool) {
    forall i :: 1 <= i < |sec.lines| ==>
      StartsWith(sec.lines[i], if linked then "| [" + LinkSymbol + "](" else "| `")
  }

  lemma RowsFollowLinked(sec: LeaderboardSection, ranking: seq<PlayerStats>, includeLinks: bool,
                         link: PlayerStats -> string)
    requires RowsFollow(sec, ranking, includeLinks, link)
    ensures RowsLinked(sec, includeLinks)
  {
    var p := if includeLinks then "| [" + LinkSymbol + "](" else "| `";
    forall i | 1 <= i < |sec.lines|
      ensures StartsWith(sec.lines[i], p)
    {
      var st := RowStart(includeLinks, link(ranking[i - 1]), ranking[i - 1].playerName);
      assert st[..|p|] == p;
      StartsWithFacts(sec.lines[i], st, p, "", "");
    }
  }

  /** The part every title shares:
      "[{duration}] - {left} {text} {right} - __*{player}*__ - ". */
  function TitleHead(durationLabel: string, left: string, text: string, right: string, player: string): string {
    TitlePrefix(durationLabel, left, text, right) + player + "*__ - "
  }

  /** What a title shows before the winner's name. */
  function TitlePrefix(durationLabel: string, left: string, text: string, right: string): string {
    "[" + durationLabel + "] - " + left + " " + text + " " + right + " - __*"
  }

  lemma TitleStarts(durationLabel: string, left: string, text: string, right: string, player: string, rest: string)
    ensures StartsWith(TitleHead(durationLabel, left, text, right, player) + rest, TitlePrefix(durationLabel, left, text, right))
  {
    var p := TitlePrefix(durationLabel, left, text, right);
    assert (p + player + "*__ - " + rest)[..|p|] == p;
  }

  function LastPlayed(s: PlayerStats): int {
    s.mostRecentMatchTime
  }

  // -------------------------------------------------------------------------
  // Win rate
  // -------------------------------------------------------------------------

  /** A win-rate section ranks the players with at least one game under the
      selector. */
  function HasGames(selector: PlayerStats -> (int, int)): PlayerStats -> bool {
    (s: PlayerStats) => selector(s).1 > 0
  }

  function WinRate(selector: PlayerStats -> (int, int)): PlayerStats -> Rate {
    (s: PlayerStats) => RateOf(selector(s).0, selector(s).1)
  }

  /** Higher win rate first; on equal rates, the more recent player first. */
  function WinrateOrder(selector: PlayerStats -> (int, int)): (PlayerStats, PlayerStats) -> bool {
    ThenBy(RateDesc(WinRate(selector)), DescBy(LastPlayed))
  }

  lemma WinrateOrderIsStrictWeak(selector: PlayerStats -> (int, int))
    ensures StrictWeakOrder(WinrateOrder(selector))
  {
    RateDescOrder(WinRate(selector));
    DescByOrder(LastPlayed);
    ThenByOrder(RateDesc(WinRate(selector)), DescBy(LastPlayed));
  }

  function WinrateRanking(all: seq<PlayerStats>, selector: PlayerStats -> (int, int)): seq<PlayerStats> {
    Sort(Filter(all, HasGames(selector)), WinrateOrder(selector))
  }

  function WinrateTitle(durationLabel: string, left: string, right: string, titleText: string,
                        winRateLabel: string, fmt: Formatters, selector: PlayerStats -> (int, int),
                        winner: PlayerStats): string
  {
    TitleHead(durationLabel, left, titleText, right, winner.playerName)
    + fmt.percent(selector(winner).0, selector(winner).1) + "% " + winRateLabel
  }

  /** The columns after the link: Player, Win%, Wins, Total. */
  function WinrateTexts(ranking: seq<PlayerStats>, selector: PlayerStats -> (int, int), fmt: Formatters): (texts: seq<Column>)
    ensures |texts| == 4 && texts[0] == NewText("Player", MapSeq(ranking, PlayerName))
    ensures forall k :: 0 <= k < |texts| ==> Len(texts[k]) == |ranking|
    ensures TextColumns(texts, ["Player", "Win%", "Wins", "Total"], |ranking|)
    ensures forall i :: 0 <= i < |ranking| ==>
      var (wins, total) := selector(ranking[i]);
      && texts[0].values[i] == ranking[i].playerName
      && texts[1].values[i] == (if total > 0 then PercentCell(fmt.percent(wins, total)) else "-")
      && texts[2].values[i] == IntToString(wins)
      && texts[3].values[i] == IntToString(total)
  {
    [ NewText("Player", MapSeq(ranking, PlayerName)),
      NewText("Win%", MapSeq(ranking, (s: PlayerStats) =>
        if selector(s).1 > 0 then PercentCell(fmt.percent(selector(s).0, selector(s).1)) else "-")),
      NewText("Wins", MapSeq(ranking, (s: PlayerStats) => IntToString(selector(s).0))),
      NewText("Total", MapSeq(ranking, (s: PlayerStats) => IntToString(selector(s).1))) ]
  }

  /** `build_winrate_section`. */
  function BuildWinrateSection(durationLabel: string, all: seq<PlayerStats>, selector: PlayerStats -> (int, int),
                               left: string, right: string, titleText: string, winRateLabel: string,
                               includeLinks: bool, fmt: Formatters): (r: Option<LeaderboardSection>)
    ensures r.None? <==> forall i :: 0 <= i < |all| ==> selector(all[i]).1 <= 0
    ensures r.Some? ==>
      var ranking := WinrateRanking(all, selector);
      && |ranking| > 0
      && r.value.title == WinrateTitle(durationLabel, left, right, titleText, winRateLabel, fmt, selector, ranking[0])
      && (forall s :: s in all && selector(s).1 > 0 ==> !WinrateOrder(selector)(s, ranking[0]))
      && RowsFollow(r.value, ranking, includeLinks, ProfileUrlOf)
  {
    var ranking := WinrateRanking(all, selector);
    WinrateOrderIsStrictWeak(selector);
    RankingFacts(all, HasGames(selector), WinrateOrder(selector));
    if |ranking| == 0 then None
    else
      var title := WinrateTitle(durationLabel, left, right, titleText, winRateLabel, fmt, selector, ranking[0]);
      var texts := WinrateTexts(ranking, selector, fmt);
      StandingsFollowRanking(title, includeLinks, ranking, ProfileUrlOf, texts);
      Some(Standings(title, includeLinks, MapSeq(ranking, ProfileUrlOf), texts))
  }
  /** Row `i` of a winrate section shows ranked player `i`: its profile
      link, if shown, then its name, win rate, wins and games. */
  lemma WinrateRows(durationLabel: string, all: seq<PlayerStats>, selector: PlayerStats -> (int, int),
                    left: string, right: string, titleText: string, winRateLabel: string,
                    includeLinks: bool, fmt: Formatters)
    ensures var r := BuildWinrateSection(durationLabel, all, selector, left, right, titleText, winRateLabel,
                                         includeLinks, fmt);
      var ranking := WinrateRanking(all, selector);
      r.Some? ==> RowsShow(r.value, ranking, includeLinks, ProfileUrlOf, WinrateTexts(ranking, selector, fmt))
  {
    var ranking := WinrateRanking(all, selector);
    if |ranking| > 0 {
      var title := WinrateTitle(durationLabel, left, right, titleText, winRateLabel, fmt, selector, ranking[0]);
      StandingsShow(title, includeLinks, ranking, ProfileUrlOf, WinrateTexts(ranking, selector, fmt));
    }
  }


  // -------------------------------------------------------------------------
  // Hero spam
  // -------------------------------------------------------------------------

  /** A hero-spam section ranks the players with a counted hero pick. */
  function HasHeroPick(s: PlayerStats): bool {
    s.heroPick.matches > 0
  }

  /** Games on the favourite hero over all games. */
  function PickRate(s: PlayerStats): Rate {
    RateOf(s.heroPick.matches, s.overall.totalMatches)
  }

  /** Higher pick rate first; on equal rates, the more recent player first. */
  function HeroSpamOrder(): (PlayerStats, PlayerStats) -> bool {
    ThenBy(RateDesc(PickRate), DescBy(LastPlayed))
  }

  lemma HeroSpamOrderIsStrictWeak()
    ensures StrictWeakOrder(HeroSpamOrder())
  {
    RateDescOrder(PickRate);
    DescByOrder(LastPlayed);
    ThenByOrder(RateDesc(PickRate), DescBy(LastPlayed));
  }

  function HeroSpamRanking(all: seq<PlayerStats>): seq<PlayerStats> {
    Sort(Filter(all, HasHeroPick), HeroSpamOrder())
  }

  function HeroSpamTitle(durationLabel: string, left: string, right: string, heading: string,
                         fmt: Formatters, heroes: map<int, string>, winner: PlayerStats): string
  {
    TitleHead(durationLabel, left, heading, right, winner.playerName)
    + fmt.percent(winner.heroPick.matches, winner.overall.totalMatches) + "% Hero Pick Rate ("
    + HeroName(heroes, winner.heroPick.heroId) + ")"
  }

  /** The columns after the link: Player, Hero, Count, Matches, Pick%. */
  function HeroSpamTexts(ranking: seq<PlayerStats>, heroes: map<int, string>, fmt: Formatters): (texts: seq<Column>)
    ensures |texts| == 5 && texts[0] == NewText("Player", MapSeq(ranking, PlayerName))
    ensures forall k :: 0 <= k < |texts| ==> Len(texts[k]) == |ranking|
    ensures TextColumns(texts, ["Player", "Hero", "Count", "Matches", "Pick%"], |ranking|)
    ensures forall i :: 0 <= i < |ranking| ==>
      var s := ranking[i];
      && texts[0].values[i] == s.playerName
      && texts[1].values[i] == HeroName(heroes, s.heroPick.heroId)
      && texts[2].values[i] == IntToString(s.heroPick.matches)
      && texts[3].values[i] == IntToString(s.overall.totalMatches)
      && texts[4].values[i] == PercentCell(fmt.percent32(s.heroPick.matches, s.overall.totalMatches))
  {
    [ NewText("Player", MapSeq(ranking, PlayerName)),
      NewText("Hero", MapSeq(ranking, (s: PlayerStats) => HeroName(heroes, s.heroPick.heroId))),
      NewText("Count", MapSeq(ranking, (s: PlayerStats) => IntToString(s.heroPick.matches))),
      NewText("Matches", MapSeq(ranking, (s: PlayerStats) => IntToString(s.overall.totalMatches))),
      NewText("Pick%", MapSeq(ranking, (s: PlayerStats) =>
        PercentCell(fmt.percent32(s.heroPick.matches, s.overall.totalMatches)))) ]
  }

  /** `build_hero_spam_section`. */
  function BuildHeroSpamSection(durationLabel: string, all: seq<PlayerStats>, left: string, right: string,
                                heading: string, includeLinks: bool, fmt: Formatters,
                                heroes: map<int, string>): (r: Option<LeaderboardSection>)
    ensures r.None? <==> forall i :: 0 <= i < |all| ==> all[i].heroPick.matches <= 0
    ensures r.Some? ==>
      var ranking := HeroSpamRanking(all);
      && |ranking| > 0
      && r.value.title == HeroSpamTitle(durationLabel, left, right, heading, fmt, heroes, ranking[0])
      && (forall s :: s in all && s.heroPick.matches > 0 ==> !HeroSpamOrder()(s, ranking[0]))
      && RowsFollow(r.value, ranking, includeLinks, ProfileUrlOf)
  {
    var ranking := HeroSpamRanking(all);
    HeroSpamOrderIsStrictWeak();
    RankingFacts(all, HasHeroPick, HeroSpamOrder());
    if |ranking| == 0 then None
    else
      var title := HeroSpamTitle(durationLabel, left, right, heading, fmt, heroes, ranking[0]);
      var texts := HeroSpamTexts(ranking, heroes, fmt);
      StandingsFollowRanking(title, includeLinks, ranking, ProfileUrlOf, texts);
      Some(Standings(title, includeLinks, MapSeq(ranking, ProfileUrlOf), texts))
  }
  /** Row `i` of a hero-spam section shows ranked player `i`: its profile
      link, if shown, then its name, hero, count, games and pick rate. */
  lemma HeroSpamRows(durationLabel: string, all: seq<PlayerStats>, left: string, right: string,
                     heading: string, includeLinks: bool, fmt: Formatters, heroes: map<int, string>)
    ensures var r := BuildHeroSpamSection(durationLabel, all, left, right, heading, includeLinks, fmt, heroes);
      var ranking := HeroSpamRanking(all);
      r.Some? ==> RowsShow(r.value, ranking, includeLinks, ProfileUrlOf, HeroSpamTexts(ranking, heroes, fmt))
  {
    var ranking := HeroSpamRanking(all);
    if |ranking| > 0 {
      var title := HeroSpamTitle(durationLabel, left, right, heading, fmt, heroes, ranking[0]);
      StandingsShow(title, includeLinks, ranking, ProfileUrlOf, HeroSpamTexts(ranking, heroes, fmt));
    }
  }


  // -------------------------------------------------------------------------
  // Best single match (kills, assists, deaths) and longest match
  // -------------------------------------------------------------------------

  /** A single-match section ranks the players whose best match has a
      positive value. */
  function HasValue(selector: PlayerStats -> SingleMatchStat): PlayerStats -> bool {
    (s: PlayerStats) => selector(s).value > 0
  }

  function StatValue(selector: PlayerStats -> SingleMatchStat): PlayerStats -> int {
    (s: PlayerStats) => selector(s).value
  }

  function StatDate(selector: PlayerStats -> SingleMatchStat): PlayerStats -> int {
    (s: PlayerStats) => selector(s).date
  }

  /** Higher value first; on equal values, the more recent match first. */
  function ValueOrder(selector: PlayerStats -> SingleMatchStat): (PlayerStats, PlayerStats) -> bool {
    ThenBy(DescBy(StatValue(selector)), DescBy(StatDate(selector)))
  }

  lemma ValueOrderIsStrictWeak(selector: PlayerStats -> SingleMatchStat)
    ensures StrictWeakOrder(ValueOrder(selector))
  {
    DescByOrder(StatValue(selector));
    DescByOrder(StatDate(selector));
    ThenByOrder(DescBy(StatValue(selector)), DescBy(StatDate(selector)));
  }

  function ValueRanking(all: seq<PlayerStats>, selector: PlayerStats -> SingleMatchStat): seq<PlayerStats> {
    Sort(Filter(all, HasValue(selector)), ValueOrder(selector))
  }

  /** With links, a row links to the match itself; without, the source
      still computes profile links, which are never shown. */
  function MatchLinkOf(selector: PlayerStats -> SingleMatchStat, includeLinks: bool): PlayerStats -> string {
    if includeLinks then (s: PlayerStats) => OpenDotaLinks.MatchUrl(selector(s).matchId) else ProfileUrlOf
  }

  function Outcome(stat: SingleMatchStat): string {
    if stat.isVictory then "Win" else "Loss"
  }

  function SingleMatchTitle(durationLabel: string, left: string, right: string, heading: string, statName: string,
                            heroes: map<int, string>, stat: SingleMatchStat, player: string): string
  {
    TitleHead(durationLabel, left, heading, right, player)
    + IntToString(stat.value) + " " + statName + " (" + HeroName(heroes, stat.heroId) + ")"
  }

  /** The columns after the link: Player, the stat, Hero, Outcome, Average,
      Total, Date. */
  function SingleMatchTexts(ranking: seq<PlayerStats>, selector: PlayerStats -> SingleMatchStat, statName: string,
                            heroes: map<int, string>, fmt: Formatters): (texts: seq<Column>)
    ensures |texts| == 7 && texts[0] == NewText("Player", MapSeq(ranking, PlayerName))
    ensures forall k :: 0 <= k < |texts| ==> Len(texts[k]) == |ranking|
    ensures TextColumns(texts, ["Player", statName, "Hero", "Outcome", "Average", "Total", "Date"], |ranking|)
    ensures forall i :: 0 <= i < |ranking| ==> texts[0].values[i] == ranking[i].playerName
    ensures forall i :: 0 <= i < |ranking| ==> texts[1].values[i] == IntToString(selector(ranking[i]).value)
    ensures forall i :: 0 <= i < |ranking| ==> texts[2].values[i] == HeroName(heroes, selector(ranking[i]).heroId)
    ensures forall i :: 0 <= i < |ranking| ==>
      texts[3].values[i] == (if selector(ranking[i]).isVictory then "Win" else "Loss")
    ensures forall i :: 0 <= i < |ranking| ==>
      texts[4].values[i] == fmt.average(selector(ranking[i]).total, selector(ranking[i]).matchCount)
    ensures forall i :: 0 <= i < |ranking| ==> texts[5].values[i] == IntToString(selector(ranking[i]).total)
    ensures forall i :: 0 <= i < |ranking| ==> texts[6].values[i] == fmt.timestamp(selector(ranking[i]).date)
  {
    var value := MapSeq(ranking, (s: PlayerStats) => IntToString(selector(s).value));
    var hero := MapSeq(ranking, (s: PlayerStats) => HeroName(heroes, selector(s).heroId));
    var outcome := MapSeq(ranking, (s: PlayerStats) => Outcome(selector(s)));
    var average := MapSeq(ranking, (s: PlayerStats) => fmt.average(selector(s).total, selector(s).matchCount));
    var total := MapSeq(ranking, (s: PlayerStats) => IntToString(selector(s).total));
    var date := MapSeq(ranking, (s: PlayerStats) => fmt.timestamp(selector(s).date));
    var texts := [ NewText("Player", MapSeq(ranking, PlayerName)), NewText(statName, value), NewText("Hero", hero),
                   NewText("Outcome", outcome), NewText("Average", average), NewText("Total", total),
                   NewText("Date", date) ];
    assert texts[1].values == value && texts[2].values == hero && texts[3].values == outcome;
    assert texts[4].values == average && texts[5].values == total && texts[6].values == date;
    texts
  }

  /** `build_single_match_stat_section`. */
  function BuildSingleMatchStatSection(durationLabel: string, all: seq<PlayerStats>,
                                       selector: PlayerStats -> SingleMatchStat, left: string, right: string,
                                       heading: string, statName: string, includeLinks: bool, fmt: Formatters,
                                       heroes: map<int, string>): (r: Option<LeaderboardSection>)
    ensures r.None? <==> forall i :: 0 <= i < |all| ==> selector(all[i]).value <= 0
    ensures r.Some? ==>
      var ranking := ValueRanking(all, selector);
      && |ranking| > 0
      && r.value.title == SingleMatchTitle(durationLabel, left, right, heading, statName, heroes,
                                           selector(ranking[0]), ranking[0].playerName)
      && (forall s :: s in all && selector(s).value > 0 ==> !ValueOrder(selector)(s, ranking[0]))
      && RowsFollow(r.value, ranking, includeLinks, MatchLinkOf(selector, includeLinks))
  {
    var ranking := ValueRanking(all, selector);
    ValueOrderIsStrictWeak(selector);
    RankingFacts(all, HasValue(selector), ValueOrder(selector));
    if |ranking| == 0 then None
    else
      var title := SingleMatchTitle(durationLabel, left, right, heading, statName, heroes,
                                    selector(ranking[0]), ranking[0].playerName);
      var texts := SingleMatchTexts(ranking, selector, statName, heroes, fmt);
      var link := MatchLinkOf(selector, includeLinks);
      StandingsFollowRanking(title, includeLinks, ranking, link, texts);
      Some(Standings(title, includeLinks, MapSeq(ranking, link), texts))
  }
  /** Row `i` of a single-match section shows ranked player `i`: the match
      link, if shown, then its name and its best match's value, hero,
      outcome, average, total and date. */
  lemma SingleMatchRows(durationLabel: string, all: seq<PlayerStats>, selector: PlayerStats -> SingleMatchStat,
                        left: string, right: string, heading: string, statName: string, includeLinks: bool,
                        fmt: Formatters, heroes: map<int, string>)
    ensures var r := BuildSingleMatchStatSection(durationLabel, all, selector, left, right, heading, statName,
                                                 includeLinks, fmt, heroes);
      var ranking := ValueRanking(all, selector);
      r.Some? ==> RowsShow(r.value, ranking, includeLinks, MatchLinkOf(selector, includeLinks),
                           SingleMatchTexts(ranking, selector, statName, heroes, fmt))
  {
    var ranking := ValueRanking(all, selector);
    if |ranking| > 0 {
      var title := SingleMatchTitle(durationLabel, left, right, heading, statName, heroes,
                                    selector(ranking[0]), ranking[0].playerName);
      StandingsShow(title, includeLinks, ranking, MatchLinkOf(selector, includeLinks),
                    SingleMatchTexts(ranking, selector, statName, heroes, fmt));
    }
  }


  /** Rust's `/` on integers, which truncates toward zero, for a positive
      divisor. */
  function TruncDiv(a: int, b: int): (q: int)
    requires b > 0
    ensures a >= 0 ==> q == a / b
    ensures a < 0 ==> q == -((-a) / b)
  {
    if a >= 0 then a / b else -((-a) / b)
  }

  /** Rust's `%`: the remainder takes the sign of the dividend. */
  function TruncRem(a: int, b: int): (r: int)
    requires b > 0
    ensures a == TruncDiv(a, b) * b + r
    ensures a >= 0 ==> 0 <= r < b
    ensures a < 0 ==> -b < r <= 0
  {
    a - TruncDiv(a, b) * b
  }

  /** `format!("{:02}", n)`: zero-padded to two characters. */
  function TwoDigits(n: int): (r: string)
    ensures 0 <= n < 100 ==> |r| == 2 && AllDigits(r)
  {
    if 0 <= n < 10 then "0" + IntToString(n) else IntToString(n)
  }

  /** `format_duration`: whole hours and the minutes left over, or only the
      minutes under an hour. */
  function FormatDuration(seconds: int): (r: string)
    ensures seconds >= 3600 ==> r == IntToString(seconds / 3600) + "h " + TwoDigits((seconds % 3600) / 60) + "m"
    ensures 0 <= seconds < 3600 ==> r == IntToString(seconds / 60) + "m"
    ensures seconds < 0 ==> r == IntToString(-((-seconds % 3600) / 60)) + "m"
  {
    var hours := TruncDiv(seconds, 3600);
    var minutes := TruncDiv(TruncRem(seconds, 3600), 60);
    if hours > 0 then IntToString(hours) + "h " + TwoDigits(minutes) + "m"
    else IntToString(minutes) + "m"
  }

  /** Reads the text back as a number of minutes: "{h}h {mm}m" or "{m}m". */
  function DurationMinutes(t: string): int {
    var i := IndexOfChar(t, 'h');
    if i < |t| then
      (if i + 2 <= |t| - 1 && AllDigits(t[..i]) && AllDigits(t[i + 2..|t| - 1])
       then ParseDigits(t[..i]) * 60 + ParseDigits(t[i + 2..|t| - 1]) else -1)
    else if |t| >= 1 && AllDigits(t[..|t| - 1]) then ParseDigits(t[..|t| - 1])
    else -1
  }

  lemma DigitsHaveNoH(s: string)
    requires AllDigits(s)
    ensures 'h' !in s
  {
  }

  lemma ParseTwoDigits(m: nat)
    requires m < 60
    ensures AllDigits(TwoDigits(m)) && ParseDigits(TwoDigits(m)) == m
  {
    if m < 10 {
      var t := TwoDigits(m);
      assert t == "0" + NatToString(m);
      assert t[..1] == "0";
      assert ParseDigits("0") == 0 by {
        assert "0"[..0] == "";
      }
    } else {
      ParseNatToString(m);
    }
  }

  /** For a non-negative duration the text shows the whole minutes exactly:
      reading it back gives `seconds / 60`. */
  lemma FormatDurationMinutes(seconds: nat)
    ensures DurationMinutes(FormatDuration(seconds)) == seconds / 60
  {
    var t := FormatDuration(seconds);
    if seconds >= 3600 {
      var h := seconds / 3600;
      var m := (seconds % 3600) / 60;
      var hs := NatToString(h);
      var ms := TwoDigits(m);
      ParseTwoDigits(m);
      ParseNatToString(h);
      DigitsHaveNoH(hs);
      assert t == hs + ['h'] + (" " + ms + "m");
      IndexOfCharAfter(hs, 'h', " " + ms + "m");
      assert t[..|hs|] == hs;
      assert t[|hs| + 2..|t| - 1] == ms;
      assert seconds == h * 3600 + m * 60 + (seconds % 3600) % 60;
      assert seconds / 60 == h * 60 + m;
    } else {
      var m := seconds / 60;
      var ms := NatToString(m);
      ParseNatToString(m);
      DigitsHaveNoH(ms);
      assert t == ms + "m";
      assert 'h' !in t;
      assert IndexOfChar(t, 'h') == |t| by {
        IndexOfCharMissing(t, 'h');
      }
      assert t[..|t| - 1] == ms;
    }
  }

  /** Whole hours are shown once the duration reaches an hour, and the
      minutes then stay below sixty. */
  lemma FormatDurationShape(seconds: int)
    ensures seconds >= 3600 <==> 'h' in FormatDuration(seconds)
    ensures seconds >= 3600 ==> 0 <= (seconds % 3600) / 60 < 60
  {
    var t := FormatDuration(seconds);
    if seconds >= 3600 {
      var hs := IntToString(seconds / 3600);
      assert t[|hs|] == 'h';
    } else {
      var m := TruncDiv(TruncRem(seconds, 3600), 60);
      var ms := IntToString(m);
      assert t == ms + "m";
      forall k | 0 <= k < |t|
        ensures t[k] != 'h'
      {
        if k < |ms| && k > 0 {
          assert IsDigit(ms[k]);
        }
      }
    }
  }

  // -------------------------------------------------------------------------
  // Longest match
  // -------------------------------------------------------------------------

  function LongestMatchOf(s: PlayerStats): SingleMatchStat {
    s.longestMatch
  }

  function LongestMatchTitle(durationLabel: string, left: string, right: string, heading: string, statName: string,
                             winner: PlayerStats): string
  {
    TitleHead(durationLabel, left, heading, right, winner.playerName)
    + statName + " - " + FormatDuration(winner.longestMatch.value)
  }

  /** The columns after the link: Player, Duration, Hero, Outcome, Average,
      Total, Date, the three durations as `format_duration` text. */
  function LongestMatchTexts(ranking: seq<PlayerStats>, heroes: map<int, string>, fmt: Formatters): (texts: seq<Column>)
    ensures |texts| == 7 && texts[0] == NewText("Player", MapSeq(ranking, PlayerName))
    ensures forall k :: 0 <= k < |texts| ==> Len(texts[k]) == |ranking|
    ensures TextColumns(texts, ["Player", "Duration", "Hero", "Outcome", "Average", "Total", "Date"], |ranking|)
    ensures forall i :: 0 <= i < |ranking| ==> texts[0].values[i] == ranking[i].playerName
    ensures forall i :: 0 <= i < |ranking| ==> texts[1].values[i] == FormatDuration(ranking[i].longestMatch.value)
    ensures forall i :: 0 <= i < |ranking| ==> texts[2].values[i] == HeroName(heroes, ranking[i].longestMatch.heroId)
    ensures forall i :: 0 <= i < |ranking| ==>
      texts[3].values[i] == (if ranking[i].longestMatch.isVictory then "Win" else "Loss")
    ensures forall i :: 0 <= i < |ranking| ==>
      var m := ranking[i].longestMatch;
      texts[4].values[i] == FormatDuration(fmt.averageSeconds(m.total, m.matchCount))
    ensures forall i :: 0 <= i < |ranking| ==> texts[5].values[i] == FormatDuration(ranking[i].longestMatch.total)
    ensures forall i :: 0 <= i < |ranking| ==> texts[6].values[i] == fmt.timestamp(ranking[i].longestMatch.date)
  {
    var duration := MapSeq(ranking, (s: PlayerStats) => FormatDuration(s.longestMatch.value));
    var hero := MapSeq(ranking, (s: PlayerStats) => HeroName(heroes, s.longestMatch.heroId));
    var outcome := MapSeq(ranking, (s: PlayerStats) => Outcome(s.longestMatch));
    var average := MapSeq(ranking, (s: PlayerStats) =>
      FormatDuration(fmt.averageSeconds(s.longestMatch.total, s.longestMatch.matchCount)));
    var total := MapSeq(ranking, (s: PlayerStats) => FormatDuration(s.longestMatch.total));
    var date := MapSeq(ranking, (s: PlayerStats) => fmt.timestamp(s.longestMatch.date));
    var texts := [ NewText("Player", MapSeq(ranking, PlayerName)), NewText("Duration", duration),
                   NewText("Hero", hero), NewText("Outcome", outcome), NewText("Average", average),
                   NewText("Total", total), NewText("Date", date) ];
    assert texts[1].values == duration && texts[2].values == hero && texts[3].values == outcome;
    assert texts[4].values == average && texts[5].values == total && texts[6].values == date;
    texts
  }

  /** `build_longest_match_section`: ranked like a single-match section on
      the longest match. */
  function BuildLongestMatchSection(durationLabel: string, all: seq<PlayerStats>, left: string, right: string,
                                    heading: string, statName: string, includeLinks: bool, fmt: Formatters,
                                    heroes: map<int, string>): (r: Option<LeaderboardSection>)
    ensures r.None? <==> forall i :: 0 <= i < |all| ==> LongestMatchOf(all[i]).value <= 0
    ensures r.Some? ==>
      var ranking := ValueRanking(all, LongestMatchOf);
      && |ranking| > 0
      && r.value.title == LongestMatchTitle(durationLabel, left, right, heading, statName, ranking[0])
      && (forall s :: s in all && LongestMatchOf(s).value > 0 ==> !ValueOrder(LongestMatchOf)(s, ranking[0]))
      && RowsFollow(r.value, ranking, includeLinks, MatchLinkOf(LongestMatchOf, includeLinks))
  {
    var ranking := ValueRanking(all, LongestMatchOf);
    ValueOrderIsStrictWeak(LongestMatchOf);
    RankingFacts(all, HasValue(LongestMatchOf), ValueOrder(LongestMatchOf));
    if |ranking| == 0 then None
    else
      var title := LongestMatchTitle(durationLabel, left, right, heading, statName, ranking[0]);
      var texts := LongestMatchTexts(ranking, heroes, fmt);
      var link := MatchLinkOf(LongestMatchOf, includeLinks);
      StandingsFollowRanking(title, includeLinks, ranking, link, texts);
      Some(Standings(title, includeLinks, MapSeq(ranking, link), texts))
  }
  /** Row `i` of a longest-match section shows ranked player `i`: the
      match link, if shown, then its name and its longest match's duration,
      hero, outcome, average, total and date. */
  lemma LongestMatchRows(durationLabel: string, all: seq<PlayerStats>, left: string, right: string,
                         heading: string, statName: string, includeLinks: bool, fmt: Formatters,
                         heroes: map<int, string>)
    ensures var r := BuildLongestMatchSection(durationLabel, all, left, right, heading, statName, includeLinks,
                                              fmt, heroes);
      var ranking := ValueRanking(all, LongestMatchOf);
      r.Some? ==> RowsShow(r.value, ranking, includeLinks, MatchLinkOf(LongestMatchOf, includeLinks),
                           LongestMatchTexts(ranking, heroes, fmt))
  {
    var ranking := ValueRanking(all, LongestMatchOf);
    if |ranking| > 0 {
      var title := LongestMatchTitle(durationLabel, left, right, heading, statName, ranking[0]);
      StandingsShow(title, includeLinks, ranking, MatchLinkOf(LongestMatchOf, includeLinks),
                    LongestMatchTexts(ranking, heroes, fmt));
    }
  }
}
