/** The seven fixed slots of a leaderboard (src/leaderboard/sections.rs):
    which section builder each slot calls, with which selector, emoji,
    wording and link setting. */
module Sections {
  import opened Wrappers
  import opened Strings
  import opened Section
  import opened StatsCalculator
  import opened SectionFormatter
  import opened Sorting
  import Rates

  /** The custom emoji the titles use. Their text lives in a file that is not
      part of this model, so it is a parameter `Emoji -> string`. */
  datatype Emoji =
    | Aegis2015 | WizWow | Onlooker | Immortal | Frog | Sick | Devil
    | DoubleDamage | Giff | WizGlhf | Poop | WizHelp | Sleeping | IoStress

  datatype Category =
    | OverallWinRate | RankedWinRate | HeroSpam
    | MostKills | MostAssists | MostDeaths | LongestMatch

  /** The slot order of `get_leaderboard_sections`. */
  const Slots: seq<Category> :=
    [OverallWinRate, RankedWinRate, HeroSpam, MostKills, MostAssists, MostDeaths, LongestMatch]

  /** The `include_links` argument each slot is given. */
  function IncludesLinks(c: Category): bool {
    match c
    case OverallWinRate => false
    case RankedWinRate => false
    case HeroSpam => false
    case MostKills => true
    case MostAssists => true
    case MostDeaths => true
    case LongestMatch => true
  }

  function OverallCounts(s: PlayerStats): (int, int) {
    (s.overall.wins, s.overall.totalMatches)
  }

  function RankedCounts(s: PlayerStats): (int, int) {
    (s.ranked.wins, s.ranked.totalMatches)
  }

  function MostKillsOf(s: PlayerStats): SingleMatchStat {
    s.mostKills
  }

  function MostAssistsOf(s: PlayerStats): SingleMatchStat {
    s.mostAssists
  }

  function MostDeathsOf(s: PlayerStats): SingleMatchStat {
    s.mostDeaths
  }

  /** Who appears in a category's section, stated field by field. */
  predicate Qualifies(c: Category, s: PlayerStats) {
    match c
    case OverallWinRate => s.overall.totalMatches > 0
    case RankedWinRate => s.ranked.totalMatches > 0
    case HeroSpam => s.heroPick.matches > 0
    case MostKills => s.mostKills.value > 0
    case MostAssists => s.mostAssists.value > 0
    case MostDeaths => s.mostDeaths.value > 0
    case LongestMatch => s.longestMatch.value > 0
  }

  /** The heading between the two emoji. */
  function Heading(c: Category, durationLabel: string): string {
    match c
    case OverallWinRate => "Gamer of the " + durationLabel
    case RankedWinRate => "Ranked Overlord"
    case HeroSpam => "Filthiest Hero Spammer"
    case MostKills => "1v9 Miracle Child"
    case MostAssists => "Support Award"
    case MostDeaths => "Head Chef"
    case LongestMatch => "Most Traumatised"
  }

  function LeftEmoji(c: Category): Emoji {
    match c
    case OverallWinRate => Aegis2015
    case RankedWinRate => Onlooker
    case HeroSpam => Frog
    case MostKills => Devil
    case MostAssists => Giff
    case MostDeaths => Poop
    case LongestMatch => Sleeping
  }

  function RightEmoji(c: Category): Emoji {
    match c
    case OverallWinRate => WizWow
    case RankedWinRate => Immortal
    case HeroSpam => Sick
    case MostKills => DoubleDamage
    case MostAssists => WizGlhf
    case MostDeaths => WizHelp
    case LongestMatch => IoStress
  }

  /** The seven `format_*_section` functions. */
  function FormatSection(c: Category, durationLabel: string, all: seq<PlayerStats>, includeLinks: bool,
                         fmt: Formatters, heroes: map<int, string>, emoji: Emoji -> string): Option<LeaderboardSection>
  {
    var left, right := emoji(LeftEmoji(c)), emoji(RightEmoji(c));
    match c
    case OverallWinRate =>
      BuildWinrateSection(durationLabel, all, OverallCounts, left, right, Heading(c, durationLabel),
                          "Overall Win Rate", includeLinks, fmt)
    case RankedWinRate =>
      BuildWinrateSection(durationLabel, all, RankedCounts, left, right, Heading(c, durationLabel),
                          "Ranked Win Rate", includeLinks, fmt)
    case HeroSpam =>
      BuildHeroSpamSection(durationLabel, all, left, right, Heading(c, durationLabel), includeLinks, fmt, heroes)
    case MostKills =>
      BuildSingleMatchStatSection(durationLabel, all, MostKillsOf, left, right, Heading(c, durationLabel),
                                  "Kills", includeLinks, fmt, heroes)
    case MostAssists =>
      BuildSingleMatchStatSection(durationLabel, all, MostAssistsOf, left, right, Heading(c, durationLabel),
                                  "Assists", includeLinks, fmt, heroes)
    case MostDeaths =>
      BuildSingleMatchStatSection(durationLabel, all, MostDeathsOf, left, right, Heading(c, durationLabel),
                                  "Deaths", includeLinks, fmt, heroes)
    case LongestMatch =>
      BuildLongestMatchSection(durationLabel, all, left, right, Heading(c, durationLabel),
                               "Longest Match Duration", includeLinks, fmt, heroes)
  }

  /** The ranking of the win-rate and hero-spam slots: `s` goes before `w`
      when its rate is higher, or the rates are equal and `s` played more
      recently. */
  predicate RateAbove(rs: Rates.Rate, rw: Rates.Rate, ts: int, tw: int) {
    Rates.Less(rw, rs) || (!Rates.Less(rw, rs) && !Rates.Less(rs, rw) && ts > tw)
  }

  /** The ranking of the single-match slots: a higher value first, and on
      equal values the more recent match. */
  predicate ValueAbove(vs: int, vw: int, ds: int, dw: int) {
    vs > vw || (vs == vw && ds > dw)
  }

  /** Whether `s` must be listed before `w` in category `c`, with each
      category's fields written out as `sections.rs` selects them. */
  predicate Outranks(c: Category, s: PlayerStats, w: PlayerStats) {
    match c
    case OverallWinRate =>
      RateAbove(Rates.RateOf(s.overall.wins, s.overall.totalMatches),
                Rates.RateOf(w.overall.wins, w.overall.totalMatches), s.mostRecentMatchTime, w.mostRecentMatchTime)
    case RankedWinRate =>
      RateAbove(Rates.RateOf(s.ranked.wins, s.ranked.totalMatches),
                Rates.RateOf(w.ranked.wins, w.ranked.totalMatches), s.mostRecentMatchTime, w.mostRecentMatchTime)
    case HeroSpam =>
      RateAbove(Rates.RateOf(s.heroPick.matches, s.overall.totalMatches),
                Rates.RateOf(w.heroPick.matches, w.overall.totalMatches), s.mostRecentMatchTime, w.mostRecentMatchTime)
    case MostKills => ValueAbove(s.mostKills.value, w.mostKills.value, s.mostKills.date, w.mostKills.date)
    case MostAssists => ValueAbove(s.mostAssists.value, w.mostAssists.value, s.mostAssists.date, w.mostAssists.date)
    case MostDeaths => ValueAbove(s.mostDeaths.value, w.mostDeaths.value, s.mostDeaths.date, w.mostDeaths.date)
    case LongestMatch =>
      ValueAbove(s.longestMatch.value, w.longestMatch.value, s.longestMatch.date, w.longestMatch.date)
  }

  /** The title a category gives its winner `w`: the heading between the
      emoji, the winner's name, then the winner's own figures and label. */
  function SlotTitle(c: Category, durationLabel: string, w: PlayerStats, fmt: Formatters,
                     heroes: map<int, string>, emoji: Emoji -> string): string
  {
    var head := TitleHead(durationLabel, emoji(LeftEmoji(c)), Heading(c, durationLabel), emoji(RightEmoji(c)),
                          w.playerName);
    match c
    case OverallWinRate => head + fmt.percent(w.overall.wins, w.overall.totalMatches) + "% " + "Overall Win Rate"
    case RankedWinRate => head + fmt.percent(w.ranked.wins, w.ranked.totalMatches) + "% " + "Ranked Win Rate"
    case HeroSpam =>
      head + fmt.percent(w.heroPick.matches, w.overall.totalMatches) + "% Hero Pick Rate ("
      + HeroName(heroes, w.heroPick.heroId) + ")"
    case MostKills =>
      head + IntToString(w.mostKills.value) + " " + "Kills" + " (" + HeroName(heroes, w.mostKills.heroId) + ")"
    case MostAssists =>
      head + IntToString(w.mostAssists.value) + " " + "Assists" + " (" + HeroName(heroes, w.mostAssists.heroId) + ")"
    case MostDeaths =>
      head + IntToString(w.mostDeaths.value) + " " + "Deaths" + " (" + HeroName(heroes, w.mostDeaths.heroId) + ")"
    case LongestMatch => head + "Longest Match Duration" + " - " + FormatDuration(w.longestMatch.value)
  }

  /** The slot's title names a qualifying player whom no qualifying player
      outranks, and shows that player's own figures. */
  predicate Crowned(title: string, c: Category, durationLabel: string, all: seq<PlayerStats>,
                    fmt: Formatters, heroes: map<int, string>, emoji: Emoji -> string)
  {
    exists w ::
      && w in all && Qualifies(c, w)
      && title == SlotTitle(c, durationLabel, w, fmt, heroes, emoji)
      && forall s :: s in all && Qualifies(c, s) ==> !Outranks(c, s, w)
  }

  /** What one slot promises: it is absent exactly when nobody qualifies;
      otherwise its title opens with the duration, the emoji and the
      heading, its rows start with a link exactly when links are on, and it
      is titled after a qualifying player whom no qualifying player
      outranks. */
  predicate SlotMeets(r: Option<LeaderboardSection>, c: Category, durationLabel: string, all: seq<PlayerStats>,
                      includeLinks: bool, fmt: Formatters, heroes: map<int, string>, emoji: Emoji -> string)
  {
    && (r.None? <==> forall i :: 0 <= i < |all| ==> !Qualifies(c, all[i]))
    && (r.Some? ==> StartsWith(r.value.title,
          TitlePrefix(durationLabel, emoji(LeftEmoji(c)), Heading(c, durationLabel), emoji(RightEmoji(c)))))
    && (r.Some? ==> RowsLinked(r.value, includeLinks))
    && (r.Some? ==> Crowned(r.value.title, c, durationLabel, all, fmt, heroes, emoji))
  }

  /** A player meeting the three conditions crowns the title. */
  lemma CrownedBy(w: PlayerStats, title: string, c: Category, durationLabel: string, all: seq<PlayerStats>,
                  fmt: Formatters, heroes: map<int, string>, emoji: Emoji -> string)
    requires w in all && Qualifies(c, w)
    requires title == SlotTitle(c, durationLabel, w, fmt, heroes, emoji)
    requires forall s :: s in all && Qualifies(c, s) ==> !Outranks(c, s, w)
    ensures Crowned(title, c, durationLabel, all, fmt, heroes, emoji)
  {
  }

  /** The title and row facts of a win-rate section, for any selector. */
  lemma WinrateBuilt(durationLabel: string, all: seq<PlayerStats>, selector: PlayerStats -> (int, int),
                     left: string, right: string, text: string, rateLabel: string, includeLinks: bool,
                     fmt: Formatters)
    ensures var r := BuildWinrateSection(durationLabel, all, selector, left, right, text, rateLabel, includeLinks, fmt);
      r.Some? ==> StartsWith(r.value.title, TitlePrefix(durationLabel, left, text, right)) && RowsLinked(r.value, includeLinks)
  {
    var r := BuildWinrateSection(durationLabel, all, selector, left, right, text, rateLabel, includeLinks, fmt);
    if r.Some? {
      var ranking := WinrateRanking(all, selector);
      TitleStarts(durationLabel, left, text, right, ranking[0].playerName,
                  fmt.percent(selector(ranking[0]).0, selector(ranking[0]).1) + "% " + rateLabel);
      RowsFollowLinked(r.value, ranking, includeLinks, ProfileUrlOf);
    }
  }

  /** The head of a win-rate ranking is one of the players with games. */
  lemma WinrateHeadIn(all: seq<PlayerStats>, selector: PlayerStats -> (int, int))
    requires |WinrateRanking(all, selector)| > 0
    ensures WinrateRanking(all, selector)[0] in all && selector(WinrateRanking(all, selector)[0]).1 > 0
  {
    WinrateOrderIsStrictWeak(selector);
    RankingFacts(all, HasGames(selector), WinrateOrder(selector));
  }

  /** The win-rate order, with the rates written out. */
  lemma WinrateOutranks(selector: PlayerStats -> (int, int), s: PlayerStats, w: PlayerStats)
    ensures WinrateOrder(selector)(s, w) <==>
      RateAbove(Rates.RateOf(selector(s).0, selector(s).1), Rates.RateOf(selector(w).0, selector(w).1),
                s.mostRecentMatchTime, w.mostRecentMatchTime)
  {
    var rate := WinRate(selector);
    var first, second := Rates.RateDesc(rate), DescBy(LastPlayed);
    assert rate(s) == Rates.RateOf(selector(s).0, selector(s).1);
    assert rate(w) == Rates.RateOf(selector(w).0, selector(w).1);
    assert first(s, w) == Rates.Less(rate(w), rate(s));
    assert first(w, s) == Rates.Less(rate(s), rate(w));
    assert second(s, w) == (LastPlayed(s) > LastPlayed(w));
    assert WinrateOrder(selector) == ThenBy(first, second);
  }

  /** A win-rate section is titled after the head of its ranking: a player
      with games whom no player with games outranks on rate, then recency. */
  lemma WinrateHead(durationLabel: string, all: seq<PlayerStats>, selector: PlayerStats -> (int, int),
                    left: string, right: string, text: string, rateLabel: string, includeLinks: bool,
                    fmt: Formatters)
    requires BuildWinrateSection(durationLabel, all, selector, left, right, text, rateLabel, includeLinks, fmt).Some?
    ensures var w := WinrateRanking(all, selector)[0];
      && w in all && selector(w).1 > 0
      && BuildWinrateSection(durationLabel, all, selector, left, right, text, rateLabel, includeLinks, fmt).value.title
         == WinrateTitle(durationLabel, left, right, text, rateLabel, fmt, selector, w)
      && forall s :: s in all && selector(s).1 > 0 ==>
           !RateAbove(Rates.RateOf(selector(s).0, selector(s).1), Rates.RateOf(selector(w).0, selector(w).1),
                      s.mostRecentMatchTime, w.mostRecentMatchTime)
  {
    var w := WinrateRanking(all, selector)[0];
    WinrateHeadIn(all, selector);
    forall s | s in all && selector(s).1 > 0
      ensures !RateAbove(Rates.RateOf(selector(s).0, selector(s).1), Rates.RateOf(selector(w).0, selector(w).1),
                         s.mostRecentMatchTime, w.mostRecentMatchTime)
    {
      WinrateOutranks(selector, s, w);
    }
  }

  lemma OverallCrowned(durationLabel: string, all: seq<PlayerStats>, includeLinks: bool,
                       fmt: Formatters, heroes: map<int, string>, emoji: Emoji -> string)
    ensures var r := FormatSection(OverallWinRate, durationLabel, all, includeLinks, fmt, heroes, emoji);
      r.Some? ==> Crowned(r.value.title, OverallWinRate, durationLabel, all, fmt, heroes, emoji)
  {
    var c := OverallWinRate;
    var left, right, text := emoji(LeftEmoji(c)), emoji(RightEmoji(c)), Heading(c, durationLabel);
    var r := BuildWinrateSection(durationLabel, all, OverallCounts, left, right, text, "Overall Win Rate", includeLinks, fmt);
    assert r == FormatSection(c, durationLabel, all, includeLinks, fmt, heroes, emoji);
    if r.Some? {
      WinrateHead(durationLabel, all, OverallCounts, left, right, text, "Overall Win Rate", includeLinks, fmt);
      var w := WinrateRanking(all, OverallCounts)[0];
      assert r.value.title == SlotTitle(c, durationLabel, w, fmt, heroes, emoji);
      forall s | s in all && Qualifies(c, s)
        ensures !Outranks(c, s, w)
      {
        assert OverallCounts(s).1 > 0;
      }
      CrownedBy(w, r.value.title, c, durationLabel, all, fmt, heroes, emoji);
    }
  }

  lemma RankedCrowned(durationLabel: string, all: seq<PlayerStats>, includeLinks: bool,
                      fmt: Formatters, heroes: map<int, string>, emoji: Emoji -> string)
    ensures var r := FormatSection(RankedWinRate, durationLabel, all, includeLinks, fmt, heroes, emoji);
      r.Some? ==> Crowned(r.value.title, RankedWinRate, durationLabel, all, fmt, heroes, emoji)
  {
    var c := RankedWinRate;
    var left, right, text := emoji(LeftEmoji(c)), emoji(RightEmoji(c)), Heading(c, durationLabel);
    var r := BuildWinrateSection(durationLabel, all, RankedCounts, left, right, text, "Ranked Win Rate", includeLinks, fmt);
    assert r == FormatSection(c, durationLabel, all, includeLinks, fmt, heroes, emoji);
    if r.Some? {
      WinrateHead(durationLabel, all, RankedCounts, left, right, text, "Ranked Win Rate", includeLinks, fmt);
      var w := WinrateRanking(all, RankedCounts)[0];
      assert r.value.title == SlotTitle(c, durationLabel, w, fmt, heroes, emoji);
      forall s | s in all && Qualifies(c, s)
        ensures !Outranks(c, s, w)
      {
        assert RankedCounts(s).1 > 0;
      }
      CrownedBy(w, r.value.title, c, durationLabel, all, fmt, heroes, emoji);
    }
  }

  lemma WinrateSlot(c: Category, durationLabel: string, all: seq<PlayerStats>, includeLinks: bool,
                    fmt: Formatters, heroes: map<int, string>, emoji: Emoji -> string)
    requires c.OverallWinRate? || c.RankedWinRate?
    ensures SlotMeets(FormatSection(c, durationLabel, all, includeLinks, fmt, heroes, emoji),
                      c, durationLabel, all, includeLinks, fmt, heroes, emoji)
  {
    var left, right, text := emoji(LeftEmoji(c)), emoji(RightEmoji(c)), Heading(c, durationLabel);
    var some := FormatSection(c, durationLabel, all, includeLinks, fmt, heroes, emoji).Some?;
    if c.OverallWinRate? {
      WinrateBuilt(durationLabel, all, OverallCounts, left, right, text, "Overall Win Rate", includeLinks, fmt);
      if some {
        OverallCrowned(durationLabel, all, includeLinks, fmt, heroes, emoji);
      }
    } else {
      WinrateBuilt(durationLabel, all, RankedCounts, left, right, text, "Ranked Win Rate", includeLinks, fmt);
      if some {
        RankedCrowned(durationLabel, all, includeLinks, fmt, heroes, emoji);
      }
    }
  }

  /** The title and row facts of a single-match section, for any selector. */
  lemma SingleMatchBuilt(durationLabel: string, all: seq<PlayerStats>, selector: PlayerStats -> SingleMatchStat,
                         left: string, right: string, text: string, statName: string, includeLinks: bool,
                         fmt: Formatters, heroes: map<int, string>)
    ensures var r := BuildSingleMatchStatSection(durationLabel, all, selector, left, right, text, statName,
                                                 includeLinks, fmt, heroes);
      r.Some? ==> StartsWith(r.value.title, TitlePrefix(durationLabel, left, text, right)) && RowsLinked(r.value, includeLinks)
  {
    var r := BuildSingleMatchStatSection(durationLabel, all, selector, left, right, text, statName,
                                         includeLinks, fmt, heroes);
    if r.Some? {
      var ranking := ValueRanking(all, selector);
      var stat := selector(ranking[0]);
      TitleStarts(durationLabel, left, text, right, ranking[0].playerName,
                  IntToString(stat.value) + " " + statName + " (" + HeroName(heroes, stat.heroId) + ")");
      RowsFollowLinked(r.value, ranking, includeLinks, MatchLinkOf(selector, includeLinks));
    }
  }

  /** The head of a value ranking is one of the players with a positive value. */
  lemma ValueHeadIn(all: seq<PlayerStats>, selector: PlayerStats -> SingleMatchStat)
    requires |ValueRanking(all, selector)| > 0
    ensures ValueRanking(all, selector)[0] in all && selector(ValueRanking(all, selector)[0]).value > 0
  {
    ValueOrderIsStrictWeak(selector);
    RankingFacts(all, HasValue(selector), ValueOrder(selector));
  }

  /** The value order, with the values and dates written out. */
  lemma ValueOutranks(selector: PlayerStats -> SingleMatchStat, s: PlayerStats, w: PlayerStats)
    ensures ValueOrder(selector)(s, w) <==>
      ValueAbove(selector(s).value, selector(w).value, selector(s).date, selector(w).date)
  {
    var first, second := DescBy(StatValue(selector)), DescBy(StatDate(selector));
    assert first(s, w) == (selector(s).value > selector(w).value);
    assert first(w, s) == (selector(w).value > selector(s).value);
    assert second(s, w) == (selector(s).date > selector(w).date);
    assert ValueOrder(selector) == ThenBy(first, second);
  }

  /** A single-match section is titled after the head of its ranking, whom
      nobody beats on value, then date. */
  lemma SingleMatchHead(durationLabel: string, all: seq<PlayerStats>, selector: PlayerStats -> SingleMatchStat,
                        left: string, right: string, text: string, statName: string, includeLinks: bool,
                        fmt: Formatters, heroes: map<int, string>)
    ensures var r := BuildSingleMatchStatSection(durationLabel, all, selector, left, right, text, statName,
                                                 includeLinks, fmt, heroes);
      r.Some? ==>
        var w := ValueRanking(all, selector)[0];
        && w in all && selector(w).value > 0
        && r.value.title == SingleMatchTitle(durationLabel, left, right, text, statName, heroes, selector(w), w.playerName)
        && forall s :: s in all && selector(s).value > 0 ==>
             !ValueAbove(selector(s).value, selector(w).value, selector(s).date, selector(w).date)
  {
    var r := BuildSingleMatchStatSection(durationLabel, all, selector, left, right, text, statName,
                                         includeLinks, fmt, heroes);
    if r.Some? {
      var w := ValueRanking(all, selector)[0];
      ValueHeadIn(all, selector);
      forall s | s in all && selector(s).value > 0
        ensures !ValueAbove(selector(s).value, selector(w).value, selector(s).date, selector(w).date)
      {
        ValueOutranks(selector, s, w);
      }
    }
  }

  lemma KillsCrowned(durationLabel: string, all: seq<PlayerStats>, includeLinks: bool,
                     fmt: Formatters, heroes: map<int, string>, emoji: Emoji -> string)
    ensures var r := FormatSection(MostKills, durationLabel, all, includeLinks, fmt, heroes, emoji);
      r.Some? ==> Crowned(r.value.title, MostKills, durationLabel, all, fmt, heroes, emoji)
  {
    var c := MostKills;
    var left, right, text := emoji(LeftEmoji(c)), emoji(RightEmoji(c)), Heading(c, durationLabel);
    var r := BuildSingleMatchStatSection(durationLabel, all, MostKillsOf, left, right, text, "Kills",
                                         includeLinks, fmt, heroes);
    assert r == FormatSection(c, durationLabel, all, includeLinks, fmt, heroes, emoji);
    if r.Some? {
      SingleMatchHead(durationLabel, all, MostKillsOf, left, right, text, "Kills", includeLinks, fmt, heroes);
      var w := ValueRanking(all, MostKillsOf)[0];
      assert r.value.title == SlotTitle(c, durationLabel, w, fmt, heroes, emoji);
      forall s | s in all && Qualifies(c, s)
        ensures !Outranks(c, s, w)
      {
        assert MostKillsOf(s).value > 0;
      }
      CrownedBy(w, r.value.title, c, durationLabel, all, fmt, heroes, emoji);
    }
  }

  lemma AssistsCrowned(durationLabel: string, all: seq<PlayerStats>, includeLinks: bool,
                       fmt: Formatters, heroes: map<int, string>, emoji: Emoji -> string)
    ensures var r := FormatSection(MostAssists, durationLabel, all, includeLinks, fmt, heroes, emoji);
      r.Some? ==> Crowned(r.value.title, MostAssists, durationLabel, all, fmt, heroes, emoji)
  {
    var c := MostAssists;
    var left, right, text := emoji(LeftEmoji(c)), emoji(RightEmoji(c)), Heading(c, durationLabel);
    var r := BuildSingleMatchStatSection(durationLabel, all, MostAssistsOf, left, right, text, "Assists",
                                         includeLinks, fmt, heroes);
    assert r == FormatSection(c, durationLabel, all, includeLinks, fmt, heroes, emoji);
    if r.Some? {
      SingleMatchHead(durationLabel, all, MostAssistsOf, left, right, text, "Assists", includeLinks, fmt, heroes);
      var w := ValueRanking(all, MostAssistsOf)[0];
      assert r.value.title == SlotTitle(c, durationLabel, w, fmt, heroes, emoji);
      forall s | s in all && Qualifies(c, s)
        ensures !Outranks(c, s, w)
      {
        assert MostAssistsOf(s).value > 0;
      }
      CrownedBy(w, r.value.title, c, durationLabel, all, fmt, heroes, emoji);
    }
  }

  lemma DeathsCrowned(durationLabel: string, all: seq<PlayerStats>, includeLinks: bool,
                      fmt: Formatters, heroes: map<int, string>, emoji: Emoji -> string)
    ensures var r := FormatSection(MostDeaths, durationLabel, all, includeLinks, fmt, heroes, emoji);
      r.Some? ==> Crowned(r.value.title, MostDeaths, durationLabel, all, fmt, heroes, emoji)
  {
    var c := MostDeaths;
    var left, right, text := emoji(LeftEmoji(c)), emoji(RightEmoji(c)), Heading(c, durationLabel);
    var r := BuildSingleMatchStatSection(durationLabel, all, MostDeathsOf, left, right, text, "Deaths",
                                         includeLinks, fmt, heroes);
    assert r == FormatSection(c, durationLabel, all, includeLinks, fmt, heroes, emoji);
    if r.Some? {
      SingleMatchHead(durationLabel, all, MostDeathsOf, left, right, text, "Deaths", includeLinks, fmt, heroes);
      var w := ValueRanking(all, MostDeathsOf)[0];
      assert r.value.title == SlotTitle(c, durationLabel, w, fmt, heroes, emoji);
      forall s | s in all && Qualifies(c, s)
        ensures !Outranks(c, s, w)
      {
        assert MostDeathsOf(s).value > 0;
      }
      CrownedBy(w, r.value.title, c, durationLabel, all, fmt, heroes, emoji);
    }
  }

  lemma KillsSlot(durationLabel: string, all: seq<PlayerStats>, includeLinks: bool,
                  fmt: Formatters, heroes: map<int, string>, emoji: Emoji -> string)
    ensures SlotMeets(FormatSection(MostKills, durationLabel, all, includeLinks, fmt, heroes, emoji),
                      MostKills, durationLabel, all, includeLinks, fmt, heroes, emoji)
  {
    var c := MostKills;
    var left, right, text := emoji(LeftEmoji(c)), emoji(RightEmoji(c)), Heading(c, durationLabel);
    SingleMatchBuilt(durationLabel, all, MostKillsOf, left, right, text, "Kills", includeLinks, fmt, heroes);
    if FormatSection(c, durationLabel, all, includeLinks, fmt, heroes, emoji).Some? {
      KillsCrowned(durationLabel, all, includeLinks, fmt, heroes, emoji);
    }
  }

  lemma AssistsSlot(durationLabel: string, all: seq<PlayerStats>, includeLinks: bool,
                    fmt: Formatters, heroes: map<int, string>, emoji: Emoji -> string)
    ensures SlotMeets(FormatSection(MostAssists, durationLabel, all, includeLinks, fmt, heroes, emoji),
                      MostAssists, durationLabel, all, includeLinks, fmt, heroes, emoji)
  {
    var c := MostAssists;
    var left, right, text := emoji(LeftEmoji(c)), emoji(RightEmoji(c)), Heading(c, durationLabel);
    SingleMatchBuilt(durationLabel, all, MostAssistsOf, left, right, text, "Assists", includeLinks, fmt, heroes);
    if FormatSection(c, durationLabel, all, includeLinks, fmt, heroes, emoji).Some? {
      AssistsCrowned(durationLabel, all, includeLinks, fmt, heroes, emoji);
    }
  }

  lemma DeathsSlot(durationLabel: string, all: seq<PlayerStats>, includeLinks: bool,
                   fmt: Formatters, heroes: map<int, string>, emoji: Emoji -> string)
    ensures SlotMeets(FormatSection(MostDeaths, durationLabel, all, includeLinks, fmt, heroes, emoji),
                      MostDeaths, durationLabel, all, includeLinks, fmt, heroes, emoji)
  {
    var c := MostDeaths;
    var left, right, text := emoji(LeftEmoji(c)), emoji(RightEmoji(c)), Heading(c, durationLabel);
    SingleMatchBuilt(durationLabel, all, MostDeathsOf, left, right, text, "Deaths", includeLinks, fmt, heroes);
    if FormatSection(c, durationLabel, all, includeLinks, fmt, heroes, emoji).Some? {
      DeathsCrowned(durationLabel, all, includeLinks, fmt, heroes, emoji);
    }
  }

  /** The title and row facts of the hero-spam section, for any heading. */
  lemma HeroSpamBuilt(durationLabel: string, all: seq<PlayerStats>, left: string, right: string, text: string,
                      includeLinks: bool, fmt: Formatters, heroes: map<int, string>)
    ensures var r := BuildHeroSpamSection(durationLabel, all, left, right, text, includeLinks, fmt, heroes);
      r.Some? ==> StartsWith(r.value.title, TitlePrefix(durationLabel, left, text, right)) && RowsLinked(r.value, includeLinks)
  {
    var r := BuildHeroSpamSection(durationLabel, all, left, right, text, includeLinks, fmt, heroes);
    if r.Some? {
      var ranking := HeroSpamRanking(all);
      var w := ranking[0];
      TitleStarts(durationLabel, left, text, right, w.playerName,
                  fmt.percent(w.heroPick.matches, w.overall.totalMatches) + "% Hero Pick Rate ("
                  + HeroName(heroes, w.heroPick.heroId) + ")");
      RowsFollowLinked(r.value, ranking, includeLinks, ProfileUrlOf);
    }
  }

  /** The head of the hero-spam ranking is one of the players with a counted hero. */
  lemma HeroSpamHeadIn(all: seq<PlayerStats>)
    requires |HeroSpamRanking(all)| > 0
    ensures HeroSpamRanking(all)[0] in all && HeroSpamRanking(all)[0].heroPick.matches > 0
  {
    HeroSpamOrderIsStrictWeak();
    RankingFacts(all, HasHeroPick, HeroSpamOrder());
  }

  /** The hero-spam order, with the pick rates written out. */
  lemma HeroSpamOutranks(s: PlayerStats, w: PlayerStats)
    ensures HeroSpamOrder()(s, w) <==> Outranks(HeroSpam, s, w)
  {
    var first, second := Rates.RateDesc(PickRate), DescBy(LastPlayed);
    assert first(s, w) == Rates.Less(PickRate(w), PickRate(s));
    assert first(w, s) == Rates.Less(PickRate(s), PickRate(w));
    assert second(s, w) == (LastPlayed(s) > LastPlayed(w));
    assert HeroSpamOrder() == ThenBy(first, second);
  }

  lemma HeroSpamSlot(durationLabel: string, all: seq<PlayerStats>, includeLinks: bool,
                     fmt: Formatters, heroes: map<int, string>, emoji: Emoji -> string)
    ensures SlotMeets(FormatSection(HeroSpam, durationLabel, all, includeLinks, fmt, heroes, emoji),
                      HeroSpam, durationLabel, all, includeLinks, fmt, heroes, emoji)
  {
    var c := HeroSpam;
    var left, right, text := emoji(LeftEmoji(c)), emoji(RightEmoji(c)), Heading(c, durationLabel);
    HeroSpamBuilt(durationLabel, all, left, right, text, includeLinks, fmt, heroes);
    var r := BuildHeroSpamSection(durationLabel, all, left, right, text, includeLinks, fmt, heroes);
    if r.Some? {
      var w := HeroSpamRanking(all)[0];
      HeroSpamHeadIn(all);
      assert r.value.title == SlotTitle(c, durationLabel, w, fmt, heroes, emoji);
      forall s | s in all && Qualifies(c, s)
        ensures !Outranks(c, s, w)
      {
        HeroSpamOutranks(s, w);
      }
      CrownedBy(w, r.value.title, c, durationLabel, all, fmt, heroes, emoji);
    }
  }

  /** The title and row facts of the longest-match section. */
  lemma LongestBuilt(durationLabel: string, all: seq<PlayerStats>, left: string, right: string, text: string,
                     statName: string, includeLinks: bool, fmt: Formatters, heroes: map<int, string>)
    ensures var r := BuildLongestMatchSection(durationLabel, all, left, right, text, statName, includeLinks, fmt, heroes);
      r.Some? ==> StartsWith(r.value.title, TitlePrefix(durationLabel, left, text, right)) && RowsLinked(r.value, includeLinks)
  {
    var r := BuildLongestMatchSection(durationLabel, all, left, right, text, statName, includeLinks, fmt, heroes);
    if r.Some? {
      var ranking := ValueRanking(all, LongestMatchOf);
      TitleStarts(durationLabel, left, text, right, ranking[0].playerName,
                  statName + " - " + FormatDuration(ranking[0].longestMatch.value));
      RowsFollowLinked(r.value, ranking, includeLinks, MatchLinkOf(LongestMatchOf, includeLinks));
    }
  }

  lemma LongestMatchSlot(durationLabel: string, all: seq<PlayerStats>, includeLinks: bool,
                         fmt: Formatters, heroes: map<int, string>, emoji: Emoji -> string)
    ensures SlotMeets(FormatSection(LongestMatch, durationLabel, all, includeLinks, fmt, heroes, emoji),
                      LongestMatch, durationLabel, all, includeLinks, fmt, heroes, emoji)
  {
    var c := LongestMatch;
    var left, right, text := emoji(LeftEmoji(c)), emoji(RightEmoji(c)), Heading(c, durationLabel);
    LongestBuilt(durationLabel, all, left, right, text, "Longest Match Duration", includeLinks, fmt, heroes);
    var r := BuildLongestMatchSection(durationLabel, all, left, right, text, "Longest Match Duration",
                                      includeLinks, fmt, heroes);
    if r.Some? {
      var w := ValueRanking(all, LongestMatchOf)[0];
      ValueHeadIn(all, LongestMatchOf);
      assert r.value.title == SlotTitle(c, durationLabel, w, fmt, heroes, emoji);
      forall s | s in all && Qualifies(c, s)
        ensures !Outranks(c, s, w)
      {
        assert LongestMatchOf(s).value > 0;
        ValueOutranks(LongestMatchOf, s, w);
      }
      CrownedBy(w, r.value.title, c, durationLabel, all, fmt, heroes, emoji);
    }
  }

  lemma SlotFacts(c: Category, durationLabel: string, all: seq<PlayerStats>, includeLinks: bool,
                  fmt: Formatters, heroes: map<int, string>, emoji: Emoji -> string)
    ensures SlotMeets(FormatSection(c, durationLabel, all, includeLinks, fmt, heroes, emoji),
                      c, durationLabel, all, includeLinks, fmt, heroes, emoji)
  {
    match c
    case OverallWinRate => WinrateSlot(c, durationLabel, all, includeLinks, fmt, heroes, emoji);
    case RankedWinRate => WinrateSlot(c, durationLabel, all, includeLinks, fmt, heroes, emoji);
    case HeroSpam => HeroSpamSlot(durationLabel, all, includeLinks, fmt, heroes, emoji);
    case MostKills => KillsSlot(durationLabel, all, includeLinks, fmt, heroes, emoji);
    case MostAssists => AssistsSlot(durationLabel, all, includeLinks, fmt, heroes, emoji);
    case MostDeaths => DeathsSlot(durationLabel, all, includeLinks, fmt, heroes, emoji);
    case LongestMatch => LongestMatchSlot(durationLabel, all, includeLinks, fmt, heroes, emoji);
  }

  /** Every slot meets its promise with the link setting it is given. */
  lemma AllSlots(durationLabel: string, all: seq<PlayerStats>, fmt: Formatters,
                 heroes: map<int, string>, emoji: Emoji -> string)
    ensures forall k :: 0 <= k < |Slots| ==>
      SlotMeets(FormatSection(Slots[k], durationLabel, all, IncludesLinks(Slots[k]), fmt, heroes, emoji),
                Slots[k], durationLabel, all, IncludesLinks(Slots[k]), fmt, heroes, emoji)
  {
    forall k | 0 <= k < |Slots| {
      SlotFacts(Slots[k], durationLabel, all, IncludesLinks(Slots[k]), fmt, heroes, emoji);
    }
  }

  /** The first three slots show no links and the last four do. */
  lemma SlotLinks()
    ensures |Slots| == 7
    ensures forall k :: 0 <= k < 7 ==> IncludesLinks(Slots[k]) == (k >= 3)
  {
  }

  /** `get_leaderboard_sections`: one entry per slot, in slot order; the
      first three slots show no links and the last four do. */
  function GetLeaderboardSections(durationLabel: string, all: seq<PlayerStats>, fmt: Formatters,
                                  heroes: map<int, string>, emoji: Emoji -> string): (r: seq<Option<LeaderboardSection>>)
    ensures |r| == |Slots| == 7
    ensures forall k :: 0 <= k < 7 ==> IncludesLinks(Slots[k]) == (k >= 3)
    ensures forall k :: 0 <= k < 7 ==> SlotMeets(r[k], Slots[k], durationLabel, all, IncludesLinks(Slots[k]), fmt, heroes, emoji)
  {
    AllSlots(durationLabel, all, fmt, heroes, emoji);
    SlotLinks();
    seq(7, k requires 0 <= k < 7 =>
      FormatSection(Slots[k], durationLabel, all, IncludesLinks(Slots[k]), fmt, heroes, emoji))
  }
}
