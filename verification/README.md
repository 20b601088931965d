# dotacord leaderboard core, modelled in Dafny

dotacord is a Discord bot that collects a server's Dota 2 matches from
OpenDota and publishes weekly and monthly leaderboards. This project models
the pure pipeline inside it and proves properties of that pipeline. The
pipeline turns raw match records into leaderboard messages, and the model
covers its stages:

- **Ingestion.** The match validator decodes the game mode, lobby type and
  faction codes, then runs an ordered chain of skip and error checks over
  each record.
- **Aggregation.** A single-pass fold computes each player's win counters,
  favourite hero and four "best single match" trackers.
- **Composition.** Seven leaderboard sections are built: filtered, sorted
  with a recency tie-break, titled after the winner and rendered as tables.
- **Rendering.** This covers the markdown table builders (the current
  `TableBuilder` and the older row-generic one), the append-only markdown
  builder and the `/players list` text.
- **Scheduling and helpers.** Sections are batched into messages, and the
  weekly and monthly triggers decide when to publish. The rest is calendar
  arithmetic for the leaderboard windows, the reload cooldown, and the
  `~/` and `{DATE}` expansion of the configured log path.

Every module is a set of immutable datatypes and pure functions. A few
methods restate the source's loops and are proved equal to those functions.
The database, Discord, the clock and the environment are outside the model.
Their results enter as parameters:

- the fetched matches of each player, or the query error;
- the hero table, as a map from hero id to name;
- `now`, as a civil date-time;
- `HOME` and the date string;
- the float and date text, as a `Formatters` record of functions;
- the emoji text, as a function from `Emoji` to strings.

Modules, in pipeline order:

- **Data and ingestion:** `MatchTypes`, `MatchMapper`, `StatsCalculator`.
- **Ranking:** `Rates`, `Sorting`.
- **Sections:** `Section`, `Columns`, `Table`, `SectionFormatter`,
  `Sections`, `LeaderboardStats`.
- **Other renderers:** `StatsFormatter`, `MarkdownBuilder`, `ListPlayers`.
- **Scheduling and helpers:** `Batching`, `Calendar`, `Triggers`,
  `Cooldown`, `Config`.
- **Shared:** `Strings`, `Wrappers`, `OpenDotaLinks`, `PlayerServers`.

## Model

| member | source | states |
|---|---|---|
| MatchTypes.GameModeFromCode | src/database/types.rs:55-73 | decoding succeeds exactly for the ten listed codes, and a decoded mode encodes back to the code it came from |
| MatchTypes.GameModeRoundTrip | src/database/types.rs:49-73 | decoding the code of any game mode gives that game mode back |
| MatchTypes.LobbyTypeFromCode | src/database/types.rs:96-114 | decoding succeeds exactly for codes 0 to 9, and a decoded lobby type encodes back to its code |
| MatchTypes.LobbyTypeRoundTrip | src/database/types.rs:90-114 | decoding the code of any lobby type gives that lobby type back |
| MatchTypes.FactionFromSlot | src/database/types.rs:124-130 | a player slot below 128 is Radiant and every other slot is Dire |
| MatchTypes.FactionCode | src/database/types.rs:132-134 | Radiant is coded 0 and Dire 1, and no other faction has those codes |
| MatchTypes.DisplayError | src/database/types.rs:10-30 | every mapper error's text starts with "match {id}: " for the match it is about |
| MatchTypes.DisplayDeterminesMatchId | src/database/types.rs:10-30 | two errors with the same text are about the same match |
| MatchMapper.MapToPlayerMatch | src/database/player_matches_db.rs:11-121 | the ignored match and a missing or zero hero are skipped; an error names the record's match; a stored match has a known hero, is not a leaver's, is All Pick or Ranked All Pick in an unranked, ranked or solo-ranked lobby, copies the counters, defaults rank and party size to 0, and is a victory exactly when the slot's side won |
| MatchMapper.MapperFollowsChecks | src/database/player_matches_db.rs:15-100 | the checks run in source order, each judged on its own, and the first one that decides (skip, or a specific error) decides the result |
| MatchMapper.HeroStagePassed | src/database/player_matches_db.rs:15-30 | when none of the first checks decides, the record has a known non-zero hero and no leaver status 1 or 2 |
| MatchMapper.CodeStagePassed | src/database/player_matches_db.rs:32-61 | when no code check decides, both codes are present, decode, and are among the relevant modes and lobby types |
| StatsCalculator.FoldCounts | src/leaderboard/stats_calculator.rs:97-109 | after the loop, the overall counters hold the number of matches and of wins, and the ranked counters those of lobby types 6 and 7 |
| StatsCalculator.FoldTracker | src/leaderboard/stats_calculator.rs:121-142 | each tracker holds the field's sum over all matches; it holds a match exactly when some value is non-negative, and that match is the last one holding the largest value |
| StatsCalculator.FoldHeroes | src/leaderboard/stats_calculator.rs:111-119 | the hero map has one entry per hero played, with that hero's match and win counts |
| StatsCalculator.HeroCountsSum | src/leaderboard/stats_calculator.rs:111-119 | the per-hero match counts add up to the number of matches |
| StatsCalculator.MaxByMatches | src/leaderboard/stats_calculator.rs:145-149 | a hero is picked exactly when one was counted; it is one of the counted heroes and no counted hero has more matches |
| StatsCalculator.CreateSingleMatchStat | src/leaderboard/stats_calculator.rs:171-189 | the stat exists exactly when the tracker took a match, and otherwise the call fails |
| StatsCalculator.MostRecent | src/leaderboard/stats_calculator.rs:152 | the latest start time among the matches, or 0 for none |
| StatsCalculator.PlayerMatchesToStats | src/leaderboard/stats_calculator.rs:80-169 | an empty list fails with no hero pick; otherwise the call succeeds exactly when every field has a non-negative value somewhere, and the stats then describe the matches: counters, top hero, and the last best match with the sum of each field |
| StatsCalculator.PlayerMatchesToStatsLoop | src/leaderboard/stats_calculator.rs:86-168 | the source's single loop computes the same result as the fold |
| StatsCalculator.RankedAtMostOverall | src/leaderboard/stats_calculator.rs:97-109 | ranked wins are at most ranked games, which are at most all games, and wins are at most games |
| StatsCalculator.AllNegativeFails | src/leaderboard/stats_calculator.rs:127-142 | a field that is negative in every match leaves its tracker empty, and the whole call fails |
| StatsCalculator.KillsTieGoesToLater | src/leaderboard/stats_calculator.rs:127-130 | with kills 5, 5 and 3 the second match holds the kill record, at value 5 with total 13 |
| Rates.RateOf | src/leaderboard/section_formatter.rs:24-25 | a positive denominator gives that fraction, a negative one the same fraction with both signs flipped, and zero gives +infinity, as f64 does for a positive count over zero; the sections never divide by zero, since their filters keep only positive totals and counts |
| Rates.LessIsRational | src/leaderboard/section_formatter.rs:21-28 | comparing two fractions by cross-multiplication agrees with comparing them as rational numbers |
| Rates.RateDescOrder | src/leaderboard/section_formatter.rs:26-28 | "higher rate first" is a strict weak order |
| Sorting.Filter | src/leaderboard/section_formatter.rs:19 | an element is kept exactly when it is in the input and passes the test, and no more elements are kept than given |
| Sorting.FilterAppend | src/leaderboard/section_formatter.rs:19 | filtering a concatenation filters each part in turn, so the kept elements stay in input order |
| Sorting.SortSpec | src/leaderboard/section_formatter.rs:21-30 | the sort returns a permutation of its input that is ordered, and elements that tie keep their input order (stability) |
| Sorting.SortedFirstIsBest | src/leaderboard/section_formatter.rs:32 | no input element must come before the first element of the sorted output |
| Sorting.ThenByOrder | src/leaderboard/section_formatter.rs:26-29 | refining one strict weak order by another (rate, then recency) gives a strict weak order |
| Sorting.DescByOrder | src/leaderboard/section_formatter.rs:196-199 | "larger key first" is a strict weak order |
| SectionFormatter.BuildWinrateSection | src/leaderboard/section_formatter.rs:9-91 | no section exactly when no player has a game under the selector; otherwise the ranking is nonempty, the title names the first-ranked player with its win rate, no qualifying player ranks above it, and line i + 1 starts with ranked player i's profile link (when links are on) and name, one line per ranked player |
| SectionFormatter.WinrateOrderIsStrictWeak | src/leaderboard/section_formatter.rs:21-30 | ordering by win rate, then by most recent match, is a strict weak order, so the sort is well defined |
| SectionFormatter.BuildHeroSpamSection | src/leaderboard/section_formatter.rs:93-180 | no section exactly when no player has a counted hero pick; otherwise the title names the player with the highest pick rate, its rate and its hero, no player with a counted pick ranks above it, and line i + 1 starts with ranked player i's profile link (when links are on) and name |
| SectionFormatter.BuildSingleMatchStatSection | src/leaderboard/section_formatter.rs:182-267 | no section exactly when nobody's best value is positive; otherwise the title names the top value's player, value, stat name and hero, no player with a positive value ranks above it, and line i + 1 starts with the link to ranked player i's match (when links are on) and the player's name |
| SectionFormatter.BuildLongestMatchSection | src/leaderboard/section_formatter.rs:279-369 | no section exactly when nobody's longest match has a positive duration; otherwise the title names the player with the longest match and its duration, nobody ranks above that player, and line i + 1 starts with the link to ranked player i's longest match (when links are on) and the player's name |
| SectionFormatter.WinrateTexts | src/leaderboard/section_formatter.rs:48-88 | four inline-code text columns headed Player, Win%, Wins and Total; for ranked player i they hold its name, its win percentage ("-" when it has no games), its wins and its games |
| SectionFormatter.WinrateRows | src/leaderboard/section_formatter.rs:40-90 | line i + 1 of a winrate section is the table row of ranked player i: the masked profile link when links are on, then the player's cell in each of the four text columns at that column's width |
| SectionFormatter.HeroSpamTexts | src/leaderboard/section_formatter.rs:136-178 | five inline-code text columns headed Player, Hero, Count, Matches and Pick%; for ranked player i they hold its name, its favourite hero's name, the games on that hero, its games and the pick percentage |
| SectionFormatter.HeroSpamRows | src/leaderboard/section_formatter.rs:128-179 | line i + 1 of a hero-spam section is the table row of ranked player i: the masked profile link when links are on, then its cell in each of the five text columns |
| SectionFormatter.SingleMatchTexts | src/leaderboard/section_formatter.rs:210-264 | seven inline-code text columns headed Player, the stat's name, Hero, Outcome, Average, Total and Date; for ranked player i they hold its name and its best match's value, hero, "Win" or "Loss", the stat's average and total, and the match date |
| SectionFormatter.SingleMatchRows | src/leaderboard/section_formatter.rs:210-266 | line i + 1 of a single-match section is the table row of ranked player i: the masked link to its match when links are on, then its cell in each of the seven text columns |
| SectionFormatter.LongestMatchTexts | src/leaderboard/section_formatter.rs:310-367 | seven inline-code text columns headed Player, Duration, Hero, Outcome, Average, Total and Date; for ranked player i they hold its name and its longest match's duration, hero, "Win" or "Loss", the average and total durations, and the match date |
| SectionFormatter.LongestMatchRows | src/leaderboard/section_formatter.rs:310-368 | line i + 1 of a longest-match section is the table row of ranked player i: the masked link to its longest match when links are on, then its cell in each of the seven text columns |
| SectionFormatter.HeroName | src/leaderboard/section_formatter.rs:121-122 | a known hero's name, else "Unknown Hero" |
| SectionFormatter.TruncRem | src/leaderboard/section_formatter.rs:270-271 | Rust's remainder: dividend = quotient × divisor + remainder, with the remainder taking the dividend's sign |
| SectionFormatter.FormatDuration | src/leaderboard/section_formatter.rs:269-277 | from an hour up, "{h}h {mm}m" with two-digit minutes; below an hour, "{m}m"; negative inputs follow Rust's truncating division |
| SectionFormatter.FormatDurationMinutes | src/leaderboard/section_formatter.rs:269-277 | reading the text back gives the whole minutes of a non-negative duration |
| SectionFormatter.FormatDurationShape | src/leaderboard/section_formatter.rs:272-276 | the hours part is shown exactly from 3600 seconds up, with the minutes below 60 |
| Sections.GetLeaderboardSections | src/leaderboard/sections.rs:7-20 | seven slots in the fixed order, links off for the first three and on for the last four; each is absent exactly when no player qualifies for its category, and otherwise is titled after a qualifying player whom no qualifying player outranks on that category's own fields |
| Sections.SlotFacts | src/leaderboard/sections.rs:22-136 | each slot ranks on its own fields: overall wins over overall games, ranked wins over ranked games, hero picks over overall games, then best kills, assists, deaths and longest duration with the match date breaking ties (recency for the rates); the title opens with the duration, emoji and heading, names the winner with that winner's figure and the slot's label ("Overall Win Rate", "Kills", …), and rows start with a link exactly when links are on |
| Sections.OverallCrowned | src/leaderboard/sections.rs:22-37 | the overall slot's title names a player with games and that player's overall percentage, and nobody with games has a higher overall rate, or an equal one and a later match |
| Sections.RankedCrowned | src/leaderboard/sections.rs:39-54 | the same on ranked wins over ranked games |
| Sections.HeroSpamSlot | src/leaderboard/sections.rs:56-69 | the hero-spam slot names a player with a counted hero, that player's pick rate and hero, and nobody has a higher pick rate, or an equal one and a later match |
| Sections.KillsCrowned | src/leaderboard/sections.rs:71-86 | the kills slot names a player with positive kills, shows that player's kills and hero with the label "Kills", and nobody has more kills, or as many in a later match |
| Sections.AssistsCrowned | src/leaderboard/sections.rs:88-103 | the same on the best assists, labelled "Assists" |
| Sections.DeathsCrowned | src/leaderboard/sections.rs:105-120 | the same on the best deaths, labelled "Deaths" |
| Sections.LongestMatchSlot | src/leaderboard/sections.rs:122-136 | the longest-match slot names a player with a positive duration, shows it as "Longest Match Duration - " and the formatted duration, and nobody has a longer match, or as long a later one |
| Sections.WinrateOutranks | src/leaderboard/section_formatter.rs:21-30 | the win-rate comparator puts one player first exactly when its rate is higher, or the rates tie and it played more recently |
| Sections.HeroSpamOutranks | src/leaderboard/section_formatter.rs:106-115 | the hero-spam comparator puts one player first exactly when its pick rate is higher, or the rates tie and it played more recently |
| Sections.ValueOutranks | src/leaderboard/section_formatter.rs:194-199 | the single-match comparator puts one player first exactly when its value is larger, or the values tie and its match is later |
| Sections.WinrateHead | src/leaderboard/section_formatter.rs:19-39 | a win-rate section's title names the ranking's head, which has games and is outranked by no player with games |
| Sections.SingleMatchHead | src/leaderboard/section_formatter.rs:192-206 | a single-match section's title names the ranking's head, which has a positive value and is beaten by nobody on value, then date |
| LeaderboardStats.SectionToMsgContent | src/leaderboard/leaderboard_stats.rs:78-84 | a message starts with "### " and the title on its own line, followed by every line with its newline |
| LeaderboardStats.SectionToMsgContentLoop | src/leaderboard/leaderboard_stats.rs:78-84 | the source's push loop builds that same text |
| LeaderboardStats.MsgContentLines | src/leaderboard/leaderboard_stats.rs:78-84 | a message is the heading and the lines joined by newlines, with a final newline |
| LeaderboardStats.PlayerEntry | src/leaderboard/leaderboard_stats.rs:35-57 | a failed query is an error carrying its message; a player with no matches contributes nothing; otherwise the call fails exactly when aggregation does, and on success the one record describes the matches under the player's display name |
| LeaderboardStats.GetPlayerStats | src/leaderboard/leaderboard_stats.rs:28-61 | succeeds exactly when every player's entry does, else fails with the first error; on success, one record per player with matches, in player order |
| LeaderboardStats.Present | src/leaderboard/leaderboard_stats.rs:21-23 | keeps exactly the values of the present slots, and is empty exactly when every slot is absent |
| LeaderboardStats.PresentAppend | src/leaderboard/leaderboard_stats.rs:21-23 | dropping absent slots from a concatenation drops them from each part, so present sections keep slot order |
| LeaderboardStats.GetLeaderboardMessages | src/leaderboard/leaderboard_stats.rs:11-26 | fails exactly when the stats do; otherwise one message per present section, in slot order |
| LeaderboardStats.NoStatsNoMessages | src/leaderboard/leaderboard_stats.rs:18-25 | with no player stats every slot is absent, so there is no message |
| Section.New | src/leaderboard/section.rs:7-12 | the given title, and no lines |
| Section.AddLine | src/leaderboard/section.rs:14-16 | one more line at the end; the title and all earlier lines are unchanged |
| Section.AddLinesAppends | src/leaderboard/section.rs:14-16 | adding lines one at a time appends them in call order |
| Columns.MaskLink | src/markdown/link.rs:8-10 | a masked link is "[", the symbol and "](", then the URL itself, closed by ")" |
| Columns.NewLink | src/markdown/link.rs:13-18 | a link column showing "@" over the given URLs |
| Columns.WithText | src/markdown/link.rs:20-23 | replaces the visible text and keeps the URLs |
| Columns.Len | src/markdown/text.rs:33-35 | a text column has one row per value, a link column one per URL |
| Columns.Width | src/markdown/text.rs:37-48 | a text column is as wide as the longer of its header and its longest value; a link column is as wide as its text, whatever the URLs |
| Columns.FormatWithStyle | src/markdown/text.rs:23-29 | the content left-aligned to the width, inside backticks when inline code is on |
| Columns.LinkCellUnpadded | src/markdown/link.rs:41-44 | at the column's own width a link cell is exactly the masked link |
| Columns.LinkHeaderIsText | src/markdown/link.rs:37-39 | a link header is its text, left-aligned to the width |
| Columns.TextCellShowsValue | src/markdown/text.rs:50-56 | a text cell shows its row's value followed only by padding spaces |
| Columns.RawTextDropsBackticks | src/markdown/text.rs:14-29 | the styled cell and header are the raw ones inside backticks |
| Table.AddColumn | src/markdown/table.rs:19-36 | a column of the established length is appended, the row count is set and the title kept; a different length is excluded, as the source panics |
| Table.Build | src/markdown/table.rs:38-76 | no rows gives the single line "No data available."; otherwise a header line and one line per row, each cell formatted at its column's width |
| Table.BuildTableContent | src/markdown/table.rs:51-76 | the source's loop over row indexes builds that same table |
| Table.FormatRow | src/markdown/table.rs:62 | a line starts with "| " and ends with " |" |
| Table.FormatRowJoins | src/markdown/table.rs:62 | between those, a line holds exactly the cells joined by " | " |
| Table.RowCellsAppend | src/markdown/table.rs:65-73 | the cells of a row over columns placed side by side are the cells over the first columns followed by those over the rest |
| Table.TextTableAligned | src/markdown/table.rs:53-73 | in a table of text columns, every line has the same length |
| Table.AddColumnsKeepsOrder | src/markdown/table.rs:11-36 | columns of equal length added one by one keep the builder consistent, the title and the insertion order |
| StatsFormatter.ColumnWidth | src/markdown/stats_formatter.rs:54-67 | the larger of the header length and the widest row, using the width function when one is set |
| StatsFormatter.FirstMatchId | src/markdown/stats_formatter.rs:145-156 | the match id of the first column that gives the row a positive one, or none if no column does |
| StatsFormatter.RowLinkChoice | src/markdown/stats_formatter.rs:145-163 | a row links a match when some column gives a positive match id; otherwise it uses the table's link function, else the player's profile |
| StatsFormatter.Build | src/markdown/stats_formatter.rs:100-167 | no rows gives "No data available."; otherwise the "@" header line and one line per row, in input order |
| StatsFormatter.LinksIdentify | src/markdown/stats_formatter.rs:170-180 | different ids give different profile links and different match links, and a profile link never equals a match link |
| MarkdownBuilder.Appends | src/markdown/markdown_builder.rs:8-69 | a new builder is empty; nl, text, line, heading1, url and list_item append exactly "\n", t, t + "\n", "# " + t + "\n", "[d](u)" and "- " |
| MarkdownBuilder.ListAppendsItems | src/markdown/markdown_builder.rs:38-48 | list appends "- ", the item's text and "\n" for each item, in order |
| MarkdownBuilder.ListConcat | src/markdown/markdown_builder.rs:38-48 | listing two item sequences one after the other is listing their concatenation |
| MarkdownBuilder.OnlyAppends | src/markdown/markdown_builder.rs:22-69 | after any sequence of operations, the earlier content is still a prefix |
| ListPlayers.SortedPlayers | src/discord/player_commands/list_players.rs:47-58 | a permutation of the players, ordered by display name, where players with equal names keep their input order as the stable `sort_by` does |
| ListPlayers.ByDisplayNameOrder | src/discord/player_commands/list_players.rs:48-58 | comparing display names lexicographically is a strict weak order |
| ListPlayers.ListRow | src/discord/player_commands/list_players.rs:60-81 | table row i shows the i-th player in name order: display name, decimal id and profile link |
| ListPlayers.FormatListPlayers | src/discord/player_commands/list_players.rs:40-87 | the text starts with the "{n} player(s) registered to this server:" line; with no players it is that line and "No data available." |
| ListPlayers.ListLines | src/discord/player_commands/list_players.rs:77-86 | when no name holds a newline, the text splits into the title, the header and one row per player |
| OpenDotaLinks.ProfileUrl | src/api/open_dota_links.rs:1-3 | a profile URL is the OpenDota players prefix followed by exactly the decimal player id |
| OpenDotaLinks.MatchUrl | src/api/open_dota_links.rs:5-7 | a match URL is the OpenDota matches prefix followed by exactly the decimal match id |
| OpenDotaLinks.UrlsIdentify | src/api/open_dota_links.rs:1-7 | different players have different profile pages, and different matches different match pages |
| PlayerServers.DisplayName | src/data/player_servers_db.rs:17-19 | the chosen player name when there is one, else the Discord name |
| Batching.AsWrittenGroups | src/scheduler/leaderboard_task.rs:222-241 | the batches concatenate to the inputs with no separator inserted; each input lies wholly in one batch, in order; each batch fits the limit or is a single input; only empty text may follow the last batch |
| Batching.BatchContentsLoop | src/discord/leaderboard_command.rs:90-106 | the source's loop computes the as-written batches and preserves the concatenation of the inputs |
| Batching.NoInputsNoBatches | src/scheduler/leaderboard_task.rs:236-238 | no inputs give no batches |
| Batching.EmptyBatchAsWritten | src/scheduler/leaderboard_task.rs:227-230 | as written, one input longer than the limit gives an empty batch and then the input; corrected, the input alone |
| Batching.BatchContents | src/scheduler/leaderboard_task.rs:222-241 | corrected: the same grouping and concatenation guarantees, and no batch is empty |
| Calendar.DaysInMonth | src/leaderboard/duration.rs:60-70 | between 28 and 31 days, fewer than 30 only in February, which has 29 exactly in a Gregorian leap year |
| Calendar.LastDayPrecedesFirst | src/leaderboard/duration.rs:67-69 | stepping back one day from the first of the next month lands on the month's last day, across a year end too; this holds by the definition of the step, and the next three rows give the independent check |
| Calendar.PreviousDayCounted | src/leaderboard/duration.rs:67-69 | the day before any date, including a first of the month or of January, is exactly one earlier in the closed-form day count from 0001-01-01, so the month lengths agree with `first_of_next - 1 day` |
| Calendar.YearLengthCounted | src/leaderboard/duration.rs:60-70 | the closed-form Gregorian day count grows by 366 over a leap year and by 365 over any other year |
| Calendar.MonthsFillYear | src/leaderboard/duration.rs:60-70 | the month lengths add up to the year's length |
| Calendar.EarlierIsSooner | src/leaderboard/duration.rs:15-26 | timestamps follow calendar order |
| Calendar.Borrow | src/leaderboard/duration.rs:44-50 | the borrowing loop gives a month in 1..12 and keeps the count of months |
| Calendar.SubtractMonths | src/leaderboard/duration.rs:40-58 | a valid date the given number of months back, with the day clamped to the new month's length and the time of day kept |
| Calendar.YearBack | src/leaderboard/duration.rs:40-58 | a year back is the same month and day a year earlier, except that 29 February becomes 28 February |
| Calendar.MonthBack | src/leaderboard/duration.rs:44-53 | a month back from January is December of the previous year, and a day the previous month lacks becomes its last day |
| Calendar.PreviousDayIsOneDayEarlier | src/leaderboard/duration.rs:17 | one calendar day back is 86400 seconds back |
| Calendar.DaysBackIsSeconds | src/leaderboard/duration.rs:17-18 | n calendar days back is n × 86400 seconds back |
| Calendar.StartDate | src/leaderboard/duration.rs:15-26 | Day and Week start exactly 86400 and 604800 seconds before the end, Month and Year 1 and 12 months before it, and All Time at 2010-01-01T00:00:00Z |
| Calendar.StartBeforeEnd | src/leaderboard/duration.rs:15-20 | every window except All Time starts before it ends |
| Calendar.LabelsDistinct | src/leaderboard/duration.rs:29-37 | the five labels are pairwise different |
| Triggers.Weekday | src/scheduler/leaderboard_task.rs:16 | the weekday number lies in 1..7; the next two rows pin down which day each number is (Monday 1, Sunday 7) |
| Triggers.WeekdayOfPreviousDay | src/scheduler/leaderboard_task.rs:16 | the day before a Monday (1) is a Sunday (7); otherwise the weekday drops by one |
| Triggers.AllTimeStartWeekday | src/scheduler/leaderboard_task.rs:16 | 2010-01-01 was a Friday |
| Triggers.WeeklyFires | src/scheduler/leaderboard_task.rs:28-43 | the weekly trigger fires exactly when both weekly settings are present and equal the weekday and the hour |
| Triggers.MonthlyFires | src/scheduler/leaderboard_task.rs:45-61 | the monthly trigger fires exactly when both monthly settings are present and equal the day of the month and the hour |
| Triggers.DueLeaderboards | src/scheduler/leaderboard_task.rs:13-26 | the weekly board is due exactly when its trigger matches now, the monthly one likewise, and nothing else is due; when both are due, weekly comes first |
| Triggers.WeeklyFiresEveryWeek | src/scheduler/leaderboard_task.rs:16-41 | the weekly trigger fires at a moment exactly when it fires seven days earlier |
| Triggers.MonthlySkipsShortMonths | src/scheduler/leaderboard_task.rs:51-59 | a monthly day that the month lacks never fires in that month |
| Triggers.OutOfRangeNeverFires | src/scheduler/leaderboard_task.rs:34-59 | a weekday setting outside 1..7 and a monthly hour of 24 or more never fire |
| Cooldown.CheckCooldown | src/discord/reload_command.rs:187-206 | no earlier event means no wait; otherwise there is a positive wait exactly when less than the cooldown has elapsed, and it ends exactly one cooldown after the event, so it is at most the cooldown unless the event is in the future |
| Cooldown.RemainingIsTheWait | src/discord/reload_command.rs:195-205 | at every second before the wait ends the remaining time counts down by one, and when it ends the command is free |
| Cooldown.StaysFree | src/discord/reload_command.rs:200-205 | once free, the command stays free |
| Config.ExpandTilde | src/config.rs:70-77 | a path not starting with "~/" is kept; "~/rest" becomes HOME + "/rest"; with HOME unset that is an error |
| Config.ExpandTildeIdempotent | src/config.rs:70-77 | expanding an expanded path changes nothing, provided HOME itself does not start with "~" |
| Config.LogFileReplacements | src/config.rs:154-158 | every "{DATE}" is replaced by the date, and the result is then tilde-expanded |
| Config.NoDateOnlyExpands | src/config.rs:154-158 | a path without "{DATE}" is only tilde-expanded |
| Config.TildeSurvivesDate | src/config.rs:154-158 | a "~/" path keeps its tilde through the date replacement and is expanded under HOME |
| Strings.ReplaceAllIsJoinOfSplit | src/config.rs:156 | replacing every occurrence is splitting on the pattern and joining with the replacement |
| Strings.JoinSplit | src/config.rs:156 | joining the pieces of a split with the pattern restores the string |
| Strings.SplitJoinChar | src/discord/player_commands/list_players.rs:86 | splitting on a one-character separator undoes joining with it, when no piece holds the separator |
| Strings.PadRight | src/markdown/text.rs:25-27 | `{:<width$}`: the string followed by spaces up to the width, unchanged if already as wide |
| Strings.IntToStringInjective | src/markdown/stats_formatter.rs:170-180 | different integers are printed differently |

## Left out

- Floating point. The model leaves out the win and pick percentages, the `{:.0}`, `{:.2}` and `{:>3.0}%` texts, and the f32 `average` of a single-match stat. The text arrives through the `Formatters` parameter. `SingleMatchStat` keeps the match count that the average divides by.
- Rates.RateOf: win and pick rates are ordered by exact rational comparison, not by f64 division; the two agree on the leaderboard's match counts but can differ where f64 rounding makes distinct fractions equal.
- Date and time text: `format_section_timestamp` and `local_date_yyyy_mm_dd` (src/util/dates.rs) come from chrono. They are parameters.
- Emoji: `src/leaderboard/emoji.rs` is not part of this model. Each emoji's text is a parameter.
- The hero cache (src/data/hero_cache.rs): a global map in the source, a parameter here.
- Integer widths. Counters, ids and times are unbounded integers, so the model leaves out:
  - i32 overflow of the totals;
  - the `u64` multiplication `cooldown_min * 60`;
  - the `i32` year in the calendar;
  - the `as i32` truncation of match timestamps in queries.
- Unicode widths. Column widths use byte lengths while `{:<w$}` pads by characters, and the batching limit compares each message's `.len()`, a byte count. Strings are character sequences here, so widths and the batching limit count characters. This matches the source for ASCII text.
- Database, async and Discord layers: queries, replies, sending batches to channels, and the event tables' "latest event" lookup. A query's result, or the time of the last event, is a parameter.
- `check_and_publish_leaderboards` (src/scheduler/leaderboard_task.rs:13-26): the model gives the set of due windows. A failure while publishing the weekly board also skips the monthly check; that is I/O and is not modelled.
- `env::var("HOME")` can also fail on a value that is not Unicode. The model has only "set" and "unset".
- Three `LeaderboardSection`/`Section` definitions exist in the repository (src/leaderboard/section.rs, src/markdown/stats_formatter.rs, and the one `table.rs` imports). They are one type here.
- `build_hero_spam_section` reads `hero_pick_stat.stats.total_matches`, a field `HeroPickStats` does not have. The model uses the hero's match count `matches`, as the struct defines it.
- src/leaderboard/leaderboard_stats.rs:63-76 calls seven section functions without the links flag. The model follows src/leaderboard/sections.rs:7-20, which passes the flag explicitly.
- StatsCalculator.MaxByMatches: `max_by_key` over a `HashMap` picks one of the heroes tied for most matches in hash order. The model picks the last such hero in first-seen order, and its contracts promise only maximality.
- Batching: the separator of one character is counted against the limit but never inserted, exactly as in the source.
- The Discord command wrappers, the player-management panels, randomness-driven commands, the API client, the reload and heartbeat loops, logging and `load_config`'s file reading.

## Findings

| source | as written | input that shows it | evidently intended | confidence | as-written member | corrected member |
|---|---|---|---|---|---|---|
| src/scheduler/leaderboard_task.rs:227-230 (and src/discord/leaderboard_command.rs:94-97) | when the next input does not fit, the current batch is pushed even when it is still empty | one input longer than `max_length`, e.g. `["xxxxxx"]` with limit 5: the result is `["", "xxxxxx"]` | an oversized input becomes a batch of its own, with no empty batch (an empty Discord message) before it | not executed | Batching.EmptyBatchAsWritten | Batching.BatchContents |
