/** `player_matches_to_stats` (src/leaderboard/stats_calculator.rs): one pass
    over a player's stored matches that counts wins, ranked games and hero
    picks, sums four per-match fields and remembers the best single match of
    each field. */
module StatsCalculator {
  import opened Wrappers
  import opened MatchMapper

  datatype OverallStats = OverallStats(totalMatches: int, wins: int)

  datatype HeroPickStats = HeroPickStats(heroId: int, wins: int, matches: int)

  /** The best match of one field. The source also stores `average`, the
      float `total / matchCount`; the model keeps its divisor instead. */
  datatype SingleMatchStat = SingleMatchStat(
    total: int,
    value: int,
    matchCount: int,
    matchId: int,
    date: int,
    heroId: int,
    isVictory: bool)

  datatype PlayerStats = PlayerStats(
    playerId: int,
    playerName: string,
    overall: OverallStats,
    ranked: OverallStats,
    heroPick: HeroPickStats,
    mostKills: SingleMatchStat,
    mostAssists: SingleMatchStat,
    mostDeaths: SingleMatchStat,
    longestMatch: SingleMatchStat,
    mostRecentMatchTime: int)

  /** The two ways the aggregation fails: no hero was counted, or a tracker
      never saw a match. */
  datatype StatsError = NoHeroPick | NoTrackedMatch

  /** The four fields a "best single match" is tracked for. */
  datatype Field = Kills | Assists | Deaths | Duration

  function FieldOf(m: PlayerMatch, f: Field): int {
    match f
    case Kills => m.kills
    case Assists => m.assists
    case Deaths => m.deaths
    case Duration => m.duration
  }

  // -------------------------------------------------------------------------
  // Reference definitions, one question at a time
  // -------------------------------------------------------------------------

  function Wins(ms: seq<PlayerMatch>): nat {
    if |ms| == 0 then 0
    else Wins(ms[..|ms| - 1]) + (if ms[|ms| - 1].isVictory then 1 else 0)
  }

  /** Lobby types 6 (ranked solo) and 7 (ranked) count as ranked. */
  predicate IsRanked(m: PlayerMatch) {
    m.lobbyType == 7 || m.lobbyType == 6
  }

  function RankedCount(ms: seq<PlayerMatch>): nat {
    if |ms| == 0 then 0
    else RankedCount(ms[..|ms| - 1]) + (if IsRanked(ms[|ms| - 1]) then 1 else 0)
  }

  function RankedWins(ms: seq<PlayerMatch>): nat {
    if |ms| == 0 then 0
    else
      var m := ms[|ms| - 1];
      RankedWins(ms[..|ms| - 1]) + (if IsRanked(m) && m.isVictory then 1 else 0)
  }

  /** How many of the matches were played on hero `h`. */
  function HeroMatches(ms: seq<PlayerMatch>, h: int): nat {
    if |ms| == 0 then 0
    else HeroMatches(ms[..|ms| - 1], h) + (if ms[|ms| - 1].heroId == h then 1 else 0)
  }

  /** How many of the matches on hero `h` were won. */
  function HeroWins(ms: seq<PlayerMatch>, h: int): nat {
    if |ms| == 0 then 0
    else
      var m := ms[|ms| - 1];
      HeroWins(ms[..|ms| - 1], h) + (if m.heroId == h && m.isVictory then 1 else 0)
  }

  function FieldSum(ms: seq<PlayerMatch>, f: Field): int {
    if |ms| == 0 then 0 else FieldSum(ms[..|ms| - 1], f) + FieldOf(ms[|ms| - 1], f)
  }

  /** Some match has a non-negative value of `f`. */
  ghost predicate HasTracked(ms: seq<PlayerMatch>, f: Field) {
    exists j :: 0 <= j < |ms| && FieldOf(ms[j], f) >= 0
  }

  /** `k` is the last match holding the largest value of `f`, and that value
      is not negative. */
  ghost predicate IsBestIndex(ms: seq<PlayerMatch>, f: Field, k: int) {
    && 0 <= k < |ms|
    && FieldOf(ms[k], f) >= 0
    && (forall j :: 0 <= j < |ms| ==> FieldOf(ms[j], f) <= FieldOf(ms[k], f))
    && (forall j :: k < j < |ms| ==> FieldOf(ms[j], f) < FieldOf(ms[k], f))
  }

  /** The latest start time, or 0 for no matches. */
  function MostRecent(ms: seq<PlayerMatch>): (t: int)
    ensures |ms| > 0 ==> exists j :: 0 <= j < |ms| && ms[j].startTime == t
    ensures forall j :: 0 <= j < |ms| ==> ms[j].startTime <= t || |ms| == 0
    ensures |ms| == 0 ==> t == 0
  {
    if |ms| == 0 then 0
    else if |ms| == 1 then ms[0].startTime
    else
      var rest := MostRecent(ms[..|ms| - 1]);
      var last := ms[|ms| - 1].startTime;
      assert forall j :: 0 <= j < |ms| - 1 ==> ms[j] == ms[..|ms| - 1][j];
      if last >= rest then last else rest
  }

  // -------------------------------------------------------------------------
  // The single pass
  // -------------------------------------------------------------------------

  /** A `StatTracker`: the match holding the largest value so far, that
      value (0 before any match qualifies) and the running total. */
  datatype Tracker = Tracker(pick: Option<PlayerMatch>, value: int, total: int)

  const NewTracker: Tracker := Tracker(None, 0, 0)

  /** The state of the loop in `player_matches_to_stats`. */
  datatype Accumulator = Accumulator(
    overall: OverallStats,
    ranked: OverallStats,
    heroes: map<int, HeroPickStats>,
    heroOrder: seq<int>,
    kills: Tracker,
    assists: Tracker,
    deaths: Tracker,
    longest: Tracker)

  const Start: Accumulator :=
    Accumulator(OverallStats(0, 0), OverallStats(0, 0), map[], [],
                NewTracker, NewTracker, NewTracker, NewTracker)

  function TrackerOf(a: Accumulator, f: Field): Tracker {
    match f
    case Kills => a.kills
    case Assists => a.assists
    case Deaths => a.deaths
    case Duration => a.longest
  }

  function Count(s: OverallStats, won: bool): OverallStats {
    OverallStats(s.totalMatches + 1, s.wins + (if won then 1 else 0))
  }

  /** `hero_trackers.entry(hero).or_insert_with(..)` and the two increments. */
  function CountHero(heroes: map<int, HeroPickStats>, m: PlayerMatch): map<int, HeroPickStats> {
    var s := if m.heroId in heroes then heroes[m.heroId] else HeroPickStats(m.heroId, 0, 0);
    heroes[m.heroId := s.(matches := s.matches + 1, wins := s.wins + (if m.isVictory then 1 else 0))]
  }

  /** One tracker update: add to the total, and take the match when its value
      is at least the best so far (`>=`, so a later tie wins). */
  function Track(t: Tracker, m: PlayerMatch, f: Field): Tracker {
    var v := FieldOf(m, f);
    if v >= t.value then Tracker(Some(m), v, t.total + v)
    else t.(total := t.total + v)
  }

  /** One iteration of the loop. The hero map is a hash map in the source;
      the model also records the order in which heroes were first seen. */
  function Step(a: Accumulator, m: PlayerMatch): Accumulator {
    Accumulator(
      Count(a.overall, m.isVictory),
      if IsRanked(m) then Count(a.ranked, m.isVictory) else a.ranked,
      CountHero(a.heroes, m),
      if m.heroId in a.heroes then a.heroOrder else a.heroOrder + [m.heroId],
      Track(a.kills, m, Kills),
      Track(a.assists, m, Assists),
      Track(a.deaths, m, Deaths),
      Track(a.longest, m, Duration))
  }

  /** The loop state after the matches `ms`, in order. */
  function Fold(ms: seq<PlayerMatch>): Accumulator {
    if |ms| == 0 then Start else Step(Fold(ms[..|ms| - 1]), ms[|ms| - 1])
  }

  lemma {:induction false} FoldCounts(ms: seq<PlayerMatch>)
    ensures Fold(ms).overall == OverallStats(|ms|, Wins(ms))
    ensures Fold(ms).ranked == OverallStats(RankedCount(ms), RankedWins(ms))
    decreases |ms|
  {
    if |ms| > 0 {
      FoldCounts(ms[..|ms| - 1]);
    }
  }

  /** What a tracker holds after the matches `ms`. */
  ghost predicate TrackerMeets(t: Tracker, ms: seq<PlayerMatch>, f: Field) {
    && t.total == FieldSum(ms, f)
    && t.value >= 0
    && (t.pick.None? <==> !HasTracked(ms, f))
    && (t.pick.None? ==> t.value == 0)
    && (t.pick.Some? ==>
          exists k :: IsBestIndex(ms, f, k) && t.pick.value == ms[k] && t.value == FieldOf(ms[k], f))
  }

  lemma {:induction false} FoldTracker(ms: seq<PlayerMatch>, f: Field)
    ensures TrackerMeets(TrackerOf(Fold(ms), f), ms, f)
    decreases |ms|
  {
    if |ms| > 0 {
      var n := |ms| - 1;
      var init := ms[..n];
      FoldTracker(init, f);
      assert ms == init + [ms[n]];
      assert TrackerOf(Fold(ms), f) == Track(TrackerOf(Fold(init), f), ms[n], f);
      TrackStep(TrackerOf(Fold(init), f), init, ms[n], f);
    }
  }

  /** One update keeps the tracker describing the matches seen so far. */
  lemma TrackStep(t: Tracker, init: seq<PlayerMatch>, m: PlayerMatch, f: Field)
    requires TrackerMeets(t, init, f)
    ensures TrackerMeets(Track(t, m, f), init + [m], f)
  {
    var ms := init + [m];
    var n := |init|;
    assert ms[..n] == init;
    assert FieldSum(ms, f) == FieldSum(init, f) + FieldOf(m, f);
    if FieldOf(m, f) >= t.value {
      TrackTakes(t, init, m, f);
    } else if t.pick.Some? {
      var k :| IsBestIndex(init, f, k) && t.pick.value == init[k] && t.value == FieldOf(init[k], f);
      assert ms[k] == init[k];
      assert IsBestIndex(ms, f, k);
    } else {
      forall j | 0 <= j < |ms| ensures FieldOf(ms[j], f) < 0 {
        if j < n {
          assert ms[j] == init[j];
        }
      }
    }
  }

  /** A match at least as good as the best so far becomes the best. */
  lemma TrackTakes(t: Tracker, init: seq<PlayerMatch>, m: PlayerMatch, f: Field)
    requires TrackerMeets(t, init, f)
    requires FieldOf(m, f) >= t.value
    ensures IsBestIndex(init + [m], f, |init|)
  {
    var ms := init + [m];
    var n := |init|;
    forall j | 0 <= j < n
      ensures FieldOf(ms[j], f) <= t.value
    {
      assert ms[j] == init[j];
      if t.pick.Some? {
        var k :| IsBestIndex(init, f, k) && t.pick.value == init[k] && t.value == FieldOf(init[k], f);
      } else {
        assert FieldOf(init[j], f) < 0;
      }
    }
  }

  ghost predicate Distinct(xs: seq<int>) {
    forall i, j :: 0 <= i < j < |xs| ==> xs[i] != xs[j]
  }

  /** The hero map after `ms`: one entry per hero played, with that hero's
      match and win counts, and the first-seen order lists each key once. */
  ghost predicate HeroesMeet(a: Accumulator, ms: seq<PlayerMatch>) {
    && (forall h :: h in a.heroes <==> h in a.heroOrder)
    && (forall i :: 0 <= i < |a.heroOrder| ==> a.heroOrder[i] in a.heroes)
    && (forall h :: h in a.heroes <==> HeroMatches(ms, h) > 0)
    && (forall h :: h in a.heroes ==> a.heroes[h] == HeroPickStats(h, HeroWins(ms, h), HeroMatches(ms, h)))
    && Distinct(a.heroOrder)
  }

  lemma {:induction false} HeroWinsAtMost(ms: seq<PlayerMatch>, h: int)
    ensures HeroWins(ms, h) <= HeroMatches(ms, h)
    decreases |ms|
  {
    if |ms| > 0 {
      HeroWinsAtMost(ms[..|ms| - 1], h);
    }
  }

  /** Appending `m` adds it to the counts of its own hero only. */
  lemma HeroCountsSnoc(init: seq<PlayerMatch>, m: PlayerMatch, h: int)
    ensures HeroMatches(init + [m], h) == HeroMatches(init, h) + (if m.heroId == h then 1 else 0)
    ensures HeroWins(init + [m], h) == HeroWins(init, h) + (if m.heroId == h && m.isVictory then 1 else 0)
  {
    assert (init + [m])[..|init|] == init;
  }

  /** One loop step keeps the hero map and order meeting their description. */
  lemma HeroStep(a: Accumulator, init: seq<PlayerMatch>, m: PlayerMatch)
    requires HeroesMeet(a, init)
    ensures HeroesMeet(Step(a, m), init + [m])
  {
    var ms := init + [m];
    var b := Step(a, m);
    assert b.heroes == CountHero(a.heroes, m);
    forall h
      ensures h in b.heroes <==> h in b.heroOrder
      ensures h in b.heroes <==> HeroMatches(ms, h) > 0
    {
      HeroCountsSnoc(init, m, h);
    }
    forall h | h in b.heroes
      ensures b.heroes[h] == HeroPickStats(h, HeroWins(ms, h), HeroMatches(ms, h))
    {
      HeroCountsSnoc(init, m, h);
      if h == m.heroId && h !in a.heroes {
        HeroWinsAtMost(init, h);
      }
    }
    if m.heroId !in a.heroes {
      assert b.heroOrder == a.heroOrder + [m.heroId];
      forall i, j | 0 <= i < j < |b.heroOrder|
        ensures b.heroOrder[i] != b.heroOrder[j]
      {
        if j == |a.heroOrder| {
          assert b.heroOrder[i] in a.heroOrder;
        }
      }
    }
  }

  lemma {:induction false} FoldHeroes(ms: seq<PlayerMatch>)
    ensures HeroesMeet(Fold(ms), ms)
    decreases |ms|
  {
    if |ms| > 0 {
      var n := |ms| - 1;
      FoldHeroes(ms[..n]);
      assert ms == ms[..n] + [ms[n]];
      HeroStep(Fold(ms[..n]), ms[..n], ms[n]);
    }
  }

  /** The sum of the match counts of the heroes `order`. */
  function SumMatches(order: seq<int>, ms: seq<PlayerMatch>): nat {
    if |order| == 0 then 0
    else SumMatches(order[..|order| - 1], ms) + HeroMatches(ms, order[|order| - 1])
  }

  lemma {:induction false} SumMatchesAppend(order: seq<int>, h: int, ms: seq<PlayerMatch>)
    ensures SumMatches(order + [h], ms) == SumMatches(order, ms) + HeroMatches(ms, h)
  {
    assert (order + [h])[..|order|] == order;
  }

  /** Adding a match on hero `x` to `ms` adds one to the sum over a list of
      distinct heroes exactly when `x` is in the list. */
  lemma {:induction false} SumMatchesPush(order: seq<int>, ms: seq<PlayerMatch>, m: PlayerMatch)
    requires Distinct(order)
    ensures SumMatches(order, ms + [m]) == SumMatches(order, ms) + (if m.heroId in order then 1 else 0)
    decreases |order|
  {
    if |order| > 0 {
      var init := order[..|order| - 1];
      var h := order[|order| - 1];
      assert (ms + [m])[..|ms|] == ms;
      SumMatchesPush(init, ms, m);
      assert m.heroId in order <==> m.heroId in init || m.heroId == h;
      assert h !in init;
    }
  }

  /** The per-hero match counts add up to the number of matches. */
  lemma {:induction false} HeroCountsSum(ms: seq<PlayerMatch>)
    ensures SumMatches(Fold(ms).heroOrder, ms) == |ms|
    decreases |ms|
  {
    if |ms| > 0 {
      var n := |ms| - 1;
      var init := ms[..n];
      var m := ms[n];
      assert ms == init + [m];
      HeroCountsSum(init);
      FoldHeroes(init);
      var a := Fold(init);
      SumMatchesPush(a.heroOrder, init, m);
      if m.heroId !in a.heroes {
        SumMatchesAppend(a.heroOrder, m.heroId, ms);
        assert HeroMatches(init, m.heroId) == 0;
      }
    }
  }

  // -------------------------------------------------------------------------
  // After the loop
  // -------------------------------------------------------------------------

  /** `max_by_key(|t| t.matches)` over the heroes in `order`: the last entry
      with the largest match count. */
  function MaxByMatches(order: seq<int>, heroes: map<int, HeroPickStats>): (r: Option<HeroPickStats>)
    requires forall i :: 0 <= i < |order| ==> order[i] in heroes
    ensures r.None? <==> |order| == 0
    ensures r.Some? ==> exists i :: 0 <= i < |order| && r.value == heroes[order[i]]
    ensures r.Some? ==> forall i :: 0 <= i < |order| ==> heroes[order[i]].matches <= r.value.matches
  {
    if |order| == 0 then None
    else
      var init := order[..|order| - 1];
      var last := heroes[order[|order| - 1]];
      var best := MaxByMatches(init, heroes);
      assert forall i :: 0 <= i < |init| ==> init[i] == order[i];
      if best.None? || last.matches >= best.value.matches then Some(last) else best
  }

  /** `create_single_match_stat`: fails when the tracker never took a match. */
  function CreateSingleMatchStat(t: Tracker, matchCount: int): (r: Result<SingleMatchStat, StatsError>)
    ensures r.Ok? <==> t.pick.Some?
    ensures r.Err? ==> r.error == NoTrackedMatch
  {
    match t.pick
    case None => Err(NoTrackedMatch)
    case Some(m) =>
      Ok(SingleMatchStat(t.total, t.value, matchCount, m.matchId, m.startTime, m.heroId, m.isVictory))
  }

  /** The stat of field `f` describes the last best match of `ms`. */
  ghost predicate StatMeets(s: SingleMatchStat, ms: seq<PlayerMatch>, f: Field) {
    && s.total == FieldSum(ms, f)
    && s.matchCount == |ms|
    && exists k :: IsBestIndex(ms, f, k)
                && s.value == FieldOf(ms[k], f)
                && s.matchId == ms[k].matchId && s.date == ms[k].startTime
                && s.heroId == ms[k].heroId && s.isVictory == ms[k].isVictory
  }

  /** A hero with the most matches, with its own match and win counts. */
  ghost predicate IsTopHero(p: HeroPickStats, ms: seq<PlayerMatch>) {
    && HeroMatches(ms, p.heroId) > 0
    && p.matches == HeroMatches(ms, p.heroId)
    && p.wins == HeroWins(ms, p.heroId)
    && forall j :: 0 <= j < |ms| ==> HeroMatches(ms, ms[j].heroId) <= p.matches
  }

  /** Everything the aggregate promises about the matches it came from. */
  ghost predicate Describes(s: PlayerStats, ms: seq<PlayerMatch>, playerId: int, playerName: string) {
    && s.playerId == playerId && s.playerName == playerName
    && s.overall == OverallStats(|ms|, Wins(ms))
    && s.ranked == OverallStats(RankedCount(ms), RankedWins(ms))
    && IsTopHero(s.heroPick, ms)
    && StatMeets(s.mostKills, ms, Kills)
    && StatMeets(s.mostAssists, ms, Assists)
    && StatMeets(s.mostDeaths, ms, Deaths)
    && StatMeets(s.longestMatch, ms, Duration)
    && s.mostRecentMatchTime == MostRecent(ms)
  }

  /** The result of `player_matches_to_stats` from its final loop state: the
      hero pick is checked first, then the four trackers in order. */
  function Finish(a: Accumulator, ms: seq<PlayerMatch>, playerId: int, playerName: string)
    : Result<PlayerStats, StatsError>
    requires forall i :: 0 <= i < |a.heroOrder| ==> a.heroOrder[i] in a.heroes
  {
    var pick := MaxByMatches(a.heroOrder, a.heroes);
    var kills := CreateSingleMatchStat(a.kills, |ms|);
    var assists := CreateSingleMatchStat(a.assists, |ms|);
    var deaths := CreateSingleMatchStat(a.deaths, |ms|);
    var longest := CreateSingleMatchStat(a.longest, |ms|);
    if pick.None? then Err(NoHeroPick)
    else if kills.Err? then Err(kills.error)
    else if assists.Err? then Err(assists.error)
    else if deaths.Err? then Err(deaths.error)
    else if longest.Err? then Err(longest.error)
    else Ok(PlayerStats(
      playerId, playerName, a.overall, a.ranked, pick.value,
      kills.value, assists.value, deaths.value, longest.value,
      MostRecent(ms)))
  }

  lemma StatFromTracker(t: Tracker, ms: seq<PlayerMatch>, f: Field)
    requires TrackerMeets(t, ms, f)
    ensures CreateSingleMatchStat(t, |ms|).Ok? <==> HasTracked(ms, f)
    ensures CreateSingleMatchStat(t, |ms|).Ok? ==> StatMeets(CreateSingleMatchStat(t, |ms|).value, ms, f)
  {
  }

  lemma TopHero(a: Accumulator, ms: seq<PlayerMatch>)
    requires |ms| > 0 && HeroesMeet(a, ms)
    ensures MaxByMatches(a.heroOrder, a.heroes).Some?
    ensures IsTopHero(MaxByMatches(a.heroOrder, a.heroes).value, ms)
  {
    var r := MaxByMatches(a.heroOrder, a.heroes);
    HeroMatchesOfMember(ms, 0);
    assert ms[0].heroId in a.heroOrder;
    var p := r.value;
    var i0 :| 0 <= i0 < |a.heroOrder| && p == a.heroes[a.heroOrder[i0]];
    forall j | 0 <= j < |ms|
      ensures HeroMatches(ms, ms[j].heroId) <= p.matches
    {
      HeroMatchesOfMember(ms, j);
      var h := ms[j].heroId;
      assert h in a.heroOrder;
      var i :| 0 <= i < |a.heroOrder| && a.heroOrder[i] == h;
    }
  }

  lemma {:induction false} HeroMatchesOfMember(ms: seq<PlayerMatch>, j: int)
    requires 0 <= j < |ms|
    ensures HeroMatches(ms, ms[j].heroId) > 0
    decreases |ms|
  {
    if j < |ms| - 1 {
      HeroMatchesOfMember(ms[..|ms| - 1], j);
    }
  }

  lemma HeadIsMember(xs: seq<int>)
    ensures |xs| > 0 ==> xs[0] in xs
  {
  }

  /** With no matches the hero map is empty, so no hero is picked. */
  lemma FinishEmpty(a: Accumulator, ms: seq<PlayerMatch>, playerId: int, playerName: string)
    requires |ms| == 0 && HeroesMeet(a, ms)
    ensures Finish(a, ms, playerId, playerName) == Err(NoHeroPick)
  {
    assert forall h :: HeroMatches(ms, h) == 0;
    HeadIsMember(a.heroOrder);
    assert a.heroOrder == [];
    assert MaxByMatches([], a.heroes) == None;
  }

  /** With matches, the result is an error exactly when a field is never
      tracked, and otherwise describes the matches. */
  lemma FinishNonEmpty(a: Accumulator, ms: seq<PlayerMatch>, playerId: int, playerName: string)
    requires |ms| > 0
    requires a.overall == OverallStats(|ms|, Wins(ms))
    requires a.ranked == OverallStats(RankedCount(ms), RankedWins(ms))
    requires HeroesMeet(a, ms)
    requires TrackerMeets(a.kills, ms, Kills) && TrackerMeets(a.assists, ms, Assists)
    requires TrackerMeets(a.deaths, ms, Deaths) && TrackerMeets(a.longest, ms, Duration)
    ensures var r := Finish(a, ms, playerId, playerName);
      && (r.Ok? <==> forall f: Field :: HasTracked(ms, f))
      && (r.Err? ==> r.error == NoTrackedMatch)
      && (r.Ok? ==> Describes(r.value, ms, playerId, playerName))
  {
    TopHero(a, ms);
    StatFromTracker(a.kills, ms, Kills);
    StatFromTracker(a.assists, ms, Assists);
    StatFromTracker(a.deaths, ms, Deaths);
    StatFromTracker(a.longest, ms, Duration);
    var pick := MaxByMatches(a.heroOrder, a.heroes);
    var kills := CreateSingleMatchStat(a.kills, |ms|);
    var assists := CreateSingleMatchStat(a.assists, |ms|);
    var deaths := CreateSingleMatchStat(a.deaths, |ms|);
    var longest := CreateSingleMatchStat(a.longest, |ms|);
    var r := Finish(a, ms, playerId, playerName);
    if kills.Ok? && assists.Ok? && deaths.Ok? && longest.Ok? {
      assert r == Ok(PlayerStats(
        playerId, playerName, a.overall, a.ranked, pick.value,
        kills.value, assists.value, deaths.value, longest.value,
        MostRecent(ms)));
      forall f: Field
        ensures HasTracked(ms, f)
      {
        match f
        case Kills =>
        case Assists =>
        case Deaths =>
        case Duration =>
      }
    } else {
      assert r.Err? && r.error == NoTrackedMatch;
      assert !HasTracked(ms, Kills) || !HasTracked(ms, Assists)
        || !HasTracked(ms, Deaths) || !HasTracked(ms, Duration);
    }
  }

  /** What `Finish` makes of any loop state that counted `ms` correctly. */
  lemma FinishMeets(a: Accumulator, ms: seq<PlayerMatch>, playerId: int, playerName: string)
    requires a.overall == OverallStats(|ms|, Wins(ms))
    requires a.ranked == OverallStats(RankedCount(ms), RankedWins(ms))
    requires HeroesMeet(a, ms)
    requires TrackerMeets(a.kills, ms, Kills) && TrackerMeets(a.assists, ms, Assists)
    requires TrackerMeets(a.deaths, ms, Deaths) && TrackerMeets(a.longest, ms, Duration)
    ensures var r := Finish(a, ms, playerId, playerName);
      && (|ms| == 0 ==> r == Err(NoHeroPick))
      && (r.Ok? <==> |ms| > 0 && forall f: Field :: HasTracked(ms, f))
      && (r.Err? ==> r.error == NoHeroPick || r.error == NoTrackedMatch)
      && (r.Ok? ==> Describes(r.value, ms, playerId, playerName))
  {
    if |ms| > 0 {
      FinishNonEmpty(a, ms, playerId, playerName);
    } else {
      FinishEmpty(a, ms, playerId, playerName);
    }
  }

  /** `player_matches_to_stats`: fails on an empty match list, and otherwise
      exactly when some field is negative in every match; on success every
      counter, the hero pick and the four best matches describe `ms`. */
  function PlayerMatchesToStats(ms: seq<PlayerMatch>, playerId: int, playerName: string)
    : (r: Result<PlayerStats, StatsError>)
    ensures |ms| == 0 ==> r == Err(NoHeroPick)
    ensures r.Ok? <==> |ms| > 0 && forall f: Field :: HasTracked(ms, f)
    ensures r.Err? ==> r.error == NoHeroPick || r.error == NoTrackedMatch
    ensures r.Ok? ==> Describes(r.value, ms, playerId, playerName)
  {
    FoldCounts(ms);
    FoldHeroes(ms);
    FoldTracker(ms, Kills);
    FoldTracker(ms, Assists);
    FoldTracker(ms, Deaths);
    FoldTracker(ms, Duration);
    FinishMeets(Fold(ms), ms, playerId, playerName);
    Finish(Fold(ms), ms, playerId, playerName)
  }

  /** The same computation as the source writes it: one loop over the matches. */
  method PlayerMatchesToStatsLoop(ms: seq<PlayerMatch>, playerId: int, playerName: string)
    returns (r: Result<PlayerStats, StatsError>)
    ensures r == PlayerMatchesToStats(ms, playerId, playerName)
  {
    var a := Start;
    var i := 0;
    while i < |ms|
      invariant 0 <= i <= |ms|
      invariant a == Fold(ms[..i])
    {
      assert ms[..i + 1][..i] == ms[..i];
      a := Step(a, ms[i]);
      i := i + 1;
    }
    assert ms[..i] == ms;
    FoldHeroes(ms);
    r := Finish(a, ms, playerId, playerName);
  }

  // -------------------------------------------------------------------------
  // Consequences
  // -------------------------------------------------------------------------

  /** Ranked games are a subset of all games. */
  lemma {:induction false} RankedAtMostOverall(ms: seq<PlayerMatch>)
    ensures RankedWins(ms) <= RankedCount(ms) <= |ms|
    ensures Wins(ms) <= |ms|
    decreases |ms|
  {
    if |ms| > 0 {
      RankedAtMostOverall(ms[..|ms| - 1]);
    }
  }

  /** A field that is negative in every match leaves its tracker unset, and
      the whole call fails. */
  lemma AllNegativeFails(ms: seq<PlayerMatch>, f: Field, playerId: int, playerName: string)
    requires forall j :: 0 <= j < |ms| ==> FieldOf(ms[j], f) < 0
    ensures PlayerMatchesToStats(ms, playerId, playerName).Err?
  {
  }

  /** Kills 5, 5, 3 (other fields not negative): the second match wins the
      tie, and the kill total is 13. */
  lemma KillsTieGoesToLater(ms: seq<PlayerMatch>, playerId: int, playerName: string)
    requires |ms| == 3 && ms[0].kills == 5 && ms[1].kills == 5 && ms[2].kills == 3
    requires forall j :: 0 <= j < 3 ==> ms[j].assists >= 0 && ms[j].deaths >= 0 && ms[j].duration >= 0
    ensures var r := PlayerMatchesToStats(ms, playerId, playerName);
      r.Ok? && r.value.mostKills.matchId == ms[1].matchId && r.value.mostKills.value == 5
      && r.value.mostKills.total == 13
  {
    EveryFieldTracked(ms);
    var r := PlayerMatchesToStats(ms, playerId, playerName);
    assert Describes(r.value, ms, playerId, playerName);
    var s := r.value.mostKills;
    assert StatMeets(s, ms, Kills);
    var k :| IsBestIndex(ms, Kills, k) && s.value == FieldOf(ms[k], Kills) && s.matchId == ms[k].matchId;
    assert k == 1 by {
      assert FieldOf(ms[1], Kills) == 5 && FieldOf(ms[2], Kills) == 3;
    }
    ThreeSum(ms, Kills);
  }

  /** A first match with no negative field is tracked by every field. */
  lemma EveryFieldTracked(ms: seq<PlayerMatch>)
    requires |ms| > 0
    requires ms[0].kills >= 0 && ms[0].assists >= 0 && ms[0].deaths >= 0 && ms[0].duration >= 0
    ensures forall f: Field :: HasTracked(ms, f)
  {
    forall f: Field
      ensures HasTracked(ms, f)
    {
      assert FieldOf(ms[0], f) >= 0;
    }
  }

  lemma ThreeSum(ms: seq<PlayerMatch>, f: Field)
    requires |ms| == 3
    ensures FieldSum(ms, f) == FieldOf(ms[0], f) + FieldOf(ms[1], f) + FieldOf(ms[2], f)
  {
    var p := ms[..2];
    assert p[..1] == ms[..1];
    assert FieldSum(ms[..1], f) == FieldOf(ms[0], f);
    assert FieldSum(p, f) == FieldOf(ms[0], f) + FieldOf(ms[1], f);
  }
}
