/** `map_to_player_match` (src/database/player_matches_db.rs): turns a match
    record fetched from the match-history API into a stored player match,
    skips it, or rejects it with a `MapperError`. The hero cache is the set of
    known hero ids, passed in. */
module MatchMapper {
  import opened Wrappers
  import opened MatchTypes

  /** A match record as the API returns it; every field but the id may be
      absent. (The API's `version`, `skill` and `hero_variant` are never read
      by the mapper and are left out.) */
  datatype ApiMatch = ApiMatch(
    matchId: int,
    playerSlot: Option<int>,
    radiantWin: Option<bool>,
    duration: Option<int>,
    gameMode: Option<int>,
    lobbyType: Option<int>,
    heroId: Option<int>,
    startTime: Option<int>,
    kills: Option<int>,
    deaths: Option<int>,
    assists: Option<int>,
    averageRank: Option<int>,
    leaverStatus: Option<int>,
    partySize: Option<int>)

  /** A stored match of one player (the `player_matches` row). */
  datatype PlayerMatch = PlayerMatch(
    matchId: int,
    playerId: int,
    heroId: int,
    kills: int,
    deaths: int,
    assists: int,
    rank: int,
    partySize: int,
    faction: int,
    isVictory: bool,
    startTime: int,
    duration: int,
    gameMode: int,
    lobbyType: int)

  /** A match the mapper always ignores. */
  const IgnoredMatchId: int := 1439386853

  predicate IsLeaver(status: Option<int>) {
    status == Some(1) || status == Some(2)
  }

  /** The game modes and lobby types whose matches are kept. */
  predicate RelevantGameMode(g: GameMode) {
    g == Ranked || g == AllPick
  }

  predicate RelevantLobbyType(l: LobbyType) {
    l == Unranked || l == RankedLobby || l == RankedSolo
  }

  /** `map_to_player_match`: the checks run one after another and the first
      one that skips or fails decides the result. */
  function MapToPlayerMatch(api: ApiMatch, playerId: int, heroes: set<int>)
    : (r: Result<Option<PlayerMatch>, MapperError>)
    ensures r.Err? ==> r.error.matchId == api.matchId
    ensures api.matchId == IgnoredMatchId ==> r == Ok(None)
    ensures api.heroId == None || api.heroId == Some(0) ==> r == Ok(None)
    ensures r.Ok? && r.value.Some? ==>
      var m := r.value.value;
      && api.heroId == Some(m.heroId) && m.heroId != 0 && m.heroId in heroes
      && !IsLeaver(api.leaverStatus)
      && m.matchId == api.matchId && m.matchId != IgnoredMatchId
      && m.playerId == playerId
      && (m.gameMode == 1 || m.gameMode == 22)
      && (m.lobbyType == 0 || m.lobbyType == 6 || m.lobbyType == 7)
      && api.gameMode == Some(m.gameMode) && api.lobbyType == Some(m.lobbyType)
      && api.startTime == Some(m.startTime)
      && api.duration == Some(m.duration) && m.duration >= 0
      && api.kills == Some(m.kills) && api.deaths == Some(m.deaths)
      && api.assists == Some(m.assists)
      && api.playerSlot.Some? && api.radiantWin.Some?
      && m.faction == (if api.playerSlot.value < 128 then 0 else 1)
      && m.isVictory == ((api.playerSlot.value < 128) == api.radiantWin.value)
      && m.rank == api.averageRank.UnwrapOr(0)
      && m.partySize == api.partySize.UnwrapOr(0)
  {
    var id := api.matchId;
    if id == IgnoredMatchId then Ok(None)
    else if api.heroId.None? || api.heroId.value == 0 then Ok(None)
    else
      var heroId := api.heroId.value;
      if heroId !in heroes then Err(UnknownHero(heroId, id))
      else if IsLeaver(api.leaverStatus) then Ok(None)
      else if api.gameMode.None? then Err(MissingField("game_mode", id))
      else if api.lobbyType.None? then Err(MissingField("lobby_type", id))
      else
        var gameModeValue, lobbyTypeValue := api.gameMode.value, api.lobbyType.value;
        var gameMode := GameModeFromCode(gameModeValue);
        var lobbyType := LobbyTypeFromCode(lobbyTypeValue);
        if gameMode.Err? then Err(InvalidGameMode(gameModeValue, id))
        else if lobbyType.Err? then Err(InvalidLobbyType(lobbyTypeValue, id))
        else if !RelevantGameMode(gameMode.value) || !RelevantLobbyType(lobbyType.value) then Ok(None)
        else if api.startTime.None? then Err(MissingField("start_time_seconds", id))
        else if api.duration.None? then Err(MissingField("duration", id))
        else if api.duration.value < 0 then Err(InvalidDuration(api.duration.value, id))
        else if api.kills.None? then Err(MissingField("kills", id))
        else if api.deaths.None? then Err(MissingField("deaths", id))
        else if api.assists.None? then Err(MissingField("assists", id))
        else if api.playerSlot.None? then Err(MissingField("player_slot", id))
        else if api.radiantWin.None? then Err(MissingField("radiant_win", id))
        else
          var faction := FactionFromSlot(api.playerSlot.value);
          Ok(Some(PlayerMatch(
            id, playerId, heroId,
            api.kills.value, api.deaths.value, api.assists.value,
            api.averageRank.UnwrapOr(0), api.partySize.UnwrapOr(0),
            FactionCode(faction),
            (faction == Radiant) == api.radiantWin.value,
            api.startTime.value, api.duration.value,
            GameModeCode(gameMode.value), LobbyTypeCode(lobbyType.value))))
  }

  // -------------------------------------------------------------------------
  // The same checks, written as an ordered table
  // -------------------------------------------------------------------------

  /** What one check decides on its own. */
  datatype Verdict = Continue | Skip | Fail(error: MapperError)

  function Required<T>(v: Option<T>, field: string, id: int): Verdict {
    if v.None? then Fail(MissingField(field, id)) else Continue
  }

  /** The checks of the hero and leaver stage, in source order. */
  function HeroChecks(api: ApiMatch, heroes: set<int>): seq<Verdict> {
    var id := api.matchId;
    var hero := api.heroId.UnwrapOr(0);
    [ if id == IgnoredMatchId then Skip else Continue,
      if hero == 0 then Skip else Continue,
      if hero !in heroes then Fail(UnknownHero(hero, id)) else Continue,
      if IsLeaver(api.leaverStatus) then Skip else Continue ]
  }

  /** The checks of the game mode and lobby type stage, in source order. */
  function CodeChecks(api: ApiMatch): seq<Verdict> {
    var id := api.matchId;
    var gm := if api.gameMode.Some? then GameModeFromCode(api.gameMode.value) else Err(());
    var lt := if api.lobbyType.Some? then LobbyTypeFromCode(api.lobbyType.value) else Err(());
    [ Required(api.gameMode, "game_mode", id),
      Required(api.lobbyType, "lobby_type", id),
      if api.gameMode.Some? && gm.Err? then Fail(InvalidGameMode(api.gameMode.value, id)) else Continue,
      if api.lobbyType.Some? && lt.Err? then Fail(InvalidLobbyType(api.lobbyType.value, id)) else Continue,
      if gm.Ok? && lt.Ok? && !(RelevantGameMode(gm.value) && RelevantLobbyType(lt.value)) then Skip else Continue ]
  }

  /** The checks of the remaining fields, in source order. */
  function FieldChecks(api: ApiMatch): seq<Verdict> {
    var id := api.matchId;
    [ Required(api.startTime, "start_time_seconds", id),
      Required(api.duration, "duration", id),
      if api.duration.Some? && api.duration.value < 0 then Fail(InvalidDuration(api.duration.value, id)) else Continue,
      Required(api.kills, "kills", id),
      Required(api.deaths, "deaths", id),
      Required(api.assists, "assists", id),
      Required(api.playerSlot, "player_slot", id),
      Required(api.radiantWin, "radiant_win", id) ]
  }

  /** Each check of the mapper in source order, judged on its own (a check
      that needs a field an earlier check guarantees says `Continue` when the
      field is missing). */
  function Checks(api: ApiMatch, heroes: set<int>): seq<Verdict> {
    HeroChecks(api, heroes) + CodeChecks(api) + FieldChecks(api)
  }

  /** The first verdict that is not `Continue`, or `Continue` if all pass. */
  function FirstDecisive(verdicts: seq<Verdict>): Verdict {
    if |verdicts| == 0 then Continue
    else if verdicts[0] != Continue then verdicts[0]
    else FirstDecisive(verdicts[1..])
  }

  lemma {:induction false} FirstDecisiveAt(vs: seq<Verdict>, k: nat)
    requires k < |vs| && vs[k] != Continue
    requires forall j :: 0 <= j < k ==> vs[j] == Continue
    ensures FirstDecisive(vs) == vs[k]
    decreases k
  {
    if k > 0 {
      FirstDecisiveAt(vs[1..], k - 1);
    }
  }

  lemma {:induction false} FirstDecisiveAllPass(vs: seq<Verdict>)
    requires forall j :: 0 <= j < |vs| ==> vs[j] == Continue
    ensures FirstDecisive(vs) == Continue
    decreases |vs|
  {
    if |vs| > 0 {
      FirstDecisiveAllPass(vs[1..]);
    }
  }

  lemma {:induction false} FirstDecisiveAppend(a: seq<Verdict>, b: seq<Verdict>)
    ensures FirstDecisive(a + b) == if FirstDecisive(a) != Continue then FirstDecisive(a) else FirstDecisive(b)
    decreases |a|
  {
    if |a| == 0 {
      assert a + b == b;
    } else {
      assert (a + b)[1..] == a[1..] + b;
      FirstDecisiveAppend(a[1..], b);
    }
  }

  /** The mapper's result says what the verdict `v` says. */
  predicate Agrees(r: Result<Option<PlayerMatch>, MapperError>, v: Verdict) {
    && (r == Ok(None) <==> v == Skip)
    && (r.Err? ==> v == Fail(r.error))
    && (r.Ok? && r.value.Some? <==> v == Continue)
  }

  lemma HeroStage(api: ApiMatch, playerId: int, heroes: set<int>)
    ensures FirstDecisive(HeroChecks(api, heroes)) != Continue ==>
      Agrees(MapToPlayerMatch(api, playerId, heroes), FirstDecisive(HeroChecks(api, heroes)))
  {
    var c := HeroChecks(api, heroes);
    if c[0] != Continue {
      FirstDecisiveAt(c, 0);
    } else if c[1] != Continue {
      FirstDecisiveAt(c, 1);
    } else if c[2] != Continue {
      FirstDecisiveAt(c, 2);
    } else if c[3] != Continue {
      FirstDecisiveAt(c, 3);
    } else {
      FirstDecisiveAllPass(c);
    }
  }

  lemma CodeStage(api: ApiMatch, playerId: int, heroes: set<int>)
    requires FirstDecisive(HeroChecks(api, heroes)) == Continue
    ensures FirstDecisive(CodeChecks(api)) != Continue ==>
      Agrees(MapToPlayerMatch(api, playerId, heroes), FirstDecisive(CodeChecks(api)))
  {
    HeroStagePassed(api, heroes);
    var c := CodeChecks(api);
    if c[0] != Continue {
      FirstDecisiveAt(c, 0);
    } else if c[1] != Continue {
      FirstDecisiveAt(c, 1);
    } else if c[2] != Continue {
      FirstDecisiveAt(c, 2);
    } else if c[3] != Continue {
      FirstDecisiveAt(c, 3);
    } else if c[4] != Continue {
      FirstDecisiveAt(c, 4);
    } else {
      FirstDecisiveAllPass(c);
    }
  }

  lemma FieldStage(api: ApiMatch, playerId: int, heroes: set<int>)
    requires FirstDecisive(HeroChecks(api, heroes)) == Continue
    requires FirstDecisive(CodeChecks(api)) == Continue
    ensures Agrees(MapToPlayerMatch(api, playerId, heroes), FirstDecisive(FieldChecks(api)))
  {
    HeroStagePassed(api, heroes);
    CodeStagePassed(api);
    var c := FieldChecks(api);
    if c[0] != Continue {
      FirstDecisiveAt(c, 0);
    } else if c[1] != Continue {
      FirstDecisiveAt(c, 1);
    } else if c[2] != Continue {
      FirstDecisiveAt(c, 2);
    } else if c[3] != Continue {
      FirstDecisiveAt(c, 3);
    } else if c[4] != Continue {
      FirstDecisiveAt(c, 4);
    } else if c[5] != Continue {
      FirstDecisiveAt(c, 5);
    } else if c[6] != Continue {
      FirstDecisiveAt(c, 6);
    } else if c[7] != Continue {
      FirstDecisiveAt(c, 7);
    } else {
      FirstDecisiveAllPass(c);
    }
  }

  /** When no hero check decides, the record passes every one of them. */
  lemma HeroStagePassed(api: ApiMatch, heroes: set<int>)
    requires FirstDecisive(HeroChecks(api, heroes)) == Continue
    ensures api.matchId != IgnoredMatchId
    ensures api.heroId.Some? && api.heroId.value != 0 && api.heroId.value in heroes
    ensures !IsLeaver(api.leaverStatus)
  {
    var c := HeroChecks(api, heroes);
    ContinueBefore(c, 0);
    ContinueBefore(c, 1);
    ContinueBefore(c, 2);
    ContinueBefore(c, 3);
  }

  /** When no code check decides, both codes are present, decodable and relevant. */
  lemma CodeStagePassed(api: ApiMatch)
    requires FirstDecisive(CodeChecks(api)) == Continue
    ensures api.gameMode.Some? && api.lobbyType.Some?
    ensures GameModeFromCode(api.gameMode.value).Ok?
    ensures LobbyTypeFromCode(api.lobbyType.value).Ok?
    ensures RelevantGameMode(GameModeFromCode(api.gameMode.value).value)
    ensures RelevantLobbyType(LobbyTypeFromCode(api.lobbyType.value).value)
  {
    var c := CodeChecks(api);
    ContinueBefore(c, 0);
    ContinueBefore(c, 1);
    ContinueBefore(c, 2);
    ContinueBefore(c, 3);
    ContinueBefore(c, 4);
  }

  /** If the first decisive verdict is `Continue`, every verdict is. */
  lemma {:induction false} ContinueBefore(vs: seq<Verdict>, k: nat)
    requires k < |vs|
    requires FirstDecisive(vs) == Continue
    ensures vs[k] == Continue
    decreases k
  {
    if k > 0 {
      ContinueBefore(vs[1..], k - 1);
    }
  }

  /** The mapper skips exactly when the first decisive check skips, fails with
      exactly the first failing check's error, and stores a match exactly when
      every check passes. */
  lemma MapperFollowsChecks(api: ApiMatch, playerId: int, heroes: set<int>)
    ensures Agrees(MapToPlayerMatch(api, playerId, heroes), FirstDecisive(Checks(api, heroes)))
  {
    var h, c, f := HeroChecks(api, heroes), CodeChecks(api), FieldChecks(api);
    FirstDecisiveAppend(h + c, f);
    FirstDecisiveAppend(h, c);
    HeroStage(api, playerId, heroes);
    if FirstDecisive(h) == Continue {
      CodeStage(api, playerId, heroes);
      if FirstDecisive(c) == Continue {
        FieldStage(api, playerId, heroes);
      }
    }
  }
}
