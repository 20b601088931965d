/** The integer codes of a match record (src/database/types.rs): game mode,
    lobby type and faction, and the errors of the match mapper with their
    display text. */
module MatchTypes {
  import opened Wrappers
  import opened Strings

  datatype GameMode =
    | Unknown | AllPick | CaptainsMode | RandomDraft | SingleDraft
    | AllRandom | LeastPlayed | CaptainsDraft | Ranked | Turbo

  /** The codes that name a game mode. */
  const GameModeCodes: set<int> := {0, 1, 2, 3, 4, 5, 12, 16, 22, 23}

  /** `GameMode::as_i32`. */
  function GameModeCode(g: GameMode): (v: int)
    ensures v in GameModeCodes
  {
    match g
    case Unknown => 0
    case AllPick => 1
    case CaptainsMode => 2
    case RandomDraft => 3
    case SingleDraft => 4
    case AllRandom => 5
    case LeastPlayed => 12
    case CaptainsDraft => 16
    case Ranked => 22
    case Turbo => 23
  }

  /** `GameMode::try_from(v)`: decodes exactly the listed codes. */
  function GameModeFromCode(v: int): (r: Result<GameMode, ()>)
    ensures r.Ok? <==> v in GameModeCodes
    ensures r.Ok? ==> GameModeCode(r.value) == v
  {
    match v
    case 0 => Ok(Unknown)
    case 1 => Ok(AllPick)
    case 2 => Ok(CaptainsMode)
    case 3 => Ok(RandomDraft)
    case 4 => Ok(SingleDraft)
    case 5 => Ok(AllRandom)
    case 12 => Ok(LeastPlayed)
    case 16 => Ok(CaptainsDraft)
    case 22 => Ok(Ranked)
    case 23 => Ok(Turbo)
    case _ => Err(())
  }

  /** Encoding a game mode and decoding the code gives the game mode back. */
  lemma GameModeRoundTrip(g: GameMode)
    ensures GameModeFromCode(GameModeCode(g)) == Ok(g)
  {
  }

  datatype LobbyType =
    | Unranked | Practice | Tournament | Tutorial | CoopBots
    | RankedTeam | RankedSolo | RankedLobby | SoloMid1v1 | BattleCup

  /** `LobbyType::as_i32`. */
  function LobbyTypeCode(l: LobbyType): (v: int)
    ensures 0 <= v <= 9
  {
    match l
    case Unranked => 0
    case Practice => 1
    case Tournament => 2
    case Tutorial => 3
    case CoopBots => 4
    case RankedTeam => 5
    case RankedSolo => 6
    case RankedLobby => 7
    case SoloMid1v1 => 8
    case BattleCup => 9
  }

  /** `LobbyType::try_from(v)`: decodes exactly the codes 0 to 9. */
  function LobbyTypeFromCode(v: int): (r: Result<LobbyType, ()>)
    ensures r.Ok? <==> 0 <= v <= 9
    ensures r.Ok? ==> LobbyTypeCode(r.value) == v
  {
    match v
    case 0 => Ok(Unranked)
    case 1 => Ok(Practice)
    case 2 => Ok(Tournament)
    case 3 => Ok(Tutorial)
    case 4 => Ok(CoopBots)
    case 5 => Ok(RankedTeam)
    case 6 => Ok(RankedSolo)
    case 7 => Ok(RankedLobby)
    case 8 => Ok(SoloMid1v1)
    case 9 => Ok(BattleCup)
    case _ => Err(())
  }

  /** Encoding a lobby type and decoding the code gives the lobby type back. */
  lemma LobbyTypeRoundTrip(l: LobbyType)
    ensures LobbyTypeFromCode(LobbyTypeCode(l)) == Ok(l)
  {
  }

  datatype Faction = Radiant | Dire

  /** `Faction::from_player_slot`: slots below 128 are Radiant, the rest Dire. */
  function FactionFromSlot(slot: int): (f: Faction)
    ensures f == Radiant <==> slot < 128
    ensures f == Dire <==> slot >= 128
  {
    if slot < 128 then Radiant else Dire
  }

  /** `Faction::as_i32`. */
  function FactionCode(f: Faction): (v: int)
    ensures v == 0 <==> f == Radiant
    ensures v == 1 <==> f == Dire
  {
    match f
    case Radiant => 0
    case Dire => 1
  }

  /** Why a match record could not be mapped; every variant names its match. */
  datatype MapperError =
    | MissingField(field: string, matchId: int)
    | InvalidDuration(value: int, matchId: int)
    | InvalidGameMode(value: int, matchId: int)
    | InvalidLobbyType(value: int, matchId: int)
    | UnknownHero(heroId: int, matchId: int)

  /** The text after the "match {id}: " prefix. */
  function ErrorDetail(e: MapperError): string {
    match e
    case MissingField(field, _) => "missing " + field
    case InvalidDuration(value, _) => "invalid duration " + IntToString(value)
    case InvalidGameMode(value, _) => "invalid game mode " + IntToString(value)
    case InvalidLobbyType(value, _) => "invalid lobby type " + IntToString(value)
    case UnknownHero(heroId, _) => "unknown hero id " + IntToString(heroId)
  }

  /** `impl Display for MapperError`. */
  function DisplayError(e: MapperError): (r: string)
    ensures StartsWith(r, "match " + IntToString(e.matchId) + ": ")
  {
    "match " + IntToString(e.matchId) + ": " + ErrorDetail(e)
  }

  lemma NoColonInNumber(i: int)
    ensures ':' !in IntToString(i)
  {
    var a := IntToString(i);
    forall k | 0 <= k < |a|
      ensures a[k] != ':'
    {
      if k > 0 {
        assert IsDigit(a[k]);
      }
    }
  }

  lemma {:induction false} MatchPrefixDetermined(a: string, b: string, x: string, y: string)
    requires ':' !in a && ':' !in b
    requires "match " + a + ": " + x == "match " + b + ": " + y
    ensures a == b
  {
    var d := "match " + a + ": " + x;
    assert d == ("match " + a) + [':'] + (" " + x);
    assert d == ("match " + b) + [':'] + (" " + y);
    IndexOfCharAfter("match " + a, ':', " " + x);
    IndexOfCharAfter("match " + b, ':', " " + y);
    assert a == d[6..6 + |a|];
    assert b == d[6..6 + |b|];
  }

  /** The displayed text determines the match the error is about. */
  lemma DisplayDeterminesMatchId(e1: MapperError, e2: MapperError)
    requires DisplayError(e1) == DisplayError(e2)
    ensures e1.matchId == e2.matchId
  {
    NoColonInNumber(e1.matchId);
    NoColonInNumber(e2.matchId);
    MatchPrefixDetermined(IntToString(e1.matchId), IntToString(e2.matchId), ErrorDetail(e1), ErrorDetail(e2));
    IntToStringInjective(e1.matchId, e2.matchId);
  }
}
