/** A player registered to a Discord server (src/data/player_servers_db.rs). */
module PlayerServers {
  import opened Wrappers

  datatype PlayerServer = PlayerServer(
    playerId: int,
    serverId: int,
    userId: int,
    discordName: string,
    playerName: Option<string>)

  /** `display_name`: the chosen player name, else the Discord name. */
  function DisplayName(p: PlayerServer): (name: string)
    ensures p.playerName.Some? ==> name == p.playerName.value
    ensures p.playerName.None? ==> name == p.discordName
  {
    p.playerName.UnwrapOr(p.discordName)
  }
}
