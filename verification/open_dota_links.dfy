/** The OpenDota page addresses of a player and of a match
    (src/api/open_dota_links.rs). */
module OpenDotaLinks {
  import opened Strings

  const ProfilePrefix: string := "https://www.opendota.com/players/"
  const MatchPrefix: string := "https://www.opendota.com/matches/"

  /** `profile_url`: the player's page, named by the decimal player id. */
  function ProfileUrl(playerId: int): (u: string)
    ensures StartsWith(u, ProfilePrefix)
    ensures u[|ProfilePrefix|..] == IntToString(playerId)
  {
    ProfilePrefix + IntToString(playerId)
  }

  /** `match_url`: the match's page, named by the decimal match id. */
  function MatchUrl(matchId: int): (u: string)
    ensures StartsWith(u, MatchPrefix)
    ensures u[|MatchPrefix|..] == IntToString(matchId)
  {
    MatchPrefix + IntToString(matchId)
  }

  /** Different players get different pages, and so do different matches. */
  lemma UrlsIdentify(a: int, b: int)
    ensures ProfileUrl(a) == ProfileUrl(b) ==> a == b
    ensures MatchUrl(a) == MatchUrl(b) ==> a == b
  {
    if ProfileUrl(a) == ProfileUrl(b) {
      assert ProfileUrl(a)[|ProfilePrefix|..] == ProfileUrl(b)[|ProfilePrefix|..];
      IntToStringInjective(a, b);
    }
    if MatchUrl(a) == MatchUrl(b) {
      assert MatchUrl(a)[|MatchPrefix|..] == MatchUrl(b)[|MatchPrefix|..];
      IntToStringInjective(a, b);
    }
  }

  /** A player page is never a match page. */
  lemma ProfileIsNotMatch(a: int, b: int)
    ensures ProfileUrl(a) != MatchUrl(b)
  {
    assert ProfileUrl(a)[25] == 'p';
    assert MatchUrl(b)[25] == 'm';
  }
}
