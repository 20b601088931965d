/** From registered players to leaderboard messages
    (src/leaderboard/leaderboard_stats.rs): aggregate each player's matches,
    build the seven sections and turn every present section into one
    message. */
module LeaderboardStats {
  import opened Wrappers
  import opened Strings
  import opened MatchMapper
  import opened StatsCalculator
  import opened Section
  import opened SectionFormatter
  import opened Sections
  import opened PlayerServers

  // -------------------------------------------------------------------------
  // section_to_msg_content
  // -------------------------------------------------------------------------

  /** Each line followed by a newline, in order. */
  function Terminated(lines: seq<string>): string {
    if |lines| == 0 then "" else lines[0] + "\n" + Terminated(lines[1..])
  }

  lemma {:induction false} TerminatedPush(lines: seq<string>, line: string)
    ensures Terminated(lines + [line]) == Terminated(lines) + line + "\n"
    decreases |lines|
  {
    if |lines| == 0 {
      assert lines + [line] == [line];
    } else {
      assert (lines + [line])[1..] == lines[1..] + [line];
      TerminatedPush(lines[1..], line);
    }
  }

  const HeadingMark: string := "### "

  /** `section_to_msg_content`: a level-three heading with the title, then
      every line, each ending in a newline. */
  function SectionToMsgContent(s: LeaderboardSection): (content: string)
    ensures StartsWith(content, HeadingMark + s.title + "\n")
    ensures |content| == |HeadingMark| + |s.title| + 1 + |Terminated(s.lines)|
  {
    HeadingMark + s.title + "\n" + Terminated(s.lines)
  }

  /** The loop the source writes: push each line with its newline. */
  method SectionToMsgContentLoop(s: LeaderboardSection) returns (content: string)
    ensures content == SectionToMsgContent(s)
  {
    content := HeadingMark + s.title + "\n";
    var i := 0;
    while i < |s.lines|
      invariant 0 <= i <= |s.lines|
      invariant content == HeadingMark + s.title + "\n" + Terminated(s.lines[..i])
    {
      TerminatedPush(s.lines[..i], s.lines[i]);
      assert s.lines[..i + 1] == s.lines[..i] + [s.lines[i]];
      content := content + s.lines[i] + "\n";
      i := i + 1;
    }
    assert s.lines[..i] == s.lines;
  }

  lemma {:induction false} TerminatedIsJoin(head: string, lines: seq<string>)
    ensures head + "\n" + Terminated(lines) == Join([head] + lines, "\n") + "\n"
    decreases |lines|
  {
    if |lines| > 0 {
      TerminatedIsJoin(lines[0], lines[1..]);
      assert [lines[0]] + lines[1..] == lines;
      JoinCons(head, lines, "\n");
    }
  }

  predicate NoNewline(s: string) {
    '\n' !in s
  }

  /** A message is the heading line and the section's lines joined by
      newlines, with a final newline; when neither the title nor a line holds
      a newline, splitting the message at newlines gives them back. */
  lemma MsgContentLines(s: LeaderboardSection)
    ensures SectionToMsgContent(s) == Join([HeadingMark + s.title] + s.lines, "\n") + "\n"
    ensures NoNewline(s.title) && (forall k :: 0 <= k < |s.lines| ==> NoNewline(s.lines[k])) ==>
      Split(SectionToMsgContent(s), "\n") == [HeadingMark + s.title] + s.lines + [""]
  {
    var xs := [HeadingMark + s.title] + s.lines;
    TerminatedIsJoin(HeadingMark + s.title, s.lines);
    assert HeadingMark + s.title + "\n" + Terminated(s.lines) == (HeadingMark + s.title) + "\n" + Terminated(s.lines);
    if NoNewline(s.title) && (forall k :: 0 <= k < |s.lines| ==> NoNewline(s.lines[k])) {
      var ys := xs + [""];
      forall k | 0 <= k < |ys|
        ensures '\n' !in ys[k]
      {
        if k == 0 {
          assert ys[0] == HeadingMark + s.title;
        } else if k < |xs| {
          assert ys[k] == s.lines[k - 1];
        }
      }
      JoinSnoc(xs, "", "\n");
      assert Join(ys, "\n") == Join(xs, "\n") + "\n";
      SplitJoinChar(ys, '\n');
    }
  }

  lemma {:induction false} JoinSnoc(xs: seq<string>, y: string, sep: string)
    requires |xs| >= 1
    ensures Join(xs + [y], sep) == Join(xs, sep) + sep + y
    decreases |xs|
  {
    if |xs| == 1 {
      assert (xs + [y])[1..] == [y];
    } else {
      assert (xs + [y])[1..] == xs[1..] + [y];
      JoinSnoc(xs[1..], y, sep);
    }
  }

  // -------------------------------------------------------------------------
  // get_player_stats
  // -------------------------------------------------------------------------

  /** Why a leaderboard could not be built: a match query failed, or the
      aggregation of some player's matches did. */
  datatype LeaderboardError = QueryFailed(message: string) | StatsFailed(error: StatsError)

  /** A player whose query succeeded with at least one match. */
  predicate Counted(fetched: Result<seq<PlayerMatch>, string>) {
    fetched.Ok? && |fetched.value| > 0
  }

  /** What one player contributes: nothing when the query found no matches,
      the player's stats otherwise, or the error that stops everything. */
  function PlayerEntry(p: PlayerServer, fetched: Result<seq<PlayerMatch>, string>)
    : (r: Result<seq<PlayerStats>, LeaderboardError>)
    ensures fetched.Err? ==> r == Err(QueryFailed(fetched.error))
    ensures fetched.Ok? && |fetched.value| == 0 ==> r == Ok([])
    ensures Counted(fetched) ==> (r.Ok? <==> PlayerMatchesToStats(fetched.value, p.playerId, DisplayName(p)).Ok?)
    ensures r.Ok? ==> |r.value| <= 1 && (|r.value| == 1 <==> Counted(fetched))
    ensures r.Ok? && |r.value| == 1 ==>
      fetched.Ok? && Describes(r.value[0], fetched.value, p.playerId, DisplayName(p))
  {
    match fetched
    case Err(m) => Err(QueryFailed(m))
    case Ok(ms) =>
      if |ms| == 0 then Ok([])
      else
        match PlayerMatchesToStats(ms, p.playerId, DisplayName(p))
        case Err(e) => Err(StatsFailed(e))
        case Ok(s) => Ok([s])
  }

  /** Results visited in order from position `from`: the first error ends
      everything, otherwise the values are concatenated (a `for` loop with
      `?` that pushes each value). */
  function Collect<T, E>(es: seq<Result<seq<T>, E>>, from: nat): Result<seq<T>, E>
    requires from <= |es|
    decreases |es| - from
  {
    if from == |es| then Ok([])
    else
      match es[from]
      case Err(e) => Err(e)
      case Ok(head) =>
        match Collect(es, from + 1)
        case Err(e) => Err(e)
        case Ok(rest) => Ok(head + rest)
  }

  /** Collecting succeeds exactly when no result is an error; otherwise it
      gives the first error. */
  lemma {:induction false} CollectOutcome<T, E>(es: seq<Result<seq<T>, E>>, from: nat)
    requires from <= |es|
    ensures Collect(es, from).Ok? <==> forall i :: from <= i < |es| ==> es[i].Ok?
    ensures Collect(es, from).Err? ==> exists i :: from <= i < |es| && es[i] == Err(Collect(es, from).error)
                                                   && forall j :: from <= j < i ==> es[j].Ok?
    decreases |es| - from
  {
    if from < |es| {
      CollectOutcome(es, from + 1);
    }
  }

  /** A result that holds a value. */
  predicate NonEmpty<T, E>(e: Result<seq<T>, E>) {
    e.Ok? && |e.value| > 0
  }

  /** The positions from `from` on of the results that hold a value, in order. */
  function NonEmptyIndices<T, E>(es: seq<Result<seq<T>, E>>, from: nat): (ix: seq<nat>)
    requires from <= |es|
    ensures forall j :: 0 <= j < |ix| ==> from <= ix[j] < |es| && NonEmpty(es[ix[j]])
    ensures forall j, k :: 0 <= j < k < |ix| ==> ix[j] < ix[k]
    decreases |es| - from
  {
    if from == |es| then []
    else (if NonEmpty(es[from]) then [from] else []) + NonEmptyIndices(es, from + 1)
  }

  /** Every non-empty result from `from` on is listed. */
  lemma {:induction false} NonEmptyListed<T, E>(es: seq<Result<seq<T>, E>>, from: nat)
    requires from <= |es|
    ensures forall i :: from <= i < |es| && NonEmpty(es[i]) ==> i in NonEmptyIndices(es, from)
    decreases |es| - from
  {
    if from < |es| {
      NonEmptyListed(es, from + 1);
    }
  }

  /** When every result holds at most one value, the collected values are
      those values, one per non-empty result, in order. */
  lemma {:induction false} CollectValues<T, E>(es: seq<Result<seq<T>, E>>, from: nat)
    requires from <= |es|
    requires forall i :: from <= i < |es| ==> es[i].Ok? && |es[i].value| <= 1
    ensures Collect(es, from).Ok?
    ensures var r, ix := Collect(es, from).value, NonEmptyIndices(es, from);
      && |r| == |ix|
      && forall j :: 0 <= j < |ix| ==> r[j] == es[ix[j]].value[0]
    decreases |es| - from
  {
    CollectOutcome(es, from);
    if from < |es| {
      CollectValues(es, from + 1);
      var rest, tail := Collect(es, from + 1).value, NonEmptyIndices(es, from + 1);
      CollectStep(es, from, rest, tail);
    }
  }

  lemma CollectStep<T, E>(es: seq<Result<seq<T>, E>>, from: nat, rest: seq<T>, tail: seq<nat>)
    requires from < |es|
    requires es[from].Ok? && |es[from].value| <= 1
    requires Collect(es, from + 1) == Ok(rest) && tail == NonEmptyIndices(es, from + 1)
    requires |rest| == |tail| && forall j :: 0 <= j < |tail| ==> rest[j] == es[tail[j]].value[0]
    ensures Collect(es, from).Ok?
    ensures var r, ix := Collect(es, from).value, NonEmptyIndices(es, from);
      && |r| == |ix|
      && forall j :: 0 <= j < |ix| ==> r[j] == es[ix[j]].value[0]
  {
    var r, ix := Collect(es, from).value, NonEmptyIndices(es, from);
    assert r == es[from].value + rest;
    if NonEmpty(es[from]) {
      assert ix == [from] + tail;
      assert r == [es[from].value[0]] + rest;
    } else {
      assert es[from].value == [];
      assert r == rest && ix == tail;
    }
  }

  /** Each player's entry, in player order. */
  function Entries(players: seq<PlayerServer>, fetched: seq<Result<seq<PlayerMatch>, string>>)
    : (es: seq<Result<seq<PlayerStats>, LeaderboardError>>)
    requires |fetched| == |players|
    ensures |es| == |players|
    ensures forall i :: 0 <= i < |es| ==> es[i] == PlayerEntry(players[i], fetched[i])
  {
    seq(|players|, i requires 0 <= i < |players| => PlayerEntry(players[i], fetched[i]))
  }

  /** `get_player_stats`, with the match query of each player given as its
      result: every player is visited in order, one with no matches is
      skipped, and the first error aborts the whole computation. On success
      there is one record per player with matches, in player order, each
      describing that player's matches under their display name. */
  function GetPlayerStats(players: seq<PlayerServer>, fetched: seq<Result<seq<PlayerMatch>, string>>)
    : (r: Result<seq<PlayerStats>, LeaderboardError>)
    requires |fetched| == |players|
    ensures r.Ok? <==> forall i :: 0 <= i < |players| ==> PlayerEntry(players[i], fetched[i]).Ok?
    ensures r.Err? ==> exists i :: 0 <= i < |players| && PlayerEntry(players[i], fetched[i]) == Err(r.error)
                                   && forall j :: 0 <= j < i ==> PlayerEntry(players[j], fetched[j]).Ok?
    ensures r.Ok? ==> var ix := NonEmptyIndices(Entries(players, fetched), 0);
      && (forall i :: i in ix <==> 0 <= i < |players| && Counted(fetched[i]))
      && |r.value| == |ix|
      && forall j :: 0 <= j < |ix| ==>
           Describes(r.value[j], fetched[ix[j]].value, players[ix[j]].playerId, DisplayName(players[ix[j]]))
  {
    var es := Entries(players, fetched);
    CollectOutcome(es, 0);
    NonEmptyListed(es, 0);
    if Collect(es, 0).Ok? then
      CollectValues(es, 0);
      Collect(es, 0)
    else
      Collect(es, 0)
  }

  // -------------------------------------------------------------------------
  // get_leaderboard_messages
  // -------------------------------------------------------------------------

  /** The values of the present entries, in order (`filter_map(as_ref)`). */
  function Present<T(!new)>(xs: seq<Option<T>>): (r: seq<T>)
    ensures |r| <= |xs|
    ensures forall x :: x in r <==> Some(x) in xs
    ensures |r| == 0 <==> forall i :: 0 <= i < |xs| ==> xs[i].None?
  {
    if |xs| == 0 then []
    else (if xs[0].Some? then [xs[0].value] else []) + Present(xs[1..])
  }

  lemma {:induction false} PresentAppend<T(!new)>(xs: seq<Option<T>>, ys: seq<Option<T>>)
    ensures Present(xs + ys) == Present(xs) + Present(ys)
    decreases |xs|
  {
    if |xs| == 0 {
      assert xs + ys == ys;
    } else {
      assert (xs + ys)[1..] == xs[1..] + ys;
      PresentAppend(xs[1..], ys);
    }
  }

  /** With every entry present, nothing is dropped. */
  lemma {:induction false} PresentAll<T(!new)>(xs: seq<Option<T>>)
    requires forall i :: 0 <= i < |xs| ==> xs[i].Some?
    ensures |Present(xs)| == |xs|
    ensures forall i :: 0 <= i < |xs| ==> Present(xs)[i] == xs[i].value
  {
    if |xs| > 0 {
      PresentAll(xs[1..]);
    }
  }

  /** `get_leaderboard_messages`: the player stats, then one message per
      present section, in slot order. */
  function GetLeaderboardMessages(players: seq<PlayerServer>, fetched: seq<Result<seq<PlayerMatch>, string>>,
                                  durationLabel: string, fmt: Formatters, heroes: map<int, string>,
                                  emoji: Emoji -> string): (r: Result<seq<string>, LeaderboardError>)
    requires |fetched| == |players|
    ensures r.Ok? <==> GetPlayerStats(players, fetched).Ok?
    ensures r.Err? ==> r.error == GetPlayerStats(players, fetched).error
    ensures r.Ok? ==>
      var present := Present(GetLeaderboardSections(durationLabel, GetPlayerStats(players, fetched).value, fmt, heroes, emoji));
      && |r.value| == |present|
      && forall j :: 0 <= j < |present| ==> r.value[j] == SectionToMsgContent(present[j])
  {
    match GetPlayerStats(players, fetched)
    case Err(e) => Err(e)
    case Ok(all) =>
      var present := Present(GetLeaderboardSections(durationLabel, all, fmt, heroes, emoji));
      Ok(MapSeq(present, SectionToMsgContent))
  }

  /** Nobody with a match: every slot is absent, so there are no messages. */
  lemma NoStatsNoMessages(durationLabel: string, fmt: Formatters, heroes: map<int, string>, emoji: Emoji -> string)
    ensures Present(GetLeaderboardSections(durationLabel, [], fmt, heroes, emoji)) == []
  {
    var sections := GetLeaderboardSections(durationLabel, [], fmt, heroes, emoji);
    assert forall k :: 0 <= k < 7 ==> sections[k].None?;
  }
}
