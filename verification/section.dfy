/** `LeaderboardSection` (src/leaderboard/section.rs): a titled list of
    lines, built by appending. The repository declares the same record again
    in src/markdown/stats_formatter.rs; both are this one type. */
module Section {

  datatype LeaderboardSection = LeaderboardSection(title: string, lines: seq<string>)

  /** `LeaderboardSection::new`: the title, and no lines yet. */
  function New(title: string): (s: LeaderboardSection)
    ensures s.title == title && |s.lines| == 0
  {
    LeaderboardSection(title, [])
  }

  /** `add_line`: one more line at the end; the title and every earlier line
      stay as they were. */
  function AddLine(s: LeaderboardSection, line: string): (r: LeaderboardSection)
    ensures r.title == s.title
    ensures |r.lines| == |s.lines| + 1
    ensures r.lines[..|s.lines|] == s.lines && r.lines[|s.lines|] == line
  {
    s.(lines := s.lines + [line])
  }

  /** `add_line` called once per element of `ls`, in order. */
  function AddLines(s: LeaderboardSection, ls: seq<string>): LeaderboardSection {
    if |ls| == 0 then s else AddLine(AddLines(s, ls[..|ls| - 1]), ls[|ls| - 1])
  }

  /** Adding lines one at a time keeps the title and appends them in call order. */
  lemma {:induction false} AddLinesAppends(s: LeaderboardSection, ls: seq<string>)
    ensures AddLines(s, ls) == LeaderboardSection(s.title, s.lines + ls)
    decreases |ls|
  {
    if |ls| > 0 {
      AddLinesAppends(s, ls[..|ls| - 1]);
      assert s.lines + ls[..|ls| - 1] + [ls[|ls| - 1]] == s.lines + ls;
    }
  }

  /** A fresh section given the lines `ls` holds exactly `ls`, in order. */
  lemma NewThenAddLines(title: string, ls: seq<string>)
    ensures AddLines(New(title), ls) == LeaderboardSection(title, ls)
  {
    AddLinesAppends(New(title), ls);
    assert [] + ls == ls;
  }
}
