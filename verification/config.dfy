/** Path expansion for the configuration file (src/config.rs): a leading
    `~/` becomes the home directory, and `{DATE}` in log paths becomes the
    date. The `HOME` variable and the date text are parameters. */
module Config {
  import opened Wrappers
  import opened Strings

  datatype ConfigError = HomeNotSet

  const HomePrefix: string := "~/"
  const DatePlaceholder: string := "{DATE}"

  /** Rust's `s.replacen(c, rep, 1)` for a one-character pattern: the first
      `c`, if any, becomes `rep`. */
  function ReplaceFirstChar(s: string, c: char, rep: string): string {
    var i := IndexOfChar(s, c);
    if i == |s| then s else s[..i] + rep + s[i + 1..]
  }

  lemma ReplaceFirstCharAt(a: string, c: char, t: string, rep: string)
    requires c !in a
    ensures ReplaceFirstChar(a + [c] + t, c, rep) == a + rep + t
  {
    IndexOfCharAfter(a, c, t);
    var s := a + [c] + t;
    assert s[..|a|] == a && s[|a| + 1..] == t;
  }

  lemma ReplaceFirstCharAbsent(s: string, c: char, rep: string)
    requires c !in s
    ensures ReplaceFirstChar(s, c, rep) == s
  {
    IndexOfCharMissing(s, c);
  }

  /** `expand_tilde`: only a path that starts with `~/` is expanded (not
      `~` alone, not `~user/...`); its tilde becomes the home directory, and
      without a home directory that is an error. */
  function ExpandTilde(path: string, home: Option<string>): (r: Result<string, ConfigError>)
    ensures !StartsWith(path, HomePrefix) ==> r == Ok(path)
    ensures StartsWith(path, HomePrefix) && home.None? ==> r == Err(HomeNotSet)
    ensures StartsWith(path, HomePrefix) && home.Some? ==> r == Ok(home.value + "/" + path[2..])
  {
    if StartsWith(path, HomePrefix) then
      match home
      case None => Err(HomeNotSet)
      case Some(h) =>
        assert path[..2] == HomePrefix;
        assert path[0] == '~' && path[1] == '/';
        assert path == [] + ['~'] + path[1..];
        ReplaceFirstCharAt([], '~', path[1..], h);
        assert path[1..] == "/" + path[2..];
        assert [] + h + path[1..] == h + "/" + path[2..];
        Ok(ReplaceFirstChar(path, '~', h))
    else Ok(path)
  }

  /** With a home directory that does not itself start with a tilde,
      expanding an expanded path changes nothing. */
  lemma ExpandTildeIdempotent(path: string, home: Option<string>)
    requires home.None? || |home.value| == 0 || home.value[0] != '~'
    requires ExpandTilde(path, home).Ok?
    ensures ExpandTilde(ExpandTilde(path, home).value, home) == ExpandTilde(path, home)
  {
  }

  /** Text without the pattern is left alone by `replace`. */
  lemma {:induction false} ReplaceAllAbsent(s: string, p: string, r: string)
    requires |p| > 0
    requires forall i :: !OccursAt(s, p, i)
    ensures ReplaceAll(s, p, r) == s
    decreases |s|
  {
    assert !OccursAt(s, p, 0);
    if |s| > 0 {
      forall i
        ensures !OccursAt(s[1..], p, i)
      {
        if OccursAt(s[1..], p, i) {
          assert s[i + 1..i + 1 + |p|] == s[1..][i..i + |p|];
          assert OccursAt(s, p, i + 1);
        }
      }
      ReplaceAllAbsent(s[1..], p, r);
    }
  }

  /** `log_file_replacements`: every `{DATE}` is replaced by the date, then
      the tilde is expanded. */
  function LogFileReplacements(cfgPath: string, date: string, home: Option<string>): (r: Result<string, ConfigError>)
    ensures r == ExpandTilde(Join(Split(cfgPath, DatePlaceholder), date), home)
  {
    ReplaceAllIsJoinOfSplit(cfgPath, DatePlaceholder, date);
    ExpandTilde(ReplaceAll(cfgPath, DatePlaceholder, date), home)
  }

  /** A path without `{DATE}` is only tilde-expanded. */
  lemma NoDateOnlyExpands(cfgPath: string, date: string, home: Option<string>)
    requires forall i :: !OccursAt(cfgPath, DatePlaceholder, i)
    ensures LogFileReplacements(cfgPath, date, home) == ExpandTilde(cfgPath, home)
  {
    ReplaceAllAbsent(cfgPath, DatePlaceholder, date);
  }

  /** A `~/` log path keeps its tilde through the date replacement, so the
      date lands after the home directory. */
  lemma TildeSurvivesDate(cfgPath: string, date: string, home: string)
    requires StartsWith(cfgPath, HomePrefix)
    ensures LogFileReplacements(cfgPath, date, Some(home))
      == Ok(home + "/" + ReplaceAll(cfgPath[2..], DatePlaceholder, date))
  {
    var rest := cfgPath[2..];
    assert cfgPath[..2] == HomePrefix;
    assert cfgPath[0] == '~' && cfgPath[1] == '/';
    assert DatePlaceholder[0] == '{';
    assert cfgPath == "~/" + rest;
    assert !StartsWith(cfgPath, DatePlaceholder);
    var tail := cfgPath[1..];
    assert tail == "/" + rest && tail[0] == '/';
    assert !StartsWith(tail, DatePlaceholder);
    assert tail[1..] == rest;
    var replaced := ReplaceAll(cfgPath, DatePlaceholder, date);
    assert ReplaceAll(tail, DatePlaceholder, date) == "/" + ReplaceAll(rest, DatePlaceholder, date);
    assert replaced == "~" + ReplaceAll(tail, DatePlaceholder, date);
    assert replaced == "~/" + ReplaceAll(rest, DatePlaceholder, date);
    assert replaced[2..] == ReplaceAll(rest, DatePlaceholder, date);
  }
}
