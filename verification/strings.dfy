/** String helpers shared by the renderers: padding, concatenation, joining,
    decimal formatting of integers, and Rust's `str::replace` / `str::split`.
    Strings are `seq<char>` and assumed ASCII, so Rust's byte length `len()`
    and the character count used by `{:<w$}` padding coincide. */
module Strings {

  function Max(a: int, b: int): int {
    if a >= b then a else b
  }

  /** `n` space characters. */
  function Spaces(n: nat): (r: string)
    ensures |r| == n
    ensures forall i :: 0 <= i < n ==> r[i] == ' '
  {
    if n == 0 then "" else Spaces(n - 1) + " "
  }

  /** Rust's `format!("{:<width$}", s)`: `s` followed by spaces up to `width`;
      a string already at least `width` long is left as it is. */
  function PadRight(s: string, width: nat): (r: string)
    ensures |r| == Max(|s|, width)
    ensures r[..|s|] == s
    ensures forall i :: |s| <= i < |r| ==> r[i] == ' '
  {
    if |s| >= width then s else s + Spaces(width - |s|)
  }

  /** Rust's `format!("{:>width$}", s)`: spaces up to `width`, then `s`. */
  function PadLeft(s: string, width: nat): (r: string)
    ensures |r| == Max(|s|, width)
    ensures r[|r| - |s|..] == s
    ensures forall i :: 0 <= i < |r| - |s| ==> r[i] == ' '
  {
    if |s| >= width then s else Spaces(width - |s|) + s
  }

  predicate StartsWith(s: string, p: string) {
    |p| <= |s| && s[..|p|] == p
  }

  /** A prefix of a prefix is a prefix, and a common head can be added. */
  lemma StartsWithFacts(s: string, p: string, q: string, h: string, t: string)
    ensures StartsWith(s, p) && StartsWith(p, q) ==> StartsWith(s, q)
    ensures StartsWith(s, p) ==> StartsWith(h + s + t, h + p)
  {
    if StartsWith(s, p) {
      assert (h + s + t)[..|h + p|] == h + s[..|p|];
    }
  }

  /** `p` occurs in `s` starting at position `i`. */
  predicate OccursAt(s: string, p: string, i: int) {
    0 <= i && i + |p| <= |s| && s[i..i + |p|] == p
  }

  /** `p` occurs somewhere inside `s`. */
  ghost predicate Contains(s: string, p: string) {
    exists i :: OccursAt(s, p, i)
  }

  /** The concatenation of all strings of `xs`, in order (Rust's `concat`). */
  function Concat(xs: seq<string>): string {
    if |xs| == 0 then "" else Concat(xs[..|xs| - 1]) + xs[|xs| - 1]
  }

  lemma {:induction false} ConcatAppend(a: seq<string>, b: seq<string>)
    ensures Concat(a + b) == Concat(a) + Concat(b)
    decreases |b|
  {
    if |b| == 0 {
      assert a + b == a;
    } else {
      assert (a + b)[..|a + b| - 1] == a + b[..|b| - 1];
      ConcatAppend(a, b[..|b| - 1]);
    }
  }

  /** Rust's `join(sep)`: the strings of `xs` with `sep` between neighbours. */
  function Join(xs: seq<string>, sep: string): string {
    if |xs| == 0 then ""
    else if |xs| == 1 then xs[0]
    else xs[0] + sep + Join(xs[1..], sep)
  }

  // ---------------------------------------------------------------------
  // Decimal formatting (`to_string()` / `{}` of an integer)
  // ---------------------------------------------------------------------

  predicate IsDigit(c: char) {
    '0' <= c <= '9'
  }

  predicate AllDigits(s: string) {
    forall i :: 0 <= i < |s| ==> IsDigit(s[i])
  }

  function DigitChar(d: nat): (c: char)
    requires d < 10
    ensures IsDigit(c)
    ensures (c as int) - ('0' as int) == d
  {
    (('0' as int) + d) as char
  }

  function DigitValue(c: char): nat
    requires IsDigit(c)
  {
    (c as int) - ('0' as int)
  }

  /** The decimal digits of `n`, most significant first, without leading zeros. */
  function NatToString(n: nat): (r: string)
    ensures |r| >= 1
    ensures AllDigits(r)
    ensures |r| > 1 ==> r[0] != '0'
    ensures n < 10 <==> |r| == 1
  {
    if n < 10 then [DigitChar(n)] else NatToString(n / 10) + [DigitChar(n % 10)]
  }

  /** The value of a string of decimal digits. */
  function ParseDigits(s: string): nat
    requires AllDigits(s)
  {
    if |s| == 0 then 0 else ParseDigits(s[..|s| - 1]) * 10 + DigitValue(s[|s| - 1])
  }

  /** Reading back the digits of `n` gives `n`. */
  lemma {:induction false} ParseNatToString(n: nat)
    ensures ParseDigits(NatToString(n)) == n
    decreases n
  {
    var s := NatToString(n);
    if n >= 10 {
      assert s[..|s| - 1] == NatToString(n / 10);
      ParseNatToString(n / 10);
    }
  }

  /** Rust's `{}` / `to_string()` of a signed integer. */
  function IntToString(i: int): (r: string)
    ensures |r| >= 1
    ensures i < 0 <==> r[0] == '-'
    ensures forall k :: 0 < k < |r| ==> IsDigit(r[k])
  {
    if i < 0 then "-" + NatToString(-i) else NatToString(i)
  }

  /** Distinct integers are printed differently. */
  lemma IntToStringInjective(a: int, b: int)
    requires IntToString(a) == IntToString(b)
    ensures a == b
  {
    if a < 0 {
      assert IntToString(a)[1..] == NatToString(-a);
      assert IntToString(b)[1..] == NatToString(-b);
      ParseNatToString(-a);
      ParseNatToString(-b);
    } else {
      ParseNatToString(a);
      ParseNatToString(b);
    }
  }

  /** The position of the first `c` in `s`, or `|s|` when there is none. */
  function IndexOfChar(s: string, c: char): (i: nat)
    ensures i <= |s|
  {
    if |s| == 0 then 0 else if s[0] == c then 0 else 1 + IndexOfChar(s[1..], c)
  }

  lemma {:induction false} IndexOfCharMissing(s: string, c: char)
    requires c !in s
    ensures IndexOfChar(s, c) == |s|
    decreases |s|
  {
    if |s| > 0 {
      IndexOfCharMissing(s[1..], c);
    }
  }

  lemma {:induction false} IndexOfCharAfter(a: string, c: char, t: string)
    requires c !in a
    ensures IndexOfChar(a + [c] + t, c) == |a|
    decreases |a|
  {
    if |a| > 0 {
      assert (a + [c] + t)[1..] == a[1..] + [c] + t;
      IndexOfCharAfter(a[1..], c, t);
    }
  }

  // ---------------------------------------------------------------------
  // str::replace and str::split (non-overlapping, left to right)
  // ---------------------------------------------------------------------

  /** Rust's `s.replace(p, r)`: every non-overlapping occurrence of `p`,
      scanning from the left, is replaced by `r`. */
  function ReplaceAll(s: string, p: string, r: string): string
    requires |p| > 0
    decreases |s|
  {
    if StartsWith(s, p) then r + ReplaceAll(s[|p|..], p, r)
    else if |s| == 0 then ""
    else [s[0]] + ReplaceAll(s[1..], p, r)
  }

  /** Rust's `s.split(p)`: the pieces between the non-overlapping occurrences
      of `p`, scanning from the left. */
  function Split(s: string, p: string): (parts: seq<string>)
    requires |p| > 0
    ensures |parts| >= 1
    decreases |s|
  {
    if StartsWith(s, p) then [""] + Split(s[|p|..], p)
    else if |s| == 0 then [""]
    else
      var rest := Split(s[1..], p);
      [[s[0]] + rest[0]] + rest[1..]
  }

  /** A join starts with its first piece. */
  lemma JoinHead(xs: seq<string>, sep: string)
    requires |xs| >= 1
    ensures StartsWith(Join(xs, sep), xs[0])
  {
    if |xs| > 1 {
      assert Join(xs, sep)[..|xs[0]|] == xs[0];
    }
  }

  lemma JoinCons(x: string, xs: seq<string>, sep: string)
    requires |xs| >= 1
    ensures Join([x] + xs, sep) == x + sep + Join(xs, sep)
  {
    assert ([x] + xs)[1..] == xs;
  }

  lemma {:induction false} JoinPushFront(c: char, xs: seq<string>, sep: string)
    requires |xs| >= 1
    ensures Join([[c] + xs[0]] + xs[1..], sep) == [c] + Join(xs, sep)
  {
    var ys := [[c] + xs[0]] + xs[1..];
    if |xs| > 1 {
      assert ys[1..] == xs[1..];
    }
  }

  /** Replacing is splitting on the pattern and joining with the replacement. */
  lemma {:induction false} ReplaceAllIsJoinOfSplit(s: string, p: string, r: string)
    requires |p| > 0
    ensures ReplaceAll(s, p, r) == Join(Split(s, p), r)
    decreases |s|
  {
    if StartsWith(s, p) {
      ReplaceAllIsJoinOfSplit(s[|p|..], p, r);
      JoinCons("", Split(s[|p|..], p), r);
    } else if |s| == 0 {
    } else {
      ReplaceAllIsJoinOfSplit(s[1..], p, r);
      JoinPushFront(s[0], Split(s[1..], p), r);
    }
  }

  lemma {:induction false} ReplaceAllBySelf(s: string, p: string)
    requires |p| > 0
    ensures ReplaceAll(s, p, p) == s
    decreases |s|
  {
    if StartsWith(s, p) {
      ReplaceAllBySelf(s[|p|..], p);
      assert s == s[..|p|] + s[|p|..];
    } else if |s| == 0 {
    } else {
      ReplaceAllBySelf(s[1..], p);
      assert s == [s[0]] + s[1..];
    }
  }

  /** Joining the pieces back with the pattern restores the string. */
  lemma JoinSplit(s: string, p: string)
    requires |p| > 0
    ensures Join(Split(s, p), p) == s
  {
    ReplaceAllIsJoinOfSplit(s, p, p);
    ReplaceAllBySelf(s, p);
  }

  lemma {:induction false} SplitFirstIsPrefix(s: string, p: string)
    requires |p| > 0
    ensures |Split(s, p)[0]| <= |s|
    ensures s[..|Split(s, p)[0]|] == Split(s, p)[0]
    decreases |s|
  {
    if StartsWith(s, p) {
    } else if |s| == 0 {
    } else {
      SplitFirstIsPrefix(s[1..], p);
    }
  }

  /** No piece of a split contains the pattern. */
  lemma {:induction false} SplitPartsAvoidPattern(s: string, p: string)
    requires |p| > 0
    ensures forall k :: 0 <= k < |Split(s, p)| ==> !Contains(Split(s, p)[k], p)
    decreases |s|
  {
    var parts := Split(s, p);
    if StartsWith(s, p) {
      SplitPartsAvoidPattern(s[|p|..], p);
      forall k | 0 <= k < |parts|
        ensures !Contains(parts[k], p)
      {
        if k > 0 {
          assert parts[k] == Split(s[|p|..], p)[k - 1];
        }
      }
    } else if |s| == 0 {
    } else {
      var rest := Split(s[1..], p);
      SplitPartsAvoidPattern(s[1..], p);
      SplitFirstIsPrefix(s[1..], p);
      var first := [s[0]] + rest[0];
      assert first == s[..|first|];
      forall i
        ensures !OccursAt(first, p, i)
      {
        if 0 <= i && i + |p| <= |first| {
          if i == 0 {
            assert first[..|p|] == s[..|p|];
          } else {
            assert first[i..i + |p|] == rest[0][i - 1..i - 1 + |p|];
            assert !OccursAt(rest[0], p, i - 1);
          }
        }
      }
      forall k | 0 <= k < |parts|
        ensures !Contains(parts[k], p)
      {
        if k > 0 {
          assert parts[k] == rest[k];
        }
      }
    }
  }

  lemma {:induction false} SplitNoSeparator(x: string, c: char)
    requires c !in x
    ensures Split(x, [c]) == [x]
    decreases |x|
  {
    if |x| > 0 {
      SplitNoSeparator(x[1..], c);
      assert [x[0]] + x[1..] == x;
    }
  }

  lemma {:induction false} SplitAtSeparator(x: string, c: char, t: string)
    requires c !in x
    ensures Split(x + [c] + t, [c]) == [x] + Split(t, [c])
    decreases |x|
  {
    var s := x + [c] + t;
    if |x| == 0 {
      assert s == [c] + t;
      assert StartsWith(s, [c]);
      assert s[1..] == t;
    } else {
      assert s[0] == x[0];
      assert !StartsWith(s, [c]);
      assert s[1..] == x[1..] + [c] + t;
      SplitAtSeparator(x[1..], c, t);
      assert [x[0]] + x[1..] == x;
    }
  }

  /** Splitting on a one-character separator undoes joining with it, as long
      as no piece contains the separator. */
  lemma {:induction false} SplitJoinChar(xs: seq<string>, c: char)
    requires |xs| >= 1
    requires forall k :: 0 <= k < |xs| ==> c !in xs[k]
    ensures Split(Join(xs, [c]), [c]) == xs
    decreases |xs|
  {
    if |xs| == 1 {
      SplitNoSeparator(xs[0], c);
    } else {
      SplitJoinChar(xs[1..], c);
      SplitAtSeparator(xs[0], c, Join(xs[1..], [c]));
      assert [xs[0]] + xs[1..] == xs;
    }
  }
}
