/** Filtering and the stable sort that the leaderboard and the player list use
    (Rust's `iter().filter(..).collect()` and `slice::sort_by`).

    A comparator is given as `before(a, b)`: `a` must come strictly before
    `b` (Rust's `cmp(a, b) == Less`). Rust's `sort_by` is a stable sort, and
    for a comparator that is a strict weak order the stable sort's result is
    the one the insertion sort below produces. */
module Sorting {

  /** The elements of `xs` that satisfy `keep`, in their original order. */
  function Filter<T(!new)>(xs: seq<T>, keep: T -> bool): (r: seq<T>)
    ensures |r| <= |xs|
    ensures forall i :: 0 <= i < |r| ==> keep(r[i])
    ensures forall x :: x in r <==> x in xs && keep(x)
  {
    if |xs| == 0 then []
    else (if keep(xs[0]) then [xs[0]] else []) + Filter(xs[1..], keep)
  }

  lemma {:induction false} FilterAppend<T(!new)>(a: seq<T>, b: seq<T>, keep: T -> bool)
    ensures Filter(a + b, keep) == Filter(a, keep) + Filter(b, keep)
    decreases |a|
  {
    if |a| == 0 {
      assert a + b == b;
    } else {
      assert (a + b)[1..] == a[1..] + b;
      FilterAppend(a[1..], b, keep);
    }
  }

  /** `before` is a strict weak order: asymmetric, and "not after" is transitive. */
  ghost predicate StrictWeakOrder<T(!new)>(before: (T, T) -> bool) {
    && (forall a, b :: before(a, b) ==> !before(b, a))
    && (forall a, b, c :: !before(b, a) && !before(c, b) ==> !before(c, a))
  }

  /** Neither element must come before the other. */
  predicate Ties<T>(before: (T, T) -> bool, a: T, b: T) {
    !before(a, b) && !before(b, a)
  }

  /** No later element must come before an earlier one. */
  ghost predicate SortedBy<T>(before: (T, T) -> bool, s: seq<T>) {
    forall i, j :: 0 <= i < j < |s| ==> !before(s[j], s[i])
  }

  /** The elements of `s` that tie with `k`, in their order in `s`. */
  function TieClass<T>(before: (T, T) -> bool, s: seq<T>, k: T): seq<T> {
    if |s| == 0 then []
    else (if Ties(before, s[0], k) then [s[0]] else []) + TieClass(before, s[1..], k)
  }

  lemma {:induction false} TieClassAppend<T>(before: (T, T) -> bool, a: seq<T>, b: seq<T>, k: T)
    ensures TieClass(before, a + b, k) == TieClass(before, a, k) + TieClass(before, b, k)
    decreases |a|
  {
    if |a| == 0 {
      assert a + b == b;
    } else {
      assert (a + b)[1..] == a[1..] + b;
      TieClassAppend(before, a[1..], b, k);
    }
  }

  /** Inserts `x` in front of the first element it must come before. */
  function Insert<T>(x: T, s: seq<T>, before: (T, T) -> bool): seq<T> {
    if |s| == 0 then [x]
    else if before(x, s[0]) then [x] + s
    else [s[0]] + Insert(x, s[1..], before)
  }

  /** Stable insertion sort: each element, taken left to right, is inserted
      behind every element it does not have to precede. */
  function Sort<T>(xs: seq<T>, before: (T, T) -> bool): seq<T> {
    if |xs| == 0 then []
    else Insert(xs[|xs| - 1], Sort(xs[..|xs| - 1], before), before)
  }

  lemma {:induction false} InsertPermutes<T>(x: T, s: seq<T>, before: (T, T) -> bool)
    ensures multiset(Insert(x, s, before)) == multiset(s) + multiset{x}
    decreases |s|
  {
    if |s| > 0 && !before(x, s[0]) {
      InsertPermutes(x, s[1..], before);
      assert s == [s[0]] + s[1..];
    }
  }

  lemma {:induction false} InsertSorted<T(!new)>(x: T, s: seq<T>, before: (T, T) -> bool)
    requires StrictWeakOrder(before)
    requires SortedBy(before, s)
    ensures SortedBy(before, Insert(x, s, before))
    decreases |s|
  {
    if |s| == 0 {
    } else if before(x, s[0]) {
      var r := [x] + s;
      forall i, j | 0 <= i < j < |r|
        ensures !before(r[j], r[i])
      {
        if i == 0 {
          assert !before(s[j - 1], s[0]) || j - 1 == 0;
        }
      }
    } else {
      var tail := Insert(x, s[1..], before);
      InsertSorted(x, s[1..], before);
      InsertPermutes(x, s[1..], before);
      var r := [s[0]] + tail;
      forall i, j | 0 <= i < j < |r|
        ensures !before(r[j], r[i])
      {
        if i == 0 {
          var y := r[j];
          assert y in multiset(tail);
          assert y == x || y in s[1..];
          if y != x {
            var m :| 0 <= m < |s[1..]| && s[1..][m] == y;
            assert s[m + 1] == y;
          }
        }
      }
    }
  }

  lemma {:induction false} InsertTieClass<T(!new)>(x: T, s: seq<T>, before: (T, T) -> bool, k: T)
    requires StrictWeakOrder(before)
    requires SortedBy(before, s)
    ensures TieClass(before, Insert(x, s, before), k)
         == TieClass(before, s, k) + (if Ties(before, x, k) then [x] else [])
    decreases |s|
  {
    if |s| == 0 {
    } else if before(x, s[0]) {
      if Ties(before, x, k) {
        NoTiesBelow(x, s, before, k);
      }
    } else {
      InsertTieClass(x, s[1..], before, k);
    }
  }

  /** When `x` must precede the head of a sorted `s`, nothing in `s` ties with
      anything that ties with `x`. */
  lemma {:induction false} NoTiesBelow<T(!new)>(x: T, s: seq<T>, before: (T, T) -> bool, k: T)
    requires StrictWeakOrder(before)
    requires SortedBy(before, s)
    requires |s| > 0 && before(x, s[0])
    requires Ties(before, x, k)
    ensures TieClass(before, s, k) == []
    decreases |s|
  {
    assert !Ties(before, s[0], k);
    if |s| > 1 {
      assert before(x, s[1]) by {
        assert !before(s[1], s[0]);
      }
      NoTiesBelow(x, s[1..], before, k);
    }
  }

  /** The sort rearranges its input. */
  lemma {:induction false} SortPermutes<T>(xs: seq<T>, before: (T, T) -> bool)
    ensures multiset(Sort(xs, before)) == multiset(xs)
    decreases |xs|
  {
    if |xs| > 0 {
      SortPermutes(xs[..|xs| - 1], before);
      InsertPermutes(xs[|xs| - 1], Sort(xs[..|xs| - 1], before), before);
      assert xs == xs[..|xs| - 1] + [xs[|xs| - 1]];
    }
  }

  /** The sort's output is ordered. */
  lemma {:induction false} SortSorted<T(!new)>(xs: seq<T>, before: (T, T) -> bool)
    requires StrictWeakOrder(before)
    ensures SortedBy(before, Sort(xs, before))
    decreases |xs|
  {
    if |xs| > 0 {
      SortSorted(xs[..|xs| - 1], before);
      InsertSorted(xs[|xs| - 1], Sort(xs[..|xs| - 1], before), before);
    }
  }

  /** The sort is stable: elements that tie keep their relative order. */
  lemma {:induction false} SortStable<T(!new)>(xs: seq<T>, before: (T, T) -> bool, k: T)
    requires StrictWeakOrder(before)
    ensures TieClass(before, Sort(xs, before), k) == TieClass(before, xs, k)
    decreases |xs|
  {
    if |xs| > 0 {
      var init, last := xs[..|xs| - 1], xs[|xs| - 1];
      SortStable(init, before, k);
      SortSorted(init, before);
      InsertTieClass(last, Sort(init, before), before, k);
      TieClassAppend(before, init, [last], k);
      assert xs == init + [last];
    }
  }

  /** All three properties at once, for a strict weak order. */
  lemma SortSpec<T(!new)>(xs: seq<T>, before: (T, T) -> bool)
    requires StrictWeakOrder(before)
    ensures multiset(Sort(xs, before)) == multiset(xs)
    ensures |Sort(xs, before)| == |xs|
    ensures SortedBy(before, Sort(xs, before))
    ensures forall k :: TieClass(before, Sort(xs, before), k) == TieClass(before, xs, k)
  {
    SortPermutes(xs, before);
    assert |multiset(Sort(xs, before))| == |multiset(xs)|;
    SortSorted(xs, before);
    forall k {
      SortStable(xs, before, k);
    }
  }

  /** The first element of a sorted non-empty sequence: nothing in the input
      must come before it. */
  lemma SortedFirstIsBest<T(!new)>(xs: seq<T>, before: (T, T) -> bool)
    requires StrictWeakOrder(before)
    requires |xs| > 0
    ensures |Sort(xs, before)| == |xs|
    ensures forall x :: x in xs ==> !before(x, Sort(xs, before)[0])
  {
    SortSpec(xs, before);
    var s := Sort(xs, before);
    forall x | x in xs
      ensures !before(x, s[0])
    {
      assert x in multiset(s);
      var j :| 0 <= j < |s| && s[j] == x;
      if j == 0 {
        assert !before(s[0], s[0]);
      }
    }
  }

  /** Filter, then sort: the leaderboard's ranking of the qualifying
      elements. It is empty exactly when nothing qualifies; otherwise its
      head qualifies and nothing that qualifies must come before it. */
  lemma RankingFacts<T(!new)>(xs: seq<T>, keep: T -> bool, before: (T, T) -> bool)
    requires StrictWeakOrder(before)
    ensures var r := Sort(Filter(xs, keep), before);
      && |r| == |Filter(xs, keep)|
      && multiset(r) == multiset(Filter(xs, keep))
      && (|r| == 0 <==> forall i :: 0 <= i < |xs| ==> !keep(xs[i]))
      && (|r| > 0 ==> r[0] in xs && keep(r[0]))
      && (|r| > 0 ==> forall x :: x in xs && keep(x) ==> !before(x, r[0]))
  {
    var f := Filter(xs, keep);
    var r := Sort(f, before);
    SortSpec(f, before);
    if exists i :: 0 <= i < |xs| && keep(xs[i]) {
      var i :| 0 <= i < |xs| && keep(xs[i]);
      assert xs[i] in f;
    }
    if |r| > 0 {
      SortedFirstIsBest(f, before);
      assert r[0] in multiset(f);
    }
  }

  // -------------------------------------------------------------------------
  // Comparators built from keys: Rust's `b.key.cmp(&a.key)` (descending)
  // and `Ordering::then_with`
  // -------------------------------------------------------------------------

  /** Larger keys first. */
  function DescBy<T>(key: T -> int): (before: (T, T) -> bool) {
    (a: T, b: T) => key(a) > key(b)
  }

  /** Order by `first`; where `first` ties, by `second`. */
  function ThenBy<T>(first: (T, T) -> bool, second: (T, T) -> bool): (before: (T, T) -> bool) {
    (a: T, b: T) => first(a, b) || (Ties(first, a, b) && second(a, b))
  }

  lemma DescByOrder<T(!new)>(key: T -> int)
    ensures StrictWeakOrder(DescBy(key))
  {
    var before := DescBy(key);
    assert forall a, b :: before(a, b) == (key(a) > key(b));
  }

  /** Refining one strict weak order by another gives a strict weak order. */
  lemma ThenByOrder<T(!new)>(first: (T, T) -> bool, second: (T, T) -> bool)
    requires StrictWeakOrder(first) && StrictWeakOrder(second)
    ensures StrictWeakOrder(ThenBy(first, second))
  {
    var before := ThenBy(first, second);
    assert forall a, b :: before(a, b) == (first(a, b) || (Ties(first, a, b) && second(a, b)));
    forall a, b, c | !before(b, a) && !before(c, b)
      ensures !before(c, a)
    {
      assert !first(c, a);
      if !first(a, c) {
        assert !second(b, a) && !second(c, b);
      }
    }
  }
}
