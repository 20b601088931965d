/** The win rate and the hero pick rate the leaderboard sorts by, compared as
    exact fractions instead of the source's `f64` quotients (for the counts a
    leaderboard sees, the two agree). */
module Rates {
  import opened Sorting

  type Pos = x: int | x > 0 witness 1

  /** `num / den` with a positive denominator, or the `+inf` that Rust's
      float division gives for a positive count over zero. */
  datatype Rate = Fraction(num: int, den: Pos) | PosInfinity

  /** `num as f64 / den as f64`, for the inputs the sections compare: a
      positive denominator (the win-rate filter) or a positive numerator
      (the hero-pick filter). A negative denominator flips both signs. */
  function RateOf(num: int, den: int): (r: Rate)
    ensures den > 0 ==> r == Fraction(num, den)
    ensures den < 0 ==> r == Fraction(-num, -den)
    ensures den == 0 ==> r.PosInfinity?
  {
    if den > 0 then Fraction(num, den)
    else if den < 0 then Fraction(-num, -den)
    else PosInfinity
  }

  /** `a < b`, by cross-multiplication. */
  predicate Less(a: Rate, b: Rate) {
    match a
    case PosInfinity => false
    case Fraction(n1, d1) =>
      match b
      case PosInfinity => true
      case Fraction(n2, d2) => n1 * d2 < n2 * d1
  }

  lemma MulMonotone(a: int, b: int, c: int)
    requires a <= b && c > 0
    ensures a * c <= b * c
  {
  }

  lemma MulCancel(a: int, b: int, c: int)
    requires a * c <= b * c && c > 0
    ensures a <= b
  {
  }

  /** "At most" on fractions is transitive. */
  lemma CrossTransitive(n1: int, d1: int, n2: int, d2: int, n3: int, d3: int)
    requires d1 > 0 && d2 > 0 && d3 > 0
    requires n1 * d2 <= n2 * d1 && n2 * d3 <= n3 * d2
    ensures n1 * d3 <= n3 * d1
  {
    MulMonotone(n1 * d2, n2 * d1, d3);
    MulMonotone(n2 * d3, n3 * d2, d1);
    assert (n1 * d3) * d2 == (n1 * d2) * d3;
    assert (n2 * d1) * d3 == (n2 * d3) * d1;
    assert (n3 * d2) * d1 == (n3 * d1) * d2;
    MulCancel(n1 * d3, n3 * d1, d2);
  }

  /** Two fractions compare as the rationals they denote. */
  lemma LessIsRational(n1: int, d1: Pos, n2: int, d2: Pos)
    ensures Less(Fraction(n1, d1), Fraction(n2, d2)) <==> (n1 as real) / (d1 as real) < (n2 as real) / (d2 as real)
  {
    var x, y := (n1 as real) / (d1 as real), (n2 as real) / (d2 as real);
    assert x * (d1 as real) == n1 as real;
    assert y * (d2 as real) == n2 as real;
    assert (n1 * d2) as real == x * (d1 as real) * (d2 as real);
    assert (n2 * d1) as real == y * (d1 as real) * (d2 as real);
  }

  /** Higher rates first. */
  function RateDesc<T>(rate: T -> Rate): (before: (T, T) -> bool) {
    (a: T, b: T) => Less(rate(b), rate(a))
  }

  lemma RateDescOrder<T(!new)>(rate: T -> Rate)
    ensures StrictWeakOrder(RateDesc(rate))
  {
    var before := RateDesc(rate);
    assert forall a, b :: before(a, b) == Less(rate(b), rate(a));
    forall a, b | before(a, b)
      ensures !before(b, a)
    {
      var ra, rb := rate(a), rate(b);
      if ra.Fraction? && rb.Fraction? {
        assert rb.num * ra.den < ra.num * rb.den;
      }
    }
    forall a, b, c | !before(b, a) && !before(c, b)
      ensures !before(c, a)
    {
      var ra, rb, rc := rate(a), rate(b), rate(c);
      if ra.Fraction? && rb.Fraction? && rc.Fraction? {
        CrossTransitive(rc.num, rc.den, rb.num, rb.den, ra.num, ra.den);
      }
    }
  }
}
