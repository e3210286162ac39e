/** Quotients of whole numbers, and how far rounding to a 64-bit float moves them. */
module Rounding {
  import opened Prelude
  import opened Division

  const TWO_TO_THE_53: nat := 0x20_0000_0000_0000

  predicate KeepsWhole(round: real -> real, n: nat) {
    round(n as real) == n as real
  }

  /** What rounding to a 64-bit float keeps: whole numbers it has digits for, and
      any number to within one part in 2^53, none being too small for that. */
  ghost predicate Rounds(round: real -> real) {
    && (forall n: nat :: n <= TWO_TO_THE_53 ==> KeepsWhole(round, n))
    && (forall x: real :: x * TWO_TO_THE_32 as real >= 1.0 ==>
          -x <= (round(x) - x) * TWO_TO_THE_53 as real <= x)
  }

  // ---------------------------------------------------------------------------
  // Products

  lemma TimesLess(x: real, y: real, w: real)
    requires x < y && w > 0.0
    ensures x * w < y * w
  {
  }

  lemma TimesMore(a: nat, b: nat, c: nat)
    requires a <= b
    ensures a * c <= b * c && c * a <= c * b
  {
  }

  lemma TimesAtMost(x: real, a: real, b: real)
    requires x >= 0.0 && a <= b
    ensures x * a <= x * b
  {
  }

  lemma Regroup(x: real, p: real, q: real)
    ensures x * (p * q) == (x * p) * q && x * (p * q) == x * (q * p)
  {
  }

  lemma Spread(y: real, x: real, k: real)
    ensures (y - x) * k == y * k - x * k
  {
  }

  lemma WholeProduct(a: nat, b: nat)
    ensures (a * b) as real == a as real * b as real
  {
  }

  // ---------------------------------------------------------------------------
  // Quotients

  lemma Quotient(a: nat, w: nat)
    requires w > 0
    ensures a as real / w as real * w as real == a as real
  {
  }

  lemma Compared(x: real, q: real, w: real)
    requires w > 0.0
    ensures (x < q <==> x * w < q * w) && (x == q <==> x * w == q * w)
  {
    if x < q {
      TimesLess(x, q, w);
    } else if q < x {
      TimesLess(q, x, w);
    }
  }

  lemma CrossMultiplied(a: nat, b: nat, w: nat)
    requires w > 0
    ensures a as real / 1.0 < b as real / w as real <==> a * w < b
    ensures a as real / 1.0 == b as real / w as real <==> a * w == b
  {
    Quotient(b, w);
    Compared(a as real, b as real / w as real, w as real);
    WholeProduct(a, w);
  }

  lemma NotTooSmall(x: real, a: nat, w: nat)
    requires a > 0 && 0 < w <= TWO_TO_THE_32 && x * w as real == a as real
    ensures x > 0.0 && x * TWO_TO_THE_32 as real >= 1.0
  {
    if x <= 0.0 {
      TimesAtMost(w as real, x, 0.0);
    }
    TimesAtMost(x, w as real, TWO_TO_THE_32 as real);
  }

  lemma AtMostItself(x: real, a: nat, w: nat)
    requires x > 0.0 && w > 0 && x * w as real == a as real
    ensures x <= a as real
  {
    TimesAtMost(x, 1.0, w as real);
  }

  lemma TimesBoth(x: real, a: nat, w: nat, v: nat)
    requires x * w as real == a as real
    ensures x * (w * v) as real == (a * v) as real
  {
    WholeProduct(w, v);
    WholeProduct(a, v);
    Regroup(x, w as real, v as real);
  }

  lemma WholeApart(m: nat, n: nat)
    requires (m as real) < n as real
    ensures n as real - m as real >= 1.0
  {
    assert m + 1 <= n;
    assert (m + 1) as real <= n as real;
  }

  lemma WholeGap(x: real, m: nat, y: real, n: nat, k: real)
    requires k > 0.0 && x < y && x * k == m as real && y * k == n as real
    ensures (y - x) * k >= 1.0
  {
    TimesLess(x, y, k);
    Spread(y, x, k);
    WholeApart(m, n);
  }

  /** Two different quotients differ by one part in the product of what they are
      divided by, at least. */
  lemma GapOfQuotients(x: real, a: nat, w: nat, y: real, b: nat, v: nat)
    requires w > 0 && v > 0 && x * w as real == a as real && y * v as real == b as real && x < y
    ensures (y - x) * (w * v) as real >= 1.0
  {
    TimesBoth(x, a, w, v);
    TimesBoth(y, b, v, w);
    assert w * v == v * w > 0;
    WholeGap(x, a * v, y, b * w, (w * v) as real);
  }

  // ---------------------------------------------------------------------------
  // Rounding them

  lemma MostFits(bound: nat, most: nat)
    requires bound > 0 && most > 0 && 2 * (bound * bound) * most <= TWO_TO_THE_53
    ensures most <= TWO_TO_THE_53 && bound <= TWO_TO_THE_32
  {
    AtLeastOnce(most, 2 * (bound * bound));
    AtLeastOnce(2 * (bound * bound), most);
    if bound > TWO_TO_THE_32 {
      TimesMore(TWO_TO_THE_32, bound, bound);
      TimesMore(TWO_TO_THE_32, bound, TWO_TO_THE_32);
    }
  }

  lemma SquareTwice(square: nat, most: nat)
    requires 2 * square * most <= TWO_TO_THE_53
    ensures square as real * (2 * most) as real <= TWO_TO_THE_53 as real
  {
    assert square * (2 * most) == 2 * square * most;
    WholeProduct(square, 2 * most);
  }

  lemma PartOfSquare(w: nat, v: nat, bound: nat)
    requires w <= bound && v <= bound
    ensures w * v <= bound * bound
  {
    TimesMore(w, bound, v);
    TimesMore(v, bound, bound);
  }

  /** A gap so wide that rounding both ends does not close it. */
  lemma FarApart(gap: real, part: real, square: real, twice: real, k: real)
    requires gap > 0.0 && twice >= 0.0 && gap * part >= 1.0 && part <= square && square * twice <= k
    ensures gap * k >= twice
  {
    TimesAtMost(gap, part, square);
    TimesAtMost(twice, 1.0, gap * square);
    Regroup(gap, square, twice);
    TimesAtMost(gap, square * twice, k);
  }

  lemma StillLess(round: real -> real, x: real, y: real)
    requires Rounds(round) && x * TWO_TO_THE_32 as real >= 1.0 && y * TWO_TO_THE_32 as real >= 1.0
    requires (y - x) * TWO_TO_THE_53 as real > x + y
    ensures round(x) < round(y)
  {
    assert (round(x) - x) * TWO_TO_THE_53 as real <= x;
    assert (round(y) - y) * TWO_TO_THE_53 as real >= -y;
  }

  lemma RoundedApart(round: real -> real, x: real, a: nat, w: nat, y: real, b: nat, v: nat, bound: nat, most: nat)
    requires Rounds(round) && 0 < w <= bound && 0 < v <= bound && 0 < a <= most && 0 < b <= most
    requires 2 * (bound * bound) * most <= TWO_TO_THE_53
    requires x * w as real == a as real && y * v as real == b as real && x < y
    ensures round(x) < round(y)
  {
    MostFits(bound, most);
    NotTooSmall(x, a, w);
    NotTooSmall(y, b, v);
    GapOfQuotients(x, a, w, y, b, v);
    PartOfSquare(w, v, bound);
    SquareTwice(bound * bound, most);
    FarApart(y - x, (w * v) as real, (bound * bound) as real, (2 * most) as real, TWO_TO_THE_53 as real);
    AtMostItself(y, b, v);
    StillLess(round, x, y);
  }

  lemma QuotientsApart(round: real -> real, a: nat, w: nat, b: nat, v: nat, bound: nat, most: nat)
    requires Rounds(round) && 0 < w <= bound && 0 < v <= bound && 0 < a <= most && 0 < b <= most
    requires 2 * (bound * bound) * most <= TWO_TO_THE_53 && a as real / w as real < b as real / v as real
    ensures round(a as real / w as real) < round(b as real / v as real)
  {
    Quotient(a, w);
    Quotient(b, v);
    RoundedApart(round, a as real / w as real, a, w, b as real / v as real, b, v, bound, most);
  }
}
