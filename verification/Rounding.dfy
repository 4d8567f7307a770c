/** Fixed-precision decimal rounding against exact integer rounding. */
module Rounding {
  import opened Ordering

  function Pow10(k: nat): (r: nat)
    ensures r >= 1
  {
    if k == 0 then 1 else 10 * Pow10(k - 1)
  }

  /** The number of decimal digits: `len(str(n))`. */
  function Digits(n: nat): (k: nat)
    ensures k >= 1
  {
    if n < 10 then 1 else 1 + Digits(n / 10)
  }

  /** Exact rounding to the nearest integer, halves upward. */
  function RoundHalfUp(n: nat, d: nat): nat
    requires d > 0
  {
    (2 * n + d) / (2 * d)
  }

  // ----- Decimal arithmetic at a fixed precision -----

  /** Nearest integer to n/d, ties to even: the rounding of Decimal division. */
  function RoundHalfEven(n: nat, d: nat): nat
    requires d > 0
  {
    var q, r := n / d, n % d;
    if 2 * r < d || (2 * r == d && q % 2 == 0) then q else q + 1
  }

  /** How many fractional digits give the quotient `precision` significant digits. */
  function Scale(n: nat, d: nat, precision: nat): nat
    requires n > 0 && d > 0 && precision > 0
    decreases Pow10(precision - 1) * d - n
  {
    if n >= Pow10(precision - 1) * d then 0 else 1 + Scale(10 * n, d, precision)
  }

  /** n/d as a Decimal of `precision` significant digits, `coefficient / 10^scale`,
      for quotients with at least one fractional digit. */
  datatype Decimal = Decimal(coefficient: nat, scale: nat)

  function Divide(n: nat, d: nat, precision: nat): Decimal
    requires d > 0 && precision > 0
  {
    if n == 0 then Decimal(0, 0)
    else
      var k := Scale(n, d, precision);
      Decimal(RoundHalfEven(n * Pow10(k), d), k)
  }

  /** `int(value.quantize(Decimal("1"), rounding=ROUND_HALF_UP))` */
  function Quantize(x: Decimal): nat {
    RoundHalfUp(x.coefficient, Pow10(x.scale))
  }

  /** The scoring engine's rounding: divide at sixteen digits more than either operand, then quantize. */
  function RoundHalfUpFraction(n: nat, d: nat): nat
    requires d > 0
  {
    Quantize(Divide(n, d, Max(Digits(n), Digits(d)) + 16))
  }

  const CONTEXT_PRECISION: nat := 28

  /** An integer held to `precision` significant digits. */
  function RoundSignificant(v: nat, precision: nat): nat {
    if Digits(v) <= precision then v
    else
      var unit := Pow10(Digits(v) - precision);
      RoundHalfEven(v, unit) * unit
  }

  /** The benchmark's score, in the default 28-digit context. */
  function BenchScore(n: nat, d: nat): nat
    requires d > 0
  {
    Quantize(Divide(RoundSignificant(10000 * n, CONTEXT_PRECISION), d, CONTEXT_PRECISION))
  }

  // ----- Why the second rounding is harmless -----

  lemma {:induction false} DigitsBound(n: nat)
    ensures n < Pow10(Digits(n))
    ensures n > 0 ==> Pow10(Digits(n) - 1) <= n
    decreases n
  {
    if n >= 10 { DigitsBound(n / 10); }
  }

  lemma {:induction false} Pow10Monotone(a: nat, b: nat)
    requires a <= b
    ensures Pow10(a) <= Pow10(b)
    decreases b - a
  {
    if a < b { Pow10Monotone(a, b - 1); }
  }

  lemma {:induction false} Pow10Sum(a: nat, b: nat)
    ensures Pow10(a + b) == Pow10(a) * Pow10(b)
    decreases b
  {
    if b > 0 {
      Pow10Sum(a, b - 1);
      TenOut(Pow10(a), Pow10(b - 1));
    }
  }

  lemma TenOut(x: int, y: int)
    ensures x * (10 * y) == 10 * (x * y)
  {
  }

  lemma {:induction false} ScaleReaches(n: nat, d: nat, precision: nat)
    requires n > 0 && d > 0 && precision > 0
    ensures n * Pow10(Scale(n, d, precision)) >= Pow10(precision - 1) * d
    ensures n < Pow10(precision - 1) * d ==> Scale(n, d, precision) >= 1
    decreases Pow10(precision - 1) * d - n
  {
    if n < Pow10(precision - 1) * d {
      ScaleReaches(10 * n, d, precision);
      var k := Scale(10 * n, d, precision);
      assert 10 * n * Pow10(k) == n * Pow10(k + 1);
    }
  }

  /** `c` is an integer nearest to n/d. */
  predicate Nearest(n: int, d: int, c: int) { -d <= 2 * (c * d - n) <= d }

  lemma HalfEvenIsNearest(n: nat, d: nat)
    requires d > 0
    ensures Nearest(n, d, RoundHalfEven(n, d))
  {
    var q, r := n / d, n % d;
    assert n == q * d + r;
    assert (q + 1) * d == q * d + d;
  }

  lemma HalfUpBounds(n: nat, d: nat)
    requires d > 0
    ensures var h := RoundHalfUp(n, d); (2 * h - 1) * d <= 2 * n < (2 * h + 1) * d
  {
    var h := RoundHalfUp(n, d);
    var r := (2 * n + d) % (2 * d);
    assert 2 * n + d == (2 * d) * h + r;
    assert (2 * d) * h == 2 * h * d;
    assert (2 * h - 1) * d == 2 * h * d - d && (2 * h + 1) * d == 2 * h * d + d;
  }

  lemma HalfUpUnique(n: nat, d: nat, h: int)
    requires d > 0 && (2 * h - 1) * d <= 2 * n < (2 * h + 1) * d
    ensures RoundHalfUp(n, d) == h
  {
    var g := RoundHalfUp(n, d);
    HalfUpBounds(n, d);
    if g < h {
      assert (2 * g + 1) * d <= (2 * h - 1) * d by { MulMonotone(2 * g + 1, 2 * h - 1, d); }
    }
    if h < g {
      assert (2 * h + 1) * d <= (2 * g - 1) * d by { MulMonotone(2 * h + 1, 2 * g - 1, d); }
    }
  }

  lemma MulMonotone(a: int, b: int, c: int)
    requires a <= b && c >= 0
    ensures a * c <= b * c
  {
  }

  lemma Regroup(a: int, b: int, c: int)
    ensures a * b * c == a * c * b == a * (b * c) == b * (a * c)
  {
  }

  /** A boundary below n/d lies on an even grid, so rounding to the grid cannot cross it. */
  lemma LowerBoundaryKept(n: nat, d: nat, grid: nat, c: nat, u: int)
    requires d > 0 && grid % 2 == 0 && Nearest(n * grid, d, c)
    requires u * d <= 2 * n
    ensures u * grid <= 2 * c
  {
    var half := grid / 2;
    var ug := u * grid;
    Regroup(u, 2, half);
    assert ug == 2 * (u * half);
    MulMonotone(u * d, 2 * n, grid);
    Regroup(u, d, grid);
    Regroup(2, n, grid);
    NearestStaysAbove(n * grid, d, c, ug);
  }

  lemma NearestStaysAbove(scaled: int, d: nat, c: nat, boundary: int)
    requires d > 0 && Nearest(scaled, d, c) && boundary * d <= 2 * scaled
    ensures 2 * c > boundary - 2
  {
    Distribute(d, boundary, -2);
    Regroup(2, c, d);
    if 2 * c <= boundary - 2 { MulMonotone(2 * c, boundary - 2, d); }
  }

  lemma Distribute(a: int, b: int, c: int)
    ensures a * (b + c) == a * b + a * c
  {
  }

  /** n/d stays at least 1/(2d) below a boundary above it, and rounding to a finer grid moves it by less. */
  lemma UpperBoundaryKept(n: nat, d: nat, grid: nat, c: nat, u: int)
    requires d > 0 && grid > d && Nearest(n * grid, d, c)
    requires 2 * n < u * d
    ensures 2 * c < u * grid
  {
    MulMonotone(2 * n + 1, u * d, grid);
    Regroup(u, d, grid);
    assert 2 * c * d == 2 * (c * d);
    assert (2 * n + 1) * grid == 2 * (n * grid) + grid;
    if 2 * c >= u * grid { MulMonotone(u * grid, 2 * c, d); }
  }

  /** Rounding a nearest approximation on an even grid finer than 1/d gives the exact rounding. */
  lemma DoubleRounding(n: nat, d: nat, grid: nat, c: nat)
    requires d > 0 && grid > d && grid % 2 == 0 && Nearest(n * grid, d, c)
    ensures RoundHalfUp(c, grid) == RoundHalfUp(n, d)
  {
    hide RoundHalfUp, Nearest;
    var h: int := RoundHalfUp(n, d);
    HalfUpBounds(n, d);
    LowerBoundaryKept(n, d, grid, c, 2 * h - 1);
    UpperBoundaryKept(n, d, grid, c, 2 * h + 1);
    HalfUpUnique(c, grid, h);
  }

  /** Dividing at a precision whose leading place exceeds the numerator, then quantizing, is exact. */
  lemma DivideThenQuantize(n: nat, d: nat, precision: nat)
    requires d > 0 && precision > 0 && n < Pow10(precision - 1)
    ensures Quantize(Divide(n, d, precision)) == RoundHalfUp(n, d)
  {
    if n == 0 {
      HalfUpUnique(0, d, 0);
      HalfUpUnique(0, 1, 0);
    } else {
      var k := Scale(n, d, precision);
      var grid := Pow10(k);
      ScaleReaches(n, d, precision);
      assert n < Pow10(precision - 1) * d by { MulMonotone(1, d, Pow10(precision - 1)); }
      MulMonotone(n + 1, Pow10(precision - 1), d);
      assert (n + 1) * d == n * d + d;
      assert grid > d by { if grid <= d { MulMonotone(grid, d, n); } }
      assert grid % 2 == 0 by { assert grid == 10 * Pow10(k - 1); }
      HalfEvenIsNearest(n * grid, d);
      DoubleRounding(n, d, grid, RoundHalfEven(n * grid, d));
    }
  }

  /** The engine's decimal rounding is exact half-up rounding for every fraction. */
  lemma RoundHalfUpFractionIsExact(n: nat, d: nat)
    requires d > 0
    ensures RoundHalfUpFraction(n, d) == RoundHalfUp(n, d)
  {
    var precision := Max(Digits(n), Digits(d)) + 16;
    DigitsBound(n);
    Pow10Monotone(Digits(n), precision - 1);
    DivideThenQuantize(n, d, precision);
  }

  lemma HalfUpAtMost(n: nat, d: nat)
    requires d > 0
    ensures RoundHalfUp(n, d) <= n
  {
    hide RoundHalfUp;
    var h := RoundHalfUp(n, d);
    HalfUpBounds(n, d);
    MulMonotone(1, d, 2 * n);
    assert (2 * n + 1) * d == 2 * n * d + d;
    assert d * (2 * n) == 2 * n * d;
    if h > n { MulMonotone(2 * n + 1, 2 * h - 1, d); }
  }

  /** The result never needs more digits than the context holds, so quantize cannot refuse. */
  lemma QuantizeFits(n: nat, d: nat)
    requires d > 0
    ensures RoundHalfUpFraction(n, d) < Pow10(Max(Digits(n), Digits(d)) + 16)
  {
    hide RoundHalfUpFraction, RoundHalfUp, Digits, Max;
    RoundHalfUpFractionIsExact(n, d);
    var h := RoundHalfUp(n, d);
    assert h <= n by { HalfUpAtMost(n, d); }
    DigitsBound(n);
    assert Digits(n) <= Max(Digits(n), Digits(d)) by { MaxAtLeast(Digits(n), Digits(d)); }
    Pow10Monotone(Digits(n), Max(Digits(n), Digits(d)) + 16);
  }

  lemma MaxAtLeast(a: nat, b: nat)
    ensures a <= Max(a, b) && b <= Max(a, b)
  {
  }

  // ----- The benchmark score -----

  lemma Pow10Values()
    ensures Pow10(4) == 10000
    ensures Pow10(23) == 100_000_000_000_000_000_000_000
    ensures Pow10(27) == 1_000_000_000_000_000_000_000_000_000
    ensures Pow10(28) == 10_000_000_000_000_000_000_000_000_000
  {
    assert Pow10(1) == 10 && Pow10(2) == 100 && Pow10(3) == 1000;
    Pow10Sum(4, 4);
    Pow10Sum(8, 8);
    Pow10Sum(16, 4);
    Pow10Sum(20, 3);
    Pow10Sum(23, 4);
    Pow10Sum(27, 1);
  }

  lemma DigitsAtMost(n: nat, k: nat)
    requires k >= 1 && n < Pow10(k)
    ensures Digits(n) <= k
  {
    DigitsBound(n);
    if Digits(n) > k {
      Pow10Monotone(k, Digits(n) - 1);
    }
  }

  /** A simple bound under which it always is: n below 10^23, whatever d. */
  lemma BenchScoreIsExact(n: nat, d: nat)
    requires d > 0 && n < Pow10(23)
    ensures BenchScore(n, d) == RoundHalfUp(10000 * n, d)
  {
    Pow10Values();
    assert 10000 * n < Pow10(27);
    DigitsAtMost(10000 * n, 28);
    DivideThenQuantize(10000 * n, d, CONTEXT_PRECISION);
  }

  /** Half-even rounding reaches an even integer from half a step below it. */
  lemma ReachesEven(n: nat, d: nat, t: int)
    requires d > 0 && t % 2 == 0
    ensures RoundHalfEven(n, d) >= t <==> 2 * n + d >= 2 * (t * d)
  {
    var q, r := n / d, n % d;
    assert n == q * d + r;
    assert (t - 1) * d == t * d - d && (t - 2) * d == t * d - 2 * d;
    if q >= t { MulMonotone(t, q, d); }
    if q <= t - 2 { MulMonotone(q, t - 2, d); }
  }

  /** A twice-rounded quotient reaches `h` from half a unit of its last place below the boundary. */
  lemma QuotientReaches(m: nat, d: nat, precision: nat, h: int)
    requires m > 0 && d > 0 && precision > 0 && Scale(m, d, precision) >= 2
    ensures var grid := Pow10(Scale(m, d, precision));
            Quantize(Divide(m, d, precision)) >= h <==> 2 * (m * grid) + d >= (2 * h - 1) * grid * d
  {
    hide RoundHalfUp, RoundHalfEven;
    var k := Scale(m, d, precision);
    var grid := Pow10(k);
    var c := RoundHalfEven(m * grid, d);
    var half := 5 * (10 * Pow10(k - 2));
    assert grid == 10 * Pow10(k - 1) && Pow10(k - 1) == 10 * Pow10(k - 2);
    var t := (2 * h - 1) * half;
    assert t % 2 == 0 by { EvenProduct(2 * h - 1, 25 * Pow10(k - 2)); }
    ReachesEven(m * grid, d, t);
    assert (2 * h - 1) * grid == 2 * t by { Regroup(2 * h - 1, 2, half); }
    Regroup(2, t, d);
    HalfUpReaches(c, grid, h);
  }

  lemma EvenProduct(a: int, b: int)
    ensures a * (2 * b) % 2 == 0
  {
    Regroup(a, 2, b);
  }

  lemma HalfUpReaches(n: nat, d: nat, h: int)
    requires d > 0
    ensures RoundHalfUp(n, d) >= h <==> 2 * n >= (2 * h - 1) * d
  {
    hide RoundHalfUp;
    HalfUpBounds(n, d);
    var g: int := RoundHalfUp(n, d);
    if g >= h { MulMonotone(2 * h - 1, 2 * g - 1, d); } else { MulMonotone(2 * g + 1, 2 * h - 1, d); }
  }

  /** Holding an integer to some digits at most doubles it. */
  lemma SignificantAtMost(v: nat, precision: nat)
    requires precision >= 1
    ensures RoundSignificant(v, precision) <= 2 * v
    ensures v > 0 ==> RoundSignificant(v, precision) > 0
  {
    hide RoundHalfEven, Digits;
    if Digits(v) > precision {
      var unit := Pow10(Digits(v) - precision);
      DigitsBound(v);
      Pow10Monotone(Digits(v) - precision, Digits(v) - 1);
      HalfEvenIsNearest(v, unit);
      if RoundHalfEven(v, unit) == 0 { assert Nearest(v, unit, 0); }
      MulPositive(RoundHalfEven(v, unit), unit);
    }
  }

  lemma MulPositive(a: int, b: int)
    requires b > 0
    ensures a > 0 ==> a * b > 0
  {
  }

  /** The numerator the division sees. */
  function Product(n: nat): nat { RoundSignificant(10000 * n, CONTEXT_PRECISION) }

  lemma RoundsExactly(c: nat, unit: nat)
    requires unit > 0
    ensures RoundHalfEven(c * unit, unit) == c
  {
    hide RoundHalfEven;
    NearestIsUnique(c * unit, unit, c);
  }

  /** Trailing zeros cost no digits. */
  lemma MultipleKept(n: nat, extra: nat, precision: nat)
    requires Digits(n * Pow10(extra)) <= precision + extra
    ensures RoundSignificant(n * Pow10(extra), precision) == n * Pow10(extra)
  {
    hide RoundHalfEven, Digits, Pow10;
    var v := n * Pow10(extra);
    if Digits(v) > precision {
      var j := Digits(v) - precision;
      Pow10Sum(j, extra - j);
      Regroup(n, Pow10(j), Pow10(extra - j));
      RoundsExactly(n * Pow10(extra - j), Pow10(j));
    }
  }

  /** Rounding the product to 28 digits loses nothing below 10^28, since it ends in four zeros. */
  lemma ProductIsExact(n: nat)
    requires n < Pow10(28)
    ensures Product(n) == 10000 * n
  {
    hide RoundSignificant, Digits;
    Pow10Values();
    Pow10Sum(28, 4);
    DigitsAtMost(n * Pow10(4), 32);
    MultipleKept(n, 4, CONTEXT_PRECISION);
  }

  lemma TimesSmall(m: nat, k: nat)
    requires k < 2
    ensures m * Pow10(k) <= 10 * m
  {
    assert Pow10(1) == 10 * Pow10(0) && Pow10(0) == 1;
  }

  /** A score between nought and one leaves at least two fractional digits. */
  lemma ScoreScale(n: nat, d: nat)
    requires 0 < n <= d
    ensures Product(n) > 0 && Scale(Product(n), d, CONTEXT_PRECISION) >= 2
  {
    hide RoundSignificant, Scale;
    SignificantAtMost(10000 * n, CONTEXT_PRECISION);
    var m := Product(n);
    var k := Scale(m, d, CONTEXT_PRECISION);
    ScaleReaches(m, d, CONTEXT_PRECISION);
    Pow10Values();
    if k < 2 { TimesSmall(m, k); }
  }

  /** What the 28-digit score is, exactly: it reaches `h` when the product is
      within half a unit in the last place of the quotient of the boundary. */
  lemma BenchScoreReaches(n: nat, d: nat, h: int)
    requires 0 < n <= d
    ensures Product(n) > 0
    ensures var grid := Pow10(Scale(Product(n), d, CONTEXT_PRECISION));
            BenchScore(n, d) >= h <==> 2 * (Product(n) * grid) + d >= (2 * h - 1) * grid * d
  {
    hide RoundSignificant, Scale, Quantize, Divide;
    ScoreScale(n, d);
    QuotientReaches(Product(n), d, CONTEXT_PRECISION, h);
  }

  /** The exact condition, for every record: the score is the exact rounding
      if and only if both its boundaries survive the two roundings before it. */
  lemma BenchScoreExactly(n: nat, d: nat)
    requires 0 < n <= d
    ensures Product(n) > 0
    ensures var grid, h := Pow10(Scale(Product(n), d, CONTEXT_PRECISION)), RoundHalfUp(10000 * n, d);
            BenchScore(n, d) == h <==> (2 * h - 1) * grid * d <= 2 * (Product(n) * grid) + d < (2 * h + 1) * grid * d
  {
    hide Product, Scale, BenchScore, RoundHalfUp;
    var h := RoundHalfUp(10000 * n, d);
    BenchScoreReaches(n, d, h);
    BenchScoreReaches(n, d, h + 1);
  }

  lemma OneSided(m: int, d: int, grid: int, u: int)
    requires d > 0 && grid > 0 && u * d <= 2 * m
    ensures u * grid * d <= 2 * (m * grid) + d < (u + 2) * grid * d <==> ((u + 2) * d - 2 * m) * grid > d
  {
    MulMonotone(u * d, 2 * m, grid);
    Regroup(u, d, grid);
    Regroup(u + 2, d, grid);
    Regroup(2, m, grid);
    Spread((u + 2) * d, 2 * m, grid);
  }

  /** Below 10^28 only the upper boundary can be crossed: the score is exact if
      and only if the fraction stays clear of it by half a unit in the last place. */
  lemma BenchScoreRoundsUpExactly(n: nat, d: nat)
    requires 0 < n <= d && n < Pow10(28)
    ensures var grid, h := Pow10(Scale(10000 * n, d, CONTEXT_PRECISION)), RoundHalfUp(10000 * n, d);
            BenchScore(n, d) == h <==> ((2 * h + 1) * d - 20000 * n) * grid > d
  {
    hide Scale, BenchScore, RoundHalfUp, Product, Pow10;
    var m := 10000 * n;
    ProductIsExact(n);
    BenchScoreExactly(n, d);
    HalfUpBounds(m, d);
    var grid, h: int := Pow10(Scale(m, d, CONTEXT_PRECISION)), RoundHalfUp(m, d);
    OneSided(m, d, grid, 2 * h - 1);
  }

  // ----- The score grows with the fraction -----

  lemma ScaleShrinks(m1: nat, d1: nat, m2: nat, d2: nat, precision: nat)
    requires m1 > 0 && d1 > 0 && m2 > 0 && d2 > 0 && precision > 0 && m1 * d2 <= m2 * d1
    ensures Scale(m2, d2, precision) <= Scale(m1, d1, precision)
  {
    hide Scale;
    var k1, k2 := Scale(m1, d1, precision), Scale(m2, d2, precision);
    ScaleReaches(m1, d1, precision);
    ScaleIsLeast(m2, d2, precision);
    ReachesToo(m1, d1, m2, d2, Pow10(k1), Pow10(precision - 1));
    if k2 > k1 { TimesLarger(m2, k1, k2 - 1); }
  }

  lemma TimesLarger(m: nat, a: nat, b: nat)
    requires a <= b
    ensures m * Pow10(a) <= m * Pow10(b)
  {
    hide Pow10;
    Pow10Monotone(a, b);
    MulMonotone(Pow10(a), Pow10(b), m);
  }

  /** A fraction at least as large reaches whatever the smaller one does. */
  lemma ReachesToo(m1: int, d1: int, m2: int, d2: int, grid: int, top: int)
    requires d1 > 0 && d2 > 0 && grid > 0 && m1 * d2 <= m2 * d1 && m1 * grid >= top * d1
    ensures m2 * grid >= top * d2
  {
    MulMonotone(top * d1, m1 * grid, d2);
    MulMonotone(m1 * d2, m2 * d1, grid);
    Regroup(m1, d2, grid);
    Regroup(m2, d1, grid);
    Regroup(top, d1, d2);
    Cancel(top * d2, m2 * grid, d1);
  }

  lemma Cancel(a: int, b: int, c: int)
    requires c > 0 && a * c <= b * c
    ensures a <= b
  {
    if b < a { MulMonotone(b + 1, a, c); Distribute(c, b, 1); }
  }

  /** The threshold of a score is easier to reach for a larger fraction on a coarser grid. */
  lemma ThresholdCarries(m1: int, d1: int, g1: int, m2: int, d2: int, g2: int, u: int)
    requires d1 > 0 && d2 > 0 && 0 < g2 <= g1 && m1 * d2 <= m2 * d1
    requires 2 * (m1 * g1) + d1 >= u * g1 * d1
    ensures 2 * (m2 * g2) + d2 >= u * g2 * d2
  {
    var a1, a2 := u * d1 - 2 * m1, u * d2 - 2 * m2;
    Regroup(u, g1, d1);
    Regroup(u, g2, d2);
    Spread(u * d1, 2 * m1, g1);
    Spread(u * d2, 2 * m2, g2);
    Regroup(2, m1, g1);
    Regroup(2, m2, g2);
    if a2 > 0 {
      Spread(u * d1, 2 * m1, d2);
      Spread(u * d2, 2 * m2, d1);
      Regroup(u, d1, d2);
      Regroup(2, m1, d2);
      Regroup(2, m2, d1);
      assert a2 * d1 <= a1 * d2;
      MulMonotone(a2 * d1, a1 * d2, g1);
      Regroup(a2, d1, g1);
      Regroup(a1, d2, g1);
      MulMonotone(a1 * g1, d1, d2);
      Regroup(a2, g1, d1);
      Cancel(a2 * g1, d2, d1);
      MulMonotone(g2, g1, a2);
    } else {
      MulMonotone(a2, 0, g2);
    }
  }

  lemma NegativeOut(a: int, b: int)
    ensures a * -b == -(a * b)
  {
  }

  lemma Spread(a: int, b: int, c: int)
    ensures (a - b) * c == a * c - b * c
  {
  }

  /** Below 10^28, a larger fraction never scores less, rounding and all. */
  lemma BenchScoreMonotone(n1: nat, d1: nat, n2: nat, d2: nat)
    requires 0 < d1 && 0 < d2 && n1 <= d1 && n2 <= d2 && n1 < Pow10(28) && n2 < Pow10(28)
    requires n1 * d2 <= n2 * d1
    ensures BenchScore(n1, d1) <= BenchScore(n2, d2)
  {
    hide Scale, BenchScore, Product, Pow10;
    if n1 == 0 {
      NoughtScores(d1);
    } else {
      MulPositive(n1, d2);
      var m1, m2 := 10000 * n1, 10000 * n2;
      ProductIsExact(n1);
      ProductIsExact(n2);
      Regroup(10000, n1, d2);
      Regroup(10000, n2, d1);
      ScoresCompare(n1, m1, d1, n2, m2, d2);
    }
  }

  lemma ScoresCompare(n1: nat, m1: nat, d1: nat, n2: nat, m2: nat, d2: nat)
    requires 0 < n1 <= d1 && 0 < n2 <= d2 && m1 == Product(n1) > 0 && m2 == Product(n2) > 0 && m1 * d2 <= m2 * d1
    ensures BenchScore(n1, d1) <= BenchScore(n2, d2)
  {
    hide Scale, BenchScore, Product, Pow10;
    var k1, k2 := Scale(m1, d1, CONTEXT_PRECISION), Scale(m2, d2, CONTEXT_PRECISION);
    ScaleShrinks(m1, d1, m2, d2, CONTEXT_PRECISION);
    Pow10Monotone(k2, k1);
    var h: int := BenchScore(n1, d1);
    BenchScoreReaches(n1, d1, h);
    ThresholdCarries(m1, d1, Pow10(k1), m2, d2, Pow10(k2), 2 * h - 1);
    BenchScoreReaches(n2, d2, h);
  }

  lemma NoughtScores(d: nat)
    requires d > 0
    ensures BenchScore(0, d) == 0
  {
    HalfUpUnique(0, 1, 0);
  }

  const LARGE_NUMERATOR: nat := 1_000_000_000_000_000_000_000_000
  const LARGE_DENOMINATOR: nat := 20_000_000_000_000_000_000_000_000_001

  lemma NearestIsUnique(n: nat, d: nat, c: nat)
    requires d > 0 && -(d as int) < 2 * (c * d - n) < d
    ensures RoundHalfEven(n, d) == c
  {
    hide RoundHalfEven;
    HalfEvenIsNearest(n, d);
    var q := RoundHalfEven(n, d);
    assert (q + 1) * d == q * d + d && (c + 1) * d == c * d + d;
    if q < c { MulMonotone(q + 1, c, d); }
    if c < q { MulMonotone(c + 1, q, d); }
  }

  lemma {:induction false} ScaleIsLeast(n: nat, d: nat, precision: nat)
    requires n > 0 && d > 0 && precision > 0
    ensures var k := Scale(n, d, precision); k == 0 || n * Pow10(k - 1) < Pow10(precision - 1) * d
    decreases Pow10(precision - 1) * d - n
  {
    if n < Pow10(precision - 1) * d {
      ScaleIsLeast(10 * n, d, precision);
      var k := Scale(10 * n, d, precision);
      if k > 0 { assert 10 * n * Pow10(k - 1) == n * Pow10(k); }
    }
  }

  lemma LargeScale()
    ensures Scale(Pow10(28), LARGE_DENOMINATOR, 28) == 28
  {
    Pow10Values();
    ScaleReaches(Pow10(28), LARGE_DENOMINATOR, 28);
    ScaleIsLeast(Pow10(28), LARGE_DENOMINATOR, 28);
    var k := Scale(Pow10(28), LARGE_DENOMINATOR, 28);
    if k < 28 { Pow10Monotone(k, 27); }
    if k > 28 { Pow10Monotone(28, k - 1); }
  }

  /** Beyond that the guarantee fails: just under one half, 28 digits round up to one half. */
  lemma BenchScoreCanRoundUp()
    ensures LARGE_NUMERATOR <= LARGE_DENOMINATOR
    ensures BenchScore(LARGE_NUMERATOR, LARGE_DENOMINATOR) == 1
    ensures RoundHalfUp(10000 * LARGE_NUMERATOR, LARGE_DENOMINATOR) == 0
  {
    hide Scale, RoundHalfEven, RoundHalfUp, Digits, RoundSignificant;
    Pow10Values();
    var d := LARGE_DENOMINATOR;
    assert 10000 * LARGE_NUMERATOR == Pow10(28);
    assert LARGE_NUMERATOR < Pow10(28);
    ProductIsExact(LARGE_NUMERATOR);
    LargeScale();
    var c := 5 * Pow10(27);
    NearestIsUnique(Pow10(28) * Pow10(28), d, c);
    HalfUpUnique(c, Pow10(28), 1);
    HalfUpUnique(Pow10(28), d, 0);
  }
}
