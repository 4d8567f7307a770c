/** What the tie-corrected variance is the variance of: the pairwise statistic, over
    every way of drawing the first sample from the pooled values. */
module RankVariance {
  import opened MannWhitney

  // ----- Drawing a sample -----

  /** One way of dividing the pooled values. */
  datatype Draw = Draw(chosen: seq<real>, others: seq<real>)

  function Leaving(draws: seq<Draw>, x: real): (r: seq<Draw>)
    ensures |r| == |draws|
    ensures forall k :: 0 <= k < |r| ==> r[k] == Draw(draws[k].chosen, draws[k].others + [x])
  {
    seq(|draws|, k requires 0 <= k < |draws| => Draw(draws[k].chosen, draws[k].others + [x]))
  }

  function Taking(draws: seq<Draw>, x: real): (r: seq<Draw>)
    ensures |r| == |draws|
  {
    seq(|draws|, k requires 0 <= k < |draws| => Draw(draws[k].chosen + [x], draws[k].others))
  }

  /** Every way of choosing `n` of the values, by their places: the last is left or taken. */
  function Draws(s: seq<real>, n: int): seq<Draw> {
    if s == [] then if n == 0 then [Draw([], [])] else []
    else
      var front, x := s[..|s| - 1], s[|s| - 1];
      Leaving(Draws(front, n), x) + Taking(Draws(front, n - 1), x)
  }

  /** A draw of `n` of the values. */
  ghost predicate Divides(d: Draw, s: seq<real>, n: int) {
    |d.chosen| == n && multiset(d.chosen) + multiset(d.others) == multiset(s)
  }

  lemma DividesOne(d: Draw, front: seq<real>, n: int, x: real)
    requires Divides(d, front, n)
    ensures Divides(Draw(d.chosen, d.others + [x]), front + [x], n)
    ensures Divides(Draw(d.chosen + [x], d.others), front + [x], n + 1)
  {
  }

  /** Each draw divides the values and has the asked number of them. */
  lemma {:induction false} DrawDivides(s: seq<real>, n: int, k: nat)
    requires k < |Draws(s, n)|
    ensures Divides(Draws(s, n)[k], s, n)
    decreases |s|
  {
    if s != [] {
      hide Divides;
      var front, x := s[..|s| - 1], s[|s| - 1];
      assert s == front + [x];
      var left, taken := Draws(front, n), Draws(front, n - 1);
      if k < |left| {
        DrawDivides(front, n, k);
        DividesOne(left[k], front, n, x);
      } else {
        DrawDivides(front, n - 1, k - |left|);
        DividesOne(taken[k - |left|], front, n - 1, x);
      }
    }
  }

  // ----- How many draws there are -----

  /** Pascal's triangle. */
  function Choose(m: int, n: int): (c: nat)
    decreases if m < 0 then 0 else m
  {
    if m < 0 || n < 0 || n > m then 0 else if m == 0 then 1 else Choose(m - 1, n - 1) + Choose(m - 1, n)
  }

  lemma Pascal(m: int, n: int)
    requires m >= 1
    ensures Choose(m, n) == Choose(m - 1, n - 1) + Choose(m - 1, n)
  {
    if n > m { ChooseNone(m - 1, n); }
  }

  lemma ChooseNone(m: int, n: int)
    requires m < 0 || n < 0 || n > m
    ensures Choose(m, n) == 0
  {
  }

  lemma {:induction false} DrawsCount(s: seq<real>, n: int)
    ensures |Draws(s, n)| == Choose(|s|, n)
    decreases |s|
  {
    if s != [] {
      var front := s[..|s| - 1];
      DrawsCount(front, n);
      DrawsCount(front, n - 1);
      Pascal(|s|, n);
    }
  }

  lemma {:induction false} ChoosePositive(m: nat, n: nat)
    requires n <= m
    ensures Choose(m, n) > 0
  {
    if m > 0 && n > 0 { ChoosePositive(m - 1, n - 1); } else if m > 0 { ChoosePositive(m - 1, n); }
  }

  /** n C(m, n) = m C(m-1, n-1) and (m-n) C(m, n) = m C(m-1, n). */
  lemma {:induction false} Absorb(m: int, n: int)
    requires m >= 1
    ensures n * Choose(m, n) == m * Choose(m - 1, n - 1)
    ensures (m - n) * Choose(m, n) == m * Choose(m - 1, n)
    decreases m
  {
    Pascal(m, n);
    if m == 1 {
      assert n != 0 && n != 1 ==> Choose(0, n - 1) == 0 && Choose(0, n) == 0;
    } else {
      Absorb(m - 1, n - 1);
      Absorb(m - 1, n);
      Pascal(m - 1, n - 1);
      Pascal(m - 1, n);
      var a, b, c := Choose(m - 2, n - 2), Choose(m - 2, n - 1), Choose(m - 2, n);
      AbsorbStep(m, n, a, b, c, Choose(m - 1, n - 1), Choose(m - 1, n));
    }
  }

  lemma AbsorbStep(m: int, n: int, a: int, b: int, c: int, x: int, y: int)
    requires x == a + b && y == b + c
    requires (n - 1) * x == (m - 1) * a && (m - n) * x == (m - 1) * b
    requires n * y == (m - 1) * b && (m - 1 - n) * y == (m - 1) * c
    ensures n * (x + y) == m * x && (m - n) * (x + y) == m * y
  {
    assert n * x == (m - 1) * a + x;
    assert (m - n) * y == (m - 1) * c + y;
  }

  /** The share of draws that take one of two places and leave the other. */
  lemma DrawShare(m: int, n: int)
    requires m >= 2
    ensures m * (m - 1) * Choose(m - 2, n - 1) == n * (m - n) * Choose(m, n)
    ensures Choose(m - 1, n - 1) == Choose(m - 2, n - 1) + Choose(m - 2, n - 2)
  {
    Absorb(m, n);
    Absorb(m - 1, n - 1);
    Pascal(m - 1, n - 1);
    var c, x, y := Choose(m, n), Choose(m - 1, n - 1), Choose(m - 2, n - 1);
    assert (m - n) * x == (m - 1) * y;
    ShareStep(m, n, c, x, y);
  }

  lemma ShareStep(m: int, n: int, c: int, x: int, y: int)
    requires n * c == m * x && (m - n) * x == (m - 1) * y
    ensures m * (m - 1) * y == n * (m - n) * c
  {
    calc {
      n * (m - n) * c;
      (m - n) * (n * c);
      (m - n) * (m * x);
      m * ((m - n) * x);
      m * ((m - 1) * y);
      m * (m - 1) * y;
    }
  }

  // ----- Moments of a sum over the draws -----

  /** The sum over the draws of what the chosen values weigh. */
  function FirstMoment(f: real -> int, draws: seq<Draw>): int {
    if draws == [] then 0
    else FirstMoment(f, draws[..|draws| - 1]) + Sum(f, draws[|draws| - 1].chosen)
  }

  /** The sum over the draws of its square. */
  function SecondMoment(f: real -> int, draws: seq<Draw>): int {
    if draws == [] then 0
    else SecondMoment(f, draws[..|draws| - 1]) + Square(Sum(f, draws[|draws| - 1].chosen))
  }

  function Square(a: int): int { a * a }

  lemma {:induction false} MomentsAppend(f: real -> int, a: seq<Draw>, b: seq<Draw>)
    ensures FirstMoment(f, a + b) == FirstMoment(f, a) + FirstMoment(f, b)
    ensures SecondMoment(f, a + b) == SecondMoment(f, a) + SecondMoment(f, b)
    decreases |b|
  {
    if b == [] {
      assert a + b == a;
    } else {
      MomentsAppend(f, a, b[..|b| - 1]);
      assert (a + b)[..|a + b| - 1] == a + b[..|b| - 1];
    }
  }

  lemma {:induction false} MomentsLeaving(f: real -> int, draws: seq<Draw>, x: real)
    ensures FirstMoment(f, Leaving(draws, x)) == FirstMoment(f, draws)
    ensures SecondMoment(f, Leaving(draws, x)) == SecondMoment(f, draws)
    decreases |draws|
  {
    if draws != [] {
      var front := draws[..|draws| - 1];
      MomentsLeaving(f, front, x);
      assert Leaving(draws, x)[..|draws| - 1] == Leaving(front, x);
    }
  }

  /** What the moments of `n` sums become when each is raised by `v`. */
  function Raised(n: nat, v: int, m1: int): int { m1 + n * v }

  function RaisedTwice(n: nat, v: int, m1: int, m2: int): int { m2 + 2 * v * m1 + n * Square(v) }

  lemma TakingLast(draws: seq<Draw>, d: Draw, x: real)
    ensures Taking(draws + [d], x) == Taking(draws, x) + [Draw(d.chosen + [x], d.others)]
  {
  }

  lemma MomentsLast(f: real -> int, draws: seq<Draw>, d: Draw)
    ensures FirstMoment(f, draws + [d]) == FirstMoment(f, draws) + Sum(f, d.chosen)
    ensures SecondMoment(f, draws + [d]) == SecondMoment(f, draws) + Square(Sum(f, d.chosen))
  {
    assert (draws + [d])[..|draws|] == draws;
  }

  /** The moments of the draws with one more value taken. */
  ghost predicate RaisedMoments(f: real -> int, draws: seq<Draw>, x: real) {
    && FirstMoment(f, Taking(draws, x)) == Raised(|draws|, f(x), FirstMoment(f, draws))
    && SecondMoment(f, Taking(draws, x)) ==
       RaisedTwice(|draws|, f(x), FirstMoment(f, draws), SecondMoment(f, draws))
  }

  lemma RaisedByOne(f: real -> int, front: seq<Draw>, last: Draw, x: real)
    requires RaisedMoments(f, front, x)
    ensures RaisedMoments(f, front + [last], x)
  {
    hide FirstMoment, SecondMoment, Square, Sum, Raised, RaisedTwice, Taking;
    TakingLast(front, last, x);
    MomentsLast(f, Taking(front, x), Draw(last.chosen + [x], last.others));
    MomentsLast(f, front, last);
    SumLast(f, last.chosen, x);
    TakingStep(|front|, f(x), Sum(f, last.chosen), FirstMoment(f, front), SecondMoment(f, front));
  }

  lemma {:induction false} MomentsTaking(f: real -> int, draws: seq<Draw>, x: real)
    ensures RaisedMoments(f, draws, x)
    decreases |draws|
  {
    if draws == [] {
      assert Taking(draws, x) == [];
    } else {
      hide RaisedMoments;
      var front, last := draws[..|draws| - 1], draws[|draws| - 1];
      MomentsTaking(f, front, x);
      RaisedByOne(f, front, last, x);
      assert draws == front + [last];
    }
  }

  lemma TakingStep(n: nat, v: int, c: int, m1: int, m2: int)
    ensures Raised(n, v, m1) + (c + v) == Raised(n + 1, v, m1 + c)
    ensures RaisedTwice(n, v, m1, m2) + Square(c + v) == RaisedTwice(n + 1, v, m1 + c, m2 + Square(c))
  {
  }

  /** The products of the weights of two different places. */
  function Cross(f: real -> int, s: seq<real>): int {
    if s == [] then 0
    else Cross(f, s[..|s| - 1]) + 2 * f(s[|s| - 1]) * Sum(f, s[..|s| - 1])
  }

  function Squares(f: real -> int, s: seq<real>): int {
    if s == [] then 0 else Squares(f, s[..|s| - 1]) + Square(f(s[|s| - 1]))
  }

  lemma {:induction false} CrossIs(f: real -> int, s: seq<real>)
    ensures Cross(f, s) == Square(Sum(f, s)) - Squares(f, s)
  {
    if s != [] { CrossIs(f, s[..|s| - 1]); }
  }

  /** A place is chosen in C(N-1, n-1) draws, and two places together in C(N-2, n-2). */
  lemma {:induction false} Moments(f: real -> int, s: seq<real>, n: int)
    ensures FirstMoment(f, Draws(s, n)) == Choose(|s| - 1, n - 1) * Sum(f, s)
    ensures SecondMoment(f, Draws(s, n)) ==
            Choose(|s| - 1, n - 1) * Squares(f, s) + Choose(|s| - 2, n - 2) * Cross(f, s)
    decreases |s|
  {
    hide Choose, Draws, FirstMoment, SecondMoment, Square;
    if s == [] {
      MomentsOfNothing(f, n);
    } else {
      var front, x, m := s[..|s| - 1], s[|s| - 1], |s| - 1;
      assert s == front + [x];
      MomentsStep(f, front, x, n);
      DrawsCount(front, n - 1);
      if m == 0 {
        MomentsOfNothing(f, n);
        MomentsOfNothing(f, n - 1);
      } else {
        Moments(f, front, n);
        Moments(f, front, n - 1);
        Pascal(m, n - 1);
        if m >= 2 { Pascal(m - 1, n - 2); } else { CrossOfOne(f, front); }
        Gather(Choose(m - 1, n - 1), Choose(m - 1, n - 2), Choose(m - 2, n - 2), Choose(m - 2, n - 3), f(x),
          Sum(f, front), Squares(f, front), Cross(f, front));
      }
    }
  }

  lemma CrossOfOne(f: real -> int, s: seq<real>)
    requires |s| == 1
    ensures Cross(f, s) == 0
  {
    assert s[..0] == [];
  }

  lemma Gather(a: int, b: int, c: int, d: int, v: int, sum: int, squares: int, cross: int)
    requires b == c + d || cross == 0
    ensures a * sum + b * sum + (a + b) * v == (a + b) * (sum + v)
    ensures (a * squares + c * cross) + (b * squares + d * cross) + 2 * v * (b * sum) + (a + b) * Square(v) ==
            (a + b) * (squares + Square(v)) + b * (cross + 2 * v * sum)
  {
    hide Square;
    assert c * cross + d * cross == (c + d) * cross == b * cross;
    assert b * (cross + 2 * v * sum) == b * cross + b * (2 * v * sum);
    assert b * (2 * v * sum) == 2 * v * (b * sum);
  }

  lemma MomentsOfNothing(f: real -> int, n: int)
    ensures FirstMoment(f, Draws([], n)) == 0 && SecondMoment(f, Draws([], n)) == 0
  {
    if n == 0 {
      assert Draws([], 0) == [Draw([], [])] && [Draw([], [])][..0] == [];
    }
  }

  lemma MomentsStep(f: real -> int, front: seq<real>, x: real, n: int)
    ensures var s := front + [x];
            && FirstMoment(f, Draws(s, n)) ==
               FirstMoment(f, Draws(front, n)) + FirstMoment(f, Draws(front, n - 1)) + |Draws(front, n - 1)| * f(x)
            && SecondMoment(f, Draws(s, n)) ==
               SecondMoment(f, Draws(front, n)) + SecondMoment(f, Draws(front, n - 1)) +
               2 * f(x) * FirstMoment(f, Draws(front, n - 1)) + |Draws(front, n - 1)| * Square(f(x))
  {
    var s := front + [x];
    assert s[..|s| - 1] == front;
    var left, taken := Draws(front, n), Draws(front, n - 1);
    MomentsAppend(f, Leaving(left, x), Taking(taken, x));
    MomentsLeaving(f, left, x);
    MomentsTaking(f, taken, x);
  }

  // ----- How far the ranks spread -----

  /** Above, level or below. */
  function Sign(a: real, x: real): int { if x < a then 1 else if x == a then 0 else -1 }

  /** By how many places a value is nearer the top than the bottom: its doubled rank, less that of the middle. */
  function Lead(a: real, s: seq<real>): int {
    if s == [] then 0 else Lead(a, s[..|s| - 1]) + Sign(a, s[|s| - 1])
  }

  lemma {:induction false} LeadIsScore(a: real, s: seq<real>)
    ensures Lead(a, s) == Score(a, s) - |s|
  {
    if s != [] {
      var front, x := s[..|s| - 1], s[|s| - 1];
      LeadIsScore(a, front);
      assert s == front + [x];
      SumLast(Against(a), front, x);
    }
  }

  function Level(x: real, y: real): int { if x == y then 1 else 0 }

  lemma {:induction false} TiesGrow(a: real, s: seq<real>, x: real)
    ensures Ties(a, s + [x]) == Ties(a, s) + Level(x, a)
  {
    SumLast(SameAs(a), s, x);
  }

  /** Of any three values, ties or not, the two products of signs at each add up to one, unless all are equal. */
  lemma ThreeSigns(x: real, y: real, z: real)
    ensures Sign(z, x) * Sign(z, y) + Sign(y, x) * Sign(y, z) + Sign(x, y) * Sign(x, z) ==
            1 - Level(x, y) * Level(x, z)
  {
  }

  function PairSum(x: real, y: real, s: seq<real>): int {
    if s == [] then 0 else PairSum(x, y, s[..|s| - 1]) + Sign(s[|s| - 1], x) * Sign(s[|s| - 1], y)
  }

  lemma {:induction false} PairSumIs(x: real, y: real, s: seq<real>)
    ensures PairSum(x, y, s) + Sign(y, x) * Lead(y, s) + Sign(x, y) * Lead(x, s) == |s| - Level(x, y) * Ties(x, s)
  {
    if s != [] {
      var front, z := s[..|s| - 1], s[|s| - 1];
      assert s == front + [z];
      PairSumIs(x, y, front);
      TiesGrow(x, front, z);
      ThreeSigns(x, y, z);
      assert Level(z, x) == Level(x, z);
      Spread3(Sign(y, x), Lead(y, front), Sign(y, z), Sign(x, y), Lead(x, front), Sign(x, z), Level(x, y),
        Ties(x, front), Level(x, z));
    } else {
      assert Ties(x, []) == 0;
    }
  }

  lemma Spread3(a: int, b: int, c: int, d: int, e: int, g: int, l: int, t: int, u: int)
    ensures a * (b + c) == a * b + a * c && d * (e + g) == d * e + d * g && l * (t + u) == l * t + l * u
  {
  }

  /** The leads of the values of `s` among `all`, each with its sign against `x`. */
  function Tilt(s: seq<real>, all: seq<real>, x: real): int {
    if s == [] then 0 else Tilt(s[..|s| - 1], all, x) + Lead(s[|s| - 1], all) * Sign(s[|s| - 1], x)
  }

  lemma LeadGrows(a: real, all: seq<real>, y: real)
    ensures Lead(a, all + [y]) == Lead(a, all) + Sign(a, y)
  {
    assert (all + [y])[..|all|] == all;
  }

  lemma {:induction false} TiltGrows(s: seq<real>, all: seq<real>, y: real, x: real)
    ensures Tilt(s, all + [y], x) == Tilt(s, all, x) + PairSum(y, x, s)
  {
    hide Sign, Lead;
    if s != [] {
      var z := s[|s| - 1];
      TiltGrows(s[..|s| - 1], all, y, x);
      LeadGrows(z, all, y);
      assert (Lead(z, all) + Sign(z, y)) * Sign(z, x) == Lead(z, all) * Sign(z, x) + Sign(z, y) * Sign(z, x);
    }
  }

  lemma {:induction false} TiltIs(s: seq<real>, x: real)
    ensures 2 * Tilt(s, s, x) + Square(Lead(x, s)) + Square(Ties(x, s)) == |s| * |s|
  {
    if s == [] {
      assert Ties(x, []) == 0;
    } else {
      var front, y := s[..|s| - 1], s[|s| - 1];
      assert s == front + [y];
      TiltIs(front, x);
      TiltGrows(front, front, y, x);
      PairSumIs(y, x, front);
      LeadGrows(x, front, y);
      LeadGrows(y, front, y);
      TiesGrow(x, front, y);
      if y == x { assert Ties(y, front) == Ties(x, front); }
      TiltStep(|front|, Tilt(front, front, x), PairSum(y, x, front), Lead(x, front), Lead(y, front), Sign(x, y),
        Sign(y, x), Ties(x, front), Level(y, x));
    }
  }

  lemma TiltStep(n: int, tilt: int, pairs: int, lx: int, ly: int, xy: int, yx: int, t: int, l: int)
    requires 2 * tilt + Square(lx) + Square(t) == n * n
    requires pairs + xy * lx + yx * ly == n - l * t
    requires Square(xy) + l == 1 && Square(l) == l
    ensures 2 * (tilt + pairs + ly * yx) + Square(lx + xy) + Square(t + l) == (n + 1) * (n + 1)
  {
    assert Square(lx + xy) == Square(lx) + 2 * (xy * lx) + Square(xy);
    assert Square(t + l) == Square(t) + 2 * (l * t) + Square(l);
    assert ly * yx == yx * ly;
    assert (n + 1) * (n + 1) == n * n + 2 * n + 1;
  }

  /** The squared leads of the values of `s` among `all`. */
  function Spread(s: seq<real>, all: seq<real>): int {
    if s == [] then 0 else Spread(s[..|s| - 1], all) + Square(Lead(s[|s| - 1], all))
  }

  lemma {:induction false} SpreadGrows(s: seq<real>, all: seq<real>, y: real)
    ensures Spread(s, all + [y]) == Spread(s, all) + 2 * Tilt(s, all, y) + |s| - Ties(y, s)
  {
    if s == [] {
      assert Ties(y, []) == 0;
    } else {
      var front, z := s[..|s| - 1], s[|s| - 1];
      assert s == front + [z];
      SpreadGrows(front, all, y);
      LeadGrows(z, all, y);
      TiesGrow(y, front, z);
      SignSquare(Lead(z, all), z, y);
    }
  }

  lemma SignSquare(lead: int, z: real, y: real)
    ensures Square(lead + Sign(z, y)) == Square(lead) + 2 * (lead * Sign(z, y)) + 1 - Level(z, y)
  {
  }

  // ----- What ties take away -----

  lemma {:induction false} TieSumGrows(s: seq<real>, all: seq<real>, y: real)
    ensures Sum(TieOf(all + [y]), s) == Sum(TieOf(all), s) + Ties(y, s) * (2 * Ties(y, all) + 1)
  {
    if s == [] {
      assert Ties(y, []) == 0;
    } else {
      var front, z := s[..|s| - 1], s[|s| - 1];
      assert s == front + [z];
      TieSumGrows(front, all, y);
      SumLast(TieOf(all + [y]), front, z);
      SumLast(TieOf(all), front, z);
      TiesGrow(z, all, y);
      TiesGrow(y, front, z);
      TieStep(Ties(z, all), Ties(y, all), Ties(y, front), y, z);
    }
  }

  lemma TieStep(tz: int, ty: int, t: int, y: real, z: real)
    requires y == z ==> ty == tz
    ensures (tz + Level(y, z)) * (tz + Level(y, z)) - 1 + t * (2 * ty + 1) ==
            tz * tz - 1 + (t + Level(z, y)) * (2 * ty + 1)
  {
  }

  lemma TieTermGrows(s: seq<real>, y: real)
    ensures TieTerm(s + [y]) == TieTerm(s) + 3 * Square(Ties(y, s)) + 3 * Ties(y, s)
  {
    hide Ties, Square, Level;
    var t := Ties(y, s);
    TieSumGrows(s, s, y);
    SumLast(TieOf(s + [y]), s, y);
    TiesGrow(y, s, y);
    assert Level(y, y) == 1 by { LevelWithItself(y); }
    TieGain(t);
  }

  lemma LevelWithItself(y: real)
    ensures Level(y, y) == 1
  {
  }

  lemma TieGain(t: int)
    ensures t * (2 * t + 1) + ((t + 1) * (t + 1) - 1) == 3 * Square(t) + 3 * t
  {
    assert (t + 1) * (t + 1) - 1 == t * t + 2 * t;
    assert t * (2 * t + 1) == 2 * (t * t) + t;
  }

  function Cubic(n: int): int { n * n * n - n }

  /** The squared leads add up to a third of what they would without ties, less what ties take. */
  lemma {:induction false} SpreadIs(s: seq<real>)
    ensures 3 * Spread(s, s) == Cubic(|s|) - TieTerm(s)
  {
    if s != [] {
      var front, y, n := s[..|s| - 1], s[|s| - 1], |s| - 1;
      assert s == front + [y];
      SpreadIs(front);
      SpreadGrows(front, front, y);
      TiltIs(front, y);
      LeadGrows(y, front, y);
      TieTermGrows(front, y);
      assert Cubic(n + 1) == Cubic(n) + 3 * (n * n) + 3 * n by { CubicGrows(n); }
    }
  }

  lemma CubicGrows(n: int)
    ensures Cubic(n + 1) == Cubic(n) + 3 * (n * n) + 3 * n
  {
    assert (n + 1) * (n + 1) * (n + 1) == n * n * n + 3 * (n * n) + 3 * n + 1;
  }

  // ----- The variance -----

  /** By how much the doubled statistic of a draw departs from half of all its pairs, doubled. */
  function Deviation(d: Draw): int { Wins(d.chosen, d.others) - |d.chosen| * |d.others| }

  function Deviations(draws: seq<Draw>): int {
    if draws == [] then 0 else Deviations(draws[..|draws| - 1]) + Deviation(draws[|draws| - 1])
  }

  function SquaredDeviations(draws: seq<Draw>): int {
    if draws == [] then 0 else SquaredDeviations(draws[..|draws| - 1]) + Square(Deviation(draws[|draws| - 1]))
  }

  function Leads(pool: seq<real>): real -> int { (a: real) => Lead(a, pool) }

  lemma {:induction false} LeadsSum(s: seq<real>, pool: seq<real>)
    ensures Sum(Leads(pool), s) == Wins(s, pool) - |s| * |pool|
    ensures Squares(Leads(pool), s) == Spread(s, pool)
  {
    if s != [] {
      var front, x := s[..|s| - 1], s[|s| - 1];
      assert s == front + [x];
      LeadsSum(front, pool);
      SumLast(Leads(pool), front, x);
      SumLast(Scorer(pool), front, x);
      LeadIsScore(x, pool);
      assert |s| * |pool| == |front| * |pool| + |pool|;
    }
  }

  /** The chosen values lead over the others by just so much: among themselves they break even. */
  lemma DrawDeviates(d: Draw, pool: seq<real>)
    requires multiset(d.chosen) + multiset(d.others) == multiset(pool)
    ensures Deviation(d) == Sum(Leads(pool), d.chosen) && |d.chosen| + |d.others| == |pool|
  {
    var c, o := d.chosen, d.others;
    assert multiset(c + o) == multiset(pool);
    SameSize(c + o, pool);
    LeadsSum(c, pool);
    WinsPermutation(c, c, pool, c + o);
    WinsAppendRight(c, c, o);
    SelfWins(c);
    assert |c| * (|c| + |o|) == |c| * |c| + |c| * |o|;
  }

  lemma SameSize<T>(a: seq<T>, b: seq<T>)
    requires multiset(a) == multiset(b)
    ensures |a| == |b|
  {
    assert |multiset(a)| == |a| && |multiset(b)| == |b|;
  }

  lemma {:induction false} DeviationsAreMoments(draws: seq<Draw>, pool: seq<real>)
    requires forall k :: 0 <= k < |draws| ==> multiset(draws[k].chosen) + multiset(draws[k].others) == multiset(pool)
    ensures Deviations(draws) == FirstMoment(Leads(pool), draws)
    ensures SquaredDeviations(draws) == SecondMoment(Leads(pool), draws)
    decreases |draws|
  {
    if draws != [] {
      DeviationsAreMoments(draws[..|draws| - 1], pool);
      DrawDeviates(draws[|draws| - 1], pool);
    }
  }

  lemma EveryDrawDivides(pool: seq<real>, n: int)
    ensures forall k :: 0 <= k < |Draws(pool, n)| ==>
              multiset(Draws(pool, n)[k].chosen) + multiset(Draws(pool, n)[k].others) == multiset(pool)
  {
    hide Draws;
    forall k | 0 <= k < |Draws(pool, n)|
      ensures multiset(Draws(pool, n)[k].chosen) + multiset(Draws(pool, n)[k].others) == multiset(pool)
    {
      DrawDivides(pool, n, k);
    }
  }

  lemma LeadsCancel(pool: seq<real>)
    ensures Sum(Leads(pool), pool) == 0 && Squares(Leads(pool), pool) == Spread(pool, pool)
    ensures Cross(Leads(pool), pool) == -Spread(pool, pool)
  {
    LeadsSum(pool, pool);
    SelfWins(pool);
    CrossIs(Leads(pool), pool);
  }

  /** Over all draws the deviations cancel, and their squares are shared out by the spread of the ranks. */
  lemma DrawsDeviate(pool: seq<real>, n: int)
    requires |pool| >= 2
    ensures Deviations(Draws(pool, n)) == 0
    ensures |pool| * (|pool| - 1) * SquaredDeviations(Draws(pool, n)) ==
            n * (|pool| - n) * Choose(|pool|, n) * Spread(pool, pool)
  {
    hide Choose, Draws, Spread, Deviations, SquaredDeviations, FirstMoment, SecondMoment, Cross, Squares, Leads;
    var draws, m, q := Draws(pool, n), |pool|, Spread(pool, pool);
    EveryDrawDivides(pool, n);
    DeviationsAreMoments(draws, pool);
    Moments(Leads(pool), pool, n);
    LeadsCancel(pool);
    DrawShare(m, n);
    Shared(m, n, Choose(m - 1, n - 1), Choose(m - 2, n - 2), Choose(m - 2, n - 1), Choose(m, n), q);
  }

  lemma Shared(m: int, n: int, a: int, b: int, c: int, all: int, q: int)
    requires a == c + b && m * (m - 1) * c == n * (m - n) * all
    ensures m * (m - 1) * (a * q + b * -q) == n * (m - n) * all * q
  {
    assert a * q + b * -q == c * q;
    assert m * (m - 1) * (c * q) == (m * (m - 1) * c) * q;
  }

  /** Clearing the fractions of the variance. */
  lemma VarianceCleared(n1: nat, n2: nat, tieTerm: int)
    requires n1 + n2 >= 2
    ensures var n := n1 + n2;
            Variance(n1, n2, tieTerm) * (12 * (n * (n - 1))) as real == (n1 * n2 * (Cubic(n) - tieTerm)) as real
  {
    var n, pairs := n1 + n2, (n1 * n2) as real;
    var d := n * (n - 1);
    Factor(n);
    var share := tieTerm as real / d as real;
    assert share * d as real == tieTerm as real;
    assert (n + 1) * d == Cubic(n) by { assert n * n * n - n == (n * n - 1) * n; }
    var inner := (n + 1) as real - share;
    assert inner * d as real == ((n + 1) * d) as real - tieTerm as real;
    Clear(pairs, inner, d as real);
  }

  lemma Clear(a: real, b: real, d: real)
    ensures (a / 12.0 * b) * (12.0 * d) == a * (b * d)
  {
    var t := a / 12.0;
    assert t * 12.0 == a;
    assert (t * b) * (12.0 * d) == (t * 12.0) * (b * d);
  }

  lemma CancelFactor(d: int, x: real, y: real)
    requires d > 0 && x * d as real == y * d as real
    ensures x == y
  {
    RealCompare(x, y, d as real);
  }

  /** The variance reported is the variance of the statistic over every way of drawing
      the first sample from the pooled values: the deviations from half the pairs cancel,
      and the mean of their squares, which are those of the doubled statistic, is four
      times the variance. */
  lemma VarianceIsPermutation(first: seq<real>, second: seq<real>)
    requires first != [] && second != []
    ensures var draws := Draws(first + second, |first|);
            && |draws| > 0 && Deviations(draws) == 0
            && Variance(|first|, |second|, TieTerm(first + second)) * (4 * |draws|) as real ==
               SquaredDeviations(draws) as real
  {
    hide Draws, Choose, Spread, Variance, TieTerm, Cubic;
    var pool, n1, n2 := first + second, |first|, |second|;
    var n, draws, q := |pool|, Draws(pool, n1), Spread(pool, pool);
    var v, d, c, m2 := Variance(n1, n2, TieTerm(pool)), n * (n - 1), |draws|, SquaredDeviations(draws);
    DrawsCount(pool, n1);
    ChoosePositive(n, n1);
    DrawsDeviate(pool, n1);
    SpreadIs(pool);
    VarianceCleared(n1, n2, TieTerm(pool));
    Factor(n);
    Settle(v, d, c, m2, n1 * n2, q);
  }

  lemma Settle(v: real, d: int, c: int, m2: int, pairs: int, q: int)
    requires d > 0 && d * m2 == pairs * c * q && v * (12 * d) as real == (pairs * (3 * q)) as real
    ensures v * (4 * c) as real == m2 as real
  {
    var x := v * (4 * c) as real;
    assert pairs * (3 * q) == 3 * (pairs * q);
    assert v * (12 * d) as real == 3.0 * (v * (4 * d) as real);
    assert v * (4 * d) as real == (pairs * q) as real;
    assert x * d as real == (v * (4 * d) as real) * c as real;
    assert pairs * c * q == (pairs * q) * c;
    assert x * d as real == ((pairs * q) * c) as real == (d * m2) as real == m2 as real * d as real;
    CancelFactor(d, x, m2 as real);
  }
}
