/** The tie-corrected Mann-Whitney statistic: the rank loop against pairwise counting. */
module MannWhitney {
  import opened Ordering

  // ----- Sums over sequences -----

  function Sum<T>(f: T -> int, s: seq<T>): int {
    if s == [] then 0 else Sum(f, s[..|s| - 1]) + f(s[|s| - 1])
  }

  lemma SumLast<T>(f: T -> int, s: seq<T>, x: T)
    ensures Sum(f, s + [x]) == Sum(f, s) + f(x)
  {
    assert (s + [x])[..|s|] == s;
  }

  lemma SumSingle<T>(f: T -> int, x: T)
    ensures Sum(f, [x]) == f(x)
  {
    assert [x][..0] == [];
  }

  lemma {:induction false} SumAppend<T>(f: T -> int, s: seq<T>, t: seq<T>)
    ensures Sum(f, s + t) == Sum(f, s) + Sum(f, t)
    decreases |t|
  {
    if t == [] {
      assert s + t == s;
    } else {
      var front, x := t[..|t| - 1], t[|t| - 1];
      assert s + t == (s + front) + [x] && t == front + [x];
      SumAppend(f, s, front);
      SumLast(f, s + front, x);
    }
  }

  /** Order does not matter to a sum. */
  lemma {:induction false} SumPermutation<T>(f: T -> int, s: seq<T>, t: seq<T>)
    requires multiset(s) == multiset(t)
    ensures Sum(f, s) == Sum(f, t)
    decreases |s|
  {
    SameMembers(s, t);
    if s != [] {
      var k := RemoveLast(s, t);
      var x := t[k];
      SumPermutation(f, s[..|s| - 1], t[..k] + t[k + 1..]);
      SumAppend(f, t[..k], t[k + 1..]);
      SumLast(f, t[..k], x);
      SumAppend(f, t[..k] + [x], t[k + 1..]);
    }
  }

  lemma {:induction false} SumAgree<T>(f: T -> int, g: T -> int, s: seq<T>)
    requires forall k :: 0 <= k < |s| ==> f(s[k]) == g(s[k])
    ensures Sum(f, s) == Sum(g, s)
  {
    if s != [] { SumAgree(f, g, s[..|s| - 1]); }
  }

  lemma {:induction false} SumConstant<T>(f: T -> int, s: seq<T>, c: int)
    requires forall k :: 0 <= k < |s| ==> f(s[k]) == c
    ensures Sum(f, s) == c * |s|
  {
    if s != [] {
      SumConstant(f, s[..|s| - 1], c);
      assert c * |s| == c * (|s| - 1) + c;
    }
  }

  lemma {:induction false} SumPlus<T>(f: T -> int, g: T -> int, h: T -> int, s: seq<T>)
    requires forall x :: h(x) == f(x) + g(x)
    ensures Sum(h, s) == Sum(f, s) + Sum(g, s)
  {
    if s != [] { SumPlus(f, g, h, s[..|s| - 1]); }
  }

  // ----- Pairwise counting -----

  /** Two for a win of `a` over `x`, one for a tie. */
  function Win(a: real, x: real): int { if x < a then 2 else if x == a then 1 else 0 }

  function Against(a: real): real -> int { (x: real) => Win(a, x) }

  /** The doubled number of elements of `xs` that `a` beats, ties counting one half. */
  function Score(a: real, xs: seq<real>): int { Sum(Against(a), xs) }

  function Scorer(xs: seq<real>): real -> int { (a: real) => Score(a, xs) }

  /** Twice the pairwise statistic: over all pairs, two per win and one per tie. */
  function Wins(first: seq<real>, second: seq<real>): int { Sum(Scorer(second), first) }

  lemma ScoreAppend(a: real, xs: seq<real>, ys: seq<real>)
    ensures Score(a, xs + ys) == Score(a, xs) + Score(a, ys)
  {
    SumAppend(Against(a), xs, ys);
  }

  lemma ScorePermutation(a: real, xs: seq<real>, ys: seq<real>)
    requires multiset(xs) == multiset(ys)
    ensures Score(a, xs) == Score(a, ys)
  {
    SumPermutation(Against(a), xs, ys);
  }

  lemma WinsAppendRight(first: seq<real>, xs: seq<real>, ys: seq<real>)
    ensures Wins(first, xs + ys) == Wins(first, xs) + Wins(first, ys)
  {
    forall a ensures Scorer(xs + ys)(a) == Scorer(xs)(a) + Scorer(ys)(a) { ScoreAppend(a, xs, ys); }
    SumPlus(Scorer(xs), Scorer(ys), Scorer(xs + ys), first);
  }

  lemma WinsAppendLeft(xs: seq<real>, ys: seq<real>, second: seq<real>)
    ensures Wins(xs + ys, second) == Wins(xs, second) + Wins(ys, second)
  {
    SumAppend(Scorer(second), xs, ys);
  }

  /** Each pair is shared out in full: what one side does not win the other does. */
  lemma {:induction false} WinsComplement(first: seq<real>, second: seq<real>)
    ensures Wins(first, second) + Wins(second, first) == 2 * |first| * |second|
  {
    if first == [] {
      SumConstant(Scorer(first), second, 0);
    } else {
      var front, a := first[..|first| - 1], first[|first| - 1];
      assert first == front + [a];
      WinsComplement(front, second);
      WinsAppendLeft(front, [a], second);
      WinsAppendRight(second, front, [a]);
      SingleComplement(a, second);
      assert 2 * |first| * |second| == 2 * |front| * |second| + 2 * |second|;
    }
  }

  lemma {:induction false} SingleComplement(a: real, xs: seq<real>)
    ensures Wins([a], xs) + Wins(xs, [a]) == 2 * |xs|
  {
    SumSingle(Scorer(xs), a);
    if xs != [] {
      var front, x := xs[..|xs| - 1], xs[|xs| - 1];
      assert xs == front + [x];
      SingleComplement(a, front);
      SumSingle(Scorer(front), a);
      ScoreAppend(a, front, [x]);
      WinsAppendLeft(front, [x], [a]);
      SumSingle(Against(a), x);
      SumSingle(Against(x), a);
      SumSingle(Scorer([a]), x);
    }
  }

  /** A sample against itself: every ordered pair once, so its square. */
  lemma SelfWins(s: seq<real>)
    ensures Wins(s, s) == |s| * |s|
  {
    WinsComplement(s, s);
    assert 2 * |s| * |s| == 2 * (|s| * |s|);
  }

  lemma WinsPermutation(f1: seq<real>, f2: seq<real>, s1: seq<real>, s2: seq<real>)
    requires multiset(f1) == multiset(f2) && multiset(s1) == multiset(s2)
    ensures Wins(f1, s1) == Wins(f2, s2)
  {
    SumPermutation(Scorer(s1), f1, f2);
    forall a ensures Scorer(s1)(a) == Scorer(s2)(a) { ScorePermutation(a, s1, s2); }
    SumAgree(Scorer(s1), Scorer(s2), f2);
  }

  // ----- Ranks and ties -----

  /** A pooled value with its group: true for the first sample. */
  type Tagged = (real, bool)

  predicate ByValue(x: Tagged, y: Tagged) { x.0 < y.0 }

  function Tag(s: seq<real>, group: bool): (r: seq<Tagged>)
    ensures |r| == |s|
    ensures forall k :: 0 <= k < |s| ==> r[k] == (s[k], group)
  {
    seq(|s|, k requires 0 <= k < |s| => (s[k], group))
  }

  function Values(t: seq<Tagged>): (r: seq<real>)
    ensures |r| == |t|
    ensures forall k :: 0 <= k < |t| ==> r[k] == t[k].0
  {
    seq(|t|, k requires 0 <= k < |t| => t[k].0)
  }

  function Pool(first: seq<real>, second: seq<real>): seq<Tagged> { Tag(first, true) + Tag(second, false) }

  lemma PoolValues(first: seq<real>, second: seq<real>)
    ensures Values(Pool(first, second)) == first + second
  {
  }

  lemma {:induction false} ValuesPermutation(s: seq<Tagged>, t: seq<Tagged>)
    requires multiset(s) == multiset(t)
    ensures multiset(Values(s)) == multiset(Values(t))
    decreases |s|
  {
    SameMembers(s, t);
    if s == [] {
      assert Values(s) == [] && Values(t) == [];
    } else {
      var k := RemoveLast(s, t);
      var x := t[k].0;
      ValuesPermutation(s[..|s| - 1], t[..k] + t[k + 1..]);
      ValuesSplit(t, k);
      assert Values(s) == Values(s[..|s| - 1]) + [x];
      assert multiset(Values(s)) == multiset(Values(s[..|s| - 1])) + multiset{x};
    }
  }

  lemma ValuesSplit(t: seq<Tagged>, k: nat)
    requires k < |t|
    ensures multiset(Values(t)) == multiset(Values(t[..k] + t[k + 1..])) + multiset{t[k].0}
  {
    assert Values(t) == Values(t[..k]) + [t[k].0] + Values(t[k + 1..]);
    assert Values(t[..k] + t[k + 1..]) == Values(t[..k]) + Values(t[k + 1..]);
  }

  /** The doubled mid-rank of a first-sample element; nothing for the other group. */
  function RankOf(values: seq<real>): Tagged -> int {
    (x: Tagged) => if x.1 then Score(x.0, values) + 1 else 0
  }

  /** How many pooled values equal `a`. */
  function SameAs(a: real): real -> int { (x: real) => if x == a then 1 else 0 }

  function Ties(a: real, values: seq<real>): int { Sum(SameAs(a), values) }

  /** An element's share of the tie term: a group of t elements contributes t (t^2 - 1) = t^3 - t in all. */
  function TieOf(values: seq<real>): real -> int {
    (a: real) => Ties(a, values) * Ties(a, values) - 1
  }

  function TieTerm(values: seq<real>): int { Sum(TieOf(values), values) }

  /** In sorted values, the tie group of an element spans [start, end). */
  ghost predicate GroupAt(values: seq<real>, start: nat, end: nat, a: real) {
    && start < end <= |values|
    && (forall k :: 0 <= k < start ==> values[k] < a)
    && (forall k :: start <= k < end ==> values[k] == a)
    && (forall k :: end <= k < |values| ==> values[k] > a)
  }

  lemma GroupCounts(values: seq<real>, start: nat, end: nat, a: real)
    requires GroupAt(values, start, end, a)
    ensures Score(a, values) == start + end
    ensures Ties(a, values) == end - start
  {
    var low, mid, high := values[..start], values[start..end], values[end..];
    assert values == low + mid + high;
    SumConstant(Against(a), low, 2);
    SumConstant(Against(a), mid, 1);
    SumConstant(Against(a), high, 0);
    SumAppend(Against(a), low, mid);
    SumAppend(Against(a), low + mid, high);
    SumConstant(SameAs(a), low, 0);
    SumConstant(SameAs(a), mid, 1);
    SumConstant(SameAs(a), high, 0);
    SumAppend(SameAs(a), low, mid);
    SumAppend(SameAs(a), low + mid, high);
  }

  function InFirst(x: Tagged): int { if x.1 then 1 else 0 }

  lemma {:induction false} SumScaled(f: Tagged -> int, s: seq<Tagged>, c: int)
    requires forall k :: 0 <= k < |s| ==> f(s[k]) == c * InFirst(s[k])
    ensures Sum(f, s) == c * Sum(InFirst, s)
  {
    if s != [] {
      SumScaled(f, s[..|s| - 1], c);
      var x := s[|s| - 1];
      assert c * (Sum(InFirst, s[..|s| - 1]) + InFirst(x)) == c * Sum(InFirst, s[..|s| - 1]) + c * InFirst(x);
    }
  }

  lemma GroupRank(tagged: seq<Tagged>, start: nat, end: nat, values: seq<real>)
    requires start < end <= |tagged| && values == Values(tagged) && GroupAt(values, start, end, tagged[start].0)
    ensures Sum(RankOf(values), tagged[..end]) ==
            Sum(RankOf(values), tagged[..start]) + (start + end + 1) * Sum(InFirst, tagged[start..end])
  {
    hide Sum, Score;
    GroupCounts(values, start, end, tagged[start].0);
    var group := tagged[start..end];
    assert tagged[..end] == tagged[..start] + group;
    SumAppend(RankOf(values), tagged[..start], group);
    forall k | 0 <= k < |group| ensures RankOf(values)(group[k]) == (start + end + 1) * InFirst(group[k]) {
      assert group[k].0 == values[start + k];
    }
    SumScaled(RankOf(values), group, start + end + 1);
  }

  lemma GroupTies(values: seq<real>, start: nat, end: nat, a: real)
    requires GroupAt(values, start, end, a)
    ensures Sum(TieOf(values), values[..end]) ==
            Sum(TieOf(values), values[..start]) + (end - start) * ((end - start) * (end - start) - 1)
  {
    hide Sum, Ties;
    GroupCounts(values, start, end, a);
    var same := values[start..end];
    assert values[..end] == values[..start] + same;
    SumAppend(TieOf(values), values[..start], same);
    var t := end - start;
    SumConstant(TieOf(values), same, t * t - 1);
    assert (t * t - 1) * t == t * (t * t - 1);
  }

  // ----- The loop -----

  method TieGroupLoop(tagged: seq<Tagged>) returns (rankSumTwice: int, tieTerm: int)
    requires SortedBy(ByValue, tagged)
    ensures rankSumTwice == Sum(RankOf(Values(tagged)), tagged)
    ensures tieTerm == TieTerm(Values(tagged))
  {
    hide Sum, RankOf, TieOf, ByValue, SortedBy;
    ghost var values := Values(tagged);
    rankSumTwice, tieTerm := 0, 0;
    assert Sum(RankOf(values), []) == 0 && Sum(TieOf(values), []) == 0 by {
      SumNone(RankOf(values));
      SumNone(TieOf(values));
    }
    var start := 0;
    while start < |tagged|
      invariant 0 <= start <= |tagged|
      invariant start < |tagged| ==> forall k :: 0 <= k < start ==> values[k] < values[start]
      invariant rankSumTwice == Sum(RankOf(values), tagged[..start])
      invariant tieTerm == Sum(TieOf(values), values[..start])
    {
      var end := start + 1;
      while end < |tagged| && tagged[end].0 == tagged[start].0
        invariant start < end <= |tagged|
        invariant forall k :: start <= k < end ==> values[k] == values[start]
      {
        end := end + 1;
      }
      RunsApart(tagged, start, end);
      GroupRank(tagged, start, end, values);
      GroupTies(values, start, end, tagged[start].0);
      var doubledRank := start + end + 1;
      rankSumTwice := rankSumTwice + doubledRank * Sum(InFirst, tagged[start..end]);
      var tieCount := end - start;
      tieTerm := tieTerm + (tieCount * tieCount * tieCount - tieCount);
      Cube(tieCount);
      start := end;
    }
    assert tagged[..|tagged|] == tagged && values[..|values|] == values;
  }

  lemma SumNone<T>(f: T -> int)
    ensures Sum(f, []) == 0
  {
  }

  lemma Cube(t: int)
    ensures t * t * t - t == t * (t * t - 1)
  {
  }

  lemma RunsApart(tagged: seq<Tagged>, start: nat, end: nat)
    requires SortedBy(ByValue, tagged) && start < end <= |tagged|
    requires end < |tagged| ==> tagged[end].0 != tagged[start].0
    ensures forall k :: end <= k < |tagged| ==> Values(tagged)[k] > Values(tagged)[start]
  {
    if end < |tagged| {
      assert !ByValue(tagged[end], tagged[start]);
      forall k | end <= k < |tagged| ensures tagged[k].0 > tagged[start].0 {
        if k > end { assert !ByValue(tagged[k], tagged[end]); }
      }
    }
  }

  datatype Statistic = Statistic(uTwice: int, variance: real) | EmptySample

  function Variance(n1: nat, n2: nat, tieTerm: int): real
    requires n1 + n2 >= 2
  {
    var total := n1 + n2;
    ((n1 * n2) as real / 12.0) * ((total + 1) as real - tieTerm as real / (total * (total - 1)) as real)
  }

  /** The statistic: the smaller of the two pairwise counts, and the tie-corrected variance. */
  method MannWhitneyU(first: seq<real>, second: seq<real>) returns (r: Statistic)
    ensures r.EmptySample? <==> first == [] || second == []
    ensures r.Statistic? ==> r.uTwice == Min(Wins(first, second), Wins(second, first))
    ensures r.Statistic? ==> r.variance == Variance(|first|, |second|, TieTerm(first + second))
  {
    if first == [] || second == [] { return EmptySample; }
    var tagged := Sort(ByValue, Pool(first, second));
    SortIsSorted(ByValue, Pool(first, second));
    var rankSumTwice, tieTerm := TieGroupLoop(tagged);
    RankSumIsPairwise(first, second, tagged);
    var n1, n2 := |first|, |second|;
    var uFirst := rankSumTwice - n1 * (n1 + 1);
    var uSecond := 2 * n1 * n2 - uFirst;
    WinsComplement(first, second);
    r := Statistic(if uFirst < uSecond then uFirst else uSecond, Variance(n1, n2, tieTerm));
  }

  lemma {:induction false} RankOfTagged(first: seq<real>, values: seq<real>)
    ensures Sum(RankOf(values), Tag(first, true)) == Wins(first, values) + |first|
    ensures Sum(RankOf(values), Tag(first, false)) == 0
  {
    if first != [] {
      var front, a := first[..|first| - 1], first[|first| - 1];
      assert first == front + [a];
      RankOfTagged(front, values);
      assert Tag(first, true) == Tag(front, true) + [(a, true)];
      assert Tag(first, false) == Tag(front, false) + [(a, false)];
      SumLast(RankOf(values), Tag(front, true), (a, true));
      SumLast(RankOf(values), Tag(front, false), (a, false));
      SumLast(Scorer(values), front, a);
    }
  }

  /** The rank sum is the pairwise count plus what the first sample owes to itself. */
  lemma RankSumIsPairwise(first: seq<real>, second: seq<real>, tagged: seq<Tagged>)
    requires multiset(tagged) == multiset(Pool(first, second))
    ensures Sum(RankOf(Values(tagged)), tagged) == Wins(first, second) + |first| * (|first| + 1)
    ensures TieTerm(Values(tagged)) == TieTerm(first + second)
  {
    var values, pooled := Values(tagged), first + second;
    PoolValues(first, second);
    ValuesPermutation(tagged, Pool(first, second));
    SumPermutation(RankOf(values), tagged, Pool(first, second));
    SumAppend(RankOf(values), Tag(first, true), Tag(second, false));
    RankOfTagged(first, values);
    RankOfTagged(second, values);
    WinsPermutation(first, first, values, pooled);
    WinsAppendRight(first, first, second);
    SelfWins(first);
    TieTermPermutation(values, pooled);
  }

  lemma TieTermPermutation(s: seq<real>, t: seq<real>)
    requires multiset(s) == multiset(t)
    ensures TieTerm(s) == TieTerm(t)
  {
    forall a ensures TieOf(s)(a) == TieOf(t)(a) { SumPermutation(SameAs(a), s, t); }
    SumAgree(TieOf(s), TieOf(t), s);
    SumPermutation(TieOf(t), s, t);
  }

  // ----- What the statistic promises -----

  /** Neither reordering a sample nor swapping the two changes the result. */
  lemma OrderDoesNotMatter(f1: seq<real>, s1: seq<real>, f2: seq<real>, s2: seq<real>)
    requires f1 != [] && s1 != []
    requires (multiset(f1) == multiset(f2) && multiset(s1) == multiset(s2)) ||
             (multiset(f1) == multiset(s2) && multiset(s1) == multiset(f2))
    ensures |f1| + |s1| == |f2| + |s2| >= 2
    ensures Min(Wins(f1, s1), Wins(s1, f1)) == Min(Wins(f2, s2), Wins(s2, f2))
    ensures Variance(|f1|, |s1|, TieTerm(f1 + s1)) == Variance(|f2|, |s2|, TieTerm(f2 + s2))
  {
    hide Variance, Wins, TieTerm;
    if multiset(f1) == multiset(f2) && multiset(s1) == multiset(s2) {
      SameMembers(f1, f2);
      SameMembers(s1, s2);
      WinsPermutation(f1, f2, s1, s2);
      WinsPermutation(s1, s2, f1, f2);
    } else {
      SameMembers(f1, s2);
      SameMembers(s1, f2);
      WinsPermutation(f1, s2, s1, f2);
      WinsPermutation(s1, f2, f1, s2);
      VarianceSwap(|f1|, |s1|, TieTerm(f1 + s1));
    }
    assert multiset(f1 + s1) == multiset(f2 + s2);
    TieTermPermutation(f1 + s1, f2 + s2);
  }

  lemma VarianceSwap(n1: nat, n2: nat, tieTerm: int)
    requires n1 + n2 >= 2
    ensures Variance(n1, n2, tieTerm) == Variance(n2, n1, tieTerm)
  {
    assert n1 * n2 == n2 * n1;
  }

  lemma {:induction false} TiesRange(a: real, values: seq<real>)
    ensures 0 <= Ties(a, values) <= |values|
    ensures Ties(a, values) == |values| <==> forall k :: 0 <= k < |values| ==> values[k] == a
  {
    if values != [] {
      var front := values[..|values| - 1];
      TiesRange(a, front);
      assert values == front + [values[|values| - 1]];
    }
  }

  lemma {:induction false} SumAtMost(f: real -> int, s: seq<real>, c: int)
    requires forall k :: 0 <= k < |s| ==> f(s[k]) <= c
    ensures Sum(f, s) <= c * |s|
    ensures Sum(f, s) == c * |s| <==> forall k :: 0 <= k < |s| ==> f(s[k]) == c
  {
    if s != [] {
      var front := s[..|s| - 1];
      SumAtMost(f, front, c);
      assert c * |s| == c * |front| + c;
      assert s == front + [s[|s| - 1]];
    }
  }

  ghost predicate AllEqual(values: seq<real>) {
    forall i, j :: 0 <= i < j < |values| ==> values[i] == values[j]
  }

  lemma TieShare(values: seq<real>, a: real)
    ensures TieOf(values)(a) <= |values| * |values| - 1
    ensures TieOf(values)(a) == |values| * |values| - 1 <==> forall k :: 0 <= k < |values| ==> values[k] == a
  {
    hide Ties;
    TiesRange(a, values);
    SquareMonotone(Ties(a, values), |values|);
  }

  /** The tie term is largest exactly when every pooled value is the same. */
  lemma TieTermBound(values: seq<real>)
    ensures TieTerm(values) <= (|values| * |values| - 1) * |values|
    ensures TieTerm(values) == (|values| * |values| - 1) * |values| <==> AllEqual(values)
  {
    hide TieOf, Sum;
    var f, c := TieOf(values), |values| * |values| - 1;
    forall k | 0 <= k < |values|
      ensures f(values[k]) <= c
      ensures f(values[k]) == c <==> forall j :: 0 <= j < |values| ==> values[j] == values[k]
    {
      TieShare(values, values[k]);
    }
    SumAtMost(f, values, c);
    if forall k :: 0 <= k < |values| ==> f(values[k]) == c {
      forall i, j | 0 <= i < j < |values| ensures values[i] == values[j] {
        assert f(values[j]) == c;
      }
    }
    if AllEqual(values) {
      forall k | 0 <= k < |values| ensures f(values[k]) == c {
        forall j | 0 <= j < |values| ensures values[j] == values[k] {}
      }
    }
  }

  lemma SquareMonotone(a: int, b: int)
    requires 0 <= a <= b
    ensures a * a <= b * b
    ensures a * a == b * b <==> a == b
  {
    if a < b {
      assert a * a <= a * b;
      assert a * b < b * b;
    }
  }

  /** The tie-corrected variance is never negative, and vanishes exactly when all pooled values are equal. */
  lemma VarianceSign(first: seq<real>, second: seq<real>)
    requires first != [] && second != []
    ensures Variance(|first|, |second|, TieTerm(first + second)) >= 0.0
    ensures Variance(|first|, |second|, TieTerm(first + second)) == 0.0 <==> AllEqual(first + second)
  {
    hide TieTerm, AllEqual;
    var values := first + second;
    TieTermBound(values);
    VarianceOfBound(|first|, |second|, TieTerm(values));
  }

  lemma VarianceOfBound(n1: nat, n2: nat, tie: int)
    requires n1 > 0 && n2 > 0
    requires var n := n1 + n2; tie <= (n * n - 1) * n
    ensures Variance(n1, n2, tie) >= 0.0
    ensures Variance(n1, n2, tie) == 0.0 <==> var n := n1 + n2; tie == (n * n - 1) * n
  {
    hide Variance;
    var n := n1 + n2;
    var d := n * (n - 1);
    Factor(n);
    ShareCompare(tie, n + 1, d);
    VarianceOfShare(n1, n2, tie, d);
  }

  lemma VarianceOfShare(n1: nat, n2: nat, tie: int, d: int)
    requires n1 > 0 && n2 > 0 && d == (n1 + n2) * (n1 + n2 - 1) && d > 0
    ensures Variance(n1, n2, tie) >= 0.0 <==> tie as real / d as real <= (n1 + n2 + 1) as real
    ensures Variance(n1, n2, tie) == 0.0 <==> tie as real / d as real == (n1 + n2 + 1) as real
  {
    ProductPositive(n1, n2);
    var scale, share := (n1 * n2) as real / 12.0, tie as real / d as real;
    var rest := (n1 + n2 + 1) as real - share;
    ProductSign(scale, rest);
  }

  lemma ProductPositive(a: int, b: int)
    requires a > 0 && b > 0
    ensures a * b > 0
  {
  }

  /** Comparing a quotient with an integer is comparing numerators. */
  lemma ShareCompare(tie: int, c: int, d: int)
    requires d > 0
    ensures tie as real / d as real <= c as real <==> tie <= c * d
    ensures tie as real / d as real == c as real <==> tie == c * d
  {
    var share := tie as real / d as real;
    assert share * d as real == tie as real;
    assert c as real * d as real == (c * d) as real;
    RealCompare(share, c as real, d as real);
  }

  lemma Factor(n: int)
    requires n >= 2
    ensures (n * n - 1) * n == (n + 1) * (n * (n - 1)) && n * (n - 1) > 0
  {
  }

  lemma RealCompare(a: real, b: real, d: real)
    requires d > 0.0
    ensures a * d <= b * d <==> a <= b
    ensures a * d == b * d <==> a == b
  {
    assert (b - a) * d == b * d - a * d;
  }

  lemma ProductSign(a: real, b: real)
    requires a > 0.0
    ensures a * b >= 0.0 <==> b >= 0.0
    ensures a * b == 0.0 <==> b == 0.0
  {
  }
}
