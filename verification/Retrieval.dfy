/** Ranked-retrieval metrics over graded judgments, with discounts as any
    positive non-increasing sequence. */
module Retrieval {
  import opened Ordering

  datatype Identity = Identity(slug: string, commitSha: string, path: string, blobSha: string, startLine: int,
      endLine: int)
  type Judgments = map<Identity, int>

  const CUTOFF: nat := 10

  /** The discounts 1/log2(rank + 1) enter only through these properties. */
  ghost predicate Discounts(d: seq<real>) {
    && |d| == CUTOFF
    && (forall i :: 0 <= i < |d| ==> d[i] > 0.0)
    && (forall i, j :: 0 <= i <= j < |d| ==> d[j] <= d[i])
  }

  function Grade(judgments: Judgments, id: Identity): int {
    if id in judgments then judgments[id] else 0
  }

  function Gains(ranking: seq<Identity>, judgments: Judgments): (g: seq<int>)
    ensures |g| == |ranking|
    ensures forall k :: 0 <= k < |g| ==> g[k] == Grade(judgments, ranking[k])
  {
    seq(|ranking|, k requires 0 <= k < |ranking| => Grade(judgments, ranking[k]))
  }

  /** The longest part of the ranking from its head that has at most ten results. */
  function Top(ranking: seq<Identity>): (t: seq<Identity>)
    ensures t <= ranking && |t| == Min(|ranking|, 10)
  {
    if |ranking| <= CUTOFF then ranking else ranking[..CUTOFF]
  }

  /** Judged identities of at least a grade. */
  function AtLeast(judgments: Judgments, grade: int): set<Identity> {
    set id | id in judgments && judgments[id] >= grade
  }

  function Repeat(x: int, n: nat): (s: seq<int>)
    ensures |s| == n && forall k :: 0 <= k < n ==> s[k] == x
  {
    if n == 0 then [] else [x] + Repeat(x, n - 1)
  }

  /** All judged grades in descending order. */
  function IdealOrder(judgments: Judgments): seq<int> {
    var two, one, all := |AtLeast(judgments, 2)|, |AtLeast(judgments, 1)|, |AtLeast(judgments, 0)|;
    Repeat(2, two) + Repeat(1, if one >= two then one - two else 0) + Repeat(0, if all >= one then all - one else 0)
  }

  function IdealGains(judgments: Judgments): seq<int> {
    var sorted := IdealOrder(judgments);
    if |sorted| <= CUTOFF then sorted else sorted[..CUTOFF]
  }

  lemma {:induction false} RepeatCounts(x: int, n: nat, g: int)
    ensures multiset(Repeat(x, n))[g] == if g == x then n else 0
  {
    if n > 0 { RepeatCounts(x, n - 1, g); }
  }

  function Judged(
      judgments: Judgments, grade: int): set<Identity> { set id | id in judgments && judgments[id] == grade }

  lemma GradeSplits(judgments: Judgments, grade: int)
    ensures |AtLeast(judgments, grade)| == |Judged(judgments, grade)| + |AtLeast(judgments, grade + 1)|
  {
    assert AtLeast(judgments, grade) == Judged(judgments, grade) + AtLeast(judgments, grade + 1);
  }

  lemma IdealByGrade(judgments: Judgments)
    requires Graded(judgments)
    ensures IdealOrder(judgments) ==
            Repeat(2, |Judged(judgments, 2)|) + Repeat(1, |Judged(judgments, 1)|) + Repeat(0, |Judged(judgments, 0)|)
  {
    hide Repeat, Judged;
    GradeSplits(judgments, 0);
    GradeSplits(judgments, 1);
    GradeSplits(judgments, 2);
    assert AtLeast(judgments, 3) == {};
  }

  lemma NeverJudged(judgments: Judgments, grade: int)
    requires Graded(judgments) && (grade < 0 || grade > 2)
    ensures Judged(judgments, grade) == {}
  {
  }

  /** The ideal order holds each judged grade as often as it was judged. */
  lemma IdealCounts(judgments: Judgments, grade: int)
    requires Graded(judgments)
    ensures multiset(IdealOrder(judgments))[grade] == |Judged(judgments, grade)|
  {
    hide Repeat, Judged, IdealOrder, Graded;
    IdealByGrade(judgments);
    if grade < 0 || grade > 2 { NeverJudged(judgments, grade); }
    RepeatCounts(2, |Judged(judgments, 2)|, grade);
    RepeatCounts(1, |Judged(judgments, 1)|, grade);
    RepeatCounts(0, |Judged(judgments, 0)|, grade);
  }

  /** Highest grades come first. */
  lemma IdealDescends(judgments: Judgments, i: nat, j: nat)
    requires i < j < |IdealOrder(judgments)|
    ensures IdealOrder(judgments)[j] <= IdealOrder(judgments)[i]
  {
    hide Repeat, AtLeast;
  }

  /** The ideal gains are its first ten, or all. */
  lemma IdealIsCut(judgments: Judgments)
    ensures IdealGains(judgments) <= IdealOrder(judgments)
    ensures |IdealGains(judgments)| == Min(|IdealOrder(judgments)|, 10)
  {
    hide IdealOrder;
  }

  /** Discounted cumulative gain. */
  function Dcg(gains: seq<int>, d: seq<real>): real
    requires |gains| <= |d|
  {
    if gains == [] then 0.0 else Dcg(gains[..|gains| - 1], d) + gains[|gains| - 1] as real * d[|gains| - 1]
  }

  lemma {:induction false} DcgOfNothing(gains: seq<int>, d: seq<real>)
    requires |gains| <= |d| && forall k :: 0 <= k < |gains| ==> gains[k] == 0
    ensures Dcg(gains, d) == 0.0
  {
    if gains != [] { DcgOfNothing(gains[..|gains| - 1], d); }
  }

  /** Each rank counts for its gain times its own discount: raising one gain raises the whole by so much. */
  lemma {:induction false} DcgByRank(gains: seq<int>, d: seq<real>, k: nat, gain: int)
    requires k < |gains| <= |d|
    ensures Dcg(gains[k := gain], d) == Dcg(gains, d) + (gain - gains[k]) as real * d[k]
  {
    var n := |gains| - 1;
    if k < n {
      DcgByRank(gains[..n], d, k, gain);
      assert gains[k := gain][..n] == gains[..n][k := gain];
    } else {
      assert gains[k := gain][..n] == gains[..n];
      assert (gain - gains[k]) as real * d[k] == gain as real * d[k] - gains[k] as real * d[k];
    }
  }

  // ----- Level sets: a gain of g is one unit at each level up to g -----

  function LevelSum(gains: seq<int>, level: int, d: seq<real>): real
    requires |gains| <= |d|
  {
    if gains == [] then 0.0
    else LevelSum(gains[..|gains| - 1], level, d) + (if gains[|gains| - 1] >= level then d[|gains| - 1] else 0.0)
  }

  function LevelCount(gains: seq<int>, level: int): (n: nat)
    ensures n <= |gains|
  {
    if gains == [] then 0 else LevelCount(gains[..|gains| - 1], level) + (if gains[|gains| - 1] >= level then 1 else 0)
  }

  function Prefix(d: seq<real>, n: nat): real
    requires n <= |d|
  {
    if n == 0 then 0.0 else Prefix(d, n - 1) + d[n - 1]
  }

  lemma {:induction false} DcgByLevels(gains: seq<int>, d: seq<real>)
    requires |gains| <= |d| && forall k :: 0 <= k < |gains| ==> 0 <= gains[k] <= 2
    ensures Dcg(gains, d) == LevelSum(gains, 1, d) + LevelSum(gains, 2, d)
  {
    if gains != [] { DcgByLevels(gains[..|gains| - 1], d); }
  }

  /** Rearrangement: a level's discounts sum to at most the first ones. */
  lemma {:induction false} LevelAtMostPrefix(gains: seq<int>, level: int, d: seq<real>)
    requires Discounts(d) && |gains| <= |d|
    ensures LevelSum(gains, level, d) <= Prefix(d, LevelCount(gains, level))
  {
    if gains != [] {
      var front := gains[..|gains| - 1];
      LevelAtMostPrefix(front, level, d);
      assert d[|front|] <= d[LevelCount(front, level)];
    }
  }

  lemma {:induction false} PrefixMonotone(d: seq<real>, m: nat, n: nat)
    requires Discounts(d) && m <= n <= |d|
    ensures Prefix(d, m) <= Prefix(d, n)
    decreases n - m
  {
    if m < n { PrefixMonotone(d, m, n - 1); }
  }

  /** When a level is reached exactly by the first m places, its sum is the prefix. */
  lemma {:induction false} LevelIsPrefix(gains: seq<int>, level: int, d: seq<real>, m: nat)
    requires |gains| <= |d| && forall k :: 0 <= k < |gains| ==> (gains[k] >= level <==> k < m)
    ensures LevelSum(gains, level, d) == Prefix(d, if m < |gains| then m else |gains|)
  {
    if gains != [] { LevelIsPrefix(gains[..|gains| - 1], level, d, m); }
  }

  lemma IdealLevels(judgments: Judgments, level: int)
    requires 1 <= level <= 2
    ensures var m, ideal := |AtLeast(judgments, level)|, IdealGains(judgments);
            && |ideal| <= CUTOFF && (forall k :: 0 <= k < |ideal| ==> 0 <= ideal[k] <= 2)
            && (forall k :: 0 <= k < |ideal| ==> (ideal[k] >= level <==> k < m))
            && (if m < CUTOFF then m else CUTOFF) <= |ideal|
  {
    SubsetSize(AtLeast(judgments, 2), AtLeast(judgments, 1));
    SubsetSize(AtLeast(judgments, 1), AtLeast(judgments, 0));
  }

  function HitSet(ranking: seq<Identity>, judgments: Judgments, level: int): set<Identity> {
    if ranking == [] then {}
    else
      var last := ranking[|ranking| - 1];
      HitSet(ranking[..|ranking| - 1], judgments, level) + (if Grade(judgments, last) >= level then {last} else {})
  }

  lemma {:induction false} HitSetMembers(ranking: seq<Identity>, judgments: Judgments, level: int, id: Identity)
    requires id in HitSet(ranking, judgments, level)
    ensures id in ranking && Grade(judgments, id) >= level
  {
    var n := |ranking| - 1;
    if id in HitSet(ranking[..n], judgments, level) { HitSetMembers(ranking[..n], judgments, level, id); }
  }

  lemma CountLast(ranking: seq<Identity>, judgments: Judgments, level: int)
    requires ranking != []
    ensures var n := |ranking| - 1;
            LevelCount(Gains(ranking, judgments), level)
            == LevelCount(Gains(ranking[..n], judgments), level) +
                (if Grade(judgments, ranking[n]) >= level then 1 else 0)
  {
    assert Gains(ranking, judgments)[..|ranking| - 1] == Gains(ranking[..|ranking| - 1], judgments);
  }

  lemma {:induction false} HitsAreDistinct(ranking: seq<Identity>, judgments: Judgments, level: int)
    requires NoDuplicates(ranking)
    ensures LevelCount(Gains(ranking, judgments), level) == |HitSet(ranking, judgments, level)|
  {
    hide Gains, LevelCount, Grade;
    if ranking == [] {
      assert LevelCount(Gains(ranking, judgments), level) == 0;
    } else {
      var n := |ranking| - 1;
      HitsAreDistinct(ranking[..n], judgments, level);
      CountLast(ranking, judgments, level);
      var hits := HitSet(ranking[..n], judgments, level);
      if ranking[n] in hits { HitSetMembers(ranking[..n], judgments, level, ranking[n]); }
      assert |hits + {ranking[n]}| == |hits| + 1;
    }
  }

  /** A duplicate-free ranking hits no more of a level than was judged there. */
  lemma HitsAtMostJudged(ranking: seq<Identity>, judgments: Judgments, level: int)
    requires NoDuplicates(ranking) && level >= 1
    ensures LevelCount(Gains(ranking, judgments), level) <= |AtLeast(judgments, level)|
  {
    HitsAreDistinct(ranking, judgments, level);
    forall id | id in HitSet(ranking, judgments, level) ensures id in AtLeast(judgments, level) {
      HitSetMembers(ranking, judgments, level, id);
    }
    SubsetSize(HitSet(ranking, judgments, level), AtLeast(judgments, level));
  }

  ghost predicate Graded(judgments: Judgments) {
    forall id :: id in judgments ==> 0 <= judgments[id] <= 2
  }

  lemma LevelOrdered(ranking: seq<Identity>, judgments: Judgments, d: seq<real>, level: int)
    requires Discounts(d) && NoDuplicates(ranking) && |ranking| <= CUTOFF && 1 <= level <= 2
    ensures |IdealGains(judgments)| <= |d|
    ensures LevelSum(Gains(ranking, judgments), level, d) <= LevelSum(IdealGains(judgments), level, d)
  {
    hide IdealGains, AtLeast, LevelSum, Prefix;
    var gains, ideal := Gains(ranking, judgments), IdealGains(judgments);
    var m := |AtLeast(judgments, level)|;
    IdealLevels(judgments, level);
    LevelAtMostPrefix(gains, level, d);
    HitsAtMostJudged(ranking, judgments, level);
    LevelIsPrefix(ideal, level, d, m);
    PrefixMonotone(d, LevelCount(gains, level), if m < |ideal| then m else |ideal|);
  }

  /** No duplicate-free ranking gains more than the ideal order of the judged grades. */
  lemma DcgAtMostIdeal(ranking: seq<Identity>, judgments: Judgments, d: seq<real>)
    requires Discounts(d) && NoDuplicates(ranking) && |ranking| <= CUTOFF && Graded(judgments)
    ensures |IdealGains(judgments)| <= |d|
    ensures 0.0 <= Dcg(Gains(ranking, judgments), d) <= Dcg(IdealGains(judgments), d)
  {
    hide IdealGains, AtLeast;
    LevelOrdered(ranking, judgments, d, 1);
    LevelOrdered(ranking, judgments, d, 2);
    IdealLevels(judgments, 1);
    DcgByLevels(Gains(ranking, judgments), d);
    DcgByLevels(IdealGains(judgments), d);
    LevelSumPositive(Gains(ranking, judgments), 1, d);
    LevelSumPositive(Gains(ranking, judgments), 2, d);
  }

  lemma {:induction false} LevelSumPositive(gains: seq<int>, level: int, d: seq<real>)
    requires Discounts(d) && |gains| <= |d|
    ensures LevelSum(gains, level, d) >= 0.0
    ensures LevelCount(gains, level) > 0 ==> LevelSum(gains, level, d) > 0.0
  {
    if gains != [] { LevelSumPositive(gains[..|gains| - 1], level, d); }
  }

  /** A task with an exact target has a positive ideal gain to normalize by. */
  lemma IdealIsPositive(judgments: Judgments, d: seq<real>)
    requires Discounts(d) && Graded(judgments) && AtLeast(judgments, 2) != {}
    ensures |IdealGains(judgments)| <= |d| && Dcg(IdealGains(judgments), d) > 0.0
  {
    hide IdealGains, AtLeast;
    var ideal := IdealGains(judgments);
    IdealLevels(judgments, 1);
    IdealLevels(judgments, 2);
    DcgByLevels(ideal, d);
    LevelIsPrefix(ideal, 2, d, |AtLeast(judgments, 2)|);
    LevelSumPositive(ideal, 1, d);
    PrefixMonotone(d, 1, if |AtLeast(judgments, 2)| < |ideal| then |AtLeast(judgments, 2)| else |ideal|);
    assert Prefix(d, 1) == d[0] by { assert Prefix(d, 0) == 0.0; }
  }

  // ----- The metrics -----

  datatype Metrics = Metrics(
    ndcg: real, reciprocalRank: real, successAt1: real, successAt5: real, successAt10: real, recall: real,
    precisionAt5: Option<real>, precisionAt10: Option<real>, averagePrecision: Option<real>)
  {
    /** The constructor's test: every value on the unit interval. */
    predicate Valid() {
      && 0.0 <= ndcg <= 1.0 && 0.0 <= reciprocalRank <= 1.0
      && 0.0 <= successAt1 <= 1.0 && 0.0 <= successAt5 <= 1.0 && 0.0 <= successAt10 <= 1.0 && 0.0 <= recall <= 1.0
      && (precisionAt5.Some? ==> 0.0 <= precisionAt5.value <= 1.0)
      && (precisionAt10.Some? ==> 0.0 <= precisionAt10.value <= 1.0)
      && (averagePrecision.Some? ==> 0.0 <= averagePrecision.value <= 1.0)
    }
  }

  datatype Outcome = Computed(metrics: Metrics) | DuplicateResults | BadGrade | NoTarget

  /** The rank, from one, of the first exact target. */
  function ExactRank(gains: seq<int>): (r: Option<nat>)
    ensures r.Some? ==> 1 <= r.value <= |gains| && gains[r.value - 1] == 2 && forall k :: 0 <= k < r.value - 1 ==>
            gains[k] != 2
    ensures r.None? ==> forall k :: 0 <= k < |gains| ==> gains[k] != 2
  {
    if gains == [] then None
    else if gains[0] == 2 then Some(1)
    else
      var rest := ExactRank(gains[1..]);
      if rest.None? then None else Some(rest.value + 1)
  }

  /** The sum over useful ranks of the precision there. */
  function PrecisionSum(gains: seq<int>): real {
    if gains == [] then 0.0
    else
      PrecisionSum(gains[..|gains| - 1]) +
      (if gains[|gains| - 1] >= 1 then LevelCount(gains, 1) as real / |gains| as real else 0.0)
  }

  /** The useful results among the first `n`. */
  function Useful(gains: seq<int>, n: nat): set<nat> { set k: nat | k < n && k < |gains| && gains[k] >= 1 }

  /** Over the first `n` ranks, the share of useful results down to each useful one. */
  function PrecisionsUpTo(gains: seq<int>, n: nat): real
    requires n <= |gains|
  {
    if n == 0 then 0.0
    else
      PrecisionsUpTo(gains, n - 1) +
      (if n - 1 in Useful(gains, n) then |Useful(gains, n)| as real / n as real else 0.0)
  }

  lemma UsefulGrows(gains: seq<int>, n: nat)
    requires n < |gains|
    ensures |Useful(gains, n + 1)| == |Useful(gains, n)| + if gains[n] >= 1 then 1 else 0
  {
    assert Useful(gains, n + 1) == Useful(gains, n) + if gains[n] >= 1 then {n} else {};
  }

  lemma {:induction false} CountIsUseful(gains: seq<int>, n: nat)
    requires n <= |gains|
    ensures LevelCount(gains[..n], 1) == |Useful(gains, n)|
    ensures PrecisionSum(gains[..n]) == PrecisionsUpTo(gains, n)
  {
    if n == 0 {
      assert Useful(gains, 0) == {};
    } else {
      CountIsUseful(gains, n - 1);
      UsefulGrows(gains, n - 1);
      assert gains[..n][..n - 1] == gains[..n - 1];
    }
  }

  /** What the loops count and sum is the number of useful ranks, and the sum of the precisions at them. */
  lemma PrecisionsByRank(gains: seq<int>)
    ensures LevelCount(gains, 1) == |Useful(gains, |gains|)|
    ensures LevelCount(gains[..Min(5, |gains|)], 1) == |Useful(gains, 5)|
    ensures PrecisionSum(gains) == PrecisionsUpTo(gains, |gains|)
  {
    hide LevelCount, PrecisionSum, PrecisionsUpTo;
    assert gains[..|gains|] == gains;
    CountIsUseful(gains, |gains|);
    CountIsUseful(gains, Min(5, |gains|));
    assert Useful(gains, Min(5, |gains|)) == Useful(gains, 5);
  }

  method SumPrecisions(gains: seq<int>) returns (precisionSum: real)
    ensures precisionSum == PrecisionSum(gains)
    ensures 0.0 <= precisionSum <= LevelCount(gains, 1) as real
  {
    var hits := 0;
    precisionSum := 0.0;
    for i := 0 to |gains|
      invariant hits == LevelCount(gains[..i], 1)
      invariant precisionSum == PrecisionSum(gains[..i])
      invariant 0.0 <= precisionSum <= hits as real
    {
      assert gains[..i + 1][..i] == gains[..i];
      if gains[i] >= 1 {
        hits := hits + 1;
        var rank := i + 1;
        assert 0.0 <= hits as real / rank as real <= 1.0 by { UnitRatio(hits, rank); }
        precisionSum := precisionSum + hits as real / rank as real;
      }
    }
    assert gains[..|gains|] == gains;
  }

  lemma UnitRatio(n: int, d: int)
    requires 0 <= n <= d && d > 0
    ensures 0.0 <= n as real / d as real <= 1.0
  {
  }

  lemma UnitReal(a: real, b: real)
    requires 0.0 <= a <= b && b > 0.0
    ensures 0.0 <= a / b <= 1.0 && (a / b) * b == a
  {
  }

  function Flag(b: bool): real { if b then 1.0 else 0.0 }

  /** The precision metrics of a completely judged task. */
  method Precisions(gains: seq<int>, useful: nat) returns (at5: real, at10: real, average: real)
    requires |gains| <= CUTOFF && LevelCount(gains, 1) <= useful && useful >= 1
    ensures 0.0 <= at5 <= 1.0 && 0.0 <= at10 <= 1.0 && 0.0 <= average <= 1.0
    ensures at5 * 5.0 == |Useful(gains, 5)| as real
    ensures at10 * 10.0 == |Useful(gains, |gains|)| as real
    ensures average * Min(useful, 10) as real == PrecisionsUpTo(gains, |gains|)
  {
    hide LevelCount, PrecisionSum, Useful, PrecisionsUpTo;
    PrecisionsByRank(gains);
    at5 := LevelCount(gains[..Min(5, |gains|)], 1) as real / 5.0;
    at10 := LevelCount(gains, 1) as real / 10.0;
    var precisionSum := SumPrecisions(gains);
    var bound := Min(useful, CUTOFF) as real;
    UnitReal(precisionSum, bound);
    average := precisionSum / bound;
  }

  /** An exact target is among the first `n` results. */
  ghost predicate TargetWithin(gains: seq<int>, n: nat) { exists k :: 0 <= k < |gains| && k < n && gains[k] == 2 }

  /** The first exact target is at index `k`. */
  ghost predicate FirstTarget(gains: seq<int>, k: nat) {
    k < |gains| && gains[k] == 2 && forall j :: 0 <= j < k ==> gains[j] != 2
  }

  /** The rank metrics: successes say whether a target is near enough the top, and the
      reciprocal rank where the first one is. */
  ghost predicate RankedAs(gains: seq<int>, reciprocal: real, at1: real, at5: real, at10: real) {
    && at1 == (if TargetWithin(gains, 1) then 1.0 else 0.0)
    && at5 == (if TargetWithin(gains, 5) then 1.0 else 0.0)
    && at10 == (if TargetWithin(gains, CUTOFF) then 1.0 else 0.0)
    && (!TargetWithin(gains, CUTOFF) ==> reciprocal == 0.0)
    && (forall k: nat :: FirstTarget(gains, k) ==> reciprocal * (k + 1) as real == 1.0)
  }

  method RankMetrics(gains: seq<int>) returns (reciprocal: real, at1: real, at5: real, at10: real)
    requires |gains| <= CUTOFF
    ensures 0.0 <= reciprocal <= 1.0 && 0.0 <= at1 <= at5 <= at10 <= 1.0
    ensures RankedAs(gains, reciprocal, at1, at5, at10)
  {
    var exactRank := ExactRank(gains);
    reciprocal := if exactRank.None? then 0.0 else 1.0 / exactRank.value as real;
    if exactRank.Some? { assert FirstTarget(gains, exactRank.value - 1); }
    at1, at5, at10 := Flag(exactRank == Some(1)), Flag(exactRank.Some? && exactRank.value <= 5), Flag(exactRank.Some?);
  }

  /** What the computed metrics are, relative to the judged ideal. */
  ghost predicate MetricsOf(m: Metrics, gains: seq<int>, judgments: Judgments, complete: bool, d: seq<real>) {
    && |gains| <= |d| && |IdealGains(judgments)| <= |d| && m.ndcg * Dcg(IdealGains(judgments), d) == Dcg(gains, d)
    && m.successAt1 <= m.successAt5 <= m.successAt10
    && RankedAs(gains, m.reciprocalRank, m.successAt1, m.successAt5, m.successAt10)
    && m.recall * |AtLeast(judgments, 1)| as real == |Useful(gains, |gains|)| as real
    && (if complete then
          && m.precisionAt5.Some? && m.precisionAt5.value * 5.0 == |Useful(gains, 5)| as real
          && m.precisionAt10.Some? && m.precisionAt10.value * 10.0 == |Useful(gains, |gains|)| as real
          && m.averagePrecision.Some?
          && m.averagePrecision.value * Min(|AtLeast(judgments, 1)|, 10) as real == PrecisionsUpTo(gains, |gains|)
        else m.precisionAt5.None? && m.precisionAt10.None? && m.averagePrecision.None?)
  }

  /** Normalized gain and recall: ratios to what was judged. */
  method GainMetrics(top: seq<Identity>, judgments: Judgments, d: seq<real>) returns (ndcg: real, recall: real)
    requires Discounts(d) && NoDuplicates(top) && |top| <= CUTOFF && Graded(judgments) && AtLeast(judgments, 2) != {}
    ensures 0.0 <= ndcg <= 1.0 && 0.0 <= recall <= 1.0
    ensures |IdealGains(judgments)| <= |d| && ndcg * Dcg(IdealGains(judgments), d) == Dcg(Gains(top, judgments), d)
    ensures recall * |AtLeast(judgments, 1)| as real == |Useful(Gains(top, judgments), |top|)| as real
    ensures LevelCount(Gains(top, judgments), 1) <= |AtLeast(judgments, 1)| && |AtLeast(judgments, 1)| >= 1
  {
    hide IdealGains, Dcg, AtLeast, LevelCount, Useful;
    var gains := Gains(top, judgments);
    PrecisionsByRank(gains);
    DcgAtMostIdeal(top, judgments, d);
    IdealIsPositive(judgments, d);
    UnitReal(Dcg(gains, d), Dcg(IdealGains(judgments), d));
    ndcg := Dcg(gains, d) / Dcg(IdealGains(judgments), d);
    UsefulExists(judgments);
    HitsAtMostJudged(top, judgments, 1);
    UnitReal(LevelCount(gains, 1) as real, |AtLeast(judgments, 1)| as real);
    recall := LevelCount(gains, 1) as real / |AtLeast(judgments, 1)| as real;
  }

  /** The kernel on well-formed input. */
  method Kernel(top: seq<Identity>, judgments: Judgments, complete: bool, d: seq<real>) returns (m: Metrics)
    requires Discounts(d) && NoDuplicates(top) && |top| <= CUTOFF && Graded(judgments) && AtLeast(judgments, 2) != {}
    ensures m.Valid() && MetricsOf(m, Gains(top, judgments), judgments, complete, d)
  {
    hide IdealGains, Dcg, AtLeast, LevelCount, PrecisionSum, RankedAs, PrecisionsUpTo, Useful;
    var gains := Gains(top, judgments);
    var ndcg, recall := GainMetrics(top, judgments, d);
    var reciprocal, at1, at5, at10 := RankMetrics(gains);
    m := Metrics(ndcg, reciprocal, at1, at5, at10, recall, None, None, None);
    if complete {
      var p5, p10, average := Precisions(gains, |AtLeast(judgments, 1)|);
      m := m.(precisionAt5 := Some(p5), precisionAt10 := Some(p10), averagePrecision := Some(average));
    }
  }

  /** Compute the metrics of one task. Malformed input gets its error; for
      everything else the metrics constructor cannot refuse. */
  method ComputeMetrics(ranking: seq<Identity>, judgments: Judgments, complete: bool, d: seq<real>) returns (r: Outcome)
    requires Discounts(d)
    ensures r.DuplicateResults? <==> !NoDuplicates(ranking)
    ensures r.BadGrade? <==> NoDuplicates(ranking) && !Graded(judgments)
    ensures r.NoTarget? <==> NoDuplicates(ranking) && Graded(judgments) && AtLeast(judgments, 2) == {}
    ensures r.Computed? ==>
            r.metrics.Valid() && MetricsOf(r.metrics, Gains(Top(ranking), judgments), judgments, complete, d)
  {
    hide MetricsOf, AtLeast, Gains;
    if exists i, j :: 0 <= i < j < |ranking| && ranking[i] == ranking[j] { return DuplicateResults; }
    if exists id :: id in judgments && !(0 <= judgments[id] <= 2) { return BadGrade; }
    if AtLeast(judgments, 2) == {} { return NoTarget; }
    var m := Kernel(Top(ranking), judgments, complete, d);
    return Computed(m);
  }

  lemma UsefulExists(judgments: Judgments)
    requires AtLeast(judgments, 2) != {}
    ensures |AtLeast(judgments, 1)| >= 1
  {
    assert AtLeast(judgments, 2) <= AtLeast(judgments, 1);
    SubsetSize(AtLeast(judgments, 2), AtLeast(judgments, 1));
  }
}
