/** Micro-aggregation of benchmark metric records. */
module BenchAggregate {
  import opened Ordering
  import opened Rounding

  datatype Exclusion = Exclusion(reason: string, count: nat)

  datatype MetricRecord = MetricRecord(
    metric: string, numerator: nat, denominator: nat, excluded: nat, exclusions: seq<Exclusion>, score: Option<nat>,
        diagnostic: bool)
  {
    /** What the record's constructor insists on. */
    ghost predicate Valid() {
      && numerator <= denominator
      && (forall k :: 0 <= k < |exclusions| ==> exclusions[k].count >= 1)
      && (forall i, j :: 0 <= i < j < |exclusions| ==> StringLess(exclusions[i].reason, exclusions[j].reason))
      && Counts(exclusions) == excluded
      && score == ScoreOf(numerator, denominator)
    }
  }

  function ScoreOf(n: nat, d: nat): Option<nat> {
    if d == 0 then None else Some(BenchScore(n, d))
  }

  function Counts(exclusions: seq<Exclusion>): nat {
    if exclusions == [] then 0 else Counts(exclusions[..|exclusions| - 1]) + exclusions[|exclusions| - 1].count
  }

  /** How many exclusions give one reason. */
  function CountFor(exclusions: seq<Exclusion>, reason: string): nat {
    if exclusions == [] then 0
    else
      var last := exclusions[|exclusions| - 1];
      CountFor(exclusions[..|exclusions| - 1], reason) + (if last.reason == reason then last.count else 0)
  }

  function AllExclusions(records: seq<MetricRecord>): seq<Exclusion> {
    if records == [] then [] else AllExclusions(records[..|records| - 1]) + records[|records| - 1].exclusions
  }

  function Numerators(records: seq<MetricRecord>): nat {
    if records == [] then 0 else Numerators(records[..|records| - 1]) + records[|records| - 1].numerator
  }

  function Denominators(records: seq<MetricRecord>): nat {
    if records == [] then 0 else Denominators(records[..|records| - 1]) + records[|records| - 1].denominator
  }

  function Excluded(records: seq<MetricRecord>): nat {
    if records == [] then 0 else Excluded(records[..|records| - 1]) + records[|records| - 1].excluded
  }

  ghost predicate AllValid(records: seq<MetricRecord>) {
    forall k :: 0 <= k < |records| ==> records[k].Valid()
  }

  // ----- The tally of reasons -----

  /** A dictionary of counts together with its insertion order. */
  datatype Tally = Tally(counts: map<string, nat>, order: seq<string>)

  ghost predicate TallyOf(t: Tally, exclusions: seq<Exclusion>) {
    && NoDuplicates(t.order)
    && (forall r :: r in t.order <==> r in t.counts)
    && (forall r :: (if r in t.counts then t.counts[r] else 0) == CountFor(exclusions, r))
    && (forall r :: r in t.counts ==> t.counts[r] >= 1)
  }

  method TallyReasons(exclusions: seq<Exclusion>) returns (t: Tally)
    requires forall k :: 0 <= k < |exclusions| ==> exclusions[k].count >= 1
    ensures TallyOf(t, exclusions)
  {
    t := Tally(map[], []);
    for i := 0 to |exclusions|
      invariant TallyOf(t, exclusions[..i])
    {
      var e := exclusions[i];
      assert exclusions[..i + 1][..i] == exclusions[..i];
      var before := if e.reason in t.counts then t.counts[e.reason] else 0;
      t := Tally(t.counts[e.reason := before + e.count], if e.reason in t.counts
          then t.order else t.order + [e.reason]);
    }
    assert exclusions[..|exclusions|] == exclusions;
  }

  function Listed(counts: map<string, nat>, reasons: seq<string>): (r: seq<Exclusion>)
    requires forall x :: x in reasons ==> x in counts
    ensures |r| == |reasons|
    ensures forall k :: 0 <= k < |r| ==> r[k] == Exclusion(reasons[k], counts[reasons[k]])
  {
    seq(|reasons|, k requires 0 <= k < |reasons| => Exclusion(reasons[k], counts[reasons[k]]))
  }

  lemma {:induction false} ListedCount(counts: map<string, nat>, reasons: seq<string>, reason: string)
    requires NoDuplicates(reasons) && forall x :: x in reasons ==> x in counts
    ensures CountFor(Listed(counts, reasons), reason) == if reason in reasons then counts[reason] else 0
  {
    if reasons != [] {
      var n := |reasons| - 1;
      assert Listed(counts, reasons)[..n] == Listed(counts, reasons[..n]);
      ListedCount(counts, reasons[..n], reason);
      assert reasons == reasons[..n] + [reasons[n]];
    }
  }

  /** Two lists that agree on every reason's count have the same total. */
  lemma {:induction false} CountsAgree(a: seq<Exclusion>, b: seq<Exclusion>)
    requires forall r :: CountFor(a, r) == CountFor(b, r)
    ensures Counts(a) == Counts(b)
    decreases |a| + |b|
  {
    if a == [] {
      ZeroCounts(b);
    } else {
      var x := a[|a| - 1].reason;
      CountsWithout(a, x);
      CountsWithout(b, x);
      forall r ensures CountFor(Without(a, x), r) == CountFor(Without(b, x), r) {
        WithoutCount(a, x, r);
        WithoutCount(b, x, r);
      }
      CountsAgree(Without(a, x), Without(b, x));
    }
  }

  function Without(s: seq<Exclusion>, reason: string): (r: seq<Exclusion>)
    ensures |r| <= |s|
    ensures s != [] && s[|s| - 1].reason == reason ==> |r| < |s|
  {
    if s == [] then []
    else
      var front := Without(s[..|s| - 1], reason);
      if s[|s| - 1].reason == reason then front else front + [s[|s| - 1]]
  }

  lemma {:induction false} CountsWithout(s: seq<Exclusion>, reason: string)
    ensures Counts(s) == Counts(Without(s, reason)) + CountFor(s, reason)
  {
    if s != [] {
      CountsWithout(s[..|s| - 1], reason);
      var front := Without(s[..|s| - 1], reason);
      assert (front + [s[|s| - 1]])[..|front|] == front;
    }
  }

  lemma {:induction false} WithoutCount(s: seq<Exclusion>, reason: string, r: string)
    ensures CountFor(Without(s, reason), r) == if r == reason then 0 else CountFor(s, r)
  {
    if s != [] {
      WithoutCount(s[..|s| - 1], reason, r);
      var front := Without(s[..|s| - 1], reason);
      assert (front + [s[|s| - 1]])[..|front|] == front;
    }
  }

  lemma {:induction false} ZeroCounts(s: seq<Exclusion>)
    requires forall r :: CountFor(s, r) == 0
    ensures Counts(s) == 0
  {
    if s != [] {
      var front, last := s[..|s| - 1], s[|s| - 1];
      assert CountFor(s, last.reason) == 0;
      forall r ensures CountFor(front, r) == 0 { assert CountFor(s, r) == 0; }
      ZeroCounts(front);
    }
  }

  lemma {:induction false} ExclusionTotals(records: seq<MetricRecord>)
    requires AllValid(records)
    ensures Counts(AllExclusions(records)) == Excluded(records)
  {
    if records != [] {
      hide ScoreOf, StringLess;
      var n := |records| - 1;
      ExclusionTotals(records[..n]);
      CountsAppend(AllExclusions(records[..n]), records[n].exclusions);
      assert records[n].Valid();
    }
  }

  lemma {:induction false} ExclusionsCount(records: seq<MetricRecord>)
    requires AllValid(records)
    ensures forall k :: 0 <= k < |AllExclusions(records)| ==> AllExclusions(records)[k].count >= 1
  {
    if records != [] {
      hide ScoreOf, StringLess, Counts;
      var n := |records| - 1;
      ExclusionsCount(records[..n]);
      assert records[n].Valid();
    }
  }

  lemma {:induction false} PooledProportion(records: seq<MetricRecord>)
    requires AllValid(records)
    ensures Numerators(records) <= Denominators(records)
  {
    if records != [] {
      hide ScoreOf, StringLess, Counts;
      var n := |records| - 1;
      PooledProportion(records[..n]);
      assert records[n].Valid();
    }
  }

  lemma {:induction false} CountsAppend(a: seq<Exclusion>, b: seq<Exclusion>)
    ensures Counts(a + b) == Counts(a) + Counts(b)
    decreases |b|
  {
    if b == [] {
      assert a + b == a;
    } else {
      assert (a + b)[..|a + b| - 1] == a + b[..|b| - 1];
      CountsAppend(a, b[..|b| - 1]);
    }
  }

  lemma SortedReasons(order: seq<string>)
    requires NoDuplicates(order)
    ensures var sorted := Sort(StringLess, order);
            && NoDuplicates(sorted) && (forall r :: r in sorted <==> r in order)
            && forall i, j :: 0 <= i < j < |sorted| ==> StringLess(sorted[i], sorted[j])
  {
    hide StringLess;
    StringOrder();
    TotalIsWeak(StringLess);
    SortIsSorted(StringLess, order);
    SortKeepsDistinct(StringLess, order);
    SameMembers(Sort(StringLess, order), order);
  }

  ghost predicate SortedUnique(exclusions: seq<Exclusion>) {
    && (forall k :: 0 <= k < |exclusions| ==> exclusions[k].count >= 1)
    && (forall i, j :: 0 <= i < j < |exclusions| ==> StringLess(exclusions[i].reason, exclusions[j].reason))
  }

  lemma TallyListed(t: Tally, all: seq<Exclusion>)
    requires TallyOf(t, all)
    ensures forall r :: r in Sort(StringLess, t.order) ==> r in t.counts
  {
    hide StringLess, Sort, CountFor;
    SortedReasons(t.order);
  }

  lemma TallyIsSorted(t: Tally, all: seq<Exclusion>)
    requires TallyOf(t, all) && forall r :: r in Sort(StringLess, t.order) ==> r in t.counts
    ensures SortedUnique(Listed(t.counts, Sort(StringLess, t.order)))
  {
    hide StringLess, Sort, CountFor, Listed;
    SortedReasons(t.order);
    var reasons := Sort(StringLess, t.order);
    forall k | 0 <= k < |reasons| ensures t.counts[reasons[k]] >= 1 { assert reasons[k] in reasons; }
  }

  lemma TallyCounts(t: Tally, all: seq<Exclusion>, reason: string)
    requires TallyOf(t, all) && forall r :: r in Sort(StringLess, t.order) ==> r in t.counts
    ensures CountFor(Listed(t.counts, Sort(StringLess, t.order)), reason) == CountFor(all, reason)
  {
    hide StringLess, Sort, CountFor, Listed;
    SortedReasons(t.order);
    ListedCount(t.counts, Sort(StringLess, t.order), reason);
  }

  /** The exclusions of several records, summed by reason and sorted. */
  method MergeExclusions(all: seq<Exclusion>) returns (merged: seq<Exclusion>)
    requires forall k :: 0 <= k < |all| ==> all[k].count >= 1
    ensures SortedUnique(merged)
    ensures forall reason :: CountFor(merged, reason) == CountFor(all, reason)
  {
    hide StringLess, Sort, CountFor, Listed, TallyOf, SortedUnique;
    var tally := TallyReasons(all);
    TallyListed(tally, all);
    merged := Listed(tally.counts, Sort(StringLess, tally.order));
    TallyIsSorted(tally, all);
    forall reason ensures CountFor(merged, reason) == CountFor(all, reason) { TallyCounts(tally, all, reason); }
  }

  /** Pool one metric's records. The pooled record always satisfies its
      constructor, and neither counts nor any reason's exclusions are lost. */
  method AggregateMetric(metric: string, selected: seq<MetricRecord>) returns (r: MetricRecord)
    requires AllValid(selected)
    ensures r.Valid()
    ensures r.numerator == Numerators(selected) && r.denominator == Denominators(selected) &&
            r.excluded == Excluded(selected)
    ensures forall reason :: CountFor(r.exclusions, reason) == CountFor(AllExclusions(selected), reason)
    ensures r.diagnostic <==> exists k :: 0 <= k < |selected| && selected[k].diagnostic
    ensures r.metric == metric && (r.score == None <==> r.denominator == 0)
  {
    hide StringLess, CountFor, AllValid, BenchScore;
    ExclusionTotals(selected);
    ExclusionsCount(selected);
    PooledProportion(selected);
    var exclusions := MergeExclusions(AllExclusions(selected));
    CountsAgree(exclusions, AllExclusions(selected));
    var diagnostic := exists k :: 0 <= k < |selected| && selected[k].diagnostic;
    r := MetricRecord(metric, Numerators(selected), Denominators(selected), Excluded(selected), exclusions,
                      ScoreOf(Numerators(selected), Denominators(selected)), diagnostic);
  }

  // ----- The pooled score is a mediant -----

  lemma {:induction false} PooledBoundary(records: seq<MetricRecord>, u: int)
    requires forall k :: 0 <= k < |records| ==> u * records[k].denominator <= 20000 * records[k].numerator
    ensures u * Denominators(records) <= 20000 * Numerators(records)
  {
    if records != [] {
      var n := |records| - 1;
      PooledBoundary(records[..n], u);
      Distribute(u, Denominators(records[..n]), records[n].denominator);
    }
  }

  lemma {:induction false} PooledCeiling(records: seq<MetricRecord>, u: int)
    requires forall k :: 0 <= k < |records| ==>
             records[k].denominator == 0 || 20000 * records[k].numerator < u * records[k].denominator
    requires forall k :: 0 <= k < |records| ==> records[k].numerator <= records[k].denominator
    ensures Denominators(records) > 0 ==> 20000 * Numerators(records) < u * Denominators(records)
    ensures Denominators(records) == 0 ==> Numerators(records) == 0
  {
    if records != [] {
      var n := |records| - 1;
      PooledCeiling(records[..n], u);
      Distribute(u, Denominators(records[..n]), records[n].denominator);
    }
  }

  /** Pooling counts never rounds outside the range of the records' exact roundings. */
  lemma PooledRoundingIsBetween(records: seq<MetricRecord>, lo: nat, hi: nat)
    requires AllValid(records) && Denominators(records) > 0
    requires forall k :: 0 <= k < |records| && records[k].denominator > 0 ==>
               lo <= RoundHalfUp(10000 * records[k].numerator, records[k].denominator) <= hi
    ensures lo <= RoundHalfUp(10000 * Numerators(records), Denominators(records)) <= hi
  {
    hide RoundHalfUp;
    forall k | 0 <= k < |records|
      ensures records[k].numerator <= records[k].denominator
      ensures (2 * lo as int - 1) * records[k].denominator <= 20000 * records[k].numerator
      ensures records[k].denominator == 0 || 20000 * records[k].numerator < (2 * hi + 1) * records[k].denominator
    {
      assert records[k].numerator <= records[k].denominator by { assert records[k].Valid(); }
      if records[k].denominator > 0 { ScoreBoundaries(records[k].numerator, records[k].denominator, lo, hi); }
    }
    PooledBoundary(records, 2 * lo as int - 1);
    PooledCeiling(records, 2 * hi + 1);
    BoundariesScore(Numerators(records), Denominators(records), lo, hi);
  }

  lemma ScoreBoundaries(n: nat, d: nat, lo: int, hi: int)
    requires d > 0 && lo <= RoundHalfUp(10000 * n, d) <= hi
    ensures (2 * lo - 1) * d <= 20000 * n < (2 * hi + 1) * d
  {
    hide RoundHalfUp;
    HalfUpBounds(10000 * n, d);
    var h: int := RoundHalfUp(10000 * n, d);
    MulMonotone(2 * lo - 1, 2 * h - 1, d);
    MulMonotone(2 * h + 1, 2 * hi + 1, d);
  }

  lemma BoundariesScore(n: nat, d: nat, lo: int, hi: int)
    requires d > 0 && (2 * lo - 1) * d <= 20000 * n < (2 * hi + 1) * d
    ensures lo <= RoundHalfUp(10000 * n, d) <= hi
  {
    hide RoundHalfUp;
    HalfUpBounds(10000 * n, d);
    var h: int := RoundHalfUp(10000 * n, d);
    if h < lo { MulMonotone(2 * h + 1, 2 * lo - 1, d); }
    if h > hi { MulMonotone(2 * hi + 1, 2 * h - 1, d); }
  }

  // ----- The score the records carry -----

  /** The fraction num/den, if it is one, lies past n/d. */
  predicate Past(n: int, d: int, num: nat, den: nat) { den == 0 || n * den < num * d }

  lemma PastSum(n: int, d: int, num: nat, den: nat, num': nat, den': nat)
    requires Past(n, d, num, den) && Past(n, d, num', den') && num <= den && num' <= den'
    ensures Past(n, d, num + num', den + den')
  {
    Distribute(n, den, den');
    Distribute(d, num, num');
  }

  /** Records all past a fraction pool past it. */
  lemma {:induction false} PooledPast(records: seq<MetricRecord>, n: int, d: int)
    requires forall k :: 0 <= k < |records| ==> records[k].numerator <= records[k].denominator
    requires forall k :: 0 <= k < |records| ==> Past(n, d, records[k].numerator, records[k].denominator)
    ensures Past(n, d, Numerators(records), Denominators(records)) && Numerators(records) <= Denominators(records)
  {
    if records != [] {
      hide Past;
      var i := |records| - 1;
      PooledPast(records[..i], n, d);
      PastSum(n, d, Numerators(records[..i]), Denominators(records[..i]), records[i].numerator, records[i].denominator);
    }
  }

  /** Seen from the other side, not past a fraction is at most that fraction. */
  lemma Sides(n: int, d: int, num: nat, den: nat)
    ensures !Past(n, d, num, den) <==> den > 0 && num * d <= n * den
    ensures !Past(-n, -d, num, den) <==> den > 0 && n * den <= num * d
  {
    NegativeOut(den, n);
    NegativeOut(num, d);
  }

  /** Some record is no larger than the pool, and some no smaller. */
  lemma PoolIsAmong(records: seq<MetricRecord>) returns (low: nat, high: nat)
    requires AllValid(records) && Denominators(records) > 0
    ensures low < |records| && records[low].denominator > 0
    ensures records[low].numerator * Denominators(records) <= Numerators(records) * records[low].denominator
    ensures high < |records| && records[high].denominator > 0
    ensures Numerators(records) * records[high].denominator <= records[high].numerator * Denominators(records)
  {
    hide ScoreOf, Counts, Past;
    var n: int, d: int := Numerators(records), Denominators(records);
    forall k | 0 <= k < |records| ensures records[k].numerator <= records[k].denominator { assert records[k].Valid(); }
    Sides(n, d, n, d);
    assert exists k :: 0 <= k < |records| && !Past(n, d, records[k].numerator, records[k].denominator) by {
      if forall k :: 0 <= k < |records| ==> Past(n, d, records[k].numerator, records[k].denominator) {
        PooledPast(records, n, d);
      }
    }
    low :| 0 <= low < |records| && !Past(n, d, records[low].numerator, records[low].denominator);
    Sides(n, d, records[low].numerator, records[low].denominator);
    assert exists k :: 0 <= k < |records| && !Past(-n, -d, records[k].numerator, records[k].denominator) by {
      if forall k :: 0 <= k < |records| ==> Past(-n, -d, records[k].numerator, records[k].denominator) {
        PooledPast(records, -n, -d);
      }
    }
    high :| 0 <= high < |records| && !Past(-n, -d, records[high].numerator, records[high].denominator);
    Sides(n, d, records[high].numerator, records[high].denominator);
  }

  lemma {:induction false} NumeratorAtMost(records: seq<MetricRecord>, k: nat)
    requires k < |records|
    ensures records[k].numerator <= Numerators(records)
  {
    if k < |records| - 1 { NumeratorAtMost(records[..|records| - 1], k); }
  }

  /** Pooling counts never scores outside the range of the scores of the records pooled. */
  lemma PooledScoreIsBetween(records: seq<MetricRecord>, lo: nat, hi: nat)
    requires AllValid(records) && Denominators(records) > 0 && Numerators(records) < Pow10(28)
    requires forall k :: 0 <= k < |records| && records[k].score.Some? ==> lo <= records[k].score.value <= hi
    ensures ScoreOf(Numerators(records), Denominators(records)).Some?
    ensures lo <= ScoreOf(Numerators(records), Denominators(records)).value <= hi
  {
    hide BenchScore, Pow10;
    var low, high := PoolIsAmong(records);
    assert Numerators(records) <= Denominators(records) by { PooledProportion(records); }
    NumeratorAtMost(records, low);
    NumeratorAtMost(records, high);
    var l, h := records[low], records[high];
    assert l.Valid() && h.Valid();
    BenchScoreMonotone(l.numerator, l.denominator, Numerators(records), Denominators(records));
    BenchScoreMonotone(Numerators(records), Denominators(records), h.numerator, h.denominator);
  }

  /** Beyond that, exactly when: the pooled score is in range if and only if the
      rounded product of the pooled numerator is, by half a unit in the last place. */
  lemma PooledScoreExactly(records: seq<MetricRecord>, lo: nat, hi: nat)
    requires AllValid(records) && Numerators(records) > 0
    ensures 0 < Numerators(records) <= Denominators(records) && Product(Numerators(records)) > 0
    ensures var m, d := Product(Numerators(records)), Denominators(records);
            var grid := Pow10(Scale(m, d, CONTEXT_PRECISION));
            lo <= ScoreOf(Numerators(records), d).value <= hi <==>
            (2 * lo - 1) * grid * d <= 2 * (m * grid) + d < (2 * hi + 1) * grid * d
  {
    hide BenchScore, Pow10, Scale, Product;
    PooledProportion(records);
    BenchScoreReaches(Numerators(records), Denominators(records), lo);
    BenchScoreReaches(Numerators(records), Denominators(records), hi + 1);
  }

  const HALVES: nat := 5_000_000_000_000_000_000_000_000_002

  /** Half a basis point, which rounds up to one. */
  const HALF_POINT := MetricRecord("m", HALVES, 20000 * HALVES, 0, [], Some(1), false)

  lemma HalfPointIsValid()
    ensures HALF_POINT.Valid()
  {
    hide BenchScore, Scale, RoundHalfUp;
    Pow10Values();
    HalfUpUnique(10000 * HALVES, 20000 * HALVES, 1);
    BenchScoreRoundsUpExactly(HALVES, 20000 * HALVES);
  }

  lemma PooledProduct()
    ensures Product(2 * HALVES) == 10000 * Pow10(28)
    ensures Scale(10000 * Pow10(28), 40000 * HALVES, CONTEXT_PRECISION) == 28
  {
    hide Scale, RoundHalfEven, Digits;
    Pow10Values();
    Pow10Sum(28, 4);
    var v := 20000 * HALVES;
    DigitsBound(v);
    var k := Digits(v);
    assert Pow10(33) == 10 * Pow10(32);
    if k < 33 { Pow10Monotone(k, 32); }
    if k > 33 { Pow10Monotone(33, k - 1); }
    Pow10Sum(1, 4);
    NearestIsUnique(v, 100000, Pow10(27));
    var m, d := 10000 * Pow10(28), 40000 * HALVES;
    ScaleReaches(m, d, 28);
    ScaleIsLeast(m, d, 28);
    var s := Scale(m, d, 28);
    if s < 28 { Pow10Monotone(s, 27); }
    if s > 28 { Pow10Monotone(28, s - 1); }
  }

  /** The bound is needed: two records that each score one pool to a score of nought. */
  lemma PooledScoreCanDrop()
    ensures AllValid([HALF_POINT, HALF_POINT]) && HALF_POINT.score == Some(1)
    ensures ScoreOf(Numerators([HALF_POINT, HALF_POINT]), Denominators([HALF_POINT, HALF_POINT])) == Some(0)
  {
    hide BenchScore, Scale, Product;
    HalfPointIsValid();
    var pair := [HALF_POINT, HALF_POINT];
    var one := pair[..1];
    assert one[..0] == [];
    assert Numerators(one) == HALF_POINT.numerator && Denominators(one) == HALF_POINT.denominator;
    assert Numerators(pair) == 2 * HALVES && Denominators(pair) == 40000 * HALVES;
    PooledProduct();
    Pow10Values();
    BenchScoreReaches(2 * HALVES, 40000 * HALVES, 1);
  }
}
