/** Two-level weighted scores with bounds over unresolved evidence. */
module Scoring {
  import opened Ordering
  import opened Rounding

  const FULL: nat := 10000

  datatype CheckStatus = Pass | Fail | Unknown | Error | NotApplicable | Skipped {
    predicate Known() { Pass? || Fail? }
    predicate Unresolved() { Unknown? || Error? || Skipped? }
  }

  datatype CheckMode = Required | Advisory

  datatype Check = Check(
    id: string, dimension: string, mode: CheckMode, status: CheckStatus, score: Option<nat>, weight: nat,
    scoreEligible: bool, reasonCode: string, missing: bool)
  {
    /** What the record's constructor admits. */
    predicate Valid() {
      && weight > 0
      && (status.Known() <==> score.Some?)
      && (score.Some? ==> score.value <= FULL)
    }

    predicate Eligible() { scoreEligible && !status.NotApplicable? }
    predicate Counted() { Eligible() && status.Known() }
  }

  ghost predicate AllValid(checks: seq<Check>) {
    forall k :: 0 <= k < |checks| ==> checks[k].Valid()
  }

  datatype Aggregate = Aggregate(
    score: Option<nat>, observed: Option<nat>, lower: Option<nat>, upper: Option<nat>, included: nat, eligible: nat)

  // ----- Weighted averages -----

  function WeightedTotal(values: seq<(nat, nat)>): nat {
    if values == [] then 0 else WeightedTotal(values[..|values| - 1]) + values[|values| - 1].0 * values[|values| - 1].1
  }

  function TotalWeight(values: seq<(nat, nat)>): nat {
    if values == [] then 0 else TotalWeight(values[..|values| - 1]) + values[|values| - 1].1
  }

  datatype ScoreResult = Score(bps: nat) | InvalidScore | InvalidWeight | NoValues

  /** The positive-weighted basis-point score: the exact half-up rounding of the weighted mean. */
  method WeightedScore(values: seq<(nat, nat)>) returns (r: ScoreResult)
    ensures r.Score? <==> values != [] && forall k :: 0 <= k < |values| ==> values[k].0 <= FULL && values[k].1 > 0
    ensures r.Score? ==>
            TotalWeight(values) > 0 && r.bps == RoundHalfUp(WeightedTotal(values), TotalWeight(values)) <= FULL
  {
    var weighted, total := 0, 0;
    for i := 0 to |values|
      invariant weighted == WeightedTotal(values[..i]) && total == TotalWeight(values[..i])
      invariant forall k :: 0 <= k < i ==> values[k].0 <= FULL && values[k].1 > 0
      invariant weighted <= FULL * total && (i > 0 ==> total > 0)
    {
      var (score, weight) := values[i];
      if score > FULL { return InvalidScore; }
      if weight <= 0 { return InvalidWeight; }
      assert values[..i + 1][..i] == values[..i];
      assert score * weight <= FULL * weight by { MulMonotone(score, FULL, weight); }
      weighted := weighted + score * weight;
      total := total + weight;
    }
    assert values[..|values|] == values;
    if values == [] { return NoValues; }
    RoundHalfUpFractionIsExact(weighted, total);
    RatioAtMost(weighted, total);
    r := Score(RoundHalfUpFraction(weighted, total));
  }

  lemma RoundMonotone(n1: nat, d1: nat, n2: nat, d2: nat)
    requires d1 > 0 && d2 > 0 && n1 * d2 <= n2 * d1
    ensures RoundHalfUp(n1, d1) <= RoundHalfUp(n2, d2)
  {
    hide RoundHalfUp;
    var a: int, b: int := RoundHalfUp(n1, d1), RoundHalfUp(n2, d2);
    HalfUpBounds(n1, d1);
    HalfUpBounds(n2, d2);
    if a > b {
      MulMonotone(2 * b + 1, 2 * a - 1, d1);
      BoundaryCrossed(n1, d1, n2, d2, 2 * b + 1);
    }
  }

  /** No boundary separates a fraction from a larger one the wrong way round. */
  lemma BoundaryCrossed(n1: nat, d1: nat, n2: nat, d2: nat, u: int)
    requires d1 > 0 && d2 > 0 && n1 * d2 <= n2 * d1
    requires u * d1 <= 2 * n1
    ensures u * d2 <= 2 * n2
  {
    MulMonotone(u * d1, 2 * n1, d2);
    assert 2 * n1 * d2 == 2 * (n1 * d2);
    assert u * d1 * d2 == u * d2 * d1;
    if u * d2 > 2 * n2 { MulMonotone(2 * n2 + 1, u * d2, d1); }
  }

  lemma RatioAtMost(n: nat, d: nat)
    requires d > 0 && n <= FULL * d
    ensures RoundHalfUp(n, d) <= FULL
  {
    RoundMonotone(n, d, FULL, 1);
    HalfUpUnique(FULL, 1, FULL);
  }

  /** Spreading a known total over more weight lowers the mean; filling the added weight in full raises it. */
  lemma MeanBetween(total: nat, known: nat, all: nat)
    requires 0 < known <= all && total <= FULL * known
    ensures RoundHalfUp(total, all) <= RoundHalfUp(total, known) <= RoundHalfUp(total + FULL * (all - known), all)
  {
    MulMonotone(known, all, total);
    RoundMonotone(total, all, total, known);
    var gap := all - known;
    MulMonotone(total, FULL * known, gap);
    assert total * all == total * known + total * gap;
    assert (total + FULL * gap) * known == total * known + FULL * known * gap;
    RoundMonotone(total, known, total + FULL * gap, all);
  }

  // ----- Check level -----

  function EligibleWeight(checks: seq<Check>): nat {
    if checks == [] then 0
    else
      var last := checks[|checks| - 1];
      EligibleWeight(checks[..|checks| - 1]) + (if last.Eligible() then last.weight else 0)
  }

  function KnownWeight(checks: seq<Check>): nat {
    if checks == [] then 0
    else
      var last := checks[|checks| - 1];
      KnownWeight(checks[..|checks| - 1]) + (if last.Counted() then last.weight else 0)
  }

  function Contribution(c: Check): nat
    requires c.Valid()
  {
    if c.Counted() then c.score.value * c.weight else 0
  }

  function KnownTotal(checks: seq<Check>): nat
    requires AllValid(checks)
  {
    if checks == [] then 0 else KnownTotal(checks[..|checks| - 1]) + Contribution(checks[|checks| - 1])
  }

  function Gap(checks: seq<Check>): nat
    requires AllValid(checks)
  {
    KnownAtMostEligible(checks);
    EligibleWeight(checks) - KnownWeight(checks)
  }

  /** The weighted total if every unresolved eligible check scored `score`. */
  function Filled(checks: seq<Check>, score: nat): nat
    requires AllValid(checks)
  {
    KnownTotal(checks) + score * Gap(checks)
  }

  /** Aggregate one dimension's checks. */
  function ScoreChecks(checks: seq<Check>): Aggregate
    requires AllValid(checks)
  {
    var eligible := EligibleWeight(checks);
    var included := KnownWeight(checks);
    if eligible == 0 then Aggregate(None, None, None, None, 0, 0)
    else
      var total := KnownTotal(checks);
      var observed := if included == 0 then None else Some(RoundHalfUpFraction(total, included));
      Aggregate(if included == eligible then observed else None, observed,
                Some(RoundHalfUpFraction(total, eligible)),
                Some(RoundHalfUpFraction(Filled(checks, FULL), eligible)),
                included, eligible)
  }

  lemma {:induction false} KnownAtMostEligible(checks: seq<Check>)
    requires AllValid(checks)
    ensures KnownWeight(checks) <= EligibleWeight(checks)
    ensures KnownTotal(checks) <= FULL * KnownWeight(checks)
  {
    if checks != [] {
      KnownAtMostEligible(checks[..|checks| - 1]);
      var last := checks[|checks| - 1];
      if last.Counted() {
        MulMonotone(last.score.value, FULL, last.weight);
        assert FULL * (KnownWeight(checks[..|checks| - 1]) + last.weight) ==
               FULL * KnownWeight(checks[..|checks| - 1]) + FULL * last.weight;
      }
    }
  }

  /** The score and weight of every check that counts. */
  function KnownPairs(checks: seq<Check>): (r: seq<(nat, nat)>)
    requires AllValid(checks)
    ensures forall k :: 0 <= k < |r| ==> r[k].0 <= FULL && r[k].1 > 0
  {
    if checks == [] then []
    else
      var front, last := KnownPairs(checks[..|checks| - 1]), checks[|checks| - 1];
      if last.Counted() then front + [(last.score.value, last.weight)] else front
  }

  lemma AppendPair(values: seq<(nat, nat)>, score: nat, weight: nat)
    ensures WeightedTotal(values + [(score, weight)]) == WeightedTotal(values) + score * weight
    ensures TotalWeight(values + [(score, weight)]) == TotalWeight(values) + weight
  {
    assert (values + [(score, weight)])[..|values|] == values;
  }

  lemma {:induction false} KnownPairsTotals(checks: seq<Check>)
    requires AllValid(checks)
    ensures WeightedTotal(KnownPairs(checks)) == KnownTotal(checks)
    ensures TotalWeight(KnownPairs(checks)) == KnownWeight(checks)
  {
    if checks != [] {
      hide WeightedTotal, TotalWeight;
      var front, last := checks[..|checks| - 1], checks[|checks| - 1];
      KnownPairsTotals(front);
      if last.Counted() { AppendPair(KnownPairs(front), last.score.value, last.weight); }
    } else {
      assert WeightedTotal([]) == 0 && TotalWeight([]) == 0;
    }
  }

  /** The observed score, computed as the program does: the weighted score of the known checks. */
  method ObservedScore(checks: seq<Check>) returns (observed: Option<nat>)
    requires AllValid(checks)
    ensures observed == ScoreChecks(checks).observed
  {
    hide WeightedTotal, RoundHalfUp, RoundHalfUpFraction;
    if EligibleWeight(checks) == 0 { return None; }
    KnownPairsTotals(checks);
    var known := KnownPairs(checks);
    var result := WeightedScore(known);
    if !result.Score? { return None; }
    RoundHalfUpFractionIsExact(WeightedTotal(known), TotalWeight(known));
    return Some(result.bps);
  }

  ghost predicate FullyResolved(checks: seq<Check>) {
    forall k :: 0 <= k < |checks| && checks[k].Eligible() ==> checks[k].status.Known()
  }

  lemma {:induction false} ResolvedWeights(checks: seq<Check>)
    requires AllValid(checks)
    ensures FullyResolved(checks) <==> KnownWeight(checks) == EligibleWeight(checks)
  {
    if checks != [] {
      var front := checks[..|checks| - 1];
      ResolvedWeights(front);
      KnownAtMostEligible(front);
      assert checks == front + [checks[|checks| - 1]];
      if FullyResolved(checks) {
        forall k | 0 <= k < |front| && front[k].Eligible()
          ensures front[k].status.Known()
        {
          assert front[k] == checks[k];
        }
      }
    }
  }

  /** `after` settles the eligible unresolved checks of `before`, one way or the other, and changes nothing else. */
  ghost predicate Settles(before: seq<Check>, after: seq<Check>) {
    && |after| == |before|
    && forall k :: 0 <= k < |before| ==> SettlesOne(before[k], after[k])
  }

  ghost predicate SettlesOne(before: Check, after: Check) {
    if before.Eligible() && before.status.Unresolved() then
      after.Valid() && after.status.Known() && after == before.(status := after.status, score := after.score)
    else after == before
  }

  lemma {:induction false} SettledTotals(before: seq<Check>, after: seq<Check>)
    requires AllValid(before) && Settles(before, after)
    ensures AllValid(after) && FullyResolved(after)
    ensures EligibleWeight(after) == EligibleWeight(before)
    ensures KnownTotal(before) <= KnownTotal(after) <= Filled(before, FULL)
  {
    if before != [] {
      var n := |before| - 1;
      var b, a := before[n], after[n];
      assert SettlesOne(b, a);
      SettledTotals(before[..n], after[..n]);
      KnownAtMostEligible(before[..n]);
      var gap := EligibleWeight(before[..n]) - KnownWeight(before[..n]);
      if b.Eligible() && b.status.Unresolved() {
        MulMonotone(a.score.value, FULL, a.weight);
        assert FULL * (gap + b.weight) == FULL * gap + FULL * b.weight;
      }
      assert after == after[..n] + [a];
    }
  }

  /** Settle every unresolved eligible check with the same score. */
  function SettleWith(checks: seq<Check>, score: nat): (after: seq<Check>)
    ensures |after| == |checks|
    ensures forall k :: 0 <= k < |checks| ==>
              after[k] == if checks[k].Eligible() &&
                  checks[k].status.Unresolved() then checks[k].(status := Pass, score := Some(score)) else checks[k]
  {
    if checks == [] then []
    else
      var last := checks[|checks| - 1];
      SettleWith(checks[..|checks| - 1], score)
      + [if last.Eligible() && last.status.Unresolved() then last.(status := Pass, score := Some(score)) else last]
  }

  lemma SettleWithSettles(checks: seq<Check>, score: nat)
    requires AllValid(checks) && score <= FULL
    ensures Settles(checks, SettleWith(checks, score)) && AllValid(SettleWith(checks, score))
  {
    hide SettleWith;
  }

  lemma {:induction false} SettleWithTotals(checks: seq<Check>, score: nat)
    requires AllValid(checks) && AllValid(SettleWith(checks, score))
    ensures KnownTotal(SettleWith(checks, score)) == Filled(checks, score)
  {
    if checks != [] {
      var n := |checks| - 1;
      var after := SettleWith(checks, score);
      assert after[..n] == SettleWith(checks[..n], score);
      SettleWithTotals(checks[..n], score);
      KnownTotalSplit(after);
      KnownTotalSplit(checks);
      var gap := EligibleWeight(checks[..n]) - KnownWeight(checks[..n]);
      Distribute(score, gap, checks[n].weight);
    }
  }

  lemma KnownTotalSplit(checks: seq<Check>)
    requires AllValid(checks) && checks != []
    ensures KnownTotal(checks) == KnownTotal(checks[..|checks| - 1]) + Contribution(checks[|checks| - 1])
  {
  }

  /** Every way of settling the unresolved checks lands between the bounds. */
  lemma CheckBoundsAreSound(before: seq<Check>, after: seq<Check>)
    requires AllValid(before) && Settles(before, after) && EligibleWeight(before) > 0
    ensures AllValid(after) && ScoreChecks(after).score.Some?
    ensures ScoreChecks(before).lower.value <= ScoreChecks(after).score.value <= ScoreChecks(before).upper.value
    ensures ScoreChecks(after).lower == ScoreChecks(after).score == ScoreChecks(after).upper ==
            ScoreChecks(after).observed
    ensures ScoreChecks(after).eligible == ScoreChecks(before).eligible
  {
    hide RoundHalfUpFraction, RoundHalfUp;
    SettledTotals(before, after);
    ResolvedWeights(after);
    var w := EligibleWeight(before);
    var low, mid, high := KnownTotal(before), KnownTotal(after), Filled(before, FULL);
    RoundHalfUpFractionIsExact(low, w);
    RoundHalfUpFractionIsExact(mid, w);
    RoundHalfUpFractionIsExact(high, w);
    MulMonotone(low, mid, w);
    MulMonotone(mid, high, w);
    RoundMonotone(low, w, mid, w);
    RoundMonotone(mid, w, high, w);
  }

  lemma ResolvedScore(checks: seq<Check>)
    requires AllValid(checks) && EligibleWeight(checks) > 0 && FullyResolved(checks)
    ensures ScoreChecks(checks).score == Some(RoundHalfUpFraction(KnownTotal(checks), EligibleWeight(checks)))
  {
    hide RoundHalfUpFraction, FullyResolved;
    ResolvedWeights(checks);
  }

  lemma SettleWithScore(checks: seq<Check>, score: nat)
    requires AllValid(checks) && EligibleWeight(checks) > 0 && score <= FULL
    ensures var after := SettleWith(checks, score);
            && Settles(checks, after) && AllValid(after)
            && ScoreChecks(after).score == Some(RoundHalfUpFraction(Filled(checks, score), EligibleWeight(checks)))
  {
    hide RoundHalfUpFraction, SettleWith, Settles, FullyResolved, ScoreChecks, Filled;
    SettleWithSettles(checks, score);
    SettleWithTotals(checks, score);
    SettledTotals(checks, SettleWith(checks, score));
    ResolvedScore(SettleWith(checks, score));
  }

  /** Both bounds are attained: by settling everything at zero, and everything in full. */
  lemma CheckBoundsAreTight(checks: seq<Check>)
    requires AllValid(checks) && EligibleWeight(checks) > 0
    ensures var worst := SettleWith(checks, 0);
            Settles(checks, worst) && AllValid(worst) && ScoreChecks(worst).score == ScoreChecks(checks).lower
    ensures var best := SettleWith(checks, FULL);
            Settles(checks, best) && AllValid(best) && ScoreChecks(best).score == ScoreChecks(checks).upper
  {
    hide RoundHalfUpFraction, SettleWith, Settles;
    SettleWithScore(checks, 0);
    SettleWithScore(checks, FULL);
  }

  /** The observed score lies between the bounds, and everything coincides once nothing is unresolved. */
  lemma ObservedIsBetween(checks: seq<Check>)
    requires AllValid(checks)
    ensures var a := ScoreChecks(checks);
            && (a.observed.Some? ==>
               a.lower.Some? && a.upper.Some? && a.lower.value <= a.observed.value <= a.upper.value)
            && (a.lower.Some? <==> EligibleWeight(checks) > 0) && (a.upper.Some? <==> a.lower.Some?)
            && (a.lower.Some? ==> a.lower.value <= a.upper.value <= FULL)
            && (a.lower.Some? && a.observed.None? ==> a.lower.value == 0 && a.upper.value == FULL)
            && (a.score.Some? <==> EligibleWeight(checks) > 0 && FullyResolved(checks))
            && (a.score.Some? ==> a.score == a.observed == a.lower == a.upper)
            && a.included <= a.eligible
  {
    hide RoundHalfUpFraction, RoundHalfUp;
    var all, known, total := EligibleWeight(checks), KnownWeight(checks), KnownTotal(checks);
    KnownAtMostEligible(checks);
    ResolvedWeights(checks);
    if all > 0 {
      RoundHalfUpFractionIsExact(total, all);
      RoundHalfUpFractionIsExact(Filled(checks, FULL), all);
      assert FULL * known + FULL * (all - known) == FULL * all;
      RatioAtMost(Filled(checks, FULL), all);
      if known > 0 {
        RoundHalfUpFractionIsExact(total, known);
        MeanBetween(total, known, all);
      } else {
        HalfUpUnique(0, all, 0);
        HalfUpUnique(FULL * all, all, FULL);
      }
    }
  }

  // ----- The weights reported -----

  /** A check adds its weight to the eligible weight exactly when it may be scored and
      applies, and to the included weight exactly when, besides, it passed or failed. */
  lemma CheckAddsWeight(checks: seq<Check>, c: Check)
    requires AllValid(checks) && c.Valid()
    ensures AllValid(checks + [c])
    ensures ScoreChecks([]).eligible == 0 && ScoreChecks([]).included == 0
    ensures ScoreChecks(checks + [c]).eligible ==
            ScoreChecks(checks).eligible + if c.scoreEligible && c.status != NotApplicable then c.weight else 0
    ensures ScoreChecks(checks + [c]).included ==
            ScoreChecks(checks).included + if c.scoreEligible && c.status in {Pass, Fail} then c.weight else 0
  {
    hide RoundHalfUpFraction, KnownTotal, Filled;
    assert (checks + [c])[..|checks|] == checks;
    KnownAtMostEligible(checks);
    KnownAtMostEligible(checks + [c]);
  }
}
