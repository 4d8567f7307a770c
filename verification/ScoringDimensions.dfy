/** The second level: dimension aggregates weighted into one overall score. */
module ScoringDimensions {
  import opened Ordering
  import opened Rounding
  import opened Scoring

  datatype DimensionPolicy = DimensionPolicy(id: string, weight: nat)

  datatype Dimension = Dimension(id: string, weight: nat, aggregate: Aggregate)

  function InDimension(checks: seq<Check>, id: string): seq<Check> {
    if checks == [] then []
    else
      var front := InDimension(checks[..|checks| - 1], id);
      if checks[|checks| - 1].dimension == id then front + [checks[|checks| - 1]] else front
  }

  /** A dimension holds the checks that name it, each as often as it is there. */
  lemma {:induction false} InDimensionCounts(checks: seq<Check>, id: string, c: Check)
    ensures multiset(InDimension(checks, id))[c] == if c.dimension == id then multiset(checks)[c] else 0
  {
    if checks != [] {
      InDimensionCounts(checks[..|checks| - 1], id, c);
      assert checks == checks[..|checks| - 1] + [checks[|checks| - 1]];
    }
  }

  /** It keeps their order: what comes from an earlier part comes first. */
  lemma {:induction false} InDimensionAppends(a: seq<Check>, b: seq<Check>, id: string)
    ensures InDimension(a + b, id) == InDimension(a, id) + InDimension(b, id)
    decreases |b|
  {
    if b == [] {
      assert a + b == a;
    } else {
      InDimensionAppends(a, b[..|b| - 1], id);
      assert (a + b)[..|a + b| - 1] == a + b[..|b| - 1];
    }
  }

  lemma NotInDimension(c: Check, id: string)
    requires c.dimension != id
    ensures InDimension([c], id) == []
  {
    assert [c][..0] == [];
  }

  /** A check of another dimension can be exchanged for any other such check without effect. */
  lemma InDimensionIgnores(checks: seq<Check>, id: string, k: nat, c: Check)
    requires k < |checks| && checks[k].dimension != id && c.dimension != id
    ensures InDimension(checks[k := c], id) == InDimension(checks, id)
  {
    var before, after := checks[..k], checks[k + 1..];
    assert checks == before + ([checks[k]] + after) && checks[k := c] == before + ([c] + after);
    NotInDimension(checks[k], id);
    NotInDimension(c, id);
    InDimensionAppends(before, [checks[k]] + after, id);
    InDimensionAppends([checks[k]], after, id);
    InDimensionAppends(before, [c] + after, id);
    InDimensionAppends([c], after, id);
  }

  lemma {:induction false} InDimensionValid(checks: seq<Check>, id: string)
    requires AllValid(checks)
    ensures AllValid(InDimension(checks, id))
  {
    if checks != [] { InDimensionValid(checks[..|checks| - 1], id); }
  }

  function Dimensions(policy: seq<DimensionPolicy>, checks: seq<Check>): (dims: seq<Dimension>)
    requires AllValid(checks)
    ensures |dims| == |policy|
  {
    if policy == [] then []
    else
      var last := policy[|policy| - 1];
      InDimensionValid(checks, last.id);
      Dimensions(policy[..|policy| - 1], checks) +
          [Dimension(last.id, last.weight, ScoreChecks(InDimension(checks, last.id)))]
  }

  // ----- The overall aggregate -----

  datatype Pick = Lower | Upper | Observed | Exact

  function Picked(a: Aggregate, pick: Pick): Option<nat> {
    match pick
    case Lower => a.lower
    case Upper => a.upper
    case Observed => a.observed
    case Exact => a.score
  }

  /** The (score, weight) pairs of the eligible dimensions that have the picked score. */
  function Pairs(dims: seq<Dimension>, pick: Pick): seq<(nat, nat)> {
    if dims == [] then []
    else
      var front := Pairs(dims[..|dims| - 1], pick);
      var last := dims[|dims| - 1];
      var value := Picked(last.aggregate, pick);
      if last.aggregate.eligible > 0 && value.Some? then front + [(value.value, last.weight)] else front
  }

  predicate AllExact(dims: seq<Dimension>) {
    forall k :: 0 <= k < |dims| && dims[k].aggregate.eligible > 0 ==> dims[k].aggregate.score.Some?
  }

  function Mean(values: seq<(nat, nat)>): Option<nat> {
    if TotalWeight(values) == 0 then None else Some(RoundHalfUpFraction(WeightedTotal(values), TotalWeight(values)))
  }

  function EligibleDimensionWeight(dims: seq<Dimension>): nat {
    if dims == [] then 0
    else
      var last := dims[|dims| - 1];
      EligibleDimensionWeight(dims[..|dims| - 1]) + (if last.aggregate.eligible > 0 then last.weight else 0)
  }

  function ScoreDimensions(dims: seq<Dimension>): Aggregate {
    var eligible := EligibleDimensionWeight(dims);
    if eligible == 0 then Aggregate(None, None, None, None, 0, 0)
    else
      Aggregate(if AllExact(dims) then Mean(Pairs(dims, Exact)) else None, Mean(Pairs(dims, Observed)),
                Mean(Pairs(dims, Lower)), Mean(Pairs(dims, Upper)), TotalWeight(Pairs(dims, Observed)), eligible)
  }

  // ----- What the first level hands up -----

  ghost predicate Coherent(a: Aggregate) {
    && (a.lower.Some? <==> a.eligible > 0) && (a.upper.Some? <==> a.eligible > 0)
    && (a.observed.Some? ==> a.eligible > 0 && a.lower.value <= a.observed.value <= a.upper.value)
    && (a.eligible > 0 ==> a.lower.value <= a.upper.value <= FULL)
    && (a.eligible > 0 && a.observed.None? ==> a.lower.value == 0 && a.upper.value == FULL)
    && (a.score.Some? ==> a.score == a.observed == a.lower == a.upper)
  }

  ghost predicate AllCoherent(dims: seq<Dimension>) {
    forall k :: 0 <= k < |dims| ==> dims[k].weight > 0 && Coherent(dims[k].aggregate)
  }

  lemma ChecksAreCoherent(checks: seq<Check>)
    requires AllValid(checks)
    ensures Coherent(ScoreChecks(checks))
  {
    hide ScoreChecks;
    ObservedIsBetween(checks);
    assert ScoreChecks(checks).eligible == EligibleWeight(checks) by { EligibleField(checks); }
  }

  lemma EligibleField(checks: seq<Check>)
    requires AllValid(checks)
    ensures ScoreChecks(checks).eligible == EligibleWeight(checks)
  {
    hide RoundHalfUpFraction;
  }

  lemma {:induction false} DimensionsAreCoherent(policy: seq<DimensionPolicy>, checks: seq<Check>)
    requires AllValid(checks) && forall k :: 0 <= k < |policy| ==> policy[k].weight > 0
    ensures AllCoherent(Dimensions(policy, checks))
  {
    hide ScoreChecks, Coherent;
    if policy != [] {
      var n := |policy| - 1;
      DimensionsAreCoherent(policy[..n], checks);
      InDimensionValid(checks, policy[n].id);
      ChecksAreCoherent(InDimension(checks, policy[n].id));
    }
  }

  lemma {:induction false} PairsAreScores(dims: seq<Dimension>, pick: Pick)
    requires AllCoherent(dims)
    ensures forall k :: 0 <= k < |Pairs(dims, pick)| ==> Pairs(dims, pick)[k].0 <= FULL && Pairs(dims, pick)[k].1 > 0
  {
    if dims != [] { PairsAreScores(dims[..|dims| - 1], pick); }
  }

  /** Each overall score, computed as the program does: the weighted score of the dimensions that have one. */
  method PickedScore(dims: seq<Dimension>, pick: Pick) returns (r: Option<nat>)
    requires AllCoherent(dims)
    ensures r == Mean(Pairs(dims, pick))
  {
    hide WeightedTotal, RoundHalfUp, RoundHalfUpFraction, Coherent;
    PairsAreScores(dims, pick);
    var values := Pairs(dims, pick);
    var result := WeightedScore(values);
    if !result.Score? { return None; }
    RoundHalfUpFractionIsExact(WeightedTotal(values), TotalWeight(values));
    return Some(result.bps);
  }

  // ----- Totals -----

  lemma PairsLast(dims: seq<Dimension>, pick: Pick)
    requires dims != []
    ensures var front, last := Pairs(dims[..|dims| - 1], pick), dims[|dims| - 1];
            var value := Picked(last.aggregate, pick);
            if last.aggregate.eligible > 0 && value.Some? then
              && WeightedTotal(Pairs(dims, pick)) == WeightedTotal(front) + value.value * last.weight
              && TotalWeight(Pairs(dims, pick)) == TotalWeight(front) + last.weight
            else Pairs(dims, pick) == front
  {
    var last := dims[|dims| - 1];
    var value := Picked(last.aggregate, pick);
    if value.Some? { AppendPair(Pairs(dims[..|dims| - 1], pick), value.value, last.weight); }
  }

  /** How the four weighted totals of coherent dimensions relate. */
  lemma {:induction false} TotalsRelate(dims: seq<Dimension>)
    requires AllCoherent(dims)
    ensures TotalWeight(Pairs(dims, Lower)) == TotalWeight(Pairs(dims, Upper)) == EligibleDimensionWeight(dims)
    ensures TotalWeight(Pairs(dims, Observed)) <= EligibleDimensionWeight(dims)
    ensures WeightedTotal(Pairs(dims, Lower)) <= WeightedTotal(Pairs(dims, Observed)) <=
            FULL * TotalWeight(Pairs(dims, Observed))
    ensures WeightedTotal(Pairs(dims, Observed)) +
            FULL * (EligibleDimensionWeight(dims) - TotalWeight(Pairs(dims, Observed)))
            <= WeightedTotal(Pairs(dims, Upper)) <= FULL * EligibleDimensionWeight(dims)
  {
    hide WeightedTotal, TotalWeight, Pairs;
    if dims == [] {
      EmptyTotals();
    } else {
      var front, last := dims[..|dims| - 1], dims[|dims| - 1];
      TotalsRelate(front);
      PairsLast(dims, Lower);
      PairsLast(dims, Upper);
      PairsLast(dims, Observed);
      var a, w := last.aggregate, last.weight;
      if a.eligible > 0 {
        MulMonotone(a.upper.value, FULL, w);
        Distribute(FULL, EligibleDimensionWeight(front), w);
        if a.observed.Some? {
          MulMonotone(a.lower.value, a.observed.value, w);
          MulMonotone(a.observed.value, a.upper.value, w);
          Distribute(FULL, TotalWeight(Pairs(front, Observed)), w);
        } else {
          Distribute(FULL, EligibleDimensionWeight(front) - TotalWeight(Pairs(front, Observed)), w);
        }
      }
    }
  }

  lemma EmptyTotals()
    ensures forall pick :: Pairs([], pick) == []
    ensures WeightedTotal([]) == 0 && TotalWeight([]) == 0
  {
  }

  lemma {:induction false} ExactTotals(dims: seq<Dimension>)
    requires AllCoherent(dims) && AllExact(dims)
    ensures Pairs(dims, Exact) == Pairs(dims, Lower) == Pairs(dims, Upper) == Pairs(dims, Observed)
  {
    if dims != [] {
      var front := dims[..|dims| - 1];
      forall k | 0 <= k < |front| && front[k].aggregate.eligible > 0
        ensures front[k].aggregate.score.Some?
      {
        assert front[k] == dims[k];
      }
      ExactTotals(front);
      assert Coherent(dims[|dims| - 1].aggregate);
    }
  }

  /** The overall observed score lies between the overall bounds, and all four coincide when
      every dimension is exact. */
  lemma OverallIsBetween(dims: seq<Dimension>)
    requires AllCoherent(dims) && EligibleDimensionWeight(dims) > 0
    ensures var a := ScoreDimensions(dims);
            && a.lower.Some? && a.upper.Some? && a.lower.value <= a.upper.value <= FULL
            && (a.observed.Some? ==> a.lower.value <= a.observed.value <= a.upper.value)
            && (AllExact(dims) ==> a.score.Some? && a.score == a.observed == a.lower == a.upper)
            && a.included <= a.eligible
  {
    hide RoundHalfUpFraction, RoundHalfUp, WeightedTotal, TotalWeight, Pairs, AllExact, AllCoherent;
    TotalsRelate(dims);
    var all, known := EligibleDimensionWeight(dims), TotalWeight(Pairs(dims, Observed));
    var low, mid, high :=
      WeightedTotal(Pairs(dims, Lower)), WeightedTotal(Pairs(dims, Observed)), WeightedTotal(Pairs(dims, Upper));
    RoundHalfUpFractionIsExact(low, all);
    RoundHalfUpFractionIsExact(high, all);
    RatioAtMost(high, all);
    MulMonotone(0, all - known, FULL);
    SameWeight(low, high, all);
    if known > 0 {
      RoundHalfUpFractionIsExact(mid, known);
      MeanBetween(mid, known, all);
      SameWeight(low, mid, all);
      SameWeight(mid + FULL * (all - known), high, all);
    }
    if AllExact(dims) { ExactTotals(dims); }
  }

  lemma SameWeight(a: nat, b: nat, w: nat)
    requires w > 0 && a <= b
    ensures RoundHalfUp(a, w) <= RoundHalfUp(b, w)
  {
    hide RoundHalfUp;
    MulMonotone(a, b, w);
    RoundMonotone(a, w, b, w);
  }

  // ----- Settling evidence moves the overall score only between its bounds -----

  /** The same eligibility, and where eligible an exact score within the bounds. */
  ghost predicate Between(before: Aggregate, after: Aggregate) {
    && after.eligible == before.eligible
    && (before.eligible > 0 ==>
          && before.lower.Some? && after.score.Some? && before.upper.Some?
          && before.lower.value <= after.score.value <= before.upper.value)
  }

  ghost predicate Within(before: seq<Dimension>, after: seq<Dimension>) {
    && |after| == |before|
    && forall k :: 0 <= k < |before| ==>
       after[k].weight == before[k].weight && Between(before[k].aggregate, after[k].aggregate)
  }

  ghost predicate AtBound(before: seq<Dimension>, after: seq<Dimension>, pick: Pick) {
    && |after| == |before|
    && forall k :: 0 <= k < |before| ==>
         && after[k].weight == before[k].weight
         && after[k].aggregate.eligible == before[k].aggregate.eligible
         && (before[k].aggregate.eligible > 0 ==> after[k].aggregate.score == Picked(before[k].aggregate, pick))
  }

  lemma {:induction false} WithinTotals(before: seq<Dimension>, after: seq<Dimension>)
    requires AllCoherent(before) && Within(before, after)
    ensures EligibleDimensionWeight(after) == EligibleDimensionWeight(before) == TotalWeight(Pairs(after, Exact))
    ensures WeightedTotal(Pairs(before, Lower)) <= WeightedTotal(Pairs(after, Exact)) <=
            WeightedTotal(Pairs(before, Upper))
    ensures AllExact(after)
  {
    hide WeightedTotal, TotalWeight, Pairs;
    if before == [] {
      EmptyTotals();
    } else {
      var n := |before| - 1;
      WithinTotals(before[..n], after[..n]);
      PairsLast(before, Lower);
      PairsLast(before, Upper);
      PairsLast(after, Exact);
      var b, a := before[n].aggregate, after[n].aggregate;
      if b.eligible > 0 {
        MulMonotone(b.lower.value, a.score.value, before[n].weight);
        MulMonotone(a.score.value, b.upper.value, before[n].weight);
      }
    }
  }

  lemma {:induction false} AtBoundPairs(before: seq<Dimension>, after: seq<Dimension>, pick: Pick)
    requires AllCoherent(before) && AtBound(before, after, pick) && (pick.Lower? || pick.Upper?)
    ensures Pairs(after, Exact) == Pairs(before, pick)
    ensures EligibleDimensionWeight(after) == EligibleDimensionWeight(before)
    ensures AllExact(after)
  {
    if before != [] {
      var n := |before| - 1;
      AtBoundPairs(before[..n], after[..n], pick);
      assert Coherent(before[n].aggregate);
    }
  }

  lemma DimensionAt(policy: seq<DimensionPolicy>, checks: seq<Check>, k: nat)
    requires AllValid(checks) && k < |policy|
    ensures AllValid(InDimension(checks, policy[k].id))
    ensures Dimensions(policy, checks)[k] ==
            Dimension(policy[k].id, policy[k].weight, ScoreChecks(InDimension(checks, policy[k].id)))
    decreases |policy|
  {
    hide ScoreChecks;
    InDimensionValid(checks, policy[k].id);
    if k < |policy| - 1 { DimensionAt(policy[..|policy| - 1], checks, k); }
  }

  /** So the score of a dimension does not depend on the checks of the others. */
  lemma DimensionsApart(policy: seq<DimensionPolicy>, checks: seq<Check>, k: nat, c: Check, j: nat)
    requires AllValid(checks) && k < |checks| && c.Valid() && j < |policy|
    requires checks[k].dimension != policy[j].id && c.dimension != policy[j].id
    ensures AllValid(checks[k := c]) && Dimensions(policy, checks[k := c])[j] == Dimensions(policy, checks)[j]
  {
    hide ScoreChecks, Dimensions;
    DimensionAt(policy, checks, j);
    DimensionAt(policy, checks[k := c], j);
    InDimensionIgnores(checks, policy[j].id, k, c);
  }

  lemma {:induction false} SettlesInDimension(before: seq<Check>, after: seq<Check>, id: string)
    requires Settles(before, after)
    ensures Settles(InDimension(before, id), InDimension(after, id))
  {
    if before != [] {
      var n := |before| - 1;
      assert SettlesOne(before[n], after[n]) && before[n].dimension == after[n].dimension;
      hide SettlesOne;
      SettlesInDimension(before[..n], after[..n], id);
    }
  }

  lemma {:induction false} SettleWithInDimension(checks: seq<Check>, score: nat, id: string)
    ensures InDimension(SettleWith(checks, score), id) == SettleWith(InDimension(checks, id), score)
  {
    if checks != [] {
      var n := |checks| - 1;
      SettleWithInDimension(checks[..n], score, id);
      assert SettleWith(checks, score)[..n] == SettleWith(checks[..n], score);
      var front := InDimension(checks[..n], id);
      assert (front + [checks[n]])[..|front|] == front;
    }
  }

  lemma SettledEligible(before: seq<Check>, after: seq<Check>)
    requires AllValid(before) && Settles(before, after)
    ensures AllValid(after) && ScoreChecks(after).eligible == ScoreChecks(before).eligible
  {
    hide RoundHalfUpFraction;
    SettledTotals(before, after);
  }

  lemma SettledBetween(before: seq<Check>, after: seq<Check>)
    requires AllValid(before) && Settles(before, after)
    ensures AllValid(after) && Between(ScoreChecks(before), ScoreChecks(after))
  {
    hide ScoreChecks, Settles;
    SettledEligible(before, after);
    EligibleField(before);
    ObservedIsBetween(before);
    if EligibleWeight(before) > 0 { CheckBoundsAreSound(before, after); }
  }

  lemma SettledWithin(policy: seq<DimensionPolicy>, before: seq<Check>, after: seq<Check>)
    requires AllValid(before) && Settles(before, after)
    ensures AllValid(after) && Within(Dimensions(policy, before), Dimensions(policy, after))
  {
    hide ScoreChecks, Settles, Between, Dimensions;
    SettledEligible(before, after);
    var bd, ad := Dimensions(policy, before), Dimensions(policy, after);
    forall k | 0 <= k < |bd| ensures ad[k].weight == bd[k].weight && Between(bd[k].aggregate, ad[k].aggregate) {
      var id := policy[k].id;
      DimensionAt(policy, before, k);
      DimensionAt(policy, after, k);
      SettlesInDimension(before, after, id);
      SettledBetween(InDimension(before, id), InDimension(after, id));
    }
  }

  /** Overall soundness: whatever the unresolved checks turn out to be, the final
      overall score lies within the bounds reported before. */
  lemma OverallBoundsAreSound(policy: seq<DimensionPolicy>, before: seq<Check>, after: seq<Check>)
    requires AllValid(before) && Settles(before, after)
    requires forall k :: 0 <= k < |policy| ==> policy[k].weight > 0
    requires EligibleDimensionWeight(Dimensions(policy, before)) > 0
    ensures AllValid(after)
    ensures Between(ScoreDimensions(Dimensions(policy, before)), ScoreDimensions(Dimensions(policy, after)))
  {
    hide ScoreChecks, Settles, RoundHalfUpFraction, RoundHalfUp, WeightedTotal, TotalWeight, Pairs, AllExact,
         Dimensions, AllCoherent, Within;
    SettledWithin(policy, before, after);
    var bd, ad := Dimensions(policy, before), Dimensions(policy, after);
    DimensionsAreCoherent(policy, before);
    WithinTotals(bd, ad);
    TotalsRelate(bd);
    var w := EligibleDimensionWeight(bd);
    var low, mid, high :=
      WeightedTotal(Pairs(bd, Lower)), WeightedTotal(Pairs(ad, Exact)), WeightedTotal(Pairs(bd, Upper));
    RoundHalfUpFractionIsExact(low, w);
    RoundHalfUpFractionIsExact(mid, w);
    RoundHalfUpFractionIsExact(high, w);
    SameWeight(low, mid, w);
    SameWeight(mid, high, w);
  }

  /** Overall tightness: both overall bounds are the score of some way to settle the evidence. */
  lemma OverallBoundsAreTight(policy: seq<DimensionPolicy>, checks: seq<Check>, pick: Pick)
    requires AllValid(checks) && (pick.Lower? || pick.Upper?)
    requires forall k :: 0 <= k < |policy| ==> policy[k].weight > 0
    requires EligibleDimensionWeight(Dimensions(policy, checks)) > 0
    ensures var after := SettleWith(checks, if pick.Lower? then 0 else FULL);
            && Settles(checks, after) && AllValid(after)
            && ScoreDimensions(Dimensions(policy, after)).score ==
               Picked(ScoreDimensions(Dimensions(policy, checks)), pick)
  {
    hide ScoreChecks, Settles, Coherent, RoundHalfUpFraction, WeightedTotal, TotalWeight, Pairs, AllExact,
         Dimensions, SettleWith;
    var s := if pick.Lower? then 0 else FULL;
    var after := SettleWith(checks, s);
    SettleWithSettles(checks, s);
    var bd, ad := Dimensions(policy, checks), Dimensions(policy, after);
    DimensionsAreCoherent(policy, checks);
    forall k | 0 <= k < |bd|
      ensures ad[k].weight == bd[k].weight && ad[k].aggregate.eligible == bd[k].aggregate.eligible
      ensures bd[k].aggregate.eligible > 0 ==> ad[k].aggregate.score == Picked(bd[k].aggregate, pick)
    {
      var id := policy[k].id;
      DimensionAt(policy, checks, k);
      DimensionAt(policy, after, k);
      SettlesInDimension(checks, after, id);
      SettledEligible(InDimension(checks, id), InDimension(after, id));
      EligibleField(InDimension(checks, id));
      SettleWithInDimension(checks, s, id);
      if bd[k].aggregate.eligible > 0 { CheckBoundsAreTight(InDimension(checks, id)); }
    }
    AtBoundPairs(bd, ad, pick);
  }

  // ----- The weights reported -----

  lemma {:induction false} ObservedAtMostEligible(dims: seq<Dimension>)
    ensures TotalWeight(Pairs(dims, Observed)) <= EligibleDimensionWeight(dims)
  {
    if dims != [] { ObservedAtMostEligible(dims[..|dims| - 1]); }
  }

  lemma PairsGrow(dims: seq<Dimension>, d: Dimension)
    ensures TotalWeight(Pairs(dims + [d], Observed)) ==
            TotalWeight(Pairs(dims, Observed)) +
            if d.aggregate.eligible > 0 && d.aggregate.observed.Some? then d.weight else 0
  {
    assert (dims + [d])[..|dims|] == dims;
  }

  /** A dimension adds its weight to the eligible weight exactly when something in it is
      eligible, and to the included weight exactly when, besides, something was observed. */
  lemma DimensionAddsWeight(dims: seq<Dimension>, d: Dimension)
    ensures ScoreDimensions([]).eligible == 0 && ScoreDimensions([]).included == 0
    ensures ScoreDimensions(dims + [d]).eligible ==
            ScoreDimensions(dims).eligible + if d.aggregate.eligible > 0 then d.weight else 0
    ensures ScoreDimensions(dims + [d]).included ==
            ScoreDimensions(dims).included +
            if d.aggregate.eligible > 0 && d.aggregate.observed.Some? then d.weight else 0
  {
    hide Mean, Pairs, TotalWeight, AllExact;
    assert (dims + [d])[..|dims|] == dims;
    ObservedAtMostEligible(dims);
    ObservedAtMostEligible(dims + [d]);
    PairsGrow(dims, d);
  }
}
