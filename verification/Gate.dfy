/** The hard gate: non-compensating, and independent of every score. */
module Gate {
  import opened Ordering
  import opened Rounding
  import opened Scoring
  import opened ScoringDimensions

  // ----- Criteria -----

  datatype Criterion = Eq(value: nat) | Gte(value: nat) | Lte(value: nat)

  /** The rounded display score, or nothing for an empty denominator. */
  function ProportionalScore(numerator: nat, denominator: nat): Option<nat>
    requires numerator <= denominator
  {
    if denominator == 0 then None else Some(RoundHalfUpFraction(10000 * numerator, denominator))
  }

  predicate ScoreMeets(c: Criterion, score: nat) {
    match c
    case Eq(v) => score == v
    case Gte(v) => score >= v
    case Lte(v) => score <= v
  }

  /** The exact comparison, which never consults the rounded score. */
  predicate RatioMeets(c: Criterion, numerator: nat, denominator: nat) {
    match c
    case Eq(v) => 10000 * numerator == v * denominator
    case Gte(v) => 10000 * numerator >= v * denominator
    case Lte(v) => 10000 * numerator <= v * denominator
  }

  /** An exact pass is also a pass of the rounded score. */
  lemma ExactPassRoundsToPass(c: Criterion, numerator: nat, denominator: nat)
    requires 0 < denominator && numerator <= denominator && RatioMeets(c, numerator, denominator)
    ensures ScoreMeets(c, ProportionalScore(numerator, denominator).value)
  {
    hide RoundHalfUpFraction, RoundHalfUp;
    var n, d, v := 10000 * numerator, denominator, c.value;
    RoundHalfUpFractionIsExact(n, d);
    HalfUpUnique(v, 1, v);
    if n >= v * d { RoundMonotone(v, 1, n, d); }
    if n <= v * d { RoundMonotone(n, d, v, 1); }
  }

  /** The converse fails by at most the half step of rounding: the rounded score
      meets a floor exactly when the ratio is within half a basis point of it. */
  lemma RoundedFloorIsHalfStepLower(v: nat, numerator: nat, denominator: nat)
    requires 0 < denominator && numerator <= denominator
    ensures ScoreMeets(Gte(v), ProportionalScore(numerator, denominator).value) <==>
            20000 * numerator >= (2 * v - 1) * denominator
    ensures ScoreMeets(Lte(v), ProportionalScore(numerator, denominator).value) <==>
            20000 * numerator < (2 * v + 1) * denominator
  {
    hide RoundHalfUpFraction, RoundHalfUp;
    var n, d := 10000 * numerator, denominator;
    RoundHalfUpFractionIsExact(n, d);
    HalfUpBounds(n, d);
    var h: int := RoundHalfUp(n, d);
    if h >= v { MulMonotone(2 * v - 1, 2 * h - 1, d); } else { MulMonotone(2 * h + 1, 2 * v - 1, d); }
    if h <= v { MulMonotone(2 * h + 1, 2 * v + 1, d); } else { MulMonotone(2 * v + 1, 2 * h - 1, d); }
  }

  // ----- The gate -----

  datatype Decision = PassDecision | FailDecision | Indeterminate

  datatype BlockerKind = KnownFailure | UnresolvedResult | MissingResult

  datatype GateBlocker = GateBlocker(checkId: string, kind: BlockerKind, status: CheckStatus, reasonCode: string)

  datatype GateResult = GateResult(decision: Decision, complete: bool, scores: Aggregate, blockers: seq<GateBlocker>)

  function Failures(checks: seq<Check>): seq<GateBlocker> {
    if checks == [] then []
    else
      var c := checks[|checks| - 1];
      Failures(checks[..|checks| - 1])
      + (if c.mode.Required? && c.status.Fail? then [GateBlocker(c.id, KnownFailure, c.status, c.reasonCode)] else [])
  }

  function Pending(checks: seq<Check>): seq<GateBlocker> {
    if checks == [] then []
    else
      var c := checks[|checks| - 1];
      Pending(checks[..|checks| - 1])
      + (if c.mode.Required? && c.status.Unresolved() then
           [GateBlocker(c.id, if c.missing then MissingResult else UnresolvedResult, c.status, c.reasonCode)]
         else [])
  }

  function Decide(checks: seq<Check>, scores: Aggregate): GateResult {
    var failures, pending := Failures(checks), Pending(checks);
    GateResult(if failures != [] then FailDecision else if pending != [] then Indeterminate else PassDecision,
               pending == [], scores, failures + pending)
  }

  ghost predicate RequiredFailure(checks: seq<Check>) {
    exists k :: 0 <= k < |checks| && checks[k].mode.Required? && checks[k].status.Fail?
  }

  ghost predicate RequiredUnresolved(checks: seq<Check>) {
    exists k :: 0 <= k < |checks| && checks[k].mode.Required? && checks[k].status.Unresolved()
  }

  lemma {:induction false} BlockersExact(checks: seq<Check>)
    ensures Failures(checks) != [] <==> RequiredFailure(checks)
    ensures Pending(checks) != [] <==> RequiredUnresolved(checks)
  {
    if checks != [] {
      var n := |checks| - 1;
      var front := checks[..n];
      BlockersExact(front);
      assert checks == front + [checks[n]];
      if RequiredFailure(front) {
        var k :| 0 <= k < n && front[k].mode.Required? && front[k].status.Fail?;
        assert checks[k] == front[k];
      }
      if RequiredUnresolved(front) {
        var k :| 0 <= k < n && front[k].mode.Required? && front[k].status.Unresolved();
        assert checks[k] == front[k];
      }
    }
  }

  /** Fail exactly on a required failure; otherwise indeterminate exactly on a
      required unresolved check; otherwise every required check passed or does not apply. */
  lemma DecisionIsExact(checks: seq<Check>, scores: Aggregate)
    ensures Decide(checks, scores).decision.FailDecision? <==> RequiredFailure(checks)
    ensures Decide(checks, scores).decision.PassDecision? <==>
            forall k :: 0 <= k < |checks| && checks[k].mode.Required? ==>
                checks[k].status.Pass? || checks[k].status.NotApplicable?
    ensures Decide(checks, scores).complete <==> !RequiredUnresolved(checks)
  {
    BlockersExact(checks);
    if !RequiredFailure(checks) && !RequiredUnresolved(checks) {
      forall k | 0 <= k < |checks| && checks[k].mode.Required?
        ensures checks[k].status.Pass? || checks[k].status.NotApplicable?
      {
        assert !checks[k].status.Fail? && !checks[k].status.Unresolved();
      }
    }
  }

  /** The blocker that a required check raises: its failure, or its want of a result. */
  ghost predicate Raises(c: Check, x: GateBlocker) {
    && c.mode == Required && x.checkId == c.id && x.status == c.status && x.reasonCode == c.reasonCode
    && match x.kind
       case KnownFailure => c.status == Fail
       case UnresolvedResult => c.status in {Unknown, Error, Skipped} && !c.missing
       case MissingResult => c.status in {Unknown, Error, Skipped} && c.missing
  }

  lemma {:induction false} BlockersRaised(checks: seq<Check>, x: GateBlocker)
    ensures x in Failures(checks) <==> x.kind == KnownFailure && exists c :: c in checks && Raises(c, x)
    ensures x in Pending(checks) <==> x.kind != KnownFailure && exists c :: c in checks && Raises(c, x)
  {
    hide Raises;
    if checks != [] {
      var front, last := checks[..|checks| - 1], checks[|checks| - 1];
      BlockersRaised(front, x);
      assert checks == front + [last];
      assert Failures(checks) == Failures(front) + Failures([last]) by { assert [last][..0] == []; }
      assert Pending(checks) == Pending(front) + Pending([last]) by { assert [last][..0] == []; }
      RaisedByOne(last, x);
    }
  }

  lemma RaisedByOne(c: Check, x: GateBlocker)
    ensures x in Failures([c]) <==> x.kind == KnownFailure && Raises(c, x)
    ensures x in Pending([c]) <==> x.kind != KnownFailure && Raises(c, x)
  {
    assert [c][..0] == [];
    assert x == GateBlocker(x.checkId, x.kind, x.status, x.reasonCode);
  }

  /** The blockers of a decision are exactly those its required checks raise, failures first. */
  lemma BlockersAreExact(checks: seq<Check>, scores: Aggregate, x: GateBlocker)
    ensures x in Decide(checks, scores).blockers <==> exists c :: c in checks && Raises(c, x)
    ensures var blockers := Decide(checks, scores).blockers;
            forall i, j :: 0 <= i < j < |blockers| && blockers[j].kind == KnownFailure ==>
              blockers[i].kind == KnownFailure
  {
    hide Raises;
    BlockersRaised(checks, x);
    var failures, pending := Failures(checks), Pending(checks);
    forall k | 0 <= k < |failures| ensures failures[k].kind == KnownFailure { BlockersRaised(checks, failures[k]); }
    forall k | 0 <= k < |pending| ensures pending[k].kind != KnownFailure { BlockersRaised(checks, pending[k]); }
  }

  /** Two assessments that differ only in their advisory checks and in scores. */
  ghost predicate SameRequired(a: seq<Check>, b: seq<Check>) {
    && |a| == |b|
    && forall k :: 0 <= k < |a| ==>
         || (a[k].mode.Advisory? && b[k].mode.Advisory?)
         || a[k] == b[k].(score := a[k].score, weight := a[k].weight,
            scoreEligible := a[k].scoreEligible, dimension := a[k].dimension)
  }

  /** No score, weight or advisory result can move the decision or its blockers. */
  lemma {:induction false} GateIgnoresScores(a: seq<Check>, b: seq<Check>, sa: Aggregate, sb: Aggregate)
    requires SameRequired(a, b)
    ensures Failures(a) == Failures(b) && Pending(a) == Pending(b)
    ensures Decide(a, sa) == Decide(b, sb).(scores := sa)
  {
    if a != [] {
      var n := |a| - 1;
      GateIgnoresScores(a[..n], b[..n], sa, sb);
    }
  }

  /** `after` gives results to some unresolved checks of `before` and changes nothing else. */
  ghost predicate Resolves(before: seq<Check>, after: seq<Check>) {
    && |after| == |before|
    && forall k :: 0 <= k < |before| ==>
         if before[k].status.Unresolved() then after[k].mode == before[k].mode else after[k] == before[k]
  }

  /** Resolving evidence never clears a failure and never spoils a pass. */
  lemma ResolvingNeverClears(before: seq<Check>, after: seq<Check>, sa: Aggregate, sb: Aggregate)
    requires Resolves(before, after)
    ensures Decide(before, sa).decision.FailDecision? ==> Decide(after, sb).decision.FailDecision?
    ensures Decide(before, sa).decision.PassDecision? ==> Decide(after, sb).decision.PassDecision?
  {
    DecisionIsExact(before, sa);
    DecisionIsExact(after, sb);
    if RequiredFailure(before) {
      var k :| 0 <= k < |before| && before[k].mode.Required? && before[k].status.Fail?;
      assert after[k] == before[k];
    }
  }

  // ----- Evaluation -----

  datatype Profile = Offline | Release

  datatype CheckPolicy = CheckPolicy(
    id: string, dimension: string, weight: nat, scoreEligible: bool, offlineMode: CheckMode, releaseMode: CheckMode,
        applicability: bool)
  {
    function ModeFor(profile: Profile): CheckMode { if profile.Offline? then offlineMode else releaseMode }
  }

  /** One submitted measurement; evidence entries are (kind, value) pairs. */
  datatype CheckResult = CheckResult(id: string, status: CheckStatus, score: Option<nat>, reasonCode: string,
      evidence: seq<(string, string)>) {
    predicate Valid() { (status.Known() <==> score.Some?) && (score.Some? ==> score.value <= FULL) }
  }

  datatype Policy = Policy(dimensions: seq<DimensionPolicy>, checks: seq<CheckPolicy>)

  ghost predicate ValidPolicy(p: Policy) {
    && (forall k :: 0 <= k < |p.dimensions| ==> p.dimensions[k].weight > 0)
    && (forall k :: 0 <= k < |p.checks| ==> p.checks[k].weight > 0)
    && (forall i, j :: 0 <= i < j < |p.checks| ==> p.checks[i].id != p.checks[j].id)
  }

  datatype EvaluationError =
    DuplicateArtifact | DirtyRelease | DuplicateResult | UnknownCheck | MissingArtifact | UnjustifiedNotApplicable

  datatype Evaluation =
    | Evaluated(checks: seq<Check>, dimensions: seq<Dimension>, gate: GateResult)
    | Invalid(error: EvaluationError)

  const MISSING_REASON := "POLICY_CHECK_MISSING"

  /** The submission for a policy check, if any. */
  function Submitted(results: seq<CheckResult>, id: string): Option<CheckResult> {
    if results == [] then None
    else if results[|results| - 1].id == id then Some(results[|results| - 1])
    else Submitted(results[..|results| - 1], id)
  }

  lemma {:induction false} SubmittedExact(results: seq<CheckResult>, id: string)
    ensures Submitted(results, id).Some? <==> exists k :: 0 <= k < |results| && results[k].id == id
    ensures Submitted(results, id).Some? ==>
            Submitted(results, id).value in results && Submitted(results, id).value.id == id
  {
    if results != [] && results[|results| - 1].id != id {
      var front := results[..|results| - 1];
      SubmittedExact(front, id);
      if k :| 0 <= k < |results| && results[k].id == id { assert front[k] == results[k]; }
      if Submitted(results, id).Some? {
        var k :| 0 <= k < |front| && front[k].id == id;
        assert results[k] == front[k];
      }
    }
  }

  /** A check enriched from the policy; a missing result counts as unknown. */
  function AssessCheck(cp: CheckPolicy, profile: Profile, results: seq<CheckResult>): Check {
    var found := Submitted(results, cp.id);
    if found.None? then
      Check(cp.id, cp.dimension, cp.ModeFor(profile), Unknown, None, cp.weight, cp.scoreEligible, MISSING_REASON, true)
    else
      Check(cp.id, cp.dimension, cp.ModeFor(profile), found.value.status, found.value.score, cp.weight,
          cp.scoreEligible,
            found.value.reasonCode, false)
  }

  /** Declared not applicable without a policy rule or without evidence. */
  predicate Unjustified(cp: CheckPolicy, results: seq<CheckResult>) {
    var found := Submitted(results, cp.id);
    found.Some? && found.value.status.NotApplicable? && (!cp.applicability || found.value.evidence == [])
  }

  predicate DistinctIds(results: seq<CheckResult>) {
    forall i, j :: 0 <= i < j < |results| ==> results[i].id != results[j].id
  }

  predicate KnownIds(p: Policy, results: seq<CheckResult>) {
    forall k :: 0 <= k < |results| ==> exists j :: 0 <= j < |p.checks| && p.checks[j].id == results[k].id
  }

  predicate ArtifactsPresent(results: seq<CheckResult>, artifacts: seq<string>) {
    forall k :: 0 <= k < |results| ==> forall e :: e in results[k].evidence && e.0 == "artifact" ==> e.1 in artifacts
  }

  /** The submissions are well formed for the policy. */
  ghost predicate Acceptable(
      p: Policy, results: seq<CheckResult>, profile: Profile, dirty: bool, artifacts: seq<string>) {
    && NoDuplicates(artifacts) && !(profile.Release? && dirty)
    && DistinctIds(results) && KnownIds(p, results) && ArtifactsPresent(results, artifacts)
    && forall k :: 0 <= k < |p.checks| ==> !Unjustified(p.checks[k], results)
  }

  /** A required check is satisfied: submitted, and passed or justifiably not applicable. */
  ghost predicate Satisfied(cp: CheckPolicy, results: seq<CheckResult>) {
    exists r :: r in results && r.id == cp.id &&
      (r.status.Pass? || (r.status.NotApplicable? && cp.applicability && r.evidence != []))
  }

  ghost predicate Failed(cp: CheckPolicy, results: seq<CheckResult>) {
    exists r :: r in results && r.id == cp.id && r.status.Fail?
  }

  /** Every check that the release profile requires, or that the offline profile does, is satisfied. */
  ghost predicate Passes(p: Policy, profile: Profile, results: seq<CheckResult>) {
    match profile
    case Release => forall cp :: cp in p.checks && cp.releaseMode == Required ==> Satisfied(cp, results)
    case Offline => forall cp :: cp in p.checks && cp.offlineMode == Required ==> Satisfied(cp, results)
  }

  /** One of them was submitted as failed. */
  ghost predicate Fails(p: Policy, profile: Profile, results: seq<CheckResult>) {
    match profile
    case Release => exists cp :: cp in p.checks && cp.releaseMode == Required && Failed(cp, results)
    case Offline => exists cp :: cp in p.checks && cp.offlineMode == Required && Failed(cp, results)
  }

  /** What a check carries of its policy and its submission, or of the lack of one. */
  ghost predicate Carries(c: Check, cp: CheckPolicy, results: seq<CheckResult>) {
    && c.id == cp.id && c.dimension == cp.dimension && c.weight == cp.weight && c.scoreEligible == cp.scoreEligible
    && (c.missing <==> forall r :: r in results ==> r.id != cp.id)
    && (c.missing ==> c.status == Unknown && c.score == None && c.reasonCode == "POLICY_CHECK_MISSING")
    && (forall r :: r in results && r.id == cp.id ==>
          c.status == r.status && c.score == r.score && c.reasonCode == r.reasonCode)
  }

  lemma SubmissionIsUnique(results: seq<CheckResult>, r: CheckResult)
    requires DistinctIds(results) && r in results
    ensures Submitted(results, r.id) == Some(r)
  {
    SubmittedExact(results, r.id);
    var i :| 0 <= i < |results| && results[i] == r;
    var found := Submitted(results, r.id).value;
    var j :| 0 <= j < |results| && results[j] == found;
    if i < j { assert results[i].id != results[j].id; }
    if j < i { assert results[j].id != results[i].id; }
  }

  /** The gate is non-compensating for every policy and result set: it passes
      exactly when every required check is satisfied by a submission, and fails
      exactly when some required check was submitted as failed. */
  lemma GateIsNonCompensating(
      p: Policy, results: seq<CheckResult>, profile: Profile, dirty: bool, artifacts: seq<string>, checks: seq<Check>,
      scores: Aggregate)
    requires ValidPolicy(p) && Acceptable(p, results, profile, dirty, artifacts)
    requires |checks| == |p.checks| && forall k :: 0 <= k < |p.checks| ==>
             checks[k] == AssessCheck(p.checks[k], profile, results)
    ensures Decide(checks, scores).decision.PassDecision? <==> Passes(p, profile, results)
    ensures Decide(checks, scores).decision.FailDecision? <==> Fails(p, profile, results)
  {
    hide Decide, Satisfied, Failed, ValidPolicy, Submitted, KnownIds, ArtifactsPresent;
    DecisionIsExact(checks, scores);
    forall k | 0 <= k < |p.checks|
      ensures Satisfied(p.checks[k], results) <==> checks[k].status.Pass? || checks[k].status.NotApplicable?
      ensures Failed(p.checks[k], results) <==> checks[k].status.Fail?
    {
      CheckMeans(p.checks[k], profile, results);
    }
    if RequiredFailure(checks) {
      var k :| 0 <= k < |checks| && checks[k].mode.Required? && checks[k].status.Fail?;
      assert p.checks[k] in p.checks && Failed(p.checks[k], results);
    }
    forall cp | cp in p.checks ensures exists k :: 0 <= k < |p.checks| && p.checks[k] == cp {}
  }

  lemma CheckMeans(cp: CheckPolicy, profile: Profile, results: seq<CheckResult>)
    requires DistinctIds(results) && !Unjustified(cp, results)
    ensures var c := AssessCheck(cp, profile, results);
            && (Satisfied(cp, results) <==> c.status.Pass? || c.status.NotApplicable?)
            && (Failed(cp, results) <==> c.status.Fail?)
            && Carries(c, cp, results)
  {
    SubmittedExact(results, cp.id);
    var found := Submitted(results, cp.id);
    if found.Some? {
      assert found.value in results;
    }
    forall r | r in results && r.id == cp.id ensures found == Some(r) { SubmissionIsUnique(results, r); }
  }

  /** Apply the policy to the submitted results, score them, and decide. */
  method Evaluate(
      p: Policy, results: seq<CheckResult>, profile: Profile, dirty: bool, artifacts: seq<string>)
    returns (e: Evaluation)
    requires ValidPolicy(p)
    requires forall k :: 0 <= k < |results| ==> results[k].Valid()
    ensures e.Evaluated? <==> Acceptable(p, results, profile, dirty, artifacts)
    ensures e.Evaluated? ==>
              && |e.checks| == |p.checks|
              && (forall k :: 0 <= k < |p.checks| ==> e.checks[k] == AssessCheck(p.checks[k], profile, results))
              && AllValid(e.checks)
              && e.dimensions == Dimensions(p.dimensions, e.checks)
              && e.gate == Decide(e.checks, ScoreDimensions(e.dimensions))
    ensures e == Invalid(DuplicateArtifact) <==> !NoDuplicates(artifacts)
    ensures e == Invalid(DirtyRelease) <==> NoDuplicates(artifacts) && profile == Release && dirty
    ensures e == Invalid(DuplicateResult) <==>
            NoDuplicates(artifacts) && !(profile == Release && dirty) && !DistinctIds(results)
    ensures e == Invalid(UnknownCheck) ==> DistinctIds(results) && !KnownIds(p, results)
    ensures e == Invalid(MissingArtifact) ==> KnownIds(p, results) && !ArtifactsPresent(results, artifacts)
    ensures e == Invalid(UnjustifiedNotApplicable) ==>
            ArtifactsPresent(results, artifacts) && exists k :: 0 <= k < |p.checks| && Unjustified(p.checks[k], results)
    ensures e.Evaluated? ==> forall k :: 0 <= k < |p.checks| ==> Carries(e.checks[k], p.checks[k], results)
    ensures e.Evaluated? ==> (e.gate.decision == PassDecision <==> Passes(p, profile, results))
    ensures e.Evaluated? ==> (e.gate.decision == FailDecision <==> Fails(p, profile, results))
  {
    if exists i, j :: 0 <= i < j < |artifacts| && artifacts[i] == artifacts[j] { return Invalid(DuplicateArtifact); }
    if profile.Release? && dirty { return Invalid(DirtyRelease); }
    if !DistinctIds(results) { return Invalid(DuplicateResult); }
    if !KnownIds(p, results) { return Invalid(UnknownCheck); }
    if !ArtifactsPresent(results, artifacts) { return Invalid(MissingArtifact); }
    var submitted := IndexResults(results);
    var checks: seq<Check> := [];
    for i := 0 to |p.checks|
      invariant |checks| == i
      invariant forall k :: 0 <= k < i ==>
                checks[k] == AssessCheck(p.checks[k], profile, results) && !Unjustified(p.checks[k], results)
      invariant AllValid(checks)
    {
      var cp := p.checks[i];
      var missing := cp.id !in submitted;
      SubmittedExact(results, cp.id);
      assert missing <==> Submitted(results, cp.id).None?;
      var result := if missing then CheckResult(cp.id, Unknown, None, MISSING_REASON, []) else submitted[cp.id];
      if result.status.NotApplicable? && (!cp.applicability || result.evidence == []) {
        return Invalid(UnjustifiedNotApplicable);
      }
      var check := Check(cp.id, cp.dimension, cp.ModeFor(profile), result.status, result.score, cp.weight,
          cp.scoreEligible, result.reasonCode, missing);
      checks := checks + [check];
    }
    var dimensions := Dimensions(p.dimensions, checks);
    e := Evaluated(checks, dimensions, Decide(checks, ScoreDimensions(dimensions)));
    GateIsNonCompensating(p, results, profile, dirty, artifacts, checks, ScoreDimensions(dimensions));
    forall k | 0 <= k < |p.checks| ensures Carries(checks[k], p.checks[k], results) {
      CheckMeans(p.checks[k], profile, results);
    }
  }

  method IndexResults(results: seq<CheckResult>) returns (submitted: map<string, CheckResult>)
    ensures forall id :: (if id in submitted then Some(submitted[id]) else None) == Submitted(results, id)
  {
    submitted := map[];
    for i := 0 to |results|
      invariant forall id :: (if id in submitted then Some(submitted[id]) else None) == Submitted(results[..i], id)
    {
      assert results[..i + 1][..i] == results[..i];
      submitted := submitted[results[i].id := results[i]];
    }
    assert results[..|results|] == results;
  }
}
