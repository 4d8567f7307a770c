/** Categorized HTTP retry: what every run of the retry loop guarantees, for
    any sequence of responses and any clock.  Retry-After follows section
    10.2.3 of RFC 9110; status 429 is section 4 of RFC 6585. */
module Retry {
  import opened Ordering

  // ----- Failures and their headers -----

  /** A header value once the library's number and date parsers have seen it. */
  datatype HeaderValue = Number(value: real) | NotFinite | HttpDate(timestamp: real) | Garbage

  datatype Headers = Headers(retryAfter: Option<HeaderValue>, remainingIsZero: bool, reset: Option<HeaderValue>)

  datatype Failure =
    | HttpError(code: int, headers: Option<Headers>)
    | ProtocolError
    | OsError
    | OtherError

  datatype Response = Value(result: int) | Failed(failure: Failure)

  datatype Kind = Transient | RateLimited | Fatal

  /** Turned down for asking too often: 429, or a 403 whose headers say so. */
  predicate Throttled(f: Failure) {
    f.HttpError? &&
    (|| f.code == 429
     || (f.code == 403 && f.headers.Some? && (f.headers.value.remainingIsZero || f.headers.value.retryAfter != None)))
  }

  /** Worth another try as it is: no HTTP answer, a timeout, a request sent too early, or a
      server error other than "not implemented". */
  predicate Passing(f: Failure) {
    || f == ProtocolError || f == OsError
    || (f.HttpError? && (f.code == 408 || f.code == 425 || f.code == 500 || 502 <= f.code < 600))
  }

  function Classify(f: Failure): (kind: Kind)
    ensures kind.RateLimited? <==> Throttled(f)
    ensures kind.Transient? <==> Passing(f)
  {
    match f
    case HttpError(code, headers) =>
      if code == 429 then RateLimited
      else if code == 403 then
        if headers.Some? &&
            (headers.value.remainingIsZero || headers.value.retryAfter.Some?) then RateLimited else Fatal
      else if code == 408 || code == 425 then Transient
      else if 500 <= code <= 599 && code != 501 then Transient
      else Fatal
    case ProtocolError => Transient
    case OsError => Transient
    case OtherError => Fatal
  }

  function NonNegative(x: real): real { if x < 0.0 then 0.0 else x }

  /** A usable Retry-After number is the wait, whatever else is there; then a Retry-After
      date; only without either does the reset time of an exhausted limit count.  A time
      already past is no wait at all. */
  ghost predicate Advises(headers: Headers, now: real, h: Option<real>) {
    match headers.retryAfter
    case Some(Number(seconds)) => if seconds >= 0.0 then h == Some(seconds) else AdvisesReset(headers, now, h)
    case Some(HttpDate(at)) => h == Some(if at <= now then 0.0 else at - now)
    case _ => AdvisesReset(headers, now, h)
  }

  ghost predicate AdvisesReset(headers: Headers, now: real, h: Option<real>) {
    match headers.reset
    case Some(Number(at)) =>
      h == if headers.remainingIsZero && at >= 0.0 then Some(if at <= now then 0.0 else at - now) else None
    case _ => h == None
  }

  /** The server-advised wait: Retry-After seconds, then Retry-After date, then the rate-limit reset. */
  function Hint(f: Failure, now: real): (h: Option<real>)
    ensures h.Some? ==> h.value >= 0.0 && f.HttpError? && f.headers.Some?
    ensures f.HttpError? && f.headers.Some? ==> Advises(f.headers.value, now, h)
  {
    if !f.HttpError? || f.headers.None? then None
    else
      var h := f.headers.value;
      if h.retryAfter.Some? && h.retryAfter.value.Number? &&
          h.retryAfter.value.value >= 0.0 then Some(h.retryAfter.value.value)
      else if h.retryAfter.Some? &&
          h.retryAfter.value.HttpDate? then Some(NonNegative(h.retryAfter.value.timestamp - now))
      else if h.remainingIsZero && h.reset.Some? && h.reset.value.Number? && h.reset.value.value >= 0.0 then
        Some(NonNegative(h.reset.value.value - now))
      else None
  }

  // ----- The loop -----

  datatype Policy = Policy(maxAttempts: int, baseDelay: real, maxDelay: real, maxRateLimitDelay: real,
      maxTotalWait: Option<real>) {
    predicate Valid() {
      && maxAttempts >= 1 && baseDelay >= 0.0 && maxDelay >= 0.0 && maxRateLimitDelay >= 0.0
      && (maxTotalWait.Some? ==> maxTotalWait.value >= 0.0)
    }

    /** Only a throttled failure may be waited for up to the rate-limit cap. */
    function Cap(f: Failure): real { if Throttled(f) then maxRateLimitDelay else maxDelay }
  }

  datatype Outcome =
    | Returned(result: int)
    | Raised(failure: Failure)
    | CapExceeded(resetsAt: real)
    | BudgetExceeded
    | InvalidPolicy
    | LoopExhausted

  function PowerOfTwo(k: nat): (r: real)
    ensures r >= 1.0
  {
    if k == 0 then 1.0 else 2.0 * PowerOfTwo(k - 1)
  }

  /** Exponential backoff after the given attempt. */
  function Backoff(p: Policy, attempt: nat): real
    requires attempt >= 1
  {
    p.baseDelay * PowerOfTwo(attempt - 1)
  }

  /** The first backoff is the base delay, and each doubles the one before. */
  lemma BackoffDoubles(p: Policy, attempt: nat)
    requires attempt >= 1
    ensures Backoff(p, 1) == p.baseDelay
    ensures Backoff(p, attempt + 1) == 2.0 * Backoff(p, attempt)
  {
    assert PowerOfTwo(0) == 1.0;
    var x := PowerOfTwo(attempt - 1);
    assert PowerOfTwo(attempt) == 2.0 * x;
    assert p.baseDelay * (2.0 * x) == 2.0 * (p.baseDelay * x);
  }

  function Smaller(a: real, b: real): real { if b < a then b else a }

  function Total(sleeps: seq<real>): real {
    if sleeps == [] then 0.0 else Total(sleeps[..|sleeps| - 1]) + sleeps[|sleeps| - 1]
  }

  lemma TotalNone()
    ensures Total([]) == 0.0
  {
  }

  lemma TotalAppend(sleeps: seq<real>, wait: real)
    ensures Total(sleeps + [wait]) == Total(sleeps) + wait
  {
    assert (sleeps + [wait])[..|sleeps|] == sleeps;
  }

  /** A rate-limit hint beyond the cap. */
  predicate Oversized(p: Policy, f: Failure, now: real) {
    Throttled(f) && Hint(f, now).Some? && Hint(f, now).value > p.maxRateLimitDelay
  }

  /** The wait before retry number `attempt`: the hint or the backoff, capped by kind. */
  function Wait(p: Policy, f: Failure, now: real, attempt: nat): real
    requires attempt >= 1
  {
    var hint := Hint(f, now);
    Smaller(if hint.Some? then hint.value else Backoff(p, attempt), p.Cap(f))
  }

  /** A failure the loop sleeps on: throttled or passing, and without an oversized hint. */
  predicate Retried(p: Policy, r: Response, now: real) {
    r.Failed? && (Throttled(r.failure) || Passing(r.failure)) && !Oversized(p, r.failure, now)
  }

  ghost predicate WithinTotal(p: Policy, waited: real) {
    p.maxTotalWait.Some? ==> waited <= p.maxTotalWait.value
  }

  /** Every sleep followed a failure worth retrying, and lasted exactly its prescribed wait. */
  ghost predicate Slept(p: Policy, respond: nat -> Response, clock: nat -> real, sleeps: seq<real>) {
    forall i :: 0 <= i < |sleeps| ==>
      Retried(p, respond(i), clock(i)) && sleeps[i] == Wait(p, respond(i).failure, clock(i), i + 1)
  }

  /** The call numbered `i` is slept on exactly when its failure is one to retry, another
      attempt is left, and the wait fits into what remains of the total. */
  ghost predicate SleptOn(p: Policy, respond: nat -> Response, clock: nat -> real, sleeps: seq<real>, i: nat)
    requires i <= |sleeps|
  {
    i < |sleeps| <==>
      && Retried(p, respond(i), clock(i)) && i + 1 < p.maxAttempts
      && WithinTotal(p, Total(sleeps[..i]) + Wait(p, respond(i).failure, clock(i), i + 1))
  }

  lemma StillSlept(p: Policy, respond: nat -> Response, clock: nat -> real, sleeps: seq<real>, wait: real)
    requires forall i :: 0 <= i < |sleeps| ==> SleptOn(p, respond, clock, sleeps, i)
    requires Retried(p, respond(|sleeps|), clock(|sleeps|)) && |sleeps| + 1 < p.maxAttempts
    requires wait == Wait(p, respond(|sleeps|).failure, clock(|sleeps|), |sleeps| + 1)
    requires WithinTotal(p, Total(sleeps) + wait)
    ensures forall i :: 0 <= i < |sleeps + [wait]| ==> SleptOn(p, respond, clock, sleeps + [wait], i)
  {
    hide Retried, Wait, Total;
    forall i | 0 <= i < |sleeps + [wait]| ensures SleptOn(p, respond, clock, sleeps + [wait], i) {
      assert (sleeps + [wait])[..i] == sleeps[..i];
      if i == |sleeps| { assert sleeps[..i] == sleeps; } else { assert SleptOn(p, respond, clock, sleeps, i); }
    }
  }

  /** How a run of `calls` calls must end, given its last response. */
  ghost predicate Ends(p: Policy, last: Response, now: real, calls: nat, waited: real, o: Outcome)
    requires calls >= 1
  {
    if last.Value? then o == Returned(last.result)
    else if Oversized(p, last.failure, now) then o == CapExceeded(now + Hint(last.failure, now).value)
    else if !(Throttled(last.failure) || Passing(last.failure)) || calls == p.maxAttempts then o == Raised(last.failure)
    else o == BudgetExceeded && !WithinTotal(p, waited + Wait(p, last.failure, now, calls))
  }

  /** Call until success, a final failure, or exhaustion; `calls` and `sleeps` are
      the run's effects. The statement after the loop is never reached. */
  method RetryHttp(
      p: Policy, respond: nat -> Response, clock: nat -> real)
    returns (o: Outcome, calls: nat, sleeps: seq<real>)
    ensures !o.LoopExhausted?
    ensures o.InvalidPolicy? <==> !p.Valid()
    ensures o.InvalidPolicy? ==> calls == 0 && sleeps == []
    ensures p.Valid() ==> 1 <= calls <= p.maxAttempts && |sleeps| == calls - 1
    ensures p.Valid() ==> WithinTotal(p, Total(sleeps))
    ensures p.Valid() ==> Slept(p, respond, clock, sleeps)
    ensures p.Valid() ==> forall i :: 0 <= i < calls ==> SleptOn(p, respond, clock, sleeps, i)
    ensures p.Valid() ==> Ends(p, respond(calls - 1), clock(calls - 1), calls, Total(sleeps), o)
  {
    hide Classify, Hint, Backoff, Total, Throttled, Passing;
    o, calls, sleeps := InvalidPolicy, 0, [];
    if p.maxAttempts < 1 { return; }
    if p.baseDelay < 0.0 || p.maxDelay < 0.0 || p.maxRateLimitDelay < 0.0 { return; }
    if p.maxTotalWait.Some? && p.maxTotalWait.value < 0.0 { return; }
    o := LoopExhausted;
    var waited := 0.0;
    assert Total(sleeps) == 0.0 by { TotalNone(); }
    var attempt := 1;
    while attempt <= p.maxAttempts
      invariant 1 <= attempt <= p.maxAttempts
      invariant calls == attempt - 1 == |sleeps|
      invariant waited == Total(sleeps) && WithinTotal(p, waited)
      invariant Slept(p, respond, clock, sleeps)
      invariant forall i :: 0 <= i < |sleeps| ==> SleptOn(p, respond, clock, sleeps, i)
      decreases p.maxAttempts - attempt
    {
      var response := respond(calls);
      var now := clock(calls);
      calls := calls + 1;
      if response.Value? { return Returned(response.result), calls, sleeps; }
      var failure := response.failure;
      var kind := Classify(failure);
      if kind.Fatal? { return Raised(failure), calls, sleeps; }
      var hint := Hint(failure, now);
      if kind.RateLimited? && hint.Some? && hint.value > p.maxRateLimitDelay {
        return CapExceeded(now + hint.value), calls, sleeps;
      }
      if attempt >= p.maxAttempts { return Raised(failure), calls, sleeps; }
      var cap := if kind.RateLimited? then p.maxRateLimitDelay else p.maxDelay;
      var delay := if hint.Some? then hint.value else Backoff(p, attempt);
      var wait := Smaller(delay, cap);
      assert sleeps[..|sleeps|] == sleeps;
      if p.maxTotalWait.Some? && waited + wait > p.maxTotalWait.value { return BudgetExceeded, calls, sleeps; }
      waited := waited + wait;
      TotalAppend(sleeps, wait);
      StillSlept(p, respond, clock, sleeps, wait);
      sleeps := sleeps + [wait];
      attempt := attempt + 1;
    }
    assert false;
  }

  // ----- What a run's sleeps mean -----

  /** A rate-limited failure that came with a hint is retried exactly when the hint is
      no longer than the rate-limit cap, and then sleeps exactly that hint: never less,
      since an oversized hint is refused instead of clamped. */
  lemma HintIsSleptInFull(p: Policy, f: Failure, now: real, attempt: nat)
    requires attempt >= 1 && Throttled(f) && Hint(f, now).Some?
    ensures Retried(p, Failed(f), now) <==> Hint(f, now).value <= p.maxRateLimitDelay
    ensures Retried(p, Failed(f), now) ==> Wait(p, f, now, attempt) == Hint(f, now).value
  {
  }

  /** Every wait is non-negative and at most the hint, or the backoff where there is none,
      and it falls short of that only where the cap for its failure does: the rate-limit cap
      for a throttled one and the plain cap for any other. */
  lemma WaitIsCapped(p: Policy, f: Failure, now: real, attempt: nat)
    requires p.Valid() && attempt >= 1
    ensures var wait, cap := Wait(p, f, now, attempt), if Throttled(f) then p.maxRateLimitDelay else p.maxDelay;
            var asked := if Hint(f, now).Some? then Hint(f, now).value else Backoff(p, attempt);
            0.0 <= wait <= cap && wait <= asked && (wait == asked || wait == cap)
  {
    ProductNonNegative(p.baseDelay, PowerOfTwo(attempt - 1));
  }

  lemma ProductNonNegative(a: real, b: real)
    requires a >= 0.0 && b >= 0.0
    ensures a * b >= 0.0
  {
  }

  /** Without hints, waits of one kind never shrink from one attempt to the next. */
  lemma BackoffGrows(p: Policy, f: Failure, g: Failure, nowF: real, nowG: real, attempt: nat)
    requires p.Valid() && attempt >= 1 && Throttled(f) == Throttled(g) && Hint(f, nowF).None? && Hint(g, nowG).None?
    ensures Wait(p, f, nowF, attempt) <= Wait(p, g, nowG, attempt + 1)
  {
    hide Hint, Throttled;
    BackoffDoubles(p, attempt);
    ProductNonNegative(p.baseDelay, PowerOfTwo(attempt - 1));
  }
}
