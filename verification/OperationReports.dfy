/** What the report of a run says, and why it can be trusted. */
module OperationReports {
  import opened Prelude
  import opened Exceptions
  import opened Policies
  import Retry
  import opened OperationSpec
  import opened OperationTrace

  /** The report's `last_error`: the error of the most recent attempt that has one. */
  function LastError(attempts: seq<Attempt>): Option<ErrorRecord> {
    if attempts == [] then None
    else if attempts[|attempts| - 1].error.Some? then attempts[|attempts| - 1].error
    else LastError(attempts[..|attempts| - 1])
  }

  /** `earlier` are `k` primary attempts that all failed and were recorded so. */
  predicate FailedRun(attempts: seq<Attempt>) {
    && PrimaryRun(attempts)
    && forall i :: 0 <= i < |attempts| ==> !attempts[i].status.Succeeded? && attempts[i].error.Some?
  }

  /** The report `o` carries is in order for a run whose last primary attempt is number `k`. */
  ghost predicate InOrder(o: Outcome, k: nat) {
    var attempts := o.report.attempts;
    && o.report.Allowed()
    && (o.Completed? <==> o.report.status.Succeeded?)
    && 1 <= k <= |attempts| <= k + 1
    && o.report.RetryCount() == k - 1
    && (forall i :: 0 <= i < |attempts| ==>
          attempts[i].Allowed() && attempts[i].number == i + 1 && (attempts[i].fallback <==> i == k))
    && (forall i :: 0 <= i < |attempts| - 1 ==> !attempts[i].status.Succeeded?)
    && (forall i :: 0 <= i < k - 1 ==> attempts[i].error.Some? && attempts[i].error.value.retryable)
    && Last(attempts).status == o.report.status && Last(attempts).meta == o.report.meta.last
    && (o.FailedWith? ==>
          && o.report.status == StatusOf(o.cause)
          && LastError(attempts) == Last(attempts).error
          && LastError(attempts).Some? && LastError(attempts).value.class_ == ClassOf(o.cause))
    && (LastError(attempts).None? <==> o.Completed? && |attempts| == 1)
  }

  function Last(attempts: seq<Attempt>): Attempt
    requires attempts != []
  {
    attempts[|attempts| - 1]
  }

  predicate AllRetryable(attempts: seq<Attempt>) {
    forall i :: 0 <= i < |attempts| ==> attempts[i].error.Some? && attempts[i].error.value.retryable
  }

  lemma {:induction false} RetriedAttemptsFailed(op: Operation, sc: Script, n: nat)
    requires op.Valid() && AllRetried(op, sc, n)
    ensures var attempts := AttemptsBefore(op, sc, n);
      |attempts| == n && FailedRun(attempts) && AllRetryable(attempts)
  {
    AttemptsAreNumbered(op, sc, n);
    if n > 0 {
      hide Classify;
      hide TryAttempt;
      assert Retried(op, sc, n);
      RetriedAttemptsFailed(op, sc, n - 1);
    }
  }

  lemma AfterFailures(earlier: seq<Attempt>, a: Attempt)
    ensures LastError(earlier + [a]) == if a.error.Some? then a.error else LastError(earlier)
  {
    assert (earlier + [a])[..|earlier|] == earlier;
  }

  lemma FailuresShow(earlier: seq<Attempt>)
    requires FailedRun(earlier)
    ensures LastError(earlier).None? <==> earlier == []
  {
  }

  lemma SuccessInOrder(n: nat, value: Value, validation: ValidationMeta, earlier: seq<Attempt>, encountered: bool,
                       waited: real)
    requires n == |earlier| + 1 && FailedRun(earlier) && AllRetryable(earlier)
    ensures InOrder(SuccessEnding(n, value, validation, earlier, encountered, waited).outcome, n)
  {
    var a := Attempt(n, Succeeded, None, SuccessMeta(validation), false);
    PrimaryRunSnoc(earlier, a);
    AfterFailures(earlier, a);
    FailuresShow(earlier);
  }

  lemma FailureInOrder(f: Failure, earlier: seq<Attempt>, encountered: bool, waited: real)
    requires FailedRun(earlier) && AllRetryable(earlier)
    ensures InOrder(FailureEnding(f, earlier + [FailedAttempt(|earlier| + 1, f)], encountered, waited).outcome,
                    |earlier| + 1)
  {
    var a := FailedAttempt(|earlier| + 1, f);
    PrimaryRunSnoc(earlier, a);
    AfterFailures(earlier, a);
  }

  /** A fallback attempt on top of failed primary ones. */
  lemma FallbackInOrder(o: Outcome, f: Failure, earlier: seq<Attempt>, a: Attempt)
    requires FailedRun(earlier) && AllRetryable(earlier)
    requires o.report.attempts == earlier + [FailedAttempt(|earlier| + 1, f)] + [a]
    requires a.fallback && a.number == |earlier| + 2 && a.status == o.report.status && a.meta == o.report.meta.last
    requires match o
             case Completed(_, _) => a.status.Succeeded? && a.error.None?
             case FailedWith(e, _) => a.status == StatusOf(e) && a.error == Some(ErrorRecord(ClassOf(e), false))
    ensures InOrder(o, |earlier| + 1)
  {
    var failed := FailedAttempt(|earlier| + 1, f);
    PrimaryRunSnoc(earlier, failed);
    PrimaryRunSnoc(earlier + [failed], a);
    AfterFailures(earlier, failed);
    AfterFailures(earlier + [failed], a);
  }

  lemma StoppedInOrder(op: Operation, sc: Script, f: Failure, earlier: seq<Attempt>, encountered: bool, waited: real)
    requires op.Valid() && FailedRun(earlier) && AllRetryable(earlier)
    ensures var primary := earlier + [FailedAttempt(|earlier| + 1, f)];
      InOrder(StoppedEnding(op, sc, f, primary, encountered, waited).outcome, |earlier| + 1)
  {
    var primary := earlier + [FailedAttempt(|earlier| + 1, f)];
    if FallsBack(op, f.error) {
      var chain := op.fallback.value;
      var r := ChainOutcome(chain, Tries(op, sc));
      var o := ChainEnding(chain, r, primary, encountered, waited, f.plan.exceeded).outcome;
      hide InOrder;
      FallbackInOrder(o, f, earlier, o.report.attempts[|primary|]);
    } else {
      hide InOrder;
      FailureInOrder(f, earlier, encountered, waited);
    }
  }

  /** The report of every run satisfies the checks of its constructor. Its attempts are numbered
      from 1 without a gap, all but the last failed, all but the last primary one were retryable,
      and a fallback attempt can only come last. Its status, `retry_count` and `last_error` agree with the
      attempts and with the result. The fallback was used exactly when the last primary failure matched it. */
  lemma ReportDescribesRun(op: Operation, sc: Script)
    requires op.Valid()
    ensures InOrder(OutcomeOf(op, sc), LastAttempt(op, sc))
    ensures var k := LastAttempt(op, sc);
      |OutcomeOf(op, sc).report.attempts| == k + 1 <==>
        TryAttempt(op, sc, k).Err? && op.fallback.Some? && op.fallback.value.fallbackOn(FailureAt(op, sc, k).error)
  {
    hide *;
    var k := LastAttempt(op, sc);
    RetriedAttemptsFailed(op, sc, k - 1);
    OutcomeIsLastRound(op, sc);
    ReportSize(op, sc);
    var encountered, waited := LimitedBefore(op, sc, k - 1), WaitedBefore(op, sc, k - 1);
    match TryAttempt(op, sc, k)
    case Ok(v, m) =>
      LastRoundOnSuccess(op, sc, k);
      SuccessInOrder(k, v, m, AttemptsBefore(op, sc, k - 1), encountered, waited);
    case Err(_) =>
      var f := FailureAt(op, sc, k);
      LastRoundOnFailure(op, sc, k, f);
      StoppedInOrder(op, sc, f, AttemptsBefore(op, sc, k - 1), encountered || f.plan.limited, waited);
  }

  /** How an ending after a failure extends the attempts, and what it says of rate limits. */
  lemma StoppedShape(op: Operation, sc: Script, f: Failure, primary: seq<Attempt>, encountered: bool, waited: real)
    requires op.Valid()
    ensures var report := StoppedEnding(op, sc, f, primary, encountered, waited).outcome.report;
      && |report.attempts| == |primary| + (if FallsBack(op, f.error) then 1 else 0)
      && report.meta.encountered == encountered && report.meta.waited == waited
      && report.meta.exceeded == f.plan.exceeded
  {
    hide ChainOutcome;
    hide FallbackSuccessSteps;
    hide FallbackFailureSteps;
    hide FallbackOpening;
    hide WinMeta;
    hide FallbackFailureMeta;
    hide FailureMeta;
  }

  lemma ReportSize(op: Operation, sc: Script)
    requires op.Valid()
    ensures var k := LastAttempt(op, sc);
      |OutcomeOf(op, sc).report.attempts| == k + 1 <==>
        TryAttempt(op, sc, k).Err? && op.fallback.Some? && op.fallback.value.fallbackOn(FailureAt(op, sc, k).error)
  {
    var k := LastAttempt(op, sc);
    hide *;
    AttemptsAreNumbered(op, sc, k - 1);
    OutcomeIsLastRound(op, sc);
    var waited := WaitedBefore(op, sc, k - 1);
    match TryAttempt(op, sc, k)
    case Ok(v, m) =>
      LastRoundOnSuccess(op, sc, k);
      SuccessShape(k, v, m, AttemptsBefore(op, sc, k - 1), LimitedBefore(op, sc, k - 1), waited);
    case Err(_) =>
      var f := FailureAt(op, sc, k);
      LastRoundOnFailure(op, sc, k, f);
      StoppedShape(op, sc, f, AttemptsBefore(op, sc, k - 1) + [FailedAttempt(k, f)],
                   LimitedBefore(op, sc, k - 1) || f.plan.limited, waited);
  }

  lemma SuccessShape(n: nat, value: Value, validation: ValidationMeta, earlier: seq<Attempt>, encountered: bool,
                     waited: real)
    ensures var report := SuccessEnding(n, value, validation, earlier, encountered, waited).outcome.report;
      && |report.attempts| == |earlier| + 1
      && report.meta.encountered == encountered && report.meta.waited == waited && !report.meta.exceeded
  {
  }

  // ---------------------------------------------------------------- which attempt is the last

  /** The delay before the attempt after `n`, if its failure is a rate limit the run is ready to wait for. */
  function LimitDelay(op: Operation, retryAfter: Option<real>, n: nat, sample: real): real
    requires op.retry.Some? && n >= 1
  {
    if retryAfter.Some? then retryAfter.value else Retry.DelayForRetry(op.retry.value.backoff, n, sample)
  }

  /** A failed attempt is retried exactly when a retry policy allows another one and either the failure is a rate
      limit with a wait within the maximum, whatever the retry policy says about its class, or it is no rate limit
      and the retry policy covers it. */
  lemma RetriedIff(op: Operation, sc: Script, n: nat)
    requires op.Valid() && n >= 1
    ensures Retried(op, sc, n) <==>
      && TryAttempt(op, sc, n).Err? && op.retry.Some? && n < op.MaxAttempts()
      && var e := TryAttempt(op, sc, n).error;
         if op.rateLimit.Some? && op.rateLimit.value.limitOn(e) then
           var d := Evaluate(op.rateLimit.value, e, sc.hints(n));
           d.Limited? && LimitDelay(op, d.retryAfter, n, sc.samples(n)) <= op.rateLimit.value.maxWait
         else op.retry.value.retryOn(e)
  {
    hide TryAttempt;
    hide Retry.DelayForRetry;
  }

  /** The run stops at the least attempt that is not retried, and at no other. */
  lemma LastAttemptIff(op: Operation, sc: Script, k: nat)
    requires op.Valid()
    ensures k == LastAttempt(op, sc) <==> 1 <= k <= op.MaxAttempts() && AllRetried(op, sc, k - 1) && !Retried(op, sc, k)
  {
    hide Retried;
    var last := LastAttempt(op, sc);
    assert AllRetried(op, sc, last - 1) && !Retried(op, sc, last);
  }

  // ---------------------------------------------------------------- rate limits

  /** What the outside world is trusted with: jitter samples are in [0, 1). */
  ghost predicate SamplesInRange(sc: Script) {
    forall n :: 0.0 <= sc.samples(n) < 1.0
  }

  lemma PlannedWait(op: Operation, sc: Script, n: nat)
    requires op.Valid() && SamplesInRange(sc) && n >= 1 && Retried(op, sc, n) && FailureAt(op, sc, n).plan.limited
    ensures op.rateLimit.Some? && 0.0 <= FailureAt(op, sc, n).plan.delay.value <= op.rateLimit.value.maxWait
  {
    assert 0.0 <= sc.samples(n) < 1.0;
    hide TryAttempt;
    hide Retry.DelayForRetry;
    if op.retry.Some? { Retry.JitterOnlyLowers(op.retry.value.backoff, n, sc.samples(n)); }
  }

  lemma {:induction false} WaitsWithin(op: Operation, sc: Script, n: nat)
    requires op.Valid() && SamplesInRange(sc) && AllRetried(op, sc, n)
    ensures var bound := if op.rateLimit.Some? then op.rateLimit.value.maxWait else 0.0;
      0.0 <= WaitedBefore(op, sc, n) <= Retry.Times(n as real, bound)
  {
    var bound := if op.rateLimit.Some? then op.rateLimit.value.maxWait else 0.0;
    assert Retry.Times(0.0, bound) == 0.0;
    hide Retry.Times;
    if n > 0 {
      assert Retried(op, sc, n);
      hide Retried;
      hide FailureAt;
      WaitsWithin(op, sc, n - 1);
      Retry.TimesCount(n - 1, bound);
      if FailureAt(op, sc, n).plan.limited { PlannedWait(op, sc, n); }
    }
  }

  /** The rate-limit summary as the last round fills it in. */
  lemma SummaryFromRounds(op: Operation, sc: Script)
    requires op.Valid()
    ensures var k := LastAttempt(op, sc);
      var meta := OutcomeOf(op, sc).report.meta;
      && meta.waited == WaitedBefore(op, sc, k - 1)
      && (meta.exceeded <==> TryAttempt(op, sc, k).Err? && FailureAt(op, sc, k).plan.exceeded)
      && (meta.encountered <==> LimitedBefore(op, sc, k - 1) || FoundLimited(op, sc, k))
  {
    var k := LastAttempt(op, sc);
    assert FoundLimited(op, sc, k) <==> TryAttempt(op, sc, k).Err? && FailureAt(op, sc, k).plan.limited;
    hide *;
    OutcomeIsLastRound(op, sc);
    var encountered, waited := LimitedBefore(op, sc, k - 1), WaitedBefore(op, sc, k - 1);
    match TryAttempt(op, sc, k)
    case Ok(v, m) =>
      LastRoundOnSuccess(op, sc, k);
      SuccessShape(k, v, m, AttemptsBefore(op, sc, k - 1), encountered, waited);
    case Err(_) =>
      var f := FailureAt(op, sc, k);
      LastRoundOnFailure(op, sc, k, f);
      StoppedShape(op, sc, f, AttemptsBefore(op, sc, k - 1) + [FailedAttempt(k, f)], encountered || f.plan.limited,
                   waited);
  }

  /** Attempt `n` failed with a rate limit. */
  predicate FoundLimited(op: Operation, sc: Script, n: nat)
    requires op.Valid()
  {
    n >= 1 && TryAttempt(op, sc, n).Err? && FailureAt(op, sc, n).plan.limited
  }

  lemma {:induction false} SomeLimited(op: Operation, sc: Script, n: nat)
    requires op.Valid() && AllRetried(op, sc, n)
    ensures LimitedBefore(op, sc, n) <==> exists j :: 1 <= j <= n && FoundLimited(op, sc, j)
  {
    if n > 0 {
      assert Retried(op, sc, n);
      assert FoundLimited(op, sc, n) <==> FailureAt(op, sc, n).plan.limited;
      hide FailureAt;
      hide TryAttempt;
      hide FoundLimited;
      SomeLimited(op, sc, n - 1);
    }
  }

  /** The rate-limit summary of a report. The wait is what a reader of the events adds up from the rate-limited
      retries, a limit was met exactly if some attempt failed with one, and the maximum wait was exceeded
      exactly if some attempt would have had to wait longer, which only the last can. */
  lemma SummaryDescribesRun(op: Operation, sc: Script)
    requires op.Valid()
    ensures var k := LastAttempt(op, sc);
      var meta := OutcomeOf(op, sc).report.meta;
      && meta.waited == Rebuild(NOTHING, Steps(op, sc)).waited
      && (meta.encountered <==> exists n :: 1 <= n <= k && FoundLimited(op, sc, n))
      && (meta.exceeded <==> exists n {:trigger TryAttempt(op, sc, n)} ::
            1 <= n <= k && TryAttempt(op, sc, n).Err? && FailureAt(op, sc, n).plan.exceeded)
  {
    hide *;
    var k := LastAttempt(op, sc);
    SummaryFromRounds(op, sc);
    SomeLimited(op, sc, k - 1);
    EveryRunParsesAndRebuilds(op, sc);
    forall n | 1 <= n < k ensures TryAttempt(op, sc, n).Err? && !FailureAt(op, sc, n).plan.exceeded {
      RetriedWithinMaximum(op, sc, k - 1, n);
    }
  }

  /** `rate_limit_wait_seconds` is the sum of the delays of the rate-limited retries announced in the
      events. Each is at most the configured maximum, so the sum is at most that times the number of retries;
      and without a rate-limit policy nothing is waited. Only the last primary attempt can exceed the maximum. */
  lemma RateLimitWaitsAreBounded(op: Operation, sc: Script)
    requires op.Valid() && SamplesInRange(sc)
    ensures var k := LastAttempt(op, sc);
      var meta := OutcomeOf(op, sc).report.meta;
      var bound := if op.rateLimit.Some? then op.rateLimit.value.maxWait else 0.0;
      && meta.waited == Rebuild(NOTHING, Steps(op, sc)).waited
      && 0.0 <= meta.waited <= Retry.Times((k - 1) as real, bound) <= Retry.Times((op.MaxAttempts() - 1) as real, bound)
      && forall n :: 1 <= n < k ==> TryAttempt(op, sc, n).Err? && !FailureAt(op, sc, n).plan.exceeded
  {
    var k := LastAttempt(op, sc);
    var bound := if op.rateLimit.Some? then op.rateLimit.value.maxWait else 0.0;
    assert bound >= 0.0;
    hide *;
    SummaryFromRounds(op, sc);
    EveryRunParsesAndRebuilds(op, sc);
    WaitsWithin(op, sc, k - 1);
    MoreTimes((k - 1) as real, (op.MaxAttempts() - 1) as real, bound);
    forall n | 1 <= n < k ensures TryAttempt(op, sc, n).Err? && !FailureAt(op, sc, n).plan.exceeded {
      RetriedWithinMaximum(op, sc, k - 1, n);
    }
  }

  lemma RetriedWithinMaximum(op: Operation, sc: Script, last: nat, n: nat)
    requires op.Valid() && AllRetried(op, sc, last) && 1 <= n <= last
    ensures TryAttempt(op, sc, n).Err? && !FailureAt(op, sc, n).plan.exceeded
  {
    assert Retried(op, sc, n);
    hide TryAttempt;
    hide Classify;
  }

  lemma MoreTimes(x: real, y: real, c: real)
    requires x <= y && c >= 0.0
    ensures Retry.Times(x, c) <= Retry.Times(y, c)
  {
    Retry.TimesMonotone(c, x, y);
  }

  // ---------------------------------------------------------------- validated values

  /** Where a returned value came from. */
  datatype Origin = FromProvider(number: nat) | FromCandidate(index: nat)

  function CallFrom(op: Operation, sc: Script, origin: Origin): Call {
    match origin
    case FromProvider(n) => sc.calls(n)
    case FromCandidate(i) => sc.candidates(i)
  }

  lemma CheckedValue(op: Operation, c: Call)
    requires op.Valid()
    ensures Checked(op, c).Ok? ==> c == Returned(Checked(op, c).value)
    ensures Checked(op, c).Ok? && op.validators.Some? ==> Accepts(op.validators.value, Checked(op, c).value)
  {
  }

  /** No unvalidated value escapes: what a run returns is what the last provider call or a fallback candidate
      returned, and with a validation policy every validator passed it. */
  lemma ReturnedValueIsValidated(op: Operation, sc: Script) returns (origin: Origin)
    requires op.Valid() && OutcomeOf(op, sc).Completed?
    ensures CallFrom(op, sc, origin) == Returned(OutcomeOf(op, sc).value)
    ensures
      || origin == FromProvider(LastAttempt(op, sc))
      || (origin.FromCandidate? && op.fallback.Some? && origin.index < |op.fallback.value.names|)
    ensures op.validators.Some? ==> Accepts(op.validators.value, OutcomeOf(op, sc).value)
  {
    var k := LastAttempt(op, sc);
    assert OutcomeOf(op, sc) == LastRound(op, sc).outcome;
    hide LastRound;
    match TryAttempt(op, sc, k)
    case Ok(v, m) =>
      LastRoundOnSuccess(op, sc, k);
      CheckedValue(op, Timed(op, sc.calls(k), sc.expired(k)));
      origin := FromProvider(k);
    case Err(_) =>
      LastRoundOnFailure(op, sc, k, FailureAt(op, sc, k));
      hide TryAttempt;
      hide FailureAt;
      hide Checked;
      WinnerIsFirst(op.fallback.value, Tries(op, sc));
      var i := ChainOutcome(op.fallback.value, Tries(op, sc)).index;
      assert Tries(op, sc)(i) == TryCandidate(op, sc, i);
      CheckedValue(op, sc.candidates(i));
      origin := FromCandidate(i);
  }
}
