/** An operation configured with nothing but a retry policy behaves like the stand-alone retry policy. */
module RetryOnly {
  import opened Prelude
  import opened Policies
  import Retry
  import opened OperationSpec
  import opened OperationTrace
  import opened OperationEffects

  function WithRetry(p: Retry.Policy): Operation {
    Operation(Some(p), false, false, None, None, None)
  }

  /** The part of a script that the stand-alone policy is told. */
  function RetryScript(sc: Script): Retry.Script {
    Retry.Script(sc.calls, sc.samples)
  }

  /** One attempt of the operation is one call of the policy, and they stop alike. */
  lemma SameStop(p: Retry.Policy, sc: Script, n: nat)
    requires p.Valid() && 1 <= n <= p.maxAttempts
    ensures var op := WithRetry(p);
      && Retried(op, sc, n) == !Retry.Stops(p, RetryScript(sc), n)
      && TryAttempt(op, sc, n) == (match sc.calls(n) case Returned(v) => Ok(v, NotPerformed) case Raised(e) => Err(e))
      && (sc.calls(n).Raised? ==>
            && FailureAt(op, sc, n).error == sc.calls(n).error && !FailureAt(op, sc, n).plan.limited
            && (Retried(op, sc, n) ==>
                  FailureAt(op, sc, n).plan.delay == Some(Retry.DelayForRetry(p.backoff, n, sc.samples(n)))))
  {
    hide Retry.DelayForRetry;
  }

  lemma SameLast(p: Retry.Policy, sc: Script)
    requires p.Valid()
    ensures LastAttempt(WithRetry(p), sc) == Retry.LastCall(p, RetryScript(sc))
  {
    var op, s := WithRetry(p), RetryScript(sc);
    var k, n := LastAttempt(op, sc), Retry.LastCall(p, s);
    hide Retried;
    hide Retry.Stops;
    SameStop(p, sc, k);
    SameStop(p, sc, n);
  }

  /** The delays slept by both are the same. */
  lemma {:induction false} SameDelays(p: Retry.Policy, sc: Script, n: nat)
    requires p.Valid() && n <= p.maxAttempts && AllRetried(WithRetry(p), sc, n)
    ensures Planned(WithRetry(p), sc, n) == Retry.Delays(p, RetryScript(sc), n)
  {
    if n > 0 {
      assert Retried(WithRetry(p), sc, n);
      SameStop(p, sc, n);
      hide Retried;
      hide FailureAt;
      hide TryAttempt;
      hide Retry.DelayForRetry;
      SameDelays(p, sc, n - 1);
      assert Retry.Delays(p, RetryScript(sc), n) ==
        Retry.Delays(p, RetryScript(sc), n - 1) + [Retry.DelayForRetry(p.backoff, n, sc.samples(n))];
    }
  }

  /** Observational equality with the stand-alone policy driven by the same calls and jitter samples: the same
      provider calls, the same delays, and the same value or final cause. When the policy gives up, the
      number of attempts in its `RetryError` is the report's attempt count. */
  lemma RetryOnlyOperationIsRetryPolicy(p: Retry.Policy, sc: Script)
    requires p.Valid()
    ensures var calls := Retry.LastCall(p, RetryScript(sc));
      && calls >= 1
      && EffectsOf(Steps(WithRetry(p), sc)) == Effects(OneTo(calls), Retry.Delays(p, RetryScript(sc), calls - 1), [])
    ensures var o := OutcomeOf(WithRetry(p), sc);
      match Retry.OutcomeOf(p, RetryScript(sc))
      case Success(v) => o.Completed? && o.value == v
      case Propagated(e) => o.FailedWith? && o.cause == e
      case Exhausted(n, e) => o.FailedWith? && o.cause == e && o.report.AttemptCount() == n
  {
    var op := WithRetry(p);
    var k := LastAttempt(op, sc);
    SameOutcome(p, sc);
    SameLast(p, sc);
    EffectsOfRun(op, sc);
    EveryAttemptCalls(op, sc, k);
    assert op.fallback.None? && op.MaxAttempts() == p.maxAttempts;
    hide Steps;
    hide EffectsOf;
    hide OutcomeOf;
    hide TryAttempt;
    hide FailureAt;
    hide Retried;
    hide Retry.OutcomeOf;
    SameDelays(p, sc, k - 1);
  }

  lemma SameOutcome(p: Retry.Policy, sc: Script)
    requires p.Valid()
    ensures var o := OutcomeOf(WithRetry(p), sc);
      match Retry.OutcomeOf(p, RetryScript(sc))
      case Success(v) => o.Completed? && o.value == v
      case Propagated(e) => o.FailedWith? && o.cause == e
      case Exhausted(n, e) => o.FailedWith? && o.cause == e && o.report.AttemptCount() == n
  {
    var op := WithRetry(p);
    var k := LastAttempt(op, sc);
    SameStop(p, sc, k);
    SameLast(p, sc);
    AttemptsAreNumbered(op, sc, k - 1);
    Retry.ExhaustedMeansAllRetryable(p, RetryScript(sc));
    assert OutcomeOf(op, sc) == LastRound(op, sc).outcome;
    hide LastRound;
    hide TryAttempt;
    hide FailureAt;
    if sc.calls(k).Returned? {
      LastRoundOnSuccess(op, sc, k);
    } else {
      LastRoundOnFailure(op, sc, k, FailureAt(op, sc, k));
    }
  }
}
