/** What a run does and when, effect by effect, told on the configuration and on what the outside answers. */
module OperationLaws {
  import opened Prelude
  import opened Exceptions
  import opened Policies
  import Retry
  import opened OperationSpec
  import opened OperationTrace
  import opened OperationReports
  import opened OperationEffects

  // ---------------------------------------------------------------- one attempt

  /** How attempt `n` ends. Refused by the breaker, it fails with the refusal. A timeout error becomes an operation
      timeout exactly if there is a timeout policy and its own deadline had passed; any other exception stays. */
  lemma AttemptFailsAs(op: Operation, sc: Script, n: nat)
    requires op.Valid()
    ensures op.breaker && sc.gates(n).Refuse? ==>
      TryAttempt(op, sc, n) == Err(BreakerOpen(sc.gates(n).state, sc.gates(n).retryAfter))
    ensures (!op.breaker || sc.gates(n).Open?) && sc.calls(n).Raised? ==>
      var e := sc.calls(n).error;
      TryAttempt(op, sc, n) == Err(if op.timeout && e.BuiltinTimeout? && sc.expired(n) then OperationTimeout(e) else e)
  {
  }

  /** A value let through is kept if there are no validators or all pass it; else the first validator that
      does not pass it decides. `k` is any place among the validators. */
  lemma AttemptChecksAs(op: Operation, sc: Script, n: nat, k: nat)
    requires op.Valid() && (!op.breaker || sc.gates(n).Open?) && sc.calls(n).Returned?
    ensures op.validators.None? ==> TryAttempt(op, sc, n) == Ok(sc.calls(n).value, NotPerformed)
    ensures op.validators.Some? ==>
      var vs, v := op.validators.value, sc.calls(n).value;
      && ((forall i :: 0 <= i < |vs| ==> vs[i](v).Passed?) ==>
            TryAttempt(op, sc, n) == Ok(v, ValidationPassed(vs[|vs| - 1](v).validator)))
      && (k < |vs| && (forall i :: 0 <= i < k ==> vs[i](v).Passed?) && vs[k](v).Refused? ==>
            TryAttempt(op, sc, n) == Err(ValidationFailed(vs[k](v).validator, vs[k](v).reason)))
      && (k < |vs| && (forall i :: 0 <= i < k ==> vs[i](v).Passed?) && vs[k](v).Broke? ==>
            TryAttempt(op, sc, n) == Err(vs[k](v).error))
  {
    CheckedByTheFirst(op.validators, sc.calls(n).value, k);
    hide CheckValue;
  }

  /** A fallback candidate is called without breaker or timeout; its value is checked by the same validators. */
  lemma CandidateEndsAs(op: Operation, sc: Script, i: nat, k: nat)
    requires op.Valid()
    ensures sc.candidates(i).Raised? ==> TryCandidate(op, sc, i) == Err(sc.candidates(i).error)
    ensures sc.candidates(i).Returned? && op.validators.None? ==>
      TryCandidate(op, sc, i) == Ok(sc.candidates(i).value, NotPerformed)
    ensures sc.candidates(i).Returned? && op.validators.Some? ==>
      var vs, v := op.validators.value, sc.candidates(i).value;
      && ((forall j :: 0 <= j < |vs| ==> vs[j](v).Passed?) ==>
            TryCandidate(op, sc, i) == Ok(v, ValidationPassed(vs[|vs| - 1](v).validator)))
      && (k < |vs| && (forall j :: 0 <= j < k ==> vs[j](v).Passed?) && vs[k](v).Refused? ==>
            TryCandidate(op, sc, i) == Err(ValidationFailed(vs[k](v).validator, vs[k](v).reason)))
      && (k < |vs| && (forall j :: 0 <= j < k ==> vs[j](v).Passed?) && vs[k](v).Broke? ==>
            TryCandidate(op, sc, i) == Err(vs[k](v).error))
  {
    if sc.candidates(i).Returned? { CheckedByTheFirst(op.validators, sc.candidates(i).value, k); }
    hide CheckValue;
  }

  // ---------------------------------------------------------------- the plan after a failure

  /** The wait the provider asked for, if a rate-limit policy could read one. */
  function Told(op: Operation, hint: Hint): Option<real> {
    if op.rateLimit.Some? && op.rateLimit.value.extracts
      && hint.Given? && hint.number.Finite? && hint.number.value >= 0.0
    then Some(hint.number.value) else None
  }

  /** What the extractor did is an error: it raised, or gave something that is no finite number from zero on. */
  predicate Misread(op: Operation, hint: Hint) {
    op.rateLimit.Some? && op.rateLimit.value.extracts && !hint.NoHint? && Told(op, hint).None?
  }

  /** A rate limit is recognised by its policy; a wait that cannot be read ends the attempts. Otherwise, while
      attempts remain, the delay is the one the provider told if it told one, else the backoff's, and it is exceeded
      exactly if it is longer than the maximum wait. */
  lemma LimitIsPlanned(op: Operation, sc: Script, n: nat)
    requires op.Valid() && n >= 1 && TryAttempt(op, sc, n).Err?
    requires op.rateLimit.Some? && op.rateLimit.value.limitOn(TryAttempt(op, sc, n).error)
    ensures var f, e, hint := FailureAt(op, sc, n), TryAttempt(op, sc, n).error, sc.hints(n);
      if Misread(op, hint) then
        && f.error == RetryAfterExtraction(e, if hint.ExtractorRaised? then Some(hint.error) else None)
        && f.plan == Plan(false, false, None, None, None, false)
      else
        && f.error == e && f.plan.limited && f.plan.retryAfter == Told(op, hint)
        && (op.retry.Some? && n < op.retry.value.maxAttempts ==>
              && f.plan.source == (if Told(op, hint).Some? then Some(ProviderDelay) else Some(BackoffDelay))
              && f.plan.delay ==
                   (if Told(op, hint).Some? then Told(op, hint)
                    else Some(Retry.DelayForRetry(op.retry.value.backoff, n, sc.samples(n))))
              && (f.plan.exceeded <==> f.plan.delay.value > op.rateLimit.value.maxWait)
              && (f.plan.retryable <==> !f.plan.exceeded))
        && (op.retry.None? || n >= op.retry.value.maxAttempts ==>
              && f.plan.delay.None? && f.plan.source.None? && !f.plan.exceeded
              && (f.plan.retryable <==> op.retry.Some?))
  {
    hide TryAttempt;
    hide Retry.DelayForRetry;
  }

  /** Any other failure is retryable exactly if there is a retry policy that covers it, and waits for the backoff. */
  lemma OtherwisePlanned(op: Operation, sc: Script, n: nat)
    requires op.Valid() && n >= 1 && TryAttempt(op, sc, n).Err?
    requires op.rateLimit.None? || !op.rateLimit.value.limitOn(TryAttempt(op, sc, n).error)
    ensures var f, e := FailureAt(op, sc, n), TryAttempt(op, sc, n).error;
      && f.error == e && !f.plan.limited && f.plan.retryAfter.None? && !f.plan.exceeded
      && (f.plan.retryable <==> op.retry.Some? && op.retry.value.retryOn(e))
      && (if f.plan.retryable && n < op.retry.value.maxAttempts then
            && f.plan.delay == Some(Retry.DelayForRetry(op.retry.value.backoff, n, sc.samples(n)))
            && f.plan.source == Some(BackoffDelay)
          else f.plan.delay.None? && f.plan.source.None?)
  {
    hide TryAttempt;
    hide Retry.DelayForRetry;
  }

  // ---------------------------------------------------------------- where an effect can be

  /** Among the effects of attempt `n`. */
  ghost predicate InAttempt(op: Operation, sc: Script, n: nat, s: Step)
    requires op.Valid()
  {
    && n >= 1
    && (|| s in AttemptSteps(op, sc, n)
        || (TryAttempt(op, sc, n).Err? && s in FailureSteps(op, n, FailureAt(op, sc, n)))
        || (Retried(op, sc, n) && s in RetrySteps(n, FailureAt(op, sc, n).plan)))
  }

  lemma InRound(op: Operation, sc: Script, n: nat, s: Step)
    requires op.Valid() && n >= 1 && Retried(op, sc, n)
    ensures s in RetryRound(op, sc, n) <==> InAttempt(op, sc, n, s)
  {
    hide AttemptSteps;
    hide FailureSteps;
    hide RetrySteps;
    hide TryAttempt;
    hide FailureAt;
  }

  lemma {:induction false} InRetries(op: Operation, sc: Script, n: nat, s: Step)
    requires op.Valid() && AllRetried(op, sc, n)
    ensures s in StepsBefore(op, sc, n) <==>
      s == Emit(Opening(op)) || exists j :: 1 <= j <= n && InAttempt(op, sc, j, s)
  {
    hide *;
    if n > 0 {
      OneRoundMore(op, sc, n);
      InRetries(op, sc, n - 1, s);
      InRound(op, sc, n, s);
    } else {
      StartsWithOpening(op, sc, s);
    }
  }

  lemma StartsWithOpening(op: Operation, sc: Script, s: Step)
    requires op.Valid()
    ensures s in StepsBefore(op, sc, 0) <==> s == Emit(Opening(op))
  {
  }

  /** How the run ends once its last attempt is known: its steps before the terminal event. */
  ghost predicate InEnding(op: Operation, sc: Script, s: Step)
    requires op.Valid()
  {
    var k := LastAttempt(op, sc);
    match TryAttempt(op, sc, k)
    case Ok(_, m) => s in PassedSteps(k, m, None) || s == Emit(AttemptSucceeded(k, SuccessMeta(m)))
    case Err(_) => FallsWith(op, FailureAt(op, sc, k).error) && InFallback(op, sc, k + 1, s)
  }

  /** The fallback runs: there is one, and its policy covers the exception. */
  predicate FallsWith(op: Operation, e: Exn) {
    op.fallback.Some? && op.fallback.value.fallbackOn(e)
  }

  ghost predicate InFallback(op: Operation, sc: Script, m: nat, s: Step)
    requires op.Valid() && op.fallback.Some? && m >= 1
  {
    var chain, r := op.fallback.value, ChainOutcome(op.fallback.value, Tries(op, sc));
    || s == Emit(FallbackStarted(m, m - 1))
    || (s.CallCandidate? && s.index < ChainCalls(chain, Tries(op, sc)))
    || (if r.Won? then s in FallbackSuccessSteps(chain, r, m) else s in FallbackFailureSteps(chain, ChainError(r), m))
  }

  lemma InStopped(op: Operation, sc: Script, f: Failure, primary: seq<Attempt>, encountered: bool, waited: real,
                  s: Step)
    requires op.Valid() && primary != []
    ensures s in StoppedEnding(op, sc, f, primary, encountered, waited).steps <==>
      FallsWith(op, f.error) && InFallback(op, sc, |primary| + 1, s)
  {
    if FallsWith(op, f.error) {
      var calls := ChainCalls(op.fallback.value, Tries(op, sc));
      assert s in CandidateSteps(calls) <==> s.CallCandidate? && s.index < calls by {
        if s.CallCandidate? && s.index < calls { assert CandidateSteps(calls)[s.index] == s; }
      }
      hide CandidateSteps;
      hide ChainOutcome;
      hide ChainCalls;
      hide FallbackSuccessSteps;
      hide FallbackFailureSteps;
      hide WinMeta;
      hide FallbackFailureMeta;
    }
  }

  lemma InLastRound(op: Operation, sc: Script, s: Step)
    requires op.Valid()
    ensures var k := LastAttempt(op, sc);
      s in LastRound(op, sc).steps <==>
        (TryAttempt(op, sc, k).Err? && s in FailureSteps(op, k, FailureAt(op, sc, k))) || InEnding(op, sc, s)
  {
    hide *;
    var k := LastAttempt(op, sc);
    EndsAs(op, sc, s);
    match TryAttempt(op, sc, k)
    case Ok(v, m) =>
      LastRoundOnSuccess(op, sc, k);
      InSuccess(k, v, m, AttemptsBefore(op, sc, k - 1), LimitedBefore(op, sc, k - 1), WaitedBefore(op, sc, k - 1), s);
    case Err(_) =>
      var f := FailureAt(op, sc, k);
      var primary := AttemptsBefore(op, sc, k - 1) + [FailedAttempt(k, f)];
      var encountered := LimitedBefore(op, sc, k - 1) || f.plan.limited;
      AttemptsAreNumbered(op, sc, k - 1);
      LastRoundOnFailure(op, sc, k, f);
      InStopped(op, sc, f, primary, encountered, WaitedBefore(op, sc, k - 1), s);
  }

  lemma EndsAs(op: Operation, sc: Script, s: Step)
    requires op.Valid()
    ensures var k := LastAttempt(op, sc);
      InEnding(op, sc, s) <==>
        match TryAttempt(op, sc, k)
        case Ok(_, m) => s in PassedSteps(k, m, None) || s == Emit(AttemptSucceeded(k, SuccessMeta(m)))
        case Err(_) => FallsWith(op, FailureAt(op, sc, k).error) && InFallback(op, sc, k + 1, s)
    ensures forall e :: FallsWith(op, e) ==> op.fallback.Some?
  {
    hide TryAttempt;
    hide FailureAt;
    hide InFallback;
  }

  lemma InSuccess(n: nat, value: Value, m: ValidationMeta, earlier: seq<Attempt>, encountered: bool, waited: real,
                  s: Step)
    ensures s in SuccessEnding(n, value, m, earlier, encountered, waited).steps <==>
      s in PassedSteps(n, m, None) || s == Emit(AttemptSucceeded(n, SuccessMeta(m)))
  {
  }

  lemma InParts(a: seq<Step>, b: seq<Step>, c: seq<Step>, last: Step, s: Step)
    ensures s in a + b + (c + [last]) <==> s in a || s in b || s in c || s == last
  {
  }

  /** Every effect of a run is its opening, belongs to one of its attempts, to its ending, or is the terminal event.
      */
  lemma WhereEffectsAre(op: Operation, sc: Script, s: Step)
    requires op.Valid()
    ensures var k := LastAttempt(op, sc);
      s in Steps(op, sc) <==>
        || s == Emit(Opening(op))
        || (exists n :: 1 <= n <= k && InAttempt(op, sc, n, s))
        || InEnding(op, sc, s)
        || s == TerminalStep(OutcomeOf(op, sc))
  {
    hide *;
    var k := LastAttempt(op, sc);
    var e := LastRound(op, sc);
    StepsInThree(op, sc);
    InParts(StepsBefore(op, sc, k - 1), AttemptSteps(op, sc, k), e.steps, TerminalStep(e.outcome), s);
    OutcomeIsLastRound(op, sc);
    InRetries(op, sc, k - 1, s);
    InLastRound(op, sc, s);
    InLastAttempt(op, sc, s);
  }

  lemma InLastAttempt(op: Operation, sc: Script, s: Step)
    requires op.Valid()
    ensures var k := LastAttempt(op, sc);
      InAttempt(op, sc, k, s) <==>
        s in AttemptSteps(op, sc, k) || (TryAttempt(op, sc, k).Err? && s in FailureSteps(op, k, FailureAt(op, sc, k)))
  {
    hide AttemptSteps;
    hide TryAttempt;
    hide FailureSteps;
    hide FailureAt;
    hide RetrySteps;
  }

  // ---------------------------------------------------------------- which effects there are, field by field

  /** Attempt `n` failed; its exception and plan are those of `FailureAt`. */
  predicate Fails(op: Operation, sc: Script, n: nat)
    requires op.Valid()
  {
    n >= 1 && TryAttempt(op, sc, n).Err?
  }

  /** The effects of attempt `n`, each with its condition and its fields. */
  predicate BelongsToAttempt(op: Operation, sc: Script, n: nat, s: Step)
    requires op.Valid() && n >= 1
  {
    match s
    case CallProvider(m) => m == n && (!op.breaker || sc.gates(n).Open?)
    case CallCandidate(_) => false
    case Sleep(d) =>
      Fails(op, sc, n) && FailureAt(op, sc, n).plan.retryable && FailureAt(op, sc, n).plan.delay == Some(d)
    case Emit(AttemptStarted(m, most)) => m == n && most == if op.retry.Some? then op.retry.value.maxAttempts else 1
    case Emit(e) => Fails(op, sc, n) && FailureEvent(op, FailureAt(op, sc, n), n, e)
  }

  /** The events about failure `f` of attempt `n`. */
  predicate FailureEvent(op: Operation, f: Failure, n: nat, e: Event) {
    match e
    case RateLimitDetected(m, c, after, most, exceeded) =>
      && m == n && f.plan.limited && c == ClassOf(f.error) && after == f.plan.retryAfter && exceeded == f.plan.exceeded
      && most == (if op.rateLimit.Some? then Some(op.rateLimit.value.maxWait) else None)
    case RateLimitWaitExceeded(m, after, tooLong, most) =>
      && m == n && f.plan.limited && f.plan.exceeded && after == f.plan.retryAfter && tooLong == f.plan.delay
      && most == (if op.rateLimit.Some? then Some(op.rateLimit.value.maxWait) else None)
    case ValidationRejected(m, validator, reason, onFallback, candidate) =>
      m == n && !onFallback && candidate.None? && f.error == ValidationFailed(validator, reason)
    case BreakerRejected(m, state, after) => m == n && f.error == BreakerOpen(state, after)
    case AttemptFailed(m, c, retryable, meta) =>
      m == n && c == ClassOf(f.error) && retryable == f.plan.retryable && DescribesFailure(meta, f)
    case RetryScheduled(m, next, delay, source, limited, after) =>
      && m == n && next == n + 1 && f.plan.retryable && f.plan.delay == Some(delay) && source == f.plan.source
      && limited == f.plan.limited && after == f.plan.retryAfter
    case _ => false
  }

  /** The metadata of a failed primary attempt. */
  predicate DescribesFailure(meta: Metadata, f: Failure) {
    && meta.fallback.NoFallback? && (meta.breakerOpen <==> f.error.BreakerOpen?)
    && DescribesValidation(meta.validation, f.error)
    && meta.rate.Some?
    && meta.rate.value.limited == f.plan.limited && meta.rate.value.retryAfter == f.plan.retryAfter
    && meta.rate.value.exceeded == f.plan.exceeded
    && meta.rate.value.delay == (if f.plan.limited then f.plan.delay else None)
    && meta.rate.value.source == (if f.plan.limited then f.plan.source else None)
  }

  predicate DescribesValidation(v: ValidationMeta, e: Exn) {
    match e
    case ValidationFailed(validator, reason) => v == ValidationRefused(validator, reason)
    case _ => v == NotPerformed
  }

  lemma FailureEventsAre(op: Operation, f: Failure, n: nat, s: Step)
    ensures s in FailureSteps(op, n, f) <==>
      s.Emit? && !s.event.RetryScheduled? && FailureEvent(op, f, n, s.event)
  {
    var meta := FailureMeta(f);
    assert forall m :: DescribesFailure(m, f) <==> m == meta by { OneDescription(f); }
    hide FailureMeta;
    hide DescribesFailure;
    hide ClassOf;
  }

  lemma OneDescription(f: Failure)
    ensures forall m :: DescribesFailure(m, f) <==> m == FailureMeta(f)
  {
  }

  lemma RetryEffectsAre(op: Operation, f: Failure, n: nat, s: Step)
    requires f.plan.WillRetry()
    ensures s in RetrySteps(n, f.plan) <==>
      || (s.Sleep? && f.plan.delay == Some(s.delay))
      || (s.Emit? && s.event.RetryScheduled? && FailureEvent(op, f, n, s.event))
  {
  }

  lemma AttemptEffectsAre(op: Operation, sc: Script, n: nat, s: Step)
    requires op.Valid() && n >= 1
    ensures InAttempt(op, sc, n, s) <==> BelongsToAttempt(op, sc, n, s)
  {
    if Fails(op, sc, n) {
      var f := FailureAt(op, sc, n);
      FailureEventsAre(op, f, n, s);
      if f.plan.WillRetry() { RetryEffectsAre(op, f, n, s); }
    }
    hide FailureSteps;
    hide RetrySteps;
    hide FailureAt;
    hide TryAttempt;
  }

  // ---------------------------------------------------------------- the ending

  /** The events of a success of the last attempt `k`. */
  predicate SuccessEvent(k: nat, m: ValidationMeta, e: Event) {
    match e
    case ValidationSucceeded(n, validator, candidate) => n == k && candidate.None? && m == ValidationPassed(validator)
    case AttemptSucceeded(n, meta) =>
      n == k && meta.fallback.NoFallback? && !meta.breakerOpen && meta.validation == m && meta.rate.None?
    case _ => false
  }

  lemma SuccessEventsAre(k: nat, m: ValidationMeta, s: Step)
    ensures s in PassedSteps(k, m, None) || s == Emit(AttemptSucceeded(k, SuccessMeta(m))) <==>
      s.Emit? && SuccessEvent(k, m, s.event)
  {
  }

  /** A validation failure of the candidate at some place, announced under the name at that place. */
  ghost predicate NamedRefusal(names: seq<string>, failures: seq<Exn>, e: Event)
    requires e.ValidationRejected?
  {
    exists p :: 0 <= p < |names| && p < |failures|
      && failures[p] == ValidationFailed(e.validator, e.reason) && e.candidate == Some(names[p])
  }

  lemma {:induction false} RefusalsAre(names: seq<string>, failures: seq<Exn>, m: nat, s: Step)
    ensures s in ValidationSteps(names, failures, m) <==>
      s.Emit? && s.event.ValidationRejected? && s.event.number == m && s.event.onFallback
      && NamedRefusal(names, failures, s.event)
    decreases |names|
  {
    if names != [] && failures != [] {
      RefusalsAre(names[1..], failures[1..], m, s);
      if s.Emit? && s.event.ValidationRejected? {
        var e := s.event;
        if NamedRefusal(names, failures, e) {
          var p :| 0 <= p < |names| && p < |failures|
            && failures[p] == ValidationFailed(e.validator, e.reason) && e.candidate == Some(names[p]);
          if p > 0 { assert failures[1..][p - 1] == failures[p] && names[1..][p - 1] == names[p]; }
        }
        if NamedRefusal(names[1..], failures[1..], e) {
          var p :| 0 <= p < |names[1..]| && p < |failures[1..]|
            && failures[1..][p] == ValidationFailed(e.validator, e.reason) && e.candidate == Some(names[1..][p]);
          assert failures[p + 1] == failures[1..][p] && names[p + 1] == names[1..][p];
        }
      }
    }
  }

  /** The events of a chain that won as attempt `m`. */
  ghost predicate WinEvent(chain: Fallback, r: ChainResult, m: nat, e: Event)
    requires r.Won? && r.index < |chain.names|
  {
    match e
    case ValidationRejected(n, _, _, onFallback, _) => n == m && onFallback && NamedRefusal(chain.names, r.failures, e)
    case ValidationSucceeded(n, validator, candidate) =>
      n == m && r.validation == ValidationPassed(validator) && candidate == Some(chain.names[r.index])
    case FallbackSucceeded(n, meta) => n == m && DescribesWin(meta, chain, r)
    case AttemptSucceeded(n, meta) => n == m && DescribesWin(meta, chain, r)
    case _ => false
  }

  predicate DescribesWin(meta: Metadata, chain: Fallback, r: ChainResult)
    requires r.Won? && r.index < |chain.names|
  {
    && meta.fallback == FallbackWon(chain.names[r.index], r.index, |r.failures|)
    && !meta.breakerOpen && meta.validation == r.validation && meta.rate.None?
  }

  lemma WinEventsAre(chain: Fallback, r: ChainResult, m: nat, s: Step)
    requires r.Won? && r.index < |chain.names|
    ensures s in FallbackSuccessSteps(chain, r, m) <==> s.Emit? && WinEvent(chain, r, m, s.event)
  {
    RefusalsAre(chain.names, r.failures, m, s);
    hide ValidationSteps;
    hide NamedRefusal;
  }

  /** The events of a chain that failed with `x` as attempt `m`. Failures in `x` are announced under the names of this
      chain. */
  ghost predicate LossEvent(chain: Fallback, x: Exn, m: nat, e: Event) {
    match e
    case ValidationRejected(n, validator, reason, onFallback, candidate) =>
      && n == m && onFallback
      && (if x.FallbackChainFailed? then NamedRefusal(chain.names, x.failures, e)
          else candidate.None? && x == ValidationFailed(validator, reason))
    case FallbackFailed(n, c, meta) => n == m && c == ClassOf(x) && DescribesLoss(meta, x)
    case AttemptFailed(n, c, retryable, meta) => n == m && c == ClassOf(x) && !retryable && DescribesLoss(meta, x)
    case _ => false
  }

  /** The metadata of a failed fallback: how many candidates failed, and the validation failure if the last did so. */
  predicate DescribesLoss(meta: Metadata, x: Exn) {
    && (meta.breakerOpen <==> x.BreakerOpen?) && meta.rate.None?
    && (if x.FallbackChainFailed? then
          && meta.fallback == FallbackLost(|x.failures|)
          && (if |x.failures| > 0 then DescribesValidation(meta.validation, x.failures[|x.failures| - 1])
              else meta.validation == NotPerformed)
        else meta.fallback == FallbackLost(0) && DescribesValidation(meta.validation, x))
  }

  lemma OneLossDescription(x: Exn)
    ensures forall m :: DescribesLoss(m, x) <==> m == FallbackFailureMeta(x)
  {
  }

  lemma LossEventsAre(chain: Fallback, x: Exn, m: nat, s: Step)
    ensures s in FallbackFailureSteps(chain, x, m) <==> s.Emit? && LossEvent(chain, x, m, s.event)
  {
    OneLossDescription(x);
    if x.FallbackChainFailed? { RefusalsAre(chain.names, x.failures, m, s); }
    hide ValidationSteps;
    hide NamedRefusal;
    hide FallbackFailureMeta;
    hide DescribesLoss;
    hide ClassOf;
  }

  /** The effects after the last attempt, each with its condition and its fields. The fallback runs exactly if the
      last attempt failed with an exception that the fallback policy covers. */
  ghost predicate BelongsToEnding(op: Operation, sc: Script, s: Step)
    requires op.Valid()
  {
    var k := LastAttempt(op, sc);
    if TryAttempt(op, sc, k).Ok? then s.Emit? && SuccessEvent(k, TryAttempt(op, sc, k).validation, s.event)
    else
      && op.fallback.Some? && op.fallback.value.fallbackOn(FailureAt(op, sc, k).error)
      && var chain, r := op.fallback.value, ChainOutcome(op.fallback.value, Tries(op, sc));
         match s
         case CallCandidate(i) => i < ChainCalls(chain, Tries(op, sc))
         case Emit(FallbackStarted(n, after)) => n == k + 1 && after == k
         case Emit(e) => if r.Won? then WinEvent(chain, r, k + 1, e) else LossEvent(chain, ChainError(r), k + 1, e)
         case _ => false
  }

  lemma FallbackEffectsAre(op: Operation, sc: Script, k: nat, s: Step)
    requires op.Valid() && op.fallback.Some?
    ensures var chain, r := op.fallback.value, ChainOutcome(op.fallback.value, Tries(op, sc));
      InFallback(op, sc, k + 1, s) <==>
        match s
        case CallCandidate(i) => i < ChainCalls(chain, Tries(op, sc))
        case Emit(FallbackStarted(n, after)) => n == k + 1 && after == k
        case Emit(e) => if r.Won? then WinEvent(chain, r, k + 1, e) else LossEvent(chain, ChainError(r), k + 1, e)
        case _ => false
  {
    var chain, r := op.fallback.value, ChainOutcome(op.fallback.value, Tries(op, sc));
    if r.Won? { WinEventsAre(chain, r, k + 1, s); } else { LossEventsAre(chain, ChainError(r), k + 1, s); }
    hide FallbackSuccessSteps;
    hide FallbackFailureSteps;
    hide ChainOutcome;
    hide ChainCalls;
    hide ChainError;
    hide DescribesWin;
    hide DescribesLoss;
    hide NamedRefusal;
  }

  lemma EndingEffectsAre(op: Operation, sc: Script, s: Step)
    requires op.Valid()
    ensures InEnding(op, sc, s) <==> BelongsToEnding(op, sc, s)
  {
    var k := LastAttempt(op, sc);
    if TryAttempt(op, sc, k).Ok? {
      SuccessEventsAre(k, TryAttempt(op, sc, k).validation, s);
    } else if op.fallback.Some? {
      FallbackEffectsAre(op, sc, k, s);
    }
    hide TryAttempt;
    hide FailureAt;
    hide InFallback;
    hide ChainOutcome;
    hide ChainCalls;
    hide WinEvent;
    hide LossEvent;
    hide PassedSteps;
    hide SuccessEvent;
  }

  // ---------------------------------------------------------------- whole runs

  /** Every effect of a run, with its exact condition: the opening states what is configured; each attempt up to the
      last has its effects; so has the ending; and the terminal event counts attempts and retries. */
  lemma EffectsOccurIff(op: Operation, sc: Script, s: Step)
    requires op.Valid()
    ensures var k, o := LastAttempt(op, sc), OutcomeOf(op, sc);
      s in Steps(op, sc) <==>
        || s == Emit(OperationStarted(op.retry.Some?, op.timeout, op.fallback.Some?, op.breaker, op.validators.Some?,
                                      op.rateLimit.Some?))
        || (exists n :: 1 <= n <= k && BelongsToAttempt(op, sc, n, s))
        || BelongsToEnding(op, sc, s)
        || s == Emit(match o
                     case Completed(_, report) => OperationSucceeded(|report.attempts|, k - 1, report.meta)
                     case FailedWith(e, report) => OperationFailed(|report.attempts|, k - 1, ClassOf(e), report.meta))
  {
    var k := LastAttempt(op, sc);
    WhereEffectsAre(op, sc, s);
    EndingEffectsAre(op, sc, s);
    TerminalEventIs(op, sc);
    OpeningIs(op);
    hide *;
    forall n | 1 <= n <= k ensures InAttempt(op, sc, n, s) <==> BelongsToAttempt(op, sc, n, s) {
      AttemptEffectsAre(op, sc, n, s);
    }
  }

  lemma OpeningIs(op: Operation)
    ensures Opening(op) == OperationStarted(op.retry.Some?, op.timeout, op.fallback.Some?, op.breaker,
                                            op.validators.Some?, op.rateLimit.Some?)
  {
  }

  lemma TerminalEventIs(op: Operation, sc: Script)
    requires op.Valid()
    ensures var k, o := LastAttempt(op, sc), OutcomeOf(op, sc);
      TerminalStep(o) == Emit(match o
                              case Completed(_, report) => OperationSucceeded(|report.attempts|, k - 1, report.meta)
                              case FailedWith(e, report) =>
                                OperationFailed(|report.attempts|, k - 1, ClassOf(e), report.meta))
  {
    ReportDescribesRun(op, sc);
    hide OutcomeOf;
    hide Primaries;
  }

  /** What a run comes to: the value of the last attempt if it succeeded; otherwise, if the fallback policy does not
      cover its exception, that exception; otherwise the winner's value, the exception a candidate passed on, or the
      failure of the whole chain with every candidate's exception. */
  lemma OutcomeIs(op: Operation, sc: Script)
    requires op.Valid()
    ensures var k, o := LastAttempt(op, sc), OutcomeOf(op, sc);
      match TryAttempt(op, sc, k)
      case Ok(v, _) => o.Completed? && o.value == v
      case Err(_) =>
        var e := FailureAt(op, sc, k).error;
        if op.fallback.Some? && op.fallback.value.fallbackOn(e) then
          match ChainOutcome(op.fallback.value, Tries(op, sc))
          case Won(v, _, _, _) => o.Completed? && o.value == v
          case PassedOn(x) => o.FailedWith? && o.cause == x
          case AllFailed(failures) => o.FailedWith? && o.cause == FallbackChainFailed(failures)
        else o.FailedWith? && o.cause == e
  {
    var k := LastAttempt(op, sc);
    OutcomeIsLastRound(op, sc);
    hide LastRound;
    hide TryAttempt;
    hide FailureAt;
    hide ChainOutcome;
    match TryAttempt(op, sc, k)
    case Ok(v, m) => LastRoundOnSuccess(op, sc, k);
    case Err(_) => LastRoundOnFailure(op, sc, k, FailureAt(op, sc, k));
  }

  /** The fallback runs if and only if the last attempt failed with an exception its policy covers: exactly then it is
      announced, the first candidate is called, and the report has an attempt more than the primary ones. Without it a
      failed run ends with the last attempt's own exception. */
  lemma FallbackRunsIff(op: Operation, sc: Script)
    requires op.Valid()
    ensures var k, steps := LastAttempt(op, sc), Steps(op, sc);
      var falls := TryAttempt(op, sc, k).Err? && op.fallback.Some?
        && op.fallback.value.fallbackOn(FailureAt(op, sc, k).error);
      && (falls <==> Emit(FallbackStarted(k + 1, k)) in steps)
      && (falls <==> CallCandidate(0) in steps)
      && (falls <==> exists s :: s in steps && (s.CallCandidate? || (s.Emit? && s.event.FallbackStarted?)))
      && (falls <==> |OutcomeOf(op, sc).report.attempts| == k + 1)
      && (!falls && TryAttempt(op, sc, k).Err? ==>
            OutcomeOf(op, sc).FailedWith? && OutcomeOf(op, sc).cause == FailureAt(op, sc, k).error)
  {
    hide *;
    var k := LastAttempt(op, sc);
    EndsWithOwnException(op, sc);
    ReportSize(op, sc);
    FallbackIsSeenIff(op, sc);
    forall s | s in Steps(op, sc) && (s.CallCandidate? || (s.Emit? && s.event.FallbackStarted?))
      ensures TryAttempt(op, sc, k).Err? && op.fallback.Some?
        && op.fallback.value.fallbackOn(FailureAt(op, sc, k).error)
    {
      OnlyTheEnding(op, sc, s);
      FallbackBelongsIff(op, sc, s);
    }
  }

  lemma EndsWithOwnException(op: Operation, sc: Script)
    requires op.Valid()
    ensures var k := LastAttempt(op, sc);
      TryAttempt(op, sc, k).Err?
      && !(op.fallback.Some? && op.fallback.value.fallbackOn(FailureAt(op, sc, k).error)) ==>
        OutcomeOf(op, sc).FailedWith? && OutcomeOf(op, sc).cause == FailureAt(op, sc, k).error
  {
    hide *;
    OutcomeIs(op, sc);
  }

  lemma FallbackIsSeenIff(op: Operation, sc: Script)
    requires op.Valid()
    ensures var k, steps := LastAttempt(op, sc), Steps(op, sc);
      var falls := TryAttempt(op, sc, k).Err? && op.fallback.Some?
        && op.fallback.value.fallbackOn(FailureAt(op, sc, k).error);
      && (falls <==> Emit(FallbackStarted(k + 1, k)) in steps)
      && (falls <==> CallCandidate(0) in steps)
  {
    hide *;
    var k := LastAttempt(op, sc);
    if op.fallback.Some? { CallsSomeCandidate(op, sc); }
    FallbackBelongsIff(op, sc, Emit(FallbackStarted(k + 1, k)));
    FallbackBelongsIff(op, sc, CallCandidate(0));
    OnlyTheEnding(op, sc, Emit(FallbackStarted(k + 1, k)));
    OnlyTheEnding(op, sc, CallCandidate(0));
  }

  lemma OnlyTheEnding(op: Operation, sc: Script, s: Step)
    requires op.Valid() && (s.CallCandidate? || (s.Emit? && s.event.FallbackStarted?))
    ensures s in Steps(op, sc) <==> BelongsToEnding(op, sc, s)
  {
    hide *;
    EffectsOccurIff(op, sc, s);
    forall n | 1 <= n <= LastAttempt(op, sc) ensures !BelongsToAttempt(op, sc, n, s) {
      NotOfAttempt(op, sc, n, s);
    }
  }

  lemma NotOfAttempt(op: Operation, sc: Script, n: nat, s: Step)
    requires op.Valid() && n >= 1 && (s.CallCandidate? || (s.Emit? && s.event.FallbackStarted?))
    ensures !BelongsToAttempt(op, sc, n, s)
  {
    hide TryAttempt;
    hide FailureAt;
  }

  lemma FallbackBelongsIff(op: Operation, sc: Script, s: Step)
    requires op.Valid() && (s.CallCandidate? || (s.Emit? && s.event.FallbackStarted?))
    ensures var k := LastAttempt(op, sc);
      BelongsToEnding(op, sc, s) <==>
        && TryAttempt(op, sc, k).Err? && op.fallback.Some? && op.fallback.value.fallbackOn(FailureAt(op, sc, k).error)
        && (if s.CallCandidate? then s.index < ChainCalls(op.fallback.value, Tries(op, sc))
            else s.event.number == k + 1 && s.event.after == k)
  {
    hide TryAttempt;
    hide FailureAt;
    hide ChainOutcome;
    hide ChainCalls;
  }

  lemma CallsSomeCandidate(op: Operation, sc: Script)
    requires op.Valid() && op.fallback.Some?
    ensures ChainCalls(op.fallback.value, Tries(op, sc)) >= 1
  {
  }

  // ---------------------------------------------------------------- the waits

  /** What is slept and announced after attempt `n`, from the script: for a rate limit the wait the provider told, if
      it told one, and otherwise the backoff's delay. */
  function DueDelay(op: Operation, sc: Script, n: nat): real
    requires op.Valid() && op.retry.Some? && TryAttempt(op, sc, n).Err? && n >= 1
  {
    var limited := op.rateLimit.Some? && op.rateLimit.value.limitOn(TryAttempt(op, sc, n).error);
    if limited && Told(op, sc.hints(n)).Some? then sc.hints(n).number.value
    else Retry.DelayForRetry(op.retry.value.backoff, n, sc.samples(n))
  }

  lemma DueDelayIsPlanned(op: Operation, sc: Script, n: nat)
    requires op.Valid() && n >= 1 && Retried(op, sc, n)
    ensures op.retry.Some? && TryAttempt(op, sc, n).Err? && FailureAt(op, sc, n).error == TryAttempt(op, sc, n).error
    ensures var e, p := TryAttempt(op, sc, n).error, FailureAt(op, sc, n).plan;
      var limited := op.rateLimit.Some? && op.rateLimit.value.limitOn(e);
      && p.retryable && p.delay == Some(DueDelay(op, sc, n)) && p.limited == limited
      && p.retryAfter == (if limited then Told(op, sc.hints(n)) else None)
      && p.source == Some(if limited && Told(op, sc.hints(n)).Some? then ProviderDelay else BackoffDelay)
      && (limited ==> DueDelay(op, sc, n) <= op.rateLimit.value.maxWait)
  {
    var e := TryAttempt(op, sc, n).error;
    if op.rateLimit.Some? && op.rateLimit.value.limitOn(e) {
      LimitIsPlanned(op, sc, n);
    } else {
      OtherwisePlanned(op, sc, n);
    }
    hide TryAttempt;
    hide FailureAt;
    hide Retry.DelayForRetry;
  }

  lemma {:induction false} PlannedAt(op: Operation, sc: Script, n: nat, j: nat)
    requires op.Valid() && AllRetried(op, sc, n) && 1 <= j <= n
    ensures |Planned(op, sc, n)| == n && Retried(op, sc, j)
    ensures Some(Planned(op, sc, n)[j - 1]) == FailureAt(op, sc, j).plan.delay
  {
    assert Retried(op, sc, n) && Retried(op, sc, j);
    hide TryAttempt;
    hide FailureAt;
    if j < n { PlannedAt(op, sc, n - 1, j); } else if n > 1 { PlannedAt(op, sc, n - 1, 1); }
  }

  /** After each attempt that is retried, the run announces and then sleeps what is due: the wait the provider told,
      as the provider's, or else the backoff's delay; a rate-limited wait is never above the maximum. Those are all
      its sleeps. */
  lemma RunWaitsAsDue(op: Operation, sc: Script, n: nat)
    requires op.Valid() && 1 <= n < LastAttempt(op, sc)
    ensures op.retry.Some? && TryAttempt(op, sc, n).Err?
    ensures var slept := Sleeps(Steps(op, sc));
      |slept| == LastAttempt(op, sc) - 1 && slept[n - 1] == DueDelay(op, sc, n)
    ensures var limited := op.rateLimit.Some? && op.rateLimit.value.limitOn(TryAttempt(op, sc, n).error);
      var told := if limited then Told(op, sc.hints(n)) else None;
      && Emit(RetryScheduled(n, n + 1, DueDelay(op, sc, n), Some(if told.Some? then ProviderDelay else BackoffDelay),
                             limited, told)) in Steps(op, sc)
      && (told.Some? ==> sc.hints(n) == Given(Finite(DueDelay(op, sc, n))))
      && (limited ==> DueDelay(op, sc, n) <= op.rateLimit.value.maxWait)
  {
    hide *;
    var k := LastAttempt(op, sc);
    PlannedAt(op, sc, k - 1, n);
    DueDelayIsPlanned(op, sc, n);
    SleepsArePlanned(op, sc);
    RetryIsAnnounced(op, sc, n);
    ToldIsRead(op, sc.hints(n));
    DueIsTold(op, sc, n);
  }

  lemma ToldIsRead(op: Operation, hint: Hint)
    ensures Told(op, hint).Some? ==>
      hint.Given? && hint.number.Finite? && Told(op, hint).value == hint.number.value >= 0.0
  {
  }

  lemma DueIsTold(op: Operation, sc: Script, n: nat)
    requires op.Valid() && op.retry.Some? && TryAttempt(op, sc, n).Err? && n >= 1
    ensures
      var limited := op.rateLimit.Some? && op.rateLimit.value.limitOn(TryAttempt(op, sc, n).error);
      limited && Told(op, sc.hints(n)).Some? ==> DueDelay(op, sc, n) == Told(op, sc.hints(n)).value
  {
    hide TryAttempt;
  }

  lemma SleepsArePlanned(op: Operation, sc: Script)
    requires op.Valid()
    ensures Sleeps(Steps(op, sc)) == Planned(op, sc, LastAttempt(op, sc) - 1)
  {
    EffectsOfRun(op, sc);
    hide Steps;
    hide Planned;
    hide TryAttempt;
    hide FailureAt;
  }

  lemma RetryIsAnnounced(op: Operation, sc: Script, n: nat)
    requires op.Valid() && 1 <= n < LastAttempt(op, sc) && Retried(op, sc, n)
    ensures var p := FailureAt(op, sc, n).plan;
      Emit(RetryScheduled(n, n + 1, p.delay.value, p.source, p.limited, p.retryAfter)) in Steps(op, sc)
  {
    var p := FailureAt(op, sc, n).plan;
    var s := Emit(RetryScheduled(n, n + 1, p.delay.value, p.source, p.limited, p.retryAfter));
    EffectsOccurIff(op, sc, s);
    assert BelongsToAttempt(op, sc, n, s);
    hide *;
  }

  // ---------------------------------------------------------------- the attempts on record

  lemma {:induction false} RecordedAt(op: Operation, sc: Script, n: nat, i: nat)
    requires op.Valid() && AllRetried(op, sc, n) && i < n
    ensures |AttemptsBefore(op, sc, n)| == n && Retried(op, sc, i + 1)
    ensures AttemptsBefore(op, sc, n)[i] == FailedAttempt(i + 1, FailureAt(op, sc, i + 1))
  {
    assert Retried(op, sc, n) && Retried(op, sc, i + 1);
    hide TryAttempt;
    hide FailureAt;
    hide FailedAttempt;
    if i < n - 1 { RecordedAt(op, sc, n - 1, i); } else if n > 1 { RecordedAt(op, sc, n - 1, 0); }
  }

  /** The record of a failed primary attempt. */
  predicate Records(a: Attempt, f: Failure) {
    && a.status == (if f.error.OperationTimeout? then TimedOut else Failed)
    && a.error == Some(ErrorRecord(ClassOf(f.error), f.plan.retryable)) && DescribesFailure(a.meta, f)
  }

  /** Every primary attempt that failed is on record with its own exception, plan and metadata. */
  lemma FailedAttemptsAreRecorded(op: Operation, sc: Script, n: nat)
    requires op.Valid() && 1 <= n <= LastAttempt(op, sc) && TryAttempt(op, sc, n).Err?
    ensures var attempts := OutcomeOf(op, sc).report.attempts;
      n <= |attempts| && Records(attempts[n - 1], FailureAt(op, sc, n))
  {
    hide *;
    var k := LastAttempt(op, sc);
    RecordsItself(n, FailureAt(op, sc, n));
    AttemptsExtend(op, sc);
    AttemptsAreNumbered(op, sc, k - 1);
    if n < k { RecordedAt(op, sc, k - 1, n - 1); }
  }

  lemma RecordsItself(n: nat, f: Failure)
    ensures Records(FailedAttempt(n, f), f)
  {
  }

  /** The report's attempts begin with those before the last, and go on with the last primary one. */
  lemma AttemptsExtend(op: Operation, sc: Script)
    requires op.Valid()
    ensures var k, attempts := LastAttempt(op, sc), OutcomeOf(op, sc).report.attempts;
      && AttemptsBefore(op, sc, k - 1) <= attempts
      && (TryAttempt(op, sc, k).Err? ==>
            AttemptsBefore(op, sc, k - 1) + [FailedAttempt(k, FailureAt(op, sc, k))] <= attempts)
  {
    hide *;
    var k := LastAttempt(op, sc);
    OutcomeIsLastRound(op, sc);
    var encountered, waited := LimitedBefore(op, sc, k - 1), WaitedBefore(op, sc, k - 1);
    match TryAttempt(op, sc, k)
    case Ok(v, m) =>
      LastRoundOnSuccess(op, sc, k);
      SuccessKeepsAttempts(k, v, m, AttemptsBefore(op, sc, k - 1), encountered, waited);
    case Err(_) =>
      var f := FailureAt(op, sc, k);
      LastRoundOnFailure(op, sc, k, f);
      StoppedKeepsAttempts(op, sc, f, AttemptsBefore(op, sc, k - 1) + [FailedAttempt(k, f)],
                           encountered || f.plan.limited, waited);
  }

  lemma SuccessKeepsAttempts(n: nat, value: Value, m: ValidationMeta, earlier: seq<Attempt>, encountered: bool,
                             waited: real)
    ensures earlier <= SuccessEnding(n, value, m, earlier, encountered, waited).outcome.report.attempts
  {
  }

  lemma StoppedKeepsAttempts(op: Operation, sc: Script, f: Failure, primary: seq<Attempt>, encountered: bool,
                             waited: real)
    requires op.Valid()
    ensures primary <= StoppedEnding(op, sc, f, primary, encountered, waited).outcome.report.attempts
  {
    hide ChainOutcome;
    hide FallbackSuccessSteps;
    hide FallbackFailureSteps;
    hide FallbackOpening;
  }
}
