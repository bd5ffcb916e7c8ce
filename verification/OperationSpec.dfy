/** What one run of an operation does, stated without a loop: which attempt is the last, and from
    that the effects in order, the report and the result. The imperative engine is proved against this. */
module OperationSpec {
  import opened Prelude
  import opened Exceptions
  import CircuitBreakers
  import Retry
  import opened Policies

  // ---------------------------------------------------------------- configuration and outside answers

  datatype Operation = Operation(
    retry: Option<Retry.Policy>,
    timeout: bool,
    breaker: bool,
    validators: Option<seq<Validator>>,
    fallback: Option<Fallback>,
    rateLimit: Option<RateLimit>)
  {
    predicate Valid() {
      && (retry.Some? ==> retry.value.Valid())
      && (validators.Some? ==> validators.value != [])
      && (fallback.Some? ==> fallback.value.Valid())
      && (rateLimit.Some? ==> rateLimit.value.Valid())
    }

    function MaxAttempts(): nat {
      if retry.Some? then retry.value.maxAttempts else 1
    }
  }

  /** The shared breaker's answer to an attempt, whatever other calls did to it meanwhile. */
  datatype Gate = Open | Refuse(state: CircuitBreakers.Phase, retryAfter: Option<real>)

  /** Everything a run is told from outside, by attempt number (and by candidate index). */
  datatype Script = Script(
    gates: nat -> Gate,
    calls: nat -> Call,
    expired: nat -> bool,
    hints: nat -> Hint,
    samples: nat -> real,
    candidates: nat -> Call)

  // ---------------------------------------------------------------- one attempt

  predicate CallsProvider(op: Operation, sc: Script, n: nat) {
    !(op.breaker && sc.gates(n).Refuse?)
  }

  /** Only the policy's own deadline turns a timeout error into an operation timeout. */
  function Timed(op: Operation, c: Call, expired: bool): Call {
    if op.timeout && c.Raised? && c.error.BuiltinTimeout? && expired then Raised(OperationTimeout(c.error)) else c
  }

  function Checked(op: Operation, c: Call): Tried
    requires op.Valid()
  {
    match c
    case Returned(v) => CheckValue(op.validators, v)
    case Raised(e) => Err(e)
  }

  function TryAttempt(op: Operation, sc: Script, n: nat): Tried
    requires op.Valid()
  {
    if !CallsProvider(op, sc, n) then Err(BreakerOpen(sc.gates(n).state, sc.gates(n).retryAfter))
    else Checked(op, Timed(op, sc.calls(n), sc.expired(n)))
  }

  // ---------------------------------------------------------------- the retry plan

  datatype Source = BackoffDelay | ProviderDelay

  datatype Plan = Plan(
    retryable: bool,
    limited: bool,
    retryAfter: Option<real>,
    delay: Option<real>,
    source: Option<Source>,
    exceeded: bool)
  {
    /** The checks of the plan's constructor. */
    predicate Valid() {
      && (delay.None? <==> source.None?)
      && (if exceeded then limited && !retryable && delay.Some? else !retryable ==> delay.None?)
    }

    predicate WillRetry() {
      retryable && delay.Some?
    }
  }

  const NO_RETRY: Plan := Plan(false, false, None, None, None, false)

  function LimitedPlan(op: Operation, retryAfter: Option<real>, n: nat, sample: real): (p: Plan)
    requires op.rateLimit.Some? && n >= 1
    ensures p.Valid() && p.limited && p.retryAfter == retryAfter
    ensures p.WillRetry() ==> n < op.MaxAttempts() && p.delay.value <= op.rateLimit.value.maxWait
    ensures p.exceeded ==> n < op.MaxAttempts() && p.delay.value > op.rateLimit.value.maxWait
  {
    if op.retry.None? then Plan(false, true, retryAfter, None, None, false)
    else if n >= op.MaxAttempts() then Plan(true, true, retryAfter, None, None, false)
    else
      var delay :=
        if retryAfter.Some? then retryAfter.value else Retry.DelayForRetry(op.retry.value.backoff, n, sample);
      var source := if retryAfter.Some? then ProviderDelay else BackoffDelay;
      if delay > op.rateLimit.value.maxWait
      then Plan(false, true, retryAfter, Some(delay), Some(source), true)
      else Plan(true, true, retryAfter, Some(delay), Some(source), false)
  }

  function OrdinaryPlan(op: Operation, e: Exn, n: nat, sample: real): (p: Plan)
    requires n >= 1
    ensures p.Valid() && !p.limited && !p.exceeded
    ensures p.WillRetry() ==> n < op.MaxAttempts()
  {
    if op.retry.None? || !op.retry.value.retryOn(e) then NO_RETRY
    else if n >= op.MaxAttempts() then Plan(true, false, None, None, None, false)
    else
      var delay := Retry.DelayForRetry(op.retry.value.backoff, n, sample);
      Plan(true, false, None, Some(delay), Some(BackoffDelay), false)
  }

  /** A failed attempt: the exception that counts and what was planned about it. */
  datatype Failure = Failure(error: Exn, plan: Plan)

  /** Classifies exception `e` of attempt `n`. A broken retry-after extractor replaces the exception. */
  function Classify(op: Operation, e: Exn, hint: Hint, n: nat, sample: real): (f: Failure)
    requires n >= 1
    ensures f.plan.Valid()
    ensures f.plan.limited ==> op.rateLimit.Some?
    ensures f.plan.WillRetry() ==> op.retry.Some? && n < op.MaxAttempts()
    ensures f.plan.limited && f.plan.WillRetry() ==> f.plan.delay.value <= op.rateLimit.value.maxWait
    ensures f.error != e ==> f.plan == NO_RETRY && f.error.RetryAfterExtraction? && f.error.limited == e
  {
    if op.rateLimit.None? then Failure(e, OrdinaryPlan(op, e, n, sample))
    else match Evaluate(op.rateLimit.value, e, hint)
      case ExtractionFailed(error) => Failure(error, NO_RETRY)
      case Limited(retryAfter) => Failure(e, LimitedPlan(op, retryAfter, n, sample))
      case NotLimited => Failure(e, OrdinaryPlan(op, e, n, sample))
  }

  function FailureAt(op: Operation, sc: Script, n: nat): Failure
    requires op.Valid() && n >= 1 && TryAttempt(op, sc, n).Err?
  {
    Classify(op, TryAttempt(op, sc, n).error, sc.hints(n), n, sc.samples(n))
  }

  // ---------------------------------------------------------------- the last attempt

  /** Attempt `n` fails and another one follows it. */
  predicate Retried(op: Operation, sc: Script, n: nat)
    requires op.Valid() && n >= 1
  {
    TryAttempt(op, sc, n).Err? && FailureAt(op, sc, n).plan.WillRetry()
  }

  predicate AllRetried(op: Operation, sc: Script, n: nat)
    requires op.Valid()
  {
    forall j :: 1 <= j <= n ==> Retried(op, sc, j)
  }

  function StopFrom(op: Operation, sc: Script, from: nat): (k: nat)
    requires op.Valid() && 1 <= from <= op.MaxAttempts()
    ensures from <= k <= op.MaxAttempts() && !Retried(op, sc, k)
    ensures forall j :: from <= j < k ==> Retried(op, sc, j)
    decreases op.MaxAttempts() - from
  {
    if !Retried(op, sc, from) then from else StopFrom(op, sc, from + 1)
  }

  /** The least attempt that succeeds, is not retryable, would wait too long, or is the last allowed. */
  function LastAttempt(op: Operation, sc: Script): (k: nat)
    requires op.Valid()
    ensures 1 <= k <= op.MaxAttempts() && !Retried(op, sc, k) && AllRetried(op, sc, k - 1)
  {
    StopFrom(op, sc, 1)
  }

  // ---------------------------------------------------------------- attempts, metadata and reports

  datatype Status = Succeeded | Failed | TimedOut

  datatype ErrorRecord = ErrorRecord(class_: Class, retryable: bool)

  datatype FallbackMeta =
    | NoFallback
    | FallbackWon(name: string, index: nat, failures: nat)
    | FallbackLost(failures: nat)

  datatype RateMeta = RateMeta(
    limited: bool,
    retryAfter: Option<real>,
    delay: Option<real>,
    source: Option<Source>,
    exceeded: bool)

  datatype Metadata = Metadata(
    fallback: FallbackMeta,
    breakerOpen: bool,
    validation: ValidationMeta,
    rate: Option<RateMeta>)

  datatype Attempt = Attempt(number: nat, status: Status, error: Option<ErrorRecord>, meta: Metadata, fallback: bool) {
    predicate Allowed() {
      number >= 1 && (status.Succeeded? ==> error.None?)
    }
  }

  /** The last attempt's metadata and the rate-limit summary of the whole run. */
  datatype Summary = Summary(last: Metadata, encountered: bool, waited: real, exceeded: bool)

  datatype Report = Report(status: Status, attempts: seq<Attempt>, meta: Summary) {
    predicate Allowed() {
      && attempts != []
      && (status.Succeeded? <==> attempts[|attempts| - 1].status.Succeeded?)
    }

    function AttemptCount(): nat {
      |attempts|
    }

    function RetryCount(): nat {
      var primary := Primaries(attempts);
      if primary == 0 then 0 else primary - 1
    }
  }

  function Primaries(attempts: seq<Attempt>): nat {
    if attempts == [] then 0
    else Primaries(attempts[..|attempts| - 1]) + (if attempts[|attempts| - 1].fallback then 0 else 1)
  }

  function StatusOf(e: Exn): Status {
    if e.OperationTimeout? then TimedOut else Failed
  }

  function ValidationOf(e: Exn): ValidationMeta {
    if e.ValidationFailed? then ValidationRefused(e.validator, e.reason) else NotPerformed
  }

  function FailureMeta(f: Failure): Metadata {
    Metadata(NoFallback, f.error.BreakerOpen?, ValidationOf(f.error),
             Some(RateMeta(f.plan.limited, f.plan.retryAfter,
                           if f.plan.limited then f.plan.delay else None,
                           if f.plan.limited then f.plan.source else None,
                           f.plan.exceeded)))
  }

  function SuccessMeta(validation: ValidationMeta): Metadata {
    Metadata(NoFallback, false, validation, None)
  }

  function FailedAttempt(n: nat, f: Failure): Attempt {
    Attempt(n, StatusOf(f.error), Some(ErrorRecord(ClassOf(f.error), f.plan.retryable)), FailureMeta(f), false)
  }

  // ---------------------------------------------------------------- events and effects

  datatype Event =
    | OperationStarted(retry: bool, timeout: bool, fallback: bool, breaker: bool, validation: bool, rateLimit: bool)
    | AttemptStarted(number: nat, maxAttempts: nat)
    | RateLimitDetected(number: nat, class_: Class, retryAfter: Option<real>, maxWait: Option<real>, exceeded: bool)
    | RateLimitWaitExceeded(number: nat, retryAfter: Option<real>, tooLong: Option<real>, maxWait: Option<real>)
    | ValidationRejected(number: nat, validator: string, reason: string, onFallback: bool, candidate: Option<string>)
    | BreakerRejected(number: nat, state: CircuitBreakers.Phase, retryAfter: Option<real>)
    | AttemptFailed(number: nat, class_: Class, retryable: bool, meta: Metadata)
    | RetryScheduled(number: nat, next: nat, delay: real, source: Option<Source>, limited: bool,
                     retryAfter: Option<real>)
    | FallbackStarted(number: nat, after: nat)
    | FallbackFailed(number: nat, class_: Class, meta: Metadata)
    | FallbackSucceeded(number: nat, meta: Metadata)
    | ValidationSucceeded(number: nat, validator: string, candidate: Option<string>)
    | AttemptSucceeded(number: nat, meta: Metadata)
    | OperationSucceeded(attempts: nat, retries: nat, summary: Summary)
    | OperationFailed(attempts: nat, retries: nat, class_: Class, summary: Summary)

  /** What the engine does to the world, one await at a time. */
  datatype Step = Emit(event: Event) | CallProvider(number: nat) | Sleep(delay: real) | CallCandidate(index: nat)

  function Opening(op: Operation): Event {
    OperationStarted(op.retry.Some?, op.timeout, op.fallback.Some?, op.breaker, op.validators.Some?, op.rateLimit.Some?)
  }

  function MaxWait(op: Operation): Option<real> {
    if op.rateLimit.Some? then Some(op.rateLimit.value.maxWait) else None
  }

  function AttemptSteps(op: Operation, sc: Script, n: nat): seq<Step> {
    [Emit(AttemptStarted(n, op.MaxAttempts()))] + (if CallsProvider(op, sc, n) then [CallProvider(n)] else [])
  }

  function LimitSteps(op: Operation, n: nat, f: Failure): seq<Step> {
    if f.plan.limited then
      [Emit(RateLimitDetected(n, ClassOf(f.error), f.plan.retryAfter, MaxWait(op), f.plan.exceeded))] +
      (if f.plan.exceeded then [Emit(RateLimitWaitExceeded(n, f.plan.retryAfter, f.plan.delay, MaxWait(op)))] else [])
    else []
  }

  function ProblemSteps(n: nat, e: Exn): seq<Step> {
    (if e.ValidationFailed? then [Emit(ValidationRejected(n, e.validator, e.reason, false, None))] else []) +
    (if e.BreakerOpen? then [Emit(BreakerRejected(n, e.state, e.retryAfter))] else [])
  }

  /** Everything a failed attempt does once its exception is classified. */
  function FailureSteps(op: Operation, n: nat, f: Failure): seq<Step> {
    LimitSteps(op, n, f) + ProblemSteps(n, f.error) +
    [Emit(AttemptFailed(n, ClassOf(f.error), f.plan.retryable, FailureMeta(f)))]
  }

  function RetrySteps(n: nat, p: Plan): seq<Step>
    requires p.WillRetry()
  {
    [Emit(RetryScheduled(n, n + 1, p.delay.value, p.source, p.limited, p.retryAfter)), Sleep(p.delay.value)]
  }

  /** A round that ends in another attempt. */
  function RetryRound(op: Operation, sc: Script, n: nat): seq<Step>
    requires op.Valid() && n >= 1 && Retried(op, sc, n)
  {
    var f := FailureAt(op, sc, n);
    AttemptSteps(op, sc, n) + FailureSteps(op, n, f) + RetrySteps(n, f.plan)
  }

  /** The run up to the point where attempt `n + 1` begins. */
  function StepsBefore(op: Operation, sc: Script, n: nat): seq<Step>
    requires op.Valid() && AllRetried(op, sc, n)
  {
    if n == 0 then [Emit(Opening(op))] else StepsBefore(op, sc, n - 1) + RetryRound(op, sc, n)
  }

  function AttemptsBefore(op: Operation, sc: Script, n: nat): seq<Attempt>
    requires op.Valid() && AllRetried(op, sc, n)
  {
    if n == 0 then []
    else
      assert Retried(op, sc, n);
      AttemptsBefore(op, sc, n - 1) + [FailedAttempt(n, FailureAt(op, sc, n))]
  }

  function LimitedBefore(op: Operation, sc: Script, n: nat): bool
    requires op.Valid() && AllRetried(op, sc, n)
  {
    n > 0 && assert Retried(op, sc, n); (LimitedBefore(op, sc, n - 1) || FailureAt(op, sc, n).plan.limited)
  }

  /** Time slept for rate limits before attempt `n + 1`. */
  function WaitedBefore(op: Operation, sc: Script, n: nat): real
    requires op.Valid() && AllRetried(op, sc, n)
  {
    if n == 0 then 0.0
    else
      assert Retried(op, sc, n);
      WaitedBefore(op, sc, n - 1) +
      (if FailureAt(op, sc, n).plan.limited then FailureAt(op, sc, n).plan.delay.value else 0.0)
  }

  // ---------------------------------------------------------------- the fallback

  function TryCandidate(op: Operation, sc: Script, i: nat): Tried
    requires op.Valid()
  {
    Checked(op, sc.candidates(i))
  }

  function Tries(op: Operation, sc: Script): nat -> Tried
    requires op.Valid()
  {
    (i: nat) => TryCandidate(op, sc, i)
  }

  function CandidateSteps(k: nat): seq<Step> {
    seq(k, i requires 0 <= i => CallCandidate(i))
  }

  /** One event per failure that is a validation failure, named after the candidate at the same place. */
  function ValidationSteps(names: seq<string>, failures: seq<Exn>, number: nat): seq<Step> {
    if names == [] || failures == [] then []
    else
      (if failures[0].ValidationFailed?
       then [Emit(ValidationRejected(number, failures[0].validator, failures[0].reason, true, Some(names[0])))]
       else []) +
      ValidationSteps(names[1..], failures[1..], number)
  }

  /** The exception the engine sees when the chain does not win. */
  function ChainError(r: ChainResult): Exn
    requires !r.Won?
  {
    match r
    case AllFailed(failures) => FallbackChainFailed(failures)
    case PassedOn(e) => e
  }

  function FallbackFailureMeta(e: Exn): Metadata {
    var count := if e.FallbackChainFailed? then |e.failures| else 0;
    var validation :=
      if !e.FallbackChainFailed? then ValidationOf(e)
      else if e.failures == [] then NotPerformed
      else ValidationOf(e.failures[|e.failures| - 1]);
    Metadata(FallbackLost(count), e.BreakerOpen?, validation, None)
  }

  function FallbackProblemSteps(f: Fallback, e: Exn, number: nat): seq<Step> {
    if e.FallbackChainFailed? then ValidationSteps(f.names, e.failures, number)
    else if e.ValidationFailed? then [Emit(ValidationRejected(number, e.validator, e.reason, true, None))]
    else []
  }

  function FallbackFailureSteps(f: Fallback, e: Exn, number: nat): seq<Step> {
    FallbackProblemSteps(f, e, number) +
    [Emit(FallbackFailed(number, ClassOf(e), FallbackFailureMeta(e))),
     Emit(AttemptFailed(number, ClassOf(e), false, FallbackFailureMeta(e)))]
  }

  function PassedSteps(number: nat, v: ValidationMeta, candidate: Option<string>): seq<Step> {
    if v.ValidationPassed? then [Emit(ValidationSucceeded(number, v.validator, candidate))] else []
  }

  function WinMeta(f: Fallback, r: ChainResult): Metadata
    requires r.Won? && r.index < |f.names|
  {
    Metadata(FallbackWon(f.names[r.index], r.index, |r.failures|), false, r.validation, None)
  }

  function FallbackSuccessSteps(f: Fallback, r: ChainResult, number: nat): seq<Step>
    requires r.Won? && r.index < |f.names|
  {
    ValidationSteps(f.names, r.failures, number) + PassedSteps(number, r.validation, Some(f.names[r.index])) +
    [Emit(FallbackSucceeded(number, WinMeta(f, r))), Emit(AttemptSucceeded(number, WinMeta(f, r)))]
  }

  // ---------------------------------------------------------------- how a run ends

  datatype Outcome = Completed(value: Value, report: Report) | FailedWith(cause: Exn, report: Report)

  function TerminalStep(o: Outcome): Step {
    var r := o.report;
    match o
    case Completed(_, _) => Emit(OperationSucceeded(r.AttemptCount(), r.RetryCount(), r.meta))
    case FailedWith(cause, _) => Emit(OperationFailed(r.AttemptCount(), r.RetryCount(), ClassOf(cause), r.meta))
  }

  /** What follows the last primary attempt, up to and excluding the terminal event, with the result. */
  datatype Ending = Ending(steps: seq<Step>, outcome: Outcome)

  function SuccessEnding(n: nat, value: Value, validation: ValidationMeta, earlier: seq<Attempt>, encountered: bool,
                         waited: real): Ending {
    var meta := SuccessMeta(validation);
    Ending(PassedSteps(n, validation, None) + [Emit(AttemptSucceeded(n, meta))],
           Completed(value, Report(Succeeded, earlier + [Attempt(n, Succeeded, None, meta, false)],
                                   Summary(meta, encountered, waited, false))))
  }

  function FailureEnding(f: Failure, primary: seq<Attempt>, encountered: bool, waited: real): Ending {
    Ending([], FailedWith(f.error, Report(StatusOf(f.error), primary,
                                       Summary(FailureMeta(f), encountered, waited, f.plan.exceeded))))
  }

  function WinEnding(f: Fallback, r: ChainResult, primary: seq<Attempt>, summary: Summary): Ending
    requires r.Won? && r.index < |f.names|
  {
    Ending(FallbackSuccessSteps(f, r, |primary| + 1),
           Completed(r.value,
                     Report(Succeeded, primary + [Attempt(|primary| + 1, Succeeded, None, summary.last, true)],
                            summary)))
  }

  function LossEnding(f: Fallback, e: Exn, primary: seq<Attempt>, summary: Summary): Ending {
    var attempt := Attempt(|primary| + 1, StatusOf(e), Some(ErrorRecord(ClassOf(e), false)), summary.last, true);
    Ending(FallbackFailureSteps(f, e, |primary| + 1),
           FailedWith(e, Report(StatusOf(e), primary + [attempt], summary)))
  }

  /** After the chain has run: its events and the fallback attempt in the report. */
  function ChainEnding(f: Fallback, r: ChainResult, primary: seq<Attempt>, encountered: bool, waited: real,
                       exceeded: bool): Ending
    requires r.Won? ==> r.index < |f.names|
  {
    if r.Won? then WinEnding(f, r, primary, Summary(WinMeta(f, r), encountered, waited, exceeded))
    else LossEnding(f, ChainError(r), primary,
                    Summary(FallbackFailureMeta(ChainError(r)), encountered, waited, exceeded))
  }

  function FallbackOpening(op: Operation, sc: Script, primaries: nat): seq<Step>
    requires op.Valid() && op.fallback.Some?
  {
    [Emit(FallbackStarted(primaries + 1, primaries))] + CandidateSteps(ChainCalls(op.fallback.value, Tries(op, sc)))
  }

  function FallbackEnding(op: Operation, sc: Script, f: Failure, primary: seq<Attempt>, encountered: bool,
                          waited: real): Ending
    requires op.Valid() && op.fallback.Some?
  {
    var e := ChainEnding(op.fallback.value, ChainOutcome(op.fallback.value, Tries(op, sc)), primary, encountered,
                         waited, f.plan.exceeded);
    Ending(FallbackOpening(op, sc, |primary|) + e.steps, e.outcome)
  }

  predicate FallsBack(op: Operation, e: Exn) {
    op.fallback.Some? && op.fallback.value.fallbackOn(e)
  }

  /** What follows a failure that is not retried. */
  function StoppedEnding(op: Operation, sc: Script, f: Failure, primary: seq<Attempt>, encountered: bool,
                         waited: real): Ending
    requires op.Valid()
  {
    if FallsBack(op, f.error) then FallbackEnding(op, sc, f, primary, encountered, waited)
    else FailureEnding(f, primary, encountered, waited)
  }

  /** The primary failures up to and including attempt `k`, where the run stopped on a failure. */
  function PrimaryFailures(op: Operation, sc: Script): seq<Attempt>
    requires op.Valid() && TryAttempt(op, sc, LastAttempt(op, sc)).Err?
  {
    var k := LastAttempt(op, sc);
    AttemptsBefore(op, sc, k - 1) + [FailedAttempt(k, FailureAt(op, sc, k))]
  }

  function LastRound(op: Operation, sc: Script): Ending
    requires op.Valid()
  {
    var k := LastAttempt(op, sc);
    match TryAttempt(op, sc, k)
    case Ok(v, m) =>
      SuccessEnding(k, v, m, AttemptsBefore(op, sc, k - 1), LimitedBefore(op, sc, k - 1), WaitedBefore(op, sc, k - 1))
    case Err(_) =>
      var f := FailureAt(op, sc, k);
      var primary := PrimaryFailures(op, sc);
      var ending := StoppedEnding(op, sc, f, primary, LimitedBefore(op, sc, k - 1) || f.plan.limited,
                                  WaitedBefore(op, sc, k - 1));
      Ending(FailureSteps(op, k, f) + ending.steps, ending.outcome)
  }

  lemma LastRoundOnSuccess(op: Operation, sc: Script, n: nat)
    requires op.Valid() && n == LastAttempt(op, sc) && TryAttempt(op, sc, n).Ok?
    ensures LastRound(op, sc) ==
      SuccessEnding(n, TryAttempt(op, sc, n).value, TryAttempt(op, sc, n).validation,
                    AttemptsBefore(op, sc, n - 1), LimitedBefore(op, sc, n - 1), WaitedBefore(op, sc, n - 1))
  {
    hide SuccessEnding;
  }

  lemma LastRoundOnFailure(op: Operation, sc: Script, n: nat, f: Failure)
    requires op.Valid() && n == LastAttempt(op, sc) && TryAttempt(op, sc, n).Err? && f == FailureAt(op, sc, n)
    ensures var e := StoppedEnding(op, sc, f, AttemptsBefore(op, sc, n - 1) + [FailedAttempt(n, f)],
                                   LimitedBefore(op, sc, n - 1) || f.plan.limited, WaitedBefore(op, sc, n - 1));
      LastRound(op, sc) == Ending(FailureSteps(op, n, f) + e.steps, e.outcome)
  {
    hide StoppedEnding;
    hide FailureSteps;
    hide FailedAttempt;
  }

  /** All the effects of an undisturbed run, in order. */
  function Steps(op: Operation, sc: Script): seq<Step>
    requires op.Valid()
  {
    var k := LastAttempt(op, sc);
    StepsBefore(op, sc, k - 1) + AttemptSteps(op, sc, k) + LastRound(op, sc).steps +
      [TerminalStep(LastRound(op, sc).outcome)]
  }

  function OutcomeOf(op: Operation, sc: Script): Outcome
    requires op.Valid()
  {
    LastRound(op, sc).outcome
  }
}
