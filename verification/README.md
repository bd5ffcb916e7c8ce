# RelPrim verification model

A Dafny model of the execution core of RelPrim, a Python library of reliability
primitives for asyncio, with proofs of what that core promises. Concurrency is modelled as atomic steps: between
two awaits a task is not interrupted, so each stretch of code between awaits is one step, and any number of tasks
take their steps in any order.

- **Circuit breaker** (`CircuitBreaker.dfy`, `CircuitBreakerRuns.dfy`). The breaker object with its four changing
  fields, proved against transition functions, and runs of any number of overlapping calls that may end in a
  later phase, be cancelled, or see a reset.
- **Idempotency store** (`Idempotency.dfy`, `IdempotencyRuns.dfy`, `IdempotencyHistory.dfy`,
  `IdempotencyRequests.dfy`, `LazyPurge.dfy`). The store object, then a system of tasks with stacks of nested `execute`
  calls racing on any number of keys, with a log of starts, ends and deliveries; what each caller is answered; last,
  a refinement between purging lazily and entries that vanish at their expiry.
- **Operation engine** (`OperationSpec.dfy`, `Operation.dfy`). The specification says which attempt is the last and
  lists the effects from there, without a loop. The engine is the loop itself, acting on a world whose awaits may
  raise. Its parts are in `Retry.dfy` and `Policies.dfy`, its exceptions in `Exceptions.dfy`.
- **What the engine guarantees** (`OperationLaws.dfy`, `OperationTrace.dfy`, `OperationReports.dfy`,
  `OperationEffects.dfy`, `OperationSinks.dfy`, `RetryOnly.dfy`, `FallbackAttribution.dfy`, `ValidatedSharing.dfy`).
  When each effect occurs, field by field; a grammar of event traces that rebuilds the report, the report's own
  consistency, provider calls and sleeps, interruption as seen by each sink, equality with the stand-alone retry policy, and validated values across the shared store.
- **SQLite event store** (`Timestamps.dfy`, `EventStore.dfy`, `EventPaging.dfy`). The calendar, the fixed-width
  text of timestamps, the store as a table of rows, and readers that page through it while it changes.

## Where the code and its documentation disagree

The model follows the code; each disagreement has a concrete counterexample and an exact condition.

- A half-open breaker is documented to allow a single probe (`src/relprim/circuit_breaker.py:63-64`). A call admitted
  while closed that ends with an unrecorded exception in the half-open phase frees the slot under a running probe.
  The promise holds of a run exactly when every call let in as a probe has itself ended before the next probe is let
  in. It cannot fail while no reset and no completion of another call falls within the running time of a probe.
- A delay is documented as base times a power, capped (`src/relprim/retry.py:23-31`). When the power overflows the code
  uses the maximum, even for a base of zero.
- A comment says that `failures[i]` belongs to candidate `i` (`src/relprim/operation.py:711-712`). An inner
  chain's failure that a candidate lets through is read as this chain's own. The default policy hands over on every
  exception, so it is not affected.

## Model

| member | source | states |
|---|---|---|
| CircuitBreakers.EveryOperationKeepsConsistency | src/relprim/circuit_breaker.py:149-214 | From a consistent state, admitting a call, ending any admitted call (success, recorded or unrecorded failure, cancellation) and resetting all lead to a consistent state: CLOSED means a count below the threshold, no open time and no probe flag; OPEN and HALF_OPEN mean the count equals the threshold and an open time is set; OPEN means no probe flag |
| CircuitBreakers.AdvertisedWaitIsExact | src/relprim/circuit_breaker.py:154-167 | The wait in an OPEN rejection is present and positive, and a later call is admitted as a probe if and only if that long has passed |
| CircuitBreakers.CircuitBreaker.constructor | src/relprim/circuit_breaker.py:78-102 | A new breaker is closed with nothing counted |
| CircuitBreakers.CircuitBreaker.BeforeCall | src/relprim/circuit_breaker.py:149-176 | Answer and new state are those of the admission rule, in every phase; the state stays consistent |
| CircuitBreakers.CircuitBreaker.RecordSuccess | src/relprim/circuit_breaker.py:178-185 | Closes a half-open breaker, clears the count of a closed one, leaves an open one alone |
| CircuitBreakers.CircuitBreaker.RecordFailure | src/relprim/circuit_breaker.py:187-203 | New state is that of the failure rule: an unrecorded failure only frees a half-open slot, a recorded one reopens, counts, or trips at the threshold |
| CircuitBreakers.CircuitBreaker.Settle | src/relprim/circuit_breaker.py:113-129 | Ending a call, by success, failure or cancellation, has the effect of the ending rule, whatever phase the breaker is in by then |
| CircuitBreakers.CircuitBreaker.Reset | src/relprim/circuit_breaker.py:144-147 | The breaker is closed with nothing counted |
| CircuitBreakerRuns.ReachableIsConsistent | src/relprim/circuit_breaker.py:149-214 | Every state of every run of overlapping, cancelled and reset calls is consistent |
| CircuitBreakerRuns.ClosedCountIsStreak | src/relprim/circuit_breaker.py:178-203 | While closed, the stored count equals the number of recorded failures since the last success or reset, read off the history alone |
| CircuitBreakerRuns.OpensExactlyAtThreshold | src/relprim/circuit_breaker.py:199-208 | A closed breaker opens on exactly the action that makes that streak reach the threshold, with that action's time, and otherwise stays closed |
| CircuitBreakerRuns.NoAdmissionBeforeRecovery | src/relprim/circuit_breaker.py:154-167 | Open since `t`, no call is admitted before `t` plus the recovery timeout in any run without a reset, whatever stale calls finish meanwhile |
| CircuitBreakerRuns.HalfOpenMoves | src/relprim/circuit_breaker.py:178-214 | Over runs, a half-open breaker opens exactly on a recorded failure of any call, at that time; it closes exactly on a success or a reset; otherwise it stays, an arrival taking the slot and an unrecorded failure or a cancelled probe freeing it |
| CircuitBreakerRuns.OpenMoves | src/relprim/circuit_breaker.py:154-167 | Over runs, an open breaker goes half-open exactly on an arrival once the recovery time has passed, closes exactly on a reset, and no call that ends late changes it |
| CircuitBreakerRuns.AdmittedIff | src/relprim/circuit_breaker.py:149-176 | A call runs after arriving if and only if the breaker is closed, or open for the recovery time, or half-open with the slot free; it is a probe exactly when not closed; the advertised wait is the time left, and none while half-open |
| CircuitBreakerRuns.FailureWhileHalfOpenPauses | src/relprim/circuit_breaker.py:195-208 | After a recorded failure in a half-open phase nothing is admitted for a full recovery time, without a reset |
| CircuitBreakerRuns.ProbesAreSeparated | src/relprim/circuit_breaker.py:158-176 | Between any two probe admissions some call completed, a probe was cancelled, or the breaker was reset |
| CircuitBreakerRuns.OneProbeAtATimeIff | src/relprim/circuit_breaker.py:59-72 | The documented single probe holds of a run if and only if every call let in as a probe has itself ended before the next probe is let in; equivalently, if and only if no probe is let in beside a running one |
| CircuitBreakerRuns.SlotFreedUnderProbeIff | src/relprim/circuit_breaker.py:113-147 | What frees the slot while its probe runs on: a reset, any other call that completes, or another probe cancelled, and nothing else |
| CircuitBreakerRuns.UndisturbedMeansOneProbe | src/relprim/circuit_breaker.py:71-72 | The single probe holds of every run in which, while a probe runs, nobody resets the breaker and no other call completes |
| CircuitBreakerRuns.OneCallWhileHalfOpenIff | src/relprim/circuit_breaker.py:149-203 | The stronger property, at most one running call of any kind while half-open, holds of a run if and only if each half-open phase is entered with no earlier call running; then the probe flag is set exactly while that call runs |
| CircuitBreakerRuns.TwoProbesAtOnce | src/relprim/circuit_breaker.py:187-193 | A concrete run in which two probes run at once, because a stale call ends with an unrecorded failure during the half-open phase |
| Idempotency.InMemoryIdempotencyStore.PurgeExpired | src/relprim/idempotency.py:232-242 | Exactly the entries whose expiry is at or before the clock are gone, and their number is returned |
| Idempotency.InMemoryIdempotencyStore.EntryCount | src/relprim/idempotency.py:214-218 | The number of entries not expired |
| Idempotency.InMemoryIdempotencyStore.Acquire | src/relprim/idempotency.py:135-155 | One lock section decides between owning, re-entry, joining and replaying, and changes the store exactly as specified |
| Idempotency.InMemoryIdempotencyStore.Release | src/relprim/idempotency.py:170-191 | Removes the entry only if it still holds this future, and settles the future only if it is pending |
| Idempotency.InMemoryIdempotencyStore.Publish | src/relprim/idempotency.py:193-201 | Sets the expiry only on its own entry, and the result only on a pending future |
| IdempotencyRuns.OwnerGuardsHold | src/relprim/idempotency.py:170-201 | In every state of the invariant the guards at publish and release hold: the owner's entry holds its future, without expiry, and that future is pending |
| IdempotencyRuns.ReentryIffRunning | src/relprim/idempotency.py:148-149 | The re-entry error is raised if and only if the calling task is running that key's operation, at any depth of nesting |
| IdempotencyRuns.StepKeepsInv | src/relprim/idempotency.py:122-242 | Every atomic step of any task on any key keeps the protocol invariant on entries, pending futures, frames and waiters |
| IdempotencyHistory.ReachableInv | src/relprim/idempotency.py:122-242 | The protocol invariant holds in every state of every run |
| IdempotencyHistory.OneOperationPerKey | src/relprim/idempotency.py:134-166 | In every reachable state each key has at most one running operation, over all tasks and nesting depths |
| IdempotencyHistory.StoredFutures | src/relprim/idempotency.py:134-207 | Entries are in flight without an expiry or hold a value with one, never a failure or cancellation; a pending future is the one filed under its key and its owner is running it |
| IdempotencyHistory.SharedValueHasOneSource | src/relprim/idempotency.py:151-166 | Every delivered value is that of exactly one earlier success of the same key, and a replay happens strictly before that success plus its TTL |
| IdempotencyHistory.NoExecutionBeforeExpiry | src/relprim/idempotency.py:195-201 | With a monotone clock a key is not executed again between a success and its expiry |
| IdempotencyHistory.DeliveredValuesAreProduced | src/relprim/idempotency.py:151-207 | Whatever holds of every value an owner produced holds of every value any caller got |
| IdempotencyHistory.ExecutionsAreConserved | src/relprim/idempotency.py:168-201 | Per key, starts equal successes plus failures plus cancellations plus the one in flight; cancellations equal the futures abandoned |
| IdempotencyHistory.PassesAreBounded | src/relprim/idempotency.py:134-160 | A waiting call has gone round the loop once plus once for each abandoned future it saw, all distinct, hence at most one more time than owners of its key were cancelled |
| IdempotencyHistory.CancelledOwnerLosesNoWaiter | src/relprim/idempotency.py:170-179 | When an owner is cancelled its key is free in the same step, and every waiter on its future keeps its place and can go round at once |
| IdempotencyHistory.WokenWaiterCompetes | src/relprim/idempotency.py:157-160 | A waiter woken by a cancellation becomes the owner if the key is free, joins if someone was first, or gets the cached value; never a re-entry error |
| IdempotencyHistory.NobodyWaitsForItself | src/relprim/idempotency.py:148-149 | No call waits on a future its own task created, and no task has two frames of one key |
| IdempotencyRequests.EnterAsksForItsKey | src/relprim/idempotency.py:129-166 | Entering leaves one more call open for exactly this key and time-to-live, or is answered at once under this key: with a cached value or with the re-entry error of this key |
| IdempotencyRequests.EnterDecides | src/relprim/idempotency.py:135-155 | On entering, the task runs the operation if and only if nothing unexpired is filed under the key; otherwise it is given the cached value, refused inside its own operation, or waits on the future filed there |
| IdempotencyRequests.WakeAnswers | src/relprim/idempotency.py:157-166 | A woken waiter gets the value of the future it waited on, as joined, or its exception, under the key it asked for; after a cancelled owner its request goes on |
| IdempotencyRequests.CancelledWaiterLeavesNoTrace | src/relprim/idempotency.py:111-112 | Cancelling a waiter removes that call and changes neither store, log nor any other task |
| IdempotencyRequests.OwnerIsAnswered | src/relprim/idempotency.py:168-207 | The owner gets its own value or exception under its own key, and the success on record carries the key and time-to-live asked for |
| IdempotencyRequests.OpenRequestsAreCalls | src/relprim/idempotency.py:122-207 | Over whole runs, the calls in progress are exactly the requests entered and not yet answered or cancelled |
| IdempotencyRequests.EventsAnswerRequests | src/relprim/idempotency.py:122-207 | Every start, success, failure, delivery and exception names the key of the latest open request of the task that acts, a success also its time-to-live |
| IdempotencyRequests.CallersGetTheirKey | src/relprim/idempotency.py:134-207 | A delivered value is one that an operation entered for the same key returned, no later than the delivery; replayed, strictly before that moment plus the time-to-live asked for |
| IdempotencyRequests.JoinedErrorIsOwners | src/relprim/idempotency.py:180-191 | The exception a joined caller gets is the one on record for the future it waited on, raised by an operation entered for the same key |
| IdempotencyRequests.WhoMayAct | src/relprim/idempotency.py:122-207 | Which steps are possible: entering with any key when idle or inside an operation, ending an operation, cancelling a waiter, and waking it exactly once its future is done |
| LazyPurge.SameAnswers | src/relprim/idempotency.py:209-218 | Related lazy and eager stores answer `purge_expired` and `entry_count` alike at any later time |
| LazyPurge.PurgeSparesInFlight | src/relprim/idempotency.py:232-242 | A purge never removes an entry whose operation is running |
| LazyPurge.PurgeTakesExactly | src/relprim/idempotency.py:232-242 | A purge keeps exactly the entries with no expiry or a later one, unchanged, and the number removed is what the table loses |
| LazyPurge.StepSimulates | src/relprim/idempotency.py:136-138 | One step of the store is one step of a store whose entries vanish exactly at their expiry |
| LazyPurge.LazyPurgingIsInvisible | src/relprim/idempotency.py:101-104 | Over whole runs with a monotone clock, both stores give the same deliveries, errors, purge counts and entry counts |
| Retry.CapMonotone | src/relprim/retry.py:49-69 | Without jitter, delays never shrink with the retry number and stay within zero and the maximum, overflow included |
| Retry.JitterOnlyLowers | src/relprim/retry.py:66-69 | A jittered delay is between zero and the delay without jitter |
| Retry.JitterIsShare | src/relprim/retry.py:66-69 | With jitter the delay is the sample's share of the delay without; without jitter it is that delay |
| Retry.DelaysMultiply | src/relprim/retry.py:25-27 | While nothing overflows, the first delay is the base and each later one is the one before times the multiplier, capped |
| Retry.OverflowHandlerIff | src/relprim/retry.py:59-64 | For every valid backoff, computed and documented delays agree for every retry if and only if the base times the first power that overflows, if any does, reaches the maximum |
| Retry.LargeBaseFollowsDocumentation | src/relprim/retry.py:59-64 | They agree when no power overflows, whatever the numbers configured, or when the base times the overflow size reaches the maximum |
| Retry.ZeroBaseJumpsToMaximum | src/relprim/retry.py:59-62 | Every zero base delay, documented to stay zero, becomes the maximum for each retry whose power overflows |
| Retry.DoublingFromZero | src/relprim/retry.py:59-62 | Doubling from zero with the overflow size of double precision departs from the documentation at retry 1025, with a delay of ten seconds instead of none |
| Retry.TotalWithinMaximum | src/relprim/retry.py:49-69 | The total delay of `k` retries is between zero and `k` times the maximum |
| Retry.TotalWithinGeometricSum | src/relprim/retry.py:59-64 | While nothing overflows, the total delay is at most the geometric sum, for every multiplier from one on |
| Retry.GeometricBoundIff | src/relprim/retry.py:59-64 | Overflow included, the geometric sum bounds the total for every number of retries if and only if the delays keep to the documented formula |
| Retry.TotalWithinClosedForm | src/relprim/retry.py:59-64 | The same bound in closed form, which says something for a multiplier above one |
| Retry.Run | src/relprim/retry.py:102-160 | The loop returns the outcome, number of calls and delays given by the first call that succeeds, is not retried or is the last |
| Retry.ExhaustedMeansAllRetryable | src/relprim/retry.py:102-160 | A run is exhausted if and only if every allowed call failed retryably; the reported count and cause are then the last call's |
| Retry.OutcomeIff | src/relprim/retry.py:102-160 | The run returns a value, or lets an exception through, if and only if some allowed call did so, with only retryable failures before it |
| Retry.SleepsTheBackoff | src/relprim/retry.py:102-160 | After call `n` the run sleeps the backoff's delay for retry `n`, drawn from that call's sample |
| Policies.Evaluate | src/relprim/rate_limit.py:64-131 | A usable wait comes out if and only if the exception is recognised and the extractor returned a finite number not below zero; no wait if there is no extractor or it returned nothing; otherwise an extraction error about that exception |
| Policies.Validation | src/relprim/validation.py:123-135 | The policy passes a value if and only if every validator passes it |
| Policies.Validate | src/relprim/validation.py:123-135 | The fail-fast loop reports the first validator that does not pass, or the last one |
| Policies.CheckedByTheFirst | src/relprim/operation.py:662-671 | A value is kept if there are no validators or all pass it; otherwise the first that does not pass it decides, with its name and reason or its exception |
| Policies.WinnerIsFirst | src/relprim/fallback.py:109-134 | The winner is the first candidate that ran and validated, its index is the number of failures, failure `i` is candidate `i`'s, and no later candidate is called |
| Policies.ChainFailsIff | src/relprim/fallback.py:109-134 | The chain fails as a whole if and only if every candidate failed with an exception it hands over on, and then failure `i` is candidate `i`'s |
| Policies.ChainOutcomeIs | src/relprim/fallback.py:109-134 | Given the failures before a candidate: if it ran and validated it wins with them; if its exception is not covered that exception is passed on; if there is none left the chain fails with all of them; and how many were called |
| Exceptions.ClassTellsKinds | src/relprim/operation.py:771-783 | The class on record tells the kinds of exception and the application classes apart |
| OperationEngine.World.EmitEvent | src/relprim/events.py:147-164 | One event awaits the sinks in order; the first that raises stops everything after it |
| OperationEngine.RunSingleAttempt | src/relprim/operation.py:634-671 | One attempt: a breaker rejection without a provider call, else the call with the policy's own deadline and validation |
| OperationEngine.RunChain | src/relprim/operation.py:673-702 | The validated chain calls exactly the candidates up to the deciding one and returns the specified result |
| OperationEngine.ReportFailure | src/relprim/operation.py:234-317 | The events of a failed attempt, in their order, or a prefix of them if interrupted |
| OperationEngine.SleepBeforeRetry | src/relprim/operation.py:726-754 | Announces the retry, then sleeps the same delay, or stops where interrupted |
| OperationEngine.RunFallback | src/relprim/operation.py:330-537 | The fallback: its opening, candidates, validation events, attempt record, report and terminal event |
| OperationEngine.RunWithoutIdempotency | src/relprim/operation.py:172-632 | The loop, undisturbed, has exactly the specified effects in order and the specified outcome; interrupted at any await it has a prefix of them and does nothing more |
| OperationSpec.LimitedPlan | src/relprim/operation.py:978-1027 | A plan for a rate limit satisfies the constructor's checks; it retries only within the maximum wait and is marked exceeded only above it, and only while attempts remain |
| OperationSpec.Classify | src/relprim/operation.py:220-229 | A retry needs a policy, a remaining attempt and, when rate-limited, a wait within the maximum; only a broken extractor replaces the exception, and that is never retried |
| OperationSpec.LastAttempt | src/relprim/operation.py:206-328 | There is a last attempt within the allowed number; all before it are retried and it is not |
| OperationReports.RetriedIff | src/relprim/operation.py:936-1027 | A failure is retried if and only if a policy allows another attempt and it is either a rate limit with a wait within the maximum, whatever the retry classes say, or no rate limit and of a retried class |
| OperationReports.LastAttemptIff | src/relprim/operation.py:206-328 | The run stops at the least attempt that is not retried and at no other |
| OperationLaws.AttemptFailsAs | src/relprim/operation.py:634-656 | A refusal by the breaker and an exception of the provider decide the attempt; a timeout error becomes an operation timeout if and only if there is a timeout policy and its own deadline had passed |
| OperationLaws.AttemptChecksAs | src/relprim/operation.py:658-671 | What a returned value comes to, on the verdicts of the validators |
| OperationLaws.CandidateEndsAs | src/relprim/operation.py:673-702 | What a candidate comes to: no breaker, no timeout, the same validators |
| OperationLaws.LimitIsPlanned | src/relprim/operation.py:978-1027 | For a recognised rate limit, from the script: the delay is the provider's if it told one and else the backoff's, with its source; exceeded if and only if longer than the maximum; a wait that cannot be read ends the attempts with the extraction error |
| OperationLaws.OtherwisePlanned | src/relprim/operation.py:952-967 | Any other failure is retryable if and only if the retry policy covers it, with the backoff delay while attempts remain |
| OperationLaws.RunWaitsAsDue | src/relprim/operation.py:319-328 | Over whole runs, after each retried attempt the run announces and sleeps the wait the provider told, as the provider's, or else the backoff's delay |
| OperationLaws.EffectsOccurIff | src/relprim/operation.py:192-630 | Every event, provider call, sleep and candidate call is in a run if and only if its written-out condition on configuration and outside answers holds, field by field |
| OperationLaws.FallbackRunsIff | src/relprim/operation.py:330-344 | The fallback is announced, a candidate is called, and the report has one attempt more, if and only if the last attempt failed with an exception the fallback policy covers; without it a failed run ends with that exception |
| OperationLaws.OutcomeIs | src/relprim/operation.py:330-630 | A run comes to the last attempt's value, its exception, the winning candidate's value, an exception passed on, or the failure of the whole chain |
| OperationLaws.FailedAttemptsAreRecorded | src/relprim/operation.py:270-306 | Each failed primary attempt is on record with its own status, error, retryability and metadata |
| OperationTrace.EveryRunParsesAndRebuilds | src/relprim/operation.py:192-630 | Every run's effects are a sentence of one fixed grammar, and folding its events rebuilds the report, the retry count and the rate-limit wait |
| OperationTrace.SentencesAreConsistent | src/relprim/operation.py:192-630 | In any sentence of the grammar attempts are numbered from 1 without a gap, the only terminal event is the last step, and its attempt and retry counts are those of the events before it |
| OperationReports.ReportDescribesRun | src/relprim/report.py:94-200 | Every report passes its constructor's checks; attempts are numbered 1..n, all but the last failed, a fallback attempt is at most one and last, and exists if and only if the last primary attempt failed with an exception the fallback policy covers; status, `retry_count` and `last_error` agree with the attempts and the final cause |
| OperationReports.SummaryDescribesRun | src/relprim/operation.py:188-190 | The rate-limit summary: the wait is what a reader adds up from the rate-limited RETRY_SCHEDULED events, a limit was met if and only if some attempt failed with one, and the maximum was exceeded if and only if some attempt would have had to wait longer |
| OperationReports.RateLimitWaitsAreBounded | src/relprim/operation.py:319-328 | `rate_limit_wait_seconds` is the sum of the delays of the rate-limited RETRY_SCHEDULED events, between zero and the number of retries times the maximum wait; no attempt but the last exceeds it |
| OperationReports.ReturnedValueIsValidated | src/relprim/operation.py:648-702 | A returned value is what the last provider call or a fallback candidate returned, and passes every validator |
| OperationEffects.EffectsOfRun | src/relprim/operation.py:206-537 | The provider is called once for each attempt the breaker let through, delays are slept between attempts only, and candidates are called in order, only after the last primary failure, up to the deciding one |
| OperationEffects.EveryAttemptCalls | src/relprim/operation.py:634-646 | Without a breaker the provider is called exactly once per attempt |
| OperationSinks.EverySinkSeesAll | src/relprim/events.py:147-164 | After an undisturbed run every sink holds the same events |
| OperationSinks.SinksLagByOne | src/relprim/events.py:147-164 | Wherever a run stops, each sink holds a prefix of its uninterrupted log and a later sink is behind an earlier one by at most one event |
| OperationSinks.InterruptedRunIsPrefix | src/relprim/operation.py:206-632 | If a sink raises or the task is cancelled at any await, sinks hold such prefixes, and the provider calls, sleeps and candidates made are the first ones of the uninterrupted run |
| OperationSinks.DeedsOfSteps | src/relprim/operation.py:206-632 | The provider calls, sleeps and candidate calls awaited are those of the steps, in their order, whatever the number of sinks |
| RetryOnly.RetryOnlyOperationIsRetryPolicy | src/relprim/retry.py:132-160 | An operation with only a retry policy makes the same calls, sleeps the same delays and ends with the same value or final cause as the policy, and on exhaustion the reported attempts agree |
| FallbackAttribution.AttributionIsTruthfulIff | src/relprim/operation.py:704-724 | Validation events that name a candidate are about a refusal of that candidate, for all behaviours of the candidates, if and only if the policy hands over on every chain failure with a validation failure among its first ones |
| FallbackAttribution.ForeignFailuresAreMisread | src/relprim/operation.py:354-359 | A candidate whose own inner chain failed with an exception not handed over has its failures announced under this chain's candidates |
| ValidatedSharing.NoUnvalidatedValueEscapes | src/relprim/operation.py:154-170 | With a store used by one operation with validators, every result executed, joined or replayed holds a value that every validator passed |
| Timestamps.TextOrderIsTimeOrder | src/relprim/sqlite_events.py:443-446 | For all valid timestamps of the years 1 to 9999, comparing stored texts character by character is comparing instants, and equal texts are equal instants (sections 5.1 and 5.6 of RFC 3339) |
| Timestamps.RoundTrip | src/relprim/sqlite_events.py:443-446 | A stored text is read back as the timestamp it was written for |
| Timestamps.SerializedAs | src/relprim/sqlite_events.py:443-446 | The stored text column by column, 32 characters |
| Timestamps.PadIsDecimal | src/relprim/sqlite_events.py:443-446 | A padded number is that many decimal digits and reads as the number |
| Timestamps.FirstDay | src/relprim/sqlite_events.py:443-446 | Days count from the first of January of the year 1 |
| Timestamps.TickIsOneMicrosecond | src/relprim/sqlite_events.py:443-446 | Instants count microseconds: every tick of the calendar clock, over every carry and leap day, adds one |
| EventStore.SQLiteEventStore.Emit | src/relprim/sqlite_events.py:336-365 | The event is appended under the next id and reads back unchanged |
| EventStore.SQLiteEventStore.History | src/relprim/sqlite_events.py:143-185 | The answer is the specified one: errors in the order of the checks, an empty list for no event types, else the first matching events above the given id |
| EventStore.AnswerIsTheFirstAsked | src/relprim/sqlite_events.py:143-185 | When each error is given, and otherwise: exactly the first `limit` events in ascending id with the operation, one of the kinds and an id above the one given, each comparison written out |
| EventStore.FirstPage | src/relprim/sqlite_events.py:367-390 | Asking without an id is asking for what comes after zero |
| EventStore.SQLiteEventStore.Select | src/relprim/sqlite_events.py:367-418 | The statement on rows, decoded, is the page of matching events |
| EventStore.SQLiteEventStore.DeleteBefore | src/relprim/sqlite_events.py:420-440 | Exactly the events at or after the cutoff remain, in order, and the number removed is returned |
| EventPaging.DeletionIsExact | src/relprim/sqlite_events.py:420-440 | An event survives a deletion if and only if its instant is not before the cutoff; ids stay in order |
| EventPaging.ChainedPagesAreTheHistory | src/relprim/sqlite_events.py:367-418 | Chaining answers through `after_sequence_id`, of any positive size, gives exactly the events of the operation and kinds asked for, once each in ascending order |
| EventPaging.PagingMissesNothing | src/relprim/sqlite_events.py:367-418 | With appends and deletions in between, a reader that reached an empty page holds exactly once every matching event present at the start and still present |
| EventPaging.ReadEventsWereThere | src/relprim/sqlite_events.py:367-418 | Everything the reader holds matches and was in the table when it was read |
| EventPaging.IdsAreNeverReused | src/relprim/sqlite_events.py:47 | Rows found under one id at two moments of a run are the same row |

## Left out

- asyncio itself: event loop, locks, `shield` and `asyncio.timeout` are replaced by atomic steps; a timeout adds only
  the question whether the policy's own deadline had passed.
- KeyboardInterrupt and SystemExit: the interpreter ends, and the store does not handle them.
- Clocks, jitter samples, provider and candidate outcomes, retry-after extractors and validators' verdicts: they are
  inputs of the model, arbitrary except that the clock of a store or breaker never goes back.
- The breaker inside the engine: an attempt is told whether it was let through, since other tasks use the same breaker
  in between; the breaker's own behaviour is modelled separately.
- Floating-point rounding: times are real numbers; the size at which a power overflows is a parameter.
- Checks of argument types and of constructors: carried as `Valid()` preconditions, including keys, time-to-live
  values and `delay_for_retry` with a number below 1.
- Messages, breaker and operation names, `started_at`, durations and `to_dict` output of events and reports.
- Metadata added by the idempotency wrapper (`src/relprim/operation.py:905-934`): the shared value is modelled, not the copy.
- User subclasses of the library's exceptions: each exception has one class, and policies see it through an arbitrary predicate.
- SQLite: connections, threads, WAL, schema migration and JSON payloads; ids beyond 64 bits; conversion of a local
  timestamp to UTC.
- `InMemoryEventSink`, `NoopEventSink`, the OpenTelemetry, jsonschema and pydantic adapters and the decorators: thin wrappers.
- Absence of deadlock among tasks: cycles through child tasks or two keys are possible; no task waits on its own future.
- Cancelling a SQLite call: the statement already running in its thread may still be committed.
