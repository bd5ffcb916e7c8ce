/** How often a run calls the provider and the fallback candidates, and how long it sleeps. */
module OperationEffects {
  import opened Exceptions
  import opened Policies
  import opened OperationSpec
  import opened OperationTrace

  function Sleeps(steps: seq<Step>): seq<real> {
    if steps == [] then []
    else
      var last := steps[|steps| - 1];
      Sleeps(steps[..|steps| - 1]) + (if last.Sleep? then [last.delay] else [])
  }

  function ProviderCalls(steps: seq<Step>): seq<nat> {
    if steps == [] then []
    else
      var last := steps[|steps| - 1];
      ProviderCalls(steps[..|steps| - 1]) + (if last.CallProvider? then [last.number] else [])
  }

  function CandidateCalls(steps: seq<Step>): seq<nat> {
    if steps == [] then []
    else
      var last := steps[|steps| - 1];
      CandidateCalls(steps[..|steps| - 1]) + (if last.CallCandidate? then [last.index] else [])
  }

  /** The three together: what a run asks of the outside apart from emitting events. */
  datatype Effects = Effects(calls: seq<nat>, slept: seq<real>, candidates: seq<nat>)

  const NO_EFFECTS: Effects := Effects([], [], [])

  function EffectsOf(steps: seq<Step>): Effects {
    Effects(ProviderCalls(steps), Sleeps(steps), CandidateCalls(steps))
  }

  function Then(a: Effects, b: Effects): Effects {
    Effects(a.calls + b.calls, a.slept + b.slept, a.candidates + b.candidates)
  }

  lemma {:induction false} EffectsAppend(a: seq<Step>, b: seq<Step>)
    ensures EffectsOf(a + b) == Then(EffectsOf(a), EffectsOf(b))
  {
    if b == [] {
      assert a + b == a;
    } else {
      assert (a + b)[..|a + b| - 1] == a + b[..|b| - 1];
      EffectsAppend(a, b[..|b| - 1]);
    }
  }

  predicate OnlyEvents(steps: seq<Step>) {
    forall i :: 0 <= i < |steps| ==> steps[i].Emit?
  }

  lemma {:induction false} EventsHaveNoEffects(steps: seq<Step>)
    requires OnlyEvents(steps)
    ensures EffectsOf(steps) == NO_EFFECTS
  {
    if steps != [] { EventsHaveNoEffects(steps[..|steps| - 1]); }
  }

  lemma OneEffect(s: Step)
    ensures EffectsOf([s]) ==
      match s
      case Emit(_) => NO_EFFECTS
      case CallProvider(n) => Effects([n], [], [])
      case Sleep(d) => Effects([], [d], [])
      case CallCandidate(i) => Effects([], [], [i])
  {
    assert [s][..|[s]| - 1] == [];
    assert ProviderCalls([s]) == if s.CallProvider? then [s.number] else [];
    assert Sleeps([s]) == if s.Sleep? then [s.delay] else [];
    assert CandidateCalls([s]) == if s.CallCandidate? then [s.index] else [];
  }

  function OneTo(n: nat): seq<nat> {
    seq(n, i requires 0 <= i => i + 1)
  }

  function Below(n: nat): seq<nat> {
    seq(n, i requires 0 <= i => i)
  }

  /** The attempts up to `n` that the breaker let through to the provider. */
  function Called(op: Operation, sc: Script, n: nat): seq<nat> {
    if n == 0 then [] else Called(op, sc, n - 1) + (if CallsProvider(op, sc, n) then [n] else [])
  }

  /** The delays planned after the first `n` attempts, all of them retried. */
  function Planned(op: Operation, sc: Script, n: nat): seq<real>
    requires op.Valid() && AllRetried(op, sc, n)
  {
    if n == 0 then []
    else
      assert Retried(op, sc, n);
      Planned(op, sc, n - 1) + [FailureAt(op, sc, n).plan.delay.value]
  }

  lemma AttemptEffects(op: Operation, sc: Script, n: nat)
    ensures EffectsOf(AttemptSteps(op, sc, n)) == Effects(if CallsProvider(op, sc, n) then [n] else [], [], [])
  {
    var start := Emit(AttemptStarted(n, op.MaxAttempts()));
    OneEffect(start);
    OneEffect(CallProvider(n));
    EffectsAppend([start], [CallProvider(n)]);
    assert AttemptSteps(op, sc, n) == if CallsProvider(op, sc, n) then [start] + [CallProvider(n)] else [start];
  }

  lemma FailureIsQuiet(op: Operation, n: nat, f: Failure)
    ensures OnlyEvents(FailureSteps(op, n, f))
  {
  }

  lemma PauseEffects(n: nat, p: Plan)
    requires p.WillRetry()
    ensures EffectsOf(RetrySteps(n, p)) == Effects([], [p.delay.value], [])
  {
    var steps := RetrySteps(n, p);
    assert steps == [steps[0]] + [steps[1]];
    OneEffect(steps[0]);
    OneEffect(steps[1]);
    EffectsAppend([steps[0]], [steps[1]]);
  }

  lemma RoundInThree(op: Operation, sc: Script, n: nat)
    requires op.Valid() && n >= 1 && Retried(op, sc, n)
    ensures var f := FailureAt(op, sc, n);
      f.plan.WillRetry() && RetryRound(op, sc, n) ==
        AttemptSteps(op, sc, n) + FailureSteps(op, n, f) + RetrySteps(n, f.plan)
  {
    hide FailureAt;
    hide TryAttempt;
    hide AttemptSteps;
    hide FailureSteps;
    hide RetrySteps;
  }

  lemma RoundEffects(op: Operation, sc: Script, n: nat)
    requires op.Valid() && n >= 1 && Retried(op, sc, n)
    ensures TryAttempt(op, sc, n).Err? && FailureAt(op, sc, n).plan.WillRetry()
    ensures EffectsOf(RetryRound(op, sc, n)) ==
      Effects(if CallsProvider(op, sc, n) then [n] else [], [FailureAt(op, sc, n).plan.delay.value], [])
  {
    assert TryAttempt(op, sc, n).Err?;
    RoundInThree(op, sc, n);
    hide *;
    var f := FailureAt(op, sc, n);
    var a, b, c := AttemptSteps(op, sc, n), FailureSteps(op, n, f), RetrySteps(n, f.plan);
    AttemptEffects(op, sc, n);
    FailureIsQuiet(op, n, f);
    EventsHaveNoEffects(b);
    PauseEffects(n, f.plan);
    EffectsAppend(a, b);
    EffectsAppend(a + b, c);
    ThenNothing(EffectsOf(a));
    ThenMore(EffectsOf(a), EffectsOf(c));
  }

  lemma ThenNothing(a: Effects)
    ensures Then(a, NO_EFFECTS) == a
  {
  }

  lemma ThenMore(a: Effects, b: Effects)
    ensures Then(a, b) == Effects(a.calls + b.calls, a.slept + b.slept, a.candidates + b.candidates)
    ensures a.slept == [] && a.candidates == [] && b.calls == [] ==>
      Then(a, b) == Effects(a.calls, b.slept, b.candidates)
  {
  }

  lemma {:induction false} RetriesEffects(op: Operation, sc: Script, n: nat)
    requires op.Valid() && AllRetried(op, sc, n)
    ensures EffectsOf(StepsBefore(op, sc, n)) == Effects(Called(op, sc, n), Planned(op, sc, n), [])
  {
    hide *;
    if n == 0 {
      OpeningHasNoEffects(op, sc);
    } else {
      OneRoundMore(op, sc, n);
      RoundEffects(op, sc, n);
      RetriesEffects(op, sc, n - 1);
      EffectsAppend(StepsBefore(op, sc, n - 1), RetryRound(op, sc, n));
      OneMorePlanned(op, sc, n);
    }
  }

  lemma OpeningHasNoEffects(op: Operation, sc: Script)
    requires op.Valid()
    ensures EffectsOf(StepsBefore(op, sc, 0)) == Effects(Called(op, sc, 0), Planned(op, sc, 0), [])
  {
    OneEffect(Emit(Opening(op)));
  }

  lemma OneMorePlanned(op: Operation, sc: Script, n: nat)
    requires op.Valid() && n >= 1 && AllRetried(op, sc, n) && AllRetried(op, sc, n - 1) && Retried(op, sc, n)
    ensures TryAttempt(op, sc, n).Err? && FailureAt(op, sc, n).plan.WillRetry()
    ensures Effects(Called(op, sc, n), Planned(op, sc, n), []) ==
      Then(Effects(Called(op, sc, n - 1), Planned(op, sc, n - 1), []),
           Effects(if CallsProvider(op, sc, n) then [n] else [], [FailureAt(op, sc, n).plan.delay.value], []))
  {
    hide FailureAt;
    hide TryAttempt;
    hide CallsProvider;
  }

  lemma {:induction false} CandidateEffects(k: nat)
    ensures EffectsOf(CandidateSteps(k)) == Effects([], [], Below(k))
  {
    if k == 0 {
      assert CandidateSteps(0) == [];
    } else {
      assert CandidateSteps(k) == CandidateSteps(k - 1) + [CallCandidate(k - 1)];
      CandidateEffects(k - 1);
      OneEffect(CallCandidate(k - 1));
      EffectsAppend(CandidateSteps(k - 1), [CallCandidate(k - 1)]);
      assert Below(k) == Below(k - 1) + [k - 1];
    }
  }

  lemma {:induction false} ValidationIsQuiet(names: seq<string>, failures: seq<Exn>, number: nat)
    ensures OnlyEvents(ValidationSteps(names, failures, number))
    decreases |names|
  {
    if names != [] && failures != [] { ValidationIsQuiet(names[1..], failures[1..], number); }
  }

  lemma ChainIsQuiet(f: Fallback, r: ChainResult, primary: seq<Attempt>, encountered: bool, waited: real,
                     exceeded: bool)
    requires r.Won? ==> r.index < |f.names|
    ensures OnlyEvents(ChainEnding(f, r, primary, encountered, waited, exceeded).steps)
  {
    var m := |primary| + 1;
    if r.Won? {
      ValidationIsQuiet(f.names, r.failures, m);
    } else if ChainError(r).FallbackChainFailed? {
      ValidationIsQuiet(f.names, ChainError(r).failures, m);
    }
    hide ValidationSteps;
  }

  /** The candidates called: none without a fallback, else those of the chain up to the one that decides it. */
  function Substitutes(op: Operation, sc: Script, e: Exn): seq<nat>
    requires op.Valid()
  {
    if FallsBack(op, e) then Below(ChainCalls(op.fallback.value, Tries(op, sc))) else []
  }

  lemma StoppedEffects(op: Operation, sc: Script, f: Failure, primary: seq<Attempt>, encountered: bool, waited: real)
    requires op.Valid()
    ensures EffectsOf(StoppedEnding(op, sc, f, primary, encountered, waited).steps) ==
      Effects([], [], Substitutes(op, sc, f.error))
  {
    hide *;
    if FallsBack(op, f.error) {
      FallbackParts(op, sc, f, primary, encountered, waited);
      var chain := op.fallback.value;
      var calls := ChainCalls(chain, Tries(op, sc));
      var start := Emit(FallbackStarted(|primary| + 1, |primary|));
      var e := ChainEnding(chain, ChainOutcome(chain, Tries(op, sc)), primary, encountered, waited, f.plan.exceeded);
      ChainIsQuiet(chain, ChainOutcome(chain, Tries(op, sc)), primary, encountered, waited, f.plan.exceeded);
      EventsHaveNoEffects(e.steps);
      OneEffect(start);
      CandidateEffects(calls);
      EffectsAppend([start], CandidateSteps(calls));
      EffectsAppend([start] + CandidateSteps(calls), e.steps);
      ThenNothing(EffectsOf([start] + CandidateSteps(calls)));
      NothingThen(EffectsOf(CandidateSteps(calls)));
    } else {
      NoFallbackParts(op, sc, f, primary, encountered, waited);
    }
  }

  lemma NothingThen(a: Effects)
    ensures Then(NO_EFFECTS, a) == a
  {
  }

  lemma FallbackParts(op: Operation, sc: Script, f: Failure, primary: seq<Attempt>, encountered: bool, waited: real)
    requires op.Valid() && FallsBack(op, f.error)
    ensures op.fallback.Some? && Substitutes(op, sc, f.error) == Below(ChainCalls(op.fallback.value, Tries(op, sc)))
    ensures var chain := op.fallback.value;
      StoppedEnding(op, sc, f, primary, encountered, waited).steps ==
        [Emit(FallbackStarted(|primary| + 1, |primary|))] + CandidateSteps(ChainCalls(chain, Tries(op, sc))) +
        ChainEnding(chain, ChainOutcome(chain, Tries(op, sc)), primary, encountered, waited, f.plan.exceeded).steps
  {
    hide ChainEnding;
    hide ChainCalls;
    hide CandidateSteps;
  }

  lemma NoFallbackParts(op: Operation, sc: Script, f: Failure, primary: seq<Attempt>, encountered: bool, waited: real)
    requires op.Valid() && !FallsBack(op, f.error)
    ensures EffectsOf(StoppedEnding(op, sc, f, primary, encountered, waited).steps) ==
      Effects([], [], Substitutes(op, sc, f.error))
  {
  }

  lemma LastRoundEffects(op: Operation, sc: Script)
    requires op.Valid()
    ensures var k := LastAttempt(op, sc);
      EffectsOf(LastRound(op, sc).steps) ==
        Effects([], [], if TryAttempt(op, sc, k).Ok? then [] else Substitutes(op, sc, FailureAt(op, sc, k).error))
  {
    var k := LastAttempt(op, sc);
    hide LastRound;
    hide TryAttempt;
    hide FailureAt;
    hide StoppedEnding;
    hide FailureSteps;
    hide EffectsOf;
    match TryAttempt(op, sc, k)
    case Ok(v, m) =>
      LastRoundOnSuccess(op, sc, k);
      EventsHaveNoEffects(LastRound(op, sc).steps);
    case Err(_) =>
      var f := FailureAt(op, sc, k);
      var primary := AttemptsBefore(op, sc, k - 1) + [FailedAttempt(k, f)];
      var encountered := LimitedBefore(op, sc, k - 1) || f.plan.limited;
      LastRoundOnFailure(op, sc, k, f);
      FailureIsQuiet(op, k, f);
      EventsHaveNoEffects(FailureSteps(op, k, f));
      StoppedEffects(op, sc, f, primary, encountered, WaitedBefore(op, sc, k - 1));
      EffectsAppend(FailureSteps(op, k, f),
                    StoppedEnding(op, sc, f, primary, encountered, WaitedBefore(op, sc, k - 1)).steps);
  }

  lemma TerminalIsQuiet(o: Outcome)
    ensures OnlyEvents([TerminalStep(o)])
  {
  }

  /** A whole run calls the provider once for each attempt that the breaker let through, sleeps the planned delay
      between attempts and never after the last, and calls fallback candidates only after the last
      primary failure, in order, up to the one that decides. */
  lemma EffectsOfRun(op: Operation, sc: Script)
    requires op.Valid()
    ensures var k := LastAttempt(op, sc);
      EffectsOf(Steps(op, sc)) ==
        Effects(Called(op, sc, k), Planned(op, sc, k - 1),
                if TryAttempt(op, sc, k).Ok? then [] else Substitutes(op, sc, FailureAt(op, sc, k).error))
  {
    hide *;
    var k := LastAttempt(op, sc);
    var e := LastRound(op, sc);
    var a, b, end := StepsBefore(op, sc, k - 1), AttemptSteps(op, sc, k), [TerminalStep(e.outcome)];
    StepsInThree(op, sc);
    RetriesEffects(op, sc, k - 1);
    AttemptEffects(op, sc, k);
    LastRoundEffects(op, sc);
    TerminalIsQuiet(e.outcome);
    EventsHaveNoEffects(end);
    EffectsAppend(e.steps, end);
    ThenNothing(EffectsOf(e.steps));
    EffectsAppend(a, b);
    EffectsAppend(a + b, e.steps + end);
    Assemble(op, sc, k, EffectsOf(a), EffectsOf(b), EffectsOf(e.steps));
  }

  lemma Assemble(op: Operation, sc: Script, k: nat, a: Effects, b: Effects, c: Effects)
    requires k >= 1 && a.calls == Called(op, sc, k - 1) && a.candidates == []
    requires b == Effects(if CallsProvider(op, sc, k) then [k] else [], [], []) && c.calls == [] && c.slept == []
    ensures Then(Then(a, b), c) == Effects(Called(op, sc, k), a.slept, c.candidates)
  {
  }

  /** Without a breaker the provider is called exactly once per attempt. */
  lemma {:induction false} EveryAttemptCalls(op: Operation, sc: Script, n: nat)
    requires !op.breaker
    ensures Called(op, sc, n) == OneTo(n)
  {
    if n > 0 {
      EveryAttemptCalls(op, sc, n - 1);
      assert OneTo(n) == OneTo(n - 1) + [n];
    }
  }
}
