/** The operation engine as the loop it is, running against a world that may interrupt it at any await. */
module OperationEngine {
  import opened Prelude
  import opened Exceptions
  import opened Policies
  import opened OperationSpec

  // ---------------------------------------------------------------- the world, one await at a time

  /** An event step awaits every sink in turn; the other steps are a single await each. */
  datatype Act = Deliver(sink: nat, event: Event) | Provide(number: nat) | Pause(delay: real) | Substitute(index: nat)

  function Acts(sinks: nat, s: Step): seq<Act> {
    match s
    case Emit(e) => seq(sinks, i requires 0 <= i => Deliver(i, e))
    case CallProvider(n) => [Provide(n)]
    case Sleep(d) => [Pause(d)]
    case CallCandidate(i) => [Substitute(i)]
  }

  function Expand(sinks: nat, steps: seq<Step>): seq<Act> {
    if steps == [] then [] else Expand(sinks, steps[..|steps| - 1]) + Acts(sinks, steps[|steps| - 1])
  }

  lemma ExpandSnoc(sinks: nat, a: seq<Step>, s: Step)
    ensures Expand(sinks, a + [s]) == Expand(sinks, a) + Acts(sinks, s)
  {
    assert (a + [s])[..|a|] == a;
  }

  lemma {:induction false} ExpandAppend(sinks: nat, a: seq<Step>, b: seq<Step>)
    ensures Expand(sinks, a + b) == Expand(sinks, a) + Expand(sinks, b)
  {
    if b == [] {
      assert a + b == a;
    } else {
      hide *;
      var init, last := b[..|b| - 1], b[|b| - 1];
      assert a + b == (a + init) + [last] && b == init + [last];
      ExpandSnoc(sinks, a + init, last);
      ExpandSnoc(sinks, init, last);
      ExpandAppend(sinks, a, init);
      Regroup(Expand(sinks, a), Expand(sinks, init), Acts(sinks, last));
    }
  }

  /** The world a run acts on. The await number `stopAt` (counting from zero) raises: a sink fails
      or the task is cancelled. `landed` says whether that await had already taken effect. */
  class World {
    const sinks: nat
    const stopAt: nat
    const landed: bool
    var log: seq<Act>
    var stopped: bool

    constructor (sinks: nat, stopAt: nat, landed: bool)
      ensures this.sinks == sinks && this.stopAt == stopAt && this.landed == landed && At([])
    {
      this.sinks, this.stopAt, this.landed := sinks, stopAt, landed;
      log, stopped := [], false;
    }

    /** Nothing has been interrupted and exactly these steps have been taken. */
    ghost predicate At(steps: seq<Step>)
      reads this
    {
      !stopped && log == Expand(sinks, steps) && |log| <= stopAt
    }

    /** The run was interrupted somewhere within these steps and did nothing afterwards. */
    ghost predicate CutIn(steps: seq<Step>)
      reads this
    {
      stopped && log <= Expand(sinks, steps) && stopAt < |Expand(sinks, steps)|
      && |log| == stopAt + (if landed then 1 else 0)
    }

    method Do(a: Act) returns (ok: bool)
      requires !stopped && |log| <= stopAt
      modifies this
      ensures stopped == !ok == (old(|log|) == stopAt)
      ensures log == old(log) + (if ok || landed then [a] else [])
    {
      ok := |log| < stopAt;
      if ok || landed {
        log := log + [a];
      }
      stopped := !ok;
    }

    /** The emitter: awaits each sink in order and stops at the first that raises. */
    method EmitEvent(e: Event, ghost done: seq<Step>) returns (ok: bool)
      requires At(done)
      modifies this
      ensures if ok then At(done + [Emit(e)]) else CutIn(done + [Emit(e)])
    {
      ExpandSnoc(sinks, done, Emit(e));
      var i := 0;
      ghost var base := log;
      while i < sinks
        invariant 0 <= i <= sinks && !stopped && |log| <= stopAt
        invariant log == base + Acts(sinks, Emit(e))[..i]
      {
        ok := Do(Deliver(i, e));
        if !ok {
          return;
        }
        i := i + 1;
      }
      ok := true;
    }

    /** Any other step. */
    method Perform(s: Step, ghost done: seq<Step>) returns (ok: bool)
      requires !s.Emit? && At(done)
      modifies this
      ensures if ok then At(done + [s]) else CutIn(done + [s])
    {
      ExpandSnoc(sinks, done, s);
      match s
      case CallProvider(n) => ok := Do(Provide(n));
      case Sleep(d) => ok := Do(Pause(d));
      case CallCandidate(i) => ok := Do(Substitute(i));
    }

    /** Interrupted within `a` is interrupted within anything that starts with `a`. */
    lemma CutInMore(a: seq<Step>, b: seq<Step>)
      requires CutIn(a)
      ensures CutIn(a + b)
    {
      ExpandAppend(sinks, a, b);
    }
  }

  lemma CutInPrefix(w: World, a: seq<Step>, b: seq<Step>)
    requires w.CutIn(a) && a <= b
    ensures w.CutIn(b)
  {
    w.CutInMore(a, b[|a|..]);
    assert b == a + b[|a|..];
  }

  // ---------------------------------------------------------------- parts of a run

  method ValidateValue(op: Operation, v: Value) returns (t: Tried)
    requires op.Valid()
    ensures t == CheckValue(op.validators, v)
  {
    if op.validators.None? {
      return Ok(v, NotPerformed);
    }
    var verdict := Validate(op.validators.value, v);
    match verdict
    case Passed(name) => t := Ok(v, ValidationPassed(name));
    case Refused(name, reason) => t := Err(ValidationFailed(name, reason));
    case Broke(e) => t := Err(e);
  }

  method RunSingleAttempt(op: Operation, sc: Script, n: nat, w: World, ghost done: seq<Step>) returns (ok: bool,
      t: Tried)
    requires op.Valid() && w.At(done)
    modifies w
    ensures var steps := if CallsProvider(op, sc, n) then [CallProvider(n)] else [];
      if ok then w.At(done + steps) else w.CutIn(done + steps)
    ensures ok ==> t == TryAttempt(op, sc, n)
  {
    if op.breaker && sc.gates(n).Refuse? {
      assert done + [] == done;
      return true, Err(BreakerOpen(sc.gates(n).state, sc.gates(n).retryAfter));
    }
    t := Err(BuiltinTimeout(0));
    ok := w.Perform(CallProvider(n), done);
    if !ok {
      return;
    }
    var c := Timed(op, sc.calls(n), sc.expired(n));
    match c
    case Returned(v) => t := ValidateValue(op, v);
    case Raised(e) => t := Err(e);
  }

  /** The events between a failure and its `AttemptFailed`, and that event itself. */
  method ReportFailure(op: Operation, n: nat, f: Failure, w: World, ghost done: seq<Step>) returns (ok: bool)
    requires w.At(done)
    modifies w
    ensures if ok then w.At(done + FailureSteps(op, n, f)) else w.CutIn(done + FailureSteps(op, n, f))
  {
    hide World.At;
    hide World.CutIn;
    hide FailureMeta;
    hide ClassOf;
    hide MaxWait;
    ghost var now := done;
    ghost var all := FailureSteps(op, n, f);
    ghost var rest := all;
    if f.plan.limited {
      var e := RateLimitDetected(n, ClassOf(f.error), f.plan.retryAfter, MaxWait(op), f.plan.exceeded);
      rest := all[1..];
      assert now + [Emit(e)] + rest == done + all;
      ok := w.EmitEvent(e, now);
      now := now + [Emit(e)];
      if !ok { w.CutInMore(now, rest); return; }
      if f.plan.exceeded {
        var x := RateLimitWaitExceeded(n, f.plan.retryAfter, f.plan.delay, MaxWait(op));
        assert rest[0] == Emit(x);
        rest := rest[1..];
        assert now + [Emit(x)] + rest == done + all;
        ok := w.EmitEvent(x, now);
        now := now + [Emit(x)];
        if !ok { w.CutInMore(now, rest); return; }
      }
    }
    assert now + rest == done + all;
    assert rest == ProblemSteps(n, f.error) +
      [Emit(AttemptFailed(n, ClassOf(f.error), f.plan.retryable, FailureMeta(f)))];
    if f.error.ValidationFailed? {
      var e := ValidationRejected(n, f.error.validator, f.error.reason, false, None);
      assert rest[0] == Emit(e);
      rest := rest[1..];
      assert now + [Emit(e)] + rest == done + all;
      ok := w.EmitEvent(e, now);
      now := now + [Emit(e)];
      if !ok { w.CutInMore(now, rest); return; }
    }
    if f.error.BreakerOpen? {
      var e := BreakerRejected(n, f.error.state, f.error.retryAfter);
      assert rest[0] == Emit(e);
      rest := rest[1..];
      assert now + [Emit(e)] + rest == done + all;
      ok := w.EmitEvent(e, now);
      now := now + [Emit(e)];
      if !ok { w.CutInMore(now, rest); return; }
    }
    var e := AttemptFailed(n, ClassOf(f.error), f.plan.retryable, FailureMeta(f));
    assert rest == [Emit(e)];
    ok := w.EmitEvent(e, now);
  }

  /** Its two guards against a missing policy or plan are its precondition here: no run breaks it. */
  method SleepBeforeRetry(op: Operation, n: nat, p: Plan, w: World, ghost done: seq<Step>) returns (ok: bool)
    requires op.retry.Some? && p.WillRetry() && w.At(done)
    modifies w
    ensures if ok then w.At(done + RetrySteps(n, p)) else w.CutIn(done + RetrySteps(n, p))
  {
    var e := RetryScheduled(n, n + 1, p.delay.value, p.source, p.limited, p.retryAfter);
    ghost var pause := [Sleep(p.delay.value)];
    assert done + RetrySteps(n, p) == done + [Emit(e)] + pause;
    ok := w.EmitEvent(e, done);
    if !ok { w.CutInMore(done + [Emit(e)], pause); return; }
    ok := w.Perform(Sleep(p.delay.value), done + [Emit(e)]);
  }

  // ---------------------------------------------------------------- the fallback chain

  /** Having seen candidates `0..i` fail and hand over, the chain stops at `i` if that one does not. */
  lemma ChainStopsAt(chain: Fallback, tries: nat -> Tried, i: nat, failures: seq<Exn>)
    requires i <= |chain.names| && |failures| == i
    requires forall j: nat :: j < i ==> tries(j) == Err(failures[j]) && chain.fallbackOn(failures[j])
    requires i == |chain.names| || !HandsOver(chain, tries, i)
    ensures ChainStop(chain, tries, 0) == i
    ensures Failures(tries, i) == failures
  {
    var k := ChainStop(chain, tries, 0);
    assert k == |chain.names| || !HandsOver(chain, tries, k);
  }

  /** A candidate that is called is among those the chain calls. */
  lemma CalledIsCounted(chain: Fallback, tries: nat -> Tried, i: nat)
    requires i < |chain.names| && forall j: nat :: j < i ==> HandsOver(chain, tries, j)
    ensures i + 1 <= ChainCalls(chain, tries)
  {
    var k := ChainStop(chain, tries, 0);
    assert k == |chain.names| || !HandsOver(chain, tries, k);
  }

  lemma NextCandidate(done: seq<Step>, i: nat)
    ensures done + CandidateSteps(i + 1) == done + CandidateSteps(i) + [CallCandidate(i)]
  {
    assert CandidateSteps(i + 1) == CandidateSteps(i) + [CallCandidate(i)];
  }

  lemma CutInCandidates(w: World, done: seq<Step>, i: nat, calls: nat)
    requires i <= calls && w.CutIn(done + CandidateSteps(i))
    ensures w.CutIn(done + CandidateSteps(calls))
  {
    var rest := CandidateSteps(calls)[i..];
    w.CutInMore(done + CandidateSteps(i), rest);
    assert CandidateSteps(calls) == CandidateSteps(i) + rest;
    assert done + CandidateSteps(calls) == done + CandidateSteps(i) + rest;
  }

  /** Runs one candidate and validates its value. */
  method RunCandidate(op: Operation, sc: Script, i: nat, w: World, ghost done: seq<Step>) returns (ok: bool, t: Tried)
    requires op.Valid() && w.At(done)
    modifies w
    ensures if ok then w.At(done + [CallCandidate(i)]) else w.CutIn(done + [CallCandidate(i)])
    ensures ok ==> t == TryCandidate(op, sc, i)
  {
    t := Err(BuiltinTimeout(0));
    ok := w.Perform(CallCandidate(i), done);
    if !ok {
      return;
    }
    match sc.candidates(i)
    case Returned(v) => t := ValidateValue(op, v);
    case Raised(e) => t := Err(e);
  }

  /** Tries the candidates in order, each validated, and returns the first that succeeds. */
  method RunChain(op: Operation, chain: Fallback, sc: Script, w: World, ghost done: seq<Step>) returns (ok: bool,
      r: ChainResult)
    requires op.Valid() && w.At(done)
    modifies w
    ensures var steps := CandidateSteps(ChainCalls(chain, Tries(op, sc)));
      if ok then w.At(done + steps) else w.CutIn(done + steps)
    ensures ok ==> r == ChainOutcome(chain, Tries(op, sc))
  {
    hide World.At;
    hide World.CutIn;
    hide Checked;
    ghost var tries := Tries(op, sc);
    assert forall j: nat :: tries(j) == TryCandidate(op, sc, j);
    var failures: seq<Exn> := [];
    r := AllFailed([]);
    assert done + CandidateSteps(0) == done;
    while |failures| < |chain.names|
      invariant |failures| <= |chain.names|
      invariant forall j: nat :: j < |failures| ==> tries(j) == Err(failures[j]) && chain.fallbackOn(failures[j])
      invariant w.At(done + CandidateSteps(|failures|))
      decreases |chain.names| - |failures|
    {
      ghost var i := |failures|;
      var t: Tried;
      CalledIsCounted(chain, tries, i);
      NextCandidate(done, i);
      ok, t := RunCandidate(op, sc, |failures|, w, done + CandidateSteps(i));
      if !ok {
        CutInCandidates(w, done, i + 1, ChainCalls(chain, tries));
        return;
      }
      assert t == tries(i);
      match t {
        case Ok(v, m) =>
          ChainStopsAt(chain, tries, i, failures);
          return true, Won(v, m, |failures|, failures);
        case Err(e) =>
          if !chain.fallbackOn(e) {
            ChainStopsAt(chain, tries, i, failures);
            return true, PassedOn(e);
          }
          failures := failures + [e];
      }
    }
    ChainStopsAt(chain, tries, |failures|, failures);
    return true, AllFailed(failures);
  }

  /** Emits a validation event for each failure that is one, pairing failures with candidates by position. */
  method EmitValidationFailures(names: seq<string>, failures: seq<Exn>, number: nat, w: World,
                                ghost done: seq<Step>) returns (ok: bool)
    requires w.At(done)
    modifies w
    ensures var steps := ValidationSteps(names, failures, number);
      if ok then w.At(done + steps) else w.CutIn(done + steps)
  {
    hide World.At;
    hide World.CutIn;
    ghost var all := ValidationSteps(names, failures, number);
    ghost var now := done;
    var i := 0;
    while i < |names| && i < |failures|
      invariant 0 <= i <= |names| && i <= |failures|
      invariant w.At(now) && now + ValidationSteps(names[i..], failures[i..], number) == done + all
    {
      ghost var rest := ValidationSteps(names[i + 1..], failures[i + 1..], number);
      assert names[i..][1..] == names[i + 1..] && failures[i..][1..] == failures[i + 1..];
      if failures[i].ValidationFailed? {
        var e := ValidationRejected(number, failures[i].validator, failures[i].reason, true, Some(names[i]));
        assert now + [Emit(e)] + rest == done + all;
        ok := w.EmitEvent(e, now);
        now := now + [Emit(e)];
        if !ok { w.CutInMore(now, rest); return; }
      }
      i := i + 1;
    }
    assert now + [] == now;
    ok := true;
  }

  // ---------------------------------------------------------------- how a run ends

  ghost predicate Ended(w: World, ok: bool, done: seq<Step>, e: Ending)
    reads w
  {
    var all := done + e.steps + [TerminalStep(e.outcome)];
    if ok then w.At(all) else w.CutIn(all)
  }

  /** An ending reached after the further steps `more` is an ending that begins with them. */
  lemma EndedAfter(w: World, ok: bool, done: seq<Step>, more: seq<Step>, e: Ending)
    requires Ended(w, ok, done + more, e)
    ensures Ended(w, ok, done, Ending(more + e.steps, e.outcome))
  {
    assert done + more + e.steps == done + (more + e.steps);
  }

  lemma CutShort(w: World, done: seq<Step>, more: seq<Step>, e: Ending)
    requires w.CutIn(done + more) && more <= e.steps
    ensures Ended(w, false, done, e)
  {
    CutInPrefix(w, done + more, done + e.steps + [TerminalStep(e.outcome)]);
  }

  /** Emits the terminal event of a finished report. */
  method Conclude(o: Outcome, w: World, ghost done: seq<Step>) returns (ok: bool)
    requires w.At(done) && o.report.Allowed()
    modifies w
    ensures if ok then w.At(done + [TerminalStep(o)]) else w.CutIn(done + [TerminalStep(o)])
  {
    var report := o.report;
    match o
    case Completed(_, _) =>
      ok := w.EmitEvent(OperationSucceeded(report.AttemptCount(), report.RetryCount(), report.meta), done);
    case FailedWith(cause, _) =>
      ok := w.EmitEvent(OperationFailed(report.AttemptCount(), report.RetryCount(), ClassOf(cause), report.meta), done);
  }

  method EmitPassed(number: nat, validation: ValidationMeta, candidate: Option<string>, w: World,
                    ghost done: seq<Step>) returns (ok: bool)
    requires w.At(done)
    modifies w
    ensures var steps := PassedSteps(number, validation, candidate);
      if ok then w.At(done + steps) else w.CutIn(done + steps)
  {
    if validation.ValidationPassed? {
      ok := w.EmitEvent(ValidationSucceeded(number, validation.validator, candidate), done);
    } else {
      assert done + [] == done;
      ok := true;
    }
  }

  method FinishSuccess(n: nat, value: Value, validation: ValidationMeta, earlier: seq<Attempt>,
                       encountered: bool, waited: real, w: World, ghost done: seq<Step>) returns (ok: bool, o: Outcome)
    requires n >= 1 && w.At(done)
    modifies w
    ensures Ended(w, ok, done, SuccessEnding(n, value, validation, earlier, encountered, waited))
    ensures o == SuccessEnding(n, value, validation, earlier, encountered, waited).outcome
  {
    ghost var ending := SuccessEnding(n, value, validation, earlier, encountered, waited);
    ghost var all := done + ending.steps + [TerminalStep(ending.outcome)];
    var meta := SuccessMeta(validation);
    var attempt := Attempt(n, Succeeded, None, meta, false);
    assert attempt.Allowed();
    var report := Report(Succeeded, earlier + [attempt], Summary(meta, encountered, waited, false));
    o := Completed(value, report);

    ok := EmitPassed(n, validation, None, w, done);
    ghost var now := done + PassedSteps(n, validation, None);
    assert now + [Emit(AttemptSucceeded(n, meta))] == done + ending.steps;
    if !ok { CutInPrefix(w, now, all); return; }
    ok := w.EmitEvent(AttemptSucceeded(n, meta), now);
    if !ok { CutInPrefix(w, done + ending.steps, all); return; }
    ok := Conclude(o, w, done + ending.steps);
  }

  method FinishFailure(f: Failure, primary: seq<Attempt>, encountered: bool, waited: real, exceeded: bool,
                       w: World, ghost done: seq<Step>) returns (ok: bool, o: Outcome)
    requires primary != [] && primary[|primary| - 1].status == StatusOf(f.error) && exceeded == f.plan.exceeded
    requires w.At(done)
    modifies w
    ensures Ended(w, ok, done, FailureEnding(f, primary, encountered, waited))
    ensures o == FailureEnding(f, primary, encountered, waited).outcome
  {
    o := FailedWith(f.error,
                    Report(StatusOf(f.error), primary, Summary(FailureMeta(f), encountered, waited, exceeded)));
    assert done + [] == done;
    ok := Conclude(o, w, done);
  }

  method FinishFallbackSuccess(chain: Fallback, r: ChainResult, primary: seq<Attempt>, summary: Summary,
                               w: World, ghost done: seq<Step>) returns (ok: bool, o: Outcome)
    requires r.Won? && r.index < |chain.names| && summary.last == WinMeta(chain, r) && w.At(done)
    modifies w
    ensures o == WinEnding(chain, r, primary, summary).outcome
    ensures Ended(w, ok, done, WinEnding(chain, r, primary, summary))
  {
    hide World.At;
    hide World.CutIn;
    hide PassedSteps;
    hide ValidationSteps;
    hide WinMeta;
    var number := |primary| + 1;
    ghost var steps := FallbackSuccessSteps(chain, r, number);
    var attempt := Attempt(number, Succeeded, None, summary.last, true);
    assert attempt.Allowed();
    o := Completed(r.value, Report(Succeeded, primary + [attempt], summary));
    ghost var all := done + steps + [TerminalStep(o)];

    ok := EmitValidationFailures(chain.names, r.failures, number, w, done);
    ghost var now := done + ValidationSteps(chain.names, r.failures, number);
    ghost var passed := now + PassedSteps(number, r.validation, Some(chain.names[r.index]));
    ghost var won := passed + [Emit(FallbackSucceeded(number, summary.last))];
    assert won + [Emit(AttemptSucceeded(number, summary.last))] == done + steps;
    if !ok { CutInPrefix(w, now, all); return; }
    ok := EmitPassed(number, r.validation, Some(chain.names[r.index]), w, now);
    if !ok { CutInPrefix(w, passed, all); return; }
    ok := w.EmitEvent(FallbackSucceeded(number, summary.last), passed);
    if !ok { CutInPrefix(w, won, all); return; }
    ok := w.EmitEvent(AttemptSucceeded(number, summary.last), won);
    if !ok { CutInPrefix(w, done + steps, all); return; }
    ok := Conclude(o, w, done + steps);
  }

  method EmitFallbackProblems(chain: Fallback, e: Exn, number: nat, w: World, ghost done: seq<Step>) returns (ok: bool)
    requires w.At(done)
    modifies w
    ensures var steps := FallbackProblemSteps(chain, e, number);
      if ok then w.At(done + steps) else w.CutIn(done + steps)
  {
    if e.FallbackChainFailed? {
      ok := EmitValidationFailures(chain.names, e.failures, number, w, done);
    } else if e.ValidationFailed? {
      ok := w.EmitEvent(ValidationRejected(number, e.validator, e.reason, true, None), done);
    } else {
      assert done + [] == done;
      ok := true;
    }
  }

  method FinishFallbackFailure(chain: Fallback, e: Exn, primary: seq<Attempt>, summary: Summary,
                               w: World, ghost done: seq<Step>) returns (ok: bool, o: Outcome)
    requires summary.last == FallbackFailureMeta(e) && w.At(done)
    modifies w
    ensures o == LossEnding(chain, e, primary, summary).outcome
    ensures Ended(w, ok, done, LossEnding(chain, e, primary, summary))
  {
    hide FallbackProblemSteps;
    hide FallbackFailureMeta;
    var number := |primary| + 1;
    var attempt := Attempt(number, StatusOf(e), Some(ErrorRecord(ClassOf(e), false)), summary.last, true);
    assert attempt.Allowed();
    o := FailedWith(e, Report(StatusOf(e), primary + [attempt], summary));
    ghost var ending := LossEnding(chain, e, primary, summary);
    ghost var problems := FallbackProblemSteps(chain, e, number);
    ghost var lost := problems + [Emit(FallbackFailed(number, ClassOf(e), summary.last))];
    assert done + lost == done + problems + [Emit(FallbackFailed(number, ClassOf(e), summary.last))];
    assert done + ending.steps == done + lost + [Emit(AttemptFailed(number, ClassOf(e), false, summary.last))];

    ok := EmitFallbackProblems(chain, e, number, w, done);
    if !ok { CutShort(w, done, problems, ending); return; }
    ok := w.EmitEvent(FallbackFailed(number, ClassOf(e), summary.last), done + problems);
    if !ok { CutShort(w, done, lost, ending); return; }
    ok := w.EmitEvent(AttemptFailed(number, ClassOf(e), false, summary.last), done + lost);
    if !ok { CutShort(w, done, ending.steps, ending); return; }
    ok := Conclude(o, w, done + ending.steps);
  }

  method RunFallback(op: Operation, sc: Script, f: Failure, primary: seq<Attempt>, encountered: bool, waited: real,
                     exceeded: bool,
                     w: World, ghost done: seq<Step>) returns (ok: bool, o: Outcome)
    requires op.Valid() && op.fallback.Some? && exceeded == f.plan.exceeded && w.At(done)
    modifies w
    ensures Ended(w, ok, done, FallbackEnding(op, sc, f, primary, encountered, waited))
    ensures ok ==> o == FallbackEnding(op, sc, f, primary, encountered, waited).outcome
  {
    hide World.At;
    hide World.CutIn;
    hide WinEnding;
    hide LossEnding;
    hide ChainOutcome;
    hide ChainCalls;
    var chain := op.fallback.value;
    ghost var ending := FallbackEnding(op, sc, f, primary, encountered, waited);
    ghost var begun := [Emit(FallbackStarted(|primary| + 1, |primary|))];
    ghost var opening := FallbackOpening(op, sc, |primary|);
    o := FailedWith(f.error, Report(Failed, primary, Summary(FailureMeta(f), encountered, waited, exceeded)));

    ok := w.EmitEvent(FallbackStarted(|primary| + 1, |primary|), done);
    if !ok { CutShort(w, done, begun, ending); return; }
    var r: ChainResult;
    ok, r := RunChain(op, chain, sc, w, done + begun);
    assert done + begun + CandidateSteps(ChainCalls(chain, Tries(op, sc))) == done + opening;
    if !ok { CutShort(w, done, opening, ending); return; }
    if r.Won? {
      ok, o := FinishFallbackSuccess(chain, r, primary,
                                     Summary(WinMeta(chain, r), encountered, waited, exceeded), w, done + opening);
    } else {
      var e := ChainError(r);
      ok, o := FinishFallbackFailure(chain, e, primary,
                                     Summary(FallbackFailureMeta(e), encountered, waited, exceeded), w, done + opening);
    }
    EndedAfter(w, ok, done, opening, ChainEnding(chain, r, primary, encountered, waited, exceeded));
  }

  method FinishStopped(op: Operation, sc: Script, f: Failure, primary: seq<Attempt>, encountered: bool, waited: real,
                       exceeded: bool,
                       w: World, ghost done: seq<Step>) returns (ok: bool, o: Outcome)
    requires op.Valid() && primary != [] && primary[|primary| - 1].status == StatusOf(f.error)
    requires exceeded == f.plan.exceeded && w.At(done)
    modifies w
    ensures Ended(w, ok, done, StoppedEnding(op, sc, f, primary, encountered, waited))
    ensures ok ==> o == StoppedEnding(op, sc, f, primary, encountered, waited).outcome
  {
    if FallsBack(op, f.error) {
      ok, o := RunFallback(op, sc, f, primary, encountered, waited, exceeded, w, done);
    } else {
      ok, o := FinishFailure(f, primary, encountered, waited, exceeded, w, done);
    }
  }

  // ---------------------------------------------------------------- the run

  lemma LastIs(op: Operation, sc: Script, n: nat)
    requires op.Valid() && n >= 1 && AllRetried(op, sc, n - 1)
    ensures n <= LastAttempt(op, sc)
    ensures n <= op.MaxAttempts() && !Retried(op, sc, n) ==> LastAttempt(op, sc) == n
  {
    assert !Retried(op, sc, LastAttempt(op, sc));
  }

  lemma {:induction false} StepsBeforeGrow(op: Operation, sc: Script, n: nat, k: nat)
    requires op.Valid() && n <= k && AllRetried(op, sc, k)
    ensures AllRetried(op, sc, n) && StepsBefore(op, sc, n) <= StepsBefore(op, sc, k)
  {
    hide Retried;
    hide RetryRound;
    assert forall j :: 1 <= j <= n ==> Retried(op, sc, j);
    if n < k { StepsBeforeGrow(op, sc, n, k - 1); }
  }

  /** The part of a whole run up to the end of its rounds of retries. */
  lemma RetriesInSteps(op: Operation, sc: Script, n: nat)
    requires op.Valid() && AllRetried(op, sc, n)
    ensures StepsBefore(op, sc, n) <= Steps(op, sc)
  {
    hide *;
    LastIs(op, sc, n + 1);
    StepsBeforeGrow(op, sc, n, LastAttempt(op, sc) - 1);
    LastBegunInSteps(op, sc);
  }

  ghost predicate Finished(op: Operation, sc: Script, w: World, r: Option<Outcome>)
    requires op.Valid()
    reads w
  {
    if r.Some? then w.At(Steps(op, sc)) && r.value == OutcomeOf(op, sc) else w.CutIn(Steps(op, sc))
  }

  /** Ending the last round is finishing the run. */
  lemma LastRoundFinishes(op: Operation, sc: Script, w: World, ok: bool, o: Outcome)
    requires op.Valid()
    requires var k := LastAttempt(op, sc);
      Ended(w, ok, StepsBefore(op, sc, k - 1) + AttemptSteps(op, sc, k), LastRound(op, sc))
    requires ok ==> o == LastRound(op, sc).outcome
    ensures Finished(op, sc, w, if ok then Some(o) else None)
  {
    hide LastRound;
    hide AttemptSteps;
    hide StepsBefore;
    hide TerminalStep;
  }

  /** Starts attempt `n` and runs it. */
  method BeginAttempt(op: Operation, sc: Script, n: nat, w: World, ghost done: seq<Step>) returns (ok: bool, t: Tried)
    requires op.Valid() && w.At(done)
    modifies w
    ensures if ok then w.At(done + AttemptSteps(op, sc, n)) else w.CutIn(done + AttemptSteps(op, sc, n))
    ensures ok ==> t == TryAttempt(op, sc, n)
  {
    var e := AttemptStarted(n, op.MaxAttempts());
    ghost var call := if CallsProvider(op, sc, n) then [CallProvider(n)] else [];
    assert done + [Emit(e)] + call == done + AttemptSteps(op, sc, n);
    t := Err(BuiltinTimeout(0));
    ok := w.EmitEvent(e, done);
    if !ok { CutInPrefix(w, done + [Emit(e)], done + AttemptSteps(op, sc, n)); return; }
    ok, t := RunSingleAttempt(op, sc, n, w, done + [Emit(e)]);
  }

  /** The last attempt failed: report it, then fall back or give up. */
  method FinishFailedRun(op: Operation, sc: Script, n: nat, f: Failure, primary: seq<Attempt>, encountered: bool,
                         waited: real,
                         exceeded: bool, w: World, ghost done: seq<Step>) returns (ok: bool, o: Outcome)
    requires op.Valid() && primary != [] && primary[|primary| - 1].status == StatusOf(f.error)
    requires exceeded == f.plan.exceeded && w.At(done)
    modifies w
    ensures var e := StoppedEnding(op, sc, f, primary, encountered, waited);
      && Ended(w, ok, done, Ending(FailureSteps(op, n, f) + e.steps, e.outcome))
      && (ok ==> o == e.outcome)
  {
    hide *;
    ghost var steps := FailureSteps(op, n, f);
    ghost var ending := StoppedEnding(op, sc, f, primary, encountered, waited);
    ok := ReportFailure(op, n, f, w, done);
    if ok {
      ok, o := FinishStopped(op, sc, f, primary, encountered, waited, exceeded, w, done + steps);
      EndedAfter(w, ok, done, steps, ending);
    } else {
      CutShort(w, done, steps, Ending(steps + ending.steps, ending.outcome));
      o := FailedWith(f.error, Report(Failed, primary, Summary(FailureMeta(f), encountered, waited, exceeded)));
    }
  }

  /** Attempt `n` failed and another follows: report it, then schedule the retry and sleep. */
  method RetryAfterFailure(op: Operation, sc: Script, n: nat, f: Failure, w: World) returns (ok: bool)
    requires op.Valid() && n >= 1 && AllRetried(op, sc, n) && Retried(op, sc, n) && f == FailureAt(op, sc, n)
    requires op.retry.Some?
    requires w.At(StepsBefore(op, sc, n - 1) + AttemptSteps(op, sc, n))
    modifies w
    ensures if ok then w.At(StepsBefore(op, sc, n)) else w.CutIn(StepsBefore(op, sc, n))
  {
    hide FailureSteps;
    hide AttemptSteps;
    hide FailureAt;
    hide TryAttempt;
    hide RetrySteps;
    ghost var done := StepsBefore(op, sc, n - 1) + AttemptSteps(op, sc, n);
    ghost var steps := FailureSteps(op, n, f);
    assert done + steps + RetrySteps(n, f.plan) == StepsBefore(op, sc, n);
    ok := ReportFailure(op, n, f, w, done);
    if !ok { CutInPrefix(w, done + steps, StepsBefore(op, sc, n)); return; }
    ok := SleepBeforeRetry(op, n, f.plan, w, done + steps);
  }

  /** The whole run. Undisturbed it takes exactly the specified steps and returns the specified
      outcome; interrupted at any await, it has taken a prefix of those steps and nothing more. */
  method RunWithoutIdempotency(op: Operation, sc: Script, w: World) returns (r: Option<Outcome>)
    requires op.Valid() && w.At([])
    modifies w
    ensures r.Some? ==> w.At(Steps(op, sc)) && r.value == OutcomeOf(op, sc)
    ensures r.None? ==> w.CutIn(Steps(op, sc))
  {
    hide LastRound;
    hide Steps;
    hide AttemptSteps;
    hide FailureMeta;
    hide Opening;
    hide SuccessEnding;
    hide StoppedEnding;
    hide FailureSteps;
    hide Classify;
    hide RetryRound;
    hide TryAttempt;
    hide World.At;
    hide World.CutIn;
    var attempts: seq<Attempt> := [];
    var encountered, waited, exceeded := false, 0.0, false;
    var ok := w.EmitEvent(Opening(op), []);
    assert [] + [Emit(Opening(op))] == StepsBefore(op, sc, 0);
    RetriesInSteps(op, sc, 0);
    if !ok { CutInPrefix(w, StepsBefore(op, sc, 0), Steps(op, sc)); return None; }

    var n := 1;
    while true
      invariant 1 <= n <= op.MaxAttempts() && AllRetried(op, sc, n - 1)
      invariant w.At(StepsBefore(op, sc, n - 1))
      invariant attempts == AttemptsBefore(op, sc, n - 1)
      invariant encountered == LimitedBefore(op, sc, n - 1) && waited == WaitedBefore(op, sc, n - 1) && !exceeded
      decreases op.MaxAttempts() - n
    {
      ghost var done := StepsBefore(op, sc, n - 1);
      ghost var called := done + AttemptSteps(op, sc, n);
      LastIs(op, sc, n);
      BegunInSteps(op, sc, n);
      var t: Tried;
      ok, t := BeginAttempt(op, sc, n, w, done);
      if !ok { CutInPrefix(w, called, Steps(op, sc)); return None; }

      if t.Ok? {
        var o;
        ok, o := FinishSuccess(n, t.value, t.validation, attempts, encountered, waited, w, called);
        LastRoundOnSuccess(op, sc, n);
        LastRoundFinishes(op, sc, w, ok, o);
        return if ok then Some(o) else None;
      }

      var f := Classify(op, t.error, sc.hints(n), n, sc.samples(n));
      if f.plan.limited {
        encountered := true;
        exceeded := exceeded || f.plan.exceeded;
      }
      if !f.plan.WillRetry() {
        var o;
        assert FailedAttempt(n, f).Allowed();
        ok, o := FinishFailedRun(op, sc, n, f, attempts + [FailedAttempt(n, f)], encountered, waited, exceeded,
                                 w, called);
        LastRoundOnFailure(op, sc, n, f);
        LastRoundFinishes(op, sc, w, ok, o);
        return if ok then Some(o) else None;
      }
      assert Retried(op, sc, n);
      RetriesInSteps(op, sc, n);
      ok := RetryAfterFailure(op, sc, n, f, w);
      if !ok { CutInPrefix(w, StepsBefore(op, sc, n), Steps(op, sc)); return None; }
      assert FailedAttempt(n, f).Allowed();
      attempts := attempts + [FailedAttempt(n, f)];
      if f.plan.limited {
        waited := waited + f.plan.delay.value;
      }
      n := n + 1;
    }
  }

  lemma BegunInRetries(op: Operation, sc: Script, n: nat)
    requires op.Valid() && n >= 1 && AllRetried(op, sc, n) && AllRetried(op, sc, n - 1) && Retried(op, sc, n)
    ensures StepsBefore(op, sc, n - 1) + AttemptSteps(op, sc, n) <= StepsBefore(op, sc, n)
  {
    hide AttemptSteps;
    hide FailureSteps;
    hide RetrySteps;
    hide TryAttempt;
    hide FailureAt;
    var before, begun := StepsBefore(op, sc, n - 1), AttemptSteps(op, sc, n);
    var rest := RetryRound(op, sc, n)[|begun|..];
    assert RetryRound(op, sc, n) == begun + rest;
    assert StepsBefore(op, sc, n) == before + begun + rest;
  }

  lemma LastBegunInSteps(op: Operation, sc: Script)
    requires op.Valid()
    ensures var k := LastAttempt(op, sc); StepsBefore(op, sc, k - 1) + AttemptSteps(op, sc, k) <= Steps(op, sc)
  {
    hide LastRound;
    hide TerminalStep;
    hide AttemptSteps;
    hide StepsBefore;
  }

  lemma BegunInSteps(op: Operation, sc: Script, n: nat)
    requires op.Valid() && 1 <= n <= op.MaxAttempts() && AllRetried(op, sc, n - 1)
    ensures StepsBefore(op, sc, n - 1) + AttemptSteps(op, sc, n) <= Steps(op, sc)
  {
    hide *;
    LastIs(op, sc, n);
    if Retried(op, sc, n) {
      OneMoreRetried(op, sc, n);
      BegunInRetries(op, sc, n);
      RetriesInSteps(op, sc, n);
    } else {
      LastBegunInSteps(op, sc);
    }
  }

  lemma OneMoreRetried(op: Operation, sc: Script, n: nat)
    requires op.Valid() && n >= 1 && AllRetried(op, sc, n - 1) && Retried(op, sc, n)
    ensures AllRetried(op, sc, n)
  {
    hide Retried;
  }
}
