/** The effects of every run follow one grammar, and the report can be rebuilt from the events alone. */
module OperationTrace {
  import opened Prelude
  import opened Exceptions
  import opened Policies
  import opened OperationSpec

  // ---------------------------------------------------------------- the grammar, as an automaton

  /** Where a run is. `Trying` counts how far the events of an attempt have come, in their fixed order. */
  datatype Stage =
    | Fresh
    | Idle(finished: nat)
    | Trying(number: nat, rank: nat, exceeded: bool)
    | Lost(number: nat, retryable: bool, class_: Class)
    | Scheduled(number: nat, delay: real)
    | Falling(number: nat, candidate: nat)
    | Judging(number: nat, passed: bool)
    | FallbackLostAt(number: nat, class_: Class)
    | FallbackWonAt(number: nat)
    | Winning(number: nat, primaries: nat)
    | Losing(number: nat, primaries: nat, class_: Class)
    | Done
    | Bad

  // Ranks within an attempt: begun, provider called, wait too long, limit reported, problem reported, validated.

  function Accept(q: Stage, s: Step): Stage {
    match q
    case Fresh => if s.Emit? && s.event.OperationStarted? then Idle(0) else Bad
    case Idle(n) =>
      if s.Emit? && s.event.AttemptStarted? && s.event.number == n + 1 then Trying(n + 1, 0, false) else Bad
    case Trying(n, rank, exceeded) => AcceptInAttempt(n, rank, exceeded, s)
    case Lost(n, retryable, c) =>
      if !s.Emit? then Bad
      else (match s.event
            case RetryScheduled(m, next, delay, _, _, _) =>
              if retryable && m == n && next == n + 1 then Scheduled(n, delay) else Bad
            case FallbackStarted(m, after) => if m == n + 1 && after == n then Falling(n + 1, 0) else Bad
            case OperationFailed(_, _, _, _) => AcceptTerminal(Losing(n, n, c), s)
            case _ => Bad)
    case Scheduled(n, delay) => if s == Sleep(delay) then Idle(n) else Bad
    case Falling(n, i) => if s == CallCandidate(i) then Falling(n, i + 1) else AcceptJudging(n, false, s)
    case Judging(n, passed) => AcceptJudging(n, passed, s)
    case FallbackLostAt(n, c) =>
      if n >= 1 && s.Emit? && s.event.AttemptFailed? && s.event.number == n && s.event.class_ == c && !s.event.retryable
      then Losing(n, n - 1, c) else Bad
    case FallbackWonAt(n) =>
      if n >= 1 && s.Emit? && s.event.AttemptSucceeded? && s.event.number == n then Winning(n, n - 1) else Bad
    case Winning(_, _) => AcceptTerminal(q, s)
    case Losing(_, _, _) => AcceptTerminal(q, s)
    case _ => Bad
  }

  function AcceptInAttempt(n: nat, rank: nat, exceeded: bool, s: Step): Stage {
    if s.CallProvider? then (if s.number == n && rank == 0 then Trying(n, 1, exceeded) else Bad)
    else if !s.Emit? then Bad
    else match s.event
      case RateLimitDetected(m, _, _, _, x) => if m == n && rank <= 1 then Trying(n, if x then 2 else 3, x) else Bad
      case RateLimitWaitExceeded(m, _, _, _) => if m == n && rank == 2 then Trying(n, 3, exceeded) else Bad
      case ValidationRejected(m, _, _, onFallback, _) =>
        if m == n && !onFallback && rank <= 3 && rank != 2 then Trying(n, 4, exceeded) else Bad
      case BreakerRejected(m, _, _) => if m == n && rank <= 3 && rank != 2 then Trying(n, 4, exceeded) else Bad
      case AttemptFailed(m, c, retryable, _) =>
        if m == n && rank <= 4 && rank != 2 && !(exceeded && retryable) then Lost(n, retryable, c) else Bad
      case ValidationSucceeded(m, _, candidate) =>
        if m == n && candidate.None? && rank == 1 then Trying(n, 5, exceeded) else Bad
      case AttemptSucceeded(m, _) => if m == n && (rank == 1 || rank == 5) then Winning(n, n) else Bad
      case _ => Bad
  }

  function AcceptJudging(n: nat, passed: bool, s: Step): Stage {
    if !s.Emit? then Bad
    else match s.event
      case ValidationRejected(m, _, _, onFallback, _) =>
        if m == n && onFallback && !passed then Judging(n, false) else Bad
      case ValidationSucceeded(m, _, candidate) =>
        if m == n && candidate.Some? && !passed then Judging(n, true) else Bad
      case FallbackSucceeded(m, _) => if m == n then FallbackWonAt(n) else Bad
      case FallbackFailed(m, c, _) => if m == n && !passed then FallbackLostAt(n, c) else Bad
      case _ => Bad
  }

  /** The terminal event counts all attempts, and one retry fewer than there were primary attempts. */
  function AcceptTerminal(q: Stage, s: Step): Stage {
    if !s.Emit? then Bad
    else match q
      case Winning(n, primaries) =>
        if s.event.OperationSucceeded? && s.event.attempts == n && s.event.retries + 1 == primaries then Done else Bad
      case Losing(n, primaries, c) =>
        if s.event.OperationFailed? && s.event.attempts == n && s.event.retries + 1 == primaries && s.event.class_ == c
        then Done else Bad
      case _ => Bad
  }

  function Parse(q: Stage, steps: seq<Step>): Stage {
    if steps == [] then q else Accept(Parse(q, steps[..|steps| - 1]), steps[|steps| - 1])
  }

  lemma {:induction false} ParseAppend(q: Stage, a: seq<Step>, b: seq<Step>)
    ensures Parse(q, a + b) == Parse(Parse(q, a), b)
  {
    hide Accept;
    if b == [] {
      assert a + b == a;
    } else {
      assert (a + b)[..|a + b| - 1] == a + b[..|b| - 1];
      ParseAppend(q, a, b[..|b| - 1]);
    }
  }

  lemma ParseOne(q: Stage, s: Step)
    ensures Parse(q, [s]) == Accept(q, s)
    ensures Parse(q, []) == q
  {
    hide Accept;
    assert [s][..0] == [];
  }

  // ---------------------------------------------------------------- rebuilding the report

  /** What a reader of the events has put together so far. */
  datatype Digest = Digest(attempts: seq<Attempt>, result: Option<Report>, retries: nat, waited: real)

  const NOTHING: Digest := Digest([], None, 0, 0.0)

  function StatusOfClass(c: Class): Status {
    if c.OperationTimeoutClass? then TimedOut else Failed
  }

  function Read(d: Digest, s: Step): Digest {
    if !s.Emit? then d
    else match s.event
      case AttemptFailed(n, c, retryable, meta) =>
        d.(attempts := d.attempts +
           [Attempt(n, StatusOfClass(c), Some(ErrorRecord(c, retryable)), meta, !meta.fallback.NoFallback?)])
      case AttemptSucceeded(n, meta) =>
        d.(attempts := d.attempts + [Attempt(n, Succeeded, None, meta, !meta.fallback.NoFallback?)])
      case OperationSucceeded(_, _, summary) => d.(result := Some(Report(Succeeded, d.attempts, summary)))
      case OperationFailed(_, _, c, summary) => d.(result := Some(Report(StatusOfClass(c), d.attempts, summary)))
      case RetryScheduled(_, _, delay, _, limited, _) =>
        d.(retries := d.retries + 1, waited := d.waited + (if limited then delay else 0.0))
      case _ => d
  }

  function Rebuild(d: Digest, steps: seq<Step>): Digest {
    if steps == [] then d else Read(Rebuild(d, steps[..|steps| - 1]), steps[|steps| - 1])
  }

  lemma {:induction false} RebuildAppend(d: Digest, a: seq<Step>, b: seq<Step>)
    ensures Rebuild(d, a + b) == Rebuild(Rebuild(d, a), b)
  {
    hide Read;
    if b == [] {
      assert a + b == a;
    } else {
      assert (a + b)[..|a + b| - 1] == a + b[..|b| - 1];
      RebuildAppend(d, a, b[..|b| - 1]);
    }
  }

  lemma RebuildOne(d: Digest, s: Step)
    ensures Rebuild(d, [s]) == Read(d, s)
    ensures Rebuild(d, []) == d
  {
    hide Read;
    assert [s][..0] == [];
  }

  // ---------------------------------------------------------------- both, part by part

  /** `steps` takes the automaton from `q` to `q'` and the reader from `d` to `d'`. */
  predicate Leads(q: Stage, d: Digest, steps: seq<Step>, q': Stage, d': Digest) {
    Parse(q, steps) == q' && Rebuild(d, steps) == d'
  }

  lemma LeadsThrough(q: Stage, d: Digest, a: seq<Step>, q1: Stage, d1: Digest, b: seq<Step>, q2: Stage, d2: Digest)
    requires Leads(q, d, a, q1, d1) && Leads(q1, d1, b, q2, d2)
    ensures Leads(q, d, a + b, q2, d2)
  {
    ParseAppend(q, a, b);
    RebuildAppend(d, a, b);
  }

  lemma LeadsByOne(q: Stage, d: Digest, s: Step)
    ensures Leads(q, d, [s], Accept(q, s), Read(d, s))
    ensures Leads(q, d, [], q, d)
  {
    ParseOne(q, s);
    RebuildOne(d, s);
  }

  lemma AttemptLeads(op: Operation, sc: Script, n: nat, d: Digest)
    requires n >= 1
    ensures Leads(Idle(n - 1), d, AttemptSteps(op, sc, n),
                  Trying(n, if CallsProvider(op, sc, n) then 1 else 0, false), d)
  {
    var start := Emit(AttemptStarted(n, op.MaxAttempts()));
    LeadsByOne(Idle(n - 1), d, start);
    LeadsByOne(Trying(n, 0, false), d, CallProvider(n));
    if CallsProvider(op, sc, n) {
      LeadsThrough(Idle(n - 1), d, [start], Trying(n, 0, false), d, [CallProvider(n)], Trying(n, 1, false), d);
    } else {
      assert AttemptSteps(op, sc, n) == [start];
    }
  }

  lemma LimitLeads(op: Operation, n: nat, rank: nat, f: Failure, d: Digest)
    requires rank <= 1 && f.plan.Valid()
    ensures Leads(Trying(n, rank, false), d, LimitSteps(op, n, f),
                  Trying(n, if f.plan.limited then 3 else rank, f.plan.exceeded), d)
  {
    var q := Trying(n, rank, false);
    var s := Emit(RateLimitDetected(n, ClassOf(f.error), f.plan.retryAfter, MaxWait(op), f.plan.exceeded));
    var x := Emit(RateLimitWaitExceeded(n, f.plan.retryAfter, f.plan.delay, MaxWait(op)));
    LeadsByOne(q, d, s);
    if f.plan.limited {
      if f.plan.exceeded {
        LeadsByOne(Trying(n, 2, true), d, x);
        LeadsThrough(q, d, [s], Trying(n, 2, true), d, [x], Trying(n, 3, true), d);
      } else {
        assert LimitSteps(op, n, f) == [s];
      }
    }
  }

  lemma ProblemLeads(n: nat, rank: nat, exceeded: bool, e: Exn, d: Digest)
    requires rank <= 3 && rank != 2
    ensures Leads(Trying(n, rank, exceeded), d, ProblemSteps(n, e),
                  Trying(n, if e.ValidationFailed? || e.BreakerOpen? then 4 else rank, exceeded), d)
  {
    var q := Trying(n, rank, exceeded);
    if e.ValidationFailed? {
      LeadsByOne(q, d, Emit(ValidationRejected(n, e.validator, e.reason, false, None)));
      assert ProblemSteps(n, e) == [Emit(ValidationRejected(n, e.validator, e.reason, false, None))];
    } else if e.BreakerOpen? {
      LeadsByOne(q, d, Emit(BreakerRejected(n, e.state, e.retryAfter)));
      assert ProblemSteps(n, e) == [Emit(BreakerRejected(n, e.state, e.retryAfter))];
    } else {
      LeadsByOne(q, d, Sleep(0.0));
      assert ProblemSteps(n, e) == [];
    }
  }

  lemma FailureLeads(op: Operation, n: nat, rank: nat, f: Failure, d: Digest)
    requires rank <= 1 && f.plan.Valid()
    ensures Leads(Trying(n, rank, false), d, FailureSteps(op, n, f),
                  Lost(n, f.plan.retryable, ClassOf(f.error)), d.(attempts := d.attempts + [FailedAttempt(n, f)]))
  {
    var limit, problem := LimitSteps(op, n, f), ProblemSteps(n, f.error);
    var last := Emit(AttemptFailed(n, ClassOf(f.error), f.plan.retryable, FailureMeta(f)));
    var q1 := Trying(n, if f.plan.limited then 3 else rank, f.plan.exceeded);
    var q2 := Trying(n, if f.error.ValidationFailed? || f.error.BreakerOpen? then 4 else q1.rank, f.plan.exceeded);
    var d' := d.(attempts := d.attempts + [FailedAttempt(n, f)]);
    LimitLeads(op, n, rank, f, d);
    ProblemLeads(n, q1.rank, f.plan.exceeded, f.error, d);
    LeadsByOne(q2, d, last);
    assert Accept(q2, last) == Lost(n, f.plan.retryable, ClassOf(f.error)) && Read(d, last) == d';
    LeadsThrough(Trying(n, rank, false), d, limit, q1, d, problem, q2, d);
    LeadsThrough(Trying(n, rank, false), d, limit + problem, q2, d, [last],
                 Lost(n, f.plan.retryable, ClassOf(f.error)), d');
  }

  function AfterRetry(d: Digest, p: Plan): Digest
    requires p.WillRetry()
  {
    d.(retries := d.retries + 1, waited := d.waited + (if p.limited then p.delay.value else 0.0))
  }

  lemma RetryLeads(n: nat, p: Plan, c: Class, d: Digest)
    requires p.WillRetry()
    ensures Leads(Lost(n, p.retryable, c), d, RetrySteps(n, p), Idle(n), AfterRetry(d, p))
  {
    var s := Emit(RetryScheduled(n, n + 1, p.delay.value, p.source, p.limited, p.retryAfter));
    var q, q' := Lost(n, p.retryable, c), Scheduled(n, p.delay.value);
    LeadsByOne(q, d, s);
    LeadsByOne(q', AfterRetry(d, p), Sleep(p.delay.value));
    LeadsThrough(q, d, [s], q', AfterRetry(d, p), [Sleep(p.delay.value)], Idle(n), AfterRetry(d, p));
  }

  lemma RoundLeads(op: Operation, sc: Script, n: nat, d: Digest)
    requires op.Valid() && n >= 1 && Retried(op, sc, n)
    ensures Leads(Idle(n - 1), d, RetryRound(op, sc, n), Idle(n),
                  AfterRetry(d.(attempts := d.attempts + [FailedAttempt(n, FailureAt(op, sc, n))]),
                             FailureAt(op, sc, n).plan))
  {
    var f := FailureAt(op, sc, n);
    var rank := if CallsProvider(op, sc, n) then 1 else 0;
    var a, b, c := AttemptSteps(op, sc, n), FailureSteps(op, n, f), RetrySteps(n, f.plan);
    var d' := d.(attempts := d.attempts + [FailedAttempt(n, f)]);
    var lost := Lost(n, f.plan.retryable, ClassOf(f.error));
    AttemptLeads(op, sc, n, d);
    FailureLeads(op, n, rank, f, d);
    RetryLeads(n, f.plan, ClassOf(f.error), d');
    assert RetryRound(op, sc, n) == a + b + c;
    hide *;
    LeadsThrough(Idle(n - 1), d, a, Trying(n, rank, false), d, b, lost, d');
    LeadsThrough(Idle(n - 1), d, a + b, lost, d', c, Idle(n), AfterRetry(d', f.plan));
  }

  /** What a reader knows when attempt `n + 1` begins. */
  function DigestBefore(op: Operation, sc: Script, n: nat): Digest
    requires op.Valid() && AllRetried(op, sc, n)
  {
    Digest(AttemptsBefore(op, sc, n), None, n, WaitedBefore(op, sc, n))
  }

  lemma {:induction false} RetriesLead(op: Operation, sc: Script, n: nat)
    requires op.Valid() && AllRetried(op, sc, n)
    ensures Leads(Fresh, NOTHING, StepsBefore(op, sc, n), Idle(n), DigestBefore(op, sc, n))
  {
    hide *;
    if n == 0 {
      NothingBefore(op, sc);
    } else {
      OneRoundMore(op, sc, n);
      RetriesLead(op, sc, n - 1);
      RoundLeads(op, sc, n, DigestBefore(op, sc, n - 1));
      LeadsThrough(Fresh, NOTHING, StepsBefore(op, sc, n - 1), Idle(n - 1), DigestBefore(op, sc, n - 1),
                   RetryRound(op, sc, n), Idle(n), DigestBefore(op, sc, n));
    }
  }

  lemma NothingBefore(op: Operation, sc: Script)
    requires op.Valid()
    ensures Leads(Fresh, NOTHING, StepsBefore(op, sc, 0), Idle(0), DigestBefore(op, sc, 0))
  {
    LeadsByOne(Fresh, NOTHING, Emit(Opening(op)));
  }

  lemma OneRoundMore(op: Operation, sc: Script, n: nat)
    requires op.Valid() && n >= 1 && AllRetried(op, sc, n)
    ensures AllRetried(op, sc, n - 1) && Retried(op, sc, n)
    ensures StepsBefore(op, sc, n) == StepsBefore(op, sc, n - 1) + RetryRound(op, sc, n)
    ensures var f := FailureAt(op, sc, n);
      var d := DigestBefore(op, sc, n - 1);
      DigestBefore(op, sc, n) == AfterRetry(d.(attempts := d.attempts + [FailedAttempt(n, f)]), f.plan)
  {
    assert Retried(op, sc, n);
    hide RetryRound;
    hide FailureAt;
    hide TryAttempt;
    hide FailedAttempt;
  }

  // ---------------------------------------------------------------- the report's attempts

  /** Attempts are numbered 1, 2, 3, ... and none of them is a fallback attempt. */
  predicate PrimaryRun(attempts: seq<Attempt>) {
    && Primaries(attempts) == |attempts|
    && forall i :: 0 <= i < |attempts| ==> attempts[i].number == i + 1 && !attempts[i].fallback
  }

  lemma PrimaryRunSnoc(attempts: seq<Attempt>, a: Attempt)
    requires PrimaryRun(attempts) && a.number == |attempts| + 1
    ensures !a.fallback ==> PrimaryRun(attempts + [a])
    ensures Primaries(attempts + [a]) == |attempts| + (if a.fallback then 0 else 1)
  {
    assert (attempts + [a])[..|attempts|] == attempts;
  }

  lemma {:induction false} AttemptsAreNumbered(op: Operation, sc: Script, n: nat)
    requires op.Valid() && AllRetried(op, sc, n)
    ensures |AttemptsBefore(op, sc, n)| == n && PrimaryRun(AttemptsBefore(op, sc, n))
  {
    if n > 0 {
      assert Retried(op, sc, n);
      AttemptsAreNumbered(op, sc, n - 1);
      PrimaryRunSnoc(AttemptsBefore(op, sc, n - 1), FailedAttempt(n, FailureAt(op, sc, n)));
    }
  }

  // ---------------------------------------------------------------- the last round

  /** The digest once the terminal event has been read. */
  function Closed(d: Digest, r: Report): Digest {
    d.(attempts := r.attempts, result := Some(r))
  }

  lemma PassedLeads(n: nat, v: ValidationMeta, d: Digest)
    requires !v.ValidationRefused?
    ensures Leads(Trying(n, 1, false), d, PassedSteps(n, v, None),
                  Trying(n, if v.ValidationPassed? then 5 else 1, false), d)
  {
    LeadsByOne(Trying(n, 1, false), d,
               if v.ValidationPassed? then Emit(ValidationSucceeded(n, v.validator, None)) else Sleep(0.0));
  }

  lemma SuccessLeads(n: nat, value: Value, v: ValidationMeta, encountered: bool, waited: real, d: Digest)
    requires d.result.None? && n == |d.attempts| + 1 && PrimaryRun(d.attempts) && !v.ValidationRefused?
    ensures var e := SuccessEnding(n, value, v, d.attempts, encountered, waited);
      Leads(Trying(n, 1, false), d, e.steps + [TerminalStep(e.outcome)],
            Done, Closed(d, e.outcome.report))
  {
    var e := SuccessEnding(n, value, v, d.attempts, encountered, waited);
    var meta := SuccessMeta(v);
    var attempts := e.outcome.report.attempts;
    var q, d1 := Trying(n, 1, false), d.(attempts := attempts);
    var q1 := Trying(n, if v.ValidationPassed? then 5 else 1, false);
    var won, end := Emit(AttemptSucceeded(n, meta)), TerminalStep(e.outcome);
    PrimaryRunSnoc(d.attempts, attempts[|d.attempts|]);
    hide Leads;
    hide PrimaryRun;
    PassedLeads(n, v, d);
    LeadsByOne(q1, d, won);
    LeadsByOne(Winning(n, n), d1, end);
    assert Accept(q1, won) == Winning(n, n) && Read(d, won) == d1;
    assert Accept(Winning(n, n), end) == Done && Read(d1, end) == Closed(d, e.outcome.report);
    LeadsThrough(q, d, PassedSteps(n, v, None), q1, d, [won], Winning(n, n), d1);
    LeadsThrough(q, d, e.steps, Winning(n, n), d1, [end], Done, Closed(d, e.outcome.report));
  }

  lemma GiveUpLeads(n: nat, f: Failure, primary: seq<Attempt>, encountered: bool, waited: real, d: Digest)
    requires n == |primary| >= 1 && PrimaryRun(primary) && d.attempts == primary && d.result.None?
    ensures var e := FailureEnding(f, primary, encountered, waited);
      Leads(Lost(n, f.plan.retryable, ClassOf(f.error)), d, e.steps + [TerminalStep(e.outcome)],
            Done, Closed(d, e.outcome.report))
  {
    var e := FailureEnding(f, primary, encountered, waited);
    assert e.steps + [TerminalStep(e.outcome)] == [TerminalStep(e.outcome)];
    LeadsByOne(Lost(n, f.plan.retryable, ClassOf(f.error)), d, TerminalStep(e.outcome));
  }

  lemma {:induction false} CandidatesLead(number: nat, k: nat, d: Digest)
    ensures Leads(Falling(number, 0), d, CandidateSteps(k), Falling(number, k), d)
  {
    if k == 0 {
      LeadsByOne(Falling(number, 0), d, Sleep(0.0));
      assert CandidateSteps(0) == [];
    } else {
      CandidatesLead(number, k - 1, d);
      LeadsByOne(Falling(number, k - 1), d, CallCandidate(k - 1));
      LeadsThrough(Falling(number, 0), d, CandidateSteps(k - 1), Falling(number, k - 1), d, [CallCandidate(k - 1)],
                   Falling(number, k), d);
      assert CandidateSteps(k) == CandidateSteps(k - 1) + [CallCandidate(k - 1)];
    }
  }

  /** The candidates have been called and nothing has passed validation yet. */
  predicate Open(q: Stage, number: nat) {
    q == Judging(number, false) || (q.Falling? && q.number == number)
  }

  lemma {:induction false} RejectionsLead(q: Stage, names: seq<string>, failures: seq<Exn>, number: nat,
                                          d: Digest) returns (q': Stage)
    requires Open(q, number)
    ensures Open(q', number) && Leads(q, d, ValidationSteps(names, failures, number), q', d)
    decreases |names|
  {
    q' := q;
    LeadsByOne(q, d, Sleep(0.0));
    if names != [] && failures != [] {
      var e := failures[0];
      var rest := ValidationSteps(names[1..], failures[1..], number);
      if e.ValidationFailed? {
        var s := Emit(ValidationRejected(number, e.validator, e.reason, true, Some(names[0])));
        LeadsByOne(q, d, s);
        q' := RejectionsLead(Judging(number, false), names[1..], failures[1..], number, d);
        LeadsThrough(q, d, [s], Judging(number, false), d, rest, q', d);
      } else {
        q' := RejectionsLead(q, names[1..], failures[1..], number, d);
        assert ValidationSteps(names, failures, number) == [] + rest == rest;
      }
    }
  }

  lemma LeadsByThree(q: Stage, d: Digest, s1: Step, s2: Step, s3: Step)
    ensures Leads(q, d, [s1, s2, s3], Accept(Accept(Accept(q, s1), s2), s3), Read(Read(Read(d, s1), s2), s3))
  {
    hide *;
    LeadsByOne(q, d, s1);
    LeadsByOne(Accept(q, s1), Read(d, s1), s2);
    LeadsByOne(Accept(Accept(q, s1), s2), Read(Read(d, s1), s2), s3);
    LeadsThrough(q, d, [s1], Accept(q, s1), Read(d, s1), [s2], Accept(Accept(q, s1), s2), Read(Read(d, s1), s2));
    LeadsThrough(q, d, [s1] + [s2], Accept(Accept(q, s1), s2), Read(Read(d, s1), s2),
                 [s3], Accept(Accept(Accept(q, s1), s2), s3), Read(Read(Read(d, s1), s2), s3));
    assert [s1] + [s2] + [s3] == [s1, s2, s3];
  }

  lemma WinTail(value: Value, primary: seq<Attempt>, summary: Summary, q: Stage, d: Digest)
    requires (q == Judging(|primary| + 1, true) || Open(q, |primary| + 1)) && !summary.last.fallback.NoFallback?
    requires |primary| >= 1 && PrimaryRun(primary) && d.attempts == primary && d.result.None?
    ensures var m := |primary| + 1;
      var report := Report(Succeeded, primary + [Attempt(m, Succeeded, None, summary.last, true)], summary);
      Leads(q, d,
            [Emit(FallbackSucceeded(m, summary.last)), Emit(AttemptSucceeded(m, summary.last)),
             TerminalStep(Completed(value, report))],
            Done, Closed(d, report))
  {
    var m := |primary| + 1;
    var attempt := Attempt(m, Succeeded, None, summary.last, true);
    var report := Report(Succeeded, primary + [attempt], summary);
    PrimaryRunSnoc(primary, attempt);
    hide Leads;
    hide PrimaryRun;
    var s1, s2, s3 := Emit(FallbackSucceeded(m, summary.last)), Emit(AttemptSucceeded(m, summary.last)),
      TerminalStep(Completed(value, report));
    LeadsByThree(q, d, s1, s2, s3);
    assert Accept(q, s1) == FallbackWonAt(m) && Read(d, s1) == d;
    assert Accept(FallbackWonAt(m), s2) == Winning(m, m - 1) && Read(d, s2) == d.(attempts := report.attempts);
  }

  lemma WinLeads(chain: Fallback, r: ChainResult, primary: seq<Attempt>, summary: Summary, q: Stage, d: Digest)
    requires r.Won? && r.index < |chain.names| && Open(q, |primary| + 1) && !r.validation.ValidationRefused?
    requires |primary| >= 1 && PrimaryRun(primary) && summary.last == WinMeta(chain, r)
    requires d.attempts == primary && d.result.None?
    ensures var e := WinEnding(chain, r, primary, summary);
      Leads(q, d, e.steps + [TerminalStep(e.outcome)],
            Done, Closed(d, e.outcome.report))
  {
    var e := WinEnding(chain, r, primary, summary);
    var m, name := |primary| + 1, chain.names[r.index];
    var d' := Closed(d, e.outcome.report);
    var a := ValidationSteps(chain.names, r.failures, m);
    var b := PassedSteps(m, r.validation, Some(name));
    var c := [Emit(FallbackSucceeded(m, summary.last)), Emit(AttemptSucceeded(m, summary.last)),
              TerminalStep(e.outcome)];
    var q1 := RejectionsLead(q, chain.names, r.failures, m, d);
    var q2 := JudgedLeads(q1, m, r.validation, name, d);
    assert e.steps + [TerminalStep(e.outcome)] == a + b + c;
    WinTail(r.value, primary, summary, q2, d);
    LeadsInThree(q, d, a, q1, d, b, q2, d, c, Done, d') by { hide Leads; }
  }

  lemma LeadsInThree(q: Stage, d: Digest, a: seq<Step>, q1: Stage, d1: Digest, b: seq<Step>, q2: Stage, d2: Digest,
                     c: seq<Step>, q3: Stage, d3: Digest)
    requires Leads(q, d, a, q1, d1) && Leads(q1, d1, b, q2, d2) && Leads(q2, d2, c, q3, d3)
    ensures Leads(q, d, a + b + c, q3, d3)
  {
    hide *;
    LeadsThrough(q, d, a, q1, d1, b, q2, d2);
    LeadsThrough(q, d, a + b, q2, d2, c, q3, d3);
  }

  lemma JudgedLeads(q: Stage, m: nat, v: ValidationMeta, name: string, d: Digest) returns (q': Stage)
    requires Open(q, m) && !v.ValidationRefused?
    ensures (q' == Judging(m, true) || Open(q', m)) && Leads(q, d, PassedSteps(m, v, Some(name)), q', d)
  {
    q' := if v.ValidationPassed? then Judging(m, true) else q;
    LeadsByOne(q, d, if v.ValidationPassed? then Emit(ValidationSucceeded(m, v.validator, Some(name))) else Sleep(0.0));
  }

  lemma LossTail(x: Exn, primary: seq<Attempt>, summary: Summary, q: Stage, d: Digest)
    requires Open(q, |primary| + 1) && !summary.last.fallback.NoFallback? && |primary| >= 1 && PrimaryRun(primary)
    requires d.attempts == primary && d.result.None?
    ensures var m := |primary| + 1;
      var attempt := Attempt(m, StatusOf(x), Some(ErrorRecord(ClassOf(x), false)), summary.last, true);
      var report := Report(StatusOf(x), primary + [attempt], summary);
      Leads(q, d,
            [Emit(FallbackFailed(m, ClassOf(x), summary.last)), Emit(AttemptFailed(m, ClassOf(x), false, summary.last)),
             TerminalStep(FailedWith(x, report))],
            Done, Closed(d, report))
  {
    var m := |primary| + 1;
    var attempt := Attempt(m, StatusOf(x), Some(ErrorRecord(ClassOf(x), false)), summary.last, true);
    var report := Report(StatusOf(x), primary + [attempt], summary);
    PrimaryRunSnoc(primary, attempt);
    hide Leads;
    hide PrimaryRun;
    var c := ClassOf(x);
    var s1, s2, s3 := Emit(FallbackFailed(m, c, summary.last)), Emit(AttemptFailed(m, c, false, summary.last)),
      TerminalStep(FailedWith(x, report));
    LeadsByThree(q, d, s1, s2, s3);
    assert Accept(q, s1) == FallbackLostAt(m, c) && Read(d, s1) == d;
    assert Accept(FallbackLostAt(m, c), s2) == Losing(m, m - 1, c) && Read(d, s2) == d.(attempts := report.attempts);
  }

  lemma ProblemsLead(q: Stage, chain: Fallback, x: Exn, m: nat, d: Digest) returns (q': Stage)
    requires Open(q, m)
    ensures Open(q', m) && Leads(q, d, FallbackProblemSteps(chain, x, m), q', d)
  {
    q' := q;
    LeadsByOne(q, d,
               if x.ValidationFailed? then Emit(ValidationRejected(m, x.validator, x.reason, true, None))
               else Sleep(0.0));
    if x.FallbackChainFailed? {
      q' := RejectionsLead(q, chain.names, x.failures, m, d);
    } else if x.ValidationFailed? {
      q' := Judging(m, false);
    }
  }

  lemma LossLeads(chain: Fallback, x: Exn, primary: seq<Attempt>, summary: Summary, q: Stage, d: Digest)
    requires Open(q, |primary| + 1) && |primary| >= 1 && PrimaryRun(primary) && summary.last == FallbackFailureMeta(x)
    requires d.attempts == primary && d.result.None?
    ensures var e := LossEnding(chain, x, primary, summary);
      Leads(q, d, e.steps + [TerminalStep(e.outcome)],
            Done, Closed(d, e.outcome.report))
  {
    var e := LossEnding(chain, x, primary, summary);
    var m, c := |primary| + 1, ClassOf(x);
    var d' := Closed(d, e.outcome.report);
    var a := FallbackProblemSteps(chain, x, m);
    var b := [Emit(FallbackFailed(m, c, summary.last)), Emit(AttemptFailed(m, c, false, summary.last)),
              TerminalStep(e.outcome)];
    var q1 := ProblemsLead(q, chain, x, m, d);
    assert e.steps + [TerminalStep(e.outcome)] == a + b;
    LossTail(x, primary, summary, q1, d);
    LeadsThrough(q, d, a, q1, d, b, Done, d') by { hide Leads; }
  }

  /** The chain's events and the terminal one, once its candidates have been called. */
  lemma ChainLeads(op: Operation, sc: Script, primary: seq<Attempt>, encountered: bool, waited: real, exceeded: bool,
                   q: Stage, d: Digest)
    requires op.Valid() && op.fallback.Some? && Open(q, |primary| + 1) && |primary| >= 1 && PrimaryRun(primary)
    requires d.attempts == primary && d.result.None?
    ensures var e := ChainEnding(op.fallback.value, ChainOutcome(op.fallback.value, Tries(op, sc)), primary,
                                 encountered, waited, exceeded);
      Leads(q, d, e.steps + [TerminalStep(e.outcome)], Done, Closed(d, e.outcome.report))
  {
    hide Leads;
    hide WinEnding;
    hide LossEnding;
    hide TerminalStep;
    hide PrimaryRun;
    hide Open;
    var chain := op.fallback.value;
    var r := ChainOutcome(chain, Tries(op, sc));
    if r.Won? {
      WinnerIsFirst(chain, Tries(op, sc));
      assert Tries(op, sc)(r.index) == TryCandidate(op, sc, r.index);
      WinLeads(chain, r, primary, Summary(WinMeta(chain, r), encountered, waited, exceeded), q, d);
    } else {
      LossLeads(chain, ChainError(r), primary,
                Summary(FallbackFailureMeta(ChainError(r)), encountered, waited, exceeded), q, d);
    }
  }

  lemma FallbackLeads(op: Operation, sc: Script, f: Failure, primary: seq<Attempt>, encountered: bool, waited: real,
                      d: Digest)
    requires op.Valid() && op.fallback.Some? && |primary| >= 1 && PrimaryRun(primary)
    requires d.attempts == primary && d.result.None?
    ensures var e := FallbackEnding(op, sc, f, primary, encountered, waited);
      Leads(Lost(|primary|, f.plan.retryable, ClassOf(f.error)), d, e.steps + [TerminalStep(e.outcome)], Done,
            Closed(d, e.outcome.report))
  {
    var chain, k := op.fallback.value, |primary|;
    var calls := ChainCalls(chain, Tries(op, sc));
    var start := Emit(FallbackStarted(k + 1, k));
    var q0, q1 := Lost(k, f.plan.retryable, ClassOf(f.error)), Falling(k + 1, calls);
    assert Accept(q0, start) == Falling(k + 1, 0) && Read(d, start) == d && Open(q1, k + 1);
    hide *;
    var e := FallbackEnding(op, sc, f, primary, encountered, waited);
    var tail := ChainEnding(chain, ChainOutcome(chain, Tries(op, sc)), primary, encountered, waited, f.plan.exceeded);
    LeadsByOne(q0, d, start);
    CandidatesLead(k + 1, calls, d);
    ChainLeads(op, sc, primary, encountered, waited, f.plan.exceeded, q1, d);
    FallbackInThree(op, sc, f, primary, encountered, waited);
    LeadsInThree(q0, d, [start], Falling(k + 1, 0), d, CandidateSteps(calls), q1, d,
                 tail.steps + [TerminalStep(tail.outcome)], Done, Closed(d, e.outcome.report));
  }

  lemma FallbackInThree(op: Operation, sc: Script, f: Failure, primary: seq<Attempt>, encountered: bool, waited: real)
    requires op.Valid() && op.fallback.Some?
    ensures var e := FallbackEnding(op, sc, f, primary, encountered, waited);
      var chain := op.fallback.value;
      var tail := ChainEnding(chain, ChainOutcome(chain, Tries(op, sc)), primary, encountered, waited, f.plan.exceeded);
      && e.outcome == tail.outcome
      && e.steps + [TerminalStep(e.outcome)] ==
           [Emit(FallbackStarted(|primary| + 1, |primary|))] + CandidateSteps(ChainCalls(chain, Tries(op, sc))) +
           (tail.steps + [TerminalStep(tail.outcome)])
  {
    hide ChainEnding;
    hide ChainCalls;
    hide CandidateSteps;
    hide TerminalStep;
  }

  lemma StoppedLeads(op: Operation, sc: Script, f: Failure, primary: seq<Attempt>, encountered: bool, waited: real,
                     d: Digest)
    requires op.Valid() && |primary| >= 1 && PrimaryRun(primary) && d.attempts == primary && d.result.None?
    ensures var e := StoppedEnding(op, sc, f, primary, encountered, waited);
      Leads(Lost(|primary|, f.plan.retryable, ClassOf(f.error)), d, e.steps + [TerminalStep(e.outcome)], Done,
            Closed(d, e.outcome.report))
  {
    hide Leads;
    hide FallbackEnding;
    hide FailureEnding;
    hide TerminalStep;
    if FallsBack(op, f.error) {
      FallbackLeads(op, sc, f, primary, encountered, waited, d);
    } else {
      GiveUpLeads(|primary|, f, primary, encountered, waited, d);
    }
  }

  /** The digest of a failed attempt, ready for what follows it. */
  lemma FailedRoundParts(k: nat, f: Failure, d: Digest, o: Outcome)
    requires d.result.None? && PrimaryRun(d.attempts) && |d.attempts| + 1 == k
    ensures var primary := d.attempts + [FailedAttempt(k, f)];
      var d' := d.(attempts := primary);
      && PrimaryRun(primary) && |primary| == k && d'.attempts == primary && d'.result.None?
      && Closed(d', o.report) == Closed(d, o.report)
  {
    PrimaryRunSnoc(d.attempts, FailedAttempt(k, f));
  }

  lemma FailedRoundLeads(op: Operation, sc: Script, k: nat, f: Failure, encountered: bool, waited: real, d: Digest,
                         rank: nat)
    requires op.Valid() && f.plan.Valid() && rank <= 1
    requires d.result.None? && PrimaryRun(d.attempts) && |d.attempts| + 1 == k
    ensures var e := StoppedEnding(op, sc, f, d.attempts + [FailedAttempt(k, f)], encountered, waited);
      Leads(Trying(k, rank, false), d, FailureSteps(op, k, f) + e.steps + [TerminalStep(e.outcome)], Done,
            Closed(d, e.outcome.report))
  {
    hide *;
    var primary := d.attempts + [FailedAttempt(k, f)];
    var e := StoppedEnding(op, sc, f, primary, encountered, waited);
    var d' := d.(attempts := primary);
    var end := [TerminalStep(e.outcome)];
    FailedRoundParts(k, f, d, e.outcome);
    FailureLeads(op, k, rank, f, d);
    StoppedLeads(op, sc, f, primary, encountered, waited, d');
    Regroup(FailureSteps(op, k, f), e.steps, end);
    LeadsThrough(Trying(k, rank, false), d, FailureSteps(op, k, f), Lost(k, f.plan.retryable, ClassOf(f.error)), d',
                 e.steps + end, Done, Closed(d, e.outcome.report));
  }

  lemma LastRoundLeads(op: Operation, sc: Script, k: nat, rank: nat)
    requires op.Valid() && k == LastAttempt(op, sc) && rank == if CallsProvider(op, sc, k) then 1 else 0
    ensures var e := LastRound(op, sc);
      var d := DigestBefore(op, sc, k - 1);
      Leads(Trying(k, rank, false), d, e.steps + [TerminalStep(e.outcome)], Done, Closed(d, e.outcome.report))
  {
    hide Leads;
    hide LastRound;
    hide StoppedEnding;
    hide SuccessEnding;
    hide FailureSteps;
    hide TerminalStep;
    var d := DigestBefore(op, sc, k - 1);
    AttemptsAreNumbered(op, sc, k - 1);
    match TryAttempt(op, sc, k)
    case Ok(v, m) =>
      LastRoundOnSuccess(op, sc, k);
      SuccessLeads(k, v, m, LimitedBefore(op, sc, k - 1), d.waited, d);
    case Err(_) =>
      var f := FailureAt(op, sc, k);
      LastRoundOnFailure(op, sc, k, f);
      FailedRoundLeads(op, sc, k, f, LimitedBefore(op, sc, k - 1) || f.plan.limited, d.waited, d, rank);
  }

  lemma StepsInThree(op: Operation, sc: Script)
    requires op.Valid()
    ensures var k := LastAttempt(op, sc);
      var e := LastRound(op, sc);
      && AllRetried(op, sc, k - 1)
      && Steps(op, sc) == StepsBefore(op, sc, k - 1) + AttemptSteps(op, sc, k) + (e.steps + [TerminalStep(e.outcome)])
  {
    var k := LastAttempt(op, sc);
    var e := LastRound(op, sc);
    hide LastRound;
    hide AttemptSteps;
    hide StepsBefore;
    hide TerminalStep;
    Regroup(StepsBefore(op, sc, k - 1) + AttemptSteps(op, sc, k), e.steps, [TerminalStep(e.outcome)]);
  }

  lemma OutcomeIsLastRound(op: Operation, sc: Script)
    requires op.Valid()
    ensures OutcomeOf(op, sc) == LastRound(op, sc).outcome
  {
    hide LastRound;
  }

  lemma EveryRunLeads(op: Operation, sc: Script)
    requires op.Valid()
    ensures var k := LastAttempt(op, sc);
      Leads(Fresh, NOTHING, Steps(op, sc), Done, Closed(DigestBefore(op, sc, k - 1), OutcomeOf(op, sc).report))
  {
    hide *;
    var k := LastAttempt(op, sc);
    var e := LastRound(op, sc);
    StepsInThree(op, sc);
    var d := DigestBefore(op, sc, k - 1);
    var rank := if CallsProvider(op, sc, k) then 1 else 0;
    OutcomeIsLastRound(op, sc);
    RetriesLead(op, sc, k - 1);
    AttemptLeads(op, sc, k, d);
    LastRoundLeads(op, sc, k, rank);
    LeadsInThree(Fresh, NOTHING, StepsBefore(op, sc, k - 1), Idle(k - 1), d, AttemptSteps(op, sc, k),
                 Trying(k, rank, false), d,
                 e.steps + [TerminalStep(e.outcome)], Done, Closed(d, e.outcome.report));
  }

  /** Every run's effects are a sentence of the grammar, and reading its events in order rebuilds the
      report: its attempts and status, the number of retries and the time waited for rate limits. */
  lemma EveryRunParsesAndRebuilds(op: Operation, sc: Script)
    requires op.Valid()
    ensures Parse(Fresh, Steps(op, sc)) == Done
    ensures var report := OutcomeOf(op, sc).report;
      var d := Rebuild(NOTHING, Steps(op, sc));
      && d.result == Some(report) && d.attempts == report.attempts
      && d.retries == LastAttempt(op, sc) - 1 && d.waited == WaitedBefore(op, sc, LastAttempt(op, sc) - 1)
  {
    EveryRunLeads(op, sc);
    hide Steps;
    hide OutcomeOf;
    hide Parse;
    hide Rebuild;
    hide WaitedBefore;
    hide AttemptsBefore;
    hide LastAttempt;
  }

  // ---------------------------------------------------------------- what the grammar guarantees by itself

  predicate Numbered(attempts: seq<Attempt>, n: nat) {
    |attempts| == n && forall i :: 0 <= i < n ==> attempts[i].number == i + 1
  }

  /** How many attempts and retries have been read when the automaton is at `q`. */
  predicate InStep(q: Stage, d: Digest) {
    match q
    case Fresh => d == NOTHING
    case Idle(n) => Numbered(d.attempts, n) && d.retries == n && d.result.None?
    case Trying(n, _, _) => n >= 1 && Numbered(d.attempts, n - 1) && d.retries == n - 1 && d.result.None?
    case Lost(n, _, _) => n >= 1 && Numbered(d.attempts, n) && d.retries == n - 1 && d.result.None?
    case Scheduled(n, _) => Numbered(d.attempts, n) && d.retries == n && d.result.None?
    case Falling(n, _) => FallingBack(n, d)
    case Judging(n, _) => FallingBack(n, d)
    case FallbackLostAt(n, _) => FallingBack(n, d)
    case FallbackWonAt(n) => FallingBack(n, d)
    case Winning(n, primaries) => Numbered(d.attempts, n) && d.retries + 1 == primaries && d.result.None?
    case Losing(n, primaries, _) => Numbered(d.attempts, n) && d.retries + 1 == primaries && d.result.None?
    case Done => d.result.Some? && d.result.value.attempts == d.attempts && Numbered(d.attempts, |d.attempts|)
    case Bad => true
  }

  predicate FallingBack(n: nat, d: Digest) {
    n >= 2 && Numbered(d.attempts, n - 1) && d.retries == n - 2 && d.result.None?
  }

  predicate IsTerminal(s: Step) {
    s.Emit? && (s.event.OperationSucceeded? || s.event.OperationFailed?)
  }

  /** What one accepted step does to the count. */
  ghost predicate KeepsStep(q: Stage, d: Digest, s: Step, q': Stage) {
    && InStep(q', Read(d, s))
    && (q'.Done? ==>
          && IsTerminal(s)
          && s.event.attempts == |Read(d, s).attempts| && s.event.retries == Read(d, s).retries)
    && (IsTerminal(s) || q.Done? ==> q'.Done? || q'.Bad?)
  }

  lemma NumberedSnoc(attempts: seq<Attempt>, a: Attempt)
    requires Numbered(attempts, |attempts|) && a.number == |attempts| + 1
    ensures Numbered(attempts + [a], |attempts| + 1)
  {
  }

  lemma AttemptKeepsStep(q: Stage, d: Digest, s: Step)
    requires q.Trying? && InStep(q, d)
    ensures KeepsStep(q, d, s, AcceptInAttempt(q.number, q.rank, q.exceeded, s))
  {
    assert |d.attempts| == q.number - 1;
    hide Numbered;
    if s.Emit? && (s.event.AttemptFailed? || s.event.AttemptSucceeded?) && s.event.number == q.number {
      NumberedSnoc(d.attempts, Read(d, s).attempts[q.number - 1]);
    }
  }

  lemma JudgingKeepsStep(q: Stage, d: Digest, s: Step, n: nat, passed: bool)
    requires FallingBack(n, d) && !q.Done?
    ensures KeepsStep(q, d, s, AcceptJudging(n, passed, s))
  {
  }

  lemma TerminalKeepsStep(q: Stage, d: Digest, s: Step, from: Stage)
    requires (q.Winning? || q.Losing?) && InStep(q, d) && !from.Done?
    ensures KeepsStep(from, d, s, AcceptTerminal(q, s))
  {
  }

  lemma AcceptKeepsStep(q: Stage, d: Digest, s: Step)
    requires InStep(q, d)
    ensures KeepsStep(q, d, s, Accept(q, s))
  {
    if q.Trying? {
      AttemptKeepsStep(q, d, s);
      hide AcceptInAttempt;
      hide KeepsStep;
    } else if q.Winning? || q.Losing? {
      TerminalKeepsStep(q, d, s, q);
      hide AcceptTerminal;
      hide KeepsStep;
    } else if q.Judging? || q.Falling? {
      FallingKeepsStep(q, d, s);
      hide *;
    } else if q.Lost? {
      LostKeepsStep(q, d, s);
      hide *;
    } else {
      hide AcceptInAttempt;
      hide AcceptJudging;
      hide AcceptTerminal;
    }
  }

  lemma FallingKeepsStep(q: Stage, d: Digest, s: Step)
    requires (q.Judging? || q.Falling?) && InStep(q, d)
    ensures KeepsStep(q, d, s, Accept(q, s))
  {
    JudgingKeepsStep(q, d, s, q.number, q.Judging? && q.passed);
    hide AcceptJudging;
  }

  lemma LostKeepsStep(q: Stage, d: Digest, s: Step)
    requires q.Lost? && InStep(q, d)
    ensures KeepsStep(q, d, s, Accept(q, s))
  {
    TerminalKeepsStep(Losing(q.number, q.number, q.class_), d, s, q);
    hide AcceptTerminal;
  }

  lemma {:induction false} PrefixesAreInStep(steps: seq<Step>)
    ensures InStep(Parse(Fresh, steps), Rebuild(NOTHING, steps))
  {
    hide InStep;
    hide Accept;
    hide Read;
    if steps == [] {
      assert InStep(Fresh, NOTHING) by { StartInStep(); }
    } else {
      var q, d, s := Parse(Fresh, steps[..|steps| - 1]), Rebuild(NOTHING, steps[..|steps| - 1]), steps[|steps| - 1];
      PrefixesAreInStep(steps[..|steps| - 1]);
      AcceptKeepsStep(q, d, s);
      assert InStep(Accept(q, s), Read(d, s));
    }
  }

  lemma StartInStep()
    ensures InStep(Fresh, NOTHING)
  {
  }

  lemma NoWayOut(q: Stage, s: Step)
    requires q.Bad? || q.Done?
    ensures Accept(q, s).Bad?
  {
  }

  lemma ParseNext(steps: seq<Step>, n: nat)
    requires n < |steps|
    ensures Parse(Fresh, steps[..n + 1]) == Accept(Parse(Fresh, steps[..n]), steps[n])
  {
    hide Accept;
    assert steps[..n + 1][..n] == steps[..n];
  }

  lemma {:induction false} BadStaysBad(steps: seq<Step>, n: nat)
    requires n <= |steps| && Parse(Fresh, steps) == Done
    ensures !Parse(Fresh, steps[..n]).Bad?
    ensures n < |steps| ==> !Parse(Fresh, steps[..n]).Done?
    decreases |steps| - n
  {
    hide *;
    if n == |steps| {
      assert steps[..n] == steps;
    } else {
      BadStaysBad(steps, n + 1);
      ParseNext(steps, n);
      var q := Parse(Fresh, steps[..n]);
      if q.Bad? || q.Done? { NoWayOut(q, steps[n]); }
    }
  }

  /** Any sentence of the grammar, whatever wrote it, reports consistently: its attempts are numbered from 1
      without a gap, its last event is its only terminal one, and that counts the attempts and the retries
      read before it. */
  lemma SentencesAreConsistent(steps: seq<Step>)
    requires Parse(Fresh, steps) == Done
    ensures var d := Rebuild(NOTHING, steps);
      && steps != [] && IsTerminal(steps[|steps| - 1])
      && Numbered(d.attempts, steps[|steps| - 1].event.attempts)
      && d.retries == steps[|steps| - 1].event.retries
      && forall i :: 0 <= i < |steps| && IsTerminal(steps[i]) ==> i == |steps| - 1
  {
    hide *;
    var last := |steps| - 1;
    NotEmpty(steps);
    StepAt(steps, last);
    CountedAt(steps);
    assert steps[..last + 1] == steps;
    forall i | 0 <= i < |steps| && IsTerminal(steps[i]) ensures i == last {
      StepAt(steps, i);
      BadStaysBad(steps, i + 1);
    }
  }

  lemma NotEmpty(steps: seq<Step>)
    requires Parse(Fresh, steps) == Done
    ensures steps != []
  {
  }

  lemma CountedAt(steps: seq<Step>)
    requires Parse(Fresh, steps) == Done
    ensures Numbered(Rebuild(NOTHING, steps).attempts, |Rebuild(NOTHING, steps).attempts|)
  {
    PrefixesAreInStep(steps);
    hide Parse;
    hide Rebuild;
    hide Numbered;
  }

  /** The step at place `i`, between the prefix before it and the prefix that ends with it. */
  lemma StepAt(steps: seq<Step>, i: nat)
    requires i < |steps|
    ensures var q', d' := Parse(Fresh, steps[..i + 1]), Rebuild(NOTHING, steps[..i + 1]);
      && (q'.Done? ==>
            && IsTerminal(steps[i])
            && steps[i].event.attempts == |d'.attempts| && steps[i].event.retries == d'.retries)
      && (IsTerminal(steps[i]) ==> q'.Done? || q'.Bad?)
  {
    hide Accept;
    hide Read;
    hide InStep;
    var before := steps[..i];
    assert steps[..i + 1][..i] == before && steps[..i + 1][i] == steps[i];
    PrefixesAreInStep(before);
    AcceptKeepsStep(Parse(Fresh, before), Rebuild(NOTHING, before), steps[i]);
  }
}
