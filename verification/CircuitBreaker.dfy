/** The circuit breaker: its object, and the pure transition functions its methods are proved against. */
module CircuitBreakers {
  import opened Prelude

  datatype Phase = Closed | Open | HalfOpen

  /** The fields of a breaker that change. */
  datatype State = State(phase: Phase, failures: nat, openedAt: Option<real>, probing: bool)

  datatype Config = Config(threshold: nat, recovery: real) {
    /** What construction checks: a threshold of at least one and a positive timeout. */
    predicate Valid() {
      threshold >= 1 && recovery > 0.0
    }
  }

  /** Answer to a caller: let through (as a half-open probe or not), or turned away with a wait hint. */
  datatype Admission = Admitted(probe: bool) | Rejected(retryAfter: Option<real>)

  /** How an admitted call ended. `recorded` says whether the exception counts as a failure. */
  datatype Ending = Succeeded | Failed(recorded: bool) | Cancelled

  const CLOSED: State := State(Closed, 0, None, false)

  function Max(a: real, b: real): real {
    if a >= b then a else b
  }

  predicate Elapsed(c: Config, s: State, now: real) {
    s.openedAt.Some? && now - s.openedAt.value >= c.recovery
  }

  function Admit(c: Config, s: State, now: real): Admission {
    match s.phase
    case Closed => Admitted(false)
    case Open =>
      if Elapsed(c, s, now) then Admitted(true)
      else if s.openedAt.Some? then Rejected(Some(Max(0.0, c.recovery - (now - s.openedAt.value))))
      else Rejected(Some(c.recovery))
    case HalfOpen => if s.probing then Rejected(None) else Admitted(true)
  }

  function AfterAdmit(c: Config, s: State, now: real): State {
    if Admit(c, s, now) == Admitted(true) then s.(phase := HalfOpen, probing := true) else s
  }

  function Opened(s: State, now: real): State {
    State(Open, s.failures, Some(now), false)
  }

  function AfterFailure(c: Config, s: State, recorded: bool, now: real): State {
    if !recorded then
      if s.phase.HalfOpen? then s.(probing := false) else s
    else match s.phase
      case HalfOpen => Opened(s, now)
      case Closed =>
        var counted := s.(failures := s.failures + 1);
        if counted.failures >= c.threshold then Opened(counted, now) else counted
      case Open => s
  }

  function AfterSuccess(s: State): State {
    match s.phase
    case HalfOpen => CLOSED
    case Closed => s.(failures := 0)
    case Open => s
  }

  /** Effect of an admitted call ending at `now`; `probe` is the answer it was admitted with. */
  function AfterEnding(c: Config, s: State, probe: bool, e: Ending, now: real): State {
    match e
    case Succeeded => AfterSuccess(s)
    case Failed(recorded) => AfterFailure(c, s, recorded, now)
    case Cancelled => if probe then s.(probing := false) else s
  }

  /** What every reachable state satisfies. */
  predicate Consistent(c: Config, s: State) {
    && (s.phase.Closed? ==> s.failures < c.threshold && s.openedAt.None? && !s.probing)
    && (!s.phase.Closed? ==> s.failures == c.threshold && s.openedAt.Some?)
    && (s.phase.Open? ==> !s.probing)
  }

  lemma EveryOperationKeepsConsistency(c: Config, s: State, probe: bool, e: Ending, now: real)
    requires c.Valid() && Consistent(c, s)
    ensures Consistent(c, CLOSED)
    ensures Consistent(c, AfterAdmit(c, s, now))
    ensures Consistent(c, AfterEnding(c, s, probe, e, now))
  {
    match e
    case Succeeded => assert s.phase.HalfOpen? || AfterSuccess(s).phase == s.phase;
    case Failed(recorded) => assert recorded && s.phase.Closed? ==> s.failures + 1 <= c.threshold;
    case Cancelled =>
  }

  /** The wait a rejection advertises is positive and is exactly the time until the first
      admissible probe: while nothing else happens to the breaker, a later call is let
      through if and only if that long has passed. */
  lemma AdvertisedWaitIsExact(c: Config, s: State, now: real, later: real)
    requires c.Valid() && Consistent(c, s)
    requires s.phase.Open? && Admit(c, s, now).Rejected?
    ensures Admit(c, s, now).retryAfter.Some?
    ensures Admit(c, s, now).retryAfter.value > 0.0
    ensures Admit(c, s, later) == Admitted(true) <==> later >= now + Admit(c, s, now).retryAfter.value
    ensures Admit(c, s, later).Rejected? <==> later < now + Admit(c, s, now).retryAfter.value
  {
    assert c.recovery - (now - s.openedAt.value) > 0.0;
  }

  /** The breaker object. No lock section waits, so each method below
      is one atomic step; the clock reading is passed in. */
  class CircuitBreaker {
    const config: Config
    var phase: Phase
    var failures: nat
    var openedAt: Option<real>
    var probing: bool

    function View(): State
      reads this
    {
      State(phase, failures, openedAt, probing)
    }

    ghost predicate Valid()
      reads this
    {
      config.Valid() && Consistent(config, View())
    }

    constructor (config: Config)
      requires config.Valid()
      ensures Valid() && View() == CLOSED && this.config == config
    {
      this.config := config;
      phase, failures, openedAt, probing := Closed, 0, None, false;
    }

    method BeforeCall(now: real) returns (answer: Admission)
      requires Valid()
      modifies this
      ensures Valid()
      ensures answer == Admit(config, old(View()), now)
      ensures View() == AfterAdmit(config, old(View()), now)
    {
      if phase == Open {
        var wait := config.recovery;
        if openedAt.Some? {
          var elapsed := now - openedAt.value;
          if elapsed >= config.recovery {
            phase := HalfOpen;
            probing := true;
            return Admitted(true);
          }
          wait := Max(0.0, config.recovery - elapsed);
        }
        return Rejected(Some(wait));
      }
      if phase == HalfOpen {
        if probing {
          return Rejected(None);
        }
        probing := true;
        return Admitted(true);
      }
      return Admitted(false);
    }

    method TripOpen(now: real)
      modifies this
      ensures View() == Opened(old(View()), now)
    {
      phase := Open;
      openedAt := Some(now);
      probing := false;
    }

    method Close()
      modifies this
      ensures View() == CLOSED
    {
      phase := Closed;
      failures := 0;
      openedAt := None;
      probing := false;
    }

    method RecordSuccess()
      requires Valid()
      modifies this
      ensures Valid()
      ensures View() == AfterSuccess(old(View()))
    {
      if phase == HalfOpen {
        Close();
        return;
      }
      if phase == Closed {
        failures := 0;
      }
    }

    method RecordFailure(recorded: bool, now: real)
      requires Valid()
      modifies this
      ensures Valid()
      ensures View() == AfterFailure(config, old(View()), recorded, now)
    {
      if !recorded {
        if phase == HalfOpen {
          probing := false;
        }
        return;
      }
      if phase == HalfOpen {
        TripOpen(now);
        return;
      }
      if phase == Closed {
        failures := failures + 1;
        if failures >= config.threshold {
          TripOpen(now);
        }
      }
    }

    /** The part of a protected call that runs once the operation has ended. */
    method Settle(probe: bool, ending: Ending, now: real)
      requires Valid()
      modifies this
      ensures Valid()
      ensures View() == AfterEnding(config, old(View()), probe, ending, now)
    {
      match ending
      case Succeeded => RecordSuccess();
      case Failed(recorded) => RecordFailure(recorded, now);
      case Cancelled =>
        if probe {
          probing := false;
        }
    }

    method Reset()
      requires Valid()
      modifies this
      ensures Valid() && View() == CLOSED
    {
      Close();
    }
  }
}
