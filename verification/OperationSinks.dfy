/** What each event sink has seen when a run is over or was interrupted. */
module OperationSinks {
  import opened OperationSpec
  import opened OperationEngine

  /** What sink `k` received, in order. */
  function SinkLog(log: seq<Act>, k: nat): seq<Event> {
    if log == [] then []
    else
      var last := log[|log| - 1];
      SinkLog(log[..|log| - 1], k) + (if last.Deliver? && last.sink == k then [last.event] else [])
  }

  function Events(steps: seq<Step>): seq<Event> {
    if steps == [] then []
    else
      var last := steps[|steps| - 1];
      Events(steps[..|steps| - 1]) + (if last.Emit? then [last.event] else [])
  }

  /** Everything the run did apart from emitting: provider calls, pauses and candidates, in order. */
  function Deeds(log: seq<Act>): seq<Act> {
    if log == [] then []
    else Deeds(log[..|log| - 1]) + (if log[|log| - 1].Deliver? then [] else [log[|log| - 1]])
  }

  lemma {:induction false} SinkLogAppend(a: seq<Act>, b: seq<Act>, k: nat)
    ensures SinkLog(a + b, k) == SinkLog(a, k) + SinkLog(b, k)
  {
    if b == [] {
      assert a + b == a;
    } else {
      assert (a + b)[..|a + b| - 1] == a + b[..|b| - 1];
      SinkLogAppend(a, b[..|b| - 1], k);
    }
  }

  lemma {:induction false} DeedsAppend(a: seq<Act>, b: seq<Act>)
    ensures Deeds(a + b) == Deeds(a) + Deeds(b)
  {
    if b == [] {
      assert a + b == a;
    } else {
      assert (a + b)[..|a + b| - 1] == a + b[..|b| - 1];
      DeedsAppend(a, b[..|b| - 1]);
    }
  }

  /** Part way through awaiting the sinks for one event, the first `p` sinks have it. */
  lemma {:induction false} SinksSoFar(e: Event, p: nat, k: nat)
    ensures SinkLog(seq(p, i requires 0 <= i => Deliver(i, e)), k) == if k < p then [e] else []
  {
    if p > 0 {
      var all := seq(p, i requires 0 <= i => Deliver(i, e));
      assert all[..p - 1] == seq(p - 1, i requires 0 <= i => Deliver(i, e));
      SinksSoFar(e, p - 1, k);
    }
  }

  lemma PartOfStep(m: nat, s: Step, part: seq<Act>, k: nat)
    requires part <= Acts(m, s)
    ensures SinkLog(part, k) == if s.Emit? && k < |part| then [s.event] else []
  {
    if s.Emit? {
      assert part == seq(|part|, i requires 0 <= i => Deliver(i, s.event));
      SinksSoFar(s.event, |part|, k);
    } else if part != [] {
      assert part[..0] == [];
    }
  }

  /** After an undisturbed run every sink holds the same events. */
  lemma {:induction false} EverySinkSeesAll(m: nat, steps: seq<Step>, k: nat)
    requires k < m
    ensures SinkLog(Expand(m, steps), k) == Events(steps)
  {
    if steps != [] {
      var init, last := steps[..|steps| - 1], steps[|steps| - 1];
      EverySinkSeesAll(m, init, k);
      SinkLogAppend(Expand(m, init), Acts(m, last), k);
      PartOfStep(m, last, Acts(m, last), k);
    }
  }

  /** What a step does apart from emitting. */
  function DeedOf(s: Step): seq<Act> {
    match s
    case Emit(_) => []
    case CallProvider(n) => [Provide(n)]
    case Sleep(d) => [Pause(d)]
    case CallCandidate(i) => [Substitute(i)]
  }

  /** The provider calls, pauses and candidates of an undisturbed run are those of its steps, in their order. */
  lemma {:induction false} DeedsOfSteps(m: nat, steps: seq<Step>, s: Step)
    ensures Deeds(Expand(m, steps + [s])) == Deeds(Expand(m, steps)) + DeedOf(s)
    ensures Deeds(Expand(m, [])) == []
  {
    ExpandSnoc(m, steps, s);
    DeedsAppend(Expand(m, steps), Acts(m, s));
    if s.Emit? {
      NoDeeds(m, s.event);
    } else {
      assert Acts(m, s)[..0] == [];
    }
  }

  lemma {:induction false} NoDeeds(p: nat, e: Event)
    ensures Deeds(seq(p, i requires 0 <= i => Deliver(i, e))) == []
  {
    if p > 0 {
      var all := seq(p, i requires 0 <= i => Deliver(i, e));
      assert all[..p - 1] == seq(p - 1, i requires 0 <= i => Deliver(i, e));
      NoDeeds(p - 1, e);
    }
  }

  /** A sink's log when a run stops `part` of the way through a step. */
  lemma SinkLogMidway(m: nat, init: seq<Step>, last: Step, part: seq<Act>, k: nat)
    requires part <= Acts(m, last) && k < m
    ensures SinkLog(Expand(m, init) + part, k) == Events(init) + (if last.Emit? && k < |part| then [last.event] else [])
  {
    hide *;
    EverySinkSeesAll(m, init, k);
    SinkLogAppend(Expand(m, init), part, k);
    PartOfStep(m, last, part, k);
  }

  lemma EventsGrow(steps: seq<Step>)
    requires steps != []
    ensures var last := steps[|steps| - 1];
      Events(steps) == Events(steps[..|steps| - 1]) + (if last.Emit? then [last.event] else [])
  {
  }

  /** A prefix of a run's acts lies within the steps before the last, or part of the way through the last. */
  lemma StoppedWhere(m: nat, steps: seq<Step>, log: seq<Act>) returns (part: seq<Act>)
    requires log <= Expand(m, steps) && steps != []
    requires |log| > |Expand(m, steps[..|steps| - 1])|
    ensures log == Expand(m, steps[..|steps| - 1]) + part && part <= Acts(m, steps[|steps| - 1])
  {
    hide Acts;
    part := log[|Expand(m, steps[..|steps| - 1])|..];
  }

  lemma StoppedBefore(m: nat, steps: seq<Step>, log: seq<Act>)
    requires log <= Expand(m, steps) && steps != []
    requires |log| <= |Expand(m, steps[..|steps| - 1])|
    ensures log <= Expand(m, steps[..|steps| - 1])
  {
    hide Acts;
  }

  lemma StoppedAtOnce(m: nat, log: seq<Act>, k: nat)
    requires log <= Expand(m, [])
    ensures SinkLog(log, k) == []
  {
  }

  /** Wherever a run stops, each sink has a prefix of what it would have seen, and a later sink
      is behind an earlier one by at most one event. */
  lemma {:induction false} SinksLagByOne(m: nat, steps: seq<Step>, log: seq<Act>, j: nat, k: nat)
    requires log <= Expand(m, steps) && j <= k < m
    ensures SinkLog(log, k) <= SinkLog(log, j) <= Events(steps)
    ensures |SinkLog(log, j)| <= |SinkLog(log, k)| + 1
  {
    hide *;
    if steps == [] {
      StoppedAtOnce(m, log, j);
      StoppedAtOnce(m, log, k);
    } else {
      var init, last := steps[..|steps| - 1], steps[|steps| - 1];
      EventsGrow(steps);
      if |log| <= |Expand(m, init)| {
        StoppedBefore(m, steps, log);
        SinksLagByOne(m, init, log, j, k);
      } else {
        var part := StoppedWhere(m, steps, log);
        SinkLogMidway(m, init, last, part, j);
        SinkLogMidway(m, init, last, part, k);
      }
    }
  }

  /** The same for a world: whether a run was interrupted at some await or not, the sinks have prefixes
      of the uninterrupted events that differ by at most one event, and so do the other effects: the
      provider calls, pauses and candidates made are the first ones of the uninterrupted run. */
  lemma InterruptedRunIsPrefix(op: Operation, sc: Script, w: World, j: nat, k: nat)
    requires op.Valid() && (w.At(Steps(op, sc)) || w.CutIn(Steps(op, sc))) && j <= k < w.sinks
    ensures SinkLog(w.log, k) <= SinkLog(w.log, j) <= Events(Steps(op, sc))
    ensures |SinkLog(w.log, j)| <= |SinkLog(w.log, k)| + 1
    ensures Deeds(w.log) <= Deeds(Expand(w.sinks, Steps(op, sc)))
    ensures !w.stopped ==> SinkLog(w.log, k) == Events(Steps(op, sc))
  {
    var steps := Steps(op, sc);
    assert w.log <= Expand(w.sinks, steps) && (!w.stopped ==> w.log == Expand(w.sinks, steps));
    hide *;
    SinksLagByOne(w.sinks, steps, w.log, j, k);
    EverySinkSeesAll(w.sinks, steps, k);
    DeedsOfPrefix(w.log, Expand(w.sinks, steps));
  }

  lemma DeedsOfPrefix(part: seq<Act>, all: seq<Act>)
    requires part <= all
    ensures Deeds(part) <= Deeds(all)
  {
    hide Deeds;
    assert all == part + all[|part|..];
    DeedsAppend(part, all[|part|..]);
  }
}
