/** Whole runs of one breaker shared by any number of overlapping calls. Calls admitted in one
    phase may end in any later one, and a cancelled call may end at any time. */
module CircuitBreakerRuns {
  import opened Prelude
  import opened CircuitBreakers

  /** The breaker, the admitted calls still running (with the answer each was given), and the clock. */
  datatype World = World(breaker: State, running: map<nat, bool>, now: real)

  datatype Action =
    | Arrive(call: nat, at: real)
    | End(call: nat, ending: Ending, at: real)
    | Reset(at: real)

  predicate Enabled(w: World, a: Action) {
    && w.now <= a.at
    && (a.Arrive? ==> a.call !in w.running)
    && (a.End? ==> a.call in w.running)
  }

  function Next(c: Config, w: World, a: Action): World
    requires Enabled(w, a)
  {
    match a
    case Arrive(call, at) =>
      var answer := Admit(c, w.breaker, at);
      World(AfterAdmit(c, w.breaker, at),
            if answer.Admitted? then w.running[call := answer.probe] else w.running, at)
    case End(call, ending, at) =>
      World(AfterEnding(c, w.breaker, w.running[call], ending, at), w.running - {call}, at)
    case Reset(at) => World(CLOSED, w.running, at)
  }

  /** `ws[i]` is the world before action `i`; the run starts with a fresh breaker and no calls. */
  ghost predicate IsRun(c: Config, ws: seq<World>, acts: seq<Action>) {
    && c.Valid()
    && |ws| == |acts| + 1
    && ws[0].breaker == CLOSED && ws[0].running == map[]
    && forall i {:trigger acts[i]} :: 0 <= i < |acts| ==>
      Enabled(ws[i], acts[i]) && ws[i + 1] == Next(c, ws[i], acts[i])
  }

  predicate Admits(c: Config, w: World, a: Action) {
    a.Arrive? && Admit(c, w.breaker, a.at).Admitted?
  }

  predicate AdmitsProbe(c: Config, w: World, a: Action) {
    a.Arrive? && Admit(c, w.breaker, a.at) == Admitted(true)
  }

  lemma {:induction false} ReachableIsConsistent(c: Config, ws: seq<World>, acts: seq<Action>, i: nat)
    requires IsRun(c, ws, acts) && i <= |acts|
    ensures Consistent(c, ws[i].breaker)
  {
    if i > 0 {
      ReachableIsConsistent(c, ws, acts, i - 1);
      var w, a := ws[i - 1], acts[i - 1];
      assert ws[i] == Next(c, w, a);
      match a
      case Arrive(_, at) => EveryOperationKeepsConsistency(c, w.breaker, false, Succeeded, at);
      case End(call, ending, at) => EveryOperationKeepsConsistency(c, w.breaker, w.running[call], ending, at);
      case Reset(_) =>
    }
  }

  /** Number of recorded failures since the last success or reset, read off the history alone. */
  function Streak(h: seq<Action>): nat {
    if h == [] then 0
    else
      var earlier := Streak(h[..|h| - 1]);
      match h[|h| - 1]
      case End(_, Succeeded, _) => 0
      case Reset(_) => 0
      case End(_, Failed(true), _) => earlier + 1
      case _ => earlier
  }

  /** While closed, the failure count is the streak the history shows, whatever calls overlapped. */
  lemma {:induction false} ClosedCountIsStreak(c: Config, ws: seq<World>, acts: seq<Action>, i: nat)
    requires IsRun(c, ws, acts) && i <= |acts|
    ensures ws[i].breaker.phase.Closed? ==> ws[i].breaker.failures == Streak(acts[..i])
  {
    if i > 0 {
      ClosedCountIsStreak(c, ws, acts, i - 1);
      ReachableIsConsistent(c, ws, acts, i - 1);
      assert acts[..i][..i - 1] == acts[..i - 1];
      assert ws[i] == Next(c, ws[i - 1], acts[i - 1]);
    }
  }

  /** A closed breaker opens on exactly the action that makes the streak reach the threshold. */
  lemma OpensExactlyAtThreshold(c: Config, ws: seq<World>, acts: seq<Action>, i: nat)
    requires IsRun(c, ws, acts) && i < |acts| && ws[i].breaker.phase.Closed?
    ensures ws[i + 1].breaker.phase.Open? <==> Streak(acts[..i + 1]) == c.threshold
    ensures ws[i + 1].breaker.phase.Open? ==> ws[i + 1].breaker.openedAt == Some(acts[i].at)
    ensures !ws[i + 1].breaker.phase.Open? ==> ws[i + 1].breaker.phase.Closed? && Streak(acts[..i + 1]) < c.threshold
  {
    ClosedCountIsStreak(c, ws, acts, i);
    ReachableIsConsistent(c, ws, acts, i);
    assert acts[..i + 1][..i] == acts[..i];
    assert ws[i + 1] == Next(c, ws[i], acts[i]);
  }

  ghost predicate NoReset(acts: seq<Action>, from: nat, to: nat) {
    forall k :: from <= k < to && k < |acts| ==> !acts[k].Reset?
  }

  lemma {:induction false} OpenOrRecovered(c: Config, ws: seq<World>, acts: seq<Action>, i: nat, j: nat, t: real)
    requires IsRun(c, ws, acts) && i <= j <= |acts| && NoReset(acts, i, j)
    requires ws[i].breaker.phase.Open? && ws[i].breaker.openedAt == Some(t)
    ensures (ws[j].breaker.phase.Open? && ws[j].breaker.openedAt == Some(t)) || ws[j].now >= t + c.recovery
  {
    if i < j {
      OpenOrRecovered(c, ws, acts, i, j - 1, t);
      assert !acts[j - 1].Reset?;
      assert ws[j] == Next(c, ws[j - 1], acts[j - 1]);
    }
  }

  /** Once open since `t`, nothing is admitted before `t + recovery`, whatever stale calls end
      in the meantime, unless somebody resets the breaker. */
  lemma NoAdmissionBeforeRecovery(c: Config, ws: seq<World>, acts: seq<Action>, i: nat, j: nat, t: real)
    requires IsRun(c, ws, acts) && i <= j < |acts| && NoReset(acts, i, j)
    requires ws[i].breaker.phase.Open? && ws[i].breaker.openedAt == Some(t)
    requires Admits(c, ws[j], acts[j])
    ensures acts[j].at >= t + c.recovery
  {
    OpenOrRecovered(c, ws, acts, i, j, t);
    assert Enabled(ws[j], acts[j]);
  }

  /** Where a half-open breaker goes: a recorded failure of any call, and nothing else, opens it again from that
      moment; a success or a reset, and nothing else, closes it; otherwise it stays, with its count and open time,
      and its slot is taken by an arrival and freed by an unrecorded failure or a cancelled probe. */
  lemma HalfOpenMoves(c: Config, ws: seq<World>, acts: seq<Action>, i: nat)
    requires IsRun(c, ws, acts) && i < |acts| && ws[i].breaker.phase.HalfOpen?
    ensures var w, a, after := ws[i], acts[i], ws[i + 1].breaker;
      && (after.phase.Open? <==> a.End? && a.ending == Failed(true))
      && (after.phase.Open? ==> after.openedAt == Some(a.at) && !after.probing)
      && (after.phase.Closed? <==> a.Reset? || (a.End? && a.ending.Succeeded?))
      && (after.phase.Closed? ==> after == State(Closed, 0, None, false))
      && (after.phase.HalfOpen? ==> after.failures == w.breaker.failures && after.openedAt == w.breaker.openedAt)
      && (after.phase.HalfOpen? ==> (after.probing <==>
            a.Arrive? || (a.ending.Cancelled? && !w.running[a.call] && w.breaker.probing)))
  {
    assert Enabled(ws[i], acts[i]) && ws[i + 1] == Next(c, ws[i], acts[i]);
  }

  /** Where an open breaker goes: half-open on an arrival once the recovery time has passed, closed on a reset;
      nothing else, and so no call ending late, changes anything. */
  lemma OpenMoves(c: Config, ws: seq<World>, acts: seq<Action>, i: nat, t: real)
    requires IsRun(c, ws, acts) && i < |acts| && ws[i].breaker.phase.Open? && ws[i].breaker.openedAt == Some(t)
    ensures var a, after := acts[i], ws[i + 1].breaker;
      && (after.phase.HalfOpen? <==> a.Arrive? && a.at >= t + c.recovery)
      && (after.phase.HalfOpen? ==> after.probing)
      && (after.phase.Closed? <==> a.Reset?)
      && (after.phase.Open? ==> after == ws[i].breaker)
  {
    ReachableIsConsistent(c, ws, acts, i);
    assert Enabled(ws[i], acts[i]) && ws[i + 1] == Next(c, ws[i], acts[i]);
  }

  /** Who is let in: everybody while closed, one probe when the recovery time has passed, one probe while half-open if
      no other holds the slot. A call turned away is not running; a rejection while half-open advertises no wait. */
  lemma AdmittedIff(c: Config, ws: seq<World>, acts: seq<Action>, i: nat)
    requires IsRun(c, ws, acts) && i < |acts| && acts[i].Arrive?
    ensures var b, a, after := ws[i].breaker, acts[i], ws[i + 1].running;
      && (a.call in after <==>
            || b.phase.Closed?
            || (b.phase.Open? && b.openedAt.Some? && a.at >= b.openedAt.value + c.recovery)
            || (b.phase.HalfOpen? && !b.probing))
      && (a.call in after ==> (after[a.call] <==> !b.phase.Closed?))
      && (b.phase.HalfOpen? && b.probing ==> Admit(c, b, a.at) == Rejected(None))
      && (b.phase.Open? && a.call !in after && b.openedAt.Some? ==>
            Admit(c, b, a.at) == Rejected(Some(b.openedAt.value + c.recovery - a.at)))
  {
    assert Enabled(ws[i], acts[i]) && ws[i + 1] == Next(c, ws[i], acts[i]);
  }

  /** A recorded failure in a half-open phase, of a probe or of a stale call, is followed by a full recovery time in
      which nothing is admitted, unless somebody resets the breaker. */
  lemma FailureWhileHalfOpenPauses(c: Config, ws: seq<World>, acts: seq<Action>, i: nat, j: nat)
    requires IsRun(c, ws, acts) && i < j < |acts| && NoReset(acts, i, j)
    requires ws[i].breaker.phase.HalfOpen? && acts[i].End? && acts[i].ending == Failed(true)
    requires Admits(c, ws[j], acts[j])
    ensures acts[j].at >= acts[i].at + c.recovery
  {
    HalfOpenMoves(c, ws, acts, i);
    NoAdmissionBeforeRecovery(c, ws, acts, i + 1, j, acts[i].at);
  }

  /** The actions that may free the half-open slot: a call completing, a probe cancelled, a reset. */
  predicate FreesSlot(w: World, a: Action) {
    || a.Reset?
    || (a.End? && a.call in w.running && (!a.ending.Cancelled? || w.running[a.call]))
  }

  lemma {:induction false} SlotStaysTaken(c: Config, ws: seq<World>, acts: seq<Action>, i: nat, j: nat)
    requires IsRun(c, ws, acts) && i <= j <= |acts|
    requires ws[i].breaker.phase.HalfOpen? && ws[i].breaker.probing
    requires forall k {:trigger acts[k]} :: i <= k < j ==> !FreesSlot(ws[k], acts[k])
    ensures ws[j].breaker == ws[i].breaker
  {
    if i < j {
      SlotStaysTaken(c, ws, acts, i, j - 1);
      assert !FreesSlot(ws[j - 1], acts[j - 1]);
      assert ws[j] == Next(c, ws[j - 1], acts[j - 1]);
    }
  }

  /** Between any two probe admissions some call completed, a probe was cancelled, or a reset happened. */
  lemma ProbesAreSeparated(c: Config, ws: seq<World>, acts: seq<Action>, i: nat, j: nat)
    requires IsRun(c, ws, acts) && i < j < |acts|
    requires AdmitsProbe(c, ws[i], acts[i]) && AdmitsProbe(c, ws[j], acts[j])
    ensures exists k :: i < k < j && FreesSlot(ws[k], acts[k])
  {
    if forall k :: i < k < j ==> !FreesSlot(ws[k], acts[k]) {
      assert ws[i + 1] == Next(c, ws[i], acts[i]);
      SlotStaysTaken(c, ws, acts, i + 1, j);
      assert false;
    }
  }

  // ---------------------------------------------------------------- one probe at a time

  predicate RunsProbe(w: World, call: nat) {
    call in w.running && w.running[call]
  }

  /** The documented promise: while half-open, at most one of the running calls is a probe. */
  ghost predicate AtMostOneProbe(ws: seq<World>) {
    forall i, p, q :: 0 <= i < |ws| && ws[i].breaker.phase.HalfOpen? && RunsProbe(ws[i], p) && RunsProbe(ws[i], q) ==>
      p == q
  }

  /** Some action strictly between `i` and `j` ends `call`. */
  ghost predicate EndsBetween(acts: seq<Action>, call: nat, i: int, j: int) {
    exists k :: i < k < j && 0 <= k < |acts| && acts[k].End? && acts[k].call == call
  }

  /** Every call let in as a probe has itself ended when the next probe is let in. */
  ghost predicate EachProbeEndsFirst(c: Config, ws: seq<World>, acts: seq<Action>) {
    forall i, j {:trigger acts[i], acts[j]} ::
      0 <= i < j < |acts| && j < |ws| && AdmitsProbe(c, ws[i], acts[i]) && AdmitsProbe(c, ws[j], acts[j])
      ==> EndsBetween(acts, acts[i].call, i, j)
  }

  lemma ProbeStarts(c: Config, w: World, a: Action)
    requires Enabled(w, a) && AdmitsProbe(c, w, a)
    ensures Next(c, w, a).breaker.phase.HalfOpen? && Next(c, w, a).breaker.probing
    ensures a.call !in w.running && RunsProbe(Next(c, w, a), a.call)
    ensures forall p :: RunsProbe(w, p) ==> RunsProbe(Next(c, w, a), p)
  {
  }

  /** A probe runs after an action exactly if it was let in by it, or ran before and was not ended by it. */
  lemma ProbeRunsIff(c: Config, w: World, a: Action, p: nat)
    requires Enabled(w, a)
    ensures RunsProbe(Next(c, w, a), p) <==>
      (AdmitsProbe(c, w, a) && a.call == p) || (RunsProbe(w, p) && !(a.End? && a.call == p))
  {
  }

  lemma {:induction false} ProbeRunsOn(c: Config, ws: seq<World>, acts: seq<Action>, i: nat, j: nat)
    requires IsRun(c, ws, acts) && i < j <= |acts| && AdmitsProbe(c, ws[i], acts[i])
    requires !EndsBetween(acts, acts[i].call, i, j)
    ensures RunsProbe(ws[j], acts[i].call)
  {
    var p := acts[i].call;
    var w, a := ws[j - 1], acts[j - 1];
    assert Enabled(w, a) && ws[j] == Next(c, w, a);
    hide Next;
    hide AdmitsProbe;
    ProbeRunsIff(c, w, a, p);
    if i < j - 1 {
      ProbeRunsOn(c, ws, acts, i, j - 1);
      assert !(acts[j - 1].End? && acts[j - 1].call == p);
    }
  }

  /** A running probe was let in at some point and has not been ended since. */
  lemma {:induction false} ProbeWasAdmitted(c: Config, ws: seq<World>, acts: seq<Action>, j: nat,
                                            p: nat) returns (i: nat)
    requires IsRun(c, ws, acts) && j <= |acts| && RunsProbe(ws[j], p)
    ensures i < j && AdmitsProbe(c, ws[i], acts[i]) && acts[i].call == p && !EndsBetween(acts, p, i, j)
  {
    assert j > 0;
    var w, a := ws[j - 1], acts[j - 1];
    assert Enabled(w, a) && ws[j] == Next(c, w, a);
    hide Next;
    hide AdmitsProbe;
    ProbeRunsIff(c, w, a, p);
    if AdmitsProbe(c, w, a) && a.call == p {
      i := j - 1;
    } else {
      i := ProbeWasAdmitted(c, ws, acts, j - 1, p);
    }
  }

  /** The documented single probe holds of a run exactly when every call let in as a probe has itself ended before
      the next probe is let in; equivalently, when no probe is let in beside a running one. */
  lemma OneProbeAtATimeIff(c: Config, ws: seq<World>, acts: seq<Action>)
    requires IsRun(c, ws, acts)
    ensures AtMostOneProbe(ws) <==> EachProbeEndsFirst(c, ws, acts)
    ensures AtMostOneProbe(ws) <==>
      forall i, p :: 0 <= i < |acts| && AdmitsProbe(c, ws[i], acts[i]) ==> !RunsProbe(ws[i], p)
  {
    if AtMostOneProbe(ws) {
      OneProbeEndsFirst(c, ws, acts);
    }
    if EachProbeEndsFirst(c, ws, acts) {
      EndsFirstAdmitsAlone(c, ws, acts);
    }
    if forall i, p :: 0 <= i < |acts| && AdmitsProbe(c, ws[i], acts[i]) ==> !RunsProbe(ws[i], p) {
      AdmittedAloneIsOneProbe(c, ws, acts);
    }
  }

  lemma OneProbeEndsFirst(c: Config, ws: seq<World>, acts: seq<Action>)
    requires IsRun(c, ws, acts) && AtMostOneProbe(ws)
    ensures EachProbeEndsFirst(c, ws, acts)
  {
    forall i, j {:trigger acts[i], acts[j]} |
      0 <= i < j < |acts| && AdmitsProbe(c, ws[i], acts[i]) && AdmitsProbe(c, ws[j], acts[j])
      ensures EndsBetween(acts, acts[i].call, i, j)
    {
      if !EndsBetween(acts, acts[i].call, i, j) {
        assert Enabled(ws[j], acts[j]) && ws[j + 1] == Next(c, ws[j], acts[j]);
        ProbeRunsOn(c, ws, acts, i, j);
        ProbeStarts(c, ws[j], acts[j]);
        assert false;
      }
    }
  }

  lemma EndsFirstAdmitsAlone(c: Config, ws: seq<World>, acts: seq<Action>)
    requires IsRun(c, ws, acts) && EachProbeEndsFirst(c, ws, acts)
    ensures forall i, p :: 0 <= i < |acts| && AdmitsProbe(c, ws[i], acts[i]) ==> !RunsProbe(ws[i], p)
  {
    forall i, p | 0 <= i < |acts| && AdmitsProbe(c, ws[i], acts[i]) ensures !RunsProbe(ws[i], p) {
      if RunsProbe(ws[i], p) {
        var k := ProbeWasAdmitted(c, ws, acts, i, p);
        assert false;
      }
    }
  }

  lemma AdmittedAloneIsOneProbe(c: Config, ws: seq<World>, acts: seq<Action>)
    requires IsRun(c, ws, acts)
    requires forall i, p :: 0 <= i < |acts| && AdmitsProbe(c, ws[i], acts[i]) ==> !RunsProbe(ws[i], p)
    ensures AtMostOneProbe(ws)
  {
    forall j, p, q | 0 <= j < |ws| && RunsProbe(ws[j], p) && RunsProbe(ws[j], q) ensures p == q {
      OnlyOneProbeRuns(c, ws, acts, j, p, q);
    }
  }

  lemma {:induction false} OnlyOneProbeRuns(c: Config, ws: seq<World>, acts: seq<Action>, j: nat, p: nat, q: nat)
    requires IsRun(c, ws, acts) && j <= |acts| && RunsProbe(ws[j], p) && RunsProbe(ws[j], q)
    requires forall i, p :: 0 <= i < |acts| && AdmitsProbe(c, ws[i], acts[i]) ==> !RunsProbe(ws[i], p)
    ensures p == q
  {
    assert j > 0;
    var w, a := ws[j - 1], acts[j - 1];
    assert Enabled(w, a) && ws[j] == Next(c, w, a);
    hide Next;
    hide AdmitsProbe;
    ProbeRunsIff(c, w, a, p);
    ProbeRunsIff(c, w, a, q);
    if RunsProbe(w, p) && RunsProbe(w, q) {
      OnlyOneProbeRuns(c, ws, acts, j - 1, p, q);
    }
  }

  /** What frees the slot under a running probe: a reset, another call that completes in any way, whenever it was
      admitted, or another probe cancelled. A cancelled call that is no probe does not, nor does an arrival. */
  lemma SlotFreedUnderProbeIff(c: Config, w: World, a: Action, p: nat)
    requires Enabled(w, a) && w.breaker.phase.HalfOpen? && w.breaker.probing
    requires RunsProbe(w, p) && RunsProbe(Next(c, w, a), p)
    ensures !Next(c, w, a).breaker.probing <==>
      a.Reset? || (a.End? && a.call != p && (!a.ending.Cancelled? || w.running[a.call]))
  {
    ProbeRunsIff(c, w, a, p);
  }

  /** While a probe runs nobody resets the breaker and no other call completes. */
  ghost predicate ProbesAreUndisturbed(ws: seq<World>, acts: seq<Action>) {
    forall i, p {:trigger acts[i], RunsProbe(ws[i], p)} ::
      0 <= i < |acts| && i + 1 < |ws| && RunsProbe(ws[i], p) && RunsProbe(ws[i + 1], p)
      ==> !acts[i].Reset? && (acts[i].End? ==> acts[i].ending.Cancelled?)
  }

  /** Then a running probe holds the slot, and it is the only one. */
  lemma {:induction false} ProbesHoldTheSlot(c: Config, ws: seq<World>, acts: seq<Action>, j: nat, p: nat, q: nat)
    requires IsRun(c, ws, acts) && ProbesAreUndisturbed(ws, acts) && j <= |acts|
    requires RunsProbe(ws[j], p) && RunsProbe(ws[j], q)
    ensures ws[j].breaker.phase.HalfOpen? && ws[j].breaker.probing && p == q
  {
    assert j > 0;
    var w, a := ws[j - 1], acts[j - 1];
    assert Enabled(w, a) && ws[j] == Next(c, w, a);
    ProbeRunsIff(c, w, a, p);
    ProbeRunsIff(c, w, a, q);
    if AdmitsProbe(c, w, a) {
      ProbeStarts(c, w, a);
      if RunsProbe(w, p) { ProbesHoldTheSlot(c, ws, acts, j - 1, p, p); }
      if RunsProbe(w, q) { ProbesHoldTheSlot(c, ws, acts, j - 1, q, q); }
    } else {
      ProbesHoldTheSlot(c, ws, acts, j - 1, p, q);
      if a.End? && RunsProbe(w, a.call) { ProbesHoldTheSlot(c, ws, acts, j - 1, p, a.call); }
    }
  }

  /** So the promise cannot fail in a run whose probes are left undisturbed. */
  lemma UndisturbedMeansOneProbe(c: Config, ws: seq<World>, acts: seq<Action>)
    requires IsRun(c, ws, acts) && ProbesAreUndisturbed(ws, acts)
    ensures AtMostOneProbe(ws)
  {
    forall i, p, q | 0 <= i < |ws| && RunsProbe(ws[i], p) && RunsProbe(ws[i], q) ensures p == q {
      ProbesHoldTheSlot(c, ws, acts, i, p, q);
    }
  }

  // ---------------------------------------------------------------- one call of any kind

  /** Every half-open phase of the run begins while no earlier call is still running. */
  ghost predicate CleanEntries(ws: seq<World>, acts: seq<Action>) {
    forall i {:trigger acts[i]} ::
      0 <= i < |acts| && i + 1 < |ws| && ws[i].breaker.phase.Open? && ws[i + 1].breaker.phase.HalfOpen?
      ==> ws[i].running == map[]
  }

  ghost predicate OneCallWhileHalfOpen(ws: seq<World>) {
    forall i :: 0 <= i < |ws| && ws[i].breaker.phase.HalfOpen? ==> |ws[i].running| <= 1
  }

  /** At most one call runs, it is a probe, and the flag says whether it does. */
  ghost predicate OneProbe(w: World) {
    && |w.running| <= 1
    && (w.breaker.probing <==> |w.running| == 1)
    && forall call :: call in w.running ==> w.running[call]
  }

  lemma StaysOneProbe(c: Config, w: World, a: Action)
    requires Enabled(w, a) && w.breaker.phase.HalfOpen? && OneProbe(w) && Next(c, w, a).breaker.phase.HalfOpen?
    ensures OneProbe(Next(c, w, a))
  {
    var w' := Next(c, w, a);
    if a.End? {
      OnlyElement(w.running.Keys, a.call);
      assert w'.running == map[];
    } else if !w.breaker.probing {
      assert w.running == map[];
      assert w'.running == map[a.call := true];
    } else {
      assert w' == World(w.breaker, w.running, a.at);
    }
  }

  lemma StartsOneProbe(c: Config, w: World, a: Action)
    requires Enabled(w, a) && w.breaker.phase.Open? && w.running == map[] && Next(c, w, a).breaker.phase.HalfOpen?
    ensures OneProbe(Next(c, w, a))
  {
    assert Next(c, w, a).running == map[a.call := true];
  }

  /** A half-open phase begins only from an open one. */
  lemma HalfOpenFrom(c: Config, w: World, a: Action)
    requires Enabled(w, a) && Next(c, w, a).breaker.phase.HalfOpen?
    ensures w.breaker.phase.Open? || w.breaker.phase.HalfOpen?
  {
  }

  lemma {:induction false} CleanHalfOpen(c: Config, ws: seq<World>, acts: seq<Action>, i: nat)
    requires IsRun(c, ws, acts) && CleanEntries(ws, acts) && i <= |acts|
    requires ws[i].breaker.phase.HalfOpen?
    ensures OneProbe(ws[i])
  {
    var w, a := ws[i - 1], acts[i - 1];
    assert Enabled(w, a) && ws[i] == Next(c, w, a);
    hide Next;
    hide Enabled;
    hide OneProbe;
    HalfOpenFrom(c, w, a);
    if w.breaker.phase.HalfOpen? {
      CleanHalfOpen(c, ws, acts, i - 1);
      StaysOneProbe(c, w, a);
    } else {
      StartsOneProbe(c, w, a);
    }
  }

  /** Stronger than a single probe: while half-open at most one call of any kind runs, exactly when every
      half-open phase is entered with no earlier call running. Then the probe flag is
      set exactly while that one call runs. */
  lemma OneCallWhileHalfOpenIff(c: Config, ws: seq<World>, acts: seq<Action>)
    requires IsRun(c, ws, acts)
    ensures OneCallWhileHalfOpen(ws) <==> CleanEntries(ws, acts)
    ensures CleanEntries(ws, acts) ==>
      forall i :: 0 <= i < |ws| && ws[i].breaker.phase.HalfOpen? ==> (ws[i].breaker.probing <==> |ws[i].running| == 1)
  {
    if CleanEntries(ws, acts) {
      forall i | 0 <= i < |ws| && ws[i].breaker.phase.HalfOpen?
        ensures |ws[i].running| <= 1 && (ws[i].breaker.probing <==> |ws[i].running| == 1)
      {
        CleanHalfOpen(c, ws, acts, i);
      }
    } else {
      var i :| 0 <= i < |acts| && ws[i].breaker.phase.Open? && ws[i + 1].breaker.phase.HalfOpen?
        && ws[i].running != map[];
      var a := acts[i];
      assert Enabled(ws[i], a) && ws[i + 1] == Next(c, ws[i], a);
      assert ws[i + 1].running.Keys == ws[i].running.Keys + {a.call};
      assert |ws[i + 1].running.Keys| == |ws[i].running.Keys| + 1;
      var other :| other in ws[i].running;
      assert |ws[i].running.Keys| >= 1;
    }
  }

  /** The unqualified promise is false of the code: a call admitted while closed fails with an
      unrecorded exception during the half-open phase, which frees the slot under a running
      probe, and a second probe is admitted beside it. */
  lemma TwoProbesAtOnce() returns (c: Config, ws: seq<World>, acts: seq<Action>)
    ensures IsRun(c, ws, acts)
    ensures var w := ws[|acts|];
      w.breaker.phase.HalfOpen? && exists p, q :: p != q && RunsProbe(w, p) && RunsProbe(w, q)
    ensures !AtMostOneProbe(ws)
  {
    c := Config(1, 1.0);
    acts := [Arrive(0, 0.0), Arrive(1, 0.0), End(1, Failed(true), 0.0),
             Arrive(2, 1.0), End(0, Failed(false), 1.0), Arrive(3, 1.0)];
    var tripped := State(Open, 1, Some(0.0), false);
    var w0 := World(CLOSED, map[], 0.0);
    var w1 := World(CLOSED, map[0 := false], 0.0);
    var w2 := World(CLOSED, map[0 := false, 1 := false], 0.0);
    var w3 := World(tripped, map[0 := false], 0.0);
    var w4 := World(State(HalfOpen, 1, Some(0.0), true), map[0 := false, 2 := true], 1.0);
    var w5 := World(State(HalfOpen, 1, Some(0.0), false), map[2 := true], 1.0);
    var w6 := World(State(HalfOpen, 1, Some(0.0), true), map[2 := true, 3 := true], 1.0);
    assert Next(c, w0, acts[0]) == w1;
    assert Next(c, w1, acts[1]) == w2;
    assert Next(c, w2, acts[2]) == w3;
    assert Next(c, w3, acts[3]) == w4;
    assert Next(c, w4, acts[4]) == w5;
    assert Next(c, w5, acts[5]) == w6;
    ws := [w0, w1, w2, w3, w4, w5, w6];
    assert ws[6] == w6 && RunsProbe(w6, 2) && RunsProbe(w6, 3);
  }
}
