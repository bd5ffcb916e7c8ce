/** What whole runs of the idempotency store guarantee, told by the log of starts, ends and deliveries. */
module IdempotencyHistory {
  import opened Prelude
  import opened Exceptions
  import opened Idempotency
  import opened IdempotencyRuns

  /** `ss[i]` is the system before action `i`. */
  ghost predicate IsRun<V>(ss: seq<System<V>>, acts: seq<Action<V>>) {
    && |ss| == |acts| + 1 && ss[0] == Init()
    && forall i {:trigger acts[i]} :: 0 <= i < |acts| && WellFormed(ss[i]) ==>
         Enabled(ss[i], acts[i]) && ss[i + 1] == Next(ss[i], acts[i])
  }

  lemma {:induction false} ReachableInv<V>(ss: seq<System<V>>, acts: seq<Action<V>>, i: nat)
    requires IsRun(ss, acts) && i <= |acts|
    ensures Inv(ss[i])
    ensures i < |acts| ==> Enabled(ss[i], acts[i]) && ss[i + 1] == Next(ss[i], acts[i])
  {
    if i > 0 {
      ReachableInv(ss, acts, i - 1);
      assert Enabled(ss[i - 1], acts[i - 1]);
      StepKeepsInv(ss[i - 1], acts[i - 1]);
    }
    assert i < |acts| ==> acts[i] == acts[i];
  }

  // ---------------------------------------------------------------- single flight

  /** In every reachable state each key has at most one running operation. */
  lemma OneOperationPerKey<V>(ss: seq<System<V>>, acts: seq<Action<V>>, i: nat, t: nat, d: nat, t': nat, d': nat)
    requires IsRun(ss, acts) && i <= |acts|
    requires t in ss[i].stacks && d < |ss[i].stacks[t]| && ss[i].stacks[t][d].Running?
    requires t' in ss[i].stacks && d' < |ss[i].stacks[t']| && ss[i].stacks[t'][d'].Running?
    requires ss[i].stacks[t][d].key == ss[i].stacks[t'][d'].key
    ensures t == t' && d == d'
  {
    ReachableInv(ss, acts, i);
    var s := ss[i];
    assert FrameOk(s, t, d) && FrameOk(s, t', d');
    assert PendingOk(s, s.stacks[t][d].future) && PendingOk(s, s.stacks[t'][d'].future);
  }

  /** Entries are in flight or hold a value; never a failure or a cancellation. The expiry
      is set exactly when there is a value. A pending future has a live owner running it,
      and is the one filed under its key. */
  lemma StoredFutures<V>(ss: seq<System<V>>, acts: seq<Action<V>>, i: nat)
    requires IsRun(ss, acts) && i <= |acts|
    ensures WellFormed(ss[i])
    ensures forall k :: k in ss[i].store.entries ==>
      var e := ss[i].store.entries[k];
      var f := ss[i].store.futures[e.future];
      (f.Pending? && e.expiresAt.None?) || (f.Result? && e.expiresAt.Some?)
    ensures forall f :: 0 <= f < |ss[i].births| && ss[i].store.futures[f].Pending? ==>
      var b := ss[i].births[f];
      && b.key in ss[i].store.entries && ss[i].store.entries[b.key].future == f
      && b.depth < |Stack(ss[i], b.owner)| && Stack(ss[i], b.owner)[b.depth].Running?
      && Stack(ss[i], b.owner)[b.depth].future == f
  {
    ReachableInv(ss, acts, i);
    var s := ss[i];
    forall k | k in s.store.entries ensures EntryOk(s, k) {
    }
    forall f | 0 <= f < |s.births| && s.store.futures[f].Pending?
      ensures var b := s.births[f];
        && b.key in s.store.entries && s.store.entries[b.key].future == f
        && b.depth < |Stack(s, b.owner)| && Stack(s, b.owner)[b.depth].Running?
        && Stack(s, b.owner)[b.depth].future == f
    {
      assert PendingOk(s, f);
    }
  }

  // ---------------------------------------------------------------- where values come from

  ghost predicate Produced<V>(log: seq<Event<V>>, before: int, f: nat, k: Key, v: V) {
    exists j :: 0 <= j < before && j < |log| && log[j].Succeeded?
      && log[j].future == f && log[j].key == k && log[j].value == v
  }

  /** A logged success settled its future with its value. */
  ghost predicate SuccessOk<V>(s: System<V>, j: nat)
    requires WellFormed(s) && j < |s.log| && s.log[j].Succeeded?
  {
    && s.log[j].future < |s.births| && s.births[s.log[j].future].key == s.log[j].key
    && s.store.futures[s.log[j].future] == Result(s.log[j].value)
  }

  /** Successes in the log and futures holding results correspond one to one. */
  ghost predicate SuccessesOk<V>(s: System<V>)
    requires WellFormed(s)
  {
    && (forall j :: 0 <= j < |s.log| && s.log[j].Succeeded? ==> SuccessOk(s, j))
    && (forall i, j :: 0 <= i < j < |s.log| && s.log[i].Succeeded? && s.log[j].Succeeded? ==>
        s.log[i].future != s.log[j].future)
    && (forall f :: 0 <= f < |s.births| && s.store.futures[f].Result? ==>
          Produced(s.log, |s.log|, f, s.births[f].key, s.store.futures[f].value))
  }

  /** A cached entry still carries the expiry its success set; a success no longer filed has expired. */
  ghost predicate Cached<V>(s: System<V>, j: nat)
    requires j < |s.log| && s.log[j].Succeeded?
  {
    if s.log[j].key in s.store.entries && s.store.entries[s.log[j].key].future == s.log[j].future
    then s.store.entries[s.log[j].key].expiresAt == Some(s.log[j].at + s.log[j].ttl)
    else s.log[j].at + s.log[j].ttl <= s.now
  }

  ghost predicate CacheOk<V>(s: System<V>) {
    forall j :: 0 <= j < |s.log| && s.log[j].Succeeded? ==> Cached(s, j)
  }

  /** Every delivery repeats an earlier success of its key; a replay also comes before its expiry. */
  ghost predicate DeliveriesOk<V>(s: System<V>) {
    forall i :: 0 <= i < |s.log| && s.log[i].Delivered? ==> DeliveryOk(s.log, i)
  }

  ghost predicate DeliveryOk<V>(log: seq<Event<V>>, i: nat)
    requires i < |log| && log[i].Delivered?
  {
    exists j :: 0 <= j < i && log[j].Succeeded? && log[j].future == log[i].future && log[j].key == log[i].key
                && log[j].value == log[i].value
                && (log[i].status.Replayed? ==> log[i].at < log[j].at + log[j].ttl)
  }

  /** After a success, its key is not executed again before the expiry. */
  ghost predicate QuietOk<V>(s: System<V>) {
    forall i, j :: 0 <= i < j < |s.log| && s.log[i].Succeeded? && s.log[j].Started? && s.log[i].key == s.log[j].key ==>
      s.log[i].at + s.log[i].ttl <= s.log[j].at
  }

  // ---------------------------------------------------------------- the four kinds of step

  /** What a step does to the store and the log: an execution starts, a value or an exception is
      handed out (or nothing is), an execution publishes, or an execution ends without a value. */
  datatype Effect<+V> =
    | Starting(key: Key, birth: Birth)
    | Serving(event: Option<Event<V>>, purged: bool)
    | Publishing(task: nat, key: Key, future: nat, value: V, ttl: real)
    | Dropping(key: Key, future: nat, outcome: Future<V>, events: seq<Event<V>>)

  function Kept<V>(s: System<V>, s': System<V>, purged: bool): map<Key, Entry> {
    if purged then Live(s.store.entries, s'.now) else s.store.entries
  }

  ghost predicate ServedEvent<V>(s: System<V>, at: real, e: Event<V>)
    requires WellFormed(s)
  {
    e.Threw? ||
    (e.Delivered? && e.future < |s.births| && s.births[e.future].key == e.key
     && s.store.futures[e.future] == Result(e.value)
     && (e.status.Replayed? ==>
           e.at == at && e.key in Live(s.store.entries, at) && s.store.entries[e.key].future == e.future))
  }

  ghost predicate Has<V>(s: System<V>, s': System<V>, e: Effect<V>)
    requires WellFormed(s)
  {
    && s.now <= s'.now
    && match e
       case Starting(key, birth) =>
         && birth.key == key && key !in Live(s.store.entries, s'.now)
         && s'.births == s.births + [birth]
         && s'.store == Store(Live(s.store.entries, s'.now)[key := Entry(|s.births|, birth.owner, None)],
                              s.store.futures + [Pending])
         && s'.log == s.log + [Started(|s.births|, key, s'.now)]
       case Serving(event, purged) =>
         && s'.births == s.births && s'.store == Store(Kept(s, s', purged), s.store.futures)
         && (event.Some? ==> ServedEvent(s, s'.now, event.value))
         && s'.log == s.log + (if event.Some? then [event.value] else [])
       case Publishing(task, key, f, v, ttl) =>
         && f < |s.births| && s.births[f].key == key && s.store.futures[f].Pending? && ttl > 0.0
         && key in s.store.entries && s.store.entries[key].future == f
         && s'.births == s.births
         && s'.store == Store(s.store.entries[key := s.store.entries[key].(expiresAt := Some(s'.now + ttl))],
                              s.store.futures[f := Result(v)])
         && s'.log == s.log + [Succeeded(f, key, v, ttl, s'.now), Delivered(task, f, key, v, Executed, s'.now)]
       case Dropping(key, f, outcome, events) =>
         && f < |s.births| && s.births[f].key == key && s.store.futures[f].Pending?
         && (outcome.Failure? || outcome.OwnerCancelled?)
         && key in s.store.entries && s.store.entries[key].future == f
         && s'.births == s.births
         && s'.store == Store(s.store.entries - {key}, s.store.futures[f := outcome])
         && 1 <= |events| <= 2 && s'.log == s.log + events
         && (if outcome.Failure? then events[0] == Failed(f, key, outcome.error) else events[0] == Abandoned(f, key))
         && (|events| == 2 ==> events[1].Threw?)
  }

  lemma PassEffect<V>(s: System<V>, task: nat, below: seq<Frame>, key: Key, ttl: real, waits: seq<nat>,
                      at: real) returns (e: Effect<V>)
    requires Inv(s) && s.now <= at
    ensures Has(s, Pass(s, task, below, key, ttl, waits, at), e)
  {
    var s' := Pass(s, task, below, key, ttl, waits, at);
    match Decide(s.store, key, task, at)
    case Owns(f) => e := Starting(key, Birth(key, task, |below|));
    case Reentered => e := Serving(Some(Threw(task, key, Reentry(key))), true);
    case Waits(f, status) =>
      assert EntryOk(s, key);
      if status.Replayed? && s.store.futures[f].Result? {
        e := Serving(Some(Delivered(task, f, key, s.store.futures[f].value, Replayed, at)), true);
      } else {
        e := Serving(None, true);
      }
  }

  lemma OwnerEffect<V>(s: System<V>, a: Action<V>) returns (e: Effect<V>)
    requires Inv(s) && Enabled(s, a) && (a.Finish? || a.Fail? || a.CancelOwner?)
    ensures Has(s, Next(s, a), e)
    ensures a.CancelOwner? ==> e.Dropping? && e.outcome.OwnerCancelled?
  {
    OwnerGuardsHold(s, a.task);
    var top := Top(Stack(s, a.task));
    assert FrameOk(s, a.task, |Stack(s, a.task)| - 1);
    assert top.ttl > 0.0 && s.births[top.future].key == top.key;
    hide EntryOk;
    hide PendingOk;
    hide FrameOk;
    match a
    case Finish(task, v, at) => e := Publishing(task, top.key, top.future, v, top.ttl);
    case Fail(task, error, at) =>
      e := Dropping(top.key, top.future, Failure(error),
                    [Failed(top.future, top.key, error), Threw(task, top.key, error)]);
    case CancelOwner(task, at) =>
      e := Dropping(top.key, top.future, OwnerCancelled, [Abandoned(top.future, top.key)]);
  }

  lemma WakeEffect<V>(s: System<V>, task: nat, at: real) returns (e: Effect<V>)
    requires Inv(s) && Enabled(s, Wake(task, at))
    ensures Has(s, Next(s, Wake(task, at)), e)
  {
    var top := Top(Stack(s, task));
    assert FrameOk(s, task, |Stack(s, task)| - 1);
    hide EntryOk;
    hide PendingOk;
    hide Pass;
    match s.store.futures[top.future] {
      case Result(v) => e := Serving(Some(Delivered(task, top.future, top.key, v, Joined, at)), false);
      case Failure(error) => e := Serving(Some(Threw(task, top.key, error)), false);
      case OwnerCancelled => e := PassEffect(s, task, Below(Stack(s, task)), top.key, top.ttl, top.waits, at);
    }
  }

  lemma StepEffect<V>(s: System<V>, a: Action<V>) returns (e: Effect<V>)
    requires Inv(s) && Enabled(s, a)
    ensures Has(s, Next(s, a), e)
    ensures a.CancelOwner? ==> e.Dropping? && e.outcome.OwnerCancelled?
  {
    hide EntryOk;
    hide PendingOk;
    hide FrameOk;
    hide Pass;
    match a
    case Enter(task, key, ttl, at) => e := PassEffect(s, task, Stack(s, task), key, ttl, [], at);
    case Wake(task, at) => e := WakeEffect(s, task, at);
    case CancelWaiter(task, at) => e := Serving(None, false);
    case Finish(_, _, _) => e := OwnerEffect(s, a);
    case Fail(_, _, _) => e := OwnerEffect(s, a);
    case CancelOwner(_, _) => e := OwnerEffect(s, a);
    case Purge(at) => e := Serving(None, true);
  }

  // ---------------------------------------------------------------- each kind keeps each property

  lemma ProducedMonotone<V>(log: seq<Event<V>>, log': seq<Event<V>>, f: nat, k: Key, v: V)
    requires log <= log' && Produced(log, |log|, f, k, v)
    ensures Produced(log', |log'|, f, k, v)
  {
    var j :| 0 <= j < |log| && log[j].Succeeded? && log[j].future == f && log[j].key == k && log[j].value == v;
    assert log'[j] == log[j];
  }

  lemma SuccessKept<V>(s: System<V>, s': System<V>, e: Effect<V>, j: nat)
    requires WellFormed(s) && WellFormed(s') && Has(s, s', e)
    requires j < |s'.log| && s'.log[j].Succeeded? && (j < |s.log| ==> s.log[j].Succeeded? && SuccessOk(s, j))
    ensures SuccessOk(s', j)
    ensures j >= |s.log| ==> e.Publishing? && j == |s.log| && s'.log[j].future == e.future
  {
    assert j < |s.log| ==> s'.log[j] == s.log[j];
  }

  lemma ResultProduced<V>(s: System<V>, s': System<V>, e: Effect<V>, f: nat)
    requires WellFormed(s) && WellFormed(s') && Has(s, s', e) && f < |s'.births| && s'.store.futures[f].Result?
    requires f < |s.births| && s.store.futures[f].Result? ==>
      Produced(s.log, |s.log|, f, s.births[f].key, s.store.futures[f].value)
    ensures Produced(s'.log, |s'.log|, f, s'.births[f].key, s'.store.futures[f].value)
  {
    assert s.log <= s'.log;
    if f < |s.births| && s.store.futures[f].Result? {
      ProducedMonotone(s.log, s'.log, f, s.births[f].key, s.store.futures[f].value);
    } else {
      assert s'.log[|s.log|].Succeeded?;
    }
  }

  lemma SuccessesKept<V>(s: System<V>, s': System<V>, e: Effect<V>)
    requires WellFormed(s) && WellFormed(s') && Has(s, s', e) && SuccessesOk(s)
    ensures SuccessesOk(s')
  {
    forall j | 0 <= j < |s'.log| && s'.log[j].Succeeded? ensures SuccessOk(s', j) {
      SuccessKept(s, s', e, j);
    }
    forall i, j | 0 <= i < j < |s'.log| && s'.log[i].Succeeded? && s'.log[j].Succeeded?
      ensures s'.log[i].future != s'.log[j].future
    {
      assert s.log <= s'.log;
      if j < |s.log| {
        assert s'.log[i] == s.log[i] && s'.log[j] == s.log[j];
      } else {
        SuccessKept(s, s', e, j);
        assert s'.log[i] == s.log[i] && SuccessOk(s, i);
      }
    }
    forall f | 0 <= f < |s'.births| && s'.store.futures[f].Result?
      ensures Produced(s'.log, |s'.log|, f, s'.births[f].key, s'.store.futures[f].value)
    {
      ResultProduced(s, s', e, f);
    }
  }

  lemma CachedKept<V>(s: System<V>, s': System<V>, e: Effect<V>, j: nat)
    requires WellFormed(s) && Has(s, s', e) && j < |s'.log| && s'.log[j].Succeeded?
    requires j < |s.log| ==> s.log[j].Succeeded? && SuccessOk(s, j) && Cached(s, j)
    requires j < |s.log| && s.log[j].key in s.store.entries ==> EntryOk(s, s.log[j].key)
    ensures Cached(s', j)
  {
    assert j < |s.log| ==> s'.log[j] == s.log[j];
  }

  lemma CacheKept<V>(s: System<V>, s': System<V>, e: Effect<V>)
    requires WellFormed(s) && WellFormed(s') && Has(s, s', e) && SuccessesOk(s) && CacheOk(s)
    requires forall k :: k in s.store.entries ==> EntryOk(s, k)
    ensures CacheOk(s')
  {
    assert s.log <= s'.log;
    hide Has;
    hide Cached;
    hide EntryOk;
    hide SuccessOk;
    forall j | 0 <= j < |s'.log| && s'.log[j].Succeeded? ensures Cached(s', j) {
      if j < |s.log| { assert s'.log[j] == s.log[j]; }
      CachedKept(s, s', e, j);
    }
  }

  lemma DeliveryMonotone<V>(log: seq<Event<V>>, log': seq<Event<V>>, i: nat)
    requires log <= log' && i < |log| && log[i].Delivered? && DeliveryOk(log, i)
    ensures DeliveryOk(log', i)
  {
    var j :| 0 <= j < i && log[j].Succeeded? && log[j].future == log[i].future && log[j].key == log[i].key
      && log[j].value == log[i].value
      && (log[i].status.Replayed? ==> log[i].at < log[j].at + log[j].ttl);
    assert log'[j] == log[j] && log'[i] == log[i];
  }

  lemma ServedDelivery<V>(s: System<V>, s': System<V>, e: Effect<V>)
    requires WellFormed(s) && Has(s, s', e) && e.Serving? && e.event.Some? && e.event.value.Delivered?
    requires Produced(s.log, |s.log|, e.event.value.future, e.event.value.key, e.event.value.value) && CacheOk(s)
    ensures |s'.log| == |s.log| + 1 && s'.log[|s.log|] == e.event.value && DeliveryOk(s'.log, |s.log|)
  {
    var d := e.event.value;
    var j :| 0 <= j < |s.log| && s.log[j].Succeeded?
      && s.log[j].future == d.future && s.log[j].key == d.key && s.log[j].value == d.value;
    assert s'.log[j] == s.log[j] && Cached(s, j);
  }

  lemma DeliveriesKept<V>(s: System<V>, s': System<V>, e: Effect<V>)
    requires WellFormed(s) && WellFormed(s') && Has(s, s', e) && SuccessesOk(s) && CacheOk(s) && DeliveriesOk(s)
    ensures DeliveriesOk(s')
  {
    assert s.log <= s'.log;
    hide DeliveryOk;
    hide SuccessOk;
    hide Cached;
    forall i | 0 <= i < |s'.log| && s'.log[i].Delivered? ensures DeliveryOk(s'.log, i) {
      if i < |s.log| {
        assert s'.log[i] == s.log[i];
        DeliveryMonotone(s.log, s'.log, i);
      } else if e.Serving? {
        ServedDelivery(s, s', e);
      } else {
        PublishedDelivery(s, s', e);
      }
    }
  }

  lemma PublishedDelivery<V>(s: System<V>, s': System<V>, e: Effect<V>)
    requires WellFormed(s) && Has(s, s', e) && !e.Serving?
    ensures forall i :: |s.log| <= i < |s'.log| && s'.log[i].Delivered? ==> DeliveryOk(s'.log, i)
  {
    assert e.Publishing? ==> s'.log[|s.log|].Succeeded?;
  }

  lemma QuietKept<V>(s: System<V>, s': System<V>, e: Effect<V>)
    requires WellFormed(s) && Has(s, s', e) && CacheOk(s) && QuietOk(s)
    ensures QuietOk(s')
  {
    forall i, j | 0 <= i < j < |s'.log| && s'.log[i].Succeeded? && s'.log[j].Started? && s'.log[i].key == s'.log[j].key
      ensures s'.log[i].at + s'.log[i].ttl <= s'.log[j].at
    {
      assert i < |s.log| ==> s'.log[i] == s.log[i];
      assert j < |s.log| ==> s'.log[j] == s.log[j];
    }
  }

  ghost predicate HistoryOk<V>(s: System<V>) {
    Inv(s) && SuccessesOk(s) && CacheOk(s) && DeliveriesOk(s) && QuietOk(s)
  }

  lemma StepKeepsHistory<V>(s: System<V>, a: Action<V>)
    requires HistoryOk(s) && Enabled(s, a)
    ensures HistoryOk(Next(s, a))
  {
    StepKeepsInv(s, a);
    var e := StepEffect(s, a);
    SuccessesKept(s, Next(s, a), e);
    CacheKept(s, Next(s, a), e);
    DeliveriesKept(s, Next(s, a), e);
    QuietKept(s, Next(s, a), e);
  }

  lemma {:induction false} ReachableHistory<V>(ss: seq<System<V>>, acts: seq<Action<V>>, i: nat)
    requires IsRun(ss, acts) && i <= |acts|
    ensures HistoryOk(ss[i])
  {
    if i > 0 {
      hide HistoryOk;
      hide Next;
      ReachableHistory(ss, acts, i - 1);
      ReachableInv(ss, acts, i - 1);
      StepKeepsHistory(ss[i - 1], acts[i - 1]);
    }
  }

  // ---------------------------------------------------------------- results over whole runs

  /** A shared value (joined or replayed) is the value of exactly one earlier successful
      execution of the same key, and a replay happens strictly before that success plus its TTL. */
  lemma SharedValueHasOneSource<V>(ss: seq<System<V>>, acts: seq<Action<V>>, n: nat, i: nat) returns (j: nat)
    requires IsRun(ss, acts) && n <= |acts|
    requires i < |ss[n].log| && ss[n].log[i].Delivered?
    ensures var log := ss[n].log;
      && j < i && log[j].Succeeded? && log[j].future == log[i].future
      && log[j].key == log[i].key && log[j].value == log[i].value
      && (log[i].status.Replayed? ==> log[i].at < log[j].at + log[j].ttl)
      && forall j' :: 0 <= j' < |log| && log[j'].Succeeded? && log[j'].future == log[i].future ==> j' == j
  {
    ReachableHistory(ss, acts, n);
    var log := ss[n].log;
    assert DeliveryOk(log, i);
    j :| 0 <= j < i && log[j].Succeeded? && log[j].future == log[i].future && log[j].key == log[i].key
      && log[j].value == log[i].value
      && (log[i].status.Replayed? ==> log[i].at < log[j].at + log[j].ttl);
  }

  /** With a clock that never goes back, a key that succeeded is not executed again before the expiry. */
  lemma NoExecutionBeforeExpiry<V>(ss: seq<System<V>>, acts: seq<Action<V>>, n: nat, i: nat, j: nat)
    requires IsRun(ss, acts) && n <= |acts|
    requires i < j < |ss[n].log| && ss[n].log[i].Succeeded? && ss[n].log[j].Started?
    requires ss[n].log[i].key == ss[n].log[j].key
    ensures ss[n].log[j].at >= ss[n].log[i].at + ss[n].log[i].ttl
  {
    ReachableHistory(ss, acts, n);
  }

  /** Whatever holds of every value an owner produced holds of every value any caller received. */
  lemma DeliveredValuesAreProduced<V>(ss: seq<System<V>>, acts: seq<Action<V>>, n: nat, good: V -> bool)
    requires IsRun(ss, acts) && n <= |acts|
    requires forall i :: 0 <= i < |ss[n].log| && ss[n].log[i].Succeeded? ==> good(ss[n].log[i].value)
    ensures forall i :: 0 <= i < |ss[n].log| && ss[n].log[i].Delivered? ==> good(ss[n].log[i].value)
  {
    forall i | 0 <= i < |ss[n].log| && ss[n].log[i].Delivered? ensures good(ss[n].log[i].value) {
      var j := SharedValueHasOneSource(ss, acts, n, i);
    }
  }

  // ---------------------------------------------------------------- conservation, and bounded waiting

  datatype Tally = Tally(starts: nat, successes: nat, failures: nat, cancellations: nat)

  function TallyOf<V>(log: seq<Event<V>>, k: Key): Tally {
    if log == [] then Tally(0, 0, 0, 0)
    else
      var t := TallyOf(log[..|log| - 1], k);
      match log[|log| - 1]
      case Started(_, key, _) => if key == k then t.(starts := t.starts + 1) else t
      case Succeeded(_, key, _, _, _) => if key == k then t.(successes := t.successes + 1) else t
      case Failed(_, key, _) => if key == k then t.(failures := t.failures + 1) else t
      case Abandoned(_, key) => if key == k then t.(cancellations := t.cancellations + 1) else t
      case _ => t
  }

  function InFlight<V>(s: System<V>, k: Key): nat
    requires WellFormed(s)
  {
    if k in s.store.entries && s.store.futures[s.store.entries[k].future].Pending? then 1 else 0
  }

  function AbandonedFutures<V>(s: System<V>, k: Key): set<nat>
    requires WellFormed(s)
  {
    set f: nat | f < |s.births| && s.store.futures[f].OwnerCancelled? && s.births[f].key == k
  }

  ghost predicate Conserved<V>(s: System<V>, k: Key)
    requires WellFormed(s)
  {
    var t := TallyOf(s.log, k);
    && t.starts == t.successes + t.failures + t.cancellations + InFlight(s, k)
    && |AbandonedFutures(s, k)| == t.cancellations
  }

  lemma SnocParts<V>(log: seq<Event<V>>, e: Event<V>)
    ensures (log + [e])[..|log|] == log && (log + [e])[|log|] == e
  {
  }

  lemma TallyPair<V>(log: seq<Event<V>>, e: Event<V>, quiet: Event<V>, k: Key)
    requires quiet.Delivered? || quiet.Threw?
    ensures TallyOf(log + [e, quiet], k) == TallyOf(log + [e], k)
  {
    assert (log + [e, quiet])[..|log| + 1] == log + [e];
  }

  lemma TallyKept<V>(s: System<V>, s': System<V>, e: Effect<V>, k: Key)
    requires WellFormed(s) && Has(s, s', e)
    ensures var t := TallyOf(s.log, k);
      TallyOf(s'.log, k) ==
        match e
        case Starting(key, _) => if key == k then t.(starts := t.starts + 1) else t
        case Serving(_, _) => t
        case Publishing(_, key, _, _, _) => if key == k then t.(successes := t.successes + 1) else t
        case Dropping(key, _, outcome, _) =>
          if key != k then t
          else if outcome.Failure? then t.(failures := t.failures + 1) else t.(cancellations := t.cancellations + 1)
  {
    match e
    case Starting(key, _) => SnocParts(s.log, Started(|s.births|, key, s'.now));
    case Serving(event, _) =>
      if event.Some? { SnocParts(s.log, event.value); } else { assert s.log + [] == s.log; }
    case Publishing(task, key, f, v, ttl) =>
      TallyPair(s.log, Succeeded(f, key, v, ttl, s'.now), Delivered(task, f, key, v, Executed, s'.now), k);
      SnocParts(s.log, Succeeded(f, key, v, ttl, s'.now));
    case Dropping(_, _, _, events) =>
      if |events| == 2 { assert events == [events[0], events[1]]; TallyPair(s.log, events[0], events[1], k); }
      else { assert events == [events[0]]; }
      SnocParts(s.log, events[0]);
  }

  lemma InFlightKept<V>(s: System<V>, s': System<V>, e: Effect<V>, k: Key)
    requires WellFormed(s) && WellFormed(s') && Has(s, s', e)
    requires k in s.store.entries ==> EntryOk(s, k)
    ensures InFlight(s', k) == InFlight(s, k) +
      match e
      case Starting(key, _) => if key == k then 1 else 0
      case Serving(_, _) => 0
      case Publishing(_, key, _, _, _) => if key == k then -1 else 0
      case Dropping(key, _, _, _) => if key == k then -1 else 0
  {
  }

  lemma AbandonedKept<V>(s: System<V>, s': System<V>, e: Effect<V>, k: Key)
    requires WellFormed(s) && WellFormed(s') && Has(s, s', e)
    ensures |AbandonedFutures(s', k)| ==
      |AbandonedFutures(s, k)| + (if e.Dropping? && e.outcome.OwnerCancelled? && e.key == k then 1 else 0)
  {
    if e.Dropping? && e.outcome.OwnerCancelled? && e.key == k {
      assert AbandonedFutures(s', k) == AbandonedFutures(s, k) + {e.future};
    } else {
      assert AbandonedFutures(s', k) == AbandonedFutures(s, k);
    }
  }

  lemma ConservedKept<V>(s: System<V>, s': System<V>, e: Effect<V>, k: Key)
    requires WellFormed(s) && WellFormed(s') && Has(s, s', e) && Conserved(s, k)
    requires k in s.store.entries ==> EntryOk(s, k)
    ensures Conserved(s', k)
  {
    assert e.Dropping? ==> e.outcome.Failure? || e.outcome.OwnerCancelled?;
    hide Has;
    hide EntryOk;
    hide WellFormed;
    hide TallyOf;
    hide InFlight;
    hide AbandonedFutures;
    TallyKept(s, s', e, k);
    AbandonedKept(s, s', e, k);
    InFlightKept(s, s', e, k);
  }

  lemma StepConserves<V>(s: System<V>, a: Action<V>, k: Key)
    requires Inv(s) && Enabled(s, a) && Conserved(s, k)
    ensures WellFormed(Next(s, a)) && Conserved(Next(s, a), k)
  {
    hide Next;
    hide Has;
    hide Conserved;
    hide EntryOk;
    hide PendingOk;
    hide FrameOk;
    hide Enabled;
    StepKeepsInv(s, a);
    var e := StepEffect(s, a);
    ConservedKept(s, Next(s, a), e, k);
  }

  /** Per key, every execution started has succeeded, failed, been cancelled with its owner, or is
      the one in flight; and the cancellations are the futures found abandoned. */
  lemma {:induction false} ExecutionsAreConserved<V>(ss: seq<System<V>>, acts: seq<Action<V>>, i: nat, k: Key)
    requires IsRun(ss, acts) && i <= |acts|
    ensures WellFormed(ss[i]) && Conserved(ss[i], k)
  {
    if i > 0 {
      hide *;
      ExecutionsAreConserved(ss, acts, i - 1, k);
      ReachableInv(ss, acts, i - 1);
      StepConserves(ss[i - 1], acts[i - 1], k);
    } else {
      assert AbandonedFutures(ss[0], k) == {};
    }
  }

  lemma {:induction false} IncreasingFits(xs: seq<nat>, within: set<nat>)
    requires forall i :: 0 <= i < |xs| ==> xs[i] in within
    requires forall i, j :: 0 <= i < j < |xs| ==> xs[i] < xs[j]
    ensures |xs| <= |within|
  {
    if xs != [] {
      IncreasingFits(xs[..|xs| - 1], within - {xs[|xs| - 1]});
    }
  }

  /** A waiting call has gone round the loop once, and once more for each owner it saw cancelled: the futures it
      waited on before are distinct and all abandoned. So it has gone round at most once more than owners
      of its key were cancelled, and if cancellations are finite, so is the wait in passes. */
  lemma PassesAreBounded<V>(ss: seq<System<V>>, acts: seq<Action<V>>, i: nat, t: nat, d: nat)
    requires IsRun(ss, acts) && i <= |acts|
    requires t in ss[i].stacks && d < |ss[i].stacks[t]| && ss[i].stacks[t][d].Waiting?
    ensures var frame := ss[i].stacks[t][d];
      && 1 <= |frame.waits| <= 1 + TallyOf(ss[i].log, frame.key).cancellations
      && frame.waits[|frame.waits| - 1] == frame.future
      && (forall j :: 0 <= j < |frame.waits| ==> frame.waits[j] < |ss[i].store.futures|)
      && (forall j :: 0 <= j < |frame.waits| - 1 ==> ss[i].store.futures[frame.waits[j]].OwnerCancelled?)
      && (forall j, j' :: 0 <= j < j' < |frame.waits| ==> frame.waits[j] != frame.waits[j'])
  {
    ReachableInv(ss, acts, i);
    var s := ss[i];
    assert FrameOk(s, t, d);
    var frame := s.stacks[t][d];
    ExecutionsAreConserved(ss, acts, i, frame.key);
    IncreasingFits(frame.waits[..|frame.waits| - 1], AbandonedFutures(s, frame.key));
  }

  // ---------------------------------------------------------------- owner cancellation

  /** When an owner is cancelled its key is free in the same step, and every call waiting on its
      future keeps its place and can go round again at once. */
  lemma CancelledOwnerLosesNoWaiter<V>(s: System<V>, owner: nat, at: real, waiter: nat)
    requires Inv(s) && Enabled(s, CancelOwner(owner, at)) && waiter != owner
    requires Stack(s, waiter) != [] && Top(Stack(s, waiter)).Waiting?
    requires Top(Stack(s, waiter)).future == Top(Stack(s, owner)).future
    ensures var s' := Next(s, CancelOwner(owner, at));
      && Top(Stack(s, waiter)).key !in s'.store.entries
      && Stack(s', waiter) == Stack(s, waiter)
      && s'.store.futures[Top(Stack(s, waiter)).future].OwnerCancelled?
      && forall later :: later >= at ==> Enabled(s', Wake(waiter, later))
  {
    OwnerGuardsHold(s, owner);
    assert FrameOk(s, owner, |Stack(s, owner)| - 1);
    assert FrameOk(s, waiter, |Stack(s, waiter)| - 1);
  }

  /** A woken waiter whose owner was cancelled competes for the key: it becomes the owner if the
      key is free, joins if another task got there first, or is handed a value already cached.
      It never gets a re-entry error. */
  lemma WokenWaiterCompetes<V>(s: System<V>, task: nat, at: real)
    requires Inv(s) && Enabled(s, Wake(task, at))
    requires s.store.futures[Top(Stack(s, task)).future].OwnerCancelled?
    ensures var frame := Top(Stack(s, task));
      var s' := Next(s, Wake(task, at));
      var live := Live(s.store.entries, at);
      if frame.key !in live then
        Stack(s', task) == Below(Stack(s, task)) + [Running(frame.key, |s.births|, frame.ttl)]
      else if s.store.futures[live[frame.key].future].Pending? then
        Stack(s', task) == Below(Stack(s, task)) +
          [Waiting(frame.key, live[frame.key].future, frame.ttl, frame.waits + [live[frame.key].future])]
      else
        && Stack(s', task) == Below(Stack(s, task))
        && s.store.futures[live[frame.key].future].Result?
        && s'.log == s.log +
          [Delivered(task, live[frame.key].future, frame.key,
                     s.store.futures[live[frame.key].future].value, Replayed, at)]
  {
    var stack := Stack(s, task);
    var frame := Top(stack);
    assert FrameOk(s, task, |stack| - 1);
    BelowIsRunning(s, task);
    ReentryIffRunning(s, task, Below(stack), frame.key, at);
    if frame.key in s.store.entries { assert EntryOk(s, frame.key); }
  }

  /** No task ever waits on a pending future of its own. */
  lemma NobodyWaitsForItself<V>(ss: seq<System<V>>, acts: seq<Action<V>>, i: nat, t: nat, d: nat)
    requires IsRun(ss, acts) && i <= |acts|
    requires t in ss[i].stacks && d < |ss[i].stacks[t]| && ss[i].stacks[t][d].Waiting?
    ensures WellFormed(ss[i]) && ss[i].births[ss[i].stacks[t][d].future].owner != t
    ensures forall d' :: 0 <= d' < d ==> ss[i].stacks[t][d'].key != ss[i].stacks[t][d].key
  {
    ReachableInv(ss, acts, i);
    assert FrameOk(ss[i], t, d);
  }
}
