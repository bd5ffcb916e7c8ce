/** Lazy purging cannot be observed: the store refines one in which every entry vanishes exactly
    at its expiry, as long as the clock never goes back. */
module LazyPurge {
  import opened Idempotency
  import opened IdempotencyRuns
  import opened IdempotencyHistory

  /** The abstract store. Expired entries are gone before any step is taken, so nothing in the step
      itself ever purges; `unswept` counts the vanished entries no purge has accounted for yet. */
  datatype Eager<+V> = Eager(system: System<V>, unswept: nat)

  function Vanish<V>(s: System<V>, at: real): System<V> {
    s.(store := Store(Live(s.store.entries, at), s.store.futures))
  }

  function Vanished<V>(e: Eager<V>, at: real): nat {
    e.unswept + |Gone(e.system.store.entries, at)|
  }

  predicate Ready<V>(s: System<V>, a: Action<V>) {
    WellFormed(s) && Enabled(s, a)
  }

  /** The steps that pass through a lock section, where the lazy store purges. */
  predicate Sweeps<V>(s: System<V>, a: Action<V>)
    requires Ready(s, a)
  {
    a.Enter? || a.Purge? || (a.Wake? && s.store.futures[Top(Stack(s, a.task)).future].OwnerCancelled?)
  }

  function EagerNext<V>(e: Eager<V>, a: Action<V>): Eager<V>
    requires Ready(Vanish(e.system, a.at), a)
  {
    var s := Vanish(e.system, a.at);
    Eager(Next(s, a), if Sweeps(s, a) then 0 else Vanished(e, a.at))
  }

  // What the two kinds of query answer at time `at`.

  function LazyPurged<V>(s: System<V>, at: real): nat {
    |Gone(s.store.entries, at)|
  }

  function LazyCount<V>(s: System<V>, at: real): nat {
    |Live(s.store.entries, at)|
  }

  function EagerPurged<V>(e: Eager<V>, at: real): nat {
    Vanished(e, at)
  }

  function EagerCount<V>(e: Eager<V>, at: real): nat {
    |Vanish(e.system, at).store.entries|
  }

  /** The lazy store holds the eager one's entries and some already expired ones. */
  ghost predicate Simulates<V>(s: System<V>, e: Eager<V>) {
    && e.system == Vanish(s, s.now)
    && e.unswept == |Gone(s.store.entries, s.now)|
  }

  lemma LiveTwice(m: map<Key, Entry>, early: real, late: real)
    requires early <= late
    ensures Live(Live(m, early), late) == Live(m, late)
    ensures Gone(m, late) == Gone(m, early) + Gone(Live(m, early), late)
    ensures |Gone(m, late)| == |Gone(m, early)| + |Gone(Live(m, early), late)|
  {
    assert Gone(m, early) !! Gone(Live(m, early), late);
  }

  /** While the two are related they answer every query alike, now and at any later time. */
  lemma SameAnswers<V>(s: System<V>, e: Eager<V>, at: real)
    requires Simulates(s, e) && s.now <= at
    ensures LazyPurged(s, at) == EagerPurged(e, at) && LazyCount(s, at) == EagerCount(e, at)
    ensures e.system.log == s.log && e.system.stacks == s.stacks && e.system.store.futures == s.store.futures
    ensures Vanish(e.system, at) == Vanish(s, at)
  {
    LiveTwice(s.store.entries, s.now, at);
  }

  /** A purge keeps exactly the entries without an expiry or with a later one, as they are, and counts the others. */
  lemma PurgeTakesExactly(m: map<Key, Entry>, now: real, k: Key)
    ensures k in Live(m, now) <==> k in m && (m[k].expiresAt.None? || m[k].expiresAt.value > now)
    ensures k in Live(m, now) ==> Live(m, now)[k] == m[k]
    ensures k in Gone(m, now) <==> k in m && m[k].expiresAt.Some? && m[k].expiresAt.value <= now
    ensures |Gone(m, now)| + |Live(m, now)| == |m|
  {
    assert m.Keys == Gone(m, now) + Live(m, now).Keys && Gone(m, now) !! Live(m, now).Keys;
    assert |m.Keys| == |Gone(m, now)| + |Live(m, now).Keys|;
    assert |m| == |m.Keys| && |Live(m, now)| == |Live(m, now).Keys|;
  }

  /** A purge never takes an entry whose operation is still running. */
  lemma PurgeSparesInFlight<V>(s: System<V>, k: Key, at: real)
    requires Inv(s) && k in s.store.entries && s.store.futures[s.store.entries[k].future].Pending?
    ensures k in Live(s.store.entries, at) && k !in Gone(s.store.entries, at)
  {
    assert EntryOk(s, k);
  }

  lemma VanishKeepsShape<V>(s: System<V>, at: real)
    requires WellFormed(s)
    ensures WellFormed(Vanish(s, at))
  {
  }

  /** An owner that ends finds its own pending entry under its key. */
  ghost predicate OwnerReady<V>(s: System<V>, a: Action<V>)
    requires Ready(s, a)
  {
    a.Finish? || a.Fail? || a.CancelOwner? ==>
      var top := Top(Stack(s, a.task));
      && top.key in s.store.entries && s.store.entries[top.key].future == top.future
      && s.store.entries[top.key].expiresAt.None? && top.ttl > 0.0
  }

  lemma OwnersAreReady<V>(s: System<V>, a: Action<V>)
    requires Inv(s) && Enabled(s, a)
    ensures OwnerReady(s, a)
  {
    if a.Finish? || a.Fail? || a.CancelOwner? {
      OwnerGuardsHold(s, a.task);
      assert FrameOk(s, a.task, |Stack(s, a.task)| - 1);
    }
  }

  lemma PassCommutes<V>(s: System<V>, task: nat, below: seq<Frame>, key: Key, ttl: real, waits: seq<nat>, at: real)
    requires WellFormed(s) && WellFormed(Vanish(s, at))
    ensures var s' := Pass(s, task, below, key, ttl, waits, at);
      && Pass(Vanish(s, at), task, below, key, ttl, waits, at) == Vanish(s', at)
      && Gone(s'.store.entries, at) == {}
  {
    var m := s.store.entries;
    LiveTwice(m, at, at);
    var m' := AfterAcquire(s.store, key, task, at).entries;
    assert Gone(m', at) == {};
    assert Live(m', at) == m';
  }

  lemma OwnerCommutes<V>(s: System<V>, a: Action<V>)
    requires WellFormed(s) && Enabled(s, a) && WellFormed(Vanish(s, a.at)) && OwnerReady(s, a)
    requires a.Finish? || a.Fail? || a.CancelOwner?
    ensures Next(Vanish(s, a.at), a) == Vanish(Next(s, a), a.at)
    ensures Gone(Next(s, a).store.entries, a.at) == Gone(s.store.entries, a.at)
  {
    assert Live(Next(s, a).store.entries, a.at) == Next(Vanish(s, a.at), a).store.entries;
  }

  lemma NextSetsClock<V>(s: System<V>, a: Action<V>)
    requires WellFormed(s) && Enabled(s, a)
    ensures Next(s, a).now == a.at
  {
  }

  lemma VanishKeepsEnabled<V>(s: System<V>, a: Action<V>)
    requires Enabled(s, a)
    ensures Enabled(Vanish(s, a.at), a)
  {
  }

  /** A step of the store itself commutes with the vanishing of expired entries. */
  lemma NextCommutes<V>(s: System<V>, a: Action<V>)
    requires WellFormed(s) && Enabled(s, a) && WellFormed(Vanish(s, a.at)) && OwnerReady(s, a)
    requires Enabled(Vanish(s, a.at), a)
    ensures Next(Vanish(s, a.at), a) == Vanish(Next(s, a), a.at)
    ensures Gone(Next(s, a).store.entries, a.at) == if Sweeps(s, a) then {} else Gone(s.store.entries, a.at)
  {
    var m := s.store.entries;
    match a
    case Enter(task, key, ttl, at) => PassCommutes(s, task, Stack(s, task), key, ttl, [], at);
    case Wake(task, at) =>
      var top := Top(Stack(s, task));
      if s.store.futures[top.future].OwnerCancelled? {
        PassCommutes(s, task, Below(Stack(s, task)), top.key, top.ttl, top.waits, at);
      }
    case CancelWaiter(_, _) =>
    case Finish(_, _, _) => OwnerCommutes(s, a);
    case Fail(_, _, _) => OwnerCommutes(s, a);
    case CancelOwner(_, _) => OwnerCommutes(s, a);
    case Purge(at) => LiveTwice(m, at, at);
  }

  lemma StepSimulates<V>(s: System<V>, e: Eager<V>, a: Action<V>)
    requires WellFormed(s) && Enabled(s, a) && OwnerReady(s, a) && Simulates(s, e)
    ensures Ready(Vanish(e.system, a.at), a)
    ensures Simulates(Next(s, a), EagerNext(e, a))
  {
    assert s.now <= a.at;
    NextSetsClock(s, a);
    hide Next;
    hide Enabled;
    SameAnswers(s, e, a.at);
    VanishKeepsShape(s, a.at);
    VanishKeepsEnabled(s, a);
    NextCommutes(s, a);
    LiveTwice(s.store.entries, s.now, a.at);
  }

  /** Over whole runs: drive the lazy and the eager store with the same actions and every delivery,
      error, purge count and entry count is the same. */
  lemma {:induction false} LazyPurgingIsInvisible<V>(ss: seq<System<V>>, es: seq<Eager<V>>, acts: seq<Action<V>>,
                                                     i: nat, at: real)
    requires IsRun(ss, acts) && i <= |acts| && ss[i].now <= at
    requires |es| == |acts| + 1 && es[0] == Eager(Init(), 0)
    requires forall j {:trigger acts[j]} :: 0 <= j < |acts| && Ready(Vanish(es[j].system, acts[j].at), acts[j]) ==>
      es[j + 1] == EagerNext(es[j], acts[j])
    ensures Simulates(ss[i], es[i])
    ensures es[i].system.log == ss[i].log && es[i].system.stacks == ss[i].stacks
    ensures LazyPurged(ss[i], at) == EagerPurged(es[i], at) && LazyCount(ss[i], at) == EagerCount(es[i], at)
  {
    if i == 0 {
      assert Live(map[], 0.0) == map[];
      assert Gone(map[], 0.0) == {};
    } else {
      ReachableInv(ss, acts, i - 1);
      assert Enabled(ss[i - 1], acts[i - 1]);
      LazyPurgingIsInvisible(ss, es, acts, i - 1, ss[i - 1].now);
      OwnersAreReady(ss[i - 1], acts[i - 1]);
      StepSimulates(ss[i - 1], es[i - 1], acts[i - 1]);
    }
    SameAnswers(ss[i], es[i], at);
  }
}
