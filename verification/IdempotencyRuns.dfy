/** Any number of tasks racing on any number of keys of one store. A task that is running the
    operation of one key may call `execute` again, so a task is a stack of calls. */
module IdempotencyRuns {
  import opened Prelude
  import opened Exceptions
  import opened Idempotency

  /** Who created a future: the key it is for and the frame (task and depth) that owns it. */
  datatype Birth = Birth(key: Key, owner: nat, depth: nat)

  /** One call of `execute` in progress: running the operation as owner, or waiting on a shared
      future. `waits` lists the futures this call has waited on so far, the current one last. */
  datatype Frame =
    | Running(key: Key, future: nat, ttl: real)
    | Waiting(key: Key, future: nat, ttl: real, waits: seq<nat>)

  datatype Event<+V> =
    | Started(future: nat, key: Key, at: real)
    | Succeeded(future: nat, key: Key, value: V, ttl: real, at: real)
    | Failed(future: nat, key: Key, error: Exn)
    | Abandoned(future: nat, key: Key)
    | Delivered(task: nat, future: nat, key: Key, value: V, status: Status, at: real)
    | Threw(task: nat, key: Key, error: Exn)

  datatype System<+V> = System(
    store: Store<V>,
    births: seq<Birth>,
    stacks: map<nat, seq<Frame>>,
    log: seq<Event<V>>,
    now: real)

  datatype Action<+V> =
    | Enter(task: nat, key: Key, ttl: real, at: real)
    | Wake(task: nat, at: real)
    | CancelWaiter(task: nat, at: real)
    | Finish(task: nat, value: V, at: real)
    | Fail(task: nat, error: Exn, at: real)
    | CancelOwner(task: nat, at: real)
    | Purge(at: real)

  function Stack<V>(s: System<V>, task: nat): seq<Frame> {
    if task in s.stacks then s.stacks[task] else []
  }

  function Top(stack: seq<Frame>): Frame
    requires stack != []
  {
    stack[|stack| - 1]
  }

  function Below(stack: seq<Frame>): seq<Frame>
    requires stack != []
  {
    stack[..|stack| - 1]
  }

  function Init<V>(): System<V> {
    System(Store(map[], []), [], map[], [], 0.0)
  }

  /** The future numbers held by frames and entries exist. */
  predicate WellFormed<V>(s: System<V>) {
    && s.store.Valid()
    && |s.births| == |s.store.futures|
    && forall t, d :: t in s.stacks && 0 <= d < |s.stacks[t]| ==> s.stacks[t][d].future < |s.births|
  }

  predicate Enabled<V>(s: System<V>, a: Action<V>) {
    && s.now <= a.at
    && match a
       case Enter(task, _, ttl, _) => ttl > 0.0 && (Stack(s, task) == [] || Top(Stack(s, task)).Running?)
       case Wake(task, _) =>
         && Stack(s, task) != [] && Top(Stack(s, task)).Waiting?
         && Top(Stack(s, task)).future < |s.store.futures|
         && !s.store.futures[Top(Stack(s, task)).future].Pending?
       case CancelWaiter(task, _) => Stack(s, task) != [] && Top(Stack(s, task)).Waiting?
       case Finish(task, _, _) => Stack(s, task) != [] && Top(Stack(s, task)).Running?
       case Fail(task, _, _) => Stack(s, task) != [] && Top(Stack(s, task)).Running?
       case CancelOwner(task, _) => Stack(s, task) != [] && Top(Stack(s, task)).Running?
       case Purge(_) => true
  }

  /** One pass of the acquisition loop for a call of `task` that sits on top of `below`.
      A result found in the cache is delivered in the same step: awaiting it does not suspend. */
  function Pass<V>(s: System<V>, task: nat, below: seq<Frame>, key: Key, ttl: real, waits: seq<nat>,
                   at: real): System<V>
    requires WellFormed(s)
  {
    var store := AfterAcquire(s.store, key, task, at);
    match Decide(s.store, key, task, at)
    case Owns(f) =>
      System(store, s.births + [Birth(key, task, |below|)],
             s.stacks[task := below + [Running(key, f, ttl)]],
             s.log + [Started(f, key, at)], at)
    case Reentered =>
      System(store, s.births, s.stacks[task := below], s.log + [Threw(task, key, Reentry(key))], at)
    case Waits(f, status) =>
      if status.Replayed? && s.store.futures[f].Result? then
        System(store, s.births, s.stacks[task := below],
               s.log + [Delivered(task, f, key, s.store.futures[f].value, Replayed, at)], at)
      else
        System(store, s.births, s.stacks[task := below + [Waiting(key, f, ttl, waits + [f])]], s.log, at)
  }

  function Next<V>(s: System<V>, a: Action<V>): System<V>
    requires WellFormed(s) && Enabled(s, a)
  {
    match a
    case Enter(task, key, ttl, at) => Pass(s, task, Stack(s, task), key, ttl, [], at)
    case Wake(task, at) =>
      var top := Top(Stack(s, task));
      var below := Below(Stack(s, task));
      (match s.store.futures[top.future]
       case Result(v) =>
         s.(stacks := s.stacks[task := below], now := at,
            log := s.log + [Delivered(task, top.future, top.key, v, Joined, at)])
       case Failure(e) =>
         s.(stacks := s.stacks[task := below], now := at, log := s.log + [Threw(task, top.key, e)])
       case _ => Pass(s, task, below, top.key, top.ttl, top.waits, at))
    case CancelWaiter(task, at) => s.(stacks := s.stacks[task := Below(Stack(s, task))], now := at)
    case Finish(task, v, at) =>
      var top := Top(Stack(s, task));
      System(AfterPublish(s.store, top.key, top.future, v, top.ttl, at), s.births,
             s.stacks[task := Below(Stack(s, task))],
             s.log + [Succeeded(top.future, top.key, v, top.ttl, at),
                      Delivered(task, top.future, top.key, v, Executed, at)], at)
    case Fail(task, e, at) =>
      var top := Top(Stack(s, task));
      System(AfterRelease(s.store, top.key, top.future, Failure(e)), s.births,
             s.stacks[task := Below(Stack(s, task))],
             s.log + [Failed(top.future, top.key, e), Threw(task, top.key, e)], at)
    case CancelOwner(task, at) =>
      var top := Top(Stack(s, task));
      System(AfterRelease(s.store, top.key, top.future, OwnerCancelled), s.births,
             s.stacks[task := Below(Stack(s, task))],
             s.log + [Abandoned(top.future, top.key)], at)
    case Purge(at) => s.(store := Store(Live(s.store.entries, at), s.store.futures), now := at)
  }

  // ---------------------------------------------------------------- the protocol invariant

  predicate EntryOk<V>(s: System<V>, k: Key)
    requires WellFormed(s) && k in s.store.entries
  {
    var e := s.store.entries[k];
    && s.births[e.future].key == k && s.births[e.future].owner == e.owner
    && (s.store.futures[e.future].Pending? || s.store.futures[e.future].Result?)
    && (s.store.futures[e.future].Pending? <==> e.expiresAt.None?)
    && forall g :: 0 <= g < |s.births| && s.births[g].key == k ==> g <= e.future
  }

  /** A pending future is the one stored under its key, and the frame that created it is still running. */
  predicate PendingOk<V>(s: System<V>, f: nat)
    requires WellFormed(s) && f < |s.births|
  {
    var b := s.births[f];
    s.store.futures[f].Pending? ==>
      && b.key in s.store.entries && s.store.entries[b.key].future == f
      && b.depth < |Stack(s, b.owner)|
      && Stack(s, b.owner)[b.depth].Running? && Stack(s, b.owner)[b.depth].future == f
  }

  /** The futures a waiting call has been through: all of this key, each younger than the one
      before, and all but the last abandoned by a cancelled owner. */
  predicate WaitsOk<V>(s: System<V>, key: Key, waits: seq<nat>)
    requires WellFormed(s)
  {
    && (forall i :: 0 <= i < |waits| ==> waits[i] < |s.births| && s.births[waits[i]].key == key)
    && (forall i :: 0 <= i < |waits| - 1 ==> s.store.futures[waits[i]].OwnerCancelled?)
    && (forall i, j :: 0 <= i < j < |waits| ==> waits[i] < waits[j])
  }

  predicate FrameOk<V>(s: System<V>, t: nat, d: nat)
    requires WellFormed(s) && t in s.stacks && d < |s.stacks[t]|
  {
    var f := s.stacks[t][d];
    && (forall d' :: 0 <= d' < d ==> s.stacks[t][d'].key != f.key)
    && match f
    case Running(key, future, ttl) =>
      ttl > 0.0 && s.store.futures[future].Pending? && s.births[future] == Birth(key, t, d)
    case Waiting(key, future, ttl, waits) =>
      && ttl > 0.0 && d == |s.stacks[t]| - 1
      && s.births[future].key == key && s.births[future].owner != t
      && waits != [] && waits[|waits| - 1] == future && WaitsOk(s, key, waits)
  }

  ghost predicate Inv<V>(s: System<V>) {
    && WellFormed(s)
    && (forall k :: k in s.store.entries ==> EntryOk(s, k))
    && (forall f :: 0 <= f < |s.births| ==> PendingOk(s, f))
    && (forall t, d :: t in s.stacks && 0 <= d < |s.stacks[t]| ==> FrameOk(s, t, d))
  }

  /** The guards around publishing and releasing never fail: whenever an owner ends, the entry
      under its key holds its own future and that future is not done. */
  lemma OwnerGuardsHold<V>(s: System<V>, task: nat)
    requires Inv(s) && Stack(s, task) != [] && Top(Stack(s, task)).Running?
    ensures var top := Top(Stack(s, task));
      && top.key in s.store.entries && s.store.entries[top.key].future == top.future
      && s.store.entries[top.key].expiresAt.None?
      && s.store.futures[top.future].Pending?
  {
    assert FrameOk(s, task, |s.stacks[task]| - 1);
    var f := Top(Stack(s, task)).future;
    assert PendingOk(s, f);
    assert EntryOk(s, s.births[f].key);
  }

  /** `below` is the stack of `task` without a waiting call on top of it. */
  predicate OnTop<V>(s: System<V>, task: nat, below: seq<Frame>) {
    && below <= Stack(s, task)
    && (below == Stack(s, task) || (|Stack(s, task)| == |below| + 1 && Top(Stack(s, task)).Waiting?))
    && (below == [] || Top(below).Running?)
  }

  /** The re-entry error is raised exactly when the calling task is itself running the operation
      of that key, at whatever depth of nesting; so no call ever waits for its own task. */
  lemma ReentryIffRunning<V>(s: System<V>, task: nat, below: seq<Frame>, key: Key, at: real)
    requires Inv(s) && OnTop(s, task, below)
    ensures Decide(s.store, key, task, at).Reentered? <==> exists d :: 0 <= d < |below| && below[d].key == key
  {
    var stack := Stack(s, task);
    forall d | 0 <= d < |below| ensures below[d].Running? {
      assert FrameOk(s, task, d) && below[d] == stack[d];
    }
    if d :| 0 <= d < |below| && below[d].key == key {
      assert FrameOk(s, task, d) && stack[d] == below[d];
      assert PendingOk(s, below[d].future) && EntryOk(s, key);
    }
    if Decide(s.store, key, task, at).Reentered? {
      assert EntryOk(s, key);
      var f := s.store.entries[key].future;
      assert PendingOk(s, f);
      var d := s.births[f].depth;
      assert stack[d].Running? && stack[d].future == f && FrameOk(s, task, d);
      assert below[d].key == key;
    }
  }

  /** Futures and their births are only added; an abandoned future stays abandoned. */
  predicate Grows<V>(s: System<V>, s': System<V>) {
    && |s.births| == |s.store.futures| && |s'.births| == |s'.store.futures|
    && s.births <= s'.births
    && forall f :: 0 <= f < |s.births| && s.store.futures[f].OwnerCancelled? ==> s'.store.futures[f].OwnerCancelled?
  }

  lemma WaitsKept<V>(s: System<V>, s': System<V>, key: Key, waits: seq<nat>)
    requires WellFormed(s) && WellFormed(s') && Grows(s, s') && WaitsOk(s, key, waits)
    ensures WaitsOk(s', key, waits)
  {
  }

  /** A frame left in place stays in order as long as its own future is still pending if it owns it. */
  lemma FrameKept<V>(s: System<V>, s': System<V>, t: nat, d: nat)
    requires WellFormed(s) && WellFormed(s') && Grows(s, s')
    requires t in s.stacks && d < |s.stacks[t]| && FrameOk(s, t, d)
    requires t in s'.stacks && d < |s'.stacks[t]|
    requires forall d' :: 0 <= d' <= d ==> s'.stacks[t][d'] == s.stacks[t][d']
    requires s.stacks[t][d].Running? ==> s'.store.futures[s.stacks[t][d].future].Pending?
    requires s.stacks[t][d].Waiting? ==> |s'.stacks[t]| == |s.stacks[t]|
    ensures FrameOk(s', t, d)
  {
    if s.stacks[t][d].Waiting? {
      WaitsKept(s, s', s.stacks[t][d].key, s.stacks[t][d].waits);
    }
  }

  ghost predicate PassReady<V>(s: System<V>, task: nat, below: seq<Frame>, key: Key, ttl: real, waits: seq<nat>) {
    && Inv(s) && ttl > 0.0 && OnTop(s, task, below) && WaitsOk(s, key, waits)
    && (waits == [] || s.store.futures[waits[|waits| - 1]].OwnerCancelled?)
  }

  lemma PassShape<V>(s: System<V>, task: nat, below: seq<Frame>, key: Key, ttl: real, waits: seq<nat>, at: real)
    requires WellFormed(s) && OnTop(s, task, below)
    ensures var s' := Pass(s, task, below, key, ttl, waits, at);
      WellFormed(s') && Grows(s, s')
  {
    var s' := Pass(s, task, below, key, ttl, waits, at);
    forall t, d | t in s'.stacks && 0 <= d < |s'.stacks[t]| ensures s'.stacks[t][d].future < |s'.births| {
      if t == task && d < |below| { assert s'.stacks[t][d] == s.stacks[t][d]; }
    }
  }

  lemma PassEntry<V>(s: System<V>, task: nat, below: seq<Frame>, key: Key, ttl: real, waits: seq<nat>, at: real, k: Key)
    requires WellFormed(s) && WellFormed(Pass(s, task, below, key, ttl, waits, at))
    requires k in Pass(s, task, below, key, ttl, waits, at).store.entries
    requires k in s.store.entries ==> EntryOk(s, k)
    ensures EntryOk(Pass(s, task, below, key, ttl, waits, at), k)
  {
  }

  lemma PassPending<V>(s: System<V>, task: nat, below: seq<Frame>, key: Key, ttl: real, waits: seq<nat>, at: real,
                       f: nat)
    requires WellFormed(s) && OnTop(s, task, below)
    requires WellFormed(Pass(s, task, below, key, ttl, waits, at))
    requires f < |s.births| ==> PendingOk(s, f)
    requires f < |s.births| && s.births[f].key in s.store.entries ==> EntryOk(s, s.births[f].key)
    requires f < |Pass(s, task, below, key, ttl, waits, at).births|
    ensures PendingOk(Pass(s, task, below, key, ttl, waits, at), f)
  {
    var s' := Pass(s, task, below, key, ttl, waits, at);
    if f < |s.births| {
      var b := s.births[f];
      assert s'.births[f] == b && s'.store.futures[f] == s.store.futures[f];
      if s.store.futures[f].Pending? {
        assert b.owner == task ==> b.depth < |below|;
      }
    }
  }

  lemma BelowRuns<V>(s: System<V>, task: nat, below: seq<Frame>, d: nat)
    requires WellFormed(s) && OnTop(s, task, below) && d < |below| && FrameOk(s, task, d)
    ensures below[d] == Stack(s, task)[d] && below[d].Running?
  {
    hide WaitsOk;
  }

  /** Frames other than the one on top of `below` are not touched by a pass. */
  lemma PassOtherFrame<V>(s: System<V>, task: nat, below: seq<Frame>, key: Key, ttl: real, waits: seq<nat>, at: real,
                          t: nat, d: nat)
    requires WellFormed(s) && OnTop(s, task, below) && (t != task || d < |below|)
    requires var s' := Pass(s, task, below, key, ttl, waits, at);
      WellFormed(s') && Grows(s, s') && t in s'.stacks && d < |s'.stacks[t]|
    requires t in s.stacks && d < |s.stacks[t]| && FrameOk(s, t, d)
    ensures FrameOk(Pass(s, task, below, key, ttl, waits, at), t, d)
  {
    var s' := Pass(s, task, below, key, ttl, waits, at);
    if s.stacks[t][d].Running? {
      assert s.store.futures[s.stacks[t][d].future].Pending?;
    }
    hide FrameOk;
    if t == task {
      BelowRuns(s, task, below, d);
      assert forall d' :: 0 <= d' <= d ==> s'.stacks[t][d'] == below[d'] == s.stacks[t][d'];
    }
    FrameKept(s, s', t, d);
  }

  lemma PassFrames<V>(s: System<V>, task: nat, below: seq<Frame>, key: Key, ttl: real, waits: seq<nat>, at: real,
                      t: nat, d: nat)
    requires PassReady(s, task, below, key, ttl, waits)
    requires var s' := Pass(s, task, below, key, ttl, waits, at);
      WellFormed(s') && Grows(s, s') && t in s'.stacks && d < |s'.stacks[t]|
    ensures FrameOk(Pass(s, task, below, key, ttl, waits, at), t, d)
  {
    if t == task && d >= |below| {
      PassSize(s, task, below, key, ttl, waits, at);
      hide Pass;
      hide FrameOk;
      hide EntryOk;
      hide PendingOk;
      hide WaitsOk;
      ReentryIffRunning(s, task, below, key, at);
      PassTopFrame(s, task, below, key, ttl, waits, at);
    } else {
      PassSize(s, task, below, key, ttl, waits, at);
      hide Pass;
      hide FrameOk;
      hide EntryOk;
      hide PendingOk;
      hide WaitsOk;
      PassOtherFrame(s, task, below, key, ttl, waits, at, t, d);
    }
  }

  lemma PassSize<V>(s: System<V>, task: nat, below: seq<Frame>, key: Key, ttl: real, waits: seq<nat>, at: real)
    requires WellFormed(s) && OnTop(s, task, below)
    ensures var s' := Pass(s, task, below, key, ttl, waits, at);
      && task in s'.stacks && |below| <= |s'.stacks[task]| <= |below| + 1
      && |below| <= |Stack(s, task)|
      && forall t :: t in s'.stacks && t != task ==> t in s.stacks && s'.stacks[t] == s.stacks[t]
  {
  }

  lemma PassTopFrame<V>(s: System<V>, task: nat, below: seq<Frame>, key: Key, ttl: real, waits: seq<nat>, at: real)
    requires WellFormed(s) && ttl > 0.0 && WaitsOk(s, key, waits)
    requires waits == [] || s.store.futures[waits[|waits| - 1]].OwnerCancelled?
    requires key in s.store.entries ==> EntryOk(s, key)
    requires Decide(s.store, key, task, at).Reentered? || forall d :: 0 <= d < |below| ==> below[d].key != key
    requires var s' := Pass(s, task, below, key, ttl, waits, at);
      WellFormed(s') && Grows(s, s') && task in s'.stacks && |below| < |s'.stacks[task]|
    ensures FrameOk(Pass(s, task, below, key, ttl, waits, at), task, |below|)
  {
    var s' := Pass(s, task, below, key, ttl, waits, at);
    if key in Live(s.store.entries, at) {
      var f := s.store.entries[key].future;
      assert s'.stacks[task][|below|] == Waiting(key, f, ttl, waits + [f]);
      NextWait(s, key, waits, f);
      WaitsKept(s, s', key, waits + [f]);
    }
  }

  /** The future a call waits on next is younger than every abandoned one it waited on before. */
  lemma NextWait<V>(s: System<V>, key: Key, waits: seq<nat>, f: nat)
    requires WellFormed(s) && WaitsOk(s, key, waits)
    requires waits == [] || s.store.futures[waits[|waits| - 1]].OwnerCancelled?
    requires key in s.store.entries && EntryOk(s, key) && f == s.store.entries[key].future
    ensures WaitsOk(s, key, waits + [f])
  {
    forall i | 0 <= i < |waits| ensures waits[i] < f {
      assert s.births[waits[i]].key == key;
      assert i == |waits| - 1 || waits[i] < waits[|waits| - 1];
    }
  }

  lemma PassKeepsInv<V>(s: System<V>, task: nat, below: seq<Frame>, key: Key, ttl: real, waits: seq<nat>, at: real)
    requires PassReady(s, task, below, key, ttl, waits)
    ensures Inv(Pass(s, task, below, key, ttl, waits, at))
  {
    var s' := Pass(s, task, below, key, ttl, waits, at);
    hide Pass;
    hide FrameOk;
    hide EntryOk;
    hide PendingOk;
    hide WaitsOk;
    PassShape(s, task, below, key, ttl, waits, at);
    forall k | k in s'.store.entries ensures EntryOk(s', k) {
      PassEntry(s, task, below, key, ttl, waits, at, k);
    }
    forall t, d | t in s'.stacks && 0 <= d < |s'.stacks[t]| ensures FrameOk(s', t, d) {
      PassFrames(s, task, below, key, ttl, waits, at, t, d);
    }
    forall f | 0 <= f < |s'.births| ensures PendingOk(s', f) {
      PassPending(s, task, below, key, ttl, waits, at, f);
    }
  }

  /** An owner ends with `outcome`: its future is settled and its entry kept until `expiry` if
      there is a value, or removed if there is none. */
  ghost predicate Settled<V>(s: System<V>, s': System<V>, task: nat, outcome: Future<V>, expiry: real)
    requires WellFormed(s) && Stack(s, task) != []
  {
    var top := Top(Stack(s, task));
    && !outcome.Pending?
    && s'.births == s.births && s'.stacks == s.stacks[task := Below(s.stacks[task])]
    && s'.store.futures == s.store.futures[top.future := outcome]
    && top.key in s.store.entries
    && s'.store.entries ==
         (if outcome.Result? then s.store.entries[top.key := s.store.entries[top.key].(expiresAt := Some(expiry))]
          else s.store.entries - {top.key})
  }

  lemma SettledShape<V>(s: System<V>, s': System<V>, task: nat, outcome: Future<V>, expiry: real)
    requires WellFormed(s) && Stack(s, task) != [] && Settled(s, s', task, outcome, expiry)
    requires s.store.futures[Top(Stack(s, task)).future].Pending?
    ensures WellFormed(s') && Grows(s, s')
  {
    forall t, d | t in s'.stacks && 0 <= d < |s'.stacks[t]| ensures s'.stacks[t][d].future < |s'.births| {
      assert s'.stacks[t][d] == s.stacks[t][d];
    }
  }

  lemma SettledPending<V>(s: System<V>, s': System<V>, task: nat, outcome: Future<V>, expiry: real, f: nat)
    requires WellFormed(s) && WellFormed(s') && Stack(s, task) != [] && Settled(s, s', task, outcome, expiry)
    requires Top(Stack(s, task)).Running?
    requires s.store.entries[Top(Stack(s, task)).key].future == Top(Stack(s, task)).future
    requires s.births[Top(Stack(s, task)).future] == Birth(Top(Stack(s, task)).key, task, |Stack(s, task)| - 1)
    requires f < |s.births| && PendingOk(s, f)
    ensures PendingOk(s', f)
  {
    var b := s.births[f];
    if s'.store.futures[f].Pending? && b.owner == task {
      assert b.depth < |Stack(s, task)| - 1;
    }
  }

  lemma SettledFrames<V>(s: System<V>, s': System<V>, task: nat, outcome: Future<V>, expiry: real, t: nat, d: nat)
    requires WellFormed(s) && WellFormed(s') && Grows(s, s')
    requires Stack(s, task) != [] && Settled(s, s', task, outcome, expiry)
    requires Top(Stack(s, task)).Running? && FrameOk(s, task, |Stack(s, task)| - 1)
    requires t in s'.stacks && d < |s'.stacks[t]| && t in s.stacks && d < |s.stacks[t]| && FrameOk(s, t, d)
    ensures FrameOk(s', t, d)
  {
    assert s'.stacks[t][d] == s.stacks[t][d];
    FrameKept(s, s', t, d);
  }

  lemma SettledKeepsInv<V>(s: System<V>, s': System<V>, task: nat, outcome: Future<V>, expiry: real)
    requires Inv(s) && Stack(s, task) != [] && Top(Stack(s, task)).Running?
    requires Settled(s, s', task, outcome, expiry)
    ensures Inv(s')
  {
    OwnerGuardsHold(s, task);
    SettledShape(s, s', task, outcome, expiry);
    assert FrameOk(s, task, |Stack(s, task)| - 1);
    forall k | k in s'.store.entries ensures EntryOk(s', k) {
      assert EntryOk(s, k);
    }
    forall f | 0 <= f < |s'.births| ensures PendingOk(s', f) {
      SettledPending(s, s', task, outcome, expiry, f);
    }
    forall t, d | t in s'.stacks && 0 <= d < |s'.stacks[t]| ensures FrameOk(s', t, d) {
      SettledFrames(s, s', task, outcome, expiry, t, d);
    }
  }

  /** A waiter leaving, with a value, an exception or cancelled, touches nothing but its own stack. */
  lemma LeavingKeepsInv<V>(s: System<V>, s': System<V>, task: nat)
    requires Inv(s) && Stack(s, task) != [] && Top(Stack(s, task)).Waiting?
    requires s'.births == s.births && s'.store == s.store && s'.stacks == s.stacks[task := Below(s.stacks[task])]
    ensures Inv(s')
  {
    forall t, d | t in s'.stacks && 0 <= d < |s'.stacks[t]|
      ensures s'.stacks[t][d].future < |s'.births| && s'.stacks[t][d] == s.stacks[t][d]
    {
    }
    forall k | k in s'.store.entries ensures EntryOk(s', k) {
      assert EntryOk(s, k);
    }
    forall f | 0 <= f < |s'.births| ensures PendingOk(s', f) {
      assert PendingOk(s, f);
    }
    forall t, d | t in s'.stacks && 0 <= d < |s'.stacks[t]| ensures FrameOk(s', t, d) {
      assert FrameOk(s, t, d);
      FrameKept(s, s', t, d);
    }
  }

  lemma PurgeKeepsInv<V>(s: System<V>, s': System<V>, at: real)
    requires Inv(s)
    requires s'.births == s.births && s'.stacks == s.stacks
    requires s'.store == Store(Live(s.store.entries, at), s.store.futures)
    ensures Inv(s')
  {
    forall k | k in s'.store.entries ensures EntryOk(s', k) {
      assert EntryOk(s, k);
    }
    forall f | 0 <= f < |s'.births| ensures PendingOk(s', f) {
      assert PendingOk(s, f);
      if s.store.futures[f].Pending? { assert EntryOk(s, s.births[f].key); }
    }
    forall t, d | t in s'.stacks && 0 <= d < |s'.stacks[t]| ensures FrameOk(s', t, d) {
      assert FrameOk(s, t, d);
      FrameKept(s, s', t, d);
    }
  }

  lemma NoWaits<V>(s: System<V>, key: Key)
    requires WellFormed(s)
    ensures WaitsOk(s, key, [])
  {
  }

  lemma TopWaits<V>(s: System<V>, task: nat)
    requires Inv(s) && Stack(s, task) != [] && Top(Stack(s, task)).Waiting?
    ensures var top := Top(Stack(s, task));
      top.ttl > 0.0 && top.waits != [] && top.waits[|top.waits| - 1] == top.future && WaitsOk(s, top.key, top.waits)
  {
    assert FrameOk(s, task, |Stack(s, task)| - 1);
  }

  /** Every atomic step of every task keeps the protocol invariant. */
  lemma StepKeepsInv<V>(s: System<V>, a: Action<V>)
    requires Inv(s) && Enabled(s, a)
    ensures Inv(Next(s, a))
  {
    hide Pass;
    hide EntryOk;
    hide PendingOk;
    hide WaitsOk;
    var s' := Next(s, a);
    match a
    case Enter(task, key, ttl, at) =>
      assert WaitsOk(s, key, []) by { NoWaits(s, key); }
      PassKeepsInv(s, task, Stack(s, task), key, ttl, [], at);
    case Wake(task, at) =>
      var top := Top(Stack(s, task));
      TopWaits(s, task);
      if s.store.futures[top.future].OwnerCancelled? {
        BelowIsRunning(s, task);
        PassKeepsInv(s, task, Below(Stack(s, task)), top.key, top.ttl, top.waits, at);
      } else {
        LeavingKeepsInv(s, s', task);
      }
    case CancelWaiter(task, at) => LeavingKeepsInv(s, s', task);
    case Finish(task, v, at) =>
      OwnerGuardsHold(s, task);
      SettledKeepsInv(s, s', task, Result(v), at + Top(Stack(s, task)).ttl);
    case Fail(task, e, at) =>
      OwnerGuardsHold(s, task);
      SettledKeepsInv(s, s', task, Failure(e), 0.0);
    case CancelOwner(task, at) =>
      OwnerGuardsHold(s, task);
      SettledKeepsInv(s, s', task, OwnerCancelled, 0.0);
    case Purge(at) => PurgeKeepsInv(s, s', at);
  }

  lemma BelowIsRunning<V>(s: System<V>, task: nat)
    requires Inv(s) && Stack(s, task) != []
    ensures OnTop(s, task, Below(Stack(s, task))) || Top(Stack(s, task)).Running?
  {
    var below := Below(Stack(s, task));
    if below != [] {
      assert FrameOk(s, task, |below| - 1);
    }
  }
}
