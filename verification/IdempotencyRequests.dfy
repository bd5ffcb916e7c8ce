/** Every call of `execute` is answered for the key it asked for: what the store does, told on the actions of a run.
    */
module IdempotencyRequests {
  import opened Prelude
  import opened Exceptions
  import opened Idempotency
  import opened IdempotencyRuns
  import opened IdempotencyHistory

  /** What a call of `execute` asks for. */
  datatype Request = Request(key: Key, ttl: real)

  function RequestOf(f: Frame): Request {
    Request(f.key, f.ttl)
  }

  function Requests(stack: seq<Frame>): seq<Request> {
    seq(|stack|, d requires 0 <= d < |stack| => RequestOf(stack[d]))
  }

  /** The events a step adds to the log. */
  ghost function Added<V>(s: System<V>, s': System<V>): seq<Event<V>> {
    if s.log <= s'.log then s'.log[|s.log|..] else []
  }

  // ---------------------------------------------------------------- one step

  /** A call for `r` of `task`, on top of the calls `below`, goes on: it runs the operation, or it waits, or it
      is answered at once with a cached value of its key or the re-entry error of its key. */
  ghost predicate GoesOn<V>(s: System<V>, s': System<V>, task: nat, below: seq<Frame>, r: Request, at: real) {
    var stack, added := Stack(s', task), Added(s, s');
    || (&& |stack| == |below| + 1 && Below(stack) == below && RequestOf(Top(stack)) == r
        && added == if Top(stack).Running? then [Started(Top(stack).future, r.key, at)] else [])
    || (&& stack == below && |added| == 1
        && (|| added[0] == Threw(task, r.key, Reentry(r.key))
            || (added[0].Delivered? && added[0].task == task && added[0].key == r.key
                && added[0].status.Replayed? && added[0].at == at)))
  }

  lemma PassGoesOn<V>(s: System<V>, task: nat, below: seq<Frame>, key: Key, ttl: real, waits: seq<nat>, at: real)
    requires WellFormed(s)
    ensures var s' := Pass(s, task, below, key, ttl, waits, at);
      GoesOn(s, s', task, below, Request(key, ttl), at) && s.log <= s'.log
      && forall t :: t != task ==> Stack(s', t) == Stack(s, t)
  {
    var s' := Pass(s, task, below, key, ttl, waits, at);
    assert s.log <= s'.log;
  }

  /** After entering with a key and a time-to-live, the task has one more call open, for just these, or its calls are
      as before and it was answered: with a value cached under this key or the re-entry error of this key. */
  lemma EnterAsksForItsKey<V>(s: System<V>, task: nat, key: Key, ttl: real, at: real)
    requires WellFormed(s) && Enabled(s, Enter(task, key, ttl, at))
    ensures GoesOn(s, Next(s, Enter(task, key, ttl, at)), task, Stack(s, task), Request(key, ttl), at)
  {
    PassGoesOn(s, task, Stack(s, task), key, ttl, [], at);
  }

  /** A woken waiter is told the outcome of the future it waited on, under the key it asked for: the value as joined,
      or the owner's exception. If the owner was cancelled it goes on with its request. */
  lemma WakeAnswers<V>(s: System<V>, task: nat, at: real)
    requires WellFormed(s) && Enabled(s, Wake(task, at))
    ensures var s', top, below := Next(s, Wake(task, at)), Top(Stack(s, task)), Below(Stack(s, task));
      match s.store.futures[top.future]
      case Result(v) =>
        && Stack(s', task) == below && s'.store == s.store
        && Added(s, s') == [Delivered(task, top.future, top.key, v, Joined, at)]
      case Failure(e) =>
        && Stack(s', task) == below && s'.store == s.store
        && Added(s, s') == [Threw(task, top.key, e)]
      case _ => GoesOn(s, s', task, below, RequestOf(top), at)
  {
    var top := Top(Stack(s, task));
    PassGoesOn(s, task, Below(Stack(s, task)), top.key, top.ttl, top.waits, at);
  }

  /** Cancelling a waiter takes away that call and changes nothing else. */
  lemma CancelledWaiterLeavesNoTrace<V>(s: System<V>, task: nat, at: real)
    requires WellFormed(s) && Enabled(s, CancelWaiter(task, at))
    ensures var s' := Next(s, CancelWaiter(task, at));
      && s'.store == s.store && s'.births == s.births && s'.log == s.log
      && Stack(s', task) == Below(Stack(s, task)) && forall t :: t != task ==> Stack(s', t) == Stack(s, t)
  {
  }

  /** The owner's caller gets what the operation did, under the key asked for: its value as executed, with the
      time-to-live asked for on record; its exception; or, cancelled, nothing. */
  lemma OwnerIsAnswered<V>(s: System<V>, a: Action<V>)
    requires WellFormed(s) && Enabled(s, a) && (a.Finish? || a.Fail? || a.CancelOwner?)
    ensures var s', top := Next(s, a), Top(Stack(s, a.task));
      && Stack(s', a.task) == Below(Stack(s, a.task))
      && Added(s, s') ==
         match a
         case Finish(task, v, at) =>
           [Succeeded(top.future, top.key, v, top.ttl, at), Delivered(task, top.future, top.key, v, Executed, at)]
         case Fail(task, e, _) => [Failed(top.future, top.key, e), Threw(task, top.key, e)]
         case _ => [Abandoned(top.future, top.key)]
  {
  }

  // ---------------------------------------------------------------- whole runs

  predicate IsAnswer<V>(e: Event<V>, task: nat) {
    (e.Delivered? || e.Threw?) && e.task == task
  }

  /** The action ends a call of `task`: it cancels one, or an answer to the task is logged. */
  predicate EndsCall<V>(a: Action<V>, added: seq<Event<V>>, task: nat) {
    || ((a.CancelWaiter? || a.CancelOwner?) && a.task == task)
    || exists k :: 0 <= k < |added| && IsAnswer(added[k], task)
  }

  /** The requests a task has open while action `i` is taken: those before it, and its own if it enters. */
  function Asked<V>(before: seq<Request>, a: Action<V>, task: nat): seq<Request> {
    if a.Enter? && a.task == task then before + [Request(a.key, a.ttl)] else before
  }

  /** The requests of `task` still open before action `i`, from the actions and the log: every call it entered, in
      order, without those that were answered or cancelled, always the latest. */
  ghost function OpenRequests<V>(ss: seq<System<V>>, acts: seq<Action<V>>, i: nat, task: nat): seq<Request>
    requires i <= |acts| && |ss| == |acts| + 1
  {
    if i == 0 then []
    else
      var asked := Asked(OpenRequests(ss, acts, i - 1, task), acts[i - 1], task);
      if asked != [] && EndsCall(acts[i - 1], Added(ss[i - 1], ss[i]), task) then asked[..|asked| - 1] else asked
  }

  /** What one step does to the requests of a task, and what its events say about the latest one. */
  ghost predicate StepAnswers<V>(s: System<V>, a: Action<V>, s': System<V>, task: nat) {
    var asked, added := Asked(Requests(Stack(s, task)), a, task), Added(s, s');
    && s.log <= s'.log
    && (EndsCall(a, added, task) ==> asked != [])
    && Requests(Stack(s', task)) == (if EndsCall(a, added, task) then asked[..|asked| - 1] else asked)
    && (forall k :: 0 <= k < |added| ==> !a.Purge? && EventFits(added[k], a))
    && (!a.Purge? && a.task == task && added != [] ==> asked != [] && forall k :: 0 <= k < |added| ==>
          added[k].key == asked[|asked| - 1].key
          && (added[k].Succeeded? ==> added[k].ttl == asked[|asked| - 1].ttl))
  }

  /** Answers go to the task that acts, and ends of executions say what the action says. */
  ghost predicate EventFits<V>(e: Event<V>, a: Action<V>)
    requires !a.Purge?
  {
    match e
    case Started(_, _, at) => (a.Enter? || a.Wake?) && at == a.at
    case Succeeded(_, _, v, _, at) => a.Finish? && v == a.value && at == a.at
    case Failed(_, _, error) => a.Fail? && error == a.error
    case Abandoned(_, _) => a.CancelOwner?
    case Delivered(task, _, _, v, status, at) =>
      && task == a.task && at == a.at
      && (match status
          case Executed => a.Finish? && v == a.value
          case Joined => a.Wake?
          case Replayed => a.Enter? || a.Wake?)
    case Threw(task, key, error) =>
      && task == a.task
      && (a.Fail? ==> error == a.error) && (a.Enter? ==> error == Reentry(key))
      && (a.Fail? || a.Enter? || a.Wake?)
  }

  lemma RequestsParts(stack: seq<Frame>)
    requires stack != []
    ensures Requests(stack) == Requests(Below(stack)) + [RequestOf(Top(stack))]
    ensures Requests(stack)[..|stack| - 1] == Requests(Below(stack))
  {
  }

  /** The latest request stays open: nothing is logged, or the start of its execution. */
  lemma StaysOpen<V>(s: System<V>, a: Action<V>, s': System<V>, f: nat)
    requires (a.Enter? || a.Wake?) && s.log <= s'.log
    requires Requests(Stack(s', a.task)) == Asked(Requests(Stack(s, a.task)), a, a.task) != []
    requires var asked := Asked(Requests(Stack(s, a.task)), a, a.task);
      Added(s, s') == [] || Added(s, s') == [Started(f, asked[|asked| - 1].key, a.at)]
    ensures StepAnswers(s, a, s', a.task)
  {
    hide Requests;
    hide Stack;
    hide Added;
    hide Asked;
    assert !EndsCall(a, Added(s, s'), a.task);
  }

  /** The latest request is answered, by one event. */
  lemma IsAnsweredAtOnce<V>(s: System<V>, a: Action<V>, s': System<V>)
    requires (a.Enter? || a.Wake?) && s.log <= s'.log
    requires var asked := Asked(Requests(Stack(s, a.task)), a, a.task);
      && asked != [] && Requests(Stack(s', a.task)) == asked[..|asked| - 1]
      && |Added(s, s')| == 1 && IsAnswer(Added(s, s')[0], a.task) && EventFits(Added(s, s')[0], a)
      && Added(s, s')[0].key == asked[|asked| - 1].key
    ensures StepAnswers(s, a, s', a.task)
  {
    hide Requests;
    hide Stack;
    hide Added;
    hide Asked;
    hide EventFits;
    assert EndsCall(a, Added(s, s'), a.task);
  }

  lemma GoingOnAnswers<V>(s: System<V>, a: Action<V>, s': System<V>, below: seq<Frame>, r: Request)
    requires a.Enter? || a.Wake?
    requires GoesOn(s, s', a.task, below, r, a.at) && s.log <= s'.log
    requires Asked(Requests(Stack(s, a.task)), a, a.task) == Requests(below) + [r]
    ensures StepAnswers(s, a, s', a.task)
  {
    var stack, added := Stack(s', a.task), Added(s, s');
    var open := |stack| == |below| + 1 && Below(stack) == below && RequestOf(Top(stack)) == r;
    hide Added;
    hide Requests;
    hide Stack;
    hide Asked;
    hide StepAnswers;
    if open && added == (if Top(stack).Running? then [Started(Top(stack).future, r.key, a.at)] else []) {
      RequestsParts(stack);
      StaysOpen(s, a, s', Top(stack).future);
    } else {
      RequestsSize(below);
      assert (Requests(below) + [r])[..|below|] == Requests(below);
      assert IsAnswer(added[0], a.task) && EventFits(added[0], a);
      IsAnsweredAtOnce(s, a, s');
    }
  }

  lemma RequestsSize(stack: seq<Frame>)
    ensures |Requests(stack)| == |stack|
  {
  }

  lemma EndingAnswers<V>(s: System<V>, a: Action<V>, s': System<V>)
    requires !a.Enter? && !a.Purge? && Stack(s, a.task) != []
    requires Stack(s', a.task) == Below(Stack(s, a.task)) && s.log <= s'.log
    requires EndsCall(a, Added(s, s'), a.task)
    requires forall k :: 0 <= k < |Added(s, s')| ==>
      var e, top := Added(s, s')[k], Top(Stack(s, a.task));
      EventFits(e, a) && e.key == top.key && (e.Succeeded? ==> e.ttl == top.ttl)
    ensures StepAnswers(s, a, s', a.task)
  {
    RequestsParts(Stack(s, a.task));
  }

  lemma OwnStepAnswers<V>(s: System<V>, a: Action<V>)
    requires WellFormed(s) && Enabled(s, a) && !a.Purge?
    ensures StepAnswers(s, a, Next(s, a), a.task)
  {
    var s', task := Next(s, a), a.task;
    var stack := Stack(s, task);
    hide StepAnswers;
    match a {
      case Enter(_, key, ttl, at) =>
        PassGoesOn(s, task, stack, key, ttl, [], at);
        GoingOnAnswers(s, a, s', stack, Request(key, ttl));
      case Wake(_, at) => WokenStepAnswers(s, task, at);
      case CancelWaiter(_, at) => EndingAnswers(s, a, s');
      case CancelOwner(_, _) => OwnerStepAnswers(s, a);
      case Finish(_, _, _) => OwnerStepAnswers(s, a);
      case Fail(_, _, _) => OwnerStepAnswers(s, a);
    }
  }

  lemma WokenStepAnswers<V>(s: System<V>, task: nat, at: real)
    requires WellFormed(s) && Enabled(s, Wake(task, at))
    ensures StepAnswers(s, Wake(task, at), Next(s, Wake(task, at)), task)
  {
    var a: Action<V> := Wake(task, at);
    var s', stack := Next(s, a), Stack(s, task);
    hide StepAnswers;
    WakeAnswers(s, task, at);
    if s.store.futures[Top(stack).future].OwnerCancelled? {
      PassGoesOn(s, task, Below(stack), Top(stack).key, Top(stack).ttl, Top(stack).waits, at);
      RequestsParts(stack);
      GoingOnAnswers(s, a, s', Below(stack), RequestOf(Top(stack)));
    } else {
      assert IsAnswer(Added(s, s')[0], task);
      EndingAnswers(s, a, s');
    }
  }

  lemma OwnerStepAnswers<V>(s: System<V>, a: Action<V>)
    requires WellFormed(s) && Enabled(s, a) && (a.Finish? || a.Fail? || a.CancelOwner?)
    ensures StepAnswers(s, a, Next(s, a), a.task)
  {
    var s' := Next(s, a);
    hide StepAnswers;
    OwnerIsAnswered(s, a);
    assert s.log <= s'.log;
    if !a.CancelOwner? { assert IsAnswer(Added(s, s')[1], a.task); }
    EndingAnswers(s, a, s');
  }

  /** A step leaves the calls of other tasks alone. */
  lemma OthersAreLeftAlone<V>(s: System<V>, a: Action<V>, task: nat)
    requires WellFormed(s) && Enabled(s, a) && (a.Purge? || a.task != task)
    ensures Stack(Next(s, a), task) == Stack(s, task)
    ensures a.Purge? ==> Next(s, a).log == s.log
  {
    if a.Enter? {
      PassGoesOn(s, a.task, Stack(s, a.task), a.key, a.ttl, [], a.at);
      hide Pass;
    } else if a.Wake? {
      var top := Top(Stack(s, a.task));
      PassGoesOn(s, a.task, Below(Stack(s, a.task)), top.key, top.ttl, top.waits, a.at);
      hide Pass;
    }
  }

  lemma OthersHearNothing<V>(s: System<V>, a: Action<V>, s': System<V>, task: nat)
    requires a.Purge? || a.task != task
    requires Stack(s', task) == Stack(s, task) && (a.Purge? ==> s'.log == s.log)
    requires !a.Purge? ==> StepAnswers(s, a, s', a.task)
    ensures StepAnswers(s, a, s', task)
  {
    hide Requests;
    hide Stack;
    if a.Purge? {
      assert Added(s, s') == [];
    } else {
      hide Added;
      hide EventFits;
      var added := Added(s, s');
      forall k | 0 <= k < |added| && IsAnswer(added[k], task) ensures false {
        AnswersGoToActor(added[k], a, task);
      }
    }
  }

  lemma AnswersGoToActor<V>(e: Event<V>, a: Action<V>, task: nat)
    requires !a.Purge? && EventFits(e, a) && IsAnswer(e, task)
    ensures task == a.task
  {
  }

  lemma EveryStepAnswers<V>(s: System<V>, a: Action<V>, task: nat)
    requires WellFormed(s) && Enabled(s, a)
    ensures StepAnswers(s, a, Next(s, a), task)
  {
    hide Next;
    hide StepAnswers;
    hide WellFormed;
    hide Enabled;
    if !a.Purge? { OwnStepAnswers(s, a); }
    if a.Purge? || a.task != task {
      OthersAreLeftAlone(s, a, task);
      OthersHearNothing(s, a, Next(s, a), task);
    }
  }

  /** The calls a task has in progress are exactly its requests not answered yet. */
  lemma {:induction false} OpenRequestsAreCalls<V>(ss: seq<System<V>>, acts: seq<Action<V>>, i: nat, task: nat)
    requires IsRun(ss, acts) && i <= |acts|
    ensures OpenRequests(ss, acts, i, task) == Requests(Stack(ss[i], task))
  {
    hide *;
    RunShape(ss, acts, i);
    if i > 0 {
      OpenRequestsAreCalls(ss, acts, i - 1, task);
      RunStep(ss, acts, i - 1);
      EveryStepAnswers(ss[i - 1], acts[i - 1], task);
      StepMovesRequests(ss[i - 1], acts[i - 1], ss[i], task);
      OpenRequestsStep(ss, acts, i, task);
    } else {
      NothingOpen(ss, acts, task);
    }
  }

  lemma RunShape<V>(ss: seq<System<V>>, acts: seq<Action<V>>, i: nat)
    requires IsRun(ss, acts) && i <= |acts|
    ensures |ss| == |acts| + 1
  {
  }

  lemma RunStep<V>(ss: seq<System<V>>, acts: seq<Action<V>>, i: nat)
    requires IsRun(ss, acts) && i < |acts|
    ensures |ss| == |acts| + 1 && WellFormed(ss[i]) && Enabled(ss[i], acts[i]) && ss[i + 1] == Next(ss[i], acts[i])
  {
    hide Next;
    hide Enabled;
    ReachableInv(ss, acts, i);
  }

  lemma OpenRequestsStep<V>(ss: seq<System<V>>, acts: seq<Action<V>>, i: nat, task: nat)
    requires |ss| == |acts| + 1 && 1 <= i <= |acts|
    ensures var asked := Asked(OpenRequests(ss, acts, i - 1, task), acts[i - 1], task);
      OpenRequests(ss, acts, i, task) ==
        if asked != [] && EndsCall(acts[i - 1], Added(ss[i - 1], ss[i]), task) then asked[..|asked| - 1] else asked
  {
    hide Added;
    hide EndsCall;
    hide Asked;
  }

  lemma NothingOpen<V>(ss: seq<System<V>>, acts: seq<Action<V>>, task: nat)
    requires IsRun(ss, acts)
    ensures |ss| == |acts| + 1 && Requests(Stack(ss[0], task)) == [] == OpenRequests(ss, acts, 0, task)
  {
  }

  lemma StepMovesRequests<V>(s: System<V>, a: Action<V>, s': System<V>, task: nat)
    requires StepAnswers(s, a, s', task)
    ensures var asked := Asked(Requests(Stack(s, task)), a, task);
      Requests(Stack(s', task)) ==
        if asked != [] && EndsCall(a, Added(s, s'), task) then asked[..|asked| - 1] else asked
  {
    hide Requests;
    hide Stack;
    hide Asked;
    hide Added;
    hide EndsCall;
  }

  /** The step that wrote an event of the log. */
  lemma {:induction false} WrittenBy<V>(ss: seq<System<V>>, acts: seq<Action<V>>, n: nat, j: nat) returns (i: nat,
      k: nat)
    requires IsRun(ss, acts) && n <= |acts| && j < |ss[n].log|
    ensures i < n && k < |Added(ss[i], ss[i + 1])| && Added(ss[i], ss[i + 1])[k] == ss[n].log[j]
    ensures |ss[i].log| + k == j < |ss[i + 1].log|
  {
    hide *;
    RunShape(ss, acts, n);
    if n == 0 { NothingLogged(ss, acts); }
    RunStep(ss, acts, n - 1);
    StepLogs(ss[n - 1], acts[n - 1]);
    if j < |ss[n - 1].log| {
      i, k := WrittenBy(ss, acts, n - 1, j);
    } else {
      i, k := n - 1, j - |ss[n - 1].log|;
    }
  }

  lemma NothingLogged<V>(ss: seq<System<V>>, acts: seq<Action<V>>)
    requires IsRun(ss, acts)
    ensures |ss| == |acts| + 1 && ss[0].log == []
  {
  }

  /** A step only adds to the log. */
  lemma StepLogs<V>(s: System<V>, a: Action<V>)
    requires WellFormed(s) && Enabled(s, a)
    ensures var s' := Next(s, a);
      s.log <= s'.log && Added(s, s') == s'.log[|s.log|..]
  {
    hide Next;
    hide Enabled;
    EveryStepAnswers(s, a, 0);
  }

  /** Every event of the log is about the latest open request of the task that acted: it names the key asked
      for, a success also the time-to-live asked for, and an answer goes to that task. */
  lemma EventsAnswerRequests<V>(ss: seq<System<V>>, acts: seq<Action<V>>, n: nat, j: nat) returns (i: nat)
    requires IsRun(ss, acts) && n <= |acts| && j < |ss[n].log|
    ensures i < n && !acts[i].Purge? && EventFits(ss[n].log[j], acts[i]) && |ss[i].log| <= j < |ss[i + 1].log|
    ensures var asked := Asked(OpenRequests(ss, acts, i, acts[i].task), acts[i], acts[i].task);
      && asked != []
      && ss[n].log[j].key == asked[|asked| - 1].key
      && (ss[n].log[j].Succeeded? ==> ss[n].log[j].ttl == asked[|asked| - 1].ttl)
  {
    hide *;
    var k;
    i, k := WrittenBy(ss, acts, n, j);
    RunStep(ss, acts, i);
    EventIsAnswer(ss[i], acts[i], k);
    OpenRequestsAreCalls(ss, acts, i, acts[i].task);
  }

  /** An event a step adds fits its action and the latest request of the task that acts. */
  lemma EventIsAnswer<V>(s: System<V>, a: Action<V>, k: nat)
    requires WellFormed(s) && Enabled(s, a) && k < |Added(s, Next(s, a))|
    ensures !a.Purge? && EventFits(Added(s, Next(s, a))[k], a)
    ensures var asked, e := Asked(Requests(Stack(s, a.task)), a, a.task), Added(s, Next(s, a))[k];
      asked != [] && e.key == asked[|asked| - 1].key && (e.Succeeded? ==> e.ttl == asked[|asked| - 1].ttl)
  {
    hide *;
    EveryStepAnswers(s, a, 0);
    EventsFit(s, a, Next(s, a), 0, k);
    EveryStepAnswers(s, a, a.task);
    EventsFit(s, a, Next(s, a), a.task, k);
  }

  lemma EventsFit<V>(s: System<V>, a: Action<V>, s': System<V>, task: nat, k: nat)
    requires StepAnswers(s, a, s', task) && k < |Added(s, s')|
    ensures !a.Purge? && EventFits(Added(s, s')[k], a)
    ensures a.task == task ==>
      var asked, e := Asked(Requests(Stack(s, task)), a, task), Added(s, s')[k];
      asked != [] && e.key == asked[|asked| - 1].key && (e.Succeeded? ==> e.ttl == asked[|asked| - 1].ttl)
  {
    hide Added;
    hide Requests;
    hide Stack;
    hide Asked;
    hide EventFits;
    hide EndsCall;
    var asked, added := Asked(Requests(Stack(s, task)), a, task), Added(s, s');
    var e := added[k];
    assert !a.Purge? && EventFits(added[k], a);
    if a.task == task {
      assert added != [] && asked != [];
      assert added[k].key == asked[|asked| - 1].key;
    }
  }

  /** The request a step is about. */
  ghost function LatestRequest<V>(ss: seq<System<V>>, acts: seq<Action<V>>, i: nat): Option<Request>
    requires i < |acts| && |ss| == |acts| + 1
  {
    if acts[i].Purge? then None
    else
      var asked := Asked(OpenRequests(ss, acts, i, acts[i].task), acts[i], acts[i].task);
      if asked == [] then None else Some(asked[|asked| - 1])
  }

  /** From request to source: a value delivered to a task answers its latest open request, and it is the value
      that an operation returned which was entered for the same key; if it is replayed, strictly before
      that moment plus the time-to-live that request had asked for. */
  lemma CallersGetTheirKey<V>(ss: seq<System<V>>, acts: seq<Action<V>>, n: nat, j: nat) returns (asker: nat,
      source: nat)
    requires IsRun(ss, acts) && n <= |acts| && j < |ss[n].log| && ss[n].log[j].Delivered?
    ensures source <= asker < n && !acts[asker].Purge? && acts[asker].task == ss[n].log[j].task
    ensures acts[source].Finish? && acts[source].value == ss[n].log[j].value
    ensures var mine, theirs := LatestRequest(ss, acts, asker), LatestRequest(ss, acts, source);
      && mine.Some? && theirs.Some? && mine.value.key == theirs.value.key
      && (ss[n].log[j].status.Replayed? ==> acts[asker].at < acts[source].at + theirs.value.ttl)
  {
    hide Inv;
    hide Next;
    hide WellFormed;
    hide OpenRequests;
    hide Added;
    hide IsRun;
    HasSize(ss, acts, n);
    var j' := SharedValueHasOneSource(ss, acts, n, j);
    asker := EventsAnswerRequests(ss, acts, n, j);
    source := EventsAnswerRequests(ss, acts, n, j');
    if asker < source { LogsGrow(ss, acts, asker + 1, source); }
  }

  lemma HasSize<V>(ss: seq<System<V>>, acts: seq<Action<V>>, n: nat)
    requires IsRun(ss, acts)
    ensures |ss| == |acts| + 1
  {
  }

  lemma {:induction false} LogsGrow<V>(ss: seq<System<V>>, acts: seq<Action<V>>, m: nat, n: nat)
    requires IsRun(ss, acts) && m <= n <= |acts|
    ensures |ss[m].log| <= |ss[n].log|
    decreases n
  {
    if m < n {
      LogsGrow(ss, acts, m, n - 1);
      ReachableInv(ss, acts, n - 1);
      EveryStepAnswers(ss[n - 1], acts[n - 1], 0);
    }
  }

  /** What a call finds when it enters: it runs the operation exactly if nothing unexpired is filed under its key,
      joins a run of another task, is refused inside its own, and is given a cached value without waiting. */
  lemma EnterDecides<V>(s: System<V>, task: nat, key: Key, ttl: real, at: real)
    requires Inv(s) && Enabled(s, Enter(task, key, ttl, at))
    ensures var s', stack, live := Next(s, Enter(task, key, ttl, at)), Stack(s, task), Live(s.store.entries, at);
      if key !in live then
        && Stack(s', task) == stack + [Running(key, |s.births|, ttl)]
        && s'.births == s.births + [Birth(key, task, |stack|)]
      else if s.store.futures[live[key].future].Result? then
        && Stack(s', task) == stack
        && Added(s, s') ==
             [Delivered(task, live[key].future, key, s.store.futures[live[key].future].value, Replayed, at)]
      else if exists d :: 0 <= d < |stack| && stack[d].key == key then
        Stack(s', task) == stack && Added(s, s') == [Threw(task, key, Reentry(key))]
      else
        Stack(s', task) == stack + [Waiting(key, live[key].future, ttl, [live[key].future])] && Added(s, s') == []
  {
    ReentryIffRunning(s, task, Stack(s, task), key, at);
    if key in s.store.entries {
      assert EntryOk(s, key);
      assert [] + [s.store.entries[key].future] == [s.store.entries[key].future];
    }
  }

  // ---------------------------------------------------------------- where exceptions come from

  /** A logged failure settled its future with its exception. */
  ghost predicate FailureOk<V>(s: System<V>, j: nat)
    requires WellFormed(s) && j < |s.log| && s.log[j].Failed?
  {
    && s.log[j].future < |s.births| && s.births[s.log[j].future].key == s.log[j].key
    && s.store.futures[s.log[j].future] == Failure(s.log[j].error)
  }

  ghost predicate Raised<V>(log: seq<Event<V>>, f: nat, k: Key, e: Exn) {
    exists j :: 0 <= j < |log| && log[j].Failed? && log[j].future == f && log[j].key == k && log[j].error == e
  }

  /** Failures in the log and futures holding exceptions correspond. */
  ghost predicate FailuresOk<V>(s: System<V>)
    requires WellFormed(s)
  {
    && (forall j :: 0 <= j < |s.log| && s.log[j].Failed? ==> FailureOk(s, j))
    && (forall f :: 0 <= f < |s.births| && s.store.futures[f].Failure? ==>
          Raised(s.log, f, s.births[f].key, s.store.futures[f].error))
  }

  lemma FailureKept<V>(s: System<V>, s': System<V>, e: Effect<V>, j: nat)
    requires WellFormed(s) && WellFormed(s') && Has(s, s', e)
    requires j < |s'.log| && s'.log[j].Failed? && (j < |s.log| ==> s.log[j].Failed? && FailureOk(s, j))
    ensures FailureOk(s', j)
  {
    assert j < |s.log| ==> s'.log[j] == s.log[j];
  }

  lemma RaisedKept<V>(s: System<V>, s': System<V>, e: Effect<V>, f: nat)
    requires WellFormed(s) && WellFormed(s') && Has(s, s', e) && f < |s'.births| && s'.store.futures[f].Failure?
    requires f < |s.births| && s.store.futures[f].Failure? ==>
      Raised(s.log, f, s.births[f].key, s.store.futures[f].error)
    ensures Raised(s'.log, f, s'.births[f].key, s'.store.futures[f].error)
  {
    assert s.log <= s'.log;
    if f < |s.births| && s.store.futures[f].Failure? {
      var j :| 0 <= j < |s.log| && s.log[j].Failed? && s.log[j].future == f && s.log[j].key == s.births[f].key
        && s.log[j].error == s.store.futures[f].error;
      assert s'.log[j] == s.log[j];
    } else {
      assert s'.log[|s.log|].Failed?;
    }
  }

  lemma {:induction false} ReachableFailures<V>(ss: seq<System<V>>, acts: seq<Action<V>>, i: nat)
    requires IsRun(ss, acts) && i <= |acts|
    ensures WellFormed(ss[i]) && FailuresOk(ss[i])
  {
    ReachableInv(ss, acts, i);
    if i > 0 {
      ReachableFailures(ss, acts, i - 1);
      ReachableInv(ss, acts, i - 1);
      var s, s' := ss[i - 1], ss[i];
      var e := StepEffect(s, acts[i - 1]);
      hide Next;
      hide Has;
      hide FailureOk;
      hide Raised;
      LogKept(s, s', e);
      forall j | 0 <= j < |s'.log| && s'.log[j].Failed? ensures FailureOk(s', j) {
        FailureKept(s, s', e, j);
      }
      forall f | 0 <= f < |s'.births| && s'.store.futures[f].Failure?
        ensures Raised(s'.log, f, s'.births[f].key, s'.store.futures[f].error)
      {
        RaisedKept(s, s', e, f);
      }
    }
  }

  lemma LogKept<V>(s: System<V>, s': System<V>, e: Effect<V>)
    requires WellFormed(s) && Has(s, s', e)
    ensures s.log <= s'.log
    ensures forall j :: 0 <= j < |s.log| ==> s'.log[j] == s.log[j]
  {
  }

  /** The exception a joined caller is given is the one its owner's operation raised: the failure on record for
      the very future it waited on, under the key it asked for, and that failure has no other exception. */
  lemma JoinedErrorIsOwners<V>(ss: seq<System<V>>, acts: seq<Action<V>>, i: nat) returns (j: nat, source: nat)
    requires IsRun(ss, acts) && i < |acts| && acts[i].Wake?
    requires Enabled(ss[i], acts[i]) && ss[i].store.futures[Top(Stack(ss[i], acts[i].task)).future].Failure?
    ensures var top := Top(Stack(ss[i], acts[i].task));
      && j < |ss[i].log| && ss[i].log[j].Failed?
      && ss[i].log[j].future == top.future && ss[i].log[j].key == top.key
      && Added(ss[i], ss[i + 1]) == [Threw(acts[i].task, top.key, ss[i].log[j].error)]
      && forall k :: 0 <= k < |ss[i].log| && ss[i].log[k].Failed? && ss[i].log[k].future == top.future ==>
           ss[i].log[k].error == ss[i].log[j].error
    ensures source < i && acts[source].Fail? && acts[source].error == ss[i].log[j].error
    ensures LatestRequest(ss, acts, source).Some? && LatestRequest(ss, acts, source).value.key == ss[i].log[j].key
  {
    var s, task := ss[i], acts[i].task;
    RunStep(ss, acts, i);
    ReachableInv(ss, acts, i);
    ReachableFailures(ss, acts, i);
    WakeAnswers(s, task, acts[i].at);
    hide *;
    WakeNeedsWaiter(s, task, acts[i].at);
    j := FailureOnRecord(s, task);
    source := EventsAnswerRequests(ss, acts, i, j);
  }

  lemma WakeNeedsWaiter<V>(s: System<V>, task: nat, at: real)
    requires Enabled(s, Wake(task, at))
    ensures Stack(s, task) != [] && Top(Stack(s, task)).Waiting? && Top(Stack(s, task)).future < |s.store.futures|
  {
  }

  /** The failure of the future a task waits on is on record, with one exception, under the key it waits for. */
  lemma FailureOnRecord<V>(s: System<V>, task: nat) returns (j: nat)
    requires Inv(s) && WellFormed(s) && FailuresOk(s) && Stack(s, task) != [] && Top(Stack(s, task)).Waiting?
    requires Top(Stack(s, task)).future < |s.store.futures| && s.store.futures[Top(Stack(s, task)).future].Failure?
    ensures var top := Top(Stack(s, task));
      && j < |s.log| && s.log[j].Failed? && s.log[j].future == top.future && s.log[j].key == top.key
      && s.log[j].error == s.store.futures[top.future].error
      && forall k :: 0 <= k < |s.log| && s.log[k].Failed? && s.log[k].future == top.future ==>
           s.log[k].error == s.log[j].error
  {
    assert FrameOk(s, task, |Stack(s, task)| - 1);
    hide EntryOk;
    hide PendingOk;
    hide WaitsOk;
    var top := Top(Stack(s, task));
    assert Raised(s.log, top.future, s.births[top.future].key, s.store.futures[top.future].error);
    j :| 0 <= j < |s.log| && s.log[j].Failed? && s.log[j].future == top.future && s.log[j].key == top.key
      && s.log[j].error == s.store.futures[top.future].error;
    forall k | 0 <= k < |s.log| && s.log[k].Failed? && s.log[k].future == top.future
      ensures s.log[k].error == s.log[j].error
    {
      assert FailureOk(s, k);
    }
  }

  // ---------------------------------------------------------------- what can happen next

  /** Nothing stands in the way of a task: one that is idle or runs an operation may ask for any key, a running
      operation may return, raise or be cancelled, a waiter may be cancelled, and it is woken exactly once its future
      is done. */
  lemma WhoMayAct<V>(s: System<V>, task: nat, key: Key, ttl: real, v: V, e: Exn, at: real)
    requires s.now <= at && (Stack(s, task) != [] ==> Top(Stack(s, task)).future < |s.store.futures|)
    ensures Enabled(s, Enter(task, key, ttl, at)) <==>
      ttl > 0.0 && (Stack(s, task) == [] || Top(Stack(s, task)).Running?)
    ensures var runs := Stack(s, task) != [] && Top(Stack(s, task)).Running?;
      Enabled(s, Finish(task, v, at)) == Enabled(s, Fail(task, e, at)) == Enabled(s, CancelOwner(task, at)) == runs
    ensures var waits := Stack(s, task) != [] && Top(Stack(s, task)).Waiting?;
      && Enabled(s, CancelWaiter(task, at)) == waits
      && (Enabled(s, Wake(task, at)) <==> waits && !s.store.futures[Top(Stack(s, task)).future].Pending?)
    ensures Enabled(s, Purge(at))
  {
  }
}
