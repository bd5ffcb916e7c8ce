/** Reading the whole history page by page, alone or while others append and delete. */
module EventPaging {
  import opened Prelude
  import opened Timestamps
  import opened EventStore

  datatype Table<+P> = Table(rows: seq<Stored<P>>, lastId: nat) {
    predicate Valid() {
      Ordered(rows, lastId)
    }
  }

  /** Retention deletes exactly the events before the cutoff; the others keep their ids and order. */
  lemma DeletionIsExact<P>(t: Table<P>, cutoff: Timestamp, s: Stored<P>)
    requires t.Valid() && cutoff.Valid() && s.event.at.Valid()
    ensures s in Since(t.rows, cutoff) <==> s in t.rows && !(Instant(s.event.at) < Instant(cutoff))
    ensures Ordered(Since(t.rows, cutoff), t.lastId)
  {
    var keep := (x: Stored<P>) => x.event.at.Valid() && Instant(x.event.at) >= Instant(cutoff);
    FilterMembers(t.rows, keep, s);
    FilterKeepsOrder(t.rows, keep, t.lastId);
  }

  lemma MatchingExactly<P>(rows: seq<Stored<P>>, q: Query, after: int, lastId: nat, s: Stored<P>)
    requires Ordered(rows, lastId)
    ensures s in Matching(rows, q, after) <==> s in rows && Matches(q, s) && s.id > after
    ensures Ordered(Matching(rows, q, after), lastId)
  {
    var keep := (x: Stored<P>) => Matches(q, x) && x.id > after;
    FilterMembers(rows, keep, s);
    FilterKeepsOrder(rows, keep, lastId);
  }

  /** Filtering twice is filtering by both. */
  lemma {:induction false} FilterTwice<T>(xs: seq<T>, p: T -> bool, r: T -> bool, both: T -> bool)
    requires forall i :: 0 <= i < |xs| ==> (both(xs[i]) <==> p(xs[i]) && r(xs[i]))
    ensures Filter(Filter(xs, p), r) == Filter(xs, both)
  {
    if xs != [] {
      var init, last := xs[..|xs| - 1], xs[|xs| - 1];
      FilterTwice(init, p, r, both);
      var kept := Filter(init, p);
      assert (kept + [last])[..|kept|] == kept && kept + [] == kept;
      assert Filter(xs, p) == if p(last) then kept + [last] else kept;
      assert Filter(kept + [last], r) == Filter(kept, r) + (if r(last) then [last] else []);
      assert Filter(xs, both) == Filter(init, both) + (if both(last) then [last] else []);
      assert both(xs[|xs| - 1]) <==> p(xs[|xs| - 1]) && r(xs[|xs| - 1]);
    }
  }

  /** In an ordered list, keeping the ids above the one at place `k - 1` drops the first `k`. */
  lemma {:induction false} AboveIsSuffix<P>(all: seq<Stored<P>>, k: nat, lastId: nat)
    requires Ordered(all, lastId) && 1 <= k <= |all|
    ensures Filter(all, (x: Stored<P>) => x.id > all[k - 1].id) == all[k..]
  {
    var limit := all[k - 1].id;
    SuffixUpTo(all, k, |all|, lastId);
    assert all[..|all|] == all;
  }

  lemma {:induction false} SuffixUpTo<P>(all: seq<Stored<P>>, k: nat, n: nat, lastId: nat)
    requires Ordered(all, lastId) && 1 <= k <= |all| && n <= |all|
    ensures Filter(all[..n], (x: Stored<P>) => x.id > all[k - 1].id) == if n <= k then [] else all[k..n]
  {
    if n > 0 {
      assert all[..n][..n - 1] == all[..n - 1];
      SuffixUpTo(all, k, n - 1, lastId);
    }
  }

  lemma NextMatching<P>(t: Table<P>, q: Query, after: int, k: nat)
    requires t.Valid() && 1 <= k <= |Matching(t.rows, q, after)|
    ensures Matching(t.rows, q, Matching(t.rows, q, after)[k - 1].id) == Matching(t.rows, q, after)[k..]
  {
    var all := Matching(t.rows, q, after);
    var limit := all[k - 1].id;
    var keep := (x: Stored<P>) => Matches(q, x) && x.id > after;
    var above := (x: Stored<P>) => x.id > limit;
    FilterMembers(t.rows, keep, all[k - 1]);
    MatchingExactly(t.rows, q, after, t.lastId, all[k - 1]);
    AboveIsSuffix(all, k, t.lastId);
    assert all[k - 1] in all;
    FilterTwice(t.rows, keep, above, (x: Stored<P>) => Matches(q, x) && x.id > limit);
  }

  // ---------------------------------------------------------------- a quiet table

  /** The request can be answered: if it names an operation, not with white space only. */
  predicate Answerable(q: Query) {
    q.operation.Some? ==> !Blank(q.operation.value)
  }

  lemma {:induction false} NoKindsNoMatch<P>(table: seq<Stored<P>>, q: Query, after: int)
    requires q.kinds == Some([])
    ensures Matching(table, q, after) == []
  {
    if table != [] { NoKindsNoMatch(table[..|table| - 1], q, after); }
  }

  /** The answer to a request for the events after an id is a page of the matching ones. */
  lemma AnswerIsPage<P>(t: Table<P>, q: Query, after: nat, limit: nat)
    requires limit >= 1 && Answerable(q)
    ensures AnswerTo(t.rows, q, Some(after), limit) == Rows(Page(t.rows, q, after, limit))
  {
    if q.kinds == Some([]) { NoKindsNoMatch(t.rows, q, after); }
  }

  /** Asking for pages one after the other, each from the last id of the one before, until one is empty. */
  function Pages<P>(t: Table<P>, q: Query, after: nat, limit: nat): seq<Stored<P>>
    requires t.Valid() && limit >= 1 && Answerable(q)
    decreases |Matching(t.rows, q, after)|
  {
    AnswerIsPage(t, q, after, limit);
    var page := AnswerTo(t.rows, q, Some(after), limit).events;
    if page == [] then []
    else
      NextMatching(t, q, after, |page|);
      page + Pages(t, q, page[|page| - 1].id, limit)
  }

  /** Chained answers of any positive size give the whole filtered history, once each, in order of id: the events
      of the operation and the kinds asked for with an id above the first one given. */
  lemma ChainedPagesAreTheHistory<P>(t: Table<P>, q: Query, after: nat, limit: nat)
    requires t.Valid() && limit >= 1 && Answerable(q)
    ensures Pages(t, q, after, limit) == Matching(t.rows, q, after)
    ensures Ordered(Pages(t, q, after, limit), t.lastId)
    ensures forall s :: s in Pages(t, q, after, limit) <==>
      && s in t.rows && s.id > after
      && (q.operation.Some? ==> s.event.operation == q.operation.value)
      && (q.kinds.Some? ==> s.event.kind in q.kinds.value)
  {
    hide Pages;
    hide Matching;
    PagesAreMatching(t, q, after, limit);
    forall s ensures s in Pages(t, q, after, limit) <==> s in t.rows && Matches(q, s) && s.id > after {
      MatchingExactly(t.rows, q, after, t.lastId, s);
    }
    MatchingOrdered(t, q, after);
  }

  lemma MatchingOrdered<P>(t: Table<P>, q: Query, after: int)
    requires t.Valid()
    ensures Ordered(Matching(t.rows, q, after), t.lastId)
  {
    FilterKeepsOrder(t.rows, (x: Stored<P>) => Matches(q, x) && x.id > after, t.lastId);
  }

  lemma {:induction false} PagesAreMatching<P>(t: Table<P>, q: Query, after: nat, limit: nat)
    requires t.Valid() && limit >= 1 && Answerable(q)
    ensures Pages(t, q, after, limit) == Matching(t.rows, q, after)
    decreases |Matching(t.rows, q, after)|
  {
    hide *;
    var page := Page(t.rows, q, after, limit);
    PagesUnfold(t, q, after, limit);
    if page != [] {
      PagesAreMatching(t, q, page[|page| - 1].id, limit);
    }
  }

  /** One request, and the rest of the history after it. */
  lemma PagesUnfold<P>(t: Table<P>, q: Query, after: nat, limit: nat)
    requires t.Valid() && limit >= 1 && Answerable(q)
    ensures var page := Page(t.rows, q, after, limit);
      if page == [] then Pages(t, q, after, limit) == [] && Matching(t.rows, q, after) == []
      else
        && Pages(t, q, after, limit) == page + Pages(t, q, page[|page| - 1].id, limit)
        && Matching(t.rows, q, after) == page + Matching(t.rows, q, page[|page| - 1].id)
        && |Matching(t.rows, q, page[|page| - 1].id)| < |Matching(t.rows, q, after)|
  {
    AnswerIsPage(t, q, after, limit);
    var page := Page(t.rows, q, after, limit);
    if page != [] { NextMatching(t, q, after, |page|); }
    hide AnswerTo;
    hide Matching;
    hide Ordered;
  }

  // ---------------------------------------------------------------- a table in use

  /** A reader working through the pages of a query while the table changes between its requests. */
  datatype Reading<+P> = Reading(table: Table<P>, after: nat, got: seq<Stored<P>>, done: bool)

  datatype Action<+P> = Append(event: Event<P>) | Delete(cutoff: Timestamp) | ReadPage(limit: int)

  predicate Enabled<P>(a: Action<P>) {
    match a
    case Append(e) => e.at.Valid()
    case Delete(cutoff) => cutoff.Valid()
    case ReadPage(_) => true
  }

  function Next<P>(s: Reading<P>, q: Query, a: Action<P>): Reading<P>
    requires Enabled(a)
  {
    match a
    case Append(e) => s.(table := Table(s.table.rows + [Stored(s.table.lastId + 1, e)], s.table.lastId + 1))
    case Delete(cutoff) => s.(table := Table(Since(s.table.rows, cutoff), s.table.lastId))
    case ReadPage(limit) =>
      match AnswerTo(s.table.rows, q, Some(s.after), limit)
      case Rejected(_) => s
      case Rows(page) =>
        if page == [] then s.(done := true) else s.(after := page[|page| - 1].id, got := s.got + page)
  }

  ghost predicate IsRun<P>(ss: seq<Reading<P>>, q: Query, acts: seq<Action<P>>) {
    && |ss| == |acts| + 1
    && ss[0].table.Valid() && ss[0].got == [] && !ss[0].done
    && forall i {:trigger acts[i]} :: 0 <= i < |acts| ==> Enabled(acts[i]) && ss[i + 1] == Next(ss[i], q, acts[i])
  }

  /** What the reader holds: matching events in order of id, from after its starting point up to its position. */
  ghost predicate Holds<P>(s: Reading<P>, q: Query, start: nat) {
    && s.table.Valid() && Ordered(s.got, s.after)
    && (start <= s.after)
    && (forall i :: 0 <= i < |s.got| ==> Matches(q, s.got[i]) && s.got[i].id > start)
  }

  /** A row that was in the table at the start and has not been deleted is either held or still ahead;
      and none is ahead once a page came back empty. */
  ghost predicate Survivor<P>(s: Reading<P>, r: Stored<P>) {
    && (r in s.table.rows ==> r in s.got || (r.id > s.after && !s.done))
    && r.id <= s.table.lastId
  }

  lemma AnswerFacts<P>(s: Reading<P>, q: Query, limit: int, r: Stored<P>)
    requires s.table.Valid() && AnswerTo(s.table.rows, q, Some(s.after), limit).Rows?
    ensures var page := AnswerTo(s.table.rows, q, Some(s.after), limit).events;
      && Ordered(page, s.table.lastId)
      && (forall i :: 0 <= i < |page| ==> Matches(q, page[i]) && page[i].id > s.after && page[i] in s.table.rows)
      && (r in s.table.rows && Matches(q, r) && r.id > s.after ==>
            page != [] && (r in page || r.id > page[|page| - 1].id))
  {
    if q.kinds == Some([]) {
      assert !Matches(q, r);
    } else {
      PageIsTheFirst(s.table.rows, s.table.lastId, q, s.after, limit);
    }
  }

  lemma StepHolds<P>(s: Reading<P>, q: Query, a: Action<P>, start: nat)
    requires Enabled(a) && Holds(s, q, start)
    ensures Holds(Next(s, q, a), q, start)
  {
    match a
    case Append(e) =>
    case Delete(cutoff) =>
      FilterKeepsOrder(s.table.rows,
                       (x: Stored<P>) => x.event.at.Valid() && Instant(x.event.at) >= Instant(cutoff),
                       s.table.lastId);
    case ReadPage(limit) =>
      var answer := AnswerTo(s.table.rows, q, Some(s.after), limit);
      if answer.Rows? && answer.events != [] { AnswerFacts(s, q, limit, answer.events[0]); }
  }

  lemma StepSurvivor<P>(s: Reading<P>, q: Query, a: Action<P>, r: Stored<P>)
    requires Enabled(a) && s.table.Valid() && Matches(q, r) && Survivor(s, r)
    ensures Survivor(Next(s, q, a), r)
  {
    match a
    case Append(e) =>
    case Delete(cutoff) =>
      FilterMembers(s.table.rows, (x: Stored<P>) => x.event.at.Valid() && Instant(x.event.at) >= Instant(cutoff), r);
    case ReadPage(limit) =>
      if AnswerTo(s.table.rows, q, Some(s.after), limit).Rows? { AnswerFacts(s, q, limit, r); }
  }

  lemma {:induction false} ReadingHolds<P>(ss: seq<Reading<P>>, q: Query, acts: seq<Action<P>>, n: nat)
    requires IsRun(ss, q, acts) && n <= |acts|
    ensures Holds(ss[n], q, ss[0].after)
  {
    if n > 0 {
      ReadingHolds(ss, q, acts, n - 1);
      assert Enabled(acts[n - 1]);
      StepHolds(ss[n - 1], q, acts[n - 1], ss[0].after);
    }
  }

  lemma {:induction false} SurvivorsAreMet<P>(ss: seq<Reading<P>>, q: Query, acts: seq<Action<P>>, n: nat, r: Stored<P>)
    requires IsRun(ss, q, acts) && n <= |acts|
    requires r in ss[0].table.rows && Matches(q, r) && r.id > ss[0].after
    ensures Survivor(ss[n], r)
  {
    if n > 0 {
      SurvivorsAreMet(ss, q, acts, n - 1, r);
      ReadingHolds(ss, q, acts, n - 1);
      assert Enabled(acts[n - 1]);
      StepSurvivor(ss[n - 1], q, acts[n - 1], r);
    }
  }

  /** With any appends and deletions in between, a reader that has come to an empty page has skipped no matching
      event that was there at the start and is still there, and it holds no event twice: ids ascend strictly. */
  lemma PagingMissesNothing<P>(ss: seq<Reading<P>>, q: Query, acts: seq<Action<P>>, n: nat,
                               r: Stored<P>) returns (i: nat)
    requires IsRun(ss, q, acts) && n <= |acts| && ss[n].done
    requires r in ss[0].table.rows && r in ss[n].table.rows && r.id > ss[0].after
    requires q.operation.Some? ==> r.event.operation == q.operation.value
    requires q.kinds.Some? ==> r.event.kind in q.kinds.value
    ensures i < |ss[n].got| && ss[n].got[i] == r
    ensures forall j :: 0 <= j < |ss[n].got| && ss[n].got[j].id == r.id ==> j == i
  {
    SurvivorsAreMet(ss, q, acts, n, r);
    ReadingHolds(ss, q, acts, n);
    i :| 0 <= i < |ss[n].got| && ss[n].got[i] == r;
  }

  /** What the reader holds was in the table when it was read. */
  lemma {:induction false} ReadEventsWereThere<P>(ss: seq<Reading<P>>, q: Query, acts: seq<Action<P>>, n: nat,
                                                  i: nat) returns (m: nat)
    requires IsRun(ss, q, acts) && n <= |acts| && i < |ss[n].got|
    ensures m < n && ss[n].got[i] in ss[m].table.rows
    ensures q.operation.Some? ==> ss[n].got[i].event.operation == q.operation.value
    ensures q.kinds.Some? ==> ss[n].got[i].event.kind in q.kinds.value
  {
    assert n > 0;
    var s, a := ss[n - 1], acts[n - 1];
    assert Enabled(a) && ss[n] == Next(s, q, a);
    if i < |s.got| {
      assert ss[n].got[i] == s.got[i];
      m := ReadEventsWereThere(ss, q, acts, n - 1, i);
    } else {
      ReadingHolds(ss, q, acts, n - 1);
      AnswerFacts(s, q, a.limit, ss[n].got[i]);
      m := n - 1;
      assert ss[n].got[i] == AnswerTo(s.table.rows, q, Some(s.after), a.limit).events[i - |s.got|];
    }
  }

  ghost predicate SameRows<P>(early: Table<P>, late: Table<P>) {
    early.lastId <= late.lastId && forall r :: r in late.rows && r.id <= early.lastId ==> r in early.rows
  }

  lemma StepKeepsRows<P>(early: Table<P>, s: Reading<P>, q: Query, a: Action<P>)
    requires Enabled(a) && SameRows(early, s.table)
    ensures SameRows(early, Next(s, q, a).table)
  {
    forall r | r in Next(s, q, a).table.rows && r.id <= early.lastId ensures r in early.rows {
      match a
      case Append(_) =>
      case Delete(cutoff) =>
        FilterMembers(s.table.rows, (x: Stored<P>) => x.event.at.Valid() && Instant(x.event.at) >= Instant(cutoff), r);
      case ReadPage(_) =>
    }
  }

  lemma {:induction false} RowsPersist<P>(ss: seq<Reading<P>>, q: Query, acts: seq<Action<P>>, m: nat, n: nat)
    requires IsRun(ss, q, acts) && m <= n <= |acts|
    ensures SameRows(ss[m].table, ss[n].table)
    decreases n
  {
    if m < n {
      RowsPersist(ss, q, acts, m, n - 1);
      assert Enabled(acts[n - 1]);
      StepKeepsRows(ss[m].table, ss[n - 1], q, acts[n - 1]);
    }
  }

  /** An id names one event for ever: rows found under it at two moments are the same, whatever was deleted. */
  lemma IdsAreNeverReused<P>(ss: seq<Reading<P>>, q: Query, acts: seq<Action<P>>, m: nat, n: nat, r: Stored<P>,
                             r': Stored<P>)
    requires IsRun(ss, q, acts) && m <= n <= |acts|
    requires r in ss[m].table.rows && r' in ss[n].table.rows && r.id == r'.id
    ensures r == r'
  {
    RowsPersist(ss, q, acts, m, n);
    ReadingHolds(ss, q, acts, m);
    assert r' in ss[m].table.rows;
  }
}
