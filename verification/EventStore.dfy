/** The SQLite event store as a table with ever-increasing ids, timestamps kept as text. */
module EventStore {
  import opened Prelude
  import opened Timestamps

  /** An event as callers see it; the payload's JSON text is not modelled. */
  datatype Event<+P> = Event(kind: nat, operation: string, at: Timestamp, payload: P)

  datatype Stored<+P> = Stored(id: nat, event: Event<P>)

  /** A row of the table. */
  datatype Row<+P> = Row(id: nat, kind: nat, operation: string, text: string, payload: P)

  datatype Query = Query(operation: Option<string>, kinds: Option<seq<nat>>)

  datatype QueryError = EmptyOperation | NegativeAfter | LimitNotPositive

  datatype Answer<+P> = Rows(events: seq<Stored<P>>) | Rejected(error: QueryError)

  // ---------------------------------------------------------------- selecting

  /** The elements to keep, in their order: what a WHERE clause leaves of a table. */
  function Filter<T>(xs: seq<T>, keep: T -> bool): seq<T> {
    if xs == [] then []
    else Filter(xs[..|xs| - 1], keep) + (if keep(xs[|xs| - 1]) then [xs[|xs| - 1]] else [])
  }

  lemma {:induction false} FilterMembers<T>(xs: seq<T>, keep: T -> bool, x: T)
    ensures x in Filter(xs, keep) <==> x in xs && keep(x)
  {
    if xs != [] {
      var init := xs[..|xs| - 1];
      FilterMembers(init, keep, x);
      assert xs == init + [xs[|xs| - 1]];
    }
  }

  lemma {:induction false} FilterShrinks<T>(xs: seq<T>, keep: T -> bool)
    ensures |Filter(xs, keep)| <= |xs|
  {
    if xs != [] { FilterShrinks(xs[..|xs| - 1], keep); }
  }

  /** Ids ascend strictly, and none is above `lastId`. */
  predicate Ordered<P>(table: seq<Stored<P>>, lastId: nat) {
    && (forall i :: 0 <= i < |table| ==> 1 <= table[i].id <= lastId)
    && (forall i, j :: 0 <= i < j < |table| ==> table[i].id < table[j].id)
  }

  lemma {:induction false} FilterKeepsOrder<P>(table: seq<Stored<P>>, keep: Stored<P> -> bool, lastId: nat)
    requires Ordered(table, lastId)
    ensures Ordered(Filter(table, keep), lastId)
    ensures forall i :: 0 <= i < |Filter(table, keep)| ==>
      table != [] && Filter(table, keep)[i].id <= table[|table| - 1].id
  {
    if table != [] {
      var init := table[..|table| - 1];
      assert forall i :: 0 <= i < |init| ==> init[i].id < table[|table| - 1].id;
      FilterKeepsOrder(init, keep, lastId);
    }
  }

  // ---------------------------------------------------------------- what the calls mean

  predicate Matches<P>(q: Query, s: Stored<P>) {
    && (q.operation.Some? ==> s.event.operation == q.operation.value)
    && (q.kinds.Some? ==> s.event.kind in q.kinds.value)
  }

  /** The stored events of `q` with an id above `after`, in order of id. */
  function Matching<P>(table: seq<Stored<P>>, q: Query, after: int): seq<Stored<P>> {
    Filter(table, (s: Stored<P>) => Matches(q, s) && s.id > after)
  }

  /** The events at or after a cutoff. */
  function Since<P>(table: seq<Stored<P>>, cutoff: Timestamp): seq<Stored<P>>
    requires cutoff.Valid()
  {
    Filter(table, (s: Stored<P>) => s.event.at.Valid() && Instant(s.event.at) >= Instant(cutoff))
  }

  function Page<P>(table: seq<Stored<P>>, q: Query, after: int, limit: nat): seq<Stored<P>> {
    var all := Matching(table, q, after);
    if |all| <= limit then all else all[..limit]
  }

  /** The characters that `strip` removes. */
  predicate IsSpace(c: char) {
    var n := c as int;
    || 9 <= n <= 13 || 28 <= n <= 32 || n == 0x85 || n == 0xa0 || n == 0x1680
    || 0x2000 <= n <= 0x200a || n == 0x2028 || n == 0x2029 || n == 0x202f || n == 0x205f || n == 0x3000
  }

  predicate Blank(s: string) {
    forall i :: 0 <= i < |s| ==> IsSpace(s[i])
  }

  /** Checks come in this order; an empty list of kinds is answered before the numbers are looked at. */
  function AnswerTo<P>(table: seq<Stored<P>>, q: Query, after: Option<int>, limit: int): Answer<P> {
    if q.operation.Some? && Blank(q.operation.value) then Rejected(EmptyOperation)
    else if q.kinds.Some? && q.kinds.value == [] then Rows([])
    else if after.Some? && after.value < 0 then Rejected(NegativeAfter)
    else if limit <= 0 then Rejected(LimitNotPositive)
    else Rows(Page(table, q, if after.Some? then after.value else 0, limit))
  }

  /** What a caller of `history` may rely on, field by field. An operation name that is all white space is refused
      first; an empty list of kinds is answered with nothing; then a negative id and a limit below one are refused.
      Otherwise the rows are the first `limit` stored events, in ascending id, that have the operation and one of the
      kinds asked for, if any were, and an id above the one given, if one was. */
  lemma AnswerIsTheFirstAsked<P>(table: seq<Stored<P>>, lastId: nat, q: Query, after: Option<int>, limit: int)
    requires Ordered(table, lastId)
    ensures var answer := AnswerTo(table, q, after, limit);
      var blank := q.operation.Some? && forall i :: 0 <= i < |q.operation.value| ==> IsSpace(q.operation.value[i]);
      var nothing := q.kinds.Some? && |q.kinds.value| == 0;
      && (answer == Rejected(EmptyOperation) <==> blank)
      && (answer == Rejected(NegativeAfter) <==> !blank && !nothing && after.Some? && after.value < 0)
      && (answer == Rejected(LimitNotPositive) <==>
            !blank && !nothing && (after.Some? ==> after.value >= 0) && limit < 1)
    ensures var answer := AnswerTo(table, q, after, limit);
      answer.Rows? ==>
        && Ordered(answer.events, lastId) && (|answer.events| == 0 || |answer.events| <= limit)
        && (forall s :: s in answer.events ==>
              && s in table
              && (q.operation.Some? ==> s.event.operation == q.operation.value)
              && (q.kinds.Some? ==> s.event.kind in q.kinds.value)
              && (after.Some? ==> s.id > after.value))
        && (forall s ::
              && s in table && s !in answer.events
              && (q.operation.Some? ==> s.event.operation == q.operation.value)
              && (q.kinds.Some? ==> s.event.kind in q.kinds.value)
              && (after.Some? ==> s.id > after.value)
              ==> |answer.events| == limit && answer.events[limit - 1].id < s.id)
  {
    var answer := AnswerTo(table, q, after, limit);
    if answer.Rows? && !(q.kinds.Some? && q.kinds.value == []) {
      var from := if after.Some? then after.value else 0;
      PageIsTheFirst(table, lastId, q, from, limit);
      assert forall s :: s in table ==> s.id >= 1;
    }
  }

  lemma PageIsTheFirst<P>(table: seq<Stored<P>>, lastId: nat, q: Query, after: int, limit: nat)
    requires Ordered(table, lastId)
    ensures var page := Page(table, q, after, limit);
      && Ordered(page, lastId) && |page| <= limit
      && (forall s :: s in page ==> s in table && Matches(q, s) && s.id > after)
      && (forall s :: s in table && s !in page && Matches(q, s) && s.id > after ==>
            |page| == limit && (limit > 0 ==> page[limit - 1].id < s.id))
  {
    var keep := (x: Stored<P>) => Matches(q, x) && x.id > after;
    var all, page := Matching(table, q, after), Page(table, q, after, limit);
    FilterKeepsOrder(table, keep, lastId);
    assert forall i :: 0 <= i < |page| ==> page[i] == all[i];
    forall s | s in page ensures s in table && Matches(q, s) && s.id > after {
      var i :| 0 <= i < |page| && page[i] == s;
      assert all[i] in all;
      FilterMembers(table, keep, s);
    }
    forall s | s in table && s !in page && Matches(q, s) && s.id > after
      ensures |page| == limit && (limit > 0 ==> page[limit - 1].id < s.id)
    {
      FilterMembers(table, keep, s);
      var i :| 0 <= i < |all| && all[i] == s;
      assert page == all || page == all[..limit];
    }
  }

  /** Asking for the first page without an id is asking for what comes after zero. */
  lemma FirstPage<P>(table: seq<Stored<P>>, q: Query, limit: int)
    ensures AnswerTo(table, q, None, limit) == AnswerTo(table, q, Some(0), limit)
  {
  }

  // ---------------------------------------------------------------- rows and events

  function Encode<P>(id: nat, e: Event<P>): Row<P> {
    Row(id, e.kind, e.operation, Serialize(e.at), e.payload)
  }

  function Decode<P>(r: Row<P>): Stored<P> {
    Stored(r.id, Event(r.kind, r.operation, Deserialize(r.text), r.payload))
  }

  function DecodeAll<P>(rows: seq<Row<P>>): seq<Stored<P>> {
    seq(|rows|, i requires 0 <= i < |rows| => Decode(rows[i]))
  }

  /** The row holds a valid timestamp in its stored form. */
  predicate WellStored<P>(r: Row<P>) {
    Deserialize(r.text).Valid() && r.text == Serialize(Deserialize(r.text))
  }

  predicate RowMatches<P>(q: Query, after: Option<int>, r: Row<P>) {
    && (q.operation.Some? ==> r.operation == q.operation.value)
    && (q.kinds.Some? ==> r.kind in q.kinds.value)
    && (after.Some? ==> r.id > after.value)
  }

  /** Selecting rows and decoding them is decoding them all and selecting events. */
  lemma {:induction false} FilterDecoded<P>(rows: seq<Row<P>>, keep: Row<P> -> bool, keep': Stored<P> -> bool)
    requires forall i :: 0 <= i < |rows| ==> (keep(rows[i]) <==> keep'(Decode(rows[i])))
    ensures DecodeAll(Filter(rows, keep)) == Filter(DecodeAll(rows), keep')
  {
    hide Decode;
    if rows != [] {
      var init, last := rows[..|rows| - 1], rows[|rows| - 1];
      FilterDecoded(init, keep, keep');
      assert DecodeAll(rows)[..|rows| - 1] == DecodeAll(init);
      var kept := Filter(init, keep);
      assert DecodeAll(kept + [last]) == DecodeAll(kept) + [Decode(last)];
    }
  }

  /** The WHERE clause of a query, on rows, selects what the query means on events. */
  lemma SelectsMatching<P>(rows: seq<Row<P>>, q: Query, after: Option<int>)
    requires forall i :: 0 <= i < |rows| ==> rows[i].id >= 1
    ensures DecodeAll(Filter(rows, (r: Row<P>) => RowMatches(q, after, r))) ==
      Matching(DecodeAll(rows), q, if after.Some? then after.value else 0)
  {
    FilterDecoded(rows, (r: Row<P>) => RowMatches(q, after, r),
                  (s: Stored<P>) => Matches(q, s) && s.id > (if after.Some? then after.value else 0));
  }

  /** Keeping the rows whose text is not less than the cutoff's keeps the events at or after the cutoff. */
  lemma KeepsSince<P>(rows: seq<Row<P>>, cutoff: Timestamp)
    requires cutoff.Valid() && (forall i :: 0 <= i < |rows| ==> WellStored(rows[i]))
    ensures DecodeAll(Filter(rows, (r: Row<P>) => !TextLess(r.text, Serialize(cutoff)))) ==
      Since(DecodeAll(rows), cutoff)
  {
    hide Serialize;
    hide Deserialize;
    hide Instant;
    hide TextLess;
    forall i | 0 <= i < |rows|
      ensures !TextLess(rows[i].text, Serialize(cutoff)) <==>
        Decode(rows[i]).event.at.Valid() && Instant(Decode(rows[i]).event.at) >= Instant(cutoff)
    {
      assert WellStored(rows[i]);
      TextOrderIsTimeOrder(Deserialize(rows[i].text), cutoff);
    }
    FilterDecoded(rows, (r: Row<P>) => !TextLess(r.text, Serialize(cutoff)),
                  (s: Stored<P>) => s.event.at.Valid() && Instant(s.event.at) >= Instant(cutoff));
  }

  lemma DecodeParts<P>(rows: seq<Row<P>>)
    ensures |DecodeAll(rows)| == |rows|
    ensures forall i :: 0 <= i < |rows| ==> DecodeAll(rows)[i].id == rows[i].id
  {
    hide Deserialize;
  }

  lemma {:induction false} FilterKeepsStored<P>(rows: seq<Row<P>>, keep: Row<P> -> bool)
    requires forall i :: 0 <= i < |rows| ==> WellStored(rows[i])
    ensures forall i :: 0 <= i < |Filter(rows, keep)| ==> WellStored(Filter(rows, keep)[i])
  {
    hide WellStored;
    if rows != [] { FilterKeepsStored(rows[..|rows| - 1], keep); }
  }

  // ---------------------------------------------------------------- the store

  method DecodeRows<P>(rows: seq<Row<P>>) returns (events: seq<Stored<P>>)
    ensures events == DecodeAll(rows)
  {
    hide Decode;
    events := [];
    while |events| < |rows|
      invariant |events| <= |rows| && events == DecodeAll(rows)[..|events|]
      decreases |rows| - |events|
    {
      events := events + [Decode(rows[|events|])];
    }
  }

  class SQLiteEventStore<P(==)> {
    var rows: seq<Row<P>>
    /** The last id handed out; AUTOINCREMENT never goes back. */
    var lastId: nat

    function Contents(): seq<Stored<P>>
      reads this
    {
      DecodeAll(rows)
    }

    ghost predicate Valid()
      reads this
    {
      Ordered(Contents(), lastId) && forall i :: 0 <= i < |rows| ==> WellStored(rows[i])
    }

    constructor ()
      ensures Valid() && Contents() == [] && lastId == 0
    {
      rows, lastId := [], 0;
    }

    method Emit(e: Event<P>)
      requires Valid() && e.at.Valid()
      modifies this
      ensures Valid()
      ensures lastId == old(lastId) + 1
      ensures Contents() == old(Contents()) + [Stored(lastId, e)]
    {
      RoundTrip(e.at);
      ghost var was := rows;
      lastId := lastId + 1;
      rows := rows + [Encode(lastId, e)];
      hide Serialize;
      hide Deserialize;
      assert DecodeAll(rows) == DecodeAll(was) + [Stored(lastId, e)];
    }

    method History(q: Query, after: Option<int>, limit: int) returns (r: Answer<P>)
      requires Valid()
      ensures r == AnswerTo(Contents(), q, after, limit)
    {
      if q.operation.Some? && Blank(q.operation.value) {
        return Rejected(EmptyOperation);
      }
      if q.kinds.Some? && q.kinds.value == [] {
        return Rows([]);
      }
      if after.Some? && after.value < 0 {
        return Rejected(NegativeAfter);
      }
      if limit <= 0 {
        return Rejected(LimitNotPositive);
      }
      var selected := Select(q, after, limit);
      var events := DecodeRows(selected);
      r := Rows(events);
    }

    /** The SELECT statement: its WHERE clause, ascending ids, and LIMIT. */
    method Select(q: Query, after: Option<int>, limit: int) returns (selected: seq<Row<P>>)
      requires Valid() && limit > 0
      ensures DecodeAll(selected) == Page(Contents(), q, if after.Some? then after.value else 0, limit)
    {
      hide WellStored;
      DecodeParts(rows);
      hide Decode;
      selected := Filter(rows, (r: Row<P>) => RowMatches(q, after, r));
      SelectsMatching(rows, q, after);
      if |selected| > limit {
        assert DecodeAll(selected[..limit]) == DecodeAll(selected)[..limit];
        selected := selected[..limit];
      }
    }

    method DeleteBefore(cutoff: Timestamp) returns (removed: int)
      requires Valid() && cutoff.Valid()
      modifies this`rows
      ensures Valid()
      ensures Contents() == Since(old(Contents()), cutoff)
      ensures removed == |old(Contents())| - |Contents()| >= 0
    {
      var text := Serialize(cutoff);
      var kept := Filter(rows, (r: Row<P>) => !TextLess(r.text, text));
      KeepsSince(rows, cutoff);
      FilterShrinks(rows, (r: Row<P>) => !TextLess(r.text, text));
      FilterKeepsStored(rows, (r: Row<P>) => !TextLess(r.text, text));
      FilterKeepsOrder(Contents(),
                       (s: Stored<P>) => s.event.at.Valid() && Instant(s.event.at) >= Instant(cutoff), lastId);
      removed := |rows| - |kept|;
      rows := kept;
    }
  }
}
