/** The in-memory idempotency store: its object and the pure functions its methods are proved against. */
module Idempotency {
  import opened Prelude
  import opened Exceptions

  type Key = string

  /** A shared future; it is named by its index in the order of creation. */
  datatype Future<+V> = Pending | Result(value: V) | Failure(error: Exn) | OwnerCancelled

  datatype Entry = Entry(future: nat, owner: nat, expiresAt: Option<real>)

  datatype Store<+V> = Store(entries: map<Key, Entry>, futures: seq<Future<V>>) {
    predicate Valid() {
      forall k :: k in entries ==> entries[k].future < |futures|
    }
  }

  datatype Status = Executed | Joined | Replayed

  /** What one pass through the lock section of `execute` decides. */
  datatype Lookup = Owns(future: nat) | Reentered | Waits(future: nat, status: Status)

  predicate Expired(e: Entry, now: real) {
    e.expiresAt.Some? && e.expiresAt.value <= now
  }

  function Live(entries: map<Key, Entry>, now: real): map<Key, Entry> {
    map k | k in entries && !Expired(entries[k], now) :: entries[k]
  }

  function Gone(entries: map<Key, Entry>, now: real): set<Key> {
    set k | k in entries && Expired(entries[k], now)
  }

  function Decide<V>(s: Store<V>, key: Key, task: nat, now: real): Lookup
    requires s.Valid()
  {
    var live := Live(s.entries, now);
    if key !in live then Owns(|s.futures|)
    else if s.futures[live[key].future].Pending? && live[key].owner == task then Reentered
    else Waits(live[key].future, if s.futures[live[key].future].Pending? then Joined else Replayed)
  }

  function AfterAcquire<V>(s: Store<V>, key: Key, task: nat, now: real): Store<V>
    requires s.Valid()
  {
    var live := Live(s.entries, now);
    if key in live then Store(live, s.futures)
    else Store(live[key := Entry(|s.futures|, task, None)], s.futures + [Pending])
  }

  /** Effect of an owner ending without a value: `ending` is a failure or a cancellation. */
  function AfterRelease<V>(s: Store<V>, key: Key, future: nat, ending: Future<V>): Store<V>
    requires future < |s.futures|
  {
    Store(if key in s.entries && s.entries[key].future == future then s.entries - {key} else s.entries,
          if s.futures[future].Pending? then s.futures[future := ending] else s.futures)
  }

  function AfterPublish<V>(s: Store<V>, key: Key, future: nat, value: V, ttl: real, now: real): Store<V>
    requires future < |s.futures|
  {
    Store(if key in s.entries && s.entries[key].future == future
            then s.entries[key := s.entries[key].(expiresAt := Some(now + ttl))] else s.entries,
          if s.futures[future].Pending? then s.futures[future := Result(value)] else s.futures)
  }

  /** The store object. No lock section waits, so each method is one atomic step of the event
      loop; the table of futures stands for the future objects that callers hold. */
  class InMemoryIdempotencyStore<V> {
    var entries: map<Key, Entry>
    var futures: seq<Future<V>>

    function View(): Store<V>
      reads this
    {
      Store(entries, futures)
    }

    constructor ()
      ensures View() == Store(map[], []) && View().Valid()
    {
      entries, futures := map[], [];
    }

    /** Removes what has expired at `now`, one key after another, and counts it. */
    method PurgeExpired(now: real) returns (removed: nat)
      modifies this`entries
      ensures entries == Live(old(entries), now)
      ensures removed == |Gone(old(entries), now)|
      ensures old(View().Valid()) ==> View().Valid()
    {
      var expired := Gone(entries, now);
      var pending := expired;
      while pending != {}
        invariant pending <= expired
        invariant entries == old(entries) - (expired - pending)
        decreases |pending|
      {
        var key :| key in pending;
        assert expired - (pending - {key}) == expired - pending + {key};
        entries := entries - {key};
        pending := pending - {key};
      }
      assert expired - pending == expired;
      assert entries == Live(old(entries), now);
      removed := |expired|;
    }

    method EntryCount(now: real) returns (count: nat)
      modifies this`entries
      ensures entries == Live(old(entries), now)
      ensures count == |Live(old(entries), now)|
    {
      var _ := PurgeExpired(now);
      count := |entries|;
    }

    /** One pass through the lock section of `execute`. */
    method Acquire(key: Key, task: nat, now: real) returns (found: Lookup)
      requires View().Valid()
      modifies this
      ensures View().Valid()
      ensures found == Decide(old(View()), key, task, now)
      ensures View() == AfterAcquire(old(View()), key, task, now)
    {
      var _ := PurgeExpired(now);
      if key !in entries {
        found := Owns(|futures|);
        entries := entries[key := Entry(|futures|, task, None)];
        futures := futures + [Pending];
        return;
      }
      var entry := entries[key];
      if futures[entry.future].Pending? && entry.owner == task {
        return Reentered;
      }
      found := Waits(entry.future, if futures[entry.future].Pending? then Joined else Replayed);
    }

    method RemoveEntryNow(key: Key, future: nat)
      modifies this`entries
      ensures entries == if key in old(entries) && old(entries)[key].future == future
                         then old(entries) - {key} else old(entries)
    {
      if key in entries && entries[key].future == future {
        entries := entries - {key};
      }
    }

    /** The owner's operation raised (`ending` holds the exception) or its task was cancelled. */
    method Release(key: Key, future: nat, ending: Future<V>)
      requires View().Valid() && future < |futures|
      modifies this
      ensures View().Valid()
      ensures View() == AfterRelease(old(View()), key, future, ending)
    {
      RemoveEntryNow(key, future);
      if futures[future].Pending? {
        futures := futures[future := ending];
      }
    }

    /** The owner's operation returned: publish to the cache and to everyone who joined. */
    method Publish(key: Key, future: nat, value: V, ttl: real, now: real)
      requires View().Valid() && future < |futures|
      modifies this
      ensures View().Valid()
      ensures View() == AfterPublish(old(View()), key, future, value, ttl, now)
    {
      if key in entries && entries[key].future == future {
        entries := entries[key := entries[key].(expiresAt := Some(now + ttl))];
      }
      if futures[future].Pending? {
        futures := futures[future := Result(value)];
      }
    }
  }
}
