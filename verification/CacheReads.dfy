/**
  What the in-memory cache answers, told from the calls alone: for each key the last value written to it and
  until when, never looking at the map. The sweeper may run at any time.
 */
module CacheReads {
  import opened Prelude
  import opened CacheKeys
  import opened MemoryCache

  datatype Written<V> = Written(value: V, until: Option<Time>)

  /** A lifetime that is not positive never ends. */
  function Until(at: Time, ttl: Time): Option<Time> {
    if ttl <= 0 then None else Some(at + ttl)
  }

  /** Nothing is there for SETNX from the last instant of a lifetime on. */
  predicate Free<V>(last: Option<Written<V>>, at: Time) {
    last.None? || (last.value.until.Some? && last.value.until.value <= at)
  }

  /** What a reader finds: the last instant still counts. */
  function Seen<V>(last: Option<Written<V>>, at: Time): Option<V> {
    if last.None? || (last.value.until.Some? && at > last.value.until.value) then None else Some(last.value.value)
  }

  /** The key begins with the pattern, or with what stands before its star. */
  predicate Fits(pattern: string, key: string) {
    if pattern != "" && pattern[|pattern| - 1] == '*' then pattern[..|pattern| - 1] <= key else pattern <= key
  }

  /** What a call leaves under a key. */
  function After<V>(last: Option<Written<V>>, at: Time, op: Operation<V>, key: string): Option<Written<V>> {
    match op
    case SetOp(k, value, ttl) => if k == key then Some(Written(value, Until(at, ttl))) else last
    case SetNXOp(k, value, ttl) => if k == key && Free(last, at) then Some(Written(value, Until(at, ttl))) else last
    case SetMultipleOp(values, ttl) => if key in values then Some(Written(values[key], Until(at, ttl))) else last
    case DeleteOp(k) => if k == key then None else last
    case DeletePatternOp(pattern) => if Fits(pattern, key) then None else last
    case GetOp(_) => last
    case ExistsOp(_) => last
    case GetMultipleOp(_) => last
  }

  function LastWritten<V>(events: seq<Event<V>>, key: string): Option<Written<V>>
    decreases |events|
  {
    if events == [] then None
    else
      var before := LastWritten(events[..|events| - 1], key);
      match events[|events| - 1]
      case Call(at, op) => After(before, at, op, key)
      case SweepAt(_) => before
  }

  /** The map after the same calls and sweeps. */
  ghost function StoreAfter<V(!new)>(events: seq<Event<V>>): Store<V>
    decreases |events|
  {
    if events == [] then map[]
    else
      var before := StoreAfter(events[..|events| - 1]);
      match events[|events| - 1]
      case Call(at, op) => Effect(before, at, op)
      case SweepAt(at) => Sweep(before, at)
  }

  ghost predicate InOrder<V>(events: seq<Event<V>>, now: Time)
    decreases |events|
  {
    events == [] || (events[|events| - 1].at <= now && InOrder(events[..|events| - 1], events[|events| - 1].at))
  }

  /** As far as anyone can tell from now on, the item is what was last written. */
  ghost predicate Says<V>(item: Option<Item<V>>, last: Option<Written<V>>, now: Time) {
    match item
    case Some(i) => last == Some(Written(i.value, i.expiration))
    case None => last.None? || (last.value.until.Some? && now > last.value.until.value)
  }

  lemma PatternCovers(pattern: string, key: string)
    ensures Covers(pattern, key) <==> Fits(pattern, key)
  {
  }

  lemma CallSays<V(!new)>(store: Store<V>, last: Option<Written<V>>, at: Time, op: Operation<V>, key: string)
    requires Says(Find(store, key), last, at)
    ensures Says(Find(Effect(store, at, op), key), After(last, at, op, key), at)
  {
    if op.DeletePatternOp? {
      PatternCovers(op.pattern, key);
    }
  }

  lemma {:induction false} StoreSays<V(!new)>(events: seq<Event<V>>, key: string, now: Time)
    requires InOrder(events, now)
    ensures Says(Find(StoreAfter(events), key), LastWritten(events, key), now)
    decreases |events|
  {
    if events != [] {
      var init, last := events[..|events| - 1], events[|events| - 1];
      StoreSays(init, key, last.at);
      if last.Call? {
        CallSays(StoreAfter(init), LastWritten(init, key), last.at, last.op, key);
      }
    }
  }

  /**
    After any calls and sweeps in order of time, the reads and SETNX answer by the last value written to the key
    and its lifetime; asking for several leaves out those in their last instant.
   */
  lemma ReadsLastWritten<V(!new)>(events: seq<Event<V>>, now: Time, key: string, keys: seq<string>)
    requires InOrder(events, now)
    ensures Lookup(StoreAfter(events), now, key) == Seen(LastWritten(events, key), now)
    ensures Vacant(StoreAfter(events), now, key) <==> Free(LastWritten(events, key), now)
    ensures var found := LookupMany(StoreAfter(events), now, keys);
            forall k :: (k in found <==> k in keys && !Free(LastWritten(events, k), now))
                     && (k in found ==> found[k] == LastWritten(events, k).value.value)
  {
    StoreSays(events, key, now);
    var found := LookupMany(StoreAfter(events), now, keys);
    forall k
      ensures k in found <==> k in keys && !Free(LastWritten(events, k), now)
      ensures k in found ==> found[k] == LastWritten(events, k).value.value
    {
      StoreSays(events, k, now);
    }
  }

  /** Expire gives a key that is there a new end and its old value, and makes nothing of a key that is not. */
  lemma ExpireExactly<V>(store: Store<V>, now: Time, key: string, ttl: Time, other: string, later: Time)
    ensures Lookup(Touch(store, now, key, ttl), later, key)
         == if key in store && later <= now + ttl then Some(store[key].value) else None
    ensures other != key ==> Lookup(Touch(store, now, key, ttl), later, other) == Lookup(store, later, other)
  {
  }
}
