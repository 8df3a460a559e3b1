/**
  The in-memory cache: a map from keys to values with an optional expiry, read with lazy expiry and
  swept once a minute. Store functions say what each operation means; the class changes its map in
  place and is proved against them. The clock reading is a parameter of every operation.
 */
module MemoryCache {
  import opened Prelude
  import opened CacheKeys

  datatype Item<V> = Item(value: V, expiration: Option<Time>)

  type Store<V> = map<string, Item<V>>

  /** What Get, Exists and the sweeper call alive: the expiry instant itself still counts. */
  predicate Alive<V>(item: Item<V>, now: Time) {
    item.expiration.None? || now <= item.expiration.value
  }

  /** What SetNX and GetMultiple call alive: the expiry instant is already too late. */
  predicate StrictlyAlive<V>(item: Item<V>, now: Time) {
    item.expiration.None? || now < item.expiration.value
  }

  function ExpiryAfter(now: Time, ttl: Time): Option<Time> {
    if ttl > 0 then Some(now + ttl) else None
  }

  function Find<V>(store: Store<V>, key: string): Option<Item<V>> {
    if key in store then Some(store[key]) else None
  }

  function Lookup<V>(store: Store<V>, now: Time, key: string): Option<V> {
    if key in store && Alive(store[key], now) then Some(store[key].value) else None
  }

  function Put<V>(store: Store<V>, now: Time, key: string, value: V, ttl: Time): Store<V> {
    store[key := Item(value, ExpiryAfter(now, ttl))]
  }

  function Remove<V>(store: Store<V>, key: string): Store<V> {
    map k | k in store && k != key :: store[k]
  }

  predicate Vacant<V>(store: Store<V>, now: Time, key: string) {
    key !in store || !StrictlyAlive(store[key], now)
  }

  function PutIfVacant<V>(store: Store<V>, now: Time, key: string, value: V, ttl: Time): Store<V> {
    if Vacant(store, now, key) then Put(store, now, key, value, ttl) else store
  }

  function Touch<V>(store: Store<V>, now: Time, key: string, ttl: Time): Store<V> {
    if key in store then store[key := store[key].(expiration := Some(now + ttl))] else store
  }

  function DropPattern<V>(store: Store<V>, pattern: string): Store<V> {
    map k | k in store && !Covers(pattern, k) :: store[k]
  }

  function LookupMany<V>(store: Store<V>, now: Time, keys: seq<string>): map<string, V> {
    map k | k in keys && k in store && StrictlyAlive(store[k], now) :: store[k].value
  }

  function PutMany<V>(store: Store<V>, now: Time, values: map<string, V>, ttl: Time): Store<V> {
    store + map k | k in values :: Item(values[k], ExpiryAfter(now, ttl))
  }

  function Sweep<V>(store: Store<V>, now: Time): Store<V> {
    map k | k in store && Alive(store[k], now) :: store[k]
  }

  // ---- The cache object ----

  class Cache<V> {
    var store: Store<V>

    constructor ()
      ensures store == map[]
    {
      store := map[];
    }

    /** One tick of the sweeper: visit every key, delete the expired ones. */
    method Cleanup(now: Time)
      modifies this
      ensures store == Sweep(old(store), now)
    {
      var pending := store.Keys;
      while pending != {}
        invariant pending <= old(store.Keys)
        invariant store == map k | k in old(store) && (k in pending || Alive(old(store)[k], now)) :: old(store)[k]
        decreases |pending|
      {
        var key :| key in pending;
        if !Alive(store[key], now) {
          store := store - {key};
        }
        pending := pending - {key};
      }
    }

    method Get(now: Time, key: string) returns (r: Option<V>)
      ensures r == Lookup(store, now, key)
    {
      if key !in store {
        return None;
      }
      if store[key].expiration.Some? && now > store[key].expiration.value {
        return None;
      }
      return Some(store[key].value);
    }

    method Set(now: Time, key: string, value: V, ttl: Time)
      modifies this
      ensures store == Put(old(store), now, key, value, ttl)
    {
      var expiration := None;
      if ttl > 0 {
        expiration := Some(now + ttl);
      }
      store := store[key := Item(value, expiration)];
    }

    method Delete(key: string)
      modifies this
      ensures store == Remove(old(store), key)
    {
      store := store - {key};
    }

    method Exists(now: Time, key: string) returns (r: bool)
      ensures r <==> Lookup(store, now, key).Some?
    {
      if key !in store {
        return false;
      }
      if store[key].expiration.Some? && now > store[key].expiration.value {
        return false;
      }
      return true;
    }

    method SetNX(now: Time, key: string, value: V, ttl: Time) returns (stored: bool)
      modifies this
      ensures stored <==> Vacant(old(store), now, key)
      ensures store == PutIfVacant(old(store), now, key, value, ttl)
    {
      if key in store {
        if store[key].expiration.None? || now < store[key].expiration.value {
          return false;
        }
      }
      Set(now, key, value, ttl);
      return true;
    }

    method Expire(now: Time, key: string, ttl: Time)
      modifies this
      ensures store == Touch(old(store), now, key, ttl)
    {
      if key in store {
        store := store[key := store[key].(expiration := Some(now + ttl))];
      }
    }

    method DeletePattern(pattern: string)
      modifies this
      ensures store == DropPattern(old(store), pattern)
    {
      var prefix := PatternPrefix(pattern);
      var pending := store.Keys;
      while pending != {}
        invariant pending <= old(store.Keys)
        invariant store == map k | k in old(store) && (k in pending || !Covers(pattern, k)) :: old(store)[k]
        decreases |pending|
      {
        var key :| key in pending;
        if |key| >= |prefix| && key[..|prefix|] == prefix {
          store := store - {key};
        }
        pending := pending - {key};
      }
    }

    method GetMultiple(now: Time, keys: seq<string>) returns (found: map<string, V>)
      ensures found == LookupMany(store, now, keys)
    {
      found := map[];
      for i := 0 to |keys|
        invariant found == LookupMany(store, now, keys[..i])
      {
        assert keys[..i + 1] == keys[..i] + [keys[i]];
        if keys[i] in store {
          if store[keys[i]].expiration.None? || now < store[keys[i]].expiration.value {
            found := found[keys[i] := store[keys[i]].value];
          }
        }
      }
      assert keys[..|keys|] == keys;
    }

    method SetMultiple(now: Time, values: map<string, V>, ttl: Time)
      modifies this
      ensures store == PutMany(old(store), now, values, ttl)
    {
      var expiration := ExpiryAfter(now, ttl);
      var pending := values.Keys;
      while pending != {}
        invariant pending <= values.Keys
        invariant forall k :: k in store <==> k in old(store) || (k in values && k !in pending)
        invariant forall k | k in store :: store[k] == if k in values && k !in pending then Item(values[k], expiration) else old(store)[k]
        decreases |pending|
      {
        var key :| key in pending;
        store := store[key := Item(values[key], expiration)];
        pending := pending - {key};
      }
      PutManyIs(old(store), store, now, values, ttl);
    }

    method Close()
      modifies this
      ensures store == map[]
    {
      store := map[];
    }

    method Size() returns (n: nat)
      ensures n == |store|
    {
      n := |store|;
    }
  }

  /** Right after a sweep the size counts the readable keys and nothing else. */
  lemma SizeAfterCleanup<V>(store: Store<V>, now: Time)
    ensures |Sweep(store, now)| == |set k | k in store && Lookup(store, now, k).Some?|
  {
    assert Sweep(store, now).Keys == set k | k in store && Lookup(store, now, k).Some?;
  }

  lemma PutManyIs<V>(before: Store<V>, after: Store<V>, now: Time, values: map<string, V>, ttl: Time)
    requires forall k :: k in after <==> k in before || k in values
    requires forall k | k in after :: after[k] == if k in values then Item(values[k], ExpiryAfter(now, ttl)) else before[k]
    ensures after == PutMany(before, now, values, ttl)
  {
  }

  // ---- Sweeping is unobservable ----

  /** The operations whose answers sweeping must not change. */
  datatype Operation<V> =
    | GetOp(key: string)
    | ExistsOp(key: string)
    | GetMultipleOp(keys: seq<string>)
    | SetOp(key: string, value: V, ttl: Time)
    | SetNXOp(key: string, value: V, ttl: Time)
    | SetMultipleOp(values: map<string, V>, ttl: Time)
    | DeleteOp(key: string)
    | DeletePatternOp(pattern: string)

  datatype Answer<V> = Silent | Found(value: Option<V>) | Flag(yes: bool) | Many(found: map<string, V>)

  datatype Event<V> = Call(at: Time, op: Operation<V>) | SweepAt(at: Time)

  ghost function Effect<V(!new)>(store: Store<V>, now: Time, op: Operation<V>): Store<V> {
    match op
    case GetOp(_) => store
    case ExistsOp(_) => store
    case GetMultipleOp(_) => store
    case SetOp(key, value, ttl) => Put(store, now, key, value, ttl)
    case SetNXOp(key, value, ttl) => PutIfVacant(store, now, key, value, ttl)
    case SetMultipleOp(values, ttl) => PutMany(store, now, values, ttl)
    case DeleteOp(key) => Remove(store, key)
    case DeletePatternOp(pattern) => DropPattern(store, pattern)
  }

  ghost function AnswerTo<V>(store: Store<V>, now: Time, op: Operation<V>): Answer<V> {
    match op
    case GetOp(key) => Found(Lookup(store, now, key))
    case ExistsOp(key) => Flag(Lookup(store, now, key).Some?)
    case GetMultipleOp(keys) => Many(LookupMany(store, now, keys))
    case SetNXOp(key, _, _) => Flag(Vacant(store, now, key))
    case SetOp(_, _, _) => Silent
    case SetMultipleOp(_, _) => Silent
    case DeleteOp(_) => Silent
    case DeletePatternOp(_) => Silent
  }

  /** The answers of a run, in order; a sweep answers nothing. */
  ghost function Answers<V(!new)>(store: Store<V>, events: seq<Event<V>>): seq<Answer<V>>
    decreases |events|
  {
    if events == [] then []
    else
      match events[0]
      case Call(at, op) => [AnswerTo(store, at, op)] + Answers(Effect(store, at, op), events[1..])
      case SweepAt(at) => Answers(Sweep(store, at), events[1..])
  }

  ghost function WithoutSweeps<V>(events: seq<Event<V>>): seq<Event<V>> {
    if events == [] then []
    else if events[0].SweepAt? then WithoutSweeps(events[1..])
    else [events[0]] + WithoutSweeps(events[1..])
  }

  ghost predicate ClockMonotone<V>(events: seq<Event<V>>, start: Time) {
    events == [] || (start <= events[0].at && ClockMonotone(events[1..], events[0].at))
  }

  /** The items alive at an instant; later instants see no more than this. */
  function AliveItem<V>(store: Store<V>, now: Time, key: string): Option<Item<V>> {
    if key in store && Alive(store[key], now) then Some(store[key]) else None
  }

  /** Two stores agree at an instant when they hold the same items alive then. */
  ghost predicate Agree<V(!new)>(a: Store<V>, b: Store<V>, now: Time) {
    forall key: string :: AliveItem(a, now, key) == AliveItem(b, now, key)
  }

  lemma AgreeLater<V(!new)>(a: Store<V>, b: Store<V>, now: Time, later: Time)
    requires Agree(a, b, now) && now <= later
    ensures Agree(a, b, later)
  {
    forall key: string ensures AliveItem(a, later, key) == AliveItem(b, later, key) {
      assert AliveItem(a, now, key) == AliveItem(b, now, key);
    }
  }

  lemma AgreeEffect<V(!new)>(a: Store<V>, b: Store<V>, now: Time, op: Operation<V>)
    requires Agree(a, b, now)
    ensures AnswerTo(a, now, op) == AnswerTo(b, now, op)
    ensures Agree(Effect(a, now, op), Effect(b, now, op), now)
  {
    match op
    case GetOp(key) => assert AliveItem(a, now, key) == AliveItem(b, now, key);
    case ExistsOp(key) => assert AliveItem(a, now, key) == AliveItem(b, now, key);
    case GetMultipleOp(keys) =>
      forall k: string ensures k in LookupMany(a, now, keys) <==> k in LookupMany(b, now, keys)
      {
        assert AliveItem(a, now, k) == AliveItem(b, now, k);
      }
      forall k: string | k in LookupMany(a, now, keys) ensures LookupMany(a, now, keys)[k] == LookupMany(b, now, keys)[k]
      {
        assert AliveItem(a, now, k) == AliveItem(b, now, k);
      }
      assert LookupMany(a, now, keys) == LookupMany(b, now, keys);
    case SetNXOp(key, _, _) =>
      assert AliveItem(a, now, key) == AliveItem(b, now, key);
      AgreePointwise(a, b, now, op);
    case SetOp(_, _, _) => AgreePointwise(a, b, now, op);
    case SetMultipleOp(_, _) => AgreePointwise(a, b, now, op);
    case DeleteOp(_) => AgreePointwise(a, b, now, op);
    case DeletePatternOp(_) => AgreePointwise(a, b, now, op);
  }

  lemma AgreePointwise<V(!new)>(a: Store<V>, b: Store<V>, now: Time, op: Operation<V>)
    requires Agree(a, b, now)
    requires op.SetNXOp? ==> Vacant(a, now, op.key) == Vacant(b, now, op.key)
    ensures Agree(Effect(a, now, op), Effect(b, now, op), now)
  {
    forall k: string ensures AliveItem(Effect(a, now, op), now, k) == AliveItem(Effect(b, now, op), now, k) {
      assert AliveItem(a, now, k) == AliveItem(b, now, k);
    }
  }

  lemma SweepAgrees<V(!new)>(store: Store<V>, now: Time)
    ensures Agree(Sweep(store, now), store, now)
  {
  }

  lemma {:induction false} AgreeingAnswers<V(!new)>(a: Store<V>, b: Store<V>, events: seq<Event<V>>, now: Time)
    requires Agree(a, b, now) && ClockMonotone(events, now)
    ensures Answers(a, events) == Answers(b, WithoutSweeps(events))
    decreases |events|
  {
    if events != [] {
      var at, rest := events[0].at, events[1..];
      AgreeLater(a, b, now, at);
      match events[0]
      case Call(_, op) =>
        AgreeEffect(a, b, at, op);
        AgreeingAnswers(Effect(a, at, op), Effect(b, at, op), rest, at);
        assert WithoutSweeps(events)[1..] == WithoutSweeps(rest);
      case SweepAt(_) =>
        SweepAgrees(a, at);
        AgreeingAnswers(Sweep(a, at), b, rest, at);
    }
  }

  /** Wherever sweeps fall in a run, the answers are those of the same run without any sweep. */
  lemma SweepingUnobservable<V(!new)>(store: Store<V>, events: seq<Event<V>>, start: Time)
    requires ClockMonotone(events, start)
    ensures Answers(store, events) == Answers(store, WithoutSweeps(events))
  {
    AgreeingAnswers(store, store, events, start);
  }

  /**
    Expire looks at neither the clock nor the old expiry, so it can bring an expired key back, but only
    if no sweep came first: a sweep just before it goes unnoticed unless the key was expired and the
    new lifetime is not negative.
   */
  lemma ExpireAfterSweepExact<V(!new)>(store: Store<V>, now: Time, key: string, ttl: Time)
    ensures Agree(Touch(Sweep(store, now), now, key, ttl), Touch(store, now, key, ttl), now)
       <==> !(key in store && !Alive(store[key], now) && ttl >= 0)
  {
    var swept, kept := Touch(Sweep(store, now), now, key, ttl), Touch(store, now, key, ttl);
    if key in store && !Alive(store[key], now) && ttl >= 0 {
      assert AliveItem(kept, now, key).Some? && AliveItem(swept, now, key).None?;
    } else {
      forall k: string ensures AliveItem(swept, now, k) == AliveItem(kept, now, k) {
      }
    }
  }

  /**
    The two readings of "expired" part at one instant only: SetNX overwrites a value that Get still
    returns exactly when it runs at the very instant of expiry.
   */
  lemma SetNXOverwritesReadableExactlyAtExpiry<V>(store: Store<V>, now: Time, key: string)
    ensures Lookup(store, now, key).Some? && Vacant(store, now, key)
       <==> Find(store, key).Some? && Find(store, key).value.expiration == Some(now)
  {
    if key in store && store[key].expiration.Some? {
      assert now <= store[key].expiration.value && !(now < store[key].expiration.value)
        <==> store[key].expiration.value == now;
    }
  }
}
