/**
  The cache read by meaning: which entry is stored, rather than under which string. Every operation
  on the string-keyed store is the plain operation on entries, because keys render injectively and
  patterns cover exactly their family.
 */
module EntryCache {
  import opened Prelude
  import opened CacheKeys
  import opened MemoryCache

  const APP := CacheKeyBuilder("app")

  type Entries<V> = imap<Key, Item<V>>

  ghost function Stored<V>(e: Entries<V>, now: Time, k: Key, value: V, ttl: Time): Entries<V> {
    e[k := Item(value, ExpiryAfter(now, ttl))]
  }

  ghost function Removed<V>(e: Entries<V>, k: Key): Entries<V> {
    imap j | j in e && j != k :: e[j]
  }

  ghost function SessionsDropped<V>(e: Entries<V>, u: Uuid): Entries<V> {
    imap j | j in e && !(j.SessionKey? && j.userId == u) :: e[j]
  }

  ghost function UserListsDropped<V>(e: Entries<V>): Entries<V> {
    imap j | j in e && !j.UserListKey? :: e[j]
  }

  ghost function TaskListsDropped<V>(e: Entries<V>): Entries<V> {
    imap j | j in e && !j.TaskListKey? :: e[j]
  }

  ghost function Swept<V>(e: Entries<V>, now: Time): Entries<V> {
    imap j | j in e && Alive(e[j], now) :: e[j]
  }

  ghost predicate Live<V>(e: Entries<V>, now: Time, k: Key) {
    k in e && Alive(e[k], now)
  }

  ghost function Read<V>(e: Entries<V>, now: Time, k: Key): Option<V> {
    if Live(e, now, k) then Some(e[k].value) else None
  }

  // ---- The string-keyed store implements this ----

  function K(k: Key): string {
    Render(APP, k)
  }

  ghost function EntriesOf<V>(store: Store<V>): Entries<V> {
    imap k: Key | K(k) in store :: store[K(k)]
  }

  lemma PutStores<V>(store: Store<V>, now: Time, k: Key, value: V, ttl: Time)
    ensures EntriesOf(Put(store, now, K(k), value, ttl)) == Stored(EntriesOf(store), now, k, value, ttl)
  {
    forall j: Key { RenderInjective(APP, j, k); }
  }

  lemma RemoveRemoves<V>(store: Store<V>, k: Key)
    ensures EntriesOf(Remove(store, K(k))) == Removed(EntriesOf(store), k)
  {
    forall j: Key { RenderInjective(APP, j, k); }
  }

  lemma PatternDropsSessions<V>(store: Store<V>, u: Uuid)
    ensures EntriesOf(DropPattern(store, APP.UserSessions(u.text))) == SessionsDropped(EntriesOf(store), u)
  {
    forall j: Key { UserSessionsExact(APP, u, j); }
  }

  lemma PatternDropsUserLists<V>(store: Store<V>)
    ensures EntriesOf(DropPattern(store, APP.UserList("") + "*")) == UserListsDropped(EntriesOf(store))
  {
    forall j: Key { UserListsExact(APP, j); }
  }

  lemma SweepSweeps<V>(store: Store<V>, now: Time)
    ensures EntriesOf(Sweep(store, now)) == Swept(EntriesOf(store), now)
  {
  }

  lemma LookupReads<V>(store: Store<V>, now: Time, k: Key)
    ensures Lookup(store, now, K(k)) == Read(EntriesOf(store), now, k)
  {
  }

  lemma PatternDropsTaskLists<V>(store: Store<V>)
    ensures EntriesOf(DropPattern(store, APP.TaskList("") + "*")) == TaskListsDropped(EntriesOf(store))
  {
    forall j: Key { TaskListsExact(APP, j); }
  }

  // ---- What the use cases call, told in entries ----

  method GetEntry<V>(cache: Cache<V>, now: Time, k: Key) returns (r: Option<V>)
    ensures r == Read(EntriesOf(cache.store), now, k)
  {
    LookupReads(cache.store, now, k);
    r := cache.Get(now, K(k));
  }

  method HasEntry<V>(cache: Cache<V>, now: Time, k: Key) returns (r: bool)
    ensures r <==> Read(EntriesOf(cache.store), now, k).Some?
  {
    LookupReads(cache.store, now, k);
    r := cache.Exists(now, K(k));
  }

  method SetEntry<V>(cache: Cache<V>, now: Time, k: Key, value: V, ttl: Time)
    modifies cache
    ensures EntriesOf(cache.store) == Stored(EntriesOf(old(cache.store)), now, k, value, ttl)
  {
    PutStores(cache.store, now, k, value, ttl);
    cache.Set(now, K(k), value, ttl);
  }

  method DeleteEntry<V>(cache: Cache<V>, k: Key)
    modifies cache
    ensures EntriesOf(cache.store) == Removed(EntriesOf(old(cache.store)), k)
  {
    RemoveRemoves(cache.store, k);
    cache.Delete(K(k));
  }

  method DeleteUserSessions<V>(cache: Cache<V>, u: Uuid)
    modifies cache
    ensures EntriesOf(cache.store) == SessionsDropped(EntriesOf(old(cache.store)), u)
  {
    PatternDropsSessions(cache.store, u);
    cache.DeletePattern(APP.UserSessions(u.text));
  }

  method DeleteUserLists<V>(cache: Cache<V>)
    modifies cache
    ensures EntriesOf(cache.store) == UserListsDropped(EntriesOf(old(cache.store)))
  {
    PatternDropsUserLists(cache.store);
    cache.DeletePattern(APP.UserList("") + "*");
  }

  method DeleteTaskLists<V>(cache: Cache<V>)
    modifies cache
    ensures EntriesOf(cache.store) == TaskListsDropped(EntriesOf(old(cache.store)))
  {
    PatternDropsTaskLists(cache.store);
    cache.DeletePattern(APP.TaskList("") + "*");
  }

  method SweepEntries<V>(cache: Cache<V>, now: Time)
    modifies cache
    ensures EntriesOf(cache.store) == Swept(EntriesOf(old(cache.store)), now)
  {
    SweepSweeps(cache.store, now);
    cache.Cleanup(now);
  }
}
