/**
  Readers and writers of cached tasks, interleaved. Every repository call and every cache call is one
  atomic step, and any number of calls may be under way. The database is kept as the sequence of its
  versions and each cached copy remembers where it came from; both serve the statements only, no step
  looks at them.
 */
module TaskStaleness {
  import opened Prelude
  import opened CacheKeys
  import opened MemoryCache
  import opened EntryCache
  import opened ListKeys
  import opened Tasks

  /**
    The rows from an instant on, the tasks whose rows the write changed, and whether it was silent: a user's
    deletion, which no invalidation follows.
   */
  datatype Version = Version(since: Time, touched: set<Uuid>, silent: bool, rows: map<Uuid, Task>)

  datatype Copy = Copy(task: Task, fetchedAs: nat, fetchedAt: Time, filledAs: nat, filledAt: Time)

  /** A read under way: before its cache look-up, before its query, or before it fills the cache. */
  datatype Reader = Looking(id: Uuid) | Fetching(id: Uuid) | Filling(id: Uuid, task: Task, version: nat, fetchedAt: Time)

  /** A write that has reached the database but not yet invalidated the cache. */
  datatype Write = Write(version: nat, id: Uuid)

  datatype Reply = Reply(at: Time, id: Uuid, task: Task, fetchedAt: Time, filledAt: Time)

  datatype World = World(now: Time, history: seq<Version>, cache: Entries<Copy>, readers: map<nat, Reader>,
                         pending: set<Write>, replies: seq<Reply>)

  datatype Action =
    | Tick(delta: Time)
    | Begin(reader: nat, id: Uuid)
    | Look(reader: nat)
    | Fetch(reader: nat)
    | Fill(reader: nat)
    | Create(id: Uuid, task: Task)
    | Commit(id: Uuid, row: Option<Task>)
    | Invalidate(write: Write)
    | DeleteUser(user: Uuid)
    | SweepNow

  ghost predicate Enabled(w: World, a: Action) {
    match a
    case Tick(delta) => delta >= 0
    case Begin(r, _) => r !in w.readers
    case Look(r) => r in w.readers && w.readers[r].Looking?
    case Fetch(r) => r in w.readers && w.readers[r].Fetching?
    case Fill(r) => r in w.readers && w.readers[r].Filling?
    case Create(id, _) => forall v | 0 <= v < |w.history| :: id !in w.history[v].rows && id !in w.history[v].touched
    case Commit(_, _) => true
    case Invalidate(write) => write in w.pending
    case DeleteUser(_) => true
    case SweepNow => true
  }

  function Last(w: World): nat
    requires w.history != []
  {
    |w.history| - 1
  }

  function Rows(w: World): map<Uuid, Task>
    requires w.history != []
  {
    w.history[Last(w)].rows
  }

  ghost function Looked(w: World, r: nat): World
    requires r in w.readers && w.readers[r].Looking?
  {
    var id := w.readers[r].id;
    var hit := Read(w.cache, w.now, TaskKey(id));
    if hit.Some?
    then w.(readers := w.readers - {r},
            replies := w.replies + [Reply(w.now, id, hit.value.task, hit.value.fetchedAt, hit.value.filledAt)])
    else w.(readers := w.readers[r := Fetching(id)])
  }

  function Fetched(w: World, r: nat): World
    requires w.history != [] && r in w.readers && w.readers[r].Fetching?
  {
    var id := w.readers[r].id;
    if id in Rows(w) then w.(readers := w.readers[r := Filling(id, Rows(w)[id], Last(w), w.now)])
    else w.(readers := w.readers - {r})
  }

  ghost function Filled(w: World, r: nat): World
    requires w.history != [] && r in w.readers && w.readers[r].Filling?
  {
    var f := w.readers[r];
    var copy := Copy(f.task, f.version, f.fetchedAt, Last(w), w.now);
    w.(cache := Stored(w.cache, w.now, TaskKey(f.id), copy, TASK_TTL), readers := w.readers - {r},
       replies := w.replies + [Reply(w.now, f.id, f.task, f.fetchedAt, w.now)])
  }

  function Written(w: World, id: Uuid, row: Option<Task>): seq<Version>
    requires w.history != []
  {
    w.history + [Version(w.now, {id}, false, if row.Some? then Rows(w)[id := row.value] else Rows(w) - {id})]
  }

  /** What the foreign keys do when a user's row goes. */
  function WithoutUser(w: World, user: Uuid): seq<Version>
    requires w.history != []
  {
    w.history + [Version(w.now, set id | id in Rows(w) && Concerns(user, Rows(w)[id]), true, RowsWithoutUser(Rows(w), user, w.now))]
  }

  ghost function Next(w: World, a: Action): World
    requires w.history != [] && Enabled(w, a)
  {
    match a
    case Tick(delta) => w.(now := w.now + delta)
    case Begin(r, id) => w.(readers := w.readers[r := Looking(id)])
    case Look(r) => Looked(w, r)
    case Fetch(r) => Fetched(w, r)
    case Fill(r) => Filled(w, r)
    case Create(id, task) => w.(history := Written(w, id, Some(task)))
    case Commit(id, row) => w.(history := Written(w, id, row), pending := w.pending + {Write(|w.history|, id)})
    case Invalidate(write) => w.(cache := Removed(w.cache, TaskKey(write.id)), pending := w.pending - {write})
    case DeleteUser(user) => w.(history := WithoutUser(w, user))
    case SweepNow => w.(cache := Swept(w.cache, w.now))
  }

  ghost predicate Initial(w: World) {
    |w.history| == 1 && w.history[0].since <= w.now && w.cache == imap[] && w.readers == map[] && w.pending == {} && w.replies == []
  }

  /** The worlds a run goes through, one action at a time. */
  ghost predicate IsRun(worlds: seq<World>, actions: seq<Action>) {
    && |worlds| == |actions| + 1
    && Initial(worlds[0])
    && forall i | 0 <= i < |actions| ::
         worlds[i].history != [] && Enabled(worlds[i], actions[i]) && worlds[i + 1] == Next(worlds[i], actions[i])
  }

  // ---- When a row was stored ----

  predicate CurrentAt(h: seq<Version>, v: nat, x: Time) {
    v < |h| && h[v].since <= x && (v + 1 < |h| ==> x <= h[v + 1].since)
  }

  predicate StoredIn(h: seq<Version>, v: nat, id: Uuid, task: Task, x: Time) {
    CurrentAt(h, v, x) && id in h[v].rows && h[v].rows[id] == task
  }

  ghost predicate StoredAt(h: seq<Version>, id: Uuid, task: Task, x: Time) {
    exists v: nat :: StoredIn(h, v, id, task, x)
  }

  // ---- The invariant ----

  /** Versions start in order, and each differs from the one before at the touched tasks only. */
  ghost predicate HistorySound(h: seq<Version>, now: Time) {
    && h != [] && h[|h| - 1].since <= now
    && forall v | 0 < v < |h| :: OneStep(h, v)
  }

  ghost predicate OneStep(h: seq<Version>, v: nat)
    requires 0 < v < |h|
  {
    && h[v - 1].since <= h[v].since
    && forall id | id !in h[v].touched ::
         (id in h[v - 1].rows <==> id in h[v].rows) && (id in h[v].rows ==> h[v - 1].rows[id] == h[v].rows[id])
  }

  predicate CopySound(h: seq<Version>, id: Uuid, item: Item<Copy>, now: Time) {
    var c := item.value;
    && c.fetchedAs <= c.filledAs < |h|
    && StoredIn(h, c.fetchedAs, id, c.task, c.fetchedAt)
    && c.fetchedAt <= c.filledAt <= now
    && item.expiration == Some(c.filledAt + TASK_TTL)
  }

  /** Every write since the copy was stored, unless silent, still has its invalidation ahead of it. */
  ghost predicate AwaitsDrop(h: seq<Version>, pending: set<Write>, id: Uuid, filledAs: nat) {
    forall v | filledAs < v < |h| && id in h[v].touched && !h[v].silent :: Write(v, id) in pending
  }

  predicate ReaderSound(h: seq<Version>, r: Reader, now: Time) {
    r.Filling? ==> StoredIn(h, r.version, r.id, r.task, r.fetchedAt) && r.fetchedAt <= now
  }

  ghost predicate ReplySound(h: seq<Version>, r: Reply) {
    StoredAt(h, r.id, r.task, r.fetchedAt) && r.fetchedAt <= r.filledAt <= r.at <= r.filledAt + TASK_TTL
  }

  ghost predicate CopiesSound(w: World) {
    forall id | TaskKey(id) in w.cache ::
      CopySound(w.history, id, w.cache[TaskKey(id)], w.now)
      && AwaitsDrop(w.history, w.pending, id, w.cache[TaskKey(id)].value.filledAs)
  }

  ghost predicate ReadersSound(w: World) {
    forall r | r in w.readers :: ReaderSound(w.history, w.readers[r], w.now)
  }

  ghost predicate RepliesSound(w: World) {
    forall k | 0 <= k < |w.replies| :: ReplySound(w.history, w.replies[k]) && w.replies[k].at <= w.now
  }

  ghost predicate Inv(w: World) {
    HistorySound(w.history, w.now) && CopiesSound(w) && ReadersSound(w) && RepliesSound(w)
  }

  // ---- Every step keeps it ----

  lemma StillStored(h: seq<Version>, v: Version, i: nat, id: Uuid, task: Task, x: Time)
    requires StoredIn(h, i, id, task, x) && x <= v.since
    ensures StoredIn(h + [v], i, id, task, x)
  {
  }

  lemma WriteKeepsHistory(w: World, v: Version)
    requires HistorySound(w.history, w.now) && v.since == w.now && OneStep(w.history + [v], |w.history|)
    ensures HistorySound(w.history + [v], w.now)
  {
    var h := w.history + [v];
    forall i | 0 < i < |h| ensures OneStep(h, i) {
      if i < |w.history| {
        assert OneStep(w.history, i);
      }
    }
  }

  /** A new version is kept sound if it is silent, or is still to be invalidated, or no copy of its task exists. */
  lemma WriteKeeps(w: World, w': World, v: Version)
    requires Inv(w) && w' == w.(history := w.history + [v], pending := w'.pending) && w.pending <= w'.pending
    requires v.since == w.now && OneStep(w'.history, |w.history|)
    requires forall id | id in v.touched && !v.silent :: Write(|w.history|, id) in w'.pending || TaskKey(id) !in w.cache
    ensures Inv(w')
  {
    WriteKeepsHistory(w, v);
    forall i | TaskKey(i) in w'.cache
      ensures CopySound(w'.history, i, w'.cache[TaskKey(i)], w'.now)
           && AwaitsDrop(w'.history, w'.pending, i, w'.cache[TaskKey(i)].value.filledAs)
    {
      var c := w.cache[TaskKey(i)].value;
      StillStored(w.history, v, c.fetchedAs, i, c.task, c.fetchedAt);
    }
    forall r | r in w'.readers ensures ReaderSound(w'.history, w'.readers[r], w'.now) {
      assert ReaderSound(w.history, w.readers[r], w.now);
    }
    forall k | 0 <= k < |w'.replies| ensures ReplySound(w'.history, w'.replies[k]) && w'.replies[k].at <= w'.now {
      var r := w.replies[k];
      assert ReplySound(w.history, r);
      var i: nat :| StoredIn(w.history, i, r.id, r.task, r.fetchedAt);
      StillStoredEarlier(w, v, i, r);
    }
  }

  lemma StillStoredEarlier(w: World, v: Version, i: nat, r: Reply)
    requires StoredIn(w.history, i, r.id, r.task, r.fetchedAt) && v.since == w.now
    requires r.fetchedAt <= w.now
    ensures StoredAt(w.history + [v], r.id, r.task, r.fetchedAt)
  {
    StillStored(w.history, v, i, r.id, r.task, r.fetchedAt);
  }

  lemma CachedWasStored(w: World, id: Uuid) returns (v: nat)
    requires Inv(w) && TaskKey(id) in w.cache
    ensures v < |w.history| && id in w.history[v].rows
  {
    v := w.cache[TaskKey(id)].value.fetchedAs;
    assert CopySound(w.history, id, w.cache[TaskKey(id)], w.now);
  }

  lemma UnusedNotCached(w: World, id: Uuid)
    requires Inv(w) && forall v | 0 <= v < |w.history| :: id !in w.history[v].rows
    ensures TaskKey(id) !in w.cache
  {
    if TaskKey(id) in w.cache {
      var v := CachedWasStored(w, id);
      assert false;
    }
  }

  lemma LookKeeps(w: World, r: nat)
    requires Inv(w) && r in w.readers && w.readers[r].Looking?
    ensures Inv(Looked(w, r))
  {
    var w' := Looked(w, r);
    var id := w.readers[r].id;
    forall i | i in w'.readers ensures ReaderSound(w'.history, w'.readers[i], w'.now) {
      assert i != r ==> ReaderSound(w.history, w.readers[i], w.now);
    }
    if Read(w.cache, w.now, TaskKey(id)).Some? {
      var c := w.cache[TaskKey(id)].value;
      assert StoredIn(w.history, c.fetchedAs, id, c.task, c.fetchedAt);
      assert ReplySound(w.history, w'.replies[|w.replies|]);
    }
  }

  lemma FillKeeps(w: World, r: nat)
    requires Inv(w) && r in w.readers && w.readers[r].Filling?
    ensures Inv(Filled(w, r))
  {
    var w', f := Filled(w, r), w.readers[r];
    assert ReaderSound(w.history, f, w.now);
    assert ReplySound(w.history, Reply(w.now, f.id, f.task, f.fetchedAt, w.now));
    forall i | TaskKey(i) in w'.cache
      ensures CopySound(w'.history, i, w'.cache[TaskKey(i)], w'.now)
           && AwaitsDrop(w'.history, w'.pending, i, w'.cache[TaskKey(i)].value.filledAs)
    {
    }
    forall i | i in w'.readers ensures ReaderSound(w'.history, w'.readers[i], w'.now) {
      assert ReaderSound(w.history, w.readers[i], w.now);
    }
  }

  lemma QuietKeeps(w: World, a: Action)
    requires Inv(w) && Enabled(w, a) && (a.Tick? || a.Begin? || a.Fetch? || a.SweepNow?)
    ensures Inv(Next(w, a))
  {
    var w' := Next(w, a);
    assert w'.history == w.history && w'.replies == w.replies && w'.pending == w.pending && w.now <= w'.now;
    forall i | TaskKey(i) in w'.cache
      ensures CopySound(w'.history, i, w'.cache[TaskKey(i)], w'.now)
           && AwaitsDrop(w'.history, w'.pending, i, w'.cache[TaskKey(i)].value.filledAs)
    {
      assert CopySound(w.history, i, w.cache[TaskKey(i)], w.now);
    }
    forall i | i in w'.readers ensures ReaderSound(w'.history, w'.readers[i], w'.now) {
      assert i in w.readers ==> ReaderSound(w.history, w.readers[i], w.now);
    }
  }

  lemma InvalidateKeeps(w: World, write: Write)
    requires Inv(w) && write in w.pending
    ensures Inv(Next(w, Invalidate(write)))
  {
    var w' := Next(w, Invalidate(write));
    forall i | TaskKey(i) in w'.cache
      ensures CopySound(w'.history, i, w'.cache[TaskKey(i)], w'.now)
           && AwaitsDrop(w'.history, w'.pending, i, w'.cache[TaskKey(i)].value.filledAs)
    {
      assert i != write.id;
      assert AwaitsDrop(w.history, w.pending, i, w.cache[TaskKey(i)].value.filledAs);
    }
  }

  lemma StepKeeps(w: World, a: Action)
    requires Inv(w) && Enabled(w, a)
    ensures Inv(Next(w, a))
  {
    match a
    case Tick(_) => QuietKeeps(w, a);
    case Begin(_, _) => QuietKeeps(w, a);
    case Fetch(_) => QuietKeeps(w, a);
    case SweepNow => QuietKeeps(w, a);
    case Look(r) => LookKeeps(w, r);
    case Fill(r) => FillKeeps(w, r);
    case Create(id, task) =>
      UnusedNotCached(w, id);
      WriteKeeps(w, Next(w, a), Written(w, id, Some(task))[|w.history|]);
    case Commit(id, row) => WriteKeeps(w, Next(w, a), Written(w, id, row)[|w.history|]);
    case DeleteUser(user) => WriteKeeps(w, Next(w, a), WithoutUser(w, user)[|w.history|]);
    case Invalidate(write) => InvalidateKeeps(w, write);
  }

  lemma {:induction false} RunKeeps(worlds: seq<World>, actions: seq<Action>, n: nat)
    requires IsRun(worlds, actions) && n <= |actions|
    ensures Inv(worlds[n])
  {
    if n > 0 {
      RunKeeps(worlds, actions, n - 1);
      StepKeeps(worlds[n - 1], actions[n - 1]);
    }
  }

  // ---- Staleness is bounded ----

  /**
    However reads and writes interleave, what a read answers was the stored row at some instant no earlier
    than the entry's life plus the filling read's fetch-to-store delay before the answer.
   */
  lemma StalenessBounded(worlds: seq<World>, actions: seq<Action>, n: nat, k: nat)
    requires IsRun(worlds, actions) && n <= |actions| && k < |worlds[n].replies|
    ensures var r := worlds[n].replies[k];
            exists x :: r.at - TASK_TTL - (r.filledAt - r.fetchedAt) <= x <= r.at && StoredAt(worlds[n].history, r.id, r.task, x)
  {
    RunKeeps(worlds, actions, n);
    assert ReplySound(worlds[n].history, worlds[n].replies[k]);
  }

  // ---- When no invalidation is pending ----

  lemma {:induction false} UntouchedSame(h: seq<Version>, now: Time, id: Uuid, a: nat, b: nat)
    requires HistorySound(h, now) && a <= b < |h|
    requires forall v | a < v <= b :: id !in h[v].touched
    ensures id in h[a].rows <==> id in h[b].rows
    ensures id in h[a].rows ==> h[a].rows[id] == h[b].rows[id]
    decreases b
  {
    if a < b {
      UntouchedSame(h, now, id, a, b - 1);
      assert OneStep(h, b);
    }
  }

  /** What version v says of a task. */
  function RowIn(h: seq<Version>, v: nat, id: Uuid): Option<Task>
    requires v < |h|
  {
    if id in h[v].rows then Some(h[v].rows[id]) else None
  }

  /** No user's deletion has reached the task since its copy was put in the cache. */
  ghost predicate NoneSilent(h: seq<Version>, id: Uuid, filledAs: nat) {
    forall v | filledAs < v < |h| && h[v].silent :: id !in h[v].touched
  }

  /**
    Once no write of a task has its invalidation ahead, and no user's deletion reached it since, a cached copy
    is the stored row exactly if the row was the same when the copy was fetched and when it was put in the cache.
   */
  lemma CopyCurrentExactly(worlds: seq<World>, actions: seq<Action>, n: nat, id: Uuid)
    requires IsRun(worlds, actions) && n <= |actions| && TaskKey(id) in worlds[n].cache
    requires forall write | write in worlds[n].pending :: write.id != id
    requires NoneSilent(worlds[n].history, id, worlds[n].cache[TaskKey(id)].value.filledAs)
    ensures var w, c := worlds[n], worlds[n].cache[TaskKey(id)].value;
            && w.history != [] && c.fetchedAs <= c.filledAs < |w.history|
            && (RowIn(w.history, Last(w), id) == Some(c.task)
                <==> RowIn(w.history, c.fetchedAs, id) == RowIn(w.history, c.filledAs, id))
  {
    RunKeeps(worlds, actions, n);
    var w := worlds[n];
    var c := w.cache[TaskKey(id)].value;
    assert CopySound(w.history, id, w.cache[TaskKey(id)], w.now);
    assert AwaitsDrop(w.history, w.pending, id, c.filledAs);
    forall v | c.filledAs < v <= Last(w) ensures id !in w.history[v].touched {
    }
    UntouchedSame(w.history, w.now, id, c.filledAs, Last(w));
  }

  /** A user's deletion leaves a right copy right exactly if the task was not theirs, in either role. */
  lemma DeleteUserStalesExactly(worlds: seq<World>, actions: seq<Action>, n: nat, id: Uuid)
    requires IsRun(worlds, actions) && n < |actions| && actions[n].DeleteUser?
    requires worlds[n].history != [] && TaskKey(id) in worlds[n].cache
    requires RowIn(worlds[n].history, Last(worlds[n]), id) == Some(worlds[n].cache[TaskKey(id)].value.task)
    ensures var w, w', user := worlds[n], worlds[n + 1], actions[n].user;
            && w'.history != [] && TaskKey(id) in w'.cache
            && (RowIn(w'.history, Last(w'), id) == Some(w'.cache[TaskKey(id)].value.task) <==> !Concerns(user, Rows(w)[id]))
  {
  }

  // ---- Calls that do not overlap ----

  /** At most one call is under way: one read, or one write between its commit and its invalidation. */
  predicate Alone(w: World) {
    && (w.pending == {} || w.readers == map[])
    && (forall r, q | r in w.readers && q in w.readers :: r == q)
    && (forall a, b | a in w.pending && b in w.pending :: a == b)
  }

  /** Nothing touched a task between its fetch and its fill. */
  ghost predicate Undisturbed(w: World) {
    && (forall id | TaskKey(id) in w.cache :: Untouched(w.history, id, w.cache[TaskKey(id)].value.fetchedAs, w.cache[TaskKey(id)].value.filledAs))
    && (forall r | r in w.readers && w.readers[r].Filling? :: Untouched(w.history, w.readers[r].id, w.readers[r].version, |w.history| - 1))
  }

  ghost predicate Untouched(h: seq<Version>, id: Uuid, a: int, b: int) {
    b < |h| && forall v | a < v <= b && 0 <= v :: id !in h[v].touched
  }

  /** A user is deleted while no read is under way. */
  predicate Uninterrupting(w: World, a: Action) {
    a.DeleteUser? ==> w.readers == map[]
  }

  lemma AloneKeeps(w: World, a: Action)
    requires Inv(w) && Enabled(w, a) && Undisturbed(w) && Alone(Next(w, a)) && Uninterrupting(w, a)
    ensures Undisturbed(Next(w, a))
  {
    var w' := Next(w, a);
    forall id | TaskKey(id) in w'.cache
      ensures Untouched(w'.history, id, w'.cache[TaskKey(id)].value.fetchedAs, w'.cache[TaskKey(id)].value.filledAs)
    {
      if TaskKey(id) in w.cache {
        assert CopySound(w.history, id, w.cache[TaskKey(id)], w.now);
        assert Untouched(w.history, id, w.cache[TaskKey(id)].value.fetchedAs, w.cache[TaskKey(id)].value.filledAs);
      }
    }
    forall r | r in w'.readers && w'.readers[r].Filling?
      ensures Untouched(w'.history, w'.readers[r].id, w'.readers[r].version, |w'.history| - 1)
    {
      if r in w.readers && w.readers[r].Filling? {
        assert ReaderSound(w.history, w.readers[r], w.now);
        assert Untouched(w.history, w.readers[r].id, w.readers[r].version, |w.history| - 1);
      }
    }
  }

  lemma {:induction false} AloneRunKeeps(worlds: seq<World>, actions: seq<Action>, n: nat)
    requires IsRun(worlds, actions) && n <= |actions|
    requires forall i | 0 <= i <= n :: Alone(worlds[i])
    requires forall i | 0 <= i < n :: Uninterrupting(worlds[i], actions[i])
    ensures Undisturbed(worlds[n])
  {
    if n > 0 {
      AloneRunKeeps(worlds, actions, n - 1);
      RunKeeps(worlds, actions, n - 1);
      AloneKeeps(worlds[n - 1], actions[n - 1]);
    }
  }

  /**
    If calls never overlap, every copy in the cache that no user's deletion has reached is the stored row
    whenever no write is half done.
   */
  lemma NoOverlapNoStaleness(worlds: seq<World>, actions: seq<Action>, n: nat, id: Uuid)
    requires IsRun(worlds, actions) && n <= |actions|
    requires forall i | 0 <= i <= n :: Alone(worlds[i])
    requires forall i | 0 <= i < n :: Uninterrupting(worlds[i], actions[i])
    requires worlds[n].pending == {} && TaskKey(id) in worlds[n].cache
    requires NoneSilent(worlds[n].history, id, worlds[n].cache[TaskKey(id)].value.filledAs)
    ensures worlds[n].history != [] && RowIn(worlds[n].history, Last(worlds[n]), id) == Some(worlds[n].cache[TaskKey(id)].value.task)
  {
    RunKeeps(worlds, actions, n);
    AloneRunKeeps(worlds, actions, n);
    CopyCurrentExactly(worlds, actions, n, id);
    var w, c := worlds[n], worlds[n].cache[TaskKey(id)].value;
    assert Untouched(w.history, id, c.fetchedAs, c.filledAs);
    UntouchedSame(w.history, w.now, id, c.fetchedAs, c.filledAs);
  }

  // ---- The bound is reached ----

  lemma Extend(worlds: seq<World>, actions: seq<Action>, a: Action) returns (worlds': seq<World>, actions': seq<Action>)
    requires IsRun(worlds, actions) && worlds[|actions|].history != [] && Enabled(worlds[|actions|], a)
    ensures IsRun(worlds', actions') && |actions'| == |actions| + 1 && worlds'[0] == worlds[0]
    ensures worlds'[|actions'|] == Next(worlds[|actions|], a)
  {
    worlds', actions' := worlds + [Next(worlds[|actions|], a)], actions + [a];
    forall i | 0 <= i < |actions'|
      ensures worlds'[i].history != [] && Enabled(worlds'[i], actions'[i]) && worlds'[i + 1] == Next(worlds'[i], actions'[i])
    {
      assert i < |actions| ==> worlds'[i + 1] == worlds[i + 1];
    }
  }

  /** A read queries the database, and a whole write happens before it fills the cache. */
  lemma StaleFetch(w: World, id: Uuid, row: Task) returns (worlds: seq<World>, actions: seq<Action>)
    requires Initial(w) && id in Rows(w)
    ensures IsRun(worlds, actions) && worlds[0] == w
    ensures worlds[|actions|] == w.(history := Written(w, id, Some(row)), readers := map[0 := Filling(id, Rows(w)[id], 0, w.now)])
  {
    worlds, actions := [w], [];
    worlds, actions := Extend(worlds, actions, Begin(0, id));
    worlds, actions := Extend(worlds, actions, Look(0));
    worlds, actions := Extend(worlds, actions, Fetch(0));
    worlds, actions := Extend(worlds, actions, Commit(id, Some(row)));
    worlds, actions := Extend(worlds, actions, Invalidate(Write(1, id)));
    assert worlds[|actions|].cache == w.cache;
  }

  /** After that the read fills the cache, as late as it likes, and the copy is read at the end of its life. */
  lemma StaleReads(w: World, id: Uuid, row: Task, delay: Time) returns (worlds: seq<World>, actions: seq<Action>)
    requires Initial(w) && id in Rows(w) && delay >= 0
    ensures IsRun(worlds, actions) && worlds[0] == w
    ensures var w' := worlds[|actions|];
            && w'.history == Written(w, id, Some(row)) && w'.replies != []
            && w'.replies[|w'.replies| - 1]
                 == Reply(w.now + delay + TASK_TTL, id, Rows(w)[id], w.now, w.now + delay)
  {
    worlds, actions := StaleFetch(w, id, row);
    worlds, actions := Extend(worlds, actions, Tick(delay));
    worlds, actions := Extend(worlds, actions, Fill(0));
    worlds, actions := Extend(worlds, actions, Tick(TASK_TTL));
    worlds, actions := Extend(worlds, actions, Begin(1, id));
    assert Read(worlds[|actions|].cache, worlds[|actions|].now, TaskKey(id)).Some?;
    worlds, actions := Extend(worlds, actions, Look(1));
  }

  /**
    The staleness bound cannot be improved: for every delay there is a run whose last answer was not the
    stored row at any instant later than the bound allows.
   */
  lemma BoundReached(w: World, id: Uuid, row: Task, delay: Time) returns (worlds: seq<World>, actions: seq<Action>)
    requires Initial(w) && id in Rows(w) && row != Rows(w)[id] && delay >= 0
    ensures IsRun(worlds, actions) && worlds[0] == w
    ensures var w' := worlds[|actions|];
            && w'.replies != []
            && var r := w'.replies[|w'.replies| - 1];
               && r.filledAt - r.fetchedAt == delay
               && forall x | x > r.at - TASK_TTL - delay :: !StoredAt(w'.history, r.id, r.task, x)
  {
    worlds, actions := StaleReads(w, id, row, delay);
    var w' := worlds[|actions|];
    forall x | x > w.now ensures !StoredAt(w'.history, id, Rows(w)[id], x) {
      forall v: nat ensures !StoredIn(w'.history, v, id, Rows(w)[id], x) {
      }
    }
  }

  // ---- One call alone ----

  /** The task service's state as the sequential model has it. */
  ghost function Plain(w: World): TaskState
    requires w.history != []
  {
    TaskState({}, Rows(w), imap k | k in w.cache :: Item(CachedTask(w.cache[k].value.task), w.cache[k].expiration), [])
  }

  /** A read whose steps nobody interrupts. */
  ghost function WholeRead(w: World, r: nat, id: Uuid): World
    requires w.history != [] && r !in w.readers
  {
    var w1 := Next(w, Begin(r, id));
    var w2 := Next(w1, Look(r));
    if r !in w2.readers then w2
    else
      var w3 := Next(w2, Fetch(r));
      if r !in w3.readers then w3 else Next(w3, Fill(r))
  }

  /** Taken without interruption, the steps of a read are GetTask of the sequential model, answer included. */
  lemma WholeReadIsGetTask(w: World, r: nat, id: Uuid)
    requires w.history != [] && r !in w.readers
    ensures var w' := WholeRead(w, r, id);
            var (s', answer) := GetTask(Plain(w), w.now, id);
            && w'.history != [] && Plain(w') == s' && w'.readers == w.readers
            && (answer.Ok? ==> w'.replies != [] && w'.replies[|w'.replies| - 1].task == answer.value)
            && (answer.Err? ==> w'.replies == w.replies)
  {
    var w' := WholeRead(w, r, id);
    assert w.readers[r := Looking(id)] - {r} == w.readers;
    assert w.readers[r := Looking(id)][r := Fetching(id)] - {r} == w.readers;
    assert id in Rows(w) ==>
      w.readers[r := Looking(id)][r := Fetching(id)][r := Filling(id, Rows(w)[id], Last(w), w.now)] - {r} == w.readers;
    assert Read(Plain(w).cache, w.now, TaskKey(id)).Some? <==> Read(w.cache, w.now, TaskKey(id)).Some?;
  }
}
