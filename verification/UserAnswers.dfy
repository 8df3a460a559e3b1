/** What the reads of the user use case answer, from the cache or not, page by page. */
module UserAnswers {
  import opened Prelude
  import opened CacheKeys
  import opened MemoryCache
  import opened EntryCache
  import opened ListKeys
  import opened Identity
  import opened UserCaching

  /** In every run that keeps entries and lists exact, the three reads answer what the database holds now. */
  lemma AnswersExactInRuns(cfg: Config, start: State, trace: seq<Timed>, now: Time, id: Uuid, email: string, f: UserFilter, p: Pagination)
    requires Starting(start) && Proper(cfg, start, trace) && NotBefore(trace, now) && email != "" && PlainQuery(f, p)
    requires AllKeepEntries(cfg, start, trace) && AllKeepLists(cfg, start, trace)
    ensures var s := Run(cfg, start, trace);
            && GetUser(s, now, id).1 == (if id in s.users then Ok(Output(s.users[id])) else Err(UserNotFound))
            && GetUserByEmail(s, now, email).1
                 == (if UserByEmail(s.users, email).Some? then Ok(Output(UserByEmail(s.users, email).value)) else Err(UserNotFound))
            && ListUsers(cfg, s, now, true, f, p).1 == Ok(FindAll(cfg, s.users, f, p))
  {
    EntriesExactInRuns(cfg, start, trace, now);
    ListsExactInRuns(cfg, start, trace, now);
    ExactAnswers(cfg, Run(cfg, start, trace), now, id, email, f, p);
  }

  // ---- A cached answer is given again ----

  ghost predicate UserMissed(s: State, now: Time, k: Key) {
    !(Live(s.cache, now, k) && s.cache[k].value.UserEntry?)
  }

  /**
    A user found by ID is answered the same again, whatever became of the rows, for as long as the entry lives;
    an entry just made lives five minutes.
   */
  lemma UserAnsweredAgain(s: State, now: Time, t: State, later: Time, id: Uuid)
    requires now <= later && t.cache == GetUser(s, now, id).0.cache && GetUser(s, now, id).1.Ok?
    ensures Live(t.cache, later, UserKey(id)) ==> GetUser(t, later, id).1 == GetUser(s, now, id).1
    ensures UserMissed(s, now, UserKey(id)) ==> (Live(t.cache, later, UserKey(id)) <==> later <= now + 300 * SECOND)
  {
  }

  lemma EmailAnsweredAgain(s: State, now: Time, t: State, later: Time, email: string)
    requires now <= later && t.cache == GetUserByEmail(s, now, email).0.cache && GetUserByEmail(s, now, email).1.Ok?
    ensures Live(t.cache, later, EmailKey(email)) ==> GetUserByEmail(t, later, email).1 == GetUserByEmail(s, now, email).1
    ensures UserMissed(s, now, EmailKey(email)) ==> (Live(t.cache, later, EmailKey(email)) <==> later <= now + 300 * SECOND)
  {
  }

  /** And a list, whatever the query, for two minutes. */
  lemma ListAnsweredAgain(cfg: Config, s: State, now: Time, t: State, later: Time, f: UserFilter, p: Pagination)
    requires now <= later && t.cache == ListUsers(cfg, s, now, true, f, p).0.cache
    ensures Live(t.cache, later, ListKey(f, p)) ==> ListUsers(cfg, t, later, true, f, p).1 == ListUsers(cfg, s, now, true, f, p).1
    ensures !(Live(s.cache, now, ListKey(f, p)) && s.cache[ListKey(f, p)].value.ListEntry?) ==>
              (Live(t.cache, later, ListKey(f, p)) <==> later <= now + 120 * SECOND)
  {
  }

  // ---- Pages ----

  function Min(a: nat, b: nat): nat {
    if a <= b then a else b
  }

  /** The database cuts a limit and an offset out of the rows it selects. */
  ghost predicate Cuts(cfg: Config, selected: (string, map<Uuid, User>) -> seq<User>) {
    forall search: string, limit: int, offset: int, users: map<Uuid, User> | limit >= 0 && offset >= 0 ::
      var all := selected(search, users);
      cfg.rows(search, limit, offset, users) == all[Min(offset, |all|)..Min(offset + limit, |all|)]
  }

  function Pages(cfg: Config, users: map<Uuid, User>, f: UserFilter, p: Pagination, n: nat): seq<UserOutput> {
    if n == 0 then [] else Pages(cfg, users, f, p, n - 1) + FindAll(cfg, users, f, p.(page := n)).users
  }

  lemma {:induction false} OutputsJoin(a: seq<User>, b: seq<User>)
    ensures RowOutputs(a + b) == RowOutputs(a) + RowOutputs(b)
  {
    if a == [] {
      assert a + b == b;
    } else {
      OutputsJoin(a[1..], b);
      var ab := a + b;
      assert ab != [] && ab[0] == a[0] && ab[1..] == a[1..] + b;
      assert RowOutputs(ab) == [Output(a[0].(roles := []))] + RowOutputs(a[1..] + b);
    }
  }

  lemma NextPage(n: nat, size: nat)
    requires n > 0
    ensures 0 <= (n - 1) * size && n * size == (n - 1) * size + size
  {
  }

  lemma PageJoins(all: seq<User>, from: nat, size: nat)
    ensures RowOutputs(all[..Min(from, |all|)]) + RowOutputs(all[Min(from, |all|)..Min(from + size, |all|)])
         == RowOutputs(all[..Min(from + size, |all|)])
  {
    OutputsJoin(all[..Min(from, |all|)], all[Min(from, |all|)..Min(from + size, |all|)]);
    assert all[..Min(from, |all|)] + all[Min(from, |all|)..Min(from + size, |all|)] == all[..Min(from + size, |all|)];
  }

  lemma PageIs(cfg: Config, selected: (string, map<Uuid, User>) -> seq<User>, users: map<Uuid, User>, f: UserFilter, p: Pagination, from: nat)
    requires Cuts(cfg, selected) && p.pageSize >= 0 && from == (p.page - 1) * p.pageSize
    ensures var all := selected(f.search, users);
            FindAll(cfg, users, f, p).users == RowOutputs(all[Min(from, |all|)..Min(from + p.pageSize, |all|)])
  {
    assert cfg.rows(f.search, p.pageSize, from, users) == selected(f.search, users)[
      Min(from, |selected(f.search, users)|)..Min(from + p.pageSize, |selected(f.search, users)|)];
  }

  /** Page after page, every selected user is listed, in order and once. */
  lemma {:induction false} PagesTile(cfg: Config, selected: (string, map<Uuid, User>) -> seq<User>,
                                     users: map<Uuid, User>, f: UserFilter, p: Pagination, n: nat)
    requires Cuts(cfg, selected) && p.pageSize >= 0
    ensures var all := selected(f.search, users);
            n * p.pageSize >= 0 && Pages(cfg, users, f, p, n) == RowOutputs(all[..Min(n * p.pageSize, |all|)])
  {
    var all := selected(f.search, users);
    if n > 0 {
      PagesTile(cfg, selected, users, f, p, n - 1);
      var from := (n - 1) * p.pageSize;
      NextPage(n, p.pageSize);
      PageIs(cfg, selected, users, f, p.(page := n), from);
      PageJoins(all, from, p.pageSize);
    }
  }
}
