/**
  Whether the cached user entries tell the truth: an entry by ID, by email or for a list query is exact
  when it equals what the database would answer now.
 */
module UserCaching {
  import opened Prelude
  import opened CacheKeys
  import opened MemoryCache
  import opened EntryCache
  import opened ListKeys
  import opened Identity
  import opened Sessions

  // ---- Exactness ----

  ghost predicate IdExact(s: State, now: Time, id: Uuid) {
    Live(s.cache, now, UserKey(id)) ==>
      id in s.users && s.cache[UserKey(id)].value == UserEntry(Output(s.users[id]))
  }

  ghost predicate EmailExact(s: State, now: Time, email: string) {
    Live(s.cache, now, EmailKey(email)) ==>
      var user := UserByEmail(s.users, email);
      user.Some? && s.cache[EmailKey(email)].value == UserEntry(Output(user.value))
  }

  function ListKey(f: UserFilter, p: Pagination): Key {
    UserListKey(UserListText(f, p))
  }

  /** A list query the validator lets through, with no bar in its search text. */
  predicate PlainQuery(f: UserFilter, p: Pagination) {
    ValidPagination(p) && PipeFree(f.search)
  }

  ghost predicate ListExact(cfg: Config, s: State, now: Time, f: UserFilter, p: Pagination) {
    Live(s.cache, now, ListKey(f, p)) ==> s.cache[ListKey(f, p)].value == ListEntry(FindAll(cfg, s.users, f, p))
  }

  ghost predicate EntriesExact(s: State, now: Time) {
    && (forall id :: IdExact(s, now, id))
    && (forall email | email != "" :: EmailExact(s, now, email))
  }

  ghost predicate ListsExact(cfg: Config, s: State, now: Time) {
    forall f, p | PlainQuery(f, p) :: ListExact(cfg, s, now, f, p)
  }

  // ---- Exact entries answer like the database ----

  lemma ExactAnswers(cfg: Config, s: State, now: Time, id: Uuid, email: string, f: UserFilter, p: Pagination)
    requires EntriesExact(s, now) && ListsExact(cfg, s, now) && email != "" && PlainQuery(f, p)
    ensures GetUser(s, now, id).1 == (if id in s.users then Ok(Output(s.users[id])) else Err(UserNotFound))
    ensures GetUserByEmail(s, now, email).1
         == (if UserByEmail(s.users, email).Some? then Ok(Output(UserByEmail(s.users, email).value)) else Err(UserNotFound))
    ensures ListUsers(cfg, s, now, true, f, p).1 == Ok(FindAll(cfg, s.users, f, p))
    ensures var page := ListUsers(cfg, s, now, true, f, p).1.value;
            page.total == |s.users| && page.page == p.page && page.pageSize == p.pageSize
  {
    assert IdExact(s, now, id) && EmailExact(s, now, email) && ListExact(cfg, s, now, f, p);
  }

  // ---- Steps that leave the users alone ----

  predicate UserSide(k: Key) {
    k.UserKey? || k.EmailKey? || k.UserListKey?
  }

  /** No user entry is new or changed. */
  ghost predicate NoNewEntries(c: Entries<Entry>, c': Entries<Entry>) {
    forall k: Key | UserSide(k) && k in c' :: k in c && c'[k] == c[k]
  }

  lemma FewerEntriesExact(cfg: Config, s: State, s': State, now: Time)
    requires s'.users == s.users && NoNewEntries(s.cache, s'.cache)
    ensures EntriesExact(s, now) ==> EntriesExact(s', now)
    ensures ListsExact(cfg, s, now) ==> ListsExact(cfg, s', now)
  {
    if EntriesExact(s, now) {
      forall id ensures IdExact(s', now, id) { assert IdExact(s, now, id); }
      forall email | email != "" ensures EmailExact(s', now, email) { assert EmailExact(s, now, email); }
    }
    if ListsExact(cfg, s, now) {
      forall f, p | PlainQuery(f, p) ensures ListExact(cfg, s', now, f, p) { assert ListExact(cfg, s, now, f, p); }
    }
  }

  lemma LaterExact(cfg: Config, s: State, now: Time, later: Time)
    requires now <= later
    ensures EntriesExact(s, now) ==> EntriesExact(s, later)
    ensures ListsExact(cfg, s, now) ==> ListsExact(cfg, s, later)
  {
    if EntriesExact(s, now) {
      forall id ensures IdExact(s, later, id) { assert IdExact(s, now, id); }
      forall email | email != "" ensures EmailExact(s, later, email) { assert EmailExact(s, now, email); }
    }
    if ListsExact(cfg, s, now) {
      forall f, p | PlainQuery(f, p) ensures ListExact(cfg, s, later, f, p) { assert ListExact(cfg, s, now, f, p); }
    }
  }

  lemma IssueNoNewEntries(cfg: Config, s: State, now: Time, user: User, a: Uuid, r: Uuid)
    ensures NoNewEntries(s.cache, Issue(cfg, s, now, user, a, r).cache)
  {
  }

  lemma LogoutNoNewEntries(cfg: Config, s: State, now: Time, u: Uuid, p: Presented)
    ensures NoNewEntries(s.cache, Logout(cfg, s, now, u, p).0.cache)
  {
    if p.WellFormed? {
      var c := Blacklisted(s.cache, s.signed, now, p);
      assert NoNewEntries(s.cache, c);
      assert NoNewEntries(c, SessionEnded(cfg, c, now, u, p.token.jti));
    }
  }

  /** Login, logout, refresh and sweeping. */
  lemma QuietAuthStepExact(cfg: Config, s: State, now: Time, step: Step)
    requires step.LoginStep? || step.LogoutStep? || step.RefreshStep? || step.SweepStep?
    ensures EntriesExact(s, now) ==> EntriesExact(Exec(cfg, s, now, step), now)
    ensures ListsExact(cfg, s, now) ==> ListsExact(cfg, Exec(cfg, s, now, step), now)
  {
    var s' := Exec(cfg, s, now, step);
    QuietUsers(cfg, s, now, step);
    assert NoNewEntries(s.cache, s'.cache) by {
      match step
      case LoginStep(_, email, _, a, r) =>
        if UserByEmail(s.users, email).Some? { IssueNoNewEntries(cfg, s, now, UserByEmail(s.users, email).value, a, r); }
      case LogoutStep(u, p) => LogoutNoNewEntries(cfg, s, now, u, p);
      case RefreshStep(p, a, r) =>
        if p.WellFormed? && p.token.userId in s.users { IssueNoNewEntries(cfg, s, now, s.users[p.token.userId], a, r); }
      case SweepStep =>
    }
    FewerEntriesExact(cfg, s, s', now);
  }

  // ---- Reads ----

  lemma GetUserExact(cfg: Config, s: State, now: Time, id: Uuid)
    ensures EntriesExact(s, now) ==> EntriesExact(GetUser(s, now, id).0, now)
    ensures ListsExact(cfg, s, now) ==> ListsExact(cfg, GetUser(s, now, id).0, now)
  {
    var s' := GetUser(s, now, id).0;
    if EntriesExact(s, now) {
      forall i ensures IdExact(s', now, i) { assert IdExact(s, now, i); }
      forall email | email != "" ensures EmailExact(s', now, email) { assert EmailExact(s, now, email); }
    }
    if ListsExact(cfg, s, now) {
      forall f, p | PlainQuery(f, p) ensures ListExact(cfg, s', now, f, p) { assert ListExact(cfg, s, now, f, p); }
    }
  }

  lemma GetUserByEmailExact(cfg: Config, s: State, now: Time, email: string)
    ensures EntriesExact(s, now) ==> EntriesExact(GetUserByEmail(s, now, email).0, now)
    ensures ListsExact(cfg, s, now) ==> ListsExact(cfg, GetUserByEmail(s, now, email).0, now)
  {
    var s' := GetUserByEmail(s, now, email).0;
    if EntriesExact(s, now) {
      forall i ensures IdExact(s', now, i) { assert IdExact(s, now, i); }
      forall e | e != "" ensures EmailExact(s', now, e) { assert EmailExact(s, now, e); }
    }
    if ListsExact(cfg, s, now) {
      forall f, p | PlainQuery(f, p) ensures ListExact(cfg, s', now, f, p) { assert ListExact(cfg, s, now, f, p); }
    }
  }

  lemma ListUsersExact(cfg: Config, s: State, now: Time, valid: bool, f: UserFilter, p: Pagination)
    requires valid ==> PlainQuery(f, p)
    ensures EntriesExact(s, now) ==> EntriesExact(ListUsers(cfg, s, now, valid, f, p).0, now)
    ensures ListsExact(cfg, s, now) ==> ListsExact(cfg, ListUsers(cfg, s, now, valid, f, p).0, now)
  {
    var s' := ListUsers(cfg, s, now, valid, f, p).0;
    if EntriesExact(s, now) {
      forall i ensures IdExact(s', now, i) { assert IdExact(s, now, i); }
      forall e | e != "" ensures EmailExact(s', now, e) { assert EmailExact(s, now, e); }
    }
    if ListsExact(cfg, s, now) {
      forall g, q | PlainQuery(g, q) ensures ListExact(cfg, s', now, g, q) {
        assert ListExact(cfg, s, now, g, q);
        if valid {
          UserListKeyInjective(f, p, g, q);
        }
      }
    }
  }

  // ---- Writes with invalidation ----

  /** The entries of one user are gone, and so are all lists. */
  ghost predicate Invalidated(c: Entries<Entry>, c': Entries<Entry>, id: Uuid, oldEmail: string, newEmail: string) {
    && NoNewEntries(c, c')
    && UserKey(id) !in c'
    && (forall e | e != "" && (e == oldEmail || e == newEmail) :: EmailKey(e) !in c')
    && (forall h :: UserListKey(h) !in c')
  }

  lemma DropsInvalidate(c: Entries<Entry>, id: Uuid, oldEmail: string, newEmail: string)
    ensures Invalidated(c, UserCachesDropped(c, id, oldEmail, newEmail), id, oldEmail, newEmail)
  {
  }

  /** The users differ at one ID at most, and the emails involved are the ones given. */
  ghost predicate ChangesOnly(users: map<Uuid, User>, users': map<Uuid, User>, id: Uuid, oldEmail: string, newEmail: string) {
    && (forall i | i != id :: (i in users' <==> i in users) && (i in users ==> users'[i] == users[i]))
    && (id in users ==> users[id].email == oldEmail)
    && (id in users' ==> users'[id].email == newEmail)
  }

  lemma ByOtherEmail(users: map<Uuid, User>, users': map<Uuid, User>, id: Uuid, oldEmail: string, newEmail: string, e: string)
    requires SoundUsers(users) && SoundUsers(users') && ChangesOnly(users, users', id, oldEmail, newEmail)
    requires !(id in users && e == oldEmail) && !(id in users' && e == newEmail)
    ensures UserByEmail(users', e) == UserByEmail(users, e)
  {
    if i :| i in users && users[i].email == e {
      ByEmail(users, e, i);
      ByEmail(users', e, i);
    } else if i :| i in users' && users'[i].email == e {
      ByEmail(users', e, i);
    }
  }

  lemma InvalidatedExact(cfg: Config, s: State, s': State, now: Time, id: Uuid, oldEmail: string, newEmail: string)
    requires SoundUsers(s.users) && SoundUsers(s'.users)
    requires ChangesOnly(s.users, s'.users, id, oldEmail, newEmail)
    requires Invalidated(s.cache, s'.cache, id, oldEmail, newEmail)
    ensures EntriesExact(s, now) ==> EntriesExact(s', now)
    ensures ListsExact(cfg, s', now)
  {
    if EntriesExact(s, now) {
      forall i ensures IdExact(s', now, i) {
        assert IdExact(s, now, i);
      }
      forall e | e != "" ensures EmailExact(s', now, e) {
        assert EmailExact(s, now, e);
        if EmailKey(e) in s'.cache {
          ByOtherEmail(s.users, s'.users, id, oldEmail, newEmail, e);
        }
      }
    }
    forall f, p | PlainQuery(f, p) ensures ListExact(cfg, s', now, f, p) {
    }
  }

  lemma CreateUserExact(cfg: Config, s: State, now: Time, step: Step)
    requires SoundTables(s.users, s.roles) && FreshIds(s, step) && step.CreateUserStep?
    ensures var s' := Exec(cfg, s, now, step);
            (EntriesExact(s, now) ==> EntriesExact(s', now)) && (ListsExact(cfg, s, now) ==> ListsExact(cfg, s', now))
  {
    var s' := Exec(cfg, s, now, step);
    ExecTables(cfg, s, now, step);
    if s' != s {
      DropsInvalidate(s.cache, step.uid, "", step.email);
      InvalidatedExact(cfg, s, s', now, step.uid, "", step.email);
    }
  }

  lemma UpdateUserExact(cfg: Config, s: State, now: Time, step: Step)
    requires SoundTables(s.users, s.roles) && FreshIds(s, step) && step.UpdateUserStep?
    ensures var s' := Exec(cfg, s, now, step);
            (EntriesExact(s, now) ==> EntriesExact(s', now)) && (ListsExact(cfg, s, now) ==> ListsExact(cfg, s', now))
  {
    var s' := Exec(cfg, s, now, step);
    ExecTables(cfg, s, now, step);
    if s' != s {
      var oldEmail, newEmail := s.users[step.id].email, s'.users[step.id].email;
      DropsInvalidate(s.cache, step.id, oldEmail, newEmail);
      InvalidatedExact(cfg, s, s', now, step.id, oldEmail, newEmail);
    }
  }

  lemma DeleteUserExact(cfg: Config, s: State, now: Time, step: Step)
    requires SoundTables(s.users, s.roles) && FreshIds(s, step) && step.DeleteUserStep?
    ensures var s' := Exec(cfg, s, now, step);
            (EntriesExact(s, now) ==> EntriesExact(s', now)) && (ListsExact(cfg, s, now) ==> ListsExact(cfg, s', now))
  {
    var s' := Exec(cfg, s, now, step);
    ExecTables(cfg, s, now, step);
    if step.id in s.users {
      var email := s.users[step.id].email;
      DropsInvalidate(s.cache, step.id, email, "");
      InvalidatedExact(cfg, s, s', now, step.id, email, "");
    }
  }

  lemma RolesSavedExact(cfg: Config, s: State, now: Time, user: User)
    requires SoundUsers(s.users) && user.id in s.users && s.users[user.id].email == user.email
    requires SoundUsers(RolesSaved(s, now, user).users)
    ensures var s' := RolesSaved(s, now, user); (EntriesExact(s, now) ==> EntriesExact(s', now)) && ListsExact(cfg, s', now)
  {
    var s' := RolesSaved(s, now, user);
    DropsInvalidate(s.cache, user.id, user.email, user.email);
    InvalidatedExact(cfg, s, s', now, user.id, user.email, user.email);
  }

  lemma AssignExact(cfg: Config, s: State, now: Time, userId: Uuid, roleId: Uuid)
    requires SoundTables(s.users, s.roles) && SoundUsers(AssignRole(s, now, userId, roleId).0.users)
    ensures var s' := AssignRole(s, now, userId, roleId).0;
            (EntriesExact(s, now) ==> EntriesExact(s', now)) && (ListsExact(cfg, s, now) ==> ListsExact(cfg, s', now))
  {
    if userId in s.users && roleId in s.roles {
      RolesSavedExact(cfg, s, now, WithRole(s.users[userId], s.roles[roleId], now));
    }
  }

  lemma RemoveExact(cfg: Config, s: State, now: Time, userId: Uuid, roleId: Uuid)
    requires SoundTables(s.users, s.roles) && SoundUsers(RemoveRole(s, now, userId, roleId).0.users)
    ensures var s' := RemoveRole(s, now, userId, roleId).0;
            (EntriesExact(s, now) ==> EntriesExact(s', now)) && (ListsExact(cfg, s, now) ==> ListsExact(cfg, s', now))
  {
    if userId in s.users && roleId in s.roles {
      RolesSavedExact(cfg, s, now, WithoutRole(s.users[userId], roleId, now));
    }
  }

  lemma RoleStepExact(cfg: Config, s: State, now: Time, step: Step)
    requires SoundTables(s.users, s.roles) && FreshIds(s, step) && (step.AssignRoleStep? || step.RemoveRoleStep?)
    ensures var s' := Exec(cfg, s, now, step);
            (EntriesExact(s, now) ==> EntriesExact(s', now)) && (ListsExact(cfg, s, now) ==> ListsExact(cfg, s', now))
  {
    ExecTables(cfg, s, now, step);
    if step.AssignRoleStep? {
      AssignExact(cfg, s, now, step.userId, step.roleId);
    } else {
      RemoveExact(cfg, s, now, step.userId, step.roleId);
    }
  }

  // ---- Writes without invalidation ----

  /** Registering never disturbs the entries by ID and by email. */
  lemma RegisterKeepsEntries(cfg: Config, s: State, now: Time, step: Step)
    requires SoundTables(s.users, s.roles) && FreshIds(s, step) && step.RegisterStep?
    requires EntriesExact(s, now)
    ensures EntriesExact(Exec(cfg, s, now, step), now)
  {
    var s' := Exec(cfg, s, now, step);
    ExecTables(cfg, s, now, step);
    if s' != s {
      RegisterAdds(cfg, s, now, step);
      AddedKeepsEntries(s, s', now, step.uid, step.email);
    }
  }

  lemma AddedKeepsEntries(s: State, s': State, now: Time, id: Uuid, email: string)
    requires SoundUsers(s.users) && SoundUsers(s'.users) && EntriesExact(s, now)
    requires id !in s.users && UserByEmail(s.users, email).None? && ChangesOnly(s.users, s'.users, id, email, email)
    requires NoNewEntries(s.cache, s'.cache)
    ensures EntriesExact(s', now)
  {
    NobodyByEmail(s.users, email);
    forall i ensures IdExact(s', now, i) { assert IdExact(s, now, i); }
    forall e | e != "" ensures EmailExact(s', now, e) {
      assert EmailExact(s, now, e);
      if e != email {
        ByOtherEmail(s.users, s'.users, id, email, email, e);
      }
    }
  }

  lemma RegisterAdds(cfg: Config, s: State, now: Time, step: Step)
    requires FreshIds(s, step) && step.RegisterStep? && Exec(cfg, s, now, step) != s
    ensures var s' := Exec(cfg, s, now, step);
            && UserByEmail(s.users, step.email).None?
            && ChangesOnly(s.users, s'.users, step.uid, step.email, step.email) && step.uid in s'.users && |s'.users| == |s.users| + 1
            && (forall k: Key | UserSide(k) :: (k in s'.cache <==> k in s.cache) && (k in s.cache ==> s'.cache[k] == s.cache[k]))
  {
  }

  /**
    Registering changes the row count without dropping any list, so the lists stay exact exactly when none is
    cached.
   */
  lemma RegisterKeepsListsExactly(cfg: Config, s: State, now: Time, step: Step)
    requires FreshIds(s, step) && step.RegisterStep? && Exec(cfg, s, now, step) != s
    requires ListsExact(cfg, s, now)
    ensures ListsExact(cfg, Exec(cfg, s, now, step), now)
       <==> forall f, p | PlainQuery(f, p) :: !Live(s.cache, now, ListKey(f, p))
  {
    var s' := Exec(cfg, s, now, step);
    RegisterAdds(cfg, s, now, step);
    forall f, p | PlainQuery(f, p) && Live(s.cache, now, ListKey(f, p)) ensures !ListExact(cfg, s', now, f, p) {
      assert ListExact(cfg, s, now, f, p);
      assert FindAll(cfg, s.users, f, p).total != FindAll(cfg, s'.users, f, p).total;
    }
    if forall f, p | PlainQuery(f, p) :: !Live(s.cache, now, ListKey(f, p)) {
      forall f, p | PlainQuery(f, p) ensures ListExact(cfg, s', now, f, p) {
        assert !Live(s.cache, now, ListKey(f, p));
      }
    }
  }

  /**
    A password change gives the user a new timestamp and drops no user entry, so the entries stay exact exactly
    when none is cached for that user or the timestamp happens to be the old one.
   */
  lemma PasswordKeepsEntriesExactly(cfg: Config, s: State, now: Time, step: Step)
    requires SoundTables(s.users, s.roles) && step.ChangePasswordStep?
    requires ChangePassword(s, now, step.valid, step.userId, step.oldPassword, step.newPassword).1.Ok?
    requires EntriesExact(s, now) && s.users[step.userId].email != ""
    ensures EntriesExact(Exec(cfg, s, now, step), now)
       <==> || now == s.users[step.userId].updatedAt
            || (!Live(s.cache, now, UserKey(step.userId)) && !Live(s.cache, now, EmailKey(s.users[step.userId].email)))
  {
    var s', u := Exec(cfg, s, now, step), step.userId;
    var email := s.users[u].email;
    var user' := s.users[u].(password := step.newPassword, updatedAt := now);
    assert s'.users == s.users[u := user'];
    assert s'.cache == SessionsDropped(s.cache, u);
    assert SoundUsers(s'.users);
    ByEmail(s.users, email, u);
    ByEmail(s'.users, email, u);
    assert IdExact(s, now, u) && EmailExact(s, now, email);
    assert IdExact(s', now, u) <==> now == s.users[u].updatedAt || !Live(s.cache, now, UserKey(u));
    assert EmailExact(s', now, email) <==> now == s.users[u].updatedAt || !Live(s.cache, now, EmailKey(email));
    forall i | i != u ensures IdExact(s', now, i) { assert IdExact(s, now, i); }
    forall e | e != "" && e != email ensures EmailExact(s', now, e) {
      assert EmailExact(s, now, e);
      ByOtherEmail(s.users, s'.users, u, email, email, e);
    }
  }

  /** The rows with one user's row replaced. */
  function WithRow(rows: seq<User>, user: User): seq<User> {
    seq(|rows|, i requires 0 <= i < |rows| => if rows[i].id == user.id then user else rows[i])
  }

  /**
    What the list query promises: it returns stored rows, and neither which rows nor their order depends on
    passwords or time stamps of updates.
   */
  ghost predicate StableRows(cfg: Config) {
    && (forall search, limit, offset, users: map<Uuid, User>, row: User :: row in cfg.rows(search, limit, offset, users) ==>
          row.id in users && users[row.id] == row)
    && (forall search, limit, offset, users: map<Uuid, User>, user: User ::
          user.id in users && user == users[user.id].(password := user.password, updatedAt := user.updatedAt) ==>
          cfg.rows(search, limit, offset, users[user.id := user]) == WithRow(cfg.rows(search, limit, offset, users), user))
  }

  predicate Names(outputs: seq<UserOutput>, id: Uuid) {
    exists i :: 0 <= i < |outputs| && outputs[i].id == id
  }

  lemma {:induction false} RowOutputsLength(rows: seq<User>)
    ensures |RowOutputs(rows)| == |rows|
  {
    if rows != [] {
      RowOutputsLength(rows[1..]);
    }
  }

  lemma {:induction false} RowOutputAt(rows: seq<User>, i: nat)
    requires i < |rows| == |RowOutputs(rows)|
    ensures RowOutputs(rows)[i] == Output(rows[i].(roles := []))
  {
    if i > 0 {
      RowOutputsLength(rows[1..]);
      RowOutputAt(rows[1..], i - 1);
    }
  }

  lemma RowOutputsAt(rows: seq<User>)
    ensures |RowOutputs(rows)| == |rows|
    ensures forall i | 0 <= i < |rows| :: RowOutputs(rows)[i] == Output(rows[i].(roles := []))
  {
    RowOutputsLength(rows);
    forall i | 0 <= i < |rows| ensures RowOutputs(rows)[i] == Output(rows[i].(roles := [])) {
      RowOutputAt(rows, i);
    }
  }

  /** Replacing a row by one with another time stamp shows exactly if the row is listed. */
  lemma RestampedShows(rows: seq<User>, before: User, user: User)
    requires forall row | row in rows && row.id == before.id :: row == before
    requires user == before.(password := user.password, updatedAt := user.updatedAt)
    ensures RowOutputs(WithRow(rows, user)) == RowOutputs(rows)
       <==> user.updatedAt == before.updatedAt || !Names(RowOutputs(rows), user.id)
  {
    RowOutputsAt(rows);
    RowOutputsAt(WithRow(rows, user));
    if user.updatedAt != before.updatedAt && Names(RowOutputs(rows), user.id) {
      var i :| 0 <= i < |rows| && RowOutputs(rows)[i].id == user.id;
      assert rows[i] in rows;
      assert RowOutputs(WithRow(rows, user))[i] != RowOutputs(rows)[i];
    }
  }

  lemma RestampedListing(cfg: Config, users: map<Uuid, User>, user: User, f: UserFilter, p: Pagination)
    requires StableRows(cfg) && user.id in users && users[user.id].id == user.id
    requires user == users[user.id].(password := user.password, updatedAt := user.updatedAt)
    ensures FindAll(cfg, users[user.id := user], f, p) == FindAll(cfg, users, f, p)
       <==> user.updatedAt == users[user.id].updatedAt || !Names(FindAll(cfg, users, f, p).users, user.id)
  {
    var rows := cfg.rows(f.search, p.pageSize, (p.page - 1) * p.pageSize, users);
    assert cfg.rows(f.search, p.pageSize, (p.page - 1) * p.pageSize, users[user.id := user]) == WithRow(rows, user);
    RestampedShows(rows, users[user.id], user);
    assert |users[user.id := user]| == |users|;
  }

  lemma PasswordKeepsListExactly(cfg: Config, s: State, s': State, now: Time, user: User, f: UserFilter, p: Pagination)
    requires StableRows(cfg) && user.id in s.users && s.users[user.id].id == user.id
    requires user == s.users[user.id].(password := user.password, updatedAt := user.updatedAt)
    requires s'.users == s.users[user.id := user]
    requires var k := ListKey(f, p); Live(s.cache, now, k) && k in s'.cache && s'.cache[k] == s.cache[k]
    requires ListExact(cfg, s, now, f, p)
    ensures var cached := s.cache[ListKey(f, p)].value;
            && cached.ListEntry?
            && (ListExact(cfg, s', now, f, p) <==> user.updatedAt == s.users[user.id].updatedAt || !Names(cached.result.users, user.id))
  {
    RestampedListing(cfg, s.users, user, f, p);
  }

  ghost predicate NoListNames(s: State, now: Time, id: Uuid) {
    forall f, p | PlainQuery(f, p) && Live(s.cache, now, ListKey(f, p)) ::
      s.cache[ListKey(f, p)].value.ListEntry? && !Names(s.cache[ListKey(f, p)].value.result.users, id)
  }

  /**
    A password change drops no list: over a database whose list order ignores passwords and time stamps of
    updates, the lists stay exact exactly when none that is cached names the user, or the stamp is the old one.
   */
  lemma PasswordKeepsListsExactly(cfg: Config, s: State, now: Time, step: Step)
    requires StableRows(cfg) && SoundTables(s.users, s.roles) && step.ChangePasswordStep?
    requires ChangePassword(s, now, step.valid, step.userId, step.oldPassword, step.newPassword).1.Ok?
    requires ListsExact(cfg, s, now)
    ensures ListsExact(cfg, Exec(cfg, s, now, step), now)
       <==> now == s.users[step.userId].updatedAt || NoListNames(s, now, step.userId)
  {
    var s', u := Exec(cfg, s, now, step), step.userId;
    var user := s.users[u].(password := step.newPassword, updatedAt := now);
    assert user.id == u && s'.users == s.users[user.id := user];
    forall f, p | PlainQuery(f, p) && Live(s.cache, now, ListKey(f, p))
      ensures s.cache[ListKey(f, p)].value.ListEntry?
      ensures ListExact(cfg, s', now, f, p)
         <==> now == s.users[u].updatedAt || !Names(s.cache[ListKey(f, p)].value.result.users, u)
    {
      assert ListExact(cfg, s, now, f, p);
      PasswordKeepsListExactly(cfg, s, s', now, user, f, p);
    }
    assert forall f, p :: Live(s'.cache, now, ListKey(f, p)) <==> Live(s.cache, now, ListKey(f, p));
  }

  /** An entry cached for the empty email is not dropped when its user gets another one. */
  lemma EmptyEmailEntrySurvives(s: State, now: Time, id: Uuid, email: string)
    requires SoundUsers(s.users) && id in s.users && s.users[id].email == "" && email != ""
    requires UserByEmail(s.users, email).None? && Live(s.cache, now, EmailKey(""))
    ensures var s' := UpdateUser(s, now, true, id, Some(email), None).0;
            Live(s'.cache, now, EmailKey("")) && UserByEmail(s'.users, "").None?
  {
    var s' := UpdateUser(s, now, true, id, Some(email), None).0;
    assert forall i | i in s'.users :: s'.users[i].email != "";
  }

  // ---- Runs ----

  /** The condition under which a step keeps entries by ID and email exact. */
  ghost predicate KeepsEntries(s: State, now: Time, step: Step) {
    step.ChangePasswordStep? && ChangePassword(s, now, step.valid, step.userId, step.oldPassword, step.newPassword).1.Ok? ==>
      && s.users[step.userId].email != ""
      && (|| now == s.users[step.userId].updatedAt
          || (!Live(s.cache, now, UserKey(step.userId)) && !Live(s.cache, now, EmailKey(s.users[step.userId].email))))
  }

  /** The condition under which a step keeps lists exact. */
  ghost predicate KeepsLists(cfg: Config, s: State, now: Time, step: Step) {
    && (step.ListUsersStep? && step.valid ==> PlainQuery(step.filter, step.page))
    && (step.RegisterStep? || step.ChangePasswordStep? ==>
         || Exec(cfg, s, now, step) == s
         || (forall f, p | PlainQuery(f, p) :: !Live(s.cache, now, ListKey(f, p)))
         || (step.ChangePasswordStep? && StableRows(cfg) && step.userId in s.users
              && (now == s.users[step.userId].updatedAt || NoListNames(s, now, step.userId))))
  }

  lemma StepKeepsEntries(cfg: Config, s: State, now: Time, step: Step)
    requires SoundTables(s.users, s.roles) && FreshIds(s, step)
    requires EntriesExact(s, now) && KeepsEntries(s, now, step)
    ensures EntriesExact(Exec(cfg, s, now, step), now)
  {
    match step
    case RegisterStep(_, _, _, _, _, _, _) => RegisterKeepsEntries(cfg, s, now, step);
    case ChangePasswordStep(valid, u, old_, new_) =>
      if ChangePassword(s, now, valid, u, old_, new_).1.Ok? {
        PasswordKeepsEntriesExactly(cfg, s, now, step);
      }
    case CreateUserStep(_, _, _, _, _) => CreateUserExact(cfg, s, now, step);
    case UpdateUserStep(_, _, _, _) => UpdateUserExact(cfg, s, now, step);
    case DeleteUserStep(_) => DeleteUserExact(cfg, s, now, step);
    case AssignRoleStep(_, _) => RoleStepExact(cfg, s, now, step);
    case RemoveRoleStep(_, _) => RoleStepExact(cfg, s, now, step);
    case GetUserStep(id) => GetUserExact(cfg, s, now, id);
    case GetUserByEmailStep(email) => GetUserByEmailExact(cfg, s, now, email);
    case ListUsersStep(valid, f, p) => ListUsersEntries(cfg, s, now, valid, f, p);
    case LoginStep(_, _, _, _, _) => QuietAuthStepExact(cfg, s, now, step);
    case LogoutStep(_, _) => QuietAuthStepExact(cfg, s, now, step);
    case RefreshStep(_, _, _) => QuietAuthStepExact(cfg, s, now, step);
    case SweepStep => QuietAuthStepExact(cfg, s, now, step);
  }

  /** Whatever the query, listing leaves the entries by ID and email alone. */
  lemma ListUsersEntries(cfg: Config, s: State, now: Time, valid: bool, f: UserFilter, p: Pagination)
    requires EntriesExact(s, now)
    ensures EntriesExact(ListUsers(cfg, s, now, valid, f, p).0, now)
  {
    var s' := ListUsers(cfg, s, now, valid, f, p).0;
    forall i ensures IdExact(s', now, i) { assert IdExact(s, now, i); }
    forall e | e != "" ensures EmailExact(s', now, e) { assert EmailExact(s, now, e); }
  }

  lemma StepKeepsLists(cfg: Config, s: State, now: Time, step: Step)
    requires SoundTables(s.users, s.roles) && FreshIds(s, step)
    requires ListsExact(cfg, s, now) && KeepsLists(cfg, s, now, step)
    ensures ListsExact(cfg, Exec(cfg, s, now, step), now)
  {
    match step
    case RegisterStep(_, _, _, _, _, _, _) =>
      if Exec(cfg, s, now, step) != s { RegisterKeepsListsExactly(cfg, s, now, step); }
    case ChangePasswordStep(_, _, _, _) => PasswordKeepsLists(cfg, s, now, step);
    case CreateUserStep(_, _, _, _, _) => CreateUserExact(cfg, s, now, step);
    case UpdateUserStep(_, _, _, _) => UpdateUserExact(cfg, s, now, step);
    case DeleteUserStep(_) => DeleteUserExact(cfg, s, now, step);
    case AssignRoleStep(_, _) => RoleStepExact(cfg, s, now, step);
    case RemoveRoleStep(_, _) => RoleStepExact(cfg, s, now, step);
    case GetUserStep(id) => GetUserExact(cfg, s, now, id);
    case GetUserByEmailStep(email) => GetUserByEmailExact(cfg, s, now, email);
    case ListUsersStep(valid, f, p) => ListUsersExact(cfg, s, now, valid, f, p);
    case LoginStep(_, _, _, _, _) => QuietAuthStepExact(cfg, s, now, step);
    case LogoutStep(_, _) => QuietAuthStepExact(cfg, s, now, step);
    case RefreshStep(_, _, _) => QuietAuthStepExact(cfg, s, now, step);
    case SweepStep => QuietAuthStepExact(cfg, s, now, step);
  }

  lemma PasswordKeepsLists(cfg: Config, s: State, now: Time, step: Step)
    requires SoundTables(s.users, s.roles)
    requires step.ChangePasswordStep? && ListsExact(cfg, s, now) && KeepsLists(cfg, s, now, step)
    ensures ListsExact(cfg, Exec(cfg, s, now, step), now)
  {
    var s' := Exec(cfg, s, now, step);
    if s' == s {
    } else if StableRows(cfg) && (now == s.users[step.userId].updatedAt || NoListNames(s, now, step.userId)) {
      PasswordKeepsListsExactly(cfg, s, now, step);
    } else {
      forall f, p | PlainQuery(f, p) ensures ListExact(cfg, s', now, f, p) {
        assert !Live(s.cache, now, ListKey(f, p));
      }
    }
  }

  /** Every step of the trace meets the condition for entries, or for lists. */
  ghost predicate AllKeepEntries(cfg: Config, start: State, trace: seq<Timed>) {
    forall i | 0 <= i < |trace| :: KeepsEntries(Run(cfg, start, trace[..i]), trace[i].at, trace[i].step)
  }

  ghost predicate AllKeepLists(cfg: Config, start: State, trace: seq<Timed>) {
    forall i | 0 <= i < |trace| :: KeepsLists(cfg, Run(cfg, start, trace[..i]), trace[i].at, trace[i].step)
  }

  lemma InitialSegment<T>(trace: seq<T>, i: nat)
    requires i < |trace|
    ensures trace[..|trace| - 1][..i] == trace[..i]
  {
  }

  /** In every run of user management, logins and registrations, cached users by ID and by email are exact. */
  lemma {:induction false} EntriesExactInRuns(cfg: Config, start: State, trace: seq<Timed>, now: Time)
    requires Starting(start) && Proper(cfg, start, trace) && NotBefore(trace, now) && AllKeepEntries(cfg, start, trace)
    ensures SoundTables(Run(cfg, start, trace).users, Run(cfg, start, trace).roles)
    ensures EntriesExact(Run(cfg, start, trace), now)
    decreases |trace|
  {
    if trace != [] {
      var init, last := trace[..|trace| - 1], trace[|trace| - 1];
      forall i | 0 <= i < |init| ensures KeepsEntries(Run(cfg, start, init[..i]), init[i].at, init[i].step) {
        InitialSegment(trace, i);
        assert KeepsEntries(Run(cfg, start, trace[..i]), trace[i].at, trace[i].step);
      }
      EntriesExactInRuns(cfg, start, init, last.at);
      ExecTables(cfg, Run(cfg, start, init), last.at, last.step);
      StepKeepsEntries(cfg, Run(cfg, start, init), last.at, last.step);
      LaterExact(cfg, Run(cfg, start, trace), last.at, now);
    }
  }

  /**
    In every run whose searches have no bar, whose registrations meet no cached list and whose password changes
    meet none that names the user, cached lists are exact.
   */
  lemma {:induction false} ListsExactInRuns(cfg: Config, start: State, trace: seq<Timed>, now: Time)
    requires Starting(start) && Proper(cfg, start, trace) && NotBefore(trace, now) && AllKeepLists(cfg, start, trace)
    ensures SoundTables(Run(cfg, start, trace).users, Run(cfg, start, trace).roles)
    ensures ListsExact(cfg, Run(cfg, start, trace), now)
    decreases |trace|
  {
    if trace != [] {
      var init, last := trace[..|trace| - 1], trace[|trace| - 1];
      forall i | 0 <= i < |init| ensures KeepsLists(cfg, Run(cfg, start, init[..i]), init[i].at, init[i].step) {
        InitialSegment(trace, i);
        assert KeepsLists(cfg, Run(cfg, start, trace[..i]), trace[i].at, trace[i].step);
      }
      ListsExactInRuns(cfg, start, init, last.at);
      ExecTables(cfg, Run(cfg, start, init), last.at, last.step);
      StepKeepsLists(cfg, Run(cfg, start, init), last.at, last.step);
      LaterExact(cfg, Run(cfg, start, trace), last.at, now);
    }
  }
}
