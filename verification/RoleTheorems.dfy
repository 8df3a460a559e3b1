/** Which roles the tokens of a run list: those the book of accounts gives their user, and never one taken away before. */
module RoleTheorems {
  import opened Prelude
  import opened MemoryCache
  import opened EntryCache
  import opened Identity
  import opened Sessions
  import opened SessionTheorems
  import opened UserRoles
  import opened Accounts

  // ---- A new pair lists what the book says ----

  /** A token that a step signs lists the roles its user has after the step. */
  lemma NewTokenLists(cfg: Config, s: State, now: Time, step: Step, j: Uuid)
    requires SoundTables(s.users, s.roles) && FreshIds(s, step)
    requires j in Exec(cfg, s, now, step).signed && j !in s.signed && Exec(cfg, s, now, step).signed[j].Access?
    ensures var s' := Exec(cfg, s, now, step);
            s'.signed[j].userId in s'.users && s'.signed[j].roleIds == RoleIds(s'.users[s'.signed[j].userId].roles)
  {
    if step.RegisterStep? || step.LoginStep? || step.RefreshStep? {
      var user, base := IssuedFor(cfg, s, now, step);
    } else {
      OnlyIssuingSigns(cfg, s, now, step);
      assert false;
    }
  }

  lemma OnlyIssuingSigns(cfg: Config, s: State, now: Time, step: Step)
    requires !step.RegisterStep? && !step.LoginStep? && !step.RefreshStep?
    ensures Exec(cfg, s, now, step).signed == s.signed
  {
    match step
    case ChangePasswordStep(_, _, _, _) =>
    case AssignRoleStep(_, _) =>
    case RemoveRoleStep(_, _) =>
    case CreateUserStep(_, _, _, _, _) =>
    case UpdateUserStep(_, _, _, _) =>
    case DeleteUserStep(_) =>
    case LogoutStep(_, _) =>
    case SweepStep =>
    case _ => ReadStepSessions(cfg, s, now, step);
  }

  lemma PairSigned(cfg: Config, s: State, now: Time, step: Step, pair: AuthOutput)
    requires SoundTables(s.users, s.roles) && FreshIds(s, step) && PairFrom(cfg, s, now, step) == Some(pair)
    ensures var s' := Exec(cfg, s, now, step);
            && pair.access.Access? && pair.access.jti in s'.signed && pair.access.jti !in s.signed
            && s'.signed[pair.access.jti] == pair.access
  {
  }

  /** The pair a step of a run answers with lists exactly the roles the book then gives its user, each once. */
  lemma PairListsTheBook(cfg: Config, start: State, trace: seq<Timed>, at: Time, step: Step, pair: AuthOutput)
    requires Starting(start) && RolesUnique(start.users) && Proper(cfg, start, trace + [Timed(at, step)])
    requires PairFrom(cfg, Run(cfg, start, trace), at, step) == Some(pair)
    ensures var book := BookOf(start, trace + [Timed(at, step)]);
            && pair.access.Access? && pair.access.userId in book
            && (forall x :: x in pair.access.roleIds <==> x in book[pair.access.userId].roleIds)
            && (forall i, k | 0 <= i < k < |pair.access.roleIds| :: pair.access.roleIds[i] != pair.access.roleIds[k])
  {
    var longer := trace + [Timed(at, step)];
    assert longer[..|longer| - 1] == trace;
    var s := Run(cfg, start, trace);
    BookExact(cfg, start, trace);
    BookExact(cfg, start, longer);
    PairSigned(cfg, s, at, step, pair);
    NewTokenLists(cfg, s, at, step, pair.access.jti);
    var user := Run(cfg, start, longer).users[pair.access.userId];
    assert AccountsOf(Run(cfg, start, longer).users)[pair.access.userId].roleIds == RoleIdSet(user.roles);
    RoleIdsAreTheSet(user.roles);
    ClaimsListRoles(user.roles);
  }

  // ---- A role once assigned is listed until it is removed ----

  predicate TakesAway(step: Step, u: Uuid, role: Uuid) {
    || (step.RemoveRoleStep? && step.userId == u && step.roleId == role)
    || (step.DeleteUserStep? && step.id == u)
  }

  lemma NotedKeepsRole(cfg: Config, s: State, step: Step, u: Uuid, role: Uuid)
    requires FreshIds(s, step) && !TakesAway(step, u, role) && u in s.users && role in AccountsOf(s.users)[u].roleIds
    ensures var book' := Noted(s.roles, AccountsOf(s.users), step); u in book' && role in book'[u].roleIds
  {
  }

  lemma {:induction false} RoleStays(cfg: Config, start: State, trace: seq<Timed>, n: nat, u: Uuid, role: Uuid)
    requires Starting(start) && RolesUnique(start.users) && Proper(cfg, start, trace) && n <= |trace|
    requires forall k | n <= k < |trace| :: !TakesAway(trace[k].step, u, role)
    requires u in BookOf(start, trace[..n]) && role in BookOf(start, trace[..n])[u].roleIds
    ensures u in BookOf(start, trace) && role in BookOf(start, trace)[u].roleIds
    decreases |trace|
  {
    if n < |trace| {
      var init, last := trace[..|trace| - 1], trace[|trace| - 1];
      assert init[..n] == trace[..n];
      RoleStays(cfg, start, init, n, u, role);
      BookExact(cfg, start, init);
      NotedKeepsRole(cfg, Run(cfg, start, init), last.step, u, role);
    } else {
      assert trace[..n] == trace;
    }
  }

  /**
    After a role is assigned to a user, every pair issued to them lists it, and lists every role they had before,
    as long as that role is not removed from them again.
   */
  lemma AssignedRoleListed(cfg: Config, start: State, trace: seq<Timed>, n: nat, at: Time, step: Step, pair: AuthOutput, role: Uuid)
    requires Starting(start) && RolesUnique(start.users) && Proper(cfg, start, trace + [Timed(at, step)]) && n < |trace|
    requires trace[n].step.AssignRoleStep? && Answered(cfg, Run(cfg, start, trace[..n]), trace[n].at, trace[n].step)
    requires PairFrom(cfg, Run(cfg, start, trace), at, step) == Some(pair) && pair.access.userId == trace[n].step.userId
    requires forall k | n < k < |trace| :: !TakesAway(trace[k].step, trace[n].step.userId, role)
    requires role == trace[n].step.roleId
          || (trace[n].step.userId in BookOf(start, trace[..n]) && role in BookOf(start, trace[..n])[trace[n].step.userId].roleIds)
    ensures pair.access.Access? && role in pair.access.roleIds
  {
    var longer, u := trace + [Timed(at, step)], trace[n].step.userId;
    assert longer[..|longer| - 1] == trace;
    ProperUpTo(cfg, start, trace, n);
    AnsweredByTheBook(cfg, start, trace, n);
    NotedAt(start, trace, n);
    assert longer[..n + 1] == trace[..n + 1];
    forall k | n + 1 <= k < |longer| ensures !TakesAway(longer[k].step, u, role) {
      assert k == |trace| ==> longer[k].step == step;
    }
    RoleStays(cfg, start, longer, n + 1, u, role);
    PairListsTheBook(cfg, start, trace, at, step, pair);
  }

  // ---- A role once removed is listed no more ----

  predicate Gives(step: Step, u: Uuid, role: Uuid) {
    || (step.AssignRoleStep? && step.userId == u && step.roleId == role)
    || (step.RegisterStep? && step.uid == u)
  }

  /** The user does not have the role, and no token of theirs that stands lists it. */
  ghost predicate Rid(s: State, revoked: set<Uuid>, u: Uuid, role: Uuid) {
    && (u in s.users ==> role !in RoleIdSet(s.users[u].roles))
    && (forall j | j in s.signed && s.signed[j].Access? && s.signed[j].userId == u && j !in revoked :: role !in s.signed[j].roleIds)
  }

  lemma NotedStaysRid(roles: map<Uuid, Role>, book: Book, step: Step, u: Uuid, role: Uuid)
    requires !Gives(step, u, role) && (u in book ==> role !in book[u].roleIds)
    ensures var book' := Noted(roles, book, step); u in book' ==> role !in book'[u].roleIds
  {
  }

  lemma StepStaysRid(cfg: Config, s: State, ledger: Ledger, now: Time, step: Step, u: Uuid, role: Uuid)
    requires SoundTables(s.users, s.roles) && RolesUnique(s.users) && FreshIds(s, step)
    requires Rid(s, ledger.revoked, u, role) && !Gives(step, u, role)
    ensures Rid(Exec(cfg, s, now, step), Recorded(cfg, s, ledger, now, step).revoked, u, role)
  {
    var s' := Exec(cfg, s, now, step);
    StepBooks(cfg, s, now, step);
    assert u in s.users ==> AccountsOf(s.users)[u].roleIds == RoleIdSet(s.users[u].roles);
    NotedStaysRid(s.roles, AccountsOf(s.users), step, u, role);
    assert u in s'.users ==> AccountsOf(s'.users)[u].roleIds == RoleIdSet(s'.users[u].roles);
    SignedStaysRid(cfg, s, ledger, now, step, u, role);
  }

  lemma SignedStaysRid(cfg: Config, s: State, ledger: Ledger, now: Time, step: Step, u: Uuid, role: Uuid)
    requires SoundTables(s.users, s.roles) && FreshIds(s, step) && Rid(s, ledger.revoked, u, role)
    requires var s' := Exec(cfg, s, now, step); u in s'.users ==> role !in RoleIdSet(s'.users[u].roles)
    ensures Rid(Exec(cfg, s, now, step), Recorded(cfg, s, ledger, now, step).revoked, u, role)
  {
    var s' := Exec(cfg, s, now, step);
    var revoked' := Recorded(cfg, s, ledger, now, step).revoked;
    assert ledger.revoked <= revoked';
    forall j | j in s'.signed && s'.signed[j].Access? && s'.signed[j].userId == u && j !in revoked' ensures role !in s'.signed[j].roleIds {
      if j in s.signed {
        StepKeepsSigned(cfg, s, now, step, j);
      } else {
        NewTokenLists(cfg, s, now, step, j);
        RoleIdsAreTheSet(s'.users[u].roles);
      }
    }
  }

  lemma RemovalRids(cfg: Config, s: State, ledger: Ledger, now: Time, step: Step)
    requires SoundTables(s.users, s.roles) && RolesUnique(s.users) && step.RemoveRoleStep? && Answered(cfg, s, now, step)
    ensures Rid(Exec(cfg, s, now, step), Recorded(cfg, s, ledger, now, step).revoked, step.userId, step.roleId)
  {
    var s', u := Exec(cfg, s, now, step), step.userId;
    RemoveRoleBooks(cfg, s, now, step);
    assert AccountsOf(s'.users)[u].roleIds == RoleIdSet(s'.users[u].roles);
    OnlyIssuingSigns(cfg, s, now, step);
    assert RevokedBy(s, ledger, now, step) == TokensOf(s.signed, u);
  }

  lemma {:induction false} StaysRid(cfg: Config, start: State, trace: seq<Timed>, n: nat)
    requires Starting(start) && RolesUnique(start.users) && Proper(cfg, start, trace) && n < |trace|
    requires trace[n].step.RemoveRoleStep? && Answered(cfg, Run(cfg, start, trace[..n]), trace[n].at, trace[n].step)
    requires forall k | n < k < |trace| :: !Gives(trace[k].step, trace[n].step.userId, trace[n].step.roleId)
    ensures Rid(Run(cfg, start, trace), LedgerOf(cfg, start, trace).revoked, trace[n].step.userId, trace[n].step.roleId)
    decreases |trace|
  {
    var init, last := trace[..|trace| - 1], trace[|trace| - 1];
    BookExact(cfg, start, init);
    var s, ledger := Run(cfg, start, init), LedgerOf(cfg, start, init);
    if n == |trace| - 1 {
      RemovalRids(cfg, s, ledger, last.at, last.step);
    } else {
      assert init[..n] == trace[..n] && init[n] == trace[n];
      StaysRid(cfg, start, init, n);
      StepStaysRid(cfg, s, ledger, last.at, last.step, trace[n].step.userId, trace[n].step.roleId);
    }
  }

  /**
    After a role is removed from a user, and until it is assigned to them again, no token of theirs that is
    accepted lists it, whether or not the user still exists.
   */
  lemma RemovedRoleNotListed(cfg: Config, start: State, trace: seq<Timed>, n: nat, now: Time, p: Presented)
    requires Starting(start) && RolesUnique(start.users) && Proper(cfg, start, trace) && NotBefore(trace, now) && n < |trace|
    requires trace[n].step.RemoveRoleStep? && Answered(cfg, Run(cfg, start, trace[..n]), trace[n].at, trace[n].step)
    requires forall k | n < k < |trace| :: !Gives(trace[k].step, trace[n].step.userId, trace[n].step.roleId)
    requires ValidateToken(Run(cfg, start, trace), now, p).Ok? && p.token.userId == trace[n].step.userId
    ensures p.token.Access? && trace[n].step.roleId !in p.token.roleIds
  {
    AcceptedExactly(cfg, start, trace, now, p);
    StaysRid(cfg, start, trace, n);
  }

  // ---- What is answered is what is stored ----

  ghost predicate Tells(o: UserOutput, users: map<Uuid, User>) {
    && o.id in users && users[o.id].id == o.id
    && o.email == users[o.id].email && o.name == users[o.id].name && o.roles == users[o.id].roles
  }

  /** The answer has the row as it is stored, and the row is stamped. */
  ghost predicate TellsNow(o: UserOutput, id: Uuid, users: map<Uuid, User>, now: Time) {
    o.id == id && Tells(o, users) && users[id].updatedAt == now
  }

  /** A user is answered with ID, email, name, roles and stamp as stored, and without the password. */
  lemma OutputsTell(users: map<Uuid, User>, id: Uuid)
    requires SoundUsers(users) && id in users
    ensures Output(users[id]).id == id && Tells(Output(users[id]), users) && Output(users[id]).updatedAt == users[id].updatedAt
  {
  }

  /** Creating, updating and changing roles answer with the row they store, which is stamped now. */
  lemma AnswersTellRows(s: State, now: Time, valid: bool, email: string, password: string, name: string, uid: Uuid,
                        newEmail: Option<string>, newName: Option<string>, role: Uuid)
    requires SoundTables(s.users, s.roles)
    ensures var (s', r) := CreateUser(s, now, valid, email, password, name, uid); r.Ok? ==> TellsNow(r.value, uid, s'.users, now)
    ensures var (s', r) := UpdateUser(s, now, valid, uid, newEmail, newName); r.Ok? ==> TellsNow(r.value, uid, s'.users, now)
    ensures var (s', r) := AssignRole(s, now, uid, role); r.Ok? ==> TellsNow(r.value, uid, s'.users, now)
    ensures var (s', r) := RemoveRole(s, now, uid, role); r.Ok? ==> TellsNow(r.value, uid, s'.users, now)
  {
  }

  /** A token lives its lifetime out, cut to the second. */
  lemma PairLives(cfg: Config, s: State, now: Time, step: Step, pair: AuthOutput)
    requires PairFrom(cfg, s, now, step) == Some(pair)
    ensures pair.expiresAt == now + cfg.accessTtl
    ensures pair.access.issuedAt == pair.refresh.issuedAt == now
    ensures pair.access.expiresAt <= now + cfg.accessTtl < pair.access.expiresAt + SECOND && pair.access.expiresAt % SECOND == 0
    ensures pair.refresh.expiresAt <= now + cfg.refreshTtl < pair.refresh.expiresAt + SECOND && pair.refresh.expiresAt % SECOND == 0
  {
    WholeSeconds(now + cfg.accessTtl);
    WholeSeconds(now + cfg.refreshTtl);
  }

  lemma WholeSeconds(t: Time)
    ensures Trunc(t) <= t < Trunc(t) + SECOND && Trunc(t) % SECOND == 0
  {
    assert t == SECOND * (t / SECOND) + t % SECOND;
    assert Trunc(t) == SECOND * (t / SECOND);
  }
}
