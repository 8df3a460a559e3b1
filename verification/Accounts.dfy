/**
  Who can log in, and under which roles. A book of accounts is kept from the steps of a run alone; the stored
  rows are proved to say the same, and so logging in goes by the book.
 */
module Accounts {
  import opened Prelude
  import opened MemoryCache
  import opened EntryCache
  import opened Identity
  import opened UserRoles

  datatype Account = Account(email: string, password: string, name: string, roleIds: set<Uuid>)

  type Book = map<Uuid, Account>

  predicate Taken(book: Book, email: string) {
    exists id :: id in book && book[id].email == email
  }

  /** The role every registration starts with. */
  function Members(roles: map<Uuid, Role>): set<Uuid> {
    set id | id in roles && roles[id].name == "member"
  }

  predicate Complete(email: string, password: string, name: string) {
    email != "" && password != "" && name != ""
  }

  /** The step is one about accounts, and is not refused. */
  predicate Accepted(roles: map<Uuid, Role>, book: Book, step: Step) {
    match step
    case RegisterStep(valid, email, password, name, _, _, _) =>
      valid && !Taken(book, email) && Members(roles) != {} && Complete(email, password, name)
    case CreateUserStep(valid, email, password, name, _) => valid && !Taken(book, email) && Complete(email, password, name)
    case UpdateUserStep(valid, id, email, _) =>
      valid && id in book && (email.Some? && email.value != book[id].email ==> !Taken(book, email.value))
    case ChangePasswordStep(valid, id, old_, new_) => valid && id in book && book[id].password == old_ && new_ != ""
    case DeleteUserStep(id) => id in book
    case AssignRoleStep(id, role) => id in book && role in roles
    case RemoveRoleStep(id, role) => id in book && role in roles
    case _ => false
  }

  /** What an accepted step writes in the book. */
  function Noted(roles: map<Uuid, Role>, book: Book, step: Step): Book {
    if !Accepted(roles, book, step) then book
    else
      match step
      case RegisterStep(_, email, password, name, uid, _, _) => book[uid := Account(email, password, name, Members(roles))]
      case CreateUserStep(_, email, password, name, uid) => book[uid := Account(email, password, name, {})]
      case UpdateUserStep(_, id, email, name) =>
        book[id := book[id].(email := email.GetOr(book[id].email), name := name.GetOr(book[id].name))]
      case ChangePasswordStep(_, id, _, password) => book[id := book[id].(password := password)]
      case DeleteUserStep(id) => book - {id}
      case AssignRoleStep(id, role) => book[id := book[id].(roleIds := book[id].roleIds + {role})]
      case RemoveRoleStep(id, role) => book[id := book[id].(roleIds := book[id].roleIds - {role})]
  }

  function AccountOf(user: User): Account {
    Account(user.email, user.password, user.name, RoleIdSet(user.roles))
  }

  function AccountsOf(users: map<Uuid, User>): Book {
    map id | id in users :: AccountOf(users[id])
  }

  /** The accounts there were at the start, and the steps since. Roles are not stored or deleted in a run. */
  function BookOf(start: State, trace: seq<Timed>): Book
    decreases |trace|
  {
    if trace == [] then AccountsOf(start.users)
    else Noted(start.roles, BookOf(start, trace[..|trace| - 1]), trace[|trace| - 1].step)
  }

  ghost predicate RolesUnique(users: map<Uuid, User>) {
    forall id | id in users :: UniqueRoles(users[id].roles)
  }

  // ---- The rows say what the book says ----

  lemma TakenIsFound(users: map<Uuid, User>, email: string)
    ensures UserByEmail(users, email).Some? <==> Taken(AccountsOf(users), email)
  {
    if id :| id in users && users[id].email == email {
      assert AccountsOf(users)[id].email == email;
    }
    if id :| id in AccountsOf(users) && AccountsOf(users)[id].email == email {
      assert users[id].email == email;
    }
  }

  lemma MemberRole(users: map<Uuid, User>, roles: map<Uuid, Role>)
    requires SoundTables(users, roles)
    ensures RoleByName(roles, DEFAULT_ROLE).Some? <==> Members(roles) != {}
    ensures RoleByName(roles, DEFAULT_ROLE).Some? ==> Members(roles) == {RoleByName(roles, DEFAULT_ROLE).value.id}
  {
    if RoleByName(roles, DEFAULT_ROLE).Some? {
      var id :| id in roles && roles[id].name == DEFAULT_ROLE && RoleByName(roles, DEFAULT_ROLE) == Some(roles[id]);
      assert id in Members(roles);
    }
    if id :| id in Members(roles) {
      assert roles[id].name == DEFAULT_ROLE;
    }
  }

  lemma StoredAccount(users: map<Uuid, User>, user: User)
    ensures AccountsOf(users[user.id := user]) == AccountsOf(users)[user.id := AccountOf(user)]
  {
  }

  /** The new rows are the old ones with the step noted, and roles stay unique. */
  ghost predicate Books(roles: map<Uuid, Role>, users: map<Uuid, User>, users': map<Uuid, User>, step: Step) {
    AccountsOf(users') == Noted(roles, AccountsOf(users), step) && RolesUnique(users')
  }

  lemma RegisterBooks(cfg: Config, s: State, now: Time, step: Step)
    requires SoundTables(s.users, s.roles) && RolesUnique(s.users) && step.RegisterStep?
    ensures Books(s.roles, s.users, Exec(cfg, s, now, step).users, step)
    ensures Register(cfg, s, now, step.valid, step.email, step.password, step.name, step.uid, step.accessId, step.refreshId).1.Ok?
       <==> Accepted(s.roles, AccountsOf(s.users), step)
  {
    TakenIsFound(s.users, step.email);
    MemberRole(s.users, s.roles);
    if Accepted(s.roles, AccountsOf(s.users), step) {
      var role := RoleByName(s.roles, DEFAULT_ROLE).value;
      var user := User(step.uid, step.email, step.password, step.name, [role], now);
      assert RoleIdSet([role]) == {role.id} by {
        assert [role][0].id in RoleIdSet([role]);
      }
      assert AccountOf(user) == Account(step.email, step.password, step.name, Members(s.roles));
      StoredAccount(s.users, user);
      assert Exec(cfg, s, now, step).users == s.users[user.id := user];
    }
  }

  lemma CreateUserBooks(cfg: Config, s: State, now: Time, step: Step)
    requires SoundTables(s.users, s.roles) && RolesUnique(s.users) && step.CreateUserStep?
    ensures Books(s.roles, s.users, Exec(cfg, s, now, step).users, step)
    ensures CreateUser(s, now, step.valid, step.email, step.password, step.name, step.uid).1.Ok?
       <==> Accepted(s.roles, AccountsOf(s.users), step)
  {
    TakenIsFound(s.users, step.email);
    if Accepted(s.roles, AccountsOf(s.users), step) {
      var user := User(step.uid, step.email, step.password, step.name, [], now);
      assert AccountOf(user) == Account(step.email, step.password, step.name, {});
      StoredAccount(s.users, user);
      assert Exec(cfg, s, now, step).users == s.users[user.id := user];
    }
  }

  lemma UpdateUserBooks(cfg: Config, s: State, now: Time, step: Step)
    requires SoundTables(s.users, s.roles) && RolesUnique(s.users) && step.UpdateUserStep?
    ensures Books(s.roles, s.users, Exec(cfg, s, now, step).users, step)
    ensures UpdateUser(s, now, step.valid, step.id, step.newEmail, step.newName).1.Ok?
       <==> Accepted(s.roles, AccountsOf(s.users), step)
  {
    if step.newEmail.Some? {
      TakenIsFound(s.users, step.newEmail.value);
    }
    var users' := Exec(cfg, s, now, step).users;
    if Accepted(s.roles, AccountsOf(s.users), step) {
      StoredAccount(s.users, users'[step.id]);
      assert users' == s.users[step.id := users'[step.id]];
    }
  }

  lemma ChangePasswordBooks(cfg: Config, s: State, now: Time, step: Step)
    requires SoundTables(s.users, s.roles) && RolesUnique(s.users) && step.ChangePasswordStep?
    ensures Books(s.roles, s.users, Exec(cfg, s, now, step).users, step)
    ensures ChangePassword(s, now, step.valid, step.userId, step.oldPassword, step.newPassword).1.Ok?
       <==> Accepted(s.roles, AccountsOf(s.users), step)
  {
    var users' := Exec(cfg, s, now, step).users;
    if Accepted(s.roles, AccountsOf(s.users), step) {
      StoredAccount(s.users, users'[step.userId]);
      assert users' == s.users[step.userId := users'[step.userId]];
    }
  }

  lemma DeleteUserBooks(cfg: Config, s: State, now: Time, step: Step)
    requires SoundTables(s.users, s.roles) && RolesUnique(s.users) && step.DeleteUserStep?
    ensures Books(s.roles, s.users, Exec(cfg, s, now, step).users, step)
    ensures DeleteUser(s, step.id).1.Ok? <==> Accepted(s.roles, AccountsOf(s.users), step)
  {
    assert AccountsOf(s.users - {step.id}) == AccountsOf(s.users) - {step.id};
  }

  lemma AssignRoleBooks(cfg: Config, s: State, now: Time, step: Step)
    requires SoundTables(s.users, s.roles) && RolesUnique(s.users) && step.AssignRoleStep?
    ensures Books(s.roles, s.users, Exec(cfg, s, now, step).users, step)
    ensures AssignRole(s, now, step.userId, step.roleId).1.Ok? <==> Accepted(s.roles, AccountsOf(s.users), step)
  {
    var users' := Exec(cfg, s, now, step).users;
    if Accepted(s.roles, AccountsOf(s.users), step) {
      WithRoleSet(s.users[step.userId], s.roles[step.roleId], now);
      StoredAccount(s.users, users'[step.userId]);
      assert users' == s.users[step.userId := users'[step.userId]];
    }
  }

  lemma RemoveRoleBooks(cfg: Config, s: State, now: Time, step: Step)
    requires SoundTables(s.users, s.roles) && RolesUnique(s.users) && step.RemoveRoleStep?
    ensures Books(s.roles, s.users, Exec(cfg, s, now, step).users, step)
    ensures RemoveRole(s, now, step.userId, step.roleId).1.Ok? <==> Accepted(s.roles, AccountsOf(s.users), step)
  {
    var users' := Exec(cfg, s, now, step).users;
    if Accepted(s.roles, AccountsOf(s.users), step) {
      WithoutRoleSet(s.users[step.userId], step.roleId, now);
      StoredAccount(s.users, users'[step.userId]);
      assert users' == s.users[step.userId := users'[step.userId]];
    }
  }

  lemma StepBooks(cfg: Config, s: State, now: Time, step: Step)
    requires SoundTables(s.users, s.roles) && RolesUnique(s.users)
    ensures Books(s.roles, s.users, Exec(cfg, s, now, step).users, step)
  {
    match step
    case RegisterStep(_, _, _, _, _, _, _) => RegisterBooks(cfg, s, now, step);
    case CreateUserStep(_, _, _, _, _) => CreateUserBooks(cfg, s, now, step);
    case UpdateUserStep(_, _, _, _) => UpdateUserBooks(cfg, s, now, step);
    case ChangePasswordStep(_, _, _, _) => ChangePasswordBooks(cfg, s, now, step);
    case DeleteUserStep(_) => DeleteUserBooks(cfg, s, now, step);
    case AssignRoleStep(_, _) => AssignRoleBooks(cfg, s, now, step);
    case RemoveRoleStep(_, _) => RemoveRoleBooks(cfg, s, now, step);
    case _ => QuietUsers(cfg, s, now, step);
  }

  /** In every run the stored users are those of the book, with its emails, passwords, names and roles. */
  lemma {:induction false} BookExact(cfg: Config, start: State, trace: seq<Timed>)
    requires Starting(start) && RolesUnique(start.users) && Proper(cfg, start, trace)
    ensures var s := Run(cfg, start, trace);
            && SoundTables(s.users, s.roles) && s.roles == start.roles && RolesUnique(s.users)
            && AccountsOf(s.users) == BookOf(start, trace)
    decreases |trace|
  {
    if trace != [] {
      var init, last := trace[..|trace| - 1], trace[|trace| - 1];
      BookExact(cfg, start, init);
      ExecTables(cfg, Run(cfg, start, init), last.at, last.step);
      StepBooks(cfg, Run(cfg, start, init), last.at, last.step);
    }
  }

  // ---- Logging in ----

  /** The account with this email and this password. */
  predicate Opens(book: Book, id: Uuid, email: string, password: string) {
    id in book && book[id].email == email && book[id].password == password
  }

  /**
    Logging in works with the email and the password of a stored user and with nothing else, and answers with a
    pair for that user; otherwise nothing changes, and the answer does not tell which of the two was wrong.
   */
  lemma LoginExactly(cfg: Config, s: State, now: Time, valid: bool, email: string, password: string, a: Uuid, r: Uuid)
    requires SoundUsers(s.users)
    ensures var (s', answer) := Login(cfg, s, now, valid, email, password, a, r);
            && (answer.Ok? <==> valid && exists id :: Opens(AccountsOf(s.users), id, email, password))
            && (answer.Ok? ==> PairFor(s.users, email, password, answer.value))
            && (answer.Err? ==> s' == s && answer.error == if valid then InvalidCredentials else InvalidInput)
  {
    TakenIsFound(s.users, email);
    var user := UserByEmail(s.users, email);
    if user.Some? {
      var id :| id in s.users && s.users[id].email == email && user == Some(s.users[id]);
      forall i | Opens(AccountsOf(s.users), i, email, password) ensures i == id {}
      if user.value.password == password {
        assert Opens(AccountsOf(s.users), id, email, password);
      }
    }
  }

  /** Both tokens name the user, and so does the answer. */
  ghost predicate PairFor(users: map<Uuid, User>, email: string, password: string, pair: AuthOutput) {
    && pair.access.Access? && pair.refresh.Refresh?
    && pair.access.userId == pair.refresh.userId == pair.user.id
    && Opens(AccountsOf(users), pair.access.userId, email, password)
    && pair.access.email == pair.user.email == email
    && pair.access.roleIds == RoleIds(users[pair.access.userId].roles)
  }

  /** In every run logging in goes by the book. */
  lemma LoginByTheBook(cfg: Config, start: State, trace: seq<Timed>, now: Time, email: string, password: string, a: Uuid, r: Uuid)
    requires Starting(start) && RolesUnique(start.users) && Proper(cfg, start, trace)
    ensures var book, answer := BookOf(start, trace), Login(cfg, Run(cfg, start, trace), now, true, email, password, a, r).1;
            && (answer.Ok? <==> exists id :: Opens(book, id, email, password))
            && (answer.Ok? ==>
                  && Opens(book, answer.value.access.userId, email, password)
                  && (forall x :: x in answer.value.access.roleIds <==> x in book[answer.value.access.userId].roleIds))
  {
    BookExact(cfg, start, trace);
    var s := Run(cfg, start, trace);
    LoginExactly(cfg, s, now, true, email, password, a, r);
    var answer := Login(cfg, s, now, true, email, password, a, r).1;
    if answer.Ok? {
      RoleIdsAreTheSet(s.users[answer.value.access.userId].roles);
    }
  }

  /** Only one account has an email. */
  lemma OneAccount(cfg: Config, start: State, trace: seq<Timed>, id: Uuid, other: Uuid)
    requires Starting(start) && RolesUnique(start.users) && Proper(cfg, start, trace)
    requires var book := BookOf(start, trace); id in book && other in book && book[id].email == book[other].email
    ensures id == other
  {
    BookExact(cfg, start, trace);
    var users := Run(cfg, start, trace).users;
    assert AccountsOf(users)[id].email == users[id].email && AccountsOf(users)[other].email == users[other].email;
  }

  /** The steps that touch the credentials of an account. */
  predicate Disturbs(step: Step, id: Uuid) {
    || (step.DeleteUserStep? && step.id == id)
    || (step.UpdateUserStep? && step.id == id && step.newEmail.Some?)
    || (step.ChangePasswordStep? && step.userId == id)
  }

  predicate Undisturbed(trace: seq<Timed>, n: nat, id: Uuid) {
    forall k | n <= k < |trace| :: !Disturbs(trace[k].step, id)
  }

  lemma NotedKeeps(cfg: Config, s: State, now: Time, step: Step, id: Uuid)
    requires FreshIds(s, step) && !Disturbs(step, id) && id in s.users
    ensures var book, book' := AccountsOf(s.users), Noted(s.roles, AccountsOf(s.users), step);
            id in book' && book'[id].email == book[id].email && book'[id].password == book[id].password
  {
  }

  lemma {:induction false} CredentialsStay(cfg: Config, start: State, trace: seq<Timed>, n: nat, id: Uuid)
    requires Starting(start) && RolesUnique(start.users) && Proper(cfg, start, trace) && n <= |trace|
    requires Undisturbed(trace, n, id) && id in BookOf(start, trace[..n])
    ensures var before, book := BookOf(start, trace[..n]), BookOf(start, trace);
            id in book && book[id].email == before[id].email && book[id].password == before[id].password
    decreases |trace|
  {
    if n < |trace| {
      var init, last := trace[..|trace| - 1], trace[|trace| - 1];
      assert init[..n] == trace[..n];
      CredentialsStay(cfg, start, init, n, id);
      BookExact(cfg, start, init);
      NotedKeeps(cfg, Run(cfg, start, init), last.at, last.step, id);
    } else {
      assert trace[..n] == trace;
    }
  }

  /** Exactly one password opens an account, the one in the book. */
  lemma OnlyItsPassword(cfg: Config, start: State, trace: seq<Timed>, now: Time, id: Uuid, text: string, a: Uuid, r: Uuid)
    requires Starting(start) && RolesUnique(start.users) && Proper(cfg, start, trace) && id in BookOf(start, trace)
    ensures var account := BookOf(start, trace)[id];
            var answer := Login(cfg, Run(cfg, start, trace), now, true, account.email, text, a, r).1;
            (answer.Ok? <==> text == account.password) && (answer.Ok? ==> answer.value.access.userId == id)
  {
    var book := BookOf(start, trace);
    LoginByTheBook(cfg, start, trace, now, book[id].email, text, a, r);
    forall other | Opens(book, other, book[id].email, text) ensures other == id {
      OneAccount(cfg, start, trace, id, other);
    }
    if text == book[id].password {
      assert Opens(book, id, book[id].email, text);
    }
  }

  /** The answer a step about accounts gives is a yes. */
  ghost predicate Answered(cfg: Config, s: State, now: Time, step: Step) {
    match step
    case RegisterStep(valid, email, password, name, uid, a, r) => Register(cfg, s, now, valid, email, password, name, uid, a, r).1.Ok?
    case CreateUserStep(valid, email, password, name, uid) => CreateUser(s, now, valid, email, password, name, uid).1.Ok?
    case UpdateUserStep(valid, id, email, name) => UpdateUser(s, now, valid, id, email, name).1.Ok?
    case ChangePasswordStep(valid, id, old_, new_) => ChangePassword(s, now, valid, id, old_, new_).1.Ok?
    case DeleteUserStep(id) => DeleteUser(s, id).1.Ok?
    case AssignRoleStep(id, role) => AssignRole(s, now, id, role).1.Ok?
    case RemoveRoleStep(id, role) => RemoveRole(s, now, id, role).1.Ok?
    case _ => false
  }

  lemma AnsweredExactly(cfg: Config, s: State, now: Time, step: Step)
    requires SoundTables(s.users, s.roles) && RolesUnique(s.users)
    ensures Answered(cfg, s, now, step) <==> Accepted(s.roles, AccountsOf(s.users), step)
  {
    match step
    case RegisterStep(_, _, _, _, _, _, _) => RegisterBooks(cfg, s, now, step);
    case CreateUserStep(_, _, _, _, _) => CreateUserBooks(cfg, s, now, step);
    case UpdateUserStep(_, _, _, _) => UpdateUserBooks(cfg, s, now, step);
    case ChangePasswordStep(_, _, _, _) => ChangePasswordBooks(cfg, s, now, step);
    case DeleteUserStep(_) => DeleteUserBooks(cfg, s, now, step);
    case AssignRoleStep(_, _) => AssignRoleBooks(cfg, s, now, step);
    case RemoveRoleStep(_, _) => RemoveRoleBooks(cfg, s, now, step);
    case _ =>
  }

  /** In every run a step about accounts is answered with a yes exactly if the book allows it. */
  lemma AnsweredByTheBook(cfg: Config, start: State, trace: seq<Timed>, n: nat)
    requires Starting(start) && RolesUnique(start.users) && n < |trace| && Proper(cfg, start, trace[..n])
    ensures Answered(cfg, Run(cfg, start, trace[..n]), trace[n].at, trace[n].step)
       <==> Accepted(start.roles, BookOf(start, trace[..n]), trace[n].step)
  {
    BookExact(cfg, start, trace[..n]);
    AnsweredExactly(cfg, Run(cfg, start, trace[..n]), trace[n].at, trace[n].step);
  }

  lemma {:induction false} ProperUpTo(cfg: Config, start: State, trace: seq<Timed>, n: nat)
    requires n <= |trace| && Proper(cfg, start, trace)
    ensures Proper(cfg, start, trace[..n])
    decreases |trace|
  {
    if n < |trace| {
      ProperUpTo(cfg, start, trace[..|trace| - 1], n);
      assert trace[..|trace| - 1][..n] == trace[..n];
    } else {
      assert trace[..n] == trace;
    }
  }

  lemma NotedAt(start: State, trace: seq<Timed>, n: nat)
    requires n < |trace|
    ensures BookOf(start, trace[..n + 1]) == Noted(start.roles, BookOf(start, trace[..n]), trace[n].step)
  {
    assert trace[..n + 1][..n] == trace[..n];
  }

  /**
    After a registration or a creation that succeeds, and until that user is deleted or changes email or
    password, the email opens with the password given then and with no other text.
   */
  lemma NewAccountOpens(cfg: Config, start: State, trace: seq<Timed>, n: nat, now: Time, text: string, a: Uuid, r: Uuid)
    requires Starting(start) && RolesUnique(start.users) && Proper(cfg, start, trace) && n < |trace|
    requires trace[n].step.RegisterStep? || trace[n].step.CreateUserStep?
    requires Answered(cfg, Run(cfg, start, trace[..n]), trace[n].at, trace[n].step)
    requires Undisturbed(trace, n + 1, trace[n].step.uid)
    ensures var step := trace[n].step;
            var answer := Login(cfg, Run(cfg, start, trace), now, true, step.email, text, a, r).1;
            (answer.Ok? <==> text == step.password) && (answer.Ok? ==> answer.value.access.userId == step.uid)
  {
    ProperUpTo(cfg, start, trace, n);
    AnsweredByTheBook(cfg, start, trace, n);
    NotedAt(start, trace, n);
    CredentialsStay(cfg, start, trace, n + 1, trace[n].step.uid);
    OnlyItsPassword(cfg, start, trace, now, trace[n].step.uid, text, a, r);
  }

  /** After a password change that succeeds, and until the next, the account opens with the new password and with no other text. */
  lemma ChangedPasswordOpens(cfg: Config, start: State, trace: seq<Timed>, n: nat, now: Time, text: string, a: Uuid, r: Uuid)
    requires Starting(start) && RolesUnique(start.users) && Proper(cfg, start, trace) && n < |trace|
    requires trace[n].step.ChangePasswordStep?
    requires Answered(cfg, Run(cfg, start, trace[..n]), trace[n].at, trace[n].step)
    requires Undisturbed(trace, n + 1, trace[n].step.userId)
    ensures var step, before := trace[n].step, Run(cfg, start, trace[..n]).users;
            step.userId in before
            && var answer := Login(cfg, Run(cfg, start, trace), now, true, before[step.userId].email, text, a, r).1;
               (answer.Ok? <==> text == step.newPassword) && (answer.Ok? ==> answer.value.access.userId == step.userId)
  {
    ProperUpTo(cfg, start, trace, n);
    BookExact(cfg, start, trace[..n]);
    AnsweredByTheBook(cfg, start, trace, n);
    NotedAt(start, trace, n);
    CredentialsStay(cfg, start, trace, n + 1, trace[n].step.userId);
    OnlyItsPassword(cfg, start, trace, now, trace[n].step.userId, text, a, r);
  }
}
