/**
  Users, roles, tokens and the shared cache, with the meaning of every operation of the
  authentication and user use cases as a function from state to state. Passwords stand for their
  hashes, a token for its signed text, and a cached JSON value for what it decodes to.
 */
module Identity {
  import opened Prelude
  import opened CacheKeys
  import opened MemoryCache
  import opened EntryCache
  import opened ListKeys

  datatype Permission = Permission(resource: string, action: string)

  datatype Role = Role(id: Uuid, name: string, permissions: seq<Permission>)

  datatype User = User(id: Uuid, email: string, password: string, name: string, roles: seq<Role>, updatedAt: Time)

  datatype UserOutput = UserOutput(id: Uuid, email: string, name: string, roles: seq<Role>, updatedAt: Time)

  datatype UserList = UserList(users: seq<UserOutput>, total: nat, page: int, pageSize: int)

  /** A refresh token carries the registered claims only. */
  datatype Token =
    | Access(jti: Uuid, userId: Uuid, email: string, roles: seq<string>, roleIds: seq<Uuid>, permissions: seq<string>,
             issuedAt: Time, expiresAt: Time)
    | Refresh(jti: Uuid, userId: Uuid, issuedAt: Time, expiresAt: Time)

  /** A token string as a caller hands it in: it may not even parse. */
  datatype Presented = Malformed | WellFormed(token: Token)

  datatype Entry =
    | SessionEntry(userId: Uuid, accessId: Uuid, refreshId: Uuid)
    | RevokedEntry
    | UserEntry(output: UserOutput)
    | ListEntry(result: UserList)

  datatype Error =
    | InvalidInput | EmptyField | EmailAlreadyExists | UserNotFound | RoleNotFound
    | InvalidCredentials | InvalidToken | ExpiredToken

  datatype AuthOutput = AuthOutput(access: Token, refresh: Token, expiresAt: Time, user: UserOutput)

  /** Token lifetimes, and the rows the database returns for a search text, a limit and an offset. */
  datatype Config = Config(accessTtl: Time, refreshTtl: Time, rows: (string, int, int, map<Uuid, User>) -> seq<User>)

  /** The tables, the cache, and every token signed so far under its ID: no ID is generated twice. */
  datatype State = State(users: map<Uuid, User>, roles: map<Uuid, Role>, cache: Entries<Entry>, signed: map<Uuid, Token>)

  const DEFAULT_ROLE := "member"
  const ENTITY_TTL: Time := 5 * MINUTE
  const LIST_TTL: Time := 2 * MINUTE

  // ---- Repositories ----

  ghost function UserByEmail(users: map<Uuid, User>, email: string): Option<User> {
    if exists id :: id in users && users[id].email == email
    then var id :| id in users && users[id].email == email; Some(users[id])
    else None
  }

  ghost function RoleByName(roles: map<Uuid, Role>, name: string): Option<Role> {
    if exists id :: id in roles && roles[id].name == name
    then var id :| id in roles && roles[id].name == name; Some(roles[id])
    else None
  }

  /** What the database guarantees: rows are stored under their own ID, emails and role names are unique. */
  ghost predicate SoundTables(users: map<Uuid, User>, roles: map<Uuid, Role>) {
    && SoundUsers(users)
    && (forall id | id in roles :: roles[id].id == id)
    && (forall i, j | i in roles && j in roles && roles[i].name == roles[j].name :: i == j)
  }

  ghost predicate SoundUsers(users: map<Uuid, User>) {
    && (forall id | id in users :: users[id].id == id && id != NIL_UUID)
    && (forall i, j | i in users && j in users && users[i].email == users[j].email :: i == j)
  }

  /** An update stores the row with a new timestamp. */
  function SavedUser(users: map<Uuid, User>, user: User, now: Time): map<Uuid, User> {
    users[user.id := user.(updatedAt := now)]
  }

  /** The row count ignores the filter, and listed rows come without their roles. */
  function FindAll(cfg: Config, users: map<Uuid, User>, f: UserFilter, p: Pagination): UserList {
    UserList(RowOutputs(cfg.rows(f.search, p.pageSize, (p.page - 1) * p.pageSize, users)), |users|, p.page, p.pageSize)
  }

  function RowOutputs(rows: seq<User>): seq<UserOutput> {
    if rows == [] then [] else [Output(rows[0].(roles := []))] + RowOutputs(rows[1..])
  }

  function Output(user: User): UserOutput {
    UserOutput(user.id, user.email, user.name, user.roles, user.updatedAt)
  }

  // ---- User entity ----

  function WithRole(user: User, role: Role, now: Time): User {
    if exists i :: 0 <= i < |user.roles| && user.roles[i].id == role.id then user
    else user.(roles := user.roles + [role], updatedAt := now)
  }

  function DropRole(roles: seq<Role>, roleId: Uuid): seq<Role> {
    if roles == [] then []
    else if roles[0].id == roleId then roles[1..]
    else [roles[0]] + DropRole(roles[1..], roleId)
  }

  function WithoutRole(user: User, roleId: Uuid, now: Time): User {
    if DropRole(user.roles, roleId) == user.roles then user
    else user.(roles := DropRole(user.roles, roleId), updatedAt := now)
  }

  // ---- Claims ----

  function RoleNames(roles: seq<Role>): seq<string> {
    if roles == [] then [] else RoleNames(roles[..|roles| - 1]) + [roles[|roles| - 1].name]
  }

  function RoleIds(roles: seq<Role>): seq<Uuid> {
    if roles == [] then [] else RoleIds(roles[..|roles| - 1]) + [roles[|roles| - 1].id]
  }

  function PermissionTexts(permissions: seq<Permission>): seq<string> {
    if permissions == [] then []
    else PermissionTexts(permissions[..|permissions| - 1])
         + [permissions[|permissions| - 1].resource + ":" + permissions[|permissions| - 1].action]
  }

  function RolePermissions(roles: seq<Role>): seq<string> {
    if roles == [] then [] else RolePermissions(roles[..|roles| - 1]) + PermissionTexts(roles[|roles| - 1].permissions)
  }

  // ---- Token service ----

  /** Dates in a token are whole seconds. */
  function Trunc(t: Time): Time {
    t - t % SECOND
  }

  function AccessFor(cfg: Config, now: Time, user: User, jti: Uuid): Token {
    Access(jti, user.id, user.email, RoleNames(user.roles), RoleIds(user.roles), RolePermissions(user.roles),
           now, Trunc(now + cfg.accessTtl))
  }

  function RefreshFor(cfg: Config, now: Time, userId: Uuid, jti: Uuid): Token {
    Refresh(jti, userId, now, Trunc(now + cfg.refreshTtl))
  }

  /** Signature, expiry and not-before; only tokens the service signed pass the first. */
  function Verify(signed: map<Uuid, Token>, now: Time, p: Presented): Result<Token, Error> {
    if p.Malformed? || p.token.jti !in signed || signed[p.token.jti] != p.token then Err(InvalidToken)
    else if now >= p.token.expiresAt then Err(ExpiredToken)
    else if now < Trunc(p.token.issuedAt) then Err(InvalidToken)
    else Ok(p.token)
  }

  /** The user a token's access claims name; a refresh token has no such claim. */
  function ClaimedUser(t: Token): Uuid {
    if t.Access? then t.userId else NIL_UUID
  }

  // ---- Authentication ----

  ghost function Issue(cfg: Config, s: State, now: Time, user: User, accessId: Uuid, refreshId: Uuid): State {
    var session := SessionEntry(user.id, accessId, refreshId);
    var c1 := Stored(s.cache, now, SessionKey(user.id, accessId), session, cfg.refreshTtl);
    var c2 := Stored(c1, now, SessionKey(user.id, refreshId), session, cfg.refreshTtl);
    s.(signed := s.signed[accessId := AccessFor(cfg, now, user, accessId)][refreshId := RefreshFor(cfg, now, user.id, refreshId)],
       cache := c2)
  }

  function Issued(cfg: Config, now: Time, user: User, accessId: Uuid, refreshId: Uuid): AuthOutput {
    AuthOutput(AccessFor(cfg, now, user, accessId), RefreshFor(cfg, now, user.id, refreshId), now + cfg.accessTtl, Output(user))
  }

  ghost function Register(cfg: Config, s: State, now: Time, valid: bool, email: string, password: string, name: string,
                          uid: Uuid, accessId: Uuid, refreshId: Uuid): (State, Result<AuthOutput, Error>) {
    if !valid then (s, Err(InvalidInput))
    else if UserByEmail(s.users, email).Some? then (s, Err(EmailAlreadyExists))
    else if RoleByName(s.roles, DEFAULT_ROLE).None? then (s, Err(RoleNotFound))
    else Enrolled(cfg, s, now, RoleByName(s.roles, DEFAULT_ROLE).value, email, password, name, uid, accessId, refreshId)
  }

  /** A new user with one role, stored and given a first pair of tokens. */
  ghost function Enrolled(cfg: Config, s: State, now: Time, role: Role, email: string, password: string, name: string,
                          uid: Uuid, accessId: Uuid, refreshId: Uuid): (State, Result<AuthOutput, Error>) {
    var user := User(uid, email, password, name, [role], now);
    if email == "" || password == "" || name == "" then (s, Err(EmptyField))
    else (Issue(cfg, s.(users := s.users[uid := user]), now, user, accessId, refreshId), Ok(Issued(cfg, now, user, accessId, refreshId)))
  }

  ghost function Login(cfg: Config, s: State, now: Time, valid: bool, email: string, password: string,
                       accessId: Uuid, refreshId: Uuid): (State, Result<AuthOutput, Error>) {
    var user := UserByEmail(s.users, email);
    if !valid then (s, Err(InvalidInput))
    else if user.None? || user.value.password != password then (s, Err(InvalidCredentials))
    else (Issue(cfg, s, now, user.value, accessId, refreshId), Ok(Issued(cfg, now, user.value, accessId, refreshId)))
  }

  /** Blacklist a token that still verifies, for as long as it would live. */
  ghost function Blacklisted(cache: Entries<Entry>, signed: map<Uuid, Token>, now: Time, p: Presented): Entries<Entry> {
    if Verify(signed, now, p).Ok? && p.token.expiresAt - now > 0
    then Stored(cache, now, BlacklistKey(p.token.jti), RevokedEntry, p.token.expiresAt - now)
    else cache
  }

  /** End the session found under the token ID: revoke its refresh token and drop both session keys. */
  ghost function SessionEnded(cfg: Config, cache: Entries<Entry>, now: Time, userId: Uuid, tokenId: Uuid): Entries<Entry> {
    var session := Read(cache, now, SessionKey(userId, tokenId));
    var c := if session.Some? && session.value.SessionEntry? then
      Removed(Stored(cache, now, BlacklistKey(session.value.refreshId), RevokedEntry, cfg.refreshTtl),
             SessionKey(userId, session.value.refreshId))
    else cache;
    Removed(c, SessionKey(userId, tokenId))
  }

  ghost function Logout(cfg: Config, s: State, now: Time, userId: Uuid, p: Presented): (State, Result<(), Error>) {
    if p.Malformed? then (s, Err(InvalidToken))
    else (s.(cache := SessionEnded(cfg, Blacklisted(s.cache, s.signed, now, p), now, userId, p.token.jti)), Ok(()))
  }

  ghost predicate Revoked(cache: Entries<Entry>, now: Time, tokenId: Uuid) {
    Read(cache, now, BlacklistKey(tokenId)).Some?
  }

  ghost predicate HasSession(cache: Entries<Entry>, now: Time, userId: Uuid, tokenId: Uuid) {
    Read(cache, now, SessionKey(userId, tokenId)).Some?
  }

  ghost function RefreshTokens(cfg: Config, s: State, now: Time, p: Presented, accessId: Uuid, refreshId: Uuid)
      : (State, Result<AuthOutput, Error>) {
    var verified := Verify(s.signed, now, p);
    if verified.Err? then (s, Err(InvalidToken))
    else if Revoked(s.cache, now, verified.value.jti) then (s, Err(InvalidToken))
    else if !HasSession(s.cache, now, verified.value.userId, verified.value.jti) then (s, Err(InvalidToken))
    else if verified.value.userId !in s.users then (s, Err(UserNotFound))
    else
      var user := s.users[verified.value.userId];
      (Issue(cfg, s, now, user, accessId, refreshId), Ok(Issued(cfg, now, user, accessId, refreshId)))
  }

  ghost function ValidateToken(s: State, now: Time, p: Presented): Result<Token, Error> {
    var verified := Verify(s.signed, now, p);
    if verified.Err? then verified
    else if Revoked(s.cache, now, verified.value.jti) then Err(InvalidToken)
    else if !HasSession(s.cache, now, ClaimedUser(verified.value), verified.value.jti) then Err(InvalidToken)
    else verified
  }

  ghost function ChangePassword(s: State, now: Time, valid: bool, userId: Uuid, oldPassword: string, newPassword: string)
      : (State, Result<(), Error>) {
    if !valid then (s, Err(InvalidInput))
    else if userId !in s.users then (s, Err(UserNotFound))
    else if s.users[userId].password != oldPassword then (s, Err(InvalidCredentials))
    else if newPassword == "" then (s, Err(EmptyField))
    else
      (s.(users := SavedUser(s.users, s.users[userId].(password := newPassword), now),
          cache := SessionsDropped(s.cache, userId)), Ok(()))
  }

  // ---- User management ----

  /** Drop a user's entries by ID and by the emails given, and every user list. */
  ghost function UserCachesDropped(cache: Entries<Entry>, id: Uuid, oldEmail: string, newEmail: string): Entries<Entry> {
    var c1 := Removed(cache, UserKey(id));
    var c2 := if oldEmail != "" then Removed(c1, EmailKey(oldEmail)) else c1;
    var c3 := if newEmail != "" && newEmail != oldEmail then Removed(c2, EmailKey(newEmail)) else c2;
    UserListsDropped(c3)
  }

  ghost function CreateUser(s: State, now: Time, valid: bool, email: string, password: string, name: string, uid: Uuid)
      : (State, Result<UserOutput, Error>) {
    if !valid then (s, Err(InvalidInput))
    else if UserByEmail(s.users, email).Some? then (s, Err(EmailAlreadyExists))
    else if email == "" || password == "" || name == "" then (s, Err(EmptyField))
    else
      var user := User(uid, email, password, name, [], now);
      (s.(users := s.users[uid := user], cache := UserCachesDropped(s.cache, uid, "", email)), Ok(Output(user)))
  }

  ghost function UpdateUser(s: State, now: Time, valid: bool, id: Uuid, email: Option<string>, name: Option<string>)
      : (State, Result<UserOutput, Error>) {
    if !valid then (s, Err(InvalidInput))
    else if id !in s.users then (s, Err(UserNotFound))
    else if email.Some? && email.value != s.users[id].email && UserByEmail(s.users, email.value).Some? then (s, Err(EmailAlreadyExists))
    else
      var before := s.users[id];
      var user := before.(email := if email.Some? then email.value else before.email,
                          name := if name.Some? then name.value else before.name, updatedAt := now);
      (s.(users := SavedUser(s.users, user, now), cache := UserCachesDropped(s.cache, id, before.email, user.email)), Ok(Output(user)))
  }

  ghost function DeleteUser(s: State, id: Uuid): (State, Result<(), Error>) {
    if id !in s.users then (s, Err(UserNotFound))
    else (s.(users := s.users - {id}, cache := UserCachesDropped(s.cache, id, s.users[id].email, "")), Ok(()))
  }

  ghost function GetUser(s: State, now: Time, id: Uuid): (State, Result<UserOutput, Error>) {
    var cached := Read(s.cache, now, UserKey(id));
    if cached.Some? && cached.value.UserEntry? then (s, Ok(cached.value.output))
    else if id !in s.users then (s, Err(UserNotFound))
    else
      var output := Output(s.users[id]);
      (s.(cache := Stored(s.cache, now, UserKey(id), UserEntry(output), ENTITY_TTL)), Ok(output))
  }

  ghost function GetUserByEmail(s: State, now: Time, email: string): (State, Result<UserOutput, Error>) {
    var cached := Read(s.cache, now, EmailKey(email));
    var user := UserByEmail(s.users, email);
    if cached.Some? && cached.value.UserEntry? then (s, Ok(cached.value.output))
    else if user.None? then (s, Err(UserNotFound))
    else
      var output := Output(user.value);
      (s.(cache := Stored(s.cache, now, EmailKey(email), UserEntry(output), ENTITY_TTL)), Ok(output))
  }

  ghost function ListUsers(cfg: Config, s: State, now: Time, valid: bool, f: UserFilter, p: Pagination): (State, Result<UserList, Error>) {
    var key := UserListKey(UserListText(f, p));
    var cached := Read(s.cache, now, key);
    if !valid then (s, Err(InvalidInput))
    else if cached.Some? && cached.value.ListEntry? then (s, Ok(cached.value.result))
    else
      var result := FindAll(cfg, s.users, f, p);
      (s.(cache := Stored(s.cache, now, key, ListEntry(result), LIST_TTL)), Ok(result))
  }

  /** Saving a user's roles drops the user's entries and sessions, whether or not the roles changed. */
  ghost function RolesSaved(s: State, now: Time, user: User): State {
    s.(users := SavedUser(s.users, user, now),
       cache := SessionsDropped(UserCachesDropped(s.cache, user.id, user.email, user.email), user.id))
  }

  ghost function AssignRole(s: State, now: Time, userId: Uuid, roleId: Uuid): (State, Result<UserOutput, Error>) {
    if userId !in s.users then (s, Err(UserNotFound))
    else if roleId !in s.roles then (s, Err(RoleNotFound))
    else
      var user := WithRole(s.users[userId], s.roles[roleId], now);
      (RolesSaved(s, now, user), Ok(Output(user)))
  }

  ghost function RemoveRole(s: State, now: Time, userId: Uuid, roleId: Uuid): (State, Result<UserOutput, Error>) {
    if userId !in s.users then (s, Err(UserNotFound))
    else if roleId !in s.roles then (s, Err(RoleNotFound))
    else
      var user := WithoutRole(s.users[userId], roleId, now);
      (RolesSaved(s, now, user), Ok(Output(user)))
  }

  // ---- Runs ----

  datatype Step =
    | RegisterStep(valid: bool, email: string, password: string, name: string, uid: Uuid, accessId: Uuid, refreshId: Uuid)
    | LoginStep(valid: bool, email: string, password: string, accessId: Uuid, refreshId: Uuid)
    | LogoutStep(userId: Uuid, presented: Presented)
    | RefreshStep(presented: Presented, accessId: Uuid, refreshId: Uuid)
    | ChangePasswordStep(valid: bool, userId: Uuid, oldPassword: string, newPassword: string)
    | CreateUserStep(valid: bool, email: string, password: string, name: string, uid: Uuid)
    | UpdateUserStep(valid: bool, id: Uuid, newEmail: Option<string>, newName: Option<string>)
    | DeleteUserStep(id: Uuid)
    | GetUserStep(id: Uuid)
    | GetUserByEmailStep(email: string)
    | ListUsersStep(valid: bool, filter: UserFilter, page: Pagination)
    | AssignRoleStep(userId: Uuid, roleId: Uuid)
    | RemoveRoleStep(userId: Uuid, roleId: Uuid)
    | SweepStep

  ghost function Exec(cfg: Config, s: State, now: Time, step: Step): State {
    match step
    case RegisterStep(valid, email, password, name, uid, a, r) => Register(cfg, s, now, valid, email, password, name, uid, a, r).0
    case LoginStep(valid, email, password, a, r) => Login(cfg, s, now, valid, email, password, a, r).0
    case LogoutStep(userId, p) => Logout(cfg, s, now, userId, p).0
    case RefreshStep(p, a, r) => RefreshTokens(cfg, s, now, p, a, r).0
    case ChangePasswordStep(valid, userId, old_, new_) => ChangePassword(s, now, valid, userId, old_, new_).0
    case CreateUserStep(valid, email, password, name, uid) => CreateUser(s, now, valid, email, password, name, uid).0
    case UpdateUserStep(valid, id, email, name) => UpdateUser(s, now, valid, id, email, name).0
    case DeleteUserStep(id) => DeleteUser(s, id).0
    case GetUserStep(id) => GetUser(s, now, id).0
    case GetUserByEmailStep(email) => GetUserByEmail(s, now, email).0
    case ListUsersStep(valid, f, p) => ListUsers(cfg, s, now, valid, f, p).0
    case AssignRoleStep(userId, roleId) => AssignRole(s, now, userId, roleId).0
    case RemoveRoleStep(userId, roleId) => RemoveRole(s, now, userId, roleId).0
    case SweepStep => s.(cache := Swept(s.cache, now))
  }

  /** Generated UUIDs have never been used before. */
  ghost predicate FreshIds(s: State, step: Step) {
    && (step.RegisterStep? || step.LoginStep? || step.RefreshStep? ==>
         step.accessId != step.refreshId && step.accessId !in s.signed && step.refreshId !in s.signed)
    && (step.RegisterStep? || step.CreateUserStep? ==>
         step.uid !in s.users && step.uid != NIL_UUID && forall j | j in s.signed :: s.signed[j].userId != step.uid)
  }

  datatype Timed = Timed(at: Time, step: Step)

  ghost function Run(cfg: Config, start: State, trace: seq<Timed>): State
    decreases |trace|
  {
    if trace == [] then start
    else
      var last := trace[|trace| - 1];
      Exec(cfg, Run(cfg, start, trace[..|trace| - 1]), last.at, last.step)
  }

  /** Operations run one after another, the clock never goes back, and generated IDs are fresh. */
  ghost predicate Proper(cfg: Config, start: State, trace: seq<Timed>)
    decreases |trace|
  {
    trace == [] ||
    var init := trace[..|trace| - 1];
    && Proper(cfg, start, init)
    && (init != [] ==> init[|init| - 1].at <= trace[|trace| - 1].at)
    && FreshIds(Run(cfg, start, init), trace[|trace| - 1].step)
  }

  /** The database may hold users and roles at the start; no token is out and the cache is empty. */
  ghost predicate Starting(s: State) {
    SoundTables(s.users, s.roles) && s.cache == imap[] && s.signed == map[]
  }

  /** An instant at or after every step of the trace. */
  predicate NotBefore(trace: seq<Timed>, now: Time) {
    trace == [] || trace[|trace| - 1].at <= now
  }

  // ---- Tables stay sound ----

  lemma ByEmail(users: map<Uuid, User>, email: string, id: Uuid)
    requires SoundUsers(users) && id in users && users[id].email == email
    ensures UserByEmail(users, email) == Some(users[id])
  {
  }

  lemma NobodyByEmail(users: map<Uuid, User>, email: string)
    requires UserByEmail(users, email).None?
    ensures forall id | id in users :: users[id].email != email
  {
  }

  lemma SoundInsert(users: map<Uuid, User>, user: User)
    requires SoundUsers(users) && user.id != NIL_UUID
    requires forall id | id in users && users[id].email == user.email :: id == user.id
    ensures SoundUsers(users[user.id := user])
  {
  }

  /** What a step may do to the users: nothing, remove one, or store one under an email nobody else has. */
  ghost predicate UsersStep(users: map<Uuid, User>, users': map<Uuid, User>) {
    || users' == users
    || (exists id :: id in users && users' == users - {id})
    || (exists user: User :: user.id != NIL_UUID && users' == users[user.id := user]
          && forall id | id in users && users[id].email == user.email :: id == user.id)
  }

  lemma InsertIsStep(users: map<Uuid, User>, user: User)
    requires UserByEmail(users, user.email).None? && user.id != NIL_UUID
    ensures UsersStep(users, users[user.id := user])
  {
    NobodyByEmail(users, user.email);
  }

  lemma UpdateUserStepUsers(s: State, now: Time, valid: bool, id: Uuid, email: Option<string>, name: Option<string>)
    requires SoundUsers(s.users)
    ensures UsersStep(s.users, UpdateUser(s, now, valid, id, email, name).0.users)
  {
    var users' := UpdateUser(s, now, valid, id, email, name).0.users;
    if UpdateUser(s, now, valid, id, email, name).1.Ok? {
      var user := users'[id];
      assert user.id == id && users' == s.users[user.id := user];
      if user.email != s.users[id].email {
        InsertIsStep(s.users, user);
      } else {
        StoredIsStep(s, users', id);
      }
    }
  }

  lemma EnrolledUsers(cfg: Config, s: State, now: Time, role: Role, email: string, password: string, name: string,
                      uid: Uuid, a: Uuid, r: Uuid)
    requires uid != NIL_UUID && UserByEmail(s.users, email).None?
    ensures UsersStep(s.users, Enrolled(cfg, s, now, role, email, password, name, uid, a, r).0.users)
  {
    InsertIsStep(s.users, User(uid, email, password, name, [role], now));
  }

  lemma RegisterUsers(cfg: Config, s: State, now: Time, valid: bool, email: string, password: string, name: string,
                      uid: Uuid, a: Uuid, r: Uuid)
    requires uid != NIL_UUID
    ensures UsersStep(s.users, Register(cfg, s, now, valid, email, password, name, uid, a, r).0.users)
  {
    if UserByEmail(s.users, email).None? && RoleByName(s.roles, DEFAULT_ROLE).Some? {
      EnrolledUsers(cfg, s, now, RoleByName(s.roles, DEFAULT_ROLE).value, email, password, name, uid, a, r);
    }
  }

  lemma CreateUserUsers(s: State, now: Time, valid: bool, email: string, password: string, name: string, uid: Uuid)
    requires uid != NIL_UUID
    ensures UsersStep(s.users, CreateUser(s, now, valid, email, password, name, uid).0.users)
  {
    if CreateUser(s, now, valid, email, password, name, uid).1.Ok? {
      InsertIsStep(s.users, User(uid, email, password, name, [], now));
    }
  }

  lemma ChangePasswordUsers(s: State, now: Time, valid: bool, userId: Uuid, old_: string, new_: string)
    requires SoundUsers(s.users)
    ensures UsersStep(s.users, ChangePassword(s, now, valid, userId, old_, new_).0.users)
  {
    StoredIsStep(s, ChangePassword(s, now, valid, userId, old_, new_).0.users, userId);
  }

  lemma AssignRoleUsers(s: State, now: Time, userId: Uuid, roleId: Uuid)
    requires SoundUsers(s.users)
    ensures UsersStep(s.users, AssignRole(s, now, userId, roleId).0.users)
  {
    StoredIsStep(s, AssignRole(s, now, userId, roleId).0.users, userId);
  }

  lemma RemoveRoleUsers(s: State, now: Time, userId: Uuid, roleId: Uuid)
    requires SoundUsers(s.users)
    ensures UsersStep(s.users, RemoveRole(s, now, userId, roleId).0.users)
  {
    StoredIsStep(s, RemoveRole(s, now, userId, roleId).0.users, userId);
  }

  lemma ExecUsers(cfg: Config, s: State, now: Time, step: Step)
    requires SoundTables(s.users, s.roles) && FreshIds(s, step)
    ensures UsersStep(s.users, Exec(cfg, s, now, step).users)
  {
    match step
    case RegisterStep(valid, email, password, name, uid, a, r) => RegisterUsers(cfg, s, now, valid, email, password, name, uid, a, r);
    case CreateUserStep(valid, email, password, name, uid) => CreateUserUsers(s, now, valid, email, password, name, uid);
    case UpdateUserStep(valid, id, email, name) => UpdateUserStepUsers(s, now, valid, id, email, name);
    case ChangePasswordStep(valid, id, old_, new_) => ChangePasswordUsers(s, now, valid, id, old_, new_);
    case AssignRoleStep(id, role) => AssignRoleUsers(s, now, id, role);
    case RemoveRoleStep(id, role) => RemoveRoleUsers(s, now, id, role);
    case DeleteUserStep(_) =>
    case LoginStep(_, _, _, _, _) => QuietUsers(cfg, s, now, step);
    case LogoutStep(_, _) => QuietUsers(cfg, s, now, step);
    case RefreshStep(_, _, _) => QuietUsers(cfg, s, now, step);
    case GetUserStep(_) => QuietUsers(cfg, s, now, step);
    case GetUserByEmailStep(_) => QuietUsers(cfg, s, now, step);
    case ListUsersStep(_, _, _) => QuietUsers(cfg, s, now, step);
    case SweepStep => QuietUsers(cfg, s, now, step);
  }

  /** Steps that write no user. */
  predicate Quiet(step: Step) {
    || step.LoginStep? || step.LogoutStep? || step.RefreshStep? || step.GetUserStep? || step.GetUserByEmailStep?
    || step.ListUsersStep? || step.SweepStep?
  }

  lemma QuietUsers(cfg: Config, s: State, now: Time, step: Step)
    requires Quiet(step)
    ensures Exec(cfg, s, now, step).users == s.users
  {
  }

  lemma ExecRoles(cfg: Config, s: State, now: Time, step: Step)
    ensures Exec(cfg, s, now, step).roles == s.roles
  {
  }

  lemma StoredIsStep(s: State, users': map<Uuid, User>, id: Uuid)
    requires SoundUsers(s.users)
    requires users' == s.users
          || (id in s.users && id in users' && users' == s.users[id := users'[id]]
               && users'[id].id == id && users'[id].email == s.users[id].email)
    ensures UsersStep(s.users, users')
  {
    if users' != s.users {
      var user := users'[id];
      assert users' == s.users[user.id := user];
    }
  }

  lemma ExecTables(cfg: Config, s: State, now: Time, step: Step)
    requires SoundTables(s.users, s.roles) && FreshIds(s, step)
    ensures var s' := Exec(cfg, s, now, step); SoundTables(s'.users, s'.roles) && s'.roles == s.roles
  {
    ExecUsers(cfg, s, now, step);
    ExecRoles(cfg, s, now, step);
    var users' := Exec(cfg, s, now, step).users;
    if users' == s.users {
    } else if id :| id in s.users && users' == s.users - {id} {
    } else {
      var user: User :| user.id != NIL_UUID && users' == s.users[user.id := user]
        && forall id | id in s.users && s.users[id].email == user.email :: id == user.id;
      SoundInsert(s.users, user);
    }
  }
}
