/**
  The user use case call by call, proved equal, method by method, to the state functions in
  Identity: rows are read and written, entries are read through, filled and invalidated in order.
 */
module UserUseCase {
  import opened Prelude
  import opened CacheKeys
  import opened MemoryCache
  import opened EntryCache
  import opened ListKeys
  import opened Identity
  import opened Repositories

  class UserService {
    const cfg: Config
    const userRepo: UserRepository
    const roleRepo: RoleRepository
    const cache: Cache<Entry>
    ghost const signed: map<Uuid, Token>

    constructor (cfg: Config, userRepo: UserRepository, roleRepo: RoleRepository, cache: Cache<Entry>, ghost signed: map<Uuid, Token>)
      ensures this.cfg == cfg && this.userRepo == userRepo && this.roleRepo == roleRepo
      ensures this.cache == cache && this.signed == signed
    {
      this.cfg, this.userRepo, this.roleRepo, this.cache, this.signed := cfg, userRepo, roleRepo, cache, signed;
    }

    ghost predicate Sound()
      reads userRepo, roleRepo
    {
      SoundTables(userRepo.rows, roleRepo.rows)
    }

    /** The tokens are not this service's business: it leaves them as they are, whatever they are. */
    ghost function Now(): State
      reads userRepo, roleRepo, cache
    {
      State(userRepo.rows, roleRepo.rows, EntriesOf(cache.store), signed)
    }

    method CreateUser(now: Time, valid: bool, email: string, password: string, name: string, uid: Uuid)
      returns (r: Result<UserOutput, Error>)
      modifies userRepo, cache
      ensures (Now(), r) == Identity.CreateUser(old(Now()), now, valid, email, password, name, uid)
    {
      if !valid {
        return Err(InvalidInput);
      }
      var taken := userRepo.ExistsByEmail(email);
      if taken {
        return Err(EmailAlreadyExists);
      }
      var created := NewUser(uid, now, email, password, name);
      if created.Err? {
        return Err(created.error);
      }
      var user := created.value;
      userRepo.Save(user);
      InvalidateUserCaches(user.id, "", user.email);
      return Ok(OutputOf(user));
    }

    method UpdateUser(now: Time, valid: bool, id: Uuid, email: Option<string>, name: Option<string>)
      returns (r: Result<UserOutput, Error>)
      requires Sound()
      modifies userRepo, cache
      ensures (Now(), r) == Identity.UpdateUser(old(Now()), now, valid, id, email, name)
    {
      if !valid {
        return Err(InvalidInput);
      }
      var found := userRepo.FindByID(id);
      if found.None? {
        return Err(UserNotFound);
      }
      var user := found.value;
      var oldEmail := user.email;
      if email.Some? {
        if email.value != user.email {
          var taken := userRepo.ExistsByEmail(email.value);
          if taken {
            return Err(EmailAlreadyExists);
          }
          user.email := email.value;
        }
      }
      if name.Some? {
        user.name := name.value;
      }
      user.updatedAt := now;
      userRepo.Update(user, now);
      InvalidateUserCaches(id, oldEmail, user.email);
      return Ok(OutputOf(user));
    }

    method DeleteUser(id: Uuid) returns (r: Result<(), Error>)
      modifies userRepo, cache
      ensures (Now(), r) == Identity.DeleteUser(old(Now()), id)
    {
      var user := userRepo.FindByID(id);
      if user.None? {
        return Err(UserNotFound);
      }
      userRepo.Delete(id);
      InvalidateUserCaches(id, user.value.email, "");
      return Ok(());
    }

    method GetUser(now: Time, id: Uuid) returns (r: Result<UserOutput, Error>)
      modifies cache
      ensures (Now(), r) == Identity.GetUser(old(Now()), now, id)
    {
      var cached := GetEntry(cache, now, UserKey(id));
      if cached.Some? && cached.value.UserEntry? {
        return Ok(cached.value.output);
      }
      var user := userRepo.FindByID(id);
      if user.None? {
        return Err(UserNotFound);
      }
      var output := OutputOf(user.value);
      SetEntry(cache, now, UserKey(id), UserEntry(output), ENTITY_TTL);
      return Ok(output);
    }

    method GetUserByEmail(now: Time, email: string) returns (r: Result<UserOutput, Error>)
      requires Sound()
      modifies cache
      ensures (Now(), r) == Identity.GetUserByEmail(old(Now()), now, email)
    {
      var cached := GetEntry(cache, now, EmailKey(email));
      if cached.Some? && cached.value.UserEntry? {
        return Ok(cached.value.output);
      }
      var user := userRepo.FindByEmail(email);
      if user.None? {
        return Err(UserNotFound);
      }
      var output := OutputOf(user.value);
      SetEntry(cache, now, EmailKey(email), UserEntry(output), ENTITY_TTL);
      return Ok(output);
    }

    method ListUsers(now: Time, valid: bool, f: UserFilter, p: Pagination) returns (r: Result<UserList, Error>)
      modifies cache
      ensures (Now(), r) == Identity.ListUsers(cfg, old(Now()), now, valid, f, p)
    {
      if !valid {
        return Err(InvalidInput);
      }
      var key := UserListKey(UserListText(f, p));
      var cached := GetEntry(cache, now, key);
      if cached.Some? && cached.value.ListEntry? {
        return Ok(cached.value.result);
      }
      var users, total := userRepo.FindAll(cfg, f, p);
      var outputs := OutputsOf(users);
      var result := UserList(outputs, total, p.page, p.pageSize);
      SetEntry(cache, now, key, ListEntry(result), LIST_TTL);
      return Ok(result);
    }

    method AssignRole(now: Time, userId: Uuid, roleId: Uuid) returns (r: Result<UserOutput, Error>)
      requires Sound()
      modifies userRepo, cache
      ensures (Now(), r) == Identity.AssignRole(old(Now()), now, userId, roleId)
    {
      var user := userRepo.FindByID(userId);
      if user.None? {
        return Err(UserNotFound);
      }
      var role := roleRepo.FindByID(roleId);
      if role.None? {
        return Err(RoleNotFound);
      }
      user.value.AssignRole(role.value, now);
      SaveRoles(now, userId, user.value);
      return Ok(OutputOf(user.value));
    }

    method RemoveRole(now: Time, userId: Uuid, roleId: Uuid) returns (r: Result<UserOutput, Error>)
      requires Sound()
      modifies userRepo, cache
      ensures (Now(), r) == Identity.RemoveRole(old(Now()), now, userId, roleId)
    {
      var user := userRepo.FindByID(userId);
      if user.None? {
        return Err(UserNotFound);
      }
      var role := roleRepo.FindByID(roleId);
      if role.None? {
        return Err(RoleNotFound);
      }
      user.value.RemoveRole(roleId, now);
      SaveRoles(now, userId, user.value);
      return Ok(OutputOf(user.value));
    }

    /** The common end of a role change: store the row, then drop the user's entries and sessions. */
    method SaveRoles(now: Time, userId: Uuid, user: UserEntity)
      requires user.id == userId
      modifies userRepo, cache
      ensures Now() == RolesSaved(old(Now()), now, user.Value())
    {
      userRepo.Update(user, now);
      InvalidateUserCaches(userId, user.email, user.email);
      DeleteUserSessions(cache, userId);
    }

    method InvalidateUserCaches(id: Uuid, oldEmail: string, newEmail: string)
      modifies cache
      ensures EntriesOf(cache.store) == UserCachesDropped(old(EntriesOf(cache.store)), id, oldEmail, newEmail)
    {
      DeleteEntry(cache, UserKey(id));
      if oldEmail != "" {
        DeleteEntry(cache, EmailKey(oldEmail));
      }
      if newEmail != "" && newEmail != oldEmail {
        DeleteEntry(cache, EmailKey(newEmail));
      }
      DeleteUserLists(cache);
    }
  }

  method OutputsOf(rows: seq<User>) returns (outputs: seq<UserOutput>)
    ensures outputs == RowOutputs(rows)
  {
    outputs := [];
    for i := 0 to |rows|
      invariant RowOutputs(rows) == outputs + RowOutputs(rows[i..])
    {
      outputs := outputs + [Output(rows[i].(roles := []))];
      assert rows[i..][1..] == rows[i + 1..];
    }
  }

  function OutputOf(user: UserEntity): UserOutput
    reads user
  {
    UserOutput(user.id, user.email, user.name, user.roles, user.updatedAt)
  }
}
