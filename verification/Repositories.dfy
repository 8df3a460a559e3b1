/**
  What the use cases are built on: the user entity, changed in place, the two repositories, and the
  token service. Rows are values; an entity handed out by a repository is a copy of its row.
 */
module Repositories {
  import opened Prelude
  import opened ListKeys
  import opened Identity

  class UserEntity {
    const id: Uuid
    var email: string
    var password: string
    var name: string
    var roles: seq<Role>
    var updatedAt: Time

    ghost function Value(): User
      reads this
    {
      User(id, email, password, name, roles, updatedAt)
    }

    constructor (user: User)
      ensures Value() == user
    {
      id, email, password, name, roles, updatedAt := user.id, user.email, user.password, user.name, user.roles, user.updatedAt;
    }

    method AssignRole(role: Role, now: Time)
      modifies this
      ensures Value() == WithRole(old(Value()), role, now)
    {
      for i := 0 to |roles|
        invariant Value() == old(Value())
        invariant forall j | 0 <= j < i :: roles[j].id != role.id
      {
        if roles[i].id == role.id {
          return;
        }
      }
      roles := roles + [role];
      updatedAt := now;
    }

    method RemoveRole(roleId: Uuid, now: Time)
      modifies this
      ensures Value() == WithoutRole(old(Value()), roleId, now)
    {
      for i := 0 to |roles|
        invariant Value() == old(Value())
        invariant DropRole(roles, roleId) == roles[..i] + DropRole(roles[i..], roleId)
      {
        if roles[i].id == roleId {
          roles := roles[..i] + roles[i + 1..];
          updatedAt := now;
          assert old(roles)[i..][1..] == old(roles)[i + 1..];
          assert roles == DropRole(old(roles), roleId);
          return;
        }
        assert roles[i..][1..] == roles[i + 1..];
        assert roles[..i + 1] == roles[..i] + [roles[i]];
      }
      assert roles[..|roles|] == roles;
    }

    method UpdatePassword(newPassword: string, now: Time) returns (r: Result<(), Error>)
      modifies this
      ensures r == if newPassword == "" then Err(EmptyField) else Ok(())
      ensures Value() == if newPassword == "" then old(Value()) else old(Value()).(password := newPassword, updatedAt := now)
    {
      if newPassword == "" {
        return Err(EmptyField);
      }
      password := newPassword;
      updatedAt := now;
      return Ok(());
    }
  }

  method NewUser(id: Uuid, now: Time, email: string, password: string, name: string) returns (r: Result<UserEntity, Error>)
    ensures r.Err? <==> email == "" || password == "" || name == ""
    ensures r.Err? ==> r.error == EmptyField
    ensures r.Ok? ==> fresh(r.value) && r.value.Value() == User(id, email, password, name, [], now)
  {
    if email == "" || password == "" || name == "" {
      return Err(EmptyField);
    }
    var user := new UserEntity(User(id, email, password, name, [], now));
    return Ok(user);
  }

  class UserRepository {
    var rows: map<Uuid, User>

    method FindByID(id: Uuid) returns (user: Option<UserEntity>)
      ensures user.Some? <==> id in rows
      ensures user.Some? ==> fresh(user.value) && user.value.Value() == rows[id]
    {
      if id !in rows {
        return None;
      }
      var entity := new UserEntity(rows[id]);
      return Some(entity);
    }

    method FindByEmail(email: string) returns (user: Option<UserEntity>)
      requires SoundUsers(rows)
      ensures user.Some? <==> UserByEmail(rows, email).Some?
      ensures user.Some? ==> fresh(user.value) && user.value.Value() == UserByEmail(rows, email).value
    {
      if id :| id in rows && rows[id].email == email {
        ByEmail(rows, email, id);
        var entity := new UserEntity(rows[id]);
        return Some(entity);
      }
      return None;
    }

    method ExistsByEmail(email: string) returns (yes: bool)
      ensures yes <==> UserByEmail(rows, email).Some?
    {
      return exists id :: id in rows && rows[id].email == email;
    }

    method Save(user: UserEntity)
      modifies this
      ensures rows == old(rows)[user.id := user.Value()]
    {
      rows := rows[user.id := User(user.id, user.email, user.password, user.name, user.roles, user.updatedAt)];
    }

    /** The update stamps the stored row, not the entity in hand. */
    method Update(user: UserEntity, now: Time)
      modifies this
      ensures rows == SavedUser(old(rows), user.Value(), now)
    {
      rows := rows[user.id := User(user.id, user.email, user.password, user.name, user.roles, now)];
    }

    method Delete(id: Uuid)
      modifies this
      ensures rows == old(rows) - {id}
    {
      rows := rows - {id};
    }

    /** The rows the filter selects, without their roles, and the number of all rows. */
    method FindAll(cfg: Config, f: UserFilter, p: Pagination) returns (found: seq<User>, total: nat)
      ensures found == cfg.rows(f.search, p.pageSize, (p.page - 1) * p.pageSize, rows) && total == |rows|
    {
      found := cfg.rows(f.search, p.pageSize, (p.page - 1) * p.pageSize, rows);
      total := |rows|;
    }
  }

  class RoleRepository {
    var rows: map<Uuid, Role>

    method FindByID(id: Uuid) returns (role: Option<Role>)
      ensures role == if id in rows then Some(rows[id]) else None
    {
      return if id in rows then Some(rows[id]) else None;
    }

    method FindByName(name: string) returns (role: Option<Role>)
      requires forall i, j | i in rows && j in rows && rows[i].name == rows[j].name :: i == j
      ensures role == RoleByName(rows, name)
    {
      if id :| id in rows && rows[id].name == name {
        return Some(rows[id]);
      }
      return None;
    }
  }

  /** The token service keeps nothing; what it has signed is remembered here because only that verifies. */
  class TokenService {
    const accessTtl: Time
    const refreshTtl: Time
    var signed: map<Uuid, Token>

    method GenerateTokenPair(now: Time, userId: Uuid, email: string, roles: seq<string>, roleIds: seq<Uuid>,
                             permissions: seq<string>, accessId: Uuid, refreshId: Uuid)
      returns (access: Token, refresh: Token, expiresAt: Time)
      modifies this
      ensures access == Access(accessId, userId, email, roles, roleIds, permissions, now, Trunc(now + accessTtl))
      ensures refresh == Refresh(refreshId, userId, now, Trunc(now + refreshTtl))
      ensures expiresAt == now + accessTtl
      ensures signed == old(signed)[accessId := access][refreshId := refresh]
    {
      expiresAt := now + accessTtl;
      var refreshExpiry := now + refreshTtl;
      access := Access(accessId, userId, email, roles, roleIds, permissions, now, Trunc(expiresAt));
      refresh := Refresh(refreshId, userId, now, Trunc(refreshExpiry));
      signed := signed[accessId := access][refreshId := refresh];
    }

    method ValidateToken(now: Time, p: Presented) returns (r: Result<Token, Error>)
      ensures r == Verify(signed, now, p)
    {
      if p.Malformed? || p.token.jti !in signed || signed[p.token.jti] != p.token {
        return Err(InvalidToken);
      }
      if now >= p.token.expiresAt {
        return Err(ExpiredToken);
      }
      if now < Trunc(p.token.issuedAt) {
        return Err(InvalidToken);
      }
      return Ok(p.token);
    }

    /** The subject of any token that verifies, whatever its kind. */
    method ValidateRefreshToken(now: Time, p: Presented) returns (r: Result<Uuid, Error>)
      ensures r.Ok? <==> Verify(signed, now, p).Ok?
      ensures r.Ok? ==> r.value == p.token.userId
    {
      var verified := ValidateToken(now, p);
      if verified.Err? {
        return Err(verified.error);
      }
      return Ok(verified.value.userId);
    }

    method ExtractTokenID(p: Presented) returns (r: Result<Uuid, Error>)
      ensures r == if p.Malformed? then Err(InvalidToken) else Ok(p.token.jti)
    {
      if p.Malformed? {
        return Err(InvalidToken);
      }
      return Ok(p.token.jti);
    }
  }
}
