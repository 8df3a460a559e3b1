/**
  The authentication use case call by call: repository, token service and cache calls one
  after another. Every method is proved equal to the state function of the same name in Identity.
 */
module AuthUseCase {
  import opened Prelude
  import opened CacheKeys
  import opened MemoryCache
  import opened EntryCache
  import opened Identity
  import opened Repositories

  class AuthService {
    const cfg: Config
    const userRepo: UserRepository
    const roleRepo: RoleRepository
    const cache: Cache<Entry>
    const tokenService: TokenService

    constructor (cfg: Config, userRepo: UserRepository, roleRepo: RoleRepository, cache: Cache<Entry>, tokenService: TokenService)
      ensures this.cfg == cfg && this.userRepo == userRepo && this.roleRepo == roleRepo
      ensures this.cache == cache && this.tokenService == tokenService
    {
      this.cfg, this.userRepo, this.roleRepo, this.cache, this.tokenService := cfg, userRepo, roleRepo, cache, tokenService;
    }

    ghost predicate Valid() {
      tokenService.accessTtl == cfg.accessTtl && tokenService.refreshTtl == cfg.refreshTtl
    }

    ghost predicate Sound()
      reads userRepo, roleRepo
    {
      SoundTables(userRepo.rows, roleRepo.rows)
    }

    ghost function Now(): State
      reads userRepo, roleRepo, cache, tokenService
    {
      State(userRepo.rows, roleRepo.rows, EntriesOf(cache.store), tokenService.signed)
    }

    method Register(now: Time, valid: bool, email: string, password: string, name: string,
                    uid: Uuid, accessId: Uuid, refreshId: Uuid) returns (r: Result<AuthOutput, Error>)
      requires Valid() && Sound()
      modifies userRepo, cache, tokenService
      ensures (Now(), r) == Identity.Register(cfg, old(Now()), now, valid, email, password, name, uid, accessId, refreshId)
    {
      if !valid {
        return Err(InvalidInput);
      }
      var taken := userRepo.ExistsByEmail(email);
      if taken {
        return Err(EmailAlreadyExists);
      }
      var role := roleRepo.FindByName(DEFAULT_ROLE);
      if role.None? {
        return Err(RoleNotFound);
      }
      r := Enrol(now, email, password, name, role.value, uid, accessId, refreshId);
    }

    method Enrol(now: Time, email: string, password: string, name: string, role: Role, uid: Uuid, accessId: Uuid, refreshId: Uuid)
      returns (r: Result<AuthOutput, Error>)
      requires Valid()
      modifies userRepo, cache, tokenService
      ensures (Now(), r) == Enrolled(cfg, old(Now()), now, role, email, password, name, uid, accessId, refreshId)
    {
      var created := NewUser(uid, now, email, password, name);
      if created.Err? {
        return Err(created.error);
      }
      var user := created.value;
      user.AssignRole(role, now);
      FirstRole(User(uid, email, password, name, [], now), role, now);
      userRepo.Save(user);
      var output := GenerateAuthOutput(now, user, accessId, refreshId);
      return Ok(output);
    }

    method Login(now: Time, valid: bool, email: string, password: string, accessId: Uuid, refreshId: Uuid)
      returns (r: Result<AuthOutput, Error>)
      requires Valid() && Sound()
      modifies cache, tokenService
      ensures (Now(), r) == Identity.Login(cfg, old(Now()), now, valid, email, password, accessId, refreshId)
    {
      if !valid {
        return Err(InvalidInput);
      }
      var user := userRepo.FindByEmail(email);
      if user.None? {
        return Err(InvalidCredentials);
      }
      if user.value.password != password {
        return Err(InvalidCredentials);
      }
      var output := GenerateAuthOutput(now, user.value, accessId, refreshId);
      return Ok(output);
    }

    method Logout(now: Time, userId: Uuid, accessToken: Presented) returns (r: Result<(), Error>)
      requires Valid()
      modifies cache
      ensures (Now(), r) == Identity.Logout(cfg, old(Now()), now, userId, accessToken)
    {
      var tokenId := tokenService.ExtractTokenID(accessToken);
      if tokenId.Err? {
        return Err(tokenId.error);
      }
      var claims := tokenService.ValidateToken(now, accessToken);
      if claims.Ok? {
        var remainingTtl := claims.value.expiresAt - now;
        if remainingTtl > 0 {
          SetEntry(cache, now, BlacklistKey(tokenId.value), RevokedEntry, remainingTtl);
        }
      }
      var sessionKey := SessionKey(userId, tokenId.value);
      var session := GetEntry(cache, now, sessionKey);
      if session.Some? && session.value.SessionEntry? {
        SetEntry(cache, now, BlacklistKey(session.value.refreshId), RevokedEntry, tokenService.refreshTtl);
        DeleteEntry(cache, SessionKey(userId, session.value.refreshId));
      }
      DeleteEntry(cache, sessionKey);
      return Ok(());
    }

    method RefreshToken(now: Time, refreshToken: Presented, accessId: Uuid, refreshId: Uuid) returns (r: Result<AuthOutput, Error>)
      requires Valid()
      modifies cache, tokenService
      ensures (Now(), r) == RefreshTokens(cfg, old(Now()), now, refreshToken, accessId, refreshId)
    {
      var userId := tokenService.ValidateRefreshToken(now, refreshToken);
      if userId.Err? {
        return Err(InvalidToken);
      }
      var tokenId := tokenService.ExtractTokenID(refreshToken);
      if tokenId.Ok? {
        var revoked := HasEntry(cache, now, BlacklistKey(tokenId.value));
        if revoked {
          return Err(InvalidToken);
        }
        var hasSession := HasEntry(cache, now, SessionKey(userId.value, tokenId.value));
        if !hasSession {
          return Err(InvalidToken);
        }
      }
      var user := userRepo.FindByID(userId.value);
      if user.None? {
        return Err(UserNotFound);
      }
      var output := GenerateAuthOutput(now, user.value, accessId, refreshId);
      return Ok(output);
    }

    /** Collect the claims in two nested loops, sign the pair, and store one session under each token ID. */
    method GenerateAuthOutput(now: Time, user: UserEntity, accessId: Uuid, refreshId: Uuid) returns (output: AuthOutput)
      requires Valid()
      modifies cache, tokenService
      ensures Now() == Issue(cfg, old(Now()), now, user.Value(), accessId, refreshId)
      ensures output == Issued(cfg, now, user.Value(), accessId, refreshId)
    {
      var roles, roleIds, permissions := CollectClaims(user.roles);
      var access, refresh, expiresAt :=
        tokenService.GenerateTokenPair(now, user.id, user.email, roles, roleIds, permissions, accessId, refreshId);
      output := AuthOutput(access, refresh, expiresAt, UserOutput(user.id, user.email, user.name, user.roles, user.updatedAt));
      var session := SessionEntry(user.id, access.jti, refresh.jti);
      SetEntry(cache, now, SessionKey(user.id, access.jti), session, tokenService.refreshTtl);
      SetEntry(cache, now, SessionKey(user.id, refresh.jti), session, tokenService.refreshTtl);
    }

    method ChangePassword(now: Time, valid: bool, userId: Uuid, oldPassword: string, newPassword: string)
      returns (r: Result<(), Error>)
      requires Sound()
      modifies userRepo, cache
      ensures (Now(), r) == Identity.ChangePassword(old(Now()), now, valid, userId, oldPassword, newPassword)
    {
      if !valid {
        return Err(InvalidInput);
      }
      var user := userRepo.FindByID(userId);
      if user.None? {
        return Err(UserNotFound);
      }
      if user.value.password != oldPassword {
        return Err(InvalidCredentials);
      }
      var updated := user.value.UpdatePassword(newPassword, now);
      if updated.Err? {
        return updated;
      }
      userRepo.Update(user.value, now);
      InvalidateAllUserSessions(userId);
      return Ok(());
    }

    method ValidateToken(now: Time, token: Presented) returns (r: Result<Token, Error>)
      ensures r == Identity.ValidateToken(Now(), now, token)
    {
      var claims := tokenService.ValidateToken(now, token);
      if claims.Err? {
        return claims;
      }
      var revoked := HasEntry(cache, now, BlacklistKey(claims.value.jti));
      if revoked {
        return Err(InvalidToken);
      }
      var hasSession := HasEntry(cache, now, SessionKey(ClaimedUser(claims.value), claims.value.jti));
      if !hasSession {
        return Err(InvalidToken);
      }
      return claims;
    }

    method InvalidateAllUserSessions(userId: Uuid)
      modifies cache
      ensures EntriesOf(cache.store) == SessionsDropped(old(EntriesOf(cache.store)), userId)
    {
      DeleteUserSessions(cache, userId);
    }
  }

  lemma FirstRole(user: User, role: Role, now: Time)
    requires user.roles == [] && user.updatedAt == now
    ensures WithRole(user, role, now) == user.(roles := [role])
  {
  }

  method CollectClaims(userRoles: seq<Role>) returns (roles: seq<string>, roleIds: seq<Uuid>, permissions: seq<string>)
    ensures roles == RoleNames(userRoles) && roleIds == RoleIds(userRoles) && permissions == RolePermissions(userRoles)
  {
    roles, roleIds, permissions := [], [], [];
    for i := 0 to |userRoles|
      invariant roles == RoleNames(userRoles[..i])
      invariant roleIds == RoleIds(userRoles[..i])
      invariant permissions == RolePermissions(userRoles[..i])
    {
      var role := userRoles[i];
      assert userRoles[..i + 1][..i] == userRoles[..i];
      roles := roles + [role.name];
      roleIds := roleIds + [role.id];
      ghost var before := permissions;
      for k := 0 to |role.permissions|
        invariant permissions == before + PermissionTexts(role.permissions[..k])
      {
        assert role.permissions[..k + 1][..k] == role.permissions[..k];
        permissions := permissions + [role.permissions[k].resource + ":" + role.permissions[k].action];
      }
      assert role.permissions[..|role.permissions|] == role.permissions;
    }
    assert userRoles[..|userRoles|] == userRoles;
  }
}
