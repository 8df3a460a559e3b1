/**
  What the blacklist and the session entries are for: a token is accepted exactly while it is
  unexpired and has not been revoked. Revocation is recorded in a ledger that never looks at the
  cache; the cache-backed checks are proved to agree with it in every run.
 */
module Sessions {
  import opened Prelude
  import opened CacheKeys
  import opened MemoryCache
  import opened EntryCache
  import opened ListKeys
  import opened Identity

  /** Token IDs revoked so far, and for each access token the ID of the refresh token issued with it. */
  datatype Ledger = Ledger(revoked: set<Uuid>, mate: map<Uuid, Uuid>)

  const EMPTY_LEDGER := Ledger({}, map[])

  function TokensOf(signed: map<Uuid, Token>, userId: Uuid): set<Uuid> {
    set j | j in signed && signed[j].userId == userId
  }

  /**
    Logging out with a token revokes that token, if it still verifies or the caller owns it, and the
    refresh token issued with it, if the caller owns that.
   */
  function LoggedOut(signed: map<Uuid, Token>, ledger: Ledger, now: Time, userId: Uuid, p: Presented): set<Uuid> {
    if p.Malformed? then {}
    else set j | j in signed
              && (|| (j == p.token.jti && (Verify(signed, now, p).Ok? || signed[j].userId == userId))
                  || (signed[j].userId == userId && p.token.jti in ledger.mate && ledger.mate[p.token.jti] == j))
  }

  /** The tokens a step revokes, told from tables, tokens and the step itself. */
  ghost function RevokedBy(s: State, ledger: Ledger, now: Time, step: Step): set<Uuid> {
    match step
    case LogoutStep(userId, p) => LoggedOut(s.signed, ledger, now, userId, p)
    case ChangePasswordStep(valid, userId, old_, new_) =>
      if ChangePassword(s, now, valid, userId, old_, new_).1.Ok? then TokensOf(s.signed, userId) else {}
    case AssignRoleStep(userId, roleId) => if AssignRole(s, now, userId, roleId).1.Ok? then TokensOf(s.signed, userId) else {}
    case RemoveRoleStep(userId, roleId) => if RemoveRole(s, now, userId, roleId).1.Ok? then TokensOf(s.signed, userId) else {}
    case RegisterStep(_, _, _, _, _, _, _) => {}
    case LoginStep(_, _, _, _, _) => {}
    case RefreshStep(_, _, _) => {}
    case CreateUserStep(_, _, _, _, _) => {}
    case UpdateUserStep(_, _, _, _) => {}
    case DeleteUserStep(_) => {}
    case GetUserStep(_) => {}
    case GetUserByEmailStep(_) => {}
    case ListUsersStep(_, _, _) => {}
    case SweepStep => {}
  }

  ghost function Recorded(cfg: Config, s: State, ledger: Ledger, now: Time, step: Step): Ledger {
    var mate :=
      if (step.RegisterStep? || step.LoginStep? || step.RefreshStep?) && Exec(cfg, s, now, step).signed != s.signed
      then ledger.mate[step.accessId := step.refreshId] else ledger.mate;
    Ledger(ledger.revoked + RevokedBy(s, ledger, now, step), mate)
  }

  ghost function LedgerOf(cfg: Config, start: State, trace: seq<Timed>): Ledger
    decreases |trace|
  {
    if trace == [] then EMPTY_LEDGER
    else
      var init, last := trace[..|trace| - 1], trace[|trace| - 1];
      Recorded(cfg, Run(cfg, start, init), LedgerOf(cfg, start, init), last.at, last.step)
  }

  // ---- The run invariant ----

  function Ttl(cfg: Config, t: Token): Time {
    if t.Access? then cfg.accessTtl else cfg.refreshTtl
  }

  /** Past the life of the session entries written when the token was issued. */
  predicate Lapsed(cfg: Config, t: Token, now: Time) {
    cfg.refreshTtl > 0 && now > t.issuedAt + cfg.refreshTtl
  }

  function SessionOf(t: Token): Key {
    SessionKey(t.userId, t.jti)
  }

  /** A signed token is as the service makes it; an access token has the refresh token of its pair. */
  predicate Genuine(cfg: Config, signed: map<Uuid, Token>, ledger: Ledger, j: Uuid, now: Time)
    requires j in signed
  {
    var t := signed[j];
    && t.jti == j && t.issuedAt <= now && t.userId != NIL_UUID && t.expiresAt == Trunc(t.issuedAt + Ttl(cfg, t))
    && (t.Access? <==> j in ledger.mate)
    && (t.Access? ==> ledger.mate[j] in signed && signed[ledger.mate[j]] == RefreshFor(cfg, t.issuedAt, t.userId, ledger.mate[j]))
  }

  /** The session entry of a token lasts its full life and names the refresh token of the pair. */
  ghost predicate SessionSound(cfg: Config, c: Entries<Entry>, t: Token, refreshId: Uuid) {
    SessionOf(t) in c ==>
      && c[SessionOf(t)].value.SessionEntry?
      && c[SessionOf(t)].value.refreshId == refreshId
      && c[SessionOf(t)].expiration == ExpiryAfter(t.issuedAt, cfg.refreshTtl)
  }

  /** A token not revoked: nothing blacklists it, and its session entry is there until it lapses. */
  ghost predicate Standing(cfg: Config, c: Entries<Entry>, t: Token, now: Time) {
    BlacklistKey(t.jti) !in c && (SessionOf(t) in c || Lapsed(cfg, t, now))
  }

  /** A revoked token: its session entry is gone, or a blacklist entry outlives it. */
  ghost predicate Fallen(c: Entries<Entry>, t: Token) {
    || SessionOf(t) !in c
    || (BlacklistKey(t.jti) in c &&
        (c[BlacklistKey(t.jti)].expiration.None? || c[BlacklistKey(t.jti)].expiration.value >= t.expiresAt))
  }

  predicate Over(signed: map<Uuid, Token>, ledger: Ledger, j: Uuid, now: Time)
    requires j in signed
  {
    j in ledger.revoked || now >= signed[j].expiresAt
  }

  /** The cache agrees with the ledger on a token; once an access token's entry is gone, its refresh token is over. */
  ghost predicate TokenSound(cfg: Config, signed: map<Uuid, Token>, c: Entries<Entry>, ledger: Ledger, j: Uuid, now: Time)
    requires j in signed
  {
    var t := signed[j];
    && Genuine(cfg, signed, ledger, j, now)
    && SessionSound(cfg, c, t, if t.Access? then ledger.mate[j] else j)
    && (j !in ledger.revoked ==> Standing(cfg, c, t, now))
    && (j in ledger.revoked && now < t.expiresAt ==> Fallen(c, t))
    && (t.Access? && SessionOf(t) !in c ==> Over(signed, ledger, ledger.mate[j], now))
  }

  /** No session, blacklist or ledger entry is about anything but signed tokens. */
  ghost predicate NoStrays(signed: map<Uuid, Token>, c: Entries<Entry>, ledger: Ledger) {
    && (forall u, j | SessionKey(u, j) in c :: j in signed && signed[j].userId == u)
    && (forall j | BlacklistKey(j) in c :: j in signed)
    && (forall j | j in ledger.revoked :: j in signed)
    && (forall j | j in ledger.mate :: j in signed)
  }

  ghost predicate CacheInv(cfg: Config, signed: map<Uuid, Token>, c: Entries<Entry>, ledger: Ledger, now: Time) {
    && NoStrays(signed, c, ledger)
    && (forall j | j in signed :: TokenSound(cfg, signed, c, ledger, j, now))
  }

  ghost predicate SessionsInv(cfg: Config, s: State, ledger: Ledger, now: Time) {
    CacheInv(cfg, s.signed, s.cache, ledger, now)
  }

  // ---- What each kind of change keeps ----

  lemma TimePasses(cfg: Config, signed: map<Uuid, Token>, c: Entries<Entry>, ledger: Ledger, now: Time, later: Time)
    requires CacheInv(cfg, signed, c, ledger, now) && now <= later
    ensures CacheInv(cfg, signed, c, ledger, later)
  {
    forall j | j in signed ensures TokenSound(cfg, signed, c, ledger, j, later) {
      assert TokenSound(cfg, signed, c, ledger, j, now);
    }
  }

  /** Same session and blacklist entries. */
  ghost predicate SameSessions(c: Entries<Entry>, c': Entries<Entry>) {
    forall k: Key | k.SessionKey? || k.BlacklistKey? :: (k in c' <==> k in c) && (k in c ==> c'[k] == c[k])
  }

  lemma FrameKeeps(cfg: Config, signed: map<Uuid, Token>, c: Entries<Entry>, c': Entries<Entry>, ledger: Ledger, now: Time)
    requires CacheInv(cfg, signed, c, ledger, now) && SameSessions(c, c')
    ensures CacheInv(cfg, signed, c', ledger, now)
  {
    forall j | j in signed ensures TokenSound(cfg, signed, c', ledger, j, now) {
      assert TokenSound(cfg, signed, c, ledger, j, now);
    }
  }

  lemma SweepKeeps(cfg: Config, signed: map<Uuid, Token>, c: Entries<Entry>, ledger: Ledger, now: Time)
    requires CacheInv(cfg, signed, c, ledger, now)
    ensures CacheInv(cfg, signed, Swept(c, now), ledger, now)
  {
    forall j | j in signed ensures TokenSound(cfg, signed, Swept(c, now), ledger, j, now) {
      assert TokenSound(cfg, signed, c, ledger, j, now);
    }
  }

  /** Dropping a user's sessions revokes all of that user's tokens. */
  lemma DropKeeps(cfg: Config, signed: map<Uuid, Token>, c: Entries<Entry>, ledger: Ledger, now: Time, u: Uuid)
    requires CacheInv(cfg, signed, c, ledger, now)
    ensures CacheInv(cfg, signed, SessionsDropped(c, u), ledger.(revoked := ledger.revoked + TokensOf(signed, u)), now)
  {
    var ledger' := ledger.(revoked := ledger.revoked + TokensOf(signed, u));
    forall j | j in signed ensures TokenSound(cfg, signed, SessionsDropped(c, u), ledger', j, now) {
      assert TokenSound(cfg, signed, c, ledger, j, now);
    }
  }

  /** Issuing a pair under fresh IDs. */
  lemma IssueKeeps(cfg: Config, s: State, ledger: Ledger, now: Time, user: User, a: Uuid, r: Uuid)
    requires SessionsInv(cfg, s, ledger, now) && user.id != NIL_UUID && a != r && a !in s.signed && r !in s.signed
    ensures SessionsInv(cfg, Issue(cfg, s, now, user, a, r), ledger.(mate := ledger.mate[a := r]), now)
  {
    var s' := Issue(cfg, s, now, user, a, r);
    var ledger' := ledger.(mate := ledger.mate[a := r]);
    IssueNoStrays(cfg, s, ledger, now, user, a, r);
    forall j | j in s'.signed ensures TokenSound(cfg, s'.signed, s'.cache, ledger', j, now) {
      if j in s.signed {
        assert TokenSound(cfg, s.signed, s.cache, ledger, j, now);
        IssueOldToken(cfg, s, ledger, now, user, a, r, j);
      } else {
        IssueNewToken(cfg, s, ledger, now, user, a, r, j);
      }
    }
  }

  lemma IssueNoStrays(cfg: Config, s: State, ledger: Ledger, now: Time, user: User, a: Uuid, r: Uuid)
    requires NoStrays(s.signed, s.cache, ledger) && a != r && a !in s.signed && r !in s.signed
    ensures var s' := Issue(cfg, s, now, user, a, r); NoStrays(s'.signed, s'.cache, ledger.(mate := ledger.mate[a := r]))
  {
    var s' := Issue(cfg, s, now, user, a, r);
    forall u, j | SessionKey(u, j) in s'.cache ensures j in s'.signed && s'.signed[j].userId == u {
      assert SessionKey(u, j) in s.cache || (u == user.id && (j == a || j == r));
    }
    forall j | BlacklistKey(j) in s'.cache ensures j in s'.signed {
      assert BlacklistKey(j) in s.cache;
    }
  }

  /** What is known of a token depends on the token, its mate and their own entries only. */
  lemma TokenFrame(cfg: Config, signed: map<Uuid, Token>, c: Entries<Entry>, ledger: Ledger,
                   signed': map<Uuid, Token>, c': Entries<Entry>, ledger': Ledger, j: Uuid, now: Time)
    requires j in signed && TokenSound(cfg, signed, c, ledger, j, now)
    requires j in signed' && signed'[j] == signed[j] && ledger'.revoked == ledger.revoked
    requires j in ledger'.mate <==> j in ledger.mate
    requires j in ledger.mate ==> ledger'.mate[j] == ledger.mate[j]
    requires j in ledger.mate && ledger.mate[j] in signed ==> ledger.mate[j] in signed' && signed'[ledger.mate[j]] == signed[ledger.mate[j]]
    requires forall k: Key | k == SessionOf(signed[j]) || k == BlacklistKey(j) :: (k in c' <==> k in c) && (k in c ==> c'[k] == c[k])
    ensures TokenSound(cfg, signed', c', ledger', j, now)
  {
  }

  lemma IssueOldToken(cfg: Config, s: State, ledger: Ledger, now: Time, user: User, a: Uuid, r: Uuid, j: Uuid)
    requires a !in s.signed && r !in s.signed && j in s.signed && TokenSound(cfg, s.signed, s.cache, ledger, j, now)
    ensures var s' := Issue(cfg, s, now, user, a, r);
            TokenSound(cfg, s'.signed, s'.cache, ledger.(mate := ledger.mate[a := r]), j, now)
  {
    var s' := Issue(cfg, s, now, user, a, r);
    IssueLeavesOthers(cfg, s, now, user, a, r, j);
    if j in ledger.mate {
      IssueLeavesOthers(cfg, s, now, user, a, r, ledger.mate[j]);
    }
    TokenFrame(cfg, s.signed, s.cache, ledger, s'.signed, s'.cache, ledger.(mate := ledger.mate[a := r]), j, now);
  }

  lemma IssueLeavesOthers(cfg: Config, s: State, now: Time, user: User, a: Uuid, r: Uuid, j: Uuid)
    requires j in s.signed && a != j && r != j
    ensures var s' := Issue(cfg, s, now, user, a, r);
            && j in s'.signed && s'.signed[j] == s.signed[j]
            && forall k: Key | k == BlacklistKey(j) || (k.SessionKey? && k.tokenId == j) ::
                 (k in s'.cache <==> k in s.cache) && (k in s.cache ==> s'.cache[k] == s.cache[k])
  {
  }

  lemma IssueNewToken(cfg: Config, s: State, ledger: Ledger, now: Time, user: User, a: Uuid, r: Uuid, j: Uuid)
    requires SessionsInv(cfg, s, ledger, now) && user.id != NIL_UUID && a != r && a !in s.signed && r !in s.signed
    requires j == a || j == r
    ensures var s' := Issue(cfg, s, now, user, a, r);
            TokenSound(cfg, s'.signed, s'.cache, ledger.(mate := ledger.mate[a := r]), j, now)
  {
    var s', ledger' := Issue(cfg, s, now, user, a, r), ledger.(mate := ledger.mate[a := r]);
    assert j !in ledger.revoked && BlacklistKey(j) !in s.cache && r !in ledger.mate;
    IssuedEntries(cfg, s, now, user, a, r, j);
    if j == a {
      NewAccessSound(cfg, s'.signed, s'.cache, ledger', now, user, a, r);
    } else {
      NewRefreshSound(cfg, s'.signed, s'.cache, ledger', now, user, r);
    }
  }

  /** What issuing leaves under a new token's keys. */
  lemma IssuedEntries(cfg: Config, s: State, now: Time, user: User, a: Uuid, r: Uuid, j: Uuid)
    requires a != r && (j == a || j == r) && BlacklistKey(j) !in s.cache
    ensures var s' := Issue(cfg, s, now, user, a, r);
            && a in s'.signed && s'.signed[a] == AccessFor(cfg, now, user, a)
            && r in s'.signed && s'.signed[r] == RefreshFor(cfg, now, user.id, r)
            && BlacklistKey(j) !in s'.cache && SessionKey(user.id, j) in s'.cache
            && s'.cache[SessionKey(user.id, j)] == Item(SessionEntry(user.id, a, r), ExpiryAfter(now, cfg.refreshTtl))
  {
  }

  lemma NewAccessSound(cfg: Config, signed: map<Uuid, Token>, c: Entries<Entry>, ledger: Ledger, now: Time, user: User, a: Uuid, r: Uuid)
    requires user.id != NIL_UUID && a !in ledger.revoked && a in ledger.mate && ledger.mate[a] == r
    requires a in signed && signed[a] == AccessFor(cfg, now, user, a) && r in signed && signed[r] == RefreshFor(cfg, now, user.id, r)
    requires BlacklistKey(a) !in c && SessionKey(user.id, a) in c
    requires c[SessionKey(user.id, a)] == Item(SessionEntry(user.id, a, r), ExpiryAfter(now, cfg.refreshTtl))
    ensures TokenSound(cfg, signed, c, ledger, a, now)
  {
  }

  lemma NewRefreshSound(cfg: Config, signed: map<Uuid, Token>, c: Entries<Entry>, ledger: Ledger, now: Time, user: User, r: Uuid)
    requires user.id != NIL_UUID && r !in ledger.revoked && r !in ledger.mate
    requires r in signed && signed[r] == RefreshFor(cfg, now, user.id, r) && BlacklistKey(r) !in c && SessionKey(user.id, r) in c
    requires c[SessionKey(user.id, r)].value.SessionEntry? && c[SessionKey(user.id, r)].value.refreshId == r
    requires c[SessionKey(user.id, r)].expiration == ExpiryAfter(now, cfg.refreshTtl)
    ensures TokenSound(cfg, signed, c, ledger, r, now)
  {
  }

  // ---- Logout ----

  /** Blacklisting a signed token until its expiry or beyond revokes it. */
  lemma BlacklistKeeps(cfg: Config, signed: map<Uuid, Token>, c: Entries<Entry>, ledger: Ledger, now: Time, j: Uuid, ttl: Time)
    requires CacheInv(cfg, signed, c, ledger, now) && j in signed
    requires ttl > 0 ==> now + ttl >= signed[j].expiresAt
    ensures CacheInv(cfg, signed, Stored(c, now, BlacklistKey(j), RevokedEntry, ttl), ledger.(revoked := ledger.revoked + {j}), now)
  {
    var c', ledger' := Stored(c, now, BlacklistKey(j), RevokedEntry, ttl), ledger.(revoked := ledger.revoked + {j});
    forall i | i in signed ensures TokenSound(cfg, signed, c', ledger', i, now) {
      assert TokenSound(cfg, signed, c, ledger, i, now);
    }
  }

  /** A token's session entry may go, and the token with it, once its refresh token is over. */
  lemma RemoveKeeps(cfg: Config, signed: map<Uuid, Token>, c: Entries<Entry>, ledger: Ledger, now: Time, j: Uuid)
    requires CacheInv(cfg, signed, c, ledger, now) && j in signed
    requires signed[j].Access? ==> j in ledger.mate && ledger.mate[j] in signed && Over(signed, ledger, ledger.mate[j], now)
    ensures CacheInv(cfg, signed, Removed(c, SessionOf(signed[j])), ledger.(revoked := ledger.revoked + {j}), now)
  {
    var c', ledger' := Removed(c, SessionOf(signed[j])), ledger.(revoked := ledger.revoked + {j});
    forall i | i in signed ensures TokenSound(cfg, signed, c', ledger', i, now) {
      if i == j {
        RemoveOwn(cfg, signed, c, ledger, now, j);
      } else {
        RemoveOther(cfg, signed, c, ledger, now, j, i);
      }
    }
  }

  lemma RemoveOwn(cfg: Config, signed: map<Uuid, Token>, c: Entries<Entry>, ledger: Ledger, now: Time, j: Uuid)
    requires CacheInv(cfg, signed, c, ledger, now) && j in signed
    requires signed[j].Access? ==> j in ledger.mate && ledger.mate[j] in signed && Over(signed, ledger, ledger.mate[j], now)
    ensures TokenSound(cfg, signed, Removed(c, SessionOf(signed[j])), ledger.(revoked := ledger.revoked + {j}), j, now)
  {
    assert TokenSound(cfg, signed, c, ledger, j, now);
  }

  lemma RemoveOther(cfg: Config, signed: map<Uuid, Token>, c: Entries<Entry>, ledger: Ledger, now: Time, j: Uuid, i: Uuid)
    requires CacheInv(cfg, signed, c, ledger, now) && j in signed && i in signed && i != j
    ensures TokenSound(cfg, signed, Removed(c, SessionOf(signed[j])), ledger.(revoked := ledger.revoked + {j}), i, now)
  {
    assert TokenSound(cfg, signed, c, ledger, j, now);
    assert TokenSound(cfg, signed, c, ledger, i, now);
    var c' := Removed(c, SessionOf(signed[j]));
    assert SessionOf(signed[i]) != SessionOf(signed[j]);
    TokenFrame(cfg, signed, c, ledger, signed, c', ledger, i, now);
    RevokeOther(cfg, signed, c', ledger, now, j, i);
  }

  lemma RevokeOther(cfg: Config, signed: map<Uuid, Token>, c: Entries<Entry>, ledger: Ledger, now: Time, j: Uuid, i: Uuid)
    requires i in signed && i != j && TokenSound(cfg, signed, c, ledger, i, now)
    ensures TokenSound(cfg, signed, c, ledger.(revoked := ledger.revoked + {j}), i, now)
  {
  }

  /** Tokens that are over may be recorded as revoked as well. */
  lemma RecordKeeps(cfg: Config, signed: map<Uuid, Token>, c: Entries<Entry>, ledger: Ledger, now: Time, gone: set<Uuid>)
    requires CacheInv(cfg, signed, c, ledger, now)
    requires forall i | i in gone :: i in signed && Over(signed, ledger, i, now)
    ensures CacheInv(cfg, signed, c, ledger.(revoked := ledger.revoked + gone), now)
  {
    var ledger' := ledger.(revoked := ledger.revoked + gone);
    forall i | i in signed ensures TokenSound(cfg, signed, c, ledger', i, now) {
      assert TokenSound(cfg, signed, c, ledger, i, now);
    }
  }

  /** The tokens that go when the session of a token ID ends. */
  function EndedTokens(signed: map<Uuid, Token>, ledger: Ledger, u: Uuid, j: Uuid): set<Uuid> {
    set i | i in signed && signed[i].userId == u && (i == j || (j in ledger.mate && ledger.mate[j] == i))
  }

  /** The entry found under a live session names a signed refresh token of the same user, which outlives neither. */
  lemma LiveSessionRefresh(cfg: Config, signed: map<Uuid, Token>, c: Entries<Entry>, ledger: Ledger, now: Time, u: Uuid, j: Uuid)
    requires CacheInv(cfg, signed, c, ledger, now) && Live(c, now, SessionKey(u, j))
    ensures j in signed && signed[j].userId == u && c[SessionKey(u, j)].value.SessionEntry?
    ensures var r := c[SessionKey(u, j)].value.refreshId;
            && r in signed && signed[r].userId == u && signed[r].Refresh?
            && now + cfg.refreshTtl >= signed[r].expiresAt
            && (if signed[j].Access? then j in ledger.mate && ledger.mate[j] == r else r == j && j !in ledger.mate)
  {
    assert TokenSound(cfg, signed, c, ledger, j, now);
    var r := c[SessionKey(u, j)].value.refreshId;
    assert TokenSound(cfg, signed, c, ledger, r, now);
  }

  lemma SessionEndedLive(cfg: Config, c: Entries<Entry>, now: Time, u: Uuid, j: Uuid)
    requires Live(c, now, SessionKey(u, j)) && c[SessionKey(u, j)].value.SessionEntry?
    ensures var r := c[SessionKey(u, j)].value.refreshId;
            SessionEnded(cfg, c, now, u, j)
            == Removed(Removed(Stored(c, now, BlacklistKey(r), RevokedEntry, cfg.refreshTtl), SessionKey(u, r)), SessionKey(u, j))
  {
  }

  lemma EndedTokensPair(signed: map<Uuid, Token>, ledger: Ledger, u: Uuid, j: Uuid, r: Uuid)
    requires j in signed && r in signed && signed[j].userId == u && signed[r].userId == u
    requires if j in ledger.mate then ledger.mate[j] == r else r == j
    ensures EndedTokens(signed, ledger, u, j) == {j, r}
  {
  }

  /** A live session entry is found: its refresh token is blacklisted, both session entries go. */
  lemma EndLiveSession(cfg: Config, signed: map<Uuid, Token>, c: Entries<Entry>, ledger: Ledger, now: Time, u: Uuid, j: Uuid)
    requires CacheInv(cfg, signed, c, ledger, now) && Live(c, now, SessionKey(u, j))
    ensures CacheInv(cfg, signed, SessionEnded(cfg, c, now, u, j), ledger.(revoked := ledger.revoked + EndedTokens(signed, ledger, u, j)), now)
  {
    LiveSessionRefresh(cfg, signed, c, ledger, now, u, j);
    assert TokenSound(cfg, signed, c, ledger, j, now);
    var r := c[SessionKey(u, j)].value.refreshId;
    SessionEndedLive(cfg, c, now, u, j);
    EndedTokensPair(signed, ledger, u, j, r);
    EndPair(cfg, signed, c, ledger, now, j, r);
  }

  lemma EndPair(cfg: Config, signed: map<Uuid, Token>, c: Entries<Entry>, ledger: Ledger, now: Time, j: Uuid, r: Uuid)
    requires CacheInv(cfg, signed, c, ledger, now) && j in signed && r in signed && signed[r].Refresh?
    requires now + cfg.refreshTtl >= signed[r].expiresAt
    requires signed[j].Access? ==> j in ledger.mate && ledger.mate[j] == r
    ensures CacheInv(cfg, signed,
              Removed(Removed(Stored(c, now, BlacklistKey(r), RevokedEntry, cfg.refreshTtl), SessionOf(signed[r])), SessionOf(signed[j])),
              ledger.(revoked := ledger.revoked + {j, r}), now)
  {
    BlacklistKeeps(cfg, signed, c, ledger, now, r, cfg.refreshTtl);
    EndBoth(cfg, signed, Stored(c, now, BlacklistKey(r), RevokedEntry, cfg.refreshTtl), ledger.(revoked := ledger.revoked + {r}), now, j, r);
    assert ledger.revoked + {r} + {r} + {j} == ledger.revoked + {j, r};
  }

  lemma EndBoth(cfg: Config, signed: map<Uuid, Token>, c: Entries<Entry>, ledger: Ledger, now: Time, j: Uuid, r: Uuid)
    requires CacheInv(cfg, signed, c, ledger, now) && j in signed && r in signed && signed[r].Refresh?
    requires signed[j].Access? ==> j in ledger.mate && ledger.mate[j] == r
    ensures CacheInv(cfg, signed, Removed(Removed(c, SessionOf(signed[r])), SessionOf(signed[j])),
                     ledger.(revoked := ledger.revoked + {r} + {j}), now)
  {
    RemoveKeeps(cfg, signed, c, ledger, now, r);
    RemoveKeeps(cfg, signed, Removed(c, SessionOf(signed[r])), ledger.(revoked := ledger.revoked + {r}), now, j);
  }

  /** No live session entry is found: whatever the step revokes was over already. */
  lemma EndDeadSession(cfg: Config, signed: map<Uuid, Token>, c: Entries<Entry>, ledger: Ledger, now: Time, u: Uuid, j: Uuid)
    requires CacheInv(cfg, signed, c, ledger, now) && !Live(c, now, SessionKey(u, j))
    ensures CacheInv(cfg, signed, SessionEnded(cfg, c, now, u, j), ledger.(revoked := ledger.revoked + EndedTokens(signed, ledger, u, j)), now)
  {
    var ended := EndedTokens(signed, ledger, u, j);
    if j in signed && signed[j].userId == u {
      assert TokenSound(cfg, signed, c, ledger, j, now);
      RemoveKeeps(cfg, signed, c, ledger, now, j);
      var ledger1 := ledger.(revoked := ledger.revoked + {j});
      RecordKeeps(cfg, signed, Removed(c, SessionKey(u, j)), ledger1, now, ended);
      assert ledger1.revoked + ended == ledger.revoked + ended;
    } else {
      NothingEnded(cfg, signed, c, ledger, now, u, j);
      assert ledger.revoked + ended == ledger.revoked;
    }
  }

  lemma NothingEnded(cfg: Config, signed: map<Uuid, Token>, c: Entries<Entry>, ledger: Ledger, now: Time, u: Uuid, j: Uuid)
    requires CacheInv(cfg, signed, c, ledger, now) && !(j in signed && signed[j].userId == u)
    ensures EndedTokens(signed, ledger, u, j) == {} && Removed(c, SessionKey(u, j)) == c
  {
    if j in ledger.mate {
      assert TokenSound(cfg, signed, c, ledger, j, now);
    }
  }

  /** The ledger once a token that still verifies has been blacklisted. */
  function Struck(signed: map<Uuid, Token>, ledger: Ledger, now: Time, p: Presented): Ledger
    requires p.WellFormed?
  {
    if Verify(signed, now, p).Ok? then ledger.(revoked := ledger.revoked + {p.token.jti}) else ledger
  }

  lemma BlacklistedKeeps(cfg: Config, signed: map<Uuid, Token>, c: Entries<Entry>, ledger: Ledger, now: Time, p: Presented)
    requires CacheInv(cfg, signed, c, ledger, now) && p.WellFormed?
    ensures CacheInv(cfg, signed, Blacklisted(c, signed, now, p), Struck(signed, ledger, now, p), now)
  {
    if Verify(signed, now, p).Ok? {
      BlacklistKeeps(cfg, signed, c, ledger, now, p.token.jti, p.token.expiresAt - now);
    }
  }

  lemma EndKeeps(cfg: Config, signed: map<Uuid, Token>, c: Entries<Entry>, ledger: Ledger, now: Time, u: Uuid, j: Uuid)
    requires CacheInv(cfg, signed, c, ledger, now)
    ensures CacheInv(cfg, signed, SessionEnded(cfg, c, now, u, j), ledger.(revoked := ledger.revoked + EndedTokens(signed, ledger, u, j)), now)
  {
    if Live(c, now, SessionKey(u, j)) {
      EndLiveSession(cfg, signed, c, ledger, now, u, j);
    } else {
      EndDeadSession(cfg, signed, c, ledger, now, u, j);
    }
  }

  lemma LogoutKeeps(cfg: Config, s: State, ledger: Ledger, now: Time, u: Uuid, p: Presented)
    requires SessionsInv(cfg, s, ledger, now)
    ensures SessionsInv(cfg, Logout(cfg, s, now, u, p).0,
                        ledger.(revoked := ledger.revoked + LoggedOut(s.signed, ledger, now, u, p)), now)
  {
    if p.Malformed? {
      assert ledger.revoked + {} == ledger.revoked;
    } else {
      BlacklistedKeeps(cfg, s.signed, s.cache, ledger, now, p);
      EndKeeps(cfg, s.signed, Blacklisted(s.cache, s.signed, now, p), Struck(s.signed, ledger, now, p), now, u, p.token.jti);
      StruckThenEnded(s.signed, ledger, now, u, p);
    }
  }

  lemma StruckThenEnded(signed: map<Uuid, Token>, ledger: Ledger, now: Time, u: Uuid, p: Presented)
    requires p.WellFormed?
    ensures var struck := Struck(signed, ledger, now, p);
            struck.(revoked := struck.revoked + EndedTokens(signed, struck, u, p.token.jti))
            == ledger.(revoked := ledger.revoked + LoggedOut(signed, ledger, now, u, p))
  {
    var struck := Struck(signed, ledger, now, p);
    LoggedOutSplits(signed, ledger, now, u, p);
    assert struck.revoked + EndedTokens(signed, struck, u, p.token.jti) == ledger.revoked + LoggedOut(signed, ledger, now, u, p);
  }

  lemma LoggedOutSplits(signed: map<Uuid, Token>, ledger: Ledger, now: Time, u: Uuid, p: Presented)
    requires p.WellFormed?
    ensures LoggedOut(signed, ledger, now, u, p)
         == (if Verify(signed, now, p).Ok? then {p.token.jti} else {}) + EndedTokens(signed, ledger, u, p.token.jti)
  {
  }

  // ---- Every step keeps the invariant ----

  lemma UserCachesKeepSessions(c: Entries<Entry>, id: Uuid, oldEmail: string, newEmail: string)
    ensures SameSessions(c, UserCachesDropped(c, id, oldEmail, newEmail))
  {
  }

  lemma SameLedger(ledger: Ledger)
    ensures ledger.(revoked := ledger.revoked + {}) == ledger
  {
  }

  /** Steps that issue a pair when they succeed. */
  lemma IssuingStepKeeps(cfg: Config, s: State, ledger: Ledger, now: Time, step: Step)
    requires SessionsInv(cfg, s, ledger, now) && SoundTables(s.users, s.roles) && FreshIds(s, step)
    requires step.RegisterStep? || step.LoginStep? || step.RefreshStep?
    ensures SessionsInv(cfg, Exec(cfg, s, now, step), Recorded(cfg, s, ledger, now, step), now)
  {
    SameLedger(ledger);
    var a, r := step.accessId, step.refreshId;
    var s' := Exec(cfg, s, now, step);
    if s'.signed != s.signed {
      var user, base := IssuedFor(cfg, s, now, step);
      IssueKeeps(cfg, base, ledger, now, user, a, r);
    } else {
      NothingIssued(cfg, s, now, step);
    }
  }

  /** The user a successful step issues tokens for, and the state it issues them in. */
  lemma IssuedFor(cfg: Config, s: State, now: Time, step: Step) returns (user: User, base: State)
    requires SoundTables(s.users, s.roles) && FreshIds(s, step)
    requires step.RegisterStep? || step.LoginStep? || step.RefreshStep?
    requires Exec(cfg, s, now, step).signed != s.signed
    ensures user.id in base.users && base.users[user.id] == user && user.id != NIL_UUID
    ensures base.cache == s.cache && base.signed == s.signed
    ensures base.users == if step.RegisterStep? then s.users[user.id := user] else s.users
    ensures step.RegisterStep? ==> user.id == step.uid
    ensures Exec(cfg, s, now, step) == Issue(cfg, base, now, user, step.accessId, step.refreshId)
  {
    match step
    case RegisterStep(_, email, password, name, uid, _, _) =>
      user := User(uid, email, password, name, [RoleByName(s.roles, DEFAULT_ROLE).value], now);
      base := s.(users := s.users[uid := user]);
    case LoginStep(_, email, _, _, _) =>
      user, base := UserByEmail(s.users, email).value, s;
    case RefreshStep(p, _, _) =>
      user, base := s.users[p.token.userId], s;
  }

  lemma IssueAddsTokens(cfg: Config, s: State, now: Time, user: User, a: Uuid, r: Uuid)
    requires a !in s.signed
    ensures Issue(cfg, s, now, user, a, r).signed != s.signed
  {
    assert a in Issue(cfg, s, now, user, a, r).signed;
  }

  lemma NothingIssued(cfg: Config, s: State, now: Time, step: Step)
    requires FreshIds(s, step)
    requires step.RegisterStep? || step.LoginStep? || step.RefreshStep?
    requires Exec(cfg, s, now, step).signed == s.signed
    ensures Exec(cfg, s, now, step) == s
  {
    match step
    case RegisterStep(_, email, password, name, uid, a, r) =>
      var user := User(uid, email, password, name, [RoleByName(s.roles, DEFAULT_ROLE).GetOr(Role(uid, "", []))], now);
      IssueAddsTokens(cfg, s.(users := s.users[uid := user]), now, user, a, r);
    case LoginStep(_, email, _, a, r) =>
      if UserByEmail(s.users, email).Some? {
        IssueAddsTokens(cfg, s, now, UserByEmail(s.users, email).value, a, r);
      }
    case RefreshStep(p, a, r) =>
      if p.WellFormed? && p.token.userId in s.users {
        IssueAddsTokens(cfg, s, now, s.users[p.token.userId], a, r);
      }
  }

  lemma PasswordStepKeeps(cfg: Config, s: State, ledger: Ledger, now: Time, step: Step)
    requires SessionsInv(cfg, s, ledger, now) && step.ChangePasswordStep?
    ensures SessionsInv(cfg, Exec(cfg, s, now, step), Recorded(cfg, s, ledger, now, step), now)
  {
    SameLedger(ledger);
    DropKeeps(cfg, s.signed, s.cache, ledger, now, step.userId);
  }

  lemma RolesSavedKeeps(cfg: Config, s: State, ledger: Ledger, now: Time, user: User)
    requires SessionsInv(cfg, s, ledger, now)
    ensures SessionsInv(cfg, RolesSaved(s, now, user), ledger.(revoked := ledger.revoked + TokensOf(s.signed, user.id)), now)
  {
    var c := UserCachesDropped(s.cache, user.id, user.email, user.email);
    UserCachesKeepSessions(s.cache, user.id, user.email, user.email);
    FrameKeeps(cfg, s.signed, s.cache, c, ledger, now);
    DropKeeps(cfg, s.signed, c, ledger, now, user.id);
  }

  lemma AssignRoleStepKeeps(cfg: Config, s: State, ledger: Ledger, now: Time, step: Step)
    requires SessionsInv(cfg, s, ledger, now) && SoundTables(s.users, s.roles) && step.AssignRoleStep?
    ensures SessionsInv(cfg, Exec(cfg, s, now, step), Recorded(cfg, s, ledger, now, step), now)
  {
    SameLedger(ledger);
    if AssignRole(s, now, step.userId, step.roleId).1.Ok? {
      RolesSavedKeeps(cfg, s, ledger, now, WithRole(s.users[step.userId], s.roles[step.roleId], now));
    }
  }

  lemma RemoveRoleStepKeeps(cfg: Config, s: State, ledger: Ledger, now: Time, step: Step)
    requires SessionsInv(cfg, s, ledger, now) && SoundTables(s.users, s.roles) && step.RemoveRoleStep?
    ensures SessionsInv(cfg, Exec(cfg, s, now, step), Recorded(cfg, s, ledger, now, step), now)
  {
    SameLedger(ledger);
    if RemoveRole(s, now, step.userId, step.roleId).1.Ok? {
      RolesSavedKeeps(cfg, s, ledger, now, WithoutRole(s.users[step.userId], step.roleId, now));
    }
  }

  lemma PutKeepsSessions(c: Entries<Entry>, now: Time, k: Key, e: Entry, ttl: Time)
    requires k.UserKey? || k.EmailKey? || k.UserListKey?
    ensures SameSessions(c, Stored(c, now, k, e, ttl))
  {
  }

  /** Steps that touch neither tokens nor sessions. */
  lemma OtherStepKeeps(cfg: Config, s: State, ledger: Ledger, now: Time, step: Step)
    requires SessionsInv(cfg, s, ledger, now)
    requires step.CreateUserStep? || step.UpdateUserStep? || step.DeleteUserStep? || step.GetUserStep?
          || step.GetUserByEmailStep? || step.ListUsersStep?
    ensures SessionsInv(cfg, Exec(cfg, s, now, step), Recorded(cfg, s, ledger, now, step), now)
  {
    SameLedger(ledger);
    if step.GetUserStep? || step.GetUserByEmailStep? || step.ListUsersStep? {
      ReadStepSessions(cfg, s, now, step);
    } else {
      WriteStepSessions(cfg, s, now, step);
    }
    FrameKeeps(cfg, s.signed, s.cache, Exec(cfg, s, now, step).cache, ledger, now);
  }

  lemma ReadStepSessions(cfg: Config, s: State, now: Time, step: Step)
    requires step.GetUserStep? || step.GetUserByEmailStep? || step.ListUsersStep?
    ensures Exec(cfg, s, now, step).signed == s.signed && SameSessions(s.cache, Exec(cfg, s, now, step).cache)
  {
    var s' := Exec(cfg, s, now, step);
    if s'.cache != s.cache {
      match step
      case GetUserStep(id) => PutKeepsSessions(s.cache, now, UserKey(id), UserEntry(Output(s.users[id])), ENTITY_TTL);
      case GetUserByEmailStep(email) =>
        PutKeepsSessions(s.cache, now, EmailKey(email), UserEntry(Output(UserByEmail(s.users, email).value)), ENTITY_TTL);
      case ListUsersStep(_, f, p) =>
        PutKeepsSessions(s.cache, now, UserListKey(UserListText(f, p)), ListEntry(FindAll(cfg, s.users, f, p)), LIST_TTL);
    }
  }

  lemma UpdateStepSessions(cfg: Config, s: State, now: Time, step: Step)
    requires step.UpdateUserStep?
    ensures Exec(cfg, s, now, step).signed == s.signed && SameSessions(s.cache, Exec(cfg, s, now, step).cache)
  {
    var id, s' := step.id, Exec(cfg, s, now, step);
    if id in s.users && id in s'.users {
      UserCachesKeepSessions(s.cache, id, s.users[id].email, s'.users[id].email);
    }
  }

  lemma WriteStepSessions(cfg: Config, s: State, now: Time, step: Step)
    requires step.CreateUserStep? || step.UpdateUserStep? || step.DeleteUserStep?
    ensures Exec(cfg, s, now, step).signed == s.signed && SameSessions(s.cache, Exec(cfg, s, now, step).cache)
  {
    match step
    case CreateUserStep(_, email, _, _, uid) => UserCachesKeepSessions(s.cache, uid, "", email);
    case UpdateUserStep(_, _, _, _) => UpdateStepSessions(cfg, s, now, step);
    case DeleteUserStep(id) =>
      if id in s.users {
        UserCachesKeepSessions(s.cache, id, s.users[id].email, "");
      }
  }

  lemma StepKeepsSessions(cfg: Config, s: State, ledger: Ledger, now: Time, step: Step)
    requires SessionsInv(cfg, s, ledger, now) && SoundTables(s.users, s.roles) && FreshIds(s, step)
    ensures SessionsInv(cfg, Exec(cfg, s, now, step), Recorded(cfg, s, ledger, now, step), now)
  {
    if step.RegisterStep? || step.LoginStep? || step.RefreshStep? {
      IssuingStepKeeps(cfg, s, ledger, now, step);
    } else if step.ChangePasswordStep? {
      PasswordStepKeeps(cfg, s, ledger, now, step);
    } else if step.AssignRoleStep? {
      AssignRoleStepKeeps(cfg, s, ledger, now, step);
    } else if step.RemoveRoleStep? {
      RemoveRoleStepKeeps(cfg, s, ledger, now, step);
    } else if step.LogoutStep? {
      LogoutKeeps(cfg, s, ledger, now, step.userId, step.presented);
    } else if step.SweepStep? {
      SameLedger(ledger);
      SweepKeeps(cfg, s.signed, s.cache, ledger, now);
    } else {
      OtherStepKeeps(cfg, s, ledger, now, step);
    }
  }

  // ---- Claims stay current ----

  /** The claims of a token not revoked are those of its user's roles now, as long as the user is there. */
  ghost predicate ClaimsCurrent(s: State, ledger: Ledger) {
    forall j | j in s.signed && s.signed[j].Access? && j !in ledger.revoked && s.signed[j].userId in s.users ::
      var t, user := s.signed[j], s.users[s.signed[j].userId];
      t.roles == RoleNames(user.roles) && t.roleIds == RoleIds(user.roles) && t.permissions == RolePermissions(user.roles)
  }

  lemma StepKeepsClaims(cfg: Config, s: State, ledger: Ledger, now: Time, step: Step)
    requires SoundTables(s.users, s.roles) && FreshIds(s, step) && ClaimsCurrent(s, ledger)
    ensures ClaimsCurrent(Exec(cfg, s, now, step), Recorded(cfg, s, ledger, now, step))
  {
    var s' := Exec(cfg, s, now, step);
    if step.RegisterStep? || step.LoginStep? || step.RefreshStep? {
      if s'.signed != s.signed {
        var user, base := IssuedFor(cfg, s, now, step);
      } else {
        NothingIssued(cfg, s, now, step);
      }
    } else if step.ChangePasswordStep? || step.AssignRoleStep? || step.RemoveRoleStep? {
      EndingStepRoles(cfg, s, ledger, now, step);
    } else {
      OtherStepRoles(cfg, s, ledger, now, step);
    }
  }

  ghost predicate RolesAsBefore(s: State, s': State, u: Uuid) {
    u in s.users && u in s'.users && s'.users[u].roles == s.users[u].roles
  }

  /** A step that ends sessions changes at most the roles of the user whose tokens it revokes. */
  lemma EndingStepRoles(cfg: Config, s: State, ledger: Ledger, now: Time, step: Step)
    requires SoundTables(s.users, s.roles)
    requires step.ChangePasswordStep? || step.AssignRoleStep? || step.RemoveRoleStep?
    ensures var s' := Exec(cfg, s, now, step);
            && s'.signed == s.signed
            && (s' == s || RevokedBy(s, ledger, now, step) == TokensOf(s.signed, step.userId))
            && (forall u | u in s'.users && u != step.userId :: RolesAsBefore(s, s', u))
  {
  }

  lemma OtherStepRoles(cfg: Config, s: State, ledger: Ledger, now: Time, step: Step)
    requires SoundTables(s.users, s.roles)
    requires step.LogoutStep? || step.CreateUserStep? || step.UpdateUserStep? || step.DeleteUserStep? || step.GetUserStep?
          || step.GetUserByEmailStep? || step.ListUsersStep? || step.SweepStep?
    ensures var s' := Exec(cfg, s, now, step);
            && s'.signed == s.signed
            && (forall u | u in s'.users && !(step.CreateUserStep? && u == step.uid) :: RolesAsBefore(s, s', u))
  {
    if step.CreateUserStep? || step.UpdateUserStep? || step.DeleteUserStep? {
      WriteStepSessions(cfg, s, now, step);
      WriteStepRoles(cfg, s, now, step);
    } else {
      QuietUsers(cfg, s, now, step);
      if step.GetUserStep? || step.GetUserByEmailStep? || step.ListUsersStep? {
        ReadStepSessions(cfg, s, now, step);
      }
    }
  }

  lemma WriteStepRoles(cfg: Config, s: State, now: Time, step: Step)
    requires SoundTables(s.users, s.roles)
    requires step.CreateUserStep? || step.UpdateUserStep? || step.DeleteUserStep?
    ensures var s' := Exec(cfg, s, now, step);
            forall u | u in s'.users && !(step.CreateUserStep? && u == step.uid) :: RolesAsBefore(s, s', u)
  {
  }
}
