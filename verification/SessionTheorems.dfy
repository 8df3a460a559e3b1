/** What holds of sessions and tokens in every run of the service. */
module SessionTheorems {
  import opened Prelude
  import opened CacheKeys
  import opened MemoryCache
  import opened EntryCache
  import opened Identity
  import opened Sessions

  lemma {:induction false} RunKeeps(cfg: Config, start: State, trace: seq<Timed>, now: Time)
    requires Starting(start) && Proper(cfg, start, trace) && NotBefore(trace, now)
    ensures var s := Run(cfg, start, trace);
            && SoundTables(s.users, s.roles)
            && SessionsInv(cfg, s, LedgerOf(cfg, start, trace), now)
            && ClaimsCurrent(s, LedgerOf(cfg, start, trace))
    decreases |trace|
  {
    if trace != [] {
      var init, last := trace[..|trace| - 1], trace[|trace| - 1];
      RunKeeps(cfg, start, init, last.at);
      var s, ledger := Run(cfg, start, init), LedgerOf(cfg, start, init);
      ExecTables(cfg, s, last.at, last.step);
      StepKeepsSessions(cfg, s, ledger, last.at, last.step);
      StepKeepsClaims(cfg, s, ledger, last.at, last.step);
      var s', ledger' := Run(cfg, start, trace), LedgerOf(cfg, start, trace);
      TimePasses(cfg, s'.signed, s'.cache, ledger', last.at, now);
    }
  }

  /** The presented token is one the service signed. */
  predicate IsSigned(s: State, p: Presented) {
    p.WellFormed? && p.token.jti in s.signed && s.signed[p.token.jti] == p.token
  }

  // ---- Issued tokens ----

  lemma StepKeepsSigned(cfg: Config, s: State, now: Time, step: Step, j: Uuid)
    requires FreshIds(s, step) && j in s.signed
    ensures j in Exec(cfg, s, now, step).signed && Exec(cfg, s, now, step).signed[j] == s.signed[j]
  {
  }

  /** A signed token is never forgotten, and no later one gets its ID. */
  lemma {:induction false} SignedForGood(cfg: Config, start: State, trace: seq<Timed>, n: nat, j: Uuid)
    requires Proper(cfg, start, trace) && n <= |trace| && j in Run(cfg, start, trace[..n]).signed
    ensures j in Run(cfg, start, trace).signed && Run(cfg, start, trace).signed[j] == Run(cfg, start, trace[..n]).signed[j]
    decreases |trace|
  {
    if n < |trace| {
      var init, last := trace[..|trace| - 1], trace[|trace| - 1];
      assert init[..n] == trace[..n];
      SignedForGood(cfg, start, init, n, j);
      StepKeepsSigned(cfg, Run(cfg, start, init), last.at, last.step, j);
    } else {
      assert trace[..n] == trace;
    }
  }

  /** Whatever happens after a token was issued, it verifies until its own expiry and is reported expired from then on. */
  lemma IssuedVerifiesUntilExpiry(cfg: Config, start: State, trace: seq<Timed>, n: nat, now: Time, t: Token)
    requires Starting(start) && Proper(cfg, start, trace) && NotBefore(trace, now) && n <= |trace|
    requires IsSigned(Run(cfg, start, trace[..n]), WellFormed(t))
    ensures Verify(Run(cfg, start, trace).signed, now, WellFormed(t)) == if now < t.expiresAt then Ok(t) else Err(ExpiredToken)
  {
    SignedForGood(cfg, start, trace, n, t.jti);
    RunKeeps(cfg, start, trace, now);
    if now < t.expiresAt {
      CacheAgrees(cfg, Run(cfg, start, trace), LedgerOf(cfg, start, trace), now, t);
    }
  }

  /** The pair a step answers with, if it does. */
  ghost function PairFrom(cfg: Config, s: State, at: Time, step: Step): Option<AuthOutput> {
    var r := match step
      case RegisterStep(valid, email, password, name, uid, a, r) => Register(cfg, s, at, valid, email, password, name, uid, a, r).1
      case LoginStep(valid, email, password, a, r) => Login(cfg, s, at, valid, email, password, a, r).1
      case RefreshStep(p, a, r) => RefreshTokens(cfg, s, at, p, a, r).1
      case _ => Err(InvalidInput);
    if r.Ok? then Some(r.value) else None
  }

  /** The two tokens of a pair are signed from then on, and have different IDs, new to the run. */
  lemma PairIsNew(cfg: Config, start: State, trace: seq<Timed>, at: Time, step: Step, pair: AuthOutput)
    requires Proper(cfg, start, trace + [Timed(at, step)]) && PairFrom(cfg, Run(cfg, start, trace), at, step) == Some(pair)
    ensures var s' := Run(cfg, start, trace + [Timed(at, step)]);
            && IsSigned(s', WellFormed(pair.access)) && IsSigned(s', WellFormed(pair.refresh))
            && pair.access.jti != pair.refresh.jti
            && {pair.access.jti, pair.refresh.jti} !! Run(cfg, start, trace).signed.Keys
  {
    assert (trace + [Timed(at, step)])[..|trace|] == trace;
  }

  // ---- Acceptance ----

  /** Signed, unexpired, not revoked, and its session entries not lapsed. */
  ghost predicate Valid(cfg: Config, s: State, ledger: Ledger, now: Time, p: Presented) {
    IsSigned(s, p) && now < p.token.expiresAt && p.token.jti !in ledger.revoked && !Lapsed(cfg, p.token, now)
  }

  lemma CacheAgrees(cfg: Config, s: State, ledger: Ledger, now: Time, t: Token)
    requires SessionsInv(cfg, s, ledger, now) && IsSigned(s, WellFormed(t)) && now < t.expiresAt
    ensures !Revoked(s.cache, now, t.jti) && HasSession(s.cache, now, t.userId, t.jti)
       <==> t.jti !in ledger.revoked && !Lapsed(cfg, t, now)
    ensures Verify(s.signed, now, WellFormed(t)).Ok?
  {
    assert TokenSound(cfg, s.signed, s.cache, ledger, t.jti, now);
  }

  /** A refresh token names no user in its access claims, and the zero user has no sessions. */
  lemma NilHasNoSession(cfg: Config, s: State, ledger: Ledger, now: Time, j: Uuid)
    requires SessionsInv(cfg, s, ledger, now)
    ensures !HasSession(s.cache, now, NIL_UUID, j)
  {
    if SessionKey(NIL_UUID, j) in s.cache {
      SessionOwner(cfg, s, ledger, now, NIL_UUID, j);
    }
  }

  lemma SessionOwner(cfg: Config, s: State, ledger: Ledger, now: Time, u: Uuid, j: Uuid)
    requires SessionsInv(cfg, s, ledger, now) && SessionKey(u, j) in s.cache
    ensures u != NIL_UUID
  {
    assert TokenSound(cfg, s.signed, s.cache, ledger, j, now);
  }

  /**
    In every run ValidateToken accepts exactly the signed access tokens that are unexpired and not revoked,
    up to the life of their session entries.
   */
  lemma AcceptedExactly(cfg: Config, start: State, trace: seq<Timed>, now: Time, p: Presented)
    requires Starting(start) && Proper(cfg, start, trace) && NotBefore(trace, now)
    ensures var s, ledger := Run(cfg, start, trace), LedgerOf(cfg, start, trace);
            && (ValidateToken(s, now, p).Ok? <==> Valid(cfg, s, ledger, now, p) && p.token.Access?)
            && (ValidateToken(s, now, p).Ok? ==> ValidateToken(s, now, p).value == p.token)
  {
    RunKeeps(cfg, start, trace, now);
    var s, ledger := Run(cfg, start, trace), LedgerOf(cfg, start, trace);
    if IsSigned(s, p) && now < p.token.expiresAt {
      CacheAgrees(cfg, s, ledger, now, p.token);
      NilHasNoSession(cfg, s, ledger, now, p.token.jti);
    }
  }

  /**
    RefreshToken accepts exactly the signed tokens, of either kind, that are unexpired, not revoked and not
    lapsed, and whose user still exists; it answers with a pair for that user.
   */
  lemma RefreshedExactly(cfg: Config, start: State, trace: seq<Timed>, now: Time, p: Presented, a: Uuid, r: Uuid)
    requires Starting(start) && Proper(cfg, start, trace) && NotBefore(trace, now)
    ensures var s, ledger := Run(cfg, start, trace), LedgerOf(cfg, start, trace);
            var answer := RefreshTokens(cfg, s, now, p, a, r).1;
            && (answer.Ok? <==> Valid(cfg, s, ledger, now, p) && p.token.userId in s.users)
            && (answer.Ok? ==> answer.value.access.userId == answer.value.refresh.userId == p.token.userId)
  {
    RunKeeps(cfg, start, trace, now);
    var s, ledger := Run(cfg, start, trace), LedgerOf(cfg, start, trace);
    if IsSigned(s, p) && now < p.token.expiresAt {
      CacheAgrees(cfg, s, ledger, now, p.token);
    }
  }

  /** While access tokens live no longer than refresh tokens, no unexpired token has lapsed. */
  lemma NoLapse(cfg: Config, s: State, ledger: Ledger, now: Time, p: Presented)
    requires cfg.accessTtl <= cfg.refreshTtl && SessionsInv(cfg, s, ledger, now)
    ensures Valid(cfg, s, ledger, now, p) <==> IsSigned(s, p) && now < p.token.expiresAt && p.token.jti !in ledger.revoked
  {
    if IsSigned(s, p) {
      assert TokenSound(cfg, s.signed, s.cache, ledger, p.token.jti, now);
    }
  }

  /** The intended sentence: accepted if and only if issued, unexpired and not revoked. */
  lemma AcceptedIffUnexpiredAndNotRevoked(cfg: Config, start: State, trace: seq<Timed>, now: Time, p: Presented)
    requires cfg.accessTtl <= cfg.refreshTtl
    requires Starting(start) && Proper(cfg, start, trace) && NotBefore(trace, now)
    ensures var s, ledger := Run(cfg, start, trace), LedgerOf(cfg, start, trace);
            ValidateToken(s, now, p).Ok?
            <==> IsSigned(s, p) && p.token.Access? && now < p.token.expiresAt && p.token.jti !in ledger.revoked
  {
    RunKeeps(cfg, start, trace, now);
    AcceptedExactly(cfg, start, trace, now, p);
    NoLapse(cfg, Run(cfg, start, trace), LedgerOf(cfg, start, trace), now, p);
  }

  /** With longer-lived access tokens the sentence fails: a token just issued is refused before it expires. */
  lemma LongAccessLapses(cfg: Config, start: State, at: Time, user: User, password: string, a: Uuid, r: Uuid)
    requires 0 < cfg.refreshTtl && cfg.refreshTtl + 2 * SECOND <= cfg.accessTtl
    requires Starting(start) && user.id in start.users && start.users[user.id] == user && user.password == password && a != r
    ensures var login := Timed(at, LoginStep(true, user.email, password, a, r));
            var s, later := Run(cfg, start, [login]), at + cfg.refreshTtl + 1;
            && Proper(cfg, start, [login])
            && a in s.signed && s.signed[a].Access? && later < s.signed[a].expiresAt
            && a !in LedgerOf(cfg, start, [login]).revoked
            && ValidateToken(s, later, WellFormed(s.signed[a])).Err?
  {
    var login := Timed(at, LoginStep(true, user.email, password, a, r));
    assert [login][..|[login]| - 1] == [];
    assert FreshIds(start, login.step);
    ByEmail(start.users, user.email, user.id);
    assert Run(cfg, start, []) == start && LedgerOf(cfg, start, []) == EMPTY_LEDGER;
    var s := Run(cfg, start, [login]);
    assert s == Issue(cfg, start, at, user, a, r);
    assert s.signed[a] == AccessFor(cfg, at, user, a);
    AcceptedExactly(cfg, start, [login], at + cfg.refreshTtl + 1, WellFormed(s.signed[a]));
  }

  /** Every accepted token carries exactly the role names, role IDs and permissions its user has now, if the user exists. */
  lemma AcceptedClaimsCurrent(cfg: Config, start: State, trace: seq<Timed>, now: Time, p: Presented)
    requires Starting(start) && Proper(cfg, start, trace) && NotBefore(trace, now)
    requires ValidateToken(Run(cfg, start, trace), now, p).Ok?
    ensures var s, t := Run(cfg, start, trace), p.token;
            t.Access? && (t.userId in s.users ==>
              var user := s.users[t.userId];
              t.roles == RoleNames(user.roles) && t.roleIds == RoleIds(user.roles) && t.permissions == RolePermissions(user.roles))
  {
    RunKeeps(cfg, start, trace, now);
    AcceptedExactly(cfg, start, trace, now, p);
  }

  /** Deleting a user ends no session: what was accepted just before is accepted just after. */
  lemma DeletedUserStillAccepted(cfg: Config, start: State, trace: seq<Timed>, at: Time, id: Uuid, p: Presented)
    requires Starting(start) && Proper(cfg, start, trace + [Timed(at, DeleteUserStep(id))])
    requires ValidateToken(Run(cfg, start, trace), at, p).Ok?
    ensures ValidateToken(Run(cfg, start, trace + [Timed(at, DeleteUserStep(id))]), at, p).Ok?
  {
    var longer := trace + [Timed(at, DeleteUserStep(id))];
    assert longer[..|longer| - 1] == trace;
    var s, ledger := Run(cfg, start, trace), LedgerOf(cfg, start, trace);
    AcceptedExactly(cfg, start, trace, at, p);
    AcceptedExactly(cfg, start, longer, at, p);
    assert LedgerOf(cfg, start, longer) == ledger;
    assert Run(cfg, start, longer).signed == s.signed;
  }

  /** RefreshToken does not ask which kind of token it is given: an accepted access token is refreshed as well. */
  lemma AccessTokenRefreshes(cfg: Config, start: State, trace: seq<Timed>, now: Time, p: Presented, a: Uuid, r: Uuid)
    requires Starting(start) && Proper(cfg, start, trace) && NotBefore(trace, now)
    requires ValidateToken(Run(cfg, start, trace), now, p).Ok? && p.token.userId in Run(cfg, start, trace).users
    ensures RefreshTokens(cfg, Run(cfg, start, trace), now, p, a, r).1.Ok?
  {
    AcceptedExactly(cfg, start, trace, now, p);
    RefreshedExactly(cfg, start, trace, now, p, a, r);
  }

  // ---- Revocation is for good ----

  lemma {:induction false} ProperPrefix(cfg: Config, start: State, trace: seq<Timed>, n: nat)
    requires n <= |trace| && Proper(cfg, start, trace)
    ensures Proper(cfg, start, trace[..n])
    decreases |trace|
  {
    if n < |trace| {
      ProperPrefix(cfg, start, trace[..|trace| - 1], n);
      assert trace[..|trace| - 1][..n] == trace[..n];
    } else {
      assert trace[..n] == trace;
    }
  }

  lemma {:induction false} RevokedForGood(cfg: Config, start: State, trace: seq<Timed>, n: nat)
    requires n <= |trace|
    ensures LedgerOf(cfg, start, trace[..n]).revoked <= LedgerOf(cfg, start, trace).revoked
    decreases |trace|
  {
    if n < |trace| {
      RevokedForGood(cfg, start, trace[..|trace| - 1], n);
      assert trace[..|trace| - 1][..n] == trace[..n];
    } else {
      assert trace[..n] == trace;
    }
  }

  /** What any step of a run revokes is still revoked at the end. */
  lemma RevocationRecorded(cfg: Config, start: State, trace: seq<Timed>, n: nat)
    requires n < |trace|
    ensures RevokedBy(Run(cfg, start, trace[..n]), LedgerOf(cfg, start, trace[..n]), trace[n].at, trace[n].step)
         <= LedgerOf(cfg, start, trace).revoked
  {
    assert trace[..n + 1][..n] == trace[..n] && trace[..n + 1][n] == trace[n];
    RevokedForGood(cfg, start, trace, n + 1);
  }

  /** A revoked token is neither accepted nor refreshed. */
  lemma RevokedRefused(cfg: Config, start: State, trace: seq<Timed>, now: Time, p: Presented, x: Uuid, y: Uuid)
    requires Starting(start) && Proper(cfg, start, trace) && NotBefore(trace, now)
    requires p.WellFormed? && p.token.jti in LedgerOf(cfg, start, trace).revoked
    ensures ValidateToken(Run(cfg, start, trace), now, p).Err?
    ensures RefreshTokens(cfg, Run(cfg, start, trace), now, p, x, y).1.Err?
  {
    AcceptedExactly(cfg, start, trace, now, p);
    RefreshedExactly(cfg, start, trace, now, p, x, y);
  }

  /** The refresh token ID issued together with an access token. */
  ghost function PairOf(cfg: Config, start: State, trace: seq<Timed>, j: Uuid): Option<Uuid> {
    var mate := LedgerOf(cfg, start, trace).mate;
    if j in mate then Some(mate[j]) else None
  }

  /**
    After its owner logs out with an access token, that token is never accepted again, and the refresh token
    issued with it is never accepted by RefreshToken again, whatever happens later.
   */
  lemma LogoutEndsPair(cfg: Config, start: State, trace: seq<Timed>, n: nat, a: Token, now: Time, p: Presented, x: Uuid, y: Uuid)
    requires Starting(start) && Proper(cfg, start, trace) && NotBefore(trace, now)
    requires n < |trace| && trace[n].step == LogoutStep(a.userId, WellFormed(a))
    requires a.Access? && IsSigned(Run(cfg, start, trace[..n]), WellFormed(a))
    requires p.WellFormed?
    ensures PairOf(cfg, start, trace[..n], a.jti).Some?
    ensures p.token.jti == a.jti ==> ValidateToken(Run(cfg, start, trace), now, p).Err?
    ensures p.token.jti in {a.jti, PairOf(cfg, start, trace[..n], a.jti).value} ==>
              RefreshTokens(cfg, Run(cfg, start, trace), now, p, x, y).1.Err?
  {
    var before := trace[..n];
    ProperPrefix(cfg, start, trace, n + 1);
    assert trace[..n + 1][..n] == before && trace[..n + 1][n] == trace[n];
    var s, ledger := Run(cfg, start, before), LedgerOf(cfg, start, before);
    RunKeeps(cfg, start, before, trace[n].at);
    LoggedOutPair(cfg, s, ledger, trace[n].at, a);
    RevocationRecorded(cfg, start, trace, n);
    if p.token.jti in {a.jti, ledger.mate[a.jti]} {
      RevokedRefused(cfg, start, trace, now, p, x, y);
    }
  }

  lemma LoggedOutPair(cfg: Config, s: State, ledger: Ledger, at: Time, a: Token)
    requires SessionsInv(cfg, s, ledger, at) && a.Access? && IsSigned(s, WellFormed(a))
    ensures a.jti in ledger.mate
    ensures {a.jti, ledger.mate[a.jti]} <= LoggedOut(s.signed, ledger, at, a.userId, WellFormed(a))
  {
    assert TokenSound(cfg, s.signed, s.cache, ledger, a.jti, at);
  }

  /** The steps that end every session of a user: a password change or a role change that succeeds. */
  ghost predicate EndsAll(s: State, at: Time, step: Step) {
    || (step.ChangePasswordStep? && ChangePassword(s, at, step.valid, step.userId, step.oldPassword, step.newPassword).1.Ok?)
    || (step.AssignRoleStep? && AssignRole(s, at, step.userId, step.roleId).1.Ok?)
    || (step.RemoveRoleStep? && RemoveRole(s, at, step.userId, step.roleId).1.Ok?)
  }

  lemma EndingRevokes(s: State, ledger: Ledger, at: Time, step: Step, p: Presented)
    requires EndsAll(s, at, step) && IsSigned(s, p) && p.token.userId == step.userId
    ensures p.token.jti in RevokedBy(s, ledger, at, step)
  {
    assert p.token.jti in TokensOf(s.signed, p.token.userId);
  }

  /** After a password change or a role change no token issued to that user before is accepted again. */
  lemma UserWideRevocation(cfg: Config, start: State, trace: seq<Timed>, n: nat, now: Time, p: Presented, x: Uuid, y: Uuid)
    requires Starting(start) && Proper(cfg, start, trace) && NotBefore(trace, now) && n < |trace|
    requires EndsAll(Run(cfg, start, trace[..n]), trace[n].at, trace[n].step)
    requires IsSigned(Run(cfg, start, trace[..n]), p) && p.token.userId == trace[n].step.userId
    ensures ValidateToken(Run(cfg, start, trace), now, p).Err?
    ensures RefreshTokens(cfg, Run(cfg, start, trace), now, p, x, y).1.Err?
  {
    var s, ledger := Run(cfg, start, trace[..n]), LedgerOf(cfg, start, trace[..n]);
    EndingRevokes(s, ledger, trace[n].at, trace[n].step, p);
    RevocationRecorded(cfg, start, trace, n);
    RevokedRefused(cfg, start, trace, now, p, x, y);
  }
}
