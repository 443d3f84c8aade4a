/**
 * The authentication service and the request gate, step by step on mutable fields
 * (src/modules/admin-identity/domain/admin-auth.service.ts, mfa.service.ts and
 * src/api/middlewares/authenticate.middleware.ts), each proved to do what its `AuthMachine` step says.
 */
module AdminAuth {
  import opened Prelude
  import opened Settings
  import opened Tokens
  import opened Sessions
  import opened Lockout
  import opened Accounts
  import opened AuthMachine

  class ChallengeService {
    var challenges: map<nat, Entry<AdminId>>

    constructor ()
      ensures challenges == map[]
    {
      challenges := map[];
    }

    method CreateChallenge(now: int, ch: nat, id: AdminId)
      modifies this
      ensures challenges == old(challenges)[ch := Entry(id, now + CHALLENGE_TTL)]
    {
      challenges := challenges[ch := Entry(id, now + CHALLENGE_TTL)];
    }

    method ReadChallenge(now: int, ch: nat) returns (id: Option<AdminId>)
      ensures id == if Held(challenges, ch, now) then Some(challenges[ch].value) else None
    {
      if Held(challenges, ch, now) { return Some(challenges[ch].value); }
      return None;
    }

    method ConsumeChallenge(ch: nat)
      modifies this
      ensures challenges == old(challenges) - {ch}
    {
      challenges := challenges - {ch};
    }
  }

  class AuthService {
    const cfg: Config
    const sessions: SessionService
    const lockout: LockoutService
    const mfa: ChallengeService
    const accounts: AccountRepository
    const tokens: TokenService
    var clock: int

    ghost predicate Valid() {
      cfg.Valid() && sessions.cfg == cfg && lockout.cfg == cfg && tokens.cfg == cfg
    }

    constructor (cfg: Config, start: int)
      requires cfg.Valid()
      ensures Valid() && this.cfg == cfg
      ensures fresh(sessions) && fresh(lockout) && fresh(mfa) && fresh(accounts) && fresh(tokens)
      ensures View() == World(start, Store(map[], map[], map[]), Lockouts(map[], map[]), map[], map[], Mint(0, {}))
    {
      this.cfg, clock := cfg, start;
      sessions := new SessionService(cfg);
      lockout := new LockoutService(cfg);
      mfa := new ChallengeService();
      accounts := new AccountRepository();
      tokens := new TokenService(cfg);
    }

    function View(): World
      reads this, sessions, lockout, mfa, accounts, tokens
    {
      World(clock, sessions.View(), lockout.View(), mfa.challenges, accounts.rows, tokens.View())
    }

    method IssueSession(id: AdminId, tier: nat, mfaUsed: bool, pending: bool, durable: bool) returns (r: Issued)
      requires Valid() && id in accounts.rows && accounts.rows[id].tier == tier
      modifies sessions, lockout, accounts, tokens
      ensures (View(), r) == Issue(cfg, old(View()), id, mfaUsed, pending, durable)
    {
      var sid := tokens.NewId();
      var refresh := tokens.SignRefresh(clock, id, sid);
      var access := tokens.SignAccess(clock, id, sid, tier);
      var _ := sessions.CreateSession(clock, durable, NewSession(sid, id, tier, refresh, mfaUsed, pending));
      accounts.RecordSuccessfulLogin(id, clock);
      lockout.ClearFailures(id);
      r := Issued(sid, access, refresh);
    }

    method Login(id: AdminId, passwordOk: bool, durable: bool) returns (out: Outcome<LoginResult>)
      requires Valid()
      modifies sessions, lockout, mfa, accounts, tokens
      ensures Step(View(), out) == AuthMachine.Login(cfg, old(View()), id, passwordOk, durable)
    {
      var found := accounts.FindById(id);
      if found.None? { return Refused(InvalidCredentials); }
      var admin := found.value;
      var lock := lockout.GetLockState(clock, id);
      if lock.locked { return Refused(AccountLocked(lock.retryAfterSeconds)); }
      if !passwordOk {
        var state := lockout.RecordFailure(clock, id);
        accounts.RecordFailedAttempt(id, state.failedAttempts,
          if state.locked then Some(clock + state.retryAfterSeconds) else None);
        return Refused(InvalidCredentials);
      }
      if admin.status == Suspended { return Refused(AccountIsSuspended); }
      if MfaRequiredForTier(cfg, admin.tier) && !admin.mfaEnrolled {
        var issued := IssueSession(id, admin.tier, false, true, durable);
        return Done(MustEnrol(issued));
      }
      if admin.mfaEnrolled {
        var ch := tokens.NewId();
        mfa.CreateChallenge(clock, ch, id);
        return Done(Challenged(ch));
      }
      var issued := IssueSession(id, admin.tier, false, false, durable);
      return Done(Authenticated(issued));
    }

    method CompleteMfa(ch: nat, codeOk: bool, durable: bool) returns (out: Outcome<Issued>)
      requires Valid()
      modifies sessions, lockout, mfa, accounts, tokens
      ensures Step(View(), out) == AuthMachine.CompleteMfa(cfg, old(View()), ch, codeOk, durable)
    {
      var challenge := mfa.ReadChallenge(clock, ch);
      if challenge.None? { return Refused(MfaInvalid); }
      var id := challenge.value;
      var found := accounts.FindById(id);
      if found.None? || found.value.mfaSecret.None? {
        mfa.ConsumeChallenge(ch);
        return Refused(MfaInvalid);
      }
      var admin := found.value;
      if !codeOk {
        var _ := lockout.RecordFailure(clock, id);
        return Refused(MfaInvalid);
      }
      if admin.status == Suspended {
        mfa.ConsumeChallenge(ch);
        return Refused(AccountIsSuspended);
      }
      mfa.ConsumeChallenge(ch);
      var issued := IssueSession(id, admin.tier, true, false, durable);
      return Done(issued);
    }

    method Refresh(t: Token, durable: bool) returns (out: Outcome<Issued>)
      requires Valid()
      modifies sessions, tokens
      ensures Step(View(), out) == RefreshSession(cfg, old(View()), t, durable)
    {
      var v := VerifyRefresh(tokens.View(), t, clock);
      if v != Accepted { return Refused(TokenRefusal(v)); }
      var lookup := sessions.GetSession(clock, durable, t.sid, false);
      if lookup.Missing? { return Refused(SessionRevoked); }
      if lookup.Expired? { return Refused(SessionExpired); }
      var found := accounts.FindById(t.sub);
      if found.None? {
        sessions.DestroySession(clock, durable, t.sid, t.sub, RevokedByAdmin);
        return Refused(SessionRevoked);
      }
      if found.value.status == Suspended {
        var _ := sessions.DestroyAllSessions(clock, durable, t.sub, AccountSuspended);
        return Refused(AccountIsSuspended);
      }
      var next := tokens.SignRefresh(clock, t.sub, t.sid);
      var rotated := sessions.RotateRefreshToken(clock, durable, t.sid, t, next);
      if !rotated {
        sessions.DestroySession(clock, durable, t.sid, t.sub, RefreshReuseDetected);
        return Refused(RefreshReused);
      }
      var access := tokens.SignAccess(clock, t.sub, t.sid, found.value.tier);
      return Done(Issued(t.sid, access, next));
    }

    method Authenticate(token: Option<Token>, gate: Gate, durable: bool) returns (out: Outcome<Identity>)
      requires Valid()
      modifies sessions
      ensures Step(View(), out) == AuthMachine.Authenticate(cfg, old(View()), token, gate, durable)
    {
      if token.None? { return Refused(MissingToken); }
      var t := token.value;
      var v := VerifyAccess(tokens.View(), t, clock);
      if v != Accepted { return Refused(TokenRefusal(v)); }
      var lookup := sessions.GetSession(clock, durable, t.sid, true);
      if lookup.Missing? { return Refused(SessionRevoked); }
      if lookup.Expired? { return Refused(SessionExpired); }
      var found := accounts.FindById(t.sub);
      if found.None? {
        sessions.DestroySession(clock, durable, t.sid, t.sub, RevokedByAdmin);
        return Refused(SessionRevoked);
      }
      var admin := found.value;
      if admin.status == Suspended {
        var _ := sessions.DestroyAllSessions(clock, durable, t.sub, AccountSuspended);
        return Refused(AccountIsSuspended);
      }
      if admin.status == Pending && !gate.allowPendingActivation { return Refused(ActivationRequired); }
      if lookup.record.pendingMfaEnrolment && !gate.allowPendingMfa { return Refused(MfaRequired); }
      sessions.MarkSeen(clock, durable, t.sid);
      return Done(Identity(
        t.sub, t.sid, admin.tier, admin.status, admin.mfaEnrolled, lookup.record.pendingMfaEnrolment));
    }

    method ActivateMfa(id: AdminId, codeOk: bool) returns (out: Outcome<()>)
      requires Valid()
      modifies lockout, accounts
      ensures Step(View(), out) == AuthMachine.ActivateMfa(cfg, old(View()), id, codeOk)
    {
      var found := accounts.FindById(id);
      if found.None? { return Refused(AccountNotFound); }
      if found.value.mfaEnrolled { return Refused(MfaAlreadyEnrolled); }
      if found.value.mfaSecret.None? { return Refused(MfaNotEnrolled); }
      if !codeOk {
        var _ := lockout.RecordFailure(clock, id);
        return Refused(MfaInvalid);
      }
      accounts.ActivateMfa(id);
      return Done(());
    }

    method SignOut(id: AdminId, sid: SessionId, durable: bool)
      requires Valid()
      modifies sessions
      ensures View() == Destroy(old(View()), sid, id, Logout, durable)
    {
      sessions.DestroySession(clock, durable, sid, id, Logout);
    }

    method SignOutAll(id: AdminId, durable: bool) returns (ended: nat)
      requires Valid()
      modifies sessions
      ensures View() == DestroyAll(old(View()), id, LogoutAll, durable)
      ensures ended == |Members(old(sessions.index), id, clock)|
    {
      ended := sessions.DestroyAllSessions(clock, durable, id, LogoutAll);
    }

    method RevokeSession(id: AdminId, sid: SessionId, durable: bool) returns (out: Outcome<()>)
      requires Valid()
      modifies sessions
      ensures Step(View(), out) == RevokeOwn(cfg, old(View()), id, sid, durable)
    {
      var lookup := sessions.GetSession(clock, durable, sid, false);
      if !lookup.Live? || lookup.record.adminId != id { return Refused(SessionNotFound); }
      sessions.DestroySession(clock, durable, sid, id, RevokedByAdmin);
      return Done(());
    }

    method ChangeOwnPassword(id: AdminId, keep: SessionId, currentOk: bool, newHash: Option<nat>, durable: bool)
      returns (out: Outcome<nat>)
      requires Valid()
      modifies sessions, accounts
      ensures Step(View(), out) == ChangePassword(old(View()), id, keep, currentOk, newHash, durable)
    {
      var found := accounts.FindById(id);
      if found.None? { return Refused(AccountNotFound); }
      if !currentOk { return Refused(InvalidCredentials); }
      if newHash.None? { return Refused(PasswordWeak); }
      var _ := accounts.SetPasswordHash(id, newHash.value);
      var ended := sessions.DestroyOtherSessions(clock, durable, id, keep, PasswordReset);
      return Done(ended);
    }
  }
}
