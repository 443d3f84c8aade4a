/**
 * Authentication as one machine: sessions, lockout, second-factor challenges, accounts and tokens
 * under one clock (src/modules/admin-identity/domain/admin-auth.service.ts, mfa.service.ts and
 * src/api/middlewares/authenticate.middleware.ts). Each operation is one atomic step.
 *
 * Whether a password or a code is right is decided by bcrypt and TOTP, outside this model: an
 * operation takes the verdict as a boolean and, like the service, looks at it only where it checks.
 */
module AuthMachine {
  import opened Prelude
  import opened Settings
  import opened Tokens
  import opened Sessions
  import opened Lockout
  import opened Accounts

  const CHALLENGE_TTL := 300

  datatype World = World(
    now: int,
    store: Store,
    lockouts: Lockouts,
    challenges: map<nat, Entry<AdminId>>,
    accounts: Rows,
    mint: Mint)

  datatype Refusal =
    | MissingToken | BadToken | ExpiredToken | SessionRevoked | SessionExpired | SessionNotFound
    | InvalidCredentials | AccountLocked(retryAfterSeconds: int) | AccountIsSuspended | RefreshReused
    | MfaInvalid | MfaAlreadyEnrolled | MfaNotEnrolled | MfaRequired | ActivationRequired
    | AccountNotFound | PasswordWeak

  datatype Outcome<+R> = Done(result: R) | Refused(refusal: Refusal)

  datatype Issued = Issued(sid: SessionId, access: Token, refresh: Token)

  datatype LoginResult = Authenticated(issued: Issued) | Challenged(challenge: nat) | MustEnrol(issued: Issued)

  datatype Step<+R> = Step(world: World, out: Outcome<R>)

  datatype Admitted = Admitted(record: SessionRecord, account: Account)

  /** What a gate accepts from an administrator who is not fully in yet. */
  datatype Gate = Gate(allowPendingMfa: bool, allowPendingActivation: bool)

  datatype Identity = Identity(
    adminId: AdminId, sid: SessionId, tier: nat, status: Status, mfaEnrolled: bool,
    pendingMfaEnrolment: bool)

  function MfaRequiredForTier(cfg: Config, tier: nat): bool { tier <= cfg.mfaRequiredTier }

  // ── The steps ─────────────────────────────────────────────────────────────

  function Refuse<R>(w: World, r: Refusal): Step<R> { Step(w, Refused(r)) }

  function Issue(cfg: Config, w: World, id: AdminId, mfaUsed: bool, pending: bool, durable: bool): (World, Issued)
    requires id in w.accounts
  {
    var sid := w.mint.next;
    var m1 := Advanced(w.mint);
    var refresh := RefreshTokenFor(cfg, m1, w.now, id, sid);
    var access := AccessTokenFor(cfg, w.now, id, sid, w.accounts[id].tier);
    var session := NewSession(sid, id, w.accounts[id].tier, refresh, mfaUsed, pending);
    (w.(
       mint := Signed(Signed(Advanced(m1), refresh), access),
       store := Created(cfg, w.store, w.now, durable, session),
       accounts := w.accounts[id := LoginRecorded(w.accounts[id], w.now)],
       lockouts := Cleared(w.lockouts, id)),
     Issued(sid, access, refresh))
  }

  function FailedLogin(cfg: Config, w: World, id: AdminId): World
    requires id in w.accounts
  {
    var n := Attempts(w.lockouts, id, w.now);
    var until := if n >= cfg.maxAttempts then Some(w.now + cfg.lockSeconds) else None;
    w.(lockouts := AfterFailure(cfg, w.lockouts, id, w.now),
       accounts := w.accounts[id := FailureRecorded(w.accounts[id], n, until)])
  }

  function Login(cfg: Config, w: World, id: AdminId, passwordOk: bool, durable: bool): Step<LoginResult> {
    if id !in w.accounts then Refuse(w, InvalidCredentials)
    else if Locked(w.lockouts, id, w.now) then Refuse(w, AccountLocked(w.lockouts.locks[id] - w.now))
    else if !passwordOk then Refuse(FailedLogin(cfg, w, id), InvalidCredentials)
    else if w.accounts[id].status == Suspended then Refuse(w, AccountIsSuspended)
    else if MfaRequiredForTier(cfg, w.accounts[id].tier) && !w.accounts[id].mfaEnrolled then
      var (w', issued) := Issue(cfg, w, id, false, true, durable);
      Step(w', Done(MustEnrol(issued)))
    else if w.accounts[id].mfaEnrolled then
      var ch := w.mint.next;
      Step(w.(mint := Advanced(w.mint), challenges := w.challenges[ch := Entry(id, w.now + CHALLENGE_TTL)]),
           Done(Challenged(ch)))
    else
      var (w', issued) := Issue(cfg, w, id, false, false, durable);
      Step(w', Done(Authenticated(issued)))
  }

  function Consumed(w: World, ch: nat): World { w.(challenges := w.challenges - {ch}) }

  function CompleteMfa(cfg: Config, w: World, ch: nat, codeOk: bool, durable: bool): Step<Issued> {
    if !Held(w.challenges, ch, w.now) then Refuse(w, MfaInvalid)
    else
      var id := w.challenges[ch].value;
      if id !in w.accounts || w.accounts[id].mfaSecret.None? then Refuse(Consumed(w, ch), MfaInvalid)
      else if !codeOk then Refuse(w.(lockouts := AfterFailure(cfg, w.lockouts, id, w.now)), MfaInvalid)
      else if w.accounts[id].status == Suspended then Refuse(Consumed(w, ch), AccountIsSuspended)
      else
        var (w', issued) := Issue(cfg, Consumed(w, ch), id, true, false, durable);
        Step(w', Done(issued))
  }

  function Destroy(w: World, sid: SessionId, id: AdminId, reason: EndReason, durable: bool): World {
    w.(store := Destroyed(w.store, w.now, durable, {sid}, id, reason))
  }

  function DestroyAll(w: World, id: AdminId, reason: EndReason, durable: bool): World {
    w.(store := AllDestroyed(w.store, w.now, durable, id, reason))
  }

  function Got(cfg: Config, w: World, sid: SessionId, touch: bool, durable: bool): World {
    w.(store := AfterGet(cfg, w.store, w.now, durable, sid, touch))
  }

  function TokenRefusal(v: Verdict): Refusal
    requires v != Accepted
  {
    if v == TokenExpired then ExpiredToken else BadToken
  }

  /** The checks a request and a refresh share, after the token itself was accepted. */
  function Admission(cfg: Config, w: World, t: Token, touch: bool, durable: bool): Step<Admitted> {
    var lookup := Lookedup(w.store, w.now, t.sid);
    var w1 := Got(cfg, w, t.sid, touch, durable);
    if lookup.Missing? then Refuse(w1, SessionRevoked)
    else if lookup.Expired? then Refuse(w1, SessionExpired)
    else if t.sub !in w1.accounts then Refuse(Destroy(w1, t.sid, t.sub, RevokedByAdmin, durable), SessionRevoked)
    else if w1.accounts[t.sub].status == Suspended then
      Refuse(DestroyAll(w1, t.sub, AccountSuspended, durable), AccountIsSuspended)
    else Step(w1, Done(Admitted(lookup.record, w1.accounts[t.sub])))
  }

  function RefreshSession(cfg: Config, w: World, t: Token, durable: bool): Step<Issued> {
    var v := VerifyRefresh(w.mint, t, w.now);
    if v != Accepted then Refuse(w, TokenRefusal(v))
    else
      var admitted := Admission(cfg, w, t, false, durable);
      if admitted.out.Refused? then Refuse(admitted.world, admitted.out.refusal)
      else
        var w1 := admitted.world;
        var next := RefreshTokenFor(cfg, w1.mint, w1.now, t.sub, t.sid);
        var w2 := w1.(
          mint := Signed(Advanced(w1.mint), next),
          store := AfterRotate(cfg, w1.store, w1.now, durable, t.sid, t, next));
        if !Rotates(w1.store, w1.now, t.sid, t)
        then Refuse(Destroy(w2, t.sid, t.sub, RefreshReuseDetected, durable), RefreshReused)
        else
          var access := AccessTokenFor(cfg, w2.now, t.sub, t.sid, admitted.out.result.account.tier);
          Step(w2.(mint := Signed(w2.mint, access)), Done(Issued(t.sid, access, next)))
  }

  /** The authentication gate every non-public route passes through. */
  function Authenticate(cfg: Config, w: World, token: Option<Token>, gate: Gate, durable: bool): Step<Identity> {
    if token.None? then Refuse(w, MissingToken)
    else
      var t := token.value;
      var v := VerifyAccess(w.mint, t, w.now);
      if v != Accepted then Refuse(w, TokenRefusal(v))
      else
        var admitted := Admission(cfg, w, t, true, durable);
        if admitted.out.Refused? then Refuse(admitted.world, admitted.out.refusal)
        else
          var Admitted(record, a) := admitted.out.result;
          if a.status == Pending && !gate.allowPendingActivation then Refuse(admitted.world, ActivationRequired)
          else if record.pendingMfaEnrolment && !gate.allowPendingMfa then Refuse(admitted.world, MfaRequired)
          else Step(
            admitted.world.(store := Seen(admitted.world.store, w.now, durable, t.sid)),
            Done(Identity(t.sub, t.sid, a.tier, a.status, a.mfaEnrolled, record.pendingMfaEnrolment)))
  }

  function ActivateMfa(cfg: Config, w: World, id: AdminId, codeOk: bool): Step<()> {
    if id !in w.accounts then Refuse(w, AccountNotFound)
    else if w.accounts[id].mfaEnrolled then Refuse(w, MfaAlreadyEnrolled)
    else if w.accounts[id].mfaSecret.None? then Refuse(w, MfaNotEnrolled)
    else if !codeOk then Refuse(w.(lockouts := AfterFailure(cfg, w.lockouts, id, w.now)), MfaInvalid)
    else Step(w.(accounts := w.accounts[id := MfaActivated(w.accounts[id])]), Done(()))
  }

  function RevokeOwn(cfg: Config, w: World, id: AdminId, sid: SessionId, durable: bool): Step<()> {
    var lookup := Lookedup(w.store, w.now, sid);
    var w1 := Got(cfg, w, sid, false, durable);
    if !lookup.Live? || lookup.record.adminId != id then Refuse(w1, SessionNotFound)
    else Step(Destroy(w1, sid, id, RevokedByAdmin, durable), Done(()))
  }

  /** `newHash` is absent when the password policy rejects the new password. */
  function ChangePassword(
    w: World, id: AdminId, keep: SessionId, currentOk: bool, newHash: Option<nat>, durable: bool): Step<nat>
  {
    if id !in w.accounts then Refuse(w, AccountNotFound)
    else if !currentOk then Refuse(w, InvalidCredentials)
    else if newHash.None? then Refuse(w, PasswordWeak)
    else
      var doomed := Members(w.store.index, id, w.now) - {keep};
      Step(w.(
          accounts := w.accounts[id := PasswordSet(w.accounts[id], newHash.value)],
          store := Destroyed(w.store, w.now, durable, doomed, id, PasswordReset)),
        Done(|doomed|))
  }

  // ── What other administrators do to an account, and time ──────────────────

  function WithAccount(w: World, id: AdminId, f: Account -> Account): World {
    w.(accounts := Updated(w.accounts, id, f))
  }

  /** Only the row: the sessions are cut by a later step, which may be long in coming or never come. */
  function Suspend(w: World, actor: AdminId, id: AdminId): World {
    WithAccount(w, id, (a: Account) => Suspension(a, actor))
  }

  function SetTier(w: World, actor: AdminId, id: AdminId, tier: nat): World {
    WithAccount(w, id, (a: Account) => if a.tier == tier then a else a.(tier := tier, tierChangedBy := Some(actor)))
  }

  function RevokeOne(w: World, id: AdminId, sid: SessionId, durable: bool): World {
    var healed := w.(store := Healed(w.store, w.now, id));
    if sid in Listed(w.store, w.now, id) then Destroy(healed, sid, id, RevokedByAdmin, durable) else healed
  }

  function EnrolMfa(w: World, id: AdminId, secret: nat): World {
    WithAccount(w, id, (a: Account) => if a.mfaEnrolled then a else SecretStaged(a, secret))
  }

  datatype Event =
    | Tick(seconds: nat)
    | EvLogin(id: AdminId, ok: bool, durable: bool)
    | EvCompleteMfa(ch: nat, ok: bool, durable: bool)
    | EvRefresh(token: Token, durable: bool)
    | EvRequest(credential: Option<Token>, gate: Gate, durable: bool)
    | EvActivateMfa(id: AdminId, ok: bool)
    | EvSignOut(id: AdminId, sid: SessionId, durable: bool)
    | EvSignOutAll(id: AdminId, durable: bool)
    | EvRevokeOwn(id: AdminId, sid: SessionId, durable: bool)
    | EvChangePassword(id: AdminId, sid: SessionId, ok: bool, newHash: Option<nat>, durable: bool)
    | EvListSessions(id: AdminId)
    | EvSuspend(actor: AdminId, id: AdminId)
    | EvReinstate(id: AdminId)
    | EvSetTier(actor: AdminId, id: AdminId, tier: nat)
    | EvResetPassword(id: AdminId, hash: nat)
    | EvResetMfa(id: AdminId)
    /** Revoke all, by itself or after one of the four writes above committed. */
    | EvCutSessions(id: AdminId, reason: EndReason, durable: bool)
    | EvRevokeOne(id: AdminId, sid: SessionId, durable: bool)
    | EvEnrolMfa(id: AdminId, secret: nat)
    | EvActivateAccount(actor: AdminId, id: AdminId)
    | EvCreateAccount(id: AdminId, tier: nat, hash: nat, status: Option<Status>)
    | EvDeleteAccount(id: AdminId)

  function Apply(cfg: Config, w: World, e: Event): World {
    match e
    case Tick(n) => w.(now := w.now + n)
    case EvLogin(id, ok, d) => Login(cfg, w, id, ok, d).world
    case EvCompleteMfa(ch, ok, d) => CompleteMfa(cfg, w, ch, ok, d).world
    case EvRefresh(t, d) => RefreshSession(cfg, w, t, d).world
    case EvRequest(t, gate, d) => Authenticate(cfg, w, t, gate, d).world
    case EvActivateMfa(id, ok) => ActivateMfa(cfg, w, id, ok).world
    case EvSignOut(id, sid, d) => Destroy(w, sid, id, Logout, d)
    case EvSignOutAll(id, d) => DestroyAll(w, id, LogoutAll, d)
    case EvRevokeOwn(id, sid, d) => RevokeOwn(cfg, w, id, sid, d).world
    case EvChangePassword(id, sid, ok, hash, d) => ChangePassword(w, id, sid, ok, hash, d).world
    case EvListSessions(id) => w.(store := Healed(w.store, w.now, id))
    case EvSuspend(actor, id) => Suspend(w, actor, id)
    case EvReinstate(id) => WithAccount(w, id, Reinstatement)
    case EvSetTier(actor, id, tier) => SetTier(w, actor, id, tier)
    case EvResetPassword(id, hash) => WithAccount(w, id, (a: Account) => PasswordSet(a, hash))
    case EvResetMfa(id) => WithAccount(w, id, MfaCleared)
    case EvCutSessions(id, reason, d) => DestroyAll(w, id, reason, d)
    case EvRevokeOne(id, sid, d) => RevokeOne(w, id, sid, d)
    case EvEnrolMfa(id, secret) => EnrolMfa(w, id, secret)
    case EvActivateAccount(actor, id) => w.(accounts := Activated(w.accounts, id, actor))
    case EvCreateAccount(id, tier, hash, status) =>
      if id in w.accounts then w else w.(accounts := w.accounts[id := NewAccount(tier, hash, status)])
    case EvDeleteAccount(id) => w.(accounts := w.accounts - {id})
  }

  function Run(cfg: Config, w: World, es: seq<Event>): World
  {
    if es == [] then w else Apply(cfg, Run(cfg, w, es[..|es| - 1]), es[|es| - 1])
  }

  const GENESIS: World := World(0, Store(map[], map[], map[]), Lockouts(map[], map[]), map[], map[], Mint(0, {}))

  /** A state some run from the empty system leads to. */
  ghost predicate Reachable(cfg: Config, w: World) {
    exists es :: Run(cfg, GENESIS, es) == w
  }
}
