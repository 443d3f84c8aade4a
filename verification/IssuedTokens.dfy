/**
 * What a sign-in, a completed second factor and a refresh hand out
 * (src/modules/admin-identity/domain/admin-auth.service.ts:129-428): which of the answers is given,
 * and what the tokens in it are good for from then on.
 */
module IssuedTokens {
  import opened Prelude
  import opened Settings
  import opened Tokens
  import opened SessionInvariants
  import opened Lockout
  import opened Accounts
  import opened AuthMachine
  import opened AuthRuns
  import opened AuthTheorems

  // ── What an event hands out ───────────────────────────────────────────────

  function OfLogin(out: Outcome<LoginResult>): Option<Issued> {
    match out
    case Done(Authenticated(issued)) => Some(issued)
    case Done(MustEnrol(issued)) => Some(issued)
    case _ => None
  }

  function OfIssued(out: Outcome<Issued>): Option<Issued> {
    match out
    case Done(issued) => Some(issued)
    case Refused(_) => None
  }

  function HandedOut(cfg: Config, w: World, e: Event): Option<Issued> {
    match e
    case EvLogin(id, ok, d) => OfLogin(Login(cfg, w, id, ok, d).out)
    case EvCompleteMfa(ch, ok, d) => OfIssued(CompleteMfa(cfg, w, ch, ok, d).out)
    case EvRefresh(t, d) => OfIssued(RefreshSession(cfg, w, t, d).out)
    case _ => None
  }

  /** The account an event is about. */
  predicate About(w: World, e: Event, id: AdminId) {
    match e
    case EvLogin(i, _, _) => id == i
    case EvCompleteMfa(ch, _, _) => ch in w.challenges && id == w.challenges[ch].value
    case EvRefresh(t, _) => id == t.sub
    case _ => false
  }

  /** Two tokens for one live session of `id`: this access token, and the session's current refresh token. */
  predicate GoodFor(cfg: Config, w: World, issued: Issued, id: AdminId) {
    && LiveFor(w, issued.sid, id) && id in w.accounts && w.accounts[id].status != Suspended
    && issued.access == Access(id, issued.sid, w.accounts[id].tier, w.now + cfg.accessTtl)
    && issued.refresh == CurrentToken(w, issued.sid)
    && issued.access in w.mint.signed && issued.refresh in w.mint.signed
  }

  lemma LoginHandsOut(cfg: Config, w: World, e: Event)
    requires cfg.Valid() && e.EvLogin? && HandedOut(cfg, w, e).Some?
    ensures GoodFor(cfg, Apply(cfg, w, e), HandedOut(cfg, w, e).value, e.id)
  {
  }

  lemma CompletionHandsOut(cfg: Config, w: World, e: Event)
    requires cfg.Valid() && e.EvCompleteMfa? && HandedOut(cfg, w, e).Some?
    ensures e.ch in w.challenges
    ensures GoodFor(cfg, Apply(cfg, w, e), HandedOut(cfg, w, e).value, w.challenges[e.ch].value)
  {
  }

  lemma RefreshHandsOut(cfg: Config, w: World, e: Event)
    requires cfg.Valid() && Reachable(cfg, w) && e.EvRefresh? && HandedOut(cfg, w, e).Some?
    ensures GoodFor(cfg, Apply(cfg, w, e), HandedOut(cfg, w, e).value, e.token.sub)
    ensures HandedOut(cfg, w, e).value.sid == e.token.sid
  {
    RefreshHandsOver(cfg, w, e.token, e.durable);
    ReachableIsSound(cfg, w);
    AcceptedMeansLive(cfg, w, e.token, Gate(false, false), e.durable);
  }

  /** Every answer with tokens gives a live session of the account it is about and tokens good for it. */
  lemma TokensAreGood(cfg: Config, w: World, e: Event, id: AdminId)
    requires cfg.Valid() && Reachable(cfg, w) && HandedOut(cfg, w, e).Some? && About(w, e, id)
    ensures GoodFor(cfg, Apply(cfg, w, e), HandedOut(cfg, w, e).value, id)
    ensures e.EvRefresh? ==> HandedOut(cfg, w, e).value.sid == e.token.sid
    ensures !e.EvRefresh? ==> HandedOut(cfg, w, e).value.sid == w.mint.next
  {
    match e
    case EvLogin(_, _, _) => LoginHandsOut(cfg, w, e);
    case EvCompleteMfa(_, _, _) => CompletionHandsOut(cfg, w, e);
    case EvRefresh(_, _) => RefreshHandsOut(cfg, w, e);
  }

  // ── From then on ──────────────────────────────────────────────────────────

  /** What a gate asks of a session and its account. */
  predicate Meets(w: World, sid: SessionId, id: AdminId, gate: Gate) {
    && LiveFor(w, sid, id) && id in w.accounts && w.accounts[id].status != Suspended
    && (w.accounts[id].status == Pending ==> gate.allowPendingActivation)
    && (w.store.keys[sid].value.pendingMfaEnrolment ==> gate.allowPendingMfa)
  }

  /** Who the authenticator puts on the request. */
  predicate Identifies(w: World, who: Identity, sid: SessionId, id: AdminId)
    requires sid in w.store.keys && id in w.accounts
  {
    && who.adminId == id && who.sid == sid && who.tier == w.accounts[id].tier && who.status == w.accounts[id].status
    && who.mfaEnrolled == w.accounts[id].mfaEnrolled
    && who.pendingMfaEnrolment == w.store.keys[sid].value.pendingMfaEnrolment
  }

  lemma AccessAdmitsIff(cfg: Config, w: World, t: Token, gate: Gate, durable: bool)
    requires WorldInv(cfg, w) && t in w.mint.signed && t.Access?
    ensures var s := Authenticate(cfg, w, Some(t), gate, durable);
      && (s.out.Done? <==> w.now < t.exp && Meets(w, t.sid, t.sub, gate))
      && (s.out.Done? ==> Identifies(w, s.out.result, t.sid, t.sub))
  {
    assert TokenOk(w.store, w.mint, t);
  }

  /**
   * Main result. The access token an answer hands out is admitted after any run exactly while it has
   * not expired, its session is live and its account and session meet the gate; it then identifies
   * that session and the account as it is at the time.
   */
  lemma AccessIsGoodUntil(
    cfg: Config, w: World, e: Event, id: AdminId, es: seq<Event>, gate: Gate, durable: bool)
    requires cfg.Valid() && Reachable(cfg, w) && HandedOut(cfg, w, e).Some? && About(w, e, id)
    ensures var issued, later := HandedOut(cfg, w, e).value, Run(cfg, Apply(cfg, w, e), es);
      var s := Authenticate(cfg, later, Some(issued.access), gate, durable);
      && (s.out.Done? <==> later.now < w.now + cfg.accessTtl && Meets(later, issued.sid, id, gate))
      && (s.out.Done? ==> Identifies(later, s.out.result, issued.sid, id))
  {
    var w' := Apply(cfg, w, e);
    TokensAreGood(cfg, w, e, id);
    ReachableIsSound(cfg, w);
    StepKeeps(cfg, w, e);
    RunKeeps(cfg, w', es);
    AccessAdmitsIff(cfg, Run(cfg, w', es), HandedOut(cfg, w, e).value.access, gate, durable);
    HandsOutInPlace(cfg, w, e);
  }

  lemma HandsOutInPlace(cfg: Config, w: World, e: Event)
    requires HandedOut(cfg, w, e).Some?
    ensures Apply(cfg, w, e).now == w.now
  {
  }

  /** And the refresh token it hands out is accepted at once, and then refreshes the same session. */
  lemma RefreshIsGood(cfg: Config, w: World, e: Event, id: AdminId, durable: bool)
    requires cfg.Valid() && Reachable(cfg, w) && HandedOut(cfg, w, e).Some? && About(w, e, id)
    ensures var s := RefreshSession(cfg, Apply(cfg, w, e), HandedOut(cfg, w, e).value.refresh, durable);
      s.out.Done? && s.out.result.sid == HandedOut(cfg, w, e).value.sid
  {
    TokensAreGood(cfg, w, e, id);
    ReachableIsSound(cfg, w);
    StepKeeps(cfg, w, e);
    CurrentTokenIsAccepted(cfg, Apply(cfg, w, e), HandedOut(cfg, w, e).value.sid, durable);
    assert KeyOk(cfg, Apply(cfg, w, e).store, w.now, Apply(cfg, w, e).mint, HandedOut(cfg, w, e).value.sid);
  }

  // ── Which answer ──────────────────────────────────────────────────────────

  /** A right password, and nothing else in the way. */
  predicate MaySignIn(w: World, id: AdminId, ok: bool) {
    ok && id in w.accounts && !Locked(w.lockouts, id, w.now) && w.accounts[id].status != Suspended
  }

  /**
   * An enrolled account is challenged; one not enrolled is let in, scoped exactly when its tier needs
   * the second factor.
   */
  lemma LoginAnswers(cfg: Config, w: World, id: AdminId, ok: bool, durable: bool)
    ensures var out := Login(cfg, w, id, ok, durable).out;
      && (out.Done? <==> MaySignIn(w, id, ok))
      && (out.Done? ==> (out.result.Challenged? <==> w.accounts[id].mfaEnrolled))
      && (out.Done? && !out.result.Challenged? ==>
            (out.result.MustEnrol? <==> MfaRequiredForTier(cfg, w.accounts[id].tier)))
      && (out == Refused(AccountIsSuspended) <==>
            ok && id in w.accounts && !Locked(w.lockouts, id, w.now) && w.accounts[id].status == Suspended)
      && (out == Refused(InvalidCredentials) <==> id !in w.accounts || (!ok && !Locked(w.lockouts, id, w.now)))
  {
  }

  /** A lock is reported with the seconds after which, untouched, it is over, and not one sooner. */
  lemma LockIsTimed(cfg: Config, w: World, id: AdminId, ok: bool, durable: bool, wait: nat, retry: bool)
    requires Login(cfg, w, id, ok, durable).out.Refused? && Login(cfg, w, id, ok, durable).out.refusal.AccountLocked?
    ensures Login(cfg, w, id, ok, durable).world == w
    ensures var later := Login(cfg, Apply(cfg, w, Tick(wait)), id, retry, durable).out;
      (later.Refused? && later.refusal.AccountLocked?)
        <==> wait < Login(cfg, w, id, ok, durable).out.refusal.retryAfterSeconds
  {
  }

  /** What a session that still owes the second factor is good for: gates that allow it, after any run. */
  lemma ScopedStaysScoped(
    cfg: Config, w: World, id: AdminId, durable: bool, es: seq<Event>, gate: Gate, later: World)
    requires cfg.Valid() && Reachable(cfg, w) && HandedOut(cfg, w, EvLogin(id, true, durable)).Some?
    requires later == Run(cfg, Apply(cfg, w, EvLogin(id, true, durable)), es)
    ensures var out := Login(cfg, w, id, true, durable).out;
      var issued := HandedOut(cfg, w, EvLogin(id, true, durable)).value;
      LiveFor(later, issued.sid, id) ==>
        (later.store.keys[issued.sid].value.pendingMfaEnrolment <==> out.result.MustEnrol?)
  {
    var e := EvLogin(id, true, durable);
    var w', sid := Apply(cfg, w, e), HandedOut(cfg, w, e).value.sid;
    TokensAreGood(cfg, w, e, id);
    ReachableIsSound(cfg, w);
    StepKeeps(cfg, w, e);
    RunKeeps(cfg, w', es);
    assert NotRevived(w'.store, w'.now, later.store, later.now, sid);
  }

  /** A signed-in account has no failures and no lock left. */
  lemma SignInClears(cfg: Config, w: World, e: Event, id: AdminId)
    requires HandedOut(cfg, w, e).Some? && About(w, e, id) && !e.EvRefresh?
    ensures var l, l' := w.lockouts, Apply(cfg, w, e).lockouts;
      && id !in l'.failures && id !in l'.locks
      && l'.failures - {id} == l.failures - {id} && l'.locks - {id} == l.locks - {id}
  {
  }

  /** The code is asked for within five minutes of the challenge: to the second. */
  lemma ChallengeLasts(cfg: Config, w: World, id: AdminId, durable: bool, wait: nat, ch: nat)
    requires Login(cfg, w, id, true, durable).out == Done(Challenged(ch)) && w.accounts[id].mfaSecret.Some?
    ensures var later := Apply(cfg, Login(cfg, w, id, true, durable).world, Tick(wait));
      CompleteMfa(cfg, later, ch, true, durable).out.Done? <==> wait < 300
  {
  }

  /** A code completes a sign-in exactly on a held challenge of an account with a secret that is not suspended. */
  lemma CompletionAnswers(cfg: Config, w: World, ch: nat, ok: bool, durable: bool)
    ensures var out := CompleteMfa(cfg, w, ch, ok, durable).out;
      var open := Held(w.challenges, ch, w.now) && w.challenges[ch].value in w.accounts
        && w.accounts[w.challenges[ch].value].mfaSecret.Some?;
      && (out.Done? <==> open && ok && w.accounts[w.challenges[ch].value].status != Suspended)
      && (out == Refused(MfaInvalid) <==> !open || !ok)
  {
  }

  /** A refusal of a token says whether it ran out or was never good for this use. */
  lemma TokenAnswers(cfg: Config, w: World, t: Token, gate: Gate, durable: bool)
    ensures var request := Authenticate(cfg, w, Some(t), gate, durable).out;
      var refresh := RefreshSession(cfg, w, t, durable).out;
      && (request == Refused(ExpiredToken) <==> t in w.mint.signed && t.exp <= w.now)
      && (refresh == Refused(ExpiredToken) <==> t in w.mint.signed && t.exp <= w.now)
      && (request == Refused(BadToken) <==> t !in w.mint.signed || (w.now < t.exp && t.Refresh?))
      && (refresh == Refused(BadToken) <==> t !in w.mint.signed || (w.now < t.exp && t.Access?))
  {
  }

  /**
   * And once the token is accepted, what stands in the way is named, the session before the account
   * before the gate.
   */
  lemma RequestAnswers(cfg: Config, w: World, t: Token, gate: Gate, durable: bool)
    requires VerifyAccess(w.mint, t, w.now) == Accepted
    ensures var out := Authenticate(cfg, w, Some(t), gate, durable).out;
      var live := IsLive(w.store, w.now, t.sid);
      var known := live && t.sub in w.accounts;
      && (out == Refused(SessionExpired) <==>
            Held(w.store.keys, t.sid, w.now) && w.store.keys[t.sid].value.absoluteExpiresAt <= w.now)
      && (out == Refused(SessionRevoked) <==> !Held(w.store.keys, t.sid, w.now) || (live && t.sub !in w.accounts))
      && (out == Refused(AccountIsSuspended) <==> known && w.accounts[t.sub].status == Suspended)
      && (out == Refused(ActivationRequired) <==>
            known && w.accounts[t.sub].status == Pending && !gate.allowPendingActivation)
      && (out == Refused(MfaRequired) <==>
            && known && w.store.keys[t.sid].value.pendingMfaEnrolment && !gate.allowPendingMfa
            && w.accounts[t.sub].status != Suspended
            && (w.accounts[t.sub].status == Pending ==> gate.allowPendingActivation))
  {
  }
}
