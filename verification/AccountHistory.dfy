/**
 * What each event does to an account row, field by field, and what the second factor and the password
 * of an account say about the run (src/modules/admin-identity/domain/admin-auth.service.ts:164-655,
 * src/modules/admin-identity/repositories/admin-account.repository.ts).
 */
module AccountHistory {
  import opened Prelude
  import opened Settings
  import opened Tokens
  import opened Sessions
  import opened Lockout
  import opened Accounts
  import opened AuthMachine
  import opened AuthTheorems
  import opened SessionEndings

  // ── The second factor ─────────────────────────────────────────────────────

  /** A right code for the staged secret of an account not yet enrolled. */
  predicate Enrols(w: World, e: Event, id: AdminId) {
    && e == EvActivateMfa(id, true) && id in w.accounts
    && !w.accounts[id].mfaEnrolled && w.accounts[id].mfaSecret.Some?
  }

  /** Stages a secret for an account not yet enrolled. */
  predicate Stages(w: World, e: Event, id: AdminId) {
    e.EvEnrolMfa? && e.id == id && id in w.accounts && !w.accounts[id].mfaEnrolled
  }

  predicate Unenrols(e: Event, id: AdminId) { e == EvResetMfa(id) || e == EvDeleteAccount(id) }

  /** A confirmation of enrolment is answered as the account stands, and a wrong code changes no account. */
  lemma ActivationAnswers(cfg: Config, w: World, id: AdminId, ok: bool)
    ensures var s := ActivateMfa(cfg, w, id, ok);
      && (s.out.Done? <==> Enrols(w, EvActivateMfa(id, ok), id))
      && (s.out == Refused(MfaInvalid) <==>
            !ok && id in w.accounts && !w.accounts[id].mfaEnrolled && w.accounts[id].mfaSecret.Some?)
      && (s.out == Refused(MfaAlreadyEnrolled) <==> id in w.accounts && w.accounts[id].mfaEnrolled)
      && (s.out == Refused(AccountNotFound) <==> id !in w.accounts)
      && (s.out.Refused? ==> s.world.accounts == w.accounts)
  {
  }

  // ── One step, field by field ──────────────────────────────────────────────

  predicate Created(e: Event, id: AdminId) { e.EvCreateAccount? && e.id == id }

  /** The new hash of an account's password, if this event sets one. */
  function SetsHash(w: World, e: Event, id: AdminId): Option<nat> {
    match e
    case EvChangePassword(i, _, ok, hash, _) => if i == id && ok && id in w.accounts then hash else None
    case EvResetPassword(i, hash) => if i == id && id in w.accounts then Some(hash) else None
    case _ => None
  }

  /** A sign-in of this account that compared a wrong password. */
  predicate Misses(w: World, e: Event, id: AdminId) {
    e.EvLogin? && e.id == id && !e.ok && id in w.accounts && !Locked(w.lockouts, id, w.now)
  }

  predicate SignsIn(w: World, e: Event, id: AdminId) { Issues(w, e).Some? && Issues(w, e).value.0 == id }

  predicate CredentialsMove(w: World, e: Event, a: Account, b: Account, id: AdminId) {
    && b.mfaEnrolled == (if Enrols(w, e, id) then true else if Unenrols(e, id) then false else a.mfaEnrolled)
    && b.mfaSecret == (if Stages(w, e, id) then Some(e.secret) else if Unenrols(e, id) then None else a.mfaSecret)
    && b.passwordHash == (if SetsHash(w, e, id).Some? then SetsHash(w, e, id).value else a.passwordHash)
  }

  predicate StandingMoves(e: Event, a: Account, b: Account, id: AdminId) {
    var suspends, reinstates := e.EvSuspend? && e.id == id, e == EvReinstate(id);
    var activates := e.EvActivateAccount? && e.id == id && a.status == Pending;
    && b.status == (
         if suspends then Suspended
         else if reinstates then
           if a.suspendedFrom == Some(Pending) then Pending else Active
         else if activates then Active else a.status)
    && b.suspendedFrom == (if suspends then Some(a.status) else a.suspendedFrom)
    && b.suspendedBy == (if suspends then Some(e.actor) else if reinstates then None else a.suspendedBy)
    && b.activatedBy == (if activates then Some(e.actor) else a.activatedBy)
  }

  predicate TierMoves(e: Event, a: Account, b: Account, id: AdminId) {
    var moves := e.EvSetTier? && e.id == id && e.tier != a.tier;
    && b.tier == (if moves then e.tier else a.tier)
    && b.tierChangedBy == (if moves then Some(e.actor) else a.tierChangedBy)
  }

  predicate FailuresMove(cfg: Config, w: World, e: Event, a: Account, b: Account, id: AdminId) {
    var clears := SignsIn(w, e, id) || SetsHash(w, e, id).Some?;
    var n := Attempts(w.lockouts, id, w.now);
    && b.failedAttempts == (if Misses(w, e, id) then n else if clears then 0 else a.failedAttempts)
    && b.lockedUntil == (
         if Misses(w, e, id) then if n >= cfg.maxAttempts then Some(w.now + cfg.lockSeconds) else None
         else if clears then None else a.lockedUntil)
    && b.lastLoginAt == (if SignsIn(w, e, id) then Some(w.now) else a.lastLoginAt)
  }

  predicate IsNewAccount(e: Event, a: Account)
    requires e.EvCreateAccount?
  {
    && a.tier == e.tier && a.passwordHash == e.hash && a.status == (if e.status.Some? then e.status.value else Pending)
    && !a.mfaEnrolled && a.mfaSecret.None? && a.failedAttempts == 0 && a.lockedUntil.None? && a.lastLoginAt.None?
    && a.suspendedFrom.None? && a.suspendedBy.None? && a.activatedBy.None? && a.tierChangedBy.None?
  }

  predicate AccountMoves(cfg: Config, w: World, e: Event, w': World, id: AdminId) {
    if id in w.accounts then
      if e == EvDeleteAccount(id) then id !in w'.accounts
      else
        && id in w'.accounts
        && var a, b := w.accounts[id], w'.accounts[id];
        && CredentialsMove(w, e, a, b, id) && StandingMoves(e, a, b, id)
        && TierMoves(e, a, b, id) && FailuresMove(cfg, w, e, a, b, id)
    else
      && (id in w'.accounts <==> Created(e, id))
      && (id in w'.accounts ==> IsNewAccount(e, w'.accounts[id]))
  }

  predicate AboutSessions(e: Event) {
    || e.EvRefresh? || e.EvRequest? || e.EvSignOut? || e.EvSignOutAll? || e.EvRevokeOwn? || e.EvListSessions?
    || e.EvCutSessions? || e.EvRevokeOne? || e.Tick?
  }

  lemma UseMovesNoAccount(cfg: Config, w: World, e: Event)
    requires e.EvRefresh? || e.EvRequest?
    ensures Apply(cfg, w, e).accounts == w.accounts
  {
    if e.EvRefresh? {
      RefreshMovesNoAccount(cfg, w, e.token, e.durable);
    }
  }

  lemma RefreshMovesNoAccount(cfg: Config, w: World, t: Token, durable: bool)
    ensures RefreshSession(cfg, w, t, durable).world.accounts == w.accounts
  {
  }

  lemma SessionsMoveNoAccount(cfg: Config, w: World, e: Event)
    requires AboutSessions(e)
    ensures Apply(cfg, w, e).accounts == w.accounts
  {
    if e.EvRefresh? || e.EvRequest? {
      UseMovesNoAccount(cfg, w, e);
    }
  }

  lemma NothingMoves(cfg: Config, w: World, e: Event, w': World, id: AdminId)
    requires AboutSessions(e) && w'.accounts == w.accounts
    ensures AccountMoves(cfg, w, e, w', id)
  {
  }

  lemma LoginRows(cfg: Config, w: World, e: Event)
    requires e.EvLogin?
    ensures var n := Attempts(w.lockouts, e.id, w.now);
      Login(cfg, w, e.id, e.ok, e.durable).world.accounts ==
        if Misses(w, e, e.id) then
          w.accounts[e.id := FailureRecorded(w.accounts[e.id], n,
                               if n >= cfg.maxAttempts then Some(w.now + cfg.lockSeconds) else None)]
        else if SignsIn(w, e, e.id) then w.accounts[e.id := LoginRecorded(w.accounts[e.id], w.now)]
        else w.accounts
  {
  }

  lemma CompletionRows(cfg: Config, w: World, e: Event)
    requires e.EvCompleteMfa?
    ensures CompleteMfa(cfg, w, e.ch, e.ok, e.durable).world.accounts ==
      if Issues(w, e).Some? then
        var id := Issues(w, e).value.0;
        w.accounts[id := LoginRecorded(w.accounts[id], w.now)]
      else w.accounts
  {
  }

  lemma LoginMovesAccount(cfg: Config, w: World, e: Event, w': World, id: AdminId)
    requires e.EvLogin? && w'.accounts == Login(cfg, w, e.id, e.ok, e.durable).world.accounts
    ensures AccountMoves(cfg, w, e, w', id)
  {
    LoginRows(cfg, w, e);
  }

  lemma CompletionMovesAccount(cfg: Config, w: World, e: Event, w': World, id: AdminId)
    requires e.EvCompleteMfa? && w'.accounts == CompleteMfa(cfg, w, e.ch, e.ok, e.durable).world.accounts
    ensures AccountMoves(cfg, w, e, w', id)
  {
    CompletionRows(cfg, w, e);
  }

  predicate OnCredentials(e: Event) {
    e.EvActivateMfa? || e.EvEnrolMfa? || e.EvResetMfa? || e.EvChangePassword? || e.EvResetPassword?
  }

  lemma CredentialsMoveAccount(cfg: Config, w: World, e: Event, id: AdminId)
    requires OnCredentials(e)
    ensures AccountMoves(cfg, w, e, Apply(cfg, w, e), id)
  {
  }

  lemma StandingMovesAccount(cfg: Config, w: World, e: Event, id: AdminId)
    requires !AboutSessions(e) && !e.EvLogin? && !e.EvCompleteMfa? && !OnCredentials(e)
    ensures AccountMoves(cfg, w, e, Apply(cfg, w, e), id)
  {
  }

  /** Every field of every account row moves for its own events only, and to the value that event names. */
  lemma StepMovesAccount(cfg: Config, w: World, e: Event, id: AdminId)
    ensures AccountMoves(cfg, w, e, Apply(cfg, w, e), id)
  {
    if AboutSessions(e) {
      SessionsMoveNoAccount(cfg, w, e);
      NothingMoves(cfg, w, e, Apply(cfg, w, e), id);
    } else if e.EvLogin? {
      LoginMovesAccount(cfg, w, e, Apply(cfg, w, e), id);
    } else if e.EvCompleteMfa? {
      CompletionMovesAccount(cfg, w, e, Apply(cfg, w, e), id);
    } else if OnCredentials(e) {
      CredentialsMoveAccount(cfg, w, e, id);
    } else {
      StandingMovesAccount(cfg, w, e, id);
    }
  }

  // ── Over a run ────────────────────────────────────────────────────────────

  /** Event `i` confirmed enrolment with a right code, and no later one withdrew it. */
  ghost predicate EnrolledBy(cfg: Config, es: seq<Event>, i: nat, id: AdminId) {
    i < |es| && Enrols(Before(cfg, es, i), es[i], id) && forall j :: i < j < |es| ==> !Unenrols(es[j], id)
  }

  lemma EnrolledByMore(cfg: Config, es: seq<Event>, i: nat, id: AdminId)
    requires i < |es| - 1
    ensures EnrolledBy(cfg, es, i, id)
      <==> EnrolledBy(cfg, es[..|es| - 1], i, id) && !Unenrols(es[|es| - 1], id)
  {
    BeforeFront(cfg, es, i);
    var front := es[..|es| - 1];
    assert forall j :: 0 <= j < |front| ==> front[j] == es[j];
  }

  /**
   * Over every run, an account is enrolled exactly when some event confirmed the enrolment with a right
   * code for its staged secret and no reset, or removal of the account, came after.
   */
  lemma {:induction false} EnrolledIff(cfg: Config, es: seq<Event>, id: AdminId)
    ensures id in Run(cfg, GENESIS, es).accounts && Run(cfg, GENESIS, es).accounts[id].mfaEnrolled
      <==> exists i: nat :: EnrolledBy(cfg, es, i, id)
  {
    if es != [] {
      var front, last := es[..|es| - 1], |es| - 1;
      EnrolledIff(cfg, front, id);
      StepMovesAccount(cfg, Run(cfg, GENESIS, front), es[last], id);
      forall i: nat | i < last
        ensures EnrolledBy(cfg, es, i, id) <==> EnrolledBy(cfg, front, i, id) && !Unenrols(es[last], id)
      {
        EnrolledByMore(cfg, es, i, id);
      }
      assert EnrolledBy(cfg, es, last, id) <==> Enrols(Run(cfg, GENESIS, front), es[last], id);
    }
  }

  /** The hash an event gives an account: a new password, or the first one. */
  function Gives(w: World, e: Event, id: AdminId): Option<nat> {
    if id in w.accounts then SetsHash(w, e, id) else if Created(e, id) then Some(e.hash) else None
  }

  ghost predicate GivenLast(cfg: Config, es: seq<Event>, i: nat, id: AdminId, hash: nat) {
    && i < |es| && Gives(Before(cfg, es, i), es[i], id) == Some(hash)
    && forall j :: i < j < |es| ==> Gives(Before(cfg, es, j), es[j], id).None?
  }

  lemma HashMoves(cfg: Config, w: World, e: Event, id: AdminId)
    requires id in Apply(cfg, w, e).accounts
    ensures var hash := Apply(cfg, w, e).accounts[id].passwordHash;
      if Gives(w, e, id).Some? then Some(hash) == Gives(w, e, id)
      else id in w.accounts && hash == w.accounts[id].passwordHash
  {
    StepMovesAccount(cfg, w, e, id);
  }

  /** Over every run, the stored password is the one the last event to set it for this account gave. */
  lemma {:induction false} PasswordIsLastGiven(cfg: Config, es: seq<Event>, id: AdminId) returns (i: nat)
    requires id in Run(cfg, GENESIS, es).accounts
    ensures GivenLast(cfg, es, i, id, Run(cfg, GENESIS, es).accounts[id].passwordHash)
  {
    var front, last := es[..|es| - 1], |es| - 1;
    var w := Run(cfg, GENESIS, front);
    HashMoves(cfg, w, es[last], id);
    if Gives(w, es[last], id).Some? {
      i := last;
    } else {
      i := PasswordIsLastGiven(cfg, front, id);
      StillLastGiven(cfg, es, i, id, w.accounts[id].passwordHash);
    }
  }

  lemma StillLastGiven(cfg: Config, es: seq<Event>, i: nat, id: AdminId, hash: nat)
    requires es != [] && GivenLast(cfg, es[..|es| - 1], i, id, hash)
    requires Gives(Run(cfg, GENESIS, es[..|es| - 1]), es[|es| - 1], id).None?
    ensures GivenLast(cfg, es, i, id, hash)
  {
    BeforeFront(cfg, es, i);
    forall j | i < j < |es| ensures Gives(Before(cfg, es, j), es[j], id).None? {
      if j < |es| - 1 { BeforeFront(cfg, es, j); }
    }
  }

  // ── Changing one's own password, ending one's own session ─────────────────

  /** A change is refused for a wrong current password before the new one is looked at. */
  lemma ChangeAnswers(w: World, id: AdminId, keep: SessionId, ok: bool, hash: Option<nat>, durable: bool)
    ensures var s := ChangePassword(w, id, keep, ok, hash, durable);
      && (s.out.Done? <==> id in w.accounts && ok && hash.Some?)
      && (s.out == Refused(AccountNotFound) <==> id !in w.accounts)
      && (s.out == Refused(InvalidCredentials) <==> id in w.accounts && !ok)
      && (s.out.Refused? ==> s.world == w)
      && (s.out.Done? ==> s.out.result == |set sid | sid in Members(w.store.index, id, w.now) && sid != keep|)
  {
    assert Members(w.store.index, id, w.now) - {keep}
        == set sid | sid in Members(w.store.index, id, w.now) && sid != keep;
  }

  /** A caller ends a session exactly when it is live and the caller's; then it is gone, and only it. */
  lemma RevocationAnswers(cfg: Config, w: World, id: AdminId, sid: SessionId, durable: bool)
    ensures var s := RevokeOwn(cfg, w, id, sid, durable);
      && (s.out.Done? <==> LiveFor(w, sid, id))
      && (!s.out.Done? ==> s.out == Refused(SessionNotFound))
      && (s.out.Done? ==> sid !in s.world.store.keys)
      && (forall other, owner :: LiveFor(s.world, other, owner)
            <==> LiveFor(w, other, owner) && !(s.out.Done? && other == sid))
  {
  }
}
