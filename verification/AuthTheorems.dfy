/**
 * The promises of the session engine, over every run: revocation is complete and final, refresh
 * tokens are single use, two clocks bound every session, histories agree, and every session has a
 * provenance.
 */
module AuthTheorems {
  import opened Prelude
  import opened Settings
  import opened Tokens
  import opened Sessions
  import opened SessionInvariants
  import opened Lockout
  import opened Accounts
  import opened AuthMachine
  import opened AuthRuns

  predicate LiveFor(w: World, sid: SessionId, id: AdminId) {
    IsLive(w.store, w.now, sid) && w.store.keys[sid].value.adminId == id
  }

  // ── Revocation is complete ────────────────────────────────────────────────

  /** Every live session is in its owner's index set, and that set outlasts it. */
  lemma LiveSessionsAreIndexed(cfg: Config, w: World, sid: SessionId)
    requires cfg.Valid() && Reachable(cfg, w) && IsLive(w.store, w.now, sid)
    ensures var id := w.store.keys[sid].value.adminId;
            && sid in Members(w.store.index, id, w.now)
            && w.store.keys[sid].value.absoluteExpiresAt <= w.store.index[id].deadline
  {
    ReachableIsSound(cfg, w);
    assert LiveOk(w.store, w.now, sid);
  }

  /** "Sign out everywhere" leaves that admin nothing live and everybody else untouched. */
  lemma SignOutEverywhere(cfg: Config, w: World, id: AdminId, reason: EndReason, durable: bool)
    requires cfg.Valid() && Reachable(cfg, w)
    ensures forall sid, other :: LiveFor(DestroyAll(w, id, reason, durable), sid, other)
                            <==> LiveFor(w, sid, other) && other != id
  {
    ReachableIsSound(cfg, w);
    forall sid, other
      ensures LiveFor(DestroyAll(w, id, reason, durable), sid, other) <==> LiveFor(w, sid, other) && other != id
    {
      assert LiveOk(w.store, w.now, sid) && IndexOk(w.store, w.mint, id);
    }
  }

  /** Changing your password ends every session you hold but the one you keep. */
  lemma KeepsOneSession(cfg: Config, w: World, id: AdminId, keep: SessionId, hash: nat, durable: bool)
    requires cfg.Valid() && Reachable(cfg, w) && id in w.accounts
    ensures forall sid, other :: LiveFor(ChangePassword(w, id, keep, true, Some(hash), durable).world, sid, other)
                            <==> LiveFor(w, sid, other) && (other != id || sid == keep)
  {
    ReachableIsSound(cfg, w);
    forall sid, other
      ensures LiveFor(ChangePassword(w, id, keep, true, Some(hash), durable).world, sid, other)
         <==> LiveFor(w, sid, other) && (other != id || sid == keep)
    {
      assert LiveOk(w.store, w.now, sid) && IndexOk(w.store, w.mint, id);
    }
  }

  // ── Revocation is final ───────────────────────────────────────────────────

  /** A token is accepted only for a live session, and it names that session's owner. */
  lemma AcceptedMeansLive(cfg: Config, w: World, t: Token, gate: Gate, durable: bool)
    requires cfg.Valid() && WorldInv(cfg, w)
    ensures Authenticate(cfg, w, Some(t), gate, durable).out.Done? ==> LiveFor(w, t.sid, t.sub)
    ensures RefreshSession(cfg, w, t, durable).out.Done? ==> LiveFor(w, t.sid, t.sub)
  {
    if t in w.mint.signed {
      StepAdmits(cfg, w, t, true, durable);
      StepAdmits(cfg, w, t, false, durable);
    }
  }

  /** Once an issued session is not live, no run brings it back: no token naming it is accepted again. */
  lemma NeverAcceptedAgain(cfg: Config, w: World, t: Token, es: seq<Event>, gate: Gate, durable: bool)
    requires cfg.Valid() && WorldInv(cfg, w) && t.sid < w.mint.next && !IsLive(w.store, w.now, t.sid)
    ensures var later := Run(cfg, w, es);
            && Authenticate(cfg, later, Some(t), gate, durable).out.Refused?
            && RefreshSession(cfg, later, t, durable).out.Refused?
  {
    var later := Run(cfg, w, es);
    RunKeeps(cfg, w, es);
    assert NotRevived(w.store, w.now, later.store, later.now, t.sid);
    AcceptedMeansLive(cfg, later, t, gate, durable);
  }

  /** A request or a refresh that reaches the account check. */
  predicate Presents(cfg: Config, w: World, e: Event, t: Token) {
    && IsLive(w.store, w.now, t.sid)
    && match e
       case EvRequest(c, _, _) => c == Some(t) && VerifyAccess(w.mint, t, w.now) == Accepted
       case EvRefresh(r, _) => r == t && VerifyRefresh(w.mint, t, w.now) == Accepted
       case _ => false
  }

  /**
   * The first live-session request or refresh of a suspended admin kills every token that admin
   * was ever given, whatever happens next, reinstatement included.
   */
  lemma SuspensionIsFinal(
    cfg: Config, w: World, e: Event, t: Token, es: seq<Event>, u: Token, gate: Gate, durable: bool)
    requires cfg.Valid() && WorldInv(cfg, w) && Presents(cfg, w, e, t)
    requires t.sub in w.accounts && w.accounts[t.sub].status == Suspended
    requires u in w.mint.signed && u.sub == t.sub
    ensures var later := Run(cfg, Apply(cfg, w, e), es);
            && Authenticate(cfg, later, Some(u), gate, durable).out.Refused?
            && RefreshSession(cfg, later, u, durable).out.Refused?
  {
    StepKeeps(cfg, w, e);
    var w' := Apply(cfg, w, e);
    var touch := e.EvRequest?;
    var w1 := Got(cfg, w, t.sid, touch, e.durable);
    StepGets(cfg, w, t.sid, touch, e.durable);
    KeepsAllDestroyed(cfg, w1.store, w1.now, w1.mint, e.durable, t.sub, AccountSuspended);
    assert w' == DestroyAll(w1, t.sub, AccountSuspended, e.durable);
    assert TokenOk(w'.store, w'.mint, u);
    NeverAcceptedAgain(cfg, w', u, es, gate, durable);
  }

  /** A right password for an account not enrolled issues a session, scoped if its tier needs the second factor. */
  lemma PlainLogin(cfg: Config, w: World, id: AdminId, durable: bool)
    requires id in w.accounts && w.accounts[id].status != Suspended && !w.accounts[id].mfaEnrolled
    requires !Locked(w.lockouts, id, w.now)
    ensures Apply(cfg, w, EvLogin(id, true, durable)) ==
      Issue(cfg, w, id, false, MfaRequiredForTier(cfg, w.accounts[id].tier), durable).0
  {
  }

  lemma RunMore(cfg: Config, es: seq<Event>, e: Event)
    ensures Run(cfg, GENESIS, es + [e]) == Apply(cfg, Run(cfg, GENESIS, es), e)
  {
    assert (es + [e])[..|es|] == es;
  }

  /** The first sign-in of a new account gives a live session and two tokens naming it. */
  lemma FirstSignIn(cfg: Config, id: AdminId) returns (es: seq<Event>, w: World, issued: Issued)
    requires cfg.Valid()
    ensures w == Run(cfg, GENESIS, es) && w.now == 0
    ensures id in w.accounts && !w.accounts[id].mfaEnrolled && w.accounts[id].status == Active
    ensures id !in w.lockouts.failures && id !in w.lockouts.locks
    ensures issued.access.Access? && issued.refresh.Refresh? && issued.access.sub == issued.refresh.sub == id
    ensures issued.access.sid == issued.refresh.sid && IsLive(w.store, w.now, issued.access.sid)
    ensures VerifyAccess(w.mint, issued.access, w.now) == Accepted
    ensures VerifyRefresh(w.mint, issued.refresh, w.now) == Accepted
  {
    var create, login := EvCreateAccount(id, 0, 0, Some(Active)), EvLogin(id, true, true);
    RunMore(cfg, [], create);
    RunMore(cfg, [create], login);
    assert [] + [create] == [create];
    es := [create] + [login];
    var born := Run(cfg, GENESIS, [create]);
    assert born == GENESIS.(accounts := map[id := NewAccount(0, 0, Some(Active))]);
    PlainLogin(cfg, born, id, true);
    issued := Issue(cfg, born, id, false, MfaRequiredForTier(cfg, 0), true).1;
    w := Run(cfg, GENESIS, es);
  }

  /**
   * The situation is real: between the commit of a suspension and the cut of the sessions, under
   * every configuration, there is a suspended admin with a live session and both of its tokens.
   */
  lemma SuspendedWithLiveSession(cfg: Config, id: AdminId, actor: AdminId, gate: Gate)
    returns (w: World, access: Token, refresh: Token)
    requires cfg.Valid()
    ensures Reachable(cfg, w) && WorldInv(cfg, w) && access.sub == refresh.sub == id
    ensures id in w.accounts && w.accounts[id].status == Suspended
    ensures Presents(cfg, w, EvRequest(Some(access), gate, true), access)
    ensures Presents(cfg, w, EvRefresh(refresh, true), refresh)
  {
    var es, live, issued := FirstSignIn(cfg, id);
    RunMore(cfg, es, EvSuspend(actor, id));
    w := Run(cfg, GENESIS, es + [EvSuspend(actor, id)]);
    access, refresh := issued.access, issued.refresh;
    ReachableIsSound(cfg, w);
  }

  // ── One refresh token at a time ───────────────────────────────────────────

  predicate MayRefresh(w: World, sid: SessionId) {
    && IsLive(w.store, w.now, sid)
    && w.store.keys[sid].value.adminId in w.accounts
    && w.accounts[w.store.keys[sid].value.adminId].status != Suspended
  }

  function CurrentToken(w: World, sid: SessionId): Token
    requires sid in w.store.keys
  {
    w.store.keys[sid].value.refreshTokenHash.token
  }

  /** Of all the refresh tokens ever signed for a live session, the current one is accepted. */
  lemma CurrentTokenIsAccepted(cfg: Config, w: World, sid: SessionId, durable: bool)
    requires cfg.Valid() && WorldInv(cfg, w) && MayRefresh(w, sid)
    ensures RefreshSession(cfg, w, CurrentToken(w, sid), durable).out.Done?
  {
    var t := CurrentToken(w, sid);
    assert KeyOk(cfg, w.store, w.now, w.mint, sid);
    assert TokenOk(w.store, w.mint, t);
  }

  /** Every other one is reported as reuse and takes the session with it. */
  lemma SupersededTokenKills(cfg: Config, w: World, t: Token, durable: bool)
    requires cfg.Valid() && WorldInv(cfg, w) && MayRefresh(w, t.sid)
    requires t in w.mint.signed && t.Refresh? && t != CurrentToken(w, t.sid)
    ensures RefreshSession(cfg, w, t, durable).out == Refused(RefreshReused)
    ensures !IsLive(RefreshSession(cfg, w, t, durable).world.store, w.now, t.sid)
  {
    assert TokenOk(w.store, w.mint, t);
  }

  lemma ExactlyOneRefreshToken(cfg: Config, w: World, sid: SessionId, t: Token, durable: bool)
    requires cfg.Valid() && Reachable(cfg, w) && MayRefresh(w, sid)
    requires t in w.mint.signed && t.Refresh? && t.sid == sid
    ensures RefreshSession(cfg, w, t, durable).out.Done? <==> t == CurrentToken(w, sid)
    ensures CurrentToken(w, sid) in w.mint.signed && CurrentToken(w, sid).sid == sid
    ensures t != CurrentToken(w, sid) ==> !IsLive(RefreshSession(cfg, w, t, durable).world.store, w.now, sid)
  {
    ReachableIsSound(cfg, w);
    assert KeyOk(cfg, w.store, w.now, w.mint, sid);
    if t == CurrentToken(w, sid) {
      CurrentTokenIsAccepted(cfg, w, sid, durable);
    } else {
      SupersededTokenKills(cfg, w, t, durable);
    }
  }

  /** A successful refresh hands over to the token it returns; replaying the old one ends the session. */
  lemma RefreshHandsOver(cfg: Config, w: World, t: Token, durable: bool)
    requires cfg.Valid() && Reachable(cfg, w) && RefreshSession(cfg, w, t, durable).out.Done?
    ensures var s := RefreshSession(cfg, w, t, durable);
            && IsLive(s.world.store, s.world.now, t.sid)
            && s.out.result.refresh == CurrentToken(s.world, t.sid) != t
            && s.world.store.keys[t.sid].deadline == w.store.keys[t.sid].deadline
            && RefreshSession(cfg, s.world, s.out.result.refresh, durable).out.Done?
            && RefreshSession(cfg, s.world, t, durable).out == Refused(RefreshReused)
  {
    ReachableIsSound(cfg, w);
    StepRefreshes(cfg, w, t, durable);
    AcceptedMeansLive(cfg, w, t, Gate(false, false), durable);
    assert TokenOk(w.store, w.mint, t);
    var s := RefreshSession(cfg, w, t, durable);
    CurrentTokenIsAccepted(cfg, s.world, t.sid, durable);
    SupersededTokenKills(cfg, s.world, t, durable);
  }

  // ── The durable history agrees with the live store ────────────────────────

  /** An ended row never belongs to a live session, and its first reason is its last. */
  lemma EndedRowsStayEnded(cfg: Config, w: World, sid: SessionId, es: seq<Event>)
    requires cfg.Valid() && Reachable(cfg, w) && sid in w.store.rows && w.store.rows[sid].ended.Some?
    ensures !IsLive(w.store, w.now, sid)
    ensures var later := Run(cfg, w, es);
            && sid in later.store.rows && later.store.rows[sid].ended == w.store.rows[sid].ended
            && !IsLive(later.store, later.now, sid)
  {
    ReachableIsSound(cfg, w);
    assert LiveOk(w.store, w.now, sid);
    RunKeeps(cfg, w, es);
    var later := Run(cfg, w, es);
    assert RowKept(w.store, later.store, sid) && NotRevived(w.store, w.now, later.store, later.now, sid);
  }

  // ── Two clocks ────────────────────────────────────────────────────────────

  datatype Ages = Ages(born: int, touched: int)

  /** A request naming the session, admitted past the session lookup, refreshes its idle window. */
  predicate Touches(w: World, e: Event, sid: SessionId) {
    && e.EvRequest? && e.credential.Some? && e.credential.value.sid == sid
    && VerifyAccess(w.mint, e.credential.value, w.now) == Accepted
    && IsLive(w.store, w.now, sid)
  }

  /** When a run issued a session and when it last touched it, read off the events alone. */
  function AgesOf(cfg: Config, es: seq<Event>, sid: SessionId): Option<Ages> {
    if es == [] then None
    else
      var front, e := es[..|es| - 1], es[|es| - 1];
      var w := Run(cfg, GENESIS, front);
      var before := AgesOf(cfg, front, sid);
      if before.None? then
        if sid in Apply(cfg, w, e).store.keys then Some(Ages(w.now, w.now)) else None
      else if Touches(w, e, sid) then Some(before.value.(touched := w.now))
      else before
  }

  /** Only a successful sign-in stores a new session; a touch is the only thing that moves a deadline. */
  ghost predicate KeyMoves(cfg: Config, w: World, e: Event, w': World, sid: SessionId) {
    var keys, keys' := w.store.keys, w'.store.keys;
    sid in keys' ==>
      if sid in keys then
        && keys'[sid].deadline == (if Touches(w, e, sid) then w.now + cfg.idleTtl else keys[sid].deadline)
        && SameSession(keys'[sid].value, keys[sid].value)
      else
        && keys'[sid].deadline == w.now + cfg.idleTtl && keys'[sid].value.startedAt == w.now
        && MintedBy(cfg, w, e, keys'[sid].value)
  }

  /** What was true of the account at the moment a session was issued. */
  predicate MintedBy(cfg: Config, w: World, e: Event, r: SessionRecord) {
    match e
    case EvLogin(id, ok, _) =>
      && ok && r.adminId == id && id in w.accounts && w.accounts[id].status != Suspended
      && !r.mfaUsed && !w.accounts[id].mfaEnrolled && r.tier == w.accounts[id].tier
      && (r.pendingMfaEnrolment <==> MfaRequiredForTier(cfg, w.accounts[id].tier))
    case EvCompleteMfa(ch, ok, _) =>
      && ok && Held(w.challenges, ch, w.now) && r.adminId == w.challenges[ch].value
      && r.adminId in w.accounts && w.accounts[r.adminId].mfaSecret.Some?
      && w.accounts[r.adminId].status != Suspended
      && r.mfaUsed && !r.pendingMfaEnrolment && r.tier == w.accounts[r.adminId].tier
    case _ => false
  }

  lemma GetMoves(cfg: Config, st: Store, now: int, durable: bool, read: SessionId, touch: bool, sid: SessionId)
    ensures var keys' := AfterGet(cfg, st, now, durable, read, touch).keys;
            sid in keys' ==>
              && sid in st.keys && keys'[sid].value == st.keys[sid].value
              && keys'[sid].deadline ==
                if touch && sid == read && IsLive(st, now, sid) then now + cfg.idleTtl else st.keys[sid].deadline
  {
  }

  lemma AdmissionMoves(cfg: Config, w: World, t: Token, touch: bool, durable: bool, sid: SessionId)
    ensures var keys, keys' := w.store.keys, Admission(cfg, w, t, touch, durable).world.store.keys;
            sid in keys' ==>
              && sid in keys && keys'[sid].value == keys[sid].value
              && keys'[sid].deadline ==
                if touch && sid == t.sid && IsLive(w.store, w.now, sid) then w.now + cfg.idleTtl else keys[sid].deadline
  {
    GetMoves(cfg, w.store, w.now, durable, t.sid, touch, sid);
    var got := AfterGet(cfg, w.store, w.now, durable, t.sid, touch);
    var after := Admission(cfg, w, t, touch, durable).world.store;
    assert sid in after.keys ==> sid in got.keys && after.keys[sid] == got.keys[sid];
  }

  lemma RequestMoves(cfg: Config, w: World, e: Event, sid: SessionId)
    requires e.EvRequest?
    ensures KeyMoves(cfg, w, e, Authenticate(cfg, w, e.credential, e.gate, e.durable).world, sid)
  {
    if e.credential.Some? && VerifyAccess(w.mint, e.credential.value, w.now) == Accepted {
      var t := e.credential.value;
      AdmissionMoves(cfg, w, t, true, e.durable, sid);
      assert Authenticate(cfg, w, e.credential, e.gate, e.durable).world.store.keys
          == Admission(cfg, w, t, true, e.durable).world.store.keys;
    }
  }

  lemma RefreshMoves(cfg: Config, w: World, e: Event, sid: SessionId)
    requires e.EvRefresh?
    ensures KeyMoves(cfg, w, e, RefreshSession(cfg, w, e.token, e.durable).world, sid)
  {
    AdmissionMoves(cfg, w, e.token, false, e.durable, sid);
  }

  lemma LoginMoves(cfg: Config, w: World, e: Event, sid: SessionId)
    requires e.EvLogin? && w.mint.next !in w.store.keys
    ensures KeyMoves(cfg, w, e, Login(cfg, w, e.id, e.ok, e.durable).world, sid)
  {
  }

  lemma CompletionMoves(cfg: Config, w: World, e: Event, sid: SessionId)
    requires e.EvCompleteMfa? && w.mint.next !in w.store.keys
    ensures KeyMoves(cfg, w, e, CompleteMfa(cfg, w, e.ch, e.ok, e.durable).world, sid)
  {
  }

  lemma OtherMoves(cfg: Config, w: World, e: Event, sid: SessionId)
    requires !e.EvRequest? && !e.EvRefresh? && !e.EvLogin? && !e.EvCompleteMfa?
    ensures sid in Apply(cfg, w, e).store.keys ==>
      sid in w.store.keys && Apply(cfg, w, e).store.keys[sid] == w.store.keys[sid]
  {
  }

  lemma StepMoves(cfg: Config, w: World, e: Event, sid: SessionId)
    requires cfg.Valid() && WorldInv(cfg, w)
    ensures KeyMoves(cfg, w, e, Apply(cfg, w, e), sid)
  {
    assert KeyOk(cfg, w.store, w.now, w.mint, w.mint.next);
    match e
    case EvRequest(_, _, _) => RequestMoves(cfg, w, e, sid);
    case EvRefresh(_, _) => RefreshMoves(cfg, w, e, sid);
    case EvLogin(_, _, _) => LoginMoves(cfg, w, e, sid);
    case EvCompleteMfa(_, _, _) => CompletionMoves(cfg, w, e, sid);
    case _ => OtherMoves(cfg, w, e, sid);
  }

  lemma {:induction false} AgesAgree(cfg: Config, es: seq<Event>, sid: SessionId)
    requires cfg.Valid()
    ensures var w := Run(cfg, GENESIS, es);
            sid in w.store.keys ==>
              && AgesOf(cfg, es, sid).Some?
              && w.store.keys[sid].value.absoluteExpiresAt == AgesOf(cfg, es, sid).value.born + cfg.absoluteTtl
              && w.store.keys[sid].deadline == AgesOf(cfg, es, sid).value.touched + cfg.idleTtl
    ensures AgesOf(cfg, es, sid).Some? ==> sid < Run(cfg, GENESIS, es).mint.next
  {
    if es != [] {
      var front, e := es[..|es| - 1], es[|es| - 1];
      var w := Run(cfg, GENESIS, front);
      AgesAgree(cfg, front, sid);
      RunKeeps(cfg, GENESIS, front);
      RunKeeps(cfg, GENESIS, es);
      StepKeeps(cfg, w, e);
      StepMoves(cfg, w, e, sid);
      var w' := Apply(cfg, w, e);
      assert KeyOk(cfg, w'.store, w'.now, w'.mint, sid);
      if sid < w.mint.next { assert NotRevived(w.store, w.now, w'.store, w'.now, sid); }
      assert KeyOk(cfg, w.store, w.now, w.mint, sid);
    }
  }

  /**
   * A token is accepted only before its session's birth plus the absolute cap, and less than the
   * idle window after the last request that touched it. Refreshes touch nothing.
   */
  lemma TwoClocks(cfg: Config, es: seq<Event>, t: Token, gate: Gate, durable: bool)
    requires cfg.Valid()
    ensures var w := Run(cfg, GENESIS, es);
            Authenticate(cfg, w, Some(t), gate, durable).out.Done? || RefreshSession(cfg, w, t, durable).out.Done? ==>
              && AgesOf(cfg, es, t.sid).Some?
              && w.now < AgesOf(cfg, es, t.sid).value.born + cfg.absoluteTtl
              && w.now < AgesOf(cfg, es, t.sid).value.touched + cfg.idleTtl
  {
    var w := Run(cfg, GENESIS, es);
    RunKeeps(cfg, GENESIS, es);
    AcceptedMeansLive(cfg, w, t, gate, durable);
    AgesAgree(cfg, es, t.sid);
  }

  /** What a request needs apart from a live session: a valid token, and an account its gate accepts. */
  predicate OtherwiseAdmitted(w: World, t: Token, gate: Gate)
    requires t.sid in w.store.keys
  {
    && VerifyAccess(w.mint, t, w.now) == Accepted && t.sub in w.accounts && w.accounts[t.sub].status != Suspended
    && (w.accounts[t.sub].status == Pending ==> gate.allowPendingActivation)
    && (w.store.keys[t.sid].value.pendingMfaEnrolment ==> gate.allowPendingMfa)
  }

  /** And nothing else ends a session: until its key is deleted, only the two clocks decide a request. */
  lemma OnlyTwoClocks(cfg: Config, es: seq<Event>, t: Token, gate: Gate, durable: bool)
    requires cfg.Valid() && t.sid in Run(cfg, GENESIS, es).store.keys
    requires OtherwiseAdmitted(Run(cfg, GENESIS, es), t, gate)
    ensures var w := Run(cfg, GENESIS, es);
            && AgesOf(cfg, es, t.sid).Some?
            && (Authenticate(cfg, w, Some(t), gate, durable).out.Done? <==>
                  && w.now < AgesOf(cfg, es, t.sid).value.born + cfg.absoluteTtl
                  && w.now < AgesOf(cfg, es, t.sid).value.touched + cfg.idleTtl)
  {
    AgesAgree(cfg, es, t.sid);
  }

  // ── Where sessions come from ──────────────────────────────────────────────

  /**
   * Every stored session was issued by one event of the run: a right password for an account not
   * enrolled (scoped exactly when its tier requires the second factor), or a right code on a held
   * challenge of that account.
   */
  lemma {:induction false} SessionProvenance(cfg: Config, es: seq<Event>, sid: SessionId) returns (i: nat)
    requires cfg.Valid() && sid in Run(cfg, GENESIS, es).store.keys
    ensures i < |es|
    ensures MintedBy(cfg, Run(cfg, GENESIS, es[..i]), es[i], Run(cfg, GENESIS, es).store.keys[sid].value)
  {
    var front, e := es[..|es| - 1], es[|es| - 1];
    var w := Run(cfg, GENESIS, front);
    RunKeeps(cfg, GENESIS, front);
    StepMoves(cfg, w, e, sid);
    if sid in w.store.keys {
      i := SessionProvenance(cfg, front, sid);
      assert front[..i] == es[..i];
    } else {
      i := |es| - 1;
    }
  }

  /** A challenge that minted a session mints no other, in any run. */
  lemma ChallengeMintsOnce(cfg: Config, w: World, ch: nat, durable: bool, es: seq<Event>, ok: bool)
    requires cfg.Valid() && Reachable(cfg, w) && CompleteMfa(cfg, w, ch, true, durable).out.Done?
    ensures var later := Run(cfg, CompleteMfa(cfg, w, ch, true, durable).world, es);
            CompleteMfa(cfg, later, ch, ok, durable).out == Refused(MfaInvalid)
  {
    ReachableIsSound(cfg, w);
    StepCompletes(cfg, w, ch, true, durable);
    var w' := CompleteMfa(cfg, w, ch, true, durable).world;
    RunKeeps(cfg, w', es);
  }

  /** A wrong code leaves the challenge usable, unless the account or its secret is gone. */
  lemma WrongCodeKeepsChallengeIff(cfg: Config, w: World, ch: nat, durable: bool)
    requires Held(w.challenges, ch, w.now)
    ensures Held(CompleteMfa(cfg, w, ch, false, durable).world.challenges, ch, w.now)
       <==> w.challenges[ch].value in w.accounts && w.accounts[w.challenges[ch].value].mfaSecret.Some?
  {
  }
}
