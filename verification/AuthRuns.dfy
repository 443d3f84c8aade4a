/** What holds in every state of every run of the authentication machine. */
module AuthRuns {
  import opened Prelude
  import opened Settings
  import opened Tokens
  import opened Sessions
  import opened SessionInvariants
  import opened Lockout
  import opened Accounts
  import opened AuthMachine

  ghost predicate WorldInv(cfg: Config, w: World) {
    && Inv(cfg, w.store, w.now, w.mint)
    && (forall ch :: ch in w.challenges ==> ch < w.mint.next)
    && (forall a: AdminId :: Sound(cfg, w.lockouts, a, w.now))
  }

  /** One step forward: time and identifiers only grow, no dead session comes back, endings stay. */
  ghost predicate Kept(w: World, w': World) {
    && w.now <= w'.now && w.mint.next <= w'.mint.next && w.mint.signed <= w'.mint.signed
    && Evolves(w.store, w.now, w.mint, w'.store, w'.now)
    && (forall ch :: ch in w'.challenges && ch < w.mint.next ==>
          ch in w.challenges && w'.challenges[ch] == w.challenges[ch])
  }

  lemma KeptTwice(w0: World, w1: World, w2: World)
    requires Kept(w0, w1) && Kept(w1, w2)
    ensures Kept(w0, w2)
  {
    EvolvesTwice(w0.store, w0.now, w0.mint, w1.store, w1.now, w1.mint, w2.store, w2.now);
  }

  lemma KeptSelf(w: World)
    ensures Kept(w, w)
  {
  }

  lemma StepIssues(cfg: Config, w: World, id: AdminId, mfaUsed: bool, pending: bool, durable: bool)
    requires cfg.Valid() && WorldInv(cfg, w) && id in w.accounts
    ensures var w' := Issue(cfg, w, id, mfaUsed, pending, durable).0; WorldInv(cfg, w') && Kept(w, w')
  {
    var (w', issued) := Issue(cfg, w, id, mfaUsed, pending, durable);
    var session := NewSession(issued.sid, id, w.accounts[id].tier, issued.refresh, mfaUsed, pending);
    KeepsCreated(cfg, w.store, w.now, w.mint, durable, session);
    KeepsSigned(cfg, w'.store, w.now, Signed(Advanced(Advanced(w.mint)), issued.refresh), issued.access);
    forall a: AdminId ensures Sound(cfg, w'.lockouts, a, w'.now) { assert Sound(cfg, w.lockouts, a, w.now); }
  }

  lemma StepFails(cfg: Config, w: World, id: AdminId, w': World)
    requires cfg.Valid() && WorldInv(cfg, w)
    requires w' == w.(lockouts := AfterFailure(cfg, w.lockouts, id, w.now), accounts := w'.accounts)
    ensures WorldInv(cfg, w') && Kept(w, w')
  {
    forall a: AdminId ensures Sound(cfg, w'.lockouts, a, w'.now) {
      assert Sound(cfg, w.lockouts, a, w.now);
      SoundAfterFailure(cfg, w.lockouts, a, id, w.now);
    }
  }

  /** A step that changes the session stores only. */
  lemma StepStores(cfg: Config, w: World, w': World)
    requires WorldInv(cfg, w) && w' == w.(store := w'.store, accounts := w'.accounts)
    requires Inv(cfg, w'.store, w.now, w.mint) && Evolves(w.store, w.now, w.mint, w'.store, w.now)
    ensures WorldInv(cfg, w') && Kept(w, w')
  {
  }

  lemma StepDestroys(
    cfg: Config, w: World, sids: set<SessionId>, id: AdminId, reason: EndReason, durable: bool, rows: Rows)
    requires WorldInv(cfg, w)
    ensures var w' := w.(store := Destroyed(w.store, w.now, durable, sids, id, reason), accounts := rows);
            WorldInv(cfg, w') && Kept(w, w')
  {
    KeepsDestroyed(cfg, w.store, w.now, w.mint, durable, sids, id, reason);
    StepStores(cfg, w, w.(store := Destroyed(w.store, w.now, durable, sids, id, reason), accounts := rows));
  }

  lemma StepDestroysAll(cfg: Config, w: World, id: AdminId, reason: EndReason, durable: bool, rows: Rows)
    requires WorldInv(cfg, w)
    ensures var w' := w.(store := AllDestroyed(w.store, w.now, durable, id, reason), accounts := rows);
            WorldInv(cfg, w') && Kept(w, w')
  {
    KeepsAllDestroyed(cfg, w.store, w.now, w.mint, durable, id, reason);
    StepStores(cfg, w, w.(store := AllDestroyed(w.store, w.now, durable, id, reason), accounts := rows));
  }

  lemma StepGets(cfg: Config, w: World, sid: SessionId, touch: bool, durable: bool)
    requires WorldInv(cfg, w)
    ensures WorldInv(cfg, Got(cfg, w, sid, touch, durable)) && Kept(w, Got(cfg, w, sid, touch, durable))
  {
    KeepsGet(cfg, w.store, w.now, w.mint, durable, sid, touch);
    StepStores(cfg, w, Got(cfg, w, sid, touch, durable));
  }

  /** The shared admission checks; an admitted token's session is live, and it names its owner. */
  lemma StepAdmits(cfg: Config, w: World, t: Token, touch: bool, durable: bool)
    requires cfg.Valid() && WorldInv(cfg, w) && t in w.mint.signed
    ensures var s := Admission(cfg, w, t, touch, durable);
            && WorldInv(cfg, s.world) && Kept(w, s.world)
            && (s.out.Done? ==>
              && IsLive(w.store, w.now, t.sid) && IsLive(s.world.store, w.now, t.sid)
              && s.world.mint == w.mint && s.world.now == w.now
              && s.world.store.keys[t.sid].value == s.out.result.record == w.store.keys[t.sid].value
              && s.out.result.record.adminId == t.sub)
  {
    assert TokenOk(w.store, w.mint, t);
    var w1 := Got(cfg, w, t.sid, touch, durable);
    StepGets(cfg, w, t.sid, touch, durable);
    StepDestroys(cfg, w1, {t.sid}, t.sub, RevokedByAdmin, durable, w1.accounts);
    StepDestroysAll(cfg, w1, t.sub, AccountSuspended, durable, w1.accounts);
    KeptTwice(w, w1, Destroy(w1, t.sid, t.sub, RevokedByAdmin, durable));
    KeptTwice(w, w1, DestroyAll(w1, t.sub, AccountSuspended, durable));
  }

  lemma StepRefreshes(cfg: Config, w: World, t: Token, durable: bool)
    requires cfg.Valid() && WorldInv(cfg, w)
    ensures var w' := RefreshSession(cfg, w, t, durable).world; WorldInv(cfg, w') && Kept(w, w')
  {
    KeptSelf(w);
    if VerifyRefresh(w.mint, t, w.now) == Accepted {
      var admitted := Admission(cfg, w, t, false, durable);
      StepAdmits(cfg, w, t, false, durable);
      if admitted.out.Done? {
        var w1 := admitted.world;
        var next := RefreshTokenFor(cfg, w1.mint, w1.now, t.sub, t.sid);
        var w2 := w1.(
          mint := Signed(Advanced(w1.mint), next),
          store := AfterRotate(cfg, w1.store, w1.now, durable, t.sid, t, next));
        assert TokenOk(w1.store, w1.mint, t);
        KeepsRotate(cfg, w1.store, w1.now, w1.mint, durable, t.sub, t.sid, t);
        assert WorldInv(cfg, w2) && Kept(w1, w2);
        KeptTwice(w, w1, w2);
        StepDestroys(cfg, w2, {t.sid}, t.sub, RefreshReuseDetected, durable, w2.accounts);
        KeptTwice(w, w2, Destroy(w2, t.sid, t.sub, RefreshReuseDetected, durable));
        var access := AccessTokenFor(cfg, w2.now, t.sub, t.sid, admitted.out.result.account.tier);
        assert TokenOk(w2.store, w2.mint, t);
        KeepsSigned(cfg, w2.store, w2.now, w2.mint, access);
      }
    }
  }

  lemma StepAuthenticates(cfg: Config, w: World, token: Option<Token>, gate: Gate, durable: bool)
    requires cfg.Valid() && WorldInv(cfg, w)
    ensures var w' := Authenticate(cfg, w, token, gate, durable).world; WorldInv(cfg, w') && Kept(w, w')
  {
    KeptSelf(w);
    if token.Some? && VerifyAccess(w.mint, token.value, w.now) == Accepted {
      var t := token.value;
      StepAdmits(cfg, w, t, true, durable);
      var w1 := Admission(cfg, w, t, true, durable).world;
      var w2 := w1.(store := Seen(w1.store, w.now, durable, t.sid));
      if Admission(cfg, w, t, true, durable).out.Done? {
        KeepsSeen(cfg, w1.store, w.now, w1.mint, durable, t.sid);
        StepStores(cfg, w1, w2);
        KeptTwice(w, w1, w2);
      }
    }
  }

  lemma StepRevokes(cfg: Config, w: World, id: AdminId, sid: SessionId, durable: bool)
    requires WorldInv(cfg, w)
    ensures var w' := RevokeOwn(cfg, w, id, sid, durable).world; WorldInv(cfg, w') && Kept(w, w')
    ensures WorldInv(cfg, RevokeOne(w, id, sid, durable)) && Kept(w, RevokeOne(w, id, sid, durable))
  {
    var w1 := Got(cfg, w, sid, false, durable);
    StepGets(cfg, w, sid, false, durable);
    StepDestroys(cfg, w1, {sid}, id, RevokedByAdmin, durable, w1.accounts);
    KeptTwice(w, w1, Destroy(w1, sid, id, RevokedByAdmin, durable));
    var w2 := w.(store := Healed(w.store, w.now, id));
    KeepsHealed(cfg, w.store, w.now, w.mint, id);
    StepStores(cfg, w, w2);
    StepDestroys(cfg, w2, {sid}, id, RevokedByAdmin, durable, w2.accounts);
    KeptTwice(w, w2, Destroy(w2, sid, id, RevokedByAdmin, durable));
  }

  lemma StepSignsIn(cfg: Config, w: World, id: AdminId, ok: bool, durable: bool)
    requires cfg.Valid() && WorldInv(cfg, w)
    ensures var w' := Login(cfg, w, id, ok, durable).world; WorldInv(cfg, w') && Kept(w, w')
  {
    KeptSelf(w);
    if id in w.accounts && !Locked(w.lockouts, id, w.now) {
      if !ok {
        StepFails(cfg, w, id, FailedLogin(cfg, w, id));
      } else if w.accounts[id].status != Suspended {
        if MfaRequiredForTier(cfg, w.accounts[id].tier) && !w.accounts[id].mfaEnrolled {
          StepIssues(cfg, w, id, false, true, durable);
        } else if w.accounts[id].mfaEnrolled {
          KeepsAdvanced(cfg, w.store, w.now, w.mint);
        } else {
          StepIssues(cfg, w, id, false, false, durable);
        }
      }
    }
  }

  lemma StepCompletes(cfg: Config, w: World, ch: nat, ok: bool, durable: bool)
    requires cfg.Valid() && WorldInv(cfg, w)
    ensures var w' := CompleteMfa(cfg, w, ch, ok, durable).world; WorldInv(cfg, w') && Kept(w, w')
  {
    KeptSelf(w);
    if Held(w.challenges, ch, w.now) {
      var id := w.challenges[ch].value;
      var w1 := Consumed(w, ch);
      assert WorldInv(cfg, w1) && Kept(w, w1);
      if id in w.accounts && w.accounts[id].mfaSecret.Some? {
        if !ok {
          StepFails(cfg, w, id, w.(lockouts := AfterFailure(cfg, w.lockouts, id, w.now)));
        } else if w.accounts[id].status != Suspended {
          StepIssues(cfg, w1, id, true, false, durable);
          KeptTwice(w, w1, Issue(cfg, w1, id, true, false, durable).0);
        }
      }
    }
  }

  predicate EditsAccount(e: Event) {
    || e.EvSuspend? || e.EvReinstate? || e.EvSetTier? || e.EvResetPassword? || e.EvResetMfa?
    || e.EvEnrolMfa? || e.EvActivateAccount? || e.EvCreateAccount? || e.EvDeleteAccount?
  }

  predicate EndsSessions(e: Event) {
    e.EvSignOut? || e.EvSignOutAll? || e.EvCutSessions? || e.EvChangePassword? || e.EvListSessions?
  }

  /** Such a write leaves everything but the account rows alone. */
  lemma EditsRows(cfg: Config, w: World, e: Event)
    requires EditsAccount(e)
    ensures Apply(cfg, w, e) == w.(accounts := Apply(cfg, w, e).accounts)
  {
  }

  lemma StepRows(cfg: Config, w: World, rows: Rows)
    requires WorldInv(cfg, w)
    ensures WorldInv(cfg, w.(accounts := rows)) && Kept(w, w.(accounts := rows))
  {
    KeptSelf(w);
  }

  lemma StepEdits(cfg: Config, w: World, e: Event)
    requires WorldInv(cfg, w) && EditsAccount(e)
    ensures WorldInv(cfg, Apply(cfg, w, e)) && Kept(w, Apply(cfg, w, e))
  {
    EditsRows(cfg, w, e);
    StepRows(cfg, w, Apply(cfg, w, e).accounts);
  }

  lemma StepEnds(cfg: Config, w: World, e: Event)
    requires WorldInv(cfg, w) && EndsSessions(e)
    ensures WorldInv(cfg, Apply(cfg, w, e)) && Kept(w, Apply(cfg, w, e))
  {
    KeptSelf(w);
    match e
    case EvSignOut(id, sid, d) => StepDestroys(cfg, w, {sid}, id, Logout, d, w.accounts);
    case EvChangePassword(id, keep, ok, hash, d) =>
      StepDestroys(cfg, w, Members(w.store.index, id, w.now) - {keep}, id, PasswordReset, d, Apply(cfg, w, e).accounts);
    case EvListSessions(id) =>
      KeepsHealed(cfg, w.store, w.now, w.mint, id);
      StepStores(cfg, w, Apply(cfg, w, e));
    case EvSignOutAll(id, d) => StepDestroysAll(cfg, w, id, LogoutAll, d, w.accounts);
    case EvCutSessions(id, reason, d) => StepDestroysAll(cfg, w, id, reason, d, w.accounts);
  }

  lemma StepTicks(cfg: Config, w: World, n: nat)
    requires WorldInv(cfg, w)
    ensures WorldInv(cfg, w.(now := w.now + n)) && Kept(w, w.(now := w.now + n))
  {
    var later := w.now + n;
    Later(cfg, w.store, w.now, w.mint, later);
    forall a: AdminId ensures Sound(cfg, w.lockouts, a, later) {
      SoundLater(cfg, w.lockouts, a, w.now, later);
    }
  }

  /** Every operation keeps the invariant and never goes back on what it ended. */
  lemma StepKeeps(cfg: Config, w: World, e: Event)
    requires cfg.Valid() && WorldInv(cfg, w)
    ensures WorldInv(cfg, Apply(cfg, w, e)) && Kept(w, Apply(cfg, w, e))
  {
    if EditsAccount(e) {
      StepEdits(cfg, w, e);
    } else if EndsSessions(e) {
      StepEnds(cfg, w, e);
    } else {
      match e
      case Tick(n) => StepTicks(cfg, w, n);
      case EvLogin(id, ok, d) => StepSignsIn(cfg, w, id, ok, d);
      case EvCompleteMfa(ch, ok, d) => StepCompletes(cfg, w, ch, ok, d);
      case EvRefresh(t, d) => StepRefreshes(cfg, w, t, d);
      case EvRequest(t, gate, d) => StepAuthenticates(cfg, w, t, gate, d);
      case EvActivateMfa(id, ok) =>
        KeptSelf(w);
        StepFails(cfg, w, id, w.(lockouts := AfterFailure(cfg, w.lockouts, id, w.now)));
      case EvRevokeOwn(id, sid, d) => StepRevokes(cfg, w, id, sid, d);
      case EvRevokeOne(id, sid, d) => StepRevokes(cfg, w, id, sid, d);
    }
  }

  lemma {:induction false} RunKeeps(cfg: Config, w: World, es: seq<Event>)
    requires cfg.Valid() && WorldInv(cfg, w)
    ensures WorldInv(cfg, Run(cfg, w, es)) && Kept(w, Run(cfg, w, es))
  {
    if es == [] {
      KeptSelf(w);
    } else {
      var front := es[..|es| - 1];
      RunKeeps(cfg, w, front);
      StepKeeps(cfg, Run(cfg, w, front), es[|es| - 1]);
      KeptTwice(w, Run(cfg, w, front), Run(cfg, w, es));
    }
  }

  lemma ReachableIsSound(cfg: Config, w: World)
    requires cfg.Valid() && Reachable(cfg, w)
    ensures WorldInv(cfg, w)
  {
    var es :| Run(cfg, GENESIS, es) == w;
    RunKeeps(cfg, GENESIS, es);
  }
}
