/**
 * What the durable history says and why (src/modules/admin-identity/domain/session.service.ts:74-235,
 * admin-auth.service.ts, authenticate.middleware.ts): which event ends which session for which
 * reason, and that every row tells exactly that.
 */
module SessionEndings {
  import opened Prelude
  import opened Settings
  import opened Tokens
  import opened Sessions
  import opened SessionInvariants
  import opened Lockout
  import opened Accounts
  import opened AuthMachine
  import opened AuthRuns
  import opened AuthTheorems
  import opened SessionListing

  // ── Which event ends which session ────────────────────────────────────────

  /** The history database takes this event's writes. */
  predicate Writes(e: Event) {
    match e
    case EvLogin(_, _, d) => d
    case EvCompleteMfa(_, _, d) => d
    case EvRefresh(_, d) => d
    case EvRequest(_, _, d) => d
    case EvSignOut(_, _, d) => d
    case EvSignOutAll(_, d) => d
    case EvRevokeOwn(_, _, d) => d
    case EvChangePassword(_, _, _, _, d) => d
    case EvCutSessions(_, _, d) => d
    case EvRevokeOne(_, _, d) => d
    case _ => false
  }

  predicate OwnsRow(w: World, id: AdminId, sid: SessionId) { sid in w.store.rows && w.store.rows[sid].adminId == id }

  /** The token of a request or a refresh, if it verifies. */
  function Presented(w: World, e: Event): Option<Token> {
    match e
    case EvRequest(Some(t), _, _) => if VerifyAccess(w.mint, t, w.now) == Accepted then Some(t) else None
    case EvRefresh(t, _) => if VerifyRefresh(w.mint, t, w.now) == Accepted then Some(t) else None
    case _ => None
  }

  function If(c: bool, reason: EndReason): Option<EndReason> { if c then Some(reason) else None }

  /** Why the use of a valid token ends session `sid`, if it does. */
  function CauseOfUse(w: World, t: Token, refreshing: bool, sid: SessionId): Option<EndReason> {
    if PastCap(w, t.sid) then If(sid == t.sid, AbsoluteExpired)
    else if !IsLive(w.store, w.now, t.sid) then None
    else if t.sub !in w.accounts then If(sid == t.sid, RevokedByAdmin)
    else if w.accounts[t.sub].status == Suspended then If(OwnsRow(w, t.sub, sid), AccountSuspended)
    else If(refreshing && sid == t.sid && t != CurrentToken(w, sid), RefreshReuseDetected)
  }

  /** Why an event ends session `sid`, if it does. */
  function Cause(w: World, e: Event, sid: SessionId): Option<EndReason> {
    match e
    case EvSignOut(_, s, _) => If(sid == s, Logout)
    case EvSignOutAll(id, _) => If(OwnsRow(w, id, sid), LogoutAll)
    case EvCutSessions(id, reason, _) => If(OwnsRow(w, id, sid), reason)
    case EvRevokeOne(id, s, _) => If(sid == s && sid in Listed(w.store, w.now, id), RevokedByAdmin)
    case EvRevokeOwn(id, s, _) =>
      if sid == s && PastCap(w, sid) then Some(AbsoluteExpired) else If(sid == s && LiveFor(w, sid, id), RevokedByAdmin)
    case EvChangePassword(id, keep, ok, hash, _) =>
      If(id in w.accounts && ok && hash.Some? && sid != keep && sid in Members(w.store.index, id, w.now), PasswordReset)
    case _ =>
      match Presented(w, e)
      case None => None
      case Some(t) => CauseOfUse(w, t, e.EvRefresh?, sid)
  }

  /** A request of this session that its gate admits. */
  predicate SeenBy(cfg: Config, w: World, e: Event, sid: SessionId) {
    && e.EvRequest? && e.credential.Some? && e.credential.value.sid == sid
    && Authenticate(cfg, w, e.credential, e.gate, e.durable).out.Done?
  }

  // ── One step ──────────────────────────────────────────────────────────────

  /** An open row is ended now and for this cause, if there is one; an ended one keeps its ending. */
  predicate EndedFor(w: World, writes: bool, cause: Option<EndReason>, before: Option<Ending>, after: Option<Ending>) {
    if before.None? && writes && cause.Some? then after == Some(Ending(w.now, cause.value)) else after == before
  }

  ghost predicate RowTells(cfg: Config, w: World, e: Event, w': World, sid: SessionId)
    requires sid in w.store.rows
  {
    && sid in w'.store.rows
    && var row, row' := w.store.rows[sid], w'.store.rows[sid];
    && EndedFor(w, Writes(e), Cause(w, e, sid), row.ended, row'.ended)
    && row'.lastSeenAt == (if Writes(e) && SeenBy(cfg, w, e, sid) then w.now else row.lastSeenAt)
    && row' == row.(ended := row'.ended, lastSeenAt := row'.lastSeenAt)
  }

  /** What destroying some sessions does to one row, field by field. */
  predicate RowEnds(w: World, durable: bool, ends: bool, reason: EndReason, w': World, sid: SessionId)
    requires sid in w.store.rows
  {
    && sid in w'.store.rows
    && var row, row' := w.store.rows[sid], w'.store.rows[sid];
    && EndedFor(w, durable, If(ends, reason), row.ended, row'.ended)
    && row' == row.(ended := row'.ended)
  }

  lemma DestroyedEnds(
    w: World, durable: bool, sids: set<SessionId>, id: AdminId, reason: EndReason, w': World, sid: SessionId)
    requires sid in w.store.rows && w'.store.rows == Destroyed(w.store, w.now, durable, sids, id, reason).rows
    ensures RowEnds(w, durable, sid in sids, reason, w', sid)
  {
  }

  lemma AllDestroyedEnds(w: World, durable: bool, id: AdminId, reason: EndReason, w': World, sid: SessionId)
    requires sid in w.store.rows && w'.store.rows == AllDestroyed(w.store, w.now, durable, id, reason).rows
    ensures RowEnds(w, durable, OwnsRow(w, id, sid), reason, w', sid)
  {
  }

  lemma GotEnds(cfg: Config, w: World, read: SessionId, touch: bool, durable: bool, sid: SessionId)
    requires sid in w.store.rows
    ensures var ends := sid == read && PastCap(w, read);
      RowEnds(w, durable, ends, AbsoluteExpired, Got(cfg, w, read, touch, durable), sid)
  {
    if PastCap(w, read) {
      var id := w.store.keys[read].value.adminId;
      DestroyedEnds(w, durable, {read}, id, AbsoluteExpired, Got(cfg, w, read, touch, durable), sid);
    }
  }

  lemma AdmissionEnds(cfg: Config, w: World, t: Token, touch: bool, durable: bool, sid: SessionId)
    requires sid in w.store.rows
    ensures var w', cause := Admission(cfg, w, t, touch, durable).world, CauseOfUse(w, t, false, sid);
      RowEnds(w, durable, cause.Some?, if cause.Some? then cause.value else Logout, w', sid)
  {
    var w1, w' := Got(cfg, w, t.sid, touch, durable), Admission(cfg, w, t, touch, durable).world;
    GotEnds(cfg, w, t.sid, touch, durable, sid);
    if IsLive(w.store, w.now, t.sid) {
      assert w1.store.rows == w.store.rows && w1.accounts == w.accounts;
      if t.sub !in w.accounts {
        DestroyedEnds(w1, durable, {t.sid}, t.sub, RevokedByAdmin, w', sid);
      } else if w.accounts[t.sub].status == Suspended {
        AllDestroyedEnds(w1, durable, t.sub, AccountSuspended, w', sid);
      }
    }
  }

  lemma RequestTells(cfg: Config, w: World, e: Event, sid: SessionId)
    requires e.EvRequest? && sid in w.store.rows
    ensures RowTells(cfg, w, e, Authenticate(cfg, w, e.credential, e.gate, e.durable).world, sid)
  {
    if Presented(w, e).Some? {
      AdmissionEnds(cfg, w, e.credential.value, true, e.durable, sid);
    }
  }

  lemma RefreshTells(cfg: Config, w: World, e: Event, sid: SessionId)
    requires WorldInv(cfg, w) && e.EvRefresh? && sid in w.store.rows
    ensures RowTells(cfg, w, e, RefreshSession(cfg, w, e.token, e.durable).world, sid)
  {
    if Presented(w, e).Some? {
      var t := e.token;
      AdmissionEnds(cfg, w, t, false, e.durable, sid);
      var s := Admission(cfg, w, t, false, e.durable);
      if s.out.Done? {
        assert s.world == w;
        var next := RefreshTokenFor(cfg, w.mint, w.now, t.sub, t.sid);
        var w2 := w.(
          mint := Signed(Advanced(w.mint), next), store := AfterRotate(cfg, w.store, w.now, e.durable, t.sid, t, next));
        assert w2.store.rows == w.store.rows;
        assert Rotates(w.store, w.now, t.sid, t) <==> t == CurrentToken(w, t.sid);
        if !Rotates(w.store, w.now, t.sid, t) {
          DestroyedEnds(w2, e.durable, {t.sid}, t.sub, RefreshReuseDetected,
                        Destroy(w2, t.sid, t.sub, RefreshReuseDetected, e.durable), sid);
        }
      }
    }
  }

  predicate DestroysSessions(e: Event) {
    e.EvSignOut? || e.EvSignOutAll? || e.EvCutSessions? || e.EvChangePassword? || e.EvRevokeOne? || e.EvRevokeOwn?
  }

  lemma DestroyTells(cfg: Config, w: World, e: Event, sid: SessionId)
    requires DestroysSessions(e) && sid in w.store.rows
    ensures RowTells(cfg, w, e, Apply(cfg, w, e), sid)
  {
    var w' := Apply(cfg, w, e);
    match e
    case EvSignOut(id, s, d) => DestroyedEnds(w, d, {s}, id, Logout, w', sid);
    case EvSignOutAll(id, d) => AllDestroyedEnds(w, d, id, LogoutAll, w', sid);
    case EvCutSessions(id, reason, d) => AllDestroyedEnds(w, d, id, reason, w', sid);
    case EvRevokeOne(id, s, d) => RevokeOneTells(cfg, w, id, s, d, sid);
    case EvRevokeOwn(id, s, d) => RevokeOwnTells(cfg, w, id, s, d, sid);
    case EvChangePassword(_, _, _, _, _) => ChangeTells(cfg, w, e, sid);
  }

  lemma RevokeOneTells(cfg: Config, w: World, id: AdminId, s: SessionId, durable: bool, sid: SessionId)
    requires sid in w.store.rows
    ensures RowTells(cfg, w, EvRevokeOne(id, s, durable), RevokeOne(w, id, s, durable), sid)
  {
    if s in Listed(w.store, w.now, id) {
      DestroyedEnds(w, durable, {s}, id, RevokedByAdmin, RevokeOne(w, id, s, durable), sid);
    }
  }

  lemma ChangeTells(cfg: Config, w: World, e: Event, sid: SessionId)
    requires e.EvChangePassword? && sid in w.store.rows
    ensures RowTells(cfg, w, e, ChangePassword(w, e.id, e.sid, e.ok, e.newHash, e.durable).world, sid)
  {
    if e.id in w.accounts && e.ok && e.newHash.Some? {
      var doomed := Members(w.store.index, e.id, w.now) - {e.sid};
      var w' := ChangePassword(w, e.id, e.sid, e.ok, e.newHash, e.durable).world;
      DestroyedEnds(w, e.durable, doomed, e.id, PasswordReset, w', sid);
    }
  }

  lemma RevokeOwnTells(cfg: Config, w: World, id: AdminId, s: SessionId, durable: bool, sid: SessionId)
    requires sid in w.store.rows
    ensures RowTells(cfg, w, EvRevokeOwn(id, s, durable), RevokeOwn(cfg, w, id, s, durable).world, sid)
  {
    GotEnds(cfg, w, s, false, durable, sid);
    if LiveFor(w, s, id) {
      assert Got(cfg, w, s, false, durable) == w;
      DestroyedEnds(w, durable, {s}, id, RevokedByAdmin, RevokeOwn(cfg, w, id, s, durable).world, sid);
    }
  }

  lemma OtherTells(cfg: Config, w: World, e: Event, sid: SessionId)
    requires WorldInv(cfg, w) && !DestroysSessions(e) && !e.EvRequest? && !e.EvRefresh? && sid in w.store.rows
    ensures RowTells(cfg, w, e, Apply(cfg, w, e), sid)
  {
    assert sid < w.mint.next;
  }

  /** Every event leaves a row as it was, but for the ending it causes and the time it shows the session. */
  lemma StepTells(cfg: Config, w: World, e: Event, sid: SessionId)
    requires WorldInv(cfg, w) && sid in w.store.rows
    ensures RowTells(cfg, w, e, Apply(cfg, w, e), sid)
  {
    if e.EvRequest? {
      RequestTells(cfg, w, e, sid);
    } else if e.EvRefresh? {
      RefreshTells(cfg, w, e, sid);
    } else if DestroysSessions(e) {
      DestroyTells(cfg, w, e, sid);
    } else {
      OtherTells(cfg, w, e, sid);
    }
  }

  // ── The live store agrees ─────────────────────────────────────────────────

  /** The cause of an event is the end of the session: nothing else at this second stops it being live. */
  ghost predicate CauseIsEnd(w: World, e: Event, w': World, sid: SessionId) {
    w'.now == w.now && (IsLive(w'.store, w'.now, sid) <==> Cause(w, e, sid).None?)
  }

  lemma LiveRow(cfg: Config, w: World, sid: SessionId)
    requires WorldInv(cfg, w) && IsLive(w.store, w.now, sid) && sid in w.store.rows
    ensures var id := w.store.keys[sid].value.adminId;
      sid in Members(w.store.index, id, w.now) && forall other :: OwnsRow(w, other, sid) <==> other == id
    ensures forall other :: sid in Members(w.store.index, other, w.now) ==> other == w.store.keys[sid].value.adminId
    ensures sid < w.mint.next
  {
    assert LiveOk(w.store, w.now, sid) && KeyOk(cfg, w.store, w.now, w.mint, sid);
    forall other ensures sid in Members(w.store.index, other, w.now) ==> other == w.store.keys[sid].value.adminId {
      assert IndexOk(w.store, w.mint, other);
    }
  }

  lemma TokenOwner(cfg: Config, w: World, t: Token)
    requires WorldInv(cfg, w) && t in w.mint.signed && t.sid in w.store.keys
    ensures t.sub == w.store.keys[t.sid].value.adminId
  {
    assert TokenOk(w.store, w.mint, t);
  }

  lemma RequestEndsIff(cfg: Config, w: World, e: Event, sid: SessionId)
    requires WorldInv(cfg, w) && IsLive(w.store, w.now, sid) && sid in w.store.rows && e.EvRequest? && cfg.Valid()
    ensures CauseIsEnd(w, e, Authenticate(cfg, w, e.credential, e.gate, e.durable).world, sid)
  {
    LiveRow(cfg, w, sid);
    if Presented(w, e).Some? && e.credential.value.sid in w.store.keys {
      TokenOwner(cfg, w, e.credential.value);
    }
  }

  lemma RefreshEndsIff(cfg: Config, w: World, e: Event, sid: SessionId)
    requires WorldInv(cfg, w) && IsLive(w.store, w.now, sid) && sid in w.store.rows && e.EvRefresh?
    ensures CauseIsEnd(w, e, RefreshSession(cfg, w, e.token, e.durable).world, sid)
  {
    LiveRow(cfg, w, sid);
    if Presented(w, e).Some? && e.token.sid in w.store.keys {
      TokenOwner(cfg, w, e.token);
    }
  }

  lemma DestroyEndsIff(cfg: Config, w: World, e: Event, sid: SessionId)
    requires WorldInv(cfg, w) && IsLive(w.store, w.now, sid) && sid in w.store.rows && DestroysSessions(e)
    ensures CauseIsEnd(w, e, Apply(cfg, w, e), sid)
  {
    LiveRow(cfg, w, sid);
  }

  lemma OtherEndsNothing(cfg: Config, w: World, e: Event, sid: SessionId)
    requires IsLive(w.store, w.now, sid) && sid < w.mint.next
    requires !DestroysSessions(e) && !e.EvRequest? && !e.EvRefresh? && !e.Tick?
    ensures CauseIsEnd(w, e, Apply(cfg, w, e), sid)
  {
  }

  /** A live session in the history stops being live in a step exactly when the step has a cause to end it. */
  lemma EndsExactlyFor(cfg: Config, w: World, e: Event, sid: SessionId)
    requires cfg.Valid() && Reachable(cfg, w) && IsLive(w.store, w.now, sid) && sid in w.store.rows && !e.Tick?
    ensures CauseIsEnd(w, e, Apply(cfg, w, e), sid)
  {
    ReachableIsSound(cfg, w);
    if e.EvRequest? {
      RequestEndsIff(cfg, w, e, sid);
    } else if e.EvRefresh? {
      RefreshEndsIff(cfg, w, e, sid);
    } else if DestroysSessions(e) {
      DestroyEndsIff(cfg, w, e, sid);
    } else {
      LiveRow(cfg, w, sid);
      OtherEndsNothing(cfg, w, e, sid);
    }
  }

  // ── Where a row comes from ────────────────────────────────────────────────

  /** Whose session an event issues, if it does, and whether a second factor was used. */
  function Issues(w: World, e: Event): Option<(AdminId, bool)> {
    match e
    case EvLogin(id, ok, _) =>
      if && ok && id in w.accounts && !Locked(w.lockouts, id, w.now)
         && w.accounts[id].status != Suspended && !w.accounts[id].mfaEnrolled then Some((id, false)) else None
    case EvCompleteMfa(ch, ok, _) =>
      if !ok || !Held(w.challenges, ch, w.now) then None
      else
        var id := w.challenges[ch].value;
        if id in w.accounts && w.accounts[id].mfaSecret.Some? && w.accounts[id].status != Suspended
        then Some((id, true)) else None
    case _ => None
  }

  /** The row of a session issued now. */
  predicate IsNewRow(cfg: Config, w: World, id: AdminId, mfaUsed: bool, row: Row) {
    && id in w.accounts && row.adminId == id && row.tierAtLogin == w.accounts[id].tier && row.mfaUsed == mfaUsed
    && row.startedAt == w.now && row.absoluteExpiresAt == w.now + cfg.absoluteTtl && row.lastSeenAt == w.now
    && row.ended.None?
  }

  predicate OnlyBorn(cfg: Config, w: World, e: Event, w': World, sid: SessionId) {
    && (sid in w'.store.rows <==> Writes(e) && sid == w.mint.next && Issues(w, e).Some?)
    && (sid in w'.store.rows ==> IsNewRow(cfg, w, Issues(w, e).value.0, Issues(w, e).value.1, w'.store.rows[sid]))
  }

  lemma LoginWrites(cfg: Config, w: World, e: Event, sid: SessionId)
    requires e.EvLogin? && sid !in w.store.rows
    ensures OnlyBorn(cfg, w, e, Login(cfg, w, e.id, e.ok, e.durable).world, sid)
  {
  }

  lemma CompletionWrites(cfg: Config, w: World, e: Event, sid: SessionId)
    requires e.EvCompleteMfa? && sid !in w.store.rows
    ensures OnlyBorn(cfg, w, e, CompleteMfa(cfg, w, e.ch, e.ok, e.durable).world, sid)
  {
  }

  lemma OthersWriteNoRow(cfg: Config, w: World, e: Event, sid: SessionId)
    requires !e.EvLogin? && !e.EvCompleteMfa? && !e.EvRequest? && !e.EvRefresh? && sid !in w.store.rows
    ensures sid !in Apply(cfg, w, e).store.rows
  {
  }

  lemma RequestWritesNoRow(cfg: Config, w: World, e: Event, sid: SessionId)
    requires e.EvRequest? && sid !in w.store.rows
    ensures sid !in Authenticate(cfg, w, e.credential, e.gate, e.durable).world.store.rows
  {
  }

  lemma RefreshWritesNoRow(cfg: Config, w: World, e: Event, sid: SessionId)
    requires e.EvRefresh? && sid !in w.store.rows
    ensures sid !in RefreshSession(cfg, w, e.token, e.durable).world.store.rows
  {
  }

  /** A new row is written exactly by a durable event that issues this session, and says how it was issued. */
  lemma RowIsBorn(cfg: Config, w: World, e: Event, sid: SessionId)
    requires sid !in w.store.rows
    ensures OnlyBorn(cfg, w, e, Apply(cfg, w, e), sid)
  {
    if e.EvLogin? {
      LoginWrites(cfg, w, e, sid);
    } else if e.EvCompleteMfa? {
      CompletionWrites(cfg, w, e, sid);
    } else if e.EvRequest? {
      RequestWritesNoRow(cfg, w, e, sid);
    } else if e.EvRefresh? {
      RefreshWritesNoRow(cfg, w, e, sid);
    } else {
      OthersWriteNoRow(cfg, w, e, sid);
    }
  }

  // ── Over a run ────────────────────────────────────────────────────────────

  function Before(cfg: Config, es: seq<Event>, i: nat): World
    requires i <= |es|
  {
    Run(cfg, GENESIS, es[..i])
  }

  lemma BeforeFront(cfg: Config, es: seq<Event>, i: nat)
    requires i < |es|
    ensures Before(cfg, es[..|es| - 1], i) == Before(cfg, es, i)
  {
    assert es[..|es| - 1][..i] == es[..i];
  }

  /** Event `i` ends the session of this row, and the history is told. */
  predicate Ends(cfg: Config, es: seq<Event>, i: nat, sid: SessionId)
    requires i < |es|
  {
    sid in Before(cfg, es, i).store.rows && Writes(es[i]) && Cause(Before(cfg, es, i), es[i], sid).Some?
  }

  ghost predicate EndsFirst(cfg: Config, es: seq<Event>, i: nat, sid: SessionId) {
    i < |es| && Ends(cfg, es, i, sid) && forall j: nat :: j < i ==> !Ends(cfg, es, j, sid)
  }

  /** The ending event `i` causes. */
  function EndingBy(cfg: Config, es: seq<Event>, i: nat, sid: SessionId): Ending
    requires i < |es| && Ends(cfg, es, i, sid)
  {
    Ending(Before(cfg, es, i).now, Cause(Before(cfg, es, i), es[i], sid).value)
  }

  lemma EndsInFront(cfg: Config, es: seq<Event>, i: nat, sid: SessionId)
    requires i < |es| - 1
    ensures Ends(cfg, es[..|es| - 1], i, sid) <==> Ends(cfg, es, i, sid)
    ensures Ends(cfg, es, i, sid) ==> EndingBy(cfg, es[..|es| - 1], i, sid) == EndingBy(cfg, es, i, sid)
  {
    BeforeFront(cfg, es, i);
  }

  /** The ending a row should show: that of the first event to end it. */
  ghost predicate ShowsFirst(cfg: Config, es: seq<Event>, sid: SessionId, ended: Option<Ending>) {
    match ended
    case None => forall i: nat :: i < |es| ==> !Ends(cfg, es, i, sid)
    case Some(x) => exists i: nat :: EndsFirst(cfg, es, i, sid) && x == EndingBy(cfg, es, i, sid)
  }

  lemma ShowsFirstMore(cfg: Config, es: seq<Event>, sid: SessionId, before: Option<Ending>, after: Option<Ending>)
    requires es != [] && ShowsFirst(cfg, es[..|es| - 1], sid, before)
    requires var last := |es| - 1;
      if before.None? && Ends(cfg, es, last, sid) then after == Some(EndingBy(cfg, es, last, sid)) else after == before
    ensures ShowsFirst(cfg, es, sid, after)
  {
    var front, last: nat := es[..|es| - 1], |es| - 1;
    forall i: nat | i < last
      ensures Ends(cfg, front, i, sid) <==> Ends(cfg, es, i, sid)
      ensures Ends(cfg, es, i, sid) ==> EndingBy(cfg, front, i, sid) == EndingBy(cfg, es, i, sid)
    {
      EndsInFront(cfg, es, i, sid);
    }
    if before.Some? {
      var i: nat :| EndsFirst(cfg, front, i, sid) && before.value == EndingBy(cfg, front, i, sid);
      assert EndsFirst(cfg, es, i, sid);
    } else if Ends(cfg, es, last, sid) {
      assert EndsFirst(cfg, es, last, sid);
    }
  }

  /**
   * Main result. Over every run, a stored row shows an ending exactly when some event told the
   * history that it ends that session, and it shows the time and the reason of the first such event.
   */
  lemma {:induction false} RowShowsFirstEnding(cfg: Config, es: seq<Event>, sid: SessionId)
    requires cfg.Valid() && sid in Run(cfg, GENESIS, es).store.rows
    ensures ShowsFirst(cfg, es, sid, Run(cfg, GENESIS, es).store.rows[sid].ended)
  {
    var front, last := es[..|es| - 1], |es| - 1;
    var w, w' := Run(cfg, GENESIS, front), Run(cfg, GENESIS, es);
    RunKeeps(cfg, GENESIS, front);
    if sid in w.store.rows {
      RowShowsFirstEnding(cfg, front, sid);
      StepTells(cfg, w, es[last], sid);
      ShowsFirstMore(cfg, es, sid, w.store.rows[sid].ended, w'.store.rows[sid].ended);
    } else {
      RowIsBorn(cfg, w, es[last], sid);
      forall i: nat | i < |es| ensures !Ends(cfg, es, i, sid) {
        RowsOnlyGrow(cfg, es, i, sid);
      }
    }
  }

  /** A row missing before the last event was missing all along. */
  lemma {:induction false} RowsOnlyGrow(cfg: Config, es: seq<Event>, i: nat, sid: SessionId)
    requires cfg.Valid() && i < |es| && sid !in Run(cfg, GENESIS, es[..|es| - 1]).store.rows
    ensures sid !in Before(cfg, es, i).store.rows
  {
    if i < |es| - 1 {
      var front := es[..|es| - 1];
      var w := Run(cfg, GENESIS, front[..|front| - 1]);
      RunKeeps(cfg, GENESIS, front[..|front| - 1]);
      if sid in w.store.rows {
        StepTells(cfg, w, front[|front| - 1], sid);
      }
      RowsOnlyGrow(cfg, front, i, sid);
      BeforeFront(cfg, es, i);
    }
  }

  /** What a row says but for its ending and the time it was last seen. */
  predicate SameBirth(a: Row, b: Row) { b == a.(ended := b.ended, lastSeenAt := b.lastSeenAt) }

  /** Over every run, a row was written by one durable event that issued this session, and keeps what it said. */
  lemma {:induction false} RowTellsItsBirth(cfg: Config, es: seq<Event>, sid: SessionId) returns (i: nat, born: Row)
    requires cfg.Valid() && sid in Run(cfg, GENESIS, es).store.rows
    ensures i < |es|
    ensures var w := Before(cfg, es, i);
      && Writes(es[i]) && sid == w.mint.next && Issues(w, es[i]).Some?
      && IsNewRow(cfg, w, Issues(w, es[i]).value.0, Issues(w, es[i]).value.1, born)
    ensures SameBirth(born, Run(cfg, GENESIS, es).store.rows[sid])
  {
    var front, last := es[..|es| - 1], |es| - 1;
    var w := Run(cfg, GENESIS, front);
    RunKeeps(cfg, GENESIS, front);
    if sid in w.store.rows {
      i, born := RowTellsItsBirth(cfg, front, sid);
      BeforeFront(cfg, es, i);
      StepTells(cfg, w, es[last], sid);
    } else {
      RowIsBorn(cfg, w, es[last], sid);
      i, born := last, Run(cfg, GENESIS, es).store.rows[sid];
    }
  }

  /**
   * So the history an administrator reads shows, for each session, the first ending an event caused;
   * with none, nothing while the session is listed, and idle expiry otherwise.
   */
  lemma HistoryTellsEvents(cfg: Config, es: seq<Event>, id: AdminId, limit: nat, out: seq<Past>, p: Past)
    requires cfg.Valid() && p in out
    requires var w := Run(cfg, GENESIS, es); IsHistory(w.store, w.now, id, limit, out)
    ensures (exists i: nat :: EndsFirst(cfg, es, i, p.sid)) <==> p.endedAt.Some?
    ensures p.endedAt.Some? ==> exists i: nat :: EndsFirst(cfg, es, i, p.sid) && ShowsEnding(cfg, es, i, p)
    ensures var w := Run(cfg, GENESIS, es);
      p.endedAt.None? ==> p.endReason == If(p.sid !in Listed(w.store, w.now, id), IdleExpired)
    ensures var w := Run(cfg, GENESIS, es); OwnsRow(w, id, p.sid) && ShowsRow(p, w.store.rows[p.sid])
  {
    var w := Run(cfg, GENESIS, es);
    var order :| RowOrder(w.store, id, order) && Reports(w.store, w.now, id, limit, order, out);
    var k :| 0 <= k < |out| && out[k] == p;
    OwnedIsOrdered(w.store, id, order, order[k]);
    RowShowsFirstEnding(cfg, es, p.sid);
    if i: nat :| EndsFirst(cfg, es, i, p.sid) {
      assert w.store.rows[p.sid].ended.Some?;
    }
  }

  predicate ShowsEnding(cfg: Config, es: seq<Event>, i: nat, p: Past)
    requires i < |es|
  {
    p.endReason == Cause(Before(cfg, es, i), es[i], p.sid) && p.endedAt == Some(Before(cfg, es, i).now)
  }

  predicate ShowsRow(p: Past, row: Row) {
    && p.startedAt == row.startedAt && p.absoluteExpiresAt == row.absoluteExpiresAt && p.mfaUsed == row.mfaUsed
    && p.lastSeenAt == row.lastSeenAt && p.tierAtLogin == row.tierAtLogin
  }
}
