/**
 * What the session list and the session history tell (src/modules/admin-identity/domain/
 * session.service.ts:248-274, 340-364): every live session, and, until something reads its key, a
 * session past its absolute cap.
 */
module SessionListing {
  import opened Prelude
  import opened Settings
  import opened StableSort
  import opened Tokens
  import opened Sessions
  import opened SessionInvariants
  import opened Lockout
  import opened Accounts
  import opened AuthMachine
  import opened AuthRuns
  import opened AuthTheorems

  // ── The list ──────────────────────────────────────────────────────────────

  /**
   * The session list names every live session, but not only those: a key outlives its absolute
   * deadline until something reads it. The list is exact when every listed session is inside it.
   */
  lemma ListIsExactIff(cfg: Config, w: World, id: AdminId)
    requires cfg.Valid() && Reachable(cfg, w)
    ensures forall sid :: LiveFor(w, sid, id) ==> sid in Listed(w.store, w.now, id)
    ensures (forall sid :: sid in Listed(w.store, w.now, id) ==> LiveFor(w, sid, id))
       <==> (forall sid :: sid in Listed(w.store, w.now, id) ==> w.now < w.store.keys[sid].value.absoluteExpiresAt)
  {
    ReachableIsSound(cfg, w);
    assert IndexOk(w.store, w.mint, id);
    forall sid | LiveFor(w, sid, id) ensures sid in Listed(w.store, w.now, id) {
      assert LiveOk(w.store, w.now, sid);
    }
  }

  /** What the list is made from: one summary for each listed session, newest first. */
  ghost predicate IsList(w: World, id: AdminId, current: Option<SessionId>, out: seq<Summary>) {
    && multiset(out) == multiset(Summaries(w.store, w.now, Members(w.store.index, id, w.now), current))
    && Sorted(out, NewestFirst())
  }

  lemma CountedTwice(s: seq<Summary>, i: nat, j: nat)
    requires i < j < |s|
    ensures s[i] == s[j] ==> multiset(s)[s[j]] >= 2
  {
    assert s == s[..j] + s[j..] && s[..j][i] == s[i] && s[j..][0] == s[j];
  }

  lemma ListNamesOnce(w: World, id: AdminId, current: Option<SessionId>, out: seq<Summary>)
    requires IsList(w, id, current, out)
    ensures forall s :: s in out ==> s.sid in Listed(w.store, w.now, id) && s == SummaryOf(w.store, s.sid, current)
    ensures forall sid :: sid in Listed(w.store, w.now, id) ==> exists s :: s in out && s.sid == sid
    ensures forall i, j :: 0 <= i < j < |out| ==> out[i].sid != out[j].sid
  {
    var all := Summaries(w.store, w.now, Members(w.store.index, id, w.now), current);
    forall s ensures s in out <==> s in all {
      assert s in multiset(out) <==> s in out;
    }
    forall sid | sid in Listed(w.store, w.now, id) ensures exists s :: s in out && s.sid == sid {
      assert SummaryOf(w.store, sid, current) in out;
    }
    forall i, j | 0 <= i < j < |out| ensures out[i].sid != out[j].sid {
      assert out[i] in out && out[j] in out;
      CountedTwice(out, i, j);
    }
  }

  /** What one entry tells over a run: when its session began, when it must end, and whose request this is. */
  predicate TellsSession(cfg: Config, es: seq<Event>, current: Option<SessionId>, s: Summary) {
    && AgesOf(cfg, es, s.sid).Some?
    && s.startedAt == AgesOf(cfg, es, s.sid).value.born
    && s.absoluteExpiresAt == AgesOf(cfg, es, s.sid).value.born + cfg.absoluteTtl
    && (s.current <==> current == Some(s.sid))
  }

  /** Over every run the list names each listed session once, newest first, each with its own times. */
  lemma ListTells(cfg: Config, es: seq<Event>, id: AdminId, current: Option<SessionId>, out: seq<Summary>)
    requires cfg.Valid() && IsList(Run(cfg, GENESIS, es), id, current, out)
    ensures var w := Run(cfg, GENESIS, es);
      && (forall sid :: sid in Listed(w.store, w.now, id) <==> exists s :: s in out && s.sid == sid)
      && (forall i, j :: 0 <= i < j < |out| ==> out[i].sid != out[j].sid && out[j].startedAt <= out[i].startedAt)
      && (forall s :: s in out ==> TellsSession(cfg, es, current, s))
  {
    var w := Run(cfg, GENESIS, es);
    RunKeeps(cfg, GENESIS, es);
    ListNamesOnce(w, id, current, out);
    forall i, j | 0 <= i < j < |out| ensures out[j].startedAt <= out[i].startedAt {
      assert NewestFirst()(out[i], out[j]);
    }
    forall s | s in out ensures TellsSession(cfg, es, current, s) {
      AgesAgree(cfg, es, s.sid);
      assert KeyOk(cfg, w.store, w.now, w.mint, s.sid);
    }
  }

  /** Reading the list leaves the index of that admin naming exactly what it listed, and touches nothing else. */
  lemma ListHeals(cfg: Config, w: World, id: AdminId, other: AdminId)
    ensures var st := Apply(cfg, w, EvListSessions(id)).store;
      && Members(st.index, id, w.now) == Listed(w.store, w.now, id)
      && (other != id ==> Members(st.index, other, w.now) == Members(w.store.index, other, w.now))
      && st.keys == w.store.keys && st.rows == w.store.rows
  {
    var members := Members(w.store.index, id, w.now);
    assert members - Gone(w.store, w.now, members) == Listed(w.store, w.now, id);
  }

  lemma PlainRequest(cfg: Config, w: World, t: Token, durable: bool)
    requires VerifyAccess(w.mint, t, w.now) == Accepted && IsLive(w.store, w.now, t.sid)
    requires t.sub in w.accounts && w.accounts[t.sub].status == Active && !w.store.keys[t.sid].value.pendingMfaEnrolment
    ensures var w' := Apply(cfg, w, EvRequest(Some(t), Gate(false, false), durable));
            && w'.store.keys == w.store.keys[t.sid := Entry(w.store.keys[t.sid].value, w.now + cfg.idleTtl)]
            && w'.store.index == w.store.index && w' == w.(store := w'.store)
  {
  }

  const LATE: Config := Config(8, 10, 9, 5, 9, 0)

  /** One account, signed in at 0: its session expires at 10. */
  lemma WitnessStart() returns (es: seq<Event>, w: World)
    ensures w == Run(LATE, GENESIS, es) && w.now == 0 && w.lockouts == Lockouts(map[], map[]) && w.mint.next == 2
    ensures 0 in w.accounts && w.accounts[0].status == Active && !w.accounts[0].mfaEnrolled && w.accounts[0].tier == 3
    ensures IsLive(w.store, 0, 0) && w.store.keys[0].deadline == 8 && w.store.keys[0].value.absoluteExpiresAt == 10
    ensures !w.store.keys[0].value.pendingMfaEnrolment && Access(0, 0, 3, 9) in w.mint.signed
    ensures 0 in w.store.index && 0 in w.store.index[0].value && w.store.index[0].deadline == 10
  {
    RunMore(LATE, [], EvCreateAccount(0, 3, 0, Some(Active)));
    es := [] + [EvCreateAccount(0, 3, 0, Some(Active))];
    w := Run(LATE, GENESIS, es);
    PlainLogin(LATE, w, 0, true);
    RunMore(LATE, es, EvLogin(0, true, true));
    es := es + [EvLogin(0, true, true)];
    w := Run(LATE, GENESIS, es);
  }

  /** Touched at 5: its key lasts until 13. */
  lemma WitnessTouch() returns (es: seq<Event>, w: World)
    ensures w == Run(LATE, GENESIS, es) && w.now == 5 && w.lockouts == Lockouts(map[], map[]) && w.mint.next == 2
    ensures 0 in w.accounts && w.accounts[0].status == Active && !w.accounts[0].mfaEnrolled && w.accounts[0].tier == 3
    ensures 0 in w.store.keys && w.store.keys[0].deadline == 13 && w.store.keys[0].value.absoluteExpiresAt == 10
    ensures 0 in w.store.index && 0 in w.store.index[0].value && w.store.index[0].deadline == 10
  {
    es, w := WitnessStart();
    RunMore(LATE, es, Tick(5));
    es := es + [Tick(5)];
    w := Run(LATE, GENESIS, es);
    var touch := EvRequest(Some(Access(0, 0, 3, 9)), Gate(false, false), true);
    PlainRequest(LATE, w, Access(0, 0, 3, 9), true);
    RunMore(LATE, es, touch);
    es := es + [touch];
    w := Run(LATE, GENESIS, es);
  }

  /** It can be inexact: a second sign-in keeps the index set alive, and a touched session stays listed past its cap. */
  lemma ListCanNameExpired() returns (w: World, sid: SessionId)
    ensures Reachable(LATE, w)
    ensures sid in Listed(w.store, w.now, 0) && !IsLive(w.store, w.now, sid)
  {
    var es;
    es, w := WitnessTouch();
    PlainLogin(LATE, w, 0, true);
    RunMore(LATE, es, EvLogin(0, true, true));
    es := es + [EvLogin(0, true, true)];
    RunMore(LATE, es, Tick(5));
    es := es + [Tick(5)];
    w, sid := Run(LATE, GENESIS, es), 0;
  }

  /** Still stored, though past its absolute deadline. */
  predicate PastCap(w: World, sid: SessionId) {
    Held(w.store.keys, sid, w.now) && w.store.keys[sid].value.absoluteExpiresAt <= w.now
  }

  lemma OwnedIsOrdered(st: Store, id: AdminId, order: seq<SessionId>, sid: SessionId)
    requires RowOrder(st, id, order)
    ensures sid in order <==> sid in OwnedRows(st.rows, id)
  {
    assert sid in order <==> sid in multiset(order);
  }

  /** The history has no ending for a live session's row, and none only for one that is live or past its cap. */
  lemma HistoryNamesLive(cfg: Config, w: World, id: AdminId, limit: nat, out: seq<Past>)
    requires cfg.Valid() && Reachable(cfg, w) && IsHistory(w.store, w.now, id, limit, out)
    ensures forall p :: p in out ==>
      && p.sid in OwnedRows(w.store.rows, id)
      && (IsLive(w.store, w.now, p.sid) ==> p.endReason.None? && p.endedAt.None?)
      && (p.endReason.None? ==> IsLive(w.store, w.now, p.sid) || PastCap(w, p.sid))
  {
    ReachableIsSound(cfg, w);
    var order :| RowOrder(w.store, id, order) && Reports(w.store, w.now, id, limit, order, out);
    forall p | p in out
      ensures p.sid in OwnedRows(w.store.rows, id)
      ensures IsLive(w.store, w.now, p.sid) ==> p.endReason.None? && p.endedAt.None?
      ensures p.endReason.None? ==> IsLive(w.store, w.now, p.sid) || PastCap(w, p.sid)
    {
      var i :| 0 <= i < |out| && out[i] == p;
      OwnedIsOrdered(w.store, id, order, order[i]);
      assert LiveOk(w.store, w.now, p.sid);
    }
  }

  predicate Reported(out: seq<Past>, sid: SessionId) { exists p :: p in out && p.sid == sid }

  /** A row the history leaves out is no newer than any it returns, and the page is full. */
  lemma HistoryIsNewest(st: Store, now: int, id: AdminId, limit: nat, out: seq<Past>, sid: SessionId)
    requires IsHistory(st, now, id, limit, out) && sid in OwnedRows(st.rows, id) && !Reported(out, sid)
    ensures |out| == limit && forall p :: p in out ==> st.rows[sid].startedAt <= p.startedAt
  {
    var order :| RowOrder(st, id, order) && Reports(st, now, id, limit, order, out);
    OwnedIsOrdered(st, id, order, sid);
    var i :| 0 <= i < |order| && order[i] == sid;
    forall k | 0 <= k < |out| ensures k < i && out[k].startedAt == StartOf(st.rows, order[k]) {
      assert forall j :: 0 <= j < |out| ==> out[j] in out;
      assert LatestStart(st.rows)(order[k], order[i]) || i <= k;
    }
    forall p | p in out ensures st.rows[sid].startedAt <= p.startedAt {
      var k :| 0 <= k < |out| && out[k] == p;
      assert LatestStart(st.rows)(order[k], order[i]);
    }
  }

  lemma HistoryIsOrdered(st: Store, now: int, id: AdminId, limit: nat, out: seq<Past>)
    requires IsHistory(st, now, id, limit, out)
    ensures forall i, j :: 0 <= i < j < |out| ==> out[j].startedAt <= out[i].startedAt
  {
    var order :| RowOrder(st, id, order) && Reports(st, now, id, limit, order, out);
    forall i, j | 0 <= i < j < |out| ensures out[j].startedAt <= out[i].startedAt {
      assert LatestStart(st.rows)(order[i], order[j]);
    }
  }

  // ── What keeps a session listed past its cap ──────────────────────────────

  /** A new session of `id` was stored by this step. */
  predicate Stores(w: World, w': World, id: AdminId) {
    w.mint.next in w'.store.keys && w'.store.keys[w.mint.next].value.adminId == id
  }

  /** When a run last stored a session of `id`. */
  function LastSignIn(cfg: Config, es: seq<Event>, id: AdminId): Option<int> {
    if es == [] then None
    else
      var w := Run(cfg, GENESIS, es[..|es| - 1]);
      if Stores(w, Apply(cfg, w, es[|es| - 1]), id) then Some(w.now) else LastSignIn(cfg, es[..|es| - 1], id)
  }

  predicate IndexKept(st: Store, st': Store, id: AdminId) {
    id in st'.index ==> id in st.index && st'.index[id].deadline == st.index[id].deadline
  }

  /** Only storing a session moves the deadline of an index set. */
  predicate IndexMoves(cfg: Config, w: World, w': World, id: AdminId) {
    if Stores(w, w', id) then id in w'.store.index ==> w'.store.index[id].deadline == w.now + cfg.absoluteTtl
    else IndexKept(w.store, w'.store, id)
  }

  lemma AdmissionKeepsIndex(cfg: Config, w: World, t: Token, touch: bool, durable: bool, id: AdminId)
    ensures IndexKept(w.store, Admission(cfg, w, t, touch, durable).world.store, id)
    ensures w.mint.next !in w.store.keys ==>
      w.mint.next !in Admission(cfg, w, t, touch, durable).world.store.keys
  {
    AdmissionMoves(cfg, w, t, touch, durable, w.mint.next);
    var got := AfterGet(cfg, w.store, w.now, durable, t.sid, touch);
    assert IndexKept(w.store, got, id);
  }

  lemma RefreshKeepsIndex(cfg: Config, w: World, e: Event, id: AdminId)
    requires e.EvRefresh? && w.mint.next !in w.store.keys
    ensures IndexMoves(cfg, w, RefreshSession(cfg, w, e.token, e.durable).world, id)
  {
    AdmissionKeepsIndex(cfg, w, e.token, false, e.durable, id);
  }

  lemma RequestKeepsIndex(cfg: Config, w: World, e: Event, id: AdminId)
    requires e.EvRequest? && w.mint.next !in w.store.keys
    ensures IndexMoves(cfg, w, Authenticate(cfg, w, e.credential, e.gate, e.durable).world, id)
  {
    if e.credential.Some? {
      AdmissionKeepsIndex(cfg, w, e.credential.value, true, e.durable, id);
    }
  }

  lemma LoginMovesIndex(cfg: Config, w: World, e: Event, id: AdminId)
    requires e.EvLogin? && w.mint.next !in w.store.keys
    ensures IndexMoves(cfg, w, Login(cfg, w, e.id, e.ok, e.durable).world, id)
  {
  }

  lemma CompletionMovesIndex(cfg: Config, w: World, e: Event, id: AdminId)
    requires e.EvCompleteMfa? && w.mint.next !in w.store.keys
    ensures IndexMoves(cfg, w, CompleteMfa(cfg, w, e.ch, e.ok, e.durable).world, id)
  {
  }

  predicate RevokesOne(e: Event) { e.EvRevokeOwn? || e.EvRevokeOne? }

  lemma OwnRevocationKeepsIndex(cfg: Config, w: World, e: Event, id: AdminId)
    requires e.EvRevokeOwn?
    ensures IndexKept(w.store, RevokeOwn(cfg, w, e.id, e.sid, e.durable).world.store, id)
  {
  }

  lemma OneRevocationKeepsIndex(cfg: Config, w: World, e: Event, id: AdminId)
    requires e.EvRevokeOne?
    ensures IndexKept(w.store, RevokeOne(w, e.id, e.sid, e.durable).store, id)
  {
  }

  lemma OthersKeepIndex(cfg: Config, w: World, e: Event, id: AdminId)
    requires !e.EvRequest? && !e.EvRefresh? && !e.EvLogin? && !e.EvCompleteMfa? && !RevokesOne(e)
    ensures IndexKept(w.store, Apply(cfg, w, e).store, id)
  {
  }

  lemma StepMovesIndex(cfg: Config, w: World, e: Event, id: AdminId)
    requires w.mint.next !in w.store.keys
    ensures IndexMoves(cfg, w, Apply(cfg, w, e), id)
  {
    if e.EvRequest? {
      RequestKeepsIndex(cfg, w, e, id);
    } else if e.EvRefresh? {
      RefreshKeepsIndex(cfg, w, e, id);
    } else if e.EvLogin? {
      LoginMovesIndex(cfg, w, e, id);
    } else if e.EvCompleteMfa? {
      CompletionMovesIndex(cfg, w, e, id);
    } else {
      OtherMoves(cfg, w, e, w.mint.next);
      if e.EvRevokeOwn? {
        OwnRevocationKeepsIndex(cfg, w, e, id);
      } else if e.EvRevokeOne? {
        OneRevocationKeepsIndex(cfg, w, e, id);
      } else {
        OthersKeepIndex(cfg, w, e, id);
      }
    }
  }

  lemma {:induction false} IndexFollowsSignIns(cfg: Config, es: seq<Event>, id: AdminId)
    requires cfg.Valid()
    ensures var w := Run(cfg, GENESIS, es);
            id in w.store.index ==>
              && LastSignIn(cfg, es, id).Some?
              && w.store.index[id].deadline == LastSignIn(cfg, es, id).value + cfg.absoluteTtl
  {
    if es != [] {
      var front, e := es[..|es| - 1], es[|es| - 1];
      var w := Run(cfg, GENESIS, front);
      IndexFollowsSignIns(cfg, front, id);
      RunKeeps(cfg, GENESIS, front);
      assert KeyOk(cfg, w.store, w.now, w.mint, w.mint.next);
      StepMovesIndex(cfg, w, e, id);
    }
  }

  /**
   * A listed session is not live exactly from birth plus the absolute cap on; it is then still
   * within the idle window of its last touch, and its owner signed in again after its birth, less
   * than one cap ago: without that later sign-in the index set would be gone.
   */
  lemma ListedPastCap(cfg: Config, es: seq<Event>, id: AdminId, sid: SessionId)
    requires cfg.Valid() && sid in Listed(Run(cfg, GENESIS, es).store, Run(cfg, GENESIS, es).now, id)
    ensures var w := Run(cfg, GENESIS, es);
            && AgesOf(cfg, es, sid).Some? && LastSignIn(cfg, es, id).Some?
            && (!IsLive(w.store, w.now, sid) <==> AgesOf(cfg, es, sid).value.born + cfg.absoluteTtl <= w.now)
            && (!IsLive(w.store, w.now, sid) ==>
              && w.now < AgesOf(cfg, es, sid).value.touched + cfg.idleTtl
              && AgesOf(cfg, es, sid).value.born < LastSignIn(cfg, es, id).value
              && w.now < LastSignIn(cfg, es, id).value + cfg.absoluteTtl)
  {
    AgesAgree(cfg, es, sid);
    IndexFollowsSignIns(cfg, es, id);
  }
}
