/** What every operation keeps about the session stores. */
module SessionInvariants {
  import opened Prelude
  import opened Settings
  import opened Tokens
  import opened Sessions

  predicate IsLive(st: Store, now: int, sid: SessionId) {
    Lookedup(st, now, sid).Live?
  }

  /** The stored key names an issued session and holds the fingerprint of one of its refresh tokens. */
  ghost predicate KeyOk(cfg: Config, st: Store, now: int, mint: Mint, sid: SessionId) {
    sid in st.keys ==>
      var r := st.keys[sid].value;
      var t := r.refreshTokenHash.token;
      && sid < mint.next
      && r.absoluteExpiresAt == r.startedAt + cfg.absoluteTtl && r.startedAt <= now
      && t in mint.signed && t.Refresh? && t.sid == sid && t.sub == r.adminId
  }

  /** A live session is in its owner's index set, which outlasts it, and its row is not ended. */
  ghost predicate LiveOk(st: Store, now: int, sid: SessionId) {
    IsLive(st, now, sid) ==>
      var r := st.keys[sid].value;
      && r.adminId in st.index
      && sid in st.index[r.adminId].value
      && r.absoluteExpiresAt <= st.index[r.adminId].deadline
      && (sid in st.rows ==> st.rows[sid].adminId == r.adminId && st.rows[sid].ended.None?)
  }

  ghost predicate TokenOk(st: Store, mint: Mint, t: Token) {
    && t.sid < mint.next
    && (t.Refresh? ==> t.jti < mint.next)
    && (t.sid in st.keys ==>
      && t.sub == st.keys[t.sid].value.adminId
      && (t.Refresh? ==> st.keys[t.sid].value.absoluteExpiresAt <= t.exp))
  }

  /** An index set names issued sessions, and no stored session of somebody else. */
  ghost predicate IndexOk(st: Store, mint: Mint, id: AdminId) {
    id in st.index ==> forall sid :: sid in st.index[id].value ==>
      sid < mint.next && (sid in st.keys ==> st.keys[sid].value.adminId == id)
  }

  ghost predicate Inv(cfg: Config, st: Store, now: int, mint: Mint) {
    && (forall sid: SessionId :: KeyOk(cfg, st, now, mint, sid))
    && (forall sid: SessionId :: LiveOk(st, now, sid))
    && (forall id: AdminId :: IndexOk(st, mint, id))
    && (forall sid :: sid in st.rows ==> sid < mint.next)
    && (forall t :: t in mint.signed ==> TokenOk(st, mint, t))
  }

  /** Nothing about a session changes but its refresh token. */
  predicate SameSession(a: SessionRecord, b: SessionRecord) {
    a == b.(refreshTokenHash := a.refreshTokenHash)
  }

  ghost predicate NotRevived(st: Store, now: int, st': Store, now': int, sid: SessionId) {
    && (IsLive(st', now', sid) ==> IsLive(st, now, sid))
    && (sid in st'.keys ==> sid in st.keys && SameSession(st'.keys[sid].value, st.keys[sid].value))
  }

  ghost predicate RowKept(st: Store, st': Store, sid: SessionId) {
    sid in st.rows ==>
      && sid in st'.rows && st'.rows[sid].adminId == st.rows[sid].adminId
      && (st.rows[sid].ended.Some? ==> st'.rows[sid].ended == st.rows[sid].ended)
  }

  ghost predicate Evolves(st: Store, now: int, mint: Mint, st': Store, now': int) {
    && (forall sid: SessionId :: sid < mint.next ==> NotRevived(st, now, st', now', sid))
    && (forall sid: SessionId :: sid < mint.next ==> RowKept(st, st', sid))
  }

  lemma Later(cfg: Config, st: Store, now: int, mint: Mint, now': int)
    requires Inv(cfg, st, now, mint) && now <= now'
    ensures Inv(cfg, st, now', mint) && Evolves(st, now, mint, st, now')
  {
    forall sid: SessionId ensures KeyOk(cfg, st, now', mint, sid) { assert KeyOk(cfg, st, now, mint, sid); }
    forall sid: SessionId ensures LiveOk(st, now', sid) { assert LiveOk(st, now, sid); }
  }

  /** Removing other ids from an index set leaves a live session's membership alone. */
  lemma StaysIndexed(st: Store, now: int, id: AdminId, sids: set<SessionId>, sid: SessionId)
    requires LiveOk(st, now, sid) && IsLive(st, now, sid) && sid !in sids
    ensures var after := SetRemove(st.index, id, now, sids);
            var owner := st.keys[sid].value.adminId;
            && owner in after && sid in after[owner].value && after[owner].deadline == st.index[owner].deadline
  {
    if st.keys[sid].value.adminId == id {
      assert sid in Members(st.index, id, now) - sids;
    }
  }

  /** Destroying a session through its id, whatever admin the caller names. */
  lemma KeepsDestroyed(
    cfg: Config, st: Store, now: int, mint: Mint, durable: bool, sids: set<SessionId>, id: AdminId, reason: EndReason)
    requires Inv(cfg, st, now, mint)
    ensures Inv(cfg, Destroyed(st, now, durable, sids, id, reason), now, mint)
    ensures Evolves(st, now, mint, Destroyed(st, now, durable, sids, id, reason), now)
  {
    var st' := Destroyed(st, now, durable, sids, id, reason);
    forall sid: SessionId ensures KeyOk(cfg, st', now, mint, sid) { assert KeyOk(cfg, st, now, mint, sid); }
    forall sid: SessionId ensures LiveOk(st', now, sid) {
      assert LiveOk(st, now, sid);
      if IsLive(st', now, sid) { StaysIndexed(st, now, id, sids, sid); }
    }
    forall i: AdminId ensures IndexOk(st', mint, i) { assert IndexOk(st, mint, i); }
    forall t | t in mint.signed ensures TokenOk(st', mint, t) { assert TokenOk(st, mint, t); }
  }

  lemma KeepsAllDestroyed(
    cfg: Config, st: Store, now: int, mint: Mint, durable: bool, id: AdminId, reason: EndReason)
    requires Inv(cfg, st, now, mint)
    ensures Inv(cfg, AllDestroyed(st, now, durable, id, reason), now, mint)
    ensures Evolves(st, now, mint, AllDestroyed(st, now, durable, id, reason), now)
    ensures forall sid :: IsLive(AllDestroyed(st, now, durable, id, reason), now, sid)
              ==> AllDestroyed(st, now, durable, id, reason).keys[sid].value.adminId != id
  {
    var st' := AllDestroyed(st, now, durable, id, reason);
    forall sid: SessionId ensures KeyOk(cfg, st', now, mint, sid) { assert KeyOk(cfg, st, now, mint, sid); }
    forall sid: SessionId
      ensures LiveOk(st', now, sid)
      ensures IsLive(st', now, sid) ==> st'.keys[sid].value.adminId != id
    {
      assert LiveOk(st, now, sid);
    }
    forall i: AdminId ensures IndexOk(st', mint, i) { assert IndexOk(st, mint, i); }
    forall t | t in mint.signed ensures TokenOk(st', mint, t) { assert TokenOk(st, mint, t); }
  }

  lemma KeepsGet(cfg: Config, st: Store, now: int, mint: Mint, durable: bool, sid: SessionId, touch: bool)
    requires Inv(cfg, st, now, mint)
    ensures Inv(cfg, AfterGet(cfg, st, now, durable, sid, touch), now, mint)
    ensures Evolves(st, now, mint, AfterGet(cfg, st, now, durable, sid, touch), now)
  {
    match Lookedup(st, now, sid)
    case Missing =>
    case Expired(record) => KeepsDestroyed(cfg, st, now, mint, durable, {sid}, record.adminId, AbsoluteExpired);
    case Live(record) =>
      var st' := AfterGet(cfg, st, now, durable, sid, touch);
      forall s: SessionId ensures KeyOk(cfg, st', now, mint, s) { assert KeyOk(cfg, st, now, mint, s); }
      forall s: SessionId ensures LiveOk(st', now, s) { assert LiveOk(st, now, s); }
      forall i: AdminId ensures IndexOk(st', mint, i) { assert IndexOk(st, mint, i); }
      forall t | t in mint.signed ensures TokenOk(st', mint, t) { assert TokenOk(st, mint, t); }
  }

  /** Signing the next refresh token and rotating to it when the presented one is current. */
  lemma KeepsRotate(
    cfg: Config, st: Store, now: int, mint: Mint, durable: bool, id: AdminId, sid: SessionId, presented: Token)
    requires Inv(cfg, st, now, mint) && sid < mint.next
    requires IsLive(st, now, sid) && st.keys[sid].value.adminId == id
    ensures var next := RefreshTokenFor(cfg, mint, now, id, sid);
            var st' := AfterRotate(cfg, st, now, durable, sid, presented, next);
            Inv(cfg, st', now, Signed(Advanced(mint), next)) && Evolves(st, now, mint, st', now)
  {
    var next := RefreshTokenFor(cfg, mint, now, id, sid);
    var mint' := Signed(Advanced(mint), next);
    var st' := AfterRotate(cfg, st, now, durable, sid, presented, next);
    assert KeyOk(cfg, st, now, mint, sid);
    forall s: SessionId ensures KeyOk(cfg, st', now, mint', s) { assert KeyOk(cfg, st, now, mint, s); }
    forall s: SessionId ensures LiveOk(st', now, s) { assert LiveOk(st, now, s); }
    forall i: AdminId ensures IndexOk(st', mint', i) { assert IndexOk(st, mint, i); }
    forall t | t in mint'.signed ensures TokenOk(st', mint', t) {
      if t != next { assert TokenOk(st, mint, t); }
    }
  }

  /** An access token for a session this service knows. */
  lemma KeepsSigned(cfg: Config, st: Store, now: int, mint: Mint, t: Token)
    requires Inv(cfg, st, now, mint) && t.Access? && t.sid < mint.next
    requires t.sid in st.keys ==> st.keys[t.sid].value.adminId == t.sub
    ensures Inv(cfg, st, now, Signed(mint, t))
  {
    var mint' := Signed(mint, t);
    forall s: SessionId ensures KeyOk(cfg, st, now, mint', s) { assert KeyOk(cfg, st, now, mint, s); }
    forall i: AdminId ensures IndexOk(st, mint', i) { assert IndexOk(st, mint, i); }
    forall u | u in mint'.signed ensures TokenOk(st, mint', u) {
      if u != t { assert TokenOk(st, mint, u); }
    }
  }

  lemma KeepsAdvanced(cfg: Config, st: Store, now: int, mint: Mint)
    requires Inv(cfg, st, now, mint)
    ensures Inv(cfg, st, now, Advanced(mint))
  {
    var mint' := Advanced(mint);
    forall s: SessionId ensures KeyOk(cfg, st, now, mint', s) { assert KeyOk(cfg, st, now, mint, s); }
    forall i: AdminId ensures IndexOk(st, mint', i) { assert IndexOk(st, mint, i); }
    forall t | t in mint'.signed ensures TokenOk(st, mint', t) { assert TokenOk(st, mint, t); }
  }

  /** A new session under a fresh id, with its first refresh token. */
  lemma KeepsCreated(cfg: Config, st: Store, now: int, mint: Mint, durable: bool, s: NewSession)
    requires cfg.Valid() && Inv(cfg, st, now, mint) && s.sid == mint.next
    requires s.refreshToken == RefreshTokenFor(cfg, Advanced(mint), now, s.adminId, s.sid)
    ensures Inv(cfg, Created(cfg, st, now, durable, s), now, Signed(Advanced(Advanced(mint)), s.refreshToken))
    ensures Evolves(st, now, mint, Created(cfg, st, now, durable, s), now)
  {
    var mint' := Signed(Advanced(Advanced(mint)), s.refreshToken);
    var st' := Created(cfg, st, now, durable, s);
    assert KeyOk(cfg, st, now, mint, s.sid);
    forall sid: SessionId ensures KeyOk(cfg, st', now, mint', sid) { assert KeyOk(cfg, st, now, mint, sid); }
    forall sid: SessionId ensures LiveOk(st', now, sid) {
      assert LiveOk(st, now, sid);
      assert KeyOk(cfg, st, now, mint, sid);
    }
    forall i: AdminId ensures IndexOk(st', mint', i) {
      assert IndexOk(st, mint, i);
    }
    forall t | t in mint'.signed ensures TokenOk(st', mint', t) {
      if t != s.refreshToken { assert TokenOk(st, mint, t); }
    }
  }

  lemma KeepsHealed(cfg: Config, st: Store, now: int, mint: Mint, id: AdminId)
    requires Inv(cfg, st, now, mint)
    ensures Inv(cfg, Healed(st, now, id), now, mint)
    ensures Evolves(st, now, mint, Healed(st, now, id), now)
  {
    var st' := Healed(st, now, id);
    forall sid: SessionId ensures KeyOk(cfg, st', now, mint, sid) { assert KeyOk(cfg, st, now, mint, sid); }
    forall sid: SessionId ensures LiveOk(st', now, sid) {
      assert LiveOk(st, now, sid);
      if IsLive(st', now, sid) { StaysIndexed(st, now, id, Gone(st, now, Members(st.index, id, now)), sid); }
    }
    forall i: AdminId ensures IndexOk(st', mint, i) { assert IndexOk(st, mint, i); }
    forall t | t in mint.signed ensures TokenOk(st', mint, t) { assert TokenOk(st, mint, t); }
  }

  lemma KeepsSeen(cfg: Config, st: Store, now: int, mint: Mint, durable: bool, sid: SessionId)
    requires Inv(cfg, st, now, mint)
    ensures Inv(cfg, Seen(st, now, durable, sid), now, mint)
    ensures Evolves(st, now, mint, Seen(st, now, durable, sid), now)
  {
    var st' := Seen(st, now, durable, sid);
    forall s: SessionId ensures KeyOk(cfg, st', now, mint, s) { assert KeyOk(cfg, st, now, mint, s); }
    forall s: SessionId ensures LiveOk(st', now, s) { assert LiveOk(st, now, s); }
    forall i: AdminId ensures IndexOk(st', mint, i) { assert IndexOk(st, mint, i); }
    forall t | t in mint.signed ensures TokenOk(st', mint, t) { assert TokenOk(st, mint, t); }
  }

  lemma EvolvesTwice(st0: Store, t0: int, m0: Mint, st1: Store, t1: int, m1: Mint, st2: Store, t2: int)
    requires Evolves(st0, t0, m0, st1, t1) && Evolves(st1, t1, m1, st2, t2) && m0.next <= m1.next
    ensures Evolves(st0, t0, m0, st2, t2)
  {
    forall sid: SessionId | sid < m0.next
      ensures NotRevived(st0, t0, st2, t2, sid)
      ensures RowKept(st0, st2, sid)
    {
      assert NotRevived(st0, t0, st1, t1, sid) && NotRevived(st1, t1, st2, t2, sid);
      assert RowKept(st0, st1, sid) && RowKept(st1, st2, sid);
    }
  }
}
