/**
 * Session lifecycle (src/modules/admin-identity/domain/session.service.ts): the live session under
 * its Redis key, the per-admin index set, and the durable history row.
 *
 * The functions on `Store` say what each operation does to the three stores; `SessionService`
 * performs it on mutable fields, key by key. `durable` says whether the history database accepts
 * this call's writes, which are best effort.
 */
module Sessions {
  import opened Prelude
  import opened Settings
  import opened StableSort
  import opened Tokens

  datatype EndReason =
    | Logout | LogoutAll | RevokedByAdmin | AccountSuspended | TierChanged | PasswordReset
    | MfaReset | RefreshReuseDetected | IdleExpired | AbsoluteExpired

  datatype SessionRecord = SessionRecord(
    adminId: AdminId, tier: nat, refreshTokenHash: Fingerprint, startedAt: int,
    absoluteExpiresAt: int, mfaUsed: bool, pendingMfaEnrolment: bool)

  datatype Ending = Ending(at: int, reason: EndReason)

  datatype Row = Row(
    adminId: AdminId, tierAtLogin: nat, mfaUsed: bool, startedAt: int, absoluteExpiresAt: int,
    lastSeenAt: int, ended: Option<Ending>)

  datatype Store = Store(
    keys: map<SessionId, Entry<SessionRecord>>,
    index: map<AdminId, Entry<set<SessionId>>>,
    rows: map<SessionId, Row>)

  datatype Lookup = Live(record: SessionRecord) | Missing | Expired(record: SessionRecord)

  datatype Summary = Summary(
    sid: SessionId, startedAt: int, absoluteExpiresAt: int, mfaUsed: bool, current: bool)

  datatype NewSession = NewSession(
    sid: SessionId, adminId: AdminId, tier: nat, refreshToken: Token, mfaUsed: bool, pending: bool)

  // ── What each operation does to the stores ────────────────────────────────

  function Members(index: map<AdminId, Entry<set<SessionId>>>, adminId: AdminId, now: int): set<SessionId> {
    if Held(index, adminId, now) then index[adminId].value else {}
  }

  /** SREM of several ids: the set's deadline stays, and an emptied set is deleted. */
  function SetRemove(
    index: map<AdminId, Entry<set<SessionId>>>, adminId: AdminId, now: int, sids: set<SessionId>
  ): map<AdminId, Entry<set<SessionId>>> {
    var members := Members(index, adminId, now);
    var rest := members - sids;
    if rest == members then index
    else if rest == {} then index - {adminId}
    else index[adminId := Entry(rest, index[adminId].deadline)]
  }

  function RecordOf(cfg: Config, now: int, s: NewSession): SessionRecord {
    SessionRecord(s.adminId, s.tier, Sha256(s.refreshToken), now, now + cfg.absoluteTtl, s.mfaUsed, s.pending)
  }

  function Created(cfg: Config, st: Store, now: int, durable: bool, s: NewSession): Store {
    var record := RecordOf(cfg, now, s);
    Store(
      st.keys[s.sid := Entry(record, now + cfg.idleTtl)],
      st.index[s.adminId := Entry(Members(st.index, s.adminId, now) + {s.sid}, now + cfg.absoluteTtl)],
      if durable
      then st.rows[s.sid := Row(s.adminId, s.tier, s.mfaUsed, now, record.absoluteExpiresAt, now, None)]
      else st.rows)
  }

  /** `updateOne/Many({ended_at: null})`: an ended row keeps its first ending. */
  function Stamp(row: Row, now: int, reason: EndReason): Row {
    if row.ended.None? then row.(ended := Some(Ending(now, reason))) else row
  }

  function StampRows(
    rows: map<SessionId, Row>, now: int, durable: bool, which: set<SessionId>, reason: EndReason
  ): map<SessionId, Row> {
    if durable
    then map sid | sid in rows :: if sid in which then Stamp(rows[sid], now, reason) else rows[sid]
    else rows
  }

  function Destroyed(
    st: Store, now: int, durable: bool, sids: set<SessionId>, adminId: AdminId, reason: EndReason
  ): Store {
    Store(
      st.keys - sids,
      SetRemove(st.index, adminId, now, sids),
      StampRows(st.rows, now, durable, sids, reason))
  }

  function OwnedRows(rows: map<SessionId, Row>, adminId: AdminId): set<SessionId> {
    set sid | sid in rows && rows[sid].adminId == adminId
  }

  function AllDestroyed(st: Store, now: int, durable: bool, adminId: AdminId, reason: EndReason): Store {
    Store(
      st.keys - Members(st.index, adminId, now),
      st.index - {adminId},
      StampRows(st.rows, now, durable, OwnedRows(st.rows, adminId), reason))
  }

  function Lookedup(st: Store, now: int, sid: SessionId): Lookup {
    if !Held(st.keys, sid, now) then Missing
    else if st.keys[sid].value.absoluteExpiresAt <= now then Expired(st.keys[sid].value)
    else Live(st.keys[sid].value)
  }

  function AfterGet(cfg: Config, st: Store, now: int, durable: bool, sid: SessionId, touch: bool): Store {
    match Lookedup(st, now, sid)
    case Missing => st
    case Expired(record) => Destroyed(st, now, durable, {sid}, record.adminId, AbsoluteExpired)
    case Live(record) =>
      if touch then st.(keys := st.keys[sid := Entry(record, now + cfg.idleTtl)]) else st
  }

  predicate Rotates(st: Store, now: int, sid: SessionId, presented: Token) {
    Lookedup(st, now, sid).Live? && st.keys[sid].value.refreshTokenHash == Sha256(presented)
  }

  function AfterRotate(
    cfg: Config, st: Store, now: int, durable: bool, sid: SessionId, presented: Token, next: Token
  ): Store {
    if Rotates(st, now, sid, presented) then
      var record := st.keys[sid].value.(refreshTokenHash := Sha256(next));
      st.(keys := st.keys[sid := Entry(record, st.keys[sid].deadline)])
    else AfterGet(cfg, st, now, durable, sid, false)
  }

  function Gone(st: Store, now: int, sids: set<SessionId>): set<SessionId> {
    set sid | sid in sids && !Held(st.keys, sid, now)
  }

  function Healed(st: Store, now: int, adminId: AdminId): Store {
    st.(index := SetRemove(st.index, adminId, now, Gone(st, now, Members(st.index, adminId, now))))
  }

  function SummaryOf(st: Store, sid: SessionId, current: Option<SessionId>): Summary
    requires sid in st.keys
  {
    var r := st.keys[sid].value;
    Summary(sid, r.startedAt, r.absoluteExpiresAt, r.mfaUsed, current == Some(sid))
  }

  function HeldIn(st: Store, now: int, sids: set<SessionId>): set<SessionId> {
    set sid | sid in sids && Held(st.keys, sid, now)
  }

  function Listed(st: Store, now: int, adminId: AdminId): set<SessionId> {
    HeldIn(st, now, Members(st.index, adminId, now))
  }

  function Summaries(st: Store, now: int, sids: set<SessionId>, current: Option<SessionId>): set<Summary> {
    set sid | sid in sids && Held(st.keys, sid, now) :: SummaryOf(st, sid, current)
  }

  function NewestFirst(): (Summary, Summary) -> bool {
    (a: Summary, b: Summary) => b.startedAt <= a.startedAt
  }

  function Seen(st: Store, now: int, durable: bool, sid: SessionId): Store {
    if durable && sid in st.rows then st.(rows := st.rows[sid := st.rows[sid].(lastSeenAt := now)]) else st
  }

  datatype Past = Past(
    sid: SessionId, startedAt: int, absoluteExpiresAt: int, mfaUsed: bool, endedAt: Option<int>,
    endReason: Option<EndReason>, lastSeenAt: int, tierAtLogin: nat)

  /** One row of the history: its stamp, else nothing for a listed session, else idle expiry. */
  function PastOf(sid: SessionId, row: Row, listed: bool): Past {
    var (at, reason) :=
      match row.ended
      case Some(e) => (Some(e.at), Some(e.reason))
      case None => (None, if listed then None else Some(IdleExpired));
    Past(sid, row.startedAt, row.absoluteExpiresAt, row.mfaUsed, at, reason, row.lastSeenAt, row.tierAtLogin)
  }

  function StartOf(rows: map<SessionId, Row>, sid: SessionId): int { if sid in rows then rows[sid].startedAt else 0 }

  function LatestStart(rows: map<SessionId, Row>): (SessionId, SessionId) -> bool {
    (a: SessionId, b: SessionId) => StartOf(rows, b) <= StartOf(rows, a)
  }

  /** An order a query for this admin's rows, newest first, may return. */
  ghost predicate RowOrder(st: Store, adminId: AdminId, order: seq<SessionId>) {
    multiset(order) == multiset(OwnedRows(st.rows, adminId)) && Sorted(order, LatestStart(st.rows))
  }

  /** The newest `limit` rows of one admin, each with what became of it. */
  ghost predicate IsHistory(st: Store, now: int, adminId: AdminId, limit: nat, out: seq<Past>) {
    exists order :: RowOrder(st, adminId, order) && Reports(st, now, adminId, limit, order, out)
  }

  /** `.limit(0)` is no limit. */
  function Cut(limit: nat, n: nat): nat { if 0 < limit < n then limit else n }

  predicate Reports(st: Store, now: int, adminId: AdminId, limit: nat, order: seq<SessionId>, out: seq<Past>) {
    && |out| == Cut(limit, |order|)
    && forall i :: 0 <= i < |out| ==>
         order[i] in st.rows && out[i] == PastOf(order[i], st.rows[order[i]], order[i] in Listed(st, now, adminId))
  }

  lemma DestroyedInSteps(
    st: Store, now: int, durable: bool, done: set<SessionId>, sid: SessionId, adminId: AdminId, reason: EndReason)
    ensures Destroyed(Destroyed(st, now, durable, done, adminId, reason), now, durable, {sid}, adminId, reason)
         == Destroyed(st, now, durable, done + {sid}, adminId, reason)
  {
    var members := Members(st.index, adminId, now);
    assert (members - done) - {sid} == members - (done + {sid});
    var one := Destroyed(st, now, durable, done, adminId, reason);
    assert Members(one.index, adminId, now) == members - done;
    var two := Destroyed(one, now, durable, {sid}, adminId, reason);
    var both := Destroyed(st, now, durable, done + {sid}, adminId, reason);
    assert two.keys == both.keys;
    assert two.rows == both.rows;
    assert two.index == both.index;
  }

  lemma DestroyedNone(st: Store, now: int, durable: bool, adminId: AdminId, reason: EndReason)
    ensures Destroyed(st, now, durable, {}, adminId, reason) == st
  {
    var members := Members(st.index, adminId, now);
    assert members - {} == members;
    assert st.keys - {} == st.keys;
  }

  lemma ListStep(
    st: Store, now: int, done: set<SessionId>, sid: SessionId, adminId: AdminId, current: Option<SessionId>)
    requires sid !in done
    ensures Held(st.keys, sid, now) ==>
      && Gone(st, now, done + {sid}) == Gone(st, now, done)
      && multiset(Summaries(st, now, done + {sid}, current))
         == multiset(Summaries(st, now, done, current)) + multiset{SummaryOf(st, sid, current)}
    ensures !Held(st.keys, sid, now) ==>
      && Summaries(st, now, done + {sid}, current) == Summaries(st, now, done, current)
      && SetRemove(st.index, adminId, now, Gone(st, now, done + {sid}))
         == SetRemove(SetRemove(st.index, adminId, now, Gone(st, now, done)), adminId, now, {sid})
  {
    if Held(st.keys, sid, now) {
      assert Gone(st, now, done + {sid}) == Gone(st, now, done);
      var x := SummaryOf(st, sid, current);
      assert Summaries(st, now, done + {sid}, current) == Summaries(st, now, done, current) + {x};
      assert x !in Summaries(st, now, done, current);
    } else {
      assert Gone(st, now, done + {sid}) == Gone(st, now, done) + {sid};
      assert Summaries(st, now, done + {sid}, current) == Summaries(st, now, done, current);
      DestroyedInSteps(st, now, false, Gone(st, now, done), sid, adminId, Logout);
    }
  }

  // ── The service ───────────────────────────────────────────────────────────

  lemma SummariesNameListed(st: Store, now: int, adminId: AdminId, live: seq<Summary>)
    requires multiset(live) == multiset(Summaries(st, now, Members(st.index, adminId, now), None))
    ensures (set s | s in live :: s.sid) == Listed(st, now, adminId)
  {
    var found := Summaries(st, now, Members(st.index, adminId, now), None);
    forall s ensures s in live <==> s in found {
      assert s in multiset(live) <==> s in live;
    }
    forall sid | sid in Listed(st, now, adminId) ensures sid in set s | s in live :: s.sid {
      assert SummaryOf(st, sid, None) in found;
    }
  }

  class SessionService {
    const cfg: Config
    var keys: map<SessionId, Entry<SessionRecord>>
    var index: map<AdminId, Entry<set<SessionId>>>
    var rows: map<SessionId, Row>

    constructor (cfg: Config)
      ensures this.cfg == cfg && View() == Store(map[], map[], map[])
    {
      this.cfg, keys, index, rows := cfg, map[], map[], map[];
    }

    function View(): Store reads this { Store(keys, index, rows) }

    method CreateSession(now: int, durable: bool, s: NewSession) returns (record: SessionRecord)
      modifies this
      ensures record == RecordOf(cfg, now, s)
      ensures View() == Created(cfg, old(View()), now, durable, s)
    {
      record := SessionRecord(
        s.adminId, s.tier, Sha256(s.refreshToken), now, now + cfg.absoluteTtl, s.mfaUsed, s.pending);
      keys := keys[s.sid := Entry(record, now + cfg.idleTtl)];
      var members := Members(index, s.adminId, now);
      index := index[s.adminId := Entry(members + {s.sid}, now + cfg.absoluteTtl)];
      if durable {
        rows := rows[s.sid := Row(s.adminId, s.tier, s.mfaUsed, now, record.absoluteExpiresAt, now, None)];
      }
    }

    method RemoveFromIndex(now: int, adminId: AdminId, sid: SessionId)
      modifies this`index
      ensures index == SetRemove(old(index), adminId, now, {sid})
    {
      var members := Members(index, adminId, now);
      if sid in members {
        var rest := members - {sid};
        if rest == {} {
          index := index - {adminId};
        } else {
          index := index[adminId := Entry(rest, index[adminId].deadline)];
        }
      }
    }

    method DestroySession(now: int, durable: bool, sid: SessionId, adminId: AdminId, reason: EndReason)
      modifies this
      ensures View() == Destroyed(old(View()), now, durable, {sid}, adminId, reason)
    {
      keys := keys - {sid};
      RemoveFromIndex(now, adminId, sid);
      if durable && sid in rows && rows[sid].ended.None? {
        rows := rows[sid := rows[sid].(ended := Some(Ending(now, reason)))];
      }
    }

    method GetSession(now: int, durable: bool, sid: SessionId, touch: bool) returns (r: Lookup)
      modifies this
      ensures r == Lookedup(old(View()), now, sid)
      ensures View() == AfterGet(cfg, old(View()), now, durable, sid, touch)
    {
      if !Held(keys, sid, now) { return Missing; }
      var record := keys[sid].value;
      if record.absoluteExpiresAt <= now {
        DestroySession(now, durable, sid, record.adminId, AbsoluteExpired);
        return Expired(record);
      }
      if touch {
        keys := keys[sid := Entry(record, now + cfg.idleTtl)];
      }
      return Live(record);
    }

    method RotateRefreshToken(now: int, durable: bool, sid: SessionId, presented: Token, next: Token)
      returns (rotated: bool)
      modifies this
      ensures rotated == Rotates(old(View()), now, sid, presented)
      ensures View() == AfterRotate(cfg, old(View()), now, durable, sid, presented, next)
    {
      var lookup := GetSession(now, durable, sid, false);
      if !lookup.Live? { return false; }
      if lookup.record.refreshTokenHash != Sha256(presented) { return false; }
      var updated := lookup.record.(refreshTokenHash := Sha256(next));
      var remaining := keys[sid].deadline - now;
      keys := keys[sid := Entry(updated, now + (if remaining > 0 then remaining else cfg.idleTtl))];
      return true;
    }

    /** Sign out everywhere: the keys go by the index, the rows by the admin they carry. */
    method DestroyAllSessions(now: int, durable: bool, adminId: AdminId, reason: EndReason) returns (ended: nat)
      modifies this
      ensures ended == |Members(old(index), adminId, now)|
      ensures View() == AllDestroyed(old(View()), now, durable, adminId, reason)
    {
      var sids := Members(index, adminId, now);
      ended := |sids|;
      var todo := sids;
      while todo != {}
        invariant todo <= sids
        invariant index == old(index) && rows == old(rows)
        invariant keys == old(keys) - (sids - todo)
        decreases todo
      {
        var sid :| sid in todo;
        keys := keys - {sid};
        assert sids - (todo - {sid}) == (sids - todo) + {sid};
        todo := todo - {sid};
      }
      index := index - {adminId};
      assert sids - {} == sids;
      if durable {
        var owned := OwnedRows(rows, adminId);
        rows := map sid | sid in rows :: if sid in owned then Stamp(rows[sid], now, reason) else rows[sid];
      }
    }

    method DestroyOtherSessions(now: int, durable: bool, adminId: AdminId, keep: SessionId, reason: EndReason)
      returns (ended: nat)
      modifies this
      ensures ended == |Members(old(index), adminId, now) - {keep}|
      ensures var doomed := Members(old(index), adminId, now) - {keep};
        View() == Destroyed(old(View()), now, durable, doomed, adminId, reason)
    {
      ghost var st := View();
      var doomed := Members(index, adminId, now) - {keep};
      ended := |doomed|;
      var todo := doomed;
      ghost var done: set<SessionId> := {};
      DestroyedNone(st, now, durable, adminId, reason);
      while todo != {}
        invariant done + todo == doomed
        invariant View() == Destroyed(st, now, durable, done, adminId, reason)
        decreases todo
      {
        var sid :| sid in todo;
        DestroyedInSteps(st, now, durable, done, sid, adminId, reason);
        DestroySession(now, durable, sid, adminId, reason);
        todo, done := todo - {sid}, done + {sid};
      }
      assert done == doomed;
    }

    /** The stored sessions of one admin, newest first; index entries whose key is gone are dropped on the way. */
    method ListSessions(now: int, adminId: AdminId, current: Option<SessionId>) returns (out: seq<Summary>)
      modifies this`index
      ensures View() == Healed(old(View()), now, adminId)
      ensures multiset(out) == multiset(Summaries(old(View()), now, Members(old(index), adminId, now), current))
      ensures Sorted(out, NewestFirst())
    {
      ghost var st := View();
      var members := Members(index, adminId, now);
      var todo := members;
      var found: seq<Summary> := [];
      assert members - members == {};
      while todo != {}
        invariant todo <= members && keys == st.keys && rows == st.rows
        invariant index == SetRemove(st.index, adminId, now, Gone(st, now, members - todo))
        invariant multiset(found) == multiset(Summaries(st, now, members - todo, current))
        decreases todo
      {
        var sid :| sid in todo;
        assert members - (todo - {sid}) == (members - todo) + {sid};
        ListStep(st, now, members - todo, sid, adminId, current);
        if !Held(keys, sid, now) {
          RemoveFromIndex(now, adminId, sid);
        } else {
          var r := keys[sid].value;
          found := found + [Summary(sid, r.startedAt, r.absoluteExpiresAt, r.mfaUsed, current == Some(sid))];
        }
        todo := todo - {sid};
      }
      assert members - {} == members;
      SortIsSorted(found, NewestFirst());
      out := Sort(found, NewestFirst());
    }

    /** The durable rows of one admin, newest first, cut at `limit`; the stored sessions say which are not over. */
    method ListSessionHistory(now: int, adminId: AdminId, limit: nat) returns (out: seq<Past>)
      modifies this`index
      ensures View() == Healed(old(View()), now, adminId)
      ensures IsHistory(old(View()), now, adminId, limit, out)
    {
      ghost var st := View();
      var order := RowsOf(adminId);
      var live := ListSessions(now, adminId, None);
      var liveIds := set s | s in live :: s.sid;
      SummariesNameListed(st, now, adminId, live);
      var n := Cut(limit, |order|);
      forall i | 0 <= i < |order| ensures order[i] in rows { assert order[i] in multiset(order); }
      out := [];
      for i := 0 to n
        invariant |out| == i
        invariant forall j :: 0 <= j < i ==> out[j] == PastOf(order[j], rows[order[j]], order[j] in liveIds)
      {
        out := out + [PastOf(order[i], rows[order[i]], order[i] in liveIds)];
      }
      assert Reports(st, now, adminId, limit, order, out);
    }

    method RowsOf(adminId: AdminId) returns (order: seq<SessionId>)
      ensures RowOrder(View(), adminId, order)
    {
      var owned := OwnedRows(rows, adminId);
      var todo := owned;
      order := [];
      while todo != {}
        invariant todo <= owned && multiset(order) == multiset(owned - todo)
        decreases todo
      {
        var sid :| sid in todo;
        assert owned - (todo - {sid}) == (owned - todo) + {sid};
        order, todo := order + [sid], todo - {sid};
      }
      assert owned - {} == owned;
      SortIsSorted(order, LatestStart(rows));
      order := Sort(order, LatestStart(rows));
    }

    method MarkSeen(now: int, durable: bool, sid: SessionId)
      modifies this`rows
      ensures View() == Seen(old(View()), now, durable, sid)
    {
      if durable && sid in rows {
        rows := rows[sid := rows[sid].(lastSeenAt := now)];
      }
    }
  }
}
