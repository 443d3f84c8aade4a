/**
 * What each source of the activity feed selects (buildCreditFilter, ownerScopedFilter and listBefore in
 * src/modules/accounts/repositories/credit.read.repository.ts; the ledger and payout repositories
 * build the same owner terms). A filter is the conjunction of its clauses.
 */
module FeedSources {
  import opened Prelude
  import opened ActivityFeed
  import opened FeedFilters
  import opened FeedWalk

  /** A stored document: the candidate made of it, and the fields a filter reads. */
  datatype Row = Row(item: Candidate, ownerType: string, ownerId: nat, kind: string, reasonCode: string)

  datatype Clause =
    | OwnerTypeIs(ownerType: string)
    /** None is `{ $in: [] }`, the term for a malformed id. */
    | OwnerIdIs(ownerId: Option<nat>)
    | ReasonNotIn(codes: set<string>)
    | KindIs(kind: string)
    | ReasonIs(code: string)
    | OlderThan(instant: int)

  const TOPUP_REASON_CODES := {"topup_purchase", "topup_reversal"}

  /** The credit ledger is the third of the five sources. */
  const CREDITS := 2

  predicate Meets(r: Row, c: Clause) {
    match c
    case OwnerTypeIs(t) => r.ownerType == t
    case OwnerIdIs(id) => id == Some(r.ownerId)
    case ReasonNotIn(codes) => r.reasonCode !in codes
    case KindIs(k) => r.kind == k
    case ReasonIs(code) => r.reasonCode == code
    case OlderThan(t) => r.item.at < t
  }

  predicate MeetsAll(r: Row, cs: seq<Clause>) { forall i :: 0 <= i < |cs| ==> Meets(r, cs[i]) }

  /** An empty `kind` or `reason` is no term. */
  predicate CreditSelects(
    r: Row, ownerType: string, ownerId: Option<nat>, kind: string, reason: string, before: Option<int>)
  {
    && r.ownerType == ownerType && ownerId == Some(r.ownerId) && r.reasonCode !in TOPUP_REASON_CODES
    && (kind != "" ==> r.kind == kind) && (reason != "" ==> r.reasonCode == reason)
    && Before(before)(r.item)
  }

  /** The filter selects exactly the owner's rows that no top-up already describes, older than the cursor. */
  method BuildCreditFilter(ownerType: string, ownerId: Option<nat>, kind: string, reason: string, before: Option<int>)
    returns (clauses: seq<Clause>)
    ensures forall r :: MeetsAll(r, clauses) <==> CreditSelects(r, ownerType, ownerId, kind, reason, before)
  {
    clauses := [OwnerTypeIs(ownerType), OwnerIdIs(ownerId), ReasonNotIn(TOPUP_REASON_CODES)];
    if kind != "" {
      clauses := clauses + [KindIs(kind)];
    }
    if reason != "" {
      clauses := clauses + [ReasonIs(reason)];
    }
    if before.Some? {
      clauses := clauses + [OlderThan(before.value)];
    }
    CreditClausesMean(clauses, ownerType, ownerId, kind, reason, before);
  }

  function CreditClauses(
    ownerType: string, ownerId: Option<nat>, kind: string, reason: string, before: Option<int>): seq<Clause>
  {
    [OwnerTypeIs(ownerType), OwnerIdIs(ownerId), ReasonNotIn(TOPUP_REASON_CODES)]
    + (if kind != "" then [KindIs(kind)] else [])
    + (if reason != "" then [ReasonIs(reason)] else [])
    + (if before.Some? then [OlderThan(before.value)] else [])
  }

  lemma MeetsBoth(r: Row, a: seq<Clause>, b: seq<Clause>)
    ensures MeetsAll(r, a + b) <==> MeetsAll(r, a) && MeetsAll(r, b)
  {
    if MeetsAll(r, a + b) {
      forall i | 0 <= i < |b| ensures Meets(r, b[i]) { assert b[i] == (a + b)[|a| + i]; }
      forall i | 0 <= i < |a| ensures Meets(r, a[i]) { assert a[i] == (a + b)[i]; }
    }
  }

  lemma CreditClausesMean(
    cs: seq<Clause>, ownerType: string, ownerId: Option<nat>, kind: string, reason: string, before: Option<int>)
    requires cs == CreditClauses(ownerType, ownerId, kind, reason, before)
    ensures forall r :: MeetsAll(r, cs) <==> CreditSelects(r, ownerType, ownerId, kind, reason, before)
  {
    var a := [OwnerTypeIs(ownerType), OwnerIdIs(ownerId), ReasonNotIn(TOPUP_REASON_CODES)];
    var b: seq<Clause> := if kind != "" then [KindIs(kind)] else [];
    var c: seq<Clause> := if reason != "" then [ReasonIs(reason)] else [];
    var d: seq<Clause> := if before.Some? then [OlderThan(before.value)] else [];
    forall r ensures MeetsAll(r, cs) <==> CreditSelects(r, ownerType, ownerId, kind, reason, before) {
      MeetsBoth(r, a + b + c, d);
      MeetsBoth(r, a + b, c);
      MeetsBoth(r, a, b);
      assert MeetsAll(r, a) <==> Meets(r, a[0]) && Meets(r, a[1]) && Meets(r, a[2]);
    }
  }

  predicate OwnerSelects(r: Row, ownerType: string, ownerId: Option<nat>, before: Option<int>) {
    r.ownerType == ownerType && ownerId == Some(r.ownerId) && Before(before)(r.item)
  }

  /** The filter of the other four sources. */
  method OwnerScopedFilter(ownerType: string, ownerId: Option<nat>, before: Option<int>) returns (clauses: seq<Clause>)
    ensures forall r :: MeetsAll(r, clauses) <==> OwnerSelects(r, ownerType, ownerId, before)
  {
    clauses := [OwnerTypeIs(ownerType), OwnerIdIs(ownerId)];
    ghost var owner := clauses;
    if before.Some? {
      clauses := clauses + [OlderThan(before.value)];
      forall r ensures MeetsAll(r, clauses) <==> MeetsAll(r, owner) && r.item.at < before.value {
        var older := [OlderThan(before.value)];
        MeetsBoth(r, owner, older);
        assert MeetsAll(r, older) <==> Meets(r, older[0]);
      }
    }
    forall r ensures MeetsAll(r, owner) <==> r.ownerType == ownerType && ownerId == Some(r.ownerId) {
      assert MeetsAll(r, owner) <==> Meets(r, owner[0]) && Meets(r, owner[1]);
    }
  }

  // ── One request over the stored rows ──────────────────────────────────────

  /** What the k-th source's filter selects. */
  predicate Selects(k: nat, r: Row, ownerType: string, ownerId: Option<nat>, before: Option<int>) {
    if k == CREDITS then CreditSelects(r, ownerType, ownerId, "", "", before)
    else OwnerSelects(r, ownerType, ownerId, before)
  }

  function Selected(rows: seq<Row>, p: Row -> bool): seq<Candidate> {
    if rows == [] then [] else (if p(rows[0]) then [rows[0].item] else []) + Selected(rows[1..], p)
  }

  function SourceRows(
    k: nat, rows: seq<Row>, ownerType: string, ownerId: Option<nat>, before: Option<int>): seq<Candidate>
  {
    Selected(rows, (r: Row) => Selects(k, r, ownerType, ownerId, before))
  }

  /** The feed of one owner: what the five collections hold for it. */
  function OwnersFeed(raw: seq<seq<Row>>, ownerType: string, ownerId: Option<nat>): Feed {
    seq(|raw|, k requires 0 <= k < |raw| => SourceRows(k, raw[k], ownerType, ownerId, None))
  }

  lemma {:induction false} SameSelection(rows: seq<Row>, p: Row -> bool, q: Row -> bool)
    requires forall r :: p(r) <==> q(r)
    ensures Selected(rows, p) == Selected(rows, q)
  {
    if rows != [] {
      SameSelection(rows[1..], p, q);
    }
  }

  lemma {:induction false} SelectionBelow(rows: seq<Row>, p: Row -> bool, q: Row -> bool, cursor: Option<int>)
    requires forall r :: q(r) <==> p(r) && Before(cursor)(r.item)
    ensures Selected(rows, q) == Below(Selected(rows, p), cursor)
  {
    if rows != [] {
      SelectionBelow(rows[1..], p, q, cursor);
      FilterConcat(if p(rows[0]) then [rows[0].item] else [], Selected(rows[1..], p), Before(cursor));
    }
  }

  /** One query: the filter, the index order the rows are stored in, the limit. */
  method ListRowsBefore(
    k: nat, rows: seq<Row>, ownerType: string, ownerId: Option<nat>, before: Option<int>, n: nat)
    returns (found: seq<Candidate>)
    ensures found == ListBefore(SourceRows(k, rows, ownerType, ownerId, None), before, n)
  {
    var clauses: seq<Clause>;
    if k == CREDITS {
      clauses := BuildCreditFilter(ownerType, ownerId, "", "", before);
    } else {
      clauses := OwnerScopedFilter(ownerType, ownerId, before);
    }
    SelectionBelow(rows, (r: Row) => Selects(k, r, ownerType, ownerId, None), (r: Row) => MeetsAll(r, clauses), before);
    found := Take(Selected(rows, (r: Row) => MeetsAll(r, clauses)), n);
  }

  /** The handler: every source read through its own filter, then one merge. */
  method GetOwnerActivity(
    raw: seq<seq<Row>>, ownerType: string, ownerId: Option<nat>, before: Option<int>, limit: nat) returns (page: Page)
    requires 1 <= limit
    ensures page == GetActivity(OwnersFeed(raw, ownerType, ownerId), before, limit)
  {
    var sources: Feed := [];
    ghost var db := OwnersFeed(raw, ownerType, ownerId);
    for k := 0 to |raw|
      invariant |sources| == k && forall j :: 0 <= j < k ==> sources[j] == ListBefore(db[j], before, limit + 1)
    {
      var found := ListRowsBefore(k, raw[k], ownerType, ownerId, before, limit + 1);
      sources := sources + [found];
    }
    assert sources == Fetched(db, before, limit + 1);
    page := MergeActivity(sources, limit);
  }

  // ── What the feed shows ───────────────────────────────────────────────────

  /** Collections are stored newest first, `_id` unique in each, and carry their own number. */
  ghost predicate Stored(raw: seq<seq<Row>>) {
    forall k, i :: 0 <= k < |raw| && 0 <= i < |raw[k]| ==>
      && raw[k][i].item.source == k
      && forall j :: i < j < |raw[k]| ==>
           Precedes()(raw[k][i].item, raw[k][j].item) && raw[k][i].item != raw[k][j].item
  }

  ghost predicate StrictRows(rows: seq<Row>) {
    forall i, j :: 0 <= i < j < |rows| ==> Precedes()(rows[i].item, rows[j].item) && rows[i].item != rows[j].item
  }

  lemma {:induction false} SelectedHolds(rows: seq<Row>, p: Row -> bool, x: Candidate)
    ensures x in Selected(rows, p) <==> exists i :: 0 <= i < |rows| && p(rows[i]) && rows[i].item == x
  {
    if rows != [] {
      SelectedHolds(rows[1..], p, x);
      if i :| 0 <= i < |rows[1..]| && p(rows[1..][i]) && rows[1..][i].item == x {
        assert rows[i + 1].item == x;
      }
      if i :| 0 <= i < |rows| && p(rows[i]) && rows[i].item == x {
        if i > 0 { assert rows[1..][i - 1].item == x; }
      }
    }
  }

  lemma {:induction false} SelectedIsStrict(rows: seq<Row>, p: Row -> bool)
    requires StrictRows(rows)
    ensures Strict(Selected(rows, p))
  {
    if rows != [] {
      SelectedIsStrict(rows[1..], p);
      var rest := Selected(rows[1..], p);
      forall j | 0 <= j < |rest| ensures Precedes()(rows[0].item, rest[j]) && rows[0].item != rest[j] {
        SelectedHolds(rows[1..], p, rest[j]);
        var i :| 0 <= i < |rows[1..]| && rows[1..][i].item == rest[j];
        assert rows[i + 1].item == rest[j];
      }
    }
  }

  /** So every result about the walk applies to the feed of every owner. */
  lemma OwnersFeedIsWellFormed(raw: seq<seq<Row>>, ownerType: string, ownerId: Option<nat>)
    requires Stored(raw)
    ensures WellFormed(OwnersFeed(raw, ownerType, ownerId))
  {
    var db: Feed := OwnersFeed(raw, ownerType, ownerId);
    forall k | 0 <= k < |raw| ensures Strict(db[k]) && forall x :: x in db[k] ==> x.source == k {
      var p := (r: Row) => Selects(k, r, ownerType, ownerId, None);
      assert StrictRows(raw[k]);
      SelectedIsStrict(raw[k], p);
      forall x | x in db[k] ensures x.source == k {
        SelectedHolds(raw[k], p, x);
        var i :| 0 <= i < |raw[k]| && raw[k][i].item == x;
      }
    }
    forall k, i | 0 <= k < |db| && 0 <= i < |db[k]|
      ensures db[k][i].source == k
      ensures forall j :: i < j < |db[k]| ==> Precedes()(db[k][i], db[k][j]) && db[k][i] != db[k][j]
    {
      assert db[k][i] in db[k];
    }
  }

  /** Row `i` of source `k` is the owner's, and no top-up row describes its event. */
  predicate Shows(raw: seq<seq<Row>>, ownerType: string, ownerId: Option<nat>, k: nat, i: nat) {
    && k < |raw| && i < |raw[k]|
    && raw[k][i].ownerType == ownerType && ownerId == Some(raw[k][i].ownerId)
    && (k == CREDITS ==> raw[k][i].reasonCode !in TOPUP_REASON_CODES)
  }

  lemma SourceShowsIff(raw: seq<seq<Row>>, ownerType: string, ownerId: Option<nat>, k: nat, x: Candidate)
    requires k < |raw|
    ensures x in OwnersFeed(raw, ownerType, ownerId)[k] <==>
      exists i: nat :: Shows(raw, ownerType, ownerId, k, i) && raw[k][i].item == x
  {
    var p := (r: Row) => Selects(k, r, ownerType, ownerId, None);
    SelectedHolds(raw[k], p, x);
    forall i: nat | i < |raw[k]| ensures p(raw[k][i]) <==> Shows(raw, ownerType, ownerId, k, i) {
    }
  }

  lemma MergedHolds(db: Feed, x: Candidate)
    requires WellFormed(db)
    ensures x in Merged(db) <==> exists k :: 0 <= k < |db| && x in db[k]
  {
    MergedIsSorted(db);
    assert x in Merged(db) <==> x in multiset(Merged(db));
    assert x in Flat(db) <==> x in multiset(Flat(db));
    InFlat(db, x);
  }

  /**
   * The merged feed shows exactly the owner's rows, a credit row only when no top-up row describes its
   * event; a malformed owner id shows nothing.
   */
  lemma FeedShowsIff(raw: seq<seq<Row>>, ownerType: string, ownerId: Option<nat>, x: Candidate)
    requires Stored(raw)
    ensures x in Merged(OwnersFeed(raw, ownerType, ownerId)) <==>
      exists k: nat, i: nat :: Shows(raw, ownerType, ownerId, k, i) && raw[k][i].item == x
  {
    var db: Feed := OwnersFeed(raw, ownerType, ownerId);
    OwnersFeedIsWellFormed(raw, ownerType, ownerId);
    MergedHolds(db, x);
    forall k: nat | k < |raw|
      ensures x in db[k] <==> exists i: nat :: Shows(raw, ownerType, ownerId, k, i) && raw[k][i].item == x
    {
      SourceShowsIff(raw, ownerType, ownerId, k, x);
    }
  }
}
