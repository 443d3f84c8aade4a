/**
 * Walking the activity feed: every `next` cursor is fed back as `before` until it is none.
 *
 * Each source is fetched `limit + 1` rows at a time, so a page holds everything it should
 * exactly when no source has more than `limit + 1` rows in that page's window.
 */
module FeedWalk {
  import opened Prelude
  import opened StableSort
  import opened ActivityFeed
  import opened FeedFilters

  // ── One page ──────────────────────────────────────────────────────────────

  lemma FetchedIsWellFormed(db: Feed, cursor: Option<int>, n: nat)
    requires WellFormed(db)
    ensures WellFormed(Fetched(db, cursor, n))
  {
    var f: Feed := Fetched(db, cursor, n);
    forall k | 0 <= k < |db|
      ensures forall i :: 0 <= i < |f[k]| ==>
        f[k][i].source == k
        && (forall j :: i < j < |f[k]| ==> Precedes()(f[k][i], f[k][j]) && f[k][i] != f[k][j])
    {
      FilterStrict(db[k], Before(cursor));
      FilterMembers(db[k], Before(cursor));
      forall i | 0 <= i < |f[k]| ensures f[k][i].source == k {
        assert f[k][i] in Below(db[k], cursor);
        assert f[k][i] in db[k];
      }
    }
  }

  ghost predicate Strict(s: seq<Candidate>) {
    forall i, j :: 0 <= i < j < |s| ==> Precedes()(s[i], s[j]) && s[i] != s[j]
  }

  lemma {:induction false} FilterStrict(s: seq<Candidate>, p: Candidate -> bool)
    requires Strict(s)
    ensures Strict(Filter(s, p))
  {
    if s != [] {
      FilterStrict(s[1..], p);
      FilterMembers(s[1..], p);
      var rest := Filter(s[1..], p);
      forall j | 0 <= j < |rest| ensures Precedes()(s[0], rest[j]) && s[0] != rest[j] {
        assert rest[j] in s[1..];
      }
    }
  }

  lemma SourcesNewestFirst(db: Feed)
    requires WellFormed(db)
    ensures forall k :: 0 <= k < |db| ==> NewestFirst(db[k])
  {
  }

  /** The merge of well-formed sources is their rows in the one order `Precedes` fixes. */
  lemma MergedIsSorted(db: Feed)
    requires WellFormed(db)
    ensures Sorted(Merged(db), Precedes()) && NewestFirst(Merged(db))
    ensures multiset(Merged(db)) == multiset(Flat(db)) && |Merged(db)| == |Flat(db)|
  {
    FlatBySource(db, 0);
    StableMerge(Flat(db));
    assert |multiset(Merged(db))| == |Merged(db)| && |multiset(Flat(db))| == |Flat(db)|;
  }

  /** What the fetch keeps of each source in the window `[b, cursor)`. */
  function Windows(db: Feed, cursor: Option<int>, b: int): Feed { FilterEach(db, Within(cursor, b)) }

  lemma FetchedWindow(db: Feed, cursor: Option<int>, n: nat, b: int)
    requires WellFormed(db)
    ensures Filter(Flat(Fetched(db, cursor, n)), Since(b)) == Flat(TakeEach(Windows(db, cursor, b), n))
  {
    var f: Feed := Fetched(db, cursor, n);
    FlatFilter(f, Since(b));
    SourcesNewestFirst(db);
    forall k | 0 <= k < |db| ensures FilterEach(f, Since(b))[k] == TakeEach(Windows(db, cursor, b), n)[k] {
      FilterNewestFirst(db[k], Before(cursor));
      TakeFilter(Below(db[k], cursor), b, n);
      FilterTwice(db[k], Before(cursor), Since(b), Within(cursor, b));
    }
    assert FilterEach(f, Since(b)) == TakeEach(Windows(db, cursor, b), n);
  }

  /** A page that is followed by another is every merged row since the next cursor. */
  lemma PageIsSince(sources: Feed, limit: nat)
    requires 1 <= limit && WellFormed(sources) && MergedPage(sources, limit).next.Some?
    ensures limit < |Merged(sources)|
    ensures MergedPage(sources, limit).next == Some(Merged(sources)[limit - 1].at)
    ensures MergedPage(sources, limit).items == Filter(Merged(sources), Since(Merged(sources)[limit - 1].at))
    ensures |MergedPage(sources, limit).items| >= limit
  {
    var all := Merged(sources);
    MergedIsSorted(sources);
    PrefixSince(all, TieEnd(all, limit, all[limit - 1].at), all[limit - 1].at);
  }

  lemma NextNamesMerged(sources: Feed, limit: nat) returns (x: Candidate)
    requires 1 <= limit && MergedPage(sources, limit).next.Some?
    ensures x in Merged(sources) && MergedPage(sources, limit).next == Some(x.at)
  {
    var all := Merged(sources);
    x := all[TieEnd(all, limit, all[limit - 1].at) - 1];
  }

  lemma MergedIsFlat(sources: Feed, x: Candidate)
    requires x in Merged(sources)
    ensures x in Flat(sources)
  {
    SortIsSorted(Flat(sources), ByNewestFirst());
    assert x in multiset(Merged(sources));
  }

  /** The next cursor is the instant of a row that was below this one's. */
  lemma NextNamesRow(db: Feed, cursor: Option<int>, limit: nat) returns (x: Candidate)
    requires 1 <= limit && GetActivity(db, cursor, limit).next.Some?
    ensures x in Flat(db) && Before(cursor)(x) && x.at == GetActivity(db, cursor, limit).next.value
  {
    x := NextNamesMerged(Fetched(db, cursor, limit + 1), limit);
    MergedIsFlat(Fetched(db, cursor, limit + 1), x);
    FetchedRowsAreBelow(db, cursor, limit + 1, x);
  }

  lemma PageNextIsBelowCursor(db: Feed, cursor: Option<int>, limit: nat)
    requires 1 <= limit && GetActivity(db, cursor, limit).next.Some?
    ensures var b := GetActivity(db, cursor, limit).next.value;
      |Below(Flat(db), Some(b))| < |Below(Flat(db), cursor)| && (cursor.Some? ==> b < cursor.value)
  {
    var x := NextNamesRow(db, cursor, limit);
    FewerBelow(Flat(db), cursor, x);
  }

  lemma FewerBelow(s: seq<Candidate>, cursor: Option<int>, x: Candidate)
    requires x in s && Before(cursor)(x)
    ensures |Below(s, Some(x.at))| < |Below(s, cursor)|
  {
    FilterMembers(s, Before(cursor));
    FilterTwice(s, Before(cursor), Before(Some(x.at)), Before(Some(x.at)));
    var i :| 0 <= i < |Below(s, cursor)| && Below(s, cursor)[i] == x;
    FilterMisses(Below(s, cursor), Before(Some(x.at)), i);
  }

  lemma {:induction false} InFlat(db: Feed, x: Candidate)
    ensures x in Flat(db) <==> exists k :: 0 <= k < |db| && x in db[k]
  {
    if db != [] {
      InFlat(db[1..], x);
      if x in Flat(db) && x !in db[0] {
        var k :| 0 <= k < |db[1..]| && x in db[1..][k];
        assert x in db[k + 1];
      }
      if k :| 0 <= k < |db| && x in db[k] {
        if k > 0 { assert x in db[1..][k - 1]; }
      }
    }
  }

  lemma FetchedRowsAreBelow(db: Feed, cursor: Option<int>, n: nat, x: Candidate)
    requires x in Flat(Fetched(db, cursor, n))
    ensures x in Flat(db) && Before(cursor)(x)
  {
    var f: Feed := Fetched(db, cursor, n);
    InFlat(f, x);
    var k :| 0 <= k < |f| && x in f[k];
    FilterMembers(db[k], Before(cursor));
    assert x in Below(db[k], cursor);
    InFlat(db, x);
  }

  /** Some source has more rows between this page's next cursor and its own than one fetch returns. */
  predicate Crowded(db: Feed, cursor: Option<int>, b: int, limit: nat) {
    exists k :: 0 <= k < |db| && |Windows(db, cursor, b)[k]| > limit + 1
  }

  /**
   * A page with a successor holds no more than its window of the merge, and is that window, in
   * order, exactly when no source is crowded.
   */
  lemma PageIsWindowIff(db: Feed, cursor: Option<int>, limit: nat)
    requires 1 <= limit && WellFormed(db) && GetActivity(db, cursor, limit).next.Some?
    ensures var page := GetActivity(db, cursor, limit);
      var window := Filter(Merged(db), Within(cursor, page.next.value));
      && |page.items| <= |window|
      && (page.items == window <==> !Crowded(db, cursor, page.next.value, limit))
      && (|page.items| == |window| <==> page.items == window)
  {
    var f: Feed := Fetched(db, cursor, limit + 1);
    var page := GetActivity(db, cursor, limit);
    var b := page.next.value;
    var p := Within(cursor, b);
    var w := Windows(db, cursor, b);
    FetchedIsWellFormed(db, cursor, limit + 1);
    PageIsSince(f, limit);
    MergedIsSorted(f);
    MergedIsSorted(db);
    FetchedWindow(db, cursor, limit + 1, b);
    SameRowsSameFilter(Merged(f), Flat(f), Since(b));
    SameRowsSameFilter(Merged(db), Flat(db), p);
    FlatFilter(db, p);
    CutLosesIff(w, limit + 1);
    if !Crowded(db, cursor, b, limit) {
      FilterSorted(Merged(f), Since(b));
      FilterSorted(Merged(db), p);
      PrecedesIsTotal();
      SortedIsUnique(page.items, Filter(Merged(db), p), Precedes());
    }
  }

  /** When a fetch returns at most `limit` rows in all, it cut nothing. */
  lemma SmallFetchIsWhole(db: Feed, cursor: Option<int>, limit: nat)
    requires |Flat(Fetched(db, cursor, limit + 1))| <= limit
    ensures Fetched(db, cursor, limit + 1) == FilterEach(db, Before(cursor))
    ensures forall k :: 0 <= k < |db| ==> |Below(db[k], cursor)| <= limit
  {
    var f: Feed := Fetched(db, cursor, limit + 1);
    forall k | 0 <= k < |db| ensures |Below(db[k], cursor)| <= limit {
      OneSourceAtMostAll(f, k);
      assert |Take(Below(db[k], cursor), limit + 1)| <= limit;
    }
  }

  lemma MergeOfBelow(db: Feed, cursor: Option<int>)
    requires WellFormed(db) && WellFormed(FilterEach(db, Before(cursor)))
    ensures Merged(FilterEach(db, Before(cursor))) == Below(Merged(db), cursor)
  {
    var f: Feed := FilterEach(db, Before(cursor));
    MergedIsSorted(f);
    MergedIsSorted(db);
    FlatFilter(db, Before(cursor));
    SameRowsSameFilter(Merged(db), Flat(db), Before(cursor));
    FilterSorted(Merged(db), Before(cursor));
    PrecedesIsTotal();
    SortedIsUnique(Merged(f), Below(Merged(db), cursor), Precedes());
  }

  /** The last page is everything left, whatever the sources look like. */
  lemma LastPageIsRest(db: Feed, cursor: Option<int>, limit: nat)
    requires 1 <= limit && WellFormed(db) && GetActivity(db, cursor, limit).next.None?
    ensures GetActivity(db, cursor, limit).items == Below(Merged(db), cursor)
    ensures |GetActivity(db, cursor, limit).items| <= limit
    ensures forall k :: 0 <= k < |db| ==> |Below(db[k], cursor)| <= limit
  {
    FetchedIsWellFormed(db, cursor, limit + 1);
    MergedIsSorted(Fetched(db, cursor, limit + 1));
    SmallFetchIsWhole(db, cursor, limit);
    MergeOfBelow(db, cursor);
  }

  // ── The whole walk ────────────────────────────────────────────────────────

  function Walk(db: Feed, cursor: Option<int>, limit: nat): seq<Candidate>
    requires 1 <= limit
    decreases |Below(Flat(db), cursor)|
  {
    var page := GetActivity(db, cursor, limit);
    if page.next.None? then page.items
    else
      PageNextIsBelowCursor(db, cursor, limit);
      page.items + Walk(db, page.next, limit)
  }

  function Requests(db: Feed, cursor: Option<int>, limit: nat): nat
    requires 1 <= limit
    decreases |Below(Flat(db), cursor)|
  {
    var page := GetActivity(db, cursor, limit);
    if page.next.None? then 1
    else
      PageNextIsBelowCursor(db, cursor, limit);
      1 + Requests(db, page.next, limit)
  }

  /** No page of the walk meets a crowded source. */
  predicate Uncrowded(db: Feed, cursor: Option<int>, limit: nat)
    requires 1 <= limit
    decreases |Below(Flat(db), cursor)|
  {
    var page := GetActivity(db, cursor, limit);
    page.next.None?
    || (!Crowded(db, cursor, page.next.value, limit)
        && (PageNextIsBelowCursor(db, cursor, limit); Uncrowded(db, page.next, limit)))
  }

  lemma WindowThenRest(db: Feed, cursor: Option<int>, b: int)
    requires WellFormed(db) && (cursor.Some? ==> b < cursor.value)
    ensures Below(Merged(db), cursor) == Filter(Merged(db), Within(cursor, b)) + Below(Merged(db), Some(b))
  {
    MergedIsSorted(db);
    FilterNewestFirst(Merged(db), Before(cursor));
    SplitAtInstant(Below(Merged(db), cursor), b);
    FilterTwice(Merged(db), Before(cursor), Since(b), Within(cursor, b));
    FilterTwice(Merged(db), Before(cursor), Before(Some(b)), Before(Some(b)));
  }

  /** No walk returns more rows than there are. */
  lemma {:induction false} WalkIsNoLonger(db: Feed, cursor: Option<int>, limit: nat)
    requires 1 <= limit && WellFormed(db)
    ensures |Walk(db, cursor, limit)| <= |Below(Merged(db), cursor)|
    decreases |Below(Flat(db), cursor)|
  {
    var page := GetActivity(db, cursor, limit);
    if page.next.None? {
      LastPageIsRest(db, cursor, limit);
    } else {
      PageNextIsBelowCursor(db, cursor, limit);
      WalkIsNoLonger(db, page.next, limit);
      WindowThenRest(db, cursor, page.next.value);
      PageIsWindowIff(db, cursor, limit);
    }
  }

  /** The walk is the whole merge below the first cursor, in order, exactly when it is uncrowded. */
  lemma {:induction false} WalkIsMergeIff(db: Feed, cursor: Option<int>, limit: nat)
    requires 1 <= limit && WellFormed(db)
    ensures Walk(db, cursor, limit) == Below(Merged(db), cursor) <==> Uncrowded(db, cursor, limit)
    decreases |Below(Flat(db), cursor)|
  {
    var page := GetActivity(db, cursor, limit);
    if page.next.None? {
      LastPageIsRest(db, cursor, limit);
    } else {
      var b := page.next.value;
      var window := Filter(Merged(db), Within(cursor, b));
      var rest := Below(Merged(db), Some(b));
      PageNextIsBelowCursor(db, cursor, limit);
      WalkIsMergeIff(db, page.next, limit);
      WalkIsNoLonger(db, page.next, limit);
      WindowThenRest(db, cursor, b);
      PageIsWindowIff(db, cursor, limit);
      if page.items + Walk(db, page.next, limit) == window + rest {
        assert |page.items| == |window|;
        assert (page.items + Walk(db, page.next, limit))[|window|..] == Walk(db, page.next, limit);
        assert (window + rest)[|window|..] == rest;
      }
    }
  }

  // ── At most two rows of a source at one instant ───────────────────────────

  /** What plan activation relies on: below the cursor, one source never has three rows at the same instant. */
  ghost predicate AtMostTwoPerInstant(db: Feed, cursor: Option<int>) {
    forall k, t :: 0 <= k < |db| && (cursor.Some? ==> t < cursor.value) ==> |Filter(db[k], At(t))| <= 2
  }

  /** Strictly newer than the boundary, a page has fewer than `limit` rows, and lost none. */
  lemma FewAboveBoundary(db: Feed, cursor: Option<int>, limit: nat, b: int, k: nat)
    requires 1 <= limit && WellFormed(db) && GetActivity(db, cursor, limit).next == Some(b) && k < |db|
    ensures |Windows(db, cursor, b + 1)[k]| < limit
  {
    FewFetchedAboveBoundary(db, cursor, limit, b);
    FetchedWindow(db, cursor, limit + 1, b + 1);
    CutIsWhole(Windows(db, cursor, b + 1), limit, k);
  }

  lemma CutIsWhole(w: Feed, limit: nat, k: nat)
    requires k < |w| && |Flat(TakeEach(w, limit + 1))| < limit
    ensures |w[k]| < limit
  {
    OneSourceAtMostAll(TakeEach(w, limit + 1), k);
    assert |Take(w[k], limit + 1)| < limit;
  }

  lemma FewAboveInAnyOrder(sorted: seq<Candidate>, rows: seq<Candidate>, limit: nat, b: int)
    requires NewestFirst(sorted) && 1 <= limit <= |sorted| && multiset(sorted) == multiset(rows)
    requires b == sorted[limit - 1].at
    ensures |Filter(rows, Since(b + 1))| < limit
  {
    FewNewer(sorted, limit);
    SameRowsSameFilter(sorted, rows, Since(b + 1));
  }

  lemma BoundaryInMerged(sources: Feed, limit: nat, b: int)
    requires 1 <= limit && WellFormed(sources) && MergedPage(sources, limit).next == Some(b)
    ensures limit <= |Merged(sources)| && Merged(sources)[limit - 1].at == b
  {
    PageIsSince(sources, limit);
  }

  lemma FewMergedAbove(sources: Feed, limit: nat, b: int)
    requires 1 <= limit && WellFormed(sources) && MergedPage(sources, limit).next == Some(b)
    ensures |Filter(Flat(sources), Since(b + 1))| < limit
  {
    BoundaryInMerged(sources, limit, b);
    MergedIsSorted(sources);
    FewAboveInAnyOrder(Merged(sources), Flat(sources), limit, b);
  }

  lemma FewFetchedAboveBoundary(db: Feed, cursor: Option<int>, limit: nat, b: int)
    requires 1 <= limit && WellFormed(db) && GetActivity(db, cursor, limit).next == Some(b)
    ensures |Filter(Flat(Fetched(db, cursor, limit + 1)), Since(b + 1))| < limit
  {
    FetchedIsWellFormed(db, cursor, limit + 1);
    FewMergedAbove(Fetched(db, cursor, limit + 1), limit, b);
  }

  lemma WindowByInstant(db: Feed, cursor: Option<int>, b: int, k: nat)
    requires k < |db| && (cursor.Some? ==> b < cursor.value)
    ensures |Windows(db, cursor, b)[k]| == |Filter(db[k], Within(cursor, b + 1))| + |Filter(db[k], At(b))|
  {
    var p, q, r := Within(cursor, b), Within(cursor, b + 1), At(b);
    forall x | x in db[k] ensures (p(x) <==> q(x) || r(x)) && !(q(x) && r(x)) {
      assert p(x) == (Before(cursor)(x) && b <= x.at);
      assert q(x) == (Before(cursor)(x) && b + 1 <= x.at);
      assert r(x) == (x.at == b);
      assert Before(cursor)(x) == (cursor.None? || x.at < cursor.value);
    }
    FilterParts(db[k], p, q, r);
  }

  lemma {:induction false} TwoPerInstantIsUncrowded(db: Feed, cursor: Option<int>, limit: nat)
    requires 1 <= limit && WellFormed(db) && AtMostTwoPerInstant(db, cursor)
    ensures Uncrowded(db, cursor, limit)
    decreases |Below(Flat(db), cursor)|
  {
    var page := GetActivity(db, cursor, limit);
    if page.next.Some? {
      var b := page.next.value;
      PageNextIsBelowCursor(db, cursor, limit);
      forall k | 0 <= k < |db| ensures |Windows(db, cursor, b)[k]| <= limit + 1 {
        FewAboveBoundary(db, cursor, limit, b, k);
        WindowByInstant(db, cursor, b, k);
      }
      TwoPerInstantIsUncrowded(db, page.next, limit);
    }
  }

  /** One row at a time, an uncrowded walk meets every instant and sees at most two rows a source. */
  lemma {:induction false} UncrowdedAtOne(db: Feed, cursor: Option<int>, k: nat, t: int)
    requires WellFormed(db) && Uncrowded(db, cursor, 1) && k < |db| && (cursor.Some? ==> t < cursor.value)
    ensures |Filter(db[k], At(t))| <= 2
    decreases |Below(Flat(db), cursor)|
  {
    var page := GetActivity(db, cursor, 1);
    if page.next.None? {
      LastPageIsRest(db, cursor, 1);
      FilterTwice(db[k], Before(cursor), At(t), At(t));
      FilterAtMost(Below(db[k], cursor), At(t));
    } else {
      PageNextIsBelowCursor(db, cursor, 1);
      var b := page.next.value;
      if t < b {
        UncrowdedAtOne(db, page.next, k, t);
      } else {
        var p := Within(cursor, b);
        assert |Windows(db, cursor, b)[k]| <= 2;
        FilterTwice(db[k], p, At(t), At(t));
        FilterAtMost(Filter(db[k], p), At(t));
      }
    }
  }

  /** The walk from this cursor returns the merge below it: sorted, every row once, none lost. */
  ghost predicate Complete(db: Feed, cursor: Option<int>, limit: nat)
    requires 1 <= limit
  {
    Walk(db, cursor, limit) == Below(Merged(db), cursor)
  }

  lemma CompleteByOneNeedsTwo(db: Feed, cursor: Option<int>)
    requires WellFormed(db) && Complete(db, cursor, 1)
    ensures AtMostTwoPerInstant(db, cursor)
  {
    WalkIsMergeIff(db, cursor, 1);
    forall k, t | 0 <= k < |db| && (cursor.Some? ==> t < cursor.value) ensures |Filter(db[k], At(t))| <= 2 {
      UncrowdedAtOne(db, cursor, k, t);
    }
  }

  /**
   * Main result. Walking from a cursor returns the five-source merge below it (from the top, the whole
   * merge) with every page size exactly when no source holds three rows at one instant below it.
   */
  lemma EveryWalkIsCompleteIff(db: Feed, cursor: Option<int>)
    requires WellFormed(db)
    ensures (forall limit: nat | 1 <= limit :: Complete(db, cursor, limit)) <==> AtMostTwoPerInstant(db, cursor)
    ensures Below(Merged(db), None) == Merged(db)
  {
    FilterAll(Merged(db), Before(None));
    if AtMostTwoPerInstant(db, cursor) {
      forall limit: nat | 1 <= limit ensures Complete(db, cursor, limit) {
        TwoPerInstantIsUncrowded(db, cursor, limit);
        WalkIsMergeIff(db, cursor, limit);
      }
    } else if Complete(db, cursor, 1) {
      CompleteByOneNeedsTwo(db, cursor);
    }
  }

  /** Three rows of one source at one instant: the walk with one row a page loses the third. */
  lemma ThreeTogetherAreLost(x: Candidate, y: Candidate, z: Candidate)
    requires x.source == y.source == z.source == 0 && x.at == y.at == z.at && x.id > y.id > z.id
    ensures WellFormed([[x, y, z]]) && z in Merged([[x, y, z]]) && z !in Walk([[x, y, z]], None, 1)
  {
    var s := [x, y, z];
    var db := OneSource(s);
    FilterAll(s, Before(None));
    NothingBelow(s, x.at);
    assert s[..2] == [x, y];
    WalkOfPair(db, x, y);
  }

  lemma OneSource(s: seq<Candidate>) returns (db: Feed)
    requires Strict(s) && forall r :: r in s ==> r.source == 0
    ensures db == [s] && WellFormed(db) && forall r :: r in s ==> r in Merged(db)
  {
    db := [s];
    forall k, i | 0 <= k < |db| && 0 <= i < |db[k]|
      ensures db[k][i].source == k
      ensures forall j :: i < j < |db[k]| ==> Precedes()(db[k][i], db[k][j]) && db[k][i] != db[k][j]
    {
      assert s[i] in s;
    }
    MergedIsSorted(db);
    FlatOfOne(db);
    forall r | r in s ensures r in Merged(db) { assert r in multiset(Merged(db)); }
  }

  lemma WalkOfPair(db: Feed, x: Candidate, y: Candidate)
    requires |db| == 1 && |Below(db[0], None)| >= 2 && Below(db[0], None)[..2] == [x, y]
    requires x.at == y.at && x.id >= y.id && Below(db[0], Some(x.at)) == []
    ensures Walk(db, None, 1) == [x, y]
  {
    var one: nat := 1;
    PairPage(db, None, x, y);
    EmptyPage(db, Some(x.at));
    assert Walk(db, Some(x.at), one) == [];
    assert Walk(db, None, one) == [x, y] + Walk(db, Some(x.at), one);
  }

  lemma FlatOfOne(db: Feed)
    requires |db| == 1
    ensures Flat(db) == db[0]
  {
    assert db[1..] == [];
  }

  lemma FetchOfOne(db: Feed, cursor: Option<int>, n: nat)
    requires |db| == 1
    ensures Fetched(db, cursor, n) == [ListBefore(db[0], cursor, n)]
    ensures Flat(Fetched(db, cursor, n)) == ListBefore(db[0], cursor, n)
  {
    FlatOfOne(Fetched(db, cursor, n));
  }

  lemma PairPage(db: Feed, cursor: Option<int>, x: Candidate, y: Candidate)
    requires |db| == 1 && |Below(db[0], cursor)| >= 2 && Below(db[0], cursor)[..2] == [x, y]
    requires x.at == y.at && x.id >= y.id
    ensures GetActivity(db, cursor, 1) == Page([x, y], Some(x.at))
  {
    FetchOfOne(db, cursor, 2);
    assert [x, y][1..] == [y] && [y][1..] == [];
    assert Sort([y], ByNewestFirst()) == [y];
    assert Sort([x, y], ByNewestFirst()) == [x, y];
    assert TieEnd([x, y], 1, x.at) == 2;
    assert Merged(Fetched(db, cursor, 2)) == [x, y];
  }

  lemma EmptyPage(db: Feed, cursor: Option<int>)
    requires |db| == 1 && Below(db[0], cursor) == []
    ensures GetActivity(db, cursor, 1) == Page([], None)
  {
    FetchOfOne(db, cursor, 2);
    assert Merged(Fetched(db, cursor, 2)) == [];
  }

  lemma {:induction false} NothingBelow(s: seq<Candidate>, b: int)
    requires forall x :: x in s ==> x.at >= b
    ensures Below(s, Some(b)) == []
  {
    if s != [] {
      NothingBelow(s[1..], b);
    }
  }

  // ── Cost ──────────────────────────────────────────────────────────────────

  /** A page that is followed by another is not short. */
  lemma PageIsFull(db: Feed, cursor: Option<int>, limit: nat)
    requires 1 <= limit && WellFormed(db) && GetActivity(db, cursor, limit).next.Some?
    ensures |GetActivity(db, cursor, limit).items| >= limit
  {
    FetchedIsWellFormed(db, cursor, limit + 1);
    PageIsSince(Fetched(db, cursor, limit + 1), limit);
  }

  function Sum(limit: nat, pages: nat): nat { if pages == 0 then 0 else Sum(limit, pages - 1) + limit }

  lemma {:induction false} SumIsProduct(limit: nat, pages: nat)
    ensures Sum(limit, pages) == limit * pages
  {
    if pages > 0 {
      SumIsProduct(limit, pages - 1);
      assert limit * pages == limit * (pages - 1) + limit;
    }
  }

  lemma {:induction false} FullPagesFit(db: Feed, cursor: Option<int>, limit: nat)
    requires 1 <= limit && WellFormed(db)
    ensures Requests(db, cursor, limit) >= 1
    ensures Sum(limit, Requests(db, cursor, limit) - 1) <= |Walk(db, cursor, limit)|
    decreases |Below(Flat(db), cursor)|
  {
    var page := GetActivity(db, cursor, limit);
    if page.next.Some? {
      PageNextIsBelowCursor(db, cursor, limit);
      PageIsFull(db, cursor, limit);
      FullPagesFit(db, page.next, limit);
    }
  }

  /** Every request but the last returns at least `limit` rows, so N rows take at most N/limit + 1. */
  lemma RequestsAreFew(db: Feed, cursor: Option<int>, limit: nat)
    requires 1 <= limit && WellFormed(db)
    ensures limit * (Requests(db, cursor, limit) - 1) <= |Walk(db, cursor, limit)| <= |Below(Merged(db), cursor)|
  {
    WalkIsNoLonger(db, cursor, limit);
    FullPagesFit(db, cursor, limit);
    SumIsProduct(limit, Requests(db, cursor, limit) - 1);
  }

  /** The rows of a page with a successor: fewer than `limit` above the boundary, and the tie group. */
  lemma PageLength(db: Feed, cursor: Option<int>, limit: nat, b: int)
    requires 1 <= limit && WellFormed(db) && GetActivity(db, cursor, limit).next == Some(b)
    ensures |GetActivity(db, cursor, limit).items| < limit + |Filter(Flat(Fetched(db, cursor, limit + 1)), At(b))|
  {
    var f: Feed := Fetched(db, cursor, limit + 1);
    FetchedIsWellFormed(db, cursor, limit + 1);
    MergedIsSorted(f);
    PageIsSince(f, limit);
    SameRowsSameFilter(Merged(f), Flat(f), Since(b));
    FilterParts(Flat(f), Since(b), Since(b + 1), At(b));
    FewFetchedAboveBoundary(db, cursor, limit, b);
  }

  /** The tie extension is bounded: five sources with two rows an instant give at most `limit + 9`. */
  lemma PageIsShort(db: Feed, cursor: Option<int>, limit: nat)
    requires 1 <= limit && WellFormed(db) && AtMostTwoPerInstant(db, cursor)
    ensures |GetActivity(db, cursor, limit).items| <= Max(limit, limit - 1 + 2 * |db|)
    ensures |db| == 5 ==> |GetActivity(db, cursor, limit).items| <= limit + 9
  {
    var page := GetActivity(db, cursor, limit);
    if page.next.None? {
      LastPageIsRest(db, cursor, limit);
    } else {
      PageNextIsBelowCursor(db, cursor, limit);
      PageLength(db, cursor, limit, page.next.value);
      FewAtInstant(db, cursor, limit + 1, page.next.value);
    }
  }

  lemma FewAtInstant(db: Feed, cursor: Option<int>, n: nat, b: int)
    requires AtMostTwoPerInstant(db, cursor) && (cursor.Some? ==> b < cursor.value)
    ensures |Filter(Flat(Fetched(db, cursor, n)), At(b))| <= 2 * |db|
  {
    var f: Feed := Fetched(db, cursor, n);
    FlatFilter(f, At(b));
    forall k | 0 <= k < |db| ensures |FilterEach(f, At(b))[k]| <= 2 {
      var p := (x: Candidate) => Before(cursor)(x) && At(b)(x);
      FilterOfTake(Below(db[k], cursor), At(b), n);
      FilterTwice(db[k], Before(cursor), At(b), p);
      FilterTwice(db[k], At(b), Before(cursor), p);
      FilterAtMost(Filter(db[k], At(b)), Before(cursor));
    }
    FlatAtMost(FilterEach(f, At(b)), 2);
  }

  lemma FilterOfTake(s: seq<Candidate>, p: Candidate -> bool, n: nat)
    ensures |Filter(Take(s, n), p)| <= |Filter(s, p)|
  {
    if n < |s| {
      assert s == s[..n] + s[n..];
      FilterConcat(s[..n], s[n..], p);
    }
  }

  // ── Writers present ───────────────────────────────────────────────────────

  /** Two states of the collections that differ only in rows at or above `c`. */
  ghost predicate SameBelow(a: Feed, b: Feed, c: int) {
    |a| == |b| && forall k :: 0 <= k < |a| ==> Below(a[k], Some(c)) == Below(b[k], Some(c))
  }

  lemma SamePage(a: Feed, b: Feed, c: int, cursor: int, limit: nat)
    requires SameBelow(a, b, c) && cursor <= c && 1 <= limit
    ensures GetActivity(a, Some(cursor), limit) == GetActivity(b, Some(cursor), limit)
  {
    forall k | 0 <= k < |a| ensures Below(a[k], Some(cursor)) == Below(b[k], Some(cursor)) {
      FilterTwice(a[k], Before(Some(c)), Before(Some(cursor)), Before(Some(cursor)));
      FilterTwice(b[k], Before(Some(c)), Before(Some(cursor)), Before(Some(cursor)));
    }
    assert Fetched(a, Some(cursor), limit + 1) == Fetched(b, Some(cursor), limit + 1);
  }

  /** The walk whose i-th request finds the collections in state `states(i)`. */
  function WalkOver(states: nat -> Feed, i: nat, cursor: int, limit: nat): seq<Candidate>
    requires 1 <= limit && forall j: nat :: SameBelow(states(0), states(j), cursor)
    decreases |Below(Flat(states(0)), Some(cursor))|
  {
    var page := GetActivity(states(i), Some(cursor), limit);
    if page.next.None? then page.items
    else
      StillSameBelow(states, i, cursor, limit);
      page.items + WalkOver(states, i + 1, page.next.value, limit)
  }

  lemma StillSameBelow(states: nat -> Feed, i: nat, cursor: int, limit: nat)
    requires 1 <= limit && forall j: nat :: SameBelow(states(0), states(j), cursor)
    requires GetActivity(states(i), Some(cursor), limit).next.Some?
    ensures var b := GetActivity(states(i), Some(cursor), limit).next.value;
      && |Below(Flat(states(0)), Some(b))| < |Below(Flat(states(0)), Some(cursor))|
      && (forall j: nat :: SameBelow(states(0), states(j), b))
  {
    var b := GetActivity(states(i), Some(cursor), limit).next.value;
    SamePage(states(0), states(i), cursor, cursor, limit);
    PageNextIsBelowCursor(states(0), Some(cursor), limit);
    forall j: nat ensures SameBelow(states(0), states(j), b) {
      var s0, sj := states(0), states(j);
      assert SameBelow(s0, sj, cursor);
      forall k | 0 <= k < |s0| ensures Below(s0[k], Some(b)) == Below(sj[k], Some(b)) {
        FilterTwice(s0[k], Before(Some(cursor)), Before(Some(b)), Before(Some(b)));
        FilterTwice(sj[k], Before(Some(cursor)), Before(Some(b)), Before(Some(b)));
      }
    }
  }

  /** Rows inserted at or above the cursor between requests change nothing the walk returns. */
  lemma {:induction false} WritersDoNotDisturb(states: nat -> Feed, i: nat, cursor: int, limit: nat)
    requires 1 <= limit && forall j: nat :: SameBelow(states(0), states(j), cursor)
    ensures WalkOver(states, i, cursor, limit) == Walk(states(0), Some(cursor), limit)
    decreases |Below(Flat(states(0)), Some(cursor))|
  {
    SamePage(states(0), states(i), cursor, cursor, limit);
    var page := GetActivity(states(i), Some(cursor), limit);
    if page.next.Some? {
      StillSameBelow(states, i, cursor, limit);
      PageNextIsBelowCursor(states(0), Some(cursor), limit);
      WritersDoNotDisturb(states, i + 1, page.next.value, limit);
    }
  }

  /**
   * So with writers present, every row below the first cursor is visited exactly once and in order,
   * with every page size, exactly when no source holds three rows at one instant below that cursor.
   */
  lemma WalkOverIsCompleteIff(states: nat -> Feed, cursor: int)
    requires WellFormed(states(0)) && forall j: nat :: SameBelow(states(0), states(j), cursor)
    ensures (forall limit: nat | 1 <= limit :: CompleteOver(states, cursor, limit))
      <==> AtMostTwoPerInstant(states(0), Some(cursor))
  {
    EveryWalkIsCompleteIff(states(0), Some(cursor));
    forall limit: nat | 1 <= limit
      ensures CompleteOver(states, cursor, limit) <==> Complete(states(0), Some(cursor), limit)
    {
      WritersDoNotDisturb(states, 0, cursor, limit);
    }
  }

  ghost predicate CompleteOver(states: nat -> Feed, cursor: int, limit: nat)
    requires 1 <= limit && forall j: nat :: SameBelow(states(0), states(j), cursor)
  {
    WalkOver(states, 0, cursor, limit) == Below(Merged(states(0)), Some(cursor))
  }
}
