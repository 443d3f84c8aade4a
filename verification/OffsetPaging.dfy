/**
 * Offset paging over a collection (src/infra/platform/platform.repository.ts,
 * src/core/data/mongo-list.ts, src/core/http/list-query.ts).
 *
 * A query with a sort document may return any arrangement that document allows, a different one on
 * each call. `matched` is what the filter selects; `_id` is unique in it.
 */
module OffsetPaging {
  import opened Prelude
  import opened StableSort

  /** A missing field sorts first. */
  datatype Doc = Doc(id: nat, fields: map<string, int>)

  datatype SortSpec = SortSpec(field: string, descending: bool)

  datatype SortKey = SortKey(path: string, descending: bool)

  /** `paths` maps wire names to database paths; none is the RangeError for an unknown field. */
  function ToMongoSort(spec: SortSpec, paths: map<string, string>): Option<seq<SortKey>> {
    if spec.field !in paths || paths[spec.field] == "" then None
    else if paths[spec.field] == "_id" then Some([SortKey("_id", spec.descending)])
    else Some([SortKey(paths[spec.field], spec.descending), SortKey("_id", spec.descending)])
  }

  function ParseSortToken(raw: string): SortSpec {
    if raw != "" && raw[0] == '-' then SortSpec(raw[1..], true) else SortSpec(raw, false)
  }

  /** What the `sort` parameter's schema accepts. */
  predicate SortAccepted(raw: string, paths: map<string, string>) { ParseSortToken(raw).field in paths }

  function Value(d: Doc, path: string): Option<int> {
    if path == "_id" then Some(d.id) else if path in d.fields then Some(d.fields[path]) else None
  }

  predicate AtMost(a: Option<int>, b: Option<int>) {
    a.None? || (b.Some? && a.value <= b.value)
  }

  predicate KeyLe(k: SortKey, a: Doc, b: Doc) {
    if k.descending then AtMost(Value(b, k.path), Value(a, k.path)) else AtMost(Value(a, k.path), Value(b, k.path))
  }

  /** The order of a sort document: its keys in turn. */
  predicate Le(keys: seq<SortKey>, a: Doc, b: Doc) {
    keys == [] || (KeyLe(keys[0], a, b) && (KeyLe(keys[0], b, a) ==> Le(keys[1..], a, b)))
  }

  function Order(keys: seq<SortKey>): (Doc, Doc) -> bool { (a: Doc, b: Doc) => Le(keys, a, b) }

  ghost predicate UniqueIds(matched: seq<Doc>) {
    forall i, j :: 0 <= i < j < |matched| ==> matched[i].id != matched[j].id
  }

  /** What a sorted query may return. */
  ghost predicate Arrangement(s: seq<Doc>, matched: seq<Doc>, keys: seq<SortKey>) {
    multiset(s) == multiset(matched) && Sorted(s, Order(keys))
  }

  // ── One page ──────────────────────────────────────────────────────────────

  datatype Meta = Meta(total: nat, page: nat, limit: nat, pages: nat)

  datatype Paginated = Paginated(items: seq<Doc>, meta: Meta)

  function Ceil(total: nat, limit: nat): nat
    requires limit >= 1
  {
    (total + limit - 1) / limit
  }

  function ToPageMeta(total: nat, page: nat, limit: nat): Meta
    requires limit >= 1
  {
    Meta(total, page, limit, Ceil(total, limit))
  }

  function Window(s: seq<Doc>, skip: nat, limit: nat): seq<Doc> {
    var rest := if skip <= |s| then s[skip..] else [];
    if limit <= |rest| then rest[..limit] else rest
  }

  /** `arranged` is the arrangement this call's query happens to use. */
  function FindPage(arranged: seq<Doc>, page: nat, limit: nat): Paginated
    requires page >= 1 && limit >= 1
  {
    Paginated(Window(arranged, (page - 1) * limit, limit), ToPageMeta(|arranged|, page, limit))
  }

  /** `$count` emits nothing for an empty input. */
  function CountStage(arranged: seq<Doc>): seq<nat> { if arranged == [] then [] else [|arranged|] }

  /** The facet pipeline, without join stages. */
  function AggregatePage(arranged: seq<Doc>, page: nat, limit: nat): Paginated
    requires page >= 1 && limit >= 1
  {
    var counted := CountStage(arranged);
    var total := if |counted| > 0 then counted[0] else 0;
    Paginated(Window(arranged, (page - 1) * limit, limit), ToPageMeta(total, page, limit))
  }

  lemma AggregateAgrees(arranged: seq<Doc>, page: nat, limit: nat)
    requires page >= 1 && limit >= 1
    ensures AggregatePage(arranged, page, limit) == FindPage(arranged, page, limit)
    ensures arranged == [] ==> FindPage(arranged, page, limit) == Paginated([], Meta(0, page, limit, 0))
  {
    if arranged == [] {
      assert (0 + limit - 1) / limit == 0;
    }
  }

  // ── Orders ────────────────────────────────────────────────────────────────

  lemma {:induction false} LeIsTotal(keys: seq<SortKey>, a: Doc, b: Doc)
    ensures Le(keys, a, b) || Le(keys, b, a)
  {
    if keys != [] {
      LeIsTotal(keys[1..], a, b);
    }
  }

  lemma {:induction false} LeIsTransitive(keys: seq<SortKey>, a: Doc, b: Doc, c: Doc)
    requires Le(keys, a, b) && Le(keys, b, c)
    ensures Le(keys, a, c)
  {
    if keys != [] {
      if KeyLe(keys[0], c, a) {
        LeIsTransitive(keys[1..], a, b, c);
      }
    }
  }

  lemma OrderIsPreorder(keys: seq<SortKey>)
    ensures TotalPreorder(Order(keys))
  {
    forall a, b ensures Order(keys)(a, b) || Order(keys)(b, a) { LeIsTotal(keys, a, b); }
    forall a, b, c | Order(keys)(a, b) && Order(keys)(b, c) ensures Order(keys)(a, c) { LeIsTransitive(keys, a, b, c); }
  }

  lemma IdDecides(descending: bool, x: Doc, y: Doc)
    requires Le([SortKey("_id", descending)], x, y) && Le([SortKey("_id", descending)], y, x)
    ensures x.id == y.id
  {
  }

  /** Every sort document `toMongoSort` builds ends in `_id`, so documents with unique ids never tie. */
  lemma MongoSortSeparates(spec: SortSpec, paths: map<string, string>, matched: seq<Doc>)
    requires ToMongoSort(spec, paths).Some? && UniqueIds(matched)
    ensures Separates(Order(ToMongoSort(spec, paths).value), matched)
  {
    var keys := ToMongoSort(spec, paths).value;
    forall x, y | x in matched && y in matched && Le(keys, x, y) && Le(keys, y, x) ensures x == y {
      if |keys| == 2 {
        assert keys[1..] == [SortKey("_id", spec.descending)];
      }
      IdDecides(spec.descending, x, y);
      var i :| 0 <= i < |matched| && matched[i] == x;
      var j :| 0 <= j < |matched| && matched[j] == y;
    }
  }

  /** A sort token the schema accepts is always translated, when every declared path is a name. */
  lemma AcceptedSortsTranslate(raw: string, paths: map<string, string>)
    requires SortAccepted(raw, paths)
    ensures ToMongoSort(ParseSortToken(raw), paths).None? <==> paths[ParseSortToken(raw).field] == ""
  {
  }

  // ── All pages ─────────────────────────────────────────────────────────────

  /** Pages 1 to `n`, each from its own query. */
  function Pages(arranged: nat -> seq<Doc>, n: nat, limit: nat): seq<Doc>
    requires limit >= 1
  {
    if n == 0 then [] else Pages(arranged, n - 1, limit) + FindPage(arranged(n), n, limit).items
  }

  lemma CeilBounds(total: nat, limit: nat)
    requires limit >= 1
    ensures limit * Ceil(total, limit) >= total
    ensures total > 0 ==> Ceil(total, limit) >= 1 && limit * (Ceil(total, limit) - 1) < total
  {
    var q: int := Ceil(total, limit);
    assert total + limit - 1 == limit * q + (total + limit - 1) % limit;
    assert limit * (q - 1) == limit * q - limit;
  }

  lemma {:induction false} PagesOfOne(s: seq<Doc>, arranged: nat -> seq<Doc>, n: nat, limit: nat)
    requires limit >= 1 && forall p: nat :: 1 <= p <= n ==> arranged(p) == s
    ensures Pages(arranged, n, limit) == if limit * n <= |s| then s[..limit * n] else s
  {
    if n > 0 {
      PagesOfOne(s, arranged, n - 1, limit);
      var skip := (n - 1) * limit;
      assert limit * n == skip + limit && skip == limit * (n - 1);
      if skip <= |s| {
        assert s[..skip] + Window(s, skip, limit) == if skip + limit <= |s| then s[..skip + limit] else s;
      }
    }
  }

  lemma Times(a: int, b: int, c: int)
    requires a <= b && c >= 0
    ensures a * c <= b * c
  {
  }

  /** Where page `p` starts and stops, against the total. */
  lemma PageBounds(total: nat, p: nat, limit: nat)
    requires p >= 1 && limit >= 1
    ensures p < Ceil(total, limit) ==> (p - 1) * limit + limit <= total
    ensures p == Ceil(total, limit) ==> (p - 1) * limit < total <= (p - 1) * limit + limit
    ensures p > Ceil(total, limit) ==> total <= (p - 1) * limit
  {
    var n: int := Ceil(total, limit);
    CeilBounds(total, limit);
    assert (p - 1) * limit + limit == p * limit && limit * n == n * limit && limit * (n - 1) == (n - 1) * limit;
    if p < n {
      Times(p, n - 1, limit);
    } else if p > n {
      Times(n, p - 1, limit);
    }
  }

  /** Every page is full but the last, which holds one to `limit` documents; later ones are empty. */
  lemma PageLength(s: seq<Doc>, p: nat, limit: nat)
    requires p >= 1 && limit >= 1
    ensures var n, items := Ceil(|s|, limit), FindPage(s, p, limit).items;
      && (p < n ==> |items| == limit)
      && (p == n ==> 1 <= |items| <= limit)
      && (p > n ==> items == [])
  {
    PageBounds(|s|, p, limit);
  }

  /**
   * Main result. Whatever arrangement each query uses, pages 1 to `pages` concatenate to the matched
   * documents in sorted order, each once, when no two documents tie.
   */
  lemma PagesPartition(matched: seq<Doc>, keys: seq<SortKey>, arranged: nat -> seq<Doc>, limit: nat)
    requires limit >= 1 && Separates(Order(keys), matched)
    requires forall p: nat :: 1 <= p ==> Arrangement(arranged(p), matched, keys)
    ensures Pages(arranged, Ceil(|matched|, limit), limit) == Sort(matched, Order(keys))
  {
    OrderIsPreorder(keys);
    SortIsSorted(matched, Order(keys));
    var s := Sort(matched, Order(keys));
    assert |s| == |matched| by { assert |multiset(s)| == |s| && |multiset(matched)| == |matched|; }
    forall p: nat | 1 <= p ensures arranged(p) == s {
      SameRowsSeparate(matched, s, keys);
      SortedIsUnique(s, arranged(p), Order(keys));
    }
    PagesOfOne(s, arranged, Ceil(|matched|, limit), limit);
    CeilBounds(|matched|, limit);
  }

  lemma SameRowsSeparate(matched: seq<Doc>, s: seq<Doc>, keys: seq<SortKey>)
    requires multiset(s) == multiset(matched) && Separates(Order(keys), matched)
    ensures Separates(Order(keys), s)
  {
    forall x | x in s ensures x in matched { assert x in multiset(s); }
  }

  /** A sort built by `toMongoSort` meets that condition. */
  lemma ListEndpointsPartition(
    spec: SortSpec, paths: map<string, string>, matched: seq<Doc>, arranged: nat -> seq<Doc>, limit: nat)
    requires limit >= 1 && UniqueIds(matched) && ToMongoSort(spec, paths).Some?
    requires forall p: nat :: 1 <= p ==> Arrangement(arranged(p), matched, ToMongoSort(spec, paths).value)
    ensures Pages(arranged, Ceil(|matched|, limit), limit) == Sort(matched, Order(ToMongoSort(spec, paths).value))
  {
    MongoSortSeparates(spec, paths, matched);
    PagesPartition(matched, ToMongoSort(spec, paths).value, arranged, limit);
  }

  /** A missing value before every other, else by size. */
  predicate Sooner(x: Option<int>, y: Option<int>) { y.Some? && (x.None? || x.value < y.value) }

  /** In the requested order of one field, ties by id in the same direction. */
  predicate Follows(path: string, descending: bool, a: Doc, b: Doc) {
    var x, y := Value(a, path), Value(b, path);
    if x == y then if descending then b.id <= a.id else a.id <= b.id
    else if descending then Sooner(y, x) else Sooner(x, y)
  }

  /**
   * The sort built for a request orders documents by the field it names, downwards exactly when the
   * name is preceded by a dash.
   */
  lemma SortFollowsRequest(raw: string, field: string, descending: bool, paths: map<string, string>, a: Doc, b: Doc)
    requires raw == (if descending then "-" + field else field) && (!descending && field != "" ==> field[0] != '-')
    requires field in paths && paths[field] != ""
    ensures ToMongoSort(ParseSortToken(raw), paths).Some?
    ensures Le(ToMongoSort(ParseSortToken(raw), paths).value, a, b) <==> Follows(paths[field], descending, a, b)
  {
    assert ParseSortToken(raw) == SortSpec(field, descending);
    LeOne(SortKey("_id", descending), a, b);
    LeTwo(SortKey(paths[field], descending), SortKey("_id", descending), a, b);
  }

  lemma LeOne(k: SortKey, a: Doc, b: Doc)
    ensures Le([k], a, b) <==> KeyLe(k, a, b)
  {
  }

  lemma LeTwo(k: SortKey, l: SortKey, a: Doc, b: Doc)
    ensures Le([k, l], a, b) <==> KeyLe(k, a, b) && (KeyLe(k, b, a) ==> KeyLe(l, a, b))
  {
    LeOne(l, a, b);
    assert [k, l][1..] == [l];
  }

  /** The number of pages is the least that holds every document. */
  lemma PagesAreEnough(arranged: seq<Doc>, page: nat, limit: nat)
    requires page >= 1 && limit >= 1
    ensures var meta := FindPage(arranged, page, limit).meta;
      && meta.total == |arranged| && meta.page == page && meta.limit == limit
      && |arranged| <= meta.pages * limit < |arranged| + limit
  {
    var n := |arranged| + limit - 1;
    Division(n, limit);
    assert FindPage(arranged, page, limit).meta.pages == n / limit;
  }

  lemma Division(n: nat, d: nat)
    requires d >= 1
    ensures n - d < (n / d) * d <= n
  {
  }

  // ── Without the tiebreak ──────────────────────────────────────────────────

  /** Two arrangements that differ only in which of two tied neighbours comes first. */
  lemma SwapIsArrangement(s: seq<Doc>, matched: seq<Doc>, keys: seq<SortKey>, i: nat)
    requires Arrangement(s, matched, keys) && i + 1 < |s| && Le(keys, s[i + 1], s[i])
    ensures Arrangement(s[i := s[i + 1]][i + 1 := s[i]], matched, keys)
  {
    OrderIsPreorder(keys);
    var t := s[i := s[i + 1]][i + 1 := s[i]];
    assert multiset(t) == multiset(s);
    forall a, b | 0 <= a < b < |t| ensures Order(keys)(t[a], t[b]) {
      if a == i && b == i + 1 {
        assert t[a] == s[i + 1] && t[b] == s[i];
      } else {
        var a' := if a == i then i + 1 else if a == i + 1 then i else a;
        var b' := if b == i then i + 1 else if b == i + 1 then i else b;
        assert a' < b' && t[a] == s[a'] && t[b] == s[b'];
        assert Order(keys)(s[a'], s[b']);
      }
    }
  }

  /**
   * If two different documents tie, one-document pages can lose one of them: the query for the
   * second page may put the other first.
   */
  lemma TiesLoseDocuments(matched: seq<Doc>, keys: seq<SortKey>, s: seq<Doc>, i: nat)
    returns (arranged: nat -> seq<Doc>)
    requires Arrangement(s, matched, keys) && UniqueIds(s) && i + 1 < |s| && Le(keys, s[i + 1], s[i])
    ensures forall p: nat :: 1 <= p ==> Arrangement(arranged(p), matched, keys)
    ensures s[i + 1] in matched && s[i + 1] !in Pages(arranged, Ceil(|matched|, 1), 1)
  {
    var t := s[i := s[i + 1]][i + 1 := s[i]];
    SwapIsArrangement(s, matched, keys, i);
    arranged := (p: nat) => if p == i + 2 then t else s;
    assert |s| == |matched| by { assert |multiset(s)| == |s| && |multiset(matched)| == |matched|; }
    assert s[i + 1] in multiset(s);
    assert Ceil(|matched|, 1) == |matched|;
    NeverShown(s, t, arranged, i, |matched|);
  }

  lemma {:induction false} NeverShown(s: seq<Doc>, t: seq<Doc>, arranged: nat -> seq<Doc>, i: nat, n: nat)
    requires UniqueIds(s) && i + 1 < |s| && t == s[i := s[i + 1]][i + 1 := s[i]] && n <= |s|
    requires forall p: nat :: arranged(p) == if p == i + 2 then t else s
    ensures s[i + 1] !in Pages(arranged, n, 1)
  {
    if n > 0 {
      NeverShown(s, t, arranged, i, n - 1);
      assert (n - 1) * 1 == n - 1;
      assert FindPage(arranged(n), n, 1).items == [arranged(n)[n - 1]];
      assert arranged(n)[n - 1] == if n == i + 2 then s[i] else s[n - 1];
    }
  }

  lemma {:induction false} OneOfEach(matched: seq<Doc>, d: Doc)
    requires UniqueIds(matched)
    ensures multiset(matched)[d] <= 1
  {
    if matched != [] {
      var rest := matched[1..];
      OneOfEach(rest, d);
      assert matched == [matched[0]] + rest;
      if d == matched[0] {
        forall j | 0 <= j < |rest| ensures rest[j] != d { assert matched[j + 1].id != matched[0].id; }
        assert d !in multiset(rest);
      }
    }
  }

  lemma TwoOfSame(s: seq<Doc>, i: nat, j: nat)
    requires i < j < |s|
    ensures s[i] == s[j] ==> multiset(s)[s[i]] >= 2
  {
    assert s == s[..j] + [s[j]] + s[j + 1..];
    assert s[..j][i] == s[i] && s[i] in multiset(s[..j]);
  }

  lemma UniqueIdsPermute(s: seq<Doc>, matched: seq<Doc>)
    requires multiset(s) == multiset(matched) && UniqueIds(matched)
    ensures UniqueIds(s)
  {
    forall i, j | 0 <= i < j < |s| ensures s[i].id != s[j].id {
      OneOfEach(matched, s[i]);
      TwoOfSame(s, i, j);
      assert s[i] in multiset(s) && s[j] in multiset(s);
      var k :| 0 <= k < |matched| && matched[k] == s[i];
      var l :| 0 <= l < |matched| && matched[l] == s[j];
    }
  }

  ghost predicate Partitioned(matched: seq<Doc>, keys: seq<SortKey>, arranged: nat -> seq<Doc>, limit: nat)
    requires limit >= 1
  {
    (forall p: nat :: 1 <= p ==> Arrangement(arranged(p), matched, keys)) ==>
      Pages(arranged, Ceil(|matched|, limit), limit) == Sort(matched, Order(keys))
  }

  lemma TiedNeighbours(s: seq<Doc>, keys: seq<SortKey>, lo: nat, hi: nat)
    requires Sorted(s, Order(keys)) && lo < hi < |s| && Le(keys, s[hi], s[lo])
    ensures Le(keys, s[lo + 1], s[lo])
  {
    if lo + 1 < hi {
      assert Order(keys)(s[lo + 1], s[hi]);
      LeIsTransitive(keys, s[lo + 1], s[hi], s[lo]);
    }
  }

  lemma TieBreaksPaging(matched: seq<Doc>, keys: seq<SortKey>, x: Doc, y: Doc)
    requires UniqueIds(matched) && x in matched && y in matched && x != y && Le(keys, x, y) && Le(keys, y, x)
    ensures exists arranged :: !Partitioned(matched, keys, arranged, 1)
  {
    OrderIsPreorder(keys);
    SortIsSorted(matched, Order(keys));
    var s := Sort(matched, Order(keys));
    UniqueIdsPermute(s, matched);
    assert x in multiset(matched) && y in multiset(matched);
    var i :| 0 <= i < |s| && s[i] == x;
    var j :| 0 <= j < |s| && s[j] == y;
    var lo, hi := if i < j then i else j, if i < j then j else i;
    TiedNeighbours(s, keys, lo, hi);
    var arranged := TiesLoseDocuments(matched, keys, s, lo);
    assert s[lo + 1] in Sort(matched, Order(keys));
    assert !Partitioned(matched, keys, arranged, 1);
  }

  /** Paging partitions the matched documents, whatever the queries do, exactly when no two of them tie. */
  lemma PagingPartitionsIff(matched: seq<Doc>, keys: seq<SortKey>)
    requires UniqueIds(matched)
    ensures (forall arranged: nat -> seq<Doc>, limit: nat | limit >= 1 :: Partitioned(matched, keys, arranged, limit))
      <==> Separates(Order(keys), matched)
  {
    if Separates(Order(keys), matched) {
      forall arranged: nat -> seq<Doc>, limit: nat | limit >= 1 ensures Partitioned(matched, keys, arranged, limit) {
        if forall p: nat :: 1 <= p ==> Arrangement(arranged(p), matched, keys) {
          PagesPartition(matched, keys, arranged, limit);
        }
      }
    } else {
      var x, y :| x in matched && y in matched && Order(keys)(x, y) && Order(keys)(y, x) && x != y;
      TieBreaksPaging(matched, keys, x, y);
    }
  }

  // ── Lists that do not build their sort with `toMongoSort` ─────────────────

  /** The administrator directory and the approval queue sort by hand, without `_id`. */
  const DIRECTORY_SORT: seq<SortKey> := [SortKey("tier", false), SortKey("created_at", true)]

  const APPROVALS_SORT: seq<SortKey> := [SortKey("created_at", true)]

  predicate SameValues(keys: seq<SortKey>, a: Doc, b: Doc) {
    forall i :: 0 <= i < |keys| ==> Value(a, keys[i].path) == Value(b, keys[i].path)
  }

  lemma {:induction false} TieIff(keys: seq<SortKey>, a: Doc, b: Doc)
    ensures Le(keys, a, b) && Le(keys, b, a) <==> SameValues(keys, a, b)
  {
    if keys != [] {
      TieIff(keys[1..], a, b);
      assert SameValues(keys, a, b)
        <==> Value(a, keys[0].path) == Value(b, keys[0].path) && SameValues(keys[1..], a, b) by {
        forall i | 0 < i < |keys| ensures keys[i] == keys[1..][i - 1] {}
      }
    }
  }

  /** Any sort document pages without loss exactly when no two documents agree on all of its keys. */
  lemma HandSortPartitionsIff(matched: seq<Doc>, keys: seq<SortKey>)
    requires UniqueIds(matched)
    ensures (forall arranged: nat -> seq<Doc>, limit: nat | limit >= 1 :: Partitioned(matched, keys, arranged, limit))
      <==> forall x, y :: x in matched && y in matched && SameValues(keys, x, y) ==> x == y
  {
    PagingPartitionsIff(matched, keys);
    forall x, y ensures Order(keys)(x, y) && Order(keys)(y, x) <==> SameValues(keys, x, y) {
      TieIff(keys, x, y);
    }
  }

  /**
   * So both lists can lose a row: two requests created at one instant, or two administrators of one
   * tier created at one instant.
   */
  lemma HandSortsLoseDocuments(x: Doc, y: Doc)
    requires x.id != y.id && Value(x, "created_at") == Value(y, "created_at")
    ensures exists arranged :: !Partitioned([x, y], APPROVALS_SORT, arranged, 1)
    ensures Value(x, "tier") == Value(y, "tier") ==>
      exists arranged :: !Partitioned([x, y], DIRECTORY_SORT, arranged, 1)
  {
    TieIff(APPROVALS_SORT, x, y);
    TieBreaksPaging([x, y], APPROVALS_SORT, x, y);
    if Value(x, "tier") == Value(y, "tier") {
      TieIff(DIRECTORY_SORT, x, y);
      TieBreaksPaging([x, y], DIRECTORY_SORT, x, y);
    }
  }
}
