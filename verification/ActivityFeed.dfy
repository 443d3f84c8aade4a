/**
 * The merged activity feed (src/modules/accounts/repositories/account-activity.read.repository.ts
 * and getActivity in src/modules/accounts/controllers/account.controller.ts).
 *
 * A row is known by its instant, its document id and the collection it comes from; ids compare as
 * their 24 hexadecimal digits do.
 */
module ActivityFeed {
  import opened Prelude
  import opened StableSort

  datatype Candidate = Candidate(at: int, id: nat, source: nat)

  /** `next` is passed back as `before`; none at the end of the feed. */
  datatype Page = Page(items: seq<Candidate>, next: Option<int>)

  type Feed = seq<seq<Candidate>>

  /** The comparator: newest first, larger id first, anything equal left as it stands. */
  function ByNewestFirst(): (Candidate, Candidate) -> bool {
    (a: Candidate, b: Candidate) => a.at > b.at || (a.at == b.at && a.id >= b.id)
  }

  function Flat(sources: Feed): seq<Candidate> {
    if sources == [] then [] else sources[0] + Flat(sources[1..])
  }

  /** Where the tie group that reaches `end` stops. */
  function TieEnd(all: seq<Candidate>, end: nat, boundary: int): (r: nat)
    requires end <= |all|
    ensures end <= r <= |all|
    ensures forall i :: end <= i < r ==> all[i].at == boundary
    ensures r < |all| ==> all[r].at != boundary
    decreases |all| - end
  {
    if end < |all| && all[end].at == boundary then TieEnd(all, end + 1, boundary) else end
  }

  function Merged(sources: Feed): seq<Candidate> {
    Sort(Flat(sources), ByNewestFirst())
  }

  function MergedPage(sources: Feed, limit: nat): Page
    requires 1 <= limit
  {
    var all := Merged(sources);
    if |all| <= limit then Page(all, None)
    else
      var end := TieEnd(all, limit, all[limit - 1].at);
      Page(all[..end], Some(all[end - 1].at))
  }

  method MergeActivity(sources: Feed, limit: nat) returns (page: Page)
    requires 1 <= limit
    ensures page == MergedPage(sources, limit)
  {
    var all: seq<Candidate> := [];
    var k: nat := |sources|;
    while k > 0
      invariant 0 <= k <= |sources| && all == Flat(sources[k..])
    {
      k := k - 1;
      assert sources[k..][0] == sources[k] && sources[k..][1..] == sources[k + 1..];
      all := sources[k] + all;
    }
    assert sources[0..] == sources;
    all := Sort(all, ByNewestFirst());
    if |all| <= limit {
      return Page(all, None);
    }
    var end := limit;
    var boundary := all[end - 1].at;
    while end < |all| && all[end].at == boundary
      invariant limit <= end <= |all|
      invariant TieEnd(all, limit, boundary) == TieEnd(all, end, boundary)
    {
      end := end + 1;
    }
    return Page(all[..end], Some(all[end - 1].at));
  }

  // ── One request ───────────────────────────────────────────────────────────

  function Filter(s: seq<Candidate>, p: Candidate -> bool): seq<Candidate> {
    if s == [] then [] else (if p(s[0]) then [s[0]] else []) + Filter(s[1..], p)
  }

  /** Strictly older than the cursor; no cursor admits everything. */
  function Before(cursor: Option<int>): Candidate -> bool {
    (x: Candidate) => cursor.None? || x.at < cursor.value
  }

  function Since(b: int): Candidate -> bool { (x: Candidate) => b <= x.at }

  function Below(s: seq<Candidate>, cursor: Option<int>): seq<Candidate> { Filter(s, Before(cursor)) }

  function Take(s: seq<Candidate>, n: nat): seq<Candidate> { if n < |s| then s[..n] else s }

  /** One source of the feed: a collection as its index serves it, newest first, cut at `n` rows. */
  function ListBefore(collection: seq<Candidate>, cursor: Option<int>, n: nat): seq<Candidate> {
    Take(Below(collection, cursor), n)
  }

  function Fetched(db: Feed, cursor: Option<int>, n: nat): Feed {
    seq(|db|, k requires 0 <= k < |db| => ListBefore(db[k], cursor, n))
  }

  function GetActivity(db: Feed, cursor: Option<int>, limit: nat): Page
    requires 1 <= limit
  {
    MergedPage(Fetched(db, cursor, limit + 1), limit)
  }

  method GetActivityPage(db: Feed, cursor: Option<int>, limit: nat) returns (page: Page)
    requires 1 <= limit
    ensures page == GetActivity(db, cursor, limit)
  {
    page := MergeActivity(Fetched(db, cursor, limit + 1), limit);
  }

  // ── The order behind the comparator ───────────────────────────────────────

  /** What the stable sort realises: ties between collections stay in the collections' order. */
  function Precedes(): (Candidate, Candidate) -> bool {
    (a: Candidate, b: Candidate) =>
      a.at > b.at || (a.at == b.at && (a.id > b.id || (a.id == b.id && a.source <= b.source)))
  }

  /** Collections carry their own number and are strictly newest first: `_id` is unique in each. */
  ghost predicate WellFormed(db: Feed) {
    forall k, i :: 0 <= k < |db| && 0 <= i < |db[k]| ==>
      && db[k][i].source == k
      && (forall j :: i < j < |db[k]| ==> Precedes()(db[k][i], db[k][j]) && db[k][i] != db[k][j])
  }

  ghost predicate BySource(s: seq<Candidate>) {
    forall i, j :: 0 <= i < j < |s| ==> s[i].source <= s[j].source
  }

  lemma PrecedesIsTotal()
    ensures TotalOrder(Precedes())
  {
  }

  lemma {:induction false} InsertSame(x: Candidate, s: seq<Candidate>)
    requires forall y :: y in s ==> x.source <= y.source
    ensures Insert(x, s, ByNewestFirst()) == Insert(x, s, Precedes())
  {
    if s != [] {
      assert s[0] in s;
      InsertSame(x, s[1..]);
    }
  }

  /** On rows laid out collection after collection, the stable sort is the sort by `Precedes`. */
  lemma {:induction false} StableMerge(s: seq<Candidate>)
    requires BySource(s)
    ensures Sort(s, ByNewestFirst()) == Sort(s, Precedes())
    ensures Sorted(Sort(s, Precedes()), Precedes()) && multiset(Sort(s, Precedes())) == multiset(s)
  {
    PrecedesIsTotal();
    SortIsSorted(s, Precedes());
    if s != [] {
      StableMerge(s[1..]);
      forall y | y in Sort(s[1..], Precedes()) ensures s[0].source <= y.source {
        assert y in multiset(s[1..]);
      }
      InsertSame(s[0], Sort(s[1..], Precedes()));
    }
  }

  lemma {:induction false} FlatBySource(db: Feed, first: nat)
    requires forall k, i :: 0 <= k < |db| && 0 <= i < |db[k]| ==> db[k][i].source == first + k
    ensures BySource(Flat(db))
    ensures forall x :: x in Flat(db) ==> first <= x.source
  {
    if db != [] {
      forall k, i | 0 <= k < |db[1..]| && 0 <= i < |db[1..][k]| ensures db[1..][k][i].source == first + 1 + k {
        assert db[1..][k] == db[k + 1];
      }
      FlatBySource(db[1..], first + 1);
    }
  }
}
