/** How filtering, cutting and merging rows of the activity feed commute. */
module FeedFilters {
  import opened Prelude
  import opened StableSort
  import opened ActivityFeed

  /** The rows a page that ends at instant `b` should hold, when it starts below `cursor`. */
  function Within(cursor: Option<int>, b: int): Candidate -> bool {
    (x: Candidate) => Before(cursor)(x) && b <= x.at
  }

  function At(t: int): Candidate -> bool { (x: Candidate) => x.at == t }

  ghost predicate NewestFirst(s: seq<Candidate>) {
    forall i, j :: 0 <= i < j < |s| ==> s[i].at >= s[j].at
  }

  function FilterEach(db: Feed, p: Candidate -> bool): Feed {
    seq(|db|, k requires 0 <= k < |db| => Filter(db[k], p))
  }

  function TakeEach(db: Feed, n: nat): Feed {
    seq(|db|, k requires 0 <= k < |db| => Take(db[k], n))
  }

  // ── Filters ───────────────────────────────────────────────────────────────

  lemma Associates(a: seq<Candidate>, b: seq<Candidate>, c: seq<Candidate>)
    ensures a + (b + c) == a + b + c
  {
  }

  lemma {:induction false} FilterConcat(s: seq<Candidate>, t: seq<Candidate>, p: Candidate -> bool)
    ensures Filter(s + t, p) == Filter(s, p) + Filter(t, p)
  {
    if s == [] {
      assert s + t == t;
    } else {
      var head := if p(s[0]) then [s[0]] else [];
      FilterConcat(s[1..], t, p);
      assert (s + t)[0] == s[0] && (s + t)[1..] == s[1..] + t;
      assert Filter(s + t, p) == head + Filter(s[1..] + t, p);
      Associates(head, Filter(s[1..], p), Filter(t, p));
    }
  }

  lemma {:induction false} FilterCounts(s: seq<Candidate>, p: Candidate -> bool, x: Candidate)
    ensures multiset(Filter(s, p))[x] == if p(x) then multiset(s)[x] else 0
  {
    if s != [] {
      FilterCounts(s[1..], p, x);
      assert s == [s[0]] + s[1..];
    }
  }

  lemma FilterMembers(s: seq<Candidate>, p: Candidate -> bool)
    ensures forall x :: x in Filter(s, p) <==> x in s && p(x)
  {
    forall x ensures x in Filter(s, p) <==> x in s && p(x) {
      FilterCounts(s, p, x);
      assert x in Filter(s, p) <==> x in multiset(Filter(s, p));
      assert x in s <==> x in multiset(s);
    }
  }

  lemma SameRowsSameFilter(s: seq<Candidate>, t: seq<Candidate>, p: Candidate -> bool)
    requires multiset(s) == multiset(t)
    ensures multiset(Filter(s, p)) == multiset(Filter(t, p))
    ensures |Filter(s, p)| == |Filter(t, p)|
  {
    forall x ensures multiset(Filter(s, p))[x] == multiset(Filter(t, p))[x] {
      FilterCounts(s, p, x);
      FilterCounts(t, p, x);
    }
    assert multiset(Filter(s, p)) == multiset(Filter(t, p));
    assert |multiset(Filter(s, p))| == |Filter(s, p)| && |multiset(Filter(t, p))| == |Filter(t, p)|;
  }

  lemma {:induction false} FilterAtMost(s: seq<Candidate>, p: Candidate -> bool)
    ensures |Filter(s, p)| <= |s|
  {
    if s != [] {
      FilterAtMost(s[1..], p);
    }
  }

  lemma {:induction false} FilterAll(s: seq<Candidate>, p: Candidate -> bool)
    requires forall i :: 0 <= i < |s| ==> p(s[i])
    ensures Filter(s, p) == s
  {
    if s != [] {
      FilterAll(s[1..], p);
      assert s == [s[0]] + s[1..];
    }
  }

  lemma {:induction false} FilterMisses(s: seq<Candidate>, p: Candidate -> bool, i: nat)
    requires i < |s| && !p(s[i])
    ensures |Filter(s, p)| < |s|
  {
    if i == 0 {
      FilterAtMost(s[1..], p);
    } else {
      FilterMisses(s[1..], p, i - 1);
    }
  }

  lemma {:induction false} FilterTwice(
    s: seq<Candidate>, p: Candidate -> bool, q: Candidate -> bool, r: Candidate -> bool)
    requires forall x :: x in s ==> (r(x) <==> p(x) && q(x))
    ensures Filter(Filter(s, p), q) == Filter(s, r)
  {
    if s != [] {
      FilterTwice(s[1..], p, q, r);
      assert r(s[0]) <==> p(s[0]) && q(s[0]);
      FilterConcat(if p(s[0]) then [s[0]] else [], Filter(s[1..], p), q);
    }
  }

  lemma {:induction false} FilterParts(
    s: seq<Candidate>, p: Candidate -> bool, q: Candidate -> bool, r: Candidate -> bool)
    requires forall x :: x in s ==> (p(x) <==> q(x) || r(x)) && !(q(x) && r(x))
    ensures |Filter(s, p)| == |Filter(s, q)| + |Filter(s, r)|
  {
    if s != [] {
      FilterParts(s[1..], p, q, r);
      assert s[0] in s;
    }
  }

  lemma {:induction false} FilterSorted(s: seq<Candidate>, p: Candidate -> bool)
    requires Sorted(s, Precedes())
    ensures Sorted(Filter(s, p), Precedes())
  {
    if s != [] {
      FilterSorted(s[1..], p);
      FilterMembers(s[1..], p);
      forall j | 0 <= j < |Filter(s[1..], p)| ensures Precedes()(s[0], Filter(s[1..], p)[j]) {
        assert Filter(s[1..], p)[j] in s[1..];
      }
    }
  }

  // ── Newest-first lists ────────────────────────────────────────────────────

  lemma {:induction false} NothingSince(s: seq<Candidate>, b: int)
    requires NewestFirst(s) && (s == [] || s[0].at < b)
    ensures Filter(s, Since(b)) == []
  {
    if s != [] {
      NothingSince(s[1..], b);
    }
  }

  /** Cutting a newest-first list commutes with dropping what is older than `b`. */
  lemma {:induction false} TakeFilter(s: seq<Candidate>, b: int, n: nat)
    requires NewestFirst(s)
    ensures Filter(Take(s, n), Since(b)) == Take(Filter(s, Since(b)), n)
  {
    if s == [] || n == 0 {
    } else if s[0].at < b {
      NothingSince(s, b);
      NothingSince(Take(s, n), b);
    } else {
      TakeFilter(s[1..], b, n - 1);
      assert Take(s, n) == [s[0]] + Take(s[1..], n - 1);
    }
  }

  /** A newest-first list is its rows since `b`, then its rows before `b`. */
  lemma {:induction false} SplitAtInstant(s: seq<Candidate>, b: int)
    requires NewestFirst(s)
    ensures s == Filter(s, Since(b)) + Filter(s, Before(Some(b)))
  {
    if s != [] {
      SplitAtInstant(s[1..], b);
      if s[0].at < b {
        NothingSince(s, b);
        NothingSince(s[1..], b);
      }
      assert s == [s[0]] + s[1..];
    }
  }

  /** The rows since `b` are the prefix that stops at the first older row. */
  lemma {:induction false} PrefixSince(s: seq<Candidate>, end: nat, b: int)
    requires NewestFirst(s) && end <= |s|
    requires end > 0 ==> s[end - 1].at >= b
    requires end < |s| ==> s[end].at < b
    ensures Filter(s, Since(b)) == s[..end]
  {
    if end == 0 {
      NothingSince(s, b);
    } else {
      PrefixSince(s[1..], end - 1, b);
      assert s[..end] == [s[0]] + s[1..][..end - 1];
    }
  }

  /** Fewer than `limit` rows of a newest-first list are strictly newer than its `limit`-th. */
  lemma FewNewer(s: seq<Candidate>, limit: nat)
    requires NewestFirst(s) && 1 <= limit <= |s|
    ensures |Filter(s, Since(s[limit - 1].at + 1))| < limit
  {
    var b := s[limit - 1].at + 1;
    assert s == s[..limit - 1] + s[limit - 1..];
    FilterConcat(s[..limit - 1], s[limit - 1..], Since(b));
    FilterAtMost(s[..limit - 1], Since(b));
    NothingSince(s[limit - 1..], b);
  }

  lemma {:induction false} FilterNewestFirst(s: seq<Candidate>, p: Candidate -> bool)
    requires NewestFirst(s)
    ensures NewestFirst(Filter(s, p))
  {
    if s != [] {
      FilterNewestFirst(s[1..], p);
      FilterMembers(s[1..], p);
      forall j | 0 <= j < |Filter(s[1..], p)| ensures s[0].at >= Filter(s[1..], p)[j].at {
        assert Filter(s[1..], p)[j] in s[1..];
      }
    }
  }

  // ── All sources at once ───────────────────────────────────────────────────

  lemma {:induction false} FlatFilter(db: Feed, p: Candidate -> bool)
    ensures Filter(Flat(db), p) == Flat(FilterEach(db, p))
  {
    if db != [] {
      FlatFilter(db[1..], p);
      FilterConcat(db[0], Flat(db[1..]), p);
      assert FilterEach(db, p)[1..] == FilterEach(db[1..], p);
    }
  }

  /** Cutting every source at `n` loses rows exactly when some source has more than `n`. */
  lemma {:induction false} CutLosesIff(db: Feed, n: nat)
    ensures |Flat(TakeEach(db, n))| <= |Flat(db)|
    ensures |Flat(TakeEach(db, n))| == |Flat(db)| <==> forall k :: 0 <= k < |db| ==> |db[k]| <= n
    ensures (forall k :: 0 <= k < |db| ==> |db[k]| <= n) ==> TakeEach(db, n) == db
  {
    if db != [] {
      CutLosesIff(db[1..], n);
      assert TakeEach(db, n)[1..] == TakeEach(db[1..], n);
      assert (forall k :: 0 <= k < |db| ==> |db[k]| <= n)
        <==> |db[0]| <= n && (forall k :: 0 <= k < |db[1..]| ==> |db[1..][k]| <= n) by {
        assert forall k :: 0 <= k < |db[1..]| ==> db[1..][k] == db[k + 1];
        if |db[0]| <= n && (forall k :: 0 <= k < |db[1..]| ==> |db[1..][k]| <= n) {
          forall k | 0 <= k < |db| ensures |db[k]| <= n {
            if k > 0 { assert db[k] == db[1..][k - 1]; }
          }
        }
      }
    }
  }

  lemma {:induction false} FlatAtMost(db: Feed, n: nat)
    requires forall k :: 0 <= k < |db| ==> |db[k]| <= n
    ensures |Flat(db)| <= n * |db|
  {
    if db != [] {
      FlatAtMost(db[1..], n);
    }
  }

  lemma {:induction false} OneSourceAtMostAll(db: Feed, k: nat)
    requires k < |db|
    ensures |db[k]| <= |Flat(db)|
  {
    if k > 0 {
      OneSourceAtMostAll(db[1..], k - 1);
    }
  }
}
