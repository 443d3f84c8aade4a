/** What the detail policy guarantees (src/core/errors/detail-policy.ts:110-237). */
module DetailSafety {
  import opened Prelude
  import opened JsonValues
  import opened DetailScrub
  import opened DetailPolicy

  // ── Normalising a key ─────────────────────────────────────────────────────

  lemma {:induction false} NormaliseConcat(a: string, b: string)
    ensures NormaliseKey(a + b) == NormaliseKey(a) + NormaliseKey(b)
  {
    if a == [] {
      assert a + b == b;
    } else {
      NormaliseConcat(a[1..], b);
      assert (a + b)[0] == a[0] && (a + b)[1..] == a[1..] + b;
      assert NormaliseKey(a + b) == NormaliseChar(a[0]) + NormaliseKey(a[1..] + b);
      Associates(NormaliseChar(a[0]), NormaliseKey(a[1..]), NormaliseKey(b));
    }
  }

  lemma Associates(a: string, b: string, c: string)
    ensures a + (b + c) == a + b + c
  {
  }

  lemma {:induction false} NormalisedIsPlain(key: string, i: nat)
    requires i < |NormaliseKey(key)|
    ensures IsPlain(NormaliseKey(key)[i])
  {
    var n := |NormaliseChar(key[0])|;
    if i >= n {
      NormalisedIsPlain(key[1..], i - n);
    }
  }

  lemma {:induction false} PlainNormalises(s: string)
    requires forall i :: 0 <= i < |s| ==> IsPlain(s[i])
    ensures NormaliseKey(s) == s
  {
    if s != [] {
      PlainNormalises(s[1..]);
    }
  }

  lemma {:induction false} OthersVanish(s: string)
    requires forall i :: 0 <= i < |s| ==> s[i] == '-' || s[i] == '_'
    ensures NormaliseKey(s) == []
  {
    if s != [] {
      OthersVanish(s[1..]);
    }
  }

  lemma JoinedNormalises(a: string, separator: char, b: string)
    requires separator == '-' || separator == '_'
    ensures NormaliseKey(a + [separator] + b) == NormaliseKey(a) + NormaliseKey(b)
  {
    OthersVanish([separator]);
    NormaliseConcat(a, [separator]);
    assert NormaliseKey(a) + [] == NormaliseKey(a);
    NormaliseConcat(a + [separator], b);
  }

  lemma UnderscoresAround(word: string)
    requires forall i :: 0 <= i < |word| ==> IsPlain(word[i])
    ensures NormaliseKey("__" + word + "__") == word
  {
    PlainNormalises(word);
    OthersVanish("__");
    NormaliseConcat("__", word);
    assert [] + word == word && word + [] == word;
    NormaliseConcat("__" + word, "__");
  }

  lemma ProtoNormalises()
    ensures NormaliseKey("__proto__") == "proto"
  {
    UnderscoresAround("proto");
    ProtoIsSpelled();
  }

  lemma ProtoIsSpelled()
    ensures "__" + "proto" + "__" == "__proto__"
  {
  }

  predicate PlainWord(s: string) { forall i :: 0 <= i < |s| ==> IsPlain(s[i]) }

  lemma TwoWords(a: string, b: string)
    requires PlainWord(a) && PlainWord(b)
    ensures NormaliseKey(a + ['-'] + b) == a + b
  {
    PlainNormalises(a);
    PlainNormalises(b);
    JoinedNormalises(a, '-', b);
  }

  lemma ThreeWords(a: string, b: string, c: string)
    requires PlainWord(a) && PlainWord(b) && PlainWord(c)
    ensures NormaliseKey(a + ['-'] + b + ['-'] + c) == a + b + c
  {
    TwoWords(a, b);
    PlainNormalises(c);
    JoinedNormalises(a + ['-'] + b, '-', c);
  }

  // ── The projection ────────────────────────────────────────────────────────

  lemma AuthorizationKeysAreNotInternal()
    ensures AUTHORIZATION_KEYS !! INTERNAL_KEYS
  {
  }

  lemma AuthorizationKeysAreNotSensitive()
    ensures AUTHORIZATION_KEYS !! SENSITIVE_NAMES
  {
  }

  lemma RateLimitKeysAreNotDenied()
    ensures RATE_LIMIT_KEYS !! INTERNAL_KEYS && RATE_LIMIT_KEYS !! SENSITIVE_NAMES
  {
  }

  lemma ProtoIsNotListed()
    ensures !ForAuthorization("__proto__") && !ForRateLimit("__proto__")
  {
    ProtoNormalises();
  }

  lemma ListedKeysSurvive()
    ensures forall k :: ForAuthorization(k) ==> Survives(k)
    ensures forall k :: ForRateLimit(k) ==> Survives(k)
  {
    AuthorizationKeysAreNotInternal();
    AuthorizationKeysAreNotSensitive();
    RateLimitKeysAreNotDenied();
    ProtoIsNotListed();
  }

  lemma ProjectedIsPresentable(c: Category, fields: seq<Field>)
    requires !Masked(c)
    ensures Presentable(Object(Projected(c, fields)), Survives)
  {
    ListedKeysSurvive();
    if c == Authorization {
      PickIsPresentable(fields, ForAuthorization, Survives);
    } else if c == RateLimit {
      PickIsPresentable(fields, ForRateLimit, Survives);
    } else {
      ScrubIsPresentable(Object(fields), Survives);
    }
  }

  /** The mark of a projection too long, or impossible, to serialise. */
  ghost predicate IsMarker(o: Json) {
    o == Marker(None) || exists n: nat :: n > MAX_DETAILS_BYTES && o == Marker(Some(n))
  }

  /**
   * In every unmasked category the caller gets nothing, the truncation marker, or a non-empty object
   * within the size limit with no denied key at any level and at most four levels.
   */
  lemma ProjectionIsPresentable(c: Category, details: Option<seq<Field>>, size: Json -> Option<nat>)
    requires !Masked(c) && Project(c, details, size).Some?
    ensures var o := Project(c, details, size).value;
      IsMarker(o) || (o.Object? && o.fields != [] && Fits(o, size) && Presentable(o, Survives))
  {
    ProjectedIsPresentable(c, details.value);
  }

  /** An authorization or rate-limit refusal carries only its listed keys. */
  lemma OnlyListedKeys(c: Category, fields: seq<Field>, i: nat)
    requires (c == Authorization || c == RateLimit) && i < |Projected(c, fields)|
    ensures c == Authorization ==> ForAuthorization(Projected(c, fields)[i].key)
    ensures c == RateLimit ==> ForRateLimit(Projected(c, fields)[i].key)
  {
    if c == Authorization {
      var _ := PickedIsScrubbed(fields, ForAuthorization, Survives, i);
    } else {
      var _ := PickedIsScrubbed(fields, ForRateLimit, Survives, i);
    }
  }

  predicate SameField(a: seq<Field>, b: seq<Field>, k: string) { Lookup(a, k) == Lookup(b, k) }

  /** Two error details with the same four upstream fields. */
  predicate SameUpstream(a: seq<Field>, b: seq<Field>) {
    && SameField(a, b, "platformCode") && SameField(a, b, "platformStatus")
    && SameField(a, b, "upstreamCode") && SameField(a, b, "upstreamStatus")
  }

  lemma UpstreamDecides(a: seq<Field>, b: seq<Field>)
    requires SameUpstream(a, b)
    ensures Upstream(a) == Upstream(b)
  {
  }

  /**
   * In a masked category what the caller sees is decided by the code's registered message and the
   * four upstream fields alone: two errors that agree on those are indistinguishable.
   */
  lemma MaskedTellsNothingElse(
    c: Category, a: seq<Field>, b: seq<Field>, thrownA: string, thrownB: string, registered: Option<string>,
    size: Json -> Option<nat>)
    requires Masked(c) && SameUpstream(a, b)
    ensures Project(c, Some(a), size) == Project(c, Some(b), size)
    ensures ProjectMessage(c, thrownA, registered) == ProjectMessage(c, thrownB, registered)
  {
    UpstreamDecides(a, b);
  }

  // ── Names the policy cannot match ─────────────────────────────────────────

  /** A listed name denies some key exactly when it is made of lower-case letters and digits alone. */
  lemma OnlyPlainNamesDeny(name: string)
    ensures (exists key :: NormaliseKey(key) == name) <==> PlainWord(name)
  {
    if PlainWord(name) {
      PlainNormalises(name);
    }
    if key :| NormaliseKey(key) == name {
      forall i | 0 <= i < |name| ensures IsPlain(name[i]) {
        NormalisedIsPlain(key, i);
      }
    }
  }

  /** The credential headers the logger redacts by bracketed path are not denied as detail keys. */
  lemma BracketedHeadersAreKept()
    ensures !IsDroppedKey("set" + ['-'] + "cookie")
    ensures !IsDroppedKey("x" + ['-'] + "service" + ['-'] + "token")
    ensures !IsDroppedKey("x" + ['-'] + "automation" + ['-'] + "token")
  {
    TwoWords("set", "cookie");
    ThreeWords("x", "service", "token");
    ThreeWords("x", "automation", "token");
    SetCookieIsNotListed();
    ServiceTokenIsNotListed();
    AutomationTokenIsNotListed();
  }

  lemma SetCookieIsNotListed()
    ensures "set" + "cookie" !in INTERNAL_KEYS && "set" + "cookie" !in SENSITIVE_NAMES
  {
    assert "set" + "cookie" == "setcookie";
  }

  lemma ServiceTokenIsNotListed()
    ensures "x" + "service" + "token" !in INTERNAL_KEYS && "x" + "service" + "token" !in SENSITIVE_NAMES
  {
    assert "x" + "service" + "token" == "xservicetoken";
  }

  lemma AutomationTokenIsNotListed()
    ensures "x" + "automation" + "token" !in INTERNAL_KEYS && "x" + "automation" + "token" !in SENSITIVE_NAMES
  {
    assert "x" + "automation" + "token" == "xautomationtoken";
  }
}
