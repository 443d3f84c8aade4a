/**
 * What the caller does get: what every path of the details leads to in the answer
 * (src/core/errors/detail-policy.ts:110-237).
 */
module DetailContents {
  import opened Prelude
  import opened JsonValues
  import opened DetailScrub
  import opened DetailPolicy
  import opened DetailSafety

  // ── What is found at one place ────────────────────────────────────────────

  /** The fields of `from` whose key survives, all of them, in their order. */
  ghost predicate KeepsKeys(from: seq<Field>, to: seq<Field>, survives: string -> bool) {
    exists at: seq<nat> :: PicksKeys(from, to, survives, at)
  }

  ghost predicate PicksKeys(from: seq<Field>, to: seq<Field>, survives: string -> bool, at: seq<nat>) {
    && Rising(at) && |at| == |to|
    && (forall i :: 0 <= i < |at| ==> at[i] < |from| && to[i].key == from[at[i]].key && survives(to[i].key))
    && forall k: nat :: k < |from| && survives(from[k].key) ==> k in at
  }

  /**
   * A leaf as it was; a container as deep as the limit replaced; any other one with as many items, or
   * the surviving keys.
   */
  ghost predicate Resembles(from: Json, to: Json, depth: nat, survives: string -> bool) {
    match from
    case Array(items) =>
      if depth >= 4 then to == String("[TRUNCATED]") else to.Array? && |to.items| == |items|
    case Object(fields) =>
      if depth >= 4 then to == String("[TRUNCATED]") else to.Object? && KeepsKeys(fields, to.fields, survives)
    case _ => to == from
  }

  lemma KeepSnoc(fields: seq<Field>, last: Field, survives: string -> bool)
    ensures Keep(fields + [last], survives) == Keep(fields, survives) + if survives(last.key) then [last] else []
  {
    assert (fields + [last])[..|fields|] == fields;
  }

  lemma PicksAnother(fields: seq<Field>, last: Field, kept: seq<Field>, survives: string -> bool, at: seq<nat>)
    requires PicksKeys(fields, kept, survives, at) && survives(last.key)
    ensures PicksKeys(fields + [last], kept + [last], survives, at + [|fields|])
  {
    var all, more := fields + [last], at + [|fields|];
    forall k: nat | k < |all| && survives(all[k].key) ensures k in more {
      if k < |fields| { assert k in at; }
    }
  }

  lemma PicksNoOther(fields: seq<Field>, last: Field, kept: seq<Field>, survives: string -> bool, at: seq<nat>)
    requires PicksKeys(fields, kept, survives, at) && !survives(last.key)
    ensures PicksKeys(fields + [last], kept, survives, at)
  {
  }

  lemma PicksOneMore(
    fields: seq<Field>, last: Field, kept: seq<Field>, survives: string -> bool, at: seq<nat>) returns (more: seq<nat>)
    requires PicksKeys(fields, kept, survives, at)
    ensures PicksKeys(fields + [last], kept + if survives(last.key) then [last] else [], survives, more)
  {
    if survives(last.key) {
      more := at + [|fields|];
      PicksAnother(fields, last, kept, survives, at);
    } else {
      more := at;
      PicksNoOther(fields, last, kept, survives, at);
      assert kept + [] == kept;
    }
  }

  lemma {:induction false} KeepPicks(fields: seq<Field>, survives: string -> bool) returns (at: seq<nat>)
    ensures PicksKeys(fields, Keep(fields, survives), survives, at)
  {
    at := [];
    if fields != [] {
      var before, last := fields[..|fields| - 1], fields[|fields| - 1];
      var front := KeepPicks(before, survives);
      at := PicksOneMore(before, last, Keep(before, survives), survives, front);
      assert before + [last] == fields;
    }
  }

  lemma SameKeysPicked(
    from: seq<Field>, a: seq<Field>, b: seq<Field>, survives: string -> bool, at: seq<nat>)
    requires PicksKeys(from, a, survives, at) && |a| == |b| && forall i :: 0 <= i < |a| ==> a[i].key == b[i].key
    ensures PicksKeys(from, b, survives, at)
  {
  }

  lemma ScrubResembles(v: Json, depth: nat, survives: string -> bool)
    ensures Resembles(v, Scrub(v, depth, survives), depth, survives)
  {
    if v.Object? && depth < 4 {
      var at := KeepPicks(v.fields, survives);
      SameKeysPicked(v.fields, Keep(v.fields, survives), Scrub(v, depth, survives).fields, survives, at);
    }
  }

  /** What the answer has at a path, said of the original alone. */
  ghost predicate Tells(from: Json, to: Json, depth: nat, path: Path, survives: string -> bool) {
    TellsOf(Follow(from, path), Follow(to, path), Visible(path, survives), depth + |path|, survives)
  }

  /** Found exactly when it was there, is visible and not too deep, and then what it was, but for keys and depth. */
  ghost predicate TellsOf(
    there: Option<Json>, found: Option<Json>, visible: bool, level: nat, survives: string -> bool)
  {
    && (found.Some? <==> there.Some? && visible && level <= 4)
    && (found.Some? ==> Resembles(there.value, found.value, level, survives))
  }

  /**
   * Main result on the scrub, said without it: a path leads somewhere exactly when it did in the
   * original, names no dropped key and is at most as long as the levels left; a leaf is found
   * unchanged, a container at the last level is replaced by the mark, and any other one has its items
   * or its surviving keys, in order.
   */
  lemma ScrubTells(v: Json, depth: nat, path: Path, survives: string -> bool)
    requires depth <= 4
    ensures Tells(v, Scrub(v, depth, survives), depth, path, survives)
  {
    ScrubIsExact(v, depth, path, survives);
    var found := Follow(Scrub(v, depth, survives), path);
    ScrubbedTells(Follow(v, path), found, Visible(path, survives), depth + |path|, survives);
  }

  lemma ScrubbedTells(
    there: Option<Json>, found: Option<Json>, visible: bool, level: nat, survives: string -> bool)
    requires found.Some? <==> there.Some? && visible && level <= 4
    requires found.Some? ==> found.value == Scrub(there.value, level, survives)
    ensures TellsOf(there, found, visible, level, survives)
  {
    if there.Some? {
      ScrubResembles(there.value, level, survives);
    }
  }

  // ── Listed keys ───────────────────────────────────────────────────────────

  lemma PickSnoc(fields: seq<Field>, last: Field, listed: string -> bool, survives: string -> bool)
    ensures Pick(fields + [last], listed, survives) ==
      Pick(fields, listed, survives) + if listed(last.key) then [Field(last.key, Scrub(last.item, 1, survives))] else []
  {
    assert (fields + [last])[..|fields|] == fields;
  }

  lemma LookupSnoc(fields: seq<Field>, last: Field, k: string)
    ensures Lookup(fields + [last], k) == if last.key == k then Some(last.item) else Lookup(fields, k)
  {
    FieldAtSnoc(fields, last, k);
  }

  lemma {:induction false} PickLooksUp(fields: seq<Field>, k: string, listed: string -> bool, survives: string -> bool)
    ensures Lookup(Pick(fields, listed, survives), k) ==
      match Lookup(fields, k)
      case None => None
      case Some(v) => if listed(k) then Some(Scrub(v, 1, survives)) else None
  {
    if fields != [] {
      var before, last := fields[..|fields| - 1], fields[|fields| - 1];
      PickLooksUp(before, k, listed, survives);
      assert fields == before + [last];
      LookupSnoc(before, last, k);
      PickSnoc(before, last, listed, survives);
      LookupSnoc(Pick(before, listed, survives), Field(last.key, Scrub(last.item, 1, survives)), k);
      assert Pick(before, listed, survives) + [] == Pick(before, listed, survives);
    }
  }

  lemma FollowsKey(fields: seq<Field>, k: string, rest: Path)
    ensures Follow(Object(fields), [Key(k)] + rest) ==
      match Lookup(fields, k)
      case None => None
      case Some(v) => Follow(v, rest)
  {
    assert ([Key(k)] + rest)[1..] == rest;
  }

  /** A listed key present in the details is in the answer, with what it held; an unlisted one is not. */
  lemma PickTells(fields: seq<Field>, k: string, rest: Path, listed: string -> bool, survives: string -> bool)
    ensures var answer := Object(Pick(fields, listed, survives));
      && (Lookup(answer.fields, k).Some? <==> Lookup(fields, k).Some? && listed(k))
      && (Lookup(answer.fields, k).Some? ==>
            Tells(Lookup(fields, k).value, Lookup(answer.fields, k).value, 1, rest, survives))
  {
    PickLooksUp(fields, k, listed, survives);
    if Lookup(fields, k).Some? {
      ScrubTells(Lookup(fields, k).value, 1, rest, survives);
    }
  }

  // ── The projection ────────────────────────────────────────────────────────

  /** Which top-level keys an unmasked category gives. */
  function Giving(c: Category): string -> bool {
    if c == Authorization then ForAuthorization else if c == RateLimit then ForRateLimit else Survives
  }

  predicate Given(c: Category, k: string) { Giving(c)(k) }

  lemma ScrubbedField(fields: seq<Field>, k: string, survives: string -> bool)
    ensures Lookup(Scrub(Object(fields), 0, survives).fields, k) ==
      match Lookup(fields, k)
      case None => None
      case Some(v) => if survives(k) then Some(Scrub(v, 1, survives)) else None
  {
    KeepLooksUp(fields, k, survives);
    SameKeysSamePlace(Keep(fields, survives), Scrub(Object(fields), 0, survives).fields, k);
  }

  lemma ProjectedTells(c: Category, fields: seq<Field>, k: string, rest: Path)
    requires !Masked(c)
    ensures var answer := Projected(c, fields);
      && (Lookup(answer, k).Some? <==> Lookup(fields, k).Some? && Given(c, k))
      && (Lookup(answer, k).Some? ==> Tells(Lookup(fields, k).value, Lookup(answer, k).value, 1, rest, Survives))
  {
    if c == Authorization {
      PickTells(fields, k, rest, ForAuthorization, Survives);
    } else if c == RateLimit {
      PickTells(fields, k, rest, ForRateLimit, Survives);
    } else {
      ScrubbedField(fields, k, Survives);
      if Lookup(fields, k).Some? {
        ScrubTells(Lookup(fields, k).value, 1, rest, Survives);
      }
    }
  }

  lemma {:induction false} PickKeepsKeys(fields: seq<Field>, listed: string -> bool, survives: string -> bool)
    ensures var a, b := Keep(fields, listed), Pick(fields, listed, survives);
      |a| == |b| && forall i :: 0 <= i < |a| ==> a[i].key == b[i].key
  {
    if fields != [] {
      PickKeepsKeys(fields[..|fields| - 1], listed, survives);
    }
  }

  lemma KeepIsKeyed(fields: seq<Field>, to: seq<Field>, survives: string -> bool)
    requires |to| == |Keep(fields, survives)|
    requires forall i :: 0 <= i < |to| ==> to[i].key == Keep(fields, survives)[i].key
    ensures KeepsKeys(fields, to, survives)
  {
    var at := KeepPicks(fields, survives);
    SameKeysPicked(fields, Keep(fields, survives), to, survives, at);
  }

  lemma ProjectedKeys(c: Category, fields: seq<Field>)
    requires !Masked(c)
    ensures KeepsKeys(fields, Projected(c, fields), Giving(c))
  {
    if c == Authorization {
      PickKeepsKeys(fields, ForAuthorization, Survives);
      KeepIsKeyed(fields, Projected(c, fields), ForAuthorization);
    } else if c == RateLimit {
      PickKeepsKeys(fields, ForRateLimit, Survives);
      KeepIsKeyed(fields, Projected(c, fields), ForRateLimit);
    } else {
      KeepIsKeyed(fields, Projected(c, fields), Survives);
    }
  }

  /** What an unmasked category makes of the details: the keys it gives, in order, each with what the scrub leaves. */
  ghost predicate IsWhole(c: Category, fields: seq<Field>, whole: seq<Field>) {
    KeepsKeys(fields, whole, Giving(c)) && forall k, rest :: FieldTells(c, fields, whole, k, rest)
  }

  ghost predicate FieldTells(c: Category, fields: seq<Field>, whole: seq<Field>, k: string, rest: Path) {
    && (Lookup(whole, k).Some? <==> Lookup(fields, k).Some? && Given(c, k))
    && (Lookup(whole, k).Some? ==> Tells(Lookup(fields, k).value, Lookup(whole, k).value, 1, rest, Survives))
  }

  /** The mark, with the size where there is one. */
  predicate IsMark(o: Json, size: Option<nat>) {
    && o.Object? && |o.fields| == (if size.Some? then 2 else 1)
    && o.fields[0] == Field("truncated", Bool(true))
    && (size.Some? ==> o.fields[1] == Field("bytes", Number(size.value as real)))
  }

  lemma ProjectedIsWhole(c: Category, fields: seq<Field>)
    requires !Masked(c)
    ensures IsWhole(c, fields, Projected(c, fields))
  {
    var whole := Projected(c, fields);
    ProjectedKeys(c, fields);
    forall k, rest ensures FieldTells(c, fields, whole, k, rest) {
      ProjectedTells(c, fields, k, rest);
    }
  }

  /** Nothing, the whole projection, or the mark. */
  predicate Answers(answer: Option<Json>, whole: seq<Field>, n: Option<nat>) {
    if whole == [] then answer == None
    else if n.Some? && n.value <= 8192 then answer == Some(Object(whole))
    else answer.Some? && IsMark(answer.value, n)
  }

  lemma ProjectAnswers(c: Category, fields: seq<Field>, size: Json -> Option<nat>, whole: seq<Field>)
    requires !Masked(c) && whole == Projected(c, fields)
    ensures Answers(Project(c, Some(fields), size), whole, size(Object(whole)))
  {
  }

  /**
   * Main result on the projection. Unmasked, the caller gets nothing when no key is given, the whole
   * projection when it can be serialised and is at most 8192 characters, and otherwise the mark.
   */
  lemma ProjectionTells(c: Category, fields: seq<Field>, size: Json -> Option<nat>) returns (whole: seq<Field>)
    requires !Masked(c)
    ensures IsWhole(c, fields, whole) && Answers(Project(c, Some(fields), size), whole, size(Object(whole)))
  {
    whole := Projected(c, fields);
    ProjectedIsWhole(c, fields);
    ProjectAnswers(c, fields, size, whole);
  }

  // ── Masked categories ─────────────────────────────────────────────────────

  lemma LookupBoth(a: seq<Field>, b: seq<Field>, k: string)
    requires |b| <= 1
    ensures Lookup(a + b, k) == if |b| == 1 && b[0].key == k then Some(b[0].item) else Lookup(a, k)
  {
    if |b| == 1 {
      LookupSnoc(a, b[0], k);
      assert a + b == a + [b[0]];
    } else {
      assert a + b == a;
    }
  }

  function IfString(v: Option<Json>): Option<Json> { if v.Some? && v.value.String? then v else None }

  function IfNumber(v: Option<Json>): Option<Json> { if v.Some? && v.value.Number? then v else None }

  lemma LookupFour(p: seq<Field>, q: seq<Field>, r: seq<Field>, s: seq<Field>, k: string)
    requires |p| <= 1 && |q| <= 1 && |r| <= 1 && |s| <= 1
    ensures Lookup(p + q + r + s, k) ==
      if |s| == 1 && s[0].key == k then Some(s[0].item)
      else if |r| == 1 && r[0].key == k then Some(r[0].item)
      else if |q| == 1 && q[0].key == k then Some(q[0].item)
      else if |p| == 1 && p[0].key == k then Some(p[0].item) else None
  {
    LookupBoth(p + q + r, s, k);
    LookupBoth(p + q, r, k);
    LookupBoth(p, q, k);
    LookupBoth([], p, k);
    assert [] + p == p;
  }

  /** At most one field, of this name and with this value. */
  predicate HoldsOnly(one: seq<Field>, name: string, v: Option<Json>) {
    |one| == (if v.Some? then 1 else 0) && (v.Some? ==> one[0] == Field(name, v.value))
  }

  lemma OneFieldEach(fields: seq<Field>, name: string)
    ensures HoldsOnly(StringField(fields, name), name, IfString(Lookup(fields, name)))
    ensures HoldsOnly(NumberField(fields, name), name, IfNumber(Lookup(fields, name)))
  {
  }

  lemma FourFields(fields: seq<Field>, a: string, b: string, c: string, d: string, k: string)
    requires a != b && a != c && a != d && b != c && b != d && c != d
    ensures var four :=
        StringField(fields, a) + NumberField(fields, b) + StringField(fields, c) + NumberField(fields, d);
      Lookup(four, k) ==
      if k == a || k == c then IfString(Lookup(fields, k))
      else if k == b || k == d then IfNumber(Lookup(fields, k)) else None
  {
    OneFieldEach(fields, a);
    OneFieldEach(fields, b);
    OneFieldEach(fields, c);
    OneFieldEach(fields, d);
    LookupFour(StringField(fields, a), NumberField(fields, b), StringField(fields, c), NumberField(fields, d), k);
  }

  lemma UpstreamKeysDiffer()
    ensures "platformCode" != "platformStatus" && "platformCode" != "upstreamCode" && "platformCode" != "upstreamStatus"
    ensures "platformStatus" != "upstreamCode" && "platformStatus" != "upstreamStatus"
    ensures "upstreamCode" != "upstreamStatus"
  {
    assert "platformCode"[0] != "upstreamCode"[0] && "platformStatus"[0] != "upstreamStatus"[0];
  }

  /**
   * Masked, the two codes that are strings and the two statuses that are numbers, under their own
   * names, and nothing else.
   */
  lemma MaskedTells(c: Category, fields: seq<Field>, size: Json -> Option<nat>, k: string)
    requires Masked(c)
    ensures var answer := Project(c, Some(fields), size);
      var found := if answer.Some? && answer.value.Object? then Lookup(answer.value.fields, k) else None;
      found ==
        if k == "platformCode" || k == "upstreamCode" then IfString(Lookup(fields, k))
        else if k == "platformStatus" || k == "upstreamStatus" then IfNumber(Lookup(fields, k)) else None
    ensures Project(c, Some(fields), size).Some? ==>
      Project(c, Some(fields), size).value.Object? && Project(c, Some(fields), size).value.fields != []
  {
    UpstreamKeysDiffer();
    FourFields(fields, "platformCode", "platformStatus", "upstreamCode", "upstreamStatus", k);
  }

  /** An unmasked message is the one thrown; a masked one the registered default, or the fallback. */
  lemma MessageTells(c: Category, thrown: string, registered: Option<string>)
    ensures var masked := c == Internal || c == ExternalService;
      && (!masked ==> ProjectMessage(c, thrown, registered) == thrown)
      && (masked && registered.Some? ==> Some(ProjectMessage(c, thrown, registered)) == registered)
      && (masked && registered.None? ==> ProjectMessage(c, thrown, registered) == "Something went wrong")
  {
  }

  // ── Which keys are denied ─────────────────────────────────────────────────

  /** One character of a key, as one of a name: a letter in either case, or a digit. */
  predicate SameLetter(c: char, n: char) {
    c == n || ('A' <= c <= 'Z' && c - 'A' + 'a' == n) || (c == '\U{212A}' && n == 'k') || (c == '\U{130}' && n == 'i')
  }

  predicate IsLetter(c: char) {
    'a' <= c <= 'z' || 'A' <= c <= 'Z' || '0' <= c <= '9' || c == '\U{212A}' || c == '\U{130}'
  }

  /** The letters and digits of `key`, in either case, are those of `name`; what stands between them is free. */
  predicate Spells(key: string, name: string) {
    if key == [] then name == []
    else if !IsLetter(key[0]) then Spells(key[1..], name)
    else name != [] && SameLetter(key[0], name[0]) && Spells(key[1..], name[1..])
  }

  lemma {:induction false} SpellsIff(key: string, name: string)
    requires PlainWord(name)
    ensures NormaliseKey(key) == name <==> Spells(key, name)
  {
    if key != [] {
      var head, rest := NormaliseChar(key[0]), NormaliseKey(key[1..]);
      if !IsLetter(key[0]) {
        SpellsIff(key[1..], name);
        assert head + rest == rest;
      } else {
        assert |head| == 1;
        if name != [] {
          SpellsIff(key[1..], name[1..]);
          assert (head + rest)[0] == head[0] && (head + rest)[1..] == rest;
          assert name == [name[0]] + name[1..];
        }
      }
    }
  }

  /** A key is denied exactly when it spells an internal name, or one of the redacted fields that is plain. */
  lemma DeniedIff(key: string)
    ensures IsDroppedKey(key)
      <==> exists name :: (name in INTERNAL_KEYS || name in SENSITIVE_NAMES) && PlainWord(name) && Spells(key, name)
  {
    var n := NormaliseKey(key);
    forall i | 0 <= i < |n| ensures IsPlain(n[i]) {
      NormalisedIsPlain(key, i);
    }
    SpellsIff(key, n);
    forall name | PlainWord(name) && Spells(key, name) ensures name == n {
      SpellsIff(key, name);
    }
  }
}
