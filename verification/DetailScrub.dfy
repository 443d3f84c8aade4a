/** The recursive scrub of error details (scrubValue in src/core/errors/detail-policy.ts), for any surviving keys. */
module DetailScrub {
  import opened Prelude
  import opened JsonValues

  const MAX_DETAILS_DEPTH: nat := 4

  function Keep(fields: seq<Field>, survives: string -> bool): (r: seq<Field>)
    ensures forall f :: f in r ==> f in fields && survives(f.key)
  {
    if fields == [] then []
    else
      var last := fields[|fields| - 1];
      Keep(fields[..|fields| - 1], survives) + if survives(last.key) then [last] else []
  }

  function Scrub(v: Json, depth: nat, survives: string -> bool): Json
    decreases v
  {
    if !v.Array? && !v.Object? then v
    else if depth >= MAX_DETAILS_DEPTH then String("[TRUNCATED]")
    else if v.Array? then
      Array(seq(|v.items|, i requires 0 <= i < |v.items| => Scrub(v.items[i], depth + 1, survives)))
    else
      var kept := Keep(v.fields, survives);
      Object(seq(|kept|, i requires 0 <= i < |kept| =>
        assert kept[i] in v.fields;
        Field(kept[i].key, Scrub(kept[i].item, depth + 1, survives))))
  }

  predicate ScrubsTo(from: seq<Field>, to: seq<Field>, depth: nat, survives: string -> bool) {
    |to| == |from| && forall j :: 0 <= j < |from| ==> to[j] == Field(from[j].key, Scrub(from[j].item, depth, survives))
  }

  method ScrubValue(value: Json, depth: nat, survives: string -> bool) returns (r: Json)
    ensures r == Scrub(value, depth, survives)
    decreases value, 1
  {
    if !value.Array? && !value.Object? {
      return value;
    }
    if depth >= MAX_DETAILS_DEPTH {
      return String("[TRUNCATED]");
    }
    if value.Array? {
      var items: seq<Json> := [];
      for i := 0 to |value.items|
        invariant |items| == i && forall j :: 0 <= j < i ==> items[j] == Scrub(value.items[j], depth + 1, survives)
      {
        var item := ScrubValue(value.items[i], depth + 1, survives);
        items := items + [item];
      }
      return Array(items);
    }
    var output := ScrubFields(value, depth + 1, survives);
    return Object(output);
  }

  method ScrubFields(value: Json, depth: nat, survives: string -> bool) returns (output: seq<Field>)
    requires value.Object?
    ensures ScrubsTo(Keep(value.fields, survives), output, depth, survives)
    decreases value, 0
  {
    output := [];
    for i := 0 to |value.fields|
      invariant ScrubsTo(Keep(value.fields[..i], survives), output, depth, survives)
    {
      assert value.fields[..i + 1][..i] == value.fields[..i];
      var Field(key, entry) := value.fields[i];
      assert value.fields[i] < value;
      if !survives(key) {
        continue;
      }
      var item := ScrubValue(entry, depth, survives);
      output := output + [Field(key, item)];
    }
    assert value.fields[..|value.fields|] == value.fields;
  }

  function Lookup(fields: seq<Field>, k: string): Option<Json> {
    match FieldAt(fields, k)
    case Some(i) => Some(fields[i].item)
    case None => None
  }

  predicate VisibleStep(step: Step, survives: string -> bool) { step.Key? ==> survives(step.k) }

  /** Names no dropped key. */
  predicate Visible(path: Path, survives: string -> bool) {
    forall i :: 0 <= i < |path| ==> VisibleStep(path[i], survives)
  }

  lemma FieldAtSnoc(before: seq<Field>, last: Field, k: string)
    ensures FieldAt(before + [last], k) == if last.key == k then Some(|before|) else FieldAt(before, k)
  {
    assert (before + [last])[..|before|] == before;
  }

  lemma {:induction false} KeepLooksUp(fields: seq<Field>, k: string, survives: string -> bool)
    ensures Lookup(Keep(fields, survives), k) == if survives(k) then Lookup(fields, k) else None
  {
    if fields != [] {
      var before, last := fields[..|fields| - 1], fields[|fields| - 1];
      KeepLooksUp(before, k, survives);
      assert fields == before + [last];
      FieldAtSnoc(before, last, k);
      if survives(last.key) {
        FieldAtSnoc(Keep(before, survives), last, k);
      } else {
        assert Keep(fields, survives) == Keep(before, survives);
      }
    }
  }

  lemma {:induction false} SameKeysSamePlace(a: seq<Field>, b: seq<Field>, k: string)
    requires |a| == |b| && forall i :: 0 <= i < |a| ==> a[i].key == b[i].key
    ensures FieldAt(a, k) == FieldAt(b, k)
  {
    if a != [] {
      SameKeysSamePlace(a[..|a| - 1], b[..|b| - 1], k);
    }
  }

  /** One step into a scrubbed container leads to the scrubbed child, unless the key is dropped. */
  lemma ScrubStep(v: Json, depth: nat, step: Step, survives: string -> bool)
    requires (v.Array? || v.Object?) && depth < MAX_DETAILS_DEPTH
    ensures var there, here := Position(v, step), Position(Scrub(v, depth, survives), step);
      && (here.Some? <==> there.Some? && VisibleStep(step, survives))
      && (here.Some? ==>
            Child(Scrub(v, depth, survives), here.value) == Scrub(Child(v, there.value), depth + 1, survives))
  {
    if v.Object? && step.Key? {
      KeepLooksUp(v.fields, step.k, survives);
      SameKeysSamePlace(Keep(v.fields, survives), Scrub(v, depth, survives).fields, step.k);
    }
  }

  lemma ScrubLeaf(v: Json, depth: nat, step: Step, survives: string -> bool)
    requires !(v.Array? || v.Object?) || depth >= MAX_DETAILS_DEPTH
    ensures Position(Scrub(v, depth, survives), step).None?
    ensures !(v.Array? || v.Object?) ==> Position(v, step).None?
  {
  }

  lemma VisibleSplits(path: Path, survives: string -> bool)
    requires path != []
    ensures Visible(path, survives) <==> VisibleStep(path[0], survives) && Visible(path[1..], survives)
  {
    if VisibleStep(path[0], survives) && Visible(path[1..], survives) {
      forall i | 0 <= i < |path| ensures VisibleStep(path[i], survives) {
        if i > 0 { assert path[i] == path[1..][i - 1]; }
      }
    }
  }

  /** What should be found at a path: the scrubbed original, if the path is visible and not too deep. */
  function Expected(v: Json, depth: nat, path: Path, survives: string -> bool): Option<Json> {
    if Follow(v, path).Some? && Visible(path, survives) && depth + |path| <= MAX_DETAILS_DEPTH
    then Some(Scrub(Follow(v, path).value, depth + |path|, survives)) else None
  }

  lemma ExpectedBelow(v: Json, depth: nat, path: Path, survives: string -> bool)
    requires path != []
    ensures Expected(v, depth, path, survives) ==
      match Position(v, path[0])
      case None => None
      case Some(i) =>
        if VisibleStep(path[0], survives) then Expected(Child(v, i), depth + 1, path[1..], survives) else None
  {
    VisibleSplits(path, survives);
  }

  lemma ExactInContainer(v: Json, depth: nat, path: Path, survives: string -> bool)
    requires path != [] && (v.Array? || v.Object?) && depth < MAX_DETAILS_DEPTH
    requires Position(v, path[0]).Some? ==>
      var child := Child(v, Position(v, path[0]).value);
      Follow(Scrub(child, depth + 1, survives), path[1..]) == Expected(child, depth + 1, path[1..], survives)
    ensures Follow(Scrub(v, depth, survives), path) == Expected(v, depth, path, survives)
  {
    ExpectedBelow(v, depth, path, survives);
    ScrubStep(v, depth, path[0], survives);
  }

  lemma ExactAtLeaf(v: Json, depth: nat, path: Path, survives: string -> bool)
    requires path != [] && depth <= MAX_DETAILS_DEPTH && (!(v.Array? || v.Object?) || depth == MAX_DETAILS_DEPTH)
    ensures Follow(Scrub(v, depth, survives), path) == Expected(v, depth, path, survives)
  {
    ExpectedBelow(v, depth, path, survives);
    ScrubLeaf(v, depth, path[0], survives);
  }

  /**
   * A path leads somewhere in the scrubbed value exactly when it does in the original, names no dropped
   * key and is at most as long as the levels left; and there it finds the scrubbed original.
   */
  lemma {:induction false} ScrubIsExact(v: Json, depth: nat, path: Path, survives: string -> bool)
    requires depth <= MAX_DETAILS_DEPTH
    ensures Follow(Scrub(v, depth, survives), path) == Expected(v, depth, path, survives)
    decreases |path|
  {
    if path != [] {
      if (v.Array? || v.Object?) && depth < MAX_DETAILS_DEPTH {
        var i := Position(v, path[0]);
        if i.Some? {
          ScrubIsExact(Child(v, i.value), depth + 1, path[1..], survives);
        }
        ExactInContainer(v, depth, path, survives);
      } else {
        ExactAtLeaf(v, depth, path, survives);
      }
    }
  }

  predicate Settled(v: Json, depth: nat, survives: string -> bool) { Scrub(v, depth, survives) == v }

  lemma SettledArray(items: seq<Json>, depth: nat, survives: string -> bool)
    requires forall i :: 0 <= i < |items| ==> Settled(items[i], depth + 1, survives)
    requires depth < MAX_DETAILS_DEPTH
    ensures Settled(Array(items), depth, survives)
  {
    var once := Scrub(Array(items), depth, survives);
    assert once.items == items;
  }

  lemma SettledObject(fields: seq<Field>, depth: nat, survives: string -> bool)
    requires forall i :: 0 <= i < |fields| ==> survives(fields[i].key) && Settled(fields[i].item, depth + 1, survives)
    requires depth < MAX_DETAILS_DEPTH
    ensures Settled(Object(fields), depth, survives)
  {
    KeepAll(fields, survives);
    var once := Scrub(Object(fields), depth, survives);
    assert once.fields == fields;
  }

  /** Scrubbing again changes nothing. */
  lemma {:induction false} ScrubIsIdempotent(v: Json, depth: nat, survives: string -> bool)
    ensures Settled(Scrub(v, depth, survives), depth, survives)
    decreases v
  {
    var once := Scrub(v, depth, survives);
    if depth >= MAX_DETAILS_DEPTH {
    } else if v.Array? {
      forall i | 0 <= i < |v.items| ensures Settled(once.items[i], depth + 1, survives) {
        ScrubIsIdempotent(v.items[i], depth + 1, survives);
      }
      SettledArray(once.items, depth, survives);
    } else if v.Object? {
      forall i | 0 <= i < |once.fields|
        ensures survives(once.fields[i].key) && Settled(once.fields[i].item, depth + 1, survives)
      {
        assert Keep(v.fields, survives)[i] in v.fields;
        ScrubIsIdempotent(Keep(v.fields, survives)[i].item, depth + 1, survives);
      }
      SettledObject(once.fields, depth, survives);
    }
  }

  lemma {:induction false} KeepAll(fields: seq<Field>, survives: string -> bool)
    requires forall i :: 0 <= i < |fields| ==> survives(fields[i].key)
    ensures Keep(fields, survives) == fields
  {
    if fields != [] {
      var before, last := fields[..|fields| - 1], fields[|fields| - 1];
      KeepAll(before, survives);
      assert fields == before + [last];
    }
  }

  // ── Picking listed keys ───────────────────────────────────────────────────

  function Pick(fields: seq<Field>, listed: string -> bool, survives: string -> bool): seq<Field> {
    if fields == [] then []
    else
      var last := fields[|fields| - 1];
      Pick(fields[..|fields| - 1], listed, survives)
      + if listed(last.key) then [Field(last.key, Scrub(last.item, 1, survives))] else []
  }

  method PickKeys(fields: seq<Field>, listed: string -> bool, survives: string -> bool) returns (output: seq<Field>)
    ensures output == Pick(fields, listed, survives)
  {
    output := [];
    for i := 0 to |fields|
      invariant output == Pick(fields[..i], listed, survives)
    {
      assert fields[..i + 1][..i] == fields[..i];
      if !listed(fields[i].key) {
        continue;
      }
      var item := ScrubValue(fields[i].item, 1, survives);
      output := output + [Field(fields[i].key, item)];
    }
    assert fields[..|fields|] == fields;
  }

  lemma {:induction false} PickedIsScrubbed(
    fields: seq<Field>, listed: string -> bool, survives: string -> bool, i: nat)
    returns (item: Json)
    requires i < |Pick(fields, listed, survives)|
    ensures var f := Pick(fields, listed, survives)[i];
      listed(f.key) && f == Field(f.key, Scrub(item, 1, survives)) && Field(f.key, item) in fields
  {
    var before, last := fields[..|fields| - 1], fields[|fields| - 1];
    assert fields == before + [last];
    if i < |Pick(before, listed, survives)| {
      item := PickedIsScrubbed(before, listed, survives, i);
    } else {
      item := last.item;
    }
  }

  /** No path of the value names a dropped key or is longer than four steps. */
  ghost predicate Presentable(o: Json, survives: string -> bool) {
    forall p :: Follow(o, p).Some? ==> Visible(p, survives) && |p| <= MAX_DETAILS_DEPTH
  }

  lemma ScrubIsPresentable(v: Json, survives: string -> bool)
    ensures Presentable(Scrub(v, 0, survives), survives)
  {
    forall p | Follow(Scrub(v, 0, survives), p).Some? ensures Visible(p, survives) && |p| <= MAX_DETAILS_DEPTH {
      ScrubIsExact(v, 0, p, survives);
    }
  }

  lemma PickedPath(fields: seq<Field>, listed: string -> bool, survives: string -> bool, p: Path)
    requires p != [] && Follow(Object(Pick(fields, listed, survives)), p).Some?
    requires forall k :: listed(k) ==> survives(k)
    ensures Visible(p, survives) && |p| <= MAX_DETAILS_DEPTH
  {
    var o := Object(Pick(fields, listed, survives));
    var i := Position(o, p[0]).value;
    var item := PickedIsScrubbed(fields, listed, survives, i);
    ScrubIsExact(item, 1, p[1..], survives);
    VisibleSplits(p, survives);
  }

  lemma PickIsPresentable(fields: seq<Field>, listed: string -> bool, survives: string -> bool)
    requires forall k :: listed(k) ==> survives(k)
    ensures Presentable(Object(Pick(fields, listed, survives)), survives)
  {
    var o := Object(Pick(fields, listed, survives));
    forall p | Follow(o, p).Some? ensures Visible(p, survives) && |p| <= MAX_DETAILS_DEPTH {
      if p != [] {
        PickedPath(fields, listed, survives, p);
      }
    }
  }
}
