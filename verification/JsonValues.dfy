/** JSON values and the paths into them. */
module JsonValues {
  import opened Prelude

  /** `fields` is what `Object.entries` lists. */
  datatype Json =
    | Null
    | Bool(b: bool)
    | Number(n: real)
    | String(s: string)
    | Array(items: seq<Json>)
    | Object(fields: seq<Field>)

  datatype Field = Field(key: string, item: Json)

  datatype Step = Index(i: nat) | Key(k: string)

  type Path = seq<Step>

  function Arity(v: Json): nat {
    if v.Array? then |v.items| else if v.Object? then |v.fields| else 0
  }

  function Child(v: Json, i: nat): (c: Json)
    requires i < Arity(v)
    ensures c < v
  {
    if v.Array? then v.items[i] else assert v.fields[i] < v; v.fields[i].item
  }

  function StepTo(v: Json, i: nat): Step
    requires i < Arity(v)
  {
    if v.Array? then Index(i) else Key(v.fields[i].key)
  }

  /** Object keys are distinct at every level, as in every parsed body. */
  ghost predicate WellFormed(v: Json)
    decreases v
  {
    && (v.Object? ==> forall i, j :: 0 <= i < j < |v.fields| ==> v.fields[i].key != v.fields[j].key)
    && forall i :: 0 <= i < Arity(v) ==> WellFormed(Child(v, i))
  }

  function FieldAt(fields: seq<Field>, k: string): (r: Option<nat>)
    ensures r.Some? ==> r.value < |fields| && fields[r.value].key == k
    ensures r.None? ==> forall i :: 0 <= i < |fields| ==> fields[i].key != k
  {
    if fields == [] then None
    else if fields[|fields| - 1].key == k then Some(|fields| - 1)
    else FieldAt(fields[..|fields| - 1], k)
  }

  /** Which child a step names. */
  function Position(v: Json, step: Step): (r: Option<nat>)
    ensures r.Some? ==> r.value < Arity(v) && StepTo(v, r.value) == step
  {
    match step
    case Index(i) => if v.Array? && i < |v.items| then Some(i) else None
    case Key(k) => if v.Object? then FieldAt(v.fields, k) else None
  }

  /** The value a path reaches. */
  function Follow(v: Json, path: Path): Option<Json>
    decreases |path|
  {
    if path == [] then Some(v)
    else
      match Position(v, path[0])
      case None => None
      case Some(i) => Follow(Child(v, i), path[1..])
  }

  lemma PositionOfStep(v: Json, i: nat)
    requires WellFormed(v) && i < Arity(v)
    ensures Position(v, StepTo(v, i)) == Some(i)
  {
    if v.Object? {
      var r := FieldAt(v.fields, v.fields[i].key);
      assert v.fields[r.value].key == v.fields[i].key;
    }
  }
}
