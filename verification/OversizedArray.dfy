/** The body guard that runs before schema validation (src/core/validation/validate.ts). */
module OversizedArray {
  import opened Prelude
  import opened JsonValues

  predicate Oversized(v: Json, max: nat) { v.Array? && |v.items| > max }

  // ── The recursive definition ──────────────────────────────────────────────

  /** The first oversized array, parents before children and later children first. */
  function First(v: Json, max: nat): Option<Path>
    decreases v, Arity(v) + 1
  {
    if Oversized(v, max) then Some([]) else FirstBelow(v, Arity(v), max)
  }

  function FirstBelow(v: Json, n: nat, max: nat): Option<Path>
    requires n <= Arity(v)
    decreases v, n
  {
    if n == 0 then None
    else
      match First(Child(v, n - 1), max)
      case Some(p) => Some([StepTo(v, n - 1)] + p)
      case None => FirstBelow(v, n - 1, max)
  }

  // ── The explicit stack ────────────────────────────────────────────────────

  datatype Frame = Frame(node: Json, path: Path)

  function FirstOn(stack: seq<Frame>, max: nat): Option<Path> {
    if stack == [] then None
    else
      var top := stack[|stack| - 1];
      match First(top.node, max)
      case Some(p) => Some(top.path + p)
      case None => FirstOn(stack[..|stack| - 1], max)
  }

  function Children(v: Json, path: Path, n: nat): seq<Frame>
    requires n <= Arity(v)
  {
    seq(n, i requires 0 <= i < n => Frame(Child(v, i), path + [StepTo(v, i)]))
  }

  ghost function Size(v: Json): nat
    decreases v, Arity(v) + 1
  {
    1 + SizeBelow(v, Arity(v))
  }

  ghost function SizeBelow(v: Json, n: nat): nat
    requires n <= Arity(v)
    decreases v, n
  {
    if n == 0 then 0 else SizeBelow(v, n - 1) + Size(Child(v, n - 1))
  }

  ghost function StackSize(stack: seq<Frame>): nat {
    if stack == [] then 0 else StackSize(stack[..|stack| - 1]) + Size(stack[|stack| - 1].node)
  }

  /** Pushing the children of a node searches them last to first, then the rest of the stack. */
  lemma {:induction false} PushChildren(rest: seq<Frame>, v: Json, path: Path, n: nat, max: nat)
    requires n <= Arity(v)
    ensures FirstOn(rest + Children(v, path, n), max) ==
      match FirstBelow(v, n, max)
      case Some(p) => Some(path + p)
      case None => FirstOn(rest, max)
    ensures StackSize(rest + Children(v, path, n)) == StackSize(rest) + SizeBelow(v, n)
  {
    var stack := rest + Children(v, path, n);
    if n == 0 {
      assert stack == rest;
    } else {
      PushChildren(rest, v, path, n - 1, max);
      assert stack[..|stack| - 1] == rest + Children(v, path, n - 1);
      var below := First(Child(v, n - 1), max);
      if below.Some? {
        assert path + [StepTo(v, n - 1)] + below.value == path + ([StepTo(v, n - 1)] + below.value);
      }
    }
  }

  method FindOversizedArray(value: Json, max: nat) returns (found: Option<Path>)
    ensures found == First(value, max)
  {
    var stack := [Frame(value, [])];
    assert FirstOn(stack, max) == First(value, max) by {
      assert stack[..0] == [];
      if First(value, max).Some? { assert [] + First(value, max).value == First(value, max).value; }
    }
    while |stack| > 0
      invariant FirstOn(stack, max) == First(value, max)
      decreases StackSize(stack)
    {
      var node, path := stack[|stack| - 1].node, stack[|stack| - 1].path;
      ghost var rest := stack[..|stack| - 1];
      ghost var before := FirstOn(stack, max);
      assert before == match First(node, max) case Some(p) => Some(path + p) case None => FirstOn(rest, max);
      stack := stack[..|stack| - 1];
      if !node.Array? && !node.Object? {
        assert FirstBelow(node, Arity(node), max) == None;
        continue;
      }
      if node.Array? {
        if |node.items| > max {
          assert path + [] == path;
          return Some(path);
        }
        for index := 0 to |node.items|
          invariant stack == rest + Children(node, path, index)
        {
          stack := stack + [Frame(node.items[index], path + [Index(index)])];
        }
      } else {
        for entry := 0 to |node.fields|
          invariant stack == rest + Children(node, path, entry)
        {
          stack := stack + [Frame(node.fields[entry].item, path + [Key(node.fields[entry].key)])];
        }
      }
      PushChildren(rest, node, path, Arity(node), max);
    }
    return None;
  }

  // ── What the first one is ─────────────────────────────────────────────────

  predicate Reaches(v: Json, path: Path, max: nat) {
    Follow(v, path).Some? && Oversized(Follow(v, path).value, max)
  }

  /** Right-to-left preorder on paths of one value: an ancestor first, else the later child first. */
  predicate Precedes(v: Json, p: Path, q: Path)
    decreases |p|
  {
    if p == [] then q != []
    else if q == [] then false
    else
      match (Position(v, p[0]), Position(v, q[0]))
      case (Some(i), Some(j)) => i > j || (i == j && Precedes(Child(v, i), p[1..], q[1..]))
      case _ => false
  }

  ghost predicate IsFirst(v: Json, found: Option<Path>, max: nat) {
    match found
    case None => forall q :: !Reaches(v, q, max)
    case Some(p) => Reaches(v, p, max) && forall q :: Reaches(v, q, max) ==> q == p || Precedes(v, p, q)
  }

  predicate EntersBelow(v: Json, q: Path, n: nat)
    requires q != []
  {
    Position(v, q[0]).Some? && Position(v, q[0]).value < n
  }

  /** The same among the paths into the first `n` children. */
  ghost predicate IsFirstBelow(v: Json, n: nat, found: Option<Path>, max: nat) {
    match found
    case None => forall q :: q != [] && EntersBelow(v, q, n) ==> !Reaches(v, q, max)
    case Some(p) =>
      && p != [] && EntersBelow(v, p, n) && Reaches(v, p, max)
      && forall q :: q != [] && EntersBelow(v, q, n) && Reaches(v, q, max) ==> q == p || Precedes(v, p, q)
  }

  lemma IntoLastChild(v: Json, q: Path, n: nat, max: nat)
    requires 0 < n <= Arity(v) && q != [] && EntersBelow(v, q, n) && !EntersBelow(v, q, n - 1)
    ensures Position(v, q[0]) == Some(n - 1) && q == [StepTo(v, n - 1)] + q[1..]
    ensures Reaches(v, q, max) <==> Reaches(Child(v, n - 1), q[1..], max)
  {
  }

  lemma FoundInLastChild(v: Json, n: nat, p: Path, max: nat)
    requires WellFormed(v) && 0 < n <= Arity(v) && IsFirst(Child(v, n - 1), Some(p), max)
    ensures IsFirstBelow(v, n, Some([StepTo(v, n - 1)] + p), max)
  {
    var c, found := Child(v, n - 1), [StepTo(v, n - 1)] + p;
    PositionOfStep(v, n - 1);
    assert found[1..] == p;
    forall q | q != [] && EntersBelow(v, q, n) && Reaches(v, q, max) ensures q == found || Precedes(v, found, q) {
      if !EntersBelow(v, q, n - 1) {
        IntoLastChild(v, q, n, max);
      }
    }
  }

  lemma NotInLastChild(v: Json, n: nat, found: Option<Path>, max: nat)
    requires 0 < n <= Arity(v) && IsFirst(Child(v, n - 1), None, max) && IsFirstBelow(v, n - 1, found, max)
    ensures IsFirstBelow(v, n, found, max)
  {
    forall q | q != [] && EntersBelow(v, q, n) && !EntersBelow(v, q, n - 1) ensures !Reaches(v, q, max) {
      IntoLastChild(v, q, n, max);
    }
  }

  /**
   * The guard finds nothing exactly when no array at any depth is too long, and otherwise the
   * path it returns reaches one that comes before every other in right-to-left preorder.
   */
  lemma {:induction false} FirstIsFirst(v: Json, max: nat)
    requires WellFormed(v)
    ensures IsFirst(v, First(v, max), max)
    decreases v, Arity(v) + 1
  {
    if Oversized(v, max) {
    } else {
      FirstBelowIsFirst(v, Arity(v), max);
      forall q | Reaches(v, q, max) ensures q != [] && Position(v, q[0]).Some? {
      }
    }
  }

  lemma {:induction false} FirstBelowIsFirst(v: Json, n: nat, max: nat)
    requires WellFormed(v) && n <= Arity(v)
    ensures IsFirstBelow(v, n, FirstBelow(v, n, max), max)
    decreases v, n
  {
    if n > 0 {
      FirstIsFirst(Child(v, n - 1), max);
      var below := First(Child(v, n - 1), max);
      if below.Some? {
        FoundInLastChild(v, n, below.value, max);
      } else {
        FirstBelowIsFirst(v, n - 1, max);
        NotInLastChild(v, n, FirstBelow(v, n - 1, max), max);
      }
    }
  }
}
