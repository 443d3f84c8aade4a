/**
 * Route registration and the boot assertion (src/api/route-manifest.ts).
 *
 * A route key is the pair of an upper-case method and a full path.
 */
module RouteManifest {
  import opened Prelude
  import opened AuthMachine

  datatype Key = Key(verb: string, path: string)

  datatype Access =
    | Public
    | SelfService
    | MfaEnrolment
    | ServiceToken
    | Permission(permissions: seq<string>, all: bool)

  const PUBLIC_ROUTES: seq<Key> := [
    Key("POST", "/api/v1/auth/login"),
    Key("POST", "/api/v1/auth/mfa/verify"),
    Key("POST", "/api/v1/auth/refresh")]

  const SERVICE_ROUTES: seq<Key> := [Key("POST", "/api/internal/automation/failures")]

  const ONBOARDING_ROUTES: seq<Key> := [
    Key("GET", "/api/v1/auth/sessions"),
    Key("POST", "/api/v1/auth/logout-all"),
    Key("POST", "/api/v1/auth/password"),
    Key("DELETE", "/api/v1/auth/sessions/:sessionId"),
    Key("GET", "/api/v1/administrators/me"),
    Key("PATCH", "/api/v1/administrators/me"),
    Key("GET", "/api/v1/administrators/me/activity"),
    Key("GET", "/api/v1/employees/me"),
    Key("PATCH", "/api/v1/employees/me"),
    Key("PUT", "/api/v1/employees/me/avatar"),
    Key("POST", "/api/v1/employees/me/documents/:slot"),
    Key("DELETE", "/api/v1/employees/me/documents/:slot/:fileId"),
    Key("GET", "/api/v1/geo/search"),
    Key("GET", "/api/v1/geo/reverse"),
    Key("GET", "/api/v1/permissions/me")]

  predicate IsInternal(path: string) { "/api/internal" <= path }

  predicate InScope(path: string) { "/api/v1" <= path || IsInternal(path) }

  // ── Declaring a route ─────────────────────────────────────────────────────

  /** One middleware of a chain; `Before(i)` are the route's own, rate limiters in practice. */
  datatype Guard =
    | AuditProbe
    | Before(i: nat)
    | RequireAdmin(gate: Gate)
    | RequireServiceToken
    | RequirePermissions(permissions: seq<string>, all: bool)
    | RequireCsrfToken
    | Validate

  datatype Declaration = Declaration(key: Key, access: Access)

  datatype Definition = Definition(
    verb: string, prefix: string, mountedAt: string, path: string, access: Access,
    audited: bool, before: nat, validated: bool)

  function JoinPath(prefix: string, mountedAt: string, path: string): string {
    if path == "/" then prefix + mountedAt else prefix + mountedAt + path
  }

  function KeyOf(d: Definition): Key { Key(d.verb, JoinPath(d.prefix, d.mountedAt, d.path)) }

  function DeclarationOf(d: Definition): Declaration { Declaration(KeyOf(d), d.access) }

  function GateFor(access: Access, key: Key): seq<Guard> {
    match access
    case Public => []
    case SelfService => [RequireAdmin(Gate(false, key in ONBOARDING_ROUTES))]
    case MfaEnrolment => [RequireAdmin(Gate(true, true))]
    case ServiceToken => [RequireServiceToken]
    case Permission(names, all) => [RequireAdmin(Gate(false, false)), RequirePermissions(names, all)]
  }

  function Opening(d: Definition): seq<Guard> {
    (if d.audited then [AuditProbe] else []) + seq(d.before, i requires 0 <= i < d.before => Before(i))
  }

  function Closing(d: Definition): seq<Guard> { [RequireCsrfToken] + if d.validated then [Validate] else [] }

  /** auditProbe, before, gate, CSRF, validation; the handler follows. */
  function ChainFor(d: Definition): seq<Guard> { Opening(d) + GateFor(d.access, KeyOf(d)) + Closing(d) }

  /**
   * One entry of an Express stack. A route's path is absent when it is not a string; a mounted
   * router has the prefix it answers at, and the source of the pattern compiled from it.
   */
  datatype Layer =
    | Route(path: Option<string>, methods: seq<(string, bool)>, handler: Handler)
    | Mounted(at: string, source: string, stack: seq<Layer>)
    | Middleware

  /** The guards before a handler, and the definition when `defineRoute` built the chain. */
  datatype Handler = Handler(guards: seq<Guard>, definition: Option<Definition>)

  function LayerOf(d: Definition): Layer {
    Route(Some(d.path), [(d.verb, true)], Handler(ChainFor(d), Some(d)))
  }

  /** Where a guard stands in a chain. */
  function Place(g: Guard): nat {
    match g
    case AuditProbe => 0
    case Before(_) => 1
    case RequireAdmin(_) => 2
    case RequireServiceToken => 2
    case RequirePermissions(_, _) => 3
    case RequireCsrfToken => 4
    case Validate => 5
  }

  lemma OpeningInOrder(d: Definition, i: nat, j: nat)
    requires i < j < |Opening(d)|
    ensures Place(Opening(d)[i]) <= Place(Opening(d)[j]) <= 1
    ensures Opening(d)[j].Before? && (Opening(d)[i].Before? ==> Opening(d)[i].i < Opening(d)[j].i)
  {
  }

  /**
   * The probe comes before everything, so a refusal is recorded; then the route's own guards in their
   * order, the gate, CSRF and validation. The probe and validation are there exactly when asked for.
   */
  lemma ChainInOrder(d: Definition, i: nat, j: nat)
    requires i < j < |ChainFor(d)|
    ensures Place(ChainFor(d)[i]) <= Place(ChainFor(d)[j])
    ensures ChainFor(d)[i].Before? && ChainFor(d)[j].Before? ==> ChainFor(d)[i].i < ChainFor(d)[j].i
  {
    var n := |Opening(d)|;
    if j < n {
      OpeningInOrder(d, i, j);
    }
  }

  lemma ChainHolds(d: Definition)
    ensures AuditProbe in ChainFor(d) <==> d.audited
    ensures Validate in ChainFor(d) <==> d.validated
    ensures RequireCsrfToken in ChainFor(d) && forall k: nat :: Before(k) in ChainFor(d) <==> k < d.before
  {
    var o, g, c := Opening(d), GateFor(d.access, KeyOf(d)), Closing(d);
    assert forall x :: x in ChainFor(d) <==> x in o || x in g || x in c;
    if d.audited { assert o[0] == AuditProbe; }
    if d.validated { assert c[1] == Validate; }
    assert c[0] == RequireCsrfToken;
    forall k: nat | k < d.before ensures Before(k) in o {
      assert o[if d.audited then k + 1 else k] == Before(k);
    }
  }

  predicate Undeclarable(d: Definition) { d.access.Permission? && d.access.permissions == [] }

  class Router {
    var stack: seq<Layer>

    constructor ()
      ensures stack == []
    {
      stack := [];
    }
  }

  class Registry {
    var manifest: seq<Declaration>

    constructor ()
      ensures manifest == []
    {
      manifest := [];
    }

    method DefineRoute(router: Router, d: Definition) returns (ok: bool)
      modifies this, router
      ensures ok == !Undeclarable(d)
      ensures router.stack == if ok then old(router.stack) + [LayerOf(d)] else old(router.stack)
      ensures manifest == if ok then old(manifest) + [DeclarationOf(d)] else old(manifest)
    {
      var fullPath := JoinPath(d.prefix, d.mountedAt, d.path);
      var key := Key(d.verb, fullPath);
      if d.access.Permission? && |d.access.permissions| == 0 {
        return false;
      }
      var chain: seq<Guard> := if d.audited then [AuditProbe] else [];
      chain := chain + seq(d.before, i requires 0 <= i < d.before => Before(i));
      chain := chain + GateFor(d.access, key);
      chain := chain + ([RequireCsrfToken] + if d.validated then [Validate] else []);
      router.stack := router.stack + [Route(Some(d.path), [(d.verb, true)], Handler(chain, Some(d)))];
      manifest := manifest + [Declaration(key, d.access)];
      ok := true;
    }
  }

  // ── Mount prefixes ────────────────────────────────────────────────────────

  /** `^\/`, and `\/?(?=\/|$)`: what surrounds a compiled prefix. */
  const PATTERN_HEAD := "^\\/"

  const PATTERN_TAIL := "\\/?(?=\\/|$)"

  predicate IsBreak(c: char) { c == '\n' || c == '\r' || c == '\U{2028}' || c == '\U{2029}' }

  /** A backslash goes and the character after it stays. */
  function Unescape(s: string): string {
    if s == [] then []
    else if |s| >= 2 && s[0] == '\\' then [s[1]] + Unescape(s[2..])
    else [s[0]] + Unescape(s[1..])
  }

  /** What stands between `head` and `tail`, if anything does. */
  function Inside(source: string, head: string, tail: string): string {
    var h, t := |head|, |tail|;
    if |source| <= h + t || source[..h] != head || source[|source| - t..] != tail then ""
    else source[h..|source| - t]
  }

  function Recovered(source: string, head: string, tail: string): string {
    var path := Inside(source, head, tail);
    if source == "^" + tail || path == "" || exists i :: 0 <= i < |path| && IsBreak(path[i]) then ""
    else "/" + Unescape(path)
  }

  /** The prefix of a compiled pattern; nothing for the root pattern or one of another shape. */
  function MountPathOf(source: string): string { Recovered(source, PATTERN_HEAD, PATTERN_TAIL) }

  /** A literal prefix in pattern form: a backslash before each slash and dot. */
  function Escaped(s: string): string {
    if s == [] then [] else (if s[0] == '/' || s[0] == '.' then ['\\', s[0]] else [s[0]]) + Escaped(s[1..])
  }

  lemma {:induction false} UnescapeEscaped(s: string)
    requires forall i :: 0 <= i < |s| ==> s[i] != '\\' && !IsBreak(s[i])
    ensures Unescape(Escaped(s)) == s
    ensures forall i :: 0 <= i < |Escaped(s)| ==> !IsBreak(Escaped(s)[i])
    ensures |s| <= |Escaped(s)|
  {
    if s != [] {
      UnescapeEscaped(s[1..]);
      var e, rest := Escaped(s), Escaped(s[1..]);
      assert s == [s[0]] + s[1..];
      if s[0] == '/' || s[0] == '.' {
        assert e[2..] == rest;
      } else {
        assert e[1..] == rest;
      }
    }
  }

  lemma InsideIs(head: string, path: string, tail: string)
    requires path != ""
    ensures Inside(head + path + tail, head, tail) == path
  {
    var source := head + path + tail;
    assert source[..|head|] == head && source[|source| - |tail|..] == tail;
    assert source[|head|..|source| - |tail|] == path;
  }

  lemma RecoveredIs(head: string, q: string, tail: string)
    requires |head| > 1
    requires q != [] && forall i :: 0 <= i < |q| ==> q[i] != '\\' && !IsBreak(q[i])
    ensures Recovered(head + Escaped(q) + tail, head, tail) == "/" + q
  {
    UnescapeEscaped(q);
    InsideIs(head, Escaped(q), tail);
    assert |head + Escaped(q) + tail| > |"^" + tail|;
  }

  /** Every literal mount prefix is recovered from its pattern. */
  lemma LiteralPrefixIsRecovered(q: string)
    requires q != [] && forall i :: 0 <= i < |q| ==> q[i] != '\\' && !IsBreak(q[i])
    ensures MountPathOf(PATTERN_HEAD + Escaped(q) + PATTERN_TAIL) == "/" + q
  {
    RecoveredIs(PATTERN_HEAD, q, PATTERN_TAIL);
  }

  // ── What Express registered ───────────────────────────────────────────────

  datatype Registered = Registered(key: Key, handler: Handler)

  function RoutePath(prefix: string, path: string): string {
    var full := if path == "/" then prefix else prefix + path;
    if full == "" then "/" else full
  }

  function Enabled(methods: seq<(string, bool)>, path: string, h: Handler): seq<Registered> {
    if methods == [] then []
    else
      var (name, enabled) := methods[|methods| - 1];
      Enabled(methods[..|methods| - 1], path, h) + if enabled then [Registered(Key(name, path), h)] else []
  }

  /** What the walk finds: string paths, under the prefixes it recovers. */
  function Walk(layers: seq<Layer>, prefix: string): seq<Registered> {
    if layers == [] then []
    else Walk(layers[..|layers| - 1], prefix) + WalkLayer(layers[|layers| - 1], prefix)
  }

  function WalkLayer(l: Layer, prefix: string): seq<Registered> {
    match l
    case Route(Some(path), methods, h) => Enabled(methods, RoutePath(prefix, path), h)
    case Route(None, _, _) => []
    case Mounted(_, source, stack) => Walk(stack, prefix + MountPathOf(source))
    case Middleware => []
  }

  function Keys(rs: seq<Registered>): seq<Key> { seq(|rs|, i requires 0 <= i < |rs| => rs[i].key) }

  method CollectMethods(methods: seq<(string, bool)>, path: string, ghost h: Handler) returns (found: seq<Key>)
    ensures found == Keys(Enabled(methods, path, h))
  {
    found := [];
    for i := 0 to |methods|
      invariant found == Keys(Enabled(methods[..i], path, h))
    {
      assert methods[..i + 1][..i] == methods[..i];
      if !methods[i].1 {
        continue;
      }
      found := found + [Key(methods[i].0, path)];
    }
    assert methods[..|methods|] == methods;
  }

  method CollectLayer(l: Layer, prefix: string) returns (found: seq<Key>)
    ensures found == Keys(WalkLayer(l, prefix))
    decreases l
  {
    match l {
      case Route(Some(p), methods, h) => found := CollectMethods(methods, RoutePath(prefix, p), h);
      case Mounted(_, source, stack) => found := CollectRegisteredRoutes(stack, prefix + MountPathOf(source));
      case _ => found := [];
    }
  }

  method CollectRegisteredRoutes(layers: seq<Layer>, prefix: string) returns (found: seq<Key>)
    ensures found == Keys(Walk(layers, prefix))
    decreases layers
  {
    found := [];
    for i := 0 to |layers|
      invariant found == Keys(Walk(layers[..i], prefix))
    {
      assert layers[..i + 1][..i] == layers[..i];
      assert layers[i] in layers;
      var more := CollectLayer(layers[i], prefix);
      found := found + more;
    }
    assert layers[..|layers|] == layers;
  }

  // ── The boot assertion ────────────────────────────────────────────────────

  datatype Problem =
    | DeclaredTwice(key: Key)
    | PublicNotListed(key: Key)
    | ServiceNotListed(key: Key)
    | InternalNotService(key: Key)
    | OnboardingUndeclared(key: Key)
    | OnboardingNotSelf(key: Key)
    | NoAccessRule(key: Key)

  function Declared(manifest: seq<Declaration>): map<Key, Declaration> {
    if manifest == [] then map[]
    else Declared(manifest[..|manifest| - 1])[manifest[|manifest| - 1].key := manifest[|manifest| - 1]]
  }

  function Flag(c: bool, p: Problem): seq<Problem> { if c then [p] else [] }

  function ManifestProblems(manifest: seq<Declaration>): seq<Problem> {
    if manifest == [] then []
    else
      var before, r := manifest[..|manifest| - 1], manifest[|manifest| - 1];
      ManifestProblems(before) + RouteProblems(r, r.key in Declared(before))
  }

  function RouteProblems(r: Declaration, twice: bool): seq<Problem> {
    Flag(twice, DeclaredTwice(r.key))
    + Flag(r.access.Public? && r.key !in PUBLIC_ROUTES, PublicNotListed(r.key))
    + Flag(r.access.ServiceToken? && r.key !in SERVICE_ROUTES, ServiceNotListed(r.key))
    + Flag(IsInternal(r.key.path) && !r.access.ServiceToken?, InternalNotService(r.key))
  }

  function OnboardingProblems(list: seq<Key>, declared: map<Key, Declaration>): seq<Problem> {
    if list == [] then []
    else
      var k := list[|list| - 1];
      OnboardingProblems(list[..|list| - 1], declared)
      + if k !in declared then [OnboardingUndeclared(k)]
        else Flag(!declared[k].access.SelfService?, OnboardingNotSelf(k))
  }

  function RegisteredProblems(found: seq<Key>, declared: map<Key, Declaration>): seq<Problem> {
    if found == [] then []
    else
      var k := found[|found| - 1];
      RegisteredProblems(found[..|found| - 1], declared) + Flag(InScope(k.path) && k !in declared, NoAccessRule(k))
  }

  function Problems(manifest: seq<Declaration>, found: seq<Key>): seq<Problem> {
    ManifestProblems(manifest) + OnboardingProblems(ONBOARDING_ROUTES, Declared(manifest))
    + RegisteredProblems(found, Declared(manifest))
  }

  method CheckRoute(route: Declaration, twice: bool) returns (problems: seq<Problem>)
    ensures problems == RouteProblems(route, twice)
  {
    problems := [];
    if twice {
      problems := problems + [DeclaredTwice(route.key)];
    }
    if route.access.Public? && route.key !in PUBLIC_ROUTES {
      problems := problems + [PublicNotListed(route.key)];
    }
    if route.access.ServiceToken? && route.key !in SERVICE_ROUTES {
      problems := problems + [ServiceNotListed(route.key)];
    }
    if IsInternal(route.key.path) && !route.access.ServiceToken? {
      problems := problems + [InternalNotService(route.key)];
    }
  }

  method CheckManifest(manifest: seq<Declaration>) returns (problems: seq<Problem>, declared: map<Key, Declaration>)
    ensures problems == ManifestProblems(manifest) && declared == Declared(manifest)
  {
    problems, declared := [], map[];
    for i := 0 to |manifest|
      invariant declared == Declared(manifest[..i])
      invariant problems == ManifestProblems(manifest[..i])
    {
      assert manifest[..i + 1][..i] == manifest[..i];
      var more := CheckRoute(manifest[i], manifest[i].key in declared);
      problems := problems + more;
      declared := declared[manifest[i].key := manifest[i]];
    }
    assert manifest[..|manifest|] == manifest;
  }

  method CheckOnboarding(list: seq<Key>, declared: map<Key, Declaration>) returns (problems: seq<Problem>)
    ensures problems == OnboardingProblems(list, declared)
  {
    problems := [];
    for i := 0 to |list|
      invariant problems == OnboardingProblems(list[..i], declared)
    {
      assert list[..i + 1][..i] == list[..i];
      if list[i] !in declared {
        problems := problems + [OnboardingUndeclared(list[i])];
        continue;
      }
      if !declared[list[i]].access.SelfService? {
        problems := problems + [OnboardingNotSelf(list[i])];
      }
    }
    assert list[..|list|] == list;
  }

  method CheckRegistered(found: seq<Key>, declared: map<Key, Declaration>) returns (problems: seq<Problem>)
    ensures problems == RegisteredProblems(found, declared)
  {
    problems := [];
    for i := 0 to |found|
      invariant problems == RegisteredProblems(found[..i], declared)
    {
      assert found[..i + 1][..i] == found[..i];
      if !InScope(found[i].path) {
        continue;
      }
      if found[i] !in declared {
        problems := problems + [NoAccessRule(found[i])];
      }
    }
    assert found[..|found|] == found;
  }

  /** Start-up goes on only when this returns no problem. */
  method AssertRouteManifestComplete(manifest: seq<Declaration>, root: seq<Layer>) returns (problems: seq<Problem>)
    ensures problems == Problems(manifest, Keys(Walk(root, "")))
  {
    var declared: map<Key, Declaration>;
    problems, declared := CheckManifest(manifest);
    var onboarding := CheckOnboarding(ONBOARDING_ROUTES, declared);
    var found := CollectRegisteredRoutes(root, "");
    var registered := CheckRegistered(found, declared);
    problems := problems + onboarding + registered;
  }

  // ── What no problem means ─────────────────────────────────────────────────

  ghost predicate Distinct(manifest: seq<Declaration>) {
    forall i, j :: 0 <= i < j < |manifest| ==> manifest[i].key != manifest[j].key
  }

  predicate DeclarationOk(r: Declaration) {
    && (r.access.Public? ==> r.key in PUBLIC_ROUTES)
    && (r.access.ServiceToken? ==> r.key in SERVICE_ROUTES)
    && (IsInternal(r.key.path) ==> r.access.ServiceToken?)
  }

  ghost predicate Sound(manifest: seq<Declaration>) {
    && Distinct(manifest)
    && (forall r :: r in manifest ==> DeclarationOk(r))
    && (forall k :: k in ONBOARDING_ROUTES ==> exists r :: r in manifest && r.key == k && r.access.SelfService?)
  }

  ghost predicate Declares(manifest: seq<Declaration>, k: Key) {
    exists r :: r in manifest && r.key == k
  }

  /** Said of the manifest and the registered routes, not of the order they are checked in. */
  ghost predicate Complete(manifest: seq<Declaration>, found: seq<Key>) {
    Sound(manifest) && forall k :: k in found && InScope(k.path) ==> Declares(manifest, k)
  }

  lemma {:induction false} DeclaredHolds(manifest: seq<Declaration>, k: Key)
    ensures k in Declared(manifest) <==> exists r :: r in manifest && r.key == k
    ensures k in Declared(manifest) ==> Declared(manifest)[k] in manifest && Declared(manifest)[k].key == k
  {
    if manifest != [] {
      var before, last := manifest[..|manifest| - 1], manifest[|manifest| - 1];
      DeclaredHolds(before, k);
      assert manifest == before + [last];
      if k == last.key {
        assert last in manifest;
      }
    }
  }

  lemma DistinctSnoc(before: seq<Declaration>, last: Declaration)
    ensures Distinct(before + [last]) <==> Distinct(before) && !(exists r :: r in before && r.key == last.key)
  {
    var all := before + [last];
    if Distinct(all) {
      forall i, j | 0 <= i < j < |before| ensures before[i].key != before[j].key {
        assert all[i].key != all[j].key;
      }
      forall r | r in before ensures r.key != last.key {
        var i :| 0 <= i < |before| && before[i] == r;
        assert all[i].key != all[|before|].key;
      }
    }
  }

  lemma {:induction false} ManifestClearIff(manifest: seq<Declaration>)
    ensures ManifestProblems(manifest) == [] <==> Distinct(manifest) && forall r :: r in manifest ==> DeclarationOk(r)
  {
    if manifest != [] {
      var before, last := manifest[..|manifest| - 1], manifest[|manifest| - 1];
      assert manifest == before + [last];
      ManifestClearIff(before);
      DeclaredHolds(before, last.key);
      DistinctSnoc(before, last);
      assert (forall r :: r in manifest ==> DeclarationOk(r))
        <==> (forall r :: r in before ==> DeclarationOk(r)) && DeclarationOk(last);
    }
  }

  lemma {:induction false} OnboardingClearIff(list: seq<Key>, declared: map<Key, Declaration>)
    ensures OnboardingProblems(list, declared) == []
      <==> forall k :: k in list ==> k in declared && declared[k].access.SelfService?
  {
    if list != [] {
      var before, last := list[..|list| - 1], list[|list| - 1];
      OnboardingClearIff(before, declared);
      assert list == before + [last];
    }
  }

  lemma {:induction false} RegisteredClearIff(found: seq<Key>, declared: map<Key, Declaration>)
    ensures RegisteredProblems(found, declared) == [] <==> forall k :: k in found && InScope(k.path) ==> k in declared
  {
    if found != [] {
      var before, last := found[..|found| - 1], found[|found| - 1];
      RegisteredClearIff(before, declared);
      assert found == before + [last];
    }
  }

  lemma OneDeclaration(manifest: seq<Declaration>, r: Declaration)
    requires Distinct(manifest) && r in manifest
    ensures r.key in Declared(manifest) && Declared(manifest)[r.key] == r
  {
    DeclaredHolds(manifest, r.key);
    var i :| 0 <= i < |manifest| && manifest[i] == r;
    var j :| 0 <= j < |manifest| && manifest[j] == Declared(manifest)[r.key];
  }

  /** The assertion passes exactly when the manifest is complete for what Express registered. */
  lemma NoProblemsIff(manifest: seq<Declaration>, found: seq<Key>)
    ensures Problems(manifest, found) == [] <==> Complete(manifest, found)
  {
    ManifestClearIff(manifest);
    OnboardingClearIff(ONBOARDING_ROUTES, Declared(manifest));
    RegisteredClearIff(found, Declared(manifest));
    if Distinct(manifest) {
      forall k ensures k in Declared(manifest) <==> exists r :: r in manifest && r.key == k {
        DeclaredHolds(manifest, k);
      }
      forall r | r in manifest ensures Declared(manifest)[r.key] == r {
        OneDeclaration(manifest, r);
      }
      forall k | k in Declared(manifest) ensures Declared(manifest)[k] in manifest && Declared(manifest)[k].key == k {
        DeclaredHolds(manifest, k);
      }
    }
  }

  // ── Which problems are reported ───────────────────────────────────────────

  predicate DeclaredAs(manifest: seq<Declaration>, i: int, k: Key) { 0 <= i < |manifest| && manifest[i].key == k }

  /** A public or service route that is not listed, or an internal one for people. */
  predicate Misdeclared(r: Declaration, p: Problem) {
    && r.key == p.key
    && match p
       case PublicNotListed(k) => r.access.Public? && k !in PUBLIC_ROUTES
       case ServiceNotListed(k) => r.access.ServiceToken? && k !in SERVICE_ROUTES
       case InternalNotService(k) => IsInternal(k.path) && !r.access.ServiceToken?
       case _ => false
  }

  /** What each message says is wrong. */
  ghost predicate IsWrong(manifest: seq<Declaration>, found: seq<Key>, p: Problem) {
    match p
    case DeclaredTwice(k) => exists i, j :: i < j && DeclaredAs(manifest, i, k) && DeclaredAs(manifest, j, k)
    case PublicNotListed(k) => exists r :: r in manifest && Misdeclared(r, p)
    case ServiceNotListed(k) => exists r :: r in manifest && Misdeclared(r, p)
    case InternalNotService(k) => exists r :: r in manifest && Misdeclared(r, p)
    case OnboardingUndeclared(k) => k in ONBOARDING_ROUTES && !Declares(manifest, k)
    case OnboardingNotSelf(k) =>
      && k in ONBOARDING_ROUTES
      && exists i :: DeclaredAs(manifest, i, k) && !manifest[i].access.SelfService? && LastAs(manifest, i, k)
    case NoAccessRule(k) => k in found && InScope(k.path) && !Declares(manifest, k)
  }

  predicate LastAs(manifest: seq<Declaration>, i: int, k: Key) {
    forall j: nat :: i < j < |manifest| ==> manifest[j].key != k
  }

  predicate OfManifest(p: Problem) {
    p.DeclaredTwice? || p.PublicNotListed? || p.ServiceNotListed? || p.InternalNotService?
  }

  lemma RouteProblemsAre(r: Declaration, twice: bool, p: Problem)
    ensures p in RouteProblems(r, twice) <==> (p == DeclaredTwice(r.key) && twice) || Misdeclared(r, p)
  {
  }

  lemma MisdeclaredMore(before: seq<Declaration>, last: Declaration, p: Problem)
    ensures (exists r :: r in before + [last] && Misdeclared(r, p)) <==>
      (exists r :: r in before && Misdeclared(r, p)) || Misdeclared(last, p)
  {
    assert forall r :: r in before + [last] <==> r in before || r == last;
  }

  lemma TwiceMore(before: seq<Declaration>, last: Declaration, k: Key)
    ensures var all := before + [last];
      (exists i, j :: i < j && DeclaredAs(all, i, k) && DeclaredAs(all, j, k)) <==>
        || (exists i, j :: i < j && DeclaredAs(before, i, k) && DeclaredAs(before, j, k))
        || (last.key == k && exists r :: r in before && r.key == k)
  {
    var all := before + [last];
    forall i ensures DeclaredAs(all, i, k) <==> DeclaredAs(before, i, k) || (i == |before| && last.key == k) {
    }
    if last.key == k && exists r :: r in before && r.key == k {
      var r :| r in before && r.key == k;
      var i :| 0 <= i < |before| && before[i] == r;
      assert DeclaredAs(all, i, k) && DeclaredAs(all, |before|, k);
    }
    if i, j :| i < j && DeclaredAs(before, i, k) && DeclaredAs(before, j, k) {
      assert DeclaredAs(all, i, k) && DeclaredAs(all, j, k);
    }
    if i, j :| i < j && DeclaredAs(all, i, k) && DeclaredAs(all, j, k) {
      if j == |before| { assert before[i] in before; }
    }
  }

  lemma WrongMore(before: seq<Declaration>, last: Declaration, found: seq<Key>, p: Problem)
    requires OfManifest(p)
    ensures IsWrong(before + [last], found, p) <==>
      IsWrong(before, found, p) || p in RouteProblems(last, last.key in Declared(before))
  {
    DeclaredHolds(before, last.key);
    RouteProblemsAre(last, last.key in Declared(before), p);
    TwiceMore(before, last, p.key);
    MisdeclaredMore(before, last, p);
  }

  lemma ManifestProblemsMore(before: seq<Declaration>, last: Declaration)
    ensures ManifestProblems(before + [last]) ==
      ManifestProblems(before) + RouteProblems(last, last.key in Declared(before))
  {
    assert (before + [last])[..|before|] == before;
  }

  lemma ManifestProblemsStep(before: seq<Declaration>, last: Declaration, found: seq<Key>, p: Problem)
    requires p in ManifestProblems(before) <==> OfManifest(p) && IsWrong(before, found, p)
    ensures p in ManifestProblems(before + [last]) <==> OfManifest(p) && IsWrong(before + [last], found, p)
  {
    ManifestProblemsMore(before, last);
    OnlyOfManifest(last, last.key in Declared(before), p);
    if OfManifest(p) {
      WrongMore(before, last, found, p);
    }
  }

  lemma {:induction false} ManifestProblemsAre(manifest: seq<Declaration>, found: seq<Key>, p: Problem)
    ensures p in ManifestProblems(manifest) <==> OfManifest(p) && IsWrong(manifest, found, p)
  {
    if manifest != [] {
      var before, last := manifest[..|manifest| - 1], manifest[|manifest| - 1];
      ManifestProblemsAre(before, found, p);
      ManifestProblemsStep(before, last, found, p);
      assert before + [last] == manifest;
    }
  }

  lemma OnlyOfManifest(r: Declaration, twice: bool, p: Problem)
    ensures p in RouteProblems(r, twice) ==> OfManifest(p)
  {
  }

  lemma {:induction false} OnboardingProblemsAre(list: seq<Key>, declared: map<Key, Declaration>, p: Problem)
    ensures p in OnboardingProblems(list, declared) <==>
      match p
      case OnboardingUndeclared(k) => k in list && k !in declared
      case OnboardingNotSelf(k) => k in list && k in declared && !declared[k].access.SelfService?
      case _ => false
  {
    if list != [] {
      var before, last := list[..|list| - 1], list[|list| - 1];
      OnboardingProblemsAre(before, declared, p);
      assert list == before + [last];
    }
  }

  lemma {:induction false} RegisteredProblemsAre(found: seq<Key>, declared: map<Key, Declaration>, p: Problem)
    ensures p in RegisteredProblems(found, declared) <==>
      p.NoAccessRule? && p.key in found && InScope(p.key.path) && p.key !in declared
  {
    if found != [] {
      var before, last := found[..|found| - 1], found[|found| - 1];
      RegisteredProblemsAre(before, declared, p);
      assert found == before + [last];
    }
  }

  /** The declaration looked up is the last one of that key. */
  lemma {:induction false} DeclaredIsLast(manifest: seq<Declaration>, k: Key) returns (i: int)
    requires k in Declared(manifest)
    ensures DeclaredAs(manifest, i, k) && Declared(manifest)[k] == manifest[i] && LastAs(manifest, i, k)
  {
    var n := |manifest| - 1;
    if manifest[n].key == k {
      i := n;
    } else {
      i := DeclaredIsLast(manifest[..n], k);
    }
  }

  lemma NotSelfIff(manifest: seq<Declaration>, k: Key)
    ensures k in Declared(manifest) && !Declared(manifest)[k].access.SelfService? <==>
      exists i :: DeclaredAs(manifest, i, k) && !manifest[i].access.SelfService? && LastAs(manifest, i, k)
  {
    DeclaredHolds(manifest, k);
    if k in Declared(manifest) {
      var last := DeclaredIsLast(manifest, k);
      forall i | DeclaredAs(manifest, i, k) && LastAs(manifest, i, k) ensures i == last {
      }
    }
    if i :| DeclaredAs(manifest, i, k) && !manifest[i].access.SelfService? && LastAs(manifest, i, k) {
      assert manifest[i] in manifest;
    }
  }

  /** A problem is reported exactly when what it says is wrong is wrong. */
  lemma ProblemsAreExact(manifest: seq<Declaration>, found: seq<Key>, p: Problem)
    ensures p in Problems(manifest, found) <==> IsWrong(manifest, found, p)
  {
    var declared := Declared(manifest);
    ManifestProblemsAre(manifest, found, p);
    OnboardingProblemsAre(ONBOARDING_ROUTES, declared, p);
    RegisteredProblemsAre(found, declared, p);
    DeclaredHolds(manifest, p.key);
    NotSelfIff(manifest, p.key);
  }
}
