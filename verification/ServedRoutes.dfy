/**
 * The boot assertion over the server Express built: which handlers answer as the manifest declares
 * (src/api/route-manifest.ts).
 */
module ServedRoutes {
  import opened Prelude
  import opened Settings
  import opened Accounts
  import opened AuthMachine
  import opened RouteManifest
  import opened AccessComposition

  // ── What the server answers ───────────────────────────────────────────────

  /** Every route at the place it really answers; a path that is not a string may match any path below it. */
  function Served(layers: seq<Layer>, prefix: string): seq<Registered> {
    if layers == [] then []
    else Served(layers[..|layers| - 1], prefix) + ServedBy(layers[|layers| - 1], prefix)
  }

  function ServedBy(l: Layer, prefix: string): seq<Registered> {
    match l
    case Route(path, methods, h) => Enabled(methods, if path.Some? then RoutePath(prefix, path.value) else prefix, h)
    case Mounted(at, _, stack) => Served(stack, prefix + at)
    case Middleware => []
  }

  /** Every path is a string and every mount prefix is recovered as it was given. */
  predicate Literal(layers: seq<Layer>) {
    forall l :: l in layers ==> LiteralLayer(l)
  }

  predicate LiteralLayer(l: Layer) {
    match l
    case Route(path, _, _) => path.Some?
    case Mounted(at, source, stack) => MountPathOf(source) == at && Literal(stack)
    case Middleware => true
  }

  lemma {:induction false} LiteralIsWalked(layers: seq<Layer>, prefix: string)
    requires Literal(layers)
    ensures Served(layers, prefix) == Walk(layers, prefix)
    decreases layers
  {
    if layers != [] {
      var last := layers[|layers| - 1];
      LiteralIsWalked(layers[..|layers| - 1], prefix);
      assert last in layers;
      if last.Mounted? {
        LiteralIsWalked(last.stack, prefix + last.at);
      }
    }
  }

  lemma OneMethod(verb: string, path: string, h: Handler)
    ensures Enabled([(verb, true)], path, h) == [Registered(Key(verb, path), h)]
    ensures Keys(Enabled([(verb, true)], path, h)) == [Key(verb, path)]
  {
    assert [(verb, true)][..0] == [];
  }

  /** A handler `defineRoute` built and recorded, wherever its router is mounted. */
  predicate Defined(r: Registered, manifest: seq<Declaration>) {
    && r.handler.definition.Some?
    && DeclarationOf(r.handler.definition.value) in manifest
    && r.handler.guards == ChainFor(r.handler.definition.value)
  }

  /** And mounted where its definition says. */
  predicate Honest(r: Registered, manifest: seq<Declaration>) {
    Defined(r, manifest) && KeyOf(r.handler.definition.value) == r.key
  }

  // ── One handler against a declaration ─────────────────────────────────────

  /** Reached exactly by those `d` lets through, once the route's other guards pass. */
  ghost predicate AnswersAs(cfg: Config, r: Registered, d: Declaration) {
    && r.handler.definition.Some?
    && forall w: World, v: Visit :: Reachable(cfg, w) ==>
         var expected := MayReach(w, v, d.access, d.key) && PassesRest(r.handler.definition.value, v);
         Admits(cfg, w, v, r.handler.guards) == expected
  }

  /** The handler's own access, at the place its definition names, lets the same visits through. */
  predicate Agrees(r: Registered, d: Declaration) {
    && r.handler.definition.Some?
    && SameReach(r.handler.definition.value.access, KeyOf(r.handler.definition.value), d.access, d.key)
  }

  lemma AnswersAsIff(cfg: Config, manifest: seq<Declaration>, r: Registered, d: Declaration)
    requires cfg.Valid() && Defined(r, manifest)
    ensures AnswersAs(cfg, r, d) <==> Agrees(r, d)
  {
    var own := r.handler.definition.value;
    if Agrees(r, d) {
      forall w: World, v: Visit
        ensures Admits(cfg, w, v, r.handler.guards) <==> MayReach(w, v, d.access, d.key) && PassesRest(own, v)
      {
        ChainIsExact(cfg, w, v, own);
        SameReachHolds(w, v, own.access, KeyOf(own), d.access, d.key);
      }
    } else {
      var w, v := Separated(cfg, own.access, KeyOf(own), d.access, d.key);
      ChainIsExact(cfg, w, v, own);
      assert PassesRest(own, v);
    }
  }

  /**
   * When the assertion passes, a `defineRoute` handler found in scope stands at a key with exactly one
   * declaration `d`, and answers as `d` says exactly when its own definition agrees with `d`. Where its
   * router is mounted is not assumed: the assertion never compares that with what the definition says.
   */
  lemma AnswersAsDeclaredIff(cfg: Config, manifest: seq<Declaration>, root: seq<Layer>, r: Registered)
    returns (d: Declaration)
    requires cfg.Valid() && Problems(manifest, Keys(Walk(root, ""))) == []
    requires r.key in Keys(Walk(root, "")) && InScope(r.key.path) && Defined(r, manifest)
    ensures d in manifest && d.key == r.key && forall e :: e in manifest && e.key == r.key ==> e == d
    ensures AnswersAs(cfg, r, d) <==> Agrees(r, d)
    ensures KeyOf(r.handler.definition.value) == r.key ==> Agrees(r, d)
  {
    NoProblemsIff(manifest, Keys(Walk(root, "")));
    d :| d in manifest && d.key == r.key;
    AnswersAsIff(cfg, manifest, r, d);
    var own := DeclarationOf(r.handler.definition.value);
    OneDeclaration(manifest, d);
    OneDeclaration(manifest, own);
    forall e | e in manifest && e.key == r.key ensures e == d {
      OneDeclaration(manifest, e);
    }
    if own.key == r.key {
      SameReachSelf(d.access, d.key);
    }
  }

  lemma SameReachSelf(a: Access, k: Key)
    ensures SameReach(a, k, a, k)
  {
  }

  // ── Main result ───────────────────────────────────────────────────────────

  predicate AgreesThere(r: Registered, manifest: seq<Declaration>) {
    forall d :: d in manifest && d.key == r.key ==> Agrees(r, d)
  }

  /**
   * When the assertion passes, a handler that agrees with the declaration at its key is reached only as
   * declared: without identity only on the public list, with the shared secret only on the service
   * list, by a pending account only on the onboarding list or for enrolment, by a session that owes
   * the second factor only for enrolment; nothing internal is reached by a person, and nothing at all
   * past a failed CSRF check.
   */
  lemma ReachedAsDeclared(
    cfg: Config, w: World, v: Visit, manifest: seq<Declaration>, root: seq<Layer>, r: Registered)
    requires Problems(manifest, Keys(Walk(root, ""))) == []
    requires r.key in Keys(Walk(root, "")) && InScope(r.key.path)
    requires Defined(r, manifest) && AgreesThere(r, manifest) && Admits(cfg, w, v, r.handler.guards)
    ensures exists d :: d in manifest && d.key == r.key && MayReach(w, v, d.access, d.key)
    ensures PassesRest(r.handler.definition.value, v)
    ensures || r.key in PUBLIC_ROUTES
            || (r.key in SERVICE_ROUTES && v.holdsServiceToken)
            || (SignedIn(w, v) && !IsInternal(r.key.path))
    ensures forall d :: d in manifest && d.key == r.key && !d.access.Public? && !d.access.ServiceToken? ==>
      && SignedIn(w, v)
      && (AccountOf(w, v).status == Pending ==>
            d.access.MfaEnrolment? || (d.access.SelfService? && r.key in ONBOARDING_ROUTES))
      && (SessionOf(w, v).pendingMfaEnrolment ==> d.access.MfaEnrolment?)
  {
    var own := r.handler.definition.value;
    NoProblemsIff(manifest, Keys(Walk(root, "")));
    ChainIsExact(cfg, w, v, own);
    var d :| d in manifest && d.key == r.key;
    forall e | e in manifest && e.key == r.key ensures e == d {
      OneDeclaration(manifest, e);
      OneDeclaration(manifest, d);
    }
    SameReachHolds(w, v, own.access, KeyOf(own), d.access, d.key);
    assert DeclarationOk(d);
  }

  // ── A whole server ────────────────────────────────────────────────────────

  predicate DefinedAt(r: Registered, k: Key) { r.key == k && r.handler.definition.Some? }

  /** Every handler is `defineRoute`'s or was registered around it, and every declared key has one of the former. */
  predicate Built(rs: seq<Registered>, manifest: seq<Declaration>) {
    && (forall r :: r in rs ==> Defined(r, manifest) || r.handler.definition.None?)
    && (forall d :: d in manifest ==> exists r :: r in rs && DefinedAt(r, d.key))
  }

  /** No key in scope is registered twice. */
  ghost predicate RegisteredOnce(rs: seq<Registered>) {
    forall i, j :: 0 <= i < j < |rs| && InScope(rs[i].key.path) ==> rs[i].key != rs[j].key
  }

  lemma KeysHold(rs: seq<Registered>, r: Registered)
    requires r in rs
    ensures r.key in Keys(rs)
  {
    var i :| 0 <= i < |rs| && rs[i] == r;
    assert Keys(rs)[i] == r.key;
  }

  lemma NoRawInScope(manifest: seq<Declaration>, rs: seq<Registered>, r: Registered)
    requires Complete(manifest, Keys(rs)) && Built(rs, manifest) && RegisteredOnce(rs)
    requires r in rs && InScope(r.key.path)
    ensures Defined(r, manifest)
  {
    KeysHold(rs, r);
    var d :| d in manifest && d.key == r.key;
    var twin :| twin in rs && DefinedAt(twin, d.key);
    var i :| 0 <= i < |rs| && rs[i] == r;
    var j :| 0 <= j < |rs| && rs[j] == twin;
  }

  ghost predicate AnswersAsDeclared(cfg: Config, r: Registered, manifest: seq<Declaration>) {
    exists d :: d in manifest && d.key == r.key && AnswersAs(cfg, r, d)
  }

  /**
   * Main result on a server with readable prefixes and no key registered twice: past the assertion,
   * every handler in scope answers as declared exactly when every one agrees with the declaration
   * at its key.
   */
  lemma ServerAnswersAsDeclaredIff(cfg: Config, manifest: seq<Declaration>, root: seq<Layer>)
    requires cfg.Valid() && Problems(manifest, Keys(Walk(root, ""))) == []
    requires Literal(root) && Built(Served(root, ""), manifest) && RegisteredOnce(Served(root, ""))
    ensures (forall r :: r in Served(root, "") && InScope(r.key.path) ==> AnswersAsDeclared(cfg, r, manifest))
      <==> (forall r :: r in Served(root, "") && InScope(r.key.path) ==> AgreesThere(r, manifest))
  {
    NoProblemsIff(manifest, Keys(Walk(root, "")));
    LiteralIsWalked(root, "");
    forall r | r in Served(root, "") && InScope(r.key.path)
      ensures AnswersAsDeclared(cfg, r, manifest) <==> AgreesThere(r, manifest)
    {
      NoRawInScope(manifest, Served(root, ""), r);
      KeysHold(Served(root, ""), r);
      var d := AnswersAsDeclaredIff(cfg, manifest, root, r);
      forall e | e in manifest && e.key == r.key ensures e == d {
      }
    }
  }

  // ── No false alarm ────────────────────────────────────────────────────────

  /**
   * The assertion raises no false alarm, whatever the layout: with readable prefixes, a sound manifest,
   * and every handler in scope from `defineRoute` on a router mounted where it says, the server
   * starts, and each of those handlers answers as declared.
   */
  lemma HonestServerStarts(cfg: Config, manifest: seq<Declaration>, root: seq<Layer>)
    requires cfg.Valid() && Literal(root) && Sound(manifest)
    requires forall r :: r in Served(root, "") && InScope(r.key.path) ==> Honest(r, manifest)
    ensures Problems(manifest, Keys(Walk(root, ""))) == []
    ensures forall r :: r in Served(root, "") && InScope(r.key.path) ==> AnswersAsDeclared(cfg, r, manifest)
  {
    LiteralIsWalked(root, "");
    var rs := Served(root, "");
    forall k | k in Keys(rs) && InScope(k.path) ensures Declares(manifest, k) {
      var i :| 0 <= i < |rs| && Keys(rs)[i] == k;
      assert rs[i] in rs;
    }
    NoProblemsIff(manifest, Keys(rs));
    forall r | r in rs && InScope(r.key.path) ensures AnswersAsDeclared(cfg, r, manifest) {
      KeysHold(rs, r);
      var d := AnswersAsDeclaredIff(cfg, manifest, root, r);
    }
  }

  /** The layout of this server: an application over API routers over domain routers. */
  datatype Domain = Domain(mountedAt: string, source: string, routes: seq<Definition>)

  datatype Api = Api(prefix: string, source: string, domains: seq<Domain>)

  function RouteLayers(defs: seq<Definition>): seq<Layer> {
    seq(|defs|, i requires 0 <= i < |defs| => LayerOf(defs[i]))
  }

  function DomainLayer(d: Domain): Layer { Mounted(d.mountedAt, d.source, RouteLayers(d.routes)) }

  function DomainLayers(domains: seq<Domain>): seq<Layer> {
    seq(|domains|, i requires 0 <= i < |domains| => DomainLayer(domains[i]))
  }

  function ApiLayer(a: Api): Layer { Mounted(a.prefix, a.source, DomainLayers(a.domains)) }

  function AppOf(apis: seq<Api>): seq<Layer> { seq(|apis|, i requires 0 <= i < |apis| => ApiLayer(apis[i])) }

  function DomainDefinitions(domains: seq<Domain>): seq<Definition> {
    if domains == [] then [] else DomainDefinitions(domains[..|domains| - 1]) + domains[|domains| - 1].routes
  }

  /** Everything `defineRoute` was called with. */
  function Definitions(apis: seq<Api>): seq<Definition> {
    if apis == [] then [] else Definitions(apis[..|apis| - 1]) + DomainDefinitions(apis[|apis| - 1].domains)
  }

  function Declarations(defs: seq<Definition>): seq<Declaration> {
    seq(|defs|, i requires 0 <= i < |defs| => DeclarationOf(defs[i]))
  }

  function RegisteredFor(d: Definition): Registered { Registered(KeyOf(d), Handler(ChainFor(d), Some(d))) }

  function RegisteredAll(defs: seq<Definition>): seq<Registered> {
    seq(|defs|, i requires 0 <= i < |defs| => RegisteredFor(defs[i]))
  }

  predicate InPlace(d: Definition, prefix: string, mountedAt: string) {
    d.prefix == prefix && d.mountedAt == mountedAt && KeyOf(d).path != ""
  }

  predicate DomainInPlace(d: Domain, prefix: string) {
    MountPathOf(d.source) == d.mountedAt && forall r :: r in d.routes ==> InPlace(r, prefix, d.mountedAt)
  }

  predicate ApiInPlace(a: Api) {
    MountPathOf(a.source) == a.prefix && forall d :: d in a.domains ==> DomainInPlace(d, a.prefix)
  }

  lemma ServedMore(layers: seq<Layer>, extra: Layer, prefix: string)
    ensures Served(layers + [extra], prefix) == Served(layers, prefix) + ServedBy(extra, prefix)
  {
    assert (layers + [extra])[..|layers|] == layers;
  }

  lemma RouteServed(d: Definition, prefix: string, mountedAt: string)
    requires InPlace(d, prefix, mountedAt)
    ensures ServedBy(LayerOf(d), prefix + mountedAt) == [RegisteredFor(d)]
  {
    OneMethod(d.verb, RoutePath(prefix + mountedAt, d.path), LayerOf(d).handler);
  }

  lemma RoutesSnoc(defs: seq<Definition>, d: Definition)
    ensures RouteLayers(defs + [d]) == RouteLayers(defs) + [LayerOf(d)]
    ensures RegisteredAll(defs + [d]) == RegisteredAll(defs) + [RegisteredFor(d)]
  {
  }

  lemma {:induction false} RoutesServed(defs: seq<Definition>, prefix: string, mountedAt: string)
    requires forall d :: d in defs ==> InPlace(d, prefix, mountedAt)
    ensures Served(RouteLayers(defs), prefix + mountedAt) == RegisteredAll(defs)
  {
    if defs != [] {
      var before, last := defs[..|defs| - 1], defs[|defs| - 1];
      RoutesServed(before, prefix, mountedAt);
      RouteServed(last, prefix, mountedAt);
      RoutesSnoc(before, last);
      assert before + [last] == defs;
      ServedMore(RouteLayers(before), LayerOf(last), prefix + mountedAt);
    }
  }

  lemma {:induction false} DomainsServed(domains: seq<Domain>, prefix: string)
    requires forall d :: d in domains ==> DomainInPlace(d, prefix)
    ensures Served(DomainLayers(domains), prefix) == RegisteredAll(DomainDefinitions(domains))
  {
    if domains != [] {
      var n := |domains| - 1;
      var before, last := domains[..n], domains[n];
      assert last in domains;
      DomainsServed(before, prefix);
      RoutesServed(last.routes, prefix, last.mountedAt);
      assert DomainLayers(domains) == DomainLayers(before) + [DomainLayer(last)];
      ServedMore(DomainLayers(before), DomainLayer(last), prefix);
      RegisteredBoth(DomainDefinitions(before), last.routes);
    }
  }

  lemma RegisteredBoth(a: seq<Definition>, b: seq<Definition>)
    ensures RegisteredAll(a + b) == RegisteredAll(a) + RegisteredAll(b)
  {
  }

  lemma {:induction false} AppServed(apis: seq<Api>)
    requires forall a :: a in apis ==> ApiInPlace(a)
    ensures Served(AppOf(apis), "") == RegisteredAll(Definitions(apis))
  {
    if apis != [] {
      var n := |apis| - 1;
      var before, last := apis[..n], apis[n];
      assert last in apis;
      AppServed(before);
      assert "" + last.prefix == last.prefix;
      DomainsServed(last.domains, last.prefix);
      assert AppOf(apis) == AppOf(before) + [ApiLayer(last)];
      ServedMore(AppOf(before), ApiLayer(last), "");
      RegisteredBoth(Definitions(before), DomainDefinitions(last.domains));
    }
  }

  lemma DomainIsLiteral(d: Domain, prefix: string)
    requires DomainInPlace(d, prefix)
    ensures LiteralLayer(DomainLayer(d))
  {
    forall l | l in RouteLayers(d.routes) ensures LiteralLayer(l) {
    }
  }

  lemma AppIsLiteral(apis: seq<Api>)
    requires forall a :: a in apis ==> ApiInPlace(a)
    ensures Literal(AppOf(apis))
  {
    forall l | l in AppOf(apis) ensures LiteralLayer(l) {
      var i :| 0 <= i < |apis| && AppOf(apis)[i] == l;
      assert apis[i] in apis;
      forall m | m in DomainLayers(apis[i].domains) ensures LiteralLayer(m) {
        var j :| 0 <= j < |apis[i].domains| && DomainLayers(apis[i].domains)[j] == m;
        DomainIsLiteral(apis[i].domains[j], apis[i].prefix);
      }
    }
  }

  lemma AllBuilt(defs: seq<Definition>)
    requires Distinct(Declarations(defs))
    ensures Built(RegisteredAll(defs), Declarations(defs)) && RegisteredOnce(RegisteredAll(defs))
    ensures forall r :: r in RegisteredAll(defs) ==> Honest(r, Declarations(defs))
  {
    var manifest, rs := Declarations(defs), RegisteredAll(defs);
    forall d | d in manifest ensures exists r :: r in rs && DefinedAt(r, d.key) {
      var i :| 0 <= i < |manifest| && manifest[i] == d;
      assert rs[i] in rs && DefinedAt(rs[i], d.key);
    }
    forall r | r in rs ensures Honest(r, manifest) {
      var i :| 0 <= i < |rs| && rs[i] == r;
      assert manifest[i] in manifest;
    }
    forall i, j | 0 <= i < j < |rs| ensures rs[i].key != rs[j].key {
      assert manifest[i].key != manifest[j].key;
    }
  }

  /** Such a server, with a sound manifest, meets every condition of the results above. */
  lemma NestedServerStarts(cfg: Config, apis: seq<Api>)
    requires cfg.Valid() && Sound(Declarations(Definitions(apis))) && forall a :: a in apis ==> ApiInPlace(a)
    ensures var root, manifest := AppOf(apis), Declarations(Definitions(apis));
      && Problems(manifest, Keys(Walk(root, ""))) == []
      && Literal(root) && Built(Served(root, ""), manifest) && RegisteredOnce(Served(root, ""))
      && forall r :: r in Served(root, "") && InScope(r.key.path) ==> AnswersAsDeclared(cfg, r, manifest)
  {
    AppIsLiteral(apis);
    AppServed(apis);
    AllBuilt(Definitions(apis));
    HonestServerStarts(cfg, Declarations(Definitions(apis)), AppOf(apis));
  }

  /** The smallest manifest that starts: the onboarding routes themselves. */
  function OnboardingManifest(): seq<Declaration> {
    seq(|ONBOARDING_ROUTES|, i requires 0 <= i < |ONBOARDING_ROUTES| => Declaration(ONBOARDING_ROUTES[i], SelfService))
  }

  lemma OnboardingRoutesDiffer()
    ensures forall i, j :: 0 <= i < j < |ONBOARDING_ROUTES| ==> ONBOARDING_ROUTES[i] != ONBOARDING_ROUTES[j]
  {
  }

  lemma OnboardingRoutesAreVersioned()
    ensures forall i :: 0 <= i < |ONBOARDING_ROUTES| ==>
      |ONBOARDING_ROUTES[i].path| > 5 && ONBOARDING_ROUTES[i].path[5] == 'v'
  {
  }

  lemma OnboardingIsSound()
    ensures Sound(OnboardingManifest())
  {
    var m := OnboardingManifest();
    OnboardingRoutesDiffer();
    OnboardingRoutesAreVersioned();
    forall k | k in ONBOARDING_ROUTES ensures exists r :: r in m && r.key == k && r.access.SelfService? {
      var i :| 0 <= i < |ONBOARDING_ROUTES| && ONBOARDING_ROUTES[i] == k;
      assert m[i] in m;
    }
  }

  // ── What the assertion catches ────────────────────────────────────────────

  /** Each definition was registered once. */
  ghost predicate DefinedOnce(rs: seq<Registered>) {
    forall i, j :: 0 <= i < j < |rs| && rs[i].handler.definition.Some? && rs[j].handler.definition.Some? ==>
      DeclarationOf(rs[i].handler.definition.value) != DeclarationOf(rs[j].handler.definition.value)
  }

  lemma {:induction false} InjectionFits<A, B>(f: map<A, B>, into: set<B>)
    requires forall x :: x in f ==> f[x] in into
    requires forall x, y :: x in f && y in f && f[x] == f[y] ==> x == y
    ensures |f.Keys| <= |into|
    decreases f.Keys
  {
    if f.Keys != {} {
      var x :| x in f;
      InjectionFits(f - {x}, into - {f[x]});
      assert (f - {x}).Keys == f.Keys - {x};
    }
  }

  ghost function DefinedIndices(rs: seq<Registered>): set<nat> {
    set i: nat | i < |rs| && rs[i].handler.definition.Some?
  }

  ghost function PlaceOf(rs: seq<Registered>, k: Key): (i: nat)
    requires exists r :: r in rs && DefinedAt(r, k)
    ensures i < |rs| && DefinedAt(rs[i], k)
  {
    var r :| r in rs && DefinedAt(r, k);
    var i: nat :| i < |rs| && rs[i] == r;
    i
  }

  ghost function Members(manifest: seq<Declaration>): set<Declaration> { set d | d in manifest }

  /** What each handler was declared as. */
  ghost function Owns(rs: seq<Registered>): (own: map<nat, Declaration>)
    ensures own.Keys == DefinedIndices(rs)
    ensures forall x :: x in own ==> own[x] == DeclarationOf(rs[x].handler.definition.value)
  {
    map x | x in DefinedIndices(rs) :: DeclarationOf(rs[x].handler.definition.value)
  }

  lemma OwnIsDeclared(manifest: seq<Declaration>, rs: seq<Registered>, x: nat)
    requires Built(rs, manifest) && x in DefinedIndices(rs)
    ensures DeclarationOf(rs[x].handler.definition.value) in Members(manifest)
  {
    assert rs[x] in rs;
  }

  lemma HandlersAreFew(manifest: seq<Declaration>, rs: seq<Registered>)
    requires Built(rs, manifest) && DefinedOnce(rs)
    ensures |DefinedIndices(rs)| <= |Members(manifest)|
  {
    var own := Owns(rs);
    forall x | x in own ensures own[x] in Members(manifest) {
      OwnIsDeclared(manifest, rs, x);
    }
    InjectionFits(own, Members(manifest));
  }

  /** Where each declaration is answered. */
  ghost function Places(rs: seq<Registered>, manifest: seq<Declaration>): (place: map<Declaration, nat>)
    requires forall d :: d in manifest ==> exists r :: r in rs && DefinedAt(r, d.key)
    ensures place.Keys == Members(manifest)
    ensures forall d :: d in place ==> place[d] in DefinedIndices(rs) && rs[place[d]].key == d.key
    ensures forall d :: d in place ==> place[d] == PlaceOf(rs, d.key)
  {
    map d | d in Members(manifest) :: PlaceOf(rs, d.key)
  }

  lemma HandlersAreMany(manifest: seq<Declaration>, rs: seq<Registered>, spare: nat)
    requires Distinct(manifest) && Built(rs, manifest) && spare in DefinedIndices(rs)
    requires spare !in Places(rs, manifest).Values
    ensures |Members(manifest)| < |DefinedIndices(rs)|
  {
    var place := Places(rs, manifest);
    forall d, e | d in place && e in place && place[d] == place[e] ensures d == e {
      OneDeclaration(manifest, d);
      OneDeclaration(manifest, e);
    }
    InjectionFits(place, DefinedIndices(rs) - {spare});
  }

  /** Of two handlers at one key, one answers for no declaration. */
  lemma OneIsSpare(manifest: seq<Declaration>, rs: seq<Registered>, i: nat, j: nat) returns (spare: nat)
    requires Built(rs, manifest) && i < j < |rs| && rs[i].key == rs[j].key
    ensures (spare == i || spare == j) && spare !in Places(rs, manifest).Values
  {
    var place := Places(rs, manifest);
    if i in place.Values {
      var d :| d in place && place[d] == i;
      spare := j;
    } else {
      spare := i;
    }
  }

  /** As many declarations as handlers, so no handler is left to share a key with another. */
  lemma KeysDiffer(manifest: seq<Declaration>, rs: seq<Registered>, i: nat, j: nat)
    requires Distinct(manifest) && Built(rs, manifest) && DefinedOnce(rs)
    requires i < j < |rs| && rs[i].handler.definition.Some? && rs[j].handler.definition.Some?
    ensures rs[i].key != rs[j].key
  {
    if rs[i].key == rs[j].key {
      var spare := OneIsSpare(manifest, rs, i, j);
      HandlersAreFew(manifest, rs);
      HandlersAreMany(manifest, rs, spare);
    }
  }

  /** With the assertion passed, an undeclared handler in scope is exactly a key registered twice. */
  lemma RawFreeIff(manifest: seq<Declaration>, rs: seq<Registered>)
    requires Complete(manifest, Keys(rs)) && Built(rs, manifest) && DefinedOnce(rs)
    ensures RegisteredOnce(rs) <==> forall r :: r in rs && InScope(r.key.path) ==> r.handler.definition.Some?
  {
    if RegisteredOnce(rs) {
      forall r | r in rs && InScope(r.key.path) ensures r.handler.definition.Some? {
        NoRawInScope(manifest, rs, r);
      }
    }
    if forall r :: r in rs && InScope(r.key.path) ==> r.handler.definition.Some? {
      forall i, j | 0 <= i < j < |rs| && InScope(rs[i].key.path) ensures rs[i].key != rs[j].key {
        assert rs[i] in rs && rs[j] in rs;
        if rs[j].handler.definition.Some? {
          KeysDiffer(manifest, rs, i, j);
        }
      }
    }
  }

  lemma WalkMore(root: seq<Layer>, extra: Layer, prefix: string)
    ensures Walk(root + [extra], prefix) == Walk(root, prefix) + WalkLayer(extra, prefix)
  {
    assert (root + [extra])[..|root|] == root;
  }

  lemma KeysMore(root: seq<Layer>, extra: Layer)
    ensures Keys(Walk(root + [extra], "")) == Keys(Walk(root, "")) + Keys(WalkLayer(extra, ""))
  {
    WalkMore(root, extra, "");
  }

  /**
   * An extra registration fails start-up exactly when the walk finds, in it, a key in scope that
   * nothing declared.
   */
  lemma ExtraIsCaughtIff(manifest: seq<Declaration>, root: seq<Layer>, extra: Layer)
    requires Problems(manifest, Keys(Walk(root, ""))) == []
    ensures Problems(manifest, Keys(Walk(root + [extra], ""))) != []
      <==> exists k :: k in Keys(WalkLayer(extra, "")) && InScope(k.path) && !Declares(manifest, k)
  {
    NoProblemsIff(manifest, Keys(Walk(root, "")));
    NoProblemsIff(manifest, Keys(Walk(root + [extra], "")));
    KeysMore(root, extra);
  }

  /** A raw handler that repeats a declared key passes unnoticed. */
  lemma RawTwinEscapes(manifest: seq<Declaration>, root: seq<Layer>, d: Declaration, p: string, h: Handler)
    requires Problems(manifest, Keys(Walk(root, ""))) == [] && d in manifest && d.key.path == RoutePath("", p)
    ensures Problems(manifest, Keys(Walk(root + [Route(Some(p), [(d.key.verb, true)], h)], ""))) == []
  {
    ExtraIsCaughtIff(manifest, root, Route(Some(p), [(d.key.verb, true)], h));
    OneMethod(d.key.verb, d.key.path, h);
  }

  /** So does one whose path is not a string. */
  lemma PatternPathEscapes(manifest: seq<Declaration>, root: seq<Layer>, verb: string, h: Handler)
    requires Problems(manifest, Keys(Walk(root, ""))) == []
    ensures Problems(manifest, Keys(Walk(root + [Route(None, [(verb, true)], h)], ""))) == []
  {
    ExtraIsCaughtIff(manifest, root, Route(None, [(verb, true)], h));
  }

  lemma OneRoute(prefix: string, verb: string, path: string, h: Handler)
    ensures var stack := [Route(Some(path), [(verb, true)], h)];
      && Keys(Walk(stack, prefix)) == [Key(verb, RoutePath(prefix, path))]
      && Served(stack, prefix) == [Registered(Key(verb, RoutePath(prefix, path)), h)]
  {
    var r := Route(Some(path), [(verb, true)], h);
    OneMethod(verb, RoutePath(prefix, path), h);
    assert [r][..0] == [];
    assert Walk([r], prefix) == [] + WalkLayer(r, prefix);
    assert Served([r], prefix) == [] + ServedBy(r, prefix);
  }

  /** And one below a mount prefix the walk cannot read back, though it answers under the real prefix. */
  lemma UnreadableMountEscapes(
    manifest: seq<Declaration>, root: seq<Layer>, at: string, source: string, verb: string, path: string, h: Handler)
    requires Problems(manifest, Keys(Walk(root, ""))) == []
    requires MountPathOf(source) == "" && !InScope(RoutePath("", path))
    ensures var extra := Mounted(at, source, [Route(Some(path), [(verb, true)], h)]);
      && Problems(manifest, Keys(Walk(root + [extra], ""))) == []
      && Registered(Key(verb, RoutePath(at, path)), h) in ServedBy(extra, "")
  {
    var extra := Mounted(at, source, [Route(Some(path), [(verb, true)], h)]);
    ExtraIsCaughtIff(manifest, root, extra);
    assert "" + "" == "" && "" + at == at;
    OneRoute("", verb, path, h);
    OneRoute(at, verb, path, h);
  }

  /** A definition's router mounted at `at`. */
  function MountedAt(d: Definition, at: string, source: string): Layer { Mounted(at, source, [LayerOf(d)]) }

  lemma MisplacedAnswers(d: Definition, source: string, place: Definition)
    requires MountPathOf(source) == place.prefix + place.mountedAt && KeyOf(place).path != ""
    requires d.verb == place.verb && d.path == place.path
    ensures var l := MountedAt(d, place.prefix + place.mountedAt, source);
      && Keys(WalkLayer(l, "")) == [KeyOf(place)]
      && ServedBy(l, "") == [Registered(KeyOf(place), Handler(ChainFor(d), Some(d)))]
  {
    var at := place.prefix + place.mountedAt;
    assert "" + at == at;
    OneRoute(at, d.verb, d.path, LayerOf(d).handler);
  }

  /**
   * Two routes of one verb and path, each mounted where the other says: the assertion passes, and each
   * handler answers at the other's key.
   */
  lemma SwappedMountsEscape(
    manifest: seq<Declaration>, root: seq<Layer>, a: Definition, b: Definition, sourceA: string, sourceB: string)
    requires Problems(manifest, Keys(Walk(root, ""))) == []
    requires DeclarationOf(a) in manifest && DeclarationOf(b) in manifest && a.verb == b.verb && a.path == b.path
    requires MountPathOf(sourceA) == a.prefix + a.mountedAt && KeyOf(a).path != ""
    requires MountPathOf(sourceB) == b.prefix + b.mountedAt && KeyOf(b).path != ""
    ensures var swapped := root
        + [MountedAt(a, b.prefix + b.mountedAt, sourceB)] + [MountedAt(b, a.prefix + a.mountedAt, sourceA)];
      && Problems(manifest, Keys(Walk(swapped, ""))) == []
      && Registered(KeyOf(b), Handler(ChainFor(a), Some(a))) in Served(swapped, "")
      && Registered(KeyOf(a), Handler(ChainFor(b), Some(b))) in Served(swapped, "")
      && KeyOf(b) in Keys(Walk(swapped, "")) && KeyOf(a) in Keys(Walk(swapped, ""))
  {
    var first, second := MountedAt(a, b.prefix + b.mountedAt, sourceB), MountedAt(b, a.prefix + a.mountedAt, sourceA);
    MisplacedAnswers(a, sourceB, b);
    MisplacedAnswers(b, sourceA, a);
    ExtraIsCaughtIff(manifest, root, first);
    ExtraIsCaughtIff(manifest, root + [first], second);
    KeysMore(root, first);
    KeysMore(root + [first], second);
    ServedMore(root, first, "");
    ServedMore(root + [first], second, "");
  }

  /**
   * So when `a` is public and `b` self-service, the server starts with a handler at the key of `b` that
   * lets anybody through, though the manifest asks for an administrator there.
   */
  lemma MisplacedPublicAnswers(
    manifest: seq<Declaration>, a: Definition, b: Definition, sourceA: string, sourceB: string, r: Registered)
    returns (root: seq<Layer>)
    requires Sound(manifest) && DeclarationOf(a) in manifest && DeclarationOf(b) in manifest
    requires a.access.Public? && b.access.SelfService? && a.verb == b.verb && a.path == b.path
    requires MountPathOf(sourceA) == a.prefix + a.mountedAt && KeyOf(a).path != ""
    requires MountPathOf(sourceB) == b.prefix + b.mountedAt && KeyOf(b).path != ""
    requires r == Registered(KeyOf(b), Handler(ChainFor(a), Some(a)))
    ensures Problems(manifest, Keys(Walk(root, ""))) == [] && r in Served(root, "") && Defined(r, manifest)
    ensures forall cfg, w, v: Visit :: Admits(cfg, w, v, r.handler.guards) <==> PassesRest(a, v)
    ensures DeclarationOf(b).key == r.key && forall cfg: Config :: cfg.Valid() ==> !AnswersAs(cfg, r, DeclarationOf(b))
  {
    NoProblemsIff(manifest, []);
    SwappedMountsEscape(manifest, [], a, b, sourceA, sourceB);
    root := [] + [MountedAt(a, b.prefix + b.mountedAt, sourceB)] + [MountedAt(b, a.prefix + a.mountedAt, sourceA)];
    PublicAdmitsAnybody(a);
    PublicIsNotSelfService(manifest, a, b, r);
  }

  lemma PublicAdmitsAnybody(a: Definition)
    requires a.access.Public?
    ensures forall cfg, w, v: Visit :: Admits(cfg, w, v, ChainFor(a)) <==> PassesRest(a, v)
  {
    forall cfg, w, v: Visit ensures Admits(cfg, w, v, ChainFor(a)) <==> PassesRest(a, v) {
      ChainIsExact(cfg, w, v, a);
    }
  }

  lemma PublicIsNotSelfService(manifest: seq<Declaration>, a: Definition, b: Definition, r: Registered)
    requires a.access.Public? && b.access.SelfService?
    requires Defined(r, manifest) && r.handler.definition == Some(a)
    ensures forall cfg: Config :: cfg.Valid() ==> !AnswersAs(cfg, r, DeclarationOf(b))
  {
    forall cfg: Config | cfg.Valid() ensures !AnswersAs(cfg, r, DeclarationOf(b)) {
      AnswersAsIff(cfg, manifest, r, DeclarationOf(b));
    }
  }

  lemma SoundMore(manifest: seq<Declaration>, d: Declaration)
    requires Sound(manifest) && DeclarationOk(d) && forall r :: r in manifest ==> r.key != d.key
    ensures Sound(manifest + [d])
  {
    DistinctSnoc(manifest, d);
    forall k | k in ONBOARDING_ROUTES
      ensures exists r :: r in manifest + [d] && r.key == k && r.access.SelfService?
    {
      var r :| r in manifest && r.key == k && r.access.SelfService?;
      assert r in manifest + [d];
    }
  }

  lemma PostedOnboardingPathsAreLong()
    ensures forall i :: 0 <= i < |ONBOARDING_ROUTES| ==>
      ONBOARDING_ROUTES[i].verb == "POST" ==> |ONBOARDING_ROUTES[i].path| > 20
  {
  }

  lemma ShortPostIsFresh(k: Key)
    requires k.verb == "POST" && |k.path| <= 20
    ensures forall r :: r in OnboardingManifest() ==> r.key != k
  {
    PostedOnboardingPathsAreLong();
    var m := OnboardingManifest();
    forall r | r in m ensures r.key != k {
      var i :| 0 <= i < |m| && m[i] == r;
    }
  }

  lemma PatternExists(q: string, at: string) returns (source: string)
    requires at == "/" + q && q != [] && forall i :: 0 <= i < |q| ==> q[i] != '\\' && !IsBreak(q[i])
    ensures MountPathOf(source) == at
  {
    source := PATTERN_HEAD + Escaped(q) + PATTERN_TAIL;
    LiteralPrefixIsRecovered(q);
  }

  const SIGN_IN := Definition("POST", "/api/v1", "/auth", "/login", Public, true, 1, true)

  const DEVICE := Definition("POST", "/api/v1", "/device", "/login", SelfService, true, 0, true)

  lemma SwappablePatterns() returns (sourceA: string, sourceB: string)
    ensures MountPathOf(sourceA) == SIGN_IN.prefix + SIGN_IN.mountedAt
    ensures MountPathOf(sourceB) == DEVICE.prefix + DEVICE.mountedAt
  {
    sourceA := PatternExists("api/v1/auth", "/api/v1" + "/auth");
    sourceB := PatternExists("api/v1/device", "/api/v1" + "/device");
  }

  lemma SwappableManifest() returns (manifest: seq<Declaration>)
    ensures Sound(manifest) && DeclarationOf(SIGN_IN) in manifest && DeclarationOf(DEVICE) in manifest
  {
    var m, a, b := OnboardingManifest(), DeclarationOf(SIGN_IN), DeclarationOf(DEVICE);
    OnboardingIsSound();
    assert a.key.path == "/api/v1/auth/login" && b.key.path == "/api/v1/device/login";
    assert PUBLIC_ROUTES[0] == a.key && a.key.path[5] == b.key.path[5] == 'v';
    ShortPostIsFresh(a.key);
    ShortPostIsFresh(b.key);
    SoundMore(m, a);
    SoundMore(m + [a], b);
    manifest := m + [a] + [b];
  }

  /** There are such routes: the sign-in, and a self-service route of the same verb and path. */
  lemma PublicSignInCanBeMisplaced() returns (manifest: seq<Declaration>, root: seq<Layer>, r: Registered)
    ensures Problems(manifest, Keys(Walk(root, ""))) == [] && r in Served(root, "") && Defined(r, manifest)
    ensures r.key == KeyOf(DEVICE) && DeclarationOf(DEVICE) in manifest && DEVICE.access.SelfService?
    ensures forall cfg, w, v: Visit :: Admits(cfg, w, v, r.handler.guards) <==> PassesRest(SIGN_IN, v)
  {
    var sourceA, sourceB := SwappablePatterns();
    manifest := SwappableManifest();
    r := Registered(KeyOf(DEVICE), Handler(ChainFor(SIGN_IN), Some(SIGN_IN)));
    root := MisplacedPublicAnswers(manifest, SIGN_IN, DEVICE, sourceA, sourceB, r);
  }
}
