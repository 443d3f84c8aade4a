/**
 * Gate selection and authenticator together: who gets through the chain of a route, and when two
 * declarations let the same people through
 * (src/api/route-manifest.ts, src/api/middlewares/authenticate.middleware.ts).
 */
module AccessComposition {
  import opened Prelude
  import opened Settings
  import opened Tokens
  import opened Sessions
  import opened Accounts
  import opened AuthMachine
  import opened RouteManifest

  /**
   * One request: its credentials, the verdicts of the guards that look at neither identity nor
   * session (`passes`: rate limiters, CSRF, body schema), and the permissions of each tier.
   */
  datatype Visit = Visit(
    token: Option<Token>, holdsServiceToken: bool, passes: Guard -> bool, grants: nat -> set<string>, durable: bool)

  predicate Satisfies(granted: set<string>, names: seq<string>, all: bool) {
    if all then forall n :: n in names ==> n in granted else exists n :: n in names && n in granted
  }

  /** What a chain leaves behind: the world, and who the authenticator put on the request. */
  type Passage = Option<(World, Option<Identity>)>

  function PassOne(cfg: Config, w: World, who: Option<Identity>, v: Visit, g: Guard): Passage {
    match g
    case AuditProbe => Some((w, who))
    case RequireServiceToken => if v.holdsServiceToken then Some((w, who)) else None
    case RequireAdmin(gate) =>
      var s := Authenticate(cfg, w, v.token, gate, v.durable);
      if s.out.Done? then Some((s.world, Some(s.out.result))) else None
    case RequirePermissions(names, all) =>
      if who.Some? && Satisfies(v.grants(who.value.tier), names, all) then Some((w, who)) else None
    case _ => if v.passes(g) then Some((w, who)) else None
  }

  /** The guards of a chain, in order. */
  function Pass(cfg: Config, w: World, who: Option<Identity>, v: Visit, guards: seq<Guard>): Passage {
    if guards == [] then Some((w, who))
    else
      match Pass(cfg, w, who, v, guards[..|guards| - 1])
      case None => None
      case Some((w1, who1)) => PassOne(cfg, w1, who1, v, guards[|guards| - 1])
  }

  predicate Admits(cfg: Config, w: World, v: Visit, guards: seq<Guard>) { Pass(cfg, w, None, v, guards).Some? }

  // ── Who may reach a route, said without the gates ─────────────────────────

  /** A valid access token of a live session, for an account that exists and is not suspended. */
  predicate SignedIn(w: World, v: Visit) {
    && v.token.Some?
    && VerifyAccess(w.mint, v.token.value, w.now) == Accepted
    && Lookedup(w.store, w.now, v.token.value.sid).Live?
    && v.token.value.sub in w.accounts
    && w.accounts[v.token.value.sub].status != Suspended
  }

  function AccountOf(w: World, v: Visit): Account
    requires SignedIn(w, v)
  {
    w.accounts[v.token.value.sub]
  }

  function SessionOf(w: World, v: Visit): SessionRecord
    requires SignedIn(w, v)
  {
    Lookedup(w.store, w.now, v.token.value.sid).record
  }

  predicate MayReach(w: World, v: Visit, access: Access, key: Key) {
    match access
    case Public => true
    case ServiceToken => v.holdsServiceToken
    case MfaEnrolment => SignedIn(w, v)
    case SelfService =>
      && SignedIn(w, v) && !SessionOf(w, v).pendingMfaEnrolment
      && (AccountOf(w, v).status == Active || key in ONBOARDING_ROUTES)
    case Permission(names, all) =>
      && SignedIn(w, v) && !SessionOf(w, v).pendingMfaEnrolment
      && AccountOf(w, v).status == Active
      && Satisfies(v.grants(AccountOf(w, v).tier), names, all)
  }

  predicate PassesRest(d: Definition, v: Visit) {
    && (forall i: nat :: i < d.before ==> v.passes(Before(i)))
    && v.passes(RequireCsrfToken)
    && (d.validated ==> v.passes(Validate))
  }

  // ── The chain, part by part ───────────────────────────────────────────────

  lemma {:induction false} PassBoth(
    cfg: Config, w: World, who: Option<Identity>, v: Visit, a: seq<Guard>, b: seq<Guard>)
    ensures Pass(cfg, w, who, v, a + b) ==
      match Pass(cfg, w, who, v, a)
      case None => None
      case Some((w1, who1)) => Pass(cfg, w1, who1, v, b)
  {
    if b == [] {
      assert a + b == a;
    } else {
      PassBoth(cfg, w, who, v, a, b[..|b| - 1]);
      assert (a + b)[..|a + b| - 1] == a + b[..|b| - 1];
    }
  }

  lemma PassSingle(cfg: Config, w: World, who: Option<Identity>, v: Visit, g: Guard)
    ensures Pass(cfg, w, who, v, [g]) == PassOne(cfg, w, who, v, g)
  {
    assert [g][..0] == [];
  }

  function Befores(n: nat): seq<Guard> { seq(n, i requires 0 <= i < n => Before(i)) }

  lemma {:induction false} PassBefores(cfg: Config, w: World, who: Option<Identity>, v: Visit, n: nat)
    ensures Pass(cfg, w, who, v, Befores(n)) ==
      if forall i: nat :: i < n ==> v.passes(Before(i)) then Some((w, who)) else None
  {
    if n > 0 {
      PassBefores(cfg, w, who, v, n - 1);
      assert Befores(n)[..n - 1] == Befores(n - 1);
      assert (forall i: nat :: i < n ==> v.passes(Before(i)))
        <==> (forall i: nat :: i < n - 1 ==> v.passes(Before(i))) && v.passes(Before(n - 1));
    }
  }

  lemma PassOpening(cfg: Config, w: World, v: Visit, d: Definition)
    ensures Pass(cfg, w, None, v, Opening(d)) ==
      if forall i: nat :: i < d.before ==> v.passes(Before(i)) then Some((w, None)) else None
  {
    var probe: seq<Guard> := if d.audited then [AuditProbe] else [];
    PassSingle(cfg, w, None, v, AuditProbe);
    PassBoth(cfg, w, None, v, probe, Befores(d.before));
    PassBefores(cfg, w, None, v, d.before);
    assert Opening(d) == probe + Befores(d.before);
  }

  lemma PassClosing(cfg: Config, w: World, who: Option<Identity>, v: Visit, d: Definition)
    ensures Pass(cfg, w, who, v, Closing(d)).Some?
      <==> v.passes(RequireCsrfToken) && (d.validated ==> v.passes(Validate))
  {
    PassSingle(cfg, w, who, v, RequireCsrfToken);
    PassSingle(cfg, w, who, v, Validate);
    PassBoth(cfg, w, who, v, [RequireCsrfToken], if d.validated then [Validate] else []);
  }

  lemma AuthenticateIff(cfg: Config, w: World, v: Visit, gate: Gate)
    ensures var s := Authenticate(cfg, w, v.token, gate, v.durable);
      && (s.out.Done? <==>
            && SignedIn(w, v)
            && (AccountOf(w, v).status == Pending ==> gate.allowPendingActivation)
            && (SessionOf(w, v).pendingMfaEnrolment ==> gate.allowPendingMfa))
      && (s.out.Done? ==> s.out.result.tier == AccountOf(w, v).tier)
  {
  }

  lemma PassGate(cfg: Config, w: World, v: Visit, access: Access, key: Key)
    ensures Pass(cfg, w, None, v, GateFor(access, key)).Some? <==> MayReach(w, v, access, key)
  {
    match access {
      case Public =>
      case ServiceToken => PassSingle(cfg, w, None, v, RequireServiceToken);
      case SelfService =>
        AuthenticateIff(cfg, w, v, Gate(false, key in ONBOARDING_ROUTES));
        PassSingle(cfg, w, None, v, RequireAdmin(Gate(false, key in ONBOARDING_ROUTES)));
      case MfaEnrolment =>
        AuthenticateIff(cfg, w, v, Gate(true, true));
        PassSingle(cfg, w, None, v, RequireAdmin(Gate(true, true)));
      case Permission(names, all) => PassPermission(cfg, w, v, names, all, key);
    }
  }

  lemma PassPermission(cfg: Config, w: World, v: Visit, names: seq<string>, all: bool, key: Key)
    ensures Pass(cfg, w, None, v, GateFor(Permission(names, all), key)).Some?
      <==> MayReach(w, v, Permission(names, all), key)
  {
    var admin, permissions := RequireAdmin(Gate(false, false)), RequirePermissions(names, all);
    AuthenticateIff(cfg, w, v, Gate(false, false));
    PassBoth(cfg, w, None, v, [admin], [permissions]);
    assert [admin] + [permissions] == [admin, permissions];
    PassSingle(cfg, w, None, v, admin);
    var s := Authenticate(cfg, w, v.token, Gate(false, false), v.durable);
    if s.out.Done? {
      PassSingle(cfg, s.world, Some(s.out.result), v, permissions);
    }
  }

  /**
   * The chain `defineRoute` builds lets a request through to the handler exactly when its sender may
   * reach the route and the route's other guards pass.
   */
  lemma ChainIsExact(cfg: Config, w: World, v: Visit, d: Definition)
    ensures Admits(cfg, w, v, ChainFor(d)) <==> MayReach(w, v, d.access, KeyOf(d)) && PassesRest(d, v)
  {
    var gate := GateFor(d.access, KeyOf(d));
    PassBoth(cfg, w, None, v, Opening(d) + gate, Closing(d));
    PassBoth(cfg, w, None, v, Opening(d), gate);
    PassOpening(cfg, w, v, d);
    PassGate(cfg, w, v, d.access, KeyOf(d));
    var middle := Pass(cfg, w, None, v, Opening(d) + gate);
    if middle.Some? {
      PassClosing(cfg, middle.value.0, middle.value.1, v, d);
    }
  }

  // ── When two declarations let the same visits through ─────────────────────

  function Names(names: seq<string>): set<string> { set n | n in names }

  predicate SamePermissions(n: seq<string>, all: bool, m: seq<string>, every: bool) {
    Names(n) == Names(m) && (all == every || exists x :: x in n && Names(n) == {x})
  }

  /**
   * The same kind of access, for self-service on the same side of the onboarding list, for permissions
   * the same ones. An empty list of permissions, all of them required, asks no more than self-service.
   */
  predicate SameReach(a: Access, k: Key, b: Access, l: Key) {
    match (a, b)
    case (Public, Public) => true
    case (ServiceToken, ServiceToken) => true
    case (MfaEnrolment, MfaEnrolment) => true
    case (SelfService, SelfService) => k in ONBOARDING_ROUTES <==> l in ONBOARDING_ROUTES
    case (Permission(n, all), Permission(m, every)) => SamePermissions(n, all, m, every)
    case (SelfService, Permission(m, every)) => k !in ONBOARDING_ROUTES && m == [] && every
    case (Permission(n, all), SelfService) => l !in ONBOARDING_ROUTES && n == [] && all
    case _ => false
  }

  lemma SameSatisfies(n: seq<string>, all: bool, m: seq<string>, every: bool, granted: set<string>)
    requires SamePermissions(n, all, m, every)
    ensures Satisfies(granted, n, all) <==> Satisfies(granted, m, every)
  {
    assert forall x :: x in Names(n) <==> x in n;
    assert forall x :: x in Names(m) <==> x in m;
  }

  lemma SameReachHolds(w: World, v: Visit, a: Access, k: Key, b: Access, l: Key)
    requires SameReach(a, k, b, l)
    ensures MayReach(w, v, a, k) <==> MayReach(w, v, b, l)
  {
    if a.Permission? && b.Permission? && SignedIn(w, v) {
      SameSatisfies(a.permissions, a.all, b.permissions, b.all, v.grants(AccountOf(w, v).tier));
    }
  }

  /** Grants that satisfy one of two different demands and not the other. */
  lemma SeparatingGrants(n: seq<string>, all: bool, m: seq<string>, every: bool) returns (granted: set<string>)
    requires !SamePermissions(n, all, m, every)
    ensures Satisfies(granted, n, all) != Satisfies(granted, m, every)
  {
    if all && every {
      granted := if Satisfies(Names(n), m, true) then Names(m) else Names(n);
      assert Names(m) <= Names(n) && Names(n) <= Names(m) ==> Names(n) == Names(m);
    } else if !all && !every {
      var x :| x in Names(n) + Names(m) && !(x in Names(n) && x in Names(m));
      granted := {x};
    } else if all {
      granted := MixedGrants(n, m);
    } else {
      granted := MixedGrants(m, n);
    }
  }

  /** All of `n` against one of `m`. */
  lemma MixedGrants(n: seq<string>, m: seq<string>) returns (granted: set<string>)
    requires !(Names(n) == Names(m) && exists x :: x in n && Names(n) == {x})
    ensures Satisfies(granted, n, true) != Satisfies(granted, m, false)
  {
    if n == [] {
      granted := {};
    } else if Satisfies(Names(n), m, false) {
      var y :| y in Names(n) && y in m;
      granted := {y};
      if Satisfies({y}, n, true) {
        assert n[0] in n && Names(n) == {y};
        assert Names(m) != {y};
        var z :| z in m && z != y;
        granted := {z};
      }
    } else {
      granted := Names(n);
    }
  }

  /** A caller with these credentials whom every other guard lets through. */
  function Caller(token: Option<Token>, service: bool, granted: set<string>): Visit {
    Visit(token, service, (g: Guard) => true, (tier: nat) => granted, true)
  }

  predicate IsNewcomer(w: World, v: Visit, status: Status, owes: bool) {
    SignedIn(w, v) && AccountOf(w, v).status == status && SessionOf(w, v).pendingMfaEnrolment == owes
  }

  /** Whoever has just been created and signed in, under any configuration. */
  lemma Newcomer(cfg: Config, status: Status, owes: bool) returns (w: World, token: Token)
    requires cfg.Valid() && status != Suspended
    ensures Reachable(cfg, w)
    ensures forall granted :: IsNewcomer(w, Caller(Some(token), false, granted), status, owes)
  {
    var tier := if owes then cfg.mfaRequiredTier else cfg.mfaRequiredTier + 1;
    var create, login := EvCreateAccount(0, tier, 0, Some(status)), EvLogin(0, true, true);
    assert [create][..0] == [] && [create, login][..1] == [create];
    var born := Run(cfg, GENESIS, [create]);
    assert born == Apply(cfg, Run(cfg, GENESIS, []), create);
    assert born == GENESIS.(accounts := map[0 := NewAccount(tier, 0, Some(status))]);
    w := Run(cfg, GENESIS, [create, login]);
    assert w == Apply(cfg, born, login);
    token := Issue(cfg, born, 0, false, owes, true).1.access;
    assert w == Issue(cfg, born, 0, false, owes, true).0;
  }

  lemma GenesisIsReachable(cfg: Config)
    ensures Reachable(cfg, GENESIS)
  {
    assert Run(cfg, GENESIS, []) == GENESIS;
  }

  /** Different declarations are told apart by somebody, in a state the system can be in. */
  lemma Separated(cfg: Config, a: Access, k: Key, b: Access, l: Key) returns (w: World, v: Visit)
    requires cfg.Valid() && !SameReach(a, k, b, l)
    ensures Reachable(cfg, w) && (forall g :: v.passes(g)) && MayReach(w, v, a, k) != MayReach(w, v, b, l)
  {
    GenesisIsReachable(cfg);
    if a.Public? || b.Public? {
      w, v := GENESIS, Caller(None, false, {});
    } else if a.ServiceToken? || b.ServiceToken? {
      w, v := GENESIS, Caller(None, true, {});
    } else if a.MfaEnrolment? || b.MfaEnrolment? {
      var token;
      w, token := Newcomer(cfg, Active, true);
      v := Caller(Some(token), false, {});
      assert IsNewcomer(w, v, Active, true);
    } else {
      w, v := SeparatedInside(cfg, a, k, b, l);
    }
  }

  lemma NothingGranted(names: seq<string>, all: bool)
    ensures Satisfies({}, names, all) <==> names == [] && all
  {
    if names != [] { assert names[0] in names; }
  }

  lemma SeparatedInside(cfg: Config, a: Access, k: Key, b: Access, l: Key) returns (w: World, v: Visit)
    requires cfg.Valid() && !SameReach(a, k, b, l)
    requires (a.SelfService? || a.Permission?) && (b.SelfService? || b.Permission?)
    ensures Reachable(cfg, w) && (forall g :: v.passes(g)) && MayReach(w, v, a, k) != MayReach(w, v, b, l)
  {
    var token;
    if (a.SelfService? && k in ONBOARDING_ROUTES) != (b.SelfService? && l in ONBOARDING_ROUTES) {
      w, token := Newcomer(cfg, Pending, false);
      v := Caller(Some(token), false, {});
      assert IsNewcomer(w, v, Pending, false);
    } else {
      w, token := Newcomer(cfg, Active, false);
      var granted: set<string> := {};
      if a.Permission? && b.Permission? {
        granted := SeparatingGrants(a.permissions, a.all, b.permissions, b.all);
      } else if a.Permission? {
        NothingGranted(a.permissions, a.all);
      } else if b.Permission? {
        NothingGranted(b.permissions, b.all);
      }
      v := Caller(Some(token), false, granted);
      assert IsNewcomer(w, v, Active, false);
    }
  }

  /** Two declarations let the same visits through, in every reachable state, exactly in these cases. */
  lemma SameReachIff(cfg: Config, a: Access, k: Key, b: Access, l: Key)
    requires cfg.Valid()
    ensures (forall w: World, v: Visit :: Reachable(cfg, w) ==> (MayReach(w, v, a, k) <==> MayReach(w, v, b, l)))
      <==> SameReach(a, k, b, l)
  {
    if SameReach(a, k, b, l) {
      forall w: World, v: Visit ensures MayReach(w, v, a, k) <==> MayReach(w, v, b, l) {
        SameReachHolds(w, v, a, k, b, l);
      }
    } else {
      var w, v := Separated(cfg, a, k, b, l);
    }
  }
}
