/**
 * How many passwords the lockout lets anybody try, over whole runs of the machine
 * (src/modules/admin-identity/domain/lockout.service.ts with admin-auth.service.ts:191-239).
 */
module LockoutRuns {
  import opened Prelude
  import opened Settings
  import opened Lockout
  import opened Tokens
  import opened Accounts
  import opened AuthMachine
  import opened AuthRuns
  import opened AuthTheorems

  /** A wrong password for `a` that was actually compared. */
  predicate Guess(w: World, e: Event, a: AdminId) {
    e.EvLogin? && e.id == a && !e.ok && a in w.accounts && !Locked(w.lockouts, a, w.now)
  }

  /** A completed sign-in of `a`, which clears the counter and the lock. */
  predicate SignsIn(cfg: Config, w: World, e: Event, a: AdminId) {
    match e
    case EvLogin(id, ok, d) =>
      var out := Login(cfg, w, id, ok, d).out;
      id == a && out.Done? && !out.result.Challenged?
    case EvCompleteMfa(ch, ok, d) =>
      Held(w.challenges, ch, w.now) && w.challenges[ch].value == a && CompleteMfa(cfg, w, ch, ok, d).out.Done?
    case _ => false
  }

  /** A wrong second-factor code of `a` that was actually checked: counted, but never stopped by a lock. */
  predicate WrongCode(w: World, e: Event, a: AdminId) {
    && a in w.accounts && w.accounts[a].mfaSecret.Some?
    && match e
       case EvCompleteMfa(ch, ok, _) => !ok && Held(w.challenges, ch, w.now) && w.challenges[ch].value == a
       case EvActivateMfa(id, ok) => !ok && id == a && !w.accounts[a].mfaEnrolled
       case _ => false
  }

  function Guesses(cfg: Config, w: World, es: seq<Event>, a: AdminId): nat {
    if es == [] then 0
    else
      var front := es[..|es| - 1];
      Guesses(cfg, w, front, a) + if Guess(Run(cfg, w, front), es[|es| - 1], a) then 1 else 0
  }

  predicate NoSignIn(cfg: Config, w: World, es: seq<Event>, a: AdminId) {
    es == [] || (NoSignIn(cfg, w, es[..|es| - 1], a) && !SignsIn(cfg, Run(cfg, w, es[..|es| - 1]), es[|es| - 1], a))
  }

  predicate SameFor(l: Lockouts, l': Lockouts, a: AdminId) {
    && (a in l.failures <==> a in l'.failures) && (a in l.failures ==> l'.failures[a] == l.failures[a])
    && (a in l.locks <==> a in l'.locks) && (a in l.locks ==> l'.locks[a] == l.locks[a])
  }

  /** What one event did to the keys of one account. */
  predicate KeysMove(cfg: Config, w: World, e: Event, l': Lockouts, a: AdminId) {
    if Guess(w, e, a) then l' == AfterFailure(cfg, w.lockouts, a, w.now)
    else if SignsIn(cfg, w, e, a) then a !in l'.locks
    else SameFor(if WrongCode(w, e, a) then AfterFailure(cfg, w.lockouts, a, w.now) else w.lockouts, l', a)
  }

  lemma LoginKeys(cfg: Config, w: World, e: Event, a: AdminId)
    requires e.EvLogin?
    ensures KeysMove(cfg, w, e, Login(cfg, w, e.id, e.ok, e.durable).world.lockouts, a)
  {
  }

  lemma CompletionKeys(cfg: Config, w: World, e: Event, a: AdminId)
    requires e.EvCompleteMfa?
    ensures KeysMove(cfg, w, e, CompleteMfa(cfg, w, e.ch, e.ok, e.durable).world.lockouts, a)
  {
  }

  lemma AdmissionKeys(cfg: Config, w: World, t: Token, touch: bool, durable: bool)
    ensures Admission(cfg, w, t, touch, durable).world.lockouts == w.lockouts
  {
  }

  lemma RefreshKeys(cfg: Config, w: World, t: Token, durable: bool)
    ensures RefreshSession(cfg, w, t, durable).world.lockouts == w.lockouts
  {
    AdmissionKeys(cfg, w, t, false, durable);
  }

  lemma RequestKeys(cfg: Config, w: World, c: Option<Token>, gate: Gate, durable: bool)
    ensures Authenticate(cfg, w, c, gate, durable).world.lockouts == w.lockouts
  {
    if c.Some? { AdmissionKeys(cfg, w, c.value, true, durable); }
  }

  lemma OtherKeys(cfg: Config, w: World, e: Event, a: AdminId)
    requires !e.EvLogin? && !e.EvCompleteMfa? && !e.EvRefresh? && !e.EvRequest?
    ensures KeysMove(cfg, w, e, Apply(cfg, w, e).lockouts, a)
  {
  }

  lemma KeysOf(cfg: Config, w: World, e: Event, a: AdminId)
    ensures KeysMove(cfg, w, e, Apply(cfg, w, e).lockouts, a)
  {
    if e.EvLogin? { LoginKeys(cfg, w, e, a); }
    else if e.EvCompleteMfa? { CompletionKeys(cfg, w, e, a); }
    else if e.EvRefresh? { RefreshKeys(cfg, w, e.token, e.durable); }
    else if e.EvRequest? { RequestKeys(cfg, w, e.credential, e.gate, e.durable); }
    else { OtherKeys(cfg, w, e, a); }
  }

  lemma {:induction false} GuessesWithinBound(cfg: Config, w: World, es: seq<Event>, a: AdminId)
    requires cfg.Valid() && WorldInv(cfg, w) && NoSignIn(cfg, w, es, a)
    requires Run(cfg, w, es).now < w.now + cfg.lockSeconds
    ensures WithinBound(cfg, Run(cfg, w, es).lockouts, a, w.now, Guesses(cfg, w, es, a))
  {
    if es == [] {
      WindowOpens(cfg, w.lockouts, a, w.now);
    } else {
      var front, e := es[..|es| - 1], es[|es| - 1];
      var mid := Run(cfg, w, front);
      RunKeeps(cfg, w, front);
      StepKeeps(cfg, mid, e);
      GuessesWithinBound(cfg, w, front, a);
      KeysOf(cfg, mid, e, a);
      if Guess(mid, e, a) {
        ComparedGuess(cfg, mid.lockouts, a, mid.now, w.now, Guesses(cfg, w, front, a));
      } else {
        OtherFailure(cfg, mid.lockouts, a, a, mid.now, w.now, Guesses(cfg, w, front, a));
      }
    }
  }

  /**
   * From any reachable moment on, and however other events are mixed in, less than `lockSeconds`
   * of time without a sign-in allows at most max(MAX, 2*MAX - 2) compared wrong passwords.
   */
  lemma GuessesAreBounded(cfg: Config, w: World, es: seq<Event>, a: AdminId)
    requires cfg.Valid() && Reachable(cfg, w) && NoSignIn(cfg, w, es, a)
    requires Run(cfg, w, es).now < w.now + cfg.lockSeconds
    ensures Guesses(cfg, w, es, a) <= GuessBound(cfg)
  {
    ReachableIsSound(cfg, w);
    GuessesWithinBound(cfg, w, es, a);
  }

  // ── The bound is attained ─────────────────────────────────────────────────

  function Burst(a: AdminId, n: nat): seq<Event> {
    seq(n, _ => EvLogin(a, false, true))
  }

  predicate Counted(w: World, a: AdminId, k: nat) {
    a in w.accounts && !Locked(w.lockouts, a, w.now) && Attempts(w.lockouts, a, w.now) == k + 1
  }

  lemma {:induction false} BurstIsCompared(cfg: Config, w: World, a: AdminId, k: nat, n: nat)
    requires cfg.Valid() && Counted(w, a, k) && k + n <= cfg.maxAttempts
    ensures var w' := Run(cfg, w, Burst(a, n));
            && Guesses(cfg, w, Burst(a, n), a) == n && w'.now == w.now && a in w'.accounts
            && (k + n < cfg.maxAttempts ==> Counted(w', a, k + n))
            && (k == 0 && n > 0 ==>
                  a in w'.lockouts.failures && w'.lockouts.failures[a].deadline == w.now + cfg.lockSeconds)
            && (k > 0 ==>
                  a in w'.lockouts.failures && w'.lockouts.failures[a].deadline == w.lockouts.failures[a].deadline)
            && (k + n < cfg.maxAttempts ==> w'.lockouts.locks == w.lockouts.locks)
            && w'.accounts[a].mfaSecret == w.accounts[a].mfaSecret
            && w'.accounts[a].mfaEnrolled == w.accounts[a].mfaEnrolled
            && w'.accounts[a].status == w.accounts[a].status
            && NoSignIn(cfg, w, Burst(a, n), a)
  {
    if n > 0 {
      var front := Burst(a, n)[..n - 1];
      assert front == Burst(a, n - 1);
      BurstIsCompared(cfg, w, a, k, n - 1);
      assert Burst(a, n)[n - 1] == EvLogin(a, false, true);
    }
  }

  lemma {:induction false} RunInTwo(cfg: Config, w: World, es: seq<Event>, fs: seq<Event>, a: AdminId)
    ensures Run(cfg, w, es + fs) == Run(cfg, Run(cfg, w, es), fs)
    ensures Guesses(cfg, w, es + fs, a) == Guesses(cfg, w, es, a) + Guesses(cfg, Run(cfg, w, es), fs, a)
    ensures NoSignIn(cfg, w, es, a) && NoSignIn(cfg, Run(cfg, w, es), fs, a) ==> NoSignIn(cfg, w, es + fs, a)
  {
    if fs == [] {
      assert es + fs == es;
    } else {
      var front := fs[..|fs| - 1];
      assert (es + fs)[..|es + fs| - 1] == es + front;
      RunInTwo(cfg, w, es, front, a);
    }
  }

  /** For every threshold of two or more there is a reachable state and a run that meets the bound. */
  lemma BoundIsAttained(cfg: Config, a: AdminId) returns (w: World, es: seq<Event>)
    requires cfg.Valid() && 2 <= cfg.maxAttempts && 2 <= cfg.lockSeconds
    ensures Reachable(cfg, w) && NoSignIn(cfg, w, es, a)
    ensures Run(cfg, w, es).now < w.now + cfg.lockSeconds
    ensures Guesses(cfg, w, es, a) == GuessBound(cfg)
  {
    var born := [EvCreateAccount(a, 0, 0, None)];
    assert born[..0] == [];
    var w0 := Run(cfg, GENESIS, born);
    assert w0 == Apply(cfg, Run(cfg, GENESIS, []), born[0]);
    BurstIsCompared(cfg, w0, a, 0, 1);
    var w1 := Run(cfg, w0, Burst(a, 1));
    var wait := [Tick(cfg.lockSeconds - 1)];
    assert wait[..0] == [];
    w := Run(cfg, w1, wait);
    assert w == w1.(now := w1.now + cfg.lockSeconds - 1) by { assert Run(cfg, w1, []) == w1; }
    RunInTwo(cfg, GENESIS, born, Burst(a, 1), a);
    RunInTwo(cfg, GENESIS, born + Burst(a, 1), wait, a);
    assert Run(cfg, GENESIS, born + Burst(a, 1) + wait) == w;

    var first, tick, second := Burst(a, cfg.maxAttempts - 2), [Tick(1)], Burst(a, cfg.maxAttempts);
    BurstIsCompared(cfg, w, a, 1, cfg.maxAttempts - 2);
    var w2 := Run(cfg, w, first);
    assert tick[..0] == [];
    var w3 := Run(cfg, w2, tick);
    assert w3 == w2.(now := w2.now + 1) by { assert Run(cfg, w2, []) == w2; }
    BurstIsCompared(cfg, w3, a, 0, cfg.maxAttempts);
    RunInTwo(cfg, w, first, tick, a);
    RunInTwo(cfg, w, first + tick, second, a);
    assert Guesses(cfg, w2, tick, a) == 0;
    es := first + tick + second;
  }

  // ── When a lock lifts, the counter has gone ───────────────────────────────

  /** The one step that lets a counter outlive the lock: a wrong code, locked, with the counter expired. */
  predicate Restarts(cfg: Config, w: World, e: Event, a: AdminId) {
    && WrongCode(w, e, a) && cfg.maxAttempts > 1
    && Locked(w.lockouts, a, w.now) && !Held(w.lockouts.failures, a, w.now)
  }

  predicate NeverRestarts(cfg: Config, es: seq<Event>, a: AdminId) {
    es == []
    || (NeverRestarts(cfg, es[..|es| - 1], a) && !Restarts(cfg, Run(cfg, GENESIS, es[..|es| - 1]), es[|es| - 1], a))
  }

  /** At every moment of the run, a lock that is held is due to end no earlier than the counter. */
  ghost predicate LiftsOnFreshCounter(cfg: Config, es: seq<Event>, a: AdminId) {
    && (es == [] || LiftsOnFreshCounter(cfg, es[..|es| - 1], a))
    && var w := Run(cfg, GENESIS, es); LockOutlivesCounter(w.lockouts, a, w.now)
  }

  lemma LiftStep(cfg: Config, w: World, e: Event, l': Lockouts, a: AdminId, later: int)
    requires cfg.Valid() && Sound(cfg, w.lockouts, a, w.now) && LockOutlivesCounter(w.lockouts, a, w.now)
    requires KeysMove(cfg, w, e, l', a) && w.now <= later && (WrongCode(w, e, a) ==> later == w.now)
    ensures LockOutlivesCounter(l', a, later) <==> !Restarts(cfg, w, e, a)
  {
    if Guess(w, e, a) || WrongCode(w, e, a) {
      LockOutlivesCounterIff(cfg, w.lockouts, a, w.now);
    }
  }

  /**
   * Over every run: a lock of `a` is never due to end before its counter exactly when no wrong code of
   * `a` is counted while `a` is locked and its counter has expired, with a threshold above one.
   */
  lemma {:induction false} LockLiftsOnFreshCounter(cfg: Config, es: seq<Event>, a: AdminId)
    requires cfg.Valid()
    ensures LiftsOnFreshCounter(cfg, es, a) <==> NeverRestarts(cfg, es, a)
  {
    if es != [] {
      var front, e := es[..|es| - 1], es[|es| - 1];
      var w := Run(cfg, GENESIS, front);
      LockLiftsOnFreshCounter(cfg, front, a);
      if LiftsOnFreshCounter(cfg, front, a) {
        assert LockOutlivesCounter(w.lockouts, a, w.now);
        RunKeeps(cfg, GENESIS, front);
        KeysOf(cfg, w, e, a);
        StepKeeps(cfg, w, e);
        LiftStep(cfg, w, e, Apply(cfg, w, e).lockouts, a, Apply(cfg, w, e).now);
      }
    }
  }

  lemma TakesStep(cfg: Config, es: seq<Event>, e: Event) returns (es': seq<Event>, w: World)
    ensures es' == es + [e] && w == Run(cfg, GENESIS, es') == Apply(cfg, Run(cfg, GENESIS, es), e)
  {
    es' := es + [e];
    RunMore(cfg, es, e);
    w := Run(cfg, GENESIS, es');
  }

  /** An account that signed in and enrolled. */
  lemma EnrolledAccount(cfg: Config, a: AdminId) returns (es: seq<Event>, w: World)
    requires cfg.Valid()
    ensures w == Run(cfg, GENESIS, es) && w.now == 0 && Counted(w, a, 0) && a !in w.lockouts.locks
    ensures w.accounts[a].mfaEnrolled && w.accounts[a].mfaSecret.Some? && w.accounts[a].status == Active
  {
    var issued;
    es, w, issued := FirstSignIn(cfg, a);
    es, w := TakesStep(cfg, es, EvEnrolMfa(a, 0));
    es, w := TakesStep(cfg, es, EvActivateMfa(a, true));
  }

  /** One failure short of the lock, with a challenge opened one second before the counter expires. */
  lemma AlmostLocked(cfg: Config, a: AdminId) returns (es: seq<Event>, w: World, ch: nat)
    requires cfg.Valid() && 2 <= cfg.maxAttempts
    ensures w == Run(cfg, GENESIS, es) && w.now == cfg.lockSeconds - 1
    ensures Counted(w, a, cfg.maxAttempts - 1) && a !in w.lockouts.locks
    ensures a in w.lockouts.failures && w.lockouts.failures[a].deadline == cfg.lockSeconds
    ensures ch in w.challenges && w.challenges[ch] == Entry(a, w.now + CHALLENGE_TTL)
    ensures w.accounts[a].mfaSecret.Some?
  {
    es, w := EnrolledAccount(cfg, a);
    BurstIsCompared(cfg, w, a, 0, cfg.maxAttempts - 1);
    RunInTwo(cfg, GENESIS, es, Burst(a, cfg.maxAttempts - 1), a);
    es := es + Burst(a, cfg.maxAttempts - 1);
    w := Run(cfg, GENESIS, es);
    es, w := TakesStep(cfg, es, Tick(cfg.lockSeconds - 1));
    ch := w.mint.next;
    es, w := TakesStep(cfg, es, EvLogin(a, true, true));
  }

  /**
   * That step can happen, for every threshold and lock of two or more: a run reaches a state where a
   * wrong code on a held challenge leaves the counter outliving the lock.
   */
  lemma CounterCanOutliveLock(cfg: Config, a: AdminId) returns (es: seq<Event>, w: World, ch: nat)
    requires cfg.Valid() && 2 <= cfg.maxAttempts && 2 <= cfg.lockSeconds
    ensures w == Run(cfg, GENESIS, es) && Held(w.challenges, ch, w.now) && w.challenges[ch].value == a
    ensures Locked(w.lockouts, a, w.now) && LockOutlivesCounter(w.lockouts, a, w.now)
    ensures var w' := Apply(cfg, w, EvCompleteMfa(ch, false, true));
      Locked(w'.lockouts, a, w'.now) && w'.lockouts.locks[a] < w'.lockouts.failures[a].deadline
  {
    es, w, ch := AlmostLocked(cfg, a);
    es, w := TakesStep(cfg, es, EvLogin(a, false, true));
    es, w := TakesStep(cfg, es, Tick(1));
  }
}
