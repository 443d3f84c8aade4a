/**
 * Per-account lockout (src/modules/admin-identity/domain/lockout.service.ts): a failure counter and
 * a lock, two keys with deadlines, and the bound they put on password guesses.
 */
module Lockout {
  import opened Prelude
  import opened Settings

  datatype Lockouts = Lockouts(failures: map<AdminId, Entry<nat>>, locks: map<AdminId, int>)

  datatype LockState = LockState(locked: bool, retryAfterSeconds: int, failedAttempts: nat)

  predicate Locked(l: Lockouts, a: AdminId, now: int) {
    a in l.locks && now < l.locks[a]
  }

  function StateOf(l: Lockouts, a: AdminId, now: int): LockState {
    LockState(
      Locked(l, a, now),
      if Locked(l, a, now) then l.locks[a] - now else 0,
      if Held(l.failures, a, now) then l.failures[a].value else 0)
  }

  /** INCR: a missing or expired counter restarts at one. */
  function Attempts(l: Lockouts, a: AdminId, now: int): nat {
    if Held(l.failures, a, now) then l.failures[a].value + 1 else 1
  }

  function AfterFailure(cfg: Config, l: Lockouts, a: AdminId, now: int): Lockouts {
    var n := Attempts(l, a, now);
    var deadline := if n == 1 then now + cfg.lockSeconds else l.failures[a].deadline;
    Lockouts(
      l.failures[a := Entry(n, deadline)],
      if n >= cfg.maxAttempts then l.locks[a := now + cfg.lockSeconds] else l.locks)
  }

  function Cleared(l: Lockouts, a: AdminId): Lockouts {
    Lockouts(l.failures - {a}, l.locks - {a})
  }

  class LockoutService {
    const cfg: Config
    var failures: map<AdminId, Entry<nat>>
    var locks: map<AdminId, int>

    constructor (cfg: Config)
      ensures this.cfg == cfg && View() == Lockouts(map[], map[])
    {
      this.cfg, failures, locks := cfg, map[], map[];
    }

    function View(): Lockouts reads this { Lockouts(failures, locks) }

    method GetLockState(now: int, a: AdminId) returns (s: LockState)
      ensures s == StateOf(View(), a, now)
      ensures s.locked ==> 0 < s.retryAfterSeconds && locks[a] == now + s.retryAfterSeconds
      ensures s.failedAttempts + 1 == Attempts(View(), a, now)
    {
      var lockTtl := if a in locks then locks[a] - now else -2;
      var failed := if Held(failures, a, now) then failures[a].value else 0;
      s := LockState(lockTtl > 0, if lockTtl > 0 then lockTtl else 0, failed);
    }

    method RecordFailure(now: int, a: AdminId) returns (s: LockState)
      requires cfg.Valid()
      modifies this
      ensures View() == AfterFailure(cfg, old(View()), a, now)
      ensures s.locked == (Attempts(old(View()), a, now) >= cfg.maxAttempts)
      ensures s.retryAfterSeconds == (if s.locked then cfg.lockSeconds else 0)
      ensures s.failedAttempts == Attempts(old(View()), a, now)
    {
      var attempts := if Held(failures, a, now) then failures[a].value + 1 else 1;
      var deadline := if attempts == 1 then now + cfg.lockSeconds else failures[a].deadline;
      failures := failures[a := Entry(attempts, deadline)];
      if attempts >= cfg.maxAttempts {
        locks := locks[a := now + cfg.lockSeconds];
        return LockState(true, cfg.lockSeconds, attempts);
      }
      return LockState(false, 0, attempts);
    }

    method ClearFailures(a: AdminId)
      modifies this
      ensures View() == Cleared(old(View()), a)
    {
      failures := failures - {a};
      locks := locks - {a};
    }
  }

  // ── The bound on guesses ──────────────────────────────────────────────────

  /** What every reachable pair of keys satisfies, for one account. */
  ghost predicate Sound(cfg: Config, l: Lockouts, a: AdminId, now: int) {
    && (a in l.failures ==>
      && 1 <= l.failures[a].value
      && l.failures[a].deadline <= now + cfg.lockSeconds
      && (l.failures[a].value >= cfg.maxAttempts ==> a in l.locks && l.failures[a].deadline <= l.locks[a]))
    && (a in l.locks ==> a in l.failures)
    && (Locked(l, a, now) && !Held(l.failures, a, now) ==> l.locks[a] < now + cfg.lockSeconds)
    && (a in l.locks ==> l.locks[a] <= now + cfg.lockSeconds)
  }

  function GuessBound(cfg: Config): int {
    Max(cfg.maxAttempts, 2 * cfg.maxAttempts - 2)
  }

  /**
   * `c` wrong passwords were compared since `t`, and what the keys say about how many more there
   * may be before `t + lockSeconds`: none while locked through the window, else as many as the
   * counter of the running epoch still allows.
   */
  ghost predicate WithinBound(cfg: Config, l: Lockouts, a: AdminId, t: int, c: nat) {
    && c <= GuessBound(cfg)
    && (a !in l.failures ==> c == 0)
    && (a in l.failures ==>
      var f := l.failures[a];
      || (a in l.locks && t + cfg.lockSeconds <= l.locks[a])
      || (if f.deadline - cfg.lockSeconds < t
          then (f.value >= cfg.maxAttempts && c == 0) || (f.value < cfg.maxAttempts && c <= f.value - 1)
          else f.value < cfg.maxAttempts && c <= Max(0, cfg.maxAttempts - 2) + f.value))
  }

  lemma SoundAfterFailure(cfg: Config, l: Lockouts, a: AdminId, b: AdminId, now: int)
    requires cfg.Valid() && Sound(cfg, l, a, now)
    ensures Sound(cfg, AfterFailure(cfg, l, b, now), a, now)
  {
  }

  lemma SoundLater(cfg: Config, l: Lockouts, a: AdminId, now: int, later: int)
    requires Sound(cfg, l, a, now) && now <= later
    ensures Sound(cfg, l, a, later)
  {
  }

  lemma WindowOpens(cfg: Config, l: Lockouts, a: AdminId, t: int)
    requires cfg.Valid() && Sound(cfg, l, a, t)
    ensures WithinBound(cfg, l, a, t, 0)
  {
  }

  /** A wrong password compared inside the window: the attempt was not locked out. */
  lemma ComparedGuess(cfg: Config, l: Lockouts, a: AdminId, now: int, t: int, c: nat)
    requires cfg.Valid() && Sound(cfg, l, a, now) && WithinBound(cfg, l, a, t, c)
    requires t <= now < t + cfg.lockSeconds && !Locked(l, a, now)
    ensures WithinBound(cfg, AfterFailure(cfg, l, a, now), a, t, c + 1)
  {
  }

  /** A failure counted by another path (a wrong second factor) never loosens the bound. */
  lemma OtherFailure(cfg: Config, l: Lockouts, a: AdminId, b: AdminId, now: int, t: int, c: nat)
    requires cfg.Valid() && Sound(cfg, l, a, now) && WithinBound(cfg, l, a, t, c)
    requires t <= now < t + cfg.lockSeconds
    ensures WithinBound(cfg, AfterFailure(cfg, l, b, now), a, t, c)
  {
  }

  // ── When a lock lifts ─────────────────────────────────────────────────────

  /** The running lock ends no earlier than the counter behind it. */
  ghost predicate LockOutlivesCounter(l: Lockouts, a: AdminId, now: int) {
    Locked(l, a, now) ==> a in l.failures && l.failures[a].deadline <= l.locks[a]
  }

  /**
   * A recorded failure keeps the lock at least as long as the counter, except in one case: the
   * failure arrives while locked, after the counter expired, and is not itself enough to lock.
   * The login path never records a failure while locked; the second-factor paths do.
   */
  lemma LockOutlivesCounterIff(cfg: Config, l: Lockouts, a: AdminId, now: int)
    requires cfg.Valid() && Sound(cfg, l, a, now) && LockOutlivesCounter(l, a, now)
    ensures LockOutlivesCounter(AfterFailure(cfg, l, a, now), a, now)
       <==> !(Locked(l, a, now) && !Held(l.failures, a, now) && cfg.maxAttempts > 1)
  {
    if Locked(l, a, now) && !Held(l.failures, a, now) && cfg.maxAttempts > 1 {
      var after := AfterFailure(cfg, l, a, now);
      assert after.failures[a].deadline == now + cfg.lockSeconds;
    }
  }
}
