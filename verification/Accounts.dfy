/**
 * The administrator account row and the writes on it
 * (src/modules/admin-identity/repositories/admin-account.repository.ts).
 */
module Accounts {
  import opened Prelude

  datatype Status = Pending | Active | Suspended

  datatype Account = Account(
    status: Status,
    suspendedFrom: Option<Status>,
    suspendedBy: Option<AdminId>,
    activatedBy: Option<AdminId>,
    tier: nat,
    tierChangedBy: Option<AdminId>,
    passwordHash: nat,
    mfaSecret: Option<nat>,
    mfaEnrolled: bool,
    failedAttempts: nat,
    lockedUntil: Option<int>,
    lastLoginAt: Option<int>)

  type Rows = map<AdminId, Account>

  function NewAccount(tier: nat, passwordHash: nat, status: Option<Status>): Account {
    Account(if status.Some? then status.value else Pending,
      None, None, None, tier, None, passwordHash, None, false, 0, None, None)
  }

  function Updated(rows: Rows, id: AdminId, f: Account -> Account): Rows {
    if id in rows then rows[id := f(rows[id])] else rows
  }

  function LoginRecorded(a: Account, now: int): Account {
    a.(lastLoginAt := Some(now), failedAttempts := 0, lockedUntil := None)
  }

  function FailureRecorded(a: Account, failed: nat, until: Option<int>): Account {
    a.(failedAttempts := failed, lockedUntil := until)
  }

  function PasswordSet(a: Account, hash: nat): Account {
    a.(passwordHash := hash, failedAttempts := 0, lockedUntil := None)
  }

  function SecretStaged(a: Account, secret: nat): Account {
    a.(mfaSecret := Some(secret), mfaEnrolled := false)
  }

  function MfaActivated(a: Account): Account { a.(mfaEnrolled := true) }

  function MfaCleared(a: Account): Account { a.(mfaSecret := None, mfaEnrolled := false) }

  function SuspendedRow(a: Account, actor: AdminId, from: Status): Account {
    a.(status := Suspended, suspendedBy := Some(actor), suspendedFrom := Some(from))
  }

  /** `suspended_from_status` itself is left on the row. */
  function ReinstatedRow(a: Account, from: Status): Account {
    a.(status := if from == Suspended then Active else from, suspendedBy := None)
  }

  function ActivatedRow(a: Account, actor: AdminId): Account {
    a.(status := Active, activatedBy := Some(actor))
  }

  /** Suspension records the status it found, reinstatement puts the recorded one back. */
  function Suspension(a: Account, actor: AdminId): Account { SuspendedRow(a, actor, a.status) }

  function Reinstatement(a: Account): Account {
    ReinstatedRow(a, if a.suspendedFrom.Some? then a.suspendedFrom.value else Active)
  }

  /** Compare-and-set on `pending`. */
  function Activated(rows: Rows, id: AdminId, actor: AdminId): Rows {
    if id in rows && rows[id].status == Pending then rows[id := ActivatedRow(rows[id], actor)] else rows
  }

  class AccountRepository {
    var rows: Rows

    constructor ()
      ensures rows == map[]
    {
      rows := map[];
    }

    method Create(id: AdminId, tier: nat, passwordHash: nat, status: Option<Status>)
      requires id !in rows
      modifies this
      ensures rows == old(rows)[id := NewAccount(tier, passwordHash, status)]
    {
      rows := rows[id := Account(
        match status { case Some(s) => s case None => Pending },
        None, None, None, tier, None, passwordHash, None, false, 0, None, None)];
    }

    method FindById(id: AdminId) returns (a: Option<Account>)
      ensures a == if id in rows then Some(rows[id]) else None
    {
      if id in rows { return Some(rows[id]); }
      return None;
    }

    method RecordSuccessfulLogin(id: AdminId, now: int)
      modifies this
      ensures rows == Updated(old(rows), id, a => LoginRecorded(a, now))
    {
      if id in rows {
        rows := rows[id := rows[id].(lastLoginAt := Some(now), failedAttempts := 0, lockedUntil := None)];
      }
    }

    method RecordFailedAttempt(id: AdminId, failed: nat, until: Option<int>)
      modifies this
      ensures rows == Updated(old(rows), id, a => FailureRecorded(a, failed, until))
    {
      if id in rows {
        rows := rows[id := rows[id].(failedAttempts := failed, lockedUntil := until)];
      }
    }

    method SetPasswordHash(id: AdminId, hash: nat) returns (found: bool)
      modifies this
      ensures found == (id in old(rows))
      ensures rows == Updated(old(rows), id, a => PasswordSet(a, hash))
    {
      found := id in rows;
      if found {
        rows := rows[id := rows[id].(passwordHash := hash, failedAttempts := 0, lockedUntil := None)];
      }
    }

    method StageMfaSecret(id: AdminId, secret: nat)
      modifies this
      ensures rows == Updated(old(rows), id, a => SecretStaged(a, secret))
    {
      if id in rows { rows := rows[id := rows[id].(mfaSecret := Some(secret), mfaEnrolled := false)]; }
    }

    method ActivateMfa(id: AdminId)
      modifies this
      ensures rows == Updated(old(rows), id, MfaActivated)
    {
      if id in rows { rows := rows[id := rows[id].(mfaEnrolled := true)]; }
    }

    method ClearMfa(id: AdminId) returns (found: bool)
      modifies this
      ensures found == (id in old(rows))
      ensures rows == Updated(old(rows), id, MfaCleared)
    {
      found := id in rows;
      if found { rows := rows[id := rows[id].(mfaSecret := None, mfaEnrolled := false)]; }
    }

    /** Compare-and-set on the level the caller read. */
    method SetTier(id: AdminId, tier: nat, expected: nat, actor: AdminId) returns (hit: bool)
      modifies this
      ensures hit == (id in old(rows) && old(rows)[id].tier == expected)
      ensures rows ==
        if hit then old(rows)[id := old(rows)[id].(tier := tier, tierChangedBy := Some(actor))] else old(rows)
    {
      hit := id in rows && rows[id].tier == expected;
      if hit { rows := rows[id := rows[id].(tier := tier, tierChangedBy := Some(actor))]; }
    }

    /** Suspend with provenance (`actor` given), or reinstate to `from`. */
    method SetSuspension(id: AdminId, actor: Option<AdminId>, from: Status) returns (found: bool)
      modifies this
      ensures found == (id in old(rows))
      ensures rows == Updated(old(rows), id,
        a => if actor.Some? then SuspendedRow(a, actor.value, from) else ReinstatedRow(a, from))
    {
      found := id in rows;
      if found {
        var a := rows[id];
        match actor {
          case Some(who) =>
            rows := rows[id := a.(status := Suspended, suspendedBy := Some(who), suspendedFrom := Some(from))];
          case None =>
            var back := if from == Suspended then Active else from;
            rows := rows[id := a.(status := back, suspendedBy := None)];
        }
      }
    }

    /** Compare-and-set on `pending`: a second activation, or one of a suspended account, misses. */
    method Activate(id: AdminId, actor: AdminId) returns (hit: bool)
      modifies this
      ensures hit == (id in old(rows) && old(rows)[id].status == Pending)
      ensures rows == Activated(old(rows), id, actor)
    {
      hit := id in rows && rows[id].status == Pending;
      if hit { rows := rows[id := rows[id].(status := Active, activatedBy := Some(actor))]; }
    }
  }
}
