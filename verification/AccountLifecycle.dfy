/**
 * Pending, active, suspended: who lets an administrator in, and what suspension puts back
 * (src/modules/administrators/domain/activation.service.ts, applySuspension and applyReinstatement
 * in src/modules/administrators/domain/administrator.service.ts, and the account repository).
 */
module AccountLifecycle {
  import opened Prelude
  import opened Accounts

  datatype ActivationResult =
    | NowActive(account: Account)
    | AlreadyActive(account: Account)
    | NotFound | OwnAccount | SuspendedInstead | Incomplete | Conflict

  /** The transaction: re-read, re-check, compare-and-set. */
  function Committed(rows: Rows, actor: AdminId, id: AdminId, ready: bool): (Rows, ActivationResult) {
    if id !in rows then (rows, NotFound)
    else if !ready then (rows, Incomplete)
    else if rows[id].status != Pending then (rows, Conflict)
    else
      var after := Activated(rows, id, actor);
      (after, NowActive(after[id]))
  }

  /** `meanwhile` is what other writers do between the checks and the transaction. */
  function Activation(
    rows: Rows, actor: AdminId, id: AdminId, readyBefore: bool, meanwhile: Rows -> Rows, readyInside: bool
  ): (Rows, ActivationResult) {
    if id !in rows then (rows, NotFound)
    else if id == actor then (rows, OwnAccount)
    else if rows[id].status == Active then (rows, AlreadyActive(rows[id]))
    else if rows[id].status == Suspended then (rows, SuspendedInstead)
    else if !readyBefore then (rows, Incomplete)
    else Committed(meanwhile(rows), actor, id, readyInside)
  }

  class ActivationService {
    const accounts: AccountRepository

    constructor (accounts: AccountRepository)
      ensures this.accounts == accounts
    {
      this.accounts := accounts;
    }

    method ActivateAdministrator(
      actor: AdminId, id: AdminId, readyBefore: bool, meanwhile: Rows -> Rows, readyInside: bool)
      returns (out: ActivationResult)
      modifies accounts
      ensures (accounts.rows, out) == Activation(old(accounts.rows), actor, id, readyBefore, meanwhile, readyInside)
    {
      var target := accounts.FindById(id);
      if target.None? {
        return NotFound;
      }
      if id == actor {
        return OwnAccount;
      }
      if target.value.status == Active {
        return AlreadyActive(target.value);
      }
      if target.value.status == Suspended {
        return SuspendedInstead;
      }
      if !readyBefore {
        return Incomplete;
      }
      accounts.rows := meanwhile(accounts.rows);
      var current := accounts.FindById(id);
      if current.None? {
        return NotFound;
      }
      if !readyInside {
        return Incomplete;
      }
      var hit := accounts.Activate(id, actor);
      if !hit {
        return Conflict;
      }
      out := NowActive(accounts.rows[id]);
    }

    method ApplySuspension(actor: AdminId, id: AdminId) returns (found: bool)
      modifies accounts
      ensures found == (id in old(accounts.rows))
      ensures accounts.rows == Updated(old(accounts.rows), id, (a: Account) => Suspension(a, actor))
    {
      var current := accounts.FindById(id);
      if current.None? {
        return false;
      }
      found := accounts.SetSuspension(id, Some(actor), current.value.status);
    }

    method ApplyReinstatement(id: AdminId) returns (found: bool)
      modifies accounts
      ensures found == (id in old(accounts.rows))
      ensures accounts.rows == Updated(old(accounts.rows), id, Reinstatement)
    {
      var current := accounts.FindById(id);
      if current.None? {
        return false;
      }
      found := accounts.SetSuspension(id, None,
        if current.value.suspendedFrom.Some? then current.value.suspendedFrom.value else Active);
    }
  }

  /**
   * Whatever happens between the checks and the transaction, activation turns only a pending,
   * complete, existing account active, never the caller's own, and touches no other row.
   */
  lemma OnlyPendingIsActivated(
    rows: Rows, actor: AdminId, id: AdminId, readyBefore: bool, meanwhile: Rows -> Rows, readyInside: bool)
    ensures var (after, out) := Activation(rows, actor, id, readyBefore, meanwhile, readyInside);
      && (out.NowActive? ==>
            && actor != id && readyInside && id in meanwhile(rows) && meanwhile(rows)[id].status == Pending
            && after == meanwhile(rows)[id := out.account]
            && out.account == meanwhile(rows)[id].(status := Active, activatedBy := Some(actor)))
      && (!out.NowActive? ==> after == rows || after == meanwhile(rows))
  {
  }

  /** Pending and ready at both looks, and somebody else's: still there and still so inside the transaction. */
  predicate MayActivate(
    rows: Rows, actor: AdminId, id: AdminId, readyBefore: bool, meanwhile: Rows -> Rows, readyInside: bool)
  {
    && id in rows && id != actor && rows[id].status == Pending && readyBefore
    && id in meanwhile(rows) && meanwhile(rows)[id].status == Pending && readyInside
  }

  /** Such an account does become active, and each refusal names what stood in the way. */
  lemma ActivationAnswers(
    rows: Rows, actor: AdminId, id: AdminId, readyBefore: bool, meanwhile: Rows -> Rows, readyInside: bool)
    ensures var (after, out) := Activation(rows, actor, id, readyBefore, meanwhile, readyInside);
      var asked := id in rows && id != actor && rows[id].status == Pending && readyBefore;
      && (out.NowActive? <==> MayActivate(rows, actor, id, readyBefore, meanwhile, readyInside))
      && (out == NotFound <==> id !in rows || (asked && id !in meanwhile(rows)))
      && (out == OwnAccount <==> id in rows && id == actor)
      && (out.AlreadyActive? <==> id in rows && id != actor && rows[id].status == Active)
      && (out == SuspendedInstead <==> id in rows && id != actor && rows[id].status == Suspended)
      && (out == Conflict <==>
            asked && id in meanwhile(rows) && readyInside && meanwhile(rows)[id].status != Pending)
  {
  }

  // ── Runs of committed writes ──────────────────────────────────────────────

  datatype Act =
    | Create(id: AdminId, status: Option<Status>)
    | Activate(actor: AdminId, id: AdminId, ready: bool)
    | Suspend(actor: AdminId, id: AdminId)
    | Reinstate(id: AdminId)

  function Apply(rows: Rows, act: Act): Rows {
    match act
    case Create(id, status) => if id in rows then rows else rows[id := NewAccount(3, 0, status)]
    case Activate(actor, id, ready) => if actor == id then rows else Committed(rows, actor, id, ready).0
    case Suspend(actor, id) => Updated(rows, id, (a: Account) => Suspension(a, actor))
    case Reinstate(id) => Updated(rows, id, Reinstatement)
  }

  function Run(acts: seq<Act>): Rows {
    if acts == [] then map[] else Apply(Run(acts[..|acts| - 1]), acts[|acts| - 1])
  }

  /** A committed activation of `id`. */
  predicate Admits(rows: Rows, act: Act, id: AdminId) {
    act.Activate? && act.id == id && act.actor != id && Committed(rows, act.actor, id, act.ready).1.NowActive?
  }

  /** The activations of `id` that committed. */
  function Activations(acts: seq<Act>, id: AdminId): seq<AdminId> {
    if acts == [] then []
    else
      var before, last := acts[..|acts| - 1], acts[|acts| - 1];
      Activations(before, id) + if Admits(Run(before), last, id) then [last.actor] else []
  }

  predicate CreatedActive(acts: seq<Act>, id: AdminId) {
    acts != [] &&
    var before, last := acts[..|acts| - 1], acts[|acts| - 1];
    CreatedActive(before, id)
    || (last.Create? && last.id == id && id !in Run(before) && last.status == Some(Active))
  }

  /** Somebody decided to let this administrator in. */
  predicate LetIn(acts: seq<Act>, id: AdminId) { CreatedActive(acts, id) || Activations(acts, id) != [] }

  /** At every moment of the run, an active account had been let in. */
  predicate NeverSlips(acts: seq<Act>, id: AdminId) {
    && (acts == [] || NeverSlips(acts[..|acts| - 1], id))
    && (id in Run(acts) && Run(acts)[id].status == Active ==> LetIn(acts, id))
  }

  /** Every account is created pending or active. */
  predicate Sane(acts: seq<Act>) {
    forall a :: a in acts && a.Create? ==> a.status != Some(Suspended)
  }

  /** Reinstating this account, not yet let in, always finds it suspended from pending. */
  predicate ReinstatesPending(acts: seq<Act>, id: AdminId) {
    acts == [] ||
    var before, last := acts[..|acts| - 1], acts[|acts| - 1];
    && ReinstatesPending(before, id)
    && (last.Reinstate? && last.id == id && id in Run(before) && !LetIn(before, id) ==>
          Run(before)[id].suspendedFrom == Some(Pending))
  }

  lemma {:induction false} NotLetInRow(acts: seq<Act>, id: AdminId)
    requires NeverSlips(acts, id) && !LetIn(acts, id) && id in Run(acts)
    ensures Run(acts)[id].suspendedFrom != Some(Active) && Run(acts)[id].activatedBy.None?
  {
    if acts != [] && id in Run(acts[..|acts| - 1]) {
      NotLetInRow(acts[..|acts| - 1], id);
    }
  }

  /**
   * Exactly when "active only if let in" holds: every reinstatement of an account nobody has let
   * in must find `pending` in `suspended_from_status`. A missing value, or `suspended` from a
   * second suspension, reinstates to active.
   */
  lemma {:induction false} NeverSlipsIff(acts: seq<Act>, id: AdminId)
    ensures NeverSlips(acts, id) <==> ReinstatesPending(acts, id)
  {
    if acts != [] {
      var before, last := acts[..|acts| - 1], acts[|acts| - 1];
      NeverSlipsIff(before, id);
      if NeverSlips(before, id) && id in Run(before) && !LetIn(before, id) {
        NotLetInRow(before, id);
      }
    }
  }

  // ── Runs that suspend and reinstate in turn ───────────────────────────────

  /** A suspension hits an account that is not suspended, a reinstatement one that is. */
  predicate InTurn(acts: seq<Act>, id: AdminId) {
    acts == [] ||
    var before, last := acts[..|acts| - 1], acts[|acts| - 1];
    && InTurn(before, id)
    && (last.Suspend? && last.id == id && id in Run(before) ==> Run(before)[id].status != Suspended)
    && (last.Reinstate? && last.id == id && id in Run(before) ==> Run(before)[id].status == Suspended)
  }

  /** What the row and the run agree on while suspensions are in turn. */
  predicate RowTellsRun(acts: seq<Act>, id: AdminId) {
    id in Run(acts) ==>
      var a := Run(acts)[id];
      var standing := if a.status == Suspended then a.suspendedFrom else Some(a.status);
      && standing == Some(if LetIn(acts, id) then Active else Pending)
      && a.activatedBy == if Activations(acts, id) == [] then None else Some(Activations(acts, id)[0])
  }

  lemma {:induction false} NothingBeforeCreation(acts: seq<Act>, id: AdminId)
    requires id !in Run(acts)
    ensures !LetIn(acts, id)
  {
    if acts != [] {
      NothingBeforeCreation(acts[..|acts| - 1], id);
    }
  }

  /**
   * With suspensions in turn: an account is active, or suspended from active, exactly when it was
   * created active or activated; it is activated at most once, and `activated_by` names who did.
   */
  lemma {:induction false} StatusIsProvenance(acts: seq<Act>, id: AdminId)
    requires InTurn(acts, id) && Sane(acts)
    ensures RowTellsRun(acts, id) && |Activations(acts, id)| <= 1
    ensures NeverSlips(acts, id)
  {
    if acts != [] {
      var before, last := acts[..|acts| - 1], acts[|acts| - 1];
      assert acts == before + [last];
      assert Sane(before) by {
        forall a | a in before && a.Create? ensures a.status != Some(Suspended) { assert a in acts; }
      }
      StatusIsProvenance(before, id);
      if id !in Run(before) {
        NothingBeforeCreation(before, id);
      }
      assert last in acts;
    }
  }

  /** Suspending and reinstating puts the status back exactly when the account was not suspended already. */
  lemma SuspensionRestoresIff(a: Account, actor: AdminId)
    ensures Reinstatement(Suspension(a, actor)).status == a.status <==> a.status != Suspended
  {
  }

  /** Suspended twice, then reinstated: a pending administrator is active, activated by nobody. */
  lemma SuspendedTwiceSlips(id: AdminId, actor: AdminId)
    ensures var acts := [Create(id, None), Suspend(actor, id), Suspend(actor, id), Reinstate(id)];
      id in Run(acts) && Run(acts)[id].status == Active && Run(acts)[id].activatedBy.None?
  {
    var a, b, c, d := Create(id, None), Suspend(actor, id), Suspend(actor, id), Reinstate(id);
    assert [a, b, c, d][..3] == [a, b, c] && [a, b, c][..2] == [a, b] && [a, b][..1] == [a] && [a][..0] == [];
    assert Run([a]) == map[id := NewAccount(3, 0, None)];
    assert Run([a, b])[id].status == Suspended && Run([a, b, c])[id].suspendedFrom == Some(Suspended);
  }

  /** Reinstating an account that was never suspended makes it active too. */
  lemma ReinstatedUnsuspendedSlips(id: AdminId)
    ensures var acts := [Create(id, None), Reinstate(id)];
      id in Run(acts) && Run(acts)[id].status == Active && Run(acts)[id].activatedBy.None?
  {
    var a, b := Create(id, None), Reinstate(id);
    assert [a, b][..1] == [a] && [a][..0] == [];
    assert Run([a]) == map[id := NewAccount(3, 0, None)];
  }

  /** `suspended_from_status` outlives reinstatement: reinstating twice returns an activated account to pending. */
  lemma ReinstatedTwiceDemotes(a: Account, suspender: AdminId, activator: AdminId)
    requires a.status == Pending
    ensures var back := Reinstatement(Suspension(a, suspender));
      back.status == Pending && Reinstatement(ActivatedRow(back, activator)).status == Pending
  {
  }
}
