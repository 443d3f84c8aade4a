/**
 * The money rows of the activity feed (toEarningActivity and toPayoutActivity in
 * src/modules/accounts/read-models/account.dto.ts) against the balances they report.
 *
 * The balances and the ledger are written by another service; each step below moves them as the
 * comments and the API guide of this repository state it. `debt` is `clawback_balance`, which is not
 * part of the total: while any is owed, whatever comes in to the available balance pays it first.
 */
module FeedConservation {
  datatype EntryType =
    | Hold | Release | Reversal | ReserveHold | ReserveRelease
    | Clawback | ClawbackRecovery | ClawbackWriteOff | OtherEntry(name: string)

  datatype EarningRow = EarningRow(entryType: EntryType, amount: nat)

  datatype PayoutStatus = Requested | Processing | Paid | Rejected | Failed

  datatype PayoutRow = PayoutRow(amount: nat, status: PayoutStatus)

  datatype Direction = In | Out | Within

  datatype Activity = Activity(direction: Direction, amount: nat)

  function ToEarningActivity(row: EarningRow): Activity {
    var direction :=
      match row.entryType
      case Hold => In
      case Release => Within
      case Reversal => Out
      case ReserveHold => Within
      case ReserveRelease => Within
      case Clawback => Out
      case ClawbackRecovery => Out
      case ClawbackWriteOff => Within
      case OtherEntry(_) => Within;
    Activity(direction, row.amount)
  }

  /** Out only once paid. */
  function ToPayoutActivity(row: PayoutRow): Activity {
    Activity(if row.status == Paid then Out else Within, row.amount)
  }

  // ── The feed total ────────────────────────────────────────────────────────

  function Signed(a: Activity): int {
    match a.direction
    case In => a.amount as int
    case Out => -(a.amount as int)
    case Within => 0
  }

  function EarningsNet(rows: seq<EarningRow>): int {
    if rows == [] then 0 else EarningsNet(rows[..|rows| - 1]) + Signed(ToEarningActivity(rows[|rows| - 1]))
  }

  function PayoutsNet(rows: seq<PayoutRow>): int {
    if rows == [] then 0 else PayoutsNet(rows[..|rows| - 1]) + Signed(ToPayoutActivity(rows[|rows| - 1]))
  }

  // ── The balances ──────────────────────────────────────────────────────────

  datatype Account = Account(
    pending: int, available: nat, reserve: int, requested: int, debt: nat,
    ledger: seq<EarningRow>, payouts: seq<PayoutRow>)

  function Total(a: Account): int { a.pending + a.available + a.reserve + a.requested }

  /** Σ in − Σ out over the earning and payout rows of the feed. */
  function FeedNet(a: Account): int { EarningsNet(a.ledger) + PayoutsNet(a.payouts) }

  datatype Step =
    | HoldShare(amount: nat)
    /** To available, or to the debt first. */
    | ReleaseShare(amount: nat)
    | ReverseShare(amount: nat)
    | MoveToReserve(amount: nat)
    /** As a release. */
    | ReturnFromReserve(amount: nat)
    /** A customer refund: from escrow, then available; what neither covers becomes debt. */
    | TakeBack(fromPending: nat, fromAvailable: nat, toDebt: nat)
    /** Debt forgiven, at most what is owed; the comments disagree whether the ledger is told (`filed`). */
    | WriteOff(amount: nat, filed: bool)
    | RequestPayout(amount: nat)
    | ProcessPayout(payout: nat)
    | PayPayout(payout: nat)
    /** Rejected or failed: the money comes back, to the debt first, and of that the ledger has no row. */
    | ReturnPayout(payout: nat, status: PayoutStatus)
    /**
     * A refund charge with no share to file it under, so with no ledger row: a fault charge for a
     * returned parcel, or one beyond a vendor's shares when the vendor has none on that sale.
     */
    | ChargeUnfiled(fromPending: nat, fromAvailable: nat, toDebt: nat)
    | OtherMovement(name: string, amount: nat)

  predicate Open(a: Account, payout: nat) {
    payout < |a.payouts| && (a.payouts[payout].status == Requested || a.payouts[payout].status == Processing)
  }

  predicate Enabled(a: Account, s: Step) {
    match s
    case ProcessPayout(i) => Open(a, i)
    case PayPayout(i) => Open(a, i)
    case ReturnPayout(i, status) => Open(a, i) && (status == Rejected || status == Failed)
    case MoveToReserve(n) => n <= a.available
    case RequestPayout(n) => n <= a.available
    case WriteOff(n, _) => n <= a.debt
    case TakeBack(_, q, d) => Covered(a, q, d)
    case ChargeUnfiled(_, q, d) => Covered(a, q, d)
    case _ => true
  }

  /** Nothing becomes debt before the available balance is used up. */
  predicate Covered(a: Account, fromAvailable: nat, toDebt: nat) {
    fromAvailable <= a.available && (toDebt > 0 ==> fromAvailable == a.available)
  }

  /** What an inflow of `n` pays of the debt. */
  function Recovered(debt: nat, n: nat): nat { if debt < n then debt else n }

  function Write(a: Account, entryType: EntryType, amount: nat): Account {
    a.(ledger := a.ledger + [EarningRow(entryType, amount)])
  }

  /** An inflow to the available balance, the debt first. */
  function PayIn(a: Account, n: nat): Account {
    a.(available := a.available + n - Recovered(a.debt, n), debt := a.debt - Recovered(a.debt, n))
  }

  /** The same, with the recovery filed in the ledger. */
  function FiledPayIn(a: Account, n: nat): Account {
    if Recovered(a.debt, n) == 0 then PayIn(a, n)
    else Write(PayIn(a, n), ClawbackRecovery, Recovered(a.debt, n))
  }

  function Mark(a: Account, i: nat, status: PayoutStatus): Account
    requires i < |a.payouts|
  {
    a.(payouts := a.payouts[i := a.payouts[i].(status := status)])
  }

  /** A step that is not enabled is refused by the service that owns the balances. */
  function Apply(a: Account, s: Step): Account {
    if !Enabled(a, s) then a
    else
      match s
      case HoldShare(n) => Write(a, Hold, n).(pending := a.pending + n)
      case ReleaseShare(n) => FiledPayIn(Write(a, Release, n).(pending := a.pending - n), n)
      case ReverseShare(n) => Write(a, Reversal, n).(pending := a.pending - n)
      case MoveToReserve(n) => Write(a, ReserveHold, n).(available := a.available - n, reserve := a.reserve + n)
      case ReturnFromReserve(n) => FiledPayIn(Write(a, ReserveRelease, n).(reserve := a.reserve - n), n)
      case TakeBack(p, q, d) =>
        Write(a, Clawback, p + q).(pending := a.pending - p, available := a.available - q, debt := a.debt + d)
      case WriteOff(n, filed) => (if filed then Write(a, ClawbackWriteOff, n) else a).(debt := a.debt - n)
      case RequestPayout(n) =>
        a.(payouts := a.payouts + [PayoutRow(n, Requested)], available := a.available - n, requested := a.requested + n)
      case ProcessPayout(i) => Mark(a, i, Processing)
      case PayPayout(i) => Mark(a, i, Paid).(requested := a.requested - a.payouts[i].amount)
      case ReturnPayout(i, status) =>
        PayIn(Mark(a, i, status).(requested := a.requested - a.payouts[i].amount), a.payouts[i].amount)
      case ChargeUnfiled(p, q, d) => a.(pending := a.pending - p, available := a.available - q, debt := a.debt + d)
      case OtherMovement(name, n) => Write(a, OtherEntry(name), n)
  }

  function Run(a: Account, steps: seq<Step>): Account {
    if steps == [] then a else Apply(Run(a, steps[..|steps| - 1]), steps[|steps| - 1])
  }

  /** What a step takes from the balances without a row in the feed. */
  function Slip(a: Account, s: Step): nat {
    if !Enabled(a, s) then 0
    else if s.ReturnPayout? then Recovered(a.debt, a.payouts[s.payout].amount)
    else if s.ChargeUnfiled? then s.fromPending + s.fromAvailable
    else 0
  }

  function Unreported(a: Account, steps: seq<Step>): nat {
    if steps == [] then 0
    else Unreported(a, steps[..|steps| - 1]) + Slip(Run(a, steps[..|steps| - 1]), steps[|steps| - 1])
  }

  /** By how much the feed shows more than the owner has. */
  function Gap(a: Account): int { FeedNet(a) - Total(a) }

  lemma EarningsSnoc(rows: seq<EarningRow>, r: EarningRow)
    ensures EarningsNet(rows + [r]) == EarningsNet(rows) + Signed(ToEarningActivity(r))
  {
    assert (rows + [r])[..|rows|] == rows;
  }

  lemma PayoutsSnoc(rows: seq<PayoutRow>, r: PayoutRow)
    ensures PayoutsNet(rows + [r]) == PayoutsNet(rows) + Signed(ToPayoutActivity(r))
  {
    assert (rows + [r])[..|rows|] == rows;
  }

  lemma {:induction false} PayoutsUpdate(rows: seq<PayoutRow>, i: nat, r: PayoutRow)
    requires i < |rows|
    ensures PayoutsNet(rows[i := r]) ==
      PayoutsNet(rows) - Signed(ToPayoutActivity(rows[i])) + Signed(ToPayoutActivity(r))
  {
    var last := |rows| - 1;
    if i == last {
      assert rows[i := r][..last] == rows[..last];
    } else {
      PayoutsUpdate(rows[..last], i, r);
      assert rows[i := r][..last] == rows[..last][i := r];
    }
  }

  predicate OnPayout(s: Step) { s.ProcessPayout? || s.PayPayout? || s.ReturnPayout? }

  lemma PayoutStepConserves(a: Account, s: Step)
    requires OnPayout(s)
    ensures Gap(Apply(a, s)) == Gap(a) + Slip(a, s)
  {
    if Enabled(a, s) {
      PayoutsUpdate(a.payouts, s.payout, Apply(a, s).payouts[s.payout]);
    }
  }

  /** A row that says what the balances did. */
  lemma EntryConserves(a: Account, b: Account, entryType: EntryType, amount: nat)
    requires b.ledger == a.ledger + [EarningRow(entryType, amount)] && b.payouts == a.payouts
    requires Total(b) == Total(a) + Signed(ToEarningActivity(EarningRow(entryType, amount)))
    ensures Gap(b) == Gap(a)
  {
    EarningsSnoc(a.ledger, EarningRow(entryType, amount));
  }

  /** A filed inflow: its own row is neutral, and the recovery's row is what the balances lose. */
  lemma InflowConserves(a: Account, b: Account, entryType: EntryType, n: nat)
    requires b.ledger == a.ledger + [EarningRow(entryType, n)] && b.payouts == a.payouts && b.debt == a.debt
    requires Signed(ToEarningActivity(EarningRow(entryType, n))) == 0 && Total(b) == Total(a) - n
    ensures Gap(FiledPayIn(b, n)) == Gap(a)
  {
    EarningsSnoc(a.ledger, EarningRow(entryType, n));
    var r := Recovered(b.debt, n);
    if r > 0 {
      EarningsSnoc(b.ledger, EarningRow(ClawbackRecovery, r));
    }
  }

  predicate OnShare(s: Step) { s.HoldShare? || s.ReleaseShare? || s.ReverseShare? }

  lemma ShareStepConserves(a: Account, s: Step)
    requires OnShare(s)
    ensures Gap(Apply(a, s)) == Gap(a) + Slip(a, s)
  {
    match s {
      case HoldShare(n) => EntryConserves(a, Apply(a, s), Hold, n);
      case ReleaseShare(n) => InflowConserves(a, Write(a, Release, n).(pending := a.pending - n), Release, n);
      case ReverseShare(n) => EntryConserves(a, Apply(a, s), Reversal, n);
    }
  }

  lemma ToReserveConserves(a: Account, n: nat)
    ensures Gap(Apply(a, MoveToReserve(n))) == Gap(a)
  {
    if n <= a.available {
      EntryConserves(a, Apply(a, MoveToReserve(n)), ReserveHold, n);
    }
  }

  lemma FromReserveConserves(a: Account, n: nat)
    ensures Gap(Apply(a, ReturnFromReserve(n))) == Gap(a)
  {
    InflowConserves(a, Write(a, ReserveRelease, n).(reserve := a.reserve - n), ReserveRelease, n);
  }

  lemma TakeBackConserves(a: Account, p: nat, q: nat, d: nat)
    ensures Gap(Apply(a, TakeBack(p, q, d))) == Gap(a)
  {
    if Covered(a, q, d) {
      EntryConserves(a, Apply(a, TakeBack(p, q, d)), Clawback, p + q);
    }
  }

  lemma WriteOffConserves(a: Account, n: nat, filed: bool)
    ensures Gap(Apply(a, WriteOff(n, filed))) == Gap(a)
  {
    if n <= a.debt && filed {
      EntryConserves(a, Apply(a, WriteOff(n, filed)), ClawbackWriteOff, n);
    }
  }

  lemma RequestConserves(a: Account, n: nat)
    ensures Gap(Apply(a, RequestPayout(n))) == Gap(a)
  {
    PayoutsSnoc(a.payouts, PayoutRow(n, Requested));
  }

  lemma OtherConserves(a: Account, name: string, n: nat)
    ensures Gap(Apply(a, OtherMovement(name, n))) == Gap(a)
  {
    EntryConserves(a, Apply(a, OtherMovement(name, n)), OtherEntry(name), n);
  }

  lemma StepConserves(a: Account, s: Step)
    ensures Gap(Apply(a, s)) == Gap(a) + Slip(a, s)
  {
    if OnPayout(s) {
      PayoutStepConserves(a, s);
    } else if OnShare(s) {
      ShareStepConserves(a, s);
    } else {
      match s
      case MoveToReserve(n) => ToReserveConserves(a, n);
      case ReturnFromReserve(n) => FromReserveConserves(a, n);
      case TakeBack(p, q, d) => TakeBackConserves(a, p, q, d);
      case WriteOff(n, filed) => WriteOffConserves(a, n, filed);
      case RequestPayout(n) => RequestConserves(a, n);
      case OtherMovement(name, n) => OtherConserves(a, name, n);
      case ChargeUnfiled(_, _, _) =>
    }
  }

  lemma {:induction false} GapGrows(a: Account, steps: seq<Step>)
    ensures Gap(Run(a, steps)) == Gap(a) + Unreported(a, steps)
  {
    if steps != [] {
      var before := Run(a, steps[..|steps| - 1]);
      GapGrows(a, steps[..|steps| - 1]);
      StepConserves(before, steps[|steps| - 1]);
    }
  }

  /**
   * Main result. Over any run from any state, what came in minus what went out in the feed changes by
   * the change in the owner's whole balance, plus what left it unreported.
   */
  lemma FeedAccounts(a: Account, steps: seq<Step>)
    ensures var b := Run(a, steps);
      FeedNet(b) - FeedNet(a) == Total(b) - Total(a) + Unreported(a, steps)
  {
    GapGrows(a, steps);
  }

  /** No money came back from a payout while a debt was owed, and no charge without a share took any. */
  predicate AllReported(a: Account, steps: seq<Step>) {
    steps == [] ||
    var before, last := Run(a, steps[..|steps| - 1]), steps[|steps| - 1];
    && AllReported(a, steps[..|steps| - 1])
    && (Enabled(before, last) && last.ReturnPayout? ==> before.debt == 0 || before.payouts[last.payout].amount == 0)
    && (Enabled(before, last) && last.ChargeUnfiled? ==> last.fromPending == 0 && last.fromAvailable == 0)
  }

  lemma {:induction false} NothingUnreportedIff(a: Account, steps: seq<Step>)
    ensures Unreported(a, steps) == 0 <==> AllReported(a, steps)
  {
    if steps != [] {
      NothingUnreportedIff(a, steps[..|steps| - 1]);
    }
  }

  /** So the feed agrees with the balances exactly on the runs that report every movement. */
  lemma FeedBalancesIff(a: Account, steps: seq<Step>)
    ensures var b := Run(a, steps);
      FeedNet(b) - FeedNet(a) == Total(b) - Total(a) <==> AllReported(a, steps)
  {
    FeedAccounts(a, steps);
    NothingUnreportedIff(a, steps);
  }

  /**
   * A payout that comes back while a debt is owed: the feed then shows too much, by the debt or by the
   * payout, whichever is less.
   */
  lemma ReturnedPayoutUnbalances(a: Account, payout: nat)
    requires Open(a, payout) && a.debt > 0 && a.payouts[payout].amount > 0
    ensures var b := Apply(a, ReturnPayout(payout, Rejected));
      && FeedNet(b) == FeedNet(a)
      && Total(a) - Total(b) == (if a.debt < a.payouts[payout].amount then a.debt else a.payouts[payout].amount) > 0
      && a.debt - b.debt == Total(a) - Total(b)
  {
    PayoutsUpdate(a.payouts, payout, a.payouts[payout].(status := Rejected));
  }

  /** A charge with no share to file it under: the balance falls and the feed stays. */
  lemma UnfiledChargeUnbalances(a: Account, fromPending: nat, fromAvailable: nat, toDebt: nat)
    requires Covered(a, fromAvailable, toDebt)
    ensures var b := Apply(a, ChargeUnfiled(fromPending, fromAvailable, toDebt));
      FeedNet(b) == FeedNet(a) && Total(b) == Total(a) - fromPending - fromAvailable
  {
  }

  /** While a debt is owed nothing is available. */
  predicate DebtFirst(a: Account) { a.debt > 0 ==> a.available == 0 }

  lemma StepKeepsDebtFirst(a: Account, s: Step)
    requires DebtFirst(a)
    ensures DebtFirst(Apply(a, s))
  {
  }

  /** Every run keeps that: an inflow pays the debt before it adds to the available balance. */
  lemma {:induction false} DebtIsPaidFirst(a: Account, steps: seq<Step>)
    requires DebtFirst(a)
    ensures DebtFirst(Run(a, steps))
  {
    if steps != [] {
      DebtIsPaidFirst(a, steps[..|steps| - 1]);
      StepKeepsDebtFirst(Run(a, steps[..|steps| - 1]), steps[|steps| - 1]);
    }
  }
}
