/** A request's record as the store reads it: what a change must write, and how soon. */
module RequestRecord {
  import opened Wrappers

  datatype Kind = TopUp | Withdrawal

  datatype Status =
    | AwaitingDeposit | DepositSeen | Converting | Recovering | Claiming | Settled
    | AwaitingPayment | Paid | Sending | Sent
    | Failed | Expired | Cancelled

  /** The leg a side exit left, as `failure.step` names it. */
  datatype Leg = Mint | Swap | Send | Convert | OtherLeg

  /** The fields that are written to the host. `rest` is every field the store never looks at. */
  datatype Durable = Durable(
    kind: Kind,
    status: Status,
    statusAt: int,
    failure: Option<Leg>,
    meldSubmittedAt: Option<int>,
    depositSkippedAt: Option<int>,
    recoveryRequestedAt: Option<int>,
    recoveryId: Option<string>,
    paymentRequestedAt: Option<int>,
    paymentId: Option<string>,
    handoff: Option<string>,
    rest: string)

  /** The fields an observation may change without moving the record. */
  datatype Witnesses = Witnesses(conflict: Option<string>, seen: string, confirmedAt: Option<int>, updatedAt: int)

  datatype Record = Record(rev: nat, durable: Durable, witnesses: Witnesses)

  function Rank(d: Durable): nat {
    match d.status
    case AwaitingDeposit | AwaitingPayment => 0
    case DepositSeen | Paid => 1
    case Converting | Recovering => 2
    case Claiming | Sending => 3
    case Settled | Sent => 4
    case Failed | Expired | Cancelled =>
      if d.failure == Some(if d.kind == TopUp then Mint else Send) then 3
      else if d.failure == Some(if d.kind == TopUp then Swap else Convert) then 2
      else 0
  }

  predicate Finished(d: Durable) {
    if d.kind == TopUp then d.status == Settled else d.status == Sent
  }

  predicate CriticalStatus(status: Status) {
    match status
    case DepositSeen | Recovering | Settled | Cancelled | Failed | Expired | Paid | Sent => true
    case _ => false
  }

  /** A change that must be on the host before the observation resolves. */
  predicate IsCritical(previous: Durable, next: Durable) {
    || (Rank(previous) == 0 && Rank(next) >= 1)
    || (next.status != previous.status && CriticalStatus(next.status))
    || (previous.failure == None && next.failure != None)
    || (previous.kind == TopUp && next.kind == TopUp
        && (|| (previous.meldSubmittedAt == None && next.meldSubmittedAt != None)
            || (previous.depositSkippedAt == None && next.depositSkippedAt != None)
            || previous.recoveryRequestedAt != next.recoveryRequestedAt
            || previous.recoveryId != next.recoveryId))
    || (previous.kind == Withdrawal && next.kind == Withdrawal
        && (previous.paymentRequestedAt != next.paymentRequestedAt
            || previous.paymentId != next.paymentId))
  }

  // ----- the changes the host must hear of at once, by what they say

  const ANNOUNCED: set<Status> := {DepositSeen, Paid, Recovering, Settled, Sent, Failed, Expired, Cancelled}

  predicate SideExit(status: Status) {
    status in {Failed, Expired, Cancelled}
  }

  /** No money has been seen: the request waits for it, or it left before a leg that moves it. */
  predicate NoMoneyYet(d: Durable) {
    || d.status in {AwaitingDeposit, AwaitingPayment}
    || (SideExit(d.status)
        && d.failure !in (if d.kind == TopUp then {Some(Mint), Some(Swap)} else {Some(Send), Some(Convert)}))
  }

  predicate StatusArrives(previous: Durable, next: Durable) {
    next.status != previous.status && next.status in ANNOUNCED
  }

  predicate FailureAppears(previous: Durable, next: Durable) {
    previous.failure.None? && next.failure.Some?
  }

  predicate BuyerActs(previous: Durable, next: Durable) {
    previous.kind == next.kind == TopUp
    && (|| (previous.meldSubmittedAt.None? && next.meldSubmittedAt.Some?)
        || (previous.depositSkippedAt.None? && next.depositSkippedAt.Some?))
  }

  /** The stamp or the id of the prompt the host is about to show: of a top-up's recovery, or of a
      withdrawal's payment. */
  predicate PromptMoves(previous: Durable, next: Durable) {
    && previous.kind == next.kind
    && var asked := (d: Durable) => if d.kind == TopUp then (d.recoveryRequestedAt, d.recoveryId)
                                    else (d.paymentRequestedAt, d.paymentId);
    asked(previous) != asked(next)
  }

  predicate MustBeStored(previous: Durable, next: Durable) {
    || (NoMoneyYet(previous) && !NoMoneyYet(next))
    || StatusArrives(previous, next)
    || FailureAppears(previous, next)
    || BuyerActs(previous, next)
    || PromptMoves(previous, next)
  }

  /** A side exit keeps the rank of the leg it left, the legs rank in their order, exactly where no money
      has been seen the rank is 0, and a record is finished exactly at the end of its own kind's way. */
  lemma RankFits(d: Durable, leg: Durable)
    ensures Rank(d) == 0 <==> NoMoneyYet(d)
    ensures SideExit(d.status) && d.kind == TopUp && leg.status == Claiming && d.failure == Some(Mint) ==>
              Rank(d) == Rank(leg) == 3
    ensures SideExit(d.status) && d.kind == Withdrawal && leg.status == Sending && d.failure == Some(Send) ==>
              Rank(d) == Rank(leg) == 3
    ensures var moves := Some(if d.kind == TopUp then Swap else Convert);
            SideExit(d.status) && leg.status == Converting && d.failure == moves ==> Rank(d) == Rank(leg) == 2
    ensures d.status != (if d.kind == TopUp then Sent else Settled) ==> (Finished(d) <==> Rank(d) == 4)
    ensures d.status in {DepositSeen, Paid} && leg.status in {Settled, Sent} ==> Rank(d) == 1 && Rank(leg) == 4
  {
  }

  /** The critical changes are exactly those, and none of them leaves the record as it was. */
  lemma CriticalIff(previous: Durable, next: Durable)
    ensures IsCritical(previous, next) <==> MustBeStored(previous, next)
    ensures MustBeStored(previous, next) ==> next != previous
  {
    RankFits(previous, next);
    RankFits(next, previous);
  }

  /** The reduced record differs from the current one in the witness fields alone. */
  predicate WitnessOnly(current: Record, next: Record) {
    current.rev == next.rev && current.durable == next.durable
  }
}
