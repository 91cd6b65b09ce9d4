/** The booking lifecycle: the table of allowed status changes and what it implies. */
module BookingStatus {
  import opened Collections

  datatype Status =
    | Draft | Quoted | InventoryRevalidating | PaymentPending | PaymentNotRequired
    | PmsCreationPending | PmsConfirmationPending | Confirmed
    | AvailabilityFailed | PaymentFailed | PmsUnknownResult | PmsRejected | ManualReview
    | Cancelled | Expired

  /** BOOKING_STATUS_TRANSITIONS */
  function Transitions(from: Status): seq<Status> {
    match from
    case Draft => [Quoted, Cancelled, Expired]
    case Quoted => [InventoryRevalidating, Cancelled, Expired]
    case InventoryRevalidating => [PaymentPending, PaymentNotRequired, AvailabilityFailed, Cancelled, Expired]
    case PaymentPending => [PmsCreationPending, PaymentFailed, Cancelled, Expired]
    case PaymentNotRequired => [PmsCreationPending, Cancelled, Expired]
    case PmsCreationPending =>
      [PmsConfirmationPending, AvailabilityFailed, PmsUnknownResult, PmsRejected, ManualReview, Cancelled]
    case PmsConfirmationPending => [Confirmed, PmsUnknownResult, PmsRejected, ManualReview, Cancelled]
    case Confirmed => [Cancelled]
    case AvailabilityFailed => []
    case PaymentFailed => []
    case PmsUnknownResult => [Confirmed, PmsRejected, ManualReview, Cancelled]
    case PmsRejected => [Cancelled, ManualReview]
    case ManualReview => [Confirmed, Cancelled]
    case Cancelled => []
    case Expired => []
  }

  predicate CanTransition(from: Status, to: Status) {
    to in Transitions(from)
  }

  /** `transition`: the new status, or None when the table does not allow the change. */
  function Transition(from: Status, to: Status): Option<Status> {
    if CanTransition(from, to) then Some(to) else None
  }

  function Rank(s: Status): nat {
    match s
    case Draft => 0
    case Quoted => 1
    case InventoryRevalidating => 2
    case PaymentPending => 3
    case PaymentNotRequired => 3
    case PmsCreationPending => 4
    case PmsConfirmationPending => 5
    case PmsUnknownResult => 6
    case PmsRejected => 7
    case ManualReview => 8
    case Confirmed => 9
    case _ => 10
  }

  /** Consecutive statuses of one booking. */
  ghost predicate StatusHistory(statuses: seq<Status>) {
    forall i :: 0 <= i < |statuses| - 1 ==> CanTransition(statuses[i], statuses[i + 1])
  }

  lemma {:induction false} HistoryClimbs(statuses: seq<Status>, i: nat, j: nat)
    requires StatusHistory(statuses) && i <= j < |statuses|
    ensures Rank(statuses[i]) + (j - i) <= Rank(statuses[j])
    decreases j
  {
    if i < j {
      HistoryClimbs(statuses, i, j - 1);
      assert CanTransition(statuses[j - 1], statuses[j]);
    }
  }

  /** No booking ever returns to a status, and every history is short. */
  lemma {:induction false} HistoryNeverRepeats(statuses: seq<Status>)
    requires StatusHistory(statuses)
    ensures |statuses| <= 11
    ensures forall i, j :: 0 <= i < j < |statuses| ==> statuses[i] != statuses[j]
  {
    forall i, j | 0 <= i < j < |statuses|
      ensures statuses[i] != statuses[j]
    {
      HistoryClimbs(statuses, i, j);
    }
    if statuses != [] {
      HistoryClimbs(statuses, 0, |statuses| - 1);
    }
  }

  /** Statuses that count as a use of a promo code. */
  predicate CountsAsUse(s: Status) {
    s != AvailabilityFailed && s != PaymentFailed && s != PmsRejected && s != Cancelled && s != Expired
  }

  /** The one edge from a status that does not count back to one that does. */
  lemma {:induction false} OnlyWayBack(from: Status, to: Status)
    ensures CanTransition(from, to) && !CountsAsUse(from) && CountsAsUse(to)
            <==> from == PmsRejected && to == ManualReview
  {
  }
}
