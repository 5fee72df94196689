/** The persisted statuses and their transition tables. */
module Lifecycles {

  datatype WindowStatus = Open | Reserved | Booked | Closed | Expired

  /** Statuses under which a window takes up its master's time. */
  predicate ActiveWindow(s: WindowStatus) { s == Open || s == Reserved || s == Booked }

  datatype AppointmentStatus =
    | PendingPayment
    | PendingManualConfirmation
    | Confirmed
    | ClientConfirmed
    | Completed
    | CancelledByClient
    | CancelledByAdmin
    | NoShow
    | Rescheduled
    | PaymentExpired
    | RefundPending
    | PartiallyRefunded
    | Refunded

  const OCCUPYING: set<AppointmentStatus> := {PendingPayment, PendingManualConfirmation, Confirmed, ClientConfirmed}

  predicate OccupiesSchedule(s: AppointmentStatus) { s in OCCUPYING }

  function AllowedAppointment(s: AppointmentStatus): set<AppointmentStatus> {
    match s
    case PendingPayment => {PendingManualConfirmation, Confirmed, PaymentExpired, CancelledByClient, CancelledByAdmin}
    case PendingManualConfirmation => {Confirmed, PaymentExpired, CancelledByClient, CancelledByAdmin}
    case Confirmed =>
      {ClientConfirmed, Completed, CancelledByClient, CancelledByAdmin, NoShow, Rescheduled, RefundPending}
    case ClientConfirmed => {Completed, CancelledByClient, CancelledByAdmin, NoShow, Rescheduled, RefundPending}
    case Completed => {RefundPending}
    case CancelledByClient => {RefundPending}
    case CancelledByAdmin => {RefundPending}
    case NoShow => {RefundPending}
    case Rescheduled => {RefundPending}
    case PaymentExpired => {}
    case RefundPending => {PartiallyRefunded, Refunded}
    case PartiallyRefunded => {RefundPending, Refunded}
    case Refunded => {}
  }

  /** `ensure_appointment_transition` accepts the move. */
  predicate AppointmentMove(current: AppointmentStatus, target: AppointmentStatus) {
    current == target || target in AllowedAppointment(current)
  }

  datatype ReservationStatus = Active | AwaitingReview | Consumed | ExpiredHold | Cancelled

  function AllowedReservation(s: ReservationStatus): set<ReservationStatus> {
    match s
    case Active => {AwaitingReview, Consumed, ExpiredHold, Cancelled}
    case AwaitingReview => {Consumed, Cancelled}
    case _ => {}
  }

  predicate ReservationMove(current: ReservationStatus, target: ReservationStatus) {
    current == target || target in AllowedReservation(current)
  }

  /** A hold that still keeps its window for one client. */
  predicate LiveHold(s: ReservationStatus) { s == Active || s == AwaitingReview }

  datatype RefundStatus = Pending | Succeeded | Failed | CancelledRefund

  function AllowedRefund(s: RefundStatus): set<RefundStatus> {
    if s == Pending then {Succeeded, Failed, CancelledRefund} else {}
  }

  predicate RefundMove(current: RefundStatus, target: RefundStatus) {
    current == target || target in AllowedRefund(current)
  }

  datatype PaymentStatus =
    | Created | AwaitingPayment | Paid | RefundRequested | PartlyRefunded | FullyRefunded | PaymentCancelled
    | PaymentFailed

  function AllowedPayment(s: PaymentStatus): set<PaymentStatus> {
    match s
    case Created => {AwaitingPayment, Paid, PaymentCancelled, PaymentFailed}
    case AwaitingPayment => {Paid, PaymentCancelled, PaymentFailed}
    case Paid => {RefundRequested, PartlyRefunded, FullyRefunded}
    case RefundRequested => {Paid, PartlyRefunded, FullyRefunded}
    case PartlyRefunded => {RefundRequested, FullyRefunded}
    case _ => {}
  }

  predicate PaymentMove(current: PaymentStatus, target: PaymentStatus) {
    current == target || target in AllowedPayment(current)
  }

  // The tables the other way round: where a row can have come from.

  lemma AppointmentCameFrom(a: AppointmentStatus, b: AppointmentStatus)
    requires a != b
    ensures AppointmentMove(a, b) <==>
            match b
            case PendingPayment => false
            case PendingManualConfirmation => a == PendingPayment
            case Confirmed => a == PendingPayment || a == PendingManualConfirmation
            case ClientConfirmed => a == Confirmed
            case Completed => a == Confirmed || a == ClientConfirmed
            case CancelledByClient =>
              a == PendingPayment || a == PendingManualConfirmation || a == Confirmed || a == ClientConfirmed
            case CancelledByAdmin =>
              a == PendingPayment || a == PendingManualConfirmation || a == Confirmed || a == ClientConfirmed
            case NoShow => a == Confirmed || a == ClientConfirmed
            case Rescheduled => a == Confirmed || a == ClientConfirmed
            case PaymentExpired => a == PendingPayment || a == PendingManualConfirmation
            case RefundPending =>
              a != PendingPayment && a != PendingManualConfirmation && a != PaymentExpired && a != Refunded
            case PartiallyRefunded => a == RefundPending
            case Refunded => a == RefundPending || a == PartiallyRefunded
  {
  }

  lemma ReservationCameFrom(a: ReservationStatus, b: ReservationStatus)
    requires a != b
    ensures ReservationMove(a, b) <==>
            match b
            case Active => false
            case AwaitingReview => a == Active
            case Consumed => a == Active || a == AwaitingReview
            case ExpiredHold => a == Active
            case Cancelled => a == Active || a == AwaitingReview
  {
  }

  lemma RefundCameFrom(a: RefundStatus, b: RefundStatus)
    requires a != b
    ensures RefundMove(a, b) <==> a == Pending
  {
  }

  lemma PaymentCameFrom(a: PaymentStatus, b: PaymentStatus)
    requires a != b
    ensures PaymentMove(a, b) <==>
            match b
            case Created => false
            case AwaitingPayment => a == Created
            case Paid => a == Created || a == AwaitingPayment || a == RefundRequested
            case RefundRequested => a == Paid || a == PartlyRefunded
            case PartlyRefunded => a == Paid || a == RefundRequested
            case FullyRefunded => a == Paid || a == RefundRequested || a == PartlyRefunded
            case PaymentCancelled => a == Created || a == AwaitingPayment
            case PaymentFailed => a == Created || a == AwaitingPayment
  {
  }

  /** What does not take up time, and what is no hold any more. */
  lemma InactiveStatuses(w: WindowStatus, a: AppointmentStatus, r: ReservationStatus)
    ensures !ActiveWindow(w) <==> w == Closed || w == Expired
    ensures !OccupiesSchedule(a) <==>
              a == Completed || a == CancelledByClient || a == CancelledByAdmin || a == NoShow || a == Rescheduled
              || a == PaymentExpired || a == RefundPending || a == PartiallyRefunded || a == Refunded
    ensures !LiveHold(r) <==> r == Consumed || r == ExpiredHold || r == Cancelled
  {
  }

  /** A history of one row that the guard accepts at every step. */
  ghost predicate AppointmentHistory(h: seq<AppointmentStatus>) {
    forall i :: 0 <= i < |h| - 1 ==> AppointmentMove(h[i], h[i + 1])
  }

  /** No row ever re-enters the schedule: from the first status that does not occupy it, no
      sequence of allowed moves leads back to one that does. */
  lemma {:induction false} ScheduleIsLeftForGood(h: seq<AppointmentStatus>, i: nat, j: nat)
    requires AppointmentHistory(h) && i <= j < |h| && !OccupiesSchedule(h[i])
    ensures !OccupiesSchedule(h[j])
  {
    if i < j {
      ScheduleIsLeftForGood(h, i, j - 1);
      assert AppointmentMove(h[j - 1], h[j - 1 + 1]);
    }
  }
}
