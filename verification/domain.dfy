/** Task statuses, audit events, departments and the transition table. */
module Domain {

  datatype Status =
    | Created
    | Assigned
    | InProgress
    | PendingClosure
    | PendingVerification
    | Verified
    | Reopened
    | Cancelled

  datatype AuditEvent =
    | EvCreated
    | EvAssigned
    | EvAcknowledged
    | EvResumed
    | EvUpdated
    | EvClosureRequested
    | EvVerified
    | EvReopened
    | EvCancelled
    | EvEscalated
    | EvNotified

  datatype Dept = FIN | PROC | OP | HR | IT | BD | SAL | EXO | TBS | CBS | QUA | CEO

  function Successors(from: Status): set<Status> {
    match from
    case Created => {Assigned, Cancelled}
    case Assigned => {InProgress, Cancelled}
    case InProgress => {PendingClosure, PendingVerification, Cancelled}
    case PendingClosure => {PendingVerification, InProgress}
    case PendingVerification => {Verified, Reopened}
    case Reopened => {InProgress, PendingVerification, Cancelled}
    case Verified => {}
    case Cancelled => {}
  }

  /** The ordinary guard (no cancellation request): self-loops are always allowed. */
  predicate CanTransition(from: Status, to: Status) {
    from == to || to in Successors(from)
  }

  predicate Terminal(s: Status) {
    s == Verified || s == Cancelled
  }
}
