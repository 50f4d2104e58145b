/**
 The task status table, the failure categories and the record vocabulary shared by the stores.
 */
module Domain {
  datatype TaskStatus =
    | Draft
    | Ready
    | Leased
    | Planning
    | AwaitingApproval
    | Running
    | Verifying
    | Review
    | Completed
    | Paused
    | Blocked
    | Failed
    | Cancelled
    | Superseded
  {
    predicate IsTerminal() {
      this == Completed || this == Cancelled || this == Superseded
    }

    predicate CanTransitionTo(next: TaskStatus) {
      match this
      case Draft => next in {Ready, Cancelled, Superseded}
      case Ready => next in {Leased, Paused, Cancelled, Superseded}
      case Leased => next in {Planning, Paused, Failed}
      case Planning => next in {AwaitingApproval, Running, Paused, Blocked, Failed}
      case AwaitingApproval => next in {Running, Paused, Cancelled}
      case Running => next in {Verifying, Paused, Blocked, Failed, Cancelled}
      case Verifying => next in {Review, Failed}
      case Review => next in {Completed, Ready, Cancelled}
      case Paused => next in {Ready, Cancelled}
      case Blocked => next in {Ready, Cancelled}
      case Failed => next in {Ready, Cancelled}
      case _ => false
    }

    /** From the moment a scheduler claim leases the task until its result is under review. */
    predicate InProgress() {
      this in {Leased, Planning, AwaitingApproval, Running, Verifying, Review}
    }
  }

  datatype FailureCategory =
    | ProcessFailed
    | TimedOut
    | CancelledByRequest
    | Signalled
    | AdapterTransient
    | AdapterPermanent
    | Infrastructure
    | Sandbox
    | Verification
    | Policy
    | Quota
    | Unknown
  {
    predicate Retryable() {
      this in {ProcessFailed, TimedOut, Signalled, AdapterTransient, Infrastructure}
    }
  }
}
