/** The legal job-status state machine: which status may follow which. */
module Transitions {

  datatype Status =
    | Pending | WaitingApproval | Approved
    | Running | Cancelling
    | Done | Failed | Dead | Cancelled | Rejected

  function LegalTargets(s: Status): set<Status> {
    match s
    case Pending => {Running, Cancelled}
    case WaitingApproval => {Approved, Rejected, Cancelled}
    case Approved => {Running, Cancelled}
    case Running => {Done, Failed, Cancelled, Cancelling, Running}
    case Cancelling => {Done, Failed, Cancelled}
    case Failed => {Pending, Dead}
    case Dead => {Pending}
    case Cancelled => {Pending}
    case Done => {}
    case Rejected => {}
  }

  predicate IsLegal(from: Status, to: Status) {
    to in LegalTargets(from)
  }

  /** The statuses the store counts as terminal; every other job is active. */
  predicate IsTerminal(s: Status) {
    s in {Done, Failed, Dead, Cancelled, Rejected}
  }

  /** A job that waits in the queue: it has not been claimed since it last entered it. */
  predicate IsQueued(s: Status) {
    s in {Pending, WaitingApproval, Approved}
  }

  /** A job that some worker has claimed and not yet finished. */
  predicate IsOwned(s: Status) {
    s in {Running, Cancelling}
  }

  /** Every status is of exactly one of the three kinds, and two of them have no way out. */
  lemma QueuedOwnedOrTerminal(s: Status)
    ensures IsQueued(s) <==> !IsOwned(s) && !IsTerminal(s)
    ensures IsOwned(s) ==> !IsTerminal(s)
    ensures (forall t :: !IsLegal(s, t)) <==> s in {Done, Rejected}
  {
    match s
    case Pending | WaitingApproval | Approved | Running | Cancelling => assert IsLegal(s, Cancelled);
    case Failed | Dead | Cancelled => assert IsLegal(s, Pending);
    case Done | Rejected => assert IsTerminal(s);
  }

  /** The table read backwards: from where each status may be reached. */
  lemma WhereFrom(s: Status, t: Status)
    ensures t == Pending ==> (IsLegal(s, t) <==> s == Failed || s == Dead || s == Cancelled)
    ensures t == WaitingApproval ==> !IsLegal(s, t)
    ensures t == Approved || t == Rejected ==> (IsLegal(s, t) <==> s == WaitingApproval)
    ensures t == Running ==> (IsLegal(s, t) <==> s == Pending || s == Approved || s == Running)
    ensures t == Cancelling ==> (IsLegal(s, t) <==> s == Running)
    ensures t == Done ==> (IsLegal(s, t) <==> s == Running || s == Cancelling)
    ensures t == Failed ==> (IsLegal(s, t) <==> s == Running || s == Cancelling)
    ensures t == Dead ==> (IsLegal(s, t) <==> s == Failed)
    ensures t == Cancelled ==>
              (IsLegal(s, t) <==>
                || s == Pending || s == WaitingApproval || s == Approved || s == Running || s == Cancelling)
  {
    match s
    case Running | Cancelling =>
    case _ =>
  }
}
