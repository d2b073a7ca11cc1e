/** The job state machine (internal/jobs/state.go). */
module JobState {

  datatype Status = Queued | Running | Paused | Done | Failed | Cancelled | Interrupted

  /** The transition table: the statuses a job may move to next. */
  function Successors(from: Status): set<Status> {
    match from
    case Queued => {Running, Cancelled, Failed}
    case Running => {Done, Failed, Cancelled, Interrupted, Paused}
    case Paused => {Queued, Running, Cancelled}
    case Interrupted => {Queued, Running, Cancelled, Failed}
    case Done => {}
    case Failed => {}
    case Cancelled => {}
  }

  predicate CanTransition(from: Status, to: Status) {
    to in Successors(from)
  }

  predicate Terminal(s: Status) {
    Successors(s) == {}
  }

  /** The statuses the queue query selects. */
  predicate Runnable(s: Status) {
    s == Queued || s == Interrupted
  }
}
