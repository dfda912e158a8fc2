/** The value types of the relay session store (relay-engine/src/session.rs). */
module SessionTypes {
  type SessionId = string

  /** What `subscriber_id` returns; several subscribers may share one. */
  type SubscriberId = string

  datatype SessionStatus = Pending | Running | Waiting | Completed | Failed | Interrupted

  predicate IsTerminal(status: SessionStatus) {
    status.Completed? || status.Failed? || status.Interrupted?
  }

  datatype LogLevel = Info | Warn | Error

  datatype ProgressEntry = ProgressEntry(timestamp: int, message: string, level: LogLevel)
}
