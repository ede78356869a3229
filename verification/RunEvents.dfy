/** The vocabulary shared by the job manager, the worker and the stream: run statuses,
    the events of a run's log, and the JSONL events a worker process writes. */
module RunEvents {
  import opened Options

  datatype Status = Queued | Running | Completed | Failed | Cancelled | TimedOut

  /** `TERMINAL_STATUSES` on the server, `isTerminalStatus` in the browser. */
  predicate IsTerminal(s: Status) {
    s in {Completed, Failed, Cancelled, TimedOut}
  }

  /** One row of `run_events`, without its sequence number. */
  datatype Event =
    | RunStatus(status: Status)
    | LogLine(message: string)
    | ProgressNote(activity: string)
    | ResultReported(name: string)

  predicate IsTerminalEvent(e: Event) {
    e.RunStatus? && IsTerminal(e.status)
  }

  /** What the server puts on the wire: the event with its sequence number. */
  datatype Wire = Wire(seqNo: nat, event: Event)

  /** One JSON line of the worker's event channel. */
  datatype WorkerEvent =
    | WLog(message: string)
    | WStarted(category: string, percent: nat)
    | WFinished(category: string, percent: nat)
    | WResult(name: string)
    | WDone(status: Option<Status>)
    | WFatal(error: string)

  predicate IsLastWord(e: WorkerEvent) {
    e.WDone? || e.WFatal?
  }
}
