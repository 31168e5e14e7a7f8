/**
 * The process-management service as the task sees it. Every remote call is
 * replaced by data supplied up front: the statuses successive polls of a
 * process return, the ids successive fork requests are given, and so on.
 */
module Remote {
  import opened Wrappers
  import opened Values

  /** The status of a process, as reported by the service. */
  datatype Status = Running | Suspended | Finished | Failed | Cancelled | TimedOut

  /** The name `StatusEnum.getValue()` gives. */
  function StatusName(s: Status): string {
    match s
    case Running => "RUNNING"
    case Suspended => "SUSPENDED"
    case Finished => "FINISHED"
    case Failed => "FAILED"
    case Cancelled => "CANCELLED"
    case TimedOut => "TIMED_OUT"
  }

  /** Distinct statuses have distinct names, so a status is known from its name. */
  lemma StatusNameInjective(s: Status, t: Status)
    ensures StatusName(s) == StatusName(t) <==> s == t
  {
  }

  /** A process as `ProcessApi.get` returns it; `meta` is null when absent. */
  datatype ProcessEntry = ProcessEntry(status: Status, meta: Option<Config>)

  /**
   * One iteration of the polling loop: either the status query answered, with
   * the milliseconds elapsed since the wait began, or it failed even after
   * its retries.
   */
  datatype Poll = Observed(entry: ProcessEntry, elapsed: int) | CallFailed

  /** The answers the service gives, fixed in advance. */
  datatype Service = Service(
    polls: map<string, seq<Poll>>,    // answers to successive status queries, per process id
    startId: Option<string>,          // the id a start request is given; None when the request fails
    forkIds: seq<string>,             // ids given to successive fork requests; a request beyond them fails
    refusedKills: set<string>,        // processes whose kill request fails
    acceptsWaitCondition: bool,       // whether registering a wait condition succeeds
    outVars: map<string, Config>)     // the `out.json` attachment per process; absent means 404

  /** The answers to successive status queries of process `id`. */
  function TraceOf(svc: Service, id: string): seq<Poll> {
    if id in svc.polls then svc.polls[id] else []
  }
}
