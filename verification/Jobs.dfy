/** The records that travel through the system (worker/queue/redis_queue.go). Payload and creation time
    are never read or written by the worker and are not modelled. */
module Jobs {
  import opened Graphs

  datatype Status = Pending | Active | Completed | Failed | Dead

  datatype Job = Job(
    id: Id,
    jobType: string,
    priority: int,
    status: Status,
    maxRetries: int,
    retryCount: int,
    dependencies: seq<Id>,
    scheduledAt: Option<int>,
    startedAt: Option<int>,
    completedAt: Option<int>,
    failedAt: Option<int>,
    errorMessage: string)

  /** A row of the jobs table, as far as the worker reads or writes it. */
  datatype Row = Row(
    status: Status,
    dependencies: seq<Id>,
    retryCount: int,
    startedAt: Option<int>,
    completedAt: Option<int>,
    failedAt: Option<int>,
    errorMessage: string)

  type Table = map<Id, Row>

  datatype Lane = High | Medium | Low

  const PRIORITY_HIGH := 300
  const PRIORITY_MEDIUM := 200

  /** laneKey; the drain script repeats the same thresholds. */
  function LaneOf(priority: int): Lane {
    if priority >= PRIORITY_HIGH then High
    else if priority >= PRIORITY_MEDIUM then Medium
    else Low
  }

  /** What a sorted-set member can decode to. `Garbage` does not decode to a table. `Anonymous` does, but
      has no id: the drain script moves it, the claim script discards it. `Entry` is a job. */
  datatype Member =
    | Garbage(text: string)
    | Anonymous(text: string, rank: int)
    | Entry(job: Job)
  {
    predicate IsTable() {
      !Garbage?
    }

    function Priority(): int {
      match this
      case Garbage(_) => 0
      case Anonymous(_, rank) => rank
      case Entry(job) => job.priority
    }
  }

  /** The stored dependency graph. */
  function GraphOf(rows: Table): Graph {
    map id | id in rows :: rows[id].dependencies
  }

  ghost predicate IsCompleted(rows: Table, id: Id) {
    id in rows && rows[id].status.Completed?
  }

  /** Same identity: everything about a job that no step of the worker may change. */
  predicate SameJob(a: Job, b: Job) {
    && a.id == b.id && a.jobType == b.jobType && a.priority == b.priority
    && a.maxRetries == b.maxRetries && a.dependencies == b.dependencies
  }
}
