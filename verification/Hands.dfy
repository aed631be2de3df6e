/** What happens to one claimed job: the steps of worker/processor/job_processor.go and of the fetcher's
    hand-back, one shared-state access at a time. The commands of Ack, Nack and MoveToDLQ are separate
    steps, because a plain pipeline is not atomic. */
module Hands {
  import opened Graphs
  import opened Jobs
  import opened Broker
  import opened Dependency
  import opened Retry

  /** What does not change during a run. */
  datatype Env = Env(rank: Member -> real, configs: map<string, Config>, handlers: set<string>) {
    function MaxRetries(jobType: string): int {
      ConfigOf(configs, jobType).maxRetries
    }

    function DelayFor(job: Job, draw: Jitter): int {
      DelayOf(ConfigOf(configs, job.jobType), job.retryCount, draw)
    }
  }

  /** Everything a step may learn from outside: the clock in seconds, milliseconds and nanoseconds, the
      jitter, whether the database write or the dependency query goes through, and how the handler ends. */
  datatype Oracle = Oracle(now: int, ms: int, ns: int, draw: Jitter, dbOk: bool, depErr: bool, ok: bool, message: string)

  /** The shared state. `acked`, `dropped`, `fails` and `waited` are history: every job ever acked (oldest
      first), every job released without being put anywhere, how often each job has failed, and how long
      it has been held back for retries. */
  datatype World = World(
    redis: Redis,
    rows: Table,
    acked: seq<Job>,
    dropped: seq<Job>,
    fails: map<Id, nat>,
    waited: map<Id, int>)
  {
    function Fails(id: Id): nat {
      if id in fails then fails[id] else 0
    }

    function Waited(id: Id): int {
      if id in waited then waited[id] else 0
    }
  }

  /** The job has been held back for this long once more. */
  function AfterWait(w: World, id: Id, delay: int): World {
    w.(waited := w.waited[id := w.Waited(id) + delay])
  }

  /** Why a claim is released: the fetcher hands back, the dependency query failed, a dependency is not
      completed, success, a failed attempt, or the job is given up. All six start with HDEL and DEL. */
  datatype Cause = HandBack | GateError | Blocked | Success | Failure | GiveUp

  datatype Phase =
    | Fetched
    | Buffered
    | Gate
    | Activate
    | Handler
    | Complete
    | Hdel(cause: Cause)
    | Unlock(cause: Cause)
    | Delay
    | AckPush
    | AckTrim
    | Wait
    | Retrying
    | Requeue
    | Dying
    | DlqAdd

  datatype Hand = Hand(job: Job, phase: Phase)

  /** The job is in this hand and nowhere else. After the hand-back has enqueued it, or the ack has
      pushed it, only clean-up is left to do. */
  predicate Owns(phase: Phase) {
    phase != Hdel(HandBack) && phase != Unlock(HandBack) && phase != AckTrim
  }

  /** The row that shows a job as it is; its dependencies are never written. */
  function RowOf(job: Job, dependencies: seq<Id>): Row {
    Row(job.status, dependencies, job.retryCount, job.startedAt, job.completedAt, job.failedAt, job.errorMessage)
  }

  /** UpdateJobStatus: writes a row only if there is one and the write goes through. */
  function UpdateRow(rows: Table, job: Job, ok: bool): Table {
    if ok && job.id in rows then
      rows[job.id := RowOf(job, rows[job.id].dependencies)]
    else rows
  }

  ghost function GateVerdict(w: World, job: Job, o: Oracle): Phase {
    if job.dependencies != [] && o.depErr then Hdel(GateError)
    else if GateOpen(w.rows, job.dependencies) then Activate
    else Hdel(Blocked)
  }

  /** What is left to do once the lock is gone. */
  function AfterRelease(cause: Cause): Option<Phase> {
    match cause
    case HandBack => None
    case GateError => None
    case Blocked => Some(Delay)
    case Success => Some(AckPush)
    case Failure => Some(Wait)
    case GiveUp => Some(DlqAdd)
  }

  function Continue(job: Job, phase: Option<Phase>): Option<Hand> {
    if phase.None? then None else Some(Hand(job, phase.value))
  }

  predicate Runs(env: Env, job: Job, o: Oracle) {
    o.ok && job.jobType in env.handlers
  }

  /** The next step of a hand; no hand is left when the program ends. A buffered job has no program. */
  ghost function HandStep(env: Env, w: World, h: Hand, o: Oracle): (World, Option<Hand>)
    requires !h.phase.Buffered?
  {
    var job, id, r := h.job, h.job.id, w.redis;
    match h.phase
    case Fetched =>
      var j := job.(status := Pending);
      (w.(redis := Enqueue(r, j, o.ms)), Some(Hand(j, Hdel(HandBack))))
    case Gate =>
      (w, Some(Hand(job, GateVerdict(w, job, o))))
    case Activate =>
      var j := job.(status := Active, startedAt := Some(o.now));
      (w.(rows := UpdateRow(w.rows, j, o.dbOk)), Some(Hand(j, Handler)))
    case Handler =>
      if Runs(env, job, o) then
        (w, Some(Hand(job.(status := Completed, completedAt := Some(o.now)), Complete)))
      else
        (w.(fails := w.fails[id := w.Fails(id) + 1]),
         Some(Hand(job.(retryCount := job.retryCount + 1, errorMessage := o.message), Hdel(Failure))))
    case Complete =>
      (w.(rows := UpdateRow(w.rows, job, o.dbOk)), Some(Hand(job, Hdel(Success))))
    case Hdel(cause) =>
      (w.(redis := HDel(r, id)), Some(Hand(job, Unlock(cause))))
    case Unlock(cause) =>
      (w.(redis := Del(r, id), dropped := if cause.GateError? then w.dropped + [job] else w.dropped),
       Continue(job, AfterRelease(cause)))
    case Delay =>
      (w.(redis := EnqueueDelayed(r, job, o.now + 5)), None)
    case AckPush =>
      (w.(redis := LPush(r, job), acked := w.acked + [job]), Some(Hand(job, AckTrim)))
    case AckTrim =>
      (w.(redis := LTrim(r)), None)
    case Wait =>
      if job.retryCount >= env.MaxRetries(job.jobType) then
        (w, Some(Hand(job.(status := Dead, failedAt := Some(o.now)), Dying)))
      else
        (AfterWait(w, id, env.DelayFor(job, o.draw)), Some(Hand(job.(status := Pending, startedAt := None), Retrying)))
    case Retrying =>
      (w.(rows := UpdateRow(w.rows, job, o.dbOk)), Some(Hand(job, Requeue)))
    case Requeue =>
      (w.(redis := Enqueue(r, job, o.ms)), None)
    case Dying =>
      (w.(rows := UpdateRow(w.rows, job, o.dbOk)), Some(Hand(DeadForm(job, o.now), Hdel(GiveUp))))
    case DlqAdd =>
      (w.(redis := AddDead(r, job, o.ns)), None)
  }

  /** The same steps as the server sees them. */
  function RedisAfter(r: Redis, h: Hand, o: Oracle): Redis {
    match h.phase
    case Fetched => Enqueue(r, h.job.(status := Pending), o.ms)
    case Hdel(_) => HDel(r, h.job.id)
    case Unlock(_) => Del(r, h.job.id)
    case Delay => EnqueueDelayed(r, h.job, o.now + 5)
    case AckPush => LPush(r, h.job)
    case AckTrim => LTrim(r)
    case Requeue => Enqueue(r, h.job, o.ms)
    case DlqAdd => AddDead(r, h.job, o.ns)
    case _ => r
  }

  lemma StepRedis(env: Env, w: World, h: Hand, o: Oracle)
    requires !h.phase.Buffered?
    ensures HandStep(env, w, h, o).0.redis == RedisAfter(w.redis, h, o)
  {
    hide GateVerdict, UpdateRow, AfterRelease, Runs, Enqueue, EnqueueDelayed, HDel, Del, LPush, LTrim, AddDead;
  }

  /** How many steps are left at most. */
  function StepsLeft(phase: Phase): nat {
    match phase
    case Buffered => 13
    case Gate => 12
    case Activate => 11
    case Handler => 10
    case Complete => 9
    case Fetched => 9
    case Hdel(cause) => if cause.Failure? then 8 else 4
    case Unlock(cause) => if cause.Failure? then 7 else 3
    case Wait => 6
    case Retrying => 5
    case Dying => 5
    case Delay => 1
    case AckPush => 2
    case AckTrim => 1
    case Requeue => 1
    case DlqAdd => 1
  }

  /** Every step leads closer to the end, so Process always returns; and no step changes what the job is. */
  lemma StepAdvances(env: Env, w: World, h: Hand, o: Oracle)
    requires !h.phase.Buffered?
    ensures var (w', next) := HandStep(env, w, h, o);
            next.Some? ==>
              && !next.value.phase.Buffered?
              && StepsLeft(next.value.phase) < StepsLeft(h.phase)
              && SameJob(next.value.job, h.job)
  {
  }

  /** A hand run to its end with nobody else moving. */
  ghost function RunAlone(env: Env, w: World, h: Hand, oracle: nat -> Oracle, k: nat): World
    requires !h.phase.Buffered?
    decreases StepsLeft(h.phase)
  {
    StepAdvances(env, w, h, oracle(k));
    var (w', next) := HandStep(env, w, h, oracle(k));
    if next.None? then w' else RunAlone(env, w', next.value, oracle, k + 1)
  }
}
