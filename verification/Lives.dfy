/** What is true of a job's record at every point of its life: its identity never changes, its retry
    count is the submitted one plus the number of failures so far, and where it is tells how those
    compare with the retry limit. */
module Lives {
  import opened Graphs
  import opened Jobs
  import opened Hands
  import opened Protocol
  import opened Placement

  /** How many attempts a job may fail before it is given up: one at least, even with no retries left. */
  function Attempts(env: Env, submitted: Job): int {
    var left := env.MaxRetries(submitted.jobType) - submitted.retryCount;
    if left < 1 then 1 else left
  }

  datatype Stage = Open | JustFailed | Spent

  /** `Open`: may still be attempted. `JustFailed`: the last attempt failed and the limit has not been
      looked at yet. `Spent`: given up. */
  predicate InStage(env: Env, submitted: Job, fails: nat, stage: Stage) {
    match stage
    case Open => fails < Attempts(env, submitted)
    case JustFailed => 1 <= fails <= Attempts(env, submitted)
    case Spent => fails == Attempts(env, submitted)
  }

  function StageOf(phase: Phase): Stage {
    match phase
    case Hdel(Failure) => JustFailed
    case Unlock(Failure) => JustFailed
    case Wait => JustFailed
    case Dying => Spent
    case Hdel(GiveUp) => Spent
    case Unlock(GiveUp) => Spent
    case DlqAdd => Spent
    case _ => Open
  }

  /** The status the record carries when a phase is about to write it to the database. */
  predicate StatusFits(job: Job, phase: Phase) {
    && (phase.Complete? ==> job.status == Completed)
    && (phase.Retrying? ==> job.status == Pending)
    && (phase.Dying? ==> job.status == Dead)
  }

  ghost predicate Record(env: Env, s: System, id: Id, job: Job, stage: Stage) {
    && id in s.submitted && job.id == id && SameJob(job, s.submitted[id])
    && job.retryCount == s.submitted[id].retryCount + s.w.Fails(id)
    && InStage(env, s.submitted[id], s.w.Fails(id), stage)
  }

  ghost predicate Standing(env: Env, s: System, id: Id, p: Place) {
    match p
    case InLane(lane, job) => Record(env, s, id, job, Open) && LaneOf(job.priority) == lane
    case InDelayed(job) => Record(env, s, id, job, Open)
    case InHand(a) =>
      && a in s.hands && StatusFits(s.hands[a].job, s.hands[a].phase)
      && Record(env, s, id, s.hands[a].job, StageOf(s.hands[a].phase))
    case Acked(k) => k < |s.w.acked| && Record(env, s, id, s.w.acked[k], Open)
    case InDlq(job) => Record(env, s, id, job, Spent)
    case Dropped(k) => k < |s.w.dropped| && Record(env, s, id, s.w.dropped[k], Open)
  }

  ghost predicate Alive(env: Env, s: System, loc: Locations) {
    forall id :: id in loc ==> Standing(env, s, id, loc[id])
  }

  /** A job keeps its standing as long as nothing of its own changes. */
  ghost predicate Untouched(s: System, s': System, id: Id, p: Place) {
    && id in s.submitted && id in s'.submitted && s'.submitted[id] == s.submitted[id]
    && s'.w.Fails(id) == s.w.Fails(id)
    && (p.InHand? ==> p.actor in s.hands && p.actor in s'.hands && s'.hands[p.actor] == s.hands[p.actor])
    && s.w.acked <= s'.w.acked && s.w.dropped <= s'.w.dropped
  }

  lemma KeepsStanding(env: Env, s: System, s': System, id: Id, p: Place)
    requires Standing(env, s, id, p) && Untouched(s, s', id, p)
    ensures Standing(env, s', id, p)
  {
  }

  /** Everybody but `x` is untouched, and `x` is in order where it is now. */
  lemma OneChanges(env: Env, s: System, s': System, loc: Locations, x: Id, q: Place)
    requires Alive(env, s, loc)
    requires forall id :: id in loc && id != x ==> Untouched(s, s', id, loc[id])
    requires Standing(env, s', x, q)
    ensures Alive(env, s', loc[x := q])
  {
    forall id | id in loc && id != x
      ensures Standing(env, s', id, loc[id])
    {
      KeepsStanding(env, s, s', id, loc[id]);
    }
  }

  lemma NobodyChanges(env: Env, s: System, s': System, loc: Locations)
    requires Alive(env, s, loc)
    requires forall id :: id in loc ==> Untouched(s, s', id, loc[id])
    ensures Alive(env, s', loc)
  {
    forall id | id in loc
      ensures Standing(env, s', id, loc[id])
    {
      KeepsStanding(env, s, s', id, loc[id]);
    }
  }

  // ---- the step of a hand ----

  lemma StepHistory(env: Env, w: World, h: Hand, o: Oracle)
    requires !h.phase.Buffered?
    ensures var (w', next) := HandStep(env, w, h, o);
            && w.acked <= w'.acked && w.dropped <= w'.dropped
            && forall id :: id != h.job.id || !h.phase.Handler? ==> w'.Fails(id) == w.Fails(id)
  {
  }

  /** Only the handler changes the retry count, and only the look at the limit changes the stage. */
  lemma QuietStep(env: Env, w: World, h: Hand, o: Oracle)
    requires !h.phase.Buffered? && !h.phase.Handler? && !h.phase.Wait? && StatusFits(h.job, h.phase)
    ensures var (w', next) := HandStep(env, w, h, o);
            next.Some? ==>
              && SameJob(next.value.job, h.job) && next.value.job.retryCount == h.job.retryCount
              && StageOf(next.value.phase) == StageOf(h.phase) && StatusFits(next.value.job, next.value.phase)
  {
  }

  /** The record in the hand after a step. */
  lemma StepKeepsRecord(env: Env, s: System, h: Hand, o: Oracle)
    requires !h.phase.Buffered? && StatusFits(h.job, h.phase)
    requires Record(env, s, h.job.id, h.job, StageOf(h.phase))
    ensures var (w', next) := HandStep(env, s.w, h, o);
            next.Some? ==>
              StatusFits(next.value.job, next.value.phase)
              && Record(env, s.(w := w'), h.job.id, next.value.job, StageOf(next.value.phase))
  {
    StepHistory(env, s.w, h, o);
    if !h.phase.Handler? && !h.phase.Wait? {
      QuietStep(env, s.w, h, o);
    }
  }

  /** And wherever the job goes when the hand lets go of it. */
  lemma StepDeliversRecord(env: Env, s: System, h: Hand, o: Oracle)
    requires !h.phase.Buffered? && Destination(s, h, o).Some?
    requires Record(env, s, h.job.id, h.job, StageOf(h.phase))
    ensures Standing(env, s.(w := HandStep(env, s.w, h, o).0), h.job.id, Destination(s, h, o).value)
  {
    StepHistory(env, s.w, h, o);
  }
}
