/** worker/processor/job_processor.go: one call of Process, with the queue client, the retry manager and
    the job store as its collaborators. The call is proved to do exactly what the steps of Hands do when
    nobody interferes, and those steps are then summed up without mentioning them. */
module Processors {
  import opened Graphs
  import opened Jobs
  import opened SortedSets
  import opened Broker
  import opened RedisQueues
  import opened Dependency
  import opened Retry
  import opened Hands
  import opened Lives

  class JobProcessor {
    const queue: RedisQueue
    const retrier: Manager
    var handlers: set<string>
    var rows: Table
    ghost var acked: seq<Job>
    ghost var dropped: seq<Job>
    ghost var fails: map<Id, nat>
    ghost var waited: map<Id, int>

    constructor (queue: RedisQueue, retrier: Manager, rows: Table)
      ensures this.queue == queue && this.retrier == retrier && this.rows == rows
      ensures handlers == {"email", "webhook", "noop"}
      ensures acked == [] && dropped == [] && fails == map[] && waited == map[]
    {
      this.queue, this.retrier, this.rows := queue, retrier, rows;
      handlers := {"email", "webhook", "noop"};
      acked, dropped, fails, waited := [], [], map[], map[];
    }

    ghost function Setting(): Env
      reads this, retrier
    {
      Env(queue.rank, retrier.configs, handlers)
    }

    ghost function Now(): World
      reads this, queue
    {
      World(queue.db, rows, acked, dropped, fails, waited)
    }

    method Register(jobType: string)
      modifies this
      ensures handlers == old(handlers) + {jobType}
      ensures Now() == old(Now())
    {
      handlers := handlers + {jobType};
    }

    method UpdateJobStatus(job: Job, ok: bool)
      modifies `rows
      ensures rows == UpdateRow(old(rows), job, ok)
      ensures rows.Keys == old(rows).Keys && forall x :: x in rows && x != job.id ==> rows[x] == old(rows)[x]
      ensures job.id in rows ==>
                if ok then rows[job.id] == Row(job.status, old(rows)[job.id].dependencies, job.retryCount, job.startedAt,
                                               job.completedAt, job.failedAt, job.errorMessage)
                else rows[job.id] == old(rows)[job.id]
    {
      if ok && job.id in rows {
        rows := rows[job.id := rows[job.id].(status := job.status, retryCount := job.retryCount, startedAt := job.startedAt,
                                             completedAt := job.completedAt, failedAt := job.failedAt,
                                             errorMessage := job.errorMessage)];
      }
    }

    method Process(job: Job, oracle: nat -> Oracle) returns (failed: bool)
      modifies this, queue
      ensures Now() == RunAlone(old(Setting()), old(Now()), Hand(job, Gate), oracle, 0)
      ensures Setting() == old(Setting())
      ensures failed <==> FateOf(old(Setting()), old(Now()), job, oracle) in {Vanishes, Retries, Dies}
      ensures var asked := job.dependencies == [] || !oracle(0).depErr;
              var passes := asked && forall d :: d in job.dependencies && d in old(rows) ==> old(rows)[d].status == Completed;
              var succeeds := passes && job.jobType in old(handlers) && oracle(2).ok;
              && (failed <==> !asked || (passes && !succeeds))
              && acked == old(acked) + (if succeeds then
                   [job.(status := Completed, startedAt := Some(oracle(1).now), completedAt := Some(oracle(2).now))] else [])
              && Now().Fails(job.id) == old(Now()).Fails(job.id) + (if passes && !succeeds then 1 else 0)
              && dropped == old(dropped) + (if asked then [] else [job])
    {
      ghost var env, w := Setting(), Now();
      AloneGate(env, w, job, oracle);
      var open := CanRun(rows, job.dependencies, oracle(0).depErr);
      if open.None? {
        queue.Nack(job);
        dropped := dropped + [job];
        return true;
      }
      if !open.value {
        queue.Nack(job);
        var _ := queue.EnqueueDelayed(job, oracle(3).now + 5);
        return false;
      }
      failed := Execute(job, oracle);
    }

    /** Process once the gate has let the job through. */
    method Execute(job: Job, oracle: nat -> Oracle) returns (failed: bool)
      modifies this, queue
      ensures Now() == RunAlone(old(Setting()), old(Now()), Hand(job, Activate), oracle, 1)
      ensures Setting() == old(Setting())
      ensures failed <==> job.jobType !in old(handlers) || !oracle(2).ok
      ensures acked == old(acked) + (if failed then [] else
                [job.(status := Completed, startedAt := Some(oracle(1).now), completedAt := Some(oracle(2).now))])
      ensures Now().Fails(job.id) == old(Now()).Fails(job.id) + (if failed then 1 else 0)
      ensures dropped == old(dropped)
    {
      hide OnlyAdds, ClaimGone, RunAlone;
      ghost var env := Setting();
      AloneBody(env, Now(), job, oracle);
      var j := job.(status := Active, startedAt := Some(oracle(1).now));
      UpdateJobStatus(j, oracle(1).dbOk);
      if j.jobType !in handlers || !oracle(2).ok {
        HandleFailure(j, oracle(2).message, oracle);
        return true;
      }
      j := j.(status := Completed, completedAt := Some(oracle(2).now));
      AloneSuccess(env, Now(), j, oracle, 3);
      UpdateJobStatus(j, oracle(3).dbOk);
      queue.Ack(j);
      acked := acked + [j];
      return false;
    }

    method HandleFailure(job: Job, message: string, oracle: nat -> Oracle)
      modifies this, queue
      ensures Now() == RunAlone(old(Setting()), Failing(old(Now()), job.id),
                                Hand(job.(retryCount := job.retryCount + 1, errorMessage := message), Hdel(Failure)), oracle, 3)
      ensures Setting() == old(Setting())
      ensures Now().Fails(job.id) == old(Now()).Fails(job.id) + 1 && acked == old(acked) && dropped == old(dropped)
    {
      hide OnlyAdds, ClaimGone, RunAlone;
      ghost var env := Setting();
      fails := fails[job.id := Now().Fails(job.id) + 1];
      var j := job.(retryCount := job.retryCount + 1, errorMessage := message);
      AloneFailure(env, Now(), j, oracle);
      queue.Nack(j);
      RetryOrBury(j, oracle);
    }

    /** handleFailure once the claim is released: wait, then back into the queue or on to the burial. */
    method RetryOrBury(job: Job, oracle: nat -> Oracle)
      modifies this, queue
      ensures Now() == if job.retryCount >= Setting().MaxRetries(job.jobType)
                       then Buried(old(Now()), job.(status := Dead, failedAt := Some(oracle(5).now)), oracle)
                       else Requeued(AfterWait(old(Now()), job.id, Setting().DelayFor(job, oracle(5).draw)), job.(status := Pending, startedAt := None), oracle)
      ensures Setting() == old(Setting())
      ensures fails == old(fails) && acked == old(acked) && dropped == old(dropped)
    {
      hide OnlyAdds, ClaimGone, DelayOf, UpdateRow, Buried, Enqueue;
      var wait := retrier.Wait(job.jobType, job.retryCount, oracle(5).draw, false);
      if wait.Exhausted? {
        SendToDLQ(job, oracle(5).now, oracle);
        return;
      }
      waited := waited[job.id := Now().Waited(job.id) + wait.delay];
      var j := job.(status := Pending, startedAt := None);
      UpdateJobStatus(j, oracle(6).dbOk);
      queue.Enqueue(j, oracle(7).ms);
    }

    method SendToDLQ(job: Job, now: int, oracle: nat -> Oracle)
      modifies this, queue
      ensures Now() == Buried(old(Now()), job.(status := Dead, failedAt := Some(now)), oracle)
      ensures Setting() == old(Setting())
      ensures fails == old(fails) && acked == old(acked) && dropped == old(dropped)
    {
      hide OnlyAdds, ClaimGone;
      var j := job.(status := Dead, failedAt := Some(now));
      UpdateJobStatus(j, oracle(6).dbOk);
      var _ := queue.MoveToDLQ(j, oracle(6).now, oracle(9).ns);
    }
  }

  function Failing(w: World, id: Id): World {
    w.(fails := w.fails[id := w.Fails(id) + 1])
  }

  function Released(r: Redis, id: Id): Redis {
    Del(HDel(r, id), id)
  }

  /** What is left by the end of sendToDLQ. */
  function Buried(w: World, job: Job, oracle: nat -> Oracle): World {
    w.(rows := UpdateRow(w.rows, job, oracle(6).dbOk),
       redis := AddDead(Released(w.redis, job.id), DeadForm(job, oracle(6).now), oracle(9).ns))
  }

  /** What is left by a retry. */
  function Requeued(w: World, job: Job, oracle: nat -> Oracle): World {
    w.(rows := UpdateRow(w.rows, job, oracle(6).dbOk), redis := Enqueue(w.redis, job, oracle(7).ms))
  }

  // ---- the steps, several at a time ----

  lemma AloneRelease(env: Env, w: World, job: Job, cause: Cause, oracle: nat -> Oracle, k: nat)
    ensures var w' := w.(redis := Released(w.redis, job.id), dropped := if cause.GateError? then w.dropped + [job] else w.dropped);
            RunAlone(env, w, Hand(job, Hdel(cause)), oracle, k)
            == if AfterRelease(cause).None? then w' else RunAlone(env, w', Hand(job, AfterRelease(cause).value), oracle, k + 2)
  {
    var w1 := w.(redis := HDel(w.redis, job.id));
    assert RunAlone(env, w, Hand(job, Hdel(cause)), oracle, k) == RunAlone(env, w1, Hand(job, Unlock(cause)), oracle, k + 1);
  }

  lemma AloneGate(env: Env, w: World, job: Job, oracle: nat -> Oracle)
    ensures var result := RunAlone(env, w, Hand(job, Gate), oracle, 0);
            var phase := GateVerdict(w, job, oracle(0));
            && (phase == Hdel(GateError) ==>
                  result == w.(redis := Released(w.redis, job.id), dropped := w.dropped + [job]))
            && (phase == Hdel(Blocked) ==>
                  result == w.(redis := EnqueueDelayed(Released(w.redis, job.id), job, oracle(3).now + 5)))
            && (phase == Activate ==> result == RunAlone(env, w, Hand(job, Activate), oracle, 1))
  {
    var phase := GateVerdict(w, job, oracle(0));
    assert RunAlone(env, w, Hand(job, Gate), oracle, 0) == RunAlone(env, w, Hand(job, phase), oracle, 1);
    if phase.Hdel? {
      AloneRelease(env, w, job, phase.cause, oracle, 1);
    }
  }

  /** From the transition to active up to the handler's verdict. */
  lemma AloneBody(env: Env, w: World, job: Job, oracle: nat -> Oracle)
    ensures var j := job.(status := Active, startedAt := Some(oracle(1).now));
            var w1 := w.(rows := UpdateRow(w.rows, j, oracle(1).dbOk));
            RunAlone(env, w, Hand(job, Activate), oracle, 1)
            == if Runs(env, j, oracle(2)) then
                 RunAlone(env, w1, Hand(j.(status := Completed, completedAt := Some(oracle(2).now)), Complete), oracle, 3)
               else
                 RunAlone(env, Failing(w1, j.id), Hand(j.(retryCount := j.retryCount + 1, errorMessage := oracle(2).message), Hdel(Failure)), oracle, 3)
  {
    var j := job.(status := Active, startedAt := Some(oracle(1).now));
    var w1 := w.(rows := UpdateRow(w.rows, j, oracle(1).dbOk));
    assert RunAlone(env, w, Hand(job, Activate), oracle, 1) == RunAlone(env, w1, Hand(j, Handler), oracle, 2);
  }

  lemma AloneSuccess(env: Env, w: World, job: Job, oracle: nat -> Oracle, k: nat)
    ensures RunAlone(env, w, Hand(job, Complete), oracle, k)
            == w.(rows := UpdateRow(w.rows, job, oracle(k).dbOk),
                  redis := LTrim(LPush(Released(w.redis, job.id), job)),
                  acked := w.acked + [job])
  {
    var w1 := w.(rows := UpdateRow(w.rows, job, oracle(k).dbOk));
    assert RunAlone(env, w, Hand(job, Complete), oracle, k) == RunAlone(env, w1, Hand(job, Hdel(Success)), oracle, k + 1);
    AloneRelease(env, w1, job, Success, oracle, k + 1);
    var w2 := w1.(redis := Released(w1.redis, job.id));
    var w3 := w2.(redis := LPush(w2.redis, job), acked := w2.acked + [job]);
    assert RunAlone(env, w2, Hand(job, AckPush), oracle, k + 3) == RunAlone(env, w3, Hand(job, AckTrim), oracle, k + 4);
  }

  lemma AloneRetry(env: Env, w: World, job: Job, oracle: nat -> Oracle)
    ensures RunAlone(env, w, Hand(job, Retrying), oracle, 6) == Requeued(w, job, oracle)
  {
    var w1 := w.(rows := UpdateRow(w.rows, job, oracle(6).dbOk));
    assert RunAlone(env, w, Hand(job, Retrying), oracle, 6) == RunAlone(env, w1, Hand(job, Requeue), oracle, 7);
  }

  lemma AloneBurial(env: Env, w: World, job: Job, oracle: nat -> Oracle)
    ensures RunAlone(env, w, Hand(job, Dying), oracle, 6) == Buried(w, job, oracle)
  {
    var w1 := w.(rows := UpdateRow(w.rows, job, oracle(6).dbOk));
    var dead := DeadForm(job, oracle(6).now);
    assert RunAlone(env, w, Hand(job, Dying), oracle, 6) == RunAlone(env, w1, Hand(dead, Hdel(GiveUp)), oracle, 7);
    AloneRelease(env, w1, dead, GiveUp, oracle, 7);
    var w2 := w1.(redis := Released(w1.redis, job.id));
    assert RunAlone(env, w2, Hand(dead, DlqAdd), oracle, 9) == w2.(redis := AddDead(w2.redis, dead, oracle(9).ns));
  }

  /** From the counted failure to the end. */
  lemma AloneFailure(env: Env, w: World, job: Job, oracle: nat -> Oracle)
    ensures var w1 := w.(redis := Released(w.redis, job.id));
            var again := job.(status := Pending, startedAt := None);
            RunAlone(env, w, Hand(job, Hdel(Failure)), oracle, 3)
            == if job.retryCount >= env.MaxRetries(job.jobType) then
                 Buried(w1, job.(status := Dead, failedAt := Some(oracle(5).now)), oracle)
               else
                 Requeued(AfterWait(w1, job.id, env.DelayFor(job, oracle(5).draw)), again, oracle)
  {
    var w1 := w.(redis := Released(w.redis, job.id));
    AloneRelease(env, w, job, Failure, oracle, 3);
    if job.retryCount >= env.MaxRetries(job.jobType) {
      var dying := job.(status := Dead, failedAt := Some(oracle(5).now));
      assert RunAlone(env, w1, Hand(job, Wait), oracle, 5) == RunAlone(env, w1, Hand(dying, Dying), oracle, 6);
      AloneBurial(env, w1, dying, oracle);
    } else {
      var again := job.(status := Pending, startedAt := None);
      var w2 := AfterWait(w1, job.id, env.DelayFor(job, oracle(5).draw));
      assert RunAlone(env, w1, Hand(job, Wait), oracle, 5) == RunAlone(env, w2, Hand(again, Retrying), oracle, 6);
      AloneRetry(env, w2, again, oracle);
    }
  }

  // ---- how a call ends ----

  /** The five ways a call of Process can end. */
  datatype Fate = Vanishes | Waits | Succeeds | Retries | Dies

  ghost function FateOf(env: Env, w: World, job: Job, oracle: nat -> Oracle): Fate {
    if job.dependencies != [] && oracle(0).depErr then Vanishes
    else if !GateOpen(w.rows, job.dependencies) then Waits
    else if job.jobType in env.handlers && oracle(2).ok then Succeeds
    else if job.retryCount + 1 < env.MaxRetries(job.jobType) then Retries
    else Dies
  }

  ghost predicate AllWritesSucceed(oracle: nat -> Oracle) {
    forall k :: oracle(k).dbOk
  }

  /** The record a call of Process leaves behind. */
  function FinalForm(job: Job, fate: Fate, oracle: nat -> Oracle): Job {
    var tried := job.(startedAt := Some(oracle(1).now), retryCount := job.retryCount + 1, errorMessage := oracle(2).message);
    match fate
    case Vanishes => job
    case Waits => job.(scheduledAt := Some(oracle(3).now + 5), status := Pending)
    case Succeeds => job.(startedAt := Some(oracle(1).now), status := Completed, completedAt := Some(oracle(2).now))
    case Retries => tried.(status := Pending, startedAt := None)
    case Dies => tried.(status := Dead, failedAt := Some(oracle(6).now),
                        errorMessage := if oracle(2).message == "" then RETRIES_EXHAUSTED else oracle(2).message)
  }

  /** What has become of the queue: the claim is gone, and the final record is in the one place its fate
      names, next to everything that was there before. */
  ghost predicate QueueSettled(r: Redis, r': Redis, j: Job, fate: Fate, oracle: nat -> Oracle) {
    var lane := LaneOf(j.priority);
    && r'.processing == r.processing - {j.id} && r'.locks == r.locks - {j.id}
    && r'.lanes == (if fate.Retries? then r.lanes.Put(lane, r.lanes.At(lane)[Entry(j) := oracle(7).ms]) else r.lanes)
    && r'.delayed == (if fate.Waits? then r.delayed[Entry(j) := oracle(3).now + 5] else r.delayed)
    && r'.dlq == (if fate.Dies? then r.dlq[j := oracle(9).ns] else r.dlq)
    && (if fate.Succeeds? then r'.done != [] && r'.done[0] == j && r'.done[1..] <= r.done else r'.done == r.done)
    && r'.malformed == r.malformed
  }

  /** What has become of the rest: no other job's row is touched, and the row of this one only if it got
      past the gate; the histories grow by this one event. */
  ghost predicate StoreSettled(env: Env, w: World, w': World, j: Job, fate: Fate, oracle: nat -> Oracle) {
    && w'.rows.Keys == w.rows.Keys
    && (forall x :: x in w.rows && (x != j.id || fate.Vanishes? || fate.Waits?) ==> w'.rows[x] == w.rows[x])
    && (j.id in w.rows && !fate.Vanishes? && !fate.Waits? && AllWritesSucceed(oracle) ==>
          w'.rows[j.id] == Row(j.status, w.rows[j.id].dependencies, j.retryCount, j.startedAt, j.completedAt,
                               if fate.Dies? then Some(oracle(5).now) else j.failedAt,
                               if fate.Dies? then oracle(2).message else j.errorMessage))
    && w'.acked == (if fate.Succeeds? then w.acked + [j] else w.acked)
    && w'.dropped == (if fate.Vanishes? then w.dropped + [j] else w.dropped)
    && w'.Fails(j.id) == w.Fails(j.id) + (if fate.Retries? || fate.Dies? then 1 else 0)
    && w'.Waited(j.id) == w.Waited(j.id) + (if fate.Retries? then env.DelayFor(j, oracle(5).draw) else 0)
  }

  /** Process as a whole. Its doc comment promises an ack, a requeue or a burial on every path; that holds
      unless the dependency query fails, and a blocked job goes to the delayed set. */
  lemma ProcessSettles(env: Env, w: World, job: Job, oracle: nat -> Oracle)
    ensures var w' := RunAlone(env, w, Hand(job, Gate), oracle, 0);
            var fate := FateOf(env, w, job, oracle);
            var j := FinalForm(job, fate, oracle);
            SameJob(j, job) && QueueSettled(w.redis, w'.redis, j, fate, oracle) && StoreSettled(env, w, w', j, fate, oracle)
  {
    AloneGate(env, w, job, oracle);
    var fate := FateOf(env, w, job, oracle);
    if fate.Succeeds? {
      SuccessSettles(env, w, job, oracle);
    } else if fate.Retries? {
      RetrySettles(env, w, job, oracle);
    } else if fate.Dies? {
      BurialSettles(env, w, job, oracle);
    }
  }

  lemma SuccessSettles(env: Env, w: World, job: Job, oracle: nat -> Oracle)
    requires Runs(env, job, oracle(2))
    ensures var w' := RunAlone(env, w, Hand(job, Activate), oracle, 1);
            var j := FinalForm(job, Succeeds, oracle);
            QueueSettled(w.redis, w'.redis, j, Succeeds, oracle) && StoreSettled(env, w, w', j, Succeeds, oracle)
  {
    AloneBody(env, w, job, oracle);
    var a := job.(status := Active, startedAt := Some(oracle(1).now));
    var w1 := w.(rows := UpdateRow(w.rows, a, oracle(1).dbOk));
    AloneSuccess(env, w1, FinalForm(job, Succeeds, oracle), oracle, 3);
  }

  function Attempted(job: Job, oracle: nat -> Oracle): Job {
    job.(status := Active, startedAt := Some(oracle(1).now), retryCount := job.retryCount + 1, errorMessage := oracle(2).message)
  }

  function AfterAttempt(w: World, job: Job, oracle: nat -> Oracle): World {
    var a := job.(status := Active, startedAt := Some(oracle(1).now));
    var w1 := Failing(w.(rows := UpdateRow(w.rows, a, oracle(1).dbOk)), job.id);
    w1.(redis := Released(w1.redis, job.id))
  }

  lemma AloneAttempt(env: Env, w: World, job: Job, oracle: nat -> Oracle)
    requires !Runs(env, job, oracle(2))
    ensures var w1, j := AfterAttempt(w, job, oracle), Attempted(job, oracle);
            RunAlone(env, w, Hand(job, Activate), oracle, 1)
            == if j.retryCount >= env.MaxRetries(job.jobType) then
                 Buried(w1, j.(status := Dead, failedAt := Some(oracle(5).now)), oracle)
               else Requeued(AfterWait(w1, job.id, env.DelayFor(j, oracle(5).draw)), j.(status := Pending, startedAt := None), oracle)
  {
    AloneBody(env, w, job, oracle);
    var a := job.(status := Active, startedAt := Some(oracle(1).now));
    var w1 := Failing(w.(rows := UpdateRow(w.rows, a, oracle(1).dbOk)), a.id);
    AloneFailure(env, w1, Attempted(job, oracle), oracle);
  }

  lemma RetrySettles(env: Env, w: World, job: Job, oracle: nat -> Oracle)
    requires !Runs(env, job, oracle(2)) && job.retryCount + 1 < env.MaxRetries(job.jobType)
    ensures var w' := RunAlone(env, w, Hand(job, Activate), oracle, 1);
            var j := FinalForm(job, Retries, oracle);
            QueueSettled(w.redis, w'.redis, j, Retries, oracle) && StoreSettled(env, w, w', j, Retries, oracle)
  {
    AloneAttempt(env, w, job, oracle);
  }

  lemma BurialSettles(env: Env, w: World, job: Job, oracle: nat -> Oracle)
    requires !Runs(env, job, oracle(2)) && job.retryCount + 1 >= env.MaxRetries(job.jobType)
    ensures var w' := RunAlone(env, w, Hand(job, Activate), oracle, 1);
            var j := FinalForm(job, Dies, oracle);
            QueueSettled(w.redis, w'.redis, j, Dies, oracle) && StoreSettled(env, w, w', j, Dies, oracle)
  {
    AloneAttempt(env, w, job, oracle);
  }

  // ---- a job that never succeeds ----

  /** The record after `k` calls of Process, each in whatever world it finds. */
  ghost function RecordAfter(env: Env, worlds: nat -> World, oracles: nat -> nat -> Oracle, job: Job, k: nat): Job {
    if k == 0 then job
    else
      var before := RecordAfter(env, worlds, oracles, job, k - 1);
      FinalForm(before, FateOf(env, worlds(k - 1), before, oracles(k - 1)), oracles(k - 1))
  }

  ghost function FateAt(env: Env, worlds: nat -> World, oracles: nat -> nat -> Oracle, job: Job, k: nat): Fate {
    FateOf(env, worlds(k), RecordAfter(env, worlds, oracles, job, k), oracles(k))
  }

  /** How many of the first `k` calls got past the gate. */
  ghost function Tries(env: Env, worlds: nat -> World, oracles: nat -> nat -> Oracle, job: Job, k: nat): nat {
    if k == 0 then 0
    else Tries(env, worlds, oracles, job, k - 1) + (if FateAt(env, worlds, oracles, job, k - 1).Waits? then 0 else 1)
  }

  /** As long as it neither succeeds nor is lost to a failed query, a job is retried until its attempt
      number max(1, MaxRetries - r0) and buried by that one. Calls that only find it blocked do not
      count, and neither does anything the world does in between. */
  lemma {:induction false} BuriedByLastAttempt(env: Env, worlds: nat -> World, oracles: nat -> nat -> Oracle, job: Job, k: nat)
    requires forall i :: 0 <= i <= k ==> FateAt(env, worlds, oracles, job, i) in {Waits, Retries, Dies}
    requires forall i :: 0 <= i < k ==> !FateAt(env, worlds, oracles, job, i).Dies?
    ensures var j, n := RecordAfter(env, worlds, oracles, job, k), Tries(env, worlds, oracles, job, k);
            && SameJob(j, job) && j.retryCount == job.retryCount + n && n < Attempts(env, job)
            && match FateAt(env, worlds, oracles, job, k)
               case Retries => n + 1 < Attempts(env, job)
               case Dies => n + 1 == Attempts(env, job)
               case _ => true
  {
    if k > 0 {
      BuriedByLastAttempt(env, worlds, oracles, job, k - 1);
    }
  }
}
