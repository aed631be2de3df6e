/** The queue client of worker/queue/redis_queue.go. `db` is the server it talks to. Every method is
    proved against the state functions of Broker; the scripts are written out step by step. */
module RedisQueues {
  import opened Graphs
  import opened Jobs
  import opened SortedSets
  import opened Broker

  class RedisQueue {
    var db: Redis
    const rank: Member -> real

    constructor (rank: Member -> real)
      ensures db == EMPTY && this.rank == rank
    {
      this.rank := rank;
      db := EMPTY;
    }

    method Enqueue(job: Job, ms: int)
      modifies this
      ensures db == Broker.Enqueue(old(db), job, ms)
      ensures if job.priority >= 300 then OnlyAdds(old(db).lanes.high, db.lanes.high, Entry(job), ms)
              else db.lanes.high == old(db).lanes.high
      ensures if 200 <= job.priority < 300 then OnlyAdds(old(db).lanes.medium, db.lanes.medium, Entry(job), ms)
              else db.lanes.medium == old(db).lanes.medium
      ensures if job.priority < 200 then OnlyAdds(old(db).lanes.low, db.lanes.low, Entry(job), ms)
              else db.lanes.low == old(db).lanes.low
      ensures db == old(db).(lanes := db.lanes)
    {
      var lane := LaneOf(job.priority);
      var z := db.lanes.At(lane);
      db := db.(lanes := db.lanes.Put(lane, z[Entry(job) := ms]));
    }

    method EnqueueDelayed(job: Job, at: int) returns (j: Job)
      modifies this
      ensures j == DelayedForm(job, at)
      ensures db == Broker.EnqueueDelayed(old(db), job, at)
      ensures j == job.(scheduledAt := Some(at), status := Pending)
      ensures OnlyAdds(old(db).delayed, db.delayed, Entry(j), at) && db == old(db).(delayed := db.delayed)
    {
      j := job.(scheduledAt := Some(at));
      j := j.(status := Pending);
      db := db.(delayed := db.delayed[Entry(j) := at]);
    }

    method FirstOf(z: ZSet) returns (m: Member)
      requires Injective(rank) && z != map[]
      ensures m == First(rank, z)
    {
      FirstExists(rank, z);
      m :| m in z && IsFirst(rank, z, m);
      FirstIsUnique(rank, z, m, First(rank, z));
    }

    /** ZPOPMIN. */
    method PopMin(lane: Lane) returns (m: Member, score: int)
      requires Injective(rank) && db.lanes.At(lane) != map[]
      modifies this
      ensures var z := old(db).lanes.At(lane);
              && m == First(rank, z)
              && score == z[m]
              && db == old(db).(lanes := old(db).lanes.Put(lane, z - {m}))
    {
      var z := db.lanes.At(lane);
      m := FirstOf(z);
      score := z[m];
      db := db.(lanes := db.lanes.Put(lane, z - {m}));
    }

    /** try_claim of the claim script on one lane. A locked head is put back with its score. */
    method TryClaim(lane: Lane) returns (claimed: Option<Job>)
      requires Injective(rank)
      modifies this
      ensures claimed == if Offers(rank, old(db), lane) then Some(First(rank, old(db).lanes.At(lane)).job) else None
      ensures db == AfterTry(rank, old(db), lane)
    {
      if db.lanes.At(lane) == map[] {
        return None;
      }
      ghost var z := db.lanes.At(lane);
      var m, score := PopMin(lane);
      if !m.Entry? {
        db := db.(malformed := [m] + db.malformed);
        return None;
      }
      var job := m.job;
      if job.id in db.locks {
        var rest := db.lanes.At(lane);
        db := db.(lanes := db.lanes.Put(lane, rest[m := score]));
        assert (z - {m})[m := score] == z;
        return None;
      }
      db := db.(locks := db.locks + {job.id});
      db := db.(processing := db.processing[job.id := job]);
      return Some(job);
    }

    /** The claim script: high, then medium, then low. */
    method Dequeue() returns (job: Option<Job>)
      requires Injective(rank)
      modifies this
      ensures job == Claimed(rank, old(db))
      ensures db == AfterClaim(rank, old(db))
    {
      ghost var r := db;
      job := TryClaim(High);
      if job.Some? {
        ServedByHigh(rank, r);
        return;
      }
      FailedTry(rank, r, High, Medium);
      FailedTry(rank, r, High, Low);
      ghost var r1 := db;
      job := TryClaim(Medium);
      if job.Some? {
        ServedByMedium(rank, r);
        return;
      }
      FailedTry(rank, r1, Medium, Low);
      if Offers(rank, r, Low) {
        ServedByLow(rank, r);
      } else {
        ServedByNone(rank, r);
      }
      job := TryClaim(Low);
    }

    // ---- pipelines, run here without interference ----

    method Ack(job: Job)
      modifies this
      ensures db == LTrim(LPush(Del(HDel(old(db), job.id), job.id), job))
      ensures ClaimGone(old(db), db, job.id)
      ensures |db.done| > 0 && db.done[0] == job && db.done[1..] <= old(db).done
      ensures |db.done| == if |old(db).done| < 10_000 then |old(db).done| + 1 else 10_000
      ensures db == old(db).(processing := db.processing, locks := db.locks, done := db.done)
    {
      db := db.(processing := db.processing - {job.id});
      db := db.(locks := db.locks - {job.id});
      db := db.(done := [job] + db.done);
      if |db.done| > DONE_LIST_CAP + 1 {
        db := db.(done := db.done[..DONE_LIST_CAP + 1]);
      }
    }

    method Nack(job: Job)
      modifies this
      ensures db == Del(HDel(old(db), job.id), job.id)
      ensures ClaimGone(old(db), db, job.id)
      ensures db == old(db).(processing := db.processing, locks := db.locks)
    {
      db := db.(processing := db.processing - {job.id});
      db := db.(locks := db.locks - {job.id});
    }

    method MoveToDLQ(job: Job, now: int, ns: int) returns (j: Job)
      modifies this
      ensures j == DeadForm(job, now)
      ensures db == AddDead(Del(HDel(old(db), job.id), job.id), j, ns)
      ensures j == job.(status := Dead, failedAt := Some(now),
                        errorMessage := if job.errorMessage == "" then "all retry attempts exhausted" else job.errorMessage)
      ensures ClaimGone(old(db), db, job.id)
      ensures j in db.dlq && db.dlq[j] == ns && forall x :: x in old(db).dlq && x != j ==> x in db.dlq && db.dlq[x] == old(db).dlq[x]
      ensures db == old(db).(processing := db.processing, locks := db.locks, dlq := db.dlq)
    {
      j := job.(status := Dead);
      j := j.(failedAt := Some(now));
      if j.errorMessage == "" {
        j := j.(errorMessage := RETRIES_EXHAUSTED);
      }
      db := db.(processing := db.processing - {j.id});
      db := db.(locks := db.locks - {j.id});
      db := db.(dlq := db.dlq[j := ns]);
    }

    // ---- the drain script ----

    method ListAll(z: ZSet) returns (all: seq<Member>)
      requires Injective(rank)
      ensures all == Listing(rank, z)
      decreases |z|
    {
      if |z| == 0 {
        return [];
      }
      var m := FirstOf(z);
      ListingStep(rank, z);
      all := ListAll(z - {m});
      all := [m] + all;
    }

    method RangeByScore(cutoff: int, limit: int) returns (items: seq<Member>)
      requires Injective(rank)
      ensures items == Range(rank, db.delayed, cutoff, limit)
    {
      items := ListAll(UpTo(db.delayed, cutoff));
      if 0 <= limit < |items| {
        items := items[..limit];
      }
    }

    method MoveToLane(m: Member, score: int)
      modifies this
      ensures db == MovedToLane(old(db), m, score)
    {
      var lane := LaneOf(m.Priority());
      db := db.(delayed := db.delayed - {m});
      db := db.(lanes := db.lanes.Put(lane, db.lanes.At(lane)[m := score]));
    }

    method DrainDelayed(cutoff: int, ms: int, limit: int) returns (moved: nat)
      requires Injective(rank)
      modifies this
      ensures db == AfterDrain(rank, old(db), cutoff, ms, limit)
      ensures moved == |Promoted(rank, old(db), cutoff, limit)|
      ensures forall job :: Entry(job) in old(db).delayed && Entry(job) !in db.delayed ==>
                Entry(job) in if job.priority >= 300 then db.lanes.high else if job.priority >= 200 then db.lanes.medium else db.lanes.low
    {
      DrainedByPriority(old(db), Promoted(rank, old(db), cutoff, limit), ms);
      var items := RangeByScore(cutoff, limit);
      moved := MoveTables(items, ms);
    }

    /** The loop over the batch. */
    method MoveTables(items: seq<Member>, ms: int) returns (moved: nat)
      modifies this
      ensures db == Drained(old(db), Tables(items), ms)
      ensures moved == |Tables(items)|
    {
      hide Drained, Tables;
      ghost var r := db;
      moved := 0;
      DrainedNothing(r, ms);
      for i := 0 to |items|
        invariant MovedSoFar(r, items[..i], ms, db, moved)
      {
        assert items[..i + 1] == items[..i] + [items[i]];
        moved := MoveTable(items[i], ms, moved, r, items[..i]);
      }
      assert items[..|items|] == items;
    }

    /** An entry that does not decode stays where it is. */
    method MoveTable(m: Member, ms: int, moved0: nat, ghost r: Redis, ghost done: seq<Member>) returns (moved: nat)
      requires MovedSoFar(r, done, ms, db, moved0)
      modifies this
      ensures MovedSoFar(r, done + [m], ms, db, moved)
    {
      hide Drained, MovedToLane;
      assert (done + [m])[..|done|] == done;
      moved := moved0;
      if m.IsTable() {
        DrainedSnoc(r, Tables(done), m, ms);
        MoveToLane(m, ms + moved);
        moved := moved + 1;
      }
    }
  }

  ghost predicate MovedSoFar(r: Redis, done: seq<Member>, ms: int, db: Redis, moved: nat) {
    db == Drained(r, Tables(done), ms) && moved == |Tables(done)|
  }

  /** A job that has been drained is in the set for its priority. */
  lemma DrainedByPriority(r: Redis, moved: seq<Member>, ms: int)
    ensures var r' := Drained(r, moved, ms);
            forall job :: Entry(job) in r.delayed && Entry(job) !in r'.delayed ==>
              Entry(job) in if job.priority >= 300 then r'.lanes.high else if job.priority >= 200 then r'.lanes.medium else r'.lanes.low
  {
    forall job | Entry(job) in moved
      ensures var m, r' := Entry(job), Drained(r, moved, ms);
              m in if job.priority >= 300 then r'.lanes.high else if job.priority >= 200 then r'.lanes.medium else r'.lanes.low
    {
      LaneMembersAfterDrain(r.lanes.high, High, moved, ms, Entry(job));
      LaneMembersAfterDrain(r.lanes.medium, Medium, moved, ms, Entry(job));
      LaneMembersAfterDrain(r.lanes.low, Low, moved, ms, Entry(job));
    }
  }

  /** What one call of try_claim leaves behind. */
  ghost function AfterTry(rank: Member -> real, r: Redis, lane: Lane): Redis {
    var z := r.lanes.At(lane);
    if Offers(rank, r, lane) then
      var m := First(rank, z);
      r.(lanes := r.lanes.Put(lane, z - {m}),
         processing := r.processing[m.job.id := m.job],
         locks := r.locks + {m.job.id})
    else if Clogged(rank, r, lane) then
      var m := First(rank, z);
      r.(lanes := r.lanes.Put(lane, z - {m}), malformed := [m] + r.malformed)
    else r
  }

  lemma VisitedLanes(rank: Member -> real, r: Redis)
    ensures Visited(rank, r, High)
    ensures Visited(rank, r, Medium) <==> !Offers(rank, r, High)
    ensures Visited(rank, r, Low) <==> !Offers(rank, r, High) && !Offers(rank, r, Medium)
  {
    assert Outranks(High, Medium) && Outranks(High, Low) && Outranks(Medium, Low);
  }

  /** A try that fails changes neither the locks nor the other lanes. */
  lemma FailedTry(rank: Member -> real, r: Redis, lane: Lane, other: Lane)
    requires !Offers(rank, r, lane) && other != lane
    ensures var r' := AfterTry(rank, r, lane);
            && r'.lanes.At(other) == r.lanes.At(other)
            && (Offers(rank, r', other) <==> Offers(rank, r, other))
            && (Clogged(rank, r', other) <==> Clogged(rank, r, other))
            && r' == r.(lanes := r'.lanes, malformed := r'.malformed)
  {
  }

  /** The same for a visited lane, in the words of the whole claim. */
  lemma FailedTryAsVisit(rank: Member -> real, r: Redis, lane: Lane)
    requires !Offers(rank, r, lane) && Visited(rank, r, lane)
    ensures AfterTry(rank, r, lane)
            == r.(lanes := r.lanes.Put(lane, LaneAfterClaim(rank, r, lane)), malformed := SetAside(rank, r, lane) + r.malformed)
  {
  }

  lemma ServedByHigh(rank: Member -> real, r: Redis)
    requires Offers(rank, r, High)
    ensures AfterClaim(rank, r) == AfterTry(rank, r, High)
    ensures Claimed(rank, r) == Some(First(rank, r.lanes.high).job)
  {
    VisitedLanes(rank, r);
  }

  lemma ServedByMedium(rank: Member -> real, r: Redis)
    requires !Offers(rank, r, High) && Offers(rank, r, Medium)
    ensures AfterClaim(rank, r) == AfterTry(rank, AfterTry(rank, r, High), Medium)
    ensures Claimed(rank, r) == Some(First(rank, r.lanes.medium).job)
  {
    VisitedLanes(rank, r);
    FailedTry(rank, r, High, Medium);
  }

  /** Two failed tries, as one state. */
  lemma TwoFailedTries(rank: Member -> real, r: Redis)
    requires !Offers(rank, r, High) && !Offers(rank, r, Medium)
    ensures AfterTry(rank, AfterTry(rank, r, High), Medium)
            == r.(lanes := Lanes(LaneAfterClaim(rank, r, High), LaneAfterClaim(rank, r, Medium), r.lanes.low),
                  malformed := SetAside(rank, r, Medium) + SetAside(rank, r, High) + r.malformed)
  {
    VisitedLanes(rank, r);
    FailedTryAsVisit(rank, r, High);
    var r1 := AfterTry(rank, r, High);
    FailedTry(rank, r, High, Medium);
    if Clogged(rank, r, Medium) {
      assert AfterTry(rank, r1, Medium).lanes.high == LaneAfterClaim(rank, r, High);
    }
  }

  lemma ServedByLow(rank: Member -> real, r: Redis)
    requires !Offers(rank, r, High) && !Offers(rank, r, Medium) && Offers(rank, r, Low)
    ensures AfterClaim(rank, r) == AfterTry(rank, AfterTry(rank, AfterTry(rank, r, High), Medium), Low)
    ensures Claimed(rank, r) == Some(First(rank, r.lanes.low).job)
  {
    VisitedLanes(rank, r);
    TwoFailedTries(rank, r);
    assert SetAside(rank, r, Low) == [];
  }

  /** The third try finds the low lane as it was at the start. */
  lemma ThirdFailedTry(rank: Member -> real, r: Redis, high: ZSet, medium: ZSet, malformed: seq<Member>)
    requires !Offers(rank, r, Low) && Visited(rank, r, Low)
    ensures AfterTry(rank, r.(lanes := Lanes(high, medium, r.lanes.low), malformed := malformed), Low)
            == r.(lanes := Lanes(high, medium, LaneAfterClaim(rank, r, Low)), malformed := SetAside(rank, r, Low) + malformed)
  {
  }

  lemma ServedByNone(rank: Member -> real, r: Redis)
    requires !Offers(rank, r, High) && !Offers(rank, r, Medium) && !Offers(rank, r, Low)
    ensures AfterClaim(rank, r) == AfterTry(rank, AfterTry(rank, AfterTry(rank, r, High), Medium), Low)
    ensures Claimed(rank, r) == None
  {
    hide AfterTry, LaneAfterClaim, SetAside, Offers, Visited;
    VisitedLanes(rank, r);
    TwoFailedTries(rank, r);
    ThirdFailedTry(rank, r, LaneAfterClaim(rank, r, High), LaneAfterClaim(rank, r, Medium),
                   SetAside(rank, r, Medium) + SetAside(rank, r, High) + r.malformed);
    assert SetAside(rank, r, Low) + (SetAside(rank, r, Medium) + SetAside(rank, r, High) + r.malformed)
        == SetAside(rank, r, Low) + SetAside(rank, r, Medium) + SetAside(rank, r, High) + r.malformed;
  }

  function MovedToLane(r: Redis, m: Member, score: int): Redis {
    var lane := LaneOf(m.Priority());
    r.(delayed := r.delayed - {m}, lanes := r.lanes.Put(lane, r.lanes.At(lane)[m := score]))
  }

  lemma DrainedNothing(r: Redis, ms: int)
    ensures Drained(r, [], ms) == r
  {
    assert Elements<Member>([]) == {};
    assert r.delayed - {} == r.delayed;
  }

  lemma DrainedSnoc(r: Redis, moved: seq<Member>, m: Member, ms: int)
    ensures Drained(r, moved + [m], ms) == MovedToLane(Drained(r, moved, ms), m, ms + |moved|)
  {
    assert (moved + [m])[..|moved|] == moved;
    assert Elements(moved + [m]) == Elements(moved) + {m};
    assert r.delayed - Elements(moved + [m]) == r.delayed - Elements(moved) - {m};
  }
}
