/** worker/pool/worker_pool.go: the pool's own state and its loops. Go's scheduling of the loops against each
    other is what Protocol models; here one loop at a time runs, and Turns shows that this happens there. */
module WorkerPools {
  import opened Graphs
  import opened Jobs
  import opened SortedSets
  import opened Broker
  import opened RedisQueues
  import opened Hands
  import opened Processors
  import Protocol
  import opened BackPressure
  import opened Locks

  datatype Config = Config(
    minWorkers: int,
    maxWorkers: int,
    jobChannelBuffer: int,
    idleTimeout: int,
    highWatermark: int,
    lowWatermark: int)

  /** A worker's statistics; `lastActiveAt` is 0 as long as it has not finished a job. */
  datatype Worker = Worker(startedAt: int, lastActiveAt: int, jobsProcessed: nat, errors: nat, cancelled: bool)
  {
    /** When it last finished a job or, if it has not, when it started. */
    function IdleSince(): (since: int)
      ensures lastActiveAt == 0 ==> since == startedAt
      ensures lastActiveAt != 0 ==> since == lastActiveAt
    {
      if lastActiveAt == 0 then startedAt else lastActiveAt
    }
  }

  function IdleTime(w: Worker, now: int): int {
    now - w.IdleSince()
  }

  /** What a tick of the scaler finds: the workers that have exited since the last one and, unless its
      query failed, the depth of the queue. */
  datatype ScaleTick = ScaleTick(now: int, depth: Option<int>, left: set<nat>)

  /** What one round of the fetcher meets: whether the claim fails, and whether the wait for a free slot
      is ended by the end of the context. */
  datatype Poll = Poll(fails: bool, done: bool, ms: int)

  const MIN_BACKOFF := 10_000_000
  const MAX_BACKOFF := 1_000_000_000

  class Pool {
    const cfg: Config
    const queue: RedisQueue
    const proc: JobProcessor
    const capacity: nat
    var jobCh: seq<Job>
    var workers: map<nat, Worker>
    var nextId: nat
    ghost var delivered: seq<Job>
    ghost var taken: seq<Job>

    /** `delivered` is every job ever put on the channel and `taken` every job ever received from it, both
        in the order in which that happened: the channel is first in, first out. */
    ghost predicate Valid()
      reads this
    {
      && proc.queue == queue && Injective(queue.rank)
      && PoolFits(View(0))
      && taken + jobCh == delivered
    }

    /** The pool as Protocol sees it, with `head` jobs received so far. */
    ghost function View(head: nat): Protocol.Pool
      reads this
    {
      Protocol.Pool(Floor(cfg.minWorkers), Floor(cfg.maxWorkers), capacity, workers.Keys, nextId, head, head + |jobCh|)
    }

    constructor (cfg: Config, queue: RedisQueue, proc: JobProcessor)
      requires proc.queue == queue && Injective(queue.rank)
      requires cfg.jobChannelBuffer <= 0 ==> cfg.maxWorkers >= 0
      ensures Valid() && workers == map[] && jobCh == [] && nextId == 0 && delivered == [] && taken == []
      ensures this.cfg.minWorkers == cfg.minWorkers && this.cfg.maxWorkers == cfg.maxWorkers
      ensures this.queue == queue && this.proc == proc
      ensures capacity == if cfg.jobChannelBuffer <= 0 then cfg.maxWorkers * 2 else cfg.jobChannelBuffer
    {
      var buffer := if cfg.jobChannelBuffer <= 0 then cfg.maxWorkers * 2 else cfg.jobChannelBuffer;
      this.cfg := cfg.(jobChannelBuffer := buffer);
      this.queue, this.proc, capacity := queue, proc, buffer;
      jobCh, workers, nextId := [], map[], 0;
      delivered, taken := [], [];
    }

    /** Brings up the initial cohort. The result is a pool as Protocol starts it. */
    method Start(now: int)
      requires Valid() && workers == map[] && jobCh == [] && nextId == 0
      modifies `workers, `nextId
      ensures Valid() && Protocol.FreshPool(View(0))
      ensures forall id: nat :: id in workers <==> id < cfg.minWorkers
      ensures forall id :: id in workers ==> workers[id] == Worker(now, 0, 0, 0, false)
    {
      SpawnCohort(now);
      assert workers.Keys == Protocol.FirstIds(nextId);
      FreshPoolFits(View(0));
    }

    /** The loop of Start. */
    method SpawnCohort(now: int)
      requires workers == map[] && nextId == 0
      modifies `workers, `nextId
      ensures nextId == Floor(cfg.minWorkers) && Cohort(workers, nextId, now)
    {
      var i := 0;
      while i < cfg.minWorkers
        invariant 0 <= i <= Floor(cfg.minWorkers)
        invariant nextId == i && Cohort(workers, i, now)
      {
        CohortGrows(workers, i, now);
        SpawnWorker(now);
        i := i + 1;
      }
    }

    method SpawnWorker(now: int)
      modifies `workers, `nextId
      ensures nextId == old(nextId) + 1
      ensures workers == old(workers)[old(nextId) := Worker(now, 0, 0, 0, false)]
    {
      var id := nextId;
      nextId := nextId + 1;
      workers := workers[id := Worker(now, 0, 0, 0, false)];
    }

    /** Tells the longest-idle worker to stop, if one has been idle long enough. It stays tracked. */
    method EvictIdleWorker(now: int) returns (removed: int)
      modifies `workers
      ensures removed == -1 <==> workers == old(workers) && NobodyIdle(old(workers), cfg.idleTimeout, now)
      ensures removed != -1 ==>
                removed >= 0 && LongestIdle(old(workers), cfg.idleTimeout, now, removed)
                && workers == old(workers)[removed := old(workers)[removed].(cancelled := true)]
      ensures removed == -1 <==> forall w :: w in old(workers).Values ==> now - w.IdleSince() < cfg.idleTimeout || now <= w.IdleSince()
      ensures removed != -1 ==>
                && removed in old(workers) && now - old(workers)[removed].IdleSince() >= cfg.idleTimeout
                && forall w :: w in old(workers).Values ==> old(workers)[removed].IdleSince() <= w.IdleSince()
    {
      var longestIdle := 0;
      removed := -1;
      var todo := workers.Keys;
      while todo != {}
        invariant todo <= workers.Keys
        invariant longestIdle >= 0
        invariant removed == -1 ==> longestIdle == 0
        invariant removed != -1 ==>
                    removed >= 0 && removed in workers && IsIdle(workers[removed], cfg.idleTimeout, now)
                    && longestIdle == IdleTime(workers[removed], now)
        invariant forall id :: id in workers && id !in todo && IsIdle(workers[id], cfg.idleTimeout, now) ==>
                    IdleTime(workers[id], now) <= longestIdle
      {
        var id :| id in todo;
        var idle := now - workers[id].IdleSince();
        if idle >= cfg.idleTimeout && idle > longestIdle {
          longestIdle := idle;
          removed := id;
        }
        todo := todo - {id};
      }
      if removed != -1 {
        workers := workers[removed := workers[removed].(cancelled := true)];
      }
    }

    /** One tick of the scaler. */
    method Scale(now: int, depth: Option<int>)
      requires Valid()
      modifies `workers, `nextId
      ensures Valid()
      ensures if depth.Some? && depth.value > cfg.highWatermark && |old(workers)| < cfg.maxWorkers then
                workers == old(workers)[old(nextId) := Worker(now, 0, 0, 0, false)] && nextId == old(nextId) + 1
              else if depth.Some? && depth.value <= cfg.lowWatermark && |old(workers)| > cfg.minWorkers then
                Evicted(old(workers), workers, cfg.idleTimeout, now) && nextId == old(nextId)
              else
                workers == old(workers) && nextId == old(nextId)
      ensures forall id :: id in workers && workers[id].cancelled && (id in old(workers) ==> !old(workers)[id].cancelled) ==>
                id in old(workers) && now - old(workers)[id].IdleSince() >= cfg.idleTimeout
    {
      if depth.None? {
        return;
      }
      var current := |workers|;
      assert current == |workers.Keys|;
      if depth.value > cfg.highWatermark && current < cfg.maxWorkers {
        assert nextId !in workers.Keys;
        SpawnWorker(now);
        assert workers.Keys == old(workers).Keys + {old(nextId)};
      } else if depth.value <= cfg.lowWatermark && current > cfg.minWorkers {
        var removed := EvictIdleWorker(now);
        assert workers.Keys == old(workers).Keys;
      }
    }

    /** Whatever the depths, and whoever exits between two ticks, the scaler never tracks more workers
        than it may, and never uses an id twice. */
    method RunScaler(ticks: seq<ScaleTick>)
      requires Valid()
      modifies `workers, `nextId
      ensures Valid() && (workers == map[] || |workers| <= cfg.minWorkers || |workers| <= cfg.maxWorkers)
      ensures old(nextId) <= nextId <= old(nextId) + |ticks|
      ensures forall id :: id in workers && id !in old(workers) ==> old(nextId) <= id < nextId
    {
      for i := 0 to |ticks|
        invariant Valid() && old(nextId) <= nextId <= old(nextId) + i
        invariant forall id :: id in workers && id !in old(workers) ==> old(nextId) <= id < nextId
      {
        LeaveAll(ticks[i].left);
        Scale(ticks[i].now, ticks[i].depth);
      }
      assert |workers| == |workers.Keys|;
    }

    /** Workers that exit take themselves off the map; ids of workers long gone do not matter. */
    method LeaveAll(ids: set<nat>)
      requires Valid()
      modifies `workers
      ensures Valid() && workers == old(workers) - ids
    {
      workers := workers - ids;
      SubsetSize(workers.Keys, old(workers).Keys);
    }

    /** One turn of a worker: it takes the oldest job from the channel and processes it. */
    method TakeJob(id: nat, now: int, oracle: nat -> Oracle)
      requires Valid() && id in workers && jobCh != []
      modifies this, proc, queue
      ensures Valid()
      ensures jobCh == old(jobCh)[1..] && nextId == old(nextId)
      ensures taken == old(taken) + [old(jobCh)[0]] && delivered == old(delivered)
      ensures proc.Now() == RunAlone(old(proc.Setting()), old(proc.Now()), Hand(old(jobCh)[0], Gate), oracle, 0)
      ensures var failed := FateOf(old(proc.Setting()), old(proc.Now()), old(jobCh)[0], oracle) in {Vanishes, Retries, Dies};
              var w := old(workers)[id];
              workers == old(workers)[id := w.(lastActiveAt := now,
                                               jobsProcessed := w.jobsProcessed + (if failed then 0 else 1),
                                               errors := w.errors + (if failed then 1 else 0))]
    {
      hide RunAlone, FateOf;
      var job := jobCh[0];
      jobCh := jobCh[1..];
      taken := taken + [job];
      var failed := proc.Process(job, oracle);
      var w := workers[id];
      if failed {
        w := w.(errors := w.errors + 1);
      } else {
        w := w.(jobsProcessed := w.jobsProcessed + 1);
      }
      workers := workers[id := w.(lastActiveAt := now)];
      assert workers.Keys == old(workers).Keys;
    }

    /** One round of the fetcher. With no free slot the only way out is the end of the context, which
        sends the job back. */
    method Fetch(poll: Poll, ghost misses: nat) returns (got: bool, running: bool)
      requires Valid()
      modifies `jobCh, `delivered, queue
      ensures Valid()
      ensures var claimed := if poll.fails then None else Claimed(queue.rank, old(queue.db));
              var fits := !poll.done && |old(jobCh)| < capacity;
              && (got <==> claimed.Some?) && (running <==> claimed.None? || fits)
              && (if claimed.Some? && fits then jobCh == old(jobCh) + [claimed.value] && delivered == old(delivered) + [claimed.value]
                  else jobCh == old(jobCh) && delivered == old(delivered))
      ensures var st := PollOnce(queue.rank, Fetching(old(queue.db), old(jobCh), misses, true), capacity, poll);
              && st == Fetching(queue.db, jobCh, if got then 0 else misses + 1, running)
    {
      hide AfterClaim, Claimed, Returned;
      if poll.fails {
        return false, true;
      }
      var job := queue.Dequeue();
      if job.None? {
        return false, true;
      }
      if poll.done || |jobCh| >= capacity {
        HandBack(job.value, poll.ms);
        return true, false;
      }
      jobCh := jobCh + [job.value];
      delivered := delivered + [job.value];
      return true, true;
    }

    method HandBack(job: Job, ms: int)
      modifies queue
      ensures queue.db == Returned(old(queue.db), job, ms)
    {
      hide OnlyAdds, ClaimGone;
      var j := job.(status := Pending);
      queue.Enqueue(j, ms);
      queue.Nack(j);
    }

    /** The fetcher loop over a list of rounds; the context ends with the list at the latest. */
    method RunFetcher(polls: seq<Poll>) returns (backoff: int, ghost misses: nat)
      requires Valid()
      modifies `jobCh, `delivered, queue
      ensures Valid()
      ensures var st := AfterPolls(queue.rank, Fetching(old(queue.db), old(jobCh), 0, true), capacity, polls);
              st.r == queue.db && st.ch == jobCh && st.misses == misses
      ensures backoff == BackoffAfter(misses)
      ensures old(jobCh) <= jobCh && old(delivered) <= delivered
      ensures jobCh[|old(jobCh)|..] == delivered[|old(delivered)|..]
    {
      backoff, misses := MIN_BACKOFF, 0;
      var running := true;
      ghost var st := Fetching(queue.db, jobCh, 0, true);
      for i := 0 to |polls|
        invariant Valid()
        invariant AfterPolls(queue.rank, st, capacity, polls[..i]) == Fetching(queue.db, jobCh, misses, running)
        invariant backoff == BackoffAfter(misses)
        invariant old(jobCh) <= jobCh && old(delivered) <= delivered && taken == old(taken)
      {
        assert polls[..i + 1] == polls[..i] + [polls[i]];
        AfterOneMore(queue.rank, st, capacity, polls[..i], polls[i]);
        if running {
          backoff, running, misses := Turn(polls[i], backoff, misses);
        }
      }
      assert polls[..|polls|] == polls;
    }

    /** One round and what it does to the pause before the next. */
    method Turn(poll: Poll, backoff0: int, ghost misses0: nat) returns (backoff: int, running: bool, ghost misses: nat)
      requires Valid() && backoff0 == BackoffAfter(misses0)
      modifies `jobCh, `delivered, queue
      ensures Valid()
      ensures Fetching(queue.db, jobCh, misses, running)
              == PollOnce(queue.rank, Fetching(old(queue.db), old(jobCh), misses0, true), capacity, poll)
      ensures backoff == BackoffAfter(misses)
      ensures misses == 0 || misses == misses0 + 1
      ensures backoff == if misses == 0 then 10_000_000 else if backoff0 < 500_000_000 then backoff0 * 2 else 1_000_000_000
      ensures old(jobCh) <= jobCh && old(delivered) <= delivered && taken == old(taken)
    {
      var got;
      got, running := Fetch(poll, misses0);
      if got {
        backoff, misses := MIN_BACKOFF, 0;
      } else {
        backoff := if backoff0 * 2 < MAX_BACKOFF then backoff0 * 2 else MAX_BACKOFF;
        misses := misses0 + 1;
      }
    }
  }

  /** A negative worker count starts no worker and allows none. */
  function Floor(n: int): nat {
    if n < 0 then 0 else n
  }

  lemma FreshPoolFits(pool: Protocol.Pool)
    requires Protocol.FreshPool(pool)
    ensures PoolFits(pool)
  {
  }

  // ---- the scaler ----

  type Crew = map<nat, Worker>

  /** `n` workers as Start spawns them. */
  ghost predicate Cohort(crew: Crew, n: nat, now: int) {
    && (forall id: nat :: id in crew <==> id < n)
    && forall id :: id in crew ==> crew[id] == Worker(now, 0, 0, 0, false)
  }

  lemma CohortGrows(crew: Crew, n: nat, now: int)
    requires Cohort(crew, n, now)
    ensures Cohort(crew[n := Worker(now, 0, 0, 0, false)], n + 1, now)
  {
  }

  predicate IsIdle(w: Worker, timeout: int, now: int) {
    IdleTime(w, now) >= timeout && IdleTime(w, now) > 0
  }

  predicate NobodyIdle(crew: Crew, timeout: int, now: int) {
    forall id :: id in crew ==> !IsIdle(crew[id], timeout, now)
  }

  predicate LongestIdle(crew: Crew, timeout: int, now: int, id: nat) {
    && id in crew && IsIdle(crew[id], timeout, now)
    && forall x :: x in crew ==> IdleTime(crew[x], now) <= IdleTime(crew[id], now)
  }

  /** The scaler has tried to evict somebody. */
  ghost predicate Evicted(crew: Crew, crew': Crew, timeout: int, now: int) {
    if NobodyIdle(crew, timeout, now) then crew' == crew
    else exists id :: LongestIdle(crew, timeout, now, id) && crew' == crew[id := crew[id].(cancelled := true)]
  }

  function Live(crew: Crew): set<nat> {
    set id | id in crew && !crew[id].cancelled
  }

  lemma {:induction false} SomebodyIsLongestIdle(crew: Crew, timeout: int, now: int, among: set<nat>) returns (id: nat)
    requires among <= crew.Keys && exists x :: x in among && IsIdle(crew[x], timeout, now)
    ensures id in among && IsIdle(crew[id], timeout, now)
    ensures forall x :: x in among ==> IdleTime(crew[x], now) <= IdleTime(crew[id], now)
    decreases |among|
  {
    var x :| x in among && IsIdle(crew[x], timeout, now);
    var rest := among - {x};
    if y :| y in rest && IsIdle(crew[y], timeout, now) {
      id := SomebodyIsLongestIdle(crew, timeout, now, rest);
      if IdleTime(crew[id], now) < IdleTime(crew[x], now) {
        id := x;
      }
    } else {
      id := x;
    }
  }

  lemma LiveAfterEviction(crew: Crew, id: nat)
    requires id in crew
    ensures |Live(crew[id := crew[id].(cancelled := true)])| == |Live(crew)| - if crew[id].cancelled then 0 else 1
  {
    assert Live(crew[id := crew[id].(cancelled := true)]) == Live(crew) - {id};
  }

  /** The scaler compares the floor with all tracked workers, but a worker told to stop stays tracked
      until it has finished its job. So an eviction leaves the floor standing exactly if there are more
      live workers than that, or just as many and whoever is evicted has been told to stop before. */
  lemma EvictionKeepsFloor(crew: Crew, timeout: int, now: int, floor: int)
    ensures (forall crew' :: Evicted(crew, crew', timeout, now) ==> |Live(crew')| >= floor)
            <==> || |Live(crew)| > floor
                 || (|Live(crew)| == floor && forall id :: LongestIdle(crew, timeout, now, id) ==> crew[id].cancelled)
  {
    if NobodyIdle(crew, timeout, now) {
      assert Evicted(crew, crew, timeout, now);
    } else {
      forall id | LongestIdle(crew, timeout, now, id)
        ensures var crew' := crew[id := crew[id].(cancelled := true)];
                && Evicted(crew, crew', timeout, now)
                && |Live(crew')| == |Live(crew)| - if crew[id].cancelled then 0 else 1
      {
        LiveAfterEviction(crew, id);
      }
      var longest := SomebodyIsLongestIdle(crew, timeout, now, crew.Keys);
      assert LongestIdle(crew, timeout, now, longest);
    }
  }

  /** How a pool with a floor of 1 comes to have no live worker. Worker 0 is told to stop, wins the race
      for another job all the same and finishes it; now worker 1 has been idle for longer, and as two
      workers are tracked it is told to stop as well. */
  method LoseTheFloor(pool: Pool, job: Job, oracle: nat -> Oracle)
    requires pool.Valid() && pool.workers == map[] && pool.jobCh == [] && pool.nextId == 0
    requires pool.cfg.minWorkers == 1 && pool.cfg.maxWorkers >= 2 && pool.cfg.idleTimeout > 0 && pool.capacity > 0
    requires pool.cfg.lowWatermark < pool.cfg.highWatermark && pool.queue.db == EMPTY
    modifies pool, pool.proc, pool.queue
    ensures pool.Valid() && pool.workers.Keys == {0, 1} && Live(pool.workers) == {}
  {
    var timeout := pool.cfg.idleTimeout;
    StartAndGrow(pool);
    DeliverOne(pool, job);
    EvictLongest(pool, 11 + timeout, 0, 1);
    pool.TakeJob(0, 12 + timeout, oracle);
    EvictLongest(pool, 13 + timeout, 1, 0);
  }

  method StartAndGrow(pool: Pool)
    requires pool.Valid() && pool.workers == map[] && pool.jobCh == [] && pool.nextId == 0
    requires pool.cfg.minWorkers == 1 && pool.cfg.maxWorkers >= 2
    modifies pool`workers, pool`nextId
    ensures pool.Valid()
    ensures pool.workers == map[0 := Worker(1, 0, 0, 0, false), 1 := Worker(11, 0, 0, 0, false)]
  {
    pool.Start(1);
    assert Protocol.FirstIds(1) == {0};
    assert pool.workers.Keys == {0} && |pool.workers.Keys| == 1;
    pool.Scale(11, Some(pool.cfg.highWatermark + 1));
  }

  method DeliverOne(pool: Pool, job: Job)
    requires pool.Valid() && pool.jobCh == [] && pool.capacity > 0 && pool.queue.db == EMPTY
    modifies pool`jobCh, pool`delivered, pool.queue
    ensures pool.Valid() && pool.jobCh == [job]
  {
    pool.queue.Enqueue(job, 0);
    OnlyJobIsClaimed(Env(pool.queue.rank, map[], {}), pool.queue.db, job, 0);
    var got, running := pool.Fetch(Poll(false, false, 0), 0);
  }

  /** A quiet tick evicts the longer idle of two workers. */
  method EvictLongest(pool: Pool, now: int, a: nat, b: nat)
    requires pool.Valid() && pool.workers.Keys == {a, b} && a != b && pool.cfg.minWorkers == 1
    requires pool.cfg.lowWatermark < pool.cfg.highWatermark
    requires IsIdle(pool.workers[a], pool.cfg.idleTimeout, now) && IdleTime(pool.workers[b], now) < IdleTime(pool.workers[a], now)
    modifies pool`workers, pool`nextId
    ensures pool.Valid() && pool.workers == old(pool.workers)[a := old(pool.workers)[a].(cancelled := true)]
  {
    assert |pool.workers.Keys| == 2;
    pool.Scale(now, Some(pool.cfg.lowWatermark));
    OnlyLongest(old(pool.workers), pool.workers, pool.cfg.idleTimeout, now, a, b);
  }

  /** Of two workers the one idle for longer is evicted. */
  lemma OnlyLongest(crew: Crew, crew': Crew, timeout: int, now: int, a: nat, b: nat)
    requires crew.Keys == {a, b} && Evicted(crew, crew', timeout, now)
    requires IsIdle(crew[a], timeout, now) && IdleTime(crew[b], now) < IdleTime(crew[a], now)
    ensures crew' == crew[a := crew[a].(cancelled := true)]
  {
    var id :| LongestIdle(crew, timeout, now, id) && crew' == crew[id := crew[id].(cancelled := true)];
    assert IdleTime(crew[a], now) <= IdleTime(crew[id], now);
  }

  // ---- the fetcher ----

  /** Server, channel, and how many rounds in a row have brought nothing. */
  datatype Fetching = Fetching(r: Redis, ch: seq<Job>, misses: nat, running: bool)

  /** The claim undone: back in its lane as pending, no longer recorded or locked. */
  function Returned(r: Redis, job: Job, ms: int): Redis {
    Released(Enqueue(r, job.(status := Pending), ms), job.id)
  }

  ghost function PollOnce(rank: Member -> real, st: Fetching, capacity: nat, poll: Poll): Fetching {
    if !st.running then st
    else if poll.fails then st.(misses := st.misses + 1)
    else
      var r := AfterClaim(rank, st.r);
      match Claimed(rank, st.r)
      case None => st.(r := r, misses := st.misses + 1)
      case Some(job) =>
        if poll.done || |st.ch| >= capacity then
          Fetching(Returned(r, job, poll.ms), st.ch, 0, false)
        else Fetching(r, st.ch + [job], 0, true)
  }

  ghost function AfterPolls(rank: Member -> real, st: Fetching, capacity: nat, polls: seq<Poll>): Fetching {
    if polls == [] then st
    else PollOnce(rank, AfterPolls(rank, st, capacity, polls[..|polls| - 1]), capacity, polls[|polls| - 1])
  }

  /** The hand-back of PollOnce is the fetcher's program of Hands, run without interference. */
  lemma HandBackAlone(env: Env, w: World, job: Job, oracle: nat -> Oracle)
    ensures RunAlone(env, w, Hand(job, Fetched), oracle, 0)
            == w.(redis := Returned(w.redis, job, oracle(0).ms))
  {
    var j := job.(status := Pending);
    var w1 := w.(redis := Enqueue(w.redis, j, oracle(0).ms));
    assert RunAlone(env, w, Hand(job, Fetched), oracle, 0) == RunAlone(env, w1, Hand(j, Hdel(HandBack)), oracle, 1);
    AloneRelease(env, w1, j, HandBack, oracle, 1);
  }

  lemma AfterOneMore(rank: Member -> real, st: Fetching, capacity: nat, polls: seq<Poll>, poll: Poll)
    ensures AfterPolls(rank, st, capacity, polls + [poll]) == PollOnce(rank, AfterPolls(rank, st, capacity, polls), capacity, poll)
  {
    assert (polls + [poll])[..|polls|] == polls;
  }

  /** The pause after so many rounds without a job. */
  function BackoffAfter(misses: nat): int {
    if misses == 0 then MIN_BACKOFF
    else if BackoffAfter(misses - 1) * 2 < MAX_BACKOFF then BackoffAfter(misses - 1) * 2
    else MAX_BACKOFF
  }

  function PowerOfTwo(n: nat): nat {
    if n == 0 then 1 else 2 * PowerOfTwo(n - 1)
  }

  /** The pause doubles from 10 ms and is capped at one second. */
  lemma {:induction false} BackoffDoubles(misses: nat)
    ensures var pause := 10_000_000 * PowerOfTwo(misses);
            BackoffAfter(misses) == if pause < 1_000_000_000 then pause else 1_000_000_000
  {
    if misses > 0 {
      BackoffDoubles(misses - 1);
    }
  }

  /** Where a job stands that was in its lane when the fetcher started: still there, on the channel, or
      back in its lane as pending, with the claim undone, because the context ended. */
  ghost predicate Kept(st: Fetching, job: Job) {
    var z := st.r.lanes.At(LaneOf(job.priority));
    || Entry(job) in z
    || job in st.ch
    || (!st.running && Entry(job.(status := Pending)) in z && job.id !in st.r.processing && job.id !in st.r.locks)
  }

  lemma PollKeeps(rank: Member -> real, st: Fetching, capacity: nat, poll: Poll, job: Job)
    requires Kept(st, job)
    ensures Kept(PollOnce(rank, st, capacity, poll), job)
  {
    if st.running && !poll.fails {
      ClaimTakesOne(rank, st.r, LaneOf(job.priority), job);
      if Claimed(rank, st.r).Some? {
        HandBackRestores(AfterClaim(rank, st.r), Claimed(rank, st.r).value, poll.ms, Entry(job));
      }
    }
  }

  lemma HandBackRestores(r: Redis, job: Job, ms: int, other: Member)
    ensures var r' := Returned(r, job, ms);
            && Entry(job.(status := Pending)) in r'.lanes.At(LaneOf(job.priority)) && job.id !in r'.processing && job.id !in r'.locks
            && forall lane :: other in r.lanes.At(lane) ==> other in r'.lanes.At(lane)
  {
  }

  /** Through any number of rounds, the last of which may be a shutdown, no job gets lost, and the
      channel is never overfull. */
  lemma {:induction false} FetcherKeepsJobs(rank: Member -> real, r: Redis, ch: seq<Job>, capacity: nat, polls: seq<Poll>, job: Job)
    requires Entry(job) in r.lanes.At(LaneOf(job.priority)) && |ch| <= capacity
    ensures Kept(AfterPolls(rank, Fetching(r, ch, 0, true), capacity, polls), job)
    ensures |AfterPolls(rank, Fetching(r, ch, 0, true), capacity, polls).ch| <= capacity
  {
    if polls != [] {
      var init := polls[..|polls| - 1];
      FetcherKeepsJobs(rank, r, ch, capacity, init, job);
      PollKeeps(rank, AfterPolls(rank, Fetching(r, ch, 0, true), capacity, init), capacity, polls[|polls| - 1], job);
    }
  }
}
