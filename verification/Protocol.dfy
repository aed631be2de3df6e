/** The whole system as a step machine: any number of pools, each with a fetcher, a bounded channel and
    workers, drain pollers, and clients that submit jobs. A run is a list of actions. */
module Protocol {
  import opened Graphs
  import opened Jobs
  import opened Broker
  import opened Dependency
  import opened Hands

  /** Where a claimed job can be inside a pool: with the fetcher, in the k-th channel slot ever used, or
      with a worker. */
  datatype Actor = Fetcher(pool: nat) | Slot(pool: nat, k: nat) | Worker(pool: nat, n: nat)

  /** Slots `head` to `tail` are the channel's contents. */
  datatype Pool = Pool(minWorkers: nat, maxWorkers: nat, capacity: nat, tracked: set<nat>, nextId: nat, head: nat, tail: nat)

  /** `submitted` remembers each job as it was handed in. */
  datatype System = System(w: World, hands: map<Actor, Hand>, pools: map<nat, Pool>, submitted: map<Id, Job>)

  datatype Target = LaneSet(lane: Lane) | DelayedSet

  datatype Action =
    | Submit(job: Job, ms: int)
    | SubmitDelayed(job: Job, at: int)
    | Inject(target: Target, member: Member, score: int)
    | Claim(pool: nat)
    | Dispatch(pool: nat)
    | Receive(pool: nat, n: nat)
    | Run(actor: Actor, oracle: Oracle)
    | Spawn(pool: nat)
    | Exit(pool: nat, n: nat)
    | Drain(cutoff: int, drainMs: int, limit: int)
    | Expire(id: Id)

  /** The first submission of a job: a fresh id; if it has a row, the row declares the same dependencies
      and is not completed. */
  predicate MaySubmit(s: System, job: Job) {
    && job.id !in s.submitted
    && (job.id in s.w.rows ==>
          s.w.rows[job.id].dependencies == job.dependencies && !s.w.rows[job.id].status.Completed?)
  }

  ghost predicate Enabled(s: System, act: Action) {
    match act
    case Submit(job, _) => MaySubmit(s, job)
    case SubmitDelayed(job, _) => MaySubmit(s, job)
    case Inject(_, member, _) => !member.Entry?
    case Claim(p) => p in s.pools && Fetcher(p) !in s.hands
    case Dispatch(p) =>
      && p in s.pools && Fetcher(p) in s.hands && s.hands[Fetcher(p)].phase.Fetched?
      && s.pools[p].tail < s.pools[p].head + s.pools[p].capacity
    case Receive(p, n) =>
      && p in s.pools && n in s.pools[p].tracked && Worker(p, n) !in s.hands
      && Slot(p, s.pools[p].head) in s.hands
    case Run(actor, _) => actor in s.hands && !s.hands[actor].phase.Buffered?
    case Spawn(p) => p in s.pools && |s.pools[p].tracked| < s.pools[p].maxWorkers
    case Exit(p, n) => p in s.pools && n in s.pools[p].tracked && Worker(p, n) !in s.hands
    case Drain(_, _, _) => true
    case Expire(_) => true
  }

  function WithRedis(s: System, r: Redis): System {
    s.(w := s.w.(redis := r))
  }

  function WithHand(s: System, a: Actor, w: World, next: Option<Hand>): System {
    s.(w := w, hands := if next.None? then s.hands - {a} else s.hands[a := next.value])
  }

  function Injected(r: Redis, target: Target, member: Member, score: int): Redis {
    match target
    case LaneSet(lane) => r.(lanes := r.lanes.Put(lane, r.lanes.At(lane)[member := score]))
    case DelayedSet => r.(delayed := r.delayed[member := score])
  }

  ghost function Apply(env: Env, s: System, act: Action): System
    requires Enabled(s, act)
  {
    var r := s.w.redis;
    match act
    case Submit(job, ms) =>
      WithRedis(s, Enqueue(r, job, ms)).(submitted := s.submitted[job.id := job])
    case SubmitDelayed(job, at) =>
      WithRedis(s, EnqueueDelayed(r, job, at)).(submitted := s.submitted[job.id := job])
    case Inject(target, member, score) =>
      WithRedis(s, Injected(r, target, member, score))
    case Claim(p) =>
      var s' := WithRedis(s, AfterClaim(env.rank, r));
      (match Claimed(env.rank, r)
       case None => s'
       case Some(job) => s'.(hands := s.hands[Fetcher(p) := Hand(job, Fetched)]))
    case Dispatch(p) =>
      var pool := s.pools[p];
      s.(hands := (s.hands - {Fetcher(p)})[Slot(p, pool.tail) := s.hands[Fetcher(p)].(phase := Buffered)],
         pools := s.pools[p := pool.(tail := pool.tail + 1)])
    case Receive(p, n) =>
      var pool := s.pools[p];
      s.(hands := (s.hands - {Slot(p, pool.head)})[Worker(p, n) := s.hands[Slot(p, pool.head)].(phase := Gate)],
         pools := s.pools[p := pool.(head := pool.head + 1)])
    case Run(actor, o) =>
      var (w', next) := HandStep(env, s.w, s.hands[actor], o);
      WithHand(s, actor, w', next)
    case Spawn(p) =>
      var pool := s.pools[p];
      s.(pools := s.pools[p := pool.(tracked := pool.tracked + {pool.nextId}, nextId := pool.nextId + 1)])
    case Exit(p, n) =>
      var pool := s.pools[p];
      s.(pools := s.pools[p := pool.(tracked := pool.tracked - {n})])
    case Drain(cutoff, ms, limit) =>
      WithRedis(s, AfterDrain(env.rank, r, cutoff, ms, limit))
    case Expire(id) =>
      WithRedis(s, Del(r, id))
  }

  function FirstIds(n: nat): (ids: set<nat>)
    ensures |ids| == n && forall k :: k in ids <==> 0 <= k < n
  {
    if n == 0 then {} else FirstIds(n - 1) + {n - 1}
  }

  /** Start has spawned MinWorkers workers. */
  ghost predicate FreshPool(pool: Pool) {
    && pool.tracked == FirstIds(pool.minWorkers) && pool.nextId == pool.minWorkers
    && pool.head == 0 && pool.tail == 0
  }

  /** Completed rows have completed dependencies, as far as those have rows. */
  ghost predicate ClosedUpwards(rows: Table) {
    forall id :: IsCompleted(rows, id) ==> GateOpen(rows, rows[id].dependencies)
  }

  /** Redis is empty and nothing is claimed; the jobs table is arbitrary but not already inconsistent. */
  ghost predicate Init(s: System) {
    && s.w.redis == EMPTY
    && s.w.acked == [] && s.w.dropped == [] && s.w.fails == map[] && s.w.waited == map[]
    && s.hands == map[] && s.submitted == map[]
    && (forall p :: p in s.pools ==> FreshPool(s.pools[p]))
    && ClosedUpwards(s.w.rows)
  }

  /** `acts` can be carried out one after the other from `s`. */
  ghost predicate Possible(env: Env, s: System, acts: seq<Action>)
    decreases |acts|, 0
  {
    acts == [] || (Possible(env, s, acts[..|acts| - 1]) && Enabled(After(env, s, acts[..|acts| - 1]), acts[|acts| - 1]))
  }

  ghost function After(env: Env, s: System, acts: seq<Action>): System
    requires Possible(env, s, acts)
    decreases |acts|, 1
  {
    if acts == [] then s else Apply(env, After(env, s, acts[..|acts| - 1]), acts[|acts| - 1])
  }

  lemma Extend(env: Env, s: System, acts: seq<Action>, act: Action)
    requires Possible(env, s, acts) && Enabled(After(env, s, acts), act)
    ensures Possible(env, s, acts + [act])
    ensures After(env, s, acts + [act]) == Apply(env, After(env, s, acts), act)
  {
    assert (acts + [act])[..|acts|] == acts;
  }

  /** `s` is the state after some run. */
  ghost predicate Reached(env: Env, s: System) {
    exists s0, acts :: Init(s0) && Possible(env, s0, acts) && After(env, s0, acts) == s
  }

  lemma ReachedNext(env: Env, s: System, act: Action)
    requires Reached(env, s) && Enabled(s, act)
    ensures Reached(env, Apply(env, s, act))
  {
    var s0, acts :| Init(s0) && Possible(env, s0, acts) && After(env, s0, acts) == s;
    Extend(env, s0, acts, act);
    assert After(env, s0, acts + [act]) == Apply(env, s, act);
  }

  lemma {:induction false} ReachedAfter(env: Env, s: System, acts: seq<Action>)
    requires Reached(env, s) && Possible(env, s, acts)
    ensures Reached(env, After(env, s, acts))
    decreases |acts|
  {
    if acts != [] {
      var init := acts[..|acts| - 1];
      ReachedAfter(env, s, init);
      ReachedNext(env, After(env, s, init), acts[|acts| - 1]);
    }
  }
}
