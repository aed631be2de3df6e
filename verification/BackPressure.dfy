/** The shape of the pools in every state, and the bound it puts on the jobs a pool has claimed. */
module BackPressure {
  import opened Graphs
  import opened Broker
  import opened Hands
  import opened Protocol

  predicate FetcherPhase(phase: Phase) {
    phase.Fetched? || phase == Hdel(HandBack) || phase == Unlock(HandBack)
  }

  /** A fetcher only claims and hands back; a channel slot is inside the channel's window; a worker is
      tracked while it holds a job. */
  predicate HandFits(pool: Pool, a: Actor, phase: Phase) {
    match a
    case Fetcher(_) => FetcherPhase(phase)
    case Slot(_, k) => phase.Buffered? && pool.head <= k < pool.tail
    case Worker(_, n) => !FetcherPhase(phase) && !phase.Buffered? && n in pool.tracked
  }

  function Max(a: nat, b: nat): (m: nat)
    ensures a <= m && b <= m && (m == a || m == b)
  {
    if a < b then b else a
  }

  ghost predicate PoolFits(pool: Pool) {
    && pool.head <= pool.tail <= pool.head + pool.capacity
    && |pool.tracked| <= Max(pool.minWorkers, pool.maxWorkers)
    && forall n :: n in pool.tracked ==> n < pool.nextId
  }

  ghost predicate Shape(s: System) {
    && (forall a :: a in s.hands ==> a.pool in s.pools && HandFits(s.pools[a.pool], a, s.hands[a].phase))
    && (forall p :: p in s.pools ==> PoolFits(s.pools[p]))
  }

  lemma ShapeAtStart(s: System)
    requires Init(s)
    ensures Shape(s)
  {
  }

  lemma StepKeepsRole(env: Env, w: World, h: Hand, o: Oracle)
    requires !h.phase.Buffered?
    ensures var next := HandStep(env, w, h, o).1;
            next.Some? ==> !next.value.phase.Buffered? && (FetcherPhase(next.value.phase) <==> FetcherPhase(h.phase))
  {
  }

  lemma ShapeKeptByRun(env: Env, s: System, a: Actor, o: Oracle)
    requires Shape(s) && Enabled(s, Run(a, o))
    ensures Shape(Apply(env, s, Run(a, o)))
  {
    StepKeepsRole(env, s.w, s.hands[a], o);
    var (w', next) := HandStep(env, s.w, s.hands[a], o);
    ShapeWithHand(s, a, w', next);
  }

  lemma ShapeWithHand(s: System, a: Actor, w: World, next: Option<Hand>)
    requires Shape(s) && a in s.hands && !s.hands[a].phase.Buffered?
    requires next.Some? ==> !next.value.phase.Buffered? && (FetcherPhase(next.value.phase) <==> FetcherPhase(s.hands[a].phase))
    ensures Shape(WithHand(s, a, w, next))
  {
  }

  /** A job moves from one actor of a pool to another, and the channel's window with it. */
  lemma ShapeAfterHandover(s: System, s': System, from: Actor, dest: Actor, phase: Phase, pool: Pool)
    requires Shape(s) && from in s.hands && dest !in s.hands && dest.pool == from.pool
    requires s'.hands == (s.hands - {from})[dest := s.hands[from].(phase := phase)]
    requires s'.pools == s.pools[from.pool := pool] && PoolFits(pool) && HandFits(pool, dest, phase)
    requires forall a :: a in s.hands && a != from && a.pool == from.pool ==> HandFits(pool, a, s.hands[a].phase)
    ensures Shape(s')
  {
    hide PoolFits, HandFits;
  }

  lemma ShapeKeptInChannel(env: Env, s: System, act: Action)
    requires Shape(s) && Enabled(s, act) && (act.Dispatch? || act.Receive?)
    ensures Shape(Apply(env, s, act))
  {
    var pool := s.pools[act.pool];
    if act.Dispatch? {
      ShapeAfterHandover(s, Apply(env, s, act), Fetcher(act.pool), Slot(act.pool, pool.tail), Buffered, pool.(tail := pool.tail + 1));
    } else {
      ShapeAfterHandover(s, Apply(env, s, act), Slot(act.pool, pool.head), Worker(act.pool, act.n), Gate, pool.(head := pool.head + 1));
    }
  }

  /** Workers come and go; none that holds a job goes. */
  lemma ShapeAfterStaffing(s: System, s': System, p: nat, pool: Pool)
    requires Shape(s) && p in s.pools && s'.hands == s.hands && s'.pools == s.pools[p := pool] && PoolFits(pool)
    requires forall a :: a in s.hands && a.pool == p ==> HandFits(pool, a, s.hands[a].phase)
    ensures Shape(s')
  {
    hide PoolFits, HandFits;
  }

  lemma ShapeKeptByStaffing(env: Env, s: System, act: Action)
    requires Shape(s) && Enabled(s, act) && (act.Spawn? || act.Exit?)
    ensures Shape(Apply(env, s, act))
  {
    ShapeAfterStaffing(s, Apply(env, s, act), act.pool, Apply(env, s, act).pools[act.pool]);
  }

  lemma ShapeKeptElsewhere(env: Env, s: System, act: Action)
    requires Shape(s) && Enabled(s, act) && !act.Dispatch? && !act.Receive? && !act.Run? && !act.Spawn? && !act.Exit?
    ensures Shape(Apply(env, s, act))
  {
    hide AfterClaim, AfterDrain, Enqueue, EnqueueDelayed, Injected, Del, MaySubmit, PoolFits;
  }

  lemma ShapeKept(env: Env, s: System, act: Action)
    requires Shape(s) && Enabled(s, act)
    ensures Shape(Apply(env, s, act))
  {
    if act.Run? {
      ShapeKeptByRun(env, s, act.actor, act.oracle);
    } else if act.Dispatch? || act.Receive? {
      ShapeKeptInChannel(env, s, act);
    } else if act.Spawn? || act.Exit? {
      ShapeKeptByStaffing(env, s, act);
    } else {
      ShapeKeptElsewhere(env, s, act);
    }
  }

  // ---- the bound ----

  /** The actors of one pool that hold a job. */
  ghost function InFlight(s: System, pool: nat): set<Actor> {
    set a | a in s.hands && a.pool == pool
  }

  ghost function Slots(pool: nat, head: nat, n: nat): (slots: set<Actor>)
    ensures |slots| == n
    ensures forall k: nat :: Slot(pool, k) in slots <==> head <= k < head + n
    ensures forall a :: a in slots ==> a.Slot?
  {
    if n == 0 then {} else Slots(pool, head, n - 1) + {Slot(pool, head + n - 1)}
  }

  ghost function Workers(pool: nat, ids: set<nat>): (workers: set<Actor>)
    ensures |workers| == |ids|
    ensures forall n: nat :: Worker(pool, n) in workers <==> n in ids
    ensures forall a :: a in workers ==> a.Worker?
  {
    if ids == {} then {}
    else
      var n :| n in ids;
      assert ids == (ids - {n}) + {n};
      Workers(pool, ids - {n}) + {Worker(pool, n)}
  }

  /** However fetcher, scaler and workers interleave, a pool never has more jobs in its hands than it may
      have workers, plus the channel, plus the one its fetcher is trying to deliver. */
  lemma InFlightBound(s: System, pool: nat)
    requires Shape(s) && pool in s.pools
    ensures var p := s.pools[pool];
            |InFlight(s, pool)| <= Max(p.minWorkers, p.maxWorkers) + p.capacity + 1
  {
    var p := s.pools[pool];
    var room := {Fetcher(pool)} + Slots(pool, p.head, p.tail - p.head) + Workers(pool, p.tracked);
    forall a | a in InFlight(s, pool)
      ensures a in room
    {
      assert HandFits(p, a, s.hands[a].phase);
    }
    SubsetSize(InFlight(s, pool), room);
  }
}
