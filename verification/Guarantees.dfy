/** What the invariant means for somebody watching a run. */
module Guarantees {
  import opened Graphs
  import opened Jobs
  import opened SortedSets
  import opened Broker
  import opened Dependency
  import opened Hands
  import opened Protocol
  import opened Placement
  import opened Lives
  import opened BackPressure
  import opened Ancestors
  import opened Invariant

  // ---- conservation ----

  /** Every job handed in during a run is remembered to its end. */
  lemma {:induction false} HandedInIsRemembered(env: Env, s0: System, acts: seq<Action>, k: nat)
    requires Possible(env, s0, acts)
    requires k < |acts| && (acts[k].Submit? || acts[k].SubmitDelayed?)
    ensures acts[k].job.id in After(env, s0, acts).submitted
    decreases |acts|
  {
    hide Apply, Enabled;
    var init := acts[..|acts| - 1];
    if k < |acts| - 1 {
      HandedInIsRemembered(env, s0, init, k);
    }
    SubmittedGrows(env, After(env, s0, init), acts[|acts| - 1]);
  }

  lemma SubmittedGrows(env: Env, s: System, act: Action)
    requires Enabled(s, act)
    ensures s.submitted.Keys <= Apply(env, s, act).submitted.Keys
    ensures act.Submit? || act.SubmitDelayed? ==> act.job.id in Apply(env, s, act).submitted
  {
    hide HandStep, AfterClaim, AfterDrain;
  }

  /** In every state of every run a submitted job is in exactly one place: a lane, the delayed set, one
      hand, the acked history, the dead-letter queue or, after a failed dependency query, nowhere it
      will come back from. A job never submitted is in none. */
  lemma ExactlyOnePlace(env: Env, s: System, id: Id)
    requires Reached(env, s)
    ensures if id in s.submitted then exists p :: At(s, p, id) && forall q :: At(s, q, id) ==> q == p
            else forall q :: !At(s, q, id)
  {
    var loc := InvReached(env, s);
    if id in s.submitted {
      assert At(s, loc[id], id);
    }
  }

  /** No two fetchers, channel slots or workers ever hold the same job, expired locks or not. */
  lemma NoTwoHands(env: Env, s: System, a: Actor, b: Actor)
    requires Reached(env, s)
    requires a in s.hands && b in s.hands && a != b && Owns(s.hands[a].phase) && Owns(s.hands[b].phase)
    ensures s.hands[a].job.id != s.hands[b].job.id
  {
    var loc := InvReached(env, s);
    assert At(s, InHand(a), s.hands[a].job.id);
    assert At(s, InHand(b), s.hands[b].job.id);
  }

  // ---- the one way to lose a job ----

  predicate LosingPhase(phase: Phase) {
    phase == Hdel(GateError) || phase == Unlock(GateError)
  }

  ghost predicate LostAt(s: System, p: Place) {
    p.Dropped? || (p.InHand? && p.actor in s.hands && LosingPhase(s.hands[p.actor].phase))
  }

  /** The job has been, or is just being, released without being put anywhere. */
  ghost predicate Lost(s: System, id: Id) {
    exists p :: At(s, p, id) && LostAt(s, p)
  }

  /** The dependency query of a job with dependencies fails. */
  ghost predicate QueryFails(s: System, act: Action, id: Id) {
    && act.Run? && act.actor in s.hands && s.hands[act.actor].phase.Gate? && s.hands[act.actor].job.id == id
    && s.hands[act.actor].job.dependencies != [] && act.oracle.depErr
  }

  lemma LostWhere(s: System, loc: Locations, id: Id)
    requires Placed(s, loc)
    ensures Lost(s, id) <==> id in loc && LostAt(s, loc[id])
  {
    if id in loc {
      assert At(s, loc[id], id);
    }
  }

  /** Conservation fails for a job exactly at a failed dependency query, and then for good. */
  lemma LostExactlyByFailedQuery(env: Env, s: System, act: Action, id: Id)
    requires Reached(env, s) && Enabled(s, act)
    ensures Lost(Apply(env, s, act), id) <==> Lost(s, id) || QueryFails(s, act, id)
  {
    var loc := InvReached(env, s);
    PlacedKept(env, s, loc, act);
    LostWhere(s, loc, id);
    LostWhere(Apply(env, s, act), Next(env, s, loc, act), id);
    LossByAction(env, s, loc, act, id);
  }

  lemma LossByAction(env: Env, s: System, loc: Locations, act: Action, id: Id)
    requires Placed(s, loc) && Shape(s) && Enabled(s, act)
    ensures var s', loc' := Apply(env, s, act), Next(env, s, loc, act);
            (id in loc' && LostAt(s', loc'[id])) <==> (id in loc && LostAt(s, loc[id])) || QueryFails(s, act, id)
  {
    match act
    case Run(a, o) => LossByRun(env, s, loc, a, o, id);
    case Claim(p) => LossByClaim(env, s, loc, p, id);
    case Dispatch(_) => LossInChannel(env, s, loc, act, id);
    case Receive(_, _) => LossInChannel(env, s, loc, act, id);
    case _ => LossElsewhere(env, s, loc, act, id);
  }

  lemma LossByRun(env: Env, s: System, loc: Locations, a: Actor, o: Oracle, id: Id)
    requires Placed(s, loc) && Enabled(s, Run(a, o))
    ensures var s', loc' := Apply(env, s, Run(a, o)), Next(env, s, loc, Run(a, o));
            (id in loc' && LostAt(s', loc'[id])) <==> (id in loc && LostAt(s, loc[id])) || QueryFails(s, Run(a, o), id)
  {
    var h := s.hands[a];
    StepLoses(env, s, h, o);
    assert At(s, InHand(a), h.job.id) <==> Owns(h.phase);
    if id in loc {
      assert At(s, loc[id], id);
    }
  }

  lemma StepLoses(env: Env, s: System, h: Hand, o: Oracle)
    requires !h.phase.Buffered?
    ensures var next, q := HandStep(env, s.w, h, o).1, Destination(s, h, o);
            && ((next.Some? && LosingPhase(next.value.phase)) || (q.Some? && q.value.Dropped?)
                <==> LosingPhase(h.phase) || (h.phase.Gate? && h.job.dependencies != [] && o.depErr))
            && (next.Some? && LosingPhase(next.value.phase) ==> q.None?)
            && (q.Some? ==> Owns(h.phase))
  {
  }

  lemma LossByClaim(env: Env, s: System, loc: Locations, p: nat, id: Id)
    requires Placed(s, loc) && Enabled(s, Claim(p))
    ensures var s', loc' := Apply(env, s, Claim(p)), Next(env, s, loc, Claim(p));
            (id in loc' && LostAt(s', loc'[id])) <==> (id in loc && LostAt(s, loc[id]))
  {
    hide LaneAfterClaim, SetAside, Clogged;
    if id in loc {
      assert At(s, loc[id], id);
    }
    if w :| Winner(env.rank, s.w.redis) == Some(w) {
      var job := Claimed(env.rank, s.w.redis).value;
      assert At(s, InLane(w, job), job.id);
    }
  }

  lemma LossInChannel(env: Env, s: System, loc: Locations, act: Action, id: Id)
    requires Placed(s, loc) && Shape(s) && Enabled(s, act) && (act.Dispatch? || act.Receive?)
    ensures var s', loc' := Apply(env, s, act), Next(env, s, loc, act);
            (id in loc' && LostAt(s', loc'[id])) <==> (id in loc && LostAt(s, loc[id]))
  {
    var from := if act.Dispatch? then Fetcher(act.pool) else Slot(act.pool, s.pools[act.pool].head);
    assert At(s, InHand(from), s.hands[from].job.id);
    if id in loc {
      assert At(s, loc[id], id);
    }
  }

  lemma LossElsewhere(env: Env, s: System, loc: Locations, act: Action, id: Id)
    requires Placed(s, loc) && Enabled(s, act)
    requires !act.Run? && !act.Claim? && !act.Dispatch? && !act.Receive?
    ensures var s', loc' := Apply(env, s, act), Next(env, s, loc, act);
            (id in loc' && LostAt(s', loc'[id])) <==> (id in loc && LostAt(s, loc[id]))
  {
    if id in loc {
      assert At(s, loc[id], id);
    }
  }

  // ---- dependencies ----

  /** `x` is reached from `deps` through rows. */
  ghost predicate IsAncestor(rows: Table, deps: seq<Id>, p: seq<Id>, x: Id) {
    && |p| > 0 && p[0] in deps && p[|p| - 1] == x && x in rows
    && IsPath(GraphOf(rows), p)
  }

  ghost predicate HasAncestor(rows: Table, deps: seq<Id>, x: Id) {
    exists p :: IsAncestor(rows, deps, p, x)
  }

  lemma {:induction false} OpenGateReachesFar(rows: Table, deps: seq<Id>, p: seq<Id>, x: Id)
    requires ClosedUpwards(rows) && GateOpen(rows, deps) && IsAncestor(rows, deps, p, x)
    ensures IsCompleted(rows, x)
    decreases |p|
  {
    if |p| > 1 {
      assert Edge(GraphOf(rows), p[0], p[1]);
      assert IsCompleted(rows, p[0]);
      PathSuffix(GraphOf(rows), p, 1);
      OpenGateReachesFar(rows, rows[p[0]].dependencies, p[1..], x);
    }
  }

  /** Whenever a handler is running, every transitive ancestor of its job is completed, although the
      gate only ever looks at direct dependencies and row writes may fail at any time. */
  lemma AncestorsAreCompleted(env: Env, s: System, a: Actor, x: Id)
    requires Reached(env, s) && a in s.hands && s.hands[a].phase.Handler?
    requires HasAncestor(s.w.rows, s.hands[a].job.dependencies, x)
    ensures IsCompleted(s.w.rows, x)
  {
    var loc := InvReached(env, s);
    var p :| IsAncestor(s.w.rows, s.hands[a].job.dependencies, p, x);
    OpenGateReachesFar(s.w.rows, s.hands[a].job.dependencies, p, x);
  }

  /** Completed stays completed. */
  lemma CompletedIsStable(env: Env, s: System, act: Action, id: Id)
    requires Reached(env, s) && Enabled(s, act) && IsCompleted(s.w.rows, id)
    ensures IsCompleted(Apply(env, s, act).w.rows, id)
  {
    if act.Run? {
      var loc := InvReached(env, s);
      RunAdvances(env, s, loc, act.actor, act.oracle);
    }
  }

  lemma {:induction false} CompletedIsStableOverRuns(env: Env, s: System, acts: seq<Action>, id: Id)
    requires Reached(env, s) && Possible(env, s, acts) && IsCompleted(s.w.rows, id)
    ensures IsCompleted(After(env, s, acts).w.rows, id)
    decreases |acts|
  {
    if acts != [] {
      var init := acts[..|acts| - 1];
      CompletedIsStableOverRuns(env, s, init, id);
      ReachedAfter(env, s, init);
      CompletedIsStable(env, After(env, s, init), acts[|acts| - 1], id);
    }
  }

  /** A job on a stored dependency cycle never gets past the gate. */
  lemma CyclesNeverRun(env: Env, s: System, a: Actor, c: seq<Id>, k: nat)
    requires Reached(env, s)
    requires a in s.hands && IsCycle(GraphOf(s.w.rows), c) && k < |c| && s.hands[a].job.id == c[k]
    ensures !Cleared(s.hands[a].phase)
  {
    var loc := InvReached(env, s);
    var rows, g, job := s.w.rows, GraphOf(s.w.rows), s.hands[a].job;
    if Cleared(s.hands[a].phase) {
      assert At(s, InHand(a), job.id);
      assert Standing(env, s, job.id, loc[job.id]);
      Rotate(g, c, k);
      var r := c[k..] + c[..k];
      var p := r[1..] + [r[0]];
      AroundTheCycle(g, r);
      assert c[k] in g;
      assert IsAncestor(rows, job.dependencies, p, job.id);
      OpenGateReachesFar(rows, job.dependencies, p, job.id);
    }
  }

  lemma AroundTheCycle(g: Graph, r: seq<Id>)
    requires IsCycle(g, r)
    ensures IsPath(g, r[1..] + [r[0]])
    ensures Edge(g, r[0], (r[1..] + [r[0]])[0])
  {
    PathSuffix(g, r, 1);
    if |r| > 1 {
      assert Edge(g, r[0], r[1]);
      PathSnoc(g, r[1..], r[0]);
    }
  }

  // ---- what the table shows ----

  /** After a write that goes through, the row has the status of what happens to the job next and the
      attempts so far, its declared dependencies are untouched, and so is every other row. */
  lemma StatusIsShown(env: Env, s: System, a: Actor, o: Oracle)
    requires Reached(env, s) && Enabled(s, Run(a, o)) && o.dbOk && s.hands[a].job.id in s.w.rows
    requires s.hands[a].phase in {Activate, Complete, Retrying, Dying}
    ensures var id, rows, rows' := s.hands[a].job.id, s.w.rows, Apply(env, s, Run(a, o)).w.rows;
            && rows'.Keys == rows.Keys && (forall x :: x in rows && x != id ==> rows'[x] == rows[x])
            && rows'[id].dependencies == rows[id].dependencies
            && id in s.submitted && rows'[id].retryCount == s.submitted[id].retryCount + s.w.Fails(id)
            && match s.hands[a].phase
               case Activate => rows'[id].status == Active && rows'[id].startedAt == Some(o.now)
               case Complete => rows'[id].status == Completed
               case Retrying => rows'[id].status == Pending
               case _ => rows'[id].status == Dead
  {
    hide HandStep, Alive, Placed, Shape, RowsAgree;
    var loc := InvReached(env, s);
    OwnRecord(env, s, loc, a);
    StepRows(env, s.w, s.hands[a], o);
  }

  // ---- priorities ----

  /** What the lanes are for: while a job of priority 300 or more is the first of its lane and not locked,
      no claim returns a lower one; and the same for 200. */
  lemma HigherIsClaimedFirst(env: Env, s: System, lane: Lane, a: Job, b: Job)
    requires Reached(env, s) && Injective(env.rank)
    requires IsFirst(env.rank, s.w.redis.lanes.At(lane), Entry(a)) && a.id !in s.w.redis.locks
    requires Claimed(env.rank, s.w.redis) == Some(b)
    ensures a.priority >= 300 ==> b.priority >= 300
    ensures a.priority >= 200 ==> b.priority >= 200
  {
    hide Alive, Placed, Shape, RowsAgree, Reached;
    var loc := InvReached(env, s);
    var winner :| Winner(env.rank, s.w.redis) == Some(winner);
    ClaimPicks(env.rank, s.w.redis, winner, b);
    OwnLane(env, s, loc, lane, a);
    OwnLane(env, s, loc, winner, b);
  }

  // ---- retries ----

  /** A dead job has failed exactly max(1, MaxRetries - r0) times and carries r0 plus that number. */
  lemma DeadAfterAllAttempts(env: Env, s: System, job: Job)
    requires Reached(env, s) && job in s.w.redis.dlq
    ensures job.id in s.submitted && SameJob(job, s.submitted[job.id])
    ensures var maxRetries := if job.jobType in env.configs then env.configs[job.jobType].maxRetries else 5;
            var left := maxRetries - s.submitted[job.id].retryCount;
            && s.w.Fails(job.id) == (if left < 1 then 1 else left)
            && job.retryCount == s.submitted[job.id].retryCount + s.w.Fails(job.id)
  {
    var loc := InvReached(env, s);
    assert At(s, InDlq(job), job.id);
    assert Standing(env, s, job.id, loc[job.id]);
  }

  /** No job fails more often than that, and one that has used up its attempts is on its way to the
      dead-letter queue or there: never again in a lane, the delayed set, the channel or a handler. */
  lemma AttemptsAreBounded(env: Env, s: System, id: Id)
    requires Reached(env, s) && id in s.submitted
    ensures var limit := Attempts(env, s.submitted[id]);
            && s.w.Fails(id) <= limit
            && (s.w.Fails(id) == limit ==>
                  exists p :: At(s, p, id) && (p.InDlq? || (p.InHand? && StageOf(s.hands[p.actor].phase) != Open)))
  {
    var loc := InvReached(env, s);
    assert At(s, loc[id], id);
    assert Standing(env, s, id, loc[id]);
  }

  // ---- back-pressure ----

  predicate SameConfig(p: Pool, q: Pool) {
    p.minWorkers == q.minWorkers && p.maxWorkers == q.maxWorkers && p.capacity == q.capacity
  }

  lemma {:induction false} ConfigsStay(env: Env, s0: System, acts: seq<Action>, pool: nat)
    requires Possible(env, s0, acts) && pool in s0.pools
    ensures pool in After(env, s0, acts).pools && SameConfig(After(env, s0, acts).pools[pool], s0.pools[pool])
    decreases |acts|
  {
    if acts != [] {
      var init := acts[..|acts| - 1];
      ConfigsStay(env, s0, init, pool);
      ConfigStays(env, After(env, s0, init), acts[|acts| - 1], pool);
    }
  }

  lemma ConfigStays(env: Env, s: System, act: Action, pool: nat)
    requires Enabled(s, act) && pool in s.pools
    ensures pool in Apply(env, s, act).pools && SameConfig(Apply(env, s, act).pools[pool], s.pools[pool])
  {
  }

  /** In every interleaving of fetcher, scaler and worker exits, by the configuration the pool was started
      with. */
  lemma ClaimsAreBounded(env: Env, s0: System, acts: seq<Action>, pool: nat)
    requires Init(s0) && Possible(env, s0, acts) && pool in s0.pools
    ensures var s, cfg := After(env, s0, acts), s0.pools[pool];
            && pool in s.pools && |s.pools[pool].tracked| <= Max(cfg.minWorkers, cfg.maxWorkers)
            && |InFlight(s, pool)| <= Max(cfg.minWorkers, cfg.maxWorkers) + cfg.capacity + 1
  {
    hide InFlight;
    var s := After(env, s0, acts);
    var loc := InvAlways(env, s0, acts);
    ConfigsStay(env, s0, acts, pool);
    InFlightBound(s, pool);
  }
}
