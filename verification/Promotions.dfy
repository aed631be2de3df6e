/** Delayed jobs over runs of the whole system: of two jobs for the same lane the one that comes first in
    the delayed set is claimed first, whatever fetchers, workers and clients do in between. */
module Promotions {
  import opened Graphs
  import opened Jobs
  import opened SortedSets
  import opened Broker
  import opened Schedulers
  import opened Hands
  import opened Protocol
  import opened Placement
  import opened Invariant
  import opened Fifo

  // ---- two jobs ----

  ghost predicate InStepJobs(env: Env, s: System, lane: Lane, a: Job, b: Job, bound: int) {
    InStep(env.rank, s.w.redis, lane, Entry(a), Entry(b), bound)
  }

  /** A claimed job comes from the head of its lane, and from nowhere else. */
  lemma TakenIsFirst(env: Env, s: System, loc: Locations, act: Action, lane: Lane, job: Job)
    requires Placed(s, loc) && Takes(env, s, act, job)
    ensures Entry(job) !in s.w.redis.delayed
    ensures Entry(job) in s.w.redis.lanes.At(lane) ==> IsFirst(env.rank, s.w.redis.lanes.At(lane), Entry(job))
  {
    var w :| Winner(env.rank, s.w.redis) == Some(w);
    assert First(env.rank, s.w.redis.lanes.At(w)) == Entry(job);
    assert At(s, InLane(w, job), job.id);
    assert Entry(job) in s.w.redis.delayed ==> At(s, InDelayed(job), job.id);
    assert Entry(job) in s.w.redis.lanes.At(lane) ==> At(s, InLane(lane, job), job.id);
  }

  /** As long as the first of the two has not been claimed the second cannot be. */
  lemma SecondIsNotTaken(env: Env, s: System, loc: Locations, act: Action, lane: Lane, a: Job, b: Job, bound: int)
    requires Placed(s, loc) && InStepJobs(env, s, lane, a, b, bound)
    ensures !Takes(env, s, act, b)
  {
    hide Placed, Takes;
    if Takes(env, s, act, b) {
      TakenIsFirst(env, s, loc, act, lane, b);
    }
  }

  lemma OrderLeftAlone(env: Env, r: Redis, r': Redis, lane: Lane, a: Job, b: Job, bound: int)
    requires InStep(env.rank, r, lane, Entry(a), Entry(b), bound)
    requires Undisturbed(r, r', lane, a) && Undisturbed(r, r', lane, b)
    ensures InStep(env.rank, r', lane, Entry(a), Entry(b), bound)
  {
  }

  /** The end of the scores a drain may have used. */
  function Window(act: Action, bound: int): int {
    if act.Drain? then act.drainMs + act.limit else bound
  }

  /** A drain keeps clear of the scores used before it. */
  predicate KeepsClear(act: Action, bound: int) {
    act.Drain? ==> act.limit >= 0 && bound <= act.drainMs
  }

  lemma StepKeepsOrder(env: Env, s: System, loc: Locations, act: Action, lane: Lane, a: Job, b: Job, bound: int)
    requires Placed(s, loc) && Injective(env.rank) && Enabled(s, act) && KeepsClear(act, bound)
    requires LaneOf(a.priority) == lane && LaneOf(b.priority) == lane
    requires InStepJobs(env, s, lane, a, b, bound) && !Takes(env, s, act, a)
    ensures InStepJobs(env, Apply(env, s, act), lane, a, b, Window(act, bound))
  {
    hide Placed, HandStep, Undisturbed;
    if act.Drain? {
      InStepLater(env, s.w.redis, lane, a, b, bound, act.drainMs);
      DrainKeepsStep(env.rank, s.w.redis, act.cutoff, act.drainMs, act.limit, lane, Entry(a), Entry(b));
    } else {
      SecondIsNotTaken(env, s, loc, act, lane, a, b, bound);
      LeftAlone(env, s, loc, act, lane, a);
      LeftAlone(env, s, loc, act, lane, b);
      OrderLeftAlone(env, s.w.redis, Apply(env, s, act).w.redis, lane, a, b, bound);
    }
  }

  lemma InStepLater(env: Env, r: Redis, lane: Lane, a: Job, b: Job, bound: int, later: int)
    requires InStep(env.rank, r, lane, Entry(a), Entry(b), bound) && bound <= later
    ensures InStep(env.rank, r, lane, Entry(a), Entry(b), later)
  {
  }

  // ---- over runs ----

  /** Where the scores of the last drain end; `start` if there has been none. */
  function LastWindow(acts: seq<Action>, start: int): int {
    if acts == [] then start else Window(acts[|acts| - 1], LastWindow(acts[..|acts| - 1], start))
  }

  /** The server's clock advances by at least the batch size from one drain to the next. */
  predicate DrainsKeepClear(acts: seq<Action>, start: int) {
    acts == []
    || (DrainsKeepClear(acts[..|acts| - 1], start)
        && KeepsClear(acts[|acts| - 1], LastWindow(acts[..|acts| - 1], start)))
  }

  ghost predicate BothDelayed(env: Env, s: System, lane: Lane, a: Job, b: Job) {
    var d := s.w.redis.delayed;
    && LaneOf(a.priority) == lane && LaneOf(b.priority) == lane
    && Entry(a) in d && Entry(b) in d && Before(env.rank, d, Entry(a), Entry(b))
  }

  lemma {:induction false} OrderOverRuns(env: Env, s: System, acts: seq<Action>, lane: Lane, a: Job, b: Job, start: int)
    requires Reached(env, s) && Injective(env.rank) && BothDelayed(env, s, lane, a, b)
    requires Possible(env, s, acts) && DrainsKeepClear(acts, start)
    ensures TakenBetween(env, s, acts, 0, a) || InStepJobs(env, After(env, s, acts), lane, a, b, LastWindow(acts, start))
    decreases |acts|
  {
    hide InStepJobs, Reached;
    if acts == [] {
      BothWait(env, s, lane, a, b, start);
    } else {
      var init, act := acts[..|acts| - 1], acts[|acts| - 1];
      OrderOverRuns(env, s, init, lane, a, b, start);
      if TakenBetween(env, s, init, 0, a) {
        TakenBefore(env, s, acts, 0, a);
      } else if Takes(env, After(env, s, init), act, a) {
        assert TakenAt(env, s, acts, |acts| - 1, a);
      } else {
        ReachedAfter(env, s, init);
        var loc := InvReached(env, After(env, s, init));
        StepKeepsOrder(env, After(env, s, init), loc, act, lane, a, b, LastWindow(init, start));
      }
    }
  }

  lemma BothWait(env: Env, s: System, lane: Lane, a: Job, b: Job, bound: int)
    requires BothDelayed(env, s, lane, a, b)
    ensures InStepJobs(env, s, lane, a, b, bound)
  {
  }

  /** Of two delayed jobs for the same lane, the one due earlier, or with equal due times the one whose
      bytes sort first, has been claimed by the time the other one is: with any number of drains, of any
      batch sizes and cutoffs, and with claims, retries, enqueues and hand-backs in between. */
  lemma DelayedOrderIsClaimOrder(env: Env, s: System, acts: seq<Action>, act: Action, lane: Lane, a: Job, b: Job, start: int)
    requires Reached(env, s) && Injective(env.rank) && BothDelayed(env, s, lane, a, b)
    requires Possible(env, s, acts) && DrainsKeepClear(acts, start)
    requires Enabled(After(env, s, acts), act) && Takes(env, After(env, s, acts), act, b)
    ensures TakenBetween(env, s, acts, 0, a)
  {
    hide InStepJobs, BothDelayed;
    OrderOverRuns(env, s, acts, lane, a, b, start);
    if !TakenBetween(env, s, acts, 0, a) {
      ReachedAfter(env, s, acts);
      var loc := InvReached(env, After(env, s, acts));
      SecondIsNotTaken(env, After(env, s, acts), loc, act, lane, a, b, LastWindow(acts, start));
    }
  }
}
