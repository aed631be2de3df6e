/** Order within a lane, over runs. */
module Fifo {
  import opened Graphs
  import opened Jobs
  import opened SortedSets
  import opened Broker
  import opened Hands
  import opened Protocol
  import opened Placement
  import opened Invariant

  /** The clock reading an action puts into a lane as a score, if it does. */
  ghost function Stamp(s: System, act: Action): Option<int> {
    match act
    case Submit(_, ms) => Some(ms)
    case Inject(target, _, score) => if target.LaneSet? then Some(score) else None
    case Run(a, o) =>
      if a in s.hands && (s.hands[a].phase.Fetched? || s.hands[a].phase.Requeue?) then Some(o.ms) else None
    case _ => None
  }

  /** The action at time `now` uses that time, and drains nothing into the lane. */
  ghost predicate OnTime(env: Env, s: System, act: Action, lane: Lane, now: int) {
    && (Stamp(s, act).Some? ==> Stamp(s, act).value == now)
    && (act.Drain? ==> forall m :: m in Promoted(env.rank, s.w.redis, act.cutoff, act.limit) ==> LaneOf(m.Priority()) != lane)
  }

  ghost predicate Served(env: Env, s: System, act: Action, lane: Lane) {
    act.Claim? && Winner(env.rank, s.w.redis) == Some(lane)
  }

  ghost function ServedScore(env: Env, s: System, lane: Lane): int
    requires s.w.redis.lanes.At(lane) != map[]
  {
    s.w.redis.lanes.At(lane)[First(env.rank, s.w.redis.lanes.At(lane))]
  }

  /** The lane keeps what it has and gains at most entries scored `now`. */
  ghost predicate GrowsAtTheEnd(z: ZSet, z': ZSet, now: int) {
    && (forall m :: m in z ==> m in z')
    && forall m :: m in z' ==> (m in z && z'[m] == z[m]) || z'[m] == now
  }

  /** What an action other than a claim does to a lane. */
  lemma LaneGrowsAtTheEnd(env: Env, s: System, act: Action, lane: Lane, now: int)
    requires Enabled(s, act) && OnTime(env, s, act, lane, now) && !act.Claim?
    ensures GrowsAtTheEnd(s.w.redis.lanes.At(lane), Apply(env, s, act).w.redis.lanes.At(lane), now)
  {
    if act.Run? {
      RunGrowsLane(env, s, act.actor, act.oracle, lane, now);
    } else if act.Drain? {
      hide HandStep, Promoted;
      NothingDrained(s.w.redis.lanes.At(lane), lane, Promoted(env.rank, s.w.redis, act.cutoff, act.limit), act.drainMs);
    } else if act.Submit? {
      hide HandStep, GrowsAtTheEnd;
      PutGrows(s.w.redis.lanes, LaneOf(act.job.priority), Entry(act.job), now, lane);
    } else if act.Inject? && act.target.LaneSet? {
      hide HandStep, GrowsAtTheEnd;
      PutGrows(s.w.redis.lanes, act.target.lane, act.member, now, lane);
    } else {
      LaneUntouched(env, s, act, lane);
    }
  }

  lemma RunGrowsLane(env: Env, s: System, a: Actor, o: Oracle, lane: Lane, now: int)
    requires Enabled(s, Run(a, o)) && OnTime(env, s, Run(a, o), lane, now)
    ensures GrowsAtTheEnd(s.w.redis.lanes.At(lane), Apply(env, s, Run(a, o)).w.redis.lanes.At(lane), now)
  {
    hide HandStep;
    StepLanes(env, s.w, s.hands[a], o);
    if job :| Enqueues(s.hands[a]) == Some(job) {
      PutGrows(s.w.redis.lanes, LaneOf(job.priority), Entry(job), now, lane);
    }
  }

  lemma LaneUntouched(env: Env, s: System, act: Action, lane: Lane)
    requires Enabled(s, act) && !act.Claim? && !act.Run? && !act.Drain? && !act.Submit? && !(act.Inject? && act.target.LaneSet?)
    ensures Apply(env, s, act).w.redis.lanes == s.w.redis.lanes
  {
    hide HandStep, AfterClaim, AfterDrain;
  }

  lemma PutGrows(lanes: Lanes, target: Lane, m: Member, now: int, lane: Lane)
    ensures GrowsAtTheEnd(lanes.At(lane), lanes.Put(target, lanes.At(target)[m := now]).At(lane), now)
  {
  }

  lemma {:induction false} NothingDrained(z: ZSet, lane: Lane, moved: seq<Member>, ms: int)
    requires forall m :: m in moved ==> LaneOf(m.Priority()) != lane
    ensures LaneAfterDrain(z, lane, moved, ms) == z
  {
    if moved != [] {
      assert moved[|moved| - 1] in moved;
      assert forall m :: m in moved[..|moved| - 1] ==> m in moved;
      NothingDrained(z, lane, moved[..|moved| - 1], ms);
    }
  }

  /** The only enqueues among a hand's steps. */
  ghost function Enqueues(h: Hand): Option<Job> {
    if h.phase.Fetched? then Some(h.job.(status := Pending))
    else if h.phase.Requeue? then Some(h.job)
    else None
  }

  lemma StepLanes(env: Env, w: World, h: Hand, o: Oracle)
    requires !h.phase.Buffered?
    ensures HandStep(env, w, h, o).0.redis.lanes
            == match Enqueues(h)
               case None => w.redis.lanes
               case Some(job) => Enqueue(w.redis, job, o.ms).lanes
  {
    hide HandStep;
    StepRedis(env, w, h, o);
  }

  /** A claim only takes things out, and what it serves is the oldest entry of its lane. */
  lemma ClaimTakesOldest(env: Env, s: System, p: nat, lane: Lane)
    requires Enabled(s, Claim(p))
    ensures var z, z' := s.w.redis.lanes.At(lane), Apply(env, s, Claim(p)).w.redis.lanes.At(lane);
            && (forall m :: m in z' ==> m in z && z'[m] == z[m])
            && (Served(env, s, Claim(p), lane) ==> z != map[] && forall m :: m in z ==> ServedScore(env, s, lane) <= z[m])
  {
    hide AfterClaim, Winner;
    ClaimServesOldest(env.rank, s.w.redis, lane);
  }

  // ---- over runs ----

  lemma {:induction false} PossiblePrefix(env: Env, s0: System, acts: seq<Action>, k: nat)
    requires Possible(env, s0, acts) && k <= |acts|
    ensures Possible(env, s0, acts[..k])
    ensures k < |acts| ==> Enabled(After(env, s0, acts[..k]), acts[k])
    decreases |acts|
  {
    if k == |acts| {
      assert acts[..k] == acts;
    } else if k < |acts| - 1 {
      assert acts[..|acts| - 1][..k] == acts[..k];
      PossiblePrefix(env, s0, acts[..|acts| - 1], k);
    }
  }

  /** A run with a clock that never goes back. */
  ghost predicate Timed(env: Env, s0: System, acts: seq<Action>, times: seq<int>, lane: Lane)
    requires Possible(env, s0, acts)
    decreases |acts|
  {
    && |times| == |acts|
    && (acts == [] ||
          var n := |acts| - 1;
          && Timed(env, s0, acts[..n], times[..n], lane)
          && (n > 0 ==> times[n - 1] <= times[n])
          && OnTime(env, After(env, s0, acts[..n]), acts[n], lane, times[n]))
  }

  /** Nothing in the lane is from the future. */
  lemma {:induction false} NothingIsLater(env: Env, s0: System, acts: seq<Action>, times: seq<int>, lane: Lane, m: Member)
    requires Init(s0) && Possible(env, s0, acts) && Timed(env, s0, acts, times, lane)
    requires m in After(env, s0, acts).w.redis.lanes.At(lane)
    ensures acts != [] && After(env, s0, acts).w.redis.lanes.At(lane)[m] <= times[|times| - 1]
    decreases |acts|
  {
    if acts != [] {
      var n := |acts| - 1;
      var s := After(env, s0, acts[..n]);
      if acts[n].Claim? {
        ClaimTakesOldest(env, s, acts[n].pool, lane);
      } else {
        LaneGrowsAtTheEnd(env, s, acts[n], lane, times[n]);
      }
      if m in s.w.redis.lanes.At(lane) {
        NothingIsLater(env, s0, acts[..n], times[..n], lane, m);
      }
    }
  }

  ghost predicate AllFrom(s: System, lane: Lane, floor: int) {
    forall m :: m in s.w.redis.lanes.At(lane) ==> floor <= s.w.redis.lanes.At(lane)[m]
  }

  lemma FloorStays(env: Env, s: System, act: Action, lane: Lane, now: int, floor: int)
    requires Enabled(s, act) && OnTime(env, s, act, lane, now)
    requires AllFrom(s, lane, floor) && floor <= now
    ensures AllFrom(Apply(env, s, act), lane, floor)
  {
    if act.Claim? {
      ClaimTakesOldest(env, s, act.pool, lane);
    } else {
      LaneGrowsAtTheEnd(env, s, act, lane, now);
    }
  }

  /** Nothing in the lane is older than `floor`, and the clock has passed it. */
  ghost predicate FloorHolds(env: Env, s0: System, acts: seq<Action>, times: seq<int>, lane: Lane, floor: int)
    requires Possible(env, s0, acts)
  {
    0 < |times| == |acts| && AllFrom(After(env, s0, acts), lane, floor) && floor <= times[|times| - 1]
  }

  lemma FloorStep(env: Env, s0: System, acts: seq<Action>, times: seq<int>, lane: Lane, floor: int)
    requires Possible(env, s0, acts) && Timed(env, s0, acts, times, lane) && |acts| > 1
    requires FloorHolds(env, s0, acts[..|acts| - 1], times[..|acts| - 1], lane, floor)
    ensures FloorHolds(env, s0, acts, times, lane, floor)
  {
    var n := |acts| - 1;
    assert times[..n][n - 1] == times[n - 1];
    FloorStays(env, After(env, s0, acts[..n]), acts[n], lane, times[n], floor);
  }

  /** Once the past has left the lane it does not come back. */
  lemma {:induction false} FloorStaysOverRuns(env: Env, s0: System, acts: seq<Action>, times: seq<int>, lane: Lane, k: nat, floor: int)
    requires Possible(env, s0, acts) && Timed(env, s0, acts, times, lane)
    requires 0 < k <= |acts| && Possible(env, s0, acts[..k]) && FloorHolds(env, s0, acts[..k], times[..k], lane, floor)
    ensures FloorHolds(env, s0, acts, times, lane, floor)
    decreases |acts|
  {
    if k == |acts| {
      assert acts[..k] == acts && times[..k] == times;
    } else {
      var n := |acts| - 1;
      assert acts[..n][..k] == acts[..k] && times[..n][..k] == times[..k];
      FloorStaysOverRuns(env, s0, acts[..n], times[..n], lane, k, floor);
      FloorStep(env, s0, acts, times, lane, floor);
    }
  }

  ghost predicate ServedAt(env: Env, s0: System, acts: seq<Action>, i: nat, lane: Lane) {
    i < |acts| && Possible(env, s0, acts[..i]) && Enabled(After(env, s0, acts[..i]), acts[i])
    && Served(env, After(env, s0, acts[..i]), acts[i], lane)
  }

  ghost function ScoreAt(env: Env, s0: System, acts: seq<Action>, i: nat, lane: Lane): int
    requires ServedAt(env, s0, acts, i, lane)
  {
    var s := After(env, s0, acts[..i]);
    ClaimTakesOldest(env, s, acts[i].pool, lane);
    ServedScore(env, s, lane)
  }

  /** After a claim has been served nothing older is in the lane, and the clock has passed its score. */
  lemma ServedSetsFloor(env: Env, s0: System, acts: seq<Action>, times: seq<int>, lane: Lane, i: nat)
    requires Init(s0) && ServedAt(env, s0, acts, i, lane)
    requires Possible(env, s0, acts[..i + 1]) && Timed(env, s0, acts[..i + 1], times, lane)
    ensures AllFrom(After(env, s0, acts[..i + 1]), lane, ScoreAt(env, s0, acts, i, lane))
    ensures ScoreAt(env, s0, acts, i, lane) <= times[i]
  {
    var s := After(env, s0, acts[..i]);
    assert acts[..i + 1][..i] == acts[..i];
    ClaimTakesOldest(env, s, acts[i].pool, lane);
    NothingIsLater(env, s0, acts[..i], times[..i], lane, First(env.rank, s.w.redis.lanes.At(lane)));
  }

  lemma {:induction false} TimedPrefix(env: Env, s0: System, acts: seq<Action>, times: seq<int>, lane: Lane, k: nat)
    requires Possible(env, s0, acts) && Timed(env, s0, acts, times, lane) && k <= |acts|
    ensures Possible(env, s0, acts[..k]) && Timed(env, s0, acts[..k], times[..k], lane)
    decreases |acts|
  {
    PossiblePrefix(env, s0, acts, k);
    if k == |acts| {
      assert acts[..k] == acts && times[..k] == times;
    } else {
      var n := |acts| - 1;
      assert acts[..n][..k] == acts[..k] && times[..n][..k] == times[..k];
      TimedPrefix(env, s0, acts[..n], times[..n], lane, k);
    }
  }

  /** The claim number `j` is served from the lane, at the end of a run with such a clock. */
  ghost predicate ServedOnTime(env: Env, s0: System, acts: seq<Action>, times: seq<int>, j: nat, lane: Lane) {
    Init(s0) && ServedAt(env, s0, acts, j, lane) && Timed(env, s0, acts[..j], times, lane)
  }

  /** The scores of successive claims from a lane never decrease, with retries, restored locked heads and
      hand-backs interleaved in any way. */
  lemma ClaimsAreInOrder(env: Env, s0: System, acts: seq<Action>, times: seq<int>, lane: Lane, i: nat, j: nat)
    requires i < j && ServedAt(env, s0, acts, i, lane) && ServedOnTime(env, s0, acts, times, j, lane)
    ensures ScoreAt(env, s0, acts, i, lane) <= ScoreAt(env, s0, acts, j, lane)
  {
    var run := acts[..j];
    assert run[..i + 1] == acts[..i + 1];
    TimedPrefix(env, s0, run, times, lane, i + 1);
    ServedSetsFloor(env, s0, acts, times[..i + 1], lane, i);
    FloorStaysOverRuns(env, s0, run, times, lane, i + 1, ScoreAt(env, s0, acts, i, lane));
    ClaimTakesOldest(env, After(env, s0, run), acts[j].pool, lane);
  }

  // ---- the earlier of two jobs ----

  ghost predicate Waiting(s: System, lane: Lane, job: Job, score: int) {
    Entry(job) in s.w.redis.lanes.At(lane) && s.w.redis.lanes.At(lane)[Entry(job)] == score
  }

  ghost predicate Takes(env: Env, s: System, act: Action, job: Job) {
    act.Claim? && Claimed(env.rank, s.w.redis) == Some(job)
  }

  // ---- what leaves an entry alone ----

  ghost predicate Undisturbed(r: Redis, r': Redis, lane: Lane, job: Job) {
    SameIn(r.delayed, r'.delayed, Entry(job)) && SameIn(r.lanes.At(lane), r'.lanes.At(lane), Entry(job))
  }

  /** The job waits somewhere in Redis, so no hand has it. */
  ghost predicate Queued(s: System, lane: Lane, job: Job) {
    Entry(job) in s.w.redis.delayed || Entry(job) in s.w.redis.lanes.At(lane)
  }

  lemma QueuedIsElsewhere(s: System, loc: Locations, lane: Lane, job: Job)
    requires Placed(s, loc) && Queued(s, lane, job)
    ensures job.id in s.submitted
    ensures forall a :: a in s.hands && Owns(s.hands[a].phase) ==> s.hands[a].job.id != job.id
    ensures !(Entry(job) in s.w.redis.delayed && Entry(job) in s.w.redis.lanes.At(lane))
  {
    var p := if Entry(job) in s.w.redis.delayed then InDelayed(job) else InLane(lane, job);
    assert At(s, p, job.id);
    forall a | a in s.hands && Owns(s.hands[a].phase)
      ensures s.hands[a].job.id != job.id
    {
      assert At(s, InHand(a), s.hands[a].job.id);
    }
    if Entry(job) in s.w.redis.lanes.At(lane) {
      assert At(s, InLane(lane, job), job.id);
    }
  }

  /** A step of a hand adds at most the hand's own job to the delayed set. */
  lemma StepDelayed(env: Env, w: World, h: Hand, o: Oracle)
    requires !h.phase.Buffered?
    ensures HandStep(env, w, h, o).0.redis.delayed
            == if h.phase.Delay? then EnqueueDelayed(w.redis, h.job, o.now + 5).delayed else w.redis.delayed
  {
    hide HandStep;
    StepRedis(env, w, h, o);
  }

  lemma RunLeavesAlone(env: Env, s: System, loc: Locations, a: Actor, o: Oracle, lane: Lane, job: Job)
    requires Placed(s, loc) && Queued(s, lane, job) && Enabled(s, Run(a, o))
    ensures Undisturbed(s.w.redis, Apply(env, s, Run(a, o)).w.redis, lane, job)
  {
    hide HandStep, Placed, At;
    StepDelayed(env, s.w, s.hands[a], o);
    StepLanes(env, s.w, s.hands[a], o);
    QueuedIsElsewhere(s, loc, lane, job);
  }

  lemma ClaimLeavesAlone(env: Env, s: System, p: nat, lane: Lane, job: Job)
    requires Enabled(s, Claim(p)) && !Takes(env, s, Claim(p), job)
    ensures Undisturbed(s.w.redis, Apply(env, s, Claim(p)).w.redis, lane, job)
  {
    ClaimTakesOne(env.rank, s.w.redis, lane, job);
    ClaimTakesOldest(env, s, p, lane);
  }

  lemma EntriesLeaveAlone(env: Env, s: System, loc: Locations, act: Action, lane: Lane, job: Job)
    requires Placed(s, loc) && Queued(s, lane, job) && Enabled(s, act) && (act.Submit? || act.SubmitDelayed? || act.Inject?)
    ensures Undisturbed(s.w.redis, Apply(env, s, act).w.redis, lane, job)
  {
    hide Placed, At, HandStep, AfterClaim, AfterDrain;
    QueuedIsElsewhere(s, loc, lane, job);
  }

  lemma OthersLeaveAlone(env: Env, s: System, act: Action, lane: Lane, job: Job)
    requires Enabled(s, act) && !act.Run? && !act.Claim? && !act.Drain? && !act.Submit? && !act.SubmitDelayed? && !act.Inject?
    ensures Undisturbed(s.w.redis, Apply(env, s, act).w.redis, lane, job)
  {
    hide HandStep, AfterClaim, AfterDrain, Enqueue, EnqueueDelayed, MaySubmit;
  }

  /** Everything but a drain and the claim of the job itself leaves a queued job alone. */
  lemma LeftAlone(env: Env, s: System, loc: Locations, act: Action, lane: Lane, job: Job)
    requires Placed(s, loc) && Queued(s, lane, job) && Enabled(s, act) && !act.Drain? && !Takes(env, s, act, job)
    ensures Undisturbed(s.w.redis, Apply(env, s, act).w.redis, lane, job)
  {
    hide Placed, Apply, Undisturbed, Queued;
    match act
    case Run(a, o) => RunLeavesAlone(env, s, loc, a, o, lane, job);
    case Claim(p) => ClaimLeavesAlone(env, s, p, lane, job);
    case Submit(_, _) => EntriesLeaveAlone(env, s, loc, act, lane, job);
    case SubmitDelayed(_, _) => EntriesLeaveAlone(env, s, loc, act, lane, job);
    case Inject(_, _, _) => EntriesLeaveAlone(env, s, loc, act, lane, job);
    case _ => OthersLeaveAlone(env, s, act, lane, job);
  }

  /** A drain moves only what is in the delayed set, and a waiting job is not. */
  lemma DrainLeavesWaiting(env: Env, s: System, loc: Locations, act: Action, lane: Lane, job: Job, score: int)
    requires Placed(s, loc) && act.Drain? && Waiting(s, lane, job, score)
    ensures Waiting(Apply(env, s, act), lane, job, score)
  {
    hide Placed, At, HandStep, Promoted;
    var moved := Promoted(env.rank, s.w.redis, act.cutoff, act.limit);
    QueuedIsElsewhere(s, loc, lane, job);
    NotPromoted(env, s.w.redis, act.cutoff, act.limit, Entry(job));
    OldScoresAfterDrain(s.w.redis.lanes.At(lane), lane, moved, act.drainMs, Entry(job));
  }

  lemma NotPromoted(env: Env, r: Redis, cutoff: int, limit: int, m: Member)
    requires m !in r.delayed
    ensures m !in Promoted(env.rank, r, cutoff, limit)
  {
    RangeWithin(env.rank, r.delayed, cutoff, limit, m);
  }

  /** A waiting job keeps its score until it is claimed, whatever the clock does: the lane is the only
      place it is in, so nobody can enqueue it again. */
  lemma WaitsUntilTaken(env: Env, s: System, loc: Locations, act: Action, lane: Lane, job: Job, score: int)
    requires Placed(s, loc) && Enabled(s, act) && Waiting(s, lane, job, score)
    ensures Waiting(Apply(env, s, act), lane, job, score) || Takes(env, s, act, job)
  {
    hide Placed, Apply, Takes;
    if act.Drain? {
      DrainLeavesWaiting(env, s, loc, act, lane, job, score);
    } else if !Takes(env, s, act, job) {
      LeftAlone(env, s, loc, act, lane, job);
    }
  }

  ghost predicate TakenAt(env: Env, s0: System, acts: seq<Action>, i: nat, job: Job) {
    i < |acts| && Possible(env, s0, acts[..i]) && Takes(env, After(env, s0, acts[..i]), acts[i], job)
  }

  ghost predicate TakenBetween(env: Env, s0: System, acts: seq<Action>, k: nat, job: Job) {
    exists i :: k <= i < |acts| && TakenAt(env, s0, acts, i, job)
  }

  lemma TakenBefore(env: Env, s0: System, acts: seq<Action>, k: nat, job: Job)
    requires acts != [] && TakenBetween(env, s0, acts[..|acts| - 1], k, job)
    ensures TakenBetween(env, s0, acts, k, job)
  {
    var init := acts[..|acts| - 1];
    var i :| k <= i < |init| && TakenAt(env, s0, init, i, job);
    assert init[..i] == acts[..i];
    assert TakenAt(env, s0, acts, i, job);
  }

  lemma {:induction false} WaitsOrIsTaken(env: Env, s: System, acts: seq<Action>, lane: Lane, job: Job, score: int)
    requires Reached(env, s) && Possible(env, s, acts) && Waiting(s, lane, job, score)
    ensures Waiting(After(env, s, acts), lane, job, score) || TakenBetween(env, s, acts, 0, job)
    decreases |acts|
  {
    hide Reached, Waiting, Takes;
    if acts != [] {
      var init, act := acts[..|acts| - 1], acts[|acts| - 1];
      WaitsOrIsTaken(env, s, init, lane, job, score);
      if Waiting(After(env, s, init), lane, job, score) {
        ReachedAfter(env, s, init);
        var loc := InvReached(env, After(env, s, init));
        WaitsUntilTaken(env, After(env, s, init), loc, act, lane, job, score);
        assert Takes(env, After(env, s, init), act, job) ==> TakenAt(env, s, acts, |init|, job);
      } else {
        TakenBefore(env, s, acts, 0, job);
      }
    }
  }

  /** `a` comes before the entry the lane serves next. */
  ghost predicate Precedes(env: Env, s: System, lane: Lane, a: Job, score: int) {
    var z := s.w.redis.lanes.At(lane);
    z != map[]
    && var first := First(env.rank, z);
       score < z[first] || (score == z[first] && env.rank(Entry(a)) < env.rank(first))
  }

  /** When a lane serves an entry, every job that was waiting in it with a lower score, or with the same
      score and lower bytes, has been claimed before. Clocks may step back, drains may feed the lane,
      jobs may come and go in between. */
  lemma EarlierIsClaimedFirst(env: Env, s: System, acts: seq<Action>, act: Action, lane: Lane, a: Job, score: int)
    requires Reached(env, s) && Possible(env, s, acts) && Waiting(s, lane, a, score)
    requires Enabled(After(env, s, acts), act) && Served(env, After(env, s, acts), act, lane)
    requires Precedes(env, After(env, s, acts), lane, a, score)
    ensures TakenBetween(env, s, acts, 0, a)
  {
    hide Reached;
    WaitsOrIsTaken(env, s, acts, lane, a, score);
    var s' := After(env, s, acts);
    var z := s'.w.redis.lanes.At(lane);
    assert Waiting(s', lane, a, score) ==> Before(env.rank, z, Entry(a), First(env.rank, z));
  }

  // ---- two jobs ----

  ghost predicate BothWait(s: System, lane: Lane, a: Job, b: Job, scoreA: int, scoreB: int) {
    a != b && Waiting(s, lane, a, scoreA) && Waiting(s, lane, b, scoreB)
  }

  /** A waiting job that is claimed is the first entry of the lane it waits in. */
  lemma TakenFromItsLane(env: Env, s: System, loc: Locations, act: Action, lane: Lane, job: Job, score: int)
    requires Placed(s, loc) && Waiting(s, lane, job, score) && Takes(env, s, act, job)
    ensures IsFirst(env.rank, s.w.redis.lanes.At(lane), Entry(job))
  {
    var w :| Winner(env.rank, s.w.redis) == Some(w);
    assert First(env.rank, s.w.redis.lanes.At(w)) == Entry(job);
    assert At(s, InLane(w, job), job.id) && At(s, InLane(lane, job), job.id);
  }

  /** Which of two waiting jobs is claimed first, exactly: the one with the lower score, and with equal
      scores the one with the lower bytes, in every run and among any other jobs. */
  lemma FirstOfTwo(env: Env, s: System, acts: seq<Action>, act: Action, lane: Lane, a: Job, b: Job, scoreA: int, scoreB: int)
    requires Reached(env, s) && Injective(env.rank) && BothWait(s, lane, a, b, scoreA, scoreB) && Possible(env, s, acts)
    requires !TakenBetween(env, s, acts, 0, a) && !TakenBetween(env, s, acts, 0, b)
    requires var s' := After(env, s, acts); Takes(env, s', act, a) || Takes(env, s', act, b)
    ensures Takes(env, After(env, s, acts), act, a)
            <==> scoreA < scoreB || (scoreA == scoreB && env.rank(Entry(a)) < env.rank(Entry(b)))
  {
    hide Reached, TakenBetween, Takes;
    var s' := After(env, s, acts);
    WaitsOrIsTaken(env, s, acts, lane, a, scoreA);
    WaitsOrIsTaken(env, s, acts, lane, b, scoreB);
    ReachedAfter(env, s, acts);
    var loc := InvReached(env, s');
    FirstOfTwoNow(env, s', loc, act, lane, a, b, scoreA, scoreB);
  }

  lemma FirstOfTwoNow(env: Env, s: System, loc: Locations, act: Action, lane: Lane, a: Job, b: Job, scoreA: int, scoreB: int)
    requires Placed(s, loc) && Injective(env.rank) && BothWait(s, lane, a, b, scoreA, scoreB)
    requires Takes(env, s, act, a) || Takes(env, s, act, b)
    ensures Takes(env, s, act, a) <==> scoreA < scoreB || (scoreA == scoreB && env.rank(Entry(a)) < env.rank(Entry(b)))
  {
    hide Placed, Takes;
    var z := s.w.redis.lanes.At(lane);
    if Takes(env, s, act, a) {
      TakenFromItsLane(env, s, loc, act, lane, a, scoreA);
      assert !Before(env.rank, z, Entry(b), Entry(a));
    } else {
      TakenFromItsLane(env, s, loc, act, lane, b, scoreB);
      assert !Before(env.rank, z, Entry(a), Entry(b));
    }
  }

  /** `a` is enqueued, anything but its claim happens, and `b` is enqueued into the same lane. */
  ghost predicate EnqueuedInTurn(env: Env, s: System, a: Job, msA: int, acts: seq<Action>, b: Job, msB: int) {
    && LaneOf(a.priority) == LaneOf(b.priority)
    && Enabled(s, Submit(a, msA))
    && var s' := Apply(env, s, Submit(a, msA));
       && Possible(env, s', acts) && !TakenBetween(env, s', acts, 0, a)
       && Enabled(After(env, s', acts), Submit(b, msB))
  }

  ghost function AfterBoth(env: Env, s: System, a: Job, msA: int, acts: seq<Action>, b: Job, msB: int): System
    requires EnqueuedInTurn(env, s, a, msA, acts, b, msB)
  {
    Apply(env, After(env, Apply(env, s, Submit(a, msA)), acts), Submit(b, msB))
  }

  /** First in, first out, exactly: of two jobs enqueued into a lane one after the other, with anything in
      the lane before, between and after, the first one in is the first one out if and only if its
      millisecond is the smaller one, or the same and its bytes sort first. */
  lemma FirstInIsFirstOut(env: Env, s: System, a: Job, msA: int, acts: seq<Action>, b: Job, msB: int, acts': seq<Action>, act: Action)
    requires Reached(env, s) && Injective(env.rank) && EnqueuedInTurn(env, s, a, msA, acts, b, msB)
    requires var s2 := AfterBoth(env, s, a, msA, acts, b, msB);
             && Possible(env, s2, acts') && !TakenBetween(env, s2, acts', 0, a) && !TakenBetween(env, s2, acts', 0, b)
             && (Takes(env, After(env, s2, acts'), act, a) || Takes(env, After(env, s2, acts'), act, b))
    ensures var s2 := AfterBoth(env, s, a, msA, acts, b, msB);
            Takes(env, After(env, s2, acts'), act, a)
            <==> msA < msB || (msA == msB && env.rank(Entry(a)) < env.rank(Entry(b)))
  {
    hide Reached, TakenBetween, Takes;
    var s2 := AfterBoth(env, s, a, msA, acts, b, msB);
    BothEnqueued(env, s, a, msA, acts, b, msB);
    FirstOfTwo(env, s2, acts', act, LaneOf(a.priority), a, b, msA, msB);
  }

  lemma BothEnqueued(env: Env, s: System, a: Job, msA: int, acts: seq<Action>, b: Job, msB: int)
    requires Reached(env, s) && EnqueuedInTurn(env, s, a, msA, acts, b, msB)
    ensures Reached(env, AfterBoth(env, s, a, msA, acts, b, msB))
    ensures BothWait(AfterBoth(env, s, a, msA, acts, b, msB), LaneOf(a.priority), a, b, msA, msB)
  {
    hide Reached, TakenBetween, HandStep;
    var s1 := Apply(env, s, Submit(a, msA));
    ReachedNext(env, s, Submit(a, msA));
    EnqueuedWaits(env, s, a, msA);
    WaitsOrIsTaken(env, s1, acts, LaneOf(a.priority), a, msA);
    var s' := After(env, s1, acts);
    ReachedAfter(env, s1, acts);
    ReachedNext(env, s', Submit(b, msB));
    EnqueuedWaits(env, s', b, msB);
    var loc := InvReached(env, s');
    WaitsUntilTaken(env, s', loc, Submit(b, msB), LaneOf(a.priority), a, msA);
    QueuedIsElsewhere(s', loc, LaneOf(a.priority), a);
  }

  lemma EnqueuedWaits(env: Env, s: System, job: Job, ms: int)
    requires Enabled(s, Submit(job, ms))
    ensures Waiting(Apply(env, s, Submit(job, ms)), LaneOf(job.priority), job, ms)
  {
  }

  /** The shortest run in which the first one in is not the first one out. */
  lemma Overtaken(env: Env, s0: System, pool: nat, a: Job, b: Job, msA: int, msB: int) returns (acts: seq<Action>)
    requires Init(s0) && Injective(env.rank) && pool in s0.pools && MaySubmit(s0, a) && MaySubmit(s0, b)
    requires a.id != b.id && LaneOf(a.priority) == LaneOf(b.priority)
    requires msB < msA || (msB == msA && env.rank(Entry(b)) < env.rank(Entry(a)))
    ensures acts == [Submit(a, msA), Submit(b, msB)] && Possible(env, s0, acts)
    ensures Enabled(After(env, s0, acts), Claim(pool)) && Takes(env, After(env, s0, acts), Claim(pool), b)
  {
    acts := [];
    Extend(env, s0, acts, Submit(a, msA));
    acts := acts + [Submit(a, msA)];
    Extend(env, s0, acts, Submit(b, msB));
    acts := acts + [Submit(b, msB)];
    LastIsClaimed(env.rank, a, b, msA, msB);
  }

  lemma LastIsClaimed(rank: Member -> real, a: Job, b: Job, msA: int, msB: int)
    requires Injective(rank) && a != b && LaneOf(a.priority) == LaneOf(b.priority)
    requires msB < msA || (msB == msA && rank(Entry(b)) < rank(Entry(a)))
    ensures Claimed(rank, Enqueue(Enqueue(EMPTY, a, msA), b, msB)) == Some(b)
  {
    var r, lane := Enqueue(Enqueue(EMPTY, a, msA), b, msB), LaneOf(a.priority);
    var z := r.lanes.At(lane);
    assert z == map[Entry(a) := msA, Entry(b) := msB];
    assert Entry(a) in z && Entry(b) in z;
    assert IsFirst(rank, z, Entry(b));
    ClaimPicks(rank, r, lane, b);
  }
}
