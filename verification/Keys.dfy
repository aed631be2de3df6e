/** What is true of the claim lock and the processing hash in every run, whatever expires. */
module Keys {
  import opened Graphs
  import opened Jobs
  import opened Broker
  import opened Hands
  import opened Protocol
  import opened Placement
  import opened BackPressure
  import opened Invariant
  import opened Locks

  /** Nothing is left behind: every key belongs to a hand in a phase that will still delete it. */
  ghost predicate Recorded(s: System, id: Id) {
    exists a :: a in s.hands && s.hands[a].job.id == id && Hashed(s.hands[a].phase)
  }

  ghost predicate Protected(s: System, id: Id) {
    exists a :: a in s.hands && s.hands[a].job.id == id && Locked(s.hands[a].phase)
  }

  ghost predicate NoOrphans(s: System) {
    && (forall id :: id in s.w.redis.processing ==> Recorded(s, id))
    && (forall id :: id in s.w.redis.locks ==> Protected(s, id))
  }

  /** Hands that were there are still there, in phases that hold their keys as before, unless the keys are
      gone too. */
  lemma NoOrphansCarryOver(s: System, s': System, from: Actor, dest: Actor)
    requires NoOrphans(s)
    requires forall b :: b in s.hands && b != from ==> b in s'.hands && s'.hands[b] == s.hands[b]
    requires from in s.hands ==>
               && (Hashed(s.hands[from].phase) && s.hands[from].job.id in s'.w.redis.processing ==>
                     dest in s'.hands && s'.hands[dest].job.id == s.hands[from].job.id && Hashed(s'.hands[dest].phase))
               && (Locked(s.hands[from].phase) && s.hands[from].job.id in s'.w.redis.locks ==>
                     dest in s'.hands && s'.hands[dest].job.id == s.hands[from].job.id && Locked(s'.hands[dest].phase))
    requires forall id :: id in s'.w.redis.processing ==> id in s.w.redis.processing || Recorded(s', id)
    requires forall id :: id in s'.w.redis.locks ==> id in s.w.redis.locks || Protected(s', id)
    ensures NoOrphans(s')
  {
    hide Hashed, Locked;
    forall id | id in s'.w.redis.processing
      ensures Recorded(s', id)
    {
      if id in s.w.redis.processing {
        assert Recorded(s, id);
        var b :| b in s.hands && s.hands[b].job.id == id && Hashed(s.hands[b].phase);
        assert b == from || s'.hands[b] == s.hands[b];
      }
    }
    forall id | id in s'.w.redis.locks
      ensures Protected(s', id)
    {
      if id in s.w.redis.locks {
        assert Protected(s, id);
        var b :| b in s.hands && s.hands[b].job.id == id && Locked(s.hands[b].phase);
        assert b == from || s'.hands[b] == s.hands[b];
      }
    }
  }

  lemma NoOrphansByRun(env: Env, s: System, a: Actor, o: Oracle)
    requires NoOrphans(s) && Enabled(s, Run(a, o))
    ensures NoOrphans(Apply(env, s, Run(a, o)))
  {
    hide HandStep, NoOrphans, Hashed, Locked;
    StepKeys(env, s.w, s.hands[a], o);
    StepPhases(env, s.w, s.hands[a], o);
    NoOrphansCarryOver(s, Apply(env, s, Run(a, o)), a, a);
  }

  lemma NoOrphansByClaim(env: Env, s: System, p: nat)
    requires NoOrphans(s) && Enabled(s, Claim(p))
    ensures NoOrphans(Apply(env, s, Claim(p)))
  {
    hide HandStep, NoOrphans;
    var s' := Apply(env, s, Claim(p));
    var claimed := Claimed(env.rank, s.w.redis);
    if claimed.Some? {
      assert s'.hands[Fetcher(p)] == Hand(claimed.value, Fetched);
      assert Recorded(s', claimed.value.id) && Protected(s', claimed.value.id);
    }
    NoOrphansCarryOver(s, s', Fetcher(p), Fetcher(p));
  }

  lemma NoOrphansInChannel(env: Env, s: System, act: Action)
    requires Shape(s) && NoOrphans(s) && Enabled(s, act) && (act.Dispatch? || act.Receive?)
    ensures NoOrphans(Apply(env, s, act))
  {
    hide HandStep, NoOrphans;
    if act.Dispatch? {
      NoOrphansCarryOver(s, Apply(env, s, act), Fetcher(act.pool), Slot(act.pool, s.pools[act.pool].tail));
    } else {
      NoOrphansCarryOver(s, Apply(env, s, act), Slot(act.pool, s.pools[act.pool].head), Worker(act.pool, act.n));
    }
  }

  lemma NoOrphansKept(env: Env, s: System, act: Action)
    requires Shape(s) && NoOrphans(s) && Enabled(s, act)
    ensures NoOrphans(Apply(env, s, act))
  {
    hide Shape, Recorded, Protected;
    match act
    case Run(a, o) => NoOrphansByRun(env, s, a, o);
    case Claim(p) => NoOrphansByClaim(env, s, p);
    case Dispatch(_) => NoOrphansInChannel(env, s, act);
    case Receive(_, _) => NoOrphansInChannel(env, s, act);
    case Expire(id) => NoOrphansByExpiry(env, s, id);
    case _ => NoOrphansElsewhere(env, s, act);
  }

  lemma NoOrphansByExpiry(env: Env, s: System, id: Id)
    requires NoOrphans(s)
    ensures NoOrphans(Apply(env, s, Expire(id)))
  {
    var s' := Apply(env, s, Expire(id));
    HeldAlike(s, s');
  }

  lemma NoOrphansElsewhere(env: Env, s: System, act: Action)
    requires NoOrphans(s) && Enabled(s, act)
    requires !act.Run? && !act.Claim? && !act.Dispatch? && !act.Receive? && !act.Expire?
    ensures NoOrphans(Apply(env, s, act))
  {
    hide Apply, Enabled;
    HandsAndKeysStay(env, s, act);
    HeldAlike(s, Apply(env, s, act));
  }

  lemma HeldAlike(s: System, s': System)
    requires s'.hands == s.hands
    ensures forall id :: (Recorded(s', id) <==> Recorded(s, id)) && (Protected(s', id) <==> Protected(s, id))
  {
  }

  // ---- acked jobs ----

  /** Once acked, only the one hand that is about to trim the list may still have the job. */
  ghost predicate AcksFit(s: System, loc: Locations) {
    && AcksAreAcked(s, loc)
    && forall a, b ::
         (a in s.hands && b in s.hands && s.hands[a].phase.AckTrim? && s.hands[b].phase.AckTrim?
          && s.hands[a].job.id == s.hands[b].job.id) ==> a == b
  }

  lemma AcksFitByRun(env: Env, s: System, loc: Locations, a: Actor, o: Oracle)
    requires Placed(s, loc) && AcksFit(s, loc) && Enabled(s, Run(a, o))
    ensures AcksFit(Apply(env, s, Run(a, o)), Next(env, s, loc, Run(a, o)))
  {
    hide HandStep;
    var h := s.hands[a];
    StepPhases(env, s.w, h, o);
    StepAcks(env, s, h, o);
    StepToTrim(env, s.w, h, o);
    assert At(s, InHand(a), h.job.id) <==> Owns(h.phase);
  }

  lemma StepToTrim(env: Env, w: World, h: Hand, o: Oracle)
    requires !h.phase.Buffered?
    ensures var next := HandStep(env, w, h, o).1; next.Some? && next.value.phase.AckTrim? ==> h.phase.AckPush?
  {
    hide UpdateRow, Enqueue, EnqueueDelayed;
  }

  lemma AcksFitElsewhere(env: Env, s: System, loc: Locations, act: Action)
    requires Placed(s, loc) && Shape(s) && AcksFit(s, loc) && Enabled(s, act) && !act.Run?
    ensures AcksFit(Apply(env, s, act), Next(env, s, loc, act))
  {
    hide Placed, Apply, Next, Enabled, Shape;
    var s' := Apply(env, s, act);
    forall b | b in s'.hands && s'.hands[b].phase.AckTrim?
      ensures b in s.hands && s'.hands[b] == s.hands[b]
    {
      TrimmerStays(env, s, act, b);
    }
    forall b | b in s'.hands && s'.hands[b].phase.AckTrim?
      ensures var id := s'.hands[b].job.id; id in Next(env, s, loc, act) && Next(env, s, loc, act)[id].Acked?
    {
      AckedStays(env, s, loc, act, s.hands[b].job.id);
    }
  }

  lemma TrimmerStays(env: Env, s: System, act: Action, b: Actor)
    requires Shape(s) && Enabled(s, act) && !act.Run?
    requires b in Apply(env, s, act).hands && Apply(env, s, act).hands[b].phase.AckTrim?
    ensures b in s.hands && s.hands[b] == Apply(env, s, act).hands[b]
  {
    hide HandStep, AfterDrain;
  }

  /** An acked job is in no lane and in no hand that owns it, so nothing moves it. */
  lemma AckedStays(env: Env, s: System, loc: Locations, act: Action, id: Id)
    requires Placed(s, loc) && Shape(s) && Enabled(s, act) && !act.Run? && id in loc && loc[id].Acked?
    ensures id in Next(env, s, loc, act) && Next(env, s, loc, act)[id] == loc[id]
  {
    hide HandStep;
    if act.Claim? {
      AckedIsNotClaimed(env, s, loc, id);
    } else if act.Dispatch? {
      assert At(s, InHand(Fetcher(act.pool)), s.hands[Fetcher(act.pool)].job.id);
    } else if act.Receive? {
      assert At(s, InHand(Slot(act.pool, s.pools[act.pool].head)), s.hands[Slot(act.pool, s.pools[act.pool].head)].job.id);
    } else {
      AckedStaysAcked(env, s, loc, act, id);
    }
  }

  lemma AckedIsNotClaimed(env: Env, s: System, loc: Locations, id: Id)
    requires Placed(s, loc) && id in loc && loc[id].Acked?
    ensures var claimed := Claimed(env.rank, s.w.redis); claimed.Some? ==> claimed.value.id != id
  {
    if w :| Winner(env.rank, s.w.redis) == Some(w) {
      var job := Claimed(env.rank, s.w.redis).value;
      assert At(s, InLane(w, job), job.id);
    }
  }

  // ---- over runs ----

  lemma {:induction false} KeysAndAcksAlways(env: Env, s0: System, acts: seq<Action>) returns (loc: Locations)
    requires Init(s0) && Possible(env, s0, acts)
    ensures var s := After(env, s0, acts); Inv(env, s, loc) && NoOrphans(s) && AcksFit(s, loc)
    decreases |acts|
  {
    if acts == [] {
      InvAtStart(env, s0);
      loc := map[];
    } else {
      var init, act := acts[..|acts| - 1], acts[|acts| - 1];
      loc := KeysAndAcksAlways(env, s0, init);
      var s := After(env, s0, init);
      InvKept(env, s, loc, act);
      NoOrphansKept(env, s, act);
      if act.Run? {
        AcksFitByRun(env, s, loc, act.actor, act.oracle);
      } else {
        AcksFitElsewhere(env, s, loc, act);
      }
      loc := Next(env, s, loc, act);
    }
  }

  /** In every run, whatever expires: a recorded job is in a hand that has yet to take it out of the hash,
      a locked one in a hand that has yet to delete the lock. No key is ever left behind. */
  lemma KeysHaveHands(env: Env, s: System, id: Id)
    requires Reached(env, s)
    ensures id in s.w.redis.processing ==> Recorded(s, id)
    ensures id in s.w.redis.locks ==> Protected(s, id)
  {
    hide Inv, AcksFit, Recorded, Protected;
    var s0, acts :| Init(s0) && Possible(env, s0, acts) && After(env, s0, acts) == s;
    var loc := KeysAndAcksAlways(env, s0, acts);
  }

  predicate CleansUpHandBack(phase: Phase) {
    phase == Hdel(HandBack) || phase == Unlock(HandBack)
  }

  /** Two hands deal with the same job only if one of them is cleaning up after a hand-back, and only in a
      run in which some expiry has found its lock. */
  lemma HandsAreDisjoint(env: Env, s0: System, acts: seq<Action>, a: Actor, b: Actor)
    requires Init(s0) && Possible(env, s0, acts)
    requires a in After(env, s0, acts).hands && b in After(env, s0, acts).hands && a != b
    requires After(env, s0, acts).hands[a].job.id == After(env, s0, acts).hands[b].job.id
    ensures var s := After(env, s0, acts); CleansUpHandBack(s.hands[a].phase) || CleansUpHandBack(s.hands[b].phase)
    ensures !Harmless(env, s0, acts)
  {
    hide KeysFit, NoOrphans;
    var s := After(env, s0, acts);
    var loc := KeysAndAcksAlways(env, s0, acts);
    assert At(s, InHand(a), s.hands[a].job.id) <==> Owns(s.hands[a].phase);
    assert At(s, InHand(b), s.hands[b].job.id) <==> Owns(s.hands[b].phase);
    if Harmless(env, s0, acts) {
      var loc' := LocksAlways(env, s0, acts);
    }
  }

  /** The first step of a hand-back in an otherwise empty system. */
  lemma HandBackStarts(env: Env, s: System, p: nat, job: Job, o: Oracle)
    requires s.hands == map[Fetcher(p) := Hand(job, Fetched)] && s.w.redis.lanes == EMPTY.lanes
    ensures Enabled(s, Run(Fetcher(p), o)) && Enabled(Apply(env, s, Run(Fetcher(p), o)), Expire(job.id))
    ensures var s', again := Apply(env, s, Run(Fetcher(p), o)), job.(status := Pending);
            && s'.hands == map[Fetcher(p) := Hand(again, Hdel(HandBack))] && s'.pools == s.pools
            && s'.w.redis.lanes == Enqueue(EMPTY, again, o.ms).lanes
  {
  }

  /** A run in which a lock expires during a hand-back. */
  lemma ExpiryDuringHandBack(env: Env, s0: System, p: nat, job: Job, ms: int, o: Oracle) returns (acts: seq<Action>)
    requires Init(s0) && p in s0.pools && MaySubmit(s0, job)
    ensures acts == [Submit(job, ms), Claim(p), Run(Fetcher(p), o), Expire(job.id)] && Possible(env, s0, acts)
    ensures var s, again := After(env, s0, acts), job.(status := Pending);
            && s.hands == map[Fetcher(p) := Hand(again, Hdel(HandBack))] && s.pools == s0.pools
            && s.w.redis.lanes == Enqueue(EMPTY, again, o.ms).lanes && job.id !in s.w.redis.locks
  {
    hide HandStep, After, Possible, Enabled;
    acts := SubmitAndClaim(env, s0, p, job, ms);
    var s := After(env, s0, acts);
    HandBackStarts(env, s, p, job, o);
    Extend(env, s0, acts, Run(Fetcher(p), o));
    acts := acts + [Run(Fetcher(p), o)];
    Extend(env, s0, acts, Expire(job.id));
    acts := acts + [Expire(job.id)];
  }

  /** And so it happens: a fetcher hands a job back, its lock expires before it is deleted, and another
      pool claims the job. */
  lemma HandsCanShare(env: Env, s0: System, p: nat, q: nat, job: Job, ms: int, o: Oracle) returns (acts: seq<Action>)
    requires Init(s0) && p in s0.pools && q in s0.pools && p != q && MaySubmit(s0, job)
    ensures acts == [Submit(job, ms), Claim(p), Run(Fetcher(p), o), Expire(job.id), Claim(q)]
    ensures Possible(env, s0, acts)
    ensures var s := After(env, s0, acts);
            && Fetcher(p) in s.hands && Fetcher(q) in s.hands
            && s.hands[Fetcher(p)].job.id == job.id == s.hands[Fetcher(q)].job.id
  {
    hide After, Possible, AfterClaim, Claimed, Enqueue;
    acts := ExpiryDuringHandBack(env, s0, p, job, ms, o);
    OnlyJobIsClaimed(env, After(env, s0, acts).w.redis, job.(status := Pending), o.ms);
    Extend(env, s0, acts, Claim(q));
    acts := acts + [Claim(q)];
  }
}
