/** The claim lock and the processing hash, and exactly which expiries their agreement survives. */
module Locks {
  import opened Graphs
  import opened Jobs
  import opened SortedSets
  import opened Broker
  import opened Hands
  import opened Protocol
  import opened Placement
  import opened BackPressure
  import opened Invariant

  /** From the claim until the first HDEL; what is given up has been released before. */
  predicate Hashed(phase: Phase) {
    match phase
    case Fetched => true
    case Buffered => true
    case Gate => true
    case Activate => true
    case Handler => true
    case Complete => true
    case Hdel(cause) => !cause.GiveUp?
    case _ => false
  }

  /** From the claim until the first DEL. */
  predicate Locked(phase: Phase) {
    Hashed(phase) || (phase.Unlock? && !phase.cause.GiveUp?)
  }

  ghost predicate KeysFit(s: System) {
    forall a :: a in s.hands ==>
      && (s.hands[a].job.id in s.w.redis.processing <==> Hashed(s.hands[a].phase))
      && (s.hands[a].job.id in s.w.redis.locks <==> Locked(s.hands[a].phase))
  }

  /** Every key belongs to a hand. */
  ghost predicate KeysAreHeld(s: System) {
    forall id :: id in s.w.redis.processing || id in s.w.redis.locks ==> Held(s, id)
  }

  ghost predicate HandsDiffer(s: System) {
    forall a, b :: a in s.hands && b in s.hands && s.hands[a].job.id == s.hands[b].job.id ==> a == b
  }

  ghost predicate AcksAreAcked(s: System, loc: Locations) {
    forall a :: a in s.hands && s.hands[a].phase.AckTrim? ==> s.hands[a].job.id in loc && loc[s.hands[a].job.id].Acked?
  }

  ghost predicate LocksAgree(s: System, loc: Locations) {
    KeysFit(s) && KeysAreHeld(s) && HandsDiffer(s) && AcksAreAcked(s, loc)
  }

  ghost predicate Held(s: System, id: Id) {
    exists a :: a in s.hands && s.hands[a].job.id == id
  }

  lemma LocksAgreeAtStart(s: System)
    requires Init(s)
    ensures LocksAgree(s, map[])
  {
  }

  /** What a step does to the two keys of its own job; it leaves the keys of every other job alone. */
  lemma StepLocks(env: Env, w: World, h: Hand, o: Oracle)
    requires !h.phase.Buffered?
    requires h.job.id in w.redis.processing <==> Hashed(h.phase)
    requires h.job.id in w.redis.locks <==> Locked(h.phase)
    ensures var (w', next) := HandStep(env, w, h, o);
            var r, r', id := w.redis, w'.redis, h.job.id;
            && (forall x :: x != id ==> (x in r'.processing <==> x in r.processing) && (x in r'.locks <==> x in r.locks))
            && (id in r'.processing <==> next.Some? && Hashed(next.value.phase))
            && (id in r'.locks <==> next.Some? && Locked(next.value.phase))
            && (next.Some? ==> next.value.job.id == id)
  {
    StepKeys(env, w, h, o);
    StepPhases(env, w, h, o);
  }

  lemma StepKeys(env: Env, w: World, h: Hand, o: Oracle)
    requires !h.phase.Buffered?
    ensures var r, r' := w.redis, HandStep(env, w, h, o).0.redis;
            && r'.processing == (if h.phase.Hdel? then r.processing - {h.job.id} else r.processing)
            && r'.locks == if h.phase.Unlock? then r.locks - {h.job.id} else r.locks
  {
    hide HandStep;
    StepRedis(env, w, h, o);
  }

  lemma StepPhases(env: Env, w: World, h: Hand, o: Oracle)
    requires !h.phase.Buffered?
    ensures var next := HandStep(env, w, h, o).1;
            && (next.Some? ==> next.value.job.id == h.job.id)
            && (next.Some? && Hashed(next.value.phase) <==> Hashed(h.phase) && !h.phase.Hdel?)
            && (next.Some? && Locked(next.value.phase) <==> Locked(h.phase) && !h.phase.Unlock?)
  {
  }

  lemma StepAcks(env: Env, s: System, h: Hand, o: Oracle)
    requires !h.phase.Buffered?
    ensures var next := HandStep(env, s.w, h, o).1;
            next.Some? && next.value.phase.AckTrim? ==> Destination(s, h, o) == Some(Acked(|s.w.acked|))
  {
  }

  lemma LocksKeptByRun(env: Env, s: System, loc: Locations, a: Actor, o: Oracle)
    requires Placed(s, loc) && LocksAgree(s, loc) && Enabled(s, Run(a, o))
    ensures LocksAgree(Apply(env, s, Run(a, o)), Next(env, s, loc, Run(a, o)))
  {
    hide HandStep, Hashed, Locked;
    StepLocks(env, s.w, s.hands[a], o);
    StepAcks(env, s, s.hands[a], o);
    var (w', next) := HandStep(env, s.w, s.hands[a], o);
    KeysAfterStep(s, a, w', next);
  }

  lemma KeysAfterStep(s: System, a: Actor, w': World, next: Option<Hand>)
    requires KeysFit(s) && KeysAreHeld(s) && HandsDiffer(s) && a in s.hands
    requires var r, r', id := s.w.redis, w'.redis, s.hands[a].job.id;
             && (forall x :: x != id ==> (x in r'.processing <==> x in r.processing) && (x in r'.locks <==> x in r.locks))
             && (id in r'.processing <==> next.Some? && Hashed(next.value.phase))
             && (id in r'.locks <==> next.Some? && Locked(next.value.phase))
             && (next.Some? ==> next.value.job.id == id)
    ensures var s' := WithHand(s, a, w', next); KeysFit(s') && KeysAreHeld(s') && HandsDiffer(s')
  {
    var s' := WithHand(s, a, w', next);
    forall id | id in s'.w.redis.processing || id in s'.w.redis.locks
      ensures Held(s', id)
    {
      if id == s.hands[a].job.id {
        assert a in s'.hands;
      } else {
        var b :| b in s.hands && s.hands[b].job.id == id;
        assert b in s'.hands && s'.hands[b] == s.hands[b];
      }
    }
  }

  /** A claim finds its job unlocked, so nobody has it in hand: a holder who owns it would be where the
      lane entry is, one who is handing back still has the lock, and one who is acking has acked it. */
  lemma ClaimedIsFree(env: Env, s: System, loc: Locations, lane: Lane, b: Actor)
    requires Placed(s, loc) && LocksAgree(s, loc) && Winner(env.rank, s.w.redis) == Some(lane)
    requires b in s.hands
    ensures s.hands[b].job.id != Claimed(env.rank, s.w.redis).value.id
  {
    var job := Claimed(env.rank, s.w.redis).value;
    assert At(s, InLane(lane, job), job.id);
    assert At(s, InHand(b), s.hands[b].job.id) <==> Owns(s.hands[b].phase);
  }

  lemma LocksKeptByClaim(env: Env, s: System, loc: Locations, p: nat)
    requires Placed(s, loc) && LocksAgree(s, loc) && Enabled(s, Claim(p))
    ensures LocksAgree(Apply(env, s, Claim(p)), Next(env, s, loc, Claim(p)))
  {
    var s' := Apply(env, s, Claim(p));
    match Winner(env.rank, s.w.redis)
    case None => HeldCarriesOver(s, s');
    case Some(lane) =>
      var job := Claimed(env.rank, s.w.redis).value;
      forall b | b in s.hands
        ensures s.hands[b].job.id != job.id
      {
        ClaimedIsFree(env, s, loc, lane, b);
      }
      LocksAfterNewHand(s, s', loc, Fetcher(p), job);
  }

  lemma LocksAfterNewHand(s: System, s': System, loc: Locations, f: Actor, job: Job)
    requires LocksAgree(s, loc) && f !in s.hands && s'.hands == s.hands[f := Hand(job, Fetched)]
    requires forall b :: b in s.hands ==> s.hands[b].job.id != job.id
    requires s'.w.redis.processing == s.w.redis.processing[job.id := job]
    requires s'.w.redis.locks == s.w.redis.locks + {job.id}
    ensures LocksAgree(s', loc[job.id := InHand(f)])
  {
    KeysOfNewHand(s, s', f, job);
    forall id | id in s'.w.redis.processing || id in s'.w.redis.locks
      ensures Held(s', id)
    {
      if id == job.id {
        assert s'.hands[f].job.id == id;
      } else {
        var b :| b in s.hands && s.hands[b].job.id == id;
        assert b in s'.hands && s'.hands[b] == s.hands[b];
      }
    }
  }

  lemma KeysOfNewHand(s: System, s': System, f: Actor, job: Job)
    requires KeysFit(s) && HandsDiffer(s) && f !in s.hands && s'.hands == s.hands[f := Hand(job, Fetched)]
    requires forall b :: b in s.hands ==> s.hands[b].job.id != job.id
    requires s'.w.redis.processing == s.w.redis.processing[job.id := job]
    requires s'.w.redis.locks == s.w.redis.locks + {job.id}
    ensures KeysFit(s') && HandsDiffer(s')
  {
  }

  lemma HeldCarriesOver(s: System, s': System)
    requires s'.hands == s.hands
    ensures forall id :: Held(s', id) <==> Held(s, id)
  {
  }

  /** A job changes hands inside a pool: its keys and everybody else's stay as they are. */
  lemma LocksAfterHandover(s: System, s': System, loc: Locations, loc': Locations, from: Actor, dest: Actor, phase: Phase)
    requires LocksAgree(s, loc) && from in s.hands && dest !in s.hands && s'.w == s.w
    requires Hashed(s.hands[from].phase) && Hashed(phase)
    requires s'.hands == (s.hands - {from})[dest := s.hands[from].(phase := phase)]
    requires loc' == loc[s.hands[from].job.id := InHand(dest)]
    ensures LocksAgree(s', loc')
  {
    forall id | id in s'.w.redis.processing || id in s'.w.redis.locks
      ensures Held(s', id)
    {
      var b :| b in s.hands && s.hands[b].job.id == id;
      assert s'.hands[if b == from then dest else b].job.id == id;
    }
  }

  lemma LocksKeptInChannel(env: Env, s: System, loc: Locations, act: Action)
    requires Shape(s) && LocksAgree(s, loc) && Enabled(s, act) && (act.Dispatch? || act.Receive?)
    ensures LocksAgree(Apply(env, s, act), Next(env, s, loc, act))
  {
    var s', loc' := Apply(env, s, act), Next(env, s, loc, act);
    if act.Dispatch? {
      LocksAfterHandover(s, s', loc, loc', Fetcher(act.pool), Slot(act.pool, s.pools[act.pool].tail), Buffered);
    } else {
      LocksAfterHandover(s, s', loc, loc', Slot(act.pool, s.pools[act.pool].head), Worker(act.pool, act.n), Gate);
    }
  }

  lemma LocksKeptElsewhere(env: Env, s: System, loc: Locations, act: Action)
    requires Placed(s, loc) && LocksAgree(s, loc) && Enabled(s, act)
    requires !act.Run? && !act.Claim? && !act.Dispatch? && !act.Receive? && !act.Expire?
    ensures LocksAgree(Apply(env, s, act), Next(env, s, loc, act))
  {
    hide Apply, Next, Enabled, Hashed, Locked, At;
    HandsAndKeysStay(env, s, act);
    forall id | id in loc && loc[id].Acked?
      ensures id in Next(env, s, loc, act) && Next(env, s, loc, act)[id] == loc[id]
    {
      AckedStaysAcked(env, s, loc, act, id);
    }
    HeldCarriesOver(s, Apply(env, s, act));
  }

  lemma HandsAndKeysStay(env: Env, s: System, act: Action)
    requires Enabled(s, act) && !act.Run? && !act.Claim? && !act.Dispatch? && !act.Receive? && !act.Expire?
    ensures var s' := Apply(env, s, act);
            s'.hands == s.hands && s'.w.redis.processing == s.w.redis.processing && s'.w.redis.locks == s.w.redis.locks
  {
    hide HandStep, LaneAfterDrain, Promoted;
  }

  lemma AckedStaysAcked(env: Env, s: System, loc: Locations, act: Action, id: Id)
    requires loc.Keys == s.submitted.Keys && Enabled(s, act) && id in loc && loc[id].Acked?
    requires !act.Run? && !act.Claim? && !act.Dispatch? && !act.Receive?
    ensures id in Next(env, s, loc, act) && Next(env, s, loc, act)[id] == loc[id]
  {
    hide HandStep, Promoted;
  }

  lemma LocksKept(env: Env, s: System, loc: Locations, act: Action)
    requires Inv(env, s, loc) && LocksAgree(s, loc) && Enabled(s, act) && !act.Expire?
    ensures LocksAgree(Apply(env, s, act), Next(env, s, loc, act))
  {
    match act
    case Run(a, o) => LocksKeptByRun(env, s, loc, a, o);
    case Claim(p) => LocksKeptByClaim(env, s, loc, p);
    case Dispatch(_) => LocksKeptInChannel(env, s, loc, act);
    case Receive(_, _) => LocksKeptInChannel(env, s, loc, act);
    case _ => LocksKeptElsewhere(env, s, loc, act);
  }

  /** An expiry that finds no lock changes nothing. */
  lemma LocksKeptByIdleExpiry(env: Env, s: System, loc: Locations, id: Id)
    requires LocksAgree(s, loc) && id !in s.w.redis.locks
    ensures LocksAgree(Apply(env, s, Expire(id)), Next(env, s, loc, Expire(id)))
  {
    assert s.w.redis.locks - {id} == s.w.redis.locks;
    assert Apply(env, s, Expire(id)) == s;
  }

  // ---- over runs ----

  /** Every expiry in the run finds its lock gone already. */
  ghost predicate Harmless(env: Env, s0: System, acts: seq<Action>)
    requires Possible(env, s0, acts)
    decreases |acts|
  {
    acts == []
    || (var init, act := acts[..|acts| - 1], acts[|acts| - 1];
        Harmless(env, s0, init) && (act.Expire? ==> act.id !in After(env, s0, init).w.redis.locks))
  }

  lemma {:induction false} LocksAlways(env: Env, s0: System, acts: seq<Action>) returns (loc: Locations)
    requires Init(s0) && Possible(env, s0, acts) && Harmless(env, s0, acts)
    ensures Inv(env, After(env, s0, acts), loc) && LocksAgree(After(env, s0, acts), loc)
    decreases |acts|
  {
    if acts == [] {
      InvAtStart(env, s0);
      LocksAgreeAtStart(s0);
      loc := map[];
    } else {
      var init, act := acts[..|acts| - 1], acts[|acts| - 1];
      loc := LocksAlways(env, s0, init);
      var s := After(env, s0, init);
      InvKept(env, s, loc, act);
      if act.Expire? {
        LocksKeptByIdleExpiry(env, s, loc, act.id);
      } else {
        LocksKept(env, s, loc, act);
      }
      loc := Next(env, s, loc, act);
    }
  }

  /** A hand is between the HDEL and the DEL of its claim. */
  ghost predicate Releasing(s: System, id: Id) {
    exists a :: a in s.hands && s.hands[a].job.id == id && s.hands[a].phase.Unlock? && !s.hands[a].phase.cause.GiveUp?
  }

  /** What is in the processing hash is locked, and a lock without a hash entry is one whose holder has
      sent its HDEL and not yet its DEL. */
  ghost predicate Agrees(s: System, id: Id) {
    && (id in s.w.redis.processing ==> id in s.w.redis.locks)
    && (id in s.w.redis.locks && id !in s.w.redis.processing <==> Releasing(s, id))
  }

  ghost predicate AgreesThroughout(env: Env, s0: System, acts: seq<Action>)
    requires Possible(env, s0, acts)
    decreases |acts|
  {
    && (forall id :: Agrees(After(env, s0, acts), id))
    && (acts == [] || AgreesThroughout(env, s0, acts[..|acts| - 1]))
  }

  ghost predicate KeysFitThroughout(env: Env, s0: System, acts: seq<Action>)
    requires Possible(env, s0, acts)
    decreases |acts|
  {
    KeysFit(After(env, s0, acts)) && (acts == [] || KeysFitThroughout(env, s0, acts[..|acts| - 1]))
  }

  lemma LocksAgreeForAll(s: System, loc: Locations)
    requires LocksAgree(s, loc)
    ensures forall id :: Agrees(s, id)
  {
    forall id
      ensures Agrees(s, id)
    {
      if id in s.w.redis.processing || id in s.w.redis.locks {
        assert Held(s, id);
        var a :| a in s.hands && s.hands[a].job.id == id;
      }
    }
  }

  /** At every sub-step of every pipeline. */
  lemma ProcessingIsLocked(env: Env, s0: System, acts: seq<Action>, id: Id)
    requires Init(s0) && Possible(env, s0, acts) && Harmless(env, s0, acts)
    ensures Agrees(After(env, s0, acts), id)
  {
    var loc := LocksAlways(env, s0, acts);
    LocksAgreeForAll(After(env, s0, acts), loc);
  }

  /** An expiry that does find a lock breaks the agreement at once: either the job stays recorded without
      a lock, or its holder is about to delete a lock that is no longer there. */
  lemma ExpiryBreaks(env: Env, s: System, loc: Locations, id: Id)
    requires LocksAgree(s, loc) && id in s.w.redis.locks
    ensures !Agrees(Apply(env, s, Expire(id)), id) && !KeysFit(Apply(env, s, Expire(id)))
  {
    hide Hashed, Apply, HandsDiffer, AcksAreAcked;
    var s' := Apply(env, s, Expire(id));
    ExpiryDropsLock(env, s, id);
    assert Held(s, id);
    var a :| a in s.hands && s.hands[a].job.id == id;
    assert Locked(s.hands[a].phase);
    if !Hashed(s.hands[a].phase) {
      assert Releasing(s', id);
    }
  }

  lemma ExpiryDropsLock(env: Env, s: System, id: Id)
    ensures var s' := Apply(env, s, Expire(id));
            && s'.hands == s.hands && s'.w.redis.processing == s.w.redis.processing && id !in s'.w.redis.locks
  {
  }

  /** So locks and processing hash agree throughout a run, with each other and with the hands, exactly if
      none of its expiries finds a lock. */
  lemma {:induction false} AgreementIsHarmlessness(env: Env, s0: System, acts: seq<Action>)
    requires Init(s0) && Possible(env, s0, acts)
    ensures AgreesThroughout(env, s0, acts) <==> Harmless(env, s0, acts)
    ensures KeysFitThroughout(env, s0, acts) <==> Harmless(env, s0, acts)
    decreases |acts|
  {
    if acts != [] {
      var init, act := acts[..|acts| - 1], acts[|acts| - 1];
      AgreementIsHarmlessness(env, s0, init);
      if Harmless(env, s0, init) && act.Expire? && act.id in After(env, s0, init).w.redis.locks {
        var loc := LocksAlways(env, s0, init);
        ExpiryBreaks(env, After(env, s0, init), loc, act.id);
        assert !Agrees(After(env, s0, acts), act.id);
      }
    }
    if Harmless(env, s0, acts) {
      var loc := LocksAlways(env, s0, acts);
      LocksAgreeForAll(After(env, s0, acts), loc);
    }
  }

  /** A run of two actions: the only job there is, in the hand of a fetcher. */
  lemma SubmitAndClaim(env: Env, s0: System, pool: nat, job: Job, ms: int) returns (acts: seq<Action>)
    requires Init(s0) && pool in s0.pools && MaySubmit(s0, job)
    ensures acts == [Submit(job, ms), Claim(pool)] && Possible(env, s0, acts)
    ensures var s := After(env, s0, acts);
            && s.hands == map[Fetcher(pool) := Hand(job, Fetched)] && s.pools == s0.pools
            && s.w.redis.lanes == EMPTY.lanes && job.id in s.w.redis.processing
  {
    acts := [];
    Extend(env, s0, acts, Submit(job, ms));
    acts := acts + [Submit(job, ms)];
    OnlyJobIsClaimed(env, After(env, s0, acts).w.redis, job, ms);
    OnlyJobLeaves(env, After(env, s0, acts).w.redis, job, ms);
    Extend(env, s0, acts, Claim(pool));
    acts := acts + [Claim(pool)];
  }

  /** The shortest run to lose the agreement: claim a job and let its lock expire. */
  lemma ExpiryBreaksAgreement(env: Env, s0: System, pool: nat, job: Job, ms: int) returns (acts: seq<Action>)
    requires Init(s0) && pool in s0.pools && MaySubmit(s0, job)
    ensures acts == [Submit(job, ms), Claim(pool), Expire(job.id)]
    ensures Possible(env, s0, acts)
    ensures job.id in After(env, s0, acts).w.redis.processing
    ensures job.id !in After(env, s0, acts).w.redis.locks
  {
    acts := SubmitAndClaim(env, s0, pool, job, ms);
    Extend(env, s0, acts, Expire(job.id));
    acts := acts + [Expire(job.id)];
  }

  lemma OnlyJobIsClaimed(env: Env, r: Redis, job: Job, ms: int)
    requires r.lanes == Enqueue(EMPTY, job, ms).lanes && job.id !in r.locks
    ensures Claimed(env.rank, r) == Some(job)
  {
    var lane := LaneOf(job.priority);
    var z := r.lanes.At(lane);
    assert z == map[Entry(job) := ms];
    assert Entry(job) in z;
    assert First(env.rank, z) in z;
    assert Offers(env.rank, r, lane);
  }

  /** The claim of an only job leaves the lanes empty. */
  lemma OnlyJobLeaves(env: Env, r: Redis, job: Job, ms: int)
    requires r.lanes == Enqueue(EMPTY, job, ms).lanes && job.id !in r.locks
    ensures AfterClaim(env.rank, r).lanes == EMPTY.lanes
  {
    OnlyJobIsClaimed(env, r, job, ms);
    var lane := LaneOf(job.priority);
    assert r.lanes.At(lane) == map[Entry(job) := ms];
    assert Winner(env.rank, r) == Some(lane);
    assert First(env.rank, r.lanes.At(lane)) == Entry(job);
    assert r.lanes.At(lane) - {Entry(job)} == map[];
    assert Outranks(High, Medium) && Outranks(High, Low) && Outranks(Medium, Low);
  }
}
