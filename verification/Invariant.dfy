/** The invariant of the whole system and its preservation over runs. */
module Invariant {
  import opened Graphs
  import opened Jobs
  import opened Broker
  import opened Hands
  import opened Protocol
  import opened Placement
  import opened Lives
  import opened BackPressure
  import opened Ancestors

  ghost predicate Inv(env: Env, s: System, loc: Locations) {
    && Placed(s, loc) && Alive(env, s, loc) && Shape(s) && RowsAgree(s, loc)
    && s.w.fails.Keys <= s.submitted.Keys
  }

  lemma InvAtStart(env: Env, s: System)
    requires Init(s)
    ensures Inv(env, s, map[])
  {
    PlacedAtStart(s);
    ShapeAtStart(s);
    RowsAgreeAtStart(s);
  }

  /** Where an action takes the jobs. */
  ghost function Next(env: Env, s: System, loc: Locations, act: Action): Locations
    requires Enabled(s, act)
  {
    match act
    case Submit(job, _) => loc[job.id := InLane(LaneOf(job.priority), job)]
    case SubmitDelayed(job, at) => loc[job.id := InDelayed(DelayedForm(job, at))]
    case Claim(p) =>
      var claimed := Claimed(env.rank, s.w.redis);
      if claimed.None? then loc else loc[claimed.value.id := InHand(Fetcher(p))]
    case Dispatch(p) => loc[s.hands[Fetcher(p)].job.id := InHand(Slot(p, s.pools[p].tail))]
    case Receive(p, n) => loc[s.hands[Slot(p, s.pools[p].head)].job.id := InHand(Worker(p, n))]
    case Run(a, o) =>
      var q := Destination(s, s.hands[a], o);
      if q.None? then loc else loc[s.hands[a].job.id := q.value]
    case Drain(cutoff, _, limit) => Relocated(loc, Promoted(env.rank, s.w.redis, cutoff, limit))
    case _ => loc
  }

  lemma PlacedKept(env: Env, s: System, loc: Locations, act: Action)
    requires Placed(s, loc) && Shape(s) && Enabled(s, act)
    ensures Placed(Apply(env, s, act), Next(env, s, loc, act))
  {
    match act
    case Submit(job, ms) => SubmitMoves(env, s, loc, job, ms);
    case SubmitDelayed(job, at) => SubmitDelayedMoves(env, s, loc, job, at);
    case Inject(target, member, score) => InjectMoves(env, s, loc, target, member, score);
    case Claim(p) => ClaimMoves(env, s, loc, p);
    case Dispatch(p) => DispatchMoves(env, s, loc, p);
    case Receive(p, n) => ReceiveMoves(env, s, loc, p, n);
    case Run(a, o) => if Destination(s, s.hands[a], o).None? { RunStays(env, s, loc, a, o); } else { RunLetsGo(env, s, loc, a, o); }
    case Drain(cutoff, ms, limit) => DrainMoves(env, s, loc, cutoff, ms, limit);
    case _ => Unmoved(s, Apply(env, s, act), loc);
  }

  // ---- records ----

  /** Nothing but `x` was changed by a step. */
  ghost predicate OnlyTouches(w: World, w': World, x: Id) {
    && w.acked <= w'.acked && w.dropped <= w'.dropped
    && forall id :: id != x ==> w'.Fails(id) == w.Fails(id)
  }

  lemma AliveAfterStep(env: Env, s: System, loc: Locations, a: Actor, w: World, next: Option<Hand>, q: Place)
    requires Placed(s, loc) && Alive(env, s, loc) && a in s.hands && Owns(s.hands[a].phase)
    requires OnlyTouches(s.w, w, s.hands[a].job.id)
    requires Standing(env, WithHand(s, a, w, next), s.hands[a].job.id, q)
    ensures Alive(env, WithHand(s, a, w, next), loc[s.hands[a].job.id := q])
  {
    var x := s.hands[a].job.id;
    var s' := WithHand(s, a, w, next);
    assert At(s, InHand(a), x);
    forall id | id in loc && id != x
      ensures Untouched(s, s', id, loc[id])
    {
      assert At(s, loc[id], id);
    }
    OneChanges(env, s, s', loc, x, q);
  }

  lemma AliveAfterCleanup(env: Env, s: System, loc: Locations, a: Actor, w: World, next: Option<Hand>)
    requires Placed(s, loc) && Alive(env, s, loc) && a in s.hands && !Owns(s.hands[a].phase)
    requires w.acked == s.w.acked && w.dropped == s.w.dropped && w.fails == s.w.fails
    ensures Alive(env, WithHand(s, a, w, next), loc)
  {
    var s' := WithHand(s, a, w, next);
    forall id | id in loc
      ensures Untouched(s, s', id, loc[id])
    {
      assert At(s, loc[id], id);
    }
    NobodyChanges(env, s, s', loc);
  }

  lemma AliveKeptByRun(env: Env, s: System, loc: Locations, a: Actor, o: Oracle)
    requires Placed(s, loc) && Alive(env, s, loc) && Enabled(s, Run(a, o))
    ensures Alive(env, Apply(env, s, Run(a, o)), Next(env, s, loc, Run(a, o)))
  {
    var h := s.hands[a];
    var (w, next) := HandStep(env, s.w, h, o);
    if !Owns(h.phase) {
      CleanupIsQuiet(env, s.w, h, o);
      AliveAfterCleanup(env, s, loc, a, w, next);
    } else {
      assert At(s, InHand(a), h.job.id);
      assert Standing(env, s, h.job.id, loc[h.job.id]);
      StepHistory(env, s.w, h, o);
      StandingAfterStep(env, s, a, o);
      var q := Destination(s, h, o);
      AliveAfterStep(env, s, loc, a, w, next, if q.Some? then q.value else InHand(a));
      if q.None? {
        assert loc[h.job.id := InHand(a)] == loc;
      }
    }
  }

  lemma CleanupIsQuiet(env: Env, w: World, h: Hand, o: Oracle)
    requires !Owns(h.phase)
    ensures var w' := HandStep(env, w, h, o).0;
            w'.acked == w.acked && w'.dropped == w.dropped && w'.fails == w.fails
  {
  }

  lemma StandingAfterStep(env: Env, s: System, a: Actor, o: Oracle)
    requires Enabled(s, Run(a, o)) && Owns(s.hands[a].phase)
    requires Standing(env, s, s.hands[a].job.id, InHand(a))
    ensures var q := Destination(s, s.hands[a], o);
            Standing(env, Apply(env, s, Run(a, o)), s.hands[a].job.id, if q.Some? then q.value else InHand(a))
  {
    hide Enqueue, EnqueueDelayed, HDel, Del, LPush, LTrim, AddDead, UpdateRow, GateVerdict;
    var h := s.hands[a];
    StepKeepsRecord(env, s, h, o);
    if Destination(s, h, o).Some? {
      StepDeliversRecord(env, s, h, o);
    } else {
      StepStays(env, s, h, o);
    }
  }

  lemma AliveKeptBySubmit(env: Env, s: System, loc: Locations, act: Action)
    requires Placed(s, loc) && Alive(env, s, loc) && Shape(s) && Enabled(s, act) && (act.Submit? || act.SubmitDelayed?)
    requires s.w.Fails(act.job.id) == 0
    ensures Alive(env, Apply(env, s, act), Next(env, s, loc, act))
  {
    hide Shape, HandStep;
    var s' := Apply(env, s, act);
    OneChanges(env, s, s', loc, act.job.id, Next(env, s, loc, act)[act.job.id]);
  }

  lemma AliveKeptByClaim(env: Env, s: System, loc: Locations, p: nat)
    requires Placed(s, loc) && Alive(env, s, loc) && Enabled(s, Claim(p))
    ensures Alive(env, Apply(env, s, Claim(p)), Next(env, s, loc, Claim(p)))
  {
    var s' := Apply(env, s, Claim(p));
    match Winner(env.rank, s.w.redis)
    case None => NobodyChanges(env, s, s', loc);
    case Some(lane) =>
      var job := Claimed(env.rank, s.w.redis).value;
      ClaimedIsStanding(env, s, loc, p, lane, job);
      ClaimLeavesOthers(env, s, loc, p, job.id);
      OneChanges(env, s, s', loc, job.id, InHand(Fetcher(p)));
  }

  lemma ClaimedIsStanding(env: Env, s: System, loc: Locations, p: nat, lane: Lane, job: Job)
    requires Placed(s, loc) && Alive(env, s, loc) && Enabled(s, Claim(p))
    requires Winner(env.rank, s.w.redis) == Some(lane) && Claimed(env.rank, s.w.redis) == Some(job)
    ensures Standing(env, Apply(env, s, Claim(p)), job.id, InHand(Fetcher(p)))
  {
    assert At(s, InLane(lane, job), job.id);
    assert Standing(env, s, job.id, loc[job.id]);
  }

  lemma ClaimLeavesOthers(env: Env, s: System, loc: Locations, p: nat, x: Id)
    requires Placed(s, loc) && Enabled(s, Claim(p))
    ensures forall id :: id in loc && id != x ==> Untouched(s, Apply(env, s, Claim(p)), id, loc[id])
  {
    forall id | id in loc && id != x
      ensures Untouched(s, Apply(env, s, Claim(p)), id, loc[id])
    {
      assert At(s, loc[id], id);
    }
  }

  lemma AliveKeptInChannel(env: Env, s: System, loc: Locations, act: Action)
    requires Placed(s, loc) && Alive(env, s, loc) && Shape(s) && Enabled(s, act) && (act.Dispatch? || act.Receive?)
    ensures Alive(env, Apply(env, s, act), Next(env, s, loc, act))
  {
    var s' := Apply(env, s, act);
    var from := if act.Dispatch? then Fetcher(act.pool) else Slot(act.pool, s.pools[act.pool].head);
    var to' := if act.Dispatch? then Slot(act.pool, s.pools[act.pool].tail) else Worker(act.pool, act.n);
    var x := s.hands[from].job.id;
    assert At(s, InHand(from), x);
    assert Standing(env, s, x, loc[x]);
    assert to' !in s.hands;
    forall id | id in loc && id != x
      ensures Untouched(s, s', id, loc[id])
    {
      assert At(s, loc[id], id);
    }
    OneChanges(env, s, s', loc, x, InHand(to'));
  }

  lemma AliveKeptByDrain(env: Env, s: System, loc: Locations, cutoff: int, ms: int, limit: int)
    requires Placed(s, loc) && Alive(env, s, loc)
    ensures Alive(env, Apply(env, s, Drain(cutoff, ms, limit)), Next(env, s, loc, Drain(cutoff, ms, limit)))
  {
    var s' := Apply(env, s, Drain(cutoff, ms, limit));
    var loc' := Next(env, s, loc, Drain(cutoff, ms, limit));
    forall id | id in loc'
      ensures Standing(env, s', id, loc'[id])
    {
      assert At(s, loc[id], id);
      KeepsStanding(env, s, s', id, loc[id]);
    }
  }

  lemma AliveKept(env: Env, s: System, loc: Locations, act: Action)
    requires Inv(env, s, loc) && Enabled(s, act)
    ensures Alive(env, Apply(env, s, act), Next(env, s, loc, act))
  {
    match act
    case Submit(_, _) => AliveKeptBySubmit(env, s, loc, act);
    case SubmitDelayed(_, _) => AliveKeptBySubmit(env, s, loc, act);
    case Claim(p) => AliveKeptByClaim(env, s, loc, p);
    case Dispatch(_) => AliveKeptInChannel(env, s, loc, act);
    case Receive(_, _) => AliveKeptInChannel(env, s, loc, act);
    case Run(a, o) => AliveKeptByRun(env, s, loc, a, o);
    case Drain(cutoff, ms, limit) => AliveKeptByDrain(env, s, loc, cutoff, ms, limit);
    case _ =>
      forall id | id in loc
        ensures Untouched(s, Apply(env, s, act), id, loc[id])
      {
        assert At(s, loc[id], id);
      }
      NobodyChanges(env, s, Apply(env, s, act), loc);
  }

  // ---- rows ----

  /** An action that leaves the table alone and moves only jobs that are not completed. */
  lemma RowsUnwritten(s: System, s': System, loc: Locations, loc': Locations)
    requires RowsAgree(s, loc) && s'.w.rows == s.w.rows
    requires forall id :: id in s'.submitted && id in s.w.rows ==> s.w.rows[id].dependencies == s'.submitted[id].dependencies
    requires forall id :: id in loc' && IsCompleted(s.w.rows, id) ==>
               id in loc && loc'[id] == loc[id] && (Finished(s, loc[id]) ==> Finished(s', loc[id]))
    requires forall b :: b in s'.hands && Cleared(s'.hands[b].phase) ==> b in s.hands && s.hands[b] == s'.hands[b]
    ensures RowsAgree(s', loc')
  {
  }

  lemma RowsAgreeKept(env: Env, s: System, loc: Locations, act: Action)
    requires Inv(env, s, loc) && Enabled(s, act)
    ensures RowsAgree(Apply(env, s, act), Next(env, s, loc, act))
  {
    if act.Run? {
      RowsAgreeAfterRun(env, s, loc, act.actor, act.oracle, Next(env, s, loc, act));
    } else {
      RowsAgreeElsewhere(env, s, loc, act);
    }
  }

  lemma RowsAgreeElsewhere(env: Env, s: System, loc: Locations, act: Action)
    requires Inv(env, s, loc) && Enabled(s, act) && !act.Run?
    ensures RowsAgree(Apply(env, s, act), Next(env, s, loc, act))
  {
    var s' := Apply(env, s, act);
    var loc' := Next(env, s, loc, act);
    forall id | id in loc' && IsCompleted(s.w.rows, id)
      ensures id in loc && loc'[id] == loc[id] && (Finished(s, loc[id]) ==> Finished(s', loc[id]))
    {
      FinishedIsLeftAlone(env, s, loc, act, id);
    }
    forall b | b in s'.hands && Cleared(s'.hands[b].phase)
      ensures b in s.hands && s.hands[b] == s'.hands[b]
    {
      ClearedHandsStay(env, s, act, b);
    }
    OnlyRunsWrite(env, s, loc, act);
    RowsUnwritten(s, s', loc, loc');
  }

  lemma OnlyRunsWrite(env: Env, s: System, loc: Locations, act: Action)
    requires RowsAgree(s, loc) && Enabled(s, act) && !act.Run?
    ensures var s' := Apply(env, s, act);
            && s'.w.rows == s.w.rows
            && forall id :: id in s'.submitted && id in s.w.rows ==> s.w.rows[id].dependencies == s'.submitted[id].dependencies
  {
  }

  /** Only hands move finished jobs. */
  lemma FinishedIsLeftAlone(env: Env, s: System, loc: Locations, act: Action, id: Id)
    requires Inv(env, s, loc) && Enabled(s, act) && !act.Run?
    requires id in Next(env, s, loc, act) && IsCompleted(s.w.rows, id)
    ensures id in loc && Next(env, s, loc, act)[id] == loc[id]
    ensures Finished(s, loc[id]) ==> Finished(Apply(env, s, act), loc[id])
  {
    if act.Claim? || act.Dispatch? || act.Receive? {
      FinishedIsNotTaken(env, s, loc, act, id);
    } else {
      FinishedIsNotMoved(env, s, loc, act, id);
    }
  }

  lemma FinishedIsNotTaken(env: Env, s: System, loc: Locations, act: Action, id: Id)
    requires Placed(s, loc) && Shape(s) && RowsAgree(s, loc) && Enabled(s, act) && (act.Claim? || act.Dispatch? || act.Receive?)
    requires id in Next(env, s, loc, act) && IsCompleted(s.w.rows, id)
    ensures id in loc && Next(env, s, loc, act)[id] == loc[id]
    ensures Finished(s, loc[id]) ==> Finished(Apply(env, s, act), loc[id])
  {
    if id in loc {
      assert At(s, loc[id], id) && Finished(s, loc[id]);
    }
    match act
    case Claim(p) => ClaimedIsNotFinished(env, s, loc, p);
    case Dispatch(p) => UnfinishedInChannel(s, loc, Fetcher(p));
    case Receive(p, n) => UnfinishedInChannel(s, loc, Slot(p, s.pools[p].head));
  }

  lemma FinishedIsNotMoved(env: Env, s: System, loc: Locations, act: Action, id: Id)
    requires Placed(s, loc) && RowsAgree(s, loc) && Enabled(s, act)
    requires !act.Run? && !act.Claim? && !act.Dispatch? && !act.Receive?
    requires id in Next(env, s, loc, act) && IsCompleted(s.w.rows, id)
    ensures id in loc && Next(env, s, loc, act)[id] == loc[id]
    ensures Finished(s, loc[id]) ==> Finished(Apply(env, s, act), loc[id])
  {
    if id in loc {
      assert At(s, loc[id], id) && Finished(s, loc[id]);
    }
  }

  lemma ClaimedIsNotFinished(env: Env, s: System, loc: Locations, p: nat)
    requires Placed(s, loc) && RowsAgree(s, loc) && Enabled(s, Claim(p))
    ensures var claimed := Claimed(env.rank, s.w.redis);
            claimed.Some? ==> !IsCompleted(s.w.rows, claimed.value.id)
  {
    if w :| Winner(env.rank, s.w.redis) == Some(w) {
      var job := Claimed(env.rank, s.w.redis).value;
      assert At(s, InLane(w, job), job.id);
    }
  }

  lemma UnfinishedInChannel(s: System, loc: Locations, a: Actor)
    requires Placed(s, loc) && RowsAgree(s, loc) && a in s.hands
    requires s.hands[a].phase.Fetched? || s.hands[a].phase.Buffered?
    ensures !IsCompleted(s.w.rows, s.hands[a].job.id)
  {
    assert At(s, InHand(a), s.hands[a].job.id);
  }

  lemma ClearedHandsStay(env: Env, s: System, act: Action, b: Actor)
    requires Shape(s) && Enabled(s, act) && !act.Run?
    requires b in Apply(env, s, act).hands && Cleared(Apply(env, s, act).hands[b].phase)
    ensures b in s.hands && s.hands[b] == Apply(env, s, act).hands[b]
  {
  }

  // ---- all together ----

  lemma FailsKept(env: Env, s: System, loc: Locations, act: Action)
    requires Inv(env, s, loc) && Enabled(s, act)
    ensures Apply(env, s, act).w.fails.Keys <= Apply(env, s, act).submitted.Keys
  {
    if act.Run? {
      var h := s.hands[act.actor];
      StepCountsOwn(env, s.w, h, act.oracle);
      if Owns(h.phase) {
        assert At(s, InHand(act.actor), h.job.id);
      }
    }
  }

  lemma StepCountsOwn(env: Env, w: World, h: Hand, o: Oracle)
    requires !h.phase.Buffered?
    ensures HandStep(env, w, h, o).0.fails.Keys <= w.fails.Keys + if Owns(h.phase) then {h.job.id} else {}
  {
  }

  lemma InvKept(env: Env, s: System, loc: Locations, act: Action)
    requires Inv(env, s, loc) && Enabled(s, act)
    ensures Inv(env, Apply(env, s, act), Next(env, s, loc, act))
  {
    PlacedKept(env, s, loc, act);
    AliveKept(env, s, loc, act);
    ShapeKept(env, s, act);
    RowsAgreeKept(env, s, loc, act);
    FailsKept(env, s, loc, act);
  }

  /** In every state of every run. */
  lemma {:induction false} InvAlways(env: Env, s0: System, acts: seq<Action>) returns (loc: Locations)
    requires Init(s0) && Possible(env, s0, acts)
    ensures Inv(env, After(env, s0, acts), loc)
    decreases |acts|
  {
    if acts == [] {
      InvAtStart(env, s0);
      loc := map[];
    } else {
      var init, act := acts[..|acts| - 1], acts[|acts| - 1];
      loc := InvAlways(env, s0, init);
      InvKept(env, After(env, s0, init), loc, act);
      loc := Next(env, After(env, s0, init), loc, act);
    }
  }

  /** A hand that owns its job is the only one that does, and holds it with its record. */
  lemma OwnRecord(env: Env, s: System, loc: Locations, a: Actor)
    requires Placed(s, loc) && Alive(env, s, loc) && a in s.hands && Owns(s.hands[a].phase)
    ensures Record(env, s, s.hands[a].job.id, s.hands[a].job, StageOf(s.hands[a].phase))
    ensures StatusFits(s.hands[a].job, s.hands[a].phase)
    ensures forall b :: b in s.hands && b != a && Owns(s.hands[b].phase) ==> s.hands[b].job.id != s.hands[a].job.id
  {
    hide Record;
    var id := s.hands[a].job.id;
    assert At(s, InHand(a), id);
    assert Standing(env, s, id, loc[id]);
    forall b | b in s.hands && b != a && Owns(s.hands[b].phase)
      ensures s.hands[b].job.id != id
    {
      assert At(s, InHand(b), s.hands[b].job.id);
    }
  }

  /** A job in a lane is in the lane of its priority. */
  lemma OwnLane(env: Env, s: System, loc: Locations, lane: Lane, job: Job)
    requires Placed(s, loc) && Alive(env, s, loc) && Entry(job) in s.w.redis.lanes.At(lane)
    ensures LaneOf(job.priority) == lane
  {
    hide Record;
    assert At(s, InLane(lane, job), job.id);
    assert Standing(env, s, job.id, loc[job.id]);
  }

  lemma InvReached(env: Env, s: System) returns (loc: Locations)
    requires Reached(env, s)
    ensures Inv(env, s, loc)
  {
    var s0, acts :| Init(s0) && Possible(env, s0, acts) && After(env, s0, acts) == s;
    loc := InvAlways(env, s0, acts);
  }
}
