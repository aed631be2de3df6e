/** Single hand and conservation: in every state of every run each submitted job is in exactly one place. */
module Placement {
  import opened Graphs
  import opened Jobs
  import opened SortedSets
  import opened Broker
  import opened Hands
  import opened Protocol

  /** The places a job can be. Acked and dropped jobs are found by their index in the history. */
  datatype Place =
    | InLane(lane: Lane, entry: Job)
    | InDelayed(entry: Job)
    | InHand(actor: Actor)
    | Acked(k: nat)
    | InDlq(entry: Job)
    | Dropped(k: nat)

  ghost predicate At(s: System, p: Place, id: Id) {
    match p
    case InLane(lane, job) => job.id == id && Entry(job) in s.w.redis.lanes.At(lane)
    case InDelayed(job) => job.id == id && Entry(job) in s.w.redis.delayed
    case InHand(a) => a in s.hands && Owns(s.hands[a].phase) && s.hands[a].job.id == id
    case Acked(k) => k < |s.w.acked| && s.w.acked[k].id == id
    case InDlq(job) => job.id == id && job in s.w.redis.dlq
    case Dropped(k) => k < |s.w.dropped| && s.w.dropped[k].id == id
  }

  type Locations = map<Id, Place>

  /** `loc` tells where every submitted job is, and nothing is anywhere else. */
  ghost predicate Placed(s: System, loc: Locations) {
    && loc.Keys == s.submitted.Keys
    && forall p, id :: At(s, p, id) <==> id in loc && loc[id] == p
  }

  lemma PlacedAtStart(s: System)
    requires Init(s)
    ensures Placed(s, map[])
  {
    forall p, id
      ensures !At(s, p, id)
    {
    }
  }

  /** Nothing moves. */
  lemma Unmoved(s: System, s': System, loc: Locations)
    requires Placed(s, loc) && s'.submitted == s.submitted
    requires forall p, id :: At(s', p, id) <==> At(s, p, id)
    ensures Placed(s', loc)
  {
  }

  /** One job turns up at `q` and is gone from wherever it was. */
  lemma Moved(s: System, s': System, loc: Locations, x: Id, q: Place)
    requires Placed(s, loc) && s'.submitted.Keys == s.submitted.Keys + {x}
    requires forall p, id :: At(s', p, id) <==> if id == x then p == q else At(s, p, id)
    ensures Placed(s', loc[x := q])
  {
  }

  // ---- what each action moves ----

  lemma SubmitMoves(env: Env, s: System, loc: Locations, job: Job, ms: int)
    requires Placed(s, loc) && MaySubmit(s, job)
    ensures Placed(Apply(env, s, Submit(job, ms)), loc[job.id := InLane(LaneOf(job.priority), job)])
  {
    var s' := Apply(env, s, Submit(job, ms));
    var q := InLane(LaneOf(job.priority), job);
    forall p, id
      ensures At(s', p, id) <==> if id == job.id then p == q else At(s, p, id)
    {
      assert At(s, p, id) ==> id in loc && loc[id] == p;
    }
    Moved(s, s', loc, job.id, q);
  }

  lemma SubmitDelayedMoves(env: Env, s: System, loc: Locations, job: Job, at: int)
    requires Placed(s, loc) && MaySubmit(s, job)
    ensures Placed(Apply(env, s, SubmitDelayed(job, at)), loc[job.id := InDelayed(DelayedForm(job, at))])
  {
    var s' := Apply(env, s, SubmitDelayed(job, at));
    var q := InDelayed(DelayedForm(job, at));
    forall p, id
      ensures At(s', p, id) <==> if id == job.id then p == q else At(s, p, id)
    {
      assert At(s, p, id) ==> id in loc && loc[id] == p;
    }
    Moved(s, s', loc, job.id, q);
  }

  lemma InjectMoves(env: Env, s: System, loc: Locations, target: Target, member: Member, score: int)
    requires Placed(s, loc) && !member.Entry?
    ensures Placed(Apply(env, s, Inject(target, member, score)), loc)
  {
    var s' := Apply(env, s, Inject(target, member, score));
    forall p, id
      ensures At(s', p, id) <==> At(s, p, id)
    {
    }
    Unmoved(s, s', loc);
  }

  lemma ClaimMoves(env: Env, s: System, loc: Locations, pool: nat)
    requires Placed(s, loc) && Enabled(s, Claim(pool))
    ensures var claimed := Claimed(env.rank, s.w.redis);
            Placed(Apply(env, s, Claim(pool)), if claimed.None? then loc else loc[claimed.value.id := InHand(Fetcher(pool))])
  {
    var s' := Apply(env, s, Claim(pool));
    var r := s.w.redis;
    match Winner(env.rank, r)
    case None =>
      forall p, id
        ensures At(s', p, id) <==> At(s, p, id)
      {
        if p.InLane? {
          ClaimTakesOne(env.rank, r, p.lane, p.entry);
        }
      }
      Unmoved(s, s', loc);
    case Some(lane) =>
      var job := Claimed(env.rank, r).value;
      var q := InHand(Fetcher(pool));
      assert At(s, InLane(lane, job), job.id);
      forall p, id
        ensures At(s', p, id) <==> if id == job.id then p == q else At(s, p, id)
      {
        assert At(s, p, id) ==> id in loc && loc[id] == p;
        if p.InLane? {
          ClaimTakesOne(env.rank, r, p.lane, p.entry);
        }
      }
      Moved(s, s', loc, job.id, q);
  }

  lemma DispatchMoves(env: Env, s: System, loc: Locations, pool: nat)
    requires Placed(s, loc) && Enabled(s, Dispatch(pool)) && Slot(pool, s.pools[pool].tail) !in s.hands
    ensures Placed(Apply(env, s, Dispatch(pool)),
                   loc[s.hands[Fetcher(pool)].job.id := InHand(Slot(pool, s.pools[pool].tail))])
  {
    var s' := Apply(env, s, Dispatch(pool));
    var x, q := s.hands[Fetcher(pool)].job.id, InHand(Slot(pool, s.pools[pool].tail));
    assert At(s, InHand(Fetcher(pool)), x);
    forall p, id
      ensures At(s', p, id) <==> if id == x then p == q else At(s, p, id)
    {
      assert At(s, p, id) ==> id in loc && loc[id] == p;
    }
    Moved(s, s', loc, x, q);
  }

  lemma ReceiveMoves(env: Env, s: System, loc: Locations, pool: nat, n: nat)
    requires Placed(s, loc) && Enabled(s, Receive(pool, n)) && s.hands[Slot(pool, s.pools[pool].head)].phase.Buffered?
    ensures Placed(Apply(env, s, Receive(pool, n)),
                   loc[s.hands[Slot(pool, s.pools[pool].head)].job.id := InHand(Worker(pool, n))])
  {
    var s' := Apply(env, s, Receive(pool, n));
    var from := Slot(pool, s.pools[pool].head);
    var x, q := s.hands[from].job.id, InHand(Worker(pool, n));
    assert At(s, InHand(from), x);
    forall p, id
      ensures At(s', p, id) <==> if id == x then p == q else At(s, p, id)
    {
      assert At(s, p, id) ==> id in loc && loc[id] == p;
    }
    Moved(s, s', loc, x, q);
  }

  /** The place a hand's next step takes its job to, if it lets go of it. */
  ghost function Destination(s: System, h: Hand, o: Oracle): Option<Place> {
    match h.phase
    case Fetched => Some(InLane(LaneOf(h.job.priority), h.job.(status := Pending)))
    case Requeue => Some(InLane(LaneOf(h.job.priority), h.job))
    case Delay => Some(InDelayed(DelayedForm(h.job, o.now + 5)))
    case AckPush => Some(Acked(|s.w.acked|))
    case DlqAdd => Some(InDlq(h.job))
    case Unlock(cause) => if cause.GateError? then Some(Dropped(|s.w.dropped|)) else None
    case _ => None
  }

  /** A step that does not let go leaves everything a place is made of as it was. */
  lemma StepStays(env: Env, s: System, h: Hand, o: Oracle)
    requires !h.phase.Buffered? && Destination(s, h, o).None?
    ensures var (w', next) := HandStep(env, s.w, h, o);
            && SamePlaces(w', s.w)
            && (if next.None? then !Owns(h.phase) else Owns(next.value.phase) == Owns(h.phase) && next.value.job.id == h.job.id)
  {
    StepSparesPlaces(env, s, h, o);
    StepKeepsOwner(env, s, h, o);
  }

  lemma StepSparesPlaces(env: Env, s: System, h: Hand, o: Oracle)
    requires !h.phase.Buffered? && Destination(s, h, o).None?
    ensures SamePlaces(HandStep(env, s.w, h, o).0, s.w)
  {
    hide HandStep;
    StepRedis(env, s.w, h, o);
    StepSparesHistories(env, s, h, o);
  }

  lemma StepSparesHistories(env: Env, s: System, h: Hand, o: Oracle)
    requires !h.phase.Buffered? && Destination(s, h, o).None?
    ensures HandStep(env, s.w, h, o).0.acked == s.w.acked && HandStep(env, s.w, h, o).0.dropped == s.w.dropped
  {
    hide UpdateRow, Enqueue, EnqueueDelayed, AddDead, GateVerdict, Continue, HDel, Del, LPush, LTrim;
  }

  lemma StepKeepsOwner(env: Env, s: System, h: Hand, o: Oracle)
    requires !h.phase.Buffered? && Destination(s, h, o).None?
    ensures var next := HandStep(env, s.w, h, o).1;
            if next.None? then !Owns(h.phase) else Owns(next.value.phase) == Owns(h.phase) && next.value.job.id == h.job.id
  {
    hide UpdateRow, Enqueue, EnqueueDelayed, AddDead;
  }

  lemma RunStays(env: Env, s: System, loc: Locations, a: Actor, o: Oracle)
    requires Placed(s, loc) && Enabled(s, Run(a, o)) && Destination(s, s.hands[a], o).None?
    ensures Placed(Apply(env, s, Run(a, o)), loc)
  {
    StepStays(env, s, s.hands[a], o);
    var (w', next) := HandStep(env, s.w, s.hands[a], o);
    StayPlaced(s, loc, a, w', next);
  }

  lemma StayPlaced(s: System, loc: Locations, a: Actor, w': World, next: Option<Hand>)
    requires Placed(s, loc) && a in s.hands
    requires SamePlaces(w', s.w)
    requires var h := s.hands[a];
             if next.None? then !Owns(h.phase) else Owns(next.value.phase) == Owns(h.phase) && next.value.job.id == h.job.id
    ensures Placed(WithHand(s, a, w', next), loc)
  {
    var s' := WithHand(s, a, w', next);
    forall p, id
      ensures At(s', p, id) <==> At(s, p, id)
    {
    }
    Unmoved(s, s', loc);
  }

  /** `w` with the job put at `q`. */
  function PutAt(w: World, q: Place, job: Job, score: int): World {
    var r := w.redis;
    match q
    case InLane(lane, entry) => w.(redis := r.(lanes := r.lanes.Put(lane, r.lanes.At(lane)[Entry(entry) := score])))
    case InDelayed(entry) => w.(redis := r.(delayed := r.delayed[Entry(entry) := score]))
    case InDlq(entry) => w.(redis := r.(dlq := r.dlq[entry := score]))
    case Acked(_) => w.(acked := w.acked + [job])
    case Dropped(_) => w.(dropped := w.dropped + [job])
    case InHand(_) => w
  }

  ghost predicate SamePlaces(w: World, v: World) {
    && w.redis.lanes == v.redis.lanes && w.redis.delayed == v.redis.delayed && w.redis.dlq == v.redis.dlq
    && w.acked == v.acked && w.dropped == v.dropped
  }

  function ScoreOf(h: Hand, o: Oracle): int {
    if h.phase.Delay? then o.now + 5 else if h.phase.DlqAdd? then o.ns else o.ms
  }

  /** A step that lets go does nothing to the places but put the job in the new one. */
  lemma StepLetsGo(env: Env, s: System, h: Hand, o: Oracle)
    requires !h.phase.Buffered? && Destination(s, h, o).Some?
    ensures var (w', next) := HandStep(env, s.w, h, o);
            && Owns(h.phase)
            && (next.Some? ==> !Owns(next.value.phase))
            && SamePlaces(w', PutAt(s.w, Destination(s, h, o).value, h.job, ScoreOf(h, o)))
  {
  }

  lemma RunLetsGo(env: Env, s: System, loc: Locations, a: Actor, o: Oracle)
    requires Placed(s, loc) && Enabled(s, Run(a, o)) && Destination(s, s.hands[a], o).Some?
    ensures Placed(Apply(env, s, Run(a, o)), loc[s.hands[a].job.id := Destination(s, s.hands[a], o).value])
  {
    StepLetsGo(env, s, s.hands[a], o);
    var (w', next) := HandStep(env, s.w, s.hands[a], o);
    LetGoPlaced(s, loc, a, w', next, Destination(s, s.hands[a], o).value, ScoreOf(s.hands[a], o));
  }

  /** `q` is where the next one would go, under the job's own id. */
  predicate FitsAt(w: World, q: Place, id: Id) {
    match q
    case InLane(_, entry) => entry.id == id
    case InDelayed(entry) => entry.id == id
    case InDlq(entry) => entry.id == id
    case Acked(k) => k == |w.acked|
    case Dropped(k) => k == |w.dropped|
    case InHand(_) => false
  }

  lemma LetGoPlaced(s: System, loc: Locations, a: Actor, w': World, next: Option<Hand>, q: Place, score: int)
    requires Placed(s, loc) && a in s.hands && Owns(s.hands[a].phase)
    requires next.Some? ==> !Owns(next.value.phase)
    requires FitsAt(s.w, q, s.hands[a].job.id)
    requires SamePlaces(w', PutAt(s.w, q, s.hands[a].job, score))
    ensures Placed(WithHand(s, a, w', next), loc[s.hands[a].job.id := q])
  {
    var s' := WithHand(s, a, w', next);
    var x := s.hands[a].job.id;
    assert At(s, InHand(a), x);
    forall p, id
      ensures At(s', p, id) <==> if id == x then p == q else At(s, p, id)
    {
      assert At(s, p, id) ==> id in loc && loc[id] == p;
    }
    Moved(s, s', loc, x, q);
  }

  /** Where a drain leaves everything: the promoted entries change from the delayed set to their lanes. */
  ghost function Relocated(loc: Locations, moved: seq<Member>): Locations {
    map id | id in loc ::
      if loc[id].InDelayed? && Entry(loc[id].entry) in moved then InLane(LaneOf(loc[id].entry.priority), loc[id].entry)
      else loc[id]
  }

  lemma DrainMoves(env: Env, s: System, loc: Locations, cutoff: int, ms: int, limit: int)
    requires Placed(s, loc)
    ensures Placed(Apply(env, s, Drain(cutoff, ms, limit)),
                   Relocated(loc, Promoted(env.rank, s.w.redis, cutoff, limit)))
  {
    var s' := Apply(env, s, Drain(cutoff, ms, limit));
    var moved := Promoted(env.rank, s.w.redis, cutoff, limit);
    var loc' := Relocated(loc, moved);
    forall p, id
      ensures At(s', p, id) <==> id in loc' && loc'[id] == p
    {
      DrainPlace(env, s, cutoff, ms, limit, p, id);
      assert At(s, p, id) <==> id in loc && loc[id] == p;
      if p.InLane? {
        assert At(s, InDelayed(p.entry), id) <==> id in loc && loc[id] == InDelayed(p.entry);
      }
    }
  }

  lemma DrainPlace(env: Env, s: System, cutoff: int, ms: int, limit: int, p: Place, id: Id)
    ensures var s' := Apply(env, s, Drain(cutoff, ms, limit));
            var moved := Promoted(env.rank, s.w.redis, cutoff, limit);
            At(s', p, id) <==>
              match p
              case InLane(lane, job) =>
                At(s, p, id) || (At(s, InDelayed(job), id) && Entry(job) in moved && LaneOf(job.priority) == lane)
              case InDelayed(job) => At(s, p, id) && Entry(job) !in moved
              case _ => At(s, p, id)
  {
    var r := s.w.redis;
    var moved := Promoted(env.rank, r, cutoff, limit);
    match p
    case InLane(lane, job) =>
      LaneMembersAfterDrain(r.lanes.At(lane), lane, moved, ms, Entry(job));
      RangeWithin(env.rank, r.delayed, cutoff, limit, Entry(job));
    case _ =>
  }
}
