/** How long a job is held back for retries, over its whole life. */
module Waits {
  import opened Graphs
  import opened Jobs
  import opened Broker
  import opened Retry
  import opened Hands
  import opened Protocol
  import opened Placement
  import opened Lives
  import opened BackPressure
  import opened Invariant

  ghost function ConfigFor(env: Env, job: Job): Config {
    ConfigOf(env.configs, job.jobType)
  }

  /** Every wait there can have been was for an attempt below this one. */
  ghost function Horizon(cfg: Config, retryCount: int): int {
    if cfg.maxRetries < retryCount then cfg.maxRetries else retryCount
  }

  ghost predicate HeldBack(env: Env, s: System, id: Id, retryCount: int) {
    id in s.submitted
    && WaitFits(ConfigFor(env, s.submitted[id]), s.w.Waited(id), Horizon(ConfigFor(env, s.submitted[id]), retryCount))
  }

  /** The wait for an attempt comes after the attempt has been counted: until then, the total is that of
      the attempts before. */
  ghost predicate WaitsFit(env: Env, s: System) {
    && s.w.waited.Keys <= s.submitted.Keys
    && (forall id :: id in s.submitted ==> HeldBack(env, s, id, s.submitted[id].retryCount + s.w.Fails(id) + 1))
    && (forall a :: a in s.hands && StageOf(s.hands[a].phase).JustFailed? ==>
          HeldBack(env, s, s.hands[a].job.id, s.hands[a].job.retryCount))
  }

  lemma HeldBackLater(env: Env, s: System, id: Id, retryCount: int)
    requires HeldBack(env, s, id, retryCount)
    ensures HeldBack(env, s, id, retryCount + 1)
  {
    hide WaitFits;
    var cfg := ConfigFor(env, s.submitted[id]);
    WaitFitsLater(cfg, s.w.Waited(id), Horizon(cfg, retryCount), Horizon(cfg, retryCount + 1));
  }

  // ---- one step of a hand ----

  /** Only a wait adds to the total, and only the handler counts a failure. */
  lemma StepWaits(env: Env, w: World, h: Hand, o: Oracle)
    requires !h.phase.Buffered?
    ensures var (w', next) := HandStep(env, w, h, o);
            var job, id := h.job, h.job.id;
            var waits := h.phase.Wait? && job.retryCount < env.MaxRetries(job.jobType);
            && w'.waited == (if waits then w.waited[id := w.Waited(id) + env.DelayFor(job, o.draw)] else w.waited)
            && (forall x :: x != id || !h.phase.Handler? ==> w'.Fails(x) == w.Fails(x))
            && w.Fails(id) <= w'.Fails(id) <= w.Fails(id) + 1
  {
    hide GateVerdict, UpdateRow, AfterRelease, DelayOf, Enqueue, EnqueueDelayed;
  }

  /** What becomes a hand that has just failed. */
  lemma StepFails(env: Env, w: World, h: Hand, o: Oracle)
    requires !h.phase.Buffered?
    ensures var (w', next) := HandStep(env, w, h, o);
            next.Some? && StageOf(next.value.phase).JustFailed? ==>
              && next.value.job.id == h.job.id && !h.phase.Wait?
              && if h.phase.Handler?
                 then next.value.job.retryCount == h.job.retryCount + 1
                 else StageOf(h.phase).JustFailed? && next.value.job.retryCount == h.job.retryCount
  {
    hide UpdateRow, Enqueue, EnqueueDelayed, DelayOf;
  }

  /** The wait itself. */
  lemma WaitCounts(env: Env, s: System, a: Actor, o: Oracle)
    requires a in s.hands && s.hands[a].phase.Wait?
    requires var job := s.hands[a].job;
             && Record(env, s, job.id, job, JustFailed) && HeldBack(env, s, job.id, job.retryCount)
             && job.retryCount < env.MaxRetries(job.jobType)
    ensures var job, s' := s.hands[a].job, Apply(env, s, Run(a, o));
            HeldBack(env, s', job.id, job.retryCount + 1)
  {
    hide WaitFits, DelayOf;
    var job := s.hands[a].job;
    StepWaits(env, s.w, s.hands[a], o);
    WaitFitsOneMore(ConfigFor(env, job), s.w.Waited(job.id), job.retryCount, o.draw);
  }

  lemma WaitsKeptByRun(env: Env, s: System, loc: Locations, a: Actor, o: Oracle)
    requires Placed(s, loc) && Alive(env, s, loc) && WaitsFit(env, s) && Enabled(s, Run(a, o))
    ensures WaitsFit(env, Apply(env, s, Run(a, o)))
  {
    hide HeldBack, HandStep, Placed, Alive, StageOf;
    var s' := Apply(env, s, Run(a, o));
    WaitedKeysKept(env, s, loc, a, o);
    forall id | id in s'.submitted
      ensures HeldBack(env, s', id, s'.submitted[id].retryCount + s'.w.Fails(id) + 1)
    {
      WaitsKeptForJob(env, s, loc, a, o, id);
    }
    forall b | b in s'.hands && StageOf(s'.hands[b].phase).JustFailed?
      ensures HeldBack(env, s', s'.hands[b].job.id, s'.hands[b].job.retryCount)
    {
      WaitsKeptForHand(env, s, loc, a, o, b);
    }
  }

  lemma WaitedKeysKept(env: Env, s: System, loc: Locations, a: Actor, o: Oracle)
    requires Placed(s, loc) && Alive(env, s, loc) && WaitsFit(env, s) && Enabled(s, Run(a, o))
    ensures Apply(env, s, Run(a, o)).w.waited.Keys <= s.submitted.Keys
  {
    hide HandStep, HeldBack, Placed, Alive;
    StepWaits(env, s.w, s.hands[a], o);
    if s.hands[a].phase.Wait? {
      OwnRecord(env, s, loc, a);
    }
  }

  lemma WaitsKeptForJob(env: Env, s: System, loc: Locations, a: Actor, o: Oracle, id: Id)
    requires Placed(s, loc) && Alive(env, s, loc) && WaitsFit(env, s) && Enabled(s, Run(a, o)) && id in s.submitted
    ensures var s' := Apply(env, s, Run(a, o)); HeldBack(env, s', id, s'.submitted[id].retryCount + s'.w.Fails(id) + 1)
  {
    hide WaitFits, DelayOf, HandStep, Placed, Alive;
    var h, s' := s.hands[a], Apply(env, s, Run(a, o));
    var before := s.submitted[id].retryCount + s.w.Fails(id) + 1;
    assert HeldBack(env, s, id, before);
    StepWaits(env, s.w, h, o);
    if id == h.job.id && h.phase.Wait? {
      OwnRecord(env, s, loc, a);
      if h.job.retryCount < env.MaxRetries(h.job.jobType) {
        WaitCounts(env, s, a, o);
      }
    } else {
      HeldBackLater(env, s', id, before);
    }
  }

  lemma WaitsKeptForHand(env: Env, s: System, loc: Locations, a: Actor, o: Oracle, b: Actor)
    requires Placed(s, loc) && Alive(env, s, loc) && WaitsFit(env, s) && Enabled(s, Run(a, o))
    requires var s' := Apply(env, s, Run(a, o)); b in s'.hands && StageOf(s'.hands[b].phase).JustFailed?
    ensures var s' := Apply(env, s, Run(a, o)); HeldBack(env, s', s'.hands[b].job.id, s'.hands[b].job.retryCount)
  {
    if b == a {
      WaitsKeptForOwnHand(env, s, loc, a, o);
    } else {
      WaitsKeptForOtherHand(env, s, loc, a, o, b);
    }
  }

  lemma WaitsKeptForOwnHand(env: Env, s: System, loc: Locations, a: Actor, o: Oracle)
    requires Placed(s, loc) && Alive(env, s, loc) && WaitsFit(env, s) && Enabled(s, Run(a, o))
    requires var s' := Apply(env, s, Run(a, o)); a in s'.hands && StageOf(s'.hands[a].phase).JustFailed?
    ensures var s' := Apply(env, s, Run(a, o)); HeldBack(env, s', s'.hands[a].job.id, s'.hands[a].job.retryCount)
  {
    hide WaitFits, DelayOf, HandStep, Placed, Alive;
    var (w', next) := HandStep(env, s.w, s.hands[a], o);
    assert Apply(env, s, Run(a, o)) == WithHand(s, a, w', next);
    StepWaits(env, s.w, s.hands[a], o);
    StepFails(env, s.w, s.hands[a], o);
    OwnRecord(env, s, loc, a);
    var job := s.hands[a].job;
    assert HeldBack(env, s, job.id, s.submitted[job.id].retryCount + s.w.Fails(job.id) + 1);
  }

  lemma WaitsKeptForOtherHand(env: Env, s: System, loc: Locations, a: Actor, o: Oracle, b: Actor)
    requires Placed(s, loc) && Alive(env, s, loc) && WaitsFit(env, s) && Enabled(s, Run(a, o)) && b != a
    requires var s' := Apply(env, s, Run(a, o)); b in s'.hands && StageOf(s'.hands[b].phase).JustFailed?
    ensures var s' := Apply(env, s, Run(a, o)); HeldBack(env, s', s'.hands[b].job.id, s'.hands[b].job.retryCount)
  {
    hide WaitFits, DelayOf, HandStep, Placed, Alive;
    StepWaits(env, s.w, s.hands[a], o);
    OwnRecord(env, s, loc, b);
  }

  // ---- the other actions ----

  lemma WaitsKeptElsewhere(env: Env, s: System, act: Action)
    requires Shape(s) && WaitsFit(env, s) && Enabled(s, act) && !act.Run?
    ensures WaitsFit(env, Apply(env, s, act))
  {
    hide HandStep, Shape, StageOf, WaitFits, Apply;
    var s' := Apply(env, s, act);
    HistoryStays(env, s, act);
    forall id | id in s'.submitted
      ensures HeldBack(env, s', id, s'.submitted[id].retryCount + s'.w.Fails(id) + 1)
    {
      if id in s.submitted {
        assert HeldBack(env, s, id, s.submitted[id].retryCount + s.w.Fails(id) + 1);
      } else {
        var cfg := ConfigFor(env, s'.submitted[id]);
        NoWaitFits(cfg, Horizon(cfg, s'.submitted[id].retryCount + s'.w.Fails(id) + 1));
      }
    }
    forall b | b in s'.hands && StageOf(s'.hands[b].phase).JustFailed?
      ensures HeldBack(env, s', s'.hands[b].job.id, s'.hands[b].job.retryCount)
    {
      FailedHandsStay(env, s, act, b);
    }
  }

  lemma HistoryStays(env: Env, s: System, act: Action)
    requires Enabled(s, act) && !act.Run?
    ensures var s' := Apply(env, s, act);
            && s'.w.waited == s.w.waited && s'.w.fails == s.w.fails
            && forall id :: id in s.submitted ==> id in s'.submitted && s'.submitted[id] == s.submitted[id]
  {
  }

  lemma FailedHandsStay(env: Env, s: System, act: Action, b: Actor)
    requires Shape(s) && Enabled(s, act) && !act.Run?
    requires b in Apply(env, s, act).hands && StageOf(Apply(env, s, act).hands[b].phase).JustFailed?
    ensures b in s.hands && s.hands[b] == Apply(env, s, act).hands[b]
  {
  }

  // ---- over runs ----

  lemma {:induction false} WaitsAlways(env: Env, s0: System, acts: seq<Action>)
    requires Init(s0) && Possible(env, s0, acts)
    ensures WaitsFit(env, After(env, s0, acts))
    decreases |acts|
  {
    if acts != [] {
      var init, act := acts[..|acts| - 1], acts[|acts| - 1];
      WaitsAlways(env, s0, init);
      var loc := InvAlways(env, s0, init);
      if act.Run? {
        WaitsKeptByRun(env, After(env, s0, init), loc, act.actor, act.oracle);
      } else {
        WaitsKeptElsewhere(env, After(env, s0, init), act);
      }
    }
  }

  lemma WaitsReached(env: Env, s: System)
    requires Reached(env, s)
    ensures WaitsFit(env, s)
  {
    hide WaitsFit;
    var s0, acts :| Init(s0) && Possible(env, s0, acts) && After(env, s0, acts) == s;
    WaitsAlways(env, s0, acts);
  }

  /** In every state of every run, all the retry delays a job has sat through add up to at most MaxDelay
      for each attempt but the last, and to at most BaseDelay*(m^MaxRetries - m)/(m-1), whatever its retry
      count when it was handed in and however the jitter falls. */
  lemma WaitsAreBounded(env: Env, s: System, id: Id)
    requires Reached(env, s) && id in s.submitted && Sensible(ConfigFor(env, s.submitted[id]))
    ensures WaitBounded(ConfigFor(env, s.submitted[id]), s.w.Waited(id))
  {
    hide Reached, WaitsFit, WaitFits, WaitBounded, Sensible;
    WaitsReached(env, s);
    TotalFits(env, s, id);
    LifetimeWait(ConfigFor(env, s.submitted[id]), s.w.Waited(id));
  }

  lemma TotalFits(env: Env, s: System, id: Id)
    requires WaitsFit(env, s) && id in s.submitted
    ensures WaitFits(ConfigFor(env, s.submitted[id]), s.w.Waited(id), ConfigFor(env, s.submitted[id]).maxRetries)
  {
    hide WaitFits;
    var cfg, n := ConfigFor(env, s.submitted[id]), s.submitted[id].retryCount + s.w.Fails(id) + 1;
    assert HeldBack(env, s, id, n);
    WaitFitsLater(cfg, s.w.Waited(id), Horizon(cfg, n), cfg.maxRetries);
  }
}
