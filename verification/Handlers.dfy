/** What handlers return decides what becomes of a job, over whole runs: an acked job's last handler call
    returned without an error, a dead job's did not, and every failing call is counted. */
module Handlers {
  import opened Graphs
  import opened Jobs
  import opened Broker
  import opened Hands
  import opened Protocol
  import opened Placement
  import opened Invariant

  /** The action is the call of the job's handler. */
  ghost predicate Calls(s: System, act: Action, id: Id) {
    act.Run? && act.actor in s.hands && s.hands[act.actor].phase.Handler? && s.hands[act.actor].job.id == id
  }

  /** There is a handler for the job's type and it returns without an error. */
  ghost predicate ReturnsOk(env: Env, s: System, act: Action)
    requires act.Run? && act.actor in s.hands
  {
    act.oracle.ok && s.hands[act.actor].job.jobType in env.handlers
  }

  /** How the latest call for a job in a run ended. */
  ghost function LastOutcome(env: Env, s0: System, acts: seq<Action>, id: Id): Option<bool>
    requires Possible(env, s0, acts)
    decreases |acts|
  {
    if acts == [] then None
    else
      var init, last := acts[..|acts| - 1], acts[|acts| - 1];
      var s := After(env, s0, init);
      if Calls(s, last, id) then Some(ReturnsOk(env, s, last)) else LastOutcome(env, s0, init, id)
  }

  /** How many calls for a job have failed. */
  ghost function FailedCalls(env: Env, s0: System, acts: seq<Action>, id: Id): nat
    requires Possible(env, s0, acts)
    decreases |acts|
  {
    if acts == [] then 0
    else
      var init, last := acts[..|acts| - 1], acts[|acts| - 1];
      var s := After(env, s0, init);
      FailedCalls(env, s0, init, id) + if Calls(s, last, id) && !ReturnsOk(env, s, last) then 1 else 0
  }

  /** One call: a handler that fails, or does not exist, adds one to the failures of this job and leads to
      the release after a failure; one that returns leads to completion and counts nothing. */
  lemma CallDecides(env: Env, s: System, act: Action, id: Id)
    requires Enabled(s, act) && Calls(s, act, id)
    ensures var s', h, a := Apply(env, s, act), s.hands[act.actor], act.actor;
            && a in s'.hands && SameJob(s'.hands[a].job, h.job)
            && (forall x :: x != id ==> s'.w.Fails(x) == s.w.Fails(x))
            && if act.oracle.ok && h.job.jobType in env.handlers then
                 s'.hands[a].phase == Complete && s'.hands[a].job.retryCount == h.job.retryCount && s'.w.Fails(id) == s.w.Fails(id)
               else
                 s'.hands[a].phase == Hdel(Failure) && s'.hands[a].job.retryCount == h.job.retryCount + 1
                 && s'.hands[a].job.errorMessage == act.oracle.message && s'.w.Fails(id) == s.w.Fails(id) + 1
  {
  }

  lemma OnlyCallsCount(env: Env, s: System, act: Action, id: Id)
    requires Enabled(s, act) && !Calls(s, act, id)
    ensures Apply(env, s, act).w.Fails(id) == s.w.Fails(id)
  {
  }

  /** The failures that retries are decided by are the calls that failed. */
  lemma {:induction false} FailuresAreFailedCalls(env: Env, s0: System, acts: seq<Action>, id: Id)
    requires Init(s0) && Possible(env, s0, acts)
    ensures After(env, s0, acts).w.Fails(id) == FailedCalls(env, s0, acts, id)
    decreases |acts|
  {
    hide Apply, Enabled, Calls;
    if acts != [] {
      var init, last := acts[..|acts| - 1], acts[|acts| - 1];
      var s := After(env, s0, init);
      FailuresAreFailedCalls(env, s0, init, id);
      if Calls(s, last, id) {
        CallDecides(env, s, last, id);
      } else {
        OnlyCallsCount(env, s, last, id);
      }
    }
  }

  // ---- outcome and phase ----

  /** What the latest call must have returned for a job to be in a phase. */
  function OutcomeOf(phase: Phase): Option<bool> {
    match phase
    case Complete => Some(true)
    case AckPush => Some(true)
    case Hdel(cause) => OutcomeOfCause(cause)
    case Unlock(cause) => OutcomeOfCause(cause)
    case Wait => Some(false)
    case Retrying => Some(false)
    case Requeue => Some(false)
    case Dying => Some(false)
    case DlqAdd => Some(false)
    case _ => None
  }

  function OutcomeOfCause(cause: Cause): Option<bool> {
    match cause
    case Success => Some(true)
    case Failure => Some(false)
    case GiveUp => Some(false)
    case _ => None
  }

  ghost predicate OutcomesFit(s: System, last: Id -> Option<bool>) {
    && (forall a :: a in s.hands && OutcomeOf(s.hands[a].phase).Some? ==>
          last(s.hands[a].job.id) == OutcomeOf(s.hands[a].phase))
    && (forall job :: job in s.w.acked ==> last(job.id) == Some(true))
    && (forall job :: job in s.w.redis.dlq ==> last(job.id) == Some(false))
  }

  lemma StepOutcome(env: Env, w: World, h: Hand, o: Oracle)
    requires !h.phase.Buffered?
    ensures var next := HandStep(env, w, h, o).1;
            next.Some? && OutcomeOf(next.value.phase).Some? ==>
              && next.value.job.id == h.job.id
              && OutcomeOf(next.value.phase) == if h.phase.Handler? then Some(o.ok && h.job.jobType in env.handlers) else OutcomeOf(h.phase)
  {
    hide UpdateRow, Enqueue, EnqueueDelayed, AddDead, HDel, Del, LPush, LTrim;
  }

  /** Where a step adds to the histories it adds its own job, in a phase with the right outcome. */
  lemma StepEnds(env: Env, w: World, h: Hand, o: Oracle)
    requires !h.phase.Buffered?
    ensures var w' := HandStep(env, w, h, o).0;
            && (w'.acked == w.acked || (h.phase.AckPush? && w'.acked == w.acked + [h.job]))
            && (w'.redis.dlq == w.redis.dlq || (h.phase.DlqAdd? && w'.redis.dlq.Keys == w.redis.dlq.Keys + {h.job}))
  {
    hide HandStep;
    StepAcked(env, w, h, o);
    StepRedis(env, w, h, o);
  }

  lemma StepAcked(env: Env, w: World, h: Hand, o: Oracle)
    requires !h.phase.Buffered?
    ensures var w' := HandStep(env, w, h, o).0; w'.acked == w.acked || (h.phase.AckPush? && w'.acked == w.acked + [h.job])
  {
    hide UpdateRow, Enqueue, EnqueueDelayed, AddDead, HDel, Del, LPush, LTrim;
  }

  /** A job that is being called is not in another hand, not acked and not dead. */
  lemma CalledIsNowhereElse(s: System, loc: Locations, act: Action, id: Id)
    requires Placed(s, loc) && Calls(s, act, id)
    ensures forall b :: b in s.hands && b != act.actor && Owns(s.hands[b].phase) ==> s.hands[b].job.id != id
    ensures forall job :: job in s.w.acked || job in s.w.redis.dlq ==> job.id != id
  {
    assert At(s, InHand(act.actor), id);
    forall b | b in s.hands && b != act.actor && Owns(s.hands[b].phase)
      ensures s.hands[b].job.id != id
    {
      assert At(s, InHand(b), s.hands[b].job.id);
    }
    forall job | job in s.w.acked
      ensures job.id != id
    {
      var k :| 0 <= k < |s.w.acked| && s.w.acked[k] == job;
      assert At(s, Acked(k), job.id);
    }
    forall job | job in s.w.redis.dlq
      ensures job.id != id
    {
      assert At(s, InDlq(job), job.id);
    }
  }

  ghost predicate Updates(env: Env, s: System, act: Action, last: Id -> Option<bool>, last': Id -> Option<bool>) {
    forall id :: last'(id) == if Calls(s, act, id) then Some(ReturnsOk(env, s, act)) else last(id)
  }

  /** A hand has moved on, and what is known of the others' last calls is what was known before. */
  lemma OutcomesFitWithHand(s: System, a: Actor, w: World, next: Option<Hand>, last: Id -> Option<bool>, last': Id -> Option<bool>)
    requires a in s.hands && OutcomesFit(s, last)
    requires next.Some? && OutcomeOf(next.value.phase).Some? ==> last'(next.value.job.id) == OutcomeOf(next.value.phase)
    requires forall b :: b in s.hands && b != a && OutcomeOf(s.hands[b].phase).Some? ==> last'(s.hands[b].job.id) == last(s.hands[b].job.id)
    requires forall job :: job in s.w.acked || job in s.w.redis.dlq ==> last'(job.id) == last(job.id)
    requires w.acked == s.w.acked || (w.acked == s.w.acked + [s.hands[a].job] && last'(s.hands[a].job.id) == Some(true))
    requires w.redis.dlq == s.w.redis.dlq
             || (w.redis.dlq.Keys == s.w.redis.dlq.Keys + {s.hands[a].job} && last'(s.hands[a].job.id) == Some(false))
    ensures OutcomesFit(WithHand(s, a, w, next), last')
  {
    hide OutcomeOf;
  }

  lemma OutcomesFitAfterRun(env: Env, s: System, loc: Locations, act: Action, last: Id -> Option<bool>, last': Id -> Option<bool>)
    requires Placed(s, loc) && Enabled(s, act) && act.Run?
    requires OutcomesFit(s, last) && Updates(env, s, act, last, last')
    ensures OutcomesFit(Apply(env, s, act), last')
  {
    hide HandStep, Placed;
    var h := s.hands[act.actor];
    var (w, next) := HandStep(env, s.w, h, act.oracle);
    StepOutcome(env, s.w, h, act.oracle);
    StepEnds(env, s.w, h, act.oracle);
    if h.phase.Handler? {
      CalledIsNowhereElse(s, loc, act, h.job.id);
    }
    OutcomesFitWithHand(s, act.actor, w, next, last, last');
  }

  lemma OutcomesFitElsewhere(env: Env, s: System, act: Action, last: Id -> Option<bool>, last': Id -> Option<bool>)
    requires Enabled(s, act) && !act.Run?
    requires OutcomesFit(s, last) && Updates(env, s, act, last, last')
    ensures OutcomesFit(Apply(env, s, act), last')
  {
    hide Apply, Enabled, OutcomeOf;
    NothingEndsElsewhere(env, s, act);
  }

  lemma NothingEndsElsewhere(env: Env, s: System, act: Action)
    requires Enabled(s, act) && !act.Run?
    ensures var s' := Apply(env, s, act);
            && s'.w.acked == s.w.acked && s'.w.redis.dlq == s.w.redis.dlq
            && forall a :: a in s'.hands && OutcomeOf(s'.hands[a].phase).Some? ==> a in s.hands && s'.hands[a] == s.hands[a]
  {
    hide MaySubmit, LaneAfterClaim, SetAside, LaneAfterDrain, Promoted, OutcomeOfCause;
  }

  lemma {:induction false} OutcomesAlways(env: Env, s0: System, acts: seq<Action>)
    requires Init(s0) && Possible(env, s0, acts)
    ensures OutcomesFit(After(env, s0, acts), id => LastOutcome(env, s0, acts, id))
    decreases |acts|
  {
    hide Apply, Enabled, Placed;
    if acts != [] {
      var init, last := acts[..|acts| - 1], acts[|acts| - 1];
      var s := After(env, s0, init);
      OutcomesAlways(env, s0, init);
      var before, now := (id: Id) => LastOutcome(env, s0, init, id), (id: Id) => LastOutcome(env, s0, acts, id);
      if last.Run? {
        var loc := InvAlways(env, s0, init);
        OutcomesFitAfterRun(env, s, loc, last, before, now);
      } else {
        OutcomesFitElsewhere(env, s, last, before, now);
      }
    }
  }

  /** In any run: whoever is acked has returned from the last call of its handler without an error, and
      whoever is dead has not. */
  lemma OutcomeDecides(env: Env, s0: System, acts: seq<Action>, job: Job)
    requires Init(s0) && Possible(env, s0, acts)
    ensures var s := After(env, s0, acts);
            && (job in s.w.acked ==> LastOutcome(env, s0, acts, job.id) == Some(true))
            && (job in s.w.redis.dlq ==> LastOutcome(env, s0, acts, job.id) == Some(false))
  {
    OutcomesAlways(env, s0, acts);
  }
}
