/** The list of completed jobs under interleaved acks. */
module DoneList {
  import opened Graphs
  import opened Jobs
  import opened Broker
  import opened Hands
  import opened Protocol
  import opened BackPressure
  import opened Invariant

  /** The list shows the latest acks, newest first. */
  ghost predicate NewestFirst(done: seq<Job>, acked: seq<Job>) {
    && |done| <= |acked|
    && forall i :: 0 <= i < |done| ==> done[i] == acked[|acked| - 1 - i]
  }

  /** The hands between their LPUSH and their LTRIM. */
  ghost function Trimmers(s: System): set<Actor> {
    set a | a in s.hands && s.hands[a].phase.AckTrim?
  }

  ghost predicate DoneFits(s: System) {
    && NewestFirst(s.w.redis.done, s.w.acked)
    && |s.w.redis.done| <= DONE_LIST_CAP + 1 + |Trimmers(s)|
    && (|s.w.redis.done| == |s.w.acked| || |s.w.redis.done| > DONE_LIST_CAP)
  }

  lemma StepDone(env: Env, w: World, h: Hand, o: Oracle)
    requires !h.phase.Buffered?
    ensures var (w', next) := HandStep(env, w, h, o);
            && (h.phase.AckPush? ==> w'.redis.done == [h.job] + w.redis.done && w'.acked == w.acked + [h.job])
            && (!h.phase.AckPush? ==> w'.acked == w.acked)
            && (h.phase.AckTrim? ==> w'.redis.done == LTrim(w.redis).done)
            && (!h.phase.AckPush? && !h.phase.AckTrim? ==> w'.redis.done == w.redis.done)
            && (next.Some? && next.value.phase.AckTrim? <==> h.phase.AckPush?)
  {
  }

  lemma DoneKeptByRun(env: Env, s: System, a: Actor, o: Oracle)
    requires DoneFits(s) && Enabled(s, Run(a, o))
    ensures DoneFits(Apply(env, s, Run(a, o)))
  {
    StepDone(env, s.w, s.hands[a], o);
    var (w', next) := HandStep(env, s.w, s.hands[a], o);
    var h := s.hands[a];
    TrimmersAfterStep(s, a, w', next);
    if h.phase.AckPush? {
      PushKeepsOrder(s.w.redis.done, s.w.acked, h.job);
    }
  }

  lemma PushKeepsOrder(done: seq<Job>, acked: seq<Job>, job: Job)
    requires NewestFirst(done, acked)
    ensures NewestFirst([job] + done, acked + [job])
  {
  }

  lemma TrimmersAfterStep(s: System, a: Actor, w: World, next: Option<Hand>)
    requires a in s.hands
    ensures var after := |Trimmers(WithHand(s, a, w, next))|;
            var gains, loses := next.Some? && next.value.phase.AckTrim?, s.hands[a].phase.AckTrim?;
            && (gains == loses ==> after == |Trimmers(s)|)
            && (gains && !loses ==> after == |Trimmers(s)| + 1)
  {
    var s' := WithHand(s, a, w, next);
    if next.Some? && next.value.phase.AckTrim? {
      assert Trimmers(s') == Trimmers(s) + {a};
    } else {
      assert Trimmers(s') == Trimmers(s) - {a};
    }
  }

  lemma TrimmersStay(env: Env, s: System, act: Action)
    requires Shape(s) && Enabled(s, act) && !act.Run?
    ensures Trimmers(Apply(env, s, act)) == Trimmers(s)
  {
    var s' := Apply(env, s, act);
    forall a
      ensures a in Trimmers(s') <==> a in Trimmers(s)
    {
    }
  }

  lemma DoneKept(env: Env, s: System, act: Action)
    requires Shape(s) && DoneFits(s) && Enabled(s, act)
    ensures DoneFits(Apply(env, s, act))
  {
    if act.Run? {
      DoneKeptByRun(env, s, act.actor, act.oracle);
    } else {
      TrimmersStay(env, s, act);
    }
  }

  /** Under any interleaving of acks the list is the newest part of the history, newest first: all of it
      up to ten thousand entries, then at least ten thousand and at most one more for every ack that has
      yet to trim. */
  lemma {:induction false} DoneListIsRecent(env: Env, s0: System, acts: seq<Action>)
    requires Init(s0) && Possible(env, s0, acts)
    ensures var s := After(env, s0, acts);
            && NewestFirst(s.w.redis.done, s.w.acked)
            && |s.w.redis.done| <= 10_000 + |Trimmers(s)|
            && (|s.w.redis.done| == |s.w.acked| || |s.w.redis.done| >= 10_000)
    decreases |acts|
  {
    if acts != [] {
      var init := acts[..|acts| - 1];
      DoneListIsRecent(env, s0, init);
      var loc := InvAlways(env, s0, init);
      DoneKept(env, After(env, s0, init), acts[|acts| - 1]);
    }
  }
}
