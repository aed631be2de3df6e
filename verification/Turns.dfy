/** The loops inside the step machine: what a worker's turn, the fetcher loop and the delayed-job poller do
    when nobody interferes is what runs of the whole system do, from any state a run leads to. What is
    proved of the classes therefore happens in runs. */
module Turns {
  import opened Graphs
  import opened Jobs
  import opened Broker
  import opened Hands
  import opened Protocol
  import opened BackPressure
  import opened Invariant
  import opened Channels
  import Schedulers
  import WorkerPools

  lemma {:induction false} RunsCompose(env: Env, s: System, first: seq<Action>, rest: seq<Action>)
    requires Possible(env, s, first) && Possible(env, After(env, s, first), rest)
    ensures Possible(env, s, first + rest)
    ensures After(env, s, first + rest) == After(env, After(env, s, first), rest)
    decreases |rest|
  {
    hide Apply, Enabled;
    if rest == [] {
      assert first + rest == first;
    } else {
      var init, last := rest[..|rest| - 1], rest[|rest| - 1];
      RunsCompose(env, s, first, init);
      Extend(env, s, first + init, last);
      assert first + rest == first + init + [last];
    }
  }

  lemma OneAction(env: Env, s: System, act: Action)
    requires Enabled(s, act)
    ensures Possible(env, s, [act]) && After(env, s, [act]) == Apply(env, s, act)
  {
    hide Apply, Enabled;
    Extend(env, s, [], act);
    assert [] + [act] == [act];
  }

  /** A hand that alone goes on to its end does what RunAlone says. */
  lemma {:induction false} AloneIsARun(env: Env, s: System, a: Actor, oracle: nat -> Oracle, k: nat) returns (acts: seq<Action>)
    requires a in s.hands && !s.hands[a].phase.Buffered?
    ensures Possible(env, s, acts)
    ensures After(env, s, acts) == s.(w := RunAlone(env, s.w, s.hands[a], oracle, k), hands := s.hands - {a})
    decreases StepsLeft(s.hands[a].phase)
  {
    hide HandStep, Possible, After;
    var act := Run(a, oracle(k));
    StepAdvances(env, s.w, s.hands[a], oracle(k));
    OneAction(env, s, act);
    acts := [act];
    var s1 := Apply(env, s, act);
    var (w, next) := HandStep(env, s.w, s.hands[a], oracle(k));
    if next.Some? {
      assert s1.hands[a] == next.value;
      var rest := AloneIsARun(env, s1, a, oracle, k + 1);
      RunsCompose(env, s, acts, rest);
      acts := acts + rest;
      assert s1.hands - {a} == s.hands - {a};
    }
  }

  // ---- the worker ----

  /** From any state a run leads to: a worker that is free can take the first job of its pool's channel and
      process it to the end, and the result is that of one call of Process. */
  lemma WorkerTurnIsARun(env: Env, s: System, p: nat, n: nat, oracle: nat -> Oracle) returns (acts: seq<Action>)
    requires Reached(env, s) && p in s.pools && n in s.pools[p].tracked && Worker(p, n) !in s.hands
    requires OnChannel(s, p) != []
    ensures Possible(env, s, acts)
    ensures var s' := After(env, s, acts);
            && s'.w == RunAlone(env, s.w, Hand(OnChannel(s, p)[0], Gate), oracle, 0)
            && p in s'.pools && OnChannel(s', p) == OnChannel(s, p)[1..] && Worker(p, n) !in s'.hands
  {
    hide RunAlone, Possible, After, Reached;
    var loc := InvReached(env, s);
    ChannelFits(env, s, p);
    var act, a := Receive(p, n), Worker(p, n);
    ReceiveTakesFirst(env, s, p, n);
    OneAction(env, s, act);
    var s1 := Apply(env, s, act);
    var rest := AloneIsARun(env, s1, a, oracle, 0);
    RunsCompose(env, s, [act], rest);
    acts := [act] + rest;
    SameChannel(s1, After(env, s, acts), p);
  }

  lemma SameChannel(s: System, s': System, p: nat)
    requires s'.pools == s.pools && p in s.pools
    requires forall k: nat :: Slot(p, k) in s.hands <==> Slot(p, k) in s'.hands
    requires forall k: nat :: Slot(p, k) in s.hands ==> s'.hands[Slot(p, k)] == s.hands[Slot(p, k)]
    ensures OnChannel(s', p) == OnChannel(s, p)
  {
    SlotsAlike(s, s', p, s.pools[p].head, s.pools[p].tail);
  }

  // ---- the fetcher ----

  /** The pool and the server as the fetcher loop sees them. */
  ghost predicate Shows(s: System, p: nat, st: WorkerPools.Fetching) {
    && p in s.pools && Fetcher(p) !in s.hands
    && s.w.redis == st.r && OnChannel(s, p) == st.ch
  }

  lemma DeliveryIsARun(env: Env, s: System, p: nat, job: Job) returns (acts: seq<Action>)
    requires Reached(env, s) && p in s.pools && Fetcher(p) !in s.hands && Claimed(env.rank, s.w.redis) == Some(job)
    requires |OnChannel(s, p)| < s.pools[p].capacity
    ensures Possible(env, s, acts)
    ensures var s' := After(env, s, acts);
            && p in s'.pools && s'.pools[p].capacity == s.pools[p].capacity && Fetcher(p) !in s'.hands
            && s'.w.redis == AfterClaim(env.rank, s.w.redis) && OnChannel(s', p) == OnChannel(s, p) + [job]
  {
    hide AfterClaim, Claimed, Possible, After, Reached, OnChannel;
    var loc := InvReached(env, s);
    ChannelFits(env, s, p);
    OneAction(env, s, Claim(p));
    var s1 := Apply(env, s, Claim(p));
    SameChannel(s, s1, p);
    ShapeKept(env, s, Claim(p));
    OneAction(env, s1, Dispatch(p));
    DispatchKeepsWay(env, s1, p);
    RunsCompose(env, s, [Claim(p)], [Dispatch(p)]);
    acts := [Claim(p)] + [Dispatch(p)];
  }

  lemma HandBackIsARun(env: Env, s: System, p: nat, job: Job, ms: int) returns (acts: seq<Action>)
    requires p in s.pools && Fetcher(p) !in s.hands && Claimed(env.rank, s.w.redis) == Some(job)
    ensures Possible(env, s, acts)
    ensures var s' := After(env, s, acts);
            && s'.pools == s.pools && s'.hands == s.hands
            && s'.w.redis == WorkerPools.Returned(AfterClaim(env.rank, s.w.redis), job, ms)
  {
    hide AfterClaim, Claimed, Possible, After, RunAlone;
    var oracle := (k: nat) => Oracle(0, ms, 0, 0.0, true, false, true, "");
    OneAction(env, s, Claim(p));
    var s1 := Apply(env, s, Claim(p));
    var rest := AloneIsARun(env, s1, Fetcher(p), oracle, 0);
    WorkerPools.HandBackAlone(env, s1.w, job, oracle);
    RunsCompose(env, s, [Claim(p)], rest);
    acts := [Claim(p)] + rest;
    assert s1.hands - {Fetcher(p)} == s.hands;
  }

  lemma FetchIsARun(env: Env, s: System, p: nat, st: WorkerPools.Fetching, poll: WorkerPools.Poll) returns (acts: seq<Action>)
    requires Reached(env, s) && Shows(s, p, st)
    ensures Possible(env, s, acts)
    ensures var s' := After(env, s, acts);
            && Shows(s', p, WorkerPools.PollOnce(env.rank, st, s.pools[p].capacity, poll))
            && s'.pools[p].capacity == s.pools[p].capacity
  {
    hide AfterClaim, Claimed, Reached, OnChannel, WorkerPools.Returned;
    acts := [];
    if st.running && !poll.fails {
      match Claimed(env.rank, s.w.redis)
      case None =>
        OneAction(env, s, Claim(p));
        SameChannel(s, Apply(env, s, Claim(p)), p);
        acts := [Claim(p)];
      case Some(job) =>
        if poll.done || |st.ch| >= s.pools[p].capacity {
          acts := HandBackIsARun(env, s, p, job, poll.ms);
          SameChannel(s, After(env, s, acts), p);
        } else {
          acts := DeliveryIsARun(env, s, p, job);
        }
    }
  }

  /** The fetcher loop, over any rounds: a run of its pool's fetcher alone leaves server and channel as the
      loop does. */
  lemma {:induction false} FetcherIsARun(env: Env, s: System, p: nat, polls: seq<WorkerPools.Poll>) returns (acts: seq<Action>)
    requires Reached(env, s) && p in s.pools && Fetcher(p) !in s.hands
    ensures Possible(env, s, acts)
    ensures var s' := After(env, s, acts);
            var st := WorkerPools.Fetching(s.w.redis, OnChannel(s, p), 0, true);
            && Shows(s', p, WorkerPools.AfterPolls(env.rank, st, s.pools[p].capacity, polls))
            && s'.pools[p].capacity == s.pools[p].capacity
    decreases |polls|
  {
    hide Reached, OnChannel, WorkerPools.PollOnce;
    acts := [];
    if polls != [] {
      var init, last := polls[..|polls| - 1], polls[|polls| - 1];
      acts := FetcherIsARun(env, s, p, init);
      var st := WorkerPools.AfterPolls(env.rank, WorkerPools.Fetching(s.w.redis, OnChannel(s, p), 0, true), s.pools[p].capacity, init);
      ReachedAfter(env, s, acts);
      var rest := FetchIsARun(env, After(env, s, acts), p, st, last);
      RunsCompose(env, s, acts, rest);
      acts := acts + rest;
    }
  }

  // ---- the poller ----

  /** The poller's ticks, the failing ones left out, are drains of a run. */
  lemma {:induction false} PollerIsARun(env: Env, s: System, ticks: seq<Schedulers.Tick>, limit: int) returns (acts: seq<Action>)
    ensures Possible(env, s, acts) && |acts| == Schedulers.Drains(ticks)
    ensures After(env, s, acts) == WithRedis(s, Schedulers.AfterTicks(env.rank, s.w.redis, ticks, limit))
    decreases |ticks|
  {
    hide AfterDrain;
    acts := [];
    if ticks != [] {
      var init, last := ticks[..|ticks| - 1], ticks[|ticks| - 1];
      acts := PollerIsARun(env, s, init, limit);
      if !last.fails {
        Extend(env, s, acts, Drain(last.cutoff, last.ms, limit));
        acts := acts + [Drain(last.cutoff, last.ms, limit)];
      }
    }
  }
}
