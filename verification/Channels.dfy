/** The channel between a pool's fetcher and its workers, over whole runs: workers receive the pool's jobs
    in the order in which its fetcher has claimed them. */
module Channels {
  import opened Jobs
  import opened Broker
  import opened Hands
  import opened Protocol
  import opened BackPressure
  import opened Invariant

  /** The jobs the workers of a pool have received, in the order of their receipt. */
  ghost function ReceivedBy(env: Env, s0: System, acts: seq<Action>, p: nat): seq<Job>
    requires Possible(env, s0, acts)
    decreases |acts|
  {
    if acts == [] then []
    else
      var init, last := acts[..|acts| - 1], acts[|acts| - 1];
      ReceivedBy(env, s0, init, p)
      + if last.Receive? && last.pool == p then [After(env, s0, acts).hands[Worker(p, last.n)].job] else []
  }

  /** The jobs its fetcher has claimed and not handed back, in the order of the claims. */
  ghost function ClaimedBy(env: Env, s0: System, acts: seq<Action>, p: nat): seq<Job>
    requires Possible(env, s0, acts)
    decreases |acts|
  {
    if acts == [] then []
    else
      var init, last := acts[..|acts| - 1], acts[|acts| - 1];
      AfterFetcher(After(env, s0, init), After(env, s0, acts), last, p, ClaimedBy(env, s0, init, p))
  }

  /** The handing back is of the job claimed last: a fetcher claims nothing else meanwhile. */
  ghost function AfterFetcher(s: System, s': System, act: Action, p: nat, claims: seq<Job>): seq<Job> {
    if act == Claim(p) && Fetcher(p) in s'.hands then claims + [s'.hands[Fetcher(p)].job]
    else if act.Run? && act.actor == Fetcher(p) && Carried(s, p) != [] && claims != [] then claims[..|claims| - 1]
    else claims
  }

  /** What the fetcher has claimed and not yet delivered. */
  ghost function Carried(s: System, p: nat): seq<Job> {
    if Fetcher(p) in s.hands && s.hands[Fetcher(p)].phase.Fetched? then [s.hands[Fetcher(p)].job] else []
  }

  /** The jobs in the slots from `first` up to, not including, `end`. */
  ghost function InSlots(s: System, p: nat, first: nat, end: nat): seq<Job> {
    if end <= first then []
    else InSlots(s, p, first, end - 1) + if Slot(p, end - 1) in s.hands then [s.hands[Slot(p, end - 1)].job] else []
  }

  /** The channel's contents. */
  ghost function OnChannel(s: System, p: nat): seq<Job>
    requires p in s.pools
  {
    InSlots(s, p, s.pools[p].head, s.pools[p].tail)
  }

  lemma {:induction false} SlotsAlike(s: System, s': System, p: nat, first: nat, end: nat)
    requires forall k: nat :: first <= k < end ==> (Slot(p, k) in s'.hands <==> Slot(p, k) in s.hands)
    requires forall k: nat :: first <= k < end && Slot(p, k) in s.hands ==> s'.hands[Slot(p, k)].job == s.hands[Slot(p, k)].job
    ensures InSlots(s', p, first, end) == InSlots(s, p, first, end)
  {
    if first < end {
      SlotsAlike(s, s', p, first, end - 1);
    }
  }

  lemma {:induction false} FirstSlot(s: System, p: nat, first: nat, end: nat)
    requires first < end && Slot(p, first) in s.hands
    ensures InSlots(s, p, first, end) == [s.hands[Slot(p, first)].job] + InSlots(s, p, first + 1, end)
  {
    if first + 1 < end {
      FirstSlot(s, p, first, end - 1);
    } else {
      assert InSlots(s, p, first, first) == [];
    }
  }

  /** What is on its way from the claim to a worker. */
  ghost function UnderWay(s: System, p: nat): seq<Job>
    requires p in s.pools
  {
    OnChannel(s, p) + Carried(s, p)
  }

  lemma DispatchKeepsWay(env: Env, s: System, p: nat)
    requires Shape(s) && Enabled(s, Dispatch(p))
    ensures UnderWay(Apply(env, s, Dispatch(p)), p) == UnderWay(s, p)
  {
    var s' := Apply(env, s, Dispatch(p));
    SlotsAlike(s, s', p, s.pools[p].head, s.pools[p].tail);
  }

  lemma ReceiveTakesFirst(env: Env, s: System, p: nat, n: nat)
    requires Shape(s) && Enabled(s, Receive(p, n))
    ensures var s' := Apply(env, s, Receive(p, n));
            && Worker(p, n) in s'.hands && OnChannel(s, p) == [s'.hands[Worker(p, n)].job] + OnChannel(s', p)
            && Carried(s', p) == Carried(s, p)
  {
    var s', pool := Apply(env, s, Receive(p, n)), s.pools[p];
    assert HandFits(pool, Slot(p, pool.head), s.hands[Slot(p, pool.head)].phase);
    FirstSlot(s, p, pool.head, pool.tail);
    SlotsAlike(s, s', p, pool.head + 1, pool.tail);
  }

  lemma ClaimAddsLast(env: Env, s: System, p: nat)
    requires Shape(s) && Enabled(s, Claim(p))
    ensures var s' := Apply(env, s, Claim(p));
            UnderWay(s', p) == UnderWay(s, p) + if Fetcher(p) in s'.hands then [s'.hands[Fetcher(p)].job] else []
  {
    SlotsAlike(s, Apply(env, s, Claim(p)), p, s.pools[p].head, s.pools[p].tail);
  }

  lemma HandBackDropsLast(env: Env, s: System, p: nat, o: Oracle)
    requires Shape(s) && Enabled(s, Run(Fetcher(p), o)) && p in s.pools
    ensures UnderWay(Apply(env, s, Run(Fetcher(p), o)), p) == OnChannel(s, p)
  {
    StepKeepsRole(env, s.w, s.hands[Fetcher(p)], o);
    SlotsAlike(s, Apply(env, s, Run(Fetcher(p), o)), p, s.pools[p].head, s.pools[p].tail);
  }

  /** The actions of others do not concern the pool's channel. */
  lemma OthersKeepWay(env: Env, s: System, act: Action, p: nat)
    requires Shape(s) && Enabled(s, act) && p in s.pools
    requires act != Claim(p) && act != Dispatch(p) && !(act.Receive? && act.pool == p) && !(act.Run? && act.actor == Fetcher(p))
    ensures p in Apply(env, s, act).pools && UnderWay(Apply(env, s, act), p) == UnderWay(s, p)
  {
    hide HandStep, AfterClaim, AfterDrain, Enqueue, EnqueueDelayed, Injected, PoolFits;
    SlotsAlike(s, Apply(env, s, act), p, s.pools[p].head, s.pools[p].tail);
  }

  lemma PoolStays(env: Env, s: System, act: Action, p: nat)
    requires Enabled(s, act) && p in s.pools
    ensures p in Apply(env, s, act).pools
  {
  }

  /** One action: what has been received, and then what is under way, stays what has been claimed. */
  lemma WayKept(env: Env, s: System, act: Action, p: nat, received: seq<Job>, claims: seq<Job>)
    requires Shape(s) && Enabled(s, act) && p in s.pools
    requires received + UnderWay(s, p) == claims
    ensures var s' := Apply(env, s, act);
            && p in s'.pools
            && (act.Receive? && act.pool == p ==> Worker(p, act.n) in s'.hands)
            && received + (if act.Receive? && act.pool == p then [s'.hands[Worker(p, act.n)].job] else []) + UnderWay(s', p)
               == AfterFetcher(s, s', act, p, claims)
  {
    hide Apply, UnderWay, Shape;
    PoolStays(env, s, act, p);
    if act == Claim(p) {
      ClaimAddsLast(env, s, p);
    } else if act == Dispatch(p) {
      DispatchKeepsWay(env, s, p);
    } else if act.Receive? && act.pool == p {
      ReceiveTakesFirst(env, s, p, act.n);
      WayShrinks(s, Apply(env, s, act), p);
    } else if act.Run? && act.actor == Fetcher(p) {
      HandBackDropsLast(env, s, p, act.oracle);
      WayEndsWithCarried(s, p, received);
    } else {
      OthersKeepWay(env, s, act, p);
    }
  }

  lemma WayShrinks(s: System, s': System, p: nat)
    requires p in s.pools && p in s'.pools && Carried(s', p) == Carried(s, p)
    requires OnChannel(s, p) != [] && OnChannel(s, p) == [OnChannel(s, p)[0]] + OnChannel(s', p)
    ensures UnderWay(s, p) == [OnChannel(s, p)[0]] + UnderWay(s', p)
  {
  }

  lemma WayEndsWithCarried(s: System, p: nat, received: seq<Job>)
    requires p in s.pools
    ensures var claims := received + UnderWay(s, p);
            && (Carried(s, p) != [] ==> claims != [])
            && received + OnChannel(s, p) == if Carried(s, p) != [] then claims[..|claims| - 1] else claims
  {
  }

  lemma NothingUnderWay(s: System, p: nat)
    requires Init(s) && p in s.pools
    ensures OnChannel(s, p) == [] && Carried(s, p) == []
  {
  }

  /** First in, first out: in any run the jobs that a pool's workers have received, followed by those on its
      channel and the one its fetcher is delivering, are the jobs the pool has claimed and not handed
      back, in the order of the claims. */
  lemma {:induction false} ChannelIsFifo(env: Env, s0: System, acts: seq<Action>, p: nat)
    requires Init(s0) && Possible(env, s0, acts) && p in s0.pools
    ensures var s := After(env, s0, acts);
            && p in s.pools
            && ReceivedBy(env, s0, acts, p) + OnChannel(s, p) + Carried(s, p) == ClaimedBy(env, s0, acts, p)
    decreases |acts|
  {
    hide Apply, Enabled, OnChannel, Carried, AfterFetcher;
    if acts == [] {
      NothingUnderWay(s0, p);
    } else {
      var init, last := acts[..|acts| - 1], acts[|acts| - 1];
      var s := After(env, s0, init);
      ChannelIsFifo(env, s0, init, p);
      var loc := InvAlways(env, s0, init);
      WayKept(env, s, last, p, ReceivedBy(env, s0, init, p), ClaimedBy(env, s0, init, p));
    }
  }

  // ---- no empty slots ----

  /** Every slot in the channel's window holds a job. */
  ghost predicate SlotsFilled(s: System) {
    forall p, k: nat :: p in s.pools && s.pools[p].head <= k < s.pools[p].tail ==> Slot(p, k) in s.hands
  }

  lemma SlotsFilledKept(env: Env, s: System, act: Action)
    requires Shape(s) && SlotsFilled(s) && Enabled(s, act)
    ensures SlotsFilled(Apply(env, s, act))
  {
    hide HandStep, AfterClaim, Claimed, AfterDrain, Enqueue, EnqueueDelayed, Injected, MaySubmit, PoolFits;
  }

  lemma {:induction false} SlotsFilledAlways(env: Env, s0: System, acts: seq<Action>)
    requires Init(s0) && Possible(env, s0, acts)
    ensures SlotsFilled(After(env, s0, acts))
    decreases |acts|
  {
    hide Apply, Enabled;
    if acts != [] {
      var init := acts[..|acts| - 1];
      SlotsFilledAlways(env, s0, init);
      var loc := InvAlways(env, s0, init);
      SlotsFilledKept(env, After(env, s0, init), acts[|acts| - 1]);
    }
  }

  lemma {:induction false} FilledSlots(s: System, p: nat, first: nat, end: nat)
    requires first <= end && forall k: nat :: first <= k < end ==> Slot(p, k) in s.hands
    ensures |InSlots(s, p, first, end)| == end - first
  {
    if first < end {
      FilledSlots(s, p, first, end - 1);
    }
  }

  /** The channel holds as many jobs as its window has slots, and never more than its capacity. */
  lemma ChannelFits(env: Env, s: System, p: nat)
    requires Reached(env, s) && p in s.pools
    ensures SlotsFilled(s)
    ensures |OnChannel(s, p)| == s.pools[p].tail - s.pools[p].head <= s.pools[p].capacity
  {
    var s0, acts :| Init(s0) && Possible(env, s0, acts) && After(env, s0, acts) == s;
    var loc := InvAlways(env, s0, acts);
    SlotsFilledAlways(env, s0, acts);
    FilledSlots(s, p, s.pools[p].head, s.pools[p].tail);
  }
}
