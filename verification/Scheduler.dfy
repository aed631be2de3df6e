/** The delayed-job poller of worker/scheduler/scheduler.go: one drain of at most a hundred entries per
    tick, and what a sequence of such drains does to a backlog. */
module Schedulers {
  import opened Graphs
  import opened Jobs
  import opened SortedSets
  import opened Broker
  import opened RedisQueues

  const BATCH := 100

  /** A tick passes its own time as the cutoff, in seconds; the server adds its clock in milliseconds. A
      drain that fails is skipped. */
  datatype Tick = Tick(cutoff: int, ms: int, fails: bool)

  ghost function AfterTicks(rank: Member -> real, r: Redis, ticks: seq<Tick>, limit: int): Redis {
    if ticks == [] then r
    else
      var last, before := ticks[|ticks| - 1], AfterTicks(rank, r, ticks[..|ticks| - 1], limit);
      if last.fails then before else AfterDrain(rank, before, last.cutoff, last.ms, limit)
  }

  /** How many of the ticks do drain. */
  function Drains(ticks: seq<Tick>): (n: nat)
    ensures n <= |ticks|
    ensures n == |ticks| <==> forall tick :: tick in ticks ==> !tick.fails
    ensures n == 0 <==> forall tick :: tick in ticks ==> tick.fails
  {
    if ticks == [] then 0
    else
      assert ticks == ticks[..|ticks| - 1] + [ticks[|ticks| - 1]];
      Drains(ticks[..|ticks| - 1]) + (if ticks[|ticks| - 1].fails then 0 else 1)
  }

  class Scheduler {
    const queue: RedisQueue

    constructor (queue: RedisQueue)
      ensures this.queue == queue
    {
      this.queue := queue;
    }

    /** The ticker delivers `ticks` before the context ends. */
    method RunDelayedPoller(ticks: seq<Tick>) returns (promoted: nat)
      requires Injective(queue.rank)
      modifies queue
      ensures queue.db == AfterTicks(queue.rank, old(queue.db), ticks, BATCH)
      ensures promoted + |queue.db.delayed| == |old(queue.db).delayed|
      ensures LeavesTheFuture(old(queue.db).delayed, queue.db.delayed, ticks)
      ensures TakesHundreds(old(queue.db).delayed, queue.db.delayed, ticks)
    {
      hide LeavesTheFuture, TakesHundreds, AfterDrain;
      PollerClearsBacklog(queue.rank, queue.db, ticks);
      PollerLeavesTheFuture(queue.rank, queue.db, ticks);
      promoted := 0;
      assert ticks[..0] == [];
      for i := 0 to |ticks|
        invariant queue.db == AfterTicks(queue.rank, old(queue.db), ticks[..i], BATCH)
        invariant promoted + |queue.db.delayed| == |old(queue.db).delayed|
      {
        assert ticks[..i + 1][..i] == ticks[..i];
        if ticks[i].fails {
          continue;
        }
        DrainCounts(queue.rank, queue.db, ticks[i].cutoff, ticks[i].ms, BATCH);
        var n := queue.DrainDelayed(ticks[i].cutoff, ticks[i].ms, BATCH);
        promoted := promoted + n;
      }
      assert ticks[..|ticks|] == ticks;
    }
  }

  /** What is not due by the time of any drain stays, with its score. */
  ghost predicate LeavesTheFuture(z: ZSet, z': ZSet, ticks: seq<Tick>) {
    forall m :: m in z && (forall tick :: tick in ticks ==> tick.fails || tick.cutoff < z[m]) ==> m in z' && z'[m] == z[m]
  }

  /** Without undecodable entries, every drain takes a hundred of those due by any earlier moment, or all
      that are left of them. */
  ghost predicate TakesHundreds(z: ZSet, z': ZSet, ticks: seq<Tick>) {
    (forall m :: m in z ==> !m.Garbage?) ==>
      forall due :: (forall tick :: tick in ticks ==> due <= tick.cutoff) ==>
        var n, room := Backlog(z, due), 100 * Drains(ticks);
        Backlog(z', due) == if n <= room then 0 else n - room
  }

  // ---- one drain ----

  /** Leaving the undecodable entries out keeps the order of the others. */
  lemma {:induction false} TablesAreOrdered(rank: Member -> real, z: ZSet, batch: seq<Member>)
    requires Ordered(rank, z, batch)
    ensures Ordered(rank, z, Tables(batch))
  {
    if batch != [] {
      var init, last := batch[..|batch| - 1], batch[|batch| - 1];
      assert batch == init + [last];
      assert forall m :: m in init ==> m in batch;
      assert Ordered(rank, z, init);
      TablesAreOrdered(rank, z, init);
      if last.IsTable() {
        OrderedSnoc(rank, z, Tables(init), last, init);
      }
    }
  }

  lemma OrderedSnoc(rank: Member -> real, z: ZSet, s: seq<Member>, last: Member, init: seq<Member>)
    requires Ordered(rank, z, s) && Ordered(rank, z, init + [last])
    requires forall m :: m in s ==> m in init
    ensures Ordered(rank, z, s + [last])
  {
    assert last in init + [last];
    forall i | 0 <= i < |s|
      ensures s[i] in z && s[i] != last && Before(rank, z, s[i], last)
    {
      assert s[i] in s;
      var j :| 0 <= j < |init| && init[j] == s[i];
      assert (init + [last])[j] == s[i] && (init + [last])[|init|] == last;
    }
  }

  lemma BatchIsDistinct(rank: Member -> real, r: Redis, cutoff: int, limit: int)
    requires Injective(rank)
    ensures var moved := Promoted(rank, r, cutoff, limit);
            Distinct(moved) && Ordered(rank, r.delayed, moved) && |Elements(moved)| == |moved|
    ensures forall m :: m in Promoted(rank, r, cutoff, limit) ==> m in r.delayed
  {
    hide Range, Tables;
    RangeIsOrdered(rank, r.delayed, cutoff, limit);
    TablesAreOrdered(rank, r.delayed, Range(rank, r.delayed, cutoff, limit));
    DistinctSize(Promoted(rank, r, cutoff, limit));
  }

  lemma RemoveMany(z: ZSet, xs: set<Member>)
    requires xs <= z.Keys
    ensures |z - xs| + |xs| == |z|
  {
    assert (z - xs).Keys == z.Keys - xs;
    assert |(z - xs).Keys| == |z - xs| && |z.Keys| == |z|;
  }

  /** The number a drain returns is the number of entries that have left the delayed set. */
  lemma DrainCounts(rank: Member -> real, r: Redis, cutoff: int, ms: int, limit: int)
    requires Injective(rank)
    ensures |Promoted(rank, r, cutoff, limit)| + |AfterDrain(rank, r, cutoff, ms, limit).delayed| == |r.delayed|
  {
    BatchIsDistinct(rank, r, cutoff, limit);
    RemoveMany(r.delayed, Elements(Promoted(rank, r, cutoff, limit)));
  }

  /** One drain: an entry leaves the delayed set exactly if it decodes and is among the first `limit`
      ready ones; it goes to the set for its priority, or for its rank if it has no id, and nothing else
      changes. */
  lemma DrainMovesExactly(rank: Member -> real, r: Redis, cutoff: int, ms: int, limit: int, m: Member)
    requires Injective(rank)
    ensures var r' := AfterDrain(rank, r, cutoff, ms, limit);
            var leaves := m in Range(rank, r.delayed, cutoff, limit) && !m.Garbage?;
            var priority := match m case Entry(job) => job.priority case Anonymous(_, rank) => rank case Garbage(_) => 0;
            && (m in r'.delayed <==> m in r.delayed && !leaves)
            && (m in r'.delayed ==> r'.delayed[m] == r.delayed[m])
            && (m in r'.lanes.high <==> m in r.lanes.high || (leaves && priority >= 300))
            && (m in r'.lanes.medium <==> m in r.lanes.medium || (leaves && 200 <= priority < 300))
            && (m in r'.lanes.low <==> m in r.lanes.low || (leaves && priority < 200))
            && (leaves ==> m in r.delayed && r.delayed[m] <= cutoff)
            && r' == r.(delayed := r'.delayed, lanes := r'.lanes)
  {
    RangeWithin(rank, r.delayed, cutoff, limit, m);
    LaneMembersAfterDrain(r.lanes.high, High, Promoted(rank, r, cutoff, limit), ms, m);
    LaneMembersAfterDrain(r.lanes.medium, Medium, Promoted(rank, r, cutoff, limit), ms, m);
    LaneMembersAfterDrain(r.lanes.low, Low, Promoted(rank, r, cutoff, limit), ms, m);
  }

  /** The decodable entries due by a moment. */
  function Due(z: ZSet, due: int): set<Member> {
    set m | m in z && z[m] <= due && m.IsTable()
  }

  function Backlog(z: ZSet, due: int): nat {
    |Due(z, due)|
  }

  /** Entries that do not decode; they never leave. */
  function Undecodable(xs: set<Member>): set<Member> {
    set m | m in xs && !m.IsTable()
  }

  function Less(n: nat, k: nat): nat {
    if n < k then 0 else n - k
  }

  lemma BatchFits(rank: Member -> real, r: Redis, cutoff: int, limit: nat)
    ensures |Range(rank, r.delayed, cutoff, limit)| <= limit
  {
  }

  /** A batch consists of what is promoted and what does not decode. */
  lemma BatchSplits(rank: Member -> real, r: Redis, cutoff: int, limit: int)
    requires Injective(rank)
    ensures var s, moved := Range(rank, r.delayed, cutoff, limit), Promoted(rank, r, cutoff, limit);
            |s| == |moved| + |Undecodable(Elements(s))| && |Elements(moved)| == |moved|
  {
    hide Range;
    var s, moved := Range(rank, r.delayed, cutoff, limit), Promoted(rank, r, cutoff, limit);
    RangeIsOrdered(rank, r.delayed, cutoff, limit);
    BatchIsDistinct(rank, r, cutoff, limit);
    DistinctSize(s);
    assert Elements(s) == Elements(moved) + Undecodable(Elements(s));
    assert Elements(moved) !! Undecodable(Elements(s));
  }

  lemma AllTaken(z: ZSet, xs: set<Member>, due: int)
    requires Due(z, due) <= xs
    ensures Backlog(z - xs, due) == 0 && Backlog(z, due) <= |xs|
  {
    assert Due(z - xs, due) == {};
    SubsetSize(Due(z, due), xs);
  }

  lemma SomeLeft(z: ZSet, xs: set<Member>, due: int)
    requires xs <= Due(z, due)
    ensures Backlog(z - xs, due) + |xs| == Backlog(z, due)
  {
    assert Due(z - xs, due) == Due(z, due) - xs;
  }

  /** A drain takes the oldest entries first: of those due by any earlier moment it promotes as many as
      fit next to the undecodable ones in the batch. */
  lemma DrainShrinksBacklog(rank: Member -> real, r: Redis, cutoff: int, ms: int, limit: nat, due: int)
    requires Injective(rank) && due <= cutoff
    ensures var stuck := |Undecodable(Elements(Range(rank, r.delayed, cutoff, limit)))|;
            stuck <= limit
            && Backlog(AfterDrain(rank, r, cutoff, ms, limit).delayed, due) == Less(Backlog(r.delayed, due), limit - stuck)
  {
    hide Range, Tables, LaneAfterDrain;
    var s, moved := Range(rank, r.delayed, cutoff, limit), Promoted(rank, r, cutoff, limit);
    BatchSplits(rank, r, cutoff, limit);
    BatchFits(rank, r, cutoff, limit);
    if x :| x in Due(r.delayed, due) && x !in Elements(moved) {
      OlderThanLeftOver(rank, r.delayed, cutoff, limit, due, x);
      SomeLeft(r.delayed, Elements(moved), due);
    } else {
      AllTaken(r.delayed, Elements(moved), due);
    }
  }

  /** If something due is left over, everything in the batch is due and the batch is full. */
  lemma OlderThanLeftOver(rank: Member -> real, z: ZSet, cutoff: int, limit: nat, due: int, x: Member)
    requires Injective(rank) && due <= cutoff
    requires x in z && z[x] <= due && x !in Range(rank, z, cutoff, limit)
    ensures |Range(rank, z, cutoff, limit)| == limit
    ensures forall m :: m in Range(rank, z, cutoff, limit) ==> m in z && z[m] <= due
  {
    RangeIsClosed(rank, z, cutoff, limit);
    RangeWithin(rank, z, cutoff, limit, x);
    forall m | m in Range(rank, z, cutoff, limit)
      ensures m in z && z[m] <= due
    {
      assert !Before(rank, z, x, m);
    }
  }

  // ---- many drains ----

  /** Whatever the limit, an entry keeps its score in the delayed set until it is in its lane. */
  lemma {:induction false} TicksLoseNothing(rank: Member -> real, r: Redis, ticks: seq<Tick>, limit: int, m: Member)
    requires Injective(rank) && m in r.delayed
    ensures var r' := AfterTicks(rank, r, ticks, limit);
            if m in r'.delayed then r'.delayed[m] == r.delayed[m] else m in r'.lanes.At(LaneOf(m.Priority()))
  {
    if ticks != [] {
      var n := |ticks| - 1;
      TicksLoseNothing(rank, r, ticks[..n], limit, m);
      DrainMovesExactly(rank, AfterTicks(rank, r, ticks[..n], limit), ticks[n].cutoff, ticks[n].ms, limit, m);
    }
  }

  /** Of the entries up to `x`, those that decode and those that do not. */
  ghost function AheadOf(rank: Member -> real, z: ZSet, x: Member): set<Member>
    requires x in z
  {
    set m | m in z && m.IsTable() && (m == x || Before(rank, z, m, x))
  }

  ghost function BlockersOf(rank: Member -> real, z: ZSet, x: Member): set<Member>
    requires x in z
  {
    set m | m in z && !m.IsTable() && Before(rank, z, m, x)
  }

  /** A batch that leaves a ready entry behind is full, and of entries before it. */
  lemma BatchWithout(rank: Member -> real, z: ZSet, cutoff: int, limit: nat, x: Member)
    requires Injective(rank)
    requires x in z && z[x] <= cutoff && x !in Range(rank, z, cutoff, limit)
    ensures |Range(rank, z, cutoff, limit)| == limit
    ensures forall m :: m in Range(rank, z, cutoff, limit) ==> m in z && Before(rank, z, m, x)
  {
    RangeIsClosed(rank, z, cutoff, limit);
    RangeWithin(rank, z, cutoff, limit, x);
    forall m | m in Range(rank, z, cutoff, limit)
      ensures m in z && Before(rank, z, m, x)
    {
      assert !Before(rank, z, x, m) && m != x;
    }
  }

  /** An entry that stays behind has the same blockers, and the queue in front of it is shorter by what
      the batch has room for next to them. */
  lemma DrainAdvances(rank: Member -> real, r: Redis, cutoff: int, ms: int, limit: nat, x: Member)
    requires Injective(rank) && x in r.delayed && x.IsTable()
    ensures var z, z' := r.delayed, AfterDrain(rank, r, cutoff, ms, limit).delayed;
            x in z' ==>
              && BlockersOf(rank, z', x) == BlockersOf(rank, z, x)
              && (z[x] <= cutoff ==> |AheadOf(rank, z', x)| + limit <= |AheadOf(rank, z, x)| + |BlockersOf(rank, z, x)|)
  {
    hide Range, Tables, LaneAfterDrain;
    var s, moved := Range(rank, r.delayed, cutoff, limit), Promoted(rank, r, cutoff, limit);
    var z, z' := r.delayed, r.delayed - Elements(moved);
    if x in z' {
      assert BlockersOf(rank, z', x) == BlockersOf(rank, z, x);
      assert x !in s;
      if z[x] <= cutoff {
        BatchWithout(rank, z, cutoff, limit, x);
        BatchSplits(rank, r, cutoff, limit);
        assert AheadOf(rank, z', x) == AheadOf(rank, z, x) - Elements(moved);
        assert Elements(moved) <= AheadOf(rank, z, x);
        SubsetSize(Undecodable(Elements(s)), BlockersOf(rank, z, x));
      }
    }
  }

  /** With a whole batch of blockers in front of it an entry never gets into the batch. */
  lemma DrainStarves(rank: Member -> real, r: Redis, cutoff: int, ms: int, limit: nat, x: Member)
    requires Injective(rank) && x in r.delayed && |BlockersOf(rank, r.delayed, x)| >= limit
    ensures x in AfterDrain(rank, r, cutoff, ms, limit).delayed
  {
    hide Range, Tables, LaneAfterDrain;
    var s, blockers := Range(rank, r.delayed, cutoff, limit), BlockersOf(rank, r.delayed, x);
    if x in s {
      RangeIsClosed(rank, r.delayed, cutoff, limit);
      RangeIsOrdered(rank, r.delayed, cutoff, limit);
      DistinctSize(s);
      BatchFits(rank, r, cutoff, limit);
      assert x !in blockers;
      SubsetSize(blockers + {x}, Elements(s));
    }
  }

  lemma OneBatchMore(k: int, x: int)
    ensures (k + 1) * x == k * x + x
  {
  }

  /** What is still in front of an entry after some ticks. */
  lemma {:induction false} TicksAdvance(rank: Member -> real, r: Redis, ticks: seq<Tick>, limit: nat, x: Member)
    requires Injective(rank) && x in r.delayed && x.IsTable()
    requires forall i :: 0 <= i < |ticks| ==> r.delayed[x] <= ticks[i].cutoff
    ensures var z, z' := r.delayed, AfterTicks(rank, r, ticks, limit).delayed;
            x in z' ==>
              && z'[x] == z[x] && BlockersOf(rank, z', x) == BlockersOf(rank, z, x)
              && |AheadOf(rank, z', x)| + Drains(ticks) * (limit - |BlockersOf(rank, z, x)|) <= |AheadOf(rank, z, x)|
  {
    hide AfterDrain, BlockersOf, AheadOf;
    var b := |BlockersOf(rank, r.delayed, x)|;
    if ticks != [] {
      var init, last := ticks[..|ticks| - 1], ticks[|ticks| - 1];
      var before := AfterTicks(rank, r, init, limit);
      TicksAdvance(rank, r, init, limit, x);
      OneBatchMore(Drains(init), limit - b);
      if !last.fails {
        DrainMovesExactly(rank, before, last.cutoff, last.ms, limit, x);
        if x in before.delayed {
          DrainAdvances(rank, before, last.cutoff, last.ms, limit, x);
        }
      }
    }
  }

  /** Which entries arrive, exactly. A decodable entry with fewer than `limit` undecodable ones before it
      is in its lane as soon as the drains have had room for everything up to it; with `limit` or more it
      stays for ever. */
  lemma EntryArrives(rank: Member -> real, r: Redis, ticks: seq<Tick>, limit: nat, x: Member)
    requires Injective(rank) && x in r.delayed && x.IsTable()
    requires forall i :: 0 <= i < |ticks| ==> r.delayed[x] <= ticks[i].cutoff
    ensures var r' := AfterTicks(rank, r, ticks, limit);
            var ahead, room := |AheadOf(rank, r.delayed, x)|, limit - |BlockersOf(rank, r.delayed, x)|;
            && (room <= 0 ==> x in r'.delayed)
            && (room > 0 && ahead <= Drains(ticks) * room ==> x !in r'.delayed && x in r'.lanes.At(LaneOf(x.Priority())))
  {
    hide AfterTicks, BlockersOf;
    TicksAdvance(rank, r, ticks, limit, x);
    TicksLoseNothing(rank, r, ticks, limit, x);
    if x in AfterTicks(rank, r, ticks, limit).delayed {
      assert x in AheadOf(rank, AfterTicks(rank, r, ticks, limit).delayed, x);
    }
    if |BlockersOf(rank, r.delayed, x)| >= limit {
      TicksStarve(rank, r, ticks, limit, x);
    }
  }

  lemma {:induction false} TicksStarve(rank: Member -> real, r: Redis, ticks: seq<Tick>, limit: nat, x: Member)
    requires Injective(rank) && x in r.delayed && x.IsTable() && |BlockersOf(rank, r.delayed, x)| >= limit
    ensures var z := AfterTicks(rank, r, ticks, limit).delayed; x in z && BlockersOf(rank, z, x) == BlockersOf(rank, r.delayed, x)
  {
    hide AfterDrain, BlockersOf;
    if ticks != [] {
      var init, last := ticks[..|ticks| - 1], ticks[|ticks| - 1];
      TicksStarve(rank, r, init, limit, x);
      if !last.fails {
        DrainStarves(rank, AfterTicks(rank, r, init, limit), last.cutoff, last.ms, limit, x);
        DrainAdvances(rank, AfterTicks(rank, r, init, limit), last.cutoff, last.ms, limit, x);
      }
    }
  }

  /** In particular N due entries are all promoted after ceil(N/room) drains, where `room` is the batch
      size less the number of undecodable entries. */
  lemma DueEntriesArrive(rank: Member -> real, r: Redis, ticks: seq<Tick>, limit: nat, due: int, x: Member)
    requires Injective(rank) && x in Due(r.delayed, due)
    requires forall i :: 0 <= i < |ticks| ==> due <= ticks[i].cutoff
    requires |Undecodable(r.delayed.Keys)| < limit
    requires Backlog(r.delayed, due) <= Drains(ticks) * (limit - |Undecodable(r.delayed.Keys)|)
    ensures var r' := AfterTicks(rank, r, ticks, limit); x !in r'.delayed && x in r'.lanes.At(LaneOf(x.Priority()))
  {
    hide AfterTicks;
    var stuck, blockers := |Undecodable(r.delayed.Keys)|, |BlockersOf(rank, r.delayed, x)|;
    SubsetSize(AheadOf(rank, r.delayed, x), Due(r.delayed, due));
    SubsetSize(BlockersOf(rank, r.delayed, x), Undecodable(r.delayed.Keys));
    MoreRoom(Drains(ticks), limit - stuck, limit - blockers);
    EntryArrives(rank, r, ticks, limit, x);
  }

  lemma MoreRoom(k: nat, a: int, b: int)
    requires a <= b
    ensures k * a <= k * b
  {
  }

  /** Without undecodable entries the count is exact. */
  lemma {:induction false} TicksTakeBatches(rank: Member -> real, r: Redis, ticks: seq<Tick>, limit: nat, due: int)
    requires Injective(rank) && Undecodable(r.delayed.Keys) == {}
    requires forall i :: 0 <= i < |ticks| ==> due <= ticks[i].cutoff
    ensures var r' := AfterTicks(rank, r, ticks, limit);
            && r'.delayed.Keys <= r.delayed.Keys
            && Backlog(r'.delayed, due) == Remaining(Backlog(r.delayed, due), limit, Drains(ticks))
  {
    hide Range, Tables, LaneAfterDrain, Due;
    if ticks != [] {
      var init, last := ticks[..|ticks| - 1], ticks[|ticks| - 1];
      TicksTakeBatches(rank, r, init, limit, due);
      if !last.fails {
        var before := AfterTicks(rank, r, init, limit);
        DrainShrinksBacklog(rank, before, last.cutoff, last.ms, limit, due);
        assert Undecodable(before.delayed.Keys) <= Undecodable(r.delayed.Keys);
        NothingUndecodable(rank, before, last.cutoff, limit);
      }
    }
  }

  lemma NothingUndecodable(rank: Member -> real, r: Redis, cutoff: int, limit: int)
    requires Undecodable(r.delayed.Keys) == {}
    ensures Undecodable(Elements(Range(rank, r.delayed, cutoff, limit))) == {}
  {
    forall m | m in Range(rank, r.delayed, cutoff, limit)
      ensures m.IsTable()
    {
      RangeWithin(rank, r.delayed, cutoff, limit, m);
      assert m !in Undecodable(r.delayed.Keys);
    }
  }

  /** What `k` takes of at most `limit` each leave of `n`. */
  function Remaining(n: nat, limit: nat, k: nat): nat {
    if k == 0 then n else Less(Remaining(n, limit, k - 1), limit)
  }

  lemma {:induction false} RemainingAfter(n: nat, limit: nat, k: nat)
    ensures k * limit >= 0 && Remaining(n, limit, k) == if n <= k * limit then 0 else n - k * limit
  {
    if k > 0 {
      RemainingAfter(n, limit, k - 1);
      OneBatchMore(k - 1, limit);
    }
  }

  /** Of N due entries N - k*limit are left after k drains, and none once k*limit reaches N. */
  lemma TicksClearBacklog(rank: Member -> real, r: Redis, ticks: seq<Tick>, limit: nat, due: int)
    requires Injective(rank) && Undecodable(r.delayed.Keys) == {}
    requires forall i :: 0 <= i < |ticks| ==> due <= ticks[i].cutoff
    ensures var n, taken := Backlog(r.delayed, due), Drains(ticks) * limit;
            Backlog(AfterTicks(rank, r, ticks, limit).delayed, due) == if n <= taken then 0 else n - taken
  {
    hide AfterTicks, Remaining;
    TicksTakeBatches(rank, r, ticks, limit, due);
    RemainingAfter(Backlog(r.delayed, due), limit, Drains(ticks));
  }

  /** A tick of the poller takes a hundred of them. */
  lemma PollerClearsBacklog(rank: Member -> real, r: Redis, ticks: seq<Tick>)
    requires Injective(rank)
    ensures TakesHundreds(r.delayed, AfterTicks(rank, r, ticks, BATCH).delayed, ticks)
  {
    hide AfterTicks, Backlog;
    if forall m :: m in r.delayed ==> !m.Garbage? {
      assert Undecodable(r.delayed.Keys) == {};
      forall due | forall tick :: tick in ticks ==> due <= tick.cutoff
        ensures var n, room := Backlog(r.delayed, due), 100 * Drains(ticks);
                Backlog(AfterTicks(rank, r, ticks, BATCH).delayed, due) == if n <= room then 0 else n - room
      {
        TicksClearBacklog(rank, r, ticks, BATCH, due);
      }
    }
  }

  lemma {:induction false} NotDueStays(rank: Member -> real, r: Redis, ticks: seq<Tick>, limit: int, m: Member)
    requires Injective(rank) && m in r.delayed
    requires forall tick :: tick in ticks ==> tick.fails || tick.cutoff < r.delayed[m]
    ensures var z := AfterTicks(rank, r, ticks, limit).delayed; m in z && z[m] == r.delayed[m]
  {
    hide AfterDrain;
    if ticks != [] {
      var init, last := ticks[..|ticks| - 1], ticks[|ticks| - 1];
      NotDueStays(rank, r, init, limit, m);
      DrainMovesExactly(rank, AfterTicks(rank, r, init, limit), last.cutoff, last.ms, limit, m);
    }
  }

  lemma PollerLeavesTheFuture(rank: Member -> real, r: Redis, ticks: seq<Tick>)
    requires Injective(rank)
    ensures LeavesTheFuture(r.delayed, AfterTicks(rank, r, ticks, BATCH).delayed, ticks)
  {
    hide AfterTicks;
    forall m | m in r.delayed && forall tick :: tick in ticks ==> tick.fails || tick.cutoff < r.delayed[m]
      ensures var z := AfterTicks(rank, r, ticks, BATCH).delayed; m in z && z[m] == r.delayed[m]
    {
      NotDueStays(rank, r, ticks, BATCH, m);
    }
  }

  /** Where two entries of the same lane stand, the first of which comes before the second in the
      delayed set `d`; later drains will use scores of at least `bound`. */
  ghost predicate InOrder(rank: Member -> real, d: ZSet, z: ZSet, a: Member, b: Member, bound: int) {
    || (a in d && b in d && Before(rank, d, a, b))
    || (a !in d && b in d && a in z && z[a] < bound)
    || (a !in d && b !in d && a in z && b in z && z[a] < z[b])
  }

  ghost predicate InStep(rank: Member -> real, r: Redis, lane: Lane, a: Member, b: Member, bound: int) {
    InOrder(rank, r.delayed, r.lanes.At(lane), a, b, bound)
  }

  /** `s` is taken out of `d` from the front, save for what does not decode. */
  ghost predicate FrontOf(rank: Member -> real, d: ZSet, s: seq<Member>) {
    && Distinct(s)
    && (forall m :: m in s ==> m in d)
    && forall a, b :: a in d && a.IsTable() && b in d && Before(rank, d, a, b) && b in s ==> a in s
  }

  ghost function IndexOf(s: seq<Member>, m: Member): (i: nat)
    requires m in s
    ensures i < |s| && s[i] == m
  {
    var i :| 0 <= i < |s| && s[i] == m;
    i
  }

  lemma BatchIsFront(rank: Member -> real, r: Redis, cutoff: int, limit: nat, a: Member, b: Member)
    requires Injective(rank)
    ensures var s := Promoted(rank, r, cutoff, limit);
            && |s| <= limit
            && FrontOf(rank, r.delayed, s)
            && (a in s && b in s && Before(rank, r.delayed, a, b) ==> IndexOf(s, a) < IndexOf(s, b))
  {
    hide Range, Tables;
    BatchFits(rank, r, cutoff, limit);
    RangeIsClosed(rank, r.delayed, cutoff, limit);
    RangeIsOrdered(rank, r.delayed, cutoff, limit);
    BatchIsDistinct(rank, r, cutoff, limit);
  }

  /** The score a moved entry gets. */
  lemma MovedScore(z: ZSet, lane: Lane, s: seq<Member>, ms: int, m: Member)
    requires Distinct(s) && m in s && LaneOf(m.Priority()) == lane
    ensures m in LaneAfterDrain(z, lane, s, ms) && LaneAfterDrain(z, lane, s, ms)[m] == ms + IndexOf(s, m)
  {
    LaneScoresAfterDrain(z, lane, s, ms, IndexOf(s, m));
  }

  lemma BothWaiting(rank: Member -> real, d: ZSet, z: ZSet, lane: Lane, s: seq<Member>, ms: int, limit: nat, a: Member, b: Member)
    requires FrontOf(rank, d, s) && |s| <= limit
    requires a in d && a.IsTable() && b in d && Before(rank, d, a, b)
    requires LaneOf(a.Priority()) == lane && LaneOf(b.Priority()) == lane
    requires a in s && b in s ==> IndexOf(s, a) < IndexOf(s, b)
    ensures InOrder(rank, d - Elements(s), LaneAfterDrain(z, lane, s, ms), a, b, ms + limit)
  {
    if a in s {
      MovedScore(z, lane, s, ms, a);
    }
    if b in s {
      MovedScore(z, lane, s, ms, b);
    }
  }

  lemma FirstGone(rank: Member -> real, d: ZSet, z: ZSet, lane: Lane, s: seq<Member>, ms: int, limit: nat, a: Member, b: Member)
    requires FrontOf(rank, d, s)
    requires a !in d && a in z
    requires if b in d then z[a] < ms else b in z && z[a] < z[b]
    requires LaneOf(b.Priority()) == lane
    ensures InOrder(rank, d - Elements(s), LaneAfterDrain(z, lane, s, ms), a, b, ms + limit)
  {
    OldScoresAfterDrain(z, lane, s, ms, a);
    if b in s {
      MovedScore(z, lane, s, ms, b);
    } else if b in z {
      OldScoresAfterDrain(z, lane, s, ms, b);
    }
  }

  lemma DrainKeepsStep(rank: Member -> real, r: Redis, cutoff: int, ms: int, limit: nat, lane: Lane, a: Member, b: Member)
    requires Injective(rank) && a.IsTable()
    requires LaneOf(a.Priority()) == lane && LaneOf(b.Priority()) == lane
    requires InStep(rank, r, lane, a, b, ms)
    ensures InStep(rank, AfterDrain(rank, r, cutoff, ms, limit), lane, a, b, ms + limit)
  {
    hide Range, Tables, FrontOf, IndexOf;
    var s, z := Promoted(rank, r, cutoff, limit), r.lanes.At(lane);
    BatchIsFront(rank, r, cutoff, limit, a, b);
    if a in r.delayed {
      BothWaiting(rank, r.delayed, z, lane, s, ms, limit, a, b);
    } else {
      FirstGone(rank, r.delayed, z, lane, s, ms, limit, a, b);
    }
  }

  /** The server's clock advances by at least the batch size between ticks. */
  predicate Spaced(ticks: seq<Tick>, limit: nat) {
    forall i :: 0 <= i < |ticks| - 1 ==> ticks[i].ms + limit <= ticks[i + 1].ms
  }

  /** Batches never interleave: entries of one lane leave the delayed set in its order and get scores in
      that order, within a tick and across ticks. */
  lemma {:induction false} TicksKeepOrder(rank: Member -> real, r: Redis, ticks: seq<Tick>, limit: nat, lane: Lane, a: Member, b: Member, bound: int)
    requires Injective(rank) && a.IsTable() && Spaced(ticks, limit)
    requires LaneOf(a.Priority()) == lane && LaneOf(b.Priority()) == lane
    requires a in r.delayed && b in r.delayed && Before(rank, r.delayed, a, b)
    requires ticks != [] ==> ticks[|ticks| - 1].ms + limit <= bound
    ensures var r' := AfterTicks(rank, r, ticks, limit);
            && InStep(rank, r', lane, a, b, bound)
            && (b !in r'.delayed ==>
                  a !in r'.delayed && a in r'.lanes.At(lane) && b in r'.lanes.At(lane)
                  && r'.lanes.At(lane)[a] < r'.lanes.At(lane)[b])
  {
    hide AfterDrain;
    if ticks != [] {
      var n := |ticks| - 1;
      TicksKeepOrder(rank, r, ticks[..n], limit, lane, a, b, ticks[n].ms);
      if !ticks[n].fails {
        DrainKeepsStep(rank, AfterTicks(rank, r, ticks[..n], limit), ticks[n].cutoff, ticks[n].ms, limit, lane, a, b);
      }
    }
  }
}
