/** The Redis side of worker/queue/redis_queue.go: the server state and what each script and command
    does to it. The two Lua scripts run atomically; the pipelines of Ack, Nack and MoveToDLQ do not, so
    each of their commands is a function of its own. */
module Broker {
  import opened Graphs
  import opened Jobs
  import opened SortedSets

  const DONE_LIST_CAP := 9999

  datatype Lanes = Lanes(high: ZSet, medium: ZSet, low: ZSet) {
    function At(lane: Lane): ZSet {
      match lane
      case High => high
      case Medium => medium
      case Low => low
    }

    function Put(lane: Lane, z: ZSet): Lanes {
      match lane
      case High => this.(high := z)
      case Medium => this.(medium := z)
      case Low => this.(low := z)
    }
  }

  datatype Redis = Redis(
    lanes: Lanes,
    delayed: ZSet,
    processing: map<Id, Job>,
    locks: set<Id>,
    done: seq<Job>,
    dlq: map<Job, int>,
    malformed: seq<Member>)

  const EMPTY := Redis(Lanes(map[], map[], map[]), map[], map[], {}, [], map[], [])

  // ---- single commands ----

  function Enqueue(r: Redis, job: Job, ms: int): Redis {
    var lane := LaneOf(job.priority);
    r.(lanes := r.lanes.Put(lane, r.lanes.At(lane)[Entry(job) := ms]))
  }

  function DelayedForm(job: Job, at: int): Job {
    job.(scheduledAt := Some(at), status := Pending)
  }

  function EnqueueDelayed(r: Redis, job: Job, at: int): Redis {
    r.(delayed := r.delayed[Entry(DelayedForm(job, at)) := at])
  }

  function HDel(r: Redis, id: Id): Redis {
    r.(processing := r.processing - {id})
  }

  function Del(r: Redis, id: Id): Redis {
    r.(locks := r.locks - {id})
  }

  function LPush(r: Redis, job: Job): Redis {
    r.(done := [job] + r.done)
  }

  /** LTRIM 0 doneListCap: both ends are inclusive, so one entry more than the cap stays. */
  function LTrim(r: Redis): Redis {
    r.(done := if |r.done| <= DONE_LIST_CAP + 1 then r.done else r.done[..DONE_LIST_CAP + 1])
  }

  const RETRIES_EXHAUSTED := "all retry attempts exhausted"

  /** The record MoveToDLQ writes: an existing error message is kept. */
  function DeadForm(job: Job, now: int): Job {
    job.(status := Dead, failedAt := Some(now),
         errorMessage := if job.errorMessage == "" then RETRIES_EXHAUSTED else job.errorMessage)
  }

  function AddDead(r: Redis, job: Job, ns: int): Redis {
    r.(dlq := r.dlq[job := ns])
  }

  /** A claim and its lock are gone, and nobody else's. */
  ghost predicate ClaimGone(r: Redis, r': Redis, id: Id) {
    && id !in r'.processing && id !in r'.locks
    && (forall x :: x in r.processing && x != id ==> x in r'.processing && r'.processing[x] == r.processing[x])
    && r'.processing.Keys <= r.processing.Keys
    && forall x :: x != id ==> (x in r'.locks <==> x in r.locks)
  }

  // ---- the claim script ----

  ghost function Head(rank: Member -> real, z: ZSet): Option<Member> {
    if z == map[] then None else Some(First(rank, z))
  }

  /** The head of the lane is a job nobody has locked. */
  ghost predicate Offers(rank: Member -> real, r: Redis, lane: Lane) {
    var head := Head(rank, r.lanes.At(lane));
    head.Some? && head.value.Entry? && head.value.job.id !in r.locks
  }

  /** The head of the lane has no id the script could lock. */
  ghost predicate Clogged(rank: Member -> real, r: Redis, lane: Lane) {
    var head := Head(rank, r.lanes.At(lane));
    head.Some? && !head.value.Entry?
  }

  /** The lane the claim is served from: the first in priority order that offers a job. */
  ghost function Winner(rank: Member -> real, r: Redis): Option<Lane> {
    if Offers(rank, r, High) then Some(High)
    else if Offers(rank, r, Medium) then Some(Medium)
    else if Offers(rank, r, Low) then Some(Low)
    else None
  }

  predicate Outranks(a: Lane, b: Lane) {
    (a.High? && !b.High?) || (a.Medium? && b.Low?)
  }

  /** The script looks at a lane unless a higher one served it. */
  ghost predicate Visited(rank: Member -> real, r: Redis, lane: Lane) {
    forall a :: Outranks(a, lane) ==> !Offers(rank, r, a)
  }

  /** A visited lane loses its head if that is the claimed job or has no id. A locked head stays. */
  ghost function LaneAfterClaim(rank: Member -> real, r: Redis, lane: Lane): ZSet {
    var z := r.lanes.At(lane);
    if Visited(rank, r, lane) && (Offers(rank, r, lane) || Clogged(rank, r, lane)) then z - {First(rank, z)} else z
  }

  ghost function SetAside(rank: Member -> real, r: Redis, lane: Lane): seq<Member> {
    if Visited(rank, r, lane) && Clogged(rank, r, lane) then [First(rank, r.lanes.At(lane))] else []
  }

  ghost function Claimed(rank: Member -> real, r: Redis): Option<Job> {
    match Winner(rank, r)
    case None => None
    case Some(lane) => Some(First(rank, r.lanes.At(lane)).job)
  }

  ghost function AfterClaim(rank: Member -> real, r: Redis): Redis {
    var claimed := Claimed(rank, r);
    Redis(
      Lanes(LaneAfterClaim(rank, r, High), LaneAfterClaim(rank, r, Medium), LaneAfterClaim(rank, r, Low)),
      r.delayed,
      if claimed.None? then r.processing else r.processing[claimed.value.id := claimed.value],
      if claimed.None? then r.locks else r.locks + {claimed.value.id},
      r.done,
      r.dlq,
      SetAside(rank, r, Low) + SetAside(rank, r, Medium) + SetAside(rank, r, High) + r.malformed)
  }

  // ---- the drain script ----

  /** The entries of a batch the script can decode, in batch order. */
  function Tables(batch: seq<Member>): (s: seq<Member>)
    ensures forall m :: m in s <==> m in batch && m.IsTable()
    ensures |s| <= |batch|
  {
    if batch == [] then []
    else
      var s := Tables(batch[..|batch| - 1]);
      var last := batch[|batch| - 1];
      assert batch == batch[..|batch| - 1] + [last];
      if last.IsTable() then s + [last] else s
  }

  /** `moved` added to one lane: the k-th moved member of all lanes together scores `ms + k`. */
  function LaneAfterDrain(z: ZSet, lane: Lane, moved: seq<Member>, ms: int): ZSet {
    if moved == [] then z
    else
      var last := moved[|moved| - 1];
      var rest := LaneAfterDrain(z, lane, moved[..|moved| - 1], ms);
      if LaneOf(last.Priority()) == lane then rest[last := ms + |moved| - 1] else rest
  }

  function Drained(r: Redis, moved: seq<Member>, ms: int): Redis {
    r.(delayed := r.delayed - Elements(moved),
       lanes := Lanes(LaneAfterDrain(r.lanes.high, High, moved, ms),
                      LaneAfterDrain(r.lanes.medium, Medium, moved, ms),
                      LaneAfterDrain(r.lanes.low, Low, moved, ms)))
  }

  ghost function Promoted(rank: Member -> real, r: Redis, cutoff: int, limit: int): seq<Member> {
    Tables(Range(rank, r.delayed, cutoff, limit))
  }

  ghost function AfterDrain(rank: Member -> real, r: Redis, cutoff: int, ms: int, limit: int): Redis {
    Drained(r, Promoted(rank, r, cutoff, limit), ms)
  }

  // ---- what the scripts do to membership ----

  /** A member is in a lane after the drain if it was there before or has been moved there. */
  lemma {:induction false} LaneMembersAfterDrain(z: ZSet, lane: Lane, moved: seq<Member>, ms: int, m: Member)
    ensures m in LaneAfterDrain(z, lane, moved, ms) <==> m in z || (m in moved && LaneOf(m.Priority()) == lane)
  {
    if moved != [] {
      LaneMembersAfterDrain(z, lane, moved[..|moved| - 1], ms, m);
      assert moved == moved[..|moved| - 1] + [moved[|moved| - 1]];
    }
  }

  /** The k-th moved member scores `ms + k`; everything else in the lane keeps its score. */
  lemma {:induction false} LaneScoresAfterDrain(z: ZSet, lane: Lane, moved: seq<Member>, ms: int, k: nat)
    requires k < |moved| && LaneOf(moved[k].Priority()) == lane
    requires forall i, j :: 0 <= i < j < |moved| ==> moved[i] != moved[j]
    ensures moved[k] in LaneAfterDrain(z, lane, moved, ms)
    ensures LaneAfterDrain(z, lane, moved, ms)[moved[k]] == ms + k
  {
    if k < |moved| - 1 {
      LaneScoresAfterDrain(z, lane, moved[..|moved| - 1], ms, k);
    }
  }

  lemma {:induction false} OldScoresAfterDrain(z: ZSet, lane: Lane, moved: seq<Member>, ms: int, m: Member)
    requires m in z && m !in moved
    ensures m in LaneAfterDrain(z, lane, moved, ms) && LaneAfterDrain(z, lane, moved, ms)[m] == z[m]
  {
    if moved != [] {
      OldScoresAfterDrain(z, lane, moved[..|moved| - 1], ms, m);
      assert moved[|moved| - 1] in moved;
    }
  }

  /** A claim takes exactly the claimed job out of the lanes. */
  lemma ClaimTakesOne(rank: Member -> real, r: Redis, lane: Lane, job: Job)
    ensures Entry(job) in AfterClaim(rank, r).lanes.At(lane)
            <==> Entry(job) in r.lanes.At(lane) && !(Winner(rank, r) == Some(lane) && Claimed(rank, r) == Some(job))
  {
    assert Outranks(High, Medium) && Outranks(High, Low) && Outranks(Medium, Low);
  }

  /** A head that cannot be claimed: no id to lock, or locked already. */
  predicate Unclaimable(r: Redis, m: Member) {
    !m.Entry? || m.job.id in r.locks
  }

  /** The claim in plain terms: a job is claimed from a lane exactly if it is the lane's first entry and
      not locked, and whatever comes first in a higher lane cannot be claimed. */
  lemma ClaimPicks(rank: Member -> real, r: Redis, lane: Lane, job: Job)
    requires Injective(rank)
    ensures Winner(rank, r) == Some(lane) && Claimed(rank, r) == Some(job)
            <==> && IsFirst(rank, r.lanes.At(lane), Entry(job)) && job.id !in r.locks
                 && forall a, m :: Outranks(a, lane) && IsFirst(rank, r.lanes.At(a), m) ==> Unclaimable(r, m)
  {
    OfferedFirst(rank, r, lane);
    forall a
      ensures !Offers(rank, r, a) <==> forall m :: IsFirst(rank, r.lanes.At(a), m) ==> Unclaimable(r, m)
    {
      OfferedFirst(rank, r, a);
    }
    assert Outranks(High, Medium) && Outranks(High, Low) && Outranks(Medium, Low);
  }

  lemma OfferedFirst(rank: Member -> real, r: Redis, lane: Lane)
    requires Injective(rank)
    ensures Offers(rank, r, lane) <==> exists m :: IsFirst(rank, r.lanes.At(lane), m) && !Unclaimable(r, m)
    ensures forall m :: IsFirst(rank, r.lanes.At(lane), m) ==> r.lanes.At(lane) != map[] && m == First(rank, r.lanes.At(lane))
  {
    var z := r.lanes.At(lane);
    forall m | IsFirst(rank, z, m)
      ensures z != map[] && m == First(rank, z)
    {
      FirstIsUnique(rank, z, m, First(rank, z));
    }
  }

  /** Nothing is claimed exactly if no lane has a claimable first entry. */
  lemma NothingToClaim(rank: Member -> real, r: Redis)
    requires Injective(rank)
    ensures Claimed(rank, r) == None <==> forall lane, m :: IsFirst(rank, r.lanes.At(lane), m) ==> Unclaimable(r, m)
  {
    OfferedFirst(rank, r, High);
    OfferedFirst(rank, r, Medium);
    OfferedFirst(rank, r, Low);
  }

  /** A claim loses nothing: every entry keeps its place and score, or is the claimed job, now recorded
      and locked, or has been set aside because it has no id. */
  lemma ClaimLosesNothing(rank: Member -> real, r: Redis, lane: Lane, m: Member)
    requires m in r.lanes.At(lane)
    ensures var r' := AfterClaim(rank, r);
            || (m in r'.lanes.At(lane) && r'.lanes.At(lane)[m] == r.lanes.At(lane)[m])
            || (m.Entry? && Claimed(rank, r) == Some(m.job) && m.job.id in r'.processing
                && r'.processing[m.job.id] == m.job && m.job.id in r'.locks && m.job.id !in r.locks)
            || (!m.Entry? && m in r'.malformed)
  {
    assert Outranks(High, Medium) && Outranks(High, Low) && Outranks(Medium, Low);
  }

  /** A first entry without an id is set aside exactly if the claim gets to its lane: if whatever comes first
      in a higher lane cannot be claimed. */
  lemma ClaimSetsAside(rank: Member -> real, r: Redis, lane: Lane, m: Member)
    requires Injective(rank) && IsFirst(rank, r.lanes.At(lane), m) && !m.Entry?
    ensures var r' := AfterClaim(rank, r);
            var reached := forall a, b :: Outranks(a, lane) && IsFirst(rank, r.lanes.At(a), b) ==> Unclaimable(r, b);
            && (reached ==> r'.lanes.At(lane) == r.lanes.At(lane) - {m} && m in r'.malformed)
            && (!reached ==> r'.lanes.At(lane) == r.lanes.At(lane))
  {
    hide Visited, Outranks;
    OfferedFirst(rank, r, lane);
    VisitedMeans(rank, r, lane);
    assert Unclaimable(r, m);
  }

  lemma VisitedMeans(rank: Member -> real, r: Redis, lane: Lane)
    requires Injective(rank)
    ensures Visited(rank, r, lane)
            <==> forall a, b :: Outranks(a, lane) && IsFirst(rank, r.lanes.At(a), b) ==> Unclaimable(r, b)
  {
    hide Offers, IsFirst, Unclaimable, Outranks;
    forall a
      ensures !Offers(rank, r, a) <==> forall b :: IsFirst(rank, r.lanes.At(a), b) ==> Unclaimable(r, b)
    {
      OfferedFirst(rank, r, a);
    }
  }

  /** And nothing but the claimed job and the members without an id is touched: what was set aside,
      recorded or locked before stays so, and the other keys are as they were. */
  lemma ClaimSparesTheRest(rank: Member -> real, r: Redis)
    ensures var r', claimed := AfterClaim(rank, r), Claimed(rank, r);
            var n := |r'.malformed| - |r.malformed|;
            && 0 <= n <= 3 && r'.malformed[n..] == r.malformed && (forall k :: 0 <= k < n ==> !r'.malformed[k].Entry?)
            && (forall id :: claimed.None? || id != claimed.value.id ==>
                  && (id in r'.locks <==> id in r.locks)
                  && (id in r'.processing <==> id in r.processing)
                  && (id in r.processing ==> r'.processing[id] == r.processing[id]))
            && r'.delayed == r.delayed && r'.done == r.done && r'.dlq == r.dlq
  {
    hide SetAside, LaneAfterClaim, Claimed;
    var low, medium, high := SetAside(rank, r, Low), SetAside(rank, r, Medium), SetAside(rank, r, High);
    AsideHasNoId(rank, r, Low);
    AsideHasNoId(rank, r, Medium);
    AsideHasNoId(rank, r, High);
    PutInFront(low, medium, high, r.malformed);
  }

  lemma AsideHasNoId(rank: Member -> real, r: Redis, lane: Lane)
    ensures |SetAside(rank, r, lane)| <= 1 && forall m :: m in SetAside(rank, r, lane) ==> !m.Entry?
  {
  }

  lemma PutInFront(a: seq<Member>, b: seq<Member>, c: seq<Member>, d: seq<Member>)
    ensures var all := a + b + c + d; var n := |all| - |d|;
            n == |a| + |b| + |c| && all[n..] == d && forall k :: 0 <= k < n ==> all[k] in a || all[k] in b || all[k] in c
  {
    forall k | 0 <= k < |a| + |b| + |c|
      ensures (a + b + c + d)[k] in a || (a + b + c + d)[k] in b || (a + b + c + d)[k] in c
    {
      assert (a + b + c + d)[k] == if k < |a| then a[k] else if k < |a| + |b| then b[k - |a|] else c[k - |a| - |b|];
    }
  }

  /** A lane only shrinks in a claim, and what it serves is its oldest entry. */
  lemma ClaimServesOldest(rank: Member -> real, r: Redis, lane: Lane)
    ensures var z, z' := r.lanes.At(lane), AfterClaim(rank, r).lanes.At(lane);
            && (forall m :: m in z' ==> m in z && z'[m] == z[m])
            && (Winner(rank, r) == Some(lane) ==> z != map[] && forall m :: m in z ==> z[First(rank, z)] <= z[m])
  {
    hide Visited, Clogged;
    var z := r.lanes.At(lane);
    if Winner(rank, r) == Some(lane) {
      var first := First(rank, z);
      forall m | m in z
        ensures z[first] <= z[m]
      {
        assert !Before(rank, z, m, first);
      }
    }
  }
}
