# Taskfire worker: a verified model

Taskfire is a background job engine. Jobs wait in three Redis sorted sets (the priority lanes) or in a
delayed set, pools of Go workers claim them with a Lua script, and PostgreSQL keeps a row per job with its
status and dependencies. This project models the worker side of it in Dafny and proves what the engine
promises: that a job is never in two hands, that as long as queue commands succeed it is lost in one named way
only, that no handler starts before all ancestors are completed, that a failing job is attempted exactly as
often as configured, and that cycles in the dependency graph are found.

`dafny verify dfyconfig.toml` checks everything.

## How the model is built

| part | files | what it is |
|---|---|---|
| dependency engine | `Graphs`, `Kahn`, `Loader`, `Dependency` | the loops of `worker/dag` over maps and queues, against graph theory (paths, cycles, topological orders) |
| queue | `Jobs`, `SortedSets`, `Broker`, `RedisQueue` | the server state and one state function per command and script; a class whose methods carry the scripts out step by step |
| retry | `Retry` | the class `Manager` and the bounds on its delays |
| one worker | `Hands`, `Processor` | the steps between a claim and its end, one access to shared state at a time; the class `JobProcessor`, whose `Process` is proved to do exactly these steps |
| pool and scheduler | `WorkerPool`, `Scheduler` | the classes `Pool` and `Scheduler`: scaler, fetcher and worker loops, the delayed-job poller |
| whole system | `Protocol` | any number of pools (fetcher, bounded channel, workers), clients and drain pollers as one step machine; a run is a list of actions |
| invariant | `Placement`, `Lives`, `BackPressure`, `Ancestors`, `Invariant` | where every job is, what its record says there, the shape of the pools, the state of the table |
| theorems about runs | `Guarantees`, `Handlers`, `Channels`, `Turns`, `Locks`, `Keys`, `Waits`, `DoneList`, `Fifo`, `Promotions` | what follows for every run |

The two Lua scripts are atomic steps. `Ack`, `Nack` and `MoveToDLQ` use a plain pipeline, which Redis may
interleave with other clients, so their commands are separate steps and their order matters. An action of
a run is one of: hand a job in (into a lane or the delayed set), put an undecodable member into a set, claim,
put a claimed job on the channel, take one from the channel, one step of a fetcher's hand-back or of a
worker, start or stop a worker, drain, and the expiry of a lock. Actions of different actors interleave
without restriction. Clock readings, jitter, the outcome of a handler, of a database write and of the
dependency query are arbitrary at every step (`Oracle`).

A state is reached (`Protocol.Reached`) if some run leads to it. A run starts with an empty Redis and any
jobs table in which no completed job has a dependency that has a row and is not completed. A job is handed in under a fresh id; if it has a row, the row declares the same
dependencies and is not completed. Locks may expire at any time unless a theorem says otherwise.

A sorted-set member is a job, something that decodes to a table without an id, or something that does
not decode. Members with equal scores are ordered by an injective ranking, which stands for their byte
order. Durations are nanoseconds, the delayed set is scored in seconds and the lanes in milliseconds.

## Where the code and its documentation differ

The model follows the code.

- The top-level README says the worker checks every ancestor by a traversal of up to 50 levels before a job
  runs. `CanRun` looks at direct dependencies only. `Guarantees.AncestorsAreCompleted` shows that over whole
  runs this is enough. The depth limit belongs to `Validate`, which nothing in the worker calls.
- `Process` promises an ack, a requeue or a move to the dead-letter queue on every path. When the dependency
  query fails, it releases the claim and puts the job nowhere. `Guarantees.LostExactlyByFailedQuery` shows
  that this is the only way to lose a job whose record decodes, as long as queue commands succeed;
  `Processors.ProcessSettles` says what each path leaves behind.
- `CanRun` says "all declared dependencies"; a dependency without a row is passed over
  (`Dependency.GateMeansCompleted`).
- `Validate` misses a cycle beyond the depth limit (`Dependency.DeepCycleAccepted`), and a job that names
  itself and already has a row passes (`Dependency.SelfDependencyAccepted`).
- `LTRIM 0 9999` keeps 10000 entries, one more than the comment on the cap says.
- The worker never reads a job's own `max_retries`; the limit is that of the retry manager for its type.
- The top-level README speaks of a jitter of 10%; the code draws the delay from the whole interval up to the
  ceiling. It also says that Nack puts the job back into its lane; it does not.
- "The pool never drops below MinWorkers": the scaler counts workers that have been told to stop.
  `WorkerPools.EvictionKeepsFloor` says exactly when an eviction leaves the floor standing, and
  `WorkerPools.LoseTheFloor` carries a fresh pool to a state in which it does not. "Workers started to satisfy MinWorkers
  are exempt": any worker can be evicted, even a busy one, since a running job does not count as activity.
- The claim script's lock is meant to guarantee single delivery, but it expires after 300 s. Single delivery
  does not depend on it (`Guarantees.NoTwoHands`); the agreement of locks and processing hash does, and
  `Locks.AgreementIsHarmlessness` says exactly which expiries it survives.
- `DrainDelayed` is described as moving ready jobs; with a batch of undecodable entries in front, it moves none
  (`Schedulers.EntryArrives`).
- "Within a lane jobs are ordered FIFO by enqueue time", with nanosecond scores: the score is in milliseconds of
  the enqueuer's clock, and ties go by bytes. `Fifo.FirstInIsFirstOut` says exactly when the first one in is the
  first one out, `Fifo.Overtaken` gives the shortest run in which it is not.

## Model

| member | source | states |
|---|---|---|
| Graphs.OrderExcludesCycles | worker/dag/dependency.go:149-157 | a graph that has a topological order has no cycle |
| Graphs.DeadEndFreeSetHasCycle | worker/dag/dependency.go:201-203 | a non-empty finite set of nodes none of which is a dead end inside it contains a cycle; the cycle is produced |
| Kahn.CountDegrees | worker/dag/dependency.go:158-177 | for every node, keys and ids only mentioned alike, the in-degree is the number of its declared dependencies with duplicates, and the dependents lists reverse exactly those edges |
| Kahn.Seed | worker/dag/dependency.go:179-185 | the queue starts with the nodes of in-degree 0, each once, in any map order |
| Kahn.Release | worker/dag/dependency.go:193-198 | decrementing along the dependents list queues a node exactly when its last pending dependency is done, and once only |
| Kahn.Round | worker/dag/dependency.go:188-199 | one round keeps: in-degree = dependencies still pending, order and queue hold distinct nodes, those of in-degree 0, dependencies first |
| Kahn.KahnSort | worker/dag/dependency.go:157-206 | the error is returned exactly when the graph has a cycle; otherwise every node is listed once, dependencies before dependents; the loop ends |
| Kahn.Verdict | worker/dag/dependency.go:201-205 | once the queue is dry, comparing two lengths decides whether there is a cycle |
| Kahn.StuckMeansCycle | worker/dag/dependency.go:201-203 | if every node left over waits for another dependency that is left over, the graph has a cycle |
| Loader.Unique | worker/dag/dependency.go:234-244 | the same elements without repetition, as `Dedup` orders them |
| Loader.DedupKeepsOrder | worker/dag/dependency.go:233-244 | removing duplicates keeps the order of first occurrences |
| Loader.NearIsWithin | worker/dag/dependency.go:97-135 | the ids found in k levels are exactly those at the end of a walk of at most k edges from the root |
| Loader.Scan | worker/dag/dependency.go:101-128 | one level, rows in any order: each stored row is entered deduplicated, and exactly its unseen dependencies become the next frontier |
| Loader.LoadLevels | worker/dag/dependency.go:93-135 | after d levels the rows within d edges are loaded and the frontier completes those within d + 1; the loop fails exactly if the query of a level with something to look up fails |
| Loader.LoadGraph | worker/dag/dependency.go:93-145 | no graph exactly if a level fails at which the walks from the root leave something to look up; otherwise the root plus exactly the stored rows within the limit, each with its deduplicated list; the warning exactly if something is left to look up at the limit, and without it everything reachable is within the limit |
| Loader.EmptyFrontierIsClosed | worker/dag/dependency.go:137-142 | a level that adds nothing means that no later level adds anything and that nothing reachable is missing |
| Loader.FrontierIsLookedUp | worker/dag/dependency.go:93-135 | what is looked up at each level, by walks alone: an id at the end of a walk of that length and of no shorter one over a stored edge; the dependencies of the root at the first level, and possibly a second time |
| Dependency.Validate | worker/dag/dependency.go:40-55 | an error for a failed load, exactly if the query fails at one of the first 50 levels with something to look up; a cycle error exactly if the loaded graph has a cycle, which over an acyclic store is exactly if the job closes one through at most 50 stored rows, unless it names itself and has a row; acceptance otherwise |
| Dependency.VerdictIsShortCycles | worker/dag/dependency.go:91-145 | over an acyclic store, Validate finds the cycles that the proposal closes through at most `limit` stored rows, and no others; none if the job names itself and has a row that is looked up |
| Dependency.ProposalClosesCycles | worker/dag/dependency.go:37-39 | adding the job to an acyclic store creates a cycle exactly if a walk from its dependencies leads back to it |
| Dependency.CyclicVerdictIsReal | worker/dag/dependency.go:50-52 | a cycle error always means a cycle in the store with the job added, truncated or not, whatever the store looks like |
| Dependency.UntruncatedVerdict | worker/dag/dependency.go:93-145 | if the load was not cut short, the verdict over an acyclic store is right exactly unless the job names itself and already has a row |
| Dependency.SelfDependencyAccepted | worker/dag/dependency.go:95-120 | such a job, concretely: its stored row replaces the proposed one and it is accepted |
| Dependency.DeepCycleAccepted | worker/dag/dependency.go:137-142 | for every job id and every limit there is an acyclic store without that job in which its cycle, one row longer than the limit, is accepted |
| Dependency.AcceptedKeepsAcyclic | worker/dag/dependency.go:37-55 | if the store is acyclic, the job new and the load complete, acceptance keeps the store acyclic |
| Dependency.CanRun | worker/dag/dependency.go:61-83 | no answer exactly if there are dependencies and the query fails; otherwise true exactly if no direct dependency that has a row is in another status than completed |
| Dependency.GateMeansCompleted | worker/dag/dependency.go:57-60 | an open gate means that all dependencies are completed exactly if all of them have rows |
| Dependency.GateLetsSomeoneThrough | worker/dag/dependency.go:61-83 | over an acyclic table, while some job is not completed one that is not completed may run; if every dependency has a row, all dependencies of that one are completed |
| SortedSets.FirstIsUnique | worker/queue/redis_queue.go:162-162 | the entry ZPOPMIN takes is determined |
| SortedSets.ListingIsOrdered | worker/queue/redis_queue.go:124-124 | popping first entries until none are left lists the set in strict entry order |
| SortedSets.RangeIsOrdered | worker/queue/redis_queue.go:124-124 | the range holds ready entries, distinct and in entry order |
| SortedSets.RangeIsClosed | worker/queue/redis_queue.go:124-124 | no ready entry is passed over: what comes before a member of the range is in it |
| SortedSets.RangeWithin | worker/queue/redis_queue.go:124-124 | unless the limit cuts it off, the range holds all ready entries; a negative limit is none |
| Broker.ClaimPicks | worker/queue/redis_queue.go:187-194 | a job is claimed from a lane exactly if it is the lane's first entry and not locked, and whatever is first in a higher lane has no id or is locked |
| Broker.NothingToClaim | worker/queue/redis_queue.go:187-194 | nothing is claimed exactly if every lane is empty or has a first entry without an id or locked |
| Broker.ClaimLosesNothing | worker/queue/redis_queue.go:161-185 | every entry keeps its lane and score, or is the claimed job, now locked and recorded, or has been set aside for having no id |
| Broker.ClaimSetsAside | worker/queue/redis_queue.go:168-172 | a first entry without an id is set aside, and its lane otherwise unchanged, exactly if nothing in front of a higher lane can be claimed |
| Broker.ClaimSparesTheRest | worker/queue/redis_queue.go:161-185 | locks, records and set-aside members stay, save for the claimed job and members without an id; the delayed set, the done list and the dead-letter set are untouched |
| Broker.ClaimTakesOne | worker/queue/redis_queue.go:161-185 | of all jobs in a lane exactly the claimed one leaves it |
| Broker.Tables | worker/queue/redis_queue.go:130-132 | the decodable entries of a batch, no more and no fewer |
| Broker.LaneMembersAfterDrain | worker/queue/redis_queue.go:133-145 | a lane holds after a drain what it held before and the moved entries of its priority |
| Broker.LaneScoresAfterDrain | worker/queue/redis_queue.go:143-144 | the k-th moved entry scores the server's millisecond plus k |
| Broker.OldScoresAfterDrain | worker/queue/redis_queue.go:130-146 | entries that were not moved keep their scores |
| RedisQueues.RedisQueue.Enqueue | worker/queue/redis_queue.go:238-261 | the job is added with this score to the high set from priority 300 on, to the medium one from 200 to 299, to the low one below 200; every other entry, the other sets and all other keys are unchanged |
| RedisQueues.RedisQueue.EnqueueDelayed | worker/queue/redis_queue.go:413-434 | afterwards the delayed set has the job with this score, pending and with its schedule but otherwise as it was, and every other entry as before; all other keys are unchanged |
| RedisQueues.RedisQueue.PopMin | worker/queue/redis_queue.go:162-166 | removes the first entry and returns it with its score |
| RedisQueues.RedisQueue.TryClaim | worker/queue/redis_queue.go:161-185 | one lane: claim, restore a locked head with its score, or set a head without an id aside |
| RedisQueues.RedisQueue.Dequeue | worker/queue/redis_queue.go:160-195 | the three tries together are the claim that ClaimPicks and ClaimLosesNothing describe |
| RedisQueues.RedisQueue.Ack | worker/queue/redis_queue.go:305-323 | run alone: this claim and lock are gone and nobody else's; the job is first in the done list, followed by the newest of what was there, up to 10000 entries in all; all other keys are unchanged |
| RedisQueues.RedisQueue.Nack | worker/queue/redis_queue.go:328-339 | run alone: this claim and lock are gone and nobody else's; all other keys are unchanged |
| RedisQueues.RedisQueue.MoveToDLQ | worker/queue/redis_queue.go:344-380 | run alone: this claim and lock are gone and nobody else's; the job, dead since now and with its own error or, if it had none, the fixed one, but otherwise as it was, is in the dead-letter set with this score next to every other entry; all other keys are unchanged |
| RedisQueues.RedisQueue.MoveTables | worker/queue/redis_queue.go:127-147 | the loop moves the decodable entries of the batch in order and returns their number |
| RedisQueues.RedisQueue.DrainDelayed | worker/queue/redis_queue.go:438-449 | the script promotes the decodable entries of the range, in its order, and returns their number; every job that has left the delayed set is in the high set from priority 300 on, in the medium one from 200 to 299, in the low one below 200 |
| Schedulers.DrainMovesExactly | worker/queue/redis_queue.go:123-148 | an entry leaves the delayed set exactly if it decodes and is among the first maxBatch ready ones; it goes to the set for its priority (300, 200), or for its rank if it has no id; all else stays |
| Schedulers.DrainCounts | worker/queue/redis_queue.go:147-147 | the number returned is the number of entries that left the delayed set |
| Schedulers.DrainShrinksBacklog | worker/queue/redis_queue.go:124-147 | of the decodable entries due by any earlier moment a drain takes exactly maxBatch less the undecodable ones in its range, or all if there are fewer |
| Schedulers.Scheduler.RunDelayedPoller | worker/scheduler/scheduler.go:109-130 | one drain per tick with the tick's own time, none for a tick that fails; the number promoted is the number that left the set; without undecodable entries each drain takes 100 of those due by any earlier moment, or all that are left; an entry not due by the time of any drain keeps its place and score |
| Schedulers.TicksClearBacklog | worker/scheduler/scheduler.go:117-118 | without undecodable entries, of N due entries N - k*limit are left after k drains, and none once k*limit reaches N |
| Schedulers.TicksLoseNothing | worker/scheduler/scheduler.go:109-130 | over any ticks an entry is in the delayed set with its score or in the lane of its priority |
| Schedulers.EntryArrives | worker/queue/redis_queue.go:124-147 | with limit or more undecodable entries before it a decodable entry stays for ever; with fewer it is in its lane as soon as the drains have had room, next to those, for everything up to it |
| Schedulers.DueEntriesArrive | worker/scheduler/scheduler.go:107-130 | N due entries are all in the lanes of their priorities after ceil(N/room) drains, where room is the limit less the number of undecodable entries |
| Schedulers.DrainKeepsStep | worker/queue/redis_queue.go:130-146 | a drain preserves the order of two entries of one lane wherever they stand, whatever else is in the delayed set |
| Schedulers.TicksKeepOrder | worker/scheduler/scheduler.go:110-118 | if the server's clock advances by at least the batch size per tick, two entries of one lane, the first of which decodes, are promoted and scored in the order of the delayed set, within and across batches |
| Promotions.DelayedOrderIsClaimOrder | worker/queue/redis_queue.go:410-412 | over runs of the whole system, with claims, workers and clients between the drains: when a delayed job is claimed, every job for its lane that stood before it in the delayed set has been claimed, if the server's clock advances by at least the batch size from drain to drain |
| Retry.Manager.Register | worker/retry/backoff.go:60-64 | the configuration of this type and of no other changes |
| Retry.Manager.Delay | worker/retry/backoff.go:93-106 | zero before the first attempt; otherwise the drawn part of the smaller of MaxDelay and BaseDelay * Multiplier^attempt, without its fraction; a type without a configuration has the documented defaults |
| Retry.Manager.Wait | worker/retry/backoff.go:115-161 | exhausted exactly from MaxRetries on, from 5 on for a type without a configuration; otherwise cut short exactly if cancelled during a positive delay |
| Retry.PowerLaw | worker/retry/backoff.go:100-100 | the power in the curve is the power: 1 for attempt 0, the multiplier for attempt 1, and the product over a sum of attempts |
| Retry.CeilingBounds | worker/retry/backoff.go:98-101 | the ceiling is within [0, MaxDelay], below the curve, and never shrinks with the attempt |
| Retry.DelayBounds | worker/retry/backoff.go:93-106 | every delay is within [0, MaxDelay] and below its ceiling |
| Retry.GeometricSum | worker/retry/backoff.go:98-101 | closed form of the summed delay curve |
| Retry.LifetimeWait | worker/retry/backoff.go:122-135 | what fits the sum of all delays below MaxRetries is at most (MaxRetries - 1) * MaxDelay and, multiplied out by m - 1, at most BaseDelay * (m^MaxRetries - m) |
| Waits.WaitsAreBounded | worker/processor/job_processor.go:221-237 | in every state of every run, the delays a job has sat through add up to at most these two bounds, whatever its retry count when it was handed in and however the jitter falls |
| Hands.StepAdvances | worker/processor/job_processor.go:113-295 | every step leads closer to the end of the call and keeps the job's identity |
| Processors.JobProcessor.UpdateJobStatus | worker/processor/job_processor.go:386-409 | no row is added or lost and no other row changes; the job's own row takes over status, retry count, the three times and the error, column by column, and keeps its dependencies, unless the write fails |
| Processors.JobProcessor.Process | worker/processor/job_processor.go:113-217 | without interference the call does exactly the steps of Hands; the job is acked, as completed, exactly if the dependency query goes through, every dependency with a row is completed, its type has a handler and that returns without an error; past the gate it otherwise counts one failure; the call fails exactly on a failed query or a failed attempt |
| Processors.JobProcessor.Execute | worker/processor/job_processor.go:144-217 | the same for the part after the gate: acked if there is a handler and it returns without an error, otherwise one more failure and no ack |
| Processors.JobProcessor.HandleFailure | worker/processor/job_processor.go:221-267 | counts the failure, releases the claim, and retries or buries, as the steps of Hands do |
| Processors.ProcessSettles | worker/processor/job_processor.go:107-112 | what a call leaves behind, case by case: the claim and lock are gone, the final record is in the one place its fate names and counted in the one history, its row shows it column by column, everything else in Redis and all other rows are as before |
| Processors.BuriedByLastAttempt | worker/processor/job_processor.go:221-237 | a job that never succeeds is retried before and buried by attempt number max(1, MaxRetries - r0), whatever the world does between calls; blocked calls do not count |
| Lives.StepKeepsRecord | worker/processor/job_processor.go:221-237 | every step keeps: retry count = submitted count + failures, within the stage's limit |
| Invariant.PlacedKept | worker/queue/redis_queue.go:150-152 | every action keeps every submitted job in exactly one place, and moves it where the model says |
| Invariant.InvKept | worker/processor/job_processor.go:113-295 | every action keeps the whole invariant |
| Invariant.InvReached | worker/processor/job_processor.go:113-295 | it holds in every state of every run |
| Guarantees.HandedInIsRemembered | worker/queue/redis_queue.go:238-261 | a job handed in is accounted for to the end of the run |
| Guarantees.ExactlyOnePlace | worker/processor/job_processor.go:107-112 | in every state of every run a submitted job is in exactly one of: a lane, the delayed set, one hand, the acked history, the dead-letter queue, the dropped history |
| Guarantees.NoTwoHands | worker/queue/redis_queue.go:150-152 | no two fetchers, channel slots or workers hold the same job, even if its lock has expired |
| Guarantees.LostExactlyByFailedQuery | worker/processor/job_processor.go:121-129 | an action makes a job lost exactly if it is the failing dependency query of that job; a lost job stays lost |
| Guarantees.OpenGateReachesFar | worker/dag/dependency.go:61-83 | if completed rows have open gates, an open gate makes every transitive ancestor completed |
| Guarantees.AncestorsAreCompleted | worker/processor/job_processor.go:120-188 | while a handler runs, every transitive ancestor of its job that has a row is completed, even if status writes fail at any time |
| Guarantees.CompletedIsStable | worker/processor/job_processor.go:386-409 | no action takes a row out of completed |
| Guarantees.CompletedIsStableOverRuns | worker/processor/job_processor.go:386-409 | nor does any run |
| Guarantees.CyclesNeverRun | worker/dag/dependency.go:61-83 | a job on a stored cycle is never past the gate, in any run |
| Guarantees.StatusIsShown | worker/processor/job_processor.go:386-409 | in any run, a write that goes through shows the job as active, completed, pending or dead, as what happens next has it, with the attempts so far, and touches no other row |
| Guarantees.HigherIsClaimedFirst | worker/queue/redis_queue.go:476-485 | in every state of every run, while the first entry of a lane is an unlocked job of priority 300 or more, no claim returns a job below 300; and the same for 200 |
| Guarantees.DeadAfterAllAttempts | worker/retry/backoff.go:122-133 | in any run, a job in the dead-letter queue has failed exactly max(1, MaxRetries - r0) times and carries r0 plus that |
| Guarantees.AttemptsAreBounded | worker/retry/backoff.go:122-133 | no job fails more often, and one that has used up its attempts is buried or being buried |
| Guarantees.ClaimsAreBounded | worker/pool/worker_pool.go:99-103 | after every run a pool tracks at most max(Min, Max) workers and holds at most that plus the channel's capacity plus one jobs, by the configuration it was started with |
| Handlers.CallDecides | worker/processor/job_processor.go:165-184 | in any state, a call of a handler that fails, or does not exist, adds exactly one failure to this job and leads to the release after a failure; one that returns without an error leads to completion and counts nothing |
| Handlers.FailuresAreFailedCalls | worker/processor/job_processor.go:221-226 | over any run, the failures of a job are the calls of its handler that failed |
| Handlers.OutcomeDecides | worker/processor/job_processor.go:181-217 | in any run, the last call of the handler of an acked job returned without an error, that of a dead one did not |
| Channels.ChannelIsFifo | worker/pool/worker_pool.go:218-262 | in any run, what a pool's workers have received, then what is on its channel, then what its fetcher is delivering, is what the pool has claimed and not handed back, in the order of the claims |
| Channels.ChannelFits | worker/pool/worker_pool.go:120-132 | in every state of every run no slot of the channel is empty and it holds no more than its capacity |
| Turns.WorkerTurnIsARun | worker/pool/worker_pool.go:377-403 | from any reached state a free worker can take the first job of the channel and process it, with exactly the result of one call of Process, and the rest of the channel stays: what is proved of the call happens in runs |
| Turns.FetcherIsARun | worker/pool/worker_pool.go:209-264 | from any reached state, any rounds of the fetcher loop are a run of claims, deliveries and a hand-back that leaves server and channel exactly as the loop does |
| Turns.PollerIsARun | worker/scheduler/scheduler.go:109-130 | the ticks that do not fail are as many drains of a run, with the same result |
| BackPressure.InFlightBound | worker/pool/worker_pool.go:243-262 | the same bound from the shape of one state |
| BackPressure.ShapeKept | worker/pool/worker_pool.go:209-406 | every action keeps hands, channel window and tracked workers consistent |
| Locks.LocksAlways | worker/queue/redis_queue.go:175-184 | if every expiry finds its lock gone, every hand's job is recorded and locked exactly in the phases that say so, and no two hands have the same job |
| Locks.ProcessingIsLocked | worker/queue/redis_queue.go:311-313 | under the same condition, between any two commands: a recorded job is locked, and a lock without a record belongs to a hand between HDEL and DEL |
| Locks.AgreementIsHarmlessness | worker/queue/redis_queue.go:110-110 | the agreement of locks and hash, and likewise that of both with the hands, holds after every prefix of a run exactly if every expiry in the run finds its lock gone |
| Locks.ExpiryBreaksAgreement | worker/queue/redis_queue.go:110-110 | the shortest run that loses it, concretely |
| Keys.KeysHaveHands | worker/queue/redis_queue.go:175-184 | in every run, whatever expires, a recorded job is in a hand that has yet to take it out of the hash and a locked one in a hand that has yet to delete the lock: no key is ever orphaned |
| Keys.HandsAreDisjoint | worker/queue/redis_queue.go:328-331 | two hands deal with the same job only if one of them is cleaning up after a hand-back, and only in a run in which some expiry has found its lock |
| Keys.HandsCanShare | worker/pool/worker_pool.go:245-259 | a run in which that happens, concretely |
| DoneList.DoneListIsRecent | worker/queue/redis_queue.go:302-315 | under any interleaving of acks the done list is the newest part of the history, newest first: all of it up to 10000 entries, after that at least 10000 and at most one more per ack that has yet to trim |
| Fifo.ClaimTakesOldest | worker/queue/redis_queue.go:161-185 | a claim serves the lane's lowest score and leaves the other scores alone |
| Fifo.ClaimsAreInOrder | worker/queue/redis_queue.go:235-247 | with a clock that never goes back and nothing drained into the lane, the scores of successive claims never decrease, with retries, restored heads and hand-backs interleaved |
| Fifo.EarlierIsClaimedFirst | worker/queue/redis_queue.go:161-185 | in any run, when a lane serves an entry, every job that was waiting in it with a lower score, or with the same score and lower bytes, has been claimed before, even if clocks step back and drains feed the lane |
| Fifo.FirstOfTwo | worker/queue/redis_queue.go:161-185 | of two jobs waiting in a lane, among any others and in any run, the one claimed first is the one with the lower score, or with equal scores the lower bytes |
| Fifo.FirstInIsFirstOut | worker/queue/redis_queue.go:235-247 | of two jobs enqueued into a lane one after the other, with anything before, between and after, the first one in is the first one out if and only if its millisecond is smaller, or equal and its bytes sort first |
| Fifo.Overtaken | worker/queue/redis_queue.go:245-247 | otherwise the second one is: the shortest run, concretely |
| WorkerPools.Pool.constructor | worker/pool/worker_pool.go:120-132 | no buffer size given means a channel of twice MaxWorkers |
| WorkerPools.Pool.Start | worker/pool/worker_pool.go:137-143 | ids 0 to MinWorkers - 1 are tracked, all fresh: a pool that Protocol starts a run with |
| WorkerPools.Pool.EvictIdleWorker | worker/pool/worker_pool.go:313-343 | -1 exactly if no worker has been idle for a positive time of at least idleTimeout since its last job or, without one, since its start; otherwise a worker is told to stop that has been idle that long and no less than any other, and it stays tracked |
| WorkerPools.Pool.Scale | worker/pool/worker_pool.go:277-305 | one tick spawns, tries to evict or does nothing, by the watermarks and the tracked workers; never above the limit; nobody is told to stop less than idleTimeout after a start or a job |
| WorkerPools.Pool.RunScaler | worker/pool/worker_pool.go:267-308 | over any ticks, with any depths and any exits in between, the pool never tracks more workers than the larger of MinWorkers and MaxWorkers, and new workers get new ids |
| WorkerPools.Pool.TakeJob | worker/pool/worker_pool.go:377-403 | a worker takes the oldest job of the channel, processes it, and counts it as processed or failed as Process ended; what has been taken so far and the channel together remain all that was ever delivered, in that order |
| WorkerPools.Pool.Fetch | worker/pool/worker_pool.go:218-262 | one round claims and, with room and the context alive, adds the claimed job at the end of the channel and of all that was delivered; otherwise the channel is unchanged: nothing found, a failed claim, or the job handed back at the end of the context |
| WorkerPools.Pool.RunFetcher | worker/pool/worker_pool.go:209-264 | the loop over any rounds: the channel grows at its end by what is delivered; the pause is the one that BackoffDoubles gives |
| WorkerPools.BackoffDoubles | worker/pool/worker_pool.go:212-241 | the pause after k rounds without a job is 10 ms * 2^k, at most one second |
| WorkerPools.HandBackAlone | worker/pool/worker_pool.go:245-259 | without interference the fetcher's steps in Hands put the job back as pending and undo the claim, as one round of the loop does |
| WorkerPools.FetcherKeepsJobs | worker/pool/worker_pool.go:243-262 | through any rounds and a shutdown a job from a lane is still there, on the channel, or back in its lane as pending and unclaimed; the channel is never overfull |
| WorkerPools.EvictionKeepsFloor | worker/pool/worker_pool.go:296-297 | every possible eviction leaves at least the floor of live workers exactly if there are more than that, or just as many and every longest-idle worker has been told to stop before |
| WorkerPools.LoseTheFloor | worker/pool/worker_pool.go:18-19 | carries a fresh pool with a floor of 1 through spawning, evicting and processing to a state without a live worker |

## Left out

- Redis, PostgreSQL and HTTP as such: connections, pub/sub events, metrics, logging, health checks. Redis is a
  value with one function per command, the table a map.
- Queue commands that fail. Claim, Ack, Nack, Enqueue and MoveToDLQ succeed in runs; a failed claim or drain that
  changes nothing is covered by `Pool.Fetch` and `RunDelayedPoller`, and by the actions that do not happen.
- Contexts cancelled inside `Process`. A stopped worker finishes its job with a cancelled context in the source,
  and its later commands may then fail; runs assume they do not.
- Jobs on the channel at shutdown: nothing in the source takes them off, and no theorem is claimed about them.
- The API and the dashboard. Cancelling and retrying through the API can create a second copy of an id and is not
  among the actions; rows are not inserted during a run, only updated.
- Cron schedules, the bodies of handlers, panic recovery, label functions, `ShouldRetry`, `QueueDepthByLane` and
  `DLQSize`: library code or one-line members.
- A processor without a dependency checker: the gate is always there.
- Payload and creation time of a job: never read or written by the worker code modelled here.
- JSON: a member is what it decodes to, two different records are two different members.
- RedisQueues.RedisQueue.Dequeue: a member that has an id but does not decode into a job record is locked and
  recorded by the script and then reported as an error by the client; there is no such member here.
- Retry.Manager.Delay: exact reals instead of floating point, and the random draw is an argument.
- Processors.JobProcessor.Process: runs without interference; interleaved with everything else it is the steps of
  `Hands` in `Protocol`. Its queue commands succeed and its context is not cancelled.
- Processors.JobProcessor.Execute: the Ack, the requeue and the burial succeed.
- Processors.JobProcessor.HandleFailure: the wait is not cut short; the source would bury the job then.
- WorkerPools.Pool.RunFetcher: one loop at a time; the select between a free slot and the end of the context is
  decided by the round's data. A channel of capacity 0, which only MaxWorkers = 0 gives, never takes a job here.
- WorkerPools.Pool.TakeJob: worker records are values in the pool's map, so the sharing of a record between a
  worker and the pool is not captured.
- Guarantees.AncestorsAreCompleted: an ancestor without a row cannot be completed and is not covered, as in the
  source.
