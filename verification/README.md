# A verified model of the worklane job lifecycle

worklane is one job-lifecycle contract with several storage backends, and protocols
built on top of it. This project states the contract once, proves that three backends
keep it, and proves what the contract and the protocols promise over every run.

- **The contract** (`Contract.dfy`). `Store` is the in-memory broker's state: live jobs
  in insertion order, dead records in failure order, held unique keys, schedule
  watermarks. `Step` is the in-memory behaviour of one call. `StepAny` is what other
  backends may do: a reserve may pick any visible job of top priority (redelivery order
  is implementation-defined), and dead records of one instant may be kept in any order.
  Every call is also a list of elementary events, and the laws over runs are proved
  event by event. `Effects` says what each allowed call does to the store, field by field
  and without the functions `Step` is made of.
- **Laws over every run of calls the contract allows** (`Invariant`, `Receipts`,
  `HandOuts`, `Accounting`, `FailureOrder`, `ReserveLaws`, `RetentionLaws`, `Ties`,
  `Batches`, `Leases`, `Origins`). What a backend's method promises of one call continues
  such a run (`Receipts.AllowedExtends`, `Batches.EachExtends`), except for the answer of a
  SQLite insert on a clash.
- **Backends**, each a class with the source's own state. `Memory` is equal to `Step`.
  `SqliteTables`, `SqliteDead` and `Sqlite` prove that the SQLite tables simulate
  `Step`. `RedisLive`, `RedisState`, `RedisDead`, `RedisBury`, `RedisSound`,
  `RedisReads` and `Redis` prove that after every script all Redis indexes agree with
  each other and with a store that moved as `StepAny` allows. `Encoding` covers the
  texts Redis compares. `Config.wide` says whether a delivery count saturates at
  `u32::MAX` (memory) or is stored in 64 bits (SQLite, Redis), and `Widths` compares the
  two. `RedisTies` and `Differences` say where brokers differ.
- **Protocols**: the Postgres sorted locks (`Locks`), workers and clients with claim-check
  blobs (`FleetEvents`, `Fleet`, `FleetLaws`, `BlobLeaks`, and `FleetRuns`, by which a
  fleet's calls are a run of the broker), the fan-in watcher (`FanIn`) and what its
  polls mean over a run of the broker (`FanInRuns`) and how often its callback is stored
  (`Callbacks`), the cron scheduler (`Scheduler`), and the small arithmetic pieces
  (`Backoff`, `Clocks`, `ClaimCheck`).

Conventions. Identifiers (ids, receipts, lanes, keys, kinds, error texts) are integers,
because the broker only compares them. Times are whole nanoseconds. The clock, minted
receipts and blob keys are parameters. `u32`, `i64` and `Duration` saturation are written
out (`Bump`, `Nanos`, `AddTime`).

Hypotheses, stated as `requires` where they are used:

- Receipts and blob keys are fresh.
- For SQLite and Redis, no id is enqueued while a dead record has it (ids are random).
- For SQLite and Redis, the clock never goes back and stays below `i64::MAX` nanoseconds.
- A lease that has run out counts as no lease. The in-memory broker clears it; SQLite and
  Redis keep the old receipt, so their tables are compared with the store modulo this.

## Where the code does not do what it promises

Each of these keeps the code as it is, with a witness and the exact condition.

- `insert_job` of SQLite and Postgres looks the unique key up before the id, the in-memory
  broker and Redis the id before the key. The answers differ exactly when the id is live
  and the key is held by another job (`Differences.ClashRun`, `Sqlite.KeyFirstIff`).
- The advisory lock is on the hash of a key while batches sort by its text, so a hash
  collision can deadlock two batches, although the comment at
  crates/worklane-postgres/src/lib.rs:497 calls it harmless. On these locks alone, batches
  over a given set of keys never deadlock exactly when keys of the set that share a lock are
  neighbours in the set's order (`Locks.CrossedStuck`, `Locks.NeverStuckIff`).
- A broker that stores a job and still reports an error makes the client delete the blob of
  a live job. A lost reply does no harm exactly when the payload is inline or the insert
  stored nothing (`FleetLaws.LossBreaks`, `FleetLaws.LostIff`, `FleetLaws.SafeIffHarmless`).
- Redis orders dead records of one instant by enqueue sequence, not failure order, and a
  count bound can then keep a different record. A lane keeps what it keeps in memory exactly
  when no record of that lane and instant was enqueued later, or nothing is kept at all
  (`Differences.TieRun`, `RedisTies.SameOrderIff`).
- Redis reads a bound of 0 as "no bound", the other brokers as "none". The contract's
  calls do the same under the settings as Redis and as the SQL brokers read them, on every
  store, exactly when neither bound is 0
  (`Differences.ZeroDeliveriesRun`, `Differences.ZeroCountRun`, `Differences.RedisActsAlikeIff`).
- With `max_deliveries` at `u32::MAX` the in-memory count saturates, and a job can be
  delivered without end; the stored counts of SQLite and Redis do not saturate, and the
  bound holds (`Accounting.BoundIff`, whose proof builds the run, and `Widths.OverIff`).
- The comment at crates/worklane/src/workflow.rs:126-130 says that a dependency in state
  `CompletedOrUnknown` was acked. It may also have been dead-lettered and then purged or
  pruned, and a result it left behind then fires the callback. The state means acked exactly
  when no record of the dependency was dropped, which unbounded retention without purges
  ensures (`FanInRuns.PurgedLooksCompleted`, `FanInRuns.PurgedFires`,
  `FanInRuns.CompletedIff`, `FanInRuns.CompletedMeansAcked`).

## Model

| member | source | states |
|---|---|---|
| `Contract.SomeFirst` | crates/worklane-memory/src/lib.rs:100-118 | whenever a job of the lane is visible there is a first one by priority descending, visibility time, insertion order |
| `Contract.StepIsAllowed` | crates/worklane-memory/src/lib.rs:326-622 | every call of the in-memory broker is among the behaviours the contract allows |
| `Contract.StepLeads` | crates/worklane-memory/src/lib.rs:326-622 | every allowed call is exactly the elementary events of its log, each enabled in turn |
| `Effects.EnqueueEffect` | crates/worklane-core/src/envelope.rs:113-122 | an enqueue of a live id or a held key changes nothing and answers the holder; else exactly one job is added, behind the others, with the submitted id, lane, kind, payload, max_attempts, priority and key, no attempts, visible at now plus delay |
| `Effects.BatchEffect` | crates/worklane-memory/src/lib.rs:326-339 | an empty batch changes nothing; a longer one is its front and then an enqueue of its last job, with its answer last |
| `Effects.ClaimEffect` | crates/worklane-core/src/broker.rs:240-258 | a claim is accepted exactly above the watermark, which it moves; an accepted one adds exactly its job, unless the id is live or the key held; a refused one changes nothing |
| `Effects.UseAccepted` | crates/worklane-memory/src/lib.rs:292-315 | a use is accepted exactly when a job carries the receipt under a lease that ends after now |
| `Effects.RetryEffect` | crates/worklane-memory/src/lib.rs:421-434 | an accepted retry gives the receipt's job one attempt more (up to u32::MAX), visibility at now plus delay and no lease, and changes nothing else |
| `Effects.DeferEffect` | crates/worklane-memory/src/lib.rs:436-446 | an accepted defer does the same but for the attempts |
| `Effects.ExtendEffect` | crates/worklane-memory/src/lib.rs:459-468 | an accepted extend ends the lease one lease from now and changes nothing else |
| `Effects.AckEffect` | crates/worklane-memory/src/lib.rs:410-419 | an accepted ack removes the job and frees its key, and no record of it is kept |
| `Effects.FailEffect` | crates/worklane-memory/src/lib.rs:448-457 | an accepted fail removes the job; every dead record is an old one or the job's own, with its envelope and key, the caller's text and this instant; without bounds all of them are there |
| `Effects.RejectEffect` | crates/worklane-memory/src/lib.rs:292-315 | a rejected use clears at most the holder's expired lease |
| `Effects.RequeueEffect` | crates/worklane-memory/src/lib.rs:521-561 | each answer has its one cause; a requeued record becomes the last job, visible now, undelivered, with its envelope, attempts included, and its key |
| `Effects.PurgeEffect` | crates/worklane-memory/src/lib.rs:563-570 | a purge leaves the lane no record, counts what it dropped, and leaves every other lane as it was |
| `Effects.ListEffect` | crates/worklane-memory/src/lib.rs:498-509 | a listing is the first records of the lane in order, min(limit, count) of them |
| `Effects.CountEffect` | crates/worklane-memory/src/lib.rs:511-519 | a dead-letter count is the number of the lane's records |
| `Effects.ReadEffect` | crates/worklane-memory/src/lib.rs:470-482 | a state is live, dead-lettered or neither, as the records have it, and a pending count is the number of the lane's jobs |
| `Effects.UnscheduleEffect` | crates/worklane-memory/src/lib.rs:617-621 | removing a schedule forgets its watermark and no other |
| `Effects.ReserveEffect` | crates/worklane-memory/src/lib.rs:355-408 | on any backend a reserve hands out a job of the lane whose wait is over and whose lease, if any, has ended, within its delivery bound, under a new lease from now, while every such job of higher priority was over its bound; it hands out nothing only if all such jobs were, or the sweep reached its cap |
| `Effects.ReserveSpares` | crates/worklane-memory/src/lib.rs:355-408 | a reserve removes no other job than such ones over their bound, and adds no record but theirs, naming the bound |
| `Effects.ReserveOrder` | crates/worklane-memory/src/lib.rs:100-118 | in memory the job handed out is the earliest by priority, end of wait and age in the queue |
| `Invariant.EventKeepsInv` | crates/worklane-memory/src/lib.rs:150-204 | every event keeps live ids distinct, a lease exactly when a receipt, current receipts distinct, and the unique map exactly the held keys |
| `Receipts.RunKeepsInvariant` | crates/worklane-memory/src/lib.rs:326-622 | that invariant holds at every point of every run |
| `Receipts.ReceiptResolvesOnce` | crates/worklane-memory/src/lib.rs:292-457 | over any run, at most one final use of a given receipt takes effect |
| `Receipts.StepUsesUp` | crates/worklane-memory/src/lib.rs:410-457 | a call takes final effect on a receipt exactly when it is an ack, retry, defer or fail with that receipt and its answer is success |
| `Receipts.OneFinalUse` | crates/worklane-memory/src/lib.rs:292-457 | over any run, once one of ack, retry, defer and fail with a receipt answered success, no later one does |
| `Receipts.RunExtends` | crates/worklane-memory/src/lib.rs:326-622 | a call the contract allows in the last state of a run makes a longer run, with the call's events appended |
| `Receipts.AllowedExtends` | crates/worklane-memory/src/lib.rs:326-622 | the promise of a backend's method continues a run to the state and answer the method reports |
| `Receipts.RejectedForGood` | crates/worklane-memory/src/lib.rs:292-315 | once a use of an issued receipt is rejected, every later use is, for any clock readings |
| `Receipts.StepIssues` | crates/worklane-memory/src/lib.rs:355-408 | only a reserve issues receipts, only its own, once, exactly when it hands a job out |
| `Leases.LeaseLasts` | crates/worklane-memory/src/lib.rs:292-315 | over any run, after a reserve or an accepted extend and no other use of the receipt, a use is accepted, if and only if less than one lease duration has passed (the clock not having been later in between) |
| `Leases.LeaseExcludes` | crates/worklane-memory/src/lib.rs:355-408 | until then no reserve, on any lane, hands the job out |
| `Origins.RecordsGenuine` | crates/worklane-core/src/envelope.rs:113-122 | over any run every live job and dead record carries the lane, kind, payload, max_attempts, priority and key that some earlier call submitted under its id |
| `Origins.ReservationsGenuine` | crates/worklane-memory/src/lib.rs:355-408 | over any run every reservation carries what an earlier call submitted under its id |
| `Origins.AttemptsAreRetries` | crates/worklane-memory/src/lib.rs:421-434 | over any run the attempts of every record of a job stored once are the number of its accepted retries, up to u32::MAX |
| `HandOuts.HandOutsSeparated` | crates/worklane-memory/src/lib.rs:292-457 | two hand-outs of one job are separated by a final use of its receipt or by a call that saw its lease expired |
| `Accounting.Conservation` | crates/worklane-memory/src/lib.rs:150-204 | over any run, the times an id was stored equal its live plus dead plus acknowledged plus pruned or purged occurrences |
| `Accounting.DeliveryBound` | crates/worklane-memory/src/lib.rs:355-408 | with a bound m (below the ceiling of a count that saturates) no live job was delivered more than m times, and successful reserves number at most m per insert or requeue |
| `Accounting.BoundIff` | crates/worklane-memory/src/lib.rs:377-392 | a bound of m deliveries holds over every run, if and only if the count does not saturate or m is below its ceiling |
| `ReserveLaws.ReserveIsRight` | crates/worklane-memory/src/lib.rs:355-408 | a reserve hands out the first visible job within budget; swept jobs were visible, over budget and ahead of all visible jobs left; nothing is handed out only if nothing visible is left or the sweep cap was reached; the rest of the queue is untouched |
| `RetentionLaws.CutoffsAgree` | crates/worklane-core/src/retention.rs:72-83 | the zero-floored and the possibly negative age cutoff drop the same records |
| `RetentionLaws.TwoPassesPrune` | crates/worklane-memory/src/lib.rs:63-91 | pruning by age and then by count leaves exactly the records that are young and among the newest |
| `FailureOrder.PruneIsLongestFit` | crates/worklane-memory/src/lib.rs:63-91 | a prune keeps the longest suffix of the lane that satisfies both bounds, and other lanes whole |
| `FailureOrder.RunOrdered` | crates/worklane-memory/src/lib.rs:185-204 | under a clock that never goes back every lane's dead records stay in failure order, on any backend |
| `FailureOrder.DeadLetteringKeeps` | crates/worklane-memory/src/lib.rs:185-204 | at any point of any run, dead-lettering a job leaves its lane the longest fitting suffix of its failure order |
| `Ties.NoTieSameLetters` | crates/worklane-redis/src/scripts.rs:46-71 | without a record of the same instant, every allowed placement leaves every lane the same dead letters in the same order |
| `Ties.OrderIff` | crates/worklane-redis/src/scripts.rs:44-71 | under every retention, the letters a lane keeps are determined exactly when no record of the lane shares the instant or nothing is kept |
| `RedisTies.FiledLastIff` | crates/worklane-redis/src/scripts.rs:44-51 | Redis files a dead record last in its lane exactly when no record of that lane and instant has a larger sequence number |
| `RedisTies.SameOrderIff` | crates/worklane-redis/src/scripts.rs:38-71 | under every retention, a Redis burial leaves the lane what an in-memory burial leaves, exactly when the record was filed last or nothing is kept |
| `RedisTies.MemoryKeepsNewest` | crates/worklane-memory/src/lib.rs:185-204 | with a count bound of one, memory keeps the job that failed last |
| `Differences.TieRun` | crates/worklane-redis/src/scripts.rs:38-71 | with a count bound of one, a enqueued and reserved, then b, then b and a failed at one instant: Redis lists b and memory lists a |
| `Batches.UnnestIsRowByRow` | crates/worklane-postgres/src/lib.rs:440-471 | the keyless multi-row insert stores the same rows in the same order and returns the same ids as row by row |
| `Batches.BatchSplits` | crates/worklane-memory/src/lib.rs:326-339 | a batch is its parts inserted one after the other at one instant, in state and answers |
| `Batches.SharedKeyOneId` | crates/worklane-memory/src/lib.rs:326-339 | new jobs of a batch that share a key all get the id of the key's first holder |
| `Batches.InstantsDoNotMatter` | crates/worklane-redis/src/lib.rs:293-328 | a batch that reads the clock per job gives the answers and, but for visibility times, the jobs of a single instant |
| `Batches.EachExtends` | crates/worklane-redis/src/lib.rs:293-328 | a batch that reads the clock per job continues a run as that many enqueues, with their states and answers |
| `Memory.PickBest` | crates/worklane-memory/src/lib.rs:100-118 | finds the first visible job, or reports none exactly when none is visible |
| `Memory.RetainYoung` | crates/worklane-memory/src/lib.rs:67-72 | keeps exactly the records inside the age bound and those of other lanes |
| `Memory.RetainNewest` | crates/worklane-memory/src/lib.rs:73-90 | keeps exactly the newest records of the lane up to the bound and those of other lanes |
| `Memory.InMemoryBroker.constructor` | crates/worklane-memory/src/lib.rs:226-240 | a new broker is empty |
| `Memory.InMemoryBroker.InsertOne` | crates/worklane-memory/src/lib.rs:150-179 | a live id wins, then a held key, else the job is stored last and holds its key |
| `Memory.InMemoryBroker.PruneDead` | crates/worklane-memory/src/lib.rs:63-91 | the two passes leave the contract's prune |
| `Memory.InMemoryBroker.DeadLetterAt` | crates/worklane-memory/src/lib.rs:185-204 | the job leaves the queue, frees its key, and its record is filed last and its lane pruned |
| `Memory.InMemoryBroker.FindCurrentReceipt` | crates/worklane-memory/src/lib.rs:292-315 | finds the holder of a current receipt, or clears an expired lease and rejects as the contract does for every use |
| `Memory.InMemoryBroker.Enqueue` | crates/worklane-memory/src/lib.rs:344-349 | refuses an over-cap payload unchanged, else is the contract's enqueue |
| `Memory.InMemoryBroker.EnqueueBatch` | crates/worklane-memory/src/lib.rs:326-339 | refused without change exactly when some payload is over the cap, else the contract's batch |
| `Memory.InMemoryBroker.ReleaseExpired` | crates/worklane-memory/src/lib.rs:360-368 | clears every expired lease on every lane and nothing else |
| `Memory.InMemoryBroker.Reserve` | crates/worklane-memory/src/lib.rs:355-408 | the bounded sweep is the contract's reserve, in state and answer |
| `Memory.InMemoryBroker.Ack` | crates/worklane-memory/src/lib.rs:410-419 | is the contract's ack, in state and in accepting or rejecting the receipt |
| `Memory.InMemoryBroker.Retry` | crates/worklane-memory/src/lib.rs:421-434 | is the contract's retry: attempts advance, the lease ends, the job waits |
| `Memory.InMemoryBroker.Defer` | crates/worklane-memory/src/lib.rs:436-446 | is the contract's defer: as retry but the attempts stay |
| `Memory.InMemoryBroker.Fail` | crates/worklane-memory/src/lib.rs:448-457 | is the contract's fail: the job moves to the dead letters |
| `Memory.InMemoryBroker.Extend` | crates/worklane-memory/src/lib.rs:459-468 | is the contract's extend: only the lease end moves |
| `Memory.InMemoryBroker.Requeue` | crates/worklane-memory/src/lib.rs:521-561 | no record, a live id, a held key, or the record goes live again with a fresh delivery count, each answered as the contract does |
| `Memory.InMemoryBroker.EnqueueScheduled` | crates/worklane-memory/src/lib.rs:589-615 | accepted exactly when the occurrence is above the watermark, which then moves, and the job is inserted |
| `Memory.InMemoryBroker.RemoveSchedule` | crates/worklane-memory/src/lib.rs:617-621 | forgets the watermark and nothing else |
| `Memory.InMemoryBroker.PurgeDeadLetters` | crates/worklane-memory/src/lib.rs:563-570 | drops exactly the lane's dead records and counts them |
| `SqliteDead.NumsCount` | crates/worklane-sqlite/src/dead_letters.rs:29-36 | counting a lane's row keys from a row's own equals counting its records from there on |
| `SqliteDead.PruneMatches` | crates/worklane-sqlite/src/dead_letters.rs:13-38 | the two DELETE statements leave exactly the contract's prune |
| `SqliteDead.KeyOfRow` | crates/worklane-sqlite/src/dead_letters.rs:48-56 | the side table holds a key for a row exactly when the row's job holds it |
| `SqliteDead.SoundBuried` | crates/worklane-sqlite/src/dead_letters.rs:40-75 | filing the record, freeing the key, deleting the row and pruning keep all tables in agreement with the contract's burial |
| `SqliteDead.SoundRevived` | crates/worklane-sqlite/src/lib.rs:563-646 | the revived row, its key and the deleted record keep all tables in agreement with the contract's requeue |
| `SqliteTables.SoundNew` | crates/worklane-sqlite/src/jobs.rs:48-76 | a row under the largest key plus one keeps the tables in step, also when that key was used before |
| `SqliteTables.SoundPut` | crates/worklane-sqlite/src/lib.rs:388-440 | changing one row together with its job keeps the tables in step |
| `SqliteTables.SoundWithout` | crates/worklane-sqlite/src/lib.rs:372-386 | deleting a row and its side-table entry keeps the tables in step |
| `Sqlite.KeyFirstIff` | crates/worklane-sqlite/src/jobs.rs:32-46 | the key-first answer equals the in-memory one exactly when the id is not live with its key held by another job |
| `Differences.ClashRun` | crates/worklane-sqlite/src/jobs.rs:32-46 | enqueue x without a key, y with a key, x with that key: SQLite answers y and memory answers x |
| `Widths.OverIff` | crates/worklane-sqlite/src/lib.rs:341 | the 64-bit delivery test agrees with the saturating one exactly when not at the largest bound with a full count |
| `Widths.ConfigsAre` | crates/worklane-core/src/retention.rs:55-83 | every broker acts on the operator's lease, age and delivery bound; the durable ones cap the count bound at i64::MAX, and Redis differs only on a bound of 0 |
| `Widths.WidthsAgree` | crates/worklane-memory/src/lib.rs:377-408 | unless a count is full at the largest bound, every call does the same to both widths, in state, answer and events |
| `Widths.WidthsAgreeOverRuns` | crates/worklane-memory/src/lib.rs:326-622 | over every sequence of calls from an empty store both widths give the same answers and events, as long as no count is full at the largest bound |
| `Sqlite.BestIff` | crates/worklane-sqlite/src/lib.rs:294-302 | the ordered query's first row is exactly the contract's first job, and there is one exactly when a job is visible |
| `Sqlite.ValidRowIff` | crates/worklane-sqlite/src/jobs.rs:7-25 | a row passes the receipt check exactly when the contract's holder has a running lease |
| `Sqlite.SqliteBroker.constructor` | crates/worklane-sqlite/src/lib.rs:112-123 | empty tables stand for the empty store |
| `Sqlite.SqliteBroker.InsertJob` | crates/worklane-sqlite/src/jobs.rs:27-78 | the store changes as the contract's insert, the answer is the key-first one |
| `Sqlite.SqliteBroker.Enqueue` | crates/worklane-sqlite/src/lib.rs:259-268 | the contract's enqueue; the answer differs exactly on a clash |
| `Sqlite.SqliteBroker.EnqueueBatch` | crates/worklane-sqlite/src/lib.rs:241-254 | the contract's batch; each answer differs exactly on a clash at its turn |
| `Sqlite.SqliteBroker.FindValidRow` | crates/worklane-sqlite/src/jobs.rs:7-25 | finds the contract's current holder, or rejects as the contract does for every use |
| `Sqlite.SqliteBroker.Ack` | crates/worklane-sqlite/src/lib.rs:372-386 | equals the in-memory ack in state and answer |
| `Sqlite.SqliteBroker.Retry` | crates/worklane-sqlite/src/lib.rs:388-419 | equals the in-memory retry in state and answer |
| `Sqlite.SqliteBroker.Defer` | crates/worklane-sqlite/src/lib.rs:421-440 | equals the in-memory defer in state and answer |
| `Sqlite.SqliteBroker.Extend` | crates/worklane-sqlite/src/lib.rs:463-485 | equals the in-memory extend in state and answer |
| `Sqlite.SqliteBroker.DeadLetterSeq` | crates/worklane-sqlite/src/dead_letters.rs:40-75 | equals the in-memory dead-lettering |
| `Sqlite.SqliteBroker.Fail` | crates/worklane-sqlite/src/lib.rs:442-461 | equals the in-memory fail in state and answer |
| `Sqlite.SqliteBroker.BestRow` | crates/worklane-sqlite/src/lib.rs:326-340 | finds exactly the job the in-memory broker would pick |
| `Sqlite.SqliteBroker.ReserveUnbounded` | crates/worklane-sqlite/src/lib.rs:291-312 | the one-statement path equals the in-memory sweep without a bound |
| `Sqlite.SqliteBroker.ReserveBounded` | crates/worklane-sqlite/src/lib.rs:318-365 | the sweeping path equals the in-memory sweep, cap included, with the count in 64 bits |
| `Sqlite.SqliteBroker.Reserve` | crates/worklane-sqlite/src/lib.rs:274-370 | equals the in-memory reserve in state and answer, with the count in 64 bits |
| `Sqlite.SqliteBroker.Requeue` | crates/worklane-sqlite/src/lib.rs:563-646 | equals the in-memory requeue, every error case included |
| `Sqlite.SqliteBroker.PurgeDeadLetters` | crates/worklane-sqlite/src/lib.rs:648-658 | equals the in-memory purge, count included |
| `Sqlite.SqliteBroker.EnqueueScheduled` | crates/worklane-sqlite/src/schedules.rs:11-41 | the conditional upsert accepts exactly what the in-memory broker accepts, with the same effect |
| `Sqlite.SqliteBroker.RemoveSchedule` | crates/worklane-sqlite/src/schedules.rs:43-54 | equals the in-memory removal |
| `Sqlite.SqliteBroker.Classify` | crates/worklane-sqlite/src/lib.rs:487-502 | live, dead-lettered or neither, as the store has it |
| `Sqlite.SqliteBroker.CountDeadLetters` | crates/worklane-sqlite/src/lib.rs:547-561 | equals a full scan of the store's dead records of the lane |
| `Sqlite.SqliteBroker.ReadDeadLetters` | crates/worklane-sqlite/src/lib.rs:521-545 | the lane's dead letters in failure order up to the limit |
| `Sqlite.SqliteBroker.PendingCount` | crates/worklane-sqlite/src/lib.rs:663-677 | equals a full scan of the store's live jobs of the lane |
| `RedisLive.LaneIndexPut` | crates/worklane-redis/src/scripts.rs:85-93 | after writing a hash and its member, every hash has exactly its own member in its own ZSET at its own score, and nothing else is there |
| `RedisState.GuardFinds` | crates/worklane-redis/src/scripts.rs:176-188 | the GUARD prologue passes exactly when the contract's holder of the receipt has a running lease, and finds its job |
| `RedisDead.DeadAdd` | crates/worklane-redis/src/scripts.rs:44-51 | a dead record filed at its rank keeps dead ZSETs and hashes in bijection, and has the same rank among its lane in the store's list, an allowed place |
| `RedisDead.DeadPrune` | crates/worklane-redis/src/scripts.rs:56-70 | cutting a dead ZSET by score and then by rank is the contract's prune |
| `RedisBury.BuryTracks` | crates/worklane-redis/src/scripts.rs:38-71 | `dead_letter_move` on both halves of the key space is a burial the contract allows, at the place given by instant and sequence number |
| `RedisBury.ReviveTracks` | crates/worklane-redis/src/scripts.rs:195-219 | a requeue moves exactly the one record, under a fresh sequence number, as the contract does |
| `RedisSound.GuardIff` | crates/worklane-redis/src/scripts.rs:176-188 | in an agreeing key space the receipt check decides exactly as the contract |
| `RedisSound.DueIsTop` | crates/worklane-redis/src/scripts.rs:145-155 | a due member of the highest level in play is a visible job of top priority |
| `RedisSound.LeastDueIsFirst` | crates/worklane-redis/src/scripts.rs:145-154 | without stale leases on the lane, the least due member is exactly the contract's first job |
| `RedisSound.SweepFollows` | crates/worklane-redis/src/scripts.rs:146-172 | a sweep that takes the first job at every turn ends with the queue and the answer of the in-memory sweep, whatever the order of dead records |
| `RedisSound.OverIff` | crates/worklane-redis/src/lib.rs:378-386 | the script's delivery test is the contract's under the settings as Redis reads them, 0 being no bound |
| `Differences.RedisActsAlikeIff` | crates/worklane-redis/src/lib.rs:378-386 | on every store every call under the settings as Redis reads them acts as under those of the SQL brokers, if and only if neither bound is 0 |
| `Differences.ZeroDeliveriesRun` | crates/worklane-redis/src/scripts.rs:156-165 | with max_deliveries 0, Redis hands a fresh job out and memory dead-letters it |
| `Differences.HandsOut` | crates/worklane-memory/src/lib.rs:355-408 | when one job of the lane is visible, within budget, and no lease has run out, every allowed reserve hands out that job and changes nothing else |
| `Differences.ZeroCountRun` | crates/worklane-redis/src/scripts.rs:63-70 | with max_count 0 and any max_age, after enqueue, reserve and fail Redis lists one dead letter and memory none |
| `RedisReads.LevelCount` | crates/worklane-redis/src/scripts.rs:264-272 | ZCARD of a lane ZSET is the number of jobs of that lane and priority |
| `RedisReads.LettersAre` | crates/worklane-redis/src/lib.rs:556-605 | reading the dead ZSET in rank order and then each hash gives the store's listing of the lane |
| `Redis.RedisBroker.constructor` | crates/worklane-redis/src/lib.rs:124-157 | an empty key space stands for the empty store |
| `Redis.RedisBroker.PruneLane` | crates/worklane-redis/src/scripts.rs:56-70 | drops exactly the entries cut by age and then count, with their hashes |
| `Redis.RedisBroker.DeadLetterMove` | crates/worklane-redis/src/scripts.rs:38-71 | all indexes agree afterwards, and the store moved by a burial the contract allows, at the place given by instant and sequence number |
| `Redis.RedisBroker.EnqueueOne` | crates/worklane-redis/src/scripts.rs:74-95 | all indexes agree afterwards, and store and answer are those of the contract's insert |
| `Redis.RedisBroker.Enqueue` | crates/worklane-redis/src/lib.rs:333-366 | an enqueue the contract allows, all indexes agreeing |
| `Redis.RedisBroker.EnqueueBatch` | crates/worklane-redis/src/scripts.rs:97-137 | the contract's inserts in turn, each at its own clock reading |
| `Redis.RedisBroker.Guard` | crates/worklane-redis/src/scripts.rs:176-188 | the current holder of the receipt, or a rejection the contract gives for every use |
| `Redis.RedisBroker.Ack` | crates/worklane-redis/src/scripts.rs:296-306 | an ack the contract allows, all indexes agreeing |
| `Redis.RedisBroker.Retry` | crates/worklane-redis/src/scripts.rs:308-319 | a retry the contract allows, all indexes agreeing |
| `Redis.RedisBroker.Defer` | crates/worklane-redis/src/scripts.rs:321-331 | a defer the contract allows, all indexes agreeing |
| `Redis.RedisBroker.Fail` | crates/worklane-redis/src/scripts.rs:333-340 | a fail the contract allows, all indexes agreeing, the record filed by instant and sequence number |
| `Redis.RedisBroker.Extend` | crates/worklane-redis/src/scripts.rs:342-350 | an extend the contract allows, all indexes agreeing |
| `Redis.RedisBroker.SweepLevel` | crates/worklane-redis/src/scripts.rs:151-170 | one level sweeps and picks only top-priority visible jobs, and the first one at every turn when no lease on the lane is stale |
| `Redis.RedisBroker.Reserve` | crates/worklane-redis/src/scripts.rs:139-174 | a reserve the contract allows, all indexes agreeing; an error exactly when the handed-out job's stored attempts exceed u32; when no job on the lane holds an expired lease, queue and answer are exactly those of the contract's own reserve, sweep included |
| `Redis.RedisBroker.Requeue` | crates/worklane-redis/src/scripts.rs:195-219 | the contract's requeue, every error case included, all indexes agreeing |
| `Redis.RedisBroker.PurgeDeadLetters` | crates/worklane-redis/src/scripts.rs:221-229 | the contract's purge, count included |
| `Redis.RedisBroker.EnqueueScheduled` | crates/worklane-redis/src/scripts.rs:231-262 | comparing watermark texts accepts exactly what the contract accepts, with the same effect |
| `Redis.RedisBroker.RemoveSchedule` | crates/worklane-redis/src/lib.rs:774-781 | the contract's removal |
| `Redis.RedisBroker.Classify` | crates/worklane-redis/src/scripts.rs:279-282 | live, dead-lettered or neither, as the store has it |
| `Redis.RedisBroker.CountDeadLetters` | crates/worklane-redis/src/lib.rs:607-615 | ZCARD equals a full scan of the store's dead records of the lane |
| `Redis.RedisBroker.ReadMembers` | crates/worklane-redis/src/lib.rs:564-568 | the first round trip: the ids of the first dead records of the lane in the store's order |
| `Redis.RedisBroker.FetchLetters` | crates/worklane-redis/src/lib.rs:572-604 | the second round trip, in any later state: the records still dead, in the order of the ids, and an error exactly when a fetched count exceeds u32 |
| `Redis.RedisBroker.ReadDeadLetters` | crates/worklane-redis/src/lib.rs:556-605 | with nothing in between, the store's dead letters of the lane in order up to the limit, and an error exactly when a listed count exceeds u32 |
| `Redis.RedisBroker.PendingCount` | crates/worklane-redis/src/scripts.rs:264-272 | the sum of ZCARD over the active priorities equals a full scan of the store's live jobs of the lane |
| `Encoding.WatermarkOrder` | crates/worklane-redis/src/lib.rs:753-760 | for all i64 values the 20-digit offset texts compare as the integers do |
| `Encoding.FifoIdInverts` | crates/worklane-redis/src/scripts.rs:21-26 | the member text gives its id back, whatever characters the id holds |
| `Encoding.FifoOrder` | crates/worklane-redis/src/scripts.rs:21-26 | member texts sort by sequence number, and by id only between equal numbers |
| `Locks.LockOrder` | crates/worklane-postgres/src/lib.rs:501-506 | the lock list is strictly ascending and holds exactly the batch's keys |
| `Locks.ReachedInv` | crates/worklane-postgres/src/lib.rs:492-517 | in every reachable state no lock is held by two batches |
| `Locks.Progress` | crates/worklane-postgres/src/lib.rs:492-517 | if keys in play that share a lock are neighbours among them, every state with an unfinished batch has a batch that can step |
| `Locks.CrossedStuck` | crates/worklane-postgres/src/lib.rs:270-279 | a collision across an interleaved key lets two batches block each other for good |
| `Locks.NeverStuckIff` | crates/worklane-postgres/src/lib.rs:492-517 | batches over a set of keys never get stuck, if and only if keys of the set that share a lock are neighbours in it |
| `Locks.DistinctLocksNeverStuck` | crates/worklane-postgres/src/lib.rs:492-517 | batches over keys with distinct locks never get stuck |
| `Locks.AllCommit` | crates/worklane-postgres/src/lib.rs:492-517 | under that condition, from every reachable state, stepping whoever can step commits every batch |
| `FleetEvents.EventRefs` | crates/worklane/src/worker/execution.rs:243-271 | blob references appear only with a stored job, and an acknowledgement takes its job's away |
| `FleetLaws.ActKeepsBudget` | crates/worklane/src/worker/execution.rs:466-515 | every step of any client or worker keeps attempts in budget and workers' copies true |
| `FleetLaws.AttemptBudget` | crates/worklane/src/worker/execution.rs:466-515 | in every interleaving every live and dead job has attempts below max(1, max_attempts), and a worker's copy equals the stored job while its receipt is current |
| `FleetLaws.ActKeepsBlobs` | crates/worklane/src/client.rs:95-151 | every step but a harmful lost reply keeps each blob with at most one owner and present while referenced |
| `FleetLaws.BlobSafety` | crates/worklane/src/worker/execution.rs:312-353 | over every run whose lost replies are all harmless no live or dead record refers to a deleted blob, and a worker with a current receipt finds its payload |
| `FleetLaws.LossBreaks` | crates/worklane/src/client_builder.rs:44-63 | a stored enqueue reported as failed leaves a live job whose blob was deleted |
| `FleetLaws.LostIff` | crates/worklane/src/client.rs:95-151 | a lost reply followed by the client's clean-up keeps blobs safe, if and only if the payload is inline or the insert stored nothing |
| `FleetLaws.SafeIffHarmless` | crates/worklane/src/client_builder.rs:44-63 | after a step every harmless continuation is blob-safe, if and only if the step was no lost reply that stored a reference |
| `BlobLeaks.AckThenDelete` | crates/worklane/src/worker/execution.rs:243-271 | an acknowledged job's blob becomes the worker's to delete, and the delete removes it and no other |
| `BlobLeaks.DedupThenDelete` | crates/worklane/src/client.rs:95-151 | a client answered with another job's id deletes the blob it offloaded, else it keeps it |
| `BlobLeaks.TakeThenRun` | crates/worklane/src/worker/execution.rs:312-353 | a worker runs exactly the reservation it was handed, which is the stored job |
| `BlobLeaks.NothingLeaks` | crates/worklane/src/client.rs:95-151 | without retention bounds, over every run with new ids, no purge and no crash of a task that holds a blob, every stored blob has an owner, and exactly one if lost replies are harmless |
| `FleetRuns.FleetIsRun` | crates/worklane/src/worker/execution.rs:243-271 | in every interleaving the calls of clients, workers and operators are a run of the broker on fresh receipts that ends in the fleet's store |
| `FleetRuns.ActTasks` | crates/worklane/src/worker/execution.rs:243-271 | an act changes one task at most; a heartbeat or an operator's call changes none, and a crashed task is idle |
| `FanIn.Validate` | crates/worklane/src/workflow.rs:214-277 | accepts exactly the well-formed payloads, and each complaint is true of the payload |
| `FanIn.Restore` | crates/worklane/src/workflow.rs:286-310 | fails exactly on an unknown or repeated capture, else gives every dependency the value captured for it |
| `FanIn.Checkpoint` | crates/worklane/src/workflow.rs:312-348 | fails exactly when earlier captures repeat or one has no slot, else lists exactly the filled slots, old captures first in their order, new ones in dependency order |
| `FanIn.RoundTrip` | crates/worklane/src/workflow.rs:286-348 | restoring a checkpoint gives the slots back |
| `FanIn.Run` | crates/worklane/src/workflow.rs:365-529 | refuses exactly ill-formed payloads; fails exactly when an uncaptured dependency polled dead-lettered, or completed without a result, naming the first and which it was; fires exactly when every dependency is captured or polled completed with a result; else gives up or reschedules |
| `FanIn.VerdictIs` | crates/worklane/src/workflow.rs:419-529 | each verdict has exactly its condition on polls, captures and generation |
| `FanIn.VerdictCarries` | crates/worklane/src/workflow.rs:312-348 | a fired callback gets, and a rescheduled payload captures, for each dependency its earlier capture or else its polled result; what stays uncaptured is exactly what was polled live |
| `FanIn.NextIsSound` | crates/worklane/src/workflow.rs:419-451 | a rescheduled payload passes validation, restores to this run's slots and keeps every capture |
| `FanIn.ChainBounded` | crates/worklane/src/workflow.rs:419-432 | a fan-in runs at most max_generations times |
| `FanIn.CapturesStay` | crates/worklane/src/workflow.rs:312-348 | captured values never change and never disappear |
| `FanIn.CallbackIsRight` | crates/worklane/src/workflow.rs:452-529 | a fired callback gets at index i the bytes some run of the chain read for dependency i after seeing it completed |
| `FanInRuns.CompletedIff` | crates/worklane/src/workflow.rs:126-130 | over any run, for a job stored once, the state `CompletedOrUnknown` means acked, if and only if no dead record of it was pruned or purged |
| `FanInRuns.CompletedMeansAcked` | crates/worklane/src/workflow.rs:126-130 | with unbounded retention and no purge, a job stored once is in that state, if and only if it was acked |
| `FanInRuns.UnknownLooksCompleted` | crates/worklane/src/workflow.rs:126-130 | a job never stored is in that state too |
| `FanInRuns.PurgedLooksCompleted` | crates/worklane/src/workflow.rs:126-130 | a run after which a job that was dead-lettered and purged, never acked, is in that state |
| `FanInRuns.PurgedFires` | crates/worklane/src/workflow.rs:452-529 | a fan-in over that dependency fires its callback with a result left behind, and fails when there is none |
| `FanInRuns.CallbackAfterAcks` | crates/worklane/src/workflow.rs:452-529 | with polls that report the broker's own states at points of a run, every dependency of a fired callback was acked when the run that captured it polled, provided no record of a dependency was dropped |
| `Callbacks.SecondFiringIff` | crates/worklane/src/client.rs:310-317 | over any run in which one job was stored under the callback key, a further firing stores a second callback, if and only if the first is no longer live; else it answers the first and changes nothing |
| `Scheduler.AcceptedIncrease` | crates/worklane-scheduler/src/lib.rs:384-403 | whichever instances call, accepted occurrences of a schedule strictly increase while it is not removed |
| `Scheduler.ClaimIff` | crates/worklane-memory/src/lib.rs:589-621 | over any run, a claim is accepted, if and only if its occurrence exceeds every one accepted since the schedule was last removed |
| `Scheduler.OneJobPerClaim` | crates/worklane-memory/src/lib.rs:589-615 | an accepted occurrence stores exactly one job, and none only if its id is live or its key held; a refused one stores none |
| `Scheduler.ClaimedJobWaits` | crates/worklane-memory/src/lib.rs:589-615 | over any run, the job of an accepted occurrence whose id was never stored is live, as submitted |
| `Scheduler.FreshAfterRemoval` | crates/worklane-core/src/broker.rs:260-268 | the first claim after a removal is accepted, whatever its occurrence |
| `Scheduler.FiringsIncrease` | crates/worklane-scheduler/src/lib.rs:314-344 | within one instance fired occurrences strictly increase, also as whole seconds |
| `Scheduler.TurnFiresOnce` | crates/worklane-scheduler/src/lib.rs:314-344 | a due entry's turn fires the occurrence its cursor stood at, once, and moves the cursor past the end of the firing |
| `Scheduler.CronScheduler.constructor` | crates/worklane-scheduler/src/lib.rs:282-287 | each cursor starts at the first occurrence after now |
| `Scheduler.CronScheduler.FireDue` | crates/worklane-scheduler/src/lib.rs:314-344 | every due entry fires once and its cursor skips all that was due before the fire ended; nothing else fires; unless resilient, the first failure stops the loop: entries before it had their turn, it and the later ones are untouched |
| `Backoff.DelayIsFormula` | crates/worklane-core/src/retry.rs:45-54 | the saturating arithmetic equals min(base*factor^attempts, cap, 2^64-1) for all inputs |
| `Backoff.DelayGrows` | crates/worklane-core/src/retry.rs:45-54 | delays never shrink with attempts when the factor is at least one, and stay within the cap |
| `Backoff.IdleWait` | crates/worklane/src/worker/mod.rs:202-213 | the doubling loop equals min(base*2^n, max(cap, base)) |
| `Clocks.WallClock.Now` | crates/worklane-core/src/clock.rs:165-172 | readings never go back, and each is the raw clock or the previous floor |
| `Clocks.WallClock.ObserveForwardJump` | crates/worklane-core/src/clock.rs:144-161 | counts exactly the jumps beyond the threshold from a real earlier reading |
| `ClaimCheck.ReferenceIff` | crates/worklane-core/src/payload_store.rs:68-81 | a payload carries a key exactly when it is the reference made for that key |
| `ClaimCheck.JsonIsNoReference` | crates/worklane-core/src/payload_store.rs:61-65 | a payload that starts as JSON does is never taken for a reference |

## Left out

- Redis.RedisBroker.Enqueue: does not model that an empty unique-key text means no key, because keys are integers here.
- Memory.InMemoryBroker.Enqueue: takes the payload size as a parameter, because payload bytes are opaque; the encoded-size cap of the durable backends is not modelled.
- FanIn.Run: takes the assembly's decision as a function defined here (an impossible finding wins, produced values fill their slots), because the `lengkap` crate is not part of this model.
- Scheduler.CronScheduler.FireDue: takes `next_after` as any function to a strictly later whole second, because cron parsing, time zones and the sleep are not part of this model.
- Locks.NeverStuckIff: covers the advisory locks only, because row locks belong to the server; two keyed batches that share two job ids in opposite order can also block each other on the `ON CONFLICT (id)` insert.
- Postgres row operations beyond batches and locks: reserve, resolve and requeue issue the statements modelled for SQLite under row locks whose semantics belong to the server; the unique-key claim loop is taken by its committed effect.
- The in-memory reads (classify, dead-letter listing and counts, pending count): they are the contract's own definitions.
- The trace context an envelope carries for observers: no call reads it.
- Redis ZSET scores as floating-point numbers: times are exact integers here.
- `delay_for_seeded` jitter: floating point.
- Handlers, middleware, heartbeat timers, the circuit breaker, observers: a worker's choice between ack, retry, defer and fail is left open, so every choice is covered.
- Multi-lane enqueue: a batch behaves as its jobs enqueued in turn (`Batches.BatchSplits`), so it needs no step of its own in the fleet.
- JSON encoding, lane and identifier checks, credential redaction, schema set-up, connection handling, result stores, the command line: they hold no state of the job lifecycle.
- 64-bit counters (stored delivery counts and attempts, row keys, the Redis sequence): their overflow is not modelled.
