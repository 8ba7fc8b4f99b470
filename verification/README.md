# A verified model of the customer service's event pipeline

This project models, in Dafny, the way a change to a customer travels through the
service: the transaction that writes the row and its event together, the transactional
outbox that leases messages to concurrent pollers and retries them, the bounded worker
pool that delivers them, the deduplicating Kafka consumer, and, beside that path, the
cache in front of the customer queries and the event log that clients watch.
`dafny verify dfyconfig.toml` checks all of it.

There are two layers. Code that changes state in place is modelled by classes whose
methods have the source's branches and loops; their contracts tie the new state to
specification functions. What the system promises over whole runs is proved about step
systems built from the same functions, in which calls of any number of processes
interleave and fail at every point. `OutboxRefinement` and the lemmas named
`...IsRun` and `CallsAreSteps` connect the two layers: a tick of the poller, a
delivery, a request, a cached read and a tick of the watch are runs of the step
systems.

- `OutboxTable`, `PostgresOutbox`, `Poller`, `WorkerPool`: the outbox table, its
  statements, the poller and the pool.
- `OutboxProtocol`: the step system of the outbox. `OutboxSafety` proves what holds in
  every run, late and duplicate holders of a message included; `OutboxLease` what holds
  for a message each of whose deliveries ends within the reclaim window of its claim,
  whatever happens to other messages; `OutboxStranding` that this assumption is needed,
  and exactly when; `OutboxPools` that each process in it works as a worker pool;
  `OutboxRefinement` that the methods are steps of it.
- `CustomerService`, `CustomerJournal`: checks, transactions, and the journal they leave.
- `CustomerCache`, `CacheAgreement`, `CacheStaleness`: cached reads, one at a time and
  interleaved.
- `KafkaProducer`, `EventConsumer`, `EndToEnd`: the producer, the consumer, its
  middleware, and the whole path as one system in which a commit writes customer,
  journal and outbox row together.
- `TimestampKey`, `EventLog`, `WatchCursor`: text timestamps, the log, the stream.

Some properties one would expect are false of the code. For each there is a theorem that
says exactly when it holds.

- A row can become unclaimable without having been delivered or retired. Marks address
  rows by id alone and the retry decision uses the attempts seen at the claim, so two
  late holders can do it. This is reachable for every ceiling except one attempt
  (`StrandingReachableIff`), by one kind of step only (`StrandingStepIff`), and never
  under the timing assumption (`NeverStranded`).
- The age of a cached customer is bounded only if the configured TTL is positive
  (`StalenessBoundedIff`).
- Draining the pool runs every accepted job only if there is a worker or nothing is
  queued (`DrainedIff`); the worker count is configured without a check.
- Registering a taken email fails, but is reported as such only if the email was typed in
  its normal form (`DuplicateReportedIff`).
- The text order of log timestamps is the time order except within one second when one
  written fraction continues the other (`KeyOrderIff`), and such an event is never sent
  to a watcher that is already past it (`LaterEventLostIff`).
- Deduplicating middleware in front of the handler changes nothing only if no middleware
  value occurs twice in the chain (`TransparentIff`).

Where comments or documentation and code differ, the model follows the code:

- After a full pool the rest of the batch is not retried on the next tick
  (`internal/outbox/poller.go:91`, `docs/worker-outbox.md:180`): its rows stay locked
  until the reclaim window has passed (`PoolFullLosesNothing`).
- A failed message is not retried on the very next tick (`docs/worker-outbox.md:322-323`)
  but after its backoff (`MarkOutcome`).
- Registering a customer does not invalidate the cached list
  (`docs/cache-redis.md:368`): the list may lack new customers until it expires
  (`SerialAgreement`).
- `RETURNING` gives no order, so only which rows a claim returns is stated, not in which
  order.

## Model

| member | source | states |
|---|---|---|
| PostgresOutbox.PostgresOutboxStore.SaveTx | internal/outbox/postgres.go:23-32 | inserts an unclaimed, unprocessed row without attempts, claimable at once, or fails on a used id; a lost reply still leaves the row |
| PostgresOutbox.PostgresOutboxStore.Oldest | internal/outbox/postgres.go:49 | finds a row that no other candidate precedes |
| PostgresOutbox.PostgresOutboxStore.Select | internal/outbox/postgres.go:44-51 | picks exactly min(limit, candidates) distinct eligible rows that nobody else has locked, none younger than a candidate left behind |
| PostgresOutbox.PostgresOutboxStore.ClaimBatch | internal/outbox/postgres.go:39-82 | writes only locked_at on exactly the picked rows; it succeeds if and only if the statement did, its reply arrived and every row scans, and then returns each picked row's message, attempts and last error as they stood |
| PostgresOutbox.OldestTaken | internal/outbox/postgres.go:44-51 | row by row: every picked row is eligible and free, and an eligible free row is left behind only by a full batch of rows that are no younger |
| PostgresOutbox.PostgresOutboxStore.MarkProcessed | internal/outbox/postgres.go:84-93 | sets processed_at of the one row; reports success exactly when the statement did |
| PostgresOutbox.PostgresOutboxStore.MarkFailed | internal/outbox/postgres.go:95-111 | counts the attempt on the row's own counter, records the reason, unlocks, and sets the retry time; nothing else changes |
| PostgresOutbox.PostgresOutboxStore.MarkExhausted | internal/outbox/postgres.go:113-129 | counts the attempt, records the reason, unlocks and retires the row |
| OutboxPoller.Poller.constructor | internal/outbox/poller.go:39-58 | a poller over the given store, pool and settings |
| OutboxPoller.Poller.Backoff | internal/outbox/poller.go:119-132 | the doubling loop returns min(interval * 2^attempts, 5 min) for every positive 64-bit interval, and no product leaves 64 bits |
| OutboxPoller.DelayMonotone | internal/outbox/poller.go:119-132 | the delay never shrinks as attempts grow |
| OutboxPoller.DelayDoubles | internal/outbox/poller.go:119-132 | the delay starts at the interval and doubles with each attempt, never above five minutes |
| OutboxPoller.Poller.Deliver | internal/outbox/poller.go:96-117 | one delivery applies the one mark that its publish result and the attempts seen at the claim call for; it succeeds exactly when publish and mark both do |
| OutboxPoller.Poller.Poll | internal/outbox/poller.go:75-94 | one tick locks the oldest eligible rows, and the longest prefix of the batch for which the pool has room enters it, in order, each message once; a claim that reports an error submits nothing, though its rows may be locked |
| OutboxPoller.Poller.SubmitBatch | internal/outbox/poller.go:84-93 | submits a prefix of the batch and stops short only at a full queue |
| WorkerPool.Pool.constructor | internal/worker/pool.go:39-49 | an idle pool of the given size |
| WorkerPool.Pool.Submit | internal/worker/pool.go:64-73 | enqueues exactly when there is room; a rejected job changes nothing |
| WorkerPool.Pool.StartNext | internal/worker/pool.go:54-56 | an idle worker takes the head of the queue |
| WorkerPool.Pool.FinishOne | internal/worker/pool.go:57-60 | a job that returns, with an error or not, is counted once and frees its worker |
| WorkerPool.Pool.Stop | internal/worker/pool.go:75-86 | terminates whatever order the workers take; with a worker every accepted job has then run exactly once, and the result is accepted minus finished at entry |
| WorkerPool.PoolConservation | internal/worker/pool.go:39-73 | in every reachable state accepted = queued + running + executed, both bounds hold, and jobs start in acceptance order |
| WorkerPool.CloseOnlyCloses | internal/worker/pool.go:81-84 | closing changes nothing but that nothing is accepted from then on |
| WorkerPool.DrainProgress | internal/worker/pool.go:51-62 | once closed, 2 * queued + running falls with every change and some worker can move until the pool is quiet |
| WorkerPool.DrainedIff | internal/worker/pool.go:75-86 | a drain that has gone quiet has run every accepted job once if and only if there was a worker or nothing was queued |
| OutboxRefinement.ClaimBatchIsClaim | internal/outbox/postgres.go:34-54 | whatever ClaimBatch picks beside other transactions is an enabled claim of the protocol with the same effect on the table, and its jobs carry the returned messages and attempts |
| OutboxRefinement.StoredIsHandedOut | internal/outbox/postgres.go:53 | the message a commit stored is the message any later claim of it hands out, and what its row holds at any time after, in every run |
| OutboxRefinement.PublishIsStep | internal/platform/kafka/producer.go:72-79 | whatever becomes of the producer's two writes, its call is a publish step of the protocol that records exactly what was written where and what was reported |
| OutboxRefinement.CrashTakesJobs | internal/outbox/postgres.go:34-38 | a crash is possible at any time and takes exactly the jobs of its process, leaving every row and topic as it was |
| OutboxRefinement.MarkCanBeLost | internal/outbox/poller.go:99-116 | a mark can fail at any time; then the job is gone and no row has changed |
| OutboxRefinement.ReplyCanBeLost | internal/outbox/postgres.go:78-80 | a claim can commit and its reply be lost; the rows keep their locks |
| OutboxRefinement.IdleWorkerStarts | internal/worker/pool.go:54-56 | any idle worker can take the head of its process's queue |
| OutboxRefinement.DeliverIsMark | internal/outbox/poller.go:96-117 | publish and mark steps do to the table what a delivery's contract says |
| OutboxRefinement.PollIsRun | internal/outbox/poller.go:75-94 | one tick is a run of the protocol: claim, submissions, and the end of the batch when the pool is full; afterwards exactly the submitted messages have joined the queue |
| OutboxSafety.WellFormedRun | internal/outbox/postgres.go:84-129 | in every run each job's row exists and its snapshot is at most the row's attempts; what was sent has been delivered |
| OutboxSafety.RowStep | internal/outbox/postgres.go:39-129 | a step touches an existing row only by a claim's lock or by an applied mark |
| OutboxSafety.RowOrigin | internal/outbox/postgres.go:23-32 | rows come from commits and keep their message |
| OutboxSafety.NoSilentDiscard | internal/outbox/poller.go:96-117 | in every run, stale holders included, each committed message is unprocessed, or on the topic or the dead-letter topic, or at the attempt ceiling with its last error recorded |
| OutboxSafety.RowsNeverVanish | internal/outbox/postgres.go:84-129 | rows and their messages persist, attempts never fall |
| OutboxSafety.ProcessedForever | internal/outbox/postgres.go:45 | once processed_at is set no later step, stale marks included, makes the row claimable or claims it |
| OutboxSafety.ClaimsStep | internal/outbox/postgres.go:39-54 | a claim of the message is the only step that adds to its claims |
| OutboxSafety.LedgerStep | internal/outbox/poller.go:96-117 | publishes, applied marks, failures with their instants and exhaustion enter a message's history exactly when the steps do them |
| OutboxSafety.Conservation | internal/outbox/poller.go:75-117 | for every message in every run: claims = jobs before publish + claims dropped + publishes, and publishes = jobs before their mark + lost marks + attempts recorded + MarkProcessed applied |
| OutboxSafety.UnclaimedIsClaimable | internal/outbox/postgres.go:45-48 | in every state of every run a message that no claim has returned yet is claimable if and only if any attempt is allowed |
| OutboxSafety.LockKept | internal/outbox/postgres.go:48 | without a mark on the row its lock never gets older |
| OutboxSafety.ClaimsDisjoint | internal/outbox/poller.go:76-78 | two claims within one window are disjoint on every row that no mark reached in between |
| OutboxLease.HeldNotEligible | internal/outbox/poller.go:13-18 | inside the window no claim can reach a row that a live job holds |
| OutboxLease.LeaseRun | internal/outbox/poller.go:13-18 | the lease invariant of a message holds in every run in which its own deliveries are in time, however late others are |
| OutboxLease.LeaseExclusion | internal/outbox/poller.go:13-18 | under that assumption the message has at most one live holder, whose snapshot and lock are the row's current ones |
| OutboxLease.NeverStranded | internal/outbox/poller.go:102-116 | under it attempts never pass the ceiling, equal it exactly on exhausted rows, and any other unprocessed row is claimable if and only if its retry time has come and its lock is stale |
| OutboxLease.MarkOutcome | internal/outbox/postgres.go:84-129 | the whole row after an applied mark: success ends the message, a failure is counted with its reason and unlocks the row, the last one retires it, and after any other it is claimable if and only if the backoff has passed |
| OutboxLease.RetryScheduled | internal/outbox/postgres.go:104 | a failure recorded now and its backoff keep the retry schedule of all failures |
| OutboxLease.FailuresFarApart | internal/outbox/poller.go:115 | recorded failures are at least the sum of the delays apart |
| OutboxLease.TotalDelayUncapped | internal/outbox/poller.go:119-132 | while no delay is capped, n failures take interval * (2^n - 2) between the first and the last |
| OutboxLease.TotalDelayCapped | internal/outbox/poller.go:119-132 | once the delay is capped each further attempt adds five minutes |
| OutboxLease.RetrySpacing | internal/outbox/poller.go:102-132 | a claim that saw k failures comes at least min(interval * 2^k, 5 min) after the k-th |
| OutboxLease.ExhaustionTime | internal/outbox/poller.go:102-132 | retiring a message takes at least the sum of the delays between its maxAttempts failures |
| OutboxLease.PublishBound | internal/outbox/poller.go:96-117 | Publish is called at most maxAttempts times plus once for each lost mark |
| OutboxLease.PoolFullLosesNothing | internal/outbox/poller.go:84-93 | the rest of a batch keeps its rows, unprocessed and with unchanged attempts, claimable again if and only if the reclaim window has passed |
| OutboxStranding.StrandingStepIff | internal/outbox/poller.go:102-116 | a step strands an existing row if and only if it applies a MarkFailed, decided on an old snapshot, that brings the row's own counter to the ceiling |
| OutboxStranding.LostForever | internal/outbox/postgres.go:45-46 | a stranded row that nobody holds is never claimed, published or marked again |
| OutboxStranding.TwoLateMarks | internal/outbox/postgres.go:84-129 | the run in full: two holders one window apart, both with a MarkFailed decided on maxAttempts - 2 attempts, and after the two marks nobody can ever claim the row |
| OutboxStranding.StrandingReachableIff | internal/outbox/poller.go:102-116 | some run loses a committed message for good if and only if maxAttempts is not 1 |
| OutboxPools.ProcessesArePools | internal/worker/pool.go:39-73 | in every run each process's queue and workers are those of a worker pool that has gone through the run's own submissions, starts and ends, with the history read off the run, and both bounds hold |
| OutboxPools.FirstInFirstOut | internal/worker/pool.go:51-73 | since a process last started it has accepted jobs in claim order and started them in acceptance order, its queue is the accepted jobs not yet started, and each started job has ended once or is on a worker |
| CustomerService.Database.RunTx | internal/customer/service.go:92-123 | row and event commit together or not at all, whichever call fails; success is reported only for a commit |
| CustomerService.WrittenRows | internal/platform/database/postgres/customers.sql.go:51-135 | when each statement writes, which columns of which row it sets, and that every other row stays |
| CustomerService.Database.Listing | internal/platform/database/postgres/customers.sql.go:96-98 | every customer once, newest first |
| CustomerService.Database.Newest | internal/platform/database/postgres/customers.sql.go:96-98 | finds a customer none of the others is newer than |
| CustomerCache.RegisterOutcome | internal/customer/service.go:63-134 | a registration succeeds if and only if nothing fails, the fields are acceptable and neither the typed nor the normalised email is taken; exactly the new row and its event are then written; each error is given by its condition on the input |
| CustomerCache.UpdateOutcome | internal/customer/service.go:143-220 | the same for an update: every column of the row by value, created_at kept, every other row kept |
| CustomerCache.RemoveOutcome | internal/customer/service.go:222-273 | the same for a removal: the row is gone, every other row kept |
| CustomerCache.Service.Register | internal/customer/service.go:63-134 | on success the table has exactly one more row, with trimmed name and normalised email, and the journal its event; on failure nothing changed unless a commit's reply was lost; the cache, the list included, stays as it was |
| CustomerCache.Service.Update | internal/customer/service.go:143-220 | on success the row has the new values and its old created_at, the journal its event, both keys are deleted and the event logged; on failure nothing changed unless a commit's reply was lost |
| CustomerCache.Service.Remove | internal/customer/service.go:222-273 | succeeds if and only if nothing fails, the customer exists and the message id is new, and then removes exactly that row |
| CustomerCache.Service.Invalidate | internal/customer/service.go:291-301 | deletes the record's key and the list's, each delete failing on its own |
| CustomerCache.Service.AppendEvent | internal/customer/service.go:303-321 | appends one event, or none when the log is down |
| CustomerJournal.WriteMirrored | internal/platform/database/postgres/customers.sql.go:127-163 | one statement and its event change the table and a replica of it alike, and keep emails unique |
| CustomerJournal.TxMirrored | internal/customer/service.go:178-211 | a transaction keeps the journal in step with the table wherever it fails |
| CustomerJournal.CallsAreSteps | internal/customer/service.go:63-273 | a request that nothing comes between is its check followed by its transaction |
| CustomerJournal.RequestsGiveUp | internal/customer/service.go:92-99 | a request can end between its check and its transaction, leaving nothing behind |
| CustomerJournal.JournalRefinement | internal/customer/service.go:92-123 | in every interleaving of checks and commits, with failures anywhere, replaying the outbox rebuilds exactly the id-to-email map, emails are unique, and every event fits those before it |
| CustomerJournal.PrefixesUnique | migrations/001_create_customers.sql:7 | a consumer that has read any prefix of the outbox never knows two customers by one email |
| CustomerJournal.NormalisedRun | internal/customer/domain.go:40-67 | every stored or pending email is in normal form |
| CustomerJournal.DuplicateReportedIff | internal/customer/service.go:69-87 | registering a taken email never writes, and is reported as EmailExists if and only if it was typed in normal form |
| CustomerJournal.ChecksCanBothPass | internal/customer/service.go:69-106 | two registrations of one email can both pass the check; the constraint lets one commit |
| CustomerCache.Cache.Get | internal/platform/cache/redis.go:43-52 | a live entry, a miss, or a failure |
| CustomerCache.Cache.Set | internal/platform/cache/redis.go:54-59 | replaces the entry and its expiry, even when the reply is lost |
| CustomerCache.Cache.Delete | internal/platform/cache/redis.go:61-66 | removes the entry, even when the reply is lost |
| CustomerCache.CachedQueryService.constructor | internal/customer/query.go:75-84 | the list TTL is a minute below a TTL of five minutes and a fifth of the TTL, rounded down, from there on |
| CustomerCache.CachedQueryService.GetByID | internal/customer/query.go:86-114 | a decodable live entry, else the database; a corrupt entry is evicted, a database answer is stored, cache failures are invisible |
| CustomerCache.CachedQueryService.List | internal/customer/query.go:116-141 | the same for the list, which the database gives newest first |
| CacheAgreement.GoodRun | internal/customer/query.go:86-141 | after any serial run everything the cache can answer agrees with the table |
| CacheAgreement.CallsAreSteps | internal/customer/service.go:63-273 | the serial steps have the effects of the calls' contracts |
| CacheAgreement.FaultsHappen | internal/customer/query.go:89-99 | entries turn to garbage or disappear at any time |
| CacheAgreement.SerialAgreement | internal/customer/service.go:213 | in serial runs cached GetByID equals the table, and cached List the current list less the customers registered since it was filled, despite failures, expiry and corruption |
| CacheAgreement.CorruptionHeals | internal/customer/query.go:91-95 | a corrupted entry is never answered, and the read that meets it puts the database's value in its place |
| CacheAgreement.LostDeleteLasts | internal/customer/service.go:291-301 | when the delete after an update does not reach the cache, later reads agree with the table again if and only if the filled entry has expired, so never without a TTL |
| CacheAgreement.InvalidationNeededIff | internal/customer/service.go:293-301 | after an update that changes the record, the cache agrees with the table if and only if neither the record's entry nor a list showing the record was left in it |
| CacheStaleness.ReadIsRun | internal/customer/query.go:86-141 | the steps of an uninterrupted read have the effect and the answer of the cached query's contract |
| CacheStaleness.WriteIsRun | internal/customer/service.go:206-213 | a successful write is its commit and the deletes that get through |
| CacheStaleness.FaultsHappen | internal/customer/query.go:89-99 | entries turn to garbage or disappear and readers give up at any time |
| CacheStaleness.BoundedStaleness | internal/customer/query.go:86-141 | in every interleaving, with any cache failure or corruption, each answer was the committed value at some instant no older than the entry's TTL plus the longest delay from a database read to its return |
| CacheStaleness.StaleWithoutTtl | internal/platform/cache/cache.go:14-15 | with a TTL that is not positive a run exists whose answer no version of the last b showed, for every b |
| CacheStaleness.StalenessBoundedIff | internal/customer/query.go:75-84 | however prompt the readers, customers have a bound on their age if and only if the TTL is positive, TTL plus delay being one; for lists a fifth of a TTL of five minutes or more, else a minute, plus delay always is one |
| EventConsumer.EventHandler.constructor | internal/customer/events.go:19-22 | nothing processed yet |
| EventConsumer.EventHandler.FindHeader | internal/customer/events.go:74-82 | the first header with the key, or empty |
| EventConsumer.EventHandler.Handle | internal/customer/events.go:24-57 | skips a missing or known id, remembers a new one, calls the typed handler of its event type, and fails only when that does |
| EventConsumer.ProcessedAre | internal/customer/events.go:32-37 | the remembered ids are exactly the non-empty ids of the stream |
| EventConsumer.DispatchIsDedup | internal/customer/events.go:24-57 | the dispatches are those of the stream's first occurrences, in order |
| EventConsumer.AtMostOnce | internal/customer/events.go:11-13 | no id is dispatched twice and each dispatch is of a record of the stream |
| EventConsumer.IdempotencyLayer.constructor | internal/platform/kafka/middleware.go:69-70 | nothing seen yet |
| EventConsumer.IdempotencyLayer.Admit | internal/platform/kafka/middleware.go:72-86 | passes on a record without an id or with one not seen before, and remembers exactly the ids passed on |
| EventConsumer.Chain | internal/platform/kafka/middleware.go:15-21 | the loop nests the middlewares with the first outermost |
| EventConsumer.ServeTransparent | internal/platform/kafka/middleware.go:66-88 | a chain over distinct stores serves a record as the bare handler does |
| EventConsumer.TransparentIff | internal/platform/kafka/middleware.go:66-88 | the chain changes no dispatch and no result on any stream if and only if no deduplicating value is used twice |
| EndToEnd.OutboxIsJournal | internal/customer/service.go:275-289 | in one system of requests, transactions and outbox, in every run the outbox rows are exactly the journal entries with their type, subject and payload, and the journal replays to the customers |
| EndToEnd.Halves | internal/customer/service.go:92-123 | the requests of such a run are a run of the journal system and its deliveries a run of the outbox protocol |
| EndToEnd.RowTells | internal/customer/service.go:275-289 | in every run the outbox row of a journal entry names the customer, the payload, and the event type that fits: CustomerRegistered if and only if it is a registration, and so on |
| EndToEnd.RecordTells | internal/platform/kafka/producer.go:60-71 | every record on the topic is that of a journal entry, keyed by its customer, with its id, fitting type and payload |
| EndToEnd.AtMostOnceEndToEnd | internal/customer/events.go:24-57 | over any run and any broker duplication or reordering, every dispatch hands a journal entry's payload to the typed handler that fits its event, and no entry is dispatched twice |
| EndToEnd.NothingLostEndToEnd | internal/outbox/poller.go:96-117 | once the topic has been consumed, every journal entry is still unprocessed, dead-lettered, out of attempts, or has been handed to the handler that fits it |
| KafkaProducer.Producer.constructor | internal/platform/kafka/producer.go:26-50 | a producer to empty topics |
| KafkaProducer.Producer.Publish | internal/platform/kafka/producer.go:60-80 | one record to the topic, even when the reply is lost; on an error one dead letter; success if and only if one of the two writes reported it |
| KafkaProducer.Producer.Write | internal/platform/kafka/dlq.go:31-53 | one dead letter, and an error if the write reported one |
| KafkaProducer.RecordHeaders | internal/platform/kafka/producer.go:61-70 | a record is keyed by the aggregate, carries the payload, and the consumer reads back the id and type the producer wrote |
| TimestampKey.FractionOrder | internal/eventlog/sqlite.go:55 | written fractions without their end order as the nanoseconds do |
| TimestampKey.EndOrder | internal/eventlog/sqlite.go:55 | with the final Z a fraction that continues another sorts before it |
| TimestampKey.KeyLayout | internal/eventlog/sqlite.go:55 | the text is year, month, day, hour, minute and second in fixed widths, then the nine fraction digits less their trailing zeros, if any are left, and Z |
| TimestampKey.FieldsBeforeIff | internal/eventlog/sqlite.go:55 | the order of the written fields is the component-by-component order of the times |
| TimestampKey.KeyOrderIff | internal/eventlog/sqlite.go:69 | the text order of two times is their component-by-component order, reversed if and only if they share a second and one written fraction continues the other |
| TimestampKey.EqualFractionsOrder | internal/eventlog/sqlite.go:55 | with equally long fractions, as section 5.1 of RFC 3339 asks, the order is right |
| EventLog.SqliteStore.Append | internal/eventlog/sqlite.go:47-61 | appends, or fails without effect when the log is down or holds the id |
| EventLog.SqliteStore.First | internal/eventlog/sqlite.go:74 | finds an event whose text no other precedes |
| EventLog.SqliteStore.Query | internal/eventlog/sqlite.go:71-83 | exactly the matching events, each once, in text order |
| EventLog.SqliteStore.FetchSince | internal/eventlog/sqlite.go:63-119 | exactly the events of the aggregate, or of all when none is given, whose text sorts after the cursor's, in text order; an error if and only if the query fails or one of its rows will not parse |
| EventLog.FetchExists | internal/eventlog/sqlite.go:71-83 | whatever the log holds, such a result exists |
| WatchCursor.Watch.Tick | internal/customer/grpc.go:142-157 | sends the fetched events in order and moves the cursor with each; a failed fetch or a row that will not parse ends the stream with nothing sent, a failed send ends it there |
| WatchCursor.CallsAreSteps | internal/customer/grpc.go:143-157 | the steps of a watch have the effects of the append's and the tick's contracts |
| WatchCursor.NeverSentTwice | internal/customer/grpc.go:136-158 | over any interleaving of appends and polls no event is sent twice |
| WatchCursor.SentAreWatched | internal/eventlog/sqlite.go:71-83 | a watch on an aggregate is sent only its events |
| WatchCursor.OpenedSeesAll | internal/customer/grpc.go:136 | a new stream starts before every event there can be, except those of the zero time's own second |
| WatchCursor.SkippedForever | internal/eventlog/sqlite.go:69-83 | an event the cursor has passed unsent is never sent |
| WatchCursor.LaterEventSkippedIff | internal/eventlog/sqlite.go:69-83 | an event later than the cursor is passed over if and only if it shares the cursor's second and one written fraction continues the other |
| WatchCursor.LaterEventLostIff | internal/customer/grpc.go:136-158 | an unsent later event is sent by no continuation of the run at all if and only if that is so; otherwise some continuation sends it |
| WatchCursor.SendsPrefix | internal/customer/grpc.go:136-158 | when each stored text sorts strictly after the earlier ones, what was sent is a prefix of the filtered log in append order |
| WatchCursor.CatchesUp | internal/customer/grpc.go:143-157 | and a poll without a failed send leaves the client with exactly the watched aggregate's events, or all of them |

## Left out

- The Postgres, Kafka, Redis and SQLite clients: a call is one atomic step that is applied or not, and reports so or not. Statements read one database clock, so `now()` is the instant of the statement; in the customer transaction that is its commit, where the database would take its start.
- OutboxPoller.Poller.Poll: the method runs with the workers standing still; that workers, other pollers and crashes interleave with it is in OutboxProtocol, where each of its calls is a step of its own.
- OutboxLease.LeaseExclusion: the deliveries of the message are assumed to end in time; nothing in the code enforces it.
- OutboxLease.NeverStranded: asks for `maxAttempts` of at least 1, as does PublishBound; with fewer, no message is ever claimed and every one is stuck from its commit.
- The default wiring publishes to the log only (`cmd/api/main.go:136-139`) and so marks rows processed with nothing on any topic; the publisher modelled is the Kafka producer.
- The 32-bit width of the `attempts` column; attempts are unbounded.
- A queue of size 0, which in Go hands a job straight to a waiting worker: here it rejects every job.
- Panics of jobs and of a second Stop or a Submit after Stop; calling them is excluded where the source calls it an error.
- The deadline of the job context, which starts with the process: progress of deliveries is not claimed, only what follows when calls succeed.
- Consumer offsets, redelivery and group rebalancing: the consumer's input is an arbitrary stream made of what is on the topic. Order per aggregate is not claimed, as concurrent workers and retries can reorder publishes.
- The order in which RETURNING and equal sort keys give rows: any order is allowed.
- Trimming and lower-casing are functions of which nothing is known; DuplicateReportedIff asks that normalising twice is normalising once.
- JSON: cached bytes are an encoded value or do not decode. Bytes that decode into a wrong customer are not modelled.
- The cache client's rounding of TTLs below a millisecond, and its keep-the-TTL value -1: a TTL that is not positive means no expiry.
- Dates keep their time of day, and ids and clock readings are parameters of the calls; the database's rounding of times is not modelled.
- Logging, tracing and metrics, and event payload encoding: payloads are carried unread.
- Reading a stored log time back is taken to give the time that was written. Times have four-digit years.
- The event log's writer inside the customer service is reduced to which events it appends; their ids and times appear in EventLog.
- Middleware is a value that says whether it passes records on or deduplicates, not a closure; a panic in a handler counts as its failure.
- HTTP and gRPC handlers except the watch loop, authentication, products and preferences, configuration and migrations: no protocol of their own.
