# Webhook gateway: a verified model

A Dafny model of the stateful core of a webhook gateway, and proofs about it. The gateway receives webhooks, stores each
as an event, drops duplicates and filtered events, fans the rest out to destinations as deliveries, and drives each
delivery with a queue job until it succeeds or is dead-lettered.

`dafny verify dfyconfig.toml` checks the project.

## How the model is built

| files | what they hold |
|---|---|
| `Store`, `Dispatch`, `Rules`, `Dedup`, `Keys` | tables and queue as values; the meaning of each write and of each classification |
| `Ingest`, `Worker`, `Replay` | the transactions and worker bodies as imperative code over those tables, each proved equal to its specification |
| `Machine` | the delivery state machine: every transaction, read and queue action is one step, and any list of steps is a run |
| `Basics`, `History`, `Budget`, `Liveness`, `OneJob`, `Finality`, `Pausing`, `Progress`, `Duplicates` | theorems over all runs |
| `Outcomes` | what each kind of step does, in plain values: answers, statuses, the queue's actions, recovery, administration |
| `Witness` | concrete runs that show why a hypothesis is there |
| `Tunnel`, `Conn` | the tunnel's ack protocol as interleaved steps, and the connection object that performs them |
| `Traces` | a program's steps with others' steps in between |
| `Buckets`, `RateLimit`, `Pacing`, `Backoff` | rate and retry arithmetic |
| `Codec`, `Signature` | encodings, signature headers, Sign and Verify |
| `Paging` | cursor pagination |

Code that the source writes as expressions is a function here; objects, tables and loops that the source updates in place
are classes with fields, methods with `modifies`, and loops with invariants, each tied by its `ensures` to the function
that the theorems speak about.

A step of `Machine` that is not enabled leaves the state unchanged, so a theorem about `Run(steps)` for every `steps`
covers every interleaving of any number of ingests, replays, workers, recoveries, configuration changes and deletions.
Failures (a database error before the dispatch or while recording, a commit whose reply is lost, a worker crash) are steps
too. A theorem that excludes all of them says `NoFailures`; one that excludes only failures that end a job, which are errors
and crashes on a last attempt (`Liveness.FatalIff`), says `Survivable`; the others hold with any failure.

### Assumptions

- The queue, River, is not part of the repository. Fetching a job increments `attempt` and gives the job to one worker; a
  nil return completes the job; `JobCancel` cancels it; `JobSnooze` reschedules it and gives the attempt back; an error or
  a crash reschedules it while `attempt < max_attempts` and discards it otherwise. Jobs are never deleted.
- A transaction is atomic, and a read sees the latest committed state. Ids are handed out in increasing order and not
  reused. Rows come back in table order where a query does not sort.
- One ingest has one clock reading. Theorems about dedupe windows assume that readings never go backward
  (`Dedup.Clocked`, `Duplicates.Clocked`); `Dedup.BackwardReadingShows` shows what happens without that.
- One recovery is three steps: read the delivery, read the destination, commit. `NoOverlaps` says that at no time two
  recoveries of one delivery are open; it is assumed only where it is written.
- Whether the pacer delays a given delivery, what a destination answers, what a rule expression evaluates to, the keyed
  hash, the digest and the canonical form of header names are arbitrary inputs.
- A page filter is a fixed set of matching ids: its answer on a stored event does not change during a walk.
- A commit may take effect and its reply be lost: the caller then sees an error although the transaction happened. Recording,
  ingest and replay are modelled with that; a recovery's caller plays no part after its commit.
- In the tables a dedupe key is an opaque identifier; how it is derived from a body is modelled in `Keys`.
- Token counts are reals where the source uses floating point; the wait is truncated to whole nanoseconds as in the source.

### Where the code does not do what its documentation says

- `pacer.reserve` is documented to consume a token whenever it returns 0. With exact arithmetic that is true for a positive
  rate on every sequence of calls if and only if the rate divides 10^9 (`Pacing.ZeroMeansSpentIff`): for any other rate the
  truncated wait can be 0 with no token spent. The condition is one of the real-number model; rounding of the source's
  floating-point token counts can make a dividing rate answer 0 unpaid as well.
- A recovery's comment promises a job for every committed reset. There is one, but there can be two: a recovery can commit
  while the queue is still retiring the old job (`Witness.TwoLiveJobs`). Exactly one live job per undecided delivery, at
  every moment, is equivalent to every recovery finding no live job for its delivery when it commits
  (`OneJob.ExactlyOneIff`), which is something a recovery could look up.
- A succeeded delivery is meant not to be sent again. Its success can be undone by a second recovery, because the reset is
  unconditional (`Witness.OverlapUndoesSuccess`), and, with a single recovery, by an older job that came back after the
  reply to its commit was lost, because recording is unconditional too (`Witness.LostReplyUndoesSuccess`).
  `Finality.FinalIffSettled` says exactly when a success is final: when no recovery of the delivery is open and no worker on
  it is past its check of the status, unless that worker has returned or is about to record a success.
- The recorded status code is cut to 32 bits, so an ack with a wider code can be recorded as a success that it was not, or
  as retryable when it is terminal (`Dispatch.WideCodeLies`); `Dispatch.TruthfulIff` says for exactly which codes the record
  tells both success and retryability.
- Sign is documented as Verify's inverse. `Signature.SignThenVerify` says exactly when it is. A definition that validation
  accepts fails when a timestamp or signature field name holds ',' or '=' or outer white space, and, unless the signature
  happens to read as a fitting timestamp, when the two names are equal (`Signature.EqualNamesFail`,
  `Signature.EqualNamesExample`). So does an API key with neither prefix nor secret, whose header is empty.
- Field-based dedupe keys identify a value only up to a digest: a value of more than 256 bytes shares its key with the
  64-character text of its own hash, and a number with the string of its digits (`Keys.FieldMeansSameText`,
  `Keys.TextMeetsNumber`).
- The default retry policy is documented to spread over roughly three days; its 15 waits sum to between 32 and 66 hours
  (`Backoff.DefaultSpread`).
- The migration's comment says that the dedupe window is enforced by cleanup of expired rows; the upsert compares the
  expiry itself, and cleanup changes no outcome (`Dedup.CleanupInvisible`).

## Model

| member | source | states |
|---|---|---|
| `Liveness.NoLostWork` | internal/delivery/worker.go:62-161 | At every interleaving, with overlapping recoveries, lost commit replies and all failures that do not end a job, every pending or failed delivery has a live job for it that the queue is not retiring. |
| `Liveness.FatalIff` | internal/delivery/worker.go:59-62 | A failure ends a job that would still have acted if and only if it strikes a running, not yet retiring job on its last attempt, at a point where that kind of failure can occur. |
| `Liveness.FatalLosesWork` | internal/delivery/worker.go:59-62 | The excluded case does lose work: after such an error or crash of the driving job the delivery is still undecided and no job will act on it. |
| `Progress.CanBeDecided` | internal/delivery/worker.go:62-147 | No delivery is stuck: in every run that no failure ends a job in, an undecided delivery whose destination is not paused can be brought to success or dead letter by the queue and its workers alone, and to success unless its workers already hold failing answers. |
| `OneJob.ExactlyOneIff` | internal/api/deliveries.go:37-112 | In every run that no failure ends a job in, overlapping recoveries included: at every moment each undecided delivery has exactly one live job, the one in `river_job_id`, if and only if every recovery finds its delivery without a live job when it commits. |
| `OneJob.NamesHold` | internal/queue/queue.go:87-113 | Under that condition, failures included, every delivery, decided or not, has no live job other than the one it names. |
| `OneJob.BusyRecoveryDoubles` | internal/api/deliveries.go:82-106 | A recovery that commits while the delivery has a live job leaves a pending delivery with two. |
| `OneJob.DecidedGoesIdle` | internal/delivery/worker.go:138-146 | With non-overlapping recoveries: once the queue has finished the jobs of a succeeded or dead-lettered delivery, it has no live job at all and its row is unchanged. |
| `Liveness.OneJobEach` | internal/api/deliveries.go:37-112 | With non-overlapping recoveries and no condition on their timing: the job in `river_job_id` drives an undecided delivery, and any other live job, like every live job of a decided one, is being retired; the dead-letter time is set exactly on dead-lettered rows. |
| `Liveness.RetiringEnds` | internal/delivery/worker.go:138-146 | The queue's next action on a retiring job ends that job. |
| `Finality.FinalIffSettled` | internal/delivery/worker.go:79-83 | In every reachable state, failures and overlapping recoveries included: every continuation keeps a success if and only if no recovery of the delivery is open and each running worker on it has not yet checked the status, has returned, or is about to record a success; and then the delivery is never sent again, even if its row is deleted. |
| `Finality.SucceededIsFinal` | internal/delivery/worker.go:79-83 | After a run without failures and overlapping recoveries every success is settled, so in every continuation, failures and overlaps included, it stays and is never sent again. |
| `Pausing.SentWasCleared` | internal/delivery/worker.go:97-111 | Every send in every run, failures included: at some earlier step, since which the job has been ready, its worker found its destination, that of the delivery, present and not paused, and the pacer let it pass. |
| `Pausing.PausedIsQuiet` | internal/delivery/worker.go:97-101 | From any reachable state in which a delivery's destination is paused and no worker on it is ready to send, nothing that happens until the next configuration change sends it. |
| `Pausing.HeldBack` | internal/delivery/worker.go:97-111 | A worker that meets a paused destination or a wait leaves its job scheduled with the attempt given back, and row, history and sends as they were. |
| `Outcomes.AttemptOutcome` | internal/delivery/worker.go:113-161 | One attempt in any reachable state: succeeded if and only if the code is from 200 to 299; failed and retried if and only if attempts are left and there was no response over HTTP, an unreadable event over a tunnel, or a code of 408, 429 or from 500 on; dead-lettered and given up otherwise; one send, one history row with the code, and the job completed, retryable, cancelled or discarded to match. |
| `Outcomes.ClassifiedAs` | internal/delivery/dispatch.go:42-91 | Which tries, over HTTP and tunnel, count as success and which are transient, by literal codes and causes. |
| `Outcomes.NothingToDo` | internal/delivery/worker.go:70-126 | A missing or succeeded delivery, a missing destination, and over HTTP a missing event end the job without a send or any other change. |
| `Outcomes.TunnelEventGone` | internal/delivery/tunnel_dispatch.go:37-43 | Over a tunnel a missing event is a terminal failure without a code and without a send. |
| `Outcomes.RecordingFails` | internal/delivery/worker.go:131-135 | If the row is gone nothing is recorded and the run fails; if only the reply is lost all is recorded and the run fails. |
| `Outcomes.FailureActs` | internal/delivery/worker.go:59-62 | A crash or an error leaves the job retryable with attempts left and discarded otherwise, and the delivery untouched. |
| `Outcomes.QueueActs` | internal/delivery/worker.go:59-62 | A waiting job becomes available, and fetching an available one costs one attempt. |
| `Outcomes.RecoveryRequeues` | internal/api/deliveries.go:45-112 | A dead letter becomes pending with its history kept and a fresh job with its destination's current retry settings; no other delivery can be recovered. |
| `Outcomes.RecoveryEnds` | internal/api/deliveries.go:62-71 | A recovery whose destination is gone, or that is given up, never commits. |
| `Outcomes.RecoveryOfNothing` | internal/db/deliveries.sql.go:86-104 | A recovery whose row vanished leaves no row behind, only a job. |
| `Outcomes.AdministrationActs` | internal/db/dedup.sql.go:47-49 | Deletions, cleanup and configuration do exactly what they say to the tables. |
| `Liveness.RecordingDrives` | internal/delivery/worker.go:129-161 | After a recording the row is undecided if and only if the recording job will try again: status and return value never disagree. |
| `Liveness.RecordingSurvives` | internal/delivery/worker.go:129-161 | Even when the commit's reply is lost, a row left undecided is left with a job that will try again. |
| `Witness.TwoLiveJobs` | internal/api/deliveries.go:45-108 | A concrete run in which a recovery commits while the old job is retiring: two live jobs, one pending delivery. |
| `Witness.OverlapState` | internal/api/deliveries.go:45-58 | A concrete run in which two recoveries both read one dead letter. |
| `Witness.OverlapUndoesSuccess` | internal/db/deliveries.sql.go:86-93 | With overlapping recoveries, a succeeded delivery becomes pending again and gets one more active job. |
| `Witness.LostReplyUndoesSuccess` | internal/delivery/worker.go:129-146 | A concrete run with one recovery and one lost commit reply: the first job comes back beside the recovery's, passes its check of the status, and records its failure over the other's success. |
| `History.AttemptsAreNumbered` | internal/delivery/worker.go:165-195 | In every reachable state, failures included, a delivery's attempt rows are numbered 1, 2, ..., `attempt_count` in insertion order. |
| `History.ConstraintNeverFires` | internal/db/deliveries.sql.go:63-72 | In every reachable state recording an attempt succeeds if and only if the delivery row exists: the unique constraint on (delivery, number) never rejects it. |
| `History.StatusAgreesWithHistory` | internal/delivery/worker.go:129-161 | When every answered code is one whose stored form tells the outcome: pending iff nothing was recorded since creation or the last reset; otherwise succeeded iff the last attempt's code is 2xx, failed only if it has no code or a retryable one; dead-lettered rows have their time set. |
| `Budget.JobBudget` | internal/queue/queue.go:45-54 | A job's attempt counter is its fetches minus its snoozes and at most max(1, `max_attempts`); so are its recorded attempts and its sends; a waiting job has budget left. |
| `Budget.DeliveryBudget` | internal/delivery/worker.go:97-111 | `attempt_count` never exceeds the summed budgets of all jobs ever enqueued for the delivery. |
| `Basics.BasicHolds` | migrations/00003_events_and_deliveries.sql:55-93 | Every run keeps keys fresh and unique, references intact, attempts within rows, job counters within budget, and what a running worker has read consistent with its row. |
| `Dispatch.FittingCodesAreTruthful` | internal/delivery/dispatch.go:73-91 | For HTTP and tunnel tries whose code fits 32 bits, the stored code tells success and retryability. |
| `Dispatch.WideCodeLies` | internal/delivery/tunnel_dispatch.go:88-93 | An ack of 2^32 + 200 is a retryable failure stored as 200, and one of 500 - 2^32 a terminal failure stored as 500. |
| `Dispatch.TruthfulIff` | internal/delivery/tunnel_dispatch.go:70-94 | The stored code tells success and, for a failure, retryability in both directions if and only if the code fits 32 bits, or is larger and its low 32 bits are a retryable code, or is smaller and they are a negative number or a terminal code. |
| `Worker.Database.RecordDeliveryOutcome` | internal/db/deliveries.sql.go:63-72 | Updates status, count and dead-letter time of an existing row and returns the new count; touches nothing when the row is gone. |
| `Worker.Database.RecordAttempt` | internal/delivery/worker.go:165-195 | Status and history row change together or not at all. |
| `Worker.Database.RecoverDelivery` | internal/api/deliveries.go:73-108 | Reset, fresh job with the destination's policy, link; a vanished row is not recreated. |
| `Worker.Database.Work` | internal/delivery/worker.go:62-147 | Whatever others do before each of its reads and writes, short of acting on its own job, a worker run is the machine's worker steps up to its return, and it returns what they say. |
| `Worker.Database.LoadDelivery` | internal/delivery/worker.go:70-83 | Reads the row as the machine's load step does; a missing or succeeded one ends the run. |
| `Worker.Database.LoadTarget` | internal/delivery/worker.go:85-111 | Reads the destination as the machine does; a missing one ends the run, a paused or paced one snoozes. |
| `Worker.Database.Send` | internal/delivery/worker.go:113-128 | One try is the machine's dispatch step; over HTTP a missing event ends the run, over a tunnel it is a terminal result. |
| `Worker.Database.RecordResult` | internal/delivery/worker.go:129-146 | Recording and the choice of return value are the machine's recording step. |
| `Worker.ExecKeeps` | internal/delivery/worker.go:62-62 | No run of other steps changes a running job. |
| `Ingest.IngestComplete` | internal/ingest/handler.go:134-241 | A commit stores exactly one event; it is dropped, with its reason, and nothing else but the claim changes, or it gets exactly one delivery with one linked job per chosen target, carrying that destination's retry settings. |
| `Ingest.CommittedCases` | internal/ingest/handler.go:162-234 | An ingest commits in exactly three ways: duplicate, dropped by a rule, or fanned out to the chosen targets. |
| `Ingest.ChosenProper` | internal/ingest/handler.go:198-234 | The targets are, each once, the existing destinations of the deciding rule when it routes, and every enabled route of the source when no rule matches. |
| `Ingest.IngestDecides` | internal/ingest/handler.go:134-241 | From end to end, in plain values: a key held by a live row makes the event "duplicate" and changes nothing else; otherwise the key is claimed for the configured seconds, or 300, and the first matching rule drops the event under its name or names its existing destinations; without one every enabled route counts. |
| `Ingest.BrokenRulesDoNotMatter` | internal/rules/rules.go:74-133 | Deleting rules that are broken, not boolean or false changes nothing that an ingest stores. |
| `Ingest.Transaction.EnqueueDeliveriesTo` | internal/queue/queue.go:87-113 | The loop over targets makes exactly the specified fan-out and returns the number of targets. |
| `Ingest.Transaction.ProcessEvent` | internal/ingest/handler.go:134-241 | Whichever statement fails: all or nothing. A success is exactly the committed outcome; an error leaves all tables as they were, unless the reply to the commit was lost, and then it is the committed outcome; without faults it commits. |
| `Ingest.Transaction.Attempt` | internal/ingest/handler.go:143-240 | The statements of the transaction in order, with both early commits, build exactly the committed outcome. |
| `Store.FanOutShape` | internal/queue/queue.go:87-113 | Fan-out leaves old rows and jobs alone and adds, for target i, delivery i and job i that name each other. |
| `Store.RouteTargetsMeaning` | internal/db/routes.sql.go:94-102 | A destination is a target if and only if it exists and an enabled route of the source leads to it; none occurs twice. |
| `Store.TargetsByIdsMeaning` | internal/db/destinations.sql.go:139-146 | A destination is a target if and only if it is listed and exists; none occurs twice. |
| `Store.DestinationDeleted` | migrations/00003_events_and_deliveries.sql:55-93 | Deleting a destination deletes its routes, deliveries and their attempts, and nothing else. |
| `Store.SourceDeleted` | migrations/00003_events_and_deliveries.sql:8-46 | Deleting a source deletes its events, rules, routes and dedupe keys, the deliveries of its events and their attempts, and nothing else. |
| `Rules.EvaluateRules` | internal/rules/rules.go:74-133 | The loop with skipped rules and early return computes the first match. |
| `Rules.LowestMatchDecides` | internal/db/rules.sql.go:106-110 | The deciding rule is enabled, of the source, its expression is true, and its (priority, created_at) is lowest among those; there is none exactly when no expression is true. |
| `Rules.BrokenRulesIrrelevant` | internal/rules/rules.go:102-132 | Deleting any rules that have no verdict, are broken, not boolean or false never changes the decision. |
| `Rules.SortOrdered` | internal/db/rules.sql.go:106-110 | The rules are read in order of (priority, created_at), each as often as it is stored. |
| `Dedup.Window` | internal/ingest/handler.go:162-166 | The window is the configured seconds if positive and 300 seconds otherwise, in microseconds. |
| `Dedup.IndexIsScan` | migrations/00003_events_and_deliveries.sql:34-39 | At every instant from the last reading on, the index holds a key if and only if a scan of history finds a winner whose window is still open. |
| `Dedup.DuplicateIff` | internal/ingest/handler.go:162-188 | An event is a duplicate if and only if some earlier winner of its source and key lies less than that winner's configured seconds, or 300, back. |
| `Dedup.WinnersApart` | internal/db/dedup.sql.go:14-25 | Any two winners of one key are at least the configured seconds, or 300, apart. |
| `Dedup.CleanupInvisible` | internal/db/dedup.sql.go:47-49 | Deleting every cleanup from a run changes no outcome and leaves the index equal up to expired rows. |
| `Dedup.SameIngestsSameOutcomes` | internal/ingest/cleanup.go:13-16 | Two runs with the same ingests and any cleanups anywhere decide every event alike. |
| `Dedup.BackwardReadingShows` | internal/db/dedup.sql.go:47-49 | With a reading that goes backward, one cleanup lets a duplicate through. |
| `Dedup.DedupIndex.ClaimDedupeKey` | internal/db/dedup.sql.go:14-25 | The upsert on the table is the specified claim, in rows and in answer. |
| `Dedup.DedupIndex.DeleteExpiredEntries` | internal/db/dedup.sql.go:47-49 | Exactly the expired rows go, and the count is how many went. |
| `Duplicates.IndexFollowsHistory` | internal/ingest/handler.go:162-188 | In every run of the whole gateway the index is what the ingest history, without deleted sources, makes it. |
| `Duplicates.IngestMeetsHistory` | internal/ingest/handler.go:134-241 | In every run, with everything else interleaved: an ingest whose key an earlier winner still covers stores an event marked duplicate and changes no delivery, job or claim; any other is decided by its rules alone and holds its key. |
| `Duplicates.CleanupChangesNothing` | internal/ingest/cleanup.go:13-16 | Removing every cleanup from a clocked run of the whole gateway leaves the final state, events, deliveries, attempts, jobs and recoveries included, the same up to expired rows of the index. |
| `Keys.JsonFieldValue` | internal/ingest/dedupe.go:63-104 | The segment-by-segment walk finds the scalar at the path; there is one exactly when the path leads through objects to a number or a non-empty string. |
| `Keys.SegmentsOfPath` | internal/ingest/dedupe.go:64-67 | A path written from any dot-free names reads back as those names. |
| `Keys.SegmentsOfPlainPath` | internal/ingest/dedupe.go:64-67 | The leading "$." and either of its characters may be left out. |
| `Keys.KeyIff` | internal/ingest/dedupe.go:33-58 | An event has a key exactly when deduplication is on and the strategy is exact, or names a field of a parsed body that holds an identity; the key is the body's hash or the field's text, hashed beyond 256 bytes. |
| `Keys.DescendInto` | internal/ingest/dedupe.go:76-85 | A field is reached through objects only, name by name. |
| `Keys.ShortenMerges` | internal/ingest/dedupe.go:106-112 | Two values become one key if and only if they are equal, both too long with one hash, or one is the other's digest. |
| `Keys.ExactMeansSameHash` | internal/ingest/dedupe.go:38-43 | Under the exact strategy keys agree if and only if the body hashes do. |
| `Keys.FieldMeansSameText` | internal/ingest/dedupe.go:33-58 | For every nameable field: a key exists if and only if the field holds a non-empty string or a number, and keys agree if and only if the two texts merge. |
| `Keys.TextMeetsNumber` | internal/ingest/dedupe.go:87-95 | A string and a number with the same text are one identity. |
| `Replay.ReplayWorker.ReplayOne` | internal/delivery/replay_worker.go:100-115 | One event is fanned out to all its enabled targets, as one machine step, or nothing changes; an error after the step means a lost reply, and one without it a fault or a vanished event. |
| `Replay.ReplayWorker.Finish` | internal/delivery/replay_worker.go:119-128 | The finishing update writes status and both counts as int32, or nothing when it fails. |
| `Replay.ReplayWorker.Work` | internal/delivery/replay_worker.go:64-96 | With arbitrary other steps before each event, arbitrary faults and lost replies: the final state is that of the run with one replay step per event of the committed prefix and no other; each of those events was fanned out to all targets enabled at its moment of that run; `requeued_count` is the number of deliveries so created, except those of a last commit whose reply was lost; completed if and only if the prefix is everything; a shorter prefix ends at a fault, a vanished event or a lost reply. |
| `Replay.CountFits` | internal/delivery/replay_worker.go:86-91 | The int32 count is the true count exactly below 2^31. |
| `Replay.ListedLater` | internal/db/events.sql.go:330-343 | In every continuation a listed event keeps its source or is gone, and delivery ids only grow. |
| `Tunnel.BaseHolds` | internal/tunnel/conn.go:44-124 | Every run, shared ids included: the map holds only calls in flight under their own ids, it is nil and `done` closed exactly when the reader got there, and no ack in the reader's hand, a slot or an outcome comes from nowhere. |
| `Tunnel.CallInvHolds` | internal/tunnel/conn.go:44-72 | For a call that is alone with its id while in flight, whatever other calls do: it is registered, and its first ack is unseen, in the reader's hand, in its slot or in its outcome. |
| `Tunnel.AckCorrelation` | internal/tunnel/conn.go:44-72 | A call alone with its id that returns an ack returns the first one looked up with that id while it was registered. |
| `Tunnel.AckResolvesOne` | internal/tunnel/conn.go:104-115 | In every run, shared ids included, no ack resolves two calls, and none a call it was not found for. |
| `Tunnel.AckNotLost` | internal/tunnel/conn.go:104-115 | Once an ack for a waiting call alone with its id was looked up, it is in the slot or in the reader's hand with the slot free, and the call returns it. |
| `Tunnel.CallIsAnswered` | internal/tunnel/conn.go:44-72 | After any run on an open connection: a new call is registered, and once its frame is written and an ack for its id arrives it returns that very ack and is unregistered. |
| `Tunnel.CallGivesUp` | internal/tunnel/conn.go:60-71 | A failed write and an expired deadline end a call with that error and unregister it. |
| `Tunnel.ReaderGoesOn` | internal/tunnel/conn.go:90-102 | A frame that is no ack changes nothing; an error closes the connection. |
| `Tunnel.RegisteredExactly` | internal/tunnel/conn.go:47-58 | While open, in every run, a registered id is that of a call between registration and exit; with distinct ids the registered ids are exactly those. |
| `Tunnel.ReaderNeverBlocks` | internal/tunnel/conn.go:104-115 | In every run, after any frame, late, unknown or duplicate acks included, the reader is back at the socket within two of its own steps. |
| `Tunnel.ClosedForGood` | internal/tunnel/conn.go:119-124 | In every run, after the read loop ended, `done` has been closed exactly once, every waiting call can return and every new call returns ErrClosed. |
| `Tunnel.StaysClosed` | internal/tunnel/conn.go:119-124 | No continuation reopens the connection or closes `done` again. |
| `Tunnel.SharedIdLosesAck` | internal/tunnel/conn.go:52-58 | Two calls with one id: the first to leave unregisters the second, whose ack is then dropped. |
| `Conn.Conn.Register` | internal/tunnel/conn.go:45-53 | Makes a fresh channel and registers it unless closed: exactly the protocol's start step. |
| `Conn.Conn.Leave` | internal/tunnel/conn.go:54-58 | The deferred delete is exactly the protocol's leave step, on a nil map too. |
| `Conn.Conn.Receive` | internal/tunnel/conn.go:64-66 | The select's first arm empties the slot and ends the call with that ack. |
| `Conn.Conn.Observe` | internal/tunnel/conn.go:60-71 | Writes, deadlines and socket reads change none of the connection's fields. |
| `Conn.Conn.Lookup` | internal/tunnel/conn.go:104-110 | The reader finds the channel registered for the ack's id, if any. |
| `Conn.Conn.Offer` | internal/tunnel/conn.go:111-115 | A full slot keeps its ack, a free one takes the new ack, and the reader goes on in both cases. |
| `Conn.Conn.HandleFrame` | internal/tunnel/conn.go:90-115 | One turn of the read loop fills the free slot of the call registered for the ack's id and changes no other. |
| `Conn.Conn.UnsetPending` | internal/tunnel/conn.go:119-122 | The map becomes nil, as the protocol's step. |
| `Conn.Conn.CloseDone` | internal/tunnel/conn.go:123-123 | `done` is closed, as the protocol's step. |
| `Conn.Conn.Other` | internal/tunnel/conn.go:44-72 | Any step of any call, performed on the object, is that step of the protocol and leaves the reader where it is. |
| `Conn.Conn.ReadLoop` | internal/tunnel/conn.go:88-117 | Whatever calls register, wait, receive or leave before each of its steps, the loop makes exactly the protocol's reader steps for every frame in turn, and the error that ends it closes the connection. |
| `Conn.Conn.ReadAlone` | internal/tunnel/conn.go:88-117 | With no call acting meanwhile, each registered call whose slot was free ends up with the first ack for its id among the frames read. |
| `Conn.MapHoldsInFlight` | internal/tunnel/conn.go:47-58 | In every state an object reaches, its map holds only ids of calls in flight, and with distinct ids exactly those. |
| `Conn.ChannelHoldsFirstAck` | internal/tunnel/conn.go:104-115 | In every state an object reaches, what a listening call alone with its id finds in its channel is the first ack for that id looked up since it registered. |
| `Conn.DoneMeansClosed` | internal/tunnel/conn.go:119-124 | In every state an object reaches with `done` closed, the map is nil for good and `done` is never closed again. |
| `Buckets.WindowSpent` | internal/delivery/pacing.go:43-60 | A bucket spends at most a burst plus its inflow in every window. |
| `Buckets.RefillTwice` | internal/delivery/pacing.go:47-52 | Refilling in two instalments is refilling once. |
| `RateLimit.WindowBound` | internal/ingest/rate_limit.go:52-89 | For every call sequence with a nondecreasing clock and every window, one source is admitted at most R + R * length times, whatever other sources do. |
| `RateLimit.RefusedCallsInvisible` | internal/ingest/rate_limit.go:73-89 | Removing any refused calls changes no other call's answer, for every rate. |
| `RateLimit.RefusedOnlyIfDue` | internal/ingest/rate_limit.go:52-89 | With a limit of at least one, a call is refused only if one more admission would overfill some window that ends with it; with the bound above, a call is admitted exactly when no window would be. |
| `RateLimit.BelowOneAdmitsNothing` | internal/ingest/rate_limit.go:73-89 | A rate below one admits nothing. |
| `RateLimit.TokenBucket.Allow` | internal/ingest/rate_limit.go:73-89 | The in-place update is the specified attempt, in state and answer. |
| `RateLimit.RateLimiter.Allow` | internal/ingest/rate_limit.go:52-61 | Lazy creation and update change exactly the caller's bucket, as specified. |
| `Pacing.PacedWindowBound` | internal/delivery/pacing.go:20-60 | At a constant positive rate a destination spends at most R + R * length tokens in every window, whatever other destinations do. |
| `Pacing.HeldOnlyIfDue` | internal/delivery/pacing.go:20-60 | A delivery is held back only if one more token would overfill some window that ends with the call. |
| `Pacing.LimitChanges` | internal/delivery/pacing.go:20-33 | Without a limit nothing is held back or spent; a changed limit starts with a full bucket. |
| `Pacing.RefusedUntil` | internal/delivery/pacing.go:54-59 | A bucket that refused with wait w refuses before w has passed and pays one nanosecond after. |
| `Pacing.AnswerIsTight` | internal/delivery/pacing.go:20-60 | In every sequence of calls on a new pacer: after an answer w at t that spent no token, no call before t + w spends one, and a call later than t + w with none spent between does. |
| `Pacing.WaitIsTight` | internal/delivery/pacing.go:43-60 | The same from any refused bucket on, for every continuation. |
| `Pacing.ZeroMeansSpentIff` | internal/delivery/pacing.go:18-60 | A zero answer means a spent token on all call sequences if and only if the rate divides 10^9. |
| `Pacing.BurstThenZero` | internal/delivery/pacing.go:54-59 | For every other rate, a burst followed by one more call gets 0 without a token. |
| `Pacing.PaceBucket.Reserve` | internal/delivery/pacing.go:43-60 | The in-place update is the specified attempt; the answer is 0 or the truncated wait. |
| `Pacing.PacerTable.Reserve` | internal/delivery/pacing.go:20-33 | An unthrottled call changes nothing; otherwise a missing bucket or one of another rate is replaced and exactly that destination's bucket is used. |
| `Backoff.DelayRange` | internal/delivery/retry.go:33-58 | Every delay lies in [d/2, d] with d = min(base * 2^(attempt-1), cap). |
| `Backoff.JitterCovers` | internal/delivery/retry.go:53-57 | Every whole nanosecond from half the ceiling to twice that half is reached by exactly one draw. |
| `Backoff.NextRetryRange` | internal/delivery/retry.go:18-27 | A job without a policy is left to the queue; any other is retried after between half and all of its ceiling in seconds. |
| `Backoff.NoShorterNext` | internal/delivery/retry.go:39-57 | Before the cap each delay is at least every possible delay of the previous attempt. |
| `Backoff.ShorterAtTheCap` | internal/delivery/retry.go:49-57 | At the cap a later delay can be shorter. |
| `Backoff.UncappedIsPrefix` | internal/delivery/retry.go:39-51 | Once an attempt is capped all later ones are. |
| `Backoff.TotalBounds` | internal/delivery/retry.go:18-58 | The total over n retries lies between the sum of the halves and base * (2^m - 1) + (n - m) * cap, m being the uncapped steps. |
| `Backoff.DefaultSpread` | internal/api/destinations.go:19-26 | The default policy's 15 waits sum to between 32 and 66 hours. |
| `Codec.HexRoundTrip` | internal/sourcedef/sign.go:59-68 | Hexadecimal decoding undoes encoding (section 8 of RFC 4648). |
| `Codec.HexAt` | internal/sourcedef/sign.go:59-68 | Each byte is two lower-case digits, high half first. |
| `Codec.HexDecodeIff` | internal/sourcedef/verify.go:134-143 | Hexadecimal decoding accepts exactly the encodings, in either case. |
| `Codec.Base64RoundTrip` | internal/sourcedef/verify.go:134-143 | Base64 decoding undoes encoding, padding included (section 4 of RFC 4648). |
| `Codec.Base64At` | internal/sourcedef/sign.go:59-68 | The encoding is one group of four characters after the other, for three, two or one bytes. |
| `Codec.GroupsAreNumbers` | internal/sourcedef/sign.go:59-68 | A group writes its 24 bits as four digits of six bits, highest first. |
| `Codec.PaddedAreNumbers` | internal/sourcedef/sign.go:59-68 | A short group is filled up with zero bits and padded with '='. |
| `Codec.QuadsOnly` | internal/sourcedef/verify.go:134-143 | What decodes is, but for spare bits of its last group, the encoding of what it decodes to. |
| `Codec.ParseDecimal` | internal/sourcedef/verify.go:64-67 | Every timestamp up to 2^63 - 1 parses back from its decimal text. |
| `Codec.ParseSigned` | internal/sourcedef/verify.go:64-67 | A sign may stand before the digits, and a number of more than 64 bits is refused. |
| `Signature.ParseSignatureFields` | internal/sourcedef/verify.go:124-132 | The loop that fills the map computes the specified parse. |
| `Signature.ParsePrint` | internal/sourcedef/verify.go:124-132 | Parsing a printed list of clean fields gives back its last-wins map. |
| `Signature.AssignTrims` | internal/sourcedef/verify.go:126-130 | The text before a part's first '=' names the text after it, both trimmed; a part without '=' assigns nothing. |
| `Signature.TrimSplits` | internal/sourcedef/verify.go:128-128 | Trimming takes all white-space characters of Unicode off both ends, and nothing else. |
| `Signature.SplitAt` | internal/sourcedef/verify.go:126-126 | A separator between two strings separates their parts, for all strings. |
| `Signature.ExtraField` | internal/sourcedef/verify.go:122-132 | A part of another name, anywhere in any header, leaves a field as it was. |
| `Signature.ExtraFieldsIgnored` | internal/sourcedef/verify.go:46-90 | Such a part never changes a verdict, whatever the header. |
| `Signature.SignHeaders` | internal/sourcedef/sign.go:16-57 | The loop over sample headers and the scheme's header compute the specified header map. |
| `Signature.SignThenVerify` | internal/sourcedef/sign.go:12-57 | For every scheme, body, secret and sample headers: verification of a signed request is true if and only if the hash is not empty and, for a stamped scheme, both names are clean, they differ and the stamp is within tolerance (or they are equal and the signature reads as a fitting stamp); an API key needs a prefix or a secret; an unknown scheme is an error. |
| `Signature.OnlyItsMac` | internal/sourcedef/verify.go:83-90 | For arbitrary headers: a header accepted for one secret, body and hash is refused wherever the hash over the payload is another. |
| `Signature.SameSignature` | internal/sourcedef/verify.go:83-90 | Two headers accepted for one payload decode to the same bytes, the hash itself. |
| `Signature.StaleIsRefused` | internal/sourcedef/verify.go:59-76 | A stamp that is no number or lies outside the tolerance is refused whatever the signature. |
| `Signature.OnlyItsSecret` | internal/sourcedef/verify.go:92-120 | A header accepted as an API key or basic credentials is refused for every other secret. |
| `Signature.AcceptedSecret` | internal/sourcedef/verify.go:92-120 | What such a header holds: the prefix and the secret, or the bare secret; "Basic " and a base64 form of the secret. |
| `Signature.NoHeaderIsRefused` | internal/sourcedef/verify.go:29-50 | Without its header a request is refused, unless nothing is checked; an unknown scheme is an error. |
| `Signature.GetsFirst` | internal/sourcedef/verify.go:47-47 | Of several values of one header the first counts, whatever the spelling of its name. |
| `Signature.Wrap64Is` | internal/sourcedef/verify.go:70-73 | The distance of two stamps is computed in 64-bit two's complement. |
| `Signature.SignWrites` | internal/sourcedef/sign.go:16-57 | The header that signing writes, character by character, for every scheme. |
| `Signature.SamplesLast` | internal/sourcedef/sign.go:17-20 | Of sample headers with one canonical name the last one stands. |
| `Signature.EqualNamesFail` | internal/sourcedef/catalog.go:93-99 | With one name for both fields, a signature that is not a decimal number is refused. |
| `Signature.EqualNamesExample` | internal/sourcedef/catalog.go:93-99 | A concrete definition with both fields named "t": signed and verified at once, refused. |
| `Signature.ParsedNamesClean` | internal/sourcedef/verify.go:124-132 | Whatever a header holds, parsed names hold no comma, no '=' and no outer white space. |
| `Signature.StampedVerifies` | internal/sourcedef/verify.go:57-90 | A stamped header is accepted exactly under the stated condition on names, hash and time. |
| `Paging.PageSize` | internal/api/events.go:146-154 | 50 by default, the limit up to 200, 200 above, an error for a non-positive limit. |
| `Paging.Sorted` | internal/db/events.sql.go:254-268 | The listing is strictly descending and holds each row exactly once. |
| `Paging.SortedUnique` | internal/db/events.sql.go:254-268 | There is only one strictly descending listing of a set. |
| `Paging.List` | internal/api/events.go:56-93 | Trimming the extra row and copying the rest yields the specified page and cursor. |
| `Paging.PageSplits` | internal/api/events.go:70-78 | A page is the head of what remains, and its cursor leaves exactly the tail. |
| `Paging.NextStays` | internal/api/events.go:70-78 | With arrivals in between, the next cursor is a row of the initial store and leaves strictly fewer rows. |
| `Paging.WalkIsComplete` | internal/api/events.go:56-93 | Following `next_cursor` ends and yields each matching event present at the start exactly once, newest first, whatever arrives between the pages. |

## Left out

- HTTP decoding and status codes, CRUD endpoints, configuration, logging, metrics, the dashboard and the CLI: one-branch facts.
- The internals of River, Postgres and the WebSocket library: they appear as the assumptions above. Cleanup of finished jobs by River is not modelled.
- CEL compilation and evaluation: one rule's verdict is an arbitrary input.
- SHA, HMAC and AES: the keyed hash and the digest are arbitrary functions. Whether its output is empty, which that of HMAC never is, is part of the stated conditions.
- JSON decoding: a parsed body is a tree; a body that does not parse is the case without a tree.
- Tenancy: the model has one tenant. Sources have no table of their own; a request carries its source's settings.
- Columns that no decision depends on: bodies, headers, durations, error texts, `next_attempt_at`, `last_attempted_at`, `updated_at`.
- The order of a tunnel's ready frame and its first event frame: routes exist before the ready frame is written, so no order is claimed.
- The wiring of the pacer into the worker: in the state machine a delivery is paced or not by an arbitrary flag; the pacer itself is modelled in `Pacing`.
- Overflow of `attempt_count` and of delivery ids.
- Verification at negative or extreme timestamps: the 64-bit subtraction is modelled with its wrap-around, but `Signature.SignThenVerify` is stated for clock readings from 0 to 2^63 - 1. Definitions with an unknown encoding or algorithm, which validation rejects, are not modelled.
- Backoff with a non-positive cap: the conversion of an overflowing float is platform-defined. A cap is positive in the theorems.
- Floating-point rounding in the buckets: token counts are reals.
- Two concurrent holders of one bucket across a rate change, where the old bucket is still in use by a call that fetched it before: a call is one step.
- Replay filters, alert cooldown, sessions, API keys and password handling.
- Database faults: a failing statement is chosen by a counter, which stands for any database error, cancelled context or failed commit.
