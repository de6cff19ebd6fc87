# Order back office: the hard parts, modelled and proved in Dafny

A verification project for the self-contained, hard pieces of a multi-tenant restaurant back office:
its durable job queue, its idempotency protocol and canonical JSON, its at-most-once import of
external sales, its hand-written file formats, its fee apportionment, and four small machines that
run for the life of a process. `dafny verify dfyconfig.toml` checks all of it.

Code that changes state is a class or a method with the loops and fields of the source, and its
contract ties the new state to a specification function; the lemmas then speak of those functions
over every input, every run or every interleaving. Protocols that several processes drive are state
machines whose steps are the atomic database calls: any worker may take any step at any time, crash,
and come back.

| file | what it models |
|---|---|
| `StableJson.dfy` | the canonical serializer behind the request hash, and a JSON reader |
| `Idempotency.dfy` | claim, complete, fail and reclaim of idempotency records |
| `JobTable.dfy`, `JobRuns.dfy`, `JobTimes.dfy`, `ClaimOrder.dfy` | the job repository; what every interleaving keeps; due times and leases; the fairness of claims |
| `JobWorker.dfy`, `Backoff.dfy` | one turn of a worker; retry delays |
| `RoundRobin.dfy`, `FairOrder.dfy` | dealing in turn; the fair order of candidates |
| `SalesImport.dfy`, `SalesLoops.dfy` | the race on external sale identities; the two import loops |
| `ZipArchive.dfy`, `PdfFile.dfy`, `CsvFile.dfy`, `Spreadsheet.dfy` | the file writers, each with a reader that undoes it |
| `CrcPolynomial.dfy`, `Layout.dfy`, `Decimal.dfy`, `Basics.dfy`, `Wrappers.dfy` | the checksum as polynomial division; what stands where in a file; decimal numbers; small shared things; options |
| `DreFees.dfy` | real order fees and the monthly summary |
| `ImageUpload.dfy` | the verifying stream and the image headers |
| `RateLimit.dfy`, `AdaptivePoller.dfy`, `MemoryPressure.dfy` | the three long-running machines |

What the environment decides is a parameter: clocks and random numbers, which rows a query without
an order answers, what a handler or an import comes to, how a stream is cut into chunks, and every
step of other workers. The memory figure, the uploaded bytes and the sales are inputs.

Where the code does something its names and comments do not say, the model follows the code:

* The release of a PAGBANK CSV row names no environment, so it deletes the unlinked claim of the same
  sale in the other environment too. `SalesImport.ReleaseIsSafeIff` gives the exact condition under
  which a release keeps at-most-once; production identities always meet it.
* The one-handler and replay guarantees hold only while time does not overtake a holder or a claim.
  `Idempotency.StepIsSafeIff` gives the exact condition for every step; `Idempotency.LateHandlerIsNotAlone`
  and `Idempotency.LateClaimErasesResponse` show, in any state, what each lapse does.
* A refresh during a task schedules a run without delay, but hiding the page before that timer fires
  replaces it; `AdaptivePoller.ZeroDelayStep` says exactly which events do.
* A change of the memory level takes two observations even where one is configured.
* The remainder rule can leave the last item of an order a negative fee, from three items on:
  `DreFees.SharesNotNegativeIff`.
* A JPEG whose segments push its frame header past the first 64 KiB is refused as a wrong signature:
  `ImageUpload.AcceptsJpeg`.
* The WebP signature is decoded as "ascii", which drops the top bit of every byte:
  `ImageUpload.ForgedSignatureReads`.
* A worker asks only for types it has handlers for, so its branch for a missing handler cannot be
  reached; the lookup in `JobWorker.Worker.RunOnce` is proved to succeed.

## Model

| member | source | states |
|---|---|---|
| `StableJson.SameTextIffSameMeaning` | apps/api/src/common/idempotency/idempotency.service.ts:117-126 | Two payloads have the same canonical text exactly when they say the same up to member order at every depth; so the request hash identifies the payload |
| `StableJson.DecodeStable` | apps/api/src/common/idempotency/idempotency.service.ts:117-126 | A JSON reader recovers the meaning of a payload from its canonical text, whatever may legally follow the text: nested output is unambiguous |
| `StableJson.ReadEscape` | apps/api/src/common/idempotency/idempotency.service.ts:119-124 | A string in quotes, escaped as in section 7 of RFC 8259 with lone surrogates as \u escapes, reads back unit by unit |
| `StableJson.EscapesOnlyWhatItMust` | apps/api/src/common/idempotency/idempotency.service.ts:119-124 | A text of units that need no escape stands for itself between its quotes |
| `StableJson.SortKeysSorts` | apps/api/src/common/idempotency/idempotency.service.ts:122-123 | Sorting the keys gives a strictly ascending listing of exactly those keys, by code units |
| `Idempotency.IdempotencyService.TryCreate` | apps/api/src/common/idempotency/idempotency.service.ts:30-45 | The insert succeeds exactly when no record has the key, and then stores a pending one |
| `Idempotency.IdempotencyService.Reclaim` | apps/api/src/common/idempotency/idempotency.service.ts:73-85 | The guarded update takes over exactly a failed or expired record and resets it |
| `Idempotency.IdempotencyService.ClaimKey` | apps/api/src/common/idempotency/idempotency.service.ts:20-92 | A claim that nothing interrupts: the reply and the new records, for every state of the record |
| `Idempotency.IdempotencyService.CompleteRecord` | apps/api/src/common/idempotency/idempotency.service.ts:94-103 | Stores status and body unconditionally, and touches no other record |
| `Idempotency.IdempotencyService.FailRecord` | apps/api/src/common/idempotency/idempotency.service.ts:105-110 | Fails a record only while it is pending |
| `Idempotency.AloneIsRun` | apps/api/src/common/idempotency/idempotency.service.ts:20-92 | A claim that nothing interrupts is a run of the steps create, find, decide and reclaim, as many as it takes: same records, and the reply that run gives |
| `Idempotency.AloneSays` | apps/api/src/common/idempotency/idempotency.service.ts:30-91 | The reply and the record, by the record found: taken if there is none, if it failed or if it expired while pending; replayed if completed; else a conflict |
| `Idempotency.CompletedIsReplayed` | apps/api/src/common/idempotency/idempotency.service.ts:61-67 | After a completion the same payload is answered exactly the stored status and body, any other payload a conflict, and the records stay |
| `Idempotency.FailedIsClaimed` | apps/api/src/common/idempotency/idempotency.service.ts:69-110 | After a failure the same payload is claimed again, for the time it asks; no other record changes |
| `Idempotency.HashFixed` | apps/api/src/common/idempotency/idempotency.service.ts:57-85 | In every interleaving, timely or not, the stored request hash of a key never changes |
| `Idempotency.StepKeeps` | apps/api/src/common/idempotency/idempotency.service.ts:30-110 | Every timely step keeps: one holder a key, handlers only on pending unexpired records, and no claim, whatever row it has read, that would reclaim a completed record |
| `Idempotency.RunKeeps` | apps/api/src/common/idempotency/idempotency.interceptor.ts:37-66 | Over whole timely runs with any number of requests, crashes included, at most one handler holds a key at a time |
| `Idempotency.CompletedStays` | apps/api/src/common/idempotency/idempotency.service.ts:61-67 | Once completed, a record is never changed again in a timely run |
| `Idempotency.ReplaysForever` | apps/api/src/common/idempotency/idempotency.service.ts:57-67 | After a completion every claim that reads the row from then on is answered, whenever it decides: the same payload gets exactly that status and body, any other a conflict |
| `Idempotency.LateHandlerIsNotAlone` | apps/api/src/common/idempotency/idempotency.service.ts:69-91 | In any state, a handler that outlives its record's expiry shares the key with a second one: a request with the same payload claims it by five timely steps |
| `Idempotency.LateClaimErasesResponse` | apps/api/src/common/idempotency/idempotency.service.ts:69-91 | In any state, a claim that read the row earlier and decides by it after the completed record has expired erases the stored response and runs its handler |
| `Idempotency.LateClaimIsReached` | apps/api/src/common/idempotency/idempotency.service.ts:30-91 | A timely run from the empty system leads to such a claim: it read the row of a pending record that has been completed since |
| `Idempotency.StepIsSafeIff` | apps/api/src/common/idempotency/idempotency.service.ts:30-110 | The exact condition, for every step in every state that keeps the invariant: all timely continuations keep one holder a key and every stored response if and only if the step is timely |
| `Idempotency.ReachedIsKept` | apps/api/src/common/idempotency/idempotency.service.ts:30-110 | Every state that a timely run reaches from the empty system keeps that invariant, and all its hashes are of payloads, as the exact condition asks |
| `Idempotency.PromptRunIsTimely` | apps/api/src/common/idempotency/idempotency.service.ts:28-91 | It is enough that no handler and no claim in flight outlives an expiry: its own, that of the row it has read, or that of the record |
| `JobTable.JobRepository.Enqueue` | apps/api/src/common/background-jobs/background-job.repository.ts:36-62 | A new pending row with no attempts; an active job with the same active key is answered instead, or the call refused if that key is the empty string; so is a maximum of no attempts |
| `JobTable.JobRepository.FindActive` | apps/api/src/common/background-jobs/background-job.repository.ts:53-58 | Some active job with the key, and none only when the key is free |
| `JobTable.JobRepository.FindExpired` | apps/api/src/common/background-jobs/background-job.repository.ts:245-249 | A page of distinct expired rows: all of them, or 25 |
| `JobTable.JobRepository.RecoverExpired` | apps/api/src/common/background-jobs/background-job.repository.ts:244-273 | Every row of the page is put back or failed by its attempts and its running attempt abandoned; nothing else changes |
| `JobTable.JobRepository.LastServedAt` | apps/api/src/common/background-jobs/background-job.repository.ts:86-91 | The loop computes that maximum |
| `JobTable.JobRepository.SelectNext` | apps/api/src/common/background-jobs/background-job.repository.ts:76-96 | The chosen row is claimable and first in claim order; none is chosen only when none is claimable |
| `JobTable.JobRepository.ClaimNext` | apps/api/src/common/background-jobs/background-job.repository.ts:64-142 | The whole claim transaction: recovery, choice, lease, attempt row; no change at all for an empty list of priorities or types |
| `JobTable.JobRepository.Heartbeat` | apps/api/src/common/background-jobs/background-job.repository.ts:148-154 | Extends the lease exactly for its owner |
| `JobTable.JobRepository.ReportProgress` | apps/api/src/common/background-jobs/background-job.repository.ts:156-175 | Rejects improper counts, otherwise records them exactly for the owner |
| `JobTable.JobRepository.RetryOrFail` | apps/api/src/common/background-jobs/background-job.repository.ts:177-220 | Puts back or fails the owner's job by its attempts and closes the attempt row; null and no change for anyone else |
| `JobTable.JobRepository.Complete` | apps/api/src/common/background-jobs/background-job.repository.ts:222-242 | Succeeds the owner's job and closes its attempt row; false and no change for anyone else |
| `JobRuns.StepKeeps` | apps/api/src/common/background-jobs/background-job.repository.ts:97-270 | Every repository call by any worker keeps the ledger: attempts = leaseVersion = number of attempt rows 1..attempts, and the states of job and last attempt agree |
| `JobRuns.RunKeeps` | apps/api/src/common/background-jobs/background-job.repository.ts:64-273 | So does every interleaving of calls by any number of workers |
| `JobRuns.ReachedKeeps` | apps/api/src/common/background-jobs/background-job.repository.ts:36-273 | So every table reached from the empty one keeps the ledger, and at most one job with an active key is active in it |
| `JobRuns.RunningRow` | apps/api/src/common/background-jobs/background-job.repository.ts:229-231 | An attempt row is running exactly when its job runs and the row is numbered by the lease version, which is what completion looks it up by |
| `JobRuns.TakeKeeps` | apps/api/src/common/background-jobs/background-job.repository.ts:97-139 | A claim's attempt number is free, so the unique key of the ledger is never violated |
| `JobRuns.Fenced` | apps/api/src/common/background-jobs/background-job.repository.ts:148-242 | Once a lease is recovered, retried or completed, every later heartbeat, progress, retry or completion that presents it changes nothing |
| `JobRuns.EndedOnce` | apps/api/src/common/background-jobs/background-job.repository.ts:177-261 | Each lease version is ended at most once in any run |
| `JobRuns.FinalForever` | apps/api/src/common/background-jobs/background-job.repository.ts:79-104 | A succeeded or failed job and its attempt rows are never touched again, in any run |
| `JobRuns.LeaseEndsIff` | apps/api/src/common/background-jobs/background-job.repository.ts:148-261 | A step ends a live lease if and only if its owner retries or completes with it, or a recovery reaches the job after the lease's expiry; otherwise the attempt stays the same |
| `JobRuns.LeaseKept` | apps/api/src/common/background-jobs/background-job.repository.ts:148-261 | Over any run without such a step the lease is kept, and with it owner, attempt and limits |
| `JobRuns.LeaseExclusive` | apps/api/src/common/background-jobs/background-job.repository.ts:148-261 | So a lease is its owner's alone as long as claims and recoveries come no later than its expiry at that moment, heartbeats included |
| `JobRuns.KeysStayUnique` | apps/api/src/common/background-jobs/background-job.repository.ts:36-60 | In every run at most one job with an active key is pending, running or waiting to retry |
| `JobRuns.RecoveriesLeave` | apps/api/src/common/background-jobs/background-job.repository.ts:244-273 | Of n expired leases k recoveries leave max(0, n - 25 k) |
| `JobRuns.SeenKeepsIff` | apps/api/src/common/background-jobs/background-job.repository.ts:250-271 | A recovery's update whose status goes by an older reading of the row keeps the ledger if and only if that reading calls for the same status |
| `JobRuns.SeenIsCurrent` | apps/api/src/common/background-jobs/background-job.repository.ts:245-261 | Whatever calls come between the reading of the page and the update, it does what an undivided recovery does, as long as no lease granted in between ends before the recovery's own time |
| `JobTimes.ClaimedIsDue` | apps/api/src/common/background-jobs/background-job.repository.ts:76-96 | A claim takes no job but one that waits, is due, has an attempt left and is admitted; it waited before, or its lease had expired |
| `JobTimes.NotBeforeRetry` | apps/api/src/common/background-jobs/background-job.repository.ts:177-218 | A job given back until a time is in no run claimed before that time, and its row stays as it is |
| `JobTimes.FinalNeverTaken` | apps/api/src/common/background-jobs/background-job.repository.ts:79-81 | A finished job is never claimed |
| `JobTimes.LeaseLasts` | apps/api/src/common/background-jobs/background-job.repository.ts:74-107 | A job claimed at now for leaseMs is its worker's alone until now + leaseMs |
| `JobTimes.HeartbeatProlongs` | apps/api/src/common/background-jobs/background-job.repository.ts:148-154 | A heartbeat at now for leaseMs makes that now + leaseMs |
| `JobTimes.LeaseRunsOut` | apps/api/src/common/background-jobs/background-job.repository.ts:244-272 | Past its expiry a recovery that finds the job takes the lease, gives the job back at once or fails it for good when no attempt is left, and abandons the attempt |
| `JobTimes.GivenBackSays` | apps/api/src/common/background-jobs/background-job.repository.ts:192-218 | What a retry or failure writes to the job and to its attempt row, the error code cut at 80 characters |
| `JobTimes.SucceededSays` | apps/api/src/common/background-jobs/background-job.repository.ts:222-242 | What a completion writes to the job and to its attempt row |
| `JobTimes.StartedOnce` | apps/api/src/common/background-jobs/background-job.repository.ts:104-104 | The time of the first claim stays, whatever becomes of that attempt |
| `JobRuns.ClaimsArePaid` | apps/api/src/common/background-jobs/background-job.repository.ts:64-142 | In any run the claims made and left equal the claims there were and were enqueued: a finite set of jobs is claimed finitely often |
| `JobRuns.NeverStuck` | apps/api/src/common/background-jobs/background-job.repository.ts:79-83 | A waiting job that is due and admitted is claimable, and a claim then takes something |
| `ClaimOrder.BetterPriorityFirst` | apps/api/src/common/background-jobs/background-job.repository.ts:84-96 | A claimable job of a better priority is taken before any of a worse one |
| `ClaimOrder.LeastServedFirst` | apps/api/src/common/background-jobs/background-job.repository.ts:84-93 | Within a priority the tenant served longest ago comes first |
| `ClaimOrder.BoundedBypass` | apps/api/src/common/background-jobs/background-job.repository.ts:76-96 | After a tenant has been served later than all others, no job of it at the same or a worse priority is claimed over a claimable job of a tenant not served since, whatever any workers do in between |
| `ClaimOrder.ClaimedAtMostOnce` | apps/api/src/common/background-jobs/background-job.repository.ts:76-96 | Over a whole run of one worker whose jobs succeed at increasing times: while a tenant's job is due and admitted at every claim and nothing of that tenant completes, every other tenant is claimed from at most once at that priority or a worse one |
| `ClaimOrder.ClaimsBeforeTurn` | apps/api/src/common/background-jobs/background-job.repository.ts:76-96 | All together: in such a run the claims from other tenants at that priority or a worse one are no more than the other tenants that have jobs |
| `ClaimOrder.ClaimedInOrder` | apps/api/src/common/background-jobs/background-job.repository.ts:84-93 | All columns of the order: priority by name, then the tenant served longest ago, then the job available first, then the one created first |
| `ClaimOrder.OldestFirst` | apps/api/src/common/background-jobs/background-job.repository.ts:84-93 | Jobs of one tenant, or of tenants never served, are taken in the order in which they became available |
| `JobWorker.Worker.AdmittedPriorities` | apps/api/src/common/background-jobs/background-job.worker.ts:154-158 | The priorities asked for are those the memory pressure admits |
| `JobWorker.Worker.RunOnce` | apps/api/src/common/background-jobs/background-job.worker.ts:55-140 | One turn as claim, heartbeat, handler, progress and closing, with any steps of other workers at every wait; the claimed job's type always has a handler, and a turn without a job found nothing claimable |
| `JobWorker.NoLeaseLeft` | apps/api/src/common/background-jobs/background-job.worker.ts:97-139 | Whatever the others do and however the handler ends, the worker keeps no lease |
| `JobWorker.LostLeaseChangesNothing` | apps/api/src/common/background-jobs/background-job.worker.ts:97-137 | A worker whose lease was recovered meanwhile changes nothing any more |
| `JobWorker.TurnKeepsLedger` | apps/api/src/common/background-jobs/background-job.worker.ts:55-140 | A turn keeps the ledger as long as the others' steps are possible ones |
| `JobWorker.KeptTurn` | apps/api/src/common/background-jobs/background-job.worker.ts:74-137 | What a turn achieves under any steps of others and any heartbeats that do not end its lease: the job succeeds exactly when its handler returned a proper count or none, is else put back or failed by its attempts, the attempt row says so, and closing touches no other row |
| `JobWorker.TimelyTurn` | apps/api/src/common/background-jobs/background-job.worker.ts:74-137 | The same whenever claims and recoveries come no later than the lease's expiry, as the turn's own heartbeats have moved it |
| `JobWorker.UndisturbedTurn` | apps/api/src/common/background-jobs/background-job.worker.ts:55-140 | With no steps of others nothing else in the whole table changes |
| `JobWorker.HandlerSettings` | apps/api/src/common/background-jobs/background-job.worker.ts:90-124 | Which lease and retry settings a handler gets: its own, the defaults, or the worker's |
| `JobWorker.FulfilledIff` | apps/api/src/common/background-jobs/background-job.worker.ts:103-119 | An attempt is fulfilled exactly if its handler returned no count or a proper one |
| `JobWorker.RetryIsLater` | apps/api/src/common/background-jobs/background-job.worker.ts:125-133 | The retry comes exactly the policy's delay after the end, at least a millisecond |
| `Backoff.RetryDelayBounds` | apps/api/src/common/background-jobs/background-job-policy.ts:34-40 | A retry waits at least a millisecond and at most the maximum, which is rounded if it is no whole number, and within the jitter ratio of the doubled base delay |
| `Backoff.RetriesSpreadOut` | apps/api/src/common/background-jobs/background-job-policy.ts:35-36 | Before jitter a later attempt never waits less |
| `Backoff.RetriesDouble` | apps/api/src/common/background-jobs/background-job-policy.ts:35-36 | The first delay is the base, and each further attempt doubles the one before, up to the maximum |
| `Backoff.JitterIsEven` | apps/api/src/common/background-jobs/background-job-policy.ts:37-38 | The least random number takes the whole portion off, the greatest adds it, and others lie in proportion |
| `Backoff.RetryWithoutJitter` | apps/api/src/common/background-jobs/background-job-policy.ts:34-40 | In the middle of the jitter the delay is the doubled one, rounded |
| `Backoff.RoundsHalfUp` | apps/api/src/common/background-jobs/background-job-policy.ts:39-39 | Delays are rounded to the nearest whole number, up from the middle |
| `FairOrder.Permutation` | apps/api/src/common/background-jobs/background-job-policy.ts:42-64 | The fair order lists the candidates, each exactly as often as given |
| `FairOrder.QueueOrderKept` | apps/api/src/common/background-jobs/background-job-policy.ts:47-62 | Each tenant's jobs come out complete and in candidate order |
| `FairOrder.InTurn` | apps/api/src/common/background-jobs/background-job-policy.ts:56-64 | Round robin: in every prefix no tenant is more than one job ahead of a tenant that still has jobs left |
| `FairOrder.SortSorts` | apps/api/src/common/background-jobs/background-job-policy.ts:43-43 | Sorting gives an ordered permutation |
| `FairOrder.SortedPrecedes` | apps/api/src/common/background-jobs/background-job-policy.ts:67-74 | The order in the candidates' fields: priority by name, then availability, creation and identifier |
| `FairOrder.QueuePrecedes` | apps/api/src/common/background-jobs/background-job-policy.ts:56-62 | Within each queue the jobs come out in that order |
| `FairOrder.SharedQueueIff` | apps/api/src/common/background-jobs/background-job-policy.ts:48-49 | Exactly which candidates share a queue |
| `FairOrder.QueuesBegin` | apps/api/src/common/background-jobs/background-job-policy.ts:56-62 | The order begins with the first job of every queue, queue by queue |
| `FairOrder.BetterQueueFirst` | apps/api/src/common/background-jobs/background-job-policy.ts:45-62 | Queues take their turns in the order of their first jobs |
| `FairOrder.OrderFairly` | apps/api/src/common/background-jobs/background-job-policy.ts:42-65 | The nested loops end and compute the fair order |
| `RoundRobin.Group` | apps/api/src/common/background-jobs/background-job-policy.ts:44-54 | One queue per key, in order of first appearance, holding that key's elements in order |
| `RoundRobin.KeysByAppearance` | apps/api/src/common/background-jobs/background-job-policy.ts:44-54 | The queues are listed in the order of their first elements |
| `RoundRobin.Deal` | apps/api/src/common/background-jobs/background-job-policy.ts:58-61 | One pass takes the first element of every queue that has one |
| `SalesImport.StepKeeps` | apps/api/src/management/sales-integrations/external-sale-identity.service.ts:22-106 | Every database step of any worker keeps: one busy worker a sale, an unlinked sale has no order, at most one order |
| `SalesImport.AtMostOnce` | apps/api/src/management/sales-integrations/sales-import-confirmation.service.ts:62-149 | Over every interleaving, crash and restart at most one order is created for a sale, unless a CSV release hits its claim in another environment |
| `SalesImport.AlwaysAtMostOnce` | apps/api/src/ordering/historical-order-import.service.ts:294-385 | For production identities, and for every provider but PAGBANK, that exception cannot occur |
| `SalesImport.LinkedStays` | apps/api/src/management/sales-integrations/external-sale-identity.service.ts:36-40 | An identity that is linked to an order is never deleted or unlinked, in any run |
| `SalesImport.ReleaseIsSafeIff` | apps/api/src/ordering/historical-order-import.service.ts:378-385 | The exact condition: a release leaves the sale safe in every continuation if and only if it is not such a hit |
| `SalesImport.HitIsReached` | apps/api/src/ordering/historical-order-import.service.ts:300-385 | A run from the empty state leads to such a hit: the sale is claimed in the test environment, and the CSV import claims the same sale and fails |
| `SalesImport.TwoOrdersAreReached` | apps/api/src/ordering/historical-order-import.service.ts:300-385 | So any PAGBANK sale of the test environment can come to have two orders |
| `SalesLoops.SalesTables.Claim` | apps/api/src/management/sales-integrations/external-sale-identity.service.ts:22-34 | The insert claims the sale exactly when nobody has |
| `SalesLoops.SalesTables.Release` | apps/api/src/management/sales-integrations/external-sale-identity.service.ts:36-40 | The release deletes exactly this integration's unlinked identity |
| `SalesLoops.SalesTables.ReleaseCsvRow` | apps/api/src/ordering/historical-order-import.service.ts:378-383 | The CSV release deletes the unlinked identities of every environment |
| `SalesLoops.SalesTables.CreateOrder` | apps/api/src/management/sales-integrations/external-sale-identity.service.ts:84-106 | The transaction creates the order, links the identity and marks the movement, or does nothing |
| `SalesLoops.SalesTables.ConfirmOne` | apps/api/src/management/sales-integrations/sales-import-confirmation.service.ts:63-148 | One turn of the confirmation loop, in all its branches |
| `SalesLoops.SalesTables.Confirm` | apps/api/src/management/sales-integrations/sales-import-confirmation.service.ts:54-158 | The loop computes the fold of its turns; the run completes without errors exactly when no movement failed |
| `SalesLoops.SalesTables.ImportCsv` | apps/api/src/ordering/historical-order-import.service.ts:294-388 | The PAGBANK CSV loop computes the fold of its rows and stops at the first failure |
| `SalesLoops.MovementIsRun` | apps/api/src/management/sales-integrations/sales-import-confirmation.service.ts:75-148 | A turn is a run of the atomic steps, so what holds of every interleaving holds of the loop |
| `SalesLoops.RowIsRun` | apps/api/src/ordering/historical-order-import.service.ts:294-388 | So is a row of the CSV import |
| `SalesLoops.CountsAddUp` | apps/api/src/management/sales-integrations/sales-import-confirmation.service.ts:54-95 | Every movement is counted once, and the orders created are exactly the imports counted |
| `SalesLoops.ConfirmAtMostOnce` | apps/api/src/management/sales-integrations/sales-import-confirmation.service.ts:62-149 | A whole confirmation creates at most one order a sale, and none for a sale already claimed |
| `SalesLoops.ConfirmAgain` | apps/api/src/management/sales-integrations/sales-import-confirmation.service.ts:50-149 | Confirming the run again creates no order for a sale that the first time left with an identity |
| `SalesLoops.CsvCountsAddUp` | apps/api/src/ordering/historical-order-import.service.ts:298-309 | Without a failure every row is imported or skipped, and the orders created are the imports counted |
| `SalesLoops.CsvAtMostOnce` | apps/api/src/ordering/historical-order-import.service.ts:294-388 | A whole CSV import keeps every sale outside the test environment in order: at most one order, and no new one if it was claimed |
| `SalesLoops.CsvAgain` | apps/api/src/ordering/historical-order-import.service.ts:294-309 | Importing the same file again after an import without a failure skips every row and changes nothing |
| `SalesLoops.TurnSays` | apps/api/src/management/sales-integrations/sales-import-confirmation.service.ts:63-148 | Every turn by what it finds: what becomes of orders, identity and movement, and which one counter it moves |
| `SalesLoops.ImportedIff` | apps/api/src/management/sales-integrations/sales-import-confirmation.service.ts:62-149 | Exactly what a confirmation imports: one order for each movement that could be imported when its turn came, linked and under its sale's key, and nothing else |
| `SalesLoops.ImportStays` | apps/api/src/management/sales-integrations/sales-import-confirmation.service.ts:106-139 | An imported movement ends with its order, its linked identity and the status imported, whatever later turns do |
| `SalesLoops.RowSays` | apps/api/src/ordering/historical-order-import.service.ts:294-388 | Every row of the CSV import by what it finds |
| `SalesLoops.CsvImportedIff` | apps/api/src/ordering/historical-order-import.service.ts:294-388 | Exactly which orders a CSV import creates: one for each row whose sale was new and whose import succeeded |
| `SalesLoops.RowStays` | apps/api/src/ordering/historical-order-import.service.ts:364-379 | And each stays, linked to the identity of its sale |
| `ZipArchive.ReadBack` | apps/api/src/management/exports/export-job.worker.ts:1100-1159 | Reading the end record, the central directory and each local header at its stored offset recovers names and contents in order, for any entries that fit the fields (sections 4.3.7, 4.3.12, 4.3.16 of APPNOTE) |
| `ZipArchive.CreateZip` | apps/api/src/management/exports/export-job.worker.ts:1100-1159 | The loop computes that archive, and fails with the RangeError exactly when some field does not fit |
| `ZipArchive.PartsOfArchive` | apps/api/src/management/exports/export-job.worker.ts:1104-1146 | Every entry stands at the offset its directory record stores |
| `ZipArchive.WriteLocalHeader` | apps/api/src/management/exports/export-job.worker.ts:1107-1119 | The eleven writes at fixed offsets fill the buffer with the fields of the header in order |
| `ZipArchive.WriteCentralHeader` | apps/api/src/management/exports/export-job.worker.ts:1122-1140 | So do the seventeen writes of a directory record |
| `ZipArchive.WriteEndRecord` | apps/api/src/management/exports/export-job.worker.ts:1146-1156 | So do the eight writes of the end record |
| `ZipArchive.WriteUInt16LE` | apps/api/src/management/exports/export-job.worker.ts:1111-1116 | A two-byte write at an offset leaves the rest alone, and is refused out of range |
| `ZipArchive.WriteUInt32LE` | apps/api/src/management/exports/export-job.worker.ts:1110-1118 | So does a four-byte write |
| `ZipArchive.ComputeCrc32` | apps/api/src/management/exports/export-job.worker.ts:1161-1173 | The loop computes the reflected CRC-32 |
| `ZipArchive.CrcDetectsOneByte` | apps/api/src/management/exports/export-job.worker.ts:1161-1173 | The checksum notices every change confined to one byte |
| `CrcPolynomial.CrcIsRemainder` | apps/api/src/management/exports/export-job.worker.ts:1161-1173 | The checksum is the remainder of a long division of polynomials by the CRC-32 generator, its first 32 coefficients and the result complemented |
| `PdfFile.ReadBack` | apps/api/src/management/exports/export-job.worker.ts:967-1003 | Reading startxref, table, catalog, page tree and every page gives back each page's box, fonts and content stream, in order, exactly when the last object starts below 10^10; else the table is unreadable (sections 7.5.4, 7.5.5 of ISO 32000-1) |
| `PdfFile.BuildPdfPages` | apps/api/src/management/exports/export-job.worker.ts:967-1003 | The loops over objects, offsets and entries compute that file |
| `PdfFile.TableReads` | apps/api/src/management/exports/export-job.worker.ts:984-1001 | startxref is the position of the table, its entries are the positions of the objects, and /Size is their number with the free one |
| `PdfFile.ObjectStands` | apps/api/src/management/exports/export-job.worker.ts:984-990 | Object i begins, with its number, at the position its entry gives |
| `PdfFile.PageReads` | apps/api/src/management/exports/export-job.worker.ts:979-982 | A page's /Contents names the object that holds its own stream |
| `PdfFile.ContentReads` | apps/api/src/management/exports/export-job.worker.ts:981-981 | /Length is the stream's byte length |
| `PdfFile.EntryWidth` | apps/api/src/management/exports/export-job.worker.ts:994-996 | A table entry has its twenty bytes exactly when the offset is below 10^10 |
| `PdfFile.ObjectsLookLike` | apps/api/src/management/exports/export-job.worker.ts:971-976 | The catalog, the page tree of two pages and the two fonts, text for text |
| `PdfFile.PagesLookLike` | apps/api/src/management/exports/export-job.worker.ts:978-982 | A page and its content stream, text for text |
| `PdfFile.EndLooksLike` | apps/api/src/management/exports/export-job.worker.ts:992-1001 | Table and trailer of one page, text for text, /Size one more than the last object's number |
| `PdfFile.ObjectLooksLike` | apps/api/src/management/exports/export-job.worker.ts:984-996 | The header, an object around its body and its table entry, text for text |
| `CsvFile.ReadBack` | apps/api/src/management/exports/export-job.worker.ts:220-240 | A parser by section 2 of RFC 4180 gives back exactly the written rows if and only if every row has a column |
| `CsvFile.CellReads` | apps/api/src/management/exports/export-job.worker.ts:331-334 | A cell reads back whatever commas, quotes, CR or LF it contains |
| `CsvFile.QuotedIff` | apps/api/src/management/exports/export-job.worker.ts:331-334 | A cell is quoted exactly if it holds a quote, a comma, CR or LF |
| `CsvFile.WriteCsv` | apps/api/src/management/exports/export-job.worker.ts:220-240 | The loops over batches and rows write header and rows as that file |
| `CsvFile.ExportedCell` | apps/api/src/management/exports/export-job.worker.ts:229-237 | Every record of every batch is exported in order, each cell the text of its column's value |
| `Spreadsheet.ColumnName` | apps/api/src/management/exports/export-job.worker.ts:1074-1085 | The name stands for the index in bijective base 26 |
| `Spreadsheet.NameIsUnique` | apps/api/src/management/exports/export-job.worker.ts:1074-1085 | No two names stand for the same column |
| `Spreadsheet.ReadBack` | apps/api/src/management/exports/export-job.worker.ts:1087-1093 | An escaped text resolves to the text it came from |
| `DreFees.RealFeesInSummary` | apps/api/src/management/reports/dre-calculator.ts:29-118 | After real fees are applied the month's sales fees are exactly the real plus the estimated ones, revenue, discounts, costs and taxes are unchanged, and gross profit plus fees is conserved |
| `DreFees.OrderFees` | apps/api/src/management/reports/dre-calculator.ts:53-72 | The items of an order bear its whole real fee, what was paid less what was received and never less than nothing, whatever the rounding did; without both values they stay |
| `DreFees.ItemsKept` | apps/api/src/management/reports/dre-calculator.ts:66-71 | Each item keeps everything but its fees, profit before fees included; its platform fee becomes nothing and its payment fee the share |
| `DreFees.ShareIsNear` | apps/api/src/management/reports/dre-calculator.ts:58-64 | A share is within half a cent of its exact proportion, the last within half a cent per other item |
| `DreFees.SharesAreWhole` | apps/api/src/management/reports/dre-calculator.ts:58-65 | A fee in whole cents is split into whole cents |
| `DreFees.NothingToSplitBy` | apps/api/src/management/reports/dre-calculator.ts:59-64 | Without positive revenue the last item bears the whole fee |
| `DreFees.SharesNotNegativeIff` | apps/api/src/management/reports/dre-calculator.ts:53-72 | The exact size: all shares of all orders of n items, without negative revenue and with a fee in whole cents, are non-negative if and only if n is at most two |
| `DreFees.ShareNotNegative` | apps/api/src/management/reports/dre-calculator.ts:58-65 | One or two items never get a negative share, and no item but the last one ever does |
| `DreFees.ShareMayBeNegative` | apps/api/src/management/reports/dre-calculator.ts:58-65 | For every n from three on, an order of n items whose last share is minus one cent |
| `DreFees.EnoughForRounding` | apps/api/src/management/reports/dre-calculator.ts:58-65 | A last item whose proportion covers half a cent for every other item gets no negative share |
| `DreFees.CountsAddUp` | apps/api/src/management/reports/dre-calculator.ts:36-56 | The two order counts add up to the number of distinct orders |
| `DreFees.EstimatedAreUnpaid` | apps/api/src/management/reports/dre-calculator.ts:41-56 | What is estimated is exactly the fees of the items whose order's first item lacks one of the payment values; the other orders are the ones counted as real |
| `DreFees.RoundsAwayFromZero` | apps/api/src/management/reports/dre-calculator.ts:62-62 | A share is rounded to the nearest cent, from the middle away from zero |
| `DreFees.SplitFee` | apps/api/src/management/reports/dre-calculator.ts:53-72 | The loop with its remainder gives every item its share |
| `DreFees.KeepEstimate` | apps/api/src/management/reports/dre-calculator.ts:43-50 | An order without payment values stays as it is and its estimate is added |
| `DreFees.ApplyRealOrderFees` | apps/api/src/management/reports/dre-calculator.ts:29-82 | The loops over orders compute snapshots, totals and counts |
| `DreFees.SumTotals` | apps/api/src/management/reports/dre-calculator.ts:94-118 | The reduce computes the eight totals |
| `DreFees.TotalsOfFew` | apps/api/src/management/reports/dre-calculator.ts:94-118 | The eight totals of nothing and of one snapshot, field by field |
| `DreFees.TotalsOfBoth` | apps/api/src/management/reports/dre-calculator.ts:94-118 | The totals of two lists together are the sums of theirs |
| `DreFees.CalculateDreSummary` | apps/api/src/management/reports/dre-calculator.ts:88-146 | Net profit, rates and variance from the totals; a break-even revenue exists exactly when there is revenue and margin left, and there the margin pays the fixed expenses |
| `ImageUpload.ReceiveUpload` | apps/api/src/common/storage/asset-upload.service.ts:119-141 | However the bytes are cut into chunks, the verdict is that of the bytes: too large, wrong size, wrong signature, wrong dimensions or accepted |
| `ImageUpload.VerifyingStream.Transform` | apps/api/src/common/storage/asset-upload.service.ts:124-132 | After each chunk: size is the total, the header is the first 64 KiB of everything so far, and the stream fails exactly beyond 2 MiB |
| `ImageUpload.VerifyingStream.Verify` | apps/api/src/common/storage/asset-upload.service.ts:134-139 | The verdict on the bytes that went by |
| `ImageUpload.ImageMetadata` | apps/api/src/common/storage/asset-upload.service.ts:143-167 | The parser ends and every read is inside the buffer |
| `ImageUpload.ReadsJpeg` | apps/api/src/common/storage/asset-upload.service.ts:151-165 | The first n bytes of a JPEG give the dimensions of its frame header exactly when they hold it and one byte more, whatever segments precede it |
| `ImageUpload.ReadsPng` | apps/api/src/common/storage/asset-upload.service.ts:144-146 | The IHDR dimensions of a PNG are found |
| `ImageUpload.ReadsWebp` | apps/api/src/common/storage/asset-upload.service.ts:147-150 | The canvas dimensions of an extended WebP are found |
| `ImageUpload.AcceptsPng` | apps/api/src/common/storage/asset-upload.service.ts:134-146 | A PNG is accepted exactly for its own size and dimensions, within 2 MiB |
| `ImageUpload.AcceptsJpeg` | apps/api/src/common/storage/asset-upload.service.ts:124-166 | A JPEG is accepted exactly for its own size and dimensions, within 2 MiB, with its frame header inside the first 64 KiB; behind longer segments it is a wrong signature |
| `ImageUpload.AcceptsWebp` | apps/api/src/common/storage/asset-upload.service.ts:134-150 | An extended WebP is accepted exactly for its own size and canvas, within 2 MiB |
| `ImageUpload.TopBitsIgnored` | apps/api/src/common/storage/asset-upload.service.ts:147-150 | Changing top bits of the WebP signature changes nothing that is read |
| `ImageUpload.ForgedSignatureReads` | apps/api/src/common/storage/asset-upload.service.ts:147-150 | A file that begins with byte 210 instead of R is read as WebP |
| `ImageUpload.FormatsHaveSignatures` | apps/api/src/common/storage/asset-upload.service.ts:142-165 | Whatever does not begin with the signature of one of the three formats is refused |
| `ImageUpload.VerdictSays` | apps/api/src/common/storage/asset-upload.service.ts:115-137 | Which error an upload gets: size first, then signature, then dimensions |
| `ImageUpload.ByteOrders` | apps/api/src/common/storage/asset-upload.service.ts:144-160 | Dimensions are big-endian in PNG and JPEG and little-endian in WebP; frames are the markers C0 to C3 |
| `RateLimit.FixedWindowRateLimitGuard.CanActivate` | apps/api/src/common/rate-limit/fixed-window-rate-limit.guard.ts:17-41 | One request: the new buckets and the verdict with its seconds |
| `RateLimit.FixedWindowRateLimitGuard.Prune` | apps/api/src/common/rate-limit/fixed-window-rate-limit.guard.ts:47-52 | Deletes exactly the buckets whose window is over, from 2000 buckets on |
| `RateLimit.PruningChangesNoVerdict` | apps/api/src/common/rate-limit/fixed-window-rate-limit.guard.ts:47-52 | Under a clock that never runs backwards every verdict equals that of a counter that is never pruned |
| `RateLimit.AdmittedIffRoom` | apps/api/src/common/rate-limit/fixed-window-rate-limit.guard.ts:21-28 | A request is admitted exactly when fewer than the limit have been admitted in the window it falls in |
| `RateLimit.WindowBeginsAtRequest` | apps/api/src/common/rate-limit/fixed-window-rate-limit.guard.ts:21-24 | A window begins with a request of the key: the one that found none open |
| `RateLimit.AtMostTwice` | apps/api/src/common/rate-limit/fixed-window-rate-limit.guard.ts:21-39 | In any interval of one window's length a key gets through at most twice the limit |
| `RateLimit.RetryAfterSuffices` | apps/api/src/common/rate-limit/fixed-window-rate-limit.guard.ts:29-36 | The seconds told are the least whole number after which the window is over |
| `AdaptivePoller.NeverDeadNorDouble` | apps/web/lib/adaptive-polling/adaptive-poller.ts:23-82 | Over every event sequence: a started poller has exactly one of a running task and a pending timer, a poller not started has no timer |
| `AdaptivePoller.SingleFlight` | apps/web/lib/adaptive-polling/adaptive-poller.ts:63-82 | Tasks called and not yet settled are none, or one while the poller says so |
| `AdaptivePoller.StopIsFinal` | apps/web/lib/adaptive-polling/adaptive-poller.ts:31-37 | After stop no task is ever called |
| `AdaptivePoller.RefreshDuringTask` | apps/web/lib/adaptive-polling/adaptive-poller.ts:39-44 | A refresh during a task is remembered until it settles, and then schedules a run without delay unless stopped |
| `AdaptivePoller.ZeroDelayStep` | apps/web/lib/adaptive-polling/adaptive-poller.ts:46-52 | The timer without delay survives an event if and only if the event is neither a stop nor the page being hidden with a positive hidden interval |
| `AdaptivePoller.BackoffGrows` | apps/web/lib/adaptive-polling/adaptive-poller.ts:84-88 | More failures never shorten the delay before jitter, and the maximum caps it |
| `AdaptivePoller.BackoffDoubles` | apps/web/lib/adaptive-polling/adaptive-poller.ts:86-88 | The backoff starts at its base and doubles with every failure up to its maximum, with the defaults the options leave |
| `AdaptivePoller.FailuresAreCounted` | apps/web/lib/adaptive-polling/adaptive-poller.ts:67-70 | Until it is stopped, the poller counts exactly the failures since its last success, aborted tasks apart |
| `AdaptivePoller.DelayAfterSettling` | apps/web/lib/adaptive-polling/adaptive-poller.ts:71-92 | What the next task waits for once one has settled |
| `AdaptivePoller.EventsSay` | apps/web/lib/adaptive-polling/adaptive-poller.ts:23-61 | What starting, refreshing, hiding, showing and the timer do, in the poller's fields |
| `AdaptivePoller.JitterBounds` | apps/web/lib/adaptive-polling/adaptive-poller.ts:89-91 | Jitter moves a delay by at most its ratio, up to rounding, and never below a millisecond |
| `AdaptivePoller.Poller.Start` | apps/web/lib/adaptive-polling/adaptive-poller.ts:23-29 | Starts once: calls the task or sets a timer for the current interval; changes nothing when started or stopped |
| `AdaptivePoller.Poller.Stop` | apps/web/lib/adaptive-polling/adaptive-poller.ts:31-37 | Clears timer and listener and aborts, for good |
| `AdaptivePoller.Poller.Refresh` | apps/web/lib/adaptive-polling/adaptive-poller.ts:39-44 | Idle, a timer without delay; during a task, remembered; otherwise nothing |
| `AdaptivePoller.Poller.HandleVisibility` | apps/web/lib/adaptive-polling/adaptive-poller.ts:46-52 | Shown, a refresh; hidden and idle, the hidden interval replaces the timer; not listening, only the visibility changes |
| `AdaptivePoller.Poller.OnTimer` | apps/web/lib/adaptive-polling/adaptive-poller.ts:57-60 | The fired timer is gone and the task is called |
| `AdaptivePoller.Poller.OnTaskSettled` | apps/web/lib/adaptive-polling/adaptive-poller.ts:67-82 | Failures are reset, counted or kept by the outcome; the next timer has no delay after a refresh, else the interval or the backoff |
| `MemoryPressure.LevelIsLastSteady` | apps/api/src/common/observability/memory-pressure.service.ts:28-45 | The level is the one targeted at the latest position that ends max(2, requiredSamples) equal targets, and NORMAL without such a position |
| `MemoryPressure.ZoneSetsLevel` | apps/api/src/common/observability/memory-pressure.service.ts:28-55 | Enough observations in a row at or above a threshold set the level, and with it what is admitted |
| `MemoryPressure.LevelWasObserved` | apps/api/src/common/observability/memory-pressure.service.ts:28-55 | No level is reached without so many observations between its thresholds |
| `MemoryPressure.MemoryPressureService.Observe` | apps/api/src/common/observability/memory-pressure.service.ts:28-45 | One observation: the new level, candidate and count |
| `MemoryPressure.MemoryPressureService.CanAdmit` | apps/api/src/common/observability/memory-pressure.service.ts:47-49 | Everything but normal and low work under high pressure is admitted |

## Left out

- Databases: SQL syntax, isolation and SKIP LOCKED. Each call or transaction is one atomic step; what two concurrent claims would see of each other's locks is not modelled. For the one place where a transaction writes what it read before, the recovery of leases, `JobRuns.SeenIsCurrent` says when dividing it makes no difference.
- JobTable.JobRepository.Enqueue: between the refused insert and the look for the active job that job may end; the source then throws the first error, which is not modelled.
- Telemetry columns, error messages and their redaction, payloads and targets of jobs; the CANCELLED status, which no repository call writes.
- JobTable.JobRepository.ReportProgress: an improper count is a flag instead of an exception.
- JobWorker.Worker.RunOnce: failures of the database calls themselves, which end the turn with the lease still held until it expires, are not modelled; the loop around the turn and its stopping are not either.
- FairOrder.SortSorts: the order of ids by locale is a given rank, and a candidate without a tenant is a queue of its own under the key the source builds.
- SHA-256 is taken to be injective: the stored hash is the canonical text.
- StableJson: numbers are their ECMAScript decimal texts; values without a JSON form, such as functions and toJSON methods, are not part of this model.
- Idempotency: the clock is read twice in a row between the awaited calls, for the check and for the update; the model reads it once there.
- Idempotency: response bodies are stored and replayed as JSON values; headers, routing and authentication are not modelled.
- SalesImport: a crash, or a failing public code, strands a claimed identity: at most one order, not exactly one. Amounts, fees and release dates of the imported orders, reconciliation of existing orders and the MERCADO_PAGO and SIMPLE layouts, which look for duplicates in notes, are not modelled.
- SalesLoops: the choice of which run and movements to load, and the audit record.
- ZipArchive.ReadBack: ZIP64, compression, encryption, comments and timestamps, none of which the writer produces.
- PdfFile.ReadBack: what is drawn inside a content stream; a stream is given as its UTF-8 bytes, and page sizes are whole numbers. The reader expects the dictionaries in the writer's own key order and looks up every reference through the table.
- CsvFile.ReadBack: the bytes of the encoded file; a number is given as the text it prints as.
- Spreadsheet: the rest of the worksheet; current exports use a library for it.
- DreFees: decimal precision beyond the rounding to cents. Sums, products and quotients are exact, while the library keeps twenty significant digits.
- ImageUpload.ReadsJpeg: frame types outside C0 to C3, which the scan does not know, and fill bytes before a marker, which it does not treat as such.
- ImageUpload: the map of upload intents, its expiry and tenant check, and the storage back ends.
- RateLimit.FixedWindowRateLimitGuard.CanActivate: how a key is derived from a request, and the body of the error.
- AdaptivePoller: the task itself and its abort signal; the moment a timer fires is the environment's choice.
- MemoryPressure: reading the thresholds from configuration.
- HTTP controllers, provider adapters, storage, web sockets, scheduling, logging, pages and components, time zone helpers, pricing formulas and permission tables: plumbing, or settled by reading one line.
