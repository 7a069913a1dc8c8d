# Verified model of nfrx

nfrx sends requests for language models, embeddings, jobs and tool calls from clients to workers
behind firewalls.  These Dafny modules model the parts of it in which something can go wrong
quietly, and prove what those parts keep in every run, on every input.

* **Partitioned requests** (`Apportion`, `RetryPool`, `EmbeddingJob`, `PartitionEngine`,
  `ArrivalOrder`).  A request for many embeddings is dealt out to the workers in proportion to
  their weights, with Go's 64-bit arithmetic; one goroutine per chunk sends it, retries it on a
  worker that has not failed it, and posts one result; a collector puts the answers together.
* **The job registry** (`JobRegistry`, `JobRuns`, `JobFields`, `JobAccounting`).  Create, claim, cancel,
  expire, status reports and transfer requests, one atomic step per lock section, so that
  anything can happen between the two sections of a report or a transfer request.
* **Text protocols** (`Text`, `Utf8`, `Envelope`, `EnvelopeRoundTrip`, `EnvelopeContents`,
  `EnvelopePlatforms`, `UsageScanner`, `EventStream`).  The header-and-body envelope of secure transfers in its C# and
  Python versions, down to bytes; the scanner that reads token counts off a stream in chunks; and
  event streams (section 9.2.6 of the WHATWG HTML Living Standard) from the server's printer to
  the client's parser.
* **Small protocols** (`Bridge`, `Transfer`, `Tunnel`, `CompletionQueue`, `Drain`, `Scheduler`,
  `Alias`).  Correlation of replies over a bridge, rendezvous of a reader and a writer, session
  counters, the queue of generation requests, the drain counter, the choice of a worker, and
  model aliases.

`GoInts`, `Sequences` and `Wrappers` are shared.  Code that changes state is a class or a method,
proved against a function on values; the runs and interleavings are stated over those functions: an
event is one lock section or one channel operation, `Valid(s, es)` says that es can happen from
s, and `After(s, es)` is where it leads.

`dafny verify dfyconfig.toml` checks everything (Dafny 4.11).  Lemmas that state results carry
`{:induction false}`: where a proof is by induction, its body is that induction.

## What the proofs say about the source

Some promises hold only under a condition, which is then proved exact, with a run or an input
that shows the failure:

* The split divides by zero exactly when the weights of a worker that is not the last, and of all
  after it, add up to a multiple of 2^64 (`SplitPanicsIff`).
* Weights 1000, 1 and 1 leave the third worker an empty chunk out of three items.  Its goroutine
  returns without giving its worker back, so that other chunks can wait for ever
  (`EmptyChunkStrandsOthers`).  No chunk is empty if and only if the size is at least a least size
  that depends on the weights alone (`NonEmptyIffEnough`), 502 for these; the engine makes
  progress in every run (`ProgressIffEnough`), and a job without failed requests succeeds
  (`OutcomeIffEnough`), if and only if it is.
* The `model` of a partitioned answer is the first to arrive; it is independent of the order if
  and only if all replies that name a model name the same (`SameModelInAnyOrderIff`,
  `TwoModelsDependOnOrder`).  `Append` does not compare a reply with its chunk: the slots are
  independent of the order of arrival if and only if no two replies write different things to one
  slot (`SameInAnyOrderIff`).
* `claimNext` does not look at the status, and reports are accepted for queued jobs: a completed
  job can be handed out (`ReportOnQueuedJob`).  The queue is the queued jobs throughout a run if
  and only if each accepted report names `queued` exactly when its job is in the queue
  (`QueueAgreesIff`).
* The second section of a transfer request does not look at the status either.  Cancel and expiry
  are not alone in being undone by it: so is a completion report (`ReportInTransferWindow`).
  Terminal statuses are absorbing if and only if no such section and no claim finds its job
  terminal (`RunAbsorbsIff`).
* The samples of end-to-end time run ahead of those of queue wait by the jobs that complete or
  fail unclaimed (`BalancedIff`), and the terminal counters run ahead of the jobs they count by
  the steps that leave a terminal status (`CountedIff`); there is no other difference.
* The C# builder checks only the extra headers, and only for CR and LF: a name with a colon is
  accepted and lost (`CSharpColonIsLost`).  The Python builder keys
  its dict by the exact name, the parsers do not, so that a header that differs from a base
  header in case alone makes an envelope that is refused (`PythonCaseCollision`);
  `CSharpRoundTripIff` and `PythonRoundTripIff` say exactly what comes back.
* A bridge call turned away for back-pressure leaves its id in the id mapper for good
  (`WhatIsLeft`).  A call can only time out, once the read loop has ended, if and only if it
  entered after that (`StrandedIffEnteredLate`, `CallCanBeStranded`).
* A transfer channel whose timer runs out before the channel is in the registry never expires
  (`TimerCanMiss`), and a reader that wakes up late after a successful copy can answer with an
  error (`ServedReaderCanReportAnError`), which happens if and only if the copy went well
  (`ToldNothingIffServed`).
* The queue of generation requests asks afresh for each entry whether its model can be
  dispatched; if the answer changes in mid-scan, a later request goes ahead (`OvertakingRun`).
  With steady answers that never happens (`FairInEveryRun`); with answers that may change it can
  happen exactly when two requests for one model wait (`RunCanOvertakeIff`).
* The scorer's interface calls a score of zero ineligible, but with the default threshold of zero
  `PickWorker` accepts it; it refuses it if and only if the threshold is positive
  (`NeverUnfitIff`).  The model follows the code.

## Model

| member | source | states |
|---|---|---|
| `Apportion.Weigh` | sdk/base/worker/partition.go:109-125 | the weights are the desired batch, else the preferred batch, else the size, and their running total wraps like an `int` |
| `Apportion.Deal` | sdk/base/worker/partition.go:126-146 | the loop deals out exactly what the split over integers with wrap-around deals out, and stops where it would divide by zero |
| `Apportion.PlanTasks` | sdk/base/worker/partition.go:109-146 | both loops together: the tasks of the split of the fallback weights, one per worker and laid end to end over the request, or a panic exactly when the weights of some suffix wrap to zero |
| `Apportion.SplitTiles` | sdk/base/worker/partition.go:126-146 | whatever the weights and however the arithmetic wraps, the tasks are consecutive, start at 0 and their counts add up to the size |
| `Apportion.TilesCoverOnce` | sdk/base/worker/partition.go:126-146 | every index of the request lies in exactly one task |
| `Apportion.SplitPanicsIff` | sdk/base/worker/partition.go:126-137 | the split divides by zero if and only if the weights of some suffix that does not start at the last worker sum to a multiple of 2^64 |
| `Apportion.SplitNeverPanicsBelow` | sdk/base/worker/partition.go:126-137 | weights that sum to less than 2^64 never make it divide by zero |
| `Apportion.SplitCanPanic` | sdk/base/worker/partition.go:126-137 | four weights of 2^62 do |
| `Apportion.SplitIsExact` | sdk/base/worker/partition.go:126-137 | while the total weight, and the size times each weight, fit in 64 bits the machine split is the split over unbounded integers |
| `Apportion.EveryWorkerGetsItsFloor` | sdk/base/worker/partition.go:126-146 | if every weight is worth at least one item, worker i gets at least floor(size * w_i / total), which is at least 1 |
| `Apportion.EqualWeightsShareEvenly` | sdk/base/worker/partition.go:58-63 | equal weights, the default, give every worker the floor or the ceiling of size / k |
| `Apportion.NonEmptyIffLastNonEmpty` | sdk/base/worker/partition.go:126-146 | for any weights, no chunk is empty if and only if the last one is not |
| `Apportion.NonEmptyIffEnough` | sdk/base/worker/partition.go:126-146 | while nothing wraps: no chunk is empty if and only if the size is at least the least size, which is computed from the weights alone |
| `Apportion.HeavyFirstWorkerNeedsMany` | sdk/base/worker/partition.go:126-146 | weights 1000, 1, 1 need 502 items |
| `Apportion.EmptyChunkExample` | sdk/base/worker/partition.go:126-146 | size 3 over weights 1000, 1, 1 gives counts 2, 1, 0 |
| `RetryPool.WorkerPool.TryAcquire` | sdk/base/worker/partition.go:168-185 | one scan takes the first worker in pool order that is neither in use nor excluded, marks it used and nothing else; or finds none |
| `RetryPool.WorkerPool.GiveBack` | sdk/base/worker/partition.go:186-189 | frees exactly that worker |
| `RetryPool.WorkerPool.Offer` | sdk/base/worker/partition.go:190-194 | leaves a token, whether or not there was one: signals are dropped |
| `RetryPool.WorkerPool.Take` | sdk/base/worker/partition.go:183 | consumes the token |
| `RetryPool.SafeInEveryRun` | sdk/base/worker/partition.go:158-231 | in every run: no worker is held by two chunks, none is tried twice by one chunk, each chunk posts at most one result so that the result channel never blocks, `acquire` never returns its error, a non-empty chunk reports failure only after every worker failed it, and a chunk that replies has a worker that did not |
| `RetryPool.AttemptedCountsFailures` | sdk/base/worker/partition.go:216-226 | in every run a chunk excludes as many workers as its requests have failed |
| `RetryPool.CollectorStopsAtFailure` | sdk/base/worker/partition.go:233-244 | in every run the collector goes on only after replies |
| `RetryPool.NoDeadlock` | sdk/base/worker/partition.go:168-231 | without an empty chunk, while some chunk is unfinished some goroutine can move, although wake-ups get lost |
| `RetryPool.MaximalRunDelivers` | sdk/base/worker/partition.go:196-252 | a run that cannot go on has posted a result for every chunk and returned every goroutine; the collector has them all or stopped at the first failure |
| `RetryPool.RunsAreShort` | sdk/base/worker/partition.go:158-252 | every run has at most 6k^2 + k steps, wake-ups and collector included |
| `RetryPool.EmptyChunkStrandsOthers` | sdk/base/worker/partition.go:201-205 | with an empty and a non-empty chunk there is a run after which the non-empty one waits for ever |
| `RetryPool.ProgressIff` | sdk/base/worker/partition.go:196-231 | the engine makes progress in every run if and only if the chunks are all empty or all not |
| `EmbeddingJob.Job.MakeChunk` | modules/llm/ext/openai/partition.go:32-48 | the inputs from `start` on, at most `count`, clipped at the end, and how many there are |
| `EmbeddingJob.Job.Append` | modules/llm/ext/openai/partition.go:50-60 | overwrites the slots from `start` on by the reply as far as they reach, adds the usage, and keeps the first non-empty model; other slots are untouched |
| `EmbeddingJob.RunSequential` | sdk/base/worker/partition.go:65-102 | the single-worker loop computes the sequential specification, failures included |
| `EmbeddingJob.SentAsAdvertised` | sdk/base/worker/partition.go:65-102 | the calls of the single-worker run, chunk by chunk: in order and end to end over the inputs, none longer than a positive advertised batch, a shorter one only at the end, all that is left for a batch of at most 0, and every call but the last of a failed run answered |
| `EmbeddingJob.CallsOfConstantBatch` | sdk/base/worker/partition.go:65-102 | a constant batch b > 0 and no failed call: ceiling(inputs / b) calls |
| `EmbeddingJob.SequentialIsComplete` | sdk/base/worker/partition.go:65-102 | however a faithful worker sizes its batches, a run without failure answers every input in its own slot, with usage summed |
| `EmbeddingJob.TotalConcat` | modules/llm/ext/openai/partition.go:54-55 | usage of a concatenation is the sum of usages |
| `EmbeddingJob.TotalByFigure` | modules/llm/ext/openai/partition.go:54-55 | each of the two usage figures is the sum of that figure |
| `PartitionEngine.CollectResults` | sdk/base/worker/partition.go:233-252 | the collector computes the fold over the posted results, stopping at the first failure |
| `PartitionEngine.AnyOrderIsComplete` | sdk/base/worker/partition.go:233-252 | one faithful reply per chunk, in any order of arrival, writes every slot exactly once and gives the complete answer |
| `PartitionEngine.PartitionedRunIsComplete` | sdk/base/worker/partition.go:109-252 | for every split, failure schedule and interleaving, early returns included: the job succeeds if and only if the collector met only replies, and the answer is then complete, each slot written once |
| `PartitionEngine.PartitionedEqualsSequential` | sdk/base/worker/partition.go:65-252 | the partitioned run and the single-worker run give the same embeddings and usage |
| `PartitionEngine.OutcomeOfRun` | sdk/base/worker/partition.go:196-252 | a job that returns, early or not, has succeeded if and only if no chunk was empty and none failed as often as there are workers |
| `PartitionEngine.FailureIsExplained` | sdk/base/worker/partition.go:233-252 | the result that ended a failed job belongs to an empty chunk, or to one that every worker of the pool failed |
| `PartitionEngine.FailureFreeOutcome` | sdk/base/worker/partition.go:196-252 | when no request fails, a job that returns has succeeded if and only if no chunk was empty |
| `PartitionEngine.ProgressIffEnough` | sdk/base/worker/partition.go:109-231 | on size and weights: the goroutines of a split make progress in every run if and only if the size is 0 or at least the least size of the weights |
| `PartitionEngine.OutcomeIffEnough` | sdk/base/worker/partition.go:109-252 | on size and weights: a job that returns has succeeded if and only if the size is at least the least size and no chunk failed as often as there are workers |
| `PartitionEngine.ThreeItemsCanNeverSucceed` | sdk/base/worker/partition.go:126-252 | with size 3 and weights 1000, 1, 1 no schedule succeeds |
| `PartitionEngine.ModelIsFirstToArrive` | modules/llm/ext/openai/partition.go:56-58 | the model name is the first non-empty one to arrive |
| `ArrivalOrder.SameModelInAnyOrderIff` | modules/llm/ext/openai/partition.go:56-58 | the model name is the same in all orders of arrival if and only if all replies that name a model name the same |
| `ArrivalOrder.TwoModelsDependOnOrder` | modules/llm/ext/openai/partition.go:56-58 | two replies within their chunks that name different models: the slots do not depend on the order, the model name does |
| `ArrivalOrder.SameInAnyOrderIff` | modules/llm/ext/openai/partition.go:50-60 | for any replies, long or short: the slots are the same in all orders of arrival if and only if no two replies write different things to one slot |
| `ArrivalOrder.ShortRepliesAgree` | modules/llm/ext/openai/partition.go:50-60 | replies no longer than their chunks never meet, whatever they contain |
| `ArrivalOrder.LongReplyDependsOnOrder` | modules/llm/ext/openai/partition.go:50-60 | two results for a chunk of one make the next slot depend on the order |
| `JobRegistry.Registry.RecordTerminalLocked` | server/internal/jobs/registry.go:875-905 | the counters and totals a terminal status adds to: exactly those of the specification |
| `JobRegistry.Registry.SetJobStatusLocked` | server/internal/jobs/registry.go:860-873 | the whole new job and statistics: claim and terminal times are set once, a repeated status changes nothing |
| `JobRegistry.Registry.RemoveFromQueue` | server/internal/jobs/registry.go:655-662 | removes the first occurrence and keeps the order of the rest |
| `JobRegistry.Registry.CreateJob` | server/internal/jobs/registry.go:234-263 | a new queued job at the end of the queue |
| `JobRegistry.Registry.ClaimNext` | server/internal/jobs/registry.go:631-653 | removes and claims the first queued id that fits; nothing else changes |
| `JobRegistry.Registry.CancelJob` | server/internal/jobs/registry.go:353-379 | a job that is not terminal becomes canceled (or expired, 757-788) and leaves the queue; a terminal one stays |
| `JobRegistry.Registry.ApplyReport` | server/internal/jobs/registry.go:608-622 | the second section of a report: refused for a terminal job, otherwise exactly the reported status |
| `JobRegistry.Registry.ApplyTransfer` | server/internal/jobs/registry.go:499-506 | the second section of a transfer request (also 559-566) sets its status without looking at the present one |
| `JobRegistry.Registry.QueuePosition` | server/internal/jobs/registry.go:804-821 | the 1-based position in the queue, 0 if absent |
| `JobRegistry.PositionIsFirst` | server/internal/jobs/registry.go:804-821 | 0 if and only if the id is not in the queue, otherwise the place of its first occurrence |
| `JobRegistry.Registry.CountJobs` | server/internal/jobs/registry.go:1003-1034 | the loop tallies every visited job in the bucket of its status and keeps the greatest age of queued jobs and of jobs in flight |
| `JobRuns.HandedOutOnceInOrder` | server/internal/jobs/registry.go:631-662 | in every run, whatever is reported: no job is handed out twice, the queue has no duplicates and keeps the order of creation |
| `JobRuns.ClaimIsFifo` | server/internal/jobs/registry.go:631-653 | a claim hands out a fitting queued job than which no earlier-created fitting one is queued; when it hands out none, none fits |
| `JobRuns.ReportKeepsAgreementIff` | server/internal/jobs/registry.go:608-622 | for a report on any job, in the queue or not: status and queue still agree if and only if it names `queued` exactly when its job is in the queue |
| `JobRuns.QueueAgreesIff` | server/internal/jobs/registry.go:353-653 | for every run: at every point the queue is the queued jobs if and only if each accepted report names `queued` exactly when its job is in the queue; it is then in order of creation |
| `JobRuns.QueueIsQueuedJobs` | server/internal/jobs/registry.go:353-653 | with workers that report only on claimed jobs and never `queued`, the queue is the queued jobs in order of creation, at every point of every interleaving |
| `JobRuns.LeavesTerminalIff` | server/internal/jobs/registry.go:462-653 | in every run exactly two kinds of step leave a terminal status: a claim of a terminal job still in the queue, and a second transfer section; a status report never does |
| `JobRuns.RunAbsorbsIff` | server/internal/jobs/registry.go:462-653 | for every run: terminal statuses are absorbing if and only if every claim and every second transfer section finds its job not terminal; with truthful reports the claims always do |
| `JobRuns.TerminalIsAbsorbing` | server/internal/jobs/registry.go:353-653 | with those workers, and nothing turning a job terminal inside a transfer window, a terminal status never changes |
| `JobRuns.CalmRunKeepsSettled` | server/internal/jobs/registry.go:462-580 | in such runs a transfer request is open only on a job that is not terminal |
| `JobRuns.ReportOnQueuedJob` | server/internal/jobs/registry.go:582-653 | a run: a report completes a queued job, which is then handed out, out of its terminal status |
| `JobRuns.ReportInTransferWindow` | server/internal/jobs/registry.go:499-506 | a run: a completion report between the two sections of a transfer request is undone |
| `JobFields.ClaimFits` | server/internal/jobs/registry.go:631-653 | in every run, on fields (also 1193-1204): a claim hands out a job of a listed kind, if any are listed, whose non-empty worker and group are the claimer's; it hands out nothing only if every queued job differs from the request in one of the three |
| `JobFields.FieldsAfterStep` | server/internal/jobs/registry.go:234-788 | in every run: what each event makes of each job: status, update and claim time, claimer, error and files; the origin never changes, and a job that the event does not name does not change |
| `JobFields.TransferBeginsIff` | server/internal/jobs/registry.go:466-478 | a transfer request is let in if and only if the job is known, neither queued nor terminal, and in a status the source lists (also 1338-1345) |
| `JobFields.ReportBeginsIff` | server/internal/jobs/registry.go:585-596 | a report is let in if and only if the job is known and has not completed, failed or been canceled |
| `JobFields.OriginInEveryRun` | server/internal/jobs/registry.go:234-263 | in every run the jobs are exactly those created, each with the kind, worker, group and time of its creation |
| `JobFields.ClaimerInEveryRun` | server/internal/jobs/registry.go:631-653 | in every run a job that was handed out carries the worker and group of the claim that got it, and the worker and group that it names, if any, are those |
| `JobFields.ClaimTimeInEveryRun` | server/internal/jobs/registry.go:860-873 | in every run the claim time is the time of the first step that gave the job the status claimed |
| `JobAccounting.RecordKeepsBalanceIff` | server/internal/jobs/registry.go:875-905 | one terminal transition keeps end-to-end samples equal to queue-wait samples if and only if the job had been claimed or was canceled; then the totals stay balanced |
| `JobAccounting.TallyCounts` | server/internal/jobs/registry.go:1003-1034 | the tally does not depend on the order of the visit: each of the five buckets is the number of jobs in it, and the total the number of jobs |
| `JobAccounting.OldestIsGreatest` | server/internal/jobs/registry.go:1003-1030 | the two ages shown are the greatest, in whole seconds since creation, or since the claim or the last change, of the queued jobs and of those in flight, 0 if there is none |
| `JobAccounting.StatisticsOfEndings` | server/internal/jobs/registry.go:860-905 | in every run each of the twelve statistics from the list of endings: service is end minus claim over the claimed ones, queue wait is claim minus creation over these and end minus creation over unclaimed cancels, and the counters, samples and last times likewise |
| `JobAccounting.BalancedIff` | server/internal/jobs/registry.go:860-905 | for every run, whatever is reported: EndToEndSamples = QueueWaitSamples + the number of jobs that completed or failed unclaimed; samples and totals (EndToEndTotal = QueueWaitTotal + ServiceTotal) are balanced if and only if there was none |
| `JobAccounting.CountedIff` | server/internal/jobs/registry.go:860-905 | for every run: the three counters are together ahead of the jobs in those statuses by the number of steps that left a terminal status; each is the number of jobs in its status if and only if terminal statuses were absorbing |
| `JobAccounting.SummaryAgreesIff` | server/internal/jobs/registry.go:941-1047 | for every run and every order of the visit: the counters sum to the terminal bucket if and only if terminal statuses were absorbing; the total is the number of jobs; with truthful reports the queued bucket is the queue length |
| `JobAccounting.StatisticsAreConserved` | server/internal/jobs/registry.go:860-1047 | hence all of it holds over every run with truthful reports in which terminal statuses are absorbing and only claimed jobs complete or fail |
| `JobAccounting.CalmRunConserves` | server/internal/jobs/registry.go:860-1047 | in particular over runs with workers that report only on claimed jobs and never `queued`, and nothing turning a job terminal inside a transfer window |
| `Envelope.BuildEnvelope` | examples/dotnet/nfrx-sdk/SecureTransfer.cs:74-116 | the builder returns the printed envelope of the headers in force, or the error of the first bad extra header |
| `EnvelopeContents.RefusedIffBad` | examples/dotnet/nfrx-sdk/SecureTransfer.cs:84-100 | the builder refuses if and only if some extra header is bad, with the error of the first that is |
| `Envelope.FindSeparator` | examples/dotnet/nfrx-sdk/SecureTransfer.cs:179-189 | the index of the first CRLFCRLF, -1 if and only if there is none |
| `Envelope.ParseEnvelope` | examples/dotnet/nfrx-sdk/SecureTransfer.cs:118-177 | the parser computes the specification on every byte string: same result, same error |
| `EnvelopeContents.FrameErrors` | examples/dotnet/nfrx-sdk/SecureTransfer.cs:118-130 | the missing separator and the undecodable header part are reported exactly when there is no separator, and when what is before the first one is not text |
| `EnvelopeContents.LineErrors` | examples/dotnet/nfrx-sdk/SecureTransfer.cs:132-152 | which line is empty, folded or malformed, and what name and value any other has |
| `EnvelopeContents.FirstBadLineDecides` | examples/dotnet/nfrx-sdk/SecureTransfer.cs:132-157 | after clean lines the first that cannot be read, or that repeats a name, decides the error |
| `EnvelopeContents.HeaderErrors` | examples/dotnet/nfrx-sdk/SecureTransfer.cs:159-174 | of clean headers: a required one missing, or a length that does not match, is reported exactly when it is so, and otherwise the envelope is accepted |
| `EnvelopeRoundTrip.SeparatorEndsHeaders` | examples/dotnet/nfrx-sdk/SecureTransfer.cs:179-189 | in a printed envelope the first separator, down to bytes, is the end of the headers, whatever the body |
| `EnvelopeRoundTrip.ParseUndoesPrintIff` | examples/dotnet/nfrx-sdk/SecureTransfer.cs:74-177 | parsing a printed envelope gives back its headers in order and its body if and only if the headers are printable, a condition on the headers alone |
| `EnvelopeRoundTrip.ParsedIsPrintable` | examples/dotnet/nfrx-sdk/SecureTransfer.cs:118-177 | whatever bytes arrive, accepted headers are clean, distinct, and carry the required ones |
| `EnvelopeRoundTrip.AddHeadersFacts` | examples/dotnet/nfrx-sdk/SecureTransfer.cs:84-100 | adding headers keeps every name in place and every value that is not overridden |
| `EnvelopeRoundTrip.RoundTrip` | examples/dotnet/nfrx-sdk/SecureTransfer.cs:74-177 | from either builder to either parser, if the required headers are left alone, clean and collision-free headers come back in order with the body |
| `EnvelopeContents.ReceiverIsTold` | examples/dotnet/nfrx-sdk/SecureTransfer.cs:74-177 | from the arguments of the builder to what the receiver finds under each name: version 1, the content type, the length, the scheme and the role, each unless overridden, and the last value given to each extra header |
| `EnvelopePlatforms.CSharpRoundTripIff` | examples/dotnet/nfrx-sdk/SecureTransfer.cs:74-177 | in C#, what the builder accepts comes back if and only if names and values are clean |
| `EnvelopePlatforms.CSharpColonIsLost` | examples/dotnet/nfrx-sdk/SecureTransfer.cs:84-177 | a new extra header with a colon in its name is accepted by the builder and never comes back |
| `EnvelopePlatforms.PythonCaseCollision` | examples/python/nfrx_sdk/secure_transfer.py:52-112 | in Python, for any base header: an extra header that differs from it in case alone is printed beside it, and the parser refuses the clean envelope as a duplicate |
| `EnvelopePlatforms.PythonRoundTripIff` | examples/python/nfrx_sdk/secure_transfer.py:52-112 | in Python, what the builder accepts comes back, names in lower case, if and only if names and values are clean and no two names are equal up to case |
| `EnvelopePlatforms.CollisionIsRefused` | examples/python/nfrx_sdk/secure_transfer.py:76-112 | clean headers of which two collide are refused as duplicates |
| `EnvelopePlatforms.PythonLaws` | examples/python/nfrx_sdk/secure_transfer.py:52-112 | the Python platform trims what structures an envelope, reads back its decimal numbers, and its dict keeps the base names apart |
| `EnvelopePlatforms.SignedNumbers` | examples/python/nfrx_sdk/secure_transfer.py:106-110 | a sign before the digits is read as one |
| `Utf8.DecodeEncode` | examples/python/nfrx_sdk/secure_transfer.py:52-112 | decoding undoes encoding for every text |
| `Utf8.DecodeIff` | examples/python/nfrx_sdk/secure_transfer.py:82 | bytes decode to a text if and only if they are its encoding: overlong forms, surrogates and numbers out of range never do |
| `Text.ParseDecimal` | examples/python/nfrx_sdk/secure_transfer.py:52-112 | a printed Content-Length reads back as the number |
| `Text.ParseDigitsIff` | examples/python/nfrx_sdk/secure_transfer.py:106-110 | a number is read if and only if there is at least one character and all are digits |
| `UsageScanner.UsageCounter.OnLine` | modules/llm/ext/openai/generation_proxy.go:340-357 | one line moves the counters to its positive figures and leaves the buffer alone |
| `UsageScanner.DataLineSets` | modules/llm/ext/openai/generation_proxy.go:343-357 | a line `data:` and a payload, with any carriage returns after it, sets tokens in to the first figure of the payload and tokens out to the second, each if positive, unless the payload is blank or `[DONE]` |
| `UsageScanner.OtherLinesSetNothing` | modules/llm/ext/openai/generation_proxy.go:343-357 | every other line changes nothing |
| `UsageScanner.UsageCounter.OnChunk` | modules/llm/ext/openai/generation_proxy.go:335-358 | the inner loop computes the specification of a chunk |
| `UsageScanner.DrainThenMore` | modules/llm/ext/openai/generation_proxy.go:335-358 | draining before or after further bytes arrive comes to the same |
| `UsageScanner.ChunkingIsIrrelevant` | modules/llm/ext/openai/generation_proxy.go:335-358 | any two ways of cutting one byte stream end in the same buffer and counters |
| `UsageScanner.CutKeepsText` | modules/llm/ext/openai/generation_proxy.go:337-342 | lines and remainder put together are the text |
| `UsageScanner.ScannerResult` | modules/llm/ext/openai/generation_proxy.go:335-358 | after any chunks the buffer is the text after the last line feed and each counter is the last positive figure among the complete lines |
| `UsageScanner.LastLineDecidesIn` | modules/llm/ext/openai/generation_proxy.go:335-358 | however the stream is cut, the tokens in are those of the last line that tells a positive number of them |
| `UsageScanner.LastLineDecidesOut` | modules/llm/ext/openai/generation_proxy.go:335-358 | the same of the tokens out |
| `EventStream.ResponseWriter.WriteEvent` | server/internal/jobs/registry.go:790-802 | appends the printed event |
| `EventStream.ResponseWriter.WriteKeepAlive` | server/internal/jobs/registry.go:456 | appends the comment |
| `EventStream.StreamEvents` | examples/dotnet/nfrx-sdk/NfrxJobsClient.cs:85-123 | the reading loop computes the parser, with lines ended by LF, CR or CRLF |
| `EventStream.LineMeans` | examples/dotnet/nfrx-sdk/NfrxJobsClient.cs:88-123 | what a line is: a comment, a type, data with its leading white space cut, or nothing, field names being read in either case |
| `EventStream.AnyLineEnd` | examples/dotnet/nfrx-sdk/NfrxJobsClient.cs:88-123 | a line ends in LF, CRLF or CR alike |
| `EventStream.BlockIsDispatched` | examples/dotnet/nfrx-sdk/NfrxJobsClient.cs:88-123 | any block of lines, whoever wrote it, hands out one event with its last type, or `message`, and its data lines joined by line feeds; none if it had no data |
| `EventStream.ParseUndoesPrint` | examples/dotnet/nfrx-sdk/NfrxJobsClient.cs:88-123 | any sequence of printable events and keep-alives is received exactly, in order |
| `EventStream.StreamRecoveredIff` | examples/dotnet/nfrx-sdk/NfrxJobsClient.cs:88-123 | a stream is received exactly as sent if and only if every event has a trimmed one-line type and one-line data that starts with no white space |
| `EventStream.EmittedAreClean` | examples/dotnet/nfrx-sdk/NfrxJobsClient.cs:88-123 | whatever arrives, the type of an event is one trimmed line |
| `EventStream.BrokenData` | examples/dotnet/nfrx-sdk/NfrxJobsClient.cs:88-123 | data with a line break in it comes out as an event with shorter data |
| `EventStream.CutConnection` | examples/dotnet/nfrx-sdk/NfrxJobsClient.cs:88-123 | a text cut anywhere, even inside a line break, yields a prefix of the events |
| `EventStream.CutStreamIsPrefix` | examples/dotnet/nfrx-sdk/NfrxJobsClient.cs:88-123 | wherever the connection breaks, the client has a prefix of what was sent |
| `Bridge.IdMapper.Alloc` | modules/mcp/agent/internal/mcpbridge/idmap.go:23-31 | the counter printed, then advanced with 64-bit wrap-around; the id is stored |
| `Bridge.IdMapper.Resolve` | modules/mcp/agent/internal/mcpbridge/idmap.go:34-42 | returns and forgets the stored id, or reports that there is none |
| `Bridge.SameIdIff` | modules/mcp/agent/internal/mcpbridge/idmap.go:23-31 | two allocations get one id if and only if they are a multiple of 2^64 apart |
| `Bridge.Session.Register` | modules/mcp/agent/internal/mcpbridge/bridge.go:198-206 | enters the channel unless `maxInflight` are pending |
| `Bridge.Session.Take` | modules/mcp/agent/internal/mcpbridge/bridge.go:244-247 | deletes the entry and hands the open channel over to the reader |
| `Bridge.Session.Respond` | modules/mcp/agent/internal/mcpbridge/bridge.go:244-251 | sends on exactly the channel entered under the id, or drops the reply |
| `Bridge.Session.Unregister` | modules/mcp/agent/internal/mcpbridge/bridge.go:208-216 | deletes the entry and closes exactly its channel |
| `Bridge.Session.Teardown` | modules/mcp/agent/internal/mcpbridge/bridge.go:219-231 | closes each pending channel once and empties the map |
| `Bridge.SafeInEveryRun` | modules/mcp/agent/internal/mcpbridge/bridge.go:83-251 | in every interleaving of callers, reader, time-outs and teardown: one send or close per channel, never on a closed or full one; a reply returned arrived under the id of its own call; pending never exceeds `maxInflight`; a waiting call can receive or is still the business of the reader |
| `Bridge.OutcomeInEveryRun` | modules/mcp/agent/internal/mcpbridge/bridge.go:83-113 | in every run a call ends as its first exit says: timed out if it hung up, back-pressure if its frame found no room, the reply in its channel, or session closed if that was empty; and it is refused if and only if it asked for an entry when `maxInflight` were pending |
| `Bridge.WhatIsLeft` | modules/mcp/agent/internal/mcpbridge/bridge.go:83-113 | when all calls have returned nothing is pending, each entered channel had exactly one send or close, and the ids still stored are exactly those of calls turned away |
| `Bridge.WakesAfterTeardownIff` | modules/mcp/agent/internal/mcpbridge/bridge.go:219-231 | after the read loop ended, a waiting call can go on without a time-out if and only if its entry is gone |
| `Bridge.StrandedIffEnteredLate` | modules/mcp/agent/internal/mcpbridge/bridge.go:198-231 | after the read loop ended, a waiting call can only time out if and only if it registered after that end, with room among the pending |
| `Bridge.OnlyCancelHelps` | modules/mcp/agent/internal/mcpbridge/bridge.go:83-113 | otherwise no run ever moves it but its own time-out |
| `Bridge.CallCanBeStranded` | modules/mcp/agent/internal/mcpbridge/bridge.go:83-113 | a run that leads there |
| `Transfer.Channel.Attach` | server/internal/transfer/transfer.go:98-131 | the refusal and the whole new channel: role, timer and `ready` |
| `Transfer.Channel.Close` | server/internal/transfer/transfer.go:146-156 | the first close records its error and closes `done`; others change nothing |
| `Transfer.Registry.Create` | server/internal/transfer/transfer.go:61-77 | a new channel under the id, the others untouched |
| `Transfer.Registry.Close` | server/internal/transfer/transfer.go:134-144 | whoever deletes the entry closes exactly that channel (also 79-89) |
| `Transfer.SafeInEveryRun` | server/internal/transfer/transfer.go:61-219 | in every interleaving: `ready` is closed exactly when both roles are taken, `done` at most once, a removed channel has one closer pending or is closed, and a reader past `ready` has `done`, a closer, or a writer that will close; once both roles are taken the timer cannot fire |
| `Transfer.OneHandlerPerRole` | server/internal/transfer/transfer.go:107-116 | no two handlers hold one role of one channel |
| `Transfer.RunIsSticky` | server/internal/transfer/transfer.go:61-156 | roles, the closed flag and the recorded error never change once set |
| `Transfer.FirstFaultIsRecorded` | server/internal/transfer/transfer.go:79-219 | in every run a channel records the fault of the first step that closed it: expiry for the timer, and for a handler that its client hung up or how its copy ended |
| `Transfer.ToldTheFirstFault` | server/internal/transfer/transfer.go:180-187 | a waiting handler that takes `done` is told that fault |
| `Transfer.RefusalMeans` | server/internal/transfer/transfer.go:98-116 | a request for a role is refused as expired, closed or taken exactly when the channel expired first, was closed first otherwise, or is open with another handler in that role |
| `Transfer.QuietIff` | server/internal/transfer/transfer.go:61-219 | the definition of quiet: nothing is enabled but new requests, new channels and clients that hang up |
| `Transfer.EndedUnlessOverlooked` | server/internal/transfer/transfer.go:61-219 | when nothing moves any more a handler has ended, unless it took its role on a channel that nobody joined or closed and whose timer callback ran before the channel was registered |
| `Transfer.TimerCanMiss` | server/internal/transfer/transfer.go:61-77 | a run that leads there |
| `Transfer.ToldNothingIffServed` | server/internal/transfer/transfer.go:180-187 | a waiting handler that takes `done` reports a missing error if and only if the channel was closed after a successful copy, and `ready` could then have been taken as well |
| `Transfer.ServedReaderCanReportAnError` | server/internal/transfer/transfer.go:180-187 | a run in which it does after a successful copy |
| `Tunnel.RelayObject.Admit` | sdk/base/tunnel/registry.go:284-298 | refused at a positive limit, else one more in flight, for the method, and in the sessions |
| `Tunnel.RefusedIffFull` | sdk/base/tunnel/registry.go:284-298 | in every run a request is refused if and only if the limit is positive and exactly that many sessions are open |
| `Tunnel.RelayObject.Release` | sdk/base/tunnel/registry.go:301-310 | the reverse for that session |
| `Tunnel.CountersAgree` | sdk/base/tunnel/registry.go:179-310 | in every interleaving: in flight = number of sessions, each method count = sessions with that label, the limit holds, channels belong to sessions |
| `Tunnel.AllCountedBack` | sdk/base/tunnel/registry.go:301-310 | when every request is over all counters are zero |
| `CompletionQueue.Queue.SetCapacity` | modules/llm/ext/openai/queue.go:29-37 | new capacity, same entries, metrics in step |
| `CompletionQueue.Queue.Enter` | modules/llm/ext/openai/queue.go:40-54 | appends if and only if there is room, and returns the position |
| `CompletionQueue.TurnedAwayIffFull` | modules/llm/ext/openai/queue.go:40-54 | in every run a request is turned away if and only if the capacity is not positive or exactly that many wait |
| `CompletionQueue.Queue.Leave` | modules/llm/ext/openai/queue.go:57-69 | removes the first entry of the id, metrics in step |
| `CompletionQueue.Queue.Position` | modules/llm/ext/openai/queue.go:72-81 | the 1-based position of the first entry of the id, 0 if there is none |
| `CompletionQueue.Queue.IsFirstDispatchable` | modules/llm/ext/openai/queue.go:85-95 | true if and only if the first entry whose answer is yes has that id |
| `CompletionQueue.OneFirst` | modules/llm/ext/openai/queue.go:85-95 | at most one id is first-dispatchable, whatever the answers |
| `CompletionQueue.SomeFirstIff` | modules/llm/ext/openai/queue.go:85-95 | some id is, if and only if some answer is yes |
| `CompletionQueue.RunCanOvertakeIff` | modules/llm/ext/openai/generation_proxy.go:158-208 | after any run, and without further arrivals, request d can be dispatched past request h for its model if and only if both wait and h entered first |
| `CompletionQueue.QueueInEveryRun` | modules/llm/ext/openai/generation_proxy.go:158-208 | in every run, whatever the answers, the queue is the handlers in the wait loop, in order of arrival, within capacity, and its length is the one shown |
| `CompletionQueue.PositionNeverGrows` | modules/llm/ext/openai/generation_proxy.go:203-206 | the position of a waiter falls by one when somebody ahead leaves and never changes otherwise |
| `CompletionQueue.FairInEveryRun` | modules/llm/ext/openai/generation_proxy.go:158-208 | in every run whose answers are steady during each scan, handlers for one model are dispatched in the order in which they entered, and none while an earlier one is in the queue |
| `CompletionQueue.OvertakingRun` | modules/llm/ext/openai/generation_proxy.go:158-208 | a run in which they are not |
| `Drain.Counter.Inc` | sdk/base/inflight/inflight.go:17-30 | a fresh channel when the count leaves zero |
| `Drain.Counter.Dec` | sdk/base/inflight/inflight.go:33-48 | closes the current channel when the count reaches zero; no effect at zero |
| `Drain.Counter.ZeroChannel` | sdk/base/inflight/inflight.go:68-79 | the current channel |
| `Drain.ZeroChannelTellsZero` | sdk/base/inflight/inflight.go:17-79 | in every run no channel is closed twice, and the current one is closed if and only if the count is zero |
| `Drain.WaiterWakesIff` | sdk/base/inflight/inflight.go:58-79 | a channel handed to a waiter is closed if and only if the count has been zero at some moment since |
| `Drain.CountsRunning` | sdk/base/inflight/inflight.go:17-48 | with every Dec after its Inc the count is the number of running requests |
| `Scheduler.PickWorker` | sdk/base/worker/scheduler.go:56-110 | for every order of the map: fails if and only if no worker is eligible; otherwise the choice is eligible, no eligible one scores higher, and, while loads stand still, none of those is less busy |
| `Scheduler.LeastBusy` | sdk/base/worker/scheduler.go:96-109 | the second loop: a member with least load |
| `Scheduler.NeverUnfitIff` | sdk/base/worker/scheduler.go:77-82 | over all pools, tasks and loads, a worker that scores nothing is never chosen if and only if the threshold is positive |
| `Scheduler.ExactBeatsAlias` | modules/llm/ext/scorer.go:14-30 | with the threshold 0.01 an exact match with room beats every alias, a worker with neither is never chosen, and none is chosen if and only if none with room matches |
| `Alias.SplitIff` | sdk/api/control/alias.go:5-13 | the function finds exactly the matches of the regular expression, of which there is at most one |
| `Alias.NoKeyIff` | sdk/api/control/alias.go:5-13 | no key if and only if no match at all |
| `Alias.KeyIsItsOwnKey` | sdk/api/control/alias.go:7-13 | AliasKey is idempotent |
| `Alias.AliasesIff` | sdk/api/control/alias.go:7-13 | two names are aliases if and only if they match with the same family and size |

## Left out

- WebSocket, HTTP, Redis, Prometheus, logging, configuration, dashboards: input and output.
- CMS encryption and certificates: foreign libraries; only the envelope inside is modelled.
- JSON: payloads are opaque strings, and reading token counts from JSON is a parameter of the scanner, as is the meaning of white space.
- `proxyHTTPOnce`: a call returns a reply or fails; its timers and heartbeats are not modelled, and a worker that blocks for ever is a run that stops.
- Workers of a partitioned request are their positions in the pool; that they have distinct ids is taken from the registry's map.
- `EmbeddingJob.Job.Append`: usage sums are unbounded, the source's wrap at 2^63.
- Job registry: progress and metadata maps, the lists of workers in the snapshot (sorted and cut off), stream subscribers, the claim's long poll and its wake-up channel, and the timing of client expiry; expiry is a step that can happen to any job.
- JobRegistry.Registry.CountJobs: the counts and ages of the snapshot; its lists of jobs and workers only copy fields.
- EnvelopePlatforms.PythonRoundTripIff: takes for granted that `str.lower` is idempotent and neither makes nor removes white space, colons or line breaks.
- Envelope: Python's `int()` also reads underscores and digits outside ASCII, and C# strings can hold lone surrogates; here a number is a sign and ASCII digits between white space, and a character is a Unicode scalar value.
- UsageScanner: `findUsage` and `numberField`, which walk a JSON value; the body of a request that is not streamed.
- EventStream: the client's JSON parser, which throws on data that is not JSON, and cancellation, which ends the loop early like a cut connection.
- Bridge: the stream callback, which may still run after `Forward` has returned because it is called outside the lock; requests that the server starts; the write and ping loops.
- Bridge.SafeInEveryRun: up to 2^64 calls on one session; `SameIdIff` says that ids come round again after that.
- Transfer: channel ids are distinct numbers where the source draws random ones, and the bytes copied are not followed.
- Tunnel: the adapter's four calls between the lock sections, which do not touch the counters.
- CompletionQueue: a change of capacity during a run, and requests that are dispatched before they queue, which pass those in the queue.
- Drain.Counter.Inc: the counter is unbounded, the source's has 64 bits.
- Scheduler: `PickWorker` and the increment of the load are separate sections, so that a worker can be overcommitted; nothing is claimed about that.
- Authentication, masking and reconnect delays: no state worth following.
