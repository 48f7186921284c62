# Verified model of the gateway's admission, streaming and job protocols

The gateway puts command-line model harnesses behind an HTTP API. This project models the four state machines that
decide who is admitted, what is charged and what a streaming client sees, and proves what they keep over whole runs.

- **Quota ledger** (`Calendar`, `QuotaLedger`, `QuotaRuns`, `QuotaLimits`, `Settlement`, `DirectReply`,
  `StreamSettlement`). Reservations and usage rows as two tables, every database transaction as one atomic step, any
  number of clients, `now` values in any order. `DirectReply` and `StreamSettlement` drive the ledger from requests
  answered in one piece and from streams; `Settlement` is what either does among the transactions of everybody else.
- **Rate limiters** (`SlidingWindow`, `SharedLimiter`). The evicting queue against a naive limiter that keeps
  everything, and a fleet of replicas around one shared fixed-window counter, each call to which may fail, applied or
  not.
- **Streaming session** (`Pump`, `StreamCourse`, `StreamSession`, `StreamLaws`, `Delivery`, `ClientView`, `LiveView`,
  `History`, `Sse`, `Identity`, `Reconnect`). The heartbeat pump, both stream handlers as one class with a mode, the
  two history stores, event framing together with a reader that follows section 9.2.6 of the WHATWG HTML Living
  Standard, stream identities, and the round trip of a reconnecting client.
- **Cancellation and jobs** (`CancelProtocol`, `Registry`, `Drain`, `StderrTail`, `JobRunner`, `JobCancellation`). One
  abstract cancel/register machine that two classes implement, the reader/watcher race around an installer, the
  bounded error tail, the job runner fed by it, and what a cancellation means at each point of a job's life.

`Rows` (selecting and counting) and `Text` (decimal numbers, splitting) are shared. `dafny verify dfyconfig.toml`
checks everything.

State that the program updates in place is held by classes (`QuotaService`, `InMemoryRateLimiter`, `RedisServer`,
`RedisRateLimiter`, `HistoryStore`, `RedisHistoryStore`, `StreamHandler`, `ProcessRegistry`, `JobProcesses`,
`BoundedStderrDrainer`, `HarnessJob`); each method is tied to a function of the old state, and the laws are proved
about runs of those functions.

## Assumptions

- Quota: limits of a key are fixed and its row exists; tokens are fresh; whoever finalizes a token names the key that
  reserved it and a time not before the reservation; a finalization without a token names no key; a transaction that
  fails is rolled back as a whole.
- Rate limiters: limit and window of a key are constant and the monotonic clock of each replica does not run
  backwards. The shared counter is on one wall clock, and choosing its key and incrementing it are one step.
- Streams: one writer and one backing store per history key, and entries do not expire while the stream is followed.
  Frames carry the default retry time of 3000 milliseconds.
- Cancellation: every registration brings a process of its own; what is killed is dead.

## Where the code differs from what is written about it

- `docs/api.md:150` promises stream ids of 1 to 128 URL-safe characters and line 156 a rejection of anything else. The
  pattern ends in `$`, which also matches before a final line feed: `ValidatorAccepts` states exactly what passes. A
  header value cannot carry a line feed, so such an id comes only from a direct call of `validate_stream_id`.
- The Redis history stands in for the in-memory store, whose queue is bounded (`app/transport/history.py:56-66`). With
  a bound of zero its trim keeps the whole list: `RedisRefinesMemory` gives the exact condition. The program always
  uses the default bound of 100.
- Event data is cut at every Python line boundary, so a JSON text with a raw line separator in it arrives with a line
  feed in its place: `DataSurvivesIff` and `LineSeparatorIsLost`.
- A limit below one makes the in-memory limiter look at the oldest entry of an empty queue and raise:
  `LimitBelowOneFails`.
- The comment above `can_release_reservation = False` speaks of finalization; the conversation endpoints take the flag
  down before they store the assistant message, so a failed store leaves the reservation to expire: `StreamCalls` and
  `StreamHandler.Respond` give the exact condition, `FailedSaveStrandsToken` an input, `SendMessage` the direct form.
  A conversation stream whose consumer leaves at the very first event never enters the guarded block.
- A job is not always settled: an exception the runner does not catch, or a log without room meeting a message, leaves
  the stage of the last event. `HarnessJob.RunAdapter` gives the exact condition, `UncaughtLeavesRunning` an input.
- A job can be told cancelled and still complete: `InstallCompletesUnlessCancelled` and `LateCancelIsAnswered`.
- Daily limits bound what was admitted on a day, not what is dated on it: `DatedUsageBound` and
  `DatedUsageCanExceedLimit`.

## Model

| member | source | states |
|---|---|---|
| Calendar.BoundsCutWindows | app/services/quota_service.py:62-64 | a time is at or after the daily (monthly) bound of `now` exactly when it lies in that day (month) or later |
| Calendar.AddSecondsMoves | app/services/quota_service.py:235-235 | adding seconds moves a time by exactly so many of them, counted from a fixed instant |
| Calendar.BeforeMeansEarlier | app/services/quota_service.py:67-81 | comparing stamps field by field is comparing instants |
| QuotaLedger.CheckReadsRows | app/services/quota_service.py:67-126 | the check reports exactly the first window whose limit is reached by the usage rows of this key dated in the window or later plus its unexpired reservations so dated, counted by position, the day before the month |
| QuotaLedger.UnrelatedUsageIsIgnored | app/services/quota_service.py:67-81 | a usage row of another key, or one dated before both windows, changes no verdict wherever it stands |
| QuotaLedger.UnrelatedReservationIsIgnored | app/services/quota_service.py:67-81 | nor does a reservation of another key, an expired one, or one dated before both windows |
| QuotaLedger.PruneInvisible | app/services/quota_service.py:67-81 | pruning at `now` changes no count taken at `now`, hence no verdict |
| QuotaLedger.DeleteCount | app/services/quota_service.py:302-309 | deleting by token has a row count of zero exactly when nobody holds the token, and then changes nothing |
| QuotaLedger.ReserveAgreesWithCheck | app/services/quota_service.py:219-245 | the transaction rejects with a kind exactly when the separate check reports it; a rejection restores everything, pruned rows included |
| QuotaLedger.ReservationLaw | app/services/quota_service.py:215-245 | a committed reservation is refused exactly when a configured window is used up, with kind, limit and 86400 or 2592000 seconds, and changes nothing; otherwise exactly the expired rows go and one row comes, with its token, key, date and lifetime |
| QuotaLedger.FinalizationLaw | app/services/quota_service.py:302-326 | a committed finalization pays without a token always, with one exactly if it is held; it removes the token's rows, no other, and adds one usage row stated field by field; otherwise nothing changes |
| QuotaLedger.ReleaseLaw | app/services/quota_service.py:353-361 | a release removes exactly the rows of its token and tells whether there were any |
| QuotaLedger.CleanupLaw | app/services/quota_service.py:367-380 | a clean-up removes exactly the expired rows and tells how many |
| QuotaLedger.AdmissionTakesOneSlot | app/services/quota_service.py:190-245 | an admission adds exactly one to the key's own day and month counts and nothing to another key's |
| QuotaLedger.DefaultTtl | app/services/quota_service.py:217-217 | the default lifetime is a minute past the harness timeout or fifteen minutes, whichever is more |
| QuotaLedger.QuotaService.IsQuotaExceeded | app/services/quota_service.py:84-126 | reports the first window that the rows themselves use up, including none for a key without limits |
| QuotaLedger.QuotaService.EnforceReservationLimits | app/services/quota_service.py:161-187 | the loop over limits raises for the first window used up, with its kind, limit and retry time by value, and for no other reason |
| QuotaLedger.QuotaService.ReserveQuota | app/services/quota_service.py:190-266 | for every database outcome the tables and the result afterwards, judged on the unpruned rows: refusal by value and nothing changed, or the new row and the expired ones gone |
| QuotaLedger.QuotaService.FinalizeReservation | app/services/quota_service.py:269-333 | delete and insert happen together or not at all; which rows go, and the new row field by field, with and without a token |
| QuotaLedger.QuotaService.ReleaseReservation | app/services/quota_service.py:336-364 | removes the row of the token, answers false and changes nothing otherwise |
| QuotaLedger.QuotaService.CleanupExpiredReservations | app/services/quota_service.py:367-380 | removes exactly the expired reservations and tells how many |
| QuotaRuns.NextBooked | app/services/quota_service.py:228-245 | every step keeps tables, token fates and bills in agreement, one bill for each finalized token |
| QuotaLimits.RunBooked | app/services/quota_service.py:190-380 | the same in every reachable state |
| QuotaLimits.LoadIsCounted | app/services/quota_service.py:67-81 | what a window holds after pruning is covered by the count that admission looks at |
| QuotaLimits.FinalizeKeepsLoad | app/services/quota_service.py:302-325 | a finalization moves a request from open to charged without changing any window's load |
| QuotaLimits.NextWithinLimit | app/services/quota_service.py:215-245 | no step takes any window of any key over its limit, whatever order the clocks are in |
| QuotaLimits.WindowLimitHolds | app/services/quota_service.py:161-187 | in every reachable state, for every key, UTC day and UTC month: open plus charged requests admitted in it stay within the limit |
| QuotaLimits.DatedUsageBound | app/db/database.py:128-128 | usage dated in a window exceeds the limit by at most what was opened before it and finalized in it |
| QuotaLimits.DatedUsageCanExceedLimit | app/db/database.py:128-128 | a run with a daily limit of one and two usage rows of one key dated on one day |
| QuotaLimits.FatesOnlyLeavePending | app/services/quota_service.py:302-361 | a token's fate changes only from pending, and only by the step that names it or by a prune at or after its expiry |
| QuotaLimits.FateIsFinal | app/services/quota_service.py:302-361 | a fate other than pending is never left in the rest of a run |
| QuotaLimits.ChargedExactlyOnce | app/services/quota_service.py:302-326 | a token pays for exactly one usage row if finalized and for none otherwise |
| QuotaLimits.SpentTokenNeverCharged | app/services/quota_service.py:302-309 | a released or pruned token never pays, and a later finalization with it leaves the tables as they are |
| Settlement.OthersOnlyExpire | app/services/quota_service.py:228-231 | a pending token that nobody else names can only stay pending or expire |
| Settlement.OneSettlement | app/services/quota_service.py:302-361 | among any steps of other clients, prunes included, a token's own transaction succeeds exactly if it commits and the token has not expired; the fate it finds or gives is final, and the token is charged once exactly if it ends finalized |
| DirectReply.CompleteOnce | app/api/openai.py:389-507 | told from the outcomes of run and retry: finalized exactly if one of them produced something acceptable, with the reply that finalization gives; otherwise released, with the timeout, failure, malformed or unhandled reply of that outcome |
| DirectReply.SendMessage | app/api/chat.py:269-345 | told from preparation, run and storing: finalized exactly if the harness answered and the answer was stored; neither finalized nor released if only storing failed; otherwise released |
| DirectReply.ReplySettlesToken | app/api/openai.py:441-507 | with any transactions of other clients before and after: the token is finalized, released, left or found expired, with the exact condition of each, and charged once or never |
| DirectReply.RecordMeansCharged | app/services/quota_service.py:302-326 | a finalization that returns a record found its token pending, leaves it finalized and adds exactly one row |
| SlidingWindow.InMemoryRateLimiter.Allow | app/middleware/rate_limit.py:35-48 | the evicting loop and the verdict equal one specified request against the key's queue; other keys are untouched |
| SlidingWindow.InMemoryRateLimiter.Reset | app/middleware/rate_limit.py:50-51 | forgets every queue |
| SlidingWindow.EvictCuts | app/middleware/rate_limit.py:38-40 | eviction removes exactly the leading entries at or before the cutoff |
| SlidingWindow.FastAgreesWithNaive | app/middleware/rate_limit.py:35-48 | on every run and for every key the evicting limiter gives the verdicts of a limiter that keeps all admitted times |
| SlidingWindow.AdmissionsSpaced | app/middleware/rate_limit.py:35-48 | the admission `limit` places later is at least one window later |
| SlidingWindow.SpacedBoundsEveryWindow | app/middleware/rate_limit.py:35-48 | spacing bounds every window of that length by the limit |
| SlidingWindow.WindowNeverOverfull | app/middleware/rate_limit.py:35-48 | no window of the configured length ever holds more than `limit` admissions |
| SlidingWindow.RefusedExactlyWhenFull | app/middleware/rate_limit.py:41-48 | a request is admitted exactly when fewer than `limit` admissions lie in its window |
| SlidingWindow.LimitBelowOneFails | app/middleware/rate_limit.py:41-43 | with a limit below one every request raises and nothing is ever recorded |
| SlidingWindow.QueueBounded | app/middleware/rate_limit.py:35-48 | no queue that a run produces holds more than `limit` entries |
| SlidingWindow.RunGoesOn | app/middleware/rate_limit.py:35-48 | a longer run is the shorter one continued from the queues it reached |
| SlidingWindow.RetryHintIsTight | app/middleware/rate_limit.py:41-46 | on every run: a refused client, refused again or not asking meanwhile, is admitted exactly from the moment its `limit`-th newest admission leaves the window; the hint lies between 1 and window + 1, is never early and at most one second late |
| SharedLimiter.CounterKeyInjective | app/middleware/rate_limit.py:99-99 | counter keys of different clients or buckets differ |
| SharedLimiter.RedisServer.IncrExpire | app/middleware/rate_limit.py:58-65 | a first hit starts a counter of one with a fresh lifetime, later hits keep its expiry |
| SharedLimiter.RedisRateLimiter.AsyncAllow | app/middleware/rate_limit.py:87-114 | local bucket and shared counter after the call, and the combined verdict, for every way Redis can behave; allowed implies locally admitted |
| SharedLimiter.LocalBoundSurvives | app/middleware/rate_limit.py:87-114 | under any failures a replica's own sliding-window bound holds for what it lets through |
| SharedLimiter.CounterOutlivesBucket | app/middleware/rate_limit.py:58-65 | a counter started in a bucket cannot expire before the bucket ends |
| SharedLimiter.StepKeepsCounter | app/middleware/rate_limit.py:99-111 | every call keeps the counter at or above the admissions it has answered in its bucket |
| SharedLimiter.BucketBound | app/middleware/rate_limit.py:99-111 | for each key and bucket at most `limit` requests pass on an answer from Redis, whatever else fails |
| SharedLimiter.CountersAreExact | app/middleware/rate_limit.py:58-65 | on every trace, whatever fails and in whatever order the wall clocks are read: the counter of a key and bucket is the number of calls applied to it, and lasts to the end of the bucket |
| SharedLimiter.PassesExactly | app/middleware/rate_limit.py:87-114 | a request passes exactly if its replica's own window has room and, when Redis answers, at most `limit` calls have been applied in the bucket, itself included |
| SharedLimiter.RefusalHint | app/middleware/rate_limit.py:104-111 | a refusal names at least one second, at least each of the two hints, and no more than the larger |
| SharedLimiter.SlidingTouchesTwo | app/middleware/rate_limit.py:99-99 | a sliding window of one window length touches at most two buckets |
| SharedLimiter.FleetBound | app/middleware/rate_limit.py:87-114 | while Redis answers, all replicas together admit at most `limit` per bucket and `2 * limit` in any sliding window |
| SharedLimiter.FleetBoundIsReached | app/middleware/rate_limit.py:99-111 | a fleet of two that reaches twice the limit in one sliding window |
| Pump.PumpHarnessStream | app/transport/stream.py:78-123 | for every schedule: items passed on are a prefix of the harness items, one for every answer but the one that ends the pump, which the first answer past the last item does; the request kept across heartbeats is the only one going on, so at most one is made and not passed on, exactly when it was outstanding at a disconnect or when the consumer stopped, or was answered right before a disconnect; no request outlives the pump; one keepalive per timeout |
| StreamSession.StreamHandler.StoreAndYield | app/transport/stream.py:58-75 | an event is stored under its id and then handed out; the counter never falls behind it |
| StreamSession.StreamHandler.HandleRuntimeError | app/api/chat.py:528-549 | a cancellation event if the stream was cancelled or the error speaks of it, else an error event, or nothing when the error message cannot be stored |
| StreamSession.StreamHandler.ReportUsage | app/api/openai.py:351-354 | usage and done with one id skipped between them |
| StreamSession.StreamHandler.HandleItem | app/api/openai.py:268-310 | the events of one harness item, cut where the consumer closes |
| StreamSession.StreamHandler.ItemLoop | app/api/openai.py:263-315 | what the item loop emits, and what is still to come after it |
| StreamSession.StreamHandler.EventStream | app/api/openai.py:245-365 | the generator emits a prefix of its complete course, all of it unless closed |
| StreamSession.StreamHandler.Respond | app/api/chat.py:426-552 | a release happens exactly when a token exists and the finalization call was not made, save for a conversation whose message could not be stored after a complete answer and one closed at its first event; in a stream nobody closes, the answer is complete exactly if the harness ended well with something to say and nothing ended the stream |
| StreamCourse.StreamCalls | app/api/chat.py:475-516 | the finalization call is made exactly if the release flag is down and, in a conversation, the message was stored |
| StreamCourse.FailedSaveStrandsToken | app/api/chat.py:496-503 | a concrete conversation in which finalization is not called and nothing is released |
| StreamLaws.LogFollowsGrammar | app/api/openai.py:259-372 | every stored log, cut anywhere, is a prefix of start (token / tool_call tool_result)* (cancel / error / usage done), complete when nothing unhandled happens; no tool events for conversations |
| StreamLaws.IdsIncrease | app/api/chat.py:436-441 | ids are 1, 2, 3, … with exactly one number skipped before done, hence strictly increasing |
| StreamLaws.EffectsInOrder | app/api/openai.py:317-354 | whatever is handed out was stored just before; usage and done come only after finalization returned a record |
| Delivery.CourseTells | app/api/openai.py:300-310 | a complete stream stores one token event for every non-empty text it meets, in order, and no other |
| Delivery.FlagDownMeansTold | app/api/openai.py:312-318 | the release flag goes down only after the harness ended by itself and everything it said was stored |
| Delivery.TokensFollowHarness | app/api/chat.py:448-476 | pump and handler together, for every schedule and cut: the stored token events are those of the harness's first non-empty texts, each once; of all of them once the release flag is down |
| ClientView.LogIsScript | app/api/openai.py:259-365 | what a stream stores is, in order, the script told directly from item fields and outcomes: a token per text, two events per tool call, and the ending that the first fault decides |
| ClientView.ClientReadsScript | app/api/chat.py:444-549 | read as server-sent events, that is the script's messages with their names on the wire, data, ids and retry time, a beginning of them for a stream that was cut |
| LiveView.LiveClientReadsScript | app/api/openai.py:367-369 | a connected client reads the same through all heartbeats |
| LiveView.CourseBeats | app/api/openai.py:269-271 | one heartbeat goes out for every wait that timed out |
| StreamSettlement.WholeStream | app/api/openai.py:335-372 | a stream, cut anywhere, does to any ledger what its one transaction does: one finalization, one release or nothing |
| StreamSettlement.StreamSettlesToken | app/api/chat.py:475-552 | with any transactions of other clients before and after: finalized exactly when finalization returned a record, released exactly when the clean-up released an unexpired token, a token expired during the stream stays expired and uncharged; a stored done means exactly one charge |
| StreamSettlement.TokenlessStreamIsCharged | app/api/openai.py:335-354 | a stream without a token touches no reservation and adds one usage row exactly when finalization was called and committed |
| History.HistoryStore.Append | app/transport/history.py:25-26 | the bounded queue of the key gains the entry and keeps the newest |
| History.RedisHistoryStore.Append | app/transport/history.py:76-91 | push at the head, trim, and removal of a list that became empty |
| History.RedisHistoryStore.Replay | app/transport/history.py:93-112 | the reversed loop yields the payloads with a larger id of every readable item, oldest first |
| History.RedisHistoryStore.GetHistory | app/transport/history.py:114-132 | the reversed loop yields the newest readable entries |
| History.DecodeEncode | app/transport/history.py:84-105 | an entry survives the text form whatever its payload holds, bars and line feeds included |
| History.MemoryKeepsLast | app/transport/history.py:21-26 | after any appends the queue holds the newest entries of its key |
| History.RedisKeepsLast | app/transport/history.py:76-91 | the list holds the encodings of the same entries, newest first |
| History.RedisUnboundedAtZero | app/transport/history.py:84-85 | with a bound of zero nothing is ever trimmed |
| History.RedisRefinesMemory | app/transport/history.py:76-159 | after any appends no replay, history or existence query tells the stores apart, if and only if the bound is at least one or nothing was written |
| History.ReadersSeeNewest | app/transport/history.py:21-44 | history, replay and existence after any appends, told from what was written |
| History.ReplayAfterCut | app/transport/history.py:28-32 | a replay after entry j is exactly what follows it, or the newest `maxlen` of that |
| Sse.SseEvent | app/shared/sse.py:8-22 | the loop builds the specified frame |
| Sse.ReadsWhatWasSent | app/shared/sse.py:8-26 | a conforming reader of any frames interleaved with keepalives gets every event, in order, with its id, name and retry, and the pieces of its data joined by line feeds |
| Sse.DataSurvivesIff | app/shared/sse.py:17-19 | data arrives unchanged exactly when its only line boundaries are line feeds and it does not end with one |
| Sse.WhatArrives | app/shared/sse.py:17-19 | of any data, what arrives is the text with every line boundary turned into a line feed and a final one dropped |
| Sse.LineSeparatorIsLost | app/shared/sse.py:17-19 | a concrete text that arrives changed |
| Identity.ValidatorAccepts | app/transport/identity.py:16-49 | the pattern accepts the documented ids and those followed by one line feed, nothing else |
| Text.ParseDec | app/transport/identity.py:52-65 | a written integer is read back |
| Text.DecWrites | app/transport/identity.py:68-86 | integers are written digit by digit |
| Text.ParsedIsSpelled | app/transport/identity.py:52-65 | whatever is read as a number is blanks, a sign or none, digits in groups, and blanks, and has that value |
| Text.SpelledIsParsed | app/transport/identity.py:52-65 | whatever is spelled so is read as that value |
| Identity.HistoryKeyInjective | app/transport/identity.py:68-86 | equal history keys come from the same endpoint, user, stream id and conversation |
| Identity.ResolveSeparatesStartFromResume | app/transport/identity.py:89-153 | exactly when a caller-chosen stream is started, and exactly when it is resumed |
| Identity.ResolveCases | app/transport/identity.py:89-153 | every request falls into exactly one case, told from both headers, the endpoint and the history, with its error or its identity: without headers a new stream under the generated id |
| Identity.PrefixSelectsOneConversation | app/api/chat.py:572-573 | a conversation's prefix matches its own request ids and neither another conversation's nor a completion's |
| Reconnect.StreamStands | app/transport/stream.py:58-75 | the stored entries of any stream, cut anywhere, are frames that state their own id and retry time |
| Reconnect.HeaderNamesLastEntry | app/transport/identity.py:52-65 | the last id a client saw, sent back as a header, validates to the id of the last entry it was sent |
| Reconnect.ReadInTwoParts | app/transport/stream.py:42-55 | reading the entries up to a cut and the entries after it gives together what reading all of them gives |
| Reconnect.ReconnectIsSeamless | app/api/chat.py:376-381 | a client that drops after any event and resumes reads exactly the messages of the whole stream, from either store, if the rest fits the buffer |
| Reconnect.StartedStreamOnlyResumes | app/transport/identity.py:116-137 | once a stream has stored an event its id can only be resumed |
| Registry.ProcessRegistry.Register | app/services/process_registry.py:46-58 | stores the handle, or kills it and forgets the mark if a cancellation came first |
| Registry.ProcessRegistry.Cancel | app/services/process_registry.py:60-87 | takes the handle, or leaves a mark |
| Registry.ProcessRegistry.Cleanup | app/services/process_registry.py:89-91 | drops the handle and keeps the marks |
| Registry.ProcessRegistry.FindByPrefix | app/services/process_registry.py:101-106 | the first registered id with the prefix in insertion order, and none only if there is none |
| Registry.InsertionOrder | app/services/process_registry.py:101-106 | after any steps the registry keeps its ids in the order in which they were last registered |
| Registry.ProcessRegistry.CancelByPrefix | app/services/process_registry.py:108-115 | whatever other tasks do between search and cancellation: the id found first is cancelled if still registered, and otherwise marked and reported as nothing |
| Registry.ProcessRegistry.CancelMessage | app/api/chat.py:580-594 | with steps of other tasks before every access: nothing is cancelled but the three ids spelled by the message id and ids with the conversation's prefix; without such steps the first of the three that is registered is cancelled and named, and nothing is answered exactly if nothing within reach is registered |
| Registry.MessageReach | app/api/chat.py:584-589 | of other conversations and of completions, exactly the id that the message id itself spells out is within reach |
| CancelProtocol.JobProcesses.RegisterProcess | app/services/harness_job_service.py:98-109 | the same abstract step as the registry's |
| CancelProtocol.JobProcesses.Cancel | app/services/harness_job_service.py:115-122 | the same abstract step as the registry's |
| CancelProtocol.JobProcesses.TakeCancellation | app/services/harness_job_service.py:189-192 | tells of a pending cancellation and forgets it |
| CancelProtocol.CancelsTakeDistinctProcesses | app/services/process_registry.py:46-91 | in every interleaving no id is registered and marked at once, and successful cancellations take distinct stored processes, never more than were stored |
| CancelProtocol.MissedCancelKillsNextRegister | app/services/process_registry.py:46-67 | a cancellation that found nothing kills the next process registered under its id, which is never stored however the run goes on |
| JobCancellation.CancelsCount | app/services/harness_job_service.py:115-122 | among steps of other jobs, the first cancellation takes a registered process and every other one leaves a mark |
| JobCancellation.InstallCompletesUnlessCancelled | app/services/harness_job_service.py:98-199 | for cancellations at any points of a job's life: it completes exactly if its process was left alone to exit with 0 and it was never cancelled, cancelled once after the exit, or only before a registration that found the process gone |
| JobCancellation.LateCancelIsAnswered | app/services/harness_job_service.py:115-138 | a first cancellation after the exit still answers that there was a process |
| Drain.EmptyQueue | app/clients/base.py:138-147 | exactly the non-empty lines that the consumer itself takes come out, in order |
| Drain.Settle | app/clients/base.py:136-152 | exactly what comes out once the watcher is seen to be done, and the terminal event |
| Drain.DrainSubprocess | app/clients/base.py:88-160 | for every interleaving: lines in order, then exactly one terminal event telling what the watcher saw; no line missing if the end marker was consumed first, and exactly which lines otherwise |
| Drain.NothingLost | app/clients/base.py:136-147 | only empty lines are missing if nothing came in unnoticed and nobody else took any |
| StderrTail.BoundedStderrDrainer.Drain | app/clients/base.py:190-199 | the buffer is the last `maxBytes` of everything read |
| StderrTail.TailIsLast | app/clients/base.py:190-199 | trimming after every chunk keeps what trimming once at the end keeps |
| StderrTail.TailIgnoresChunking | app/clients/base.py:190-199 | the tail does not depend on how the bytes were cut |
| JobRunner.HarnessJob.HandleEvent | app/services/harness_job_service.py:167-182 | stage, exit code, log and cancel sentinel after one event |
| JobRunner.HarnessJob.Conclude | app/services/harness_job_service.py:189-199 | a pending cancellation that no event told of turns the job into a failure; an open stage is decided by the exit code |
| JobRunner.HarnessJob.RunAdapter | app/services/harness_job_service.py:156-218 | for every event sequence and ending: when the job is settled, when it completed, its exit code, its log (the newest messages and at most one closing entry), the callback only on completion, and what is left of its process and its mark |
| JobRunner.SuccessByStage | app/services/harness_job_service.py:175-199 | what a stream of events amounts to, by the literal stage of its last event and the exit code that counts |
| JobRunner.LastExitIsOf | app/services/harness_job_service.py:175-177 | the exit code that counts is that of the last completed, failed or error event |
| JobRunner.TellsByPhrase | app/services/harness_job_service.py:178-180 | a failed event tells of a cancellation exactly if one of the two phrases occurs in its text |
| JobRunner.NoRecipeFails | app/clients/base.py:299-302 | an adapter without a recipe ends the job as failed |
| JobRunner.UncaughtLeavesRunning | app/services/harness_job_service.py:165-210 | a concrete job whose last event leaves it running when an exception gets past the runner |
| JobRunner.InstallCompletesIff | app/clients/base.py:299-330 | an install job completes exactly when exit code 0 was seen before the deadline and no cancellation is pending |
| JobRunner.InstallLog | app/clients/base.py:299-330 | an install job logs its opening line, the non-empty lines it was given and the text of a passed deadline |

## Left out

- Time limits of the calendar: years run without bound; the source's date type stops at the year 9999.
- Rounding: limiter clocks are real numbers, so floating-point rounding of times is not modelled.
- `Text.ParseInt` reads the characters a header can carry; Python's `int()` also takes other scripts' digits and blanks, and refuses more than 4300 digits.
- Event data, JSON and tool-call payloads are opaque texts; whether a tool call or a structured answer is well formed is an input.
- Runtime-error texts: that an error speaks of a cancellation or of a timeout is an input of the handlers.
- Redis itself: list expiry, eviction and failover within a stream are excluded, and the TTL it reports is an input.
- Lone surrogates, which have no encoding, are not excluded from event texts.
- StreamSession.StreamHandler.HandleRuntimeError: states what happens to an already cancelled stream, but does not model a store that raises, the only way such an error could come.
- Killing, terminating and waiting for a process; a handle is a number and being killed is an outcome.
- Drain.DrainSubprocess: does not model a reader that fails with an unexpected exception, nor the clock that makes the watcher time out; lines are those the reader put into the queue before its end marker.
- The job's success callback is asked for or not; what it does, and the job's copy in Redis with its expiry, are not modelled.
- Work between reservation and the guarded blocks, where a lost reservation waits for its expiry, and task cancellation inside a finalization.
- Two concurrent first requests with the same caller-chosen stream id, and streams that switch stores half-way.
- Bodies of direct answers, including how tool calls are recovered from them; whether the body can be built is an input.
- Routing, authentication, credentials, model selection, metrics, dashboards, the terminal and job log streaming.
