# wis2hauler: verified model of the shared-state pipeline

wis2hauler moves WIS2 notifications and files through a pipeline whose workers share Redis: subscribers ingest
notifications, race for each download and write jobs, downloaders fetch, verify and record them, a cleaner
evicts old files, and an election decides which replica cleans and reports. This project models that shared
state and the code that changes it, and proves what every interleaving keeps.

How it is built:

- Where several workers change shared keys, the model is a step system: one step per store command, taken by any
  worker at any time, with failures and expiries as steps of their own. `Enabled` says when a step can happen,
  `Next` what it does, `Valid`/`After` what a run is. The theorems are about every valid run.
- Where the code is a loop or updates fields, the model is a method or a class with the same loop and fields,
  proved equal to a function or to the matching step of the step system.
- Redis hashes are maps; the flat arrays HGETALL returns are listings of a map in an arbitrary order.
- I/O results, clocks, random numbers, digests, path functions and JSON parsing are parameters or nondeterministic
  choices.

The modules, from the core outwards:

| files | part of the program |
|---|---|
| `Text`, `Records` | strings, split/join, decimal numbers, string order; HGETALL listings |
| `DownloaderHash`, `HrefStatus`, `JobRecord` | the shared `downloader_id` hash, its two scripts, the status of each href, and whose job a record tells of |
| `Retry`, `RetryReference`, `RetryTheorems`, `RetryListings`, `RetryBudget`, `RetryReached` | `decideRetry`: the loop, a map-level reference, what it decides, when the order of the listing matters, termination of retries and that its bounds are reached |
| `JobProtocol`, `JobSteps`, `JobStore` | claim, complete key, deadline marker, queue and hash under concurrent candidates and downloader tasks |
| `ClaimSafety`, `ClaimExpiry`, `DeadlineMarker`, `JobSafety`, `JobHash`, `JobExpiry` | what every run of that protocol keeps, which expiries are harmless, and what the others break |
| `StreamIds`, `RawStream`, `RawStreamRuns`, `RawStreamLoop` | the raw stream, its consumer loop and its loss detector |
| `HashFile` | verifying and relocating a downloaded file |
| `Aria2Rpc`, `DownloadStart` | the aria2 JSON-RPC client; starting and acknowledging downloads |
| `TopicMatch`, `Ingest`, `IngestHandlers`, `Lineage` | topic patterns, the ingest filter, reuse of a data_id |
| `EvictionSchedule`, `EvictionOwner`, `EvictionSweep`, `WorkerCommands` | the eviction pipeline, end to end, and whose path a report lists |
| `Election`, `ElectionRuns` | heartbeats, election and reaping |
| `Metrics`, `StatsWindow` | statistics per window |

Where the code and its comments differ, the model follows the code. Findings of that kind are stated as theorems:

- A `complete` that HGETALL lists after the first waiting href is not seen by `decideRetry`: the decision depends on
  the listing exactly for hashes with both a waiting and a completed href (`RetryListings.ListingsAgreeIff`), the
  promoted href exactly for those with two waiting ones and retries left (`PromotionsAgreeIff`).
- The scan compares values without looking at their fields, so a data_id that spells `complete` can stop the retries;
  `RetryListings.MisledIff` says exactly when.
- The claim key is never renewed. Its expiry under its owner is harmless exactly when nobody can race for it any more
  (`ClaimExpiry.ExpiryHarmlessIff`), which a completion brings about as long as the complete key lasts.
- The deadline marker can be set again after its deletion; `DeadlineMarker.StaysDeletedIff` says in which runs, and
  `UnmarkedForGoodIff` from which states.
- `releaseClaim` deletes whatever claim key is there. It deletes only the caller's own exactly in the runs where no
  key expires while its owner is on the publish-only path (`ClaimSafety.ReleasesOwnIff`).
- Only the first link of a stored notification is ever recorded as complete, also when a retry fetched another
  href (`JobHash.OnlyStoredLinksComplete`).
- A request whose `send` throws is rejected and stays pending (`Aria2Rpc.DisjointIff`).
- The loss detector fires when only the last read entry is gone, and misses a loss that a read follows before the
  next check (`RawStream.DetectsIff`, `RawStream.WarningIsRightIff`, `RawStreamRuns.ReportedIff`).
- Checks of one data_id that overlap can accept pubtimes out of order, exactly when an accepted message is overtaken
  between its read and its record by one that is not older (`Lineage.OverlappingIncreaseIff`).
- A completion report lists whatever path the record holds when it is read again. When two jobs of one content
  complete, a worker can be told to unlink the other's path while its own is never scheduled
  (`EvictionOwner.OwnPathIff`, `SecondReportsFirst`); with one job at a time that never happens (`AloneReportsOwn`).
- With S3 and a rename directory both configured a file is moved and not uploaded, but announced like an object and
  never scheduled for eviction (`HashFile.RunHash`).
- A member scheduled again during a sweep leaves with the sweep and gets no command of its own
  (`EvictionSweep.LeavesAsReadIff`).
- A payload is remembered before its id is claimed, so after a failing claim its repetitions on that connection are
  dropped; in overlapping runs the caches are invisible exactly when every failing claim is made up for
  (`IngestHandlers.SameIdsIff`).
- The key of an origin's lineage can equal one of a global cache exactly for origins named `gc` or `gc:...`
  (`Lineage.HistoriesCollideIff`).
- A statistics window is never aggregated twice by number, but its key repeats when the local clock does
  (`StatsWindow.KeyRepeatsIff`).

## Model

| member | source | states |
|---|---|---|
| Text.JoinOfSplit | src/wis2/topic-match.ts:20-43 | `split` then `join` on one separator gives the string back |
| Text.SplitOfJoin | src/wis2/redis-keys.ts:140-146 | `join` then `split` gives the parts back when none holds the separator |
| Text.PrintRoundTrip | src/downloader/retry.ts:83-95 | the attempt counter written with `String` is read back by `parseInt` |
| Records.ParseFlatRecord | src/downloader/kv.ts:13-20 | the loop builds the map a flat array stands for, last value of a key winning |
| Records.ToMapOfFlatten | src/downloader/kv.ts:13-20 | parsing any listing of a hash gives that hash |
| DownloaderHash.HashKey.WriteDownloadJob | src/redis/ioredis-store.ts:195-217 | the eight fields of a job and nothing else change, and the key gets two hours to live |
| DownloaderHash.HashKey.RecordWaitHref | src/redis/ioredis-store.ts:236-242 | the href waits and its source is recorded |
| DownloaderHash.HashKey.EvalComplete | src/downloader/lua.ts:37 | nil and no change for an unknown href; the first completion completes it and records its own time, address and path, each in its field, and nothing else; a later one changes nothing |
| DownloaderHash.HashKey.EvalRetry | src/downloader/lua.ts:55 | demotes only a queued href, promotes only a waiting one with the new count, answers 1 exactly on a promotion, and touches no other field |
| HrefStatus.StepMoves | src/downloader/lua.ts:37-55 | each write moves each href's status along absent, waiting, queued, errored or to complete, and which write causes which move |
| HrefStatus.StatusOnlyAdvances | src/downloader/lua.ts:37-55 | over any run of writes, with retry arguments from any stale snapshot, no status goes back and `complete` is never left |
| HrefStatus.KeepsCompleteIff | src/redis/ioredis-store.ts:195-242 | a write keeps all completed hrefs exactly when it is not a blind HSET on one of them |
| HrefStatus.WaitsAreConserved | src/downloader/error-retry.ts:72-121 | every recorded wait is still waiting, was promoted once, or completed while waiting |
| HrefStatus.PromotionsBounded | src/downloader/error-retry.ts:72-121 | promotions, and with them the script's answers 1, never exceed recorded waits |
| HrefStatus.AnswersCountPromotions | src/downloader/lua.ts:55 | over any run the answers 1 of LUA_RETRY are the promotions |
| Retry.TryPromote | src/downloader/retry.ts:79-111 | the branch at the first waiting href: refusal, attempt bump, delay, source, in-place promotion |
| Retry.DecideRetry | src/downloader/retry.ts:46-129 | the scan with its break and in-place writes computes decision, payload, hrefs, sources, attempt and delay of the specification |
| RetryReference.ScanRefinesReference | src/downloader/retry.ts:46-129 | on records with distinct fields and status words only in status slots, the flat scan equals a walk of the pairs that stops at the first waiting href |
| RetryTheorems.RetryOkIff | src/downloader/retry.ts:58-128 | RETRY_OK for an href exactly when it is the first waiting one, nothing complete is listed before it, at most six attempts are counted and `error-nocache` is nowhere |
| RetryTheorems.DecisionCarries | src/downloader/retry.ts:79-126 | what a decision returns, read off the record: the promoted href with its own source, the next attempt and delay; the last queued href before it as the failed one, with its source; nothing where there is nothing |
| RetryListings.NoNeedIff | src/downloader/retry.ts:70-119 | for records with any values, whose field names are not status words: RETRY_NONEED exactly when the value `complete` is listed before the first waiting href |
| RetryListings.MisledIff | src/downloader/retry.ts:70-72 | the scan gives up although no href listed before the first waiting one is complete, exactly when a field that is no href holds the word there |
| RetryListings.ListingsAgreeIff | src/downloader/retry.ts:58-128 | all listings of a hash give one decision exactly when it does not hold both a waiting and a completed href |
| RetryListings.PromotionsAgreeIff | src/downloader/retry.ts:79-111 | all listings promote the same href exactly when at most one waits or the hash is past its retries |
| RetryTheorems.LocalEqualsScript | src/downloader/retry.ts:93-126 | the array the decision returns, read as a map, is the hash after LUA_RETRY with the returned arguments, and the script promotes exactly when the decision did |
| RetryBudget.RoundSteps | src/downloader/error-retry.ts:72-121 | one decision round, whatever is written around it: a promotion raises the counter read by one and schedules five times that |
| RetryBudget.PromotionsUseUpTheBudget | src/downloader/error-retry.ts:72-121 | while nothing sets the counter back, promotions and waits over any rounds are exactly what it was raised by |
| RetryBudget.ResetsRenewTheBudget | src/redis/ioredis-store.ts:195-217 | each job write or publication that sets the counter back allows at most six promotions and 285 s more, even between a snapshot and its script |
| RetryBudget.RestartsBounded | src/downloader/error-retry.ts:72-121 | over any rounds, restarts are at most the promotions plus the waiting hrefs that completed under a decision, each of which adds at most a minute |
| RetryBudget.RetriesTerminate | src/downloader/retry.ts:84-107 | from attempt 1, for each reset of the counter and once more: at most 6 promotions and 285 s of scheduled waits, 315 s with the refused round, however many waits keep arriving; every further restart is paid by a waiting href that completed meanwhile |
| RetryReached.SixIsTheLimit | src/downloader/retry.ts:84-91 | a waiting href with nothing complete before it and caching not refused is granted at attempt 6 and refused at 7 |
| RetryReached.SixHappen | src/downloader/error-retry.ts:72-121 | from attempt 1, with six hrefs waiting and nothing complete, the six promotions and 285 s that bound the retries do happen |
| JobStore.Store.CheckAndClaimDownload | src/redis/ioredis-store.ts:168-189 | EXISTS then SET NX: two steps of the protocol, and which action they lead to |
| JobStore.Store.DispatchDownload | src/subscriber/consumer.ts:438-468 | marker first and alone; then job and queue entry in either order, each failing by itself, with what is then written |
| JobStore.Store.DispatchWait | src/subscriber/consumer.ts:459-462 | the wait is recorded or nothing changed |
| JobStore.Store.DispatchPublishOnly | src/subscriber/consumer.ts:467-562 | the counter is initialised and the key released; a failure leaves the key |
| JobStore.Store.Dispatch | src/subscriber/consumer.ts:415-562 | an undisturbed dispatch, whichever of its writes fail, is a run of the protocol that ends in the decided action; without failures exactly that action's writes are done |
| JobStore.Store.CompleteHref | src/redis/ioredis-downloader-store.ts:189-192 | the completion script as a protocol step |
| JobStore.Store.MarkDone | src/downloader/finishing.ts:73-90 | marker delete and flag write, neither stopping the other |
| JobStore.Store.RunFinishing | src/downloader/finishing.ts:73-169 | a href not in the record stops everything; otherwise it is complete, the marker goes unless its delete failed, the flag is set unless its write failed, and the report is the record as others may have left it, with the length |
| JobStore.Store.Promote | src/downloader/error-retry.ts:101-121 | restart and LUA_RETRY in either order, each with or without success: one new download at most, and the script's hash |
| JobStore.Store.RecordError | src/downloader/error-retry.ts:122-133 | the error entry, then the marker's deletion, only after it |
| JobStore.Store.GiveUp | src/downloader/error-retry.ts:122-133 | the error stream gets the decision's payload with the record's own data_id and whether there was a record, then the marker goes, then the failure is reported; each only if what comes before it succeeded |
| JobStore.Store.RunRetryDecision | src/downloader/error-retry.ts:72-135 | the three outcomes of a decision and their whole effect on hash, errors, marker, reports and downloads, the error entry and the failure report read off the hash field by field |
| JobRecord.LastJobIsRecorded | src/redis/ioredis-store.ts:195-217 | after any writes the notification, topic, times and data_id of a record are together those of the last job written |
| JobRecord.DataIdOfJob | src/downloader/error-retry.ts:76-81 | so the data_id an error entry carries is the one its job was written with, whatever the scripts, waits and publications did since |
| JobSteps.TaskRoutes | src/downloader/complete.ts:105-144 | a task comes to a retry decision exactly after a failed fetch or HASH_NOK, completes exactly what HASH_OK verified, works exactly on the first link of the stored notification, records an error exactly on RETRY_NOK |
| ClaimSafety.DecisionMeaning | src/subscriber/claim.ts:33-41 | only winners of incomplete content act; who publishes only, waits or is dropped |
| ClaimSafety.WonAt | src/subscriber/claim.ts:33-41 | a candidate becomes a winner at its winning SETNX and at no other step |
| ClaimSafety.PeriodsKept | src/redis/ioredis-store.ts:168-189 | every step keeps winners numbered by their wins and the holder the latest |
| ClaimSafety.ClaimExclusive | src/redis/ioredis-store.ts:168-189 | in every run, whatever expires: the key belongs to the one winner whose period is not over, and no two winners share a period |
| ClaimSafety.HolderKept | src/subscriber/consumer.ts:415-562 | every step but an expiry keeps: the holder is exactly the candidate still on its download or publish-only path |
| ClaimExpiry.AloneStep | src/subscriber/consumer.ts:415-562 | each step, expiries included, keeps at most one winner at work exactly unless a candidate wins while another is at work |
| ClaimExpiry.AloneIff | src/subscriber/consumer.ts:415-562 | over a run: at most one is at work in every state exactly if none wins while another is at work |
| ClaimExpiry.HeldOrQuietKept | src/subscriber/consumer.ts:415-562 | each step with only harmless expiries keeps: the key is with its holder, or it is gone and nobody can race for it |
| ClaimExpiry.OneActsAtATime | src/subscriber/consumer.ts:415-562 | in every run in which keys expire only when nobody can race for them, at most one candidate is on the download or publish-only path, and a key that is there is its own |
| ClaimExpiry.ExpiryHarmlessIff | src/subscriber/consumer.ts:31 | the expiry of a key under its owner is harmless in every future exactly when nobody can race for it: no candidate is between EXISTS and SETNX, and the content is complete or none is still to start |
| ClaimSafety.ReleasesOwnIff | src/redis/ioredis-store.ts:248-250 | releases delete only the caller's own key exactly in runs where no key expires under a candidate that will release it |
| JobSafety.TracesKept | src/subscriber/consumer.ts:415-462 | queue, tasks, complete key, waiters and finished candidates all presuppose a win |
| JobSafety.ExactlyOneDownloads | src/subscriber/claim.ts:33-41 | with no nocache candidate, once all are done, exactly one took the job and all others wait or found it complete, if and only if no candidate won while an earlier winner was at work |
| JobSafety.ExactlyOneJob | src/subscriber/consumer.ts:438-462 | when no candidate stopped and no job write failed, at least one job was queued, and exactly one under the same condition and no other |
| DeadlineMarker.MarkerOrderKept | src/downloader/finishing.ts:73-90 | every step, whatever it is, keeps: one marking for each candidate that took the job, at most one completion or recorded error for each job consumed, one deletion at most for each of those, queued jobs never ahead of markings |
| DeadlineMarker.MarkerCauses | src/subscriber/consumer.ts:448-455 | in every run, whatever expires and whoever wins: no job is queued before the marker was set for it, no job comes to more than one completion or recorded final error, and no deletion happens without one of its own |
| DeadlineMarker.StaysDeletedIff | src/subscriber/consumer.ts:448-455 | over a run: the marker is absent in every state after a deletion, so that it expires only before, exactly if no candidate sets it after a deletion |
| DeadlineMarker.MarkerDiscipline | src/subscriber/consumer.ts:448-455 | over a run: in every state at most one marking and one queued job, and no marker after a deletion, exactly if no candidate sets the marker after another has |
| DeadlineMarker.MarkerDisciplineAlone | src/subscriber/consumer.ts:448-455 | that holds in every run in which no candidate wins while an earlier winner is at work |
| DeadlineMarker.MarkerDisciplineHarmless | src/subscriber/consumer.ts:31 | and so in every run in which claim keys expire only when nobody can race for them |
| DeadlineMarker.UnmarkedForGoodIff | src/subscriber/consumer.ts:448-455 | an absent marker stays absent in every future, the complete key lasting, exactly when no candidate is about to set it and none that may download is racing or would find the content incomplete |
| JobHash.WritesAreFresh | src/redis/ioredis-store.ts:195-242 | in the protocol the two blind HSETs always name a new href |
| JobHash.RunIsHashRun | src/subscriber/consumer.ts:438-468 | a run of the protocol does to the hash what its writes do in order, all of them allowed by the status machine |
| JobHash.ProtocolStatuses | src/downloader/lua.ts:37-55 | in every run of the whole protocol statuses only advance, `complete` stays, promotions are bounded by waits |
| JobHash.OnlyStoredLinksComplete | src/downloader/complete.ts:105-144 | an href is recorded complete only if it is the first link of a stored notification |
| JobExpiry.StaleReleaseLetsTwoDownload | src/subscriber/consumer.ts:467-562 | a run showing that the condition of `ClaimExpiry.OneActsAtATime` is needed: one expiry leads to two downloads at once |
| JobExpiry.ExpiredClaimRevivesMarker | src/subscriber/consumer.ts:448-455 | the case that `DeadlineMarker.StaysDeletedIff` excludes does occur: an expired claim lets the marker be set again after its deletion |
| StreamIds.ParseOfPrint | src/subscriber/stream-id.ts:33-36 | parsing undoes printing of an id |
| StreamIds.CompareIsBefore | src/subscriber/stream-id.ts:19-25 | on real ids the comparison is the order of (ms, seq) and 0 only for equal ids |
| StreamIds.CompareTotal | src/subscriber/stream-id.ts:19-36 | on any strings, malformed ones too, it is a total preorder |
| StreamIds.TextOrderIsNot | src/subscriber/stream-id.ts:10-18 | comparing texts would order 9-0 after 10-0 |
| StreamIds.TrimSparesUnreadIff | src/subscriber/stream-id.ts:51-55 | the cutoff spares every id newer than the cursor exactly when the margin is not negative |
| RawStream.CursorKept | src/subscriber/consumer.ts:793-807 | every step keeps lastId between the passed entries and the others |
| RawStream.AccountedKept | src/subscriber/consumer.ts:745-826 | every step keeps: each entry up to the cursor was read once or evicted unread, never both |
| RawStream.BoundedKept | src/subscriber/consumer.ts:781-825 | every step keeps inFlight equal to the unsettled batches and below maxInFlight + count |
| RawStream.AlternatingKept | src/subscriber/consumer.ts:762-776 | the two loss events alternate |
| RawStream.DetectsIff | src/subscriber/consumer.ts:764-766 | the detector fires exactly when the last read entry is gone and something is left |
| RawStream.LossIsDetected | src/subscriber/consumer.ts:764-766 | an evicted unread entry ahead of the cursor is noticed whenever the stream is not empty |
| RawStream.WarningIsRightIff | src/subscriber/consumer.ts:764-766 | a firing detector is right exactly when more than the last read entry is gone |
| RawStreamRuns.EntriesConserved | src/subscriber/consumer.ts:714-827 | over any run: entries are read in order, none twice, none both read and lost, and the counts add up |
| RawStreamRuns.TrimRemovesOnlyRead | src/redis/ioredis-store.ts:164-166 | the consumer's own trim loses nothing |
| RawStreamRuns.DispatchedExactlyOnce | src/subscriber/consumer.ts:790-826 | if the cap evicts nothing unread, exactly the non-empty entries behind the cursor are dispatched, once, in order |
| RawStreamRuns.NeverWarnsWithoutCap | src/subscriber/consumer.ts:745-776 | with cursor trims only, no loss is ever reported |
| RawStreamRuns.ReadHidesLoss | src/subscriber/consumer.ts:745-807 | after a successful read the detector is silent whatever was lost |
| RawStreamRuns.ReportedIff | src/subscriber/consumer.ts:745-807 | in any run an entry evicted unread is reported exactly when a check that finds the stream not empty falls between its eviction and the next read that finds something |
| RawStreamRuns.WarnsWithoutLoss | src/subscriber/consumer.ts:764-770 | a run that warns although nothing was lost |
| RawStreamRuns.MissesLoss | src/subscriber/consumer.ts:745-807 | a run of the case that `RawStreamRuns.ReportedIff` leaves unreported: an entry is lost and nothing is ever warned about |
| RawStreamLoop.ConsumerLoop.AppendRawMessage | src/redis/ioredis-store.ts:110-126 | XADD with its cap is the model's append |
| RawStreamLoop.ConsumerLoop.Trim | src/subscriber/consumer.ts:751-754 | the trim removes a prefix older than the cutoff, as one step of the model |
| RawStreamLoop.ConsumerLoop.CheckLoss | src/subscriber/consumer.ts:762-776 | the check is the model's step once the cursor has left its start, and nothing before |
| RawStreamLoop.ConsumerLoop.ReadRawMessages | src/redis/ioredis-store.ts:128-140 | the oldest entries newer than the cursor, at most count |
| RawStreamLoop.ConsumerLoop.ReadBatch | src/subscriber/consumer.ts:791-824 | reading, moving the cursor and dispatching without waiting is one step of the model |
| RawStreamLoop.ConsumerLoop.Settled | src/subscriber/consumer.ts:822-824 | a settled batch leaves the in-flight count |
| HashFile.TopicDirIsTheRest | src/downloader/hash.ts:170-172 | the topic directory is what follows the first three levels |
| HashFile.SuffixInjective | src/downloader/hash.ts:187-191 | in one millisecond two names never get the same time-stamped name |
| HashFile.SuffixKeepsExtension | src/downloader/hash.ts:187-191 | the time-stamped name differs and keeps stem and extension |
| HashFile.RenameIntoDir | src/downloader/hash.ts:204-221 | the file moves with its bytes to its own name if free, else to the time-stamped one, else it is removed and the call fails; a throw changes nothing |
| HashFile.HandleRename | src/downloader/hash.ts:223-260 | date, then topic, then S3, then nothing: each branch's whole effect on files and bucket |
| HashFile.DestinationIs | src/downloader/hash.ts:187-246 | where a file goes: by date before topic, in its own directory, under its name or `stem_ms.ext` |
| HashFile.RunHash | src/downloader/hash.ts:288-326 | no other file is touched; at most one new path, with the input's bytes; HASH_OK means trusted content, which without S3 is at the returned uri under the name free at the time, with S3 alone is uploaded under it, and with S3 and a directory is moved and not uploaded, the uri being its bare name; FAIL, mismatch and unsupported method are told apart with what they leave; exceptions change nothing |
| HashFile.WorkersApartIff | src/downloader/hash.ts:262-278 | with one base and one path two workers announce different addresses exactly without S3 |
| Aria2Rpc.CorrelatedKept | src/downloader/aria2.ts:193-285 | every call, message, timeout, close and stop keeps ids and promises correlated and settled promises final |
| Aria2Rpc.CorrelationRun | src/downloader/aria2.ts:193-285 | the same over any run, with ids never reused and results only from messages carrying the id |
| Aria2Rpc.OutcomesAreCaused | src/downloader/aria2.ts:193-285 | over any run every outcome has its cause in the run: a result a frame with its id and no error, a remote error a frame with its id and that error, a timeout its own timer, and so on |
| Aria2Rpc.DisjointIff | src/downloader/aria2.ts:270-285 | issued ids are pending or settled, and never both exactly when no pending one had a throwing send |
| Aria2Rpc.NothingPendingAfterClose | src/downloader/aria2.ts:193-231 | after a close or stop every request ever made has settled |
| Aria2Rpc.ThrownStaysPending | src/downloader/aria2.ts:277-284 | the overlap of pending and settled does occur |
| Aria2Rpc.RejectEach | src/downloader/aria2.ts:225-229 | the loop rejects exactly the unsettled pending promises and stops exactly their timers |
| Aria2Rpc.Aria2Client.FailAllPending | src/downloader/aria2.ts:225-231 | afterwards nothing is pending and no request timer runs |
| Aria2Rpc.Aria2Client.HandleMessage | src/downloader/aria2.ts:233-268 | notifications and unknown ids settle nothing; a known id settles its own request and no other, with the frame's error if it has one and else as resolved, and its timer stops |
| Aria2Rpc.Aria2Client.OnTimeout | src/downloader/aria2.ts:278-281 | a timer settles its own request only |
| Aria2Rpc.Aria2Client.Call | src/downloader/aria2.ts:270-285 | without an open socket nothing is issued; otherwise a fresh id becomes pending |
| Aria2Rpc.Aria2Client.StopClient | src/downloader/aria2.ts:193-203 | stopping leaves no socket, timer or pending request |
| DownloadStart.MintedPasses | src/downloader/ack.ts:22 | every minted id, fresh or for a retry, passes the registration check |
| DownloadStart.LooksRegisteredIff | src/downloader/ack.ts:22 | exactly three or four numbers joined by dashes pass |
| DownloadStart.FilenamesDiffer | src/downloader/aria-start.ts:89-111 | attempts for different queue entries never share an aria2 file name |
| DownloadStart.RegisteredIsAcked | src/downloader/aria-start.ts:114-139 | a registered and promoted record passes the check and gives all six fields of the entry back |
| DownloadStart.StartAck | src/downloader/ack.ts:87-159 | the first of at most three reads that passes is used; the clean-ups issued; nothing is done when none passes |
| DownloadStart.InFlightCounter.Gate | src/downloader/consumer.ts:273-275 | the gate opens exactly with entries queued and a count below the limit |
| DownloadStart.InFlightCounter.Add | src/downloader/consumer.ts:277-279 | the count stays below the limit plus one batch |
| DownloadStart.InFlightCounter.Release | src/downloader/consumer.ts:51-53 | one less, never below zero |
| TopicMatch.MatchesTopicPattern | src/wis2/topic-match.ts:20-33 | the index loop computes the level-by-level definition |
| TopicMatch.MatchIsFit | src/wis2/topic-match.ts:15-33 | a match means: levels before the first `#` fit one by one, and there are no others without `#` |
| TopicMatch.HashMatchesParent | src/wis2/topic-match.ts:24-28 | `#` matches the parent level and everything below |
| TopicMatch.StripOfWrap | src/wis2/topic-match.ts:40-43 | stripping undoes the replay wrapper |
| TopicMatch.ExcludedIff | src/wis2/topic-match.ts:47-49 | a topic is excluded exactly when the levels of some listed pattern fit it |
| TopicMatch.StripIs | src/wis2/topic-match.ts:40-43 | a topic that is no replay stays as it is; of any replay the first five levels go |
| TopicMatch.ReplayedExclusion | src/wis2/topic-match.ts:47-49 | a replayed topic is excluded exactly when the live one is |
| TopicMatch.StrippedOnceIff | src/wis2/topic-match.ts:40-43 | a replayed message is treated as its inner topic would be exactly when that is not a replay itself |
| Ingest.CacheIsTransparent | src/subscriber/ingest.ts:277-440 | stream and claimed ids are those of handlers without the last-payload cache, for any arrivals on any connections |
| Ingest.IdsOnceRun | src/subscriber/ingest.ts:396-434 | each id is appended at most once, and every claimed id is in the stream |
| Ingest.AppendedExactlyOnce | src/subscriber/ingest.ts:357-434 | every well-formed, not excluded message has its id in the stream exactly once |
| IngestHandlers.IngestHandler.OnMessage | src/subscriber/ingest.ts:304-440 | which outcome a message has, in order: repeated payload, some pattern fitting its stripped levels, no id, known id; what that does to cache, ids and stream; and exactly one counter more |
| IngestHandlers.BalancedKept | src/subscriber/ingest.ts:355-434 | each step of overlapping handlers keeps the counters balanced |
| IngestHandlers.AppendedOnceKept | src/subscriber/ingest.ts:421-434 | each step of overlapping handlers keeps ids unique in the stream |
| IngestHandlers.OverlappingHandlers | src/subscriber/ingest.ts:304-440 | overlapping runs and store failures: received is the sum of outcomes, open runs and failures, and no id is appended twice |
| IngestHandlers.ClaimedIds | src/subscriber/ingest.ts:304-440 | over overlapping runs with failures, once all are over: the claimed ids and those with a failing claim are the announced ones, and the stream holds the claimed ids less those whose append failed |
| IngestHandlers.FailedClaimIsRemembered | src/subscriber/ingest.ts:304-440 | after a failing claim the same payload on the same connection is dropped, where a handler without cache would claim it |
| Lineage.ListingIrrelevant | src/subscriber/lineage.ts:102-113 | the decision does not depend on the order of the recorded pubtimes |
| Lineage.SameAsReference | src/subscriber/lineage.ts:102-113 | decisions equal a reference that keeps only the latest accepted pubtime |
| Lineage.AcceptedStrictlyIncreases | src/subscriber/consumer.ts:281-306 | accepted pubtimes strictly increase, each after the first carries a link with rel `update`, and the history is exactly the accepted ones |
| Lineage.HistoriesAreSeparate | src/subscriber/lineage.ts:74-82 | decisions for one key depend on the messages with that key alone |
| Lineage.AcceptedNewerThanRecordedBeforeRead | src/subscriber/consumer.ts:281-306 | with interleaved reads and records, an accepted message is newer than all that was recorded before its read |
| Lineage.OverlappingIncreaseIff | src/subscriber/consumer.ts:281-306 | over any interleaving from an empty history, accepted pubtimes strictly increase in the order recorded exactly when no accepted message was overtaken, between its read and its record, by one that is not older |
| Lineage.OverlapAcceptsTwice | src/subscriber/consumer.ts:281-306 | the case that `Lineage.OverlappingIncreaseIff` excludes does occur: two overlapping checks accept one pubtime |
| Lineage.HistoriesCollideIff | src/wis2/redis-keys.ts:26-42 | an origin's key can equal a global cache's exactly for `gc` and `gc:...` |
| Lineage.OriginKeysDiffer | src/wis2/redis-keys.ts:26-27 | colon-free origins never share a history |
| EvictionSchedule.DecideSchedule | src/cleaner/schedule.ts:70-94 | the fill loop and guards compute score and member of the specification |
| EvictionSchedule.WorkerOfItsChannel | src/cleaner/schedule.ts:87-88 | the worker is read back from its report channel |
| EvictionSchedule.CompletionIsScheduled | src/cleaner/schedule.ts:70-94 | the report of a completion schedules the path its record lists, whoever wrote it, for the worker that published it, keep seconds later; nothing without path or retention |
| EvictionSchedule.FailedFields | src/downloader/error-retry.ts:54-61 | the fields of a failure report |
| EvictionSchedule.FailureIsTold | src/downloader/error-retry.ts:54-61 | a failure report read as a record: id, reason and time, those six fields that the job has with their values, and nothing else |
| EvictionSchedule.FailureNeverScheduled | src/downloader/error-retry.ts:48-61 | a failure report never schedules an eviction, whatever the record holds |
| EvictionSweep.MemberRoundTripIff | src/cleaner/sweep.ts:39-43 | a member reads back as worker and path exactly when the worker's name has no bar |
| EvictionSweep.PlanSweepJob | src/cleaner/sweep.ts:60-69 | one command per well-formed member in order; every member is removed |
| EvictionSweep.PunctualKept | src/cleaner/run.ts:145-164 | each step keeps commands at or after a time their member was scheduled for |
| EvictionSweep.PaidKept | src/cleaner/run.ts:145-164 | each step keeps the departures of an entry covered by the commands for that entry |
| EvictionSweep.NoSilentDeparture | src/cleaner/run.ts:145-164 | over any run of any sweepers with failures: an entry leaves as it was read at most as often as commands were issued for it, and no command comes before its entry's time |
| EvictionSweep.SweepTakes | src/cleaner/run.ts:145-164 | a sweep that comes to its end takes out every member it read, renewed or not, and no other |
| EvictionSweep.LeavesAsReadIff | src/cleaner/run.ts:145-164 | a member taken out by a sweep leaves as it was read exactly unless it was given another score since |
| EvictionSweep.CleanerStore.DueSweepMembers | src/redis/ioredis-cleaner-store.ts:18-21 | exactly the due members, each once |
| EvictionSweep.CleanerStore.SweepJob | src/cleaner/run.ts:149-161 | success removes exactly the due members and issues exactly their commands; failure removes none |
| WorkerCommands.ProcessEntry | src/downloader/cleaner-ipc.ts:48-79 | the nested scan honours the first action of an entry and its field |
| WorkerCommands.ProcessCleanerCommands | src/downloader/cleaner-ipc.ts:46-81 | the effects of a batch, in order |
| WorkerCommands.CancelReachesWorker | src/cleaner/sweep.ts:39-69 | the sweep of downloads to cancel: the worker named in a member cancels exactly the download named there |
| WorkerCommands.CommandStream.PollCleanerCommands | src/downloader/cleaner-ipc.ts:84-91 | a batch whose cancel throws moves nothing; when the trim throws the batch was carried out and stays to be carried out again; otherwise the cursor passes it. Nothing is ever trimmed that was not carried out |
| EvictionOwner.LastCompletionIsRecorded | src/downloader/lua.ts:37 | after any writes by anybody the time, address and path in the record are together those of the last completion that changed it |
| EvictionOwner.LastCompletionIsScheduled | src/downloader/finishing.ts:79-184 | after any writes by anybody the path scheduled is that of the last completion that changed the record |
| EvictionOwner.OwnPathIff | src/downloader/finishing.ts:79-184 | a worker's report schedules its own download's path exactly if the last completion that changed the record between script and read had that path, or there was none and the href was not complete before or the path was there already |
| EvictionOwner.OwnPathUndisturbedIff | src/downloader/lua.ts:37 | with nothing written in between: exactly if the href was not complete yet or the recorded path is the same |
| EvictionOwner.SecondReportsFirst | src/downloader/lua.ts:37 | two workers complete one href: the second's report schedules the first's path, on the second worker, and not its own |
| EvictionOwner.OvertakenReportsOther | src/downloader/finishing.ts:79-184 | another href completes before the record is read for the report: the report schedules the other's path |
| EvictionOwner.OneJobReportsOwn | src/downloader/finishing.ts:79-184 | in every run of the job protocol with a single queued job, after every completion the record lists that completion's path from then on |
| EvictionOwner.AloneReportsOwn | src/downloader/finishing.ts:79-184 | so in every run in which no candidate wins while an earlier winner is at work, each completion is scheduled with its own path on its own worker, whatever happens before the report while the record lasts |
| WorkerCommands.EvictionOverRuns | src/cleaner/run.ts:145-164 | over any run of schedules, sweeps and failures, from whatever reports of completions and failures: each command unlinks, on the worker that reported, the path that the report listed, which is its own exactly under the condition of `EvictionOwner.OwnPathIff`; not before keep seconds; and no entry leaves as it was read without its command |
| Election.ParseElectionHash | src/election/elect.ts:33-45 | the loop groups the flat array by worker |
| Election.ParsedIsTheHash | src/election/elect.ts:33-45 | a worker has a parsed field exactly when the hash has that key with that value |
| Election.HeartbeatRoundTrip | src/election/elect.ts:124-151 | parsing undoes building, for worker names with colons too |
| Election.HeartbeatCounts | src/election/elect.ts:56-151 | a worker's own heartbeat makes it a candidate exactly for the roles it has, less than 8000 ms after it was sent, with a uuid; it is old by exactly the time passed |
| Election.DecideElection | src/election/elect.ts:56-65 | primary exactly for the smallest uuid of the live holders, in whatever order they are enumerated |
| ElectionRuns.ExactlyOnePrimary | src/election/elect.ts:56-65 | with distinct uuids exactly one live holder is primary |
| ElectionRuns.OvertakenOnlyWhenOld | src/election/elect.ts:56-65 | a smaller uuid loses only with a heartbeat at least 8000 ms old |
| ElectionRuns.ReapedIsNotPrimary | src/election/elect.ts:72-80 | a worker being reaped is never primary |
| ElectionRuns.ListingIrrelevant | src/election/elect.ts:33-65 | two listings of one hash elect alike |
| ElectionRuns.FindStaleFields | src/election/elect.ts:72-80 | exactly the keys of the workers whose last heartbeat is at least 60000 ms old |
| ElectionRuns.AllOrNoneKept | src/election/elector.ts:32-47 | each heartbeat, poll and reaping keeps workers whole |
| ElectionRuns.NineFieldsOrNone | src/election/elector.ts:32-47 | in every reachable state a worker has all nine fields or none, however stale the snapshots reaped from |
| ElectionRuns.HeartbeatWritesNine | src/election/elect.ts:124-151 | a heartbeat writes exactly those nine fields |
| Metrics.ComboKeyRoundTrip | src/reporter/metrics.ts:48-51 | a combination key reads back as centre and subtopic, colons in the subtopic included |
| Metrics.ComboOps | src/reporter/metrics.ts:47-59 | one increment per combination with its centre, topic and count |
| Metrics.PerCentre | src/reporter/metrics.ts:72-82 | the map loop holds exactly each centre's total and latest timestamp |
| Metrics.CentreOps | src/reporter/metrics.ts:72-90 | each centre once with total and maximum, no other, and the totals add up to the combinations' |
| Metrics.LatestIs | src/reporter/metrics.ts:72-82 | the latest timestamp of a centre is none earlier than any of its own and one of them |
| StatsWindow.WindowKeysIff | src/reporter/window.ts:16-28 | two dates share a key exactly when they show the same local half minute |
| StatsWindow.WindowNumber | src/reporter/window.ts:16-28 | the digits of a key, as one number, are year, month, day, hour, minute and 0 or 30 in their places |
| StatsWindow.ComboOfWindow | src/wis2/redis-keys.ts:140-146 | keys of any window read back as centre and subtopic or source |
| StatsWindow.WaitEndsAtBoundary | src/reporter/window.ts:31-35 | the wait is positive, at most 30 s, and ends at the next boundary |
| StatsWindow.WindowsIncrease | src/reporter/run.ts:208-218 | with timers never early, aggregated windows strictly increase |
| StatsWindow.NoneSkippedIff | src/reporter/run.ts:208-218 | no window is skipped exactly when the next timer fires within its window |
| StatsWindow.RunHashStatLoop | src/reporter/run.ts:208-218 | the loop aggregates strictly increasing windows |

## Left out

- CompareTotal: parts that are not plain digits are read as 0 on both sides, where `Number` reads hexadecimal, exponents and fractions as numbers.
- DispatchPublishOnly: without the publications and the monitoring event between counter and release, which feed nothing back.
- RunFinishing: without the republication to the cache topic and the granule info, which feed nothing back.
- Time to live: EXPIRE records its seconds but no clock runs; claim, marker, complete key and hash may expire at any time, other keys never; the status theorems are about runs in which the hash does not expire.
- Freshness of hrefs: the status theorems take from the protocol that no two candidates announce one href and that addresses begin with `http`; `HrefStatus.KeepsCompleteIff` says what a violation does.
- The wall-clock throttle of the raw-stream health check and its length log lines: a trim or a loss check may happen at any time.
- Stream trimming with `~`: a trim removes any prefix of the entries it may remove.
- Numbers: JavaScript integers above 2^53; `Number` and `parseFloat` on anything but plain digits (hexadecimal, exponents, fractions); these never occur in values the program writes.
- Regular expressions: FIRST_REGEX is given as three or four runs of digits joined by dashes.
- Object keys such as `__proto__` as worker or field names.
- Overlapping acknowledgements of one gid, several `runHash` calls on one file at a time, and other processes changing the file system between a check and a rename.
- The 30 s delay before a retry decision and the delays of retries are durations in the budget theorem only; timers other than the statistics clock are steps at any time.
- `delayOps`, `volumeOps` and `sourceOps` of aggregateMetrics: rounding of averages, and two more loops of the same kind.
- computeCleaningNeeded, buildPublishOnlyMessages, the embedded-content fast path: guards and text building.
- processQueueEntry, runCompletion and handleAriaNotification: routing between the modelled steps.
- Random delays and claim probabilities, configuration, admin routes, logging, garbage collection of old keys.
- Exactly how many entries the stream's cap evicts: any prefix may go at any append.
