# ProofRail service: verification model

A Dafny 4.11 model of the parts of the ProofRail screening service whose correctness spans several calls: the leased job
queue with its webhook deliveries and scheduled refreshes, the token-bucket limiter, name screening, the evidence store
with its canonical JSON, the case history chain, case pagination, idempotency records, usage metering and the ingest
cache. `dafny verify dfyconfig.toml` checks everything.

How it is laid out:

- `Tables`, `Database`, `Webhooks`, `Api`, `Worker` are the queue. `Database.ProofRailDb` is the database object, one
  method for each transaction, each proved against a function on table values in `Tables`; `Worker.ProcessOnce` and the
  `Api` methods are the loops of `process_once` and the handlers. `JobEffects` and `Emission` say column by column, without
  those functions, what one job and one handler leave. `Protocol` is the same worker cut into single transactions and
  sends, interleaved with API steps, other claims being excluded; `Worker.TickIsRun`, `Emission.EmitIsRun` and
  `Emission.QueueAllIsRun` show that uninterrupted `process_once`, `_emit_webhooks` and `admin_run_webhook_deliveries` are
  among its runs. `DeliveryAccounting`, `DeliveryResults`, `RefreshSchedule`, `RefreshInterval` and `Drain` hold what every
  run guarantees; `Leases` is the many-worker property and has its own, freer machine.
- `RateLimit` is the limiter as classes over a map and an order, `RateLimitRuns` what whole call traces guarantee, and
  `RateLimitWindows` exactly which calls are admitted.
- `Names` and `Screening` are normalisation and the screening decision. A screening method visits each name set in an
  arbitrary order; its specification does not mention the order, and is proved to have one outcome.
- `JsonText`, `JsonRoundTrip`, `CanonicalJson` are `json.dumps` with sorted keys and the parser of that text (string
  escapes as in section 7 of RFC 8259), `JsonLayout` the text written out. `Evidence` is the store, `PackEntries` what the
  entries of a pack decide, `EvidenceGuarantees` its runs; `HashChain` and `CaseChain` are the event chain and signed
  bundles; `Idempotency` the records keyed by `Idempotency-Key`.
- `Cases` is the case table, `Keyset` walks over its pages by position, and `Pagination` the walk of a client that
  follows cursor texts.
- `Usage` and `IngestionCache` are the usage flusher and the singleflight cache.
- `Timestamps` justifies that queue instants are whole seconds: on the four-digit years, comparing the stored texts is
  comparing instants (section 5.1 of RFC 3339).
- `Options`, `Text`, `Decimal`, `Rounding`, `Selection` are shared: results, code-point order and sorting, decimal text,
  round-half-even, and `ORDER BY key LIMIT n`.

What comes from outside is a parameter: every clock reading, whether a send, an ingest or an insert succeeds, SHA-256 and
HMAC (uninterpreted functions), `str.upper` beyond ASCII, `json.loads` of files the store did not write. Statements about
digests never assume that there are no collisions: they hand over the two colliding texts.

Where the code falls short of what its comments or API suggest, the model keeps the code and proves when it is right:

- A schedule posted while the worker holds an older refresh of the same key is replaced by the older interval, and a stop
  posted then does not hold. `RefreshSchedule.ScheduleSurvivesIff` and `StopHoldsIff` give the exact conditions,
  `RescheduleLost` a concrete run.
- The worker deletes a key's pending refreshes and enqueues its own in two transactions. A crash or an enqueue error in
  between ends the schedule (`BrokenIff`, `CrashLosesSchedule`), a request for the key in between leaves two pending
  refreshes (`DoubledIff`), and so can a failed delete, whose error the worker swallows (`SwallowedDeleteIff`).
- A caller who may write cases but not read evidence gets a 403 from the case-event route after the event was written and
  before anything was recorded, so each retry with the same Idempotency-Key writes it again: `Idempotency.RetryIff`,
  `CaseEventRepeats`.
- A call of `IngestionCache.get_or_refresh` that joins while its key is being refreshed waits, wakes after the refresh and
  then calls `self.get` while holding the non-reentrant lock, which is never released. `IngestionCache.JoinBlocksIff`
  gives the exact condition, `BlockReachable` a run.
- The blob count of a dry run of the garbage collection can be too low; `EvidenceGuarantees.DryRunUndercounts` says when,
  `DryRunMisses` shows one such store.
- `put_blob` does not renew the age of an existing file and `put_pack` does not look for the blobs it cites, so a
  collection in between leaves a pack without its blob; `EvidenceGuarantees.PutPackClosedIff` and `RunKeepsClosed` give
  the exact condition, `CollectedBeforePack` a run.
- A case history is listed up to its limit, earliest first, so once the listing is full the chain head no longer covers
  new events; `CaseChain.RecordingExtends`, `EventAfter500NotCovered`.

The chain function alone would not audit a link of an event without its time, actor or type (`HashChain.ChainAudits`,
`CaseChain.TimelessEventBreaksAudit`); the rows it is given always have them (`CaseChain.ListedEventsAudit`).

## Model

| member | source | states |
|---|---|---|
| `Timestamps.TextOrderIsTimeOrder` | ProofRail/service/utils.py:6-7 | for all dates of years 1 to 9999, leap years included, one timestamp text is below another exactly when its instant is earlier, and equal exactly when the instants are |
| `Timestamps.InstantClosedForm` | ProofRail/service/utils.py:6-7 | the instant of a date is the closed form of the Gregorian calendar, leap years and month lengths written out |
| `Timestamps.FormatLayout` | ProofRail/service/utils.py:6-7 | the text is YYYY-MM-DDTHH:MM:SSZ, each field zero-padded at its place |
| `Timestamps.CivilOf` | ProofRail/service/utils.py:6-7 | every instant of those years is the reading of a valid calendar date |
| `Timestamps.TimestampsAreInstants` | ProofRail/service/utils.py:6-7 | and of only one, so whole-second integers can stand for the stored texts |
| `Selection.OrderByLimit` | ProofRail/service/db.py:806-821 | the ORDER BY ... LIMIT selection returns distinct qualifying rows in key order, as many as allowed, and none left out has a smaller key |
| `Text.LessIff` | ProofRail/service/db.py:806-821 | one text is below another exactly when it ends first or has the smaller code point at the first difference |
| `Decimal.IntTextIs` | ProofRail/service/app.py:97-106 | the key of a delivery job is the id in base ten without leading zeros |
| `Database.ProofRailDb.EnqueueJob` | ProofRail/service/db.py:795-804 | inserts one queued row under a fresh id, each column as given, no attempts and no lease |
| `Database.ProofRailDb.ClaimDueJobs` | ProofRail/service/db.py:806-835 | every claimed row was queued or retry, its run_at had come and no lease on it still ran; rows come in run_at order and as they were selected; a row that qualifies is left out only by a claim of max(1, min(limit, 500)) rows no later than it; exactly the claimed rows are locked |
| `Database.ClaimsIff` | ProofRail/service/db.py:806-835 | a list of ids may be selected exactly when it has those properties, told by the columns alone |
| `Database.ProofRailDb.DeletePendingJobs` | ProofRail/service/db.py:837-843 | a pass over the rows, in any order, removes exactly the queued and retry rows of the type and key and returns how many |
| `Database.PendingDeleted` | ProofRail/service/db.py:837-843 | what is left are exactly the rows that are not queued or retry under the type and key, leased ones being removed too, each unchanged, and no other table meets that |
| `Database.ProofRailDb.ReleaseExpiredJobLeases` | ProofRail/service/db.py:885-892 | a pass over the rows, in any order, clears exactly the leases of queued and retry rows that ended before now |
| `Database.LeasesReleased` | ProofRail/service/db.py:885-892 | every row stays, exactly the pending ones whose lease ended before now lose it, and no other table meets that |
| `Database.ProofRailDb.DeleteJobsBefore` | ProofRail/service/db.py:924-933 | a pass over the rows, in any order, removes exactly the rows last updated before the cutoff in one of the statuses |
| `Database.OldDeleted` | ProofRail/service/db.py:924-933 | what is left are exactly the rows updated since the cutoff or in another status, each unchanged, and no other table meets that |
| `Database.ProofRailDb.MarkJob` | ProofRail/service/db.py:972-991 | the three unconditional updates by id, column by column, nothing for an unknown id |
| `Database.ProofRailDb.EnqueueWebhookDelivery` | ProofRail/service/db.py:656-672 | inserts one queued delivery, due at once, under a fresh id, each argument in its column |
| `Database.ProofRailDb.ListDueWebhookDeliveries` | ProofRail/service/db.py:674-695 | returns pending deliveries that are due, in order of next_attempt_at; one that qualifies is left out only by a full listing of others no later than it |
| `Database.ListsDueIff` | ProofRail/service/db.py:674-695 | a list may be returned exactly when it has those properties, told by the columns alone |
| `Database.ProofRailDb.MarkWebhookDelivery` | ProofRail/service/db.py:718-756 | the three unconditional updates by id, column by column; only a retry counts an attempt |
| `Webhooks.DelayIsFloor` | ProofRail/service/webhooks.py:166-170 | the stored delay is the floor of base times 2^min(i, 16), at most one second more from microsecond rounding, the power being defined apart from the code's factor |
| `Webhooks.FactorDoubles` | ProofRail/service/webhooks.py:166-170 | the factor is 1 up to the first retry, doubles from each count to the next below 16, and is 65536 from 16 on |
| `Webhooks.WholeDelay` | ProofRail/service/webhooks.py:166-170 | a base of whole seconds is multiplied exactly |
| `Webhooks.DelayDoubles` | ProofRail/service/webhooks.py:166-170 | below the clamp the delay doubles from one failure to the next, up to the cut to whole seconds |
| `Api.EmitWebhooks` | ProofRail/service/app.py:77-106 | from any reachable table the loop leaves exactly one new delivery and one new job for each active subscription that wants the event, told column by column, and nothing else changed |
| `Emission.EmitExact` | ProofRail/service/app.py:77-106 | one delivery, in order and under consecutive new ids, and one new job under its id for each active subscription that wants the event, none for the others; every other delivery and every job of another delivery as it was |
| `Emission.EmissionTold` | ProofRail/service/app.py:77-106 | the same by the columns alone: which subscriptions are chosen, each column of the new delivery and job rows, which pending jobs give way |
| `Emission.EmitIsRun` | ProofRail/service/app.py:77-106 | the emission is a run of single inserts, deletes and enqueues of the protocol |
| `Api.AdminRunWebhookDeliveries` | ProofRail/service/app.py:114-141 | selects the earliest due deliveries up to the limit, leaves from any reachable table exactly one new job for each, told column by column, in place of its pending ones, and reports how many |
| `Emission.QueueAllExact` | ProofRail/service/app.py:114-141 | re-queueing replaces the pending jobs of exactly those deliveries by one new job each, due at once, and changes nothing else |
| `Emission.OnePendingEach` | ProofRail/service/app.py:97-106 | afterwards the only pending job of each delivery is its new one |
| `Emission.QueueAllIsRun` | ProofRail/service/app.py:114-141 | the admin run is a run of single deletes and enqueues of the protocol |
| `Api.RefreshIngest` | ProofRail/service/app.py:491-508 | the queued and retry refreshes of the customer's key, or of __global__ without one, give way to one row without an interval, due at once |
| `Api.ScheduleRefresh` | ProofRail/service/app.py:510-535 | the same with the interval, or refuses without any change |
| `Api.StopSchedule` | ProofRail/service/app.py:537-550 | deletes exactly the queued and retry refreshes of the key, or refuses without any change |
| `Worker.ProcessDelivery` | ProofRail/service/worker.py:225-280 | which result of the send leads to which row: delivered exactly on success, failed exactly when this was the last allowed attempt, else a retry one attempt on with the code and error reported; no send for a settled row or one not due, none without an active subscription; the job is done, or put off to when the delivery is due |
| `Worker.ProcessOne` | ProofRail/service/worker.py:146-280 | every branch of one claimed job computes the job function, and that is told by the columns |
| `JobEffects.JobExact` | ProofRail/service/worker.py:146-280 | every kind of job told by the columns alone, without the functions that compute it |
| `JobEffects.DeliveryJobExact` | ProofRail/service/worker.py:225-280 | a delivery job: its result decides the row of its delivery, no other row of either table changes but the job's own |
| `JobEffects.RefreshJobExact` | ProofRail/service/worker.py:154-213 | a refresh job: a failed one waits a minute; one with an interval replaces its key's queued and retry refreshes by one due an interval after it ended; caught database errors included |
| `Worker.ProcessOnce` | ProofRail/service/worker.py:131-283 | release, claim of up to 100, all jobs in claim order, and job collection compute the tick function on the tables |
| `Worker.TickIsRun` | ProofRail/service/worker.py:131-280 | that function is reached by a run of the interleaved protocol, so every theorem about runs covers process_once |
| `DeliveryAccounting.StepKeeps` | ProofRail/service/worker.py:131-280 | every worker or API step keeps accounting, timing and the log of sends consistent |
| `DeliveryAccounting.AttemptAccounting` | ProofRail/service/worker.py:225-280 | in every run, sends of a delivery equal attempt_count while pending or failed for a missing subscription and attempt_count + 1 otherwise, plus sends in flight or lost in a crash |
| `DeliveryAccounting.SendsBounded` | ProofRail/service/worker.py:262-267 | in every run no delivery, deleted ones included, is sent more than max_attempts times beyond sends lost in crashes |
| `DeliveryAccounting.RetryTiming` | ProofRail/service/worker.py:269-279 | in every run a delivery waiting for a retry is due base times 2^min(i, 16) seconds after its last attempt, cut to whole seconds, at most one more, exactly that on a whole base |
| `DeliveryAccounting.BackoffOverRuns` | ProofRail/service/worker.py:229-280 | without a crash between send and mark, the n-th send comes no earlier than creation plus the sum of the first n - 1 delays |
| `DeliveryAccounting.StepAbsorbs` | ProofRail/service/worker.py:225-280 | no step changes a delivered or failed row, it can only be deleted with its subscription |
| `DeliveryAccounting.Absorption` | ProofRail/service/worker.py:225-280 | in every run a delivered or failed delivery keeps its row to the end or is deleted and never returns |
| `DeliveryAccounting.UnsubscribeIs` | ProofRail/service/db.py:643-655 | deleting a subscription takes exactly the customer's deliveries of it, and it, if it is the customer's |
| `DeliveryResults.RowsTold` | ProofRail/service/worker.py:225-280 | in every run a delivery is delivered exactly when one of its marked sends succeeded; a retry, or one given up for its attempts, had every marked send fail and carries the code and error of the last |
| `DeliveryResults.SuccessIsFinal` | ProofRail/service/worker.py:225-280 | in every run nothing of a delivery is sent after a success that was marked |
| `Drain.WholeBatch` | ProofRail/service/worker.py:146-280 | whatever else is in a batch, a due delivery with a job in it gets a send and nothing else touches its row |
| `Drain.OneRound` | ProofRail/service/app.py:114-141 | one admin run followed by a tick advances a due delivery, limits not being reached and the subscription being active |
| `Drain.DrainBound` | ProofRail/service/app.py:114-141 | max_attempts - attempt_count such rounds, at least one, leave it delivered or failed |
| `Leases.LeaseExclusivity` | ProofRail/service/db.py:806-835 | for any number of workers and any mix of claims, releases, marks, enqueues, deletes and collections, a claim finds every earlier lease on its jobs expired, and no two leases on one job run at once |
| `RefreshInterval.ClaimedWereDue` | ProofRail/service/db.py:806-835 | in every state no job enters a batch before its run_at |
| `RefreshInterval.RefreshesApart` | ProofRail/service/worker.py:154-199 | after a refresh with interval n that ended at clock and cleared its key, the key is claimed again no earlier than clock + n unless it is requested, whatever crashes and errors come in between |
| `RefreshSchedule.AtMostOnePendingRefresh` | ProofRail/service/worker.py:178-199 | in every run, crashes and errors included, no key has two queued or retry refreshes, unless a request for it fell between the worker's delete and enqueue or that delete failed |
| `RefreshSchedule.DoubledIff` | ProofRail/service/worker.py:186-199 | a request may end in two pending refreshes of its key exactly when it arrives between the worker's delete and enqueue for that key |
| `RefreshSchedule.SwallowedDeleteIff` | ProofRail/service/worker.py:187-199 | after a failed delete the enqueue makes two exactly when one was pending |
| `RefreshSchedule.CalmRunKeeps` | ProofRail/service/worker.py:154-213 | successes, failures, replacements in flight, errors in their deletes, job collection and crashes elsewhere keep every pending refresh of the key on the interval, and one there or about to be enqueued |
| `RefreshSchedule.ScheduleSurvivesIff` | ProofRail/service/app.py:510-535 | after schedule_refresh the interval survives every continuation without stop, manual refresh or other schedule, and without crash or enqueue error between the worker's delete and enqueue for the key, failed deletes being allowed, exactly when no claimed, unfinished refresh of the key carries another interval |
| `RefreshSchedule.BrokenIff` | ProofRail/service/worker.py:187-213 | a crash or a caught error ends a schedule at once exactly when it falls between that delete and enqueue with nothing scheduled since, and for good exactly when, besides, no other claimed refresh of the key is left to bring an interval back |
| `RefreshSchedule.StopHoldsIff` | ProofRail/service/app.py:537-543 | after stop_schedule no refresh of the key becomes pending without a new request exactly when no claimed, unfinished refresh of it carries an interval |
| `RefreshSchedule.ScheduledIsUnique` | ProofRail/service/app.py:510-535 | after schedule_refresh exactly one refresh of the key is pending, with the interval, or none while the worker is about to enqueue it with that interval, through every such continuation without a request for a key in that gap or a failed delete, exactly when no claimed, unfinished refresh carries another interval and the worker is not in the gap for the key |
| `RefreshSchedule.RescheduleLost` | ProofRail/service/worker.py:178-199 | a concrete run in which rescheduling from 10 to 20 seconds can be lost and a stop need not hold |
| `RefreshSchedule.CrashLosesSchedule` | ProofRail/service/worker.py:187-199 | a concrete run in which the process dies after the delete and the schedule is gone for good |
| `RateLimit.TokenBucket.Allow` | ProofRail/service/ratelimit.py:16-24 | allowed exactly when the cost is at most min(capacity, tokens + refill_per_s * max(0, elapsed)), which is what is left, less the cost paid |
| `RateLimit.RateLimiter.Allow` | ProofRail/service/ratelimit.py:37-53 | in-place buckets and eviction compute the decision function; popping an empty map raises |
| `RateLimitRuns.LruOrderIsLastUseOrder` | ProofRail/service/ratelimit.py:37-53 | the recency order lists every key used once, by increasing last use |
| `RateLimitRuns.OrderOfRun` | ProofRail/service/ratelimit.py:37-53 | after every trace the map's order is the last-use order cut to the newest max_buckets keys |
| `RateLimitRuns.BoundedRefinesUnbounded` | ProofRail/service/ratelimit.py:37-53 | at most max_buckets buckets ever; with fewer than max_buckets other keys between uses of each key every call is answered as without a bound |
| `RateLimitRuns.TokensInRange` | ProofRail/service/ratelimit.py:16-24 | under a clock that does not go back tokens stay between zero and capacity |
| `RateLimitRuns.WindowBound` | ProofRail/service/ratelimit.py:16-24 | cost admitted to a key from a call at s to one at t is at most capacity + refill_per_s * (t - s) while it is not evicted |
| `RateLimitWindows.AllowedIff` | ProofRail/service/ratelimit.py:16-53 | in every trace a call is admitted exactly when no window opened by a call of its key since the last eviction, itself included, has admitted cost that with its own exceeds capacity + refill_per_s * the time passed |
| `RateLimitWindows.FirstCallIff` | ProofRail/service/ratelimit.py:37-53 | a key's first call, or its first after an eviction, is admitted exactly when the capacity covers it |
| `RateLimitWindows.IdleRefills` | ProofRail/service/ratelimit.py:16-24 | after an idle time that gains the cost, any cost up to the capacity is admitted |
| `Names.NormaliseIsWords` | ProofRail/sanctions_determinism.py:46-48 | the substitutions and the strip yield the upper-cased ASCII alphanumeric runs joined by single spaces |
| `Names.SameNormalForm` | ProofRail/sanctions_determinism.py:46-48 | names normalise alike exactly when those runs are the same, and to nothing exactly when there is none |
| `Names.NormaliseIdempotent` | ProofRail/sanctions_determinism.py:46-48 | normalising twice is normalising once |
| `Names.NormalCharacters` | ProofRail/sanctions_determinism.py:46-48 | the normal form has A to Z, 0 to 9 and single inner spaces only and spells exactly the letters and digits of the upper-cased name |
| `Names.Separates` | ProofRail/sanctions_determinism.py:46-48 | any other ASCII character separates: its two sides are normalised on their own and joined by one space |
| `Names.HoldsTogether` | ProofRail/sanctions_determinism.py:46-48 | letters and digits alone are only upper-cased |
| `Names.NormalisedNameSet` | ProofRail/sanctions_determinism.py:51-57 | the nonempty normal forms of the names and nothing else |
| `Screening.BestMatch` | ProofRail/service/screening.py:80-87 | in whatever order sets are iterated, the greatest similarity and the first source in dict order that attains it |
| `Screening.MatchName` | ProofRail/service/screening.py:53-97 | exact hits sorted by source, else the fuzzy verdict of the best match |
| `Screening.ApplyAttributes` | ProofRail/service/screening.py:98-114 | the disambiguation table: decision, match type, score and reason codes in order |
| `Screening.SimilarityOne` | ProofRail/service/screening.py:60-66 | similarity is symmetric, 1 exactly for names with the same three-character windows, and 0 exactly when there are windows and none is shared |
| `Screening.SimilarityIs` | ProofRail/service/screening.py:56-66 | similarity times the number of windows of both names is the number of windows they share, a window being a three-character part of the name padded by one space on each side |
| `Screening.Deterministic` | ProofRail/service/screening.py:46-123 | one outcome for each name, sets and attributes |
| `Screening.SourceOrderIrrelevant` | ProofRail/service/screening.py:82-87 | re-ordering the sources changes at most which equally similar source a fuzzy hit names, and nothing on an exact match |
| `Screening.DecisionIff` | ProofRail/service/screening.py:73-114 | block exactly for a listed name without attributes, allow exactly when unlisted and no candidate shares 895 of 1000 windows, and the score of each case |
| `Screening.ListedTold` | ProofRail/service/screening.py:53-114 | a listed name: hits are exactly its sources in order, and every reason code and match type |
| `Screening.UnlistedTold` | ProofRail/service/screening.py:79-114 | an unlisted name: the score is the greatest similarity in hundredths, half to even, less five for each attribute held against a hit; the hit is the first source that attains it; every reason code and match type |
| `Screening.ListedNameCaught` | ProofRail/service/screening.py:53-114 | a normalised name in the set of a source makes that source a hit, with a block or, given attributes, a review |
| `Screening.NoListedNameSlips` | ProofRail/service/screening.py:53-114 | a subject whose runs are those of an ingested name is blocked, or reviewed when attributes are given, and its source is a hit |
| `Screening.Monotone` | ProofRail/service/screening.py:53-114 | larger name sets never weaken the decision |
| `JsonText.StringRoundTrip` | ProofRail/service/storage.py:15-18 | every string reads back from its escaped form |
| `JsonText.NumberRoundTrip` | ProofRail/service/storage.py:15-18 | every integer reads back from its decimal form |
| `JsonLayout.EscapesWrittenOut` | ProofRail/service/storage.py:15-18 | the escape of every character, the short ones, the four-digit ones below the space, and the characters that stand for themselves |
| `JsonLayout.ScalarsWrittenOut` | ProofRail/service/storage.py:15-18 | the literals and quoted strings |
| `JsonLayout.ArraysWrittenOut` | ProofRail/service/storage.py:15-18 | items between brackets, one comma and no space between two |
| `JsonLayout.DictsWrittenOut` | ProofRail/service/storage.py:15-18 | entries between braces, one comma between two, a colon behind the key |
| `JsonRoundTrip.ValueRoundTrip` | ProofRail/service/storage.py:15-18 | the parser reads exactly the printed value and stops where it ends |
| `CanonicalJson.SameTextIffEqual` | ProofRail/service/storage.py:15-18 | two values print alike exactly when they are equal, dicts compared as maps |
| `CanonicalJson.ParseCanonical` | ProofRail/service/storage.py:15-18 | parsing the print gives an equal value that prints the same |
| `CanonicalJson.KeyOrderIrrelevant` | ProofRail/service/storage.py:15-18 | the order in which a dict was filled does not show |
| `Evidence.EvidenceStore.PutBlob` | ProofRail/service/storage.py:44-49 | stores under the digest unless the name is taken |
| `Evidence.EvidenceStore.GetBlob` | ProofRail/service/storage.py:51-53 | the stored content, or a missing file |
| `EvidenceGuarantees.BlobRoundTrip` | ProofRail/service/storage.py:44-53 | after any run the data of a put blob reads back, or a text that collides with it, and its file is there throughout exactly when no collection finds it old and uncited |
| `Evidence.EvidenceStore.PutPack` | ProofRail/service/storage.py:71-77 | stores the canonical text under its digest unless the name is taken |
| `Evidence.EvidenceStore.GetPack` | ProofRail/service/storage.py:79-85 | missing file, integrity failure, undecodable text or the pack |
| `Evidence.EvidenceStore.DeletePacksBefore` | ProofRail/service/storage.py:94-124 | deletes exactly the intact, matching packs created before the cutoff; a dry run returns the same count and deletes none |
| `Evidence.EvidenceStore.ReferencedBlobDigests` | ProofRail/service/storage.py:126-151 | exactly the digests some intact pack cites |
| `Evidence.EvidenceStore.DeleteUnreferencedBlobs` | ProofRail/service/storage.py:153-177 | deletes exactly the old blobs not referenced, an empty supplied set counting as none; a dry run returns the same count and deletes none |
| `EvidenceGuarantees.AdminGc` | ProofRail/service/app.py:259-267 | both deletions in turn, dry or not |
| `PackEntries.ExpiredIff` | ProofRail/service/storage.py:94-124 | a pack file expires exactly when it is intact, of the customer if one is given, and its created_at entry reads as a time before the cutoff |
| `PackEntries.CitedIff` | ProofRail/service/storage.py:126-151 | the blobs an intact pack cites are exactly those its ingestion entry names, as the name sets or as the content of a source |
| `EvidenceGuarantees.CollectionExact` | ProofRail/service/storage.py:94-177 | what a collection keeps and deletes, and that no pack that stays loses a cited blob |
| `EvidenceGuarantees.RunKeepsClosed` | ProofRail/service/storage.py:27-177 | every run of writes and collections keeps files content-addressed, and keeps every cited blob present throughout exactly when each pack is written only while its blobs are there; collections never break it |
| `EvidenceGuarantees.PutPackClosedIff` | ProofRail/service/storage.py:71-77 | put_pack keeps the store closed exactly when the pack's blobs are there as it is written, or its name is taken by a colliding text |
| `EvidenceGuarantees.CollectedBeforePack` | ProofRail/service/storage.py:44-49 | a blob put, put again, collected for its first age, and then cited: the pack is written without its blob |
| `EvidenceGuarantees.DryRunUndercounts` | ProofRail/service/app.py:259-267 | a dry run reports no more blobs than the real one deletes, and as many exactly when no old blob is cited by expired packs alone |
| `EvidenceGuarantees.DryRunMisses` | ProofRail/service/app.py:259-267 | one old pack citing one old blob: none reported, one deleted |
| `EvidenceGuarantees.PackRoundTrip` | ProofRail/service/storage.py:71-85 | get_pack after put_pack returns an equal pack, reports a corrupted file under its name, or exhibits a collision |
| `EvidenceGuarantees.PackIdentity` | ProofRail/service/storage.py:71-77 | two packs share an identifier exactly when equal or colliding |
| `EvidenceGuarantees.ScreeningKeyIdentity` | ProofRail/service/screening.py:13-14 | two screenings share a cache key exactly for one list version and equal subjects, or when their texts collide |
| `CaseChain.BuildCaseEventChain` | ProofRail/service/app.py:1144-1170 | the loop emits every link with its previous hash and returns the head |
| `CaseChain.LinkTextInjective` | ProofRail/service/app.py:1150-1156 | what is hashed for a link determines the previous hash and the event |
| `CaseChain.LinkTextIs` | ProofRail/service/app.py:1150-1156 | the hashed text written out: the event's four entries in key order, missing ones null, then the previous hash |
| `CaseChain.CaseTamperEvidence` | ProofRail/service/app.py:1144-1170 | equal heads mean equal histories, or two different hashed texts with one digest, or a text hashing to the all-zero genesis, each found by walking back |
| `HashChain.TamperEvidence` | ProofRail/service/app.py:1144-1170 | the same for any injective link text |
| `HashChain.AppendExtends` | ProofRail/service/app.py:1144-1170 | more events extend the chain and change no earlier link |
| `HashChain.ChainAudits` | ProofRail/service/app.py:1157-1168 | the emitted fields alone recompute the chain exactly when every event has a time, actor and type, or those that lack one collide |
| `CaseChain.ListedEventsAudit` | ProofRail/service/db.py:533-550 | chains over listed rows always recompute from their emitted fields |
| `CaseChain.ListingIs` | ProofRail/service/db.py:533-550 | the listing shows rows of the case only, earliest first, up to max(1, min(limit, 500)), and a row it leaves out is no earlier than those it shows |
| `CaseChain.RecordingExtends` | ProofRail/service/db.py:533-550 | recording an event no earlier than the others extends the chain by one link, or leaves head and listing unchanged when the listing is full |
| `CaseChain.EventAfter500NotCovered` | ProofRail/service/app.py:1188-1189 | 500 events of one case and one more, whatever it says: the same chain head |
| `CaseChain.TimelessEventBreaksAudit` | ProofRail/service/app.py:1150-1168 | a link of an event without a time recomputes only if two different texts collide |
| `CaseChain.BundleSignature` | ProofRail/service/app.py:1205-1229 | a signature verifies exactly the bundles equal to the signed one or sharing its MAC, and the re-parsed bundle always |
| `Cases.CaseTable.UpsertCase` | ProofRail/service/db.py:358-385 | insert, or update of time, status, pack and a given assignee only, column by column |
| `Cases.CaseTable.ListCases` | ProofRail/service/db.py:406-516 | one page: rows the filter keeps beyond the cursor, newest first; one that qualifies is left out only by a page of max(1, min(limit, 200)) rows before it |
| `Cases.CaseTable.V2ListCases` | ProofRail/service/app.py:1231-1261 | the page at the position the cursor's halves around its first bar name, with updated_at, bar and case_id of its last row as next cursor exactly when it is full, or the error exactly for a cursor without a bar |
| `Pagination.CursorRoundTrip` | ProofRail/service/app.py:1244-1261 | a cursor names its row again exactly when the timestamp has no bar and both halves are nonempty |
| `Pagination.UpsertEvolves` | ProofRail/service/db.py:358-385 | an upsert under a clock that has not gone back lowers no updated_at |
| `Pagination.NoCaseTwice` | ProofRail/service/db.py:406-516 | with any such upserts between the pages no case is returned twice, wherever the client stops |
| `Pagination.UntouchedCaseSeen` | ProofRail/service/db.py:406-516 | a matching case no upsert touches during a walk to the end is returned |
| `Pagination.FixedPrefix` | ProofRail/service/db.py:406-516 | over a fixed table whatever a walk has returned is the top of the filtered listing in (updated_at, case_id) descending order |
| `Pagination.WalkTerminates` | ProofRail/service/app.py:1250-1261 | over a fixed table k replies that all hand on a cursor are k full pages, so no client is given more cursors than full pages fit |
| `Pagination.FixedListing` | ProofRail/service/db.py:406-516 | and a walk that has ended returned exactly the filtered listing, in one page more than the full ones |
| `Usage.UsageFlusher.PutNowait` | ProofRail/service/middleware.py:228-242 | accepts the event, or counts it dropped exactly when the queue has maxsize events |
| `Usage.UsageFlusher.Flush` | ProofRail/service/state.py:148-171 | inserts the whole batch or loses it; flushed counts only inserted events |
| `Usage.PassedIs` | ProofRail/service/state.py:145-182 | in one pass the head of the queue joins the batch, which leaves exactly when it has batch_size events or, not being empty, the last flush is a flush interval ago |
| `Usage.UsageFlusher.UsageFlusherLoop` | ProofRail/service/state.py:136-184 | the loop and its last flush compute the run function |
| `Usage.Conservation` | ProofRail/service/state.py:145-184 | offered events are inserted, lost, dropped, queued or in the batch; the batch stays below batch_size; rows are a prefix of the accepted events when no insert failed |
| `Usage.RowsKeepOrder` | ProofRail/service/state.py:145-184 | whatever inserts fail, rows keep the accepted order |
| `Usage.WaitBound` | ProofRail/service/state.py:173-182 | an accepted event with i others ahead in the queue is taken by pass i + 1 and has left the loop by the first later pass that reads the clock a flush interval on |
| `IngestionCache.Cache.GetOrRefresh` | ProofRail/service/cache.py:45-77 | alone on its key: an artifact stored at most ttl ago, or what refresh_func does, and the key is no longer refreshing even when it raises |
| `IngestionCache.LookServesIff` | ProofRail/service/cache.py:31-50 | in every interleaving a call's first look ends it exactly when the artifact stored last for its key was stored at most ttl ago |
| `IngestionCache.SingleflightOverRuns` | ProofRail/service/cache.py:52-77 | in every interleaving a key is marked refreshing exactly while one thread is in its refresh section |
| `IngestionCache.JoinBlocksIff` | ProofRail/service/cache.py:52-67 | a call may block for good, holding the lock, exactly when its key is being refreshed as it joins |
| `IngestionCache.NoContentionNoLoss` | ProofRail/service/cache.py:52-67 | when every join finds its key free nothing ever waits and the lock is never lost |
| `IngestionCache.KeptForever` | ProofRail/service/cache.py:53-64 | once a call blocks, nothing the lock protects changes again |
| `IngestionCache.BlockReachable` | ProofRail/service/cache.py:52-64 | two calls of one key reach such a join |
| `Idempotency.IdempotencyTable.Serve` | ProofRail/service/app.py:164-209 | rejection, replay, conflict, or the handler's writes and, if it does not fail after them, its record, told by the request's scopes, errors and record |
| `Idempotency.EffectsExact` | ProofRail/service/app.py:164-209 | over any sequence of requests the handlers write for a key once for each request that fails after writing, up to the first that completes, and once for that one |
| `Idempotency.WrittenOnceIff` | ProofRail/service/app.py:164-209 | after any sequence a request that passes its checks leaves its key written once in all exactly when no earlier request of the key failed after writing |
| `Idempotency.RetryIff` | ProofRail/service/app.py:1346-1426 | repeating one request any number of times writes at most once exactly when it does not fail after writing: on the case-event route, when the caller may also read evidence |
| `Idempotency.CaseEventRepeats` | ProofRail/service/app.py:1346-1426 | with write:cases alone n repeats of one key append the event n times, each answered 403 |
| `Idempotency.ReplayOrConflict` | ProofRail/service/app.py:164-209 | a later request with the key that passes the route's checks is answered with the recorded response exactly when its body is equal or collides, and is a conflict otherwise |

## Left out

- Many workers on one delivery: marks are unconditional updates by id, so accounting and absorption hold for one worker with API calls; only the leases are stated for many.
- BackoffOverRuns: a crash between send and mark repeats the attempt, so the statement excludes it; the other delivery theorems count such sends as lost.
- DrainBound: a failed send enqueues nothing, so each retry needs an admin run; claim and listing limits must not be reached.
- ScheduleSurvivesIff, ScheduledIsUnique, AtMostOnePendingRefresh, DoubledIff, StopHoldsIff, CalmRunKeeps: the delete and enqueue of an API handler (refresh, schedule) are one step; only the worker's pair is two. A crash or another caller between the handler's two statements is not modelled.
- RefreshesApart: a crash or an error between the end of a refresh and the worker's delete leaves the old row, so the refresh is repeated as soon as its lease ends or a minute later; such a refresh is not followed by the interval.
- DelayIsFloor: datetime overflow of very large delays, negative bases below the smallest date and float rounding of the product are not modelled.
- WindowBound, AllowedIff: limiter arithmetic and similarities are exact reals; float rounding is not modelled.
- Normalise: `str.upper` beyond ASCII is a parameter of which only "yields no ASCII lower-case letter" is used.
- Parse: reads compact text, without insignificant white space, fractions, exponents or surrogate pairs; other text is outside the round trip, and files not written by the store are read by a decoder parameter.
- Canonical: text stands for its UTF-8 bytes, floats are not values of the model, and True and 1 are kept apart.
- RecordingExtends: rows with equal times are listed in insertion order, which the query leaves open.
- UsageFlusherLoop: the queue's blocking wait is replaced by the events offered before each pass; the insert of a batch is all or nothing, as one transaction.
- SingleflightOverRuns: calls are a state machine over lock regions, not running threads; waiter progress is false and stated as the block.
- EffectsExact, WrittenOnceIff, RetryIff: requests run one after another; concurrent requests can both pass the check before either records. A handler's writes are one effect.
- ListCases: the pages are a relation on rows; SQLite's engine is a selection method.
- Foreign-key rejections, schema migration and the pagination of subscriptions, failed jobs and audit events, which repeat the case listing.
- `NameSetCache` and `ScreenCache`: LRU maps of the same shape as the limiter's; `compute_list_version` and `build_subjects`: easy members.
- EmitWebhooks: what `list_webhook_subscriptions` returned, at most 200 subscriptions, is an argument.
- HTTP routing, scopes, auth, headers, metrics, CORS and configuration; webhook URL and DNS checks, the send itself.
- The PostgreSQL and S3 twins, network fetching and XML parsing of the lists, PDF rendering, the analyst console.
