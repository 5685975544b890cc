# FieldPulse: verification model of the telemetry, connector, alerting and cache protocols

FieldPulse collects device telemetry over MQTT and gRPC, deduplicates it with Redis, writes it to a
TimescaleDB table, raises alerts and caches what it reads. Its hard parts are small concurrent protocols.
This project models them in Dafny and proves what they keep over every run.

A protocol is a **step system**: a state, the steps that any number of calls, goroutines and the clock can
take in any order, and `Run`, the state after a schedule of steps. A step whose guard does not hold changes
nothing. Every operation on a store takes its outcome from the schedule: success, an error after the
operation took effect, or an error without effect. Theorems quantify over all schedules.

Where the source is a loop or an object that updates its fields, the project also has the loop or the class,
proved equal to a specification function, and, if there is a step system, lemmas that tie this function to it.

| module | models | source |
|---|---|---|
| `Telemetry`, `Dedup` | requests, claims, the metrics table | `internal/services/telemetry_service.go`, `internal/cache/telemetry_cache.go`, `internal/db/telemetry_db.go` |
| `Ingest`, `IngestProofs`, `IngestTheorems` | SubmitMetric, SubmitBatch, write channel and worker as a step system; its invariant; its theorems | `internal/services/telemetry_service.go:110-302` |
| `Screening`, `Service`, `Solo` | the batch loop, the service as a class, and both as runs of the step system | the same |
| `Connector` | the drop-oldest queue, as a step system and as a class | `cmd/connector/main.go:177-345` |
| `Thresholds`, `Alerts` | when a threshold fires; evaluation, silencing and suppression as a step system | `internal/services/alert_evaluator.go`, `internal/services/alert_service.go`, `internal/db/alert_db.go` |
| `Evaluator`, `Evaluations` | the evaluator's loop as a class, and the loop as a run of `Alerts` | `internal/services/alert_evaluator.go` |
| `Devices` | the device cache-aside protocol, as a step system and as a class | `internal/services/device_service.go`, `internal/cache/device_cache.go`, `internal/db/device_db.go` |
| `Aggregations` | GetAggregations and its query cache, as a step system and as a class | `internal/services/telemetry_service.go:377-439`, `internal/cache/telemetry_cache.go` |
| `Paging`, `Watchdog`, `Topics`, `Keys`, `Text` | pages of QueryMetrics, the silent-device scan, topics, formatted keys | see the table below |
| `Common` | instants, outcomes, bounds of time ranges | |

The state and the steps of each system are the datatypes `State` and `Action` and the function `Step` of its
module. `Ingest.ResolveStep`, `ClaimStep`, `SendStep`, `WriteNowStep`, `AwaitStep`, `InsertStep` and
`ReportStep` follow `internal/services/telemetry_service.go:180-302` and `110-128` operation by operation;
`Connector.HandlerStep` has one step for each select of `enqueue`, and one for each counter
(`cmd/connector/main.go:261-277`); `Alerts.AdvanceEval` and `AdvanceSilencer` follow
`internal/services/alert_evaluator.go:52-143` and `internal/services/alert_service.go:224-245`;
`Devices.AdvanceTask` follows `internal/services/device_service.go:91-354`; `Aggregations.ReadStep`,
`QueryStep` and `StoreStep` follow `internal/services/telemetry_service.go:384-439`.

## Conventions

- Instants are integers in microseconds, the resolution of the time column. All parts of a model read one clock
  that never goes back.
- Floating-point numbers are reals, with NaN and the infinities as separate cases where the code tests for
  them. Rounding is left out.
- Redis is a map from keys to values with expiry instants. A dead key may be removed at any time after its
  expiry and is never seen in between.
- A database statement is atomic. COPY inserts all rows or none and fails on a clash with the table or inside
  the batch; `ON CONFLICT DO NOTHING` keeps the old row.
- Some fields are history: `enqueued`, `log`, `admissions`, `flushes`, `answers`, `arrived`, `entered`,
  `departed`, the version numbers and step numbers of cache entries and tasks, and the positions in such a field
  that a state keeps (`adm`, `check`, `source`). Only history is computed from history.

## Where the code does less than its names and documents suggest

Each of these is stated about the code as it is, with the exact condition where it depends on one.

- A claim is taken before the insert and never given back. A second request for the device and second within
  600 s is answered "duplicate ignored" if and only if the first one's SETNX took effect; what it asks for is
  then in the table if and only if its key was there before, or is the first one's and that insert took effect
  (`Solo.DuplicateStoredIff`, and `Solo.QueuedDuplicateStoredIff` for every way a queued call can end). So
  the retry of a lost insert is dropped (`Solo.RetryAfterFailureIsLost`), and so is a second metric, because the
  key has no metric name (`Solo.SecondMetricIsLost`). After a full queue or an early cancellation that is so in
  every continuation (`IngestTheorems.RefusedCallIsLost`).
- "Metric stored successfully" means that the key has a row; it is the submitted one if and only if the key was
  absent (`Solo.StoredMeansNewRowIffKeyWasAbsent`).
- While Redis is down, a bulk insert clashes with itself if and only if two valid requests of the batch, anywhere
  in it, ask for the same time, device and metric (`Screening.OutageClashIff`).
- `last_seen` is the second of the last point written, not the latest (`Service.LastSeenIsLastWritten`).
- Suppression reads and writes its key in separate steps: two evaluations of one device that both check first
  both record an alert, if and only if the key was not written less than 300 s before
  (`Alerts.RaceRecordsTwice`). `ClearSilence` leaves the key in place, so the next check is still suppressed,
  under the same condition (`Alerts.ClearedDeviceStaysSuppressed`, `Alerts.SuppressedIff`). An expired silence
  on a metric blocks a new one (`Alerts.SilenceSucceedsIff`).
- The connector can lose the message just received if and only if its queue is unbuffered or a second handler is
  subscribed (`Connector.NewestMayBeLostIff`). It has neither a registry lookup nor a retry.
- The device cache can show a version older than a completed update if and only if it does already or a background
  write of one is pending (`Devices.StaleIffStraggler`); right after an update, if and only if it showed the device
  before and the deletion failed (`Devices.FailedInvalidationLeavesOldEntry`).
- A missing device is reported as a failed query: the driver's no-rows error is not the `sql.ErrNoRows` that
  `internal/db/device_db.go:121` compares with.
- Cached aggregations survive writes to their series (`Aggregations.HitIffStoredRecently`), and colons in
  names can make two series share an answer (`Aggregations.HitAfterStoreIff`).
- `HasMore` and the next offset are int32 values, which wrap (`Paging.WalkCompleteIff`).

## Model

| member | source | states |
|---|---|---|
| `IngestTheorems.AdmissionsSpaced` | internal/services/telemetry_service.go:185-200 | Over all schedules of submits, worker, clock, expiry, errors and cancellations, two points let through for one device and Unix second by a working Redis passed SETNX at least 600 s apart. |
| `IngestTheorems.RowsAreOwnAdmissions` | internal/services/telemetry_service.go:196-218 | Each admitted point is in at most one of submitter, channel, worker's hand and executed statements; each row comes from an admission of its own, made for the row's device and second, and is nowhere else in the pipeline. |
| `IngestTheorems.RowsSpaced` | internal/cache/telemetry_cache.go:334-345 | Two rows of one device and second, both admitted by a working Redis, were admitted at least 600 s apart. |
| `IngestTheorems.SuccessMeansStored` | internal/services/telemetry_service.go:196-302 | From a success reply on, with or without queue and despite cancellation, the table has a row under the device, metric and time of the call's one request, or of every request of a subsequence of its batch in order, and the batch reply's accepted and rejected counts add up to the size of the batch. |
| `IngestTheorems.RowsMatchRequests` | internal/services/telemetry_service.go:514-541 | Over all schedules, every row of the table holds exactly the device, metric, value and status of a request of some call, and that request's second if it names one. |
| `IngestTheorems.Linearised` | internal/services/telemetry_service.go:110-131 | With a queue, the table is the result of executing a prefix of the enqueued jobs in order; the rest are in hand or queued, nothing is executed twice, and the channel stays within its capacity. |
| `IngestTheorems.JobsAllOrNothing` | internal/db/telemetry_db.go:111-148 | The points of a multi-point job are all rows of the table or none of them is, whatever comes after. |
| `IngestTheorems.PointsValid` | internal/services/telemetry_service.go:525-554 | Every point carried or stored has a device and a metric, a value within 1e308 either way, and a time at most 5 s ahead of the clock. |
| `IngestTheorems.WorkerNeverBlocks` | internal/services/telemetry_service.go:126-128 | Whenever the worker is about to post a result, the `done` channel of the job, of capacity one, is there and empty. |
| `IngestTheorems.RefusedCallIsLost` | internal/services/telemetry_service.go:196-205 | A call refused by a full queue, or canceled before its job was enqueued, is lost in every continuation: no row ever carries one of its points, and while its claim lasts a working Redis turns away every request for that device and second. |
| `IngestTheorems.GoneForGood` | internal/services/telemetry_service.go:196-213 | A point that was admitted and is nowhere in the pipeline stays nowhere. |
| `IngestProofs.Reachable` | internal/services/telemetry_service.go:110-302 | The pipeline's whole invariant holds after every schedule. |
| `IngestProofs.StepKeepsLedger` | internal/cache/telemetry_cache.go:334-345 | Every step keeps the claims consistent with the history of admissions. |
| `IngestProofs.PointsComeFrom` | internal/services/telemetry_service.go:196-225 | A point that is somewhere after a step was in one definite place before it, or has just been admitted. |
| `IngestProofs.StepKeepsUnique` | internal/services/telemetry_service.go:196-225 | No step puts an admitted point in two places. |
| `IngestProofs.StepKeepsAccounted` | internal/services/telemetry_service.go:238-302 | At every step of a call, the requests still to do, kept and rejected add up to its size. |
| `IngestProofs.StepKeepsTraced` | internal/services/telemetry_service.go:240-258 | At every step the points a call holds, waits for or reports are those of a subsequence, in order, of the requests it has dealt with: device, metric, value and status are the request's, and so is the time if it names one. |
| `IngestProofs.StepKeepsJobsTraced` | internal/services/telemetry_service.go:196-213 | Every job in the channel, in hand or executed holds points of requests of its own call. |
| `IngestProofs.StepKeepsJobs` | internal/services/telemetry_service.go:197-213 | Every unanswered job has its own call, waiting for exactly its points or gone, and an empty `done` channel. |
| `IngestProofs.StepKeepsLog` | internal/services/telemetry_service.go:110-125 | Every step keeps the table equal to the replay of the executed statements, and the statements in the order of the channel. |
| `IngestProofs.StepKeepsReplies` | internal/services/telemetry_service.go:206-225 | No step falsifies a success that was posted or replied. |
| `Dedup.DuplicateIffRecentAdmission` | internal/cache/telemetry_cache.go:334-345 | With a working Redis a point is turned away if and only if an admission claimed its device and second less than 600 s ago. |
| `Dedup.TryConsistent` | internal/services/telemetry_service.go:493-504 | One SETNX keeps claims and admissions consistent: claims outlast their TTL, admissions that wrote a claim are spaced, and every claim has its admission. |
| `Telemetry.WriteRows` | internal/db/telemetry_db.go:85-148 | A write keeps every earlier row, adds only rows of its own points under their own keys, and on success leaves all its keys present. |
| `Telemetry.BulkAllOrNothing` | internal/db/telemetry_db.go:111-148 | A bulk insert adds every row and only those if and only if there is one, their keys are distinct and absent, and it takes effect; otherwise the table stays. It succeeds if and only if it adds them and no error is reported. |
| `Telemetry.SingleInsertAdds` | internal/db/telemetry_db.go:85-108 | A single insert adds its row if and only if its time, device and metric are new and it takes effect, keeps an old row, touches nothing else, and succeeds if and only if no error is reported. |
| `Telemetry.ResolveIff` | internal/services/telemetry_service.go:525-554 | A request is valid if and only if it has device and metric, a value within 1e308 either way, and a second at most 5 s ahead; it is stored under its own second, or under the clock's time when it names none. |
| `Screening.AcceptedIff` | internal/services/telemetry_service.go:240-258 | The batch loop lets request i through if and only if it is valid, its slot was not claimed when it came up, and no earlier request of the batch that went through claimed it within 600 s. |
| `Screening.ScreenKeepsAccepted` | internal/services/telemetry_service.go:240-258 | With Redis working, the points the loop collects are exactly the accepted requests, in order. |
| `Screening.LiveAfter` | internal/services/telemetry_service.go:247-257 | After n requests a slot is claimed at an instant if and only if it was at the start or an accepted one of the n claimed it less than 600 s before. |
| `Screening.ScreenCounts` | internal/services/telemetry_service.go:238-300 | However Redis behaves, kept and rejected requests add up to the length of the batch. |
| `Screening.BatchNeverClashesWithItself` | internal/services/telemetry_service.go:260-284 | With Redis working, no two accepted points share a table key, so the bulk insert fails only on rows already there or a database error. |
| `Screening.OutageFailsRepeatedRequest` | internal/services/telemetry_service.go:247-284 | With Redis answering errors, two valid requests for one key anywhere in a batch make its bulk insert fail on every table; without such a pair it succeeds if and only if the database works, something is valid, and no key is in the table. |
| `Screening.OutageClashIff` | internal/services/telemetry_service.go:247-258 | With Redis answering errors, the points kept have different keys if and only if no two valid requests of the batch ask for the same time, device and metric. |
| `Screening.HealthyClashIff` | internal/services/telemetry_service.go:240-258 | With Redis working, however long the loop takes, the points kept have different keys if and only if no two accepted requests ask for the same key. |
| `Screening.DistinctIffNoClash` | internal/services/telemetry_service.go:240-258 | For any behaviour of Redis, the points kept have different keys if and only if no two of the requests let through ask for the same key. |
| `Service.TelemetryService.constructor` | internal/services/telemetry_service.go:78-101 | A new service has no claims, rows, jobs or results. |
| `Service.TelemetryService.TryMarkDedup` | internal/cache/telemetry_cache.go:334-345 | Reports a key as new unless a working Redis holds it live, and leaves claims and history as the specification says. |
| `Service.TelemetryService.SubmitBatch` | internal/services/telemetry_service.go:228-302 | The synchronous call leaves claims, table, reply and last_seen keys as the screened batch and one bulk insert do; old rows stay, and every new row holds exactly what one of the requests asks for. |
| `Service.TelemetryService.MarkLastSeen` | internal/services/telemetry_service.go:286-294 | The last_seen keys after a batch are those of writing its points in order. |
| `Service.TelemetryService.SubmitMetric` | internal/services/telemetry_service.go:176-226 | The synchronous call leaves claims, table, reply and last_seen keys as validation, one SETNX and one insert do; old rows stay, and a new row holds exactly the request's device, metric, value and status, under its second or the clock's time. |
| `Service.SubmitOneStores` | internal/services/telemetry_service.go:176-226 | When a SubmitMetric call is refused as invalid, answered as a duplicate, and answered as stored, each if and only if, in terms of request, claims and outcome; when its key is in the table; and what the new row holds. |
| `Service.SubmitManyStores` | internal/services/telemetry_service.go:228-302 | SubmitBatch refuses an empty batch and one of more than 1000 requests without effect; every new row and every accepted point holds exactly what one of the requests asks for; success has all its rows stored and its counts add up. |
| `Service.TelemetryService.RunMetricWriteWorker` | internal/services/telemetry_service.go:110-131 | The worker takes jobs from the front of the channel and leaves the rest; table and results are those of serving them one by one. |
| `Service.ServeReplays` | internal/services/telemetry_service.go:115-125 | Serving jobs is replaying their statements in order. |
| `Service.ServeAnswersEachJobOnce` | internal/services/telemetry_service.go:126-128 | Each served job gets exactly one result, and a success means that its rows are in the table. |
| `Service.TurnImplementsSteps` | internal/services/telemetry_service.go:115-128 | One turn of the worker's loop is the steps take, insert and report of the step system. |
| `Service.LastSeenIsLastWritten` | internal/cache/telemetry_cache.go:348-357 | A device has a last_seen key after a batch if and only if it had one before or a point in it, and the key is the second of its last point, or as before if it has none. |
| `Solo.TurnHandles` | internal/services/telemetry_service.go:240-258 | One iteration of the batch loop is the steps resolve and claim. |
| `Solo.LoopImplementsSteps` | internal/services/telemetry_service.go:240-258 | After n iterations the step system is where the loop is. |
| `Solo.BatchImplementsSteps` | internal/services/telemetry_service.go:228-302 | For every synchronous batch, refused, with nothing kept or written, there is a schedule of the call's own steps and clock ticks that leaves claims, table and reply as the method does. |
| `Solo.AttemptIs` | internal/services/telemetry_service.go:176-196 | Validation and claim of one call as steps, for every request and answer of Redis: the full state they lead to. |
| `Solo.SubmitImplementsSteps` | internal/services/telemetry_service.go:176-226 | For every request, answer of Redis and outcome of the insert, there is a schedule of the call's own steps and clock ticks that leaves claims, table and reply as the synchronous method does. |
| `Solo.QueuedSubmitStores` | internal/services/telemetry_service.go:196-225 | Undisturbed, a valid request for an unclaimed slot goes through channel and worker, adds exactly its own row, and is answered with success. |
| `Solo.RedeliveryAbsorbed` | internal/services/telemetry_service.go:185-194 | A QoS 1 redelivery within 600 s of the admission that claimed its slot is answered "duplicate ignored" and changes nothing but its own call. |
| `Solo.RetryAfterFailureIsLost` | internal/services/telemetry_service.go:185-217 | Whatever the outcome of the first attempt, its retry within 600 s is answered "duplicate ignored", and the row is there if and only if it was before or the insert took effect. |
| `Solo.DuplicateStoredIff` | internal/services/telemetry_service.go:185-217 | Synchronous calls, all outcomes: a later request for the device and second within 600 s is a duplicate if and only if the first SETNX took effect; what it asks for is then in the table if and only if its key was there before, or is the first one's and that insert took effect. |
| `Solo.QueuedDuplicateStoredIff` | internal/services/telemetry_service.go:196-213 | The same for a first call that is refused by a full queue, canceled before or after its job was enqueued, or answered with any outcome: its reply, the duplicate, and the exact condition for the row. |
| `Solo.SecondMetricIsLost` | internal/cache/telemetry_cache.go:338 | Another metric of the same device and second within 600 s is answered "duplicate ignored", and is in the table if and only if it was before. |
| `Solo.StoredMeansNewRowIffKeyWasAbsent` | internal/db/telemetry_db.go:85-108 | After a successful submit the row under its key is the submitted point if and only if the key was absent before. |
| `Connector.EveryMessageAccountedFor` | cmd/connector/main.go:217-226 | For any number of handlers, at every state: each message received is forwarded, dropped, failed, queued or in a hand exactly once, and recv = fwd + dropped + failed + queued + in hand. |
| `Connector.DropsOldestFirst` | cmd/connector/main.go:261-290 | With one handler and a configured buffer, messages leave the channel in order of arrival, the channel never overflows, the last select never falls to its default, and the newest message is always kept. |
| `Connector.NewestMayBeLostIff` | cmd/connector/main.go:261-277 | Some schedule from the start drops the message a handler has just received if and only if there is a handler, and the capacity is zero or there is another handler. |
| `Connector.TwoHandlersMayLoseNewest` | cmd/connector/main.go:261-277 | On a full channel, a slot freed by one handler can be taken by another, and the first one's message is dropped: the states on the way. |
| `Connector.StepConserves` | cmd/connector/main.go:261-345 | Every step keeps the count of each message over all places, and the counters true. |
| `Connector.StepKeepsSerial` | cmd/connector/main.go:261-277 | With one handler, what it holds is the only message not yet in the channel, and after its drop there is room. |
| `Connector.Reachable` | cmd/connector/main.go:201-290 | Conservation, order, bound and the one-handler invariant hold after every schedule. |
| `Connector.CapacityIs` | cmd/connector/main.go:177-180 | A positive buffer size is the channel's capacity; any other means 1000. |
| `Connector.BrokerWorker.constructor` | cmd/connector/main.go:177-199 | A positive buffer size is the capacity, any other means 1000; everything else starts empty. |
| `Connector.BrokerWorker.ProcessLoop` | cmd/connector/main.go:279-290 | The consumer leaves the fields as the specification says. |
| `Connector.BrokerWorker.Handle` | cmd/connector/main.go:217-277 | The handler, with the consumer running between its selects, leaves the fields as the specification says. |
| `Connector.ConsumeTakes` | cmd/connector/main.go:279-290 | Consuming takes messages from the front and counts exactly the forwards that succeed. |
| `Connector.HandledMeans` | cmd/connector/main.go:217-277 | One call of the handler: with room nothing is lost; on a full channel at most the oldest message is, and only if the consumer has not emptied it; the new message is queued last whenever the capacity is positive; channel and all three counters exactly. |
| `Connector.HandleImplementsSteps` | cmd/connector/main.go:217-290 | There is a schedule of the handler's selects and counters in order, with turns of the consumer in the gaps, that leaves channel and counters as the method does. |
| `Alerts.AlertsSpaced` | internal/services/alert_evaluator.go:127-142 | Over all interleavings, a suppression check that a working Redis let pass is at least 300 s after every earlier write of the device's key, by an evaluation or by SilenceAlert, and so is the alert recorded on it from any alert before that write. |
| `Alerts.SuppressedIff` | internal/services/alert_evaluator.go:127-159 | Over all interleavings, a suppression check that reaches Redis is suppressed if and only if the device's key was written, by an evaluation or by SilenceAlert, less than 300 s before. |
| `Alerts.SilenceHolds` | internal/db/alert_db.go:281-327 | Over all interleavings, an evaluation whose lookup succeeds while a covering silence runs, not cleared since, never publishes and never records an unsilenced alert, whatever other silences come and go. |
| `Alerts.SilencedIff` | internal/db/alert_db.go:299-304 | Over all interleavings, a successful lookup finds the evaluation silenced if and only if some silence of its own device, for all metrics or its own, was made before, still runs, and was not cleared since; the verdict decides which kind of alert the evaluation records. |
| `Alerts.RaceRecordsTwice` | internal/services/alert_evaluator.go:127-139 | In every reachable state, two evaluations of one device that both check before either goes on record two alerts at one instant if and only if the key was not written less than 300 s before. |
| `Alerts.SilenceSucceedsIff` | internal/services/alert_service.go:224-245 | Undisturbed, a SilenceAlert call takes effect, for the requested number of seconds, if and only if device and duration are valid, the device exists, and it is for all metrics or the metric has no rule, running or not; otherwise it changes nothing. |
| `Alerts.SilenceSetsKey` | internal/services/alert_service.go:238-245 | The last step of SilenceAlert sets the device's Redis key for 300 s unless Redis fails, and replies success in any case. |
| `Alerts.ClearedDeviceStaysSuppressed` | internal/services/alert_service.go:284-294 | ClearSilence removes the device's rules; in every reachable state the check right after it is still suppressed if and only if the key was written less than 300 s before. |
| `Alerts.StepKeepsKeys` | internal/services/alert_service.go:448-453 | Every step keeps a key that was set less than 300 s ago. |
| `Alerts.StepKeepsChecks` | internal/services/alert_evaluator.go:146-159 | Every step keeps passed checks 300 s away from earlier writes of the key. |
| `Alerts.StepKeepsFounded` | internal/services/alert_service.go:448-453 | Every key in Redis was written by an evaluation or by SilenceAlert, a TTL before its expiry. |
| `Alerts.StepKeepsSuppressed` | internal/services/alert_evaluator.go:146-159 | Every step keeps a recent write of the key before each suppressed check. |
| `Alerts.StepKeepsRules` | internal/db/alert_db.go:281-327 | Every step keeps the rule of every silence that was not cleared. |
| `Alerts.StepKeepsRulesFounded` | internal/db/alert_db.go:281-327 | Every rule in the table comes from a silence of its device and scope that was not cleared since. |
| `Alerts.StepLookups` | internal/db/alert_db.go:299-304 | A successful lookup reports a silence if and only if the table has a running rule for the device, for all metrics or this one. |
| `Alerts.StepKeepsLookups` | internal/services/alert_evaluator.go:62-63 | Every successful lookup reported a silence if and only if one reaches it. |
| `Alerts.StepKeepsEvals` | internal/services/alert_evaluator.go:120-142 | An evaluation past the suppression check is unsilenced and passed that check itself; the log agrees with it. |
| `Alerts.Reachable` | internal/services/alert_evaluator.go:52-159 | The invariant of the alerting system holds after every schedule. |
| `Thresholds.ChangeFiresIff` | internal/services/alert_evaluator.go:85-95 | A CHANGE threshold fires if and only if there is a last value, it is not zero, and 100 times the size of the change exceeds the percentage of the size of the last value, for either sign. |
| `Thresholds.BoundsFireIff` | internal/services/alert_evaluator.go:69-84 | HIGH fires if and only if the value is above the upper bound, LOW if and only if it is below the lower, RANGE if and only if it is outside the two. |
| `Evaluator.AlertEvaluator.constructor` | internal/services/alert_evaluator.go:33-41 | A new evaluator has no history. |
| `Evaluator.AlertEvaluator.CheckSilenced` | internal/services/alert_evaluator.go:179-186 | True if and only if some rule is for all metrics or for this one. |
| `Evaluator.AlertEvaluator.Check` | internal/services/alert_evaluator.go:69-95 | Reports whether the threshold fires on the value and the old history, and leaves the new history. |
| `Evaluator.AlertEvaluator.InsertAlert` | internal/services/alert_evaluator.go:131-134 | Adds the alert unless the insert is lost, and reports success only for a clean insert. |
| `Evaluator.AlertEvaluator.Evaluate` | internal/services/alert_evaluator.go:65-143 | The loop leaves history, keys, alerts and publications as the fold of the thresholds says. |
| `Evaluator.LoopHistory` | internal/services/alert_evaluator.go:85-95 | After the loop the history changed, to the new value, if and only if a CHANGE threshold came up. |
| `Evaluator.SilencedRecordsAll` | internal/services/alert_evaluator.go:120-125 | A silenced evaluation records exactly the thresholds that fire, as silenced, in order, unless an insert is lost; it publishes nothing and leaves the key alone. |
| `Evaluator.SilencedByBounds` | internal/services/alert_evaluator.go:69-125 | A silenced evaluation whose inserts take effect records a HIGH, LOW or RANGE alert if and only if the value is above, below or outside the bounds of a threshold of that kind. |
| `Evaluator.SilencedTells` | internal/services/alert_evaluator.go:101-125 | Each alert of a silenced evaluation tells of a broken threshold: device, metric, value, kind, severity, and the upper bound, or the lower if the upper is zero. |
| `Evaluator.WithinBoundsIsQuiet` | internal/services/alert_evaluator.go:69-99 | A value that breaks no threshold leaves alerts, publications and key as they were. |
| `Evaluator.PublishesFirstOnly` | internal/services/alert_evaluator.go:127-142 | An unsilenced evaluation shorter than 300 s with a working Redis publishes at most one alert: that of the first threshold that fires, is not suppressed by the key found, and is inserted without error. |
| `Evaluator.FirstAlarmPublished` | internal/services/alert_evaluator.go:101-142 | In terms of values and bounds: a prompt unsilenced evaluation publishes nothing if no threshold is broken, unsuppressed and inserted; otherwise one alert, which tells of the first such threshold, and the key is set for 300 s. |
| `Evaluator.BreaksIffFires` | internal/services/alert_evaluator.go:69-95 | A threshold fires in the loop if and only if the value breaks it, in terms of values and bounds. |
| `Evaluator.SerialAlertsSpaced` | internal/services/alert_evaluator.go:127-159 | In serial runs with a working Redis, over any series of evaluations of any metrics, published alerts of one device are recorded at least 300 s apart. |
| `Evaluator.HistoryIsLastChange` | internal/services/alert_evaluator.go:188-199 | In serial runs, for all names, the history under a key is the latest value evaluated under a CHANGE threshold by a series whose device and metric join to that key. |
| `Evaluator.ClearNamesKeepApart` | internal/services/alert_evaluator.go:61 | For a device and metric without inner colons, that series is the device and metric itself. |
| `Evaluator.ChangeFiresOnLatest` | internal/services/alert_evaluator.go:85-95 | In serial runs, for all names, a metric's only CHANGE threshold fires if and only if that latest value exists, is not zero, and differs from the new one by more than the percentage. |
| `Evaluations.TurnImplementsSteps` | internal/services/alert_evaluator.go:65-143 | One turn of the loop does to history, keys, alert rows and publications what the evaluation's steps for that threshold do. |
| `Evaluations.LoopImplementsSteps` | internal/services/alert_evaluator.go:65-143 | There is a schedule of the evaluation's own steps and clock ticks that leaves the stores of the step system as the loop does. |
| `Devices.NeverFabricated` | internal/services/device_service.go:188-211 | Over all interleavings of calls, background writes and expiries, every cache entry and every GetDevice answer is a committed version of that same device's row, and devices and certificates come in pairs. |
| `Devices.StaleEntryStraddlesUpdate` | internal/services/device_service.go:299-306 | An entry older than a completed update was read before that update committed and written after it deleted the entry. |
| `Devices.StaleIffStraggler` | internal/services/device_service.go:342-354 | Some schedule makes the cache show, before its expiry, a version older than v if and only if it does already or a background write of such a version is pending. |
| `Devices.FailedInvalidationLeavesOldEntry` | internal/services/device_service.go:299-306 | After an update that went through, the cache shows an older version if and only if it showed the device before and the deletion failed, for every outcome of the deletion. |
| `Devices.UpdateTakesEffect` | internal/db/device_db.go:230-259 | Undisturbed, an update makes the current row one with the new status and time and every other field as before, and leaves the device out of the cache. |
| `Devices.CachedForFiveMinutes` | internal/cache/device_cache.go:34-45 | A row written to the cache shows for 300 s and no longer. |
| `Devices.MissAnswersCurrentRow` | internal/services/device_service.go:188-211 | Undisturbed, a GetDevice that misses the cache answers with the current row and has started the write that caches it. |
| `Devices.StepKeepsRows` | internal/db/device_db.go:47-96 | Every step keeps the committed versions in order and adds at most one; both rows of a device are committed together. |
| `Devices.StepKeepsTasks` | internal/services/device_service.go:166-211 | What a task or goroutine holds is a version that was current when it read it. |
| `Devices.StepKeepsCache` | internal/cache/device_cache.go:34-73 | What the cache holds is a version that was current when its writer read it. |
| `Devices.StepKeepsFlushes` | internal/services/device_service.go:299-306 | Every step keeps older entries written after the deletions of newer updates. |
| `Devices.Reachable` | internal/services/device_service.go:91-354 | The invariant of the cache-aside protocol holds after every schedule. |
| `Devices.DeviceService.constructor` | internal/services/device_service.go:56-88 | A new service has no devices, entries or goroutines. |
| `Devices.DeviceService.CreateDevice` | internal/services/device_service.go:91-179 | Stores, goroutines and report are those of the specification; success if and only if the required fields are there, the device is new and the transaction commits. |
| `Devices.DeviceService.GetDevice` | internal/services/device_service.go:188-235 | Answer and goroutine are those of the specification, for a hit, a miss and each error; a missing device is an error like any other. |
| `Devices.DeviceService.UpdateDeviceStatus` | internal/services/device_service.go:294-325 | Stores and answer are those of the specification; it answers a row if and only if the update goes through, and then the row now stored, with the new status and time and every other field as before. |
| `Devices.DeviceService.RunGoroutine` | internal/services/device_service.go:335-350 | The oldest goroutine writes its row, or the row it reads now, under that row's device, and is gone. |
| `Devices.CreateReports` | internal/services/device_service.go:91-179 | When CreateDevice reports success, and that it stores the given row and leaves all others. |
| `Devices.GetAnswers` | internal/services/device_service.go:188-235 | When GetDevice answers a row, which one, and the goroutine it starts. |
| `Devices.UpdateAnswers` | internal/services/device_service.go:294-325 | When UpdateDeviceStatus answers a row; that it is the one now stored, field by field; and that a GetDevice that misses right after answers the same row. |
| `Devices.CreateImplementsSteps` | internal/services/device_service.go:91-179 | CreateDevice is a run of its task: the same rows, certificates, cache and goroutine, for every outcome; and when it reports success. |
| `Devices.HitImplementsSteps` | internal/services/device_service.go:193-199 | GetDevice on a cached device is a run of its task: the same answer and refresh. |
| `Devices.MissImplementsSteps` | internal/services/device_service.go:201-235 | GetDevice otherwise is a run of its task: the same answer or error, and the same caching of the row. |
| `Devices.UpdateImplementsSteps` | internal/services/device_service.go:294-325 | UpdateDeviceStatus is a run of its task: the same row and cache, for every outcome; the row it answers is the current one. |
| `Devices.GoroutineImplementsSteps` | internal/services/device_service.go:335-350 | Caching and refreshing are runs of their tasks: the same cache, for every outcome. |
| `Aggregations.HitIffStoredRecently` | internal/services/telemetry_service.go:384-439 | Over all interleavings and invalidations, for all names, a read that reaches Redis is answered from the cache if and only if a call for the same joined name, window, bounds to the second and aggregation list stored its result less than 300 s before, and the answer is what the last such call computed and stored. |
| `Aggregations.SameQueryIsOwn` | internal/services/telemetry_service.go:649-651 | For a device and metric without inner colons, the joined name is that of the same device and metric alone. |
| `Aggregations.HitAfterStoreIff` | internal/services/telemetry_service.go:649-651 | A read right after a store under a new key is answered by it if and only if the two requests have the same shape and their names read the same once joined by a colon. |
| `Aggregations.RepliesOnRecord` | internal/services/telemetry_service.go:386-438 | Over all schedules, a result answered from the query is the one the call computed, one answered from the cache is the one its read found. |
| `Aggregations.RefusedIff` | internal/services/telemetry_service.go:579-600 | A request is refused if and only if it lacks device, metric or window, or its given bounds, other than the zero time, are in the wrong order. |
| `Aggregations.SameCacheKey` | internal/services/telemetry_service.go:623-651 | Two requests have the same cache key if and only if their joined names and aggregation lists agree, their bounds fall in the same seconds, and their windows are the same number or both none of one minute, five minutes and a day. |
| `Aggregations.TypeNameInjective` | internal/services/telemetry_service.go:638-647 | Aggregation numbers, named or not, print differently. |
| `Aggregations.GetTtl` | internal/cache/telemetry_cache.go:293-310 | The search for the first colon finds the TTL of the key's kind: 10 minutes for statistics, 1 minute for points, 5 minutes for aggregations and keys without a kind. |
| `Aggregations.AggKeyKind` | internal/cache/telemetry_cache.go:134-180 | Aggregation keys live 300 s, and InvalidateMetricCache, whose patterns start with "point:" and "stats:", deletes none of them. |
| `Aggregations.StepKeepsKey` | internal/cache/telemetry_cache.go:37-85 | Every step keeps under each key the latest store under it, and nothing else, for its TTL. |
| `Aggregations.Reachable` | internal/services/telemetry_service.go:377-439 | The invariant of the query cache holds after every schedule. |
| `Aggregations.AggregationService.CacheQueryResult` | internal/cache/telemetry_cache.go:37-57 | Stores the result under its key for the TTL of the key's kind, unless the write is lost. |
| `Aggregations.AggregationService.Answer` | internal/services/telemetry_service.go:386-438 | Reply and cache once the key is built: hit, failed query, or computed and stored. |
| `Aggregations.AggregationService.GetAggregations` | internal/services/telemetry_service.go:377-439 | Reply and cache of one call, invalid requests included. |
| `Aggregations.ServeImplementsSteps` | internal/services/telemetry_service.go:377-439 | The method is a run of the step system with the same reply and cache. |
| `Paging.WalkCompleteIff` | internal/services/telemetry_service.go:305-375 | Following HasMore from offset 0 reads the whole window in order, without gaps or repeats, in ceil(total/limit) pages, if and only if the end of the last page fits an int32. |
| `Paging.WalkReadsSeries` | internal/db/telemetry_db.go:153-229 | For an unchanging series whose last page ends below 2^31 the walk returns every row of the time window once, in time order. |
| `Paging.ListingUnique` | internal/db/telemetry_db.go:153-229 | There is only one time-ordered list of a series, and its length is what the count query reports. |
| `Paging.WalkReadsRest` | internal/services/telemetry_service.go:340-372 | From any page on, the walk reads exactly the rest of the window. |
| `Paging.WalkIsRefused` | internal/services/telemetry_service.go:340-372 | When the last page ends at or beyond 2^31, the offset wraps and the handler refuses the next request. |
| `Paging.LongWindowIsCut` | internal/services/telemetry_service.go:340-372 | A window of 2^31 rows or more is never read to its end. |
| `Paging.QueryMetrics` | internal/services/telemetry_service.go:305-375 | The handler refuses bad names, ranges and limits as invalid, and a negative offset, an empty default range or a database error as failed; otherwise its loop streams the rows of the page, each with HasMore and the total, and all of them stored rows inside the time range asked for. |
| `Paging.RangeIs` | internal/services/telemetry_service.go:315-332 | The time range of a request: from its start, or 24 hours before its end; to its end, or now. |
| `Paging.RespondIs` | internal/services/telemetry_service.go:305-375 | Which requests are refused and which fail, each if and only if; a page holds the rows of the window from the offset on, as many as the limit, 100 by default, each with the size of the window. |
| `Watchdog.SilentWatchdog.constructor` | internal/services/silent_watchdog.go:24-47 | A watchdog starts without effects. |
| `Watchdog.SilentWatchdog.ProbeKeys` | internal/services/silent_watchdog.go:60-96 | The loop over the keys of one SCAN answer has exactly the effects of its keys, in order. |
| `Watchdog.SilentWatchdog.RunSilentScan` | internal/services/silent_watchdog.go:49-102 | One pass has the effects of all SCAN answers up to the end or a scan error, and tells the two apart. |
| `Watchdog.AfterBatchesIff` | internal/services/silent_watchdog.go:49-102 | An effect happens if and only if a key the pass saw calls for it. |
| `Watchdog.OnlyIdleDevicesMarked` | internal/services/silent_watchdog.go:49-102 | A pass asks for SILENT, and announces it, only for the known device of a last_seen key it saw, whose value was over 15 minutes old. |
| `Watchdog.EveryIdleDeviceMarked` | internal/services/silent_watchdog.go:49-102 | A pass without scan error asks for every idle, known and not yet SILENT device whose last_seen key is there throughout, given SCAN's guarantee, and announces it if the update goes through. |
| `Topics.AcceptsExactlyTelemetryTopics` | internal/mqtt/telemetry_ingest.go:144-153 | A topic is accepted with an id if and only if it is "devices/", the id and "/telemetry", and the id is not empty and has no slash. |
| `Topics.ConnectorAgrees` | cmd/connector/main.go:361-384 | On every accepted topic the connector finds the same id if and only if the segment it looks at holds it; without a configured position it always does. |
| `Topics.SubscriptionFinds` | cmd/connector/main.go:361-384 | On any topic of at least two segments, which segment each kind of subscription takes, and when it takes none. |
| `Topics.TopicsAreInjective` | cmd/simulator/main.go:188 | Different slash-free ids publish on different topics. |
| `Keys.DedupKeyInjective` | internal/cache/telemetry_cache.go:338 | Deduplication keys agree if and only if device and second do, for any device name. |
| `Keys.SameAggKey` | internal/services/telemetry_service.go:649-651 | Aggregation keys agree if and only if everything but the split between device and metric does. |
| `Keys.UnambiguousIff` | internal/services/alert_evaluator.go:61 | A device and metric joined by a colon can be confused with no other pair if and only if no colon stands inside the device after its first character or in the metric before its last. |
| `Text.JoinSplit` | internal/mqtt/telemetry_ingest.go:145 | Joining undoes splitting, and no piece contains the separator. |
| `Text.SplitJoin` | internal/mqtt/telemetry_ingest.go:145 | Splitting undoes joining of pieces without separators. |

## Left out

- Generated protobuf and gRPC code, the API gateway, process wiring, tracing, certificates and PEM handling: wrappers over libraries.
- MQTT, Redis, PostgreSQL and gRPC clients: they are maps, sequences and tables with the contracts under "Conventions".
- SQL text, aggregate views, retention, compression, and deletion of rows by cascade: the metrics table only gains rows.
- Rows inserted between the two queries of QueryMetrics or between two pages.
- JSON decoding and encoding, tags, and the text of messages and identifiers.
- The conversion between device status numbers and strings, which differs between the paths that use it: status is an opaque string, and an update may fail.
- UpdateThreshold, which ignores zero and negative values and so keeps no validity.
- AlertService.EvaluateMetric: nothing calls it, and it neither publishes nor writes the Redis key. validateThresholdRequest: a list of independent checks.
- Termination of InvalidateMetricCache and GetCacheStats, whose loops shadow their cursor. In the model InvalidateMetricCache deletes any set of keys with its prefixes.
- The effects of a stored point on caches and alerts inside the ingest step system: they start after the write and do not come back to it.
- Clock differences between processes, and Redis eviction under memory pressure.
- Floating-point rounding, and int64 wrap-around inside `time.Unix`.
- Why a forward of the connector fails, and its payload defaults: a forward succeeds or fails.
- ListDevices, GetDeviceCertificate's contents, UpdateDeviceLastSeen, alert queries and statistics: easy members only.
- Evaluator.PublishesFirstOnly: serial, as the source's own ordering gives nothing across goroutines; Alerts.RaceRecordsTwice shows why.
- Screening.ScreenKeepsAccepted: asks for a Redis that answers; Screening.DistinctIffNoClash, Screening.ScreenCounts and the ingest theorems do not.
- InvalidateDevice and ClearAll, whose patterns match aggregation keys too: nothing calls them.
