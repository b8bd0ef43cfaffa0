# Sentinel Edge: verified model of the runtime core

Sentinel Edge watches hazards on a node with little memory and an unreliable network: connectors feed bounded queues, a
collector keeps per-source cursors, peers exchange collaborative signals over email, evidence is grouped into families, an
audit journal is hash-chained, and a benchmark lab compares a fixed-rate pipeline with an orchestrated one. This project
models the parts of that system whose promises span many calls, and proves them for every input, every run or every
interleaving.

`dafny verify dfyconfig.toml` checks the whole project.

## How the model is laid out

| file | models |
|---|---|
| `Connector.dfy` | `collector/connectors.py` as a transition system over any number of producers, drainers and one worker |
| `BenchmarkRecords.dfy`, `FixedRate.dfy`, `Orchestrated.dfy`, `Scheduler.dfy` | `benchmark/lab.py` and the dispatch part of `runtime/scheduler.py` |
| `Smtp.dfy`, `Retry.dfy`, `Gmail.dfy`, `Signals.dfy`, `Correlation.dfy`, `Collaboration.dfy` | the collaboration pipeline: retry queue and the waits between its attempts, receiver with crashes, validator, correlation policy, bounded store and service |
| `ShiftRegister.dfy`, `Framing.dfy`, `SensorFrame.dfy`, `SensorStraddle.dfy` | `collector/sensor_protocol.py`: linear shift registers, framing over any checksum, the CRC-32 instance, and corruption across the boundary of body and trailer |
| `AuditChain.dfy` | the chain parts of `audit/checkpoints.py` |
| `Governance.dfy` | alternation, invalidation, pairing and bootstrap of `benchmark/governance.py` |
| `Collector.dfy` | `collector/service.py` with its durable cursor store |
| `Evidence.dfy`, `EvidenceLifecycle.dfy` | `evidence/service.py` |
| `PhysicalReader.dfy` | `collector/physical.py` with the IMU line reader |
| `Sorting.dfy`, `Trimming.dfy`, `Basics.dfy` | Python's stable sort, sums that do not depend on order, order statistics; stripping; shared definitions |

Objects whose methods change fields are classes (`Smtp.Publisher`, `Gmail.Connector`, `Collaboration.Repository`,
`Collaboration.Service`, `Collector.StreamingSourceCollector`, `Evidence.EvidenceStore`,
`EvidenceLifecycle.LifecycleService`); loops are methods, each tied by its contract to a function whose properties are then
proved as lemmas over whole runs. Clocks, random draws, network answers, file-write outcomes and crashes are parameters.
Instants are integers, except in the mail queue where backoff makes them reals. SHA-256, canonical JSON, JSON decoding and
signatures are parameters: where injectivity of a hash matters, the statement is that equal digests give equal inputs *or*
name a concrete collision, so it needs no assumption that no hash satisfies.

## What turned out false

Each of these is kept as the code has it, shown by a lemma with a concrete state or input, and paired with the exact
condition or the statement that does hold.

- A drain receipt can say stopped, drained and dead while an accepted item was neither processed nor cancelled
  (`Connector.LateProducerIsStranded`). From the flip until the worker leaves its loop, no continuation can do that if and
  only if the producer is outside `submit` or the join has already given up (`Connector.LosesNothingIff`). Lost
  increments break the account as well (`Connector.TwoProducersUndercount`, `Connector.TwoDrainersUndercount`): the counters
  balance in every reachable world if and only if there is no producer, or at most one producer and one drainer
  (`Connector.AlwaysBalancedIff`).
- A raising handler during a drain still ends as stopped (`Connector.RaiseDuringDrainReportsStopped`): every receipt of a
  dead thread says so, whatever was raised (`Connector.DeadReceiptsSayStopped`).
- The minimum update interval is not a rate limit: one episode can be updated any number of times at one instant
  (`Smtp.AlternatingUpdatesEscape`). Any list of unexpired updates can be sent at one instant if and only if
  none repeats the previous one of its episode (`Smtp.SendableAtOnceIff`); those repeats are spaced
  (`Smtp.RepeatedSendsAreSpaced`).
- Recorded messages keep using up the Gmail poll's allowance, so newer messages can wait for ever
  (`Gmail.AllowanceExhausted`); a completed poll gets anywhere if and only if some id it examined had no receipt
  (`Gmail.Connector.PollOnce`).
- A mixed episode does not inherit the weakest admitted trust, as the comment at `collaboration/service.py:50-51` says:
  nothing but the presence of email is inherited (`Collaboration.OnlyEmailIsInherited`), so a rejected or an unqualified
  authenticated transport can complete a fixture-qualified trigger (`Collaboration.WeakerTransportCounts`);
  `Collaboration.InheritsWeakestIff` has the exact condition.
- One signal with an unsafe clock vetoes a correlation even if it is expired and out of window
  (`Correlation.StaleSignalVetoes`); a further signal keeps a strong action if and only if its clock is safe
  (`Correlation.OneMoreSignal`).
- A duplicated block can launder a dirty sample into the analysis (`Governance.DuplicateLaundersReasons`); the analysis is
  clean if and only if no unexcluded dirty sample shares its block with a clean last one (`Governance.AnalysisCleanIff`),
  which the absence of reported duplicates implies (`Governance.CleanAnalysis`).
- The event-time watermark is not durable: reloading resets it to the last accepted event time
  (`Collector.RestartKeepsWatermarkIff`, `Collector.RestartCanLowerWatermark`).
- Equal digests can end up in different evidence families, and repeating an ingest can then conflict
  (`Evidence.BridgeSplitsEqualDigests`). Equal digests share a family if and only if at every arrival all stored copies were
  in the family it was given (`Evidence.DigestsAgreeIff`); repeats are idempotent after every arrival if and only if no
  arrival overtook, in reading order, a stored item of another family (`Evidence.RepeatableIff`), so always when arrivals
  come in reading order (`Evidence.InOrderIsRepeatable`); and families are the connected components if and only if no arrival
  was ambiguous (`Evidence.ComponentsIffUnambiguous`).
- Whether a device capture succeeds depends on how the bytes were chunked (`PhysicalReader.OneLinePerRead`), because at most
  one line is taken per read: `PhysicalReader.CaptureSucceedsIff` says exactly when it does. What a successful capture
  returns does not depend on it (`PhysicalReader.ChunkingDoesNotMatter`).
- Capturing after the scheduled release can make the duty-cycle clamp bite (`FixedRate.LateCaptureIsClamped`). No choice of
  heavy workloads is clamped if and only if all service is at most one millisecond or some release comes no earlier than some
  capture plus the service of everything released before it, a condition on the opportunities alone
  (`FixedRate.FixedClampIff`, `Orchestrated.OrchestratedClampIff`).
- Corruption of two body and two trailer bytes can go unseen by the checksum of any frame
  (`SensorStraddle.SplitWindowEscapes`); of one and three or three and one it cannot (`SensorStraddle.SensorStraddle`).

## Model

| member | source | states |
|---|---|---|
| `Connector.EveryItemHasOneFate` | src/sentinel_edge/collector/connectors.py:92-188 | in every interleaving of any number of producers and drainers with the worker, each enqueued item is exactly one of queued, in the handler, processed, cancelled, or lost in the single call that raised, and processed and cancelled items are subsequences of the enqueue order |
| `Connector.CountersBalance` | src/sentinel_edge/collector/connectors.py:92-188 | the counters never overcount, and with one producer and one drainer they balance exactly against the queue, the handler and the increments still in progress |
| `Connector.AlwaysBalancedIff` | src/sentinel_edge/collector/connectors.py:92-188 | for every limit of at least one and all numbers of threads, the counters balance in every reachable world if and only if there is no producer, or at most one producer and at most one drainer |
| `Connector.LosesNothingIff` | src/sentinel_edge/collector/connectors.py:92-188 | one producer, one drainer, nothing raised, a drain begun and the worker still in its loop: every continuation without a raise that ends in a receipt of a dead thread has accepted = processed + cancelled if and only if the producer is outside submit, or the join already returned on a living thread |
| `Connector.CleanDrainLosesNothing` | src/sentinel_edge/collector/connectors.py:137-188 | in particular, if nobody was inside submit at the flip, such a receipt is stopped and accounts for every enqueued item, and nothing is enqueued or handled afterwards |
| `Connector.ClosedForever` | src/sentinel_edge/collector/connectors.py:92-136 | a closed connector (stopped, worker gone, queue empty, nobody past the state check of submit) stays closed: no continuation enqueues, removes or handles anything |
| `Connector.LateProducerIsStranded` | src/sentinel_edge/collector/connectors.py:93-100 | a reachable run in which the separate check and put strand an accepted item behind a clean-looking receipt |
| `Connector.RaiseDuringDrainReportsStopped` | src/sentinel_edge/collector/connectors.py:128-177 | a reachable run in which a handler exception during a drain loses its item and the receipt still says stopped |
| `Connector.DeadReceiptsSayStopped` | src/sentinel_edge/collector/connectors.py:128-188 | with one drainer every receipt of a dead thread says stopped, in every run |
| `Connector.TwoProducersUndercount` | src/sentinel_edge/collector/connectors.py:100-101 | a reachable run in which the unlocked increment counts two enqueued items as one |
| `Connector.TwoDrainersUndercount` | src/sentinel_edge/collector/connectors.py:155-162 | a reachable run in which two drainers count two cancelled items as one and the receipt falls short |
| `Connector.RunInduction` | src/sentinel_edge/collector/connectors.py:84-188 | whatever every step keeps holds after every run, the principle behind the run theorems |
| `BenchmarkRecords.ProcessedPlusSkipped` | src/sentinel_edge/benchmark/lab.py:162-164 | processed plus skipped equals offered |
| `BenchmarkRecords.MissesCounted` | src/sentinel_edge/benchmark/lab.py:135 | the reported misses are the rows marked as missed |
| `BenchmarkRecords.SamplesInOrder` | src/sentinel_edge/benchmark/lab.py:124-127 | the k-th processed row gives the k-th latency sample and the k-th queueing delay, and there are no others |
| `BenchmarkRecords.MedianIsMiddle` | src/sentinel_edge/benchmark/lab.py:166 | the median is the mean of the samples of ranks (n - 1) / 2 and n / 2, the rank of a sample being told by how many are less and how many at most it |
| `BenchmarkRecords.NoSamples` | src/sentinel_edge/benchmark/lab.py:68-70 | without samples every statistic is zero |
| `BenchmarkRecords.PercentileIsNearestRank` | src/sentinel_edge/benchmark/lab.py:68-73 | the percentile is the nearest rank: at least the fraction p of the samples are at most it and fewer are below it |
| `BenchmarkRecords.PercentileMonotone` | src/sentinel_edge/benchmark/lab.py:68-73 | percentiles are ordered as the fractions naming them |
| `BenchmarkRecords.DominanceLowersStatistics` | src/sentinel_edge/benchmark/lab.py:68-73 | if at every level at least as many samples of one list as of the other are at most that level, its median and every percentile are at most the other's, whatever the orders of the lists |
| `BenchmarkRecords.StatisticsMonotone` | src/sentinel_edge/benchmark/lab.py:68-73 | in particular when the samples are smaller index by index |
| `BenchmarkRecords.Histogram` | src/sentinel_edge/benchmark/lab.py:149-157 | the buckets count the latencies in 0-10, 10-25, 25-50, 50-100, 100-250, 250-500 and 500-1000, lower edges included and upper ones not, overflow counts the rest, and they add up to the number of samples |
| `BenchmarkRecords.SequentialServiceFits` | src/sentinel_edge/benchmark/lab.py:126-134 | services that do not overlap inside an interval add up to at most its length |
| `BenchmarkRecords.HeavyServiceAdds` | src/sentinel_edge/benchmark/lab.py:128-130 | the heavy service of separate sets of workloads adds up, and that of a set with all processed workloads is the total service |
| `BenchmarkRecords.HorizonSpans` | src/sentinel_edge/benchmark/lab.py:131-133 | the horizon reaches from the earliest capture to the latest completion, or to 1 when nothing completed, and is at least 1 |
| `BenchmarkRecords.ProcessedPermutation` | src/sentinel_edge/benchmark/lab.py:124-125 | reordering the records permutes the processed ones |
| `BenchmarkRecords.DutyCycleNeverClamped` | src/sentinel_edge/benchmark/lab.py:128-134 | non-overlapping services none of which starts before the earliest capture never exceed the horizon, so the clamp to one is the identity |
| `BenchmarkRecords.NeverClampedIff` | src/sentinel_edge/benchmark/lab.py:128-134 | for any records with non-negative services, no set of heavy workloads is ever clamped if and only if the total service is at most the horizon |
| `FixedRate.RunFixed` | src/sentinel_edge/benchmark/lab.py:198-208 | succeeds exactly when every opportunity has a service time; then row i, in release order, completes at the latest end over the busy periods up to i, starts its service time earlier, reports its opportunity, and misses its deadline if and only if some busy period j ends after it: release of j plus the demand of j to i is more than release plus deadline of i |
| `FixedRate.CompletionLowerBound` | src/sentinel_edge/benchmark/lab.py:201-205 | every busy period bounds a completion time from below |
| `FixedRate.CompletionAttained` | src/sentinel_edge/benchmark/lab.py:201-205 | some busy period attains it |
| `FixedRate.MaxPlusClosedForm` | src/sentinel_edge/benchmark/lab.py:201-205 | a value is the completion time if and only if it is the maximum over busy periods of release plus demanded service |
| `FixedRate.ClockMonotone` | src/sentinel_edge/benchmark/lab.py:201-205 | completion times are monotone in the service times |
| `FixedRate.FasterServiceDominates` | src/sentinel_edge/benchmark/lab.py:124-135 | if every service time of one variant is at most the other's, so are all completions, total queue delay, deadline misses, median and every percentile |
| `FixedRate.FixedSequential` | src/sentinel_edge/benchmark/lab.py:198-208 | a fixed-rate run serves without overlap, never before release, each for its declared time |
| `FixedRate.FixedDutyCycle` | src/sentinel_edge/benchmark/lab.py:128-134 | a fixed-rate run with non-negative services in which some capture precedes every release is never clamped |
| `FixedRate.FixedClampIff` | src/sentinel_edge/benchmark/lab.py:128-208 | in a fixed-rate run with non-negative services no choice of heavy workloads is clamped if and only if the total demand is at most one or some capture plus the demand in front of some opportunity is at most its release |
| `FixedRate.OnTimeCaptureIsEarly` | src/sentinel_edge/benchmark/lab.py:128-134 | which holds whenever nothing is captured after its scheduled release |
| `FixedRate.LateCaptureIsClamped` | src/sentinel_edge/benchmark/lab.py:131-134 | a capture after its release makes service exceed the horizon, so the hypothesis is needed |
| `FixedRate.PrefixAgrees` | src/sentinel_edge/benchmark/lab.py:198-208 | serving a prefix is a prefix of serving everything |
| `Orchestrated.RunOrchestrated` | src/sentinel_edge/benchmark/lab.py:210-352 | raises at registration exactly when some workload's first opportunity has no positive service time; otherwise it returns the report of the simulated event loop, or its error, for every scheduler policy that dispatches only queued jobs. Every row is about an opportunity: a served one is missed if and only if start plus declared service is more than release plus deadline, a skipped one always is; rows are ordered by start and key; no queue with room for all overflows |
| `Orchestrated.ReportMeans` | src/sentinel_edge/benchmark/lab.py:305-350 | the meaning of the rows, for every run of every legal policy |
| `Orchestrated.StringOrder` | src/sentinel_edge/benchmark/lab.py:314-317 | the key order is the lexicographic one |
| `Orchestrated.RegisterWorkloads` | src/sentinel_edge/benchmark/lab.py:228-243 | succeeds if and only if every workload's first opportunity has a positive service time, registering exactly the workloads offered; otherwise the error tells a missing time from one that is not positive, at the first such opportunity |
| `Orchestrated.SubmitLoop` | src/sentinel_edge/benchmark/lab.py:257-270 | the release loop moves exactly the due arrivals, or raises on a full queue |
| `Orchestrated.SubmitMeans` | src/sentinel_edge/benchmark/lab.py:257-270 | if the first n arrivals and no further one are due, exactly those join the queue, or the release fails because they do not fit |
| `Orchestrated.RoomForAll` | src/sentinel_edge/benchmark/lab.py:257-303 | a queue with room for every opportunity never overflows |
| `Orchestrated.IterateProgress` | src/sentinel_edge/benchmark/lab.py:272-303 | each iteration releases an arrival or disposes of a job, whatever a legal policy replies, so the loop terminates |
| `Orchestrated.SubmitOnTime` | src/sentinel_edge/benchmark/lab.py:257-270 | every submission happens exactly at the scheduled release |
| `Orchestrated.InductiveSimulate` | src/sentinel_edge/benchmark/lab.py:272-303 | what every elementary transition keeps holds when the loop ends |
| `Orchestrated.RunServesExactly` | src/sentinel_edge/benchmark/lab.py:272-303 | for every legal policy each job is served at most once, from no earlier than its release, for exactly its declared time despite splitting, and no two services overlap |
| `Orchestrated.RowsPerKey` | src/sentinel_edge/benchmark/lab.py:305-317 | the number of report rows under any key, duplicates included |
| `Orchestrated.OneRowPerOpportunity` | src/sentinel_edge/benchmark/lab.py:305-317 | with unique keys every opportunity has exactly one row |
| `Orchestrated.OrchestratedDutyCycle` | src/sentinel_edge/benchmark/lab.py:128-134 | the duty cycle of an orchestrated run without late capture is never clamped |
| `Orchestrated.OrchestratedClampIff` | src/sentinel_edge/benchmark/lab.py:128-317 | under every work-conserving policy the same condition on the opportunities decides whether an orchestrated run is ever clamped |
| `Orchestrated.RunsToCompletion` | src/sentinel_edge/benchmark/lab.py:279-284 | under a work-conserving policy the loop never breaks off with jobs queued |
| `Orchestrated.SameMakespan` | src/sentinel_edge/benchmark/lab.py:198-303 | under every work-conserving policy all opportunities are served and the last service ends exactly when it does in the fixed-rate run |
| `Scheduler.DispatchLoop` | src/sentinel_edge/runtime/scheduler.py:137-178 | the pop loop selects, keeps and rejects as the walk over the urgency order says |
| `Scheduler.SchedulerIsLegal` | src/sentinel_edge/runtime/scheduler.py:137-178 | the scheduler dispatches only queued jobs and none twice, so the run theorems apply to it |
| `Scheduler.SchedulerConservesWork` | src/sentinel_edge/runtime/scheduler.py:180-240 | a node with ample memory and no overload always admits a queued job |
| `Scheduler.SelectedIsMostUrgent` | src/sentinel_edge/runtime/scheduler.py:144-240 | if some queued job may run, the selected one may run and is of no later tier and, within its tier, of no later absolute deadline: a job may run on available memory that leaves the reserve of 64 and without overload, with the exceptions its tier and its waiting time allow |
| `Scheduler.DispatchDropsOverdue` | src/sentinel_edge/runtime/scheduler.py:148-235 | whatever a dispatch drops for good has used up its deferral and may not run |
| `Scheduler.LabRunIsSound` | src/sentinel_edge/benchmark/lab.py:217-303 | the run theorems for the scheduler the lab uses |
| `Smtp.Publisher.Publish` | src/sentinel_edge/collaboration/smtp.py:61-76 | expired, suppressed, unencodable, full or accepted, each exactly when, and the new queue |
| `Smtp.Publisher.DrainOnce` | src/sentinel_edge/collaboration/smtp.py:78-101 | empty, not due, expired, dead-lettered, retried or delivered, each exactly when, and the new queue and sent table; when a retry is due is the matter of `Retry.RetriesWait` and `Retry.HeadIsDue` |
| `Smtp.QueueConserves` | src/sentinel_edge/collaboration/smtp.py:61-101 | over every run, whatever the clock readings, accepted = sent + expired + dead-lettered + pending, pending is the tail of what was accepted, sends are in acceptance order and before expiry, at most the attempt limit of sender calls per signal, queued pairs distinct |
| `Smtp.RepeatedSendsAreSpaced` | src/sentinel_edge/collaboration/smtp.py:61-101 | over every run with a non-decreasing clock, consecutive sends of one episode with one fingerprint are at least the minimum interval apart |
| `Smtp.DueDrainLowersPotential` | src/sentinel_edge/collaboration/smtp.py:78-101 | a drain of a due head strictly lowers the attempts left, and any other drain leaves the queue as it was |
| `Smtp.BackoffGrows` | src/sentinel_edge/collaboration/smtp.py:90-101 | the delay never shrinks as failures accumulate and never exceeds its cap |
| `Retry.RetriesWait` | src/sentinel_edge/collaboration/smtp.py:90-98 | over every run with jitter draws between 0 and 1 and non-negative backoffs: after the k-th sender call for a signal, if another one follows, the k-th failed and the next comes at least min(maximum backoff, initial backoff times 2^(k-1)) later |
| `Retry.HeadIsDue` | src/sentinel_edge/collaboration/smtp.py:82-98 | over every such run: a head that failed k times is not due before that wait and is due once 1.1 times the wait has passed; a head not tried yet is due from the moment it was queued |
| `Retry.AttemptsByFate` | src/sentinel_edge/collaboration/smtp.py:84-101 | over every run: a dead letter was tried exactly as often as allowed, at least once; an expired signal never or less often than allowed; a sent one at most as often |
| `Smtp.SendableAtOnceIff` | src/sentinel_edge/collaboration/smtp.py:61-101 | any list of updates of any episodes can be sent at one instant, by some run whose clock never goes back, if and only if none has expired and none repeats the previous one of its episode |
| `Smtp.AlternatingUpdatesEscape` | src/sentinel_edge/collaboration/smtp.py:61-101 | for every n, n updates of one episode with alternating contents can be sent at one instant |
| `Gmail.RecordedNeverEmittedAgain` | src/sentinel_edge/collaboration/gmail.py:58-72 | over every run with crashes anywhere, no message or signal named by a saved receipt file is emitted later, and every completed poll has accepted + rejected + duplicate = examined |
| `Gmail.EmissionsExactly` | src/sentinel_edge/collaboration/gmail.py:107-160 | a signal is emitted exactly once more than the crashes and sink exceptions that fell between an emission and its receipt reaching the file, or as often as those when the last emission was lost |
| `Gmail.EmittedIsAcceptable` | src/sentinel_edge/collaboration/gmail.py:121-150 | over every run with crashes and failures anywhere, every signal emitted came with a message fetched after a listing and was acceptable at the time of that listing |
| `Signals.AcceptedIff` | src/sentinel_edge/collaboration/wire.py:87-110 | a signal is accepted if and only if its id is unseen, its version is "1.0", it is unexpired and not replayed, its observation is one of those listed for its hazard, and its domain is unknown or of a kind of its hazard behind a transport neither unknown nor rejected; with the first caveat that applies |
| `Signals.RefusedBecause` | src/sentinel_edge/collaboration/wire.py:87-110 | a refusal names the first requirement that fails |
| `Gmail.AllowanceExhausted` | src/sentinel_edge/collaboration/gmail.py:116-128 | as long as the first max_inflight ids of every listing have receipts, any number of polls emits nothing and changes no receipt, whatever the environment answers and even across crashes |
| `Gmail.PendingSmallest` | src/sentinel_edge/collaboration/gmail.py:116-119 | a poll examines as many of the listed ids as the allowance permits, and none left out is smaller than one examined |
| `Gmail.Connector.constructor` | src/sentinel_edge/collaboration/gmail.py:39-50 | a starting process knows exactly what the file holds |
| `Gmail.Connector.Record` | src/sentinel_edge/collaboration/gmail.py:58-72 | memory gains the receipt even when the write fails, the file only when it succeeds |
| `Gmail.Connector.Handle` | src/sentinel_edge/collaboration/gmail.py:121-159 | handling one message is a run of the transition system, for every combination of answers |
| `Gmail.Connector.PollOnce` | src/sentinel_edge/collaboration/gmail.py:107-160 | a poll is a run of the transition system; when it completes, accepted + rejected is the number of messages new to the store and is positive if and only if some id examined had no receipt, every examined message has a receipt, the envelopes carry distinct new signals, and the cursor is the largest new id. When every call returns it completes, and it emits and returns, in order, exactly the new messages that decode to an acceptable signal neither recorded nor accepted earlier in the poll |
| `Correlation.ValidateSignal` | src/sentinel_edge/collaboration/policy.py:81-106 | the reasons against a signal, in the order the policy lists them |
| `Correlation.ReasonsMeaning` | src/sentinel_edge/collaboration/policy.py:138-158 | no reasons if and only if the signal is eligible, none but the clock if and only if it is relevant |
| `Correlation.Sift` | src/sentinel_edge/collaboration/policy.py:138-158 | accepted, rejected and peer candidates are exactly the eligible, ineligible and relevant signals in order |
| `Correlation.EvaluateCorrelation` | src/sentinel_edge/collaboration/policy.py:114-214 | the loop computes that decision, window, ids, incident and reason lists included, and refuses the empty list |
| `Correlation.DecisionMeans` | src/sentinel_edge/collaboration/policy.py:114-214 | every decision in the fields of the signals: an unknown domain gives context only, no agreement gives no action; agreement gives an email transport the policy's email action, a fixture its fixture action, an authenticated peer a review incident, a rejected or unknown one nothing, each with its reason; agreement is enough different peers on the anchor's hazard, domain and window, current and of admitted kind and observation, and every clock within its hazard's limit |
| `Correlation.TriggerIsGranted` | src/sentinel_edge/collaboration/policy.py:170-189 | the simulated trigger fires only on agreement behind a fixture or email transport whose own policy action it is |
| `Correlation.StrongIff` | src/sentinel_edge/collaboration/policy.py:170-189 | an action beyond context if and only if the domain is known, enough different peers are relevant, every signal is clock-safe and the transport is granted that much |
| `Correlation.StrongActionIsBacked` | src/sentinel_edge/collaboration/policy.py:138-189 | then the counted peers are exactly those of the accepted signals, at least the minimum in number, and each accepted signal shares the key, is in window, unexpired, not replayed and clock-safe |
| `Correlation.OrderDoesNotDecide` | src/sentinel_edge/collaboration/policy.py:127-189 | permuting the signals behind the anchor changes neither action, peer count nor incident |
| `Correlation.OneMoreSignal` | src/sentinel_edge/collaboration/policy.py:160-189 | a further signal never lowers the peer count; it keeps a strong action if and only if its clock is safe |
| `Correlation.StaleSignalVetoes` | src/sentinel_edge/collaboration/policy.py:138-189 | a triggering pair undone by a third signal that is expired and out of window, under the released earthquake policy |
| `Correlation.QuietIsExplained` | src/sentinel_edge/collaboration/policy.py:160-189 | a missing action carries a blocking reason that says why, and the peer and clock reasons appear exactly when they apply |
| `Collaboration.Repository.AddEnvelope` | src/sentinel_edge/collaboration/repository.py:22-30 | refuses exactly the stored ids, keeps the newest up to the bound, pops an empty queue exactly when the bound is below one, and keeps ids and queue in step |
| `Collaboration.Repository.AddDecision` | src/sentinel_edge/collaboration/repository.py:32-35 | keeps the newest decisions up to the bound |
| `Collaboration.Repository.PurgeExpired` | src/sentinel_edge/collaboration/repository.py:52-58 | keeps exactly the unexpired envelopes in order and reports how many left |
| `Collaboration.Judge` | src/sentinel_edge/collaboration/service.py:44-61 | from the stored episode to the specified decision |
| `Collaboration.DecideMeans` | src/sentinel_edge/collaboration/service.py:44-61 | context-only input never goes beyond context and keeps its reasons; any other decision is the one called for by the admitted signals on the hazard and domain of the new one, or by it alone, behind email as soon as the store holds one there and behind its own transport otherwise |
| `Collaboration.Service.Conclude` | src/sentinel_edge/collaboration/service.py:63-67 | the writer is called exactly for a review incident, an update or the simulated trigger, when there is one; if it raises nothing is logged, otherwise the decision is logged with a non-empty answer as its incident |
| `Collaboration.Service.Ingest` | src/sentinel_edge/collaboration/service.py:31-71 | every branch of an ingest: refused, duplicate, stored and decided and written and logged; an error of the writer or of the decision log comes after the envelope was stored and the writer called, any other leaves everything as it was |
| `Collaboration.Service.IngestInRun` | src/sentinel_edge/collaboration/service.py:31-71 | with a writer, an ingest moves store and writes as one step of the run of the theorems below |
| `Collaboration.Service.PurgeInRun` | src/sentinel_edge/collaboration/repository.py:52-58 | and so does a purge |
| `Collaboration.EmailCapsAction` | src/sentinel_edge/collaboration/service.py:49-54 | while the episode holds an email envelope the action is none, context or the policy's email action |
| `Collaboration.StrongDecisionIsBacked` | src/sentinel_edge/collaboration/service.py:44-66 | what reaches the incident writer comes from an admitted envelope, rests on enough different peers with admitted contributions in the window of the oldest one, and is an action its transports allow |
| `Collaboration.EveryWriteIsBacked` | src/sentinel_edge/collaboration/service.py:31-71 | over any run of ingests and purges the store holds no id twice and stays within its bound, and every decision ever written came from an admitted envelope, rested on at least the minimum number of different peers contributing at that moment, and was the policy's email action if the store held an email on its key, its fixture action behind a fixture, a review incident behind an authenticated peer, and nothing else |
| `Collaboration.StoreIsNewest` | src/sentinel_edge/collaboration/repository.py:22-30 | without purges the store is the newest capacity-many of everything stored, so an evicted id is accepted again |
| `Collaboration.OnlyEmailIsInherited` | src/sentinel_edge/collaboration/service.py:49-54 | two episodes that differ only in transports, with the same newest transport and agreeing on the presence of email, get the same decision |
| `Collaboration.InheritsWeakestIff` | src/sentinel_edge/collaboration/service.py:49-53 | ranking transports by what the policy grants them, the trust used is the weakest admitted one if and only if, with email present, no admitted envelope is rejected, and without, none is weaker than the newest |
| `Collaboration.WeakerTransportCounts` | src/sentinel_edge/collaboration/service.py:44-54 | any admitted transport but email, rejected or authenticated included, completes a fixture-qualified episode, and the weakest trust is then not inherited |
| `ShiftRegister.WindowChangesRegister` | src/sentinel_edge/collector/sensor_protocol.py:30-34 | for every linear injective shift register, streams that differ only within four bytes leave different registers |
| `SensorFrame.ShiftInjective` | src/sentinel_edge/collector/sensor_protocol.py:30-34 | one step of the CRC loses nothing, because the reflected polynomial has its top bit set |
| `SensorFrame.WindowChangesCrc` | src/sentinel_edge/collector/sensor_protocol.py:30-34 | CRC-32 sees every change confined to four consecutive bytes |
| `SensorFrame.KnownAnswer` | src/sentinel_edge/collector/sensor_protocol.py:30-34 | the modelled checksum of one byte is the value the standard algorithm gives |
| `SensorFrame.KnownAnswerOfTwo` | src/sentinel_edge/collector/sensor_protocol.py:30-34 | and of two bytes, in their order |
| `SensorFrame.SensorEncodes` | src/sentinel_edge/collector/sensor_protocol.py:24-34 | encoding refuses an unsupported version, a payload that is not finite JSON and an empty or too long body; otherwise the frame is the letters SE, the number 1, the length and the body, and the checksum of all that, numbers highest byte first |
| `SensorFrame.SensorDecodes` | src/sentinel_edge/collector/sensor_protocol.py:37-64 | decoding checks bound, size, magic, version, length and checksum in this order, then the body, each rejection exactly when |
| `SensorFrame.TrailerMatches` | src/sentinel_edge/collector/sensor_protocol.py:55-57 | comparing unpacked checksums is comparing trailer bytes |
| `Framing.RoundTrip` | src/sentinel_edge/collector/sensor_protocol.py:24-64 | over any lawful format, decoding undoes encoding if and only if the body is within the decoder's bound |
| `Framing.PrefixFree` | src/sentinel_edge/collector/sensor_protocol.py:37-64 | no accepted frame is a proper prefix of another |
| `Framing.StreamsSplitUniquely` | src/sentinel_edge/collector/sensor_protocol.py:37-64 | concatenated accepted frames can be split in only one way |
| `Framing.WindowDetected` | src/sentinel_edge/collector/sensor_protocol.py:37-64 | accepted frames that agree outside four consecutive covered bytes are equal |
| `Framing.SingleByteDetected` | src/sentinel_edge/collector/sensor_protocol.py:37-64 | replacing any one byte of an accepted frame makes every decoder reject it |
| `SensorFrame.SensorRoundTrip` | src/sentinel_edge/collector/sensor_protocol.py:24-64 | the round trip for the sensor format |
| `SensorFrame.SensorSingleByte` | src/sentinel_edge/collector/sensor_protocol.py:37-64 | any single-byte substitution in a sensor frame, header and trailer included, is rejected |
| `SensorFrame.SensorWindow` | src/sentinel_edge/collector/sensor_protocol.py:37-64 | any corruption within four consecutive covered bytes is rejected |
| `Framing.StraddleDetected` | src/sentinel_edge/collector/sensor_protocol.py:37-64 | over any format whose last trailer bytes show the last covered ones, accepted frames that agree outside a window across the boundary are equal |
| `SensorStraddle.SensorStraddle` | src/sentinel_edge/collector/sensor_protocol.py:37-64 | corruption confined to one covered and three trailer bytes, or three and one, is rejected |
| `SensorStraddle.SplitWindowEscapes` | src/sentinel_edge/collector/sensor_protocol.py:37-57 | every well-formed frame with two body bytes or more has another that differs only in two covered and two trailer bytes |
| `AuditChain.CheckContiguous` | src/sentinel_edge/audit/checkpoints.py:41-44 | accepts exactly the positions 1, 2, ..., n |
| `AuditChain.ContiguousIff` | src/sentinel_edge/audit/checkpoints.py:38-44 | sorted positions are 1, 2, ..., n if and only if each of them is taken by some entry |
| `AuditChain.ChainLoop` | src/sentinel_edge/audit/checkpoints.py:45-52 | root and transcript of the chain |
| `AuditChain.AuthorityChain` | src/sentinel_edge/audit/checkpoints.py:37-52 | raises exactly on an empty journal or one that leaves a position out; otherwise link i holds the row of the entry at position i with the digest of its payload, the digest before it (64 zeros at the start) and the digest of both, and the last digest is the root |
| `AuditChain.CreateMeans` | src/sentinel_edge/audit/checkpoints.py:149-176 | a checkpoint exists exactly for a journal that chains, and holds its length as head and count, its root and its transcript's digest |
| `AuditChain.VerifyChain` | src/sentinel_edge/audit/checkpoints.py:214-229 | for every presented sequence: the prefix checked holds the entries up to the head, and a failure is reported for its being empty or gapped, or else for its length, its root and its transcript, each exactly when it differs; valid means none |
| `AuditChain.SameRootSameJournal` | src/sentinel_edge/audit/checkpoints.py:27-52 | equal roots mean equal journals, length included, or hashing exhibits a collision |
| `AuditChain.SortRecovers` | src/sentinel_edge/audit/checkpoints.py:216-217 | sorting any arrangement of a contiguous journal recovers it |
| `AuditChain.CheckpointSurvivesExtension` | src/sentinel_edge/audit/checkpoints.py:150-152 | the chain check passes on every contiguous extension in any order |
| `AuditChain.PassingCheckMeansSameJournal` | src/sentinel_edge/audit/checkpoints.py:214-229 | conversely, whatever passes has, up to the head, exactly the checkpointed journal, or a collision |
| `Governance.AlternationFailures` | src/sentinel_edge/benchmark/governance.py:214-227 | a duplicate if and only if two unexcluded samples share a block, a violation on a block if and only if an unexcluded sample there is not B0, B1 or O1 as the block is 0, 1 or 2 modulo 3, a gap if and only if an unused block lies between two used ones; no failure if and only if none of these |
| `Governance.PlannedOrder` | src/sentinel_edge/benchmark/governance.py:214-227 | the order B0, B1, O1, B0, ... from block 0 on has no failure at any length |
| `Governance.HasGap` | src/sentinel_edge/benchmark/governance.py:225-226 | finds a gap if and only if some index between first and last is unused |
| `Governance.BalancedVariants` | src/sentinel_edge/benchmark/governance.py:214-227 | without failures the unexcluded counts of any two variants differ by at most one |
| `Governance.SelectActive` | src/sentinel_edge/benchmark/governance.py:269-311 | the invalidation and selection loops compute the specified analysed samples |
| `Governance.AnalysedInOrder` | src/sentinel_edge/benchmark/governance.py:311 | the analysed samples keep the order of the record |
| `Governance.AnalysedSamplesAreClean` | src/sentinel_edge/benchmark/governance.py:269-311 | without duplicate blocks every analysed sample is unexcluded and free of its own reasons, despite per-index overwriting |
| `Governance.CleanSampleAnalysedIff` | src/sentinel_edge/benchmark/governance.py:269-311 | without duplicate blocks a clean sample is analysed if and only if no later excluded sample shares its index |
| `Governance.AnalysedIff` | src/sentinel_edge/benchmark/governance.py:269-311 | a sample is analysed if and only if it is unexcluded and nothing speaks against the last sample on its block |
| `Governance.SpotlessIff` | src/sentinel_edge/benchmark/governance.py:272-281 | a sample has no reasons if and only if nothing was declared, its quality guardrail did not fail, and its platform shows no undervoltage, capping, throttling or swap, and faults and memory pressure within the limits |
| `Governance.AnalysisCleanIff` | src/sentinel_edge/benchmark/governance.py:269-311 | all analysed samples are clean if and only if no unexcluded sample with reasons shares its block with a last one without |
| `Governance.DuplicateLaundersReasons` | src/sentinel_edge/benchmark/governance.py:282-311 | a dirty sample analysed because a clean one overwrote its entry |
| `Governance.CleanAnalysis` | src/sentinel_edge/benchmark/governance.py:268-311 | an analysis without duplicate, alternation or gap failure is clean and balanced |
| `Governance.PairUp` | src/sentinel_edge/benchmark/governance.py:312-315 | a pair has a variant if and only if an analysed sample ran it, and then holds the last one; the complete pairs are those with all variants |
| `Governance.ResampleMean` | src/sentinel_edge/benchmark/governance.py:205-206 | the mean of the drawn values, between any bounds of the values |
| `Governance.BootstrapInterval` | src/sentinel_edge/benchmark/governance.py:198-211 | the ends are means of resamples in order: in front of the low one lie as many means as the lower tail of the confidence holds, rounded down, in front of the high one one less than what is below the upper tail, rounded up; the interval is within the range of the values, and degenerate for none or one |
| `Governance.IndicesOrdered` | src/sentinel_edge/benchmark/governance.py:208-210 | the low index never exceeds the high one for the tails a plan allows |
| `Governance.IndicesAreCuts` | src/sentinel_edge/benchmark/governance.py:207-209 | the indices are the tail fractions of the number of means, rounded down and up, without any clamping |
| `Collector.AppendHolds` | src/sentinel_edge/collector/service.py:53-57 | the ring buffer holds the newest observations and counts the dropped ones |
| `Collector.StreamingSourceCollector.constructor` | src/sentinel_edge/collector/service.py:73-80 | a new process starts from the durable cursors, with each watermark at the last event time |
| `Collector.StreamingSourceCollector.ConfigureSource` | src/sentinel_edge/collector/service.py:81-94 | only the bound of that source changes |
| `Collector.StreamingSourceCollector.Judge` | src/sentinel_edge/collector/service.py:98-140 | the health state and reasons the checks arrive at |
| `Collector.OutcomeMeans` | src/sentinel_edge/collector/service.py:98-142 | each refusal comes from the first check that fails: replayed, invalid, not later in its boot and epoch, older than the last event by more than the bound (0 when none is configured), implausible, no capacity |
| `Collector.IngestMeans` | src/sentinel_edge/collector/service.py:112-163 | what acceptance changes, field by field, and what refusing a late event changes; nothing else changes anything |
| `Collector.StreamingSourceCollector.Ingest` | src/sentinel_edge/collector/service.py:98-163 | accepted if and only if live, valid, later in its boot and epoch or of another one, not older than the last event by more than the bound, plausible and with capacity; the new cursor, row and buffer, state and reasons included |
| `Collector.StreamingSourceCollector.MarkStale` | src/sentinel_edge/collector/service.py:168-176 | exactly the timed-out sources become stale |
| `Collector.StreamingSourceCollector.MarkFailed` | src/sentinel_edge/collector/service.py:178-192 | only the named source fails, its cursor unchanged |
| `Collector.StaleMeans` | src/sentinel_edge/collector/service.py:168-176 | marking stale in any order ages exactly the listed timed-out sources and moves no cursor |
| `Collector.StaleStored` | src/sentinel_edge/collector/service.py:168-176 | a timed-out source is stored as stale with its cursor, and every other row stays |
| `Collector.AcceptedEventsDriftAtMost` | src/sentinel_edge/collector/service.py:98-163 | over every run, restarts included, an event accepted k steps after one at t is at or after t minus k times the bound, and sequences strictly increase along every unbroken boot and epoch stretch |
| `Collector.DriftIsAttained` | src/sentinel_edge/collector/service.py:98-163 | for every bound and every k some run accepts, k steps after an event, one exactly k times the bound earlier |
| `Collector.WatermarkIsMaximum` | src/sentinel_edge/collector/service.py:98-163 | without restarts the watermark is the maximum accepted event time and the buffer holds the newest observations |
| `Collector.RestartKeepsWatermarkIff` | src/sentinel_edge/storage/sqlite_store.py:1435-1452 | a restart keeps the watermark if and only if the last accepted event was at it |
| `Collector.RestartCanLowerWatermark` | src/sentinel_edge/storage/sqlite_store.py:1435-1452 | a reachable run in which it moves back |
| `Collector.RejectedIngestKeepsCursor` | src/sentinel_edge/collector/service.py:98-140 | every rejected ingest leaves cursor, watermark, buffers and configuration of every source unchanged |
| `Evidence.AssignFamily` | src/sentinel_edge/evidence/service.py:101-113 | the loop returns the family of the first stored item of the incident that resembles the new one, or the one named by the seed |
| `Evidence.MatchIff` | src/sentinel_edge/evidence/service.py:101-108 | items match if and only if they have the same content, the same non-empty hash, origins alike up to case and surrounding white space, or one is the other's parent |
| `Evidence.NormalIff` | src/sentinel_edge/evidence/service.py:106 | what alike origins are: after trimming exactly the white space at both ends, the same letters up to case |
| `Evidence.SeedMeans` | src/sentinel_edge/evidence/service.py:73-81 | a new family is named after the parent, else the non-empty hash, else the origin up to case and white space, else the content |
| `Evidence.EvidenceStore.Ingest` | src/sentinel_edge/evidence/service.py:89-127 | the new store and the result: refused, recorded, or an identity conflict exactly when the stored row differs |
| `Evidence.FamiliesAreConnected` | src/sentinel_edge/evidence/service.py:73-114 | in every reachable store ids are distinct and any two items of one family are connected through matches or common parents |
| `Evidence.NoFewerFamilies` | src/sentinel_edge/evidence/service.py:101-114 | no incident ever has fewer families than connected components |
| `Evidence.ComponentsIffUnambiguous` | src/sentinel_edge/evidence/service.py:101-114 | the families are exactly the components if and only if every arrival was linked only to items of the family it was given |
| `Evidence.DigestsAfterIngest` | src/sentinel_edge/evidence/service.py:101-114 | an ingest keeps equal digests in one family if and only if every stored copy is in the family the new item gets |
| `Evidence.DigestsAgreeIff` | src/sentinel_edge/evidence/service.py:101-114 | equal digests share a family in a reachable store if and only if that held at every arrival |
| `Evidence.RepeatableAfterIngest` | src/sentinel_edge/evidence/service.py:101-127 | when every repeat finds its family, a new arrival keeps that so if and only if it overtakes no stored item of another family |
| `Evidence.RepeatableIff` | src/sentinel_edge/evidence/service.py:101-127 | repeating an ingest is idempotent after every arrival if and only if no arrival overtook an item of another family |
| `Evidence.StoreInOrder` | src/sentinel_edge/evidence/service.py:101 | the store is read by reception time, then by id |
| `Evidence.InOrderIsRepeatable` | src/sentinel_edge/evidence/service.py:101-127 | arrivals in reading order are always idempotent, ambiguous or not |
| `Evidence.ReingestKeepsFamily` | src/sentinel_edge/evidence/service.py:101-127 | and so are unambiguous arrivals in any order |
| `Evidence.BridgeSplitsEqualDigests` | src/sentinel_edge/evidence/service.py:101-114 | a reachable store with equal digests in different families, in which repeating an ingest conflicts |
| `Evidence.GroupByFamily` | src/sentinel_edge/evidence/service.py:241-246 | the groups partition the rows with order and multiplicity, none empty |
| `EvidenceLifecycle.LifecycleService.Transition` | src/sentinel_edge/evidence/service.py:135-187 | each error in its order, or the move of that one item to the next version: redaction only from availability, expiry and loss only from a usable state, deletion from any but deletion, expiry only when the rights are over |
| `EvidenceLifecycle.LifecycleService.EnforceRightsExpiry` | src/sentinel_edge/evidence/service.py:205-230 | exactly the overdue usable items expire, none raises, and none is left |
| `EvidenceLifecycle.MovesAreBounded` | src/sentinel_edge/evidence/service.py:27-48 | over any requests an item moves at most three times from availability, twice when redacted or known by its metadata, never when deleted and once otherwise, and never becomes usable again |
| `EvidenceLifecycle.MovesAreAttained` | src/sentinel_edge/evidence/service.py:27-48 | some requests move it exactly that often |
| `EvidenceLifecycle.VersionCountsMoves` | src/sentinel_edge/evidence/service.py:148-187 | the version counts the successful transitions |
| `EvidenceLifecycle.OneWinnerPerVersion` | src/sentinel_edge/evidence/service.py:148-150 | of all requests against one version at most one succeeds |
| `EvidenceLifecycle.ClaimReconciliation` | src/sentinel_edge/evidence/service.py:267-287 | the counts of active supporting, active contradicting and invalidated links |
| `EvidenceLifecycle.ReconciledMeans` | src/sentinel_edge/evidence/service.py:267-287 | the counts are the numbers of supporting and contradicting links to usable evidence with rights, and of all links to other evidence |
| `EvidenceLifecycle.InvalidationIsMonotone` | src/sentinel_edge/evidence/service.py:267-287 | as time passes and transitions happen no active count grows and no invalidated link returns |
| `PhysicalReader.CaptureLoop` | src/sentinel_edge/collector/physical.py:47-86 | the read loop computes the specified capture for every sequence of reads, failures included |
| `PhysicalReader.LineEnds` | src/sentinel_edge/collector/physical.py:106-119 | the bytes up to a newline are a line without the white space at its ends, or none if there is nothing else |
| `PhysicalReader.NoLineYet` | src/sentinel_edge/collector/physical.py:106-111 | without a newline there is no line |
| `PhysicalReader.CaptureFails` | src/sentinel_edge/collector/physical.py:55-83 | a failed capture names its reason: bounds, or after rounds with data a timeout, an error, an end or too many bytes, or a line that does not parse |
| `PhysicalReader.CaptureReturnsFirstLines` | src/sentinel_edge/collector/physical.py:66-127 | a successful capture returns the parses of the first max_samples non-blank lines of the stream |
| `PhysicalReader.ChunkingDoesNotMatter` | src/sentinel_edge/collector/physical.py:66-127 | two successful captures of one stream return the same samples, however it was chunked and whatever their byte bounds |
| `PhysicalReader.OneLinePerRead` | src/sentinel_edge/collector/physical.py:66-79 | the same bytes in two chunks and in one: the first capture succeeds, the second does not |
| `PhysicalReader.CaptureSucceedsIff` | src/sentinel_edge/collector/physical.py:66-127 | a capture succeeds if and only if its bounds are positive, the first max_samples non-blank lines delivered all parse, and at some read the lines passed, one per read, contain that many before any buffer exceeded its bound |
| `PhysicalReader.TakenClosedForm` | src/sentinel_edge/collector/physical.py:106-119 | the newlines passed after r reads are the minimum over s of those delivered by read s plus r - s |
| `PhysicalReader.NewlinesCounted` | src/sentinel_edge/collector/physical.py:106-113 | the newlines counted are the bytes 10 |
| `PhysicalReader.OneLinePerChunkSucceedsIff` | src/sentinel_edge/collector/physical.py:66-127 | with at most one newline per chunk and room for everything delivered, a capture succeeds if and only if enough lines were delivered and the first of them parse |

## Left out

- The connector and the Gmail receiver's crashes are transition systems on values rather than objects with threads; the
  Gmail poll loop is also a class whose methods are shown to be runs of that system. A timed-out join is a step that may
  happen at any time.
- Floating point: metrics, backoff and bootstrap use reals or integers, so rounding is not modelled.
- Text outside ASCII: stripping and lower-casing of origin keys and device lines are the ASCII ones; device lines also strip
  only ASCII blanks. Ids sort by an abstract order.
- `Evidence.EvidenceStore.Ingest`: the consent and incident checks in front of it, and the artifact catalogue, are one
  boolean; evidence rows are read back in the order of reception time and id.
- `EvidenceLifecycle.LifecycleService.Transition`: artifact deletion, its proof and the reevaluation record written after it
  are not part of the state.
- `Correlation.EvaluateCorrelation`: the decision id (a hash over the sorted signal ids), the policy version and the creation
  time are not part of the decision.
- `Collaboration.Service.Ingest`: metrics are not modelled.
- `Collector.StreamingSourceCollector.ConfigureSource`: of the immutable configuration only the lateness bound is modelled,
  not kind and location, whose validators are one-branch checks.
- `Gmail.Connector.PollOnce`: label contents and the reason codes of rejected messages are not modelled, only whether each
  call returns. A rejected label is not
  stable, since the next poll relabels every message that has a receipt. A failing `list_messages` is a poll that never
  starts.
- `Orchestrated.RunOrchestrated`: stage latencies, hazard quality rows and the decision counter are left out.
- `Scheduler.DispatchLoop`: jobs already running and forced scans do not occur in the lab and are left out, as are overload
  declarations.
- `Smtp.Publisher.DrainOnce`: a queued email mutated in place is a replaced element of the queue; MIME encoding is left out.
- Queued email objects, ring buffers and heaps are sequences; aliasing between them and their callers is not captured.
- Per-family duplicate counters, trust snapshots, graph digests and the policy file loader: one-step computations.
- Authenticated sensor frames, Ed25519 signatures, key registries and the non-chain parts of checkpoint verification.
- The analysis report's deltas, plan signature checks and identity checks of `benchmark/governance.py`.
- The SQLite stores beyond the map or sequence they provide, the camera reader, the gateway, the clients and the scripts.
