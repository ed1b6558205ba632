# Verified model of the discovery agent and its cloud protocols

This project models, in Dafny, the parts of the print-management system whose correctness depends on
state that outlives a single call: the agent's continuous discovery sweep and the scheduler around it,
the offline delivery queue, the SNMP client, four small concurrent protocols of the cloud (toner alerts,
the EWS proxy over several replicas, automatic incidents, the merge of duplicate devices), and two codecs
(IPP attributes and localised counters).

Three patterns recur.

* **Sequential code that updates fields** is a class. Each method's `ensures` equates the new state with a
  function of the old one, and the promises are proved about that function.
* **Protocols** are state machines: a `datatype Event` with one constructor per atomic effect (an SQL
  statement, a turn of the event loop, a message, a crash), a total `Step`, and theorems about `Run` for
  every event sequence. Whatever the model cannot see (the network, the clock, the order of turns, which
  statement fails) is an argument of an event, so the theorems hold for every choice of it.
* **Fast forms** (range-by-range cursor arithmetic, batched GETs) are loops proved equal to the simple
  meaning (a position on one line, one GET per OID).

Where a result is worded through a definition of the model (what an alert's band is, which device is the
oldest, which alerts a rule takes, what a range declares), another states it on the raw numbers and columns.

The modules, in reading order:

| module | what it holds |
|---|---|
| `DiscoveryCursor` | the declared address space as one line; cursor moves, chunk plans, whole laps |
| `ScanService` | one chunk at a time over the persisted `scan_state` row, with restarts, range edits and crashes |
| `WorkerPool`, `PinnedHosts`, `Backpressure`, `TaskScheduler` | cooperating workers, the host rotation, the size of the queue, who runs when |
| `DeliveryQueue`, `ReadingDedupe` | at-least-once upload with a deduplicating server; which readings are worth sending |
| `SnmpClient` | batched GET with a cache, credential negotiation |
| `AlertBands`, `EwsProxy`, `Incidents`, `DeviceDedupe` | the cloud protocols |
| `Ipp`, `FsNum` | the codecs |

## Where the code does less than its documentation says

Each of these is a theorem with the exact condition, or a concrete run.

* With empty ranges at the end of the list, a plan that takes the last address does not report reaching
  the end, while the cursor move closes the lap; and a plan for no addresses reports it anywhere
  (`DiscoveryCursor.TrailingEmptyRangeDisagrees`; exact condition in `DiscoveryCursor.EndAgreesIff`).
* A reading whose processing throws on the server is lost for good: the server answers with success, and
  the agent marks and purges the row (`DeliveryQueue.FailedProcessingLosesTheReading`; exact condition in
  `DeliveryQueue.LostIff`).
* The four-hour dedupe window is measured from a stored time that keeps whole seconds, so it can be up
  to 999 ms short (`ReadingDedupe.WindowCanBeShort`, `ReadingDedupe.UnchangedIsSentIff`). Two different
  alert lists can have the same key if a code or description contains a vertical bar
  (`ReadingDedupe.PipesCollide`, `ReadingDedupe.PipeHasTwin`), and otherwise cannot
  (`ReadingDedupe.KeyIsExact`).
* The IPP end tag 0x03 is skipped like a group delimiter, so the search goes on into whatever follows the
  message (`Ipp.EndTagIsSkipped`).
* A counter grouped by thousands without a decimal mark is read correctly below a million and nowhere
  else, with a comma or a point (`FsNum.PrintedWhole`).
* If an evaluation fails right between opening one toner alert and resolving the other, and the other was
  open, both stay open (`AlertBands.LostResolveLeavesBoth`; exact condition in `AlertBands.CutLeavesBothIff`).
* An alert can get into two open automatic incidents: a person links it to a second one, gives its incident
  another class, or a device merge moves it (`Incidents.LinkByHandPutsInTwo`,
  `Incidents.ReclassifyingPutsInTwo`, `Incidents.MergingPutsInTwo`); nothing else puts it there
  (`Incidents.OneIncidentIfHandsOff`).
* The worker can close an incident over an open alert that a person links to it between the worker's look
  and its UPDATE (`Incidents.LateLinkIsClosedOver`), and only then (`Incidents.ClosesOverLateLinksOnly`).
* An alert of a device without a client stays eligible for ever under a global rule for a class that no
  client has a rule for, because the incident row needs a client; those are the only alerts a tick leaves
  (`Incidents.LeftToOpen`, `Incidents.OwnRuleComesFirst`).
* A client's own rule takes precedence when incidents are opened, but a global rule that auto-closes
  closes the stale incidents of every client (contract of `Incidents.IncidentWorker.AutoCloseResolved`).

## Model

| member | source | states |
|---|---|---|
| DiscoveryCursor.ToIpInverts | agent/src/core/DiscoveryCursor.ts:50-51 | every number below 2^32 survives the trip through four octets |
| DiscoveryCursor.ToIntInverts | agent/src/core/DiscoveryCursor.ts:50-51 | every address survives the trip through its number, which is below 2^32 |
| DiscoveryCursor.SpaceHolds | agent/src/core/DiscoveryCursor.ts:50-62 | the declared space holds an address for a range if and only if it lies between the ends of that range, octet by octet |
| DiscoveryCursor.SpaceAscends | agent/src/core/DiscoveryCursor.ts:50-62 | the declared space is in strictly ascending order, range after range, and holds nothing twice |
| DiscoveryCursor.PositionInSpace | agent/src/core/DiscoveryCursor.ts:54-85 | any cursor, even a corrupt one, stands for a place in the declared space; one at an address stands strictly inside it |
| DiscoveryCursor.PositionIs | agent/src/core/DiscoveryCursor.ts:79-85 | where a saved cursor stands: one past its range at the next range, a corrupt one at the start |
| DiscoveryCursor.CursorPointsAt | agent/src/core/DiscoveryCursor.ts:79-85 | the address there is `offset` places behind the start of the cursor's range |
| DiscoveryCursor.CanonicalIsUnique | agent/src/core/DiscoveryCursor.ts:79-85 | two cursors that point at addresses and stand for the same place are the same |
| DiscoveryCursor.CursorAt | agent/src/core/DiscoveryCursor.ts:93-119 | every place of the declared space has a cursor that points at an address and stands for it |
| DiscoveryCursor.Advance | agent/src/core/DiscoveryCursor.ts:93-119 | an open lap's next cursor stands exactly `count` places further on; a complete lap restarts at the first range |
| DiscoveryCursor.AdvanceCursor | agent/src/core/DiscoveryCursor.ts:93-119 | the loop over ranges is the move on the line: it closes the lap exactly when the position reaches the total |
| DiscoveryCursor.PlanChunk | agent/src/core/DiscoveryCursor.ts:127-157 | the plan is the declared space from the cursor's position, at most `maxIps` long, with the range of each address; exactly when it reports the end; where its next cursor stands |
| DiscoveryCursor.EndAgreesIff | agent/src/core/DiscoveryCursor.ts:93-157 | the plan and the cursor move agree on the end of the lap if and only if there are no ranges, or nothing is asked for at the very end, or something is asked for and the plan does not stop right before trailing empty ranges |
| DiscoveryCursor.WholePlanAgrees | agent/src/core/DiscoveryCursor.ts:93-157 | short of the end, the two next cursors are the same exactly when the plan's points at an address |
| DiscoveryCursor.TrailingEmptyRangeDisagrees | agent/src/core/DiscoveryCursor.ts:136-150 | two ranges, the last one empty, for which they do not agree |
| DiscoveryCursor.SweepFollowsSpace | agent/src/core/DiscoveryCursor.ts:93-157 | whatever prefix each chunk consumes, a sweep probes the declared space in order without gap or repetition, up to the position of its cursor |
| DiscoveryCursor.SweepClosesAtTotal | agent/src/core/DiscoveryCursor.ts:60-157 | a lap is complete if and only if what was probed is the whole declared space |
| ScanService.ScanService.BeginScan | agent/src/core/ScanService.ts:274-323 | the guard, backpressure, the reset on new ranges, opening the lap and planning are the `Begin` step of the machine |
| ScanService.ScanService.TakeOne | agent/src/core/ScanService.ts:394-422 | a turn of a worker takes the next address of the plan and nothing else |
| ScanService.ScanService.EndScan | agent/src/core/ScanService.ts:327-348 | saving or closing the lap, then a deferred restart, are the `EndChunk` step |
| ScanService.ScanService.RequestRestart | agent/src/core/ScanService.ts:251-267 | a restart is deferred while a chunk runs and applied at once otherwise |
| ScanService.ScanService.Reboot | agent/src/sync/database.ts:432-482 | a crash keeps the row and the configuration and loses the rest |
| ScanService.StepKeeps | agent/src/core/ScanService.ts:251-348 | every event keeps the invariant: the saved counter is the linear position of the saved cursor, and everything before it was probed |
| ScanService.EveryClosedLapIsWhole | agent/src/core/ScanService.ts:322-340 | in every run each closed lap probed all of its space and nothing else, exactly once and in order without crashes, with at most one chunk repeated per crash |
| ScanService.EveryDeclaredAddressWasProbed | agent/src/core/ScanService.ts:322-340 | in every run a closed lap probed an address if and only if it lies between the ends of one of the lap's ranges |
| ScanService.SavedProgressIsReal | agent/src/sync/database.ts:440-482 | in every run `scanned_this_lap` is the linear position of the saved cursor and all before it was probed in this lap |
| ScanService.HeartbeatIsSane | agent/src/core/ScanService.ts:170-189 | whenever the heartbeat looks, 0 <= scanned <= total, an open lap of a non-empty space has something left, and a lap not in progress reports 0 |
| ScanService.HeartbeatIsExact | agent/src/core/ScanService.ts:170-189 | in every run it reports how many addresses are declared and how many of them the lap is past, all of which were probed |
| ScanService.ChunkStartsWhereSaved | agent/src/core/ScanService.ts:292-323 | a chunk plans from the saved position if the declared space is the same, and from its start otherwise |
| ScanService.DeferredRestartIsNotLost | agent/src/core/ScanService.ts:251-260 | a restart asked for during a chunk survives that chunk's own save, whatever else happens before the chunk ends, for the ranges configured by then |
| ScanService.RestartIsImmediate | agent/src/core/ScanService.ts:251-267 | with no chunk running a restart puts the row at the start of the configured space at once |
| ScanService.NothingBegins | agent/src/core/ScanService.ts:274-286 | neither a full queue nor a scan under way lets another begin |
| ScanService.LapIsTimed | agent/src/core/ScanService.ts:327-340 | how long a lap took, and that only a closed lap is counted and timed |
| ScanService.CrashRepeatsTheChunk | agent/src/core/ScanService.ts:294-338 | after a crash the next chunk plans again exactly the plan of the dead one, at most 400 addresses |
| WorkerPool.ConsumedIsAPrefix | agent/src/core/ScanService.ts:394-422 | however the workers interleave, the probed indices of a chunk are 0..consumed-1, each by one worker |
| WorkerPool.EveryDeviceIsTaken | agent/src/core/ScanService.ts:514-544 | a known-devices task takes every device exactly once, whatever the clock does |
| WorkerPool.ShortChunkMeansDeadline | agent/src/core/ScanService.ts:398-417 | a chunk that finished short of its plan saw its deadline pass |
| WorkerPool.TakesIff | agent/src/core/ScanService.ts:412-417 | a worker takes the next index if and only if one is left and the deadline is not reached |
| WorkerPool.NothingTakenLate | agent/src/core/ScanService.ts:412-417 | whatever the turns, no index is taken from the deadline on |
| PinnedHosts.Rotation.ServeLap | agent/src/core/ScanService.ts:363-386 | one lap serves hosts in cyclic order from where the last stopped, none twice, and stops early only past the budget |
| PinnedHosts.LapsRotate | agent/src/core/ScanService.ts:363-386 | however the budgets cut them, consecutive laps are one uninterrupted rotation |
| PinnedHosts.NoHostTwice | agent/src/core/ScanService.ts:372-379 | places of a rotation less than a list apart hold different hosts |
| PinnedHosts.EveryHostServed | agent/src/core/ScanService.ts:363-386 | with at least one host per lap, every host is served within as many laps as there are hosts |
| Backpressure.QueueIsBounded | agent/src/core/ScanService.ts:274-422 | under any interleaving of one scan and one task, turn by turn of their workers, the queue never exceeds 10,000 + 400 + hosts + devices |
| Backpressure.BoundIsReached | agent/src/sync/database.ts:328-330 | wherever the sweep has a whole chunk ahead, a run that reaches that bound |
| TaskScheduler.TaskScheduler.Run | agent/src/core/TaskScheduler.ts:80-141 | a tick starts the first due loop in priority order and sets only that loop's clock; with a task running it changes nothing |
| TaskScheduler.AlertStartsAtOnce | agent/src/core/TaskScheduler.ts:107-109 | a due alert loop starts at that tick |
| TaskScheduler.MeterStartsWithinTwoTicks | agent/src/core/TaskScheduler.ts:110-112 | a due meter loop starts within two ticks if the alert interval exceeds the gap of ticks |
| TaskScheduler.SuppliesStartWithinThreeTicks | agent/src/core/TaskScheduler.ts:113-115 | a due supplies loop starts within three ticks if the intervals above it exceed two gaps |
| TaskScheduler.ChunkStartsWithinFourTicks | agent/src/core/TaskScheduler.ts:130-137 | an open lap gets a chunk within four ticks if all three other intervals exceed three gaps |
| TaskScheduler.DiscoveryYields | agent/src/core/TaskScheduler.ts:95-137 | discovery never starts while another loop is due |
| TaskScheduler.StartsWhenDue | agent/src/core/TaskScheduler.ts:107-137 | in every sequence of ticks no loop starts before its interval is over, and a tick that starts nothing finds none due |
| TaskScheduler.StartsAreSpaced | agent/src/core/TaskScheduler.ts:107-137 | two starts of a loop, or two openings of a lap, are at least its interval apart |
| TaskScheduler.LapClock | agent/src/core/TaskScheduler.ts:129-136 | the chunks of a lap do not move its clock: it is the time of the last tick that opened one |
| TaskScheduler.LapOpensWithinFourTicks | agent/src/core/TaskScheduler.ts:129-137 | once its interval is over the next lap opens, or an open one goes on, within four ticks |
| TaskScheduler.DefaultsAreWide | agent/src/core/MonitorIntervals.ts:29-34 | the default intervals satisfy all those conditions for ticks less than a minute apart |
| DeliveryQueue.Agent.EnqueueReading | agent/src/sync/database.ts:218-249 | a reading is appended under the next row id |
| DeliveryQueue.Agent.SyncStart | agent/src/core/SyncService.ts:35-41 | unless a sync runs, purge the delivered rows and send the oldest 500 others |
| DeliveryQueue.Agent.SyncFinish | agent/src/sync/uploader.ts:54-86 | the rows sent are marked if and only if the first response was ok, or it was a 401, the refresh worked and the second was ok; nothing is marked that no request answered with ok carried |
| DeliveryQueue.IngestHandles | cloud/src/modules/agents/application/use-cases/sync-readings.ts:40-82 | ingesting a body processes all of it, keeps what was stored, and stores no reading id twice |
| DeliveryQueue.StepKeeps | agent/src/sync/uploader.ts:9-86 | enqueues, lost responses, repeated bodies and crashes keep the invariant that ties queue, network and server |
| DeliveryQueue.LostIff | cloud/src/modules/agents/application/use-cases/process-reading.ts:37-66 | in every run an enqueued reading is neither pending nor stored if and only if its row was marked on an answer and every processing of it by the server was suppressed, threw, or found its device gone |
| DeliveryQueue.NothingIsLost | agent/src/sync/database.ts:297-326 | where the server never does that to the reading it is pending or stored, through lost answers, repeated bodies, retries and crashes |
| DeliveryQueue.OnlySuppressedAreMissing | cloud/src/modules/agents/application/use-cases/process-reading.ts:83-90 | where no processing throws and no device goes, a reading is missing only because its device is suppressed |
| DeliveryQueue.FailedProcessingLosesTheReading | cloud/src/modules/agents/application/use-cases/process-reading.ts:58-64 | a run in which a processing throws, the answer is success all the same, and the reading is gone on both sides |
| DeliveryQueue.StoredOnce | cloud/src/db/migrations/20260821200000_reconcile_readings_hypertable_and_reading_id.ts:56-70 | in every run the server holds a reading id at most once, and only enqueued ones |
| DeliveryQueue.PurgeIsSafe | agent/src/sync/database.ts:303-326 | delivered rows always form a prefix of the queue, the server has processed each, and the purge leaves exactly the rest |
| DeliveryQueue.OneExchangeDelivers | agent/src/sync/uploader.ts:9-64 | an undisturbed exchange moves the oldest 500 off the queue, stores all of them that the server does not lose, and leaves the rest in order |
| ReadingDedupe.KeyIgnoresAlertOrder | agent/src/sync/database.ts:166-183 | permuting a reading's alerts does not change its key |
| ReadingDedupe.KeyIsExact | agent/src/sync/database.ts:166-183 | where no alert text has a vertical bar, equal keys mean equal counters, levels and alerts, and conversely |
| ReadingDedupe.PipesCollide | agent/src/sync/database.ts:170-172 | one alert with a vertical bar in its description that reads like two |
| ReadingDedupe.PipeHasTwin | agent/src/sync/database.ts:170 | every alert with a vertical bar in its code or description has another alert that reads the same |
| ReadingDedupe.SemicolonsCollide | agent/src/sync/database.ts:170-172 | a semicolon collides only between a severity and a code, and no driver gives such a severity |
| ReadingDedupe.KnownDevice.ShouldEnqueueReading | agent/src/sync/database.ts:192-207 | the decision: no snapshot, a different key, or the window over |
| ReadingDedupe.KnownDevice.Offer | agent/src/core/ScanService.ts:534-540 | an enqueued reading, and only that, becomes the one the next is compared with, in whole seconds |
| ReadingDedupe.DedupeKeepsChanges | agent/src/sync/database.ts:192-216 | for every sequence of readings of the known-devices tasks, what is enqueued goes through the same different values in the same order |
| ReadingDedupe.RepeatsAreSpaced | agent/src/sync/database.ts:200-216 | consecutive readings that the known-devices tasks enqueue differ or the window has passed since the stored second |
| ReadingDedupe.UnchangedIsSentIff | agent/src/sync/database.ts:200-216 | an unchanged reading is enqueued exactly when the window has passed since the stored second |
| ReadingDedupe.WindowCanBeShort | agent/src/sync/database.ts:210-216 | two unchanged readings 999 ms less than the window apart that are both enqueued |
| SnmpClient.SnmpClient.DoRawGet | agent/src/capture/transport/snmp.ts:389-410 | a request first settles the session; its values, whether it counts as a response and whether as a failure follow from what the library calls back with, an empty answer counting as none |
| SnmpClient.SnmpClient.GetMany | agent/src/capture/transport/snmp.ts:223-274 | for every OID list, both kinds of device, and from the first call on, which negotiates: each place gets its cached value or what a GET of that OID alone would bring; the cache still agrees with the device and gains exactly the OIDs asked for and what the negotiation seeded |
| SnmpClient.SnmpClient.RetryOneByOne | agent/src/capture/transport/snmp.ts:263-268 | a batch refused as a whole is answered OID by OID |
| SnmpClient.SingleGetIsAnswer | agent/src/capture/transport/snmp.ts:389-410 | the one-OID request that everything is measured against, for both kinds of device and a silent one |
| SnmpClient.BatchIsAnswers | agent/src/capture/transport/snmp.ts:259-270 | a larger request brings the same answers, or the device responded and refused all of it, which is the case the source retries |
| SnmpClient.WhatCounts | agent/src/capture/transport/snmp.ts:389-410 | an error of the protocol or any varbind is a response, a timeout or an empty list is none; each missing value is null |
| SnmpClient.SnmpClient.Negotiate | agent/src/capture/transport/snmp.ts:180-219 | which credentials get a turn, which sessions are opened and closed, the time taken, and the client's fields afterwards |
| SnmpClient.NegotiationIsRight | agent/src/capture/transport/snmp.ts:184-218 | the credential picked is the first that answers before any cut-off, every other session is closed, and the whole takes at most 13.5 s for any list |
| SnmpClient.TurnCost | agent/src/capture/transport/snmp.ts:184-219 | a turn costs the time to its reply, cut at six seconds for the first credential and 1.5 for the others, and nothing if no session opened |
| SnmpClient.UnprovenHostCostsOneTimeout | agent/src/capture/transport/snmp.ts:210-213 | without a sign of life at most one credential is waited for in vain |
| SnmpClient.OrderedIsAPermutation | agent/src/capture/transport/snmp.ts:145-153 | the preferred credential comes first, the others keep their order, none is lost or repeated |
| AlertBands.AlertTable.EvaluateReading | cloud/src/jobs/alertWorker.ts:48-139 | one evaluation has the effect of its program of statements, and none on a device that is not watched |
| AlertBands.AlertTable.EvaluateColor | cloud/src/jobs/alertWorker.ts:106-137 | the statements of one colour, in their order |
| AlertBands.LastValueShows | cloud/src/jobs/alertWorker.ts:94-137 | whatever was open and whatever the thresholds, afterwards each colour has exactly the alert of its last value's band |
| AlertBands.HistoryShowsLastBand | cloud/src/jobs/alertWorker.ts:94-139 | after any sequence of readings with any thresholds, each colour has exactly the alert of the band of its last value, a monochrome reading counting as fine for the colours |
| AlertBands.LevelShows | cloud/src/jobs/alertWorker.ts:106-137 | in numbers: after an evaluation of a level, critical is open if and only if it is at most the critical threshold, low if and only if it is above that and at most the warning threshold |
| AlertBands.HistoryShowsLastLevel | cloud/src/jobs/alertWorker.ts:94-139 | the same after any history, for the last evaluation that measured the colour or ruled colours out; without one, what was open is open still |
| AlertBands.OfflineShows | cloud/src/jobs/alertWorker.ts:73-77 | the offline alert is open if and only if the reading says the device is offline |
| AlertBands.MonoClearsColors | cloud/src/jobs/alertWorker.ts:95-104 | a monochrome reading leaves no colour alert open |
| AlertBands.NeverBothOpen | cloud/src/jobs/alertWorker.ts:112-145 | under any interleaving, once all evaluations are over no colour has both alerts open, unless one failed right between opening one alert of that colour and resolving the other |
| AlertBands.CutLeavesBothIff | cloud/src/jobs/alertWorker.ts:112-137 | an evaluation that fails after any number of statements leaves both alerts of a colour open if and only if its last statement opened one and the other was open |
| AlertBands.LostResolveLeavesBoth | cloud/src/jobs/alertWorker.ts:114-121 | the failing run that this leaves room for |
| EwsProxy.EwsProxyService.SettleEntry | cloud/src/services/ewsProxyService.ts:38-60 | only the first to remove an entry settles it |
| EwsProxy.EwsProxyService.RejectAllPendingForAgent | cloud/src/services/ewsProxyService.ts:63-69 | all waits of one agent and no other are settled as disconnected |
| EwsProxy.StepKeeps | cloud/src/ws/redis-channels.ts:66-102 | pushes, relays, answers, duplicates, drops and timers keep the invariant over all replicas |
| EwsProxy.PendingIsExact | cloud/src/services/ewsProxyService.ts:30-51 | in every run each replica's `pending` holds exactly its unsettled waits |
| EwsProxy.OutcomeIsItsOwn | cloud/src/ws/handshake.ts:159-192 | in every run a wait is settled only on its own replica, by the answer to its own command, a drop of its agent or its timer |
| EwsProxy.SettledIsFinal | cloud/src/services/ewsProxyService.ts:38-43 | no later message or timer changes an outcome |
| EwsProxy.TimerEndsTheWait | cloud/src/services/ewsProxyService.ts:45-47 | a wait still open when its timer runs is settled by it |
| EwsProxy.DropEndsTheWait | cloud/src/ws/handshake.ts:187-192 | once the message of an agent's drop reaches its replica, a wait for that agent is over |
| EwsProxy.AnswerEndsTheWait | cloud/src/ws/handshake.ts:159-167 | in every run, once the answer to a received command reaches the replica that waits, by message or directly when publishing fails, an open wait is settled with it and stays so |
| EwsProxy.PushArrives | cloud/src/ws/redis-channels.ts:66-95 | a new command reaches its agent, at once on the replica of its socket and on another once the push is relayed |
| EwsProxy.RequestIsServed | cloud/src/ws/redis-channels.ts:66-102 | the whole way over two replicas: a request gets the answer the agent gives |
| Incidents.RunKeeps | cloud/src/db/migrations/20260824080000_incidents.ts:61-64 | whatever the worker, people, alerts and device merges do between any two statements, there is at most one open automatic incident per device and class |
| Incidents.AlertInTwoIsExcused | cloud/src/jobs/incidentWorker.ts:81-86 | in every run, of two links that put an alert in two open automatic incidents, one was made by a person, or its incident was given another class, or a merge moved its alert |
| Incidents.OneIncidentIfHandsOff | cloud/src/jobs/incidentWorker.ts:63-163 | without those three, no alert is ever in two open automatic incidents |
| Incidents.PutsInTwoIsExact | cloud/src/modules/incidents/infrastructure/database/incident-mutations.ts:108-155 | exactly when a step puts an alert in a second open automatic incident, told from the state before it: a link, by hand or by the worker, or a reopening |
| Incidents.LinkByHandPutsInTwo | cloud/src/modules/incidents/infrastructure/database/incident-mutations.ts:147-156 | a person's link that does it |
| Incidents.ReclassifyingPutsInTwo | cloud/src/modules/incidents/infrastructure/database/incident-mutations.ts:57-71 | a run in which an incident's new class does it |
| Incidents.MergingPutsInTwo | cloud/src/modules/devices/infrastructure/database/knex-device-merge-repository.ts:58-77 | a run in which a device merge does it |
| Incidents.ClosesOverLateLinksOnly | cloud/src/jobs/incidentWorker.ts:188-196 | in every run the worker closes an incident over an open alert if and only if a person linked the alert between the worker's look and its UPDATE and it is still linked and open |
| Incidents.LateAreLinkedMeanwhile | cloud/src/jobs/incidentWorker.ts:188-196 | those alerts are links made by hand in exactly that interval |
| Incidents.LateLinkIsClosedOver | cloud/src/jobs/incidentWorker.ts:188-196 | a run in which it happens |
| Incidents.ReopenKeeps | cloud/src/modules/incidents/infrastructure/database/incident-mutations.ts:108-131 | a person's reopening is refused exactly when it would make two |
| Incidents.ReclassifyKeeps | cloud/src/modules/incidents/infrastructure/database/incident-mutations.ts:57-71 | and another class is refused exactly when it would |
| Incidents.IncidentWorker.OpenOrLinkIncident | cloud/src/jobs/incidentWorker.ts:93-140 | the open incident of the alert's device and class, a new one only if there was none, and none at all without a client |
| Incidents.IncidentWorker.ProcessRule | cloud/src/jobs/incidentWorker.ts:142-163 | afterwards exactly the selected alerts of devices without client are still eligible; nothing is opened or linked for any other alert |
| Incidents.IncidentWorker.AutoCloseResolved | cloud/src/jobs/incidentWorker.ts:180-200 | exactly the stale incidents under the rule are closed, of every client for a global rule |
| Incidents.IncidentWorker.Tick | cloud/src/jobs/incidentWorker.ts:202-211 | a tick without failures leaves no enabled rule anything to do but for alerts without client, touches nothing else, repeated at once changes nothing, is a run of the statements the safety theorems are about, and keeps the law of the next row |
| Incidents.TickByColumns | cloud/src/jobs/incidentWorker.ts:63-211 | in columns: a new link is for an open alert that is old and severe enough under an enabled rule of its class, its client's own or a global one where the client has none; every such alert is in an open incident; an incident is closed only under such a rule that auto-closes and only when its alerts are over, and none of those is left open |
| Incidents.LeftToOpen | cloud/src/jobs/incidentWorker.ts:63-91 | what a tick leaves eligible is what was eligible and has no client |
| Incidents.OwnRuleComesFirst | cloud/src/jobs/incidentWorker.ts:74-80 | a rule selects no alert of a client with another rule for the class; an alert without client only under a global rule that no client overrides |
| DeviceDedupe.AlertIndexHolds | cloud/src/db/migrations/20260822040000_devices_client_serial_identity.ts:102-114 | one open alert per device and kind, after the collisions are resolved and again after the alerts are moved |
| DeviceDedupe.Migration.MergeOne | cloud/src/db/migrations/20260822040000_devices_client_serial_identity.ts:80-148 | the statements of one merge in their order, with that index between any two |
| DeviceDedupe.MergeKeeps | cloud/src/db/migrations/20260822040000_devices_client_serial_identity.ts:80-148 | after any number of merges each survivor has its group's greatest counters, keeps its own texts and takes missing ones from its group, each alert is where its group is and open iff it is the oldest of its kind there, and every reading and report line has moved |
| DeviceDedupe.Migration.MergeAll | cloud/src/db/migrations/20260822040000_devices_client_serial_identity.ts:67-148 | in any order of the pairs, exactly the younger devices of the clean groups are merged, the tables are related as above, and the laws of the next four rows hold |
| DeviceDedupe.OldestOfPair | cloud/src/db/migrations/20260822040000_devices_client_serial_identity.ts:47-76 | in columns: a device is merged into the one of its client and serial that was created first, of those the one with the smallest id |
| DeviceDedupe.AlikeAreMerged | cloud/src/db/migrations/20260822040000_devices_client_serial_identity.ts:52-76 | devices of one client and serial are merged if and only if they know at most one MAC and one model between them |
| DeviceDedupe.AlertsByColumns | cloud/src/db/migrations/20260822040000_devices_client_serial_identity.ts:102-114 | an open alert is resolved if and only if the group has an open one of its kind that was created before it, or at the same time with a smaller id |
| DeviceDedupe.GrowthByColumns | cloud/src/db/migrations/20260822040000_devices_client_serial_identity.ts:80-100 | a survivor has the greatest counter of its group, its own texts, and a missing text from a member that has one |
| DeviceDedupe.Migration.Up | cloud/src/db/migrations/20260822040000_devices_client_serial_identity.ts:14-189 | the whole migration: missing clients come from the agent, the merges keep the same laws, and the index is created if and only if the data satisfy it |
| DeviceDedupe.IndexIffNoConflict | cloud/src/db/migrations/20260822040000_devices_client_serial_identity.ts:52-56 | the merged data satisfy the new unique index exactly when no group was in conflict |
| DeviceDedupe.PairsDoNotChain | cloud/src/db/migrations/20260822040000_devices_client_serial_identity.ts:70-76 | a survivor is merged into nothing, and a device has one survivor |
| DeviceDedupe.TombstonesPointAtSurvivors | cloud/src/db/migrations/20260822040000_devices_client_serial_identity.ts:132-136 | each new tombstone points at a live device of the same client and serial |
| DeviceDedupe.RowsAreConserved | cloud/src/db/migrations/20260822040000_devices_client_serial_identity.ts:116-130 | a survivor has exactly the rows of its group, a merged device none |
| DeviceDedupe.NoAlarmIsLost | cloud/src/db/migrations/20260822040000_devices_client_serial_identity.ts:102-114 | a survivor has an open alert of a kind if and only if a device of its group had one |
| DeviceDedupe.ConflictsStay | cloud/src/db/migrations/20260822040000_devices_client_serial_identity.ts:58-65 | devices of conflicting groups are left as they are |
| DeviceDedupe.SecondRunMergesNothing | cloud/src/db/migrations/20260822040000_devices_client_serial_identity.ts:42-76 | a second run finds no pair to merge |
| DeviceDedupe.SecondBackfillFillsNothing | cloud/src/db/migrations/20260822040000_devices_client_serial_identity.ts:18-21 | nor a client to fill in |
| DeviceDedupe.ClientsByColumns | cloud/src/db/migrations/20260822040000_devices_client_serial_identity.ts:18-21 | after backfill and merges a device has its own client, or else the one of its agent |
| Ipp.ParseIppAttr | agent/src/snmp/ipp.ts:77-97 | on any bytes the index loop stops, reads inside the buffer and finds what reading entry by entry finds |
| Ipp.ParseOfEncode | agent/src/snmp/ipp.ts:77-97 | parsing an encoded attribute list gives the first value of the name, and otherwise goes on behind the list |
| Ipp.RoundTrip | agent/src/snmp/ipp.ts:25-97 | for a message that ends with its end tag, the parser returns the first value of the name, and null for an absent one |
| Ipp.HighByteFirst | agent/src/snmp/ipp.ts:27-90 | a length is two bytes on the wire, the high one first |
| Ipp.EndTagIsSkipped | agent/src/snmp/ipp.ts:81-84 | with bytes behind the end tag, the answer is right exactly when the name is there or those bytes do not have it |
| Ipp.BuildIppRequest | agent/src/snmp/ipp.ts:25-73 | the bytes built are the header, the encoding of the attribute list and the end tag |
| Ipp.RequestAsksFor | agent/src/snmp/ipp.ts:36-69 | the attribute list itself: charset, language, URI and the four keywords asked for, of which only the first has a name |
| Ipp.RequestCarriesUri | agent/src/snmp/ipp.ts:25-97 | the request read back gives its own URI exactly when the URI is shorter than 65536 bytes |
| FsNum.PrintedWithFraction | agent/src/snmp/ews-parsers/hp-futuresmart.ts:26-46 | every number grouped with one separator and one decimal behind the other is read as that number, rounded, in exact arithmetic |
| FsNum.DoublesRoundAlike | agent/src/snmp/ews-parsers/hp-futuresmart.ts:44-45 | below 2^50 the nearest double rounds to the same integer, so there the code gives it too |
| FsNum.FourTenthsRoundUp | agent/src/snmp/ews-parsers/hp-futuresmart.ts:44-45 | from 2^50 on it need not: four tenths become a half and round up |
| FsNum.PrintedWhole | agent/src/snmp/ews-parsers/hp-futuresmart.ts:26-46 | a number grouped with one separator and no fraction is read as that number if and only if it is below a million |
| FsNum.UngroupedWithFraction | agent/src/snmp/ews-parsers/hp-futuresmart.ts:26-46 | a number without groups and one decimal behind either mark is read as that number, rounded |
| FsNum.DigitsAreRead | agent/src/snmp/ews-parsers/hp-futuresmart.ts:26-46 | digits alone are the number they say, of any length |
| FsNum.MinusIsRead | agent/src/snmp/ews-parsers/hp-futuresmart.ts:26-46 | behind a minus they are the negative one |
| FsNum.MarksDoNotMatter | agent/src/snmp/ews-parsers/hp-futuresmart.ts:26-30 | blanks, percent signs and asterisks change no result, wherever they stand |
| FsNum.TailDoesNotMatter | agent/src/snmp/ews-parsers/hp-futuresmart.ts:26-30 | nor does a last character that is no digit, separator or minus |

## Left out

- Dotted text of addresses: an address is its four octets; parsing the text is not modelled.
- Fingerprint collisions: the fingerprint is the list of bounds it is the truncated hash of.
- `ScanService.EveryClosedLapIsWhole`: speaks of addresses taken from the plan; what a probe of one address does is not modelled.
- `WorkerPool.ConsumedIsAPrefix`: workers are state machines over the turns of the event loop, since the original's async loops share counters across awaits.
- `PinnedHosts.LapsRotate`: the run of laps has a fixed list and no restart of discovery; the reset by a restart is in the class only.
- `Backpressure.QueueIsBounded`: at most one known-devices task at a time, which the scheduler guarantees for the tasks it starts; a capture enqueues at most one reading.
- `EwsProxy.OutcomeIsItsOwn`: command ids are unique, and an agent answers only commands it received.
- `DeliveryQueue.NothingIsLost`: reading ids are unique; what later removes stored readings (retention, a merge of devices that settles an overlap) is not an event.
- `SnmpClient.SnmpClient.GetMany`: raw-key GETs, subtrees and SET are not modelled, nor a device that changes its answers; which error messages mean that nothing came back is a field of the callback.
- `SnmpClient.NegotiationIsRight`: time is what the SNMP library is given for each request; overhead between requests is not counted.
- `AlertBands.HistoryShowsLastBand`: for readings the device gate accepts; supply and counter alerts raised elsewhere are not modelled.
- `AlertBands.NeverBothOpen`: the open alerts that a merge of ghost devices moves to a device during ingestion are not an event.
- `ReadingDedupe.RepeatsAreSpaced`: what discovery enqueues neither reads nor writes the stored snapshot and is not in the sequence.
- `Incidents.RunKeeps`: deletions (clients, devices, old resolved alerts) are not among the events; an alert row that is not open stays so.
- `Incidents.IncidentWorker.Tick`: rules are taken in any order; SLA dates, events, notifications and titles are not modelled.
- `DeviceDedupe.Migration.Up`: whether a serial identifies a device is a field of the row, since neither it nor the address changes; the log of conflicting groups and the audit rows' texts are not modelled.
- `Ipp.RoundTrip`: names and values are bytes; UTF-8 decoding is not modelled.
- `FsNum.PrintedWhole`: exponents, radix prefixes and infinities are not modelled, and doubles only as far as `FsNum.DoublesRoundAlike` goes.
- The capture semaphore, the re-arming of the sync timer and the set of online agents: the code does not keep the properties one would state.
- The heartbeat's own call of a scan beside the scheduler's task: scan against scan is guarded, scan against task is not.
- Portal broadcasts, cryptography, authentication, time zones, logging, page scraping and the database, queue and network engines.
