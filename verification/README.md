# The mite sidecar, verified

The mite runs beside one Jenkins controller. It retains build events and log
chunks until the gateway acknowledges them, queues commands for a single
worker, decides when a desired-state push may skip its Jenkins writes, seeds
build history into the Jenkins home, and fingerprints the managed
configuration. This project models that logic (`cmd/mite`) in Dafny and proves
what holds over every run, and exactly where the obvious claim fails.

## How the model is built

- Every locked method is one atomic step. A class holds the fields the source
  mutates, and each method is proved equal to a step function on the class's
  abstract value. The protocols (`EventProtocol`, `LogProtocol`, `Waiters`,
  `Mailbox`, `Convergence`) put that value in a `World` with the open HTTP
  handlers, timers, channels, worker or Jenkins boot around it. `Next` is one
  step of anybody, `Run` any interleaving. Theorems are about all runs.
- Pure code (the marker format, the path grammar, cleaning, projections,
  verdicts) is functions and lemmas. Where the source loops, a method with the
  loop is proved equal to the function.
- A send, a Jenkins call or a file read is a step parameter that may succeed or
  fail. Time is an integer. SHA-256 and the JSON encoder are injective
  functions. The job directory resolver is a function of the job: it reads only
  config.xml files and the directories that hold them, which an apply never
  writes.

## Main results

- Event store: exact accounting, one open reservation per key, an exact order
  index and an exact gauge over every interleaving (`EventProtocol.EveryRunSound`);
  retention completeness and its exact condition (`EventTheorems.RetentionComplete`,
  `EventTheorems.CommitRetainsIff`); an ack before or after the commit ends in
  the same world whatever happens on other keys (`EventRaces.AckRaceConfluence`);
  the byte cap is passed exactly by a commit over an entry released in flight,
  and never by more than the credits spent (`EventCap.BreachExactly`,
  `EventCap.ExcessBound`).
- Event store by history: which posts are admitted, which reservations are open
  and acked, which keys are retained and with which event, said by the steps of
  the run alone (`EventTheorems.AdmittedExactly`, `EventHistory`).
- Log store: accounting within the cap, pauses that only grow, refused
  sequences that always have a due timer (`LogProtocol`); what is admitted, in
  flight, retained, paused and re-sent, again by the steps of the run alone
  (`LogHistory`).
- Waiters: in every run no waiter gets two responses and no send blocks the
  receive loop (`Waiters.FirstRunSafe`). Each waiter stays in exactly one place,
  so that none is orphaned, exactly when no registration uses the id of an open
  waiter (`Waiters.SoundExactly`). Which waiters are open and what each was
  answered is said by the run's steps (`WaiterHistory`).
- Mailbox: accepted equals completed, running, queued, in order; newest wins
  exactly when put-backs find an empty slot (`Mailbox.FirstRunSound`,
  `Mailbox.NewestWinsExactly`); what the worker picks in one turn
  (`MailboxTheorems`).
- Convergence: over every run a skip, by the gate or per section, is right for
  every section that is not stale (`ConvergenceTheorems.GateSound`,
  `ConvergenceTheorems.SectionSkipSound`), through the real marker format. A
  section is stale from the moment a push of this boot changed it and ended
  without its marker, or a marker took it over from another boot, until a push
  that applies it again writes its marker. `ConvergenceFaults` states exactly
  what each of these events does to the marker's truth, and
  `ConvergenceOutcomes.MarkerExactly` when a push writes a marker and what it
  records.
- Rehydration: no bundle, good or bad, touches an existing build or lowers a
  number (`RehydrationSafety`); for bundles of good paths when the apply
  succeeds, the exact result, file by file with place and content, order
  independence and idempotence (`RehydrationTheorems`, `RehydrationContent`);
  the grammar accepts exactly six shapes, and the confinement check refuses an
  accepted path exactly for two homes (`RehydrationPath`, `HomePath`,
  `PathTheorems`).
- Orphans: which ancestor decides, which jobs are orphans and which are held
  back, said by path segments and scan results (`OrphanTheorems`).
- Fingerprint: equal canonical form exactly for equal sets, equal projection
  exactly for equal managed values; a change at a managed path of any depth is
  seen exactly when the decoded content changes (`CanonicalSet`, `Projection`).

## Where the obvious claim is false

- A superseded send retains nothing (`EventTheorems.SupersededSendIsLost`), and
  a reserve refused at the cap has already closed the older one
  (`EventTheorems.RefusedReserveClosesOlder`).
- The byte cap can be passed (`EventCap.CapCanBreak`).
- Registering the id of an open waiter orphans that waiter for good
  (`Waiters.ReusedIdOrphansWaiter`); the exact condition is `Waiters.SoundExactly`.
  The handlers draw claim ids from random UUIDs and cross-tenant ids from an
  atomic counter (cmd/mite/loopback.go:638 and :727), so short of a UUID
  collision they do not produce this input.
- The worker's put-back can displace a newer desired command
  (`Mailbox.PutBackCanDisplace`).
- A one-line marker is misread by the legacy reader (`Marker.OneLineMisread`).
- After a partial push, after a carried section, or after a restart between
  capture and skip, a section is skipped wrongly, in runs from the first boot
  (`ConvergenceFaults.PartialPushReached`, `ConvergenceFaults.CarriedSectionReached`,
  `ConvergenceFaults.RestartedSkipReached`). The exact conditions are
  `ConvergenceFaults.GuardExactly`, `ConvergenceFaults.RecordedExactly` and
  `ConvergenceFaults.SkipSinceCaptureExactly`.
- The confinement check also refuses every path for a home that cleans to ".",
  not only for "/" (`HomePath.ConfineExactly`).
- A failed apply cannot always be made good: a build whose changelog was written
  before its build.xml failed is skipped by every later apply
  (`RehydrationRetry.HalfWrittenForever`); without a changelog nothing is left
  behind (`RehydrationRetry.LoneXmlLeavesNothing`).
- A value equal to the absent sentinel collides with absence
  (`Projection.SentinelCollides`); `Projection.ProjectionExactly` counts it so.

Where comments and code disagree the model follows the code: a rejected log ack
releases cumulatively like an accepted one, and inside the idle loop a desired
command waits for the builds whether or not it asked for idle mode.

## Model

| member | source | states |
|---|---|---|
| EventRetention.EventRetentionStore.constructor | cmd/mite/loopback.go:1201-1209 | a new store is empty, holds the cap and satisfies the store invariant |
| EventRetention.EventRetentionStore.SupersedeOpen | cmd/mite/loopback.go:1244-1251 | the first part of a reserve: closes the key's open reservation, if any, and refunds its charge |
| EventRetention.EventRetentionStore.ReserveFor | cmd/mite/loopback.go:1237-1265 | the whole new store and the answer of a reserve: the key's open reservation is closed first, only growth is charged, a charge past the cap is refused |
| EventRetention.EventRetentionStore.RollbackId | cmd/mite/loopback.go:1273-1284 | gives the charge back and closes the reservation; a superseded id leaves the store unchanged |
| EventRetention.EventRetentionStore.CommitId | cmd/mite/loopback.go:1316-1341 | the whole new store and gauge delta of a commit; a superseded id leaves the store unchanged and reports 0 |
| EventRetention.EventRetentionStore.ReleaseKey | cmd/mite/loopback.go:1358-1385 | drops the committed entry and its index slot, or marks the open reservation acked when nothing is committed |
| EventRetention.EventRetentionStore.CheckInvariant | cmd/mite/loopback.go:1393-1410 | answers true exactly when the total equals retained bytes plus open charges |
| EventRetention.EventRetentionStore.SnapshotOrdered | cmd/mite/loopback.go:1421-1435 | lists each retained event exactly once, grouped by run, in ascending sequence |
| EventRetention.SpliceOut | cmd/mite/loopback.go:1374-1380 | removing one sequence from a run's list keeps the others in order |
| EventRetention.ReserveKeepsValid | cmd/mite/loopback.go:1237-1265 | a reserve keeps accounting, the pending and openByKey inverse, and the order index |
| EventRetention.RollbackKeepsValid | cmd/mite/loopback.go:1273-1284 | a rollback keeps the store invariant |
| EventRetention.CommitAccounted | cmd/mite/loopback.go:1316-1341 | a commit keeps the total equal to retained plus charged, and its delta is exactly the change in retained bytes |
| EventRetention.CommitIndexed | cmd/mite/loopback.go:1331-1339 | a commit keeps order and byKey in exact agreement |
| EventRetention.CommitKeepsValid | cmd/mite/loopback.go:1316-1341 | a commit by the owner keeps the whole store invariant |
| EventRetention.ReleaseKeepsValid | cmd/mite/loopback.go:1358-1385 | a release keeps the store invariant and frees exactly the drop in retained bytes |
| EventRetention.ValidTotals | cmd/mite/loopback.go:1387-1410 | in a valid store the total is never negative and bounds both of its parts |
| RunOrder.AppendAgrees | cmd/mite/loopback.go:1333-1337 | appending a fresh key keeps order and byKey in agreement without duplicates |
| RunOrder.RemoveAgrees | cmd/mite/loopback.go:1374-1383 | removing a key, and its run when it was the last, keeps order and byKey in agreement |
| RunOrder.AppendThenRemove | cmd/mite/loopback.go:1374-1383 | appending a fresh key and removing it again gives back the same index |
| RunOrder.Snapshot | cmd/mite/loopback.go:1421-1435 | the replay list holds exactly the retained keys, runs together, sequences ascending |
| EventProtocol.ReserveEffect | cmd/mite/loopback.go:1237-1265 | a reserve closes the key's own reservation, keeps every other, and opens a fresh id exactly when admitted |
| EventProtocol.StepKeepsGauge | cmd/mite/loopback.go:484-498 | every step moves the gauge by exactly the change in retained bytes |
| EventProtocol.StepKeepsSound | cmd/mite/loopback.go:552-599 | every handler or ack step keeps the store invariant, the link between handlers and reservations, and the gauge |
| EventProtocol.EveryRunSound | cmd/mite/loopback.go:1237-1385 | over every interleaving: exact accounting, exact inverses, an exact order index, gauge equal to retained bytes, no negative total |
| EventProtocol.InitialSound | cmd/mite/loopback.go:1201-1209 | the empty store with no open handler satisfies the run invariant |
| EventTheorems.ClosedForever | cmd/mite/loopback.go:1316-1322 | a reservation id once closed is never open again in any run |
| EventTheorems.SupersededNeverActs | cmd/mite/loopback.go:1244-1251 | after another post of its key, a reservation's commit or rollback changes neither store nor gauge at any later time |
| EventTheorems.RetainedUntilAck | cmd/mite/loopback.go:1358-1385 | a retained event stays retained through every run without an ack of its key |
| EventTheorems.StaysOpen | cmd/mite/loopback.go:1237-1265 | a reservation that nobody supersedes, resolves or acks stays open and unchanged |
| EventTheorems.RetentionComplete | cmd/mite/loopback.go:1316-1341 | an admitted, sent event that is not superseded before its commit and not acked since its reserve is retained, and stays so until an ack |
| EventTheorems.CommitRetainsIff | cmd/mite/loopback.go:1316-1341 | a successful send leaves its key retained if and only if it was retained already or its reservation is still open and not acked |
| EventTheorems.RetainedExactly | cmd/mite/loopback.go:1316-1385 | over every run from the empty store: a key is retained if and only if some owning, unacked commit of it has no later ack |
| EventTheorems.AdmittedExactly | cmd/mite/loopback.go:1237-1265 | a post is admitted if and only if the retained bytes, the open charges of other keys and its own growth fit the cap, or it does not grow; it then gets a fresh id and is charged exactly its growth |
| EventTheorems.RetryAdmitted | cmd/mite/loopback.go:1252-1258 | in every run a retry no larger than the entry its key holds is admitted, even at the cap |
| EventHistory.OpenExactly | cmd/mite/loopback.go:1237-1385 | in every run the open reservations are exactly those a fitting post opened and no later step closed; each is acked if and only if an ack found its key unretained meanwhile |
| EventHistory.CommitsExactly | cmd/mite/loopback.go:1316-1341 | a commit is the delivery of the very event whose post opened its reservation |
| EventHistory.RetainedByHistory | cmd/mite/loopback.go:1316-1385 | in every run, in terms of its steps alone: a key is retained if and only if some delivery of it has no later ack |
| EventHistory.RetainedContent | cmd/mite/loopback.go:1331-1340 | in every run the entry retained for a key is the event of its last delivery, charged with its own size |
| EventTheorems.SupersededSendIsLost | cmd/mite/loopback.go:1319-1322 | a run in which a sent, unacknowledged event ends up retained nowhere |
| EventTheorems.RefusedReserveClosesOlder | cmd/mite/loopback.go:1244-1258 | a reserve refused at the cap leaves the older send's commit without effect |
| EventRaces.AckRaceConfluence | cmd/mite/loopback.go:1326-1329 | for a first delivery, ack then commit and commit then ack end in equal worlds, with any steps on other keys between them |
| EventRaces.StepSquare | cmd/mite/loopback.go:1358-1371 | each step on another key acts alike whether the acked first delivery is still open or already committed |
| EventCap.BreachExactly | cmd/mite/loopback.go:1331-1340 | from within the cap a step passes it if and only if it commits over an entry released in flight and the credit does not fit |
| EventCap.StepWithinCredit | cmd/mite/loopback.go:1237-1265 | a step raises the total above the cap only by the credit of an in-flight release |
| EventCap.ExcessBound | cmd/mite/loopback.go:1331-1340 | in every run the excess is at most the sum of min(new size, old size) over commits whose old entry was released in flight |
| EventCap.CapHolds | cmd/mite/loopback.go:1237-1265 | without a release in flight the total never exceeds the cap |
| EventCap.CapCanBreak | cmd/mite/loopback.go:1326-1340 | a run of six steps that ends at twice the cap |
| LogRetention.LogRetentionStore.constructor | cmd/mite/loopback.go:1471-1481 | a new log store is empty and holds the cap |
| LogRetention.LogRetentionStore.ReserveBytes | cmd/mite/loopback.go:1550-1558 | charges the size, or refuses and charges nothing |
| LogRetention.LogRetentionStore.RollbackBytes | cmd/mite/loopback.go:1562-1566 | gives back exactly the charge |
| LogRetention.LogRetentionStore.CommitChunk | cmd/mite/loopback.go:1573-1583 | the new store of a commit, a repeated (run, sequence) included |
| LogRetention.LogRetentionStore.ReleaseUpTo | cmd/mite/loopback.go:1588-1617 | frees exactly the run's chunks at or below the sequence, with their bytes, their index slots and their refused marks |
| LogRetention.LogRetentionStore.Schedule | cmd/mite/loopback.go:418-440 | a BUSY ack marks the sequence refused, extends the pause and replaces the run's timer |
| LogRetention.LogRetentionStore.Take | cmd/mite/loopback.go:1486-1507 | only the current slot takes a batch, and it is the refused, still retained sequences in ascending order |
| LogRetention.LogRetentionStore.SnapshotOrdered | cmd/mite/loopback.go:1621-1635 | lists each retained chunk exactly once, grouped by run, in ascending sequence |
| LogRetention.DropCovered | cmd/mite/loopback.go:1594-1605 | the release scan drops exactly the covered chunks and counts exactly their bytes |
| LogRetention.PauseLeftMs | cmd/mite/loopback.go:1520-1525 | waiting the answered milliseconds reaches the end of the window and one millisecond less does not; 0 exactly when the window is over |
| LogRetention.ReleaseIndexed | cmd/mite/loopback.go:1588-1617 | a release keeps the order index exact |
| LogRetention.CommitIndexed | cmd/mite/loopback.go:1573-1583 | a commit keeps the order index exact |
| LogProtocol.EveryRunSound | cmd/mite/loopback.go:1486-1617 | over every run: total equals retained plus in-flight bytes, within the cap; refused sequences and timers exist for the same runs, each timer due at the pause end |
| LogProtocol.InitialSound | cmd/mite/loopback.go:1471-1481 | the empty log store satisfies the run invariant |
| LogProtocol.StepKeepsPauses | cmd/mite/loopback.go:1538-1546 | no step moves a pause end earlier |
| LogProtocol.PauseCoversEveryBusy | cmd/mite/loopback.go:1538-1546 | the pause end covers what every BUSY ack of the run asked for |
| LogProtocol.BatchRespectsEveryPause | cmd/mite/loopback.go:451-468 | a batch is taken only by the run's current timer and after every pause any BUSY ack asked for |
| LogProtocol.StepRefuses | cmd/mite/loopback.go:507-528 | which steps make a sequence refused, and which end that |
| LogProtocol.RefusedExactly | cmd/mite/loopback.go:418-468 | a sequence is refused if and only if some BUSY ack of it was followed by neither a covering ack nor a batch of its run |
| LogProtocol.RefusedIsArmed | cmd/mite/loopback.go:418-440 | every refused sequence waits for an armed timer of its run, due at the pause end |
| LogHistory.PostExactly | cmd/mite/loopback.go:1550-1558 | a chunk is admitted if and only if it fits beside the retained and the in-flight bytes; a refused one changes nothing |
| LogHistory.InFlightExactly | cmd/mite/loopback.go:1550-1583 | in every run the chunks in flight are exactly those a fitting post brought in and no send ended |
| LogHistory.CommitsExactly | cmd/mite/loopback.go:1573-1583 | a commit is the delivery of the very chunk its post brought in |
| LogHistory.RetainedExactly | cmd/mite/loopback.go:1573-1617 | in every run a chunk is retained if and only if some delivery of its run and sequence has no later final ack of its run at or above it |
| LogHistory.RetainedContent | cmd/mite/loopback.go:1573-1583 | in every run the entry retained for a key is the chunk of its last delivery, a repeated sequence included, charged with the length of its data |
| LogHistory.PausedExactly | cmd/mite/loopback.go:418-440 | in every run a job run is paused if and only if a BUSY ack named it, until the latest end any of them asked for; one second when it names none |
| LogHistory.TimerExactly | cmd/mite/loopback.go:1486-1507 | in every run the armed timer of a job run is that of its latest BUSY ack, until it takes the batch |
| LogHistory.BatchExactly | cmd/mite/loopback.go:451-468 | a firing timer takes the batch if and only if it belongs to the latest BUSY ack, no timer took it since, and every pause asked for is over, its end included |
| Waiters.WaiterMap.constructor | cmd/mite/loopback.go:1003-1005 | a new waiter map is empty |
| Waiters.WaiterMap.RegisterWaiter | cmd/mite/loopback.go:1009-1018 | registers a waiter exactly when the map is below its cap |
| Waiters.WaiterMap.TakeWaiter | cmd/mite/loopback.go:1023-1045 | the locked part of resolve and cancel: removes the id's waiter and hands out the channel that carries that id |
| Waiters.WaiterMap.TakeAll | cmd/mite/loopback.go:1049-1053 | the locked part of releaseAll: empties the map and hands out every open waiter |
| Waiters.StepOpens | cmd/mite/loopback.go:1009-1057 | a waiter stays open exactly until a response to its id, its cancel, releaseAll, or an admitted registration of the same id |
| Waiters.StepMoves | cmd/mite/loopback.go:1009-1057 | every step that registers no open id keeps each waiter in exactly one place: open, being answered, answered, received or cancelled |
| Waiters.EveryRunSafe | cmd/mite/loopback.go:1009-1057 | over every run, reused ids included: at most 64 open, at most one response per waiter, carrying its own id, and no sender ever finds the slot taken |
| Waiters.FirstRunSafe | cmd/mite/loopback.go:1003-1057 | the same for every run from an empty map, with no condition at all |
| Waiters.RegisterExactly | cmd/mite/loopback.go:1009-1018 | an admitted registration keeps every waiter in one place if and only if its id has no open waiter |
| Waiters.SoundExactly | cmd/mite/loopback.go:1009-1057 | a run keeps every waiter in exactly one place throughout, so none is left without an answer to come, if and only if no admitted registration uses the id of an open waiter |
| Waiters.FirstRunSoundExactly | cmd/mite/loopback.go:1003-1057 | the same if and only if from an empty map |
| Waiters.ReleaseAllAnswers | cmd/mite/loopback.go:1117-1126 | every waiter open at releaseAll gets exactly that one unavailable response in whatever run follows, reused ids included |
| Waiters.ReusedIdOrphansWaiter | cmd/mite/loopback.go:1077-1086 | registering the id of an open waiter leaves that waiter unanswered and uncancelled in every later run |
| Waiters.ReuseReached | cmd/mite/loopback.go:1009-1018 | two registrations of one id from an empty map already orphan the first waiter for good |
| Waiters.AnswerDelivered | cmd/mite/loopback.go:1023-1035 | an answer on its way is received after its own send and one receive, with nothing else in between |
| WaiterHistory.OpenExactly | cmd/mite/loopback.go:1009-1057 | after any run a waiter is open if and only if a registration below the cap made it and no later step answered, cancelled, released or replaced it |
| WaiterHistory.AnsweredExactly | cmd/mite/loopback.go:1023-1057 | after any run a channel carries or has delivered a response if and only if, while its waiter was open, a step resolved its id with that very response or released all and it is the unavailable one |
| Mailbox.CommandMailbox.constructor | cmd/mite/agent.go:1275-1280 | a new mailbox is empty |
| Mailbox.CommandMailbox.PutDesiredSlot | cmd/mite/agent.go:1282-1291 | replaces the desired slot and leaves one wake-up |
| Mailbox.CommandMailbox.PutImperativeWork | cmd/mite/agent.go:1296-1315 | drops a duplicate of an active id, refuses at the cap, or appends and marks the id active |
| Mailbox.CommandMailbox.FinishWork | cmd/mite/agent.go:1319-1326 | forgets exactly the finished id |
| Mailbox.CommandMailbox.TakeWork | cmd/mite/agent.go:1334-1346 | takes the oldest imperative, else the desired command |
| Mailbox.CommandMailbox.RestoreSlot | cmd/mite/agent.go:1364-1374 | puts a command back only into an empty slot |
| Mailbox.EveryRunSound | cmd/mite/agent.go:1530-1611 | over every interleaving: accepted equals completed, running, queued in arrival order; active is exactly their ids; the queue keeps its cap; no wake-up is lost |
| Mailbox.InitialSound | cmd/mite/agent.go:1275-1280 | an empty mailbox with a waiting worker satisfies the run invariants |
| Mailbox.FirstRunSound | cmd/mite/agent.go:1530-1611 | from an empty mailbox every run keeps the order, the ids, the cap and the wake-ups |
| Mailbox.RedeliveryDropped | cmd/mite/agent.go:1296-1315 | at the end of any run from an empty mailbox a redelivery of a queued or running id changes nothing |
| Mailbox.NewestWins | cmd/mite/agent.go:1530-1611 | in runs whose put-backs find an empty slot the newest desired command is never displaced by an older one |
| Mailbox.NewestWinsExactly | cmd/mite/agent.go:1530-1611 | from an empty mailbox the newest desired command is kept throughout a run if and only if every put-back finds the slot empty |
| Mailbox.PutBackExactly | cmd/mite/agent.go:1574-1586 | the put-back keeps the newest command if and only if the slot is empty |
| Mailbox.PutBackCanDisplace | cmd/mite/agent.go:1574-1586 | one run from an empty mailbox whose put-back displaces the newer command |
| Mailbox.ReachDeferred | cmd/mite/agent.go:1530-1573 | from an empty mailbox the worker takes an idle-mode command and defers it |
| Mailbox.RestoreGivesWay | cmd/mite/agent.go:1351-1374 | take then restore gives way to whatever desired command arrived between |
| MailboxTheorems.TurnPicks | cmd/mite/agent.go:1334-1346 | over both looks of a turn the worker picks the desired command when it looks there first or the queue is empty, else the queue's head; a desired one without idle mode starts at once, an idle one waits for the builds |
| MailboxTheorems.WakePicks | cmd/mite/agent.go:1530-1611 | a waiting worker picks so if and only if it is signalled, and else does nothing |
| MailboxTheorems.DonePicks | cmd/mite/agent.go:1530-1611 | after a finished command the worker picks again without a signal |
| MailboxTheorems.IdleInterrupts | cmd/mite/agent.go:1560-1590 | over a whole turn of the idle loop a desired command replaces the deferred one, an imperative one runs while the deferred one is back in the slot with the worker signalled, and nothing leaves it waiting |
| MailboxTheorems.DeferredApplies | cmd/mite/agent.go:1560-1590 | a deferred command stays through a poll that finds builds and is applied once a poll finds none |
| MailboxTheorems.InlineAppliesOrRestores | cmd/mite/agent.go:1351-1374 | a desired command taken by a running imperative one is applied, or put back without a trace |
| MailboxTheorems.AcceptedExactly | cmd/mite/agent.go:1296-1315 | after any run an imperative command joins the end of the queue, payload included, if and only if the receive loop is free, no unfinished command has its id and fewer than 16 are queued; else nothing changes |
| StateHash.HashInput | cmd/mite/agent.go:3796-3804 | the loop over the four parts writes exactly the framed string: config, plugins, rbac, items, each with its name, its decimal length and its body |
| StateHash.FrameCancels | cmd/mite/agent.go:3796-3804 | a frame determines its length, its body and what follows it |
| StateHash.FramingInjective | cmd/mite/agent.go:3796-3804 | two quadruples of section hashes give the same bytes only when equal, empty ones included |
| Marker.WriteMarker | cmd/mite/agent.go:3316-3348 | writes nothing without a composite, else exactly the marker's lines |
| Marker.ReadMarker | cmd/mite/agent.go:3221-3262 | the reader's loop answers what the line format says, legacy file included |
| Marker.LinesComeBack | cmd/mite/agent.go:3226-3237 | trimming and splitting the written text gives back its lines, even when the last value is empty |
| Marker.ReadFields | cmd/mite/agent.go:3238-3261 | reading the lines of a tidy marker gives back every field, an empty content hash included |
| Marker.RoundTripExactly | cmd/mite/agent.go:3221-3348 | for every clean marker, reading what was written gives it back if and only if it has a line besides the composite |
| Marker.OneLineMisread | cmd/mite/agent.go:3231-3237 | the excluded case reads back as the composite "composite" with the hash as its session |
| Marker.ReadsBack | cmd/mite/agent.go:3221-3348 | for every marker a push writes, what the reader makes of the file: an empty content hash at its end is lost, a one-line file is misread, all else comes back |
| MarkerReading.TextExactly | cmd/mite/agent.go:3316-3348 | the written file, character by character: the composite line, the session when there is one, the section hashes in their fixed order, the cell and tenants lines |
| MarkerReading.ReadsExactly | cmd/mite/agent.go:3238-3261 | in any file of two or more lines the last line that starts with a key decides its field, and without such a line the field is unset; unknown keys are sections |
| MarkerReading.LegacyHash | cmd/mite/agent.go:3226-3237 | a one-word file is a composite hash alone, whatever blanks surround it |
| MarkerReading.LegacyHashAndSession | cmd/mite/agent.go:3231-3237 | a one-line file of several words is a composite hash and a session; further words say nothing |
| Convergence.StoredMark | cmd/mite/agent.go:2735-2741 | through the file the marker comes back unchanged up to an empty content hash, or, in the one-line case, as one that matches no hash |
| ConvergenceTheorems.StepKeeps | cmd/mite/agent.go:2418-2741 | every step of a push, an abort or a restart keeps, section by section: an in-boot marker is true of a section that is not stale, and false of one the running push changed |
| ConvergenceTheorems.NewSectionsOk | cmd/mite/agent.go:2719-2740 | the sections a push records are its own hashes or records it took over, without a section it left undone |
| ConvergenceTheorems.RunKeeps | cmd/mite/agent.go:2386-2741 | the same over every run, restarts anywhere |
| ConvergenceTheorems.InitialInv | cmd/mite/agent.go:3221-3227 | a first boot without a marker file satisfies the invariant |
| ConvergenceTheorems.LegacyInv | cmd/mite/agent.go:3226-3237 | a mite that finds a legacy one-line marker starts sound, as long as that marker is true in the boot it names |
| ConvergenceTheorems.GateSound | cmd/mite/agent.go:2418-2440 | over every run, whenever the gate skips a push, each section that is not stale is in force as the push asks |
| ConvergenceTheorems.SectionSkipSound | cmd/mite/agent.go:2462-2513 | over every run, a per-section skip in the captured boot fires on a section that is not stale only when it is in force |
| ConvergenceTheorems.WrittenTold | cmd/mite/agent.go:2717-2741 | all that a written marker claims of a section that is not stale holds |
| ConvergenceOutcomes.MarkerExactly | cmd/mite/agent.go:2453-2741 | a push, with any restarts between its steps, writes its marker if and only if it has a hash and everything it had to run came out well (config with RBAC, the bundle and its retry, the items); the marker then records exactly what is done, section by section, and else the old one stands |
| ConvergenceOutcomes.FirstBootMarkerExactly | cmd/mite/agent.go:2453-2741 | the same for every push of every run from the first boot |
| ConvergenceOutcomes.GateLetsThrough | cmd/mite/agent.go:2418-2440 | the gate lets through every reload, every push without a hash or a probe, and every push whose marker is of another boot or another hash |
| ConvergenceLimits.CleanRunStaysClean | cmd/mite/agent.go:2717-2741 | partial pushes and carried sections are the only events that make a section stale |
| ConvergenceLimits.CleanRunsSkipSoundly | cmd/mite/agent.go:2418-2440 | from the first boot on, in every run without those two events, a push the gate skips has all it asks for in force |
| ConvergenceLimits.CleanRunsSkipSectionsSoundly | cmd/mite/agent.go:2462-2513 | the same for every section a push skips in the boot it captured |
| ConvergenceLimits.SameShapeIsClean | cmd/mite/agent.go:2720-2725 | pushes that all ask for the same sections carry nothing over |
| ConvergenceLimits.SameShapeSkipsSoundly | cmd/mite/agent.go:2418-2440 | when all pushes ask for the same sections and none ends partially, a push the gate skips has all it asks for in force |
| ConvergenceLimits.SameShapeSkipsSectionsSoundly | cmd/mite/agent.go:2462-2513 | the same for every section a push skips in the boot it captured |
| ConvergenceLimits.ResendSkipsExactly | cmd/mite/agent.go:3380-3390 | a resend right after its marker is skipped if and only if no deletion was deferred and no job or reload was left open under a non-empty content hash |
| ConvergenceLimits.IncompleteNeverSkipped | cmd/mite/agent.go:2726-2738 | while the marker of a push stands that left jobs, reloads (under a content hash) or deletions open, neither the gate nor the section skip skips what it left undone |
| ConvergenceLimits.RestartForcesReapply | cmd/mite/agent.go:2453-2460 | a push that saw a restart writes a marker under which the next push of the new boot skips nothing |
| ConvergenceFaults.ChangedSectionExactly | cmd/mite/agent.go:2717-2741 | after a push changed a section the in-boot marker spoke of, the marker is true of it again if and only if the push writes its own |
| ConvergenceFaults.GuardExactly | cmd/mite/agent.go:2719 | while another push's content is in force, an older push the gate would skip stays skipped if and only if the other push writes no marker |
| ConvergenceFaults.RecordedExactly | cmd/mite/agent.go:2720-2729 | a push records a section truly if and only if it asks for it, or captured this boot's marker, or this boot already holds the content taken over |
| ConvergenceFaults.WriteStaysClean | cmd/mite/agent.go:2720-2729 | a write leaves no stale section if and only if every section it records was asked for or the captured marker is this boot's |
| ConvergenceFaults.RecoveryClears | cmd/mite/agent.go:2717-2741 | once a push that applied a section writes its marker in the boot it captured, the marker is true of that section again |
| ConvergenceFaults.SkipSinceCaptureExactly | cmd/mite/agent.go:2453-2513 | for every section, a skip is right if and only if Jenkins did not restart since the capture or last came up with the content |
| ConvergenceFaults.PartialPushReached | cmd/mite/agent.go:2717-2719 | a run from the first boot in which a push is skipped with another push's config in force |
| ConvergenceFaults.CarriedSectionReached | cmd/mite/agent.go:2720-2725 | a run from the first boot in which a push skips items its boot never held |
| ConvergenceFaults.RestartedSkipReached | cmd/mite/agent.go:2462-2482 | for every section, a run from the first boot in which a resend skips a section the new boot does not hold |
| CanonicalSet.BytesCompare | cmd/mite/fingerprint.go:189-209 | the scan answers the lexicographic comparison |
| CanonicalSet.CompareEqual | cmd/mite/fingerprint.go:189-209 | the comparison is 0 exactly for equal byte strings |
| CanonicalSet.CompareFlips | cmd/mite/fingerprint.go:189-209 | swapping the operands flips the sign |
| CanonicalSet.CompareTransitive | cmd/mite/fingerprint.go:189-209 | the comparison is transitive |
| CanonicalSet.CompareExactly | cmd/mite/fingerprint.go:189-209 | one byte string is below another if and only if it is a proper prefix or smaller at the first difference |
| CanonicalSet.InnerAscends | cmd/mite/fingerprint.go:159-180 | an element's inner set lists ascend and keep their elements; every other field is unchanged |
| CanonicalSet.CanonicalAscends | cmd/mite/fingerprint.go:158-187 | the canonical list ascends by JSON bytes and holds each element with its inner lists sorted, and nothing else |
| CanonicalSet.CanonicalizeSet | cmd/mite/fingerprint.go:158-187 | in place: every element's inner set lists are sorted, then the elements |
| CanonicalSet.SortSetExactly | cmd/mite/fingerprint.go:181-185 | two lists sort alike if and only if they are equal as multisets |
| CanonicalSet.InnerSortedExactly | cmd/mite/fingerprint.go:159-180 | two elements agree after the inner sort if and only if they agree up to the order of inner set lists |
| CanonicalSet.CanonicalExactly | cmd/mite/fingerprint.go:158-187 | two lists get the same canonical form if and only if every element, inner order aside, occurs equally often in both |
| Projection.MatchSetPath | cmd/mite/fingerprint.go:34-51 | the loop answers whether the path is jenkins.authorizationStrategy.roleBased.roles with any one part behind it |
| Projection.GetAtPathExactly | cmd/mite/fingerprint.go:213-229 | a path reads a node if and only if a chain leads down to it: a document stands for its first child, and each part takes the first entry with its key |
| Projection.ToValueExactly | cmd/mite/fingerprint.go:257-296 | a node's value: the decoded scalar, the children's values in their places, or under each key the value of its last entry |
| Projection.BuildProjection | cmd/mite/fingerprint.go:136-153 | the loop builds exactly the projection of the listed paths |
| Projection.ReadSame | cmd/mite/fingerprint.go:233-254 | a written path reads back its value |
| Projection.ReadOther | cmd/mite/fingerprint.go:233-254 | a write disturbs no path it is neither above nor below |
| Projection.ProjectReadsBack | cmd/mite/fingerprint.go:136-153 | for a prefix-free list each path reads back its canonical value or the absent sentinel |
| Projection.LeavesAgree | cmd/mite/fingerprint.go:140-150 | two leaves are equal exactly when the documents agree at the path, as sets where the path is a set path, the sentinel text counting as absence |
| Projection.ProjectionExactly | cmd/mite/fingerprint.go:136-153 | any two exports encode alike if and only if at every listed path they agree, the sentinel text counting as absence |
| Projection.NoSentinelExactly | cmd/mite/fingerprint.go:136-153 | exports without the sentinel text encode alike if and only if they agree at every listed path |
| Projection.ChangeExactly | cmd/mite/fingerprint.go:136-153 | replacing the node at a listed path, at any depth, changes the encoded projection if and only if the content seen there changes |
| Projection.ScalarDrift | cmd/mite/fingerprint.go:136-153 | two scalars at a listed path, at any depth, encode alike if and only if they decode alike |
| Projection.UnmanagedChange | cmd/mite/fingerprint.go:136-153 | a change beside every listed path never changes the projection |
| Projection.SentinelCollides | cmd/mite/fingerprint.go:136-153 | a document holding the sentinel text projects like one without the path |
| RehydrationPath.ParseRehydrationPath | cmd/mite/rehydrate.go:109-174 | the index loop answers the grammar's parse |
| RehydrationPath.TakeJobPairs | cmd/mite/rehydrate.go:119-141 | the loop takes exactly the leading job pairs |
| RehydrationPath.ParsePrint | cmd/mite/rehydrate.go:109-174 | every path of a listed shape is accepted and described exactly |
| RehydrationPath.ParseSound | cmd/mite/rehydrate.go:109-174 | every accepted path is the print of a listed shape |
| RehydrationPath.AcceptsExactly | cmd/mite/rehydrate.go:109-204 | the parser accepts exactly the six shapes, numbers within int range |
| RehydrationPath.JobPathDeterminesDirs | cmd/mite/rehydrate.go:109-174 | the job path and the directory parts of accepted job files determine each other |
| RehydrationPath.RewriteParsesBack | cmd/mite/rehydrate.go:530-540 | the jobs/ rewriting of a job path parses back to the same directory parts |
| RehydrationPath.RewriteAcceptedExactly | cmd/mite/rehydrate.go:530-540 | the jobs/ rewriting of a job path is accepted if and only if every segment is valid |
| PathTheorems.AcceptedParts | cmd/mite/rehydrate.go:109-204 | every part of an accepted path is a name: not empty, no leading dot, no backslash |
| PathTheorems.NumberPathExactly | cmd/mite/rehydrate.go:119-150 | the number file of any job path is accepted if and only if each of its segments is such a name |
| HomePath.ConfineExactly | cmd/mite/rehydrate.go:206-219 | an accepted path passes if and only if the cleaned home is neither "/" nor ".", and then the result is the home, a slash and the path |
| HomePath.JoinedComponents | cmd/mite/rehydrate.go:206-219 | cleaning a join of plain parts appends them to the home's components |
| PathTheorems.CleanRules | cmd/mite/rehydrate.go:206-219 | cleaning is unchanged by taking out an empty part, a dot, or a name with the ".." behind it |
| PathTheorems.CleanAboveRoot | cmd/mite/rehydrate.go:206-219 | ".." at the root is the root |
| PathTheorems.CleanFixed | cmd/mite/rehydrate.go:206-219 | a path to which none of these rules applies is clean already |
| PathTheorems.ConfineAnyExactly | cmd/mite/rehydrate.go:206-219 | for any home and any path, accepted or not: the check passes if and only if the path is not empty and lands at the home or, for a home that names a directory, below it; the result is where it lands |
| Orphans.JobCreatorFor | cmd/mite/rehydrate.go:530-566 | the walk towards the root answers the nearest ancestor that decides |
| Orphans.ScanOmitsJob | cmd/mite/rehydrate.go:404-430 | the downward loop answers the omission verdict and ends |
| Orphans.BranchScanFailure | cmd/mite/rehydrate.go:437-463 | the downward loop answers the failed folder and its result, and ends |
| Orphans.VerdictsExclude | cmd/mite/rehydrate.go:404-463 | the two verdicts never both fire for one job |
| Orphans.FailureIsAbove | cmd/mite/rehydrate.go:437-463 | a reported failure is a folder above the job with a finished, failed, untruncated scan |
| Orphans.OmitsExactly | cmd/mite/rehydrate.go:404-430 | a job is omitted if and only if some level on its way was scanned with success and does not list the next, while every level above does |
| Orphans.FailsExactly | cmd/mite/rehydrate.go:437-463 | a folder and a result are reported if and only if the folder is the first unsuccessful level that the levels above lead to and the result is that of its scan |
| OrphanTheorems.CreatorExactly | cmd/mite/rehydrate.go:530-566 | the lowest proper ancestor with an invalid segment or anything but a missing directory decides, with the answer of its kind; when every ancestor is missing nothing can create the job |
| OrphanTheorems.WayExactly | cmd/mite/rehydrate.go:413-428 | the levels from a folder to a job below it add one path segment at a time |
| OrphanTheorems.RowIsFirst | cmd/mite/rehydrate.go:499-506 | the first inventory row of a folder is its row |
| OrphanTheorems.OrphanExactly | cmd/mite/rehydrate.go:374-396 | a job is an orphan if and only if nothing can create it, or a level below its creating folder was scanned with success and omits the next, or the scans stop at a failed one whose folder is gone |
| OrphanTheorems.HeldExactly | cmd/mite/rehydrate.go:437-485 | a job is held back by a folder if and only if the scans below its creating folder lead to that folder's failed scan |
| Orphans.Verdict | cmd/mite/rehydrate.go:374-396 | one job's verdict by the three walks, with the inventory loaded on first need |
| Orphans.OrphanDeferredJobs | cmd/mite/rehydrate.go:369-398 | keep and orphans are the deferred list split by the verdict, in order; the inventory loads at most once, exactly when some job needs it |
| Orphans.FilterPartitions | cmd/mite/rehydrate.go:369-398 | every deferred job is in exactly one list, as often as it was deferred |
| Orphans.GoneOnlyReleases | cmd/mite/rehydrate.go:388-394 | a larger gone set never turns an orphan back into a kept job |
| Orphans.ReleasedExactly | cmd/mite/agent.go:2641-2672 | the logged difference of orphan counts is exactly the jobs the gone set released |
| Orphans.GroupHeld | cmd/mite/rehydrate.go:469-485 | each failed folder has one row with its scan's result and repository, its count is its kept jobs, and the counts sum to the kept jobs under a failed scan |
| Orphans.FailedBranchScans | cmd/mite/rehydrate.go:468-495 | one report row per failed folder, sorted, with the scan's index result and repository, the right count, and their sum |
| RehydrationApply.FileTree.WriteFile | cmd/mite/rehydrate.go:292-305 | creates the parents, writes the temporary file and renames it over the target, which also takes a leftover of that name away; nothing else changes |
| RehydrationApply.FileTree.RunUnit | cmd/mite/rehydrate.go:700-748 | one number file or one build: defer, skip, write or fail, with the tree it leaves |
| RehydrationApply.FileTree.ApplyBundle | cmd/mite/rehydrate.go:647-753 | the whole apply leaves the tree, the deferred jobs and the outcome of the step function, and writes nothing when a path is refused |
| RehydrationApply.PlanUnits | cmd/mite/rehydrate.go:657-686 | the first loop answers the bundle's units, or nothing as soon as one path is refused |
| RehydrationUnits.UnitsGood | cmd/mite/rehydrate.go:657-686 | the grouping loses and doubles no file, and gives each build and each number one unit |
| RehydrationUnits.GroupExactly | cmd/mite/rehydrate.go:669-684 | whatever the bundle, a build's group holds the last build.xml and the last other file filed under it |
| RehydrationContent.EntryExactly | cmd/mite/rehydrate.go:657-686 | every accepted path is filed by its job and build; only number files and build.xml keep their names |
| RehydrationContent.NumberInExactly | cmd/mite/rehydrate.go:1015-1037 | a text holds a number if and only if it spells a signed decimal within 64 bits between blanks |
| RehydrationSafety.HistoryKept | cmd/mite/rehydrate.go:712-735 | no bundle, failing ones included, adds, changes or removes anything below a build directory that existed |
| RehydrationSafety.NumbersNeverLowered | cmd/mite/rehydrate.go:1015-1037 | no bundle lowers, garbles or removes a stored nextBuildNumber |
| RehydrationSafety.LandsInOwnBuild | cmd/mite/rehydrate.go:718-730 | a bundle file lands inside a build directory only as a file of that build |
| RehydrationSafety.ChangelogFirst | cmd/mite/rehydrate.go:726-748 | a build.xml appears only after its changelog is in place, whatever the bundle's order and even when the apply stops |
| RehydrationTheorems.SlotNamesPath | cmd/mite/rehydrate.go:657-686 | two bundle files share a build and a name only when their paths are equal |
| RehydrationTheorems.ApplyExactly | cmd/mite/rehydrate.go:647-753 | a bundle of good paths succeeds if and only if every file whose content is needed inflates and every such number file holds a number; it then writes exactly the files its rules admit on the original tree and defers exactly the jobs without config.xml, once each |
| RehydrationTheorems.OrderIrrelevant | cmd/mite/rehydrate.go:647-753 | bundles with the same files in different orders succeed alike, and then leave the same tree and defer the same jobs |
| RehydrationTheorems.SecondApply | cmd/mite/rehydrate.go:647-753 | after a successful apply a second one changes nothing and reports the same outcome |
| RehydrationTheorems.NumberEndsAtMax | cmd/mite/rehydrate.go:1015-1037 | after a successful apply a number is the larger of stored and proposed, the proposed one when nothing parsable was stored, and unchanged when the job is missing |
| RehydrationContent.LandsAtPath | cmd/mite/rehydrate.go:657-748 | a file of a job that keeps its own directory lands at the parts of its path |
| RehydrationContent.ReplacesFirst | cmd/mite/rehydrate.go:771-779 | the changelog reference is replaced at its first occurrence only, and a text without it is unchanged |
| RehydrationContent.SucceedsExactly | cmd/mite/rehydrate.go:647-753 | when an apply of good paths succeeds, said of the bundle's files and the original tree |
| RehydrationContent.RefusedWritesNothing | cmd/mite/rehydrate.go:657-661 | a bundle with a path outside the six shapes is refused before anything is written |
| RehydrationContent.FileExactly | cmd/mite/rehydrate.go:700-779 | after a successful apply each file lies where its path says, with its own content, if its job exists and no such build or larger number was there, and else that place is as it was; a moved job's build.xml has its changelog reference moved along |
| RehydrationContent.DeferredExactly | cmd/mite/rehydrate.go:700-716 | after a successful apply a job is deferred if and only if it has no config.xml |
| RehydrationContent.ElsewhereSame | cmd/mite/rehydrate.go:647-753 | a place where no file of the bundle and no temporary file of theirs lies is as it was |
| RehydrationRetry.BuildFrozen | cmd/mite/rehydrate.go:724-730 | through any sequence of applies, failed ones included, a build directory that exists stays as it is |
| RehydrationRetry.HalfWrittenForever | cmd/mite/rehydrate.go:726-748 | a new build whose changelog is written and whose build.xml does not inflate never gets a build.xml, whatever is applied later |
| RehydrationRetry.LoneXmlLeavesNothing | cmd/mite/rehydrate.go:736-748 | without a changelog the same failure leaves the tree as it was |

## Left out

- gRPC, TLS, HTTP and JSON decoding, spans and metrics counters around the stores: I/O; a send is a step that succeeds or fails.
- The log retained-bytes gauge: it matches the store only when no (run, sequence) is committed twice.
- The refusal of log posts during a pause window: the handler reads the window under its own lock before it reserves, so it is not a step of the store; the window itself and its rounding are modelled.
- The acknowledgement buffer and the tail controls: simple queues around the stores.
- Replay before fresh forwards: the source takes its snapshot before the send lock, so no such order is claimed.
- 64-bit overflow of byte totals, pauses and reservation ids: integers are unbounded, except where the source parses an int.
- Listing the managed paths: the path list is an input of the projection, because the source's walk can share a backing array between sibling paths.
- YAML and XML parsing, scalar decoding, XML escaping, gzip and SHA-256: documents are datatypes, decoding and escaping are parameters, inflating is a flag, hashes are injective.
- Job directory resolution inside the home: its answer is a parameter; the proofs ask that it names job directories and, where stated, different ones for different jobs.
- Symbolic link checks, file permissions, rename failures, other I/O errors and a crash between the temporary write and the rename of the apply.
- Jenkins calls and the items engine: their outcomes are arbitrary step parameters.
- Nil responses in the waiter maps: the source ignores them before any state changes.
- Health probes, schedule and branch pollers, placement cells, and the operator, gateway and bff mains: easy members beside the four parts modelled.
