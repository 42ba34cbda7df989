# Verified model of the trading runtime's control plane

This project models, in Dafny, the parts of the trading SDK that decide whether an order may
be sent, on which connection, and what is known when it is: the account's execution admission,
the HTTP slot pool, the lock-free snapshot lane between them, the virtual-owner scheduler, the
normal-cancel reactor and the warm-recovery gate. It proves what those components promise over
every run.

| files | component |
|---|---|
| `Admission.dfy` | the account's admission as a value: lanes, probes, pauses, budget, and the router's operations |
| `AdmissionObject.dfy` | the router's object, updated in place, each method proved to make exactly that change |
| `AdmissionMemo.dfy`, `AdmissionGate.dfy`, `AdmissionBudget.dfy`, `AdmissionFence.dfy`, `AdmissionRecovery.dfy`, `AdmissionEpisode.dfy`, `AdmissionReach.dfy`, `AdmissionExit.dfy`, `AdmissionLiveness.dfy`, `AdmissionCluster.dfy`, `AdmissionCancel.dfy`, `AdmissionReport.dfy`, `AdmissionHistory.dfy` | what every run of it keeps, and what some run can reach |
| `AdmissionLanes.dfy` | how one operation moves one lane |
| `SlotPool.dfy`, `SlotAcquire.dfy` | permits, tokens and repairs, interleaved one atomic step at a time |
| `LatestSnapshot.dfy` | the triple buffer, one atomic step and one copied word at a time |
| `SnapshotWords.dfy`, `HealthPath.dfy` | HTTP results, an owner's captured totals, the lossy lane word by word, and admission, composed |
| `DispatchRace.dfy` | a fast lane's occupancy flag, the owner's two readings and the router's stamp, interleaved with admission |
| `VirtualOwner.dfy`, `OwnerPrivate.dfy`, `OwnerMarket.dfy`, `OwnerDelivery.dfy`, `OwnerService.dfy`, `Scheduler.dfy`, `TimingHistogram.dfy` | the virtual-owner scheduler and its histogram |
| `CancelReactor.dfy`, `CancelCommands.dfy` | the bounded cursor and the cancel actors with their senders and workers |
| `Recovery.dfy`, `RecoveryJournal.dfy`, `RecoveryGate.dfy`, `RecoveryExposure.dfy` | the outage journal and the gate it drives |

How the model is built:

- Every atomic load, store, exchange, compare-and-swap and channel operation is one sequentially
  consistent step. A concurrent component is a function from a state and a step to a state; a step
  that is not enabled changes nothing, so every sequence of steps is a run and "for all step
  sequences" means "in every interleaving".
- Clocks and counters are natural numbers. Where the code saturates, so does the model
  (`SatAdd`, `SatSub`, `SatMul` in `Common.dfy`); widths narrower than 64 bits are written out.
- A property of a history (what was accepted, what was seen, what was proved) is stated through
  an observer that is folded along the run and reads only what an outsider could see.
- Time, HTTP outcomes, what an outbox answers and how a prewarm ends are arguments of the steps.

Points where a natural reading of the intent is not what the code does, each with an exact
condition:

- Bad news between two receipts: what counts is when the owner *captured* its totals. A dedicated
  owner publishes, until its next capture, totals that may omit a failure already recorded
  (`HealthPath.BadBeforeBuildIsNotEnough`); the totals shown move exactly with the captures
  (`HealthPath.TotalsMoveExactly`).
- Evidence for leaving recovery is counted since the last adverse report, retirement or pause, not
  since that recovery was entered. When the last ready cancel lane is lost without a pause, the
  successes are kept (`AdmissionEpisode.EntersRecovery`), and a report that proves nothing can end
  the recovery (`AdmissionEpisode.OldSuccessesEndRecovery`). Leaving takes the full number of places
  sent since a given moment if and only if no success is counted and no live probe is waited for
  then (`AdmissionExit.FullNumberExactly`); in general the missing places are the required number
  less those two (`AdmissionExit.ExitTakesExactly`), and so is the evidence completed since
  (`AdmissionEpisode.EpisodeTakesEvidence`).
- The router's mark on a lane in flight: `execution_admission.rs:343-344` relies on an owner reading
  the occupancy flag after the router claimed it, but a dedicated owner reads the flag before the
  clock (`engine.rs:16470`, `engine.rs:16476`). A place sent in between is released by that idle report
  while in flight, and recovery then allows a second one. Wherever recovery may send on one of two
  lanes such an interleaving exists (`DispatchRace.EarlyReceiptExists`); the mark is exact throughout
  a run if and only if no report read before a claim and stamped no earlier than its dispatch is
  accepted in flight (`DispatchRace.MarkedExactly`).
- The lane's occupancy flag: at shutdown commands are sent past it, so a command or a reply can be
  outstanding with the flag clear (`CancelReactor.ShutdownReplyUnflagged`). The flag is exact
  throughout a run if and only if no such command was sent (`CancelReactor.FlagExactUnlessShutdown`).
- Recovery windows that touch: the loader accepts a window that stops at the very instant the
  previous one is reconciled, and sorts that Stop first. Some run then quotes inside the second
  outage, and this happens for touching windows only (`RecoveryExposure.ExposedExactlyIfTouching`).
- The scheduler selects an owner with nothing due behind a market entry whose ready time saturated,
  and at the last u64 instant; `OwnerService.StepFindsDueWorkExactly` gives the exact state of each.

## Model

Results come first; the rows after them tie each object's methods to the model they are about.

| member | source | states |
|---|---|---|
| `AdmissionMemo.RefreshIsRecompute` | crates/hexagent-engine/src/execution_admission.rs:454-470 | on a coherent account the cached refresh and a forced recomputation give the same full state |
| `AdmissionMemo.NothingChanges` | crates/hexagent-engine/src/execution_admission.rs:460-470 | before the cached deadline no count, lease, backoff or pause the decision reads can change |
| `AdmissionMemo.CachingIsInvisible` | crates/hexagent-engine/src/execution_admission.rs:454-569 | every run equals the run of an account that always recomputes, for any clock readings |
| `AdmissionMemo.CacheLasts` | crates/hexagent-engine/src/execution_admission.rs:455-458 | a recomputed decision is reusable at its own time, so the fast path is really taken |
| `AdmissionGate.PausedMeans` | crates/hexagent-engine/src/execution_admission.rs:525-536 | paused if and only if no fast lane has a running lease and usable sockets, no ordinary cancel lane could take back a place, or a pause is running |
| `AdmissionGate.OpenMeans` | crates/hexagent-engine/src/execution_admission.rs:542-547 | fully open if and only if there are lanes of both kinds, nothing pauses or recovers, every lease is fresh and every fast and ordinary cancel lane answers for itself |
| `AdmissionGate.OutsideRecoveryCancelsWork` | crates/hexagent-engine/src/execution_admission.rs:526-531 | outside recovery some ordinary cancel lane has a running lease, usable sockets and no failure of its own |
| `AdmissionGate.AllowedExactly` | crates/hexagent-engine/src/execution_admission.rs:571-581 | the router may send on a lane if and only if it works and is idle and, in recovery, nothing at all is in flight, otherwise it is verified or no other lane is on trial |
| `AdmissionGate.OpenTakesProof` | crates/hexagent-engine/src/execution_admission.rs:542-547 | whenever a run announces it is fully open, every fast lane's owner has proved that lane's current generation healthy, with nothing adverse, no newer generation and no reset since |
| `AdmissionGate.EpochNamesDecision` | crates/hexagent-engine/src/execution_admission.rs:561-567 | along every run epochs never go back, and an unchanged unsaturated epoch means an unchanged state and budget |
| `AdmissionBudget.DispatchSpendsOne` | crates/hexagent-engine/src/execution_admission.rs:504-560 | one allowed dispatch lowers the budget by exactly one, keeps the state and closes its lane, however many lanes there are |
| `AdmissionBudget.DispatchSpendsSlot` | crates/hexagent-engine/src/execution_admission.rs:561-569 | for lanes that a u16 can count, the announced slots fall by exactly one and the announced state stays |
| `AdmissionBudget.BudgetIsUsable` | crates/hexagent-engine/src/execution_admission.rs:575-581 | some lane may be sent on if and only if slots are announced |
| `AdmissionBudget.BurstSpendsBudget` | crates/hexagent-engine/src/execution_admission.rs:532-581 | no burst overdraws the uncapped budget, and a burst cannot go on if and only if it has used all of it, whichever lanes it picked |
| `AdmissionBudget.BurstSpendsSlots` | crates/hexagent-engine/src/execution_admission.rs:561-581 | the same of the announced slots, for lanes that a u16 can count: each place takes one, and a burst is stuck exactly when none is left |
| `AdmissionBudget.TrialsGoAlone` | crates/hexagent-engine/src/execution_admission.rs:537-559 | recovery sends only on an idle account, and an unverified lane is tried only while no other trial is in flight |
| `AdmissionBudget.OnePlacePerLane` | crates/hexagent-engine/src/engine.rs:16092-16136 | a router that asks first, at whatever reading of the clock, never dispatches a lane again before it accepted its owner's report that the lane is free, no earlier than the dispatch, or took the dispatch back |
| `AdmissionFence.RetiredStaysClosed` | crates/hexagent-engine/src/execution_admission.rs:98-100 | after any run, a retired lane is ready only on a strictly later generation |
| `AdmissionFence.GenerationFence` | crates/hexagent-engine/src/execution_admission.rs:218-229 | the same over every run of a new account, before and after the retirement |
| `AdmissionFence.RetiredSendsNothing` | crates/hexagent-engine/src/execution_admission.rs:575-581 | so is every place allowed on it |
| `AdmissionFence.VerifiedByProof` | crates/hexagent-engine/src/execution_admission.rs:301-383 | a lane becomes verified only by an accepted report of its own with a new, prompt, healthy result and unmoved totals, on a generation that is not retired |
| `AdmissionFence.VerifiedOnlyLater` | crates/hexagent-engine/src/execution_admission.rs:366-383 | in every run, after a lane is retired the next report that verifies it is a proof on a strictly later generation |
| `AdmissionFence.ResetsAreBounded` | crates/hexagent-engine/src/execution_admission.rs:385-393 | in every run the account resets its transport at most once per generation any lane has gone through |
| `AdmissionRecovery.RecoveryTakesEvidence` | crates/hexagent-engine/src/execution_admission.rs:397-435 | whenever a run leaves recovery, an outside observer holds at least max(1, configured) distinct completed probes since the last adverse report, retirement or pause, each on its dispatch generation with a newer attempt, and some cancel lane is healthy |
| `AdmissionRecovery.AbsorbedRecovery` | crates/hexagent-engine/src/execution_admission.rs:394-435 | what a report does to probe, successes and the recovery flag, adverse or not |
| `AdmissionEpisode.EntersRecovery` | crates/hexagent-engine/src/execution_admission.rs:385-537 | whatever operation enters a recovery, a failure, reset, retirement or pause forgets successes and probe, and the want of a ready cancel lane keeps exactly the successes counted and the probe pending |
| `AdmissionEpisode.LeavesExactly` | crates/hexagent-engine/src/execution_admission.rs:400-436 | a report ends a recovery if and only if it is neither adverse nor a reset, enough successes are then counted, a cancel lane is ready and nothing pauses |
| `AdmissionEpisode.EpisodeTakesEvidence` | crates/hexagent-engine/src/execution_admission.rs:413-435 | from any moment of any run, leaving recovery takes the required number of places sent and completed since, distinct and genuine, less the successes counted and one for a probe in flight then |
| `AdmissionExit.ExitNeeds` | crates/hexagent-engine/src/execution_admission.rs:405-435 | every run that ends a recovery sends at least the places that successes and a live probe fall short of the required number |
| `AdmissionExit.ExitTakesExactly` | crates/hexagent-engine/src/execution_admission.rs:405-435 | in every reachable account that recovers unpaused, some run of a router that asks first ends the recovery with at most n places if and only if successes, a live probe and n make up the required number |
| `AdmissionExit.FullNumberExactly` | crates/hexagent-engine/src/execution_admission.rs:405-435 | in every reachable account in recovery, leaving takes the full number of new places if and only if no success is counted and no live probe is waited for |
| `AdmissionLiveness.CanAlwaysOpen` | crates/hexagent-engine/src/execution_admission.rs:525-547 | from every reachable account with a fast and an ordinary cancel lane, once its pause is over, some run of reports and of places the account allows announces that it is fully open |
| `AdmissionEpisode.OldSuccessesEndRecovery` | crates/hexagent-engine/src/execution_admission.rs:526-531 | a concrete run from a new account whose second recovery is ended by an idle report, with no place sent or completed in it |
| `AdmissionCluster.PausesOnSecondLane` | crates/hexagent-engine/src/execution_admission.rs:754-776 | a failure pauses the account if and only if it is the second distinct lane's inside a running window |
| `AdmissionCluster.FailureReportPauses` | crates/hexagent-engine/src/execution_admission.rs:394-399 | a failure report that neither resets the transport nor answers the probe moves the pause by that rule alone |
| `AdmissionCluster.CountsDistinctLanes` | crates/hexagent-engine/src/execution_admission.rs:754-776 | in every run of a new account the counter is the number of distinct lanes that failed in the window, one more once it paused |
| `AdmissionReport.ReportTakesIn` | crates/hexagent-engine/src/execution_admission.rs:301-383 | everything an accepted report does to its own lane, told from the report: what is recorded, the occupancy, the backoff it starts or ends, retirement and verification |
| `AdmissionReport.ResetsExactly` | crates/hexagent-engine/src/execution_admission.rs:385-393 | a request without an answer on a generation not yet retired leaves no lane of either role ready or verified, asks for one reset avoiding the reported peer and counts it; any other report touches no other lane and asks for none |
| `AdmissionReport.PausesExactly` | crates/hexagent-engine/src/execution_admission.rs:385-399 | an accepted report moves the pause by the reset it asks for, the failure cluster it completes or the probe it fails, to exactly where, and by nothing else |
| `AdmissionReport.BackoffDoubles` | crates/hexagent-engine/src/execution_admission.rs:778-791 | each pause in a row is twice the last, three times over, within u64 and up to the configured maximum |
| `AdmissionReport.RecordNeverGoesBack` | crates/hexagent-engine/src/execution_admission.rs:271-299 | in every run a lane's sequence, lease, generation, attempt and totals never go back, and no total exceeds the one it is part of |
| `AdmissionReport.RefusedExactly` | crates/hexagent-engine/src/execution_admission.rs:271-299 | a report that is not newer changes no lane; a newer one that is not believed takes its lane's lease away and nothing else |
| `AdmissionReport.NotSentUndoes` | crates/hexagent-engine/src/execution_admission.rs:706-735 | taking a dispatch back restores every lane, and no probe waits for it |
| `AdmissionHistory.ResetIsHandedOverOnce` | crates/hexagent-engine/src/execution_admission.rs:218-248 | in every run of a new account a reset is pending exactly from when it is called for until it is handed over, with the peer last named, and resets for want of an answer are counted |
| `AdmissionHistory.StreakExactly` | crates/hexagent-engine/src/execution_admission.rs:396-436 | after any operation the pauses in a row are one more for each pause it begins, none once a report completes a recovery's evidence, else as many as before |
| `AdmissionHistory.ReserveTakesEffect` | crates/hexagent-engine/src/execution_admission.rs:258-266 | setting a cancel lane aside changes that lane alone and counts at once: unpaused means another ordinary lane may cancel |
| `AdmissionCancel.ProbationSlot` | crates/hexagent-engine/src/execution_admission.rs:682-695 | the lane on trial is the oldest waiting candidate, and there is one only beside a proven lane |
| `AdmissionCancel.LaneRank` | crates/hexagent-engine/src/execution_admission.rs:673-680 | rank 0 is exactly proven or on trial, rank 1 exactly any other lane with a running lease that may be probed, rank 2 the rest |
| `AdmissionCancel.TrialMeans` | crates/hexagent-engine/src/execution_admission.rs:682-695 | the lane on trial is exactly the one waiting longest among the failed ordinary lanes that work again thirty seconds after their backoff, and only beside a trusted one |
| `AdmissionCancel.OneOnTrial` | crates/hexagent-engine/src/execution_admission.rs:682-695 | at most one unproven lane is preferred |
| `AdmissionCancel.TrialStays` | crates/hexagent-engine/src/execution_admission.rs:687-694 | through every run of dispatches, checks, faults, heartbeats and fast-lane reports, only the renewed lease of an older lane can take the trial away |
| `HealthPath.BadIsCounted` | crates/hexagent-runtime/src/http1_pool.rs:1533-1580 | an attempt moves the cumulative totals by one exactly when it was not a prompt answer of a responsive endpoint |
| `HealthPath.TotalsCount` | crates/hexagent-runtime/src/http1_pool.rs:1533-1585 | which totals an attempt moves, from its reply, status and duration alone, and with which generation, peer and outcome |
| `HealthPath.SecondLateRetires` | crates/hexagent-runtime/src/http1_pool.rs:1533-1585 | a generation is retired by its second late answer in a row and not by its first |
| `HealthPath.OwnerIsBelieved` | crates/hexagent-engine/src/execution_admission.rs:278-299 | whatever the interleaving, an owner's snapshot is newer than the last one taken and trips no delivery-fault check |
| `HealthPath.BelievedExactly` | crates/hexagent-engine/src/execution_admission.rs:278-299 | after a given snapshot the router believes exactly the reports that are well formed, newer, not from the future and take nothing back |
| `HealthPath.NoBadNewsLost` | crates/hexagent-engine/src/engine.rs:16350-16493 | in every interleaving of HTTP completions, captures, repairs, publications, word copies and router operations, a bad attempt between the captures behind two received snapshots leaves the lane unverified and the account without probe or successes, however many snapshots were overwritten |
| `HealthPath.TotalsMoveExactly` | crates/hexagent-engine/src/execution_admission.rs:303-312 | the totals the router is shown moved if and only if a bad attempt completed between the two captures |
| `HealthPath.NoAnswerReaches` | crates/hexagent-engine/src/execution_admission.rs:303-393 | in every interleaving, a receipt that shows a request without an answer leaves no lane of the account ready and asks for a reset |
| `HealthPath.BadBeforeBuildIsNotEnough` | crates/hexagent-engine/src/engine.rs:16350-16370 | a concrete run where an attempt fails before the snapshot is built and received but after its capture, and the receipt still verifies the lane |
| `HealthPath.ReceiveObserves` | crates/hexagent-runtime/src/latest_snapshot.rs:76-94 | what the router observes, of all its words, is the very snapshot that was built |
| `SnapshotWords.RoundTrip` | crates/hexagent-engine/src/execution_admission.rs:47-63 | a snapshot's words read back as the snapshot |
| `DispatchRace.MarkedExactly` | crates/hexagent-engine/src/execution_admission.rs:341-352 | in every interleaving, a stamped place is marked until it is over, at every step, if and only if no idle report is accepted in flight whose flag was read before the claim and whose clock was read no earlier than the stamp |
| `DispatchRace.LaterReadingKeepsMark` | crates/hexagent-engine/src/execution_admission.rs:341-352 | a report whose flag was read after the claim never takes the mark of a place in flight |
| `DispatchRace.RecoverySendsOne` | crates/hexagent-engine/src/execution_admission.rs:704-721 | without such a receipt, while a place is really in flight in recovery no lane may be sent on, whenever the router asks |
| `DispatchRace.EarlyReceiptExists` | crates/hexagent-engine/src/engine.rs:16462-16487 | in every state where recovery lets a place go out, some interleaving releases it while in flight, settles its probe and lets another lane be sent on |
| `SlotPool.NoSlotLost` | crates/hexagent-runtime/src/http1_pool.rs:983-993 | in every interleaving each slot is busy, quarantined, has its token, or has an agent that owes it |
| `SlotPool.QuiescentSlotHasOneToken` | crates/hexagent-runtime/src/http1_pool.rs:1803-1843 | when nothing is in progress a free slot has exactly one token in the lane |
| `SlotPool.TokenHasOneCarrier` | crates/hexagent-runtime/src/http1_pool.rs:1824-1843 | the token bit is set exactly when one lane entry, publisher or receiver carries the token |
| `SlotPool.LaneNeverFull` | crates/hexagent-runtime/src/http1_pool.rs:1824-1843 | a publisher at its send always has room, so the undo branch is dead |
| `SlotPool.OnePermitPerSlot` | crates/hexagent-runtime/src/http1_pool.rs:1991-2029 | busy is set exactly while one agent, and never two, holds the slot's permit |
| `SlotAcquire.PermitIsWhatWasAsked` | crates/hexagent-runtime/src/http1_pool.rs:1967-2000 | in every interleaving an agent that asked for one exact slot holds that slot's permit or none, puts any other token back, and every permit follows a clear quarantine reading |
| `SlotAcquire.ExactAcquireArrives` | crates/hexagent-runtime/src/http1_pool.rs:1967-1989 | in a pool at rest an exact acquire of a free, sound slot reaches its permit within as many receives as there are tokens |
| `SlotPool.OneRepairOwner` | crates/hexagent-runtime/src/http1_pool.rs:905-946 | quarantined is set exactly while one agent owns the repair, and no repair ends with it set |
| `SlotPool.GenerationMovesByOwner` | crates/hexagent-runtime/src/http1_pool.rs:952-981 | the generation moves only by its repair owner's install, by one |
| `SlotPool.RepairFence` | crates/hexagent-runtime/src/http1_pool.rs:905-1101 | a claim that passed its recheck can always install; a stale one only gives back what it took |
| `SlotAcquire.RepairCompletes` | crates/hexagent-runtime/src/http1_pool.rs:905-1040 | from every reachable state an idle agent can repair a slot that nobody repairs: one generation later, quarantine as before |
| `LatestSnapshot.NeverWaitsForPeer` | crates/hexagent-runtime/src/latest_snapshot.rs:58-94 | wherever the peer was preempted, each endpoint has a step to take |
| `LatestSnapshot.SlotsNeverShared` | crates/hexagent-runtime/src/latest_snapshot.rs:37-66 | the three indices stay a permutation in every interleaving |
| `LatestSnapshot.ReceivesCompleteIncreasing` | crates/hexagent-runtime/src/latest_snapshot.rs:76-94 | every value received is one whole publication, and publication numbers strictly increase |
| `LatestSnapshot.ReceivesNewest` | crates/hexagent-runtime/src/latest_snapshot.rs:76-94 | a receive returns the newest snapshot at its exchange, whatever the producer does meanwhile |
| `LatestSnapshot.PublicationsConserved` | crates/hexagent-runtime/src/latest_snapshot.rs:58-66 | published = received + replaced + unread |
| `LatestSnapshot.DisconnectedAfterDrain` | crates/hexagent-runtime/src/latest_snapshot.rs:69-94 | disconnection is reported only after the last publication was received |
| `LatestSnapshot.DropIsReported` | crates/hexagent-runtime/src/latest_snapshot.rs:69-94 | once the producer is gone, a consumer that goes on polling is told so within two copies and seven more steps |
| `LatestSnapshot.Deliver` | crates/hexagent-runtime/src/latest_snapshot.rs:58-94 | a snapshot being written can always be delivered by the two endpoints' own steps |
| `OwnerPrivate.PrivateLosslessFifo` | crates/hexagent-engine/src/virtual_owner.rs:222-241 | through any suspensions, rebases and resumptions, applied ++ in service ++ queued equals accepted, and drained means all of it was applied |
| `OwnerPrivate.PrivateReceiptTimes` | crates/hexagent-engine/src/virtual_owner.rs:222-512 | in every run a private message is delivered with the time it was enqueued or last rebased, suspended or not |
| `OwnerPrivate.PrivateReadyTimes` | crates/hexagent-engine/src/virtual_owner.rs:222-512 | in every run a waiting private message is ready the apply delay after that, or at once if an outage returned it |
| `OwnerMarket.OneEntryPerKeyAndEpoch` | crates/hexagent-engine/src/virtual_owner.rs:172-220 | at most one pending entry per epoch and key, carrying the last payload enqueued for them |
| `OwnerMarket.BarriersLeaveFirst` | crates/hexagent-engine/src/virtual_owner.rs:172-272 | entries leave in order of birth, and no keyed payload overtakes a barrier received before it |
| `OwnerDelivery.MarketDeliveries` | crates/hexagent-engine/src/virtual_owner.rs:172-428 | in every run the market events delivered, then the one in service, hold the last payload received for each entry taken, in order of birth, with nothing received after a barrier before it |
| `OwnerDelivery.FencesHold` | crates/hexagent-engine/src/virtual_owner.rs:172-316 | nothing received since the last barrier, metadata, retirement or outage has replaced what was received before it |
| `OwnerDelivery.HistoryDeliveries` | crates/hexagent-engine/src/virtual_owner.rs:293-305 | in every run history jobs are delivered at most once, in order, with their own payload, and the latest waits, is in service or was delivered last |
| `OwnerService.StepFindsDueWork` | crates/hexagent-engine/src/virtual_owner.rs:318-428 | what `ready_for` announces the step finds: ready, received, and never an empty lane taken for a watchdog |
| `OwnerService.ReadyExactly` | crates/hexagent-engine/src/virtual_owner.rs:318-345 | an owner is announced ready at exactly the instants at which it has something to do |
| `OwnerService.BeginsByPriority` | crates/hexagent-engine/src/virtual_owner.rs:370-425 | what a step begins: the oldest due private message, else the due history job, else a tick, else the head of the market lane, with its payload and receipt time |
| `OwnerService.StepFindsDueWorkExactly` | crates/hexagent-engine/src/virtual_owner.rs:318-398 | a selected owner has nothing due, before the last u64 instant, if and only if a saturated entry heads its market lane, no other input is ready and the watchdog gap has not passed; at that instant, if and only if nothing is left |
| `OwnerService.EndOfTimeIsNotDue` | crates/hexagent-engine/src/virtual_owner.rs:318-398 | at the last instant an idle owner is selected with nothing due |
| `OwnerService.SaturatedEntryIsNotDue` | crates/hexagent-engine/src/virtual_owner.rs:326-336 | a saturated market entry is popped unready when a tick comes inside the gap |
| `OwnerService.WatchdogMovesOn` | crates/hexagent-engine/src/virtual_owner.rs:392-402 | however many ticks were missed, the next one lies strictly after now |
| `OwnerService.WatchdogStaysOnGrid` | crates/hexagent-engine/src/virtual_owner.rs:392-402 | missed ticks coalesce: the next one is the first after now on the same grid |
| `OwnerService.TicksAreSpaced` | crates/hexagent-engine/src/virtual_owner.rs:384-402 | beside market work a tick is followed by none for half a second |
| `OwnerService.ResumesAnew` | crates/hexagent-engine/src/virtual_owner.rs:514-524 | a resumed owner is next ready for a tick one whole interval later, and its market work is not held up for half a second |
| `OwnerService.InterruptedIsDue` | crates/hexagent-engine/src/virtual_owner.rs:456-524 | work an outage interrupted is due as soon as the owner resumes, with the payload and the receipt time it had |
| `OwnerService.OverflowsExactly` | crates/hexagent-engine/src/virtual_owner.rs:172-264 | an operation overflows exactly when it adds to a full lane, and no lane ever holds more than its capacity |
| `OwnerService.StepShrinksBacklog` | crates/hexagent-engine/src/virtual_owner.rs:357-428 | a step at a fixed instant uses up some of a finite backlog |
| `OwnerService.ServiceIsDueAndDisjoint` | crates/hexagent-engine/src/virtual_owner.rs:318-428 | in every run that enqueues before it steps, steps serve due work, a served watchdog moves past now, and one owner's service spans never overlap |
| `OwnerService.ServiceTakesItsTime` | crates/hexagent-engine/src/virtual_owner.rs:357-428 | in every run a completion bears the time its service began and ends the configured service time later, not after its delivery |
| `Scheduler.InstantTerminates` | crates/hexagent-engine/src/virtual_owner.rs:355-428 | steps at one fixed instant end, within the total backlog |
| `TimingHistogram.BucketMonotone` | crates/hexagent-engine/src/virtual_owner.rs:93-100 | larger durations never fall in a lower bucket |
| `TimingHistogram.BucketInRange` | crates/hexagent-engine/src/virtual_owner.rs:93-100 | a u64 duration falls in one of the 4096 buckets |
| `TimingHistogram.BoundIsTight` | crates/hexagent-engine/src/virtual_owner.rs:101-118 | a bucket's upper bound exceeds any duration in it by less than 1/64 of its power of two |
| `TimingHistogram.TimingHistogram.UpperQuantile` | crates/hexagent-engine/src/virtual_owner.rs:101-118 | the report is at least the exact rank value, exact for 1..127, else within the bucket error, for every multiset of durations and every quantile |
| `BoundedReactor.Cursor.Poll` | crates/hexagent-runtime/src/bounded_reactor.rs:29-41 | a turn visits consecutive lanes at most once each, at least the budget, and all of them unless the budget is spent |
| `BoundedReactor.EveryActorVisited` | crates/hexagent-runtime/src/bounded_reactor.rs:19-41 | any ceil(lanes / budget) consecutive turns visit every lane |
| `CancelReactor.DeliveredExactlyOnce` | crates/hexagent-engine/src/cancel_reactor.rs:178-378 | in every run, shutdown sends included, the cancels dequeued are those resolved, each to its own sender, then the one in flight; a full outbox loses nothing |
| `CancelReactor.RetainedUntilResolved` | crates/hexagent-engine/src/cancel_reactor.rs:178-247 | a retained update, with the time it was built, stays unchanged until it is the next to be resolved |
| `CancelCommands.NoCommandLost` | crates/hexagent-engine/src/cancel_reactor.rs:192-378 | in every run the commands sent are those taken, in order, then those waiting; each cancel taken is on record, each refresh was carried out, each blocking job was finished, is with the worker or on its way |
| `CancelCommands.NoOfferLost` | crates/hexagent-engine/src/engine.rs:15529-15618 | in every run what reached the inbox, and claims on their way, are exactly what senders offered and were not given back |
| `CancelCommands.RetainedSinceBuilt` | crates/hexagent-engine/src/cancel_reactor.rs:178-247 | in every run a retained update bears the time of the visit at which its reply came or its cancel was refused |
| `CancelCommands.WaitingCommandIsReached` | crates/hexagent-engine/src/cancel_reactor.rs:192-378 | in every state of every run a waiting command is reached within 47 visits and worker steps, if the outbox has room and replies come |
| `CancelCommands.MaintainsExactly` | crates/hexagent-engine/src/cancel_reactor.rs:382-423 | health is published exactly when an otherwise idle actor is told to or due, once, and is next due one heartbeat later |
| `CancelCommands.ProgressMeansChange` | crates/hexagent-engine/src/cancel_reactor.rs:192-378 | a visit reports progress if and only if it changed something other than closing |
| `CancelReactor.ContextHasOneHolder` | crates/hexagent-engine/src/cancel_reactor.rs:192-378 | the connection context has exactly one holder, so the hand-off panics are unreachable |
| `CancelReactor.FlagExactUnlessShutdown` | crates/hexagent-engine/src/engine.rs:15529-15618 | the occupancy flag is set for exactly one claim, command, reply, update or job and clear for none, at every step of a run, if and only if no command was sent past it |
| `CancelReactor.FlagHasCause` | crates/hexagent-engine/src/engine.rs:15594-15618 | in every run the flag never outlives what it stands for, and a guard is retained exactly while a reply or an update is pending |
| `CancelReactor.ShutdownReplyUnflagged` | crates/hexagent-engine/src/engine.rs:15586-15591 | a shutdown cancel on an idle lane leaves a reply outstanding with the flag clear |
| `CancelReactor.ClaimedSendHasRoom` | crates/hexagent-engine/src/engine.rs:15529-15584 | without shutdown sends a sender that claimed the flag always finds room |
| `CancelReactor.ClosedMeansDone` | crates/hexagent-engine/src/cancel_reactor.rs:446-487 | an actor closes only with nothing pending, shutdown cancels included, the flag clear and its context at home, and stays so |
| `CancelReactor.IdleWait` | crates/hexagent-engine/src/cancel_reactor.rs:425-444 | the wait is the shortest that some idle actor's maintenance needs |
| `CancelReactor.Reactor.Turn` | crates/hexagent-engine/src/cancel_reactor.rs:446-487 | exactly the actors in the cursor's rotation are polled, once each, and every actor keeps its invariant |
| `CancelReactor.Reactor.Finished` | crates/hexagent-engine/src/cancel_reactor.rs:446-487 | the loop leaves only when every actor is closed with everything resolved |
| `Recovery.Load` | crates/hexagent-engine/src/virtual_recovery.rs:121-211 | the loader's loop yields the model's journal or its first error; which journal that is, `RecoveryJournal` says of the input windows |
| `RecoveryJournal.JournalIsItsWindows` | crates/hexagent-engine/src/virtual_recovery.rs:144-204 | an accepted journal is, as a multiset and in order, the Stop, Restart and ReconcileComplete of every input window that meets the replay, at the clamped times, and nothing else |
| `RecoveryJournal.AcceptedExactly` | crates/hexagent-engine/src/virtual_recovery.rs:121-190 | a journal is accepted if and only if its windows are few enough, each outside the replay or well formed, and no owner's outages overlap |
| `RecoveryJournal.RejectionHasCause` | crates/hexagent-engine/src/virtual_recovery.rs:121-190 | each error names a fault that the windows have |
| `Recovery.EdgesCycleIffSeparated` | crates/hexagent-engine/src/virtual_recovery.rs:144-204 | one owner's sorted edges are Stop, Restart, ReconcileComplete cycles if and only if its windows are strictly separated |
| `RecoveryGate.QuoteNeedsEvidence` | crates/hexagent-engine/src/virtual_recovery.rs:226-318 | after any Stop an owner quotes only with its reconciliation, oracle prices, an unexpired book since the restart and a drained private lane on an observer's record |
| `RecoveryGate.ReadyExactlyWhenJustified` | crates/hexagent-engine/src/virtual_recovery.rs:304-318 | in an outage `try_ready` succeeds if and only if that record justifies it |
| `RecoveryGate.RecordIsKept` | crates/hexagent-engine/src/virtual_recovery.rs:226-318 | in every run of every journal an owner's counters are right, and a book applied before a restart is forgotten by it |
| `RecoveryGate.TouchingWindowsQuoteDuringOutage` | crates/hexagent-engine/src/virtual_recovery.rs:167-203 | a concrete accepted journal and run that quotes inside an outage |
| `RecoveryExposure.ExposedExactlyIfTouching` | crates/hexagent-engine/src/virtual_recovery.rs:144-204 | for every accepted journal, some run quotes inside one of the owner's outages if and only if two of its input windows touch |
| `AdmissionObject.AccountExecutionAdmission.constructor` | crates/hexagent-engine/src/execution_admission.rs:183-213 | a new account is paused, dirty, in recovery, with unreported lanes |
| `AdmissionObject.AccountExecutionAdmission.Refresh` | crates/hexagent-engine/src/execution_admission.rs:454-569 | the object becomes the model's refreshed account, field by field, by the cached or the full path |
| `AdmissionObject.AccountExecutionAdmission.Choose` | crates/hexagent-engine/src/execution_admission.rs:525-560 | the state and uncapped budget for a census, and which recovery fields change with it |
| `AdmissionObject.AccountExecutionAdmission.Observe` | crates/hexagent-engine/src/execution_admission.rs:271-437 | unknown, stale, faulty and accepted snapshots each make exactly the model's change, which `AdmissionReport` tells from the report |
| `AdmissionObject.AccountExecutionAdmission.MarkDeliveryFault` | crates/hexagent-engine/src/execution_admission.rs:442-452 | only the named lane is marked, then the account is refreshed |
| `AdmissionObject.AccountExecutionAdmission.NoteFailure` | crates/hexagent-engine/src/execution_admission.rs:754-776 | the cluster window, the lane's mark and the pause move together as the model says |
| `AdmissionObject.AccountExecutionAdmission.PauseForRecovery` | crates/hexagent-engine/src/execution_admission.rs:778-791 | the backoff, and that probe and successes are forgotten |
| `AdmissionObject.AccountExecutionAdmission.RetireTransportGenerations` | crates/hexagent-engine/src/execution_admission.rs:218-229 | every lane of both roles is retired at its own generation, and the account pauses |
| `AdmissionObject.AccountExecutionAdmission.RetireTransportGenerationsAvoiding` | crates/hexagent-engine/src/execution_admission.rs:233-236 | the same, remembering the peer |
| `AdmissionObject.AccountExecutionAdmission.TakeTransportReset` | crates/hexagent-engine/src/execution_admission.rs:246-248 | the pending reset is handed over once |
| `AdmissionObject.AccountExecutionAdmission.ReserveCancelSlot` | crates/hexagent-engine/src/execution_admission.rs:260-266 | the cancel lane is set aside and the account refreshed at its own time |
| `AdmissionObject.AccountExecutionAdmission.PlaceDispatched` | crates/hexagent-engine/src/execution_admission.rs:706-721 | the lane is busy since now, and in recovery it becomes the one probe |
| `AdmissionObject.AccountExecutionAdmission.PlaceNotSent` | crates/hexagent-engine/src/execution_admission.rs:725-735 | the lane and its probe are released |
| `AdmissionObject.AccountExecutionAdmission.LanePlaceAllowed` | crates/hexagent-engine/src/execution_admission.rs:571-581 | the answer is the model's, on the refreshed account |
| `Scheduler.VirtualOwnerScheduler.constructor` | crates/hexagent-engine/src/virtual_owner.rs:142-170 | every owner starts empty and unpaused |
| `Scheduler.VirtualOwnerScheduler.EnqueueMarket` | crates/hexagent-engine/src/virtual_owner.rs:172-220 | the backward scan replaces exactly the entry that the model says is replaceable; it fails only on a full lane, changing at most the epoch |
| `Scheduler.VirtualOwnerScheduler.EnqueuePrivate` | crates/hexagent-engine/src/virtual_owner.rs:222-241 | appended, or refused without loss when full |
| `Scheduler.VirtualOwnerScheduler.PrependMarket` | crates/hexagent-engine/src/virtual_owner.rs:245-264 | recovery metadata goes to the front of its lane |
| `Scheduler.VirtualOwnerScheduler.RetireMarket` | crates/hexagent-engine/src/virtual_owner.rs:309-316 | every owner keeps exactly the entries not retired, in order |
| `Scheduler.VirtualOwnerScheduler.PeekWhen` | crates/hexagent-engine/src/virtual_owner.rs:347-353 | the earliest ready time of any owner, if one lies before the end of time |
| `Scheduler.VirtualOwnerScheduler.Step` | crates/hexagent-engine/src/virtual_owner.rs:357-428 | the earliest due owner, lowest index first, is served as the model says (what it delivers: `OwnerDelivery`, `OwnerService.BeginsByPriority`) and no other is touched |
| `Scheduler.VirtualOwnerScheduler.SuspendOwner` | crates/hexagent-engine/src/virtual_owner.rs:456-496 | in-service private work returns to the head of its lane, in-service history waits again, market work is dropped; a full private lane fails with the owner stopped |
| `Scheduler.VirtualOwnerScheduler.RebasePrivateRecoveryReceive` | crates/hexagent-engine/src/virtual_owner.rs:501-512 | queued private messages are restamped in place, none added or dropped |
| `Scheduler.VirtualOwnerScheduler.ScheduleHistory` | crates/hexagent-engine/src/virtual_owner.rs:293-305 | one history input is pending |
| `Scheduler.VirtualOwnerScheduler.ResumeOwner` | crates/hexagent-engine/src/virtual_owner.rs:514-524 | the owner is available from now on |
| `TimingHistogram.TimingHistogram.Record` | crates/hexagent-engine/src/virtual_owner.rs:93-100 | the buckets count exactly the recorded samples |
| `CancelReactor.Owner.Poll` | crates/hexagent-engine/src/cancel_reactor.rs:192-378 | one visit makes exactly the model's transition, whose commands `CancelCommands` accounts for |
| `RecoveryGate.RecoveryReplay.constructor` | crates/hexagent-engine/src/virtual_recovery.rs:194-211 | the replay starts with every owner ready |
| `RecoveryGate.RecoveryReplay.Step` | crates/hexagent-engine/src/virtual_recovery.rs:226-250 | at most one due edge is applied, to its own owner |
| `RecoveryGate.RecoveryReplay.CompleteOracleHistory` | crates/hexagent-engine/src/virtual_recovery.rs:257-274 | only an answer with the required prices ends the wait |
| `RecoveryGate.RecoveryReplay.ObserveFreshBook` | crates/hexagent-engine/src/virtual_recovery.rs:281-303 | a book in catchup replaces the evidence of the one before it |
| `RecoveryGate.RecoveryReplay.TryReadyNow` | crates/hexagent-engine/src/virtual_recovery.rs:304-318 | the owner becomes ready exactly when the answer is true |

## Left out

- Weak memory: every atomic access is sequentially consistent, which the no-lost-slot argument needs.
- Sockets, TLS, DNS, tokio, reqwest, prewarm requests, thread pinning and wakes: a prewarm succeeds or fails, a wait is no step, and repair thresholds and cooldowns are nondeterministic.
- HealthPath.NoBadNewsLost: the owner's and the router's wall clock is one clock that does not go back, and totals are captured while no request of that lane is completing, as the owners do; a cancel actor's capture and build follow each other at once.
- DispatchRace.MarkedExactly: reports reach the router in any order rather than through the lane word by word, and the owner's other fields are arbitrary; `place_not_sent`, which the router never calls on a lane it has sent to, is not a step on that lane.
- AdmissionExit.ExitTakesExactly: at one instant and for a configured number that fits the u8 it is stored in; no clock reading of the run so far lies after that instant.
- HealthPath.BadIsCounted: the 64-bit wrap-around of the cumulative counters is not modelled.
- AdmissionReport.PausesExactly: for fewer than 2^64 failure windows, since the window number saturates; so for AdmissionHistory.StreakExactly.
- AdmissionCluster.CountsDistinctLanes: for runs of fewer than 2^64 operations, since the window number saturates.
- OwnerService.StepFindsDueWork: for ingress not received after the step and times short of u64 saturation; `StepFindsDueWorkExactly` says what happens otherwise.
- OwnerService.ReadyExactly: before the last u64 instant and for a market head whose ready time did not saturate; `StepFindsDueWorkExactly` says what happens otherwise.
- OwnerService.WatchdogStaysOnGrid: for times an interval short of u64 saturation.
- OwnerMarket.OneEntryPerKeyAndEpoch: the wrap-around of the 64-bit epoch is not modelled.
- Scheduler: the owners' statistics counters and the archive visitors (`visit_unapplied_market`, `private_matches`) are not modelled.
- RecoveryJournal.JournalIsItsWindows: the replay starts at a u64 time, as its type says; a window is recognised by owner name and kind already parsed.
- RecoveryReplay: parsing, watermarks, summaries and the report archive are not modelled; the journal starts from parsed windows.
- Admission: repair keys, `evidence_changed` and the diagnostic record of `capacity_detail` feed no decision and are not modelled.
- CancelReactor: blocking control work is an opaque numbered job, and latency metrics are not modelled; a channel's own atomics are one step.
- CancelReactor.Reactor.Turn: a visit touches only its own actor, so what each visit would do is computed before the turn rather than by a callback.
- Keep-warm scheduling of the slot pool, beyond its use of exact-slot permits; engine routing; order, position and signing code; configuration; recording lanes.
