# Verified model of the scheduler store

A Dafny model of the durable scheduler behind `src/db.rs`, with the kernels it relies on: pricing,
backoff, circuit breaking, routing, calendar search, the event log, and the Anthropic stream
reassembler. Every public transaction of the store is one atomic step that either yields the next
tables or fails and changes nothing; the theorems are about all reachable tables and all runs.

How it is laid out:

- `Store.dfy` holds the scheduler's tables (leader, claims, locks, runs with their leases, quota rows,
  routes, surfaces, tasks, the API ledger) and each transaction as a function on them;
  `Database.dfy` holds the same transactions as the program runs them, on a class whose field is the
  committed tables, with the program's loops, each proved equal to its function. A transaction without a
  loop commits what its function yields, so only those with loops have rows below.
- `StoreInvariant.dfy` and `StoreSteps.dfy` say how the tables agree and that every transaction keeps
  it so. `StoreTheorems.dfy`, `StoreControl.dfy`, `StoreRuns.dfy`, `StoreLedger.dfy`, `StoreSlots.dfy` and
  `StoreQuota.dfy` are about whole runs; `StoreEffects.dfy` says what single transactions do to each table, and
  `StoreGrants.dfy` exactly when a claim is granted.
- `StatusPaths.dfy` and `StoreStatus.dfy` read task histories as paths through the status table;
  `StoreReleases.dfy` says what a task that stands down still holds, `StoreLeases.dfy` which transactions
  end a lease, and `StoreAgreement.dfy` in which runs nothing leaks. `StoreScenario.dfy` takes one task from
  the empty store to its completion; the failing states named below are states of that run.
- `ApiBudget.dfy`, `ApiLedgerProofs.dfy` and `ApiLedgerTheorems.dfy` are the paid-API ledger; `ApiAdmission.dfy`
  and `ApiTransactions.dfy` say exactly when its transactions succeed and what they move between its totals.
- `TaskGraph.dfy` is tasks, dependencies and cycle detection. `Domain.dfy` is the status table.
- `Pricing.dfy`, `Retry.dfy`, `Circuit.dfy`, `Routing.dfy`, `Calendar.dfy`, `EventLog.dfy`,
  `AnthropicStream.dfy` and `StreamEncoding.dfy` are the kernels.

Rows are referred to by position, so identifiers are fresh by construction. Instants are integers
(seconds, and milliseconds in `Retry.dfy`), and a run is a sequence of steps with the clock reading of each; theorems that need it ask
the clock not to run backwards. The transactions are those of `Store.Op`: every public transaction of
`src/db.rs` that writes the tables above, but for those under "Left out". A run may contain all of them
except two bare status changes that bypass the scheduler (leasing a task without a claim, completing a
review without promotion);
`StoreSteps.BareTransitionKeepsInvExactly` says exactly when those two break the invariant.

Where the code differs from its documentation, the model follows the code:

- `docs/data-model.md:258` says expired leases do not change a status directly. `recover_expired_leases`
  writes `paused` over any recoverable status, Verifying included, which the table lacks:
  `StoreStatus.RecoveryBypassesTheTable` is a state where it does, and
  `StoreStatus.RecoveryFollowsTheTableExactly` shows that recovery follows the table exactly when no overdue
  task is Verifying. Everything else follows it in every run (`StoreStatus.StatusesFollowTheTable`).
- `docs/data-model.md:257` says any terminal or paused transition releases resources.
  `StoreReleases.StandingDownReleasesExactly` says of every transaction exactly when it does: an emergency
  stop, lease recovery and the failure of the process that holds the task release; an accepted review, an
  added dependency and a bare `transition_task` release nothing, each with a state in which the task keeps
  its project (`StoreReleases.CompletedTaskStillHoldsItsProject`, `DependentTaskStillHoldsItsProject`,
  `PausedTaskStillHoldsItsProject`). What a terminal task keeps no recovery takes back; only `finish_run`
  does (`StoreLeases.TerminalTaskHoldsUntilFinished`, `StoreReleases.FinishFreesTheProject`). In runs that leave held
  tasks alone but to judge their verification, finish a run once its task is judged, and accept a review
  once its run is finished, nothing leaks (`StoreAgreement.OnlyWorkInHandHolds`).
- `docs/data-model.md:108` says recovery rechecks a lease's generation. `recover_expired_leases` reads only
  its expiry and the task's status: `StoreEffects.RecoveryIsExact` says exactly which runs it takes, and
  `StoreEffects.RecoveryIgnoresTheGeneration` that it takes them whatever their generation.
- `docs/data-model.md:100` says a run does not change once it has ended. `finish_run` records a status on a run of
  any status (`StoreRuns.FinishExactly`).
- The stream parser accepts an empty text block, which the message parser rejects:
  `StreamEncoding.AcceptedStreamEncodesMessage` shows that this is the only difference.

Two results are about behaviour no document mentions. Pinning a task's route raises its version without a
status change, also on a terminal task, so a version counts pins as well as status changes
(`StoreStatus.StatusesFollowTheTable`). And a claim's paid request is dispatched under the lease of its run,
but may be retried after that lease was released (`StoreLeases.LaterAttemptIsUnderLeaseExactly`,
`StoreLeases.AttemptWithoutALease`).

## Model

| member | source | states |
|---|---|---|
| StoreSteps.StepKeepsInv | src/db.rs:89-4931 | every transaction keeps all tables in agreement: claims with runs and leases, locks with claims, quota and API reservations with claims and leases, tasks with dependencies, the ledger with its ceilings |
| StoreTheorems.Reached | docs/data-model.md:102-118 | the tables agree in every state any run reaches from the empty store |
| StoreTheorems.RunAdvancesAll | src/db.rs:89-4931 | over any run nothing moves backwards: leadership generations, ended claims, released locks and leases, requested cancellations, ended reservations |
| StoreTheorems.GenerationHasOneOwner | src/db.rs:967-974 | a leadership generation never decreases and belongs to one instance for ever |
| StoreTheorems.OlderGenerationsAreFenced | src/db.rs:5075-5093 | once a generation is granted, no claim, heartbeat or run start under an older generation, or by another instance, ever succeeds |
| StoreControl.LeadershipGrantedExactly | src/db.rs:941-1015 | leadership is granted exactly to a registered instance when nobody leads, it leads itself, or the leader's time has run out; a returning leader keeps its generation and a new one opens the next |
| StoreControl.LiveLeaderIsNotDeposed | src/db.rs:969-975 | while a leader's time has not run out every other instance is refused |
| StoreControl.LeadershipPassesAfterExpiry | src/db.rs:959-975 | in any run, a step that changes the leading instance comes at or after the old leader's expiry, and is that instance acquiring the next generation |
| StoreControl.LiveLeaderIsUndisturbed | src/db.rs:941-1093 | over any run before a leader's expiry, nothing others do changes its leadership |
| StoreControl.StepMovesControl | src/db.rs:89-1093 | every transaction changes leadership, controls, instances, routes and surfaces only in the way named for it |
| StoreControl.ControlsMoveExactly | src/db.rs:89-155 | work is paused with a reason, a pause cannot be lifted alone in an emergency, and a resumption lifts both |
| StoreControl.PauseHoldsUntilLifted | src/db.rs:1246-1251 | over any run, work stays paused and no claim is granted until somebody lifts the pause |
| StoreControl.RegistrationExactly | src/db.rs:912-939 | an instance registers with a name and a host, and stops only while registered |
| StoreTheorems.ClaimIsConsumedByItsMaker | src/db.rs:1534-1635 | a claim becomes a run only by the instance and generation that made it, while it is in force and its task's dependencies are completed |
| StoreRuns.RunBeginsExactly | src/db.rs:1534-1575 | a run begins exactly for the leader that made the claim, while claim and leadership are in time, the task is leased, the claim's route is an allowed one of the adapter for the task, and the run's name is new |
| StoreRuns.RunBegins | src/db.rs:1576-1647 | the run is added under a fresh lease, its claim consumed into it, its task running two versions on, and what the claim reserved bound to the run for as long as its lease |
| StoreRuns.WorkIsRouted | src/db.rs:1563-1575 | in every run of the store, whatever begins was routed in it: an allowed route of that adapter for that task was recorded before |
| StoreTheorems.ClaimIsConsumedAtMostOnce | src/db.rs:1627-1635 | an ended or consumed claim is never consumed again and keeps its run |
| StoreTheorems.StaleClaimIsNeverConsumed | src/db.rs:1535-1559 | a claim of an older generation is never consumed by anyone |
| StoreTheorems.EmergencyHoldsUntilResume | src/db.rs:106-108 | until operations resume, an emergency stays in force, no claim is active and no run begins |
| StoreTheorems.EmergencyStopHolds | src/db.rs:157-278 | after an emergency stop every run that was at work has its cancellation requested or completed, in every continuation without a resume |
| StoreTheorems.CancellationStands | src/db.rs:4523-4530 | a requested or completed cancellation is never withdrawn |
| StoreRuns.CheckpointExactly | src/db.rs:4363-4507 | a checkpoint is taken exactly by the holder of the run's lease in time while it is at work, extends lease and quota, and asks for a pause or a cancellation as told |
| StoreRuns.CancellationExactly | src/db.rs:4509-4542 | a running run is asked to cancel once, and a request already made stands as it was |
| StoreRuns.RequestedActionStands | src/db.rs:4466-4489 | over any run, what a run was asked stands until a checkpoint or an emergency stop asks it again |
| StoreRuns.AskedRunEndsAsAsked | src/db.rs:4584-4591 | a run a checkpoint asked to pause, or to cancel, and that is not asked again ends with its task paused, or cancelled, and its lease released |
| StoreRuns.OutcomeExactly | src/db.rs:4557-4632 | an outcome is recorded exactly while the run is at work: success goes to verification, a requested stop to Paused or Cancelled, any other failure to Failed, and no other task changes |
| StoreRuns.OutcomeLetsGo | src/db.rs:4633-4648 | exactly the reservations of the run end with its process, and its locks with a failure |
| StoreRuns.FinishExactly | src/db.rs:4172-4213 | any existing run can be finished, whatever its status: exactly its lease, locks and reservations end |
| StoreRuns.EmergencyAsksExactly | src/db.rs:175-205 | an emergency stop asks exactly the runs at work to cancel, but for completed cancellations |
| StoreRuns.RecoveryLetsGo | src/db.rs:4893-4908 | a recovered run keeps no lock, no quota and no undispatched paid request |
| StoreTheorems.StepKeepsRows | src/db.rs:89-4931 | only claims add claims and locks, only run starts add runs, and only a resumption lifts an emergency |
| StoreTheorems.ResourcesAreExclusive | src/db.rs:6982-6983 | two claims in force never hold the same resource |
| StoreTheorems.OneClaimInForcePerProject | src/db.rs:1345-1365 | a project never has two claims active or under lease |
| StoreTheorems.LockLifecycle | docs/data-model.md:108-110 | a lock is live while its claim is active, released when it ends, and after consumption live exactly while the lease is unreleased |
| StoreTheorems.NoStrandedOrPrematureWork | src/db.rs:1946-1990 | in every run a Draft waits for an uncompleted dependency, and work in progress for none |
| StoreTheorems.ClaimBoundDispatchHasALease | src/db.rs:3194-3332 | a reservation of a claim leaves Active, by a dispatch or a first attempt, only for that claim's own run and under its unreleased lease |
| StoreTheorems.RetryOutlivesTheLease | src/db.rs:3239-3250 | whenever a retry for a claim is admitted it would still be after its run is finished, under no lease |
| StoreTheorems.DigestIsReservedOnceEver | src/db.rs:7309 | over any run a project reserves a request digest at most once |
| StoreTheorems.CeilingsHoldInEveryRun | docs/data-model.md:186 | in every reachable state settled plus reserved stays within each configured limit of each revision |
| StoreLedger.SchedulerWritesOnlyReservations | src/db.rs:5297-5351 | no transaction but the ledger's own writes a budget, price, attempt or spend row |
| StoreLedger.ConfiguredRevisionGoverns | src/db.rs:6129-6141 | once a revision is configured, every admission of its identity in any continuation is decided under it until another is configured, and a disabled one refuses them all |
| StoreLedger.DisabledRevisionRefusesClaims | src/db.rs:6139-6141 | and a disabled one refuses every claim that brings a paid request for its account |
| StoreLedger.RequestInStore | src/db.rs:6145-6152 | a request on its own is admitted at the transaction's time and for the project its task belongs to |
| StoreLedger.ReservationsRecoveredExactly | src/db.rs:6363-6402 | the recovery of reservations expires exactly the overdue active ones |
| StoreLedger.ReportedFailureIsFinalEver | src/db.rs:3251-3267 | once a terminal or uncertain failure is reported, no attempt of its reservation begins in any continuation of the run |
| StoreLedger.OutcomesStand | src/db.rs:3374-3391 | over any run an attempt keeps its reservation and number, and its status once it has an outcome |
| StoreStatus.StepMoves | src/domain.rs:131-170 | in every transaction but a pin each task moves along the table, one edge a version; lease recovery alone adds Verifying to Paused |
| StoreStatus.StatusesFollowTheTable | src/db.rs:1856-1906 | over any run every task's history is a path of the table as long as its version grew beyond its pins, with the recovery edge only in runs that recover |
| StoreStatus.TerminalIsFinal | src/domain.rs:127-129 | over any run a Completed, Cancelled or Superseded task changes only by pins, a changed status raises the version, and an unchanged version means an unchanged task |
| StoreStatus.EveryTaskCameFromDraft | src/domain.rs:131-170 | in every reachable state a task of version n that was pinned k times came from Draft by n - 1 - k edges |
| StoreStatus.GrantedTaskIsAsRead | src/db.rs:1264-1276 | a claim granted for the version a scheduler read at any earlier time finds the task, its pin included, exactly as it was read |
| StoreStatus.LeasesAreExclusive | src/db.rs:1345-1365 | a project never has two unreleased leases |
| StoreStatus.RecoveryFollowsTheTableExactly | src/db.rs:4861-4931 | recovery pauses exactly the overdue tasks, each once, along the table exactly when it is not Verifying, and so altogether exactly when no overdue task is |
| StoreStatus.RecoveryBypassesTheTable | docs/data-model.md:258 | a reachable state in which recovery pauses a Verifying task |
| StatusPaths.MovesAreExact | src/domain.rs:127-170 | along a path of the table a terminal status stays, an unchanged version means an unchanged row, and a changed status a higher one |
| StatusPaths.PinFollows | src/db.rs:1856-1906 | a pin is one version and no edge for its task, and nothing for any other |
| StoreReleases.StandingDownReleasesExactly | docs/data-model.md:257 | any transaction that pauses, blocks, fails or ends a task leaves it holding nothing exactly when it is an emergency stop, a recovery, or the failure of the only run that holds it, or nothing was held before |
| StoreReleases.FailureFreesExactly | src/db.rs:4557-4683 | after a failed process its run holds nothing, and its task nothing exactly when every claim in force on it became that run |
| StoreReleases.RecoveryFrees | src/db.rs:4861-4931 | a recovered task holds nothing |
| StoreReleases.EmergencyFrees | src/db.rs:157-278 | a task an emergency stop pauses holds nothing |
| StoreReleases.FinishFreesTheProject | src/db.rs:4172-4213 | finishing the run that holds a task ends its locks and reservations and leaves no claim in force in its project |
| StoreReleases.HeldProjectRefusesClaims | src/db.rs:1345-1365 | while a claim is under lease no claim on its project succeeds |
| StoreReleases.CompletedTaskStillHoldsItsProject | src/db.rs:1946-1990 | a reachable state in which an accepted review leaves the project locked, through every later recovery |
| StoreReleases.FinishingFreesTheCompletedTask | src/db.rs:4172-4213 | finishing its run unlocks it |
| StoreReleases.DependentTaskStillHoldsItsProject | src/db.rs:1908-1944 | a reachable state in which a dependency pauses a claimed task and leaves the project locked |
| StoreReleases.PausedTaskStillHoldsItsProject | src/db.rs:2046-2060 | a reachable state in which pausing a task by hand leaves its project locked |
| StoreLeases.StepEndsLeaseExactly | src/db.rs:4172-4931 | a step releases an unreleased lease exactly when it finishes its run, records the failure of its process, or recovers it |
| StoreLeases.LeaseStandsUntilEnded | src/db.rs:4172-4931 | over any run a lease is released exactly when one of those transactions succeeded on it |
| StoreLeases.TerminalTaskHoldsUntilFinished | src/db.rs:4863-4869 | over any run that does not finish its run, the lease of a terminal task stays unreleased |
| StoreLeases.TerminalTaskBlocksItsProject | src/db.rs:4863-4869 | and no task of its project is ever claimed |
| StoreLeases.LaterAttemptIsUnderLeaseExactly | src/db.rs:3194-3332 | over any run from the dispatch of a claim's request, a later attempt is for the same run, and under its lease exactly when since then the run was not finished, its process did not fail and its lease was not recovered |
| StoreLeases.AttemptWithoutALease | src/db.rs:3239-3250 | a reachable state in which an attempt is admitted after the lease was released |
| StoreScenario.CompletedTaskReached | src/db.rs:912-1990 | the state of a task that was routed, claimed with its slots and its API reservation, run, verified, judged, and accepted before its run was finished, is reachable |
| StoreScenario.RetryingTaskReached | src/db.rs:3228-3391 | the state of a claimed task whose request failed retryably is reachable |
| StoreScenario.ReadyTaskHeldReached | src/db.rs:2046-2060 | the state of a claimed task paused and readied by hand is reachable |
| StoreAgreement.StepKeepsAgreement | src/db.rs:89-4931 | every orderly step keeps claims, leases and task statuses in agreement: active with Leased, running with Running, verifying with Verifying, Review or Failed |
| StoreAgreement.OrderlyRunsAgree | docs/data-model.md:250-258 | so they agree after every orderly run |
| StoreAgreement.OnlyWorkInHandHolds | docs/data-model.md:257 | after an orderly run leased, running and verifying tasks hold their project, and whatever else holds anything has just been judged and awaits the end of its run |
| StoreAgreement.NothingAtRestHolds | docs/data-model.md:257 | a task that is Draft, Ready, Paused, Blocked, Completed, Cancelled or Superseded holds nothing |
| StoreAgreement.JudgedFinishedAccepted | src/db.rs:1946-1990 | a verified task is judged, finished and accepted in order, and accepting it before finishing is out of order |
| StoreSlots.SlotKeyInjective | src/db.rs:5105-5106 | slot keys of different owners or slots differ |
| StoreSlots.SlotRefusedExactlyWhenAllTaken | src/db.rs:5096-5139 | a slot is refused exactly when every slot is taken, and otherwise the first free one is given |
| StoreSlots.CapacityIsNeverExceeded | docs/data-model.md:110 | under one limit, no run gives an adapter or an account more live slots than the limit |
| StoreSlots.GrantIsWithinCapacity | src/db.rs:1252-1263 | a granted claim leaves at most the requested number of active claims |
| StoreSlots.GlobalCapacityIsNeverExceeded | src/db.rs:1252-1263 | under one limit on active claims, no reachable state has more |
| StoreQuota.ReservingSucceedsExactly | src/db.rs:5201-5248 | an account is reserved exactly when the forecast, the reserve and everything live fit every one of its surfaces under evidence in force |
| StoreQuota.ClaimLeavesTheReserve | src/db.rs:5142-5265 | a successful claim leaves the reserve on every surface of its account, counting everything live, and takes nothing elsewhere |
| StoreQuota.OverrideGovernsUntilExpiry | src/db.rs:5168-5182 | an override governs its surface until it expires, and then what governed before does again |
| StoreQuota.EvidenceExactly | src/db.rs:5168-5222 | an admission counts on the newest override in force, else on the observation, which is stale from the end of its validity on |
| StoreQuota.LiveExactly | src/db.rs:5229-5235 | what is live on a surface is what its active and running rows reserve until they expire |
| StoreQuota.EvidenceAcceptedExactly | src/db.rs:2063-2345 | which reports and overrides are accepted |
| StoreQuota.ObservationAcceptedExactly | src/db.rs:2161-2200 | which observations of a collector are accepted |
| StoreQuota.ObservationIsUpserted | src/db.rs:2063-2148 | a report becomes the standing evidence of the one surface with its identity and of no other |
| StoreQuota.RefreshTakesTheNewest | src/db.rs:2150-2272 | a refresh is all or nothing: each surface it names gets the newest observation naming it, and every other keeps its evidence |
| StoreQuota.StepSettles | src/db.rs:1462-1513 | every other transaction only frees quota: what is live afterwards was live before |
| StoreQuota.RenewSettles | src/db.rs:1495-1502 | heartbeats extend only reservations that are still counted |
| StoreQuota.CheckpointSettles | src/db.rs:4491-4495 | checkpoints extend only reservations that are still counted |
| StoreQuota.BeginSettles | src/db.rs:1636-1641 | starting a run carries over only reservations that are still counted |
| StoreQuota.QuotaNeverOvercommits | docs/phase-3-plan.md:31 | while a surface's evidence stands, its reserve and everything live on it stay within what remains, throughout every run |
| StoreQuota.ReservationsNeverRevive | src/db.rs:5162-5167 | without claims the live total of a surface never grows |
| StoreEffects.SweepRequeuesExactly | src/db.rs:5353-5384 | a sweep requeues exactly the leased tasks of overdue claims |
| StoreSteps.SweepExpiresExactly | src/db.rs:5385-5389 | a sweep expires exactly the overdue active claims |
| StoreEffects.SweepIsIdempotent | src/db.rs:5353-5408 | sweeping again at the same time changes nothing |
| StoreEffects.EndedTasks | src/db.rs:218-233 | ended claims' leased tasks become Paused in an emergency and Ready otherwise, and no other task changes |
| StoreEffects.EndedLocks | src/db.rs:5390-5394 | exactly the locks of ended claims are released |
| StoreEffects.EndedQuota | src/db.rs:5267-5280 | exactly the held quota rows of ended claims are released |
| StoreEffects.EndedReservations | src/db.rs:5297-5351 | exactly the undispatched API reservations of ended claims are released |
| StoreEffects.StopReleasesExactly | src/db.rs:5410-5460 | stopping an instance releases exactly its active claims and leaves it no leadership |
| StoreEffects.HeartbeatRenewsExactly | src/db.rs:1473-1486 | a heartbeat expires what is overdue and renews exactly the holder's other active claims |
| StoreEffects.GrantConditions | src/db.rs:1240-1288 | a granted claim had a current leader, no pause or emergency, a ready task of the expected version, and completed dependencies |
| StoreGrants.ClaimGrantedExactly | src/db.rs:1218-1451 | a claim is granted exactly when the leader makes it while nothing holds work back and, after the sweep, fewer claims are active than allowed, the task is ready as read, waiting for nothing and unclaimed, and slots, quota, resources and paid request can all be had |
| StoreGrants.GrantWrites | src/db.rs:1289-1451 | a grant adds the claim as asked, leases its task, and adds one quota row a surface of the account and the row of its paid request, and nothing else |
| StoreGrants.QuotaAllowsExactly | src/db.rs:5142-5265 | quota is had exactly when an allowed route ties the task to the account and every one of its surfaces has room |
| StoreGrants.HeartbeatWrites | src/db.rs:1462-1513 | a heartbeat extends exactly the leader's active claims, their waiting quota and their undispatched paid requests |
| StoreEffects.GrantHoldsEveryLock | src/db.rs:1306-1365 | a granted claim holds an adapter slot, an account slot, its project and every named resource, and nothing more |
| StoreEffects.ConsumingConserves | src/db.rs:1636-1647 | consuming a claim keeps every quota row held and every ledger total unchanged |
| StoreEffects.RecoveryIsExact | src/db.rs:4861-4931 | recovery orphans exactly the runs whose lease is unreleased and past while their task is leased, planning, awaiting approval, running or verifying, releases those leases, and pauses exactly those tasks |
| StoreEffects.RecoveryLeavesNoneAbandoned | src/db.rs:4861-4931 | after a recovery no run at work and none of a verifying task has an unreleased lease that is past |
| StoreAgreement.RecoveryFreesWhatCrashed | src/db.rs:4861-4931 | after an orderly run and a recovery, whatever still holds its project is an active claim, has a lease in time, or has been judged |
| StoreEffects.RecoveryIgnoresTheGeneration | docs/data-model.md:108 | an overdue run is orphaned whatever the generation of its lease |
| StoreSteps.BareTransitionKeepsInvExactly | src/db.rs:2046-2060 | a bare transition keeps the tables in agreement exactly when it neither leases early nor strands a Draft |
| Database.EndClaimsTx | src/db.rs:5353-5460 | the loop that ends claims one by one has exactly the effect of its specification |
| Database.AcquireCapacitySlot | src/db.rs:5096-5139 | the slot search loop finds the first free slot or none |
| Database.LockAll | src/db.rs:1345-1365 | locks are inserted one by one, and the first conflict fails the claim |
| Database.ReserveAccount | src/db.rs:5201-5248 | the surfaces of an account are checked and reserved in turn, and the first refusal fails the claim |
| Database.CancelRuns | src/db.rs:175-205 | the emergency loop requests cancellation of exactly the runs at work |
| Database.OrphanRunsTx | src/db.rs:4875-4929 | the recovery loop orphans the overdue runs one by one |
| Database.ExpireActiveReservations | src/db.rs:6363-6402 | the sweep loop expires exactly the overdue active API reservations |
| Database.CompleteReviewTx | src/db.rs:1946-1990 | the promotion loop promotes exactly the candidates |
| Database.AddTaskTx | src/db.rs:1799-1851 | dependency rows are inserted in turn, cycles refused, and the task made Ready when nothing is pending |
| Database.AddDependencyTx | src/db.rs:1908-1944 | a dependency is added before a lease only, never closing a cycle, and pauses a Ready task |
| Database.Database.StopSchedulerInstance | src/db.rs:1057-1093 | stopping expires the leadership and releases exactly the instance's active claims |
| Database.Database.StopEverything | src/db.rs:157-278 | an emergency stop sets the controls, requests cancellations, and ends every active claim |
| Database.Database.ClaimTaskForScheduler | src/db.rs:1218-1451 | a claim is granted with everything it holds or fails and changes nothing |
| Database.Database.HeartbeatSchedulerClaims | src/db.rs:1462-1513 | overdue claims are expired, and the holder's others renewed with their reservations |
| Database.Database.RecoverExpiredSchedulerClaims | src/db.rs:1683-1690 | the sweep by itself |
| Database.Database.RecoverExpiredLeases | src/db.rs:4861-4931 | exactly the runs StoreEffects.RecoveryIsExact names are recovered |
| Database.RecordObservationsTx | src/db.rs:2161-2252 | the loop over a refresh's observations checks and records them in turn and stops at the first refusal |
| Database.Database.ReserveApiBudget | src/db.rs:3172-3183 | a valid request is admitted or refused as the ledger says |
| TaskGraph.DetectCycle | src/db.rs:6627-6643 | the level-by-level walk query reports a cycle exactly when one exists, within as many levels as tasks |
| TaskGraph.TransitionKeepsInvExactly | src/domain.rs:131-170 | a table transition keeps the work guarantees exactly when it does not lease early or complete past a waiting Draft |
| TaskGraph.CompleteReviewKeepsInv | src/db.rs:1946-1990 | completing through review strands nothing |
| TaskGraph.CompleteReviewPromotesExactly | src/db.rs:1956-1985 | exactly the waiting dependents whose dependencies are all completed become Ready |
| TaskGraph.AddTaskKeepsInv | src/db.rs:1799-1851 | a new task keeps the graph acyclic and starts Draft or Ready as its dependencies ask |
| TaskGraph.AddTaskNeverClosesACycle | src/db.rs:1799-1814 | a new task can never close a cycle |
| TaskGraph.AddTaskExactly | src/db.rs:1799-1851 | a task is added exactly with a proper pin and different existing dependencies, keeps its project and pin, and is Ready at once exactly when all of them are completed |
| TaskGraph.AddDependencyKeepsInv | src/db.rs:1908-1944 | a new dependency keeps the guarantees |
| TaskGraph.AddDependencyExactly | src/db.rs:1908-1944 | a dependency is added exactly before a lease, once, between different tasks and closing no cycle, and pauses a Ready task |
| TaskGraph.ChangedExactly | src/db.rs:1856-2060 | a status changes exactly along the table from the expected one, and a pin with a reason and proper values |
| TaskGraph.SomeTaskIsUnblocked | src/db.rs:6627-6643 | any non-empty set of tasks has one that depends on nothing inside it |
| TaskGraph.UnfinishedWorkCanProceed | src/db.rs:1277-1288 | among unfinished tasks one has all dependencies completed |
| TaskGraph.BareCompletionStrands | src/db.rs:2046-2060 | a graph in which bare completion strands a Draft |
| TaskGraph.BareLeaseIsPremature | src/db.rs:2046-2060 | a graph in which bare leasing starts work early |
| ApiLedgerTheorems.ApplyKeepsInv | src/db.rs:2585-3839 | every ledger transaction keeps ceilings, histories, spend rows and unique keys |
| ApiLedgerTheorems.ApplyMovesForward | src/db.rs:3172-3839 | reservations keep their identity, never become active again, and stay ended; attempts keep theirs, and their outcome |
| ApiLedgerTheorems.CeilingsHold | src/db.rs:6123-6298 | settled plus outstanding currency, tokens and requests, and the slots in use, stay within each revision's limits |
| ApiLedgerTheorems.DispatchWithoutReplay | src/db.rs:3228-3391 | attempts are numbered from one within the reserved requests, all but the last failed retryably, and statuses match the reservation |
| ApiLedgerTheorems.NothingFollowsAFinalAttempt | src/db.rs:3251-3266 | no attempt begins after a started, terminal, uncertain or successful one |
| ApiLedgerTheorems.FailureIsRecorded | src/db.rs:3335-3391 | a report succeeds exactly for a started attempt and a consistent failure, stores exactly the status reported, and changes nothing else |
| ApiLedgerTheorems.RetryAdmittedExactly | src/db.rs:3251-3275 | after a reported failure the next attempt is admitted exactly when it was retryable, the reservation is in time and has a request left |
| ApiLedgerTheorems.ReportedFailureIsFinal | src/db.rs:3262-3267 | a terminal or uncertain failure refuses every attempt in every later ledger |
| ApiLedgerTheorems.OneSpendPerSettlement | src/db.rs:7320-7321 | a settled reservation has exactly one spend row and any other none |
| ApiLedgerTheorems.SettlementIsPricedExactly | src/db.rs:3700-3757 | a settlement is charged the exact ceiling under the price in effect, or nothing without a currency |
| ApiLedgerTheorems.DigestIsReservedOnce | src/db.rs:7309 | a digest once reserved is refused in every later ledger |
| ApiLedgerTheorems.PreviewSeesSweptTotals | src/db.rs:3056-3105 | the preview's time filter reads the totals admission reads after its sweep |
| ApiLedgerTheorems.PreviewDenialMeansRefusal | src/db.rs:2985-3138 | a preview denial for policy, period, concurrency or exhausted limits means admission refuses every valid request |
| ApiLedgerProofs.ReserveTxKeepsInv | src/db.rs:6123-6298 | admission leaves every limit respected after adding the worst case of all attempts |
| ApiLedgerProofs.BeginAttemptConserves | src/db.rs:3228-3332 | starting an attempt moves one request from reserved to spent and nothing else |
| ApiLedgerProofs.SettleOnlyShrinks | src/db.rs:3623-3839 | settling replaces what was held by what was used, never more |
| ApiLedgerProofs.FailAttemptKeepsInv | src/db.rs:3335-3391 | recording a failure keeps every total and history |
| ApiLedgerProofs.ConfigureBudgetKeepsInv | src/db.rs:2585-2674 | a new revision starts with nothing committed |
| ApiLedgerProofs.RowwiseKeepsInv | src/db.rs:6363-6402 | sweeps, releases, renewals and run binding keep the ledger's guarantees |
| ApiBudget.LatestBudget | src/db.rs:6129-6138 | a revision is found exactly when one has the identity, and then no later one has it |
| ApiAdmission.AdmittedUnderTheLatestRevision | src/db.rs:6123-6298 | an admitted request adds one row, for the worst case of all its attempts, under an enabled revision of its identity that no later one supersedes |
| ApiAdmission.AdmittedExactly | src/db.rs:6123-6298 | a valid request is admitted exactly when that revision permits it, there is room for it under every limit, its sums fit 64 bits, and its digest and its claim are new |
| ApiAdmission.PreviewAllowsExactly | src/db.rs:2985-3168 | the preview allows an account exactly when its latest revision is enabled, in period, open to implementers and priced, with something left under every limit |
| ApiTransactions.AdmissionAdds | src/db.rs:6220-6298 | admission adds exactly what the request asks for to what is reserved under its revision |
| ApiTransactions.DispatchedExactly | src/db.rs:3194-3226 | a reservation is dispatched exactly while active and in time and, for a claim, once it has a run |
| ApiTransactions.AttemptBeginsExactly | src/db.rs:3228-3332 | an attempt begins exactly while its reservation is in time and dispatchable, every earlier attempt failed retryably and a request is left, and is numbered next |
| ApiTransactions.SettlementAcceptedExactly | src/db.rs:3623-3760 | a settlement is accepted exactly for a dispatched reservation whose started attempt it binds, within one attempt's maximum, under the budget's currency, rightly priced and under a new request hash |
| ApiTransactions.SettlementIsRecorded | src/db.rs:3761-3839 | it writes the spend it reports, ends the attempt it binds, settles its reservation, and nothing else |
| ApiTransactions.SettlementMoves | src/db.rs:6168-6200 | and takes exactly what the reservation held and spends exactly what was used |
| ApiTransactions.ReleaseFrees | src/db.rs:3460-3492 | an active reservation no claim made is released with a reason and frees exactly what it held |
| ApiBudget.EffectivePrice | src/db.rs:3725-3744 | the price in effect is the one with the latest start, and the latest row among those |
| Pricing.CostIsExactCeiling | src/api_pricing.rs:6-48 | a cost is returned exactly when the categories fit the input and the ceiling fits 64 bits, and it is that ceiling |
| Pricing.ChargeIsCeiling | src/api_pricing.rs:6-48 | the charge is the least integer not below the rational cost |
| Pricing.ChargeMonotone | src/api_pricing.rs:6-48 | more usage never costs less |
| Pricing.ChargeSubadditive | src/api_pricing.rs:6-48 | splitting usage in two costs at most one unit more and never less |
| Pricing.ChargeBelowHighestRate | src/api_pricing.rs:6-48 | the charge never exceeds the ceiling with all input at the highest input rate |
| Pricing.ValidatedRatesNeverOverflow | src/db.rs:5896-5906 | for validated rates the 128-bit intermediates never overflow |
| Pricing.ParsedUsageIsPriceable | src/api_providers.rs:1425-1446 | usage both parsers return meets the pricing precondition |
| Pricing.AnthropicUsageIsRead | src/api_providers.rs:1425-1446 | the base stays uncached, cache reads become cached input and cache writes cache creation, and nothing is counted twice |
| Pricing.OpenAiUsageIsRead | src/api_providers.rs:819-842 | the categories must fit in the input total, which must agree with the reported total |
| Retry.DelayBounds | src/db.rs:6540-6558 | the delay lies between 80% of the capped delay and the smaller of 120% and the maximum |
| Retry.NeverSaturates | src/db.rs:6547-6555 | the saturating multiplications never saturate |
| Retry.OrderedExactlyWhenRangesDoNotCross | src/db.rs:6540-6558 | for all durations a later retry never waits less for any jitter exactly when either has no delay of 64 bits or the ranges of those that have do not cross |
| Retry.AcceptedDelays | src/db.rs:6547-6557 | the accepted delays lie between two that occur, the longest being the largest jitter that still fits in 64 bits |
| Retry.WaitsGrowBelowTheCap | src/db.rs:6540-6558 | while doubling still fits under the cap a later retry never waits less |
| Retry.JitterReordersRetriesAtTheCap | src/db.rs:6540-6558 | at the cap jitter can make a later retry wait less |
| Retry.RetriesStayWithinTheLargestLimit | src/db.rs:4229-4317 | the retry counter is the number of retries granted and never exceeds the largest limit ever set |
| Retry.TaskRetry.SetRetryLimit | src/db.rs:4229-4241 | limits above twenty are refused |
| Retry.TaskRetry.PlanRetry | src/db.rs:4244-4338 | the plan returned and the row left are those RetryIsPlannedExactly describes, and a refusal changes nothing |
| Retry.RetryIsPlannedExactly | src/db.rs:4244-4338 | a retry is scheduled exactly for a failed task, a retryable failure, a counter below the limit and a delay that fits; it is numbered next and starts after four to six fifths of the doubled delay under the maximum |
| Circuit.CounterIsTrailingFailures | src/db.rs:4736-4804 | the counter is the saturated length of the trailing run of retryable failures, and the circuit is closed exactly below the threshold |
| Circuit.OneProbeBetweenOutcomes | src/db.rs:4685-4733 | at most one half-open probe is granted between outcomes |
| Circuit.ProbeWaitsForTheCooldown | src/db.rs:4685-4733 | no probe is granted before the cooldown of the latest opening ends |
| Circuit.GateAnswersByHistory | src/db.rs:4685-4733 | under a fixed threshold the whole answer follows from the history: open below the threshold, shut until the cooldown of the latest opening ends, and shut again once the probe is taken |
| Circuit.AllowedExactly | src/db.rs:4706-4731 | a caller is let through exactly while trailing failures are below the threshold, or after the cooldown of the latest opening when nobody has asked for the probe since it ended |
| Circuit.AdapterCircuits.AdapterCircuitGate | src/db.rs:4685-4733 | the gate answers and moves as its specification says, which the history decides (Circuit.GateAnswersByHistory) |
| Circuit.AdapterCircuits.RecordAdapterOutcome | src/db.rs:4736-4804 | an outcome updates the circuit as its specification says |
| Routing.SelectCandidate | src/routing.rs:82-135 | the selection is allowed exactly when a candidate passes every gate and is the best by score and least key; a pin is never overridden |
| Routing.AllowedMeansEveryGate | src/routing.rs:137-242 | an evaluation is allowed exactly when every gate passes, and its score adds up the quota margin, a quarter of the success rate, ten for continuity, and the preference |
| Routing.DenialNamesTheFirstGateFailed | src/routing.rs:137-222 | a denial names the first gate the candidate fails, in the order the gates are tried |
| Routing.CompareStringsIsLexicographic | src/routing.rs:30-32 | keys compare by the first difference, a proper prefix being the lesser |
| Routing.CompareIdentitiesIsLexicographic | src/routing.rs:30-32 | identities compare by adapter, then provider, then account |
| Routing.InputAcceptedExactly | src/routing.rs:244-286 | which requests and candidates are accepted |
| Routing.SelectionIgnoresOrder | src/routing.rs:82-135 | the selection does not depend on the order of the candidates |
| Routing.AnswerIgnoresOrder | src/routing.rs:82-135 | with distinct identities the whole evaluation list does not depend on the order |
| Routing.SortEvaluations | src/routing.rs:95-110 | the in-place sort orders by allowed, score and key and keeps the multiset |
| Calendar.NextEligible | src/schedule.rs:89-106 | the search returns the start of the earliest later matching date within its bound, or none exactly when there is none |
| Calendar.LocalDayStartUtc | src/schedule.rs:108-122 | the start of a local day is its first existing local time |
| Calendar.Evaluate | src/schedule.rs:17-55 | an eligible day is allowed at once, and another waits for the search |
| Calendar.EligibleExactly | src/schedule.rs:57-87 | the first exception listed for a day decides what it is, else the letter of its weekday, and its affinity whether it is eligible |
| Calendar.SearchSucceeds | src/schedule.rs:89-106 | with a matching weekday and fewer than 52 non-matching exceptions the search always succeeds |
| Calendar.FiftyTwoExceptionsCanBlock | src/schedule.rs:89-106 | 52 exceptions can make it fail, so the bound is exact |
| EventLog.ReachableLogsAreChained | src/db.rs:6685-6742 | sequences are exactly 1..n and each event links to its predecessor |
| EventLog.SameHeadSameHistory | src/db.rs:6685-6742 | with an injective hash, logs with the same final digest agree on every event |
| EventLog.HeadCommitsToTheEvents | src/db.rs:6685-6742 | the final digest commits to every digested field |
| EventLog.EventTable.AppendEvent | src/db.rs:6685-6742 | an append adds exactly the linked event |
| AnthropicStream.ParseAnthropicResponseStream | src/api_providers.rs:990-1219 | the reassembly loop computes its specification |
| AnthropicStream.MessageAcceptedExactly | src/api_providers.rs:902-966 | a message is accepted exactly when each of its parts is, and returned as it was sent: identifiers, content in order, ending, and usage by category |
| StreamEncoding.StreamEqualsMessage | src/api_providers.rs:902-1219 | every streaming encoding of an accepted message, however chunked and interleaved, gives the same response |
| StreamEncoding.AcceptedStreamEncodesMessage | src/api_providers.rs:902-1219 | every accepted stream encodes a message, which the message parser accepts alike exactly when no text is empty |
| StreamEncoding.AcceptedStreamNeedsNoFallback | src/api_providers.rs:1205-1218 | an accepted stream has set every field, so the fallback values are never used |
| StreamEncoding.EmptyTextIsAccepted | src/api_providers.rs:1063-1073 | a concrete stream with an empty text is accepted while its message is rejected |

## Left out

- SQLite, SQL text, migrations and backups: tables are sequences and maps, transactions atomic steps, and unique indexes part of the invariant or explicit errors.
- RFC 3339 text and time zone data: instants are integers, and local-time resolution is a function supplied by the caller.
- Floating point: percentages and scores are reals, so rounding, negative zero and NaN are not modelled.
- SHA-256 and ULIDs: the event hash is any function, assumed injective where stated; identifiers are fresh row positions; the jitter sample is any 16-bit value.
- Transactions on tables not modelled here: projects and their links, calendars, approvals, MCP servers, API request plans, capability probes, wakes, usage samples and collection attempts.
- A task's title, goal, scope and other fields besides project, dependencies and pin, and their validation.
- Unclaimed execution (`create_run`), verifier runs and the manual runner: they bypass the claim protocol, so every run here came from a claim.
- JSON text, server-sent-event framing, HTTP and provider failure classification: the stream starts from typed events.
- `parse_openai_value`: only its usage accounting is modelled; its output loop has no streaming counterpart to agree with.
- The expiry column of locks: no query reads it, so lock rows have none.
- Which notifications and log events each transaction writes: the log is its own machine, with any events.
- The order in which surfaces of one account are reserved: row order instead of key order, which can only change which refusal is reported.
- The retry row and the circuits live in their own machines, beside the store.
- The three locator forms of a budget's secret reference (`src/secrets.rs`): budgets have no secret field.
- The per-project scheduler pause of `docs/data-model.md:52`: the claim transaction does not read it, and `src/service.rs` is not part of this model.
- The reset time, source, collector and digest columns of quota surfaces: no admission reads them, so only the checks on them are kept.
- The supervision counters, heartbeats and checkpoint rows of a run, which no guarantee reads.
- Process supervision, git, containers, agent adapters, projections, evidence files, command line, MCP registration, `src/service.rs` and `src/web_ui.rs`.
- Store.Apply: does not model the two errors of a missing table row that the foreign keys rule out.
