# Verified model of the motor's bus, supervisors, backlog comparison and memory index

This project models the parts of the motor that coordinate several processes and
decide what a session sees, and proves what they keep over every run:

- **The event log** (`EventBus.dfy`, `EventLogProperties.dfy`, `DuplicateGuard.dfy`, `Reentry.dfy`,
  `ContractGaps.dfy`, `TicketStates.dfy`): an append-only log with sequence numbers,
  a duplicate guard over a sliding window, a guard against reopening closed tickets,
  archiving, and the two derivations of a ticket's state.
- **Supervisors** (`ClaimProtocol.dfy`, `ClaimOnBus.dfy`, `ArtifactWrites.dfy`, `Relaunch.dfy`,
  `Supervisor.dfy`): two protocols over shared files as transition systems, one action per atomic file
  operation and any number of processes, and one supervisor
  object over any sequence of passes, bootstraps and archivings.
- **Review** (`ReviewCycle.dfy`, `DecisionParser.dfy`): the attempt loop of a review
  cycle under arbitrary backend outcomes, and the reading of a decision out of a transcript.
- **Backlog comparison** (`PairScan.dfy`, `UnionFind.dfy`, `ReviewLots.dfy`): the
  inverted-index scan against all-pairs comparison, union-find over a parent array, and review lots.
- **Memory index** (`MemoryQuota.dfy`, `MemorySelection.dfy`,
  `MemorySelectionProperties.dfy`, `MemoryIndex.dfy`, `MemoryFit.dfy`, `MemoryFormat.dfy`,
  `Texts.dfy`): the quota per origin, the rendering, and the search for the largest
  selection whose rendering fits a budget.
- **Ticket identifiers and the start-up archive** (`TicketIds.dfy`, `TicketSurfaces.dfy`, `Arranques.dfy`,
  `ArranquesProperties.dfy`).

Code that changes state step by step is modelled by classes and methods with loops; each such method is
proved against a function or predicate, and the promises are lemmas about that. `dafny verify dfyconfig.toml` checks
the whole project.

## Where the code does less than its documentation says

Each of these is a lemma with a concrete input, next to the exact condition under which the promise holds.

- A stale claim can be won by every supervisor that saw it stale, because its age is not looked at again under
  the takeover file: the sharp bound on wins is one plus the deletions (`ClaimProtocol.WinsAreBounded`,
  `ClaimProtocol.WinsReachTheBound`), and there is one winner as long as no claim goes stale
  (`ClaimProtocol.OneWinnerUnlessStale`, `ClaimProtocol.OneWinnerIffWithinTtl`). A crash inside the takeover section leaves
  its file behind, and then only a cleanup frees the claim (`ClaimProtocol.StaleIsRecoverableIff`,
  `ClaimProtocol.CrashBlocksRecovery`). The cleanup of a terminal ticket also unlinks takeover files
  (`ClaimProtocol.CleanupBreaksTakeover`, against `ClaimProtocol.TakeoverIsBounded`), and archiving a ticket lets its
  stale claim be won again (`ClaimOnBus.StaleIsRefusedIff`, `ClaimOnBus.ArchivingReopensClaim`).
- The compare-and-swap of the state file loses updates when a lock is broken after 30 seconds, when two contents share a
  revision, and for states loaded before the file existed (`ArtifactWrites.BrokenLocksLoseUpdates`,
  `ArtifactWrites.CollisionsLoseUpdates`, `ArtifactWrites.FirstSavesOverwrite`); `ArtifactWrites.FreshLocksKeepUpdates` and
  `ArtifactWrites.UpdatesAreKeptIff` say when it does not.
- A completed ticket reopens after an approval (`Reentry.ApprovalReopensCompletedTicket`, against
  `Reentry.ReopeningPassesThroughEscape`). Archiving another ticket defeats the duplicate window
  (`DuplicateGuard.ArchivingDefeatsTheWindow`, `DuplicateGuard.BlocksAreBoundedIff`), archiving the owner of the last record
  gives numbers out again (`EventLogProperties.NumberIsGivenAgain`, `EventLogProperties.ArchivingKeepsNumbersFreshIff`),
  and archiving forgets contract gaps (`ContractGaps.ArchivedGapsAreForgotten`, `ContractGaps.GapsAreBounded`).
- Unusable blockers are noticed after the check that would have stopped the relaunch (`Supervision.OwnBlockComesTooLate`).
- A CHANGES that arrives between the two reads of one pass is marked as processed without being looked at; only a
  bootstrap finds it (`Supervision.LostBetweenReads`, `Supervision.LostIsNeverDue`). After an archiving that restarts the
  numbers below the watermark not even a bootstrap does (`Supervision.RestartHidesTriggers`).
- The guard against reopening does not see a close that only SUPERVISOR_CLOSED records, and lets contract gaps pass
  (`StateMachine.DerivedStepFromClosed`, `StateMachine.GuardMissesDerivedClose`).
- With three or more origins a higher cap can drop entries (`Quotas.MoreOriginsLoseEntries`); with two it cannot.
- `next_free_ticket_id` repeats its answer at once for a prefix the collector does not recognise, two- and four-letter
  prefixes among them (`TicketSurfaces.AllocationNeverRepeatsIff`), because what it writes is not found again, or is found
  without its first letter (`TicketSurfaces.FourLettersAreReadShort`).
- A file name that does not survive being written to a table row is moved and leaves an index that does not match
  (`ArranquesProperties.MoveKeepsIndexIff`).
- The retries of the transcript parser read the same text again and cannot change its answer
  (`DecisionParser.ParseWithRetry`).

## Model

| member | source | states |
|---|---|---|
| `EventLog.EventBus.constructor` | bus/event_bus.py:67-93 | a new bus takes over the log and the archives it finds, and counts no blocked emits yet |
| `EventLog.EventBus.CountRecentDuplicates` | bus/event_bus.py:112-138 | the backward loop counts exactly the records of the window that agree in type, ticket, actor and payload |
| `EventLog.EventBus.GetCurrentState` | bus/event_bus.py:214-233 | the backward scan returns the state of the last event that decides one |
| `EventLog.EventBus.Emit` | bus/event_bus.py:140-202 | appends the record of the request, numbered past the last, exactly when neither guard refuses; otherwise changes nothing, and only a duplicate is counted as blocked |
| `Reentry.AcceptsIff` | bus/event_bus.py:112-202 | a request is accepted exactly if the window holds fewer than max_duplicates records that agree in type, ticket, actor and payload, and it asks for no work on a closed ticket or carries the override |
| `Reentry.OverrideReopens` | bus/event_bus.py:174-181 | with the override a closed ticket takes the state asked for if the request is no duplicate; without it the same request changes nothing |
| `Reentry.StateIsOfLast` | bus/event_bus.py:214-233 | the derived state is the one of the last deciding event of the ticket, and none without such an event |
| `Reentry.WordsOfEvents` | bus/event_bus.py:235-300 | which words of the three kinds of deciding event stand for which state, in whatever case |
| `TicketStates.NamesAreRead` | bus/state_machine.py:6-31 | every state is read back from its name, and no other text names it |
| `TicketStates.EveryStateHasItsPlace` | bus/state_machine.py:33-66 | every state is open, closed for good or unknown; the open ones but READY_TO_CLOSE are work states |
| `EventLog.EventBus.ArchiveTicketEvents` | bus/event_bus.py:538-618 | every live event of the ticket goes behind its earlier archive, all others stay in order |
| `EventLogProperties.ArchivingKeepsHistory` | bus/event_bus.py:524-618 | archived and live events of any ticket, read together, are the same sequence before and after archiving any ticket |
| `EventLogProperties.RunExtendsHistory` | bus/event_bus.py:140-202 | over any mix of emits and archivings a ticket's history only grows, by exactly its accepted events in order |
| `EventLogProperties.RunKeepsNumbers` | bus/event_bus.py:190-202 | live sequence numbers stay positive and strictly increasing over any run |
| `EventLogProperties.EmitsAreConsecutive` | bus/event_bus.py:190-202 | over runs without archivings the live log is numbered from 1 without a gap |
| `EventLogProperties.ArchivingKeepsNumbersFreshIff` | bus/event_bus.py:538-618 | archiving a ticket keeps the next number above every number of every history exactly when the ticket does not own the last live record |
| `EventLogProperties.NumberIsGivenAgain` | bus/event_bus.py:190-202 | after the owner of the last record was archived, the next number is not above that record, which is in the archive |
| `EventLogProperties.HistoriesStayNumbered` | bus/event_bus.py:538-618 | over every run that never archives the owner of the last record, the numbers of every whole history strictly increase and the next number is new |
| `DuplicateGuard.RunKeepsThinned` | bus/event_bus.py:183-202 | over every run that archives no ticket but its own, each record of a fingerprint met fewer than the allowed number of equals in its window |
| `DuplicateGuard.WholeLogIsBounded` | bus/event_bus.py:112-138 | with window 0 the whole live log holds at most max_duplicates of a fingerprint, over every run |
| `DuplicateGuard.DuplicatesAreBounded` | bus/event_bus.py:112-138 | any window_size + 1 consecutive records hold at most max_duplicates identical ones, over runs that archive no other ticket, and over every run when the window is 0 or shorter than the allowance |
| `DuplicateGuard.ArchivingDefeatsTheWindow` | bus/event_bus.py:112-138 | for every allowance from 1 to the window size, a run whose archiving of another ticket leaves max_duplicates + 1 identical records side by side |
| `DuplicateGuard.BlocksAreBoundedIff` | bus/event_bus.py:112-138 | the bound holds of every run exactly when the window is 0, nothing is allowed, or the allowance exceeds the window |
| `Reentry.EmitDecidesState` | bus/event_bus.py:214-257 | an emit decides the derived state of a ticket exactly when it is accepted, of that ticket and of a deciding kind |
| `Reentry.ArchivingOthersKeepsState` | bus/event_bus.py:214-233 | archiving another ticket leaves the derived state |
| `Reentry.StepFromClosed` | bus/event_bus.py:174-181 | one guarded step never takes a closed ticket to a work state, and leaves it closed unless an accepted event derives neither |
| `Reentry.ReopeningPassesThroughEscape` | bus/event_bus.py:285-300 | between a closed state and any later work state lies an accepted event after which the ticket is in neither |
| `Reentry.NeitherClosedNorAtWork` | bus/state_machine.py:33-66 | besides closed and work states there are only READY_TO_CLOSE, UNKNOWN and no state |
| `Reentry.ClosedIsAbsorbing` | bus/event_bus.py:174-181 | on runs without such an event a closed ticket stays closed to the end |
| `Reentry.EscapedTicketReopens` | bus/event_bus.py:285-300 | once a ticket left the closed states, a request for a work state is refused only as a duplicate |
| `Reentry.ApprovalReopensCompletedTicket` | bus/event_bus.py:241-300 | approve, then changes, takes a COMPLETED ticket to IN_PROGRESS with the guard on |
| `StateMachine.DerivationsDifferByOverride` | bus/state_machine.py:95-113 | the supervisor's derivation is the bus's, except for what CONTRACT_GAP, SUPERVISOR_CLOSED and READY_TO_CLOSE after them override |
| `StateMachine.DerivationsAgree` | bus/state_machine.py:95-113 | the two derivations agree exactly when that override names the bus's state or there is none |
| `StateMachine.DerivationsAgreeOnSharedKinds` | bus/state_machine.py:95-113 | without SUPERVISOR_CLOSED and CONTRACT_GAP events of the ticket the two derivations agree |
| `StateMachine.DerivedStepFromClosed` | bus/event_bus.py:174-181 | under the supervisor's derivation one guarded step takes a closed ticket back to work exactly by a contract gap, or by a request for work while the bus does not see it closed, if it is no duplicate |
| `StateMachine.GuardMissesDerivedClose` | bus/state_machine.py:95-113 | every such request, gap or work, reopens a ticket that only SUPERVISOR_CLOSED closed |
| `ContractGaps.EmitContractGap` | bus/event_bus.py:389-478 | validates and normalises its arguments, looks for the gap in the live log, and adds at most the one event it returns |
| `ContractGaps.GapIsRecordedIff` | bus/event_bus.py:389-478 | a gap is recorded exactly when its arguments are valid and the live log has none of that ticket and type; neither bus guard can refuse it |
| `ContractGaps.GapsAreTaken` | bus/event_bus.py:389-455 | of a recognised ticket, with the path of its file in either kind of slash and any space around it, exactly the three kinds of gap are valid |
| `ContractGaps.KnowsGap` | bus/event_bus.py:456-465 | the loop finds a recorded gap exactly when there is one |
| `ContractGaps.GapsAreBounded` | bus/event_bus.py:389-478 | over any run a gap is recorded at most once more often than its ticket was archived |
| `ContractGaps.ArchivedGapsAreForgotten` | bus/event_bus.py:456-465 | from every store, after archiving the ticket the same gap is recorded once more |
| `ClaimProtocol.RunIsBalanced` | bus/builder_locks.py:193-307 | in every interleaving creations are deletions plus the claim present, and wins plus pending creators never exceed creations |
| `ClaimProtocol.WinsAreBounded` | bus/builder_locks.py:193-307 | at most one more call returns True than claims were deleted |
| `ClaimProtocol.UnstaleRunIsFresh` | bus/builder_locks.py:236-254 | over runs of any length in which no claim is ever past its TTL and none is removed, nobody gets beyond the age check |
| `ClaimProtocol.OneWinnerUnlessStale` | bus/builder_locks.py:193-307 | if no claim ages past the TTL and none is removed, at most one supervisor ever wins, however long the run goes on |
| `ClaimProtocol.OneWinnerIffWithinTtl` | bus/builder_locks.py:193-307 | for any number of supervisors: every run of a given length without removals has at most one winner exactly when that length is within the TTL |
| `ClaimProtocol.TakeoverIsBounded` | bus/builder_locks.py:264-307 | in every interleaving at most one supervisor is inside the takeover section, plus one for each cleanup of the takeover file |
| `ClaimProtocol.TakeoverIsExclusive` | bus/builder_locks.py:264-307 | without such cleanups at most one supervisor is inside |
| `ClaimProtocol.LateClaimsAreBounded` | bus/builder_locks.py:256-262 | once the relaunch is on the bus only supervisors already past the check, or one empty slot, can add claims, however old the claim gets |
| `ClaimProtocol.RecoverRun` | bus/builder_locks.py:264-307 | an undisturbed takeover replaces the claim by a new one and returns True |
| `ClaimProtocol.WinsReachTheBound` | bus/builder_locks.py:245-293 | for every k >= 1, a run of k supervisors, one second past the TTL and without cleanup or rollback, with k + 1 wins and k deletions |
| `ClaimProtocol.CleanupBreaksTakeover` | bus/builder_locks.py:310-318 | for every number of cleanups, a run in which that many and one supervisors are inside the takeover section |
| `ClaimProtocol.AbandonedBlocksRecovery` | bus/builder_locks.py:264-307 | a takeover file that nobody holds stays until a cleanup: nobody enters the section, no claim is deleted, and creations grow only by filling an empty slot |
| `ClaimProtocol.StaleIsRecoverableIff` | bus/builder_locks.py:236-307 | between supervisors at rest a stale claim can be won again, without cleanups, exactly when no takeover file is there and no relaunch is on the bus |
| `ClaimProtocol.CrashBlocksRecovery` | bus/builder_locks.py:264-307 | a run in which one crash inside the section leaves a stale claim that no run without a cleanup recovers |
| `ClaimOnBus.RecordedRun` | bus/builder_locks.py:256-262 | while the live log holds the attempt and until the ticket is archived, the claims run as if the bus stood still |
| `ClaimOnBus.LateClaimsAreBounded` | bus/builder_locks.py:193-307 | with emits and archivings interleaved: once the attempt is in the live log, further claims come only from supervisors past the check or one empty slot |
| `ClaimOnBus.StaleIsRefusedIff` | bus/builder_locks.py:256-307 | no run claims a stale trigger again exactly when the live log holds its attempt |
| `ClaimOnBus.ArchivingReopensClaim` | bus/builder_locks.py:256-307 | archiving the ticket removes the attempt, and its stale claim can be won again |
| `ArtifactWrites.StepKeepsExclusive` | bus/supervisor.py:219-291 | every operation keeps at most one process between taking and dropping the lock, while no lock was broken |
| `ArtifactWrites.StepKeepsLinear` | bus/supervisor.py:184-291 | every operation keeps the writes a chain that ends in the file, each computed from what its process had loaded |
| `ArtifactWrites.StepKeepsGuarded` | bus/supervisor.py:242-273 | while no lock was broken the revision check still holds when the file is replaced |
| `ArtifactWrites.WritesAreCompareAndSwap` | bus/supervisor.py:184-291 | over every interleaving without a broken lock: one holder, one chain of writes, and each write with a revision replaced exactly that revision |
| `ArtifactWrites.FreshLocksAreNotBroken` | bus/supervisor.py:222-230 | over runs of any length in which no lock is ever held for more than 30 seconds, none is broken |
| `ArtifactWrites.NoUpdateIsLost` | bus/supervisor.py:144-154 | if the file existed, no lock was broken and revisions tell contents apart, the file is the updates applied one after the other |
| `ArtifactWrites.FreshLocksKeepUpdates` | bus/supervisor.py:184-291 | if no lock is held for more than 30 seconds and revisions tell contents apart, the file is the updates applied one after the other |
| `ArtifactWrites.FirstSavesOverwrite` | bus/supervisor.py:144-154 | two states loaded before the file existed: the second save overwrites the first |
| `ArtifactWrites.CollisionsLoseUpdates` | bus/supervisor.py:156-182 | two contents with one revision lose an update |
| `ArtifactWrites.BrokenLocksLoseUpdates` | bus/supervisor.py:222-230 | a run of 31 seconds in which a lock broken between check and replacement loses an update, under any revision function |
| `ArtifactWrites.UpdatesAreKeptIff` | bus/supervisor.py:219-291 | runs of a given length lose no update, as long as revisions tell their contents apart, exactly when that length is at most 30 seconds |
| `ArtifactWrites.SaveEnds` | bus/supervisor.py:219-291 | in every interleaving a save ends without writing only after a crash, another revision, a failed replacement, or max_retries attempts that each met a lock |
| `ArtifactWrites.SaveIsShort` | bus/supervisor.py:219-291 | a save ends within 3 * max_retries + 4 operations of its own |
| `ArtifactWrites.SaveSucceeds` | bus/supervisor.py:219-291 | a save that takes its operations, fails at none and meets a lock at fewer than max_retries attempts puts its content on file, in every interleaving |
| `ArtifactWrites.ReleasedLockIsTaken` | bus/supervisor.py:231-240 | a save that met a lock and has an attempt left writes once the lock is gone, if the revision still matches |
| `Relaunching.HasRelaunchedForTrigger` | bus/builder_locks.py:179-190 | True exactly when an attempt for the ticket and trigger is in the log past the trigger |
| `Relaunching.LatestChangesTrigger` | bus/builder_locks.py:321-333 | the greatest sequence number of a CHANGES of the ticket, or 0 |
| `Relaunching.HandoffBlockedAfter` | bus/builder_locks.py:153-164 | the greatest HANDOFF_BLOCKED above the trigger, or 0 |
| `Relaunching.AttemptIsFound` | bus/builder_relaunch.py:542-628 | after an emit of an attempt, kept or refused as a duplicate, the attempt is found exactly when the trigger is not past the end of the log |
| `Relaunching.RelaunchBuilder` | bus/builder_relaunch.py:354-628 | True exactly for a living Builder or a launcher that came back with 0, which the recorded outcome tells; by every exit the attempt is emitted, and a relaunch for the trigger is found afterwards, also when the emit was refused as a duplicate |
| `Relaunching.RunKeepsRelaunched` | bus/builder_locks.py:179-190 | a recorded relaunch stays recorded until the ticket itself is archived |
| `Supervision.OwnBlockComesTooLate` | bus/builder_relaunch.py:242-351 | the supervisor's own HANDOFF_BLOCKED is on the bus at the relaunch exactly when the blockers are unusable and the event is no duplicate |
| `Supervision.BlockIsCalledForIff` | bus/builder_relaunch.py:242-351 | a HANDOFF_BLOCKED is called for exactly when the blockers of the last review are blank, 15360 bytes or more, or raw output |
| `Supervision.DerivedIsTold` | bus/builder_locks.py:31-40 | which last deciding event stops a relaunch, puts the ticket to work, or up for review |
| `Supervision.DueInPassIff` | bus/builder_lifecycle.py:284-434 | over the events: a pass relaunches exactly for the newest unprocessed CHANGES above the watermark, with the claim, no later block, and no gate, approval or close as the last deciding event |
| `Supervision.DueAtBootstrapIff` | bus/builder_lifecycle.py:149-281 | over the events: a bootstrap relaunches exactly for the newest CHANGES above the watermark of a dead Builder's ticket at work, or up for review with the CHANGES unprocessed |
| `Supervision.HeldBackIsNeverDue` | bus/builder_lifecycle.py:112-118 | a ticket whose last deciding event is a human gate, an approval or any close is relaunched by neither a pass nor a bootstrap |
| `Supervision.CanCloseIff` | bus/supervisor.py:536-586 | a ticket can be closed exactly if its last STATE_CHANGED names READY_TO_CLOSE and a CLOSE_CONFIRMED is on the bus |
| `Texts.BytesAreCounted` | bus/builder_relaunch.py:279-280 | the size of blockers in bytes is one for each character, and one more from 128, from 2048 and from 65536 on |
| `Supervision.BlockSaysWhy` | bus/builder_relaunch.py:262-316 | that event gives the first reason there is, and the size in bytes where the size is the reason |
| `Supervision.ActivationDecides` | bus/supervisor.py:598-619 | activation leaves the next ticket IN_PROGRESS on the bus and every other one as it was; one the bus has closed stays closed although it is now active |
| `Supervision.ClosingDecides` | bus/supervisor.py:554-586 | closing leaves the bus at COMPLETED if its STATE_CHANGED gets past the duplicate guard and otherwise as it was; the supervisor's derivation is COMPLETED if either event does |
| `Supervision.Supervisor.ProcessNewEvents` | bus/supervisor.py:1512-1536 | moves the processed sequence to the end of the log and changes nothing else |
| `Supervision.Supervisor.RequeueTicket` | bus/builder_lifecycle.py:63-146 | relaunches exactly when the claim is granted, the ticket is active and its derived state is not a blocked one; then the round goes up by one, the watermark is the trigger, and the bus gains the attempt; otherwise nothing changes |
| `Supervision.Supervisor.MaterializeBlockers` | bus/builder_relaunch.py:242-351 | adds at most the HANDOFF_BLOCKED that unusable blockers call for |
| `Supervision.Supervisor.CheckAndRequeue` | bus/builder_lifecycle.py:381-430 | relaunches exactly for the active ticket with a granted claim, no HANDOFF_BLOCKED after the trigger on the bus at the check, and no blocked derived state |
| `Supervision.Supervisor.NextTrigger` | bus/builder_lifecycle.py:347-378 | the trigger is the latest CHANGES of the active ticket among the events not processed before |
| `Supervision.Supervisor.RunOnce` | bus/builder_lifecycle.py:284-434 | one pass relaunches exactly when a relaunch is due for that trigger; it adds at most one and then raises the round by exactly one |
| `Supervision.LostBetweenReads` | bus/builder_lifecycle.py:347-378 | an event on the bus after a pass is new neither to it nor to a later pass exactly when it was processed before or arrived between the read and the processing |
| `Supervision.LostIsNeverDue` | bus/builder_lifecycle.py:347-378 | a CHANGES that arrived between the read and the processing is due neither in that pass nor in any later one |
| `Supervision.NumbersStayAboveIff` | bus/event_bus.py:538-618 | after the archiving of a ticket the live numbers still reach a given one exactly when another ticket holds a record there |
| `Supervision.RestartHidesTriggers` | bus/builder_lifecycle.py:177-180 | the next event after an archiving is numbered above the watermark exactly when another ticket holds a record there; otherwise a CHANGES with that number is due in no pass and no bootstrap |
| `Supervision.Supervisor.CloseActiveTicket` | bus/supervisor.py:554-586 | closes exactly when the ticket is READY_TO_CLOSE and its close is confirmed, and then emits both events |
| `Supervision.Supervisor.AdvanceIfReviewReady` | bus/supervisor.py:588-620 | the next ticket becomes active exactly when the present one was closed; the bus then holds the closing events, the hand-off and the activation |
| `Supervision.Supervisor.BootstrapRequeue` | bus/builder_lifecycle.py:149-281 | a bootstrap requeues exactly a dead Builder's active ticket with an unserved CHANGES that is in progress, or ready for review with the CHANGES past the processed sequence |
| `Supervision.Supervisor.RequeueRecovered` | bus/supervisor.py:1374-1491 | the recovered ticket is requeued exactly when it was left behind; unless others write meanwhile, a ticket just relaunched stays active |
| `Supervision.RelaunchKeepsDerived` | bus/builder_lifecycle.py:149-281 | a relaunch, with what it writes down first, leaves the derived state of its ticket |
| `Supervision.Supervisor.Reconcile` | bus/supervisor.py:1410-1491 | a bootstrap relaunches exactly the recovered ticket for a trigger left behind, at most once, and then raises the round by exactly one; with no event arriving meanwhile only a ticket in progress |
| `Supervision.Supervisor.RunAll` | bus/builder_lifecycle.py:284-434 | over any sequence of passes, bootstraps and archivings relaunched triggers strictly increase, each relaunch was justified by a CHANGES, no later block and a derived state on a log that was live then, and the watermark stays within the live numbers unless an archiving took the owner of the last record |
| `DecisionParser.ExtractDecision` | bus/decision_parser.py:199-214 | the loop returns the first deciding final answer, or without regard to phase the last decision |
| `DecisionParser.FirstFinalIsFirst` | bus/decision_parser.py:158-214 | the decision among final answers is that of the first one whose text has any of the three marks |
| `DecisionParser.LastTextIsLast` | bus/decision_parser.py:199-214 | without regard to phase it is that of the last text with a mark |
| `DecisionParser.StrongOnlyFromFinalAnswer` | bus/decision_parser.py:158-266 | over the texts: CHANGES is read exactly if the first final answer with a mark has that of CHANGES, APPROVE exactly if it has that of APPROVE and not that of CHANGES |
| `DecisionParser.WeakIsInspect` | bus/decision_parser.py:240-266 | anything else reads as INSPECT |
| `DecisionParser.FallbackIff` | bus/decision_parser.py:240-266 | the parser gives up exactly if neither the text events nor the raw text state a decision, however it is spaced |
| `DecisionParser.ParseWithRetry` | bus/decision_parser.py:269-296 | the retries never alter the result, and how many there are |
| `ReviewCycle.Attempt` | bus/review_bridge.py:2184-2388 | one attempt logs its event, and another follows only after a time-out that reads as INSPECT or UNKNOWN, with attempts left |
| `ReviewCycle.Judge` | bus/review_bridge.py:2200-2312 | the decision of an attempt after the structure of CHANGES was enforced |
| `ReviewCycle.RunAttempts` | bus/review_bridge.py:2184-2388 | all attempts but the last were retried, the last was not |
| `ReviewCycle.RunCycle` | bus/review_bridge.py:2172-2477 | for every sequence of outcomes: which attempts are made, the decision, exactly the events emitted, and that each REVIEW_DECISION among them was earned |
| `ReviewCycle.OnlyTimeoutsAreRetried` | bus/review_bridge.py:2367-2382 | only an attempt that timed out and states neither an approval nor a valid CHANGES is retried |
| `ReviewCycle.SettledIff` | bus/review_bridge.py:2188-2399 | over what the last attempt brought: exactly when the cycle settles on APPROVE, CHANGES, INSPECT or a transport failure, for both backends |
| `ReviewCycle.AttemptsAreRecorded` | bus/review_bridge.py:2314-2365 | each attempt is recorded under its number, with its exit code and its decision |
| `ReviewCycle.VerdictIsKnown` | bus/review_bridge.py:2188-2262 | no route yields UNKNOWN, and TRANSPORT_FAILED exactly without transport |
| `ReviewCycle.DecisionsAreEarned` | bus/review_bridge.py:2291-2477 | over the log: every REVIEW_DECISION a cycle adds is of its ticket; CHANGES was stated with the four marks and carries the non-blank blockers, INSPECT never stands for a time-out, APPROVE was stated |
| `ReviewCycle.ApprovalIsExplicit` | bus/review_bridge.py:2200-2228 | with OpenCode an approval needs an approving artifact, or a first deciding final answer whose text approves and asks for no changes |
| `ReviewCycle.AtMostOneDecision` | bus/review_bridge.py:2462-2477 | a cycle adds at most one REVIEW_DECISION |
| `ReviewCycle.TransportFailureKeepsStates` | bus/review_bridge.py:2405-2454 | a transport failure leaves the derived state of every ticket |
| `ReviewCycle.DecisionDecidesState` | bus/review_bridge.py:2462-2477 | any other outcome moves the reviewed ticket to the state of its decision, and no other ticket, exactly when the bus accepts it |
| `Scores.ScoreIsSymmetric` | scripts/backlog_db_compare.py:488-514 | both scores are symmetric |
| `Scores.ScoreRange` | scripts/backlog_db_compare.py:488-514 | both scores lie in [0, 1] for positive weights, above 0 exactly when a token is shared |
| `Scores.RawIsSharedPart` | scripts/backlog_db_compare.py:488-493 | the raw score is the number of shared tokens in that of all tokens of the two |
| `Scores.UnknownWeighsNothing` | scripts/backlog_db_compare.py:507-514 | a token that the weights do not know adds nothing to either sum |
| `Scores.WeightedIsSharedPart` | scripts/backlog_db_compare.py:507-514 | the weighted score is the weight of the shared tokens in that of all |
| `Scores.ComputeScore` | scripts/backlog_db_compare.py:488-514 | the loops compute the ratio of shared to total weight, 0 for no weight |
| `PairScan.BuildIndex` | scripts/backlog_db_compare.py:527-552 | the inverted index lists for every token exactly the entries that hold it, in order |
| `PairScan.CandidateIndices` | scripts/backlog_db_compare.py:517-524 | the candidates of an entry are exactly the later entries that share a token, in increasing order |
| `PairScan.CandidatesAreShared` | scripts/backlog_db_compare.py:517-524 | those are the entries after i that share a token with it |
| `PairScan.CandidatesSuffice` | scripts/backlog_db_compare.py:527-552 | scoring the candidates gives the same pairs as scoring the whole row |
| `PairScan.ScanPairs` | scripts/backlog_db_compare.py:527-552 | the indexed scan returns the all-pairs comparison, split at the threshold, in the same order |
| `PairScan.ComputeIdf` | scripts/backlog_db_compare.py:496-505 | exactly the tokens that occur get a weight, the logarithm of 1 + n / (1 + the number of entries that have the token) |
| `PairScan.RarerWeighsMore` | scripts/backlog_db_compare.py:496-505 | for a growing logarithm the rarer of two tokens weighs more |
| `PairScan.CorpusWeightsArePositive` | scripts/backlog_db_compare.py:496-505 | those weights are positive for every token that occurs |
| `PairScan.CorpusScores` | scripts/backlog_db_compare.py:488-514 | over a corpus the score of two entries is in [0, 1] and positive exactly when they share a token |
| `PairScan.FindEdges` | scripts/backlog_db_compare.py:555-577 | edges and near misses of a corpus are the all-pairs scores split at the threshold and ranked by score, for both metrics |
| `PairScan.RankedRanks` | scripts/backlog_db_compare.py:575-576 | the ranking is by descending score and then by index |
| `PairScan.RankedForgetsOrder` | scripts/backlog_db_compare.py:575-576 | the final order does not depend on the order in which the pairs were found |
| `PairScan.AllPairsContains` | scripts/backlog_db_compare.py:527-552 | all-pairs comparison yields exactly the positively scored pairs i < j |
| `PairScan.AllPairsInOrder` | scripts/backlog_db_compare.py:527-552 | and each of them once |
| `PairScan.FoundPairs` | scripts/backlog_db_compare.py:555-577 | every pair that shares a token is in exactly one of the two ranked lists, once, on its side of the threshold |
| `Connectivity.RootsAreComponents` | scripts/backlog_db_compare.py:580-598 | two entries have one root exactly when a path of edges connects them |
| `UnionFinds.CompressionKeepsForest` | scripts/backlog_db_compare.py:586-593 | pointing a node at its root keeps every node's root and the forest |
| `UnionFinds.LinkingKeepsForest` | scripts/backlog_db_compare.py:595-598 | linking two roots merges exactly their classes |
| `UnionFinds.UnionFind.constructor` | scripts/backlog_db_compare.py:583-584 | every entry starts as its own root |
| `UnionFinds.UnionFind.Find` | scripts/backlog_db_compare.py:586-593 | terminates on every reachable parent array, returns the root, and keeps every node's root |
| `UnionFinds.UnionFind.Union` | scripts/backlog_db_compare.py:595-598 | merges the classes of its two entries and no others |
| `ReviewLots.UniteAll` | scripts/backlog_db_compare.py:601-638 | after all edges the roots are those of the connected components |
| `ReviewLots.LargeComponentHasEdges` | scripts/backlog_db_compare.py:601-638 | a component of several entries has an edge |
| `ReviewLots.BuildLots` | scripts/backlog_db_compare.py:601-638 | the lots are exactly the components of more than one entry: each entry in at most one, each edge between two entries in exactly one |
| `Observations.SortSorts` | bus/memory_loader.py:418-426 | entries come newest first |
| `Observations.DedupNewest` | bus/memory_loader.py:808-820 | one entry per key, the newest, newest first |
| `Observations.CopiesIff` | bus/memory_loader.py:808-820 | what makes two entries copies: one id, or no id and the same topic, ticket and time |
| `Quotas.TakesAreFair` | bus/memory_loader.py:496-552 | the quota uses the cap up as far as there are entries, takes nothing twice, and gives every origin its even share or all it has |
| `Quotas.TakesGrowByOne` | bus/memory_loader.py:496-552 | with at most two origins a cap one higher takes exactly one more entry and drops none |
| `Quotas.MoreOriginsLoseEntries` | bus/memory_loader.py:525-550 | for every number of origins from three on, sizes and a cap at which one more place costs an origin entries |
| `Selections.GroupByOrigin` | bus/memory_loader.py:496-498 | groups the entries by origin, in order of first appearance |
| `Selections.TakeShares` | bus/memory_loader.py:525-536 | ranks every group and takes its share |
| `Selections.TakeExtras` | bus/memory_loader.py:538-550 | hands the rest of the cap out in turn |
| `Selections.CapPreservingOrigins` | bus/memory_loader.py:454-552 | computes the selection that the lemmas below are about |
| `SelectionProperties.SelectionIsGranted` | bus/memory_loader.py:454-552 | exactly min(cap, candidates) entries, newest first, and from each origin a newest-first prefix of its candidates |
| `SelectionProperties.SelectionIsIncluded` | bus/memory_loader.py:454-552 | none invented, none repeated |
| `SelectionProperties.EveryOriginIsRepresented` | bus/memory_loader.py:496-552 | every origin keeps at least min(cap div origins, its candidates), one that holds only templates too |
| `SelectionProperties.TemplatesGiveWay` | bus/memory_loader.py:500-524 | an autogenerated template is selected only where its origin has no lesson |
| `SelectionProperties.SelectionGrows` | bus/memory_loader.py:525-552 | with at most two origins the selection at a cap one higher is the same plus exactly one entry |
| `Texts.ClipBlock` | bus/memory_loader.py:857-869 | keeps the most whole lines that leave 60 characters for the note; never longer than the limit when the note fits those |
| `Texts.ClipNotesAreShort` | bus/memory_loader.py:857-869 | the notes for the two labels in use fit |
| `Texts.SplitJoins` | bus/memory_loader.py:861-869 | the lines joined again are the text, up to a final line end |
| `IndexText.Render` | bus/memory_loader.py:942-988 | a rendering starts with the opening marker and ends with the closing one |
| `IndexText.LineNamesEntry` | bus/memory_loader.py:838-853 | an entry is named by its id, or by the topic it can be searched under |
| `IndexText.RenderShows` | bus/memory_loader.py:942-988 | every entry of both lanes has its line in the text, and so have the warning and the two blocks |
| `IndexText.RenderCountsShown` | bus/memory_loader.py:960-968 | the text tells how many entries are vigent and how many are shown |
| `IndexText.RenderCountsOmitted` | bus/memory_loader.py:943-987 | and how many are omitted, with and without an id |
| `IndexText.ShownAndOmitted` | bus/memory_loader.py:943-945 | stable, recent and omitted entries are the vigent ones, each exactly once, so the three counts add up |
| `MemoryFit.RenderGrows` | bus/memory_loader.py:942-988 | one more recent entry makes the rendering strictly longer although omitted counts may lose a digit |
| `MemoryFit.LengthsIncrease` | bus/memory_loader.py:1031-1040 | with at most two origins rendered length strictly increases with the cap |
| `CutOff.FirstOverflowCuts` | bus/memory_loader.py:1034-1040 | in an increasing table the numbers before the first overflow are exactly those that fit |
| `MemoryFit.SelectAll` | bus/memory_loader.py:1014-1014 | the first try is everything the quota can give |
| `MemoryFit.Fit` | bus/memory_loader.py:1031-1040 | stopping at the first overflow returns the largest selection that fits |
| `MemoryFormat.StableLane` | bus/memory_loader.py:906-916 | the newest tagged lesson of each topic, at most five, the newest of those |
| `MemoryFormat.ChooseLanes` | bus/memory_loader.py:1014-1048 | blocks are given up in order, only for a missed floor, and the recent lane is the largest beside what is left |
| `MemoryFormat.FloorsIff` | bus/memory_loader.py:1012-1029 | the floors are 25 entries, and 10 of each origin, as far as there are so many |
| `MemoryFormat.Finish` | bus/memory_loader.py:1050-1059 | a rendering over the budget is cut to exactly the budget, keeps its beginning and is closed; empty exactly when there is no room for the markers |
| `MemoryFormat.MakeFrame` | bus/memory_loader.py:902-925 | one entry per key, stale ones split off, the stable lane chosen |
| `MemoryFormat.VigentIff` | bus/memory_loader.py:746 | only refuted and superseded entries are set apart from the index proper |
| `MemoryFormat.StaleTextTells` | bus/memory_loader.py:932-940 | the stale block counts its entries and has every one's line; without stale entries there is no block |
| `MemoryFormat.StaleLinesTell` | bus/memory_loader.py:917-925 | every stale entry has its line, marked by whether it was superseded or refuted |
| `MemoryFormat.RenderBounded` | bus/memory_loader.py:927-1050 | before any hard cut: clipped blocks, lanes that fit, and nothing lost in the accounts |
| `MemoryFormat.FormatMemoryIndex` | bus/memory_loader.py:872-1059 | with a budget the result is empty or at most the budget, opened and closed by its markers |
| `MemoryFormat.FullShowsAll` | bus/memory_loader.py:990-1007 | without a budget nothing is omitted |
| `MemoryFormat.ShorterBlocksShowNoLess` | bus/memory_loader.py:1042-1048 | giving up a block never shows fewer recent entries, unless what stands in for it is longer |
| `TicketIds.FormatIsRead` | bus/ticket_id.py:104-110 | a written identifier reads back as what was written, numbers past 999 included |
| `TicketIds.ReadIff` | bus/ticket_id.py:104-110 | a text of three parts is read exactly if it is two to four capitals, four digits, three or more digits and at most one lower-case letter |
| `TicketIds.CollectedIff` | bus/ticket_id.py:20-23 | the collector takes WP, WT or three capitals, four digits, and letters and digits, and nothing else |
| `TicketIds.NextFreeTicketId` | bus/ticket_id.py:136-171 | the loop answers the successor of the greatest identifier of the prefix and year, 001a if there is none |
| `TicketIds.NextIsAboveAll` | bus/ticket_id.py:136-171 | for a canonical prefix and a four-digit year the answer parses to a key strictly above every existing one and is new |
| `TicketIds.NothingBetween` | bus/ticket_id.py:164-171 | between an identifier and its successor there is no other one with a letter |
| `TicketIds.FirstIsNotCollected` | bus/ticket_id.py:104-133 | the collector recognises a first identifier only for its own prefixes and four-digit years |
| `TicketIds.NextIsFree` | bus/ticket_id.py:113-171 | for every prefix and every year the answer is none of the collected identifiers |
| `TicketIds.NextIsCollected` | bus/ticket_id.py:113-133 | an answer for a collected prefix is recognised by the collector |
| `TicketSurfaces.FoundIsTicketId` | bus/ticket_id.py:94-101 | everything the search finds in a text is an identifier of the collected form |
| `TicketSurfaces.WrittenIsCollected` | bus/ticket_id.py:94-133 | an identifier of the collected form is found wherever it stands by itself in a text, whatever is around it |
| `TicketSurfaces.FourLettersAreReadShort` | bus/ticket_id.py:24-24 | of an identifier with a prefix of four letters the search finds all but its first letter |
| `TicketSurfaces.AnswerIsNotFound` | bus/ticket_id.py:136-171 | for all texts, prefixes and years the answer is none of the identifiers found in them |
| `TicketSurfaces.AnswerIsNewIff` | bus/ticket_id.py:136-171 | the answer stands on neither surface, whatever is on them, exactly for prefixes the collector recognises and four-digit years |
| `TicketSurfaces.AllocationsGoUp` | bus/ticket_id.py:136-171 | successive answers over surfaces that keep them only go up |
| `TicketSurfaces.AllocationNeverRepeatsIff` | bus/ticket_id.py:113-171 | repeated allocation never repeats exactly for prefixes the collector recognises and four-digit years |
| `ArchiveIndex.RowIsReadBackIff` | scripts/check_arranques_index.py:43-82 | a row names its file when read back exactly when the name is plain |
| `ArchiveIndex.HeaderDeclaresNothing` | scripts/check_arranques_index.py:71-82 | heading and rule name no file |
| `Arranques.Classify` | scripts/archive_arranques.py:267-300 | the listed files split into cited, skipped and archivable, in order |
| `Arranques.MayMoveIff` | scripts/archive_arranques.py:267-300 | a file may move exactly if the uncommitted names are known and it is none of them, it is old enough, and no surface has its name |
| `Arranques.ArranquesDir.Archive` | scripts/archive_arranques.py:312-388 | a run leaves behind and answers what the plan-then-move function says |
| `ArranquesProperties.RunConserves` | scripts/archive_arranques.py:349-388 | one run keeps every file in exactly as many places, under its name and with its content |
| `ArranquesProperties.RunMovesOnlyArchivable` | scripts/archive_arranques.py:267-388 | archived files stay, and cited, active or unlisted files stay in the root |
| `ArranquesProperties.CollisionMovesNothing` | scripts/archive_arranques.py:361-373 | one occupied destination, and nothing at all moves |
| `ArranquesProperties.OtherwiseAllMove` | scripts/archive_arranques.py:375-381 | without a collision everything archivable moves, and nothing else |
| `ArranquesProperties.RunTwiceMovesOnce` | scripts/archive_arranques.py:312-388 | a run that moved has nothing left to move when repeated |
| `ArranquesProperties.MoveKeepsIndexIff` | scripts/archive_arranques.py:375-387 | from a matching index a move leaves a matching one exactly when every moved name is plain |
| `ArranquesProperties.HistoryConserves` | scripts/archive_arranques.py:312-388 | over any sequence of runs no file is lost, duplicated or changed, and archived files stay archived |
| `ArranquesProperties.ProtectedStay` | scripts/archive_arranques.py:267-300 | a file every run finds cited, dirty or recent never leaves the root |
| `ArranquesProperties.IndexMatchesThroughout` | scripts/check_arranques_index.py:110-151 | with plain names the index matches the archive after every run if it did before |

## Left out

- Files, JSON, clocks and processes: a file is a field or a map entry, a line of the log is a decoded record, time is a
  number that actions advance, and every answer of the outside world is an argument. Log lines are taken as well formed.
- Concurrent `emit` calls and the moment between writing an archive and replacing the live log: the log lemmas are about
  sequential runs.
- Redaction is an argument of the bus; lemmas that need it say which fields it must leave alone.
- Payload values other than text, numbers and null, and fields the bus never reads, beyond a map of them.
- Stripping removes blanks, tabs and line ends only, not all of Unicode's white space; case mapping covers ASCII letters
  only, decimal digits are ASCII digits, and lines end at a newline character only.
- Floating point: scores are exact rationals over the reals, and the logarithm is any function that is positive where it is used.
- Labels, rounded scores, shared terms and identifiers in the backlog report, and with them the order of lots and of the
  edges inside a lot, which go by label.
- The outcome of a claim inside the supervisor object is an argument; the race itself is the subject of `ClaimProtocol`.
- Events from other processes during a pass are arguments of it; over whole runs they record no relaunch attempts themselves.
  Tickets are archived between passes, not within one.
- Rendering of TURN and STATE projections, prompts, capsules and human review reports; the manager watchdog; the approvals
  store; resets of the watermark by the ticket reconciler; SUPERVISOR_RECONCILED and its recovery of the active ticket.
- The fixed text that a HANDOFF_BLOCKED carries for each reason; the reason and the size stand for it.
- The text of a review, its blockers section and its artifact are arguments of an attempt; the regular expressions that
  cut them out of the output are not part of this model. The steps after the emitted decision (state transition,
  requeue, human gate, adaptive state) are left out too.
- The shortening of a signal to one index line, the breakdown of origins and the destination warning are arguments of the rendering.
- A file name with a line break, the prose above the index table, and the purging of archived files.
- Supervision.Supervisor.RequeueTicket: asks for a trigger above the watermark, for a bus without a HANDOFF_BLOCKED past the
  trigger, and for the blockers to have just been written down on it, all of which its two callers establish before they call it.
- DuplicateGuard.DuplicatesAreBounded: is about windows of 0 or more; a negative one, which nothing configures, exempts
  the oldest records from the guard.
- Reporting scripts, launchers, git queries and the transport of the review backend: tables, text and foreign calls.
