# Robyx runtime safety: a Dafny model with proofs

Robyx is a long-running chat bot. The parts of it modelled here keep its runtime state safe while many
asyncio tasks, child agents, crashes and stale writers act on it at once, and edit the text it exchanges
without losing any. `dafny verify dfyconfig.toml` checks the whole project.

| files | what they model |
|---|---|
| `Gate.dfy`, `GateProtocol.dfy`, `GateAdmission.dfy` | the maintenance gate: shared and exclusive leases, handoffs, poisoning, deferred callbacks; exactly whom it admits |
| `JsonRecovery.dfy`, `RecoveryProperties.dfy` | fail-closed JSON recovery from snapshots and the guard before every write |
| `ProgramAuthority.dfy` | `program.json` as the authority over `state.json` and `plan.md` |
| `LifecycleLocks.dfy`, `LifecycleStates.dfy`, `LifecycleHandlers.dfy` | per-name locks, the transition table, and stop, pause, resume, complete, delete |
| `Supervisor.dfy` | child tracking, coalesced termination and shutdown on POSIX |
| `CollabRecords.dfy`, `CollabStore.dfy`, `CollabProperties.dfy`, `CollabOutcomes.dfy` | the collaborative workspace store, its routing index and its rollback; exactly what each request changes |
| `MacroTokens.dfy`, `MacroDeletion.dfy` | pairing and deletion of continuous-task macros |
| `Archive.dfy`, `ArchiveProperties.dfy` | the memory archive's printer and parser, and when a whole file reads back |
| `SplitMessage.dfy` | the message splitter |
| `Common.dfy`, `Text.dfy` | small shared facts; Python's whitespace trimming |

## How the model is built

An object whose methods change fields is a class with those fields. Each method is proved against a
function of the old state (`EnterShared`, `LoadTrace`, `Call`, ...), and the properties are proved about
those functions: as inductive invariants over runs of any length, as equivalences, or as round trips. What
each operation answers is also told independently of them, from the scopes, files and records it meets. A
stretch of code between two awaits is one step. A sequence of file replacements is a trace, the list of
disks after each step, so that a crash is a prefix of the trace. I/O failures, deadlines, cancellations and
the order of events are free parameters, quantified over. Regular expressions of the macro scanner are
replaced by their match lists (source order, no overlap within one pattern); the archive's metadata pattern
is modelled as its own backtracking search.

## Where the code falls short of a promise

Each of these is false of the code in general. The model keeps the code as it is, gives a concrete input,
and proves exactly when the promise holds.

* **A guarded write can replace data the writer never read** (`GapLetsStaleWriteThrough`). Recovery clears
  the marker before it reads the installed copy back (`bot/persistence_recovery.py:315-316`, `347-348`); if
  that read fails with an `OSError`, or if both barrier writes of the guard fail (`397-417`), nothing stops the
  next write. `LoadKeepsPromiseIffNoGap` and `GuardKeepsPromiseIffNoGap` show that these are the only cases.
* **A crashed load is not always repeated** (`FailedReadReplacesValue`). A read of the live file that fails with
  an `OSError` counts as corruption (`bot/persistence_recovery.py:322-335`), so a valid file goes to quarantine,
  and after a crash there the next load answers with an older snapshot. `CrashesResumeIff` shows that apart from
  snapshots that come and go between the loads this is the only case; `SameFaultsResumeIff` covers loads in
  which the same operations fail every time.
* **A termination can lose a process group** (`GroupLostInRun`, `LateRegistrationLosesGroup`). A termination
  that looked its child up before the child was registered treats it as a bare leader; the registration that
  follows is then dropped although its group lives. `DepartsOnlyDeadIffClean` shows that nothing else does this.
  Every caller in the repository registers a child right after creating it, with no await in between and before
  any termination of it, so no caller runs into the case.
* **Resume can overwrite a completed task with pending** (`ResumeOverwritesCompleted`). It writes without
  draining, so a living child, or a step dispatched on an expired rate limit, can complete the task meanwhile.
  `TerminalSafety` shows that no other handler step does such a thing, `ResumeSafeIffQuiet` and
  `OvertakenResumeBeganUnquiet` when a resume can.
* **Not every status change is an edge of the transition table.** Complete also accepts pending and error
  (`CompleteFromPendingIsNoEdge`), and an overtaken resume leaves a terminal status. `StatusChangesAreEdges`
  shows that nothing else leaves the table.
* **An unclosed program block can stay in the reply** (`PaddedPayloadLeaks`). The first test of the stray filter
  (`bot/continuous_macro.py:239-244`) compares with the length of the tag found rather than with the block, so
  a tag padded with whitespace after a short block is dropped. `MissedIff` gives the exact condition.
* **A reason with an underscore does not survive archiving** (`UnderscoreReasonIsCut`). The lazy reason group
  stops at the first underscore after its first character; an entry line `---`, or a carriage return (which the
  text-mode read turns into a newline), changes an entry too. `BodySurvivesIff` and `ArchiveRoundTripsIff` give
  the exact conditions, for one entry and for the whole file.
* **A chat can be bound to a second workspace** (`TakenChatIsShadowed`). Nothing refuses it, and the record later in
  insertion order takes the route. `NewChatRoutesIffNotShadowed` gives the exact condition.

Documentation and code also differ in two places; the model follows the code. The docstring of
`extract_continuous_macros` promises newline collapsing and idempotence: a text without macros is returned
as it is (`bot/continuous_macro.py:327-328`), and a deletion can join the two halves of a new tag. The docstring
of `create_pending` names collisions and blank names as its errors; an empty agent name is refused too, by the
validator, after the record was made (`OnlyInputsAreRefused`).

## Model

| member | source | states |
|---|---|---|
| `Gate.MaintenanceGate.PoisonGate` | bot/maintenance.py:137-140 | the first reason sticks; nothing else changes |
| `Gate.MaintenanceGate.SharedEnter` | bot/maintenance.py:217-237 | the region before a shared body: poisoned and refused readers change nothing, a writer's own scope is subsumed, others raise exactly their own count |
| `Gate.MaintenanceGate.SharedExit` | bot/maintenance.py:239-249 | the matching exit lowers that count or removes the task; a subsumed scope touches nothing |
| `Gate.MaintenanceGate.ExclusiveEnter` | bot/maintenance.py:269-284 | poison, re-entrance, refused upgrade, busy writer, or writer intent, in that order |
| `Gate.MaintenanceGate.AcquirePass` | bot/maintenance.py:306-313 | the writer is installed only on a gate without readers and handoffs |
| `Gate.MaintenanceGate.TakeDrainAuthority` | bot/maintenance.py:344-350 | a failed acquisition installs itself as writer beside whoever still reads |
| `Gate.MaintenanceGate.ReentrantExit` | bot/maintenance.py:286-292 | a re-entrant scope only lowers the depth |
| `Gate.MaintenanceGate.HandoffShared` | bot/maintenance.py:149-160 | only a reader or the writer gets a fresh handoff; the counter rises by one |
| `Gate.MaintenanceGate.DeferCallback` | bot/maintenance.py:162-181 | refused when poisoned, run at once on an idle gate, else appended to the queue |
| `Gate.MaintenanceGate.DrainPop` | bot/maintenance.py:183-198 | callbacks leave the queue from the front |
| `Gate.MaintenanceGate.RejectDeferred` | bot/maintenance.py:200-214 | the queue is emptied and exactly its members are failed |
| `Gate.MaintenanceGate.ExclusiveRelease` | bot/maintenance.py:362-371 | writer and pending writer are cleared only if they are this task |
| `Gate.SharedLeaseHandoff.Cancel` | bot/maintenance.py:41-56 | gives the lease back at most once and never after the child entered |
| `Gate.SharedLeaseHandoff.Enter` | bot/maintenance.py:58-61 | enters at most once, never after a cancel |
| `Gate.SharedLeaseHandoff.Exit` | bot/maintenance.py:63-71 | returns the lease |
| `GateProtocol.StepKeepsInv` | bot/maintenance.py:33-371 | every region of every task keeps the protocol invariant: reader counts, lease accounting, nesting, one writer, the callback ledger |
| `GateProtocol.RunInv` | bot/maintenance.py:74-95 | the invariant holds in every state of every interleaving from a fresh gate |
| `GateProtocol.MutualExclusion` | bot/maintenance.py:216-371 | while an acquired writer runs, no task holds a counted scope, no other task holds a subsumed or re-entrant one, every live handoff is the writer's own; at most one task is ever pending or writer |
| `GateProtocol.ExclusivityStartsDrained` | bot/maintenance.py:298-336 | an exclusive body starts only from an acquisition pass that saw no reader and no handoff; a failed acquisition never reaches one |
| `GateProtocol.FailedAcquisitionBesideReader` | bot/maintenance.py:337-350 | a concrete run in which a failed acquisition is the writer while an old reader is still inside |
| `GateProtocol.LeaseStaysLive` | bot/maintenance.py:33-71 | a handoff stays live until it is cancelled or its scope is left |
| `GateProtocol.HandoffBlocksExclusivity` | bot/maintenance.py:149-160 | from minting to exit a handoff keeps every task out of exclusivity, even after its minter released |
| `GateProtocol.PoisonFreezesAdmission` | bot/maintenance.py:137-140 | after poisoning reader counts only fall, no new writer appears, nothing more is queued |
| `GateProtocol.FateStep` | bot/maintenance.py:162-214 | the only moves of a callback: queued to running (front of the queue) or rejected (poisoned), running to resolved; so it runs at most once |
| `GateProtocol.DeferredConserved` | bot/maintenance.py:162-214 | each deferred callback has exactly one fate; the queue is what arrived and has not departed, in arrival order, without repeats |
| `GateProtocol.ReleaseLeavesLateArrivals` | bot/maintenance.py:351-371 | what a release leaves queued is exactly what arrived after the drain last saw the queue empty, while the finaliser ran and the release waited for the lock |
| `GateAdmission.DeferAnswer` | bot/maintenance.py:162-181 | over every run: a callback is refused iff the gate is poisoned, runs at once iff no task is inside `exclusive`, and is queued, last, otherwise |
| `GateAdmission.SharedAnswer` | bot/maintenance.py:217-237 | over every run: refused with nothing changed iff poisoned, or another task is inside `exclusive` and this one has no counted scope open; the writer's own scope is not counted |
| `GateAdmission.ExclusiveAnswer` | bot/maintenance.py:264-284 | over every run: re-entrant exactly for the task that has acquired or drains, refused to readers and while any task is inside, otherwise the pending writer |
| `GateAdmission.AcquireAnswer` | bot/maintenance.py:306-336 | over every run: a pass starts the body iff no counted scope is open and no handoff lives |
| `GateAdmission.MintAnswer` | bot/maintenance.py:149-160 | over every run: a handoff is minted iff the task has a counted scope open or is the writer |
| `GateAdmission.LeaseAnswer` | bot/maintenance.py:33-61 | a handoff can be cancelled or entered only while it is neither; it then belongs to who entered it |
| `GateAdmission.ExitAnswer` | bot/maintenance.py:337-360 | over every run: leaving the body or giving up keeps the queue for the drain on a sound tree, and empties it and rejects everything in it on a poisoned one |
| `GateAdmission.DrainAnswer` | bot/maintenance.py:183-190 | over every run: the callback that arrived first and has not departed starts next; the drain ends iff all have departed |
| `GateAdmission.SettleAnswer` | bot/maintenance.py:191-198 | a callback that ends settles with its own result, and the drain goes on |
| `GateAdmission.LeaveAnswer` | bot/maintenance.py:239-249 | over every run: leaving closes the task's innermost scope and no other, ends its handoff, and frees the gate only after the drain |
| `GateAdmission.ActiveIff` | bot/maintenance.py:97-102 | over every run: maintenance is active exactly while the gate is poisoned or a task is inside `exclusive` |
| `GateAdmission.ReleaseGivesUpOwn` | bot/maintenance.py:361-371 | a release gives up the task's own authority and intent and leaves another task's alone |
| `GateAdmission.PoisonAnswer` | bot/maintenance.py:137-140 | the first reason sticks and poisoning changes nothing else |
| `JsonRecovery.JsonFile.RecoverFromSnapshots` | bot/persistence_recovery.py:200-274 | tries candidates newest first and installs the first usable copy, or installs nothing |
| `JsonRecovery.JsonFile.ResumeRecovery` | bot/persistence_recovery.py:303-318 | install, clear marker, read back, clear barrier, as a trace of disks |
| `JsonRecovery.JsonFile.RecoverCorrupt` | bot/persistence_recovery.py:322-350 | mark, quarantine, then recover; each failed step stops there |
| `JsonRecovery.JsonFile.LoadJsonWithRecovery` | bot/persistence_recovery.py:277-360 | outcome and every intermediate disk of a load, for any pattern of I/O failures |
| `JsonRecovery.JsonFile.GuardJsonWrite` | bot/persistence_recovery.py:363-421 | whether the write may go on, and the disk the guard leaves |
| `RecoveryProperties.CandidatesSorted` | bot/persistence_recovery.py:162-172 | candidates are the snapshots, newest first by time then name |
| `RecoveryProperties.RecoversNewestUsable` | bot/persistence_recovery.py:229-274 | a recovered value comes from a readable, valid snapshot that none is newer than, by time and then name, and is what the live file holds |
| `RecoveryProperties.RefusesIffNothingUsable` | bot/persistence_recovery.py:296-350 | a load that needs recovery is refused iff no snapshot is usable, or the mark, the quarantine or the installation fails |
| `RecoveryProperties.LoadAnswers` | bot/persistence_recovery.py:296-360 | exactly when a load gives each answer; missing only if there is no file, no marker and no write barrier |
| `RecoveryProperties.GuardAnswers` | bot/persistence_recovery.py:379-421 | exactly when a guard lets a write through or fails to read, and the barrier a refusal leaves |
| `RecoveryProperties.AnsweredLoadSettles` | bot/persistence_recovery.py:303-360 | a load that answers with a value leaves exactly that value on disk, and the markers unless clearing them failed |
| `RecoveryProperties.CrashesResumeIff` | bot/persistence_recovery.py:277-360 | after any number of loads that crash, each with its own I/O failures, a load in which only snapshot access can fail ends on the same disk with the same answer as without them, for every choice of crash points, iff none of them can quarantine a valid file it failed to read or install a copy other than the final load's choice |
| `RecoveryProperties.FailedReadReplacesValue` | bot/persistence_recovery.py:318-334 | the input that needs the condition: one failed read, a crash after the quarantine, and the next load answers with an older copy |
| `RecoveryProperties.SeesTheSameSound` | bot/persistence_recovery.py:277-360 | loads that can read the live file and see the same snapshots are all sound, whatever else fails in them |
| `RecoveryProperties.SameFaultsResumeIff` | bot/persistence_recovery.py:277-360 | with no hypothesis on the I/O, if the same operations fail every time: any number of crashed loads leaves the next one's disk and answer unchanged iff an installed copy could be read back and read again |
| `RecoveryProperties.LoadLosesNothing` | bot/persistence_recovery.py:136-159 | every state of a load keeps the file known and keeps a displaced content in quarantine |
| `RecoveryProperties.ForgottenIff` | bot/persistence_recovery.py:296-302 | of all steps only an unlink with no marker and no barrier lets a path count as missing again |
| `RecoveryProperties.NeverForgotten` | bot/persistence_recovery.py:296-302 | over any run with arbitrary failures and restarts a path that had a live file, a marker or a barrier is never reported missing, even if the file is unlinked behind a barrier or marker |
| `RecoveryProperties.QuarantineGrows` | bot/persistence_recovery.py:136-159 | over any run the quarantine only grows |
| `RecoveryProperties.DisplacedStays` | bot/persistence_recovery.py:136-159 | over any run a content displaced by a load, a restart or a guard is in quarantine ever after; only damage, an unlink, or a landed write over a valid value takes one away without a copy |
| `RecoveryProperties.WritesOnlySeenIff` | bot/persistence_recovery.py:379-421 | the promise about the next guarded write, over all its I/O, is exactly the invariant on the disk and the writer's view |
| `RecoveryProperties.LoadKeepsSeenIffNoGap` | bot/persistence_recovery.py:303-318 | a load keeps that invariant iff it does not install a copy, clear the marker and then fail to read it back |
| `RecoveryProperties.LoadKeepsPromiseIffNoGap` | bot/persistence_recovery.py:303-318 | the same on the promise itself |
| `RecoveryProperties.GuardKeepsSeenIffNoGap` | bot/persistence_recovery.py:396-421 | a guard keeps it iff it has no such read failure and, after a recovery, one of its two barrier writes lands |
| `RecoveryProperties.GuardKeepsPromiseIffNoGap` | bot/persistence_recovery.py:396-421 | the same on the promise itself |
| `RecoveryProperties.GapLetsStaleWriteThrough` | bot/persistence_recovery.py:347-348 | a concrete run through the gap: a refused write, then the next write replaces recovered data the writer never read |
| `RecoveryProperties.NoStaleOverwrite` | bot/persistence_recovery.py:363-421 | without a gap, every write the guard lets through creates the file or replaces exactly what the writer last loaded or wrote |
| `ProgramAuthority.ContinuousStore.WriteProgramRecord` | bot/continuous.py:151-184 | one atomic replace of program.json |
| `ProgramAuthority.ContinuousStore.RepairAuthoritativePlan` | bot/continuous.py:224-235 | plan.md is rewritten only if the record has a plan that differs |
| `ProgramAuthority.ContinuousStore.OverlayAuthoritativeProgram` | bot/continuous.py:187-221 | program and revision come from the sidecar; a legacy state creates it; a positive revision without it is refused |
| `ProgramAuthority.ContinuousStore.LoadState` | bot/continuous.py:308-362 | result and trace of a load |
| `ProgramAuthority.ContinuousStore.SaveState` | bot/continuous.py:365-393 | result and trace of a save: overlay first, then state.json |
| `ProgramAuthority.ContinuousStore.UpdateProgram` | bot/continuous.py:396-443 | sidecar, plan, state, in this order, with the next revision |
| `ProgramAuthority.ContinuousStore.CreateContinuousTask` | bot/continuous.py:449-531 | with a plan text the sidecar is first replaced at revision zero, then the state saved |
| `ProgramAuthority.SidecarIsLastCommit` | bot/continuous.py:187-221 | after any run of loads, stale saves, updates, re-creations, child rewrites and crashes the sidecar is the last committed record |
| `ProgramAuthority.LoadsLastCommit` | bot/continuous.py:308-362 | a load of any state that carries a program gives the last committed program and revision |
| `ProgramAuthority.RevisionMoves` | bot/continuous.py:417-443 | of the operations of this file only an update moves the revision, by exactly one, and re-creation, to zero; none removes the sidecar |
| `ProgramAuthority.UpdateAllOrNothing` | bot/continuous.py:417-443 | a crash between the three writes is seen as the old or the new program, never a mix, and the load leaves the accepted plan |
| `ProgramAuthority.LoadRepairsPlan` | bot/continuous.py:224-235 | after a load plan.md is the authoritative text |
| `ProgramAuthority.SaveAgreesWithSidecar` | bot/continuous.py:365-393 | after a save state.json and program.json agree; a save cut short leaves the old state.json |
| `ProgramAuthority.LoadFailsIffSidecarLost` | bot/continuous.py:202-209 | a load fails iff the state carries a program at a positive revision and the sidecar is gone, and then writes nothing |
| `ProgramAuthority.SaveFailsIffSidecarLost` | bot/continuous.py:202-209 | the same for a save |
| `ProgramAuthority.LaidOver` | bot/continuous.py:187-221 | what an accepted overlay gives: the state as it is without a program or as a legacy one, else program and revision of the sidecar and the rest of the state; and the sidecar and plan it leaves |
| `ProgramAuthority.SidecarAppearsIff` | bot/continuous.py:187-221 | where there is no sidecar, exactly an update, a re-creation, or a load or save of a state with a program at revision zero makes one |
| `ProgramAuthority.LostSidecarStaysLost` | bot/continuous.py:202-209 | over any run without updates, re-creations and legacy states a lost sidecar stays lost and every load fails |
| `ProgramAuthority.UpdateCompletes` | bot/continuous.py:396-443 | a completed update leaves the next revision in all three files |
| `ProgramAuthority.CreateCompletes` | bot/continuous.py:449-531 | a completed creation starts at revision zero with its plan, or, without a plan, keeps the sidecar it finds |
| `LifecycleLocks.LifecycleLockRegistry.Enter` | bot/lifecycle_macros.py:168-173 | finds or creates the entry and counts the user |
| `LifecycleLocks.LifecycleLockRegistry.Acquire` | bot/lifecycle_macros.py:175-178 | grants the entry's lock only when nobody owns it |
| `LifecycleLocks.LifecycleLockRegistry.Leave` | bot/lifecycle_macros.py:180-186 | releases if it owned, and deletes the entry with its last user |
| `LifecycleLocks.RegistryInv` | bot/lifecycle_macros.py:159-186 | the registry invariant holds in every state of every run |
| `LifecycleLocks.NamesAreSerialized` | bot/lifecycle_macros.py:159-186 | a name is registered iff it has participants, `users` counts them, they share one lock, and two owners of one name are the same operation |
| `LifecycleLocks.EntryAndExitAlwaysEnabled` | bot/lifecycle_macros.py:168-186 | a new operation can always enter and a live one, waiting or owning, can always leave |
| `LifecycleLocks.LockAnswer` | bot/lifecycle_macros.py:168-186 | over every run: an operation that tries for the lock gets it iff no operation on the same name owns it; no step touches another operation |
| `LifecycleStates.NormalizeIdempotent` | bot/continuous_state_machine.py:129-138 | normalising a normal form changes nothing |
| `LifecycleStates.TerminalForEver` | bot/continuous_state_machine.py:74-126 | along any chain of allowed transitions completed only becomes deleted, and deleted stays |
| `LifecycleStates.StatusOfIff` | bot/continuous_state_machine.py:129-138 | a text, trimmed, means a status exactly if it is its name or the alias older versions wrote |
| `LifecycleStates.TableByTarget` | bot/continuous_state_machine.py:74-126 | the whole table, told by target: who may be deleted, fail, run, pend, stop, complete, wait |
| `LifecycleStates.VerdictIff` | bot/continuous_state_machine.py:166-189 | exactly when a change is allowed, has an unknown side, or has no edge |
| `LifecycleHandlers.TaskFiles.StopHead` | bot/lifecycle_macros.py:812-843 | stop and pause up to the drain |
| `LifecycleHandlers.TaskFiles.CompleteHead` | bot/lifecycle_macros.py:897-914 | complete up to the drain |
| `LifecycleHandlers.TaskFiles.DeleteHead` | bot/lifecycle_macros.py:970-987 | delete records its intent and cancels the queue entry before it yields |
| `LifecycleHandlers.TaskFiles.ResumeHead` | bot/lifecycle_macros.py:1097-1117 | resume checks the status and does not drain |
| `LifecycleHandlers.TaskFiles.ReloadAfterDrain` | bot/lifecycle_macros.py:688-709 | after the drain a terminal status that won meanwhile stands, except against delete |
| `LifecycleHandlers.TaskFiles.FinishMacro` | bot/lifecycle_macros.py:1025-1034 | the final write of each operation |
| `LifecycleHandlers.StepKeepsInv` | bot/lifecycle_macros.py:812-1127 | every step, with no hypothesis, keeps: the final write of a drained operation meets the file it reloaded and nobody else can write it |
| `LifecycleHandlers.TerminalSafety` | bot/lifecycle_macros.py:812-1127 | over any interleaving with the child, the scheduler and re-creation, a handler overwrites completed but by deleted, or overwrites deleted, exactly when it is the final write of a resume that was overtaken; none works on another task id than it matched |
| `LifecycleHandlers.StatusChangesAreEdges` | bot/lifecycle_macros.py:1245-1272 | over any run the status change of a handler is an edge of the table except exactly for complete from pending or error and for an overtaken resume |
| `LifecycleHandlers.QuietWindowIsEmpty` | bot/lifecycle_macros.py:1121-1127 | on a quiet task nobody outside the lock can act while its owner waits |
| `LifecycleHandlers.OvertakenResumeBeganUnquiet` | bot/lifecycle_macros.py:1108-1127 | in any run an overtaken resume began while a child lived or could be dispatched |
| `LifecycleHandlers.ResumeSafeIffQuiet` | bot/lifecycle_macros.py:1108-1127 | a resume that passed its check is safe iff no child lives and none can be dispatched when it starts |
| `LifecycleHandlers.ResumeOverwritesCompleted` | bot/lifecycle_macros.py:1121-1127 | a concrete run in which resume replaces completed with pending |
| `LifecycleHandlers.CompleteFromPendingIsNoEdge` | bot/lifecycle_macros.py:909-930 | a concrete run in which complete makes a change the table does not have |
| `LifecycleHandlers.AloneOutcome` | bot/lifecycle_macros.py:812-1127 | end to end, which tasks each operation accepts and what it leaves of file, queue entry and child; a refused one changes nothing but the queue entry of an already stopped or deleted task, and one whose task vanished nothing at all |
| `LifecycleHandlers.WaitsAreRecorded` | bot/lifecycle_macros.py:970-1024 | before an operation waits the queue entry is off and a delete's intent is on disk; a sent reference clears only its mark |
| `LifecycleHandlers.EnvironmentAnswer` | bot/scheduler.py:1970-2036 | what happens around the lock: a living child writes or exits, only a queued pending or rate-limited task without a child starts to run, only a deleted or absent one is made anew |
| `LifecycleHandlers.DrainAnswer` | bot/lifecycle_macros.py:688-709 | a failed drain gives up; after one that succeeds there is no child, and the operation goes on with the state it finds unless that has ended, delete excepted |
| `Supervisor.RuntimeSupervisor.TrackProcess` | bot/runtime_supervisor.py:132-181 | registers, and says when the child is signalled at once |
| `Supervisor.RuntimeSupervisor.UntrackProcess` | bot/runtime_supervisor.py:183-209 | a live tree stays tracked unless forced |
| `Supervisor.RuntimeSupervisor.TerminateProcess` | bot/runtime_supervisor.py:367-377 | joins the termination in flight or starts one |
| `Supervisor.RuntimeSupervisor.FinishTermination` | bot/runtime_supervisor.py:423-434 | untracks a stopped tree and retires only its own termination |
| `Supervisor.RuntimeSupervisor.BeginShutdown` | bot/runtime_supervisor.py:581-582 | closes and takes the snapshot of children |
| `Supervisor.StepKeepsInv` | bot/runtime_supervisor.py:132-434 | every step keeps the supervisor's invariants |
| `Supervisor.OneTerminationPerPid` | bot/runtime_supervisor.py:366-390 | at most one termination per PID runs; callers that join share it |
| `Supervisor.OneAnswer` | bot/runtime_supervisor.py:379-390 | once a termination has returned, its result never changes: all its callers get the same one |
| `Supervisor.PositiveAnswer` | bot/runtime_supervisor.py:278-314 | a positive result was given by a task that saw the leader reaped and the group it had looked up gone |
| `Supervisor.DepartsOnlyDead` | bot/runtime_supervisor.py:183-209 | a PID leaves the table only after its leader was reaped, and its captured group gone unless this very child was registered after a termination had looked it up |
| `Supervisor.DepartsOnlyDeadIffClean` | bot/runtime_supervisor.py:399-425 | from a state whose terminations watch the child's group, a step lets some continuation drop the child alive iff it registers this child behind the back of its own termination |
| `Supervisor.LateRegistrationLosesGroup` | bot/runtime_supervisor.py:399-425 | the other case: the termination then removes the child from the table although its group is alive |
| `Supervisor.GroupLostInRun` | bot/runtime_supervisor.py:399-425 | a concrete run from the start in which that happens |
| `Supervisor.ShutdownReachesEveryChild` | bot/runtime_supervisor.py:526-533 | when the stop phase ends every child registered before or after closing was signalled or reaped |
| `Supervisor.ShutdownReachesEveryTree` | bot/runtime_supervisor.py:241-276 | and every child ever registered in time, on record or not, has had its captured group signalled, even if its leader was reaped before, or nothing of its tree is left |
| `Supervisor.TrackAnswer` | bot/runtime_supervisor.py:132-181 | a child is registered once; a new one is signalled at once, with its captured group, iff its registration failed or shutdown has begun |
| `Supervisor.UntrackAnswer` | bot/runtime_supervisor.py:183-209 | a child is taken off the record iff its leader was reaped and its captured group is gone, and no other with it |
| `Supervisor.UntrackSays` | bot/runtime_supervisor.py:183-209 | the answer says whether the child is off the record |
| `Supervisor.TerminateAnswer` | bot/runtime_supervisor.py:366-377 | a caller joins the termination that runs for the PID, or else starts one |
| `Supervisor.SignalAnswer` | bot/runtime_supervisor.py:241-276 | exactly what a termination signals when it starts and when it escalates: the captured group while anything of it lives, or the bare leader; and when it may report success |
| `Supervisor.SettleAnswer` | bot/runtime_supervisor.py:423-434 | a termination that ends gives its result, makes room for the next and takes its child off the record iff it succeeded |
| `Supervisor.ShutdownAnswer` | bot/runtime_supervisor.py:526-533 | the stop phase covers exactly the children on record when closing began, each by a termination of its own PID |
| `CollabRecords.AcceptedIffWellFormed` | bot/collaborative.py:267-310 | the serialised registry passes the validator iff every record is well formed |
| `CollabRecords.RegistryRoundTrip` | bot/collaborative.py:220-261 | from_dict after to_dict gives back every record, in order, with every field |
| `CollabRecords.DecodedIsWellFormed` | bot/collaborative.py:241-310 | whatever the validator admits decodes to distinct well-formed records |
| `CollabRecords.NormalisedOnce` | bot/collaborative.py:241-261 | a legacy registry reads the same before and after one save |
| `CollabStores.RouteIsLast` | bot/collaborative.py:408-412 | the route of a key is the last routable record with it |
| `CollabStores.AgreesAfterQuietEdit` | bot/collaborative.py:775-802 | edits of roles, mode and link need no index rebuild |
| `CollabStores.DropNext` | bot/collaborative.py:470-475 | each deletion of purge_closed removes exactly one more closed record |
| `CollabStores.CollabStore.RebuildChatMap` | bot/collaborative.py:408-412 | the index agrees with the records |
| `CollabStores.CollabStore.Load` | bot/collaborative.py:390-406 | the store's memory is the decoded result of the load |
| `CollabStores.CollabStore.WriteUnlocked` | bot/collaborative.py:414-431 | guard, validate, replace |
| `CollabStores.CollabStore.BeginMutation` | bot/collaborative.py:371-380 | lock and guard before any change |
| `CollabStores.CollabStore.CommitOrRollBack` | bot/collaborative.py:381-388 | persists the edit, or restores records and index |
| `CollabStores.CollabStore.Add` | bot/collaborative.py:437-441 | stores the record under its id; memory, index, file and reply are those of the specified call at every failure point |
| `CollabStores.CollabStore.Remove` | bot/collaborative.py:443-450 | removes the record, or answers false; memory, index, file and reply are those of the specified call at every failure point |
| `CollabStores.CollabStore.Close` | bot/collaborative.py:452-460 | closes the record, or answers false; memory, index, file and reply are those of the specified call at every failure point |
| `CollabStores.CollabStore.PurgeClosed` | bot/collaborative.py:462-479 | drops exactly the closed records, in order, and counts them; memory, index, file and reply are those of the specified call at every failure point |
| `CollabStores.CollabStore.CreatePending` | bot/collaborative.py:549-612 | refuses unsafe names, creator 0 and taken names; otherwise adds the pending record under a free id; memory, index, file and reply are those of the specified call at every failure point |
| `CollabStores.CollabStore.FinalizeSetup` | bot/collaborative.py:614-644 | only setup becomes active; memory, index, file and reply are those of the specified call at every failure point |
| `CollabStores.CollabStore.MigrateChatId` | bot/collaborative.py:646-677 | rebinds the routed record on the same platform; memory, index, file and reply are those of the specified call at every failure point |
| `CollabStores.CollabStore.UpdateChatId` | bot/collaborative.py:719-773 | binds only a pending, unlinked record of the expected platform and creator; memory, index, file and reply are those of the specified call at every failure point |
| `CollabStores.CollabStore.UpdateRoles` | bot/collaborative.py:775-782 | sets one role; memory, index, file and reply are those of the specified call at every failure point |
| `CollabStores.CollabStore.UpdateInteractionMode` | bot/collaborative.py:784-793 | sets a known mode; memory, index, file and reply are those of the specified call at every failure point |
| `CollabStores.CollabStore.UpdateInviteLink` | bot/collaborative.py:795-802 | sets the link; memory, index, file and reply are those of the specified call at every failure point |
| `CollabStores.CollabStore.GetByChatId` | bot/collaborative.py:484-494 | answers like a scan for the last routable record with that platform and chat |
| `CollabProperties.MemoryIsDecodedDisk` | bot/collaborative.py:371-431 | after every call of a run, failed ones included, and whatever damaged or removed the file in between, an uncorrupted unmarked file decodes to exactly the records in memory |
| `CollabProperties.FailedCallChangesNothing` | bot/collaborative.py:381-388 | a raising call leaves memory as it was, and the disk too if a barrier stands, there is no file, or the file is unmarked and readable |
| `CollabProperties.AnsweredEditIsDurable` | bot/collaborative.py:414-431 | an answered edit is in the file, which decodes to the new records |
| `CollabProperties.RestartGivesSameRecords` | bot/collaborative.py:390-406 | a process started on such a file has the same records |
| `CollabProperties.StatusesMoveForward` | bot/collaborative.py:452-773 | while a record stays and add is not used, its status only moves pending or setup, active, closed |
| `CollabProperties.NamesStayUnique` | bot/collaborative.py:582-585 | no call but add makes two records share a name |
| `CollabProperties.OnlyInputsAreRefused` | bot/collaborative.py:423-424 | the validator refuses an edit of well-formed records iff the caller added a malformed record or proposed one without agent name |
| `CollabProperties.NewChatRoutesIffNotShadowed` | bot/collaborative.py:665-677 | a newly bound or migrated chat routes to its record iff no later record already holds that chat |
| `CollabProperties.TakenChatIsShadowed` | bot/collaborative.py:719-773 | a concrete bind to a chat another record holds: it succeeds and the other keeps the route |
| `CollabOutcomes.MembersAreRead` | bot/collaborative.py:241-261 | each member of a payload is read into its own field |
| `CollabOutcomes.OptionalMembersAreRead` | bot/collaborative.py:241-261 | the same for the members that may be null |
| `CollabOutcomes.DefaultsAreRead` | bot/collaborative.py:241-261 | what each missing member is read as |
| `CollabOutcomes.AdmittedIff` | bot/collaborative.py:267-310 | exactly which entries the validator admits, member by member, missing ones included |
| `CollabOutcomes.DigitsDenote` | bot/collaborative.py:243-244 | a number is written as its decimal digits, without a leading zero |
| `CollabOutcomes.NumericChatIsRead` | bot/collaborative.py:243-244 | a numeric chat id is read as its decimal text |
| `CollabOutcomes.OtherChatIsRead` | bot/collaborative.py:243-244 | a text chat id is read as it is, a boolean one as Python prints it |
| `CollabOutcomes.UnknownIsRefused` | bot/collaborative.py:443-460 | requests that name a record refuse an id nobody has |
| `CollabOutcomes.StatusOutcome` | bot/collaborative.py:614-644 | close always closes; only a record in setup leaves it, with the parent and memory flag asked for |
| `CollabOutcomes.BindOutcome` | bot/collaborative.py:719-773 | a chat is bound iff the record is pending and unlinked and expects that platform and creator; exactly status, platform and chat change |
| `CollabOutcomes.SettingOutcome` | bot/collaborative.py:775-802 | one role, a known mode, a link: exactly that field changes |
| `CollabOutcomes.RouteOutcome` | bot/collaborative.py:646-677 | a lookup and a migration find exactly the last record that routes the chat |
| `CollabOutcomes.AddRemoveOutcome` | bot/collaborative.py:437-450 | add replaces in place or appends; remove keeps the others in order |
| `CollabOutcomes.OpenAre` | bot/collaborative.py:462-479 | a purge keeps exactly the records that are not closed, in order |
| `CollabOutcomes.PurgeOutcome` | bot/collaborative.py:462-479 | and answers how many it dropped, doing nothing if there are none |
| `CollabOutcomes.ProposalOutcome` | bot/collaborative.py:549-612 | when a proposal is refused, and the whole record it makes, under an id nobody has |
| `CollabOutcomes.EarlyOutcome` | bot/collaborative.py:646-664 | a migration across platforms or to no chat is refused before anything is read |
| `CollabOutcomes.CallOutcome` | bot/collaborative.py:371-431 | for every failure of lock, guards, validator and replace: the reply, the memory and the file a call leaves |
| `CollabOutcomes.EarlyAnswerChangesNothing` | bot/collaborative.py:549-585 | a request refused early changes nothing |
| `MacroTokens.StrayOpeners` | bot/continuous_macro.py:236-255 | the stray filter, loop against filter |
| `MacroTokens.MissedIff` | bot/continuous_macro.py:239-247 | the filter drops an unclosed opener outside every block iff some earlier block, with the gap up to the opener, is no longer than the opener itself |
| `MacroTokens.PaddedOpenerIsMissed` | bot/continuous_macro.py:239-247 | such an opener exists |
| `MacroTokens.PairOpeners` | bot/continuous_macro.py:266-301 | the greedy loops give each opener the first free closed block after it, else the first free stray |
| `MacroTokens.PairTokens` | bot/continuous_macro.py:259-325 | all tokens: openers, left blocks, left strays |
| `MacroTokens.EverythingInOneToken` | bot/continuous_macro.py:259-325 | every opener, closed block and unclosed block lands in exactly one token |
| `MacroTokens.TokensComeFromMatches` | bot/continuous_macro.py:274-301 | a token's spans are matched ones and its block starts at or after its opener's end |
| `MacroTokens.ClosedBlocksInOrder` | bot/continuous_macro.py:274-285 | later openers get later blocks, and only a prefix of the openers gets any |
| `MacroTokens.GreedyIsMaximal` | bot/continuous_macro.py:259-285 | no assignment of distinct blocks to openers before them matches more |
| `MacroTokens.NoPairingJoinsMore` | bot/continuous_macro.py:259-285 | the same, counted on the tokens |
| `MacroTokens.TokensCarryMatches` | bot/continuous_macro.py:266-325 | a token has an opener's attributes iff its span, a closed block's body with its span, and if unclosed exactly the text after the tag |
| `MacroDeletion.MergeSpans` | bot/continuous_macro.py:374-386 | merged spans are sorted, separated and cover the same characters |
| `MacroDeletion.DeleteSpans` | bot/continuous_macro.py:353-356 | reverse-order slicing is the filter of the characters outside every span |
| `MacroDeletion.EnclosingFence` | bot/continuous_macro.py:389-410 | the first fence whose body is the macro and whitespace |
| `MacroDeletion.ExtractContinuousMacros` | bot/continuous_macro.py:217-362 | tokens and text of the whole extraction, given the match lists |
| `MacroDeletion.DetectedCarry` | bot/continuous_macro.py:266-325 | every detected token has the name, work directory and drain timeout of the opener whose span it has, the body of its closed block, or the whole text after its unclosed tag; nothing without a span |
| `MacroDeletion.RemovedIff` | bot/continuous_macro.py:340-351 | a character goes iff a macro's opener or block covers it, or, for a macro alone in a fence, the first such fence does |
| `MacroDeletion.TokensSorted` | bot/continuous_macro.py:337-338 | tokens come out in source order and ties keep their order |
| `MacroDeletion.DetectedInOrder` | bot/continuous_macro.py:337-338 | detected macros come in the order in which they start in the text |
| `MacroDeletion.FenceIsFirst` | bot/continuous_macro.py:389-410 | a macro's fence is the first one whose body is that macro and otherwise whitespace, and it has none only if there is none |
| `MacroDeletion.NoTripleNewlines` | bot/continuous_macro.py:358-360 | the collapsed text has no three newlines in a row |
| `MacroDeletion.CollapsedStays` | bot/continuous_macro.py:358-360 | a text without three newlines in a row is left alone |
| `MacroDeletion.CollapseRun` | bot/continuous_macro.py:358-360 | collapsing works run by run: a run of more than two newlines becomes two, and nothing around it moves |
| `MacroDeletion.EverySpanRemoved` | bot/continuous_macro.py:340-356 | every opener, closed block and unclosed tail is removed |
| `MacroDeletion.UnclosedPayloadGone` | bot/continuous_macro.py:291-301 | nothing after a detected unclosed opener is kept |
| `MacroDeletion.PaddedPayloadLeaks` | bot/continuous_macro.py:239-247 | a text with a closed empty block, a padded unclosed opener and any payload: the opener and the whole payload stay |
| `Archive.ArchiveFile.AppendArchive` | bot/memory.py:122-139 | appends one divided body to what is there |
| `Archive.ReadEntry` | bot/memory_store.py:425-445 | one block: blank ones dropped, metadata split off when its pattern matches |
| `Archive.SplitArchiveEntries` | bot/memory_store.py:422-447 | the parser loop against its specification |
| `Archive.BodySurvivesIff` | bot/memory_store.py:433-445 | one appended entry reads back as written iff its reason is trimmed and has no underscore after its first character (an empty one: none in the entry) |
| `Archive.UnderscoreReasonIsCut` | bot/memory_store.py:434-442 | no reason with an underscore after its first character comes back, such as `a_b` |
| `ArchiveProperties.NoDividerIff` | bot/memory.py:134-139 | if reason and timestamp hold no divider then only the newline-wrapped entry can hide one in the block |
| `ArchiveProperties.SplitConcat` | bot/memory_store.py:422 | a text that ends a line, a divider and a rest are cut into the blocks of each |
| `ArchiveProperties.ParsedImage` | bot/memory_store.py:433-445 | every entry with a reason that the parser gives out of a divided file has a readable reason, and no part of it holds a divider |
| `ArchiveProperties.DividedYieldsLess` | bot/memory_store.py:422-445 | a block with a divider in it gives less content than was written into it, into however many entries it falls apart |
| `ArchiveProperties.ArchiveRoundTripsIff` | bot/memory_store.py:380-381 | reading the file text of any sequence of appends gives exactly the entries, reasons and timestamps, in order, iff every entry on its own has a readable reason, no divider and no carriage return |
| `ArchiveProperties.MatchesIff` | bot/memory_store.py:434-438 | the backtracking search finds a metadata line exactly where one can be laid out |
| `ArchiveProperties.DroppedIff` | bot/memory_store.py:425-445 | a block gives no entry iff it is blank or its metadata line is followed by whitespace only |
| `ArchiveProperties.BareBlockKept` | bot/memory_store.py:425-445 | a block without a metadata line is an entry of its own, whole, without reason and timestamp |
| `ArchiveProperties.HandWrittenTextKept` | bot/memory_store.py:422-447 | a text without divider that does not begin like a metadata line comes back as that one entry |
| `ArchiveProperties.DividedEntryFallsApart` | bot/memory_store.py:422-447 | an entry with a divider line comes back as two: the first with reason and timestamp, the second without |
| `SplitMessage.CutOff` | bot/ai_invoke.py:1529-1535 | one round of the loop |
| `SplitMessage.Split` | bot/ai_invoke.py:1521-1536 | the whole loop; terminates for every max_len of at least 1 |
| `SplitMessage.CutPrefersLines` | bot/ai_invoke.py:1529-1533 | the cut is the last newline of the window's second half, else the last space there, else the window's end |
| `SplitMessage.TextIsWoven` | bot/ai_invoke.py:1534-1535 | the text is its chunks in order with gaps of whitespace only |
| `SplitMessage.ChunksFit` | bot/ai_invoke.py:1526-1534 | no chunk is longer than max_len, and none of an overlong text is empty for max_len of at least 2 |
| `SplitMessage.ChunkCount` | bot/ai_invoke.py:1529-1535 | (chunks - 1) times half a window is at most the length of the text |
| `SplitMessage.ChunksFollowCuts` | bot/ai_invoke.py:1521-1536 | a text that fits is one chunk; otherwise the first chunk ends at the preferred cut and the rest, left-stripped, is cut in the same way |
| `SplitMessage.LaterChunksStartClean` | bot/ai_invoke.py:1534-1535 | no chunk but the first begins with whitespace, and none of those is empty |

## Left out

- PID reuse: in `Supervisor` a PID stands for one child for the whole run; Windows process control, `spawn` and
  the background-task half of the supervisor, and the synchronous shutdown path are not modelled.
- ResumeSafeIffQuiet: a child or dispatch is quantified over, but the scheduler itself is only its effect on the
  state file and the queue entry; a handler's region between two awaits is atomic against child writes.
- TerminalSafety: promises nothing for the final write of an overtaken resume, because it is false there.
- DepartsOnlyDead: the group half assumes that this child is not registered after a termination looked it up,
  because it is false otherwise.
- ShutdownReachesEveryTree: assumes the same; a group signal that the system refuses, which the original falls
  back from to the bare leader, is not modelled.
- CrashesResumeIff: in the final load only the snapshots may fail; what one failing load after another leaves is
  `SameFaultsResumeIff`, when the same operations fail, and otherwise `LoadLosesNothing` and `DisplacedStays`.
- ArchiveRoundTripsIff: is about entries that are not blank, with timestamps as `strftime` writes them; that the
  caller then stores an empty reason as `migrated` is not modelled.
- NoStaleOverwrite: assumes that no call of the run hits the gap described above, because it is false otherwise.
- MemoryIsDecodedDisk: assumes the same of the guards a call reaches.
- RevisionMoves: `bot/topics.py:752-771` puts the previous `program.json` back, or removes it, when a creation
  fails; that rollback moves the revision back and is not modelled.
- ContinuousStore: corruption of `program.json` and `state.json` is left to the recovery model; a malformed state
  that raises after the sidecar was committed is the same as a crash at that point.
- NeverForgotten: excepts an unlink with no marker and no barrier, after which the path is rightly missing; a
  rollback that writes back previous bytes instead of unlinking is not modelled.
- JsonFile: decoding and the validator are the classification of file contents; snapshots keep their time, the
  rank of their name and what they hold under the target's name; fsync and temporary files are part of a step.
- CollabStore: records are values, so a caller that changes a returned object in place is not modelled; the
  fcntl lock is a granted or refused request; a random id suffix is a parameter, assumed unused where it matters.
- ValidRegistry: a role value that is a JSON list makes the original raise `TypeError` instead of rejecting.
- AppendArchive: the choice of the quarterly archive file is not modelled; one file is.
- MaintenanceGate: the fairness of `asyncio.Condition`, cancellation while it is re-acquired, deadlines as clock
  values and `cancel_active_writer` are not modelled; giving up is possible at any pass.
- ExtractContinuousMacros: regular-expression matching is an input; JSON parsing of payloads, path checks and the
  side effects of `apply_continuous_macros` are not modelled.
- Status helpers, rate-limit recovery, list and plan rendering, topic markers and notices: branch-by-branch
  effects with only easy claims.
- `bot/events.py`, `bot/agents.py`, `bot/scheduled_delivery.py`, platform adapters, voice, media, i18n, CLI
  argument building, configuration, authorization and migrations: not part of this model.
