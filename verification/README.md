# Dev Loop: verified core protocols

Dev Loop installs itself crash-safely, schedules interdependent issues, runs workflow workers as
supervised processes and masks secrets in what it persists. This project models those parts in Dafny
and proves what they promise:

- **The installer** (`install/bootstrap/transaction.py`, `verify.py`). Three write-ahead protocols over
  a small set of durable files. `Durable.Disk` has a number of durable steps left; the step after the
  last one is the crash. What a method promises when it crashes it therefore promises of every state
  between two of its steps. `BootstrapPublication` publishes the command files, `InstallJournal` drives
  a release from candidate to current, and `UninstallActions`, `UninstallJournal`, `UninstallRun` and
  `UninstallPlan` take an installation apart again. The commands are specified on arbitrary files: what
  they refuse, and, for the states that they and crashes lead to, what they end in. `InstallOutcomes` and
  `UninstallTampering` say in terms of the files alone what is checked, accepted and left behind. Hashes
  are content identity, paths are names, and nothing changes the files in the middle of a command.
- **The dependency scheduler** (`src/devloop/issue_scheduler.py`, `cli.py`, `state.py`): `IssueGraph`,
  `IssueScheduler`, `LoopState`, `DependencySchedule` and `ScheduleOutcomes`, which says without the
  driver's own functions what a run records, spends, chooses and reports. An execution of an issue is an arbitrary
  function of the executions so far; it may change the persisted status of its own issue only. As in the
  code, an issue whose persisted status counts as attempted is not given a normal attempt first; the
  budgets and the termination argument count the attempts that were charged.
- **The worker protocol** (`src/devloop/portable_protocol.py`, `portable_sessions.py`): `StreamDecoder`
  is the bounded JSON Lines decoder, `SessionMachine`, `SessionSafety`, `SessionOutcomes` and
  `SessionSupervisor` are the session lifecycle: its steps, what every interleaving of them keeps, what
  each of them leads to case by case, and the object with its lock. JSON and the payload tables are parameters of the decoder. Each method of the
  supervisor is one critical section; reader threads, the scheduler thread and users interleave between
  them. What the operating system answers (a tree is stopped, a write arrived, capacity is granted) is
  a parameter of the step.
- **Three smaller machines**: the masking of secrets in guidance (`redaction.py`; `GuidanceText` says by
  positions in the text what an assignment, a quoted value, a block and a secret's name are,
  `GuidanceScanner`, `GuidanceNames` and `GuidanceMasking` prove that the scan goes by that),
  `OperatorHandoff` (`operator_handoff.py`) and `RuntimeBridge` (`portable_runtime.py`).

Six results say where the code does not do what one would expect of it. They are stated exactly:

- A command that launches a session overlaps with an earlier one when a launch of that session is still
  queued, or when a stop of its last worker is still being waited for. In the first case the queue entry
  stays and the scheduler launches a second worker into the same slot; in the second the end of the wait
  takes the new worker's slot and lease for those of the worker it stopped. Either way the lease is
  released while a worker runs. `SessionSafety.LaunchIsSafeIff`: every continuation is safe if and only
  if the launch does not overlap. `OverlapOverQueueIsReachable` and `OverlapWithStopIsReachable` give the
  runs that lead there.
- An uninstall leaves an edited command file in place together with the backup it had displaced. The
  next installation takes the edited file for the original, writes its pending record and is refused from
  then on. `BootstrapPublication.PublishThroughCrashes` and `InitializeBootstrap`: a publication is
  obstructed in this way if and only if a backup of a displaced file holds something else.
  `UninstallPlan.ReinstallationIsObstructedIff` says which uninstalls lead there.
- An uninstall does not remove everything the installer owns. `UninstallPlan.OwnedSurvivors` lists what
  survives (ownership files of candidates, receipts without a release, backups of edited or removed
  command files), and `NothingOwnedIsLeftIff` says that nothing is left exactly when none of them is there.
- A crash exactly between the two unlinks that end an installation leaves the candidate's ownership
  file; recovery then finds no journal and has nothing to do. `InstallJournal.FinishTransaction` says
  which of the three states results from which crash; everything else is as the uninterrupted run
  leaves it.
- A crash inside the copy of a single shipped file leaves an uninstall that is refused when it is resumed,
  unless the copy happens to equal its source: `UninstallRun.TornCopyIsAcceptedIff`.
- A worker that reports PASS together with a strengthened gate makes the loop request the failed gate
  again on the very sources it failed on. `OperatorHandoff.RequestIsFor` states that no other result makes
  such a request. The request is bound to its sources, so that reverting the checkout before the next
  round may bring a gate back to sources it failed on as well; that is not counted here.

`dafny verify dfyconfig.toml` verifies the project.

## Model

| member | source | states |
|---|---|---|
| BootstrapPublication.LegacyIsNeverLost | install/bootstrap/transaction.py:811-923 | at every step of a publication each displaced file is at its target or at its backup, unchanged |
| BootstrapPublication.ValidatePendingPublication | install/bootstrap/transaction.py:716-754 | the two loops accept exactly the states in which every target and every backup passes its check |
| BootstrapPublication.AcceptedIffInTransit | install/bootstrap/transaction.py:716-754 | the states accepted are exactly those in the invariant of a publication over this baseline: each target original or desired, each backup made or its original still in place |
| BootstrapPublication.TargetStep | install/bootstrap/transaction.py:885-919 | replacing a target keeps the publication sound, given that every displaced file already has its backup |
| BootstrapPublication.BackupStep | install/bootstrap/transaction.py:757-808 | linking a backup keeps the publication sound |
| BootstrapPublication.LayoutStep | install/bootstrap/transaction.py:920-923 | with everything published, writing the layout commits exactly the desired assets and the displaced files |
| BootstrapPublication.PublishLegacyBackup | install/bootstrap/transaction.py:757-808 | a backup is made or found, whatever an earlier crash left of it, in at most five durable steps and never refused |
| BootstrapPublication.FillAndLinkBackup | install/bootstrap/transaction.py:785-808 | a crash during the copy leaves anything in the staging file and nothing in the backup; the end leaves the backup and no staging file |
| BootstrapPublication.PublishLegacyBackups | install/bootstrap/transaction.py:867-884 | every displaced file is backed up and checkpointed |
| BootstrapPublication.PublishAssets | install/bootstrap/transaction.py:885-919 | every asset is published and checkpointed, and none before all backups are ready |
| BootstrapPublication.ReconcileCommittedPendingLayout | install/bootstrap/transaction.py:682-708 | on any well-formed records: refused exactly when the pending record does not fit the files around it or is not the complete record of the committed layout with its files unmodified, changing nothing; otherwise a leftover of a committed publication is removed and one that is under way is left as it is |
| BootstrapPublication.InitializeBootstrap | install/bootstrap/transaction.py:811-923 | on any well-formed records: the refusals are exactly those listed case by case (another candidate, modified command files, a missing backup, a pending journal of the first version, a record that does not fit), changing nothing, and a backup that holds something else, leaving the pending record; otherwise the publication over what the files say is the baseline stays on its course wherever it stops, and success leaves every asset published and every backup intact |
| BootstrapPublication.PublishThroughCrashes | install/bootstrap/transaction.py:377-439 | any number of runs cut short anywhere and one that is not end with everything published and every backup intact, or, exactly if a backup of a displaced file holds something else, stuck with nothing but the pending record written |
| BootstrapPublication.WhatARunMeets | install/bootstrap/transaction.py:716-923 | of all states a publication passes through a run refuses none, but for the obstacle that was there from the start |
| BootstrapPublication.AcceptedIffFits | install/bootstrap/transaction.py:716-754 | a pending record is accepted exactly when the files are in transit from the baseline that they themselves name |
| BootstrapPublication.ObstructedIsRefused | install/bootstrap/transaction.py:716-754 | a recorded publication is stuck exactly when a backup of a displaced file holds something else, and is then never accepted again |
| InstallJournal.Prepare | install/bootstrap/transaction.py:1013-1107 | on any files: refused exactly when the candidate cannot be prepared, one of the current and previous releases is not intact, the layout is missing or the publication before it is refused, changing nothing; once the journal is durable the state completes to what an uninterrupted run ends in, wherever it crashed; the pointer is untouched |
| InstallJournal.PrepareRetained | install/bootstrap/transaction.py:1032-1056 | the same when the release is already there: the candidate is discarded before the journal |
| InstallJournal.PrepareCandidate | install/bootstrap/transaction.py:1057-1107 | the same for a new release, through all phases |
| InstallJournal.EarlyStepKeepsSound | install/bootstrap/transaction.py:1046-1071 | what changes before the first journal write is not referenced by the pointer |
| InstallJournal.RenameStep | install/bootstrap/transaction.py:1105-1107 | moving the candidate into place changes neither what the transaction completes to nor the pointer's releases |
| InstallJournal.PointerStep | install/bootstrap/transaction.py:1248-1254 | with the release in place and supported, swapping the pointer keeps both entries verified, and so does removing the first-version file after it |
| InstallJournal.Recover | install/bootstrap/transaction.py:1120-1193 | on any files: refused exactly when the case table of the phases says so; asks for adoption exactly in the phases up to `release_ready`, for the switch exactly when adopted, always over an intact release, and finishes exactly what has switched; never touches the pointer; the states of a transaction stay on its course and are refused only for a release this bootstrap does not support |
| InstallJournal.RecoveryOnCourse | install/bootstrap/transaction.py:1120-1193 | the files an interrupted transaction leaves are recovered exactly when its release is supported |
| InstallJournal.RecoverToReleaseReady | install/bootstrap/transaction.py:1136-1183 | the phases before `release_ready` are caught up on from wherever the crash left them, on any files exactly when candidate, release, receipt and manifest agree with the journal; later phases are left alone |
| InstallJournal.MoveIntoPlace | install/bootstrap/transaction.py:1172-1179 | the candidate is renamed, or discarded when the release exists already; a crash leaves one of them whole |
| InstallJournal.FinishTransaction | install/bootstrap/transaction.py:1196-1202 | which of three states results: untouched, one orphaned ownership file, or finished |
| InstallJournal.InPlaceIffValid | install/bootstrap/transaction.py:1110-1117 | the checks of a journaled release hold exactly when it is in place and supported |
| InstallJournal.Commit | install/bootstrap/transaction.py:1223-1264 | on any files: refused exactly when the journal is missing, not owned or another one, its release is not intact or the pointer is neither what it was nor already swapped; the pointer moves to an intact release or not at all; a transaction on its course commits exactly when its release is in place and supported, and a crash stays on it, also between the swap and `switched` |
| InstallJournal.SwitchOnCourse | install/bootstrap/transaction.py:1248-1264 | from the swap to the last unlink every state in between is on the course of the transaction |
| InstallJournal.CommittableKeepsPointers | install/bootstrap/transaction.py:1205-1220 | the pointer baseline always accepts the states of the transaction, whose entries are unmoved or name the journal's release with the former current one as previous |
| InstallJournal.SwapPointer | install/bootstrap/transaction.py:1248-1256 | the pointer is the old one or the new one, never anything else |
| InstallJournal.Rollback | install/bootstrap/transaction.py:1267-1284 | on any files: refused exactly without a previous release, with a pending update, or when one of the two releases is not intact; swaps the two entries in one step |
| InstallJournal.RollbackUndoes | install/bootstrap/transaction.py:1267-1284 | rolling back twice, and rolling back an update, restore the release that was current |
| InstallJournal.RunCommands | install/bootstrap/verify.py:262-350 | over all commands in any order with any crashes: the pointer is absent or both entries name existing releases with equal manifests; only a commit makes a release current, the journal's, with the former current one as previous; only a rollback swaps the two; a journal past its first phase has its ownership file |
| InstallJournal.Resume | install/bootstrap/transaction.py:1120-1264 | one recover-and-commit finishes the transaction, or crashes on its course, or is refused because the release is unsupported |
| InstallJournal.InstallThroughCrashes | install/bootstrap/transaction.py:1013-1264 | with any crashes, as soon as the journal is durable, which it is after nine steps at the latest, the files end as the uninterrupted run leaves them, but for one ownership file |
| InstallOutcomes.VerifiedMeans | install/bootstrap/verify.py:262-350 | the pointers are verified exactly when each release they name is there with that very content, as its manifest says, supported, and with the `.git` directory of its receipt; which entry is the previous one in both formats |
| InstallOutcomes.PreparableMeans | install/bootstrap/transaction.py:1013-1071 | what may be prepared, field by field, for a retained and for a new release |
| InstallOutcomes.InstalledMeans | install/bootstrap/transaction.py:1013-1264 | the files after an installation, entry by entry: the release current, the former current one previous, nothing left of the transaction, everything else as it was |
| InstallOutcomes.CompletedMeans | install/bootstrap/transaction.py:1120-1264 | the same for what every journaled state completes to |
| InstallOutcomes.RolledBackMeans | install/bootstrap/transaction.py:1267-1284 | a rollback swaps the two entries and changes nothing else |
| InstallOutcomes.CanRollBackMeans | install/bootstrap/transaction.py:1267-1275 | a rollback needs exactly a previous entry and no pending update |
| InstallOutcomes.BaselineMeans | install/bootstrap/transaction.py:1205-1220 | the pointer baseline accepts exactly the pointer as it was when the transaction was prepared, or already swapped |
| InstallOutcomes.JournalReleaseMeans | install/bootstrap/transaction.py:1110-1117 | the check of a journaled release accepts exactly the intact, supported release of its content |
| UninstallActions.UntilItsTurn | install/bootstrap/transaction.py:1380-1456 | in a well-ordered list everything an action depends on is as at the start until its turn |
| UninstallActions.StaysStaged | install/bootstrap/transaction.py:1969-1973 | once staged, a capability's copy stays what its release shipped, also after the release is removed |
| UninstallActions.TouchesOnce | install/bootstrap/transaction.py:1380-1456 | no two actions of a well-ordered list write the same file |
| UninstallActions.DecidedBy | install/bootstrap/transaction.py:1945-1991 | the one action that touches a file decides what becomes of it |
| UninstallActions.RedoingCompletes | install/bootstrap/transaction.py:1945-1991 | doing an interrupted action again ends where doing it once would have |
| UninstallActions.PartialTransitive | install/bootstrap/transaction.py:1945-1991 | interrupting the repetition is again only an interruption |
| UninstallJournal.CheckOrder | install/bootstrap/transaction.py:1809-1825 | the scan accepts exactly the logs of the shape: done, then at most one begun, then pending |
| UninstallJournal.ReadUninstallJournal | install/bootstrap/transaction.py:1786-1843 | accepts exactly the journals in order whose remaining actions all find acceptable contents; UninstallTampering.AcceptedIffResumable says which these are |
| UninstallJournal.EveryInterruptionIsAccepted | install/bootstrap/transaction.py:1632-1666 | every state an interrupted uninstall can leave is accepted when it is resumed |
| UninstallJournal.PendingIsAccepted | install/bootstrap/transaction.py:1632-1666 | a pending action finds everything as recorded |
| UninstallJournal.BegunIsAccepted | install/bootstrap/transaction.py:1632-1666 | an action interrupted anywhere, also between the unlink and the replace of a restore, is accepted |
| UninstallJournal.CleanupIsAccepted | install/bootstrap/transaction.py:1664-1666 | a cleanup that is due finds its capability fully staged |
| UninstallTampering.AcceptedIffResumable | install/bootstrap/transaction.py:1562-1567 | a journal over any files is accepted exactly when the log is in order, the layout is as recorded, and every action that is due finds its files as they were at the start, where one that has begun may miss some |
| UninstallTampering.TamperingIsAcceptedIff | install/bootstrap/transaction.py:1632-1666 | whatever is put in the place of a file that a pending action waits for, resuming is accepted exactly if it is what was there at the start; for a removal that has begun, exactly if it is that or nothing |
| UninstallTampering.ContentMeans | install/bootstrap/transaction.py:1632-1666 | the content check of an action holds exactly when its files are as they were at the start |
| UninstallTampering.AssetEvidenceMeans | install/bootstrap/transaction.py:1640-1646 | whatever the evidence says of a command file, its removal is accepted exactly if that is what the layout says, and the file is that, or gone once the removal has begun |
| UninstallTampering.RestoreEvidenceMeans | install/bootstrap/transaction.py:1647-1658 | the same of a restoration and its two files, as far as it can have come |
| UninstallTampering.ProofIff | install/bootstrap/transaction.py:1846-1910 | a release may be deleted exactly when its receipt vouches for the `.git` files that are left, all of them unless its removal has begun with the proof on disk |
| UninstallTampering.StagingAcceptedIff | install/bootstrap/transaction.py:1994-2019 | staging is cleared exactly when every staged copy is what its release shipped and nothing else is there |
| UninstallRun.RemoveTouched | install/bootstrap/transaction.py:1945-1960 | removal file by file: each crash leaves a partial action, the end leaves none of the files |
| UninstallRun.RestoreDisplaced | install/bootstrap/transaction.py:1961-1968 | unlink, then replace: the displaced file is back, and every crash in between can be resumed |
| UninstallRun.StageFiles | install/bootstrap/transaction.py:1969-1973 | the shipped files are copied, and nothing else changes |
| UninstallRun.TornCopyIsAcceptedIff | install/bootstrap/transaction.py:1649-1663 | whatever a crash inside the copy of one file leaves in its place, the resumed uninstall is accepted if and only if that equals the source |
| UninstallRun.CleanUpFiles | install/bootstrap/transaction.py:1974-1989 | installed copies go exactly when they are unmodified; a failing file system puts the rest off |
| UninstallRun.GitRemovalProof | install/bootstrap/transaction.py:1846-1910 | a proof exists only if it is what the receipt vouches for |
| UninstallRun.BegunGit | install/bootstrap/transaction.py:1846-1910 | while a release is being removed its proof is durable and covers every survivor |
| UninstallRun.ProofStep | install/bootstrap/transaction.py:2077-2084 | before its removal begins a release still yields the proof of its original `.git` directory |
| UninstallRun.RunAction | install/bootstrap/transaction.py:2074-2103 | one logged action on any files: refused with nothing touched exactly when its content is not as recorded or a release does not prove its `.git` directory; success does the action and logs it, anything else leaves a run resumable at the same place |
| UninstallRun.Uninstall | install/bootstrap/transaction.py:2026-2119 | on any files: a journal that does not fit them is refused with nothing touched, and nothing is cleared before every action is done and every staged copy checked; from any interruption the run is never refused, ends in the uninterrupted result or where it can be resumed, and needs no more than a computed number of steps |
| UninstallRun.StartUninstall | install/bootstrap/transaction.py:1700-1721 | until the journal is durable no file of the installation has changed |
| UninstallRun.UninstallThroughInterruptions | install/bootstrap/transaction.py:2026-2119 | any number of interruptions anywhere and one undisturbed run give the tree of the crash-free run |
| UninstallPlan.PlanIsWellOrdered | install/bootstrap/transaction.py:1380-1456 | the planned list is well ordered and holds exactly the planned actions |
| UninstallPlan.EachFileOnce | install/bootstrap/transaction.py:1334-1353 | no owned file is handled twice; no target is both removed and restored |
| UninstallPlan.PlannedInOrder | install/bootstrap/transaction.py:1380-1456 | capabilities are copied before anything is removed, releases go before their evidence and that before the pointers, the other command files and the layout, and what resuming needs goes last |
| UninstallPlan.PlanUninstall | install/bootstrap/transaction.py:1287-1366 | succeeds exactly when the pointers and the releases pass their verification, nothing unmanaged is among them and the installation is intact where it must be; plans the unmodified assets |
| UninstallPlan.UninstallableMeans | install/bootstrap/transaction.py:1287-1366 | what the preflight demands, file by file: the pointer, evidence for exactly the listed releases with receipts that vouch for exactly their `.git` files, every backup unchanged, and unmodified recovery files |
| UninstallPlan.PlanIsSound | install/bootstrap/transaction.py:1669-1721 | what the preflight checks is what the journaled run needs |
| UninstallPlan.AssetsAfterUninstall | install/bootstrap/transaction.py:1334-1353 | unmodified assets give their displaced file back or are gone; modified ones and their backups are untouched |
| UninstallPlan.RestAfterUninstall | install/bootstrap/transaction.py:1380-1456 | files that are not owned, candidates' ownership files and receipts without a release stay as they are, the other owned files go |
| UninstallPlan.OwnedSurvivors | install/bootstrap/transaction.py:1334-1353 | exactly which owned files survive an uninstall |
| UninstallPlan.NothingOwnedIsLeftIff | install/bootstrap/transaction.py:1334-1353 | nothing owned is left if and only if none of those is there at the start |
| UninstallPlan.ReinstallationIsObstructedIff | install/bootstrap/transaction.py:1334-1346 | installing again is obstructed if and only if a command file was edited over a backup with other contents |
| UninstallPlan.UninstallUndoesPublication | install/bootstrap/transaction.py:811-923 | after a fresh publication, any user edits and an uninstall, every unedited command file is what it was before |
| UninstallPlan.UninstallInstallation | install/bootstrap/transaction.py:2026-2119 | the whole command: an obstacle changes nothing; otherwise, through all interruptions, the planned result |
| IssueGraph.ValidateDependencies | src/devloop/issue_scheduler.py:54-75 | succeeds exactly on issue packs without duplicate, self or unknown dependencies, and names a genuine offence |
| IssueGraph.AcyclicityCheck.Visit | src/devloop/issue_scheduler.py:81-100 | terminates; keeps the finished nodes in an order with dependencies first; a failure is a genuine closed path |
| IssueGraph.AcyclicityCheck.ValidateAcyclic | src/devloop/issue_scheduler.py:77-103 | succeeds exactly on acyclic issue packs and leaves a complete dependencies-first order |
| IssueGraph.OrderExcludesCycles | src/devloop/issue_scheduler.py:77-103 | a complete dependencies-first order certifies that there is no cycle |
| IssueGraph.ValidateSelection | src/devloop/issue_scheduler.py:105-116 | succeeds exactly on closed selections |
| IssueScheduler.Project | src/devloop/issue_scheduler.py:150-221 | ready, waiting, next normal attempt, next blocker, exhausted blockers and phase are what they are declared to be, both ways |
| IssueScheduler.Partition | src/devloop/issue_scheduler.py:165-176 | every unfinished selected issue is ready or waiting on exactly its incomplete dependencies |
| IssueScheduler.IncompleteMeans | src/devloop/issue_scheduler.py:168-172 | what a waiting issue waits for is listed in the order of its dependencies, each as often as it is there |
| IssueScheduler.SelectBlocker | src/devloop/issue_scheduler.py:185-198 | an eligible ready issue with the fewest passes, the first of the index among equals |
| IssueScheduler.WaitingHasReadyRoot | src/devloop/issue_scheduler.py:165-176 | in an acyclic closed selection every waiting issue transitively needs a ready one |
| IssueScheduler.ChosenIsUnique | src/devloop/issue_scheduler.py:177-198 | the inputs of a projection determine the next attempt |
| LoopState.LoopStateWriter.RecordDependencyProjection | src/devloop/state.py:883-932 | only unstarted issues change status, to ready or waiting |
| LoopState.LoopStateWriter.ReserveSchedulingAttempt | src/devloop/state.py:934-973 | granted exactly for a well-formed attempt while no other is active; again without effect; an attempt its issue is entitled to is granted and keeps the counters equal to what was charged |
| LoopState.LoopStateWriter.CompleteSchedulingAttempt | src/devloop/state.py:1072-1106 | succeeds exactly for the active attempt's issue; charges exactly this attempt, once, and keeps the accounts |
| LoopState.LoopStateWriter.ReleaseSchedulingAttempt | src/devloop/state.py:1108-1133 | succeeds exactly for the active attempt's issue; charges nothing and keeps the accounts |
| LoopState.ConsumingKeepsAccounts | src/devloop/state.py:1072-1106 | charging an entitled attempt keeps the counters equal to what the history has charged |
| LoopState.ReleasingKeepsAccounts | src/devloop/state.py:1108-1133 | releasing keeps them too |
| LoopState.ReservingKeepsAccounts | src/devloop/state.py:934-973 | so does reserving an attempt its issue is entitled to |
| LoopState.NeverOvercharged | src/devloop/state.py:1072-1106 | no issue is ever charged more than one normal attempt and the budgeted passes |
| DependencySchedule.TotalShift | src/devloop/cli.py:189-335 | the measure of what is left to spend moves only with the executed issue |
| DependencySchedule.ChosenAttemptDrops | src/devloop/cli.py:270-310 | ending a freshly chosen attempt strictly lowers the measure, also when it is only released |
| DependencySchedule.ResumedAttemptDrops | src/devloop/cli.py:266-270 | so does ending a resumed one |
| DependencySchedule.IterationKeepsRun | src/devloop/cli.py:299-335 | one iteration, whatever its execution does: the run goes on with less left to spend, or ends interrupted; the accounts are kept |
| DependencySchedule.ExecuteDependencySchedule | src/devloop/cli.py:150-335 | terminates; the attempts are those the projections of the actual state call for, a reservation first; none is made twice; the state left is the one the executions lead to; done exactly with everything selected complete, a cut exactly of what is unfinished, paused exactly by an interrupted execution, which stays reserved; refused exactly over a foreign reservation; the accounts are kept; what such a run means is ScheduleOutcomes.RunsMeanThis |
| DependencySchedule.ScheduleAcrossInterruptions | src/devloop/cli.py:150-335 | each run starts where an interrupted one ended and the result is that of the last; the budgets hold across any number of them |
| DependencySchedule.DoneIsEarned | src/devloop/cli.py:166-187 | the completed issues of a session are exactly those complete at its start and those its executions completed, by the persisted status or else by the role |
| ScheduleOutcomes.RunsMeanThis | src/devloop/cli.py:150-335 | every run, told by its calls, their effects and the state it leaves: each attempt is due, each returned one is in the history with the outcome that the persisted status or else the role decides and charged unless cancelled or waiting for input, the counters are what was charged, and the result is done, a cut, paused or refused as the statuses say |
| ScheduleOutcomes.StatusesAfter | src/devloop/cli.py:300-335 | the status of every issue during a run is the last one its executions wrote, or the one at the start |
| ScheduleOutcomes.HistoryAfter | src/devloop/cli.py:310-335 | the history during a run lists the attempts made, each with its outcome and whether it was charged |
| ScheduleOutcomes.DoneMeans | src/devloop/cli.py:166-187 | an issue is complete exactly if it was at the start or an execution of it returned COMPLETED, or no deciding status and PASS |
| ScheduleOutcomes.CountersMean | src/devloop/cli.py:310-335 | an issue has spent its normal attempt, and a blocker its passes, exactly as its charged executions say |
| ScheduleOutcomes.ChosenIsDue | src/devloop/cli.py:270-299 | the attempt chosen is the first untried startable issue, or else the startable one with the fewest passes, first among equals |
| ScheduleOutcomes.CutMeans | src/devloop/cli.py:290-299 | the blockers and waiting issues reported are exactly what is unfinished, startable or not |
| DependencySchedule.RunIsDetermined | src/devloop/cli.py:189-335 | two runs from the same state with the same executions make the same attempts, end in the same state and report the same |
| DependencySchedule.InterruptedIsResumed | src/devloop/cli.py:226-270 | what an interruption leaves reserved is what the next run executes first, unless it turned out complete |
| DependencySchedule.StoppingCut | src/devloop/cli.py:290-299 | when nothing can be chosen the reported blockers are exactly the ready unfinished issues, not none, spent where resolution is allowed, and every waiting issue needs one of them |
| DependencySchedule.CutSpendsExactBudget | src/devloop/cli.py:290-299 | a retryable blocker reported by a run has used exactly the configured budget |
| DependencySchedule.OneTurnIsFair | src/devloop/issue_scheduler.py:185-198 | a pass never widens the gap between two competing blockers beyond one |
| DependencySchedule.PassesMoveByOneTurn | src/devloop/cli.py:271-335 | between two attempts of a run only the executed issue's pass count moves, and only to its round |
| DependencySchedule.FairOverARun | src/devloop/cli.py:271-290 | once within one pass of each other, two blockers of a run stay so as long as both compete, to its end |
| DependencySchedule.BlockersWaitForFreshWork | src/devloop/issue_scheduler.py:177-198 | in every run, no blocker is retried while a ready issue still has its normal attempt |
| StreamDecoder.PortableProtocolStreamDecoder.Feed | src/devloop/portable_protocol.py:243-271 | rejects exactly when some line completed is too long or is no admissible frame at its number, or the rest is oversized; otherwise the frames delivered are those of the lines, the i-th with the expected number plus i, the version, session and kind of this peer and a valid payload, and the rest, at most the limit plus one byte, is kept |
| StreamDecoder.PortableProtocolStreamDecoder.FeedAll | src/devloop/portable_sessions.py:2186-2231 | feeding chunks amounts to feeding their concatenation; the same rejections and the same admissible frames, numbered on from the expected one |
| StreamDecoder.WhatDecodingMeans | src/devloop/portable_protocol.py:243-297 | decoding, by positions in the stream: what is rejected, what is delivered from which line, and that it is admissible at its number |
| StreamDecoder.DecodedSplit | src/devloop/portable_protocol.py:243-271 | cutting a stream anywhere changes neither success nor the frames, numbers and residue delivered |
| StreamDecoder.EarlyRejectionIsExact | src/devloop/portable_protocol.py:307-311 | an unterminated buffer is refused if and only if no continuation can make its line fit |
| StreamDecoder.RejectionIsFinal | src/devloop/portable_protocol.py:246-250 | once refused, no continuation would have been accepted |
| StreamDecoder.LinesAppend | src/devloop/portable_protocol.py:252-268 | splitting at newlines is compositional |
| StreamDecoder.WriterRefusesIff | src/devloop/portable_protocol.py:113-129 | the writer refuses a frame of its peer exactly when the decoder would reject its line |
| StreamDecoder.WriteThenDecode | src/devloop/portable_protocol.py:113-129 | decoding what the writer wrote gives the frames written, ending between two frames |
| StreamDecoder.Transfer | src/devloop/portable_sessions.py:2186-2231 | however the pipe cuts the bytes, the frames sent are the frames received |
| StreamDecoder.TruncationDeliversAPrefix | src/devloop/portable_protocol.py:273-276 | a stream cut short delivers a prefix of what was sent |
| SessionSafety.StepKeeps | src/devloop/portable_sessions.py:1099-1554 | every critical section of every thread keeps the invariant of workers, commands and history, and, unless a launch overlaps, of slots and leases |
| SessionSafety.LaunchKeeps | src/devloop/portable_sessions.py:1155-1293 | a launch into a free slot keeps it, also when the process or its setup fails |
| SessionSafety.PauseKeeps | src/devloop/portable_sessions.py:1320-1387 | so does a pause, with or without a worker |
| SessionSafety.TerminateKeeps | src/devloop/portable_sessions.py:1405-1554 | so does a stop, up to the point where it waits outside the lock |
| SessionSafety.EndTerminationKeeps | src/devloop/portable_sessions.py:1469-1554 | and after it, whatever the other threads did meanwhile |
| SessionSafety.CheckpointKeeps | src/devloop/portable_sessions.py:2749-2758 | a checkpoint counts only as the answer to the pause that is pending |
| SessionSafety.FinishKeeps | src/devloop/portable_sessions.py:2250-2329 | a reader's last section releases the lease only with an empty slot |
| SessionSafety.RetryKeeps | src/devloop/portable_sessions.py:1978-2022 | a cleanup retry releases only what it confirmed stopped |
| SessionSafety.RunQueuedKeeps | src/devloop/portable_sessions.py:1900-1976 | serving the queue fills only free slots |
| SessionSafety.LeaseOutlivesItsWorkers | src/devloop/portable_sessions.py:1446-1554 | over every interleaving without an overlapping launch: when a lease is released every worker the session ever had is confirmed stopped |
| SessionSafety.PauseIsEarned | src/devloop/portable_sessions.py:2250-2274 | over every interleaving whatever: a worker pauses its session only after its own checkpoint answered the pause sent to it with matching evidence, and its tree is confirmed stopped |
| SessionSafety.StepGoesSafely | src/devloop/portable_sessions.py:1446-1554 | in no critical section, short of an overlapping launch, does a slot empty or a lease go before its workers are confirmed stopped |
| SessionSafety.RetiredReadersAreHarmless | src/devloop/portable_sessions.py:2310-2329 | the reader of a replaced worker leaves slot, lease, queue and status alone |
| SessionSafety.LaunchIsSafeIff | src/devloop/portable_sessions.py:852-1023 | a launching command keeps every continuation safe if and only if it does not overlap with a queued launch or a pending stop |
| SessionSafety.LaunchDuringStopIsUnsafe | src/devloop/portable_sessions.py:1469-1554 | the run in which the end of a stop takes the lease from under a new worker |
| SessionSafety.LaunchOverQueueIsUnsafe | src/devloop/portable_sessions.py:1900-1976 | the run in which a served queue entry gives the session a second worker and the lease goes while the first runs |
| SessionSafety.OverlapOverQueueIsReachable | src/devloop/portable_sessions.py:1099-1154 | a session that was queued can be resumed over its queue entry |
| SessionSafety.OverlapWithStopIsReachable | src/devloop/portable_sessions.py:883-905 | a session whose worker ends during a stop can be resumed before the stop is over |
| SessionOutcomes.LaunchMeans | src/devloop/portable_sessions.py:1155-1293 | a launch by its answer: running in the slot, failed and out of it, undone for a new session, or interrupted with slot and lease kept while a tree that was set up wrongly is not stopped |
| SessionOutcomes.ScheduleMeans | src/devloop/portable_sessions.py:1099-1154 | without capacity the launch is queued, and nothing changes hands |
| SessionOutcomes.StartMeans | src/devloop/portable_sessions.py:852-881 | a new session takes its lease, and is queued or launched |
| SessionOutcomes.ResumeMeans | src/devloop/portable_sessions.py:883-1014 | what may be resumed, and what is refused, case by case |
| SessionOutcomes.PauseMeans | src/devloop/portable_sessions.py:1320-1387 | who is paused at once, who is asked, who is given up, and what is refused |
| SessionOutcomes.TerminateMeans | src/devloop/portable_sessions.py:1405-1554 | a stop of a session without a worker, with a dead one and with a live one |
| SessionOutcomes.StopTargets | src/devloop/portable_sessions.py:1389-1403 | a cancellation ends in cancelled, a forced stop in interrupted |
| SessionOutcomes.EndStopMeans | src/devloop/portable_sessions.py:1469-1554 | after the wait: the slot, the lease and the status by whether the tree is stopped |
| SessionOutcomes.InputMeans | src/devloop/portable_sessions.py:1556-1662 | input is taken exactly from a session that waits for it with a worker |
| SessionOutcomes.AcceptMeans | src/devloop/portable_sessions.py:2448-2860 | each kind of frame: the status it leaves and what it tells of the worker |
| SessionOutcomes.FrameMeans | src/devloop/portable_sessions.py:2448-2860 | which frames are acted on, which are ignored, and which fail their session |
| SessionOutcomes.ReadMeans | src/devloop/portable_sessions.py:2203-2229 | after which frames the reader goes on and after which it leaves |
| SessionOutcomes.FailMeans | src/devloop/portable_sessions.py:3057-3101 | the owner of the slot is given up as failed, and the slot goes once it is stopped |
| SessionOutcomes.InterruptMeans | src/devloop/portable_sessions.py:3103-3143 | the same as interrupted |
| SessionOutcomes.StreamMeans | src/devloop/portable_sessions.py:2232-2249 | a broken stream fails the session; one that just ends interrupts it unless that was expected |
| SessionOutcomes.LeaveMeans | src/devloop/portable_sessions.py:2250-2309 | what the end of a reader makes of the slot of its worker: paused, interrupted, or empty, by checkpoint and stopped tree |
| SessionOutcomes.RestMeans | src/devloop/portable_sessions.py:2310-2329 | the lease goes exactly with an empty slot, a confirmed worker and a session at rest |
| SessionOutcomes.RetryMeans | src/devloop/portable_sessions.py:1978-2022 | a cleanup that is due and now stopped gives up slot and lease, and undoes a launch |
| SessionOutcomes.QueueMeans | src/devloop/portable_sessions.py:1900-1976 | a queue entry is served exactly with capacity: it launches, or its input is written |
| SessionOutcomes.CheckpointedOwnerEnds | src/devloop/portable_sessions.py:2250-2274 | a checkpointed owner whose reader ends is paused, out of the slot, without lease and logged if its tree is stopped, and interrupted with slot and lease otherwise |
| SessionOutcomes.PauseCompletes | src/devloop/portable_sessions.py:1320-1387 | from any running or waiting session: pause, matching checkpoint, end of stream, reap and end of the reader leave it paused, out of the slot and without lease, if the tree is stopped, and interrupted otherwise |
| SessionOutcomes.CompletionEnds | src/devloop/portable_sessions.py:2795-2860 | a worker that reports its end leaves its session failed, ready or completed by exit code and unfinished work, and its slot once it is stopped |
| SessionOutcomes.StopCompletes | src/devloop/portable_sessions.py:1405-1554 | a stop ends in the status it asks for, out of the slot and without the lease, once the tree is stopped |
| SessionOutcomes.InputIsDelivered | src/devloop/portable_sessions.py:1556-1714 | a session that asked for input, got it and is served runs again in its slot |
| SessionOutcomes.QueuedSessionStarts | src/devloop/portable_sessions.py:852-1154 | a new session without capacity waits with its lease and runs once it is served |
| SessionSupervisor.PortableSessionSupervisor.LaunchSession | src/devloop/portable_sessions.py:1155-1293 | in a free slot it lets go of nothing too early; a worker that started owns the slot; one whose setup failed and that could not be stopped keeps slot and lease; and every case of SessionOutcomes.LaunchMeans |
| SessionSupervisor.PortableSessionSupervisor.AskPause | src/devloop/portable_sessions.py:1320-1387 | lets go of nothing too early; only a session queued without a worker is paused at once; any other that becomes pausing keeps slot and lease and has the command pending that was sent; and every case of SessionOutcomes.PauseMeans |
| SessionSupervisor.PortableSessionSupervisor.Terminate | src/devloop/portable_sessions.py:1405-1554 | slots and leases go only with confirmed workers; a live worker keeps both, and its status, until the wait for it is over; and every case of SessionOutcomes.TerminateMeans |
| SessionSupervisor.PortableSessionSupervisor.ApplyWorkerFrame | src/devloop/portable_sessions.py:2448-2860 | a frame reaches only its own session and no lease, never completes a pause, and counts as a checkpoint only with evidence, while pausing, in answer to what is pending; and every case of SessionOutcomes.FrameMeans |
| SessionSupervisor.PortableSessionSupervisor.EndReader | src/devloop/portable_sessions.py:2250-2329 | the checkpointed owner of the slot, reaped as stopped, is paused, out of the slot, without lease and logged, and reaped as not stopped is interrupted with slot and lease; otherwise slots and leases go only with confirmed workers and a session becomes paused in no other way |
| SessionSupervisor.PortableSessionSupervisor.Run | src/devloop/portable_sessions.py:666-780 | any interleaving of the object's methods earns its pauses, and any without an overlapping launch releases no lease too early |
| GuidanceScanner.KeyNamesFoldCase | src/devloop/redaction.py:323-342 | a secret's name is recognised whatever its case and hyphens |
| GuidanceNames.NamesMean | src/devloop/redaction.py:323-342 | a key is recognised exactly if none of its words is empty and one of the fourteen listed names stands in it as whole words, in any case and joined by underscores or hyphens |
| GuidanceScanner.FindSecretAssignment | src/devloop/redaction.py:297-320 | finds exactly the first assignment of a secret at or after the cursor |
| GuidanceScanner.RedactQuotedSecretValue | src/devloop/redaction.py:345-376 | by positions in the text: it closes at the first quotation mark that a walk past escapes and doubled marks comes to and that something that ends a value follows, resumes at the end of that line, and masks to the end of the text if there is none |
| GuidanceScanner.SkipSecretBlock | src/devloop/redaction.py:379-397 | every line passed is blank or indented deeper than the assignment, and the line behind, if there is one, is neither; all by positions in the text |
| GuidanceScanner.RedactAssignedSecrets | src/devloop/redaction.py:260-294 | the loop terminates with a strictly increasing cursor and computes the scan |
| GuidanceMasking.ScanMasks | src/devloop/redaction.py:260-294 | the output is the text with exactly the values of its assignments of secrets cut out and marked, from the first assignment on, each up to where a quoted value, a block or a line ends |
| GuidanceMasking.AssignmentMeans | src/devloop/redaction.py:297-320 | what is recognised as an assignment of a secret, by the characters around it |
| GuidanceMasking.ReplacementMeans | src/devloop/redaction.py:260-294 | what is put in the place of a value, and where the scan goes on |
| GuidanceScanner.ClosingMeans | src/devloop/redaction.py:345-376 | the closing mark is the first one that a walk over doubled marks and escapes comes to |
| GuidanceScanner.IndentationMeans | src/devloop/redaction.py:393-397 | the indentation is the longest run of leading spaces and tabs |
| GuidanceScanner.ScanSplices | src/devloop/redaction.py:260-294 | the output is the input with disjoint spans replaced, each ending at a newline or the end, and everything else kept in order |
| GuidanceScanner.EveryAssignmentIsMasked | src/devloop/redaction.py:260-294 | every recognised assignment of a value is masked or lies inside a masked span |
| GuidanceScanner.ScanShifts | src/devloop/redaction.py:260-294 | where a scan resumes it sees nothing of the text before |
| GuidanceScanner.ScanIsIdempotent | src/devloop/redaction.py:260-294 | scanning the output again changes nothing |
| OperatorHandoff.AnswersIffNotWeaker | src/devloop/operator_handoff.py:47-65 | the gates that may answer a failed one are exactly those with its command and no fewer tests |
| OperatorHandoff.NothingWeakerIsTried | src/devloop/operator_handoff.py:47-65 | from a failure to its discharge every gate tried has the same command and no fewer tests |
| OperatorHandoff.PlayIsDisciplined | src/devloop/operator_handoff.py:88-216 | over any rounds from any state of the loop: after a failure only gates that answer it run, and PASS is returned only with nothing outstanding |
| OperatorHandoff.RequestIsFor | src/devloop/operator_handoff.py:150-216 | what a round that goes on requests; it requests the failed gate on the sources it failed on exactly if these are unchanged and the result was PASS with a strengthened gate |
| OperatorHandoff.RoundMeans | src/devloop/operator_handoff.py:106-216 | one pass around the loop, case by case: what is waited for, which gates stay accepted, which results would hide a failure and are returned as FAIL with its evidence, when the failed gate is requested again, and that PASS with nothing outstanding is returned, and a verified completion with the evidence added |
| OperatorHandoff.PlayMeans | src/devloop/operator_handoff.py:88-216 | whatever the rounds are, the loop goes from state to state as these cases say and ends as they say |
| OperatorHandoff.TrialsMean | src/devloop/operator_handoff.py:106-170 | the gates that are run are the pending ones along that course, one a round |
| OperatorHandoff.OperatorHandoff.RunRole | src/devloop/operator_handoff.py:88-216 | there is a course of the loop from its empty start that every round follows by the case tables and that ends in the outcome and the request left; of the gates these rounds run none after a failure is weaker; never PASS with a failed gate outstanding |
| RuntimeBridge.PortableRuntimeBridge.RegisterRequest | src/devloop/portable_runtime.py:79-86 | refused exactly once a stop was requested |
| RuntimeBridge.PortableRuntimeBridge.GetMessage | src/devloop/portable_runtime.py:99-106 | a waiting request takes the next message: an answer closes it, a stop stops it, and a preview closes a text request and leaves a choice waiting |
| RuntimeBridge.PortableRuntimeBridge.DrainRequests | src/devloop/portable_runtime.py:178-185 | under the lock every registered request is set aside for its stop |
| RuntimeBridge.PortableRuntimeBridge.Run | src/devloop/portable_runtime.py:72-256 | over every interleaving: an answer reached the request it was sent to, and once the stop is delivered nobody is blocked without a waking message |
| RuntimeBridge.PortableRuntimeBridge.AwaitRelease | src/devloop/portable_runtime.py:99-150 | by its own steps alone a blocked request comes back after the stop: a choice with the first answer ahead of the stop, past the previews before it, a text with the first message |

## Left out

- InstallJournal.Prepare: crashes before the first journal write are not recovered from, as in the code; the property then is only that nothing referenced has changed.
- InstallJournal.Recover: a journal or pointer file that violates its schema is refused when it is read and is not modelled; changes to a release in the middle of a command are not either.
- BootstrapPublication.InitializeBootstrap: a record that violates its schema (`_validate_layout`) is refused when it is read; only well-formed records are modelled.
- UninstallRun.StageFiles: copying one file is one step; what a crash inside the copy of a single file leads to is UninstallRun.TornCopyIsAcceptedIff.
- UninstallRun.Uninstall: removing the uninstaller's own staging directory after the commit is one step; directories are not modelled, only files. Journal and evidence are taken to have as many entries as there are actions; their schema and the plan hash are not modelled.
- UninstallPlan.RestAfterUninstall: the two capability destinations are taken to be different directories outside the installation.
- UninstallPlan.PlanUninstall: the pointers and releases are those of the installer's own files (InstallJournal); the listing of the release directory and whether it holds anything unmanaged are parameters. Git's view of a release is its content identity.
- DependencySchedule.ExecuteDependencySchedule: simulation mode, the projection callback and the dashboard are left out; an execution changes no other issue's status.
- LoopState.LoopStateWriter.RecordDependencyProjection: only the scheduling part of the state file; `reset_scheduler_retry_budget` and the role cursors are left out.
- StreamDecoder.WriteThenDecode: JSON and the payload tables are parameters with the inverse property; Unicode decoding is part of them.
- SessionSafety.LeaseOutlivesItsWorkers: stated of the runs without an overlapping launch, which is exactly where it holds (SessionSafety.LaunchIsSafeIff); whether a worker runs only while the lease is held is not claimed. Resuming a discovered candidate (`portable_sessions.py:907-918`), a first launch of a session that is already known, is not modelled.
- SessionSafety.LaunchIsSafeIff: of launches that start; one whose process or setup fails is covered in the safe direction only (SessionSafety.StepKeeps).
- SessionSupervisor.PortableSessionSupervisor.Run: activity, diagnostics, progress, heartbeats, relinking, forgetting, discovery, catalog synchronisation and capacity accounting are left out; terminal statuses are not claimed to be final.
- OperatorHandoff.OperatorHandoff.RunRole: the rounds of the loop are a finite list; the receipt, the request directory and the screen are left out, and nothing is claimed about the fingerprints of accepted evidence.
- GuidanceScanner.RedactAssignedSecrets: the regular-expression redaction and the masking of JSON documents are left out.
- Locks and process liveness, path canonicalisation, reparse points, temporary publication files, fsync and hashing.
- User interface, argument parsing, model catalog, prompts, wiki, templates and the GitHub installation.
