# Agent boot, modelled and proved

Agent boot turns an agent definition into boot media and then runs a step plan on the device it
boots. Its hard parts are protocols that must survive a process dying, power failing, or any single
call failing halfway. This project models those protocols and proves what they promise.

`dafny verify dfyconfig.toml` checks everything. There is one module for each component:

| module | models |
|---|---|
| `FileLock` | the lock-file protocol as a step relation: any number of processes, any number of recovery levels, death at any step |
| `LockRecovery` | one live process acquiring a level over locks left by dead owners |
| `Checkpoint` | the runner's checkpoint, its schema and its transitions |
| `RunnerStore`, `Supervision`, `Engine` | the resumable step engine with its process supervisor, over histories of runs cut anywhere |
| `DurableStore` | the atomic file update over a file system with volatile and durable state, and the queue of updates |
| `SecretInstall` | the four-phase secret installation on that file system |
| `UnitPublication` | transactional publication of prompt-job units with timers and registry |
| `Topology` | the device-ancestry search and the checks that guard the target |
| `RawImage` | the exact write and read-back loops |
| `ImageFailure`, `Customization`, `ImageWorkflow` | error trees, customization, the write transaction and the recovery state reported |
| `ImagePlan`, `ImageFilesystem` | the plan of the image tree, its preflight, ordered apply and verification |
| `DownloadCache` | the resumable, content-verified download |
| `Template` | the prompt template validator against the renderer |
| `SystemdUnit` | the unit renderer against the contract parser |

Failures are modelled as arbitrary choices, so a method's contract covers every run: a call may
succeed, fail, or be the one at which the process or the machine stops. Where something is claimed
about runs without faults, or about one particular fault, constants of the class say which calls may
fail and which do. Every method that changes state says what the new state is; the contract of a
method that can be cut short holds at the point where it was cut.

## Where the code does less than it seems to promise

Each of these is stated exactly in a contract or lemma; where a history of failures is needed to
meet it, one is given.

- A process that is only registered but has already exited cannot be recorded as exited after
  acceptance: the schema refuses it (`Checkpoint.RegisteredExitRejected`, with the exact condition in
  `Checkpoint.FinishAcceptedExactly`). After a cancelled acceptance window the supervisor's shutdown
  meets this. Short of the numeric limit it is refused exactly if a tracked process is only
  registered and known to have exited (`Supervision.Supervisor.Shutdown` and `StopAll`).
  `Checkpoint.RegisteredExitHistory` leads there from a new checkpoint.
- A checkpoint update that creates a directory below another one left unsynced by an earlier killed
  run is not durable when it returns. It is durable exactly if the directory was there or everything
  above it was durable (`DurableStore.CheckpointFiles.WriteFileAtomically`); a killed run followed by
  one that returns loses the checkpoint in `DurableStore.KilledMkdirLosesCheckpoint`.
- A secret is lost if a run is killed between making a directory in the home and syncing the home,
  the next run completes, and then the power fails (`SecretInstall.KilledRunLosesSecret`). Over any
  history, the committed secret is durable exactly if no run since the last power loss stopped at
  that sync of the home, and the source is gone for good exactly if none stopped at the sync of its
  removal (`SecretInstall.Life`; `SecretInstall.KilledRemovalReturnsSource` is an instance of the
  latter). Directories deeper down are safe: the next run opens and syncs their parents again
  (`SecretInstall.NestedDirectoriesAreRepaired`).
- An installation whose very last operation fails, the removal of the registry's temporary directory,
  is rolled back with the new registry in place. The registry is given back exactly if the failure
  was not this one (`UnitPublication.PromptJobs.Publish`, `trace.late`);
  `UnitPublication.LateFailureKeepsRegistry` is an instance.
- Undoing a unit publication restores the policy of the registry, not the timers as they were. The
  two are the same exactly if the timers agreed with the registry (`UnitPublication.PromptJobs.Publish`).
  No call need fail for this: an account that has one job and installs it together with one whose name
  another account uses is refused, but only after its own unit has been moved aside, and the rollback
  turns off the other account's timer (`UnitPublication.RefusalDisablesForeignTimer`, with
  `UnitPublication.TwoAccounts` as an instance).
- If no registered unit exists and nothing is published, a failed removal leaves its timer changes in
  place (`UnitPublication.PromptJobs.Publish` under `NothingToMove`;
  `UnitPublication.MissingUnitsKeepTimerChanges` is an instance).
- A template render that fails leaves the shared regular expression's position behind, and the next
  render of a valid template can then fail. It does exactly if a token starts before that position
  (`Template.Renderer.RenderTemplate`; `Template.FailureSpoilsNextRender` is an instance).

## Model

| member | source | states |
|---|---|---|
| FileLock.RunKeepsInv | packages/cli/src/images/file-lock.ts:26-137 | every reachable state of every run keeps the protocol's invariant, at all recovery levels at once |
| FileLock.MutualExclusion | packages/cli/src/images/file-lock.ts:47-137 | a live holder's identity is exactly what the lock file at its level contains, so no two live holders share a level |
| FileLock.LocksChangeFairly | packages/cli/src/images/file-lock.ts:87-137 | a lock file is never overwritten; it disappears only by its live holder's release or because its owner is dead and a live holder of the next level removed it |
| FileLock.DeletePreserves | packages/cli/src/images/file-lock.ts:87-103 | a recoverer's unlink hits only the dead owner's lock that it re-read under the recovery lock |
| LockRecovery.LockDirectory.TryAcquireOwnedLock | packages/cli/src/images/file-lock.ts:47-76 | the hard link succeeds exactly on a free level and writes the caller's own identity |
| LockRecovery.LockDirectory.RecoverStaleLock | packages/cli/src/images/file-lock.ts:87-103 | removes a stale lock exactly when the run of recovery locks above it is stale too, and then clears that run |
| LockRecovery.LockDirectory.AcquireFileLockUntil | packages/cli/src/images/file-lock.ts:105-137 | acquires exactly when the deadline has not passed and the contiguous run is stale; recursion depth is the length of the run, and the run's levels end clear |
| Checkpoint.ValidateInvariants | packages/runner/src/state/schema.ts:356-430 | the loop accepts exactly the checkpoints meeting the declared invariants |
| Checkpoint.StepAcceptedExactly | packages/runner/src/state/transitions.ts:138-190 | a step update is accepted exactly if it is a forward move in an active run; the guards alone keep the schema |
| Checkpoint.SecretAcceptedExactly | packages/runner/src/state/transitions.ts:200-227 | a secret update is accepted exactly if it is the next phase of the same transaction under its started step |
| Checkpoint.RegisterAcceptedExactly | packages/runner/src/state/transitions.ts:59-124 | a process generation is accepted exactly if it is the first or succeeds a finished one |
| Checkpoint.FinishAcceptedExactly | packages/runner/src/state/transitions.ts:59-124 | exactly which process exits are accepted, including the schema's own refusals |
| Checkpoint.RegisteredExitRejected | packages/runner/src/state/schema.ts:184-259 | the refused exit: after acceptance, for a process that was only registered |
| Checkpoint.RegisteredExitHistory | packages/runner/src/state/schema.ts:184-259 | the three updates from a new checkpoint that end in this refusal |
| Checkpoint.SuccessAcceptedExactly | packages/runner/src/state/transitions.ts:237-250 | terminal success needs the last step succeeded, no open secret and every process finished |
| Checkpoint.FailureAcceptedExactly | packages/runner/src/state/transitions.ts:252-267 | terminal failure needs every process finished |
| Checkpoint.ApplyAdvances | packages/runner/src/state/transitions.ts:14-24 | an accepted update gives a valid checkpoint one revision on, or the same one; a terminal checkpoint never changes |
| Checkpoint.RecordsMoveForward | packages/runner/src/state/transitions.ts:59-124 | an update moves at most one process record, and forward |
| Checkpoint.HistoryIsValid | packages/runner/src/state/schema.ts:356-430 | every checkpoint reached by any sequence of accepted and refused updates is valid |
| Checkpoint.GenerationsAreConsecutive | packages/runner/src/state/transitions.ts:59-124 | over any history a step's recorded generations are 1, 2, 3 and so on without a gap, the newest one on record |
| RunnerStore.EventKeepsPlan | packages/runner/src/state/store.ts:137-170 | every update that fits the plan keeps the checkpoint in step with the plan |
| RunnerStore.EventKeepsLog | packages/runner/src/state/store.ts:137-170 | and keeps the record of executions consistent with it |
| RunnerStore.Store.LogSpawn | packages/runner/src/steps/fire-and-forget/fire-and-forget.ts:77-191 | every launch on record was of a reached step without an unfinished process, all earlier steps done |
| Supervision.Supervisor.Spawn | packages/runner/src/steps/fire-and-forget/fire-and-forget.ts:77-191 | a process is spawned only for a fire-and-forget step that has been reached, and only if it has no process or the last one has finished |
| Supervision.Supervisor.Launch | packages/runner/src/steps/fire-and-forget/fire-and-forget.ts:77-191 | ends with the process accepted and tracked, or with no active process and none tracked; no update is refused short of the numeric limits; an interruption hands over every unfinished process, tracked or as listed |
| Supervision.Supervisor.Resume | packages/runner/src/steps/fire-and-forget/fire-and-forget.ts:193-229 | takes up an unfinished process, or finishes its record |
| Supervision.Supervisor.CheckHealth | packages/runner/src/steps/fire-and-forget/fire-and-forget.ts:231-252 | every tracked process stays the accepted one on record; an exited one is recorded and dropped |
| Supervision.Supervisor.Shutdown | packages/runner/src/steps/fire-and-forget/fire-and-forget.ts:254-291 | nothing stays tracked and every tracked process is finished on record, also after a cancelled acceptance window; then a refused update means exactly that a tracked process was only registered and known to have exited |
| Supervision.Supervisor.AwaitAcceptance | packages/runner/src/steps/fire-and-forget/fire-and-forget.ts:208-228 | ends accepted and tracked or with no active process; a cancelled window leaves every tracked process the unfinished one on record |
| Supervision.Supervisor.StopOne | packages/runner/src/steps/fire-and-forget/fire-and-forget.ts:254-291 | the end of a tracked process is recorded; short of the limit exactly the known exit of a merely registered one is refused |
| Supervision.Supervisor.StopAll | packages/runner/src/engine/process-lifecycle.ts:134-151 | when it returns, every process on record is finished, so the following terminal update passes its guards; this holds for what an interruption hands over as well, where a refused update means exactly that a tracked process was only registered and known to have exited |
| Supervision.Supervisor.ReconcileCompleted | packages/runner/src/engine/process-lifecycle.ts:63-116 | after it the processes of all completed steps are tracked and sound, or a diagnostic says why not; an interruption leaves every unfinished process tracked or on record as listed |
| Supervision.Supervisor.ResumeStarted | packages/runner/src/engine/process-lifecycle.ts:118-132 | a started fire-and-forget step is resumed or left without an active process |
| Engine.RunnerEngine.Fail | packages/runner/src/engine/attempt-recorder.ts:57-66 | stopping first makes the terminal failure acceptable |
| Engine.RunnerEngine.Succeed | packages/runner/src/engine/attempt-recorder.ts:111-117 | stopping first makes the terminal success acceptable |
| Engine.RunnerEngine.RecordFailure | packages/runner/src/engine/attempt-recorder.ts:74-100 | a failed attempt uses up one attempt, and the last one ends the run |
| Engine.RunnerEngine.RunToEnd | packages/runner/src/engine/runner.ts:158-458 | each pass uses up budget: at most the sum of the attempt limits plus one passes; nothing is refused short of the numeric limits; a terminal checkpoint is left alone |
| Engine.RunnerEngine.Run | packages/runner/src/engine/runner.ts:150-458 | a run keeps the store's invariant however it ends |
| Engine.History | packages/runner/src/engine/runner.ts:150-458 | after any number of runs, each cut anywhere: executions of a step are within its limit, and no step is executed or launched before all earlier ones have succeeded, nor executed after its own success |
| Engine.RankBounded | packages/runner/src/engine/sequencing.ts:67-89 | the attempts a checkpoint has used are within the plan's budget |
| Engine.RetriesAreBounded | packages/runner/src/engine/runner.ts:187-440 | over any history an automatic or provider step is executed at most as often as its policy allows |
| DurableStore.LossShowsAView | packages/runner/src/state/atomic-file.ts:72-120 | after a power loss the checkpoint is one of the documents it has shown since the last directory sync, never a torn one |
| DurableStore.SurvivorIsSettled | packages/runner/src/state/atomic-file.ts:72-120 | what the restarted device sees is what every later power loss shows |
| DurableStore.TempNames | packages/runner/src/state/atomic-file.ts:122-143 | a temporary name is recognized by the clean-up, and the checkpoint's own name never is |
| DurableStore.SyncedSurvivesExactly | packages/runner/src/state/atomic-file.ts:84-120 | a synced document survives every power loss exactly if every directory name leading to it is durable |
| DurableStore.CheckpointFiles.CleanupTemps | packages/runner/src/state/atomic-file.ts:124-143 | removes exactly temporary files and syncs; the checkpoint stays as it is |
| DurableStore.CheckpointFiles.WriteFileAtomically | packages/runner/src/state/atomic-file.ts:145-183 | cut anywhere, it adds only the new document to what a power loss can show; on return the document is in place, durable under the exact condition |
| DurableStore.CheckpointFiles.Inspect | packages/runner/src/state/store.ts:185-272 | reads what is visible, after a sync, and changes no outcome |
| DurableStore.CheckpointFiles.Update | packages/runner/src/state/store.ts:172-183 | old or exactly the transition's result, whatever happens; on return the result is durable |
| DurableStore.History | packages/runner/src/state/store.ts:172-183 | updates with failures, power losses and restarts leave the in-order fold of those that took effect, among them every update that returned |
| DurableStore.KilledMkdirLosesCheckpoint | packages/runner/src/state/atomic-file.ts:84-120 | a run killed between two directories, an update that returns, and a power loss that leaves no checkpoint |
| DurableStore.RunIsOrdered | packages/runner/src/state/store.ts:293-300 | in every reachable state of the promise chain the tasks settle in the order of submission |
| DurableStore.UpdatesAreSerial | packages/runner/src/state/store.ts:293-300 | at most one update is at work, its read is never stale, and the stored checkpoint is the in-order fold |
| SecretInstall.EmittedAreAccepted | packages/runner/src/state/transitions.ts:200-227 | the phases a run emits after the recovered one are never turned down |
| SecretInstall.Installer.OpenDirectory | packages/runner/src/steps/install-user-secret/destination-store.ts:152-189 | on return the names of all directories below the first are durable, made by this run or not, since it syncs every directory it opens; the name of the first one, which only the home's sync makes durable, is so exactly if it was before or was made and the home synced |
| SecretInstall.Installer.CleanupTemps | packages/runner/src/steps/install-user-secret/destination-store.ts:128-150 | never removes the destination |
| SecretInstall.Installer.Install | packages/runner/src/steps/install-user-secret/destination-store.ts:70-103 | cut anywhere, the destination is what it could be before or exactly the secret; on return it is the synced secret, durable exactly if the home names its first directory durably |
| SecretInstall.Installer.Verify | packages/runner/src/steps/install-user-secret/destination-store.ts:105-126 | passes exactly on a private file with the expected bytes |
| SecretInstall.Installer.RemoveSource | packages/runner/src/steps/install-user-secret/source-store.ts:96-116 | the source is gone for good only after the sync |
| SecretInstall.Installer.Execute | packages/runner/src/steps/install-user-secret/installer.ts:74-125 | from a synced state the source or the durable destination holds the secret wherever the run stops; emits exactly the phases after the recovered one; the sync of the home or of the removal is left open exactly where the run stops at it; commits if it cannot stop |
| SecretInstall.InstalledSurvivesExactly | packages/runner/src/steps/install-user-secret/destination-store.ts:152-189 | an installed secret survives every power loss exactly if the home names its first directory durably |
| SecretInstall.LossKeepsEstablished | packages/runner/src/steps/install-user-secret/installer.ts:74-125 | a power loss keeps what the recorded phase has established |
| SecretInstall.CutRun | packages/runner/src/steps/install-user-secret/installer.ts:74-125 | a run stopped at any call leaves a state from which the next can go on, and opens a gap exactly at the two syncs that are not repeated, the home's and the removal's |
| SecretInstall.LosePower | packages/runner/src/steps/install-user-secret/installer.ts:74-125 | a power loss at a safe point leaves the secret safe and the state resumable, and closes both gaps |
| SecretInstall.LossIsSafeExactly | packages/runner/src/steps/install-user-secret/installer.ts:74-125 | every outcome of a power loss is resumable exactly if no recorded phase relies on an open gap |
| SecretInstall.Life | packages/runner/src/steps/install-user-secret/installer.ts:74-125 | after any number of stopped runs and safe power losses, one that cannot stop commits with the source unseen and the destination equal; the secret is durable, and the source gone for good, exactly if no run since the last loss stopped at the sync of the home, or of the removal |
| SecretInstall.KilledRunLosesSecret | packages/runner/src/steps/install-user-secret/destination-store.ts:158-166 | the losing history: a run killed before the home's sync, a completed run, a power loss |
| SecretInstall.NestedDirectoriesAreRepaired | packages/runner/src/steps/install-user-secret/destination-store.ts:158-178 | whichever directories below the first one earlier runs left unsynced, a fresh run that cannot stop makes the secret durable exactly if the home names the first one durably |
| SecretInstall.KilledRemovalReturnsSource | packages/runner/src/steps/install-user-secret/installer.ts:98-104 | from a fresh start, a run killed before the removal's sync and a completed one leave a source that a power loss can bring back |
| UnitPublication.RestoredTimers | packages/scheduled-prompt-jobs/src/lifecycle.ts:35-49 | a restored policy leaves the timers as they were exactly if they agreed with the registry |
| UnitPublication.PromptJobs.MoveAside | packages/scheduled-prompt-jobs/src/unit-store.ts:193-206 | moves only registered regular files, registered names first, so all of them before anything unregistered is met; goes through exactly when nothing else is in the way |
| UnitPublication.PromptJobs.AfterPublish | packages/scheduled-prompt-jobs/src/lifecycle.ts:75-87 | success brings stale and new timers and the registry to the new policy, enabling timers only after a reload; a failure changes the registry exactly if it came in the registry's clean-up; other timers are never touched |
| UnitPublication.PromptJobs.RestoreTimerPolicy | packages/scheduled-prompt-jobs/src/lifecycle.ts:35-49 | success puts the previous registry's policy back in force |
| UnitPublication.PromptJobs.Rollback | packages/scheduled-prompt-jobs/src/unit-store.ts:212-240 | complete: units as before and backup empty; incomplete: every original in place or in the backup |
| UnitPublication.PromptJobs.Publish | packages/scheduled-prompt-jobs/src/unit-store.ts:173-249 | without faults it succeeds exactly if nothing is in the way, and when only unregistered files are, the refusal has something to undo exactly if a registered unit is there; success is exactly the new units, loaded by systemd, with the new timers and registry; a failure without recovery gives back the units, the registry unless it came late, and after a rollback the timers exactly if they agreed with the registry; unowned files are never overwritten |
| UnitPublication.PromptJobs.InstallPromptJobs | packages/scheduled-prompt-jobs/src/lifecycle.ts:51-90 | installation is all or nothing and keeps the registry in agreement with units and timers, exactly but for a failure in the registry's clean-up |
| UnitPublication.PromptJobs.UninstallPromptJobs | packages/scheduled-prompt-jobs/src/lifecycle.ts:92-104 | removal is all or nothing, gives back the registry on every failure without recovery, and keeps the agreement |
| UnitPublication.LateFailureKeepsRegistry | packages/scheduled-prompt-jobs/src/unit-store.ts:156-167 | only the registry's clean-up fails: no units, but a registry that names them |
| UnitPublication.RefusalDisablesForeignTimer | packages/scheduled-prompt-jobs/src/unit-store.ts:183-233 | no call fails: any installation refused because of unregistered files, once a registered one has moved, turns off every new timer that is not the account's |
| UnitPublication.TwoAccounts | packages/scheduled-prompt-jobs/src/unit-store.ts:183-233 | an instance: the other account's timer ran before the refusal and is off after it |
| UnitPublication.MissingUnitsKeepTimerChanges | packages/scheduled-prompt-jobs/src/unit-store.ts:226-233 | only the reload fails and no registered unit is there: the removal fails but its timer stays off |
| Topology.Ancestry.Visit | packages/cli/src/drives/topology.ts:11-32 | the search succeeds exactly if every reachable parent resolves and no cycle is reachable, and adds exactly what is reachable |
| Topology.AncestorsOf | packages/cli/src/drives/topology.ts:11-32 | the set is the reflexive transitive closure of the parent relation |
| Topology.ActiveRootAncestors | packages/cli/src/drives/topology.ts:34-46 | exactly the ancestors of all devices mounted at the root, or nothing if one of them does not resolve |
| Topology.MountedDescendants | packages/cli/src/drives/topology.ts:48-61 | exactly the mounted devices that sit on the target |
| Topology.ResolveTarget | packages/cli/src/drives/preflight.ts:93-131 | accepts exactly the matching whole disk that carries neither the active system nor, unless allowed, any mount |
| Topology.RecheckForWrite | packages/cli/src/drives/preflight.ts:175-192 | passes exactly if the target is still acceptable and still the confirmed device |
| RawImage.WriteChunk | packages/cli/src/imaging/raw-writer.ts:6-27 | however short the writes, the chunk is at its place and nothing outside has changed |
| RawImage.WriteChunks | packages/cli/src/imaging/raw-writer.ts:57-82 | the target begins with the concatenated chunks; a size mismatch is reported only for one |
| RawImage.WriteImage | packages/cli/src/imaging/raw-writer.ts:36-107 | returning means the first bytes are exactly the source's; nothing beyond the expected length ever changes |
| RawImage.EndStream | packages/cli/src/imaging/stream.ts:31-76 | a stream's end turns every failure into one of the write errors the classification relies on |
| RawImage.ReadExact | packages/cli/src/imaging/read-back-verifier.ts:6-26 | however short the reads, the buffer equals the target's bytes |
| RawImage.EqualBytes | packages/cli/src/imaging/read-back-verifier.ts:28-33 | true exactly for equal bytes |
| RawImage.VerifyChunks | packages/cli/src/imaging/read-back-verifier.ts:62-90 | success means equality with the whole stream; a mismatch is reported only for a difference |
| RawImage.VerifyImage | packages/cli/src/imaging/read-back-verifier.ts:42-112 | returning under any other chunking means the target begins with exactly that stream's bytes |
| ImageFailure.CompletedRecoveryFor | packages/cli/src/image/failure.ts:70-88 | the worklist finds exactly the furthest completion that any carried error vouches for |
| ImageFailure.CleanupFailedFor | packages/cli/src/image/failure.ts:55-68 | true exactly if some carried error is a cleanup failure |
| ImageFailure.ImagingPhase | packages/cli/src/image/failure.ts:14-53 | an error of the writer or verifier is put down to write or read-back, whatever the active phase and however often it is wrapped |
| Customization.Customizer.UnmountAll | packages/cli/src/customize/transaction.ts:95-104 | whatever is still mounted stays listed, and the list is as long as the failures counted |
| Customization.Customizer.CustomizeAndCheck | packages/cli/src/customize/transaction.ts:144-224 | success means every partition was checked, each with nothing mounted |
| Customization.Customizer.CustomizeWrittenImage | packages/cli/src/customize/transaction.ts:68-248 | returns only with all checks passed and nothing mounted; an error claims completion only after all checks have passed |
| ImageWorkflow.CleanupWraps | packages/cli/src/imaging/transaction.ts:82-94 | wrapping an error in a cleanup failure keeps its phase and adds no false claim |
| ImageWorkflow.DeepestMount | packages/cli/src/imaging/transaction.ts:40-42 | the mountpoint chosen has none deeper |
| ImageWorkflow.Workflow.UnmountDescendants | packages/cli/src/imaging/transaction.ts:44-74 | ends for any finite set of mountpoints, and its errors claim nothing |
| ImageWorkflow.Workflow.WriteAndVerify | packages/cli/src/imaging/transaction.ts:138-166 | success means an exact image even if the medium altered what was written; every failure is put down to write or read-back |
| ImageWorkflow.Workflow.WriteImageTransaction | packages/cli/src/imaging/transaction.ts:96-209 | returning means exact read-back and passed checks; every error accounts for what was touched |
| ImageWorkflow.Workflow.RunImageWorkflow | packages/cli/src/image/orchestrator.ts:42-240 | a target that may have changed is never reported unchanged; complete only after all checks, verified only after exact read-back |
| ImagePlan.AncestryOnStrings | packages/os-adapters/src/raspberry-pi-os-trixie/plan.ts:55-61 | the string prefix test is the ancestor relation on path segments |
| ImagePlan.Plan.Add | packages/os-adapters/src/raspberry-pi-os-trixie/plan.ts:55-76 | an entry is added exactly if it fits the others; a repeated directory changes nothing |
| ImagePlan.Plan.Directory | packages/os-adapters/src/raspberry-pi-os-trixie/plan.ts:78-97 | succeeds exactly if placeable, adds exactly the directory and its missing ancestors, and keeps the plan a tree even when it fails |
| ImagePlan.Plan.File | packages/os-adapters/src/raspberry-pi-os-trixie/plan.ts:109-112 | the same for files, which stay leaves |
| ImagePlan.Plan.SymbolicLink | packages/os-adapters/src/raspberry-pi-os-trixie/plan.ts:114-117 | the same for links |
| ImageFilesystem.SortIsOrdered | packages/os-adapters/src/raspberry-pi-os-trixie/filesystem.ts:169-175 | the apply order keeps every entry once |
| ImageFilesystem.ParentComesFirst | packages/os-adapters/src/raspberry-pi-os-trixie/filesystem.ts:168-181 | in that order an entry's parent directory comes before it |
| ImageFilesystem.SafeImageWriter.Preflight | packages/os-adapters/src/raspberry-pi-os-trixie/filesystem.ts:139-166 | accepts exactly the plans that can be applied |
| ImageFilesystem.SafeImageWriter.Apply | packages/os-adapters/src/raspberry-pi-os-trixie/filesystem.ts:168-181 | after preflight fails only if a call does; returning means the plan is verified, nothing else changed, and applying again changes nothing |
| ImageFilesystem.SafeImageWriter.Verify | packages/os-adapters/src/raspberry-pi-os-trixie/filesystem.ts:183-208 | accepts exactly the trees that hold the plan |
| ImageFilesystem.SafeImageWriter.Install | packages/os-adapters/src/raspberry-pi-os-trixie/filesystem.ts:139-208 | without failing calls, preflight, apply and verify succeed together exactly if preflight does |
| DownloadCache.AcceptedRange | packages/cli/src/images/download.ts:16-37 | a partial response is accepted exactly if it starts at the offset and lies inside the artifact |
| DownloadCache.ArtifactCache.WriteAll | packages/cli/src/images/download.ts:46-63 | appends the chunk, or on failure a beginning of it |
| DownloadCache.ArtifactCache.Receive | packages/cli/src/images/download.ts:102-128 | what is written is always a beginning of the body and never more than announced |
| DownloadCache.ArtifactCache.DownloadArtifact | packages/cli/src/images/download.ts:77-140 | with an honest server the partial file stays a beginning of the artifact; a completing response completes it |
| DownloadCache.ArtifactCache.PromoteCompletedPartial | packages/cli/src/images/artifact-cache.ts:151-176 | only pinned bytes are promoted, and what remains can be resumed |
| DownloadCache.ArtifactCache.VerifyAndPromote | packages/cli/src/images/artifact-cache.ts:198-214 | only pinned bytes are promoted; anything else is removed |
| DownloadCache.ArtifactCache.Acquire | packages/cli/src/images/artifact-cache.ts:71-117 | whatever the server sends, the artifact path only ever receives pinned bytes and only those are returned |
| DownloadCache.AcquireAfterInterruptions | packages/cli/src/images/artifact-cache.ts:71-214 | after any interruptions, a response with the missing bytes ends in a verified artifact |
| Template.PrintAfterParse | packages/runner/src/prompts/template.ts:6-39 | parsing a template loses nothing, and its segments are well formed |
| Template.ParseAfterPrint | packages/runner/src/prompts/template.ts:3-4 | every well-formed list of segments is read back from its text: the grammar is exactly that |
| Template.ValidatePromptTemplateVariables | packages/synth/src/prompt-template-validation.ts:21-78 | accepts exactly the templates whose variables are the declared identifiers |
| Template.Renderer.RenderTemplate | packages/runner/src/prompts/template.ts:6-39 | exactly when it succeeds, from any position; what it returns is the literal text with the values, not rescanned, and the position is back at the start |
| Template.FailureSpoilsNextRender | packages/runner/src/prompts/template.ts:3-39 | a failed render makes the next render of a valid template fail |
| Template.ValidatePromptReferences | packages/protocol/src/assembly.ts:12-46 | passes exactly if the bound names are the declared ones |
| Template.Hydrate | packages/runner/src/prompts/hydrator.ts:41-76 | exactly when hydration succeeds, and with which text |
| Template.HydrateAll | packages/runner/src/prompts/hydrator.ts:41-76 | validated prompts with resolvable values always render, one after another on the same renderer |
| SystemdUnit.SplitJoined | packages/runner-bundle/src/systemd-service-contract.ts:94-94 | splitting takes joined lines apart again |
| SystemdUnit.ParseUnitWords | packages/runner-bundle/src/systemd-service-contract.ts:13-44 | the index loop computes the words of a value |
| SystemdUnit.PrintedWords | packages/runner-bundle/src/systemd-service-contract.ts:13-44 | every list of words without double quotes and backslashes is read back from its printed form |
| SystemdUnit.ApplyEnvironment | packages/runner-bundle/src/systemd-service-contract.ts:54-63 | the loop applies the assignments in order; an empty setting clears them |
| SystemdUnit.VerifyRunnerServiceContract | packages/runner-bundle/src/systemd-service-contract.ts:77-151 | passes exactly if what the whole unit leaves in force is the account's |
| SystemdUnit.RenderedUnitRead | packages/runner-bundle/src/systemd.ts:18-76 | reading a rendered unit gives exactly the account's settings and variables |
| SystemdUnit.RenderedUnitConforms | packages/runner-bundle/src/systemd.ts:18-76 | a unit rendered for one account verifies against another exactly if user, group, home and working directory are the same |

## Left out

- Process spawning, signals, `/proc`, terminals, HTTP, `lsblk`, `xz`, `systemctl` and OpenSSL: their answers are arbitrary choices; an owner's liveness is a fact that can only turn false.
- Wall-clock time: a deadline is a number that a poll moves towards, and a timeout is a choice.
- JSON text, SHA-256 and UUIDs: a document on disk is whole or torn, the hash is any function, names and tokens are fresh; parsing returns what was serialized.
- The 64 KiB limit on reading a checkpoint, file modes, owners and stale plans of the checkpoint file: a checkpoint written is assumed to be within the limit that reading enforces.
- Store creation: the runner's store starts from an initialized checkpoint.
- Concurrent writers outside the locks: nobody else changes the directories that a protocol works on.
- Field-by-field schema parsers, argument parsing, messages, exit codes and progress texts: single-branch facts.
- Writing and removing rendered prompts, and decoding UTF-8: a secret that is not text counts as unresolvable.
- A sync that fails and is retried in the same process: a failed call has no effect on what is durable.
- Power loss during a download: an interrupted process leaves what it wrote.
- Device locks by file and the private mount root: acquiring and releasing are arbitrary choices.
- Capacity provisioning of the root partition beyond its place in the customization: its effect on the target is arbitrary.
- Engine.RunnerEngine.Run: does not carry the exact outcome of the stop after an interruption up to the whole run; it is stated for the launch, resumption or reconciliation that was interrupted and the stop that follows. When the stop that ends a run is itself cut short, the second stop works from a list that may be outdated, and the exact outcome is not stated there.
- UnitPublication.PromptJobs.Publish: a failing removal of the operation's directory after success is kept apart as a failure of its own, since the change is then in force.
- DurableStore.CheckpointFiles.Inspect: does not model the permission checks, which only add refusals.
- SecretInstall.Life: promises nothing after a power loss at a point that `LossIsSafeExactly` excludes, where some outcome cannot be resumed.
- ImageFilesystem.SafeImageWriter.ApplyFile: the temporary file is not an entry of the tree; the file is replaced at once or not at all.
- Template.Hydrate: a name bound twice takes its last value, as in the source, and bindings are resolved without interleaving.
- SystemdUnit.VerifyRunnerServiceContract: works on decoded text.
