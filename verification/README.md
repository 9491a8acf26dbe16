# kubus-node: a verified model of its crash-safe bookkeeping

kubus-node looks after resources it does not fully control: Kubo pins, a GPU worker, upload directories, one state file. This project models the parts of it whose safety is a claim about whole runs, and proves those claims in Dafny 4.11 for every run, including crashes, failed writes, lost replies and interleavings at every `await`.

Check it with `dafny verify dfyconfig.toml`.

## How the model is built

Protocols between several callers or processes (`ManagedPins`, `JobSystem`, `RuntimeLease`, `CaptureStore`, `DraftReconcile`, `ProviderCleanup`) are step machines. A `World` or `System` holds the durable and the volatile state; an `Action` is one stretch of code between two awaits, or one lock section; `Enabled` and `Apply` say when it can be taken and what it does; `Run` relates two states by any sequence of actions. A store update either commits or leaves everything as it was, and a crash keeps only what is durable. The main results are statements about every `Run` from `Initial`.

Code that one caller runs from start to end is modelled in its own imperative form: the classes `JobControl.Control`, `DraftAccounting.DraftEntry`, `Crc32.Crc`, `FrameCodec.ChunkReassembler`, `LocalStore.Store`, `ArchivePins.Ledger` and `Idempotency.Store`, and methods with loops. Each is proved against a specification function or, as `JobControl.Control` and `ArchivePins.Ledger` are, against the steps of a protocol, and the properties are lemmas about that function or protocol. Pure code (`PoseConversion`, the comparators of `ArchivePlan`) is functions.

| file | what it covers |
|---|---|
| `ManagedPins.dfy`, `UnpinEvidence.dfy` | pin ownership over a pin set shared by many callers, with unpins that take effect arbitrarily late; what stands behind each unpin |
| `ArchivePins.dfy` | the archive's reconcile run as steps of that protocol, every await open to other callers |
| `ArchivePlan.dfy` | the priority order and the greedy plan within two budgets |
| `JobSystem.dfy`, `JobControl.dfy` | job admission, cancellation and worker quiescence across node and worker |
| `RuntimeLease.dfy` | mutual exclusion from `link`, `unlink` and `mkdir`, with reclamation of the dead |
| `CaptureStore.dfy` | uploads, commits, replacement of damaged replicas, the orphan sweep |
| `DraftPaths.dfy`, `DraftAccounting.dfy`, `DraftReconcile.dfy` | which file a client's path names, the byte accounting of one upload, and its reconciliation with the disk while uploads and commits go on |
| `ProviderCleanup.dfy` | decrypted provider inputs and the journal that removes them, over the whole job system |
| `LocalStore.dfy` | the transactional state file the others rest on |
| `Crc32.dfy`, `FrameCodec.dfy` | the checksum, the frame codec, splitting and reassembly |
| `Idempotency.dfy` | replay of remembered successes |
| `PoseConversion.dfy` | quaternion to rotation matrix and camera-to-world matrix over the reals |
| `Wrappers.dfy`, `Strings.dfy` | shared helpers |

## Where the code does less than its comments say

Each of these has a lemma that shows the failure and a statement of the exact condition.

- A reconcile turn of the pin ledger (line 267) does not re-read the record it scanned. If an unpin of that record is still outstanding and its outcome open, the turn can settle the record, a new owner can join, and the late unpin then takes the pin away. `TurnIsSafeIffHarmless`, `StaleTurnIsReachable`.
- The latest ownership probe can have seen a foreign pin and still be ignored, when the write of its answer failed or the node crashed before it. The loss is harmless exactly when the answer read absence, or the record does not claim the pin, or the record is released and no turn waits for it. `LossIsSafeIffHarmless`, `HarmfulLossIsReachable`, `LostProbeAnswer`.
- The reaper of a dead runtime lease re-reads the owner under its guard, but an owner that was alive at that read can release and exit before it is judged. The reaper then unlinks the lease of whoever took over. The comment at lines 61-62 says this cannot happen. `JudgementIsSafeIff`, `EvictionIsReachable`.
- Discarding a draft while its commit is between the recheck and the state write lets the sweep remove the directory the commit then stores. `DiscardIsSafeIff`, `OverlapIsReachable`.
- The dispatch loop picks a job by stored state that changes only later, so with a concurrency of two or more it does not end once a job is queued and two places are free. `DispatchEndsIff`, `DispatchDiverges`.
- `getDraft` looks for writers only before it reconciles. A file uploaded again after the reconcile read it as gone is dropped from the list although it is on disk, also when its size is the same, and two overlapping resumes take one size off twice. `DropIsSafeIff`, `UploadDuringResume`, `TwoResumes`.
- A draft's files are listed by the text the client sent and stored where `path.join` puts it. `a/b` and `a//b` are one file on disk, listed and counted twice; a file sent as `.draft.json` or `capture.json` is overwritten by the node's own marker or manifest and stays listed. `RenameIsSafeIff`, `DoubledSlashIsListedTwice`, `MarkerUploadIsReplaced`, `ManifestUploadIsReplaced`.
- The priority tables of the archive plan are plain objects, so a storage class or role such as `constructor` finds an inherited function, the difference is not a number, and the comparator skips that part. It then has cycles, and no arrangement is sorted. `NameIsSafeIff`, `InheritedNameCycles`, `ConstructorCycles`.
- The provider's cleanup lists the local jobs once. A client's create call on the decrypted capture that ends after the listing leaves a job that can still reach the worker after the journal says `complete`. `FinishIsSafeIff`, `LateJobIsReachable`, `LateJobRunsAfterComplete`.
- The handle of an idempotent call can be settled again. While its key was never dropped, a second settle that finds or leaves an entry replaces or removes a remembered success. `Idempotency.Store.Settle` states the condition, `SecondSettleBreaks` the failing family.

## Model

| member | source | states |
|---|---|---|
| `ManagedPins.PinnedRecordsArePinned` | src/ipfs/managedPins.ts:76-155 | in every run with crashes, failed writes and late unpins, a record in state `pinned` with an owner is pinned in Kubo, and no acquire can start on an identifier whose unpin may still take effect |
| `ManagedPins.UnpinIsJustified` | src/ipfs/managedPins.ts:189-258 | every unpin submitted in any run is for an identifier that its recorded probe read as absent, without owners, unreferenced in what the decision read, with activation on, already durably `releasing`, and with no other unpin outstanding; if the latest probe's answer was written, it read absence too |
| `UnpinEvidence.UnpinWasDecided` | src/ipfs/managedPins.ts:157-228 | every run that comes to an unpin passes through a decision with activation on, in a state where the identifier has no owner, was created here and is referenced nowhere |
| `UnpinEvidence.LatestProbeReadAbsence` | src/ipfs/managedPins.ts:88-109 | in every run that loses no probe answer to harm, every unpin is for an identifier its latest probe read as absent |
| `UnpinEvidence.LossIsSafeIffHarmless` | src/ipfs/managedPins.ts:88-109 | losing an answer keeps that true in every continuation if and only if the answer read absence, the record does not claim the pin was created here, or the record is released with no turn waiting |
| `UnpinEvidence.HarmfulLossUnpins` | src/ipfs/managedPins.ts:88-155 | from every other loss there is a continuation that unpins against the latest answer |
| `UnpinEvidence.HarmfulLossIsReachable` | src/ipfs/managedPins.ts:76-109 | such a loss is reached from a fresh store: a crash with a foreign pin in hand |
| `ManagedPins.LostProbeAnswer` | src/ipfs/managedPins.ts:88-109 | a run in which the latest probe saw a foreign pin, its answer was not written, and the unpin goes ahead |
| `ManagedPins.TurnIsSafeIffHarmless` | src/ipfs/managedPins.ts:260-270 | a reconcile turn keeps serving owners in every continuation if and only if no unpin is outstanding or the turn stops early; re-reading the record's state is enough |
| `ManagedPins.StaleTurnStrands` | src/ipfs/managedPins.ts:260-270 | from every other turn there is a continuation in which an owner loses its pin |
| `ManagedPins.StaleTurnIsReachable` | src/ipfs/managedPins.ts:260-270 | such a turn is reached from a fresh store: two passes scan one record and the first ends uncertain |
| `ManagedPins.LateUnpinStrands` | src/ipfs/managedPins.ts:76-126 | an owner let in while an older unpin is outstanding loses the pin when it lands |
| `ManagedPins.DecideKeeps` | src/ipfs/managedPins.ts:189-228 | whatever the release decision writes next, the invariant of its identifier holds |
| `ManagedPins.StepKeeps` | src/ipfs/managedPins.ts:53-270 | every step of acquire, release, reconcile, Kubo and a crash keeps the invariant tying records to real pins and outstanding unpins |
| `ArchivePins.Ledger.Acquire` | src/ipfs/managedPins.ts:76-126 | a run of the pin protocol's own steps with other callers between them; whatever fails, at most the named owner is added; on normal return it is registered and the record says `pinned` |
| `ArchivePins.Ledger.Release` | src/ipfs/managedPins.ts:128-155 | such a run; on normal return the owner is not registered; nobody else's archive registration changes, also when it throws |
| `ArchivePins.Ledger.ReleaseUnreferenced` | src/ipfs/managedPins.ts:189-258 | such a run, from a release or a reconcile turn; on every path, thrown or returned, no registration changes; an owned or referenced record is left alone, a pin the node did not create is retained, one it created waits for activation, and with activation on it is released, stays pending after a refusal, or stays open when the outcome is unknown |
| `ArchivePins.Ledger.Reconcile` | src/ipfs/managedPins.ts:260-270 | a scan and its turns are such a run and change no registration |
| `ArchivePins.Ledger.Wanted` | src/operator/commitments.ts:132-132 | the wanted set is exactly the registrations of desired records; it throws exactly when an identifier does not parse |
| `ArchivePins.Ledger.AcquireDesired` | src/ipfs/pinning.ts:78-95 | every reported success is a registration; nothing is dropped; only archive owners are touched |
| `ArchivePins.Ledger.DropUnwanted` | src/operator/commitments.ts:133-142 | only unwanted registrations are released, wanted ones stay, and without a failure none that is unwanted is left |
| `ArchivePins.Ledger.ReconcileDesired` | src/operator/commitments.ts:117-145 | with the desired list read twice, on normal return with a complete list and a valid generation every archive registration left on any identifier is that of a record in the second reading, and every reported success still in it is among them; without that authority nothing is removed; non-archive owners are never touched, and all that happens is a run of the pin protocol |
| `ArchivePins.Ledger.ServesOwners` | src/ipfs/managedPins.ts:76-270 | so after any calls on a fresh store, unless a turn found an open release, every record in state `pinned` with an owner is pinned in Kubo |
| `ArchivePins.OwnStep` | src/ipfs/managedPins.ts:76-258 | one step of the archive's own adds or removes at most the registration it names |
| `ArchivePins.OthersInterfere` | src/ipfs/managedPins.ts:76-270 | every step of the pin protocol that is not taken for an archive owner and respects the lock held keeps the archive's registrations and the record and critical section under that lock |
| `ArchivePins.OtherRunsInterfere` | src/ipfs/managedPins.ts:76-270 | so does any run of such steps |
| `ArchivePlan.PriorityIsOrder` | src/operator/commitments.ts:16-29 | among records without an inherited class or role name the comparator is a total preorder and ties exactly the records with equal keys |
| `ArchivePlan.NameIsSafeIff` | src/operator/commitments.ts:16-29 | a record leaves the comparator an order beside any two such records if and only if it has no such name itself |
| `ArchivePlan.InheritedNameCycles` | src/operator/commitments.ts:23-25 | every record with such a name is in a cycle with two that have none |
| `ArchivePlan.CycleHasNoOrder` | src/operator/commitments.ts:20-29 | the records of a cycle have no sorted arrangement |
| `ArchivePlan.ConstructorCycles` | src/operator/commitments.ts:16-25 | a hot archive, a file of class `constructor` and a cold preview are such a cycle |
| `ArchivePlan.SortKeepsPromise` | src/operator/commitments.ts:20-29 | a stable sort as the runtime promises it exists for every comparator: always a permutation, and sorted and stable where the comparator is an order |
| `ArchivePlan.SortIsStable` | src/operator/commitments.ts:20-29 | where the comparator is an order, records it cannot tell apart keep their input order |
| `ArchivePlan.SortSorts` | src/operator/commitments.ts:20-29 | where it is an order the arrangement is sorted |
| `ArchivePlan.SortPermutes` | src/operator/commitments.ts:20-29 | the arrangement has the same records as often, whatever the comparator |
| `ArchivePlan.PlanWithinBudgets` | src/operator/commitments.ts:30-39 | the plan obeys the count and the byte budget, also when they are negative, whatever the sort did |
| `ArchivePlan.GreedyAt` | src/operator/commitments.ts:32-38 | a position of the priority order is taken exactly when it fits after what higher priorities took; one that is not taken would overflow the finished plan too |
| `ArchivePlan.PlanIsMaximal` | src/operator/commitments.ts:19-40 | an eligible record left out would overflow the bytes, unless the count is full, whatever the names |
| `ArchivePlan.PlanIsChosenInOrder` | src/operator/commitments.ts:11-40 | the plan holds only eligible records, none more often than the list does, and in priority order if none has an inherited name |
| `ArchivePlan.PlanIgnoresInputOrder` | src/operator/commitments.ts:19-40 | without ties and inherited names the plan does not depend on the order of the list |
| `ArchivePlan.TakeGreedily` | src/operator/commitments.ts:30-39 | the loop with its early exit computes the greedy choice |
| `ArchivePlan.PlanPublicPins` | src/operator/commitments.ts:19-40 | filter, any sort and loop compute the plan the lemmas are about |
| `JobSystem.CompleteMeansQuiescentForever` | src/jobs/jobCleanup.ts:31-84 | once a job's journal says `complete`, no worker process of it is alive and none can start, then or later, whatever arrives late, crashes or restarts |
| `JobSystem.EnsuredQuiescentForever` | src/jobs/jobRuntime.ts:120-129 | after a normal return of `ensureJobQuiescent`, also for a job without a journal, no worker process of the job is alive or can start, then or later |
| `JobSystem.AcknowledgedIsQuiet` | spatial-worker/job_control.py:84-104 | a cancel receipt leaves the worker only when the job has nothing running there |
| `JobSystem.OneReconstructionPerCapture` | src/jobs/jobRuntime.ts:142-227 | in every reachable state a capture has at most one queued or running reconstruction |
| `JobSystem.TerminalStays` | src/jobs/jobRuntime.ts:229-255 | a completed, failed or cancelled job stays so in every later state |
| `JobSystem.StepNeverReactivates` | src/jobs/jobRuntime.ts:286-387 | no step of a run, a cancel or a patch makes a job active again or takes back a completed journal |
| `JobSystem.QueuedJobCanRun` | src/jobs/jobRuntime.ts:268-387 | on an idle node a queued job comes to the worker and is let in there |
| `JobSystem.DispatchEndsIff` | src/jobs/jobRuntime.ts:268-284 | the dispatch loop ends if and only if nothing is queued or one more entry fills the table, so always at concurrency one |
| `JobSystem.DispatchDiverges` | src/jobs/jobRuntime.ts:268-284 | with one queued job, an empty table and concurrency two the loop does not end |
| `JobSystem.DispatchPass` | src/jobs/jobRuntime.ts:268-284 | where it ends, the loop launches the queued job once if a place is free and adds nothing else to the table |
| `JobControl.Control.constructor` | spatial-worker/job_control.py:17-20 | a start over any markers and any child processes that outlived the last worker is, for each job, the `WorkerRestart` of the protocol |
| `JobControl.Control.EnterJob` | spatial-worker/job_control.py:27-37 | admission exactly when there is no marker and no active entry; takes the `Enter` step for this job and leaves every other job alone |
| `JobControl.Control.StartProcess` | spatial-worker/job_control.py:43-53 | a process is started exactly when the job is not cancelled; takes the `Spawn` step |
| `JobControl.Control.FinishProcess` | spatial-worker/job_control.py:54-62 | takes the `Reap` step once the process has ended |
| `JobControl.Control.LeaveJob` | spatial-worker/job_control.py:38-41 | takes the `Leave` step |
| `JobControl.Control.BeginCancel` | spatial-worker/job_control.py:84-99 | the marker is durable before the entry is read; takes the `Bury` step |
| `JobControl.Control.EndCancel` | spatial-worker/job_control.py:100-104 | a receipt exactly when the entry it saw is done, otherwise the timeout |
| `RuntimeLease.AtMostOneHolder` | src/runtime/runtimeLease.ts:44-72 | for any number of processes racing, dying and reclaiming, at most one live process holds the lease and the file names it, if every confirmed judgement meets the condition of `JudgementIsSafeIff` |
| `RuntimeLease.JudgementIsSafeIff` | src/runtime/runtimeLease.ts:61-68 | a confirmed judgement keeps the lease exclusive in every continuation if and only if the file then names a dead process; it does whenever it still names the owner judged |
| `RuntimeLease.StaleJudgementEvicts` | src/runtime/runtimeLease.ts:61-68 | from every other confirmed judgement there is a continuation with two live holders, or one the file does not name |
| `RuntimeLease.EvictionIsReachable` | src/runtime/runtimeLease.ts:52-69 | such a judgement is reached from a start with a dead lease and two contenders |
| `RuntimeLease.RunKeeps` | src/runtime/runtimeLease.ts:44-72 | every step keeps the lease and the reclaim guard with one owner each |
| `CaptureStore.SweepSparesOwned` | src/captures/captureStore.ts:640-687 | in every interleaving of uploads, creates, commits, discards and sweeps, no directory being removed as unclaimed belongs to a live draft, a create in progress or a stored capture |
| `CaptureStore.OneReplicaPerLocalCapture` | src/captures/captureStore.ts:428-573 | in every reachable state a local capture has at most one stored replica |
| `CaptureStore.RetiredOnlyByReplacement` | src/captures/captureStore.ts:538-573 | a record disappears, other than by a delete, only in the state write that installs an inspected replacement of the same local capture, was read as damaged, and no active job reads it |
| `CaptureStore.ReplicaNeverLost` | src/captures/captureStore.ts:538-573 | a local capture that has a replica keeps one through every step but a delete |
| `CaptureStore.ReplacementIsReachable` | src/captures/captureStore.ts:442-573 | two uploads of one local capture reach a replacement, which leaves exactly the new record |
| `CaptureStore.DiscardIsSafeIff` | src/captures/captureStore.ts:581-596 | a discard spares owned directories in every continuation if and only if no commit of that draft is between its recheck and its state write |
| `CaptureStore.OverlapStrands` | src/captures/captureStore.ts:581-596 | from every other discard there is a continuation in which the sweep removes a stored capture's directory |
| `CaptureStore.OverlapIsReachable` | src/captures/captureStore.ts:428-596 | such a discard is reached from a fresh store |
| `DraftPaths.AcceptedStaysInside` | src/captures/captureStore.ts:74-78 | a path the check lets through names a place below the draft's directory, by proper names only |
| `DraftPaths.NormalIsUnique` | src/captures/captureStore.ts:368-374 | texts that are the join of their own names name one file only if they are equal |
| `DraftPaths.DoubledSlash` | src/captures/captureStore.ts:74-78 | `a/b` and `a//b` are both accepted as they are and name one file |
| `DraftPaths.ReservedNames` | src/captures/captureStore.ts:74-78 | the marker's and the manifest's names are accepted from a client |
| `DraftAccounting.DraftEntry.Write` | src/captures/captureStore.ts:361-417 | a write stores the bytes where the path leads and lists them under its text, or changes nothing but the marker; the verdict is the ceilings'; size, count and both ceilings stay exact |
| `DraftAccounting.Receive` | src/captures/captureStore.ts:383-403 | the chunk loop stops at the first ceiling crossed and keeps the bytes otherwise |
| `DraftAccounting.JudgeIff` | src/captures/captureStore.ts:383-403 | chunk by chunk checking accepts exactly the bodies within both ceilings as a whole |
| `DraftAccounting.DraftEntry.Drain` | src/captures/captureStore.ts:339-359 | queued uploads of any outcome leave the file map of their replay in queue order |
| `DraftAccounting.LastWriteWins` | src/captures/captureStore.ts:339-417 | each path holds its last stored write |
| `DraftAccounting.OthersUntouched` | src/captures/captureStore.ts:339-417 | failed writes and writes elsewhere change nothing at a path |
| `DraftAccounting.DraftEntry.Reconcile` | src/captures/captureStore.ts:705-731 | exactly the files gone from disk leave the map, and size and count follow |
| `DraftReconcile.AccountingStaysRight` | src/captures/captureStore.ts:339-417 | in every interleaving of queued uploads, marker writes, resumes and commits, whose drops are undisturbed and whose renames are clear, the size is the sum over the file map, both ceilings hold, the count is right, every entry tells what is on disk, and every file on disk but the node's own is listed with its size |
| `DraftReconcile.PlainAccountingStaysRight` | src/captures/captureStore.ts:361-417 | renames need no condition if every path sent is the join of its own names and is not one of the node's |
| `DraftReconcile.RenameIsSafeIff` | src/captures/captureStore.ts:361-417 | the rename that ends an upload keeps that true in every continuation if and only if its file is not the marker or the manifest and no other listed text names it |
| `DraftReconcile.UnclearRenameBreaks` | src/captures/captureStore.ts:368-417 | from every other rename the accounting breaks, at once or at the node's next write of its own file |
| `DraftReconcile.SharedFileIsListedTwice` | src/captures/captureStore.ts:361-417 | from an empty draft, any two texts of one file leave one file that is listed and counted twice |
| `DraftReconcile.DoubledSlashIsListedTwice` | src/captures/captureStore.ts:361-417 | `a/b` and `a//b` do |
| `DraftReconcile.MarkerUploadIsReplaced` | src/captures/captureStore.ts:81-95 | from an empty draft, a file sent under the marker's name is replaced by the marker and stays listed with the size sent |
| `DraftReconcile.ManifestUploadIsReplaced` | src/captures/captureStore.ts:533-540 | so is one sent under the manifest's name, by a commit whose state write fails |
| `DraftReconcile.DropIsSafeIff` | src/captures/captureStore.ts:705-745 | a drop keeps that true in every continuation if and only if the entry is as it was copied, its file is still gone and no write to it has begun |
| `DraftReconcile.DisturbedDropBreaks` | src/captures/captureStore.ts:705-745 | from every other drop the accounting breaks, at once or when the write ends |
| `DraftReconcile.UndisturbedStays` | src/captures/captureStore.ts:705-721 | only the start of a write to the path, a rename onto its file under any text, or another reconcile's drop of it, disturbs a drop |
| `DraftReconcile.UploadDuringResume` | src/captures/captureStore.ts:733-745 | from an empty draft, a run in which a file sent again during a resume leaves the list though it is on disk; the total is right exactly when the sizes agree |
| `DraftReconcile.TwoResumes` | src/captures/captureStore.ts:733-745 | from an empty draft, a run in which two resumes take one size off twice |
| `DraftAccounting.TotalPut` | src/captures/captureStore.ts:405-417 | replacing an entry moves the total by the difference of the two sizes |
| `ProviderCleanup.CompleteMeansPlaintextGone` | src/compute/providerCleanup.ts:138-209 | in every run of the cleanup and the whole job system together, a journal that says `complete` means the decrypted directory and the capture record are gone and no preparation can act; if no client's create call comes late into a release, also that no local job on the capture, whoever made it, has a worker process alive or able to start |
| `ProviderCleanup.ReachedJournalNeverReverts` | src/compute/providerCleanup.ts:41-118 | from any point of any run, `requested`, `complete`, the input and a settled pin never revert and nothing decrypted comes back |
| `ProviderCleanup.NoPreparationAfterRequest` | src/compute/providerCleanup.ts:82-107 | once a request is durable no preparation starts and none under way begins its next operation |
| `ProviderCleanup.PinReleasedOnlyAfterComplete` | src/compute/providerCleanup.ts:208-228 | the input pin loses this owner only when the journal already says `complete` |
| `ProviderCleanup.RemovalIsUndisturbed` | src/compute/providerCleanup.ts:161-191 | when the directory is removed nothing is writing beneath it and, under the same condition, no local job on it has a worker process alive or able to start |
| `ProviderCleanup.FinishIsSafeIff` | src/compute/providerCleanup.ts:161-209 | the write of `complete` leaves every job on the capture quiescent in every continuation if and only if they all are then and no create call on it is under way |
| `ProviderCleanup.LateJobIsReachable` | src/compute/providerCleanup.ts:161-198 | from a stored input, a client's job that joins after the listing, and a release that comes to its last write |
| `ProviderCleanup.LateJobRunsAfterComplete` | src/localApi/dispatch.ts:513-523 | from there `complete` is written and the worker can still let the job in |
| `ProviderCleanup.QuietJobStep` | src/jobs/jobRuntime.ts:120-129 | whatever node, worker and messages do, the jobs a release has found quiescent stay so |
| `ProviderCleanup.JobStepKeeps` | src/jobs/jobRuntime.ts:142-203 | every step of the job system, of the preparation's own job and of other clients' create calls keeps the cleanup's invariant |
| `ProviderCleanup.StepKeeps` | src/compute/remoteComputeRuntime.ts:469-491 | every step of preparation, release and journal, a crash included, keeps the invariant |
| `LocalStore.Store.Update` | src/state/localStore.ts:184-204 | an update joins the queue; settled and waiting updates together are the submitted ones in order |
| `LocalStore.Store.Begin` | src/state/localStore.ts:189-191 | the oldest update starts from the last committed document |
| `LocalStore.Store.Mutate` | src/state/localStore.ts:192-195 | a throwing callback fails its update and changes neither file nor memory |
| `LocalStore.Store.AtomicWrite` | src/state/localStore.ts:222-234 | the file is the whole next document or the old one |
| `LocalStore.Store.CommitToMemory` | src/state/localStore.ts:197-202 | memory becomes the document just written |
| `LocalStore.Store.Crash` | src/state/localStore.ts:184-234 | a crash loses the queue and memory and nothing that was renamed into place |
| `LocalStore.Store.Load` | src/state/localStore.ts:154-178 | memory becomes what the file recovers to; a read-only store refuses an unreadable file and leaves it; beside a running transaction the store still follows the reference if and only if the file reads back as the document that transaction works from or has written |
| `LocalStore.Store.ReloadIsHarmless` | src/state/localStore.ts:154-178 | it does so whenever that document has every default key and the current version |
| `LocalStore.Store.Snapshot` | src/state/localStore.ts:180-182 | a snapshot is the reference's memory after a whole number of events, all but perhaps the commit under way, never a candidate |
| `LocalStore.Store.MemoryMatchesFile` | src/state/localStore.ts:180-204 | between rename and commit aside, memory agrees with the file |
| `LocalStore.MemoryIsDurable` | src/state/localStore.ts:154-204 | after every history memory agrees with the durable file |
| `LocalStore.Store.OnlySuccessesCount` | src/state/localStore.ts:184-204 | what is on disk and in memory is the outcome of the updates that succeeded, in order, and of nothing else |
| `LocalStore.CommitSurvivesCrash` | src/state/localStore.ts:154-178 | after commit, crash and load the committed document is back with defaults filled in, if and only if the mutator left the version alone; otherwise the defaults are |
| `Crc32.TableStep` | src/webrtc/frameCodec.ts:174-194 | one table lookup equals eight bit steps |
| `Crc32.FeedIsOneWord` | src/webrtc/frameCodec.ts:186-194 | feeding bytes equals one exclusive-or with their little-endian number and eight bit steps a byte |
| `Crc32.FeedInjective` | src/webrtc/frameCodec.ts:186-194 | for a fixed tail the register map is injective and stays in 32 bits |
| `Crc32.ChecksumDetects` | src/webrtc/frameCodec.ts:170-199 | two bodies of equal length that differ only inside four consecutive bytes have different checksums |
| `Crc32.Crc.constructor` | src/webrtc/frameCodec.ts:170-184 | the table loop fills all 256 entries with eight bit steps each |
| `Crc32.Crc.Add` | src/webrtc/frameCodec.ts:186-194 | the byte loop computes the bitwise register |
| `FrameCodec.DecodeLayout` | src/webrtc/frameCodec.ts:86-144 | decoding undoes the header layout |
| `FrameCodec.LayoutDecode` | src/webrtc/frameCodec.ts:112-144 | every accepted byte string is the layout of what it decodes to, so each frame has one encoding |
| `FrameCodec.FrameRoundTrip` | src/webrtc/frameCodec.ts:86-157 | every frame that encodes decodes to itself, up to the masked flags and request id |
| `FrameCodec.EncodeFrame` | src/webrtc/frameCodec.ts:86-110 | filling the buffer field by field gives the layout, and both limits are enforced |
| `FrameCodec.ChunksResume` | src/webrtc/frameCodec.ts:220-231 | cutting can stop at any byte and resume with the remainder |
| `FrameCodec.SplitIntoFrames` | src/webrtc/frameCodec.ts:210-240 | the frames depend only on the concatenated body, not on how it arrives |
| `FrameCodec.OnlyLastIsFinal` | src/webrtc/frameCodec.ts:210-240 | all frames but the last are full and not final; the last is shorter and final |
| `FrameCodec.ChunkReassembler.Append` | src/webrtc/frameCodec.ts:264-277 | bytes count before the limit is checked and are kept exactly when it holds |
| `FrameCodec.ChunkReassembler.Verify` | src/webrtc/frameCodec.ts:279-291 | acceptance exactly when the declared length and checksum, where present, are those of the body |
| `FrameCodec.ChunkReassembler.Take` | src/webrtc/frameCodec.ts:297-299 | the result has the counted length and starts with the kept bytes |
| `FrameCodec.Wire` | src/webrtc/frameCodec.ts:86-157 | a frame within the limits crosses the wire as its canonical self; any other is refused |
| `FrameCodec.ReceiveFinal` | src/webrtc/frameCodec.ts:264-291 | the final frame crosses the wire, completes the body and verifies |
| `FrameCodec.Transfer` | src/webrtc/frameCodec.ts:210-300 | for every body, every buffering of it and every chunk size up to 64 KiB, split, encode, decode, append, verify and take give the body back |
| `FrameCodec.DamageIsRejected` | src/webrtc/frameCodec.ts:279-291 | a body damaged inside four consecutive bytes does not verify |
| `FrameCodec.WrongLengthIsRejected` | src/webrtc/frameCodec.ts:279-291 | a body of another length does not verify |
| `Idempotency.NormalizeKey` | src/localApi/idempotencyStore.ts:87-94 | a key is accepted exactly when its length and characters fit, and is never altered |
| `Idempotency.OneRememberedSuccess` | src/localApi/idempotencyStore.ts:113-176 | in a legal life at most one success is remembered, and every later use is refused or answered with exactly it |
| `Idempotency.ReplayHasSource` | src/localApi/idempotencyStore.ts:135-138 | what is replayed was remembered before |
| `Idempotency.ConcurrentUseIsRefused` | src/localApi/idempotencyStore.ts:125-134 | while a claim is unsettled the key is neither claimed again nor answered |
| `Idempotency.Store.RememberedOnce` | src/localApi/idempotencyStore.ts:113-176 | the same of the table's own log, for every key never dropped by age or capacity |
| `Idempotency.Store.Begin` | src/localApi/idempotencyStore.ts:113-146 | unkeyed, claimed, in flight, reused for another operation or replayed, exactly by what the table holds after expiry; a claiming call leaves the table within its capacity |
| `Idempotency.Store.Settle` | src/localApi/idempotencyStore.ts:149-174 | a small JSON success is remembered in its old place or at the end; anything else frees the key; the key's history stays a legal life if and only if the handle was not settled before, the key was once dropped, or there is nothing left to free |
| `Idempotency.SecondSettleBreaks` | src/localApi/idempotencyStore.ts:149-174 | any other second settle makes the history of its key illegal |
| `Idempotency.Store.EvictExpired` | src/localApi/idempotencyStore.ts:195-200 | exactly the entries at or past the cutoff go, the order of the rest is kept |
| `Idempotency.Store.EnforceCapacity` | src/localApi/idempotencyStore.ts:202-208 | the oldest entries go until the table fits, and no more |
| `PoseConversion.RotationIsProper` | src/spatial/poseConversion.ts:60-94 | every non-zero quaternion gives a matrix with orthonormal rows and columns and determinant one |
| `PoseConversion.DegenerateIff` | src/spatial/poseConversion.ts:66-69 | only the zero quaternion is refused |
| `PoseConversion.ScaleInvariant` | src/spatial/poseConversion.ts:70-94 | scaling the quaternion by any non-zero factor, negative ones included, does not change the matrix |
| `PoseConversion.ProductIsComposition` | src/spatial/poseConversion.ts:60-94 | the product of quaternions gives the product of matrices |
| `PoseConversion.RotatesByConjugation` | src/spatial/poseConversion.ts:79-93 | the matrix turns a vector as conjugation by the unit quaternion does |
| `PoseConversion.PoseIsRigid` | src/spatial/poseConversion.ts:97-107 | the camera-to-world matrix puts the camera's centre at the translation, moves every point to its rotated self plus the translation, and keeps all distances |

## Left out

- ManagedPins.PinnedRecordsArePinned: holds of runs whose reconcile turns find no open release, because the code does not re-read the record; `TurnIsSafeIffHarmless` gives the exact condition. It assumes nobody but this node unpins.
- ManagedPins.UnpinIsJustified: speaks of the answer the record holds, under the same condition on turns.
- UnpinEvidence.LatestProbeReadAbsence: holds of runs that lose no answer to harm, by the condition of `LossIsSafeIffHarmless`.
- RuntimeLease.AtMostOneHolder: holds of runs whose confirmed judgements meet the condition of `JudgementIsSafeIff`. Each holder releases once; a second release of the same handle is not modelled. Process identity (`provenStopped`) is an oracle that is true only of the dead.
- CaptureStore.SweepSparesOwned: holds of runs in which no discard of a draft overlaps its commit, by the condition of `DiscardIsSafeIff`. `delete` is one step, so its race with job creation is not covered; `registerRemote` and `removeRemote` are not modelled.
- JobSystem.CompleteMeansQuiescentForever: SIGKILL is taken to end a process, and safety only is claimed; after a worker restart a cleanup can stay blocked.
- JobSystem.DispatchPass: requires that the loop ends, by the condition of `DispatchEndsIff`.
- DraftAccounting.DraftEntry.Reconcile: the loop with nothing in between; `DraftReconcile` has its awaits.
- DraftReconcile.AccountingStaysRight: holds of runs whose drops are undisturbed and whose renames are clear, by the conditions of `DropIsSafeIff` and `RenameIsSafeIff`. An outside hand removes files and does not shorten them; a request's own size limit, and a path whose parent is a file or which ends in a slash, are ways a write may fail. Paths are POSIX paths on a case-sensitive file system, and temporary files are not shown.
- FrameCodec.Transfer: the JSON of the final frame is taken to fit its 16 KiB limit and JSON parsing to undo printing; `verify` is applied to bodies within the receiver's limit.
- LocalStore.Store.Load: its read and its assignment are one step, so an update that commits between them is not modelled; the node loads at start-up and inside a transaction only. The read-only flag is fixed. Detaching a document from references a callback kept is not visible, since documents are values.
- Idempotency.Store.Settle: `RememberedOnce` needs the condition stated there. It does not enforce the capacity, as the code does not, so a success that settles after its entry was dropped can exceed it by one entry each.
- PoseConversion.RotationIsProper: over the reals with an exact square root, so IEEE rounding and non-finite inputs are not covered.
- The step machines work on values, one action per stretch between awaits: update in place and object aliasing inside one stretch are not captured there.
- The two parsers of content identifiers, hashes, locale collation and JSON text are parameters; the wanted set of `reconcileDesiredPins` is a set of pairs instead of text joined by a bar.
- ProviderCleanup.CompleteMeansPlaintextGone: what it says of workers holds of runs in which no create call on the capture is under way at the listing or begins before `complete`; `FinishIsSafeIff` gives the exact condition at the write. It covers one remote job, over any state the job system can have; a requester record written under the same id is not modelled.
- ProviderCleanup.RemovalIsUndisturbed: its second part holds under the same condition on runs.
- ArchivePlan.PlanIsChosenInOrder: the order part holds for lists without inherited names, by the condition of `NameIsSafeIff`. The runtime's sort is a parameter of which only what the language promises is used.
- ArchivePins.Ledger.ReconcileDesired: a caller that never gets the lock of an identifier counts as one that throws.
- HTTP, WebRTC, Socket.IO, the GUI and the backend client: transport wrappers.
- `src/webrtc/channelServer.ts`: its in-flight table reuses ids, so there is no one-reply-per-request statement to prove.
- Cryptography, gzip and CID parsing: opaque here.
- `src/captures/capturePackage.ts`: inspection is a predicate on a directory.
- Rate limits, analytics, participation leases, backoff, the scheduler, environment parsing, the installer and presentation: they would only add easier members.
