/**
 * Job admission, cancellation and worker quiescence.
 *
 * Two processes and their delayed messages: the node (`src/jobs/jobRuntime.ts`,
 * `src/jobs/jobCleanup.ts`) and the GPU worker (`spatial-worker/job_control.py`,
 * `spatial-worker/server.py`). One step per stretch between awaits on the node
 * and per lock section on the worker. Requests and receipts stay in flight
 * forever, so they can arrive late, repeatedly, or at a restarted worker. Either
 * side can crash at any moment; processes of a crashed worker may live on.
 */
module JobSystem {
  import opened Wrappers

  type Instance = nat   // a worker life; WORKER_INSTANCE_ID is drawn anew at each start

  datatype JobId = JobId(text: string)
  datatype CaptureId = CaptureId(text: string)
  datatype JobType = Reconstruct | Optimize | GeneratePreview
  datatype JobState = Queued | Running | Completed | Failed | Cancelled

  // ----- The worker's side of one job -----

  datatype Process = Process(instance: Instance, pid: nat)

  /** An entry of `JobControl.active`. */
  datatype Item = Item(serial: nat, process: Option<Process>)

  datatype Worker = Worker(
    tombstone: bool,                // the `.cancelled` marker, durable
    active: Option<Item>,
    waits: set<Option<nat>>,        // cancel calls past their lock section: the item each one waits for
    alive: set<Process>,            // live worker processes of this job
    next: nat)                     // next serial or pid

  datatype WorkerStep =
    | Enter                         // job(): the request is admitted
    | Spawn                         // run(): check and Popen, under the lock
    | Exit(process: Process)        // a process ends by itself or is killed
    | Reap                          // run(): the process has been waited for
    | Leave                         // job(): done is set and the entry removed
    | Bury                          // cancel(): tombstone written, item read
    | Acknowledge(wait: Option<nat>) // cancel(): the item is done, the receipt is returned
    | GiveUp(wait: Option<nat>)      // cancel(): the wait timed out

  predicate WorkerEnabled(k: Worker, step: WorkerStep) {
    match step
    case Enter => !k.tombstone && k.active.None?
    case Spawn => !k.tombstone && k.active.Some? && k.active.value.process.None?
    case Exit(p) => p in k.alive
    case Reap => k.active.Some? && k.active.value.process.Some? && k.active.value.process.value !in k.alive
    case Leave => k.active.Some? && k.active.value.process.None?
    case Bury => true
    case Acknowledge(wait) =>
      wait in k.waits && (wait.Some? ==> k.active.None? || k.active.value.serial != wait.value)
    case GiveUp(wait) => wait in k.waits
  }

  function WorkerApply(instance: Instance, k: Worker, step: WorkerStep): Worker
    requires WorkerEnabled(k, step)
  {
    match step
    case Enter => k.(active := Some(Item(k.next, None)), next := k.next + 1)
    case Spawn =>
      var p := Process(instance, k.next);
      k.(active := Some(k.active.value.(process := Some(p))), alive := k.alive + {p}, next := k.next + 1)
    case Exit(p) => k.(alive := k.alive - {p})
    case Reap => k.(active := Some(k.active.value.(process := None)))
    case Leave => k.(active := None)
    case Bury =>
      k.(tombstone := true, waits := k.waits + {if k.active.None? then None else Some(k.active.value.serial)})
    case Acknowledge(wait) => k.(waits := k.waits - {wait})
    case GiveUp(wait) => k.(waits := k.waits - {wait})
  }

  /** The worker process dies: its memory is gone, markers and orphaned processes stay. */
  function WorkerRestart(k: Worker): Worker {
    k.(active := None, waits := {})
  }

  // ----- The node's side of one job -----

  datatype Journal = NoJournal | Journal(state: JournalState, attempt: Option<Instance>)
  datatype JournalState = Pending | Blocked | Complete

  /** Where `run` stands; a stretch per await. */
  datatype RunStage =
    | NoRun
    | Checking
    | Owning
    | AskingHealth
    | Starting(instance: Instance)
    | Preparing(instance: Instance)
    | Marking(instance: Instance)
    | Sending(instance: Instance)
    | Processing
    | Catching
    | Finishing

  /** Where `JobCleanup.release` stands. */
  datatype ReleaseStage =
    | NoRelease
    | SendingCancel(instance: Instance)
    | AwaitingReceipt(instance: Instance)
    | RemovingFiles
    | Completing
    | Blocking

  datatype Job = Job(
    kind: JobType,
    capture: CaptureId,
    state: JobState,                // durable
    journal: Journal,               // durable
    run: RunStage,
    release: ReleaseStage,
    requests: set<Instance>,        // process requests in flight, by the worker life they address
    cancels: set<Instance>,         // cancel requests in flight
    receipts: set<Instance>,        // quiescence receipts in flight
    worker: Worker)

  datatype Step =
    | Cancel(ok: bool)
    | CheckDone
    | Own(ok: bool)
    | HealthReplied(instance: Instance)
    | PatchRunning(ok: bool)
    | Ready
    | Mark(ok: bool)
    | Send
    | PatchCompleted(ok: bool)
    | Throw
    | PatchFailed(ok: bool)
    | Finish
    | BeginRelease
    | SendCancel
    | TakeReceipt
    | ReleaseThrows
    | RemoveFiles
    | WriteComplete(ok: bool)
    | WriteBlocked(ok: bool)
    | AtWorker(step: WorkerStep)

  predicate Terminal(s: JobState) { s == Completed || s == Failed || s == Cancelled }

  predicate CanThrow(r: RunStage) {
    r.Checking? || r.Owning? || r.AskingHealth? || r.Starting? || r.Preparing? || r.Marking? || r.Processing?
  }

  predicate JobEnabled(now: Instance, j: Job, step: Step) {
    match step
    case Cancel(_) => true
    case CheckDone => j.run.Checking?
    case Own(_) => j.run.Owning?
    case HealthReplied(i) => j.run.AskingHealth? && i <= now
    case PatchRunning(_) => j.run.Starting?
    case Ready => j.run.Preparing?
    case Mark(_) => j.run.Marking?
    case Send => j.run.Sending?
    case PatchCompleted(_) => j.run.Processing?
    case Throw => CanThrow(j.run)
    case PatchFailed(_) => j.run.Catching?
    case Finish => j.run.Finishing?
    case BeginRelease => j.release.NoRelease? && j.journal.Journal? && j.journal.state != Complete && Terminal(j.state)
    case SendCancel => j.release.SendingCancel?
    case TakeReceipt => j.release.AwaitingReceipt? && j.release.instance in j.receipts
    case ReleaseThrows => !j.release.NoRelease? && !j.release.Blocking?
    case RemoveFiles => j.release.RemovingFiles?
    case WriteComplete(_) => j.release.Completing?
    case WriteBlocked(_) => j.release.Blocking?
    case AtWorker(ws) =>
      && WorkerEnabled(j.worker, ws)
      && (ws.Enter? ==> now in j.requests)
      && (ws.Bury? ==> now in j.cancels)
  }

  function JobApply(now: Instance, j: Job, step: Step): Job
    requires JobEnabled(now, j, step)
  {
    match step
    case Cancel(ok) => if ok && !Terminal(j.state) then j.(state := Cancelled) else j
    case CheckDone => j.(run := if j.state == Cancelled then Finishing else Owning)
    case Own(ok) =>
      if ok && j.journal.NoJournal? then j.(journal := Journal(Pending, None), run := AskingHealth)
      else j.(run := Catching)
    case HealthReplied(i) => j.(run := if j.state == Cancelled then Finishing else Starting(i))
    case PatchRunning(ok) =>
      if ok && j.state != Cancelled then j.(state := Running, run := Preparing(j.run.instance))
      else j.(run := Catching)
    case Ready => j.(run := if j.state == Cancelled then Finishing else Marking(j.run.instance))
    case Mark(ok) =>
      if ok && j.journal.Journal? && j.journal.state != Complete
      then j.(journal := j.journal.(attempt := Some(j.run.instance)), run := Sending(j.run.instance))
      else j.(run := Catching)
    case Send =>
      if j.state == Cancelled then j.(run := Finishing)
      else j.(requests := j.requests + {j.run.instance}, run := Processing)
    case PatchCompleted(ok) =>
      if ok && j.state != Cancelled then j.(state := Completed, run := Finishing) else j.(run := Catching)
    case Throw => j.(run := Catching)
    case PatchFailed(ok) =>
      if ok && j.state != Cancelled then j.(state := Failed, run := Finishing) else j.(run := Finishing)
    case Finish => j.(run := NoRun)
    case BeginRelease =>
      j.(release := if j.journal.attempt.Some? then SendingCancel(j.journal.attempt.value) else RemovingFiles)
    case SendCancel => j.(cancels := j.cancels + {j.release.instance}, release := AwaitingReceipt(j.release.instance))
    case TakeReceipt => j.(release := RemovingFiles)
    case ReleaseThrows => j.(release := Blocking)
    case RemoveFiles => j.(release := Completing)
    case WriteComplete(ok) =>
      if ok && j.journal.Journal? then j.(journal := j.journal.(state := Complete), release := NoRelease)
      else j.(release := if ok then NoRelease else Blocking)
    case WriteBlocked(ok) =>
      if ok && j.journal.Journal? then j.(journal := j.journal.(state := Blocked), release := NoRelease)
      else j.(release := NoRelease)
    case AtWorker(ws) =>
      var j2 := j.(worker := WorkerApply(now, j.worker, ws));
      if ws.Acknowledge? then j2.(receipts := j.receipts + {now}) else j2
  }

  function NewJob(kind: JobType, capture: CaptureId): Job {
    Job(kind, capture, Queued, NoJournal, NoRun, NoRelease, {}, {}, {}, Worker(false, None, {}, {}, 0))
  }

  // ----- The system: any number of jobs, one worker, concurrency one -----

  datatype System = System(jobs: map<JobId, Job>, now: Instance, started: bool)

  datatype Action =
    | Insert(id: JobId, kind: JobType, capture: CaptureId)
    | Dispatch(id: JobId)
    | At(id: JobId, step: Step)
    | RestartWorker
    | CrashNode
    | StartNode

  predicate Active(s: JobState) { s == Queued || s == Running }

  predicate ActiveOn(j: Job, c: CaptureId) { j.kind == Reconstruct && j.capture == c && Active(j.state) }

  predicate ActiveReconstruction(jobs: map<JobId, Job>, c: CaptureId) {
    exists id :: id in jobs && ActiveOn(jobs[id], c)
  }

  predicate Idle(jobs: map<JobId, Job>) {
    forall id :: id in jobs ==> jobs[id].run.NoRun?
  }

  predicate Enabled(s: System, a: Action) {
    match a
    case Insert(id, _, _) => s.started && id !in s.jobs
    case Dispatch(id) => s.started && Idle(s.jobs) && id in s.jobs && s.jobs[id].state == Queued
    case At(id, step) =>
      id in s.jobs && JobEnabled(s.now, s.jobs[id], step) && (step.Cancel? || step.BeginRelease? ==> s.started)
    case RestartWorker => true
    case CrashNode => true
    case StartNode => !s.started
  }

  function Crashed(j: Job): Job { j.(run := NoRun, release := NoRelease) }

  /** `start`: what was running, or queued with a journal, was interrupted. */
  function Recovered(j: Job): Job {
    if j.state == Running || (j.state == Queued && j.journal.Journal?) then j.(state := Failed) else j
  }

  function Apply(s: System, a: Action): System
    requires Enabled(s, a)
  {
    match a
    case Insert(id, kind, capture) =>
      if kind == Reconstruct && ActiveReconstruction(s.jobs, capture) then s
      else s.(jobs := s.jobs[id := NewJob(kind, capture)])
    case Dispatch(id) => s.(jobs := s.jobs[id := s.jobs[id].(run := Checking)])
    case At(id, step) => s.(jobs := s.jobs[id := JobApply(s.now, s.jobs[id], step)])
    case RestartWorker =>
      s.(jobs := map id | id in s.jobs :: s.jobs[id].(worker := WorkerRestart(s.jobs[id].worker)), now := s.now + 1)
    case CrashNode => s.(jobs := map id | id in s.jobs :: Crashed(s.jobs[id]), started := false)
    case StartNode => s.(jobs := map id | id in s.jobs :: Recovered(s.jobs[id]), started := true)
  }

  predicate Run(s: System, acts: seq<Action>, s2: System)
    decreases |acts|
  {
    if acts == [] then s == s2
    else Enabled(s, acts[0]) && Run(Apply(s, acts[0]), acts[1..], s2)
  }

  predicate Initial(s: System) { s.jobs == map[] && !s.started }

  // ----- The invariant of one job -----

  /** `run` has not yet decided whether to send the process request. */
  predicate BeforeSend(r: RunStage) {
    r.Checking? || r.Owning? || r.AskingHealth? || r.Starting? || r.Preparing? || r.Marking? || r.Sending?
  }

  /** No worker process lives, and no step can bring one to life. */
  predicate Sealed(j: Job) {
    && j.worker.alive == {} && j.worker.active.None?
    && Terminal(j.state)
    && (j.worker.tombstone || (j.requests == {} && (BeforeSend(j.run) ==> j.state == Cancelled)))
  }

  predicate WorkerInv(now: Instance, k: Worker) {
    && (forall p :: p in k.alive ==> p.pid < k.next && p.instance <= now)
    && (k.active.Some? ==> k.active.value.serial < k.next)
    && (forall p :: p in k.alive && p.instance == now ==> k.active.Some? && k.active.value.process == Some(p))
    && (forall wait :: wait in k.waits ==>
          k.tombstone && (k.active.None? || (wait.Some? && k.active.value.serial == wait.value)))
  }

  predicate RunInv(j: Job) {
    match j.run
    case AskingHealth => j.journal.Journal? && j.journal.attempt.None?
    case Starting(_) => j.journal.Journal? && j.journal.attempt.None?
    case Preparing(_) => j.journal.Journal? && j.journal.attempt.None?
    case Marking(_) => j.journal.Journal? && j.journal.attempt.None?
    case Sending(i) => j.journal.Journal? && j.journal.attempt == Some(i) && j.requests == {}
    case _ => true
  }

  predicate ReleaseInv(j: Job)
    requires j.journal.Journal?
  {
    match j.release
    case NoRelease => true
    case SendingCancel(i) => Terminal(j.state) && j.journal.attempt == Some(i)
    case AwaitingReceipt(i) => Terminal(j.state) && j.journal.attempt == Some(i)
    case RemovingFiles => Sealed(j)
    case Completing => Sealed(j)
    case Blocking => true
  }

  predicate JobInv(now: Instance, j: Job) {
    && WorkerInv(now, j.worker)
    && RunInv(j)
    && (!j.release.NoRelease? ==> j.journal.Journal? && j.journal.state != Complete && ReleaseInv(j))
    && (BeforeSend(j.run) || j.run.Processing? || j.run.Catching? ==>
      j.state == Queued || j.state == Running || j.state == Cancelled)
    // every message addresses the one attempt the journal records
    && (forall i :: i in j.requests + j.cancels ==> j.journal.Journal? && j.journal.attempt == Some(i))
    && (j.worker.active.Some? || j.worker.alive != {} ==> j.requests != {})
    && (forall p :: p in j.worker.alive ==> p.instance in j.requests)
    && (j.worker.active.Some? ==> now in j.requests)
    && (j.worker.waits != {} ==> now in j.cancels)
    // a receipt is the end of this job at the worker
    && (j.receipts != {} ==> j.worker.tombstone && j.worker.active.None? && j.worker.alive == {})
    && (j.journal.Journal? && j.journal.state == Complete ==> Sealed(j))
  }

  ghost predicate Inv(s: System) {
    && (forall id :: id in s.jobs ==> JobInv(s.now, s.jobs[id]))
    && (!s.started ==> Idle(s.jobs))
    && AtMostOneReconstruction(s.jobs)
  }

  /** At most one queued or running reconstruction exists per capture. */
  ghost predicate AtMostOneReconstruction(jobs: map<JobId, Job>) {
    forall a, b, c :: a in jobs && b in jobs && ActiveOn(jobs[a], c) && ActiveOn(jobs[b], c) ==> a == b
  }

  lemma WorkerKeeps(now: Instance, k: Worker, step: WorkerStep)
    requires WorkerInv(now, k) && WorkerEnabled(k, step)
    ensures WorkerInv(now, WorkerApply(now, k, step))
  {
  }

  /** A receipt leaves the worker only when this job has nothing running there. */
  lemma AcknowledgedIsQuiet(now: Instance, j: Job, wait: Option<nat>)
    requires JobInv(now, j) && JobEnabled(now, j, AtWorker(Acknowledge(wait)))
    ensures j.worker.tombstone && j.worker.active.None? && j.worker.alive == {}
  {
    assert now in j.requests + j.cancels;
    assert forall p :: p in j.worker.alive ==> p.instance in j.requests + j.cancels;
    assert forall p :: p in j.worker.alive ==> p.instance == now;
  }

  lemma WorkerStepKeeps(now: Instance, j: Job, step: Step)
    requires JobInv(now, j) && JobEnabled(now, j, step) && step.AtWorker?
    ensures JobInv(now, JobApply(now, j, step))
  {
    WorkerKeeps(now, j.worker, step.step);
    if step.step.Acknowledge? { AcknowledgedIsQuiet(now, j, step.step.wait); }
  }

  predicate ReleaseStep(step: Step) {
    step.BeginRelease? || step.SendCancel? || step.TakeReceipt? || step.ReleaseThrows? || step.RemoveFiles?
    || step.WriteComplete? || step.WriteBlocked?
  }

  lemma NoAttemptIsQuiet(now: Instance, j: Job)
    requires JobInv(now, j) && j.journal.Journal? && j.journal.attempt.None?
    ensures j.requests == {} && j.worker.alive == {} && j.worker.active.None?
  {
    assert forall i :: i in j.requests ==> i in j.requests + j.cancels;
  }

  lemma ReleaseStepKeeps(now: Instance, j: Job, step: Step)
    requires JobInv(now, j) && JobEnabled(now, j, step) && ReleaseStep(step)
    ensures JobInv(now, JobApply(now, j, step))
  {
    if j.journal.Journal? && j.journal.attempt.None? { NoAttemptIsQuiet(now, j); }
  }

  /** The steps of `run` up to the start of the job. */
  predicate EarlyRunStep(step: Step) {
    step.CheckDone? || step.Own? || step.HealthReplied? || step.PatchRunning? || step.Ready?
  }

  predicate LateRunStep(step: Step) {
    step.Mark? || step.Send? || step.PatchCompleted?
  }

  lemma EarlyRunStepKeeps(now: Instance, j: Job, step: Step)
    requires JobInv(now, j) && JobEnabled(now, j, step) && EarlyRunStep(step)
    ensures JobInv(now, JobApply(now, j, step))
  {
  }

  lemma LateRunStepKeeps(now: Instance, j: Job, step: Step)
    requires JobInv(now, j) && JobEnabled(now, j, step) && LateRunStep(step)
    ensures JobInv(now, JobApply(now, j, step))
  {
  }

  lemma EndingStepKeeps(now: Instance, j: Job, step: Step)
    requires JobInv(now, j) && JobEnabled(now, j, step)
    requires step.Cancel? || step.Throw? || step.PatchFailed? || step.Finish?
    ensures JobInv(now, JobApply(now, j, step))
  {
  }

  lemma RunStepKeeps(now: Instance, j: Job, step: Step)
    requires JobInv(now, j) && JobEnabled(now, j, step) && !step.AtWorker? && !ReleaseStep(step)
    ensures JobInv(now, JobApply(now, j, step))
  {
    if EarlyRunStep(step) { EarlyRunStepKeeps(now, j, step); }
    else if LateRunStep(step) { LateRunStepKeeps(now, j, step); }
    else { EndingStepKeeps(now, j, step); }
  }

  lemma JobStepKeeps(now: Instance, j: Job, step: Step)
    requires JobInv(now, j) && JobEnabled(now, j, step)
    ensures JobInv(now, JobApply(now, j, step))
  {
    if step.AtWorker? { WorkerStepKeeps(now, j, step); }
    else if ReleaseStep(step) { ReleaseStepKeeps(now, j, step); }
    else { RunStepKeeps(now, j, step); }
  }

  lemma RestartKeeps(now: Instance, j: Job)
    requires JobInv(now, j)
    ensures JobInv(now + 1, j.(worker := WorkerRestart(j.worker)))
  {
  }

  lemma DispatchKeeps(now: Instance, j: Job)
    requires JobInv(now, j) && j.state == Queued && j.run.NoRun?
    ensures JobInv(now, j.(run := Checking))
  {
  }

  lemma CrashAndStartKeep(now: Instance, j: Job)
    requires JobInv(now, j)
    ensures JobInv(now, Crashed(j))
    ensures j.run.NoRun? ==> JobInv(now, Recovered(j))
  {
  }

  /** A step of a job never makes it active again, and leaves its capture alone. */
  lemma StepNeverReactivates(now: Instance, j: Job, step: Step)
    requires JobInv(now, j) && JobEnabled(now, j, step)
    ensures var j2 := JobApply(now, j, step);
            && j2.kind == j.kind && j2.capture == j.capture
            && (Terminal(j.state) ==> j2.state == j.state)
            && (j.journal.Journal? ==> j2.journal.Journal?)
            && (j.journal.Journal? && j.journal.state == Complete ==> j2.journal.state == Complete)
  {
  }

  /** What every step of the system keeps about one job. */
  predicate Persists(j: Job, j2: Job) {
    && j2.kind == j.kind && j2.capture == j.capture
    && (Terminal(j.state) ==> j2.state == j.state)
    && (j.journal.Journal? && j.journal.state == Complete ==> j2.journal.Journal? && j2.journal.state == Complete)
  }

  lemma StepKeepsJob(s: System, a: Action, id: JobId)
    requires Inv(s) && Enabled(s, a) && id in s.jobs
    ensures id in Apply(s, a).jobs && JobInv(Apply(s, a).now, Apply(s, a).jobs[id])
    ensures Persists(s.jobs[id], Apply(s, a).jobs[id])
  {
    var j := s.jobs[id];
    assert JobInv(s.now, j);
    match a
    case Insert(_, _, _) =>
    case Dispatch(target) => if id == target { DispatchKeeps(s.now, j); }
    case At(target, step) =>
      if id == target { JobStepKeeps(s.now, j, step); StepNeverReactivates(s.now, j, step); }
    case RestartWorker => RestartKeeps(s.now, j);
    case CrashNode => CrashAndStartKeep(s.now, j);
    case StartNode => CrashAndStartKeep(s.now, j);
  }

  lemma StepKeepsJobs(s: System, a: Action)
    requires Inv(s) && Enabled(s, a)
    ensures forall id :: id in Apply(s, a).jobs ==> JobInv(Apply(s, a).now, Apply(s, a).jobs[id])
    ensures forall id :: id in s.jobs ==> id in Apply(s, a).jobs && Persists(s.jobs[id], Apply(s, a).jobs[id])
  {
    forall id | id in s.jobs
      ensures id in Apply(s, a).jobs && JobInv(Apply(s, a).now, Apply(s, a).jobs[id])
      ensures Persists(s.jobs[id], Apply(s, a).jobs[id])
    {
      StepKeepsJob(s, a, id);
    }
  }

  lemma StepKeepsIdle(s: System, a: Action)
    requires Inv(s) && Enabled(s, a)
    ensures !Apply(s, a).started ==> Idle(Apply(s, a).jobs)
  {
    if a.At? && !s.started {
      assert s.jobs[a.id].run.NoRun?;
    }
  }

  /** A job active after the step was active before it, or has just been inserted. */
  lemma ActiveWasActive(s: System, a: Action, id: JobId, c: CaptureId)
    requires Inv(s) && Enabled(s, a) && id in Apply(s, a).jobs && ActiveOn(Apply(s, a).jobs[id], c)
    ensures (id in s.jobs && ActiveOn(s.jobs[id], c)) || (a.Insert? && a.id == id && !ActiveReconstruction(s.jobs, c))
  {
    if id in s.jobs { StepKeepsJob(s, a, id); }
  }

  /** Only an insertion makes a job active, and it asks first. */
  lemma StepKeepsAtMostOne(s: System, a: Action)
    requires Inv(s) && Enabled(s, a)
    ensures AtMostOneReconstruction(Apply(s, a).jobs)
  {
    var jobs := Apply(s, a).jobs;
    forall x, y, c | x in jobs && y in jobs && ActiveOn(jobs[x], c) && ActiveOn(jobs[y], c) ensures x == y {
      ActiveWasActive(s, a, x, c);
      ActiveWasActive(s, a, y, c);
    }
  }

  lemma {:induction false} RunKeeps(s: System, acts: seq<Action>, s2: System)
    requires Inv(s) && Run(s, acts, s2)
    ensures Inv(s2)
    ensures forall id :: id in s.jobs ==> id in s2.jobs && Persists(s.jobs[id], s2.jobs[id])
    decreases |acts|
  {
    if acts != [] {
      var s1 := Apply(s, acts[0]);
      StepKeepsJobs(s, acts[0]);
      StepKeepsIdle(s, acts[0]);
      StepKeepsAtMostOne(s, acts[0]);
      RunKeeps(s1, acts[1..], s2);
      forall id | id in s.jobs ensures id in s2.jobs && Persists(s.jobs[id], s2.jobs[id]) {
        assert id in s1.jobs && Persists(s.jobs[id], s1.jobs[id]);
      }
    }
  }

  // ----- Main results -----

  /** The journal of the job is marked complete. */
  predicate CleanupComplete(s: System, id: JobId) {
    id in s.jobs && s.jobs[id].journal.Journal? && s.jobs[id].journal.state == Complete
  }

  lemma CompleteIsSealed(now: Instance, j: Job)
    requires JobInv(now, j) && j.journal.Journal? && j.journal.state == Complete
    ensures j.worker.alive == {}
    ensures !JobEnabled(now, j, AtWorker(Spawn)) && !JobEnabled(now, j, AtWorker(Enter))
  {
  }

  /**
   * Once a job's journal says `complete`, no worker process of the job is alive
   * and none can start, then or in any later state, however late its request
   * arrives and whatever crashes or restarts in between.
   */
  lemma CompleteMeansQuiescentForever(s: System, acts: seq<Action>, s1: System, more: seq<Action>, s2: System,
    id: JobId)
    requires Initial(s) && Run(s, acts, s1) && CleanupComplete(s1, id) && Run(s1, more, s2)
    ensures CleanupComplete(s2, id)
    ensures s2.jobs[id].worker.alive == {}
    ensures !Enabled(s2, At(id, AtWorker(Spawn))) && !Enabled(s2, At(id, AtWorker(Enter)))
  {
    RunKeeps(s, acts, s1);
    RunKeeps(s1, more, s2);
    assert Persists(s1.jobs[id], s2.jobs[id]);
    CompleteIsSealed(s2.now, s2.jobs[id]);
  }

  /**
   * What a normal return of `ensureJobQuiescent` has read: the job is over, its run
   * has ended, and its journal is complete or was never opened.
   */
  predicate Quiescent(s: System, id: JobId) {
    id in s.jobs && QuiescentJob(s.jobs[id])
  }

  /** No worker process of the job lives and none can start now. */
  predicate NoWorker(s: System, id: JobId)
    requires id in s.jobs
  {
    && s.jobs[id].worker.alive == {}
    && !Enabled(s, At(id, AtWorker(Spawn))) && !Enabled(s, At(id, AtWorker(Enter)))
  }

  lemma QuiescentHasNoWorker(s: System, id: JobId)
    requires Inv(s) && Quiescent(s, id)
    ensures NoWorker(s, id)
  {
    var j := s.jobs[id];
    assert JobInv(s.now, j);
    if j.journal.NoJournal? {
      assert forall i :: i in j.requests ==> i in j.requests + j.cancels;
      assert j.requests == {};
    }
  }

  predicate QuiescentJob(j: Job) {
    Terminal(j.state) && j.run.NoRun? && (j.journal.NoJournal? || j.journal.state == Complete)
  }

  lemma JobStepKeepsQuiescent(now: Instance, j: Job, step: Step)
    requires JobInv(now, j) && JobEnabled(now, j, step) && QuiescentJob(j)
    ensures QuiescentJob(JobApply(now, j, step))
  {
  }

  lemma StepKeepsQuiescent(s: System, a: Action, id: JobId)
    requires Inv(s) && Enabled(s, a) && Quiescent(s, id)
    ensures Quiescent(Apply(s, a), id)
  {
    var j := s.jobs[id];
    assert JobInv(s.now, j) && QuiescentJob(j);
    if a.At? && a.id == id { JobStepKeepsQuiescent(s.now, j, a.step); }
    assert id in Apply(s, a).jobs && QuiescentJob(Apply(s, a).jobs[id]);
  }

  lemma StepKeepsInv(s: System, a: Action)
    requires Inv(s) && Enabled(s, a)
    ensures Inv(Apply(s, a))
  {
    StepKeepsJobs(s, a);
    StepKeepsIdle(s, a);
    StepKeepsAtMostOne(s, a);
  }

  lemma {:induction false} RunKeepsQuiescent(s: System, acts: seq<Action>, s2: System, id: JobId)
    requires Inv(s) && Run(s, acts, s2) && Quiescent(s, id)
    ensures Inv(s2) && Quiescent(s2, id)
    decreases |acts|
  {
    if acts != [] {
      StepKeepsInv(s, acts[0]);
      StepKeepsQuiescent(s, acts[0], id);
      RunKeepsQuiescent(Apply(s, acts[0]), acts[1..], s2, id);
    }
  }

  /**
   * After a normal return of `ensureJobQuiescent`, also for a job that was never
   * started and has no journal, no worker process of the job lives or can start, then
   * or in any later state.
   */
  lemma EnsuredQuiescentForever(s: System, acts: seq<Action>, s1: System, more: seq<Action>, s2: System, id: JobId)
    requires Initial(s) && Run(s, acts, s1) && Quiescent(s1, id) && Run(s1, more, s2)
    ensures Quiescent(s2, id) && NoWorker(s2, id)
  {
    RunKeeps(s, acts, s1);
    RunKeepsQuiescent(s1, more, s2, id);
    QuiescentHasNoWorker(s2, id);
  }

  /** In every reachable state each capture has at most one queued or running reconstruction. */
  lemma OneReconstructionPerCapture(s: System, acts: seq<Action>, s2: System)
    requires Initial(s) && Run(s, acts, s2)
    ensures AtMostOneReconstruction(s2.jobs)
  {
    RunKeeps(s, acts, s2);
  }

  /** A job that became completed, failed or cancelled stays so in every later state. */
  lemma TerminalStays(s: System, acts: seq<Action>, s1: System, more: seq<Action>, s2: System, id: JobId)
    requires Initial(s) && Run(s, acts, s1) && id in s1.jobs && Terminal(s1.jobs[id].state) && Run(s1, more, s2)
    ensures id in s2.jobs && s2.jobs[id].state == s1.jobs[id].state
  {
    RunKeeps(s, acts, s1);
    RunKeeps(s1, more, s2);
    assert Persists(s1.jobs[id], s2.jobs[id]);
  }

  // ----- A queued job comes to the worker -----

  /** Steps of the node and the worker for one job, its dispatch included. */
  predicate Drives(acts: seq<Action>) { forall a :: a in acts ==> a.Dispatch? || a.At? }

  lemma {:induction false} RunThen(s: System, acts: seq<Action>, s1: System, a: Action)
    requires Run(s, acts, s1) && Enabled(s1, a)
    ensures Run(s, acts + [a], Apply(s1, a))
    decreases |acts|
  {
    if acts == [] {
      assert Run(Apply(s, a), [], Apply(s, a));
    } else {
      RunThen(Apply(s, acts[0]), acts[1..], s1, a);
      assert (acts + [a])[1..] == acts[1..] + [a];
    }
  }

  /** One more step of the job `id`, which is all that changes. */
  lemma Drive(v: System, acts: seq<Action>, s: System, id: JobId, step: Step) returns (more: seq<Action>, s2: System)
    requires Run(v, acts, s) && Drives(acts) && s.started && id in s.jobs && JobEnabled(s.now, s.jobs[id], step)
    ensures Run(v, more, s2) && Drives(more) && s2.started && s2.now == s.now
    ensures s2.jobs == s.jobs[id := JobApply(s.now, s.jobs[id], step)]
  {
    RunThen(v, acts, s, At(id, step));
    more, s2 := acts + [At(id, step)], Apply(s, At(id, step));
  }

  /** The run of a new job up to its start. */
  lemma JobStarts(v: System, acts: seq<Action>, s: System, id: JobId) returns (more: seq<Action>, s2: System)
    requires Run(v, acts, s) && Drives(acts) && s.started && id in s.jobs
    requires s.jobs[id].state == Queued && s.jobs[id].run.Checking? && s.jobs[id].journal.NoJournal?
    ensures Run(v, more, s2) && Drives(more) && s2.started && s2.now == s.now && id in s2.jobs
    ensures s2.jobs[id] == s.jobs[id].(run := Starting(s.now), journal := Journal(Pending, None))
  {
    more, s2 := Drive(v, acts, s, id, CheckDone);
    more, s2 := Drive(v, more, s2, id, Own(true));
    more, s2 := Drive(v, more, s2, id, HealthReplied(s.now));
  }

  /** From its start to the process request. */
  lemma JobSends(v: System, acts: seq<Action>, s: System, id: JobId) returns (more: seq<Action>, s2: System)
    requires Run(v, acts, s) && Drives(acts) && s.started && id in s.jobs
    requires s.jobs[id].state == Queued && s.jobs[id].run == Starting(s.now) &&
      s.jobs[id].journal == Journal(Pending, None)
    ensures Run(v, more, s2) && Drives(more) && s2.now == s.now && id in s2.jobs
    ensures s.now in s2.jobs[id].requests && s2.jobs[id].worker == s.jobs[id].worker
    ensures s2.jobs[id].capture == s.jobs[id].capture
  {
    more, s2 := Drive(v, acts, s, id, PatchRunning(true));
    more, s2 := Drive(v, more, s2, id, Ready);
    more, s2 := Drive(v, more, s2, id, Mark(true));
    more, s2 := Drive(v, more, s2, id, Send);
  }

  /** A new job on an idle node can come to the worker, where it is let in. */
  lemma QueuedJobCanRun(s: System, id: JobId, kind: JobType, capture: CaptureId) returns (acts: seq<Action>, s2: System)
    requires s.started && Idle(s.jobs) && id in s.jobs && s.jobs[id] == NewJob(kind, capture)
    ensures Run(s, acts, s2) && Drives(acts) && id in s2.jobs && s2.jobs[id].capture == capture
    ensures Enabled(s2, At(id, AtWorker(Enter)))
  {
    RunThen(s, [], s, Dispatch(id));
    acts, s2 := [] + [Dispatch(id)], Apply(s, Dispatch(id));
    acts, s2 := JobStarts(s, acts, s2, id);
    acts, s2 := JobSends(s, acts, s2, id);
  }

  // ----- The dispatch loop -----

  /**
   * `running` after `rounds` turns of the loop. The stored state does not change
   * while the loop runs, so it finds the same queued job every time.
   */
  function AfterRounds(running: set<JobId>, queued: JobId, rounds: nat): set<JobId> {
    if rounds == 0 then running else AfterRounds(running, queued, rounds - 1) + {queued}
  }

  ghost predicate DispatchEnds(running: set<JobId>, queued: Option<JobId>, concurrency: nat) {
    queued.None? || exists rounds: nat :: |AfterRounds(running, queued.value, rounds)| >= concurrency
  }

  lemma {:induction false} RoundsAddOnce(running: set<JobId>, queued: JobId, rounds: nat)
    ensures AfterRounds(running, queued, rounds) == if rounds == 0 then running else running + {queued}
  {
    if rounds != 0 { RoundsAddOnce(running, queued, rounds - 1); }
  }

  /**
   * The loop ends if and only if nothing is queued or one more entry fills the
   * table. At concurrency one it therefore always ends; at two or more it never
   * does once a job is queued and the table has room for two.
   */
  lemma DispatchEndsIff(running: set<JobId>, queued: Option<JobId>, concurrency: nat)
    ensures DispatchEnds(running, queued, concurrency) <==>
            queued.None? || |running + {queued.value}| >= concurrency
    ensures concurrency <= 1 ==> DispatchEnds(running, queued, concurrency)
  {
    if queued.Some? {
      RoundsAddOnce(running, queued.value, 1);
      assert running <= running + {queued.value};
      SubsetSize(running, running + {queued.value});
      if rounds: nat :| |AfterRounds(running, queued.value, rounds)| >= concurrency {
        RoundsAddOnce(running, queued.value, rounds);
      }
      SubsetSize({queued.value}, running + {queued.value});
    }
  }

  /** The loop that never ends: one queued job, an empty table and room for two. */
  lemma DispatchDiverges(id: JobId)
    ensures !DispatchEnds({}, Some(id), 2)
  {
    DispatchEndsIff({}, Some(id), 2);
    assert {} + {id} == {id};
  }

  lemma {:induction false} SubsetSize<T>(a: set<T>, b: set<T>)
    requires a <= b
    ensures |a| <= |b|
    decreases |a|
  {
    if a != {} {
      var x :| x in a;
      SubsetSize(a - {x}, b - {x});
    }
  }

  /** `dispatch` where it ends; at concurrency one it starts a run only into an empty table, and at most one. */
  method DispatchPass(running: set<JobId>, queued: Option<JobId>, concurrency: nat)
    returns (table: set<JobId>, launched: seq<JobId>)
    requires queued.None? || |running + {queued.value}| >= concurrency
    ensures launched == [] || (queued.Some? && launched == [queued.value])
    ensures launched == [] <==> |running| >= concurrency || queued.None?
    ensures table == running + (set id | id in launched)
  {
    table, launched := running, [];
    while |table| < concurrency
      invariant launched == [] || (queued.Some? && launched == [queued.value] && |table| >= concurrency &&
        |running| < concurrency)
      invariant table == running + (set id | id in launched)
      decreases concurrency - |table|
    {
      if queued.None? { break; }
      assert table == running;
      table := table + {queued.value};
      launched := launched + [queued.value];
      assert (set id | id in launched) == {queued.value};
    }
  }
}
