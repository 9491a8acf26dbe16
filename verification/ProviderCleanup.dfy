/**
 * The provider-side cleanup journal of `src/compute/providerCleanup.ts`, for one
 * remote job, together with the preparation it guards
 * (`src/compute/remoteComputeRuntime.ts`).
 *
 * One action is one stretch between awaits. A store update either commits or
 * leaves the journal as it was. A crash keeps only what is durable: the journal,
 * the decrypted directory, the capture record, the local jobs and the pin.
 *
 * The local jobs run in the job system of `JobSystem`, which takes its own steps
 * throughout. `ensureJobQuiescent` returns for a job exactly when that system has it
 * quiescent. Any client may create further jobs on the capture while its record
 * exists: such a call looks the capture up, and inserts its job some time later.
 */
module ProviderCleanup {
  import J = JobSystem
  import opened Wrappers

  datatype Cid = Cid(text: string)

  datatype Plaintext = Pending | Blocked | Complete

  datatype Journal =
    | Absent
    | Unowned                                   // a record with no provider cleanup part
    | Owned(inputCid: Cid, requested: bool, plaintext: Plaintext, pinPending: bool, pinNamed: bool)

  /** Where a preparation stands. Before each of the stages from `Acquiring` to `Creating` it re-checks the journal. */
  datatype Stage = Entering | Acquiring | Fetching | Decrypting | Registering | Creating | Saving

  datatype Preparation = Preparation(serial: nat, stage: Stage)

  datatype Release =
    | Idle
    | Awaiting(unfinished: bool)                // the preparation seen at the start has not ended yet
    | Quiescing(todo: set<J.JobId>)
    | Removing
    | Completing
    | Failing
    | Unpinning
    | Settling
    | Complaining

  datatype World = World(
    journal: Journal,
    directory: bool,                            // decrypted files exist
    capture: bool,                              // the capture record exists
    captureId: J.CaptureId,
    jobs: J.System,                             // every local job, and the worker
    asked: nat,                                 // volatile: clients' create calls that have found the capture
    pinned: bool,                               // the input pin names this job as an owner
    preparing: Option<Preparation>,             // volatile
    releasing: Release,                         // volatile
    canUnpin: bool,                             // a pin releaser was configured
    serial: nat)

  datatype Action =
    | Own(cid: Cid)
    | Ask
    | Prepare
    | Advance(expired: bool)
    | TakePin
    | WriteFiles
    | AddCapture
    | AddChild(c: J.JobId, kind: J.JobType)
    | Abandon
    | OthersAsk
    | OthersGiveUp
    | JobStep(a: J.Action)
    | Start
    | Proceed
    | Check(c: J.JobId)
    | AllChecked
    | Remove
    | RemovePartly(left: bool)
    | Finish
    | Trip
    | Block
    | Unpin(ok: bool)
    | UnpinFails
    | Settle
    | GiveUp
    | Crash

  /** The local jobs on the capture, whoever made them. */
  function Children(w: World): set<J.JobId> {
    set id | id in w.jobs.jobs && w.jobs.jobs[id].capture == w.captureId
  }

  /** A job joins the capture's. */
  predicate InsertsHere(w: World, a: J.Action) { a.Insert? && a.capture == w.captureId }

  predicate Requested(w: World) { w.journal.Owned? && w.journal.requested }

  predicate Completed(w: World) { w.journal.Owned? && w.journal.plaintext == Complete }

  /** A preparation that has passed its first check and can touch pins, files or jobs. */
  predicate Working(w: World) { w.preparing.Some? && w.preparing.value.stage != Entering }

  predicate At(w: World, s: Stage) { w.preparing.Some? && w.preparing.value.stage == s }

  /** `assertPreparing`, and the pin-owner test at the head of the work. */
  predicate MayPrepare(j: Journal, expired: bool) {
    j.Owned? && !j.requested && j.plaintext != Complete && !expired && j.pinNamed
  }

  function Next(s: Stage): Stage {
    match s
    case Entering => Acquiring
    case Acquiring => Fetching
    case Fetching => Decrypting
    case Decrypting => Registering
    case Registering => Creating
    case Creating => Saving
    case Saving => Saving
  }

  predicate Enabled(w: World, a: Action) {
    match a
    case Own(_) => true
    case Ask => w.journal.Owned?
    case Prepare => w.preparing.None?
    case Advance(_) => w.preparing.Some?
    case TakePin => At(w, Acquiring)
    case WriteFiles => At(w, Decrypting)
    case AddCapture => At(w, Registering)
    case AddChild(c, kind) => At(w, Creating) && J.Enabled(w.jobs, J.Insert(c, kind, w.captureId))
    case Abandon => w.preparing.Some?
    case OthersAsk => w.capture && w.jobs.started
    case OthersGiveUp => w.asked > 0
    case JobStep(a) => J.Enabled(w.jobs, a) && !a.CrashNode? && (InsertsHere(w, a) ==> w.asked > 0)
    case Start => w.releasing.Idle?
    case Proceed => w.releasing == Awaiting(false)
    case Check(c) => w.releasing.Quiescing? && c in w.releasing.todo && J.Quiescent(w.jobs, c)
    case AllChecked => w.releasing.Quiescing? && w.releasing.todo == {}
    case Remove => w.releasing.Removing?
    case RemovePartly(left) => w.releasing.Removing? && (left ==> w.directory)
    case Finish => w.releasing.Completing? && w.journal.Owned?
    case Trip =>
      w.releasing == Awaiting(false) || w.releasing.Quiescing? || w.releasing.Completing? || w.releasing.Settling?
    case Block => w.releasing.Failing? && w.journal.Owned?
    case Unpin(_) => w.releasing.Unpinning?
    case UnpinFails => w.releasing.Unpinning?
    case Settle => w.releasing.Settling? && w.journal.Owned?
    case GiveUp => w.releasing.Failing? || w.releasing.Complaining?
    case Crash => true
  }

  /** The preparation ends; a release that was waiting for it may go on. */
  function End(w: World): World {
    w.(preparing := None, releasing := if w.releasing.Awaiting? then Awaiting(false) else w.releasing)
  }

  /** `releasePin` up to its first await. */
  function BeginUnpin(w: World, j: Journal): World
    requires j.Owned?
  {
    w.(releasing := if j.pinPending && j.pinNamed && w.canUnpin then Unpinning else Idle)
  }

  function Apply(w: World, a: Action): World
    requires Enabled(w, a)
  {
    match a
    case Own(cid) => if w.journal.Absent? then w.(journal := Owned(cid, false, Pending, true, true)) else w
    case Ask => w.(journal := w.journal.(requested := true))
    case Prepare => w.(preparing := Some(Preparation(w.serial, Entering)), serial := w.serial + 1)
    case Advance(expired) =>
      var p := w.preparing.value;
      if p.stage == Saving then End(w)
      else if p.stage == Creating ||
        MayPrepare(w.journal, expired) then w.(preparing := Some(p.(stage := Next(p.stage))))
      else End(w)
    case TakePin => w.(pinned := true)
    case WriteFiles => w.(directory := true)
    case AddCapture => w.(capture := true)
    case AddChild(c, kind) => w.(jobs := J.Apply(w.jobs, J.Insert(c, kind, w.captureId)))
    case Abandon => End(w)
    case OthersAsk => w.(asked := w.asked + 1)
    case OthersGiveUp => w.(asked := w.asked - 1)
    case JobStep(a) => w.(jobs := J.Apply(w.jobs, a), asked := if InsertsHere(w, a) then w.asked - 1 else w.asked)
    case Start =>
      if !Requested(w) then w
      else if Completed(w) then BeginUnpin(w, w.journal)
      else w.(releasing := Awaiting(w.preparing.Some?))
    case Proceed => w.(releasing := Quiescing(Children(w)))
    case Check(c) => w.(releasing := Quiescing(w.releasing.todo - {c}))
    case AllChecked => w.(releasing := Removing)
    case Remove => w.(directory := false, releasing := Completing)
    case RemovePartly(left) => w.(directory := left, releasing := Failing)
    case Finish => BeginUnpin(w.(journal := w.journal.(plaintext := Complete), capture := false), w.journal)
    case Trip => w.(releasing := if w.releasing.Settling? then Complaining else Failing)
    case Block => w.(journal := w.journal.(plaintext := Blocked), releasing := Idle)
    case Unpin(ok) => w.(pinned := false, releasing := if ok then Settling else Complaining)
    case UnpinFails => w.(releasing := Complaining)
    case Settle => w.(journal := w.journal.(pinPending := false), releasing := Idle)
    case GiveUp => w.(releasing := Idle)
    case Crash => w.(preparing := None, releasing := Idle, asked := 0, jobs := J.Apply(w.jobs, J.CrashNode))
  }

  /** `w2` is reached from `w` by `acts`. */
  predicate Run(w: World, acts: seq<Action>, w2: World)
    decreases |acts|
  {
    if acts == [] then w == w2 else Enabled(w, acts[0]) && Run(Apply(w, acts[0]), acts[1..], w2)
  }

  /**
   * A process has just started, over any state the job system can have. Its journal,
   * if it owns the job, has not completed and still owes the pin.
   */
  ghost predicate Initial(w: World) {
    && J.Inv(w.jobs)
    && w.preparing.None? && w.asked == 0
    && w.releasing.Idle?
    && (w.journal.Owned? ==> w.journal.plaintext != Complete && w.journal.pinPending)
  }

  predicate AllQuiescent(jobs: J.System, children: set<J.JobId>) {
    forall c :: c in children ==> J.Quiescent(jobs, c)
  }

  // ----- What every run keeps -----

  predicate ReleaseInv(w: World) {
    match w.releasing
    case Idle => true
    case Awaiting(unfinished) => Requested(w) && !Completed(w) && (unfinished || !Working(w))
    case Quiescing(_) => Requested(w) && !Completed(w) && !Working(w)
    case Removing => Requested(w) && !Completed(w) && !Working(w)
    case Completing => Requested(w) && !Completed(w) && !Working(w) && !w.directory
    case Failing => Requested(w) && !Completed(w)
    case Unpinning => Completed(w)
    case Settling => Completed(w) && !w.pinned
    case Complaining => Completed(w)
  }

  predicate JournalInv(w: World) {
    && (Completed(w) ==> Requested(w) && !Working(w) && !w.directory && !w.capture)
    && (w.journal.Owned? && !w.journal.pinPending ==> Completed(w) && !w.pinned)
  }

  predicate VolatileInv(w: World) {
    && (w.preparing.Some? ==> w.preparing.value.serial < w.serial)
    && (w.asked > 0 ==> w.jobs.started)
  }

  ghost predicate Inv(w: World) { J.Inv(w.jobs) && ReleaseInv(w) && JournalInv(w) && VolatileInv(w) }

  lemma PreparationStepKeeps(w: World, a: Action)
    requires Inv(w) && Enabled(w, a)
    requires a.Prepare? || a.Advance? || a.TakePin? || a.WriteFiles? || a.AddCapture? || a.Abandon?
    ensures Inv(Apply(w, a))
  {
  }

  lemma JobsStayStarted(s: J.System, a: J.Action)
    requires J.Enabled(s, a) && !a.CrashNode? && s.started
    ensures J.Apply(s, a).started
  {
  }

  lemma JobStepKeeps(w: World, a: Action)
    requires Inv(w) && Enabled(w, a) && (a.JobStep? || a.AddChild? || a.OthersAsk? || a.OthersGiveUp? || a.Crash?)
    ensures Inv(Apply(w, a))
  {
    if a.JobStep? {
      J.StepKeepsInv(w.jobs, a.a);
      if w.jobs.started { JobsStayStarted(w.jobs, a.a); }
    } else if a.AddChild? {
      J.StepKeepsInv(w.jobs, J.Insert(a.c, a.kind, w.captureId));
      JobsStayStarted(w.jobs, J.Insert(a.c, a.kind, w.captureId));
    } else if a.Crash? {
      J.StepKeepsInv(w.jobs, J.CrashNode);
    }
  }

  predicate ReleaseStep(a: Action) {
    || a.Start? || a.Proceed? || a.Check? || a.AllChecked? || a.Remove? || a.RemovePartly? || a.Finish? || a.Trip?
  }

  predicate JournalStep(a: Action) {
    a.Own? || a.Ask? || a.Block? || a.Unpin? || a.UnpinFails? || a.Settle? || a.GiveUp?
  }

  lemma ReleaseStepKeeps(w: World, a: Action)
    requires Inv(w) && Enabled(w, a) && ReleaseStep(a)
    ensures Inv(Apply(w, a))
  {
  }

  lemma JournalStepKeeps(w: World, a: Action)
    requires Inv(w) && Enabled(w, a) && JournalStep(a)
    ensures Inv(Apply(w, a))
  {
  }

  /** Every step, from any world that satisfies the invariant. */
  lemma StepKeeps(w: World, a: Action)
    requires Inv(w) && Enabled(w, a)
    ensures Inv(Apply(w, a))
  {
    if JournalStep(a) {
      JournalStepKeeps(w, a);
    } else if ReleaseStep(a) {
      ReleaseStepKeeps(w, a);
    } else if a.JobStep? || a.AddChild? || a.OthersAsk? || a.OthersGiveUp? || a.Crash? {
      JobStepKeeps(w, a);
    } else {
      PreparationStepKeeps(w, a);
    }
  }

  lemma {:induction false} RunKeeps(w: World, acts: seq<Action>, w2: World)
    requires Inv(w) && Run(w, acts, w2)
    ensures Inv(w2)
    decreases |acts|
  {
    if acts != [] {
      StepKeeps(w, acts[0]);
      RunKeeps(Apply(w, acts[0]), acts[1..], w2);
    }
  }

  // ----- What a run keeps that no client's job comes late into -----

  /** The release has listed the local jobs and not yet written `complete`. */
  predicate Listed(r: Release) { r.Quiescing? || r.Removing? || r.Completing? }

  /**
   * The side condition: no create call on the capture is under way when the release
   * lists the local jobs, and none begins from there to the write of `complete`.
   */
  predicate NoLateCall(w: World, a: Action) {
    && (a.Proceed? ==> w.asked == 0)
    && (a.OthersAsk? ==> !Listed(w.releasing))
  }

  predicate Orderly(w: World, acts: seq<Action>)
    decreases |acts|
  {
    acts == [] || (Enabled(w, acts[0]) && NoLateCall(w, acts[0]) && Orderly(Apply(w, acts[0]), acts[1..]))
  }

  /** The jobs the release has found quiescent, and no others, are on the capture. */
  predicate QuietInv(w: World) {
    && (Listed(w.releasing) || Completed(w) ==> w.asked == 0)
    && (w.releasing.Quiescing? ==> AllQuiescent(w.jobs, Children(w) - w.releasing.todo))
    && (w.releasing.Removing? || w.releasing.Completing? || Completed(w) ==> AllQuiescent(w.jobs, Children(w)))
  }

  lemma QuiescentStays(jobs: J.System, a: J.Action, children: set<J.JobId>)
    requires J.Inv(jobs) && J.Enabled(jobs, a) && AllQuiescent(jobs, children)
    ensures AllQuiescent(J.Apply(jobs, a), children)
  {
    forall c | c in children ensures J.Quiescent(J.Apply(jobs, a), c) {
      J.StepKeepsQuiescent(jobs, a, c);
    }
  }

  /** Only an insertion on the capture adds to its jobs, and nothing takes any away. */
  lemma ChildrenStay(w: World, a: J.Action, w2: World)
    requires J.Inv(w.jobs) && J.Enabled(w.jobs, a) && w2.jobs == J.Apply(w.jobs, a) && w2.captureId == w.captureId
    requires !InsertsHere(w, a)
    ensures Children(w2) == Children(w)
  {
    forall id ensures id in Children(w2) <==> id in Children(w) {
      if id in w.jobs.jobs { J.StepKeepsJob(w.jobs, a, id); }
    }
  }

  /** Whatever the job system does, jobs found quiescent stay so. */
  lemma QuietJobStep(w: World, a: J.Action, w2: World)
    requires Inv(w) && QuietInv(w) && J.Enabled(w.jobs, a) && !InsertsHere(w, a)
    requires w2.jobs == J.Apply(w.jobs, a) && w2.captureId == w.captureId && w2.journal == w.journal
    requires (w2.releasing == w.releasing && w2.asked == w.asked) || (w2.releasing.Idle? && w2.asked == 0)
    ensures QuietInv(w2)
  {
    ChildrenStay(w, a, w2);
    if w.releasing.Quiescing? { QuiescentStays(w.jobs, a, Children(w) - w.releasing.todo); }
    if AllQuiescent(w.jobs, Children(w)) { QuiescentStays(w.jobs, a, Children(w)); }
  }

  lemma ReleaseLeavesJobs(w: World, a: Action)
    requires Enabled(w, a) && ReleaseStep(a)
    ensures Apply(w, a).jobs == w.jobs && Apply(w, a).captureId == w.captureId
  {
  }

  lemma JobsUntouched(w: World, a: Action)
    requires Enabled(w, a) && !a.JobStep? && !a.AddChild? && !a.Crash? && !ReleaseStep(a)
    ensures Apply(w, a).jobs == w.jobs && Apply(w, a).captureId == w.captureId
  {
  }

  lemma QuietStep(w: World, a: Action)
    requires Inv(w) && QuietInv(w) && Enabled(w, a) && NoLateCall(w, a)
    requires !a.JobStep? && !a.AddChild? && !a.Crash?
    ensures QuietInv(Apply(w, a))
  {
    if ReleaseStep(a) { ReleaseLeavesJobs(w, a); } else { JobsUntouched(w, a); }
    var w2 := Apply(w, a);
    var children := Children(w);
    assert Children(w2) == children;
    if ReleaseStep(a) {
      if ListingStep(a) { QuietListingStep(w, a, children); } else { QuietEndingStep(w, a); }
    } else {
      assert w2.releasing.Quiescing? ==> w2.releasing == w.releasing;
    }
  }

  /** The steps that list the capture's jobs and look at each. */
  predicate ListingStep(a: Action) { a.Proceed? || a.Check? || a.AllChecked? }

  lemma QuietListingStep(w: World, a: Action, children: set<J.JobId>)
    requires QuietInv(w) && Enabled(w, a) && NoLateCall(w, a) && ListingStep(a) && children == Children(w)
    requires Apply(w, a).jobs == w.jobs && Children(Apply(w, a)) == children
    requires !Completed(w)
    ensures QuietInv(Apply(w, a))
  {
    match a
    case Check(c) =>
      assert forall x :: x in children - (w.releasing.todo - {c}) ==> x in children - w.releasing.todo || x == c;
    case AllChecked => assert children - {} == children;
    case _ =>
  }

  lemma QuietEndingStep(w: World, a: Action)
    requires ReleaseInv(w) && QuietInv(w) && Enabled(w, a) && ReleaseStep(a) && !ListingStep(a)
    requires Apply(w, a).jobs == w.jobs && Children(Apply(w, a)) == Children(w)
    ensures QuietInv(Apply(w, a))
  {
  }

  lemma OrderlyStepKeeps(w: World, a: Action)
    requires Inv(w) && QuietInv(w) && Enabled(w, a) && NoLateCall(w, a)
    ensures QuietInv(Apply(w, a))
  {
    if a.Crash? {
      QuietJobStep(w, J.CrashNode, Apply(w, a));
    } else if a.JobStep? && !InsertsHere(w, a.a) {
      QuietJobStep(w, a.a, Apply(w, a));
    } else if !a.JobStep? && !a.AddChild? {
      QuietStep(w, a);
    }
  }

  lemma {:induction false} OrderlyRunKeeps(w: World, acts: seq<Action>, w2: World)
    requires Inv(w) && QuietInv(w) && Run(w, acts, w2) && Orderly(w, acts)
    ensures Inv(w2) && QuietInv(w2)
    decreases |acts|
  {
    if acts != [] {
      StepKeeps(w, acts[0]);
      OrderlyStepKeeps(w, acts[0]);
      OrderlyRunKeeps(Apply(w, acts[0]), acts[1..], w2);
    }
  }

  lemma QuiescentHaveNoWorker(w: World)
    requires J.Inv(w.jobs) && AllQuiescent(w.jobs, Children(w))
    ensures forall c :: c in Children(w) ==> J.NoWorker(w.jobs, c)
  {
    forall c | c in Children(w) ensures J.NoWorker(w.jobs, c) {
      J.QuiescentHasNoWorker(w.jobs, c);
    }
  }

  /**
   * In every run, a journal that says `complete` means the decrypted directory and
   * the capture record are gone and no preparation can touch anything. If no client's
   * create call comes late into a release, it also means that no local job on the
   * capture, whoever made it, has a worker that can run.
   */
  lemma CompleteMeansPlaintextGone(w0: World, acts: seq<Action>, w: World)
    requires Initial(w0) && Run(w0, acts, w) && Completed(w)
    ensures !w.directory && !w.capture && !Working(w)
    ensures Orderly(w0, acts) ==> forall c :: c in Children(w) ==> J.NoWorker(w.jobs, c)
  {
    RunKeeps(w0, acts, w);
    if Orderly(w0, acts) {
      OrderlyRunKeeps(w0, acts, w);
      QuiescentHaveNoWorker(w);
    }
  }

  /** `later` follows `w` without taking back a request, a completion, the input or a settled pin. */
  predicate Monotone(w: World, later: World) {
    && (w.journal.Owned? ==> later.journal.Owned? && later.journal.inputCid == w.journal.inputCid)
    && (Requested(w) ==> Requested(later))
    && (Completed(w) ==> Completed(later) && !later.directory && !later.capture)
    && (w.journal.Owned? && !w.journal.pinPending ==> !later.journal.pinPending && !later.pinned)
  }

  lemma StepIsMonotone(w: World, a: Action)
    requires Inv(w) && Enabled(w, a)
    ensures Monotone(w, Apply(w, a))
  {
    StepKeeps(w, a);
  }

  /** `requested` and `complete` never revert, however the run goes on, and nothing decrypted comes back. */
  lemma {:induction false} JournalNeverReverts(w: World, acts: seq<Action>, w2: World)
    requires Inv(w) && Run(w, acts, w2)
    ensures Monotone(w, w2)
    decreases |acts|
  {
    if acts == [] {
    } else {
      StepKeeps(w, acts[0]);
      StepIsMonotone(w, acts[0]);
      JournalNeverReverts(Apply(w, acts[0]), acts[1..], w2);
    }
  }

  /** Reached states: the same, from any point of any run. */
  lemma ReachedJournalNeverReverts(w0: World, before: seq<Action>, w: World, after: seq<Action>, w2: World)
    requires Initial(w0) && Run(w0, before, w) && Run(w, after, w2)
    ensures Monotone(w, w2)
  {
    RunKeeps(w0, before, w);
    JournalNeverReverts(w, after, w2);
  }

  /** The working preparation of `later`, if any, was already at that very stage in `w`, or past its last check. */
  predicate NotAdvanced(w: World, later: World) {
    Working(later) ==>
      && Working(w)
      && later.preparing.value.serial == w.preparing.value.serial
      && (later.preparing.value.stage == w.preparing.value.stage
          || (w.preparing.value.stage == Creating && later.preparing.value.stage == Saving))
  }

  lemma StepDoesNotAdvance(w: World, a: Action)
    requires Enabled(w, a) && Requested(w)
    ensures NotAdvanced(w, Apply(w, a)) && Requested(Apply(w, a))
  {
  }

  /**
   * Once a request is durable no preparation starts, and one under way never
   * begins its next operation: it ends, or stays in the operation it was in.
   */
  lemma {:induction false} NoPreparationAfterRequest(w: World, acts: seq<Action>, w2: World)
    requires Requested(w) && Run(w, acts, w2)
    ensures NotAdvanced(w, w2)
    decreases |acts|
  {
    if acts != [] {
      StepDoesNotAdvance(w, acts[0]);
      NoPreparationAfterRequest(Apply(w, acts[0]), acts[1..], w2);
    }
  }

  /** The input pin loses this owner only in a run whose journal already says `complete`. */
  lemma PinReleasedOnlyAfterComplete(w0: World, acts: seq<Action>, w: World, a: Action)
    requires Initial(w0) && Run(w0, acts, w) && Enabled(w, a)
    requires w.pinned && !Apply(w, a).pinned
    ensures Completed(w) && Requested(w) && !w.directory
  {
    RunKeeps(w0, acts, w);
  }

  /** When the directory is removed nothing is writing to it, and in an orderly run no worker is reading it. */
  lemma RemovalIsUndisturbed(w0: World, acts: seq<Action>, w: World, a: Action)
    requires Initial(w0) && Run(w0, acts, w) && Enabled(w, a) && (a.Remove? || a.RemovePartly?)
    ensures Requested(w) && !Working(w)
    ensures Orderly(w0, acts) ==> forall c :: c in Children(w) ==> J.NoWorker(w.jobs, c)
  {
    RunKeeps(w0, acts, w);
    if Orderly(w0, acts) {
      OrderlyRunKeeps(w0, acts, w);
      QuiescentHaveNoWorker(w);
    }
  }

  // ----- Exactly when the write of `complete` is safe -----

  ghost predicate AlwaysQuiescent(w: World) {
    forall acts, w2 :: Run(w, acts, w2) ==> AllQuiescent(w2.jobs, Children(w2))
  }

  /** After `complete` nothing finds the capture any more, so every run is orderly. */
  lemma {:induction false} CompleteRunIsQuiet(w: World, acts: seq<Action>, w2: World)
    requires Inv(w) && QuietInv(w) && Completed(w) && Run(w, acts, w2)
    ensures AllQuiescent(w2.jobs, Children(w2))
    decreases |acts|
  {
    if acts != [] {
      assert NoLateCall(w, acts[0]);
      StepKeeps(w, acts[0]);
      OrderlyStepKeeps(w, acts[0]);
      StepIsMonotone(w, acts[0]);
      CompleteRunIsQuiet(Apply(w, acts[0]), acts[1..], w2);
    }
  }

  lemma {:induction false} FreshJob(ids: set<J.JobId>) returns (id: J.JobId)
    ensures id !in ids
  {
    id := J.JobId(LongText(ids));
    if id in ids { LongTextIsLong(ids, id); }
  }

  ghost function LongText(ids: set<J.JobId>): string {
    if ids == {} then ""
    else
      var id :| id in ids;
      id.text + "x" + LongText(ids - {id})
  }

  lemma {:induction false} LongTextIsLong(ids: set<J.JobId>, id: J.JobId)
    requires id in ids
    ensures |id.text| < |LongText(ids)|
    decreases |ids|
  {
    var x :| x in ids && LongText(ids) == x.text + "x" + LongText(ids - {x});
    if id != x { LongTextIsLong(ids - {x}, id); }
  }

  /** A call that had found the capture inserts its job after `complete`. */
  lemma CallUnderWayInserts(w: World) returns (acts: seq<Action>, w2: World)
    requires Inv(w) && w.asked > 0
    ensures Run(w, acts, w2) && !AllQuiescent(w2.jobs, Children(w2))
  {
    var id := FreshJob(w.jobs.jobs.Keys);
    var a := JobStep(J.Insert(id, J.Optimize, w.captureId));
    acts, w2 := [a], Apply(w, a);
    assert Run(w2, acts[1..], w2);
    assert id in Children(w2) && !J.Quiescent(w2.jobs, id);
  }

  /**
   * Writing `complete` leaves the jobs on the capture quiescent in every continuation
   * if and only if they all are and no create call is under way. The release could
   * list the jobs once more to see the first; the node knows its own calls.
   */
  lemma FinishIsSafeIff(w: World)
    requires Inv(w) && Enabled(w, Finish)
    ensures AllQuiescent(w.jobs, Children(w)) && w.asked == 0 <==> AlwaysQuiescent(Apply(w, Finish))
  {
    var v := Apply(w, Finish);
    StepKeeps(w, Finish);
    assert Children(v) == Children(w) && Completed(v);
    if AllQuiescent(w.jobs, Children(w)) && w.asked == 0 {
      forall acts, w2 | Run(v, acts, w2) ensures AllQuiescent(w2.jobs, Children(w2)) {
        CompleteRunIsQuiet(v, acts, w2);
      }
    } else if w.asked > 0 {
      var acts, w2 := CallUnderWayInserts(v);
      assert Run(v, acts, w2) && !AllQuiescent(w2.jobs, Children(w2));
    } else {
      assert Run(v, [], v) && !AllQuiescent(v.jobs, Children(v));
    }
  }

  // ----- A late call, and what it leads to -----

  lemma {:induction false} RunThen(w: World, acts: seq<Action>, w1: World, a: Action)
    requires Run(w, acts, w1) && Enabled(w1, a)
    ensures Run(w, acts + [a], Apply(w1, a))
    decreases |acts|
  {
    if acts == [] {
      assert Run(Apply(w, a), [], Apply(w, a));
    } else {
      RunThen(Apply(w, acts[0]), acts[1..], w1, a);
      assert (acts + [a])[1..] == acts[1..] + [a];
    }
  }

  lemma Then(v: World, acts: seq<Action>, w: World, a: Action) returns (more: seq<Action>, w2: World)
    requires Run(v, acts, w) && Enabled(w, a)
    ensures Run(v, more, w2) && w2 == Apply(w, a)
  {
    RunThen(v, acts, w, a);
    more, w2 := acts + [a], Apply(w, a);
  }

  /** A stored input without local jobs, on a started and idle node. */
  predicate StoredInput(w: World) {
    && w.journal.Owned? && w.capture && w.jobs.started && J.Idle(w.jobs.jobs) && Children(w) == {}
  }

  /** The release is asked for and lists the local jobs, of which there are none; then a client asks for one. */
  lemma AskedAfterListing(w: World) returns (acts: seq<Action>, w2: World)
    requires Initial(w) && StoredInput(w)
    ensures Run(w, acts, w2)
    ensures w2 == w.(journal := w.journal.(requested := true), releasing := Quiescing({}), asked := 1)
  {
    acts, w2 := Then(w, [], w, Ask);
    acts, w2 := Then(w, acts, w2, Start);
    acts, w2 := Then(w, acts, w2, Proceed);
    assert Children(w2) == Children(w);
    acts, w2 := Then(w, acts, w2, OthersAsk);
  }

  lemma LateInsert(v: World, acts: seq<Action>, w: World, id: J.JobId) returns (more: seq<Action>, w2: World)
    requires Run(v, acts, w) && w.asked == 1 && w.jobs.started && id !in w.jobs.jobs
    ensures Run(v, more, w2)
    ensures w2 == w.(asked := 0, jobs := w.jobs.(jobs := w.jobs.jobs[id := J.NewJob(J.Optimize, w.captureId)]))
  {
    more, w2 := Then(v, acts, w, JobStep(J.Insert(id, J.Optimize, w.captureId)));
  }

  lemma ComesToFinish(v: World, acts: seq<Action>, w: World) returns (more: seq<Action>, w2: World)
    requires Run(v, acts, w) && w.releasing == Quiescing({})
    ensures Run(v, more, w2) && w2 == w.(directory := false, releasing := Completing)
  {
    more, w2 := Then(v, acts, w, AllChecked);
    more, w2 := Then(v, more, w2, Remove);
  }

  lemma NewJobIsNotQuiescent(w: World, id: J.JobId)
    requires id in w.jobs.jobs && w.jobs.jobs[id] == J.NewJob(J.Optimize, w.captureId)
    ensures id in Children(w) && !AllQuiescent(w.jobs, Children(w))
  {
    assert id in Children(w) && !J.Quiescent(w.jobs, id);
  }

  /**
   * The failing family is reachable: a client's job joins after the listing, and
   * the release comes to its last write.
   */
  lemma LateJobIsReachable(w: World, id: J.JobId) returns (acts: seq<Action>, w2: World)
    requires Initial(w) && StoredInput(w) && id !in w.jobs.jobs
    ensures Run(w, acts, w2) && Enabled(w2, Finish) && !AllQuiescent(w2.jobs, Children(w2))
    ensures w2.captureId == w.captureId && w2.jobs.started && J.Idle(w2.jobs.jobs)
    ensures id in w2.jobs.jobs && w2.jobs.jobs[id] == J.NewJob(J.Optimize, w.captureId)
  {
    acts, w2 := AskedAfterListing(w);
    acts, w2 := LateInsert(w, acts, w2, id);
    acts, w2 := ComesToFinish(w, acts, w2);
    NewJobIsNotQuiescent(w2, id);
  }

  lemma {:induction false} DriveJobs(v: World, acts: seq<Action>, w: World, drive: seq<J.Action>, s: J.System)
    returns (more: seq<Action>, w2: World)
    requires Run(v, acts, w) && J.Run(w.jobs, drive, s) && J.Drives(drive)
    ensures Run(v, more, w2) && w2 == w.(jobs := s)
    decreases |drive|
  {
    if drive == [] {
      more, w2 := acts, w;
    } else {
      assert drive[0] in drive;
      more, w2 := Then(v, acts, w, JobStep(drive[0]));
      assert forall a :: a in drive[1..] ==> a in drive;
      more, w2 := DriveJobs(v, more, w2, drive[1..], s);
    }
  }

  /** From there `complete` is written, and the worker can still be let in to the late job. */
  lemma LateJobRunsAfterComplete(w: World, id: J.JobId) returns (acts: seq<Action>, w2: World)
    requires Initial(w) && StoredInput(w) && id !in w.jobs.jobs
    ensures Run(w, acts, w2) && Completed(w2) && id in w2.jobs.jobs && w2.jobs.jobs[id].capture == w2.captureId
    ensures !J.NoWorker(w2.jobs, id)
  {
    acts, w2 := LateJobIsReachable(w, id);
    acts, w2 := Then(w, acts, w2, Finish);
    var drive, s := J.QueuedJobCanRun(w2.jobs, id, J.Optimize, w.captureId);
    acts, w2 := DriveJobs(w, acts, w2, drive, s);
  }
}
