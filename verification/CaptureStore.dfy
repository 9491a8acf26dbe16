/**
 * The capture directory protocol of `src/captures/captureStore.ts`: drafts being
 * uploaded, whole packages being created, one commit at a time behind
 * `commitLock`, discards, and an orphan sweep, interleaved at every await.
 * A capture or draft `id` owns the directory of the same name.
 */
module CaptureStore {
  import opened Wrappers

  datatype Id = Id(uuid: string)
  datatype LocalId = LocalId(text: string)      // the client's `metadata.localCaptureId`

  datatype Draft = Draft(local: Option<LocalId>)
  datatype Capture = Capture(local: Option<LocalId>)

  /** Where `commitDraftExclusive` stands; `retires` is the damaged replica it will replace. */
  datatype CommitStage =
    | NoCommit
    | Comparing(id: Id, local: Option<LocalId>, existing: Id)   // re-inspecting the stored replica
    | DroppingUpload(id: Id)                        // removing the directory of a redundant upload
    | Inspecting(id: Id, local: Option<LocalId>, retires: Option<Id>)   // the integrity boundary
    | WritingManifest(id: Id, local: Option<LocalId>, retires: Option<Id>)
    | Installing(id: Id, local: Option<LocalId>, retires: Option<Id>)   // the state write is queued
    | Installed(id: Id, retires: Option<Id>)        // the state write has landed
    | DroppingRetired(id: Id)                       // removing the retired directory

  datatype SweepStage =
    | NoSweep
    | Listing(entries: set<Id>)                     // between directory entries
    | Looking(name: Id, entries: set<Id>)           // reading one entry and its marker
    | Removing(name: Id, entries: set<Id>)

  datatype DiscardStage = Draining | Dropping

  datatype World = World(
    captures: map<Id, Capture>,       // durable
    busy: set<Id>,                    // captures a queued or running job reads, durable
    directories: set<Id>,             // on disk
    drafts: map<Id, Draft>,           // memory
    creating: map<Id, bool>,          // memory; whether the record has landed
    commit: CommitStage,
    sweep: SweepStage,
    discards: map<Id, DiscardStage>,
    used: set<Id>,                    // every name drawn or found so far
    sound: set<Id>,                   // history: drafts that passed inspection
    damaged: set<Id>)                 // history: replicas read as damaged

  datatype Action =
    | BeginDraft(id: Id, local: Option<LocalId>)
    | BeginCreate(id: Id)
    | RecordCreate(id: Id)
    | EndCreate(id: Id)
    | StartCommit(id: Id, existing: Option<Id>)
    | Compared(damaged: bool)
    | Inspected(ok: bool)
    | ManifestWritten(ok: bool)
    | Install(ok: bool)
    | Forget
    | RemovedByCommit
    | Discard(id: Id)
    | Drained(id: Id)
    | RemovedByDiscard(id: Id)
    | ReadDirectory(entries: set<Id>)
    | Look(name: Id)
    | Decide(recent: bool)
    | RemovedBySweep
    | EndSweep
    | JobsChange(busy: set<Id>)
    | Delete(id: Id)
    | LateWrite(id: Id)
    | Restart

  /** `ownsDirectory`. */
  predicate Owns(w: World, name: Id) {
    name in w.drafts || name in w.creating || name in w.captures
  }

  predicate IsReplica(captures: map<Id, Capture>, id: Id, l: LocalId) {
    id in captures && captures[id].local == Some(l)
  }

  predicate HasReplica(captures: map<Id, Capture>, l: LocalId) {
    exists id :: id in captures && IsReplica(captures, id, l)
  }

  predicate Enabled(w: World, a: Action) {
    match a
    case BeginDraft(id, _) => id !in w.used
    case BeginCreate(id) => id !in w.used
    case RecordCreate(id) => id in w.creating && !w.creating[id]
    case EndCreate(id) => id in w.creating
    case StartCommit(id, existing) =>
      && w.commit.NoCommit? && id in w.drafts
      && (existing.Some? ==>
        w.drafts[id].local.Some? && IsReplica(w.captures, existing.value, w.drafts[id].local.value))
      && (existing.None? ==> w.drafts[id].local.None? || !HasReplica(w.captures, w.drafts[id].local.value))
    case Compared(_) => w.commit.Comparing?
    case Inspected(_) => w.commit.Inspecting?
    case ManifestWritten(_) => w.commit.WritingManifest?
    case Install(_) => w.commit.Installing?
    case Forget => w.commit.Installed?
    case RemovedByCommit => w.commit.DroppingUpload? || w.commit.DroppingRetired?
    case Discard(id) => id in w.drafts
    case Drained(id) => id in w.discards && w.discards[id] == Draining
    case RemovedByDiscard(id) => id in w.discards && w.discards[id] == Dropping
    case ReadDirectory(entries) => w.sweep.NoSweep? && entries <= w.directories
    case Look(name) => w.sweep.Listing? && name in w.sweep.entries
    case Decide(_) => w.sweep.Looking?
    case RemovedBySweep => w.sweep.Removing?
    case EndSweep => w.sweep.Listing?
    case JobsChange(_) => true
    case Delete(id) => id in w.captures
    case LateWrite(id) => id in w.used
    case Restart => true
  }

  /** One state write installs the new record and retires the old one. */
  function InstalledCaptures(w: World, id: Id, local: Option<LocalId>, retires: Option<Id>): map<Id, Capture> {
    (if retires.Some? then w.captures - {retires.value} else w.captures)[id := Capture(local)]
  }

  function DropDraft(w: World, id: Id): World { w.(drafts := w.drafts - {id}) }

  function Apply(w: World, a: Action): World
    requires Enabled(w, a)
  {
    match a
    case BeginDraft(id, local) =>
      w.(drafts := w.drafts[id := Draft(local)], directories := w.directories + {id}, used := w.used + {id})
    case BeginCreate(id) =>
      w.(creating := w.creating[id := false], directories := w.directories + {id}, used := w.used + {id})
    case RecordCreate(id) =>
      w.(captures := w.captures[id := Capture(None)], creating := w.creating[id := true])
    case EndCreate(id) =>
      w.(creating := w.creating - {id},
         directories := if w.creating[id] then w.directories else w.directories - {id})
    case StartCommit(id, existing) =>
      var local := w.drafts[id].local;
      w.(commit := if existing.Some? then Comparing(id, local, existing.value) else Inspecting(id, local, None))
    case Compared(damaged) =>
      var c := w.commit;
      if damaged then w.(commit := Inspecting(c.id, c.local, Some(c.existing)), damaged := w.damaged + {c.existing})
      else DropDraft(w, c.id).(commit := DroppingUpload(c.id))
    case Inspected(ok) =>
      var c := w.commit;
      if ok && (c.retires.Some? ==> c.retires.value !in w.busy)
      then w.(commit := WritingManifest(c.id, c.local, c.retires), sound := w.sound + {c.id})
      else w.(commit := NoCommit)
    case ManifestWritten(ok) =>
      var c := w.commit;
      w.(commit := if ok then Installing(c.id, c.local, c.retires) else NoCommit)
    case Install(ok) =>
      var c := w.commit;
      if ok && (c.retires.Some? ==> c.retires.value !in w.busy)
      then w.(captures := InstalledCaptures(w, c.id, c.local, c.retires), commit := Installed(c.id, c.retires))
      else w.(commit := NoCommit)
    case Forget =>
      var c := w.commit;
      DropDraft(w, c.id).(commit := if c.retires.Some? then DroppingRetired(c.retires.value) else NoCommit)
    case RemovedByCommit => w.(directories := w.directories - {w.commit.id}, commit := NoCommit)
    case Discard(id) => DropDraft(w, id).(discards := w.discards[id := Draining])
    case Drained(id) =>
      w.(discards := if id in w.captures then w.discards - {id} else w.discards[id := Dropping])
    case RemovedByDiscard(id) => w.(directories := w.directories - {id}, discards := w.discards - {id})
    case ReadDirectory(entries) => w.(sweep := Listing(entries))
    case Look(name) =>
      var rest := w.sweep.entries - {name};
      w.(sweep := if Owns(w, name) then Listing(rest) else Looking(name, rest))
    case Decide(recent) =>
      var s := w.sweep;
      w.(sweep := if recent || Owns(w, s.name) then Listing(s.entries) else Removing(s.name, s.entries))
    case RemovedBySweep => w.(directories := w.directories - {w.sweep.name}, sweep := Listing(w.sweep.entries))
    case EndSweep => w.(sweep := NoSweep)
    case JobsChange(busy) => w.(busy := busy)
    case Delete(id) => w.(captures := w.captures - {id}, directories := w.directories - {id})
    case LateWrite(id) => w.(directories := w.directories + {id})
    case Restart => w.(drafts := map[], creating := map[], commit := NoCommit, sweep := NoSweep, discards := map[])
  }

  /** Nothing stored; stray directories may lie around. */
  predicate Initial(w: World) {
    && w.captures == map[] && w.drafts == map[] && w.creating == map[] && w.discards == map[]
    && w.commit.NoCommit? && w.sweep.NoSweep? && w.directories <= w.used
  }

  /** The draft `id` is being committed, from its recheck to its state write. */
  predicate Committing(w: World, id: Id) {
    (w.commit.Comparing? || w.commit.Inspecting? || w.commit.WritingManifest? || w.commit.Installing?) &&
      w.commit.id == id
  }

  /** The side condition: no discard of a draft overlaps a commit of it. */
  predicate NoOverlap(w: World, a: Action) {
    a.Discard? ==> !Committing(w, a.id)
  }

  predicate Run(w: World, acts: seq<Action>, w2: World)
    decreases |acts|
  {
    if acts == [] then w == w2
    else Enabled(w, acts[0]) && NoOverlap(w, acts[0]) && Run(Apply(w, acts[0]), acts[1..], w2)
  }

  // ----- What is promised -----

  /** Some part of the store is deleting this directory as unclaimed. */
  predicate Condemned(w: World, id: Id) {
    || (w.sweep.Removing? && w.sweep.name == id)
    || ((w.commit.DroppingUpload? || w.commit.DroppingRetired?) && w.commit.id == id)
    || (id in w.discards && w.discards[id] == Dropping)
  }

  /** No removal, by the sweep, a commit or a discard, touches a directory that has an owner. */
  ghost predicate OwnedAreSpared(w: World) {
    forall id :: Condemned(w, id) ==> !Owns(w, id)
  }

  ghost predicate OneReplicaEach(captures: map<Id, Capture>) {
    forall a, b, l :: IsReplica(captures, a, l) && IsReplica(captures, b, l) ==> a == b
  }

  // ----- The invariant -----

  ghost predicate NamesKnown(w: World) {
    && (forall id :: id in w.drafts || id in w.creating || id in w.captures ==> id in w.used)
    && (forall id :: id in w.discards || id in w.directories ==> id in w.used)
    && (w.sweep.Listing? || w.sweep.Looking? || w.sweep.Removing? ==> w.sweep.entries <= w.used)
    && (w.sweep.Looking? || w.sweep.Removing? ==> w.sweep.name in w.used)
    && (!w.commit.NoCommit? ==> w.commit.id in w.used)
  }

  /** Each name plays one part: drafts, creations and discards are apart,
      and a draft is stored only in the instant after its commit. */
  ghost predicate PartsApart(w: World) {
    && (forall id :: id in w.drafts ==> id !in w.creating && id !in w.discards)
    && (forall id :: id in w.drafts && id in w.captures ==> w.commit.Installed? && w.commit.id == id)
    && (forall id :: id in w.creating ==>
      id !in w.discards && (id in w.captures ==> w.creating[id] && w.captures[id].local.None?))
    && (forall id :: id in w.discards && w.discards[id] == Dropping ==> id !in w.captures)
  }

  /** Every stored replica of the draft's local capture is the one the commit retires. */
  ghost predicate Supersedes(w: World, id: Id, local: Option<LocalId>, retires: Option<Id>) {
    && id in w.drafts && w.drafts[id].local == local
    && (local.Some? ==> forall x :: IsReplica(w.captures, x, local.value) ==> retires == Some(x))
    && (retires.Some? ==> local.Some? && Retirable(w, id, local, retires.value))
  }

  predicate Retirable(w: World, id: Id, local: Option<LocalId>, x: Id) {
    && x != id && x in w.used && x !in w.drafts && x !in w.creating
    && (x in w.captures ==> w.captures[x].local == local)
  }

  ghost predicate CommitInv(w: World) {
    match w.commit
    case NoCommit => true
    case Comparing(id, local, existing) => Supersedes(w, id, local, Some(existing))
    case DroppingUpload(id) => !Owns(w, id)
    case Inspecting(id, local, retires) =>
      Supersedes(w, id, local, retires) && (retires.Some? ==> retires.value in w.damaged)
    case WritingManifest(id, local, retires) =>
      Supersedes(w, id, local, retires) && id in w.sound && (retires.Some? ==> retires.value in w.damaged)
    case Installing(id, local, retires) =>
      Supersedes(w, id, local, retires) && id in w.sound && (retires.Some? ==> retires.value in w.damaged)
    case Installed(id, retires) =>
      id !in w.creating && (retires.Some? ==> retires.value != id && !Owns(w, retires.value) && retires.value in w.used)
    case DroppingRetired(id) => !Owns(w, id) && id in w.used
  }

  ghost predicate Inv(w: World) {
    && NamesKnown(w)
    && PartsApart(w)
    && CommitInv(w)
    && (w.sweep.Removing? ==> !Owns(w, w.sweep.name))
    && OneReplicaEach(w.captures)
  }

  lemma SameNames(w: World, w2: World)
    requires NamesKnown(w) && w2.used == w.used && w2.sweep == w.sweep
    requires w2.creating == w.creating && w2.discards == w.discards && w2.directories <= w.directories
    requires forall id :: id in w2.drafts ==> id in w.drafts
    requires forall id :: id in w2.captures ==> id in w.used
    requires w2.commit.NoCommit? || w2.commit.id in w.used
    ensures NamesKnown(w2)
  {
  }

  lemma InstallKeepsNames(w: World, a: Action)
    requires Inv(w) && Enabled(w, a) && a.Install?
    ensures NamesKnown(Apply(w, a))
  {
    SameNames(w, Apply(w, a));
  }

  lemma CommitFrame(w: World, a: Action)
    requires Enabled(w, a) && CommitStep(a) && !a.Install?
    ensures
      var w2 := Apply(w, a);
      && w2.used == w.used && w2.sweep == w.sweep && w2.creating == w.creating && w2.discards == w.discards
      && w2.directories <= w.directories && w2.captures == w.captures
      && (forall id :: id in w2.drafts ==> id in w.drafts)
  {
  }

  lemma CommitStepKeepsNames(w: World, a: Action)
    requires Inv(w) && Enabled(w, a) && CommitStep(a)
    ensures NamesKnown(Apply(w, a))
  {
    if a.Install? {
      InstallKeepsNames(w, a);
    } else {
      CommitFrame(w, a);
      SameNames(w, Apply(w, a));
    }
  }

  lemma OtherStepKeepsNames(w: World, a: Action)
    requires Inv(w) && Enabled(w, a) && !CommitStep(a)
    ensures NamesKnown(Apply(w, a))
  {
  }

  predicate CommitStep(a: Action) {
    a.StartCommit? || a.Compared? || a.Inspected? || a.ManifestWritten? || a.Install? || a.Forget? || a.RemovedByCommit?
  }

  lemma CommitStepKeepsCommit(w: World, a: Action)
    requires Inv(w) && Enabled(w, a) && CommitStep(a)
    ensures CommitInv(Apply(w, a))
  {
  }

  /** A name already drawn is never claimed again, except by the state write that ends its own upload. */
  lemma UnownedStays(w: World, a: Action, id: Id)
    requires Inv(w) && Enabled(w, a) && !Owns(w, id) && id in w.used && !CommitStep(a)
    ensures !Owns(Apply(w, a), id)
  {
  }

  /** The parts of the world `PartsApart` reads, but for drafts, which may only shrink. */
  lemma FewerDrafts(w: World, w2: World)
    requires PartsApart(w) && w2.creating == w.creating && w2.discards == w.discards && w2.captures == w.captures
    requires forall id :: id in w2.drafts ==> id in w.drafts
    requires w.commit.Installed? ==> w2.commit == w.commit || w.commit.id !in w2.drafts
    ensures PartsApart(w2)
  {
  }

  lemma CommitStepKeepsParts(w: World, a: Action)
    requires Inv(w) && Enabled(w, a) && CommitStep(a) && !a.Install?
    ensures PartsApart(Apply(w, a))
  {
    FewerDrafts(w, Apply(w, a));
  }

  lemma InstallKeepsParts(w: World, a: Action)
    requires Inv(w) && Enabled(w, a) && a.Install?
    ensures PartsApart(Apply(w, a))
  {
  }

  lemma OtherStepKeepsParts(w: World, a: Action)
    requires Inv(w) && Enabled(w, a) && !CommitStep(a)
    ensures PartsApart(Apply(w, a))
  {
  }

  lemma SupersedesStays(w: World, a: Action, id: Id, local: Option<LocalId>, retires: Option<Id>)
    requires Inv(w) && Enabled(w, a) && !CommitStep(a) && !a.Restart?
    requires Supersedes(w, id, local, retires) && (a.Discard? ==> a.id != id)
    ensures Supersedes(Apply(w, a), id, local, retires)
  {
    var w2 := Apply(w, a);
    assert w.drafts[id] == w2.drafts[id];
    forall x, l | IsReplica(w2.captures, x, l) ensures IsReplica(w.captures, x, l) {
    }
  }

  lemma OtherStepFrame(w: World, a: Action)
    requires Enabled(w, a) && !CommitStep(a) && !a.Restart?
    ensures var w2 := Apply(w, a);
            w2.commit == w.commit && w2.sound == w.sound && w2.damaged == w.damaged && w.used <= w2.used
    ensures !a.BeginCreate? && !a.RecordCreate? && !a.EndCreate? ==> Apply(w, a).creating == w.creating
  {
  }

  lemma StepKeepsCommit(w: World, a: Action)
    requires Inv(w) && Enabled(w, a) && NoOverlap(w, a)
    ensures CommitInv(Apply(w, a))
  {
    if CommitStep(a) {
      CommitStepKeepsCommit(w, a);
    } else if !a.Restart? {
      OtherStepFrame(w, a);
      match w.commit
      case Comparing(id, local, existing) => SupersedesStays(w, a, id, local, Some(existing));
      case Inspecting(id, local, retires) => SupersedesStays(w, a, id, local, retires);
      case WritingManifest(id, local, retires) => SupersedesStays(w, a, id, local, retires);
      case Installing(id, local, retires) => SupersedesStays(w, a, id, local, retires);
      case Installed(id, retires) => InstalledStays(w, a);
      case DroppingUpload(id) => UnownedStays(w, a, id);
      case DroppingRetired(id) => UnownedStays(w, a, id);
      case NoCommit =>
    }
  }

  lemma InstalledStays(w: World, a: Action)
    requires Inv(w) && Enabled(w, a) && !CommitStep(a) && !a.Restart? && w.commit.Installed?
    ensures CommitInv(Apply(w, a))
  {
    OtherStepFrame(w, a);
    if w.commit.retires.Some? { UnownedStays(w, a, w.commit.retires.value); }
  }

  lemma StepKeepsSweep(w: World, a: Action)
    requires Inv(w) && Enabled(w, a) && NoOverlap(w, a)
    ensures var w2 := Apply(w, a); w2.sweep.Removing? ==> !Owns(w2, w2.sweep.name)
  {
    if w.sweep.Removing? && !CommitStep(a) { UnownedStays(w, a, w.sweep.name); }
  }

  lemma StepKeepsReplicas(w: World, a: Action)
    requires Inv(w) && Enabled(w, a)
    ensures OneReplicaEach(Apply(w, a).captures)
  {
    var captures := Apply(w, a).captures;
    forall x, y, l | IsReplica(captures, x, l) && IsReplica(captures, y, l) ensures x == y {
      assert IsReplica(w.captures, x, l) || (a.Install? && x == w.commit.id);
      assert IsReplica(w.captures, y, l) || (a.Install? && y == w.commit.id);
    }
  }

  lemma StepKeeps(w: World, a: Action)
    requires Inv(w) && Enabled(w, a) && NoOverlap(w, a)
    ensures Inv(Apply(w, a))
  {
    StepKeepsCommit(w, a);
    StepKeepsSweep(w, a);
    StepKeepsReplicas(w, a);
    if CommitStep(a) {
      CommitStepKeepsNames(w, a);
      if a.Install? { InstallKeepsParts(w, a); } else { CommitStepKeepsParts(w, a); }
    } else {
      OtherStepKeepsNames(w, a);
      OtherStepKeepsParts(w, a);
    }
  }

  lemma {:induction false} RunKeeps(w: World, acts: seq<Action>, w2: World)
    requires Inv(w) && Run(w, acts, w2)
    ensures Inv(w2)
    decreases |acts|
  {
    if acts != [] {
      StepKeeps(w, acts[0]);
      RunKeeps(Apply(w, acts[0]), acts[1..], w2);
    }
  }

  lemma InvSparesOwned(w: World)
    requires Inv(w)
    ensures OwnedAreSpared(w)
  {
  }

  // ----- Main results -----

  /**
   * In every interleaving of uploads, creates, commits, discards and sweeps, no
   * directory being removed as unclaimed belongs to a live draft, a create in
   * progress or a stored capture, for as long as the removal lasts.
   */
  lemma SweepSparesOwned(w: World, acts: seq<Action>, w2: World)
    requires Initial(w) && Run(w, acts, w2)
    ensures OwnedAreSpared(w2)
  {
    RunKeeps(w, acts, w2);
    InvSparesOwned(w2);
  }

  /** In every reachable state a local capture has at most one stored replica. */
  lemma OneReplicaPerLocalCapture(w: World, acts: seq<Action>, w2: World)
    requires Initial(w) && Run(w, acts, w2)
    ensures OneReplicaEach(w2.captures)
  {
    RunKeeps(w, acts, w2);
  }

  lemma OnlyInstallRetires(w: World, a: Action, x: Id)
    requires Inv(w) && Enabled(w, a) && !a.Delete? && x in w.captures && x !in Apply(w, a).captures
    ensures a.Install? && a.ok && w.commit.retires == Some(x) && x !in w.busy
    ensures Apply(w, a).captures == InstalledCaptures(w, w.commit.id, w.commit.local, Some(x))
  {
  }

  /**
   * A record disappears, other than by an explicit delete, only in the state
   * write that installs an inspected replacement of the same local capture; it
   * had been read as damaged, and no queued or running job reads it there.
   */
  lemma RetiredOnlyByReplacement(w: World, acts: seq<Action>, w1: World, a: Action, x: Id)
    requires Initial(w) && Run(w, acts, w1) && Enabled(w1, a) && !a.Delete?
    requires x in w1.captures && x !in Apply(w1, a).captures
    ensures a.Install? && a.ok && w1.commit.retires == Some(x)
    ensures w1.commit.id in Apply(w1, a).captures
    ensures w1.captures[x].local.Some? && Apply(w1, a).captures[w1.commit.id].local == w1.captures[x].local
    ensures w1.commit.id in w1.sound && x in w1.damaged && x !in w1.busy
  {
    RunKeeps(w, acts, w1);
    OnlyInstallRetires(w1, a, x);
  }

  /** A local capture that has a replica keeps one through every step but an explicit delete. */
  lemma ReplicaNeverLost(w: World, acts: seq<Action>, w1: World, a: Action, l: LocalId)
    requires Initial(w) && Run(w, acts, w1) && Enabled(w1, a) && !a.Delete? && HasReplica(w1.captures, l)
    ensures HasReplica(Apply(w1, a).captures, l)
  {
    RunKeeps(w, acts, w1);
    var x :| x in w1.captures && IsReplica(w1.captures, x, l);
    ReplicaCarries(w1, a, x, l);
  }

  lemma ReplicaCarries(w: World, a: Action, x: Id, l: LocalId)
    requires Inv(w) && Enabled(w, a) && !a.Delete? && IsReplica(w.captures, x, l)
    ensures HasReplica(Apply(w, a).captures, l)
  {
    var captures := Apply(w, a).captures;
    if x in captures {
      assert a.Install? && x == w.commit.id ==> x in w.drafts && x !in w.captures;
      assert captures[x] == w.captures[x];
      assert IsReplica(captures, x, l);
    } else {
      OnlyInstallRetires(w, a, x);
      assert IsReplica(captures, w.commit.id, l);
    }
  }

  // ----- Exactly when a discard is safe -----

  lemma {:induction false} RunThen(w: World, acts: seq<Action>, w1: World, a: Action)
    requires Run(w, acts, w1) && Enabled(w1, a) && NoOverlap(w1, a)
    ensures Run(w, acts + [a], Apply(w1, a))
    decreases |acts|
  {
    if acts == [] {
      assert Run(Apply(w, a), [], Apply(w, a));
    } else {
      RunThen(Apply(w, acts[0]), acts[1..], w1, a);
      assert (acts + [a])[1..] == acts[1..] + [a];
    }
  }

  lemma Then(v: World, acts: seq<Action>, w: World, a: Action) returns (more: seq<Action>, w2: World)
    requires Run(v, acts, w) && Enabled(w, a) && !a.Discard?
    ensures Run(v, more, w2) && w2 == Apply(w, a)
  {
    RunThen(v, acts, w, a);
    more, w2 := acts + [a], Apply(w, a);
  }

  /** A commit of `id` is past its recheck while nothing claims its directory any more. */
  predicate Unclaimed(w: World, id: Id) {
    Committing(w, id) && !Owns(w, id) && id in w.used
  }

  lemma SweepGoesIdle(v: World, acts: seq<Action>, w: World, id: Id) returns (more: seq<Action>, w2: World)
    requires Run(v, acts, w) && Unclaimed(w, id)
    ensures Run(v, more, w2) && Unclaimed(w2, id) && w2.sweep.NoSweep?
  {
    more, w2 := acts, w;
    if w2.sweep.Looking? { more, w2 := Then(v, more, w2, Decide(true)); }
    if w2.sweep.Removing? { more, w2 := Then(v, more, w2, RemovedBySweep); }
    if w2.sweep.Listing? { more, w2 := Then(v, more, w2, EndSweep); }
  }

  lemma SweepCondemns(v: World, acts: seq<Action>, w: World, id: Id) returns (more: seq<Action>, w2: World)
    requires Run(v, acts, w) && Unclaimed(w, id) && w.sweep.NoSweep?
    ensures Run(v, more, w2) && Unclaimed(w2, id) && w2.sweep.Removing? && w2.sweep.name == id
  {
    more, w2 := Then(v, acts, w, LateWrite(id));
    more, w2 := Then(v, more, w2, ReadDirectory({id}));
    more, w2 := Then(v, more, w2, Look(id));
    more, w2 := Then(v, more, w2, Decide(false));
  }

  lemma CommitReachesInstall(v: World, acts: seq<Action>, w: World, id: Id) returns (more: seq<Action>, w2: World)
    requires Run(v, acts, w) && Unclaimed(w, id) && w.sweep.Removing? && w.sweep.name == id
    ensures Run(v, more, w2) && Unclaimed(w2, id) && w2.sweep == w.sweep && w2.commit.Installing? && w2.busy == {}
  {
    more, w2 := Then(v, acts, w, JobsChange({}));
    if w2.commit.Comparing? { more, w2 := Then(v, more, w2, Compared(true)); }
    if w2.commit.Inspecting? { more, w2 := Then(v, more, w2, Inspected(true)); }
    if w2.commit.WritingManifest? { more, w2 := Then(v, more, w2, ManifestWritten(true)); }
  }

  /** The failing family: a discard inside a commit lets the sweep take the directory the commit then stores. */
  lemma OverlapStrands(w: World, id: Id) returns (acts: seq<Action>, w2: World)
    requires Inv(w) && Enabled(w, Discard(id)) && Committing(w, id)
    ensures Run(Apply(w, Discard(id)), acts, w2) && !OwnedAreSpared(w2)
  {
    var v := Apply(w, Discard(id));
    acts, w2 := SweepGoesIdle(v, [], v, id);
    acts, w2 := SweepCondemns(v, acts, w2, id);
    acts, w2 := CommitReachesInstall(v, acts, w2, id);
    acts, w2 := Then(v, acts, w2, Install(true));
    assert Condemned(w2, id) && Owns(w2, id);
  }

  ghost predicate AlwaysSpares(w: World) {
    forall acts, w2 :: Run(w, acts, w2) ==> OwnedAreSpared(w2)
  }

  /**
   * A discard spares every owned directory in every continuation if and only if no
   * commit of the draft is between its recheck and its state write.
   */
  lemma DiscardIsSafeIff(w: World, id: Id)
    requires Inv(w) && Enabled(w, Discard(id))
    ensures !Committing(w, id) <==> AlwaysSpares(Apply(w, Discard(id)))
  {
    var v := Apply(w, Discard(id));
    if !Committing(w, id) {
      StepKeeps(w, Discard(id));
      forall acts, w2 | Run(v, acts, w2) ensures OwnedAreSpared(w2) {
        RunKeeps(v, acts, w2);
        InvSparesOwned(w2);
      }
    } else {
      var acts, w2 := OverlapStrands(w, id);
      assert Run(v, acts, w2) && !OwnedAreSpared(w2);
    }
  }

  /** The failing family is reachable. */
  lemma OverlapIsReachable(w: World, id: Id) returns (acts: seq<Action>, w2: World)
    requires Initial(w) && id !in w.used
    ensures Run(w, acts, w2) && Enabled(w2, Discard(id)) && Committing(w2, id)
  {
    acts, w2 := Then(w, [], w, BeginDraft(id, None));
    acts, w2 := Then(w, acts, w2, StartCommit(id, None));
  }

  // ----- A replacement happens -----

  /** A sound upload is inspected and its state write queued. */
  lemma ReachesInstall(v: World, acts: seq<Action>, w: World) returns (more: seq<Action>, w2: World)
    requires Run(v, acts, w) && w.commit.Inspecting? && w.busy == {}
    ensures Run(v, more, w2)
    ensures
      var c := w.commit;
      w2 == w.(commit := Installing(c.id, c.local, c.retires), sound := w.sound + {c.id})
  {
    more, w2 := Then(v, acts, w, Inspected(true));
    more, w2 := Then(v, more, w2, ManifestWritten(true));
  }

  /** The first upload of a local capture is stored. */
  lemma FirstStored(w: World, x: Id, l: LocalId) returns (acts: seq<Action>, w2: World)
    requires Initial(w) && x !in w.used
    ensures Run(w, acts, w2) && w2.captures == map[x := Capture(Some(l))] && w2.commit.NoCommit?
    ensures w2.busy == {} && w2.used == w.used + {x} && w2.drafts == map[]
  {
    acts, w2 := Then(w, [], w, JobsChange({}));
    acts, w2 := Then(w, acts, w2, BeginDraft(x, Some(l)));
    acts, w2 := Then(w, acts, w2, StartCommit(x, None));
    acts, w2 := ReachesInstall(w, acts, w2);
    acts, w2 := Then(w, acts, w2, Install(true));
    acts, w2 := Then(w, acts, w2, Forget);
    assert w2.drafts == map[];
  }

  /** A second upload finds the stored replica damaged and is about to replace it. */
  lemma ReplacementIsReachable(w: World, x: Id, y: Id, l: LocalId) returns (acts: seq<Action>, w2: World)
    requires Initial(w) && x !in w.used && y !in w.used && x != y
    ensures Run(w, acts, w2) && Enabled(w2, Install(true))
    ensures x in w2.captures && Apply(w2, Install(true)).captures == map[y := Capture(Some(l))]
  {
    acts, w2 := FirstStored(w, x, l);
    acts, w2 := Then(w, acts, w2, BeginDraft(y, Some(l)));
    assert IsReplica(w2.captures, x, l);
    acts, w2 := Then(w, acts, w2, StartCommit(y, Some(x)));
    acts, w2 := Then(w, acts, w2, Compared(true));
    acts, w2 := ReachesInstall(w, acts, w2);
    assert map[x := Capture(Some(l))] - {x} == map[];
  }
}
