/**
 * One draft of `src/captures/captureStore.ts` with all its awaits: queued uploads,
 * resumes and commits. `reconcile` copies the draft's entries, asks the disk about
 * one at a time and drops those read as gone, while uploads go on. `getDraft` starts
 * one when no write is in flight and then holds nothing; a commit starts one under
 * the draft's lock. The node writes two files of its own into the directory, the
 * marker and the manifest. Any number of reconciles may overlap. One action is one
 * stretch between awaits; the disk answers on its own.
 */
module DraftReconcile {
  import opened DraftAccounting
  import opened DraftPaths
  import opened Wrappers

  /** The write that holds the draft's lock; `existing` is the size it read when it began. */
  datatype Write =
    | Receiving(path: Path, existing: nat)
    | Promoted(path: Path, existing: nat, bytes: nat)   // renamed into place, not yet accounted for
    | Settling                                          // accounted for, still counted as in flight

  datatype Reconcile =
    | Reading(todo: map<Path, Meta>, lost: bool, commit: bool)
    | Judged(path: Path, meta: Meta, gone: bool, todo: map<Path, Meta>, lost: bool, commit: bool)

  /** Where a commit of the draft stands; it holds the lock from beginning to end. */
  datatype Commit = NoCommit | Inspecting | Reconciling | Recording

  /** A file that is not empty: sent under a listed text, or written by the node. */
  datatype File = Sent(key: Path, bytes: nat) | Own(bytes: nat)

  datatype World = World(
    files: map<Path, Meta>,
    size: int,
    count: nat,
    disk: map<Target, File>,
    waiting: nat,                           // writes queued behind the lock
    writing: Option<Write>,
    commit: Commit,
    reconciles: map<nat, Reconcile>)

  datatype Action =
    | Enqueue
    | Refuse
    | StartWrite(path: Path)
    | Promote(bytes: nat)
    | Fail
    | Account(mimeType: Option<string>)
    | TouchMarker(bytes: nat)
    | Settle
    | StartCommit
    | WriteManifest(bytes: nat)
    | AbandonCommit
    | Begin(r: nat, commit: bool)
    | Stat(r: nat, path: Path)
    | Resume(r: nat)
    | Finish(r: nat)
    | LoseFiles(lost: set<Target>)

  predicate OnDisk(w: World, p: Path) { Place(p) in w.disk }

  predicate Unlocked(w: World) { w.writing.None? && w.commit.NoCommit? }

  /** A write to `p` has read the entry and not yet replaced it. */
  predicate WritesTo(w: World, p: Path) { w.writing.Some? && !w.writing.value.Settling? && w.writing.value.path == p }

  predicate Enabled(w: World, a: Action) {
    match a
    case Enqueue => true
    case Refuse => w.waiting > 0 && Unlocked(w)
    case StartWrite(p) => w.waiting > 0 && Unlocked(w) && (p in w.files || |w.files| < MAX_CAPTURE_FILES)
    case Promote(n) =>
      && w.writing.Some? && w.writing.value.Receiving? && n > 0 && !NamesDirectory(w.writing.value.path.text)
      && w.size - w.writing.value.existing + n <= MAX_CAPTURE_BYTES
    case Fail => w.writing.Some? && w.writing.value.Receiving?
    case Account(_) => w.writing.Some? && w.writing.value.Promoted?
    case TouchMarker(n) => w.writing.Some? && !w.writing.value.Promoted? && n > 0
    case Settle => w.writing.Some? && w.writing.value.Settling?
    case StartCommit => Unlocked(w)
    case WriteManifest(n) => w.commit.Inspecting? && n > 0
    case AbandonCommit => w.commit.Inspecting? || w.commit.Recording?
    case Begin(r, commit) =>
      r !in w.reconciles && if commit then w.commit.Inspecting? else w.writing.None? && w.waiting == 0
    case Stat(r, p) => r in w.reconciles && w.reconciles[r].Reading? && p in w.reconciles[r].todo
    case Resume(r) => r in w.reconciles && w.reconciles[r].Judged?
    case Finish(r) => r in w.reconciles && w.reconciles[r].Reading? && w.reconciles[r].todo == map[]
    case LoseFiles(_) => true
  }

  function Goto(w: World, r: nat, c: Reconcile): World { w.(reconciles := w.reconciles[r := c]) }

  function Apply(w: World, a: Action): World
    requires Enabled(w, a)
  {
    match a
    case Enqueue => w.(waiting := w.waiting + 1)
    case Refuse => w.(waiting := w.waiting - 1)
    case StartWrite(p) => w.(waiting := w.waiting - 1, writing := Some(Receiving(p, Existing(w.files, p))))
    case Promote(n) =>
      var t := w.writing.value;
      w.(disk := w.disk[Place(t.path) := Sent(t.path, n)], writing := Some(Promoted(t.path, t.existing, n)))
    case Fail => w.(writing := None)
    case Account(mimeType) =>
      var t := w.writing.value;
      var files := w.files[t.path := Meta(t.bytes, mimeType)];
      w.(files := files, size := w.size - t.existing + t.bytes, count := |files|, writing := Some(Settling))
    case TouchMarker(n) => w.(disk := w.disk[MARKER := Own(n)])
    case Settle => w.(writing := None)
    case StartCommit => w.(commit := Inspecting)
    case WriteManifest(n) => w.(disk := w.disk[MANIFEST := Own(n)], commit := Recording)
    case AbandonCommit => w.(commit := NoCommit)
    case Begin(r, commit) =>
      Goto(w, r, Reading(w.files, false, commit)).(commit := if commit then Reconciling else w.commit)
    case Stat(r, p) =>
      var c := w.reconciles[r];
      Goto(w, r, Judged(p, c.todo[p], !OnDisk(w, p), c.todo - {p}, c.lost, c.commit))
    case Resume(r) =>
      var c := w.reconciles[r];
      var next := Goto(w, r, Reading(c.todo, c.lost || c.gone, c.commit));
      if c.gone then next.(files := w.files - {c.path}, size := w.size - c.meta.bytes) else next
    case Finish(r) =>
      var c := w.reconciles[r];
      var next := w.(reconciles := w.reconciles - {r}, commit := if c.commit then NoCommit else w.commit);
      if c.lost then next.(count := |w.files|, size := if w.size < 0 then 0 else w.size) else next
    case LoseFiles(lost) => w.(disk := w.disk - lost)
  }

  /** A new draft: nothing listed, and nothing on disk but perhaps the marker. */
  predicate Initial(w: World) {
    w.disk.Keys <= {MARKER} && w == World(map[], 0, 0, w.disk, 0, None, NoCommit, map[])
  }

  /** The step drops the entry of a file it has read as gone. */
  predicate Drops(w: World, a: Action) {
    a.Resume? && a.r in w.reconciles && w.reconciles[a.r].Judged? && w.reconciles[a.r].gone
  }

  /**
   * The entry still stands as it was copied, its file is still gone, and no write to
   * it has begun. `reconcile` could see all three just before it drops.
   */
  predicate Undisturbed(w: World, r: nat)
    requires r in w.reconciles && w.reconciles[r].Judged?
  {
    var c := w.reconciles[r];
    && c.path in w.files && w.files[c.path].bytes == c.meta.bytes
    && !OnDisk(w, c.path)
    && !WritesTo(w, c.path)
  }

  /** No other listed text names the file. */
  predicate Unshared(files: map<Path, Meta>, p: Path) {
    forall q :: q in files && Place(q) == Place(p) ==> q == p
  }

  /**
   * The file about to be renamed into place is not one of the node's own, and no
   * other listed text names it. The write could see both just before it renames.
   */
  predicate Clear(w: World, p: Path) { !Reserved(Place(p)) && Unshared(w.files, p) }

  predicate Renames(w: World, a: Action) { a.Promote? && w.writing.Some? && w.writing.value.Receiving? }

  /** The side conditions: drops are undisturbed and renames are clear. */
  predicate Allowed(w: World, a: Action) {
    && (Drops(w, a) ==> Undisturbed(w, a.r))
    && (Renames(w, a) ==> Clear(w, w.writing.value.path))
  }

  /** `w2` is reached from `w` by `acts`, every step allowed. */
  predicate Run(w: World, acts: seq<Action>, w2: World)
    decreases |acts|
  {
    if acts == [] then w == w2
    else Enabled(w, acts[0]) && Allowed(w, acts[0]) && Run(Apply(w, acts[0]), acts[1..], w2)
  }

  // ----- What the accounting promises -----

  /** The entry of `p` is about to be replaced: its new file is in place already. */
  predicate JustRenamed(w: World, p: Path) { w.writing.Some? && w.writing.value.Promoted? && w.writing.value.path == p }

  /** Every entry whose file is on disk tells what was sent under it, and that it is still there. */
  predicate Truthful(w: World) {
    forall p :: p in w.files && OnDisk(w, p) && !JustRenamed(w, p) ==> w.disk[Place(p)] == Sent(p, w.files[p].bytes)
  }

  /** Every file on disk but the node's own is listed with its size. */
  predicate Listed(w: World) {
    forall t :: t in w.disk && !Reserved(t) ==> w.disk[t].Sent? && IsListed(w, t, w.disk[t].key, w.disk[t].bytes)
  }

  predicate IsListed(w: World, t: Target, p: Path, bytes: nat) {
    Place(p) == t && (JustRenamed(w, p) || (p in w.files && w.files[p].bytes == bytes))
  }

  /** The count is right unless a reconcile has dropped an entry and not finished. */
  predicate Counted(w: World) {
    (forall r :: r in w.reconciles ==> !w.reconciles[r].lost) ==> w.count == |w.files|
  }

  ghost predicate Good(w: World) {
    && w.size == Total(w.files) <= MAX_CAPTURE_BYTES
    && |w.files| <= MAX_CAPTURE_FILES
    && Counted(w)
    && Truthful(w)
    && Listed(w)
  }

  predicate NonEmpty(files: map<Path, Meta>) { forall p :: p in files ==> files[p].bytes > 0 }

  /** Listed texts name different files, none of them the node's own. */
  predicate OneTextEach(files: map<Path, Meta>) {
    forall p :: p in files ==> !NamesDirectory(p.text) && !Reserved(Place(p)) && Unshared(files, p)
  }

  predicate WriteInv(w: World) {
    w.writing.Some? && !w.writing.value.Settling? ==>
      && w.writing.value.existing == Existing(w.files, w.writing.value.path)
      && (w.writing.value.path in w.files || |w.files| < MAX_CAPTURE_FILES)
      && (w.writing.value.Promoted? ==> PromotedInv(w, w.writing.value))
  }

  predicate PromotedInv(w: World, t: Write)
    requires t.Promoted?
  {
    && t.bytes > 0 && w.size - t.existing + t.bytes <= MAX_CAPTURE_BYTES
    && !NamesDirectory(t.path.text) && Clear(w, t.path)
    && (OnDisk(w, t.path) ==> w.disk[Place(t.path)] == Sent(t.path, t.bytes))
  }

  predicate CopiesInv(w: World) {
    forall r :: r in w.reconciles ==>
      NonEmpty(w.reconciles[r].todo) && (w.reconciles[r].Judged? ==> w.reconciles[r].meta.bytes > 0)
  }

  ghost predicate Inv(w: World) {
    && Good(w) && NonEmpty(w.files) && OneTextEach(w.files) && WriteInv(w) && CopiesInv(w)
    && (w.writing.Some? ==> w.commit.NoCommit?)
  }

  lemma PutSize(files: map<Path, Meta>, p: Path, m: Meta)
    ensures |files[p := m]| == if p in files then |files| else |files| + 1
  {
    if p in files {
      assert files[p := m].Keys == files.Keys;
    } else {
      assert files[p := m].Keys == files.Keys + {p};
    }
  }

  lemma DropSize(files: map<Path, Meta>, p: Path)
    ensures |files - {p}| <= |files|
  {
    assert files.Keys == (files - {p}).Keys + (if p in files then {p} else {});
  }

  lemma QueueStepKeeps(w: World, a: Action)
    requires Inv(w) && Enabled(w, a)
    requires a.Enqueue? || a.Refuse? || a.StartWrite? || a.Fail? || a.Settle? || a.StartCommit? || a.AbandonCommit?
    ensures Inv(Apply(w, a))
  {
  }

  lemma DiskStepKeeps(w: World, a: Action)
    requires Inv(w) && Enabled(w, a) && (a.TouchMarker? || a.WriteManifest? || a.LoseFiles?)
    ensures Inv(Apply(w, a))
  {
    assert forall p :: p in w.files ==> !Reserved(Place(p));
  }

  lemma RenameKeeps(w: World, n: nat)
    requires Inv(w) && Enabled(w, Promote(n)) && Clear(w, w.writing.value.path)
    ensures Inv(Apply(w, Promote(n)))
  {
    var p := w.writing.value.path;
    var w2 := Apply(w, Promote(n));
    assert JustRenamed(w2, p);
    forall t | t in w2.disk && !Reserved(t) ensures w2.disk[t].Sent? &&
      IsListed(w2, t, w2.disk[t].key, w2.disk[t].bytes) {
      if t != Place(p) { assert t in w.disk && IsListed(w, t, w.disk[t].key, w.disk[t].bytes); }
    }
  }

  lemma PutOneText(files: map<Path, Meta>, p: Path, m: Meta)
    requires OneTextEach(files) && Unshared(files, p) && !Reserved(Place(p)) && !NamesDirectory(p.text)
    ensures OneTextEach(files[p := m])
  {
    var files2 := files[p := m];
    forall q | q in files2 ensures !NamesDirectory(q.text) && !Reserved(Place(q)) && Unshared(files2, q) {
      if q != p { assert Unshared(files, q); }
    }
  }

  /** The file map with a file put into it, of which nothing else is known. */
  lemma PutKeeps(files: map<Path, Meta>, p: Path, m: Meta)
    requires OneTextEach(files) && NonEmpty(files) && |files| <= MAX_CAPTURE_FILES
    requires Unshared(files, p) && !Reserved(Place(p)) && !NamesDirectory(p.text) && m.bytes > 0
    requires p in files || |files| < MAX_CAPTURE_FILES
    ensures Total(files[p := m]) == Total(files) - Existing(files, p) + m.bytes
    ensures |files[p := m]| <= MAX_CAPTURE_FILES && NonEmpty(files[p := m]) && OneTextEach(files[p := m])
  {
    TotalPut(files, p, m);
    PutSize(files, p, m);
    PutOneText(files, p, m);
  }

  lemma AccountKeepsFiles(w: World, a: Action)
    requires Inv(w) && Enabled(w, a) && a.Account?
    ensures
      var w2 := Apply(w, a);
      && w2.size == Total(w2.files) <= MAX_CAPTURE_BYTES && |w2.files| <= MAX_CAPTURE_FILES
      && NonEmpty(w2.files) && OneTextEach(w2.files)
  {
    var t := w.writing.value;
    assert PromotedInv(w, t);
    PutKeeps(w.files, t.path, Meta(t.bytes, a.mimeType));
  }

  lemma AccountKeepsDisk(w: World, a: Action)
    requires Inv(w) && Enabled(w, a) && a.Account?
    ensures Truthful(Apply(w, a)) && Listed(Apply(w, a))
  {
    var p := w.writing.value.path;
    var w2 := Apply(w, a);
    forall t | t in w2.disk && !Reserved(t)
      ensures w2.disk[t].Sent? && IsListed(w2, t, w2.disk[t].key, w2.disk[t].bytes)
    {
      assert IsListed(w, t, w.disk[t].key, w.disk[t].bytes);
    }
    forall q | q in w2.files && OnDisk(w2, q) ensures w2.disk[Place(q)] == Sent(q, w2.files[q].bytes) {
      if q != p { assert !JustRenamed(w, q); }
    }
  }

  lemma AccountKeeps(w: World, a: Action)
    requires Inv(w) && Enabled(w, a) && a.Account?
    ensures Inv(Apply(w, a))
  {
    AccountKeepsFiles(w, a);
    AccountKeepsDisk(w, a);
  }

  /** What the reconciles, the queue and the count do not touch. */
  lemma Frame(w: World, w2: World)
    requires w2.files == w.files && w2.size == w.size && w2.disk == w.disk && w2.writing == w.writing
    ensures Truthful(w) ==> Truthful(w2)
    ensures Listed(w) ==> Listed(w2)
    ensures WriteInv(w) ==> WriteInv(w2)
  {
    if Listed(w) {
      forall t | t in w2.disk && !Reserved(t)
        ensures w2.disk[t].Sent? && IsListed(w2, t, w2.disk[t].key, w2.disk[t].bytes)
      {
        assert IsListed(w, t, w.disk[t].key, w.disk[t].bytes);
      }
    }
  }

  lemma CopyStays(w: World, r: nat, c: Reconcile)
    requires CopiesInv(w) && NonEmpty(c.todo) && (c.Judged? ==> c.meta.bytes > 0)
    ensures CopiesInv(Goto(w, r, c))
  {
  }

  lemma CopiesStay(w: World, a: Action)
    requires Inv(w) && Enabled(w, a) && (a.Begin? || a.Stat? || a.Resume? || a.Finish?)
    ensures CopiesInv(Apply(w, a))
  {
    match a
    case Begin(r, commit) => CopyStays(w, r, Reading(w.files, false, commit));
    case Stat(r, p) =>
      var c := w.reconciles[r];
      CopyStays(w, r, Judged(p, c.todo[p], !OnDisk(w, p), c.todo - {p}, c.lost, c.commit));
    case Resume(r) =>
      var c := w.reconciles[r];
      CopyStays(w, r, Reading(c.todo, c.lost || c.gone, c.commit));
    case Finish(r) =>
  }

  lemma ReadStepKeeps(w: World, a: Action)
    requires Inv(w) && Enabled(w, a) && !Drops(w, a) && (a.Begin? || a.Stat? || a.Resume?)
    ensures Inv(Apply(w, a))
  {
    var w2 := Apply(w, a);
    Frame(w, w2);
    CopiesStay(w, a);
    assert forall q :: q in w.reconciles ==> q in w2.reconciles && w2.reconciles[q].lost == w.reconciles[q].lost;
  }

  lemma FinishCounts(w: World, r: nat)
    requires Counted(w) && Enabled(w, Finish(r))
    ensures Counted(Apply(w, Finish(r)))
  {
    var w2 := Apply(w, Finish(r));
    if !w.reconciles[r].lost && forall q :: q in w2.reconciles ==> !w2.reconciles[q].lost {
      forall q | q in w.reconciles ensures !w.reconciles[q].lost {
        if q != r { assert q in w2.reconciles && w2.reconciles[q] == w.reconciles[q]; }
      }
    }
  }

  lemma FinishFrame(w: World, r: nat)
    requires Inv(w) && Enabled(w, Finish(r))
    ensures
      var w2 := Apply(w, Finish(r));
      w2.files == w.files && w2.size == w.size && w2.disk == w.disk && w2.writing == w.writing
  {
  }

  lemma FinishKeeps(w: World, r: nat)
    requires Inv(w) && Enabled(w, Finish(r))
    ensures Inv(Apply(w, Finish(r)))
  {
    FinishFrame(w, r);
    Frame(w, Apply(w, Finish(r)));
    CopiesStay(w, Finish(r));
    FinishCounts(w, r);
  }

  lemma DropKeepsDisk(w: World, r: nat)
    requires Inv(w) && Enabled(w, Resume(r)) && w.reconciles[r].gone && Undisturbed(w, r)
    ensures Truthful(Apply(w, Resume(r))) && Listed(Apply(w, Resume(r)))
  {
    var w2 := Apply(w, Resume(r));
    forall t | t in w2.disk && !Reserved(t)
      ensures w2.disk[t].Sent? && IsListed(w2, t, w2.disk[t].key, w2.disk[t].bytes)
    {
      assert IsListed(w, t, w.disk[t].key, w.disk[t].bytes);
    }
  }

  lemma DropKeepsFiles(w: World, r: nat)
    requires Inv(w) && Enabled(w, Resume(r)) && w.reconciles[r].gone && Undisturbed(w, r)
    ensures
      var w2 := Apply(w, Resume(r));
      && w2.size == Total(w2.files) <= MAX_CAPTURE_BYTES && |w2.files| <= MAX_CAPTURE_FILES
      && NonEmpty(w2.files) && OneTextEach(w2.files)
  {
    var c := w.reconciles[r];
    StaleDropIff(w.files, c.path, c.meta);
    DropSize(w.files, c.path);
  }

  lemma DropKeeps(w: World, r: nat)
    requires Inv(w) && Enabled(w, Resume(r)) && w.reconciles[r].gone && Undisturbed(w, r)
    ensures Inv(Apply(w, Resume(r)))
  {
    DropKeepsDisk(w, r);
    DropKeepsFiles(w, r);
    CopiesStay(w, Resume(r));
    assert Apply(w, Resume(r)).reconciles[r].lost;
  }

  lemma StepKeeps(w: World, a: Action)
    requires Inv(w) && Enabled(w, a) && Allowed(w, a)
    ensures Inv(Apply(w, a))
  {
    if Drops(w, a) { DropKeeps(w, a.r); }
    else if a.Promote? { RenameKeeps(w, a.bytes); }
    else if a.Account? { AccountKeeps(w, a); }
    else if a.Finish? { FinishKeeps(w, a.r); }
    else if a.Begin? || a.Stat? || a.Resume? { ReadStepKeeps(w, a); }
    else if a.TouchMarker? || a.WriteManifest? || a.LoseFiles? { DiskStepKeeps(w, a); }
    else { QueueStepKeeps(w, a); }
  }

  lemma {:induction false} RunKeeps(w: World, acts: seq<Action>, w2: World)
    requires Inv(w) && Run(w, acts, w2)
    ensures Inv(w2)
    decreases |acts|
  {
    if acts != [] {
      StepKeeps(w, acts[0]);
      RunKeeps(Apply(w, acts[0]), acts[1..], w2);
    }
  }

  /**
   * In every interleaving of queued uploads, resumes and commits whose drops are
   * undisturbed and whose renames are clear, the size is the sum over the file map,
   * both ceilings hold, every entry tells what is on disk, and every file on disk but
   * the node's own is listed with its size.
   */
  lemma AccountingStaysRight(w: World, acts: seq<Action>, w2: World)
    requires Initial(w) && Run(w, acts, w2)
    ensures Good(w2)
  {
    RunKeeps(w, acts, w2);
  }

  // ----- Paths alone are enough -----

  /** A path a client could have checked by itself: normal, and not one of the node's names. */
  predicate Plain(p: Path) { Normal(p) && !Reserved(Place(p)) }

  /** A run whose drops are undisturbed and which only writes to plain paths. */
  predicate PlainRun(w: World, acts: seq<Action>, w2: World)
    decreases |acts|
  {
    if acts == [] then w == w2
    else
      && Enabled(w, acts[0]) && (Drops(w, acts[0]) ==> Undisturbed(w, acts[0].r))
      && (acts[0].StartWrite? ==> Plain(acts[0].path))
      && PlainRun(Apply(w, acts[0]), acts[1..], w2)
  }

  predicate OnlyPlain(w: World) {
    && (forall p :: p in w.files ==> Plain(p))
    && (w.writing.Some? && !w.writing.value.Settling? ==> Plain(w.writing.value.path))
  }

  lemma PlainIsClear(w: World, p: Path)
    requires OnlyPlain(w) && Plain(p)
    ensures Clear(w, p)
  {
    forall q | q in w.files && Place(q) == Place(p) ensures q == p {
      NormalIsUnique(q, p);
    }
  }

  lemma StaysPlain(w: World, a: Action)
    requires OnlyPlain(w) && Enabled(w, a) && (a.StartWrite? ==> Plain(a.path))
    ensures OnlyPlain(Apply(w, a))
  {
  }

  lemma {:induction false} PlainRunIsRun(w: World, acts: seq<Action>, w2: World)
    requires OnlyPlain(w) && PlainRun(w, acts, w2)
    ensures Run(w, acts, w2)
    decreases |acts|
  {
    if acts != [] {
      var a := acts[0];
      if Renames(w, a) { PlainIsClear(w, w.writing.value.path); }
      StaysPlain(w, a);
      PlainRunIsRun(Apply(w, a), acts[1..], w2);
    }
  }

  /** With plain paths every rename is clear: the accounting stays right if only the drops are undisturbed. */
  lemma PlainAccountingStaysRight(w: World, acts: seq<Action>, w2: World)
    requires Initial(w) && PlainRun(w, acts, w2)
    ensures Good(w2)
  {
    PlainRunIsRun(w, acts, w2);
    AccountingStaysRight(w, acts, w2);
  }

  // ----- Exactly when a drop is safe -----

  ghost predicate AlwaysGood(w: World) {
    forall acts, w2 :: Run(w, acts, w2) ==> Good(w2)
  }

  lemma InvIsAlwaysGood(w: World)
    requires Inv(w)
    ensures AlwaysGood(w)
  {
    forall acts, w2 | Run(w, acts, w2) ensures Good(w2) {
      RunKeeps(w, acts, w2);
    }
  }

  lemma {:induction false} RunThen(w: World, acts: seq<Action>, w1: World, a: Action)
    requires Run(w, acts, w1) && Enabled(w1, a) && Allowed(w1, a)
    ensures Run(w, acts + [a], Apply(w1, a))
    decreases |acts|
  {
    if acts == [] {
      assert Run(Apply(w, a), [], Apply(w, a));
    } else {
      RunThen(Apply(w, acts[0]), acts[1..], w1, a);
      assert (acts + [a])[1..] == acts[1..] + [a];
    }
  }

  lemma Then(v: World, acts: seq<Action>, w: World, a: Action) returns (more: seq<Action>, w2: World)
    requires Run(v, acts, w) && Enabled(w, a) && Allowed(w, a)
    ensures Run(v, more, w2) && w2 == Apply(w, a)
  {
    RunThen(v, acts, w, a);
    more, w2 := acts + [a], Apply(w, a);
  }

  /** A write that began before the drop takes the dropped size off a second time. */
  lemma WriteAfterDrop(w: World, p: Path, existing: nat, bytes: nat)
    requires w.writing == Some(Promoted(p, existing, bytes)) && p !in w.files
    requires w.size == Total(w.files) && existing > 0
    ensures Enabled(w, Account(None)) && !Good(Apply(w, Account(None)))
  {
    TotalPut(w.files, p, Meta(bytes, None));
  }

  /** The entry was being written. */
  lemma DropUnderWriteBreaks(w: World, r: nat) returns (acts: seq<Action>, w2: World)
    requires Inv(w) && Enabled(w, Resume(r)) && w.reconciles[r].gone && WritesTo(w, w.reconciles[r].path)
    requires w.reconciles[r].path in w.files && w.files[w.reconciles[r].path].bytes == w.reconciles[r].meta.bytes
    ensures Run(Apply(w, Resume(r)), acts, w2) && !Good(w2)
  {
    var c := w.reconciles[r];
    var v := Apply(w, Resume(r));
    acts, w2 := [], v;
    StaleDropIff(w.files, c.path, c.meta);
    if w.writing.value.Receiving? {
      assert Unshared(w.files, c.path);
      acts, w2 := Then(v, acts, w2, Promote(1));
    }
    WriteAfterDrop(w2, c.path, w.writing.value.existing, w2.writing.value.bytes);
    acts, w2 := Then(v, acts, w2, Account(None));
  }

  /** The file had come back. */
  lemma DropOfPresentBreaks(w: World, r: nat)
    requires Inv(w) && Enabled(w, Resume(r)) && w.reconciles[r].gone && !WritesTo(w, w.reconciles[r].path)
    requires w.reconciles[r].path in w.files && OnDisk(w, w.reconciles[r].path)
    ensures !Good(Apply(w, Resume(r)))
  {
    var p := w.reconciles[r].path;
    var v := Apply(w, Resume(r));
    assert v.disk[Place(p)].key == p && !JustRenamed(v, p) && !Reserved(Place(p));
    assert !IsListed(v, Place(p), p, v.disk[Place(p)].bytes);
  }

  /** The failing family: a drop that was disturbed breaks the accounting, at once or when the write ends. */
  lemma DisturbedDropBreaks(w: World, r: nat) returns (acts: seq<Action>, w2: World)
    requires Inv(w) && Enabled(w, Resume(r)) && w.reconciles[r].gone && !Undisturbed(w, r)
    ensures Run(Apply(w, Resume(r)), acts, w2) && !Good(w2)
  {
    var c := w.reconciles[r];
    acts, w2 := [], Apply(w, Resume(r));
    if c.path !in w.files || w.files[c.path].bytes != c.meta.bytes {
      StaleDropIff(w.files, c.path, c.meta);
    } else if WritesTo(w, c.path) {
      acts, w2 := DropUnderWriteBreaks(w, r);
    } else {
      DropOfPresentBreaks(w, r);
    }
  }

  /**
   * A drop keeps the accounting right in every continuation of allowed steps if and
   * only if it is undisturbed.
   */
  lemma DropIsSafeIff(w: World, r: nat)
    requires Inv(w) && Enabled(w, Resume(r)) && w.reconciles[r].gone
    ensures Undisturbed(w, r) <==> AlwaysGood(Apply(w, Resume(r)))
  {
    var v := Apply(w, Resume(r));
    if Undisturbed(w, r) {
      DropKeeps(w, r);
      InvIsAlwaysGood(v);
    } else {
      var acts, w2 := DisturbedDropBreaks(w, r);
      assert Run(v, acts, w2) && !Good(w2);
    }
  }

  /**
   * Only the start of a write to the path, a rename onto its file, or another
   * reconcile's drop of it, disturbs a drop.
   */
  lemma UndisturbedStays(w: World, a: Action, r: nat)
    requires Enabled(w, a) && r in w.reconciles && w.reconciles[r].Judged? && Undisturbed(w, r)
    requires a != StartWrite(w.reconciles[r].path) && a != Resume(r)
    requires Renames(w, a) ==> Place(w.writing.value.path) != Place(w.reconciles[r].path)
    requires Drops(w, a) ==> w.reconciles[a.r].path != w.reconciles[r].path
    requires !Reserved(Place(w.reconciles[r].path))
    ensures r in Apply(w, a).reconciles && Apply(w, a).reconciles[r] == w.reconciles[r] && Undisturbed(Apply(w, a), r)
  {
  }

  // ----- Exactly when a rename is safe -----

  /** Another listed text names the file: its entry is false from then on. */
  lemma SharedRenameBreaks(w: World, n: nat, q: Path)
    requires Enabled(w, Promote(n)) && q in w.files && q != w.writing.value.path
    requires Place(q) == Place(w.writing.value.path)
    ensures !Good(Apply(w, Promote(n)))
  {
    var v := Apply(w, Promote(n));
    assert OnDisk(v, q) && !JustRenamed(v, q);
  }

  /** A file under the marker's name is overwritten when its own write ends. */
  lemma MarkerRenameBreaks(w: World, n: nat) returns (acts: seq<Action>, w2: World)
    requires Enabled(w, Promote(n)) && Place(w.writing.value.path) == MARKER
    ensures Run(Apply(w, Promote(n)), acts, w2) && !Good(w2)
  {
    var p := w.writing.value.path;
    var v := Apply(w, Promote(n));
    acts, w2 := Then(v, [], v, Account(None));
    acts, w2 := Then(v, acts, w2, TouchMarker(1));
    assert p in w2.files && OnDisk(w2, p) && !JustRenamed(w2, p);
  }

  /** A file under the manifest's name is overwritten by the next commit. */
  lemma ManifestRenameBreaks(w: World, n: nat) returns (acts: seq<Action>, w2: World)
    requires Enabled(w, Promote(n)) && w.commit.NoCommit? && Place(w.writing.value.path) == MANIFEST
    ensures Run(Apply(w, Promote(n)), acts, w2) && !Good(w2)
  {
    var p := w.writing.value.path;
    var v := Apply(w, Promote(n));
    acts, w2 := Then(v, [], v, Account(None));
    acts, w2 := Then(v, acts, w2, Settle);
    acts, w2 := Then(v, acts, w2, StartCommit);
    acts, w2 := Then(v, acts, w2, WriteManifest(1));
    assert p in w2.files && OnDisk(w2, p) && !JustRenamed(w2, p);
  }

  /** The failing family: a rename that is not clear makes an entry false, at once or later. */
  lemma UnclearRenameBreaks(w: World, n: nat) returns (acts: seq<Action>, w2: World)
    requires Inv(w) && Enabled(w, Promote(n)) && !Clear(w, w.writing.value.path)
    ensures Run(Apply(w, Promote(n)), acts, w2) && !Good(w2)
  {
    var p := w.writing.value.path;
    acts, w2 := [], Apply(w, Promote(n));
    if !Unshared(w.files, p) {
      var q :| q in w.files && Place(q) == Place(p) && q != p;
      SharedRenameBreaks(w, n, q);
    } else if Place(p) == MARKER {
      acts, w2 := MarkerRenameBreaks(w, n);
    } else {
      acts, w2 := ManifestRenameBreaks(w, n);
    }
  }

  /**
   * A rename keeps the accounting right in every continuation of allowed steps if and
   * only if the file is not one of the node's own and no other listed text names it.
   */
  lemma RenameIsSafeIff(w: World, n: nat)
    requires Inv(w) && Enabled(w, Promote(n))
    ensures Clear(w, w.writing.value.path) <==> AlwaysGood(Apply(w, Promote(n)))
  {
    var v := Apply(w, Promote(n));
    if Clear(w, w.writing.value.path) {
      RenameKeeps(w, n);
      InvIsAlwaysGood(v);
    } else {
      var acts, w2 := UnclearRenameBreaks(w, n);
      assert Run(v, acts, w2) && !Good(w2);
    }
  }

  // ----- The failing families are reachable -----

  /** A write to `p` has begun. */
  lemma Started(v: World, acts: seq<Action>, w: World, p: Path) returns (more: seq<Action>, w2: World)
    requires Run(v, acts, w) && w.waiting == 0 && Unlocked(w) && (p in w.files || |w.files| < MAX_CAPTURE_FILES)
    ensures Run(v, more, w2) && w2 == w.(writing := Some(Receiving(p, Existing(w.files, p))))
  {
    more, w2 := Then(v, acts, w, Enqueue);
    more, w2 := Then(v, more, w2, StartWrite(p));
  }

  /** What a write leaves once it is accounted for. */
  lemma Accounted(w: World, n: nat)
    requires Enabled(w, Promote(n))
    ensures Enabled(Apply(w, Promote(n)), Account(None))
    ensures
      var t := w.writing.value;
      var files := w.files[t.path := Meta(n, None)];
      Apply(Apply(w, Promote(n)), Account(None))
        == w.(files := files, size := w.size - t.existing + n, count := |files|,
              disk := w.disk[Place(t.path) := Sent(t.path, n)], writing := Some(Settling))
  {
  }

  /** An upload of `n` bytes runs from its queue to its end. */
  lemma Uploaded(v: World, acts: seq<Action>, w: World, p: Path, n: nat) returns (more: seq<Action>, w2: World)
    requires Run(v, acts, w) && w.waiting == 0 && Unlocked(w) && (p in w.files || |w.files| < MAX_CAPTURE_FILES)
    requires 0 < n && w.size - Existing(w.files, p) + n <= MAX_CAPTURE_BYTES && !NamesDirectory(p.text) && Clear(w, p)
    ensures Run(v, more, w2)
    ensures
      var files := w.files[p := Meta(n, None)];
      w2 == w.(files := files, size := w.size - Existing(w.files, p) + n, count := |files|,
               disk := w.disk[Place(p) := Sent(p, n)])
  {
    more, w2 := Started(v, acts, w, p);
    Accounted(w2, n);
    more, w2 := Then(v, more, w2, Promote(n));
    more, w2 := Then(v, more, w2, Account(None));
    more, w2 := Then(v, more, w2, Settle);
  }

  lemma ReadsOne(w: World, r: nat, p: Path, m: Meta)
    requires w.waiting == 0 && w.writing.None? && r !in w.reconciles && w.files == map[p := m] && !OnDisk(w, p)
    ensures Enabled(w, Begin(r, false)) && Enabled(Apply(w, Begin(r, false)), Stat(r, p))
    ensures Apply(Apply(w, Begin(r, false)), Stat(r, p))
         == w.(reconciles := w.reconciles[r := Judged(p, m, true, map[], false, false)])
  {
    var w1 := Apply(w, Begin(r, false));
    assert w1 == w.(reconciles := w.reconciles[r := Reading(w.files, false, false)]);
    assert map[p := m] - {p} == map[];
  }

  /** A resume begins and reads the only entry, whose file is lost, as gone. */
  lemma Reads(v: World, acts: seq<Action>, w: World, r: nat, p: Path, m: Meta) returns (more: seq<Action>, w2: World)
    requires Run(v, acts, w) && w.waiting == 0 && w.writing.None? && r !in w.reconciles
    requires w.files == map[p := m] && !OnDisk(w, p)
    ensures Run(v, more, w2)
    ensures w2 == w.(reconciles := w.reconciles[r := Judged(p, m, true, map[], false, false)])
  {
    ReadsOne(w, r, p, m);
    more, w2 := Then(v, acts, w, Begin(r, false));
    more, w2 := Then(v, more, w2, Stat(r, p));
  }

  /** The draft after a first upload of `n` bytes, at `p`. */
  predicate HoldsOne(w: World, p: Path, n: nat) {
    && w.files == map[p := Meta(n, None)] && w.size == n && w.count == 1
    && w.waiting == 0 && Unlocked(w)
  }

  lemma FirstUpload(w: World, p: Path, n: nat) returns (acts: seq<Action>, w2: World)
    requires Initial(w) && 0 < n <= MAX_CAPTURE_BYTES && !NamesDirectory(p.text) && !Reserved(Place(p))
    ensures Run(w, acts, w2) && HoldsOne(w2, p, n) && w2.reconciles == map[]
    ensures w2.disk == w.disk[Place(p) := Sent(p, n)]
  {
    acts, w2 := Uploaded(w, [], w, p, n);
    assert w2.files == map[p := Meta(n, None)];
  }

  /** A file of `n` bytes is uploaded, lost from disk, and read as gone by a resume. */
  lemma ReadAsGone(w: World, p: Path, n: nat) returns (acts: seq<Action>, w2: World)
    requires Initial(w) && 0 < n <= MAX_CAPTURE_BYTES && !NamesDirectory(p.text) && !Reserved(Place(p))
    ensures Run(w, acts, w2) && HoldsOne(w2, p, n) && !OnDisk(w2, p)
    ensures w2.reconciles == map[0 := Judged(p, Meta(n, None), true, map[], false, false)]
  {
    acts, w2 := FirstUpload(w, p, n);
    acts, w2 := Then(w, acts, w2, LoseFiles({Place(p)}));
    acts, w2 := Reads(w, acts, w2, 0, p, Meta(n, None));
  }

  /**
   * The client sends the file again before the resume goes on: the drop is disturbed.
   * With the same size the total comes out right, and yet a file that is on disk
   * leaves the list; with another size the total is wrong too.
   */
  lemma UploadDuringResume(w: World, p: Path, n: nat, m: nat) returns (acts: seq<Action>, w2: World)
    requires Initial(w) && 0 < n <= MAX_CAPTURE_BYTES && 0 < m <= MAX_CAPTURE_BYTES
    requires !NamesDirectory(p.text) && !Reserved(Place(p))
    ensures Run(w, acts, w2) && Enabled(w2, Resume(0)) && Drops(w2, Resume(0)) && !Undisturbed(w2, 0)
    ensures
      var w3 := Apply(w2, Resume(0));
      !Good(w3) && OnDisk(w3, p) && p !in w3.files && (n == m <==> w3.size == Total(w3.files))
  {
    acts, w2 := ReadAsGone(w, p, n);
    acts, w2 := Uploaded(w, acts, w2, p, m);
    assert w2.files == map[p := Meta(m, None)];
    StaleDropIff(w2.files, p, Meta(n, None));
    TotalPut(map[], p, Meta(m, None));
    var w3 := Apply(w2, Resume(0));
    assert !IsListed(w3, Place(p), p, m);
  }

  /** Two resumes read the same file as gone: the second takes its size off again. */
  lemma TwoResumes(w: World, p: Path, n: nat) returns (acts: seq<Action>, w2: World)
    requires Initial(w) && 0 < n <= MAX_CAPTURE_BYTES && !NamesDirectory(p.text) && !Reserved(Place(p))
    ensures Run(w, acts, w2) && Enabled(w2, Resume(1)) && Drops(w2, Resume(1)) && !Undisturbed(w2, 1)
    ensures !Good(Apply(w2, Resume(1)))
  {
    acts, w2 := ReadAsGone(w, p, n);
    acts, w2 := Reads(w, acts, w2, 1, p, Meta(n, None));
    assert Undisturbed(w2, 0);
    acts, w2 := Then(w, acts, w2, Resume(0));
    assert w2.files == map[];
  }

  /** Two texts of one file, one after the other: one file on disk, listed twice, and counted twice. */
  lemma SharedFileIsListedTwice(w: World, p: Path, q: Path, n: nat, m: nat) returns (acts: seq<Action>, w2: World)
    requires Initial(w) && p != q && Place(p) == Place(q) && !Reserved(Place(p))
    requires !NamesDirectory(p.text) && !NamesDirectory(q.text) && 0 < n && 0 < m && n + m <= MAX_CAPTURE_BYTES
    ensures Run(w, acts, w2) && Enabled(w2, Promote(m)) && w2.writing.value.path == q && !Clear(w2, q)
    ensures
      var w3 := Apply(Apply(w2, Promote(m)), Account(None));
      && w3.files == map[p := Meta(n, None), q := Meta(m, None)] && w3.size == n + m
      && w3.disk == w.disk[Place(p) := Sent(q, m)]
  {
    acts, w2 := FirstUpload(w, p, n);
    acts, w2 := Started(w, acts, w2, q);
    Accounted(w2, m);
    TwiceOnDisk(w.disk, Place(p), Sent(p, n), Sent(q, m));
    assert p in w2.files;
  }

  lemma TwiceOnDisk(disk: map<Target, File>, t: Target, a: File, b: File)
    ensures disk[t := a][t := b] == disk[t := b]
  {
  }

  /** `a/b` and `a//b` are two such texts. */
  lemma DoubledSlashIsListedTwice(w: World, p: string, q: string, n: nat, m: nat) returns (acts: seq<Action>, w2: World)
    requires Initial(w) && p == "a/b" && q == "a//b" && 0 < n && 0 < m && n + m <= MAX_CAPTURE_BYTES
    ensures SafeRelative(p) == Some(Path(p)) && SafeRelative(q) == Some(Path(q))
    ensures Run(w, acts, w2) && Enabled(w2, Promote(m)) && !Clear(w2, Path(q))
    ensures
      var w3 := Apply(Apply(w2, Promote(m)), Account(None));
      w3.size == n + m && w3.disk == w.disk[["a", "b"] := Sent(Path(q), m)] && |w3.files| == 2
  {
    DoubledSlash(p, q);
    acts, w2 := SharedFileIsListedTwice(w, Path(p), Path(q), n, m);
    PutSize(map[Path(p) := Meta(n, None)], Path(q), Meta(m, None));
  }

  /** A file sent under the marker's name is replaced by it, and stays listed with the size that was sent. */
  lemma MarkerUploadIsReplaced(w: World, p: Path, n: nat, m: nat) returns (acts: seq<Action>, w2: World)
    requires Initial(w) && Place(p) == MARKER && !NamesDirectory(p.text) && 0 < n <= MAX_CAPTURE_BYTES && 0 < m
    ensures Run(w, acts, w2) && Enabled(w2, Promote(n)) && w2.writing.value.path == p && !Clear(w2, p)
    ensures
      var w3 := Apply(Apply(Apply(w2, Promote(n)), Account(None)), TouchMarker(m));
      w3.files == map[p := Meta(n, None)] && w3.disk == map[MARKER := Own(m)]
  {
    acts, w2 := Started(w, [], w, p);
    Accounted(w2, n);
  }

  /** So is a file sent under the manifest's name, by a commit whose state write then fails. */
  lemma ManifestUploadIsReplaced(w: World, p: Path, n: nat, m: nat) returns (acts: seq<Action>, w2: World)
    requires Initial(w) && Place(p) == MANIFEST && !NamesDirectory(p.text) && 0 < n <= MAX_CAPTURE_BYTES && 0 < m
    ensures Run(w, acts, w2) && Enabled(w2, Promote(n)) && w2.writing.value.path == p && !Clear(w2, p)
    ensures w2.commit.NoCommit?
    ensures
      var sent := Apply(Apply(Apply(w2, Promote(n)), Account(None)), Settle);
      var w3 := Apply(Apply(Apply(sent, StartCommit), WriteManifest(m)), AbandonCommit);
      w3.files == map[p := Meta(n, None)] && w3.disk == w.disk[MANIFEST := Own(m)] && Unlocked(w3)
  {
    acts, w2 := Started(w, [], w, p);
    Accounted(w2, n);
    TwiceOnDisk(w.disk, MANIFEST, Sent(p, n), Own(m));
  }
}
