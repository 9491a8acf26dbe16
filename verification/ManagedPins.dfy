/**
 * The durable pin-ownership protocol of `src/ipfs/managedPins.ts`.
 *
 * One action per stretch of code between two awaits, for every caller that
 * shares the store: acquire, release and reconcile turns on any number of
 * content identifiers, each identifier running at most one critical section
 * (`exclusive`). Kubo is part of the world: an unpin request, once submitted,
 * may take effect at any later moment, also after the node has timed out or
 * crashed. Every `store.update` may commit or fail.
 */
module ManagedPins {

  /** A canonical content identifier; `canonicalPinCid` has already been applied. */
  datatype Cid = Cid(text: string)

  /** The five owner prefixes `checkOwner` admits. */
  datatype OwnerKind = Archive | Spatial | RequesterInput | ProviderInput | Manual
  datatype Owner = Owner(kind: OwnerKind, id: string)

  datatype Ownership = Created | Preexisting | Unknown
  datatype PinState = Pending | Pinned | ReleasePending | Releasing | ReleaseUncertain | Retained | Released
  datatype Reason = NoReason | AcquisitionRetry | PreexistingOrUnknown | ActivationRequired
                  | ReleaseInFlight | ReleaseRetry | OutcomeRequiresReview

  datatype PinRecord = PinRecord(ownership: Ownership, owners: set<Owner>, state: PinState, reason: Reason)

  /** What the node had read when it decided to unpin. */
  datatype Evidence = Evidence(allowUnpin: bool, referenced: bool)

  /** Where the critical section of one identifier stands. */
  datatype Task =
    | Probing(owner: Owner)
    | Recording(owner: Owner, ownership: Ownership, probed: bool)
    | Pinning(owner: Owner, served: bool)
    | Marking(owner: Owner)
    | Noting
    | Dropping(owner: Owner)
    | Deciding
    | Writing(next: PinState, reason: Reason, evidence: Evidence)
    | Removing(evidence: Evidence)
    | Awaiting(request: nat)
    | Settling(next: PinState, reason: Reason)

  /**
   * The answer of the latest ownership probe, the answer the record holds, and
   * whether the write of the latest answer committed.
   */
  datatype Probe = Probe(answer: Ownership, stored: Ownership, written: bool)

  datatype Reply = Removed | NotPinned | Refused | Uncertain

  datatype World = World(
    records: map<Cid, PinRecord>,   // durable
    references: set<Cid>,           // identifiers `referenced` finds elsewhere in the durable state
    pins: set<Cid>,                 // what Kubo has pinned
    unpins: map<nat, Cid>,          // unpin requests Kubo may still carry out
    issued: nat,                    // number of unpin requests ever submitted
    tasks: map<Cid, Task>,          // running critical sections (memory)
    turns: multiset<Cid>,           // turns queued by reconcile passes (memory)
    probes: map<Cid, Probe>)        // history of ownership probes

  datatype Action =
    | StartAcquire(cid: Cid, owner: Owner)
    | ProbeAnswered(cid: Cid, answer: Ownership)
    | RecordOwner(cid: Cid, ok: bool)
    | KuboPins(cid: Cid)
    | PinReplied(cid: Cid, ok: bool)
    | MarkPinned(cid: Cid, ok: bool)
    | NoteRetry(cid: Cid, ok: bool)
    | StartRelease(cid: Cid, owner: Owner)
    | DropOwner(cid: Cid, ok: bool)
    | Decide(cid: Cid, allowUnpin: bool)
    | WriteDecision(cid: Cid, ok: bool)
    | SubmitUnpin(cid: Cid)
    | UnpinReplied(cid: Cid, reply: Reply)
    | SettleUnpin(cid: Cid, ok: bool)
    | ScanPending(found: set<Cid>)
    | TakeTurn(cid: Cid, allowUnpin: bool)
    | KuboUnpins(request: nat)
    | KuboRefuses(request: nat)
    | SomeonePins(cid: Cid)
    | ReferencesChange(references: set<Cid>)
    | Crash

  predicate ReleaseOutcomeOpen(record: PinRecord) {
    record.state == Releasing || record.state == ReleaseUncertain
  }

  predicate NeedsProbe(w: World, c: Cid) {
    c !in w.records || w.records[c].state == Released || w.records[c].state == Pending
  }

  /** Whether the code can take this step now. */
  predicate Enabled(w: World, a: Action) {
    match a
    case StartAcquire(c, _) => c !in w.tasks && (c in w.records ==> !ReleaseOutcomeOpen(w.records[c]))
    case ProbeAnswered(c, answer) =>
      && c in w.tasks && w.tasks[c].Probing?
      && (answer == Created ==> c !in w.pins)
      && (answer == Preexisting ==> c in w.pins)
    case RecordOwner(c, _) => c in w.tasks && w.tasks[c].Recording?
    case KuboPins(c) => c in w.tasks && w.tasks[c].Pinning?
    case PinReplied(c, ok) => c in w.tasks && w.tasks[c].Pinning? && (ok ==> w.tasks[c].served)
    case MarkPinned(c, _) => c in w.tasks && w.tasks[c].Marking? && c in w.records
    case NoteRetry(c, _) => c in w.tasks && w.tasks[c].Noting? && c in w.records
    case StartRelease(c, o) =>
      && c !in w.tasks && c in w.records && !ReleaseOutcomeOpen(w.records[c])
      && (o in w.records[c].owners || w.records[c].state == ReleasePending)
    case DropOwner(c, _) => c in w.tasks && w.tasks[c].Dropping? && c in w.records
    case Decide(c, _) => c in w.tasks && w.tasks[c].Deciding?
    case WriteDecision(c, _) => c in w.tasks && w.tasks[c].Writing? && c in w.records
    case SubmitUnpin(c) => c in w.tasks && w.tasks[c].Removing?
    case UnpinReplied(c, reply) =>
      && c in w.tasks && w.tasks[c].Awaiting?
      && (reply != Uncertain ==> w.tasks[c].request !in w.unpins)
    case SettleUnpin(c, _) => c in w.tasks && w.tasks[c].Settling? && c in w.records
    case ScanPending(found) => forall c :: c in found ==> c in w.records && w.records[c].state == ReleasePending
    case TakeTurn(c, _) => c !in w.tasks && c in w.turns
    case KuboUnpins(r) => r in w.unpins
    case KuboRefuses(r) => r in w.unpins
    case SomeonePins(_) => true
    case ReferencesChange(_) => true
    case Crash => true
  }

  function End(w: World, c: Cid): World {
    w.(tasks := w.tasks - {c})
  }

  function Goto(w: World, c: Cid, t: Task): World {
    w.(tasks := w.tasks[c := t])
  }

  function Store(w: World, c: Cid, r: PinRecord): World {
    w.(records := w.records[c := r])
  }

  /** What the deciding snapshot shows of `c`. */
  function Read(w: World, c: Cid, allowUnpin: bool): Evidence {
    Evidence(allowUnpin, c in w.references)
  }

  /** `releaseUnreferenced` up to its first write: what the snapshot says happens next. */
  function DecideFrom(w: World, c: Cid, allowUnpin: bool): World {
    if c !in w.records || w.records[c].owners != {} || c in w.references then End(w, c)
    else if w.records[c].ownership != Created then
      Goto(w, c, Writing(Retained, PreexistingOrUnknown, Read(w, c, allowUnpin)))
    else if !allowUnpin then
      if w.records[c].state == ReleasePending && w.records[c].reason == ActivationRequired then End(w, c)
      else Goto(w, c, Writing(ReleasePending, ActivationRequired, Read(w, c, allowUnpin)))
    else Goto(w, c, Writing(Releasing, ReleaseInFlight, Read(w, c, allowUnpin)))
  }

  function AfterDrop(r: PinRecord, o: Owner): PinRecord {
    var left := r.owners - {o};
    r.(owners := left, state := if left == {} then ReleasePending else r.state)
  }

  function SettleFor(reply: Reply): Task {
    match reply
    case Removed => Settling(Released, NoReason)
    case NotPinned => Settling(Released, NoReason)
    case Refused => Settling(ReleasePending, ReleaseRetry)
    case Uncertain => Settling(ReleaseUncertain, OutcomeRequiresReview)
  }

  function RecordedOwner(w: World, c: Cid, o: Owner, ownership: Ownership): PinRecord {
    var owners := if c in w.records then w.records[c].owners else {};
    PinRecord(ownership, owners + {o}, Pending, NoReason)
  }

  /** The world after the step. */
  function Apply(w: World, a: Action): World
    requires Enabled(w, a)
  {
    match a
    case StartAcquire(c, o) =>
      Goto(w, c, if NeedsProbe(w, c) then Probing(o) else Recording(o, w.records[c].ownership, false))
    case ProbeAnswered(c, answer) =>
      var stored := if c in w.probes then w.probes[c].stored else Unknown;
      Goto(w.(probes := w.probes[c := Probe(answer, stored, false)]), c, Recording(w.tasks[c].owner, answer, true))
    case RecordOwner(c, ok) =>
      var t := w.tasks[c];
      if !ok then End(w, c)
      else
        var last := if c in w.probes then w.probes[c] else Probe(t.ownership, t.ownership, true);
        var stored := Probe(last.answer, t.ownership, t.probed || last.written);
        Goto(Store(w, c, RecordedOwner(w, c, t.owner, t.ownership)).(probes := w.probes[c := stored]), c,
          Pinning(t.owner, false))
    case KuboPins(c) => Goto(w, c, Pinning(w.tasks[c].owner, true)).(pins := w.pins + {c})
    case PinReplied(c, ok) => Goto(w, c, if ok then Marking(w.tasks[c].owner) else Noting)
    case MarkPinned(c, ok) =>
      if ok then End(Store(w, c, w.records[c].(state := Pinned)), c) else Goto(w, c, Noting)
    case NoteRetry(c, ok) =>
      if ok then End(Store(w, c, w.records[c].(reason := AcquisitionRetry)), c) else End(w, c)
    case StartRelease(c, o) => Goto(w, c, Dropping(o))
    case DropOwner(c, ok) =>
      if ok then Goto(Store(w, c, AfterDrop(w.records[c], w.tasks[c].owner)), c, Deciding) else End(w, c)
    case Decide(c, allowUnpin) => DecideFrom(w, c, allowUnpin)
    case WriteDecision(c, ok) =>
      var t := w.tasks[c];
      if !ok then End(w, c)
      else
        var stored := Store(w, c, w.records[c].(state := t.next, reason := t.reason));
        if t.next == Releasing then Goto(stored, c, Removing(t.evidence)) else End(stored, c)
    case SubmitUnpin(c) =>
      Goto(w, c, Awaiting(w.issued)).(unpins := w.unpins[w.issued := c], issued := w.issued + 1)
    case UnpinReplied(c, reply) => Goto(w, c, SettleFor(reply))
    case SettleUnpin(c, ok) =>
      var t := w.tasks[c];
      if ok then End(Store(w, c, w.records[c].(state := t.next, reason := t.reason)), c) else End(w, c)
    case ScanPending(found) => w.(turns := w.turns + multiset(found))
    case TakeTurn(c, allowUnpin) => DecideFrom(w.(turns := w.turns - multiset{c}), c, allowUnpin)
    case KuboUnpins(r) => w.(unpins := w.unpins - {r}, pins := w.pins - {w.unpins[r]})
    case KuboRefuses(r) => w.(unpins := w.unpins - {r})
    case SomeonePins(c) => w.(pins := w.pins + {c})
    case ReferencesChange(references) => w.(references := references)
    case Crash => w.(tasks := map[], turns := multiset{})
  }

  // ----- Runs -----

  /** A fresh store; Kubo and the rest of the state hold anything. */
  predicate Initial(w: World) {
    w.records == map[] && w.unpins == map[] && w.issued == 0 && w.tasks == map[] && w.turns == multiset{} &&
      w.probes == map[]
  }

  /**
   * The side condition line 267 leaves unchecked: a reconcile turn does not find
   * its record with a release whose outcome is open.
   */
  predicate TurnFindsNoOpenRelease(w: World, a: Action) {
    a.TakeTurn? && a.cid in w.records ==> !ReleaseOutcomeOpen(w.records[a.cid])
  }

  /** `w2` is reached from `w` by `acts`, every turn meeting the side condition. */
  predicate Run(w: World, acts: seq<Action>, w2: World)
    decreases |acts|
  {
    if acts == [] then w == w2
    else
      && Enabled(w, acts[0]) && TurnFindsNoOpenRelease(w, acts[0])
      && Run(Apply(w, acts[0]), acts[1..], w2)
  }

  /** `w2` is reached from `w` by `acts`, whatever the turns find. */
  predicate Steps(w: World, acts: seq<Action>, w2: World)
    decreases |acts|
  {
    if acts == [] then w == w2 else Enabled(w, acts[0]) && Steps(Apply(w, acts[0]), acts[1..], w2)
  }

  /** No turn among `acts` finds an open release. */
  predicate Settled(w: World, acts: seq<Action>)
    decreases |acts|
  {
    acts == [] || (Enabled(w, acts[0]) && TurnFindsNoOpenRelease(w, acts[0]) && Settled(Apply(w, acts[0]), acts[1..]))
  }

  lemma {:induction false} SettledSteps(w: World, acts: seq<Action>, w2: World)
    requires Steps(w, acts, w2) && Settled(w, acts)
    ensures Run(w, acts, w2)
    decreases |acts|
  {
    if acts != [] { SettledSteps(Apply(w, acts[0]), acts[1..], w2); }
  }

  lemma {:induction false} StepsJoin(w: World, acts: seq<Action>, w1: World, more: seq<Action>, w2: World)
    requires Steps(w, acts, w1) && Steps(w1, more, w2)
    ensures Steps(w, acts + more, w2)
    decreases |acts|
  {
    if acts == [] {
      assert acts + more == more;
    } else {
      StepsJoin(Apply(w, acts[0]), acts[1..], w1, more, w2);
      assert (acts + more)[1..] == acts[1..] + more;
    }
  }

  /** The promise to an owner: a record that says pinned is pinned in Kubo. */
  predicate OwnersServed(w: World) {
    forall c :: c in w.records && w.records[c].state == Pinned && w.records[c].owners != {} ==> c in w.pins
  }

  // ----- The invariant -----

  predicate NoUnpin(w: World, c: Cid) {
    forall r :: r in w.unpins ==> w.unpins[r] != c
  }

  predicate Unowned(w: World, c: Cid, state: PinState) {
    c in w.records && w.records[c].state == state && w.records[c].owners == {} && w.records[c].ownership == Created
  }

  predicate Justified(e: Evidence) {
    e.allowUnpin && !e.referenced
  }

  predicate TaskInv(w: World, c: Cid, t: Task) {
    match t
    case Probing(_) => NoUnpin(w, c) && NeedsProbe(w, c)
    case Recording(_, ownership, probed) =>
      && NoUnpin(w, c)
      && (probed ==> NeedsProbe(w, c))
      && (probed ==> c in w.probes && w.probes[c].answer == ownership)
      && (!probed ==> c in w.records && w.records[c].ownership == ownership)
    case Pinning(o, served) =>
      NoUnpin(w, c) && c in w.records && o in w.records[c].owners && (served ==> c in w.pins)
    case Marking(o) => NoUnpin(w, c) && c in w.records && o in w.records[c].owners && c in w.pins
    case Noting => NoUnpin(w, c) && c in w.records
    case Dropping(_) => NoUnpin(w, c) && c in w.records
    case Deciding => NoUnpin(w, c) && c in w.records
    case Writing(next, _, e) =>
      && NoUnpin(w, c) && c in w.records && w.records[c].owners == {}
      && next in {Retained, ReleasePending, Releasing}
      && (next == Releasing ==> w.records[c].ownership == Created && Justified(e))
    case Removing(e) =>
      NoUnpin(w, c) && Unowned(w, c, Releasing) && Justified(e)
    case Awaiting(request) =>
      && Unowned(w, c, Releasing) && request < w.issued
      && (forall r :: r in w.unpins && w.unpins[r] == c ==> r == request)
    case Settling(next, _) =>
      && Unowned(w, c, Releasing)
      && next in {Released, ReleasePending, ReleaseUncertain}
      && (next != ReleaseUncertain ==> NoUnpin(w, c))
  }

  predicate RecordInv(w: World, c: Cid) {
    c in w.records ==>
      && c in w.probes && w.probes[c].stored == w.records[c].ownership
      && (w.probes[c].written ==> w.probes[c].answer == w.probes[c].stored)
      && (w.records[c].state == Pinned ==> c in w.pins)
      && (w.records[c].state == Pending ==> w.records[c].owners != {})
      && (w.records[c].state == Released ==> w.records[c].owners == {})
  }

  /** An outstanding unpin blocks every new owner of its identifier. */
  predicate UnpinInv(w: World, c: Cid) {
    NoUnpin(w, c) || Unowned(w, c, Releasing) || Unowned(w, c, ReleaseUncertain)
  }

  predicate CidInv(w: World, c: Cid) {
    && RecordInv(w, c)
    && UnpinInv(w, c)
    && (c in w.tasks ==> TaskInv(w, c, w.tasks[c]))
  }

  ghost predicate Inv(w: World) {
    && (forall r :: r in w.unpins ==> r < w.issued)
    && forall c :: CidInv(w, c)
  }

  predicate AcquireStep(a: Action) {
    a.StartAcquire? || a.ProbeAnswered? || a.RecordOwner? || a.KuboPins? || a.PinReplied? || a.MarkPinned? ||
      a.NoteRetry?
  }

  predicate ReleaseStep(a: Action) {
    a.StartRelease? || a.DropOwner? || a.WriteDecision?
  }

  predicate UnpinStep(a: Action) {
    a.SubmitUnpin? || a.UnpinReplied? || a.SettleUnpin?
  }

  /** Steps of the critical section of `a.cid`. */
  predicate Local(a: Action) {
    AcquireStep(a) || ReleaseStep(a) || UnpinStep(a) || a.Decide? || a.TakeTurn?
  }

  /** The two worlds agree on everything the invariant reads about `c`. */
  predicate Agree(w: World, w2: World, c: Cid) {
    && (c in w.records <==> c in w2.records) && (c in w.records ==> w.records[c] == w2.records[c])
    && (c in w.tasks <==> c in w2.tasks) && (c in w.tasks ==> w.tasks[c] == w2.tasks[c])
    && (c in w.probes <==> c in w2.probes) && (c in w.probes ==> w.probes[c] == w2.probes[c])
    && (c in w.pins <==> c in w2.pins)
    && w.issued <= w2.issued
    && (forall r :: r in w2.unpins && w2.unpins[r] == c ==> r in w.unpins && w.unpins[r] == c)
  }

  lemma AgreeKeeps(w: World, w2: World, c: Cid)
    requires CidInv(w, c) && Agree(w, w2, c)
    ensures CidInv(w2, c)
  {
    assert NoUnpin(w, c) ==> NoUnpin(w2, c);
  }

  lemma AcquireElsewhere(w: World, a: Action, c: Cid)
    requires Enabled(w, a) && AcquireStep(a) && c != a.cid
    ensures Agree(w, Apply(w, a), c)
  {
  }

  lemma ReleaseElsewhere(w: World, a: Action, c: Cid)
    requires Enabled(w, a) && ReleaseStep(a) && c != a.cid
    ensures Agree(w, Apply(w, a), c)
  {
  }

  lemma UnpinElsewhere(w: World, a: Action, c: Cid)
    requires Enabled(w, a) && UnpinStep(a) && c != a.cid
    ensures Agree(w, Apply(w, a), c)
  {
  }

  lemma DecideElsewhere(w: World, d: Cid, allowUnpin: bool, c: Cid)
    requires c != d
    ensures Agree(w, DecideFrom(w, d, allowUnpin), c)
  {
  }

  lemma AgreeElsewhere(w: World, a: Action, c: Cid)
    requires Enabled(w, a) && Local(a) && c != a.cid
    ensures Agree(w, Apply(w, a), c)
  {
    if AcquireStep(a) { AcquireElsewhere(w, a, c); }
    else if ReleaseStep(a) { ReleaseElsewhere(w, a, c); }
    else if UnpinStep(a) { UnpinElsewhere(w, a, c); }
    else if a.Decide? { DecideElsewhere(w, a.cid, a.allowUnpin, c); }
    else { DecideElsewhere(w.(turns := w.turns - multiset{a.cid}), a.cid, a.allowUnpin, c); }
  }

  lemma ElsewhereUntouched(w: World, a: Action, c: Cid)
    requires Inv(w) && Enabled(w, a) && Local(a) && c != a.cid
    ensures CidInv(Apply(w, a), c)
  {
    AgreeElsewhere(w, a, c);
    AgreeKeeps(w, Apply(w, a), c);
  }

  lemma AcquireKeeps(w: World, a: Action)
    requires Inv(w) && Enabled(w, a)
    requires AcquireStep(a)
    ensures CidInv(Apply(w, a), a.cid)
  {
    assert CidInv(w, a.cid);
  }

  /** Whatever `releaseUnreferenced` decides while no unpin is outstanding keeps the invariant. */
  lemma DecideKeeps(w: World, c: Cid, allowUnpin: bool)
    requires RecordInv(w, c) && NoUnpin(w, c)
    ensures CidInv(DecideFrom(w, c, allowUnpin), c)
  {
    var w2 := DecideFrom(w, c, allowUnpin);
    assert NoUnpin(w2, c);
  }

  lemma ReleaseKeeps(w: World, a: Action)
    requires Inv(w) && Enabled(w, a)
    requires ReleaseStep(a)
    ensures CidInv(Apply(w, a), a.cid)
  {
    assert CidInv(w, a.cid);
  }

  lemma UnpinKeeps(w: World, a: Action)
    requires Inv(w) && Enabled(w, a)
    requires UnpinStep(a)
    ensures CidInv(Apply(w, a), a.cid)
  {
    assert CidInv(w, a.cid);
  }

  lemma EnvironmentKeeps(w: World, a: Action, c: Cid)
    requires Inv(w) && Enabled(w, a) && !Local(a)
    ensures CidInv(Apply(w, a), c)
  {
    var w2 := Apply(w, a);
    assert CidInv(w, c);
    if a.ScanPending? || a.ReferencesChange? || a.KuboRefuses? {
      AgreeKeeps(w, w2, c);
    } else {
      assert NoUnpin(w, c) ==> NoUnpin(w2, c);
    }
  }

  /** A turn that runs while no unpin of its identifier is outstanding, or that ends at once, is harmless. */
  predicate HarmlessTurn(w: World, c: Cid) {
    NoUnpin(w, c) || c !in w.records || w.records[c].owners != {} || c in w.references
  }

  lemma HarmlessTurnKeeps(w: World, c: Cid, allowUnpin: bool)
    requires Inv(w) && Enabled(w, TakeTurn(c, allowUnpin)) && HarmlessTurn(w, c)
    ensures Inv(Apply(w, TakeTurn(c, allowUnpin)))
  {
    var w2 := Apply(w, TakeTurn(c, allowUnpin));
    assert CidInv(w, c);
    if NoUnpin(w, c) {
      DecideKeeps(w.(turns := w.turns - multiset{c}), c, allowUnpin);
    }
    forall d ensures CidInv(w2, d) {
      if d != c { ElsewhereUntouched(w, TakeTurn(c, allowUnpin), d); }
    }
  }

  /** Every step keeps the invariant. */
  lemma StepKeeps(w: World, a: Action)
    requires Inv(w) && Enabled(w, a) && TurnFindsNoOpenRelease(w, a)
    ensures Inv(Apply(w, a))
  {
    if a.TakeTurn? {
      assert CidInv(w, a.cid);
      HarmlessTurnKeeps(w, a.cid, a.allowUnpin);
      return;
    }
    forall c ensures CidInv(Apply(w, a), c) {
      StepKeepsCid(w, a, c);
    }
  }

  lemma StepKeepsCid(w: World, a: Action, c: Cid)
    requires Inv(w) && Enabled(w, a) && !a.TakeTurn?
    ensures CidInv(Apply(w, a), c)
  {
    if !Local(a) { EnvironmentKeeps(w, a, c); }
    else if c != a.cid { ElsewhereUntouched(w, a, c); }
    else if a.Decide? { assert CidInv(w, c); DecideKeeps(w, c, a.allowUnpin); }
    else if ReleaseStep(a) { ReleaseKeeps(w, a); }
    else if UnpinStep(a) { UnpinKeeps(w, a); }
    else { AcquireKeeps(w, a); }
  }

  lemma {:induction false} RunKeeps(w: World, acts: seq<Action>, w2: World)
    requires Inv(w) && Run(w, acts, w2)
    ensures Inv(w2)
    decreases |acts|
  {
    if acts != [] {
      StepKeeps(w, acts[0]);
      RunKeeps(Apply(w, acts[0]), acts[1..], w2);
    }
  }

  lemma InvServesOwners(w: World)
    requires Inv(w)
    ensures OwnersServed(w)
  {
    forall c | c in w.records && w.records[c].state == Pinned ensures c in w.pins {
      assert CidInv(w, c);
    }
  }

  /**
   * In every run, with any crashes, failed writes and unpins that take effect
   * arbitrarily late, a record in state `pinned` is pinned in Kubo, and an unpin
   * that may still take effect is for a record no owner can join.
   */
  lemma PinnedRecordsArePinned(w: World, acts: seq<Action>, w2: World)
    requires Initial(w) && Run(w, acts, w2)
    ensures OwnersServed(w2)
    ensures forall r, o :: r in w2.unpins ==> !Enabled(w2, StartAcquire(w2.unpins[r], o))
  {
    assert forall c :: CidInv(w, c);
    RunKeeps(w, acts, w2);
    InvServesOwners(w2);
    forall r, o | r in w2.unpins ensures !Enabled(w2, StartAcquire(w2.unpins[r], o)) {
      assert CidInv(w2, w2.unpins[r]);
    }
  }

  /**
   * Every unpin submitted in any run is for an identifier whose recorded
   * ownership probe read it as absent from Kubo, without owners, unreferenced in
   * the snapshot that decided, with activation on, and already durably `releasing`.
   */
  lemma UnpinIsJustified(w: World, acts: seq<Action>, w2: World, c: Cid)
    requires Initial(w) && Run(w, acts, w2) && Enabled(w2, SubmitUnpin(c))
    ensures c in w2.records && w2.records[c].state == Releasing && w2.records[c].owners == {}
    ensures c in w2.probes && w2.probes[c].stored == Created
    ensures w2.probes[c].written ==> w2.probes[c].answer == Created
    ensures w2.tasks[c].evidence.allowUnpin && !w2.tasks[c].evidence.referenced
    ensures forall r :: r in w2.unpins ==> w2.unpins[r] != c
  {
    assert forall d :: CidInv(w, d);
    RunKeeps(w, acts, w2);
    assert CidInv(w2, c);
  }

  // ----- Why the side condition is needed, and exactly when a turn breaks the promise -----

  lemma {:induction false} RunThen(w: World, acts: seq<Action>, w1: World, a: Action)
    requires Run(w, acts, w1) && Enabled(w1, a) && TurnFindsNoOpenRelease(w1, a)
    ensures Run(w, acts + [a], Apply(w1, a))
    decreases |acts|
  {
    if acts == [] {
      assert Run(Apply(w, a), [], Apply(w, a));
    } else {
      RunThen(Apply(w, acts[0]), acts[1..], w1, a);
      assert (acts + [a])[1..] == acts[1..] + [a];
    }
  }

  lemma Then(v: World, acts: seq<Action>, w: World, a: Action) returns (more: seq<Action>, w2: World)
    requires Run(v, acts, w) && Enabled(w, a) && !a.TakeTurn?
    ensures Run(v, more, w2) && w2 == Apply(w, a)
  {
    RunThen(v, acts, w, a);
    more, w2 := acts + [a], Apply(w, a);
  }

  predicate Outstanding(w: World, r: nat, c: Cid) {
    r in w.unpins && w.unpins[r] == c
  }

  lemma OwnerJoins(v: World, acts: seq<Action>, w: World, c: Cid, r: nat, o: Owner)
    returns (more: seq<Action>, w2: World)
    requires Run(v, acts, w) && Outstanding(w, r, c) && Enabled(w, StartAcquire(c, o))
    ensures Run(v, more, w2) && Outstanding(w2, r, c) && c in w2.tasks && w2.tasks[c] == Pinning(o, false)
    ensures c in w2.records && o in w2.records[c].owners
  {
    more, w2 := Then(v, acts, w, StartAcquire(c, o));
    if w2.tasks[c].Probing? {
      more, w2 := Then(v, more, w2, ProbeAnswered(c, Unknown));
    }
    more, w2 := Then(v, more, w2, RecordOwner(c, true));
  }

  /** An owner who is let in while an older unpin is outstanding loses the pin when it lands. */
  lemma LateUnpinStrands(v: World, acts: seq<Action>, w: World, c: Cid, r: nat, o: Owner)
    returns (more: seq<Action>, w2: World)
    requires Run(v, acts, w) && Outstanding(w, r, c) && Enabled(w, StartAcquire(c, o))
    ensures Run(v, more, w2) && !OwnersServed(w2)
  {
    more, w2 := OwnerJoins(v, acts, w, c, r, o);
    more, w2 := Then(v, more, w2, KuboPins(c));
    more, w2 := Then(v, more, w2, PinReplied(c, true));
    more, w2 := Then(v, more, w2, MarkPinned(c, true));
    more, w2 := Then(v, more, w2, KuboUnpins(r));
    assert o in w2.records[c].owners;
  }

  /** With activation on, the second unpin of a stale turn settles the record while the first is outstanding. */
  lemma SecondUnpinSettles(v: World, acts: seq<Action>, w: World, c: Cid, r: nat) returns (more: seq<Action>, w2: World)
    requires Run(v, acts, w) && Outstanding(w, r, c) && r < w.issued
    requires c in w.tasks && w.tasks[c].Removing? && c in w.records
    ensures Run(v, more, w2) && Outstanding(w2, r, c)
    ensures c !in w2.tasks && c in w2.records && w2.records[c].state == Released
  {
    more, w2 := SecondUnpinServed(v, acts, w, c, r);
    more, w2 := Then(v, more, w2, UnpinReplied(c, Removed));
    more, w2 := Then(v, more, w2, SettleUnpin(c, true));
  }

  lemma SecondUnpinServed(v: World, acts: seq<Action>, w: World, c: Cid, r: nat) returns (more: seq<Action>, w2: World)
    requires Run(v, acts, w) && Outstanding(w, r, c) && r < w.issued
    requires c in w.tasks && w.tasks[c].Removing? && c in w.records
    ensures Run(v, more, w2) && Outstanding(w2, r, c)
    ensures c in w2.tasks && w2.tasks[c] == Awaiting(w.issued) && w.issued !in w2.unpins && c in w2.records
  {
    more, w2 := Then(v, acts, w, SubmitUnpin(c));
    more, w2 := Then(v, more, w2, KuboUnpins(w.issued));
  }

  lemma StaleTurnWrites(w: World, c: Cid, allowUnpin: bool, r: nat) returns (acts: seq<Action>, w2: World)
    requires Inv(w) && Enabled(w, TakeTurn(c, allowUnpin)) && !HarmlessTurn(w, c) && Outstanding(w, r, c)
    ensures Run(Apply(w, TakeTurn(c, allowUnpin)), acts, w2) && Outstanding(w2, r, c) && c in w2.records
    ensures allowUnpin ==> c in w2.tasks && w2.tasks[c].Removing? && r < w2.issued
    ensures !allowUnpin ==> c !in w2.tasks && w2.records[c].state == ReleasePending
  {
    assert CidInv(w, c);
    var v := Apply(w, TakeTurn(c, allowUnpin));
    assert v.tasks[c].Writing? && v.tasks[c].next == if allowUnpin then Releasing else ReleasePending;
    acts, w2 := Then(v, [], v, WriteDecision(c, true));
  }

  /** The failing family: a turn taken while an unpin is outstanding and nothing stops it early. */
  lemma StaleTurnStrands(w: World, c: Cid, allowUnpin: bool, o: Owner) returns (acts: seq<Action>, w2: World)
    requires Inv(w) && Enabled(w, TakeTurn(c, allowUnpin)) && !HarmlessTurn(w, c)
    ensures Run(Apply(w, TakeTurn(c, allowUnpin)), acts, w2) && !OwnersServed(w2)
  {
    var r :| r in w.unpins && w.unpins[r] == c;
    acts, w2 := StaleTurnWrites(w, c, allowUnpin, r);
    if allowUnpin {
      acts, w2 := SecondUnpinSettles(Apply(w, TakeTurn(c, allowUnpin)), acts, w2, c, r);
    }
    acts, w2 := LateUnpinStrands(Apply(w, TakeTurn(c, allowUnpin)), acts, w2, c, r, o);
  }

  ghost predicate AlwaysServesOwners(w: World) {
    forall acts, w2 :: Run(w, acts, w2) ==> OwnersServed(w2)
  }

  /**
   * Exactly when a reconcile turn is safe: every continuation still serves its
   * owners if and only if the turn is harmless. A caller that re-reads the record
   * and goes on only when no release outcome is open always makes it harmless.
   */
  lemma TurnIsSafeIffHarmless(w: World, c: Cid, allowUnpin: bool)
    requires Inv(w) && Enabled(w, TakeTurn(c, allowUnpin))
    ensures HarmlessTurn(w, c) <==> AlwaysServesOwners(Apply(w, TakeTurn(c, allowUnpin)))
    ensures TurnFindsNoOpenRelease(w, TakeTurn(c, allowUnpin)) ==> HarmlessTurn(w, c)
  {
    var v := Apply(w, TakeTurn(c, allowUnpin));
    assert CidInv(w, c);
    if HarmlessTurn(w, c) {
      HarmlessTurnKeeps(w, c, allowUnpin);
      forall acts, w2 | Run(v, acts, w2) ensures OwnersServed(w2) {
        RunKeeps(v, acts, w2);
        InvServesOwners(w2);
      }
    } else {
      var acts, w2 := StaleTurnStrands(w, c, allowUnpin, Owner(Manual, "x"));
      assert Run(v, acts, w2) && !OwnersServed(w2);
    }
  }

  /** The failing family is reachable: two reconcile passes scan the same record, and the first ends uncertain. */
  lemma StaleTurnIsReachable(w: World, c: Cid, o: Owner) returns (acts: seq<Action>, w2: World)
    requires Initial(w) && c !in w.pins && c !in w.references
    ensures Run(w, acts, w2) && Enabled(w2, TakeTurn(c, true)) && !HarmlessTurn(w2, c)
  {
    acts, w2 := LeftPending(w, c, o);
    acts, w2 := DropsSoleOwner(w, acts, w2, c, o);
    acts, w2 := Then(w, acts, w2, Crash);
    acts, w2 := FirstTurnDecides(w, acts, w2, c);
    acts, w2 := FirstTurnUncertain(w, acts, w2, c);
  }

  lemma FirstTurnDecides(v: World, acts: seq<Action>, w: World, c: Cid) returns (more: seq<Action>, w2: World)
    requires Run(v, acts, w) && c !in w.tasks && c !in w.references
    requires c in w.records && w.records[c] == PinRecord(Created, {}, ReleasePending, NoReason)
    ensures Run(v, more, w2) && c in w2.turns && c !in w2.references && w2.records == w.records
    ensures c in w2.tasks && w2.tasks[c].Writing? && w2.tasks[c].next == Releasing
  {
    more, w2 := Then(v, acts, w, ScanPending({c}));
    more, w2 := Then(v, more, w2, ScanPending({c}));
    RunThen(v, more, w2, TakeTurn(c, true));
    more, w2 := more + [TakeTurn(c, true)], Apply(w2, TakeTurn(c, true));
  }

  lemma FirstTurnUncertain(v: World, acts: seq<Action>, w: World, c: Cid) returns (more: seq<Action>, w2: World)
    requires Run(v, acts, w) && c in w.turns && c !in w.references
    requires c in w.tasks && w.tasks[c].Writing? && w.tasks[c].next == Releasing
    requires c in w.records && w.records[c].owners == {}
    ensures Run(v, more, w2) && Enabled(w2, TakeTurn(c, true)) && !HarmlessTurn(w2, c)
  {
    more, w2 := FirstTurnSubmits(v, acts, w, c);
    more, w2 := Then(v, more, w2, UnpinReplied(c, Uncertain));
    more, w2 := Then(v, more, w2, SettleUnpin(c, false));
    assert Outstanding(w2, w.issued, c);
  }

  lemma FirstTurnSubmits(v: World, acts: seq<Action>, w: World, c: Cid) returns (more: seq<Action>, w2: World)
    requires Run(v, acts, w) && c in w.tasks && w.tasks[c].Writing? && w.tasks[c].next == Releasing && c in w.records
    ensures Run(v, more, w2) && w2.turns == w.turns && w2.references == w.references
    ensures c in w2.records && w2.records[c].owners == w.records[c].owners
    ensures c in w2.tasks && w2.tasks[c].Awaiting? && Outstanding(w2, w.issued, c)
  {
    more, w2 := Then(v, acts, w, WriteDecision(c, true));
    more, w2 := Then(v, more, w2, SubmitUnpin(c));
  }

  /**
   * The latest probe of all need not have read absence: an acquire that re-probed
   * a pending record, saw a foreign pin and failed to write that answer leaves the
   * older answer in charge of the unpin.
   */
  lemma LostProbeAnswer(w: World, c: Cid, o1: Owner, o2: Owner) returns (acts: seq<Action>, w2: World)
    requires Initial(w) && c !in w.pins && c !in w.references
    ensures Run(w, acts, w2) && Enabled(w2, SubmitUnpin(c))
    ensures c in w2.probes && w2.probes[c].answer == Preexisting
  {
    acts, w2 := LeftPending(w, c, o1);
    acts, w2 := Then(w, acts, w2, SomeonePins(c));
    acts, w2 := Then(w, acts, w2, StartAcquire(c, o2));
    acts, w2 := Then(w, acts, w2, ProbeAnswered(c, Preexisting));
    acts, w2 := Then(w, acts, w2, RecordOwner(c, false));
    acts, w2 := ReleasesSoleOwner(w, acts, w2, c, o1);
  }

  lemma LeftPending(w: World, c: Cid, o: Owner) returns (acts: seq<Action>, w2: World)
    requires Initial(w) && c !in w.pins && c !in w.references
    ensures Run(w, acts, w2) && c !in w2.tasks && c !in w2.references
    ensures c in w2.records && w2.records[c] == PinRecord(Created, {o}, Pending, NoReason)
  {
    acts, w2 := Then(w, [], w, StartAcquire(c, o));
    acts, w2 := Then(w, acts, w2, ProbeAnswered(c, Created));
    acts, w2 := Then(w, acts, w2, RecordOwner(c, true));
    acts, w2 := Then(w, acts, w2, Crash);
  }

  lemma ReleasesSoleOwner(v: World, acts: seq<Action>, w: World, c: Cid, o: Owner)
    returns (more: seq<Action>, w2: World)
    requires Run(v, acts, w) && c !in w.tasks && c !in w.references
    requires c in w.records && w.records[c] == PinRecord(Created, {o}, Pending, NoReason)
    ensures Run(v, more, w2) && Enabled(w2, SubmitUnpin(c)) && w2.probes == w.probes
  {
    more, w2 := DropsSoleOwner(v, acts, w, c, o);
    more, w2 := Then(v, more, w2, Decide(c, true));
    more, w2 := Then(v, more, w2, WriteDecision(c, true));
  }

  lemma DropsSoleOwner(v: World, acts: seq<Action>, w: World, c: Cid, o: Owner) returns (more: seq<Action>, w2: World)
    requires Run(v, acts, w) && c !in w.tasks && c !in w.references
    requires c in w.records && w.records[c] == PinRecord(Created, {o}, Pending, NoReason)
    ensures Run(v, more, w2) && w2.probes == w.probes && c !in w2.references
    ensures c in w2.tasks && w2.tasks[c] == Deciding
    ensures c in w2.records && w2.records[c] == PinRecord(Created, {}, ReleasePending, NoReason)
  {
    more, w2 := Then(v, acts, w, StartRelease(c, o));
    more, w2 := Then(v, more, w2, DropOwner(c, true));
    assert {o} - {o} == {};
  }
}
