/**
 * `reconcileDesiredPins` of `src/operator/commitments.ts` over the pin protocol of
 * `ManagedPins`. The run is a sequence of that protocol's own steps, and at every
 * await the node's other callers take any run of theirs.
 *
 * Other callers act for spatial, compute and manual owners; no second archive run
 * overlaps this one.
 */
module ArchivePins {
  import opened ManagedPins
  import opened ArchivePlan
  import opened Wrappers

  type Registration = (Cid, Owner)

  function OwnersOf(records: map<Cid, PinRecord>, c: Cid): set<Owner> {
    if c in records then records[c].owners else {}
  }

  /** The archive's registrations in the ledger. */
  function Archived(records: map<Cid, PinRecord>): set<Registration> {
    set c, o | c in records && o in records[c].owners && o.kind.Archive? :: (c, o)
  }

  /** What other callers may do while this one waits, `held` being locked. */
  predicate Interference(w: World, w2: World, held: Option<Cid>) {
    && Archived(w2.records) == Archived(w.records)
    && (held.Some? ==>
      && (held.value in w2.records <==> held.value in w.records)
      && (held.value in w.records ==> w2.records[held.value] == w.records[held.value])
      && (held.value in w.tasks ==> held.value in w2.tasks && w2.tasks[held.value] == w.tasks[held.value]))
  }

  /** The registrations of `c` that differ between two owner sets. */
  function Changed(c: Cid, a: set<Owner>, b: set<Owner>): set<Registration> {
    set o | o in (a - b) + (b - a) :: (c, o)
  }

  lemma ArchivedAfterPut(records: map<Cid, PinRecord>, c: Cid, r: PinRecord)
    ensures forall p :: p in Archived(records[c := r]) <==>
      if p.0 == c then p.1 in r.owners && p.1.kind.Archive? else p in Archived(records)
  {
  }

  /** What the release of an unowned, unreferenced record `r` may leave behind. */
  predicate Decided(r: PinRecord, allowUnpin: bool, ok: bool, state: PinState, reason: Reason) {
    if r.ownership != Created then
      if ok then (state, reason) == (Retained, PreexistingOrUnknown) else (state, reason) == (r.state, r.reason)
    else if !allowUnpin then
      if ok then (state, reason) == (ReleasePending, ActivationRequired) else (state, reason) == (r.state, r.reason)
    else if ok then (state, reason) == (Released, NoReason)
    else (state, reason) in {(r.state, r.reason), (Releasing, ReleaseInFlight),
                             (ReleaseUncertain, OutcomeRequiresReview), (ReleasePending, ReleaseRetry)}
  }

  /** Text oracles: the two identifier parsers, none when they throw, and the hashed owner of a record. */
  datatype Identities = Identities(normalize: string -> Option<string>, canonical: string -> Option<Cid>,
    owner: Record -> Owner)

  ghost predicate NamesArchive(ids: Identities) {
    forall r :: ids.owner(r).kind.Archive?
  }

  /** Where both parsers accept a text they name the same content. */
  ghost predicate Coherent(ids: Identities) {
    forall s :: ids.normalize(s).Some? && ids.canonical(s).Some? ==>
      ids.canonical(ids.normalize(s).value) == ids.canonical(s)
  }

  /** The registration `p` is that of a desired record. */
  predicate WantedBy(ids: Identities, desired: seq<Record>, p: Registration) {
    exists i :: 0 <= i < |desired| && ids.canonical(desired[i].cid) == Some(p.0) && ids.owner(desired[i]) == p.1
  }

  lemma WantedByOneMore(ids: Identities, desired: seq<Record>, k: nat)
    requires k < |desired| && ids.canonical(desired[k].cid).Some?
    ensures forall p :: WantedBy(ids, desired[..k + 1], p) <==>
      WantedBy(ids, desired[..k], p) || p == (ids.canonical(desired[k].cid).value, ids.owner(desired[k]))
  {
    forall p ensures WantedBy(ids, desired[..k + 1], p) <==>
      WantedBy(ids, desired[..k], p) || p == (ids.canonical(desired[k].cid).value, ids.owner(desired[k]))
    {
      assert desired[..k + 1][k] == desired[k];
      assert forall i :: 0 <= i < k ==> desired[..k + 1][i] == desired[..k][i];
    }
  }

  predicate IsHex(c: char) { '0' <= c <= '9' || 'a' <= c <= 'f' }

  predicate ValidGeneration(g: string) {
    |g| == 71 && g[..7] == "sha256:" && forall i :: 7 <= i < |g| ==> IsHex(g[i])
  }

  datatype Outcome = Thrown | Returned(results: seq<bool>)

  // ----- The other callers, step by step -----

  /** The step is not a crash of this process, and does not add or remove an archive owner. */
  predicate NonArchive(w: World, a: Action) {
    && !a.Crash?
    && (a.RecordOwner? ==> a.cid in w.tasks && w.tasks[a.cid].Recording? && !w.tasks[a.cid].owner.kind.Archive?)
    && (a.DropOwner? ==> a.cid in w.tasks && w.tasks[a.cid].Dropping? && !w.tasks[a.cid].owner.kind.Archive?)
  }

  /** The step leaves the record of the held identifier alone, as its lock does. */
  predicate RespectsLock(a: Action, held: Option<Cid>) { held.Some? && Local(a) ==> a.cid != held.value }

  /** Only these steps write a record. */
  predicate WritesRecord(a: Action) {
    a.RecordOwner? || a.MarkPinned? || a.NoteRetry? || a.DropOwner? || a.WriteDecision? || a.SettleUnpin?
  }

  lemma DecisionKeepsRecords(w: World, c: Cid, allowUnpin: bool)
    ensures DecideFrom(w, c, allowUnpin).records == w.records
  {
  }

  lemma SameDecision(w: World, v: World, c: Cid, allowUnpin: bool)
    requires v.records == w.records && v.references == w.references && v.tasks == w.tasks
    ensures DecideFrom(v, c, allowUnpin).tasks == DecideFrom(w, c, allowUnpin).tasks
  {
    if c !in w.records || w.records[c].owners != {} || c in w.references {
    } else if w.records[c].ownership != Created {
    } else if allowUnpin {
    }
  }

  lemma OthersKeepRecords(w: World, a: Action)
    requires Enabled(w, a) && !WritesRecord(a)
    ensures Apply(w, a).records == w.records
  {
    match a
    case Decide(c, allowUnpin) => DecisionKeepsRecords(w, c, allowUnpin);
    case TakeTurn(c, allowUnpin) => DecisionKeepsRecords(w.(turns := w.turns - multiset{c}), c, allowUnpin);
    case _ =>
  }

  /** The owners of `a.cid` after `a`. */
  function OwnersAfter(w: World, a: Action): set<Owner>
    requires Enabled(w, a) && WritesRecord(a)
  {
    var owners := OwnersOf(w.records, a.cid);
    if a.RecordOwner? && a.ok then owners + {w.tasks[a.cid].owner}
    else if a.DropOwner? && a.ok then owners - {w.tasks[a.cid].owner}
    else owners
  }

  lemma OneRecordWritten(w: World, a: Action)
    requires Enabled(w, a) && WritesRecord(a)
    ensures
      var after := Apply(w, a).records;
      after == w.records || (a.cid in after && after == w.records[a.cid := after[a.cid]])
    ensures OwnersOf(Apply(w, a).records, a.cid) == OwnersAfter(w, a)
  {
  }

  lemma SameArchiveOwners(before: map<Cid, PinRecord>, c: Cid, r: PinRecord)
    requires forall o: Owner :: o.kind.Archive? ==> (o in r.owners <==> o in OwnersOf(before, c))
    ensures Archived(before[c := r]) == Archived(before)
  {
    ArchivedAfterPut(before, c, r);
    forall p ensures p in Archived(before[c := r]) <==> p in Archived(before) {
    }
  }

  /**
   * Every step that is not taken for an archive owner, and respects the lock held,
   * keeps the archive registrations and the record and critical section of the
   * identifier that is locked.
   */
  lemma OthersInterfere(w: World, a: Action, held: Option<Cid>)
    requires Enabled(w, a) && NonArchive(w, a) && RespectsLock(a, held)
    ensures Interference(w, Apply(w, a), held)
  {
    if WritesRecord(a) {
      OneRecordWritten(w, a);
      var after := Apply(w, a).records;
      if after != w.records { SameArchiveOwners(w.records, a.cid, after[a.cid]); }
    } else {
      OthersKeepRecords(w, a);
    }
    if held.Some? && Local(a) { AgreeElsewhere(w, a, held.value); }
  }

  /** Every step along the way is another caller's. */
  predicate OthersOnly(w: World, acts: seq<Action>, held: Option<Cid>)
    decreases |acts|
  {
    acts == []
    || (Enabled(w, acts[0]) && NonArchive(w, acts[0]) && RespectsLock(acts[0], held) &&
      OthersOnly(Apply(w, acts[0]), acts[1..], held))
  }

  /** The world after them. */
  function After(w: World, acts: seq<Action>, held: Option<Cid>): World
    requires OthersOnly(w, acts, held)
    decreases |acts|
  {
    if acts == [] then w else After(Apply(w, acts[0]), acts[1..], held)
  }

  /** So does any run of them. */
  lemma {:induction false} OtherRunsInterfere(w: World, acts: seq<Action>, held: Option<Cid>)
    requires OthersOnly(w, acts, held)
    ensures Steps(w, acts, After(w, acts, held)) && Interference(w, After(w, acts, held), held)
    decreases |acts|
  {
    if acts != [] {
      OthersInterfere(w, acts[0], held);
      OtherRunsInterfere(Apply(w, acts[0]), acts[1..], held);
    }
  }

  // ----- This caller's own steps -----

  /** The registrations it adds or removes. */
  function Touches(w: World, a: Action): set<Registration>
    requires Enabled(w, a)
  {
    if WritesRecord(a) then Changed(a.cid, OwnersOf(w.records, a.cid), OwnersAfter(w, a)) else {}
  }

  /** The registration a step is about, if it is about one. */
  function Names(w: World, a: Action): set<Registration>
    requires Enabled(w, a)
  {
    if a.RecordOwner? || a.DropOwner? then {(a.cid, w.tasks[a.cid].owner)} else {}
  }

  /** What one step of this caller may do to the registrations. */
  predicate Registers(w: World, a: Action, w2: World)
    requires Enabled(w, a)
  {
    if a.RecordOwner? then Archived(w.records) <= Archived(w2.records) <= Archived(w.records) + Names(w, a)
    else Archived(w.records) - Names(w, a) <= Archived(w2.records) <= Archived(w.records)
  }

  lemma OwnStep(w: World, a: Action)
    requires Enabled(w, a)
    ensures Registers(w, a, Apply(w, a))
    ensures Touches(w, a) <= Names(w, a)
  {
    if WritesRecord(a) {
      OneRecordWritten(w, a);
      var after := Apply(w, a).records;
      if after != w.records { ArchivedAfterPut(w.records, a.cid, after[a.cid]); }
    } else {
      OthersKeepRecords(w, a);
    }
  }

  class Ledger {
    const allowUnpin: bool
    var world: World
    ghost const start: World
    ghost var trace: seq<Action>                 // every step taken since, by anyone
    ghost var touched: set<Registration>         // registrations this caller has added or removed

    constructor (allowUnpin: bool, world: World)
      ensures this.allowUnpin == allowUnpin && this.world == world && start == world && touched == {}
      ensures Valid()
    {
      this.allowUnpin, this.world, this.start, trace, touched := allowUnpin, world, world, [], {};
    }

    /** What has happened is a run of the pin protocol. */
    ghost predicate Valid()
      reads this
    {
      Steps(start, trace, world)
    }

    /** So the promise to every owner holds, provided no turn found an open release. */
    lemma ServesOwners()
      requires Valid() && Initial(start) && Settled(start, trace)
      ensures OwnersServed(world)
    {
      SettledSteps(start, trace, world);
      PinnedRecordsArePinned(start, trace, world);
    }

    /** The other callers. */
    method Others(held: Option<Cid>)
      requires Valid()
      modifies this`world, this`trace
      ensures Valid() && Interference(old(world), world, held)
    {
      var acts: seq<Action> := *;
      if OthersOnly(world, acts, held) {
        OtherRunsInterfere(world, acts, held);
        StepsJoin(start, trace, world, acts, After(world, acts, held));
        trace := trace + acts;
        world := After(world, acts, held);
      }
    }

    /** One step of this caller. */
    method Take(a: Action)
      requires Valid() && Enabled(world, a)
      modifies this
      ensures Valid() && world == Apply(old(world), a) && Registers(old(world), a, world)
      ensures touched == old(touched) + Touches(old(world), a)
      ensures Touches(old(world), a) <= Names(old(world), a)
    {
      OwnStep(world, a);
      assert Steps(Apply(world, a), [], Apply(world, a));
      assert [a][1..] == [];
      StepsJoin(start, trace, world, [a], Apply(world, a));
      touched := touched + Touches(world, a);
      trace := trace + [a];
      world := Apply(world, a);
    }

    /** `acquire` up to the write that names the owner; false if it throws or never gets the lock. */
    method Enroll(c: Cid, o: Owner) returns (ok: bool)
      requires Valid()
      modifies this
      ensures Valid()
      ensures Archived(old(world).records) <= Archived(world.records) <= Archived(old(world).records) + {(c, o)}
      ensures touched <= old(touched) + {(c, o)}
      ensures ok ==> c in world.tasks && world.tasks[c] == Pinning(o, false)
      ensures ok ==> c in world.records && o in world.records[c].owners && world.records[c].reason == NoReason
    {
      Others(None);
      if c in world.tasks || (c in world.records && ReleaseOutcomeOpen(world.records[c])) { return false; }
      Take(StartAcquire(c, o));
      if world.tasks[c].Probing? {
        Others(Some(c));
        var answer: Ownership := *;
        if !Enabled(world, ProbeAnswered(c, answer)) { answer := Unknown; }
        Take(ProbeAnswered(c, answer));
      }
      Others(Some(c));
      ok := *;
      Take(RecordOwner(c, ok));
    }

    /** The pin call: it may take effect and still not be answered. */
    method Pin(c: Cid) returns (ok: bool)
      requires Valid() && c in world.tasks && world.tasks[c].Pinning? && c in world.records
      modifies this
      ensures Valid() && Archived(world.records) == Archived(old(world).records) && touched == old(touched)
      ensures c in world.records && world.records[c] == old(world).records[c]
      ensures c in world.tasks && if ok then world.tasks[c].Marking? else world.tasks[c].Noting?
    {
      Others(Some(c));
      var pinned: bool := *;
      if pinned { Take(KuboPins(c)); Others(Some(c)); }
      ok := *;
      ok := ok && pinned;
      Take(PinReplied(c, ok));
    }

    /** The note of a retry, which may itself fail. */
    method Note(c: Cid)
      requires Valid() && c in world.tasks && world.tasks[c].Noting? && c in world.records
      modifies this
      ensures Valid() && Archived(world.records) == Archived(old(world).records) && touched == old(touched)
    {
      Others(Some(c));
      var noted: bool := *;
      Take(NoteRetry(c, noted));
    }

    /** The rest of `acquire`: the pin call, and the write that says so or notes a retry. */
    method Confirm(c: Cid) returns (ok: bool)
      requires Valid() && c in world.tasks && world.tasks[c].Pinning? && c in world.records
      modifies this
      ensures Valid() && Archived(world.records) == Archived(old(world).records) && touched == old(touched)
      ensures ok ==> c in world.records && world.records[c] == old(world).records[c].(state := Pinned)
    {
      ok := Pin(c);
      if ok {
        Others(Some(c));
        ok := *;
        Take(MarkPinned(c, ok));
      }
      if !ok { Note(c); }
    }

    method Acquire(c: Cid, o: Owner) returns (ok: bool)
      requires Valid()
      modifies this
      ensures Valid()
      ensures Archived(old(world).records) <= Archived(world.records) <= Archived(old(world).records) + {(c, o)}
      ensures ok ==> c in world.records && o in world.records[c].owners
      ensures ok ==> world.records[c].state == Pinned && world.records[c].reason == NoReason
      ensures touched <= old(touched) + {(c, o)}
    {
      ok := Enroll(c, o);
      if ok { ok := Confirm(c); }
    }

    /** The unpin call. */
    method Unpin(c: Cid) returns (reply: Reply)
      requires Valid() && c in world.tasks && world.tasks[c].Removing? && c in world.records
      modifies this
      ensures Valid() && Archived(world.records) == Archived(old(world).records) && touched == old(touched)
      ensures c in world.records && world.records[c] == old(world).records[c]
      ensures c in world.tasks && world.tasks[c] == SettleFor(reply)
    {
      Take(SubmitUnpin(c));
      Others(Some(c));
      reply := *;
      if !Enabled(world, UnpinReplied(c, reply)) { reply := Uncertain; }
      Take(UnpinReplied(c, reply));
    }

    /** The unpin call of a record already marked, and the write of what came of it. */
    method Remove(c: Cid) returns (ok: bool)
      requires Valid() && c in world.tasks && world.tasks[c].Removing? && c in world.records
      modifies this
      ensures Valid() && Archived(world.records) == Archived(old(world).records) && touched == old(touched)
      ensures c in world.records
      ensures
        var r, r2 := old(world).records[c], world.records[c];
        if ok then r2 == r.(state := Released, reason := NoReason)
        else r2 in {r, r.(state := ReleaseUncertain, reason := OutcomeRequiresReview),
                    r.(state := ReleasePending, reason := ReleaseRetry)}
    {
      var reply := Unpin(c);
      Others(Some(c));
      var written: bool := *;
      Take(SettleUnpin(c, written));
      return written && (reply.Removed? || reply.NotPinned?);
    }

    /** The write of the decision taken. */
    method Write(c: Cid) returns (ok: bool)
      requires Valid() && c in world.tasks && world.tasks[c].Writing? && c in world.records
      modifies this
      ensures Valid() && Archived(world.records) == Archived(old(world).records) && touched == old(touched)
      ensures c in world.records
      ensures
        var t, r := old(world).tasks[c], old(world).records[c];
        world.records[c] == if ok then r.(state := t.next, reason := t.reason) else r
      ensures c in world.tasks <==> ok && old(world).tasks[c].next == Releasing
      ensures c in world.tasks ==> world.tasks[c].Removing?
    {
      Others(Some(c));
      ok := *;
      Take(WriteDecision(c, ok));
    }

    /** The snapshot that decides. */
    method Look(c: Cid, turn: bool)
      requires Valid() && Enabled(world, if turn then TakeTurn(c, allowUnpin) else Decide(c, allowUnpin))
      modifies this
      ensures Valid() && world.records == old(world).records && touched == old(touched)
      ensures world.tasks == DecideFrom(old(world), c, allowUnpin).tasks
    {
      if turn {
        OthersKeepRecords(world, TakeTurn(c, allowUnpin));
        SameDecision(world, world.(turns := world.turns - multiset{c}), c, allowUnpin);
        Take(TakeTurn(c, allowUnpin));
      } else {
        OthersKeepRecords(world, Decide(c, allowUnpin));
        Take(Decide(c, allowUnpin));
      }
    }

    /**
     * `releaseUnreferenced`, at the end of `release` or in a turn of `reconcile`; false
     * when it throws. It never changes who owns what, and leaves an owned or referenced
     * record alone. Otherwise a pin this node did not create is retained, one it created
     * waits for activation, and only with activation on is it removed; a refused removal
     * stays pending and one of unknown outcome stays open.
     */
    method ReleaseUnreferenced(c: Cid, turn: bool) returns (ok: bool)
      requires Valid() && Enabled(world, if turn then TakeTurn(c, allowUnpin) else Decide(c, allowUnpin))
      modifies this
      ensures Valid() && Archived(world.records) == Archived(old(world).records) && touched == old(touched)
      ensures c in world.records <==> c in old(world).records
      ensures c in old(world).records ==>
        && world.records[c].owners == old(world).records[c].owners
        && world.records[c].ownership == old(world).records[c].ownership
      ensures c in old(world).records && (old(world).records[c].owners != {} || c in old(world).references) ==>
        ok && world.records[c] == old(world).records[c]
      ensures c in old(world).records && old(world).records[c].owners == {} && c !in old(world).references ==>
        Decided(old(world).records[c], allowUnpin, ok, world.records[c].state, world.records[c].reason)
    {
      Look(c, turn);
      if c !in world.tasks { return true; }
      ok := Write(c);
      if c in world.tasks { ok := Remove(c); }
    }

    /** When `release` returns normally the owner is no longer registered; nobody else's registration changes. */
    method Release(c: Cid, o: Owner) returns (ok: bool)
      requires Valid()
      modifies this
      ensures Valid()
      ensures Archived(old(world).records) - {(c, o)} <= Archived(world.records) <= Archived(old(world).records)
      ensures ok ==> o !in OwnersOf(world.records, c)
      ensures touched <= old(touched) + {(c, o)}
    {
      Others(None);
      if c in world.tasks || (c in world.records && ReleaseOutcomeOpen(world.records[c])) { return false; }
      if c !in world.records || (o !in world.records[c].owners && world.records[c].state != ReleasePending) {
        return true;
      }
      Take(StartRelease(c, o));
      Others(Some(c));
      var dropped: bool := *;
      Take(DropOwner(c, dropped));
      if !dropped { return false; }
      ok := ReleaseUnreferenced(c, false);
    }

    /** One pass over the records waiting for release; false if any turn throws or never comes. */
    method Reconcile() returns (ok: bool)
      requires Valid()
      modifies this
      ensures Valid() && Archived(world.records) == Archived(old(world).records) && touched == old(touched)
    {
      var records := world.records;
      var todo := set c | c in records && records[c].state == ReleasePending;
      Take(ScanPending(todo));
      ok := true;
      while todo != {}
        invariant Valid() && Archived(world.records) == Archived(old(world).records) && touched == old(touched)
        decreases todo
      {
        var c :| c in todo;
        todo := todo - {c};
        Others(None);
        var turn := false;
        if c !in world.tasks && c in world.turns { turn := ReleaseUnreferenced(c, true); }
        ok := ok && turn;
      }
    }

    /** Drops the archive registrations of a snapshot that are not wanted; false if any release threw. */
    method DropUnwanted(wanted: set<Registration>) returns (ok: bool)
      requires Valid()
      modifies this
      ensures Valid()
      ensures Archived(old(world).records) * wanted <= Archived(world.records) <= Archived(old(world).records)
      ensures ok ==> Archived(world.records) <= wanted
      ensures touched <= old(touched) + (Archived(old(world).records) - wanted)
    {
      var todo := Archived(world.records) - wanted;
      ok := true;
      while todo != {}
        invariant Valid()
        invariant Archived(old(world).records) * wanted <= Archived(world.records) <= Archived(old(world).records)
        invariant todo <= Archived(old(world).records) - wanted
        invariant ok ==> Archived(world.records) <= wanted + todo
        invariant touched <= old(touched) + (Archived(old(world).records) - wanted)
        decreases todo
      {
        var p :| p in todo;
        ghost var before := Archived(world.records);
        var released := Release(p.0, p.1);
        if released { assert p !in Archived(world.records); }
        todo := todo - {p};
        ok := ok && released;
      }
    }

    /** `reconcilePins`: one acquisition per desired record; an unusable identifier stops the pass. */
    method AcquireDesired(ids: Identities, desired: seq<Record>) returns (r: Outcome)
      requires Valid() && NamesArchive(ids)
      modifies this
      ensures Valid()
      ensures Archived(old(world).records) <= Archived(world.records)
      ensures forall p :: p in touched ==> p in old(touched) || p.1.kind.Archive?
      ensures r.Returned? ==> |r.results| == |desired| && forall i :: 0 <= i < |desired| ==>
        && ids.normalize(desired[i].cid).Some?
        && (r.results[i] ==>
              && ids.canonical(ids.normalize(desired[i].cid).value).Some?
              && (ids.canonical(ids.normalize(desired[i].cid).value).value,
                ids.owner(desired[i])) in Archived(world.records))
    {
      var results := [];
      for i := 0 to |desired|
        invariant |results| == i
        invariant Valid()
        invariant Archived(old(world).records) <= Archived(world.records)
        invariant forall p :: p in touched ==> p in old(touched) || p.1.kind.Archive?
        invariant forall j :: 0 <= j < i ==>
          && ids.normalize(desired[j].cid).Some?
          && (results[j] ==>
                && ids.canonical(ids.normalize(desired[j].cid).value).Some?
                && (ids.canonical(ids.normalize(desired[j].cid).value).value, ids.owner(desired[j]))
                   in Archived(world.records))
      {
        var text := ids.normalize(desired[i].cid);
        if text.None? { return Thrown; }
        var cid := ids.canonical(text.value);
        var ok := false;
        if cid.Some? { ok := Acquire(cid.value, ids.owner(desired[i])); }
        results := results + [ok];
      }
      return Returned(results);
    }

    /** The registrations of the desired records; none if an identifier does not parse. */
    method Wanted(ids: Identities, desired: seq<Record>) returns (r: Option<set<Registration>>)
      ensures r.None? <==> exists i :: 0 <= i < |desired| && ids.canonical(desired[i].cid).None?
      ensures r.Some? ==> forall p :: p in r.value <==> WantedBy(ids, desired, p)
    {
      var wanted: set<Registration> := {};
      for i := 0 to |desired|
        invariant forall j :: 0 <= j < i ==> ids.canonical(desired[j].cid).Some?
        invariant forall p :: p in wanted <==> WantedBy(ids, desired[..i], p)
      {
        var cid := ids.canonical(desired[i].cid);
        if cid.None? { return None; }
        WantedByOneMore(ids, desired, i);
        wanted := wanted + {(cid.value, ids.owner(desired[i]))};
      }
      assert desired[..|desired|] == desired;
      return Some(wanted);
    }

    /**
     * One archive run. It reads the desired records twice, once to acquire and once
     * to release, and `current` is the second reading. When it returns normally on a
     * complete list with a valid generation, every archive registration left anywhere
     * is that of a current record, and every acquisition it reports for a record that
     * is still current is among them. Without that authority it removes nothing. It
     * only ever touches archive registrations, and never drops a current one.
     */
    method ReconcileDesired(
      ids: Identities, desired: seq<Record>, current: seq<Record>,
      skipPinning: bool, complete: bool, generation: string)
      returns (r: Outcome)
      requires Valid() && NamesArchive(ids)
      modifies this
      ensures Valid()
      ensures r.Returned? && !skipPinning && complete && ValidGeneration(generation) ==>
        forall p :: p in Archived(world.records) ==> WantedBy(ids, current, p)
      ensures skipPinning || !complete || !ValidGeneration(generation) ==>
        Archived(old(world).records) <= Archived(world.records)
      ensures forall p :: p in Archived(old(world).records) && WantedBy(ids, current, p) ==>
        p in Archived(world.records)
      ensures r.Returned? && !skipPinning && Coherent(ids) ==> |r.results| == |desired| && forall i ::
        0 <= i < |desired| && r.results[i] && ids.canonical(desired[i].cid).Some? && desired[i] in current ==>
          (ids.canonical(desired[i].cid).value, ids.owner(desired[i])) in Archived(world.records)
      ensures forall p :: p in touched ==> p in old(touched) || p.1.kind.Archive?
      ensures skipPinning ==> touched == old(touched) && Archived(world.records) == Archived(old(world).records)
    {
      r := Thrown;
      if skipPinning {
        Others(None);
        var kept: bool := *;
        if kept && forall i :: 0 <= i < |desired| ==> ids.normalize(desired[i].cid).Some? {
          r := Returned(seq(|desired|, i => true));
        }
        return;
      }
      var acquired := AcquireDesired(ids, desired);
      Others(None);
      var stored: bool := *;
      if acquired.Thrown? || !stored { return; }
      if complete && ValidGeneration(generation) {
        var wanted := Wanted(ids, current);
        if wanted.None? { return; }
        var turned := Reconcile();
        if !turned { return; }
        var dropped := DropUnwanted(wanted.value);
        if !dropped { return; }
      }
      r := acquired;
    }
  }
}
