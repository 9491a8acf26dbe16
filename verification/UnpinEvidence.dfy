/**
 * What stands behind an unpin of `src/ipfs/managedPins.ts`: the snapshot that
 * decided it and the ownership probe it relies on. Both are claims about the run
 * that led to the unpin.
 *
 * A probe's answer is lost when the write that should record it fails, or when the
 * node crashes before that write. The record then keeps an older answer.
 */
module UnpinEvidence {
  import opened ManagedPins

  // ----- The deciding snapshot -----

  /** The critical section of `c` is on its way to an unpin. */
  predicate Unpinning(w: World, c: Cid) {
    c in w.tasks && (w.tasks[c].Removing? || (w.tasks[c].Writing? && w.tasks[c].next == Releasing))
  }

  predicate DecidesOn(a: Action, c: Cid) { (a.Decide? || a.TakeTurn?) && a.cid == c && a.allowUnpin }

  /** What `releaseUnreferenced` must have read of `c`. */
  predicate Releasable(w: World, c: Cid) {
    c in w.records && w.records[c].owners == {} && w.records[c].ownership == Created && c !in w.references
  }

  /** A step of another identifier's section changes nothing the claims below read about `c`. */
  lemma ElsewhereAgrees(w: World, a: Action, c: Cid)
    requires Enabled(w, a) && Local(a) && a.cid != c
    ensures Agree(w, Apply(w, a), c)
  {
    if AcquireStep(a) { AcquireElsewhere(w, a, c); }
    else if ReleaseStep(a) { ReleaseElsewhere(w, a, c); }
    else if UnpinStep(a) { UnpinElsewhere(w, a, c); }
    else if a.Decide? { DecideElsewhere(w, a.cid, a.allowUnpin, c); }
    else { DecideElsewhere(w.(turns := w.turns - multiset{a.cid}), a.cid, a.allowUnpin, c); }
  }

  lemma ElsewhereKeepsTurns(w: World, a: Action, c: Cid)
    requires Enabled(w, a) && Local(a) && a.cid != c
    ensures c in Apply(w, a).turns <==> c in w.turns
  {
  }

  lemma OtherStepsDoNotBegin(w: World, a: Action, c: Cid)
    requires Enabled(w, a) && Unpinning(Apply(w, a), c) && (!Local(a) || a.cid != c)
    ensures Unpinning(w, c)
  {
    if Local(a) { ElsewhereAgrees(w, a, c); }
  }

  lemma OwnStepBegins(w: World, a: Action, c: Cid)
    requires Enabled(w, a) && Unpinning(Apply(w, a), c) && !Unpinning(w, c) && Local(a) && a.cid == c
    ensures DecidesOn(a, c) && Releasable(w, c)
  {
  }

  lemma UnpinningBegins(w: World, a: Action, c: Cid)
    requires Enabled(w, a) && Unpinning(Apply(w, a), c) && !Unpinning(w, c)
    ensures DecidesOn(a, c) && Releasable(w, c)
  {
    if !Local(a) || a.cid != c {
      OtherStepsDoNotBegin(w, a, c);
    } else {
      OwnStepBegins(w, a, c);
    }
  }

  lemma {:induction false} LastStep(w: World, acts: seq<Action>, w2: World) returns (v: World)
    requires Run(w, acts, w2) && acts != []
    ensures Run(w, acts[..|acts| - 1], v)
    ensures Enabled(v, acts[|acts| - 1]) && TurnFindsNoOpenRelease(v, acts[|acts| - 1]) &&
      Apply(v, acts[|acts| - 1]) == w2
    decreases |acts|
  {
    if |acts| == 1 {
      v := w;
      assert acts[1..] == [];
    } else {
      v := LastStep(Apply(w, acts[0]), acts[1..], w2);
      assert acts[1..][..|acts| - 2] == acts[..|acts| - 1][1..];
    }
  }

  /**
   * Every run that comes to an unpin of `c` passes through a decision, with
   * activation on, taken in a state where `c` has no owner, was created here and is
   * referenced nowhere.
   */
  lemma {:induction false} UnpinWasDecided(w: World, acts: seq<Action>, w2: World, c: Cid) returns (i: nat, v: World)
    requires Initial(w) && Run(w, acts, w2) && Unpinning(w2, c)
    ensures i < |acts| && Run(w, acts[..i], v) && Enabled(v, acts[i])
    ensures DecidesOn(acts[i], c) && Releasable(v, c)
    decreases |acts|
  {
    var n := |acts| - 1;
    v := LastStep(w, acts, w2);
    if Unpinning(v, c) {
      i, v := UnpinWasDecided(w, acts[..n], v, c);
      assert acts[..n][..i] == acts[..i];
    } else {
      UnpinningBegins(v, acts[n], c);
      i := n;
    }
  }

  // ----- The probe -----

  /** An answer of Kubo about `c` is in hand and not yet in the record. */
  predicate InHand(w: World, c: Cid) { c in w.tasks && w.tasks[c].Recording? && w.tasks[c].probed }

  /** The step throws away the answer in hand. */
  predicate Loses(w: World, a: Action, c: Cid) { InHand(w, c) && (a == RecordOwner(c, false) || a.Crash?) }

  /**
   * A lost answer does no harm if it read absence, if the record does not claim the
   * pin was created here, or if the record is already released and no turn waits
   * for it, so that the next acquire asks again first.
   */
  predicate HarmlessLoss(w: World, a: Action, c: Cid)
    requires InHand(w, c)
  {
    || w.tasks[c].ownership == Created
    || c !in w.records
    || w.records[c].ownership != Created
    || (w.records[c].state == Released && (a.Crash? || c !in w.turns))
  }

  /** Along the run no answer about `c` is lost to harm. */
  predicate Careful(w: World, acts: seq<Action>, c: Cid)
    decreases |acts|
  {
    acts == []
    || (Enabled(w, acts[0]) && (Loses(w, acts[0], c) ==> HarmlessLoss(w, acts[0], c)) &&
      Careful(Apply(w, acts[0]), acts[1..], c))
  }

  /** Nothing can unpin `c` on the strength of an answer older than the latest. */
  predicate Backed(w: World, c: Cid) {
    c in w.probes && w.probes[c].answer != Created ==>
      || InHand(w, c)
      || c !in w.records
      || w.records[c].ownership != Created
      || (w.records[c].state == Released && c !in w.turns && (c in w.tasks ==> w.tasks[c].Probing?))
  }

  lemma LocalKeepsBacked(w: World, a: Action, c: Cid)
    requires Inv(w) && Enabled(w, a) && Backed(w, c) && Local(a) && a.cid == c
    requires Loses(w, a, c) ==> HarmlessLoss(w, a, c)
    ensures Backed(Apply(w, a), c)
  {
    assert CidInv(w, c);
  }

  lemma ElsewhereKeepsBacked(w: World, a: Action, c: Cid)
    requires Enabled(w, a) && Backed(w, c) && Local(a) && a.cid != c
    ensures Backed(Apply(w, a), c)
  {
    ElsewhereAgrees(w, a, c);
    ElsewhereKeepsTurns(w, a, c);
  }

  lemma EnvironmentKeepsBacked(w: World, a: Action, c: Cid)
    requires CidInv(w, c) && Enabled(w, a) && Backed(w, c) && !Local(a)
    requires Loses(w, a, c) ==> HarmlessLoss(w, a, c)
    ensures Backed(Apply(w, a), c)
  {
  }

  lemma {:induction false} CarefulRunKeeps(w: World, acts: seq<Action>, w2: World, c: Cid)
    requires Inv(w) && Backed(w, c) && Run(w, acts, w2) && Careful(w, acts, c)
    ensures Inv(w2) && Backed(w2, c)
    decreases |acts|
  {
    if acts != [] {
      var a := acts[0];
      StepKeeps(w, a);
      if !Local(a) { EnvironmentKeepsBacked(w, a, c); }
      else if a.cid == c { LocalKeepsBacked(w, a, c); }
      else { ElsewhereKeepsBacked(w, a, c); }
      CarefulRunKeeps(Apply(w, a), acts[1..], w2, c);
    }
  }

  /** If `c` can be unpinned now, the latest probe of `c` read it as absent. */
  predicate LatestReadAbsence(w: World, c: Cid) {
    Enabled(w, SubmitUnpin(c)) ==> c in w.probes && w.probes[c].answer == Created
  }

  lemma BackedMeansAbsent(w: World, c: Cid)
    requires Inv(w) && Backed(w, c)
    ensures LatestReadAbsence(w, c)
  {
    assert CidInv(w, c);
  }

  /** In every run that loses no answer to harm, every unpin is for an identifier its latest probe read as absent. */
  lemma LatestProbeReadAbsence(w: World, acts: seq<Action>, w2: World, c: Cid)
    requires Initial(w) && Run(w, acts, w2) && Careful(w, acts, c)
    ensures LatestReadAbsence(w2, c)
  {
    assert forall d :: CidInv(w, d);
    CarefulRunKeeps(w, acts, w2, c);
    BackedMeansAbsent(w2, c);
  }

  ghost predicate AlwaysReadAbsence(w: World, c: Cid) {
    forall acts, w2 :: Run(w, acts, w2) && Careful(w, acts, c) ==> LatestReadAbsence(w2, c)
  }

  // ----- The failing family -----

  /** A run from `v` to `w` that loses nothing to harm. */
  predicate Path(v: World, acts: seq<Action>, w: World, c: Cid) { Run(v, acts, w) && Careful(v, acts, c) }

  lemma {:induction false} CarefulThen(v: World, acts: seq<Action>, w: World, a: Action, c: Cid)
    requires Path(v, acts, w, c) && Enabled(w, a) && !Loses(w, a, c)
    ensures Careful(v, acts + [a], c)
    decreases |acts|
  {
    if acts == [] {
      assert Careful(Apply(v, a), [], c);
    } else {
      CarefulThen(Apply(v, acts[0]), acts[1..], w, a, c);
      assert (acts + [a])[1..] == acts[1..] + [a];
    }
  }

  lemma Go(v: World, acts: seq<Action>, w: World, a: Action, c: Cid) returns (more: seq<Action>, w2: World)
    requires Path(v, acts, w, c) && Enabled(w, a) && TurnFindsNoOpenRelease(w, a) && !Loses(w, a, c)
    ensures Path(v, more, w2, c) && w2 == Apply(w, a)
  {
    RunThen(v, acts, w, a);
    CarefulThen(v, acts, w, a, c);
    more, w2 := acts + [a], Apply(w, a);
  }

  /** `c` stands recorded as created here, against the latest answer, and is referenced nowhere. */
  predicate Misrecorded(w: World, c: Cid) {
    && c in w.probes && w.probes[c].answer != Created
    && c in w.records && w.records[c].ownership == Created
    && c !in w.references
  }

  lemma DecisionUnpins(v: World, acts: seq<Action>, w: World, c: Cid) returns (more: seq<Action>, w2: World)
    requires Path(v, acts, w, c) && Misrecorded(w, c)
    requires c in w.tasks && w.tasks[c].Writing? && w.tasks[c].next == Releasing
    ensures Path(v, more, w2, c) && !LatestReadAbsence(w2, c)
  {
    more, w2 := Go(v, acts, w, WriteDecision(c, true), c);
  }

  lemma OwnerLeaves(v: World, acts: seq<Action>, w: World, c: Cid, o: Owner) returns (more: seq<Action>, w2: World)
    requires Path(v, acts, w, c) && Misrecorded(w, c) && c !in w.tasks
    requires w.records[c].state == Pending && o in w.records[c].owners
    ensures Path(v, more, w2, c) && Misrecorded(w2, c) && c in w2.tasks && w2.tasks[c] == Deciding
    ensures w2.records[c] == AfterDrop(w.records[c], o)
  {
    more, w2 := Go(v, acts, w, StartRelease(c, o), c);
    more, w2 := Go(v, more, w2, DropOwner(c, true), c);
  }

  /** A pending record whose owners all leave is unpinned. */
  lemma {:induction false} OwnersLeave(v: World, acts: seq<Action>, w: World, c: Cid)
    returns (more: seq<Action>, w2: World)
    requires Path(v, acts, w, c) && Misrecorded(w, c) && c !in w.tasks
    requires w.records[c].state == Pending && w.records[c].owners != {}
    ensures Path(v, more, w2, c) && !LatestReadAbsence(w2, c)
    decreases |w.records[c].owners|
  {
    var o :| o in w.records[c].owners;
    more, w2 := OwnerLeaves(v, acts, w, c, o);
    more, w2 := Go(v, more, w2, Decide(c, true), c);
    if w.records[c].owners == {o} {
      assert w.records[c].owners - {o} == {};
      more, w2 := DecisionUnpins(v, more, w2, c);
    } else {
      assert w.records[c].owners - {o} != {};
      more, w2 := OwnersLeave(v, more, w2, c);
    }
  }

  /** A turn that was waiting when the record was released unpins it again. */
  lemma WaitingTurnUnpins(v: World, acts: seq<Action>, w: World, c: Cid) returns (more: seq<Action>, w2: World)
    requires Path(v, acts, w, c) && Misrecorded(w, c) && c !in w.tasks
    requires w.records[c].state == Released && w.records[c].owners == {} && c in w.turns
    ensures Path(v, more, w2, c) && !LatestReadAbsence(w2, c)
  {
    more, w2 := Go(v, acts, w, TakeTurn(c, true), c);
    more, w2 := DecisionUnpins(v, more, w2, c);
  }

  lemma HarmfulLossUnpins(w: World, a: Action, c: Cid) returns (acts: seq<Action>, w2: World)
    requires Inv(w) && Enabled(w, a) && Loses(w, a, c) && !HarmlessLoss(w, a, c)
    ensures Path(Apply(w, a), acts, w2, c) && !LatestReadAbsence(w2, c)
  {
    assert CidInv(w, c);
    var v := Apply(w, a);
    acts, w2 := Go(v, [], v, ReferencesChange({}), c);
    if w.records[c].state == Pending {
      acts, w2 := OwnersLeave(v, acts, w2, c);
    } else {
      acts, w2 := WaitingTurnUnpins(v, acts, w2, c);
    }
  }

  /**
   * Exactly when losing an answer is safe: every later unpin of `c` is still for an
   * identifier its latest probe read as absent, in every continuation that loses no
   * further answer to harm, if and only if the loss is harmless. The node knows the
   * answer, the record and its own waiting turns when the write fails.
   */
  lemma LossIsSafeIffHarmless(w: World, a: Action, c: Cid)
    requires Inv(w) && Enabled(w, a) && Loses(w, a, c)
    ensures HarmlessLoss(w, a, c) <==> AlwaysReadAbsence(Apply(w, a), c)
  {
    var v := Apply(w, a);
    assert CidInv(w, c);
    if HarmlessLoss(w, a, c) {
      assert Backed(v, c);
      StepKeeps(w, a);
      forall acts, w2 | Run(v, acts, w2) && Careful(v, acts, c) ensures LatestReadAbsence(w2, c) {
        CarefulRunKeeps(v, acts, w2, c);
        BackedMeansAbsent(w2, c);
      }
    } else {
      var acts, w2 := HarmfulLossUnpins(w, a, c);
      assert Run(v, acts, w2) && Careful(v, acts, c) && !LatestReadAbsence(w2, c);
    }
  }

  /**
   * The failing family is reachable: a pending record is probed again, and the
   * node crashes with a foreign pin in hand.
   */
  lemma HarmfulLossIsReachable(w: World, c: Cid, o1: Owner, o2: Owner) returns (acts: seq<Action>, w2: World)
    requires Initial(w) && c !in w.pins && c !in w.references
    ensures Run(w, acts, w2) && Enabled(w2, Crash) && Loses(w2, Crash, c) && !HarmlessLoss(w2, Crash, c)
  {
    acts, w2 := LeftPending(w, c, o1);
    acts, w2 := Then(w, acts, w2, SomeonePins(c));
    acts, w2 := Then(w, acts, w2, StartAcquire(c, o2));
    acts, w2 := Then(w, acts, w2, ProbeAnswered(c, Preexisting));
  }
}
