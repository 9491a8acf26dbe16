/**
 * The exclusive runtime lease of `src/runtime/runtimeLease.ts`.
 *
 * Any number of contenders race over two shared names: the lease file, created
 * by `link` and removed by `unlink`, and the reclaim directory, created by
 * `mkdir` and removed by `rmdir`. A contender is one call of
 * `acquireRuntimeLease`, named by its nonce. It may die between any two steps.
 * `provenStopped` is an oracle that answers true only of the dead.
 */
module RuntimeLease {
  import opened Wrappers

  datatype Nonce = Nonce(id: nat)

  datatype Stage =
    | Linking(attempt: nat)                      // about to link its file into place
    | Reading(attempt: nat)                      // found the lease taken
    | Judging(attempt: nat, owner: Nonce)        // has read the owner
    | Claiming(attempt: nat)                     // believes the owner dead, about to mkdir
    | Rereading(attempt: nat)                    // holds the reclaim directory
    | Rejudging(attempt: nat, owner: Nonce)      // has read the owner again
    | Unlinking(attempt: nat, owner: Nonce)      // about to remove the dead owner's file
    | Unclaiming(attempt: nat, again: bool)      // about to rmdir; goes round again unless it is throwing
    | Holding
    | Releasing                                  // release has been called
    | Removing                                   // release has read its own nonce
    | Done

  datatype Contender = Contender(alive: bool, stage: Stage)

  datatype World = World(
    lease: Option<Nonce>,                        // the owner recorded in the lease file
    reclaiming: bool,                            // the reclaim directory exists
    past: set<Nonce>,                            // nonces of processes gone before this history begins
    contenders: map<Nonce, Contender>)

  datatype Action =
    | Begin(n: Nonce)
    | Link(n: Nonce)
    | Read(n: Nonce)
    | Judge(n: Nonce, stopped: bool)
    | Claim(n: Nonce)
    | Reread(n: Nonce)
    | Rejudge(n: Nonce, stopped: bool)
    | Unlink(n: Nonce)
    | Unclaim(n: Nonce)
    | Throw(n: Nonce)
    | Release(n: Nonce)
    | ReadOwn(n: Nonce)
    | UnlinkOwn(n: Nonce)
    | Die(n: Nonce)

  predicate Live(w: World, n: Nonce) { n in w.contenders && w.contenders[n].alive }

  /** A nonce some process has drawn, whose process is gone. */
  predicate Dead(w: World, n: Nonce) { (n in w.past || n in w.contenders) && !Live(w, n) }

  /** A file error, or an owner record that does not validate. */
  predicate CanThrow(s: Stage) {
    s.Linking? || s.Reading? || s.Judging? || s.Claiming? || s.Rereading? || s.Rejudging? || s.Unlinking?
  }

  predicate Reclaims(s: Stage) { s.Rereading? || s.Rejudging? || s.Unlinking? || s.Unclaiming? }

  predicate Enabled(w: World, a: Action) {
    match a
    case Begin(n) => n !in w.contenders && n !in w.past
    case Link(n) => Live(w, n) && w.contenders[n].stage.Linking?
    case Read(n) => Live(w, n) && w.contenders[n].stage.Reading?
    case Judge(n, stopped) =>
      Live(w, n) && w.contenders[n].stage.Judging? && (stopped ==> Dead(w, w.contenders[n].stage.owner))
    case Claim(n) => Live(w, n) && w.contenders[n].stage.Claiming?
    case Reread(n) => Live(w, n) && w.contenders[n].stage.Rereading?
    case Rejudge(n, stopped) =>
      Live(w, n) && w.contenders[n].stage.Rejudging? && (stopped ==> Dead(w, w.contenders[n].stage.owner))
    case Unlink(n) => Live(w, n) && w.contenders[n].stage.Unlinking?
    case Unclaim(n) => Live(w, n) && w.contenders[n].stage.Unclaiming?
    case Throw(n) => Live(w, n) && CanThrow(w.contenders[n].stage)
    case Release(n) => Live(w, n) && w.contenders[n].stage.Holding?
    case ReadOwn(n) => Live(w, n) && w.contenders[n].stage.Releasing?
    case UnlinkOwn(n) => Live(w, n) && w.contenders[n].stage.Removing?
    case Die(n) => n in w.contenders
  }

  function Goto(w: World, n: Nonce, s: Stage): World {
    w.(contenders := w.contenders[n := Contender(true, s)])
  }

  /** Three attempts, then the call gives up. */
  function NextAttempt(attempt: nat): Stage {
    if attempt + 1 < 3 then Linking(attempt + 1) else Done
  }

  function Apply(w: World, a: Action): World
    requires Enabled(w, a)
  {
    match a
    case Begin(n) => Goto(w, n, Linking(0))
    case Link(n) =>
      if w.lease.None? then Goto(w, n, Holding).(lease := Some(n))
      else Goto(w, n, Reading(w.contenders[n].stage.attempt))
    case Read(n) =>
      Goto(w, n, if w.lease.None? then Done else Judging(w.contenders[n].stage.attempt, w.lease.value))
    case Judge(n, stopped) => Goto(w, n, if stopped then Claiming(w.contenders[n].stage.attempt) else Done)
    case Claim(n) =>
      if w.reclaiming then Goto(w, n, Done)
      else Goto(w, n, Rereading(w.contenders[n].stage.attempt)).(reclaiming := true)
    case Reread(n) =>
      var attempt := w.contenders[n].stage.attempt;
      Goto(w, n, if w.lease.None? then Unclaiming(attempt, true) else Rejudging(attempt, w.lease.value))
    case Rejudge(n, stopped) =>
      var s := w.contenders[n].stage;
      Goto(w, n, if stopped then Unlinking(s.attempt, s.owner) else Unclaiming(s.attempt, true))
    case Unlink(n) =>
      Goto(w, n, Unclaiming(w.contenders[n].stage.attempt, w.lease.Some?)).(lease := None)
    case Unclaim(n) =>
      var s := w.contenders[n].stage;
      Goto(w, n, if s.again then NextAttempt(s.attempt) else Done).(reclaiming := false)
    case Throw(n) =>
      var s := w.contenders[n].stage;
      Goto(w, n, if Reclaims(s) then Unclaiming(s.attempt, false) else Done)
    case Release(n) => Goto(w, n, Releasing)
    case ReadOwn(n) => Goto(w, n, if w.lease == Some(n) then Removing else Done)
    case UnlinkOwn(n) => Goto(w, n, Done).(lease := None)
    case Die(n) => w.(contenders := w.contenders[n := w.contenders[n].(alive := false)])
  }

  /** No contender yet; the lease file is absent or names a process that is gone. */
  predicate Initial(w: World) {
    w.contenders == map[] && !w.reclaiming && (w.lease.Some? ==> w.lease.value in w.past)
  }

  /**
   * What the code leaves to chance: when the second judgement under the reclaim
   * directory comes back true, the lease file names a dead process. The judgement
   * is of the owner read before it; by then the file can name another.
   */
  predicate FileNamesTheDead(w: World) { w.lease.Some? && Dead(w, w.lease.value) }

  predicate Confirmed(w: World, a: Action) {
    a.Rejudge? && a.stopped ==> FileNamesTheDead(w)
  }

  /** `w2` is reached from `w` by `acts`, every confirming judgement meeting the side condition. */
  predicate Run(w: World, acts: seq<Action>, w2: World)
    decreases |acts|
  {
    if acts == [] then w == w2
    else Enabled(w, acts[0]) && Confirmed(w, acts[0]) && Run(Apply(w, acts[0]), acts[1..], w2)
  }

  /** The call has returned the lease and `release` has not removed the file. */
  predicate Holds(w: World, n: Nonce) {
    Live(w, n) && (w.contenders[n].stage.Holding? || w.contenders[n].stage.Releasing? ||
      w.contenders[n].stage.Removing?)
  }

  /** At most one live process holds the lease, and the lease file names it. */
  ghost predicate Exclusive(w: World) {
    && (forall n, m :: Holds(w, n) && Holds(w, m) ==> n == m)
    && (forall n :: Holds(w, n) ==> w.lease == Some(n))
  }

  // ----- The invariant -----

  ghost predicate LeaseInv(w: World) {
    && (forall n :: Holds(w, n) ==> w.lease == Some(n))
    && (w.lease.Some? ==> Dead(w, w.lease.value) || Holds(w, w.lease.value))
    && (forall n :: n in w.past ==> n !in w.contenders)
  }

  predicate InReclaim(w: World, n: Nonce) { n in w.contenders && Reclaims(w.contenders[n].stage) }

  /** The reclaim directory belongs to one contender, dead or alive; one about to unlink removes a dead lease. */
  ghost predicate ReclaimInv(w: World) {
    && (forall n :: InReclaim(w, n) ==> w.reclaiming)
    && (forall n, m :: InReclaim(w, n) && InReclaim(w, m) ==> n == m)
    && (forall n :: Live(w, n) && w.contenders[n].stage.Unlinking? ==> FileNamesTheDead(w))
  }

  ghost predicate Inv(w: World) { LeaseInv(w) && ReclaimInv(w) }

  lemma StepKeepsLease(w: World, a: Action)
    requires Inv(w) && Enabled(w, a)
    ensures LeaseInv(Apply(w, a))
  {
    var w2 := Apply(w, a);
    assert a.Unlink? ==> FileNamesTheDead(w) && !Holds(w, w.lease.value);
    assert a.UnlinkOwn? ==> Holds(w, a.n) && w.lease == Some(a.n);
    forall n | Holds(w2, n) ensures w2.lease == Some(n) {
      assert Holds(w, n) || (a.Link? && a.n == n);
    }
  }

  lemma StepKeepsGuard(w: World, a: Action)
    requires Inv(w) && Enabled(w, a)
    ensures forall n :: InReclaim(Apply(w, a), n) ==> Apply(w, a).reclaiming
    ensures forall n, m :: InReclaim(Apply(w, a), n) && InReclaim(Apply(w, a), m) ==> n == m
  {
    var w2 := Apply(w, a);
    assert Live(w, a.n) && Reclaims(w.contenders[a.n].stage) ==> InReclaim(w, a.n);
    forall n | InReclaim(w2, n) ensures InReclaim(w, n) || (a.Claim? && a.n == n && !w.reclaiming) {
    }
  }

  lemma StepKeepsReclaim(w: World, a: Action)
    requires Inv(w) && Enabled(w, a) && Confirmed(w, a)
    ensures ReclaimInv(Apply(w, a))
  {
    var w2 := Apply(w, a);
    StepKeepsGuard(w, a);
    forall n | Live(w2, n) && w2.contenders[n].stage.Unlinking? ensures FileNamesTheDead(w2) {
      assert InReclaim(w, n);
      assert a.Unlink? ==> InReclaim(w, a.n);
      assert a.UnlinkOwn? ==> Holds(w, a.n);
    }
  }

  lemma {:induction false} RunKeeps(w: World, acts: seq<Action>, w2: World)
    requires Inv(w) && Run(w, acts, w2)
    ensures Inv(w2)
    decreases |acts|
  {
    if acts != [] {
      StepKeepsLease(w, acts[0]);
      StepKeepsReclaim(w, acts[0]);
      RunKeeps(Apply(w, acts[0]), acts[1..], w2);
    }
  }

  lemma InvIsExclusive(w: World)
    requires Inv(w)
    ensures Exclusive(w)
  {
  }

  /**
   * For any number of processes racing, dying and reclaiming, at most one live
   * process holds the runtime lease and the lease file names it.
   */
  lemma AtMostOneHolder(w: World, acts: seq<Action>, w2: World)
    requires Initial(w) && Run(w, acts, w2)
    ensures Exclusive(w2)
  {
    RunKeeps(w, acts, w2);
    InvIsExclusive(w2);
  }

  // ----- Exactly when a confirming judgement is safe -----

  lemma {:induction false} RunThen(w: World, acts: seq<Action>, w1: World, a: Action)
    requires Run(w, acts, w1) && Enabled(w1, a) && Confirmed(w1, a)
    ensures Run(w, acts + [a], Apply(w1, a))
    decreases |acts|
  {
    if acts == [] {
      assert Run(Apply(w, a), [], Apply(w, a));
    } else {
      RunThen(Apply(w, acts[0]), acts[1..], w1, a);
      assert (acts + [a])[1..] == acts[1..] + [a];
    }
  }

  lemma Then(v: World, acts: seq<Action>, w: World, a: Action) returns (more: seq<Action>, w2: World)
    requires Run(v, acts, w) && Enabled(w, a) && Confirmed(w, a)
    ensures Run(v, more, w2) && w2 == Apply(w, a)
  {
    RunThen(v, acts, w, a);
    more, w2 := acts + [a], Apply(w, a);
  }

  lemma {:induction false} FreshNonce(used: set<Nonce>) returns (n: Nonce)
    ensures n !in used && forall m :: m in used ==> m.id < n.id
    decreases |used|
  {
    if used == {} { return Nonce(0); }
    var m :| m in used;
    n := FreshNonce(used - {m});
    if m.id >= n.id { n := Nonce(m.id + 1); }
  }

  /** The failing family: the file names nobody, or a live process, when the old owner is judged stopped. */
  lemma StaleJudgementEvicts(w: World, n: Nonce) returns (acts: seq<Action>, w2: World)
    requires Inv(w) && Enabled(w, Rejudge(n, true)) && !FileNamesTheDead(w)
    ensures Run(Apply(w, Rejudge(n, true)), acts, w2) && !Exclusive(w2)
  {
    var v := Apply(w, Rejudge(n, true));
    acts, w2 := [], v;
    var p;
    if w.lease.None? {
      p := FreshNonce(w.contenders.Keys + w.past);
      acts, w2 := Then(v, acts, w2, Begin(p));
      acts, w2 := Then(v, acts, w2, Link(p));
    } else {
      p := w.lease.value;
    }
    assert Holds(w2, p) && p != n;
    acts, w2 := Then(v, acts, w2, Unlink(n));
    assert Holds(w2, p) && w2.lease.None?;
  }

  ghost predicate AlwaysExclusive(w: World) {
    forall acts, w2 :: Run(w, acts, w2) ==> Exclusive(w2)
  }

  /**
   * A reaper that has confirmed its owner dead keeps the lease exclusive in every
   * continuation if and only if the lease file names a dead process at that
   * moment. It does so whenever the file still names the owner just judged, which
   * the reaper could see by reading it once more.
   */
  lemma JudgementIsSafeIff(w: World, n: Nonce)
    requires Inv(w) && Enabled(w, Rejudge(n, true))
    ensures FileNamesTheDead(w) <==> AlwaysExclusive(Apply(w, Rejudge(n, true)))
    ensures w.lease == Some(w.contenders[n].stage.owner) ==> FileNamesTheDead(w)
  {
    var v := Apply(w, Rejudge(n, true));
    if FileNamesTheDead(w) {
      StepKeepsLease(w, Rejudge(n, true));
      StepKeepsReclaim(w, Rejudge(n, true));
      forall acts, w2 | Run(v, acts, w2) ensures Exclusive(w2) {
        RunKeeps(v, acts, w2);
        InvIsExclusive(w2);
      }
    } else {
      var acts, w2 := StaleJudgementEvicts(w, n);
      assert Run(v, acts, w2) && !Exclusive(w2);
    }
  }

  /** The first half of a reclamation: `n` finds the dead lease of `d` and is about to claim the directory. */
  lemma JudgesStopped(v: World, acts: seq<Action>, w: World, n: Nonce, d: Nonce) returns (more: seq<Action>, w2: World)
    requires Run(v, acts, w) && w.lease == Some(d) && d in w.past && d !in w.contenders && n !in w.contenders &&
      n !in w.past
    ensures Run(v, more, w2) && w2 == w.(contenders := w.contenders[n := Contender(true, Claiming(0))])
  {
    more, w2 := FindsTaken(v, acts, w, n, d);
    more, w2 := Then(v, more, w2, Read(n));
    more, w2 := Then(v, more, w2, Judge(n, true));
  }

  lemma FindsTaken(v: World, acts: seq<Action>, w: World, n: Nonce, d: Nonce) returns (more: seq<Action>, w2: World)
    requires Run(v, acts, w) && w.lease == Some(d) && n !in w.contenders && n !in w.past
    ensures Run(v, more, w2) && w2 == w.(contenders := w.contenders[n := Contender(true, Reading(0))])
  {
    more, w2 := Then(v, acts, w, Begin(n));
    more, w2 := Then(v, more, w2, Link(n));
  }

  /** The second half: the dead lease is removed and `n` links its own. */
  lemma Replaces(v: World, acts: seq<Action>, w: World, n: Nonce, d: Nonce) returns (more: seq<Action>, w2: World)
    requires Run(v, acts, w) && w.lease == Some(d) && d in w.past && d !in w.contenders && !w.reclaiming
    requires n in w.contenders && w.contenders[n] == Contender(true, Claiming(0))
    ensures Run(v, more, w2)
    ensures w2 == w.(lease := Some(n), contenders := w.contenders[n := Contender(true, Holding)])
  {
    more, w2 := Confirms(v, acts, w, n, d);
    more, w2 := Then(v, more, w2, Unlink(n));
    more, w2 := Then(v, more, w2, Unclaim(n));
    more, w2 := Then(v, more, w2, Link(n));
  }

  lemma Confirms(v: World, acts: seq<Action>, w: World, n: Nonce, d: Nonce) returns (more: seq<Action>, w2: World)
    requires Run(v, acts, w) && w.lease == Some(d) && d in w.past && d !in w.contenders && !w.reclaiming
    requires n in w.contenders && w.contenders[n] == Contender(true, Claiming(0))
    ensures Run(v, more, w2)
    ensures w2 == w.(reclaiming := true, contenders := w.contenders[n := Contender(true, Unlinking(0, d))])
  {
    more, w2 := Then(v, acts, w, Claim(n));
    more, w2 := Then(v, more, w2, Reread(n));
    assert w2 == w.(reclaiming := true, contenders := w.contenders[n := Contender(true, Rejudging(0, d))]);
    more, w2 := Then(v, more, w2, Rejudge(n, true));
  }

  /** The failing family is reachable: the new holder releases and exits while a second reaper judges it. */
  lemma EvictionIsReachable(w: World, d: Nonce, r: Nonce, q: Nonce) returns (acts: seq<Action>, w2: World)
    requires Initial(w) && w.lease == Some(d) && r != q && r !in w.past && q !in w.past
    ensures Run(w, acts, w2) && Enabled(w2, Rejudge(r, true)) && !FileNamesTheDead(w2)
  {
    acts, w2 := JudgesStopped(w, [], w, r, d);
    acts, w2 := JudgesStopped(w, acts, w2, q, d);
    acts, w2 := Replaces(w, acts, w2, q, d);
    acts, w2 := Then(w, acts, w2, Claim(r));
    acts, w2 := Then(w, acts, w2, Reread(r));
    acts, w2 := ReleasesAndExits(w, acts, w2, q);
  }

  lemma ReleasesAndExits(v: World, acts: seq<Action>, w: World, q: Nonce) returns (more: seq<Action>, w2: World)
    requires Run(v, acts, w) && w.lease == Some(q) && q in w.contenders && w.contenders[q] == Contender(true, Holding)
    ensures Run(v, more, w2)
    ensures w2 == w.(lease := None, contenders := w.contenders[q := Contender(false, Done)])
  {
    more, w2 := FindsItsOwn(v, acts, w, q);
    more, w2 := Then(v, more, w2, UnlinkOwn(q));
    more, w2 := Then(v, more, w2, Die(q));
  }

  lemma FindsItsOwn(v: World, acts: seq<Action>, w: World, q: Nonce) returns (more: seq<Action>, w2: World)
    requires Run(v, acts, w) && w.lease == Some(q) && q in w.contenders && w.contenders[q] == Contender(true, Holding)
    ensures Run(v, more, w2) && w2 == w.(contenders := w.contenders[q := Contender(true, Removing)])
  {
    more, w2 := Then(v, acts, w, Release(q));
    more, w2 := Then(v, more, w2, ReadOwn(q));
  }
}
