/**
 * The transactional state file of `src/state/localStore.ts`.
 *
 * The reference is `Spec`: a file and a memory that change only at whole events,
 * one per update. The class `Store` runs the same updates the way the code
 * does, through a queue and with awaits between reading, mutating, writing and
 * committing. Its invariant says that at every one of those points it stands where
 * the reference stands after the updates settled so far, in submission order.
 */
module LocalStore {
  import opened Wrappers

  /** A state document: a JSON object. */
  type Doc<V> = map<string, V>

  datatype File<V> = Missing | Unreadable | Readable(doc: Doc<V>)

  /** An update callback: the candidate it leaves, or none if it throws. */
  type Mutator<!V> = Doc<V> -> Option<Doc<V>>

  datatype Format<V> = Format(defaults: Doc<V>, version: V)

  datatype Spec<V> = Spec(file: File<V>, memory: Option<Doc<V>>)

  datatype Event<!V> =
    | Committed(m: Mutator<V>, now: V)
    | Failed(m: Mutator<V>)                     // threw, could not be written, or was lost with its process
    | Loaded(moved: bool)                       // an unreadable file is moved aside if that succeeds
    | Crashed

  /** What `load` makes of the file. */
  function Recover<V(==)>(fmt: Format<V>, file: File<V>): Doc<V> {
    if file.Readable? && "version" in file.doc && file.doc["version"] == fmt.version
    then fmt.defaults + file.doc
    else fmt.defaults
  }

  predicate Sound<V(==)>(fmt: Format<V>, file: File<V>) {
    file.Missing? || (file.Readable? && "version" in file.doc && file.doc["version"] == fmt.version)
  }

  function Load<V(==)>(fmt: Format<V>, s: Spec<V>, moved: bool): Spec<V> {
    Spec(if moved && !Sound(fmt, s.file) then Missing else s.file, Some(Recover(fmt, s.file)))
  }

  /** A successful update: the mutator's candidate, stamped, in the file and in memory. */
  function Commit<V>(s: Spec<V>, m: Mutator<V>, now: V): Spec<V> {
    if s.memory.None? || m(s.memory.value).None? then s
    else
      var next := m(s.memory.value).value["updatedAt" := now];
      Spec(Readable(next), Some(next))
  }

  function Step<V(==)>(fmt: Format<V>, s: Spec<V>, e: Event<V>): Spec<V> {
    match e
    case Committed(m, now) => Commit(s, m, now)
    case Failed(_) => s
    case Loaded(moved) => Load(fmt, s, moved)
    case Crashed => s.(memory := None)
  }

  function Replay<V(==)>(fmt: Format<V>, s: Spec<V>, h: seq<Event<V>>): Spec<V> {
    if h == [] then s else Step(fmt, Replay(fmt, s, h[..|h| - 1]), h[|h| - 1])
  }

  /** The updates of a history in their order, whatever became of them. */
  ghost function Updates<V>(h: seq<Event<V>>): seq<Mutator<V>> {
    if h == [] then []
    else
      var e := h[|h| - 1];
      Updates(h[..|h| - 1]) + (if e.Committed? || e.Failed? then [e.m] else [])
  }

  /** The history without the updates that failed. */
  function Successes<V>(h: seq<Event<V>>): seq<Event<V>> {
    if h == [] then []
    else Successes(h[..|h| - 1]) + (if h[|h| - 1].Failed? then [] else [h[|h| - 1]])
  }

  function Failures<V>(ms: seq<Mutator<V>>): seq<Event<V>> {
    seq(|ms|, i requires 0 <= i < |ms| => Failed(ms[i]))
  }

  lemma ReplayAppend<V>(fmt: Format<V>, s: Spec<V>, h: seq<Event<V>>, e: Event<V>)
    ensures Replay(fmt, s, h + [e]) == Step(fmt, Replay(fmt, s, h), e)
    ensures Updates(h + [e]) == Updates(h) + (if e.Committed? || e.Failed? then [e.m] else [])
  {
    assert (h + [e])[..|h|] == h;
  }

  lemma {:induction false} ReplayFailures<V>(fmt: Format<V>, s: Spec<V>, h: seq<Event<V>>, ms: seq<Mutator<V>>)
    ensures Replay(fmt, s, h + Failures(ms)) == Replay(fmt, s, h)
    ensures Updates(h + Failures(ms)) == Updates(h) + ms
  {
    if ms == [] {
      assert h + Failures(ms) == h;
    } else {
      var n := |ms| - 1;
      ReplayFailures(fmt, s, h, ms[..n]);
      assert h + Failures(ms) == (h + Failures(ms[..n])) + [Failed(ms[n])];
      ReplayAppend(fmt, s, h + Failures(ms[..n]), Failed(ms[n]));
      assert ms == ms[..n] + [ms[n]];
    }
  }

  /** A failed update leaves no trace: the outcome is that of the successful updates alone. */
  lemma {:induction false} FailuresLeaveNoTrace<V>(fmt: Format<V>, s: Spec<V>, h: seq<Event<V>>)
    ensures Replay(fmt, s, h) == Replay(fmt, s, Successes(h))
  {
    if h != [] {
      var n := |h| - 1;
      FailuresLeaveNoTrace(fmt, s, h[..n]);
      if h[n].Failed? {
        assert Successes(h) == Successes(h[..n]);
      } else {
        ReplayAppend(fmt, s, Successes(h[..n]), h[n]);
      }
    }
  }

  /** The file holds `doc` as it stands, or nothing was written since `doc` was read from it. */
  predicate Agrees<V(==)>(fmt: Format<V>, file: File<V>, doc: Doc<V>) {
    file == Readable(doc) || Recover(fmt, file) == doc
  }

  /** After every history memory agrees with the durable file. */
  lemma {:induction false} MemoryIsDurable<V>(fmt: Format<V>, s: Spec<V>, h: seq<Event<V>>)
    requires s.memory.None?
    ensures var r := Replay(fmt, s, h); r.memory.Some? ==> Agrees(fmt, r.file, r.memory.value)
  {
    if h != [] { MemoryIsDurable(fmt, s, h[..|h| - 1]); }
  }

  /**
   * A crash right after a commit loses nothing: the next load gives the committed
   * document back, its missing keys filled in, as long as the mutator left the
   * version alone. Otherwise the load starts over from the defaults.
   */
  lemma CommitSurvivesCrash<V>(fmt: Format<V>, s: Spec<V>, h: seq<Event<V>>, m: Mutator<V>, now: V, moved: bool)
    requires var r := Replay(fmt, s, h); r.memory.Some? && m(r.memory.value).Some?
    ensures
      var doc := m(Replay(fmt, s, h).memory.value).value["updatedAt" := now];
      var after := Replay(fmt, s, h + [Committed(m, now), Crashed, Loaded(moved)]);
      after.memory == Some(if Sound(fmt, Readable(doc)) then fmt.defaults + doc else fmt.defaults)
  {
    var c := Committed(m, now);
    ReplayAppend(fmt, s, h, c);
    ReplayAppend(fmt, s, h + [c], Crashed);
    ReplayAppend(fmt, s, h + [c] + [Crashed], Loaded(moved));
    assert h + [c, Crashed, Loaded(moved)] == h + [c] + [Crashed] + [Loaded(moved)];
  }

  datatype Phase<V> =
    | Waiting                                   // no transaction is running
    | Mutating(candidate: Doc<V>)
    | Writing(candidate: Doc<V>, next: Doc<V>, now: V)
    | Written(next: Doc<V>)                     // renamed into place, not yet in memory

  /** The document the running transaction takes memory to hold, now or after its commit. */
  function Expects<V>(phase: Phase<V>): Option<Doc<V>> {
    match phase
    case Waiting => None
    case Mutating(candidate) => Some(candidate)
    case Writing(candidate, _, _) => Some(candidate)
    case Written(next) => Some(next)
  }

  class Store<V(==,!new)> {
    const fmt: Format<V>
    const readOnly: bool
    var file: File<V>
    var state: Option<Doc<V>>
    var chain: seq<Mutator<V>>                  // updates submitted and not settled, oldest first
    var phase: Phase<V>                         // of the oldest
    ghost const start: File<V>
    ghost var history: seq<Event<V>>
    ghost var shown: nat                        // number of events memory shows
    ghost var submitted: seq<Mutator<V>>

    /** Where the reference stands. */
    ghost function Reference(): Spec<V>
      reads this
    {
      Replay(fmt, Spec(start, None), history)
    }

    /**
     * The file is always the reference's. Memory is too, except between a rename
     * and its commit, when it may still show the document before. Settled updates
     * and waiting ones together are the submitted ones in order.
     */
    ghost predicate Valid()
      reads this
    {
      && file == Reference().file
      && shown <= |history|
      && state == Replay(fmt, Spec(start, None), history[..shown]).memory
      && (!phase.Written? ==> shown == |history|)
      && (phase.Written? ==>
            && Reference().memory == Some(phase.next)
            && (shown == |history| || (shown == |history| - 1 && history[shown].Committed?)))
      && (phase.Mutating? || phase.Writing? ==> state == Some(phase.candidate))
      && (!phase.Waiting? ==> chain != [] && state.Some?)
      && (phase.Writing? ==>
        chain[0](phase.candidate).Some? && phase.next == chain[0](phase.candidate).value["updatedAt" := phase.now])
      && submitted == Updates(history) + (if phase.Written? then chain[1..] else chain)
    }

    /** Outside that window memory agrees with what is on disk. */
    lemma MemoryMatchesFile()
      requires Valid() && state.Some? && !phase.Written?
      ensures Agrees(fmt, file, state.value)
    {
      assert history[..shown] == history;
      MemoryIsDurable(fmt, Spec(start, None), history);
    }

    /** What is on disk and in memory is the outcome of the updates that succeeded, and of nothing else. */
    lemma OnlySuccessesCount()
      requires Valid() && !phase.Written?
      ensures Spec(file, state) == Replay(fmt, Spec(start, None), Successes(history))
    {
      assert history[..shown] == history;
      FailuresLeaveNoTrace(fmt, Spec(start, None), history);
    }

    constructor (fmt: Format<V>, readOnly: bool, file: File<V>)
      ensures Valid() && this.fmt == fmt && this.readOnly == readOnly && this.file == file
      ensures state == None && chain == [] && phase == Waiting && history == [] && submitted == []
    {
      this.fmt, this.readOnly, this.file, this.start := fmt, readOnly, file, file;
      state, chain, phase, history, shown, submitted := None, [], Waiting, [], 0, [];
    }

    /**
     * A document with every default key and the current version reads back from the
     * file as itself, so a load beside the running transaction changes nothing.
     */
    lemma ReloadIsHarmless()
      requires Valid() && (phase.Mutating? || phase.Writing?)
      requires fmt.defaults.Keys <= phase.candidate.Keys && Sound(fmt, Readable(phase.candidate))
      ensures Some(Recover(fmt, file)) == Expects(phase)
    {
      MemoryMatchesFile();
      assert fmt.defaults + phase.candidate == phase.candidate;
    }

    /** The head of the chain leaves it with `e` recorded. */
    ghost method Record(e: Event<V>)
      modifies this`history
      ensures history == old(history) + [e]
      ensures Reference() == Step(fmt, old(Reference()), e)
      ensures Updates(history) == Updates(old(history)) + (if e.Committed? || e.Failed? then [e.m] else [])
    {
      ReplayAppend(fmt, Spec(start, None), history, e);
      history := history + [e];
    }

    /** Memory shows every event. */
    ghost method CatchUp()
      modifies this`shown
      ensures shown == |history| && Replay(fmt, Spec(start, None), history[..shown]) == Reference()
    {
      shown := |history|;
      assert history[..shown] == history;
    }

    /**
     * Reads the file; a read-only store refuses an unreadable one and never moves it.
     * Beside a running transaction the store still follows the reference exactly when
     * the file reads back as the document that transaction works from or has written.
     */
    method Load(moved: bool) returns (r: Result<Doc<V>, string>)
      requires Valid()
      modifies this
      ensures chain == old(chain) && submitted == old(submitted) && phase == old(phase)
      ensures r.Err? <==> readOnly && !Sound(fmt, old(file))
      ensures r.Err? ==> history == old(history) && file == old(file) && state == old(state)
      ensures r.Ok? ==> state == Some(Recover(fmt, old(file))) && r.value == state.value
      ensures r.Ok? ==> history == old(history) + [Loaded(moved && !readOnly)]
      ensures readOnly ==> file == old(file)
      ensures Valid() <==> r.Err? || phase.Waiting? || Some(Recover(fmt, old(file))) == Expects(phase)
    {
      if readOnly && !Sound(fmt, file) { return Err("state_snapshot_unavailable"); }
      Record(Loaded(moved && !readOnly));
      CatchUp();
      state := Some(Recover(fmt, file));
      if !Sound(fmt, file) && moved { file := Missing; }
      r := Ok(state.value);
      if phase.Waiting? || state == Expects(phase) { assert Valid(); } else { assert !Valid(); }
    }

    /**
     * What any caller sees at any moment: the memory of the reference after a whole
     * number of events, all of them but perhaps the commit under way.
     */
    method Snapshot() returns (doc: Doc<V>)
      requires Valid()
      ensures
        var seen := Replay(fmt, Spec(start, None), history[..shown]);
        doc == if seen.memory.Some? then seen.memory.value else fmt.defaults
      ensures !phase.Written? ==> shown == |history|
    {
      doc := if state.Some? then state.value else fmt.defaults;
    }

    method Update(m: Mutator<V>) returns (accepted: bool)
      requires Valid()
      modifies this`chain, this`submitted
      ensures Valid() && accepted == !readOnly
      ensures submitted == if accepted then old(submitted) + [m] else old(submitted)
    {
      if readOnly { return false; }
      chain := chain + [m];
      submitted := submitted + [m];
      return true;
    }

    /** The oldest update starts, loading first if nothing is in memory; it may fail there. */
    method Begin(moved: bool, failed: bool)
      requires Valid() && phase.Waiting? && chain != [] && !readOnly
      modifies this
      ensures Valid() && submitted == old(submitted)
      ensures old(state).Some? ==> phase == Mutating(old(state).value) && history == old(history) && file == old(file)
      ensures old(state).None? && !failed ==>
        phase == Mutating(Recover(fmt, old(file))) && history == old(history) + [Loaded(moved)]
      ensures old(state).Some? || !failed ==> chain == old(chain)
      ensures old(state).None? && failed ==> phase.Waiting? && chain == old(chain)[1..] && file == old(file)
    {
      if state.None? {
        if failed { Settle(Failed(chain[0])); return; }
        var r := Load(moved);
      }
      phase := Mutating(state.value);
    }

    method Settle(ghost e: Event<V>)
      requires Valid() && chain != [] && !phase.Written? && e == Failed(chain[0])
      modifies this
      ensures Valid() && phase.Waiting? && chain == old(chain)[1..]
      ensures file == old(file) && state == old(state) && submitted == old(submitted) && history == old(history) + [e]
    {
      assert history[..shown] == history;
      Record(e);
      CatchUp();
      phase := Waiting;
      chain := chain[1..];
    }

    /** Runs the callback on the candidate; a throw fails this update and changes nothing. */
    method Mutate(now: V)
      requires Valid() && phase.Mutating?
      modifies this
      ensures Valid() && file == old(file) && state == old(state) && submitted == old(submitted)
      ensures
        var r := old(chain)[0](old(phase).candidate);
        if r.None? then phase.Waiting? && history == old(history) + [Failed(old(chain)[0])]
        else
          phase == Writing(old(phase).candidate, r.value["updatedAt" := now], now) && history == old(history)
    {
      var r := chain[0](phase.candidate);
      if r.None? {
        Settle(Failed(chain[0]));
      } else {
        phase := Writing(phase.candidate, r.value["updatedAt" := now], now);
      }
    }

    /** Writes a temporary file and renames it over the state file, or fails before the rename. */
    method AtomicWrite(ok: bool)
      requires Valid() && phase.Writing?
      modifies this
      ensures Valid() && state == old(state) && submitted == old(submitted)
      ensures ok ==> file == Readable(old(phase).next) && phase == Written(old(phase).next)
      ensures !ok ==> file == old(file) && phase.Waiting? && history == old(history) + [Failed(old(chain)[0])]
    {
      if !ok { Settle(Failed(chain[0])); return; }
      assert history[..shown] == history;
      file := Readable(phase.next);
      Record(Committed(chain[0], phase.now));
      assert history[..shown] == old(history);
      phase := Written(phase.next);
    }

    method CommitToMemory()
      requires Valid() && phase.Written?
      modifies this
      ensures Valid() && phase.Waiting? && state == Some(old(phase).next) && file == old(file)
      ensures chain == old(chain)[1..] && history == old(history) && submitted == old(submitted)
    {
      state := Some(phase.next);
      CatchUp();
      phase := Waiting;
      chain := chain[1..];
    }

    /** The updates `lost` fail together. */
    ghost method LoseQueue(lost: seq<Mutator<V>>)
      modifies this`history
      ensures history == old(history) + Failures(lost)
      ensures Reference() == old(Reference()) && Updates(history) == Updates(old(history)) + lost
    {
      ReplayFailures(fmt, Spec(start, None), history, lost);
      history := history + Failures(lost);
    }

    /** The process dies: the queue and memory go, the file stays, a renamed update counts as done. */
    method Crash()
      requires Valid()
      modifies this
      ensures Valid() && file == old(file) && state == None && chain == [] && phase.Waiting? &&
        submitted == old(submitted)
      ensures
        var lost := if old(phase).Written? then old(chain)[1..] else old(chain);
        history == old(history) + Failures(lost) + [Crashed]
    {
      LoseQueue(if phase.Written? then chain[1..] else chain);
      Record(Crashed);
      CatchUp();
      state, chain, phase := None, [], Waiting;
    }
  }
}
