/**
 * `src/localApi/idempotencyStore.ts`: a short memory of what each client key has
 * already produced.
 *
 * `Life` is the reference: what one scoped key may go through as long as nothing
 * drops it. The class is the code, an insertion-ordered table with expiry and a
 * capacity. It keeps a log, and its invariant says that the log of every key that
 * was never dropped is a legal life ending in what the table now holds.
 */
module Idempotency {
  import opened Strings
  import opened Wrappers

  const MAX_REPLAYABLE_BYTES := 64 * 1024
  const MAX_KEY_LENGTH := 128
  const MIN_KEY_LENGTH := 8

  predicate KeyChar(c: char) {
    'A' <= c <= 'Z' || 'a' <= c <= 'z' || '0' <= c <= '9' || c in {'-', '.', '_', '~', ':'}
  }

  /** The key a client sent, or none if it is absent or unusable; it is never altered. */
  function NormalizeKey(raw: Option<string>): (r: Option<string>)
    ensures r.Some? ==> r == raw
    ensures r.Some? <==>
      raw.Some? && MIN_KEY_LENGTH <= |raw.value| <= MAX_KEY_LENGTH && forall c :: c in raw.value ==> KeyChar(c)
  {
    if raw.None? then None
    else
      TrimKeepsKeys(raw.value);
      if Trim(raw.value) != raw.value then None
      else if |raw.value| < MIN_KEY_LENGTH || |raw.value| > MAX_KEY_LENGTH then None
      else if exists c :: c in raw.value && !KeyChar(c) then None
      else raw
  }

  lemma TrimKeepsKeys(s: string)
    ensures (forall c :: c in s ==> KeyChar(c)) ==> Trim(s) == s
  {
    if s != "" && forall c :: c in s ==> KeyChar(c) {
      assert KeyChar(s[0]) && KeyChar(s[|s| - 1]);
    }
  }

  /** A client key under the digest of the credential that sent it, or under no credential. */
  datatype Scoped = Scoped(subject: Option<string>, key: string)

  function Scope(digest: string -> string, credential: Option<string>, key: string): Scoped {
    Scoped(if credential.Some? && credential.value != "" then Some(digest(credential.value)) else None, key)
  }

  datatype Entry<V> =
    | Busy(operation: string, storedAt: int)
    | Completed(operation: string, storedAt: int, status: int, value: V)

  /** A handler's answer; `size` is that of the encoded value. */
  datatype Response<V> = Json(status: int, value: V, size: nat) | Binary

  /** The right to settle one claim, held by the handler that made it. */
  datatype Claim = Claim(id: nat, key: Scoped, operation: string)

  datatype Outcome<V> =
    | Unkeyed
    | Replay(status: int, value: V)
    | ReusedForDifferentOperation
    | InFlight
    | Claimed(claim: Claim)

  // ----- The life of a key -----

  datatype Life<V> = Free | Working(operation: string) | Done(operation: string, status: int, value: V)

  datatype Event<V> =
    | Began(key: Scoped, operation: string)
    | Refused(key: Scoped, operation: string)
    | Replayed(key: Scoped, operation: string, status: int, value: V)
    | Remembered(key: Scoped, status: int, value: V)
    | Released(key: Scoped)
    | Dropped(key: Scoped)

  /** One event in the life of its key; none if it may not happen there. */
  function Live<V(==)>(life: Life<V>, e: Event<V>): Option<Life<V>> {
    match e
    case Began(_, operation) => if life.Free? then Some(Working(operation)) else None
    case Refused(_, operation) =>
      if life.Working? || (life.Done? && operation != life.operation) then Some(life) else None
    case Replayed(_, operation, status, value) => if life == Done(operation, status, value) then Some(life) else None
    case Remembered(_, status, value) => if life.Working? then Some(Done(life.operation, status, value)) else None
    case Released(_) => if life.Working? then Some(Free) else None
    case Dropped(_) => None
  }

  function LifeAfter<V(==)>(trace: seq<Event<V>>): Option<Life<V>> {
    if trace == [] then Some(Free)
    else
      var before := LifeAfter(trace[..|trace| - 1]);
      if before.None? then None else Live(before.value, trace[|trace| - 1])
  }

  function Trace<V>(log: seq<Event<V>>, k: Scoped): seq<Event<V>> {
    if log == [] then []
    else Trace(log[..|log| - 1], k) + (if log[|log| - 1].key == k then [log[|log| - 1]] else [])
  }

  predicate NeverDropped<V(==)>(log: seq<Event<V>>, k: Scoped) { Dropped(k) !in log }

  lemma TraceAppend<V>(log: seq<Event<V>>, e: Event<V>, k: Scoped)
    ensures Trace(log + [e], k) == if e.key == k then Trace(log, k) + [e] else Trace(log, k)
    ensures NeverDropped(log + [e], k) <==> NeverDropped(log, k) && e != Dropped(k)
  {
    assert (log + [e])[..|log|] == log;
  }

  lemma LifeAppend<V>(trace: seq<Event<V>>, e: Event<V>)
    requires LifeAfter(trace).Some?
    ensures LifeAfter(trace + [e]) == Live(LifeAfter(trace).value, e)
  {
    assert (trace + [e])[..|trace|] == trace;
  }

  lemma {:induction false} LegalPrefix<V>(trace: seq<Event<V>>, i: nat)
    requires i <= |trace| && LifeAfter(trace).Some?
    ensures LifeAfter(trace[..i]).Some?
    decreases |trace|
  {
    if i == |trace| {
      assert trace[..i] == trace;
    } else {
      assert trace[..|trace| - 1][..i] == trace[..i];
      LegalPrefix(trace[..|trace| - 1], i);
    }
  }

  /** Once a success is remembered the life of the key stays there. */
  lemma {:induction false} DoneStays<V>(trace: seq<Event<V>>, i: nat)
    requires i < |trace| && LifeAfter(trace).Some? && trace[i].Remembered?
    ensures LifeAfter(trace).value.Done? && LifeAfter(trace).value.status == trace[i].status
    ensures LifeAfter(trace).value.value == trace[i].value
    decreases |trace|
  {
    var n := |trace| - 1;
    if i < n { DoneStays(trace[..n], i); }
  }

  /**
   * At most one success is remembered. After it nothing is claimed, remembered or
   * released again, and every answer given is exactly that status and value.
   */
  lemma OneRememberedSuccess<V>(trace: seq<Event<V>>, i: nat, j: nat)
    requires i < j < |trace| && LifeAfter(trace).Some? && trace[i].Remembered?
    ensures trace[j].Refused? || (trace[j].Replayed? && trace[j].status == trace[i].status &&
      trace[j].value == trace[i].value)
  {
    LegalPrefix(trace, j + 1);
    assert trace[..j + 1][..j] == trace[..j];
    assert trace[..j][i] == trace[i];
    DoneStays(trace[..j], i);
  }

  /** A replay repeats a success that was remembered before it. */
  lemma {:induction false} ReplayHasSource<V>(trace: seq<Event<V>>) returns (i: nat)
    requires LifeAfter(trace).Some? && LifeAfter(trace).value.Done?
    ensures i < |trace| && trace[i].Remembered?
    ensures trace[i].status == LifeAfter(trace).value.status && trace[i].value == LifeAfter(trace).value.value
    decreases |trace|
  {
    var n := |trace| - 1;
    if trace[n].Remembered? { i := n; } else { i := ReplayHasSource(trace[..n]); }
  }

  /** Settled between `i` and `j`. */
  predicate SettledBetween<V(==)>(trace: seq<Event<V>>, i: nat, j: nat)
    requires i <= j <= |trace|
  {
    exists m :: i < m < j && (trace[m].Remembered? || trace[m].Released?)
  }

  lemma {:induction false} WorkingStays<V>(trace: seq<Event<V>>, i: nat)
    requires i < |trace| && LifeAfter(trace).Some? && trace[i].Began? && !SettledBetween(trace, i, |trace|)
    ensures LifeAfter(trace).value.Working?
    decreases |trace|
  {
    var n := |trace| - 1;
    if i < n {
      assert forall m :: i < m < n ==> trace[..n][m] == trace[m];
      WorkingStays(trace[..n], i);
    }
  }

  /** While a claim is unsettled the key is neither claimed again nor answered: every other use is refused. */
  lemma ConcurrentUseIsRefused<V>(trace: seq<Event<V>>, i: nat, j: nat)
    requires i < j < |trace| && LifeAfter(trace).Some? && trace[i].Began? && !SettledBetween(trace, i, j)
    ensures trace[j].Refused? || trace[j].Remembered? || trace[j].Released?
  {
    LegalPrefix(trace, j + 1);
    assert trace[..j + 1][..j] == trace[..j];
    assert trace[..j][i] == trace[i];
    WorkingStays(trace[..j], i);
  }

  // ----- The table -----

  predicate Distinct(s: seq<Scoped>) { forall i, j :: 0 <= i < j < |s| ==> s[i] != s[j] }

  function Without(s: seq<Scoped>, k: Scoped): (r: seq<Scoped>)
    ensures forall x :: x in r <==> x in s && x != k
  {
    if s == [] then [] else Without(s[..|s| - 1], k) + (if s[|s| - 1] == k then [] else [s[|s| - 1]])
  }

  lemma DistinctAppend(s: seq<Scoped>, k: Scoped)
    requires Distinct(s) && k !in s
    ensures Distinct(s + [k])
  {
  }

  lemma {:induction false} WithoutDistinct(s: seq<Scoped>, k: Scoped)
    requires Distinct(s)
    ensures Distinct(Without(s, k))
  {
    if s != [] {
      WithoutDistinct(s[..|s| - 1], k);
      assert s[|s| - 1] !in s[..|s| - 1];
      assert s[|s| - 1] !in Without(s[..|s| - 1], k);
    }
  }

  predicate Expired<V>(entries: map<Scoped, Entry<V>>, k: Scoped, cutoff: int) {
    k in entries && entries[k].storedAt <= cutoff
  }

  /** `kept` and then the keys of `s` not yet expired at `cutoff`, in order. */
  function Sift<V>(kept: seq<Scoped>, s: seq<Scoped>, entries: map<Scoped, Entry<V>>, cutoff: int): seq<Scoped>
    decreases |s|
  {
    if s == [] then kept
    else Sift(if Expired(entries, s[0], cutoff) then kept else kept + [s[0]], s[1..], entries, cutoff)
  }

  function Unexpired<V>(s: seq<Scoped>, entries: map<Scoped, Entry<V>>, cutoff: int): seq<Scoped> {
    Sift([], s, entries, cutoff)
  }

  lemma {:induction false} SiftIff<V>(kept: seq<Scoped>, s: seq<Scoped>, entries: map<Scoped, Entry<V>>, cutoff: int,
    k: Scoped)
    ensures k in Sift(kept, s, entries, cutoff) <==> k in kept || (k in s && !Expired(entries, k, cutoff))
    decreases |s|
  {
    if s != [] {
      SiftIff(if Expired(entries, s[0], cutoff) then kept else kept + [s[0]], s[1..], entries, cutoff, k);
    }
  }

  lemma Head(live: seq<Scoped>, rest: seq<Scoped>)
    requires rest != []
    ensures live + rest == live + [rest[0]] + rest[1..]
    ensures rest[0] in live + rest
  {
  }

  lemma {:induction false} WithoutMiddle(a: seq<Scoped>, k: Scoped, b: seq<Scoped>)
    requires Distinct(a + [k] + b)
    ensures Without(a + [k] + b, k) == a + b
    decreases |b| + |a|
  {
    var s := a + [k] + b;
    assert s[|a|] == k;
    if b != [] {
      var n := |b| - 1;
      assert s[..|s| - 1] == a + [k] + b[..n];
      WithoutMiddle(a, k, b[..n]);
      assert s[|s| - 1] != k;
    } else {
      assert s[..|a|] == a;
      assert k !in s[..|a|];
      WithoutAbsent(a, k);
    }
  }

  lemma WithoutFirst(gone: seq<Scoped>, s: seq<Scoped>)
    requires Distinct(s) && s != []
    ensures Without(s, s[0]) == s[1..] && gone + s == gone + [s[0]] + s[1..] && s[0] in s
  {
    assert s == [] + [s[0]] + s[1..];
    WithoutMiddle([], s[0], s[1..]);
  }

  lemma LastStays(a: seq<Scoped>, k: Scoped, gone: seq<Scoped>, left: seq<Scoped>)
    requires a + [k] == gone + left && left != []
    ensures k in left
  {
    assert left[|left| - 1] == (gone + left)[|a|];
  }

  lemma {:induction false} WithoutAbsent(a: seq<Scoped>, k: Scoped)
    requires k !in a
    ensures Without(a, k) == a
  {
    if a != [] {
      var n := |a| - 1;
      WithoutAbsent(a[..n], k);
      assert a[n] in a;
      assert a == a[..n] + [a[n]];
    }
  }

  /** What the table holds for `k`, as a stage of its life. */
  function Held<V>(entries: map<Scoped, Entry<V>>, k: Scoped): Life<V> {
    if k !in entries then Free
    else match entries[k]
      case Busy(operation, _) => Working(operation)
      case Completed(operation, _, status, value) => Done(operation, status, value)
  }

  /** The claims on `k` still out are those its stage allows: one while it is being worked on, else none. */
  predicate ClaimsFit<V(==)>(claims: set<Claim>, k: Scoped, life: Life<V>) {
    && (forall c :: c in claims && c.key == k ==> life == Working(c.operation))
    && (forall c, d :: c in claims && d in claims && c.key == k && d.key == k ==> c == d)
    && (life.Working? ==> exists c :: c in claims && c.key == k)
  }

  /** The history of `k`, unless something dropped it, is a legal life that ends in what the table holds. */
  predicate Fits<V(==)>(log: seq<Event<V>>, entries: map<Scoped, Entry<V>>, claims: set<Claim>, k: Scoped) {
    NeverDropped(log, k) ==>
      LifeAfter(Trace(log, k)) == Some(Held(entries, k)) && ClaimsFit(claims, k, Held(entries, k))
  }

  /** One event of a key, seen from any key. */
  lemma EventSeen<V>(log: seq<Event<V>>, e: Event<V>, j: Scoped)
    requires LifeAfter(Trace(log, j)).Some?
    ensures NeverDropped(log + [e], j) <==> NeverDropped(log, j) && e != Dropped(j)
    ensures LifeAfter(Trace(log + [e], j))
         == if e.key == j then Live(LifeAfter(Trace(log, j)).value, e) else LifeAfter(Trace(log, j))
  {
    TraceAppend(log, e, j);
    if e.key == j { LifeAppend(Trace(log, j), e); }
  }

  lemma DropFits<V>(log: seq<Event<V>>, entries: map<Scoped, Entry<V>>, claims: set<Claim>, k: Scoped, j: Scoped)
    requires Fits(log, entries, claims, j)
    ensures Fits(log + [Dropped(k)], entries - {k}, claims, j)
  {
    TraceAppend(log, Dropped(k), j);
  }

  lemma UseFits<V>(log: seq<Event<V>>, entries: map<Scoped, Entry<V>>, claims: set<Claim>, e: Event<V>, j: Scoped)
    requires Fits(log, entries, claims, j) && Live(Held(entries, e.key), e) == Some(Held(entries, e.key))
    ensures Fits(log + [e], entries, claims, j)
  {
    TraceAppend(log, e, j);
    if NeverDropped(log, j) { EventSeen(log, e, j); }
  }

  lemma FirstClaim<V>(claims: set<Claim>, claim: Claim, free: Life<V>, life: Life<V>)
    requires ClaimsFit(claims, claim.key, free) && free.Free? && life == Working(claim.operation)
    ensures ClaimsFit(claims + {claim}, claim.key, life)
  {
    assert forall c :: c in claims ==> c.key != claim.key;
    assert claim in claims + {claim};
  }

  lemma OtherClaims<V>(claims: set<Claim>, claim: Claim, j: Scoped, life: Life<V>)
    requires ClaimsFit(claims, j, life) && claim.key != j
    ensures ClaimsFit(claims - {claim}, j, life) && ClaimsFit(claims + {claim}, j, life)
  {
    if life.Working? {
      var c :| c in claims && c.key == j;
      assert c in claims - {claim} && c in claims + {claim};
    }
  }

  lemma ClaimFits<V>(log: seq<Event<V>>, entries: map<Scoped, Entry<V>>, claims: set<Claim>, claim: Claim,
    now: int, j: Scoped)
    requires Fits(log, entries, claims, j) && claim.key !in entries
    ensures Fits(log + [Began(claim.key, claim.operation)], entries[claim.key := Busy(claim.operation, now)],
                 claims + {claim}, j)
  {
    var e := Began(claim.key, claim.operation);
    TraceAppend(log, e, j);
    if NeverDropped(log, j) {
      EventSeen(log, e, j);
      if j == claim.key {
        var free: Life<V> := Free;
        FirstClaim(claims, claim, free, Working(claim.operation));
      } else {
        OtherClaims(claims, claim, j, Held(entries, j));
      }
    }
  }

  /** Settling `claim` may be seen from `j`: it is unsettled, or about another key, or about one dropped before. */
  predicate MaySettle<V(==)>(log: seq<Event<V>>, claims: set<Claim>, claim: Claim, j: Scoped) {
    claim in claims || claim.key != j || !NeverDropped(log, j)
  }

  lemma ForgetFits<V>(log: seq<Event<V>>, entries: map<Scoped, Entry<V>>, claims: set<Claim>, claim: Claim, j: Scoped)
    requires Fits(log, entries, claims, j) && MaySettle(log, claims, claim, j)
    ensures Fits(log + [Released(claim.key)], entries - {claim.key}, claims - {claim}, j)
  {
    TraceAppend(log, Released(claim.key), j);
    if NeverDropped(log, j) {
      EventSeen(log, Released(claim.key), j);
      if j != claim.key { OtherClaims(claims, claim, j, Held(entries, j)); }
    }
  }

  /** Forgetting a key that has no entry leaves everything as it was. */
  lemma EmptyForgetFits<V>(log: seq<Event<V>>, entries: map<Scoped, Entry<V>>, claims: set<Claim>, claim: Claim,
    j: Scoped)
    requires Fits(log, entries, claims, j) && claim.key !in entries
    ensures Fits(log, entries - {claim.key}, claims - {claim}, j)
  {
    assert entries - {claim.key} == entries;
    if NeverDropped(log, j) {
      if j == claim.key {
        assert claims - {claim} == claims;
      } else {
        OtherClaims(claims, claim, j, Held(entries, j));
      }
    }
  }

  lemma RememberFits<V>(log: seq<Event<V>>, entries: map<Scoped, Entry<V>>, claims: set<Claim>, claim: Claim,
    now: int, status: int, value: V, j: Scoped)
    requires Fits(log, entries, claims, j) && MaySettle(log, claims, claim, j)
    ensures Fits(log + [Remembered(claim.key, status, value)],
                 entries[claim.key := Completed(claim.operation, now, status, value)], claims - {claim}, j)
  {
    var e := Remembered(claim.key, status, value);
    TraceAppend(log, e, j);
    if NeverDropped(log, j) {
      EventSeen(log, e, j);
      if j != claim.key { OtherClaims(claims, claim, j, Held(entries, j)); }
    }
  }

  /** A handle settled again while its key was never dropped: the life of the key is no longer a legal one. */
  lemma SecondSettleBreaks<V>(log: seq<Event<V>>, entries: map<Scoped, Entry<V>>, claims: set<Claim>, claim: Claim,
    e: Event<V>, after: map<Scoped, Entry<V>>)
    requires Fits(log, entries, claims, claim.key) && NeverDropped(log, claim.key) && claim !in claims
    requires (e.Remembered? || e.Released?) && e.key == claim.key && !Held(after, claim.key).Working?
    ensures !Fits(log + [e], after, claims, claim.key)
  {
    TraceAppend(log, e, claim.key);
    EventSeen(log, e, claim.key);
    var life := Held(entries, claim.key);
    if life.Working? {
      var c :| c in claims && c.key == claim.key;
      assert !ClaimsFit(claims, claim.key, Held(after, claim.key));
    }
  }

  class Store<V(==,!new)> {
    const retention: int
    const maxEntries: nat
    const digest: string -> string
    var keys: seq<Scoped>                        // insertion order
    var entries: map<Scoped, Entry<V>>
    ghost var log: seq<Event<V>>
    ghost var claims: set<Claim>                 // handed out and not settled
    var issued: nat                              // numbers the claims, as each is its own closure

    ghost predicate TableValid()
      reads this
    {
      Distinct(keys) && forall k :: k in keys <==> k in entries
    }

    ghost predicate KeyValid(k: Scoped)
      reads this
    {
      Fits(log, entries, claims, k)
    }

    ghost predicate Valid()
      reads this
    {
      && TableValid()
      && (forall c :: c in claims ==> c.id < issued)
      && forall k :: KeyValid(k)
    }

    /**
     * In the table's own history: after a remembered success a key that was never
     * dropped only refuses or replays it.
     */
    lemma RememberedOnce(k: Scoped, i: nat, j: nat)
      requires Valid() && NeverDropped(log, k) && i < j < |Trace(log, k)| && Trace(log, k)[i].Remembered?
      ensures
        var first, later := Trace(log, k)[i], Trace(log, k)[j];
        later.Refused? || (later.Replayed? && later.status == first.status && later.value == first.value)
    {
      assert KeyValid(k);
      OneRememberedSuccess(Trace(log, k), i, j);
    }

    constructor (retention: int, maxEntries: nat, digest: string -> string)
      ensures Valid() && keys == [] && entries == map[] && log == [] && claims == {}
      ensures this.retention == retention && this.maxEntries == maxEntries && this.digest == digest
    {
      this.retention, this.maxEntries, this.digest := retention, maxEntries, digest;
      keys, entries, log, claims, issued := [], map[], [], {}, 0;
    }

    method Drop(k: Scoped)
      requires Valid() && k in entries
      modifies this`keys, this`entries, this`log
      ensures Valid() && keys == Without(old(keys), k) && entries == old(entries) - {k}
      ensures log == old(log) + [Dropped(k)]
    {
      WithoutDistinct(keys, k);
      keys := Without(keys, k);
      entries := entries - {k};
      log := log + [Dropped(k)];
      forall j ensures KeyValid(j) {
        assert old(KeyValid(j));
        DropFits(old(log), old(entries), claims, k, j);
      }
    }

    /** One turn of the eviction loop, `rest` being the keys still to visit. */
    method DropIfExpired(rest: seq<Scoped>, cutoff: int, ghost live: seq<Scoped>) returns (ghost now: seq<Scoped>)
      requires Valid() && keys == live + rest && rest != []
      modifies this`keys, this`entries, this`log
      ensures now == if Expired(old(entries), rest[0], cutoff) then live else live + [rest[0]]
      ensures Valid() && keys == now + rest[1..]
      ensures forall j :: j in entries ==> j in old(entries) && entries[j] == old(entries)[j]
    {
      Head(live, rest);
      now := live + [rest[0]];
      if entries[rest[0]].storedAt <= cutoff {
        WithoutMiddle(live, rest[0], rest[1..]);
        Drop(rest[0]);
        now := live;
      }
    }

    method DropExpired(cutoff: int)
      requires Valid()
      modifies this`keys, this`entries, this`log
      ensures Valid() && keys == Unexpired(old(keys), old(entries), cutoff)
      ensures forall k :: k in entries ==> k in old(entries) && entries[k] == old(entries)[k]
    {
      ghost var was, all := entries, keys;
      ghost var live: seq<Scoped> := [];
      var rest := keys;
      while rest != []
        invariant Valid() && keys == live + rest
        invariant Sift(live, rest, was, cutoff) == Unexpired(all, was, cutoff)
        invariant forall k :: k in entries ==> k in was && entries[k] == was[k]
        decreases |rest|
      {
        Head(live, rest);
        live := DropIfExpired(rest, cutoff, live);
        rest := rest[1..];
      }
    }

    method EvictExpired(now: int)
      requires Valid()
      modifies this`keys, this`entries, this`log
      ensures Valid() && keys == Unexpired(old(keys), old(entries), now - retention)
      ensures forall k :: k in entries <==> k in old(entries) && !Expired(old(entries), k, now - retention)
      ensures forall k :: k in entries ==> entries[k] == old(entries)[k]
    {
      DropExpired(now - retention);
      forall k ensures k in keys <==> k in old(entries) && !Expired(old(entries), k, now - retention) {
        SiftIff([], old(keys), old(entries), now - retention, k);
      }
    }

    /** Drops from the front until the table fits. */
    method EnforceCapacity() returns (ghost gone: seq<Scoped>)
      requires Valid()
      modifies this`keys, this`entries, this`log
      ensures Valid() && old(keys) == gone + keys
      ensures |old(keys)| <= maxEntries ==> gone == [] && entries == old(entries) && log == old(log)
      ensures |old(keys)| > maxEntries ==> |keys| == maxEntries
      ensures forall k :: k in entries ==> k in old(entries) && entries[k] == old(entries)[k]
    {
      gone := [];
      while |keys| > maxEntries
        invariant Valid() && old(keys) == gone + keys
        invariant |old(keys)| <= maxEntries ==> gone == [] && entries == old(entries) && log == old(log)
        invariant |old(keys)| > maxEntries ==> |keys| >= maxEntries
        invariant forall k :: k in entries ==> k in old(entries) && entries[k] == old(entries)[k]
        decreases |keys|
      {
        WithoutFirst(gone, keys);
        gone := gone + [keys[0]];
        Drop(keys[0]);
      }
    }

    /** Records a use that changes no entry. */
    ghost method NoteUse(e: Event<V>)
      requires Valid() && Live(Held(entries, e.key), e) == Some(Held(entries, e.key))
      modifies this`log
      ensures Valid() && log == old(log) + [e]
    {
      log := log + [e];
      forall j ensures KeyValid(j) {
        assert old(KeyValid(j));
        UseFits(old(log), entries, claims, e, j);
      }
    }

    method Insert(k: Scoped, operation: string, now: int) returns (claim: Claim)
      requires Valid() && k !in entries
      modifies this
      ensures Valid() && keys == old(keys) + [k] && entries == old(entries)[k := Busy(operation, now)]
      ensures claims == old(claims) + {claim} && claim.key == k && claim.operation == operation && claim !in old(claims)
      ensures log == old(log) + [Began(k, operation)]
    {
      DistinctAppend(keys, k);
      claim := Claim(issued, k, operation);
      keys := keys + [k];
      entries := entries[k := Busy(operation, now)];
      log := log + [Began(k, operation)];
      claims := claims + {claim};
      issued := issued + 1;
      forall j ensures KeyValid(j) {
        assert old(KeyValid(j));
        ClaimFits(old(log), old(entries), old(claims), claim, now, j);
      }
    }

    method ClaimKey(k: Scoped, operation: string, now: int) returns (claim: Claim)
      requires Valid() && k !in entries
      modifies this
      ensures Valid() && |keys| <= maxEntries && (maxEntries > 0 ==> k in entries && entries[k] == Busy(operation, now))
      ensures claims == old(claims) + {claim} && claim.key == k && claim.operation == operation && claim !in old(claims)
    {
      claim := Insert(k, operation, now);
      ghost var gone := EnforceCapacity();
      if maxEntries > 0 { LastStays(old(keys), k, gone, keys); }
    }

    /** What an entry says to a call for `operation`; it stays as it is. */
    method Answer(k: Scoped, operation: string) returns (r: Outcome<V>)
      requires Valid() && k in entries
      modifies this`log
      ensures Valid()
      ensures match entries[k]
        case Busy(other, _) => r == if operation == other then InFlight else ReusedForDifferentOperation
        case Completed(other, _, status, value) =>
          r == if operation == other then Replay(status, value) else ReusedForDifferentOperation
    {
      if entries[k].operation != operation {
        NoteUse(Refused(k, operation));
        return ReusedForDifferentOperation;
      }
      if entries[k].Busy? {
        NoteUse(Refused(k, operation));
        return InFlight;
      }
      NoteUse(Replayed(k, operation, entries[k].status, entries[k].value));
      return Replay(entries[k].status, entries[k].value);
    }

    /**
     * Claims a key, or says what it already stands for. A key that has expired
     * counts as free. An inserting call leaves the table within its capacity, which
     * may cost the oldest entries and, with no capacity at all, its own.
     */
    method Begin(raw: Option<string>, credential: Option<string>, operation: string, now: int) returns (r: Outcome<V>)
      requires Valid()
      modifies this
      ensures Valid()
      ensures r.Unkeyed? <==> NormalizeKey(raw).None?
      ensures r.Unkeyed? ==> entries == old(entries) && keys == old(keys) && log == old(log) && claims == old(claims)
      ensures NormalizeKey(raw).Some? ==>
        var k := Scope(digest, credential, NormalizeKey(raw).value);
        var held := if Expired(old(entries), k, now - retention) then Free else Held(old(entries), k);
        match held
        case Free =>
          && r.Claimed? && r.claim.key == k && r.claim.operation == operation
          && claims == old(claims) + {r.claim} && r.claim !in old(claims) && |keys| <= maxEntries
          && (maxEntries > 0 ==> k in entries && entries[k] == Busy(operation, now))
        case Working(other) => r == (if operation == other then InFlight else ReusedForDifferentOperation)
        case Done(other, status, value) =>
          r == (if operation == other then Replay(status, value) else ReusedForDifferentOperation)
      ensures !r.Claimed? ==> claims == old(claims)
      ensures !r.Claimed? && !r.Unkeyed? ==> keys == Unexpired(old(keys), old(entries), now - retention)
    {
      var key := NormalizeKey(raw);
      if key.None? { return Unkeyed; }
      EvictExpired(now);
      var k := Scope(digest, credential, key.value);
      if k in entries {
        r := Answer(k, operation);
        return;
      }
      var claim := ClaimKey(k, operation, now);
      return Claimed(claim);
    }

    method Forget(claim: Claim)
      requires Valid()
      modifies this
      ensures TableValid() && claims == old(claims) - {claim}
      ensures entries == old(entries) - {claim.key} && keys == Without(old(keys), claim.key)
      ensures log == if claim.key in old(entries) then old(log) + [Released(claim.key)] else old(log)
      ensures Valid() <==>
        claim in old(claims) || !NeverDropped(old(log), claim.key) || claim.key !in old(entries)
    {
      claims := claims - {claim};
      WithoutDistinct(keys, claim.key);
      keys := Without(keys, claim.key);
      entries := entries - {claim.key};
      ghost var k := claim.key;
      if k !in old(entries) {
        forall j ensures KeyValid(j) {
          assert old(KeyValid(j));
          EmptyForgetFits(log, old(entries), old(claims), claim, j);
        }
      } else {
        log := log + [Released(k)];
        if claim in old(claims) || !NeverDropped(old(log), k) {
          forall j ensures KeyValid(j) {
            assert old(KeyValid(j));
            ForgetFits(old(log), old(entries), old(claims), claim, j);
          }
        } else {
          assert old(KeyValid(k)) && claims == old(claims);
          SecondSettleBreaks(old(log), old(entries), claims, claim, Released(k), entries);
          assert !KeyValid(k);
        }
      }
    }

    method Remember(claim: Claim, now: int, status: int, value: V)
      requires Valid()
      modifies this
      ensures TableValid() && claims == old(claims) - {claim}
      ensures log == old(log) + [Remembered(claim.key, status, value)]
      ensures entries == old(entries)[claim.key := Completed(claim.operation, now, status, value)]
      ensures keys == if claim.key in old(entries) then old(keys) else old(keys) + [claim.key]
      ensures Valid() <==> claim in old(claims) || !NeverDropped(old(log), claim.key)
    {
      claims := claims - {claim};
      if claim.key !in entries { DistinctAppend(keys, claim.key); keys := keys + [claim.key]; }
      entries := entries[claim.key := Completed(claim.operation, now, status, value)];
      log := log + [Remembered(claim.key, status, value)];
      ghost var k := claim.key;
      if claim in old(claims) || !NeverDropped(old(log), k) {
        forall j ensures KeyValid(j) {
          assert old(KeyValid(j));
          RememberFits(old(log), old(entries), old(claims), claim, now, status, value, j);
        }
      } else {
        assert old(KeyValid(k)) && claims == old(claims);
        SecondSettleBreaks(old(log), old(entries), claims, claim, Remembered(k, status, value), entries);
        assert !KeyValid(k);
      }
    }

    /** Whether a handler's outcome is kept for replay. */
    predicate Replayable(response: Option<Response<V>>, failed: bool) {
      !failed && response.Some? && response.value.Json? && response.value.size <= MAX_REPLAYABLE_BYTES
    }

    /**
     * The handler reports. A small JSON success is remembered under the key, in its
     * old place or at the end; anything else frees the key. The history stays legal
     * exactly when the handle was not settled before, its key has once been dropped,
     * or there is nothing left to free.
     */
    method Settle(claim: Claim, response: Option<Response<V>>, failed: bool, now: int)
      requires Valid()
      modifies this
      ensures TableValid() && claims == old(claims) - {claim}
      ensures Replayable(response, failed) ==>
        && (var kept := Completed(claim.operation, now, response.value.status, response.value.value);
            entries == old(entries)[claim.key := kept])
        && keys == (if claim.key in old(entries) then old(keys) else old(keys) + [claim.key])
        && log == old(log) + [Remembered(claim.key, response.value.status, response.value.value)]
      ensures !Replayable(response, failed) ==>
        && entries == old(entries) - {claim.key} && keys == Without(old(keys), claim.key)
        && log == (if claim.key in old(entries) then old(log) + [Released(claim.key)] else old(log))
      ensures Valid() <==>
        || claim in old(claims) || !NeverDropped(old(log), claim.key)
        || (claim.key !in old(entries) && !Replayable(response, failed))
    {
      if !Replayable(response, failed) {
        Forget(claim);
      } else {
        Remember(claim, now, response.value.status, response.value.value);
      }
    }
  }
}
