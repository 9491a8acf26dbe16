/**
 * The archive plan of `src/operator/commitments.ts`: which records of the public
 * pin set this node undertakes to hold. Eligible records are put in priority order
 * and taken greedily within a count and a byte budget.
 *
 * Locale collation is a parameter: a rank that orders text as `localeCompare` does.
 * So is the runtime's sort, which promises a sorted and stable arrangement only for
 * a comparator that is an order of the records at hand.
 */
module ArchivePlan {
  import opened Strings
  import opened Wrappers

  datatype Record = Record(
    id: string,
    cid: string,
    role: string,
    sizeBytes: Option<int>,
    storageClass: Option<string>,
    objectType: Option<string>,
    objectId: Option<string>,
    version: Option<int>,
    verificationClass: Option<string>)

  type Collation = string -> real

  function Max(a: int, b: int): int { if a < b then b else a }

  /** Absent and empty text read the same. */
  function Text(o: Option<string>): string { if o.Some? then o.value else "" }

  function OrElse(a: string, b: string): string { if a != "" then a else b }

  predicate ClassFilterAllows(r: Record, filters: seq<string>) {
    filters == [] || Trim(Text(r.verificationClass)) == "" || Trim(Text(r.verificationClass)) in filters
  }

  function StorageClass(r: Record): string {
    OrElse(Text(r.storageClass),
           OrElse(if r.role == "manifest" || r.role == "record" then "hot" else Text(r.verificationClass), "warm"))
  }

  /** What every object literal inherits. Looking such a name up in a table gives a value that is no number. */
  predicate Inherited(name: string) {
    name in {
      "constructor", "hasOwnProperty", "isPrototypeOf", "propertyIsEnumerable", "toLocaleString", "toString", "valueOf",
      "__proto__", "__defineGetter__", "__defineSetter__", "__lookupGetter__", "__lookupSetter__"
    }
  }

  function ClassPriority(c: string): Option<int> {
    if c == "hot" then Some(0)
    else if c == "warm" then Some(1)
    else if c == "cold" then Some(2)
    else if Inherited(c) then None
    else Some(1)
  }

  function RolePriority(role: string): Option<int> {
    if role == "manifest" then Some(0)
    else if role == "record" then Some(1)
    else if role == "spatial_preview" then Some(2)
    else if role == "media" || role == "leaf" then Some(3)
    else if role == "spatial_mobile" then Some(4)
    else if role == "spatial_archive" then Some(5)
    else if Inherited(role) then None
    else Some(10)
  }

  /** The sort key, most significant part first. */
  datatype Key = Key(tier: Option<int>, role: Option<int>, objectType: real, objectId: real, version: int, cid: real)

  function KeyOf(rank: Collation, r: Record): Key {
    Key(ClassPriority(StorageClass(r)), RolePriority(r.role), rank(Text(r.objectType)), rank(Text(r.objectId)),
        Version(r), rank(r.cid))
  }

  predicate Differ(a: Option<int>, b: Option<int>) { a.Some? && b.Some? && a != b }

  /** The comparator: the first difference decides, and a part that is no number on either side is passed over. */
  function Compare(a: Key, b: Key): int {
    if Differ(a.tier, b.tier) then a.tier.value - b.tier.value
    else if Differ(a.role, b.role) then a.role.value - b.role.value
    else if a.objectType != b.objectType then (if a.objectType < b.objectType then -1 else 1)
    else if a.objectId != b.objectId then (if a.objectId < b.objectId then -1 else 1)
    else if a.version != b.version then a.version - b.version
    else if a.cid != b.cid then (if a.cid < b.cid then -1 else 1)
    else 0
  }

  /** Whether one record may come before another. */
  type Order = (Record, Record) -> bool

  function Priority(rank: Collation): Order { (a, b) => Compare(KeyOf(rank, a), KeyOf(rank, b)) <= 0 }

  predicate Tied(le: Order, a: Record, b: Record) { le(a, b) && le(b, a) }

  /** Total and transitive on these records. */
  predicate OrderOn(le: Order, dom: set<Record>) {
    && (forall a, b :: a in dom && b in dom ==> le(a, b) || le(b, a))
    && (forall a, b, c :: a in dom && b in dom && c in dom && le(a, b) && le(b, c) ==> le(a, c))
  }

  // ----- When the comparator is an order -----

  /** Neither the class nor the role is an inherited name. */
  predicate Plain(r: Record) { ClassPriority(StorageClass(r)).Some? && RolePriority(r.role).Some? }

  predicate PlainKey(k: Key) { k.tier.Some? && k.role.Some? }

  lemma CompareIsOrder(a: Key, b: Key, c: Key)
    requires PlainKey(a) && PlainKey(b) && PlainKey(c)
    ensures Compare(a, b) <= 0 || Compare(b, a) <= 0
    ensures Compare(a, b) <= 0 && Compare(b, c) <= 0 ==> Compare(a, c) <= 0
    ensures Compare(a, b) <= 0 && Compare(b, a) <= 0 ==> a == b
  {
  }

  /** On plain records the comparator is a total order of their keys. */
  lemma PriorityIsOrder(rank: Collation, dom: set<Record>)
    requires forall r :: r in dom ==> Plain(r)
    ensures OrderOn(Priority(rank), dom)
    ensures forall a, b :: a in dom && b in dom ==> (Tied(Priority(rank), a, b) <==> KeyOf(rank, a) == KeyOf(rank, b))
  {
    var le := Priority(rank);
    forall a, b, c | a in dom && b in dom && c in dom
      ensures le(a, b) || le(b, a)
      ensures le(a, b) && le(b, c) ==> le(a, c)
      ensures Tied(le, a, b) <==> KeyOf(rank, a) == KeyOf(rank, b)
    {
      CompareIsOrder(KeyOf(rank, a), KeyOf(rank, b), KeyOf(rank, c));
    }
  }

  function Version(r: Record): int { if r.version.Some? then r.version.value else 0 }

  /** `r` under another class and role, so many versions on. */
  function Recast(r: Record, tier: string, role: string, later: int): Record {
    r.(storageClass := Some(tier), role := role, version := Some(Version(r) + later))
  }

  lemma RecastKey(rank: Collation, r: Record, tier: string, role: string, later: int)
    requires tier != ""
    ensures KeyOf(rank, Recast(r, tier, role, later))
         == KeyOf(rank, r).(tier := ClassPriority(tier), role := RolePriority(role), version := Version(r) + later)
  {
  }

  /** `a` before `c` before `b` before `a`. */
  predicate Cycle(rank: Collation, a: Record, b: Record, c: Record) {
    && Compare(KeyOf(rank, a), KeyOf(rank, c)) < 0 < Compare(KeyOf(rank, c), KeyOf(rank, a))
    && Compare(KeyOf(rank, c), KeyOf(rank, b)) < 0 < Compare(KeyOf(rank, b), KeyOf(rank, c))
    && Compare(KeyOf(rank, b), KeyOf(rank, a)) < 0 < Compare(KeyOf(rank, a), KeyOf(rank, b))
  }

  /** The failing family: every record with an inherited class or role is in a cycle with two plain ones. */
  lemma InheritedNameCycles(rank: Collation, b: Record) returns (a: Record, c: Record)
    requires !Plain(b)
    ensures Plain(a) && Plain(c) && Cycle(rank, a, b, c)
  {
    var tier1, tier2, role1, role2 := "hot", "cold", "media", "media";
    if ClassPriority(StorageClass(b)).Some? {
      tier1, tier2, role1, role2 := StorageClass(b), StorageClass(b), "manifest", "spatial_archive";
    } else if RolePriority(b.role).Some? {
      role1, role2 := b.role, b.role;
    }
    a, c := Recast(b, tier1, role1, 1), Recast(b, tier2, role2, -1);
    RecastKey(rank, b, tier1, role1, 1);
    RecastKey(rank, b, tier2, role2, -1);
  }

  /** In a cycle no arrangement is sorted. */
  lemma CycleHasNoOrder(rank: Collation, a: Record, b: Record, c: Record)
    requires Cycle(rank, a, b, c)
    ensures !OrderOn(Priority(rank), {a, b, c})
    ensures forall s :: multiset(s) == multiset{a, b, c} ==> !Sorted(Priority(rank), s)
  {
    var le := Priority(rank);
    assert le(a, c) && le(c, b) && !le(a, b) && !le(c, a) && !le(b, c);
    forall s | multiset(s) == multiset{a, b, c} ensures !Sorted(le, s) {
      assert |s| == |multiset(s)| == 3;
      assert s == [s[0], s[1], s[2]];
      assert multiset{s[0], s[1], s[2]} == multiset{a, b, c};
    }
  }

  /**
   * A record keeps the comparator an order beside every two plain records if and only
   * if it is plain itself, which anyone who holds the record can see.
   */
  lemma NameIsSafeIff(rank: Collation, b: Record)
    ensures Plain(b) <==> forall a, c :: Plain(a) && Plain(c) ==> OrderOn(Priority(rank), {a, b, c})
  {
    if Plain(b) {
      forall a, c | Plain(a) && Plain(c) ensures OrderOn(Priority(rank), {a, b, c}) {
        PriorityIsOrder(rank, {a, b, c});
      }
    } else {
      var a, c := InheritedNameCycles(rank, b);
      CycleHasNoOrder(rank, a, b, c);
    }
  }

  /** A hot archive, a file whose class is `constructor`, and a cold preview. */
  lemma ConstructorCycles(rank: Collation, a: Record, b: Record, c: Record)
    requires a.storageClass == Some("hot") && a.role == "spatial_archive"
    requires b.storageClass == Some("constructor") && b.role == "media"
    requires c.storageClass == Some("cold") && c.role == "spatial_preview"
    ensures Cycle(rank, a, b, c)
  {
  }

  // ----- The order -----

  function Insert(le: Order, s: seq<Record>, x: Record): seq<Record> {
    if s == [] || le(s[|s| - 1], x) then s + [x]
    else Insert(le, s[..|s| - 1], x) + [s[|s| - 1]]
  }

  /** A stable sort. */
  function Sort(le: Order, s: seq<Record>): seq<Record> {
    if s == [] then [] else Insert(le, Sort(le, s[..|s| - 1]), s[|s| - 1])
  }

  lemma {:induction false} InsertPermutes(le: Order, s: seq<Record>, x: Record)
    ensures multiset(Insert(le, s, x)) == multiset(s) + multiset{x}
  {
    if s != [] && !le(s[|s| - 1], x) {
      InsertPermutes(le, s[..|s| - 1], x);
      assert s == s[..|s| - 1] + [s[|s| - 1]];
    }
  }

  lemma {:induction false} SortPermutes(le: Order, s: seq<Record>)
    ensures multiset(Sort(le, s)) == multiset(s)
  {
    if s != [] {
      SortPermutes(le, s[..|s| - 1]);
      InsertPermutes(le, Sort(le, s[..|s| - 1]), s[|s| - 1]);
      assert s == s[..|s| - 1] + [s[|s| - 1]];
    }
  }

  lemma {:induction false} InsertMembers(le: Order, s: seq<Record>, x: Record)
    ensures forall y :: y in Insert(le, s, x) ==> y in s || y == x
  {
    if s != [] && !le(s[|s| - 1], x) { InsertMembers(le, s[..|s| - 1], x); }
  }

  lemma {:induction false} SortMembers(le: Order, s: seq<Record>)
    ensures forall y :: y in Sort(le, s) ==> y in s
  {
    if s != [] {
      SortMembers(le, s[..|s| - 1]);
      InsertMembers(le, Sort(le, s[..|s| - 1]), s[|s| - 1]);
    }
  }

  predicate Within(s: seq<Record>, dom: set<Record>) { forall y :: y in s ==> y in dom }

  function Members(s: seq<Record>): set<Record> { set y | y in s }

  predicate Sorted(le: Order, s: seq<Record>) {
    forall i, j :: 0 <= i < j < |s| ==> le(s[i], s[j])
  }

  lemma SortedExtends(le: Order, s: seq<Record>, x: Record)
    requires Sorted(le, s) && forall y :: y in s ==> le(y, x)
    ensures Sorted(le, s + [x])
  {
  }

  lemma {:induction false} InsertSorts(le: Order, s: seq<Record>, x: Record, dom: set<Record>)
    requires OrderOn(le, dom) && Within(s, dom) && x in dom && Sorted(le, s)
    ensures Sorted(le, Insert(le, s, x))
  {
    if s == [] || le(s[|s| - 1], x) {
      assert forall y :: y in s ==> y == s[|s| - 1] || le(y, s[|s| - 1]);
      assert forall y :: y in s ==> le(y, x);
      SortedExtends(le, s, x);
    } else {
      var n := |s| - 1;
      InsertSorts(le, s[..n], x, dom);
      InsertMembers(le, s[..n], x);
      SortedExtends(le, Insert(le, s[..n], x), s[n]);
    }
  }

  lemma {:induction false} SortSorts(le: Order, s: seq<Record>, dom: set<Record>)
    requires OrderOn(le, dom) && Within(s, dom)
    ensures Sorted(le, Sort(le, s))
  {
    if s != [] {
      SortSorts(le, s[..|s| - 1], dom);
      SortMembers(le, s[..|s| - 1]);
      InsertSorts(le, Sort(le, s[..|s| - 1]), s[|s| - 1], dom);
    }
  }

  /** The records tied with `x`, in order. */
  function TiedWith(le: Order, s: seq<Record>, x: Record): seq<Record> {
    if s == [] then []
    else TiedWith(le, s[..|s| - 1], x) + (if Tied(le, s[|s| - 1], x) then [s[|s| - 1]] else [])
  }

  lemma TiedAppend(le: Order, s: seq<Record>, y: Record, x: Record)
    ensures TiedWith(le, s + [y], x) == TiedWith(le, s, x) + (if Tied(le, y, x) then [y] else [])
  {
    assert (s + [y])[..|s|] == s;
  }

  lemma {:induction false} InsertIsStable(le: Order, s: seq<Record>, y: Record, x: Record, dom: set<Record>)
    requires OrderOn(le, dom) && Within(s, dom) && y in dom && x in dom
    ensures TiedWith(le, Insert(le, s, y), x) == TiedWith(le, s, x) + (if Tied(le, y, x) then [y] else [])
  {
    if s == [] || le(s[|s| - 1], y) {
      TiedAppend(le, s, y, x);
    } else {
      var rest, last := s[..|s| - 1], s[|s| - 1];
      assert s == rest + [last];
      InsertIsStable(le, rest, y, x, dom);
      TiedAppend(le, Insert(le, rest, y), last, x);
      TiedAppend(le, rest, last, x);
      NotBothTied(le, last, y, x, dom);
    }
  }

  lemma NotBothTied(le: Order, last: Record, y: Record, x: Record, dom: set<Record>)
    requires OrderOn(le, dom) && last in dom && y in dom && x in dom && !le(last, y)
    ensures !Tied(le, last, x) || !Tied(le, y, x)
  {
  }

  /** Records the comparator cannot tell apart keep their input order. */
  lemma {:induction false} SortIsStable(le: Order, s: seq<Record>, x: Record, dom: set<Record>)
    requires OrderOn(le, dom) && Within(s, dom) && x in dom
    ensures TiedWith(le, Sort(le, s), x) == TiedWith(le, s, x)
  {
    if s != [] {
      SortIsStable(le, s[..|s| - 1], x, dom);
      SortMembers(le, s[..|s| - 1]);
      InsertIsStable(le, Sort(le, s[..|s| - 1]), s[|s| - 1], x, dom);
    }
  }

  /** Each record occurs once and no two tie. */
  predicate NoTies(le: Order, m: multiset<Record>) {
    && (forall x :: x in m ==> m[x] == 1)
    && (forall x, y :: x in m && y in m && x != y ==> !Tied(le, x, y))
  }

  lemma FirstIsLeast(le: Order, a: seq<Record>, b: seq<Record>, dom: set<Record>)
    requires OrderOn(le, dom) && Within(a, dom) && Sorted(le, a) && Sorted(le, b) && multiset(a) == multiset(b) &&
      a != []
    requires NoTies(le, multiset(a))
    ensures b != [] && a[0] == b[0]
  {
    assert a[0] in multiset(b);
    assert b[0] in multiset(a);
    assert le(a[0], b[0]) && le(b[0], a[0]);
  }

  lemma Tail(a: seq<Record>)
    requires a != []
    ensures multiset(a[1..]) == multiset(a) - multiset{a[0]}
  {
    assert a == [a[0]] + a[1..];
  }

  /** Without ties there is one sorted arrangement. */
  lemma {:induction false} SortedIsUnique(le: Order, a: seq<Record>, b: seq<Record>, dom: set<Record>)
    requires OrderOn(le, dom) && Within(a, dom) && Sorted(le, a) && Sorted(le, b) && multiset(a) == multiset(b)
    requires NoTies(le, multiset(a))
    ensures a == b
    decreases |a|
  {
    assert |a| == |multiset(a)| == |multiset(b)| == |b|;
    if a != [] {
      FirstIsLeast(le, a, b, dom);
      Tail(a);
      Tail(b);
      SortedIsUnique(le, a[1..], b[1..], dom);
    }
  }

  // ----- The runtime's sort -----

  type Arrange = seq<Record> -> seq<Record>

  /** The records tied with each record keep their order. */
  ghost predicate KeepsTies(le: Order, s: seq<Record>, r: seq<Record>) {
    forall x :: x in s ==> TiedWith(le, r, x) == TiedWith(le, s, x)
  }

  /**
   * What the language promises of sorting with a comparator: always a permutation,
   * and where the comparator is an order, a sorted and stable one.
   */
  ghost predicate SortsBy(arrange: Arrange, le: Order) {
    forall s ::
      && multiset(arrange(s)) == multiset(s)
      && (OrderOn(le, Members(s)) ==> Sorted(le, arrange(s)) && KeepsTies(le, s, arrange(s)))
  }

  /** The insertion sort above is such a sort. */
  lemma SortKeepsPromise(le: Order)
    ensures SortsBy(s => Sort(le, s), le)
  {
    forall s
      ensures multiset(Sort(le, s)) == multiset(s)
      ensures OrderOn(le, Members(s)) ==> Sorted(le, Sort(le, s)) && KeepsTies(le, s, Sort(le, s))
    {
      SortPermutes(le, s);
      if OrderOn(le, Members(s)) {
        SortSorts(le, s, Members(s));
        forall x | x in s ensures TiedWith(le, Sort(le, s), x) == TiedWith(le, s, x) {
          SortIsStable(le, s, x, Members(s));
        }
      }
    }
  }

  // ----- The greedy choice -----

  function Size(r: Record): nat { if r.sizeBytes.Some? then Max(0, r.sizeBytes.value) else 0 }

  function Bytes(s: seq<Record>): nat {
    if s == [] then 0 else Bytes(s[..|s| - 1]) + Size(s[|s| - 1])
  }

  /** Whether `r` can still be taken after `taken`. */
  predicate Fits(taken: seq<Record>, r: Record, maxCids: int, maxBytes: int) {
    |taken| < maxCids && (Size(r) == 0 || Bytes(taken) + Size(r) <= maxBytes)
  }

  /** What is taken from `s`, each record judged after those before it. */
  function Taken(s: seq<Record>, maxCids: int, maxBytes: int): seq<Record> {
    if s == [] then []
    else
      var t := Taken(s[..|s| - 1], maxCids, maxBytes);
      if Fits(t, s[|s| - 1], maxCids, maxBytes) then t + [s[|s| - 1]] else t
  }

  function Eligible(s: seq<Record>, filters: seq<string>): seq<Record> {
    if s == [] then []
    else Eligible(s[..|s| - 1], filters) + (if ClassFilterAllows(s[|s| - 1], filters) then [s[|s| - 1]] else [])
  }

  function Plan(arrange: Arrange, records: seq<Record>, maxCids: int, maxBytes: int,
    filters: seq<string>): seq<Record> {
    Taken(arrange(Eligible(records, filters)), maxCids, maxBytes)
  }

  lemma {:induction false} TakenFits(s: seq<Record>, maxCids: int, maxBytes: int)
    ensures |Taken(s, maxCids, maxBytes)| <= Max(0, maxCids)
    ensures Bytes(Taken(s, maxCids, maxBytes)) <= Max(0, maxBytes)
  {
    if s != [] {
      var t := Taken(s[..|s| - 1], maxCids, maxBytes);
      TakenFits(s[..|s| - 1], maxCids, maxBytes);
      assert (t + [s[|s| - 1]])[..|t|] == t;
    }
  }

  /** Both budgets hold, also when they are negative, however the records are arranged. */
  lemma PlanWithinBudgets(arrange: Arrange, records: seq<Record>, maxCids: int, maxBytes: int, filters: seq<string>)
    ensures |Plan(arrange, records, maxCids, maxBytes, filters)| <= Max(0, maxCids)
    ensures Bytes(Plan(arrange, records, maxCids, maxBytes, filters)) <= Max(0, maxBytes)
  {
    TakenFits(arrange(Eligible(records, filters)), maxCids, maxBytes);
  }

  lemma {:induction false} TakenGrows(s: seq<Record>, k: nat, maxCids: int, maxBytes: int)
    requires k <= |s|
    ensures Taken(s[..k], maxCids, maxBytes) <= Taken(s, maxCids, maxBytes)
    ensures Bytes(Taken(s[..k], maxCids, maxBytes)) <= Bytes(Taken(s, maxCids, maxBytes))
    decreases |s|
  {
    if k == |s| {
      assert s[..k] == s;
    } else {
      var n := |s| - 1;
      assert s[..n][..k] == s[..k];
      TakenGrows(s[..n], k, maxCids, maxBytes);
      var t := Taken(s[..n], maxCids, maxBytes);
      assert (t + [s[n]])[..|t|] == t;
    }
  }

  /**
   * Position `i` of the priority order is taken exactly when the record fits after
   * what higher priorities took; if it is not, it would overflow the finished plan
   * too, unless the count is full.
   */
  lemma GreedyAt(s: seq<Record>, i: nat, maxCids: int, maxBytes: int)
    requires i < |s|
    ensures
      var before, plan := Taken(s[..i], maxCids, maxBytes), Taken(s, maxCids, maxBytes);
      if Fits(before, s[i], maxCids, maxBytes) then before + [s[i]] <= plan
      else Taken(s[..i + 1], maxCids, maxBytes) == before && (|plan| >= maxCids || Bytes(plan) + Size(s[i]) > maxBytes)
  {
    assert s[..i + 1][..i] == s[..i];
    TakenGrows(s, i, maxCids, maxBytes);
    TakenGrows(s, i + 1, maxCids, maxBytes);
  }

  lemma TakenIfFits(s: seq<Record>, i: nat, maxCids: int, maxBytes: int)
    requires i < |s| && Fits(Taken(s[..i], maxCids, maxBytes), s[i], maxCids, maxBytes)
    ensures s[i] in Taken(s, maxCids, maxBytes)
  {
    GreedyAt(s, i, maxCids, maxBytes);
    var before := Taken(s[..i], maxCids, maxBytes);
    assert Taken(s, maxCids, maxBytes)[|before|] == (before + [s[i]])[|before|];
  }

  lemma {:induction false} EligibleIff(s: seq<Record>, filters: seq<string>, r: Record)
    ensures r in Eligible(s, filters) <==> r in s && ClassFilterAllows(r, filters)
  {
    if s != [] {
      EligibleIff(s[..|s| - 1], filters, r);
      assert s == s[..|s| - 1] + [s[|s| - 1]];
    }
  }

  /** An eligible record the plan leaves out would overflow the bytes, unless the count is full. */
  lemma PlanIsMaximal(rank: Collation, arrange: Arrange, records: seq<Record>, maxCids: int, maxBytes: int,
    filters: seq<string>, r: Record)
    requires SortsBy(arrange, Priority(rank)) && r in records && ClassFilterAllows(r, filters)
    requires r !in Plan(arrange, records, maxCids, maxBytes, filters)
    ensures
      var plan := Plan(arrange, records, maxCids, maxBytes, filters);
      |plan| >= maxCids || (Size(r) > 0 && Bytes(plan) + Size(r) > maxBytes)
  {
    EligibleIff(records, filters, r);
    var s := arrange(Eligible(records, filters));
    assert r in multiset(s);
    var i :| 0 <= i < |s| && s[i] == r;
    if Fits(Taken(s[..i], maxCids, maxBytes), r, maxCids, maxBytes) { TakenIfFits(s, i, maxCids, maxBytes); }
    GreedyAt(s, i, maxCids, maxBytes);
    TakenGrows(s, i, maxCids, maxBytes);
  }

  lemma {:induction false} TakenIsSubset(s: seq<Record>, maxCids: int, maxBytes: int)
    ensures multiset(Taken(s, maxCids, maxBytes)) <= multiset(s)
  {
    if s != [] {
      TakenIsSubset(s[..|s| - 1], maxCids, maxBytes);
      assert s == s[..|s| - 1] + [s[|s| - 1]];
    }
  }

  lemma {:induction false} TakenSorted(le: Order, s: seq<Record>, maxCids: int, maxBytes: int)
    requires Sorted(le, s)
    ensures Sorted(le, Taken(s, maxCids, maxBytes))
  {
    if s != [] {
      var n := |s| - 1;
      TakenSorted(le, s[..n], maxCids, maxBytes);
      TakenIsSubset(s[..n], maxCids, maxBytes);
      forall y | y in Taken(s[..n], maxCids, maxBytes) ensures le(y, s[n]) {
        assert y in multiset(s[..n]);
      }
    }
  }

  predicate AllPlain(s: seq<Record>) { forall r :: r in s ==> Plain(r) }

  lemma ArrangedSorted(rank: Collation, arrange: Arrange, s: seq<Record>)
    requires SortsBy(arrange, Priority(rank)) && AllPlain(s)
    ensures OrderOn(Priority(rank), Members(s)) && Sorted(Priority(rank), arrange(s))
  {
    PriorityIsOrder(rank, Members(s));
  }

  /**
   * The plan holds only eligible records of the list, none more often than the list
   * does, and if the eligible records are plain, in priority order.
   */
  lemma PlanIsChosenInOrder(rank: Collation, arrange: Arrange, records: seq<Record>, maxCids: int, maxBytes: int,
    filters: seq<string>)
    requires SortsBy(arrange, Priority(rank))
    ensures
      var plan := Plan(arrange, records, maxCids, maxBytes, filters);
      && multiset(plan) <= multiset(Eligible(records, filters))
      && (forall r :: r in plan ==> r in records && ClassFilterAllows(r, filters))
      && (AllPlain(Eligible(records, filters)) ==> Sorted(Priority(rank), plan))
  {
    var e := Eligible(records, filters);
    var plan := Plan(arrange, records, maxCids, maxBytes, filters);
    TakenIsSubset(arrange(e), maxCids, maxBytes);
    assert multiset(arrange(e)) == multiset(e);
    forall r | r in plan ensures r in records && ClassFilterAllows(r, filters) {
      assert r in multiset(plan);
      assert r in multiset(e);
      EligibleIff(records, filters, r);
    }
    if AllPlain(e) {
      ArrangedSorted(rank, arrange, e);
      TakenSorted(Priority(rank), arrange(e), maxCids, maxBytes);
    }
  }

  lemma {:induction false} EligibleCount(s: seq<Record>, filters: seq<string>, r: Record)
    ensures multiset(Eligible(s, filters))[r] == if ClassFilterAllows(r, filters) then multiset(s)[r] else 0
  {
    if s != [] {
      EligibleCount(s[..|s| - 1], filters, r);
      assert s == s[..|s| - 1] + [s[|s| - 1]];
    }
  }

  /** The plan does not depend on the order of the list when the eligible records are plain and no two tie. */
  lemma PlanIgnoresInputOrder(rank: Collation, arrange: Arrange, a: seq<Record>, b: seq<Record>,
    maxCids: int, maxBytes: int, filters: seq<string>)
    requires SortsBy(arrange, Priority(rank)) && multiset(a) == multiset(b)
    requires AllPlain(Eligible(a, filters)) && NoTies(Priority(rank), multiset(Eligible(a, filters)))
    ensures Plan(arrange, a, maxCids, maxBytes, filters) == Plan(arrange, b, maxCids, maxBytes, filters)
  {
    var ea, eb := Eligible(a, filters), Eligible(b, filters);
    forall r ensures multiset(ea)[r] == multiset(eb)[r] {
      EligibleCount(a, filters, r);
      EligibleCount(b, filters, r);
    }
    assert AllPlain(eb) by { assert forall r :: r in eb ==> r in multiset(eb) && r in ea; }
    ArrangedSorted(rank, arrange, ea);
    ArrangedSorted(rank, arrange, eb);
    assert Within(arrange(ea), Members(ea)) by { assert forall y :: y in arrange(ea) ==> y in multiset(arrange(ea)); }
    SortedIsUnique(Priority(rank), arrange(ea), arrange(eb), Members(ea));
  }

  lemma {:induction false} FullStaysFull(s: seq<Record>, k: nat, maxCids: int, maxBytes: int)
    requires k <= |s| && |Taken(s[..k], maxCids, maxBytes)| >= maxCids
    ensures Taken(s, maxCids, maxBytes) == Taken(s[..k], maxCids, maxBytes)
    decreases |s|
  {
    if k == |s| {
      assert s[..k] == s;
    } else {
      assert s[..|s| - 1][..k] == s[..k];
      FullStaysFull(s[..|s| - 1], k, maxCids, maxBytes);
    }
  }

  /** The loop, which stops at the first record it meets once the count is full. */
  method TakeGreedily(sorted: seq<Record>, maxCids: int, maxBytes: int) returns (selected: seq<Record>)
    ensures selected == Taken(sorted, maxCids, maxBytes)
  {
    selected := [];
    var plannedBytes := 0;
    for i := 0 to |sorted|
      invariant selected == Taken(sorted[..i], maxCids, maxBytes)
      invariant plannedBytes == Bytes(selected)
    {
      if |selected| >= maxCids {
        FullStaysFull(sorted, i, maxCids, maxBytes);
        return;
      }
      assert sorted[..i + 1][..i] == sorted[..i];
      var size := Size(sorted[i]);
      if size > 0 && plannedBytes + size > maxBytes { continue; }
      assert (selected + [sorted[i]])[..|selected|] == selected;
      selected := selected + [sorted[i]];
      plannedBytes := plannedBytes + size;
    }
    assert sorted[..|sorted|] == sorted;
  }

  method PlanPublicPins(arrange: Arrange, records: seq<Record>, maxCids: int, maxBytes: int, filters: seq<string>)
    returns (selected: seq<Record>)
    ensures selected == Plan(arrange, records, maxCids, maxBytes, filters)
  {
    selected := TakeGreedily(arrange(Eligible(records, filters)), maxCids, maxBytes);
  }
}
