/**
 What the LRU cache keeps over every run: the order is by last use and the victim is the least
 recently used entry; a hit is what an unbounded map would answer; every entry that comes in is
 accounted for when it leaves.
 */
module LruHistory {
  import opened Basics
  import opened LruModel
  import opened LruInclusion

  /** A run together with what an observer writes down: the tick of the last use of each key, an
      unbounded map under the same operations, and totals. */
  datatype Trace<K, V> = Trace(
    cache: Cache<K, V>,
    tick: nat,
    used: map<K, nat>,
    all: map<K, Entry<K, V>>,
    inserted: seq<K>,
    reported: seq<Report<K, V>>,
    gets: nat,
    hits: nat)

  function Begin<K, V>(capacity: int, ttl: int): Trace<K, V> {
    Trace(Empty(capacity, ttl), 0, map[], map[], [], [], 0, 0)
  }

  /** The unbounded map: it forgets only what is removed or found expired. */
  function StepAll<K(==), V>(ttl: int, all: map<K, Entry<K, V>>, op: Op<K, V>): map<K, Entry<K, V>> {
    match op
    case Get(key, now) => if key in all && ExpiredAt(ttl, all[key], now) then all - {key} else all
    case Peek(_, _) => all
    case Set(key, value, now, _) => all[key := Entry(key, value, if ttl > 0 then now + ttl else 0)]
    case Remove(key) => all - {key}
    case Purge => map[]
    case DeleteExpired(now) => map k | k in all && !ExpiredAt(ttl, all[k], now) :: all[k]
  }

  /** A Set uses its key, and so does a Get that comes before the entry expires. */
  predicate Uses<K(==), V>(c: Cache<K, V>, op: Op<K, V>) {
    op.Set? || (op.Get? && IsLive(c, op.key, op.now))
  }

  predicate IsLive<K(==), V>(c: Cache<K, V>, key: K, now: int) {
    var i := Find(c.entries, key);
    i < |c.entries| && (c.ttl <= 0 || now < c.entries[i].expiresAt)
  }

  function StepTrace<K(==), V>(t: Trace<K, V>, op: Op<K, V>): Trace<K, V> {
    var o := Step(t.cache, op);
    Trace(
      o.cache,
      t.tick + 1,
      if Uses(t.cache, op) then t.used[op.key := t.tick] else t.used,
      StepAll(t.cache.ttl, t.all, op),
      if op.Set? && op.key !in Keys(t.cache.entries) then t.inserted + [op.key] else t.inserted,
      t.reported + o.reports,
      t.gets + (if op.Get? then 1 else 0),
      t.hits + if op.Get? && o.found.Some? then 1 else 0)
  }

  function RunTrace<K(==), V>(t: Trace<K, V>, ops: seq<Op<K, V>>): Trace<K, V> {
    if ops == [] then t else StepTrace(RunTrace(t, ops[..|ops| - 1]), ops[|ops| - 1])
  }

  lemma {:induction false} TraceIsRun<K, V>(t: Trace<K, V>, ops: seq<Op<K, V>>)
    ensures RunTrace(t, ops).cache == Run(t.cache, ops)
  {
    if ops != [] {
      TraceIsRun(t, ops[..|ops| - 1]);
    }
  }

  // ---------- recency ----------

  /** Sorted by last use, the most recently used entry first. */
  ghost predicate ByLastUse<K, V>(es: seq<Entry<K, V>>, used: map<K, nat>) {
    && (forall i :: 0 <= i < |es| ==> es[i].key in used)
    && (forall i, j :: 0 <= i < j < |es| ==> used[es[i].key] > used[es[j].key])
  }

  ghost predicate Before<K>(used: map<K, nat>, tick: nat) {
    forall k :: k in used ==> used[k] < tick
  }

  lemma {:induction false} ProjectByLastUse<K, V>(es: seq<Entry<K, V>>, ks: set<K>, used: map<K, nat>)
    requires ByLastUse(es, used)
    ensures ByLastUse(Project(es, ks), used)
  {
    if es != [] {
      ProjectByLastUse(es[1..], ks, used);
      var p := Project(es[1..], ks);
      forall e | e in p ensures used[es[0].key] > used[e.key] {
        ProjectMember(es[1..], ks, e);
        var m :| 0 <= m < |es[1..]| && es[1..][m] == e;
        assert es[m + 1] == e;
      }
      PrependByLastUse(es[0], p, used);
    }
  }

  lemma PrependByLastUse<K, V>(e: Entry<K, V>, p: seq<Entry<K, V>>, used: map<K, nat>)
    requires ByLastUse(p, used) && e.key in used && forall x :: x in p ==> used[e.key] > used[x.key]
    ensures ByLastUse([e] + p, used)
  {
    assert forall j :: 0 <= j < |p| ==> p[j] in p;
  }

  lemma FrontByLastUse<K, V>(e: Entry<K, V>, rest: seq<Entry<K, V>>, used: map<K, nat>, tick: nat)
    requires ByLastUse(rest, used) && Before(used, tick) && e.key !in Keys(rest)
    ensures ByLastUse([e] + rest, used[e.key := tick])
  {
    var es := [e] + rest;
    var used' := used[e.key := tick];
    forall i | 0 <= i < |es| ensures es[i].key in used' && (i > 0 ==> used'[es[i].key] == used[es[i].key] < tick) {
      if i > 0 {
        assert es[i] == rest[i - 1] && rest[i - 1].key in Keys(rest);
      }
    }
    forall i, j | 0 <= i < j < |es| ensures used'[es[i].key] > used'[es[j].key] {
      assert es[j] == rest[j - 1];
      if i > 0 {
        assert es[i] == rest[i - 1];
      }
    }
  }

  ghost predicate Recency<K, V>(t: Trace<K, V>) {
    ByLastUse(t.cache.entries, t.used) && Before(t.used, t.tick)
  }

  lemma RecencySet<K, V>(t: Trace<K, V>, key: K, value: V, now: int, later: int)
    requires Valid(t.cache) && Recency(t)
    ensures Recency(StepTrace(t, Set(key, value, now, later)))
  {
    hide Project, StepAll, Distinct, ByLastUse, Keys;
    var es := t.cache.entries;
    var e := Entry(key, value, if t.cache.ttl > 0 then now + t.cache.ttl else 0);
    if key in Keys(es) {
      DropOne(es, key);
      ProjectByLastUse(es, Keys(es) - {key}, t.used);
      FrontByLastUse(e, Drop(es, key), t.used, t.tick);
    } else {
      FrontByLastUse(e, es, t.used, t.tick);
      InitByLastUse([e] + es, t.used[key := t.tick]);
    }
  }

  lemma InitByLastUse<K, V>(es: seq<Entry<K, V>>, used: map<K, nat>)
    requires ByLastUse(es, used) && es != []
    ensures ByLastUse(es[..|es| - 1], used)
  {
  }

  lemma RecencyGet<K, V>(t: Trace<K, V>, key: K, now: int)
    requires Valid(t.cache) && Recency(t)
    ensures Recency(StepTrace(t, Get(key, now)))
  {
    hide Project, StepAll, Distinct;
    var es := t.cache.entries;
    DropOne(es, key);
    ProjectByLastUse(es, Keys(es) - {key}, t.used);
    var i := Find(es, key);
    if i < |es| {
      FrontByLastUse(es[i], Drop(es, key), t.used, t.tick);
    }
  }

  lemma RecencyStep<K, V>(t: Trace<K, V>, op: Op<K, V>)
    requires Valid(t.cache) && Recency(t)
    ensures Recency(StepTrace(t, op))
  {
    hide Project, StepAll, Distinct;
    var es := t.cache.entries;
    match op {
      case Get(key, now) => RecencyGet(t, key, now);
      case Peek(_, _) =>
      case Set(key, value, now, later) => RecencySet(t, key, value, now, later);
      case Remove(key) => ProjectByLastUse(es, Keys(es) - {key}, t.used);
      case Purge =>
      case DeleteExpired(now) => ProjectByLastUse(es, LiveKeys(t.cache.ttl, es, now), t.used);
    }
  }

  // ---------- hits ----------

  /** The cache holds a part of the unbounded map. */
  ghost predicate PartOf<K, V>(es: seq<Entry<K, V>>, all: map<K, Entry<K, V>>) {
    forall e :: e in es ==> e.key in all && all[e.key] == e
  }

  lemma PartOfProject<K, V>(es: seq<Entry<K, V>>, ks: set<K>, all: map<K, Entry<K, V>>, all': map<K, Entry<K, V>>)
    requires PartOf(es, all)
    requires forall e :: e in es && e.key in ks ==> e.key in all' && all'[e.key] == e
    ensures PartOf(Project(es, ks), all')
  {
    forall e | e in Project(es, ks) ensures e.key in all' && all'[e.key] == e {
      ProjectMember(es, ks, e);
    }
  }

  lemma KeyOfMember<K, V>(es: seq<Entry<K, V>>)
    ensures forall e :: e in es ==> e.key in Keys(es)
  {
  }

  lemma PartStep<K, V>(c: Cache<K, V>, all: map<K, Entry<K, V>>, op: Op<K, V>)
    requires Valid(c) && PartOf(c.entries, all)
    ensures PartOf(Step(c, op).cache.entries, StepAll(c.ttl, all, op))
  {
    hide Project;
    var es := c.entries;
    var all' := StepAll(c.ttl, all, op);
    KeyOfMember(es);
    match op {
      case Get(key, now) =>
        PartOfProject(es, Keys(es) - {key}, all, all');
        var i := Find(es, key);
        assert i < |es| ==> es[i] in es;
      case Peek(_, _) =>
      case Set(key, value, now, _) =>
        PartOfProject(es, Keys(es) - {key}, all, all');
        if key !in Keys(es) {
          assert PartOf([all'[key]] + es, all');
        }
      case Remove(key) => PartOfProject(es, Keys(es) - {key}, all, all');
      case Purge =>
      case DeleteExpired(now) =>
        var live := LiveKeys(c.ttl, es, now);
        forall e | e in es && e.key in live ensures e.key in all' && all'[e.key] == e {
          LiveMember(c.ttl, es, now, e);
        }
        PartOfProject(es, live, all, all');
    }
  }

  // ---------- accounting ----------

  function Count<K(==)>(ks: seq<K>, key: K): nat {
    if ks == [] then 0 else Count(ks[..|ks| - 1], key) + if ks[|ks| - 1] == key then 1 else 0
  }

  function CountKey<K(==), V>(rs: seq<Report<K, V>>, key: K): nat {
    if rs == [] then 0 else CountKey(rs[..|rs| - 1], key) + if rs[|rs| - 1].key == key then 1 else 0
  }

  function CountReason<K, V>(rs: seq<Report<K, V>>, reason: Reason): nat {
    if rs == [] then 0 else CountReason(rs[..|rs| - 1], reason) + if rs[|rs| - 1].reason == reason then 1 else 0
  }

  lemma {:induction false} CountsAdd<K, V>(a: seq<Report<K, V>>, b: seq<Report<K, V>>, key: K, reason: Reason)
    ensures CountKey(a + b, key) == CountKey(a, key) + CountKey(b, key)
    ensures CountReason(a + b, reason) == CountReason(a, reason) + CountReason(b, reason)
  {
    if b == [] {
      assert a + b == a;
    } else {
      var init := b[..|b| - 1];
      CountsAdd(a, init, key, reason);
      assert (a + b)[..|a + b| - 1] == a + init && (a + b)[|a + b| - 1] == b[|b| - 1];
    }
  }

  lemma CountLast<K>(ks: seq<K>, last: K, key: K)
    ensures Count(ks + [last], key) == Count(ks, key) + if last == key then 1 else 0
  {
    assert (ks + [last])[..|ks|] == ks;
  }

  lemma CountFew<K, V>(rs: seq<Report<K, V>>, key: K, reason: Reason)
    requires |rs| <= 1
    ensures CountKey(rs, key) == if rs != [] && rs[0].key == key then 1 else 0
    ensures CountReason(rs, reason) == if rs != [] && rs[0].reason == reason then 1 else 0
  {
    if rs != [] {
      assert rs[..0] == [];
    }
  }

  lemma {:induction false} CountAll<K, V>(es: seq<Entry<K, V>>, why: Reason, key: K, reason: Reason)
    requires Distinct(es)
    ensures CountKey(ReportsOf(es, why), key) == if key in Keys(es) then 1 else 0
    ensures CountReason(ReportsOf(es, why), reason) == if why == reason then |es| else 0
    ensures |ReportsOf(es, why)| == |es|
  {
    if es != [] {
      var rest := es[1..];
      var r := [Report(es[0].key, es[0].value, why)];
      CountAll(rest, why, key, reason);
      CountsAdd(ReportsOf(rest, why), r, key, reason);
      CountFew(r, key, reason);
      assert es == [es[0]] + rest;
      KeysOf([es[0]], rest);
      assert [es[0]][0].key in Keys([es[0]]);
      assert es[0].key !in Keys(rest);
    }
  }

  /** What came in under this key is still there or was reported when it left. */
  ghost predicate BalancedKey<K, V>(t: Trace<K, V>, key: K) {
    Count(t.inserted, key) == (if key in Keys(t.cache.entries) then 1 else 0) + CountKey(t.reported, key)
  }

  ghost predicate BalancedTotals<K, V>(t: Trace<K, V>) {
    && |t.inserted| == |t.cache.entries| + |t.reported|
    && CountReason(t.reported, Capacity) == t.cache.stats.evictions
    && CountReason(t.reported, Expired) == t.cache.stats.expirations
    && t.cache.stats.hits + t.cache.stats.misses == t.gets
    && t.cache.stats.hits == t.hits
  }

  predicate Inserts<K(==), V>(c: Cache<K, V>, op: Op<K, V>) {
    op.Set? && op.key !in Keys(c.entries)
  }

  /** What one operation does to the books. */
  ghost predicate StepBalances<K, V>(c: Cache<K, V>, op: Op<K, V>, key: K) {
    var o := Step(c, op);
    && (if Inserts(c, op) && op.key == key then 1 else 0) + (if key in Keys(c.entries) then 1 else 0)
       == (if key in Keys(o.cache.entries) then 1 else 0) + CountKey(o.reports, key)
    && (if Inserts(c, op) then 1 else 0) + |c.entries| == |o.cache.entries| + |o.reports|
    && o.cache.stats.evictions == c.stats.evictions + CountReason(o.reports, Capacity)
    && o.cache.stats.expirations == c.stats.expirations + CountReason(o.reports, Expired)
    && o.cache.stats.hits + o.cache.stats.misses == c.stats.hits + c.stats.misses + (if op.Get? then 1 else 0)
    && o.cache.stats.hits == c.stats.hits + if op.Get? && o.found.Some? then 1 else 0
  }

  lemma BalancedAfter<K, V>(t: Trace<K, V>, op: Op<K, V>, key: K)
    requires BalancedKey(t, key) && BalancedTotals(t) && StepBalances(t.cache, op, key)
    ensures BalancedKey(StepTrace(t, op), key) && BalancedTotals(StepTrace(t, op))
  {
    hide Step, Count, CountKey, CountReason, Keys;
    var o := Step(t.cache, op);
    CountsAdd(t.reported, o.reports, key, Capacity);
    CountsAdd(t.reported, o.reports, key, Expired);
    if Inserts(t.cache, op) {
      CountLast(t.inserted, op.key, key);
    }
  }

  lemma InsertBalances<K, V>(c: Cache<K, V>, e: Entry<K, V>, later: int, key: K)
    requires Valid(c) && e.key !in Keys(c.entries)
    ensures
      var o := Insert(c, e, later);
      && (if e.key == key then 1 else 0) + (if key in Keys(c.entries) then 1 else 0)
         == (if key in Keys(o.cache.entries) then 1 else 0) + CountKey(o.reports, key)
      && o.cache.stats.evictions == c.stats.evictions + CountReason(o.reports, Capacity)
      && o.cache.stats.expirations == c.stats.expirations + CountReason(o.reports, Expired)
  {
    hide CountKey, CountReason, Distinct, Keys;
    var es := [e] + c.entries;
    var o := Insert(c, e, later);
    CountFew(o.reports, key, Capacity);
    CountFew(o.reports, key, Expired);
    FrontIsDistinct(e, c.entries);
    KeysOf([e], c.entries);
    OneKey(e);
    if |es| > c.capacity {
      InitIsDrop(es);
      DropOne(es, es[|es| - 1].key);
      LastKey(es);
    }
  }

  lemma OneKey<K, V>(e: Entry<K, V>)
    ensures Keys([e]) == {e.key}
  {
    assert [e][0].key in Keys([e]);
  }

  lemma LastKey<K, V>(es: seq<Entry<K, V>>)
    requires es != []
    ensures es[|es| - 1].key in Keys(es)
  {
  }

  lemma StepBalancesBooks<K, V>(c: Cache<K, V>, op: Op<K, V>, key: K)
    requires Valid(c)
    ensures StepBalances(c, op, key)
  {
    hide CountKey, CountReason, Distinct, Project, Keys;
    var es := c.entries;
    var o := Step(c, op);
    match op {
      case Get(k, now) =>
        CountFew(o.reports, key, Capacity);
        CountFew(o.reports, key, Expired);
        FrontBalances(es, k);
      case Peek(_, _) =>
        CountFew(o.reports, key, Capacity);
        CountFew(o.reports, key, Expired);
      case Set(k, value, now, later) =>
        var e := Entry(k, value, if c.ttl > 0 then now + c.ttl else 0);
        if k in Keys(es) {
          CountFew(o.reports, key, Capacity);
          CountFew(o.reports, key, Expired);
          FrontBalances(es, k);
          KeysOf([e], Drop(es, k));
          OneKey(e);
        } else {
          InsertBalances(c, e, later, key);
        }
      case Remove(k) =>
        CountFew(o.reports, key, Capacity);
        CountFew(o.reports, key, Expired);
        DropOne(es, k);
      case Purge =>
        CountAll(es, Removed, key, Capacity);
        CountAll(es, Removed, key, Expired);
        NoKeys<K, V>();
      case DeleteExpired(now) => BulkBalances(c, now, key);
    }
  }

  lemma NoKeys<K, V>()
    ensures Keys<K, V>([]) == {}
  {
  }

  lemma FrontBalances<K, V>(es: seq<Entry<K, V>>, k: K)
    requires Distinct(es)
    ensures Keys(Drop(es, k)) == Keys(es) - {k}
    ensures |Drop(es, k)| == |es| - if k in Keys(es) then 1 else 0
    ensures k in Keys(es) ==> Keys(ToFront(es, es[Find(es, k)])) == Keys(es)
  {
    DropOne(es, k);
    var i := Find(es, k);
    if i < |es| {
      KeysOf([es[i]], Drop(es, k));
      OneKey(es[i]);
    }
  }

  lemma BulkBalances<K, V>(c: Cache<K, V>, now: int, key: K)
    requires Valid(c)
    ensures StepBalances(c, DeleteExpired(now), key)
  {
    hide CountKey, CountReason, Project, Keys;
    var es := c.entries;
    var live := LiveKeys(c.ttl, es, now);
    var gone := Project(es, Keys(es) - live);
    ProjectDistinct(es, Keys(es) - live);
    ProjectKeys(es, live);
    ProjectKeys(es, Keys(es) - live);
    ProjectSize(es, live);
    CountAll(gone, Expired, key, Capacity);
    CountAll(gone, Expired, key, Expired);
  }

  // ---------- every run ----------

  ghost predicate Kept<K, V>(t: Trace<K, V>) {
    && Valid(t.cache)
    && Recency(t)
    && PartOf(t.cache.entries, t.all)
  }

  lemma StepKeeps<K, V>(t: Trace<K, V>, op: Op<K, V>)
    requires Kept(t)
    ensures Kept(StepTrace(t, op))
  {
    hide Step, StepAll, Recency, PartOf, Valid;
    StepIsValid(t.cache, op);
    RecencyStep(t, op);
    PartStep(t.cache, t.all, op);
  }

  lemma {:induction false} RunKeeps<K, V>(t: Trace<K, V>, ops: seq<Op<K, V>>)
    requires Kept(t)
    ensures Kept(RunTrace(t, ops))
  {
    hide Kept, StepTrace;
    if ops != [] {
      RunKeeps(t, ops[..|ops| - 1]);
      StepKeeps(RunTrace(t, ops[..|ops| - 1]), ops[|ops| - 1]);
    }
  }

  lemma {:induction false} RunBalances<K, V>(t: Trace<K, V>, ops: seq<Op<K, V>>, key: K)
    requires Kept(t) && BalancedKey(t, key) && BalancedTotals(t)
    ensures BalancedKey(RunTrace(t, ops), key) && BalancedTotals(RunTrace(t, ops))
  {
    hide StepTrace, Recency, PartOf, BalancedKey, BalancedTotals, StepBalances, Valid;
    if ops != [] {
      var init, last := ops[..|ops| - 1], ops[|ops| - 1];
      RunBalances(t, init, key);
      RunKeeps(t, init);
      StepBalancesBooks(RunTrace(t, init).cache, last, key);
      BalancedAfter(RunTrace(t, init), last, key);
    }
  }

  lemma {:induction false} ReasonsAddUp<K, V>(rs: seq<Report<K, V>>)
    ensures |rs| == CountReason(rs, Capacity) + CountReason(rs, Expired) + CountReason(rs, Removed)
  {
    if rs != [] {
      ReasonsAddUp(rs[..|rs| - 1]);
    }
  }

  lemma BeginIsKept<K, V>(capacity: int, ttl: int)
    requires capacity > 0
    ensures Kept(Begin<K, V>(capacity, ttl)) && BalancedTotals(Begin<K, V>(capacity, ttl))
    ensures forall key: K {:trigger BalancedKey(Begin<K, V>(capacity, ttl), key)} :: BalancedKey(Begin<K, V>(capacity, ttl), key)
  {
  }

  /** After any operations on a new cache: at most `capacity` entries, no key twice, in the order of
      their last use. */
  lemma OrderIsByLastUse<K, V>(capacity: int, ttl: int, ops: seq<Op<K, V>>)
    requires capacity > 0
    ensures
      var t := RunTrace(Begin<K, V>(capacity, ttl), ops);
      && t.cache == Run(Empty<K, V>(capacity, ttl), ops)
      && |t.cache.entries| <= capacity && Distinct(t.cache.entries)
      && ByLastUse(t.cache.entries, t.used)
  {
    RunIsValid(Empty<K, V>(capacity, ttl), ops);
    BeginIsKept<K, V>(capacity, ttl);
    RunKeeps(Begin<K, V>(capacity, ttl), ops);
    TraceIsRun(Begin<K, V>(capacity, ttl), ops);
  }

  /** Whatever Get or Peek finds after any operations is live in the unbounded map. */
  lemma HitsAreTrue<K, V>(capacity: int, ttl: int, ops: seq<Op<K, V>>, next: Op<K, V>)
    requires capacity > 0 && (next.Get? || next.Peek?)
    ensures
      var t := RunTrace(Begin<K, V>(capacity, ttl), ops);
      var o := Step(t.cache, next);
      o.found.Some? ==>
        next.key in t.all && t.all[next.key].value == o.found.value && !ExpiredAt(ttl, t.all[next.key], next.now)
  {
    BeginIsKept<K, V>(capacity, ttl);
    RunKeeps(Begin<K, V>(capacity, ttl), ops);
    RunIsValid(Empty<K, V>(capacity, ttl), ops);
    TraceIsRun(Begin<K, V>(capacity, ttl), ops);
    var es := RunTrace(Begin<K, V>(capacity, ttl), ops).cache.entries;
    var i := Find(es, next.key);
    assert i < |es| ==> es[i] in es;
  }
}
