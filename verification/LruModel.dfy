/**
 What the LRU cache does, on values: a recency-ordered sequence of entries, the most recently used
 one first. All methods of the cache take its mutex, so a concurrent history is a sequence of
 operations. The clock is read by each operation; a Set reads it twice.
 */
module LruModel {
  import opened Basics

  datatype Entry<K, V> = Entry(key: K, value: V, expiresAt: int)

  datatype Reason = Capacity | Expired | Removed

  datatype Report<K, V> = Report(key: K, value: V, reason: Reason)

  datatype Stats = Stats(hits: nat, misses: nat, evictions: nat, expirations: nat)

  datatype Cache<K, V> = Cache(capacity: int, ttl: int, entries: seq<Entry<K, V>>, stats: Stats)

  // ---------- sequences of entries ----------

  function Keys<K, V>(es: seq<Entry<K, V>>): set<K> {
    set i | 0 <= i < |es| :: es[i].key
  }

  ghost predicate Distinct<K, V>(es: seq<Entry<K, V>>) {
    forall i, j :: 0 <= i < j < |es| ==> es[i].key != es[j].key
  }

  /** The entries with one of the given keys, in the same order. */
  function Project<K(==), V>(es: seq<Entry<K, V>>, ks: set<K>): (r: seq<Entry<K, V>>)
    ensures |r| <= |es|
  {
    if es == [] then []
    else (if es[0].key in ks then [es[0]] else []) + Project(es[1..], ks)
  }

  function Drop<K(==), V>(es: seq<Entry<K, V>>, key: K): seq<Entry<K, V>> {
    Project(es, Keys(es) - {key})
  }

  /** The position of a key; the length if it is absent. */
  function Find<K(==), V>(es: seq<Entry<K, V>>, key: K): (i: nat)
    ensures i <= |es|
    ensures i < |es| ==> es[i].key == key
    ensures forall j :: 0 <= j < i ==> es[j].key != key
    ensures i < |es| <==> key in Keys(es)
  {
    if es == [] then 0
    else if es[0].key == key then 0
    else
      assert forall j :: 0 < j < |es| ==> es[j] == es[1..][j - 1];
      1 + Find(es[1..], key)
  }

  // ---------- operations ----------

  predicate ExpiredAt<K, V>(ttl: int, e: Entry<K, V>, now: int) {
    ttl > 0 && now >= e.expiresAt
  }

  function LiveKeys<K(==), V>(ttl: int, es: seq<Entry<K, V>>, now: int): set<K> {
    set i | 0 <= i < |es| && !ExpiredAt(ttl, es[i], now) :: es[i].key
  }

  datatype Op<K, V> =
    | Get(key: K, now: int)
    | Peek(key: K, now: int)
    | Set(key: K, value: V, now: int, later: int)
    | Remove(key: K)
    | Purge
    | DeleteExpired(now: int)

  /** The cache afterwards, the entries that left it and, for Get and Peek, the value found. */
  datatype Outcome<K, V> = Outcome(cache: Cache<K, V>, reports: seq<Report<K, V>>, found: Option<V>)

  function ReportsOf<K, V>(es: seq<Entry<K, V>>, reason: Reason): seq<Report<K, V>> {
    if es == [] then []
    else ReportsOf(es[1..], reason) + [Report(es[0].key, es[0].value, reason)]
  }

  function ToFront<K(==), V>(es: seq<Entry<K, V>>, e: Entry<K, V>): seq<Entry<K, V>> {
    [e] + Drop(es, e.key)
  }

  function Insert<K(==), V>(c: Cache<K, V>, e: Entry<K, V>, later: int): Outcome<K, V> {
    var es := [e] + c.entries;
    if |es| <= c.capacity then Outcome(c.(entries := es), [], None)
    else
      var oldest := es[|es| - 1];
      var reason := if ExpiredAt(c.ttl, oldest, later) then Expired else Capacity;
      Outcome(
        c.(entries := es[..|es| - 1],
           stats := if reason == Expired then c.stats.(expirations := c.stats.expirations + 1)
                    else c.stats.(evictions := c.stats.evictions + 1)),
        [Report(oldest.key, oldest.value, reason)], None)
  }

  function Step<K(==), V>(c: Cache<K, V>, op: Op<K, V>): Outcome<K, V> {
    var es := c.entries;
    match op
    case Get(key, now) =>
      var i := Find(es, key);
      if i == |es| then Outcome(c.(stats := c.stats.(misses := c.stats.misses + 1)), [], None)
      else if ExpiredAt(c.ttl, es[i], now) then
        Outcome(
          c.(entries := Drop(es, key),
             stats := c.stats.(misses := c.stats.misses + 1, expirations := c.stats.expirations + 1)),
          [Report(key, es[i].value, Expired)], None)
      else
        Outcome(c.(entries := ToFront(es, es[i]), stats := c.stats.(hits := c.stats.hits + 1)), [], Some(es[i].value))
    case Peek(key, now) =>
      var i := Find(es, key);
      Outcome(c, [], if i == |es| || ExpiredAt(c.ttl, es[i], now) then None else Some(es[i].value))
    case Set(key, value, now, later) =>
      var e := Entry(key, value, if c.ttl > 0 then now + c.ttl else 0);
      if key in Keys(es) then Outcome(c.(entries := ToFront(es, e)), [], None)
      else Insert(c, e, later)
    case Remove(key) =>
      var i := Find(es, key);
      if i == |es| then Outcome(c, [], None)
      else Outcome(c.(entries := Drop(es, key)), [Report(key, es[i].value, Removed)], None)
    case Purge => Outcome(c.(entries := []), ReportsOf(es, Removed), None)
    case DeleteExpired(now) =>
      var live := LiveKeys(c.ttl, es, now);
      var gone := Project(es, Keys(es) - live);
      Outcome(
        c.(entries := Project(es, live), stats := c.stats.(expirations := c.stats.expirations + |gone|)),
        ReportsOf(gone, Expired), None)
  }

  function Empty<K, V>(capacity: int, ttl: int): Cache<K, V> {
    Cache(capacity, ttl, [], Stats(0, 0, 0, 0))
  }

  function Run<K(==), V>(c: Cache<K, V>, ops: seq<Op<K, V>>): Cache<K, V> {
    if ops == [] then c else Step(Run(c, ops[..|ops| - 1]), ops[|ops| - 1]).cache
  }

  // ---------- projections ----------

  lemma {:induction false} ProjectKeys<K, V>(es: seq<Entry<K, V>>, ks: set<K>)
    ensures Keys(Project(es, ks)) == Keys(es) * ks
    ensures forall e :: e in Project(es, ks) <==> e in es && e.key in ks
  {
    if es != [] {
      ProjectKeys(es[1..], ks);
      assert es == [es[0]] + es[1..];
      KeysOf([es[0]], es[1..]);
      KeysOf(if es[0].key in ks then [es[0]] else [], Project(es[1..], ks));
    }
  }

  lemma ProjectMember<K, V>(es: seq<Entry<K, V>>, ks: set<K>, e: Entry<K, V>)
    ensures e in Project(es, ks) <==> e in es && e.key in ks
  {
    ProjectKeys(es, ks);
  }

  lemma KeysOf<K, V>(a: seq<Entry<K, V>>, b: seq<Entry<K, V>>)
    ensures Keys(a + b) == Keys(a) + Keys(b)
  {
    forall i | 0 <= i < |b| ensures b[i].key in Keys(a + b) {
      assert (a + b)[|a| + i] == b[i];
    }
    forall i | 0 <= i < |a| ensures a[i].key in Keys(a + b) {
      assert (a + b)[i] == a[i];
    }
  }

  lemma {:induction false} ProjectDistinct<K, V>(es: seq<Entry<K, V>>, ks: set<K>)
    requires Distinct(es)
    ensures Distinct(Project(es, ks))
  {
    if es != [] {
      ProjectDistinct(es[1..], ks);
      ProjectKeys(es[1..], ks);
      var rest := Project(es[1..], ks);
      var r := Project(es, ks);
      if es[0].key in ks {
        forall j | 0 < j < |r| ensures r[j].key != es[0].key {
          assert r[j] == rest[j - 1] && rest[j - 1].key in Keys(rest);
          assert es[0].key !in Keys(es[1..]);
        }
      }
    }
  }

  lemma {:induction false} ProjectSame<K, V>(es: seq<Entry<K, V>>, ks: set<K>, ks': set<K>)
    requires Keys(es) * ks == Keys(es) * ks'
    ensures Project(es, ks) == Project(es, ks')
  {
    if es != [] {
      assert es == [es[0]] + es[1..];
      KeysOf([es[0]], es[1..]);
      assert es[0].key in Keys(es);
      assert es[0].key in ks <==> es[0].key in Keys(es) * ks;
      assert es[0].key in ks' <==> es[0].key in Keys(es) * ks';
      assert Keys(es[1..]) * ks == Keys(es[1..]) * (Keys(es) * ks);
      assert Keys(es[1..]) * ks' == Keys(es[1..]) * (Keys(es) * ks');
      ProjectSame(es[1..], ks, ks');
    }
  }

  lemma {:induction false} ProjectTwice<K, V>(es: seq<Entry<K, V>>, ks: set<K>, ks': set<K>)
    ensures Project(Project(es, ks), ks') == Project(es, ks * ks')
  {
    if es != [] {
      ProjectTwice(es[1..], ks, ks');
      var rest := Project(es[1..], ks);
      if es[0].key in ks {
        assert ([es[0]] + rest)[1..] == rest;
      } else {
        assert [] + rest == rest;
      }
    }
  }

  lemma {:induction false} ProjectAll<K, V>(es: seq<Entry<K, V>>, ks: set<K>)
    requires Keys(es) <= ks
    ensures Project(es, ks) == es
  {
    if es != [] {
      assert es == [es[0]] + es[1..];
      KeysOf([es[0]], es[1..]);
      assert es[0].key in Keys(es);
      ProjectAll(es[1..], ks);
    }
  }

  lemma {:induction false} ProjectConcat<K, V>(a: seq<Entry<K, V>>, b: seq<Entry<K, V>>, ks: set<K>)
    ensures Project(a + b, ks) == Project(a, ks) + Project(b, ks)
  {
    if a == [] {
      assert a + b == b;
    } else {
      ProjectConcat(a[1..], b, ks);
      assert (a + b)[1..] == a[1..] + b && (a + b)[0] == a[0];
      var head := if a[0].key in ks then [a[0]] else [];
      assert head + (Project(a[1..], ks) + Project(b, ks)) == (head + Project(a[1..], ks)) + Project(b, ks);
    }
  }

  lemma {:induction false} ProjectSize<K, V>(es: seq<Entry<K, V>>, ks: set<K>)
    ensures |Project(es, ks)| + |Project(es, Keys(es) - ks)| == |es|
  {
    if es != [] {
      var rest := es[1..];
      ProjectSize(rest, ks);
      assert es == [es[0]] + rest;
      KeysOf([es[0]], rest);
      assert es[0].key in Keys(es);
      ProjectSame(rest, Keys(es) - ks, Keys(rest) - ks);
    }
  }

  lemma DistinctSize<K, V>(es: seq<Entry<K, V>>)
    requires Distinct(es)
    ensures |Keys(es)| == |es|
  {
    if es != [] {
      var rest := es[1..];
      DistinctSize(rest);
      assert es == [es[0]] + rest;
      KeysOf([es[0]], rest);
      assert es[0].key !in Keys(rest);
      assert Keys([es[0]]) == {es[0].key};
      assert Keys(es) == {es[0].key} + Keys(rest);
    }
  }

  lemma SameKeySameEntry<K, V>(es: seq<Entry<K, V>>, a: Entry<K, V>, b: Entry<K, V>)
    requires Distinct(es) && a in es && b in es && a.key == b.key
    ensures a == b
  {
  }

  lemma DropOne<K, V>(es: seq<Entry<K, V>>, key: K)
    requires Distinct(es)
    ensures Keys(Drop(es, key)) == Keys(es) - {key} && Distinct(Drop(es, key))
    ensures |Drop(es, key)| == |es| - if key in Keys(es) then 1 else 0
  {
    ProjectKeys(es, Keys(es) - {key});
    ProjectDistinct(es, Keys(es) - {key});
    DistinctSize(es);
    DistinctSize(Drop(es, key));
  }

  // ---------- every reachable cache ----------

  ghost predicate Valid<K, V>(c: Cache<K, V>) {
    c.capacity > 0 && Distinct(c.entries) && |c.entries| <= c.capacity
  }

  lemma FrontIsDistinct<K, V>(e: Entry<K, V>, rest: seq<Entry<K, V>>)
    requires Distinct(rest) && e.key !in Keys(rest)
    ensures Distinct([e] + rest)
  {
    var r := [e] + rest;
    forall i, j | 0 <= i < j < |r| ensures r[i].key != r[j].key {
      assert r[j] == rest[j - 1] && rest[j - 1].key in Keys(rest);
    }
  }

  lemma StepIsValid<K, V>(c: Cache<K, V>, op: Op<K, V>)
    requires Valid(c)
    ensures Valid(Step(c, op).cache)
    ensures Step(c, op).cache.capacity == c.capacity && Step(c, op).cache.ttl == c.ttl
  {
    var es := c.entries;
    match op {
      case Get(key, now) =>
        DropOne(es, key);
        var i := Find(es, key);
        if i < |es| {
          FrontIsDistinct(es[i], Drop(es, key));
        }
      case Peek(_, _) =>
      case Set(key, value, now, _) =>
        DropOne(es, key);
        var e := Entry(key, value, if c.ttl > 0 then now + c.ttl else 0);
        FrontIsDistinct(e, Drop(es, key));
        if key !in Keys(es) {
          FrontIsDistinct(e, es);
        }
      case Remove(key) => DropOne(es, key);
      case Purge =>
      case DeleteExpired(now) => ProjectDistinct(es, LiveKeys(c.ttl, es, now));
    }
  }

  lemma {:induction false} RunIsValid<K, V>(c: Cache<K, V>, ops: seq<Op<K, V>>)
    requires Valid(c)
    ensures Valid(Run(c, ops)) && Run(c, ops).capacity == c.capacity && Run(c, ops).ttl == c.ttl
  {
    if ops != [] {
      RunIsValid(c, ops[..|ops| - 1]);
      StepIsValid(Run(c, ops[..|ops| - 1]), ops[|ops| - 1]);
    }
  }
}
