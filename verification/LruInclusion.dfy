/**
 LRU inclusion: under the same operations and clock readings, a smaller cache always holds a part
 of what a larger one holds, in the same recency order, so more capacity never turns a hit into a
 miss. The operations include removals, purges, lazy expiry and Gets that hit only in the larger
 cache.
 */
module LruInclusion {
  import opened Basics
  import opened LruModel

  /** The entries `x` are those of `y` with the keys of `x`, in the same order. */
  ghost predicate Sub<K, V>(x: seq<Entry<K, V>>, y: seq<Entry<K, V>>) {
    x == Project(y, Keys(x))
  }

  ghost predicate Included<K, V>(s: Cache<K, V>, b: Cache<K, V>) {
    && Valid(s) && Valid(b) && s.ttl == b.ttl && s.capacity <= b.capacity
    && Sub(s.entries, b.entries)
    && |b.entries| - |s.entries| <= b.capacity - s.capacity
  }

  lemma SubKeys<K, V>(x: seq<Entry<K, V>>, y: seq<Entry<K, V>>)
    requires Sub(x, y)
    ensures Keys(x) <= Keys(y)
    ensures forall e :: e in x ==> e in y
  {
    ProjectKeys(y, Keys(x));
  }

  lemma SubOfProject<K, V>(x: seq<Entry<K, V>>, y: seq<Entry<K, V>>, t: set<K>, t': set<K>)
    requires Sub(x, y) && Keys(x) * t <= t'
    ensures Sub(Project(x, t), Project(y, t'))
  {
    hide Project, Keys;
    ProjectKeys(x, t);
    ProjectTwice(y, t', Keys(x) * t);
    ProjectTwice(y, Keys(x), t);
    assert t' * (Keys(x) * t) == Keys(x) * t;
  }

  lemma SubFront<K, V>(x: seq<Entry<K, V>>, y: seq<Entry<K, V>>, e: Entry<K, V>)
    requires Sub(x, y) && e.key !in Keys(y)
    ensures Sub([e] + x, [e] + y)
  {
    KeysOf([e], x);
    assert [e][0].key in Keys([e]);
    assert Keys([e]) == {e.key};
    var ks := Keys([e] + x);
    ProjectSame(y, ks, Keys(x));
    assert ([e] + y)[1..] == y;
  }

  lemma SubFrontOfLarger<K, V>(x: seq<Entry<K, V>>, y: seq<Entry<K, V>>, e: Entry<K, V>)
    requires Sub(x, y) && e.key !in Keys(x)
    ensures Sub(x, [e] + y)
  {
    assert ([e] + y)[1..] == y;
    assert [] + Project(y, Keys(x)) == Project(y, Keys(x));
  }

  /** If the larger cache's oldest entry is shared, it is the smaller one's oldest too. */
  lemma LastShared<K, V>(x: seq<Entry<K, V>>, y: seq<Entry<K, V>>)
    requires Sub(x, y) && y != [] && y[|y| - 1].key in Keys(x)
    ensures x != [] && x[|x| - 1] == y[|y| - 1]
  {
    var l := y[|y| - 1];
    assert y == y[..|y| - 1] + [l];
    ProjectConcat(y[..|y| - 1], [l], Keys(x));
    assert Project([l], Keys(x)) == [l] + Project([], Keys(x));
  }

  lemma InitIsDrop<K, V>(x: seq<Entry<K, V>>)
    requires Distinct(x) && x != []
    ensures x[..|x| - 1] == Drop(x, x[|x| - 1].key)
  {
    var l := x[|x| - 1];
    var init := x[..|x| - 1];
    var ks := Keys(x) - {l.key};
    assert x == init + [l];
    ProjectConcat(init, [l], ks);
    KeysOf(init, [l]);
    assert Project([l], ks) == [] + Project([], ks);
    assert l.key !in Keys(init);
    ProjectAll(init, ks);
  }

  lemma SharedEntry<K, V>(s: Cache<K, V>, b: Cache<K, V>, key: K)
    requires Included(s, b)
    ensures key in Keys(s.entries) ==>
              key in Keys(b.entries) && s.entries[Find(s.entries, key)] == b.entries[Find(b.entries, key)]
  {
    if key in Keys(s.entries) {
      SubKeys(s.entries, b.entries);
      var e := s.entries[Find(s.entries, key)];
      assert e in s.entries;
      SameKeySameEntry(b.entries, e, b.entries[Find(b.entries, key)]);
    }
  }

  /** Moving an entry to the front, in both caches or only in the larger one. */
  lemma ToFrontKeeps<K, V>(x: seq<Entry<K, V>>, y: seq<Entry<K, V>>, e: Entry<K, V>)
    requires Sub(x, y) && Distinct(x) && Distinct(y)
    ensures Sub(Drop(x, e.key), Drop(y, e.key))
    ensures Sub([e] + Drop(x, e.key), ToFront(y, e))
    ensures e.key !in Keys(x) ==> Sub(x, ToFront(y, e)) && Sub(x, Drop(y, e.key))
  {
    SubKeys(x, y);
    SubOfProject(x, y, Keys(x) - {e.key}, Keys(y) - {e.key});
    DropOne(y, e.key);
    DropOne(x, e.key);
    SubFront(Drop(x, e.key), Drop(y, e.key), e);
    if e.key !in Keys(x) {
      ProjectAll(x, Keys(x));
      SubOfProject(x, y, Keys(x), Keys(y) - {e.key});
      SubFrontOfLarger(x, Drop(y, e.key), e);
    }
  }

  /** Both caches are over their capacity, or only the smaller one is. */
  lemma EvictKeeps<K, V>(x: seq<Entry<K, V>>, y: seq<Entry<K, V>>)
    requires Sub(x, y) && Distinct(x) && Distinct(y) && x != [] && y != []
    ensures Sub(x[..|x| - 1], y) && Sub(x[..|x| - 1], y[..|y| - 1])
  {
    hide Project, Keys, Distinct;
    var kx := x[|x| - 1].key;
    var ky := y[|y| - 1].key;
    SubKeys(x, y);
    InitIsDrop(x);
    InitIsDrop(y);
    ProjectAll(y, Keys(y));
    SubOfProject(x, y, Keys(x) - {kx}, Keys(y));
    if ky in Keys(x) {
      LastShared(x, y);
    }
    SubOfProject(x, y, Keys(x) - {kx}, Keys(y) - {ky});
  }

  lemma InsertKeeps<K, V>(s: Cache<K, V>, b: Cache<K, V>, e: Entry<K, V>, later: int)
    requires Included(s, b) && e.key !in Keys(b.entries)
    ensures
      var s' := Insert(s, e, later).cache;
      var b' := Insert(b, e, later).cache;
      Sub(s'.entries, b'.entries) && |b'.entries| - |s'.entries| <= b.capacity - s.capacity
  {
    SubKeys(s.entries, b.entries);
    SubFront(s.entries, b.entries, e);
    FrontIsDistinct(e, s.entries);
    FrontIsDistinct(e, b.entries);
    EvictKeeps([e] + s.entries, [e] + b.entries);
  }

  /** The key is in the larger cache only: the smaller one may evict, the larger one does not. */
  lemma InsertInSmaller<K, V>(s: Cache<K, V>, b: Cache<K, V>, e: Entry<K, V>, later: int)
    requires Included(s, b) && e.key in Keys(b.entries) && e.key !in Keys(s.entries)
    ensures
      var s' := Insert(s, e, later).cache;
      Sub(s'.entries, ToFront(b.entries, e)) && |ToFront(b.entries, e)| - |s'.entries| <= b.capacity - s.capacity
  {
    var x := [e] + s.entries;
    var y := ToFront(b.entries, e);
    ToFrontKeeps(s.entries, b.entries, e);
    DropOne(b.entries, e.key);
    ProjectAll(s.entries, Keys(s.entries) - {e.key});
    FrontIsDistinct(e, s.entries);
    FrontIsDistinct(e, Drop(b.entries, e.key));
    EvictKeeps(x, y);
  }

  lemma SetKeeps<K, V>(s: Cache<K, V>, b: Cache<K, V>, key: K, value: V, now: int, later: int)
    requires Included(s, b)
    ensures Included(Step(s, Set(key, value, now, later)).cache, Step(b, Set(key, value, now, later)).cache)
  {
    var op := Set(key, value, now, later);
    StepIsValid(s, op);
    StepIsValid(b, op);
    var e := Entry(key, value, if s.ttl > 0 then now + s.ttl else 0);
    SubKeys(s.entries, b.entries);
    if key in Keys(s.entries) {
      ToFrontKeeps(s.entries, b.entries, e);
      DropOne(s.entries, key);
      DropOne(b.entries, key);
    } else if key in Keys(b.entries) {
      InsertInSmaller(s, b, e, later);
    } else {
      InsertKeeps(s, b, e, later);
    }
  }

  lemma GetKeeps<K, V>(s: Cache<K, V>, b: Cache<K, V>, key: K, now: int)
    requires Included(s, b)
    ensures Included(Step(s, Get(key, now)).cache, Step(b, Get(key, now)).cache)
  {
    var op: Op<K, V> := Get(key, now);
    StepIsValid(s, op);
    StepIsValid(b, op);
    SharedEntry(s, b, key);
    SubKeys(s.entries, b.entries);
    DropOne(s.entries, key);
    DropOne(b.entries, key);
    if key in Keys(b.entries) {
      ToFrontKeeps(s.entries, b.entries, b.entries[Find(b.entries, key)]);
    }
  }

  lemma RemoveKeeps<K, V>(s: Cache<K, V>, b: Cache<K, V>, key: K)
    requires Included(s, b)
    ensures Included(Step(s, Remove(key)).cache, Step(b, Remove(key)).cache)
  {
    var op: Op<K, V> := Remove(key);
    StepIsValid(s, op);
    StepIsValid(b, op);
    SubKeys(s.entries, b.entries);
    DropOne(s.entries, key);
    DropOne(b.entries, key);
    if key in Keys(b.entries) {
      ToFrontKeeps(s.entries, b.entries, b.entries[Find(b.entries, key)]);
    }
  }

  lemma LiveMember<K, V>(ttl: int, es: seq<Entry<K, V>>, now: int, e: Entry<K, V>)
    requires Distinct(es) && e in es
    ensures e.key in LiveKeys(ttl, es, now) <==> !ExpiredAt(ttl, e, now)
  {
  }

  lemma DeleteExpiredKeeps<K, V>(s: Cache<K, V>, b: Cache<K, V>, now: int)
    requires Included(s, b)
    ensures Included(Step(s, DeleteExpired(now)).cache, Step(b, DeleteExpired(now)).cache)
  {
    var op: Op<K, V> := DeleteExpired(now);
    StepIsValid(s, op);
    StepIsValid(b, op);
    var x, y := s.entries, b.entries;
    var lx, ly := LiveKeys(s.ttl, x, now), LiveKeys(b.ttl, y, now);
    SubKeys(x, y);
    forall k | k in Keys(x) ensures k in lx <==> k in ly {
      var i := Find(x, k);
      assert x[i] in x;
      LiveMember(s.ttl, x, now, x[i]);
      LiveMember(s.ttl, y, now, x[i]);
    }
    SubOfProject(x, y, lx, ly);
    GoneBound(x, y, lx, ly);
  }

  /** The larger cache drops at least as many entries. */
  lemma GoneBound<K, V>(x: seq<Entry<K, V>>, y: seq<Entry<K, V>>, lx: set<K>, ly: set<K>)
    requires Sub(x, y) && Distinct(x) && Distinct(y)
    requires forall k :: k in Keys(x) ==> (k in lx <==> k in ly)
    ensures |Project(y, ly)| - |Project(x, lx)| <= |y| - |x|
  {
    SubKeys(x, y);
    ProjectSize(x, lx);
    ProjectSize(y, ly);
    var gx, gy := Project(x, Keys(x) - lx), Project(y, Keys(y) - ly);
    ProjectKeys(x, Keys(x) - lx);
    ProjectKeys(y, Keys(y) - ly);
    ProjectDistinct(x, Keys(x) - lx);
    ProjectDistinct(y, Keys(y) - ly);
    DistinctSize(gx);
    DistinctSize(gy);
    assert Keys(gx) <= Keys(gy);
    CardinalityOfPart(Keys(gx), Keys(gy));
  }

  lemma CardinalityOfPart<T>(a: set<T>, b: set<T>)
    requires a <= b
    ensures |a| <= |b|
  {
    assert b == a + (b - a);
  }

  lemma StepKeepsInclusion<K, V>(s: Cache<K, V>, b: Cache<K, V>, op: Op<K, V>)
    requires Included(s, b)
    ensures Included(Step(s, op).cache, Step(b, op).cache)
  {
    match op {
      case Get(key, now) => GetKeeps(s, b, key, now);
      case Peek(_, _) =>
      case Set(key, value, now, later) => SetKeeps(s, b, key, value, now, later);
      case Remove(key) => RemoveKeeps(s, b, key);
      case Purge =>
      case DeleteExpired(now) => DeleteExpiredKeeps(s, b, now);
    }
  }

  lemma {:induction false} RunKeepsInclusion<K, V>(s: Cache<K, V>, b: Cache<K, V>, ops: seq<Op<K, V>>)
    requires Included(s, b)
    ensures Included(Run(s, ops), Run(b, ops))
  {
    if ops != [] {
      RunKeepsInclusion(s, b, ops[..|ops| - 1]);
      StepKeepsInclusion(Run(s, ops[..|ops| - 1]), Run(b, ops[..|ops| - 1]), ops[|ops| - 1]);
    }
  }

  /** Two caches that differ only in their capacity, after the same operations: the smaller one
      holds some of the larger one's entries, in the same order, and whatever the smaller one
      answers to the next Get or Peek with a value, the larger one answers too. */
  lemma MoreCapacityNeverHurts<K, V>(small: int, large: int, ttl: int, ops: seq<Op<K, V>>, next: Op<K, V>)
    requires 0 < small <= large
    ensures
      var s := Run(Empty<K, V>(small, ttl), ops);
      var b := Run(Empty<K, V>(large, ttl), ops);
      && s.entries == Project(b.entries, Keys(s.entries))
      && (forall e :: e in s.entries ==> e in b.entries)
      && (Step(s, next).found.Some? ==> Step(b, next).found == Step(s, next).found)
  {
    var s0, b0 := Empty<K, V>(small, ttl), Empty<K, V>(large, ttl);
    assert Included(s0, b0);
    RunKeepsInclusion(s0, b0, ops);
    var s, b := Run(s0, ops), Run(b0, ops);
    SubKeys(s.entries, b.entries);
    if next.Get? || next.Peek? {
      SharedEntry(s, b, next.key);
    }
  }
}
