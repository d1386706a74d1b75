/**
 How long an entry of the LRU cache can be found: while it is in the cache, exactly until the ttl has
 passed since it was put.
 */
module LruExpiry {
  import opened Basics
  import opened LruModel
  import opened LruInclusion
  import opened LruHistory

  predicate SetsKey<K(==), V>(op: Op<K, V>, key: K) {
    op.Set? && op.key == key
  }

  /** Only a Set brings an entry in, and only for its own key. */
  lemma NothingAppears<K, V>(c: Cache<K, V>, op: Op<K, V>, e: Entry<K, V>)
    requires Valid(c) && e in Step(c, op).cache.entries && !SetsKey(op, e.key)
    ensures e in c.entries
  {
    hide Project, Distinct;
    var es := c.entries;
    match op {
      case Get(key, now) =>
        ProjectMember(es, Keys(es) - {key}, e);
        assert Find(es, key) < |es| ==> es[Find(es, key)] in es;
      case Peek(_, _) =>
      case Set(key, value, now, later) =>
        ProjectMember(es, Keys(es) - {key}, e);
      case Remove(key) => ProjectMember(es, Keys(es) - {key}, e);
      case Purge =>
      case DeleteExpired(now) => ProjectMember(es, LiveKeys(c.ttl, es, now), e);
    }
  }

  /** Whatever is in the cache under the key is this entry. */
  ghost predicate OnlyEntry<K, V>(c: Cache<K, V>, e: Entry<K, V>) {
    forall i :: 0 <= i < |c.entries| && c.entries[i].key == e.key ==> c.entries[i] == e
  }

  lemma SetIsOnly<K, V>(c: Cache<K, V>, op: Op<K, V>)
    requires Valid(c) && op.Set?
    ensures
      var e := Entry(op.key, op.value, if c.ttl > 0 then op.now + c.ttl else 0);
      var next := Step(c, op).cache;
      OnlyEntry(next, e) && next.entries != [] && next.entries[0] == e
  {
    StepIsValid(c, op);
    var next := Step(c, op).cache;
    assert next.entries != [];
    assert next.entries[0] == Entry(op.key, op.value, if c.ttl > 0 then op.now + c.ttl else 0);
  }

  lemma {:induction false} StaysOnly<K, V>(c: Cache<K, V>, e: Entry<K, V>, ops: seq<Op<K, V>>)
    requires Valid(c) && OnlyEntry(c, e) && forall i :: 0 <= i < |ops| ==> !SetsKey(ops[i], e.key)
    ensures Valid(Run(c, ops)) && Run(c, ops).ttl == c.ttl && OnlyEntry(Run(c, ops), e)
  {
    RunIsValid(c, ops);
    if ops != [] {
      var n := |ops| - 1;
      StaysOnly(c, e, ops[..n]);
      var before, after := Run(c, ops[..n]), Run(c, ops);
      forall i | 0 <= i < |after.entries| && after.entries[i].key == e.key ensures after.entries[i] == e {
        NothingAppears(before, ops[n], after.entries[i]);
      }
    }
  }

  lemma Answer<K, V>(c: Cache<K, V>, e: Entry<K, V>, now: int)
    requires Valid(c) && OnlyEntry(c, e)
    ensures
      var answer := if e.key in Keys(c.entries) && (c.ttl <= 0 || now < e.expiresAt) then Some(e.value) else None;
      Step(c, Get(e.key, now)).found == answer && Step(c, Peek(e.key, now)).found == answer
  {
  }

  /** A value that was set at instant t, in a cache after any operations, and whatever comes next but
      another Set of its key: while its entry is present, Get and Peek find exactly it before
      t + ttl, and nothing from then on; without a ttl they find it always. */
  lemma FoundUntilExpiry<K, V>(
      capacity: int, ttl: int, before: seq<Op<K, V>>, put: Op<K, V>, rest: seq<Op<K, V>>, now: int)
    requires capacity > 0 && put.Set? && forall i :: 0 <= i < |rest| ==> !SetsKey(rest[i], put.key)
    ensures
      var first := Step(Run(Empty<K, V>(capacity, ttl), before), put).cache;
      var c := Run(first, rest);
      var answer := if put.key in Keys(c.entries) && (ttl <= 0 || now < put.now + ttl) then Some(put.value) else None;
      && put.key in Keys(first.entries)
      && Step(c, Get(put.key, now)).found == answer
      && Step(c, Peek(put.key, now)).found == answer
  {
    hide Step, OnlyEntry;
    var c0 := Run(Empty<K, V>(capacity, ttl), before);
    RunIsValid(Empty<K, V>(capacity, ttl), before);
    var e := Entry(put.key, put.value, if ttl > 0 then put.now + ttl else 0);
    SetIsOnly(c0, put);
    StepIsValid(c0, put);
    var first := Step(c0, put).cache;
    assert first.entries[0].key in Keys(first.entries);
    StaysOnly(first, e, rest);
    Answer(Run(first, rest), e, now);
  }
}
