/**
 What leaves the LRU cache and what is reported about it: an operation reports exactly the entries
 that leave, each of them once, with its own value and with the reason why it leaves.
 */
module LruDepartures {
  import opened Basics
  import opened LruModel
  import opened LruInclusion
  import opened LruHistory

  /** Which of the present entries an operation takes out. */
  predicate Leaves<K(==), V(==)>(c: Cache<K, V>, op: Op<K, V>, e: Entry<K, V>) {
    match op
    case Get(key, now) => e.key == key && ExpiredAt(c.ttl, e, now)
    case Peek(_, _) => false
    case Set(key, _, _, _) =>
      key !in Keys(c.entries) && |c.entries| >= c.capacity && c.entries != [] && e == c.entries[|c.entries| - 1]
    case Remove(key) => e.key == key
    case Purge => true
    case DeleteExpired(now) => ExpiredAt(c.ttl, e, now)
  }

  /** The reading of the clock by which an operation judges the entries. */
  function Instant<K, V>(op: Op<K, V>): int {
    match op
    case Get(_, now) => now
    case Peek(_, now) => now
    case Set(_, _, _, later) => later
    case Remove(_) => 0
    case Purge => 0
    case DeleteExpired(now) => now
  }

  /** Removed exactly for Remove and Purge, otherwise expired exactly when it was, otherwise for room. */
  function Why<K, V>(ttl: int, op: Op<K, V>, e: Entry<K, V>): Reason {
    if op.Remove? || op.Purge? then Removed
    else if ExpiredAt(ttl, e, Instant(op)) then Expired
    else Capacity
  }

  ghost predicate Due<K, V>(c: Cache<K, V>, op: Op<K, V>, r: Report<K, V>) {
    exists e :: e in c.entries && Leaves(c, op, e) && r == Report(e.key, e.value, Why(c.ttl, op, e))
  }

  /** These are all the reports that are due, and no others. */
  ghost predicate AllDue<K, V>(c: Cache<K, V>, op: Op<K, V>, rs: seq<Report<K, V>>) {
    && (forall r :: r in rs ==> Due(c, op, r))
    && (forall e :: e in c.entries && Leaves(c, op, e) ==> Report(e.key, e.value, Why(c.ttl, op, e)) in rs)
  }

  ghost predicate OncePerKey<K, V>(rs: seq<Report<K, V>>) {
    forall i, j :: 0 <= i < j < |rs| ==> rs[i].key != rs[j].key
  }

  /** The entries that leave are gone, and the others stay as they are unless they are rewritten. */
  ghost predicate LeavesOthers<K, V>(c: Cache<K, V>, op: Op<K, V>, next: seq<Entry<K, V>>) {
    forall e :: e in c.entries ==>
      if Leaves(c, op, e) then e.key !in Keys(next)
      else e.key in Keys(next) && (e in next || (op.Set? && op.key == e.key))
  }

  ghost predicate Exact<K, V>(c: Cache<K, V>, op: Op<K, V>) {
    var o := Step(c, op);
    && LeavesOthers(c, op, o.cache.entries)
    && AllDue(c, op, o.reports)
    && OncePerKey(o.reports)
  }

  // ---------- reports of several entries ----------

  lemma {:induction false} ReportsMember<K, V>(es: seq<Entry<K, V>>, why: Reason, r: Report<K, V>)
    ensures r in ReportsOf(es, why) <==> exists e :: e in es && r == Report(e.key, e.value, why)
  {
    if es != [] {
      ReportsMember(es[1..], why, r);
      if e :| e in es && r == Report(e.key, e.value, why) {
        assert e == es[0] || e in es[1..];
      }
    }
  }

  lemma {:induction false} ReportsOncePerKey<K, V>(es: seq<Entry<K, V>>, why: Reason)
    requires Distinct(es)
    ensures OncePerKey(ReportsOf(es, why))
  {
    if es != [] {
      var rest := ReportsOf(es[1..], why);
      ReportsOncePerKey(es[1..], why);
      forall i | 0 <= i < |rest| ensures rest[i].key != es[0].key {
        ReportsMember(es[1..], why, rest[i]);
        var e :| e in es[1..] && rest[i] == Report(e.key, e.value, why);
        var j :| 0 <= j < |es[1..]| && es[1..][j] == e;
        assert es[j + 1] == e;
      }
    }
  }

  lemma BulkIsDue<K, V>(c: Cache<K, V>, op: Op<K, V>, gone: seq<Entry<K, V>>, why: Reason)
    requires forall e :: e in gone ==> e in c.entries && Leaves(c, op, e) && Why(c.ttl, op, e) == why
    requires forall e :: e in c.entries && Leaves(c, op, e) ==> e in gone
    ensures AllDue(c, op, ReportsOf(gone, why))
  {
    hide Leaves, Why;
    var rs := ReportsOf(gone, why);
    forall r | r in rs ensures Due(c, op, r) {
      ReportsMember(gone, why, r);
      var e :| e in gone && r == Report(e.key, e.value, why);
      assert e in c.entries && Leaves(c, op, e);
    }
    forall e | e in c.entries && Leaves(c, op, e) ensures Report(e.key, e.value, Why(c.ttl, op, e)) in rs {
      ReportsMember(gone, why, Report(e.key, e.value, why));
    }
  }

  lemma MemberKey<K, V>(es: seq<Entry<K, V>>, e: Entry<K, V>)
    requires e in es
    ensures e.key in Keys(es)
  {
  }

  // ---------- each operation ----------

  /** One entry at most leaves, the one with this key. */
  lemma OneLeaves<K, V>(c: Cache<K, V>, op: Op<K, V>, key: K)
    requires Valid(c) && (op.Get? || op.Remove?) && op.key == key
    ensures Exact(c, op)
  {
    hide Keys, Project, Distinct;
    var es := c.entries;
    var o := Step(c, op);
    var i := Find(es, key);
    DropOne(es, key);
    ProjectKeys(es, Keys(es) - {key});
    forall e | e in es ensures e.key in Keys(es) && (e.key == key ==> i < |es| && e == es[i]) {
      MemberKey(es, e);
      if e.key == key {
        SameKeySameEntry(es, e, es[i]);
      }
    }
    if i < |es| {
      assert es[i] in es;
      KeysOf([es[i]], Drop(es, key));
      OneKey(es[i]);
      assert forall e :: e in [es[i]] + Drop(es, key) <==> e == es[i] || e in Drop(es, key);
    }
  }

  lemma RewriteLeavesNone<K, V>(c: Cache<K, V>, op: Op<K, V>)
    requires Valid(c) && op.Set? && op.key in Keys(c.entries)
    ensures Exact(c, op)
  {
    hide Keys, Project, Distinct;
    var es, key := c.entries, op.key;
    var o := Step(c, op);
    var e' := o.cache.entries[0];
    DropOne(es, key);
    ProjectKeys(es, Keys(es) - {key});
    KeysOf([e'], Drop(es, key));
    OneKey(e');
    forall e | e in es ensures e.key in Keys(o.cache.entries) && (e.key != key ==> e in o.cache.entries) {
      MemberKey(es, e);
      assert e.key != key ==> e in Drop(es, key);
    }
  }

  lemma InsertLeavesLast<K, V>(c: Cache<K, V>, op: Op<K, V>)
    requires Valid(c) && Inserts(c, op)
    ensures Exact(c, op)
    ensures |c.entries| == c.capacity ==>
              var last := c.entries[|c.entries| - 1];
              var o := Step(c, op);
              && o.reports == [Report(last.key, last.value, Why(c.ttl, op, last))]
              && |o.cache.entries| == c.capacity && o.cache.entries[1..] == c.entries[..c.capacity - 1]
              && o.cache.entries[0].key == op.key && o.cache.entries[0].value == op.value
  {
    hide Keys, Distinct;
    var es := c.entries;
    var o := Step(c, op);
    var e' := Entry(op.key, op.value, if c.ttl > 0 then op.now + c.ttl else 0);
    if |es| < c.capacity {
      assert o.cache.entries == [e'] + es;
      forall e | e in es ensures e in o.cache.entries && e.key in Keys(o.cache.entries) {
        assert e in [e'] + es;
        MemberKey([e'] + es, e);
      }
    } else {
      var last := es[|es| - 1];
      assert ([e'] + es)[|es|] == last && ([e'] + es)[..|es|] == [e'] + es[..|es| - 1];
      var next := [e'] + es[..|es| - 1];
      assert o.cache.entries == next;
      forall e | e in es ensures if e == last then e.key !in Keys(next) else e in next && e.key in Keys(next) {
        InitMember(es, e);
        if e != last {
          MemberKey(next, e);
        } else {
          NotInInit(e', es);
        }
      }
      assert last in es;
    }
  }

  lemma InitMember<K, V>(es: seq<Entry<K, V>>, e: Entry<K, V>)
    requires e in es
    ensures e == es[|es| - 1] || e in es[..|es| - 1]
  {
  }

  lemma NotInInit<K, V>(front: Entry<K, V>, es: seq<Entry<K, V>>)
    requires es != [] && Distinct(es) && front.key !in Keys(es)
    ensures es[|es| - 1].key !in Keys([front] + es[..|es| - 1])
  {
    KeysOf([front], es[..|es| - 1]);
    OneKey(front);
    assert es[|es| - 1].key in Keys(es);
  }

  lemma PurgeLeavesNone<K, V>(c: Cache<K, V>)
    requires Valid(c)
    ensures Exact(c, Purge)
  {
    var op: Op<K, V> := Purge;
    BulkIsDue(c, op, c.entries, Removed);
    ReportsOncePerKey(c.entries, Removed);
  }

  lemma ExpiredLeave<K, V>(c: Cache<K, V>, now: int)
    requires Valid(c)
    ensures Exact(c, DeleteExpired(now))
  {
    hide Keys, Project, Distinct, LiveKeys;
    var es := c.entries;
    var op: Op<K, V> := DeleteExpired(now);
    var live := LiveKeys(c.ttl, es, now);
    var gone := Project(es, Keys(es) - live);
    ProjectKeys(es, live);
    ProjectKeys(es, Keys(es) - live);
    ProjectDistinct(es, Keys(es) - live);
    ReportsOncePerKey(gone, Expired);
    forall e | e in es ensures e.key in Keys(es) && (e.key in live <==> !ExpiredAt(c.ttl, e, now)) {
      MemberKey(es, e);
      LiveMember(c.ttl, es, now, e);
    }
    forall e | e in gone ensures e in es && Leaves(c, op, e) && Why(c.ttl, op, e) == Expired {
      ProjectMember(es, Keys(es) - live, e);
      assert ExpiredAt(c.ttl, e, now);
    }
    BulkIsDue(c, op, gone, Expired);
  }

  lemma StepIsExact<K, V>(c: Cache<K, V>, op: Op<K, V>)
    requires Valid(c)
    ensures Exact(c, op)
  {
    hide Exact, Valid;
    match op {
      case Get(key, _) => OneLeaves(c, op, key);
      case Peek(_, _) => PeekLeavesNone(c, op);
      case Set(key, _, _, _) =>
        if key in Keys(c.entries) {
          RewriteLeavesNone(c, op);
        } else {
          InsertLeavesLast(c, op);
        }
      case Remove(key) => OneLeaves(c, op, key);
      case Purge => PurgeLeavesNone(c);
      case DeleteExpired(now) => ExpiredLeave(c, now);
    }
  }

  lemma PeekLeavesNone<K, V>(c: Cache<K, V>, op: Op<K, V>)
    requires Valid(c) && op.Peek?
    ensures Exact(c, op)
  {
  }

  // ---------- every run ----------

  /** After any operations, the next one reports exactly the entries that it takes out: each of them
      once, with its value and the reason, and added to the reports so far; all others stay. */
  lemma EveryDepartureIsReported<K, V>(capacity: int, ttl: int, ops: seq<Op<K, V>>, next: Op<K, V>)
    requires capacity > 0
    ensures
      var t := RunTrace(Begin<K, V>(capacity, ttl), ops);
      var o := Step(t.cache, next);
      && RunTrace(Begin<K, V>(capacity, ttl), ops + [next]).reported == t.reported + o.reports
      && LeavesOthers(t.cache, next, o.cache.entries)
      && AllDue(t.cache, next, o.reports)
      && OncePerKey(o.reports)
  {
    hide Step, LeavesOthers, AllDue, OncePerKey, Valid;
    var t0 := Begin<K, V>(capacity, ttl);
    RunIsValid(Empty<K, V>(capacity, ttl), ops) by {
      FreshIsValid<K, V>(capacity, ttl);
    }
    TraceIsRun(t0, ops);
    StepIsExact(RunTrace(t0, ops).cache, next);
    assert (ops + [next])[..|ops|] == ops && (ops + [next])[|ops|] == next;
  }

  lemma FreshIsValid<K, V>(capacity: int, ttl: int)
    requires capacity > 0
    ensures Valid(Empty<K, V>(capacity, ttl))
  {
  }

  /** When room is needed, the entry that goes is the last one, whose last use is the longest ago; it
      is reported with its value, as expired if it was; every other entry stays, behind the new one. */
  lemma VictimIsLeastRecentlyUsed<K, V>(capacity: int, ttl: int, ops: seq<Op<K, V>>, next: Op<K, V>)
    requires capacity > 0 && next.Set?
    ensures
      var t := RunTrace(Begin<K, V>(capacity, ttl), ops);
      var o := Step(t.cache, next);
      Inserts(t.cache, next) && |t.cache.entries| == capacity ==>
        var victim := t.cache.entries[capacity - 1];
        && o.reports == [Report(victim.key, victim.value, if ExpiredAt(ttl, victim, next.later) then Expired else Capacity)]
        && o.cache.entries[1..] == t.cache.entries[..capacity - 1]
        && o.cache.entries[0].key == next.key && o.cache.entries[0].value == next.value
        && victim.key in t.used
        && forall i :: 0 <= i < capacity - 1 ==>
             t.cache.entries[i].key in t.used && t.used[t.cache.entries[i].key] > t.used[victim.key]
  {
    hide ByLastUse, Step, RunTrace, Valid, Why;
    var t := RunTrace(Begin<K, V>(capacity, ttl), ops);
    OrderIsByLastUse<K, V>(capacity, ttl, ops);
    FreshIsValid<K, V>(capacity, ttl);
    RunIsValid(Empty<K, V>(capacity, ttl), ops);
    if Inserts(t.cache, next) && |t.cache.entries| == capacity {
      InsertLeavesLast(t.cache, next);
      LastIsOldest(t.cache.entries, t.used);
      var victim := t.cache.entries[capacity - 1];
      assert Why(ttl, next, victim) == if ExpiredAt(ttl, victim, next.later) then Expired else Capacity by {
        WhySet(ttl, next, victim);
      }
    }
  }

  lemma WhySet<K, V>(ttl: int, op: Op<K, V>, e: Entry<K, V>)
    requires op.Set?
    ensures Why(ttl, op, e) == if ExpiredAt(ttl, e, op.later) then Expired else Capacity
  {
  }

  lemma LastIsOldest<K, V>(es: seq<Entry<K, V>>, used: map<K, nat>)
    requires ByLastUse(es, used) && es != []
    ensures forall i :: 0 <= i < |es| ==> es[i].key in used
    ensures forall i :: 0 <= i < |es| - 1 ==> used[es[i].key] > used[es[|es| - 1].key]
  {
  }

  /** The report was due at one of the operations. */
  ghost predicate WasDue<K, V>(capacity: int, ttl: int, ops: seq<Op<K, V>>, r: Report<K, V>) {
    exists n :: 0 <= n < |ops| && Due(Run(Empty<K, V>(capacity, ttl), ops[..n]), ops[n], r)
  }

  lemma {:induction false} ReportsWereDue<K, V>(capacity: int, ttl: int, ops: seq<Op<K, V>>, r: Report<K, V>)
    requires capacity > 0 && r in RunTrace(Begin<K, V>(capacity, ttl), ops).reported
    ensures WasDue(capacity, ttl, ops, r)
    decreases |ops|
  {
    hide Due, AllDue, LeavesOthers, OncePerKey;
    var t0 := Begin<K, V>(capacity, ttl);
    var n := |ops| - 1;
    assert ops != [];
    var init := ops[..n];
    TraceIsRun(t0, init);
    if r in RunTrace(t0, init).reported {
      ReportsWereDue(capacity, ttl, init, r);
      var k :| 0 <= k < |init| && Due(Run(Empty<K, V>(capacity, ttl), init[..k]), init[k], r);
      assert init[..k] == ops[..k] && init[k] == ops[k];
    } else {
      EveryDepartureIsReported<K, V>(capacity, ttl, init, ops[n]);
      DueIfReported(RunTrace(t0, init).cache, ops[n], r);
    }
  }

  lemma DueIfReported<K, V>(c: Cache<K, V>, op: Op<K, V>, r: Report<K, V>)
    requires AllDue(c, op, Step(c, op).reports) && r in Step(c, op).reports
    ensures Due(c, op, r)
  {
  }

  /** Hits and misses add up to the Gets, and the hits are those that found a value; each insertion of a new key is a present entry, an
      eviction, an expiry or an explicit removal; and for every key, the insertions that are not
      present any more were each reported once, with the value and for the reason that were due. */
  lemma BooksBalance<K, V>(capacity: int, ttl: int, ops: seq<Op<K, V>>, key: K)
    requires capacity > 0
    ensures
      var t := RunTrace(Begin<K, V>(capacity, ttl), ops);
      && t.cache.stats.hits + t.cache.stats.misses == t.gets && t.cache.stats.hits == t.hits
      && t.cache.stats.evictions == CountReason(t.reported, Capacity)
      && t.cache.stats.expirations == CountReason(t.reported, Expired)
      && |t.inserted| == |t.cache.entries| + t.cache.stats.evictions + t.cache.stats.expirations + CountReason(t.reported, Removed)
      && (forall r :: r in t.reported ==> WasDue(capacity, ttl, ops, r))
      && Count(t.inserted, key) == (if key in Keys(t.cache.entries) then 1 else 0) + CountKey(t.reported, key)
  {
    var t0 := Begin<K, V>(capacity, ttl);
    BeginIsKept<K, V>(capacity, ttl);
    assert BalancedKey(t0, key);
    RunBalances(t0, ops, key);
    ReasonsAddUp(RunTrace(t0, ops).reported);
    forall r | r in RunTrace(t0, ops).reported ensures WasDue(capacity, ttl, ops, r) {
      ReportsWereDue(capacity, ttl, ops, r);
    }
  }
}
