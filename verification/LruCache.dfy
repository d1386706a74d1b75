/**
 The cache itself: a doubly linked list in recency order and a map from keys to its nodes, updated
 in place. Each method is proved to do what LruModel.Step says to the sequence of entries the list
 stands for; the entries that leave are returned in the order in which they are reported.
 */
module LruCache {
  import opened Basics
  import opened LruModel
  import opened LruInclusion

  class Node<K, V> {
    const key: K
    var value: V
    var expiresAt: int
    var prev: Node?<K, V>
    var next: Node?<K, V>

    constructor (key: K, value: V, expiresAt: int)
      ensures this.key == key && this.value == value && this.expiresAt == expiresAt
    {
      this.key, this.value, this.expiresAt := key, value, expiresAt;
      prev, next := null, null;
    }
  }

  ghost function All<K, V>(nodes: seq<Node<K, V>>): set<Node<K, V>> {
    set n | n in nodes
  }

  ghost predicate IndexedBy<K, V>(order: seq<Node<K, V>>, items: map<K, Node<K, V>>) {
    && (forall i :: 0 <= i < |order| ==> order[i].key in items && items[order[i].key] == order[i])
    && (forall k :: k in items ==> items[k] in order && items[k].key == k)
  }

  /** The nodes hold these entries. */
  ghost predicate Holds<K, V>(nodes: seq<Node<K, V>>, es: seq<Entry<K, V>>)
    reads nodes
  {
    && |es| == |nodes|
    && forall i :: 0 <= i < |es| ==> es[i] == Entry(nodes[i].key, nodes[i].value, nodes[i].expiresAt)
  }

  lemma CutHolds<K, V>(nodes: seq<Node<K, V>>, i: nat, es: seq<Entry<K, V>>)
    requires i < |nodes| && Holds(nodes, es)
    ensures Holds(Cut(nodes, i), Cut(es, i))
  {
    var r := Cut(nodes, i);
    forall j | 0 <= j < |r| ensures Cut(es, i)[j] == Entry(r[j].key, r[j].value, r[j].expiresAt) {
      assert r[j] == if j < i then nodes[j] else nodes[j + 1];
    }
  }

  lemma HeldAt<K, V>(nodes: seq<Node<K, V>>, es: seq<Entry<K, V>>, i: nat)
    requires Holds(nodes, es) && i < |nodes|
    ensures |es| == |nodes| && es[i] == Entry(nodes[i].key, nodes[i].value, nodes[i].expiresAt)
  {
  }

  lemma MovedHolds<K, V>(nodes: seq<Node<K, V>>, i: nat, es: seq<Entry<K, V>>)
    requires i < |nodes| && Holds(nodes, es)
    ensures Holds([nodes[i]] + Cut(nodes, i), [es[i]] + Cut(es, i))
  {
    CutHolds(nodes, i, es);
    FrontHolds(nodes[i], Cut(nodes, i), Cut(es, i));
  }

  lemma FrontHolds<K, V>(n: Node<K, V>, nodes: seq<Node<K, V>>, es: seq<Entry<K, V>>)
    requires Holds(nodes, es)
    ensures Holds([n] + nodes, [Entry(n.key, n.value, n.expiresAt)] + es)
  {
  }

  // ---------- sequences ----------

  function Cut<T>(s: seq<T>, i: nat): (r: seq<T>)
    requires i < |s|
    ensures |r| == |s| - 1
    ensures forall j :: 0 <= j < i ==> r[j] == s[j]
    ensures forall j :: i <= j < |r| ==> r[j] == s[j + 1]
  {
    s[..i] + s[i + 1..]
  }

  lemma CutIsDrop<K, V>(es: seq<Entry<K, V>>, i: nat)
    requires Distinct(es) && i < |es|
    ensures Cut(es, i) == Drop(es, es[i].key) && Find(es, es[i].key) == i
  {
    hide Project, Keys, Distinct;
    LastKeyIs(es, i);
    OnlyAt(es, i);
    var key := es[i].key;
    var a, b := es[..i], es[i + 1..];
    var ks := Keys(es) - {key};
    SplitAt(es, i);
    ProjectConcat(a, [es[i]] + b, ks);
    ProjectConcat([es[i]], b, ks);
    ProjectOne(es[i], ks);
    assert [] + Project(b, ks) == Project(b, ks);
    assert Drop(es, key) == Project(es, ks);
    KeysOf(a, [es[i]] + b);
    KeysOf([es[i]], b);
    ProjectAll(a, ks);
    ProjectAll(b, ks);
  }

  lemma SplitAt<T>(s: seq<T>, i: nat)
    requires i < |s|
    ensures s == s[..i] + ([s[i]] + s[i + 1..])
  {
  }

  lemma ProjectOne<K, V>(e: Entry<K, V>, ks: set<K>)
    requires e.key !in ks
    ensures Project([e], ks) == []
  {
    assert [e][1..] == [];
  }

  lemma OnlyAt<K, V>(es: seq<Entry<K, V>>, i: nat)
    requires Distinct(es) && i < |es|
    ensures es[i].key !in Keys(es[..i]) && es[i].key !in Keys(es[i + 1..])
  {
  }

  lemma LastKeyIs<K, V>(es: seq<Entry<K, V>>, i: nat)
    requires Distinct(es) && i < |es|
    ensures es[i].key in Keys(es) && Find(es, es[i].key) == i
  {
  }

  lemma CutAll<K, V>(nodes: seq<Node<K, V>>, i: nat)
    requires i < |nodes|
    ensures All([nodes[i]] + Cut(nodes, i)) <= All(nodes) && All(Cut(nodes, i)) <= All(nodes)
  {
  }

  // ---------- Step, seen from a position in the list ----------

  lemma GetMisses<K, V>(c: Cache<K, V>, key: K, now: int)
    requires key !in Keys(c.entries)
    ensures Step(c, Get(key, now)) == Outcome(c.(stats := c.stats.(misses := c.stats.misses + 1)), [], None)
    ensures Step(c, Peek(key, now)) == Outcome(c, [], None)
    ensures Step(c, Remove(key)) == Outcome(c, [], None)
  {
  }

  lemma GetFinds<K, V>(c: Cache<K, V>, i: nat, now: int)
    requires Distinct(c.entries) && i < |c.entries|
    ensures
      var e := c.entries[i];
      var rest := Cut(c.entries, i);
      && Step(c, Get(e.key, now)) ==
         (if ExpiredAt(c.ttl, e, now) then
            Outcome(c.(entries := rest, stats := c.stats.(misses := c.stats.misses + 1, expirations := c.stats.expirations + 1)),
                    [Report(e.key, e.value, Expired)], None)
          else Outcome(c.(entries := [e] + rest, stats := c.stats.(hits := c.stats.hits + 1)), [], Some(e.value)))
      && Step(c, Peek(e.key, now)) == Outcome(c, [], if ExpiredAt(c.ttl, e, now) then None else Some(e.value))
      && Step(c, Remove(e.key)) == Outcome(c.(entries := rest), [Report(e.key, e.value, Removed)], None)
  {
    hide Project;
    CutIsDrop(c.entries, i);
  }

  lemma SetReplaces<K, V>(c: Cache<K, V>, i: nat, value: V, now: int, later: int)
    requires Distinct(c.entries) && i < |c.entries|
    ensures
      var key := c.entries[i].key;
      Step(c, Set(key, value, now, later)) ==
      Outcome(c.(entries := [Entry(key, value, if c.ttl > 0 then now + c.ttl else 0)] + Cut(c.entries, i)), [], None)
  {
    hide Project;
    CutIsDrop(c.entries, i);
  }

  lemma SetInserts<K, V>(c: Cache<K, V>, key: K, value: V, now: int, later: int)
    requires key !in Keys(c.entries)
    ensures Step(c, Set(key, value, now, later)) ==
            Insert(c, Entry(key, value, if c.ttl > 0 then now + c.ttl else 0), later)
  {
  }

  function Counted(s: Stats, reason: Reason): Stats {
    match reason
    case Capacity => s.(evictions := s.evictions + 1)
    case Expired => s.(expirations := s.expirations + 1)
    case Removed => s
  }

  /** container/list: `order` is what one sees walking it either way. */
  class List<K, V> {
    var front: Node?<K, V>
    var back: Node?<K, V>
    var size: nat
    ghost var order: seq<Node<K, V>>

    ghost predicate Linked()
      reads this, order
    {
      && size == |order|
      && (forall i, j :: 0 <= i < j < |order| ==> order[i] != order[j])
      && front == (if order == [] then null else order[0])
      && back == (if order == [] then null else order[|order| - 1])
      && (forall i {:trigger order[i].prev} :: 0 <= i < |order| ==> order[i].prev == if i == 0 then null else order[i - 1])
      && (forall i {:trigger order[i].next} :: 0 <= i < |order| ==> order[i].next == if i == |order| - 1 then null else order[i + 1])
    }

    constructor ()
      ensures Linked() && order == [] && size == 0
    {
      front, back, size, order := null, null, 0, [];
    }

    lemma PrevIs(i: nat)
      requires Linked() && i < |order|
      ensures order[i].prev == if i == 0 then null else order[i - 1]
    {
    }

    lemma BackIs()
      requires Linked()
      ensures size == |order| && (back == null <==> order == [])
      ensures back != null ==> back == order[size - 1]
    {
    }

    lemma AllDifferent()
      requires Linked()
      ensures size == |order| && forall a, b :: 0 <= a < b < |order| ==> order[a] != order[b]
    {
    }

    /** container/list's Remove. */
    method Unlink(n: Node<K, V>, ghost i: nat)
      requires Linked() && i < |order| && order[i] == n
      modifies this, All(order)`prev, All(order)`next
      ensures Linked() && order == Cut(old(order), i) && size == |order|
    {
      ghost var was := order;
      assert was[i].prev == n.prev && was[i].next == n.next;
      assert i > 0 ==> was[i - 1] in was;
      assert i + 1 < |was| ==> was[i + 1] in was;
      if n.prev == null {
        front := n.next;
      } else {
        n.prev.next := n.next;
      }
      if n.next == null {
        back := n.prev;
      } else {
        n.next.prev := n.prev;
      }
      size := size - 1;
      order := Cut(order, i);
      forall j {:trigger order[j].prev} | 0 <= j < |order| ensures order[j].prev == if j == 0 then null else order[j - 1] {
        assert order[j] == if j < i then was[j] else was[j + 1];
        ghost var p, q := old(was[j].prev), old(was[j + 1].prev);
      }
      forall j {:trigger order[j].next} | 0 <= j < |order| ensures order[j].next == if j == |order| - 1 then null else order[j + 1] {
        assert order[j] == if j < i then was[j] else was[j + 1];
        ghost var p, q := old(was[j].next), old(was[j + 1].next);
      }
    }

    method PushFront(n: Node<K, V>)
      requires Linked() && n !in order
      modifies this, All(order)`prev, n`prev, n`next
      ensures Linked() && order == [n] + old(order) && size == |order|
    {
      n.prev, n.next := null, front;
      if front == null {
        back := n;
      } else {
        front.prev := n;
      }
      front := n;
      size := size + 1;
      ghost var was := order;
      order := [n] + order;
      forall j {:trigger order[j].prev} | 0 <= j < |order| ensures order[j].prev == if j == 0 then null else order[j - 1] {
        if j > 0 {
          assert order[j] == was[j - 1];
          ghost var p := old(was[j - 1].prev);
        }
      }
      forall j {:trigger order[j].next} | 0 <= j < |order| ensures order[j].next == if j == |order| - 1 then null else order[j + 1] {
        if j > 0 {
          assert order[j] == was[j - 1];
          ghost var p := old(was[j - 1].next);
        }
      }
    }

    method MoveToFront(n: Node<K, V>, ghost i: nat)
      requires Linked() && i < |order| && order[i] == n
      modifies this, All(order)`prev, All(order)`next
      ensures Linked() && order == [n] + Cut(old(order), i) && size == |order|
    {
      Unlink(n, i);
      forall j | 0 <= j < |order| ensures order[j] != n {
        assert order[j] == old(order)[if j < i then j else j + 1];
      }
      PushFront(n);
    }

    /** Unlink and MoveToFront, with what the nodes hold. */
    method RemoveElement(n: Node<K, V>, ghost i: nat, ghost es: seq<Entry<K, V>>)
      requires Linked() && Holds(order, es) && i < |order| && order[i] == n
      modifies this, All(order)`prev, All(order)`next
      ensures Linked() && order == Cut(old(order), i) && size == |order|
      ensures Holds(order, Cut(es, i))
    {
      hide Linked;
      ghost var was := order;
      Unlink(n, i);
      CutHolds(was, i, es);
    }

    method MoveElement(n: Node<K, V>, ghost i: nat, ghost es: seq<Entry<K, V>>)
      requires Linked() && Holds(order, es) && i < |order| && order[i] == n
      modifies this, All(order)`prev, All(order)`next
      ensures Linked() && order == [n] + Cut(old(order), i) && size == |order|
      ensures Holds(order, [es[i]] + Cut(es, i))
    {
      hide Linked;
      ghost var was := order;
      MoveToFront(n, i);
      MovedHolds(was, i, es);
    }

    method PushElement(n: Node<K, V>, ghost es: seq<Entry<K, V>>)
      requires Linked() && Holds(order, es) && n !in order
      modifies this, All(order)`prev, n`prev, n`next
      ensures Linked() && order == [n] + old(order) && size == |order|
      ensures Holds(order, [Entry(n.key, n.value, n.expiresAt)] + es)
      ensures n.value == old(n.value) && n.expiresAt == old(n.expiresAt)
    {
      hide Linked;
      ghost var was := order;
      PushFront(n);
      FrontHolds(n, was, es);
    }
  }

  class LruCache<K(==), V> {
    const capacity: int
    const ttl: int
    const list: List<K, V>
    var items: map<K, Node<K, V>>
    var stats: Stats
    ghost var contents: seq<Entry<K, V>>

    /** The map points exactly to the nodes of the list, and the nodes hold the contents. */
    ghost predicate Coherent()
      reads this, list, list.order
    {
      list.Linked() && IndexedBy(list.order, items) && Holds(list.order, contents)
    }

    ghost predicate Valid()
      reads this, list, list.order
    {
      Coherent() && capacity > 0 && list.size <= capacity
    }

    ghost function Abs(): Cache<K, V>
      reads this
    {
      Cache(capacity, ttl, contents, stats)
    }

    /** New: a capacity that is not positive is refused. */
    static method New(capacity: int, ttl: int) returns (c: LruCache?<K, V>)
      ensures c == null <==> capacity <= 0
      ensures c != null ==> c.Valid() && c.Abs() == Empty(capacity, ttl) && fresh(c) && fresh(c.list)
    {
      if capacity <= 0 {
        return null;
      }
      c := new LruCache(capacity, ttl);
    }

    constructor (capacity: int, ttl: int)
      requires capacity > 0
      ensures Valid() && Abs() == Empty(capacity, ttl) && fresh(list)
    {
      this.capacity, this.ttl := capacity, ttl;
      list := new List();
      items, stats, contents := map[], Stats(0, 0, 0, 0), [];
    }

    lemma AbsIsDistinct()
      requires Coherent()
      ensures Distinct(contents) && |contents| == list.size == |list.order|
      ensures forall k :: k in items <==> k in Keys(contents)
    {
      var order := list.order;
      forall i, j | 0 <= i < j < |contents| ensures contents[i].key != contents[j].key {
        assert order[i] != order[j];
      }
      forall k | k in items ensures k in Keys(contents) {
        var i :| 0 <= i < |order| && order[i] == items[k];
        assert contents[i].key == k;
      }
    }

    lemma Locate(key: K) returns (i: nat)
      requires Coherent() && key in items
      ensures i < |list.order| == |contents| && list.order[i] == items[key]
      ensures contents[i] == Entry(key, items[key].value, items[key].expiresAt)
    {
      i :| 0 <= i < |list.order| && list.order[i] == items[key];
    }

    /** Removes the node from the list and the map, and counts it. */
    method Evict(n: Node<K, V>, ghost i: nat, reason: Reason) returns (report: Report<K, V>)
      requires Coherent() && i < |list.order| && list.order[i] == n
      modifies this, list, All(list.order)`prev, All(list.order)`next
      ensures Coherent() && list.size == old(list.size) - 1
      ensures list.order == Cut(old(list.order), i) && contents == Cut(old(contents), i)
      ensures report == Report(old(contents)[i].key, old(contents)[i].value, reason)
      ensures stats == Counted(old(stats), reason)
    {
      hide List.Linked, IndexedBy, Holds, Counted;
      list.AllDifferent();
      StillIndexed(list.order, items, i);
      HeldAt(list.order, contents, i);
      list.RemoveElement(n, i, contents);
      contents := Cut(contents, i);
      items := items - {n.key};
      stats := Counted(stats, reason);
      report := Report(n.key, n.value, reason);
    }

    /** Moves the node to the front. */
    method Touch(n: Node<K, V>, ghost i: nat)
      requires Coherent() && i < |list.order| && list.order[i] == n
      modifies this`contents, list, All(list.order)`prev, All(list.order)`next
      ensures Coherent() && list.size == old(list.size) && list.order == [n] + Cut(old(list.order), i)
      ensures contents == [old(contents)[i]] + Cut(old(contents), i)
    {
      hide List.Linked, IndexedBy, Holds;
      list.AllDifferent();
      MovedIndexed(list.order, items, i);
      HeldAt(list.order, contents, i);
      list.MoveElement(n, i, contents);
      contents := [contents[i]] + Cut(contents, i);
    }

    method Get(key: K, now: int) returns (found: Option<V>, reports: seq<Report<K, V>>)
      requires Valid()
      modifies this, list, All(list.order)`prev, All(list.order)`next
      ensures Valid() && Outcome(Abs(), reports, found) == Step(old(Abs()), LruModel.Get(key, now))
    {
      hide List.Linked, IndexedBy, Step, Distinct, Keys;
      AbsIsDistinct();
      if key !in items {
        GetMisses(Abs(), key, now);
        stats := stats.(misses := stats.misses + 1);
        return None, [];
      }
      var n := items[key];
      ghost var i := Locate(key);
      GetFinds(Abs(), i, now);
      if ttl > 0 && now >= n.expiresAt {
        stats := stats.(misses := stats.misses + 1);
        var report := Evict(n, i, Expired);
        return None, [report];
      }
      stats := stats.(hits := stats.hits + 1);
      found := Some(n.value);
      Touch(n, i);
      reports := [];
    }

    method Peek(key: K, now: int) returns (found: Option<V>)
      requires Valid()
      ensures Outcome(Abs(), [], found) == Step(Abs(), LruModel.Peek(key, now))
    {
      hide List.Linked, IndexedBy, Step, Distinct, Keys;
      AbsIsDistinct();
      found := None;
      if key in items {
        var n := items[key];
        ghost var i := Locate(key);
        GetFinds(Abs(), i, now);
        if !(ttl > 0 && now >= n.expiresAt) {
          found := Some(n.value);
        }
      } else {
        GetMisses(Abs(), key, now);
      }
    }

    method Remove(key: K) returns (ok: bool, reports: seq<Report<K, V>>)
      requires Valid()
      modifies this, list, All(list.order)`prev, All(list.order)`next
      ensures Valid() && Outcome(Abs(), reports, None) == Step(old(Abs()), LruModel.Remove(key))
      ensures ok <==> key in Keys(old(Abs()).entries)
    {
      hide List.Linked, IndexedBy, Step, Distinct, Keys;
      AbsIsDistinct();
      ok := key in items;
      reports := [];
      if ok {
        var n := items[key];
        ghost var i := Locate(key);
        GetFinds(Abs(), i, 0);
        var report := Evict(n, i, Removed);
        reports := [report];
      } else {
        GetMisses(Abs(), key, 0);
      }
    }

    /** Rewrites an entry in place, or puts a new one in front and lets the oldest one go. */
    method Set(key: K, value: V, now: int, later: int) returns (reports: seq<Report<K, V>>)
      requires Valid()
      modifies this, list, All(list.order)
      ensures Valid() && Outcome(Abs(), reports, None) == Step(old(Abs()), LruModel.Set(key, value, now, later))
      ensures fresh(All(list.order) - old(All(list.order)))
    {
      hide List.Linked, IndexedBy, Step, Distinct, Keys, Insert;
      var expiresAt := if ttl > 0 then now + ttl else 0;
      AbsIsDistinct();
      if key in items {
        var n := items[key];
        ghost var i := Locate(key);
        SetReplaces(Abs(), i, value, now, later);
        Replace(n, i, value, expiresAt);
        reports := [];
      } else {
        SetInserts(Abs(), key, value, now, later);
        var n := new Node(key, value, expiresAt);
        reports := Admit(n, later);
      }
    }

    /** Rewrites a node and moves it to the front. */
    method Replace(n: Node<K, V>, ghost i: nat, value: V, expiresAt: int)
      requires Coherent() && i < |list.order| == |contents| && list.order[i] == n
      modifies this`contents, list, All(list.order)
      ensures Coherent() && list.size == old(list.size) && All(list.order) <= old(All(list.order))
      ensures contents == [Entry(n.key, value, expiresAt)] + Cut(old(contents), i)
    {
      hide List.Linked, IndexedBy, Holds;
      Rewrite(n, i, value, expiresAt);
      Touch(n, i);
      CutAll(old(list.order), i);
      assert Cut(old(contents)[i := Entry(n.key, value, expiresAt)], i) == Cut(old(contents), i);
    }

    method Rewrite(n: Node<K, V>, ghost i: nat, value: V, expiresAt: int)
      requires Coherent() && i < |list.order| && list.order[i] == n
      modifies this`contents, n`value, n`expiresAt
      ensures Coherent() && contents == old(contents)[i := Entry(n.key, value, expiresAt)]
    {
      n.value, n.expiresAt := value, expiresAt;
      contents := contents[i := Entry(n.key, value, expiresAt)];
    }

    /** Puts a new node in front; the oldest one goes if there is no room. */
    method Admit(n: Node<K, V>, later: int) returns (reports: seq<Report<K, V>>)
      requires Valid() && n !in list.order && n.key !in items
      modifies this, list, All(list.order)`prev, All(list.order)`next, n`prev, n`next
      ensures Valid() && Outcome(Abs(), reports, None) == Insert(old(Abs()), Entry(n.key, n.value, n.expiresAt), later)
      ensures All(list.order) <= old(All(list.order)) + {n}
    {
      hide List.Linked, IndexedBy, Holds, Counted;
      list.AllDifferent();
      NewIndexed(list.order, items, n);
      HeldLength(list.order, contents);
      ghost var e := Entry(n.key, n.value, n.expiresAt);
      ghost var es := [e] + contents;
      list.PushElement(n, contents);
      contents := es;
      items := items[n.key := n];
      reports := [];
      if list.size > capacity {
        list.BackIs();
        var oldest := list.back;
        ghost var last := list.size - 1;
        HeldAt(list.order, contents, last);
        InsertEvicts(old(Abs()), e, later);
        CutAll(list.order, last);
        var reason := if ttl > 0 && later >= oldest.expiresAt then Expired else Capacity;
        var report := Evict(oldest, last, reason);
        reports := [report];
      }
    }

    method Purge() returns (reports: seq<Report<K, V>>)
      requires Valid()
      modifies this, list, All(list.order)`prev, All(list.order)`next
      ensures Valid() && Outcome(Abs(), reports, None) == Step(old(Abs()), LruModel.Purge)
    {
      hide List.Linked, IndexedBy, Holds;
      reports := [];
      ghost var es := contents;
      HeldLength(list.order, contents);
      list.AllDifferent();
      assert es[..|es|] == es && es[|es|..] == [];
      while list.back != null
        invariant Coherent() && capacity > 0 && list.size == |contents| <= |es|
        invariant contents == es[..list.size] && stats == old(stats)
        invariant reports == ReportsOf(es[list.size..], Removed)
        invariant list.size <= old(list.size) && All(list.order) <= old(All(list.order))
        decreases list.size
      {
        list.BackIs();
        ghost var last := list.size - 1;
        assert es[last..][1..] == es[last + 1..] && es[last..][0] == es[last];
        CutAll(list.order, last);
        assert Cut(contents, last) == es[..last];
        var report := Evict(list.back, last, Removed);
        reports := reports + [report];
      }
      list.BackIs();
      assert es[0..] == es;
    }

    method DeleteExpired(now: int) returns (removed: nat, reports: seq<Report<K, V>>)
      requires Valid()
      modifies this, list, All(list.order)`prev, All(list.order)`next
      ensures Valid() && Outcome(Abs(), reports, None) == Step(old(Abs()), LruModel.DeleteExpired(now))
      ensures removed == |reports|
    {
      hide List.Linked, IndexedBy, Holds, Project, Keys, Distinct, ReportsOf, Step, LiveKeys;
      AbsIsDistinct();
      if ttl <= 0 {
        NothingExpires(Abs(), now);
        return 0, [];
      }
      removed, reports := Walk(now, LiveKeys(ttl, contents, now), Keys(contents) - LiveKeys(ttl, contents, now));
      WalkEnds(old(Abs()), now, contents, reports);
    }

    /** From the back to the front, keeping the next stop before the node may go. */
    method Walk(now: int, ghost live: set<K>, ghost gone: set<K>) returns (removed: nat, reports: seq<Report<K, V>>)
      requires Coherent() && Distinct(contents) && ttl > 0
      requires live == LiveKeys(ttl, contents, now) && gone == Keys(contents) - live
      modifies this, list, All(list.order)`prev, All(list.order)`next
      ensures Coherent() && list.size <= old(list.size)
      ensures contents == old(contents)[..0] + Project(old(contents)[0..], live)
      ensures reports == ReportsOf(Project(old(contents)[0..], gone), Expired) && removed == |reports|
      ensures stats == old(stats).(expirations := old(stats).expirations + removed)
    {
      hide List.Linked, IndexedBy, Holds, Project, Keys, Distinct, ReportsOf, LiveKeys, Cut;
      removed, reports := 0, [];
      ghost var es := contents;
      ghost var was := list.order;
      ghost var k := |es|;
      list.BackIs();
      HeldLength(was, es);
      WalkBegins(es, live, gone);
      var el := list.back;
      while el != null
        invariant Coherent() && 0 <= k <= |es| == |was| && k <= |list.order| == list.size <= |es|
        invariant el == (if k == 0 then null else was[k - 1])
        invariant list.order[..k] == was[..k] && All(list.order) <= All(was)
        invariant contents == es[..k] + Project(es[k..], live)
        invariant reports == ReportsOf(Project(es[k..], gone), Expired) && removed == |reports|
        invariant stats == old(stats).(expirations := old(stats).expirations + removed)
        decreases k
      {
        ghost var i := k - 1;
        list.PrevIs(i);
        Prefixes(list.order, was, i);
        HeldAt(list.order, contents, i);
        WalkStep(ttl, es, now, i, live, gone);
        var prev := el.prev;
        if now >= el.expiresAt {
          CutWalk(es, i, contents, Project(es[k..], live));
          CutAll(list.order, i);
          var report := Evict(el, i, Expired);
          reports := reports + [report];
          removed := removed + 1;
        } else {
          Extend(es, i, Project(es[k..], live));
        }
        el := prev;
        k := i;
      }
    }
  }

  lemma Prefixes<T>(s: seq<T>, was: seq<T>, i: nat)
    requires i < |s| && i < |was| && s[..i + 1] == was[..i + 1]
    ensures s[i] == was[i] && s[..i] == was[..i] && Cut(s, i)[..i] == was[..i] && |Cut(s, i)| == |s| - 1
    ensures i > 0 ==> s[i - 1] == was[i - 1]
  {
    assert forall j :: 0 <= j <= i ==> s[j] == s[..i + 1][j] && was[j] == was[..i + 1][j];
  }

  lemma Extend<T>(s: seq<T>, i: nat, tail: seq<T>)
    requires i < |s|
    ensures s[..i + 1] + tail == s[..i] + ([s[i]] + tail)
  {
    assert s[..i + 1] == s[..i] + [s[i]];
  }

  lemma NothingExpires<K, V>(c: Cache<K, V>, now: int)
    requires c.ttl <= 0
    ensures Step(c, DeleteExpired(now)) == Outcome(c, [], None)
  {
    var es := c.entries;
    assert LiveKeys(c.ttl, es, now) == Keys(es);
    ProjectAll(es, Keys(es));
    ProjectSize(es, Keys(es));
  }

  lemma WalkBegins<K, V>(es: seq<Entry<K, V>>, live: set<K>, gone: set<K>)
    ensures es == es[..|es|] + Project(es[|es|..], live)
    ensures ReportsOf(Project(es[|es|..], gone), Expired) == []
  {
    assert es[|es|..] == [];
  }

  /** The walk passes entry k. */
  lemma WalkStep<K, V>(ttl: int, es: seq<Entry<K, V>>, now: int, k: nat, live: set<K>, gone: set<K>)
    requires Distinct(es) && k < |es| && live == LiveKeys(ttl, es, now) && gone == Keys(es) - live
    ensures
      var e := es[k];
      var rest := es[k + 1..];
      if ExpiredAt(ttl, e, now) then
        && Project(es[k..], live) == Project(rest, live)
        && ReportsOf(Project(es[k..], gone), Expired) ==
           ReportsOf(Project(rest, gone), Expired) + [Report(e.key, e.value, Expired)]
      else Project(es[k..], live) == [e] + Project(rest, live) && Project(es[k..], gone) == Project(rest, gone)
  {
    var e := es[k];
    assert e in es && e.key in Keys(es);
    LiveMember(ttl, es, now, e);
    assert es[k..][1..] == es[k + 1..] && es[k..][0] == e;
    assert forall s: seq<Entry<K, V>> :: [] + s == s;
    assert ([e] + Project(es[k + 1..], gone))[1..] == Project(es[k + 1..], gone);
  }

  lemma CutWalk<K, V>(es: seq<Entry<K, V>>, k: nat, contents: seq<Entry<K, V>>, tail: seq<Entry<K, V>>)
    requires k < |es| && contents == es[..k + 1] + tail
    ensures Cut(contents, k) == es[..k] + tail
  {
  }

  lemma WalkEnds<K, V>(c: Cache<K, V>, now: int, left: seq<Entry<K, V>>, reports: seq<Report<K, V>>)
    requires
      var live := LiveKeys(c.ttl, c.entries, now);
      && left == c.entries[..0] + Project(c.entries[0..], live)
      && reports == ReportsOf(Project(c.entries[0..], Keys(c.entries) - live), Expired)
    ensures Step(c, DeleteExpired(now)) ==
            Outcome(c.(entries := left, stats := c.stats.(expirations := c.stats.expirations + |reports|)), reports, None)
  {
    var live := LiveKeys(c.ttl, c.entries, now);
    assert c.entries[0..] == c.entries;
    assert [] + Project(c.entries, live) == Project(c.entries, live);
    ReportsLength(Project(c.entries, Keys(c.entries) - live), Expired);
  }

  lemma {:induction false} ReportsLength<K, V>(es: seq<Entry<K, V>>, reason: Reason)
    ensures |ReportsOf(es, reason)| == |es|
  {
    if es != [] {
      ReportsLength(es[1..], reason);
    }
  }

  /** Set on a full cache, from the list's end. */
  lemma InsertEvicts<K, V>(c: Cache<K, V>, e: Entry<K, V>, later: int)
    requires |c.entries| + 1 > c.capacity
    ensures
      var es := [e] + c.entries;
      var oldest := es[|es| - 1];
      var reason := if ExpiredAt(c.ttl, oldest, later) then Expired else Capacity;
      Insert(c, e, later) ==
      Outcome(c.(entries := Cut(es, |es| - 1), stats := Counted(c.stats, reason)), [Report(oldest.key, oldest.value, reason)], None)
  {
    var es := [e] + c.entries;
    assert Cut(es, |es| - 1) == es[..|es| - 1];
  }

  lemma NewIndexed<K, V>(order: seq<Node<K, V>>, items: map<K, Node<K, V>>, n: Node<K, V>)
    requires IndexedBy(order, items) && n.key !in items
    ensures IndexedBy([n] + order, items[n.key := n])
  {
    var r := [n] + order;
    forall j | 0 <= j < |r| ensures r[j].key in items[n.key := n] && items[n.key := n][r[j].key] == r[j] {
      assert j > 0 ==> r[j] == order[j - 1];
    }
  }

  lemma HeldLength<K, V>(nodes: seq<Node<K, V>>, es: seq<Entry<K, V>>)
    requires Holds(nodes, es)
    ensures |es| == |nodes|
  {
  }

  lemma StillIndexed<K, V>(was: seq<Node<K, V>>, items: map<K, Node<K, V>>, i: nat)
    requires i < |was| && IndexedBy(was, items)
    requires forall a, b :: 0 <= a < b < |was| ==> was[a] != was[b]
    ensures IndexedBy(Cut(was, i), items - {was[i].key})
  {
    var order := Cut(was, i);
    forall j | 0 <= j < |order| ensures order[j].key in items && order[j].key != was[i].key && items[order[j].key] == order[j] {
      assert order[j] == was[if j < i then j else j + 1];
    }
    forall k | k in items && k != was[i].key ensures items[k] in order {
      var j :| 0 <= j < |was| && was[j] == items[k];
      assert order[if j < i then j else j - 1] == was[j];
    }
  }

  lemma MovedIndexed<K, V>(was: seq<Node<K, V>>, items: map<K, Node<K, V>>, i: nat)
    requires i < |was| && IndexedBy(was, items)
    ensures IndexedBy([was[i]] + Cut(was, i), items)
  {
    var order := [was[i]] + Cut(was, i);
    forall j | 0 <= j < |order| ensures order[j].key in items && items[order[j].key] == order[j] {
      assert order[j] == was[if j == 0 then i else if j - 1 < i then j - 1 else j];
    }
    forall k | k in items ensures items[k] in order {
      var j :| 0 <= j < |was| && was[j] == items[k];
      assert order[if j == i then 0 else if j < i then j + 1 else j] == was[j];
    }
  }
}
