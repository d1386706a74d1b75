/**
 Keyset pagination over a user's orders: the meaning of the two list queries, the page that
 ListOrders cuts from their result, and what a client collects by following next cursors while
 other orders are being placed.
 */
module OrderPages {
  import opened Basics
  import opened Cursor

  datatype Order = Order(id: int, userId: int, totalCents: int, createdAt: int)

  datatype Page = Page(orders: seq<Order>, next: Option<Position>)

  const DEFAULT_PAGE_SIZE: int := 20
  const MAX_PAGE_SIZE: int := 100

  /** The page size that a client gets for its limit: 20 unless it is positive, and at most 100. */
  ghost predicate SizeIs(limit: int, n: int) {
    && (1 <= limit <= 100 ==> n == limit)
    && (limit <= 0 ==> n == 20)
    && (limit > 100 ==> n == 100)
  }

  function PageSize(limit: int): (n: int)
    ensures SizeIs(limit, n) && 1 <= n
  {
    var l := if limit <= 0 then DEFAULT_PAGE_SIZE else limit;
    if l < MAX_PAGE_SIZE then l else MAX_PAGE_SIZE
  }

  function PositionOf(o: Order): Position {
    Position(o.createdAt, o.id)
  }

  /** (created_at, id) < (created_at, id). */
  predicate Older(a: Position, b: Position) {
    a.micros < b.micros || (a.micros == b.micros && a.id < b.id)
  }

  /** The rows of the orders table: ids are a primary key, and every row is in range. */
  ghost predicate Proper(table: set<Order>) {
    && (forall o :: o in table ==> InRange(PositionOf(o)))
    && (forall o, p :: o in table && p in table && o.id == p.id ==> o == p)
  }

  /** The rows that the WHERE clause selects. */
  ghost function Selected(table: set<Order>, user: int, after: Option<Position>): set<Order> {
    set o | o in table && o.userId == user && (after == None || Older(PositionOf(o), after.value))
  }

  /** Newest first, no row twice. */
  ghost predicate Descending(s: seq<Order>) {
    forall i, j :: 0 <= i < j < |s| ==> Older(PositionOf(s[j]), PositionOf(s[i]))
  }

  lemma NewestExists(rows: set<Order>) returns (o: Order)
    requires Proper(rows) && rows != {}
    ensures o in rows && forall p :: p in rows && p != o ==> Older(PositionOf(p), PositionOf(o))
    decreases |rows|
  {
    o :| o in rows;
    if rows != {o} {
      assert rows - {o} != {} by {
        var p :| p in rows && p != o;
        assert p in rows - {o};
      }
      var q := NewestExists(rows - {o});
      if Older(PositionOf(o), PositionOf(q)) {
        o := q;
      }
    }
  }

  /** ORDER BY created_at DESC, id DESC. */
  ghost function Sorted(rows: set<Order>): (s: seq<Order>)
    requires Proper(rows)
    ensures Descending(s) && (forall o :: o in s <==> o in rows) && |s| == |rows|
    decreases |rows|
  {
    if rows == {} then []
    else
      assert exists o :: IsNewest(rows, o) by {
        var o := NewestExists(rows);
        assert IsNewest(rows, o);
      }
      var o :| IsNewest(rows, o);
      var rest := Sorted(rows - {o});
      Prepend(o, rest);
      [o] + rest
  }

  ghost predicate IsNewest(rows: set<Order>, o: Order) {
    o in rows && forall p :: p in rows && p != o ==> Older(PositionOf(p), PositionOf(o))
  }

  lemma Prepend(o: Order, rest: seq<Order>)
    requires Descending(rest) && forall p :: p in rest ==> Older(PositionOf(p), PositionOf(o))
    ensures Descending([o] + rest)
  {
    var s := [o] + rest;
    forall i, j | 0 <= i < j < |s| ensures Older(PositionOf(s[j]), PositionOf(s[i])) {
      assert s[j] == rest[j - 1] && rest[j - 1] in rest;
      assert i > 0 ==> s[i] == rest[i - 1];
    }
  }

  /** There is only one descending listing of the same rows. */
  lemma {:induction false} DescendingIsUnique(a: seq<Order>, b: seq<Order>)
    requires Descending(a) && Descending(b) && forall o :: o in a <==> o in b
    ensures a == b
    decreases |a|
  {
    if b != [] {
      assert b[0] in b;
    }
    if a != [] {
      assert a[0] in b;
      assert b != [] && b[0] in a;
      var i :| 0 <= i < |b| && b[i] == a[0];
      var j :| 0 <= j < |a| && a[j] == b[0];
      assert i == 0;
      forall o ensures o in a[1..] <==> o in b[1..] {
        TailMember(a, o);
        TailMember(b, o);
      }
      DescendingIsUnique(a[1..], b[1..]);
      assert a == [a[0]] + a[1..] && b == [b[0]] + b[1..];
    }
  }

  lemma TailMember(a: seq<Order>, o: Order)
    requires Descending(a) && a != []
    ensures o in a[1..] <==> o in a && o != a[0]
  {
    if o in a[1..] {
      var i :| 0 <= i < |a[1..]| && a[1..][i] == o;
      assert a[i + 1] == o;
    }
    if o in a && o != a[0] {
      var i :| 0 <= i < |a| && a[i] == o;
      assert a[1..][i - 1] == o;
    }
  }

  ghost function Listing(table: set<Order>, user: int, after: Option<Position>): (s: seq<Order>)
    requires Proper(table)
    ensures Descending(s) && forall o :: o in s <==> o in Selected(table, user, after)
  {
    Sorted(Selected(table, user, after))
  }

  function Min(a: int, b: int): int { if a < b then a else b }

  /** Either query: at most n rows. */
  ghost function Query(table: set<Order>, user: int, after: Option<Position>, n: nat): seq<Order>
    requires Proper(table)
  {
    var s := Listing(table, user, after);
    s[..Min(n, |s|)]
  }

  // ---------- ListOrders ----------

  function First(s: seq<Order>, n: nat): seq<Order> {
    if n < |s| then s[..n] else s
  }

  function PageOf(rows: seq<Order>, size: nat): Page
    requires size > 0
  {
    if |rows| > size then Page(rows[..size], Some(PositionOf(rows[size - 1]))) else Page(rows, None)
  }

  /** The first n rows of a listing, and a cursor at the last of them exactly when there are more. */
  ghost predicate IsPage(s: seq<Order>, n: nat, page: Page) {
    && page.orders == First(s, n)
    && (page.next.Some? <==> |s| > n)
    && (page.next.Some? ==> n > 0 && page.next.value == Position(s[n - 1].createdAt, s[n - 1].id))
  }

  /** `query` answers the SQL query on the table for the given row limit. */
  method ListOrders(
      userExists: bool, ghost table: set<Order>, ghost user: int, ghost after: Option<Position>, query: nat -> seq<Order>, limit: int)
    returns (page: Option<Page>)
    requires Proper(table) && forall n :: query(n) == Query(table, user, after, n)
    ensures page.Some? <==> userExists
    ensures userExists ==> page.value == PageOf(Query(table, user, after, PageSize(limit) + 1), PageSize(limit))
    ensures userExists ==> exists n :: SizeIs(limit, n) && n > 0 && IsPage(Listing(table, user, after), n, page.value)
  {
    hide Listing, Proper, Query, IsPage;
    if !userExists {
      return None;
    }
    var size := limit;
    if size <= 0 {
      size := DEFAULT_PAGE_SIZE;
    }
    if size > MAX_PAGE_SIZE {
      size := MAX_PAGE_SIZE;
    }
    var rows := query(size + 1);
    var next: Option<Position> := None;
    if |rows| > size {
      rows := rows[..size];
      next := Some(PositionOf(rows[|rows| - 1]));
    }
    var orders: seq<Order> := [];
    for i := 0 to |rows|
      invariant orders == rows[..i]
    {
      orders := orders + [rows[i]];
    }
    assert rows[..|rows|] == rows;
    page := Some(Page(orders, next));
    PageIs(table, user, after, size);
    assert size == PageSize(limit);
  }

  lemma PageIs(table: set<Order>, user: int, after: Option<Position>, size: nat)
    requires Proper(table) && size > 0
    ensures IsPage(Listing(table, user, after), size, PageOf(Query(table, user, after, size + 1), size))
  {
    hide Listing, Proper;
    var s := Listing(table, user, after);
    if |s| > size {
      assert s[..size + 1][..size] == s[..size];
    }
  }

  // ---------- following the cursors ----------

  /** What a client collects that asks for one page from each of the tables in turn, and whether it
      reached the last page. The cursor travels as a token. */
  ghost function Collected(tables: seq<set<Order>>, user: int, after: Option<Position>, limit: int): (seq<Order>, bool)
    requires forall i :: 0 <= i < |tables| ==> Proper(tables[i])
    decreases |tables|
  {
    if tables == [] then ([], false)
    else
      var size := PageSize(limit);
      var page := PageOf(Query(tables[0], user, after, size + 1), size);
      if page.next == None then (page.orders, true)
      else
        match Decode(Encode(page.next.value))
        case None => (page.orders, false)
        case Some(position) =>
          var (rest, complete) := Collected(tables[1..], user, Some(position), limit);
          (page.orders + rest, complete)
  }

  lemma RestOfListing(table: set<Order>, user: int, after: Option<Position>, n: nat)
    requires Proper(table) && 0 < n <= |Listing(table, user, after)|
    ensures
      var s := Listing(table, user, after);
      InRange(PositionOf(s[n - 1])) && Listing(table, user, Some(PositionOf(s[n - 1]))) == s[n..]
  {
    hide Sorted, InRange;
    var s := Listing(table, user, after);
    var last := s[n - 1];
    assert last in s;
    Behind(s, n);
    var b := Listing(table, user, Some(PositionOf(last)));
    forall o ensures o in s[n..] <==> o in b {
      assert o in s[n..] <==> o in s && Older(PositionOf(o), PositionOf(last));
      assert o in s <==> o in Selected(table, user, after);
      OlderIsTransitive(o, last, after);
    }
    hide Proper, Listing;
    DescendingIsUnique(b, s[n..]);
  }

  /** A page and what is left behind it. */
  lemma PageSplits(table: set<Order>, user: int, after: Option<Position>, size: nat)
    requires Proper(table) && size > 0
    ensures
      var s := Listing(table, user, after);
      var page := PageOf(Query(table, user, after, size + 1), size);
      if |s| <= size then page == Page(s, None)
      else
        && page.orders == s[..size] && page.next == Some(PositionOf(s[size - 1]))
        && InRange(PositionOf(s[size - 1]))
        && Listing(table, user, page.next) == s[size..]
  {
    hide Listing, Descending, Selected, Proper, Older, InRange;
    var s := Listing(table, user, after);
    if |s| > size {
      assert s[..size + 1][..size] == s[..size];
      RestOfListing(table, user, after, size);
    } else {
      assert s[..|s|] == s;
    }
  }

  lemma OlderIsTransitive(o: Order, last: Order, after: Option<Position>)
    ensures Older(PositionOf(o), PositionOf(last)) && (after == None || Older(PositionOf(last), after.value)) ==>
              after == None || Older(PositionOf(o), after.value)
  {
  }

  /** In a descending listing, the rows behind position n are those older than the one at n - 1. */
  lemma Behind(s: seq<Order>, n: nat)
    requires Descending(s) && 0 < n <= |s|
    ensures Descending(s[n..]) && Descending(s[..n])
    ensures forall o :: o in s[n..] <==> o in s && Older(PositionOf(o), PositionOf(s[n - 1]))
  {
    forall o ensures o in s[n..] <==> o in s && Older(PositionOf(o), PositionOf(s[n - 1])) {
      if o in s[n..] {
        var i :| 0 <= i < |s[n..]| && s[n..][i] == o;
        assert s[n + i] == o;
      }
      if o in s && Older(PositionOf(o), PositionOf(s[n - 1])) {
        var i :| 0 <= i < |s| && s[i] == o;
        assert i >= n;
        assert s[n..][i - n] == o;
      }
    }
  }

  function Repeated(table: set<Order>, k: nat): (ts: seq<set<Order>>)
    ensures |ts| == k && forall i :: 0 <= i < k ==> ts[i] == table
  {
    if k == 0 then [] else [table] + Repeated(table, k - 1)
  }

  /** The rows of k full pages. */
  function Rows(k: nat, size: nat): nat {
    if k == 0 then 0 else size + Rows(k - 1, size)
  }

  lemma {:induction false} RowsIs(k: nat, size: nat)
    ensures Rows(k, size) == k * size
  {
    if k > 0 {
      RowsIs(k - 1, size);
      assert k * size == (k - 1) * size + size;
    }
  }

  lemma FirstTwo(s: seq<Order>, n: nat, m: nat)
    requires n <= |s|
    ensures s[..n] + First(s[n..], m) == First(s, n + m)
  {
  }

  lemma {:induction false} FullPages(table: set<Order>, user: int, after: Option<Position>, limit: int, k: nat)
    requires Proper(table)
    ensures
      var s := Listing(table, user, after);
      var (rows, complete) := Collected(Repeated(table, k), user, after, limit);
      && rows == First(s, Rows(k, PageSize(limit)))
      && (complete <==> k > 0 && Rows(k, PageSize(limit)) >= |s|)
    decreases k
  {
    hide Sorted, Descending, Selected, Proper, Encode, Decode, InRange, Older, PageSize;
    var s := Listing(table, user, after);
    var size := PageSize(limit);
    if k > 0 {
      PageSplits(table, user, after, size);
      assert Repeated(table, k)[1..] == Repeated(table, k - 1);
      if |s| > size {
        var next := PositionOf(s[size - 1]);
        CursorRoundTrip(next);
        FullPages(table, user, Some(next), limit, k - 1);
        FirstTwo(s, size, Rows(k - 1, size));
      }
    }
  }

  /** By creation time and then by id, the latest first. */
  ghost predicate NewestFirst(rows: seq<Order>) {
    forall i, j :: 0 <= i < j < |rows| ==>
      rows[i].createdAt > rows[j].createdAt || (rows[i].createdAt == rows[j].createdAt && rows[i].id > rows[j].id)
  }

  lemma DescendingIsNewestFirst(rows: seq<Order>)
    requires Descending(rows)
    ensures NewestFirst(rows)
  {
    forall i, j | 0 <= i < j < |rows|
      ensures rows[i].createdAt > rows[j].createdAt || (rows[i].createdAt == rows[j].createdAt && rows[i].id > rows[j].id)
    {
      assert Older(PositionOf(rows[j]), PositionOf(rows[i]));
    }
  }

  /** What a listing is: all orders of the user, or those behind the cursor, the newest first. */
  lemma ListingIs(table: set<Order>, user: int, after: Option<Position>)
    requires Proper(table)
    ensures
      var s := Listing(table, user, after);
      && NewestFirst(s)
      && (forall o :: o in s <==>
            o in table && o.userId == user &&
            (after == None || o.createdAt < after.value.micros || (o.createdAt == after.value.micros && o.id < after.value.id)))
  {
    hide Sorted, Proper;
    DescendingIsNewestFirst(Listing(table, user, after));
  }

  /** A table that does not change: k pages are the first k * n orders of the listing for the page size n
      of the limit, each once and in order, and the last page is reached exactly when they are all of them. */
  lemma PagesListEverything(table: set<Order>, user: int, after: Option<Position>, limit: int, k: nat) returns (n: nat)
    requires Proper(table)
    ensures SizeIs(limit, n) && Rows(k, n) == k * n
    ensures
      var s := Listing(table, user, after);
      var (rows, complete) := Collected(Repeated(table, k), user, after, limit);
      && rows == First(s, Rows(k, n))
      && (complete <==> k > 0 && Rows(k, n) >= |s|)
      && (complete && after == None ==> NewestFirst(rows) && forall o :: o in rows <==> o in table && o.userId == user)
  {
    hide Collected, Listing, Proper, Repeated, Rows, NewestFirst;
    n := PageSize(limit);
    FullPages(table, user, after, limit, k);
    ListingIs(table, user, after);
    RowsIs(k, n);
  }

  ghost predicate Growing(tables: seq<set<Order>>) {
    && (forall i :: 0 <= i < |tables| ==> Proper(tables[i]))
    && (forall i :: 0 < i < |tables| ==> tables[i - 1] <= tables[i])
  }

  lemma GrowingTail(tables: seq<set<Order>>)
    requires Growing(tables) && tables != []
    ensures Growing(tables[1..])
    ensures |tables| > 1 ==> tables[0] <= tables[1..][0]
  {
    forall i | 0 < i < |tables[1..]| ensures tables[1..][i - 1] <= tables[1..][i] {
      assert tables[i] <= tables[i + 1];
    }
  }

  ghost predicate BelongsTo(rows: seq<Order>, user: int, after: Option<Position>) {
    forall o :: o in rows ==> o.userId == user && (after == None || Older(PositionOf(o), after.value))
  }

  /** Every order of the user behind the cursor is among the rows. */
  ghost predicate Covers(rows: seq<Order>, table: set<Order>, user: int, after: Option<Position>) {
    forall o :: o in table && o.userId == user && (after == None || Older(PositionOf(o), after.value)) ==> o in rows
  }

  /** Orders may be placed between the pages: still no order is listed twice, everything is in
      order, and a client that reaches the last page has every order that was there at the start. */
  lemma {:induction false} NoGapsNoRepeats(tables: seq<set<Order>>, user: int, after: Option<Position>, limit: int)
    requires Growing(tables)
    ensures
      var (rows, complete) := Collected(tables, user, after, limit);
      && NewestFirst(rows) && Descending(rows)
      && BelongsTo(rows, user, after)
      && (complete ==> tables != [] && Covers(rows, tables[0], user, after))
    decreases |tables|
  {
    hide Sorted, Encode, Decode, Older, InRange, NewestFirst, PageSize;
    var size := PageSize(limit);
    if tables != [] {
      var s := Listing(tables[0], user, after);
      PageSplits(tables[0], user, after, size);
      GrowingTail(tables);
      if |s| > size {
        var next := PositionOf(s[size - 1]);
        CursorRoundTrip(next);
        NoGapsNoRepeats(tables[1..], user, Some(next), limit);
        var (rest, complete) := Collected(tables[1..], user, Some(next), limit);
        JoinPages(s, size, rest);
        JoinBelongs(s, size, rest, user, after);
        if complete {
          JoinCovers(tables[0], tables[1..][0], user, after, s, size, rest);
        }
      }
    }
    DescendingIsNewestFirst(Collected(tables, user, after, limit).0);
  }

  lemma JoinBelongs(s: seq<Order>, n: nat, rest: seq<Order>, user: int, after: Option<Position>)
    requires 0 < n <= |s| && BelongsTo(s, user, after) && BelongsTo(rest, user, Some(PositionOf(s[n - 1])))
    ensures BelongsTo(s[..n] + rest, user, after)
  {
    assert s[n - 1] in s;
    forall o | o in s[..n] + rest ensures o.userId == user && (after == None || Older(PositionOf(o), after.value)) {
      PageMember(s, n, rest, o);
    }
  }

  lemma JoinCovers(first: set<Order>, second: set<Order>, user: int, after: Option<Position>, s: seq<Order>, n: nat, rest: seq<Order>)
    requires first <= second && 0 < n < |s| && Descending(s) && forall o :: o in s <==> o in Selected(first, user, after)
    requires Covers(rest, second, user, Some(PositionOf(s[n - 1])))
    ensures Covers(s[..n] + rest, first, user, after)
  {
    Behind(s, n);
    assert s == s[..n] + s[n..];
    forall o | o in Selected(first, user, after) ensures o in s[..n] + rest {
      if o in s[n..] {
        assert o in Selected(second, user, Some(PositionOf(s[n - 1])));
      }
    }
  }

  lemma PageMember(s: seq<Order>, n: nat, rest: seq<Order>, o: Order)
    requires n <= |s|
    ensures o in s[..n] + rest ==> o in s || o in rest
  {
  }

  lemma JoinPages(s: seq<Order>, n: nat, rest: seq<Order>)
    requires Descending(s) && Descending(rest) && 0 < n <= |s|
    requires forall o :: o in rest ==> Older(PositionOf(o), PositionOf(s[n - 1]))
    ensures Descending(s[..n] + rest)
  {
    var r := s[..n] + rest;
    forall i, j | 0 <= i < j < |r| ensures Older(PositionOf(r[j]), PositionOf(r[i])) {
      if i < n <= j {
        assert r[j] == rest[j - n] && rest[j - n] in rest;
        assert r[i] == s[i];
      } else if n <= i {
        assert r[i] == rest[i - n] && r[j] == rest[j - n];
      }
    }
  }
}
