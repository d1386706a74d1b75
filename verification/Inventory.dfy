/**
 Stock levels and reservations: all lines of a request move or none do, a repeated request gets the
 original reservation back, and the books agree with the stored reservations in every run.
 */
module Inventory {
  import opened Basics

  type Text = seq<byte>

  datatype Item = Item(sku: Text, name: Text, available: Int64, reserved: Int64)

  datatype Line = Line(sku: Text, quantity: Int64)

  datatype Reservation = Reservation(id: Text, lines: seq<Line>, createdAt: int)

  datatype Error =
    | InvalidReservation
    | Cancelled
    | Conflict
    | NotFound(sku: Text)
    | InsufficientStock(sku: Text, requested: Int64, available: Int64)

  datatype Answer = Reserved(reservation: Reservation) | Failed(error: Error)

  const MAX_ID: int := 128
  const MAX_LINES: int := 100

  // ---------- the order of SKUs ----------

  /** strings.Compare(a, b) < 0. */
  predicate Before(a: Text, b: Text) {
    b != [] && (a == [] || a[0] < b[0] || (a[0] == b[0] && Before(a[1..], b[1..])))
  }

  lemma {:induction false} BeforeIsTotal(a: Text, b: Text)
    ensures Before(a, b) || a == b || Before(b, a)
    ensures !(Before(a, b) && (a == b || Before(b, a)))
  {
    if a != [] && b != [] {
      BeforeIsTotal(a[1..], b[1..]);
      assert a == [a[0]] + a[1..] && b == [b[0]] + b[1..];
    }
  }

  lemma {:induction false} BeforeIsTransitive(a: Text, b: Text, c: Text)
    requires Before(a, b) && Before(b, c)
    ensures Before(a, c)
  {
    if a != [] && a[0] == b[0] == c[0] {
      BeforeIsTransitive(a[1..], b[1..], c[1..]);
    }
  }

  /** The order of the bytes at the first difference, and a prefix before what it is a prefix of. */
  ghost predicate FirstDifference(a: Text, b: Text, i: nat) {
    && i <= |a| && i < |b| && a[..i] == b[..i]
    && (i == |a| || a[i] < b[i])
  }

  lemma SameHeads(a: Text, b: Text, i: nat)
    requires FirstDifference(a, b, i)
    ensures i == 0 || (a != [] && b != [] && a[0] == b[0])
  {
    if i > 0 {
      assert a[..i][0] == b[..i][0];
    }
  }

  lemma {:induction false} BeforeIsLexicographic(a: Text, b: Text)
    ensures Before(a, b) <==> exists i: nat :: FirstDifference(a, b, i)
  {
    if a == [] || b == [] || a[0] != b[0] {
      if i: nat :| FirstDifference(a, b, i) {
        SameHeads(a, b, i);
      }
      if Before(a, b) {
        assert FirstDifference(a, b, 0);
      }
    } else {
      BeforeIsLexicographic(a[1..], b[1..]);
      if i: nat :| FirstDifference(a, b, i) {
        assert i > 0;
        assert a[1..][..i - 1] == a[..i][1..] && b[1..][..i - 1] == b[..i][1..];
        assert FirstDifference(a[1..], b[1..], i - 1);
      }
      if i: nat :| FirstDifference(a[1..], b[1..], i) {
        assert a[..i + 1] == [a[0]] + a[1..][..i] && b[..i + 1] == [b[0]] + b[1..][..i];
        assert FirstDifference(a, b, i + 1);
      }
    }
  }

  ghost predicate Ascending(s: seq<Line>) {
    forall i, j :: 0 <= i < j < |s| ==> !Before(s[j].sku, s[i].sku)
  }

  ghost predicate Distinct(s: seq<Line>) {
    forall i, j :: 0 <= i < j < |s| ==> s[i].sku != s[j].sku
  }

  // ---------- sorting ----------

  function Insert(s: seq<Line>, x: Line): seq<Line> {
    var n := |s|;
    if n == 0 || !Before(x.sku, s[n - 1].sku) then s + [x] else Insert(s[..n - 1], x) + [s[n - 1]]
  }

  function Sorted(lines: seq<Line>): seq<Line> {
    var n := |lines|;
    if n == 0 then [] else Insert(Sorted(lines[..n - 1]), lines[n - 1])
  }

  lemma {:induction false} InsertIsSorted(s: seq<Line>, x: Line)
    requires Ascending(s)
    ensures Ascending(Insert(s, x)) && multiset(Insert(s, x)) == multiset(s) + multiset{x}
  {
    hide Before;
    var n := |s|;
    if n == 0 || !Before(x.sku, s[n - 1].sku) {
      forall i | 0 <= i < n ensures !Before(x.sku, s[i].sku) {
        BeforeIsTotal(s[i].sku, s[i].sku);
        NotBeforeIsTransitive(s[i].sku, s[n - 1].sku, x.sku);
      }
    } else {
      var front := s[..n - 1];
      assert s == front + [s[n - 1]];
      InsertIsSorted(front, x);
      var r := Insert(front, x);
      BeforeIsTotal(x.sku, s[n - 1].sku);
      forall i | 0 <= i < |r| ensures !Before(s[n - 1].sku, r[i].sku) {
        assert r[i] in multiset(r);
        assert r[i] == x || r[i] in front;
      }
    }
  }

  lemma NotBeforeIsTransitive(a: Text, b: Text, c: Text)
    requires !Before(b, a) && !Before(c, b)
    ensures !Before(c, a)
  {
    BeforeIsTotal(a, b);
    BeforeIsTotal(b, c);
    if Before(c, a) {
      if a != b && b != c {
        BeforeIsTransitive(c, a, b);
      }
    }
  }

  lemma {:induction false} SortedIsSorted(lines: seq<Line>)
    ensures Ascending(Sorted(lines)) && multiset(Sorted(lines)) == multiset(lines)
  {
    var n := |lines|;
    if n > 0 {
      SortedIsSorted(lines[..n - 1]);
      InsertIsSorted(Sorted(lines[..n - 1]), lines[n - 1]);
      assert lines == lines[..n - 1] + [lines[n - 1]];
    }
  }

  /** Lines with distinct SKUs have only one ascending order. */
  lemma {:induction false} AscendingIsUnique(a: seq<Line>, b: seq<Line>)
    requires Ascending(a) && Ascending(b) && Distinct(a) && multiset(a) == multiset(b)
    ensures a == b
  {
    hide Ascending, Distinct;
    assert |multiset(a)| == |a| && |multiset(b)| == |b|;
    var n := |a|;
    if n > 0 {
      LastIsTheSame(a, b);
      Front(a);
      Front(b);
      AscendingIsUnique(a[..n - 1], b[..n - 1]);
      assert a == a[..n - 1] + [a[n - 1]] && b == b[..n - 1] + [b[n - 1]];
    }
  }

  lemma Front(a: seq<Line>)
    requires Ascending(a) && a != []
    ensures
      var n := |a| - 1;
      && Ascending(a[..n]) && (Distinct(a) ==> Distinct(a[..n]))
      && multiset(a[..n]) == multiset(a) - multiset{a[n]}
  {
    hide Before;
    assert a == a[..|a| - 1] + [a[|a| - 1]];
  }

  lemma LastIsTheSame(a: seq<Line>, b: seq<Line>)
    requires Ascending(a) && Ascending(b) && Distinct(a) && multiset(a) == multiset(b) && |a| == |b| > 0
    ensures a[|a| - 1] == b[|a| - 1]
  {
    hide Before;
    var n := |a|;
    var x, y := a[n - 1], b[n - 1];
    assert x in multiset(b) && y in multiset(a);
    var i :| 0 <= i < n && b[i] == x;
    var j :| 0 <= j < n && a[j] == y;
    BeforeIsTotal(x.sku, x.sku);
    BeforeIsTotal(y.sku, y.sku);
    BeforeIsTotal(x.sku, y.sku);
    assert x.sku == y.sku;
  }

  lemma DistinctIsOrderless(a: seq<Line>, b: seq<Line>)
    requires multiset(a) == multiset(b) && Distinct(a)
    ensures Distinct(b)
  {
    forall i, j | 0 <= i < j < |b| ensures b[i].sku != b[j].sku {
      var x, y := b[i], b[j];
      assert x in multiset(b) && y in multiset(b);
      assert x in multiset(a) && y in multiset(a);
      if x == y {
        assert b == b[..j] + b[j..];
        assert x in b[..j] && x in b[j..];
        assert multiset(b)[x] >= 2;
        Once(a, x);
      }
    }
  }

  lemma Once(a: seq<Line>, x: Line)
    requires Distinct(a) && x in a
    ensures multiset(a)[x] == 1
  {
    var i :| 0 <= i < |a| && a[i] == x;
    assert a == a[..i] + [x] + a[i + 1..];
    assert x !in a[..i] && x !in a[i + 1..];
  }

  // ---------- normalize ----------

  ghost predicate Positive(lines: seq<Line>) {
    forall i :: 0 <= i < |lines| ==> lines[i].sku != [] && lines[i].quantity > 0
  }

  /** What a well-formed request is, whatever the order of its lines. */
  ghost predicate Acceptable(id: Text, lines: seq<Line>) {
    0 < |id| <= MAX_ID && 0 < |lines| <= MAX_LINES && Positive(lines) && Distinct(lines)
  }

  lemma PositiveIsOrderless(a: seq<Line>, b: seq<Line>)
    requires multiset(a) == multiset(b) && Positive(a)
    ensures Positive(b)
  {
    forall i | 0 <= i < |b| ensures b[i].sku != [] && b[i].quantity > 0 {
      assert b[i] in multiset(b);
      assert b[i] in a;
    }
  }

  lemma AcceptableIsOrderless(id: Text, a: seq<Line>, b: seq<Line>)
    requires multiset(a) == multiset(b)
    ensures Acceptable(id, a) <==> Acceptable(id, b)
  {
    assert |a| == |multiset(a)| == |b|;
    if Acceptable(id, a) {
      PositiveIsOrderless(a, b);
      DistinctIsOrderless(a, b);
    }
    if Acceptable(id, b) {
      PositiveIsOrderless(b, a);
      DistinctIsOrderless(b, a);
    }
  }

  /** Any two orders of well-formed lines normalize alike, and different lines never do. */
  lemma NormalFormIsCanonical(id: Text, a: seq<Line>, b: seq<Line>)
    requires Acceptable(id, a)
    ensures Sorted(a) == Sorted(b) <==> multiset(a) == multiset(b)
  {
    SortedIsSorted(a);
    SortedIsSorted(b);
    if multiset(a) == multiset(b) {
      DistinctIsOrderless(a, Sorted(a));
      AscendingIsUnique(Sorted(a), Sorted(b));
    }
  }

  /** slices.SortFunc, of which only this is promised: the order of equal SKUs is not. */
  method SortLines(lines: seq<Line>) returns (sorted: seq<Line>)
    ensures Ascending(sorted) && multiset(sorted) == multiset(lines)
  {
    SortedIsSorted(lines);
    sorted := Sorted(lines);
  }

  lemma NeighboursSuffice(s: seq<Line>)
    requires Ascending(s) && forall i :: 0 < i < |s| ==> s[i - 1].sku != s[i].sku
    ensures Distinct(s)
  {
    forall i, j | 0 <= i < j < |s| ensures s[i].sku != s[j].sku {
      BeforeIsTotal(s[i].sku, s[i + 1].sku);
      assert s[i + 1 - 1].sku != s[i + 1].sku;
      if j > i + 1 {
        assert !Before(s[j].sku, s[i + 1].sku);
      }
    }
  }

  method Normalize(id: Text, lines: seq<Line>) returns (r: Option<seq<Line>>)
    ensures r == if Acceptable(id, lines) then Some(Sorted(lines)) else None
  {
    if id == [] || |id| > MAX_ID || |lines| == 0 || |lines| > MAX_LINES {
      return None;
    }
    var sorted := SortLines(lines);
    AcceptableIsOrderless(id, lines, sorted);
    for i := 0 to |sorted|
      invariant forall j :: 0 <= j < i ==> sorted[j].sku != [] && sorted[j].quantity > 0
      invariant forall j :: 0 < j < i ==> sorted[j - 1].sku != sorted[j].sku
    {
      if sorted[i].sku == [] || sorted[i].quantity <= 0 || (i > 0 && sorted[i - 1].sku == sorted[i].sku) {
        return None;
      }
    }
    assert |sorted| == |multiset(sorted)| == |lines|;
    NeighboursSuffice(sorted);
    SortedIsSorted(lines);
    AscendingIsUnique(sorted, Sorted(lines));
    r := Some(sorted);
  }

  // ---------- what a request asks for ----------

  /** The quantity of a SKU in a request. */
  function Quantity(lines: seq<Line>, sku: Text): int {
    var n := |lines|;
    if n == 0 then 0
    else Quantity(lines[..n - 1], sku) + (if lines[n - 1].sku == sku then lines[n - 1].quantity else 0)
  }

  lemma {:induction false} QuantityOfInsert(s: seq<Line>, x: Line, sku: Text)
    ensures Quantity(Insert(s, x), sku) == Quantity(s, sku) + (if x.sku == sku then x.quantity else 0)
  {
    var n := |s|;
    if n == 0 || !Before(x.sku, s[n - 1].sku) {
      assert (s + [x])[..n] == s;
    } else {
      QuantityOfInsert(s[..n - 1], x, sku);
      var r := Insert(s[..n - 1], x);
      assert (r + [s[n - 1]])[..|r|] == r;
    }
  }

  lemma {:induction false} QuantityOfSorted(lines: seq<Line>, sku: Text)
    ensures Quantity(Sorted(lines), sku) == Quantity(lines, sku)
  {
    var n := |lines|;
    if n > 0 {
      QuantityOfSorted(lines[..n - 1], sku);
      QuantityOfInsert(Sorted(lines[..n - 1]), lines[n - 1], sku);
    }
  }

  lemma {:induction false} QuantityAbsent(lines: seq<Line>, sku: Text)
    requires forall i :: 0 <= i < |lines| ==> lines[i].sku != sku
    ensures Quantity(lines, sku) == 0
  {
    if lines != [] {
      QuantityAbsent(lines[..|lines| - 1], sku);
    }
  }

  lemma {:induction false} QuantityPresent(lines: seq<Line>, i: nat)
    requires Distinct(lines) && i < |lines|
    ensures Quantity(lines, lines[i].sku) == lines[i].quantity
  {
    var n := |lines|;
    if i == n - 1 {
      QuantityAbsent(lines[..n - 1], lines[i].sku);
    } else {
      QuantityPresent(lines[..n - 1], i);
    }
  }

  lemma {:induction false} QuantityIsNatural(lines: seq<Line>, sku: Text)
    requires Positive(lines)
    ensures Quantity(lines, sku) >= 0
  {
    if lines != [] {
      QuantityIsNatural(lines[..|lines| - 1], sku);
    }
  }

  // ---------- the store ----------

  type Items = map<Text, Item>
  type Reservations = map<Text, Reservation>

  /** What stands in the way of one line. */
  function Obstacle(items: Items, line: Line): Option<Error> {
    if line.sku !in items then Some(NotFound(line.sku))
    else if items[line.sku].available < line.quantity then
      Some(InsufficientStock(line.sku, line.quantity, items[line.sku].available))
    else None
  }

  /** The first line that cannot be met decides. */
  function FirstObstacle(items: Items, lines: seq<Line>): Option<Error> {
    if lines == [] then None
    else if Obstacle(items, lines[0]) != None then Obstacle(items, lines[0])
    else FirstObstacle(items, lines[1..])
  }

  function Less(item: Item, quantity: int): Item {
    item.(available := Wrap(item.available - quantity), reserved := Wrap(item.reserved + quantity))
  }

  /** Every SKU less what the lines ask of it. */
  ghost function Taken(items: Items, lines: seq<Line>): Items {
    map k | k in items :: Less(items[k], Quantity(lines, k))
  }

  datatype State = State(items: Items, reservations: Reservations)

  datatype Request = Request(cancelled: bool, id: Text, lines: seq<Line>, now: int)

  ghost function Serve(s: State, q: Request): (State, Answer) {
    if !Acceptable(q.id, q.lines) then (s, Failed(InvalidReservation))
    else if q.cancelled then (s, Failed(Cancelled))
    else if q.id in s.reservations then
      (s, if s.reservations[q.id].lines == Sorted(q.lines) then Reserved(s.reservations[q.id]) else Failed(Conflict))
    else
      var obstacle := FirstObstacle(s.items, Sorted(q.lines));
      if obstacle != None then (s, Failed(obstacle.value))
      else
        var r := Reservation(q.id, Sorted(q.lines), q.now);
        (State(Taken(s.items, q.lines), s.reservations[q.id := r]), Reserved(r))
  }

  /** The state after a sequence of requests. */
  ghost function Run(s: State, requests: seq<Request>): State
    decreases |requests|
  {
    if requests == [] then s else Run(Serve(s, requests[0]).0, requests[1..])
  }

  /** Items as a store is created with. */
  ghost predicate Loadable(items: seq<Item>) {
    && (forall i :: 0 <= i < |items| ==> items[i].sku != [] && items[i].available >= 0 && items[i].reserved >= 0)
    && (forall i, j :: 0 <= i < j < |items| ==> items[i].sku != items[j].sku)
  }

  ghost predicate Stocked(items: Items) {
    forall k :: k in items ==> k != [] && items[k].sku == k && items[k].available >= 0 && items[k].reserved >= 0
  }

  ghost predicate Loaded(m: Items, items: seq<Item>) {
    && (forall i :: 0 <= i < |items| ==> items[i].sku in m && m[items[i].sku] == items[i])
    && (forall k :: k in m ==> exists i :: 0 <= i < |items| && items[i].sku == k)
  }

  lemma NothingLoaded()
    ensures Loaded(map[], []) && Stocked(map[]) && Loadable([])
  {
  }

  lemma LoadOneMore(m: Items, items: seq<Item>, x: Item)
    requires Loaded(m, items) && Stocked(m) && Loadable(items)
    requires x.sku != [] && x.available >= 0 && x.reserved >= 0 && x.sku !in m
    ensures Loaded(m[x.sku := x], items + [x]) && Stocked(m[x.sku := x]) && Loadable(items + [x])
  {
    var more, next := items + [x], m[x.sku := x];
    forall k | k in next ensures exists i :: 0 <= i < |more| && more[i].sku == k {
      if k == x.sku {
        assert more[|items|].sku == k;
      } else {
        var i :| 0 <= i < |items| && items[i].sku == k;
        assert more[i].sku == k;
      }
    }
  }

  lemma Unloadable(m: Items, items: seq<Item>, i: nat)
    requires i < |items| && Loaded(m, items[..i])
    requires items[i].sku == [] || items[i].available < 0 || items[i].reserved < 0 || items[i].sku in m
    ensures !Loadable(items)
  {
  }

  class Store {
    var items: Items
    var reservations: Reservations

    ghost function Contents(): State
      reads this
    {
      State(items, reservations)
    }

    constructor (items: Items)
      ensures Contents() == State(items, map[])
    {
      this.items, reservations := items, map[];
    }

    /** Either every item is loaded under its SKU, or some item is unfit and there is no store. */
    static method New(items: seq<Item>) returns (s: Store?)
      ensures s != null <==> Loadable(items)
      ensures s != null ==> fresh(s) && Loaded(s.items, items) && Stocked(s.items) && s.reservations == map[]
    {
      hide Stocked, Loaded, Loadable;
      var bySku: Items := map[];
      NothingLoaded();
      for i := 0 to |items|
        invariant Loaded(bySku, items[..i]) && Stocked(bySku)
        invariant Loadable(items[..i])
      {
        if items[i].sku == [] || items[i].available < 0 || items[i].reserved < 0 || items[i].sku in bySku {
          Unloadable(bySku, items, i);
          return null;
        }
        assert items[..i + 1] == items[..i] + [items[i]];
        LoadOneMore(bySku, items[..i], items[i]);
        bySku := bySku[items[i].sku := items[i]];
      }
      assert items[..|items|] == items;
      s := new Store(bySku);
    }

    method Reserve(cancelled: bool, id: Text, lines: seq<Line>, now: int) returns (r: Answer)
      modifies this
      ensures (Contents(), r) == Serve(old(Contents()), Request(cancelled, id, lines, now))
    {
      hide Sorted, Acceptable, Wrap, Quantity, Taken, Before, Insert;
      var normal := Normalize(id, lines);
      if normal == None {
        return Failed(InvalidReservation);
      }
      if cancelled {
        return Failed(Cancelled);
      }
      if id in reservations {
        if reservations[id].lines != normal.value {
          return Failed(Conflict);
        }
        return Reserved(reservations[id]);
      }
      var sorted := normal.value;
      for i := 0 to |sorted|
        invariant items == old(items) && reservations == old(reservations)
        invariant FirstObstacle(items, sorted) == FirstObstacle(items, sorted[i..])
        invariant forall j :: 0 <= j < i ==> sorted[j].sku in items
      {
        assert sorted[i..][1..] == sorted[i + 1..];
        if sorted[i].sku !in items {
          return Failed(NotFound(sorted[i].sku));
        }
        var item := items[sorted[i].sku];
        if item.available < sorted[i].quantity {
          return Failed(InsufficientStock(sorted[i].sku, sorted[i].quantity, item.available));
        }
      }
      TakenNothing(items);
      for i := 0 to |sorted|
        invariant items.Keys == old(items).Keys && reservations == old(reservations)
        invariant items == Taken(old(items), sorted[..i])
      {
        var item := items[sorted[i].sku];
        items := items[sorted[i].sku :=
          item.(available := Wrap(item.available - sorted[i].quantity), reserved := Wrap(item.reserved + sorted[i].quantity))];
        assert sorted[..i + 1][..i] == sorted[..i];
        TakenOneMore(old(items), sorted[..i + 1]);
      }
      assert sorted[..|sorted|] == sorted;
      TakenSorted(old(items), lines);
      var made := Reservation(id, sorted, now);
      reservations := reservations[id := made];
      r := Reserved(made);
    }
  }

  lemma TakenNothing(items: Items)
    ensures Taken(items, []) == items
  {
    forall k | k in items ensures Less(items[k], 0) == items[k] {
    }
  }

  lemma TakenOneMore(items: Items, lines: seq<Line>)
    requires lines != [] && lines[|lines| - 1].sku in items
    ensures
      var x := lines[|lines| - 1];
      var t := Taken(items, lines[..|lines| - 1]);
      Taken(items, lines) == t[x.sku := Less(t[x.sku], x.quantity)]
  {
    hide Less;
    var x := lines[|lines| - 1];
    LessTwice(items[x.sku], Quantity(lines[..|lines| - 1], x.sku), x.quantity);
  }

  lemma LessTwice(item: Item, p: int, q: int)
    ensures Less(Less(item, p), q) == Less(item, p + q)
  {
    hide Wrap;
    WrapTwice(item.available - p, 0 - q);
    WrapTwice(item.reserved + p, q);
    assert item.available - (p + q) == item.available - p + (0 - q);
  }

  lemma TakenSorted(items: Items, lines: seq<Line>)
    ensures Taken(items, Sorted(lines)) == Taken(items, lines)
  {
    forall k | k in items ensures Quantity(Sorted(lines), k) == Quantity(lines, k) {
      QuantityOfSorted(lines, k);
    }
  }

  // ---------- all lines or none ----------

  lemma {:induction false} NoObstacle(items: Items, lines: seq<Line>)
    ensures FirstObstacle(items, lines) == None <==> forall i :: 0 <= i < |lines| ==> Obstacle(items, lines[i]) == None
  {
    if lines != [] {
      NoObstacle(items, lines[1..]);
      assert forall i :: 0 <= i < |lines| - 1 ==> lines[1..][i] == lines[i + 1];
      assert forall i :: 0 < i < |lines| ==> lines[i] == lines[1..][i - 1];
    }
  }

  /** Every line can be met from the stock. */
  ghost predicate Fits(items: Items, lines: seq<Line>) {
    forall i :: 0 <= i < |lines| ==> lines[i].sku in items && lines[i].quantity <= items[lines[i].sku].available
  }

  lemma FitsIsOrderless(items: Items, a: seq<Line>, b: seq<Line>)
    requires multiset(a) == multiset(b) && Fits(items, a)
    ensures Fits(items, b)
  {
    forall i | 0 <= i < |b| ensures b[i].sku in items && b[i].quantity <= items[b[i].sku].available {
      assert b[i] in multiset(b);
      assert b[i] in a;
    }
  }

  lemma NoObstacleFits(items: Items, lines: seq<Line>)
    ensures (forall i :: 0 <= i < |lines| ==> Obstacle(items, lines[i]) == None) <==> Fits(items, lines)
  {
    forall i | 0 <= i < |lines|
      ensures Obstacle(items, lines[i]) == None <==> lines[i].sku in items && lines[i].quantity <= items[lines[i].sku].available
    {
    }
  }

  /** A new id is granted exactly when the request is well formed and all its lines fit, in any
      order; a refusal, for whatever reason, leaves everything as it was. */
  lemma AllOrNone(s: State, q: Request)
    ensures q.id !in s.reservations ==>
              (Serve(s, q).1.Reserved? <==> Acceptable(q.id, q.lines) && !q.cancelled && Fits(s.items, q.lines))
    ensures Serve(s, q).1.Failed? ==> Serve(s, q).0 == s
  {
    hide Acceptable, Ascending, Sorted, Taken;
    var sorted := Sorted(q.lines);
    SortedIsSorted(q.lines);
    NoObstacle(s.items, sorted);
    NoObstacleFits(s.items, sorted);
    hide FirstObstacle, Fits;
    if Fits(s.items, sorted) {
      FitsIsOrderless(s.items, sorted, q.lines);
    }
    if Fits(s.items, q.lines) {
      FitsIsOrderless(s.items, q.lines, sorted);
    }
  }

  // ---------- what is answered ----------

  /** What a grant says and moves: the lines of the request in the order of their SKUs, the instant,
      and from each SKU exactly what the request asks of it. */
  lemma GrantIs(s: State, q: Request)
    requires q.id !in s.reservations && Serve(s, q).1.Reserved? && Stocked(s.items)
    ensures
      var (t, a) := Serve(s, q);
      && a.reservation.id == q.id && a.reservation.createdAt == q.now
      && Ascending(a.reservation.lines) && multiset(a.reservation.lines) == multiset(q.lines)
      && t.reservations == s.reservations[q.id := a.reservation]
      && t.items.Keys == s.items.Keys
      && forall k :: k in s.items ==>
           && t.items[k].sku == s.items[k].sku && t.items[k].name == s.items[k].name
           && t.items[k].available == s.items[k].available - Quantity(q.lines, k) >= 0
           && t.items[k].reserved == Wrap(s.items[k].reserved + Quantity(q.lines, k))
  {
    hide Acceptable, FirstObstacle, Sorted, Ascending, Wrap, Quantity;
    SortedIsSorted(q.lines);
    AllOrNone(s, q);
    forall k | k in s.items ensures Wrap(s.items[k].available - Quantity(q.lines, k)) == s.items[k].available - Quantity(q.lines, k) >= 0 {
      AcceptedFits(s, q, k);
      WrapIsRight(s.items[k].available - Quantity(q.lines, k));
    }
  }

  lemma AcceptedFits(s: State, q: Request, k: Text)
    requires Acceptable(q.id, q.lines) && Fits(s.items, q.lines) && k in s.items && Stocked(s.items)
    ensures 0 <= Quantity(q.lines, k) <= s.items[k].available
    ensures FitsInt64(s.items[k].available - Quantity(q.lines, k))
  {
    FitsLeavesEnough(s.items, q.lines, k);
    assert FitsInt64(s.items[k].available);
  }

  /** When a request is malformed: the rules of the service, in the source's numbers. */
  lemma InvalidExactly(s: State, q: Request)
    ensures Serve(s, q).1 == Failed(InvalidReservation) <==>
              || |q.id| == 0 || |q.id| > 128 || |q.lines| == 0 || |q.lines| > 100
              || (exists i :: 0 <= i < |q.lines| && (q.lines[i].sku == [] || q.lines[i].quantity <= 0))
              || (exists i, j :: 0 <= i < j < |q.lines| && q.lines[i].sku == q.lines[j].sku)
  {
    hide Sorted, Taken;
    FirstObstacleIs(s.items, Sorted(q.lines));
  }

  /** A well-formed request fails because it was cancelled, or because its id is taken by other lines. */
  lemma ConflictExactly(s: State, q: Request)
    requires Acceptable(q.id, q.lines) && Records(s.reservations)
    ensures Serve(s, q).1 == Failed(Cancelled) <==> q.cancelled
    ensures Serve(s, q).1 == Failed(Conflict) <==>
              !q.cancelled && q.id in s.reservations && multiset(s.reservations[q.id].lines) != multiset(q.lines)
  {
    if q.id in s.reservations {
      StoredLines(s.reservations[q.id].lines, q);
    }
    hide Sorted, Taken, Acceptable, Records;
    FirstObstacleIs(s.items, Sorted(q.lines));
  }

  lemma StoredLines(lines: seq<Line>, q: Request)
    requires Ascending(lines) && Acceptable(q.id, lines)
    ensures lines == Sorted(q.lines) <==> multiset(lines) == multiset(q.lines)
  {
    hide Before;
    SortedIsSorted(q.lines);
    if multiset(lines) == multiset(q.lines) {
      AscendingIsUnique(lines, Sorted(q.lines));
    }
  }

  ghost predicate Unmet(items: Items, line: Line) {
    line.sku !in items || items[line.sku].available < line.quantity
  }

  lemma {:induction false} FirstObstacleIs(items: Items, lines: seq<Line>)
    ensures
      var o := FirstObstacle(items, lines);
      if o == None then forall i :: 0 <= i < |lines| ==> !Unmet(items, lines[i])
      else
        && (o.value.NotFound? || o.value.InsufficientStock?)
        && exists i :: 0 <= i < |lines| && FirstUnmet(items, lines, i) && o.value == ErrorFor(items, lines[i])
  {
    if lines != [] {
      var rest := lines[1..];
      FirstObstacleIs(items, rest);
      assert forall i :: 0 < i < |lines| ==> lines[i] == rest[i - 1];
      if Obstacle(items, lines[0]) != None {
        assert FirstUnmet(items, lines, 0);
      } else if FirstObstacle(items, rest) != None {
        var i :| 0 <= i < |rest| && FirstUnmet(items, rest, i) && FirstObstacle(items, rest).value == ErrorFor(items, rest[i]);
        assert FirstUnmet(items, lines, i + 1);
      }
    }
  }

  ghost predicate FirstUnmet(items: Items, lines: seq<Line>, i: nat) {
    i < |lines| && Unmet(items, lines[i]) && forall j :: 0 <= j < i ==> !Unmet(items, lines[j])
  }

  /** An unknown SKU is named; a short one too, with what was asked and what is there. */
  function ErrorFor(items: Items, line: Line): Error {
    if line.sku in items then InsufficientStock(line.sku, line.quantity, items[line.sku].available) else NotFound(line.sku)
  }

  /** When stock is missing, the error is about the line with the first SKU, in their order, that is
      unknown or short, and says which. */
  lemma MissingStockIsNamed(s: State, q: Request) returns (line: Line)
    requires Acceptable(q.id, q.lines) && !q.cancelled && q.id !in s.reservations && !Fits(s.items, q.lines)
    ensures line in q.lines && Unmet(s.items, line)
    ensures forall l :: l in q.lines && l != line && Unmet(s.items, l) ==> Before(line.sku, l.sku)
    ensures Serve(s, q).1 == Failed(
              if line.sku in s.items then InsufficientStock(line.sku, line.quantity, s.items[line.sku].available)
              else NotFound(line.sku))
  {
    hide Before, Insert, Taken;
    var sorted := Sorted(q.lines);
    SortedIsSorted(q.lines);
    DistinctIsOrderless(q.lines, sorted);
    AllOrNone(s, q);
    FirstObstacleIs(s.items, sorted);
    var i :| 0 <= i < |sorted| && FirstUnmet(s.items, sorted, i) && FirstObstacle(s.items, sorted).value == ErrorFor(s.items, sorted[i]);
    line := sorted[i];
    assert line in multiset(sorted);
    forall l | l in q.lines && l != line && Unmet(s.items, l) ensures Before(line.sku, l.sku) {
      assert l in multiset(q.lines);
      assert l in multiset(sorted);
      var j :| 0 <= j < |sorted| && sorted[j] == l;
      assert j > i;
      BeforeIsTotal(line.sku, l.sku);
    }
  }

  /** What fits leaves no SKU short, summed over the lines. */
  lemma FitsLeavesEnough(items: Items, lines: seq<Line>, k: Text)
    requires Fits(items, lines) && Positive(lines) && Distinct(lines) && k in items && items[k].available >= 0
    ensures 0 <= Quantity(lines, k) <= items[k].available
  {
    QuantityIsNatural(lines, k);
    if i :| 0 <= i < |lines| && lines[i].sku == k {
      QuantityPresent(lines, i);
    } else {
      QuantityAbsent(lines, k);
    }
  }

  // ---------- the books over every run ----------

  /** The quantity of a SKU in all stored reservations. */
  ghost function Held(rs: Reservations, sku: Text): int
    decreases |rs|
  {
    if rs == map[] then 0
    else
      var id :| id in rs;
      Quantity(rs[id].lines, sku) + Held(rs - {id}, sku)
  }

  lemma {:induction false} HeldWithout(rs: Reservations, id: Text, sku: Text)
    requires id in rs
    ensures Held(rs, sku) == Quantity(rs[id].lines, sku) + Held(rs - {id}, sku)
    decreases |rs|
  {
    var d :| d in rs && Held(rs, sku) == Quantity(rs[d].lines, sku) + Held(rs - {d}, sku);
    if d != id {
      HeldWithout(rs - {d}, id, sku);
      HeldWithout(rs - {id}, d, sku);
      assert rs - {d} - {id} == rs - {id} - {d};
    }
  }

  lemma HeldWith(rs: Reservations, id: Text, r: Reservation, sku: Text)
    requires id !in rs
    ensures Held(rs[id := r], sku) == Held(rs, sku) + Quantity(r.lines, sku)
  {
    HeldWithout(rs[id := r], id, sku);
    assert rs[id := r] - {id} == rs;
  }

  /** One SKU's books: what was there at first, less and plus what the stored reservations hold. */
  ghost predicate Agrees(first: Item, item: Item, held: int) {
    && item.sku == first.sku && item.name == first.name
    && item.available == first.available - held && 0 <= held <= first.available
    && item.reserved == Wrap(first.reserved + held)
  }

  ghost predicate BooksAgree(first: Items, s: State) {
    && s.items.Keys == first.Keys
    && (forall k :: k in first ==> Agrees(first[k], s.items[k], Held(s.reservations, k)))
  }

  ghost predicate Records(rs: Reservations) {
    forall id :: id in rs ==> rs[id].id == id && Acceptable(id, rs[id].lines) && Ascending(rs[id].lines)
  }

  ghost predicate Inv(first: Items, s: State) {
    BooksAgree(first, s) && Records(s.reservations)
  }

  lemma AgreesOnTaking(first: Item, item: Item, held: int, quantity: int)
    requires Agrees(first, item, held) && 0 <= quantity <= item.available
    ensures Agrees(first, Less(item, quantity), held + quantity)
  {
    WrapTwice(first.reserved + held, quantity);
    assert Wrap(item.available - quantity) == item.available - quantity;
  }

  lemma ServeKeepsBooks(first: Items, s: State, q: Request)
    requires BooksAgree(first, s) && Serve(s, q).0 != s
    ensures BooksAgree(first, Serve(s, q).0)
  {
    hide Agrees, Less, Wrap, Acceptable, FirstObstacle, Quantity, Fits;
    AllOrNone(s, q);
    var r := Reservation(q.id, Sorted(q.lines), q.now);
    var next := Serve(s, q).0;
    forall k | k in first ensures Agrees(first[k], next.items[k], Held(next.reservations, k)) {
      HeldWith(s.reservations, q.id, r, k);
      QuantityOfSorted(q.lines, k);
      assert Agrees(first[k], s.items[k], Held(s.reservations, k));
      TakesWithin(first, s, q, k);
      AgreesOnTaking(first[k], s.items[k], Held(s.reservations, k), Quantity(q.lines, k));
    }
  }

  lemma TakesWithin(first: Items, s: State, q: Request, k: Text)
    requires k in first && k in s.items && Agrees(first[k], s.items[k], Held(s.reservations, k))
    requires Acceptable(q.id, q.lines) && Fits(s.items, q.lines)
    ensures 0 <= Quantity(q.lines, k) <= s.items[k].available
  {
    FitsLeavesEnough(s.items, q.lines, k);
  }

  lemma ServeKeepsInv(first: Items, s: State, q: Request)
    requires Inv(first, s)
    ensures Inv(first, Serve(s, q).0)
  {
    hide BooksAgree, FirstObstacle, Taken;
    if Serve(s, q).0 != s {
      ServeKeepsBooks(first, s, q);
      SortedIsSorted(q.lines);
      AcceptableIsOrderless(q.id, q.lines, Sorted(q.lines));
    }
  }

  lemma {:induction false} RunKeepsInv(first: Items, s: State, requests: seq<Request>)
    requires Inv(first, s)
    ensures Inv(first, Run(s, requests))
    decreases |requests|
  {
    hide Inv, Serve;
    if requests != [] {
      ServeKeepsInv(first, s, requests[0]);
      RunKeepsInv(first, Serve(s, requests[0]).0, requests[1..]);
    }
  }

  function Opened(items: Items): State {
    State(items, map[])
  }

  lemma OpenedAgrees(items: Items)
    requires Stocked(items)
    ensures Inv(items, Opened(items))
  {
  }

  /** In every run of a store no stock goes negative or is granted twice: what the stored
      reservations hold of a SKU is exactly what its available stock has lost. */
  lemma NeverOversold(items: Items, requests: seq<Request>, k: Text)
    requires Stocked(items) && k in items
    ensures
      var s := Run(Opened(items), requests);
      && s.items.Keys == items.Keys
      && s.items[k].available == items[k].available - Held(s.reservations, k)
      && 0 <= s.items[k].available <= items[k].available
      && s.items[k].reserved == Wrap(items[k].reserved + Held(s.reservations, k))
  {
    OpenedAgrees(items);
    RunKeepsInv(items, Opened(items), requests);
    assert Agrees(items[k], Run(Opened(items), requests).items[k], Held(Run(Opened(items), requests).reservations, k));
  }

  // ---------- conservation, and where it stops ----------

  function Total(item: Item): int {
    item.available + item.reserved
  }

  ghost predicate Conserved(items: Items, requests: seq<Request>, k: Text)
    requires Stocked(items) && k in items
  {
    NeverOversold(items, requests, k);
    Total(Run(Opened(items), requests).items[k]) == Total(items[k])
  }

  /** One request for all that is available. */
  function TakeAll(item: Item): Request {
    Request(false, [1], [Line(item.sku, item.available)], 0)
  }

  lemma TakeAllIs(items: Items, k: Text)
    requires Stocked(items) && k in items && items[k].available > 0
    ensures Run(Opened(items), [TakeAll(items[k])]).items == items[k := Less(items[k], items[k].available)]
  {
    var q := TakeAll(items[k]);
    var s := Opened(items);
    assert Positive(q.lines) && Distinct(q.lines) && Acceptable(q.id, q.lines);
    assert Fits(items, q.lines);
    AllOrNone(s, q);
    assert q.lines[..0] == [] && Quantity(q.lines[..0], k) == 0;
    TakenNothing(items);
    TakenOneMore(items, q.lines);
    assert Run(s, [q]) == Serve(s, q).0 by {
      assert [q][1..] == [];
    }
  }

  /** Available plus reserved stays the same in every run exactly for the SKUs whose total fits an
      int64; for any other, a request for all of its stock makes reserved wrap around. */
  lemma ConservedExactly(items: Items, k: Text)
    requires Stocked(items) && k in items
    ensures (forall requests :: Conserved(items, requests, k)) <==> Total(items[k]) <= MAX_INT64
  {
    if Total(items[k]) <= MAX_INT64 {
      forall requests ensures Conserved(items, requests, k) {
        NeverOversold(items, requests, k);
      }
    } else {
      TakeAllIs(items, k);
      assert !Conserved(items, [TakeAll(items[k])], k);
    }
  }

  /** A store for which the promise fails. */
  lemma ReservedCanWrap()
    ensures
      var item := Item([65], [], MAX_INT64, 1);
      var s := Run(Opened(map[[65] := item]), [TakeAll(item)]);
      s.items == map[[65] := Item([65], [], 0, -MAX_INT64 - 1)]
  {
    var item := Item([65], [], MAX_INT64, 1);
    TakeAllIs(map[[65] := item], [65]);
  }

  // ---------- repeating a request ----------

  /** Nothing that was granted is ever changed or dropped. */
  lemma {:induction false} GrantsLast(s: State, requests: seq<Request>, id: Text)
    requires id in s.reservations
    ensures id in Run(s, requests).reservations && Run(s, requests).reservations[id] == s.reservations[id]
    decreases |requests|
  {
    hide FirstObstacle, Taken, Acceptable;
    if requests != [] {
      GrantsLast(Serve(s, requests[0]).0, requests[1..], id);
    }
  }

  /** Once granted, and whatever is asked in between, the same id with the same lines in any order
      gets the original reservation, with other lines it is refused, and neither moves any stock. */
  lemma RepeatsGetTheOriginal(s: State, q: Request, between: seq<Request>, again: Request)
    requires Serve(s, q).1.Reserved?
    requires again.id == q.id && !again.cancelled && Acceptable(again.id, again.lines)
    ensures
      var later := Run(Serve(s, q).0, between);
      Serve(later, again) ==
        (later, if multiset(again.lines) == multiset(q.lines) then Serve(s, q).1 else Failed(Conflict))
  {
    hide FirstObstacle, Taken, Insert;
    var next := Serve(s, q).0;
    var r := Serve(s, q).1.reservation;
    assert q.id in next.reservations && next.reservations[q.id] == r && r.lines == Sorted(q.lines);
    GrantsLast(next, between, q.id);
    NormalFormIsCanonical(q.id, q.lines, again.lines);
  }
}
