/**
 The sliding window counter of one key. Time is in nanoseconds since the zero time. The estimate
 is kept multiplied by the period, so that all arithmetic is exact.
 */
module SlidingWindow {
  import opened Basics
  import opened Limits

  datatype Rule = Rule(limit: Int64, period: Int64)

  datatype Window = Window(start: int, current: int, previous: int)

  const Fresh := Window(0, 0, 0)

  ghost predicate Proper(rule: Rule) {
    rule.limit > 0 && rule.period > 0
  }

  function Truncate(now: int, period: int): int
    requires period > 0
  {
    now - now % period
  }

  function Advanced(rule: Rule, w: Window, now: int): Window
    requires Proper(rule)
  {
    var start := Truncate(now, rule.period);
    if start == w.start then w
    else if start - w.start == rule.period then Window(start, 0, w.current)
    else Window(start, 0, 0)
  }

  /** The estimated number of requests in the trailing period, times the period. */
  function Load(rule: Rule, w: Window, now: int): int {
    w.previous * (w.start + rule.period - now) + w.current * rule.period
  }

  /** Only asked for a positive count: see PassesFrom. */
  function MaxOverlap(rule: Rule, budget: int, count: int): int {
    if count > 0 then rule.period * budget / count else 0
  }

  predicate Passes(rule: Rule, w: Window, now: int) {
    Load(rule, w, now) + rule.period <= rule.limit * rule.period
  }

  function RetryAfter(rule: Rule, w: Window, now: int): int {
    var end := w.start + rule.period;
    if w.current < rule.limit then end - MaxOverlap(rule, rule.limit - w.current - 1, w.previous) - now
    else end + rule.period - MaxOverlap(rule, rule.limit - 1, w.current) - now
  }

  function Remaining(rule: Rule, w: Window, now: int): int
    requires Proper(rule)
  {
    var room := rule.limit * rule.period - Load(rule, w, now);
    if room >= 0 then room / rule.period else 0
  }

  function ResetAfter(rule: Rule, w: Window, now: int): int {
    var end := w.start + rule.period;
    if w.current > 0 then end + rule.period - now
    else if w.previous > 0 then end - now
    else 0
  }

  function After(rule: Rule, w: Window, now: int): Window
    requires Proper(rule)
  {
    var a := Advanced(rule, w, now);
    if Passes(rule, a, now) then a.(current := a.current + 1) else a
  }

  predicate Allowed(rule: Rule, w: Window, now: int)
    requires Proper(rule)
  {
    Passes(rule, Advanced(rule, w, now), now)
  }

  // ---------- reachable windows ----------

  /** A window last used at `at`: the estimate is within the limit. */
  ghost predicate Good(rule: Rule, w: Window, at: int) {
    && Proper(rule) && 0 <= at
    && w.start == Truncate(at, rule.period)
    && 0 <= w.current && 0 <= w.previous <= rule.limit
    && Load(rule, w, at) <= rule.limit * rule.period
  }

  lemma TruncateIs(now: int, period: int)
    requires period > 0
    ensures
      var s := Truncate(now, period);
      s <= now < s + period && s % period == 0 && s == (now / period) * period
  {
    var s := Truncate(now, period);
    assert now == (now / period) * period + now % period;
    assert s == (now / period) * period;
    QuotientOf(s, period);
    Quotient(s, period, now / period);
  }

  lemma TruncateAt(now: int, period: int, s: int, k: int)
    requires period > 0 && s == k * period && s <= now < s + period
    ensures Truncate(now, period) == s
  {
    assert (k + 1) * period == s + period;
    Quotient(now, period, k);
    assert now == (now / period) * period + now % period;
  }

  /** Where the clock is relative to the window decides what advancing does. */
  lemma AdvanceCases(rule: Rule, w: Window, at: int, now: int)
    requires Good(rule, w, at) && at <= now
    ensures
      var end := w.start + rule.period;
      && Truncate(now, rule.period) <= now < Truncate(now, rule.period) + rule.period
      && Advanced(rule, w, now) ==
         (if now < end then w
          else if now < end + rule.period then Window(end, 0, w.current)
          else Window(Truncate(now, rule.period), 0, 0))
      && (now >= end + rule.period ==> Truncate(now, rule.period) >= end + rule.period)
  {
    var p: int := rule.period;
    TruncateIs(at, p);
    TruncateIs(now, p);
    var k := at / p;
    var end := w.start + p;
    assert (k + 1) * p == end;
    if now < end {
      TruncateAt(now, p, w.start, k);
    } else if now < end + p {
      TruncateAt(now, p, end, k + 1);
    } else {
      assert (k + 2) * p == end + p;
      AtLeast(now, p, k + 2);
      Below(k + 2, now / p, p);
    }
  }

  lemma CountsWithinLimit(rule: Rule, w: Window, at: int)
    requires Good(rule, w, at)
    ensures w.current <= rule.limit
    ensures w.previous + w.current <= 2 * rule.limit - 1
  {
    TruncateIs(at, rule.period);
    var overlap := w.start + rule.period - at;
    Below(0, w.previous, overlap);
    assert 0 * overlap == 0;
    assert (rule.limit + 1) * rule.period == rule.limit * rule.period + rule.period;
    if w.current > rule.limit {
      Below(rule.limit + 1, w.current, rule.period);
    }
    Below(1, overlap, rule.limit);
    assert w.previous == rule.limit ==> overlap * rule.limit == w.previous * overlap;
  }

  lemma AdvanceIsGood(rule: Rule, w: Window, at: int, now: int)
    requires Good(rule, w, at) && at <= now
    ensures Good(rule, Advanced(rule, w, now), now)
  {
    CountsWithinLimit(rule, w, at);
    AdvanceCases(rule, w, at, now);
    var a := Advanced(rule, w, now);
    TruncateIs(now, rule.period);
    var overlap := a.start + rule.period - now;
    if a == w {
      Below(overlap, w.start + rule.period - at, w.previous + 1);
      Product(w.previous, overlap, w.start + rule.period - at);
    } else {
      Product(a.previous, overlap, rule.period);
      Below(a.previous, rule.limit, rule.period);
    }
  }

  lemma Product(k: int, a: int, b: int)
    requires k >= 0 && a <= b
    ensures k * a <= k * b
  {
    assert k * (b - a) >= 0;
    assert k * (b - a) == k * b - k * a;
  }

  lemma AfterIsGood(rule: Rule, w: Window, at: int, now: int)
    requires Good(rule, w, at) && at <= now
    ensures Good(rule, After(rule, w, now), now)
  {
    hide Advanced, Truncate, Load;
    AdvanceIsGood(rule, w, at, now);
    LoadMore(rule, Advanced(rule, w, now), now, 1);
  }

  lemma FreshIsGood(rule: Rule)
    requires Proper(rule)
    ensures Good(rule, Fresh, 0)
  {
    TruncateAt(0, rule.period, 0, 0);
    assert Load(rule, Fresh, 0) == 0 * rule.period + 0 * rule.period;
    Below(0, rule.limit, rule.period);
  }

  // ---------- the estimate only falls while nothing is admitted ----------

  /** Advancing twice is advancing once. */
  lemma AdvanceTwice(rule: Rule, w: Window, at: int, x: int, t: int)
    requires Good(rule, w, at) && at <= x <= t
    ensures Advanced(rule, Advanced(rule, w, x), t) == Advanced(rule, w, t)
  {
    AdvanceCases(rule, w, at, x);
    AdvanceCases(rule, w, at, t);
    AdvanceIsGood(rule, w, at, x);
    AdvanceCases(rule, Advanced(rule, w, x), x, t);
  }

  /** The exact instant from which requests pass, in both branches of retryAfter. */
  lemma PassesFrom(rule: Rule, w: Window, now: int, t: int)
    requires Good(rule, w, now) && !Passes(rule, w, now) && now <= t
    ensures if w.current < rule.limit then w.previous > 0 else w.current > 0
    ensures RetryAfter(rule, w, now) > 0
    ensures Allowed(rule, w, t) <==> t >= now + RetryAfter(rule, w, now)
  {
    AdvanceCases(rule, w, now, t);
    CountsWithinLimit(rule, w, now);
    TruncateIs(now, rule.period);
    if w.current < rule.limit {
      InThisWindow(rule, w, now, t);
    } else {
      InNextWindow(rule, w, now, t);
    }
  }

  lemma InThisWindow(rule: Rule, w: Window, now: int, t: int)
    requires Good(rule, w, now) && !Passes(rule, w, now) && now <= t && w.current < rule.limit
    requires w.start <= now < w.start + rule.period
    requires
      var end := w.start + rule.period;
      Advanced(rule, w, t) ==
         (if t < end then w
          else if t < end + rule.period then Window(end, 0, w.current)
          else Window(Truncate(t, rule.period), 0, 0))
    ensures w.previous > 0 && RetryAfter(rule, w, now) > 0
    ensures Allowed(rule, w, t) <==> t >= now + RetryAfter(rule, w, now)
  {
    var p: int := rule.period;
    var end := w.start + p;
    var budget := rule.limit - w.current - 1;
    Room(rule.limit, w.current, p);
    assert w.previous * (end - now) > budget * p;
    Below(0, budget, p);
    assert w.previous == 0 ==> w.previous * (end - now) == 0;
    var m := MaxOverlap(rule, budget, w.previous);
    assert p * budget == budget * p;
    AtLeast(budget * p, w.previous, end - now);
    AtLeast(budget * p, w.previous, 0);
    assert (end - now) * w.previous == w.previous * (end - now);
    if t < end {
      AtLeast(budget * p, w.previous, end - t);
      assert (end - t) * w.previous == w.previous * (end - t);
    } else if t < end + p {
      Product(w.current, end + p - t, p);
      Below(w.current, rule.limit - 1, p);
      Room(rule.limit, 0, p);
    } else {
      Below(1, rule.limit, p);
    }
  }

  lemma InNextWindow(rule: Rule, w: Window, now: int, t: int)
    requires Good(rule, w, now) && !Passes(rule, w, now) && now <= t && w.current == rule.limit
    requires w.start <= now < w.start + rule.period
    requires
      var end := w.start + rule.period;
      Advanced(rule, w, t) ==
         (if t < end then w
          else if t < end + rule.period then Window(end, 0, w.current)
          else Window(Truncate(t, rule.period), 0, 0))
    ensures RetryAfter(rule, w, now) > 0
    ensures Allowed(rule, w, t) <==> t >= now + RetryAfter(rule, w, now)
  {
    var p: int := rule.period;
    var end := w.start + p;
    var n: int := rule.limit;
    var m := MaxOverlap(rule, n - 1, n);
    assert p * (n - 1) == (n - 1) * p;
    Room(n, 0, p);
    AtLeast((n - 1) * p, n, p);
    AtLeast((n - 1) * p, n, 0);
    Below(0, n - 1, p);
    assert p * n == n * p;
    if t < end {
      Below(0, w.previous, end - t);
    } else if t < end + p {
      AtLeast((n - 1) * p, n, end + p - t);
      assert (end + p - t) * n == n * (end + p - t);
    } else {
      Below(1, n, p);
    }
  }

  lemma Room(limit: int, current: int, p: int)
    ensures (limit - current - 1) * p == limit * p - current * p - p
  {
  }

  lemma EmptyFrom(rule: Rule, w: Window, now: int, t: int)
    requires Good(rule, w, now) && now <= t
    ensures ResetAfter(rule, w, now) >= 0
    ensures Load(rule, Advanced(rule, w, t), t) == 0 <==> t >= now + ResetAfter(rule, w, now)
  {
    AdvanceCases(rule, w, now, t);
    TruncateIs(now, rule.period);
    var end := w.start + rule.period;
    if t < end {
      Positive(w.previous, end - t);
      Positive(w.current, rule.period);
    } else if t < end + rule.period {
      Positive(w.current, end + rule.period - t);
    }
  }

  lemma Positive(k: int, d: int)
    requires k >= 0 && d > 0
    ensures k * d >= 0 && (k * d == 0 <==> k == 0)
  {
    Below(0, k, d);
    if k > 0 {
      Below(1, k, d);
    }
  }

  // ---------- the window, updated in place ----------

  function Decide(rule: Rule, w: Window, now: int): Decision
    requires Proper(rule)
  {
    var v := After(rule, w, now);
    Decision(
      Allowed(rule, w, now), rule.limit, Remaining(rule, v, now), ResetAfter(rule, v, now),
      if Allowed(rule, w, now) then 0 else RetryAfter(rule, Advanced(rule, w, now), now))
  }

  class Cell {
    const rule: Rule
    var start: int
    var current: int
    var previous: int

    ghost function Value(): Window
      reads this
    {
      Window(start, current, previous)
    }

    constructor (rule: Rule)
      ensures this.rule == rule && Value() == Fresh
    {
      this.rule := rule;
      start, current, previous := 0, 0, 0;
    }

    method Advance(now: int)
      requires Proper(rule)
      modifies this
      ensures Value() == Advanced(rule, old(Value()), now)
      ensures start <= now < start + rule.period && start % rule.period == 0
      ensures start == old(start) ==> current == old(current) && previous == old(previous)
      ensures start == old(start) + rule.period ==> current == 0 && previous == old(current)
      ensures start != old(start) && start != old(start) + rule.period ==> current == 0 && previous == 0
    {
      TruncateIs(now, rule.period);
      var begin := Truncate(now, rule.period);
      if begin == start {
        return;
      } else if begin - start == rule.period {
        previous, current := current, 0;
      } else {
        previous, current := 0, 0;
      }
      start := begin;
    }

    method Hit(now: int) returns (d: Decision)
      requires Proper(rule)
      modifies this
      ensures Value() == After(rule, old(Value()), now) && d == Decide(rule, old(Value()), now)
    {
      Advance(now);
      var w := Window(start, current, previous);
      var allowed, retryAfter := false, 0;
      if Passes(rule, w, now) {
        current := current + 1;
        allowed := true;
      } else {
        retryAfter := RetryAfter(rule, w, now);
      }
      w := Window(start, current, previous);
      d := Decision(allowed, rule.limit, Remaining(rule, w, now), ResetAfter(rule, w, now), retryAfter);
    }
  }

  // ---------- runs ----------

  function Run(rule: Rule, w: Window, times: seq<int>): Window
    requires Proper(rule)
  {
    if times == [] then w else After(rule, Run(rule, w, times[..|times| - 1]), times[|times| - 1])
  }

  /** How many of the requests at these instants are answered with an admission. */
  function Admitted(rule: Rule, w: Window, times: seq<int>): nat
    requires Proper(rule)
  {
    if times == [] then 0
    else
      var init := times[..|times| - 1];
      Admitted(rule, w, init) + if Decide(rule, Run(rule, w, init), times[|times| - 1]).allowed then 1 else 0
  }

  function Last(times: seq<int>, at: int): int {
    if times == [] then at else times[|times| - 1]
  }

  lemma MonotoneInit(times: seq<int>, from: int)
    requires Monotone(times, from) && times != []
    ensures Monotone(times[..|times| - 1], from)
    ensures from <= Last(times[..|times| - 1], from) <= times[|times| - 1]
  {
  }

  lemma {:induction false} RunIsGood(rule: Rule, w: Window, at: int, times: seq<int>)
    requires Good(rule, w, at) && Monotone(times, at)
    ensures Good(rule, Run(rule, w, times), Last(times, at))
  {
    if times != [] {
      var init := times[..|times| - 1];
      MonotoneInit(times, at);
      RunIsGood(rule, w, at, init);
      AfterIsGood(rule, Run(rule, w, init), Last(init, at), times[|times| - 1]);
    }
  }

  /** The estimate never exceeds the limit, in any run from a fresh window. */
  lemma EstimateWithinLimit(rule: Rule, times: seq<int>)
    requires Proper(rule) && Monotone(times, 0)
    ensures Load(rule, Run(rule, Fresh, times), Last(times, 0)) <= rule.limit * rule.period
  {
    FreshIsGood(rule);
    RunIsGood(rule, Fresh, 0, times);
  }

  // ---------- the waiting time ----------

  lemma {:induction false} StaysRejected(rule: Rule, w: Window, now: int, times: seq<int>, next: int)
    requires Good(rule, w, now) && !Passes(rule, w, now)
    requires Monotone(times, now) && Last(times, now) <= next
    requires forall i :: 0 <= i < |times| ==> times[i] < now + RetryAfter(rule, w, now)
    ensures RetryAfter(rule, w, now) > 0
    ensures Admitted(rule, w, times) == 0
    ensures Run(rule, w, times) == Advanced(rule, w, Last(times, now))
    ensures Allowed(rule, Run(rule, w, times), next) <==> next >= now + RetryAfter(rule, w, now)
    decreases |times|
  {
    AdvanceCases(rule, w, now, now);
    TruncateIs(now, rule.period);
    if times != [] {
      var init := times[..|times| - 1];
      var x := times[|times| - 1];
      MonotoneInit(times, now);
      StaysRejected(rule, w, now, init, x);
      AdvanceTwice(rule, w, now, Last(init, now), x);
    }
    assert now <= Last(times, now);
    AdvanceTwice(rule, w, now, Last(times, now), next);
    PassesFrom(rule, w, now, next);
  }

  // ---------- how much is admitted ----------

  function Repeated(now: int, n: nat): (times: seq<int>)
    ensures |times| == n && forall i :: 0 <= i < n ==> times[i] == now
  {
    if n == 0 then [] else Repeated(now, n - 1) + [now]
  }

  lemma LoadMore(rule: Rule, w: Window, now: int, k: int)
    ensures Load(rule, w.(current := w.current + k), now) == Load(rule, w, now) + k * rule.period
  {
    assert (w.current + k) * rule.period == w.current * rule.period + k * rule.period;
  }

  lemma FreshRemaining(rule: Rule)
    requires Proper(rule)
    ensures Remaining(rule, Fresh, 0) == rule.limit
  {
    assert Load(rule, Fresh, 0) == 0 * rule.period + 0 * rule.period;
    Below(0, rule.limit, rule.period);
    assert (rule.limit + 1) * rule.period == rule.limit * rule.period + rule.period;
    Quotient(rule.limit * rule.period, rule.period, rule.limit);
  }

  lemma AtOnce(rule: Rule, w: Window, now: int)
    requires Good(rule, w, now)
    ensures Allowed(rule, w, now) <==> Remaining(rule, w, now) > 0
    ensures Remaining(rule, w, now) >= 0
    ensures After(rule, w, now) == if Remaining(rule, w, now) > 0 then w.(current := w.current + 1) else w
    ensures Remaining(rule, After(rule, w, now), now) == if Remaining(rule, w, now) > 0 then Remaining(rule, w, now) - 1 else 0
  {
    var p: int := rule.period;
    var room := rule.limit * p - Load(rule, w, now);
    AtLeast(room, p, 1);
    AtLeast(room, p, 0);
    LoadMore(rule, w, now, 1);
    QuotientShift(room, p, 1);
  }

  lemma {:induction false} PassAtOnce(rule: Rule, w: Window, now: int, n: nat)
    requires Proper(rule) && Good(rule, w, now) && n <= Remaining(rule, w, now)
    ensures Admitted(rule, w, Repeated(now, n)) == n
    ensures
      var v := Run(rule, w, Repeated(now, n));
      && v == Window(w.start, w.current + n, w.previous) && Good(rule, v, now)
      && Remaining(rule, v, now) == Remaining(rule, w, now) - n
      && (Allowed(rule, v, now) <==> n < Remaining(rule, w, now))
    decreases n
  {
    hide Remaining, Allowed, After, Good;
    if n == 0 {
      AtOnce(rule, w, now);
    } else {
      PassAtOnce(rule, w, now, n - 1);
      var v := Run(rule, w, Repeated(now, n - 1));
      var times := Repeated(now, n);
      assert times[..n - 1] == Repeated(now, n - 1) && times[n - 1] == now;
      AtOnce(rule, v, now);
      AfterIsGood(rule, v, now, now);
      AtOnce(rule, After(rule, v, now), now);
    }
  }

  /** Requests that start in one window and end before the end of the next one are counted in them. */
  lemma {:induction false} AdmittedIsCounted(rule: Rule, w: Window, at: int, times: seq<int>)
    requires Good(rule, w, at) && Monotone(times, at) && times != []
    requires times[|times| - 1] < Truncate(times[0], rule.period) + 2 * rule.period
    ensures
      var f := Run(rule, w, times);
      var first := Truncate(times[0], rule.period);
      && (f.start == first || f.start == first + rule.period)
      && Admitted(rule, w, times) <= f.current + if f.start == first then 0 else f.previous
  {
    var init := times[..|times| - 1];
    var y := times[|times| - 1];
    MonotoneInit(times, at);
    RunIsGood(rule, w, at, init);
    var before := Run(rule, w, init);
    AdvanceCases(rule, before, Last(init, at), y);
    AdvanceIsGood(rule, before, Last(init, at), y);
    if init != [] {
      assert times[0] <= times[|init| - 1] <= y;
      AdmittedIsCounted(rule, w, at, init);
    } else {
      assert Admitted(rule, w, init) == 0;
    }
  }

  /** Any interval of one period admits at most 2 * limit - 1 requests of a key. */
  lemma TwiceTheLimitLessOne(rule: Rule, before: seq<int>, during: seq<int>, s: int)
    requires Proper(rule) && Monotone(before + during, 0)
    requires forall i :: 0 <= i < |during| ==> s <= during[i] <= s + rule.period
    ensures Admitted(rule, Run(rule, Fresh, before), during) <= 2 * rule.limit - 1
  {
    if during != [] {
      var w := Start(rule, before, during);
      TruncateIs(during[0], rule.period);
      AdmittedIsCounted(rule, w, Last(before, 0), during);
      RunIsGood(rule, w, Last(before, 0), during);
      CountsWithinLimit(rule, Run(rule, w, during), during[|during| - 1]);
    }
  }

  lemma Start(rule: Rule, before: seq<int>, during: seq<int>) returns (w: Window)
    requires Proper(rule) && Monotone(before + during, 0) && during != []
    ensures w == Run(rule, Fresh, before) && Good(rule, w, Last(before, 0)) && Monotone(during, Last(before, 0))
  {
    w := Run(rule, Fresh, before);
    MonotoneSplit(before, during, 0);
    FreshIsGood(rule);
    RunIsGood(rule, Fresh, 0, before);
  }

  // ---------- the promise of the constructor's comment ----------

  /** At most `limit` requests of a key in any trailing period. */
  ghost predicate KeepsTrailingLimit(rule: Rule)
    requires Proper(rule)
  {
    forall before: seq<int>, during: seq<int>, t: int :: KeptAt(rule, before, during, t)
  }

  /** The requests `during` are in the period that ends at t; others came before. */
  ghost predicate KeptAt(rule: Rule, before: seq<int>, during: seq<int>, t: int)
    requires Proper(rule)
  {
    Monotone(before + during, 0) && Within(during, t - rule.period, t) ==>
      Admitted(rule, Run(rule, Fresh, before), during) <= rule.limit
  }

  ghost predicate Within(times: seq<int>, after: int, to: int) {
    forall i :: 0 <= i < |times| ==> after < times[i] <= to
  }

  lemma TrailingLimitHolds(rule: Rule, before: seq<int>, during: seq<int>, t: int)
    requires Proper(rule) && 2 * rule.limit > rule.period * (rule.limit - 1)
    requires Monotone(before + during, 0) && Within(during, t - rule.period, t)
    ensures Admitted(rule, Run(rule, Fresh, before), during) <= rule.limit
  {
    if during != [] {
      var w := Start(rule, before, during);
      var x, y := during[0], during[|during| - 1];
      var p: int := rule.period;
      TruncateIs(x, p);
      AdmittedIsCounted(rule, w, Last(before, 0), during);
      RunIsGood(rule, w, Last(before, 0), during);
      var f := Run(rule, w, during);
      CountsWithinLimit(rule, f, y);
      if f.start != Truncate(x, p) {
        Product(f.previous, 2, f.start + p - y);
        TwoWindows(rule, f.previous, f.current);
      }
    }
  }

  lemma TwoWindows(rule: Rule, previous: int, current: int)
    requires Proper(rule) && 2 * rule.limit > rule.period * (rule.limit - 1)
    requires 0 <= previous <= rule.limit && previous * 2 + current * rule.period <= rule.limit * rule.period
    ensures previous + current <= rule.limit
  {
    var p: int, n: int := rule.period, rule.limit;
    assert (n + 1 - previous) * p == n * p + p - previous * p;
    assert previous * (p - 2) == previous * p - 2 * previous == (p - 2) * previous;
    assert (p - 2) * n == p * n - 2 * n;
    assert p * (n - 1) == p * n - p;
    if p >= 2 {
      Product(p - 2, previous, n);
    }
    if previous + current > n {
      Below(n + 1 - previous, current, p);
    }
  }

  /** `limit` requests in the last nanosecond of the first window all pass. */
  lemma FullWindow(rule: Rule)
    requires Proper(rule)
    ensures
      var burst := Repeated(rule.period - 1, rule.limit);
      && Admitted(rule, Fresh, burst) == rule.limit && Run(rule, Fresh, burst) == Window(0, rule.limit, 0)
      && Good(rule, Window(0, rule.limit, 0), rule.period - 1)
  {
    var p: int, n: int := rule.period, rule.limit;
    FreshIsGood(rule);
    AdvanceCases(rule, Fresh, 0, p - 1);
    AdvanceIsGood(rule, Fresh, 0, p - 1);
    assert Load(rule, Fresh, p - 1) == 0;
    Below(0, n, p);
    assert (n + 1) * p == n * p + p;
    Quotient(n * p, p, n);
    PassAtOnce(rule, Fresh, p - 1, n);
  }

  /** One more request passes late in the next window. */
  lemma OneMore(rule: Rule)
    requires Proper(rule) && 2 * rule.limit <= rule.period * (rule.limit - 1)
    ensures rule.period >= 3 && Allowed(rule, Window(0, rule.limit, 0), 2 * rule.period - 2)
  {
    var p: int, n: int := rule.period, rule.limit;
    assert (n - 1) * p == p * (n - 1) == n * p - p;
    if p <= 2 {
      Product(n - 1, p, 2);
    }
    FullWindow(rule);
    AdvanceCases(rule, Window(0, n, 0), p - 1, 2 * p - 2);
    assert Load(rule, Window(p, 0, n), 2 * p - 2) == n * 2;
  }

  /** `limit` requests in the last nanosecond of one window and one in the last but one of the next
      window are within one period, and all of them are admitted. */
  lemma TrailingLimitBreaks(rule: Rule)
    requires Proper(rule) && 2 * rule.limit <= rule.period * (rule.limit - 1)
    ensures
      var t := 2 * rule.period - 2;
      var during := Repeated(rule.period - 1, rule.limit) + [t];
      && Monotone(during, 0) && Within(during, t - rule.period, t)
      && Admitted(rule, Fresh, during) == |during| == rule.limit + 1
    ensures !KeepsTrailingLimit(rule)
  {
    hide Allowed, Good, After, Repeated, Monotone, Within;
    var p: int, n: int := rule.period, rule.limit;
    var burst := Repeated(p - 1, n);
    var t := 2 * p - 2;
    var during := burst + [t];
    OneMore(rule);
    FullWindow(rule);
    BurstThenOne(p, n);
    assert during[..|during| - 1] == burst && during[|during| - 1] == t;
    assert Admitted(rule, Run(rule, Fresh, []), during) == n + 1;
    assert [] + during == during;
    assert !KeptAt(rule, [], during, t);
  }

  lemma BurstThenOne(p: int, n: nat)
    requires p >= 3
    ensures
      var during := Repeated(p - 1, n) + [2 * p - 2];
      Monotone([] + during, 0) && Within(during, p - 2, 2 * p - 2)
  {
    var burst, late := Repeated(p - 1, n), 2 * p - 2;
    hide Repeated;
    var during := burst + [late];
    assert [] + during == during;
    forall i | 0 <= i < |during| ensures during[i] == if i < n then p - 1 else late {
    }
  }

  /** The limiter keeps its limit over every trailing period exactly when the period is this short
      (or the limit is one). */
  lemma TrailingLimitExactly(rule: Rule)
    requires Proper(rule)
    ensures KeepsTrailingLimit(rule) <==> 2 * rule.limit > rule.period * (rule.limit - 1)
  {
    if 2 * rule.limit > rule.period * (rule.limit - 1) {
      forall before: seq<int>, during: seq<int>, t: int ensures KeptAt(rule, before, during, t) {
        if Monotone(before + during, 0) && Within(during, t - rule.period, t) {
          TrailingLimitHolds(rule, before, during, t);
        }
      }
    } else {
      TrailingLimitBreaks(rule);
    }
  }

  // ---------- what the decisions say ----------

  /** A decision names the limit; it is an admission without a waiting time, or a rejection with one. */
  lemma DecisionIs(rule: Rule, w: Window, at: int, now: int)
    requires Good(rule, w, at) && at <= now
    ensures
      var d := Decide(rule, w, now);
      && d.limit == rule.limit && 0 <= d.remaining < rule.limit && d.resetAfter >= 0
      && if d.allowed then d.retryAfter == 0 else d.retryAfter > 0 && d.remaining == 0
    ensures Decide(rule, w, now).allowed ==> After(rule, w, now) == Advanced(rule, w, now).(current := Advanced(rule, w, now).current + 1)
    ensures !Decide(rule, w, now).allowed ==> After(rule, w, now) == Advanced(rule, w, now)
  {
    var a := Advanced(rule, w, now);
    AdvanceIsGood(rule, w, at, now);
    AfterIsGood(rule, w, at, now);
    AdvanceTwice(rule, w, at, now, now);
    AtOnce(rule, a, now);
    AtMostLimit(rule, a, now);
    EmptyFrom(rule, After(rule, w, now), now, now);
    if !Passes(rule, a, now) {
      PassesFrom(rule, a, now, now);
    }
  }

  lemma AtMostLimit(rule: Rule, w: Window, now: int)
    requires Good(rule, w, now)
    ensures Remaining(rule, w, now) <= rule.limit
    ensures Remaining(rule, w, now) == rule.limit <==> Load(rule, w, now) == 0
  {
    TruncateIs(now, rule.period);
    Positive(w.previous, w.start + rule.period - now);
    Positive(w.current, rule.period);
    var room := rule.limit * rule.period - Load(rule, w, now);
    AtLeast(room, rule.period, rule.limit);
    AtLeast(room, rule.period, rule.limit + 1);
    assert (rule.limit + 1) * rule.period == rule.limit * rule.period + rule.period;
  }

  /** After a decision that rejects: every request before now + RetryAfter is rejected, however many
      there are and however far the windows advance, and any request from that instant on passes. */
  lemma RetryAfterIsExact(rule: Rule, w: Window, at: int, now: int, times: seq<int>, next: int)
    requires Good(rule, w, at) && at <= now && !Decide(rule, w, now).allowed
    requires Monotone(times, now) && Last(times, now) <= next
    requires forall i :: 0 <= i < |times| ==> times[i] < now + Decide(rule, w, now).retryAfter
    ensures
      var d := Decide(rule, w, now);
      var v := After(rule, w, now);
      && d.retryAfter > 0
      && Admitted(rule, v, times) == 0
      && (Decide(rule, Run(rule, v, times), next).allowed <==> next >= now + d.retryAfter)
  {
    DecisionIs(rule, w, at, now);
    AdvanceIsGood(rule, w, at, now);
    StaysRejected(rule, Advanced(rule, w, now), now, times, next);
  }

  lemma DecideAllowed(rule: Rule, w: Window, now: int)
    requires Proper(rule)
    ensures Decide(rule, w, now).allowed == Allowed(rule, w, now)
  {
  }

  lemma OneMoreRequest(rule: Rule, w: Window, now: int, n: nat)
    requires Proper(rule) && n > 0
    ensures
      var v := Run(rule, w, Repeated(now, n - 1));
      && Run(rule, w, Repeated(now, n)) == After(rule, v, now)
      && Admitted(rule, w, Repeated(now, n)) == Admitted(rule, w, Repeated(now, n - 1)) + if Decide(rule, v, now).allowed then 1 else 0
  {
    hide After, Decide;
    var times := Repeated(now, n);
    assert times[..n - 1] == Repeated(now, n - 1) && times[n - 1] == now;
  }

  lemma {:induction false} NoMoreAtOnce(rule: Rule, w: Window, now: int, n: nat)
    requires Proper(rule) && Good(rule, w, now) && n >= Remaining(rule, w, now) >= 0
    ensures Admitted(rule, w, Repeated(now, n)) == Remaining(rule, w, now)
    ensures Run(rule, w, Repeated(now, n)) == Run(rule, w, Repeated(now, Remaining(rule, w, now)))
    decreases n
  {
    hide Remaining, Allowed, After, Good, Decide, Run, Admitted, Repeated, Load;
    var r := Remaining(rule, w, now);
    PassAtOnce(rule, w, now, r);
    if n > r {
      NoMoreAtOnce(rule, w, now, n - 1);
      var v := Run(rule, w, Repeated(now, r));
      OneMoreRequest(rule, w, now, n);
      DecideAllowed(rule, v, now);
      AtOnce(rule, v, now);
    }
  }

  /** Remaining is exactly how many more requests are admitted at the same instant. */
  lemma RemainingIsExact(rule: Rule, w: Window, at: int, now: int, n: nat)
    requires Good(rule, w, at) && at <= now
    ensures
      var d := Decide(rule, w, now);
      Admitted(rule, After(rule, w, now), Repeated(now, n)) == if n <= d.remaining then n else d.remaining
  {
    DecisionIs(rule, w, at, now);
    AfterIsGood(rule, w, at, now);
    var v := After(rule, w, now);
    if n <= Remaining(rule, v, now) {
      PassAtOnce(rule, v, now, n);
    } else {
      AtOnce(rule, v, now);
      NoMoreAtOnce(rule, v, now, n);
    }
  }

  /** The whole limit is there: a request is admitted and all others still could be. */
  predicate WholeLimit(rule: Rule, w: Window, t: int)
    requires Proper(rule)
  {
    var d := Decide(rule, w, t);
    d.allowed && d.remaining == rule.limit - 1
  }

  /** After any decision the whole limit is there, and the estimate zero, exactly from now + ResetAfter
      on, if nothing else is admitted. */
  lemma ResetAfterIsExact(rule: Rule, w: Window, at: int, now: int, t: int)
    requires Good(rule, w, at) && at <= now <= t
    ensures
      var d := Decide(rule, w, now);
      var v := After(rule, w, now);
      && d.resetAfter >= 0
      && (WholeLimit(rule, v, t) <==> t >= now + d.resetAfter)
      && (Load(rule, Advanced(rule, v, t), t) == 0 <==> t >= now + d.resetAfter)
  {
    AfterIsGood(rule, w, at, now);
    var v := After(rule, w, now);
    EmptyFrom(rule, v, now, t);
    AdvanceIsGood(rule, v, now, t);
    var a := Advanced(rule, v, t);
    AdvanceTwice(rule, v, now, t, t);
    AtOnce(rule, a, t);
    AtMostLimit(rule, a, t);
  }
}
