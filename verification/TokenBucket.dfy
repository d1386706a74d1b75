/** The token bucket of one key. Time is in nanoseconds. */
module TokenBucket {
  import opened Basics
  import opened Limits

  datatype Rule = Rule(burst: Int64, interval: Int64)

  datatype Bucket = Bucket(tokens: int, refilledAt: int)

  ghost predicate Proper(rule: Rule) {
    rule.burst > 0 && rule.interval > 0
  }

  /** NewTokenBucket: the refill interval, or a refusal. */
  function NewRule(limit: Int64, period: Int64, burst: Int64): (r: Option<Rule>)
    ensures r.Some? <==> limit > 0 && burst > 0 && period >= limit
    ensures r.Some? ==> Proper(r.value) && r.value.burst == burst
    ensures r.Some? ==> r.value.interval * limit <= period < (r.value.interval + 1) * limit
  {
    if limit <= 0 || period <= 0 || burst <= 0 then None
    else
      QuotientOf(period, limit);
      AtLeast(period, limit, 1);
      QuotientIsSmaller(period, limit);
      var interval := period / limit;
      assert FitsInt64(period) && FitsInt64(interval);
      if interval <= 0 then None else Some(Rule(burst, interval))
  }

  function Fresh(rule: Rule, now: int): Bucket {
    Bucket(rule.burst, now)
  }

  /** Go's integer division. */
  function Quo(a: int, d: int): int
    requires d > 0
  {
    if a >= 0 then a / d else -(-a / d)
  }

  function Refilled(rule: Rule, b: Bucket, now: int): Bucket
    requires Proper(rule)
  {
    var earned := Quo(now - b.refilledAt, rule.interval);
    if earned >= rule.burst - b.tokens then Bucket(rule.burst, now)
    else if earned > 0 then Bucket(b.tokens + earned, b.refilledAt + earned * rule.interval)
    else b
  }

  function After(rule: Rule, b: Bucket, now: int): Bucket
    requires Proper(rule)
  {
    var r := Refilled(rule, b, now);
    if r.tokens > 0 then r.(tokens := r.tokens - 1) else r
  }

  function Decide(rule: Rule, b: Bucket, now: int): Decision
    requires Proper(rule)
  {
    var r := Refilled(rule, b, now);
    var b' := After(rule, b, now);
    Decision(
      r.tokens > 0, rule.burst, b'.tokens,
      b'.refilledAt + Wrap((rule.burst - b'.tokens) * rule.interval) - now,
      if r.tokens > 0 then 0 else r.refilledAt + rule.interval - now)
  }

  /** The bucket, updated in place. */
  class Cell {
    const rule: Rule
    var tokens: int
    var refilledAt: int

    ghost function Value(): Bucket
      reads this
    {
      Bucket(tokens, refilledAt)
    }

    constructor (rule: Rule, now: int)
      ensures this.rule == rule && Value() == Fresh(rule, now)
    {
      this.rule, tokens, refilledAt := rule, rule.burst, now;
    }

    method Refill(now: int)
      requires Proper(rule)
      modifies this
      ensures Value() == Refilled(rule, old(Value()), now)
      ensures Good(rule, old(Value()), now) ==>
                if tokens == rule.burst then refilledAt == now
                else
                  && tokens < rule.burst && now - refilledAt < rule.interval
                  && refilledAt - old(refilledAt) == (tokens - old(tokens)) * rule.interval
    {
      RefillCredits(rule, Value(), now);
      var earned := Quo(now - refilledAt, rule.interval);
      if earned >= rule.burst - tokens {
        tokens, refilledAt := rule.burst, now;
        return;
      }
      if earned > 0 {
        tokens := tokens + earned;
        refilledAt := refilledAt + earned * rule.interval;
      }
    }

    method Take(now: int) returns (d: Decision)
      requires Proper(rule)
      modifies this
      ensures Value() == After(rule, old(Value()), now) && d == Decide(rule, old(Value()), now)
    {
      Refill(now);
      var allowed, retryAfter := false, 0;
      if tokens > 0 {
        tokens := tokens - 1;
        allowed := true;
      } else {
        retryAfter := refilledAt + rule.interval - now;
      }
      d := Decision(allowed, rule.burst, tokens, refilledAt + Wrap((rule.burst - tokens) * rule.interval) - now, retryAfter);
    }
  }

  // ---------- reachable buckets ----------

  /** A bucket last used at `at`. */
  ghost predicate Good(rule: Rule, b: Bucket, at: int) {
    Proper(rule) && 0 <= b.tokens <= rule.burst && b.refilledAt <= at
  }

  /** Right after a refill: full as of now, or less than one interval short of the next token. */
  lemma RefillIsGood(rule: Rule, b: Bucket, at: int, now: int)
    requires Good(rule, b, at) && at <= now
    ensures
      var r := Refilled(rule, b, now);
      && Good(rule, r, now) && b.refilledAt <= r.refilledAt
      && (if r.tokens == rule.burst then r.refilledAt == now else now - r.refilledAt < rule.interval)
  {
    var earned := (now - b.refilledAt) / rule.interval;
    QuotientOf(now - b.refilledAt, rule.interval);
    assert (earned + 1) * rule.interval == earned * rule.interval + rule.interval;
    AtLeast(now - b.refilledAt, rule.interval, 0);
    assert earned >= 0 ==> earned * rule.interval >= 0 by {
      Below(0, if earned >= 0 then earned else 0, rule.interval);
    }
  }

  /** Unless the bucket is full, every token is worth one interval and the rest of the time is kept. */
  lemma RefillCredits(rule: Rule, b: Bucket, now: int)
    requires Proper(rule)
    ensures
      var r := Refilled(rule, b, now);
      Good(rule, b, now) ==>
        if r.tokens == rule.burst then r.refilledAt == now
        else
          && r.tokens < rule.burst && now - r.refilledAt < rule.interval
          && r.refilledAt - b.refilledAt == (r.tokens - b.tokens) * rule.interval
  {
    if Good(rule, b, now) {
      RefillIsGood(rule, b, now, now);
    }
  }

  function Run(rule: Rule, b: Bucket, times: seq<int>): Bucket
    requires Proper(rule)
    decreases |times|
  {
    if times == [] then b else Run(rule, After(rule, b, times[0]), times[1..])
  }

  function Admitted(rule: Rule, b: Bucket, times: seq<int>): nat
    requires Proper(rule)
    decreases |times|
  {
    if times == [] then 0
    else (if Decide(rule, b, times[0]).allowed then 1 else 0) + Admitted(rule, After(rule, b, times[0]), times[1..])
  }

  lemma {:induction false} RunIsGood(rule: Rule, b: Bucket, at: int, times: seq<int>, to: int)
    requires Good(rule, b, at) && Monotone(times, at) && at <= to && forall i :: 0 <= i < |times| ==> times[i] <= to
    ensures Good(rule, Run(rule, b, times), to)
    decreases |times|
  {
    if times != [] {
      MonotoneTail(times, at);
      RefillIsGood(rule, b, at, times[0]);
      forall i | 0 <= i < |times[1..]| ensures times[1..][i] <= to {
        assert times[1..][i] == times[i + 1];
      }
      RunIsGood(rule, After(rule, b, times[0]), times[0], times[1..], to);
    }
  }

  // ---------- how much is admitted ----------

  /** A refill never adds to what can be admitted until t. */
  lemma RefillPotential(rule: Rule, b: Bucket, at: int, now: int, t: int)
    requires Good(rule, b, at) && at <= now <= t
    ensures
      var r := Refilled(rule, b, now);
      r.tokens + (t - r.refilledAt) / rule.interval <= b.tokens + (t - b.refilledAt) / rule.interval
  {
    var d := rule.interval;
    var earned := (now - b.refilledAt) / d;
    QuotientSum(now - b.refilledAt, t - now, d);
    assert (now - b.refilledAt) + (t - now) == t - b.refilledAt;
    QuotientShift(t - b.refilledAt, d, earned);
  }

  lemma {:induction false} AdmittedBound(rule: Rule, b: Bucket, at: int, times: seq<int>, t: int)
    requires Good(rule, b, at) && Monotone(times, at) && at <= t && forall i :: 0 <= i < |times| ==> times[i] <= t
    ensures Admitted(rule, b, times) <= b.tokens + (t - b.refilledAt) / rule.interval
    decreases |times|
  {
    if times == [] {
      AtLeast(t - b.refilledAt, rule.interval, 0);
    } else {
      var x := times[0];
      MonotoneTail(times, at);
      RefillIsGood(rule, b, at, x);
      RefillPotential(rule, b, at, x, t);
      forall i | 0 <= i < |times[1..]| ensures times[1..][i] <= t {
        assert times[1..][i] == times[i + 1];
      }
      AdmittedBound(rule, After(rule, b, x), x, times[1..], t);
    }
  }

  lemma DuringBound(rule: Rule, b: Bucket, during: seq<int>, s: int, t: int)
    requires during != [] && Good(rule, b, during[0]) && Monotone(during, during[0])
    requires s <= during[0] && forall i :: 0 <= i < |during| ==> during[i] <= t
    ensures Admitted(rule, b, during) <= rule.burst + (t - s) / rule.interval
  {
    var x := during[0];
    var r := Refilled(rule, b, x);
    RefillIsGood(rule, b, x, x);
    MonotoneTail(during, x);
    forall i | 0 <= i < |during[1..]| ensures during[1..][i] <= t {
      assert during[1..][i] == during[i + 1];
    }
    AdmittedBound(rule, After(rule, b, x), x, during[1..], t);
    QuotientSum(t - x, x - r.refilledAt, rule.interval);
    assert (t - x) + (x - r.refilledAt) == t - r.refilledAt;
    QuotientGrows(t - x, t - s, rule.interval);
    AtLeast(x - r.refilledAt, rule.interval, 1);
  }

  /** Any interval [s, t] admits at most burst + floor((t - s) / interval) requests of a key,
      whatever came before it. */
  lemma AtMostBurstPlusRate(rule: Rule, start: int, before: seq<int>, during: seq<int>, s: int, t: int)
    requires Proper(rule) && s <= t && Monotone(before + during, start)
    requires forall i :: 0 <= i < |during| ==> s <= during[i] <= t
    ensures Admitted(rule, Run(rule, Fresh(rule, start), before), during) <= rule.burst + (t - s) / rule.interval
  {
    MonotoneSplit(before, during, start);
    AtLeast(t - s, rule.interval, 0);
    if during != [] {
      RunIsGood(rule, Fresh(rule, start), start, before, during[0]);
      DuringBound(rule, Run(rule, Fresh(rule, start), before), during, s, t);
    }
  }

  // ---------- the waiting times ----------

  /** A decision names the burst; it is an admission that takes a token, without a waiting time, or a
      rejection of an empty bucket, with one. */
  lemma DecisionIs(rule: Rule, b: Bucket, at: int, now: int)
    requires Good(rule, b, at) && at <= now
    ensures
      var d := Decide(rule, b, now);
      var r := Refilled(rule, b, now);
      && d.limit == rule.burst && d.remaining == After(rule, b, now).tokens
      && if d.allowed then d.retryAfter == 0 && d.remaining == r.tokens - 1 >= 0
         else d.retryAfter > 0 && d.remaining == r.tokens == 0
  {
    RefillIsGood(rule, b, at, now);
  }

  /** After a rejection at `now`: every request before now + RetryAfter is rejected and changes
      nothing, however many there are, and any request from that instant on is admitted. */
  lemma {:induction false} RetryAfterIsExact(rule: Rule, b: Bucket, at: int, now: int, times: seq<int>, next: int)
    requires Good(rule, b, at) && at <= now && !Decide(rule, b, now).allowed
    requires Monotone(times + [next], now)
    requires forall i :: 0 <= i < |times| ==> times[i] < now + Decide(rule, b, now).retryAfter
    ensures
      var d := Decide(rule, b, now);
      var b' := Run(rule, After(rule, b, now), times);
      && d.retryAfter > 0
      && Admitted(rule, After(rule, b, now), times) == 0
      && b' == After(rule, b, now)
      && (Decide(rule, b', next).allowed <==> next >= now + d.retryAfter)
    decreases |times|
  {
    RefillIsGood(rule, b, at, now);
    var b' := After(rule, b, now);
    MonotoneSplit(times, [next], now);
    assert now <= next by {
      assert [next][0] == next;
    }
    StuckUntil(rule, b', now, next);
    if times != [] {
      var x := times[0];
      MonotoneTail(times, now);
      StuckUntil(rule, b', now, x);
      assert times + [next] == [x] + (times[1..] + [next]);
      MonotoneTail(times + [next], now);
      assert (times + [next])[1..] == times[1..] + [next];
      forall i | 0 <= i < |times[1..]| ensures times[1..][i] < now + Decide(rule, b, now).retryAfter {
        assert times[1..][i] == times[i + 1];
      }
      assert Refilled(rule, b', x) == b' && x + Decide(rule, b', x).retryAfter == now + Decide(rule, b, now).retryAfter;
      RetryAfterIsExact(rule, b', now, x, times[1..], next);
    }
  }

  lemma StuckUntil(rule: Rule, b: Bucket, now: int, t: int)
    requires Good(rule, b, now) && b.tokens == 0 && now <= t
    ensures t < b.refilledAt + rule.interval ==> Refilled(rule, b, t) == b
    ensures t >= b.refilledAt + rule.interval ==> Refilled(rule, b, t).tokens > 0
  {
    AtLeast(t - b.refilledAt, rule.interval, 1);
    AtLeast(t - b.refilledAt, rule.interval, 0);
  }

  /** When the bucket is full again after a decision at `now`, in unbounded arithmetic. */
  function FullAt(rule: Rule, b: Bucket, now: int): int
    requires Proper(rule)
  {
    var b' := After(rule, b, now);
    b'.refilledAt + (rule.burst - b'.tokens) * rule.interval
  }

  lemma FullFrom(rule: Rule, b: Bucket, at: int, now: int, t: int)
    requires Good(rule, b, at) && at <= now <= t
    ensures FullAt(rule, b, now) > now
    ensures Refilled(rule, After(rule, b, now), t).tokens == rule.burst <==> t >= FullAt(rule, b, now)
  {
    RefillIsGood(rule, b, at, now);
    var b' := After(rule, b, now);
    AtLeast(t - b'.refilledAt, rule.interval, rule.burst - b'.tokens);
    AtLeast(t - b'.refilledAt, rule.interval, 0);
    Below(1, rule.burst - b'.tokens, rule.interval);
  }

  /** The bucket is full exactly from now + ResetAfter on. */
  ghost predicate ResetAfterHolds(rule: Rule, b: Bucket, now: int)
    requires Proper(rule)
  {
    forall t :: now <= t ==> FullBy(rule, b, now, t)
  }

  ghost predicate FullBy(rule: Rule, b: Bucket, now: int, t: int)
    requires Proper(rule)
  {
    Refilled(rule, After(rule, b, now), t).tokens == rule.burst <==> t >= now + Decide(rule, b, now).resetAfter
  }

  /** After any decision, ResetAfter is exact if and only if the missing tokens are worth a duration
      that fits an int64. */
  lemma ResetAfterIsExact(rule: Rule, b: Bucket, at: int, now: int)
    requires Good(rule, b, at) && at <= now
    ensures ResetAfterHolds(rule, b, now) <==> (rule.burst - Decide(rule, b, now).remaining) * rule.interval <= MAX_INT64
    ensures ResetAfterHolds(rule, b, now) ==> Decide(rule, b, now).resetAfter > 0
  {
    hide Refilled, After;
    var due := (rule.burst - After(rule, b, now).tokens) * rule.interval;
    FullFrom(rule, b, at, now, now);
    RemainingIsBelow(rule, b, at, now);
    Below(0, rule.burst - After(rule, b, now).tokens, rule.interval);
    WrapIsRight(due);
    if due <= MAX_INT64 {
      forall t | now <= t ensures FullBy(rule, b, now, t) {
        FullFrom(rule, b, at, now, t);
      }
    } else {
      var early := now + Decide(rule, b, now).resetAfter;
      var t := if early < now then now else early;
      FullFrom(rule, b, at, now, t);
      assert !FullBy(rule, b, now, t);
    }
  }

  lemma RemainingIsBelow(rule: Rule, b: Bucket, at: int, now: int)
    requires Good(rule, b, at) && at <= now
    ensures 0 <= After(rule, b, now).tokens <= rule.burst
  {
    RefillIsGood(rule, b, at, now);
  }

  /** The decision at `now` after any earlier requests has an exact ResetAfter. */
  ghost predicate ResetAfterInRun(rule: Rule, start: int, times: seq<int>, now: int)
    requires Proper(rule)
  {
    Monotone(times + [now], start) ==> ResetAfterHolds(rule, Run(rule, Fresh(rule, start), times), now)
  }

  lemma LastIsLatest(times: seq<int>, now: int, start: int)
    requires Monotone(times + [now], start)
    ensures Monotone(times, start) && start <= now && forall i :: 0 <= i < |times| ==> times[i] <= now
  {
    MonotoneSplit(times, [now], start);
    assert [now][0] == now;
  }

  lemma FitsForAll(rule: Rule, start: int, times: seq<int>, now: int)
    requires Proper(rule) && rule.burst * rule.interval <= MAX_INT64
    ensures ResetAfterInRun(rule, start, times, now)
  {
    if Monotone(times + [now], start) {
      LastIsLatest(times, now, start);
      RunIsGood(rule, Fresh(rule, start), start, times, now);
      var b := Run(rule, Fresh(rule, start), times);
      ResetAfterIsExact(rule, b, now, now);
      RemainingIsBelow(rule, b, now, now);
      Below(rule.burst - Decide(rule, b, now).remaining, rule.burst, rule.interval);
    }
  }

  /** Requests at one instant take the tokens one by one. */
  lemma {:induction false} TakenAtOnce(rule: Rule, n: nat, taken: nat)
    requires Proper(rule) && n + taken <= rule.burst
    ensures Run(rule, Bucket(rule.burst - taken, 0), seq(n, _ => 0)) == Bucket(rule.burst - taken - n, 0)
    decreases n
  {
    if n > 0 {
      AtLeast(0, rule.interval, 1);
      AtLeast(0, rule.interval, 0);
      assert seq(n, _ => 0)[1..] == seq(n - 1, _ => 0);
      assert After(rule, Bucket(rule.burst - taken, 0), 0) == Bucket(rule.burst - taken - 1, 0);
      TakenAtOnce(rule, n - 1, taken + 1);
    }
  }

  lemma BreaksWhenEmpty(rule: Rule)
    requires Proper(rule) && rule.burst * rule.interval > MAX_INT64
    ensures !ResetAfterInRun(rule, 0, seq(rule.burst, _ => 0), 0)
  {
    TakenAtOnce(rule, rule.burst, 0);
    AtLeast(0, rule.interval, 1);
    AtLeast(0, rule.interval, 0);
    ResetAfterIsExact(rule, Bucket(0, 0), 0, 0);
  }

  /** ResetAfter is exact in every run if and only if a whole bucket's worth fits an int64. */
  lemma ResetAfterAlwaysExact(rule: Rule)
    requires Proper(rule)
    ensures (forall start, times, now :: ResetAfterInRun(rule, start, times, now)) <==> rule.burst * rule.interval <= MAX_INT64
  {
    hide ResetAfterInRun;
    if rule.burst * rule.interval <= MAX_INT64 {
      forall start, times, now ensures ResetAfterInRun(rule, start, times, now) {
        FitsForAll(rule, start, times, now);
      }
    } else {
      BreaksWhenEmpty(rule);
    }
  }

  lemma {:induction false} PassAtOnce(rule: Rule, b: Bucket, now: int, n: nat)
    requires Good(rule, b, now) && Refilled(rule, b, now) == b
    ensures Admitted(rule, b, seq(n, _ => now)) == if n <= b.tokens then n else b.tokens
    decreases n
  {
    if n > 0 {
      var times := seq(n, _ => now);
      assert times[1..] == seq(n - 1, _ => now);
      var b' := After(rule, b, now);
      AtLeast(now - b.refilledAt, rule.interval, 1);
      AtLeast(now - b.refilledAt, rule.interval, 0);
      assert Refilled(rule, b', now) == b' by {
        RefillIsGood(rule, b, now, now);
      }
      PassAtOnce(rule, b', now, n - 1);
    }
  }

  /** Remaining is exactly how many more requests pass at the same instant. */
  lemma RemainingIsExact(rule: Rule, b: Bucket, at: int, now: int, n: nat)
    requires Good(rule, b, at) && at <= now
    ensures
      var d := Decide(rule, b, now);
      Admitted(rule, After(rule, b, now), seq(n, _ => now)) == if n <= d.remaining then n else d.remaining
  {
    RefillIsGood(rule, b, at, now);
    var b' := After(rule, b, now);
    AtLeast(now - b'.refilledAt, rule.interval, 1);
    AtLeast(now - b'.refilledAt, rule.interval, 0);
    PassAtOnce(rule, b', now, n);
  }
}
