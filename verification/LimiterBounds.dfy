/**
 What the rate limiters admit as a whole: any key, among requests for any other keys, with evictions
 of idle keys at any instants.
 */
module LimiterBounds {
  import opened Basics
  import opened Limits
  import opened LimiterStore
  import TokenBucket
  import SlidingWindow

  function Allowed(ds: seq<Decision>): nat {
    if ds == [] then 0 else (if ds[0].allowed then 1 else 0) + Allowed(ds[1..])
  }

  // ---------- the requests of one key ----------

  lemma {:induction false} TimesTogether(a: seq<Event>, b: seq<Event>, key: string)
    ensures TimesOf(a + b, key) == TimesOf(a, key) + TimesOf(b, key)
  {
    if a == [] {
      assert a + b == b;
    } else {
      assert (a + b)[0] == a[0] && (a + b)[1..] == a[1..] + b;
      TimesTogether(a[1..], b, key);
    }
  }

  lemma {:induction false} TimesAreMonotone(events: seq<Event>, key: string, from: int)
    requires InOrder(events, from)
    ensures Monotone(TimesOf(events, key), from)
    decreases |events|
  {
    if events != [] {
      var x := events[0].now;
      assert InOrder(events[1..], x) by {
        forall i | 0 <= i < |events[1..]| ensures x <= events[1..][i].now {
          assert events[1..][i] == events[i + 1];
        }
        forall i, j | 0 <= i < j < |events[1..]| ensures events[1..][i].now <= events[1..][j].now {
          assert events[1..][i] == events[i + 1] && events[1..][j] == events[j + 1];
        }
      }
      TimesAreMonotone(events[1..], key, x);
      var rest := TimesOf(events[1..], key);
      if events[0].Ask? && events[0].key == key {
        Ahead(x, rest, from);
      } else {
        assert [] + rest == rest;
      }
    }
  }

  lemma Ahead(x: int, rest: seq<int>, from: int)
    requires Monotone(rest, x) && from <= x
    ensures Monotone([x] + rest, from)
  {
    var s := [x] + rest;
    forall i, j | 0 <= i < j < |s| ensures s[i] <= s[j] {
      assert s[j] == rest[j - 1];
      assert i > 0 ==> s[i] == rest[i - 1];
    }
  }

  /** The requests of the key are within the interval. */
  ghost predicate AskedWithin(events: seq<Event>, key: string, from: int, to: int) {
    forall i :: 0 <= i < |TimesOf(events, key)| ==> from <= TimesOf(events, key)[i] <= to
  }

  lemma {:induction false} SoloLength<S(!new)>(a: Algorithm<S>, state: Option<S>, times: seq<int>)
    ensures |Solo(a, state, times)| == |times|
    decreases |times|
  {
    if times != [] {
      var s := if state.Some? then state.value else a.begin(times[0]);
      SoloLength(a, Some(a.step(s, times[0]).0), times[1..]);
    }
  }

  // ---------- the token bucket ----------

  lemma {:induction false} BucketSolo(rule: TokenBucket.Rule, b: TokenBucket.Bucket, x: seq<int>, y: seq<int>)
    requires TokenBucket.Proper(rule)
    ensures
      var a := Buckets(rule);
      Solo(a, Some(b), x + y) == Solo(a, Some(b), x) + Solo(a, Some(TokenBucket.Run(rule, b, x)), y)
    decreases |x|
  {
    hide TokenBucket.After, TokenBucket.Decide, Wrap;
    if x == [] {
      assert x + y == y;
    } else {
      assert (x + y)[0] == x[0] && (x + y)[1..] == x[1..] + y;
      BucketSolo(rule, TokenBucket.After(rule, b, x[0]), x[1..], y);
    }
  }

  lemma {:induction false} BucketAllowed(rule: TokenBucket.Rule, b: TokenBucket.Bucket, times: seq<int>)
    requires TokenBucket.Proper(rule)
    ensures Allowed(Solo(Buckets(rule), Some(b), times)) == TokenBucket.Admitted(rule, b, times)
    decreases |times|
  {
    hide TokenBucket.After, TokenBucket.Decide, Wrap;
    if times != [] {
      BucketAllowed(rule, TokenBucket.After(rule, b, times[0]), times[1..]);
      var ds := Solo(Buckets(rule), Some(b), times);
      assert ds[1..] == Solo(Buckets(rule), Some(TokenBucket.After(rule, b, times[0])), times[1..]);
    }
  }

  lemma BucketBegins(rule: TokenBucket.Rule, times: seq<int>)
    requires TokenBucket.Proper(rule) && times != []
    ensures Solo(Buckets(rule), None, times) == Solo(Buckets(rule), Some(TokenBucket.Fresh(rule, times[0])), times)
  {
    hide TokenBucket.After, TokenBucket.Decide, Wrap;
  }

  lemma BucketBound(rule: TokenBucket.Rule, before: seq<int>, during: seq<int>, s: int, t: int)
    requires TokenBucket.Proper(rule) && s <= t && Monotone(before + during, 0)
    requires forall i :: 0 <= i < |during| ==> s <= during[i] <= t
    ensures
      var ds := Solo(Buckets(rule), None, before + during);
      |ds| == |before| + |during| && Allowed(ds[|before|..]) <= rule.burst + (t - s) / rule.interval
  {
    hide TokenBucket.Run, TokenBucket.Admitted, Solo, Allowed, Monotone;
    var times := before + during;
    var a := Buckets(rule);
    SoloLength(a, None, times);
    AtLeast(t - s, rule.interval, 0);
    if times == [] {
      assert Solo(a, None, times)[|before|..] == [];
      NoneAllowed();
    } else {
      var start := times[0];
      var b := TokenBucket.Fresh(rule, start);
      BucketBegins(rule, times);
      BucketSolo(rule, b, before, during);
      SoloLength(a, Some(b), before);
      var later := Solo(a, Some(TokenBucket.Run(rule, b, before)), during);
      assert Solo(a, None, times)[|before|..] == later;
      BucketAllowed(rule, TokenBucket.Run(rule, b, before), during);
      FromStart(times);
      TokenBucket.AtMostBurstPlusRate(rule, start, before, during, s, t);
    }
  }

  lemma NoneAllowed()
    ensures Allowed([]) == 0
  {
  }

  lemma FromStart(times: seq<int>)
    requires times != [] && Monotone(times, 0)
    ensures Monotone(times, times[0])
  {
  }

  // ---------- the sliding window ----------

  lemma {:induction false} WindowRunFront(rule: SlidingWindow.Rule, w: SlidingWindow.Window, x: int, rest: seq<int>)
    requires SlidingWindow.Proper(rule)
    ensures SlidingWindow.Run(rule, w, [x] + rest) == SlidingWindow.Run(rule, SlidingWindow.After(rule, w, x), rest)
    ensures SlidingWindow.Admitted(rule, w, [x] + rest)
            == (if SlidingWindow.Decide(rule, w, x).allowed then 1 else 0) + SlidingWindow.Admitted(rule, SlidingWindow.After(rule, w, x), rest)
    decreases |rest|
  {
    hide SlidingWindow.After, SlidingWindow.Decide;
    var all := [x] + rest;
    if rest == [] {
      assert all == [x] && all[..0] == [];
      assert SlidingWindow.Run(rule, w, all[..0]) == w;
    } else {
      var n := |rest| - 1;
      assert all[..|all| - 1] == [x] + rest[..n] && all[|all| - 1] == rest[n];
      WindowRunFront(rule, w, x, rest[..n]);
    }
  }

  lemma {:induction false} WindowSolo(rule: SlidingWindow.Rule, w: SlidingWindow.Window, x: seq<int>, y: seq<int>)
    requires SlidingWindow.Proper(rule)
    ensures
      var a := Windows(rule);
      Solo(a, Some(w), x + y) == Solo(a, Some(w), x) + Solo(a, Some(SlidingWindow.Run(rule, w, x)), y)
    decreases |x|
  {
    hide SlidingWindow.After, SlidingWindow.Decide, Wrap;
    if x == [] {
      assert x + y == y;
    } else {
      assert (x + y)[0] == x[0] && (x + y)[1..] == x[1..] + y;
      assert [x[0]] + x[1..] == x;
      WindowRunFront(rule, w, x[0], x[1..]);
      WindowSolo(rule, SlidingWindow.After(rule, w, x[0]), x[1..], y);
    }
  }

  lemma {:induction false} WindowAllowed(rule: SlidingWindow.Rule, w: SlidingWindow.Window, times: seq<int>)
    requires SlidingWindow.Proper(rule)
    ensures Allowed(Solo(Windows(rule), Some(w), times)) == SlidingWindow.Admitted(rule, w, times)
    decreases |times|
  {
    hide SlidingWindow.After, SlidingWindow.Decide, Wrap;
    if times != [] {
      WindowAllowed(rule, SlidingWindow.After(rule, w, times[0]), times[1..]);
      WindowRunFront(rule, w, times[0], times[1..]);
      assert [times[0]] + times[1..] == times;
      var ds := Solo(Windows(rule), Some(w), times);
      assert ds[1..] == Solo(Windows(rule), Some(SlidingWindow.After(rule, w, times[0])), times[1..]);
    }
  }

  lemma WindowBegins(rule: SlidingWindow.Rule, times: seq<int>)
    requires SlidingWindow.Proper(rule)
    ensures Solo(Windows(rule), None, times) == Solo(Windows(rule), Some(SlidingWindow.Fresh), times)
  {
    hide SlidingWindow.After, SlidingWindow.Decide, Wrap;
  }

  lemma WindowBound(rule: SlidingWindow.Rule, before: seq<int>, during: seq<int>, s: int)
    requires SlidingWindow.Proper(rule) && Monotone(before + during, 0)
    requires forall i :: 0 <= i < |during| ==> s <= during[i] <= s + rule.period
    ensures
      var ds := Solo(Windows(rule), None, before + during);
      |ds| == |before| + |during| && Allowed(ds[|before|..]) <= 2 * rule.limit - 1
  {
    hide SlidingWindow.Run, SlidingWindow.Admitted, Solo, Allowed, Monotone;
    var a := Windows(rule);
    var w := SlidingWindow.Fresh;
    SoloLength(a, None, before + during);
    WindowBegins(rule, before + during);
    WindowSolo(rule, w, before, during);
    SoloLength(a, Some(w), before);
    var later := Solo(a, Some(SlidingWindow.Run(rule, w, before)), during);
    assert Solo(a, None, before + during)[|before|..] == later;
    WindowAllowed(rule, SlidingWindow.Run(rule, w, before), during);
    SlidingWindow.TwiceTheLimitLessOne(rule, before, during, s);
  }

  // ---------- theorems ----------

  lemma DecisionsAreSolo(bucket: TokenBucket.Rule, window: SlidingWindow.Rule, before: seq<Event>, during: seq<Event>, key: string)
    requires TokenBucket.Proper(bucket) && SlidingWindow.Proper(window) && InOrder(before + during, 0)
    ensures Monotone(TimesOf(before, key) + TimesOf(during, key), 0)
    ensures bucket.burst * bucket.interval <= MAX_INT64 ==>
              DecisionsFor(Buckets(bucket), map[], before + during, true, key)
              == Solo(Buckets(bucket), None, TimesOf(before, key) + TimesOf(during, key))
    ensures 2 * window.period <= MAX_INT64 ==>
              DecisionsFor(Windows(window), map[], before + during, true, key)
              == Solo(Windows(window), None, TimesOf(before, key) + TimesOf(during, key))
  {
    hide DecisionsFor, Solo, TimesOf, InOrder, Monotone;
    TimesTogether(before, during, key);
    TimesAreMonotone(before + during, key, 0);
    EachKeyIsAlone(bucket, window, before + during, key);
  }

  /** Among requests for any keys and evictions at any instants: of the requests for one key within
      [s, t], the token bucket admits at most burst + floor((t - s) / interval), whatever came before,
      if its ttl did not overflow. */
  lemma BucketKeepsItsRate(rule: TokenBucket.Rule, before: seq<Event>, during: seq<Event>, key: string, s: int, t: int)
    requires TokenBucket.Proper(rule) && rule.burst * rule.interval <= MAX_INT64
    requires InOrder(before + during, 0) && s <= t && AskedWithin(during, key, s, t)
    ensures
      var ds := DecisionsFor(Buckets(rule), map[], before + during, true, key);
      var earlier := |TimesOf(before, key)|;
      |ds| == earlier + |TimesOf(during, key)| && Allowed(ds[earlier..]) <= rule.burst + (t - s) / rule.interval
  {
    hide DecisionsFor, Solo, TimesOf, InOrder, Allowed, Monotone;
    DecisionsAreSolo(rule, SlidingWindow.Rule(1, 1), before, during, key);
    BucketBound(rule, TimesOf(before, key), TimesOf(during, key), s, t);
  }

  /** And the sliding window admits at most 2 * limit - 1 within any interval of one period. */
  lemma WindowKeepsItsBound(rule: SlidingWindow.Rule, before: seq<Event>, during: seq<Event>, key: string, s: int)
    requires SlidingWindow.Proper(rule) && 2 * rule.period <= MAX_INT64
    requires InOrder(before + during, 0) && AskedWithin(during, key, s, s + rule.period)
    ensures
      var ds := DecisionsFor(Windows(rule), map[], before + during, true, key);
      var earlier := |TimesOf(before, key)|;
      |ds| == earlier + |TimesOf(during, key)| && Allowed(ds[earlier..]) <= 2 * rule.limit - 1
  {
    hide DecisionsFor, Solo, TimesOf, InOrder, Allowed, Monotone;
    DecisionsAreSolo(TokenBucket.Rule(1, 1), rule, before, during, key);
    WindowBound(rule, TimesOf(before, key), TimesOf(during, key), s);
  }
}
