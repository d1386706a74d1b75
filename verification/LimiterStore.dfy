/**
 The keyed store behind both limiters: it creates the state of a key on its first request and
 drops the state of a key that has been idle for the ttl. Eviction cannot be observed.
 */
module LimiterStore {
  import opened Basics
  import opened Limits
  import TokenBucket
  import SlidingWindow

  datatype Entry<S> = Entry(state: S, lastSeen: int)

  type Entries<S> = map<string, Entry<S>>

  /** What a limiter plugs into the store. */
  datatype Algorithm<!S> = Algorithm(ttl: int, begin: int -> S, step: (S, int) -> (S, Decision))

  function Asked<S>(a: Algorithm<S>, es: Entries<S>, key: string, now: int): (Entries<S>, Decision) {
    var state := if key in es then es[key].state else a.begin(now);
    var (next, d) := a.step(state, now);
    (es[key := Entry(next, now)], d)
  }

  function Evicted<S>(ttl: int, es: Entries<S>, now: int): Entries<S> {
    map k | k in es && now - es[k].lastSeen < ttl :: es[k]
  }

  class Store<S(!new)> {
    const a: Algorithm<S>
    var entries: Entries<S>
    var closed: bool

    constructor (a: Algorithm<S>)
      ensures this.a == a && entries == map[] && !closed
    {
      this.a, entries, closed := a, map[], false;
    }

    /** A decision, or nothing once the store is closed. */
    method Do(key: string, now: int) returns (r: Option<Decision>)
      modifies this
      ensures closed == old(closed)
      ensures closed ==> r == None && entries == old(entries)
      ensures !closed ==>
                && r == Some(Asked(a, old(entries), key, now).1)
                && entries == Asked(a, old(entries), key, now).0
      ensures !closed ==> key in entries && entries[key].lastSeen == now
      ensures !closed ==> entries.Keys == old(entries.Keys) + {key}
      ensures forall k :: k in old(entries) && k != key ==> k in entries && entries[k] == old(entries)[k]
    {
      if closed {
        return None;
      }
      if key !in entries {
        entries := entries[key := Entry(a.begin(now), now)];
      }
      var (next, d) := a.step(entries[key].state, now);
      entries := entries[key := Entry(next, now)];
      r := Some(d);
    }

    method EvictIdle(now: int)
      modifies this
      ensures closed == old(closed) && entries == Evicted(a.ttl, old(entries), now)
      ensures forall k :: k in entries <==> k in old(entries) && now - old(entries)[k].lastSeen < a.ttl
      ensures forall k :: k in entries ==> entries[k] == old(entries)[k]
    {
      entries := map k | k in entries && now - entries[k].lastSeen < a.ttl :: entries[k];
    }

    method Close()
      modifies this
      ensures closed && entries == map[]
    {
      closed, entries := true, map[];
    }
  }

  // ---------- eviction is invisible ----------

  datatype Event = Ask(key: string, now: int) | Tick(now: int)

  function Apply<S>(a: Algorithm<S>, es: Entries<S>, e: Event, evicts: bool): Entries<S> {
    match e
    case Ask(key, now) => Asked(a, es, key, now).0
    case Tick(now) => if evicts then Evicted(a.ttl, es, now) else es
  }

  /** The decisions of a run, with an eviction at each tick or with none. */
  function Decisions<S>(a: Algorithm<S>, es: Entries<S>, events: seq<Event>, evicts: bool): seq<Decision>
    decreases |events|
  {
    if events == [] then []
    else
      (if events[0].Ask? then [Asked(a, es, events[0].key, events[0].now).1] else []) +
      Decisions(a, Apply(a, es, events[0], evicts), events[1..], evicts)
  }

  ghost predicate InOrder(events: seq<Event>, from: int) {
    && (forall i :: 0 <= i < |events| ==> from <= events[i].now)
    && (forall i, j :: 0 <= i < j < |events| ==> events[i].now <= events[j].now)
  }

  /** The algorithm forgets what is older than the ttl; `good` is its invariant. */
  ghost predicate Forgets<S(!new)>(a: Algorithm<S>, good: (S, int) -> bool) {
    && (forall now :: now >= 0 ==> good(a.step(a.begin(now), now).0, now))
    && (forall s, at, now {:trigger good(s, at), a.step(s, now)} :: 0 <= at <= now && good(s, at) ==> good(a.step(s, now).0, now))
    && (forall s, at, now {:trigger good(s, at), a.step(s, now)} ::
          0 <= at && good(s, at) && now - at >= a.ttl && at <= now ==> a.step(s, now) == a.step(a.begin(now), now))
  }

  /** Every state is good, and the evicting store lacks only keys that are idle. */
  ghost predicate Related<S(!new)>(a: Algorithm<S>, good: (S, int) -> bool, e: Entries<S>, n: Entries<S>, now: int) {
    && (forall k :: k in e ==> k in n && e[k] == n[k])
    && (forall k :: k in n ==> 0 <= n[k].lastSeen <= now && good(n[k].state, n[k].lastSeen))
    && (forall k :: k in n && k !in e ==> now - n[k].lastSeen >= a.ttl)
  }

  lemma AskKeeps<S(!new)>(a: Algorithm<S>, good: (S, int) -> bool, e: Entries<S>, n: Entries<S>, key: string, at: int, now: int)
    requires Forgets(a, good) && Related(a, good, e, n, at) && 0 <= at <= now
    ensures Asked(a, e, key, now).1 == Asked(a, n, key, now).1
    ensures Related(a, good, Asked(a, e, key, now).0, Asked(a, n, key, now).0, now)
  {
    var first := a.step(a.begin(now), now);
    assert good(first.0, now);
    if key in n {
      var s := n[key].state;
      assert good(s, n[key].lastSeen);
      assert good(a.step(s, now).0, now);
    }
  }

  lemma TickKeeps<S(!new)>(a: Algorithm<S>, good: (S, int) -> bool, e: Entries<S>, n: Entries<S>, at: int, now: int)
    requires Related(a, good, e, n, at) && at <= now
    ensures Related(a, good, Evicted(a.ttl, e, now), n, now)
  {
  }

  lemma {:induction false} SameDecisions<S(!new)>(
      a: Algorithm<S>, good: (S, int) -> bool, e: Entries<S>, n: Entries<S>, events: seq<Event>, at: int)
    requires Forgets(a, good) && Related(a, good, e, n, at) && 0 <= at && InOrder(events, at)
    ensures Decisions(a, e, events, true) == Decisions(a, n, events, false)
    decreases |events|
  {
    hide Forgets, Related, Asked, Evicted;
    if events != [] {
      var x := events[0];
      forall i | 0 <= i < |events[1..]| ensures x.now <= events[1..][i].now {
        assert events[1..][i] == events[i + 1];
      }
      match x {
        case Ask(key, now) => AskKeeps(a, good, e, n, key, at, now);
        case Tick(now) => TickKeeps(a, good, e, n, at, now);
      }
      SameDecisions(a, good, Apply(a, e, x, true), Apply(a, n, x, false), events[1..], x.now);
    }
  }

  ghost predicate SameAt<S(!new)>(a: Algorithm<S>, events: seq<Event>) {
    InOrder(events, 0) ==> Decisions(a, map[], events, true) == Decisions(a, map[], events, false)
  }

  /** Over every sequence of requests for any keys and of ticks at any instants, the limiter decides
      as if nothing were ever evicted. */
  ghost predicate Invisible<S(!new)>(a: Algorithm<S>) {
    forall events :: SameAt(a, events)
  }

  lemma ForgettingIsInvisible<S(!new)>(a: Algorithm<S>, good: (S, int) -> bool)
    requires Forgets(a, good)
    ensures Invisible(a)
  {
    hide Forgets;
    forall events ensures SameAt(a, events) {
      if InOrder(events, 0) {
        SameDecisions(a, good, map[], map[], events, 0);
      }
    }
  }

  // ---------- keys are separate ----------

  /** The decisions for one key in a run with all keys. */
  function DecisionsFor<S>(a: Algorithm<S>, es: Entries<S>, events: seq<Event>, evicts: bool, key: string): seq<Decision>
    decreases |events|
  {
    if events == [] then []
    else
      (if events[0].Ask? && events[0].key == key then [Asked(a, es, key, events[0].now).1] else []) +
      DecisionsFor(a, Apply(a, es, events[0], evicts), events[1..], evicts, key)
  }

  /** The instants of the requests for one key. */
  function TimesOf(events: seq<Event>, key: string): seq<int> {
    if events == [] then []
    else (if events[0].Ask? && events[0].key == key then [events[0].now] else []) + TimesOf(events[1..], key)
  }

  /** What the algorithm decides for one key alone, without a store: the state begins with the first
      request. */
  function Solo<S>(a: Algorithm<S>, state: Option<S>, times: seq<int>): seq<Decision>
    decreases |times|
  {
    if times == [] then []
    else
      var s := if state.Some? then state.value else a.begin(times[0]);
      [a.step(s, times[0]).1] + Solo(a, Some(a.step(s, times[0]).0), times[1..])
  }

  function StateOf<S>(es: Entries<S>, key: string): Option<S> {
    if key in es then Some(es[key].state) else None
  }

  /** Without eviction, whatever is asked for other keys: a key gets the decisions that it would get
      alone. */
  lemma {:induction false} KeysAreSeparate<S(!new)>(a: Algorithm<S>, es: Entries<S>, events: seq<Event>, key: string)
    ensures DecisionsFor(a, es, events, false, key) == Solo(a, StateOf(es, key), TimesOf(events, key))
    decreases |events|
  {
    if events != [] {
      var e := events[0];
      KeysAreSeparate(a, Apply(a, es, e, false), events[1..], key);
      if e.Ask? && e.key == key {
        var rest := TimesOf(events[1..], key);
        assert TimesOf(events, key) == [e.now] + rest && ([e.now] + rest)[1..] == rest;
      } else {
        assert StateOf(Apply(a, es, e, false), key) == StateOf(es, key);
        assert [] + TimesOf(events[1..], key) == TimesOf(events[1..], key);
      }
    }
  }

  lemma {:induction false} SameForKey<S(!new)>(
      a: Algorithm<S>, good: (S, int) -> bool, e: Entries<S>, n: Entries<S>, events: seq<Event>, at: int, key: string)
    requires Forgets(a, good) && Related(a, good, e, n, at) && 0 <= at && InOrder(events, at)
    ensures DecisionsFor(a, e, events, true, key) == DecisionsFor(a, n, events, false, key)
    decreases |events|
  {
    hide Forgets, Related, Asked, Evicted;
    if events != [] {
      var x := events[0];
      forall i | 0 <= i < |events[1..]| ensures x.now <= events[1..][i].now {
        assert events[1..][i] == events[i + 1];
      }
      match x {
        case Ask(k, now) => AskKeeps(a, good, e, n, k, at, now);
        case Tick(now) => TickKeeps(a, good, e, n, at, now);
      }
      SameForKey(a, good, Apply(a, e, x, true), Apply(a, n, x, false), events[1..], x.now, key);
    }
  }

  // ---------- the token bucket ----------

  /** The ttl is a product of two int64. */
  ghost function Buckets(rule: TokenBucket.Rule): Algorithm<TokenBucket.Bucket>
    requires TokenBucket.Proper(rule)
  {
    Algorithm(
      Wrap(rule.burst * rule.interval),
      now => TokenBucket.Fresh(rule, now),
      (b: TokenBucket.Bucket, now: int) => (TokenBucket.After(rule, b, now), TokenBucket.Decide(rule, b, now)))
  }

  lemma BucketForgets(rule: TokenBucket.Rule, b: TokenBucket.Bucket, at: int, now: int)
    requires TokenBucket.Good(rule, b, at) && now - at >= rule.burst * rule.interval
    ensures TokenBucket.Refilled(rule, b, now) == TokenBucket.Refilled(rule, TokenBucket.Fresh(rule, now), now)
  {
    Below(0, rule.burst, rule.interval);
    AtLeast(now - b.refilledAt, rule.interval, rule.burst);
    AtLeast(0, rule.interval, 0);
  }

  lemma BucketTtl(rule: TokenBucket.Rule)
    requires TokenBucket.Proper(rule)
    ensures
      var product := rule.burst * rule.interval;
      && product > 0
      && (product <= MAX_INT64 ==> Buckets(rule).ttl == product)
      && (product > MAX_INT64 ==> Buckets(rule).ttl < product && rule.burst > 1)
  {
    Below(1, rule.burst, rule.interval);
    WrapIsRight(rule.burst * rule.interval);
  }

  lemma FittingBucketsForget(rule: TokenBucket.Rule)
    requires TokenBucket.Proper(rule) && rule.burst * rule.interval <= MAX_INT64
    ensures Forgets(Buckets(rule), (b, at) => TokenBucket.Good(rule, b, at))
  {
    hide TokenBucket.Refilled, Wrap;
    var a := Buckets(rule);
    var good := (b: TokenBucket.Bucket, at: int) => TokenBucket.Good(rule, b, at);
    BucketTtl(rule);
    forall now | now >= 0 ensures good(a.step(a.begin(now), now).0, now) {
      TokenBucket.RefillIsGood(rule, TokenBucket.Fresh(rule, now), now, now);
    }
    forall b, at, now {:trigger good(b, at), a.step(b, now)} | 0 <= at <= now && good(b, at) ensures good(a.step(b, now).0, now) {
      TokenBucket.RefillIsGood(rule, b, at, now);
    }
    forall b, at, now | 0 <= at && good(b, at) && now - at >= a.ttl && at <= now
      ensures a.step(b, now) == a.step(a.begin(now), now)
    {
      BucketForgets(rule, b, at, now);
    }
  }

  /** n requests at once, then a tick and one more request at instant t. */
  function Probe(n: nat, t: int): seq<Event> {
    if n == 0 then [Tick(t), Ask("k", t)] else [Ask("k", 0)] + Probe(n - 1, t)
  }

  lemma {:induction false} ProbeInOrder(n: nat, t: int)
    requires t >= 0
    ensures InOrder(Probe(n, t), 0) && forall i :: 0 <= i < |Probe(n, t)| ==> Probe(n, t)[i].now <= t
  {
    if n > 0 {
      ProbeInOrder(n - 1, t);
    }
  }

  /** An emptied bucket that is evicted too early comes back full. */
  lemma EvictedTooEarly(rule: TokenBucket.Rule, t: int)
    requires TokenBucket.Proper(rule) && rule.burst > 1
    requires 0 <= t < rule.burst * rule.interval && Buckets(rule).ttl <= t
    ensures
      var es := map["k" := Entry(TokenBucket.Bucket(0, 0), 0)];
      Decisions(Buckets(rule), es, Probe(0, t), true) != Decisions(Buckets(rule), es, Probe(0, t), false)
  {
    hide Wrap;
    var a := Buckets(rule);
    var es := map["k" := Entry(TokenBucket.Bucket(0, 0), 0)];
    AtLeast(t, rule.interval, rule.burst);
    AtLeast(t, rule.interval, 0);
    AtLeast(0, rule.interval, 0);
    var full := TokenBucket.Decide(rule, TokenBucket.Fresh(rule, t), t);
    var kept := TokenBucket.Decide(rule, TokenBucket.Bucket(0, 0), t);
    assert full.remaining == rule.burst - 1 && kept.remaining < rule.burst - 1;
    assert Evicted(a.ttl, es, t) == map[];
    LastTwo(a, es, t, true);
    LastTwo(a, es, t, false);
  }

  lemma LastTwo<S(!new)>(a: Algorithm<S>, es: Entries<S>, t: int, evicts: bool)
    ensures Decisions(a, es, Probe(0, t), evicts) == [Asked(a, if evicts then Evicted(a.ttl, es, t) else es, "k", t).1]
  {
    var rest := Probe(0, t)[1..];
    assert rest == [Ask("k", t)] && rest[1..] == [];
    assert Decisions(a, Asked(a, if evicts then Evicted(a.ttl, es, t) else es, "k", t).0, [], evicts) == [];
  }

  lemma LaterDiffers(rule: TokenBucket.Rule, es: Entries<TokenBucket.Bucket>, tokens: nat, n: nat, t: int)
    requires TokenBucket.Proper(rule) && 0 < tokens <= rule.burst && n > 0
    requires es == map["k" := Entry(TokenBucket.Bucket(tokens, 0), 0)] || (es == map[] && tokens == rule.burst)
    requires
      var next := map["k" := Entry(TokenBucket.Bucket(tokens - 1, 0), 0)];
      Decisions(Buckets(rule), next, Probe(n - 1, t), true) != Decisions(Buckets(rule), next, Probe(n - 1, t), false)
    ensures Decisions(Buckets(rule), es, Probe(n, t), true) != Decisions(Buckets(rule), es, Probe(n, t), false)
  {
    hide Buckets, Decisions;
    FirstAsk(rule, es, tokens, n, t, true);
    FirstAsk(rule, es, tokens, n, t, false);
    var next := map["k" := Entry(TokenBucket.Bucket(tokens - 1, 0), 0)];
    SameHead(
      TokenBucket.Decide(rule, TokenBucket.Bucket(tokens, 0), 0),
      Decisions(Buckets(rule), next, Probe(n - 1, t), true), Decisions(Buckets(rule), next, Probe(n - 1, t), false));
  }

  lemma SameHead(d: Decision, x: seq<Decision>, y: seq<Decision>)
    requires x != y
    ensures [d] + x != [d] + y
  {
    assert ([d] + x)[1..] == x && ([d] + y)[1..] == y;
  }

  lemma {:induction false} ProbeTellsApart(rule: TokenBucket.Rule, t: int, n: nat)
    requires TokenBucket.Proper(rule) && 1 < rule.burst && n < rule.burst
    requires 0 <= t < rule.burst * rule.interval && Buckets(rule).ttl <= t
    ensures
      var es := map["k" := Entry(TokenBucket.Bucket(n, 0), 0)];
      Decisions(Buckets(rule), es, Probe(n, t), true) != Decisions(Buckets(rule), es, Probe(n, t), false)
  {
    hide Buckets, Decisions;
    if n == 0 {
      EvictedTooEarly(rule, t);
    } else {
      ProbeTellsApart(rule, t, n - 1);
      LaterDiffers(rule, map["k" := Entry(TokenBucket.Bucket(n, 0), 0)], n, n, t);
    }
  }

  /** One request at instant 0 takes one of n tokens; a new key has them all. */
  lemma FirstAsk(rule: TokenBucket.Rule, es: Entries<TokenBucket.Bucket>, tokens: nat, n: nat, t: int, evicts: bool)
    requires TokenBucket.Proper(rule) && 0 < tokens <= rule.burst && n > 0
    requires es == map["k" := Entry(TokenBucket.Bucket(tokens, 0), 0)] || (es == map[] && tokens == rule.burst)
    ensures Decisions(Buckets(rule), es, Probe(n, t), evicts)
            == [TokenBucket.Decide(rule, TokenBucket.Bucket(tokens, 0), 0)]
             + Decisions(Buckets(rule), map["k" := Entry(TokenBucket.Bucket(tokens - 1, 0), 0)], Probe(n - 1, t), evicts)
  {
    hide Wrap, Decisions;
    AtLeast(0, rule.interval, 0);
    AtLeast(0, rule.interval, 1);
    var b := TokenBucket.Bucket(tokens, 0);
    assert TokenBucket.After(rule, b, 0) == TokenBucket.Bucket(tokens - 1, 0);
    var next := map["k" := Entry(TokenBucket.Bucket(tokens - 1, 0), 0)];
    var state := if "k" in es then es["k"].state else Buckets(rule).begin(0);
    assert state == b;
    assert Buckets(rule).step(state, 0) == (TokenBucket.After(rule, b, 0), TokenBucket.Decide(rule, b, 0));
    assert Asked(Buckets(rule), es, "k", 0).0 == next;
    Unfold(Buckets(rule), es, Probe(n, t), evicts);
    assert Probe(n, t)[1..] == Probe(n - 1, t);
  }

  lemma Unfold<S(!new)>(a: Algorithm<S>, es: Entries<S>, events: seq<Event>, evicts: bool)
    requires events != [] && events[0].Ask?
    ensures Decisions(a, es, events, evicts)
            == [Asked(a, es, events[0].key, events[0].now).1]
             + Decisions(a, Asked(a, es, events[0].key, events[0].now).0, events[1..], evicts)
  {
  }

  lemma OverflowingBucketsShow(rule: TokenBucket.Rule)
    requires TokenBucket.Proper(rule) && rule.burst * rule.interval > MAX_INT64
    ensures !Invisible(Buckets(rule))
  {
    hide Wrap, Decisions;
    BucketTtl(rule);
    var a := Buckets(rule);
    var t := if a.ttl < 0 then 0 else a.ttl;
    var events := Probe(rule.burst, t);
    ProbeInOrder(rule.burst, t);
    ProbeTellsApart(rule, t, rule.burst - 1);
    LaterDiffers(rule, map[], rule.burst, rule.burst, t);
    assert !SameAt(a, events);
  }

  /** A bucket that is idle for the ttl decides like a new one if and only if the ttl did not overflow. */
  lemma BucketsForget(rule: TokenBucket.Rule)
    requires TokenBucket.Proper(rule)
    ensures Forgets(Buckets(rule), (b, at) => TokenBucket.Good(rule, b, at)) <==> rule.burst * rule.interval <= MAX_INT64
  {
    if rule.burst * rule.interval <= MAX_INT64 {
      FittingBucketsForget(rule);
    } else {
      OverflowingBucketsShow(rule);
      if Forgets(Buckets(rule), (b, at) => TokenBucket.Good(rule, b, at)) {
        ForgettingIsInvisible(Buckets(rule), (b, at) => TokenBucket.Good(rule, b, at));
      }
    }
  }

  // ---------- the sliding window ----------

  /** The ttl is twice an int64. */
  ghost function Windows(rule: SlidingWindow.Rule): Algorithm<SlidingWindow.Window>
    requires SlidingWindow.Proper(rule)
  {
    Algorithm(
      Wrap(2 * rule.period),
      now => SlidingWindow.Fresh,
      (w: SlidingWindow.Window, now: int) => (SlidingWindow.After(rule, w, now), SlidingWindow.Decide(rule, w, now)))
  }

  lemma WindowForgets(rule: SlidingWindow.Rule, w: SlidingWindow.Window, at: int, now: int)
    requires SlidingWindow.Good(rule, w, at) && now - at >= 2 * rule.period
    ensures SlidingWindow.Advanced(rule, w, now) == SlidingWindow.Advanced(rule, SlidingWindow.Fresh, now)
  {
    SlidingWindow.TruncateIs(at, rule.period);
    SlidingWindow.AdvanceCases(rule, w, at, now);
  }

  lemma FittingWindowsForget(rule: SlidingWindow.Rule)
    requires SlidingWindow.Proper(rule) && 2 * rule.period <= MAX_INT64
    ensures Forgets(Windows(rule), (w, at) => SlidingWindow.Good(rule, w, at))
  {
    hide SlidingWindow.Advanced, Wrap;
    var a := Windows(rule);
    var good := (w: SlidingWindow.Window, at: int) => SlidingWindow.Good(rule, w, at);
    WrapIsRight(2 * rule.period);
    forall now | now >= 0 ensures good(a.step(a.begin(now), now).0, now) {
      SlidingWindow.FreshIsGood(rule);
      SlidingWindow.AfterIsGood(rule, SlidingWindow.Fresh, 0, now);
    }
    forall w, at, now {:trigger good(w, at), a.step(w, now)} | 0 <= at <= now && good(w, at) ensures good(a.step(w, now).0, now) {
      SlidingWindow.AfterIsGood(rule, w, at, now);
    }
    forall w, at, now | 0 <= at && good(w, at) && now - at >= a.ttl && at <= now
      ensures a.step(w, now) == a.step(a.begin(now), now)
    {
      WindowForgets(rule, w, at, now);
    }
  }

  /** A second request at the same instant is not decided like the first one. */
  lemma SecondDiffers(rule: SlidingWindow.Rule)
    requires SlidingWindow.Proper(rule)
    ensures SlidingWindow.Decide(rule, SlidingWindow.After(rule, SlidingWindow.Fresh, 0), 0)
            != SlidingWindow.Decide(rule, SlidingWindow.Fresh, 0)
  {
    hide SlidingWindow.Remaining, SlidingWindow.After, SlidingWindow.Allowed;
    var none := SlidingWindow.Fresh;
    SlidingWindow.FreshIsGood(rule);
    SlidingWindow.AfterIsGood(rule, none, 0, 0);
    var w := SlidingWindow.After(rule, none, 0);
    SlidingWindow.AfterIsGood(rule, w, 0, 0);
    SlidingWindow.AtOnce(rule, none, 0);
    SlidingWindow.AtOnce(rule, w, 0);
    SlidingWindow.FreshRemaining(rule);
  }

  lemma OverflowingWindowsShow(rule: SlidingWindow.Rule)
    requires SlidingWindow.Proper(rule) && 2 * rule.period > MAX_INT64
    ensures !Invisible(Windows(rule))
  {
    hide Decisions, SlidingWindow.After, SlidingWindow.Decide;
    var a := Windows(rule);
    assert a.ttl < 0;
    var events := Probe(1, 0);
    ProbeInOrder(1, 0);
    var es := Asked(a, map[], "k", 0).0;
    var w := SlidingWindow.After(rule, SlidingWindow.Fresh, 0);
    assert es == map["k" := Entry(w, 0)];
    assert events[1..] == Probe(0, 0);
    Unfold(a, map[], events, true);
    Unfold(a, map[], events, false);
    LastTwo(a, es, 0, true);
    LastTwo(a, es, 0, false);
    assert Evicted(a.ttl, es, 0) == map[];
    SecondDiffers(rule);
    SameHead(Asked(a, map[], "k", 0).1, Decisions(a, es, Probe(0, 0), true), Decisions(a, es, Probe(0, 0), false));
    assert !SameAt(a, events);
  }

  /** A window that is idle for the ttl decides like a new one if and only if the ttl did not overflow. */
  lemma WindowsForget(rule: SlidingWindow.Rule)
    requires SlidingWindow.Proper(rule)
    ensures Forgets(Windows(rule), (w, at) => SlidingWindow.Good(rule, w, at)) <==> 2 * rule.period <= MAX_INT64
  {
    if 2 * rule.period <= MAX_INT64 {
      FittingWindowsForget(rule);
    } else {
      OverflowingWindowsShow(rule);
      if Forgets(Windows(rule), (w, at) => SlidingWindow.Good(rule, w, at)) {
        ForgettingIsInvisible(Windows(rule), (w, at) => SlidingWindow.Good(rule, w, at));
      }
    }
  }

  // ---------- theorems ----------

  /** No trace of requests and evictions ever shows that keys are evicted if and only if the ttl that
      the constructor computes in 64 bits did not overflow. */
  lemma EvictionIsInvisible(bucket: TokenBucket.Rule, window: SlidingWindow.Rule)
    requires TokenBucket.Proper(bucket) && SlidingWindow.Proper(window)
    ensures Invisible(Buckets(bucket)) <==> bucket.burst * bucket.interval <= MAX_INT64
    ensures Invisible(Windows(window)) <==> 2 * window.period <= MAX_INT64
  {
    hide Invisible, Forgets, Buckets, Windows;
    if bucket.burst * bucket.interval <= MAX_INT64 {
      FittingBucketsForget(bucket);
      ForgettingIsInvisible(Buckets(bucket), (b, at) => TokenBucket.Good(bucket, b, at));
    } else {
      OverflowingBucketsShow(bucket);
    }
    if 2 * window.period <= MAX_INT64 {
      FittingWindowsForget(window);
      ForgettingIsInvisible(Windows(window), (w, at) => SlidingWindow.Good(window, w, at));
    } else {
      OverflowingWindowsShow(window);
    }
  }

  /** With evictions at any instants and requests for any other keys in between, both limiters give a
      key the decisions of its own requests alone, if the ttl did not overflow. */
  lemma EachKeyIsAlone(bucket: TokenBucket.Rule, window: SlidingWindow.Rule, events: seq<Event>, key: string)
    requires TokenBucket.Proper(bucket) && SlidingWindow.Proper(window) && InOrder(events, 0)
    ensures bucket.burst * bucket.interval <= MAX_INT64 ==>
              DecisionsFor(Buckets(bucket), map[], events, true, key) == Solo(Buckets(bucket), None, TimesOf(events, key))
    ensures 2 * window.period <= MAX_INT64 ==>
              DecisionsFor(Windows(window), map[], events, true, key) == Solo(Windows(window), None, TimesOf(events, key))
  {
    hide Forgets, Buckets, Windows, DecisionsFor, Solo, TimesOf;
    KeysAreSeparate(Buckets(bucket), map[], events, key);
    KeysAreSeparate(Windows(window), map[], events, key);
    if bucket.burst * bucket.interval <= MAX_INT64 {
      FittingBucketsForget(bucket);
      SameForKey(Buckets(bucket), (b, at) => TokenBucket.Good(bucket, b, at), map[], map[], events, 0, key);
    }
    if 2 * window.period <= MAX_INT64 {
      FittingWindowsForget(window);
      SameForKey(Windows(window), (w, at) => SlidingWindow.Good(window, w, at), map[], map[], events, 0, key);
    }
  }

  const DAY: int := 86_400_000_000_000

  /** One token a day, a burst of 200000. */
  const Daily := TokenBucket.Rule(200_000, DAY)

  lemma DailyDecisions()
    ensures TokenBucket.NewRule(1, DAY, 200_000) == Some(Daily) && Buckets(Daily).ttl < 0
    ensures TokenBucket.After(Daily, TokenBucket.Fresh(Daily, 0), 0) == TokenBucket.Bucket(199_999, 0)
    ensures TokenBucket.Decide(Daily, TokenBucket.Fresh(Daily, 1), 1).remaining == 199_999
    ensures TokenBucket.Decide(Daily, TokenBucket.Bucket(199_999, 0), 1).remaining == 199_998
  {
    assert DAY / 1 == DAY;
  }

  /** A rule that the constructor accepts and whose evictions show: its ttl is negative. */
  lemma EvictionCanShow()
    ensures TokenBucket.NewRule(1, DAY, 200_000) == Some(Daily)
    ensures !SameAt(Buckets(Daily), [Ask("k", 0), Tick(1), Ask("k", 1)])
  {
    hide Wrap, Decisions, TokenBucket.After, TokenBucket.Decide, TokenBucket.NewRule;
    DailyDecisions();
    var a := Buckets(Daily);
    var events := [Ask("k", 0), Tick(1), Ask("k", 1)];
    var es := map["k" := Entry(TokenBucket.Bucket(199_999, 0), 0)];
    assert Asked(a, map[], "k", 0).0 == es;
    assert events[1..] == Probe(0, 1);
    Unfold(a, map[], events, true);
    Unfold(a, map[], events, false);
    LastTwo(a, es, 1, true);
    LastTwo(a, es, 1, false);
    assert Evicted(a.ttl, es, 1) == map[];
    SameHead(Asked(a, map[], "k", 0).1, Decisions(a, es, Probe(0, 1), true), Decisions(a, es, Probe(0, 1), false));
  }
}
