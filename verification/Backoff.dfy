/**
 The waits between the attempts of a call when each is twice the one before, capped at ten seconds, in
 Go's 64-bit nanoseconds. The event sink and the batcher have the same loop.
 */
module Backoff {
  import opened Basics

  const MAX_BACKOFF: nat := 10_000_000_000

  /** The next delay, in 64 bits. */
  function Doubled(delay: Int64): Int64 {
    if Wrap(delay * 2) < MAX_BACKOFF then Wrap(delay * 2) else MAX_BACKOFF
  }

  /** A delay that is not positive is over at once. */
  function Pause(delay: int): nat {
    if delay < 0 then 0 else delay
  }

  /** The i-th wait (from 1) of the doubling loop. */
  function Wait(delay: Int64, i: nat): nat
    requires i > 0
    decreases i
  {
    if i == 1 then Pause(delay) else Wait(Doubled(delay), i - 1)
  }

  /** The i-th delay (from 1), of which the i-th wait is what is positive. */
  function Delay(delay: Int64, i: nat): Int64
    requires i > 0
    decreases i
  {
    if i == 1 then delay else Doubled(Delay(delay, i - 1))
  }

  lemma {:induction false} DelayShift(delay: Int64, i: nat)
    requires i > 0
    ensures Delay(delay, i + 1) == Delay(Doubled(delay), i)
    decreases i
  {
    if i > 1 {
      DelayShift(delay, i - 1);
    } else {
      assert Delay(delay, 1) == delay;
    }
  }

  lemma {:induction false} WaitIsPause(delay: Int64, i: nat)
    requires i > 0
    ensures Wait(delay, i) == Pause(Delay(delay, i))
    decreases i
  {
    if i > 1 {
      WaitIsPause(Doubled(delay), i - 1);
      DelayShift(delay, i - 1);
    }
  }

  /** The sum of the first n waits when the first one is `delay`. */
  function Backoff(delay: Int64, n: nat): nat
    decreases n
  {
    if n == 0 then 0 else Pause(delay) + Backoff(Doubled(delay), n - 1)
  }

  /** The longest time n attempts can take when the first wait between them is `delay`. */
  function AttemptsTime(timeout: nat, delay: Int64, n: nat): nat
    decreases n
  {
    if n == 0 then 0
    else if n == 1 then timeout
    else timeout + Pause(delay) + AttemptsTime(timeout, Doubled(delay), n - 1)
  }

  lemma {:induction false} AttemptsTimeIs(timeout: nat, delay: Int64, n: nat)
    requires n > 0
    ensures AttemptsTime(timeout, delay, n) == n * timeout + Backoff(delay, n - 1)
    decreases n
  {
    if n > 1 {
      AttemptsTimeIs(timeout, Doubled(delay), n - 1);
      assert n * timeout == (n - 1) * timeout + timeout;
    }
  }

  function Pow2(n: nat): nat {
    if n == 0 then 1 else 2 * Pow2(n - 1)
  }

  /** The i-th wait (from 1) in closed form: only the first one may exceed ten seconds. */
  function ClosedWait(delay: nat, i: nat): nat
    requires i > 0
  {
    if i == 1 || delay * Pow2(i - 1) < 10_000_000_000 then delay * Pow2(i - 1) else 10_000_000_000
  }

  function ClosedSum(delay: nat, n: nat): nat {
    if n == 0 then 0 else ClosedSum(delay, n - 1) + ClosedWait(delay, n)
  }

  lemma {:induction false} Pow2Positive(n: nat)
    ensures Pow2(n) >= 1
  {
    if n > 0 {
      Pow2Positive(n - 1);
    }
  }

  lemma {:induction false} WaitShift(delay: nat, i: nat)
    requires i > 0 && delay * 2 <= MAX_INT64
    ensures Doubled(delay) >= 0 && Doubled(delay) * 2 <= MAX_INT64
    ensures ClosedWait(Doubled(delay), i) == ClosedWait(delay, i + 1)
  {
    WrapIsRight(delay * 2);
    assert Pow2(i) == 2 * Pow2(i - 1);
    assert Pow2(i - 1) >= 1 by { Pow2Positive(i - 1); }
    if delay * 2 < MAX_BACKOFF {
      assert Doubled(delay) * Pow2(i - 1) == delay * Pow2(i);
    } else {
      assert MAX_BACKOFF * Pow2(i - 1) >= MAX_BACKOFF;
      assert delay * Pow2(i) == (delay * 2) * Pow2(i - 1) >= MAX_BACKOFF;
    }
  }

  lemma {:induction false} WaitIsClosed(delay: nat, i: nat)
    requires i > 0 && delay * 2 <= MAX_INT64
    ensures Wait(delay, i) == ClosedWait(delay, i)
    decreases i
  {
    if i == 1 {
      assert Pow2(0) == 1;
    } else {
      WaitShift(delay, i - 1);
      WaitIsClosed(Doubled(delay), i - 1);
    }
  }

  lemma {:induction false} LaterWaitIsCapped(delay: Int64, i: nat)
    requires i > 1
    ensures Wait(delay, i) <= MAX_BACKOFF
    decreases i
  {
    if i > 2 {
      LaterWaitIsCapped(Doubled(delay), i - 1);
    } else {
      assert Wait(Doubled(delay), 1) == Pause(Doubled(delay));
    }
  }

  /** Every wait of the loop is at most ten seconds if and only if the configured one is. */
  lemma WaitsAreCapped(delay: Int64, n: nat)
    requires n > 0
    ensures (forall i :: 1 <= i <= n ==> Wait(delay, i) <= 10_000_000_000) <==> delay <= 10_000_000_000
  {
    if delay <= MAX_BACKOFF {
      forall i | 1 <= i <= n ensures Wait(delay, i) <= MAX_BACKOFF {
        if i > 1 {
          LaterWaitIsCapped(delay, i);
        }
      }
    } else {
      assert !(Wait(delay, 1) <= MAX_BACKOFF);
    }
  }

  /** A setting with a wait that is not capped: 15 s before the second attempt, 10 s after it. */
  lemma FirstWaitIsNotCapped()
    ensures Wait(15_000_000_000, 1) == 15_000_000_000
    ensures Wait(15_000_000_000, 2) == 10_000_000_000
  {
    assert Wait(Doubled(15_000_000_000), 1) == MAX_BACKOFF;
  }

  /** The waits are those of the closed form if and only if doubling the first one does not overflow. */
  lemma ClosedExactly(delay: Int64, n: nat)
    requires delay >= 0
    ensures (forall i :: 1 <= i <= n ==> Wait(delay, i) == ClosedWait(delay, i)) <==> n <= 1 || delay * 2 <= MAX_INT64
  {
    if delay * 2 <= MAX_INT64 {
      forall i | 1 <= i <= n ensures Wait(delay, i) == ClosedWait(delay, i) {
        WaitIsClosed(delay, i);
      }
    } else if n > 1 {
      assert FitsInt64(delay) && Wrap(delay * 2) == delay * 2 - TWO_TO_64;
      assert Wait(delay, 2) == Wait(Doubled(delay), 1) == 0;
      assert Pow2(1) == 2 * Pow2(0) == 2;
      assert ClosedWait(delay, 2) == MAX_BACKOFF;
    } else {
      assert Pow2(0) == 1;
    }
  }

  function WaitSum(delay: Int64, n: nat): nat {
    if n == 0 then 0 else WaitSum(delay, n - 1) + Wait(delay, n)
  }

  lemma {:induction false} SumShift(delay: Int64, n: nat)
    ensures WaitSum(delay, n + 1) == Pause(delay) + WaitSum(Doubled(delay), n)
  {
    if n > 0 {
      SumShift(delay, n - 1);
    } else {
      assert WaitSum(delay, 0) == 0;
    }
  }

  lemma {:induction false} BackoffIsSum(delay: Int64, n: nat)
    ensures Backoff(delay, n) == WaitSum(delay, n)
    decreases n
  {
    if n > 0 {
      BackoffIsSum(Doubled(delay), n - 1);
      SumShift(delay, n - 1);
    }
  }

  lemma WaitWithinClosed(delay: Int64, i: nat)
    requires delay >= 0 && i > 0
    ensures Wait(delay, i) <= ClosedWait(delay, i)
  {
    if delay * 2 <= MAX_INT64 {
      WaitIsClosed(delay, i);
    } else if i > 1 {
      LaterWaitIsCapped(delay, i);
      Pow2Positive(i - 1);
      assert delay * Pow2(i - 1) >= delay * 1;
    } else {
      assert Pow2(0) == 1;
    }
  }

  lemma {:induction false} SumWithinClosed(delay: Int64, n: nat)
    requires delay >= 0
    ensures WaitSum(delay, n) <= ClosedSum(delay, n)
    ensures delay * 2 <= MAX_INT64 ==> WaitSum(delay, n) == ClosedSum(delay, n)
  {
    if n > 0 {
      SumWithinClosed(delay, n - 1);
      WaitWithinClosed(delay, n);
      if delay * 2 <= MAX_INT64 {
        WaitIsClosed(delay, n);
      }
    }
  }

  /** The doubling loop waits at most the closed-form times, and exactly those without overflow. */
  lemma BackoffIsClosed(delay: Int64, n: nat)
    requires delay >= 0
    ensures Backoff(delay, n) <= ClosedSum(delay, n)
    ensures delay * 2 <= MAX_INT64 ==> Backoff(delay, n) == ClosedSum(delay, n)
  {
    BackoffIsSum(delay, n);
    SumWithinClosed(delay, n);
  }
}
