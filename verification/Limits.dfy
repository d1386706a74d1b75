/** What both rate limiters share: the decision they return and facts about division. */
module Limits {
  datatype Decision = Decision(allowed: bool, limit: int, remaining: int, resetAfter: int, retryAfter: int)

  /** The instants of successive requests do not go back: the clock is read under the lock. */
  ghost predicate Monotone(times: seq<int>, from: int) {
    && (forall i :: 0 <= i < |times| ==> from <= times[i])
    && (forall i, j :: 0 <= i < j < |times| ==> times[i] <= times[j])
  }

  lemma MonotoneTail(times: seq<int>, from: int)
    requires Monotone(times, from) && times != []
    ensures from <= times[0] && Monotone(times[1..], times[0])
  {
    forall i | 0 <= i < |times[1..]| ensures times[0] <= times[1..][i] {
      assert times[1..][i] == times[i + 1];
    }
  }

  lemma MonotoneSplit(a: seq<int>, b: seq<int>, from: int)
    requires Monotone(a + b, from)
    ensures Monotone(a, from) && Monotone(b, from)
    ensures forall i, j :: 0 <= i < |a| && 0 <= j < |b| ==> a[i] <= b[j]
  {
    forall i | 0 <= i < |a| ensures (a + b)[i] == a[i] {
    }
    forall j | 0 <= j < |b| ensures (a + b)[|a| + j] == b[j] {
    }
    forall i, j | 0 <= i < |a| && 0 <= j < |b| ensures a[i] <= b[j] {
      assert (a + b)[i] <= (a + b)[|a| + j];
    }
    forall i, j | 0 <= i < j < |a| ensures a[i] <= a[j] {
      assert (a + b)[i] <= (a + b)[j];
    }
    forall i, j | 0 <= i < j < |b| ensures b[i] <= b[j] {
      assert (a + b)[|a| + i] <= (a + b)[|a| + j];
    }
  }

  // ---------- division ----------

  lemma Quotient(a: int, d: int, q: int)
    requires d > 0 && q * d <= a < (q + 1) * d
    ensures a / d == q
  {
    var p := a / d;
    assert p * d <= a < (p + 1) * d;
    if p < q {
      Below(p + 1, q, d);
    } else if q < p {
      Below(q + 1, p, d);
    }
  }

  lemma Below(a: int, b: int, d: int)
    requires a <= b && d > 0
    ensures a * d <= b * d
  {
    assert (b - a) * d >= 0;
  }

  lemma QuotientOf(a: int, d: int)
    requires d > 0
    ensures (a / d) * d <= a < (a / d + 1) * d
  {
  }

  lemma QuotientIsSmaller(a: int, d: int)
    requires a >= 0 && d > 0
    ensures 0 <= a / d <= a
  {
    AtLeast(a, d, 0);
    AtLeast(a, d, a + 1);
    Below(1, d, a + 1);
    assert d * (a + 1) == (a + 1) * d;
  }

  lemma QuotientShift(a: int, d: int, k: int)
    requires d > 0
    ensures (a - k * d) / d == a / d - k
  {
    QuotientOf(a, d);
    assert (a / d - k) * d == (a / d) * d - k * d;
    assert (a / d - k + 1) * d == (a / d + 1) * d - k * d;
    Quotient(a - k * d, d, a / d - k);
  }

  lemma QuotientGrows(a: int, b: int, d: int)
    requires d > 0 && a <= b
    ensures a / d <= b / d
  {
    QuotientOf(a, d);
    QuotientOf(b, d);
    if b / d < a / d {
      Below(b / d + 1, a / d, d);
    }
  }

  lemma QuotientSum(a: int, b: int, d: int)
    requires d > 0
    ensures a / d + b / d <= (a + b) / d <= a / d + b / d + 1
  {
    QuotientOf(a, d);
    QuotientOf(b, d);
    var q := a / d + b / d;
    assert q * d == (a / d) * d + (b / d) * d;
    assert (q + 2) * d == (a / d + 1) * d + (b / d + 1) * d;
    assert (q + 1) * d == q * d + d;
    if a + b < (q + 1) * d {
      Quotient(a + b, d, q);
    } else {
      Quotient(a + b, d, q + 1);
    }
  }

  lemma AtLeast(a: int, d: int, k: int)
    requires d > 0
    ensures a / d >= k <==> a >= k * d
  {
    QuotientOf(a, d);
    if a / d >= k {
      Below(k, a / d, d);
    } else {
      Below(a / d + 1, k, d);
    }
  }
}
