/** How long the event sink can take over a batch. */
module EventSinkTiming {
  import opened Basics
  import opened Backoff
  import opened EventSinkProtocol

  datatype Tuning = Tuning(cfg: Config, retryBackoff: Int64, attemptTimeout: nat, batchTimeout: nat)

  function RetryBound(t: Tuning): nat {
    AttemptsTime(t.attemptTimeout, t.retryBackoff, Attempts(t.cfg))
  }

  function FlushBound(t: Tuning): nat {
    2 * RetryBound(t) + 2 * t.attemptTimeout
  }

  /** The bound the operator's guide gives for a flush. */
  lemma FlushBoundIs(t: Tuning)
    requires t.retryBackoff >= 0
    ensures
      var guide := 2 * (Attempts(t.cfg) * t.attemptTimeout + ClosedSum(t.retryBackoff, Attempts(t.cfg) - 1)) + 2 * t.attemptTimeout;
      FlushBound(t) <= guide && (t.retryBackoff * 2 <= MAX_INT64 ==> FlushBound(t) == guide)
  {
    AttemptsTimeIs(t.attemptTimeout, t.retryBackoff, Attempts(t.cfg));
    BackoffIsClosed(t.retryBackoff, Attempts(t.cfg) - 1);
  }

  /** Its arithmetic: a batch is over in 44 s with the default settings. */
  lemma DefaultsTake44Seconds()
    ensures
      var t := Tuning(Config(1000, 5), 200_000_000, 3_000_000_000, 2_000_000_000);
      t.batchTimeout + FlushBound(t) == 44_000_000_000
  {
    DefaultDelays();
    hide Doubled;
    assert AttemptsTime(3_000_000_000, 1_600_000_000, 1) == 3_000_000_000;
    assert AttemptsTime(3_000_000_000, 1_600_000_000, 2) == 7_600_000_000;
    assert AttemptsTime(3_000_000_000, 800_000_000, 3) == 11_400_000_000;
    assert AttemptsTime(3_000_000_000, 400_000_000, 4) == 14_800_000_000;
    assert AttemptsTime(3_000_000_000, 200_000_000, 5) == 18_000_000_000;
  }

  lemma DefaultDelays()
    ensures Doubled(200_000_000) == 400_000_000 && Doubled(400_000_000) == 800_000_000 && Doubled(800_000_000) == 1_600_000_000
  {
  }
}
