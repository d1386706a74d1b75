/**
 The pipeline process itself: poll, flush, retry and the main loop, against an environment that
 answers as it likes, in virtual time. Every call the code makes is a step of the protocol in
 EventSinkProtocol, so each moment of its execution, including any moment at which it may be
 killed, is a state of a run.
 */
module EventSinkPipeline {
  import opened Basics
  import opened EventLog
  import opened EventSinkProtocol
  import opened EventSinkSafety
  import opened Backoff
  import opened EventSinkTiming
  import opened EventSinkScript
  import opened EventSinkCluster

  class Pipeline {
    const env: Cluster
    var pending: seq<Item>
    var deadline: nat

    ghost predicate Linked()
      reads this, env
    {
      && env.Running()
      && env.Me().phase.Polling?
      && env.Me().held == Coords(pending)
      && Decoded(env.log, pending)
    }

    constructor (env: Cluster)
      requires env.Running() && env.Me().phase.Polling? && env.Me().held == []
      ensures this.env == env && Linked() && pending == []
    {
      this.env := env;
      pending := [];
      deadline := 0;
      new;
      assert Coords([]) == [];
    }

    /** Collects records up to the batch size; the first one of a batch sets its deadline. */
    method Poll() returns (ok: bool, ghost polled: seq<Coord>)
      requires Linked() && |pending| <= env.tuning.cfg.batchSize
      modifies this, env`history, env`position, env`clock, env`calls
      ensures env.Running() && old(env.history) <= env.history && old(env.clock) <= env.clock
      ensures env.calls == old(env.calls) + [Polled(env.tuning.cfg.batchSize - |old(pending)|, polled, !ok)]
      ensures ok ==> Linked() && |pending| <= env.tuning.cfg.batchSize
      ensures FromLog(env.log, Coords(old(pending)) + polled)
      ensures ok ==> old(pending) <= pending && Coords(pending) == Coords(old(pending)) + polled
      ensures deadline == if ok && old(pending) == [] && polled != [] then env.clock + env.tuning.batchTimeout else old(deadline)
    {
      var items, closed := env.PollRecords(env.tuning.cfg.batchSize - |pending|);
      polled := Coords(items);
      DecodedIsFromLog(env.log, pending);
      DecodedIsFromLog(env.log, items);
      if closed {
        return false, polled;
      }
      if items != [] && pending == [] {
        deadline := env.clock + env.tuning.batchTimeout;
      }
      assert Coords(pending + items) == Coords(pending) + Coords(items);
      pending := pending + items;
      ok := true;
    }

    method Attempt(call: Call, ghost x: Member, ghost failures: nat) returns (ok: bool)
      requires env.Running() && env.Me() == x && Ready(env.log, x, call) && failures == x.phase.failures + 1
      modifies env`history, env`clock, env`calls
      ensures env.calls == old(env.calls) + [Called(call, ok)]
      ensures env.Valid() && old(env.history) <= env.history
      ensures old(env.clock) <= env.clock <= old(env.clock) + env.tuning.attemptTimeout
      ensures ok || call.InsertCall? || failures < Attempts(env.tuning.cfg) ==>
                env.Running() && env.Me() == After(env.tuning.cfg, env.log, x, call, ok, failures)
      ensures !ok && call.RecordCall? && failures >= Attempts(env.tuning.cfg) ==> env.m !in env.Now().members
    {
      match call
      case InsertCall(events) => ok := env.InsertEvents(events, x, failures);
      case RecordCall(row) => ok := env.Record(row, x, failures);
    }

    /** Up to Attempts calls with doubling waits between them. */
    method Retry(call: Call, ghost x: Member) returns (r: RetryResult, ghost rounds: nat)
      requires env.Running() && env.Me() == x && Ready(env.log, x, call) && x.phase.failures == 0
      modifies env`history, env`clock, env`calls, env`cancelled
      ensures RetryFits(env.tuning.cfg, Retried(r, rounds))
      ensures env.calls == old(env.calls) + RetryScript(call, env.tuning.retryBackoff, Retried(r, rounds))
      ensures env.Valid() && old(env.history) <= env.history
      ensures old(env.clock) <= env.clock <= old(env.clock) + RetryBound(env.tuning)
      ensures r == Succeeded ==> env.Running() && env.Me() == After(env.tuning.cfg, env.log, x, call, true, 1)
      ensures r == Exhausted && call.InsertCall? ==> env.Running() && env.Me() == x.(phase := Producing(DeadLettered))
      ensures r == Exhausted && call.RecordCall? ==> env.m !in env.Now().members
      ensures r == Interrupted ==> env.Running() && env.cancelled
      ensures old(env.cancelled) ==> env.cancelled
    {
      hide IsRun, After, AfterInsert, FromLog, SpansOf, Doubled, FailedRounds, AttemptsTime, RetryBound, Delay;
      BoundIs(env.tuning);
      var delay: Int64 := env.tuning.retryBackoff;
      var attempt := 1;
      rounds := 0;
      ghost var A := Attempts(env.tuning.cfg);
      while true
        invariant 1 <= attempt <= A && rounds + 1 == attempt
        invariant env.Running() && old(env.history) <= env.history
        invariant env.Me() == Failed(x, rounds) && delay == Delay(env.tuning.retryBackoff, attempt)
        invariant env.calls == old(env.calls) + FailedRounds(call, env.tuning.retryBackoff, rounds)
        invariant old(env.clock) <= env.clock
        invariant env.clock + AttemptsTime(env.tuning.attemptTimeout, delay, A - attempt + 1)
          <= old(env.clock) + RetryBound(env.tuning)
        invariant old(env.cancelled) ==> env.cancelled
        decreases A - attempt
      {
        Outcomes(env.tuning.cfg, env.log, x, call, rounds);
        OneRound(env.tuning, call, delay, attempt, A - attempt + 1);
        var ok := Attempt(call, Failed(x, rounds), attempt);
        if ok {
          return Succeeded, rounds;
        }
        if attempt >= env.tuning.cfg.maxAttempts {
          return Exhausted, rounds;
        }
        var done := env.Sleep(delay);
        if done {
          return Interrupted, rounds;
        }
        delay := Doubled(delay);
        rounds := attempt;
        attempt := attempt + 1;
      }
    }

    /** Inserts, dead-letters, records and commits the pending batch: the answers of the environment
        decide the calls and the result, and it aborts exactly when there is a cause among them. */
    method Flush() returns (r: FlushResult, ghost f: FlushRun)
      requires Linked()
      modifies this`pending, env`history, env`clock, env`calls, env`cancelled
      ensures pending == []
      ensures env.Valid() && old(env.history) <= env.history
      ensures old(env.clock) <= env.clock <= old(env.clock) + FlushBound(env.tuning)
      ensures r == NothingToFlush <==> old(pending) == []
      ensures r == NothingToFlush ==> Linked() && env.history == old(env.history) && env.calls == old(env.calls)
      ensures r != NothingToFlush ==>
                FlushTold(env.tuning.cfg, env.log, env.tuning.retryBackoff, Coords(old(pending)), old(env.calls), env.calls, f, r)
      ensures r != NothingToFlush ==> Explained(env.tuning.cfg, Coords(old(pending)), old(env.calls), env.calls, r)
      ensures r == Aborted ==> env.m !in env.Now().members
      ensures r.Flushed? || r.CommitFailed? ==> Linked() && AllSettled(env.log, env.Now(), Coords(old(pending)))
      ensures r.Flushed? ==> CommittedSince(env.history, |old(env.history)|, Coords(old(pending)))
    {
      hide StoreScript, FinishScript, FlushFits, FlushScript, FlushAnswer, FlushTold, GoesOn, RetryFits, Explained, Below, AllSettled, FromLog, Decoded, CommittedSince, SpansOf, Letters, RowFor, RetryBound;
      var items := pending;
      pending := [];
      NoItems(env.log);
      if |items| == 0 {
        ghost var none := Retried(Succeeded, 0);
        return NothingToFlush, FlushRun(none, false, true, LedgerRow(Inserted, 0, 0, []), none, true);
      }
      ghost var x := env.Me();
      ghost var batch, start := Coords(items), env.calls;
      HeldBelowPosition(env.tuning.cfg, env.log, env.history, env.m);
      env.BeginFlushing();
      var ok, status, dead, g := Store(items, x);
      if !ok {
        StoreEnds(env.log, env.tuning, batch, g, start, env.calls);
        ToldIsExplained(env.tuning.cfg, env.log, env.tuning.retryBackoff, batch, start, env.calls, g, Aborted);
        return Aborted, g;
      }
      ghost var from := |env.history|;
      r, f := Complete(Coords(items), status, dead, x, g, start);
      if r != Aborted {
        BelowBase(env.tuning.cfg, env.log, env.history, env.m, x.held);
        if r.Flushed? {
          SinceEarlier(env.history, |old(env.history)|, from, batch);
        }
      }
    }

    /** What is left of a flush when every record has arrived somewhere. */
    method Complete(records: seq<Coord>, status: Status, dead: nat, ghost x: Member, ghost g: FlushRun, ghost start: seq<Exchange>)
      returns (r: FlushResult, ghost f: FlushRun)
      requires env.Running() && env.Me() == x.(phase := Recording(status, 0)) && x.held == records
      requires FromLog(env.log, records) && status == StatusOf(g) && dead == |Letters(env.log, records, status)|
      requires RetryFits(env.tuning.cfg, g.insert) && GoesOn(env.log, records, g)
      requires env.calls == start + StoreScript(env.log, env.tuning.retryBackoff, records, g)
      modifies env`history, env`clock, env`calls, env`cancelled
      ensures r != NothingToFlush
      ensures FlushTold(env.tuning.cfg, env.log, env.tuning.retryBackoff, records, start, env.calls, f, r)
      ensures Explained(env.tuning.cfg, records, start, env.calls, r)
      ensures env.Valid() && old(env.history) <= env.history
      ensures old(env.clock) <= env.clock <= old(env.clock) + RetryBound(env.tuning) + env.tuning.attemptTimeout
      ensures r == Aborted ==> env.m !in env.Now().members
      ensures r != Aborted ==> env.Running() && env.Me() == NextBatch(x)
      ensures r.Flushed? ==> CommittedSince(env.history, |old(env.history)|, records)
    {
      hide StoreScript, FinishScript, FlushTold, FlushAnswer, GoesOn, RetryFits, Explained, FromLog, CommittedSince, SpansOf, Letters, RowFor, RetryBound;
      r, f := Finish(records, status, dead, x, g);
      StoreGoesOn(env.log, env.tuning, records, f, g, start, old(env.calls), env.calls);
      ToldIsExplained(env.tuning.cfg, env.log, env.tuning.retryBackoff, records, start, env.calls, f, r);
    }

    /** The first half of a flush: every record goes to the warehouse or to the dead-letter topic. */
    method Store(items: seq<Item>, ghost x: Member) returns (ok: bool, status: Status, dead: nat, ghost f: FlushRun)
      requires env.Running() && env.Me() == x.(phase := Inserting(0)) && x.held == Coords(items) && items != []
      requires Decoded(env.log, items)
      modifies env`history, env`clock, env`calls, env`cancelled
      ensures FromLog(env.log, x.held) && RetryFits(env.tuning.cfg, f.insert)
      ensures env.calls == old(env.calls) + StoreScript(env.log, env.tuning.retryBackoff, x.held, f)
      ensures ok <==> GoesOn(env.log, x.held, f)
      ensures env.Valid() && old(env.history) <= env.history
      ensures old(env.clock) <= env.clock <= old(env.clock) + RetryBound(env.tuning) + env.tuning.attemptTimeout
      ensures !ok ==> env.m !in env.Now().members
      ensures ok ==> env.Running() && env.Me() == x.(phase := Recording(status, 0))
      ensures ok ==> status == StatusOf(f) && dead == |Letters(env.log, x.held, status)|
    {
      hide IsRun, RetryBound, Attempts, RetryScript, RetryFits;
      var records, events, letters := Sort(env.log, items);
      ok, status, dead := true, Inserted, 0;
      ghost var none := LedgerRow(Inserted, 0, 0, []);
      var inserted, n := Retry(InsertCall(events), x.(phase := Inserting(0)));
      f := FlushRun(Retried(inserted, n), false, true, none, Retried(Succeeded, 0), true);
      if inserted == Interrupted {
        env.Stop();
        ok := false;
        return;
      }
      if inserted == Exhausted {
        var done := env.ContextDone();
        f := f.(done := done);
        if done {
          env.Stop();
          ok := false;
          return;
        }
        status := DeadLettered;
        letters := GiveUp(env.log, items, letters);
        SomeLetter(env.log, records);
      }
      dead := |letters|;
      if dead > 0 {
        ok := env.ProduceSync(letters);
        f := f.(produced := ok);
      }
    }

    /** The second half of a flush: the ledger row, then the commit. */
    method Finish(records: seq<Coord>, status: Status, dead: nat, ghost x: Member, ghost g: FlushRun)
      returns (r: FlushResult, ghost f: FlushRun)
      requires env.Running() && env.Me() == x.(phase := Recording(status, 0)) && x.held == records
      requires FromLog(env.log, records) && status == StatusOf(g) && dead == |Letters(env.log, records, status)|
      modifies env`history, env`clock, env`calls, env`cancelled
      ensures f.insert == g.insert && f.done == g.done && f.produced == g.produced
      ensures RetryFits(env.tuning.cfg, f.record)
      ensures SpansOf(records, f.row.spans) && f.row == RowFor(env.log, records, status, f.row.spans)
      ensures env.calls == old(env.calls) + FinishScript(env.tuning.retryBackoff, records, f)
      ensures r == if f.record.result != Succeeded then Aborted else if f.committed then Flushed(status) else CommitFailed(status)
      ensures env.Valid() && old(env.history) <= env.history
      ensures old(env.clock) <= env.clock <= old(env.clock) + RetryBound(env.tuning) + env.tuning.attemptTimeout
      ensures r == Aborted ==> env.m !in env.Now().members
      ensures r != Aborted ==> env.Running() && env.Me() == NextBatch(x)
      ensures r.Flushed? ==> CommittedSince(env.history, |old(env.history)|, records)
    {
      hide IsRun, RetryBound, Attempts, RetryScript, RetryFits, CommittedSince, SpansOf, FromLog, Letters, RowFor;
      var recorded, n, row := RecordBatch(records, status, dead, x);
      f := g.(row := row, record := Retried(recorded, n));
      if recorded == Interrupted {
        env.Stop();
        return Aborted, f;
      }
      if recorded == Exhausted {
        return Aborted, f;
      }
      ghost var before := |env.history|;
      var ok := env.CommitRecords(records);
      f := f.(committed := ok);
      if ok {
        SinceEarlier(env.history, |old(env.history)|, before, records);
      }
      r := if ok then Flushed(status) else CommitFailed(status);
    }

    /** The ledger row of the batch. */
    method RecordBatch(records: seq<Coord>, status: Status, dead: nat, ghost x: Member)
      returns (r: RetryResult, ghost rounds: nat, ghost row: LedgerRow)
      requires env.Running() && env.Me() == x.(phase := Recording(status, 0)) && x.held == records
      requires FromLog(env.log, records) && dead == |Letters(env.log, records, status)|
      modifies env`history, env`clock, env`calls, env`cancelled
      ensures SpansOf(records, row.spans) && row == RowFor(env.log, records, status, row.spans)
      ensures RetryFits(env.tuning.cfg, Retried(r, rounds))
      ensures env.calls == old(env.calls) + RetryScript(RecordCall(row), env.tuning.retryBackoff, Retried(r, rounds))
      ensures env.Valid() && old(env.history) <= env.history
      ensures old(env.clock) <= env.clock <= old(env.clock) + RetryBound(env.tuning)
      ensures r == Succeeded ==> env.Running() && env.Me() == x.(phase := Committing)
      ensures r == Exhausted ==> env.m !in env.Now().members
      ensures r == Interrupted ==> env.Running()
    {
      hide IsRun, RetryBound, Attempts, RetryScript, RetryFits, SpansOf, FromLog, Letters;
      var spans := Partitions(records);
      var batch := LedgerRow(status, |records|, dead, spans);
      row := batch;
      r, rounds := Retry(RecordCall(batch), x.(phase := Recording(status, 0)));
    }

    /** One turn of the main loop. False means that Run returned, and then an answer is the reason. */
    method Turn() returns (going: bool, ghost t: TurnRun, ghost at: nat)
      requires Linked() && |pending| <= env.tuning.cfg.batchSize
      modifies this, env`history, env`position, env`clock, env`calls, env`cancelled, env`stopping
      ensures env.Valid() && old(env.history) <= env.history
      ensures TurnTold(
                env.tuning.cfg, env.log, env.tuning.retryBackoff, env.tuning.cfg.batchSize, Coords(old(pending)),
                old(env.calls), env.calls, t, going)
      ensures old(env.calls) <= env.calls && (going <==> !Excused(env.tuning.cfg, env.calls[|old(env.calls)|..]))
      ensures old(env.clock) <= at
      ensures deadline == if !t.closed && old(pending) == [] && t.polled != [] then at + env.tuning.batchTimeout else old(deadline)
      ensures t.due <==> !t.closed && IsDue(|old(pending)| + |t.polled|, env.tuning.cfg.batchSize, at, deadline)
      ensures going ==> Linked() && |pending| <= env.tuning.cfg.batchSize
      ensures going ==> Coords(pending) == if t.due then [] else Coords(old(pending)) + t.polled
      ensures !going ==> env.m !in env.Now().members
    {
      hide TurnTold, TurnScript, TurnMiddle, TurnGoesOn, TurnFits, Excused, FromLog, Decoded;
      ghost var held, start := Coords(pending), env.calls;
      ghost var none := Retried(Succeeded, 0);
      var polled, got := Poll();
      at := env.clock;
      t := TurnRun(got, !polled, false, FlushRun(none, false, true, LedgerRow(Inserted, 0, 0, []), none, true), false);
      if !polled {
        env.Stop();
        going := false;
        TurnEnds(env.tuning.cfg, env.log, env.tuning.retryBackoff, env.tuning.cfg.batchSize, held, start, env.calls, t);
      } else {
        ghost var middle := env.calls;
        going, t := Tend(held, t);
        TurnTells(env.tuning.cfg, env.log, env.tuning.retryBackoff, env.tuning.cfg.batchSize, held, start, middle, env.calls, t);
      }
      TurnIsExcused(env.tuning.cfg, env.log, env.tuning.retryBackoff, env.tuning.cfg.batchSize, held, start, env.calls, t, going);
    }

    /** What follows the poll: the flush that is due, and the rebalances once nothing is pending. */
    method Tend(ghost held: seq<Coord>, ghost polled: TurnRun) returns (going: bool, ghost t: TurnRun)
      requires Linked() && |pending| <= env.tuning.cfg.batchSize
      requires Coords(pending) == held + polled.polled && !polled.closed && !polled.due
      modifies this`pending, env`history, env`position, env`clock, env`calls, env`cancelled, env`stopping
      ensures t.polled == polled.polled && !t.closed && FromLog(env.log, held + t.polled)
      ensures t.due <==> IsDue(|old(pending)|, env.tuning.cfg.batchSize, old(env.clock), deadline)
      ensures TurnFits(env.tuning.cfg, env.log, held, t) && (going <==> TurnGoesOn(env.log, held, t))
      ensures env.calls == old(env.calls) + TurnMiddle(env.log, env.tuning.retryBackoff, held, t)
                           + (if going && (t.due || held + t.polled == []) then [Released] else [])
      ensures env.Valid() && old(env.history) <= env.history
      ensures going ==> Linked() && Coords(pending) == if t.due then [] else held + t.polled
      ensures !going ==> env.m !in env.Now().members
    {
      hide FlushScript, FlushFits, FlushAnswer, TurnFits, FromLog, Decoded;
      t := polled;
      going := true;
      DecodedIsFromLog(env.log, pending);
      if |pending| > 0 && (|pending| >= env.tuning.cfg.batchSize || env.clock >= deadline) {
        going, t := FlushNow(held, polled);
      } else {
        NotDue(env.tuning.cfg, env.log, env.tuning.retryBackoff, held, t);
      }
      if going && |pending| == 0 {
        NoItems(env.log);
        env.AllowRebalance();
      }
    }

    /** The flush of a turn: after a failed commit it looks whether the program is being stopped. */
    method FlushNow(ghost held: seq<Coord>, ghost polled: TurnRun) returns (going: bool, ghost t: TurnRun)
      requires Linked() && pending != []
      requires Coords(pending) == held + polled.polled && !polled.closed && !polled.due
      modifies this`pending, env`history, env`clock, env`calls, env`cancelled, env`stopping
      ensures t.polled == polled.polled && !t.closed && t.due && FromLog(env.log, held + t.polled) && pending == []
      ensures TurnFits(env.tuning.cfg, env.log, held, t) && (going <==> TurnGoesOn(env.log, held, t))
      ensures env.calls == old(env.calls) + TurnMiddle(env.log, env.tuning.retryBackoff, held, t)
      ensures env.Valid() && old(env.history) <= env.history
      ensures going ==> Linked()
      ensures !going ==> env.m !in env.Now().members
    {
      hide FlushScript, FlushFits, FlushAnswer, Explained, AllSettled, CommittedSince, FromLog, Decoded;
      var r, f := Flush();
      t := polled.(due := true, flush := f);
      going := r != Aborted;
      if r.CommitFailed? {
        var stop := env.StopAsked(false);
        t := t.(stopping := stop);
        if stop {
          env.Stop();
          going := false;
        }
      }
    }

    /** Polls and flushes until its context is done, after at most the given number of turns, and then
        flushes what is left. `last` is what was said last: the turn or the flush after which it returned. */
    method Run(turns: nat) returns (clean: bool, ghost last: seq<Exchange>)
      requires Linked() && |pending| <= env.tuning.cfg.batchSize
      modifies this, env`history, env`position, env`clock, env`calls, env`cancelled, env`stopping
      ensures env.Valid() && old(env.history) <= env.history
      ensures old(env.calls) <= env.calls && LiveGiveUps(env.calls[|old(env.calls)|..])
      ensures |last| <= |env.calls| && env.calls[|env.calls| - |last|..] == last
      ensures clean <==> !Excused(env.tuning.cfg, last)
      ensures clean ==> last != [] && last[0] == StopChecked(true) && last[|last| - 1] == Released
      ensures forall k :: 0 <= k < |env.history| ==> CommittedIsSettled(env.log, env.history[k])
      ensures forall k :: 0 <= k < |env.history| ==> LedgerIsTrue(env.log, env.history[k])
      ensures clean ==> Linked() && pending == [] && AllBelowSettled(env.log, env.Now(), env.position)
      ensures !clean ==> env.m !in env.Now().members
    {
      hide CommittedIsSettled, LedgerIsTrue, AllBelowSettled, Excused, LiveGiveUps, TurnTold, IsDue, Decoded;
      ghost var start := |env.calls|;
      assert env.calls[start..] == [];
      var k := 0;
      HarmlessIsLive([]);
      while true
        invariant env.Valid() && old(env.history) <= env.history
        invariant Linked() && |pending| <= env.tuning.cfg.batchSize
        invariant old(env.calls) <= env.calls && LiveGiveUps(env.calls[start..])
        decreases turns - k
      {
        ghost var before := env.calls;
        var stop := env.StopAsked(k >= turns);
        LiveAfter(before, [StopChecked(stop)], start);
        if stop {
          break;
        }
        ghost var held := Coords(pending);
        before := env.calls;
        ghost var t, at;
        var going;
        going, t, at := Turn();
        ghost var made := env.calls[|before|..];
        ToldTurnIsLive(
          env.tuning.cfg, env.log, env.tuning.retryBackoff, env.tuning.cfg.batchSize, held, before, env.calls, t, going);
        TailIs(env.calls, before);
        LiveAfter(before, made, start);
        if !going {
          SafeThroughout(env.tuning.cfg, env.log, env.history);
          return false, made;
        }
        k := k + 1;
      }
      clean, last := Leave(start);
    }

    /** The last flush, once the context of Run is done. */
    method Leave(ghost start: nat) returns (clean: bool, ghost last: seq<Exchange>)
      requires Linked() && |pending| <= env.tuning.cfg.batchSize
      requires start < |env.calls| && env.calls[|env.calls| - 1] == StopChecked(true) && LiveGiveUps(env.calls[start..])
      modifies this, env`history, env`position, env`clock, env`calls, env`cancelled
      ensures env.Valid() && old(env.history) <= env.history
      ensures old(env.calls) <= env.calls && LiveGiveUps(env.calls[start..])
      ensures |last| <= |env.calls| && env.calls[|env.calls| - |last|..] == last
      ensures clean <==> !Excused(env.tuning.cfg, last)
      ensures clean ==> last != [] && last[0] == StopChecked(true) && last[|last| - 1] == Released
      ensures forall k :: 0 <= k < |env.history| ==> CommittedIsSettled(env.log, env.history[k])
      ensures forall k :: 0 <= k < |env.history| ==> LedgerIsTrue(env.log, env.history[k])
      ensures clean ==> Linked() && pending == [] && AllBelowSettled(env.log, env.Now(), env.position)
      ensures !clean ==> env.m !in env.Now().members
    {
      hide CommittedIsSettled, LedgerIsTrue, AllBelowSettled, Excused, LiveGiveUps, FlushTold, Explained, AllSettled, CommittedSince;
      ghost var batch, before := Coords(pending), env.calls;
      var r, f := Flush();
      LastSaid(env.tuning.cfg, env.log, env.tuning.retryBackoff, batch, before, env.calls, f, r, start);
      last := [StopChecked(true)] + env.calls[|before|..];
      if r.CommitFailed? {
        env.Stop();
      }
      clean := r != Aborted && !r.CommitFailed?;
      if clean {
        NoItems(env.log);
        ghost var now := env.calls;
        env.AllowRebalance();
        LastReleased(env.tuning.cfg, now, last, start);
        last := last + [Released];
        NothingHeld(env.tuning.cfg, env.log, env.history, env.m);
      }
      SafeThroughout(env.tuning.cfg, env.log, env.history);
    }
  }

  /** What the last flush says, behind the answer that the program is being stopped. */
  lemma LastSaid(
      cfg: Config, log: Log, delay: Int64, batch: seq<Coord>, before: seq<Exchange>, after: seq<Exchange>, f: FlushRun, r: FlushResult, start: nat)
    requires start < |before| && before[|before| - 1] == StopChecked(true) && LiveGiveUps(before[start..])
    requires if r == NothingToFlush then after == before else FlushTold(cfg, log, delay, batch, before, after, f, r)
    ensures
      && before <= after && LiveGiveUps(after[start..])
      && var last := [StopChecked(true)] + after[|before|..];
         && |last| <= |after| && after[|after| - |last|..] == last
         && (r == Aborted || r.CommitFailed? <==> Excused(cfg, last))
  {
    hide Excused, LiveGiveUps, FlushScript, FlushFits, FlushAnswer, Caused, GoesOn, RetryScript;
    var made := if r == NothingToFlush then [] else FlushScript(log, delay, batch, f);
    assert after == before + made && after[|before|..] == made;
    if r == NothingToFlush {
      HarmlessIsLive([]);
      NotExcused(cfg);
    } else {
      GiveUpIsJustified(cfg, log, delay, batch, f);
      LastFlushOutcome(cfg, log, delay, batch, f);
      FlushOutcome(cfg, log, delay, batch, f);
    }
    LiveAfter(before, made, start);
    SuffixIs(before, made);
  }

  lemma LastReleased(cfg: Config, calls: seq<Exchange>, last: seq<Exchange>, start: nat)
    requires start <= |calls| && LiveGiveUps(calls[start..]) && !Excused(cfg, last)
    requires |last| <= |calls| && calls[|calls| - |last|..] == last
    ensures LiveGiveUps((calls + [Released])[start..]) && !Excused(cfg, last + [Released])
    ensures (calls + [Released])[|calls + [Released]| - |last + [Released]|..] == last + [Released]
  {
    hide Excused, LiveGiveUps;
    HarmlessIsLive([Released]);
    LiveAfter(calls, [Released], start);
    ReleaseIsNoExcuse(cfg, last);
    SuffixGrows(calls, last, Released);
  }

  lemma DecodedIsFromLog(log: Log, items: seq<Item>)
    requires Decoded(log, items)
    ensures FromLog(log, Coords(items))
  {
  }

  lemma StoreEnds(log: Log, tuning: Tuning, batch: seq<Coord>, f: FlushRun, start: seq<Exchange>, end: seq<Exchange>)
    requires FromLog(log, batch) && !GoesOn(log, batch, f) && RetryFits(tuning.cfg, f.insert)
    requires end == start + StoreScript(log, tuning.retryBackoff, batch, f)
    ensures FlushTold(tuning.cfg, log, tuning.retryBackoff, batch, start, end, f, Aborted)
  {
    hide StoreScript, FinishScript, GoesOn, RetryFits;
    assert FlushScript(log, tuning.retryBackoff, batch, f) == StoreScript(log, tuning.retryBackoff, batch, f);
  }

  lemma StoreGoesOn(
      log: Log, tuning: Tuning, batch: seq<Coord>, f: FlushRun, g: FlushRun, start: seq<Exchange>, middle: seq<Exchange>, end: seq<Exchange>)
    requires FromLog(log, batch) && GoesOn(log, batch, g) && RetryFits(tuning.cfg, g.insert) && RetryFits(tuning.cfg, f.record)
    requires SpansOf(batch, f.row.spans) && f.row == RowFor(log, batch, StatusOf(g), f.row.spans)
    requires f.insert == g.insert && f.done == g.done && f.produced == g.produced
    requires middle == start + StoreScript(log, tuning.retryBackoff, batch, g)
    requires end == middle + FinishScript(tuning.retryBackoff, batch, f)
    ensures FlushTold(tuning.cfg, log, tuning.retryBackoff, batch, start, end, f, FlushAnswer(log, batch, f))
    ensures FlushAnswer(log, batch, f) ==
              if f.record.result != Succeeded then Aborted
              else if f.committed then Flushed(StatusOf(g)) else CommitFailed(StatusOf(g))
  {
    hide StoreScript, FinishScript, GoesOn, RetryFits, SpansOf, Letters, Events, FromLog;
    SameStore(log, tuning, batch, f, g);
    assert start + (StoreScript(log, tuning.retryBackoff, batch, f) + FinishScript(tuning.retryBackoff, batch, f)) == end;
    assert FlushScript(log, tuning.retryBackoff, batch, f)
        == StoreScript(log, tuning.retryBackoff, batch, f) + FinishScript(tuning.retryBackoff, batch, f);
  }

  lemma SameStore(log: Log, tuning: Tuning, batch: seq<Coord>, f: FlushRun, g: FlushRun)
    requires FromLog(log, batch) && f.insert == g.insert && f.done == g.done && f.produced == g.produced
    ensures StoreScript(log, tuning.retryBackoff, batch, f) == StoreScript(log, tuning.retryBackoff, batch, g)
    ensures GoesOn(log, batch, f) == GoesOn(log, batch, g) && StatusOf(f) == StatusOf(g)
  {
    hide RetryScript, Letters, Events;
  }

  lemma NotDue(cfg: Config, log: Log, delay: Int64, held: seq<Coord>, t: TurnRun)
    requires FromLog(log, held + t.polled) && !t.due && !t.closed
    ensures TurnFits(cfg, log, held, t) && TurnGoesOn(log, held, t) && TurnMiddle(log, delay, held, t) == []
  {
  }

  lemma TurnEnds(
      cfg: Config, log: Log, delay: Int64, size: int, held: seq<Coord>, start: seq<Exchange>, end: seq<Exchange>, t: TurnRun)
    requires FromLog(log, held + t.polled) && t.closed && end == start + [Polled(size - |held|, t.polled, true)]
    ensures TurnTold(cfg, log, delay, size, held, start, end, t, false)
  {
    hide FlushFits, FlushScript, FlushAnswer;
    assert TurnScript(log, delay, size, held, t) == [Polled(size - |held|, t.polled, true)];
  }

  lemma TurnTells(
      cfg: Config, log: Log, delay: Int64, size: int, held: seq<Coord>,
      start: seq<Exchange>, middle: seq<Exchange>, end: seq<Exchange>, t: TurnRun)
    requires FromLog(log, held + t.polled) && !t.closed && TurnFits(cfg, log, held, t)
    requires middle == start + [Polled(size - |held|, t.polled, false)]
    requires end == middle + TurnMiddle(log, delay, held, t)
                    + (if TurnGoesOn(log, held, t) && (t.due || held + t.polled == []) then [Released] else [])
    ensures TurnTold(cfg, log, delay, size, held, start, end, t, TurnGoesOn(log, held, t))
  {
    hide TurnMiddle, TurnGoesOn, TurnFits;
  }

  lemma TurnIsExcused(
      cfg: Config, log: Log, delay: Int64, size: int, held: seq<Coord>, start: seq<Exchange>, end: seq<Exchange>, t: TurnRun, going: bool)
    requires TurnTold(cfg, log, delay, size, held, start, end, t, going)
    ensures start <= end && (going <==> !Excused(cfg, end[|start|..]))
  {
    hide TurnScript, TurnGoesOn, TurnFits, Excused;
    TurnOutcome(cfg, log, delay, size, held, t);
    assert end[|start|..] == TurnScript(log, delay, size, held, t);
  }

  lemma ToldTurnIsLive(
      cfg: Config, log: Log, delay: Int64, size: int, held: seq<Coord>, start: seq<Exchange>, end: seq<Exchange>, t: TurnRun, going: bool)
    requires TurnTold(cfg, log, delay, size, held, start, end, t, going)
    ensures start <= end && LiveGiveUps(end[|start|..])
  {
    hide TurnScript, TurnGoesOn, TurnFits, LiveGiveUps;
    TurnIsLive(cfg, log, delay, size, held, t);
    assert end[|start|..] == TurnScript(log, delay, size, held, t);
  }

  lemma BoundIs(t: Tuning)
    ensures RetryBound(t) == AttemptsTime(t.attemptTimeout, t.retryBackoff, Attempts(t.cfg))
    ensures Delay(t.retryBackoff, 1) == t.retryBackoff
    ensures forall call :: FailedRounds(call, t.retryBackoff, 0) == []
  {
  }

  /** One more failed attempt and the wait behind it. */
  lemma OneRound(t: Tuning, call: Call, delay: Int64, attempt: nat, left: nat)
    requires attempt > 0 && left > 0 && delay == Delay(t.retryBackoff, attempt)
    ensures AttemptsTime(t.attemptTimeout, delay, left) >= t.attemptTimeout
    ensures left > 1 ==> AttemptsTime(t.attemptTimeout, delay, left)
                         == t.attemptTimeout + Pause(delay) + AttemptsTime(t.attemptTimeout, Doubled(delay), left - 1)
    ensures FailedRounds(call, t.retryBackoff, attempt)
            == FailedRounds(call, t.retryBackoff, attempt - 1) + [Called(call, false), Waited(delay, false)]
    ensures Delay(t.retryBackoff, attempt + 1) == Doubled(delay)
  {
    hide Doubled;
  }

  lemma SinceEarlier(run: seq<State>, from: nat, later: nat, records: seq<Coord>)
    requires from <= later && CommittedSince(run, later, records)
    ensures CommittedSince(run, from, records)
  {
    hide BelowCommitted;
  }

  lemma LiveAfter(before: seq<Exchange>, made: seq<Exchange>, start: nat)
    requires start <= |before| && LiveGiveUps(before[start..])
    requires LiveGiveUps(made) || (|made| == 1 && made[0].StopChecked?)
    ensures LiveGiveUps((before + made)[start..])
  {
    hide LiveGiveUps;
    if |made| == 1 && made[0].StopChecked? {
      HarmlessIsLive(made);
    }
    LiveTogether(before[start..], made);
    assert (before + made)[start..] == before[start..] + made;
  }

  lemma NotExcused(cfg: Config)
    ensures !Excused(cfg, [StopChecked(true)] + [])
  {
    hide Caused;
    NothingCaused(cfg);
    HarmlessBefore(cfg, StopChecked(true), []);
    assert [StopChecked(true)] + [] == [StopChecked(true)];
  }

  lemma ReleaseIsNoExcuse(cfg: Config, xs: seq<Exchange>)
    requires !Excused(cfg, xs)
    ensures !Excused(cfg, xs + [Released])
  {
    hide Caused;
    HarmlessAfter(cfg, Released, xs);
    assert forall x :: x in xs + [Released] <==> x in xs || x == Released;
  }

  lemma TailIs(calls: seq<Exchange>, before: seq<Exchange>)
    requires before <= calls
    ensures
      var made := calls[|before|..];
      calls == before + made && |made| <= |calls| && calls[|calls| - |made|..] == made
  {
  }

  lemma SuffixIs(before: seq<Exchange>, made: seq<Exchange>)
    requires before != [] && before[|before| - 1] == StopChecked(true)
    ensures
      var last := [StopChecked(true)] + made;
      |last| <= |before + made| && (before + made)[|before + made| - |last|..] == last
  {
  }

  lemma SuffixGrows(calls: seq<Exchange>, last: seq<Exchange>, x: Exchange)
    requires |last| <= |calls| && calls[|calls| - |last|..] == last
    ensures (calls + [x])[|calls + [x]| - |last + [x]|..] == last + [x]
  {
  }

  ghost predicate AllSettled(log: Log, s: State, batch: seq<Coord>) {
    forall c :: c in batch ==> Settled(log, s, c)
  }

  ghost predicate Below(batch: seq<Coord>, position: map<TopicPartition, nat>) {
    forall c :: c in batch ==> c.tp in position && c.offset < position[c.tp]
  }

  lemma SafeThroughout(cfg: Config, log: Log, run: seq<State>)
    requires IsRun(cfg, log, run)
    ensures forall k :: 0 <= k < |run| ==> CommittedIsSettled(log, run[k])
    ensures forall k :: 0 <= k < |run| ==> LedgerIsTrue(log, run[k])
  {
    hide CommittedIsSettled, LedgerIsTrue;
    forall k | 0 <= k < |run| ensures CommittedIsSettled(log, run[k]) && LedgerIsTrue(log, run[k]) {
      AtLeastOnce(cfg, log, run, k);
    }
  }

  /** Every record that a process has passed is settled. */
  ghost predicate AllBelowSettled(log: Log, s: State, position: map<TopicPartition, nat>) {
    forall c :: c in log && c.tp in position && c.offset < position[c.tp] ==> Settled(log, s, c)
  }

  lemma NothingHeld(cfg: Config, log: Log, run: seq<State>, m: nat)
    requires IsRun(cfg, log, run) && m in run[|run| - 1].members && run[|run| - 1].members[m].held == []
    ensures AllBelowSettled(log, run[|run| - 1], run[|run| - 1].members[m].position)
  {
    RunKeepsInv(cfg, log, run, |run| - 1);
    assert MemberOk(cfg, log, run[|run| - 1], run[|run| - 1].members[m]);
    BelowPosition(cfg, log, run[|run| - 1], run[|run| - 1].members[m]);
  }

  lemma HeldBelowPosition(cfg: Config, log: Log, run: seq<State>, m: nat)
    requires IsRun(cfg, log, run) && m in run[|run| - 1].members
    ensures
      var x := run[|run| - 1].members[m];
      FromLog(log, x.held) && Below(x.held, x.position)
  {
    RunKeepsInv(cfg, log, run, |run| - 1);
    var x := run[|run| - 1].members[m];
    assert MemberOk(cfg, log, run[|run| - 1], x);
    assert forall c :: c in x.held ==> Between(log, x.base, x.position, c);
  }

  lemma BelowBase(cfg: Config, log: Log, run: seq<State>, m: nat, batch: seq<Coord>)
    requires IsRun(cfg, log, run) && m in run[|run| - 1].members
    requires FromLog(log, batch) && Below(batch, run[|run| - 1].members[m].base)
    ensures AllSettled(log, run[|run| - 1], batch)
  {
    RunKeepsInv(cfg, log, run, |run| - 1);
    assert MemberOk(cfg, log, run[|run| - 1], run[|run| - 1].members[m]);
  }

  lemma SomeLetter(log: Log, batch: seq<Coord>)
    requires FromLog(log, batch) && batch != []
    ensures Letters(log, batch, DeadLettered) != []
  {
    LettersContents(log, batch, DeadLettered);
    var c := batch[0];
    assert DeadLetter(c, if log[c].Good? then InsertFailed else Invalid) in Letters(log, batch, DeadLettered);
  }

  /** Splits a batch into its records, its events and the letters of what did not decode. */
  method Sort(ghost log: Log, items: seq<Item>) returns (records: seq<Coord>, events: seq<Event>, dead: seq<DeadLetter>)
    requires Decoded(log, items)
    ensures records == Coords(items) && FromLog(log, records)
    ensures events == Events(log, records) && dead == Letters(log, records, Inserted)
  {
    records, events, dead := [], [], [];
    for k := 0 to |items|
      invariant records == Coords(items[..k]) && FromLog(log, records)
      invariant events == Events(log, records) && dead == LettersFor(log, records, false, Invalid)
    {
      var it := items[k];
      ghost var before := records;
      records := records + [it.coord];
      assert records[..|records| - 1] == before;
      assert records == Coords(items[..k + 1]);
      if it.record.Bad? {
        dead := dead + [DeadLetter(it.coord, Invalid)];
      } else {
        events := events + [it.record.event];
      }
    }
    assert items[..|items|] == items;
  }

  /** Adds a letter for each record whose insert was given up. */
  method GiveUp(ghost log: Log, items: seq<Item>, invalid: seq<DeadLetter>) returns (dead: seq<DeadLetter>)
    requires Decoded(log, items) && FromLog(log, Coords(items)) && invalid == Letters(log, Coords(items), Inserted)
    ensures dead == Letters(log, Coords(items), DeadLettered)
  {
    dead := invalid;
    ghost var records := [];
    for k := 0 to |items|
      invariant records == Coords(items[..k]) && FromLog(log, records)
      invariant dead == invalid + LettersFor(log, records, true, InsertFailed)
    {
      var it := items[k];
      ghost var before := records;
      records := records + [it.coord];
      assert records[..|records| - 1] == before;
      assert records == Coords(items[..k + 1]);
      if it.record.Good? {
        dead := dead + [DeadLetter(it.coord, InsertFailed)];
      }
    }
    assert items[..|items|] == items;
  }

  /** The call is the one the state of the process asks for. */
  ghost predicate Ready(log: Log, x: Member, call: Call) {
    && FromLog(log, x.held)
    && match call
       case InsertCall(events) => x.phase.Inserting? && events == Events(log, x.held)
       case RecordCall(row) =>
         x.phase.Recording? && SpansOf(x.held, row.spans) && row == RowFor(log, x.held, x.phase.status, row.spans)
  }

  ghost function Failed(x: Member, failures: nat): Member
    requires x.phase.Inserting? || x.phase.Recording?
  {
    x.(phase := if x.phase.Inserting? then Inserting(failures) else Recording(x.phase.status, failures))
  }

  ghost function After(cfg: Config, log: Log, x: Member, call: Call, ok: bool, failures: nat): Member
    requires Ready(log, x, call)
  {
    match call
    case InsertCall(_) => AfterInsert(cfg, log, x, ok, failures)
    case RecordCall(_) => x.(phase := if ok then Committing else Recording(x.phase.status, failures))
  }

  /** What an attempt leads to does not depend on the failures before it, except for the last one. */
  lemma Outcomes(cfg: Config, log: Log, x: Member, call: Call, failures: nat)
    requires Ready(log, x, call)
    ensures Ready(log, Failed(x, failures), call)
    ensures After(cfg, log, Failed(x, failures), call, true, failures + 1) == After(cfg, log, x, call, true, 1)
    ensures failures + 1 < Attempts(cfg) ==>
              After(cfg, log, Failed(x, failures), call, false, failures + 1) == Failed(x, failures + 1)
    ensures failures + 1 >= Attempts(cfg) && call.InsertCall? ==>
              After(cfg, log, Failed(x, failures), call, false, failures + 1) == x.(phase := Producing(DeadLettered))
  {
  }
}
