/**
 The in-memory batcher: any number of Enqueue calls, one at a time behind the mutex, race with the
 goroutine that collects, flushes and finally drains. A step is one channel operation, one lock
 operation or the end of one flush.
 */
module Batcher {
  import opened Basics
  import opened Backoff

  datatype Config = Config(bufferSize: nat, batchSize: nat, maxAttempts: int)

  datatype Event = Event(id: string, payload: string)

  /** Who holds the mutex: an Enqueue call that still has events to send, or nobody. */
  datatype Holder = Free | Sending(rest: seq<Event>)

  datatype Phase = Running | Draining | Done

  datatype State = State(
    channel: seq<Event>,
    holder: Holder,
    closed: bool,
    phase: Phase,
    batch: seq<Event>,
    flushing: bool,
    flushed: seq<seq<Event>>,
    stored: seq<seq<Event>>,
    dropped: seq<seq<Event>>,
    droppedCount: nat,
    accepted: seq<seq<Event>>)

  const Initial := State([], Free, false, Running, [], false, [], [], [], 0, [])

  datatype Error = TooLarge | Closed | BufferFull

  /** What Enqueue answers when it looks at the buffer under the lock. */
  function Refusal(cfg: Config, s: State, events: seq<Event>): Option<Error> {
    if |events| > cfg.bufferSize then Some(TooLarge)
    else if s.closed then Some(Closed)
    else if cfg.bufferSize - |s.channel| < |events| then Some(BufferFull)
    else None
  }

  // ---------- the attempts to insert a batch ----------

  /** The inserter's answer to the i-th attempt on a batch (from 1), and whether the flush context ends
      the wait behind it. */
  datatype Answers = Answers(inserts: nat -> bool, done: nat -> bool)

  /** The attempt with which the loop ends, from the i-th on. */
  function LastAttempt(cfg: Config, answers: Answers, i: nat): (n: nat)
    requires i > 0
    ensures n >= i
    decreases cfg.maxAttempts - i
  {
    if answers.inserts(i) || i >= cfg.maxAttempts || answers.done(i) then i else LastAttempt(cfg, answers, i + 1)
  }

  /** Whether the batch is stored. */
  predicate Stores(cfg: Config, answers: Answers) {
    answers.inserts(LastAttempt(cfg, answers, 1))
  }

  ghost predicate GoesPast(cfg: Config, answers: Answers, i: nat) {
    !answers.inserts(i) && i < cfg.maxAttempts && !answers.done(i)
  }

  lemma {:induction false} LastAttemptIs(cfg: Config, answers: Answers, i: nat)
    requires i > 0
    ensures
      var n := LastAttempt(cfg, answers, i);
      !GoesPast(cfg, answers, n) && forall j :: i <= j < n ==> GoesPast(cfg, answers, j)
    decreases cfg.maxAttempts - i
  {
    if GoesPast(cfg, answers, i) {
      LastAttemptIs(cfg, answers, i + 1);
    }
  }

  /** A batch is stored if and only if some attempt is answered well before the attempts are used up or
      a wait is ended. */
  lemma StoresExactly(cfg: Config, answers: Answers)
    ensures Stores(cfg, answers) <==>
              exists n :: n > 0 && answers.inserts(n) && forall j :: 1 <= j < n ==> GoesPast(cfg, answers, j)
  {
    LastAttemptIs(cfg, answers, 1);
    var last := LastAttempt(cfg, answers, 1);
    if n :| n > 0 && answers.inserts(n) && forall j :: 1 <= j < n ==> GoesPast(cfg, answers, j) {
      assert GoesPast(cfg, answers, n) || n >= last;
      assert GoesPast(cfg, answers, last) || n <= last;
    }
  }

  datatype Action =
    | Enter(events: seq<Event>)
    | Send
    | Leave
    | Receive
    | Tick
    | Flush(answers: Answers)
    | Cancel
    | LastFlush
    | Finish

  /** Whether the code can take the step. A send is not guarded by room or by `closed`: that it
      never blocks and never hits a closed channel is proved. */
  predicate Enabled(cfg: Config, s: State, a: Action) {
    match a
    case Enter(events) => s.holder.Free?
    case Send => s.holder.Sending? && s.holder.rest != []
    case Leave => s.holder == Sending([])
    case Receive => s.phase != Done && !s.flushing && s.channel != []
    case Tick => s.phase == Running && !s.flushing && s.batch != []
    case Flush(_) => s.flushing
    case Cancel => s.phase == Running && !s.flushing && s.holder.Free?
    case LastFlush => s.phase == Draining && !s.flushing && s.channel == [] && s.batch != []
    case Finish => s.phase == Draining && !s.flushing && s.channel == [] && s.batch == []
  }

  function Apply(cfg: Config, s: State, a: Action): State
    requires Enabled(cfg, s, a)
  {
    match a
    case Enter(events) =>
      if Refusal(cfg, s, events).Some? then s
      else s.(holder := Sending(events), accepted := s.accepted + [events])
    case Send => s.(channel := s.channel + [s.holder.rest[0]], holder := Sending(s.holder.rest[1..]))
    case Leave => s.(holder := Free)
    case Receive =>
      var batch := s.batch + [s.channel[0]];
      s.(channel := s.channel[1..], batch := batch, flushing := |batch| >= cfg.batchSize)
    case Tick => s.(flushing := true)
    case Flush(answers) =>
      var ok := Stores(cfg, answers);
      s.(batch := [], flushing := false, flushed := s.flushed + [s.batch],
         stored := if ok then s.stored + [s.batch] else s.stored,
         dropped := if ok then s.dropped else s.dropped + [s.batch],
         droppedCount := s.droppedCount + if ok then 0 else |s.batch|)
    case Cancel => s.(phase := Draining, closed := true)
    case LastFlush => s.(flushing := true)
    case Finish => s.(phase := Done)
  }

  // ---------- what every step keeps ----------

  function Concat(bs: seq<seq<Event>>): seq<Event> {
    if bs == [] then [] else Concat(bs[..|bs| - 1]) + bs[|bs| - 1]
  }

  function Unsent(h: Holder): seq<Event> {
    if h.Sending? then h.rest else []
  }

  ghost predicate Sized(cfg: Config, bs: seq<seq<Event>>) {
    forall i :: 0 <= i < |bs| ==> 1 <= |bs[i]| <= cfg.batchSize
  }

  ghost predicate Inv(cfg: Config, s: State) {
    && Concat(s.flushed) + s.batch + s.channel + Unsent(s.holder) == Concat(s.accepted)
    && |s.channel| + |Unsent(s.holder)| <= cfg.bufferSize
    && (s.closed <==> s.phase != Running)
    && (s.closed ==> s.holder.Free?)
    && Sized(cfg, s.flushed)
    && (if s.flushing then 1 <= |s.batch| <= cfg.batchSize else |s.batch| < cfg.batchSize)
    && multiset(Concat(s.stored)) + multiset(Concat(s.dropped)) == multiset(Concat(s.flushed))
    && s.droppedCount == |Concat(s.dropped)|
    && (s.phase == Done ==> s.channel == [] && s.batch == [] && !s.flushing)
  }

  lemma ConcatOne(bs: seq<seq<Event>>, b: seq<Event>)
    ensures Concat(bs + [b]) == Concat(bs) + b
  {
    assert (bs + [b])[..|bs|] == bs;
  }

  /** The head of a queue moves to the end of what is before it. */
  lemma MoveOne(before: seq<Event>, x: seq<Event>, queue: seq<Event>, after: seq<Event>)
    requires queue != []
    ensures before + x + queue + after == before + (x + [queue[0]]) + queue[1..] + after
  {
    assert queue == [queue[0]] + queue[1..];
  }

  lemma SendStep(cfg: Config, s: State)
    requires Inv(cfg, s) && Enabled(cfg, s, Send)
    ensures Inv(cfg, Apply(cfg, s, Send))
  {
    hide Concat, Sized;
    MoveOne(Concat(s.flushed) + s.batch, s.channel, s.holder.rest, []);
    Unit(Concat(s.flushed) + s.batch + s.channel + s.holder.rest);
    var t := Apply(cfg, s, Send);
    Unit(Concat(s.flushed) + s.batch + t.channel + t.holder.rest);
  }

  lemma Unit(s: seq<Event>)
    ensures s + [] == s
  {
  }

  lemma ReceiveStep(cfg: Config, s: State)
    requires Inv(cfg, s) && Enabled(cfg, s, Receive) && cfg.batchSize > 0
    ensures Inv(cfg, Apply(cfg, s, Receive))
  {
    hide Concat, Sized, Unsent;
    MoveOne(Concat(s.flushed), s.batch, s.channel, Unsent(s.holder));
  }

  lemma FlushStep(cfg: Config, s: State, answers: Answers)
    requires Inv(cfg, s) && s.flushing
    ensures Inv(cfg, Apply(cfg, s, Flush(answers)))
  {
    hide Concat, Unsent, Stores;
    ConcatOne(s.flushed, s.batch);
    ConcatOne(s.stored, s.batch);
    ConcatOne(s.dropped, s.batch);
    Unit(Concat(s.flushed) + s.batch);
  }

  lemma EnterStep(cfg: Config, s: State, events: seq<Event>)
    requires Inv(cfg, s) && s.holder.Free?
    ensures Inv(cfg, Apply(cfg, s, Enter(events)))
  {
    hide Concat, Sized;
    ConcatOne(s.accepted, events);
    Unit(Concat(s.flushed) + s.batch + s.channel);
  }

  lemma StepKeepsInv(cfg: Config, s: State, a: Action)
    requires Inv(cfg, s) && Enabled(cfg, s, a) && cfg.batchSize > 0
    ensures Inv(cfg, Apply(cfg, s, a))
  {
    hide Concat, Sized;
    match a {
      case Enter(events) => EnterStep(cfg, s, events);
      case Send => SendStep(cfg, s);
      case Leave =>
      case Receive => ReceiveStep(cfg, s);
      case Tick =>
      case Flush(answers) => FlushStep(cfg, s, answers);
      case Cancel =>
      case LastFlush =>
      case Finish =>
    }
  }

  /** The state after some steps in any order; a step the code cannot take does not happen. */
  function Run(cfg: Config, actions: seq<Action>): State {
    if actions == [] then Initial
    else
      var s := Run(cfg, actions[..|actions| - 1]);
      var a := actions[|actions| - 1];
      if Enabled(cfg, s, a) then Apply(cfg, s, a) else s
  }

  lemma {:induction false} RunKeepsInv(cfg: Config, actions: seq<Action>)
    requires cfg.batchSize > 0
    ensures Inv(cfg, Run(cfg, actions))
  {
    if actions != [] {
      RunKeepsInv(cfg, actions[..|actions| - 1]);
      var s := Run(cfg, actions[..|actions| - 1]);
      var a := actions[|actions| - 1];
      if Enabled(cfg, s, a) {
        StepKeepsInv(cfg, s, a);
      }
    }
  }

  // ---------- theorems ----------

  /** Under every interleaving: the flushed batches, the current batch, the channel and what an
      Enqueue call is still sending are, in this order, the accepted requests in lock order; no
      batch is empty or too large; and a send finds room in an open channel. */
  lemma NothingIsLost(cfg: Config, actions: seq<Action>)
    requires cfg.batchSize > 0
    ensures
      var s := Run(cfg, actions);
      && Concat(s.flushed) + s.batch + s.channel + Unsent(s.holder) == Concat(s.accepted)
      && (forall i :: 0 <= i < |s.flushed| ==> 1 <= |s.flushed[i]| <= cfg.batchSize)
      && (Enabled(cfg, s, Send) ==> |s.channel| < cfg.bufferSize && !s.closed)
  {
    RunKeepsInv(cfg, actions);
  }

  /** When Run has returned, every accepted event is in exactly one of the stored and the dropped
      batches, as often as it was accepted, and the dropped ones were counted. */
  lemma DrainedCompletely(cfg: Config, actions: seq<Action>)
    requires cfg.batchSize > 0
    ensures
      var s := Run(cfg, actions);
      s.phase == Done ==>
        && Concat(s.flushed) == Concat(s.accepted)
        && multiset(Concat(s.stored)) + multiset(Concat(s.dropped)) == multiset(Concat(s.accepted))
        && s.droppedCount == |Concat(s.dropped)|
  {
    RunKeepsInv(cfg, actions);
    var s := Run(cfg, actions);
    if s.phase == Done {
      assert Concat(s.flushed) + [] + [] + [] == Concat(s.flushed);
    }
  }

  /** Whether each of the flushed batches was stored, read from the steps. */
  function Verdicts(cfg: Config, actions: seq<Action>): seq<bool> {
    if actions == [] then []
    else
      var init, a := actions[..|actions| - 1], actions[|actions| - 1];
      Verdicts(cfg, init) + if a.Flush? && Enabled(cfg, Run(cfg, init), a) then [Stores(cfg, a.answers)] else []
  }

  /** The batches with this verdict, in order. */
  function Chosen(batches: seq<seq<Event>>, verdicts: seq<bool>, verdict: bool): seq<seq<Event>>
    requires |batches| == |verdicts|
  {
    if batches == [] then []
    else
      var n := |batches| - 1;
      Chosen(batches[..n], verdicts[..n], verdict) + if verdicts[n] == verdict then [batches[n]] else []
  }

  lemma ChosenMore(batches: seq<seq<Event>>, verdicts: seq<bool>, b: seq<Event>, v: bool, verdict: bool)
    requires |batches| == |verdicts|
    ensures Chosen(batches + [b], verdicts + [v], verdict) == Chosen(batches, verdicts, verdict) + if v == verdict then [b] else []
  {
    assert (batches + [b])[..|batches|] == batches && (verdicts + [v])[..|verdicts|] == verdicts;
  }

  /** Over every run: a batch is stored exactly when the inserter's answers to it say so, and dropped
      exactly otherwise; both kinds stay in order, and the counter is the number of dropped events. */
  lemma {:induction false} AnswersDecide(cfg: Config, actions: seq<Action>)
    ensures
      var s := Run(cfg, actions);
      var verdicts := Verdicts(cfg, actions);
      && |s.flushed| == |verdicts|
      && s.stored == Chosen(s.flushed, verdicts, true)
      && s.dropped == Chosen(s.flushed, verdicts, false)
      && s.droppedCount == |Concat(Chosen(s.flushed, verdicts, false))|
  {
    hide Apply, Enabled, Stores, Concat, Chosen;
    if actions == [] {
      NoneChosen();
    } else {
      var init, a := actions[..|actions| - 1], actions[|actions| - 1];
      AnswersDecide(cfg, init);
      var s := Run(cfg, init);
      assert Verdicts(cfg, init) + [] == Verdicts(cfg, init) && s.stored + [] == s.stored && s.dropped + [] == s.dropped;
      if Enabled(cfg, s, a) {
        FlushingStep(cfg, s, a);
        if a.Flush? {
          var v := Stores(cfg, a.answers);
          ChosenMore(s.flushed, Verdicts(cfg, init), s.batch, v, true);
          ChosenMore(s.flushed, Verdicts(cfg, init), s.batch, v, false);
          ConcatOne(s.dropped, s.batch);
        }
      }
    }
  }

  lemma NoneChosen()
    ensures Chosen([], [], true) == [] && Chosen([], [], false) == [] && Concat([]) == []
  {
  }

  /** Only the end of a flush changes what is flushed, stored and dropped. */
  lemma FlushingStep(cfg: Config, s: State, a: Action)
    requires Enabled(cfg, s, a)
    ensures
      var t := Apply(cfg, s, a);
      if a.Flush? then
        && t.flushed == s.flushed + [s.batch]
        && t.stored == s.stored + (if Stores(cfg, a.answers) then [s.batch] else [])
        && t.dropped == s.dropped + (if Stores(cfg, a.answers) then [] else [s.batch])
        && t.droppedCount == s.droppedCount + (if Stores(cfg, a.answers) then 0 else |s.batch|)
      else t.flushed == s.flushed && t.stored == s.stored && t.dropped == s.dropped && t.droppedCount == s.droppedCount
  {
    hide Stores;
  }

  /** Over every run: a batch is flushed as soon as it is full and not because of another event before;
      the ticker flushes whatever there is. */
  lemma FlushedWhenDue(cfg: Config, actions: seq<Action>)
    requires cfg.batchSize > 0
    ensures
      var s := Run(cfg, actions);
      && (Enabled(cfg, s, Receive) ==>
            (Apply(cfg, s, Receive).flushing <==> |Apply(cfg, s, Receive).batch| == cfg.batchSize))
      && (s.phase == Running && !s.flushing && s.batch != [] ==> Enabled(cfg, s, Tick) && Apply(cfg, s, Tick) == s.(flushing := true))
  {
    RunKeepsInv(cfg, actions);
  }

  /** Enqueue is all or nothing: a refused call changes nothing, and an accepted one is in the
      channel, in order, when it gives the lock back, unless the collector already took some. */
  lemma EnqueueIsAtomic(cfg: Config, s: State, events: seq<Event>)
    requires Inv(cfg, s) && s.holder.Free?
    ensures
      var t := Apply(cfg, s, Enter(events));
      if |events| > cfg.bufferSize || s.phase != Running || |s.channel| + |events| > cfg.bufferSize then t == s
      else Concat(t.accepted) == Concat(s.accepted) + events && t.holder == Sending(events)
    ensures Refusal(cfg, s, events) ==
              if |events| > cfg.bufferSize then Some(TooLarge)
              else if s.phase != Running then Some(Closed)
              else if |s.channel| + |events| > cfg.bufferSize then Some(BufferFull)
              else None
  {
    ConcatOne(s.accepted, events);
  }

  /** The state after some more steps. */
  function RunFrom(cfg: Config, s: State, actions: seq<Action>): State {
    if actions == [] then s
    else
      var t := RunFrom(cfg, s, actions[..|actions| - 1]);
      var a := actions[|actions| - 1];
      if Enabled(cfg, t, a) then Apply(cfg, t, a) else t
  }

  lemma ClosedStep(cfg: Config, s: State, a: Action)
    requires Inv(cfg, s) && Enabled(cfg, s, a) && s.closed
    ensures Apply(cfg, s, a).closed && Apply(cfg, s, a).accepted == s.accepted
  {
    hide Stores, Concat, Sized;
  }

  /** From the cancellation on the batcher drains and accepts nothing any more. */
  lemma {:induction false} NothingAcceptedAfterCancel(cfg: Config, s: State, actions: seq<Action>)
    requires Inv(cfg, s) && Enabled(cfg, s, Cancel) && cfg.batchSize > 0
    ensures
      var drains := Apply(cfg, s, Cancel);
      var t := RunFrom(cfg, drains, actions);
      drains.phase == Draining && Inv(cfg, t) && t.closed && t.accepted == s.accepted
  {
    hide Apply, Enabled, Inv;
    CancelDrains(cfg, s);
    if actions != [] {
      var n := |actions| - 1;
      NothingAcceptedAfterCancel(cfg, s, actions[..n]);
      var t := RunFrom(cfg, Apply(cfg, s, Cancel), actions[..n]);
      if Enabled(cfg, t, actions[n]) {
        ClosedStep(cfg, t, actions[n]);
        StepKeepsInv(cfg, t, actions[n]);
      }
    }
  }

  lemma CancelDrains(cfg: Config, s: State)
    requires Inv(cfg, s) && Enabled(cfg, s, Cancel) && cfg.batchSize > 0
    ensures Apply(cfg, s, Cancel) == s.(phase := Draining, closed := true) && Inv(cfg, Apply(cfg, s, Cancel))
  {
    StepKeepsInv(cfg, s, Cancel);
  }

  /** Draining always gets to its end: each of its steps, and only those, makes this smaller. */
  function Left(s: State): nat {
    4 * |s.channel| + (if s.flushing then 1 else if s.batch != [] then 2 else 0) + if s.phase == Done then 0 else 1
  }

  lemma DrainTerminates(cfg: Config, s: State, a: Action)
    requires Inv(cfg, s) && cfg.batchSize > 0 && s.phase == Draining
    ensures Enabled(cfg, s, a) && !a.Enter? ==> Left(Apply(cfg, s, a)) < Left(s)
    ensures (forall answers :: Enabled(cfg, s, Flush(answers))) || Enabled(cfg, s, Receive) || Enabled(cfg, s, LastFlush) || Enabled(cfg, s, Finish)
  {
  }

  // ---------- the code of one goroutine ----------

  /** The insert attempts of one batch, given the answers to them: as many as the answers say, with the
      doubling waits between them. */
  method InsertWithRetry(cfg: Config, backoff: Int64, answers: Answers) returns (ok: bool, attempts: nat, ghost waits: seq<Int64>)
    ensures ok <==> Stores(cfg, answers)
    ensures attempts > 0 && (ok <==> answers.inserts(attempts))
    ensures !GoesPast(cfg, answers, attempts) && forall j :: 1 <= j < attempts ==> GoesPast(cfg, answers, j)
    ensures attempts <= if cfg.maxAttempts < 1 then 1 else cfg.maxAttempts
    ensures !ok ==> answers.done(attempts) || attempts >= cfg.maxAttempts
    ensures |waits| == attempts - (if ok || attempts >= cfg.maxAttempts then 1 else 0)
    ensures forall i :: 0 <= i < |waits| ==> waits[i] == Delay(backoff, i + 1)
  {
    hide Doubled;
    var delay := backoff;
    attempts, waits := 1, [];
    while true
      invariant attempts > 0 && LastAttempt(cfg, answers, attempts) == LastAttempt(cfg, answers, 1)
      invariant forall j :: 1 <= j < attempts ==> GoesPast(cfg, answers, j)
      invariant attempts <= if cfg.maxAttempts < 1 then 1 else cfg.maxAttempts
      invariant |waits| == attempts - 1 && delay == Delay(backoff, attempts)
      invariant forall i :: 0 <= i < |waits| ==> waits[i] == Delay(backoff, i + 1)
      decreases cfg.maxAttempts - attempts
    {
      ok := answers.inserts(attempts);
      if ok {
        return;
      }
      if attempts >= cfg.maxAttempts {
        return;
      }
      waits := waits + [delay];
      if answers.done(attempts) {
        return;
      }
      delay := Doubled(delay);
      attempts := attempts + 1;
    }
  }

  /** The batches that draining cuts: full ones, and a last one with what is left. */
  function Cuts(events: seq<Event>, size: nat): seq<seq<Event>>
    requires size > 0
    decreases |events|
  {
    if events == [] then []
    else if |events| <= size then [events]
    else [events[..size]] + Cuts(events[size..], size)
  }

  lemma {:induction false} CutsCover(events: seq<Event>, size: nat)
    requires size > 0
    ensures Concat(Cuts(events, size)) == events
    ensures forall i :: 0 <= i < |Cuts(events, size)| ==>
              1 <= |Cuts(events, size)[i]| <= size && (i < |Cuts(events, size)| - 1 ==> |Cuts(events, size)[i]| == size)
    decreases |events|
  {
    if events != [] {
      if |events| <= size {
        ConcatOne([], events);
        assert [] + [events] == [events] && [] + events == events;
      } else {
        var rest := Cuts(events[size..], size);
        CutsCover(events[size..], size);
        ConcatFirst(events[..size], rest);
        assert events[..size] + events[size..] == events;
      }
    }
  }

  lemma {:induction false} ConcatFirst(b: seq<Event>, bs: seq<seq<Event>>)
    ensures Concat([b] + bs) == b + Concat(bs)
  {
    if bs == [] {
      ConcatOne([], b);
      assert [] + [b] == [b] + bs && [] + b == b + [];
    } else {
      var init := bs[..|bs| - 1];
      ConcatFirst(b, init);
      assert ([b] + bs)[..|bs|] == [b] + init;
    }
  }

  /** drain, once the channel is closed: its loop cuts what is left into batches. */
  method Drain(cfg: Config, pending: seq<Event>, channel: seq<Event>) returns (batches: seq<seq<Event>>)
    requires cfg.batchSize > 0 && |pending| < cfg.batchSize
    ensures batches == Cuts(pending + channel, cfg.batchSize)
  {
    batches := [];
    var batch := pending;
    var rest := channel;
    while rest != []
      invariant |batch| < cfg.batchSize
      invariant batches + Cuts(batch + rest, cfg.batchSize) == Cuts(pending + channel, cfg.batchSize)
      decreases |rest|
    {
      ghost var all := batch + rest;
      batch := batch + [rest[0]];
      rest := rest[1..];
      assert batch + rest == all;
      if |batch| == cfg.batchSize {
        if rest == [] {
          assert batch == all && [] + rest == [];
        } else {
          assert all[..cfg.batchSize] == batch && all[cfg.batchSize..] == rest && [] + rest == rest;
        }
        assert Cuts(all, cfg.batchSize) == [batch] + Cuts(rest, cfg.batchSize);
        batches := batches + [batch];
        batch := [];
      }
    }
    assert batch + rest == batch;
    if |batch| > 0 {
      batches := batches + [batch];
    }
  }
}
