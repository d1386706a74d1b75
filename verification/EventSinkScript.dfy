/**
 What a flush says to its environment and what it makes of the answers: the sequence of calls and
 waits, with the answers in it, and the result. An abort always has a cause among the answers.
 */
module EventSinkScript {
  import opened Basics
  import opened EventLog
  import opened EventSinkProtocol
  import opened Backoff

  /** What retry is given to call. */
  datatype Call = InsertCall(events: seq<Event>) | RecordCall(row: LedgerRow)

  /** One exchange of the process with its environment, with the answer. */
  datatype Exchange =
    | Polled(max: int, records: seq<Coord>, closed: bool)
    | Called(call: Call, ok: bool)
    | Waited(delay: Int64, interrupted: bool)
    | Checked(done: bool)
    | Produced(letters: seq<DeadLetter>, ok: bool)
    | CommitAsked(records: seq<Coord>, ok: bool)
    | StopChecked(stopping: bool)
    | Released

  datatype RetryResult = Succeeded | Exhausted | Interrupted

  datatype FlushResult = Flushed(status: Status) | CommitFailed(status: Status) | Aborted | NothingToFlush

  // ---------- retry ----------

  /** How a retry went: its result, after so many failed attempts with a whole wait behind them. */
  datatype Retried = Retried(result: RetryResult, rounds: nat)

  function FailedRounds(call: Call, delay: Int64, n: nat): seq<Exchange> {
    if n == 0 then [] else FailedRounds(call, delay, n - 1) + [Called(call, false), Waited(Delay(delay, n), false)]
  }

  function RetryScript(call: Call, delay: Int64, r: Retried): seq<Exchange> {
    FailedRounds(call, delay, r.rounds) +
    match r.result
    case Succeeded => [Called(call, true)]
    case Exhausted => [Called(call, false)]
    case Interrupted => [Called(call, false), Waited(Delay(delay, r.rounds + 1), true)]
  }

  /** It gives up with its last attempt and not before, and does not wait after it. */
  predicate RetryFits(cfg: Config, r: Retried) {
    match r.result
    case Succeeded => r.rounds < Attempts(cfg)
    case Exhausted => r.rounds + 1 == Attempts(cfg)
    case Interrupted => r.rounds + 1 < Attempts(cfg)
  }

  ghost predicate OnlyAbout(xs: seq<Exchange>, call: Call) {
    forall x :: x in xs ==> x.Waited? || (x.Called? && x.call == call)
  }

  /** The i-th round is a failed call and the i-th wait of the doubling loop. */
  lemma {:induction false} RoundsAre(call: Call, delay: Int64, n: nat)
    ensures |FailedRounds(call, delay, n)| == 2 * n
    ensures forall i :: 0 <= i < n ==> RoundAt(FailedRounds(call, delay, n), i, call, delay)
  {
    if n > 0 {
      RoundsAre(call, delay, n - 1);
      var before, xs := FailedRounds(call, delay, n - 1), FailedRounds(call, delay, n);
      WaitIsPause(delay, n);
      hide FailedRounds, Delay, Wait, Pause;
      forall i | 0 <= i < n ensures RoundAt(xs, i, call, delay) {
        if i < n - 1 {
          assert RoundAt(before, i, call, delay);
          assert xs[2 * i] == before[2 * i] && xs[2 * i + 1] == before[2 * i + 1];
        }
      }
    }
  }

  lemma {:induction false} RoundsCount(call: Call, delay: Int64, n: nat)
    ensures multiset(FailedRounds(call, delay, n))[Called(call, false)] == n
  {
    if n > 0 {
      RoundsCount(call, delay, n - 1);
      var before, xs := FailedRounds(call, delay, n - 1), FailedRounds(call, delay, n);
      assert multiset(xs) == multiset(before) + multiset{Called(call, false), Waited(Delay(delay, n), false)};
    }
  }

  ghost predicate RoundAt(xs: seq<Exchange>, i: nat, call: Call, delay: Int64) {
    && 2 * i + 1 < |xs|
    && xs[2 * i] == Called(call, false)
    && xs[2 * i + 1].Waited? && !xs[2 * i + 1].interrupted && Pause(xs[2 * i + 1].delay) == Wait(delay, i + 1)
  }

  lemma {:induction false} RoundsAbout(call: Call, delay: Int64, n: nat)
    ensures OnlyAbout(FailedRounds(call, delay, n), call)
    ensures Called(call, true) !in FailedRounds(call, delay, n)
    ensures forall d :: Waited(d, true) !in FailedRounds(call, delay, n)
  {
    if n > 0 {
      RoundsAbout(call, delay, n - 1);
    }
  }

  ghost predicate Interrupts(xs: seq<Exchange>) {
    exists d :: Waited(d, true) in xs
  }

  /** The answers decide the result of a retry: a success, as many failures as there are attempts, or
      an interrupted wait. */
  lemma RetryOutcome(cfg: Config, call: Call, delay: Int64, r: Retried)
    requires RetryFits(cfg, r)
    ensures
      var xs := RetryScript(call, delay, r);
      && OnlyAbout(xs, call)
      && (r.result == Succeeded <==> Called(call, true) in xs)
      && (r.result == Interrupted <==> Interrupts(xs))
      && (r.result == Exhausted <==> multiset(xs)[Called(call, false)] == AttemptsOf(cfg.maxAttempts) && Called(call, true) !in xs)
      && multiset(xs)[Called(call, false)] <= AttemptsOf(cfg.maxAttempts)
      && (r.result == Interrupted ==> multiset(xs)[Called(call, false)] < AttemptsOf(cfg.maxAttempts))
      && (r.result == Succeeded ==> multiset(xs)[Called(call, false)] < AttemptsOf(cfg.maxAttempts))
  {
    var rounds := FailedRounds(call, delay, r.rounds);
    RoundsAbout(call, delay, r.rounds);
    RoundsCount(call, delay, r.rounds);
    var xs := RetryScript(call, delay, r);
    match r.result
    case Succeeded =>
      assert xs == rounds + [Called(call, true)];
      assert xs[|rounds|] == Called(call, true);
    case Exhausted =>
      assert xs == rounds + [Called(call, false)];
    case Interrupted =>
      assert xs[|rounds| + 1] == Waited(Delay(delay, r.rounds + 1), true);
      assert multiset(xs) == multiset(rounds) + multiset{Called(call, false), Waited(Delay(delay, r.rounds + 1), true)};
  }

  /** At least one attempt is made whatever the setting. */
  function AttemptsOf(maxAttempts: int): nat {
    if maxAttempts < 1 then 1 else maxAttempts
  }

  // ---------- flush ----------

  /** How a flush went. */
  datatype FlushRun = FlushRun(
    insert: Retried, done: bool, produced: bool, row: LedgerRow, record: Retried, committed: bool)

  function StatusOf(f: FlushRun): Status {
    if f.insert.result == Exhausted then DeadLettered else Inserted
  }

  /** The insert succeeded, or it was given up with a live context. */
  predicate Decided(f: FlushRun) {
    f.insert.result == Succeeded || (f.insert.result == Exhausted && !f.done)
  }

  function LettersOf(log: Log, records: seq<Coord>, f: FlushRun): seq<DeadLetter>
    requires FromLog(log, records)
  {
    Letters(log, records, StatusOf(f))
  }

  predicate GoesOn(log: Log, records: seq<Coord>, f: FlushRun)
    requires FromLog(log, records)
  {
    Decided(f) && (LettersOf(log, records, f) == [] || f.produced)
  }

  function StoreScript(log: Log, delay: Int64, records: seq<Coord>, f: FlushRun): seq<Exchange>
    requires FromLog(log, records)
  {
    RetryScript(InsertCall(Events(log, records)), delay, f.insert) +
    (if f.insert.result == Exhausted then [Checked(f.done)] else []) +
    (if Decided(f) && LettersOf(log, records, f) != [] then [Produced(LettersOf(log, records, f), f.produced)] else [])
  }

  function FinishScript(delay: Int64, records: seq<Coord>, f: FlushRun): seq<Exchange> {
    RetryScript(RecordCall(f.row), delay, f.record) +
    (if f.record.result == Succeeded then [CommitAsked(records, f.committed)] else [])
  }

  function FlushScript(log: Log, delay: Int64, records: seq<Coord>, f: FlushRun): seq<Exchange>
    requires FromLog(log, records)
  {
    StoreScript(log, delay, records, f) + if GoesOn(log, records, f) then FinishScript(delay, records, f) else []
  }

  function FlushAnswer(log: Log, records: seq<Coord>, f: FlushRun): FlushResult
    requires FromLog(log, records)
  {
    if !GoesOn(log, records, f) || f.record.result != Succeeded then Aborted
    else if f.committed then Flushed(StatusOf(f))
    else CommitFailed(StatusOf(f))
  }

  ghost predicate FlushFits(cfg: Config, log: Log, records: seq<Coord>, f: FlushRun)
    requires FromLog(log, records)
  {
    && RetryFits(cfg, f.insert)
    && (GoesOn(log, records, f) ==>
          && RetryFits(cfg, f.record)
          && SpansOf(records, f.row.spans) && f.row == RowFor(log, records, StatusOf(f), f.row.spans))
  }

  // ---------- why a flush aborts ----------

  ghost predicate RefusesLetters(xs: seq<Exchange>) {
    exists ls :: Produced(ls, false) in xs
  }

  ghost predicate LedgerFails(xs: seq<Exchange>, n: nat) {
    exists row :: multiset(xs)[Called(RecordCall(row), false)] == n
  }

  /** The context was done during a wait or when the insert was given up, the dead letters were not
      taken, or the ledger failed as often as it may. */
  ghost predicate Caused(cfg: Config, xs: seq<Exchange>) {
    Interrupts(xs) || Checked(true) in xs || RefusesLetters(xs) || LedgerFails(xs, AttemptsOf(cfg.maxAttempts))
  }

  lemma Together(a: seq<Exchange>, b: seq<Exchange>)
    ensures Interrupts(a + b) <==> Interrupts(a) || Interrupts(b)
    ensures RefusesLetters(a + b) <==> RefusesLetters(a) || RefusesLetters(b)
  {
    if Interrupts(a + b) {
      var d :| Waited(d, true) in a + b;
      assert Waited(d, true) in a || Waited(d, true) in b;
    }
    if d :| Waited(d, true) in a {
      assert Waited(d, true) in a + b;
    }
    if d :| Waited(d, true) in b {
      assert Waited(d, true) in a + b;
    }
    if RefusesLetters(a + b) {
      var ls :| Produced(ls, false) in a + b;
      assert Produced(ls, false) in a || Produced(ls, false) in b;
    }
    if ls :| Produced(ls, false) in a {
      assert Produced(ls, false) in a + b;
    }
    if ls :| Produced(ls, false) in b {
      assert Produced(ls, false) in a + b;
    }
  }

  lemma Alone(x: Exchange)
    ensures Interrupts([x]) <==> x.Waited? && x.interrupted
    ensures RefusesLetters([x]) <==> x.Produced? && !x.ok
  {
    assert x in [x];
    if x.Waited? && x.interrupted {
      assert Waited(x.delay, true) in [x];
    }
    if x.Produced? && !x.ok {
      assert Produced(x.letters, false) in [x];
    }
  }

  lemma Nothing()
    ensures !Interrupts([]) && !RefusesLetters([])
  {
  }

  /** Free of everything but calls and waits. */
  ghost predicate CallsOnly(xs: seq<Exchange>) {
    forall x :: x in xs ==> x.Called? || x.Waited?
  }

  ghost predicate NoLedger(xs: seq<Exchange>) {
    forall x :: x in xs ==> !(x.Called? && x.call.RecordCall?)
  }

  lemma AboutIsCallsOnly(xs: seq<Exchange>, call: Call)
    requires OnlyAbout(xs, call)
    ensures CallsOnly(xs) && !RefusesLetters(xs) && (call.InsertCall? ==> NoLedger(xs))
  {
  }

  ghost predicate NoCommit(xs: seq<Exchange>) {
    forall x :: x in xs ==> !x.CommitAsked?
  }

  /** The three parts of the first half: the calls, the look at the context, the dead letters. */
  lemma StoreParts(calls: seq<Exchange>, check: seq<Exchange>, produce: seq<Exchange>)
    requires CallsOnly(calls) && NoLedger(calls) && !RefusesLetters(calls)
    requires check == [] || (|check| == 1 && check[0].Checked?)
    requires produce == [] || (|produce| == 1 && produce[0].Produced?)
    ensures
      var xs := calls + check + produce;
      && NoCommit(xs) && NoLedger(xs)
      && (Interrupts(xs) <==> Interrupts(calls))
      && (Checked(true) in xs <==> check == [Checked(true)])
      && (RefusesLetters(xs) <==> produce != [] && !produce[0].ok)
  {
    hide Interrupts, RefusesLetters;
    Together(calls + check, produce);
    Together(calls, check);
    Nothing();
    if check != [] {
      Alone(check[0]);
      assert check == [check[0]];
    }
    if produce != [] {
      Alone(produce[0]);
      assert produce == [produce[0]];
    }
    var xs := calls + check + produce;
    assert forall x :: x in xs <==> x in calls || x in check || x in produce;
  }

  lemma StoreContents(cfg: Config, log: Log, delay: Int64, records: seq<Coord>, f: FlushRun)
    requires FromLog(log, records) && RetryFits(cfg, f.insert)
    ensures
      var xs := StoreScript(log, delay, records, f);
      && (!GoesOn(log, records, f) <==> Interrupts(xs) || Checked(true) in xs || RefusesLetters(xs))
      && NoCommit(xs) && NoLedger(xs)
  {
    hide RetryScript, Letters, Events, RetryFits, Interrupts, RefusesLetters, OnlyAbout, CallsOnly, NoLedger, NoCommit;
    var call := InsertCall(Events(log, records));
    RetryOutcome(cfg, call, delay, f.insert);
    AboutIsCallsOnly(RetryScript(call, delay, f.insert), call);
    StoreParts(
      RetryScript(call, delay, f.insert),
      if f.insert.result == Exhausted then [Checked(f.done)] else [],
      if Decided(f) && LettersOf(log, records, f) != [] then [Produced(LettersOf(log, records, f), f.produced)] else []);
  }

  lemma LedgerCount(xs: seq<Exchange>, call: Call, n: nat)
    requires OnlyAbout(xs, call) && call.RecordCall? && n > 0
    ensures LedgerFails(xs, n) <==> multiset(xs)[Called(call, false)] == n
  {
    if row :| multiset(xs)[Called(RecordCall(row), false)] == n {
      assert Called(RecordCall(row), false) in multiset(xs);
      assert Called(RecordCall(row), false) in xs;
    }
    if multiset(xs)[Called(call, false)] == n {
      assert call == RecordCall(call.row);
    }
  }

  lemma LedgerBeside(a: seq<Exchange>, b: seq<Exchange>, n: nat)
    requires NoLedger(a) || NoLedger(b)
    ensures LedgerFails(a + b, n) && n > 0 ==> LedgerFails(a, n) || LedgerFails(b, n)
    ensures NoLedger(a) && LedgerFails(b, n) ==> LedgerFails(a + b, n)
    ensures NoLedger(b) && LedgerFails(a, n) ==> LedgerFails(a + b, n)
  {
    forall row ensures NoLedger(a) ==> multiset(a + b)[Called(RecordCall(row), false)] == multiset(b)[Called(RecordCall(row), false)] {
      if NoLedger(a) {
        assert Called(RecordCall(row), false) !in multiset(a);
      }
    }
    forall row ensures NoLedger(b) ==> multiset(a + b)[Called(RecordCall(row), false)] == multiset(a)[Called(RecordCall(row), false)] {
      if NoLedger(b) {
        assert Called(RecordCall(row), false) !in multiset(b);
      }
    }
  }

  lemma NoLedgerNoFailure(a: seq<Exchange>, n: nat)
    requires NoLedger(a) && n > 0
    ensures !LedgerFails(a, n)
  {
    forall row ensures multiset(a)[Called(RecordCall(row), false)] == 0 {
      assert Called(RecordCall(row), false) !in multiset(a);
    }
  }

  lemma FinishContents(cfg: Config, delay: Int64, records: seq<Coord>, f: FlushRun)
    requires RetryFits(cfg, f.record)
    ensures
      var xs := FinishScript(delay, records, f);
      && (f.record.result != Succeeded <==> Interrupts(xs) || LedgerFails(xs, AttemptsOf(cfg.maxAttempts)))
      && (forall ok :: CommitAsked(records, ok) in xs <==> f.record.result == Succeeded && ok == f.committed)
      && !RefusesLetters(xs) && Checked(true) !in xs
  {
    hide RetryScript, RetryFits, Interrupts, RefusesLetters, LedgerFails;
    var call := RecordCall(f.row);
    var n := AttemptsOf(cfg.maxAttempts);
    var a := RetryScript(call, delay, f.record);
    var b := if f.record.result == Succeeded then [CommitAsked(records, f.committed)] else [];
    RetryOutcome(cfg, call, delay, f.record);
    LedgerCount(a, call, n);
    AboutIsCallsOnly(a, call);
    Together(a, b);
    Nothing();
    Alone(CommitAsked(records, f.committed));
    assert NoLedger(b);
    LedgerBeside(a, b, n);
    NoLedgerNoFailure(b, n);
    var xs := FinishScript(delay, records, f);
    assert xs == a + b;
    assert forall x :: x in xs <==> x in a || x in b;
    assert f.record.result == Succeeded ==> b[0] == CommitAsked(records, f.committed);
  }

  /** The answers decide: a flush commits, well or badly, unless it has a cause to abort. */
  lemma FlushOutcome(cfg: Config, log: Log, delay: Int64, records: seq<Coord>, f: FlushRun)
    requires FromLog(log, records) && FlushFits(cfg, log, records, f)
    ensures
      var xs := FlushScript(log, delay, records, f);
      var r := FlushAnswer(log, records, f);
      && (r == Aborted <==> Caused(cfg, xs))
      && (r.Flushed? <==> CommitAsked(records, true) in xs)
      && (r.CommitFailed? <==> CommitAsked(records, false) in xs)
      && r != NothingToFlush
  {
    hide StoreScript, FinishScript, GoesOn, Interrupts, RefusesLetters, LedgerFails, RetryFits;
    StoreContents(cfg, log, delay, records, f);
    var n := AttemptsOf(cfg.maxAttempts);
    var xs := FlushScript(log, delay, records, f);
    var a := StoreScript(log, delay, records, f);
    NoLedgerNoFailure(a, n);
    if GoesOn(log, records, f) {
      FinishContents(cfg, delay, records, f);
      var b := FinishScript(delay, records, f);
      Together(a, b);
      LedgerBeside(a, b, n);
      assert xs == a + b;
      assert forall x :: x in xs <==> x in a || x in b;
    } else {
      assert xs == a;
    }
  }

  // ---------- when valid records are given up ----------

  ghost predicate GivesUp(letters: seq<DeadLetter>) {
    exists l :: l in letters && l.reason == InsertFailed
  }

  /** Wherever valid records are handed to the dead-letter topic, the context was found live just before. */
  ghost predicate LiveGiveUps(xs: seq<Exchange>) {
    forall i :: 0 <= i < |xs| && xs[i].Produced? && GivesUp(xs[i].letters) ==> i > 0 && xs[i - 1] == Checked(false)
  }

  lemma LiveTogether(a: seq<Exchange>, b: seq<Exchange>)
    requires LiveGiveUps(a) && LiveGiveUps(b)
    ensures LiveGiveUps(a + b)
  {
    hide GivesUp;
    forall i | 0 <= i < |a + b| && (a + b)[i].Produced? && GivesUp((a + b)[i].letters) ensures i > 0 && (a + b)[i - 1] == Checked(false) {
      if i >= |a| {
        assert (a + b)[i] == b[i - |a|];
      }
    }
  }

  lemma NoneGivenUp(log: Log, batch: seq<Coord>)
    requires FromLog(log, batch)
    ensures !GivesUp(Letters(log, batch, Inserted))
  {
    LettersContents(log, batch, Inserted);
  }

  lemma RetryGivesNothingUp(cfg: Config, call: Call, delay: Int64, r: Retried)
    requires RetryFits(cfg, r)
    ensures LiveGiveUps(RetryScript(call, delay, r))
  {
    RetryOutcome(cfg, call, delay, r);
    hide RetryScript, GivesUp;
    var xs := RetryScript(call, delay, r);
    forall i | 0 <= i < |xs| ensures !xs[i].Produced? {
      assert xs[i] in xs;
    }
  }

  lemma StoreIsLive(cfg: Config, log: Log, delay: Int64, records: seq<Coord>, f: FlushRun)
    requires FromLog(log, records) && RetryFits(cfg, f.insert)
    ensures LiveGiveUps(StoreScript(log, delay, records, f))
  {
    hide RetryScript, GivesUp, Letters, Events, RetryFits, LiveGiveUps;
    var a := RetryScript(InsertCall(Events(log, records)), delay, f.insert);
    RetryGivesNothingUp(cfg, InsertCall(Events(log, records)), delay, f.insert);
    NoneGivenUp(log, records);
    var letters := LettersOf(log, records, f);
    var check := if f.insert.result == Exhausted then [Checked(f.done)] else [];
    var produce := if Decided(f) && letters != [] then [Produced(letters, f.produced)] else [];
    TailIsLive(check, produce);
    LiveTogether(a, check + produce);
    assert a + check + produce == a + (check + produce);
  }

  lemma TailIsLive(check: seq<Exchange>, produce: seq<Exchange>)
    requires |check| <= 1 && |produce| <= 1 && (check != [] ==> check[0].Checked?)
    requires produce != [] && produce[0].Produced? && GivesUp(produce[0].letters) ==> check == [Checked(false)]
    ensures LiveGiveUps(check + produce)
  {
    hide GivesUp;
  }

  lemma FinishIsLive(cfg: Config, delay: Int64, records: seq<Coord>, f: FlushRun)
    requires RetryFits(cfg, f.record)
    ensures LiveGiveUps(FinishScript(delay, records, f))
  {
    RetryGivesNothingUp(cfg, RecordCall(f.row), delay, f.record);
    var a := RetryScript(RecordCall(f.row), delay, f.record);
    var b := if f.record.result == Succeeded then [CommitAsked(records, f.committed)] else [];
    hide RetryScript, GivesUp, RetryFits;
    assert LiveGiveUps(b);
    LiveTogether(a, b);
  }

  function InsertAnswers(log: Log, delay: Int64, records: seq<Coord>, f: FlushRun): seq<Exchange>
    requires FromLog(log, records)
  {
    RetryScript(InsertCall(Events(log, records)), delay, f.insert)
  }

  /** The failed inserts of a flush. */
  function FailedInserts(log: Log, delay: Int64, records: seq<Coord>, f: FlushRun): nat
    requires FromLog(log, records)
  {
    multiset(InsertAnswers(log, delay, records, f))[Called(InsertCall(Events(log, records)), false)]
  }

  lemma ProducedInStore(log: Log, delay: Int64, records: seq<Coord>, f: FlushRun, ls: seq<DeadLetter>, ok: bool)
    requires FromLog(log, records) && CallsOnly(InsertAnswers(log, delay, records, f))
    requires Produced(ls, ok) in StoreScript(log, delay, records, f)
    ensures Decided(f) && ls == LettersOf(log, records, f)
  {
    hide RetryScript, Letters, Events;
  }

  /** A flush gives valid records up only after exactly as many failed inserts as it has attempts, with a
      context that was live just before, and its status says so. */
  lemma GiveUpIsJustified(cfg: Config, log: Log, delay: Int64, records: seq<Coord>, f: FlushRun)
    requires FromLog(log, records) && FlushFits(cfg, log, records, f)
    ensures
      var xs := FlushScript(log, delay, records, f);
      var r := FlushAnswer(log, records, f);
      var failed := FailedInserts(log, delay, records, f);
      && LiveGiveUps(xs)
      && InsertAnswers(log, delay, records, f) <= xs
      && (forall ls, ok :: Produced(ls, ok) in xs && GivesUp(ls) ==> failed == AttemptsOf(cfg.maxAttempts))
      && (r.Flushed? || r.CommitFailed? ==> (r.status == DeadLettered <==> failed == AttemptsOf(cfg.maxAttempts)))
  {
    hide RetryScript, GivesUp, Letters, Events, RetryFits, FinishScript, LiveGiveUps, OnlyAbout, CallsOnly, Interrupts, RefusesLetters, LedgerFails;
    var call := InsertCall(Events(log, records));
    RetryOutcome(cfg, call, delay, f.insert);
    AboutIsCallsOnly(InsertAnswers(log, delay, records, f), call);
    StoreIsLive(cfg, log, delay, records, f);
    NoneGivenUp(log, records);
    var a := StoreScript(log, delay, records, f);
    var xs := FlushScript(log, delay, records, f);
    if GoesOn(log, records, f) {
      FinishIsLive(cfg, delay, records, f);
      FinishProducesNothing(cfg, delay, records, f);
      LiveTogether(a, FinishScript(delay, records, f));
    } else {
      assert xs == a;
    }
    forall ls, ok | Produced(ls, ok) in xs && GivesUp(ls) ensures f.insert.result == Exhausted {
      assert Produced(ls, ok) in a;
      ProducedInStore(log, delay, records, f, ls, ok);
    }
  }

  lemma FinishProducesNothing(cfg: Config, delay: Int64, records: seq<Coord>, f: FlushRun)
    requires RetryFits(cfg, f.record)
    ensures forall ls, ok :: Produced(ls, ok) !in FinishScript(delay, records, f)
  {
    hide RetryScript, RetryFits;
    RetryOutcome(cfg, RecordCall(f.row), delay, f.record);
  }

  /** The process made the calls of this flush, between these two points, and its result is the answer. */
  ghost predicate FlushTold(
      cfg: Config, log: Log, delay: Int64, batch: seq<Coord>, before: seq<Exchange>, after: seq<Exchange>, f: FlushRun, r: FlushResult) {
    && FromLog(log, batch) && FlushFits(cfg, log, batch, f)
    && after == before + FlushScript(log, delay, batch, f)
    && r == FlushAnswer(log, batch, f)
  }

  /** It aborted exactly when the calls since then have a cause, and otherwise the commit was answered so. */
  ghost predicate Explained(cfg: Config, batch: seq<Coord>, before: seq<Exchange>, after: seq<Exchange>, r: FlushResult) {
    && before <= after && r != NothingToFlush
    && (r == Aborted <==> Caused(cfg, after[|before|..]))
    && (r.Flushed? <==> CommitAsked(batch, true) in after[|before|..])
    && (r.CommitFailed? <==> CommitAsked(batch, false) in after[|before|..])
  }

  lemma ToldIsExplained(
      cfg: Config, log: Log, delay: Int64, batch: seq<Coord>, before: seq<Exchange>, after: seq<Exchange>, f: FlushRun, r: FlushResult)
    requires FlushTold(cfg, log, delay, batch, before, after, f, r)
    ensures Explained(cfg, batch, before, after, r)
  {
    hide FlushFits, FlushScript, FlushAnswer, Caused;
    FlushOutcome(cfg, log, delay, batch, f);
    assert after[|before|..] == FlushScript(log, delay, batch, f);
  }

  // ---------- a turn of the main loop ----------

  /** How a turn went: what the poll gave, whether a flush was due and how it went, and whether the
      program was being stopped when a commit had failed. */
  datatype TurnRun = TurnRun(polled: seq<Coord>, closed: bool, due: bool, flush: FlushRun, stopping: bool)

  function TurnFlush(log: Log, held: seq<Coord>, t: TurnRun): FlushResult
    requires FromLog(log, held + t.polled)
  {
    if t.due && !t.closed then FlushAnswer(log, held + t.polled, t.flush) else NothingToFlush
  }

  predicate TurnGoesOn(log: Log, held: seq<Coord>, t: TurnRun)
    requires FromLog(log, held + t.polled)
  {
    var r := TurnFlush(log, held, t);
    !t.closed && r != Aborted && !(r.CommitFailed? && t.stopping)
  }

  /** The flush of a turn, and what it asks when the commit failed. */
  function TurnMiddle(log: Log, delay: Int64, held: seq<Coord>, t: TurnRun): seq<Exchange>
    requires FromLog(log, held + t.polled)
  {
    (if t.due && !t.closed then FlushScript(log, delay, held + t.polled, t.flush) else []) +
    (if TurnFlush(log, held, t).CommitFailed? then [StopChecked(t.stopping)] else [])
  }

  function TurnScript(log: Log, delay: Int64, size: int, held: seq<Coord>, t: TurnRun): seq<Exchange>
    requires FromLog(log, held + t.polled)
  {
    [Polled(size - |held|, t.polled, t.closed)] + TurnMiddle(log, delay, held, t) +
    (if TurnGoesOn(log, held, t) && (t.due || held + t.polled == []) then [Released] else [])
  }

  ghost predicate TurnFits(cfg: Config, log: Log, held: seq<Coord>, t: TurnRun)
    requires FromLog(log, held + t.polled)
  {
    t.due && !t.closed ==> FlushFits(cfg, log, held + t.polled, t.flush)
  }

  /** The process made the calls of this turn, between these two points, and goes on or not. */
  ghost predicate TurnTold(
      cfg: Config, log: Log, delay: Int64, size: int, held: seq<Coord>,
      before: seq<Exchange>, after: seq<Exchange>, t: TurnRun, going: bool) {
    && FromLog(log, held + t.polled) && TurnFits(cfg, log, held, t)
    && after == before + TurnScript(log, delay, size, held, t)
    && (going <==> TurnGoesOn(log, held, t))
  }

  /** A batch is flushed when it is full or its time has come. */
  predicate IsDue(n: nat, size: int, now: nat, deadline: nat) {
    n > 0 && (n >= size || now >= deadline)
  }

  ghost predicate CommitFails(xs: seq<Exchange>) {
    exists rs :: CommitAsked(rs, false) in xs
  }

  /** Why Run returns before or with an error: the client is closed, a flush has a cause to abort, or
      a commit failed while the program was being stopped. */
  ghost predicate Excused(cfg: Config, xs: seq<Exchange>) {
    || (exists max, rs :: Polled(max, rs, true) in xs)
    || Caused(cfg, xs)
    || (CommitFails(xs) && StopChecked(true) in xs)
  }

  /** Nothing that a cause is made of. */
  predicate Harmless(x: Exchange) {
    x.Polled? || x.StopChecked? || x.Released?
  }

  lemma HarmlessBefore(cfg: Config, x: Exchange, xs: seq<Exchange>)
    requires Harmless(x)
    ensures Caused(cfg, [x] + xs) <==> Caused(cfg, xs)
  {
    hide Interrupts, RefusesLetters, LedgerFails;
    var n := AttemptsOf(cfg.maxAttempts);
    Together([x], xs);
    Alone(x);
    assert NoLedger([x]);
    LedgerBeside([x], xs, n);
    NoLedgerNoFailure([x], n);
  }

  lemma HarmlessAfter(cfg: Config, x: Exchange, xs: seq<Exchange>)
    requires Harmless(x)
    ensures Caused(cfg, xs + [x]) <==> Caused(cfg, xs)
  {
    hide Interrupts, RefusesLetters, LedgerFails;
    var n := AttemptsOf(cfg.maxAttempts);
    Together(xs, [x]);
    Alone(x);
    assert NoLedger([x]);
    LedgerBeside(xs, [x], n);
    NoLedgerNoFailure([x], n);
  }

  lemma NothingCaused(cfg: Config)
    ensures !Caused(cfg, [])
  {
    Nothing();
    NoLedgerNoFailure([], AttemptsOf(cfg.maxAttempts));
  }

  ghost predicate FlushOnly(xs: seq<Exchange>) {
    forall x :: x in xs ==> !Harmless(x)
  }

  lemma FlushIsOnly(cfg: Config, log: Log, delay: Int64, records: seq<Coord>, f: FlushRun)
    requires FromLog(log, records) && FlushFits(cfg, log, records, f)
    ensures FlushOnly(FlushScript(log, delay, records, f))
    ensures forall rs, ok :: CommitAsked(rs, ok) in FlushScript(log, delay, records, f) ==> rs == records
  {
    hide RetryScript, Letters, Events, RetryFits;
    RetryOutcome(cfg, InsertCall(Events(log, records)), delay, f.insert);
    if GoesOn(log, records, f) {
      RetryOutcome(cfg, RecordCall(f.row), delay, f.record);
    }
  }

  lemma CommitFailsExactly(cfg: Config, log: Log, delay: Int64, records: seq<Coord>, f: FlushRun)
    requires FromLog(log, records) && FlushFits(cfg, log, records, f)
    ensures CommitFails(FlushScript(log, delay, records, f)) <==> FlushAnswer(log, records, f).CommitFailed?
  {
    hide FlushScript, FlushAnswer, FlushFits, Caused;
    FlushIsOnly(cfg, log, delay, records, f);
    FlushOutcome(cfg, log, delay, records, f);
  }

  /** A turn in its parts: a poll, the flush with its look at the context, and the release. */
  lemma TurnParts(cfg: Config, poll: Exchange, flush: seq<Exchange>, check: seq<Exchange>, release: seq<Exchange>)
    requires poll.Polled? && FlushOnly(flush)
    requires check == [] || (|check| == 1 && check[0].StopChecked?)
    requires release == [] || release == [Released]
    ensures
      var xs := [poll] + (flush + check) + release;
      Excused(cfg, xs) <==> poll.closed || Caused(cfg, flush) || (CommitFails(flush) && check == [StopChecked(true)])
  {
    hide Caused;
    var xs := [poll] + (flush + check) + release;
    if release != [] {
      HarmlessAfter(cfg, Released, [poll] + (flush + check));
    } else {
      assert xs == [poll] + (flush + check);
    }
    HarmlessBefore(cfg, poll, flush + check);
    if check != [] {
      HarmlessAfter(cfg, check[0], flush);
      assert check == [check[0]];
    } else {
      assert flush + check == flush;
    }
    assert forall x :: x in xs <==> x == poll || x in flush || x in check || x in release;
    if poll.closed {
      assert Polled(poll.max, poll.records, true) in xs;
    }
    if max, rs :| Polled(max, rs, true) in xs {
      assert Polled(max, rs, true) == poll;
    }
  }

  /** The loop goes on after a turn unless one of its answers is a reason to return. */
  lemma TurnOutcome(cfg: Config, log: Log, delay: Int64, size: int, held: seq<Coord>, t: TurnRun)
    requires FromLog(log, held + t.polled) && TurnFits(cfg, log, held, t)
    ensures TurnGoesOn(log, held, t) <==> !Excused(cfg, TurnScript(log, delay, size, held, t))
  {
    hide FlushScript, FlushAnswer, FlushFits, Caused, Excused, FlushOnly, CommitFails;
    var batch := held + t.polled;
    var flushes := t.due && !t.closed;
    var flush := if flushes then FlushScript(log, delay, batch, t.flush) else [];
    var check := if TurnFlush(log, held, t).CommitFailed? then [StopChecked(t.stopping)] else [];
    var release := if TurnGoesOn(log, held, t) && (t.due || batch == []) then [Released] else [];
    if flushes {
      FlushOutcome(cfg, log, delay, batch, t.flush);
      FlushIsOnly(cfg, log, delay, batch, t.flush);
      CommitFailsExactly(cfg, log, delay, batch, t.flush);
    } else {
      EmptyPart(cfg);
    }
    TurnParts(cfg, Polled(size - |held|, t.polled, t.closed), flush, check, release);
  }

  lemma EmptyPart(cfg: Config)
    ensures !Caused(cfg, []) && FlushOnly([]) && !CommitFails([])
  {
    NothingCaused(cfg);
  }

  /** The last flush, once the program is being stopped. */
  lemma LastFlushOutcome(cfg: Config, log: Log, delay: Int64, records: seq<Coord>, f: FlushRun)
    requires FromLog(log, records) && FlushFits(cfg, log, records, f)
    ensures Excused(cfg, [StopChecked(true)] + FlushScript(log, delay, records, f)) <==> !FlushAnswer(log, records, f).Flushed?
  {
    hide FlushScript, FlushAnswer, FlushFits, Caused;
    FlushOutcome(cfg, log, delay, records, f);
    FlushIsOnly(cfg, log, delay, records, f);
    CommitFailsExactly(cfg, log, delay, records, f);
    var flush := FlushScript(log, delay, records, f);
    var xs := [StopChecked(true)] + flush;
    HarmlessBefore(cfg, StopChecked(true), flush);
    assert forall x :: x in xs <==> x == StopChecked(true) || x in flush;
  }

  lemma HarmlessIsLive(xs: seq<Exchange>)
    requires forall i :: 0 <= i < |xs| ==> Harmless(xs[i])
    ensures LiveGiveUps(xs)
  {
  }

  lemma TurnIsLive(cfg: Config, log: Log, delay: Int64, size: int, held: seq<Coord>, t: TurnRun)
    requires FromLog(log, held + t.polled) && TurnFits(cfg, log, held, t)
    ensures LiveGiveUps(TurnScript(log, delay, size, held, t))
  {
    hide FlushScript, FlushAnswer, FlushFits, LiveGiveUps;
    var poll := [Polled(size - |held|, t.polled, t.closed)];
    var flush := if t.due && !t.closed then FlushScript(log, delay, held + t.polled, t.flush) else [];
    var check := if TurnFlush(log, held, t).CommitFailed? then [StopChecked(t.stopping)] else [];
    var release := if TurnGoesOn(log, held, t) && (t.due || held + t.polled == []) then [Released] else [];
    HarmlessIsLive(poll);
    HarmlessIsLive(check);
    HarmlessIsLive(release);
    HarmlessIsLive([]);
    if t.due && !t.closed {
      GiveUpIsJustified(cfg, log, delay, held + t.polled, t.flush);
    }
    LiveTogether(flush, check);
    LiveTogether(poll, flush + check);
    LiveTogether(poll + (flush + check), release);
  }
}
