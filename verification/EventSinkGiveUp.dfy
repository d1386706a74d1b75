/**
 When the event sink gives a record up: over every run, a valid record is in the dead-letter topic
 only after one process failed to insert its batch as often as configured, also when the letter
 comes from a produce request that was reported as failed. And what a ledger row says about its
 batch is true.
 */
module EventSinkGiveUp {
  import opened EventLog
  import opened EventSinkProtocol

  /** Step j of the run is the n-th failed insert in a row of this batch by process m. */
  ghost predicate FailsAt(cfg: Config, log: Log, run: seq<State>, j: nat, m: nat, batch: seq<Coord>, n: nat)
    requires j + 1 < |run|
  {
    && m in run[j].members && run[j].members[m].held == batch
    && Enabled(cfg, log, run[j], InsertFail(m, n))
    && run[j + 1] == Apply(cfg, log, run[j], InsertFail(m, n))
  }

  /** Process m failed to insert the batch n times, in n steps of the run before state k. */
  ghost predicate FailedTimes(cfg: Config, log: Log, run: seq<State>, k: nat, m: nat, batch: seq<Coord>, n: nat)
    requires k < |run|
    decreases n
  {
    n == 0 || exists j ::
      && 0 <= j < k && FailsAt(cfg, log, run, j, m, batch, n)
      && FailedTimes(cfg, log, run, j, m, batch, n - 1)
  }

  /** Some process failed as often as it may to insert a batch with this record. */
  ghost predicate GivenUp(cfg: Config, log: Log, run: seq<State>, k: nat, c: Coord)
    requires k < |run|
  {
    exists m, batch :: c in batch && FailedTimes(cfg, log, run, k, m, batch, Attempts(cfg))
  }

  lemma TimesStay(cfg: Config, log: Log, run: seq<State>, k: nat, m: nat, batch: seq<Coord>, n: nat)
    requires k + 1 < |run| && FailedTimes(cfg, log, run, k, m, batch, n)
    ensures FailedTimes(cfg, log, run, k + 1, m, batch, n)
  {
    hide FailsAt;
  }

  lemma GivenUpStays(cfg: Config, log: Log, run: seq<State>, k: nat, c: Coord)
    requires k + 1 < |run| && GivenUp(cfg, log, run, k, c)
    ensures GivenUp(cfg, log, run, k + 1, c)
  {
    hide FailedTimes;
    var m, batch :| c in batch && FailedTimes(cfg, log, run, k, m, batch, Attempts(cfg));
    TimesStay(cfg, log, run, k, m, batch, Attempts(cfg));
  }

  // ---------- what every step keeps ----------

  /** The failures that a process must have behind it to be in this phase. */
  function Behind(cfg: Config, phase: Phase): nat {
    match phase
    case Inserting(failures) => failures
    case Producing(status) => if status == DeadLettered then Attempts(cfg) else 0
    case Recording(status, _) => if status == DeadLettered then Attempts(cfg) else 0
    case _ => 0
  }

  /** The events of the valid records are in the warehouse. */
  ghost predicate AllInserted(log: Log, s: State, batch: seq<Coord>) {
    forall c :: c in batch && c in log && log[c].Good? ==> log[c].event in s.rows
  }

  predicate SaysInserted(phase: Phase) {
    (phase.Producing? || phase.Recording?) && phase.status == Inserted
  }

  ghost predicate MemberTrue(cfg: Config, log: Log, run: seq<State>, k: nat, m: nat)
    requires k < |run| && m in run[k].members
  {
    var x := run[k].members[m];
    && (x.phase.Inserting? ==> x.phase.failures < Attempts(cfg))
    && FailedTimes(cfg, log, run, k, m, x.held, Behind(cfg, x.phase))
    && (SaysInserted(x.phase) ==> AllInserted(log, run[k], x.held))
  }

  /** The number of records that do not decode. */
  function Undecodable(log: Log, batch: seq<Coord>): nat
    requires FromLog(log, batch)
  {
    if batch == [] then 0
    else Undecodable(log, batch[..|batch| - 1]) + if log[batch[|batch| - 1]].Bad? then 1 else 0
  }

  /** The row is about this batch of process m: the number of its records, their spans, and either an
      insert of all that is valid, with letters for the rest, or the last of the failed attempts, with
      letters for all. */
  ghost predicate RowAbout(cfg: Config, log: Log, run: seq<State>, k: nat, row: LedgerRow, m: nat, batch: seq<Coord>)
    requires k < |run|
  {
    && FromLog(log, batch) && SpansOf(batch, row.spans) && row.records == |batch|
    && if row.status == DeadLettered then
         row.deadLettered == |batch| && FailedTimes(cfg, log, run, k, m, batch, Attempts(cfg))
       else
         row.deadLettered == Undecodable(log, batch) && AllInserted(log, run[k], batch)
  }

  ghost predicate RowTrue(cfg: Config, log: Log, run: seq<State>, k: nat, row: LedgerRow)
    requires k < |run|
  {
    exists m, batch :: RowAbout(cfg, log, run, k, row, m, batch)
  }

  ghost predicate LetterTrue(cfg: Config, log: Log, run: seq<State>, k: nat, l: DeadLetter)
    requires k < |run|
  {
    l.reason == InsertFailed ==> GivenUp(cfg, log, run, k, l.coord)
  }

  ghost predicate Inv(cfg: Config, log: Log, run: seq<State>, k: nat)
    requires k < |run|
  {
    && (forall m :: m in run[k].members ==> MemberTrue(cfg, log, run, k, m))
    && (forall req, l :: req in run[k].issued && req.Produce? && l in req.letters ==> LetterTrue(cfg, log, run, k, l))
    && (forall l :: l in run[k].dlq ==> LetterTrue(cfg, log, run, k, l))
    && (forall req :: req in run[k].issued && req.Note? ==> RowTrue(cfg, log, run, k, req.row))
    && (forall row :: row in run[k].ledger ==> RowTrue(cfg, log, run, k, row))
  }

  /** Only a failed insert adds to what a process has behind it, and only a good one lets it say so. */
  lemma MemberStep(cfg: Config, log: Log, s: State, a: Action, m: nat)
    requires Enabled(cfg, log, s, a) && m in Apply(cfg, log, s, a).members
    ensures
      var y := Apply(cfg, log, s, a).members[m];
      || y.phase.Polling? || y.phase.Committing? || y.phase == Inserting(0)
      || (m in s.members && y.held == s.members[m].held && PhaseStep(cfg, s.members[m].phase, a, m, y.phase))
  {
    hide Events, Letters, SpansOf, Lists, NextOffset;
  }

  predicate PhaseStep(cfg: Config, before: Phase, a: Action, m: nat, after: Phase) {
    || after == before
    || (before.Inserting? && a.InsertFail? && a.m == m && a.failures == before.failures + 1
        && after == if a.failures < Attempts(cfg) then Inserting(a.failures) else Producing(DeadLettered))
    || (before.Inserting? && a == InsertOk(m) && (after == Producing(Inserted) || after == Recording(Inserted, 0)))
    || (before.Producing? && a == ProduceOk(m) && after == Recording(before.status, 0))
    || (before.Recording? && a.RecordFail? && a.m == m && after == Recording(before.status, a.failures))
  }

  lemma RowsGrow(cfg: Config, log: Log, s: State, a: Action)
    requires Enabled(cfg, log, s, a)
    ensures s.rows <= Apply(cfg, log, s, a).rows
    ensures a.InsertOk? ==> In(s, log, a.m) && AllInserted(log, Apply(cfg, log, s, a), s.members[a.m].held)
  {
    hide Events, Letters, SpansOf, Lists, NextOffset;
    if a.InsertOk? {
      var held := s.members[a.m].held;
      EventsContents(log, held);
      assert forall e :: e in Events(log, held) ==> e in multiset(Events(log, held));
    }
  }

  ghost predicate Asks(s: State, a: Action, log: Log, letters: seq<DeadLetter>) {
    && (a.ProduceOk? || a.ProduceFail?) && In(s, log, a.m) && s.members[a.m].phase.Producing?
    && letters == Letters(log, s.members[a.m].held, s.members[a.m].phase.status)
  }

  ghost predicate Notes(s: State, a: Action, log: Log, row: LedgerRow) {
    && (a.RecordOk? || a.RecordFail? || a.RecordGiveUp?) && In(s, log, a.m) && s.members[a.m].phase.Recording?
    && SpansOf(s.members[a.m].held, row.spans)
    && row == RowFor(log, s.members[a.m].held, s.members[a.m].phase.status, row.spans)
  }

  /** Letters come from produce requests, and those from processes that are producing. */
  lemma LettersStep(cfg: Config, log: Log, s: State, a: Action)
    requires Enabled(cfg, log, s, a)
    ensures
      var t := Apply(cfg, log, s, a);
      && (forall req :: req in t.issued && req.Note? ==> req in s.issued || Notes(s, a, log, req.row))
      && (forall row :: row in t.ledger && row !in s.ledger ==> Note(row) in t.issued)
      && (forall req :: req in t.issued && req.Produce? ==> req in s.issued || Asks(s, a, log, req.letters))
      && (forall l :: l in t.dlq && l !in s.dlq ==> exists req :: req in t.issued && req.Produce? && l in req.letters)
  {
    hide Events, Letters, SpansOf, Lists, NextOffset;
    var t := Apply(cfg, log, s, a);
    forall l | l in t.dlq && l !in s.dlq ensures exists req :: req in t.issued && req.Produce? && l in req.letters {
      if a.LandLetters? {
        assert l in multiset(a.req.letters);
        assert a.req in t.issued;
      } else {
        var x := s.members[a.m];
        var ls := Letters(log, x.held, x.phase.status);
        assert l in multiset(ls);
        assert Produce(ls) in t.issued;
      }
    }
  }

  lemma NoneFailed(cfg: Config, log: Log, run: seq<State>, k: nat, m: nat, batch: seq<Coord>)
    requires k < |run|
    ensures FailedTimes(cfg, log, run, k, m, batch, 0)
  {
  }

  lemma OneMoreFailure(cfg: Config, log: Log, run: seq<State>, k: nat, a: Action, m: nat)
    requires k + 1 < |run| && Enabled(cfg, log, run[k], a) && run[k + 1] == Apply(cfg, log, run[k], a)
    requires a.InsertFail? && a.m == m && m in run[k].members && a.failures > 0
    requires FailedTimes(cfg, log, run, k, m, run[k].members[m].held, a.failures - 1)
    ensures FailedTimes(cfg, log, run, k + 1, m, run[k].members[m].held, a.failures)
  {
    hide Apply, Enabled;
    assert a == InsertFail(m, a.failures);
    assert FailsAt(cfg, log, run, k, m, run[k].members[m].held, a.failures);
  }

  lemma MemberKept(cfg: Config, log: Log, run: seq<State>, k: nat, a: Action, m: nat)
    requires k + 1 < |run| && Enabled(cfg, log, run[k], a) && run[k + 1] == Apply(cfg, log, run[k], a)
    requires forall m :: m in run[k].members ==> MemberTrue(cfg, log, run, k, m)
    requires m in run[k + 1].members
    ensures MemberTrue(cfg, log, run, k + 1, m)
  {
    hide Apply, Enabled, FailedTimes, FailsAt;
    MemberStep(cfg, log, run[k], a, m);
    NoneFailed(cfg, log, run, k + 1, m, run[k + 1].members[m].held);
    RowsGrow(cfg, log, run[k], a);
    var y := run[k + 1].members[m];
    if m in run[k].members && y.held == run[k].members[m].held {
      var x := run[k].members[m];
      assert MemberTrue(cfg, log, run, k, m);
      TimesStay(cfg, log, run, k, m, x.held, Behind(cfg, x.phase));
      if a.InsertFail? && a.m == m && x.phase.Inserting? && a.failures == x.phase.failures + 1 {
        OneMoreFailure(cfg, log, run, k, a, m);
      }
    }
  }

  lemma LettersKept(cfg: Config, log: Log, run: seq<State>, k: nat, a: Action, letters: seq<DeadLetter>, l: DeadLetter)
    requires k + 1 < |run| && Asks(run[k], a, log, letters) && l in letters
    requires forall m :: m in run[k].members ==> MemberTrue(cfg, log, run, k, m)
    ensures LetterTrue(cfg, log, run, k + 1, l)
  {
    hide FailedTimes, Letters;
    var x := run[k].members[a.m];
    assert MemberTrue(cfg, log, run, k, a.m);
    LettersContents(log, x.held, x.phase.status);
    if l.reason == InsertFailed {
      assert x.phase == Producing(DeadLettered) && l.coord in x.held;
      assert GivenUp(cfg, log, run, k, l.coord);
      GivenUpStays(cfg, log, run, k, l.coord);
    }
  }

  lemma {:induction false} LettersCounted(log: Log, batch: seq<Coord>, good: bool, reason: EventLog.Reason)
    requires FromLog(log, batch)
    ensures |LettersFor(log, batch, good, reason)| == if good then |batch| - Undecodable(log, batch) else Undecodable(log, batch)
  {
    if batch != [] {
      LettersCounted(log, batch[..|batch| - 1], good, reason);
    }
  }

  lemma RowKept(cfg: Config, log: Log, run: seq<State>, k: nat, a: Action, row: LedgerRow)
    requires k + 1 < |run| && Notes(run[k], a, log, row)
    requires forall m :: m in run[k].members ==> MemberTrue(cfg, log, run, k, m)
    requires run[k].rows <= run[k + 1].rows
    ensures RowTrue(cfg, log, run, k + 1, row)
  {
    hide FailedTimes, LettersFor, Undecodable, SpansOf;
    var x := run[k].members[a.m];
    assert MemberTrue(cfg, log, run, k, a.m);
    LettersCounted(log, x.held, false, Invalid);
    LettersCounted(log, x.held, true, InsertFailed);
    assert RowAbout(cfg, log, run, k, row, a.m, x.held);
    RowStays(cfg, log, run, k, row);
  }

  lemma RowStays(cfg: Config, log: Log, run: seq<State>, k: nat, row: LedgerRow)
    requires k + 1 < |run| && RowTrue(cfg, log, run, k, row) && run[k].rows <= run[k + 1].rows
    ensures RowTrue(cfg, log, run, k + 1, row)
  {
    hide FailedTimes, Undecodable, SpansOf;
    var m, batch :| RowAbout(cfg, log, run, k, row, m, batch);
    if row.status == DeadLettered {
      TimesStay(cfg, log, run, k, m, batch, Attempts(cfg));
    }
    assert RowAbout(cfg, log, run, k + 1, row, m, batch);
  }

  lemma StepKeepsInv(cfg: Config, log: Log, run: seq<State>, k: nat, a: Action)
    requires k + 1 < |run| && Inv(cfg, log, run, k)
    requires Enabled(cfg, log, run[k], a) && run[k + 1] == Apply(cfg, log, run[k], a)
    ensures Inv(cfg, log, run, k + 1)
  {
    hide Apply, Enabled, MemberTrue, GivenUp, Asks, Notes, RowTrue;
    RowsGrow(cfg, log, run[k], a);
    var k' := k + 1;
    var t := run[k'];
    forall m | m in t.members ensures MemberTrue(cfg, log, run, k', m) {
      MemberKept(cfg, log, run, k, a, m);
    }
    LettersStep(cfg, log, run[k], a);
    forall req, l | req in t.issued && req.Produce? && l in req.letters ensures LetterTrue(cfg, log, run, k', l) {
      if req in run[k].issued {
        assert LetterTrue(cfg, log, run, k, l);
        LetterStays(cfg, log, run, k, l);
      } else {
        LettersKept(cfg, log, run, k, a, req.letters, l);
      }
    }
    forall req | req in t.issued && req.Note? ensures RowTrue(cfg, log, run, k', req.row) {
      if req in run[k].issued {
        RowStays(cfg, log, run, k, req.row);
      } else {
        RowKept(cfg, log, run, k, a, req.row);
      }
    }
    forall row | row in t.ledger ensures RowTrue(cfg, log, run, k', row) {
      if row in run[k].ledger {
        RowStays(cfg, log, run, k, row);
      } else {
        assert Note(row).row == row;
      }
    }
    forall l | l in t.dlq ensures LetterTrue(cfg, log, run, k', l) {
      if l in run[k].dlq {
        LetterStays(cfg, log, run, k, l);
      }
    }
  }

  lemma LetterStays(cfg: Config, log: Log, run: seq<State>, k: nat, l: DeadLetter)
    requires k + 1 < |run| && LetterTrue(cfg, log, run, k, l)
    ensures LetterTrue(cfg, log, run, k + 1, l)
  {
    hide GivenUp;
    if l.reason == InsertFailed {
      GivenUpStays(cfg, log, run, k, l.coord);
    }
  }

  lemma EmptyIsFine(cfg: Config, log: Log, run: seq<State>)
    requires |run| > 0 && run[0] == Empty
    ensures Inv(cfg, log, run, 0)
  {
  }

  lemma {:induction false} RunKeepsInv(cfg: Config, log: Log, run: seq<State>, k: nat)
    requires IsRun(cfg, log, run) && k < |run|
    ensures Inv(cfg, log, run, k)
  {
    if k == 0 {
      EmptyIsFine(cfg, log, run);
    } else {
      hide Inv, Enabled, Apply;
      RunKeepsInv(cfg, log, run, k - 1);
      assert Next(cfg, log, run[k - 1], run[k]);
      var a :| Enabled(cfg, log, run[k - 1], a) && run[k] == Apply(cfg, log, run[k - 1], a);
      StepKeepsInv(cfg, log, run, k - 1, a);
    }
  }

  /** These steps of the run, in order and before state k, are the first, second, ... failed insert
      of the batch by process m. */
  ghost predicate FailedInserts(cfg: Config, log: Log, run: seq<State>, k: nat, m: nat, batch: seq<Coord>, steps: seq<nat>)
    requires k < |run|
  {
    && (forall i :: 0 <= i < |steps| ==> steps[i] < k && FailsAt(cfg, log, run, steps[i], m, batch, i + 1))
    && (forall i, j :: 0 <= i < j < |steps| ==> steps[i] < steps[j])
  }

  lemma {:induction false} StepsOf(cfg: Config, log: Log, run: seq<State>, k: nat, m: nat, batch: seq<Coord>, n: nat)
    returns (steps: seq<nat>)
    requires k < |run| && FailedTimes(cfg, log, run, k, m, batch, n)
    ensures |steps| == n && FailedInserts(cfg, log, run, k, m, batch, steps)
    decreases n
  {
    hide FailsAt;
    steps := [];
    if n > 0 {
      var j: nat :| j < k && FailsAt(cfg, log, run, j, m, batch, n) && FailedTimes(cfg, log, run, j, m, batch, n - 1);
      var before := StepsOf(cfg, log, run, j, m, batch, n - 1);
      steps := before + [j];
    }
  }

  /** In every state of every run: a letter about a failed insert is in the dead-letter topic, or in a
      request that may still land there, only for a record that some process failed to insert, as
      part of one batch, in exactly as many earlier steps as it has attempts. */
  lemma OnlyAfterAllAttempts(cfg: Config, log: Log, run: seq<State>, k: nat, l: DeadLetter)
    returns (m: nat, batch: seq<Coord>, steps: seq<nat>)
    requires IsRun(cfg, log, run) && k < |run| && l.reason == InsertFailed
    requires l in run[k].dlq || exists req :: req in run[k].issued && req.Produce? && l in req.letters
    ensures l.coord in batch && |steps| == (if cfg.maxAttempts < 1 then 1 else cfg.maxAttempts) && FailedInserts(cfg, log, run, k, m, batch, steps)
  {
    hide FailedTimes, FailedInserts;
    RunKeepsInv(cfg, log, run, k);
    assert LetterTrue(cfg, log, run, k, l);
    m, batch :| l.coord in batch && FailedTimes(cfg, log, run, k, m, batch, Attempts(cfg));
    steps := StepsOf(cfg, log, run, k, m, batch, Attempts(cfg));
  }

  /** In every state of every run: a ledger row, also one that a failed write may still leave, is about
      some batch. Its status is inserted only if all valid records of the batch are in the warehouse,
      and then as many are dead-lettered as do not decode; it is dead-lettered only after all attempts
      to insert the batch, and then all records are. */
  lemma RowsAreTrue(cfg: Config, log: Log, run: seq<State>, k: nat, row: LedgerRow) returns (m: nat, batch: seq<Coord>)
    requires IsRun(cfg, log, run) && k < |run|
    requires row in run[k].ledger || Note(row) in run[k].issued
    ensures FromLog(log, batch) && SpansOf(batch, row.spans) && row.records == |batch|
    ensures row.status == Inserted ==> row.deadLettered == Undecodable(log, batch) && AllInserted(log, run[k], batch)
    ensures row.status == DeadLettered ==>
              row.deadLettered == |batch| && FailedTimes(cfg, log, run, k, m, batch, Attempts(cfg))
  {
    hide FailedTimes, Undecodable, AllInserted, SpansOf;
    RunKeepsInv(cfg, log, run, k);
    if row !in run[k].ledger {
      assert Note(row).row == row;
    }
    assert RowTrue(cfg, log, run, k, row);
    m, batch :| RowAbout(cfg, log, run, k, row, m, batch);
  }
}
