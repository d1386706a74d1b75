/**
 Two runs of the event sink, step by step: one record from the topic to a committed offset, and an
 insert that was reported as failed and lands when its process is gone.
 */
module EventSinkExamples {
  import opened EventLog
  import opened EventSinkProtocol

  const Tp := TopicPartition("events", 0)
  const First := Coord(Tp, 0)
  const Click := Event("1", "click", "web", 0, "")
  const OneRecord: Log := map[First := Good(Click)]
  const Cfg := Config(1, 1)

  /** Takes the step and keeps the run. */
  lemma Step(log: Log, run: seq<State>, a: Action) returns (more: seq<State>)
    requires IsRun(Cfg, log, run) && Enabled(Cfg, log, run[|run| - 1], a)
    ensures IsRun(Cfg, log, more) && more == run + [Apply(Cfg, log, run[|run| - 1], a)]
  {
    hide Enabled, Apply;
    more := run + [Apply(Cfg, log, run[|run| - 1], a)];
    forall i | 0 < i < |more| ensures Next(Cfg, log, more[i - 1], more[i]) {
      if i < |run| {
        assert more[i - 1] == run[i - 1] && more[i] == run[i];
      }
    }
  }

  const Spans := [Span(Tp, 0, 0, 1)]

  lemma BatchIs()
    ensures FromLog(OneRecord, [First]) && Events(OneRecord, [First]) == [Click]
    ensures Letters(OneRecord, [First], Inserted) == []
    ensures SpansOf([First], Spans)
    ensures Lists(OneRecord, map[Tp := 0], map[Tp := 1], [First])
    ensures NextOffset([First], Tp) == 1
  {
    EventsOfOne(OneRecord, First);
    LettersOfOne(OneRecord, First, false, Invalid);
    assert [First][..0] == [] && Spans[..0] == [];
    assert CountIn([First], Tp) == 1;
    assert NextOffset([], Tp) == 0;
    forall c ensures c in [First] <==> Between(OneRecord, map[Tp := 0], map[Tp := 1], c) {
    }
  }

  /** A process that starts, polls the record, inserts it and writes its row. */
  lemma Recorded() returns (run: seq<State>)
    ensures IsRun(Cfg, OneRecord, run)
    ensures
      var s := run[|run| - 1];
      && 0 in s.members && s.members[0] == Member(map[Tp := 0], map[Tp := 1], [First], Committing)
      && Click in s.rows && LedgerRow(Inserted, 1, 0, Spans) in s.ledger && s.committed == map[]
  {
    hide SpansOf, Lists, Events, Letters;
    BatchIs();
    run := [Empty];
    run := Step(OneRecord, run, Start(0, map[Tp := 0]));
    run := Step(OneRecord, run, Poll(0, [First], map[Tp := 1]));
    assert run[2].members[0].held == [First];
    run := Step(OneRecord, run, BeginFlush(0));
    run := Step(OneRecord, run, InsertOk(0));
    assert run[4].rows == multiset{Click};
    run := Step(OneRecord, run, RecordOk(0, Spans));
  }

  /** The record gets from the topic into the warehouse and the ledger, and its offset is committed. */
  lemma SomeRunCommits() returns (run: seq<State>)
    ensures IsRun(Cfg, OneRecord, run)
    ensures
      var s := run[|run| - 1];
      Committed(s, Tp) == 1 && Click in s.rows && LedgerRow(Inserted, 1, 0, Spans) in s.ledger
  {
    hide SpansOf, Lists, Events, Letters;
    BatchIs();
    run := Recorded();
    run := Step(OneRecord, run, CommitOk(0));
    assert First in [First] && PartitionsOf([First]) == {Tp};
  }

  /** An insert is answered with a failure, its process dies, and the event arrives all the same. */
  lemma SomeInsertLandsLate() returns (run: seq<State>)
    ensures IsRun(Cfg, OneRecord, run)
    ensures run[|run| - 1].members == map[] && Click in run[|run| - 1].rows
  {
    hide SpansOf, Lists, Letters;
    BatchIs();
    run := [Empty];
    run := Step(OneRecord, run, Start(0, map[Tp := 0]));
    run := Step(OneRecord, run, Poll(0, [First], map[Tp := 1]));
    assert run[2].members[0].held == [First];
    run := Step(OneRecord, run, BeginFlush(0));
    run := Step(OneRecord, run, InsertFail(0, 1));
    run := Step(OneRecord, run, Crash(0));
    assert Insert([Click]) in run[5].issued;
    run := Step(OneRecord, run, LandEvents(Insert([Click]), multiset{Click}));
  }
}
