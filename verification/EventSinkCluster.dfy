/**
 The environment of a pipeline process: the broker, ClickHouse, Postgres, the clock and the contexts,
 which answer as they like. It writes down every exchange with the process, and it keeps a run of
 the protocol in EventSinkProtocol of which every answer is a step.
 */
module EventSinkCluster {
  import opened Basics
  import opened EventLog
  import opened EventSinkProtocol
  import opened EventSinkSafety
  import opened Backoff
  import opened EventSinkTiming
  import opened EventSinkScript

  /** A fetched record with the outcome of decoding it. */
  datatype Item = Item(coord: Coord, record: Record)

  function Coords(items: seq<Item>): seq<Coord> {
    seq(|items|, i requires 0 <= i < |items| => items[i].coord)
  }

  ghost predicate Decoded(log: Log, items: seq<Item>) {
    forall i :: 0 <= i < |items| ==> items[i].coord in log && items[i].record == log[items[i].coord]
  }

  // ---------- the environment ----------

  ghost predicate OtherStep(cfg: Config, log: Log, m: nat, s: State, t: State) {
    Next(cfg, log, s, t) && m in s.members && m in t.members && t.members[m] == s.members[m]
  }

  lemma RunExtends(cfg: Config, log: Log, run: seq<State>, t: State)
    requires IsRun(cfg, log, run) && Next(cfg, log, run[|run| - 1], t)
    ensures IsRun(cfg, log, run + [t])
  {
    var longer := run + [t];
    forall i | 0 < i < |longer| ensures Next(cfg, log, longer[i - 1], longer[i]) {
      if i < |run| {
        assert longer[i - 1] == run[i - 1] && longer[i] == run[i];
      }
    }
  }

  /** What the process knows about its own state after a successful or a failed insert. */
  function AfterInsert(cfg: Config, log: Log, x: Member, ok: bool, failures: nat): Member
    requires FromLog(log, x.held)
  {
    x.(phase :=
      if ok then
        if Letters(log, x.held, Inserted) == [] then Recording(Inserted, 0) else Producing(Inserted)
      else if failures < Attempts(cfg) then Inserting(failures)
      else Producing(DeadLettered))
  }

  lemma InsertOkNext(cfg: Config, log: Log, s: State, m: nat) returns (t: State)
    requires In(s, log, m) && s.members[m].phase.Inserting?
    ensures Next(cfg, log, s, t)
    ensures m in t.members && t.members[m] == AfterInsert(cfg, log, s.members[m], true, 0)
  {
    var a := InsertOk(m);
    t := Apply(cfg, log, s, a);
  }

  lemma InsertFailNext(cfg: Config, log: Log, s: State, m: nat, failures: nat) returns (t: State)
    requires In(s, log, m) && s.members[m].phase.Inserting? && failures == s.members[m].phase.failures + 1
    ensures Next(cfg, log, s, t)
    ensures m in t.members
    ensures t.members[m] == AfterInsert(cfg, log, s.members[m], false, failures)
  {
    var a := InsertFail(m, failures);
    t := Apply(cfg, log, s, a);
  }

  lemma InsertNext(cfg: Config, log: Log, s: State, m: nat, ok: bool, failures: nat) returns (t: State)
    requires In(s, log, m) && s.members[m].phase.Inserting? && failures == s.members[m].phase.failures + 1
    ensures Next(cfg, log, s, t)
    ensures m in t.members && t.members[m] == AfterInsert(cfg, log, s.members[m], ok, failures)
  {
    if ok {
      t := InsertOkNext(cfg, log, s, m);
    } else {
      t := InsertFailNext(cfg, log, s, m, failures);
    }
  }

  lemma ProduceNext(cfg: Config, log: Log, s: State, m: nat, ok: bool) returns (t: State)
    requires In(s, log, m) && s.members[m].phase.Producing?
    ensures Next(cfg, log, s, t)
    ensures ok ==> m in t.members && t.members[m] == s.members[m].(phase := Recording(s.members[m].phase.status, 0))
    ensures !ok ==> m !in t.members
  {
    var a := if ok then ProduceOk(m) else ProduceFail(m);
    t := Apply(cfg, log, s, a);
  }

  lemma RecordOkNext(cfg: Config, log: Log, s: State, m: nat, spans: seq<Span>) returns (t: State)
    requires In(s, log, m) && s.members[m].phase.Recording? && SpansOf(s.members[m].held, spans)
    ensures Next(cfg, log, s, t)
    ensures m in t.members && t.members[m] == s.members[m].(phase := Committing)
  {
    var a := RecordOk(m, spans);
    t := Apply(cfg, log, s, a);
  }

  lemma RecordFailNext(cfg: Config, log: Log, s: State, m: nat, spans: seq<Span>, failures: nat) returns (t: State)
    requires In(s, log, m) && s.members[m].phase.Recording? && SpansOf(s.members[m].held, spans)
    requires failures == s.members[m].phase.failures + 1 < Attempts(cfg)
    ensures Next(cfg, log, s, t)
    ensures m in t.members && t.members[m] == s.members[m].(phase := Recording(s.members[m].phase.status, failures))
  {
    var a := RecordFail(m, spans, failures);
    t := Apply(cfg, log, s, a);
  }

  lemma RecordGiveUpNext(cfg: Config, log: Log, s: State, m: nat, spans: seq<Span>) returns (t: State)
    requires In(s, log, m) && s.members[m].phase.Recording? && SpansOf(s.members[m].held, spans)
    requires s.members[m].phase.failures + 1 >= Attempts(cfg)
    ensures Next(cfg, log, s, t) && m !in t.members
  {
    var a := RecordGiveUp(m, spans);
    t := Apply(cfg, log, s, a);
  }

  lemma RecordNext(cfg: Config, log: Log, s: State, m: nat, spans: seq<Span>, failures: nat, ok: bool) returns (t: State)
    requires In(s, log, m) && s.members[m].phase.Recording? && SpansOf(s.members[m].held, spans)
    requires failures == s.members[m].phase.failures + 1
    ensures Next(cfg, log, s, t)
    ensures ok ==> m in t.members && t.members[m] == s.members[m].(phase := Committing)
    ensures !ok && failures < Attempts(cfg) ==>
              m in t.members && t.members[m] == s.members[m].(phase := Recording(s.members[m].phase.status, failures))
    ensures !ok && failures >= Attempts(cfg) ==> m !in t.members
  {
    if ok {
      t := RecordOkNext(cfg, log, s, m, spans);
    } else if failures < Attempts(cfg) {
      t := RecordFailNext(cfg, log, s, m, spans, failures);
    } else {
      t := RecordGiveUpNext(cfg, log, s, m, spans);
    }
  }

  lemma CommitNext(cfg: Config, log: Log, s: State, m: nat, ok: bool) returns (t: State)
    requires m in s.members && s.members[m].phase.Committing?
    ensures Next(cfg, log, s, t) && m in t.members && t.members[m] == NextBatch(s.members[m])
    ensures ok ==> BelowCommitted(t, s.members[m].held)
  {
    var a := if ok then CommitOk(m) else CommitFail(m);
    t := Apply(cfg, log, s, a);
    if ok {
      CommitCovers(cfg, log, s, m);
    }
  }

  /** The records are below the committed offsets. */
  ghost predicate BelowCommitted(s: State, records: seq<Coord>) {
    forall c :: c in records ==> c.offset < Committed(s, c.tp)
  }

  /** They were in some state of the run since then. */
  ghost predicate CommittedSince(run: seq<State>, from: nat, records: seq<Coord>) {
    exists j :: from <= j < |run| && BelowCommitted(run[j], records)
  }

  /** A commit stores, for the partitions of the batch and no others, the offset behind its last record. */
  lemma CommitCovers(cfg: Config, log: Log, s: State, m: nat)
    requires m in s.members && s.members[m].phase.Committing?
    ensures
      var held := s.members[m].held;
      var t := Apply(cfg, log, s, CommitOk(m));
      && BelowCommitted(t, held)
      && (forall tp :: tp in PartitionsOf(held) ==> Committed(t, tp) > 0 && Coord(tp, Committed(t, tp) - 1) in held)
      && (forall tp :: tp !in PartitionsOf(held) ==> Committed(t, tp) == Committed(s, tp))
  {
    hide WithCommitted, Committed, PartitionsOf, SpansOf, Lists, Events, Letters;
    var held := s.members[m].held;
    var t := Apply(cfg, log, s, CommitOk(m));
    forall tp ensures Committed(t, tp) == if tp in PartitionsOf(held) then NextOffset(held, tp) else Committed(s, tp) {
      CommittedIs(Issue(s, Commit(held)), held, tp);
      SameCommitted(WithCommitted(Issue(s, Commit(held)), held, PartitionsOf(held)), t, tp);
      SameCommitted(Issue(s, Commit(held)), s, tp);
    }
    forall tp | tp in PartitionsOf(held) ensures NextOffset(held, tp) > 0 && Coord(tp, NextOffset(held, tp) - 1) in held {
      var c := InPartition(held, tp);
    }
    forall c | c in held ensures c.offset < Committed(t, c.tp) {
      PartitionOfMember(held, c);
    }
  }

  lemma CommittedIs(s: State, records: seq<Coord>, tp: TopicPartition)
    ensures Committed(WithCommitted(s, records, PartitionsOf(records)), tp)
            == if tp in PartitionsOf(records) then NextOffset(records, tp) else Committed(s, tp)
  {
  }

  lemma SameCommitted(s: State, t: State, tp: TopicPartition)
    requires s.committed == t.committed
    ensures Committed(s, tp) == Committed(t, tp)
  {
  }

  lemma InPartition(records: seq<Coord>, tp: TopicPartition) returns (c: Coord)
    requires tp in PartitionsOf(records)
    ensures c in records && c.tp == tp
  {
    c :| c in records && c.tp == tp;
  }

  lemma PartitionOfMember(records: seq<Coord>, c: Coord)
    requires c in records
    ensures c.tp in PartitionsOf(records)
  {
  }

  lemma PollNext(cfg: Config, log: Log, s: State, m: nat, chunk: seq<Coord>, position: map<TopicPartition, nat>) returns (t: State)
    requires m in s.members && s.members[m].phase.Polling?
    requires |s.members[m].held| + |chunk| <= cfg.batchSize && Lists(log, s.members[m].position, position, chunk)
    ensures Next(cfg, log, s, t) && m in t.members
    ensures t.members[m] == s.members[m].(position := position, held := s.members[m].held + chunk)
  {
    var a := Poll(m, chunk, position);
    t := Apply(cfg, log, s, a);
  }

  lemma BeginNext(cfg: Config, log: Log, s: State, m: nat) returns (t: State)
    requires m in s.members && s.members[m].phase.Polling? && s.members[m].held != []
    ensures Next(cfg, log, s, t) && m in t.members && t.members[m] == s.members[m].(phase := Inserting(0))
  {
    var a := BeginFlush(m);
    t := Apply(cfg, log, s, a);
  }

  lemma RebalanceNext(cfg: Config, log: Log, s: State, m: nat, position: map<TopicPartition, nat>) returns (t: State)
    requires m in s.members && s.members[m].phase.Polling? && s.members[m].held == []
    requires forall tp :: tp in position ==>
      position[tp] == Committed(s, tp) || (tp in s.members[m].position && position[tp] == s.members[m].position[tp])
    ensures Next(cfg, log, s, t) && m in t.members && t.members[m] == Member(position, position, [], Polling)
  {
    var a := Rebalance(m, position);
    t := Apply(cfg, log, s, a);
  }

  lemma CrashNext(cfg: Config, log: Log, s: State, m: nat) returns (t: State)
    requires m in s.members
    ensures Next(cfg, log, s, t) && m !in t.members
  {
    var a := Crash(m);
    t := Apply(cfg, log, s, a);
  }

  class Cluster {
    const log: Log
    const tuning: Tuning
    const m: nat
    var position: map<TopicPartition, nat>
    var clock: nat
    var cancelled: bool
    var stopping: bool
    ghost var history: seq<State>
    ghost var calls: seq<Exchange>

    ghost function Now(): State
      requires |history| > 0
      reads this
    {
      history[|history| - 1]
    }

    ghost predicate Valid()
      reads this
    {
      IsRun(tuning.cfg, log, history)
    }

    ghost predicate Running()
      reads this
    {
      Valid() && m in Now().members && position == Now().members[m].position
    }

    ghost function Me(): Member
      requires Running()
      reads this
    {
      Now().members[m]
    }

    /** The other processes and the network move on; this process does not notice. */
    ghost method Interfere()
      requires Running()
      modifies this`history
      ensures Running() && old(history) <= history && Me() == old(Me())
    {
      var n: int := *;
      while n > 0
        invariant Running() && old(history) <= history && Me() == old(Me())
      {
        var s := Now();
        if t :| OtherStep(tuning.cfg, log, m, s, t) {
          RunExtends(tuning.cfg, log, history, t);
          history := history + [t];
        }
        n := n - 1;
      }
    }

    ghost method Take(t: State)
      requires Valid() && Next(tuning.cfg, log, Now(), t)
      modifies this`history
      ensures Valid() && history == old(history) + [t]
    {
      RunExtends(tuning.cfg, log, history, t);
      history := history + [t];
    }

    ghost method BeginFlushing()
      requires Running() && Me().phase.Polling? && Me().held != []
      modifies this`history
      ensures Running() && old(history) <= history && Me() == old(Me()).(phase := Inserting(0))
    {
      var t := BeginNext(tuning.cfg, log, Now(), m);
      Take(t);
    }

    /** Run returns: the process is gone. */
    ghost method Stop()
      requires Running()
      modifies this`history
      ensures Valid() && m !in Now().members && old(history) <= history
    {
      var t := CrashNext(tuning.cfg, log, Now(), m);
      Take(t);
    }

    /** A call takes at most the attempt timeout. */
    method Elapse()
      modifies this`clock
      ensures old(clock) <= clock <= old(clock) + tuning.attemptTimeout
    {
      var d: int := *;
      if 0 <= d <= tuning.attemptTimeout {
        clock := clock + d;
      }
    }

    method Cancelled() returns (done: bool)
      modifies this`cancelled
      ensures done == cancelled && (old(cancelled) ==> cancelled)
    {
      if !cancelled {
        cancelled := *;
      }
      done := cancelled;
    }

    /** Whether the flush context is done. */
    method ContextDone() returns (done: bool)
      modifies this`cancelled, this`calls
      ensures done == cancelled && (old(cancelled) ==> cancelled)
      ensures calls == old(calls) + [Checked(done)]
    {
      done := Cancelled();
      calls := calls + [Checked(done)];
    }

    /** Whether the context of Run is done; it is when the time has come. */
    method StopAsked(come: bool) returns (stop: bool)
      modifies this`stopping, this`calls
      ensures stop == stopping && (old(stopping) || come ==> stopping)
      ensures calls == old(calls) + [StopChecked(stop)]
    {
      if !stopping {
        stopping := *;
      }
      stopping := stopping || come;
      stop := stopping;
      calls := calls + [StopChecked(stop)];
    }

    /** Sleeps, unless the flush context is done first. */
    method Sleep(delay: Int64) returns (done: bool)
      modifies this`clock, this`cancelled, this`calls
      ensures calls == old(calls) + [Waited(delay, done)]
      ensures done ==> cancelled
      ensures old(cancelled) ==> cancelled
      ensures old(clock) <= clock <= old(clock) + Pause(delay)
    {
      var over := Cancelled();
      var noticed: bool := *;
      done := over && noticed;
      var d: int := *;
      clock := clock + if done && 0 <= d < delay then d else Pause(delay);
      calls := calls + [Waited(delay, done)];
    }

    /** One partition's worth of a fetch: the next records, in offset order. */
    method Fetch(max: nat) returns (items: seq<Item>)
      requires Running() && Me().phase.Polling? && |Me().held| + max <= tuning.cfg.batchSize
      modifies this`history, this`position
      ensures Running() && old(history) <= history && |items| <= max
      ensures Decoded(log, items)
      ensures Me() == old(Me()).(position := position, held := old(Me()).held + Coords(items))
    {
      hide Lists, Decoded;
      NoItems(log);
      Interfere();
      items := [];
      var tp: TopicPartition := *;
      var last: int := *;
      if tp in position && position[tp] <= last {
        ghost var from := position;
        var next := position[tp];
        ListsNothing(log, from, tp);
        while next < last && |items| < max
          invariant Running() && old(history) <= history && Me() == old(Me()) && position == from
          invariant from[tp] <= next <= last && |items| <= max
          invariant Decoded(log, items)
          invariant Lists(log, from, from[tp := next], Coords(items))
        {
          if Coord(tp, next) in log {
            ListsMore(log, from, tp, next, Coords(items), true);
            OneMoreItem(log, items, Coord(tp, next));
            items := items + [Item(Coord(tp, next), log[Coord(tp, next)])];
          } else {
            ListsMore(log, from, tp, next, Coords(items), false);
          }
          next := next + 1;
        }
        position := position[tp := next];
        ghost var t := PollNext(tuning.cfg, log, Now(), m, Coords(items), position);
        Take(t);
      } else {
        assert old(Me()).held + [] == old(Me()).held;
      }
    }

    method PollRecords(max: nat) returns (items: seq<Item>, closed: bool)
      requires Running() && Me().phase.Polling? && |Me().held| + max <= tuning.cfg.batchSize
      modifies this`history, this`position, this`clock, this`calls
      ensures calls == old(calls) + [Polled(max, Coords(items), closed)] && old(clock) <= clock
      ensures Running() && old(history) <= history && |items| <= max
      ensures Decoded(log, items)
      ensures Me() == old(Me()).(position := position, held := old(Me()).held + Coords(items))
    {
      items := [];
      assert old(Me()).held + [] == old(Me()).held;
      closed := *;
      var n: int := *;
      while n > 0
        invariant Running() && old(history) <= history && |items| <= max
        invariant calls == old(calls) && clock == old(clock)
        invariant Decoded(log, items)
        invariant Me() == old(Me()).(position := position, held := old(Me()).held + Coords(items))
      {
        var more := Fetch(max - |items|);
        assert Coords(items + more) == Coords(items) + Coords(more);
        items := items + more;
        n := n - 1;
      }
      var d: int := *;
      clock := clock + Pause(d);
      calls := calls + [Polled(max, Coords(items), closed)];
    }

    method InsertEvents(events: seq<Event>, ghost x: Member, ghost failures: nat) returns (ok: bool)
      requires Running() && Me() == x && FromLog(log, x.held) && x.phase.Inserting? && failures == x.phase.failures + 1
      requires events == Events(log, x.held)
      modifies this`history, this`clock, this`calls
      ensures Running() && old(history) <= history
      ensures old(clock) <= clock <= old(clock) + tuning.attemptTimeout
      ensures calls == old(calls) + [Called(InsertCall(events), ok)]
      ensures Me() == AfterInsert(tuning.cfg, log, x, ok, failures)
    {
      Interfere();
      Elapse();
      ok := *;
      ghost var t := InsertNext(tuning.cfg, log, Now(), m, ok, failures);
      Take(t);
      calls := calls + [Called(InsertCall(events), ok)];
      Interfere();
    }

    method ProduceSync(letters: seq<DeadLetter>) returns (ok: bool)
      requires Running() && In(Now(), log, m) && Me().phase.Producing? && letters == Letters(log, Me().held, Me().phase.status)
      modifies this`history, this`clock, this`calls
      ensures Valid() && old(history) <= history
      ensures old(clock) <= clock <= old(clock) + tuning.attemptTimeout
      ensures ok ==> Running() && Me() == old(Me()).(phase := Recording(old(Me()).phase.status, 0))
      ensures !ok ==> m !in Now().members
      ensures calls == old(calls) + [Produced(letters, ok)]
    {
      Interfere();
      Elapse();
      ok := *;
      calls := calls + [Produced(letters, ok)];
      ghost var t := ProduceNext(tuning.cfg, log, Now(), m, ok);
      Take(t);
      if ok {
        Interfere();
      }
    }

    /** `x` is the state of this process, `failures` the number of the failure this may be. */
    method Record(row: LedgerRow, ghost x: Member, ghost failures: nat) returns (ok: bool)
      requires Running() && Me() == x && In(Now(), log, m) && x.phase.Recording? && failures == x.phase.failures + 1
      requires SpansOf(x.held, row.spans) && row == RowFor(log, x.held, x.phase.status, row.spans)
      modifies this`history, this`clock, this`calls
      ensures calls == old(calls) + [Called(RecordCall(row), ok)]
      ensures Valid() && old(history) <= history
      ensures old(clock) <= clock <= old(clock) + tuning.attemptTimeout
      ensures ok ==> Running() && Me() == x.(phase := Committing)
      ensures !ok && failures < Attempts(tuning.cfg) ==> Running() && Me() == x.(phase := Recording(x.phase.status, failures))
      ensures !ok && failures >= Attempts(tuning.cfg) ==> m !in Now().members
    {
      ok := *;
      calls := calls + [Called(RecordCall(row), ok)];
      Elapse();
      Interfere();
      ghost var t := RecordNext(tuning.cfg, log, Now(), m, row.spans, failures, ok);
      Take(t);
      if m in t.members {
        Interfere();
      }
    }

    method CommitRecords(records: seq<Coord>) returns (ok: bool)
      requires Running() && Me().phase.Committing? && records == Me().held
      modifies this`history, this`clock, this`calls
      ensures calls == old(calls) + [CommitAsked(records, ok)]
      ensures ok ==> CommittedSince(history, |old(history)|, records)
      ensures Running() && old(history) <= history
      ensures old(clock) <= clock <= old(clock) + tuning.attemptTimeout
      ensures Me() == NextBatch(old(Me()))
    {
      Interfere();
      Elapse();
      ok := *;
      calls := calls + [CommitAsked(records, ok)];
      ghost var t := CommitNext(tuning.cfg, log, Now(), m, ok);
      Take(t);
      ghost var j := |history| - 1;
      assert ok ==> BelowCommitted(history[j], records);
      Interfere();
      assert history[j] == t;
    }

    /** The group may move partitions while no batch is held. */
    method AllowRebalance()
      requires Running() && Me().phase.Polling? && Me().held == []
      modifies this`history, this`position, this`calls
      ensures calls == old(calls) + [Released]
      ensures Running() && old(history) <= history
      ensures Me().phase.Polling? && Me().held == []
    {
      calls := calls + [Released];
      Interfere();
      var moved: bool := *;
      if moved {
        var lost: set<TopicPartition> := *;
        position := position - lost;
        ghost var t := RebalanceNext(tuning.cfg, log, Now(), m, position);
        Take(t);
      }
      Interfere();
    }
  }

  lemma NoItems(log: Log)
    ensures Decoded(log, []) && Coords([]) == []
  {
  }

  lemma OneMoreItem(log: Log, items: seq<Item>, c: Coord)
    requires Decoded(log, items) && c in log
    ensures Decoded(log, items + [Item(c, log[c])]) && Coords(items + [Item(c, log[c])]) == Coords(items) + [c]
  {
  }

  lemma ListsNothing(log: Log, from: map<TopicPartition, nat>, tp: TopicPartition)
    requires tp in from
    ensures from[tp := from[tp]] == from && Lists(log, from, from, [])
  {
  }

  lemma ListsMore(log: Log, from: map<TopicPartition, nat>, tp: TopicPartition, next: nat, s: seq<Coord>, found: bool)
    requires tp in from && from[tp] <= next && Lists(log, from, from[tp := next], s)
    requires found <==> Coord(tp, next) in log
    ensures Lists(log, from, from[tp := next + 1], if found then s + [Coord(tp, next)] else s)
  {
    var s' := if found then s + [Coord(tp, next)] else s;
    forall c ensures c in s' <==> Between(log, from, from[tp := next + 1], c) {
      assert c in s <==> Between(log, from, from[tp := next], c);
      if Between(log, from, from[tp := next + 1], c) && c.tp == tp && c.offset == next {
        assert c == Coord(tp, next);
      }
    }
    assert !Between(log, from, from[tp := next], Coord(tp, next));
  }
}
