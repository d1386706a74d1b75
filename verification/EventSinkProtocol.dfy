/**
 The event sink as a protocol: any number of pipeline processes of one consumer group, the
 broker, ClickHouse, Postgres and the dead-letter topic, taking steps in any order.

 A remote call is a step that issues a request. The caller is told either that it succeeded, and
 then its whole effect is in place, or that it failed. A failed request is not forgotten: what it
 asked for may land at any later time, in full, in part, many times or never, also after its
 sender is gone.
 */
module EventSinkProtocol {
  import opened EventLog

  datatype Config = Config(batchSize: int, maxAttempts: int)

  /** `retry` always makes a first attempt, whatever the configured maximum. */
  function Attempts(cfg: Config): nat {
    if cfg.maxAttempts < 1 then 1 else cfg.maxAttempts
  }

  datatype Phase =
    | Polling
    | Inserting(failures: nat)
    | Producing(status: Status)
    | Recording(status: Status, failures: nat)
    | Committing

  /** `held` is the batch being collected or flushed, `position` the next offset to fetch and
      `base` the position when the batch was empty. */
  datatype Member = Member(
    base: map<TopicPartition, nat>,
    position: map<TopicPartition, nat>,
    held: seq<Coord>,
    phase: Phase)

  datatype Request =
    | Insert(events: seq<Event>)
    | Produce(letters: seq<DeadLetter>)
    | Note(row: LedgerRow)
    | Commit(records: seq<Coord>)

  datatype State = State(
    rows: multiset<Event>,
    dlq: multiset<DeadLetter>,
    ledger: multiset<LedgerRow>,
    committed: map<TopicPartition, nat>,
    issued: set<Request>,
    members: map<nat, Member>)

  function Committed(s: State, tp: TopicPartition): nat {
    if tp in s.committed then s.committed[tp] else 0
  }

  datatype Action =
    | Start(m: nat, position: map<TopicPartition, nat>)
    | Crash(m: nat)
    | Rebalance(m: nat, position: map<TopicPartition, nat>)
    | Poll(m: nat, chunk: seq<Coord>, position: map<TopicPartition, nat>)
    | BeginFlush(m: nat)
    | InsertOk(m: nat)
    | InsertFail(m: nat, failures: nat)
    | ProduceOk(m: nat)
    | ProduceFail(m: nat)
    | RecordOk(m: nat, spans: seq<Span>)
    | RecordFail(m: nat, spans: seq<Span>, failures: nat)
    | RecordGiveUp(m: nat, spans: seq<Span>)
    | CommitOk(m: nat)
    | CommitFail(m: nat)
    | LandEvents(req: Request, events: multiset<Event>)
    | LandLetters(req: Request, letters: multiset<DeadLetter>)
    | LandRow(req: Request)
    | LandCommit(req: Request, tps: set<TopicPartition>)

  // ---------- steps ----------

  /** The records of the log between two positions. */
  ghost predicate Between(log: Log, lo: map<TopicPartition, nat>, hi: map<TopicPartition, nat>, c: Coord) {
    c in log && c.tp in lo && c.tp in hi && lo[c.tp] <= c.offset < hi[c.tp]
  }

  ghost predicate NoDuplicates<T>(s: seq<T>) {
    forall i, j :: 0 <= i < j < |s| ==> s[i] != s[j]
  }

  /** `s` lists, once each, the records between the two positions. */
  ghost predicate Lists(log: Log, lo: map<TopicPartition, nat>, hi: map<TopicPartition, nat>, s: seq<Coord>) {
    && lo.Keys == hi.Keys
    && (forall tp :: tp in lo ==> lo[tp] <= hi[tp])
    && NoDuplicates(s)
    && (forall c :: c in s <==> Between(log, lo, hi, c))
  }

  function RowFor(log: Log, batch: seq<Coord>, status: Status, spans: seq<Span>): LedgerRow
    requires FromLog(log, batch)
  {
    LedgerRow(status, |batch|, |Letters(log, batch, status)|, spans)
  }

  ghost predicate In(s: State, log: Log, m: nat) {
    m in s.members && FromLog(log, s.members[m].held)
  }

  ghost predicate Enabled(cfg: Config, log: Log, s: State, a: Action) {
    match a
    case Start(m, position) =>
      m !in s.members && forall tp :: tp in position ==> position[tp] == Committed(s, tp)
    case Crash(m) =>
      m in s.members
    case Rebalance(m, position) =>
      // rebalances are held back while a batch is held
      && m in s.members && s.members[m].phase.Polling? && s.members[m].held == []
      && forall tp :: tp in position ==>
          || position[tp] == Committed(s, tp)
          || (tp in s.members[m].position && position[tp] == s.members[m].position[tp])
    case Poll(m, chunk, position) =>
      && m in s.members && s.members[m].phase.Polling?
      && |s.members[m].held| + |chunk| <= cfg.batchSize
      && Lists(log, s.members[m].position, position, chunk)
    case BeginFlush(m) =>
      m in s.members && s.members[m].phase.Polling? && s.members[m].held != []
    case InsertOk(m) => In(s, log, m) && s.members[m].phase.Inserting?
    case InsertFail(m, failures) =>
      In(s, log, m) && s.members[m].phase.Inserting? && failures == s.members[m].phase.failures + 1
    case ProduceOk(m) => In(s, log, m) && s.members[m].phase.Producing?
    case ProduceFail(m) => In(s, log, m) && s.members[m].phase.Producing?
    case RecordOk(m, spans) =>
      In(s, log, m) && s.members[m].phase.Recording? && SpansOf(s.members[m].held, spans)
    case RecordFail(m, spans, failures) =>
      && In(s, log, m) && s.members[m].phase.Recording? && SpansOf(s.members[m].held, spans)
      && failures == s.members[m].phase.failures + 1 < Attempts(cfg)
    case RecordGiveUp(m, spans) =>
      && In(s, log, m) && s.members[m].phase.Recording? && SpansOf(s.members[m].held, spans)
      && s.members[m].phase.failures + 1 >= Attempts(cfg)
    case CommitOk(m) => m in s.members && s.members[m].phase.Committing?
    case CommitFail(m) => m in s.members && s.members[m].phase.Committing?
    case LandEvents(req, events) => req in s.issued && req.Insert? && events <= multiset(req.events)
    case LandLetters(req, letters) => req in s.issued && req.Produce? && letters <= multiset(req.letters)
    case LandRow(req) => req in s.issued && req.Note?
    case LandCommit(req, tps) => req in s.issued && req.Commit?
  }

  function To(s: State, m: nat, phase: Phase): State
    requires m in s.members
  {
    s.(members := s.members[m := s.members[m].(phase := phase)])
  }

  function Without(s: State, m: nat): State {
    s.(members := s.members - {m})
  }

  function Issue(s: State, req: Request): State {
    s.(issued := s.issued + {req})
  }

  /** The batch is over: the next one starts where this one ended. */
  function NextBatch(x: Member): Member {
    Member(x.position, x.position, [], Polling)
  }

  function WithCommitted(s: State, records: seq<Coord>, tps: set<TopicPartition>): State {
    var landed := PartitionsOf(records) * tps;
    s.(committed := map tp | tp in s.committed.Keys + landed ::
         if tp in landed then NextOffset(records, tp) else s.committed[tp])
  }

  ghost function Apply(cfg: Config, log: Log, s: State, a: Action): State
    requires Enabled(cfg, log, s, a)
  {
    match a
    case Start(m, position) => s.(members := s.members[m := Member(position, position, [], Polling)])
    case Crash(m) => Without(s, m)
    case Rebalance(m, position) => s.(members := s.members[m := Member(position, position, [], Polling)])
    case Poll(m, chunk, position) =>
      var x := s.members[m];
      s.(members := s.members[m := x.(position := position, held := x.held + chunk)])
    case BeginFlush(m) => To(s, m, Inserting(0))
    case InsertOk(m) =>
      var x := s.members[m];
      var es := Events(log, x.held);
      var t := Issue(s, Insert(es)).(rows := s.rows + multiset(es));
      To(t, m, if Letters(log, x.held, Inserted) == [] then Recording(Inserted, 0) else Producing(Inserted))
    case InsertFail(m, failures) =>
      var x := s.members[m];
      var t := Issue(s, Insert(Events(log, x.held)));
      To(t, m, if failures < Attempts(cfg) then Inserting(failures) else Producing(DeadLettered))
    case ProduceOk(m) =>
      var x := s.members[m];
      var ls := Letters(log, x.held, x.phase.status);
      To(Issue(s, Produce(ls)).(dlq := s.dlq + multiset(ls)), m, Recording(x.phase.status, 0))
    case ProduceFail(m) =>
      // flush gives up and Run returns
      var x := s.members[m];
      Without(Issue(s, Produce(Letters(log, x.held, x.phase.status))), m)
    case RecordOk(m, spans) =>
      var x := s.members[m];
      var row := RowFor(log, x.held, x.phase.status, spans);
      To(Issue(s, Note(row)).(ledger := s.ledger + multiset{row}), m, Committing)
    case RecordFail(m, spans, failures) =>
      var x := s.members[m];
      To(Issue(s, Note(RowFor(log, x.held, x.phase.status, spans))), m, Recording(x.phase.status, failures))
    case RecordGiveUp(m, spans) =>
      var x := s.members[m];
      Without(Issue(s, Note(RowFor(log, x.held, x.phase.status, spans))), m)
    case CommitOk(m) =>
      var x := s.members[m];
      var t := WithCommitted(Issue(s, Commit(x.held)), x.held, PartitionsOf(x.held));
      t.(members := s.members[m := NextBatch(x)])
    case CommitFail(m) =>
      // a failed commit is only logged
      var x := s.members[m];
      Issue(s, Commit(x.held)).(members := s.members[m := NextBatch(x)])
    case LandEvents(req, events) => s.(rows := s.rows + events)
    case LandLetters(req, letters) => s.(dlq := s.dlq + letters)
    case LandRow(req) => s.(ledger := s.ledger + multiset{req.row})
    case LandCommit(req, tps) => WithCommitted(s, req.records, tps)
  }

  // ---------- runs ----------

  const Empty := State(multiset{}, multiset{}, multiset{}, map[], {}, map[])

  ghost predicate Next(cfg: Config, log: Log, s: State, t: State) {
    exists a :: Enabled(cfg, log, s, a) && t == Apply(cfg, log, s, a)
  }

  ghost predicate IsRun(cfg: Config, log: Log, run: seq<State>) {
    && |run| > 0 && run[0] == Empty
    && forall i :: 0 < i < |run| ==> Next(cfg, log, run[i - 1], run[i])
  }

  // ---------- what the sink promises ----------

  /** The record's event reached the warehouse, or the record reached the dead-letter topic. */
  ghost predicate Handled(log: Log, s: State, c: Coord)
    requires c in log
  {
    || (log[c].Good? && log[c].event in s.rows)
    || DeadLetter(c, if log[c].Good? then InsertFailed else Invalid) in s.dlq
  }

  ghost predicate Ledgered(s: State, c: Coord) {
    exists row, sp :: row in s.ledger && sp in row.spans && Inside(c, sp)
  }

  ghost predicate Settled(log: Log, s: State, c: Coord) {
    c in log && Handled(log, s, c) && Ledgered(s, c)
  }

  /** Nothing below a committed offset was lost, and the ledger accounts for it. */
  ghost predicate CommittedIsSettled(log: Log, s: State) {
    forall c :: c in log && c.offset < Committed(s, c.tp) ==> Settled(log, s, c)
  }

  /** A ledger row never covers a record that was not handled. */
  ghost predicate LedgerIsTrue(log: Log, s: State) {
    forall row, sp, c :: row in s.ledger && sp in row.spans && c in log && Inside(c, sp) ==> Handled(log, s, c)
  }

  /** The warehouse and the dead-letter topic hold nothing that is not in the log. */
  ghost predicate NothingInvented(log: Log, s: State) {
    && (forall e :: e in s.rows ==> exists c :: c in log && log[c] == Good(e))
    && (forall l :: l in s.dlq ==> l.coord in log && (l.reason == Invalid <==> log[l.coord].Bad?))
  }
}
