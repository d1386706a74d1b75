/**
 Safety of the event sink over every run: an inductive invariant of the protocol, and what it
 means for committed offsets, the ledger and the contents of the warehouse.
 */
module EventSinkSafety {
  import opened EventLog
  import opened EventSinkProtocol

  ghost predicate EventOk(log: Log, e: Event) {
    exists c :: c in log && log[c] == Good(e)
  }

  ghost predicate LetterOk(log: Log, l: DeadLetter) {
    l.coord in log && (l.reason == Invalid <==> log[l.coord].Bad?)
  }

  ghost predicate RowOk(log: Log, s: State, row: LedgerRow) {
    && row.records == TotalRecords(row.spans)
    && forall sp, c :: sp in row.spans && c in log && Inside(c, sp) ==> Handled(log, s, c)
  }

  /** Committing these offsets loses nothing. */
  ghost predicate CommitSafe(log: Log, s: State, records: seq<Coord>) {
    forall c :: c in log && c.offset < NextOffset(records, c.tp) ==> Settled(log, s, c)
  }

  ghost predicate RequestOk(log: Log, s: State, req: Request) {
    match req
    case Insert(events) => forall e :: e in events ==> EventOk(log, e)
    case Produce(letters) => forall l :: l in letters ==> LetterOk(log, l)
    case Note(row) => RowOk(log, s, row)
    case Commit(records) => CommitSafe(log, s, records)
  }

  ghost predicate AllHandled(log: Log, s: State, batch: seq<Coord>) {
    forall c :: c in batch ==> c in log && Handled(log, s, c)
  }

  ghost predicate PhaseOk(log: Log, s: State, x: Member) {
    match x.phase
    case Polling => true
    case Inserting(_) => x.held != []
    case Producing(status) =>
      && x.held != []
      && (status == Inserted ==> forall c :: c in x.held && c in log && log[c].Good? ==> log[c].event in s.rows)
    case Recording(_, _) => x.held != [] && AllHandled(log, s, x.held)
    case Committing => x.held != [] && forall c :: c in x.held ==> Settled(log, s, c)
  }

  ghost predicate MemberOk(cfg: Config, log: Log, s: State, x: Member) {
    && Lists(log, x.base, x.position, x.held)
    && (x.held != [] ==> |x.held| <= cfg.batchSize)
    && (forall c :: c in log && c.tp in x.base && c.offset < x.base[c.tp] ==> Settled(log, s, c))
    && PhaseOk(log, s, x)
  }

  ghost predicate Inv(cfg: Config, log: Log, s: State) {
    && (forall e :: e in s.rows ==> EventOk(log, e))
    && (forall l :: l in s.dlq ==> LetterOk(log, l))
    && (forall row :: row in s.ledger ==> RowOk(log, s, row))
    && (forall req :: req in s.issued ==> RequestOk(log, s, req))
    && CommittedIsSettled(log, s)
    && (forall m :: m in s.members ==> MemberOk(cfg, log, s, s.members[m]))
  }

  // ---------- nothing is ever taken back ----------

  ghost predicate Grows(s: State, t: State) {
    s.rows <= t.rows && s.dlq <= t.dlq && s.ledger <= t.ledger
  }

  lemma SettledStays(log: Log, s: State, t: State)
    requires Grows(s, t)
    ensures forall c :: c in log && Handled(log, s, c) ==> Handled(log, t, c)
    ensures forall c :: Settled(log, s, c) ==> Settled(log, t, c)
  {
    forall c | Settled(log, s, c) ensures Settled(log, t, c) {
      var row, sp :| row in s.ledger && sp in row.spans && Inside(c, sp);
      assert row in t.ledger;
    }
  }

  lemma RequestStays(log: Log, s: State, t: State, req: Request)
    requires Grows(s, t) && RequestOk(log, s, req)
    ensures RequestOk(log, t, req)
  {
    SettledStays(log, s, t);
  }

  lemma RowStays(log: Log, s: State, t: State, row: LedgerRow)
    requires Grows(s, t) && RowOk(log, s, row)
    ensures RowOk(log, t, row)
  {
    SettledStays(log, s, t);
  }

  lemma MemberStays(cfg: Config, log: Log, s: State, t: State, x: Member)
    requires Grows(s, t) && MemberOk(cfg, log, s, x)
    ensures MemberOk(cfg, log, t, x)
  {
    SettledStays(log, s, t);
  }

  lemma CommittedStays(log: Log, s: State, t: State)
    requires Grows(s, t) && CommittedIsSettled(log, s) && t.committed == s.committed
    ensures CommittedIsSettled(log, t)
  {
    SettledStays(log, s, t);
  }

  // ---------- the elementary effects a step is made of ----------

  lemma InvStays(cfg: Config, log: Log, s: State, t: State)
    requires Inv(cfg, log, s) && Grows(s, t)
    requires t.committed == s.committed && t.issued == s.issued && t.members == s.members
    requires forall e :: e in t.rows ==> EventOk(log, e)
    requires forall l :: l in t.dlq ==> LetterOk(log, l)
    requires forall row :: row in t.ledger && row !in s.ledger ==> RowOk(log, s, row)
    ensures Inv(cfg, log, t)
  {
    CommittedStays(log, s, t);
    forall row | row in t.ledger ensures RowOk(log, t, row) {
      RowStays(log, s, t, row);
    }
    forall req | req in t.issued ensures RequestOk(log, t, req) {
      RequestStays(log, s, t, req);
    }
    forall m | m in t.members ensures MemberOk(cfg, log, t, t.members[m]) {
      MemberStays(cfg, log, s, t, s.members[m]);
    }
  }

  lemma AddEvents(cfg: Config, log: Log, s: State, events: multiset<Event>, all: seq<Event>)
    requires Inv(cfg, log, s) && RequestOk(log, s, Insert(all)) && events <= multiset(all)
    ensures Inv(cfg, log, s.(rows := s.rows + events))
  {
    assert forall e :: e in events ==> e in multiset(all);
    InvStays(cfg, log, s, s.(rows := s.rows + events));
  }

  lemma AddLetters(cfg: Config, log: Log, s: State, letters: multiset<DeadLetter>, all: seq<DeadLetter>)
    requires Inv(cfg, log, s) && RequestOk(log, s, Produce(all)) && letters <= multiset(all)
    ensures Inv(cfg, log, s.(dlq := s.dlq + letters))
  {
    assert forall l :: l in letters ==> l in multiset(all);
    InvStays(cfg, log, s, s.(dlq := s.dlq + letters));
  }

  lemma AddRow(cfg: Config, log: Log, s: State, row: LedgerRow)
    requires Inv(cfg, log, s) && RowOk(log, s, row)
    ensures Inv(cfg, log, s.(ledger := s.ledger + multiset{row}))
  {
    InvStays(cfg, log, s, s.(ledger := s.ledger + multiset{row}));
  }

  lemma AddRequest(cfg: Config, log: Log, s: State, req: Request)
    requires Inv(cfg, log, s) && RequestOk(log, s, req)
    ensures Inv(cfg, log, Issue(s, req))
  {
    var t := Issue(s, req);
    RequestStays(log, s, t, req);
    CommittedStays(log, s, t);
    forall row | row in t.ledger ensures RowOk(log, t, row) {
      RowStays(log, s, t, row);
    }
    forall r | r in s.issued ensures RequestOk(log, t, r) {
      RequestStays(log, s, t, r);
    }
    forall m | m in t.members ensures MemberOk(cfg, log, t, t.members[m]) {
      MemberStays(cfg, log, s, t, s.members[m]);
    }
  }

  lemma AddCommit(cfg: Config, log: Log, s: State, records: seq<Coord>, tps: set<TopicPartition>)
    requires Inv(cfg, log, s) && RequestOk(log, s, Commit(records))
    ensures Inv(cfg, log, WithCommitted(s, records, tps))
  {
    hide RowOk, MemberOk, Handled, Ledgered, EventOk, LetterOk;
    var t := WithCommitted(s, records, tps);
    SettledStays(log, s, t);
    forall row | row in t.ledger ensures RowOk(log, t, row) {
      RowStays(log, s, t, row);
    }
    forall r | r in s.issued ensures RequestOk(log, t, r) {
      RequestStays(log, s, t, r);
    }
    forall m | m in t.members ensures MemberOk(cfg, log, t, t.members[m]) {
      MemberStays(cfg, log, s, t, s.members[m]);
    }
  }

  lemma SetMembers(cfg: Config, log: Log, s: State, members: map<nat, Member>)
    requires Inv(cfg, log, s)
    requires forall m :: m in members ==> MemberOk(cfg, log, s, members[m])
    ensures Inv(cfg, log, s.(members := members))
  {
    var t := s.(members := members);
    CommittedStays(log, s, t);
    forall row | row in t.ledger ensures RowOk(log, t, row) {
      RowStays(log, s, t, row);
    }
    forall r | r in t.issued ensures RequestOk(log, t, r) {
      RequestStays(log, s, t, r);
    }
    forall m | m in t.members ensures MemberOk(cfg, log, t, t.members[m]) {
      MemberStays(cfg, log, s, t, t.members[m]);
    }
  }

  lemma SetMember(cfg: Config, log: Log, s: State, m: nat, x: Member)
    requires Inv(cfg, log, s) && MemberOk(cfg, log, s, x)
    ensures Inv(cfg, log, s.(members := s.members[m := x]))
  {
    SetMembers(cfg, log, s, s.members[m := x]);
  }

  lemma SetPhase(cfg: Config, log: Log, s: State, m: nat, phase: Phase)
    requires Inv(cfg, log, s) && m in s.members && MemberOk(cfg, log, s, s.members[m].(phase := phase))
    ensures Inv(cfg, log, To(s, m, phase))
  {
    SetMember(cfg, log, s, m, s.members[m].(phase := phase));
  }

  lemma DropMember(cfg: Config, log: Log, s: State, m: nat)
    requires Inv(cfg, log, s)
    ensures Inv(cfg, log, Without(s, m))
  {
    SetMembers(cfg, log, s, s.members - {m});
  }

  // ---------- the processes ----------

  /** A fresh or rebalanced process starts at offsets below which everything is settled. */
  lemma FreshMember(cfg: Config, log: Log, s: State, position: map<TopicPartition, nat>)
    requires forall c :: c in log && c.tp in position && c.offset < position[c.tp] ==> Settled(log, s, c)
    ensures MemberOk(cfg, log, s, Member(position, position, [], Polling))
  {
  }

  lemma BelowPosition(cfg: Config, log: Log, s: State, x: Member)
    requires MemberOk(cfg, log, s, x) && forall c :: c in x.held ==> Settled(log, s, c)
    ensures forall c :: c in log && c.tp in x.position && c.offset < x.position[c.tp] ==> Settled(log, s, c)
    ensures CommitSafe(log, s, x.held)
  {
    forall c | c in log && c.tp in x.position && c.offset < x.position[c.tp] ensures Settled(log, s, c) {
      if c.offset >= x.base[c.tp] {
        assert Between(log, x.base, x.position, c);
      }
    }
    forall c | c in log && c.offset < NextOffset(x.held, c.tp) ensures Settled(log, s, c) {
      var d := Coord(c.tp, NextOffset(x.held, c.tp) - 1);
      assert d in x.held;
      assert Between(log, x.base, x.position, d);
    }
  }

  lemma PolledMember(cfg: Config, log: Log, s: State, x: Member, chunk: seq<Coord>, position: map<TopicPartition, nat>)
    requires MemberOk(cfg, log, s, x) && x.phase.Polling?
    requires Lists(log, x.position, position, chunk) && |x.held| + |chunk| <= cfg.batchSize
    ensures MemberOk(cfg, log, s, x.(position := position, held := x.held + chunk))
  {
    var held := x.held + chunk;
    assert forall c :: c in held <==> c in x.held || c in chunk;
    forall c ensures c in held <==> Between(log, x.base, position, c) {
      assert c in x.held <==> Between(log, x.base, x.position, c);
      assert c in chunk <==> Between(log, x.position, position, c);
    }
    forall i, j | 0 <= i < j < |held| ensures held[i] != held[j] {
      if i < |x.held| <= j {
        assert held[i] in x.held && held[j] in chunk;
        assert Between(log, x.base, x.position, held[i]) && Between(log, x.position, position, held[j]);
      } else if |x.held| <= i {
        assert held[i] == chunk[i - |x.held|] && held[j] == chunk[j - |x.held|];
      } else {
        assert held[i] == x.held[i] && held[j] == x.held[j];
      }
    }
  }

  /** The row of a batch covers exactly records of that batch, because a batch has no holes. */
  lemma RowCovers(cfg: Config, log: Log, s: State, x: Member, spans: seq<Span>, c: Coord)
    requires MemberOk(cfg, log, s, x) && SpansOf(x.held, spans) && c in log
    ensures c in x.held <==> exists sp :: sp in spans && Inside(c, sp)
  {
    if c in x.held {
      var i :| 0 <= i < |spans| && spans[i].tp == c.tp;
      assert SpanOf(x.held, spans[i]);
      assert spans[i] in spans && Inside(c, spans[i]);
    }
    if sp :| sp in spans && Inside(c, sp) {
      assert SpanOf(x.held, sp);
      assert Between(log, x.base, x.position, Coord(sp.tp, sp.first));
      assert Between(log, x.base, x.position, Coord(sp.tp, sp.last));
      assert Between(log, x.base, x.position, c);
    }
  }

  lemma BatchRowOk(cfg: Config, log: Log, s: State, x: Member, spans: seq<Span>)
    requires MemberOk(cfg, log, s, x) && x.phase.Recording? && SpansOf(x.held, spans) && FromLog(log, x.held)
    ensures RowOk(log, s, RowFor(log, x.held, x.phase.status, spans))
  {
    forall sp, c | sp in spans && c in log && Inside(c, sp) ensures Handled(log, s, c) {
      RowCovers(cfg, log, s, x, spans, c);
    }
  }

  lemma InsertRequestOk(log: Log, s: State, batch: seq<Coord>)
    requires FromLog(log, batch)
    ensures RequestOk(log, s, Insert(Events(log, batch)))
  {
    EventsContents(log, batch);
    forall e | e in Events(log, batch) ensures EventOk(log, e) {
      var c :| c in batch && log[c] == Good(e);
    }
  }

  lemma InsertedMember(cfg: Config, log: Log, s: State, x: Member)
    requires MemberOk(cfg, log, s, x) && x.phase.Inserting? && FromLog(log, x.held)
    requires forall c :: c in x.held && log[c].Good? ==> log[c].event in s.rows
    ensures Letters(log, x.held, Inserted) == [] ==> MemberOk(cfg, log, s, x.(phase := Recording(Inserted, 0)))
    ensures MemberOk(cfg, log, s, x.(phase := Producing(Inserted)))
  {
    if Letters(log, x.held, Inserted) == [] {
      LettersContents(log, x.held, Inserted);
      forall c | c in x.held ensures Handled(log, s, c) {
        assert DeadLetter(c, Invalid) !in Letters(log, x.held, Inserted);
      }
    }
  }

  lemma ProducedMember(cfg: Config, log: Log, s: State, x: Member)
    requires MemberOk(cfg, log, s, x) && x.phase.Producing? && FromLog(log, x.held)
    requires forall l :: l in Letters(log, x.held, x.phase.status) ==> l in s.dlq
    ensures MemberOk(cfg, log, s, x.(phase := Recording(x.phase.status, 0)))
  {
    LettersContents(log, x.held, x.phase.status);
    forall c | c in x.held ensures Handled(log, s, c) {
      var l := DeadLetter(c, if log[c].Good? then InsertFailed else Invalid);
      assert (log[c].Good? && x.phase.status == Inserted) || l in Letters(log, x.held, x.phase.status);
    }
  }

  lemma RecordedMember(cfg: Config, log: Log, s: State, x: Member, row: LedgerRow)
    requires MemberOk(cfg, log, s, x) && x.phase.Recording?
    requires SpansOf(x.held, row.spans) && row in s.ledger
    ensures MemberOk(cfg, log, s, x.(phase := Committing))
  {
    forall c | c in x.held ensures Settled(log, s, c) {
      RowCovers(cfg, log, s, x, row.spans, c);
    }
  }

  /** A batch whose commit was asked for is over, and its request is harmless at any time. */
  lemma BatchIsOver(cfg: Config, log: Log, s: State, x: Member)
    requires MemberOk(cfg, log, s, x) && x.phase.Committing?
    ensures MemberOk(cfg, log, s, NextBatch(x))
    ensures RequestOk(log, s, Commit(x.held))
  {
    BelowPosition(cfg, log, s, x);
    FreshMember(cfg, log, s, x.position);
  }

  // ---------- every step keeps the invariant ----------

  lemma StartStep(cfg: Config, log: Log, s: State, m: nat, position: map<TopicPartition, nat>)
    requires Inv(cfg, log, s) && Enabled(cfg, log, s, Start(m, position))
    ensures Inv(cfg, log, Apply(cfg, log, s, Start(m, position)))
  {
    FreshMember(cfg, log, s, position);
    SetMember(cfg, log, s, m, Member(position, position, [], Polling));
  }

  lemma RebalanceStep(cfg: Config, log: Log, s: State, m: nat, position: map<TopicPartition, nat>)
    requires Inv(cfg, log, s) && Enabled(cfg, log, s, Rebalance(m, position))
    ensures Inv(cfg, log, Apply(cfg, log, s, Rebalance(m, position)))
  {
    BelowPosition(cfg, log, s, s.members[m]);
    FreshMember(cfg, log, s, position);
    SetMember(cfg, log, s, m, Member(position, position, [], Polling));
  }

  lemma PollStep(cfg: Config, log: Log, s: State, m: nat, chunk: seq<Coord>, position: map<TopicPartition, nat>)
    requires Inv(cfg, log, s) && Enabled(cfg, log, s, Poll(m, chunk, position))
    ensures Inv(cfg, log, Apply(cfg, log, s, Poll(m, chunk, position)))
  {
    var x := s.members[m];
    PolledMember(cfg, log, s, x, chunk, position);
    SetMember(cfg, log, s, m, x.(position := position, held := x.held + chunk));
  }

  lemma InsertOkStep(cfg: Config, log: Log, s: State, m: nat)
    requires Inv(cfg, log, s) && Enabled(cfg, log, s, InsertOk(m))
    ensures Inv(cfg, log, Apply(cfg, log, s, InsertOk(m)))
  {
    var x := s.members[m];
    var es := Events(log, x.held);
    InsertRequestOk(log, s, x.held);
    AddRequest(cfg, log, s, Insert(es));
    EventsContents(log, x.held);
    var s1 := Issue(s, Insert(es));
    AddEvents(cfg, log, s1, multiset(es), es);
    var s2 := s1.(rows := s1.rows + multiset(es));
    assert forall e :: e in es ==> e in multiset(es);
    InsertedMember(cfg, log, s2, x);
    SetMember(cfg, log, s2, m, Apply(cfg, log, s, InsertOk(m)).members[m]);
  }

  lemma InsertFailStep(cfg: Config, log: Log, s: State, m: nat, failures: nat)
    requires Inv(cfg, log, s) && Enabled(cfg, log, s, InsertFail(m, failures))
    ensures Inv(cfg, log, Apply(cfg, log, s, InsertFail(m, failures)))
  {
    var x := s.members[m];
    InsertRequestOk(log, s, x.held);
    SetMember(cfg, log, s, m, Apply(cfg, log, s, InsertFail(m, failures)).members[m]);
    var s1 := s.(members := Apply(cfg, log, s, InsertFail(m, failures)).members);
    InsertRequestOk(log, s1, x.held);
    AddRequest(cfg, log, s1, Insert(Events(log, x.held)));
  }

  lemma ProduceOkStep(cfg: Config, log: Log, s: State, m: nat)
    requires Inv(cfg, log, s) && Enabled(cfg, log, s, ProduceOk(m))
    ensures Inv(cfg, log, Apply(cfg, log, s, ProduceOk(m)))
  {
    var x := s.members[m];
    var ls := Letters(log, x.held, x.phase.status);
    LettersContents(log, x.held, x.phase.status);
    AddRequest(cfg, log, s, Produce(ls));
    var s1 := Issue(s, Produce(ls));
    AddLetters(cfg, log, s1, multiset(ls), ls);
    var s2 := s1.(dlq := s1.dlq + multiset(ls));
    assert forall l :: l in ls ==> l in multiset(ls);
    ProducedMember(cfg, log, s2, x);
    SetMember(cfg, log, s2, m, x.(phase := Recording(x.phase.status, 0)));
  }

  lemma ProduceFailStep(cfg: Config, log: Log, s: State, m: nat)
    requires Inv(cfg, log, s) && Enabled(cfg, log, s, ProduceFail(m))
    ensures Inv(cfg, log, Apply(cfg, log, s, ProduceFail(m)))
  {
    var x := s.members[m];
    var req := Produce(Letters(log, x.held, x.phase.status));
    LettersContents(log, x.held, x.phase.status);
    AddRequest(cfg, log, s, req);
    DropMember(cfg, log, Issue(s, req), m);
  }

  lemma RecordOkStep(cfg: Config, log: Log, s: State, m: nat, spans: seq<Span>)
    requires Inv(cfg, log, s) && Enabled(cfg, log, s, RecordOk(m, spans))
    ensures Inv(cfg, log, Apply(cfg, log, s, RecordOk(m, spans)))
  {
    var x := s.members[m];
    var row := RowFor(log, x.held, x.phase.status, spans);
    BatchRowOk(cfg, log, s, x, spans);
    NoteRequestOk(cfg, log, s, m, spans);
    var s1 := Issue(s, Note(row));
    AddRow(cfg, log, s1, row);
    var s2 := s1.(ledger := s1.ledger + multiset{row});
    RecordedMember(cfg, log, s2, x, row);
    SetMember(cfg, log, s2, m, x.(phase := Committing));
  }

  lemma RecordFailStep(cfg: Config, log: Log, s: State, m: nat, spans: seq<Span>, failures: nat)
    requires Inv(cfg, log, s) && Enabled(cfg, log, s, RecordFail(m, spans, failures))
    ensures Inv(cfg, log, Apply(cfg, log, s, RecordFail(m, spans, failures)))
  {
    var x := s.members[m];
    NoteRequestOk(cfg, log, s, m, spans);
    SetPhase(cfg, log, Issue(s, Note(RowFor(log, x.held, x.phase.status, spans))), m, Recording(x.phase.status, failures));
  }

  lemma NoteRequestOk(cfg: Config, log: Log, s: State, m: nat, spans: seq<Span>)
    requires Inv(cfg, log, s) && In(s, log, m) && s.members[m].phase.Recording? && SpansOf(s.members[m].held, spans)
    ensures Inv(cfg, log, Issue(s, Note(RowFor(log, s.members[m].held, s.members[m].phase.status, spans))))
  {
    BatchRowOk(cfg, log, s, s.members[m], spans);
    AddRequest(cfg, log, s, Note(RowFor(log, s.members[m].held, s.members[m].phase.status, spans)));
  }

  lemma RecordGiveUpStep(cfg: Config, log: Log, s: State, m: nat, spans: seq<Span>)
    requires Inv(cfg, log, s) && Enabled(cfg, log, s, RecordGiveUp(m, spans))
    ensures Inv(cfg, log, Apply(cfg, log, s, RecordGiveUp(m, spans)))
  {
    var x := s.members[m];
    var req := Note(RowFor(log, x.held, x.phase.status, spans));
    NoteRequestOk(cfg, log, s, m, spans);
    DropMember(cfg, log, Issue(s, req), m);
  }

  lemma CommitStep(cfg: Config, log: Log, s: State, a: Action)
    requires Inv(cfg, log, s) && Enabled(cfg, log, s, a)
    requires a.CommitOk? || a.CommitFail?
    ensures Inv(cfg, log, Apply(cfg, log, s, a))
  {
    var x := s.members[a.m];
    var req := Commit(x.held);
    BatchIsOver(cfg, log, s, x);
    AddRequest(cfg, log, s, req);
    SetMember(cfg, log, Issue(s, req), a.m, NextBatch(x));
    if a.CommitOk? {
      AddCommit(cfg, log, Issue(s, req).(members := s.members[a.m := NextBatch(x)]), x.held, PartitionsOf(x.held));
    }
  }

  /** Anything that was ever asked for may land. */
  lemma LandStep(cfg: Config, log: Log, s: State, a: Action)
    requires Inv(cfg, log, s) && Enabled(cfg, log, s, a)
    requires a.LandEvents? || a.LandLetters? || a.LandRow? || a.LandCommit?
    ensures Inv(cfg, log, Apply(cfg, log, s, a))
  {
    match a {
      case LandEvents(req, events) => AddEvents(cfg, log, s, events, req.events);
      case LandLetters(req, letters) => AddLetters(cfg, log, s, letters, req.letters);
      case LandRow(req) => AddRow(cfg, log, s, req.row);
      case LandCommit(req, tps) => AddCommit(cfg, log, s, req.records, tps);
    }
  }

  lemma StepKeepsInv(cfg: Config, log: Log, s: State, a: Action)
    requires Inv(cfg, log, s) && Enabled(cfg, log, s, a)
    ensures Inv(cfg, log, Apply(cfg, log, s, a))
  {
    match a {
      case Start(m, position) => StartStep(cfg, log, s, m, position);
      case Crash(m) => DropMember(cfg, log, s, m);
      case Rebalance(m, position) => RebalanceStep(cfg, log, s, m, position);
      case Poll(m, chunk, position) => PollStep(cfg, log, s, m, chunk, position);
      case BeginFlush(m) => SetMember(cfg, log, s, m, s.members[m].(phase := Inserting(0)));
      case InsertOk(m) => InsertOkStep(cfg, log, s, m);
      case InsertFail(m, failures) => InsertFailStep(cfg, log, s, m, failures);
      case ProduceOk(m) => ProduceOkStep(cfg, log, s, m);
      case ProduceFail(m) => ProduceFailStep(cfg, log, s, m);
      case RecordOk(m, spans) => RecordOkStep(cfg, log, s, m, spans);
      case RecordFail(m, spans, failures) => RecordFailStep(cfg, log, s, m, spans, failures);
      case RecordGiveUp(m, spans) => RecordGiveUpStep(cfg, log, s, m, spans);
      case CommitOk(_) => CommitStep(cfg, log, s, a);
      case CommitFail(_) => CommitStep(cfg, log, s, a);
      case LandEvents(_, _) => LandStep(cfg, log, s, a);
      case LandLetters(_, _) => LandStep(cfg, log, s, a);
      case LandRow(_) => LandStep(cfg, log, s, a);
      case LandCommit(_, _) => LandStep(cfg, log, s, a);
    }
  }

  lemma {:induction false} RunKeepsInv(cfg: Config, log: Log, run: seq<State>, k: nat)
    requires IsRun(cfg, log, run) && k < |run|
    ensures Inv(cfg, log, run[k])
  {
    if k > 0 {
      RunKeepsInv(cfg, log, run, k - 1);
      assert Next(cfg, log, run[k - 1], run[k]);
      var a :| Enabled(cfg, log, run[k - 1], a) && run[k] == Apply(cfg, log, run[k - 1], a);
      StepKeepsInv(cfg, log, run[k - 1], a);
    }
  }

  // ---------- theorems ----------

  /** At-least-once: in every state of every run, every record below a committed offset was
      inserted or dead-lettered and is covered by a ledger row; no ledger row covers a record that
      was not handled; and nothing was made up on the way. */
  lemma AtLeastOnce(cfg: Config, log: Log, run: seq<State>, k: nat)
    requires IsRun(cfg, log, run) && k < |run|
    ensures CommittedIsSettled(log, run[k])
    ensures LedgerIsTrue(log, run[k])
    ensures NothingInvented(log, run[k])
    ensures forall row :: row in run[k].ledger ==> row.records == TotalRecords(row.spans)
  {
    RunKeepsInv(cfg, log, run, k);
    var s := run[k];
    forall row, sp, c | row in s.ledger && sp in row.spans && c in log && Inside(c, sp) ensures Handled(log, s, c) {
      assert RowOk(log, s, row);
    }
    forall e | e in s.rows ensures exists c :: c in log && log[c] == Good(e) {
      assert EventOk(log, e);
    }
    forall l | l in s.dlq ensures l.coord in log && (l.reason == Invalid <==> log[l.coord].Bad?) {
      assert LetterOk(log, l);
    }
  }

  /** What a query with FINAL sees: one row per key. */
  ghost function Keys(s: State): set<DedupKey> {
    set e | e in s.rows :: KeyOf(e)
  }

  ghost function GoodKeys(log: Log): set<DedupKey> {
    set c | c in log && log[c].Good? :: KeyOf(log[c].event)
  }

  /** The keys of the records that were given up after their insert kept failing. */
  ghost function GivenUpKeys(log: Log, s: State): set<DedupKey> {
    set l | l in s.dlq && l.reason == InsertFailed && l.coord in log && log[l.coord].Good? :: KeyOf(log[l.coord].event)
  }

  lemma KeysAreGood(log: Log, s: State)
    requires NothingInvented(log, s)
    ensures Keys(s) <= GoodKeys(log)
  {
    forall key | key in Keys(s) ensures key in GoodKeys(log) {
      var e :| e in s.rows && KeyOf(e) == key;
      var c :| c in log && log[c] == Good(e);
    }
  }

  lemma GoodKeysArrive(log: Log, s: State)
    requires forall c :: c in log ==> Handled(log, s, c)
    ensures GoodKeys(log) <= Keys(s) + GivenUpKeys(log, s)
  {
    forall c | c in log && log[c].Good? ensures KeyOf(log[c].event) in Keys(s) + GivenUpKeys(log, s) {
      if log[c].event !in s.rows {
        var l := DeadLetter(c, InsertFailed);
        assert l in s.dlq && l.coord in log;
      }
    }
  }

  /** Replay confluence: once the commits cover the log, the warehouse and the given-up records
      together hold exactly the keys of the valid records, whatever happened on the way; with
      nothing given up, the warehouse alone does. */
  lemma ReplayConfluence(cfg: Config, log: Log, run: seq<State>, k: nat)
    requires IsRun(cfg, log, run) && k < |run|
    requires forall c :: c in log ==> c.offset < Committed(run[k], c.tp)
    ensures Keys(run[k]) + GivenUpKeys(log, run[k]) == GoodKeys(log)
    ensures (forall l :: l in run[k].dlq ==> l.reason == Invalid) ==> Keys(run[k]) == GoodKeys(log)
    ensures (forall l :: l in run[k].dlq ==> l.reason == Invalid) ==>
              forall c :: c in log && log[c].Good? ==> Represented(run[k], log[c].event)
  {
    hide Keys, GoodKeys, GivenUpKeys, CommittedIsSettled, NothingInvented, LedgerIsTrue, Represented;
    AtLeastOnce(cfg, log, run, k);
    Confluence(log, run[k]);
    if forall l :: l in run[k].dlq ==> l.reason == Invalid {
      AllRepresented(log, run[k]);
    }
  }

  lemma AllRepresented(log: Log, s: State)
    requires CommittedIsSettled(log, s) && forall c :: c in log ==> c.offset < Committed(s, c.tp)
    requires forall l :: l in s.dlq ==> l.reason == Invalid
    ensures forall c :: c in log && log[c].Good? ==> Represented(s, log[c].event)
  {
    forall c | c in log && log[c].Good? ensures Represented(s, log[c].event) {
      assert Settled(log, s, c);
    }
  }

  /** Some row agrees with the event on all columns by which ClickHouse collapses rows. */
  ghost predicate Represented(s: State, e: Event) {
    exists row :: row in s.rows && row.kind == e.kind && row.occurredAt == e.occurredAt && row.id == e.id
  }

  lemma Confluence(log: Log, s: State)
    requires NothingInvented(log, s) && CommittedIsSettled(log, s)
    requires forall c :: c in log ==> c.offset < Committed(s, c.tp)
    ensures Keys(s) + GivenUpKeys(log, s) == GoodKeys(log)
    ensures (forall l :: l in s.dlq ==> l.reason == Invalid) ==> Keys(s) == GoodKeys(log)
  {
    KeysAreGood(log, s);
    forall c | c in log ensures Handled(log, s, c) {
      assert Settled(log, s, c);
    }
    GoodKeysArrive(log, s);
    if forall l :: l in s.dlq ==> l.reason == Invalid {
      assert GivenUpKeys(log, s) == {};
    }
  }
}
