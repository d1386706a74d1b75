/**
 The data the event sink moves: the source topic, the batches cut from it, and what a batch
 becomes on its way out (events to insert, dead letters, offset spans, offsets to commit).
 */
module EventLog {

  datatype TopicPartition = TopicPartition(topic: string, partition: int)

  /** The place of a record in the source topic. Offsets may have gaps. */
  datatype Coord = Coord(tp: TopicPartition, offset: nat)

  datatype Event = Event(id: string, kind: string, source: string, occurredAt: int, payload: string)

  /** The columns ClickHouse sorts by: rows that agree on them collapse into one. */
  datatype DedupKey = DedupKey(kind: string, occurredAt: int, id: string)

  function KeyOf(e: Event): DedupKey {
    DedupKey(e.kind, e.occurredAt, e.id)
  }

  /** Two events are one row exactly when they agree on the type, the instant and the id. */
  lemma SameKeyExactly(a: Event, b: Event)
    ensures KeyOf(a) == KeyOf(b) <==> a.kind == b.kind && a.occurredAt == b.occurredAt && a.id == b.id
  {
  }

  /** A record after decoding. */
  datatype Record = Good(event: Event) | Bad

  /** Everything that the producers write to the source topic during a run. */
  type Log = map<Coord, Record>

  datatype Reason = Invalid | InsertFailed

  datatype DeadLetter = DeadLetter(coord: Coord, reason: Reason)

  datatype Status = Inserted | DeadLettered

  datatype Span = Span(tp: TopicPartition, first: nat, last: nat, records: nat)

  datatype LedgerRow = LedgerRow(status: Status, records: nat, deadLettered: nat, spans: seq<Span>)

  predicate Inside(c: Coord, sp: Span) {
    c.tp == sp.tp && sp.first <= c.offset <= sp.last
  }

  // ---------- what a batch becomes ----------

  ghost predicate FromLog(log: Log, batch: seq<Coord>) {
    forall c :: c in batch ==> c in log
  }

  /** The events of the decodable records, in batch order. */
  function Events(log: Log, batch: seq<Coord>): seq<Event>
    requires FromLog(log, batch)
  {
    if batch == [] then [] else
      var c := batch[|batch| - 1];
      Events(log, batch[..|batch| - 1]) + (if log[c].Good? then [log[c].event] else [])
  }

  lemma {:induction false} EventsContents(log: Log, batch: seq<Coord>)
    requires FromLog(log, batch)
    ensures forall c :: c in batch && log[c].Good? ==> log[c].event in Events(log, batch)
    ensures forall e :: e in Events(log, batch) ==> exists c :: c in batch && log[c] == Good(e)
  {
    if batch != [] {
      var rest := batch[..|batch| - 1];
      assert batch == rest + [batch[|batch| - 1]];
      EventsContents(log, rest);
      forall e | e in Events(log, batch) ensures exists c :: c in batch && log[c] == Good(e) {
        if e in Events(log, rest) {
          var c :| c in rest && log[c] == Good(e);
          assert c in batch;
        } else {
          assert batch[|batch| - 1] in batch;
        }
      }
    }
  }

  lemma FromLogTogether(log: Log, a: seq<Coord>, b: seq<Coord>)
    requires FromLog(log, a) && FromLog(log, b)
    ensures FromLog(log, a + b)
  {
  }

  /** Each decodable record once, in the order of the batch. */
  lemma {:induction false} EventsInOrder(log: Log, a: seq<Coord>, b: seq<Coord>)
    requires FromLog(log, a) && FromLog(log, b)
    ensures FromLog(log, a + b) && Events(log, a + b) == Events(log, a) + Events(log, b)
    decreases |b|
  {
    FromLogTogether(log, a, b);
    hide FromLog;
    if b == [] {
      assert a + b == a;
    } else {
      var n := |b| - 1;
      LessIsFromLog(log, b);
      assert (a + b)[..|a + b| - 1] == a + b[..n] && (a + b)[|a + b| - 1] == b[n];
      EventsInOrder(log, a, b[..n]);
      assert Events(log, b) == Events(log, b[..n]) + (if log[b[n]].Good? then [log[b[n]].event] else []);
    }
  }

  lemma EventsOfOne(log: Log, c: Coord)
    requires c in log
    ensures Events(log, [c]) == if log[c].Good? then [log[c].event] else []
  {
    assert [c][..0] == [] && [c][0] == c;
  }

  lemma LessIsFromLog(log: Log, b: seq<Coord>)
    requires FromLog(log, b) && b != []
    ensures FromLog(log, b[..|b| - 1]) && b[|b| - 1] in log
  {
  }

  /** One letter, with the given reason, for each record that decodes (`good`) or does not. */
  function LettersFor(log: Log, batch: seq<Coord>, good: bool, reason: Reason): seq<DeadLetter>
    requires FromLog(log, batch)
  {
    if batch == [] then [] else
      var c := batch[|batch| - 1];
      LettersFor(log, batch[..|batch| - 1], good, reason) + (if log[c].Good? == good then [DeadLetter(c, reason)] else [])
  }

  lemma {:induction false} LettersForContents(log: Log, batch: seq<Coord>, good: bool, reason: Reason)
    requires FromLog(log, batch)
    ensures forall l :: l in LettersFor(log, batch, good, reason) <==>
              l.coord in batch && log[l.coord].Good? == good && l.reason == reason
  {
    if batch != [] {
      var rest := batch[..|batch| - 1];
      assert batch == rest + [batch[|batch| - 1]];
      LettersForContents(log, rest, good, reason);
    }
  }

  /** Each such record once, in the order of the batch. */
  lemma {:induction false} LettersInOrder(log: Log, a: seq<Coord>, b: seq<Coord>, good: bool, reason: Reason)
    requires FromLog(log, a) && FromLog(log, b)
    ensures FromLog(log, a + b)
    ensures LettersFor(log, a + b, good, reason) == LettersFor(log, a, good, reason) + LettersFor(log, b, good, reason)
    decreases |b|
  {
    FromLogTogether(log, a, b);
    hide FromLog;
    if b == [] {
      assert a + b == a;
    } else {
      var n := |b| - 1;
      LessIsFromLog(log, b);
      assert (a + b)[..|a + b| - 1] == a + b[..n] && (a + b)[|a + b| - 1] == b[n];
      LettersInOrder(log, a, b[..n], good, reason);
      assert LettersFor(log, b, good, reason)
          == LettersFor(log, b[..n], good, reason) + (if log[b[n]].Good? == good then [DeadLetter(b[n], reason)] else []);
    }
  }

  lemma LettersOfOne(log: Log, c: Coord, good: bool, reason: Reason)
    requires c in log
    ensures LettersFor(log, [c], good, reason) == if log[c].Good? == good then [DeadLetter(c, reason)] else []
  {
    assert [c][..0] == [] && [c][0] == c;
  }

  /** The undecodable records first, then, when the insert was given up, all the others. */
  function Letters(log: Log, batch: seq<Coord>, status: Status): seq<DeadLetter>
    requires FromLog(log, batch)
  {
    LettersFor(log, batch, false, Invalid) +
    (if status == DeadLettered then LettersFor(log, batch, true, InsertFailed) else [])
  }

  /** Exactly the letters that are due, and no event is both inserted and dead-lettered by one flush. */
  lemma LettersContents(log: Log, batch: seq<Coord>, status: Status)
    requires FromLog(log, batch)
    ensures forall l :: l in Letters(log, batch, status) <==>
              && l.coord in batch
              && if log[l.coord].Bad? then l.reason == Invalid else l.reason == InsertFailed && status == DeadLettered
  {
    LettersForContents(log, batch, false, Invalid);
    LettersForContents(log, batch, true, InsertFailed);
  }

  function PartitionsOf(batch: seq<Coord>): set<TopicPartition> {
    set c | c in batch :: c.tp
  }

  /** The offset committed for a partition: one past the highest offset of the batch. */
  function NextOffset(batch: seq<Coord>, tp: TopicPartition): (n: nat)
    ensures forall c :: c in batch && c.tp == tp ==> c.offset < n
    ensures n > 0 ==> Coord(tp, n - 1) in batch
  {
    if batch == [] then 0 else
      var rest := batch[..|batch| - 1];
      var c := batch[|batch| - 1];
      assert batch == rest + [c];
      var n := NextOffset(rest, tp);
      if c.tp == tp && c.offset + 1 > n then c.offset + 1 else n
  }

  // ---------- offset spans ----------

  function CountIn(batch: seq<Coord>, tp: TopicPartition): nat {
    if batch == [] then 0 else
      CountIn(batch[..|batch| - 1], tp) + (if batch[|batch| - 1].tp == tp then 1 else 0)
  }

  function TotalRecords(spans: seq<Span>): nat {
    if spans == [] then 0 else TotalRecords(spans[..|spans| - 1]) + spans[|spans| - 1].records
  }

  function SpannedPartitions(spans: seq<Span>): (tps: set<TopicPartition>)
    ensures forall tp :: tp in tps ==> exists i :: 0 <= i < |spans| && spans[i].tp == tp
  {
    if spans == [] then {} else SpannedPartitions(spans[..|spans| - 1]) + {spans[|spans| - 1].tp}
  }

  ghost predicate SpanOf(batch: seq<Coord>, sp: Span) {
    && Coord(sp.tp, sp.first) in batch
    && Coord(sp.tp, sp.last) in batch
    && (forall c :: c in batch && c.tp == sp.tp ==> Inside(c, sp))
    && sp.records == CountIn(batch, sp.tp)
  }

  ghost predicate OnePerPartition(spans: seq<Span>) {
    forall i, j :: 0 <= i < j < |spans| ==> spans[i].tp != spans[j].tp
  }

  /** One tight span per partition of the batch, and no other. */
  ghost predicate SpansOf(batch: seq<Coord>, spans: seq<Span>) {
    && (forall i :: 0 <= i < |spans| ==> SpanOf(batch, spans[i]))
    && OnePerPartition(spans)
    && (forall c :: c in batch ==> c.tp in SpannedPartitions(spans))
    && TotalRecords(spans) == |batch|
  }

  function Min(a: nat, b: nat): nat { if a < b then a else b }
  function Max(a: nat, b: nat): nat { if a < b then b else a }

  lemma {:induction false} TotalAfterUpdate(spans: seq<Span>, i: nat, sp: Span)
    requires i < |spans|
    ensures TotalRecords(spans[i := sp]) == TotalRecords(spans) - spans[i].records + sp.records
  {
    var n := |spans| - 1;
    var updated := spans[i := sp];
    if i < n {
      assert updated[..n] == spans[..n][i := sp];
      TotalAfterUpdate(spans[..n], i, sp);
    } else {
      assert updated[..n] == spans[..n];
    }
  }

  lemma {:induction false} PartitionsAfterUpdate(spans: seq<Span>, i: nat, sp: Span)
    requires i < |spans| && spans[i].tp == sp.tp
    ensures SpannedPartitions(spans[i := sp]) == SpannedPartitions(spans)
    ensures sp.tp in SpannedPartitions(spans)
  {
    var n := |spans| - 1;
    var updated := spans[i := sp];
    if i < n {
      assert updated[..n] == spans[..n][i := sp];
      PartitionsAfterUpdate(spans[..n], i, sp);
    } else {
      assert updated[..n] == spans[..n];
    }
  }

  lemma {:induction false} NoneCounted(batch: seq<Coord>, tp: TopicPartition)
    requires tp !in PartitionsOf(batch)
    ensures CountIn(batch, tp) == 0
  {
    if batch != [] {
      NoneCounted(batch[..|batch| - 1], tp);
    }
  }

  function Widen(sp: Span, offset: nat): Span {
    Span(sp.tp, Min(sp.first, offset), Max(sp.last, offset), sp.records + 1)
  }

  lemma SpanStays(batch: seq<Coord>, c: Coord, sp: Span)
    requires SpanOf(batch, sp)
    ensures SpanOf(batch + [c], if c.tp == sp.tp then Widen(sp, c.offset) else sp)
  {
    var b := batch + [c];
    assert b[..|b| - 1] == batch;
  }

  lemma SpanBorn(batch: seq<Coord>, c: Coord)
    requires c.tp !in PartitionsOf(batch)
    ensures SpanOf(batch + [c], Span(c.tp, c.offset, c.offset, 1))
  {
    var b := batch + [c];
    assert b[..|b| - 1] == batch;
    assert b[|batch|] == c;
    NoneCounted(batch, c.tp);
  }

  lemma SameCoverage(batch: seq<Coord>, c: Coord, spans: seq<Span>, i: nat, sp: Span)
    requires OnePerPartition(spans) && i < |spans| && spans[i].tp == sp.tp == c.tp
    requires forall d :: d in batch ==> d.tp in SpannedPartitions(spans)
    ensures OnePerPartition(spans[i := sp])
    ensures forall d :: d in batch + [c] ==> d.tp in SpannedPartitions(spans[i := sp])
  {
    PartitionsAfterUpdate(spans, i, sp);
  }

  lemma WidenOne(batch: seq<Coord>, c: Coord, spans: seq<Span>, i: nat)
    requires SpansOf(batch, spans)
    requires i < |spans| && spans[i].tp == c.tp
    ensures SpansOf(batch + [c], spans[i := Widen(spans[i], c.offset)])
  {
    var grown := spans[i := Widen(spans[i], c.offset)];
    TotalAfterUpdate(spans, i, Widen(spans[i], c.offset));
    SameCoverage(batch, c, spans, i, Widen(spans[i], c.offset));
    forall j | 0 <= j < |grown| ensures SpanOf(batch + [c], grown[j]) {
      SpanStays(batch, c, spans[j]);
    }
  }

  lemma AddOne(batch: seq<Coord>, c: Coord, spans: seq<Span>)
    requires SpansOf(batch, spans)
    requires forall j :: 0 <= j < |spans| ==> spans[j].tp != c.tp
    ensures SpansOf(batch + [c], spans + [Span(c.tp, c.offset, c.offset, 1)])
  {
    var grown := spans + [Span(c.tp, c.offset, c.offset, 1)];
    assert grown[..|grown| - 1] == spans;
    SpanBorn(batch, c);
    forall j | 0 <= j < |grown| ensures SpanOf(batch + [c], grown[j]) {
      if j < |spans| {
        SpanStays(batch, c, spans[j]);
      }
    }
  }

  method IndexOf(spans: seq<Span>, tp: TopicPartition) returns (i: nat)
    ensures i <= |spans|
    ensures i < |spans| ==> spans[i].tp == tp
    ensures forall j :: 0 <= j < i ==> spans[j].tp != tp
  {
    i := 0;
    while i < |spans| && spans[i].tp != tp
      invariant i <= |spans|
      invariant forall j :: 0 <= j < i ==> spans[j].tp != tp
    {
      i := i + 1;
    }
  }

  lemma NoSpans()
    ensures SpansOf([], [])
  {
  }

  method Partitions(records: seq<Coord>) returns (out: seq<Span>)
    ensures SpansOf(records, out)
  {
    NoSpans();
    hide SpansOf;
    out := [];
    for k := 0 to |records|
      invariant SpansOf(records[..k], out)
    {
      var r := records[k];
      var i := IndexOf(out, r.tp);
      if i < |out| {
        WidenOne(records[..k], r, out, i);
        out := out[i := Widen(out[i], r.offset)];
      } else {
        AddOne(records[..k], r, out);
        out := out + [Span(r.tp, r.offset, r.offset, 1)];
      }
      assert records[..k + 1] == records[..k] + [r];
    }
    assert records[..|records|] == records;
  }
}
