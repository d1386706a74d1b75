/**
 The webhook worker pool: request handlers that track and push deliveries, the bounded queue, the
 dispatcher with its limited workers, the results channel and the recorder, in any interleaving.
 */
module WorkerPool {
  import opened Basics

  type Id = string

  datatype Config = Config(queueSize: nat, workers: nat, maxAttempts: int)

  datatype Status = Queued | Delivered | Failed | Canceled

  datatype Result = Result(id: Id, status: Status, attempts: int)

  datatype Record = Record(status: Status, attempts: int, updatedAt: int)

  /** `tracked` and `rejected` are the handlers between Track, Push and Forget; `held` is the task
      the dispatcher took while no worker was free. */
  datatype State = State(
    used: set<Id>,
    tracked: set<Id>,
    rejected: set<Id>,
    accepted: set<Id>,
    pushed: seq<Id>,
    taken: seq<Id>,
    queue: seq<Id>,
    closed: bool,
    held: Option<Id>,
    flying: set<Id>,
    results: seq<Result>,
    poolDone: bool,
    applied: seq<Result>,
    appliedAt: seq<int>,
    stopped: bool,
    records: map<Id, Record>)

  const Initial := State({}, {}, {}, {}, [], [], [], false, None, {}, [], false, [], [], false, map[])

  datatype Action =
    | Track(id: Id, now: int)
    | Push(id: Id)
    | Forget(id: Id)
    | Close
    | Take
    | Start
    | Finish(result: Result, script: Script, requests: nat)
    | CloseResults
    | Write(now: int)
    | Evict(cutoff: int)
    | Stop

  function Tracked(records: map<Id, Record>, id: Id, now: int): map<Id, Record> {
    records[id := Record(Queued, 0, now)]
  }

  /** A result for a record that is gone is ignored. */
  function Written(records: map<Id, Record>, r: Result, now: int): map<Id, Record> {
    if r.id in records then records[r.id := Record(r.status, r.attempts, now)] else records
  }

  function Kept(records: map<Id, Record>, cutoff: int): map<Id, Record> {
    map id | id in records && !(records[id].status != Queued && records[id].updatedAt < cutoff) :: records[id]
  }

  // ---------- what a delivery reports ----------

  /** What the target answers to one request. */
  datatype Answer = Ok | Transient | Permanent

  /** What happens to a delivery: whether the context is done at the start, the answer to the n-th
      request (from 1), whether the context is done after it, and whether it cuts the wait behind it. */
  datatype Script = Script(start: bool, answer: nat -> Answer, after: nat -> bool, cut: nat -> bool)

  /** The most requests that one delivery may make. */
  function Most(cfg: Config): nat {
    if cfg.maxAttempts < 0 then 0 else cfg.maxAttempts
  }

  /** After the n-th request there is another one. */
  predicate GoesOn(cfg: Config, script: Script, n: nat) {
    script.answer(n) == Transient && !script.after(n) && n < cfg.maxAttempts && !script.cut(n)
  }

  /** The report about a delivery that made n requests: what Deliver promises, and all that a Finish
      step demands. */
  ghost predicate Reports(cfg: Config, script: Script, r: Result, n: nat) {
    && n <= Most(cfg) && (forall j :: 1 <= j < n ==> GoesOn(cfg, script, j))
    && if script.start then n == 0 && r.status == Canceled && r.attempts == 0
       else if Most(cfg) == 0 then n == 0 && r.status == Failed && r.attempts == cfg.maxAttempts
       else
         && n > 0 && r.attempts == n && !GoesOn(cfg, script, n)
         && r.status ==
              if script.answer(n) == Ok then Delivered
              else if script.after(n) then Canceled
              else if script.answer(n) == Permanent || n == cfg.maxAttempts then Failed
              else Canceled
  }

  /** Some delivery can report this. */
  ghost predicate Outcome(cfg: Config, r: Result) {
    exists script, n :: Reports(cfg, script, r, n)
  }

  ghost predicate Enabled(cfg: Config, s: State, a: Action) {
    match a
    case Track(id, _) => id !in s.used
    case Push(id) => id in s.tracked
    case Forget(id) => id in s.rejected
    case Close => true
    case Take => s.queue != [] && s.held == None
    case Start => s.held.Some? && |s.flying| < cfg.workers
    case Finish(r, script, n) => r.id in s.flying && |s.results| < cfg.workers && Reports(cfg, script, r, n)
    case CloseResults => s.closed && s.queue == [] && s.held == None && s.flying == {} && !s.poolDone
    case Write(_) => s.results != [] && !s.stopped
    case Evict(_) => !s.stopped
    case Stop => s.poolDone && s.results == [] && !s.stopped
  }

  ghost function Apply(cfg: Config, s: State, a: Action): State
    requires Enabled(cfg, s, a)
  {
    match a
    case Track(id, now) =>
      s.(used := s.used + {id}, tracked := s.tracked + {id}, records := Tracked(s.records, id, now))
    case Push(id) =>
      if s.closed || |s.queue| >= cfg.queueSize then s.(tracked := s.tracked - {id}, rejected := s.rejected + {id})
      else s.(tracked := s.tracked - {id}, accepted := s.accepted + {id}, queue := s.queue + [id], pushed := s.pushed + [id])
    case Forget(id) => s.(rejected := s.rejected - {id}, records := s.records - {id})
    case Close => s.(closed := true)
    case Take => s.(queue := s.queue[1..], held := Some(s.queue[0]), taken := s.taken + [s.queue[0]])
    case Start => s.(held := None, flying := s.flying + {s.held.value})
    case Finish(r, _, _) => s.(flying := s.flying - {r.id}, results := s.results + [r])
    case CloseResults => s.(poolDone := true)
    case Write(now) =>
      var r := s.results[0];
      s.(results := s.results[1..], applied := s.applied + [r], appliedAt := s.appliedAt + [now],
         records := Written(s.records, r, now))
    case Evict(cutoff) => s.(records := Kept(s.records, cutoff))
    case Stop => s.(stopped := true)
  }

  ghost function Run(cfg: Config, actions: seq<Action>): State {
    if actions == [] then Initial
    else
      var s := Run(cfg, actions[..|actions| - 1]);
      var a := actions[|actions| - 1];
      if Enabled(cfg, s, a) then Apply(cfg, s, a) else s
  }

  // ---------- where a delivery is ----------

  function InQueue(q: seq<Id>, id: Id): nat {
    if q == [] then 0 else (if q[0] == id then 1 else 0) + InQueue(q[1..], id)
  }

  function InResults(rs: seq<Result>, id: Id): nat {
    if rs == [] then 0 else (if rs[0].id == id then 1 else 0) + InResults(rs[1..], id)
  }

  /** The number of places where the delivery is. */
  function Places(s: State, id: Id): nat {
    InQueue(s.queue, id) + (if s.held == Some(id) then 1 else 0) + (if id in s.flying then 1 else 0)
    + InResults(s.results, id) + InResults(s.applied, id)
  }

  lemma {:induction false} QueueEnd(q: seq<Id>, last: Id, id: Id)
    ensures InQueue(q + [last], id) == InQueue(q, id) + if last == id then 1 else 0
  {
    if q == [] {
      assert q + [last] == [last];
    } else {
      QueueEnd(q[1..], last, id);
      assert (q + [last])[1..] == q[1..] + [last] && (q + [last])[0] == q[0];
    }
  }

  lemma {:induction false} ResultsEnd(rs: seq<Result>, last: Result, id: Id)
    ensures InResults(rs + [last], id) == InResults(rs, id) + if last.id == id then 1 else 0
  {
    if rs == [] {
      assert rs + [last] == [last];
    } else {
      ResultsEnd(rs[1..], last, id);
      assert (rs + [last])[1..] == rs[1..] + [last] && (rs + [last])[0] == rs[0];
    }
  }

  lemma {:induction false} ResultsMember(rs: seq<Result>, id: Id)
    ensures InResults(rs, id) > 0 <==> exists i :: 0 <= i < |rs| && rs[i].id == id
  {
    if rs != [] {
      ResultsMember(rs[1..], id);
      if i :| 0 <= i < |rs| && rs[i].id == id {
        assert i > 0 ==> rs[1..][i - 1] == rs[i];
      }
      if rs[0].id != id && InResults(rs[1..], id) > 0 {
        var i :| 0 <= i < |rs[1..]| && rs[1..][i].id == id;
        assert rs[i + 1].id == id;
      }
    }
  }

  // ---------- what every step keeps ----------

  ghost predicate InvId(s: State, id: Id) {
    && (id in s.tracked ==> id in s.used && id !in s.rejected && id !in s.accepted)
    && (id in s.rejected ==> id in s.used && id !in s.accepted)
    && (id in s.accepted ==> id in s.used)
    && Places(s, id) == (if id in s.accepted then 1 else 0)
    && (id in s.tracked || id in s.rejected || (id in s.accepted && InResults(s.applied, id) == 0) ==>
          id in s.records && s.records[id].status == Queued)
    && (id in s.records ==> id in s.tracked || id in s.rejected || id in s.accepted)
    && |s.appliedAt| == |s.applied|
    && (forall i :: 0 <= i < |s.applied| && s.applied[i].id == id && id in s.records ==>
          Shows(s.records[id], s.applied[i], s.appliedAt[i]))
  }

  /** The record shows the result, as of that instant. */
  predicate Shows(record: Record, r: Result, at: int) {
    record.status == r.status && record.attempts == r.attempts && record.updatedAt == at
  }

  ghost predicate Inv(cfg: Config, s: State) {
    && |s.flying| <= cfg.workers
    && |s.results| <= cfg.workers
    && |s.queue| <= cfg.queueSize
    && s.pushed == s.taken + s.queue
    && (s.poolDone ==> s.closed && s.queue == [] && s.held == None && s.flying == {})
    && (s.stopped ==> s.poolDone && s.results == [])
    && (forall i :: 0 <= i < |s.results| ==> Outcome(cfg, s.results[i]))
    && (forall i :: 0 <= i < |s.applied| ==> Outcome(cfg, s.applied[i]))
  }

  lemma StepKeepsInv(cfg: Config, s: State, a: Action)
    requires Inv(cfg, s) && Enabled(cfg, s, a)
    ensures Inv(cfg, Apply(cfg, s, a))
  {
    hide Reports, Outcome;
    if a.Finish? {
      FinishIsOutcome(cfg, s, a);
    }
    if a.Take? {
      assert s.taken + s.queue == s.taken + [s.queue[0]] + s.queue[1..];
    }
    if a.Push? {
      assert s.taken + s.queue + [a.id] == s.taken + (s.queue + [a.id]);
    }
  }

  lemma OutcomeAttempts(cfg: Config, r: Result)
    requires Outcome(cfg, r)
    ensures r.attempts <= Most(cfg) && r.status != Queued
  {
    var script, n :| Reports(cfg, script, r, n);
  }

  lemma FinishIsOutcome(cfg: Config, s: State, a: Action)
    requires Enabled(cfg, s, a) && a.Finish?
    ensures Outcome(cfg, a.result)
  {
    assert Reports(cfg, a.script, a.result, a.requests);
  }

  lemma TrackKeepsId(cfg: Config, s: State, k: Id, now: int, id: Id)
    requires InvId(s, id) && Enabled(cfg, s, Track(k, now))
    ensures InvId(Apply(cfg, s, Track(k, now)), id)
  {
    hide InQueue, InResults;
    ResultsMember(s.applied, id);
  }

  lemma PushKeepsId(cfg: Config, s: State, k: Id, id: Id)
    requires InvId(s, id) && Enabled(cfg, s, Push(k))
    ensures InvId(Apply(cfg, s, Push(k)), id)
  {
    hide InQueue, InResults;
    QueueEnd(s.queue, k, id);
  }

  lemma TakeKeepsId(cfg: Config, s: State, id: Id)
    requires InvId(s, id) && Enabled(cfg, s, Take)
    ensures InvId(Apply(cfg, s, Take), id)
  {
    hide InResults;
  }

  lemma FinishKeepsId(cfg: Config, s: State, a: Action, id: Id)
    requires InvId(s, id) && Enabled(cfg, s, a) && a.Finish?
    ensures InvId(Apply(cfg, s, a), id)
  {
    hide InQueue, InResults, Reports;
    ResultsEnd(s.results, a.result, id);
  }

  lemma WriteKeepsId(cfg: Config, s: State, now: int, id: Id)
    requires InvId(s, id) && Enabled(cfg, s, Write(now))
    ensures InvId(Apply(cfg, s, Write(now)), id)
  {
    hide InQueue;
    ResultsEnd(s.applied, s.results[0], id);
    ResultsMember(s.applied, id);
  }

  lemma StepKeepsId(cfg: Config, s: State, a: Action, id: Id)
    requires InvId(s, id) && Enabled(cfg, s, a)
    ensures InvId(Apply(cfg, s, a), id)
  {
    hide InQueue, InResults;
    match a {
      case Track(k, now) => TrackKeepsId(cfg, s, k, now, id);
      case Push(k) => PushKeepsId(cfg, s, k, id);
      case Forget(_) =>
      case Close =>
      case Take => TakeKeepsId(cfg, s, id);
      case Start =>
      case Finish(_, _, _) => FinishKeepsId(cfg, s, a, id);
      case CloseResults =>
      case Write(now) => WriteKeepsId(cfg, s, now, id);
      case Evict(_) =>
      case Stop =>
    }
  }

  lemma {:induction false} RunKeeps(cfg: Config, actions: seq<Action>, id: Id)
    ensures Inv(cfg, Run(cfg, actions)) && InvId(Run(cfg, actions), id)
  {
    if actions != [] {
      RunKeeps(cfg, actions[..|actions| - 1], id);
      var s := Run(cfg, actions[..|actions| - 1]);
      var a := actions[|actions| - 1];
      if Enabled(cfg, s, a) {
        StepKeepsInv(cfg, s, a);
        StepKeepsId(cfg, s, a, id);
      }
    }
  }

  // ---------- theorems ----------

  /** In every interleaving: an accepted delivery is in exactly one place, anything else in none;
      until its result is recorded its record exists and reads queued; and at most `workers`
      deliveries are in flight. */
  lemma ExactlyOnePlace(cfg: Config, actions: seq<Action>, id: Id)
    ensures
      var s := Run(cfg, actions);
      && Places(s, id) == (if id in s.accepted then 1 else 0)
      && (id in s.accepted && InResults(s.applied, id) == 0 ==> id in s.records && s.records[id].status == Queued)
      && |s.flying| <= cfg.workers
  {
    RunKeeps(cfg, actions, id);
  }

  /** When the recorder stops, every accepted delivery got exactly one result, with at most
      `maxAttempts` attempts, and none is queued or in flight. */
  lemma StoppedMeansDone(cfg: Config, actions: seq<Action>, id: Id)
    ensures
      var s := Run(cfg, actions);
      s.stopped && id in s.accepted ==>
        && InResults(s.applied, id) == 1
        && (exists i :: 0 <= i < |s.applied| && s.applied[i].id == id)
        && (forall i :: 0 <= i < |s.applied| ==> Outcome(cfg, s.applied[i]) && s.applied[i].attempts <= Most(cfg) && s.applied[i].status != Queued)
        && id !in s.flying && id !in s.queue && s.held == None
  {
    RunKeeps(cfg, actions, id);
    var s := Run(cfg, actions);
    if s.stopped && id in s.accepted {
      assert InQueue([], id) == 0 && InResults([], id) == 0;
      ResultsMember(s.applied, id);
      forall i | 0 <= i < |s.applied| ensures s.applied[i].attempts <= Most(cfg) && s.applied[i].status != Queued {
        OutcomeAttempts(cfg, s.applied[i]);
      }
    }
  }

  /** A delivery that is not accepted yet is nowhere and reads queued; one that was refused and
      forgotten has no record; and once a result is recorded, the record shows it until it is evicted. */
  lemma RecordsFollow(cfg: Config, actions: seq<Action>, id: Id)
    ensures
      var s := Run(cfg, actions);
      && (id in s.tracked || id in s.rejected ==> Places(s, id) == 0 && id in s.records && s.records[id].status == Queued)
      && (id in s.records ==> id in s.tracked || id in s.rejected || id in s.accepted)
      && |s.appliedAt| == |s.applied|
      && (forall i :: 0 <= i < |s.applied| && s.applied[i].id == id && id in s.records ==>
            Shows(s.records[id], s.applied[i], s.appliedAt[i]))
  {
    RunKeeps(cfg, actions, id);
  }

  /** In every interleaving: deliveries are taken from the queue in the order in which they were pushed,
      the queue never holds more than its size, and a delivery is refused exactly when the queue is
      closed or full. */
  lemma FirstInFirstOut(cfg: Config, actions: seq<Action>, id: Id)
    ensures
      var s := Run(cfg, actions);
      && s.pushed == s.taken + s.queue && |s.queue| <= cfg.queueSize
      && (Enabled(cfg, s, Push(id)) ==>
            var t := Apply(cfg, s, Push(id));
            if s.closed || |s.queue| == cfg.queueSize then id in t.rejected && t.queue == s.queue && t.accepted == s.accepted
            else id in t.accepted && t.queue == s.queue + [id] && t.rejected == s.rejected)
  {
    RunKeeps(cfg, actions, id);
  }

  ghost predicate ForgetsNothing(actions: seq<Action>, at: int) {
    forall i :: 0 <= i < |actions| && actions[i].Evict? ==> actions[i].cutoff <= at
  }

  lemma RememberedStep(cfg: Config, s: State, a: Action, id: Id, r: Result, at: int)
    requires InvId(s, id) && Enabled(cfg, s, a) && InResults(s.applied, id) > 0 && id in s.accepted
    requires id in s.records && Shows(s.records[id], r, at) && (a.Evict? ==> a.cutoff <= at)
    ensures
      var t := Apply(cfg, s, a);
      InResults(t.applied, id) > 0 && id in t.accepted && id in t.records && Shows(t.records[id], r, at)
  {
    hide InQueue, Reports;
    if a.Write? {
      ResultsEnd(s.applied, s.results[0], id);
      ResultsMember(s.results, id);
    }
  }

  /** The steps after a state. */
  ghost function RunFrom(cfg: Config, s: State, actions: seq<Action>): State {
    if actions == [] then s
    else
      var t := RunFrom(cfg, s, actions[..|actions| - 1]);
      var a := actions[|actions| - 1];
      if Enabled(cfg, t, a) then Apply(cfg, t, a) else t
  }

  /** A result that was applied at some instant can be read, with that instant, for as long as nothing is
      evicted with a later cutoff, whatever else happens. */
  lemma {:induction false} ResultsAreRetained(cfg: Config, s: State, actions: seq<Action>, id: Id, r: Result, at: int)
    requires InvId(s, id) && id in s.accepted && InResults(s.applied, id) > 0
    requires id in s.records && Shows(s.records[id], r, at) && ForgetsNothing(actions, at)
    ensures
      var t := RunFrom(cfg, s, actions);
      InvId(t, id) && InResults(t.applied, id) > 0 && id in t.accepted && id in t.records && Shows(t.records[id], r, at)
  {
    hide InvId, Apply, Enabled, InResults;
    if actions != [] {
      var n := |actions| - 1;
      ResultsAreRetained(cfg, s, actions[..n], id, r, at);
      var t := RunFrom(cfg, s, actions[..n]);
      if Enabled(cfg, t, actions[n]) {
        RememberedStep(cfg, t, actions[n], id, r, at);
        StepKeepsId(cfg, t, actions[n], id);
      }
    }
  }

  lemma CloseStep(cfg: Config, s: State, a: Action)
    requires Enabled(cfg, s, a) && s.closed
    ensures Apply(cfg, s, a).closed && Apply(cfg, s, a).accepted == s.accepted && Apply(cfg, s, a).pushed == s.pushed
  {
    hide Reports;
  }

  /** Once the queue is closed nothing is accepted any more, whatever happens. */
  lemma {:induction false} ClosedForGood(cfg: Config, s: State, actions: seq<Action>)
    ensures
      var closed := Apply(cfg, s, Close);
      var t := RunFrom(cfg, closed, actions);
      t.closed && t.accepted == s.accepted && t.pushed == s.pushed
  {
    hide Enabled, Apply;
    if actions == [] {
      CloseCloses(cfg, s);
    } else {
      var n := |actions| - 1;
      ClosedForGood(cfg, s, actions[..n]);
      CloseCloses(cfg, s);
      var t := RunFrom(cfg, Apply(cfg, s, Close), actions[..n]);
      if Enabled(cfg, t, actions[n]) {
        CloseStep(cfg, t, actions[n]);
      }
    }
  }

  lemma CloseCloses(cfg: Config, s: State)
    ensures Enabled(cfg, s, Close) && Apply(cfg, s, Close) == s.(closed := true)
  {
  }

  /** What is left to do once the queue is closed. */
  ghost function Left(s: State): nat {
    4 * |s.queue| + (if s.held.Some? then 3 else 0) + 2 * |s.flying| + |s.results| + (if s.poolDone then 0 else 1) + if s.stopped then 0 else 1
  }

  predicate Works(a: Action) {
    a.Take? || a.Start? || a.Finish? || a.CloseResults? || a.Write? || a.Stop?
  }

  /** Shutting down gets to its end: with a worker at least, the pool or the recorder can always take a
      step, and each of their steps leaves less to do. */
  lemma ShutdownTerminates(cfg: Config, s: State, a: Action) returns (next: Action)
    requires Inv(cfg, s) && s.closed && !s.stopped && cfg.workers > 0
    requires s.held.Some? ==> InvId(s, s.held.value)
    ensures Works(next) && Enabled(cfg, s, next)
    ensures Works(a) && Enabled(cfg, s, a) ==> Left(Apply(cfg, s, a)) < Left(s)
  {
    if s.results != [] {
      next := Write(0);
    } else if s.held.Some? && |s.flying| < cfg.workers {
      next := Start;
    } else if s.flying != {} {
      var id :| id in s.flying;
      var script := Script(true, _ => Ok, _ => false, _ => false);
      assert Reports(cfg, script, Result(id, Canceled, 0), 0);
      next := Finish(Result(id, Canceled, 0), script, 0);
    } else if s.queue != [] {
      next := Take;
    } else if !s.poolDone {
      next := CloseResults;
    } else {
      next := Stop;
    }
  }

  // ---------- the queue and the recorder, updated in place ----------

  datatype Refusal = QueueFull | QueueClosed

  class Queue {
    const size: nat
    var closed: bool
    var tasks: seq<Id>

    constructor (size: nat)
      ensures this.size == size && !closed && tasks == []
    {
      this.size, closed, tasks := size, false, [];
    }

    method Push(id: Id) returns (err: Option<Refusal>)
      modifies this
      ensures closed == old(closed)
      ensures err == if old(closed) then Some(QueueClosed) else if |old(tasks)| >= size then Some(QueueFull) else None
      ensures tasks == if err == None then old(tasks) + [id] else old(tasks)
    {
      if closed {
        return Some(QueueClosed);
      }
      if |tasks| < size {
        tasks := tasks + [id];
        return None;
      }
      return Some(QueueFull);
    }

    method Close()
      modifies this
      ensures closed && tasks == old(tasks)
    {
      if closed {
        return;
      }
      closed := true;
    }
  }

  class Recorder {
    var records: map<Id, Record>

    constructor ()
      ensures records == map[]
    {
      records := map[];
    }

    method Track(id: Id, now: int)
      modifies this
      ensures records.Keys == old(records.Keys) + {id} && records[id] == Record(Queued, 0, now)
      ensures records == Tracked(old(records), id, now)
    {
      records := records[id := Record(Queued, 0, now)];
    }

    method Forget(id: Id)
      modifies this
      ensures records.Keys == old(records.Keys) - {id}
      ensures forall k :: k in records ==> records[k] == old(records)[k]
      ensures records == old(records) - {id}
    {
      records := records - {id};
    }

    method Write(r: Result, now: int)
      modifies this
      ensures records == Written(old(records), r, now)
    {
      if r.id !in records {
        return;
      }
      var rec := records[r.id];
      rec := rec.(status := r.status, attempts := r.attempts, updatedAt := now);
      records := records[r.id := rec];
    }

    method Evict(now: int, retention: int)
      modifies this
      ensures forall k :: k in records <==>
                k in old(records) && (old(records)[k].status == Queued || old(records)[k].updatedAt >= now - retention)
      ensures forall k :: k in records ==> records[k] == old(records)[k]
      ensures records == Kept(old(records), now - retention)
    {
      var cutoff := now - retention;
      records := map id | id in records && !(records[id].status != Queued && records[id].updatedAt < cutoff) :: records[id];
    }
  }

  /** The handler's sequence for a new id: when the push is refused, nothing is left behind. */
  method Create(q: Queue, rec: Recorder, id: Id, now: int) returns (err: Option<Refusal>)
    requires id !in rec.records
    modifies q, rec
    ensures err == None <==> !old(q.closed) && |old(q.tasks)| < q.size
    ensures q.closed == old(q.closed)
    ensures err == None ==> q.tasks == old(q.tasks) + [id] && rec.records == Tracked(old(rec.records), id, now)
    ensures err != None ==> q.tasks == old(q.tasks) && rec.records == old(rec.records)
  {
    rec.Track(id, now);
    err := q.Push(id);
    if err != None {
      rec.Forget(id);
    }
  }

  // ---------- one delivery ----------

  /** deliver, given what happens to it: the requests and the result follow the script. */
  method Deliver(cfg: Config, id: Id, script: Script) returns (r: Result, requests: nat)
    ensures r.id == id && Reports(cfg, script, r, requests)
  {
    requests := 0;
    if script.start {
      return Result(id, Canceled, 0), 0;
    }
    var attempt := 0;
    while attempt < cfg.maxAttempts
      invariant 0 <= attempt <= Most(cfg) && requests == attempt
      invariant forall j :: 1 <= j < attempt ==> GoesOn(cfg, script, j)
      invariant attempt > 0 ==> script.answer(attempt) == Transient && !script.after(attempt)
    {
      if attempt > 0 {
        if script.cut(attempt) {
          return Result(id, Canceled, attempt), requests;
        }
      }
      var answer := script.answer(attempt + 1);
      requests := attempt + 1;
      if answer == Ok {
        return Result(id, Delivered, attempt + 1), requests;
      }
      if script.after(attempt + 1) {
        return Result(id, Canceled, attempt + 1), requests;
      }
      if answer == Permanent {
        return Result(id, Failed, attempt + 1), requests;
      }
      attempt := attempt + 1;
    }
    return Result(id, Failed, cfg.maxAttempts), requests;
  }
}
