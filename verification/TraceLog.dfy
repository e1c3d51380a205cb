/** The separate store of pipeline traces, filled by a background writer: src/meno_rag/db/trace_writer.py and
    trace_store.py, fed by `_persist_success` in src/meno_rag/api/main.py.  Nothing ever deletes from it. */
module TraceLog {
  import opened Tables
  import opened Operations
  import D = DataMinimisation

  datatype Trace = Trace(run: string, session: string, content: string)

  /** The writer's queue, the rows of `pipeline_traces` by run id, and the counters of its metrics. */
  datatype Log = Log(queue: seq<Trace>, rows: map<string, Trace>, enqueued: nat, dropped: nat, written: nat,
                     failed: nat)

  const EMPTY := Log([], map[], 0, 0, 0, 0)

  /** `put_nowait` on a queue of at most `max` items, unlimited if `max` is not positive. */
  function Enqueued(log: Log, t: Trace, max: int): Log {
    if max > 0 && |log.queue| >= max then log.(dropped := log.dropped + 1)
    else log.(queue := log.queue + [t], enqueued := log.enqueued + 1)
  }

  /** The worker takes the first item; the insert fails on a run id already there and whenever the store is down. */
  function Drained(log: Log, up: bool): Log {
    if log.queue == [] then log
    else
      var t, rest := log.queue[0], log.queue[1..];
      if up && t.run !in log.rows then log.(queue := rest, rows := log.rows[t.run := t], written := log.written + 1)
      else log.(queue := rest, failed := log.failed + 1)
  }

  /** A trace is dropped exactly when the queue has a bound and has reached it; else it waits behind the others. */
  lemma TraceIsDroppedIff(log: Log, t: Trace, max: int)
    ensures var after := Enqueued(log, t, max);
            if 0 < max <= |log.queue| then after == log.(dropped := log.dropped + 1)
            else after == log.(queue := log.queue + [t], enqueued := log.enqueued + 1)
  {
  }

  /** The first waiting trace becomes the row of its run exactly when the store is up and has none for that run. */
  lemma TraceIsWrittenIff(log: Log, t: Trace, rest: seq<Trace>, up: bool)
    requires log.queue == [t] + rest
    ensures var after := Drained(log, up);
            && after.queue == rest && after.enqueued == log.enqueued && after.dropped == log.dropped
            && if up && t.run !in log.rows
               then after.rows == log.rows[t.run := t] && after.written == log.written + 1 && after.failed == log.failed
               else after.rows == log.rows && after.written == log.written && after.failed == log.failed + 1
  {
  }

  class TraceWriter {
    const max: int
    var queue: seq<Trace>
    var rows: map<string, Trace>
    var enqueued: nat
    var dropped: nat
    var written: nat
    var failed: nat

    constructor (max: int)
      ensures Contents() == EMPTY && this.max == max
    {
      this.max := max;
      queue, rows, enqueued, dropped, written, failed := [], map[], 0, 0, 0, 0;
    }

    function Contents(): Log
      reads this
    {
      Log(queue, rows, enqueued, dropped, written, failed)
    }

    method Enqueue(t: Trace)
      modifies this
      ensures Contents() == Enqueued(old(Contents()), t, max)
    {
      if max > 0 && |queue| >= max {
        dropped := dropped + 1;
      } else {
        queue := queue + [t];
        enqueued := enqueued + 1;
      }
    }

    method Write(t: Trace, up: bool) returns (ok: bool)
      modifies this`rows
      ensures ok == (up && t.run !in old(rows))
      ensures rows == if ok then old(rows)[t.run := t] else old(rows)
    {
      ok := up && t.run !in rows;
      if ok {
        rows := rows[t.run := t];
      }
    }

    /** One turn of the worker's loop. */
    method WriteNext(up: bool)
      requires queue != []
      modifies this
      ensures Contents() == Drained(old(Contents()), up)
    {
      var t := queue[0];
      queue := queue[1..];
      var ok := Write(t, up);
      if ok {
        written := written + 1;
      } else {
        failed := failed + 1;
      }
    }
  }

  // ---------------------------------------------------------------- runs of the service with its writer

  datatype World = World(db: Db, log: Log)

  datatype Event = Serve(op: Op) | WriteNext(up: bool)

  function TraceOf(q: ChatRequest): Trace
    requires q.trace.Some?
  {
    Trace(q.run, q.session, q.trace.value)
  }

  predicate Captures(db: Db, e: Event) {
    e.Serve? && e.op.Chat? && Traced(db, e.op.chat)
  }

  function Next(w: World, e: Event, max: int, pow: real -> real): World
    requires forall x :: pow(x) > 0.0
  {
    match e
    case Serve(op) =>
      World(Step(w.db, op, pow), if Captures(w.db, e) then Enqueued(w.log, TraceOf(op.chat), max) else w.log)
    case WriteNext(up) => w.(log := Drained(w.log, up))
  }

  function After(w: World, events: seq<Event>, max: int, pow: real -> real): World
    requires forall x :: pow(x) > 0.0
  {
    if events == [] then w else Next(After(w, events[..|events| - 1], max, pow), events[|events| - 1], max, pow)
  }

  function Start(users: set<string>, guests: set<string>): World {
    World(Fresh(users, guests), EMPTY)
  }

  // ---------------------------------------------------------------- conservation

  /** The requests of a run that handed over a trace, in order. */
  function Handed(w: World, events: seq<Event>, max: int, pow: real -> real): seq<ChatRequest>
    requires forall x :: pow(x) > 0.0
  {
    if events == [] then []
    else
      var front, e := events[..|events| - 1], events[|events| - 1];
      Handed(w, front, max, pow) + if Captures(After(w, front, max, pow).db, e) then [e.op.chat] else []
  }

  /** No trace is lost without being counted: each one handed over was dropped, failed, waits, or is a row. */
  lemma {:induction false} TracesAreAccounted(users: set<string>, guests: set<string>, events: seq<Event>, max: int,
                                              pow: real -> real)
    requires forall x :: pow(x) > 0.0
    ensures var log := After(Start(users, guests), events, max, pow).log;
            && |Handed(Start(users, guests), events, max, pow)| == log.enqueued + log.dropped
            && log.enqueued == log.written + log.failed + |log.queue|
            && log.written == |log.rows| && (max > 0 ==> |log.queue| <= max)
  {
    if events == [] {
    } else {
      TracesAreAccounted(users, guests, events[..|events| - 1], max, pow);
    }
  }

  // ---------------------------------------------------------------- first in, first out

  /** The trace of a request: its run, its session and what was captured. */
  predicate IsTraceOf(t: Trace, q: ChatRequest) {
    q.trace.Some? && t.run == q.run && t.session == q.session && t.content == q.trace.value
  }

  /** The traces of requests, in order. */
  ghost predicate AreTracesOf(queue: seq<Trace>, requests: seq<ChatRequest>) {
    |queue| == |requests| && forall i :: 0 <= i < |queue| ==> IsTraceOf(queue[i], requests[i])
  }

  lemma QueueGrows(queue: seq<Trace>, handed: seq<ChatRequest>, k: nat, t: Trace, q: ChatRequest)
    requires k <= |handed| && AreTracesOf(queue, handed[k..]) && IsTraceOf(t, q)
    ensures AreTracesOf(queue + [t], (handed + [q])[k..])
  {
    assert (handed + [q])[k..] == handed[k..] + [q];
  }

  lemma QueueShrinks(queue: seq<Trace>, handed: seq<ChatRequest>, k: nat)
    requires k < |handed| && AreTracesOf(queue, handed[k..])
    ensures AreTracesOf(queue[1..], handed[k + 1..])
  {
    assert handed[k..][1..] == handed[k + 1..];
  }

  /** The waiting traces are the last ones handed over. */
  ghost predicate InOrder(log: Log, handed: seq<ChatRequest>) {
    log.written + log.failed <= |handed| && AreTracesOf(log.queue, handed[log.written + log.failed..])
  }

  lemma EnqueuedKeepsOrder(log: Log, handed: seq<ChatRequest>, t: Trace, q: ChatRequest, max: int)
    requires InOrder(log, handed) && Enqueued(log, t, max).dropped == log.dropped && IsTraceOf(t, q)
    ensures InOrder(Enqueued(log, t, max), handed + [q])
  {
    QueueGrows(log.queue, handed, log.written + log.failed, t, q);
  }

  lemma DrainedKeepsOrder(log: Log, handed: seq<ChatRequest>, up: bool)
    requires InOrder(log, handed)
    ensures InOrder(Drained(log, up), handed)
  {
    if log.queue != [] {
      QueueShrinks(log.queue, handed, log.written + log.failed);
    }
  }

  lemma NextKeepsOrder(w: World, e: Event, handed: seq<ChatRequest>, max: int, pow: real -> real)
    requires (forall x :: pow(x) > 0.0) && InOrder(w.log, handed) && Next(w, e, max, pow).log.dropped == w.log.dropped
    ensures InOrder(Next(w, e, max, pow).log, handed + if Captures(w.db, e) then [e.op.chat] else [])
  {
    if Captures(w.db, e) {
      EnqueuedKeepsOrder(w.log, handed, TraceOf(e.op.chat), e.op.chat, max);
    } else {
      assert handed + [] == handed;
      if e.WriteNext? {
        DrainedKeepsOrder(w.log, handed, e.up);
      }
    }
  }

  lemma DroppedGrows(w: World, e: Event, max: int, pow: real -> real)
    requires forall x :: pow(x) > 0.0
    ensures w.log.dropped <= Next(w, e, max, pow).log.dropped
  {
  }

  /** While none has been dropped, the waiting traces are the last ones handed over, in order: the writer takes them in
      the order of the requests. */
  lemma {:induction false} TracesWaitInOrder(users: set<string>, guests: set<string>, events: seq<Event>, max: int,
                                             pow: real -> real)
    requires forall x :: pow(x) > 0.0
    requires After(Start(users, guests), events, max, pow).log.dropped == 0
    ensures InOrder(After(Start(users, guests), events, max, pow).log, Handed(Start(users, guests), events, max, pow))
  {
    if events == [] {
    } else {
      var front, e := events[..|events| - 1], events[|events| - 1];
      var w := After(Start(users, guests), front, max, pow);
      DroppedGrows(w, e, max, pow);
      TracesWaitInOrder(users, guests, front, max, pow);
      NextKeepsOrder(w, e, Handed(Start(users, guests), front, max, pow), max, pow);
    }
  }

  // ---------------------------------------------------------------- whose traces there are

  /** The trace of one of the requests, by a subject who had opted in. */
  ghost predicate FromConsented(consents: seq<ConsentEvent>, handed: seq<ChatRequest>, t: Trace) {
    exists q :: q in handed && IsTraceOf(t, q) && D.OptedIn(consents, q.caller)
  }

  ghost predicate LogIsConsented(consents: seq<ConsentEvent>, log: Log, handed: seq<ChatRequest>) {
    && (forall t :: t in log.queue ==> FromConsented(consents, handed, t))
    && (forall r :: r in log.rows ==> log.rows[r].run == r && FromConsented(consents, handed, log.rows[r]))
  }

  ghost predicate TracesAreConsented(w: World, handed: seq<ChatRequest>) {
    LogIsConsented(w.db.consents, w.log, handed)
  }

  /** The log of decisions is append-only. */
  lemma ConsentsGrow(db: Db, op: Op, pow: real -> real)
    requires forall x :: pow(x) > 0.0
    ensures db.consents <= Step(db, op, pow).consents
  {
  }

  lemma ConsentedForEver(consents: seq<ConsentEvent>, later: seq<ConsentEvent>, handed: seq<ChatRequest>,
                         more: seq<ChatRequest>, t: Trace)
    requires FromConsented(consents, handed, t) && consents <= later && handed <= more
    ensures FromConsented(later, more, t)
  {
    var q :| q in handed && IsTraceOf(t, q) && D.OptedIn(consents, q.caller);
    D.OptedInForEver(consents, later[|consents|..], q.caller);
    assert later == consents + later[|consents|..] && q in more;
  }

  lemma CapturedIsConsented(db: Db, q: ChatRequest, later: seq<ConsentEvent>, handed: seq<ChatRequest>)
    requires Traced(db, q) && db.consents <= later && q in handed
    ensures FromConsented(later, handed, TraceOf(q))
  {
    assert IsTraceOf(TraceOf(q), q);
    D.ConsentedOptedIn(db.consents, q.caller);
    D.OptedInForEver(db.consents, later[|db.consents|..], q.caller);
    assert later == db.consents + later[|db.consents|..];
  }

  lemma LogStaysConsented(consents: seq<ConsentEvent>, later: seq<ConsentEvent>, log: Log, handed: seq<ChatRequest>,
                          more: seq<ChatRequest>)
    requires LogIsConsented(consents, log, handed) && consents <= later && handed <= more
    ensures LogIsConsented(later, log, more)
  {
    forall t | FromConsented(consents, handed, t) ensures FromConsented(later, more, t) {
      ConsentedForEver(consents, later, handed, more, t);
    }
  }

  lemma DrainedStaysConsented(consents: seq<ConsentEvent>, log: Log, handed: seq<ChatRequest>, up: bool)
    requires LogIsConsented(consents, log, handed)
    ensures LogIsConsented(consents, Drained(log, up), handed)
  {
  }

  lemma NextStaysConsented(w: World, e: Event, handed: seq<ChatRequest>, max: int, pow: real -> real)
    requires (forall x :: pow(x) > 0.0) && TracesAreConsented(w, handed)
    ensures TracesAreConsented(Next(w, e, max, pow), handed + if Captures(w.db, e) then [e.op.chat] else [])
  {
    match e
    case Serve(op) =>
      var more, later := handed + if Captures(w.db, e) then [op.chat] else [], Step(w.db, op, pow).consents;
      ConsentsGrow(w.db, op, pow);
      LogStaysConsented(w.db.consents, later, w.log, handed, more);
      if Captures(w.db, e) {
        CapturedIsConsented(w.db, op.chat, later, more);
      }
    case WriteNext(up) =>
      assert handed + [] == handed;
      DrainedStaysConsented(w.db.consents, w.log, handed, up);
  }

  /** In every run, each trace waiting or stored is that of a request of the run, by a subject who had opted in. */
  lemma {:induction false} EveryTraceIsConsented(users: set<string>, guests: set<string>, events: seq<Event>, max: int,
                                                 pow: real -> real)
    requires forall x :: pow(x) > 0.0
    ensures TracesAreConsented(After(Start(users, guests), events, max, pow),
                               Handed(Start(users, guests), events, max, pow))
  {
    if events == [] {
    } else {
      var front, e := events[..|events| - 1], events[|events| - 1];
      EveryTraceIsConsented(users, guests, front, max, pow);
      NextStaysConsented(After(Start(users, guests), front, max, pow), e, Handed(Start(users, guests), front, max, pow),
                         max, pow);
    }
  }

  // ---------------------------------------------------------------- nothing is erased

  /** Whatever happens, erasure and retention included, every row stays. */
  lemma {:induction false} RowsStay(w: World, events: seq<Event>, max: int, pow: real -> real, run: string)
    requires (forall x :: pow(x) > 0.0) && run in w.log.rows
    ensures run in After(w, events, max, pow).log.rows
    ensures After(w, events, max, pow).log.rows[run] == w.log.rows[run]
  {
    if events == [] {
    } else {
      RowsStay(w, events[..|events| - 1], max, pow, run);
    }
  }

  lemma AfterNext(w: World, events: seq<Event>, e: Event, max: int, pow: real -> real)
    requires forall x :: pow(x) > 0.0
    ensures After(w, events + [e], max, pow) == Next(After(w, events, max, pow), e, max, pow)
  {
    assert (events + [e])[..|events|] == events;
  }

  lemma AfterThree(w: World, a: Event, b: Event, c: Event, max: int, pow: real -> real)
    requires forall x :: pow(x) > 0.0
    ensures After(w, [a, b, c], max, pow) == Next(Next(Next(w, a, max, pow), b, max, pow), c, max, pow)
  {
    assert [] + [a] == [a] && [a] + [b] == [a, b] && [a, b] + [c] == [a, b, c];
    AfterNext(w, [], a, max, pow);
    AfterNext(w, [a], b, max, pow);
    AfterNext(w, [a, b], c, max, pow);
  }

  /** The tables after a subject has opted in. */
  function OptedInDb(users: set<string>, guests: set<string>, s: Owner): Db {
    SettingsPatched(Fresh(users, guests), s, true, true, true)
  }

  lemma OptInIsConsent(users: set<string>, guests: set<string>, s: Owner)
    requires IsSubject(s)
    ensures var db := OptedInDb(users, guests, s);
            db.conversations == map[] && db.runs == map[] && Consented(db.consents, s, MenoImprovement)
  {
    var db := OptedInDb(users, guests, s);
    assert db.consents == [ConsentEvent(s, ServiceAndHistory, true)] + [ConsentEvent(s, MenoImprovement, true)];
  }

  lemma NextOptsIn(users: set<string>, guests: set<string>, s: Owner, max: int, pow: real -> real)
    requires forall x :: pow(x) > 0.0
    ensures Next(Start(users, guests), Serve(Patch(s, true, true, true)), max, pow)
            == World(OptedInDb(users, guests, s), EMPTY)
  {
  }

  lemma NextAsks(w: World, q: ChatRequest, now: int, max: int, pow: real -> real)
    requires (forall x :: pow(x) > 0.0) && Traced(w.db, q)
    ensures Next(w, Serve(Chat(q, now)), max, pow)
            == World(ChatPersisted(w.db, q, now), Enqueued(w.log, TraceOf(q), max))
  {
  }

  lemma NextErases(w: World, s: Owner, max: int, pow: real -> real)
    requires forall x :: pow(x) > 0.0
    ensures Next(w, Serve(EraseSubject(s)), max, pow) == World(SubjectErased(w.db, s), w.log)
  {
  }

  /** A subject opts in, asks, and the trace is written. */
  function Asked(q: ChatRequest, now: int): seq<Event> {
    [Serve(Patch(q.caller, true, true, true)), Serve(Chat(q, now)), WriteNext(true)]
  }

  lemma AskedIsTraced(users: set<string>, guests: set<string>, q: ChatRequest, now: int, max: int, pow: real -> real)
    requires (forall x :: pow(x) > 0.0) && IsSubject(q.caller) && q.trace.Some?
    ensures var w := After(Start(users, guests), Asked(q, now), max, pow);
            && w.db == ChatPersisted(OptedInDb(users, guests, q.caller), q, now)
            && w.log.rows == map[q.run := TraceOf(q)]
  {
    var w, e := Start(users, guests), Asked(q, now);
    AfterThree(w, e[0], e[1], e[2], max, pow);
    OptInIsConsent(users, guests, q.caller);
    NextOptsIn(users, guests, q.caller, max, pow);
    NextAsks(World(OptedInDb(users, guests, q.caller), EMPTY), q, now, max, pow);
    assert Enqueued(EMPTY, TraceOf(q), max) == EMPTY.(queue := [TraceOf(q)], enqueued := 1);
  }

  lemma ErasureTakesTheRequest(db: Db, q: ChatRequest, now: int)
    requires IsSubject(q.caller) && db.conversations == map[] && db.runs == map[]
    ensures var d := SubjectErased(ChatPersisted(db, q, now), q.caller);
            q.session !in d.conversations && q.run !in d.runs
  {
  }

  /** Erasing the subject takes the conversation and the run, and leaves the trace with question and answer. */
  lemma TraceOutlivesItsSubject(users: set<string>, guests: set<string>, q: ChatRequest, now: int, max: int,
                                pow: real -> real)
    requires (forall x :: pow(x) > 0.0) && IsSubject(q.caller) && q.trace.Some?
    ensures var w := After(Start(users, guests), Asked(q, now) + [Serve(EraseSubject(q.caller))], max, pow);
            q.session !in w.db.conversations && q.run !in w.db.runs && w.log.rows == map[q.run := TraceOf(q)]
  {
    var w := After(Start(users, guests), Asked(q, now), max, pow);
    AskedIsTraced(users, guests, q, now, max, pow);
    AfterNext(Start(users, guests), Asked(q, now), Serve(EraseSubject(q.caller)), max, pow);
    OptInIsConsent(users, guests, q.caller);
    ErasureTakesTheRequest(OptedInDb(users, guests, q.caller), q, now);
    NextErases(w, q.caller, max, pow);
  }

  /** The trace is handed over before the run is inserted: exactly when the run id is taken, the transaction is undone
      and the trace stays. */
  lemma TraceWithoutItsRunIff(w: World, q: ChatRequest, now: int, max: int, pow: real -> real)
    requires (forall x :: pow(x) > 0.0) && Traced(w.db, q)
    ensures var n := Next(w, Serve(Chat(q, now)), max, pow);
            && n.log == Enqueued(w.log, TraceOf(q), max)
            && (n.db == w.db <==> q.run in w.db.runs)
  {
    if q.run !in w.db.runs {
      assert q.run in ChatPersisted(w.db, q, now).runs;
    }
  }
}
