/** The two model-status stores of src/meno_rag/llm/status.py, on a clock of whole seconds, and what their `get`
    answers.  The creation stamp `updated_at` is not compared: it is the only field in which the stores differ by
    design. */
module ModelStatus {
  import opened Text

  datatype State = Available | RateLimited | Unreachable

  datatype Status = Status(state: State, until: Option<int>, error: Option<string>, failures: nat)

  const AVAILABLE := Status(Available, None, None, 0)

  datatype Backoff = Backoff(seconds: int, max: int)

  datatype Change = Ok | RateLimit(until: int, error: Option<string>) | Failure(error: Option<string>)

  datatype Event = Event(at: int, model: string, change: Change)

  function Pow2(n: nat): nat {
    if n == 0 then 1 else 2 * Pow2(n - 1)
  }

  /** How long the n-th consecutive failure blocks a model. */
  function Delay(b: Backoff, n: nat): int
    requires n >= 1
  {
    var d := b.seconds * Pow2(n - 1);
    if d <= b.max then d else b.max
  }

  /** What a reader sees of a stored status. */
  function Visible(s: Status, now: int): Status {
    if s.until.Some? && s.until.value <= now then AVAILABLE else s
  }

  // ---------------------------------------------------------------- the event log

  /** Failures of `model` since its last other event. */
  function ConsecutiveFailures(log: seq<Event>, model: string): nat {
    if log == [] then 0
    else
      var e := log[|log| - 1];
      if e.model != model then ConsecutiveFailures(log[..|log| - 1], model)
      else if e.change.Failure? then ConsecutiveFailures(log[..|log| - 1], model) + 1
      else 0
  }

  /** What `get` should answer for a model after a log of events, at time `now`. */
  function Answer(log: seq<Event>, model: string, now: int, b: Backoff): Status {
    if log == [] then AVAILABLE
    else
      var e := log[|log| - 1];
      if e.model != model then Answer(log[..|log| - 1], model, now, b)
      else
        match e.change
        case Ok => AVAILABLE
        case RateLimit(until, error) => if until <= now then AVAILABLE else Status(RateLimited, Some(until), error, 0)
        case Failure(error) =>
          var n := ConsecutiveFailures(log, model);
          var until := e.at + Delay(b, n);
          if until <= now then AVAILABLE else Status(Unreachable, Some(until), error, n)
  }

  // ---------------------------------------------------------------- in-memory store

  type Memory = map<string, Status>

  function Stored(m: Memory, model: string): Status {
    if model in m then m[model] else AVAILABLE
  }

  function MemoryStep(m: Memory, e: Event, b: Backoff): Memory {
    match e.change
    case Ok => m[e.model := AVAILABLE]
    case RateLimit(until, error) => m[e.model := Status(RateLimited, Some(until), error, 0)]
    case Failure(error) =>
      var n := Stored(m, e.model).failures + 1;
      m[e.model := Status(Unreachable, Some(e.at + Delay(b, n)), error, n)]
  }

  function MemoryRun(log: seq<Event>, b: Backoff): Memory {
    if log == [] then map[] else MemoryStep(MemoryRun(log[..|log| - 1], b), log[|log| - 1], b)
  }

  class InMemoryModelStatusStore {
    const backoff: Backoff
    var states: Memory

    constructor (b: Backoff)
      ensures backoff == b && states == map[]
    {
      backoff, states := b, map[];
    }

    method Get(model: string, now: int) returns (s: Status)
      ensures s == Visible(Stored(states, model), now)
    {
      if model !in states {
        return AVAILABLE;
      }
      var current := states[model];
      if current.until.Some? && current.until.value <= now {
        return AVAILABLE;
      }
      return current;
    }

    /** `list_all`: a copy of the dictionary, marks that have run out included. */
    method ListAll() returns (all: map<string, Status>)
      ensures all == states
    {
      return states;
    }

    method MarkOk(model: string, ghost now: int)
      modifies this
      ensures states == MemoryStep(old(states), Event(now, model, Ok), backoff)
    {
      states := states[model := AVAILABLE];
    }

    method MarkRateLimited(model: string, until: int, error: Option<string>, ghost now: int)
      modifies this
      ensures states == MemoryStep(old(states), Event(now, model, RateLimit(until, error)), backoff)
    {
      states := states[model := Status(RateLimited, Some(until), error, 0)];
    }

    method MarkUnreachable(model: string, error: Option<string>, now: int)
      modifies this
      ensures states == MemoryStep(old(states), Event(now, model, Failure(error)), backoff)
    {
      var failures := (if model in states then states[model].failures else 0) + 1;
      var delay := Delay(backoff, failures);
      states := states[model := Status(Unreachable, Some(now + delay), error, failures)];
    }
  }

  // ---------------------------------------------------------------- Redis store

  /** A stored payload and, if a TTL was set, the instant it runs out. */
  datatype Entry = Entry(status: Status, expires: Option<int>)

  type Keys = map<string, Entry>

  function Fetched(k: Keys, model: string, now: int): Status {
    if model in k && (k[model].expires.Some? ==> now < k[model].expires.value) then k[model].status else AVAILABLE
  }

  function RedisGet(k: Keys, model: string, now: int): Status {
    Visible(Fetched(k, model, now), now)
  }

  function RedisStep(k: Keys, e: Event, b: Backoff): Keys {
    match e.change
    case Ok => k - {e.model}
    case RateLimit(until, error) =>
      var ttl := if until - e.at >= 1 then until - e.at else 1;
      k[e.model := Entry(Status(RateLimited, Some(until), error, 0), Some(e.at + ttl))]
    case Failure(error) =>
      var n := RedisGet(k, e.model, e.at).failures + 1;
      var delay := Delay(b, n);
      k[e.model := Entry(Status(Unreachable, Some(e.at + delay), error, n),
                         if delay > 0 then Some(e.at + delay) else None)]
  }

  function RedisRun(log: seq<Event>, b: Backoff): Keys {
    if log == [] then map[] else RedisStep(RedisRun(log[..|log| - 1], b), log[|log| - 1], b)
  }

  /** The statuses of the keys that have not expired. */
  function Live(k: Keys, now: int): map<string, Status> {
    map model | model in k && (k[model].expires.Some? ==> now < k[model].expires.value) :: k[model].status
  }

  class RedisModelStatusStore {
    const backoff: Backoff
    var keys: Keys

    constructor (b: Backoff)
      ensures backoff == b && keys == map[]
    {
      backoff, keys := b, map[];
    }

    method Get(model: string, now: int) returns (s: Status)
      ensures s == RedisGet(keys, model, now)
    {
      if model !in keys || (keys[model].expires.Some? && keys[model].expires.value <= now) {
        return AVAILABLE;
      }
      var status := keys[model].status;
      if status.until.Some? && status.until.value <= now {
        return AVAILABLE;
      }
      return status;
    }

    /** `list_all`: the keys are scanned in some order and read one by one; a mark is not checked again. */
    method ListAll(now: int) returns (all: map<string, Status>)
      ensures all == Live(keys, now)
    {
      all := map[];
      var todo := keys.Keys;
      while todo != {}
        invariant todo <= keys.Keys
        invariant all == map model | model in Live(keys, now) && model !in todo :: Live(keys, now)[model]
        decreases |todo|
      {
        var model :| model in todo;
        var entry := keys[model];
        if entry.expires.None? || now < entry.expires.value {
          all := all[model := entry.status];
        }
        todo := todo - {model};
      }
    }

    method Write(model: string, status: Status, ttl: int, now: int)
      modifies this
      ensures keys == old(keys)[model := Entry(status, if ttl > 0 then Some(now + ttl) else None)]
    {
      if ttl > 0 {
        keys := keys[model := Entry(status, Some(now + ttl))];
      } else {
        keys := keys[model := Entry(status, None)];
      }
    }

    method MarkOk(model: string, now: int)
      modifies this
      ensures keys == RedisStep(old(keys), Event(now, model, Ok), backoff)
    {
      keys := keys - {model};
    }

    method MarkRateLimited(model: string, until: int, error: Option<string>, now: int)
      modifies this
      ensures keys == RedisStep(old(keys), Event(now, model, RateLimit(until, error)), backoff)
    {
      var ttl := if until - now >= 1 then until - now else 1;
      Write(model, Status(RateLimited, Some(until), error, 0), ttl, now);
    }

    method MarkUnreachable(model: string, error: Option<string>, now: int)
      modifies this
      ensures keys == RedisStep(old(keys), Event(now, model, Failure(error)), backoff)
    {
      var previous := Get(model, now);
      var failures := previous.failures + 1;
      var delay := Delay(backoff, failures);
      Write(model, Status(Unreachable, Some(now + delay), error, failures), delay, now);
    }
  }

  // ---------------------------------------------------------------- what the stores compute

  lemma {:induction false} MemoryTracksLog(log: seq<Event>, model: string, b: Backoff)
    ensures Stored(MemoryRun(log, b), model).failures == ConsecutiveFailures(log, model)
    ensures Stored(MemoryRun(log, b), model).state == Unreachable <==> ConsecutiveFailures(log, model) >= 1
  {
    if log == [] {
    } else {
      MemoryTracksLog(log[..|log| - 1], model, b);
    }
  }

  /** The in-memory store answers every `get`, at any time, as the event log says. */
  lemma {:induction false} MemoryRefinesLog(log: seq<Event>, model: string, now: int, b: Backoff)
    ensures Visible(Stored(MemoryRun(log, b), model), now) == Answer(log, model, now, b)
  {
    if log == [] {
    } else {
      MemoryRefinesLog(log[..|log| - 1], model, now, b);
      MemoryTracksLog(log[..|log| - 1], model, b);
    }
  }

  /** The instant of the last event of `model`. */
  function LastAt(log: seq<Event>, model: string): Option<int> {
    if log == [] then None
    else if log[|log| - 1].model == model then Some(log[|log| - 1].at)
    else LastAt(log[..|log| - 1], model)
  }

  /** Whether the mark of the `n`-th failure, reported at `last`, still holds at time `t`. */
  predicate MarkHolds(n: nat, last: Option<int>, t: int, b: Backoff) {
    n > 0 && last.Some? && t < last.value + Delay(b, n)
  }

  /** Failures of `model` in a row, each reported before the mark of the one before it ran out. */
  function LiveFailures(log: seq<Event>, model: string, b: Backoff): nat {
    if log == [] then 0
    else
      var front, e := log[..|log| - 1], log[|log| - 1];
      var n := LiveFailures(front, model, b);
      if e.model != model then n
      else if e.change.Failure? then (if MarkHolds(n, LastAt(front, model), e.at, b) then n else 0) + 1
      else 0
  }

  /** The answer of a store whose failure count restarts when a mark runs out. */
  function RestartingAnswer(log: seq<Event>, model: string, now: int, b: Backoff): Status {
    if log == [] then AVAILABLE
    else
      var e := log[|log| - 1];
      if e.model != model then RestartingAnswer(log[..|log| - 1], model, now, b)
      else
        match e.change
        case Ok => AVAILABLE
        case RateLimit(until, error) => if until <= now then AVAILABLE else Status(RateLimited, Some(until), error, 0)
        case Failure(error) =>
          var n := LiveFailures(log, model, b);
          var until := e.at + Delay(b, n);
          if until <= now then AVAILABLE else Status(Unreachable, Some(until), error, n)
  }

  lemma {:induction false} AnswerCountsLiveFailures(log: seq<Event>, model: string, now: int, b: Backoff)
    ensures RestartingAnswer(log, model, now, b).failures
            == if MarkHolds(LiveFailures(log, model, b), LastAt(log, model), now, b) then LiveFailures(log, model, b)
              else 0
  {
    if log == [] {
    } else {
      AnswerCountsLiveFailures(log[..|log| - 1], model, now, b);
    }
  }

  ghost predicate Chronological(log: seq<Event>) {
    forall i, j :: 0 <= i < j < |log| ==> log[i].at <= log[j].at
  }

  /** One event, given how many failures were visible when it came. */
  lemma RedisEventIsAnswered(k: Keys, e: Event, live: nat, now: int, b: Backoff)
    requires RedisGet(k, e.model, e.at).failures == live && e.at <= now
    ensures RedisGet(RedisStep(k, e, b), e.model, now) ==
            match e.change
            case Ok => AVAILABLE
            case RateLimit(until, error) =>
              if until <= now then AVAILABLE else Status(RateLimited, Some(until), error, 0)
            case Failure(error) =>
              var until := e.at + Delay(b, live + 1);
              if until <= now then AVAILABLE else Status(Unreachable, Some(until), error, live + 1)
  {
  }

  lemma OtherModelsKeep(k: Keys, e: Event, model: string, now: int, b: Backoff)
    requires model != e.model
    ensures RedisGet(RedisStep(k, e, b), model, now) == RedisGet(k, model, now)
  {
  }

  /** The Redis store answers every `get` after the last event as the event log says, with a failure count that
      restarts when a mark runs out. */
  lemma {:induction false} RedisRefinesLog(log: seq<Event>, model: string, now: int, b: Backoff)
    requires Chronological(log) && (log != [] ==> log[|log| - 1].at <= now)
    ensures RedisGet(RedisRun(log, b), model, now) == RestartingAnswer(log, model, now, b)
  {
    if log == [] {
    } else {
      var front, e := log[..|log| - 1], log[|log| - 1];
      assert front != [] ==> front[|front| - 1].at <= e.at;
      if e.model != model {
        RedisRefinesLog(front, model, now, b);
        OtherModelsKeep(RedisRun(front, b), e, model, now, b);
      } else {
        RedisRefinesLog(front, model, e.at, b);
        AnswerCountsLiveFailures(front, model, e.at, b);
        RedisEventIsAnswered(RedisRun(front, b), e, RestartingAnswer(front, model, e.at, b).failures, now, b);
      }
    }
  }

  lemma {:induction false} Pow2Grows(n: nat, m: nat)
    requires n <= m
    ensures 1 <= Pow2(n) <= Pow2(m)
  {
    if n < m {
      Pow2Grows(n, m - 1);
    } else if n > 0 {
      Pow2Grows(n - 1, n - 1);
    }
  }

  /** More consecutive failures never shorten the block, which lies between one backoff and the maximum. */
  lemma DelayIsMonotone(b: Backoff, n: nat, m: nat)
    requires 1 <= n <= m && 0 <= b.seconds
    ensures (if b.seconds <= b.max then b.seconds else b.max) <= Delay(b, n) <= Delay(b, m) <= b.max
  {
    Pow2Grows(n - 1, m - 1);
    ProductGrows(b.seconds, Pow2(n - 1), Pow2(m - 1));
    ProductGrows(b.seconds, 1, Pow2(n - 1));
  }

  lemma ProductGrows(a: int, x: int, y: int)
    requires a >= 0 && x <= y
    ensures a * x <= a * y
  {
  }

  /** A backoff that blocks at all. */
  predicate Effective(b: Backoff) {
    b.seconds > 0 && b.max > 0
  }

  lemma DelayIsPositiveIff(b: Backoff, n: nat)
    requires n >= 1
    ensures Delay(b, n) > 0 <==> Effective(b)
  {
    var p := Pow2(n - 1);
    Pow2Grows(0, n - 1);
    if b.seconds > 0 {
      ProductGrows(b.seconds, 1, p);
    } else {
      ProductGrows(-b.seconds, 0, p);
      assert -b.seconds * p == -(b.seconds * p);
    }
  }

  // ---------------------------------------------------------------- when the stores agree

  /** A `get` of any model is answered alike at every time from `now` on. */
  ghost predicate Agree(m: Memory, k: Keys, now: int) {
    forall model: string, t: int :: now <= t ==> Visible(Stored(m, model), t) == RedisGet(k, model, t)
  }

  /** A failure reported after the model's previous unreachable mark has run out. */
  predicate FailsAfterExpiry(m: Memory, e: Event) {
    var s := Stored(m, e.model);
    e.change.Failure? && s.state == Unreachable && s.until.Some? && s.until.value <= e.at
  }

  ghost predicate NeverFailsAfterExpiry(log: seq<Event>, b: Backoff) {
    forall i :: 0 <= i < |log| ==> !FailsAfterExpiry(MemoryRun(log[..i], b), log[i])
  }

  /** The stores agree after every prefix of the log, at every time from that prefix's last event on. */
  ghost predicate AlwaysAgree(log: seq<Event>, b: Backoff) {
    forall i :: 0 < i <= |log| ==> Agree(MemoryRun(log[..i], b), RedisRun(log[..i], b), log[i - 1].at)
  }

  ghost predicate WellFormed(m: Memory) {
    forall model :: model in m ==> (m[model].failures > 0 <==> m[model].state == Unreachable)
                                   && (m[model].state == Unreachable ==> m[model].until.Some?)
  }

  lemma {:induction false} MemoryIsWellFormed(log: seq<Event>, b: Backoff)
    ensures WellFormed(MemoryRun(log, b))
  {
    if log == [] {
    } else {
      MemoryIsWellFormed(log[..|log| - 1], b);
    }
  }

  /** A failure that is not late, and every other event, is seen alike for its own model. */
  lemma EventIsSeenAlike(m: Memory, k: Keys, e: Event, b: Backoff, t: int)
    requires WellFormed(m) && !(FailsAfterExpiry(m, e) && Effective(b)) && e.at <= t
    requires Visible(Stored(m, e.model), e.at) == RedisGet(k, e.model, e.at)
    ensures Visible(Stored(MemoryStep(m, e, b), e.model), t) == RedisGet(RedisStep(k, e, b), e.model, t)
  {
    if e.change.Failure? {
      DelayIsPositiveIff(b, Stored(m, e.model).failures + 1);
      DelayIsPositiveIff(b, RedisGet(k, e.model, e.at).failures + 1);
    }
  }

  lemma AgreementIsKept(m: Memory, k: Keys, e: Event, b: Backoff)
    requires WellFormed(m) && Agree(m, k, e.at) && !(FailsAfterExpiry(m, e) && Effective(b))
    ensures Agree(MemoryStep(m, e, b), RedisStep(k, e, b), e.at)
  {
    var m', k' := MemoryStep(m, e, b), RedisStep(k, e, b);
    forall model: string, t: int | e.at <= t ensures Visible(Stored(m', model), t) == RedisGet(k', model, t) {
      if model == e.model {
        assert Visible(Stored(m, e.model), e.at) == RedisGet(k, e.model, e.at);
        EventIsSeenAlike(m, k, e, b, t);
      } else {
        assert Visible(Stored(m, model), t) == RedisGet(k, model, t);
      }
    }
  }

  lemma AgreementIsLost(m: Memory, k: Keys, e: Event, b: Backoff)
    requires WellFormed(m) && Agree(m, k, e.at) && FailsAfterExpiry(m, e)
    requires Effective(b)
    ensures !Agree(MemoryStep(m, e, b), RedisStep(k, e, b), e.at)
  {
    assert RedisGet(k, e.model, e.at) == Visible(Stored(m, e.model), e.at) == AVAILABLE;
    DelayIsPositiveIff(b, Stored(m, e.model).failures + 1);
    DelayIsPositiveIff(b, 1);
    var m', k' := MemoryStep(m, e, b), RedisStep(k, e, b);
    assert Visible(Stored(m', e.model), e.at).failures > 1;
    assert RedisGet(k', e.model, e.at).failures == 1;
  }

  lemma {:induction false} PrefixAgrees(log: seq<Event>, i: nat, b: Backoff)
    requires Chronological(log) && i < |log|
    requires Effective(b) ==> forall j :: 0 <= j < i ==> !FailsAfterExpiry(MemoryRun(log[..j], b), log[j])
    ensures Agree(MemoryRun(log[..i], b), RedisRun(log[..i], b), log[i].at)
  {
    if i == 0 {
      assert log[..0] == [];
    } else {
      PrefixAgrees(log, i - 1, b);
      assert log[..i][..i - 1] == log[..i - 1];
      MemoryIsWellFormed(log[..i - 1], b);
      AgreementIsKept(MemoryRun(log[..i - 1], b), RedisRun(log[..i - 1], b), log[i - 1], b);
    }
  }

  lemma {:induction false} FirstLate(log: seq<Event>, i: nat, b: Backoff) returns (j: nat)
    requires i < |log| && FailsAfterExpiry(MemoryRun(log[..i], b), log[i])
    ensures j <= i && FailsAfterExpiry(MemoryRun(log[..j], b), log[j])
    ensures forall k :: 0 <= k < j ==> !FailsAfterExpiry(MemoryRun(log[..k], b), log[k])
  {
    j := i;
    if k :| 0 <= k < i && FailsAfterExpiry(MemoryRun(log[..k], b), log[k]) {
      j := FirstLate(log, k, b);
    }
  }

  lemma StepOfPrefix(log: seq<Event>, i: nat, b: Backoff)
    requires i < |log|
    ensures MemoryRun(log[..i + 1], b) == MemoryStep(MemoryRun(log[..i], b), log[i], b)
    ensures RedisRun(log[..i + 1], b) == RedisStep(RedisRun(log[..i], b), log[i], b)
  {
    assert log[..i + 1][..i] == log[..i];
  }

  predicate OnTime(log: seq<Event>, b: Backoff, i: nat)
    requires i < |log|
  {
    !(FailsAfterExpiry(MemoryRun(log[..i], b), log[i]) && Effective(b))
  }

  lemma AgreesAfter(log: seq<Event>, b: Backoff, i: nat)
    requires Chronological(log) && i < |log| && forall j :: 0 <= j <= i ==> OnTime(log, b, j)
    ensures Agree(MemoryRun(log[..i + 1], b), RedisRun(log[..i + 1], b), log[i].at)
  {
    assert OnTime(log, b, i);
    forall j | 0 <= j < i && Effective(b) ensures !FailsAfterExpiry(MemoryRun(log[..j], b), log[j]) {
      assert OnTime(log, b, j);
    }
    PrefixAgrees(log, i, b);
    StepOfPrefix(log, i, b);
    MemoryIsWellFormed(log[..i], b);
    AgreementIsKept(MemoryRun(log[..i], b), RedisRun(log[..i], b), log[i], b);
  }

  lemma StoresAgree(log: seq<Event>, b: Backoff)
    requires Chronological(log) && forall j :: 0 <= j < |log| ==> OnTime(log, b, j)
    ensures AlwaysAgree(log, b)
  {
    forall i | 0 < i <= |log| ensures Agree(MemoryRun(log[..i], b), RedisRun(log[..i], b), log[i - 1].at) {
      AgreesAfter(log, b, i - 1);
    }
  }

  lemma StoresPart(log: seq<Event>, b: Backoff, i: nat)
    requires Chronological(log) && Effective(b)
    requires i < |log| && FailsAfterExpiry(MemoryRun(log[..i], b), log[i])
    ensures !AlwaysAgree(log, b)
  {
    var j := FirstLate(log, i, b);
    PrefixAgrees(log, j, b);
    StepOfPrefix(log, j, b);
    MemoryIsWellFormed(log[..j], b);
    AgreementIsLost(MemoryRun(log[..j], b), RedisRun(log[..j], b), log[j], b);
    assert !Agree(MemoryRun(log[..j + 1], b), RedisRun(log[..j + 1], b), log[j + 1 - 1].at);
  }

  /** Every `get` is answered alike by the two stores on a run exactly when no failure is reported for a model whose
      unreachable mark has already run out, or the backoff is not positive: past expiry the in-memory failure
      count survives, the Redis one restarts with the expired key. */
  lemma StoresAgreeIff(log: seq<Event>, b: Backoff)
    requires Chronological(log)
    ensures AlwaysAgree(log, b) <==> NeverFailsAfterExpiry(log, b) || !Effective(b)
  {
    if NeverFailsAfterExpiry(log, b) || !Effective(b) {
      StoresAgree(log, b);
    } else {
      var i :| 0 <= i < |log| && FailsAfterExpiry(MemoryRun(log[..i], b), log[i]);
      StoresPart(log, b, i);
    }
  }

  /** Two failures suffice, the second at the instant at which the mark of the first runs out. */
  lemma LateFailurePartsTheStores(model: string, error: Option<string>, b: Backoff)
    requires Effective(b)
    ensures var log := [Event(0, model, Failure(error)), Event(Delay(b, 1), model, Failure(error))];
            Chronological(log) && !AlwaysAgree(log, b)
  {
    var first, second := Event(0, model, Failure(error)), Event(Delay(b, 1), model, Failure(error));
    assert [first, second][..1] == [first] && [first][..0] == [];
    DelayIsPositiveIff(b, 1);
    assert MemoryRun([first], b) == MemoryStep(map[], first, b);
    assert FailsAfterExpiry(MemoryRun([first, second][..1], b), [first, second][1]);
    StoresPart([first, second], b, 1);
  }
}
