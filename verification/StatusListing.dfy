/** `list_all` of the two model-status stores (src/meno_rag/llm/status.py), which the model list and the health report
    of src/meno_rag/api/main.py read.  A model that is not listed is shown as available. */
module StatusListing {
  import opened Text
  import opened ModelStatus

  function LastEvent(log: seq<Event>, model: string): Option<Event> {
    if log == [] then None
    else if log[|log| - 1].model == model then Some(log[|log| - 1])
    else LastEvent(log[..|log| - 1], model)
  }

  /** Whether a failure of the current streak came after the mark of the one before it had run out. */
  predicate Restarted(log: seq<Event>, model: string, b: Backoff) {
    if log == [] then false
    else
      var front, e := log[..|log| - 1], log[|log| - 1];
      if e.model != model then Restarted(front, model, b)
      else
        && e.change.Failure?
        && (Restarted(front, model, b)
            || (ConsecutiveFailures(front, model) > 0
                && !MarkHolds(LiveFailures(front, model, b), LastAt(front, model), e.at, b)))
  }

  /** Restarting is what tells the two failure counts apart. */
  lemma {:induction false} RestartedIff(log: seq<Event>, model: string, b: Backoff)
    ensures LiveFailures(log, model, b) <= ConsecutiveFailures(log, model)
    ensures LiveFailures(log, model, b) == ConsecutiveFailures(log, model) <==> !Restarted(log, model, b)
  {
    if log == [] {
    } else {
      RestartedIff(log[..|log| - 1], model, b);
    }
  }

  // ---------------------------------------------------------------- what is listed

  /** How long `n` failures in a row block a model. */
  function Blocks(b: Backoff, n: nat): int {
    if n == 0 then 0 else Delay(b, n)
  }

  /** The mark an event leaves, given how many failures in a row it ends. */
  function MarkOf(e: Event, failures: nat, b: Backoff): Status {
    match e.change
    case Ok => AVAILABLE
    case RateLimit(until, error) => Status(RateLimited, Some(until), error, 0)
    case Failure(error) => Status(Unreachable, Some(e.at + Blocks(b, failures)), error, failures)
  }

  lemma {:induction false} FailuresCount(log: seq<Event>, model: string, b: Backoff)
    ensures var last := LastEvent(log, model);
            last.Some? && last.value.change.Failure? <==> ConsecutiveFailures(log, model) >= 1
    ensures LiveFailures(log, model, b) >= 1 <==> ConsecutiveFailures(log, model) >= 1
    ensures LastEvent(log, model).Some? ==> LastEvent(log, model).value.model == model
                                            && LastAt(log, model) == Some(LastEvent(log, model).value.at)
  {
    if log == [] {
    } else {
      FailuresCount(log[..|log| - 1], model, b);
    }
  }

  /** In memory: the mark of the model's last event, whether or not it has run out. */
  lemma {:induction false} MemoryLists(log: seq<Event>, model: string, b: Backoff)
    ensures Stored(MemoryRun(log, b), model) ==
            match LastEvent(log, model)
            case None => AVAILABLE
            case Some(e) => MarkOf(e, ConsecutiveFailures(log, model), b)
  {
    FailuresCount(log, model, b);
    if log == [] {
    } else {
      MemoryLists(log[..|log| - 1], model, b);
      MemoryTracksLog(log[..|log| - 1], model, b);
    }
  }

  /** When Redis drops the mark of an event. */
  function Expiry(e: Event, failures: nat, b: Backoff): Option<int> {
    match e.change
    case Ok => None
    case RateLimit(until, _) => Some(if until > e.at then until else e.at + 1)
    case Failure(_) => if Blocks(b, failures) > 0 then Some(e.at + Blocks(b, failures)) else None
  }

  /** In Redis: the same mark with the restarting count, under its expiry. */
  lemma {:induction false} RedisKeeps(log: seq<Event>, model: string, b: Backoff)
    requires Chronological(log)
    ensures var k, last, n := RedisRun(log, b), LastEvent(log, model), LiveFailures(log, model, b);
            if last.None? || last.value.change.Ok? then model !in k
            else model in k && k[model] == Entry(MarkOf(last.value, n, b), Expiry(last.value, n, b))
  {
    FailuresCount(log, model, b);
    if log == [] {
    } else {
      var front, e := log[..|log| - 1], log[|log| - 1];
      RedisKeeps(front, model, b);
      if e.model == model && e.change.Failure? {
        RedisRefinesLog(front, model, e.at, b);
        AnswerCountsLiveFailures(front, model, e.at, b);
      }
    }
  }

  /** Whether Redis has dropped the model's mark by time `t`. */
  predicate Dropped(log: seq<Event>, model: string, t: int, b: Backoff) {
    var last := LastEvent(log, model);
    last.Some? &&
    match last.value.change
    case Ok => false
    case RateLimit(until, _) => until <= t && last.value.at < t
    case Failure(_) => Effective(b) && last.value.at + Blocks(b, LiveFailures(log, model, b)) <= t
  }

  // ---------------------------------------------------------------- when the listings agree

  ghost predicate SeenAlike(log: seq<Event>, model: string, t: int, b: Backoff) {
    Stored(MemoryRun(log, b), model) == Stored(Live(RedisRun(log, b), t), model)
  }

  /** Redis still has the mark of the last event, and no failure of its streak came late. */
  predicate MarkLasts(log: seq<Event>, model: string, t: int, b: Backoff) {
    !Dropped(log, model, t, b) && !Restarted(log, model, b)
  }

  /** One model is listed alike exactly when Redis still has its mark and the failure count has not restarted. */
  lemma ModelListedAlikeIff(log: seq<Event>, model: string, t: int, b: Backoff)
    requires Chronological(log) && (log != [] ==> log[|log| - 1].at <= t)
    ensures SeenAlike(log, model, t, b) <==> MarkLasts(log, model, t, b)
  {
    MemoryLists(log, model, b);
    RedisKeeps(log, model, b);
    RestartedIff(log, model, b);
    FailuresCount(log, model, b);
    LastIsNotLate(log, model, t);
    if LiveFailures(log, model, b) >= 1 {
      DelayIsPositiveIff(b, LiveFailures(log, model, b));
    }
  }

  lemma {:induction false} LastIsNotLate(log: seq<Event>, model: string, t: int)
    requires Chronological(log) && (log != [] ==> log[|log| - 1].at <= t)
    ensures LastEvent(log, model).Some? ==> LastEvent(log, model).value.at <= t
    ensures LastEvent(log, model).Some? && !LastEvent(log, model).value.change.Failure? ==>
              forall b :: !Restarted(log, model, b)
  {
    if log == [] {
    } else {
      assert |log| > 1 ==> log[|log| - 2].at <= log[|log| - 1].at;
      LastIsNotLate(log[..|log| - 1], model, t);
    }
  }

  ghost predicate ListedAlike(log: seq<Event>, t: int, b: Backoff) {
    forall model: string :: SeenAlike(log, model, t, b)
  }

  /** The listings agree at a time `t` exactly when no mark has been dropped by Redis and no failure streak has
      outlived one of its marks. */
  lemma ListingsAgreeIff(log: seq<Event>, t: int, b: Backoff)
    requires Chronological(log) && (log != [] ==> log[|log| - 1].at <= t)
    ensures ListedAlike(log, t, b) <==> forall model: string :: MarkLasts(log, model, t, b)
  {
    forall model: string ensures SeenAlike(log, model, t, b) <==> MarkLasts(log, model, t, b) {
      ModelListedAlikeIff(log, model, t, b);
    }
  }

  // ---------------------------------------------------------------- the health report

  /** The models of a listing that the health report counts under `state`. */
  function InState(all: map<string, Status>, state: State): set<string> {
    set model | model in all && all[model].state == state
  }

  /** The report counts the blocked models of Redis among those of the in-memory store, in the same state, and the
      two counts are equal exactly when none of the latter has been dropped. */
  lemma HealthCounts(log: seq<Event>, t: int, b: Backoff, state: State)
    requires Chronological(log) && (log != [] ==> log[|log| - 1].at <= t) && state != Available
    ensures var memory, redis := InState(MemoryRun(log, b), state), InState(Live(RedisRun(log, b), t), state);
            && redis <= memory && |redis| <= |memory|
            && (|redis| == |memory| <==> forall model :: model in memory ==> !Dropped(log, model, t, b))
  {
    var memory, redis := InState(MemoryRun(log, b), state), InState(Live(RedisRun(log, b), t), state);
    forall model ensures model in redis <==> model in memory && !Dropped(log, model, t, b) {
      ModelInState(log, model, t, b, state);
    }
    AsManyIff(redis, memory);
  }

  lemma ModelInState(log: seq<Event>, model: string, t: int, b: Backoff, state: State)
    requires Chronological(log) && (log != [] ==> log[|log| - 1].at <= t) && state != Available
    ensures model in InState(Live(RedisRun(log, b), t), state)
            <==> model in InState(MemoryRun(log, b), state) && !Dropped(log, model, t, b)
  {
    MemoryLists(log, model, b);
    RedisKeeps(log, model, b);
    FailuresCount(log, model, b);
    LastIsNotLate(log, model, t);
    if LiveFailures(log, model, b) >= 1 {
      DelayIsPositiveIff(b, LiveFailures(log, model, b));
    }
  }

  lemma AsManyIff(a: set<string>, b: set<string>)
    requires a <= b
    ensures |a| <= |b| && (|a| == |b| <==> b <= a)
  {
    assert |b| == |a| + |b - a| by {
      assert b == a + (b - a);
    }
    if |a| == |b| {
      assert b - a == {};
    }
  }

  /** One failure, once its mark has run out: every read of the model is the same, and the listings differ. */
  lemma ExpiredMarkIsListed(model: string, error: Option<string>, b: Backoff)
    requires Effective(b)
    ensures var log, t := [Event(0, model, Failure(error))], Delay(b, 1);
            && Chronological(log) && AlwaysAgree(log, b)
            && Visible(Stored(MemoryRun(log, b), model), t) == RedisGet(RedisRun(log, b), model, t) == AVAILABLE
            && Stored(MemoryRun(log, b), model) == Status(Unreachable, Some(t), error, 1)
            && Live(RedisRun(log, b), t) == map[] && !ListedAlike(log, t, b)
  {
    var e := Event(0, model, Failure(error));
    DelayIsPositiveIff(b, 1);
    assert [e][..0] == [];
    assert MemoryRun([e], b) == MemoryStep(map[], e, b) && RedisRun([e], b) == RedisStep(map[], e, b);
    assert NeverFailsAfterExpiry([e], b);
    StoresAgreeIff([e], b);
    assert !SeenAlike([e], model, Delay(b, 1), b);
  }
}
