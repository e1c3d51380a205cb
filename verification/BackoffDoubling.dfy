/** How long failures block a model in the two status stores of src/meno_rag/llm/status.py: one backoff first, twice as
    long each further time, never longer than the maximum. */
module BackoffDoubling {
  import opened Text
  import opened ModelStatus

  function Min(a: int, b: int): int {
    if a <= b then a else b
  }

  lemma Doubled(s: int, p: int, q: int)
    requires q == 2 * p
    ensures s * q == 2 * (s * p)
  {
  }

  /** The first failure blocks for one backoff, each further one for twice the block before, up to the maximum. */
  lemma DelayDoubles(b: Backoff, n: nat)
    requires n >= 1 && 0 <= b.seconds && 0 <= b.max
    ensures Delay(b, 1) == Min(b.seconds, b.max) && Delay(b, n + 1) == Min(2 * Delay(b, n), b.max)
  {
    assert Pow2(0) == 1 && Pow2(n) == 2 * Pow2(n - 1);
    Doubled(b.seconds, Pow2(n - 1), Pow2(n));
  }

  /** What `get` shows of a blocked model: since when it is blocked for how long, and after how many failures. */
  ghost predicate BlockedFor(s: Status, at: int, delay: int, error: Option<string>, failures: nat) {
    s == Status(Unreachable, Some(at + delay), error, failures)
  }

  lemma LastOf(log: seq<Event>, e: Event)
    ensures (log + [e])[..|log|] == log && (log + [e])[|log|] == e
  {
  }

  /** In memory, a failure after none: `get` shows one backoff until that has passed. */
  lemma FirstFailureInMemory(log: seq<Event>, e: Event, error: Option<string>, b: Backoff, t: int)
    requires e.change == Failure(error) && ConsecutiveFailures(log, e.model) == 0
    requires 0 <= b.seconds && 0 <= b.max && t < e.at + Min(b.seconds, b.max)
    ensures BlockedFor(Visible(Stored(MemoryRun(log + [e], b), e.model), t), e.at, Min(b.seconds, b.max), error, 1)
  {
    LastOf(log, e);
    MemoryTracksLog(log, e.model, b);
    DelayDoubles(b, 1);
  }

  /** In memory, a failure after others: `get` shows twice the block of the failure before, up to the maximum. */
  lemma NextFailureInMemory(log: seq<Event>, before: int, delay: int, cause: Option<string>, n: nat, e: Event,
                            error: Option<string>, b: Backoff, t: int)
    requires e.change == Failure(error) && n >= 1 && 0 <= b.seconds && 0 <= b.max
    requires BlockedFor(Stored(MemoryRun(log, b), e.model), before, delay, cause, n)
    requires delay == Delay(b, n) && t < e.at + Min(2 * delay, b.max)
    ensures BlockedFor(Visible(Stored(MemoryRun(log + [e], b), e.model), t), e.at, Min(2 * delay, b.max), error, n + 1)
  {
    LastOf(log, e);
    DelayDoubles(b, n);
  }

  /** In Redis, a failure while nothing blocks the model: `get` shows one backoff. */
  lemma FirstFailureInRedis(log: seq<Event>, e: Event, error: Option<string>, b: Backoff, t: int)
    requires e.change == Failure(error) && RedisGet(RedisRun(log, b), e.model, e.at).failures == 0
    requires 0 <= b.seconds && 0 <= b.max && e.at <= t < e.at + Min(b.seconds, b.max)
    ensures BlockedFor(RedisGet(RedisRun(log + [e], b), e.model, t), e.at, Min(b.seconds, b.max), error, 1)
  {
    LastOf(log, e);
    DelayDoubles(b, 1);
  }

  /** In Redis, a failure while the mark of the one before still holds: twice its block, up to the maximum. */
  lemma NextFailureInRedis(log: seq<Event>, before: int, delay: int, cause: Option<string>, n: nat, e: Event,
                           error: Option<string>, b: Backoff, t: int)
    requires e.change == Failure(error) && n >= 1 && 0 <= b.seconds && 0 <= b.max
    requires BlockedFor(RedisGet(RedisRun(log, b), e.model, e.at), before, delay, cause, n)
    requires delay == Delay(b, n) && e.at <= t < e.at + Min(2 * delay, b.max)
    ensures BlockedFor(RedisGet(RedisRun(log + [e], b), e.model, t), e.at, Min(2 * delay, b.max), error, n + 1)
  {
    LastOf(log, e);
    DelayDoubles(b, n);
  }

  // ---------------------------------------------------------------- a streak of failures

  /** The blocks of a streak, one failure after another. */
  function Blocks(b: Backoff, n: nat): int
    requires n >= 1
  {
    if n == 1 then Min(b.seconds, b.max) else Min(2 * Blocks(b, n - 1), b.max)
  }

  /** Failures of one model, each before the mark of the one before has run out. */
  ghost predicate IsStreak(log: seq<Event>, model: string, b: Backoff) {
    && (forall i :: 0 <= i < |log| ==> log[i].model == model && log[i].change.Failure?)
    && (forall i :: 1 <= i < |log| ==> log[i - 1].at <= log[i].at < log[i - 1].at + Blocks(b, i))
  }

  lemma {:induction false} BlocksAreDelays(b: Backoff, n: nat)
    requires n >= 1 && 0 <= b.seconds && 0 <= b.max
    ensures Blocks(b, n) == Delay(b, n)
  {
    DelayDoubles(b, n);
    if n > 1 {
      BlocksAreDelays(b, n - 1);
      DelayDoubles(b, n - 1);
    }
  }

  /** Both stores show the model blocked by the failure `e`, the `n`-th in a row. */
  ghost predicate BothBlocked(log: seq<Event>, e: Event, n: nat, b: Backoff, t: int)
    requires n >= 1 && e.change.Failure?
  {
    && BlockedFor(Visible(Stored(MemoryRun(log, b), e.model), t), e.at, Blocks(b, n), e.change.error, n)
    && BlockedFor(RedisGet(RedisRun(log, b), e.model, t), e.at, Blocks(b, n), e.change.error, n)
  }

  lemma StreakBegins(log: seq<Event>, e: Event, b: Backoff, t: int)
    requires log == [] + [e] && e.change.Failure? && 0 <= b.seconds && 0 <= b.max && e.at <= t < e.at + Blocks(b, 1)
    ensures BothBlocked(log, e, 1, b, t)
  {
    FirstFailureInMemory([], e, e.change.error, b, t);
    FirstFailureInRedis([], e, e.change.error, b, t);
  }

  lemma StreakGoesOn(front: seq<Event>, last: Event, n: nat, e: Event, log: seq<Event>, b: Backoff, t: int)
    requires log == front + [e] && n >= 1 && last.change.Failure? && e.change.Failure? && e.model == last.model
    requires 0 <= b.seconds && 0 <= b.max && BothBlocked(front, last, n, b, e.at)
    requires e.at <= t < e.at + Blocks(b, n + 1)
    ensures BothBlocked(log, e, n + 1, b, t)
  {
    BlocksAreDelays(b, n);
    NextFailureInMemory(front, last.at, Blocks(b, n), last.change.error, n, e, e.change.error, b, t);
    NextFailureInRedis(front, last.at, Blocks(b, n), last.change.error, n, e, e.change.error, b, t);
  }

  /** After n failures in a row, each while the mark of the one before held, `get` of both stores shows the n-th block:
      one backoff, doubled n - 1 times, up to the maximum. */
  lemma {:induction false} StreakIsBlocked(log: seq<Event>, model: string, b: Backoff, t: int)
    requires log != [] && IsStreak(log, model, b) && 0 <= b.seconds && 0 <= b.max
    requires log[|log| - 1].at <= t < log[|log| - 1].at + Blocks(b, |log|)
    ensures BothBlocked(log, log[|log| - 1], |log|, b, t)
  {
    var n := |log| - 1;
    var front, e := log[..n], log[n];
    assert log == front + [e];
    if n == 0 {
      StreakBegins(log, e, b, t);
    } else {
      assert log[n - 1].at <= log[n].at < log[n - 1].at + Blocks(b, n);
      StreakIsBlocked(front, model, b, e.at);
      StreakGoesOn(front, log[n - 1], n, e, log, b, t);
    }
  }
}
