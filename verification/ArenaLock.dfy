/** The arena vote lock of src/meno_rag/cache/redis_client.py as a step system with time: one step is one
    atomic Redis command (or one asyncio resumption), steps of all clients interleave freely.

    A client is known by its token, a fresh uuid per `acquire`. */
module ArenaLock {

  type Token = nat

  // ---------------------------------------------------------------- Redis backend

  /** A key's value and the instant its TTL runs out. */
  datatype Entry = Entry(token: Token, expires: int)

  /** A client between SET and the end of its critical section. */
  datatype Holder = Holder(key: string, since: int, ttl: int)

  datatype State = State(now: int, entries: map<string, Entry>, inside: map<Token, Holder>, leaving: map<Token, string>)

  const INITIAL := State(0, map[], map[], map[])

  datatype Event =
    | Tick(dt: nat)
    | TrySet(key: string, token: Token, ttl: int)   // one round of the retry loop
    | Exit(token: Token)                            // the body of the `with` block ends
    | Release(token: Token)                         // the compare-and-delete script
    | ReleaseFails(token: Token)                    // the script call raises; only a warning is logged

  predicate Live(s: State, key: string) {
    key in s.entries && s.now < s.entries[key].expires
  }

  /** SET key token NX EX ttl; a uuid token is never reused. */
  predicate CanSet(s: State, key: string, token: Token, ttl: int) {
    !Live(s, key) && ttl > 0 && token !in s.inside && token !in s.leaving
    && forall k :: k in s.entries ==> s.entries[k].token != token
  }

  function Step(s: State, e: Event): State {
    match e
    case Tick(dt) => s.(now := s.now + dt)
    case TrySet(key, token, ttl) =>
      if CanSet(s, key, token, ttl)
      then s.(entries := s.entries[key := Entry(token, s.now + ttl)],
              inside := s.inside[token := Holder(key, s.now, ttl)])
      else s
    case Exit(token) =>
      if token in s.inside
      then s.(inside := s.inside - {token}, leaving := s.leaving[token := s.inside[token].key])
      else s
    case Release(token) =>
      if token !in s.leaving then s
      else
        var key := s.leaving[token];
        var left := s.(leaving := s.leaving - {token});
        if Live(s, key) && s.entries[key].token == token then left.(entries := s.entries - {key}) else left
    case ReleaseFails(token) => s.(leaving := s.leaving - {token})
  }

  function Run(s: State, events: seq<Event>): State {
    if events == [] then s else Step(Run(s, events[..|events| - 1]), events[|events| - 1])
  }

  function Deadline(h: Holder): int {
    h.since + h.ttl
  }

  /** A lease that still runs is the key's entry. */
  ghost predicate FreshHolds(s: State, t: Token)
    requires t in s.inside
  {
    var h := s.inside[t];
    h.since <= s.now < Deadline(h) ==> h.key in s.entries && s.entries[h.key] == Entry(t, Deadline(h))
  }

  /** The leases of two clients of one key do not overlap in time. */
  ghost predicate Disjoint(h: Holder, g: Holder) {
    h.key == g.key ==> Deadline(h) <= g.since || Deadline(g) <= h.since
  }

  ghost predicate Safe(s: State) {
    && (forall t :: t in s.inside ==> s.inside[t].since <= s.now && s.inside[t].ttl > 0 && t !in s.leaving)
    && (forall t :: t in s.inside ==> FreshHolds(s, t))
    && (forall t, u :: t in s.inside && u in s.inside && t != u ==> Disjoint(s.inside[t], s.inside[u]))
  }

  lemma SetKeepsSafe(s: State, key: string, token: Token, ttl: int)
    requires Safe(s) && CanSet(s, key, token, ttl)
    ensures Safe(Step(s, TrySet(key, token, ttl)))
  {
    var s' := Step(s, TrySet(key, token, ttl));
    forall t | t in s.inside ensures FreshHolds(s', t) && Disjoint(s.inside[t], s'.inside[token]) {
      assert FreshHolds(s, t);
    }
    forall t, u | t in s'.inside && u in s'.inside && t != u ensures Disjoint(s'.inside[t], s'.inside[u]) {
      if t != token && u != token {
        assert Disjoint(s.inside[t], s.inside[u]);
      }
    }
  }

  lemma OtherStepsKeepSafe(s: State, e: Event)
    requires Safe(s) && !e.TrySet?
    ensures Safe(Step(s, e))
  {
    var s' := Step(s, e);
    forall t | t in s'.inside ensures FreshHolds(s', t) {
      assert t in s.inside && FreshHolds(s, t);
    }
    forall t, u | t in s'.inside && u in s'.inside && t != u ensures Disjoint(s'.inside[t], s'.inside[u]) {
      assert Disjoint(s.inside[t], s.inside[u]);
    }
  }

  lemma StepKeepsSafe(s: State, e: Event)
    requires Safe(s)
    ensures Safe(Step(s, e))
  {
    if e.TrySet? {
      if CanSet(s, e.key, e.token, e.ttl) {
        SetKeepsSafe(s, e.key, e.token, e.ttl);
      }
    } else {
      OtherStepsKeepSafe(s, e);
    }
  }

  lemma {:induction false} RunIsSafe(events: seq<Event>)
    ensures Safe(Run(INITIAL, events))
  {
    if events == [] {
    } else {
      RunIsSafe(events[..|events| - 1]);
      StepKeepsSafe(Run(INITIAL, events[..|events| - 1]), events[|events| - 1]);
    }
  }

  /** Mutual exclusion up to the TTL, on every run: when two clients are inside the section of one key, the
      one that entered first has outstayed its TTL already at the instant the other entered. */
  lemma OverlapMeansOutstayed(events: seq<Event>, t: Token, u: Token)
    requires var s := Run(INITIAL, events);
             t in s.inside && u in s.inside && t != u && s.inside[t].key == s.inside[u].key
    ensures var s := Run(INITIAL, events);
            || (s.inside[t].since < s.inside[u].since && Deadline(s.inside[t]) <= s.inside[u].since)
            || (s.inside[u].since < s.inside[t].since && Deadline(s.inside[u]) <= s.inside[t].since)
  {
    RunIsSafe(events);
    var s := Run(INITIAL, events);
    assert Disjoint(s.inside[t], s.inside[u]);
  }

  /** A release (and every other step than a new SET) leaves the live entry of a client still inside its
      section where it is. */
  lemma NobodyElseReleases(events: seq<Event>, e: Event, t: Token)
    requires var s := Run(INITIAL, events); t in s.inside && s.now < Deadline(s.inside[t])
    requires e != Exit(t) && !e.Tick?
    ensures var s, s' := Run(INITIAL, events), Step(Run(INITIAL, events), e);
            && t in s'.inside && s'.inside[t] == s.inside[t]
            && Live(s', s.inside[t].key) && s'.entries[s.inside[t].key] == Entry(t, Deadline(s.inside[t]))
  {
    RunIsSafe(events);
    StepKeepsSafe(Run(INITIAL, events), e);
    assert FreshHolds(Step(Run(INITIAL, events), e), t);
  }

  /** The documented caveat is real: a holder that stalls past its TTL shares the section, and its late
      release does not remove the newcomer's key. */
  lemma StalledHolderOverlaps()
    ensures var s := Run(INITIAL, [TrySet("k", 1, 30), Tick(30), TrySet("k", 2, 30)]);
            && 1 in s.inside && 2 in s.inside && s.inside[1].key == s.inside[2].key
            && Run(s, [Exit(1), Release(1)]).entries == s.entries
  {
    var a := [TrySet("k", 1, 30)];
    var b := [TrySet("k", 1, 30), Tick(30)];
    var c := [TrySet("k", 1, 30), Tick(30), TrySet("k", 2, 30)];
    assert a[..0] == [] && b[..1] == a && c[..2] == b;
    assert Run(INITIAL, a) == Step(INITIAL, a[0]);
    assert Run(INITIAL, b) == Step(Run(INITIAL, a), b[1]);
    var s := Run(INITIAL, c);
    assert s == Step(Run(INITIAL, b), c[2]);
    var d := [Exit(1), Release(1)];
    assert d[..1] == [Exit(1)] && d[..1][..0] == [];
    assert Run(s, d[..1]) == Step(s, d[0]);
  }

  // ---------------------------------------------------------------- the Redis server and the acquire loop

  datatype Waiting = Acquired | TimedOut | StillWaiting

  class RedisLock {
    var now: int
    var entries: map<string, Entry>
    var inside: map<Token, Holder>
    var leaving: map<Token, string>

    constructor ()
      ensures Snapshot() == INITIAL
    {
      now, entries, inside, leaving := 0, map[], map[], map[];
    }

    function Snapshot(): State
      reads this
    {
      State(now, entries, inside, leaving)
    }

    method SetNx(key: string, token: Token, ttl: int) returns (acquired: bool)
      modifies this
      ensures Snapshot() == Step(old(Snapshot()), TrySet(key, token, ttl))
      ensures acquired == CanSet(old(Snapshot()), key, token, ttl)
    {
      acquired := CanSet(Snapshot(), key, token, ttl);
      if acquired {
        entries := entries[key := Entry(token, now + ttl)];
        inside := inside[token := Holder(key, now, ttl)];
      }
    }

    method Leave(token: Token)
      modifies this
      ensures Snapshot() == Step(old(Snapshot()), Exit(token))
    {
      if token in inside {
        leaving := leaving[token := inside[token].key];
        inside := inside - {token};
      }
    }

    /** The Lua script: delete the key only while it still carries our token. */
    method CompareAndDelete(token: Token, callFails: bool)
      modifies this
      ensures Snapshot() == Step(old(Snapshot()), if callFails then ReleaseFails(token) else Release(token))
    {
      if !callFails && token in leaving {
        var key := leaving[token];
        if key in entries && now < entries[key].expires && entries[key].token == token {
          entries := entries - {key};
        }
      }
      leaving := leaving - {token};
    }

    /** What other clients and the clock do while this one sleeps. */
    method Others(events: seq<Event>)
      modifies this
      ensures Snapshot() == Run(old(Snapshot()), events)
    {
      for i := 0 to |events|
        invariant Snapshot() == Run(old(Snapshot()), events[..i])
      {
        assert events[..i + 1][..i] == events[..i];
        match events[i] {
          case Tick(dt) => now := now + dt;
          case TrySet(key, token, ttl) => var _ := SetNx(key, token, ttl);
          case Exit(token) => Leave(token);
          case Release(token) => CompareAndDelete(token, false);
          case ReleaseFails(token) => CompareAndDelete(token, true);
        }
      }
      assert events[..|events|] == events;
    }

    /** The retry loop of `acquire`; `sleeps[i]` is what happens elsewhere during the i-th sleep.  The loop is
        nothing but a run of the step system: it ends at the first attempt, numbered `n`, that wins or that
        fails past the deadline. */
    method Acquire(key: string, token: Token, ttl: int, deadline: int, sleeps: seq<seq<Event>>)
      returns (w: Waiting, n: nat)
      modifies this
      ensures n <= |sleeps| && (w == StillWaiting <==> n == |sleeps|)
      ensures forall k :: 0 <= k < n ==> var s := Attempted(old(Snapshot()), key, token, ttl, sleeps[..k]);
                                         !CanSet(s, key, token, ttl) && s.now <= deadline
      ensures var s := Attempted(old(Snapshot()), key, token, ttl, sleeps[..n]);
              && Snapshot() == (if w == StillWaiting then s else Step(s, TrySet(key, token, ttl)))
              && (w == Acquired ==> CanSet(s, key, token, ttl))
              && (w == TimedOut ==> !CanSet(s, key, token, ttl) && s.now > deadline)
    {
      n := 0;
      while n < |sleeps|
        invariant n <= |sleeps|
        invariant Snapshot() == Attempted(old(Snapshot()), key, token, ttl, sleeps[..n])
        invariant forall k :: 0 <= k < n ==> var s := Attempted(old(Snapshot()), key, token, ttl, sleeps[..k]);
                                             !CanSet(s, key, token, ttl) && s.now <= deadline
      {
        var acquired := SetNx(key, token, ttl);
        if acquired {
          return Acquired, n;
        }
        if now > deadline {
          return TimedOut, n;
        }
        Others(sleeps[n]);
        assert sleeps[..n + 1][..n] == sleeps[..n];
        n := n + 1;
      }
      w := StillWaiting;
    }
  }

  /** The state after one attempt of a client before each of the sleeps. */
  function Attempted(s: State, key: string, token: Token, ttl: int, sleeps: seq<seq<Event>>): State {
    if sleeps == [] then s
    else
      var front := Attempted(s, key, token, ttl, sleeps[..|sleeps| - 1]);
      Run(Step(front, TrySet(key, token, ttl)), sleeps[|sleeps| - 1])
  }

  /** All attempts and sleeps as one sequence of steps. */
  function Attempts(key: string, token: Token, ttl: int, sleeps: seq<seq<Event>>): seq<Event> {
    if sleeps == [] then []
    else Attempts(key, token, ttl, sleeps[..|sleeps| - 1]) + [TrySet(key, token, ttl)] + sleeps[|sleeps| - 1]
  }

  /** So the safety of all runs covers the retry loop. */
  lemma {:induction false} AttemptedIsRun(s: State, key: string, token: Token, ttl: int, sleeps: seq<seq<Event>>)
    ensures Attempted(s, key, token, ttl, sleeps) == Run(s, Attempts(key, token, ttl, sleeps))
  {
    if sleeps == [] {
    } else {
      var front := Attempts(key, token, ttl, sleeps[..|sleeps| - 1]);
      AttemptedIsRun(s, key, token, ttl, sleeps[..|sleeps| - 1]);
      RunAppend(s, front, [TrySet(key, token, ttl)]);
      RunOne(Run(s, front), TrySet(key, token, ttl));
      RunAppend(s, front + [TrySet(key, token, ttl)], sleeps[|sleeps| - 1]);
    }
  }

  lemma RunOne(s: State, e: Event)
    ensures Run(s, [e]) == Step(s, e)
  {
  }

  lemma {:induction false} RunAppend(s: State, a: seq<Event>, b: seq<Event>)
    ensures Run(s, a + b) == Run(Run(s, a), b)
  {
    if b == [] {
      assert a + b == a;
    } else {
      assert (a + b)[..|a + b| - 1] == a + b[..|b| - 1];
      RunAppend(s, a, b[..|b| - 1]);
    }
  }
}
