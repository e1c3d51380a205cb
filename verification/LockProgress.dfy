/** That the vote lock is given back: what a release, a failed release and a passed TTL leave for the next client, on
    Redis and in process (src/meno_rag/cache/redis_client.py). */
module LockProgress {
  import opened ArenaLock
  import P = InProcessLock

  // ---------------------------------------------------------------- Redis

  /** A token nobody has used yet. */
  ghost predicate Unused(s: State, token: Token) {
    token !in s.inside && token !in s.leaving && forall k :: k in s.entries ==> s.entries[k].token != token
  }

  /** A client that has left its section and not yet released, its key still its own. */
  ghost predicate Owns(s: State, t: Token, h: Holder) {
    && t !in s.inside && t in s.leaving && s.leaving[t] == h.key
    && s.now < Deadline(h) && h.key in s.entries && s.entries[h.key] == Entry(t, Deadline(h))
  }

  /** No step of anybody else touches that key before its deadline. */
  lemma OwnsStep(s: State, e: Event, t: Token, h: Holder)
    requires Owns(s, t, h) && Step(s, e).now < Deadline(h) && e != Release(t) && e != ReleaseFails(t)
    ensures Owns(Step(s, e), t, h)
  {
  }

  lemma {:induction false} TimePasses(s: State, events: seq<Event>)
    ensures s.now <= Run(s, events).now
  {
    if events == [] {
    } else {
      TimePasses(s, events[..|events| - 1]);
    }
  }

  lemma {:induction false} OwnsRun(s: State, events: seq<Event>, t: Token, h: Holder)
    requires Owns(s, t, h) && Run(s, events).now < Deadline(h)
    requires Release(t) !in events && ReleaseFails(t) !in events
    ensures Owns(Run(s, events), t, h)
  {
    if events == [] {
    } else {
      var front, e := events[..|events| - 1], events[|events| - 1];
      assert Run(s, front).now <= Run(s, events).now;
      OwnsRun(s, front, t, h);
      assert e in events;
      OwnsStep(Run(s, front), e, t, h);
    }
  }

  /** On every run: a client that leaves and, whatever happens in between, releases before its deadline frees its key
      at once.  Nothing else changes, and every fresh token with a positive TTL can set the key. */
  lemma ReleaseFreesTheKey(events: seq<Event>, between: seq<Event>, t: Token)
    requires t in Run(INITIAL, events).inside && Release(t) !in between && ReleaseFails(t) !in between
    requires Run(Step(Run(INITIAL, events), Exit(t)), between).now < Deadline(Run(INITIAL, events).inside[t])
    ensures var key := Run(INITIAL, events).inside[t].key;
            var before := Run(Step(Run(INITIAL, events), Exit(t)), between);
            var after := Step(before, Release(t));
            && key in before.entries && before.entries[key].token == t
            && after == before.(entries := before.entries - {key}, leaving := before.leaving - {t})
            && !Live(after, key)
            && forall u: Token, ttl: int :: Unused(after, u) && ttl > 0 ==> CanSet(after, key, u, ttl)
  {
    var s := Run(INITIAL, events);
    var h := s.inside[t];
    RunIsSafe(events);
    TimePasses(Step(s, Exit(t)), between);
    assert FreshHolds(s, t);
    assert Owns(Step(s, Exit(t)), t, h);
    OwnsRun(Step(s, Exit(t)), between, t, h);
  }

  /** The next client of the key enters at its first attempt. */
  lemma NextClientEnters(s: State, t: Token, u: Token, ttl: int)
    requires Safe(s) && t in s.inside && s.now < Deadline(s.inside[t]) && u != t && Unused(s, u) && ttl > 0
    ensures var key := s.inside[t].key;
            var n := Step(Step(Step(s, Exit(t)), Release(t)), TrySet(key, u, ttl));
            && t !in n.inside && u in n.inside && n.inside[u] == Holder(key, s.now, ttl)
            && key in n.entries && n.entries[key] == Entry(u, s.now + ttl)
  {
    assert FreshHolds(s, t);
  }

  /** Two votes on one pair in a row: the second acquires the lock in its first round. */
  method HandOver(lock: RedisLock, t: Token, u: Token, ttl: int, deadline: int, sleeps: seq<seq<Event>>)
    returns (w: Waiting, n: nat)
    requires Safe(lock.Snapshot()) && t in lock.inside && lock.now < Deadline(lock.inside[t])
    requires u != t && Unused(lock.Snapshot(), u) && ttl > 0 && sleeps != []
    modifies lock
    ensures w == Acquired && n == 0
    ensures u in lock.inside && lock.inside[u].key == old(lock.inside[t].key) && t !in lock.inside
  {
    var key := lock.inside[t].key;
    ghost var s := lock.Snapshot();
    NextClientEnters(s, t, u, ttl);
    assert FreshHolds(s, t);
    lock.Leave(t);
    lock.CompareAndDelete(t, false);
    assert CanSet(Attempted(lock.Snapshot(), key, u, ttl, sleeps[..0]), key, u, ttl);
    w, n := lock.Acquire(key, u, ttl, deadline, sleeps);
  }

  /** A release that fails leaves the key to its TTL: nobody sets it before, everybody can from then on. */
  lemma FailedReleaseExpires(s: State, t: Token, dt: nat, u: Token, ttl: int)
    requires Safe(s) && t in s.inside && s.now < Deadline(s.inside[t]) && u != t && Unused(s, u) && ttl > 0
    ensures var later := Step(Step(Step(s, Exit(t)), ReleaseFails(t)), Tick(dt));
            CanSet(later, s.inside[t].key, u, ttl) <==> s.now + dt >= Deadline(s.inside[t])
  {
    assert FreshHolds(s, t);
  }

  // ---------------------------------------------------------------- in process

  /** A lock that is taken is taken by a task inside its section. */
  ghost predicate NoLockLost(s: P.State) {
    forall l :: l in s.owner ==>
      s.owner[l] in s.tasks && s.tasks[s.owner[l]].Inside? && s.tasks[s.owner[l]].lock == l
  }

  lemma StepLosesNoLock(s: P.State, e: P.Event)
    requires P.Safe(s) && NoLockLost(s)
    ensures NoLockLost(P.Step(s, e))
  {
  }

  lemma {:induction false} RunLosesNoLock(events: seq<P.Event>)
    ensures NoLockLost(P.Run(events))
  {
    if events == [] {
    } else {
      RunLosesNoLock(events[..|events| - 1]);
      P.RunIsSafe(events[..|events| - 1]);
      StepLosesNoLock(P.Run(events[..|events| - 1]), events[|events| - 1]);
    }
  }

  /** On every run a waiting task enters, when it is resumed, exactly when nobody is inside the section of its key. */
  lemma WaiterEntersIff(events: seq<P.Event>, u: P.Task)
    requires u in P.Run(events).tasks && P.Run(events).tasks[u].Waiting?
    ensures var s := P.Run(events);
            var n := P.Step(s, P.Resume(u));
            (u in n.tasks && n.tasks[u] == P.Inside(s.tasks[u].key, s.tasks[u].lock))
            <==> forall t :: t in s.tasks && s.tasks[t].key == s.tasks[u].key ==> !s.tasks[t].Inside?
  {
    var s := P.Run(events);
    P.RunIsSafe(events);
    RunLosesNoLock(events);
    assert P.TaskSafe(s, u);
    var l := s.tasks[u].lock;
    if l in s.owner {
      assert P.TaskSafe(s, s.owner[l]);
    }
    forall t | t in s.tasks && s.tasks[t].key == s.tasks[u].key && s.tasks[t].Inside? ensures l in s.owner {
      assert P.TaskSafe(s, t);
    }
  }

  /** When a task leaves its section, the next waiter of the key enters. */
  lemma LeaveAdmitsTheNext(events: seq<P.Event>, t: P.Task, u: P.Task)
    requires var s := P.Run(events);
             && t in s.tasks && s.tasks[t].Inside? && u in s.tasks && s.tasks[u].Waiting?
             && s.tasks[t].key == s.tasks[u].key
    ensures var n := P.Step(P.Step(P.Run(events), P.Leave(t)), P.Resume(u));
            t !in n.tasks && u in n.tasks && n.tasks[u].Inside?
  {
    var s := P.Run(events);
    P.RunIsSafe(events);
    assert P.TaskSafe(s, t) && P.TaskSafe(s, u);
  }
}
