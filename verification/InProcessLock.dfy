/** The in-process fallback of src/meno_rag/cache/redis_client.py: one asyncio lock per key in a dictionary
    whose entries are never replaced. */
module InProcessLock {

  type Task = nat
  type LockId = nat

  /** Where a task stands in `acquire`. */
  datatype Phase = Waiting(key: string, lock: LockId) | Inside(key: string, lock: LockId)

  /** `owner` tells for each lock object created so far which task holds it, if any. */
  datatype State = State(table: map<string, LockId>, created: nat, owner: map<LockId, Task>, tasks: map<Task, Phase>)

  const INITIAL := State(map[], 0, map[], map[])

  datatype Event =
    | Lookup(task: Task, key: string)   // `setdefault` under the dictionary lock
    | Resume(task: Task)                // the event loop lets a waiter try the lock
    | Leave(task: Task)                 // the `async with` block ends, or a waiter is cancelled

  function Step(s: State, e: Event): State {
    match e
    case Lookup(task, key) =>
      if task in s.tasks then s
      else if key in s.table then s.(tasks := s.tasks[task := Waiting(key, s.table[key])])
      else s.(table := s.table[key := s.created], created := s.created + 1,
        tasks := s.tasks[task := Waiting(key, s.created)])
    case Resume(task) =>
      if task in s.tasks && s.tasks[task].Waiting? && s.tasks[task].lock !in s.owner
      then s.(owner := s.owner[s.tasks[task].lock := task],
        tasks := s.tasks[task := Inside(s.tasks[task].key, s.tasks[task].lock)])
      else s
    case Leave(task) =>
      if task !in s.tasks then s
      else if s.tasks[task].Inside? then s.(owner := s.owner - {s.tasks[task].lock}, tasks := s.tasks - {task})
      else s.(tasks := s.tasks - {task})
  }

  /** The dictionary of locks and the tasks using it. */
  class LockTable {
    var table: map<string, LockId>
    var created: nat
    var owner: map<LockId, Task>
    var tasks: map<Task, Phase>

    constructor ()
      ensures Snapshot() == INITIAL
    {
      table, created, owner, tasks := map[], 0, map[], map[];
    }

    function Snapshot(): State
      reads this
    {
      State(table, created, owner, tasks)
    }

    method SetDefault(task: Task, key: string)
      modifies this
      ensures Snapshot() == Step(old(Snapshot()), Lookup(task, key))
    {
      if task !in tasks {
        if key !in table {
          table := table[key := created];
          created := created + 1;
        }
        tasks := tasks[task := Waiting(key, table[key])];
      }
    }

    method Lock(task: Task) returns (entered: bool)
      modifies this
      ensures Snapshot() == Step(old(Snapshot()), Resume(task))
      ensures entered <==> old(task in tasks && tasks[task].Waiting? && tasks[task].lock !in owner)
      ensures entered ==> task in tasks && tasks[task].Inside?
    {
      entered := task in tasks && tasks[task].Waiting? && tasks[task].lock !in owner;
      if entered {
        owner := owner[tasks[task].lock := task];
        tasks := tasks[task := Inside(tasks[task].key, tasks[task].lock)];
      }
    }

    method Unlock(task: Task)
      modifies this
      ensures Snapshot() == Step(old(Snapshot()), Leave(task))
    {
      if task in tasks {
        if tasks[task].Inside? {
          owner := owner - {tasks[task].lock};
        }
        tasks := tasks - {task};
      }
    }
  }

  function Run(events: seq<Event>): State {
    if events == [] then INITIAL else Step(Run(events[..|events| - 1]), events[|events| - 1])
  }

  ghost predicate TableSafe(s: State) {
    && (forall k :: k in s.table ==> s.table[k] < s.created)
    && (forall k, l :: k in s.table && l in s.table && s.table[k] == s.table[l] ==> k == l)
  }

  ghost predicate TaskSafe(s: State, t: Task)
    requires t in s.tasks
  {
    var p := s.tasks[t];
    && p.key in s.table && s.table[p.key] == p.lock
    && (p.Inside? ==> p.lock in s.owner && s.owner[p.lock] == t)
  }

  ghost predicate Safe(s: State) {
    TableSafe(s) && forall t :: t in s.tasks ==> TaskSafe(s, t)
  }

  lemma LookupKeepsSafe(s: State, task: Task, key: string)
    requires Safe(s)
    ensures Safe(Step(s, Lookup(task, key)))
  {
    var s' := Step(s, Lookup(task, key));
    forall t | t in s'.tasks && t in s.tasks ensures TaskSafe(s', t) {
      assert TaskSafe(s, t);
    }
  }

  lemma ResumeKeepsSafe(s: State, task: Task)
    requires Safe(s)
    ensures Safe(Step(s, Resume(task)))
  {
  }

  lemma LeaveKeepsSafe(s: State, task: Task)
    requires Safe(s)
    ensures Safe(Step(s, Leave(task)))
  {
    var s' := Step(s, Leave(task));
    assert task in s.tasks ==> TaskSafe(s, task);
    forall t | t in s'.tasks ensures TaskSafe(s', t) {
      assert TaskSafe(s, t);
    }
  }

  lemma StepKeepsSafe(s: State, e: Event)
    requires Safe(s)
    ensures Safe(Step(s, e))
  {
    match e
    case Lookup(task, key) => LookupKeepsSafe(s, task, key);
    case Resume(task) => ResumeKeepsSafe(s, task);
    case Leave(task) => LeaveKeepsSafe(s, task);
  }

  lemma {:induction false} RunIsSafe(events: seq<Event>)
    ensures Safe(Run(events))
  {
    if events == [] {
    } else {
      RunIsSafe(events[..|events| - 1]);
      StepKeepsSafe(Run(events[..|events| - 1]), events[|events| - 1]);
    }
  }

  /** Unconditional mutual exclusion per key, on every run, while tasks of different keys never wait for
      each other's lock. */
  lemma MutualExclusion(events: seq<Event>, t: Task, u: Task)
    requires t in Run(events).tasks && u in Run(events).tasks
    ensures var p, q := Run(events).tasks[t], Run(events).tasks[u];
            && (p.Inside? && q.Inside? && p.key == q.key ==> t == u)
            && (p.key == q.key <==> p.lock == q.lock)
  {
    RunIsSafe(events);
    assert TaskSafe(Run(events), t) && TaskSafe(Run(events), u);
  }

  lemma {:induction false} EntriesAreNeverReplaced(before: seq<Event>, later: seq<Event>, key: string)
    requires key in Run(before).table
    ensures key in Run(before + later).table && Run(before + later).table[key] == Run(before).table[key]
  {
    if later == [] {
      assert before + later == before;
    } else {
      EntriesAreNeverReplaced(before, later[..|later| - 1], key);
      assert (before + later)[..|before + later| - 1] == before + later[..|later| - 1];
    }
  }
}
