/** Pipeline detail is stored under the improvement consent only: src/meno_rag/api/main.py over
    src/meno_rag/db/repositories.py. */
module DataMinimisation {
  import opened Lists
  import opened Tables
  import opened Operations
  import opened ConsentSync
  import Erasure

  /** The subject granted the improvement consent at some time. */
  predicate OptedIn(consents: seq<ConsentEvent>, s: Owner) {
    true in Log(consents, s, MenoImprovement)
  }

  /** A run with question text, and one with stage, source or generation rows, belongs to somebody who had opted
      in. */
  ghost predicate DetailIsConsented(db: Db) {
    && Erasure.KeysResolve(db)
    && (forall r :: r in db.runs && db.runs[r].question != "" ==> OptedIn(db.consents, db.runs[r].owner))
    && (forall c :: c in db.children ==> OptedIn(db.consents, db.runs[c.run].owner))
  }

  lemma ConsentedOptedIn(consents: seq<ConsentEvent>, s: Owner)
    requires Consented(consents, s, MenoImprovement)
    ensures OptedIn(consents, s)
  {
    ConsentedIsLastOfLog(consents, s, MenoImprovement);
  }

  /** The log is append-only. */
  lemma {:induction false} OptedInForEver(consents: seq<ConsentEvent>, later: seq<ConsentEvent>, s: Owner)
    requires OptedIn(consents, s)
    ensures OptedIn(consents + later, s)
  {
    if later == [] {
      assert consents + later == consents;
    } else {
      OptedInForEver(consents, later[..|later| - 1], s);
      assert (consents + later)[..|consents + later| - 1] == consents + later[..|later| - 1];
    }
  }

  /** A transaction that adds no run and no child, and only appends to the log. */
  lemma FewerRowsStayConsented(db: Db, d: Db, more: seq<ConsentEvent>)
    requires DetailIsConsented(db) && Erasure.KeysResolve(d) && d.consents == db.consents + more
    requires forall r :: r in d.runs ==> r in db.runs && d.runs[r] == db.runs[r]
    requires forall c :: c in d.children ==> c in db.children
    ensures DetailIsConsented(d)
  {
    forall s | OptedIn(db.consents, s) ensures OptedIn(d.consents, s) {
      OptedInForEver(db.consents, more, s);
    }
  }

  lemma WithRunStaysConsented(db: Db, id: string, run: PipelineRun, children: seq<RunChild>)
    requires DetailIsConsented(db) && id !in db.runs && forall c :: c in children ==> c.run == id
    requires run.question != "" || children != [] ==> OptedIn(db.consents, run.owner)
    ensures DetailIsConsented(WithRun(db, id, run, children))
  {
  }

  lemma ChatStaysConsented(db: Db, q: ChatRequest, now: int)
    requires DetailIsConsented(db)
    ensures DetailIsConsented(ChatPersisted(db, q, now))
  {
    Erasure.ChatResolves(db, q, now);
    if Consented(db.consents, q.caller, MenoImprovement) {
      ConsentedOptedIn(db.consents, q.caller);
    }
  }

  lemma FailureStaysConsented(db: Db, run: string, session: string, question: string, caller: Owner, now: int)
    requires DetailIsConsented(db)
    ensures DetailIsConsented(FailurePersisted(db, run, session, question, caller, now))
  {
    var consented := Consented(db.consents, caller, MenoImprovement);
    if consented {
      ConsentedOptedIn(db.consents, caller);
    }
    if run !in db.runs {
      WithRunStaysConsented(db, run, PipelineRun(session, caller, if consented then question else "", now), []);
    }
  }

  lemma ErasedStaysConsented(db: Db, ids: set<string>)
    requires DetailIsConsented(db)
    ensures DetailIsConsented(ConversationsErased(db, ids))
  {
    Erasure.ConversationsErasedResolve(db, ids);
    FilterItems(db.children, ChildOutside(RunsOf(db.runs, ids)));
    FewerRowsStayConsented(db, ConversationsErased(db, ids), []);
  }

  lemma RunsErasedStaysConsented(db: Db, runIds: set<string>)
    requires DetailIsConsented(db)
    ensures DetailIsConsented(RunsErased(db, runIds))
  {
    Erasure.RunsErasedResolve(db, runIds);
    FilterItems(db.children, ChildOutside(runIds));
    FewerRowsStayConsented(db, RunsErased(db, runIds), []);
  }

  lemma SubjectErasedStaysConsented(db: Db, s: Owner)
    requires DetailIsConsented(db)
    ensures DetailIsConsented(SubjectErased(db, s))
  {
    var mid := ConversationsErased(db, OwnedBy(db, s));
    ErasedStaysConsented(db, OwnedBy(db, s));
    RunsErasedStaysConsented(mid, RunsTagged(mid.runs, s));
  }

  lemma HistoryErasedStaysConsented(db: Db, s: Owner)
    requires DetailIsConsented(db)
    ensures DetailIsConsented(HistoryErased(db, s))
  {
    ErasedStaysConsented(db, OwnedBy(db, s));
  }

  lemma HistoryClearedStaysConsented(db: Db, id: string, caller: Owner)
    requires DetailIsConsented(db)
    ensures DetailIsConsented(HistoryCleared(db, id, caller))
  {
    ErasedStaysConsented(db, {id});
  }

  lemma AgedStaysConsented(db: Db, cutoff: int)
    requires DetailIsConsented(db)
    ensures DetailIsConsented(Aged(db, cutoff))
  {
    var mid := ConversationsErased(db, Stale(db, cutoff));
    ErasedStaysConsented(db, Stale(db, cutoff));
    RunsErasedStaysConsented(mid, Orphans(mid, cutoff));
  }

  lemma RetentionStaysConsented(db: Db, now: int, days: int)
    requires DetailIsConsented(db)
    ensures DetailIsConsented(RetentionRun(db, now, days))
  {
    AgedStaysConsented(db, now - days * DAY);
  }

  lemma TurnStaysConsented(db: Db, q: TurnRequest, now: int)
    requires DetailIsConsented(db)
    ensures DetailIsConsented(TurnRecorded(db, q, now))
  {
    Erasure.TurnResolves(db, q, now);
    FewerRowsStayConsented(db, TurnRecorded(db, q, now), []);
  }

  lemma VoteStaysConsented(db: Db, v: Vote, pow: real -> real)
    requires (forall x :: pow(x) > 0.0) && DetailIsConsented(db)
    ensures DetailIsConsented(VoteSubmitted(db, v, pow))
  {
    Erasure.VoteResolves(db, v, pow);
    FewerRowsStayConsented(db, VoteSubmitted(db, v, pow), []);
  }

  lemma SettingsStayConsented(db: Db, s: Owner, improvement: bool)
    requires DetailIsConsented(db)
    ensures DetailIsConsented(SettingsChanged(db, s, improvement))
  {
    var d := SettingsChanged(db, s, improvement);
    FewerRowsStayConsented(db, d, d.consents[|db.consents|..]);
  }

  lemma StepStaysConsented(db: Db, op: Op, pow: real -> real)
    requires (forall x :: pow(x) > 0.0) && DetailIsConsented(db)
    ensures DetailIsConsented(Step(db, op, pow))
  {
    match op
    case Chat(q, now) => ChatStaysConsented(db, q, now);
    case Failed(run, session, question, caller, now) => FailureStaysConsented(db, run, session, question, caller, now);
    case Turn(q, now) => TurnStaysConsented(db, q, now);
    case Cast(v) => VoteStaysConsented(db, v, pow);
    case Patch(s, versionCurrent, service, improvement) => SettingsStayConsented(db, s, improvement);
    case EraseSubject(s) => SubjectErasedStaysConsented(db, s);
    case EraseHistory(s) => HistoryErasedStaysConsented(db, s);
    case Clear(id, caller) => HistoryClearedStaysConsented(db, id, caller);
    case Retain(now, days) => RetentionStaysConsented(db, now, days);
  }

  /** In every run, question text and pipeline detail are stored only for subjects that had opted in. */
  lemma {:induction false} EveryRunMinimises(users: set<string>, guests: set<string>, ops: seq<Op>, pow: real -> real)
    requires forall x :: pow(x) > 0.0
    ensures DetailIsConsented(Run(Fresh(users, guests), ops, pow))
  {
    if ops == [] {
    } else {
      EveryRunMinimises(users, guests, ops[..|ops| - 1], pow);
      StepStaysConsented(Run(Fresh(users, guests), ops[..|ops| - 1], pow), ops[|ops| - 1], pow);
    }
  }
}
