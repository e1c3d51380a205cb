/** Stored conversations and runs hold nothing of a source but its title and link, whatever the pipeline or a client
    hands over: `shown_source_refs`, src/meno_rag/db/repositories.py. */
module ShownSources {
  import opened Lists
  import opened Text
  import opened Tables
  import opened Operations

  ghost predicate Shown(sources: seq<Source>) {
    forall s :: s in sources ==> s.Keys == {"document_title", "source_url"}
  }

  ghost predicate MessageShown(m: Message) {
    && (m.sources.Some? ==> Shown(m.sources.value))
    && (m.arena.Some? ==> Shown(m.arena.value.sideA.sources) && Shown(m.arena.value.sideB.sources))
  }

  ghost predicate ChildShown(c: RunChild) {
    c.SourceRow? ==> Shown([c.source])
  }

  ghost predicate OnlyShown(db: Db) {
    && (forall m :: m in db.messages ==> MessageShown(m))
    && (forall c :: c in db.children ==> ChildShown(c))
  }

  /** The two fields arrive as they were, every other field is dropped, and showing again changes nothing. */
  lemma ShownRefsMeaning(sources: seq<Source>)
    ensures Shown(ShownRefs(sources)) && |ShownRefs(sources)| == |sources|
    ensures ShownRefs(ShownRefs(sources)) == ShownRefs(sources)
    ensures forall i, name :: 0 <= i < |sources| && name in {"document_title", "source_url"} ==>
              Field(ShownRefs(sources)[i], name) == Field(sources[i], name)
  {
    assert forall i :: 0 <= i < |sources| ==> ShownRef(ShownRef(sources[i])) == ShownRef(sources[i]);
  }

  lemma ComparisonIsShown(q: TurnRequest, winner: Option<Winner>)
    ensures MessageShown(Comparison(q, winner)) && MessageShown(TurnQuestion(q))
  {
    ShownRefsMeaning(q.sideA.sources);
    ShownRefsMeaning(q.sideB.sources);
  }

  lemma TurnStaysShown(db: Db, q: TurnRequest, now: int)
    requires OnlyShown(db)
    ensures OnlyShown(TurnRecorded(db, q, now))
  {
    var winner := VotedWinner(db.votes, q.session, q.index);
    ComparisonIsShown(q, winner);
    forall m | m in db.messages ensures MessageShown(Reposted(m, q, winner)) {
    }
  }

  lemma RowsAreShown(q: ChatRequest, c: RunChild)
    requires c in RunRows(q)
    ensures ChildShown(c)
  {
    ShownRefsMeaning(q.sources);
  }

  lemma ChatStaysShown(db: Db, q: ChatRequest, now: int)
    requires OnlyShown(db)
    ensures OnlyShown(ChatPersisted(db, q, now))
  {
    ShownRefsMeaning(q.sources);
    forall c | c in RunRows(q) ensures ChildShown(c) {
      RowsAreShown(q, c);
    }
  }

  lemma WinnerStaysShown(messages: seq<Message>, id: string, index: Option<nat>, w: Winner)
    requires forall m :: m in messages ==> MessageShown(m)
    ensures forall m :: m in WithWinner(messages, id, index, w) ==> MessageShown(m)
  {
    var marked := WithWinner(messages, id, index, w);
    forall k | 0 <= k < |marked| ensures MessageShown(marked[k]) {
      assert messages[k] in messages;
    }
  }

  /** A deletion. */
  lemma FewerStayShown(db: Db, d: Db)
    requires OnlyShown(db)
    requires forall m :: m in d.messages ==> m in db.messages
    requires forall c :: c in d.children ==> c in db.children
    ensures OnlyShown(d)
  {
  }

  lemma RunsErasedStayShown(db: Db, runIds: set<string>)
    requires OnlyShown(db)
    ensures OnlyShown(RunsErased(db, runIds))
  {
    FilterItems(db.children, ChildOutside(runIds));
    FewerStayShown(db, RunsErased(db, runIds));
  }

  lemma ErasedStaysShown(db: Db, ids: set<string>)
    requires OnlyShown(db)
    ensures OnlyShown(ConversationsErased(db, ids))
  {
    FilterItems(db.messages, MessageOutside(ids));
    FilterItems(db.children, ChildOutside(RunsOf(db.runs, ids)));
    FewerStayShown(db, ConversationsErased(db, ids));
  }

  lemma SubjectErasedStaysShown(db: Db, s: Owner)
    requires OnlyShown(db)
    ensures OnlyShown(SubjectErased(db, s))
  {
    var mid := ConversationsErased(db, OwnedBy(db, s));
    ErasedStaysShown(db, OwnedBy(db, s));
    RunsErasedStayShown(mid, RunsTagged(mid.runs, s));
  }

  lemma AgedStaysShown(db: Db, cutoff: int)
    requires OnlyShown(db)
    ensures OnlyShown(Aged(db, cutoff))
  {
    var mid := ConversationsErased(db, Stale(db, cutoff));
    ErasedStaysShown(db, Stale(db, cutoff));
    RunsErasedStayShown(mid, Orphans(mid, cutoff));
  }

  lemma FailureStaysShown(db: Db, run: string, session: string, question: string, caller: Owner, now: int)
    requires OnlyShown(db)
    ensures OnlyShown(FailurePersisted(db, run, session, question, caller, now))
  {
  }

  lemma SettingsStayShown(db: Db, s: Owner, versionCurrent: bool, service: bool, improvement: bool)
    requires OnlyShown(db)
    ensures OnlyShown(SettingsPatched(db, s, versionCurrent, service, improvement))
  {
  }

  lemma VoteStaysShown(db: Db, v: Vote, pow: real -> real)
    requires (forall x :: pow(x) > 0.0) && OnlyShown(db)
    ensures OnlyShown(VoteSubmitted(db, v, pow))
  {
    WinnerStaysShown(db.messages, if v.session.Some? then v.session.value else "", v.index, v.winner);
  }

  lemma StepStaysShown(db: Db, op: Op, pow: real -> real)
    requires (forall x :: pow(x) > 0.0) && OnlyShown(db)
    ensures OnlyShown(Step(db, op, pow))
  {
    match op
    case Chat(q, now) => ChatStaysShown(db, q, now);
    case Failed(run, session, question, caller, now) => FailureStaysShown(db, run, session, question, caller, now);
    case Turn(q, now) => TurnStaysShown(db, q, now);
    case Cast(v) => VoteStaysShown(db, v, pow);
    case Patch(s, versionCurrent, service, improvement) =>
      SettingsStayShown(db, s, versionCurrent, service, improvement);
    case EraseSubject(s) => SubjectErasedStaysShown(db, s);
    case EraseHistory(s) => ErasedStaysShown(db, OwnedBy(db, s));
    case Clear(id, caller) => ErasedStaysShown(db, {id});
    case Retain(now, days) => AgedStaysShown(db, now - days * DAY);
  }

  /** In every run, stored messages, compared sides and source rows hold the title and the link of a source only. */
  lemma {:induction false} EveryRunShows(users: set<string>, guests: set<string>, ops: seq<Op>, pow: real -> real)
    requires forall x :: pow(x) > 0.0
    ensures OnlyShown(Run(Fresh(users, guests), ops, pow))
  {
    if ops == [] {
    } else {
      EveryRunShows(users, guests, ops[..|ops| - 1], pow);
      StepStaysShown(Run(Fresh(users, guests), ops[..|ops| - 1], pow), ops[|ops| - 1], pow);
    }
  }
}
