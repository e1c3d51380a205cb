/** That what was asked and answered is what is stored, column by column: `append_arena_turn`, `submit_vote`,
    `_persist_success` and `_persist_failure` over src/meno_rag/db/repositories.py. */
module StoredContent {
  import opened Roles
  import opened Text
  import opened Tables
  import opened Operations
  import ArenaOrder

  // ---------------------------------------------------------------- sources

  /** Title and link of a source; a missing field is an empty text. */
  function Title(source: Source): string {
    if "document_title" in source then source["document_title"] else ""
  }

  function Link(source: Source): string {
    if "source_url" in source then source["source_url"] else ""
  }

  /** The same titles and links in the same order. */
  ghost predicate SameSources(stored: seq<Source>, given: seq<Source>) {
    |stored| == |given|
    && forall i :: 0 <= i < |given| ==> Title(stored[i]) == Title(given[i]) && Link(stored[i]) == Link(given[i])
  }

  lemma ShownAreSame(sources: seq<Source>)
    ensures SameSources(ShownRefs(sources), sources)
  {
  }

  // ---------------------------------------------------------------- a posted comparison

  ghost predicate ShowsSide(stored: Side, given: Side) {
    stored.model == given.model && stored.kb == given.kb && stored.content == given.content
    && SameSources(stored.sources, given.sources)
  }

  /** A stored comparison shows the turn that was posted: side A is side A, side B is side B. */
  ghost predicate ShowsTurn(m: Message, q: TurnRequest) {
    && m.conversation == q.session && m.content == q.sideA.content
    && m.arena.Some? && m.arena.value.index == q.index
    && ShowsSide(m.arena.value.sideA, q.sideA) && ShowsSide(m.arena.value.sideB, q.sideB)
  }

  predicate Asks(m: Message, session: string, question: string) {
    m.conversation == session && m.role == User && m.content == question && m.arena.None? && m.sources.None?
  }

  /** Whether no comparison with the turn's number is stored in its conversation. */
  ghost predicate IsNew(messages: seq<Message>, q: TurnRequest) {
    q.index.None? || forall m :: m in messages ==>
      !(m.conversation == q.session && m.arena.Some? && m.arena.value.index == q.index)
  }

  /** The messages after a new turn. */
  ghost predicate PairAdded(before: seq<Message>, after: seq<Message>, q: TurnRequest) {
    && |after| == |before| + 2 && after[..|before|] == before
    && Asks(after[|before|], q.session, q.question)
    && after[|before| + 1].role == Assistant && ShowsTurn(after[|before| + 1], q)
  }

  /** The messages after a turn that was posted before. */
  ghost predicate TurnReplaced(before: seq<Message>, after: seq<Message>, q: TurnRequest, i: nat) {
    && i < |before| == |after|
    && before[i].conversation == q.session && before[i].arena.Some? && before[i].arena.value.index == q.index
    && after[i].role == before[i].role && ShowsTurn(after[i], q)
    && forall k :: 0 <= k < |before| && k != i ==> after[k] == before[k]
  }

  lemma ComparisonShows(q: TurnRequest, winner: Option<Winner>, m: Message)
    requires m.conversation == q.session
    ensures ShowsTurn(Comparison(q, winner), q) && ShowsTurn(Reposted(m, q, winner), q)
  {
    ShownAreSame(q.sideA.sources);
    ShownAreSame(q.sideB.sources);
  }

  lemma IsNewIff(messages: seq<Message>, q: TurnRequest)
    ensures IsNew(messages, q) <==> ArenaOrder.Place(messages, q) == |messages|
  {
    if ArenaOrder.Place(messages, q) < |messages| {
      assert messages[ArenaOrder.Place(messages, q)] in messages;
    }
  }

  /** An admitted turn appends its question and its comparison, or replaces the comparison with its number. */
  lemma TurnIsStored(db: Db, q: TurnRequest, now: int)
    requires !Refused(db, q.session, q.caller)
    ensures var after := TurnRecorded(db, q, now).messages;
            if IsNew(db.messages, q) then PairAdded(db.messages, after, q)
            else exists i :: TurnReplaced(db.messages, after, q, i)
  {
    var winner := VotedWinner(db.votes, q.session, q.index);
    var after, i := TurnRecorded(db, q, now).messages, ArenaOrder.Place(db.messages, q);
    ArenaOrder.RecordedMeaning(db, q, now);
    IsNewIff(db.messages, q);
    if i < |db.messages| {
      ComparisonShows(q, winner, db.messages[i]);
      assert TurnReplaced(db.messages, after, q, i);
    } else {
      ComparisonShows(q, winner, TurnQuestion(q));
    }
  }

  /** The side a verdict names, if it names one. */
  function Named(w: Winner, a: Side, b: Side): Option<Side> {
    match w
    case SideA => Some(a)
    case SideB => Some(b)
    case _ => None
  }

  /** A comparison that shows the turn with the verdict of the vote. */
  ghost predicate ShowsVerdict(m: Message, q: TurnRequest, w: Winner) {
    && ShowsTurn(m, q) && m.arena.value.winner == Some(w)
    && var shown, meant := Named(w, m.arena.value.sideA, m.arena.value.sideB), Named(w, q.sideA, q.sideB);
       shown.Some? == meant.Some? && (meant.Some? ==> ShowsSide(shown.value, meant.value))
  }

  lemma MarkedShows(m: Message, q: TurnRequest, w: Winner)
    requires ShowsTurn(m, q)
    ensures ShowsVerdict(m.(arena := Some(m.arena.value.(winner := Some(w)))), q, w)
  {
  }

  /** Where a turn just stored is found again. */
  lemma StoredTurnIsFound(messages: seq<Message>, q: TurnRequest, winner: Option<Winner>)
    requires q.index.Some?
    ensures var t := ArenaOrder.TurnMessages(messages, q, winner);
            var i := FindTurn(t, q.session, q.index.value);
            && i < |t| && ShowsTurn(t[i], q) && t[i].arena.value.winner == winner
  {
    var place := ArenaOrder.Place(messages, q);
    if place < |messages| {
      ComparisonShows(q, winner, messages[place]);
      ArenaOrder.FindTurnInSame(messages, ArenaOrder.TurnMessages(messages, q, winner), q.session, q.index.value);
    } else {
      ComparisonShows(q, winner, TurnQuestion(q));
      ArenaOrder.FindTurnAfter(messages, TurnQuestion(q), Comparison(q, winner), q.session, q.index.value);
    }
  }

  /** A vote on a stored turn: the comparison names as winner the side of the posted turn that the vote names. */
  lemma VoteNamesItsSide(db: Db, q: TurnRequest, v: Vote, now: int, pow: real -> real)
    requires (forall x :: pow(x) > 0.0) && ArenaOrder.OnTurn(v, q) && q.session != ""
    requires !Refused(db, q.session, q.caller) && !IsDuplicate(db, v) && !VoteRefused(TurnRecorded(db, q, now), v)
    ensures exists m :: m in VoteSubmitted(TurnRecorded(db, q, now), v, pow).messages && ShowsVerdict(m, q, v.winner)
  {
    var d := TurnRecorded(db, q, now);
    ArenaOrder.RecordedMeaning(db, q, now);
    ArenaOrder.VoteMeaning(d, v, pow);
    StoredTurnIsFound(db.messages, q, VotedWinner(db.votes, q.session, q.index));
    var i := FindTurn(d.messages, q.session, q.index.value);
    MarkedShows(d.messages[i], q, v.winner);
    assert VoteSubmitted(d, v, pow).messages[i] in VoteSubmitted(d, v, pow).messages;
  }

  lemma StoredTurnShowsVerdict(messages: seq<Message>, q: TurnRequest, w: Winner)
    requires q.index.Some?
    ensures exists m :: m in ArenaOrder.TurnMessages(messages, q, Some(w)) && ShowsVerdict(m, q, w)
  {
    StoredTurnIsFound(messages, q, Some(w));
    var t := ArenaOrder.TurnMessages(messages, q, Some(w));
    var i := FindTurn(t, q.session, q.index.value);
    assert t[i] in t && ShowsVerdict(t[i], q, w);
  }

  /** The same when the vote comes before its turn. */
  lemma EarlyVoteNamesItsSide(db: Db, q: TurnRequest, v: Vote, now: int, pow: real -> real)
    requires (forall x :: pow(x) > 0.0) && ArenaOrder.OnTurn(v, q) && q.session != ""
    requires !Refused(db, q.session, q.caller) && !IsDuplicate(db, v) && !VoteRefused(db, v)
    ensures exists m :: m in TurnRecorded(VoteSubmitted(db, v, pow), q, now).messages && ShowsVerdict(m, q, v.winner)
  {
    var d := VoteSubmitted(db, v, pow);
    ArenaOrder.VoteMeaning(db, v, pow);
    ArenaOrder.RecordedMeaning(d, q, now);
    ArenaOrder.WinnerSeenAfter(db, q, v);
    StoredTurnShowsVerdict(d.messages, q, v.winner);
  }

  // ---------------------------------------------------------------- a served question

  predicate Answers(m: Message, q: ChatRequest) {
    && m.conversation == q.session && m.role == Assistant && m.content == q.answer && m.arena.None?
    && m.origin == Some(Origin(q.model, q.run))
  }

  /** The rows of a run, in the order of their insertion: stages, the generation stage, sources, the record. */
  ghost predicate RowsOfRun(rows: seq<RunChild>, q: ChatRequest) {
    var n, k := |q.stages|, |q.sources|;
    && |rows| == n + k + 2
    && (forall i :: 0 <= i < n ==> rows[i] == StageRow(q.run, q.stages[i].name, q.stages[i].detail))
    && rows[n] == StageRow(q.run, "generation", q.generation)
    && (forall i :: 0 <= i < k ==>
          && rows[n + 1 + i].SourceRow? && rows[n + 1 + i].run == q.run && rows[n + 1 + i].ordinal == i
          && Title(rows[n + 1 + i].source) == Title(q.sources[i]) && Link(rows[n + 1 + i].source) == Link(q.sources[i]))
    && rows[n + k + 1] == GenerationRow(q.run, q.record)
  }

  lemma SourceRowsMeaning(run: string, sources: seq<Source>)
    ensures var rows := SourceRows(run, ShownRefs(sources));
            |rows| == |sources| && forall i :: 0 <= i < |rows| ==>
              && rows[i].SourceRow? && rows[i].run == run && rows[i].ordinal == i
              && Title(rows[i].source) == Title(sources[i]) && Link(rows[i].source) == Link(sources[i])
  {
    ShownAreSame(sources);
  }

  lemma StageRowsMeaning(run: string, stages: seq<Stage>, last: string)
    ensures var rows := StageRows(run, stages + [Stage("generation", last)]);
            && |rows| == |stages| + 1 && rows[|stages|] == StageRow(run, "generation", last)
            && forall i :: 0 <= i < |stages| ==> rows[i] == StageRow(run, stages[i].name, stages[i].detail)
  {
  }

  lemma RowsAreJoined(rows: seq<RunChild>, stages: seq<RunChild>, sources: seq<RunChild>, record: RunChild)
    requires rows == stages + sources + [record]
    ensures |rows| == |stages| + |sources| + 1 && rows[|stages| + |sources|] == record
    ensures forall i :: 0 <= i < |stages| ==> rows[i] == stages[i]
    ensures forall i :: 0 <= i < |sources| ==> rows[|stages| + i] == sources[i]
  {
  }

  lemma RunRowsMeaning(q: ChatRequest)
    ensures RowsOfRun(RunRows(q), q)
  {
    var stages, sources := StageRows(q.run, q.stages + [Stage("generation", q.generation)]),
      SourceRows(q.run, ShownRefs(q.sources));
    StageRowsMeaning(q.run, q.stages, q.generation);
    SourceRowsMeaning(q.run, q.sources);
    RowsAreJoined(RunRows(q), stages, sources, GenerationRow(q.run, q.record));
  }

  /** The question and the answer of a served request, as the last two messages. */
  ghost predicate DialogueAdded(before: seq<Message>, after: seq<Message>, q: ChatRequest) {
    && |after| == |before| + 2 && after[..|before|] == before
    && Asks(after[|before|], q.session, q.question) && after[|before|].origin == Some(Origin(q.model, q.run))
    && Answers(after[|before| + 1], q)
    && after[|before| + 1].sources.Some? && SameSources(after[|before| + 1].sources.value, q.sources)
  }

  /** The run of a served request with its rows. */
  ghost predicate RunAdded(before: Db, after: Db, q: ChatRequest, now: int) {
    && after.runs == before.runs[q.run := PipelineRun(q.session, q.caller, q.question, now)]
    && |after.children| >= |before.children| && after.children[..|before.children|] == before.children
    && RowsOfRun(after.children[|before.children|..], q)
  }

  /** Whether the request is stored at all: it is admitted, and its run id is free if a run is to be stored. */
  predicate IsStored(db: Db, q: ChatRequest) {
    !Refused(db, q.session, q.caller) && (Consented(db.consents, q.caller, MenoImprovement) ==> q.run !in db.runs)
  }

  /** A served request stores its dialogue unless it is half of a comparison, its run exactly under the improvement
      consent, and nothing else; one that is not stored changes nothing. */
  lemma ChatIsStored(db: Db, q: ChatRequest, now: int)
    ensures var d := ChatPersisted(db, q, now);
            if !IsStored(db, q) then d == db
            else
              && (if q.arena then d.messages == db.messages else DialogueAdded(db.messages, d.messages, q))
              && (if Consented(db.consents, q.caller, MenoImprovement) then RunAdded(db, d, q, now)
                  else d.runs == db.runs && d.children == db.children)
              && d == db.(messages := d.messages, conversations := d.conversations, runs := d.runs,
                          children := d.children)
  {
    RunRowsMeaning(q);
    ShownAreSame(q.sources);
    var d := ChatPersisted(db, q, now);
    if IsStored(db, q) && Consented(db.consents, q.caller, MenoImprovement) {
      assert d.children == db.children + RunRows(q);
      assert d.children[|db.children|..] == RunRows(q);
    }
  }

  /** The conversation of a written request: touched now, tagged with the caller, flagged by the consent. */
  lemma ChatTouchesItsConversation(db: Db, q: ChatRequest, now: int)
    requires IsStored(db, q) && !q.arena
    ensures var d := ChatPersisted(db, q, now);
            && d.conversations.Keys == db.conversations.Keys + {q.session}
            && (forall id :: id in db.conversations && id != q.session ==> d.conversations[id] == db.conversations[id])
            && var c := d.conversations[q.session];
               && c.updatedAt == now && c.analysisAllowed == Consented(db.consents, q.caller, MenoImprovement)
               && (q.caller.user.Some? ==> c.owner.user == q.caller.user)
               && (q.caller.guest.Some? ==> c.owner.guest == q.caller.guest)
               && (q.session in db.conversations ==>
                     && (q.caller.user.None? ==> c.owner.user == db.conversations[q.session].owner.user)
                     && (q.caller.guest.None? ==> c.owner.guest == db.conversations[q.session].owner.guest))
  {
  }

  /** A failed request stores its run, with the question exactly under the improvement consent. */
  lemma FailureIsStored(db: Db, run: string, session: string, question: string, caller: Owner, now: int)
    ensures var d := FailurePersisted(db, run, session, question, caller, now);
            if run in db.runs then d == db
            else
              && run in d.runs && d.runs[run].session == session && d.runs[run].owner == caller
              && d.runs[run].createdAt == now
              && (question != "" ==>
                    (d.runs[run].question == question <==> Consented(db.consents, caller, MenoImprovement)))
              && (!Consented(db.consents, caller, MenoImprovement) ==> d.runs[run].question == "")
              && d == db.(runs := db.runs[run := d.runs[run]])
  {
    assert db.children + [] == db.children;
  }
}
