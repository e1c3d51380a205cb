/** The store with its tables updated in place, one method per repository function or endpoint, each tied to
    the transaction it performs. */
module Store {
  import opened Lists
  import opened Roles
  import opened Text
  import opened Tables
  import opened Operations

  class Session {
    var conversations: map<string, Conversation>
    var messages: seq<Message>
    var votes: seq<Vote>
    var ratings: seq<Rating>
    var runs: map<string, PipelineRun>
    var children: seq<RunChild>
    var feedback: seq<Feedback>
    var surveys: seq<Survey>
    var users: set<string>
    var guests: set<string>
    var consents: seq<ConsentEvent>

    constructor (users: set<string>, guests: set<string>)
      ensures Tables() == Fresh(users, guests)
    {
      conversations, messages, votes, ratings := map[], [], [], [];
      runs, children, feedback, surveys := map[], [], [], [];
      this.users, this.guests, consents := users, guests, [];
    }

    function Tables(): Db
      reads this
    {
      Db(conversations, messages, votes, ratings, runs, children, feedback, surveys, users, guests, consents)
    }

    // ------------------------------------------------------------ conversations and messages

    method EnsureConversation(id: string, caller: Owner, allowed: Option<bool>, now: int)
      modifies this
      ensures Tables() == Ensured(old(Tables()), id, caller, allowed, now)
    {
      if id !in conversations {
        conversations := conversations[id := Conversation(caller, allowed == Some(true), now)];
      }
      var c := conversations[id];
      if caller.user.Some? {
        c := c.(owner := c.owner.(user := caller.user));
      }
      if caller.guest.Some? {
        c := c.(owner := c.owner.(guest := caller.guest));
      }
      if allowed.Some? {
        c := c.(analysisAllowed := allowed.value);
      }
      conversations := conversations[id := c.(updatedAt := now)];
    }

    method AppendMessage(m: Message, now: int)
      modifies this
      ensures Tables() == Appended(old(Tables()), m, now)
    {
      EnsureConversation(m.conversation, NOBODY, None, now);
      messages := messages + [m];
    }

    /** `current_consent_state`: one pass over the subject's log, the latest decision per purpose wins. */
    method CurrentConsentState(s: Owner) returns (state: map<Purpose, bool>)
      ensures state.Keys == {ServiceAndHistory, AccountRegistration, MenoImprovement}
      ensures forall p :: p in state ==> state[p] == Consented(consents, s, p)
    {
      state := map[ServiceAndHistory := false, AccountRegistration := false, MenoImprovement := false];
      for i := 0 to |consents|
        invariant state.Keys == {ServiceAndHistory, AccountRegistration, MenoImprovement}
        invariant forall p :: p in state ==> state[p] == Consented(consents[..i], s, p)
      {
        assert consents[..i + 1][..i] == consents[..i];
        var e := consents[i];
        assert e.purpose in state by {
          match e.purpose { case ServiceAndHistory => case AccountRegistration => case MenoImprovement => }
        }
        if Tagged(e.owner, s) {
          state := state[e.purpose := e.granted];
        }
      }
      assert consents[..|consents|] == consents;
    }

    method CreatePipelineRun(id: string, run: PipelineRun)
      modifies this
      ensures Tables() == WithRun(old(Tables()), id, run, [])
    {
      runs := runs[id := run];
    }

    method AddPipelineStage(run: string, stage: Stage)
      modifies this
      ensures Tables() == old(Tables()).(children := old(children) + [StageRow(run, stage.name, stage.detail)])
    {
      children := children + [StageRow(run, stage.name, stage.detail)];
    }

    method AddSources(run: string, sources: seq<Source>)
      modifies this
      ensures Tables() == old(Tables()).(children := old(children) + SourceRows(run, ShownRefs(sources)))
    {
      var shown := ShownRefs(sources);
      for i := 0 to |shown|
        invariant Tables() == old(Tables()).(children := old(children) + SourceRows(run, shown)[..i])
      {
        children := children + [SourceRow(run, i, shown[i])];
      }
    }

    /** The loop over the reported stages, and the generation stage after them. */
    method AddStages(run: string, stages: seq<Stage>, generation: string)
      modifies this
      ensures Tables() == old(Tables()).(children := old(children)
                                                     + StageRows(run, stages + [Stage("generation", generation)]))
    {
      ghost var rows := StageRows(run, stages + [Stage("generation", generation)]);
      for i := 0 to |stages|
        invariant Tables() == old(Tables()).(children := old(children) + rows[..i])
      {
        AddPipelineStage(run, stages[i]);
      }
      AddPipelineStage(run, Stage("generation", generation));
      assert rows == rows[..|stages|] + [StageRow(run, "generation", generation)];
    }

    /** The run of a served request and its children. */
    method StoreRun(q: ChatRequest, now: int)
      modifies this
      ensures Tables() == WithRun(old(Tables()), q.run, PipelineRun(q.session, q.caller, q.question, now), RunRows(q))
    {
      CreatePipelineRun(q.run, PipelineRun(q.session, q.caller, q.question, now));
      AddStages(q.run, q.stages, q.generation);
      AddSources(q.run, q.sources);
      children := children + [GenerationRow(q.run, q.record)];
    }

    /** `_persist_success`; `traced` when the trace is handed to the background writer. */
    method PersistSuccess(q: ChatRequest, now: int) returns (traced: bool)
      modifies this
      ensures Tables() == ChatPersisted(old(Tables()), q, now)
      ensures traced == Traced(old(Tables()), q)
    {
      var state := CurrentConsentState(q.caller);
      var improvement := state[MenoImprovement];
      if q.session in conversations && !OwnerMatches(conversations[q.session], q.caller) {
        return false;
      }
      traced := improvement && q.trace.Some?;
      if improvement && q.run in runs {
        return;
      }
      if !q.arena {
        EnsureConversation(q.session, q.caller, Some(improvement), now);
        AppendMessage(ChatQuestion(q), now);
        AppendMessage(ChatAnswer(q), now);
      }
      if improvement {
        StoreRun(q, now);
      }
    }

    method PersistFailure(run: string, session: string, question: string, caller: Owner, now: int)
      modifies this
      ensures Tables() == FailurePersisted(old(Tables()), run, session, question, caller, now)
    {
      var state := CurrentConsentState(caller);
      if run in runs {
        return;
      }
      var kept := if state[MenoImprovement] then question else "";
      CreatePipelineRun(run, PipelineRun(session, caller, kept, now));
    }

    // ------------------------------------------------------------ arena turns and votes

    method ScanForTurn(id: string, index: nat) returns (i: nat)
      ensures i == FindTurn(messages, id, index)
    {
      i := 0;
      while i < |messages| && !IsTurn(messages[i], id, index)
        invariant i <= |messages|
        invariant forall k :: 0 <= k < i ==> !IsTurn(messages[k], id, index)
      {
        i := i + 1;
      }
    }

    method AppendArenaTurn(q: TurnRequest, improvement: bool, now: int)
      modifies this
      ensures Tables() == TurnStored(Ensured(old(Tables()), q.session, q.caller, Some(improvement), now), q, now)
    {
      EnsureConversation(q.session, q.caller, Some(improvement), now);
      var winner: Option<Winner> := None;
      if q.index.Some? {
        winner := VotedWinner(votes, q.session, q.index);
        var i := ScanForTurn(q.session, q.index.value);
        if i < |messages| {
          messages := messages[i := messages[i].(content := q.sideA.content,
            arena := Some(ArenaTurn(q.index, winner, ShownSide(q.sideA), ShownSide(q.sideB))))];
          return;
        }
      }
      AppendMessage(TurnQuestion(q), now);
      messages := messages + [Message(q.session, Assistant, q.sideA.content, None, None,
        Some(ArenaTurn(q.index, winner, ShownSide(q.sideA), ShownSide(q.sideB))))];
    }

    method RecordTurn(q: TurnRequest, now: int) returns (found: bool)
      modifies this
      ensures Tables() == TurnRecorded(old(Tables()), q, now)
      ensures found == !Refused(old(Tables()), q.session, q.caller)
    {
      found := !(q.session in conversations && !OwnerMatches(conversations[q.session], q.caller));
      if found {
        var state := CurrentConsentState(q.caller);
        AppendArenaTurn(q, state[MenoImprovement], now);
      }
    }

    method SetArenaTurnWinner(id: string, index: Option<nat>, w: Winner) returns (marked: bool)
      modifies this
      ensures Tables() == old(Tables()).(messages := WithWinner(old(messages), id, index, w))
      ensures marked <==> exists m :: m in old(messages) && index.Some? && IsTurn(m, id, index.value)
    {
      if index.None? {
        return false;
      }
      var i := ScanForTurn(id, index.value);
      marked := i < |messages|;
      if marked {
        messages := messages[i := messages[i].(arena := Some(messages[i].arena.value.(winner := Some(w))))];
      }
    }

    method GetRating(model: string, kb: string) returns (i: nat)
      modifies this
      ensures Tables() == old(Tables()).(ratings := Ratings.WithRow(old(ratings), model, kb))
      ensures i < |ratings| && i == Ratings.Lookup(ratings, model, kb)
    {
      i := Ratings.Lookup(ratings, model, kb);
      if i == |ratings| {
        ratings := ratings + [Rating(model, kb, Ratings.INITIAL_ELO, 0, 0, 0, 0, 0)];
        assert ratings[i].model == model && ratings[i].kb == kb;
        i := Ratings.Lookup(ratings, model, kb);
      }
    }

    /** The counters and points of a vote with a known verdict, assignment by assignment on the two rows. */
    method CountSides(i: nat, j: nat, winner: Winner) returns (scoreA: real, scoreB: real)
      requires i < |ratings| && j < |ratings| && !winner.Unknown?
      modifies this
      ensures Tables() == old(Tables()).(ratings := Ratings.Counted(old(ratings), i, j, winner))
      ensures scoreA == Ratings.Points(winner, true) && scoreB == Ratings.Points(winner, false)
    {
      match winner {
        case SideA =>
          scoreA, scoreB := 1.0, 0.0;
          ratings := ratings[i := ratings[i].(wins := ratings[i].wins + 1)];
          ratings := ratings[j := ratings[j].(losses := ratings[j].losses + 1)];
        case SideB =>
          scoreA, scoreB := 0.0, 1.0;
          ratings := ratings[i := ratings[i].(losses := ratings[i].losses + 1)];
          ratings := ratings[j := ratings[j].(wins := ratings[j].wins + 1)];
        case Tie =>
          scoreA, scoreB := 0.5, 0.5;
          ratings := ratings[i := ratings[i].(ties := ratings[i].ties + 1)];
          ratings := ratings[j := ratings[j].(ties := ratings[j].ties + 1)];
        case BothBad =>
          scoreA, scoreB := 0.0, 0.0;
          ratings := ratings[i := ratings[i].(bothBad := ratings[i].bothBad + 1)];
          ratings := ratings[j := ratings[j].(bothBad := ratings[j].bothBad + 1)];
          ratings := ratings[i := ratings[i].(losses := ratings[i].losses + 1)];
          ratings := ratings[j := ratings[j].(losses := ratings[j].losses + 1)];
      }
      ratings := ratings[i := ratings[i].(matches := ratings[i].matches + 1)];
      ratings := ratings[j := ratings[j].(matches := ratings[j].matches + 1)];
    }

    /** `_apply_vote_to_ratings`. */
    method ApplyVoteToRatings(v: Vote, pow: real -> real)
      requires forall x :: pow(x) > 0.0
      modifies this
      ensures Tables() == old(Tables()).(ratings := Ratings.AfterVote(old(ratings), v, pow))
    {
      var _ := GetRating(v.modelA, v.kbA);
      var j := GetRating(v.modelB, v.kbB);
      var i := Ratings.Lookup(ratings, v.modelA, v.kbA);
      Ratings.RowsExist(old(ratings), v);
      RateSides(i, j, v.winner, pow);
    }

    method RateSides(i: nat, j: nat, winner: Winner, pow: real -> real)
      requires (forall x :: pow(x) > 0.0) && i < |ratings| && j < |ratings|
      modifies this
      ensures Tables() == old(Tables()).(ratings := Ratings.Applied(old(ratings), i, j, winner, pow))
    {
      var eloA, eloB := ratings[i].elo, ratings[j].elo;
      var expectedA, expectedB := Ratings.Expected(eloA, eloB, pow), Ratings.Expected(eloB, eloA, pow);
      if winner.Unknown? {
        return;
      }
      var scoreA, scoreB := CountSides(i, j, winner);
      MoveElo(i, j, eloA + Ratings.K_FACTOR * (scoreA - expectedA), eloB + Ratings.K_FACTOR * (scoreB - expectedB));
    }

    method MoveElo(i: nat, j: nat, eloA: real, eloB: real)
      requires i < |ratings| && j < |ratings|
      modifies this
      ensures Tables() == old(Tables()).(ratings := Ratings.Moved(old(ratings), i, j, eloA, eloB))
    {
      ratings := ratings[i := ratings[i].(elo := eloA)];
      ratings := ratings[j := ratings[j].(elo := eloB)];
    }

    /** `submit_arena_vote`. */
    method SubmitArenaVote(v: Vote, pow: real -> real) returns (recorded: bool)
      requires forall x :: pow(x) > 0.0
      modifies this
      ensures recorded == !IsDuplicate(old(Tables()), v)
      ensures Tables() == if recorded then old(Tables()).(votes := old(votes) + [v],
                                                          ratings := Ratings.AfterVote(old(ratings), v, pow))
                          else old(Tables())
    {
      if v.session.Some? && v.session.value != "" && v.index.Some? {
        if FindVote(votes, v.session.value, v.index.value) < |votes| {
          return false;
        }
      }
      votes := votes + [v];
      ApplyVoteToRatings(v, pow);
      return true;
    }

    /** `submit_vote`; `found` is false for the 404 answer. */
    method SubmitVote(v: Vote, pow: real -> real) returns (found: bool, duplicate: bool)
      requires forall x :: pow(x) > 0.0
      modifies this
      ensures Tables() == VoteSubmitted(old(Tables()), v, pow)
      ensures found == !VoteRefused(old(Tables()), v)
      ensures found ==> duplicate == IsDuplicate(old(Tables()), v)
    {
      if v.session.Some? && v.session.value != "" {
        if v.session.value in conversations && !OwnerMatches(conversations[v.session.value], v.owner) {
          return false, false;
        }
      }
      var recorded := SubmitArenaVote(v, pow);
      if recorded {
        var _ := SetArenaTurnWinner(if v.session.Some? then v.session.value else "", v.index, v.winner);
      }
      return true, !recorded;
    }

    // ------------------------------------------------------------ privacy settings

    method RecordConsentEvent(s: Owner, purpose: Purpose, granted: bool) returns (ok: bool)
      modifies this
      ensures ok == IsSubject(s)
      ensures Tables() == if ok then old(Tables()).(consents := old(consents) + [ConsentEvent(s, purpose, granted)])
                          else old(Tables())
    {
      ok := s.user.Some? != s.guest.Some?;
      if ok {
        consents := consents + [ConsentEvent(s, purpose, granted)];
      }
    }

    method SetSubjectConversationsAnalysisAllowed(s: Owner, allowed: bool) returns (count: nat)
      requires IsSubject(s)
      modifies this
      ensures Tables() == old(Tables()).(conversations := Flagged(old(conversations), s, allowed))
      ensures count == |OwnedBy(old(Tables()), s)|
    {
      var ids := OwnedBy(Tables(), s);
      if ids != {} {
        conversations := Flagged(conversations, s, allowed);
      } else {
        assert forall id :: id in conversations ==> id !in ids;
        assert Flagged(conversations, s, allowed) == conversations;
      }
      return |ids|;
    }

    /** `patch_settings`; the caller has at most one id, as `_resolve_subject` returns it. */
    method PatchSettings(s: Owner, versionCurrent: bool, service: bool, improvement: bool) returns (r: Reply)
      requires !HasBoth(s)
      modifies this
      ensures r == SettingsReply(s, versionCurrent, service)
      ensures Tables() == SettingsPatched(old(Tables()), s, versionCurrent, service, improvement)
    {
      if s.user.None? && s.guest.None? {
        return Unauthorized;
      }
      if !versionCurrent {
        return Conflict;
      }
      if !service {
        return BadRequest;
      }
      var state := CurrentConsentState(s);
      if !state[ServiceAndHistory] {
        var _ := RecordConsentEvent(s, ServiceAndHistory, true);
      }
      if improvement != state[MenoImprovement] {
        var _ := RecordConsentEvent(s, MenoImprovement, improvement);
        var _ := SetSubjectConversationsAnalysisAllowed(s, improvement);
      }
      return Done;
    }

    // ------------------------------------------------------------ deletion

    /** `delete_conversation_cascade`, table by table; the database removes messages and run children. */
    method DeleteConversationCascade(id: string)
      modifies this
      ensures Tables() == ConversationsErased(old(Tables()), {id})
    {
      votes := Filter(votes, VoteOutside({id}));
      feedback := Filter(feedback, FeedbackOutside({id}));
      surveys := Filter(surveys, SurveyOutside({id}));
      DeleteRuns(RunsOf(runs, {id}));
      messages := Filter(messages, MessageOutside({id}));
      conversations := conversations - {id};
    }

    /** Runs with their stage, source and generation rows. */
    method DeleteRuns(runIds: set<string>)
      modifies this
      ensures Tables() == RunsErased(old(Tables()), runIds)
    {
      children := Filter(children, ChildOutside(runIds));
      runs := runs - runIds;
    }

    /** The loop over conversation ids shared by erasure and retention. */
    method DeleteConversations(ids: set<string>)
      modifies this
      ensures Tables() == ConversationsErased(old(Tables()), ids)
    {
      var todo := ids;
      ghost var done: set<string> := {};
      ErasingNothing(Tables());
      while todo != {}
        invariant done + todo == ids
        invariant Tables() == ConversationsErased(old(Tables()), done)
        decreases todo
      {
        var id :| id in todo;
        DeleteConversationCascade(id);
        ErasingTwice(old(Tables()), done, {id});
        todo, done := todo - {id}, done + {id};
      }
    }

    method DeleteSubjectConversations(s: Owner) returns (ok: bool, count: nat)
      modifies this
      ensures ok == IsSubject(s)
      ensures Tables() == HistoryErased(old(Tables()), s)
      ensures ok ==> count == |OwnedBy(old(Tables()), s)|
    {
      if (s.user.None?) == (s.guest.None?) {
        return false, 0;
      }
      var ids := OwnedBy(Tables(), s);
      DeleteConversations(ids);
      return true, |ids|;
    }

    method DeleteSubjectData(s: Owner) returns (ok: bool)
      modifies this
      ensures ok == IsSubject(s)
      ensures Tables() == SubjectErased(old(Tables()), s)
    {
      if (s.user.None?) == (s.guest.None?) {
        return false;
      }
      var _, _ := DeleteSubjectConversations(s);
      SweepTagged(s);
      return true;
    }

    /** The rows tagged with the subject's own id, then its account or guest session. */
    method SweepTagged(s: Owner)
      requires IsSubject(s)
      modifies this
      ensures Tables() == TaggedSwept(old(Tables()), s)
    {
      votes := Filter(votes, VoteUntagged(s));
      feedback := Filter(feedback, FeedbackUntagged(s));
      surveys := Filter(surveys, SurveyUntagged(s));
      DeleteRuns(RunsTagged(runs, s));
      if s.user.Some? {
        users := users - {s.user.value};
      } else {
        guests := guests - {s.guest.value};
      }
    }

    method ClearHistory(id: string, caller: Owner) returns (found: bool)
      modifies this
      ensures found == !Refused(old(Tables()), id, caller)
      ensures Tables() == HistoryCleared(old(Tables()), id, caller)
    {
      found := !(id in conversations && !OwnerMatches(conversations[id], caller));
      if found {
        DeleteConversationCascade(id);
      }
    }

    method DeleteConversationsOlderThan(cutoff: int) returns (count: nat)
      modifies this
      ensures Tables() == ConversationsErased(old(Tables()), Stale(old(Tables()), cutoff))
      ensures count == |Stale(old(Tables()), cutoff)|
    {
      var ids := Stale(Tables(), cutoff);
      DeleteConversations(ids);
      return |ids|;
    }

    method DeleteOrphanedPipelineRunsOlderThan(cutoff: int) returns (count: nat)
      modifies this
      ensures Tables() == RunsErased(old(Tables()), Orphans(old(Tables()), cutoff))
      ensures count == |Orphans(old(Tables()), cutoff)|
    {
      var ids := Orphans(Tables(), cutoff);
      DeleteRuns(ids);
      return |ids|;
    }

    method RunRetention(now: int, days: int) returns (deleted: nat)
      modifies this
      ensures Tables() == RetentionRun(old(Tables()), now, days)
      ensures days <= 0 ==> deleted == 0
      ensures days > 0 ==>
                var cutoff := now - days * DAY;
                deleted == |Stale(old(Tables()), cutoff)|
                           + |Orphans(ConversationsErased(old(Tables()), Stale(old(Tables()), cutoff)), cutoff)|
    {
      if days <= 0 {
        return 0;
      }
      var cutoff := now - days * DAY;
      var a := DeleteConversationsOlderThan(cutoff);
      var b := DeleteOrphanedPipelineRunsOlderThan(cutoff);
      return a + b;
    }
  }

  lemma ErasingNothing(db: Db)
    ensures ConversationsErased(db, {}) == db
  {
    FilterAll(db.messages, MessageOutside({}));
    FilterAll(db.votes, VoteOutside({}));
    FilterAll(db.feedback, FeedbackOutside({}));
    FilterAll(db.surveys, SurveyOutside({}));
    assert RunsOf(db.runs, {}) == {};
    FilterAll(db.children, ChildOutside({}));
    assert db.conversations - {} == db.conversations && db.runs - {} == db.runs;
  }

  /** Erasing conversations one after another is erasing them at once. */
  lemma ErasingTwice(db: Db, a: set<string>, b: set<string>)
    ensures ConversationsErased(ConversationsErased(db, a), b) == ConversationsErased(db, a + b)
  {
    var d := ConversationsErased(db, a);
    FilterTwice(db.messages, MessageOutside(a), MessageOutside(b), MessageOutside(a + b));
    FilterTwice(db.votes, VoteOutside(a), VoteOutside(b), VoteOutside(a + b));
    FilterTwice(db.feedback, FeedbackOutside(a), FeedbackOutside(b), FeedbackOutside(a + b));
    FilterTwice(db.surveys, SurveyOutside(a), SurveyOutside(b), SurveyOutside(a + b));
    var first, second := RunsOf(db.runs, a), RunsOf(d.runs, b);
    assert RunsOf(db.runs, a + b) == first + second;
    FilterTwice(db.children, ChildOutside(first), ChildOutside(second), ChildOutside(first + second));
    assert db.conversations - a - b == db.conversations - (a + b);
    assert db.runs - first - second == db.runs - (first + second);
  }
}
