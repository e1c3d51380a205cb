/** Arena turns and votes over all runs: whatever the order of votes, repeated votes, turns and reposts,
    a stored turn ends up with the winner of its one vote. */
module ArenaConvergence {
  import opened Lists
  import opened Text
  import opened Tables
  import opened Operations

  // ---------------------------------------------------------------- the invariant

  predicate DifferentVotes(v: Vote, w: Vote) {
    !(Given(v.session) && v.session == w.session && v.index.Some? && v.index == w.index)
  }

  predicate DifferentTurns(m: Message, n: Message) {
    !(m.conversation == n.conversation && m.arena.Some? && n.arena.Some?
      && m.arena.value.index.Some? && m.arena.value.index == n.arena.value.index)
  }

  ghost predicate Pairwise<T>(s: seq<T>, r: (T, T) -> bool) {
    forall i, j :: 0 <= i < j < |s| ==> r(s[i], s[j])
  }

  /** Whether `v` is the vote on the turn stored in `m`. */
  predicate VotesOn(v: Vote, m: Message) {
    m.arena.Some? && m.arena.value.index.Some? && IsVote(v, m.conversation, m.arena.value.index.value)
  }

  /** At most one vote and one stored turn per (conversation, turn index), and a turn that has a vote carries
      that vote's winner. */
  ghost predicate Converged(db: Db) {
    && Pairwise(db.votes, DifferentVotes)
    && Pairwise(db.messages, DifferentTurns)
    && (forall m :: m in db.messages ==> m.conversation != "")
    && (forall m, v :: m in db.messages && v in db.votes && VotesOn(v, m) ==> m.arena.value.winner == Some(v.winner))
  }

  /** A stored turn without a vote has no winner. */
  ghost predicate WinnersHaveVotes(db: Db) {
    forall m :: m in db.messages && m.arena.Some? && m.arena.value.winner.Some? ==> HasVote(m, db.votes)
  }

  ghost predicate HasVote(m: Message, votes: seq<Vote>) {
    exists v :: v in votes && VotesOn(v, m)
  }

  lemma {:induction false} FilterKeepsPairwise<T>(s: seq<T>, keep: T -> bool, r: (T, T) -> bool)
    requires Pairwise(s, r)
    ensures Pairwise(Filter(s, keep), r)
  {
    if s == [] {
    } else {
      var front, x := s[..|s| - 1], s[|s| - 1];
      var kept := Filter(front, keep);
      FilterKeepsPairwise(front, keep, r);
      FilterItems(front, keep);
      assert forall y :: y in kept ==> y in front;
      forall i | 0 <= i < |kept| ensures r(kept[i], x) {
        assert kept[i] in kept;
        var j :| 0 <= j < |front| && front[j] == kept[i];
        assert s[j] == front[j] && r(s[j], s[|s| - 1]);
      }
    }
  }

  lemma AppendPairwise<T>(s: seq<T>, x: T, r: (T, T) -> bool)
    requires Pairwise(s, r) && forall i :: 0 <= i < |s| ==> r(s[i], x)
    ensures Pairwise(s + [x], r)
  {
  }

  // ---------------------------------------------------------------- deletions

  lemma FilteredStaysConverged(db: Db, d: Db, keepMessage: Message -> bool, keepVote: Vote -> bool)
    requires Converged(db)
    requires d.messages == Filter(db.messages, keepMessage) && d.votes == Filter(db.votes, keepVote)
    ensures Converged(d)
  {
    FilterKeepsPairwise(db.votes, keepVote, DifferentVotes);
    FilterKeepsPairwise(db.messages, keepMessage, DifferentTurns);
    FilterItems(db.messages, keepMessage);
    FilterItems(db.votes, keepVote);
  }

  lemma ErasedStaysConverged(db: Db, ids: set<string>)
    requires Converged(db)
    ensures Converged(ConversationsErased(db, ids))
    ensures WinnersHaveVotes(db) ==> WinnersHaveVotes(ConversationsErased(db, ids))
  {
    var d := ConversationsErased(db, ids);
    FilteredStaysConverged(db, d, MessageOutside(ids), VoteOutside(ids));
    FilterItems(db.messages, MessageOutside(ids));
    FilterItems(db.votes, VoteOutside(ids));
    if WinnersHaveVotes(db) {
      forall m | m in d.messages && m.arena.Some? && m.arena.value.winner.Some? ensures HasVote(m, d.votes) {
        assert HasVote(m, db.votes);
        var v :| v in db.votes && VotesOn(v, m);
        assert v in d.votes;
      }
    }
  }

  lemma SweptStaysConverged(db: Db, s: Owner)
    requires Converged(db)
    ensures Converged(TaggedSwept(db, s))
  {
    FilterAll(db.messages, _ => true);
    FilteredStaysConverged(db, TaggedSwept(db, s), _ => true, VoteUntagged(s));
  }

  // ---------------------------------------------------------------- votes

  lemma VoteStaysConverged(db: Db, v: Vote, pow: real -> real)
    requires (forall x :: pow(x) > 0.0) && Converged(db)
    ensures Converged(VoteSubmitted(db, v, pow))
    ensures WinnersHaveVotes(db) ==> WinnersHaveVotes(VoteSubmitted(db, v, pow))
  {
    var d := VoteSubmitted(db, v, pow);
    if d.votes != db.votes {
      var id := if v.session.Some? then v.session.value else "";
      forall i | 0 <= i < |db.votes| ensures DifferentVotes(db.votes[i], v) {
        NotDuplicateMeansNew(db, v, i);
      }
      AppendPairwise(db.votes, v, DifferentVotes);
      assert d.votes == db.votes + [v];
      WinnerStaysConverged(db, d.messages, v, id);
    }
  }

  lemma NotDuplicateMeansNew(db: Db, v: Vote, i: nat)
    requires !IsDuplicate(db, v) && i < |db.votes|
    ensures DifferentVotes(db.votes[i], v)
  {
  }

  /** Marking changes exactly the turn the vote is on. */
  lemma MarkedTurn(messages: seq<Message>, v: Vote, id: string, k: nat)
    requires Pairwise(messages, DifferentTurns) && k < |messages| && messages[k].conversation != ""
    requires id == if v.session.Some? then v.session.value else ""
    ensures var marked := WithWinner(messages, id, v.index, v.winner);
            && |marked| == |messages| && SameTurn(marked[k], messages[k])
            && if VotesOn(v, messages[k]) then marked[k].arena.value.winner == Some(v.winner)
               else marked[k] == messages[k]
  {
  }

  /** A turn has no other vote than a new one. */
  lemma NewVoteIsAlone(votes: seq<Vote>, v: Vote, m: Message)
    requires forall i :: 0 <= i < |votes| ==> DifferentVotes(votes[i], v)
    requires VotesOn(v, m) && m.conversation != ""
    ensures forall w :: w in votes ==> !VotesOn(w, m)
  {
  }

  /** Marking the winner of a new vote. */
  lemma WinnerStaysConverged(db: Db, messages: seq<Message>, v: Vote, id: string)
    requires Converged(db) && messages == WithWinner(db.messages, id, v.index, v.winner)
    requires id == if v.session.Some? then v.session.value else ""
    requires forall i :: 0 <= i < |db.votes| ==> DifferentVotes(db.votes[i], v)
    ensures Pairwise(messages, DifferentTurns)
    ensures forall m :: m in messages ==> m.conversation != ""
    ensures forall m, w :: m in messages && w in db.votes + [v] && VotesOn(w, m) ==>
        m.arena.value.winner == Some(w.winner)
    ensures WinnersHaveVotes(db) ==>
              forall m :: m in messages && m.arena.Some? && m.arena.value.winner.Some? ==> HasVote(m, db.votes + [v])
  {
    forall k | 0 <= k < |db.messages|
      ensures |messages| == |db.messages| && SameTurn(messages[k], db.messages[k])
      ensures messages[k].conversation != ""
      ensures if VotesOn(v, messages[k]) then messages[k].arena.value.winner == Some(v.winner)
              else messages[k] == db.messages[k]
    {
      assert db.messages[k] in db.messages;
      MarkedTurn(db.messages, v, id, k);
    }
    assert |messages| == |db.messages|;
    SameTurnsStayDifferent(db.messages, messages);
    forall m, w | m in messages && w in db.votes + [v] && VotesOn(w, m) ensures m.arena.value.winner == Some(w.winner) {
      if VotesOn(v, m) {
        NewVoteIsAlone(db.votes, v, m);
      } else {
        assert m in db.messages && w in db.votes;
      }
    }
    if WinnersHaveVotes(db) {
      forall m | m in messages && m.arena.Some? && m.arena.value.winner.Some? ensures HasVote(m, db.votes + [v]) {
        if VotesOn(v, m) {
          assert v in db.votes + [v];
        } else {
          assert m in db.messages && HasVote(m, db.votes);
          MoreVotes(m, db.votes, v);
        }
      }
    }
  }

  lemma MoreVotes(m: Message, votes: seq<Vote>, v: Vote)
    requires HasVote(m, votes)
    ensures HasVote(m, votes + [v])
  {
  }

  predicate SameTurn(m: Message, n: Message) {
    && m.conversation == n.conversation && m.arena.Some? == n.arena.Some?
    && (m.arena.Some? ==> m.arena.value.index == n.arena.value.index)
  }

  lemma SameTurnsStayDifferent(s: seq<Message>, t: seq<Message>)
    requires |s| == |t| && Pairwise(s, DifferentTurns)
    requires forall k :: 0 <= k < |s| ==> SameTurn(t[k], s[k])
    ensures Pairwise(t, DifferentTurns)
  {
  }

  // ---------------------------------------------------------------- turns

  /** The winner looked up when a turn is stored is that of its only vote. */
  lemma VotedWinnerMeaning(votes: seq<Vote>, id: string, index: nat)
    requires Pairwise(votes, DifferentVotes) && id != ""
    ensures forall v :: v in votes && IsVote(v, id, index) ==> VotedWinner(votes, id, Some(index)) == Some(v.winner)
    ensures VotedWinner(votes, id, Some(index)).Some? ==> exists v :: v in votes && IsVote(v, id, index)
  {
  }

  lemma StoredTurnIsRight(votes: seq<Vote>, q: TurnRequest, m: Message)
    requires Pairwise(votes, DifferentVotes) && q.session != ""
    requires m.conversation == q.session && m.arena.Some? && m.arena.value.index == q.index
    requires m.arena.value.winner == VotedWinner(votes, q.session, q.index)
    ensures forall v :: v in votes && VotesOn(v, m) ==> m.arena.value.winner == Some(v.winner)
    ensures m.arena.value.winner.Some? ==> HasVote(m, votes)
  {
    if q.index.Some? {
      VotedWinnerMeaning(votes, q.session, q.index.value);
      assert forall v :: IsVote(v, q.session, q.index.value) ==> VotesOn(v, m);
    }
  }

  /** Replacing or adding one message that is right about its own turn. */
  lemma OneMoreStaysConverged(db: Db, d: Db, m: Message)
    requires Converged(db) && d.votes == db.votes && m.conversation != ""
    requires Pairwise(d.messages, DifferentTurns)
    requires forall n :: n in d.messages ==> n in db.messages || n == m
    requires forall v :: v in db.votes && VotesOn(v, m) ==> m.arena.value.winner == Some(v.winner)
    requires m.arena.Some? && m.arena.value.winner.Some? ==> HasVote(m, db.votes)
    ensures Converged(d) && (WinnersHaveVotes(db) ==> WinnersHaveVotes(d))
  {
  }

  lemma AppendedStaysConverged(db: Db, m: Message, now: int)
    requires Converged(db) && m.conversation != "" && m.arena.None?
    ensures Converged(Appended(db, m, now)) && (WinnersHaveVotes(db) ==> WinnersHaveVotes(Appended(db, m, now)))
  {
    AppendPairwise(db.messages, m, DifferentTurns);
    OneMoreStaysConverged(db, Appended(db, m, now), m);
  }

  lemma NewTurnStaysConverged(e: Db, q: TurnRequest, now: int)
    requires Converged(e) && q.session != ""
    requires q.index.Some? ==> FindTurn(e.messages, q.session, q.index.value) == |e.messages|
    ensures Converged(TurnStored(e, q, now)) && (WinnersHaveVotes(e) ==> WinnersHaveVotes(TurnStored(e, q, now)))
  {
    var question, m := TurnQuestion(q), Comparison(q, VotedWinner(e.votes, q.session, q.index));
    AppendedStaysConverged(e, question, now);
    StoredTurnIsRight(e.votes, q, m);
    AppendPairwise(e.messages + [question], m, DifferentTurns);
    OneMoreStaysConverged(Appended(e, question, now), TurnStored(e, q, now), m);
  }

  lemma TurnStaysConverged(e: Db, q: TurnRequest, now: int)
    requires Converged(e) && q.session != ""
    ensures Converged(TurnStored(e, q, now)) && (WinnersHaveVotes(e) ==> WinnersHaveVotes(TurnStored(e, q, now)))
  {
    var i := if q.index.Some? then FindTurn(e.messages, q.session, q.index.value) else |e.messages|;
    if i < |e.messages| {
      var m := Reposted(e.messages[i], q, VotedWinner(e.votes, q.session, q.index));
      assert e.messages[i] in e.messages;
      StoredTurnIsRight(e.votes, q, m);
      SameTurnsStayDifferent(e.messages, e.messages[i := m]);
      OneMoreStaysConverged(e, TurnStored(e, q, now), m);
    } else {
      NewTurnStaysConverged(e, q, now);
    }
  }

  // ---------------------------------------------------------------- all runs

  lemma ChatStaysConverged(db: Db, q: ChatRequest, now: int)
    requires Converged(db) && q.session != ""
    ensures Converged(ChatPersisted(db, q, now))
        && (WinnersHaveVotes(db) ==> WinnersHaveVotes(ChatPersisted(db, q, now)))
  {
    var e := Ensured(db, q.session, q.caller, Some(Consented(db.consents, q.caller, MenoImprovement)), now);
    AppendedStaysConverged(e, ChatQuestion(q), now);
    AppendedStaysConverged(Appended(e, ChatQuestion(q), now), ChatAnswer(q), now);
  }

  lemma SubjectErasedStaysConverged(db: Db, s: Owner)
    requires Converged(db)
    ensures Converged(SubjectErased(db, s))
  {
    ErasedStaysConverged(db, OwnedBy(db, s));
    SweptStaysConverged(ConversationsErased(db, OwnedBy(db, s)), s);
  }

  lemma SameRowsStayConverged(db: Db, d: Db)
    requires Converged(db) && d.messages == db.messages && d.votes == db.votes
    ensures Converged(d) && (WinnersHaveVotes(db) ==> WinnersHaveVotes(d))
  {
  }

  lemma RecordedStaysConverged(db: Db, q: TurnRequest, now: int)
    requires Converged(db) && q.session != ""
    ensures Converged(TurnRecorded(db, q, now)) && (WinnersHaveVotes(db) ==> WinnersHaveVotes(TurnRecorded(db, q, now)))
  {
    var e := Ensured(db, q.session, q.caller, Some(Consented(db.consents, q.caller, MenoImprovement)), now);
    SameRowsStayConverged(db, e);
    TurnStaysConverged(e, q, now);
  }

  lemma RetentionStaysConverged(db: Db, now: int, days: int)
    requires Converged(db)
    ensures Converged(RetentionRun(db, now, days))
    ensures WinnersHaveVotes(db) ==> WinnersHaveVotes(RetentionRun(db, now, days))
  {
    var swept := ConversationsErased(db, Stale(db, now - days * DAY));
    ErasedStaysConverged(db, Stale(db, now - days * DAY));
    SameRowsStayConverged(swept, RunsErased(swept, Orphans(swept, now - days * DAY)));
  }

  lemma HistoryErasedStaysConverged(db: Db, s: Owner)
    requires Converged(db)
    ensures Converged(HistoryErased(db, s)) && (WinnersHaveVotes(db) ==> WinnersHaveVotes(HistoryErased(db, s)))
  {
    ErasedStaysConverged(db, OwnedBy(db, s));
  }

  lemma ClearedStaysConverged(db: Db, id: string, caller: Owner)
    requires Converged(db)
    ensures Converged(HistoryCleared(db, id, caller))
    ensures WinnersHaveVotes(db) ==> WinnersHaveVotes(HistoryCleared(db, id, caller))
  {
    ErasedStaysConverged(db, {id});
  }

  lemma StepStaysConverged(db: Db, op: Op, pow: real -> real)
    requires (forall x :: pow(x) > 0.0) && Converged(db) && Admissible(op)
    ensures Converged(Step(db, op, pow))
    ensures WinnersHaveVotes(db) && !op.EraseSubject? ==> WinnersHaveVotes(Step(db, op, pow))
  {
    match op
    case Chat(q, now) => ChatStaysConverged(db, q, now);
    case Failed(run, session, question, caller, now) => SameRowsStayConverged(db, Step(db, op, pow));
    case Turn(q, now) => RecordedStaysConverged(db, q, now);
    case Cast(v) => VoteStaysConverged(db, v, pow);
    case Patch(s, versionCurrent, service, improvement) => SameRowsStayConverged(db, Step(db, op, pow));
    case EraseSubject(s) => SubjectErasedStaysConverged(db, s);
    case EraseHistory(s) => HistoryErasedStaysConverged(db, s);
    case Clear(id, caller) => ClearedStaysConverged(db, id, caller);
    case Retain(now, days) => RetentionStaysConverged(db, now, days);
  }

  /** In every run, each (conversation, turn index) has at most one vote and one stored turn, and a turn with a
      vote carries its winner; while no subject is erased, a turn without a vote carries none. */
  lemma {:induction false} EveryRunConverges(users: set<string>, guests: set<string>, ops: seq<Op>, pow: real -> real)
    requires forall x :: pow(x) > 0.0
    requires forall op :: op in ops ==> Admissible(op)
    ensures Converged(Run(Fresh(users, guests), ops, pow))
    ensures (forall op :: op in ops ==> !op.EraseSubject?) ==> WinnersHaveVotes(Run(Fresh(users, guests), ops, pow))
  {
    if ops == [] {
    } else {
      var front, op := ops[..|ops| - 1], ops[|ops| - 1];
      assert op in ops;
      EveryRunConverges(users, guests, front, pow);
      StepStaysConverged(Run(Fresh(users, guests), front, pow), op, pow);
    }
  }

  // ---------------------------------------------------------------- subject erasure

  /** A turn of a conversation the subject does not own, with a vote by the subject. */
  ghost predicate LosesItsVote(db: Db, s: Owner, m: Message) {
    && m in db.messages && m.conversation !in OwnedBy(db, s)
    && exists v :: v in db.votes && VotesOn(v, m) && Tagged(v.owner, s)
  }

  /** Erasing a subject leaves every winner with its vote exactly when no vote of the subject is on a turn of a
      conversation the subject does not own. */
  lemma ErasureKeepsWinnersIff(db: Db, s: Owner)
    requires Converged(db) && WinnersHaveVotes(db) && IsSubject(s)
    ensures WinnersHaveVotes(SubjectErased(db, s)) <==> !exists m :: LosesItsVote(db, s, m)
  {
    var d, ids := SubjectErased(db, s), OwnedBy(db, s);
    var mid := ConversationsErased(db, ids);
    FilterItems(db.messages, MessageOutside(ids));
    FilterItems(db.votes, VoteOutside(ids));
    FilterItems(mid.votes, VoteUntagged(s));
    forall m, v | m in d.messages && v in db.votes && VotesOn(v, m)
      ensures m.arena.value.winner == Some(v.winner) && (v in d.votes <==> !Tagged(v.owner, s))
    {
      assert m in db.messages;
    }
    forall m | LosesItsVote(db, s, m)
      ensures m in d.messages && !HasVote(m, d.votes) && m.arena.Some? && m.arena.value.winner.Some?
    {
      var v :| v in db.votes && VotesOn(v, m) && Tagged(v.owner, s);
      OnlyVote(db.votes, v, m);
    }
    forall m | m in d.messages && m.arena.Some? && m.arena.value.winner.Some? && !LosesItsVote(db, s, m)
      ensures HasVote(m, d.votes)
    {
      assert m in db.messages && HasVote(m, db.votes);
      var v :| v in db.votes && VotesOn(v, m);
      assert v in d.votes;
    }
  }

  lemma OnlyVote(votes: seq<Vote>, v: Vote, m: Message)
    requires Pairwise(votes, DifferentVotes) && v in votes && VotesOn(v, m) && m.conversation != ""
    ensures forall w :: w in votes && VotesOn(w, m) ==> w == v
  {
  }
}
