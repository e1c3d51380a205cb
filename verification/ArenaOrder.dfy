/** A vote and a stored turn may arrive in either order, and either may be repeated:
    src/meno_rag/api/arena.py over src/meno_rag/db/repositories.py. */
module ArenaOrder {
  import opened Text
  import opened Tables
  import opened Operations
  import opened ArenaConvergence

  function SessionOf(v: Vote): string {
    if v.session.Some? then v.session.value else ""
  }

  /** Whether the vote is on the turn of the request. */
  predicate OnTurn(v: Vote, q: TurnRequest) {
    v.session == Some(q.session) && q.index.Some? && v.index == q.index
  }

  // ---------------------------------------------------------------- lookups after a change

  lemma FindVoteAfter(votes: seq<Vote>, v: Vote, id: string, index: nat)
    ensures FindVote(votes + [v], id, index) ==
            var i := FindVote(votes, id, index);
            if i == |votes| && !IsVote(v, id, index) then |votes| + 1 else i
  {
    var i, j := FindVote(votes, id, index), FindVote(votes + [v], id, index);
    assert forall k :: 0 <= k < |votes| ==> (votes + [v])[k] == votes[k];
    assert (votes + [v])[|votes|] == v;
  }

  lemma FindTurnInSame(s: seq<Message>, t: seq<Message>, id: string, index: nat)
    requires |s| == |t| && forall k :: 0 <= k < |s| ==> SameTurn(t[k], s[k])
    ensures FindTurn(s, id, index) == FindTurn(t, id, index)
  {
  }

  lemma FindTurnAfter(s: seq<Message>, question: Message, m: Message, id: string, index: nat)
    requires question.arena.None?
    ensures FindTurn(s + [question] + [m], id, index) ==
            var i := FindTurn(s, id, index);
            if i < |s| then i else if IsTurn(m, id, index) then |s| + 1 else |s| + 2
  {
    var t := s + [question] + [m];
    var i, j := FindTurn(s, id, index), FindTurn(t, id, index);
    assert forall k :: 0 <= k < |s| ==> t[k] == s[k];
    assert t[|s|] == question && t[|s| + 1] == m;
  }

  // ---------------------------------------------------------------- a vote and a turn

  /** Marking the winner does not move any turn. */
  lemma MarkingMovesNothing(messages: seq<Message>, v: Vote)
    ensures var marked := WithWinner(messages, SessionOf(v), v.index, v.winner);
            |marked| == |messages| && forall k :: 0 <= k < |messages| ==> SameTurn(marked[k], messages[k])
  {
  }

  /** The new vote is seen by a later turn exactly when it is on that turn. */
  lemma WinnerSeenAfter(db: Db, q: TurnRequest, v: Vote)
    requires !IsDuplicate(db, v) && q.session != ""
    ensures VotedWinner(db.votes + [v], q.session, q.index)
            == if OnTurn(v, q) then Some(v.winner) else VotedWinner(db.votes, q.session, q.index)
  {
    if q.index.Some? {
      FindVoteAfter(db.votes, v, q.session, q.index.value);
    }
  }

  function MarkedFor(messages: seq<Message>, v: Vote): seq<Message> {
    WithWinner(messages, SessionOf(v), v.index, v.winner)
  }

  /** The place of the stored turn that a request replaces, if any. */
  function Place(messages: seq<Message>, q: TurnRequest): (i: nat)
    ensures i <= |messages|
  {
    if q.index.Some? then FindTurn(messages, q.session, q.index.value) else |messages|
  }

  /** What a turn request makes of the messages. */
  function TurnMessages(messages: seq<Message>, q: TurnRequest, winner: Option<Winner>): seq<Message> {
    var i := Place(messages, q);
    if i < |messages| then messages[i := Reposted(messages[i], q, winner)]
    else messages + [TurnQuestion(q)] + [Comparison(q, winner)]
  }

  lemma RepostedTurnCommutes(messages: seq<Message>, q: TurnRequest, v: Vote, winner: Option<Winner>)
    requires q.session != "" && Place(messages, q) < |messages|
    ensures TurnMessages(MarkedFor(messages, v), q, if OnTurn(v, q) then Some(v.winner) else winner)
            == MarkedFor(TurnMessages(messages, q, winner), v)
  {
    var stored, marked := TurnMessages(messages, q, winner), MarkedFor(messages, v);
    MarkingMovesNothing(messages, v);
    FindTurnInSame(messages, marked, q.session, q.index.value);
    if v.index.Some? {
      FindTurnInSame(messages, stored, SessionOf(v), v.index.value);
    }
  }

  lemma NewTurnCommutes(messages: seq<Message>, q: TurnRequest, v: Vote, winner: Option<Winner>)
    requires q.session != "" && Place(messages, q) == |messages|
    ensures TurnMessages(MarkedFor(messages, v), q, if OnTurn(v, q) then Some(v.winner) else winner)
            == MarkedFor(TurnMessages(messages, q, winner), v)
  {
    var stored, marked := TurnMessages(messages, q, winner), MarkedFor(messages, v);
    MarkingMovesNothing(messages, v);
    if q.index.Some? {
      FindTurnInSame(messages, marked, q.session, q.index.value);
    }
    if v.index.Some? {
      FindTurnAfter(messages, TurnQuestion(q), Comparison(q, winner), SessionOf(v), v.index.value);
    }
  }

  lemma StillAdmitted(db: Db, id: string, caller: Owner, allowed: Option<bool>, now: int)
    requires !Refused(db, id, caller)
    ensures !Refused(Ensured(db, id, caller, allowed, now), id, caller)
  {
  }

  /** Storing a turn in a conversation just touched changes only the messages. */
  lemma TurnChangesMessages(e: Db, q: TurnRequest, now: int)
    requires q.session in e.conversations && e.conversations[q.session].updatedAt == now
    ensures TurnStored(e, q, now)
            == e.(messages := TurnMessages(e.messages, q, VotedWinner(e.votes, q.session, q.index)))
  {
    assert Ensured(e, q.session, NOBODY, None, now).conversations == e.conversations;
  }

  /** The conversation as a turn request leaves it. */
  function Opened(db: Db, q: TurnRequest, now: int): Db {
    Ensured(db, q.session, q.caller, Some(Consented(db.consents, q.caller, MenoImprovement)), now)
  }

  /** A turn that is not refused: what is stored. */
  lemma RecordedMeaning(db: Db, q: TurnRequest, now: int)
    requires !Refused(db, q.session, q.caller)
    ensures var d := TurnRecorded(db, q, now);
            && d == Opened(db, q, now).(
                      messages := TurnMessages(db.messages, q, VotedWinner(db.votes, q.session, q.index)))
            && !Refused(d, q.session, q.caller)
  {
    StillAdmitted(db, q.session, q.caller, Some(Consented(db.consents, q.caller, MenoImprovement)), now);
    TurnChangesMessages(Opened(db, q, now), q, now);
  }

  lemma VoteMeaning(db: Db, v: Vote, pow: real -> real)
    requires (forall x :: pow(x) > 0.0) && !VoteRefused(db, v) && !IsDuplicate(db, v)
    ensures VoteSubmitted(db, v, pow) == db.(votes := db.votes + [v], ratings := Ratings.AfterVote(db.ratings, v, pow),
                                             messages := MarkedFor(db.messages, v))
  {
  }

  /** The owner columns of the conversation after a turn request that is not refused. */
  function OwnerAfter(db: Db, q: TurnRequest): Owner {
    var o := if q.session in db.conversations then db.conversations[q.session].owner else q.caller;
    Owner(if q.caller.user.Some? then q.caller.user else o.user,
          if q.caller.guest.Some? then q.caller.guest else o.guest)
  }

  /** Whether the turn request turns the voter away who was let in, or lets in who was turned away. */
  predicate Decides(db: Db, q: TurnRequest, v: Vote) {
    && v.session == Some(q.session) && !Refused(db, q.session, q.caller)
    && VoteRefused(db, v) == OwnerMatches(Conversation(OwnerAfter(db, q), false, 0), v.owner)
  }

  /** The turn and the vote lead to the same tables in either order. */
  ghost predicate Commute(db: Db, q: TurnRequest, v: Vote, now: int, pow: real -> real)
    requires forall x :: pow(x) > 0.0
  {
    VoteSubmitted(TurnRecorded(db, q, now), v, pow) == TurnRecorded(VoteSubmitted(db, v, pow), q, now)
  }

  lemma RefusalAfterTurn(db: Db, q: TurnRequest, v: Vote, now: int)
    requires q.session != "" && !Refused(db, q.session, q.caller)
    ensures var d := TurnRecorded(db, q, now);
            && (VoteRefused(d, v) == VoteRefused(db, v) <==> !Decides(db, q, v))
            && IsDuplicate(d, v) == IsDuplicate(db, v) && d.votes == db.votes
  {
    RecordedMeaning(db, q, now);
  }

  /** A recorded vote and a recorded turn. */
  lemma RecordedCommute(db: Db, q: TurnRequest, v: Vote, now: int, pow: real -> real)
    requires (forall x :: pow(x) > 0.0) && q.session != "" && !Refused(db, q.session, q.caller)
    requires !VoteRefused(db, v) && !VoteRefused(TurnRecorded(db, q, now), v) && !IsDuplicate(db, v)
    ensures Commute(db, q, v, now, pow)
  {
    RecordedMeaning(db, q, now);
    var d := TurnRecorded(db, q, now);
    VoteMeaning(d, v, pow);
    VoteMeaning(db, v, pow);
    RecordedMeaning(VoteSubmitted(db, v, pow), q, now);
    WinnerSeenAfter(db, q, v);
    var winner := VotedWinner(db.votes, q.session, q.index);
    if Place(db.messages, q) < |db.messages| {
      RepostedTurnCommutes(db.messages, q, v, winner);
    } else {
      NewTurnCommutes(db.messages, q, v, winner);
    }
  }

  /** A refused turn changes nothing, before the vote and after it. */
  lemma RefusedTurnCommutes(db: Db, q: TurnRequest, v: Vote, now: int, pow: real -> real)
    requires (forall x :: pow(x) > 0.0) && Refused(db, q.session, q.caller)
    ensures Commute(db, q, v, now, pow)
  {
  }

  /** A vote without effect in both orders. */
  lemma IdleVoteCommutes(db: Db, q: TurnRequest, v: Vote, now: int, pow: real -> real)
    requires forall x :: pow(x) > 0.0
    requires VoteRefused(db, v) || IsDuplicate(db, v)
    requires VoteRefused(TurnRecorded(db, q, now), v) || IsDuplicate(TurnRecorded(db, q, now), v)
    ensures Commute(db, q, v, now, pow)
  {
  }

  lemma VotesAfterTurn(db: Db, q: TurnRequest, now: int)
    ensures TurnRecorded(db, q, now).votes == db.votes
  {
  }

  /** A vote with an effect in one order only. */
  lemma DecidedVoteDiffers(db: Db, q: TurnRequest, v: Vote, now: int, pow: real -> real)
    requires (forall x :: pow(x) > 0.0) && !IsDuplicate(db, v) && !IsDuplicate(TurnRecorded(db, q, now), v)
    requires VoteRefused(TurnRecorded(db, q, now), v) != VoteRefused(db, v)
    ensures !Commute(db, q, v, now, pow)
  {
    VotesAfterTurn(db, q, now);
    VotesAfterTurn(VoteSubmitted(db, v, pow), q, now);
  }

  /** For any two callers: posting a turn and casting a vote lead to the same tables in either order exactly when the
      vote is a repetition or the turn does not decide whether the voter is let in. */
  lemma VoteAndTurnCommuteIff(db: Db, q: TurnRequest, v: Vote, now: int, pow: real -> real)
    requires (forall x :: pow(x) > 0.0) && q.session != ""
    ensures Commute(db, q, v, now, pow) <==> IsDuplicate(db, v) || !Decides(db, q, v)
  {
    if Refused(db, q.session, q.caller) {
      RefusedTurnCommutes(db, q, v, now, pow);
    } else {
      RefusalAfterTurn(db, q, v, now);
      if IsDuplicate(db, v) || (VoteRefused(db, v) && !Decides(db, q, v)) {
        IdleVoteCommutes(db, q, v, now, pow);
      } else if Decides(db, q, v) {
        DecidedVoteDiffers(db, q, v, now, pow);
      } else {
        RecordedCommute(db, q, v, now, pow);
      }
    }
  }

  lemma OneCallerDecidesNothing(db: Db, q: TurnRequest, v: Vote)
    requires v.owner == q.caller
    ensures !Decides(db, q, v)
  {
  }

  lemma TwoSubjectsDecideIff(db: Db, q: TurnRequest, v: Vote)
    requires q.session != "" && v.session == Some(q.session) && !Refused(db, q.session, q.caller)
    requires IsSubject(v.owner) && IsSubject(q.caller) && v.owner != q.caller
    ensures Decides(db, q, v) <==> q.session !in db.conversations || db.conversations[q.session].owner == NOBODY
  {
  }

  /** One caller's turn and vote always commute. */
  lemma OneCallerCommutes(db: Db, q: TurnRequest, v: Vote, now: int, pow: real -> real)
    requires (forall x :: pow(x) > 0.0) && q.session != "" && v.owner == q.caller
    ensures Commute(db, q, v, now, pow)
  {
    VoteAndTurnCommuteIff(db, q, v, now, pow);
    OneCallerDecidesNothing(db, q, v);
  }

  /** A new vote by one subject on a turn that another posts commutes with it exactly when the conversation already has
      an owner. */
  lemma TwoSubjectsCommuteIff(db: Db, q: TurnRequest, v: Vote, now: int, pow: real -> real)
    requires (forall x :: pow(x) > 0.0) && q.session != "" && v.session == Some(q.session)
    requires IsSubject(v.owner) && IsSubject(q.caller) && v.owner != q.caller
    requires !Refused(db, q.session, q.caller) && !IsDuplicate(db, v)
    ensures Commute(db, q, v, now, pow)
            <==> q.session in db.conversations && db.conversations[q.session].owner != NOBODY
  {
    VoteAndTurnCommuteIff(db, q, v, now, pow);
    TwoSubjectsDecideIff(db, q, v);
  }

  // ---------------------------------------------------------------- repetition

  lemma RepostedTwice(messages: seq<Message>, q: TurnRequest, winner: Option<Winner>)
    requires q.index.Some?
    ensures TurnMessages(TurnMessages(messages, q, winner), q, winner) == TurnMessages(messages, q, winner)
  {
    var stored := TurnMessages(messages, q, winner);
    if Place(messages, q) < |messages| {
      FindTurnInSame(messages, stored, q.session, q.index.value);
    } else {
      FindTurnAfter(messages, TurnQuestion(q), Comparison(q, winner), q.session, q.index.value);
    }
  }

  /** Posting the same indexed turn again changes nothing but the conversation's time of update. */
  lemma RepostChangesNothing(db: Db, q: TurnRequest, now: int, later: int)
    requires q.index.Some? && !Refused(db, q.session, q.caller)
    ensures var d := TurnRecorded(db, q, now);
            && q.session in d.conversations
            && TurnRecorded(d, q, later)
               == d.(conversations := d.conversations[q.session := d.conversations[q.session].(updatedAt := later)])
  {
    RecordedMeaning(db, q, now);
    RecordedMeaning(TurnRecorded(db, q, now), q, later);
    RepostedTwice(db.messages, q, VotedWinner(db.votes, q.session, q.index));
  }

  /** Once a vote on a (session, turn index) is recorded, every further vote on it changes nothing. */
  lemma SecondVoteChangesNothing(db: Db, v: Vote, w: Vote, pow: real -> real)
    requires (forall x :: pow(x) > 0.0) && !VoteRefused(db, v)
    requires Given(v.session) && v.index.Some? && w.session == v.session && w.index == v.index
    ensures VoteSubmitted(VoteSubmitted(db, v, pow), w, pow) == VoteSubmitted(db, v, pow)
  {
    FindVoteAfter(db.votes, v, v.session.value, v.index.value);
  }

  // ---------------------------------------------------------------- a winner without its vote

  lemma RunNext(db: Db, ops: seq<Op>, op: Op, pow: real -> real)
    requires forall x :: pow(x) > 0.0
    ensures Run(db, ops + [op], pow) == Step(Run(db, ops, pow), op, pow)
  {
    assert (ops + [op])[..|ops|] == ops;
  }

  lemma RunTwo(db: Db, first: Op, second: Op, pow: real -> real)
    requires forall x :: pow(x) > 0.0
    ensures Run(db, [first, second], pow) == Step(Step(db, first, pow), second, pow)
  {
    RunNext(db, [], first, pow);
    RunNext(db, [first], second, pow);
    assert [] + [first] == [first] && [first] + [second] == [first, second];
  }

  lemma RunThree(db: Db, first: Op, second: Op, third: Op, pow: real -> real)
    requires forall x :: pow(x) > 0.0
    ensures Run(db, [first, second, third], pow) == Step(Step(Step(db, first, pow), second, pow), third, pow)
  {
    RunTwo(db, first, second, pow);
    RunNext(db, [first, second], third, pow);
    assert [first, second] + [third] == [first, second, third];
  }

  /** The state after a vote and a turn on a fresh database. */
  function VotedThenPosted(users: set<string>, guests: set<string>, v: Vote, q: TurnRequest, now: int,
                           pow: real -> real): Db
    requires forall x :: pow(x) > 0.0
  {
    TurnRecorded(VoteSubmitted(Fresh(users, guests), v, pow), q, now)
  }

  lemma VoteAndTurnRun(users: set<string>, guests: set<string>, v: Vote, q: TurnRequest, now: int, pow: real -> real)
    requires forall x :: pow(x) > 0.0
    ensures Run(Fresh(users, guests), [Cast(v), Turn(q, now)], pow) == VotedThenPosted(users, guests, v, q, now, pow)
  {
    RunTwo(Fresh(users, guests), Cast(v), Turn(q, now), pow);
  }

  lemma VoteTurnAndErasureRun(users: set<string>, guests: set<string>, v: Vote, q: TurnRequest, now: int, s: Owner,
                              pow: real -> real)
    requires forall x :: pow(x) > 0.0
    ensures Run(Fresh(users, guests), [Cast(v), Turn(q, now), EraseSubject(s)], pow)
            == SubjectErased(VotedThenPosted(users, guests, v, q, now, pow), s)
  {
    RunThree(Fresh(users, guests), Cast(v), Turn(q, now), EraseSubject(s), pow);
  }

  lemma VotedThenPostedConverges(users: set<string>, guests: set<string>, v: Vote, q: TurnRequest, now: int,
                                 pow: real -> real)
    requires (forall x :: pow(x) > 0.0) && q.session != ""
    ensures Converged(VotedThenPosted(users, guests, v, q, now, pow))
    ensures WinnersHaveVotes(VotedThenPosted(users, guests, v, q, now, pow))
  {
    EveryRunConverges(users, guests, [Cast(v), Turn(q, now)], pow);
    VoteAndTurnRun(users, guests, v, q, now, pow);
  }

  /** Somebody votes on a turn, somebody else posts it, and the voter is erased: the turn keeps a winner that nobody
      voted for.  For any two subjects, from a fresh database. */
  lemma ErasureOrphansAWinner(users: set<string>, guests: set<string>, v: Vote, q: TurnRequest, now: int,
                              pow: real -> real)
    requires (forall x :: pow(x) > 0.0) && OnTurn(v, q) && q.session != ""
    requires IsSubject(v.owner) && IsSubject(q.caller) && v.owner != q.caller
    ensures WinnersHaveVotes(Run(Fresh(users, guests), [Cast(v), Turn(q, now)], pow))
    ensures !WinnersHaveVotes(Run(Fresh(users, guests), [Cast(v), Turn(q, now), EraseSubject(v.owner)], pow))
  {
    VoteAndTurnRun(users, guests, v, q, now, pow);
    VoteTurnAndErasureRun(users, guests, v, q, now, v.owner, pow);
    VotedThenPostedConverges(users, guests, v, q, now, pow);
    VotedTurn(Fresh(users, guests), v, q, now, pow);
    VoterLosesIt(VotedThenPosted(users, guests, v, q, now, pow), v, q);
  }

  lemma VotedTurn(db: Db, v: Vote, q: TurnRequest, now: int, pow: real -> real)
    requires (forall x :: pow(x) > 0.0) && db.votes == [] && db.messages == [] && db.conversations == map[]
    requires OnTurn(v, q) && q.session != ""
    ensures var d := TurnRecorded(VoteSubmitted(db, v, pow), q, now);
            && Comparison(q, Some(v.winner)) in d.messages && d.votes == [v]
            && d.conversations.Keys == {q.session} && d.conversations[q.session].owner == q.caller
  {
    var mid := VoteSubmitted(db, v, pow);
    VoteMeaning(db, v, pow);
    RecordedMeaning(mid, q, now);
    assert FindVote([v], q.session, q.index.value) == 0;
  }

  lemma VoterLosesIt(d: Db, v: Vote, q: TurnRequest)
    requires Converged(d) && WinnersHaveVotes(d) && OnTurn(v, q)
    requires IsSubject(v.owner) && IsSubject(q.caller) && v.owner != q.caller
    requires Comparison(q, Some(v.winner)) in d.messages && d.votes == [v]
    requires q.session in d.conversations && d.conversations[q.session].owner == q.caller
    ensures !WinnersHaveVotes(SubjectErased(d, v.owner))
  {
    var m := Comparison(q, Some(v.winner));
    assert v in d.votes && VotesOn(v, m);
    assert LosesItsVote(d, v.owner, m);
    ErasureKeepsWinnersIff(d, v.owner);
  }
}
