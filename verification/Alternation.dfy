/** Every stored conversation is a sequence of whole (user, assistant) turns, so that it can be replayed:
    the write paths of src/meno_rag/api/main.py and src/meno_rag/db/repositories.py composed with the extraction
    of src/meno_rag/stand/pipeline.py. */
module Alternation {
  import opened Lists
  import opened Roles
  import opened Text
  import opened Tables
  import opened Operations
  import D = DialogueHistory
  import opened ConsentSync

  function InConversation(id: string): Message -> bool {
    (m: Message) => m.conversation == id
  }

  /** `get_conversation_messages`. */
  function Thread(messages: seq<Message>, id: string): seq<Message> {
    Filter(messages, InConversation(id))
  }

  ghost predicate WholeTurns(s: seq<Message>) {
    |s| % 2 == 0 && forall i :: 0 <= i < |s| ==> s[i].role == if i % 2 == 0 then User else Assistant
  }

  ghost predicate Alternating(messages: seq<Message>) {
    forall id :: WholeTurns(Thread(messages, id))
  }

  // ---------------------------------------------------------------- the three kinds of change

  predicate SamePlace(m: Message, n: Message) {
    m.conversation == n.conversation && m.role == n.role
  }

  lemma {:induction false} ThreadKeepsPlaces(s: seq<Message>, t: seq<Message>, id: string)
    requires |s| == |t| && forall k :: 0 <= k < |s| ==> SamePlace(s[k], t[k])
    ensures |Thread(s, id)| == |Thread(t, id)|
    ensures forall k :: 0 <= k < |Thread(s, id)| ==> SamePlace(Thread(s, id)[k], Thread(t, id)[k])
  {
    if s == [] {
    } else {
      ThreadKeepsPlaces(s[..|s| - 1], t[..|t| - 1], id);
      assert SamePlace(s[|s| - 1], t[|t| - 1]);
    }
  }

  /** An update in place. */
  lemma UpdatedAlternates(s: seq<Message>, t: seq<Message>)
    requires Alternating(s) && |s| == |t| && forall k :: 0 <= k < |s| ==> SamePlace(s[k], t[k])
    ensures Alternating(t)
  {
    forall id ensures WholeTurns(Thread(t, id)) {
      assert WholeTurns(Thread(s, id));
      ThreadKeepsPlaces(s, t, id);
    }
  }

  /** A (user, assistant) pair. */
  lemma PairAlternates(s: seq<Message>, question: Message, answer: Message)
    requires Alternating(s) && question.role == User && answer.role == Assistant
    requires question.conversation == answer.conversation
    ensures Alternating(s + [question] + [answer])
  {
    forall id ensures WholeTurns(Thread(s + [question] + [answer], id)) {
      assert WholeTurns(Thread(s, id));
      ThreadAfterPair(s, question, answer, id);
    }
  }

  /** A deletion of whole conversations. */
  lemma ErasedAlternates(s: seq<Message>, ids: set<string>)
    requires Alternating(s)
    ensures Alternating(Filter(s, MessageOutside(ids)))
  {
    forall id ensures WholeTurns(Thread(Filter(s, MessageOutside(ids)), id)) {
      assert WholeTurns(Thread(s, id));
      ThreadAfterErasure(s, ids, id);
    }
  }

  /** Erasing conversations empties exactly their threads. */
  lemma ThreadAfterErasure(s: seq<Message>, ids: set<string>, id: string)
    ensures Thread(Filter(s, MessageOutside(ids)), id) == if id in ids then [] else Thread(s, id)
  {
  }

  /** A pair is appended to its own thread and to no other. */
  lemma ThreadAfterPair(s: seq<Message>, question: Message, answer: Message, id: string)
    requires question.conversation == answer.conversation
    ensures Thread(s + [question] + [answer], id)
            == Thread(s, id) + if id == question.conversation then [question, answer] else []
  {
    FilterAppend(s, [question], InConversation(id));
    FilterAppend(s + [question], [answer], InConversation(id));
    assert [question][..0] == [] && [answer][..0] == [];
  }

  /** What a chat request makes of every stored conversation. */
  lemma ChatAppendsItsTurn(db: Db, q: ChatRequest, now: int, id: string)
    ensures Thread(ChatPersisted(db, q, now).messages, id)
            == Thread(db.messages, id) +
               if id == q.session && Written(db, q)
               then [ChatQuestion(q), ChatAnswer(q)] else []
  {
    ThreadAfterPair(db.messages, ChatQuestion(q), ChatAnswer(q), id);
  }

  // ---------------------------------------------------------------- all runs

  lemma TurnAlternates(db: Db, q: TurnRequest, now: int)
    requires Alternating(db.messages)
    ensures Alternating(TurnRecorded(db, q, now).messages)
  {
    if !Refused(db, q.session, q.caller) {
      var d := TurnRecorded(db, q, now);
      var winner := VotedWinner(db.votes, q.session, q.index);
      if q.index.Some? && FindTurn(db.messages, q.session, q.index.value) < |db.messages| {
        UpdatedAlternates(db.messages, d.messages);
      } else {
        PairAlternates(db.messages, TurnQuestion(q), Comparison(q, winner));
      }
    }
  }

  lemma ChatAlternates(db: Db, q: ChatRequest, now: int)
    requires Alternating(db.messages)
    ensures Alternating(ChatPersisted(db, q, now).messages)
  {
    PairAlternates(db.messages, ChatQuestion(q), ChatAnswer(q));
  }

  lemma WinnerAlternates(messages: seq<Message>, id: string, index: Option<nat>, w: Winner)
    requires Alternating(messages)
    ensures Alternating(WithWinner(messages, id, index, w))
  {
    UpdatedAlternates(messages, WithWinner(messages, id, index, w));
  }

  lemma StepAlternates(db: Db, op: Op, pow: real -> real)
    requires (forall x :: pow(x) > 0.0) && Alternating(db.messages)
    ensures Alternating(Step(db, op, pow).messages)
  {
    match op
    case Chat(q, now) => ChatAlternates(db, q, now);
    case Failed(run, session, question, caller, now) =>
    case Turn(q, now) => TurnAlternates(db, q, now);
    case Cast(v) => WinnerAlternates(db.messages, if v.session.Some? then v.session.value else "", v.index, v.winner);
    case Patch(s, versionCurrent, service, improvement) =>
    case EraseSubject(s) => ErasedAlternates(db.messages, OwnedBy(db, s));
    case EraseHistory(s) => ErasedAlternates(db.messages, OwnedBy(db, s));
    case Clear(id, caller) => ErasedAlternates(db.messages, {id});
    case Retain(now, days) => ErasedAlternates(db.messages, Stale(db, now - days * DAY));
  }

  /** In every run each stored conversation alternates, starting with the user and ending with the assistant. */
  lemma {:induction false} EveryRunAlternates(users: set<string>, guests: set<string>, ops: seq<Op>, pow: real -> real)
    requires forall x :: pow(x) > 0.0
    ensures Alternating(Run(Fresh(users, guests), ops, pow).messages)
  {
    if ops == [] {
    } else {
      EveryRunAlternates(users, guests, ops[..|ops| - 1], pow);
      StepAlternates(Run(Fresh(users, guests), ops[..|ops| - 1], pow), ops[|ops| - 1], pow);
    }
  }

  // ---------------------------------------------------------------- replay

  function Replayed(s: seq<Message>): seq<D.ChatMessage> {
    seq(|s|, i requires 0 <= i < |s| => D.ChatMessage(s[i].role, s[i].content))
  }

  /** In every run, sending a stored conversation back with any non-blank question recovers the whole
      conversation as history, and that history passes validation. */
  lemma EveryStoredConversationReplays(users: set<string>, guests: set<string>, ops: seq<Op>, pow: real -> real,
                                       id: string, question: string)
    requires (forall x :: pow(x) > 0.0) && !D.Blank(question)
    ensures var thread := Thread(Run(Fresh(users, guests), ops, pow).messages, id);
            var stored := Replayed(thread);
            && D.Valid(stored) && |stored| == |thread|
            && (forall i :: 0 <= i < |thread| ==>
                  stored[i].role == thread[i].role && stored[i].content == thread[i].content)
            && D.Extract(stored + [D.ChatMessage(User, question)]) == D.Question(D.Collapse(question), stored)
  {
    EveryRunAlternates(users, guests, ops, pow);
    var thread := Thread(Run(Fresh(users, guests), ops, pow).messages, id);
    assert WholeTurns(thread);
    D.StoredTurnsReplayUnchanged(Replayed(thread), D.ChatMessage(User, question));
  }
}
