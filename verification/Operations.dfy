/** Each store transaction as a function of the tables: src/meno_rag/db/repositories.py and its callers in
    src/meno_rag/api/main.py, arena.py, privacy.py, history.py and src/meno_rag/db/retention.py.
    `now` is the clock at the transaction. */
module Operations {
  import opened Lists
  import opened Roles
  import opened Text
  import opened Tables
  import Ratings

  // ---------------------------------------------------------------- conversations and messages

  function Ensured(db: Db, id: string, caller: Owner, allowed: Option<bool>, now: int): Db {
    var c := if id in db.conversations then db.conversations[id] else Conversation(caller, allowed == Some(true), now);
    var owner := Owner(if caller.user.Some? then caller.user else c.owner.user,
                       if caller.guest.Some? then caller.guest else c.owner.guest);
    var flag := if allowed.Some? then allowed.value else c.analysisAllowed;
    db.(conversations := db.conversations[id := Conversation(owner, flag, now)])
  }

  function Appended(db: Db, m: Message, now: int): Db {
    var e := Ensured(db, m.conversation, NOBODY, None, now);
    e.(messages := e.messages + [m])
  }

  /** The last recorded decision for a purpose; never decided means not granted. */
  function Consented(consents: seq<ConsentEvent>, s: Owner, purpose: Purpose): bool {
    if consents == [] then false
    else
      var e := consents[|consents| - 1];
      if Tagged(e.owner, s) && e.purpose == purpose then e.granted
      else Consented(consents[..|consents| - 1], s, purpose)
  }

  function WithRun(db: Db, id: string, run: PipelineRun, children: seq<RunChild>): Db {
    db.(runs := db.runs[id := run], children := db.children + children)
  }

  function Field(source: Source, name: string): string {
    if name in source then source[name] else ""
  }

  /** `shown_source_refs`: title and link of a source, and nothing else. */
  function ShownRef(source: Source): Source {
    map["document_title" := Field(source, "document_title"), "source_url" := Field(source, "source_url")]
  }

  function ShownRefs(sources: seq<Source>): seq<Source> {
    seq(|sources|, i requires 0 <= i < |sources| => ShownRef(sources[i]))
  }

  /** A pipeline stage with its status, time and detail. */
  datatype Stage = Stage(name: string, detail: string)

  /** A served chat request: what was asked and answered, by whom, and what the pipeline reported on the way. */
  datatype ChatRequest = ChatRequest(run: string, session: string, question: string, answer: string, caller: Owner,
                                     arena: bool, model: string, sources: seq<Source>, stages: seq<Stage>,
                                     generation: string, record: string, trace: Option<string>)

  function ChatQuestion(q: ChatRequest): Message {
    Message(q.session, User, q.question, Some(Origin(q.model, q.run)), None, None)
  }

  function ChatAnswer(q: ChatRequest): Message {
    Message(q.session, Assistant, q.answer, Some(Origin(q.model, q.run)), Some(ShownRefs(q.sources)), None)
  }

  function StageRows(run: string, stages: seq<Stage>): seq<RunChild> {
    seq(|stages|, i requires 0 <= i < |stages| => StageRow(run, stages[i].name, stages[i].detail))
  }

  function SourceRows(run: string, shown: seq<Source>): seq<RunChild> {
    seq(|shown|, i requires 0 <= i < |shown| => SourceRow(run, i, shown[i]))
  }

  /** The children of a run, in the order of their insertion. */
  function RunRows(q: ChatRequest): seq<RunChild> {
    StageRows(q.run, q.stages + [Stage("generation", q.generation)]) + SourceRows(q.run, ShownRefs(q.sources))
    + [GenerationRow(q.run, q.record)]
  }

  /** Whether the caller is turned away from a conversation. */
  predicate Refused(db: Db, id: string, caller: Owner) {
    id in db.conversations && !OwnerMatches(db.conversations[id], caller)
  }

  /** `_persist_success`; a run id already taken fails the insert and rolls the transaction back. */
  function ChatPersisted(db: Db, q: ChatRequest, now: int): Db {
    var improvement := Consented(db.consents, q.caller, MenoImprovement);
    if Refused(db, q.session, q.caller) || (improvement && q.run in db.runs) then db
    else
      var stored :=
        if q.arena then db
        else
          Appended(Appended(Ensured(db, q.session, q.caller, Some(improvement), now), ChatQuestion(q), now),
                   ChatAnswer(q), now);
      if improvement then WithRun(stored, q.run, PipelineRun(q.session, q.caller, q.question, now), RunRows(q))
      else stored
  }

  /** Whether `_persist_success` hands a trace to the background writer, before the run is inserted. */
  predicate Traced(db: Db, q: ChatRequest) {
    q.trace.Some? && !Refused(db, q.session, q.caller) && Consented(db.consents, q.caller, MenoImprovement)
  }

  /** `_persist_failure`. */
  function FailurePersisted(db: Db, run: string, session: string, question: string, caller: Owner, now: int): Db {
    if run in db.runs then db
    else
      var kept := if Consented(db.consents, caller, MenoImprovement) then question else "";
      WithRun(db, run, PipelineRun(session, caller, kept, now), [])
  }

  // ---------------------------------------------------------------- arena turns and votes

  predicate IsTurn(m: Message, id: string, index: nat) {
    m.conversation == id && m.arena.Some? && m.arena.value.index == Some(index)
  }

  predicate IsVote(v: Vote, id: string, index: nat) {
    v.session == Some(id) && v.index == Some(index)
  }

  /** The first stored turn with that index, or the number of messages. */
  function FindTurn(messages: seq<Message>, id: string, index: nat): (i: nat)
    ensures i <= |messages| && (i < |messages| ==> IsTurn(messages[i], id, index))
    ensures forall k :: 0 <= k < i ==> !IsTurn(messages[k], id, index)
  {
    if messages == [] || IsTurn(messages[0], id, index) then 0 else FindTurn(messages[1..], id, index) + 1
  }

  function FindVote(votes: seq<Vote>, id: string, index: nat): (i: nat)
    ensures i <= |votes| && (i < |votes| ==> IsVote(votes[i], id, index))
    ensures forall k :: 0 <= k < i ==> !IsVote(votes[k], id, index)
  {
    if votes == [] || IsVote(votes[0], id, index) then 0 else FindVote(votes[1..], id, index) + 1
  }

  function VotedWinner(votes: seq<Vote>, id: string, index: Option<nat>): Option<Winner> {
    if index.None? then None
    else
      var i := FindVote(votes, id, index.value);
      if i < |votes| then Some(votes[i].winner) else None
  }

  datatype TurnRequest = TurnRequest(session: string, question: string, sideA: Side, sideB: Side,
                                     index: Option<nat>, caller: Owner)

  function TurnQuestion(q: TurnRequest): Message {
    Message(q.session, User, q.question, None, None, None)
  }

  function ShownSide(side: Side): Side {
    side.(sources := ShownRefs(side.sources))
  }

  function Compared(q: TurnRequest, winner: Option<Winner>): ArenaTurn {
    ArenaTurn(q.index, winner, ShownSide(q.sideA), ShownSide(q.sideB))
  }

  function Comparison(q: TurnRequest, winner: Option<Winner>): Message {
    Message(q.session, Assistant, q.sideA.content, None, None, Some(Compared(q, winner)))
  }

  /** A stored turn that is posted again. */
  function Reposted(m: Message, q: TurnRequest, winner: Option<Winner>): Message {
    m.(content := q.sideA.content, arena := Some(Compared(q, winner)))
  }

  /** `record_turn` with `append_arena_turn`. */
  function TurnRecorded(db: Db, q: TurnRequest, now: int): Db {
    if Refused(db, q.session, q.caller) then db
    else
      var improvement := Consented(db.consents, q.caller, MenoImprovement);
      TurnStored(Ensured(db, q.session, q.caller, Some(improvement), now), q, now)
  }

  function TurnStored(e: Db, q: TurnRequest, now: int): Db {
    var winner := VotedWinner(e.votes, q.session, q.index);
    var i := if q.index.Some? then FindTurn(e.messages, q.session, q.index.value) else |e.messages|;
    if i < |e.messages| then
      e.(messages := e.messages[i := Reposted(e.messages[i], q, winner)])
    else
      var asked := Appended(e, TurnQuestion(q), now);
      asked.(messages := asked.messages + [Comparison(q, winner)])
  }

  /** `set_arena_turn_winner`. */
  function WithWinner(messages: seq<Message>, id: string, index: Option<nat>, w: Winner): seq<Message> {
    if index.None? then messages
    else
      var i := FindTurn(messages, id, index.value);
      if i < |messages| then messages[i := messages[i].(arena := Some(messages[i].arena.value.(winner := Some(w))))]
      else messages
  }

  /** Python's truth value of an optional session id. */
  predicate Given(session: Option<string>) {
    session.Some? && session.value != ""
  }

  predicate IsDuplicate(db: Db, v: Vote) {
    Given(v.session) && v.index.Some? && FindVote(db.votes, v.session.value, v.index.value) < |db.votes|
  }

  predicate VoteRefused(db: Db, v: Vote) {
    Given(v.session) && Refused(db, v.session.value, v.owner)
  }

  /** `submit_vote` with `submit_arena_vote`. */
  function VoteSubmitted(db: Db, v: Vote, pow: real -> real): Db
    requires forall x :: pow(x) > 0.0
  {
    if VoteRefused(db, v) || IsDuplicate(db, v) then db
    else
      db.(votes := db.votes + [v],
          ratings := Ratings.AfterVote(db.ratings, v, pow),
          messages := WithWinner(db.messages, if v.session.Some? then v.session.value else "", v.index, v.winner))
  }

  // ---------------------------------------------------------------- privacy settings

  datatype Reply = Done | Unauthorized | Conflict | BadRequest

  /** `patch_settings` for an accepted request. */
  function SettingsChanged(db: Db, s: Owner, improvement: bool): Db {
    var service := if Consented(db.consents, s, ServiceAndHistory) then []
      else [ConsentEvent(s, ServiceAndHistory, true)];
    if improvement == Consented(db.consents, s, MenoImprovement) then db.(consents := db.consents + service)
    else
      db.(consents := db.consents + service + [ConsentEvent(s, MenoImprovement, improvement)],
          conversations := Flagged(db.conversations, s, improvement))
  }

  function Flagged(conversations: map<string, Conversation>, s: Owner, allowed: bool): map<string, Conversation> {
    map id | id in conversations ::
      if Tagged(conversations[id].owner, s) then conversations[id].(analysisAllowed := allowed) else conversations[id]
  }

  /** The guards of `patch_settings`, in order. */
  function SettingsReply(s: Owner, versionCurrent: bool, service: bool): Reply {
    if s == NOBODY then Unauthorized else if !versionCurrent then Conflict else if !service then BadRequest else Done
  }

  function SettingsPatched(db: Db, s: Owner, versionCurrent: bool, service: bool, improvement: bool): Db {
    if SettingsReply(s, versionCurrent, service).Done? && IsSubject(s) then SettingsChanged(db, s, improvement) else db
  }

  // ---------------------------------------------------------------- deletion

  /** Conversations with everything linked to them: messages by foreign key, the rest by session id, and
      the children of the removed runs by foreign key. */
  function ConversationsErased(db: Db, ids: set<string>): Db {
    RunsErased(db.(conversations := db.conversations - ids,
                   messages := Filter(db.messages, MessageOutside(ids)),
                   votes := Filter(db.votes, VoteOutside(ids)),
                   feedback := Filter(db.feedback, FeedbackOutside(ids)),
                   surveys := Filter(db.surveys, SurveyOutside(ids))),
               RunsOf(db.runs, ids))
  }

  function RunsErased(db: Db, runIds: set<string>): Db {
    db.(runs := db.runs - runIds, children := Filter(db.children, ChildOutside(runIds)))
  }

  function RunsOf(runs: map<string, PipelineRun>, ids: set<string>): set<string> {
    set r | r in runs && runs[r].session in ids
  }

  function RunsTagged(runs: map<string, PipelineRun>, s: Owner): set<string> {
    set r | r in runs && Tagged(runs[r].owner, s)
  }

  function MessageOutside(ids: set<string>): Message -> bool {
    (m: Message) => m.conversation !in ids
  }

  function VoteOutside(ids: set<string>): Vote -> bool {
    (v: Vote) => !InSessions(v.session, ids)
  }

  function FeedbackOutside(ids: set<string>): Feedback -> bool {
    (f: Feedback) => f.session !in ids
  }

  function SurveyOutside(ids: set<string>): Survey -> bool {
    (s: Survey) => s.session !in ids
  }

  function ChildOutside(runIds: set<string>): RunChild -> bool {
    (c: RunChild) => c.run !in runIds
  }

  function VoteUntagged(s: Owner): Vote -> bool {
    (v: Vote) => !Tagged(v.owner, s)
  }

  function FeedbackUntagged(s: Owner): Feedback -> bool {
    (f: Feedback) => !Tagged(f.owner, s)
  }

  function SurveyUntagged(s: Owner): Survey -> bool {
    (x: Survey) => !Tagged(x.owner, s)
  }

  predicate InSessions(session: Option<string>, ids: set<string>) {
    session.Some? && session.value in ids
  }

  function OwnedBy(db: Db, s: Owner): set<string> {
    set id | id in db.conversations && Tagged(db.conversations[id].owner, s)
  }

  /** The rows tagged with the subject's own id, and the subject's own row. */
  function TaggedSwept(db: Db, s: Owner): Db {
    RunsErased(db.(votes := Filter(db.votes, VoteUntagged(s)),
                   feedback := Filter(db.feedback, FeedbackUntagged(s)),
                   surveys := Filter(db.surveys, SurveyUntagged(s)),
                   users := if s.user.Some? then db.users - {s.user.value} else db.users,
                   guests := if s.user.None? && s.guest.Some? then db.guests - {s.guest.value} else db.guests),
               RunsTagged(db.runs, s))
  }

  /** `delete_subject_data`. */
  function SubjectErased(db: Db, s: Owner): Db {
    if IsSubject(s) then TaggedSwept(ConversationsErased(db, OwnedBy(db, s)), s) else db
  }

  function HistoryErased(db: Db, s: Owner): Db {
    if IsSubject(s) then ConversationsErased(db, OwnedBy(db, s)) else db
  }

  /** `clear_history`. */
  function HistoryCleared(db: Db, id: string, caller: Owner): Db {
    if Refused(db, id, caller) then db else ConversationsErased(db, {id})
  }

  const DAY := 86_400

  function Stale(db: Db, cutoff: int): set<string> {
    set id | id in db.conversations && db.conversations[id].updatedAt < cutoff
  }

  /** Runs without a conversation created before the cutoff. */
  function Orphans(db: Db, cutoff: int): set<string> {
    set r | r in db.runs && db.runs[r].createdAt < cutoff && db.runs[r].session !in db.conversations
  }

  function Aged(db: Db, cutoff: int): Db {
    var swept := ConversationsErased(db, Stale(db, cutoff));
    RunsErased(swept, Orphans(swept, cutoff))
  }

  /** `run_retention`. */
  function RetentionRun(db: Db, now: int, days: int): Db {
    if days <= 0 then db else Aged(db, now - days * DAY)
  }

  // ---------------------------------------------------------------- runs of the service

  datatype Op =
    | Chat(chat: ChatRequest, now: int)
    | Failed(run: string, session: string, question: string, caller: Owner, now: int)
    | Turn(turn: TurnRequest, now: int)
    | Cast(vote: Vote)
    | Patch(subject: Owner, versionCurrent: bool, service: bool, improvement: bool)
    | EraseSubject(subject: Owner)
    | EraseHistory(subject: Owner)
    | Clear(id: string, caller: Owner)
    | Retain(now: int, days: int)

  /** What the request schemas and the session-id default guarantee: chat and turn sessions are not empty. */
  predicate Admissible(op: Op) {
    (op.Chat? ==> op.chat.session != "") && (op.Turn? ==> op.turn.session != "")
  }

  /** The request resolved to at most one subject id. */
  predicate OneIdentity(op: Op) {
    match op
    case Chat(q, _) => !HasBoth(q.caller)
    case Turn(q, _) => !HasBoth(q.caller)
    case Cast(v) => !HasBoth(v.owner)
    case Failed(_, _, _, caller, _) => !HasBoth(caller)
    case Patch(s, _, _, _) => !HasBoth(s)
    case EraseSubject(s) => !HasBoth(s)
    case EraseHistory(s) => !HasBoth(s)
    case Clear(_, caller) => !HasBoth(caller)
    case Retain(_, _) => true
  }

  function Step(db: Db, op: Op, pow: real -> real): Db
    requires forall x :: pow(x) > 0.0
  {
    match op
    case Chat(q, now) => ChatPersisted(db, q, now)
    case Failed(run, session, question, caller, now) => FailurePersisted(db, run, session, question, caller, now)
    case Turn(q, now) => TurnRecorded(db, q, now)
    case Cast(v) => VoteSubmitted(db, v, pow)
    case Patch(s, versionCurrent, service, improvement) => SettingsPatched(db, s, versionCurrent, service, improvement)
    case EraseSubject(s) => SubjectErased(db, s)
    case EraseHistory(s) => HistoryErased(db, s)
    case Clear(id, caller) => HistoryCleared(db, id, caller)
    case Retain(now, days) => RetentionRun(db, now, days)
  }

  function Run(db: Db, ops: seq<Op>, pow: real -> real): Db
    requires forall x :: pow(x) > 0.0
  {
    if ops == [] then db else Step(Run(db, ops[..|ops| - 1], pow), ops[|ops| - 1], pow)
  }
}
