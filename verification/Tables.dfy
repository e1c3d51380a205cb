/** The relational tables of src/meno_rag/db/orm.py.  Tables with a string primary key are maps, the others
    are sequences of rows in insertion order (the code orders messages and consent events by `created_at`). */
module Tables {
  import opened Roles
  import opened Text

  // ---------------------------------------------------------------- rows

  /** The two owner columns of a row, or the ids a request resolved to. */
  datatype Owner = Owner(user: Option<string>, guest: Option<string>)

  const NOBODY := Owner(None, None)

  datatype Conversation = Conversation(owner: Owner, analysisAllowed: bool, updatedAt: int)

  datatype Winner = SideA | SideB | Tie | BothBad | Unknown(name: string)

  /** A source of an answer: text fields by name. */
  type Source = map<string, string>

  datatype Side = Side(model: Option<string>, kb: Option<string>, content: string, sources: seq<Source>)

  datatype ArenaTurn = ArenaTurn(index: Option<nat>, winner: Option<Winner>, sideA: Side, sideB: Side)

  /** The model that answered and the request it belongs to. */
  datatype Origin = Origin(model: string, request: string)

  datatype Message = Message(conversation: string, role: Role, content: string, origin: Option<Origin>,
                             sources: Option<seq<Source>>, arena: Option<ArenaTurn>)

  datatype Vote = Vote(modelA: string, kbA: string, modelB: string, kbB: string, winner: Winner,
                       session: Option<string>, index: Option<nat>, owner: Owner)

  datatype Rating = Rating(model: string, kb: string, elo: real, wins: nat, losses: nat, ties: nat, bothBad: nat,
                           matches: nat)

  datatype PipelineRun = PipelineRun(session: string, owner: Owner, question: string, createdAt: int)

  /** The rows that hang off a pipeline run. */
  datatype RunChild =
    | StageRow(run: string, stage: string, detail: string)
    | SourceRow(run: string, ordinal: nat, source: Source)
    | GenerationRow(run: string, record: string)

  datatype Feedback = Feedback(run: string, session: string, owner: Owner, value: string)

  datatype Survey = Survey(session: string, owner: Owner, answer: string)

  datatype Purpose = ServiceAndHistory | AccountRegistration | MenoImprovement

  datatype ConsentEvent = ConsentEvent(owner: Owner, purpose: Purpose, granted: bool)

  datatype Db = Db(conversations: map<string, Conversation>, messages: seq<Message>, votes: seq<Vote>,
                   ratings: seq<Rating>, runs: map<string, PipelineRun>, children: seq<RunChild>,
                   feedback: seq<Feedback>, surveys: seq<Survey>, users: set<string>, guests: set<string>,
                   consents: seq<ConsentEvent>)

  /** A fresh database in which some accounts and guest sessions exist. */
  function Fresh(users: set<string>, guests: set<string>): Db {
    Db(map[], [], [], [], map[], [], [], [], users, guests, [])
  }

  // ---------------------------------------------------------------- owners

  predicate HasBoth(o: Owner) {
    o.user.Some? && o.guest.Some?
  }

  /** A subject has exactly one id. */
  predicate IsSubject(o: Owner) {
    o.user.Some? != o.guest.Some?
  }

  /** The rows a query for subject `s` selects: by user id if it has one, else by guest id. */
  predicate Tagged(row: Owner, s: Owner) {
    if s.user.Some? then row.user == s.user else s.guest.Some? && row.guest == s.guest
  }

  /** `conversation_owner_matches`: an owned conversation only for its owner, an untagged one for anybody. */
  predicate OwnerMatches(c: Conversation, caller: Owner) {
    if c.owner.user.Some? then caller.user == c.owner.user
    else if c.owner.guest.Some? then caller.guest == c.owner.guest
    else true
  }
}
