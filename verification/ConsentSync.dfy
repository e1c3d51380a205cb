/** Consent over all runs: the append-only log of src/meno_rag/db/repositories.py and the flag derived from it
    on conversations by src/meno_rag/api/privacy.py, main.py and arena.py. */
module ConsentSync {
  import opened Text
  import opened Tables
  import opened Operations

  // ---------------------------------------------------------------- the log of one subject

  /** The decisions recorded for a subject and purpose, oldest first. */
  function Log(consents: seq<ConsentEvent>, s: Owner, purpose: Purpose): seq<bool> {
    if consents == [] then []
    else
      var front, e := Log(consents[..|consents| - 1], s, purpose), consents[|consents| - 1];
      if Tagged(e.owner, s) && e.purpose == purpose then front + [e.granted] else front
  }

  /** The state is the last decision of the log. */
  lemma {:induction false} ConsentedIsLastOfLog(consents: seq<ConsentEvent>, s: Owner, purpose: Purpose)
    ensures var log := Log(consents, s, purpose);
            Consented(consents, s, purpose) <==> log != [] && log[|log| - 1]
  {
    if consents == [] {
    } else {
      ConsentedIsLastOfLog(consents[..|consents| - 1], s, purpose);
    }
  }

  predicate Alternates(log: seq<bool>) {
    forall i :: 0 <= i < |log| ==> log[i] == (i % 2 == 0)
  }

  /** Per subject: improvement decisions alternate, starting with a grant; the service consent is granted once,
      before any improvement decision, and never revoked. */
  ghost predicate LogsAreSound(consents: seq<ConsentEvent>) {
    && (forall e :: e in consents ==> IsSubject(e.owner))
    && forall s :: IsSubject(s) ==> LogIsSound(consents, s)
  }

  ghost predicate LogIsSound(consents: seq<ConsentEvent>, s: Owner) {
    && Alternates(Log(consents, s, MenoImprovement))
    && (Log(consents, s, ServiceAndHistory) == [] || Log(consents, s, ServiceAndHistory) == [true])
    && (Log(consents, s, MenoImprovement) != [] ==> Log(consents, s, ServiceAndHistory) == [true])
  }

  // ---------------------------------------------------------------- the derived flag

  /** No conversation has two owners, and its flag is its owner's current improvement consent; that of a
      conversation nobody owns is off. */
  ghost predicate FlagsInSync(db: Db) {
    forall id :: id in db.conversations ==> InSync(db.conversations[id], db.consents)
  }

  predicate InSync(c: Conversation, consents: seq<ConsentEvent>) {
    !HasBoth(c.owner) && c.analysisAllowed == Consented(consents, c.owner, MenoImprovement)
  }

  ghost predicate Synced(db: Db) {
    FlagsInSync(db) && LogsAreSound(db.consents)
  }

  lemma TaggedIsEqual(row: Owner, s: Owner)
    requires !HasBoth(row) && !HasBoth(s)
    ensures Tagged(row, s) <==> row == s && s != NOBODY
  {
  }

  // ---------------------------------------------------------------- changing the settings

  /** An event extends the log of its own subject and purpose only. */
  lemma OneMoreEvent(consents: seq<ConsentEvent>, e: ConsentEvent, s: Owner, purpose: Purpose)
    requires IsSubject(e.owner) && !HasBoth(s)
    ensures Log(consents + [e], s, purpose)
            == if s == e.owner && purpose == e.purpose then Log(consents, s, purpose) + [e.granted]
               else Log(consents, s, purpose)
    ensures Consented(consents + [e], s, purpose)
            == if s == e.owner && purpose == e.purpose then e.granted else Consented(consents, s, purpose)
  {
  }

  lemma AlternatesNext(log: seq<bool>, next: bool)
    requires Alternates(log) && next == !(log != [] && log[|log| - 1])
    ensures Alternates(log + [next])
  {
  }

  lemma ServiceGrantStaysSound(consents: seq<ConsentEvent>, s: Owner)
    requires LogsAreSound(consents) && IsSubject(s) && !Consented(consents, s, ServiceAndHistory)
    ensures LogsAreSound(consents + [ConsentEvent(s, ServiceAndHistory, true)])
    ensures Log(consents + [ConsentEvent(s, ServiceAndHistory, true)], s, ServiceAndHistory) == [true]
  {
    var e := ConsentEvent(s, ServiceAndHistory, true);
    ConsentedIsLastOfLog(consents, s, ServiceAndHistory);
    assert LogIsSound(consents, s);
    forall t | IsSubject(t) ensures LogIsSound(consents + [e], t) {
      assert LogIsSound(consents, t);
      OneMoreEvent(consents, e, t, ServiceAndHistory);
      OneMoreEvent(consents, e, t, MenoImprovement);
    }
    OneMoreEvent(consents, e, s, ServiceAndHistory);
  }

  lemma DecisionStaysSound(consents: seq<ConsentEvent>, s: Owner, granted: bool)
    requires LogsAreSound(consents) && IsSubject(s) && granted != Consented(consents, s, MenoImprovement)
    requires Log(consents, s, ServiceAndHistory) == [true]
    ensures LogsAreSound(consents + [ConsentEvent(s, MenoImprovement, granted)])
  {
    var e := ConsentEvent(s, MenoImprovement, granted);
    ConsentedIsLastOfLog(consents, s, MenoImprovement);
    assert LogIsSound(consents, s);
    AlternatesNext(Log(consents, s, MenoImprovement), granted);
    forall t | IsSubject(t) ensures LogIsSound(consents + [e], t) {
      assert LogIsSound(consents, t);
      OneMoreEvent(consents, e, t, ServiceAndHistory);
      OneMoreEvent(consents, e, t, MenoImprovement);
    }
  }

  /** The log after the service consent was recorded if it was missing. */
  function Served(consents: seq<ConsentEvent>, s: Owner): seq<ConsentEvent> {
    if Consented(consents, s, ServiceAndHistory) then consents
    else consents + [ConsentEvent(s, ServiceAndHistory, true)]
  }

  lemma ServedIsSound(consents: seq<ConsentEvent>, s: Owner)
    requires LogsAreSound(consents) && IsSubject(s)
    ensures LogsAreSound(Served(consents, s)) && Log(Served(consents, s), s, ServiceAndHistory) == [true]
    ensures forall t :: !HasBoth(t) ==>
              Consented(Served(consents, s), t, MenoImprovement) == Consented(consents, t, MenoImprovement)
  {
    assert LogIsSound(consents, s);
    ConsentedIsLastOfLog(consents, s, ServiceAndHistory);
    if !Consented(consents, s, ServiceAndHistory) {
      ServiceGrantStaysSound(consents, s);
      forall t | !HasBoth(t)
        ensures Consented(Served(consents, s), t, MenoImprovement) == Consented(consents, t, MenoImprovement)
      {
        OneMoreEvent(consents, ConsentEvent(s, ServiceAndHistory, true), t, MenoImprovement);
      }
    }
  }

  lemma SettingsStaySynced(db: Db, s: Owner, improvement: bool)
    requires Synced(db) && IsSubject(s)
    ensures Synced(SettingsChanged(db, s, improvement))
    ensures Consented(SettingsChanged(db, s, improvement).consents, s, MenoImprovement) == improvement
  {
    var d, served := SettingsChanged(db, s, improvement), Served(db.consents, s);
    ServedIsSound(db.consents, s);
    if improvement == Consented(db.consents, s, MenoImprovement) {
      assert d.consents == served;
      forall id | id in d.conversations ensures InSync(d.conversations[id], d.consents) {
        assert InSync(db.conversations[id], db.consents);
      }
    } else {
      var e := ConsentEvent(s, MenoImprovement, improvement);
      assert d.consents == served + [e];
      DecisionStaysSound(served, s, improvement);
      OneMoreEvent(served, e, s, MenoImprovement);
      forall id | id in d.conversations ensures InSync(d.conversations[id], d.consents) {
        var c := db.conversations[id];
        assert InSync(c, db.consents);
        TaggedIsEqual(c.owner, s);
        OneMoreEvent(served, e, c.owner, MenoImprovement);
      }
    }
  }

  lemma SettingsLog(db: Db, s: Owner, improvement: bool)
    ensures var d, served := SettingsChanged(db, s, improvement), Served(db.consents, s);
            d.consents == served || d.consents == served + [ConsentEvent(s, MenoImprovement, improvement)]
  {
    assert Served(db.consents, s) + [] == Served(db.consents, s);
  }

  lemma OthersFlagsAreUntouched(db: Db, s: Owner, improvement: bool, id: string)
    requires IsSubject(s) && id in db.conversations && !HasBoth(db.conversations[id].owner)
    requires db.conversations[id].owner != s
    ensures var d := SettingsChanged(db, s, improvement);
            id in d.conversations && d.conversations[id] == db.conversations[id]
  {
    TaggedIsEqual(db.conversations[id].owner, s);
  }

  lemma OthersLogIsUntouched(db: Db, s: Owner, improvement: bool, t: Owner, purpose: Purpose)
    requires IsSubject(s) && !HasBoth(t) && t != s
    ensures var d := SettingsChanged(db, s, improvement);
            && Log(d.consents, t, purpose) == Log(db.consents, t, purpose)
            && Consented(d.consents, t, purpose) == Consented(db.consents, t, purpose)
  {
    OneMoreEvent(db.consents, ConsentEvent(s, ServiceAndHistory, true), t, purpose);
    OneMoreEvent(Served(db.consents, s), ConsentEvent(s, MenoImprovement, improvement), t, purpose);
    SettingsLog(db, s, improvement);
  }

  /** A change of settings is the subject's own affair: nobody else's log, state or conversations move. */
  lemma OthersAreUntouched(db: Db, s: Owner, improvement: bool, t: Owner, purpose: Purpose)
    requires IsSubject(s) && !HasBoth(t) && t != s
    ensures Log(SettingsChanged(db, s, improvement).consents, t, purpose) == Log(db.consents, t, purpose)
    ensures Consented(SettingsChanged(db, s, improvement).consents, t, purpose) == Consented(db.consents, t, purpose)
    ensures forall id :: id in db.conversations && db.conversations[id].owner == t ==>
              var after := SettingsChanged(db, s, improvement).conversations;
              id in after && after[id] == db.conversations[id]
  {
    OthersLogIsUntouched(db, s, improvement, t, purpose);
    forall id | id in db.conversations && db.conversations[id].owner == t
      ensures var after := SettingsChanged(db, s, improvement).conversations;
              id in after && after[id] == db.conversations[id]
    {
      OthersFlagsAreUntouched(db, s, improvement, id);
    }
  }

  // ---------------------------------------------------------------- writing conversations

  /** A request with at most one id that is not refused leaves the conversation with exactly that owner. */
  lemma EnsuredStaysSynced(db: Db, id: string, caller: Owner, now: int)
    requires Synced(db) && !HasBoth(caller) && !Refused(db, id, caller)
    ensures var e := Ensured(db, id, caller, Some(Consented(db.consents, caller, MenoImprovement)), now);
            Synced(e) && e.conversations[id].owner == caller
  {
  }

  /** Touching a conversation that exists. */
  lemma AppendedStaysSynced(db: Db, m: Message, now: int)
    requires Synced(db) && m.conversation in db.conversations
    ensures Synced(Appended(db, m, now)) && m.conversation in Appended(db, m, now).conversations
  {
  }

  lemma ChatStaysSynced(db: Db, q: ChatRequest, now: int)
    requires Synced(db) && !HasBoth(q.caller)
    ensures Synced(ChatPersisted(db, q, now))
  {
    if !Refused(db, q.session, q.caller) {
      var e := Ensured(db, q.session, q.caller, Some(Consented(db.consents, q.caller, MenoImprovement)), now);
      EnsuredStaysSynced(db, q.session, q.caller, now);
      AppendedStaysSynced(e, ChatQuestion(q), now);
      AppendedStaysSynced(Appended(e, ChatQuestion(q), now), ChatAnswer(q), now);
    }
  }

  lemma TurnStaysSynced(db: Db, q: TurnRequest, now: int)
    requires Synced(db) && !HasBoth(q.caller)
    ensures Synced(TurnRecorded(db, q, now))
  {
    if !Refused(db, q.session, q.caller) {
      EnsuredStaysSynced(db, q.session, q.caller, now);
      var improvement := Consented(db.consents, q.caller, MenoImprovement);
      AppendedStaysSynced(Ensured(db, q.session, q.caller, Some(improvement), now), TurnQuestion(q), now);
    }
  }

  /** Any change that keeps the log and at most drops conversations. */
  lemma FewerConversationsStaySynced(db: Db, d: Db)
    requires Synced(db) && d.consents == db.consents
    requires forall id :: id in d.conversations ==>
        id in db.conversations && d.conversations[id] == db.conversations[id]
    ensures Synced(d)
  {
  }

  lemma DeletionOnlyDrops(db: Db, op: Op, pow: real -> real)
    requires forall x :: pow(x) > 0.0
    requires op.Failed? || op.Cast? || op.EraseSubject? || op.EraseHistory? || op.Clear? || op.Retain?
    ensures var d := Step(db, op, pow);
            && d.consents == db.consents
            && forall id :: id in d.conversations ==>
               id in db.conversations && d.conversations[id] == db.conversations[id]
  {
  }

  lemma StepStaysSynced(db: Db, op: Op, pow: real -> real)
    requires (forall x :: pow(x) > 0.0) && Synced(db) && OneIdentity(op)
    ensures Synced(Step(db, op, pow))
  {
    match op
    case Chat(q, now) => ChatStaysSynced(db, q, now);
    case Turn(q, now) => TurnStaysSynced(db, q, now);
    case Patch(s, versionCurrent, service, improvement) =>
      if IsSubject(s) {
        SettingsStaySynced(db, s, improvement);
      }
    case _ =>
      DeletionOnlyDrops(db, op, pow);
      FewerConversationsStaySynced(db, Step(db, op, pow));
  }

  /** In every run in which each request carries at most one id, no conversation has two owners, every flag is
      the last improvement decision of the owner's log, and the logs alternate. */
  lemma {:induction false} EveryRunIsSynced(users: set<string>, guests: set<string>, ops: seq<Op>, pow: real -> real)
    requires forall x :: pow(x) > 0.0
    requires forall op :: op in ops ==> OneIdentity(op)
    ensures Synced(Run(Fresh(users, guests), ops, pow))
  {
    if ops == [] {
    } else {
      var front, op := ops[..|ops| - 1], ops[|ops| - 1];
      assert op in ops;
      EveryRunIsSynced(users, guests, front, pow);
      StepStaysSynced(Run(Fresh(users, guests), front, pow), op, pow);
    }
  }

  // ---------------------------------------------------------------- two tokens in one chat request

  ghost predicate SingleOwners(db: Db) {
    forall id :: id in db.conversations ==> !HasBoth(db.conversations[id].owner)
  }

  /** Whether the request reaches the conversation table. */
  predicate Written(db: Db, q: ChatRequest) {
    && !q.arena && !Refused(db, q.session, q.caller)
    && !(Consented(db.consents, q.caller, MenoImprovement) && q.run in db.runs)
  }

  /** A chat request gives a conversation a second owner exactly when it carries both tokens and is written. */
  lemma ChatKeepsSingleOwnersIff(db: Db, q: ChatRequest, now: int)
    requires SingleOwners(db)
    ensures SingleOwners(ChatPersisted(db, q, now)) <==> !(HasBoth(q.caller) && Written(db, q))
  {
    var d := ChatPersisted(db, q, now);
    if Written(db, q) {
      assert d.conversations.Keys == db.conversations.Keys + {q.session};
      assert HasBoth(q.caller) ==> HasBoth(d.conversations[q.session].owner);
      assert !HasBoth(q.caller) ==> !HasBoth(d.conversations[q.session].owner);
    }
  }

  /** The first such request on a fresh database already does. */
  lemma BothTokensGiveTwoOwners(users: set<string>, guests: set<string>, q: ChatRequest, now: int, pow: real -> real)
    requires (forall x :: pow(x) > 0.0) && HasBoth(q.caller) && !q.arena
    ensures var d := Run(Fresh(users, guests), [Chat(q, now)], pow);
            q.session in d.conversations && d.conversations[q.session].owner == q.caller && !SingleOwners(d)
  {
    var start := Fresh(users, guests);
    assert [Chat(q, now)][..0] == [];
    assert Run(start, [Chat(q, now)], pow) == ChatPersisted(start, q, now);
    ChatKeepsSingleOwnersIff(start, q, now);
    assert Written(start, q);
  }

  lemma WrittenIsOwned(db: Db, q: ChatRequest, now: int)
    requires HasBoth(q.caller) && Written(db, q)
    ensures var d := ChatPersisted(db, q, now);
            && q.session in d.conversations && d.conversations[q.session].owner == q.caller
            && d.consents == db.consents
  {
  }

  lemma DecisionSetsFlag(db: Db, s: Owner, id: string, allowed: bool)
    requires id in db.conversations && Tagged(db.conversations[id].owner, s)
    requires allowed != Consented(db.consents, s, MenoImprovement)
    ensures var d := SettingsChanged(db, s, allowed);
            id in d.conversations && d.conversations[id].analysisAllowed == allowed
  {
  }

  lemma DecisionIsOwn(db: Db, s: Owner, t: Owner, allowed: bool)
    requires IsSubject(s) && !HasBoth(t) && s != t
    ensures Consented(SettingsChanged(db, s, allowed).consents, t, MenoImprovement)
            == Consented(db.consents, t, MenoImprovement)
  {
    var d, served := SettingsChanged(db, s, allowed), Served(db.consents, s);
    OneMoreEvent(db.consents, ConsentEvent(s, ServiceAndHistory, true), t, MenoImprovement);
    OneMoreEvent(served, ConsentEvent(s, MenoImprovement, allowed), t, MenoImprovement);
    assert d.consents == served || d.consents == served + [ConsentEvent(s, MenoImprovement, allowed)];
  }

  /** After such a request the guest's next decision sets the flag of the conversation, whatever the user's own
      log says. */
  lemma GuestDecisionOverridesUser(db: Db, q: ChatRequest, now: int, allowed: bool)
    requires HasBoth(q.caller) && Written(db, q)
    requires allowed != Consented(db.consents, Owner(None, q.caller.guest), MenoImprovement)
    ensures var user, guest := Owner(q.caller.user, None), Owner(None, q.caller.guest);
            var d := SettingsChanged(ChatPersisted(db, q, now), guest, allowed);
            && q.session in d.conversations && d.conversations[q.session].analysisAllowed == allowed
            && Consented(d.consents, user, MenoImprovement) == Consented(db.consents, user, MenoImprovement)
  {
    var user, guest := Owner(q.caller.user, None), Owner(None, q.caller.guest);
    WrittenIsOwned(db, q, now);
    DecisionSetsFlag(ChatPersisted(db, q, now), guest, q.session, allowed);
    DecisionIsOwn(ChatPersisted(db, q, now), guest, user, allowed);
  }
}
