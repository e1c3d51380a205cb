/** What each remaining endpoint does to the tables, in the caller's terms: src/meno_rag/api/arena.py, privacy.py and
    history.py and src/meno_rag/db/retention.py over src/meno_rag/db/repositories.py. */
module EndpointEffects {
  import opened Lists
  import opened Tables
  import opened Operations
  import ConsentSync
  import Retention

  // ---------------------------------------------------------------- subjects and owners

  /** The rows of a subject are those with its own id in the column of its kind. */
  lemma TaggedIff(row: Owner, s: Owner)
    requires IsSubject(s)
    ensures Tagged(row, s) <==> (s.user.Some? && row.user == s.user) || (s.guest.Some? && row.guest == s.guest)
  {
  }

  /** A caller is admitted to a conversation that does not exist, belongs to nobody, or belongs to the caller: to the
      user if it has one, else to the guest. */
  lemma AdmittedIff(db: Db, id: string, caller: Owner)
    ensures !Refused(db, id, caller) <==>
            || id !in db.conversations || db.conversations[id].owner == NOBODY
            || (db.conversations[id].owner.user.Some? && caller.user == db.conversations[id].owner.user)
            || (db.conversations[id].owner.user.None? && db.conversations[id].owner.guest.Some?
                && caller.guest == db.conversations[id].owner.guest)
  {
  }

  // ---------------------------------------------------------------- votes

  /** An admitted vote is recorded exactly when it carries no session or no number, or no vote with the same two is
      there; otherwise nothing changes. */
  lemma VoteIsRecordedIff(db: Db, v: Vote, pow: real -> real)
    requires forall x :: pow(x) > 0.0
    ensures var d := VoteSubmitted(db, v, pow);
            var known := v.session.Some? && v.session.value != "" && v.index.Some?
                         && exists w :: w in db.votes && w.session == v.session && w.index == v.index;
            if VoteRefused(db, v) || known then d == db else d.votes == db.votes + [v]
  {
    if v.session.Some? && v.index.Some? {
      var i := FindVote(db.votes, v.session.value, v.index.value);
      if i < |db.votes| {
        assert db.votes[i] in db.votes;
      }
    }
  }

  // ---------------------------------------------------------------- privacy settings

  /** A request for settings is answered by the first guard it fails: a subject, the current version of the documents,
      the service consent. */
  lemma SettingsReplyMeaning(s: Owner, versionCurrent: bool, service: bool)
    ensures var r := SettingsReply(s, versionCurrent, service);
            && (r == Done <==> s != NOBODY && versionCurrent && service)
            && (r == Unauthorized <==> s == NOBODY)
            && (r == Conflict <==> s != NOBODY && !versionCurrent)
            && (r == BadRequest <==> s != NOBODY && versionCurrent && !service)
  {
  }

  lemma LastDecision(consents: seq<ConsentEvent>, e: ConsentEvent, s: Owner, purpose: Purpose)
    ensures Consented(consents + [e], s, purpose)
            == if Tagged(e.owner, s) && e.purpose == purpose then e.granted else Consented(consents, s, purpose)
  {
    assert (consents + [e])[..|consents|] == consents;
  }

  /** An accepted request makes the requested decision current, with the service consent, and flags exactly the
      subject's conversations when the decision is new; a refused one changes nothing. */
  lemma SettingsTakeEffect(db: Db, s: Owner, versionCurrent: bool, service: bool, improvement: bool)
    requires IsSubject(s)
    ensures var d := SettingsPatched(db, s, versionCurrent, service, improvement);
            if !(versionCurrent && service) then d == db
            else
              && Consented(d.consents, s, MenoImprovement) == improvement
              && Consented(d.consents, s, ServiceAndHistory)
              && d.conversations.Keys == db.conversations.Keys
              && forall id :: id in d.conversations ==>
                   d.conversations[id]
                   == if Tagged(db.conversations[id].owner, s)
                         && improvement != Consented(db.consents, s, MenoImprovement)
                      then db.conversations[id].(analysisAllowed := improvement) else db.conversations[id]
  {
    var served := ConsentSync.Served(db.consents, s);
    var grant, decision := ConsentEvent(s, ServiceAndHistory, true), ConsentEvent(s, MenoImprovement, improvement);
    LastDecision(db.consents, grant, s, ServiceAndHistory);
    LastDecision(db.consents, grant, s, MenoImprovement);
    LastDecision(served, decision, s, ServiceAndHistory);
    LastDecision(served, decision, s, MenoImprovement);
    var d := SettingsChanged(db, s, improvement);
    assert d.consents == served || d.consents == served + [decision];
    assert db.consents + [] == db.consents;
  }

  // ---------------------------------------------------------------- history

  /** The conversations `ids` and everything linked to them are gone, and everything else is there. */
  ghost predicate Gone(db: Db, d: Db, ids: set<string>) {
    && (forall id :: id in d.conversations <==> id in db.conversations && id !in ids)
    && (forall m :: m in d.messages <==> m in db.messages && m.conversation !in ids)
    && (forall v :: v in d.votes <==> v in db.votes && (v.session.None? || v.session.value !in ids))
    && (forall f :: f in d.feedback <==> f in db.feedback && f.session !in ids)
    && (forall x :: x in d.surveys <==> x in db.surveys && x.session !in ids)
    && (forall r :: r in d.runs <==> r in db.runs && db.runs[r].session !in ids)
    && (forall c :: c in d.children <==> c in db.children && !(c.run in db.runs && db.runs[c.run].session in ids))
    && (forall id :: id in d.conversations ==> d.conversations[id] == db.conversations[id])
    && (forall r :: r in d.runs ==> d.runs[r] == db.runs[r])
    && d.ratings == db.ratings && d.consents == db.consents && d.users == db.users && d.guests == db.guests
  }

  lemma ErasedAreGone(db: Db, ids: set<string>)
    ensures Gone(db, ConversationsErased(db, ids), ids)
  {
    FilterItems(db.messages, MessageOutside(ids));
    FilterItems(db.votes, VoteOutside(ids));
    FilterItems(db.feedback, FeedbackOutside(ids));
    FilterItems(db.surveys, SurveyOutside(ids));
    FilterItems(db.children, ChildOutside(RunsOf(db.runs, ids)));
  }

  /** Clearing one history takes that conversation for an admitted caller and nothing otherwise. */
  lemma ClearTakesIff(db: Db, id: string, caller: Owner)
    ensures if Refused(db, id, caller) then HistoryCleared(db, id, caller) == db
            else Gone(db, HistoryCleared(db, id, caller), {id})
  {
    ErasedAreGone(db, {id});
  }

  /** Erasing a subject's history takes exactly the subject's conversations. */
  lemma HistoryTakesItsOwn(db: Db, s: Owner)
    requires IsSubject(s)
    ensures var mine := set id | id in db.conversations && Tagged(db.conversations[id].owner, s);
            Gone(db, HistoryErased(db, s), mine)
  {
    ErasedAreGone(db, OwnedBy(db, s));
  }

  // ---------------------------------------------------------------- retention

  /** Retention for `days` days takes a conversation exactly when it was not touched for longer than that many times
      24 hours of 60 minutes of 60 seconds, and nothing for no days. */
  lemma RetentionTakesIff(db: Db, now: int, days: int, id: string)
    requires id in db.conversations
    ensures days <= 0 ==> RetentionRun(db, now, days) == db
    ensures days > 0 ==>
              (id !in RetentionRun(db, now, days).conversations
               <==> now - db.conversations[id].updatedAt > days * 24 * 60 * 60)
  {
    Retention.SweepIsExact(db, now - days * DAY);
  }

  /** A run without a conversation goes by its own age. */
  lemma RetentionTakesOrphansIff(db: Db, now: int, days: int, r: string)
    requires r in db.runs && db.runs[r].session !in db.conversations && days > 0
    ensures r !in RetentionRun(db, now, days).runs <==> now - db.runs[r].createdAt > days * 24 * 60 * 60
  {
    Retention.SweepIsExact(db, now - days * DAY);
  }

  /** What a chat request or a posted turn writes outlives every sweep up to that many days later. */
  lemma WrittenOutlivesRetention(db: Db, q: ChatRequest, t: TurnRequest, now: int, later: int, days: int)
    requires days > 0 && later - now <= days * 24 * 60 * 60
    ensures ConsentSync.Written(db, q) ==>
              q.session in RetentionRun(ChatPersisted(db, q, now), later, days).conversations
    ensures !Refused(db, t.session, t.caller) ==>
              t.session in RetentionRun(TurnRecorded(db, t, now), later, days).conversations
  {
    if ConsentSync.Written(db, q) {
      RetentionTakesIff(ChatPersisted(db, q, now), later, days, q.session);
    }
    if !Refused(db, t.session, t.caller) {
      RetentionTakesIff(TurnRecorded(db, t, now), later, days, t.session);
    }
  }
}
