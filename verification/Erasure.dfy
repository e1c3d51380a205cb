/** What erasing subjects removes (`delete_subject_data`, src/meno_rag/db/repositories.py), and that no
    transaction leaves a dangling foreign key. */
module Erasure {
  import opened Lists
  import opened Text
  import opened Tables
  import opened Operations

  // ---------------------------------------------------------------- erasing a set of subjects at once

  predicate TaggedAny(row: Owner, subjects: set<Owner>) {
    exists s :: s in subjects && Tagged(row, s)
  }

  function OwnedByAny(db: Db, subjects: set<Owner>): set<string> {
    set id | id in db.conversations && TaggedAny(db.conversations[id].owner, subjects)
  }

  function RunsRelated(runs: map<string, PipelineRun>, ids: set<string>, subjects: set<Owner>): set<string> {
    set r | r in runs && (runs[r].session in ids || TaggedAny(runs[r].owner, subjects))
  }

  function VoteUnrelated(ids: set<string>, subjects: set<Owner>): Vote -> bool {
    (v: Vote) => !InSessions(v.session, ids) && !TaggedAny(v.owner, subjects)
  }

  function FeedbackUnrelated(ids: set<string>, subjects: set<Owner>): Feedback -> bool {
    (f: Feedback) => f.session !in ids && !TaggedAny(f.owner, subjects)
  }

  function SurveyUnrelated(ids: set<string>, subjects: set<Owner>): Survey -> bool {
    (s: Survey) => s.session !in ids && !TaggedAny(s.owner, subjects)
  }

  function UserIds(subjects: set<Owner>): set<string> {
    set s | s in subjects && s.user.Some? :: s.user.value
  }

  function GuestIds(subjects: set<Owner>): set<string> {
    set s | s in subjects && s.user.None? && s.guest.Some? :: s.guest.value
  }

  /** One selection per table: a row goes exactly when it is tagged with one of the subjects, is linked to a
      conversation of theirs, or is a child of a run that goes.  Ratings and consent events stay. */
  function AllErased(db: Db, subjects: set<Owner>): Db {
    var ids := OwnedByAny(db, subjects);
    var runIds := RunsRelated(db.runs, ids, subjects);
    db.(conversations := db.conversations - ids,
        messages := Filter(db.messages, MessageOutside(ids)),
        votes := Filter(db.votes, VoteUnrelated(ids, subjects)),
        feedback := Filter(db.feedback, FeedbackUnrelated(ids, subjects)),
        surveys := Filter(db.surveys, SurveyUnrelated(ids, subjects)),
        runs := db.runs - runIds,
        children := Filter(db.children, ChildOutside(runIds)),
        users := db.users - UserIds(subjects),
        guests := db.guests - GuestIds(subjects))
  }

  // ---------------------------------------------------------------- one subject more

  lemma TaggedAnyMore(row: Owner, subjects: set<Owner>, t: Owner)
    ensures TaggedAny(row, subjects + {t}) <==> TaggedAny(row, subjects) || Tagged(row, t)
  {
  }

  lemma OwnedByMore(db: Db, subjects: set<Owner>, t: Owner)
    ensures OwnedByAny(db, subjects + {t}) == OwnedByAny(db, subjects) + OwnedBy(AllErased(db, subjects), t)
  {
  }

  lemma VotesMore(votes: seq<Vote>, subjects: set<Owner>, t: Owner, ids: set<string>, more: set<string>)
    ensures Filter(Filter(Filter(votes, VoteUnrelated(ids, subjects)), VoteOutside(more)), VoteUntagged(t))
            == Filter(votes, VoteUnrelated(ids + more, subjects + {t}))
  {
    var both := (v: Vote) => !InSessions(v.session, more) && !Tagged(v.owner, t);
    FilterTwice(Filter(votes, VoteUnrelated(ids, subjects)), VoteOutside(more), VoteUntagged(t), both);
    forall v: Vote | v in votes
      ensures VoteUnrelated(ids + more, subjects + {t})(v) == (VoteUnrelated(ids, subjects)(v) && both(v))
    {
      TaggedAnyMore(v.owner, subjects, t);
    }
    FilterTwice(votes, VoteUnrelated(ids, subjects), both, VoteUnrelated(ids + more, subjects + {t}));
  }

  lemma FeedbackMore(rows: seq<Feedback>, subjects: set<Owner>, t: Owner, ids: set<string>, more: set<string>)
    ensures Filter(Filter(Filter(rows, FeedbackUnrelated(ids, subjects)), FeedbackOutside(more)), FeedbackUntagged(t))
            == Filter(rows, FeedbackUnrelated(ids + more, subjects + {t}))
  {
    var both := (f: Feedback) => f.session !in more && !Tagged(f.owner, t);
    FilterTwice(Filter(rows, FeedbackUnrelated(ids, subjects)), FeedbackOutside(more), FeedbackUntagged(t), both);
    forall f: Feedback | f in rows
      ensures FeedbackUnrelated(ids + more, subjects + {t})(f) == (FeedbackUnrelated(ids, subjects)(f) && both(f))
    {
      TaggedAnyMore(f.owner, subjects, t);
    }
    FilterTwice(rows, FeedbackUnrelated(ids, subjects), both, FeedbackUnrelated(ids + more, subjects + {t}));
  }

  lemma SurveysMore(rows: seq<Survey>, subjects: set<Owner>, t: Owner, ids: set<string>, more: set<string>)
    ensures Filter(Filter(Filter(rows, SurveyUnrelated(ids, subjects)), SurveyOutside(more)), SurveyUntagged(t))
            == Filter(rows, SurveyUnrelated(ids + more, subjects + {t}))
  {
    var both := (x: Survey) => x.session !in more && !Tagged(x.owner, t);
    FilterTwice(Filter(rows, SurveyUnrelated(ids, subjects)), SurveyOutside(more), SurveyUntagged(t), both);
    forall x: Survey | x in rows
      ensures SurveyUnrelated(ids + more, subjects + {t})(x) == (SurveyUnrelated(ids, subjects)(x) && both(x))
    {
      TaggedAnyMore(x.owner, subjects, t);
    }
    FilterTwice(rows, SurveyUnrelated(ids, subjects), both, SurveyUnrelated(ids + more, subjects + {t}));
  }

  /** The three removals of runs are one. */
  lemma RunsMore(runs: map<string, PipelineRun>, subjects: set<Owner>, t: Owner, ids: set<string>, more: set<string>)
    ensures var first := RunsRelated(runs, ids, subjects);
            var second := RunsOf(runs - first, more);
            var third := RunsTagged(runs - first - second, t);
            && RunsRelated(runs, ids + more, subjects + {t}) == first + second + third
            && runs - first - second - third == runs - (first + second + third)
  {
  }

  lemma ChildrenMore(children: seq<RunChild>, a: set<string>, b: set<string>, c: set<string>)
    ensures Filter(Filter(Filter(children, ChildOutside(a)), ChildOutside(b)), ChildOutside(c))
            == Filter(children, ChildOutside(a + b + c))
  {
  }

  lemma SubjectsMore(subjects: set<Owner>, t: Owner)
    requires IsSubject(t)
    ensures UserIds(subjects + {t}) == UserIds(subjects) + (if t.user.Some? then {t.user.value} else {})
    ensures GuestIds(subjects + {t}) == GuestIds(subjects) + (if t.user.Some? then {} else {t.guest.value})
  {
  }

  /** Erasing one subject more is erasing the larger set. */
  lemma ErasureAccumulates(db: Db, subjects: set<Owner>, t: Owner)
    requires IsSubject(t)
    ensures SubjectErased(AllErased(db, subjects), t) == AllErased(db, subjects + {t})
  {
    var d, ids := AllErased(db, subjects), OwnedByAny(db, subjects);
    var more := OwnedBy(d, t);
    OwnedByMore(db, subjects, t);
    FilterTwice(db.messages, MessageOutside(ids), MessageOutside(more), MessageOutside(ids + more));
    VotesMore(db.votes, subjects, t, ids, more);
    FeedbackMore(db.feedback, subjects, t, ids, more);
    SurveysMore(db.surveys, subjects, t, ids, more);
    RunsMore(db.runs, subjects, t, ids, more);
    var first := RunsRelated(db.runs, ids, subjects);
    var second := RunsOf(db.runs - first, more);
    ChildrenMore(db.children, first, second, RunsTagged(db.runs - first - second, t));
    SubjectsMore(subjects, t);
    assert db.conversations - ids - more == db.conversations - (ids + more);
  }

  lemma NobodyIsTagged(db: Db)
    ensures OwnedByAny(db, {}) == {} && RunsRelated(db.runs, {}, {}) == {}
    ensures UserIds({}) == {} && GuestIds({}) == {}
    ensures forall row :: !TaggedAny(row, {})
  {
  }

  lemma NothingFiltered(db: Db)
    ensures Filter(db.messages, MessageOutside({})) == db.messages
    ensures Filter(db.votes, VoteUnrelated({}, {})) == db.votes
    ensures Filter(db.feedback, FeedbackUnrelated({}, {})) == db.feedback
    ensures Filter(db.surveys, SurveyUnrelated({}, {})) == db.surveys
    ensures Filter(db.children, ChildOutside({})) == db.children
  {
    NobodyIsTagged(db);
    FilterAll(db.messages, MessageOutside({}));
    FilterAll(db.votes, VoteUnrelated({}, {}));
    FilterAll(db.feedback, FeedbackUnrelated({}, {}));
    FilterAll(db.surveys, SurveyUnrelated({}, {}));
    FilterAll(db.children, ChildOutside({}));
  }

  lemma ErasingNobody(db: Db)
    ensures AllErased(db, {}) == db
  {
    NobodyIsTagged(db);
    NothingFiltered(db);
    assert db.conversations - {} == db.conversations && db.runs - {} == db.runs;
  }

  /** The erasure of one subject, table by table and conversation by conversation, is one selection per table. */
  lemma ErasureIsExact(db: Db, s: Owner)
    requires IsSubject(s)
    ensures SubjectErased(db, s) == AllErased(db, {s})
  {
    ErasingNobody(db);
    ErasureAccumulates(db, {}, s);
    assert {} + {s} == {s};
  }

  function EachErased(db: Db, subjects: seq<Owner>): Db {
    if subjects == [] then db else SubjectErased(EachErased(db, subjects[..|subjects| - 1]), subjects[|subjects| - 1])
  }

  function Members(subjects: seq<Owner>): set<Owner> {
    set s | s in subjects
  }

  lemma OneMoreSubject(front: seq<Owner>, t: Owner)
    ensures Members(front + [t]) == Members(front) + {t}
  {
  }

  /** Erasing subjects one after another depends only on who was erased: not on the order, nor on repetitions. */
  lemma {:induction false} ErasuresCommute(db: Db, subjects: seq<Owner>)
    requires forall s :: s in subjects ==> IsSubject(s)
    ensures EachErased(db, subjects) == AllErased(db, Members(subjects))
  {
    if subjects == [] {
      ErasingNobody(db);
      assert Members([]) == {};
    } else {
      var front, t := subjects[..|subjects| - 1], subjects[|subjects| - 1];
      ErasuresCommute(db, front);
      OneMoreSubject(front, t);
      assert subjects == front + [t];
      ErasureAccumulates(db, Members(front), t);
    }
  }

  /** Nothing that is left names the subject, and nothing that named neither the subject nor a conversation of
      theirs is gone. */
  lemma NothingOfTheSubjectRemains(db: Db, s: Owner)
    requires IsSubject(s)
    ensures var d := SubjectErased(db, s);
            && (forall id ::
                  id in d.conversations <==> id in db.conversations && !Tagged(db.conversations[id].owner, s))
            && (forall m :: m in d.messages <==> m in db.messages && m.conversation !in OwnedBy(db, s))
            && (forall v ::
                  v in d.votes <==> v in db.votes && !Tagged(v.owner, s) && !InSessions(v.session, OwnedBy(db, s)))
            && (forall f ::
                  f in d.feedback <==> f in db.feedback && !Tagged(f.owner, s) && f.session !in OwnedBy(db, s))
            && (forall x :: x in d.surveys <==> x in db.surveys && !Tagged(x.owner, s) && x.session !in OwnedBy(db, s))
            && (forall r :: r in d.runs <==>
                  r in db.runs && !Tagged(db.runs[r].owner, s) && db.runs[r].session !in OwnedBy(db, s))
            && (forall c :: c in d.children <==> c in db.children && (c.run in db.runs ==> c.run in d.runs))
            && (forall u :: u in d.users <==> u in db.users && s.user != Some(u))
            && (forall g :: g in d.guests <==> g in db.guests && s.guest != Some(g))
            && d.ratings == db.ratings && d.consents == db.consents
  {
    ErasureIsExact(db, s);
    var ids, d := OwnedBy(db, s), SubjectErased(db, s);
    assert forall row: Owner :: TaggedAny(row, {s}) <==> Tagged(row, s) by {
      forall row: Owner ensures TaggedAny(row, {s}) <==> Tagged(row, s) {
        TaggedAnyMore(row, {}, s);
        assert {} + {s} == {s};
      }
    }
    assert OwnedByAny(db, {s}) == ids;
    FilterItems(db.messages, MessageOutside(ids));
    FilterItems(db.votes, VoteUnrelated(ids, {s}));
    FilterItems(db.feedback, FeedbackUnrelated(ids, {s}));
    FilterItems(db.surveys, SurveyUnrelated(ids, {s}));
    FilterItems(db.children, ChildOutside(RunsRelated(db.runs, ids, {s})));
  }

  // ---------------------------------------------------------------- foreign keys

  /** Every message belongs to a conversation and every stage, source or generation row to a run. */
  ghost predicate KeysResolve(db: Db) {
    && (forall m :: m in db.messages ==> m.conversation in db.conversations)
    && (forall c :: c in db.children ==> c.run in db.runs)
  }

  lemma ConversationsErasedResolve(db: Db, ids: set<string>)
    requires KeysResolve(db)
    ensures KeysResolve(ConversationsErased(db, ids))
  {
    FilterItems(db.messages, MessageOutside(ids));
    FilterItems(db.children, ChildOutside(RunsOf(db.runs, ids)));
  }

  lemma RunsErasedResolve(db: Db, runIds: set<string>)
    requires KeysResolve(db)
    ensures KeysResolve(RunsErased(db, runIds))
  {
    FilterItems(db.children, ChildOutside(runIds));
  }

  lemma SubjectErasedResolves(db: Db, s: Owner)
    requires KeysResolve(db)
    ensures KeysResolve(SubjectErased(db, s))
  {
    ConversationsErasedResolve(db, OwnedBy(db, s));
    RunsErasedResolve(ConversationsErased(db, OwnedBy(db, s)),
      RunsTagged(ConversationsErased(db, OwnedBy(db, s)).runs, s));
  }

  lemma RetentionResolves(db: Db, now: int, days: int)
    requires KeysResolve(db)
    ensures KeysResolve(RetentionRun(db, now, days))
  {
    var cutoff := now - days * DAY;
    ConversationsErasedResolve(db, Stale(db, cutoff));
    RunsErasedResolve(ConversationsErased(db, Stale(db, cutoff)),
      Orphans(ConversationsErased(db, Stale(db, cutoff)), cutoff));
  }

  lemma AppendedResolves(db: Db, m: Message, now: int)
    requires KeysResolve(db)
    ensures KeysResolve(Appended(db, m, now))
  {
  }

  lemma WithRunResolves(db: Db, id: string, run: PipelineRun, children: seq<RunChild>)
    requires KeysResolve(db) && forall c :: c in children ==> c.run == id
    ensures KeysResolve(WithRun(db, id, run, children))
  {
  }

  lemma ChatResolves(db: Db, q: ChatRequest, now: int)
    requires KeysResolve(db)
    ensures KeysResolve(ChatPersisted(db, q, now))
  {
    var question, answer := ChatQuestion(q), ChatAnswer(q);
    var e := Ensured(db, q.session, q.caller, Some(Consented(db.consents, q.caller, MenoImprovement)), now);
    AppendedResolves(e, question, now);
    AppendedResolves(Appended(e, question, now), answer, now);
    var stored := if q.arena then db else Appended(Appended(e, question, now), answer, now);
    WithRunResolves(stored, q.run, PipelineRun(q.session, q.caller, q.question, now), RunRows(q));
  }

  lemma TurnResolves(db: Db, q: TurnRequest, now: int)
    requires KeysResolve(db)
    ensures KeysResolve(TurnRecorded(db, q, now))
  {
    var e := Ensured(db, q.session, q.caller, Some(Consented(db.consents, q.caller, MenoImprovement)), now);
    AppendedResolves(e, TurnQuestion(q), now);
  }

  lemma VoteResolves(db: Db, v: Vote, pow: real -> real)
    requires (forall x :: pow(x) > 0.0) && KeysResolve(db)
    ensures KeysResolve(VoteSubmitted(db, v, pow))
  {
  }

  lemma StepResolves(db: Db, op: Op, pow: real -> real)
    requires (forall x :: pow(x) > 0.0) && KeysResolve(db)
    ensures KeysResolve(Step(db, op, pow))
  {
    match op
    case Chat(q, now) => ChatResolves(db, q, now);
    case Failed(run, session, question, caller, now) =>
      var kept := if Consented(db.consents, caller, MenoImprovement) then question else "";
      WithRunResolves(db, run, PipelineRun(session, caller, kept, now), []);
    case Turn(q, now) => TurnResolves(db, q, now);
    case Cast(v) => VoteResolves(db, v, pow);
    case Patch(s, versionCurrent, service, improvement) =>
    case EraseSubject(s) => SubjectErasedResolves(db, s);
    case EraseHistory(s) => ConversationsErasedResolve(db, OwnedBy(db, s));
    case Clear(id, caller) => ConversationsErasedResolve(db, {id});
    case Retain(now, days) => RetentionResolves(db, now, days);
  }

  /** No run leaves a dangling foreign key. */
  lemma {:induction false} EveryRunResolves(users: set<string>, guests: set<string>, ops: seq<Op>, pow: real -> real)
    requires forall x :: pow(x) > 0.0
    ensures KeysResolve(Run(Fresh(users, guests), ops, pow))
  {
    if ops == [] {
    } else {
      EveryRunResolves(users, guests, ops[..|ops| - 1], pow);
      StepResolves(Run(Fresh(users, guests), ops[..|ops| - 1], pow), ops[|ops| - 1], pow);
    }
  }
}
