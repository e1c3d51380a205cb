/** The retention sweep (`run_retention`, src/meno_rag/db/retention.py): its state afterwards and its count. */
module Retention {
  import opened Lists
  import opened Tables
  import opened Operations
  import Store

  /** Conversations removed, with the runs and rows that go with them, then the runs nothing owns. */
  ghost predicate Swept(db: Db, cutoff: int) {
    && (forall id :: id in db.conversations ==> db.conversations[id].updatedAt >= cutoff)
    && (forall r :: r in db.runs ==> db.runs[r].createdAt >= cutoff || db.runs[r].session in db.conversations)
  }

  function Kept(conversations: map<string, Conversation>, cutoff: int): map<string, Conversation> {
    map id | id in conversations && conversations[id].updatedAt >= cutoff :: conversations[id]
  }

  predicate Expires(run: PipelineRun, conversations: map<string, Conversation>, cutoff: int) {
    if run.session in conversations then conversations[run.session].updatedAt < cutoff else run.createdAt < cutoff
  }

  function Lasting(runs: map<string, PipelineRun>, conversations: map<string, Conversation>, cutoff: int)
    : map<string, PipelineRun>
  {
    map r | r in runs && !Expires(runs[r], conversations, cutoff) :: runs[r]
  }

  /** What goes and what stays: a conversation goes exactly when it is stale, a run exactly when its conversation
      is stale or when it is old and has no conversation, a child exactly when its run goes, and a message, vote,
      feedback or survey answer exactly when its conversation is stale. */
  lemma SweepIsExact(db: Db, cutoff: int)
    ensures var d := Aged(db, cutoff);
            && d.conversations == Kept(db.conversations, cutoff)
            && d.runs == Lasting(db.runs, db.conversations, cutoff)
            && d.children == Filter(db.children, ChildOutside(db.runs.Keys - d.runs.Keys))
            && d.messages == Filter(db.messages, MessageOutside(Stale(db, cutoff)))
            && d.votes == Filter(db.votes, VoteOutside(Stale(db, cutoff)))
            && d.feedback == Filter(db.feedback, FeedbackOutside(Stale(db, cutoff)))
            && d.surveys == Filter(db.surveys, SurveyOutside(Stale(db, cutoff)))
            && d.ratings == db.ratings && d.consents == db.consents && d.users == db.users && d.guests == db.guests
            && Swept(d, cutoff)
  {
    var ids := Stale(db, cutoff);
    var swept := ConversationsErased(db, ids);
    var linked, orphans := RunsOf(db.runs, ids), Orphans(swept, cutoff);
    assert forall r :: r in db.runs ==>
        (Expires(db.runs[r], db.conversations, cutoff) <==> r in linked || r in orphans);
    assert db.runs.Keys - Aged(db, cutoff).runs.Keys == linked + orphans;
    FilterTwice(db.children, ChildOutside(linked), ChildOutside(orphans), ChildOutside(linked + orphans));
  }

  /** The second sweep finds only runs that were orphans before the first: none is removed by both. */
  lemma SweepsAreDisjoint(db: Db, cutoff: int)
    ensures Orphans(ConversationsErased(db, Stale(db, cutoff)), cutoff) == Orphans(db, cutoff)
    ensures Orphans(db, cutoff) !! RunsOf(db.runs, Stale(db, cutoff))
  {
  }

  /** The returned count in terms of the state before: stale conversations plus old runs without one. */
  function Counted(db: Db, cutoff: int): nat {
    |Stale(db, cutoff)| + |Orphans(db, cutoff)|
  }

  /** The count is what the sweep takes from the two tables, leaving out the runs that go with a conversation. */
  lemma CountIsWhatWent(db: Db, cutoff: int)
    ensures var d := Aged(db, cutoff);
            Counted(db, cutoff) + |RunsOf(db.runs, Stale(db, cutoff))|
            == (|db.conversations| - |d.conversations|) + (|db.runs| - |d.runs|)
  {
    var ids := Stale(db, cutoff);
    var linked, orphans := RunsOf(db.runs, ids), Orphans(db, cutoff);
    SweepsAreDisjoint(db, cutoff);
    DroppedKeys(db.conversations, ids);
    DroppedKeys(db.runs, linked);
    DroppedKeys(db.runs - linked, orphans);
  }

  lemma DroppedKeys<V>(m: map<string, V>, gone: set<string>)
    requires gone <= m.Keys
    ensures |m - gone| == |m| - |gone|
  {
  }

  /** A second sweep at the same or an earlier cutoff removes nothing and counts nothing. */
  lemma SecondSweepIsIdle(db: Db, cutoff: int, earlier: int)
    requires earlier <= cutoff
    ensures Aged(Aged(db, cutoff), earlier) == Aged(db, cutoff)
    ensures Counted(Aged(db, cutoff), earlier) == 0
  {
    var d := Aged(db, cutoff);
    SweepIsExact(db, cutoff);
    assert Stale(d, earlier) == {};
    Store.ErasingNothing(d);
    assert Orphans(d, earlier) == {};
    FilterAll(d.children, ChildOutside({}));
    assert d.runs - {} == d.runs;
  }

  lemma LastingTwice(runs: map<string, PipelineRun>, conversations: map<string, Conversation>, cutoff: int, later: int)
    requires cutoff <= later
    ensures Kept(Kept(conversations, cutoff), later) == Kept(conversations, later)
    ensures Lasting(Lasting(runs, conversations, cutoff), Kept(conversations, cutoff), later)
            == Lasting(runs, conversations, later)
  {
  }

  lemma ChildrenTwice(children: seq<RunChild>, before: set<string>, between: set<string>, after: set<string>)
    requires after <= between <= before
    ensures Filter(Filter(children, ChildOutside(before - between)), ChildOutside(between - after))
            == Filter(children, ChildOutside(before - after))
  {
  }

  /** The tables without the runs. */
  lemma SweptTwiceElsewhere(db: Db, cutoff: int, later: int)
    requires cutoff <= later
    ensures var d, e := Aged(Aged(db, cutoff), later), Aged(db, later);
            d == e.(runs := d.runs, children := d.children)
  {
    var ids := Stale(db, cutoff);
    var more := Stale(Aged(db, cutoff), later);
    assert Stale(db, later) == ids + more;
    Store.ErasingTwice(db, ids, more);
  }

  /** Sweeping and sweeping again later is sweeping once, later: how often the job runs does not matter. */
  lemma LaterSweepSubsumes(db: Db, cutoff: int, later: int)
    requires cutoff <= later
    ensures Aged(Aged(db, cutoff), later) == Aged(db, later)
  {
    var once := Aged(db, cutoff);
    SweepIsExact(db, cutoff);
    SweepIsExact(db, later);
    SweepIsExact(once, later);
    LastingTwice(db.runs, db.conversations, cutoff, later);
    SweptTwiceElsewhere(db, cutoff, later);
    ChildrenTwice(db.children, db.runs.Keys, once.runs.Keys, Aged(db, later).runs.Keys);
  }
}
