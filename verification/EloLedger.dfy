/** Elo accounting over whole runs of the service: src/meno_rag/db/repositories.py. */
module EloLedger {
  import opened Tables
  import opened Operations
  import opened Ratings

  /** The ratings that a sequence of votes leads to. */
  function Tally(votes: seq<Vote>, pow: real -> real): seq<Rating>
    requires forall x :: pow(x) > 0.0
  {
    if votes == [] then [] else AfterVote(Tally(votes[..|votes| - 1], pow), votes[|votes| - 1], pow)
  }

  /** What one vote adds to the sum of all ratings, beside 1200 for each new row.  On one row the second
      assignment overwrites the first, so that the loser's or the winner's move alone remains. */
  function Drift(v: Vote): real {
    match v.winner
    case Unknown(_) => 0.0
    case Tie => 0.0
    case BothBad => if SameSides(v) then -16.0 else -32.0
    case SideA => if SameSides(v) then -16.0 else 0.0
    case SideB => if SameSides(v) then 16.0 else 0.0
  }

  function TotalDrift(votes: seq<Vote>): real {
    if votes == [] then 0.0 else TotalDrift(votes[..|votes| - 1]) + Drift(votes[|votes| - 1])
  }

  function KnownVotes(votes: seq<Vote>): nat {
    if votes == [] then 0
    else KnownVotes(votes[..|votes| - 1]) + if votes[|votes| - 1].winner.Unknown? then 0 else 1
  }

  function BothBadVotes(votes: seq<Vote>): nat {
    if votes == [] then 0
    else BothBadVotes(votes[..|votes| - 1]) + if votes[|votes| - 1].winner.BothBad? then 1 else 0
  }

  /** One vote moves the sum over the table by 1200 per new row and its drift. */
  lemma VoteMovesSum(s: seq<Rating>, v: Vote, pow: real -> real)
    requires PowLaws(pow)
    ensures SumElo(AfterVote(s, v, pow)) - INITIAL_ELO * |AfterVote(s, v, pow)| as real
            == SumElo(s) - INITIAL_ELO * |s| as real + Drift(v)
    ensures SumMatches(AfterVote(s, v, pow)) == SumMatches(s) + if v.winner.Unknown? then 0 else 2
  {
    var one := WithRow(s, v.modelA, v.kbA);
    var rows := WithRow(one, v.modelB, v.kbB);
    RowsExist(s, v);
    SumsWithRow(s, v.modelA, v.kbA);
    SumsWithRow(one, v.modelB, v.kbB);
    AppliedSums(rows, Lookup(rows, v.modelA, v.kbA), Lookup(rows, v.modelB, v.kbB), v.winner, pow);
  }

  /** Any sequence of votes: the ratings sum to 1200 per row plus the drifts, there are two matches per vote with
      a known verdict, the counters of every row agree, and no side has two rows. */
  lemma {:induction false} TallyLaws(votes: seq<Vote>, pow: real -> real)
    requires PowLaws(pow)
    ensures var t := Tally(votes, pow);
            && SumElo(t) == INITIAL_ELO * |t| as real + TotalDrift(votes)
            && SumMatches(t) == 2 * KnownVotes(votes)
            && CountersAgree(t) && UniqueRows(t)
  {
    if votes == [] {
    } else {
      var front, v := votes[..|votes| - 1], votes[|votes| - 1];
      TallyLaws(front, pow);
      VoteMovesSum(Tally(front, pow), v, pow);
      VoteKeepsRows(Tally(front, pow), v, pow);
    }
  }

  lemma {:induction false} DistinctSidesDrift(votes: seq<Vote>)
    requires forall v :: v in votes ==> !SameSides(v)
    ensures TotalDrift(votes) == -32.0 * BothBadVotes(votes) as real
  {
    if votes == [] {
    } else {
      var front, v := votes[..|votes| - 1], votes[|votes| - 1];
      assert v in votes;
      DistinctSidesDrift(front);
    }
  }

  // ---------------------------------------------------------------- runs

  /** The votes a run counts, in order: those neither refused nor repeated. */
  function Recorded(db: Db, ops: seq<Op>, pow: real -> real): seq<Vote>
    requires forall x :: pow(x) > 0.0
  {
    if ops == [] then []
    else
      var front, op := ops[..|ops| - 1], ops[|ops| - 1];
      var before := Run(db, front, pow);
      if op.Cast? && !VoteRefused(before, op.vote) && !IsDuplicate(before, op.vote) then
        Recorded(db, front, pow) + [op.vote]
      else Recorded(db, front, pow)
  }

  lemma OnlyVotesTouchRatings(db: Db, op: Op, pow: real -> real)
    requires forall x :: pow(x) > 0.0
    ensures var counted := op.Cast? && !VoteRefused(db, op.vote) && !IsDuplicate(db, op.vote);
            Step(db, op, pow).ratings == if counted then AfterVote(db.ratings, op.vote, pow) else db.ratings
  {
  }

  /** In every run the ratings are those of the counted votes alone: erasure and retention leave them. */
  lemma {:induction false} RatingsAreTally(users: set<string>, guests: set<string>, ops: seq<Op>, pow: real -> real)
    requires forall x :: pow(x) > 0.0
    ensures Run(Fresh(users, guests), ops, pow).ratings == Tally(Recorded(Fresh(users, guests), ops, pow), pow)
  {
    if ops == [] {
    } else {
      var front, op := ops[..|ops| - 1], ops[|ops| - 1];
      RatingsAreTally(users, guests, front, pow);
      OnlyVotesTouchRatings(Run(Fresh(users, guests), front, pow), op, pow);
      var counted := Recorded(Fresh(users, guests), front, pow);
      assert op.Cast? ==> (counted + [op.vote])[..|counted|] == counted;
    }
  }

  /** In every run whose votes all compare different sides, the ratings sum to 1200 per row less 32 per counted
      `both_bad`, and the counters balance. */
  lemma EveryRunBalances(users: set<string>, guests: set<string>, ops: seq<Op>, pow: real -> real)
    requires PowLaws(pow)
    ensures var ratings, counted := Run(Fresh(users, guests), ops, pow).ratings,
        Recorded(Fresh(users, guests), ops, pow);
            && SumElo(ratings) == INITIAL_ELO * |ratings| as real + TotalDrift(counted)
            && ((forall v :: v in counted ==> !SameSides(v)) ==>
                  SumElo(ratings) == INITIAL_ELO * |ratings| as real - 32.0 * BothBadVotes(counted) as real)
            && SumMatches(ratings) == 2 * KnownVotes(counted)
            && CountersAgree(ratings) && UniqueRows(ratings)
  {
    var counted := Recorded(Fresh(users, guests), ops, pow);
    RatingsAreTally(users, guests, ops, pow);
    TallyLaws(counted, pow);
    if forall v :: v in counted ==> !SameSides(v) {
      DistinctSidesDrift(counted);
    }
  }

  /** The first vote on a fresh database, with side A winning against itself, leaves one rating of 1184. */
  lemma EqualSidesBreakTheBalance(users: set<string>, guests: set<string>, v: Vote, pow: real -> real)
    requires PowLaws(pow) && SameSides(v) && v.winner.SideA?
    ensures var ratings := Run(Fresh(users, guests), [Cast(v)], pow).ratings;
            |ratings| == 1 && ratings[0].elo == 1184.0 && Balance(ratings) != 0.0
  {
    assert [Cast(v)][..0] == [] && [v][..0] == [];
    var ratings := AfterVote([], v, pow);
    assert Run(Fresh(users, guests), [Cast(v)], pow).ratings == ratings;
    VoteMovesSum([], v, pow);
    VoteKeepsBalanceIff([], v, pow);
    assert |ratings| == 1;
    assert ratings[..0] == [];
  }
}
