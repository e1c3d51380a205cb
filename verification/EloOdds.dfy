/** What a difference of Elo points means: the expectations of `_apply_vote_to_ratings`,
    src/meno_rag/db/repositories.py, as odds.  `pow` is any positive function that turns sums into products, such as
    10 to the power of its argument. */
module EloOdds {
  import opened Tables
  import opened Ratings

  ghost predicate SumToProduct(pow: real -> real, x: real, y: real) {
    pow(x + y) == pow(x) * pow(y)
  }

  ghost predicate Exponential(pow: real -> real) {
    (forall x :: pow(x) > 0.0) && forall x, y :: SumToProduct(pow, x, y)
  }

  lemma OneFactor(p: real, square: real)
    requires p > 0.0 && square == p * p && square == p
    ensures p == 1.0
  {
    assert p * (p - 1.0) == 0.0;
  }

  /** Such a function obeys the laws that the accounting needs. */
  lemma ExponentialIsEnough(pow: real -> real)
    requires Exponential(pow)
    ensures PowLaws(pow) && pow(0.0) == 1.0
  {
    assert SumToProduct(pow, 0.0, 0.0);
    OneFactor(pow(0.0), pow(0.0 + 0.0));
    forall x ensures Reciprocal(pow, x) {
      assert SumToProduct(pow, x, -x);
    }
  }

  lemma Fractions(p: real, q: real)
    requires p > 0.0 && q > 0.0 && p * q == 1.0
    ensures 1.0 / (1.0 + p) == q * (1.0 / (1.0 + q))
  {
    var r := 1.0 / (1.0 + q);
    assert r * (1.0 + q) == 1.0;
    assert (q * r) * (1.0 + p) == q * r + (p * q) * r;
    Quotient(1.0, 1.0 + p, q * r);
  }

  lemma Quotient(x: real, y: real, z: real)
    requires y > 0.0 && z * y == x
    ensures x / y == z
  {
  }

  /** The odds of a side against another are `pow` of its lead in units of 400 points. */
  lemma OddsOfALead(a: real, b: real, pow: real -> real)
    requires Exponential(pow)
    ensures Expected(a, b, pow) == pow((a - b) / 400.0) * Expected(b, a, pow)
  {
    ExponentialIsEnough(pow);
    var x := (a - b) / 400.0;
    assert (b - a) / 400.0 == -x;
    assert Reciprocal(pow, x);
    Fractions(pow(-x), pow(x));
  }

  /** A lead of 400 points multiplies the odds by `pow(1)`: with powers of ten the leader expects ten of eleven. */
  lemma FourHundredPoints(b: real, pow: real -> real)
    requires Exponential(pow)
    ensures Expected(b + 400.0, b, pow) == pow(1.0) * Expected(b, b + 400.0, pow)
    ensures pow(1.0) == 10.0 ==> Expected(b + 400.0, b, pow) == 10.0 / 11.0
  {
    OddsOfALead(b + 400.0, b, pow);
    ExponentialIsEnough(pow);
    ExpectationsSumToOne(b + 400.0, b, pow);
    if pow(1.0) == 10.0 {
      Quotient(10.0, 11.0, Expected(b + 400.0, b, pow));
    }
  }

  function Odds(a: real, b: real, pow: real -> real): real
    requires (forall x :: pow(x) > 0.0) && Expected(b, a, pow) != 0.0
  {
    Expected(a, b, pow) / Expected(b, a, pow)
  }

  lemma OddsArePowers(a: real, b: real, pow: real -> real)
    requires Exponential(pow)
    ensures Expected(b, a, pow) > 0.0 && Odds(a, b, pow) == pow((a - b) / 400.0)
  {
    ExponentialIsEnough(pow);
    ExpectationsSumToOne(b, a, pow);
    OddsOfALead(a, b, pow);
    Quotient(Expected(a, b, pow), Expected(b, a, pow), pow((a - b) / 400.0));
  }

  /** Odds multiply along a chain of sides. */
  lemma OddsMultiply(a: real, b: real, c: real, pow: real -> real)
    requires Exponential(pow)
    ensures Expected(b, a, pow) > 0.0 && Expected(c, b, pow) > 0.0 && Expected(c, a, pow) > 0.0
    ensures Odds(a, c, pow) == Odds(a, b, pow) * Odds(b, c, pow)
  {
    OddsArePowers(a, b, pow);
    OddsArePowers(b, c, pow);
    OddsArePowers(a, c, pow);
    assert SumToProduct(pow, (a - b) / 400.0, (b - c) / 400.0);
    assert (a - b) / 400.0 + (b - c) / 400.0 == (a - c) / 400.0;
  }

  // ---------------------------------------------------------------- what a recorded vote moves

  lemma Gain(e: real, p: real)
    requires p > 0.0 && e == 1.0 / (1.0 + p)
    ensures 32.0 * e * (1.0 + p) == 32.0
  {
    assert e * (1.0 + p) == 1.0;
  }

  /** What the winner with `own` points gains from a loser with `other`: 32 points over one plus the odds. */
  ghost predicate Gains(own: real, other: real, gain: real, pow: real -> real) {
    gain * (1.0 + pow((own - other) / 400.0)) == 32.0
  }

  /** What the four verdicts make of two ratings `a` and `b`. */
  ghost predicate MovedByOdds(a: real, b: real, a': real, b': real, w: Winner, pow: real -> real)
    requires forall x :: pow(x) > 0.0
  {
    match w
    case SideA => Gains(a, b, a' - a, pow) && b - b' == a' - a
    case SideB => Gains(b, a, b' - b, pow) && a - a' == b' - b
    case Tie => a' - a == 16.0 - 32.0 * Expected(a, b, pow) && b - b' == a' - a
    case BothBad => a - a' == 32.0 * Expected(a, b, pow) && b - b' == 32.0 * Expected(b, a, pow)
    case Unknown(_) => a' == a && b' == b
  }

  lemma NewEloMoves(a: real, b: real, w: Winner, pow: real -> real)
    requires Exponential(pow) && !w.Unknown?
    ensures MovedByOdds(a, b, NewElo(a, b, w, true, pow), NewElo(b, a, w, false, pow), w, pow)
  {
    ExponentialIsEnough(pow);
    ExpectationsSumToOne(a, b, pow);
    Gain(Expected(b, a, pow), pow((a - b) / 400.0));
    Gain(Expected(a, b, pow), pow((b - a) / 400.0));
  }

  /** On the ratings a vote leaves: the winner gains 32 points over one plus its odds and the loser loses as much; a
      tie moves half of 32 less the expectation; a vote against both costs each what it expected. */
  lemma VoteMovesByOdds(s: seq<Rating>, v: Vote, pow: real -> real)
    requires Exponential(pow) && !SameSides(v) && !v.winner.Unknown?
    ensures var t := AfterVote(s, v, pow);
            MovedByOdds(RowOf(s, v.modelA, v.kbA).elo, RowOf(s, v.modelB, v.kbB).elo,
                        RowOf(t, v.modelA, v.kbA).elo, RowOf(t, v.modelB, v.kbB).elo, v.winner, pow)
  {
    VoteReplacesItsRows(s, v, pow, v.modelA, v.kbA);
    VoteReplacesItsRows(s, v, pow, v.modelB, v.kbB);
    NewEloMoves(RowOf(s, v.modelA, v.kbA).elo, RowOf(s, v.modelB, v.kbB).elo, v.winner, pow);
  }

  /** A leader by 400 points gains a tenth of what it risks, with powers of ten. */
  lemma LeaderGainsATenth(s: seq<Rating>, v: Vote, w: Vote, pow: real -> real)
    requires Exponential(pow) && pow(1.0) == 10.0 && !SameSides(v) && v.winner.SideA? && w == v.(winner := SideB)
    requires RowOf(s, v.modelA, v.kbA).elo == RowOf(s, v.modelB, v.kbB).elo + 400.0
    ensures var a := RowOf(s, v.modelA, v.kbA).elo;
            && RowOf(AfterVote(s, v, pow), v.modelA, v.kbA).elo - a == 32.0 / 11.0
            && a - RowOf(AfterVote(s, w, pow), v.modelA, v.kbA).elo == 320.0 / 11.0
  {
    var b := RowOf(s, v.modelB, v.kbB).elo;
    FourHundredPoints(b, pow);
    VoteReplacesItsRows(s, v, pow, v.modelA, v.kbA);
    VoteReplacesItsRows(s, w, pow, v.modelA, v.kbA);
  }
}
