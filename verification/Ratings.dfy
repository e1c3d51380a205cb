/** Elo accounting of arena votes: `_apply_vote_to_ratings`, src/meno_rag/db/repositories.py.
    `pow` stands for x -> 10^x over the reals; the sum laws need only that it is positive and that
    pow(-x) is the reciprocal of pow(x). */
module Ratings {
  import opened Tables

  const INITIAL_ELO := 1200.0
  const K_FACTOR := 32.0

  function Lookup(ratings: seq<Rating>, model: string, kb: string): (i: nat)
    ensures i <= |ratings|
    ensures i < |ratings| ==> ratings[i].model == model && ratings[i].kb == kb
    ensures forall k :: 0 <= k < i ==> !(ratings[k].model == model && ratings[k].kb == kb)
  {
    if ratings == [] then 0
    else if ratings[0].model == model && ratings[0].kb == kb then 0
    else Lookup(ratings[1..], model, kb) + 1
  }

  /** `_get_rating`: the row is created on first use. */
  function WithRow(ratings: seq<Rating>, model: string, kb: string): seq<Rating> {
    if Lookup(ratings, model, kb) < |ratings| then ratings
    else ratings + [Rating(model, kb, INITIAL_ELO, 0, 0, 0, 0, 0)]
  }

  function Expected(own: real, other: real, pow: real -> real): real
    requires forall x :: pow(x) > 0.0
  {
    1.0 / (1.0 + pow((other - own) / 400.0))
  }

  /** The counters of one side after a vote; `first` tells whether it is side A. */
  function Count(r: Rating, winner: Winner, first: bool): Rating {
    match winner
    case SideA => if first then r.(wins := r.wins + 1, matches := r.matches + 1)
      else r.(losses := r.losses + 1, matches := r.matches + 1)
    case SideB => if first then r.(losses := r.losses + 1, matches := r.matches + 1)
      else r.(wins := r.wins + 1, matches := r.matches + 1)
    case Tie => r.(ties := r.ties + 1, matches := r.matches + 1)
    case BothBad => r.(bothBad := r.bothBad + 1, losses := r.losses + 1, matches := r.matches + 1)
    case Unknown(_) => r
  }

  function Points(winner: Winner, first: bool): real {
    match winner
    case SideA => if first then 1.0 else 0.0
    case SideB => if first then 0.0 else 1.0
    case Tie => 0.5
    case BothBad => 0.0
    case Unknown(_) => 0.0
  }

  function Counted(ratings: seq<Rating>, i: nat, j: nat, winner: Winner): seq<Rating>
    requires i < |ratings| && j < |ratings|
  {
    var s := ratings[i := Count(ratings[i], winner, true)];
    s[j := Count(s[j], winner, false)]
  }

  /** Every assignment goes to the row: on one row the second Elo assignment wins. */
  function Moved(ratings: seq<Rating>, i: nat, j: nat, eloA: real, eloB: real): seq<Rating>
    requires i < |ratings| && j < |ratings|
  {
    var s := ratings[i := ratings[i].(elo := eloA)];
    s[j := s[j].(elo := eloB)]
  }

  function NewElo(own: real, other: real, winner: Winner, first: bool, pow: real -> real): real
    requires forall x :: pow(x) > 0.0
  {
    own + K_FACTOR * (Points(winner, first) - Expected(own, other, pow))
  }

  /** A vote over the two rows of its sides, the same row twice when both sides are the same (model, kb). */
  function Applied(ratings: seq<Rating>, i: nat, j: nat, winner: Winner, pow: real -> real): seq<Rating>
    requires i < |ratings| && j < |ratings|
    requires forall x :: pow(x) > 0.0
  {
    if winner.Unknown? then ratings
    else
      var a, b := ratings[i].elo, ratings[j].elo;
      Moved(Counted(ratings, i, j, winner), i, j, NewElo(a, b, winner, true, pow), NewElo(b, a, winner, false, pow))
  }

  function AfterVote(ratings: seq<Rating>, v: Vote, pow: real -> real): seq<Rating>
    requires forall x :: pow(x) > 0.0
  {
    var rows := WithRow(WithRow(ratings, v.modelA, v.kbA), v.modelB, v.kbB);
    RowsExist(ratings, v);
    Applied(rows, Lookup(rows, v.modelA, v.kbA), Lookup(rows, v.modelB, v.kbB), v.winner, pow)
  }

  predicate SameSides(v: Vote) {
    v.modelA == v.modelB && v.kbA == v.kbB
  }

  lemma RowsExist(ratings: seq<Rating>, v: Vote)
    ensures var rows := WithRow(WithRow(ratings, v.modelA, v.kbA), v.modelB, v.kbB);
            var i, j := Lookup(rows, v.modelA, v.kbA), Lookup(rows, v.modelB, v.kbB);
            i < |rows| && j < |rows| && (i == j <==> SameSides(v))
  {
    var one := WithRow(ratings, v.modelA, v.kbA);
    var rows := WithRow(one, v.modelB, v.kbB);
    var k := if Lookup(ratings, v.modelA, v.kbA) < |ratings| then Lookup(ratings, v.modelA, v.kbA) else |ratings|;
    assert rows[k].model == v.modelA && rows[k].kb == v.kbA;
    var l := if Lookup(one, v.modelB, v.kbB) < |one| then Lookup(one, v.modelB, v.kbB) else |one|;
    assert rows[l].model == v.modelB && rows[l].kb == v.kbB;
  }

  // ---------------------------------------------------------------- sums over the table

  function SumElo(s: seq<Rating>): real {
    if s == [] then 0.0 else SumElo(s[..|s| - 1]) + s[|s| - 1].elo
  }

  function SumBothBad(s: seq<Rating>): nat {
    if s == [] then 0 else SumBothBad(s[..|s| - 1]) + s[|s| - 1].bothBad
  }

  function SumMatches(s: seq<Rating>): nat {
    if s == [] then 0 else SumMatches(s[..|s| - 1]) + s[|s| - 1].matches
  }

  lemma {:induction false} SumsUpdate(s: seq<Rating>, i: nat, r: Rating)
    requires i < |s|
    ensures SumElo(s[i := r]) == SumElo(s) - s[i].elo + r.elo
    ensures SumBothBad(s[i := r]) == SumBothBad(s) - s[i].bothBad + r.bothBad
    ensures SumMatches(s[i := r]) == SumMatches(s) - s[i].matches + r.matches
  {
    var t := s[i := r];
    if i == |s| - 1 {
      assert t[..|t| - 1] == s[..|s| - 1];
    } else {
      assert t[..|t| - 1] == s[..|s| - 1][i := r];
      SumsUpdate(s[..|s| - 1], i, r);
    }
  }

  lemma SumsWithRow(s: seq<Rating>, model: string, kb: string)
    ensures var t := WithRow(s, model, kb);
            && SumElo(t) - INITIAL_ELO * |t| as real == SumElo(s) - INITIAL_ELO * |s| as real
            && SumBothBad(t) == SumBothBad(s) && SumMatches(t) == SumMatches(s)
  {
  }

  // ---------------------------------------------------------------- the Elo formula

  ghost predicate PowLaws(pow: real -> real) {
    (forall x :: pow(x) > 0.0) && forall x :: Reciprocal(pow, x)
  }

  ghost predicate Reciprocal(pow: real -> real, x: real) {
    pow(x) * pow(-x) == 1.0
  }

  lemma ReciprocalsSumToOne(p: real, q: real)
    requires p > 0.0 && q > 0.0 && p * q == 1.0
    ensures 1.0 / (1.0 + p) + 1.0 / (1.0 + q) == 1.0
    ensures 0.0 < 1.0 / (1.0 + p) < 1.0
  {
  }

  /** The two expectations are fractions that sum to one. */
  lemma ExpectationsSumToOne(a: real, b: real, pow: real -> real)
    requires PowLaws(pow)
    ensures Expected(a, b, pow) + Expected(b, a, pow) == 1.0
    ensures 0.0 < Expected(a, b, pow) < 1.0
    ensures a == b ==> Expected(a, b, pow) == 0.5
  {
    var x := (b - a) / 400.0;
    assert (a - b) / 400.0 == -x;
    assert Reciprocal(pow, x);
    ReciprocalsSumToOne(pow(x), pow(-x));
  }

  // ---------------------------------------------------------------- accounting laws

  /** The balance of a ratings table: zero when the ratings sum to 1200 per row, less 16 per `both_bad`. */
  function Balance(s: seq<Rating>): real {
    SumElo(s) - INITIAL_ELO * |s| as real + 16.0 * SumBothBad(s) as real
  }

  lemma CountedSums(s: seq<Rating>, i: nat, j: nat, winner: Winner)
    requires i < |s| && j < |s|
    ensures var t := Counted(s, i, j, winner);
            && |t| == |s| && SumElo(t) == SumElo(s) && t[i].elo == s[i].elo && t[j].elo == s[j].elo
            && SumMatches(t) == SumMatches(s) + (if winner.Unknown? then 0 else 2)
            && SumBothBad(t) == SumBothBad(s) + (if winner.BothBad? then 2 else 0)
  {
    var t := s[i := Count(s[i], winner, true)];
    SumsUpdate(s, i, Count(s[i], winner, true));
    SumsUpdate(t, j, Count(t[j], winner, false));
  }

  lemma MovedSums(s: seq<Rating>, i: nat, j: nat, eloA: real, eloB: real)
    requires i < |s| && j < |s|
    ensures var t := Moved(s, i, j, eloA, eloB);
            && |t| == |s| && SumMatches(t) == SumMatches(s) && SumBothBad(t) == SumBothBad(s)
            && SumElo(t) == if i == j then SumElo(s) - s[i].elo + eloB
                            else SumElo(s) - s[i].elo - s[j].elo + eloA + eloB
  {
    var t := s[i := s[i].(elo := eloA)];
    SumsUpdate(s, i, s[i].(elo := eloA));
    SumsUpdate(t, j, t[j].(elo := eloB));
  }

  /** What one vote moves in total between two ratings, and on a single one. */
  lemma EloExchange(a: real, b: real, winner: Winner, pow: real -> real)
    requires PowLaws(pow) && !winner.Unknown?
    ensures NewElo(a, b, winner, true, pow) + NewElo(b, a, winner, false, pow)
            == a + b + if winner.BothBad? then -32.0 else 0.0
    ensures NewElo(a, a, winner, false, pow) == a + K_FACTOR * (Points(winner, false) - 0.5)
    ensures Near(a, NewElo(a, b, winner, true, pow)) && Near(a, NewElo(a, b, winner, false, pow))
  {
    ExpectationsSumToOne(a, b, pow);
    ExpectationsSumToOne(a, a, pow);
  }

  ghost predicate Increasing(pow: real -> real) {
    forall x, y :: x < y ==> pow(x) < pow(y)
  }

  lemma FractionsOrder(p: real, q: real)
    requires 0.0 < p < q
    ensures 1.0 / (1.0 + p) > 1.0 / (1.0 + q)
  {
  }

  /** The stronger side is expected to score more, and so gains less by winning and loses more by losing; the
      winner of a decided vote rises and the loser falls. */
  lemma FavouriteExpectsMore(a: real, b: real, pow: real -> real)
    requires PowLaws(pow) && Increasing(pow)
    ensures a > b <==> Expected(a, b, pow) > Expected(b, a, pow)
    ensures a > b ==> NewElo(a, b, SideA, true, pow) - a < NewElo(b, a, SideB, false, pow) - b
    ensures NewElo(a, b, SideA, true, pow) > a && NewElo(b, a, SideA, false, pow) < b
    ensures NewElo(a, b, SideB, true, pow) < a && NewElo(b, a, SideB, false, pow) > b
    ensures a > b ==> NewElo(a, b, Tie, true, pow) < a && NewElo(b, a, Tie, false, pow) > b
  {
    var up, down := (b - a) / 400.0, (a - b) / 400.0;
    ExpectationsSumToOne(a, b, pow);
    ExpectationsSumToOne(b, a, pow);
    if a > b {
      assert pow(up) < pow(down);
      FractionsOrder(pow(up), pow(down));
    } else if a < b {
      assert pow(down) < pow(up);
      FractionsOrder(pow(down), pow(up));
    }
  }

  lemma AppliedSums(s: seq<Rating>, i: nat, j: nat, winner: Winner, pow: real -> real)
    requires PowLaws(pow) && i < |s| && j < |s|
    ensures var t := Applied(s, i, j, winner, pow);
            && |t| == |s|
            && SumMatches(t) == SumMatches(s) + (if winner.Unknown? then 0 else 2)
            && SumBothBad(t) == SumBothBad(s) + (if winner.BothBad? then 2 else 0)
            && SumElo(t) == SumElo(s) +
               (if winner.Unknown? then 0.0
                else if i == j then K_FACTOR * (Points(winner, false) - 0.5)
                else if winner.BothBad? then -32.0 else 0.0)
  {
    if !winner.Unknown? {
      var a, b := s[i].elo, s[j].elo;
      EloExchange(a, b, winner, pow);
      CountedSums(s, i, j, winner);
      MovedSums(Counted(s, i, j, winner), i, j, NewElo(a, b, winner, true, pow), NewElo(b, a, winner, false, pow));
    }
  }

  /** A vote keeps the balance exactly when its sides differ, it is a tie, or its verdict is unknown. */
  lemma VoteKeepsBalanceIff(s: seq<Rating>, v: Vote, pow: real -> real)
    requires PowLaws(pow)
    ensures Balance(AfterVote(s, v, pow)) == Balance(s) <==> !SameSides(v) || v.winner.Tie? || v.winner.Unknown?
    ensures SumMatches(AfterVote(s, v, pow)) == SumMatches(s) + if v.winner.Unknown? then 0 else 2
  {
    var one := WithRow(s, v.modelA, v.kbA);
    var rows := WithRow(one, v.modelB, v.kbB);
    RowsExist(s, v);
    SumsWithRow(s, v.modelA, v.kbA);
    SumsWithRow(one, v.modelB, v.kbB);
    AppliedSums(rows, Lookup(rows, v.modelA, v.kbA), Lookup(rows, v.modelB, v.kbB), v.winner, pow);
  }

  ghost predicate CountersAgree(s: seq<Rating>) {
    forall i :: 0 <= i < |s| ==> s[i].wins + s[i].losses + s[i].ties == s[i].matches && s[i].bothBad <= s[i].losses
  }

  ghost predicate UniqueRows(s: seq<Rating>) {
    forall i, j :: 0 <= i < j < |s| ==> s[i].model != s[j].model || s[i].kb != s[j].kb
  }

  /** What every row keeps over a vote: its place, its key, agreeing counters, and an Elo less than 32 away. */
  ghost predicate RowKept(r: Rating, t: Rating) {
    && t.model == r.model && t.kb == r.kb && Near(r.elo, t.elo)
    && (r.wins + r.losses + r.ties == r.matches && r.bothBad <= r.losses ==>
          t.wins + t.losses + t.ties == t.matches && t.bothBad <= t.losses)
  }

  lemma AppliedKeepsRows(s: seq<Rating>, i: nat, j: nat, winner: Winner, pow: real -> real)
    requires PowLaws(pow) && i < |s| && j < |s|
    ensures |Applied(s, i, j, winner, pow)| == |s|
    ensures forall k :: 0 <= k < |s| ==> RowKept(s[k], Applied(s, i, j, winner, pow)[k])
  {
    if !winner.Unknown? {
      EloExchange(s[i].elo, s[j].elo, winner, pow);
      EloExchange(s[j].elo, s[i].elo, winner, pow);
    }
  }

  lemma WithRowKeeps(s: seq<Rating>, model: string, kb: string)
    ensures var t := WithRow(s, model, kb);
            && |s| <= |t| && t[..|s|] == s
            && (CountersAgree(s) ==> CountersAgree(t)) && (UniqueRows(s) ==> UniqueRows(t))
  {
  }

  lemma KeptRowsKeepLaws(s: seq<Rating>, t: seq<Rating>)
    requires |s| == |t| && forall k :: 0 <= k < |s| ==> RowKept(s[k], t[k])
    ensures (CountersAgree(s) ==> CountersAgree(t)) && (UniqueRows(s) ==> UniqueRows(t))
  {
  }

  /** Whatever the sides, even equal ones: no row is lost or re-keyed, counters keep agreeing, a (model, kb)
      never gets a second row, and no rating moves by 32 or more. */
  lemma VoteKeepsRows(s: seq<Rating>, v: Vote, pow: real -> real)
    requires PowLaws(pow)
    ensures CountersAgree(s) ==> CountersAgree(AfterVote(s, v, pow))
    ensures UniqueRows(s) ==> UniqueRows(AfterVote(s, v, pow))
    ensures |s| <= |AfterVote(s, v, pow)|
    ensures forall k :: 0 <= k < |s| ==> RowKept(s[k], AfterVote(s, v, pow)[k])
  {
    var one := WithRow(s, v.modelA, v.kbA);
    var rows := WithRow(one, v.modelB, v.kbB);
    RowsExist(s, v);
    var i, j := Lookup(rows, v.modelA, v.kbA), Lookup(rows, v.modelB, v.kbB);
    var t := Applied(rows, i, j, v.winner, pow);
    WithRowKeeps(s, v.modelA, v.kbA);
    WithRowKeeps(one, v.modelB, v.kbB);
    AppliedKeepsRows(rows, i, j, v.winner, pow);
    KeptRowsKeepLaws(rows, t);
    forall k | 0 <= k < |s| ensures RowKept(s[k], t[k]) {
      assert rows[k] == one[..|one|][k] == one[k] && one[k] == one[..|s|][k] == s[k];
      assert RowKept(rows[k], t[k]);
    }
  }

  ghost predicate Near(before: real, after: real) {
    -32.0 < after - before < 32.0
  }

  // ---------------------------------------------------------------- what a vote records

  /** The row of a (model, kb), or the fresh one it would get. */
  function RowOf(s: seq<Rating>, model: string, kb: string): Rating {
    var i := Lookup(s, model, kb);
    if i < |s| then s[i] else Rating(model, kb, INITIAL_ELO, 0, 0, 0, 0, 0)
  }

  lemma LookupUnique(s: seq<Rating>, t: seq<Rating>, model: string, kb: string)
    requires |s| == |t| && forall k :: 0 <= k < |s| ==> t[k].model == s[k].model && t[k].kb == s[k].kb
    ensures Lookup(s, model, kb) == Lookup(t, model, kb)
  {
  }

  lemma WithRowKeepsRows(s: seq<Rating>, model: string, kb: string, m: string, k: string)
    ensures RowOf(WithRow(s, model, kb), m, k) == RowOf(s, m, k)
  {
    var t := WithRow(s, model, kb);
    assert t[..|s|] == s;
    assert forall n :: 0 <= n < |s| ==> t[n] == s[n];
  }

  lemma AppliedAt(s: seq<Rating>, i: nat, j: nat, winner: Winner, pow: real -> real)
    requires (forall x :: pow(x) > 0.0) && i < |s| && j < |s| && i != j && !winner.Unknown?
    ensures Applied(s, i, j, winner, pow)
            == s[i := Count(s[i], winner, true).(elo := NewElo(s[i].elo, s[j].elo, winner, true, pow))]
                [j := Count(s[j], winner, false).(elo := NewElo(s[j].elo, s[i].elo, winner, false, pow))]
  {
  }

  predicate SameKey(r: Rating, t: Rating) {
    r.model == t.model && r.kb == t.kb
  }

  lemma RowsReplaced(s: seq<Rating>, i: nat, j: nat, a: Rating, b: Rating, m: string, k: string)
    requires i < |s| && j < |s| && i != j && SameKey(a, s[i]) && SameKey(b, s[j])
    ensures var l := Lookup(s, m, k);
            RowOf(s[i := a][j := b], m, k) == if l == i then a else if l == j then b else RowOf(s, m, k)
  {
    LookupUnique(s, s[i := a][j := b], m, k);
  }

  /** A vote between different sides replaces the rows of its two sides and no other. */
  lemma VoteReplacesItsRows(s: seq<Rating>, v: Vote, pow: real -> real, m: string, k: string)
    requires (forall x :: pow(x) > 0.0) && !SameSides(v) && !v.winner.Unknown?
    ensures var a, b := RowOf(s, v.modelA, v.kbA), RowOf(s, v.modelB, v.kbB);
            RowOf(AfterVote(s, v, pow), m, k) ==
            if m == v.modelA && k == v.kbA then
              Count(a, v.winner, true).(elo := NewElo(a.elo, b.elo, v.winner, true, pow))
            else if m == v.modelB && k == v.kbB then
              Count(b, v.winner, false).(elo := NewElo(b.elo, a.elo, v.winner, false, pow))
            else RowOf(s, m, k)
  {
    var rows := WithRow(WithRow(s, v.modelA, v.kbA), v.modelB, v.kbB);
    var i, j := Lookup(rows, v.modelA, v.kbA), Lookup(rows, v.modelB, v.kbB);
    RowsExist(s, v);
    WithRowKeepsTwo(s, v, v.modelA, v.kbA);
    WithRowKeepsTwo(s, v, v.modelB, v.kbB);
    WithRowKeepsTwo(s, v, m, k);
    AppliedAt(rows, i, j, v.winner, pow);
    var a := Count(rows[i], v.winner, true).(elo := NewElo(rows[i].elo, rows[j].elo, v.winner, true, pow));
    var b := Count(rows[j], v.winner, false).(elo := NewElo(rows[j].elo, rows[i].elo, v.winner, false, pow));
    RowsReplaced(rows, i, j, a, b, m, k);
  }

  lemma WithRowKeepsTwo(s: seq<Rating>, v: Vote, m: string, k: string)
    ensures RowOf(WithRow(WithRow(s, v.modelA, v.kbA), v.modelB, v.kbB), m, k) == RowOf(s, m, k)
  {
    WithRowKeepsRows(s, v.modelA, v.kbA, m, k);
    WithRowKeepsRows(WithRow(s, v.modelA, v.kbA), v.modelB, v.kbB, m, k);
  }

  /** The verdict as counted on both sides: one win per loss, except that both lose on `both_bad`. */
  lemma VerdictIsCounted(s: seq<Rating>, v: Vote, pow: real -> real)
    requires (forall x :: pow(x) > 0.0) && !SameSides(v) && !v.winner.Unknown?
    ensures var t := AfterVote(s, v, pow);
            var a, a' := RowOf(s, v.modelA, v.kbA), RowOf(t, v.modelA, v.kbA);
            var b, b' := RowOf(s, v.modelB, v.kbB), RowOf(t, v.modelB, v.kbB);
            && a'.matches == a.matches + 1 && b'.matches == b.matches + 1
            && a'.wins - a.wins == (if v.winner.SideA? then 1 else 0)
            && b'.wins - b.wins == (if v.winner.SideB? then 1 else 0)
            && a'.losses - a.losses == b'.wins - b.wins + (a'.bothBad - a.bothBad)
            && b'.losses - b.losses == a'.wins - a.wins + (b'.bothBad - b.bothBad)
            && a'.ties - a.ties == b'.ties - b.ties == (if v.winner.Tie? then 1 else 0)
            && a'.bothBad - a.bothBad == b'.bothBad - b.bothBad == (if v.winner.BothBad? then 1 else 0)
  {
    VoteReplacesItsRows(s, v, pow, v.modelA, v.kbA);
    VoteReplacesItsRows(s, v, pow, v.modelB, v.kbB);
  }
}
