/** Whether a returned chunk carries its best merged score over all queries, or only over the queries whose own cut
    it survived: `_rerank`, src/meno_rag/stand/pipeline.py. */
module BestScores {
  import opened Fusion
  import opened RankSort
  import opened RankTop
  import opened Reals
  import opened Rerank
  import opened Search
  import opened TwoCuts

  ghost predicate BestOverall(batches: seq<seq<Scored>>, score: int -> real, cfg: Settings) {
    forall x, y :: x in Reranked(batches, score, cfg) && y in AllPositive(batches, score, cfg) && x.id == y.id ==>
      y.score <= x.score
  }

  function Abs(n: int): nat {
    if n < 0 then -n else n
  }

  // ---------------------------------------------------------------- settings under which it does

  /** Where the two cuts are one, every returned score is the best over all queries. */
  lemma BestWhenExact(batches: seq<seq<Scored>>, score: int -> real, cfg: Settings)
    requires CutIsExact(batches, score, cfg)
    ensures BestOverall(batches, score, cfg)
  {
    var all := AllPositive(batches, score, cfg);
    RankItems(Best(all));
    forall x, y | x in Reranked(batches, score, cfg) && y in all && x.id == y.id ensures y.score <= x.score {
      assert x in Rank(Best(all));
      BestBounds(all, y);
    }
  }

  lemma OnlyRerankCounts(batch: seq<Scored>, score: int -> real, cfg: Settings)
    requires cfg.weight == 1.0
    ensures forall x :: x in PositiveMerged(batch, score, cfg) ==> x.score == score(x.id)
  {
    var merged := Merged(Cap(batch, cfg.candidatesPerQuery), score, cfg.weight);
    PositiveItems(merged);
    forall x | x in merged ensures x.score == score(x.id) {
      var i :| 0 <= i < |merged| && merged[i] == x;
    }
  }

  /** A weight of 1 leaves the rerank score alone, which does not depend on the query. */
  lemma BestWhenRerankOnly(batches: seq<seq<Scored>>, score: int -> real, cfg: Settings)
    requires cfg.weight == 1.0
    ensures BestOverall(batches, score, cfg)
  {
    var all := AllPositive(batches, score, cfg);
    AllPositiveItems(batches, score, cfg);
    forall x | x in all ensures x.score == score(x.id) {
      var b :| b in batches && x in PositiveMerged(b, score, cfg);
      OnlyRerankCounts(b, score, cfg);
    }
    RerankedAreWinners(batches, score, cfg);
    forall x | x in Reranked(batches, score, cfg) ensures x in all {
      WinnerWasPositive(batches, score, cfg, x);
    }
  }

  lemma NoWinners(batch: seq<Scored>, score: int -> real, cfg: Settings)
    requires cfg.topK == 0 || (cfg.topK < 0 && 0 < cfg.candidatesPerQuery <= -cfg.topK)
    ensures Winners(batch, score, cfg) == []
  {
    var cands := Cap(batch, cfg.candidatesPerQuery);
    PositiveLength(Merged(cands, score, cfg.weight));
    SortLength(PositiveMerged(batch, score, cfg));
  }

  lemma BestWhenNothingWins(batches: seq<seq<Scored>>, score: int -> real, cfg: Settings)
    requires cfg.topK == 0 || (cfg.topK < 0 && 0 < cfg.candidatesPerQuery <= -cfg.topK)
    ensures BestOverall(batches, score, cfg)
  {
    AllWinnersItems(batches, score, cfg);
    forall b | b in batches ensures Winners(b, score, cfg) == [] {
      NoWinners(b, score, cfg);
    }
    RerankedAreWinners(batches, score, cfg);
  }

  // ---------------------------------------------------------------- and lists on which it does not

  /** The settings for which such lists exist. */
  predicate CutsBite(cfg: Settings) {
    cfg.weight != 1.0 && cfg.topK != 0 && (cfg.candidatesPerQuery <= 0 || cfg.candidatesPerQuery > Abs(cfg.topK))
  }

  /** How many chunks of a list win before the last one is lost. */
  function Ahead(cfg: Settings): nat {
    if cfg.topK > 0 then cfg.topK else 0
  }

  /** The number of chunks in a query that the lost chunk wins: its share there is smaller than where it is lost, or,
      where the weight turns retrieval scores around, larger. */
  function Width(cfg: Settings): nat
    ensures Width(cfg) > 0
  {
    if cfg.topK < 0 then -cfg.topK + 1 else if cfg.weight < 1.0 then cfg.topK + 2 else 1
  }

  /** One over the share of the lost chunk where it is lost. */
  function Parts(cfg: Settings): nat
    ensures Parts(cfg) > 0
  {
    if cfg.topK < 0 && cfg.weight > 1.0 then -cfg.topK + 2 else Ahead(cfg) + 1
  }

  function Share(n: nat): real
    requires n > 0
  {
    1.0 / n as real
  }

  lemma SharesFall(n: nat, m: nat)
    requires 0 < n < m
    ensures 0.0 < Share(m) < Share(n) <= 1.0
  {
    var p, q := Share(n), Share(m);
    assert n as real * p == 1.0 && m as real * q == 1.0;
    var pq := p * q;
    PositiveProduct(p, q, pq);
    assert (m - n) as real * pq == (m as real * q) * p - (n as real * p) * q;
    PositiveProduct((m - n) as real, pq, p - q);
  }

  /** The score of the lost chunk in the query that loses it. */
  function LostScore(cfg: Settings): real {
    MergeScore(Share(Parts(cfg)), Share(Width(cfg)), cfg.weight)
  }

  lemma MergedMoves(r: real, s: real, w: real, gain: real)
    requires s > 0.0 && gain == (1.0 - w) * (r - s)
    ensures MergeScore(r, s, w) == s + gain
  {
    assert (1.0 - w) * (r - s) == (1.0 - w) * r - (1.0 - w) * s;
  }

  lemma MergedGain(r: real, s: real, w: real)
    requires s > 0.0 && (if w < 1.0 then r > s else w > 1.0 && r < s)
    ensures MergeScore(r, s, w) > s
  {
    var gain := (1.0 - w) * (r - s);
    MergedMoves(r, s, w, gain);
    if w < 1.0 {
      PositiveProduct(1.0 - w, r - s, gain);
    } else {
      assert gain == (w - 1.0) * (s - r);
      PositiveProduct(w - 1.0, s - r, gain);
    }
  }

  /** It is better than the score the chunk is returned with. */
  lemma LostScoreIsBetter(cfg: Settings)
    requires CutsBite(cfg)
    ensures LostScore(cfg) > Share(Width(cfg)) > 0.0
  {
    var r, s := Share(Parts(cfg)), Share(Width(cfg));
    if cfg.weight < 1.0 {
      SharesFall(Parts(cfg), Width(cfg));
    } else {
      SharesFall(Width(cfg), Parts(cfg));
    }
    MergedGain(r, s, cfg.weight);
  }

  /** What the companion of the lost chunk must be rated for its merged score to vanish. */
  function Companion(cfg: Settings): real {
    if cfg.weight > 1.0 then (cfg.weight - 1.0) / cfg.weight * (1.0 - Share(Parts(cfg))) else 1.0
  }

  function Rating(cfg: Settings): int -> real {
    id => if id < 0 then Companion(cfg) else Share(Width(cfg))
  }

  /** A query that loses chunk `Ahead(cfg)` to its own cut: the last of equally scored chunks, or, where the cut drops
      the last ones anyway, its only positive one. */
  function Losing(cfg: Settings): seq<Scored> {
    if cfg.topK < 0 && cfg.weight > 1.0 then [Scored(-1, 1.0 - Share(Parts(cfg))), Scored(0, Share(Parts(cfg)))]
    else Level(0, Parts(cfg), Share(Parts(cfg)))
  }

  /** A query whose first chunk wins. */
  function Winning(cfg: Settings, j: nat): seq<Scored> {
    Level(Ahead(cfg) + Start(Width(cfg), j), Width(cfg), Share(Width(cfg)))
  }

  /** One query that loses the chunk and `n` queries of new chunks, the lost one the first among them. */
  function Queries(cfg: Settings, n: nat): seq<seq<Scored>> {
    [Losing(cfg)] + seq(n, j requires 0 <= j < n => Winning(cfg, j))
  }

  lemma FractionOf(a: real, b: real)
    requires 0.0 < a < 1.0 && 0.0 < b < 1.0
    ensures 0.0 < a * b < 1.0
  {
    PositiveProduct(a, b, a * b);
    assert (1.0 - a) * b == b - a * b;
    PositiveProduct(1.0 - a, b, b - a * b);
  }

  lemma CompanionVanishes(w: real, r: real, c: real)
    requires w > 1.0 && 0.0 < r < 1.0 && c == (w - 1.0) / w * (1.0 - r)
    ensures 0.0 < c <= 1.0 && MergeScore(1.0 - r, c, w) == 0.0
  {
    var q := (w - 1.0) / w;
    assert q * w == w - 1.0;
    assert 0.0 < q < 1.0;
    FractionOf(q, 1.0 - r);
    assert w * c == (q * w) * (1.0 - r);
  }

  // ---------------------------------------------------------------- they are fused lists

  lemma PairIsFused(r: real)
    requires 0.0 < r < 0.5
    ensures IsFused([Scored(-1, 1.0 - r), Scored(0, r)])
  {
    var l := [Scored(-1, 1.0 - r), Scored(0, r)];
    assert l[..1] == [Scored(-1, 1.0 - r)] && l[..1][..0] == [];
    assert Total(l) == Total(l[..1]) + r && Total(l[..1]) == 0.0 + (1.0 - r);
    SharesAreFused(l);
  }

  lemma LosingIsFused(cfg: Settings)
    requires CutsBite(cfg)
    ensures IsFused(Losing(cfg))
  {
    if cfg.topK < 0 && cfg.weight > 1.0 {
      SharesFall(2, Parts(cfg));
      PairIsFused(Share(Parts(cfg)));
    } else {
      LevelIsFused(0, Parts(cfg));
    }
  }

  lemma WinningIsFused(cfg: Settings, j: nat)
    ensures IsFused(Winning(cfg, j))
  {
    LevelIsFused(Ahead(cfg) + Start(Width(cfg), j), Width(cfg));
  }

  lemma FusedOneByOne(queries: seq<seq<Scored>>)
    requires forall i :: 0 <= i < |queries| ==> IsFused(queries[i])
    ensures AllFused(queries)
  {
  }

  lemma QueriesAreFused(cfg: Settings, n: nat)
    requires CutsBite(cfg)
    ensures AllFused(Queries(cfg, n))
  {
    LosingIsFused(cfg);
    forall j: nat ensures IsFused(Winning(cfg, j)) {
      WinningIsFused(cfg, j);
    }
    FusedOneByOne(Queries(cfg, n));
  }

  lemma CompanionIsGraded(cfg: Settings)
    requires CutsBite(cfg)
    ensures 0.0 < Companion(cfg) <= 1.0
  {
    if cfg.weight > 1.0 {
      SharesFall(1, Parts(cfg));
      CompanionVanishes(cfg.weight, Share(Parts(cfg)), Companion(cfg));
    }
  }

  lemma RatingIsGraded(cfg: Settings)
    requires CutsBite(cfg)
    ensures Graded(Rating(cfg))
  {
    EqualShare(Width(cfg));
    CompanionIsGraded(cfg);
    var share, companion := Share(Width(cfg)), Companion(cfg);
    assert 0.0 < share <= 1.0 && 0.0 < companion <= 1.0;
    assert forall id :: Rating(cfg)(id) == if id < 0 then companion else share;
  }

  // ---------------------------------------------------------------- what the stage makes of them

  lemma PairMerges(r: real, score: int -> real, cfg: Settings)
    requires MergeScore(1.0 - r, score(-1), cfg.weight) == 0.0 < MergeScore(r, score(0), cfg.weight)
    requires cfg.candidatesPerQuery <= 0 || 2 <= cfg.candidatesPerQuery
    ensures PositiveMerged([Scored(-1, 1.0 - r), Scored(0, r)], score, cfg)
            == Level(0, 1, MergeScore(r, score(0), cfg.weight))
  {
    var pair, better := [Scored(-1, 1.0 - r), Scored(0, r)], MergeScore(r, score(0), cfg.weight);
    var merged := [Scored(-1, 0.0), Scored(0, better)];
    assert Merged(pair, score, cfg.weight) == merged;
    assert merged[..1] == [Scored(-1, 0.0)] && merged[..1][..0] == [];
    assert Positive(merged[..1]) == [];
    assert Positive(merged) == [Scored(0, better)];
  }

  lemma LosingMerges(cfg: Settings)
    requires CutsBite(cfg)
    ensures PositiveMerged(Losing(cfg), Rating(cfg), cfg) == Level(0, Ahead(cfg) + 1, LostScore(cfg))
  {
    LostScoreIsBetter(cfg);
    if cfg.topK < 0 && cfg.weight > 1.0 {
      SharesFall(1, Parts(cfg));
      CompanionVanishes(cfg.weight, Share(Parts(cfg)), Companion(cfg));
      PairMerges(Share(Parts(cfg)), Rating(cfg), cfg);
    } else {
      LevelMerges(0, Parts(cfg), Share(Parts(cfg)), Share(Width(cfg)), Rating(cfg), cfg);
    }
  }

  lemma LosingLoses(cfg: Settings)
    requires CutsBite(cfg)
    ensures Winners(Losing(cfg), Rating(cfg), cfg) == Level(0, Ahead(cfg), LostScore(cfg))
    ensures Scored(Ahead(cfg), LostScore(cfg)) in PositiveMerged(Losing(cfg), Rating(cfg), cfg)
  {
    LosingMerges(cfg);
    LevelIsRanked(0, Ahead(cfg) + 1, LostScore(cfg));
    CutLevel(0, Ahead(cfg) + 1, LostScore(cfg), cfg.topK);
    LevelItems(0, Ahead(cfg) + 1, LostScore(cfg));
  }

  /** How many chunks of a winning query win. */
  function Winnings(cfg: Settings): nat {
    Left(Passing(Width(cfg), cfg), cfg.topK)
  }

  function Won(cfg: Settings, j: nat): seq<Scored> {
    Row(Ahead(cfg), Width(cfg), Winnings(cfg), Share(Width(cfg)), j)
  }

  /** `won` chunks, the first of the `j`-th `width` ids. */
  function Row(start: nat, width: nat, won: nat, s: real, j: nat): seq<Scored> {
    Level(start + Start(width, j), won, s)
  }

  lemma SomeWin(cfg: Settings)
    requires CutsBite(cfg)
    ensures 1 <= Winnings(cfg) <= Width(cfg)
  {
  }

  lemma WinningWins(cfg: Settings, j: nat)
    requires CutsBite(cfg)
    ensures Winners(Winning(cfg, j), Rating(cfg), cfg) == Won(cfg, j)
  {
    EqualShare(Width(cfg));
    LevelWins(Ahead(cfg) + Start(Width(cfg), j), Width(cfg), Share(Width(cfg)), Rating(cfg), cfg);
  }

  function Stack(start: nat, width: nat, won: nat, s: real, n: nat): seq<Scored> {
    if n == 0 then [] else Stack(start, width, won, s, n - 1) + Row(start, width, won, s, n - 1)
  }

  /** The winners of the winning queries, one query after another. */
  function Stacks(cfg: Settings, n: nat): seq<Scored> {
    Stack(Ahead(cfg), Width(cfg), Winnings(cfg), Share(Width(cfg)), n)
  }

  function Union(cfg: Settings, n: nat): seq<Scored> {
    Level(0, Ahead(cfg), LostScore(cfg)) + Stacks(cfg, n)
  }

  ghost predicate InRows(start: nat, width: nat, won: nat, s: real, n: nat, x: Scored) {
    exists j: nat :: j < n && x in Row(start, width, won, s, j)
  }

  lemma InMoreRows(start: nat, width: nat, won: nat, s: real, n: nat, x: Scored)
    ensures InRows(start, width, won, s, n + 1, x)
            <==> InRows(start, width, won, s, n, x) || x in Row(start, width, won, s, n)
  {
  }

  lemma {:induction false} StackItems(start: nat, width: nat, won: nat, s: real, n: nat, x: Scored)
    ensures x in Stack(start, width, won, s, n) <==> InRows(start, width, won, s, n, x)
  {
    if n == 0 {
    } else {
      StackItems(start, width, won, s, n - 1, x);
      InMoreRows(start, width, won, s, n - 1, x);
    }
  }

  /** Query `i` of `queries` has the winners `first`, or row `i - 1`. */
  ghost predicate RowsWin(queries: seq<seq<Scored>>, first: seq<Scored>, start: nat, width: nat, won: nat, s: real,
                          score: int -> real, cfg: Settings) {
    forall i :: 0 <= i < |queries| ==>
      Winners(queries[i], score, cfg) == if i == 0 then first else Row(start, width, won, s, i - 1)
  }

  lemma RowsAreWinners(queries: seq<seq<Scored>>, first: seq<Scored>, start: nat, width: nat, won: nat, s: real,
                       score: int -> real, cfg: Settings, x: Scored)
    requires queries != [] && RowsWin(queries, first, start, width, won, s, score, cfg)
    ensures x in AllWinners(queries, score, cfg) <==> x in first || InRows(start, width, won, s, |queries| - 1, x)
  {
    AllWinnersItems(queries, score, cfg);
    if x in AllWinners(queries, score, cfg) {
      var b :| b in queries && x in Winners(b, score, cfg);
      var i :| 0 <= i < |queries| && queries[i] == b;
    }
    if x in first {
      assert queries[0] in queries;
    }
    if j: nat :| j < |queries| - 1 && x in Row(start, width, won, s, j) {
      assert queries[j + 1] in queries && x in Winners(queries[j + 1], score, cfg);
    }
  }

  lemma QueriesWin(cfg: Settings, n: nat)
    requires CutsBite(cfg)
    ensures RowsWin(Queries(cfg, n), Level(0, Ahead(cfg), LostScore(cfg)), Ahead(cfg), Width(cfg), Winnings(cfg),
                    Share(Width(cfg)), Rating(cfg), cfg)
  {
    LosingLoses(cfg);
    forall j: nat ensures Winners(Winning(cfg, j), Rating(cfg), cfg) == Won(cfg, j) {
      WinningWins(cfg, j);
    }
  }

  lemma UnionItems(cfg: Settings, n: nat, x: Scored)
    requires CutsBite(cfg)
    ensures x in Union(cfg, n) <==> x in AllWinners(Queries(cfg, n), Rating(cfg), cfg)
  {
    var first := Level(0, Ahead(cfg), LostScore(cfg));
    QueriesWin(cfg, n);
    RowsAreWinners(Queries(cfg, n), first, Ahead(cfg), Width(cfg), Winnings(cfg), Share(Width(cfg)), Rating(cfg), cfg,
                   x);
    StackItems(Ahead(cfg), Width(cfg), Winnings(cfg), Share(Width(cfg)), n, x);
  }

  /** Ascending ids from `lo` to below `hi`, all with the score `s`. */
  ghost predicate Ascending(q: seq<Scored>, lo: int, hi: int, s: real) {
    && (forall i :: 0 <= i < |q| ==> lo <= q[i].id < hi && q[i].score == s)
    && (forall i, j :: 0 <= i < j < |q| ==> q[i].id < q[j].id)
  }

  lemma AscendingAppend(q: seq<Scored>, lo: int, mid: int, n: nat, hi: int, s: real)
    requires Ascending(q, lo, mid, s) && lo <= mid && mid + n <= hi
    ensures Ascending(q + Level(mid, n, s), lo, hi, s)
  {
  }

  /** The first `n` winning queries. */
  ghost predicate Stacked(q: seq<Scored>, n: nat, lo: int, hi: int, s: real) {
    Ascending(q, lo, hi, s) && |q| >= n && (n > 0 ==> q[0] == Scored(lo, s))
  }

  lemma StackedAppend(q: seq<Scored>, n: nat, lo: int, mid: int, more: nat, hi: int, s: real)
    requires Stacked(q, n, lo, mid, s) && (n == 0 ==> lo == mid && q == []) && lo <= mid && mid + more <= hi && more > 0
    ensures Stacked(q + Level(mid, more, s), n + 1, lo, hi, s)
  {
    AscendingAppend(q, lo, mid, more, hi, s);
  }

  lemma {:induction false} StackAscends(start: nat, width: nat, won: nat, s: real, n: nat)
    requires 0 < won <= width
    ensures Stacked(Stack(start, width, won, s, n), n, start, start + Start(width, n), s)
  {
    if n == 0 {
    } else {
      StackAscends(start, width, won, s, n - 1);
      StartGrows(width, 0, n - 1);
      StackedAppend(Stack(start, width, won, s, n - 1), n - 1, start, start + Start(width, n - 1), won,
                    start + Start(width, n), s);
    }
  }

  lemma StacksAscend(cfg: Settings, n: nat)
    requires CutsBite(cfg)
    ensures Stacked(Stacks(cfg, n), n, Ahead(cfg), Ahead(cfg) + Start(Width(cfg), n), Share(Width(cfg)))
  {
    SomeWin(cfg);
    StackAscends(Ahead(cfg), Width(cfg), Winnings(cfg), Share(Width(cfg)), n);
  }

  lemma StackedIsCanonical(n: nat, better: real, q: seq<Scored>, hi: int, s: real)
    requires Ascending(q, n, hi, s) && better > s
    ensures Canonical(Level(0, n, better) + q)
  {
  }

  lemma UnionIsRanked(cfg: Settings, n: nat)
    requires CutsBite(cfg)
    ensures Rank(Best(AllWinners(Queries(cfg, n), Rating(cfg), cfg))) == Union(cfg, n)
  {
    forall x ensures x in Union(cfg, n) <==> x in AllWinners(Queries(cfg, n), Rating(cfg), cfg) {
      UnionItems(cfg, n, x);
    }
    BestOfSameItems(Union(cfg, n), AllWinners(Queries(cfg, n), Rating(cfg), cfg));
    StacksAscend(cfg, n);
    LostScoreIsBetter(cfg);
    StackedIsCanonical(Ahead(cfg), LostScore(cfg), Stacks(cfg, n), Ahead(cfg) + Start(Width(cfg), n),
                       Share(Width(cfg)));
    CanonicalIsRank(Union(cfg, n));
  }

  lemma ReturnedWithin(r: seq<Scored>, k: nat, n: nat, limit: int)
    requires |r| >= k + n && n == (if limit < 0 then 1 - limit else 1) && (limit < 0 || k < limit)
    ensures k < |CutTo(r, limit)| && CutTo(r, limit)[k] == r[k]
  {
  }

  /** The lost chunk is returned with the score of a query that keeps it, although another query scores it higher. */
  lemma BestIsMissed(cfg: Settings, n: nat)
    requires CutsBite(cfg) && cfg.maxContextChunks != 0 && !(0 < cfg.maxContextChunks <= cfg.topK)
    requires n == if cfg.maxContextChunks < 0 then 1 - cfg.maxContextChunks else 1
    ensures AllFused(Queries(cfg, n)) && Graded(Rating(cfg)) && LostScore(cfg) > Share(Width(cfg))
    ensures Scored(Ahead(cfg), Share(Width(cfg))) in Reranked(Queries(cfg, n), Rating(cfg), cfg)
    ensures Scored(Ahead(cfg), LostScore(cfg)) in AllPositive(Queries(cfg, n), Rating(cfg), cfg)
  {
    QueriesAreFused(cfg, n);
    RatingIsGraded(cfg);
    LostScoreIsBetter(cfg);
    UnionIsRanked(cfg, n);
    StacksAscend(cfg, n);
    assert Union(cfg, n)[Ahead(cfg)] == Scored(Ahead(cfg), Share(Width(cfg)));
    ReturnedWithin(Union(cfg, n), Ahead(cfg), n, cfg.maxContextChunks);
    LosingLoses(cfg);
    AllPositiveItems(Queries(cfg, n), Rating(cfg), cfg);
    assert Queries(cfg, n)[0] == Losing(cfg);
    assert Losing(cfg) in Queries(cfg, n);
  }

  /** For all settings: every returned chunk carries its best merged score over all queries, on all fused lists and all
      scorers, exactly when the retrieval score has no weight, nothing is asked for or nothing wins, the global limit
      is positive and no larger than the per-query one, or the candidate cap is positive and no larger than its
      absolute value. */
  lemma ReturnedScoresAreBestIff(cfg: Settings)
    ensures (forall batches, score :: AllFused(batches) && Graded(score) ==> BestOverall(batches, score, cfg)) <==>
              || cfg.weight == 1.0 || cfg.maxContextChunks == 0 || cfg.topK == 0
              || 0 < cfg.maxContextChunks <= cfg.topK || 0 < cfg.candidatesPerQuery <= Abs(cfg.topK)
  {
    if cfg.weight != 1.0 && cfg.maxContextChunks != 0 && cfg.topK != 0 && !(0 < cfg.maxContextChunks <= cfg.topK)
       && !(0 < cfg.candidatesPerQuery <= Abs(cfg.topK)) {
      var n := if cfg.maxContextChunks < 0 then 1 - cfg.maxContextChunks else 1;
      BestIsMissed(cfg, n);
      assert !BestOverall(Queries(cfg, n), Rating(cfg), cfg);
    } else {
      forall batches, score | AllFused(batches) && Graded(score) ensures BestOverall(batches, score, cfg) {
        FusedAreUnique(batches);
        BestUnderSettings(batches, score, cfg);
      }
    }
  }

  lemma BestUnderSettings(batches: seq<seq<Scored>>, score: int -> real, cfg: Settings)
    requires AllUnique(batches)
    requires || cfg.weight == 1.0 || cfg.maxContextChunks == 0 || cfg.topK == 0
             || 0 < cfg.maxContextChunks <= cfg.topK || 0 < cfg.candidatesPerQuery <= Abs(cfg.topK)
    ensures BestOverall(batches, score, cfg)
  {
    if cfg.weight == 1.0 {
      BestWhenRerankOnly(batches, score, cfg);
    } else if cfg.topK == 0 || (cfg.topK < 0 && 0 < cfg.candidatesPerQuery <= -cfg.topK) {
      BestWhenNothingWins(batches, score, cfg);
    } else if cfg.maxContextChunks != 0 {
      ExactUnderSettings(batches, score, cfg);
      BestWhenExact(batches, score, cfg);
    }
  }
}
