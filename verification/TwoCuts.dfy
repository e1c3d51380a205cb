/** The two truncations of `_rerank`, src/meno_rag/stand/pipeline.py: a cut per query and a global one. */
module TwoCuts {
  import opened Fusion
  import opened RankSort
  import opened RankTop
  import opened Rerank
  import opened Search

  // ---------------------------------------------------------------- where they are one

  /** A batch's own chunk that is among the first of the union of all candidates is among the batch's winners. */
  lemma TopChunkWinsItsQuery(b: seq<Scored>, score: int -> real, cfg: Settings, m: map<int, real>, q: nat)
    requires UniqueIds(b) && q < |Rank(m)| && q < cfg.topK && Rank(m)[q] in PositiveMerged(b, score, cfg)
    requires forall y :: y in PositiveMerged(b, score, cfg) ==> y.id in m && y.score <= m[y.id]
    ensures Rank(m)[q] in Winners(b, score, cfg)
  {
    var s := SortByRank(PositiveMerged(b, score, cfg));
    PositiveMergedIsUnique(b, score, cfg);
    SortItems(PositiveMerged(b, score, cfg));
    var p :| 0 <= p < |s| && s[p] == Rank(m)[q];
    RankInDominatingTable(s, m, p, q);
    assert Winners(b, score, cfg)[p] == Rank(m)[q];
  }

  lemma TopChunkWins(batches: seq<seq<Scored>>, score: int -> real, cfg: Settings, x: Scored)
    requires AllUnique(batches)
    requires 0 <= cfg.maxContextChunks <= cfg.topK
    requires x in CutTo(Rank(Best(AllPositive(batches, score, cfg))), cfg.maxContextChunks)
    ensures x in AllWinners(batches, score, cfg)
  {
    var all := AllPositive(batches, score, cfg);
    var m := Best(all);
    var q :| 0 <= q < |Rank(m)| && q < cfg.maxContextChunks && Rank(m)[q] == x;
    BestIsMax(all);
    RankItems(m);
    assert x in Rank(m) && x in all;
    AllPositiveItems(batches, score, cfg);
    var b :| b in batches && x in PositiveMerged(b, score, cfg);
    forall y | y in PositiveMerged(b, score, cfg) ensures y.id in m && y.score <= m[y.id] {
      BestBounds(all, y);
    }
    TopChunkWinsItsQuery(b, score, cfg, m, q);
    AllWinnersItems(batches, score, cfg);
  }

  /** The per-query cut cannot hide a chunk of the global top: with `maxContextChunks <= topK` the stage
      returns the first chunks of the max-union of all positive merged candidates. */
  lemma TwoLevelCut(batches: seq<seq<Scored>>, score: int -> real, cfg: Settings)
    requires AllUnique(batches)
    requires 0 <= cfg.maxContextChunks <= cfg.topK
    ensures Reranked(batches, score, cfg) == CutTo(Rank(Best(AllPositive(batches, score, cfg))), cfg.maxContextChunks)
  {
    var all, win := AllPositive(batches, score, cfg), AllWinners(batches, score, cfg);
    var m, n := Best(all), Best(win);
    BestIsMax(win);
    forall x | x in win ensures x in all {
      WinnerWasPositive(batches, score, cfg, x);
    }
    forall id | id in n ensures id in m && n[id] <= m[id] {
      BestBounds(all, Scored(id, n[id]));
    }
    forall x | x in CutTo(Rank(m), cfg.maxContextChunks) ensures x.id in n && n[x.id] == x.score {
      TopChunkWins(batches, score, cfg, x);
      BestBounds(win, x);
      RankItems(m);
      assert x in Rank(m);
    }
    TopStable(m, n, cfg.maxContextChunks);
  }

  lemma NoSecondCut(batch: seq<Scored>, score: int -> real, cfg: Settings)
    requires 0 < cfg.candidatesPerQuery <= cfg.topK
    ensures forall x :: x in Winners(batch, score, cfg) <==> x in PositiveMerged(batch, score, cfg)
  {
    var p := PositiveMerged(batch, score, cfg);
    SortItems(p);
    PositiveLength(Merged(Cap(batch, cfg.candidatesPerQuery), score, cfg.weight));
    SortLength(p);
  }

  /** A candidate cap within the per-query limit leaves nothing for the per-query cut to drop. */
  lemma CapMakesCutVoid(batches: seq<seq<Scored>>, score: int -> real, cfg: Settings)
    requires 0 < cfg.candidatesPerQuery <= cfg.topK
    ensures Reranked(batches, score, cfg) == CutTo(Rank(Best(AllPositive(batches, score, cfg))), cfg.maxContextChunks)
  {
    var all, win := AllPositive(batches, score, cfg), AllWinners(batches, score, cfg);
    forall x | x in win ensures x in all {
      WinnerWasPositive(batches, score, cfg, x);
    }
    forall x | x in all ensures x in win {
      AllWinnersItems(batches, score, cfg);
      AllPositiveItems(batches, score, cfg);
      var b :| b in batches && x in PositiveMerged(b, score, cfg);
      NoSecondCut(b, score, cfg);
    }
    BestOfSameItems(all, win);
  }

  // ---------------------------------------------------------------- lists on which they are not

  /** How many of `n` candidates pass the cap. */
  function Passing(n: nat, cfg: Settings): nat {
    if cfg.candidatesPerQuery > 0 && n > cfg.candidatesPerQuery then cfg.candidatesPerQuery else n
  }

  /** Equally scored chunks stay so when their rerank scores are equal. */
  lemma LevelMerges(start: int, n: nat, r: real, s: real, score: int -> real, cfg: Settings)
    requires forall id :: start <= id ==> score(id) == s
    requires s > 0.0 && MergeScore(r, s, cfg.weight) > 0.0
    ensures PositiveMerged(Level(start, n, r), score, cfg)
            == Level(start, Passing(n, cfg), MergeScore(r, s, cfg.weight))
  {
    var cands, merged := Level(start, Passing(n, cfg), r), Level(start, Passing(n, cfg), MergeScore(r, s, cfg.weight));
    assert Cap(Level(start, n, r), cfg.candidatesPerQuery) == cands;
    assert Merged(cands, score, cfg.weight) == merged;
    AllAbove(merged);
  }

  /** Chunks whose retrieval and rerank scores are the same keep it, whatever the weight. */
  lemma LevelIsKept(start: int, n: nat, s: real, score: int -> real, cfg: Settings)
    requires s > 0.0 && forall id :: start <= id ==> score(id) == s
    ensures PositiveMerged(Level(start, n, s), score, cfg) == Level(start, Passing(n, cfg), s)
  {
    assert MergeScore(s, s, cfg.weight) == s by {
      assert (1.0 - cfg.weight) * s + cfg.weight * s == s;
    }
    LevelMerges(start, n, s, s, score, cfg);
  }

  lemma LevelIsRanked(start: int, n: nat, s: real)
    ensures Canonical(Level(start, n, s))
    ensures Rank(Best(Level(start, n, s))) == Level(start, n, s) == SortByRank(Level(start, n, s))
  {
    CanonicalIsRank(Level(start, n, s));
    SortItems(Level(start, n, s));
  }

  lemma LevelItems(start: int, n: nat, s: real)
    ensures forall x :: x in Level(start, n, s) <==> start <= x.id < start + n && x.score == s
  {
    forall x: Scored | start <= x.id < start + n && x.score == s ensures x in Level(start, n, s) {
      assert Level(start, n, s)[x.id - start] == x;
    }
  }

  /** How many of `n` items a cut leaves. */
  function Left(n: nat, limit: int): nat {
    if n <= limit then n else if limit >= 0 then limit else if n + limit >= 0 then n + limit else 0
  }

  lemma CutLevel(start: int, n: nat, s: real, limit: int)
    ensures CutTo(Level(start, n, s), limit) == Level(start, Left(n, limit), s)
  {
  }

  /** Of such chunks the first ones win. */
  lemma LevelWins(start: int, n: nat, s: real, score: int -> real, cfg: Settings)
    requires s > 0.0 && forall id :: start <= id ==> score(id) == s
    ensures Winners(Level(start, n, s), score, cfg) == Level(start, Left(Passing(n, cfg), cfg.topK), s)
  {
    LevelIsKept(start, n, s, score, cfg);
    LevelIsRanked(start, Passing(n, cfg), s);
    CutLevel(start, Passing(n, cfg), s, cfg.topK);
  }

  /** Where the chunks of the `j`-th of a row of queries start, each query with `n` new ones. */
  function Start(n: nat, j: nat): nat {
    if j == 0 then 0 else Start(n, j - 1) + n
  }

  lemma {:induction false} StartGrows(n: nat, j: nat, k: nat)
    requires j <= k
    ensures Start(n, j) <= Start(n, k) && (j < k ==> Start(n, j) + n <= Start(n, k))
    ensures n > 0 ==> Start(n, j) + (k - j) <= Start(n, k)
  {
    if j < k {
      StartGrows(n, j, k - 1);
    }
  }

  /** The query that has chunk `k`. */
  lemma {:induction false} StepOf(n: nat, steps: nat, k: nat) returns (j: nat)
    requires k < Start(n, steps)
    ensures j < steps && Start(n, j) <= k < Start(n, j) + n
  {
    if k >= Start(n, steps - 1) {
      j := steps - 1;
    } else {
      j := StepOf(n, steps - 1, k);
    }
  }

  /** Queries of `n` equally scored chunks each. */
  function Staircase(n: nat, steps: nat, s: real): seq<seq<Scored>> {
    seq(steps, j requires 0 <= j < steps => Level(Start(n, j), n, s))
  }

  lemma BatchOfStaircase(n: nat, steps: nat, s: real, b: seq<Scored>)
    requires b in Staircase(n, steps, s)
    ensures exists j: nat :: j < steps && b == Level(Start(n, j), n, s)
  {
    var j :| 0 <= j < |Staircase(n, steps, s)| && Staircase(n, steps, s)[j] == b;
  }

  lemma StaircaseIsFused(n: nat, steps: nat)
    requires n > 0
    ensures AllFused(Staircase(n, steps, 1.0 / n as real))
  {
    forall b | b in Staircase(n, steps, 1.0 / n as real) ensures IsFused(b) {
      BatchOfStaircase(n, steps, 1.0 / n as real, b);
      var j: nat :| j < steps && b == Level(Start(n, j), n, 1.0 / n as real);
      LevelIsFused(Start(n, j), n);
    }
  }

  /** Every query of the staircase passes the cap and the merge unchanged. */
  ghost predicate LevelsAreKept(n: nat, s: real, score: int -> real, cfg: Settings) {
    forall start :: PositiveMerged(Level(start, n, s), score, cfg) == Level(start, n, s)
  }

  /** Before any cut, all the chunks are there. */
  lemma StaircaseItems(n: nat, steps: nat, s: real, score: int -> real, cfg: Settings, x: Scored)
    requires LevelsAreKept(n, s, score, cfg)
    ensures x in AllPositive(Staircase(n, steps, s), score, cfg) <==> x in Level(0, Start(n, steps), s)
  {
    var batches := Staircase(n, steps, s);
    AllPositiveItems(batches, score, cfg);
    LevelItems(0, Start(n, steps), s);
    if x in Level(0, Start(n, steps), s) {
      var j := StepOf(n, steps, x.id);
      LevelItems(Start(n, j), n, s);
      assert batches[j] in batches && x in PositiveMerged(batches[j], score, cfg);
    }
    if x in AllPositive(batches, score, cfg) {
      var b: seq<Scored> :| b in batches && x in PositiveMerged(b, score, cfg);
      BatchOfStaircase(n, steps, s, b);
      var j: nat :| j < steps && b == Level(Start(n, j), n, s);
      LevelItems(Start(n, j), n, s);
      StartGrows(n, j, steps);
    }
  }

  ghost predicate LastIsLost(winners: seq<Scored>, n: nat) {
    forall x :: x in winners ==> x.id != n - 1
  }

  lemma StepLosesLast(start: nat, n: nat, s: real, score: int -> real, cfg: Settings)
    requires n == (if cfg.topK < 0 then 1 else cfg.topK + 1) && (start == 0 || n <= start)
    requires PositiveMerged(Level(start, n, s), score, cfg) == Level(start, n, s)
    ensures LastIsLost(Winners(Level(start, n, s), score, cfg), n)
  {
    LevelIsRanked(start, n, s);
    CutLevel(start, n, s, cfg.topK);
    LevelItems(start, Left(n, cfg.topK), s);
  }

  /** One chunk more than the per-query cut admits: the last is lost, and no later query brings it back. */
  lemma StaircaseLosesLast(n: nat, steps: nat, s: real, score: int -> real, cfg: Settings)
    requires n == (if cfg.topK < 0 then 1 else cfg.topK + 1) && LevelsAreKept(n, s, score, cfg)
    ensures LastIsLost(AllWinners(Staircase(n, steps, s), score, cfg), n)
  {
    var batches := Staircase(n, steps, s);
    AllWinnersItems(batches, score, cfg);
    forall x | x in AllWinners(batches, score, cfg) ensures x.id != n - 1 {
      var b: seq<Scored> :| b in batches && x in Winners(b, score, cfg);
      BatchOfStaircase(n, steps, s, b);
      var j: nat :| j < steps && b == Level(Start(n, j), n, s);
      StartGrows(n, 0, j);
      StepLosesLast(Start(n, j), n, s, score, cfg);
    }
  }

  // ---------------------------------------------------------------- the exact condition

  ghost predicate CutIsExact(batches: seq<seq<Scored>>, score: int -> real, cfg: Settings) {
    Reranked(batches, score, cfg) == CutTo(Rank(Best(AllPositive(batches, score, cfg))), cfg.maxContextChunks)
  }

  /** Scores as the reranker gives them. */
  ghost predicate Graded(score: int -> real) {
    forall id :: 0.0 < score(id) <= 1.0
  }

  lemma LastIsWithinLimit(n: nat, size: nat, s: real, limit: int)
    requires n > 0 && (if limit < 0 then size >= n - limit else n <= limit && n <= size)
    ensures Scored(n - 1, s) in CutTo(Level(0, size, s), limit)
  {
    assert CutTo(Level(0, size, s), limit)[n - 1] == Scored(n - 1, s);
  }

  lemma CutIsInexact(batches: seq<seq<Scored>>, score: int -> real, cfg: Settings, n: nat, size: nat, s: real)
    requires forall x :: x in AllPositive(batches, score, cfg) <==> x in Level(0, size, s)
    requires Scored(n - 1, s) in CutTo(Level(0, size, s), cfg.maxContextChunks)
    requires LastIsLost(AllWinners(batches, score, cfg), n)
    ensures !CutIsExact(batches, score, cfg)
  {
    BestOfSameItems(AllPositive(batches, score, cfg), Level(0, size, s));
    LevelIsRanked(0, size, s);
    RerankedAreWinners(batches, score, cfg);
  }

  /** Queries of equally scored chunks, one more each than the per-query cut admits. */
  lemma LastChunkIsLost(n: nat, steps: nat, s: real, score: int -> real, cfg: Settings)
    requires n == (if cfg.topK < 0 then 1 else cfg.topK + 1)
    requires steps == (if cfg.maxContextChunks < 0 then 1 - cfg.maxContextChunks else 1)
    requires cfg.maxContextChunks < 0 || n <= cfg.maxContextChunks
    requires cfg.candidatesPerQuery <= 0 || n <= cfg.candidatesPerQuery
    requires s > 0.0 && forall id :: score(id) == s
    ensures !CutIsExact(Staircase(n, steps, s), score, cfg)
  {
    forall start ensures PositiveMerged(Level(start, n, s), score, cfg) == Level(start, n, s) {
      LevelIsKept(start, n, s, score, cfg);
    }
    forall x ensures x in AllPositive(Staircase(n, steps, s), score, cfg) <==> x in Level(0, Start(n, steps), s) {
      StaircaseItems(n, steps, s, score, cfg, x);
    }
    StaircaseLosesLast(n, steps, s, score, cfg);
    StartGrows(n, 1, steps);
    LastIsWithinLimit(n, Start(n, steps), s, cfg.maxContextChunks);
    CutIsInexact(Staircase(n, steps, s), score, cfg, n, Start(n, steps), s);
  }

  lemma EqualShare(n: nat)
    requires n > 0
    ensures 0.0 < 1.0 / n as real <= 1.0
  {
  }

  lemma FusedAreUnique(batches: seq<seq<Scored>>)
    requires AllFused(batches)
    ensures AllUnique(batches)
  {
    forall b | b in batches ensures UniqueIds(b) {
      FusedMeaning(b);
    }
  }

  /** For all settings: the per-query cut is harmless on all fused lists and all scorers exactly when nothing is asked
      for, when the global limit is positive and the smaller one, or when the candidate cap already is within the
      per-query limit. */
  lemma TwoLevelCutIsExactIff(cfg: Settings)
    ensures (forall batches, score :: AllFused(batches) && Graded(score) ==> CutIsExact(batches, score, cfg))
            <==>
              || cfg.maxContextChunks == 0 || 0 < cfg.maxContextChunks <= cfg.topK
              || 0 < cfg.candidatesPerQuery <= cfg.topK
  {
    if cfg.maxContextChunks == 0 || 0 < cfg.maxContextChunks <= cfg.topK || 0 < cfg.candidatesPerQuery <= cfg.topK {
      forall batches, score | AllFused(batches) && Graded(score) ensures CutIsExact(batches, score, cfg) {
        FusedAreUnique(batches);
        ExactUnderSettings(batches, score, cfg);
      }
    } else {
      var batches, score := CutFails(cfg);
      assert AllFused(batches) && Graded(score) && !CutIsExact(batches, score, cfg);
    }
  }

  /** Fused lists and a scorer for every other setting. */
  lemma CutFails(cfg: Settings) returns (batches: seq<seq<Scored>>, score: int -> real)
    requires cfg.maxContextChunks != 0 && !(0 < cfg.maxContextChunks <= cfg.topK)
    requires !(0 < cfg.candidatesPerQuery <= cfg.topK)
    ensures AllFused(batches) && Graded(score) && !CutIsExact(batches, score, cfg)
  {
    var n := if cfg.topK < 0 then 1 else cfg.topK + 1;
    var steps := if cfg.maxContextChunks < 0 then 1 - cfg.maxContextChunks else 1;
    var s := 1.0 / n as real;
    score := _ => s;
    batches := Staircase(n, steps, s);
    EqualShare(n);
    StaircaseIsFused(n, steps);
    LastChunkIsLost(n, steps, s, score, cfg);
  }

  lemma ExactUnderSettings(batches: seq<seq<Scored>>, score: int -> real, cfg: Settings)
    requires AllUnique(batches)
    requires || cfg.maxContextChunks == 0 || 0 < cfg.maxContextChunks <= cfg.topK
             || 0 < cfg.candidatesPerQuery <= cfg.topK
    ensures CutIsExact(batches, score, cfg)
  {
    if 0 < cfg.maxContextChunks <= cfg.topK {
      TwoLevelCut(batches, score, cfg);
    } else if 0 < cfg.candidatesPerQuery <= cfg.topK {
      CapMakesCutVoid(batches, score, cfg);
    }
  }
}
