/** What the rerank stage returns: `_rerank`, src/meno_rag/stand/pipeline.py. */
module RerankResult {
  import opened Fusion
  import opened RankSort
  import opened Rerank

  lemma WinnerMeaning(batches: seq<seq<Scored>>, score: int -> real, cfg: Settings, x: Scored)
    requires x in AllWinners(batches, score, cfg)
    ensures x.score > 0.0 && x.id in CandidateIds(batches, cfg)
  {
    AllWinnersItems(batches, score, cfg);
    var k :| 0 <= k < |batches| && x in Winners(batches[k], score, cfg);
    WinnersArePositive(batches[k], score, cfg);
    var cands := Cap(batches[k], cfg.candidatesPerQuery);
    PositiveItems(Merged(cands, score, cfg.weight));
    var i :| 0 <= i < |cands| && Merged(cands, score, cfg.weight)[i] == x;
    assert cands[i] in cands && cands[i].id == x.id;
    CandidatesAreScored(batches, k, cfg);
  }

  lemma RerankedScoreIsBest(batches: seq<seq<Scored>>, score: int -> real, cfg: Settings, x: Scored)
    requires x in Reranked(batches, score, cfg)
    ensures forall y :: y in AllWinners(batches, score, cfg) && x.id == y.id ==> y.score <= x.score
  {
    var win := AllWinners(batches, score, cfg);
    RankItems(Best(win));
    assert x in Rank(Best(win));
    forall y | y in win && x.id == y.id ensures y.score <= x.score {
      BestBounds(win, y);
    }
  }

  /** The result is canonical, bounded and positive, and every score is the chunk's best merged score
      among the winners of all queries. */
  lemma RerankedMeaning(batches: seq<seq<Scored>>, score: int -> real, cfg: Settings)
    ensures var r := Reranked(batches, score, cfg);
            && Canonical(r) && (0 <= cfg.maxContextChunks ==> |r| <= cfg.maxContextChunks)
            && (forall x :: x in r ==> x.score > 0.0 && x.id in CandidateIds(batches, cfg))
            && (forall x :: x in r ==> x in AllWinners(batches, score, cfg))
            && (forall x, y :: x in r && y in AllWinners(batches, score, cfg) && x.id == y.id ==> y.score <= x.score)
  {
    var win := AllWinners(batches, score, cfg);
    RankIsCanonical(Best(win));
    RerankedAreWinners(batches, score, cfg);
    forall x | x in Reranked(batches, score, cfg)
      ensures x.score > 0.0 && x.id in CandidateIds(batches, cfg)
      ensures forall y :: y in win && x.id == y.id ==> y.score <= x.score
    {
      WinnerMeaning(batches, score, cfg, x);
      RerankedScoreIsBest(batches, score, cfg, x);
    }
  }

  ghost predicate SameQueries(batches: seq<seq<Scored>>, others: seq<seq<Scored>>) {
    (forall b :: b in batches ==> b in others) && (forall b :: b in others ==> b in batches)
  }

  /** Neither the order nor the repetition of the queries matters. */
  lemma RerankIgnoresQueryOrder(batches: seq<seq<Scored>>, others: seq<seq<Scored>>, score: int -> real, cfg: Settings)
    requires SameQueries(batches, others)
    ensures Reranked(batches, score, cfg) == Reranked(others, score, cfg)
    ensures CandidateIds(batches, cfg) == CandidateIds(others, cfg)
  {
    var win, win' := AllWinners(batches, score, cfg), AllWinners(others, score, cfg);
    forall x ensures x in win <==> x in win' {
      AllWinnersItems(batches, score, cfg);
      AllWinnersItems(others, score, cfg);
    }
    BestOfSameItems(win, win');
    forall id ensures id in CandidateIds(batches, cfg) <==> id in CandidateIds(others, cfg) {
      CandidateIdsItems(batches, cfg);
      CandidateIdsItems(others, cfg);
    }
  }

  lemma {:induction false} CandidateIdsItems(batches: seq<seq<Scored>>, cfg: Settings)
    ensures forall id :: id in CandidateIds(batches, cfg) <==>
              exists b :: b in batches && id in Ids(Cap(b, cfg.candidatesPerQuery))
  {
    if batches == [] {
    } else {
      var front, last := batches[..|batches| - 1], batches[|batches| - 1];
      assert batches == front + [last];
      CandidateIdsItems(front, cfg);
    }
  }
}
