/** The rerank stage of src/meno_rag/stand/pipeline.py: query dedupe, candidate caps, one score per
    unique chunk, a cut per query, a max-union across queries and a final cut.

    The LLM scorer is an arbitrary function of the chunk id: a score judges a chunk against the user
    question, never against a rewrite query. */
module Rerank {
  import opened Lists
  import opened Fusion
  import opened RankSort
  import opened RankTop

  datatype Settings = Settings(candidatesPerQuery: int, topK: int, maxContextChunks: int, weight: real)

  datatype Output = Output(chunks: seq<Scored>, scoredCandidates: nat, candidateScores: map<int, real>)

  // ---------------------------------------------------------------- the steps of one query

  function Cap<T>(s: seq<T>, cap: int): seq<T> {
    if cap > 0 && |s| > cap then s[..cap] else s
  }

  function MergeScore(retrieval: real, rerank: real, alpha: real): real {
    if rerank > 0.0 then (1.0 - alpha) * retrieval + alpha * rerank else rerank
  }

  lemma Scaled(gap: real, alpha: real, step: real)
    requires 0.0 <= alpha <= 1.0 && gap >= 0.0 && step == alpha * gap
    ensures 0.0 <= step <= gap
  {
  }

  lemma MergedIsMoved(retrieval: real, rerank: real, alpha: real, up: real, down: real)
    requires up == alpha * (rerank - retrieval) && down == alpha * (retrieval - rerank)
    ensures (1.0 - alpha) * retrieval + alpha * rerank == retrieval + up == retrieval - down
  {
  }

  lemma MergeRises(retrieval: real, rerank: real, alpha: real)
    requires 0.0 <= alpha <= 1.0 && rerank > 0.0 && retrieval <= rerank
    ensures retrieval <= MergeScore(retrieval, rerank, alpha) <= rerank
  {
    var up, down := alpha * (rerank - retrieval), alpha * (retrieval - rerank);
    MergedIsMoved(retrieval, rerank, alpha, up, down);
    Scaled(rerank - retrieval, alpha, up);
  }

  lemma MergeFalls(retrieval: real, rerank: real, alpha: real)
    requires 0.0 <= alpha <= 1.0 && rerank > 0.0 && rerank <= retrieval
    ensures rerank <= MergeScore(retrieval, rerank, alpha) <= retrieval
  {
    var up, down := alpha * (rerank - retrieval), alpha * (retrieval - rerank);
    MergedIsMoved(retrieval, rerank, alpha, up, down);
    Scaled(retrieval - rerank, alpha, down);
  }

  /** For a weight in [0, 1] and a positive rerank score, merging lies between the two scores. */
  lemma MergeScoreIsBetween(retrieval: real, rerank: real, alpha: real)
    requires 0.0 <= alpha <= 1.0 && rerank > 0.0
    ensures retrieval <= rerank ==> retrieval <= MergeScore(retrieval, rerank, alpha) <= rerank
    ensures rerank <= retrieval ==> rerank <= MergeScore(retrieval, rerank, alpha) <= retrieval
  {
    if retrieval <= rerank {
      MergeRises(retrieval, rerank, alpha);
    }
    if rerank <= retrieval {
      MergeFalls(retrieval, rerank, alpha);
    }
  }

  function Merged(cands: seq<Scored>, score: int -> real, weight: real): seq<Scored> {
    seq(|cands|, i requires 0 <= i < |cands| =>
      Scored(cands[i].id, MergeScore(cands[i].score, score(cands[i].id), weight)))
  }

  function PositiveMerged(batch: seq<Scored>, score: int -> real, cfg: Settings): seq<Scored> {
    Positive(Merged(Cap(batch, cfg.candidatesPerQuery), score, cfg.weight))
  }

  function Winners(batch: seq<Scored>, score: int -> real, cfg: Settings): seq<Scored> {
    CutTo(SortByRank(PositiveMerged(batch, score, cfg)), cfg.topK)
  }

  // ---------------------------------------------------------------- specification of the stage

  /** All queries' winners, one after another. */
  function AllWinners(batches: seq<seq<Scored>>, score: int -> real, cfg: Settings): seq<Scored> {
    if batches == [] then []
    else AllWinners(batches[..|batches| - 1], score, cfg) + Winners(batches[|batches| - 1], score, cfg)
  }

  /** All queries' positive merged candidates, before any cut. */
  function AllPositive(batches: seq<seq<Scored>>, score: int -> real, cfg: Settings): seq<Scored> {
    if batches == [] then []
    else AllPositive(batches[..|batches| - 1], score, cfg) + PositiveMerged(batches[|batches| - 1], score, cfg)
  }

  function Reranked(batches: seq<seq<Scored>>, score: int -> real, cfg: Settings): seq<Scored> {
    CutTo(Rank(Best(AllWinners(batches, score, cfg))), cfg.maxContextChunks)
  }

  function CandidateIds(batches: seq<seq<Scored>>, cfg: Settings): set<int> {
    if batches == [] then {}
    else CandidateIds(batches[..|batches| - 1], cfg) + Ids(Cap(batches[|batches| - 1], cfg.candidatesPerQuery))
  }

  ghost predicate AllUnique(batches: seq<seq<Scored>>) {
    forall b :: b in batches ==> UniqueIds(b)
  }

  function ScoreTable(ids: set<int>, score: int -> real): map<int, real> {
    map id | id in ids :: score(id)
  }

  // ---------------------------------------------------------------- the loops

  /** The capped candidates of all queries, one after another. */
  function CandidateList(batches: seq<seq<Scored>>, cfg: Settings): seq<Scored> {
    if batches == [] then []
    else CandidateList(batches[..|batches| - 1], cfg) + Cap(batches[|batches| - 1], cfg.candidatesPerQuery)
  }

  /** The ids of a list, each where it first appears. */
  function FirstAppearances(s: seq<Scored>): seq<int> {
    if s == [] then []
    else
      var front, id := FirstAppearances(s[..|s| - 1]), s[|s| - 1].id;
      if id in front then front else front + [id]
  }

  lemma {:induction false} FirstAppearancesMeaning(s: seq<Scored>)
    ensures var q := FirstAppearances(s);
            && (forall i, j :: 0 <= i < j < |q| ==> q[i] != q[j])
            && (set id | id in q) == Ids(s)
  {
    if s == [] {
    } else {
      var front, x := s[..|s| - 1], s[|s| - 1];
      FirstAppearancesMeaning(front);
      assert s == front + [x];
      assert Ids(s) == Ids(front) + {x.id};
      var q := FirstAppearances(front);
      assert (set id | id in q + [x.id]) == (set id | id in q) + {x.id};
    }
  }

  lemma {:induction false} CandidateListIds(batches: seq<seq<Scored>>, cfg: Settings)
    ensures Ids(CandidateList(batches, cfg)) == CandidateIds(batches, cfg)
  {
    if batches == [] {
    } else {
      var front, last := CandidateList(batches[..|batches| - 1], cfg),
        Cap(batches[|batches| - 1], cfg.candidatesPerQuery);
      CandidateListIds(batches[..|batches| - 1], cfg);
      assert Ids(front + last) == Ids(front) + Ids(last);
    }
  }

  function IdList(s: seq<Scored>): seq<int> {
    seq(|s|, i requires 0 <= i < |s| => s[i].id)
  }

  function Nothing(): int -> bool {
    (id: int) => false
  }

  lemma {:induction false} AppearancesAreFirst(s: seq<Scored>, ids: seq<int>)
    requires |ids| == |s| && forall i :: 0 <= i < |s| ==> ids[i] == s[i].id
    ensures FirstAppearances(s) == FirstOfEach(ids, Nothing())
  {
    if s == [] {
    } else {
      AppearancesAreFirst(s[..|s| - 1], ids[..|s| - 1]);
    }
  }

  /** The ids to score, in the order in which the candidates first show them. */
  lemma ScoredInOrder(s: seq<Scored>) returns (at: seq<nat>)
    ensures FirstPlaces(IdList(s), at, Nothing())
    ensures |FirstAppearances(s)| == |at|
    ensures forall i :: 0 <= i < |at| ==> at[i] < |s| && FirstAppearances(s)[i] == s[at[i]].id
  {
    AppearancesAreFirst(s, IdList(s));
    at := FirstOfEachMeaning(IdList(s), Nothing());
  }

  /** Each unique candidate id once, in order of first appearance. */
  method CollectUniqueIds(batches: seq<seq<Scored>>, cfg: Settings) returns (uniqueIds: seq<int>)
    ensures uniqueIds == FirstAppearances(CandidateList(batches, cfg))
    ensures forall i, j :: 0 <= i < j < |uniqueIds| ==> uniqueIds[i] != uniqueIds[j]
    ensures (set id | id in uniqueIds) == CandidateIds(batches, cfg)
  {
    uniqueIds := [];
    var seen: set<int> := {};
    for i := 0 to |batches|
      invariant uniqueIds == FirstAppearances(CandidateList(batches[..i], cfg))
      invariant seen == set id | id in uniqueIds
    {
      var cands := Cap(batches[i], cfg.candidatesPerQuery);
      ghost var before := CandidateList(batches[..i], cfg);
      assert before + cands[..0] == before;
      for j := 0 to |cands|
        invariant uniqueIds == FirstAppearances(before + cands[..j])
        invariant seen == set id | id in uniqueIds
      {
        var id := cands[j].id;
        assert (before + cands[..j + 1])[..|before| + j] == before + cands[..j];
        if id !in seen {
          seen := seen + {id};
          uniqueIds := uniqueIds + [id];
        }
      }
      assert cands[..|cands|] == cands;
      assert batches[..i + 1][..i] == batches[..i];
    }
    assert batches[..|batches|] == batches;
    FirstAppearancesMeaning(CandidateList(batches, cfg));
    CandidateListIds(batches, cfg);
  }

  /** `_rerank`: one scoring per unique id, reused by every query. */
  method RerankBatches(batches: seq<seq<Scored>>, score: int -> real, cfg: Settings) returns (out: Output)
    ensures out.chunks == Reranked(batches, score, cfg)
    ensures out.candidateScores.Keys == CandidateIds(batches, cfg)
    ensures forall id :: id in out.candidateScores ==> out.candidateScores[id] == score(id)
    ensures out.scoredCandidates == |CandidateIds(batches, cfg)|
  {
    var uniqueIds := CollectUniqueIds(batches, cfg);
    DistinctLength(uniqueIds);
    if uniqueIds == [] {
      NothingToScore(batches, score, cfg);
      return Output([], 0, map[]);
    }
    var scoreById := ScoreTable((set id | id in uniqueIds), score);
    CacheIsEnough(batches, Cached(scoreById), score, cfg);
    var global := UniteWinners(batches, scoreById, cfg);
    if |global| > cfg.maxContextChunks {
      global := Slice(global, cfg.maxContextChunks);
    }
    out := Output(global, |uniqueIds|, scoreById);
  }

  /** The scorer that looks its answers up. */
  function Cached(scoreById: map<int, real>): int -> real {
    id => if id in scoreById then scoreById[id] else 0.0
  }

  /** Winners depend on the scores of the capped candidates only, whoever computes them. */
  lemma {:induction false} CacheIsEnough(batches: seq<seq<Scored>>, cached: int -> real, score: int -> real,
                                         cfg: Settings)
    requires forall id :: id in CandidateIds(batches, cfg) ==> cached(id) == score(id)
    ensures AllWinners(batches, cached, cfg) == AllWinners(batches, score, cfg)
  {
    if batches == [] {
    } else {
      var cands := Cap(batches[|batches| - 1], cfg.candidatesPerQuery);
      CacheIsEnough(batches[..|batches| - 1], cached, score, cfg);
      assert forall x :: x in cands ==> x.id in Ids(cands);
      assert Merged(cands, cached, cfg.weight) == Merged(cands, score, cfg.weight);
    }
  }

  /** The loop over the queries, reading cached scores only. */
  method UniteWinners(batches: seq<seq<Scored>>, scoreById: map<int, real>, cfg: Settings)
    returns (global: seq<Scored>)
    requires CandidateIds(batches, cfg) <= scoreById.Keys
    ensures global == Rank(Best(AllWinners(batches, Cached(scoreById), cfg)))
  {
    global := [];
    for i := 0 to |batches|
      invariant global == Rank(Best(AllWinners(batches[..i], Cached(scoreById), cfg)))
    {
      var cands := Cap(batches[i], cfg.candidatesPerQuery);
      FoldStep(batches, i, Cached(scoreById), cfg);
      if cands == [] {
        continue;
      }
      CandidatesAreScored(batches, i, cfg);
      MergedFromIsMerged(cands, scoreById, cfg.weight);
      var ordered := SortByRank(Positive(MergedFrom(cands, scoreById, cfg.weight)));
      if |ordered| > cfg.topK {
        ordered := Slice(ordered, cfg.topK);
      }
      assert ordered == Winners(batches[i], Cached(scoreById), cfg);
      global := CombineRelevantChunks(global, ordered);
    }
    assert batches[..|batches|] == batches;
  }

  /** The merge step read from the table of cached scores. */
  function MergedFrom(cands: seq<Scored>, scores: map<int, real>, weight: real): seq<Scored>
    requires forall x :: x in cands ==> x.id in scores
  {
    seq(|cands|, i requires 0 <= i < |cands| =>
      Scored(cands[i].id, MergeScore(cands[i].score, scores[cands[i].id], weight)))
  }

  lemma MergedFromIsMerged(cands: seq<Scored>, scores: map<int, real>, weight: real)
    requires forall x :: x in cands ==> x.id in scores
    ensures MergedFrom(cands, scores, weight) == Merged(cands, Cached(scores), weight)
  {
  }

  /** Folding one more query into the union; a query without candidates leaves it as it is. */
  lemma FoldStep(batches: seq<seq<Scored>>, i: nat, score: int -> real, cfg: Settings)
    requires i < |batches|
    ensures Combined(Rank(Best(AllWinners(batches[..i], score, cfg))), Winners(batches[i], score, cfg))
            == Rank(Best(AllWinners(batches[..i + 1], score, cfg)))
    ensures Cap(batches[i], cfg.candidatesPerQuery) == [] ==>
              Rank(Best(AllWinners(batches[..i], score, cfg))) == Rank(Best(AllWinners(batches[..i + 1], score, cfg)))
  {
    var won, next := AllWinners(batches[..i], score, cfg), Winners(batches[i], score, cfg);
    assert batches[..i + 1][..i] == batches[..i];
    assert AllWinners(batches[..i + 1], score, cfg) == won + next;
    assert won + [] == won;
    CombinedAbsorbs(won, [], next);
    if Cap(batches[i], cfg.candidatesPerQuery) == [] {
      assert Merged([], score, cfg.weight) == [];
      assert next == [];
    }
  }

  lemma {:induction false} DistinctLength(q: seq<int>)
    requires forall i, j :: 0 <= i < j < |q| ==> q[i] != q[j]
    ensures |set id | id in q| == |q|
  {
    if q == [] {
    } else {
      var front, x := q[..|q| - 1], q[|q| - 1];
      DistinctLength(front);
      assert q == front + [x];
      assert (set id | id in q) == (set id | id in front) + {x};
    }
  }

  lemma {:induction false} CandidatesAreScored(batches: seq<seq<Scored>>, i: nat, cfg: Settings)
    requires i < |batches|
    ensures forall x :: x in Cap(batches[i], cfg.candidatesPerQuery) ==> x.id in CandidateIds(batches, cfg)
  {
    if i < |batches| - 1 {
      CandidatesAreScored(batches[..|batches| - 1], i, cfg);
    }
  }

  lemma {:induction false} NothingToScore(batches: seq<seq<Scored>>, score: int -> real, cfg: Settings)
    requires CandidateIds(batches, cfg) == {}
    ensures AllWinners(batches, score, cfg) == []
  {
    if batches == [] {
    } else {
      NothingToScore(batches[..|batches| - 1], score, cfg);
      var cands := Cap(batches[|batches| - 1], cfg.candidatesPerQuery);
      assert cands != [] ==> cands[0].id in Ids(cands);
      assert Merged(cands, score, cfg.weight) == [];
    }
  }

  // ---------------------------------------------------------------- membership

  lemma PositiveMergedIsUnique(batch: seq<Scored>, score: int -> real, cfg: Settings)
    requires UniqueIds(batch)
    ensures UniqueIds(PositiveMerged(batch, score, cfg))
  {
    PositiveItems(Merged(Cap(batch, cfg.candidatesPerQuery), score, cfg.weight));
  }

  lemma {:induction false} AllPositiveItems(batches: seq<seq<Scored>>, score: int -> real, cfg: Settings)
    ensures forall x :: x in AllPositive(batches, score, cfg) <==>
              exists b :: b in batches && x in PositiveMerged(b, score, cfg)
  {
    if batches == [] {
    } else {
      var front, last := batches[..|batches| - 1], batches[|batches| - 1];
      assert batches == front + [last];
      AllPositiveItems(front, score, cfg);
    }
  }

  lemma {:induction false} AllWinnersItems(batches: seq<seq<Scored>>, score: int -> real, cfg: Settings)
    ensures forall x :: x in AllWinners(batches, score, cfg) <==>
              exists b :: b in batches && x in Winners(b, score, cfg)
  {
    if batches == [] {
    } else {
      var front, last := batches[..|batches| - 1], batches[|batches| - 1];
      assert batches == front + [last];
      AllWinnersItems(front, score, cfg);
    }
  }

  lemma WinnersArePositive(batch: seq<Scored>, score: int -> real, cfg: Settings)
    ensures forall x :: x in Winners(batch, score, cfg) ==> x in PositiveMerged(batch, score, cfg)
  {
    SortItems(PositiveMerged(batch, score, cfg));
  }

  lemma WinnerWasPositive(batches: seq<seq<Scored>>, score: int -> real, cfg: Settings, x: Scored)
    requires x in AllWinners(batches, score, cfg)
    ensures x in AllPositive(batches, score, cfg)
  {
    AllWinnersItems(batches, score, cfg);
    AllPositiveItems(batches, score, cfg);
    var b :| b in batches && x in Winners(b, score, cfg);
    WinnersArePositive(b, score, cfg);
  }

  /** The result holds winners only. */
  lemma RerankedAreWinners(batches: seq<seq<Scored>>, score: int -> real, cfg: Settings)
    ensures forall x :: x in Reranked(batches, score, cfg) ==> x in AllWinners(batches, score, cfg)
  {
    var win := AllWinners(batches, score, cfg);
    RankItems(Best(win));
    BestIsMax(win);
    forall x | x in Reranked(batches, score, cfg) ensures x in win {
      assert x in Rank(Best(win));
    }
  }
}
