/** What a reader of the trace learns of each chunk: `build_pipeline_trace`, src/meno_rag/stand/trace.py. */
module TraceContent {
  import opened Lists
  import opened Fusion
  import opened Trace

  /** The ranked lists are written out as they are: every hit with its id, its score and its place. */
  lemma ListsAreWrittenOut(retrieval: seq<Funnel.Retrieval>, fused: seq<seq<Scored>>)
    ensures |QueryEntries(retrieval)| == |retrieval| && |FusionEntries(fused)| == |fused|
    ensures forall i :: 0 <= i < |retrieval| ==>
              && WrittenOut(QueryEntries(retrieval)[i].dense, retrieval[i].dense)
              && WrittenOut(QueryEntries(retrieval)[i].lexical, retrieval[i].lexical)
    ensures forall i :: 0 <= i < |fused| ==> WrittenOut(FusionEntries(fused)[i], fused[i])
  {
  }

  ghost predicate WrittenOut(entries: seq<RankEntry>, hits: seq<Scored>) {
    |entries| == |hits|
    && forall j :: 0 <= j < |hits| ==> entries[j] == RankEntry(hits[j].id, hits[j].score, j)
  }

  /** `v` is the best score of `id` in the fused lists. */
  ghost predicate BestFusedScore(id: int, v: real, fused: seq<seq<Scored>>) {
    && (exists l :: l in fused && Scored(id, v) in l)
    && forall l, x :: l in fused && x in l && x.id == id ==> x.score <= v
  }

  /** A candidate tells its rerank score, its best fused score if it was fused, and its final score and place if it was
      kept. */
  ghost predicate TellsScores(c: Candidate, scored: seq<Scored>, fused: seq<seq<Scored>>, reranked: seq<Scored>) {
    && Scored(c.id, c.rerank) in scored
    && (c.retrieval.Some? <==> exists l, x :: l in fused && x in l && x.id == c.id)
    && (c.retrieval.Some? ==> BestFusedScore(c.id, c.retrieval.value, fused))
    && (c.kept <==> exists x :: x in reranked && x.id == c.id)
    && (c.kept <==> c.merged.Some?) && (c.kept <==> c.rank.Some?)
    && (c.kept ==> c.rank.value < |reranked| && reranked[c.rank.value] == Scored(c.id, c.merged.value))
  }

  lemma FusedScoreIsBest(id: int, fused: seq<seq<Scored>>)
    ensures var m := Best(AllScored(fused));
            && (id in m <==> exists l, x :: l in fused && x in l && x.id == id)
            && (id in m ==> BestFusedScore(id, m[id], fused))
  {
    var m := Best(AllScored(fused));
    AllScoredItems(fused);
    BestIsMax(AllScored(fused));
    FusedKeys(fused);
    if id in m {
      assert Scored(id, m[id]) in AllScored(fused);
      forall l, x | l in fused && x in l && x.id == id ensures x.score <= m[id] {
        BestBounds(AllScored(fused), x);
      }
    }
  }

  lemma CandidateTells(x: Scored, scored: seq<Scored>, fused: seq<seq<Scored>>, reranked: seq<Scored>)
    requires x in scored
    ensures TellsScores(CandidateOf(x, Best(AllScored(fused)), reranked), scored, fused, reranked)
  {
    FusedScoreIsBest(x.id, fused);
    PlaceInRange(x.id, reranked);
  }

  /** Every candidate of the trace tells its scores. */
  lemma CandidatesTellScores(scored: seq<Scored>, fused: seq<seq<Scored>>, reranked: seq<Scored>)
    ensures var c := SortCandidates(Candidates(scored, Best(AllScored(fused)), reranked));
            |c| == |scored| && forall i :: 0 <= i < |c| ==> TellsScores(c[i], scored, fused, reranked)
  {
    var all := Candidates(scored, Best(AllScored(fused)), reranked);
    var c := SortCandidates(all);
    SortedItems(all);
    forall i | 0 <= i < |c| ensures TellsScores(c[i], scored, fused, reranked) {
      assert c[i] in all;
      var k :| 0 <= k < |all| && all[k] == c[i];
      CandidateTells(scored[k], scored, fused, reranked);
    }
  }

  // ---------------------------------------------------------------- ties

  lemma {:induction false} InsertKeepsTies(s: seq<Candidate>, c: Candidate, tied: Candidate -> bool)
    requires forall x, y :: tied(x) && tied(y) ==> !Earlier(x, y)
    ensures Filter(InsertCandidate(s, c), tied) == Filter(s, tied) + (if tied(c) then [c] else [])
  {
    if s == [] || !Earlier(c, s[|s| - 1]) {
      FilterOne(s, c, tied);
    } else {
      var front, last := s[..|s| - 1], s[|s| - 1];
      InsertKeepsTies(front, c, tied);
      PassesBy(front, last, InsertCandidate(front, c), c, tied);
      assert s == front + [last];
    }
  }

  /** Candidates that the sort key does not tell apart stay in the order in which they were scored. */
  lemma {:induction false} TiesKeepTheirOrder(s: seq<Candidate>, tied: Candidate -> bool)
    requires forall x, y :: tied(x) && tied(y) ==> !Earlier(x, y)
    ensures Filter(SortCandidates(s), tied) == Filter(s, tied)
  {
    if s == [] {
    } else {
      var front, last := s[..|s| - 1], s[|s| - 1];
      TiesKeepTheirOrder(front, tied);
      InsertKeepsTies(SortCandidates(front), last, tied);
      FilterOne(front, last, tied);
      assert s == front + [last];
    }
  }
}
