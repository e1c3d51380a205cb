/** The retrieval funnel end to end (src/meno_rag/stand/pipeline.py): queries are deduped and capped, each
    is retrieved and fused, the fused lists are reranked.  Retrieval, text normalisation and the scorer
    are arbitrary functions. */
module Funnel {
  import opened Lists
  import opened Fusion
  import opened RankTop
  import opened Rerank
  import opened Search
  import opened TwoCuts

  // ---------------------------------------------------------------- search queries

  /** The queries whose normal form is non-empty and not seen before, in order. */
  function FirstOccurrences(queries: seq<string>, norm: string -> string): seq<string> {
    if queries == [] then []
    else
      var front, q := FirstOccurrences(queries[..|queries| - 1], norm), queries[|queries| - 1];
      if norm(q) == "" || norm(q) in Norms(front, norm) then front else front + [q]
  }

  function Norms(queries: seq<string>, norm: string -> string): set<string> {
    set q | q in queries :: norm(q)
  }

  function DedupedQueries(queries: seq<string>, norm: string -> string, maxQueries: int): seq<string> {
    Cap(FirstOccurrences(queries, norm), maxQueries)
  }

  method DedupeAndCapQueries(queries: seq<string>, norm: string -> string, maxQueries: int)
    returns (unique: seq<string>)
    ensures unique == DedupedQueries(queries, norm, maxQueries)
  {
    var seen: set<string> := {};
    unique := [];
    for i := 0 to |queries|
      invariant unique == FirstOccurrences(queries[..i], norm)
      invariant seen == Norms(unique, norm)
    {
      assert queries[..i + 1][..i] == queries[..i];
      var n := norm(queries[i]);
      if n == "" || n in seen {
        continue;
      }
      NormsAppend(unique, queries[i], norm);
      seen := seen + {n};
      unique := unique + [queries[i]];
    }
    assert queries[..|queries|] == queries;
    if maxQueries > 0 && |unique| > maxQueries {
      unique := unique[..maxQueries];
    }
  }

  lemma NormsAppend(queries: seq<string>, q: string, norm: string -> string)
    ensures Norms(queries + [q], norm) == Norms(queries, norm) + {norm(q)}
  {
  }

  /** The leading query survives in front. */
  lemma {:induction false} FirstQuerySurvives(queries: seq<string>, norm: string -> string)
    requires queries != [] && norm(queries[0]) != ""
    ensures FirstOccurrences(queries, norm) != [] && FirstOccurrences(queries, norm)[0] == queries[0]
  {
    if |queries| == 1 {
      assert FirstOccurrences(queries[..0], norm) == [];
      assert Norms([], norm) == {};
    } else {
      FirstQuerySurvives(queries[..|queries| - 1], norm);
    }
  }

  lemma {:induction false} EveryNormSurvives(queries: seq<string>, norm: string -> string)
    ensures Norms(FirstOccurrences(queries, norm), norm) == Norms(queries, norm) - {""}
  {
    if queries == [] {
    } else {
      var front, q := queries[..|queries| - 1], queries[|queries| - 1];
      EveryNormSurvives(front, norm);
      assert queries == front + [q];
      NormsAppend(front, q, norm);
      NormsAppend(FirstOccurrences(front, norm), q, norm);
    }
  }

  lemma {:induction false} NormsDiffer(queries: seq<string>, norm: string -> string)
    ensures var u := FirstOccurrences(queries, norm);
            && (forall i, j :: 0 <= i < j < |u| ==> norm(u[i]) != norm(u[j]))
            && (forall q :: q in u ==> q in queries && norm(q) != "")
  {
    if queries == [] {
    } else {
      var front, u := queries[..|queries| - 1], FirstOccurrences(queries[..|queries| - 1], norm);
      NormsDiffer(front, norm);
      assert queries == front + [queries[|queries| - 1]];
      forall i | 0 <= i < |u| ensures norm(u[i]) in Norms(u, norm) {
        assert u[i] in u;
      }
    }
  }

  /** One representative per distinct non-blank query, no two alike, and the leading query (the raw user
      question) always survives in front. */
  lemma FirstOccurrencesMeaning(queries: seq<string>, norm: string -> string)
    ensures var u := FirstOccurrences(queries, norm);
            && (forall i, j :: 0 <= i < j < |u| ==> norm(u[i]) != norm(u[j]))
            && (forall q :: q in u ==> q in queries && norm(q) != "")
            && Norms(u, norm) == Norms(queries, norm) - {""}
            && (queries != [] && norm(queries[0]) != "" ==> u != [] && u[0] == queries[0])
  {
    NormsDiffer(queries, norm);
    EveryNormSurvives(queries, norm);
    if queries != [] && norm(queries[0]) != "" {
      FirstQuerySurvives(queries, norm);
    }
  }

  lemma DedupedQueriesMeaning(queries: seq<string>, norm: string -> string, maxQueries: int)
    ensures var u := DedupedQueries(queries, norm, maxQueries);
            && (forall i, j :: 0 <= i < j < |u| ==> norm(u[i]) != norm(u[j]))
            && (maxQueries > 0 ==> |u| <= maxQueries)
            && (queries != [] && norm(queries[0]) != "" ==> u != [] && u[0] == queries[0])
            && (maxQueries <= 0 || |u| < maxQueries ==> Norms(u, norm) == Norms(queries, norm) - {""})
  {
    FirstOccurrencesMeaning(queries, norm);
  }

  function NormOf(queries: seq<string>, norm: string -> string): seq<string> {
    seq(|queries|, i requires 0 <= i < |queries| => norm(queries[i]))
  }

  function IsBlank(): string -> bool {
    (n: string) => n == ""
  }

  /** A normal form is known from the kept queries exactly when it is one of the forms so far. */
  lemma KnownNorm(queries: seq<string>, norms: seq<string>, norm: string -> string, n: string)
    requires |norms| == |queries| && forall i :: 0 <= i < |norms| ==> norms[i] == norm(queries[i])
    requires n != ""
    ensures n in Norms(FirstOccurrences(queries, norm), norm) <==> n in norms
  {
    EveryNormSurvives(queries, norm);
    if n in Norms(queries, norm) {
      var q :| q in queries && norm(q) == n;
      var i :| 0 <= i < |queries| && queries[i] == q;
      assert norms[i] == n;
    }
    if n in norms {
      var i :| 0 <= i < |norms| && norms[i] == n;
      assert queries[i] in queries;
    }
  }

  lemma {:induction false} OccurrencesAreFirst(queries: seq<string>, norms: seq<string>, norm: string -> string)
    requires |norms| == |queries| && forall i :: 0 <= i < |norms| ==> norms[i] == norm(queries[i])
    ensures var u, at := FirstOccurrences(queries, norm), Places(norms, IsBlank());
            |u| == |at| && forall i :: 0 <= i < |at| ==> at[i] < |queries| && u[i] == queries[at[i]]
  {
    if queries == [] {
    } else {
      var n := |queries| - 1;
      OccurrencesAreFirst(queries[..n], norms[..n], norm);
      if norms[n] != "" {
        KnownNorm(queries[..n], norms[..n], norm, norms[n]);
      }
    }
  }

  /** The kept queries are the first of their normal form, in the order given, up to the cap. */
  lemma QueriesKeepTheirOrder(queries: seq<string>, norm: string -> string, maxQueries: int) returns (at: seq<nat>)
    ensures FirstPlaces(NormOf(queries, norm), at, IsBlank())
    ensures var u := DedupedQueries(queries, norm, maxQueries);
            && |u| == (if 0 < maxQueries < |at| then maxQueries else |at|)
            && forall i :: 0 <= i < |u| ==> at[i] < |queries| && u[i] == queries[at[i]]
  {
    OccurrencesAreFirst(queries, NormOf(queries, norm), norm);
    PlacesAreFirst(NormOf(queries, norm), IsBlank());
    at := Places(NormOf(queries, norm), IsBlank());
  }

  // ---------------------------------------------------------------- fusion per query

  datatype Retrieval = Retrieval(dense: seq<Scored>, lexical: seq<Scored>)

  function Fused(retrievals: seq<Retrieval>): seq<seq<Scored>> {
    seq(|retrievals|, i requires 0 <= i < |retrievals| => Combined(retrievals[i].dense, retrievals[i].lexical))
  }

  method Fuse(retrievals: seq<Retrieval>) returns (fused: seq<seq<Scored>>)
    ensures fused == Fused(retrievals)
  {
    fused := [];
    for i := 0 to |retrievals|
      invariant fused == Fused(retrievals)[..i]
    {
      var candidates := CombineRelevantChunks(retrievals[i].dense, retrievals[i].lexical);
      fused := fused + [candidates];
    }
  }

  // ---------------------------------------------------------------- the funnel

  function Batches(queries: seq<string>, norm: string -> string, maxQueries: int, retrieve: string -> Retrieval)
    : seq<seq<Scored>>
  {
    var searched := DedupedQueries(queries, norm, maxQueries);
    Fused(seq(|searched|, i requires 0 <= i < |searched| => retrieve(searched[i])))
  }

  /** When both retrievers hand over normalised lists, as theirs are, the rerank stage gets fused ones. */
  lemma BatchesAreFused(queries: seq<string>, norm: string -> string, maxQueries: int, retrieve: string -> Retrieval)
    requires forall q :: Shares(retrieve(q).dense) && Shares(retrieve(q).lexical)
    ensures AllFused(Batches(queries, norm, maxQueries, retrieve))
  {
    var searched, batches := DedupedQueries(queries, norm, maxQueries), Batches(queries, norm, maxQueries, retrieve);
    forall b | b in batches ensures IsFused(b) {
      var i :| 0 <= i < |batches| && batches[i] == b;
      var r := retrieve(searched[i]);
      assert b == Combined(r.dense, r.lexical);
    }
  }

  lemma {:induction false} IdsBound(s: seq<Scored>)
    ensures |Ids(s)| <= |s|
  {
    if s == [] {
    } else {
      var front, x := s[..|s| - 1], s[|s| - 1];
      IdsBound(front);
      assert s == front + [x];
      assert Ids(s) == Ids(front) + {x.id};
    }
  }

  /** The number of LLM scorings is bounded by the caps. */
  lemma {:induction false} ScoringsAreBounded(batches: seq<seq<Scored>>, cfg: Settings)
    requires cfg.candidatesPerQuery > 0
    ensures |CandidateIds(batches, cfg)| <= |batches| * cfg.candidatesPerQuery
  {
    if batches == [] {
    } else {
      var front, last := batches[..|batches| - 1], Cap(batches[|batches| - 1], cfg.candidatesPerQuery);
      ScoringsAreBounded(front, cfg);
      IdsBound(last);
      UnionSize(CandidateIds(front, cfg), Ids(last));
      OneMore(|front|, cfg.candidatesPerQuery);
    }
  }

  lemma OneMore(n: nat, cap: int)
    ensures n * cap + cap == (n + 1) * cap
  {
  }

  lemma UnionSize(a: set<int>, b: set<int>)
    ensures |a + b| <= |a| + |b|
  {
  }

  /** The whole funnel, for any queries, retrievers and scorer.  With `maxContextChunks <= topK` the chunks
      handed to the answer are exactly the first of the max-union of every query's positive merged
      candidates, and with positive caps at most `maxQueries * candidatesPerQuery` chunks are scored. */
  lemma FunnelIsExactAndBounded(queries: seq<string>, norm: string -> string, maxQueries: int,
                                retrieve: string -> Retrieval, score: int -> real, cfg: Settings)
    ensures var b := Batches(queries, norm, maxQueries, retrieve);
            0 <= cfg.maxContextChunks <= cfg.topK ==>
              Reranked(b, score, cfg) == CutTo(Rank(Best(AllPositive(b, score, cfg))), cfg.maxContextChunks)
    ensures var b := Batches(queries, norm, maxQueries, retrieve);
            maxQueries > 0 && cfg.candidatesPerQuery > 0 ==>
              |CandidateIds(b, cfg)| <= maxQueries * cfg.candidatesPerQuery
  {
    var b := Batches(queries, norm, maxQueries, retrieve);
    var searched := DedupedQueries(queries, norm, maxQueries);
    forall i | 0 <= i < |b| ensures UniqueIds(b[i]) {
      CombinedIsMaxUnion(retrieve(searched[i]).dense, retrieve(searched[i]).lexical);
    }
    if 0 <= cfg.maxContextChunks <= cfg.topK {
      TwoLevelCut(b, score, cfg);
    }
    if maxQueries > 0 && cfg.candidatesPerQuery > 0 {
      ScoringsAreBounded(b, cfg);
      ProductMonotone(|b|, maxQueries, cfg.candidatesPerQuery);
    }
  }

  lemma ProductMonotone(n: int, m: int, cap: int)
    requires n <= m && cap > 0
    ensures n * cap <= m * cap
  {
  }
}
