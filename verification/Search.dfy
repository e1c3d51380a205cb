/** What reaches the rerank stage: `find_relevant_chunks` divides the raw scores of a retriever by their sum, and the
    two lists of a query are fused (src/meno_rag/stand/search.py). */
module Search {
  import opened Fusion

  function Total(s: seq<Scored>): real {
    if s == [] then 0.0 else Total(s[..|s| - 1]) + s[|s| - 1].score
  }

  function Normalised(raw: seq<Scored>): seq<Scored> {
    var sum := Total(raw);
    if sum <= 0.0 then [] else seq(|raw|, i requires 0 <= i < |raw| => Scored(raw[i].id, raw[i].score / sum))
  }

  /** `find_relevant_chunks`, given the ids and raw scores of the hits; both branches end alike. */
  method FindRelevantChunks(raw: seq<Scored>) returns (chunks: seq<Scored>)
    ensures chunks == Normalised(raw)
  {
    var sum := 0.0;
    for i := 0 to |raw|
      invariant sum == Total(raw[..i])
    {
      assert raw[..i + 1][..i] == raw[..i];
      sum := sum + raw[i].score;
    }
    assert raw[..|raw|] == raw;
    if sum <= 0.0 {
      return [];
    }
    chunks := [];
    for i := 0 to |raw|
      invariant chunks == Normalised(raw)[..i]
    {
      chunks := chunks + [Scored(raw[i].id, raw[i].score / sum)];
    }
  }

  ghost predicate NonNegative(s: seq<Scored>) {
    forall x :: x in s ==> x.score >= 0.0
  }

  /** A list as a retriever hands it over: nothing, or fractions of one. */
  ghost predicate Shares(s: seq<Scored>) {
    s == [] || (NonNegative(s) && Total(s) == 1.0)
  }

  lemma {:induction false} TotalScales(s: seq<Scored>, t: seq<Scored>, factor: real)
    requires |s| == |t| && forall i :: 0 <= i < |s| ==> t[i].score == s[i].score * factor
    ensures Total(t) == Total(s) * factor
  {
    if s == [] {
    } else {
      TotalScales(s[..|s| - 1], t[..|t| - 1], factor);
    }
  }

  lemma Divided(a: real, b: real)
    requires b > 0.0
    ensures a / b == a * (1.0 / b) && (a >= 0.0 ==> a / b >= 0.0) && b * (1.0 / b) == 1.0
  {
  }

  lemma NormalisedIsShares(raw: seq<Scored>)
    requires NonNegative(raw)
    ensures Shares(Normalised(raw))
  {
    var sum, s := Total(raw), Normalised(raw);
    if sum > 0.0 {
      forall i | 0 <= i < |raw| ensures s[i].score == raw[i].score * (1.0 / sum) && s[i].score >= 0.0 {
        assert raw[i] in raw;
        Divided(raw[i].score, sum);
      }
      TotalScales(raw, s, 1.0 / sum);
      Divided(sum, sum);
    }
  }

  /** The hits keep their ids and their order; each share times the sum is the raw score. */
  lemma NormalisedKeepsHits(raw: seq<Scored>)
    ensures Total(raw) <= 0.0 ==> Normalised(raw) == []
    ensures Total(raw) > 0.0 ==>
              && |Normalised(raw)| == |raw|
              && forall i :: 0 <= i < |raw| ==>
                   Normalised(raw)[i].id == raw[i].id && Normalised(raw)[i].score * Total(raw) == raw[i].score
  {
    if Total(raw) > 0.0 {
      forall i | 0 <= i < |raw| ensures Normalised(raw)[i].score * Total(raw) == raw[i].score {
        QuotientTimes(raw[i].score, Total(raw));
      }
    }
  }

  lemma QuotientTimes(a: real, b: real)
    requires b > 0.0
    ensures (a / b) * b == a
  {
  }

  /** Fractions of one are exactly what normalising non-negative scores gives. */
  lemma SharesIff(s: seq<Scored>)
    ensures Shares(s) <==> exists raw :: NonNegative(raw) && s == Normalised(raw)
  {
    if Shares(s) {
      assert NonNegative(s) && s == Normalised(s);
    }
    if raw :| NonNegative(raw) && s == Normalised(raw) {
      NormalisedIsShares(raw);
    }
  }

  lemma {:induction false} TotalBounds(s: seq<Scored>, x: Scored)
    requires NonNegative(s)
    ensures Total(s) >= 0.0 && (x in s ==> x.score <= Total(s))
  {
    if s == [] {
    } else {
      var front, last := s[..|s| - 1], s[|s| - 1];
      assert s == front + [last];
      TotalBounds(front, x);
      assert last in s;
    }
  }

  // ---------------------------------------------------------------- fused lists

  /** The candidates of one query as the rerank stage receives them. */
  ghost predicate IsFused(b: seq<Scored>) {
    exists dense, lexical :: Shares(dense) && Shares(lexical) && b == Combined(dense, lexical)
  }

  ghost predicate AllFused(batches: seq<seq<Scored>>) {
    forall b :: b in batches ==> IsFused(b)
  }

  /** A fused list is canonical and its scores lie between 0 and 1. */
  lemma FusedMeaning(b: seq<Scored>)
    requires IsFused(b)
    ensures Canonical(b) && forall x :: x in b ==> 0.0 <= x.score <= 1.0
  {
    var dense, lexical :| Shares(dense) && Shares(lexical) && b == Combined(dense, lexical);
    CombinedIsMaxUnion(dense, lexical);
    forall x | x in b ensures 0.0 <= x.score <= 1.0 {
      if x in dense {
        TotalBounds(dense, x);
      } else {
        TotalBounds(lexical, x);
      }
    }
  }

  /** A canonical list of shares is fused with nothing. */
  lemma SharesAreFused(s: seq<Scored>)
    requires Canonical(s) && Shares(s)
    ensures IsFused(s)
  {
    CombinedCommutes(s, []);
    assert Shares([]) && s == Combined(s, []);
  }

  // ---------------------------------------------------------------- chunks of one score

  /** `n` chunks with ids from `start` and the same score. */
  function Level(start: int, n: nat, s: real): seq<Scored> {
    seq(n, i => Scored(start + i, s))
  }

  lemma {:induction false} LevelTotal(start: int, n: nat, s: real)
    ensures Total(Level(start, n, s)) == n as real * s
  {
    if n == 0 {
    } else {
      LevelTotal(start, n - 1, s);
      assert Level(start, n, s)[..n - 1] == Level(start, n - 1, s);
    }
  }

  /** One list of `n` chunks that share equally. */
  lemma LevelIsFused(start: int, n: nat)
    requires n > 0
    ensures Canonical(Level(start, n, 1.0 / n as real)) && IsFused(Level(start, n, 1.0 / n as real))
  {
    LevelTotal(start, n, 1.0 / n as real);
    Divided(1.0, n as real);
    SharesAreFused(Level(start, n, 1.0 / n as real));
  }
}
