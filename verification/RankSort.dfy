/** Python's `sorted(filter(...), key=(-score, id))` on lists of scored chunks: src/meno_rag/stand/pipeline.py. */
module RankSort {
  import opened Fusion

  function Positive(s: seq<Scored>): seq<Scored> {
    if s == [] then []
    else
      var front := Positive(s[..|s| - 1]);
      if s[|s| - 1].score > 0.0 then front + [s[|s| - 1]] else front
  }

  /** Python's `sorted(..., key=(-score, id))` on a list. */
  function SortByRank(s: seq<Scored>): seq<Scored> {
    if s == [] then [] else Insert(s[|s| - 1], SortByRank(s[..|s| - 1]))
  }

  function Insert(x: Scored, s: seq<Scored>): seq<Scored> {
    if s == [] || Before(x, s[0]) then [x] + s else [s[0]] + Insert(x, s[1..])
  }

  lemma {:induction false} InsertItems(x: Scored, s: seq<Scored>)
    ensures forall y :: y in Insert(x, s) <==> y == x || y in s
  {
    if s != [] && !Before(x, s[0]) {
      InsertItems(x, s[1..]);
      assert s == [s[0]] + s[1..];
    }
  }

  lemma {:induction false} InsertIsCanonical(x: Scored, s: seq<Scored>)
    requires Canonical(s) && forall y :: y in s ==> y.id != x.id
    ensures Canonical(Insert(x, s))
  {
    if s == [] || Before(x, s[0]) {
      forall y | y in s ensures Before(x, y) {
        var j :| 0 <= j < |s| && s[j] == y;
        assert j > 0 ==> Before(s[0], s[j]);
      }
      CanonicalPrepend(x, s);
    } else {
      var rest := s[1..];
      assert s == [s[0]] + rest;
      InsertIsCanonical(x, rest);
      InsertItems(x, rest);
      assert s[0] in s;
      forall y | y in Insert(x, rest) ensures Before(s[0], y) && s[0].id != y.id {
        if y != x {
          var k :| 0 <= k < |rest| && rest[k] == y;
          assert s[k + 1] == y;
        }
      }
      CanonicalPrepend(s[0], Insert(x, rest));
    }
  }

  lemma {:induction false} SortMembers(s: seq<Scored>)
    ensures forall y :: y in SortByRank(s) <==> y in s
  {
    if s == [] {
    } else {
      var front, x := s[..|s| - 1], s[|s| - 1];
      assert s == front + [x];
      SortMembers(front);
      InsertItems(x, SortByRank(front));
    }
  }

  lemma {:induction false} SortIsCanonical(s: seq<Scored>)
    requires UniqueIds(s)
    ensures Canonical(SortByRank(s))
  {
    if s == [] {
    } else {
      var front, x := s[..|s| - 1], s[|s| - 1];
      SortIsCanonical(front);
      SortMembers(front);
      InsertIsCanonical(x, SortByRank(front));
    }
  }

  lemma SortItems(s: seq<Scored>)
    ensures forall y :: y in SortByRank(s) <==> y in s
    ensures UniqueIds(s) ==> Canonical(SortByRank(s)) && SortByRank(s) == Rank(Best(s))
  {
    SortMembers(s);
    if UniqueIds(s) {
      SortIsCanonical(s);
      CanonicalIsRank(SortByRank(s));
      BestOfSameItems(s, SortByRank(s));
    }
  }

  lemma {:induction false} PositiveItems(s: seq<Scored>)
    ensures forall x :: x in Positive(s) <==> x in s && x.score > 0.0
    ensures UniqueIds(s) ==> UniqueIds(Positive(s))
  {
    if s == [] {
    } else {
      var front, x := s[..|s| - 1], s[|s| - 1];
      assert s == front + [x];
      PositiveItems(front);
      if UniqueIds(s) {
        forall j | 0 <= j < |Positive(front)| ensures Positive(front)[j].id != x.id {
          assert Positive(front)[j] in front;
        }
      }
    }
  }

  lemma {:induction false} PositiveLength(s: seq<Scored>)
    ensures |Positive(s)| <= |s|
  {
    if s == [] {
    } else {
      PositiveLength(s[..|s| - 1]);
    }
  }

  lemma {:induction false} SortLength(s: seq<Scored>)
    ensures |SortByRank(s)| == |s|
  {
    if s == [] {
    } else {
      SortLength(s[..|s| - 1]);
      InsertLength(s[|s| - 1], SortByRank(s[..|s| - 1]));
    }
  }

  lemma {:induction false} InsertLength(x: Scored, s: seq<Scored>)
    ensures |Insert(x, s)| == |s| + 1
  {
    if s != [] && !Before(x, s[0]) {
      InsertLength(x, s[1..]);
    }
  }

  lemma {:induction false} AllAbove(s: seq<Scored>)
    requires forall x :: x in s ==> x.score > 0.0
    ensures Positive(s) == s
  {
    if s == [] {
    } else {
      AllAbove(s[..|s| - 1]);
      assert s == s[..|s| - 1] + [s[|s| - 1]];
    }
  }
}
