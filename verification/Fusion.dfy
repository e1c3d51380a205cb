/** Fusion of ranked chunk lists: src/meno_rag/stand/search.py, `combine_relevant_chunks`.

    Scores are reals.  A list is canonical when it is strictly ordered by (-score, id) and no id
    occurs twice; a canonical list is determined by the score it gives to each id. */
module Fusion {
  import opened Sets

  datatype Scored = Scored(id: int, score: real)

  /** The sort key (-score, id) as a strict order. */
  predicate Before(x: Scored, y: Scored) {
    x.score > y.score || (x.score == y.score && x.id < y.id)
  }

  ghost predicate Ranked(s: seq<Scored>) {
    forall i, j :: 0 <= i < j < |s| ==> Before(s[i], s[j])
  }

  ghost predicate UniqueIds(s: seq<Scored>) {
    forall i, j :: 0 <= i < j < |s| ==> s[i].id != s[j].id
  }

  ghost predicate Canonical(s: seq<Scored>) {
    Ranked(s) && UniqueIds(s)
  }

  function Ids(s: seq<Scored>): set<int> {
    set x | x in s :: x.id
  }

  // ---------------------------------------------------------------- best score per id

  /** One dictionary update: the larger score wins. */
  function Improve(m: map<int, real>, x: Scored): map<int, real> {
    if x.id in m && m[x.id] >= x.score then m else m[x.id := x.score]
  }

  function Best(s: seq<Scored>): map<int, real> {
    if s == [] then map[] else Improve(Best(s[..|s| - 1]), s[|s| - 1])
  }

  function Max(a: real, b: real): real {
    if a >= b then a else b
  }

  /** Pointwise maximum of two score tables. */
  function PointwiseMax(m: map<int, real>, n: map<int, real>): map<int, real> {
    map id | id in m.Keys + n.Keys ::
      if id !in n then m[id] else if id !in m then n[id] else Max(m[id], n[id])
  }

  lemma {:induction false} BestIsMax(s: seq<Scored>)
    ensures forall i :: 0 <= i < |s| ==> s[i].id in Best(s) && s[i].score <= Best(s)[s[i].id]
    ensures forall id :: id in Best(s) ==> Scored(id, Best(s)[id]) in s
  {
    if s == [] {
    } else {
      BestIsMax(s[..|s| - 1]);
    }
  }

  lemma BestBounds(s: seq<Scored>, x: Scored)
    requires x in s
    ensures x.id in Best(s) && x.score <= Best(s)[x.id]
  {
    BestIsMax(s);
    var i :| 0 <= i < |s| && s[i] == x;
  }

  /** A table that gives every listed id its largest listed score is the best-score table. */
  lemma BestUnique(s: seq<Scored>, m: map<int, real>)
    requires forall x :: x in s ==> x.id in m && x.score <= m[x.id]
    requires forall id :: id in m ==> Scored(id, m[id]) in s
    ensures m == Best(s)
  {
    BestIsMax(s);
    forall id | id in m ensures id in Best(s) && Best(s)[id] == m[id] {
      assert Scored(id, m[id]) in s;
      var i :| 0 <= i < |s| && s[i] == Scored(id, m[id]);
      assert Scored(id, Best(s)[id]) in s;
    }
    forall id | id in Best(s) ensures id in m {
      assert Scored(id, Best(s)[id]) in s;
    }
  }

  lemma BestOfSameItems(s: seq<Scored>, t: seq<Scored>)
    requires forall x :: x in s <==> x in t
    ensures Best(s) == Best(t)
  {
    BestIsMax(s);
    forall x | x in t ensures x.id in Best(s) && x.score <= Best(s)[x.id] {
      assert x in s;
      var i :| 0 <= i < |s| && s[i] == x;
    }
    BestUnique(t, Best(s));
  }

  lemma {:induction false} BestOfConcat(s: seq<Scored>, t: seq<Scored>)
    ensures Best(s + t) == PointwiseMax(Best(s), Best(t))
  {
    if t == [] {
      assert s + t == s;
    } else {
      BestOfConcat(s, t[..|t| - 1]);
      assert (s + t)[..|s + t| - 1] == s + t[..|t| - 1];
    }
  }

  lemma BestOfUnique(s: seq<Scored>)
    requires UniqueIds(s)
    ensures Best(s).Keys == Ids(s)
    ensures forall x :: x in s ==> Best(s)[x.id] == x.score
    ensures |Ids(s)| == |s|
  {
    BestIsMax(s);
    forall id | id in Best(s) ensures id in Ids(s) {
      assert Scored(id, Best(s)[id]) in s;
    }
    forall x | x in s ensures x.id in Best(s) && Best(s)[x.id] == x.score {
      var i :| 0 <= i < |s| && s[i] == x;
      assert Scored(x.id, Best(s)[x.id]) in s;
      var j :| 0 <= j < |s| && s[j] == Scored(x.id, Best(s)[x.id]);
      assert i == j;
    }
    UniqueSize(s);
  }

  lemma {:induction false} UniqueSize(s: seq<Scored>)
    requires UniqueIds(s)
    ensures |Ids(s)| == |s|
  {
    if s == [] {
    } else {
      var front, x := s[..|s| - 1], s[|s| - 1];
      UniqueSize(front);
      assert s == front + [x];
      IdsAppend(front, x);
      FreshId(front, x.id);
    }
  }

  lemma FreshId(s: seq<Scored>, id: int)
    requires forall i :: 0 <= i < |s| ==> s[i].id != id
    ensures id !in Ids(s)
  {
  }

  lemma IdsAppend(s: seq<Scored>, x: Scored)
    ensures Ids(s + [x]) == Ids(s) + {x.id}
  {
  }

  // ---------------------------------------------------------------- the canonical list of a table

  ghost predicate IsFirst(m: map<int, real>, id: int) {
    id in m && forall j :: j in m && j != id ==> Before(Scored(id, m[id]), Scored(j, m[j]))
  }

  lemma {:induction false} FirstExists(m: map<int, real>)
    requires m.Keys != {}
    ensures exists id :: IsFirst(m, id)
    decreases m.Keys
  {
    var id := SomeElement(m.Keys);
    var rest := m - {id};
    if rest.Keys == {} {
      assert forall j :: j in m && j != id ==> j in rest;
      assert IsFirst(m, id);
    } else {
      FirstExists(rest);
      var k :| IsFirst(rest, k);
      assert forall j :: j in m && j != id ==> j in rest;
      if Before(Scored(id, m[id]), Scored(k, m[k])) {
        assert IsFirst(m, id);
      } else {
        assert IsFirst(m, k);
      }
    }
  }

  /** Python's `sorted(..., key=(-score, id))` over the items of a dictionary. */
  function Rank(m: map<int, real>): seq<Scored>
    decreases m.Keys
  {
    if m.Keys == {} then []
    else
      FirstExists(m);
      var id :| id in m && forall j :: j in m && j != id ==> Before(Scored(id, m[id]), Scored(j, m[j]));
      [Scored(id, m[id])] + Rank(m - {id})
  }

  lemma {:induction false} RankItems(m: map<int, real>)
    ensures forall x :: x in Rank(m) <==> x.id in m && x.score == m[x.id]
    decreases m.Keys
  {
    if m.Keys == {} {
    } else {
      var r := Rank(m);
      RankItems(m - {r[0].id});
      assert r == [r[0]] + r[1..];
    }
  }

  lemma CanonicalPrepend(x: Scored, s: seq<Scored>)
    requires Canonical(s) && forall y :: y in s ==> Before(x, y) && x.id != y.id
    ensures Canonical([x] + s)
  {
  }

  lemma {:induction false} RankIsOrdered(m: map<int, real>)
    ensures Canonical(Rank(m))
    decreases m.Keys
  {
    if m.Keys == {} {
    } else {
      var x := Rank(m)[0];
      RankIsOrdered(m - {x.id});
      RankItems(m - {x.id});
      CanonicalPrepend(x, Rank(m - {x.id}));
    }
  }

  lemma RankIsCanonical(m: map<int, real>)
    ensures Canonical(Rank(m)) && Best(Rank(m)) == m
  {
    RankIsOrdered(m);
    RankItems(m);
    BestUnique(Rank(m), m);
  }

  /** A canonical list whose items are the best of `m`, all other ids coming later, is how Rank(m) begins. */
  lemma {:induction false} PrefixOfRank(top: seq<Scored>, m: map<int, real>)
    requires Canonical(top)
    requires forall x :: x in top ==> x.id in m && m[x.id] == x.score
    requires forall x, id :: x in top && id in m && id !in Ids(top) ==> Before(x, Scored(id, m[id]))
    ensures top <= Rank(m)
    decreases |top|
  {
    if top == [] {
    } else {
      var x := top[0];
      assert IsFirst(m, x.id) by {
        forall j | j in m && j != x.id ensures Before(x, Scored(j, m[j])) {
          if j in Ids(top) {
            var y :| y in top && y.id == j;
            var i :| 0 <= i < |top| && top[i] == y;
            assert i > 0;
            assert y == Scored(j, m[j]);
          } else {
            assert x in top && x == Scored(x.id, m[x.id]);
          }
        }
      }
      var rest := top[1..];
      assert Rank(m)[0] == x;
      forall y | y in rest ensures y.id in m - {x.id} && (m - {x.id})[y.id] == y.score {
        var i :| 0 <= i < |rest| && rest[i] == y;
        assert top[i + 1] == y;
      }
      forall y, id | y in rest && id in m - {x.id} && id !in Ids(rest) ensures Before(y, Scored(id, m[id])) {
        assert y in top;
        assert id !in Ids(top);
      }
      PrefixOfRank(rest, m - {x.id});
      assert Rank(m) == [x] + Rank(m - {x.id});
      assert top == [x] + rest;
    }
  }

  /** A canonical list is the canonical list of its own score table. */
  lemma CanonicalIsRank(s: seq<Scored>)
    requires Canonical(s)
    ensures s == Rank(Best(s))
  {
    BestOfUnique(s);
    PrefixOfRank(s, Best(s));
    RankIsCanonical(Best(s));
    BestOfUnique(Rank(Best(s)));
    assert |s| == |Rank(Best(s))|;
  }

  // ---------------------------------------------------------------- combine_relevant_chunks

  /** The two lists' max-union in canonical order. */
  function Combined(a: seq<Scored>, b: seq<Scored>): seq<Scored> {
    Rank(Best(a + b))
  }

  method CombineRelevantChunks(a: seq<Scored>, b: seq<Scored>) returns (r: seq<Scored>)
    ensures r == Combined(a, b)
    ensures Canonical(r) && Ids(r) == Ids(a) + Ids(b)
    ensures forall x :: x in r ==> (x in a || x in b) && forall y :: (y in a || y in b) && y.id == x.id ==>
        y.score <= x.score
  {
    var united: map<int, real> := map[];
    for i := 0 to |a|
      invariant united == Best(a[..i])
    {
      assert a[..i + 1][..i] == a[..i];
      united := Absorb(united, a[i]);
    }
    assert a[..|a|] == a == a + b[..0];
    for i := 0 to |b|
      invariant united == Best(a + b[..i])
    {
      assert (a + b[..i + 1])[..|a| + i] == a + b[..i];
      united := Absorb(united, b[i]);
    }
    assert b[..|b|] == b;
    r := Rank(united);
    CombinedIsMaxUnion(a, b);
  }

  /** The branch both loops share. */
  method Absorb(united: map<int, real>, x: Scored) returns (m: map<int, real>)
    ensures m == Improve(united, x)
  {
    m := united;
    if x.id in m {
      if x.score > m[x.id] {
        m := m[x.id := x.score];
      }
    } else {
      m := m[x.id := x.score];
    }
  }

  lemma CombinedIsMaxUnion(a: seq<Scored>, b: seq<Scored>)
    ensures Canonical(Combined(a, b)) && Ids(Combined(a, b)) == Ids(a) + Ids(b)
    ensures forall x :: x in Combined(a, b) ==>
              (x in a || x in b) && forall y :: (y in a || y in b) && y.id == x.id ==> y.score <= x.score
  {
    var m, r := Best(a + b), Combined(a, b);
    RankIsCanonical(m);
    RankItems(m);
    BestIsMax(a + b);
    forall id | id in Ids(a) + Ids(b) ensures id in Ids(r) {
      var x :| (x in a || x in b) && x.id == id;
      assert x in a + b;
      var i :| 0 <= i < |a + b| && (a + b)[i] == x;
      assert Scored(id, m[id]) in r;
    }
    forall x | x in r
      ensures x in a || x in b
      ensures forall y :: (y in a || y in b) && y.id == x.id ==> y.score <= x.score
    {
      assert x == Scored(x.id, m[x.id]) && x in a + b;
      forall y | (y in a || y in b) && y.id == x.id ensures y.score <= x.score {
        assert y in a + b;
        var i :| 0 <= i < |a + b| && (a + b)[i] == y;
      }
    }
  }

  lemma PointwiseMaxCommutes(m: map<int, real>, n: map<int, real>)
    ensures PointwiseMax(m, n) == PointwiseMax(n, m)
    ensures PointwiseMax(m, m) == m
  {
    assert PointwiseMax(m, n).Keys == PointwiseMax(n, m).Keys == m.Keys + n.Keys;
    assert forall id :: id in PointwiseMax(m, n) ==> PointwiseMax(m, n)[id] == PointwiseMax(n, m)[id];
    var same := PointwiseMax(m, m);
    assert same.Keys == m.Keys;
    assert forall id :: id in m ==> same[id] == m[id];
    assert same == m;
  }

  /** Fusion is commutative, and idempotent on canonical lists. */
  lemma CombinedCommutes(a: seq<Scored>, b: seq<Scored>)
    ensures Combined(a, b) == Combined(b, a)
    ensures Canonical(a) ==> Combined(a, a) == a && Combined(a, []) == a
  {
    BestOfConcat(a, b);
    BestOfConcat(b, a);
    PointwiseMaxCommutes(Best(a), Best(b));
    if Canonical(a) {
      CanonicalIsRank(a);
      BestOfConcat(a, a);
      PointwiseMaxCommutes(Best(a), Best(a));
      assert a + [] == a;
    }
  }

  /** Fusing an already fused list forgets nothing that a later fusion needs. */
  lemma CombinedAbsorbs(a: seq<Scored>, b: seq<Scored>, c: seq<Scored>)
    ensures Combined(Combined(a, b), c) == Rank(Best(a + b + c))
  {
    RankIsCanonical(Best(a + b));
    BestOfConcat(Combined(a, b), c);
    BestOfConcat(a + b, c);
  }

  /** Fusion is associative. */
  lemma CombinedAssociates(a: seq<Scored>, b: seq<Scored>, c: seq<Scored>)
    ensures Combined(Combined(a, b), c) == Combined(a, Combined(b, c))
  {
    CombinedAbsorbs(a, b, c);
    CombinedAbsorbs(b, c, a);
    CombinedCommutes(a, Combined(b, c));
    BestOfSameItems(a + b + c, b + c + a);
  }
}
