/** The first items of a ranking, and what keeps them first: the truncations of `_rerank`,
    src/meno_rag/stand/pipeline.py. */
module RankTop {
  import opened Fusion
  import opened Sets

  /** Python's `s[:n]`; a negative bound counts from the end. */
  function Slice<T>(s: seq<T>, n: int): seq<T> {
    if n < 0 then (if |s| + n < 0 then [] else s[..|s| + n])
    else if n <= |s| then s[..n] else s
  }

  function CutTo<T>(s: seq<T>, n: int): seq<T> {
    if |s| > n then Slice(s, n) else s
  }

  /** What comes before an item in a list comes before it in the ranking of a dominating table. */
  lemma EarlierInDominatingTable(s: seq<Scored>, m: map<int, real>, p: nat, q: nat, x: Scored)
    requires p < |s| && q < |Rank(m)| && s[p] == Rank(m)[q]
    requires Canonical(s) && x in s[..p]
    requires x.id in m && x.score <= m[x.id]
    ensures x.id in Ids(Rank(m)[..q])
  {
    var r, y := Rank(m), Scored(x.id, m[x.id]);
    RankIsCanonical(m);
    RankItems(m);
    assert y in r;
    var j :| 0 <= j < |r| && r[j] == y;
    assert Before(x, s[p]) && Before(y, r[q]);
    assert j < q;
    assert r[..q][j] == y;
  }

  /** An item comes no later in a list than in the ranking of any table that dominates the list. */
  lemma RankInDominatingTable(s: seq<Scored>, m: map<int, real>, p: nat, q: nat)
    requires Canonical(s)
    requires forall x :: x in s ==> x.id in m && x.score <= m[x.id]
    requires p < |s| && q < |Rank(m)| && s[p] == Rank(m)[q]
    ensures p <= q
  {
    var r := Rank(m);
    forall id | id in Ids(s[..p]) ensures id in Ids(r[..q]) {
      var x :| x in s[..p] && x.id == id;
      EarlierInDominatingTable(s, m, p, q, x);
    }
    RankIsCanonical(m);
    BestOfUnique(s[..p]);
    BestOfUnique(r[..q]);
    SubsetSize(Ids(s[..p]), Ids(r[..q]));
  }

  /** Whatever is ranked but not among the first `c` comes after all of them. */
  lemma OutsideTopComesLater(m: map<int, real>, c: nat, x: Scored, id: int)
    requires x in CutTo(Rank(m), c) && id in m && id !in Ids(CutTo(Rank(m), c))
    ensures Before(x, Scored(id, m[id]))
  {
    var r, top := Rank(m), CutTo(Rank(m), c);
    RankIsCanonical(m);
    RankItems(m);
    assert Scored(id, m[id]) in r;
    var j :| 0 <= j < |r| && r[j] == Scored(id, m[id]);
    var i :| 0 <= i < |top| && top[i] == x;
    CutIsPrefix(r, c);
    NotInPrefix(top, r, j);
    assert i < j;
  }

  lemma NotInPrefix(top: seq<Scored>, r: seq<Scored>, j: nat)
    requires top <= r && j < |r| && r[j].id !in Ids(top)
    ensures |top| <= j
  {
    assert forall k :: 0 <= k < |top| ==> top[k].id in Ids(top);
  }

  lemma CutIsPrefix(s: seq<Scored>, c: nat)
    ensures CutTo(s, c) <= s
  {
  }

  lemma RankingLength(m: map<int, real>)
    ensures |Rank(m)| == |m.Keys|
  {
  }

  lemma CutOfPrefix(top: seq<Scored>, s: seq<Scored>, c: nat)
    requires top <= s && |top| <= c && (|top| == c || |s| == |top|)
    ensures CutTo(s, c) == top
  {
  }

  /** Entries of `m` are lowered or dropped in `n`, none is raised or added. */
  ghost predicate NoneRaised(m: map<int, real>, n: map<int, real>) {
    n.Keys <= m.Keys && forall id :: id in n ==> n[id] <= m[id]
  }

  ghost predicate TopKept(m: map<int, real>, n: map<int, real>, c: nat) {
    forall x :: x in CutTo(Rank(m), c) ==> x.id in n && n[x.id] == x.score
  }

  /** Lowering or dropping entries outside the first `c` of the ranking leaves the first `c` alone. */
  lemma TopStable(m: map<int, real>, n: map<int, real>, c: nat)
    requires NoneRaised(m, n) && TopKept(m, n, c)
    ensures CutTo(Rank(n), c) == CutTo(Rank(m), c)
  {
    var top := CutTo(Rank(m), c);
    RankIsCanonical(m);
    forall x, id | x in top && id in n && id !in Ids(top) ensures Before(x, Scored(id, n[id])) {
      OutsideTopComesLater(m, c, x, id);
    }
    PrefixOfRank(top, n);
    RankingLength(m);
    RankingLength(n);
    SubsetSize(n.Keys, m.Keys);
    CutOfPrefix(top, Rank(n), c);
  }
}
