/** The self-contained trace of one funnel run: `build_pipeline_trace`, src/meno_rag/stand/trace.py.
    Chunk texts and titles are left to an unseen hydration function. */
module Trace {
  import opened Text
  import opened Fusion
  import Rerank
  import RerankResult
  import Funnel

  datatype RankEntry = RankEntry(id: int, score: real, rank: nat)

  datatype QueryEntry = QueryEntry(dense: seq<RankEntry>, lexical: seq<RankEntry>)

  datatype Candidate = Candidate(id: int, retrieval: Option<real>, rerank: real, merged: Option<real>, kept: bool,
                                 rank: Option<nat>)

  datatype Blob<T> = Blob(retrieval: seq<QueryEntry>, fusion: seq<seq<RankEntry>>, scoredCandidates: nat,
                          candidates: seq<Candidate>, chunks: map<int, T>)

  function RankEntries(pairs: seq<Scored>): seq<RankEntry> {
    seq(|pairs|, i requires 0 <= i < |pairs| => RankEntry(pairs[i].id, pairs[i].score, i))
  }

  function QueryEntryOf(r: Funnel.Retrieval): QueryEntry {
    QueryEntry(RankEntries(r.dense), RankEntries(r.lexical))
  }

  // ---------------------------------------------------------------- candidates

  /** The final place and score of an id, if it survived; on a repeated id the last place wins. */
  function PlaceOf(id: int, reranked: seq<Scored>): Option<nat> {
    if reranked == [] then None
    else if reranked[|reranked| - 1].id == id then Some(|reranked| - 1)
    else PlaceOf(id, reranked[..|reranked| - 1])
  }

  function CandidateOf(x: Scored, fused: map<int, real>, reranked: seq<Scored>): Candidate {
    var place := PlaceOf(x.id, reranked);
    PlaceInRange(x.id, reranked);
    Candidate(x.id,
              if x.id in fused then Some(fused[x.id]) else None,
              x.score,
              if place.Some? then Some(reranked[place.value].score) else None,
              place.Some?,
              place)
  }

  lemma {:induction false} PlaceInRange(id: int, reranked: seq<Scored>)
    ensures var p := PlaceOf(id, reranked); p.Some? ==> p.value < |reranked| && reranked[p.value].id == id
    ensures PlaceOf(id, reranked).None? <==> id !in Ids(reranked)
  {
    if reranked == [] {
    } else {
      PlaceInRange(id, reranked[..|reranked| - 1]);
      assert reranked == reranked[..|reranked| - 1] + [reranked[|reranked| - 1]];
    }
  }

  /** The sort key (rank is None, rank or 0, -rerank_score). */
  predicate Earlier(a: Candidate, b: Candidate) {
    if a.rank.Some? then b.rank.None? || a.rank.value < b.rank.value || (a.rank == b.rank && a.rerank > b.rerank)
    else b.rank.None? && a.rerank > b.rerank
  }

  function SortCandidates(s: seq<Candidate>): seq<Candidate> {
    if s == [] then [] else InsertCandidate(SortCandidates(s[..|s| - 1]), s[|s| - 1])
  }

  /** Stable: `c` goes behind everything it is not strictly earlier than. */
  function InsertCandidate(s: seq<Candidate>, c: Candidate): seq<Candidate> {
    if s == [] || !Earlier(c, s[|s| - 1]) then s + [c] else InsertCandidate(s[..|s| - 1], c) + [s[|s| - 1]]
  }

  function Candidates(scored: seq<Scored>, fused: map<int, real>, reranked: seq<Scored>): seq<Candidate> {
    seq(|scored|, i requires 0 <= i < |scored| => CandidateOf(scored[i], fused, reranked))
  }

  ghost predicate Ordered(s: seq<Candidate>) {
    forall i, j :: 0 <= i < j < |s| ==> !Earlier(s[j], s[i])
  }

  ghost predicate Distinct(s: seq<Candidate>) {
    forall i, j :: 0 <= i < j < |s| ==> s[i].id != s[j].id
  }

  lemma {:induction false} InsertCandidateItems(s: seq<Candidate>, c: Candidate)
    ensures multiset(InsertCandidate(s, c)) == multiset(s) + multiset{c}
  {
    if s != [] && Earlier(c, s[|s| - 1]) {
      InsertCandidateItems(s[..|s| - 1], c);
      assert s == s[..|s| - 1] + [s[|s| - 1]];
    }
  }

  lemma {:induction false} InsertCandidateKeepsOrder(s: seq<Candidate>, c: Candidate)
    requires Ordered(s)
    ensures Ordered(InsertCandidate(s, c))
  {
    if s == [] || !Earlier(c, s[|s| - 1]) {
      forall i | 0 <= i < |s| ensures !Earlier(c, s[i]) {
        assert i < |s| - 1 ==> !Earlier(s[|s| - 1], s[i]);
      }
    } else {
      var front, last := s[..|s| - 1], s[|s| - 1];
      InsertCandidateKeepsOrder(front, c);
      InsertCandidateItems(front, c);
      var r := InsertCandidate(front, c);
      forall i | 0 <= i < |r| ensures !Earlier(last, r[i]) {
        assert r[i] in multiset(r);
        if r[i] != c {
          assert r[i] in front;
          var j :| 0 <= j < |front| && front[j] == r[i];
          assert !Earlier(s[|s| - 1], s[j]);
        }
      }
    }
  }

  lemma {:induction false} SortCandidatesItems(s: seq<Candidate>)
    ensures multiset(SortCandidates(s)) == multiset(s)
  {
    if s == [] {
    } else {
      var front, last := s[..|s| - 1], s[|s| - 1];
      SortCandidatesItems(front);
      InsertCandidateItems(SortCandidates(front), last);
      assert s == front + [last];
    }
  }

  lemma {:induction false} SortCandidatesOrders(s: seq<Candidate>)
    ensures Ordered(SortCandidates(s))
  {
    if s == [] {
    } else {
      SortCandidatesOrders(s[..|s| - 1]);
      InsertCandidateKeepsOrder(SortCandidates(s[..|s| - 1]), s[|s| - 1]);
    }
  }

  // ---------------------------------------------------------------- the builder

  function AllScored(lists: seq<seq<Scored>>): seq<Scored> {
    if lists == [] then [] else AllScored(lists[..|lists| - 1]) + lists[|lists| - 1]
  }

  function RetrievedIds(retrieval: seq<Funnel.Retrieval>): set<int> {
    set r, x | r in retrieval && x in r.dense + r.lexical :: x.id
  }

  function FusedIds(lists: seq<seq<Scored>>): set<int> {
    set l, x | l in lists && x in l :: x.id
  }

  /** Every chunk id that a reader of the trace meets in one of its stages. */
  function Mentioned(retrieval: seq<QueryEntry>, fusion: seq<seq<RankEntry>>, candidates: seq<Candidate>): set<int> {
    (set q, e | q in retrieval && e in q.dense + q.lexical :: e.id)
    + (set l, e | l in fusion && e in l :: e.id)
    + (set c | c in candidates :: c.id)
  }

  function QueryEntries(retrieval: seq<Funnel.Retrieval>): seq<QueryEntry> {
    seq(|retrieval|, i requires 0 <= i < |retrieval| => QueryEntryOf(retrieval[i]))
  }

  function FusionEntries(fused: seq<seq<Scored>>): seq<seq<RankEntry>> {
    seq(|fused|, i requires 0 <= i < |fused| => RankEntries(fused[i]))
  }

  lemma RankEntryIds(pairs: seq<Scored>, id: int)
    ensures (exists e :: e in RankEntries(pairs) && e.id == id) <==> (exists x :: x in pairs && x.id == id)
  {
    if x :| x in pairs && x.id == id {
      var i :| 0 <= i < |pairs| && pairs[i] == x;
      assert RankEntries(pairs)[i] in RankEntries(pairs);
    }
  }

  lemma RetrievalIsMentioned(retrieval: seq<Funnel.Retrieval>)
    ensures (set q, e | q in QueryEntries(retrieval) && e in q.dense + q.lexical :: e.id) == RetrievedIds(retrieval)
  {
    var met := set q, e | q in QueryEntries(retrieval) && e in q.dense + q.lexical :: e.id;
    forall id | id in RetrievedIds(retrieval) ensures id in met {
      var r, x :| r in retrieval && x in r.dense + r.lexical && x.id == id;
      var i :| 0 <= i < |retrieval| && retrieval[i] == r;
      assert QueryEntries(retrieval)[i] == QueryEntryOf(r);
      RankEntryIds(r.dense, id);
      RankEntryIds(r.lexical, id);
      assert x in r.dense || x in r.lexical;
      var e :| e in RankEntries(r.dense) + RankEntries(r.lexical) && e.id == id;
      assert QueryEntryOf(r) in QueryEntries(retrieval) && e in QueryEntryOf(r).dense + QueryEntryOf(r).lexical;
    }
    forall id | id in met ensures id in RetrievedIds(retrieval) {
      var q, e :| q in QueryEntries(retrieval) && e in q.dense + q.lexical && e.id == id;
      var i :| 0 <= i < |retrieval| && QueryEntries(retrieval)[i] == q;
      RankEntryIds(retrieval[i].dense, id);
      RankEntryIds(retrieval[i].lexical, id);
      assert e in RankEntries(retrieval[i].dense) || e in RankEntries(retrieval[i].lexical);
      var x :| (x in retrieval[i].dense || x in retrieval[i].lexical) && x.id == id;
      assert retrieval[i] in retrieval && x in retrieval[i].dense + retrieval[i].lexical;
    }
  }

  lemma FusionIsMentioned(fused: seq<seq<Scored>>)
    ensures (set l, e | l in FusionEntries(fused) && e in l :: e.id) == FusedIds(fused)
  {
    var met := set l, e | l in FusionEntries(fused) && e in l :: e.id;
    forall id | id in FusedIds(fused) ensures id in met {
      var l, x :| l in fused && x in l && x.id == id;
      var i :| 0 <= i < |fused| && fused[i] == l;
      RankEntryIds(l, id);
      var e :| e in RankEntries(l) && e.id == id;
      assert FusionEntries(fused)[i] == RankEntries(l) && RankEntries(l) in FusionEntries(fused);
    }
    forall id | id in met ensures id in FusedIds(fused) {
      var l, e :| l in FusionEntries(fused) && e in l && e.id == id;
      var i :| 0 <= i < |fused| && FusionEntries(fused)[i] == l;
      RankEntryIds(fused[i], id);
      var x :| x in fused[i] && x.id == id;
      assert fused[i] in fused;
    }
  }

  lemma CandidatesAreMentioned(scored: seq<Scored>, fused: map<int, real>, reranked: seq<Scored>)
    ensures (set c | c in SortCandidates(Candidates(scored, fused, reranked)) :: c.id) == Ids(scored)
  {
    var all := Candidates(scored, fused, reranked);
    SortedItems(all);
    forall id | id in Ids(scored) ensures exists c :: c in all && c.id == id {
      var x :| x in scored && x.id == id;
      var i :| 0 <= i < |scored| && scored[i] == x;
      assert all[i] in all && all[i].id == id;
    }
    forall c | c in all ensures c.id in Ids(scored) {
      var i :| 0 <= i < |all| && all[i] == c;
      assert scored[i] in scored;
    }
  }

  /** `build_pipeline_trace`; `scored` are the items of the score dictionary in insertion order. */
  method BuildPipelineTrace<T>(retrieval: seq<Funnel.Retrieval>, fused: seq<seq<Scored>>, scored: seq<Scored>,
                               reranked: seq<Scored>, hydrate: int -> T)
    returns (blob: Blob<T>)
    requires UniqueIds(scored)
    ensures blob.retrieval == QueryEntries(retrieval) && blob.fusion == FusionEntries(fused)
    ensures blob.scoredCandidates == |scored|
    ensures blob.candidates == SortCandidates(Candidates(scored, Best(AllScored(fused)), reranked))
    ensures blob.chunks.Keys == Mentioned(blob.retrieval, blob.fusion, blob.candidates) + Ids(reranked)
    ensures forall id :: id in blob.chunks ==> blob.chunks[id] == hydrate(id)
  {
    var fusedById := BestFused(fused);
    var candidates := CollectCandidates(scored, fusedById, reranked);
    var chunkIds := CollectRetrieved(retrieval);
    FusedKeys(fused);
    chunkIds := chunkIds + fusedById.Keys + Ids(scored) + Ids(reranked);
    RetrievalIsMentioned(retrieval);
    FusionIsMentioned(fused);
    CandidatesAreMentioned(scored, fusedById, reranked);
    blob := Blob(QueryEntries(retrieval), FusionEntries(fused), |scored|, SortCandidates(candidates),
      map id | id in chunkIds :: hydrate(id));
  }

  method CollectCandidates(scored: seq<Scored>, fused: map<int, real>, reranked: seq<Scored>)
    returns (candidates: seq<Candidate>)
    ensures candidates == Candidates(scored, fused, reranked)
  {
    candidates := [];
    for i := 0 to |scored|
      invariant candidates == Candidates(scored, fused, reranked)[..i]
    {
      candidates := candidates + [CandidateOf(scored[i], fused, reranked)];
    }
  }

  method BestFused(fused: seq<seq<Scored>>) returns (fusedById: map<int, real>)
    ensures fusedById == Best(AllScored(fused))
  {
    fusedById := map[];
    for i := 0 to |fused|
      invariant fusedById == Best(AllScored(fused[..i]))
    {
      fusedById := MaxInto(fusedById, AllScored(fused[..i]), fused[i]);
      assert fused[..i + 1][..i] == fused[..i];
    }
    assert fused[..|fused|] == fused;
  }

  method CollectRetrieved(retrieval: seq<Funnel.Retrieval>) returns (chunkIds: set<int>)
    ensures chunkIds == RetrievedIds(retrieval)
  {
    chunkIds := {};
    for i := 0 to |retrieval|
      invariant chunkIds == RetrievedIds(retrieval[..i])
    {
      RetrievedIdsStep(retrieval, i);
      chunkIds := chunkIds + Ids(retrieval[i].dense);
      chunkIds := chunkIds + Ids(retrieval[i].lexical);
    }
    assert retrieval[..|retrieval|] == retrieval;
  }

  /** One batch of the `fused_by_id` loop. */
  method MaxInto(m: map<int, real>, ghost before: seq<Scored>, batch: seq<Scored>) returns (r: map<int, real>)
    requires m == Best(before)
    ensures r == Best(before + batch)
  {
    r := m;
    assert before + batch[..0] == before;
    for i := 0 to |batch|
      invariant r == Best(before + batch[..i])
    {
      assert (before + batch[..i + 1])[..|before| + i] == before + batch[..i];
      MaxIsImprove(r, batch[i]);
      r := r[batch[i].id := MaxOr(r, batch[i])];
    }
    assert batch[..|batch|] == batch;
  }

  /** `max(d.get(id, -inf), score)` */
  function MaxOr(m: map<int, real>, x: Scored): real {
    if x.id in m && m[x.id] > x.score then m[x.id] else x.score
  }

  lemma MaxIsImprove(m: map<int, real>, x: Scored)
    ensures m[x.id := MaxOr(m, x)] == Improve(m, x)
  {
  }

  lemma RetrievedIdsStep(retrieval: seq<Funnel.Retrieval>, i: nat)
    requires i < |retrieval|
    ensures RetrievedIds(retrieval[..i + 1]) ==
            RetrievedIds(retrieval[..i]) + Ids(retrieval[i].dense) + Ids(retrieval[i].lexical)
  {
  }

  lemma FusedKeys(lists: seq<seq<Scored>>)
    ensures Best(AllScored(lists)).Keys == FusedIds(lists)
  {
    forall id ensures id in Best(AllScored(lists)) <==> id in FusedIds(lists) {
      BestIsMax(AllScored(lists));
      AllScoredItems(lists);
      if id in FusedIds(lists) {
        var l, x :| l in lists && x in l && x.id == id;
        assert x in AllScored(lists);
        var i :| 0 <= i < |AllScored(lists)| && AllScored(lists)[i] == x;
      }
      if id in Best(AllScored(lists)) {
        assert Scored(id, Best(AllScored(lists))[id]) in AllScored(lists);
      }
    }
  }

  lemma {:induction false} AllScoredItems(lists: seq<seq<Scored>>)
    ensures forall x :: x in AllScored(lists) <==> exists l :: l in lists && x in l
  {
    if lists == [] {
    } else {
      AllScoredItems(lists[..|lists| - 1]);
      assert lists == lists[..|lists| - 1] + [lists[|lists| - 1]];
    }
  }

  // ---------------------------------------------------------------- completeness and order

  lemma {:induction false} PlaceOfUnique(reranked: seq<Scored>, i: nat)
    requires UniqueIds(reranked) && i < |reranked|
    ensures PlaceOf(reranked[i].id, reranked) == Some(i)
  {
    if i < |reranked| - 1 {
      PlaceOfUnique(reranked[..|reranked| - 1], i);
    }
  }

  /** What sorting guarantees of a candidate list: ordered, no id twice, a rank is the id's place in the
      final list, and every place is taken. */
  ghost predicate Sound(c: seq<Candidate>, reranked: seq<Scored>) {
    && Ordered(c) && Distinct(c)
    && (forall i :: 0 <= i < |c| ==> c[i].kept == c[i].rank.Some?)
    && (forall i :: 0 <= i < |c| && c[i].kept ==>
          c[i].rank.value < |reranked| && reranked[c[i].rank.value].id == c[i].id)
    && (forall r :: 0 <= r < |reranked| ==> RankTaken(c, r))
  }

  ghost predicate RankTaken(c: seq<Candidate>, r: nat) {
    exists i :: 0 <= i < |c| && c[i].rank == Some(r)
  }

  lemma SortedItems(s: seq<Candidate>)
    ensures var c := SortCandidates(s); |c| == |s| && Ordered(c) && forall x :: x in c <==> x in s
    ensures Distinct(s) ==> Distinct(SortCandidates(s))
  {
    var c := SortCandidates(s);
    SortCandidatesItems(s);
    SortCandidatesOrders(s);
    assert |c| == |multiset(c)| == |multiset(s)| == |s|;
    forall x ensures x in c <==> x in s {
      assert x in c <==> x in multiset(c);
      assert x in s <==> x in multiset(s);
    }
    if Distinct(s) {
      PermutationKeepsDistinct(s, c);
    }
  }

  lemma SortedIsSound(scored: seq<Scored>, fused: map<int, real>, reranked: seq<Scored>)
    requires UniqueIds(scored) && UniqueIds(reranked) && Ids(reranked) <= Ids(scored)
    ensures Sound(SortCandidates(Candidates(scored, fused, reranked)), reranked)
  {
    var s := Candidates(scored, fused, reranked);
    var c := SortCandidates(s);
    SortedItems(s);
    forall i | 0 <= i < |c|
      ensures c[i].kept == c[i].rank.Some?
      ensures c[i].kept ==> c[i].rank.value < |reranked| && reranked[c[i].rank.value].id == c[i].id
    {
      assert c[i] in s;
      PlaceInRange(c[i].id, reranked);
    }
    forall r | 0 <= r < |reranked| ensures RankTaken(c, r) {
      PlaceOfUnique(reranked, r);
      assert reranked[r].id in Ids(scored);
      var x :| x in scored && x.id == reranked[r].id;
      var k :| 0 <= k < |scored| && scored[k] == x;
      assert s[k] in c;
      var i :| 0 <= i < |c| && c[i] == s[k];
      assert c[i].rank == Some(r);
    }
  }

  lemma PermutationKeepsDistinct(s: seq<Candidate>, c: seq<Candidate>)
    requires Distinct(s) && multiset(s) == multiset(c)
    ensures Distinct(c)
  {
    forall i, j | 0 <= i < j < |c| ensures c[i].id != c[j].id {
      if c[i].id == c[j].id {
        assert c[i] in multiset(s) && c[j] in multiset(s);
        var k :| 0 <= k < |s| && s[k] == c[i];
        var l :| 0 <= l < |s| && s[l] == c[j];
        assert k == l;
        TwiceInMultiset(c, i, j);
        OnceInDistinct(s, k);
      }
    }
  }

  lemma TwiceInMultiset(c: seq<Candidate>, i: nat, j: nat)
    requires i < j < |c| && c[i] == c[j]
    ensures multiset(c)[c[i]] >= 2
  {
    assert c == c[..j] + [c[j]] + c[j + 1..];
    assert c[i] in c[..j];
  }

  lemma OnceInDistinct(s: seq<Candidate>, k: nat)
    requires Distinct(s) && k < |s|
    ensures multiset(s)[s[k]] == 1
  {
    var x := s[k];
    assert s == s[..k] + [x] + s[k + 1..];
    assert x !in s[..k] && x !in s[k + 1..];
  }

  lemma RanksAreUnique(c: seq<Candidate>, reranked: seq<Scored>)
    requires Sound(c, reranked)
    ensures forall i, j :: 0 <= i < |c| && 0 <= j < |c| && c[i].kept && c[i].rank == c[j].rank ==> i == j
  {
  }

  /** Everything sorted before a kept candidate is kept at a smaller rank. */
  lemma SmallerRanksBefore(c: seq<Candidate>, reranked: seq<Scored>, i: nat, p: nat)
    requires Sound(c, reranked) && i < p < |c| && c[p].kept
    ensures c[i].kept && c[i].rank.value < c[p].rank.value
  {
    RanksAreUnique(c, reranked);
    assert !Earlier(c[p], c[i]);
  }

  lemma {:induction false} KeptComeFirst(c: seq<Candidate>, reranked: seq<Scored>, k: nat)
    requires Sound(c, reranked) && k <= |reranked|
    ensures k <= |c| && forall i :: 0 <= i < k ==> c[i].rank == Some(i)
  {
    if k == 0 {
    } else {
      KeptComeFirst(c, reranked, k - 1);
      RanksAreUnique(c, reranked);
      assert RankTaken(c, k - 1);
      var p :| 0 <= p < |c| && c[p].rank == Some(k - 1);
      if p > 0 {
        SmallerRanksBefore(c, reranked, p - 1, p);
        assert c[c[p - 1].rank.value].rank == c[p - 1].rank;
      }
      assert p == k - 1;
    }
  }

  /** The kept chunks come first, in final order with ranks 0, 1, ...; the others follow by non-increasing
      rerank score; together they are exactly the scored chunks.  Needs only that the final list repeats no
      id and was cut from the scored ids. */
  lemma TraceOrder(scored: seq<Scored>, fused: map<int, real>, reranked: seq<Scored>)
    requires UniqueIds(scored) && UniqueIds(reranked) && Ids(reranked) <= Ids(scored)
    ensures var c, k := SortCandidates(Candidates(scored, fused, reranked)), |reranked|;
            && |c| == |scored| && Distinct(c) && k <= |c|
            && multiset(c) == multiset(Candidates(scored, fused, reranked))
            && (forall i :: 0 <= i < k ==> c[i].id == reranked[i].id && c[i].kept && c[i].rank == Some(i))
            && (forall i :: k <= i < |c| ==> !c[i].kept)
            && (forall i, j :: k <= i < j < |c| ==> c[i].rerank >= c[j].rerank)
  {
    var c, k := SortCandidates(Candidates(scored, fused, reranked)), |reranked|;
    SortedItems(Candidates(scored, fused, reranked));
    SortCandidatesItems(Candidates(scored, fused, reranked));
    SortCandidatesOrders(Candidates(scored, fused, reranked));
    SortedIsSound(scored, fused, reranked);
    KeptComeFirst(c, reranked, k);
    DroppedComeLast(c, reranked);
  }

  lemma DroppedComeLast(c: seq<Candidate>, reranked: seq<Scored>)
    requires Sound(c, reranked) && |reranked| <= |c| && forall r :: 0 <= r < |reranked| ==> c[r].rank == Some(r)
    ensures forall i :: |reranked| <= i < |c| ==> !c[i].kept
    ensures forall i, j :: |reranked| <= i < j < |c| ==> c[i].rerank >= c[j].rerank
  {
  }

  /** Composed with the rerank stage: every chunk handed to the answer appears as kept exactly once, at its
      final rank. */
  lemma FinalChunksAreTraced(batches: seq<seq<Scored>>, score: int -> real, cfg: Rerank.Settings, scored: seq<Scored>,
                             fused: map<int, real>)
    requires UniqueIds(scored) && Ids(scored) == Rerank.CandidateIds(batches, cfg)
    ensures var final := Rerank.Reranked(batches, score, cfg);
            var c := SortCandidates(Candidates(scored, fused, final));
            && |final| <= |c| && Distinct(c)
            && (forall i :: 0 <= i < |final| ==> c[i].id == final[i].id && c[i].kept && c[i].rank == Some(i))
            && (forall i :: |final| <= i < |c| ==> !c[i].kept)
  {
    RerankResult.RerankedMeaning(batches, score, cfg);
    TraceOrder(scored, fused, Rerank.Reranked(batches, score, cfg));
  }
}
