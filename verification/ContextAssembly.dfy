/** From reranked chunks to the context of the answer prompt: src/meno_rag/stand/context.py and
    `_assemble_context`, `_select_fewshots` in src/meno_rag/stand/pipeline.py. */
module ContextAssembly {
  import opened Text
  import opened Fusion
  import opened Numbering

  // ---------------------------------------------------------------- chunks to documents

  datatype Document = Document(title: string, urls: seq<string>, quality: real, chunkCount: nat)

  datatype Location = Location(doc: int, local: int)

  datatype Selected = Selected(doc: int, relevance: real, chunks: seq<int>)

  datatype Corpus = Corpus(documents: seq<Document>, chunkMapping: map<int, Location>)

  /** `global_chunk_index_to_local`; None stands for its ValueErrors. */
  function Locate(chunk: int, corpus: Corpus): Option<Location> {
    if chunk !in corpus.chunkMapping then None
    else
      var at := corpus.chunkMapping[chunk];
      if at.doc < 0 || at.doc >= |corpus.documents| then None
      else if at.local < 0 || at.local >= corpus.documents[at.doc].chunkCount then None
      else Some(at)
  }

  ghost predicate Mapped(chunks: seq<Scored>, corpus: Corpus) {
    forall x :: x in chunks ==> Locate(x.id, corpus).Some?
  }

  datatype Hit = Hit(local: int, score: real)

  /** The chunks of document `d` among `chunks`, in order. */
  ghost function Hits(d: int, chunks: seq<Scored>, corpus: Corpus): seq<Hit>
    requires Mapped(chunks, corpus)
  {
    if chunks == [] then []
    else
      var front, x := Hits(d, chunks[..|chunks| - 1], corpus), chunks[|chunks| - 1];
      var at := Locate(x.id, corpus).value;
      if at.doc == d then front + [Hit(at.local, x.score)] else front
  }

  /** Where document `d` first has a chunk, or past the end. */
  ghost function FirstHit(d: int, chunks: seq<Scored>, corpus: Corpus): (i: nat)
    requires Mapped(chunks, corpus)
    ensures i < |chunks| <==> Hits(d, chunks, corpus) != []
    ensures i < |chunks| ==> Locate(chunks[i].id, corpus).value.doc == d
    ensures forall k :: 0 <= k < i && k < |chunks| ==> Locate(chunks[k].id, corpus).value.doc != d
  {
    if chunks == [] then 0
    else
      var front := FirstHit(d, chunks[..|chunks| - 1], corpus);
      if front < |chunks| - 1 || Locate(chunks[|chunks| - 1].id, corpus).value.doc == d then front else |chunks|
  }

  /** The entry lists exactly the document's chunks, and carries the largest of their scores. */
  ghost predicate EntryFor(e: Selected, hits: seq<Hit>) {
    && |e.chunks| == |hits| > 0
    && (forall i :: 0 <= i < |hits| ==> e.chunks[i] == hits[i].local && hits[i].score <= e.relevance)
    && (exists i :: 0 <= i < |hits| && hits[i].score == e.relevance)
  }

  ghost predicate GoodDocument(d: int, corpus: Corpus, minQuality: real) {
    0 <= d < |corpus.documents| && corpus.documents[d].quality >= minQuality
  }

  /** One entry per document of sufficient quality that has a chunk, in the order of their first chunks. */
  ghost predicate SelectedFrom(entries: seq<Selected>, chunks: seq<Scored>, corpus: Corpus, minQuality: real)
    requires Mapped(chunks, corpus)
  {
    && DistinctDocuments(entries)
    && InFirstHitOrder(entries, chunks, corpus)
    && (forall i :: 0 <= i < |entries| ==> EntryIsRight(entries[i], chunks, corpus, minQuality))
    && (forall d :: GoodDocument(d, corpus, minQuality) && Hits(d, chunks, corpus) != [] ==> HasEntry(entries, d))
  }

  ghost predicate InFirstHitOrder(entries: seq<Selected>, chunks: seq<Scored>, corpus: Corpus)
    requires Mapped(chunks, corpus)
  {
    forall i, j :: 0 <= i < j < |entries| ==>
      FirstHit(entries[i].doc, chunks, corpus) < FirstHit(entries[j].doc, chunks, corpus)
  }

  ghost predicate DistinctDocuments(entries: seq<Selected>) {
    forall i, j :: 0 <= i < j < |entries| ==> entries[i].doc != entries[j].doc
  }

  ghost predicate EntryIsRight(e: Selected, chunks: seq<Scored>, corpus: Corpus, minQuality: real)
    requires Mapped(chunks, corpus)
  {
    GoodDocument(e.doc, corpus, minQuality) && EntryFor(e, Hits(e.doc, chunks, corpus))
  }

  ghost predicate HasEntry(entries: seq<Selected>, d: int) {
    exists i :: 0 <= i < |entries| && entries[i].doc == d
  }

  /** The dictionary's entry for document `d`, or past the end. */
  function IndexOf(entries: seq<Selected>, d: int): (j: nat)
    ensures j <= |entries| && (j < |entries| ==> entries[j].doc == d)
    ensures forall k :: 0 <= k < j ==> entries[k].doc != d
  {
    if entries == [] || entries[0].doc == d then 0 else IndexOf(entries[1..], d) + 1
  }

  /** One accepted chunk: its document's entry at place `j` is extended, or a new one is added behind the others. */
  ghost predicate Stepped(before: seq<Selected>, after: seq<Selected>, at: Location, score: real, j: nat) {
    && j <= |before| && (forall k :: 0 <= k < j ==> before[k].doc != at.doc)
    && (j < |before| ==> before[j].doc == at.doc)
    && after == if j < |before|
                then before[j := Selected(at.doc, Max(before[j].relevance, score), before[j].chunks + [at.local])]
                else before + [Selected(at.doc, score, [at.local])]
  }

  /** The update of the dictionary for a chunk of a document of sufficient quality. */
  method Accept(entries: seq<Selected>, at: Location, score: real) returns (next: seq<Selected>, ghost j: nat)
    ensures Stepped(entries, next, at, score, j)
  {
    var k := IndexOf(entries, at.doc);
    j := k;
    if k < |entries| {
      var e := entries[k];
      var relevance := if score > e.relevance then score else e.relevance;
      next := entries[k := Selected(e.doc, relevance, e.chunks + [at.local])];
    } else {
      next := entries + [Selected(at.doc, score, [at.local])];
    }
  }

  /** `prepare_relevant_documents`: the dictionary of selected documents in insertion order. */
  method PrepareRelevantDocuments(chunks: seq<Scored>, corpus: Corpus, minQuality: real)
    returns (selected: Option<seq<Selected>>)
    ensures selected.Some? <==> Mapped(chunks, corpus)
    ensures selected.Some? ==> SelectedFrom(selected.value, chunks, corpus, minQuality)
  {
    var entries: seq<Selected> := [];
    for i := 0 to |chunks|
      invariant Prepared(entries, chunks[..i], corpus, minQuality)
    {
      var at := Locate(chunks[i].id, corpus);
      if at.None? {
        UnmappedChunk(chunks, corpus, i);
        return None;
      }
      ghost var before, j := entries, 0;
      if corpus.documents[at.value.doc].quality >= minQuality {
        entries, j := Accept(entries, at.value, chunks[i].score);
      }
      ChunkStep(before, entries, chunks, corpus, minQuality, i, j);
    }
    assert chunks[..|chunks|] == chunks;
    selected := Some(entries);
  }

  ghost predicate Prepared(entries: seq<Selected>, chunks: seq<Scored>, corpus: Corpus, minQuality: real) {
    Mapped(chunks, corpus) && SelectedFrom(entries, chunks, corpus, minQuality)
  }

  lemma UnmappedChunk(chunks: seq<Scored>, corpus: Corpus, i: nat)
    requires i < |chunks| && Locate(chunks[i].id, corpus).None?
    ensures !Mapped(chunks, corpus)
  {
    assert chunks[i] in chunks;
  }

  /** One round of the loop. */
  lemma ChunkStep(before: seq<Selected>, after: seq<Selected>, chunks: seq<Scored>, corpus: Corpus, minQuality: real,
                  i: nat, j: nat)
    requires i < |chunks| && Prepared(before, chunks[..i], corpus, minQuality)
    requires Locate(chunks[i].id, corpus).Some?
    requires var at := Locate(chunks[i].id, corpus).value;
             if corpus.documents[at.doc].quality >= minQuality then Stepped(before, after, at, chunks[i].score, j)
             else after == before
    ensures Prepared(after, chunks[..i + 1], corpus, minQuality)
  {
    assert chunks[..i + 1] == chunks[..i] + [chunks[i]];
    if corpus.documents[Locate(chunks[i].id, corpus).value.doc].quality >= minQuality {
      SelectStep(before, after, chunks[..i], chunks[i], corpus, minQuality, j);
    } else {
      SkipStep(before, chunks[..i], chunks[i], corpus, minQuality);
    }
  }

  lemma HitsAppend(d: int, chunks: seq<Scored>, x: Scored, corpus: Corpus)
    requires Mapped(chunks, corpus) && Locate(x.id, corpus).Some?
    ensures Mapped(chunks + [x], corpus)
    ensures var at := Locate(x.id, corpus).value;
            Hits(d, chunks + [x], corpus) ==
              if at.doc == d then Hits(d, chunks, corpus) + [Hit(at.local, x.score)] else Hits(d, chunks, corpus)
  {
  }

  lemma SkipStep(entries: seq<Selected>, chunks: seq<Scored>, x: Scored, corpus: Corpus, minQuality: real)
    requires Mapped(chunks, corpus) && Locate(x.id, corpus).Some?
    requires SelectedFrom(entries, chunks, corpus, minQuality)
    requires !GoodDocument(Locate(x.id, corpus).value.doc, corpus, minQuality)
    ensures Mapped(chunks + [x], corpus) && SelectedFrom(entries, chunks + [x], corpus, minQuality)
  {
    HitsAppend(0, chunks, x, corpus);
    forall d | d != Locate(x.id, corpus).value.doc
      ensures Hits(d, chunks + [x], corpus) == Hits(d, chunks, corpus)
    {
      HitsAppend(d, chunks, x, corpus);
    }
    forall i | 0 <= i < |entries|
      ensures EntryIsRight(entries[i], chunks + [x], corpus, minQuality)
      ensures FirstHit(entries[i].doc, chunks + [x], corpus) == FirstHit(entries[i].doc, chunks, corpus)
    {
      assert EntryIsRight(entries[i], chunks, corpus, minQuality);
      FirstHitAppend(entries[i].doc, chunks, x, corpus);
    }
  }

  lemma SelectStep(before: seq<Selected>, after: seq<Selected>, chunks: seq<Scored>, x: Scored, corpus: Corpus,
                   minQuality: real, j: nat)
    requires Mapped(chunks, corpus) && Locate(x.id, corpus).Some?
    requires SelectedFrom(before, chunks, corpus, minQuality)
    requires GoodDocument(Locate(x.id, corpus).value.doc, corpus, minQuality)
    requires Stepped(before, after, Locate(x.id, corpus).value, x.score, j)
    ensures Mapped(chunks + [x], corpus) && SelectedFrom(after, chunks + [x], corpus, minQuality)
  {
    HitsAppend(0, chunks, x, corpus);
    OrderStep(before, after, chunks, x, corpus, minQuality, j);
    EntriesStep(before, after, chunks, x, corpus, minQuality, j);
    forall d | GoodDocument(d, corpus, minQuality) && Hits(d, chunks + [x], corpus) != []
      ensures HasEntry(after, d)
    {
      HitsAppend(d, chunks, x, corpus);
      HasEntryStep(before, after, Locate(x.id, corpus).value, x.score, j, d);
    }
  }

  lemma HasEntryStep(before: seq<Selected>, after: seq<Selected>, at: Location, score: real, j: nat, d: int)
    requires Stepped(before, after, at, score, j) && (d == at.doc || HasEntry(before, d))
    ensures HasEntry(after, d)
  {
    assert after[j].doc == at.doc;
    if d != at.doc {
      var i :| 0 <= i < |before| && before[i].doc == d;
      assert after[i].doc == d;
    }
  }

  lemma FirstHitAppend(d: int, chunks: seq<Scored>, x: Scored, corpus: Corpus)
    requires Mapped(chunks, corpus) && Locate(x.id, corpus).Some? && Mapped(chunks + [x], corpus)
    ensures var i := FirstHit(d, chunks, corpus);
            FirstHit(d, chunks + [x], corpus)
            == if i < |chunks| || Locate(x.id, corpus).value.doc == d then i else |chunks| + 1
  {
    assert (chunks + [x])[..|chunks|] == chunks;
  }

  lemma FirstHitBounds(d: int, chunks: seq<Scored>, corpus: Corpus)
    requires Mapped(chunks, corpus)
    ensures FirstHit(d, chunks, corpus) <= |chunks|
  {
  }

  lemma StepKeepsDocuments(before: seq<Selected>, after: seq<Selected>, at: Location, score: real, j: nat)
    requires Stepped(before, after, at, score, j) && DistinctDocuments(before)
    ensures DistinctDocuments(after) && |before| <= |after| <= |before| + 1
    ensures forall i :: 0 <= i < |before| ==> after[i].doc == before[i].doc
    ensures |after| > |before| ==> after[|before|].doc == at.doc && !HasEntry(before, at.doc)
  {
  }

  lemma OrderStep(before: seq<Selected>, after: seq<Selected>, chunks: seq<Scored>, x: Scored, corpus: Corpus,
                  minQuality: real, j: nat)
    requires Mapped(chunks, corpus) && Locate(x.id, corpus).Some? && Mapped(chunks + [x], corpus)
    requires SelectedFrom(before, chunks, corpus, minQuality)
    requires GoodDocument(Locate(x.id, corpus).value.doc, corpus, minQuality)
    requires Stepped(before, after, Locate(x.id, corpus).value, x.score, j)
    ensures DistinctDocuments(after) && InFirstHitOrder(after, chunks + [x], corpus)
  {
    StepKeepsDocuments(before, after, Locate(x.id, corpus).value, x.score, j);
    forall i | 0 <= i < |after|
      ensures FirstHit(after[i].doc, chunks + [x], corpus) == FirstHit(after[i].doc, chunks, corpus)
      ensures FirstHit(after[i].doc, chunks, corpus) < |chunks| <==> i < |before|
      ensures FirstHit(after[i].doc, chunks, corpus) <= |chunks|
    {
      FirstHitAppend(after[i].doc, chunks, x, corpus);
      FirstHitBounds(after[i].doc, chunks, corpus);
      if i < |before| {
        assert EntryIsRight(before[i], chunks, corpus, minQuality);
      } else {
        assert !HasEntry(before, after[i].doc);
      }
    }
  }

  lemma EntriesStep(before: seq<Selected>, after: seq<Selected>, chunks: seq<Scored>, x: Scored, corpus: Corpus,
                    minQuality: real, j: nat)
    requires Mapped(chunks, corpus) && Locate(x.id, corpus).Some? && Mapped(chunks + [x], corpus)
    requires SelectedFrom(before, chunks, corpus, minQuality)
    requires GoodDocument(Locate(x.id, corpus).value.doc, corpus, minQuality)
    requires Stepped(before, after, Locate(x.id, corpus).value, x.score, j)
    ensures forall i :: 0 <= i < |after| ==> EntryIsRight(after[i], chunks + [x], corpus, minQuality)
  {
    TouchedEntry(before, after, chunks, x, corpus, minQuality, j);
    forall i | 0 <= i < |after| ensures EntryIsRight(after[i], chunks + [x], corpus, minQuality) {
      if i != j {
        assert after[i] == before[i] && EntryIsRight(before[i], chunks, corpus, minQuality);
        assert j < |before| ==> before[i].doc != before[j].doc;
        HitsAppend(after[i].doc, chunks, x, corpus);
      }
    }
  }

  lemma TouchedEntry(before: seq<Selected>, after: seq<Selected>, chunks: seq<Scored>, x: Scored, corpus: Corpus,
                     minQuality: real, j: nat)
    requires Mapped(chunks, corpus) && Locate(x.id, corpus).Some? && Mapped(chunks + [x], corpus)
    requires SelectedFrom(before, chunks, corpus, minQuality)
    requires GoodDocument(Locate(x.id, corpus).value.doc, corpus, minQuality)
    requires Stepped(before, after, Locate(x.id, corpus).value, x.score, j)
    ensures EntryIsRight(after[j], chunks + [x], corpus, minQuality)
  {
    var at := Locate(x.id, corpus).value;
    HitsAppend(at.doc, chunks, x, corpus);
    if j < |before| {
      assert EntryIsRight(before[j], chunks, corpus, minQuality);
      EntryGrows(before[j], Hits(at.doc, chunks, corpus), Hit(at.local, x.score));
    } else {
      assert !HasEntry(before, at.doc);
      assert Hits(at.doc, chunks + [x], corpus)[0] == Hit(at.local, x.score);
    }
  }

  lemma EntryGrows(e: Selected, hits: seq<Hit>, h: Hit)
    requires EntryFor(e, hits)
    ensures EntryFor(Selected(e.doc, Max(e.relevance, h.score), e.chunks + [h.local]), hits + [h])
  {
    var i :| 0 <= i < |hits| && hits[i].score == e.relevance;
    assert (hits + [h])[i] == hits[i] && (hits + [h])[|hits|] == h;
  }

  // ---------------------------------------------------------------- the selection is determined

  lemma EntryIsDetermined(e: Selected, f: Selected, chunks: seq<Scored>, corpus: Corpus, minQuality: real)
    requires Mapped(chunks, corpus) && e.doc == f.doc
    requires EntryIsRight(e, chunks, corpus, minQuality) && EntryIsRight(f, chunks, corpus, minQuality)
    ensures e == f
  {
    assert e.chunks == f.chunks;
  }

  ghost predicate Ascends(s: seq<int>, key: int -> int) {
    forall i, j :: 0 <= i < j < |s| ==> key(s[i]) < key(s[j])
  }

  ghost predicate SameItems(a: seq<int>, b: seq<int>) {
    (forall i :: 0 <= i < |a| ==> a[i] in b) && (forall i :: 0 <= i < |b| ==> b[i] in a)
  }

  /** Only one order of given items ascends strictly. */
  lemma {:induction false} AscendingIsUnique(a: seq<int>, b: seq<int>, key: int -> int)
    requires Ascends(a, key) && Ascends(b, key) && SameItems(a, b)
    ensures a == b
  {
    SameEmpty(a, b);
    if a == [] {
    } else {
      SameLast(a, b, key);
      SameFront(a, b, key);
      AscendingIsUnique(a[..|a| - 1], b[..|b| - 1], key);
      SameWhole(a, b);
    }
  }

  lemma SameEmpty(a: seq<int>, b: seq<int>)
    requires SameItems(a, b)
    ensures a == [] <==> b == []
  {
    assert a != [] ==> a[0] in b;
    assert b != [] ==> b[0] in a;
  }

  lemma SameWhole(a: seq<int>, b: seq<int>)
    requires a != [] && b != [] && a[..|a| - 1] == b[..|b| - 1] && a[|a| - 1] == b[|b| - 1]
    ensures a == b
  {
    assert a == a[..|a| - 1] + [a[|a| - 1]] && b == b[..|b| - 1] + [b[|b| - 1]];
  }

  lemma SameFront(a: seq<int>, b: seq<int>, key: int -> int)
    requires Ascends(a, key) && Ascends(b, key) && SameItems(a, b)
    requires a != [] && b != [] && a[|a| - 1] == b[|b| - 1]
    ensures SameItems(a[..|a| - 1], b[..|b| - 1]) && Ascends(a[..|a| - 1], key) && Ascends(b[..|b| - 1], key)
  {
    FrontInFront(a, b, key);
    FrontInFront(b, a, key);
  }

  lemma SameLast(a: seq<int>, b: seq<int>, key: int -> int)
    requires Ascends(a, key) && Ascends(b, key) && a != [] && SameItems(a, b)
    ensures b != [] && a[|a| - 1] == b[|b| - 1]
  {
    assert a[|a| - 1] in b && b[|b| - 1] in a;
    var k :| 0 <= k < |b| && b[k] == a[|a| - 1];
    var l :| 0 <= l < |a| && a[l] == b[|b| - 1];
  }

  lemma FrontInFront(a: seq<int>, b: seq<int>, key: int -> int)
    requires Ascends(a, key) && SameItems(a, b) && a != [] && b != [] && a[|a| - 1] == b[|b| - 1]
    ensures forall i :: 0 <= i < |a| - 1 ==> a[i] in b[..|b| - 1]
  {
    forall i | 0 <= i < |a| - 1 ensures a[i] in b[..|b| - 1] {
      assert key(a[i]) < key(a[|a| - 1]);
      var k :| 0 <= k < |b| && b[k] == a[i];
      assert b[..|b| - 1][k] == a[i];
    }
  }

  ghost function Documents(entries: seq<Selected>): seq<int> {
    seq(|entries|, i requires 0 <= i < |entries| => entries[i].doc)
  }

  ghost function FirstHits(chunks: seq<Scored>, corpus: Corpus): int -> int
    requires Mapped(chunks, corpus)
  {
    (d: int) => FirstHit(d, chunks, corpus)
  }

  /** The selected documents are those of sufficient quality with a chunk. */
  lemma SelectedDocuments(entries: seq<Selected>, chunks: seq<Scored>, corpus: Corpus, minQuality: real)
    requires Mapped(chunks, corpus) && SelectedFrom(entries, chunks, corpus, minQuality)
    ensures Ascends(Documents(entries), FirstHits(chunks, corpus))
    ensures forall i :: 0 <= i < |Documents(entries)| ==>
              var d := Documents(entries)[i]; GoodDocument(d, corpus, minQuality) && Hits(d, chunks, corpus) != []
    ensures forall d :: GoodDocument(d, corpus, minQuality) && Hits(d, chunks, corpus) != [] ==> d in Documents(entries)
  {
    forall i | 0 <= i < |entries|
      ensures GoodDocument(entries[i].doc, corpus, minQuality) && Hits(entries[i].doc, chunks, corpus) != []
    {
      assert EntryIsRight(entries[i], chunks, corpus, minQuality);
    }
    forall d | GoodDocument(d, corpus, minQuality) && Hits(d, chunks, corpus) != []
      ensures d in Documents(entries)
    {
      assert HasEntry(entries, d);
      var i :| 0 <= i < |entries| && entries[i].doc == d;
      assert Documents(entries)[i] == d;
    }
  }

  /** The chunks fix the selection, its order included, and with it the order of equally relevant documents. */
  lemma SelectionIsUnique(a: seq<Selected>, b: seq<Selected>, chunks: seq<Scored>, corpus: Corpus, minQuality: real)
    requires Mapped(chunks, corpus)
    requires SelectedFrom(a, chunks, corpus, minQuality) && SelectedFrom(b, chunks, corpus, minQuality)
    ensures a == b
  {
    SelectedDocuments(a, chunks, corpus, minQuality);
    SelectedDocuments(b, chunks, corpus, minQuality);
    AscendingIsUnique(Documents(a), Documents(b), FirstHits(chunks, corpus));
    assert |a| == |Documents(a)| == |b|;
    forall k | 0 <= k < |a| ensures a[k] == b[k] {
      assert Documents(a)[k] == Documents(b)[k];
      assert EntryIsRight(a[k], chunks, corpus, minQuality) && EntryIsRight(b[k], chunks, corpus, minQuality);
      EntryIsDetermined(a[k], b[k], chunks, corpus, minQuality);
    }
  }

  // ---------------------------------------------------------------- document order

  ghost predicate AscendingRelevance(s: seq<Selected>) {
    forall i, j :: 0 <= i < j < |s| ==> s[i].relevance <= s[j].relevance
  }

  /** Python's stable `sorted(..., key=relevance)`. */
  function SortByRelevance(s: seq<Selected>): seq<Selected> {
    if s == [] then [] else InsertByRelevance(SortByRelevance(s[..|s| - 1]), s[|s| - 1])
  }

  /** Inserts `e` behind every entry of the same relevance. */
  function InsertByRelevance(s: seq<Selected>, e: Selected): seq<Selected> {
    if s == [] || s[|s| - 1].relevance <= e.relevance then s + [e]
    else InsertByRelevance(s[..|s| - 1], e) + [s[|s| - 1]]
  }

  lemma {:induction false} InsertByRelevanceItems(s: seq<Selected>, e: Selected)
    ensures multiset(InsertByRelevance(s, e)) == multiset(s) + multiset{e}
  {
    if s != [] && s[|s| - 1].relevance > e.relevance {
      InsertByRelevanceItems(s[..|s| - 1], e);
      assert s == s[..|s| - 1] + [s[|s| - 1]];
    }
  }

  lemma {:induction false} InsertByRelevanceSorts(s: seq<Selected>, e: Selected)
    requires AscendingRelevance(s)
    ensures AscendingRelevance(InsertByRelevance(s, e))
  {
    if s != [] && s[|s| - 1].relevance > e.relevance {
      var front, last := s[..|s| - 1], s[|s| - 1];
      InsertByRelevanceSorts(front, e);
      InsertByRelevanceItems(front, e);
      var r := InsertByRelevance(front, e);
      forall i | 0 <= i < |r| ensures r[i].relevance <= last.relevance {
        assert r[i] in multiset(r);
        assert r[i] in front || r[i] == e;
      }
    }
  }

  lemma LastItem(s: seq<Selected>)
    requires s != []
    ensures multiset(s) == multiset(s[..|s| - 1]) + multiset{s[|s| - 1]}
  {
    assert s == s[..|s| - 1] + [s[|s| - 1]];
  }

  lemma {:induction false} SortByRelevanceItems(s: seq<Selected>)
    ensures multiset(SortByRelevance(s)) == multiset(s)
  {
    if s == [] {
    } else {
      SortByRelevanceItems(s[..|s| - 1]);
      InsertByRelevanceItems(SortByRelevance(s[..|s| - 1]), s[|s| - 1]);
      LastItem(s);
    }
  }

  lemma {:induction false} SortByRelevanceSorts(s: seq<Selected>)
    ensures AscendingRelevance(SortByRelevance(s)) && multiset(SortByRelevance(s)) == multiset(s)
  {
    SortByRelevanceItems(s);
    if s == [] {
    } else {
      SortByRelevanceSorts(s[..|s| - 1]);
      InsertByRelevanceSorts(SortByRelevance(s[..|s| - 1]), s[|s| - 1]);
    }
  }

  // ---------------------------------------------------------------- greedy packing

  function Sum(costs: seq<nat>): nat {
    if costs == [] then 0 else Sum(costs[..|costs| - 1]) + costs[|costs| - 1]
  }

  /** `k` items are kept: the longest prefix whose total stays within the budget, but at least one item. */
  ghost predicate GreedyCut(costs: seq<nat>, budget: int, k: nat) {
    && k <= |costs|
    && (costs != [] ==> k >= 1)
    && (k > 1 ==> Sum(costs[..k]) <= budget)
    && (0 < k < |costs| ==> Sum(costs[..k + 1]) > budget)
  }

  lemma {:induction false} SumMonotone(costs: seq<nat>, i: nat, j: nat)
    requires i <= j <= |costs|
    ensures Sum(costs[..i]) <= Sum(costs[..j])
  {
    if i < j {
      SumMonotone(costs, i, j - 1);
      assert costs[..j][..j - 1] == costs[..j - 1];
    }
  }

  /** The greedy cut is determined by the costs and the budget. */
  lemma GreedyCutIsUnique(costs: seq<nat>, budget: int, k: nat, l: nat)
    requires GreedyCut(costs, budget, k) && GreedyCut(costs, budget, l)
    ensures k == l
  {
    if k < l {
      SumMonotone(costs, k + 1, l);
    } else if l < k {
      SumMonotone(costs, l + 1, k);
    }
  }

  // ---------------------------------------------------------------- packing documents

  datatype Source = Source(title: string, urls: seq<string>)

  datatype Row = Row(title: string, url: string)

  /** A piece and the separator in front of it. */
  function PieceCosts(texts: seq<string>): seq<nat> {
    seq(|texts|, i requires 0 <= i < |texts| => |Piece(i + 1, texts[i])| + if i == 0 then 0 else 2)
  }

  /** The running total is the length of the joined context. */
  lemma {:induction false} ContextLength(texts: seq<string>)
    ensures |Context(texts)| == Sum(PieceCosts(texts))
  {
    if texts == [] {
    } else {
      var front, last := texts[..|texts| - 1], texts[|texts| - 1];
      ContextLength(front);
      ContextAppend(front, last);
      assert texts == front + [last];
      assert PieceCosts(texts)[..|front|] == PieceCosts(front);
    }
  }

  lemma PieceCostsPrefix(texts: seq<string>, k: nat)
    requires k <= |texts|
    ensures PieceCosts(texts[..k]) == PieceCosts(texts)[..k]
  {
  }

  function SourceRows(source: Source): seq<Row> {
    if source.urls == [] then [Row(source.title, "")]
    else seq(|source.urls|, i requires 0 <= i < |source.urls| => Row(source.title, source.urls[i]))
  }

  function FlatRows(sources: seq<Source>): seq<Row> {
    if sources == [] then [] else FlatRows(sources[..|sources| - 1]) + SourceRows(sources[|sources| - 1])
  }

  /** `flatten_sources`: a row per URL, or one row with an empty URL. */
  method FlattenSources(sources: seq<Source>) returns (rows: seq<Row>)
    ensures rows == FlatRows(sources)
  {
    rows := [];
    for i := 0 to |sources|
      invariant rows == FlatRows(sources[..i])
    {
      assert sources[..i + 1][..i] == sources[..i];
      ghost var before := rows;
      if sources[i].urls != [] {
        for j := 0 to |sources[i].urls|
          invariant rows == before + SourceRows(sources[i])[..j]
        {
          rows := rows + [Row(sources[i].title, sources[i].urls[j])];
        }
      } else {
        rows := rows + [Row(sources[i].title, "")];
      }
      assert rows == before + SourceRows(sources[i]);
    }
    assert sources[..|sources|] == sources;
  }

  /** The packing loop of `_assemble_context`: texts and sources are cut at the same place, the longest
      prefix of the given order whose joined context fits the budget (but at least one document). */
  method PackDocuments(texts: seq<string>, sources: seq<Source>, budget: int)
    returns (context: string, rows: seq<Row>, kept: nat)
    requires |texts| == |sources|
    ensures GreedyCut(PieceCosts(texts), budget, kept)
    ensures context == Context(texts[..kept]) && rows == FlatRows(sources[..kept])
  {
    var keptContext: seq<string>, keptSources: seq<Source> := [], [];
    var total, idx := 0, 0;
    ghost var costs := PieceCosts(texts);
    while idx < |texts|
      invariant 0 <= idx <= |texts|
      invariant keptContext == Pieces(texts[..idx]) && keptSources == sources[..idx]
      invariant total == Sum(costs[..idx])
      invariant idx > 1 ==> total <= budget
    {
      assert costs[..idx + 1][..idx] == costs[..idx];
      var piece := Piece(idx + 1, texts[idx]);
      var extra := |piece| + if keptContext != [] then 2 else 0;
      if keptContext != [] && total + extra > budget {
        break;
      }
      assert Pieces(texts[..idx + 1]) == Pieces(texts[..idx]) + [piece];
      keptContext := keptContext + [piece];
      keptSources := keptSources + [sources[idx]];
      total := total + extra;
      idx := idx + 1;
    }
    kept := idx;
    context := Join("\n\n", keptContext);
    rows := FlattenSources(keptSources);
  }

  /** `_assemble_context`; `render` is the unseen document renderer, and `ok` is false when a chunk is not
      covered by the mapping (a ValueError).  The order, the cut and with them the whole result are determined
      (`SelectionIsUnique`, `GreedyCutIsUnique`); `CutKeepsTheBestIff` says what the ascending order costs. */
  method AssembleContext(chunks: seq<Scored>, corpus: Corpus, minQuality: real, render: (int, seq<int>) -> string,
                         budget: int)
    returns (context: string, rows: seq<Row>, ok: bool, order: seq<Selected>, kept: nat)
    ensures ok <==> Mapped(chunks, corpus)
    ensures ok ==> kept <= |order| && AscendingRelevance(order)
    ensures ok ==> exists entries ::
                     SelectedFrom(entries, chunks, corpus, minQuality) && order == SortByRelevance(entries)
    ensures ok ==> var texts := Rendered(order, render);
                   GreedyCut(PieceCosts(texts), budget, kept) && context == Context(texts[..kept])
    ensures ok ==> rows == FlatRows(SourcesOf(order, corpus)[..kept])
  {
    context, rows, ok, order, kept := "", [], true, [], 0;
    if chunks == [] {
      assert SelectedFrom([], chunks, corpus, minQuality);
      assert SortByRelevance([]) == [];
      return;
    }
    var selected := PrepareRelevantDocuments(chunks, corpus, minQuality);
    if selected.None? {
      ok := false;
      return;
    }
    var ordered := SortByRelevance(selected.value);
    SortByRelevanceSorts(selected.value);
    order := ordered;
    context, rows, kept := PackDocuments(Rendered(ordered, render), SourcesOf(ordered, corpus), budget);
  }

  function Rendered(order: seq<Selected>, render: (int, seq<int>) -> string): seq<string> {
    seq(|order|, i requires 0 <= i < |order| => render(order[i].doc, order[i].chunks))
  }

  function SourcesOf(order: seq<Selected>, corpus: Corpus): seq<Source> {
    seq(|order|, i requires 0 <= i < |order| => SourceOf(order[i].doc, corpus))
  }

  function SourceOf(d: int, corpus: Corpus): Source {
    if 0 <= d < |corpus.documents| then Source(corpus.documents[d].title, NormalizedUrls(corpus.documents[d].urls))
    else Source("", [])
  }

  /** `normalize_urls` on a list: stripped, non-empty, without repetitions. */
  function NormalizedUrls(urls: seq<string>): seq<string> {
    if urls == [] then []
    else
      var front, u := NormalizedUrls(urls[..|urls| - 1]), Strip(urls[|urls| - 1]);
      if u == "" || u in front then front else front + [u]
  }

  /** The kept documents are at least as relevant as the dropped ones. */
  ghost predicate KeepsTheBest(order: seq<Selected>, kept: nat)
    requires kept <= |order|
  {
    forall i, j :: 0 <= i < kept <= j < |order| ==> order[i].relevance >= order[j].relevance
  }

  /** The cut drops nothing exactly when there is at most one piece or all fit. */
  lemma CutIsWholeIff(costs: seq<nat>, budget: int, kept: nat)
    requires GreedyCut(costs, budget, kept)
    ensures kept == |costs| <==> |costs| <= 1 || Sum(costs) <= budget
  {
    assert costs[..|costs|] == costs;
    if 0 < kept < |costs| {
      SumMonotone(costs, kept + 1, |costs|);
    }
  }

  lemma DroppingKeepsTheBestIff(order: seq<Selected>, kept: nat)
    requires AscendingRelevance(order) && 0 < kept < |order|
    ensures KeepsTheBest(order, kept) <==> order[0].relevance == order[|order| - 1].relevance
  {
  }

  /** The cut keeps the most relevant documents exactly when there is at most one, when all fit the budget, or when
      all are equally relevant. */
  lemma CutKeepsTheBestIff(order: seq<Selected>, texts: seq<string>, budget: int, kept: nat)
    requires AscendingRelevance(order) && |texts| == |order| && GreedyCut(PieceCosts(texts), budget, kept)
    ensures KeepsTheBest(order, kept) <==>
              || |order| <= 1 || Sum(PieceCosts(texts)) <= budget
              || order[0].relevance == order[|order| - 1].relevance
  {
    CutIsWholeIff(PieceCosts(texts), budget, kept);
    if kept < |order| {
      DroppingKeepsTheBestIff(order, kept);
    }
  }

  /** A budget that fits the first of two documents drops the other, the more relevant one. */
  lemma TheBestIsDropped()
    ensures var order := SortByRelevance([Selected(0, 0.9, [0]), Selected(1, 0.1, [0])]);
            var texts, budget := ["short", "short"], |Piece(1, "short")|;
            && order == [Selected(1, 0.1, [0]), Selected(0, 0.9, [0])]
            && GreedyCut(PieceCosts(texts), budget, 1) && !KeepsTheBest(order, 1)
  {
    var first, second := Selected(0, 0.9, [0]), Selected(1, 0.1, [0]);
    assert [first, second][..1] == [first] && [first][..0] == [];
    assert SortByRelevance([first]) == InsertByRelevance([], first) == [first];
    assert InsertByRelevance([first], second) == InsertByRelevance([], second) + [first] == [second, first];
    var texts, budget := ["short", "short"], |Piece(1, "short")|;
    var costs := PieceCosts(texts);
    assert costs[..2][..1] == costs[..1] && costs[..1][..0] == [];
    assert Sum(costs[..1]) == budget;
    var order := SortByRelevance([first, second]);
    assert order == [second, first];
    assert order[0].relevance < order[1].relevance;
  }

  /** Every document kept is counted back out of the context. */
  lemma PackedContextIsCounted(texts: seq<string>, budget: int, kept: nat)
    requires GreedyCut(PieceCosts(texts), budget, kept)
    requires forall t :: t in texts ==> !Contains(Strip(t), MARKER)
    ensures CountDocuments(Context(texts[..kept])) == Counted(kept)
  {
    NumberingRoundTrip(texts[..kept]);
  }

  /** Whatever the documents, the context is no longer than the budget or, if that is longer, the first piece. */
  lemma PackedContextIsBounded(texts: seq<string>, budget: int, kept: nat)
    requires GreedyCut(PieceCosts(texts), budget, kept)
    ensures texts == [] ==> Context(texts[..kept]) == ""
    ensures texts != [] ==>
              |Context(texts[..kept])| <= if budget >= |Piece(1, texts[0])| then budget else |Piece(1, texts[0])|
  {
    ContextLength(texts[..kept]);
    PieceCostsPrefix(texts, kept);
    FirstPieceCost(texts);
  }

  lemma FirstPieceCost(texts: seq<string>)
    ensures texts != [] ==> Sum(PieceCosts(texts)[..1]) == |Piece(1, texts[0])|
  {
    if texts != [] {
      assert PieceCosts(texts)[..1][..0] == [];
    }
  }

  // ---------------------------------------------------------------- few-shot examples

  datatype Example = Example(question: string, answer: string)

  const RENDER_OVERHEAD := 40

  function ExampleCosts(examples: seq<Example>): seq<nat> {
    seq(|examples|, i requires 0 <= i < |examples| => |examples[i].question| + |examples[i].answer| + RENDER_OVERHEAD)
  }

  /** `_fewshots_char_cost`. */
  function FewshotsCharCost(examples: seq<Example>): nat {
    Sum(ExampleCosts(examples))
  }

  /** `_select_fewshots`; the retriever is arbitrary and None stands for any exception it raises. */
  method SelectFewshots(enabled: bool, question: string, queries: seq<string>,
                        retrieve: string -> Option<seq<Example>>, budget: int)
    returns (chosen: seq<Example>)
    ensures var text := Strip(Join(" ", [question] + queries));
            if !enabled || text == "" || retrieve(text).None? then chosen == []
            else var scored := retrieve(text).value;
                 && GreedyCut(ExampleCosts(scored), budget, |chosen|)
                 && chosen == scored[..|chosen|]
  {
    chosen := [];
    if !enabled {
      return;
    }
    var queryText := Strip(Join(" ", [question] + queries));
    if queryText == "" || retrieve(queryText).None? {
      return;
    }
    var scored := retrieve(queryText).value;
    ghost var costs := ExampleCosts(scored);
    var used, i := 0, 0;
    while i < |scored|
      invariant 0 <= i <= |scored| && chosen == scored[..i]
      invariant used == Sum(costs[..i])
      invariant i > 1 ==> used <= budget
    {
      assert costs[..i + 1][..i] == costs[..i];
      var cost := |scored[i].question| + |scored[i].answer| + RENDER_OVERHEAD;
      if chosen != [] && used + cost > budget {
        break;
      }
      chosen := chosen + [scored[i]];
      used := used + cost;
      i := i + 1;
    }
  }

  /** Context plus few-shots stay within the prompt budget exactly when the few-shots and the first
      document do. */
  lemma PromptBudgetHoldsIff(texts: seq<string>, fewshots: seq<Example>, maxChars: int, kept: nat)
    requires texts != []
    requires var reserved := maxChars - FewshotsCharCost(fewshots);
             GreedyCut(PieceCosts(texts), if reserved > 0 then reserved else 0, kept)
    ensures |Context(texts[..kept])| + FewshotsCharCost(fewshots) <= maxChars
            <==> |Piece(1, texts[0])| + FewshotsCharCost(fewshots) <= maxChars
  {
    var costs := PieceCosts(texts);
    ContextLength(texts[..kept]);
    PieceCostsPrefix(texts, kept);
    SumMonotone(costs, 1, kept);
    FirstPieceCost(texts);
  }

  /** A header alone is longer than a budget of ten characters, and the first document is never dropped. */
  lemma PromptBudgetIsExceeded()
    ensures GreedyCut(PieceCosts(["A"]), 10, 1) && |Context(["A"][..1])| + FewshotsCharCost([]) > 10
  {
    HeaderChars(1);
    FirstPieceCost(["A"]);
    assert PieceCosts(["A"])[..1] == PieceCosts(["A"]);
    ContextLength(["A"]);
    assert ["A"][..1] == ["A"];
  }
}
