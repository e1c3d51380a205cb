/** What the prompt and the list of sources show of the chosen documents: src/meno_rag/stand/context.py and
    src/meno_rag/stand/pipeline.py. */
module ContextContent {
  import opened Lists
  import opened Text
  import opened Fusion
  import opened ContextAssembly

  // ---------------------------------------------------------------- which documents

  /** A chunk is located where the mapping says, if it says so and document and chunk exist. */
  lemma LocatedIff(chunk: int, corpus: Corpus, doc: int, local: int)
    ensures Locate(chunk, corpus) == Some(Location(doc, local)) <==>
            && chunk in corpus.chunkMapping && corpus.chunkMapping[chunk] == Location(doc, local)
            && 0 <= doc < |corpus.documents| && 0 <= local < corpus.documents[doc].chunkCount
  {
  }

  lemma {:induction false} HitsIff(d: int, chunks: seq<Scored>, corpus: Corpus)
    requires Mapped(chunks, corpus)
    ensures Hits(d, chunks, corpus) != [] <==> exists x :: x in chunks && corpus.chunkMapping[x.id].doc == d
  {
    if chunks == [] {
    } else {
      var front, x := chunks[..|chunks| - 1], chunks[|chunks| - 1];
      assert chunks == front + [x];
      HitsIff(d, front, corpus);
    }
  }

  /** A document is selected exactly when its quality reaches the threshold and a chunk of it was returned. */
  lemma SelectedIff(entries: seq<Selected>, chunks: seq<Scored>, corpus: Corpus, minQuality: real, d: int)
    requires Mapped(chunks, corpus) && SelectedFrom(entries, chunks, corpus, minQuality)
    ensures (exists i :: 0 <= i < |entries| && entries[i].doc == d) <==>
            && 0 <= d < |corpus.documents| && corpus.documents[d].quality >= minQuality
            && exists x :: x in chunks && corpus.chunkMapping[x.id].doc == d
  {
    HitsIff(d, chunks, corpus);
    SelectedDocuments(entries, chunks, corpus, minQuality);
    if i :| 0 <= i < |entries| && entries[i].doc == d {
      assert Documents(entries)[i] == d;
    }
    if GoodDocument(d, corpus, minQuality) && Hits(d, chunks, corpus) != [] {
      assert HasEntry(entries, d);
    }
  }

  // ---------------------------------------------------------------- documents of equal relevance

  lemma {:induction false} InsertKeepsTies(s: seq<Selected>, e: Selected, tied: Selected -> bool)
    requires forall x, y :: tied(x) && tied(y) ==> x.relevance == y.relevance
    ensures Filter(InsertByRelevance(s, e), tied) == Filter(s, tied) + (if tied(e) then [e] else [])
  {
    if s == [] || s[|s| - 1].relevance <= e.relevance {
      FilterOne(s, e, tied);
    } else {
      var front, last := s[..|s| - 1], s[|s| - 1];
      InsertKeepsTies(front, e, tied);
      PassesBy(front, last, InsertByRelevance(front, e), e, tied);
      assert s == front + [last];
    }
  }

  /** The sort is stable: equally relevant documents stay in the order of their first chunks. */
  lemma {:induction false} TiesKeepTheirOrder(s: seq<Selected>, tied: Selected -> bool)
    requires forall x, y :: tied(x) && tied(y) ==> x.relevance == y.relevance
    ensures Filter(SortByRelevance(s), tied) == Filter(s, tied)
  {
    if s == [] {
    } else {
      var front, last := s[..|s| - 1], s[|s| - 1];
      TiesKeepTheirOrder(front, tied);
      InsertKeepsTies(SortByRelevance(front), last, tied);
      FilterOne(front, last, tied);
      assert s == front + [last];
    }
  }

  // ---------------------------------------------------------------- what is shown of them

  function StrippedUrls(urls: seq<string>): seq<string> {
    seq(|urls|, i requires 0 <= i < |urls| => Strip(urls[i]))
  }

  function IsEmpty(): string -> bool {
    (u: string) => u == ""
  }

  lemma {:induction false} UrlsAreFirstOfEach(urls: seq<string>, stripped: seq<string>)
    requires |stripped| == |urls| && forall i :: 0 <= i < |urls| ==> stripped[i] == Strip(urls[i])
    ensures NormalizedUrls(urls) == FirstOfEach(stripped, IsEmpty())
  {
    if urls == [] {
    } else {
      UrlsAreFirstOfEach(urls[..|urls| - 1], stripped[..|urls| - 1]);
    }
  }

  /** The URLs of a document: stripped, none empty, each where it first occurs. */
  lemma UrlsMeaning(urls: seq<string>) returns (at: seq<nat>)
    ensures FirstPlaces(StrippedUrls(urls), at, IsEmpty())
    ensures |NormalizedUrls(urls)| == |at|
    ensures forall i :: 0 <= i < |at| ==> at[i] < |urls| && NormalizedUrls(urls)[i] == Strip(urls[at[i]])
  {
    UrlsAreFirstOfEach(urls, StrippedUrls(urls));
    at := FirstOfEachMeaning(StrippedUrls(urls), IsEmpty());
  }

  /** One document more adds a row per URL with its title, or one row with an empty URL. */
  lemma RowsMeaning(front: seq<Source>, source: Source)
    ensures var before, rows := FlatRows(front), FlatRows(front + [source]);
            var n := if source.urls == [] then 1 else |source.urls|;
            && |rows| == |before| + n && rows[..|before|] == before
            && forall j :: 0 <= j < n ==>
                 && rows[|before| + j].title == source.title
                 && rows[|before| + j].url == if source.urls == [] then "" else source.urls[j]
  {
    assert (front + [source])[..|front|] == front && (front + [source])[|front|] == source;
    RowsOfSource(source);
  }

  lemma RowsOfSource(source: Source)
    ensures var rows := SourceRows(source);
            && |rows| == (if source.urls == [] then 1 else |source.urls|)
            && forall j :: 0 <= j < |rows| ==>
                 rows[j].title == source.title && rows[j].url == if source.urls == [] then "" else source.urls[j]
  {
  }

  /** The i-th piece of the context is the rendering of the i-th document with its chunks, and the i-th source is that
      document's title with its URLs. */
  lemma DocumentIsShown(order: seq<Selected>, corpus: Corpus, render: (int, seq<int>) -> string, i: nat)
    requires i < |order| && 0 <= order[i].doc < |corpus.documents|
    ensures |Rendered(order, render)| == |SourcesOf(order, corpus)| == |order|
    ensures Rendered(order, render)[i] == render(order[i].doc, order[i].chunks)
    ensures SourcesOf(order, corpus)[i].title == corpus.documents[order[i].doc].title
    ensures SourcesOf(order, corpus)[i].urls == NormalizedUrls(corpus.documents[order[i].doc].urls)
  {
  }

  /** An example costs its question, its answer and forty characters. */
  lemma ExampleCost(examples: seq<Example>, e: Example)
    ensures FewshotsCharCost([]) == 0
    ensures FewshotsCharCost(examples + [e]) == FewshotsCharCost(examples) + |e.question| + |e.answer| + 40
  {
    assert ExampleCosts(examples + [e])[..|examples|] == ExampleCosts(examples);
  }
}
