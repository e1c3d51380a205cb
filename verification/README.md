# Verified model of the meno-rag service

This project models three groups of code of the meno-rag question-answering service and proves properties of
them that no single function shows.

1. **The retrieval funnel** (`stand/`): rewrite queries are deduplicated and capped, each gets a fused candidate
   list, every unique chunk is scored once, each query keeps its own best chunks, the winners are united and cut
   globally, documents are packed under a character budget, numbered into a prompt and counted back out of it,
   and a self-contained trace is built.  Files `Fusion`, `Search`, `RankSort`, `RankTop`, `Rerank`, `RerankResult`,
   `TwoCuts`, `BestScores`, `Funnel`, `Text`, `Numbering`, `ContextAssembly`, `ContextContent`, `Trace`,
   `TraceContent`, `Scoring`, `DialogueHistory`.
2. **The relational store** (`db/repositories.py` and its callers): the tables as a class with one method per
   repository function or endpoint (`Store`), each tied to a transaction on table values (`Operations`), and
   invariants over every run of those transactions: vote and turn convergence and order independence
   (`ArenaConvergence`, `ArenaOrder`), consent synchronisation (`ConsentSync`), storage of detail under consent
   (`DataMinimisation`), what is kept of a source (`ShownSources`), alternation of stored dialogues (`Alternation`),
   exact erasure and foreign keys (`Erasure`), retention (`Retention`), Elo accounting and odds (`Ratings`,
   `EloLedger`, `EloOdds`), what every request stores column by column (`StoredContent`, `EndpointEffects`) and the
   separate trace store with its background writer (`TraceLog`).
3. **Small protocols**: the arena vote lock on Redis and in process (`ArenaLock`, `InProcessLock`, `LockProgress`),
   snapshot rotation (`SnapshotRotation`), reassembly of a chunked event stream and the text it carries (`SseStream`,
   `StreamText`) and the two model-status stores (`ModelStatus`, `StatusListing`, `BackoffDoubling`).

The LLM scorer, the raw scores of the retrievers, document rendering, `json.loads`, query normalisation,
exponentiation and the clock are arbitrary functions or parameters.  Scores and ratings are reals.  A list a loop
appends to is a sequence, a dictionary a map, and a class field holds what the source object's field holds.
`Text`, `Json`, `Roles`, `Lists`, `Sets` and `Reals` are shared by the other files.  `dafny verify dfyconfig.toml` checks
everything.

## Where the code differs from what is said about it

- `prepare_context` sorts by ascending relevance (`src/meno_rag/stand/context.py:138-141`), so a greedy cut drops
  the most relevant documents, although the comment at `src/meno_rag/stand/pipeline.py:573` says the most
  relevant come first.  The kept documents are the most relevant ones exactly when there is at most one, when all
  fit, or when all are equally relevant (`ContextAssembly.CutKeepsTheBestIff`, `ContextAssembly.TheBestIsDropped`).
- A returned chunk need not carry its best score over all queries, only its best over the queries whose own cut it
  survived; `BestScores.ReturnedScoresAreBestIff` gives the settings under which the two agree, and
  `BestScores.BestIsMissed` fused lists of normalised retrieval scores for every other setting.
- Context and few-shots together are said to stay within `max_qa_prompt_chars`
  (`src/meno_rag/stand/pipeline.py:177-178`); a first document that alone does not fit is kept all the same
  (`ContextAssembly.PromptBudgetHoldsIff`, `ContextAssembly.PromptBudgetIsExceeded`).
- `score_from_json_response` documents 0 as 0.0 (`src/meno_rag/stand/rerank.py:137-140`); the floor of -100 leaves
  a positive score.  `Scoring.FallbackScores` also puts label 2 strictly below 1; that holds in exact arithmetic
  only, in doubles it scores the documented 1.0.
- The two stream clients read some payloads differently: a null `error`, or an empty list of `choices`, raises in the
  vLLM client (`src/meno_rag/llm/client.py:146-148`) and not in the OpenRouter client
  (`SseStream.ReadAlikeIff`, `SseStream.NullErrorAndNoChoicesDiffer`).
- `splitlines` also breaks at U+2028 and other characters that section 9.2.6 of the WHATWG HTML Living Standard
  keeps inside a line; such a payload arrives truncated (`SseStream.FrameRoundTripIff`,
  `SseStream.LineSeparatorTruncates`).
- Replaying an alternating history can trip the validator: exactly when the history before the question is
  non-empty, even and starts with the assistant (`DialogueHistory.AlternatingHistoryIsValidIff`).
- `get` of the Redis and of the in-memory status store part exactly on a failure after an expired unreachable mark
  (`ModelStatus.StoresAgreeIff`, `ModelStatus.LateFailurePartsTheStores`).  `list_all` parts already when a mark runs
  out: in memory it stays listed, and counted by the health report (`StatusListing.ListingsAgreeIff`,
  `StatusListing.HealthCounts`, `StatusListing.ExpiredMarkIsListed`).
- Elo conservation fails exactly for a decided or `both_bad` vote whose two sides are the same
  (`Ratings.VoteKeepsBalanceIff`, `EloLedger.EqualSidesBreakTheBalance`); `EloLedger` states the drift of every vote.
- A chat request with both tokens gives a conversation two owners (`ConsentSync.ChatKeepsSingleOwnersIff`,
  `ConsentSync.BothTokensGiveTwoOwners`), and the guest's later decision then overrides the user's
  (`ConsentSync.GuestDecisionOverridesUser`).
- Erasing a subject can leave a winner without its vote, exactly when the subject had voted on a turn of somebody
  else's conversation (`ArenaConvergence.ErasureKeepsWinnersIff`, `ArenaOrder.ErasureOrphansAWinner`).
- A vote and the turn it is on are meant to be stored in either order
  (`src/meno_rag/db/repositories.py:547-552`); the order matters exactly when the turn decides whether the voter may
  touch the conversation (`ArenaOrder.VoteAndTurnCommuteIff`, `ArenaOrder.TwoSubjectsCommuteIff`).
- Erasure and retention do not reach the trace store: question and answer of an erased subject stay in
  `pipeline_traces` (`TraceLog.RowsStay`, `TraceLog.TraceOutlivesItsSubject`).
- A trace is handed to the writer before its run is inserted, so a run id that is taken leaves a trace of a
  transaction that was undone (`TraceLog.TraceWithoutItsRunIff`).

## Model

| member | source | states |
|---|---|---|
| Fusion.CombineRelevantChunks | src/meno_rag/stand/search.py:87-106 | The two dict loops and the sort give the canonical list of the union: unique ids, strictly ordered by (-score, id), every id of either input with its highest score |
| Fusion.CombinedIsMaxUnion | src/meno_rag/stand/search.py:87-106 | The fused list is canonical, has exactly the ids of both inputs, and each score is the maximum over both |
| Fusion.CombinedCommutes | src/meno_rag/stand/search.py:87-106 | Fusion is commutative, and idempotent with unit [] on canonical lists |
| Fusion.CombinedAssociates | src/meno_rag/stand/search.py:87-106 | Fusion is associative on all inputs |
| Fusion.CombinedAbsorbs | src/meno_rag/stand/search.py:87-106 | Fusing step by step equals ranking the concatenation once, so the fold of `_rerank` depends on the items alone |
| Fusion.CanonicalIsRank | src/meno_rag/stand/search.py:103-106 | A canonical list is determined by its score table |
| Fusion.PrefixOfRank | src/meno_rag/stand/search.py:103-106 | A canonical list that dominates the rest of a table is the beginning of its ranking |
| Rerank.CollectUniqueIds | src/meno_rag/stand/pipeline.py:449-457 | The ids to score are those of the capped candidates, each where it first appears, none twice |
| Rerank.ScoredInOrder | src/meno_rag/stand/pipeline.py:453-459 | Those ids stand at exactly the first places of their kind, in order |
| Rerank.RerankBatches | src/meno_rag/stand/pipeline.py:434-490 | Scoring each unique chunk once and reading the cache per query gives the same list as scoring per query; the score table covers exactly the unique candidates |
| Rerank.CacheIsEnough | src/meno_rag/stand/pipeline.py:453-480 | The winners depend on the scores of the capped candidates only, so scoring each unique chunk once changes nothing |
| Rerank.UniteWinners | src/meno_rag/stand/pipeline.py:467-480 | The incremental union over queries is the ranking of the best score of all winners |
| Search.FindRelevantChunks | src/meno_rag/stand/search.py:64-84 | Both branches divide the raw scores by their sum, and give nothing when that is not positive |
| Search.NormalisedKeepsHits | src/meno_rag/stand/search.py:64-84 | Every hit keeps its id and its place, and its share times the sum is its raw score |
| Search.NormalisedIsShares | src/meno_rag/stand/search.py:64-84 | Non-negative raw scores become fractions that sum to one |
| Search.SharesIff | src/meno_rag/stand/search.py:64-84 | The lists that come out so are exactly the empty one and the fractions of one |
| Search.FusedMeaning | src/meno_rag/stand/pipeline.py:427-432 | What the rerank stage receives for a query is canonical with scores between 0 and 1 |
| RankTop.TopStable | src/meno_rag/stand/pipeline.py:469-484 | Dropping or lowering entries outside the first c of a ranking leaves the first c unchanged |
| TwoCuts.TwoLevelCut | src/meno_rag/stand/pipeline.py:469-484 | With max_context_chunks at most rerank_top_k the stage returns exactly the first max_context_chunks of the max-union of all positive merged candidates of all queries |
| TwoCuts.CapMakesCutVoid | src/meno_rag/stand/pipeline.py:469-484 | The same when a positive candidate cap is at most rerank_top_k |
| TwoCuts.TwoLevelCutIsExactIff | src/meno_rag/stand/pipeline.py:469-484 | For all integer settings: the two truncations equal one global truncation on all fused lists of normalised retrieval scores and all scorers into (0, 1] if and only if max_context_chunks is 0, or positive and at most rerank_top_k, or a positive candidate cap is at most rerank_top_k |
| RerankResult.RerankedMeaning | src/meno_rag/stand/pipeline.py:467-490 | The result is canonical, bounded, positive, made of scored candidates, each with its best merged score among the winners of all queries |
| BestScores.ReturnedScoresAreBestIff | src/meno_rag/stand/pipeline.py:467-484 | For all settings: every returned chunk carries its best merged score over all queries, on all fused lists of normalised retrieval scores and all scorers into (0, 1], if and only if the rerank weight is 1, max_context_chunks or rerank_top_k is 0, max_context_chunks is positive and at most rerank_top_k, or the candidate cap is positive and at most the absolute value of rerank_top_k |
| BestScores.BestIsMissed | src/meno_rag/stand/pipeline.py:467-484 | Such lists and scorer for each of the other settings: a chunk is returned although another query scores it higher |
| RerankResult.RerankIgnoresQueryOrder | src/meno_rag/stand/pipeline.py:449-480 | Neither order nor repetition of the queries changes the result or the set of scored chunks |
| Funnel.ScoringsAreBounded | src/meno_rag/stand/pipeline.py:744-754 | At most (number of queries) * (candidates per query) scorings under a positive cap |
| Rerank.MergeScoreIsBetween | src/meno_rag/stand/rerank.py:149-152 | For a weight in [0, 1] and a positive rerank score the merged score lies between the two scores |
| Funnel.DedupeAndCapQueries | src/meno_rag/stand/pipeline.py:757-773 | The loop over `seen` returns the first occurrences by normal form, cut to the cap |
| Funnel.DedupedQueriesMeaning | src/meno_rag/stand/pipeline.py:757-773 | No two kept queries are alike, the cap holds, a non-blank leading question survives in front, and below the cap every distinct non-blank query is represented |
| Funnel.QueriesKeepTheirOrder | src/meno_rag/stand/pipeline.py:757-773 | The kept queries are the first of their normal form, in the order given, up to the cap |
| Funnel.Fuse | src/meno_rag/stand/pipeline.py:427-432 | One fused list per retrieval, each the max-union of its dense and lexical hits |
| Funnel.BatchesAreFused | src/meno_rag/stand/pipeline.py:392-432 | With normalising retrievers every list that the funnel reranks is a fused one |
| Funnel.FunnelIsExactAndBounded | src/meno_rag/stand/pipeline.py:392-490 | From queries to final chunks: the two cuts are one when 0 <= max_context_chunks <= rerank_top_k, and at most max_rewrite_queries * rerank_candidates_per_query chunks are scored when both caps are positive |
| Scoring.ExponentsAreBounded | src/meno_rag/stand/rerank.py:118-119 | After subtracting the maximum no exponent is positive and one is zero |
| Scoring.ScoredIff | src/meno_rag/stand/rerank.py:116-117 | A table of logprobs is scored when its labels are 0, 1 and 2, no fewer and no more |
| Scoring.ScoreIsSoftmaxExpectation | src/meno_rag/stand/rerank.py:108-123 | Subtracting the maximum is harmless: the score is half the expected label of the softmax |
| Scoring.ScoreIsInsideUnitInterval | src/meno_rag/stand/rerank.py:108-123 | The score is strictly between 0 and 1 |
| Scoring.ScoreIsShiftInvariant | src/meno_rag/stand/rerank.py:108-123 | Adding a constant to all logprobs changes nothing |
| Scoring.ScoreIsMonotone | src/meno_rag/stand/rerank.py:108-123 | The score rises with the logprob of label 2 and falls with that of label 0 |
| Scoring.FallbackScores | src/meno_rag/stand/rerank.py:137-146 | In exact arithmetic: label 1 scores one half; labels 0 and 2 mirror each other around it and reach neither 0 nor 1 |
| Text.StripMeaning | src/meno_rag/stand/context.py:15-21 | Stripping takes the blank characters from both ends and nothing else |
| Text.SpacesAre | src/meno_rag/stand/context.py:15-21 | The characters that count as blank, one by one |
| Text.RFind | src/meno_rag/stand/qa.py:25 | The last occurrence of a pattern, or that there is none |
| Text.DecimalAppends | src/meno_rag/stand/qa.py:32 | A number is printed as its higher digits followed by its last one |
| Text.DecimalRoundTrip | src/meno_rag/stand/qa.py:32 | Parsing a printed number gives the number |
| Text.SignedRoundTrip | src/meno_rag/stand/qa.py:32 | So does parsing it with a sign in front |
| Text.ParsedCharacters | src/meno_rag/stand/qa.py:32 | What parses holds digits, underscores and signs only, blanks around it aside |
| Numbering.PieceText | src/meno_rag/stand/pipeline.py:583-584 | The literal text of a numbered piece |
| Numbering.NoStraddlingMarker | src/meno_rag/stand/pipeline.py:584 | No marker begins inside a printed header other than at its start, whatever follows it |
| Numbering.UncountedIff | src/meno_rag/stand/qa.py:21-27 | A blank context counts as nothing; one without a marker is rejected |
| Numbering.CountAfterHeader | src/meno_rag/stand/qa.py:21-32 | Counting a text that ends with a numbered piece gives that number, or what the body alone counts to when the body carries a marker |
| Numbering.CountOfContext | src/meno_rag/stand/qa.py:21-32 | What the parser returns on every assembled context; only a marker in the last document can mislead it |
| Numbering.NumberingRoundTrip | src/meno_rag/stand/qa.py:21-32 | Printing and counting back gives the number of documents when none carries the marker |
| ContextAssembly.PrepareRelevantDocuments | src/meno_rag/stand/context.py:100-117 | One entry per document of sufficient quality, in order of first chunk, with its chunks in order and the maximum of their scores; fails exactly when a chunk id lies outside the corpus |
| ContextAssembly.SelectionIsUnique | src/meno_rag/stand/context.py:100-117 | The chunks determine the selection, its order included, and so the order of equally relevant documents |
| ContextContent.LocatedIff | src/meno_rag/stand/context.py:26-43 | Where a chunk is located, and that it is exactly when mapping, document and chunk exist |
| ContextContent.SelectedIff | src/meno_rag/stand/context.py:108-117 | A document is selected if and only if its quality reaches the threshold and a chunk of it was returned |
| ContextContent.TiesKeepTheirOrder | src/meno_rag/stand/context.py:138-141 | Equally relevant documents stay in the order of their first chunks |
| ContextContent.UrlsMeaning | src/meno_rag/stand/context.py:7-23 | The URLs of a document: stripped, none empty, each where it first occurs, in order |
| ContextContent.DocumentIsShown | src/meno_rag/stand/context.py:142-156 | The i-th piece renders the i-th document with its chunks; the i-th source is that document's title and URLs |
| ContextContent.RowsMeaning | src/meno_rag/stand/context.py:159-173 | One document more adds a row per URL with its title, or one row with an empty URL |
| ContextContent.ExampleCost | src/meno_rag/stand/pipeline.py:674-682 | An example costs its question, its answer and forty characters |
| ContextAssembly.SortByRelevanceSorts | src/meno_rag/stand/context.py:138-141 | The documents are a permutation in ascending relevance |
| ContextAssembly.ContextLength | src/meno_rag/stand/pipeline.py:583-594 | The running total of the packing loop is the length of the joined context |
| ContextAssembly.GreedyCutIsUnique | src/meno_rag/stand/pipeline.py:586-594 | Budget and piece costs determine the cut |
| ContextAssembly.PackDocuments | src/meno_rag/stand/pipeline.py:578-600 | Texts and sources are cut at the same place: the longest prefix of the given order that fits the budget, but at least one document |
| ContextAssembly.FlattenSources | src/meno_rag/stand/context.py:159-173 | A row per URL in order, or one row with an empty URL |
| ContextAssembly.AssembleContext | src/meno_rag/stand/pipeline.py:561-600 | Selection, stable ascending sort and packing composed; context and sources are those of the kept prefix |
| ContextAssembly.CutKeepsTheBestIff | src/meno_rag/stand/pipeline.py:573-594 | The kept documents are the most relevant ones if and only if there is at most one, all fit the budget, or all are equally relevant |
| ContextAssembly.TheBestIsDropped | src/meno_rag/stand/context.py:138-141 | Two documents of which the more relevant one is dropped |
| ContextAssembly.PackedContextIsCounted | src/meno_rag/stand/pipeline.py:586-598 | The packed documents are counted back when none carries the marker |
| ContextAssembly.PackedContextIsBounded | src/meno_rag/stand/pipeline.py:586-594 | For all documents: the context is at most as long as the budget or, if longer, the first piece |
| ContextAssembly.SelectFewshots | src/meno_rag/stand/pipeline.py:641-672 | The chosen examples are the greedy prefix of what the retriever returned; none when disabled, blank or failing |
| ContextAssembly.PromptBudgetHoldsIff | src/meno_rag/stand/pipeline.py:177-188 | Context plus few-shot cost stays within max_qa_prompt_chars if and only if the few-shots and the first piece do |
| ContextAssembly.PromptBudgetIsExceeded | src/meno_rag/stand/pipeline.py:177-188 | A document and a budget of ten characters that the context exceeds |
| Trace.BuildPipelineTrace | src/meno_rag/stand/trace.py:51-123 | The trace is self-contained: `chunks` has exactly the ids a reader meets in its retrieval, fusion and candidate stages and the final ids, each hydrated; the stages are ranked as given |
| Trace.TraceOrder | src/meno_rag/stand/trace.py:80-100 | Candidates are a permutation of the scored ids, the kept ones first in final order at ranks 0..k-1, the dropped ones by non-increasing rerank score |
| TraceContent.ListsAreWrittenOut | src/meno_rag/stand/trace.py:63-78 | Every dense, lexical and fused hit with its id, its score and its place |
| TraceContent.CandidatesTellScores | src/meno_rag/stand/trace.py:80-101 | Every candidate tells its rerank score, its best fused score if it was fused, and its final score and place exactly if it was kept |
| TraceContent.TiesKeepTheirOrder | src/meno_rag/stand/trace.py:102-103 | Candidates that the sort key does not tell apart stay in the order of scoring |
| Trace.FinalChunksAreTraced | src/meno_rag/stand/pipeline.py:485-490 | Composed with the rerank stage: every final chunk is kept exactly once, at its final rank |
| DialogueHistory.ValidateHistory | src/meno_rag/stand/dialogue_history.py:33-60 | The loop accepts exactly whole (user, assistant) turns and otherwise names the first offending item |
| DialogueHistory.CollapseIsEmptyIff | src/meno_rag/stand/pipeline.py:824-826 | The question is rejected as empty exactly when it is blank |
| DialogueHistory.CollapseMeaning | src/meno_rag/stand/pipeline.py:824-826 | The question has the words of the message, in order, with one blank between them; collapsing twice is collapsing once |
| DialogueHistory.WordsSplit | src/meno_rag/stand/pipeline.py:824-826 | A blank character separates the words before it from the words behind it, which with words alone determines the words of every text |
| DialogueHistory.QuestionAndHistory | src/meno_rag/stand/pipeline.py:817-834 | The last user message asks, whatever follows it; the history is what goes before, an odd number losing a leading answer or the last message |
| DialogueHistory.RefusedIff | src/meno_rag/stand/pipeline.py:817-826 | Which of the three complaints a request without a question gets |
| DialogueHistory.DialogueMeaning | src/meno_rag/stand/pipeline.py:827-831 | The history holds exactly the messages that are not from the system, in order |
| DialogueHistory.ExtractedIsValidIff | src/meno_rag/stand/pipeline.py:817-834 | When the extracted history passes validation, for every message list that carries a question |
| DialogueHistory.AlternatingHistoryIsValidIff | src/meno_rag/stand/pipeline.py:817-834 | Among alternating histories only a non-empty even one that starts with the assistant fails |
| DialogueHistory.UnansweredAssistantStartIsRejected | src/meno_rag/stand/pipeline.py:817-834 | A concrete input of that kind |
| DialogueHistory.ReplayIsValid | src/meno_rag/stand/pipeline.py:817-834 | An alternating dialogue that ends with a non-blank question never trips the validator |
| DialogueHistory.StoredTurnsReplayUnchanged | src/meno_rag/stand/pipeline.py:817-834 | Whole turns followed by a question are extracted unchanged |
| StoredContent.TurnIsStored | src/meno_rag/db/repositories.py:560-611 | After an admitted turn: its question and a comparison that shows side A as side A and side B as side B with model, knowledge base, text, titles and links, appended or in place of the one with its number, and no other message changed |
| StoredContent.VoteNamesItsSide | src/meno_rag/db/repositories.py:614-641 | After a vote on a stored turn the comparison names as winner the posted side that the vote names |
| StoredContent.EarlyVoteNamesItsSide | src/meno_rag/db/repositories.py:584-599 | The same when the vote comes before its turn |
| StoredContent.ChatIsStored | src/meno_rag/api/main.py:1239-1341 | A served request stores its question and answer with their columns unless it is half of a comparison, its run and all rows of the run exactly under the improvement consent, and nothing else |
| StoredContent.ChatTouchesItsConversation | src/meno_rag/db/repositories.py:26-53 | Its conversation is touched now, tagged with the caller, flagged by the consent, and no other is |
| StoredContent.FailureIsStored | src/meno_rag/api/main.py:1349-1405 | A failed request stores its run, with the question exactly under the improvement consent |
| EndpointEffects.TaggedIff | src/meno_rag/db/repositories.py:180-191 | The rows of a subject are those with its own id in the column of its kind |
| EndpointEffects.AdmittedIff | src/meno_rag/db/repositories.py:290-303 | Who may act on a conversation |
| EndpointEffects.VoteIsRecordedIff | src/meno_rag/db/repositories.py:702-728 | An admitted vote is recorded exactly when it lacks a session or a number or no vote with the same two exists |
| EndpointEffects.SettingsReplyMeaning | src/meno_rag/api/privacy.py:47-62 | Which guard answers a request for settings |
| EndpointEffects.SettingsTakeEffect | src/meno_rag/api/privacy.py:63-97 | An accepted request makes its decision current and flags exactly the subject's conversations when the decision is new; a refused one changes nothing |
| EndpointEffects.ClearTakesIff | src/meno_rag/api/history.py:87-100 | Clearing takes the conversation with everything linked to it for an admitted caller, nothing otherwise, and leaves every other row |
| EndpointEffects.HistoryTakesItsOwn | src/meno_rag/db/repositories.py:117-134 | Erasing a history takes exactly the subject's conversations with everything linked to them |
| EndpointEffects.RetentionTakesIff | src/meno_rag/db/retention.py:27-42 | A conversation goes if and only if it was not touched for more than the given number of days of 24 hours |
| EndpointEffects.RetentionTakesOrphansIff | src/meno_rag/db/retention.py:38-42 | A run without a conversation goes by its own age |
| EndpointEffects.WrittenOutlivesRetention | src/meno_rag/db/repositories.py:26-53 | What a request writes outlives every sweep within that number of days |
| Store.Session.EnsureConversation | src/meno_rag/db/repositories.py:26-53 | Creates or retags in place; flag only when given, both owner columns only when given, time of update always |
| Store.Session.CurrentConsentState | src/meno_rag/db/repositories.py:904-925 | One pass over the log gives the last decision of every purpose, false when there is none |
| Store.Session.PersistSuccess | src/meno_rag/api/main.py:1218-1280 | Refuses foreign conversations, stores a (user, assistant) pair unless arena, the run with its stage, source and generation rows only with the improvement consent, and says whether a trace is handed over |
| Store.Session.AddSources | src/meno_rag/db/repositories.py:379-388 | One row per source in order, with title and link only |
| Store.Session.AddStages | src/meno_rag/api/main.py:1306-1322 | The reported stages in order and the generation stage after them |
| Store.Session.PersistFailure | src/meno_rag/api/main.py:1349-1400 | Stores a run, with the question only under the improvement consent |
| Store.Session.AppendArenaTurn | src/meno_rag/db/repositories.py:519-611 | Replaces the stored turn with that index in place, or appends a pair, carrying the winner of an earlier vote |
| Store.Session.RecordTurn | src/meno_rag/api/arena.py:63-98 | The turn endpoint: refused for a foreign conversation, otherwise the stored turn and the flag |
| Store.Session.SetArenaTurnWinner | src/meno_rag/db/repositories.py:614-641 | Marks the first turn with the index and reports whether one exists |
| Store.Session.SubmitArenaVote | src/meno_rag/db/repositories.py:702-728 | Recorded exactly when no vote for a given (session, index) exists; otherwise nothing changes |
| Store.Session.ApplyVoteToRatings | src/meno_rag/db/repositories.py:767-804 | Counters and Elo assigned row by row, including one row for both sides |
| Store.Session.SubmitVote | src/meno_rag/api/arena.py:13-50 | The vote endpoint: 404, duplicate or recorded with the stored turn marked |
| Store.Session.PatchSettings | src/meno_rag/api/privacy.py:47-97 | The guards in order, the events appended and the flags flipped |
| Store.Session.SetSubjectConversationsAnalysisAllowed | src/meno_rag/db/repositories.py:224-238 | Flips the flag on exactly the subject's conversations and counts them |
| Store.Session.DeleteConversationCascade | src/meno_rag/db/repositories.py:97-109 | Table by table equals removing everything linked to the conversation at once |
| Store.Session.DeleteSubjectData | src/meno_rag/db/repositories.py:137-191 | The cascade loop and the sweep by owner equal the erasure transaction |
| Store.Session.ClearHistory | src/meno_rag/api/history.py:87-100 | Refused for a foreign conversation, otherwise its full cascade |
| Store.Session.RunRetention | src/meno_rag/db/retention.py:27-42 | Both sweeps in order and the count returned; nothing for days <= 0 |
| Store.ErasingTwice | src/meno_rag/db/repositories.py:132-133 | Erasing conversations one after another is erasing them at once |
| ArenaConvergence.EveryRunConverges | src/meno_rag/db/repositories.py:569-641 | In every run each (conversation, index) has at most one vote and one stored turn, a turn with a vote carries its winner, and without subject erasure a turn without a vote carries none |
| ArenaConvergence.StepStaysConverged | src/meno_rag/db/repositories.py:569-641 | Every transaction keeps that invariant |
| ArenaConvergence.ErasureKeepsWinnersIff | src/meno_rag/db/repositories.py:175-191 | Subject erasure leaves every winner with its vote if and only if, before it, no vote of the subject is on a turn of a conversation the subject does not own |
| ArenaOrder.VoteAndTurnCommuteIff | src/meno_rag/api/arena.py:36-45 | For any two callers: a vote and a posted turn give identical tables in either order if and only if the vote is a repetition or the turn does not change whether the voter is let in |
| ArenaOrder.OneCallerCommutes | src/meno_rag/api/arena.py:36-45 | For one caller they always do |
| ArenaOrder.TwoSubjectsCommuteIff | src/meno_rag/db/repositories.py:44-47 | For a new vote and an admitted turn of two subjects on one conversation: if and only if the conversation already has an owner |
| ArenaOrder.RepostChangesNothing | src/meno_rag/db/repositories.py:593-598 | Posting an indexed turn again changes only the conversation's time of update |
| ArenaOrder.SecondVoteChangesNothing | src/meno_rag/db/repositories.py:714-724 | Once a vote on a (session, index) is recorded, no further vote on it changes any table |
| ArenaOrder.ErasureOrphansAWinner | src/meno_rag/db/repositories.py:175-191 | For any voter and any other author: a run in which the voter is erased and the turn keeps the winner |
| ConsentSync.EveryRunIsSynced | src/meno_rag/api/privacy.py:63-97 | With one id per request, in every run: no conversation has two owners, each flag is the owner's last improvement decision, improvement logs alternate starting with a grant, service consent is granted once and first |
| ConsentSync.StepStaysSynced | src/meno_rag/db/repositories.py:26-53 | Every transaction keeps that invariant |
| ConsentSync.SettingsStaySynced | src/meno_rag/api/privacy.py:63-97 | Changing the settings keeps log and flags in step and makes the requested decision current |
| ConsentSync.OthersAreUntouched | src/meno_rag/api/privacy.py:63-97 | A change of settings leaves log, state and conversations of every other subject as they were |
| ConsentSync.ConsentedIsLastOfLog | src/meno_rag/db/repositories.py:904-925 | The consent state is the last decision of the subject's log |
| ConsentSync.ChatKeepsSingleOwnersIff | src/meno_rag/api/main.py:735-744 | A chat request creates a second owner if and only if it carries both tokens and is written |
| ConsentSync.BothTokensGiveTwoOwners | src/meno_rag/db/repositories.py:44-47 | The first such request on a fresh database already does |
| ConsentSync.GuestDecisionOverridesUser | src/meno_rag/db/repositories.py:224-238 | After that the guest's decision sets the flag while the user's own consent is unchanged |
| DataMinimisation.EveryRunMinimises | src/meno_rag/api/main.py:1282-1345 | In every run question text and stage, source or generation rows are stored only with runs of subjects that had opted in |
| DataMinimisation.FailureStaysConsented | src/meno_rag/api/main.py:1349-1400 | A failed request stores its question only for a subject that opted in |
| ShownSources.ShownRefsMeaning | src/meno_rag/db/repositories.py:56-69 | Title and link of every source arrive as they were, nothing else does, and showing twice is showing once |
| ShownSources.EveryRunShows | src/meno_rag/db/repositories.py:56-69 | In every run stored messages, compared sides and source rows hold the title and link of a source only |
| Alternation.EveryRunAlternates | src/meno_rag/api/main.py:1248-1280 | In every run each stored conversation is whole turns, starting with the user |
| Alternation.ChatAppendsItsTurn | src/meno_rag/api/main.py:1248-1280 | A written chat request appends its question and answer, in that order, to its own conversation and nothing anywhere else |
| Alternation.EveryStoredConversationReplays | src/meno_rag/stand/pipeline.py:817-834 | In every run a stored conversation plus a non-blank question is extracted as that conversation and passes validation |
| Erasure.ErasureIsExact | src/meno_rag/db/repositories.py:137-191 | The cascades and sweeps remove exactly the rows tagged with the subject, the rows linked to a conversation of theirs and the children of removed runs; ratings and consent events stay |
| Erasure.ErasuresCommute | src/meno_rag/db/repositories.py:137-191 | Erasing any sequence of subjects depends only on the set of them: not on order or repetition |
| Erasure.ErasureAccumulates | src/meno_rag/db/repositories.py:137-191 | One erasure more is the erasure of the larger set |
| Erasure.NothingOfTheSubjectRemains | src/meno_rag/db/repositories.py:137-191 | Membership in every table of the main database after an erasure, both directions, accounts and guest sessions included |
| Erasure.EveryRunResolves | src/meno_rag/db/orm.py:40-134 | In every run each message has its conversation and each stage, source and generation row its run |
| Retention.SweepIsExact | src/meno_rag/db/repositories.py:248-287 | A conversation goes exactly when stale, with its messages, votes, feedback and survey answers; a run exactly when its conversation is stale or it is old without one, with its children; everything else stays and the survivors are recent |
| Retention.CountIsWhatWent | src/meno_rag/db/retention.py:38-42 | The returned count is the rows gone from conversations and runs, less the runs that went with a conversation |
| Retention.SecondSweepIsIdle | src/meno_rag/db/retention.py:35-42 | A second pass at the same or an earlier cutoff removes and counts nothing |
| Retention.LaterSweepSubsumes | src/meno_rag/db/retention.py:35-42 | Sweeping and sweeping again later leaves the tables of one sweep at the later cutoff |
| TraceLog.TraceWriter.Enqueue | src/meno_rag/db/trace_writer.py:34-39 | A full queue drops and counts the trace, any other takes it |
| TraceLog.TraceWriter.WriteNext | src/meno_rag/db/trace_writer.py:41-58 | The oldest trace becomes a row, or fails on a taken run id or an unavailable store, and is counted |
| TraceLog.TraceIsDroppedIff | src/meno_rag/db/trace_writer.py:34-39 | A trace is dropped if and only if the queue has a bound and has reached it |
| TraceLog.TraceIsWrittenIff | src/meno_rag/db/trace_writer.py:41-58 | The first waiting trace becomes a row if and only if the store is up and has none for its run |
| TraceLog.TracesAreAccounted | src/meno_rag/db/trace_writer.py:34-53 | In every run the traces handed over are those dropped, failed, waiting and written, the rows are those written, and the queue keeps its bound |
| TraceLog.TracesWaitInOrder | src/meno_rag/db/trace_writer.py:34-53 | While none is dropped the waiting traces are the last ones handed over, in order |
| TraceLog.EveryTraceIsConsented | src/meno_rag/api/main.py:1282-1287 | In every run each trace waiting or stored is that of a request of the run, by a subject who had opted in |
| TraceLog.RowsStay | src/meno_rag/db/trace_store.py:26-32 | No event, erasure and retention included, removes or changes a stored trace |
| TraceLog.TraceOutlivesItsSubject | src/meno_rag/db/repositories.py:137-191 | A run, for any subject and request, after which conversation and run are erased and the trace is still there |
| TraceLog.TraceWithoutItsRunIff | src/meno_rag/api/main.py:1284-1304 | A request that hands over a trace stores nothing in the main database if and only if its run id is taken |
| Ratings.ExpectationsSumToOne | src/meno_rag/db/repositories.py:773-774 | The two expectations are positive fractions that sum to one |
| Ratings.EloExchange | src/meno_rag/db/repositories.py:800-801 | What a decided vote moves between the two ratings, each by less than 32 |
| Ratings.FavouriteExpectsMore | src/meno_rag/db/repositories.py:773-801 | The stronger side expects more, gains less by winning and loses on a tie; winners rise and losers fall |
| Ratings.VerdictIsCounted | src/meno_rag/db/repositories.py:776-799 | Between different sides: one match each, one win per loss, both lose on both_bad, ties on both sides |
| Ratings.VoteReplacesItsRows | src/meno_rag/db/repositories.py:752-804 | Such a vote changes the rows of its two sides and no other, each from both Elo values before the vote |
| Ratings.VoteKeepsBalanceIff | src/meno_rag/db/repositories.py:767-804 | The ratings keep summing to 1200 per row less 16 per both_bad counter if and only if the sides differ or the vote is a tie or unknown |
| Ratings.VoteKeepsRows | src/meno_rag/db/repositories.py:752-804 | Even with equal sides: rows keep key and place, counters agree, no side gets a second row, no rating moves by 32 |
| EloOdds.OddsOfALead | src/meno_rag/db/repositories.py:773-774 | The odds of a side are 10 to its lead over 400 points |
| EloOdds.FourHundredPoints | src/meno_rag/db/repositories.py:773-774 | A lead of 400 points expects ten of eleven |
| EloOdds.OddsMultiply | src/meno_rag/db/repositories.py:773-774 | Odds multiply along a chain of sides |
| EloOdds.VoteMovesByOdds | src/meno_rag/db/repositories.py:773-801 | What every verdict moves on the recorded ratings: the winner gains 32 points over one plus its odds |
| EloOdds.LeaderGainsATenth | src/meno_rag/db/repositories.py:773-801 | A leader by 400 points gains a tenth of what it risks |
| EloLedger.RatingsAreTally | src/meno_rag/db/repositories.py:702-728 | In every run the ratings are those of the counted votes alone, through erasure and retention |
| EloLedger.TallyLaws | src/meno_rag/db/repositories.py:767-804 | For any votes: sum of ratings, two matches per known vote, agreeing counters, unique rows |
| EloLedger.EveryRunBalances | src/meno_rag/db/repositories.py:698-804 | In every run the sum is 1200 per row plus the drifts, which is minus 32 per both_bad vote when all sides differ |
| EloLedger.EqualSidesBreakTheBalance | src/meno_rag/db/repositories.py:800-801 | The first vote of a side against itself leaves one rating of 1184 |
| ArenaLock.RunIsSafe | src/meno_rag/cache/redis_client.py:56-76 | The lock invariant over every interleaving of clients and clock |
| ArenaLock.OverlapMeansOutstayed | src/meno_rag/cache/redis_client.py:56-76 | Two clients are inside one section only if the earlier one had outstayed its TTL when the later one entered |
| ArenaLock.NobodyElseReleases | src/meno_rag/cache/redis_client.py:66-76 | No step of anybody else removes or replaces the live key of a client inside its section |
| ArenaLock.StalledHolderOverlaps | src/meno_rag/cache/redis_client.py:56-76 | A run in which a stalled holder overlaps, and its late release spares the newcomer's key |
| ArenaLock.RedisLock.Acquire | src/meno_rag/cache/redis_client.py:56-65 | The retry loop ends at the first attempt that wins or fails past the deadline, with the state of that run |
| ArenaLock.AttemptedIsRun | src/meno_rag/cache/redis_client.py:56-65 | The retry loop is a run of the step system, so its safety applies |
| ArenaLock.RedisLock.CompareAndDelete | src/meno_rag/cache/redis_client.py:68-76 | The release script deletes the key only while it carries the caller's token |
| LockProgress.ReleaseFreesTheKey | src/meno_rag/cache/redis_client.py:66-76 | On every run a client that leaves and releases before its deadline, whatever happens in between, frees its key at once and changes nothing else |
| LockProgress.NextClientEnters | src/meno_rag/cache/redis_client.py:56-76 | The next client of the key then enters at its first attempt |
| LockProgress.HandOver | src/meno_rag/cache/redis_client.py:56-76 | Two votes on one pair in a row: the retry loop of the second acquires the lock in its first round |
| LockProgress.FailedReleaseExpires | src/meno_rag/cache/redis_client.py:73-76 | After a failed release the key can be set if and only if its TTL has passed |
| LockProgress.WaiterEntersIff | src/meno_rag/cache/redis_client.py:49-54 | In process, on every run, a resumed waiter enters if and only if nobody is inside the section of its key |
| LockProgress.LeaveAdmitsTheNext | src/meno_rag/cache/redis_client.py:52-54 | When a task leaves, the next waiter of the key enters |
| InProcessLock.MutualExclusion | src/meno_rag/cache/redis_client.py:49-54 | On every run at most one task is inside per key, and tasks share a lock exactly when they share the key |
| InProcessLock.EntriesAreNeverReplaced | src/meno_rag/cache/redis_client.py:50-51 | A lock entry, once made, stays for ever |
| InProcessLock.LockTable.SetDefault | src/meno_rag/cache/redis_client.py:50-51 | `setdefault` under the dictionary lock is one lookup step of the system |
| InProcessLock.LockTable.Lock | src/meno_rag/cache/redis_client.py:52 | Entering succeeds exactly for a waiting task whose lock is free |
| SnapshotRotation.IncrementalRotationIsGlobal | src/meno_rag/db/backup.py:63-73 | Rotating after every backup leaves what one rotation of the whole history leaves, for stamps in any order |
| SnapshotRotation.RetainedSandwich | src/meno_rag/db/backup.py:39-60 | Rotation gives the same result on any set between the retained snapshots and the history |
| SnapshotRotation.RotationIsIdempotent | src/meno_rag/db/backup.py:39-60 | Rotating twice is rotating once |
| SnapshotRotation.RetainedIsBounded | src/meno_rag/db/backup.py:39-60 | At most keep_interval + keep_daily files stay |
| SnapshotRotation.NewestIsRetained | src/meno_rag/db/backup.py:39-60 | The newest stays if either limit is positive |
| SnapshotRotation.DailyFromDays | src/meno_rag/db/backup.py:47-53 | The by-day dictionary and the slice of its sorted days select the newest snapshot of each of the last days |
| SnapshotRotation.DayIsEightDigits | src/meno_rag/db/backup.py:34-52 | The day of a stamp is its first eight digits |
| SnapshotRotation.SelectKept | src/meno_rag/db/backup.py:44-53 | The two rules give the retention policy stated by rank |
| SnapshotRotation.BackupDirectory.RotateSnapshots | src/meno_rag/db/backup.py:39-60 | The directory becomes the retained set, and the removed files are the rest in ascending order |
| SnapshotRotation.BackupDirectory.RunBackupCycle | src/meno_rag/db/backup.py:63-73 | Copy, then rotate; a taken name fails and rotates nothing |
| SseStream.StreamChatCompletion | src/meno_rag/llm/client.py:100-117 | What is yielded, the finish reason and the point of failure depend only on the concatenated text |
| SseStream.Drain | src/meno_rag/llm/openrouter_client.py:133-142 | The inner loop feeds every complete block and keeps the rest, stopping at the first that raises |
| SseStream.SplitResumes | src/meno_rag/llm/client.py:100-117 | Cutting into blocks can be resumed from the rest, also when a separator is split across chunks |
| SseStream.BlocksMeaning | src/meno_rag/llm/client.py:104-106 | Blocks and rest spell the text again and hold no separator |
| SseStream.ErrorIsFinal | src/meno_rag/llm/client.py:107-115 | After a bad block the remaining text does not matter |
| Json.FalsyIff | src/meno_rag/llm/openrouter_client.py:271-276 | The values that count as false are the six empty ones |
| StreamText.TextIsHandedOver | src/meno_rag/llm/client.py:148-154 | For every payload whose first choice carries a text, both clients hand over exactly that text, the vLLM client with its reason to finish |
| StreamText.OtherContentIsNothing | src/meno_rag/llm/openrouter_client.py:276-281 | Content that is not text is handed over as nothing |
| StreamText.MessageIsRaised | src/meno_rag/llm/client.py:146-147 | An error with a message stops both clients with that message |
| StreamText.OtherErrorIsShown | src/meno_rag/llm/openrouter_client.py:271-274 | Any other true error stops the OpenRouter client with what it prints as, the vLLM client by its shape |
| StreamText.BrokenPayloadIsRaised | src/meno_rag/llm/client.py:142-145 | A payload that is not JSON stops both clients, the end marker aside |
| StreamText.LineBreaksAre | src/meno_rag/llm/client.py:137 | The characters at which a line ends, one by one |
| StreamText.LineEndsAtBreak | src/meno_rag/llm/client.py:137 | A line ends at its first break; a carriage return with a line feed is one break |
| StreamText.OtherLinesAreIgnored | src/meno_rag/llm/client.py:136-142 | A line without the `data:` prefix changes nothing |
| StreamText.PartsAreJoined | src/meno_rag/llm/client.py:136-142 | A payload in several data lines arrives with a line feed between its parts |
| StreamText.TextArrives | src/meno_rag/llm/client.py:100-121 | However a stream is cut into network chunks and whether or not it ends with a blank line: the tokens of both clients are the non-empty texts in order and spell the whole answer, with the last reason sent |
| SseStream.ReadAlikeIff | src/meno_rag/llm/client.py:145-154 | On every JSON value: both clients raise or both hand over the same text if and only if the shapes of `error` and `choices` say so |
| SseStream.NullErrorAndNoChoicesDiffer | src/meno_rag/llm/openrouter_client.py:264-281 | A null error and an empty list of choices each stop the vLLM client only |
| SseStream.ClientsDeliverAlikeIff | src/meno_rag/llm/openrouter_client.py:250-281 | On every stream: consumers of the two clients see the same after every block if and only if no block that is reached has a payload they read differently |
| SseStream.FrameRoundTripIff | src/meno_rag/llm/client.py:134-154 | A framed payload is read back if and only if it has no line break and no outer blanks |
| SseStream.LineSeparatorTruncates | src/meno_rag/llm/client.py:134-154 | A payload with U+2028 is cut there |
| SseStream.StreamRoundTrip | src/meno_rag/api/events.py:54-57 | A framing law: clean payloads framed as `sse_data` frames them and cut arbitrarily would reach this parser as if handed over directly (the service itself sends such frames to browsers) |
| ModelStatus.MemoryRefinesLog | src/meno_rag/llm/status.py:84-147 | The in-memory store answers every `get` at any time as the event log says |
| ModelStatus.RedisRefinesLog | src/meno_rag/llm/status.py:153-231 | The Redis store answers every `get` after the last event as the event log says, with a failure count that restarts when a mark runs out |
| ModelStatus.DelayIsMonotone | src/meno_rag/llm/status.py:132-138 | The block after n failures grows with n between one backoff and the maximum |
| BackoffDoubling.DelayDoubles | src/meno_rag/llm/status.py:136 | The first failure blocks for one backoff, each further one twice as long as the one before, up to the maximum |
| BackoffDoubling.NextFailureInMemory | src/meno_rag/llm/status.py:132-138 | What `get` then shows of the in-memory store |
| BackoffDoubling.NextFailureInRedis | src/meno_rag/llm/status.py:216-222 | The same of the Redis store, for a failure while the mark before it holds |
| BackoffDoubling.StreakIsBlocked | src/meno_rag/llm/status.py:132-138 | After n failures in a row `get` of both stores shows one backoff doubled n - 1 times, up to the maximum |
| ModelStatus.StoresAgreeIff | src/meno_rag/llm/status.py:153-231 | The two stores answer every `get` alike throughout a run if and only if no failure follows an expired unreachable mark, or the backoff is not positive |
| ModelStatus.AgreementIsKept | src/meno_rag/llm/status.py:183-231 | Every other event keeps them in agreement |
| ModelStatus.AgreementIsLost | src/meno_rag/llm/status.py:216-231 | Under a positive backoff that event always breaks it |
| ModelStatus.LateFailurePartsTheStores | src/meno_rag/llm/status.py:216-231 | Two failures, the second when the mark of the first runs out, part the stores under every positive backoff |
| ModelStatus.RedisModelStatusStore.ListAll | src/meno_rag/llm/status.py:174-181 | The scan gives the statuses of exactly the keys that have not expired |
| StatusListing.MemoryLists | src/meno_rag/llm/status.py:102-104 | In memory a model is listed with the mark of its last event, run out or not |
| StatusListing.RedisKeeps | src/meno_rag/llm/status.py:183-222 | Redis keeps that mark, with the restarting failure count, until its time to live of at least a second ends |
| StatusListing.ListingsAgreeIff | src/meno_rag/llm/status.py:174-181 | After any log and at any later time the listings agree on every model if and only if Redis has dropped no mark and no streak of failures has outlived one of its marks |
| StatusListing.HealthCounts | src/meno_rag/api/main.py:435-437 | The blocked models counted with Redis are among those counted with the in-memory store; the counts are equal if and only if no mark of the latter has been dropped |
| StatusListing.ExpiredMarkIsListed | src/meno_rag/llm/status.py:102-104 | One failure, once its mark has run out: `get` is the same in both stores, the listings differ |

## Left out

- HTTP endpoints, SQLAlchemy sessions, migrations, Redis and file-system calls: each is one atomic step or transaction here.
- Overlapping SQL transactions and lost updates: the vote lock is keyed on the ordered model pair, so nothing here derives atomicity of ratings from it.
- Floating-point rounding, overflow and NaN: scores, logprobs and ratings are reals; exponentials are positive functions with the laws they need.
- Retrieval (FAISS, BM25, FRIDA), tokenizers, stemming, prompts, JSON and regular expressions: arbitrary functions.
- Store.Session.PersistSuccess: a stage's status, time and detail are one text, and so are the fields of a generation record; a run keeps session, owner, question and time.
- Store.Session.AppendArenaTurn: a vote lookup that meets two votes on one turn raises in the source, which no run reaches.
- Store.Session.CurrentConsentState: messages and consent events are ordered by insertion; the source orders by creation time.
- Writing feedback and surveys, creating accounts and guest sessions: their rows can be present and are erased, no transaction here adds them.
- ArenaLock.RedisLock.Acquire: time passes during sleeps and not inside a Redis call, and the deadline is on the same clock as the TTL.
- ModelStatus.StoresAgreeIff: compares state, error, expiry and failure count on an integer clock and not `updated_at`, which the stores keep differently.
- ContextAssembly.AssembleContext: the text of a document is an arbitrary function of its chunks.
- ContextAssembly.FlattenSources: a source URL is a list of strings, the scalar and null shapes are normalised before.
- Numbering.CountOfContext: `int()` on digits outside ASCII, and whitespace outside the modelled set, are not part of this model.
- AdmissionController, discovery caching, endpoint round-robin, error classification, authentication and the sealed leaderboard: no property here needs them.
