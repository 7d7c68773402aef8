# Verified model of the streaming retrieval pipeline

This Dafny project models the deterministic middle of the streaming retrieval system and proves what it is for: the
delivery protocol of the transcript, the decision when to retrieve, the selection of evidence, the safety of a streamed
answer, the browser's view of it, the chunker, and the ingestion protocol. Everything that is random, remote or learned
(embedder, cross-encoder, language models, entity extraction, stores, clocks, generated identifiers) is a parameter, so
the theorems hold whatever those parts do. `dafny verify dfyconfig.toml` checks the whole project. Every lemma
carries `{:induction false}`: each induction is written out, and no proof depends on one that Dafny guesses.

How the model is organised:

- `ReorderBuffer`, `Session`: the order-resolving transcript buffer, first as a function of its state with theorems over
  every arrival sequence, then as the `SessionRecord` class whose `IngestChunk` drains the held run in a loop.
- `Controller`, `Vectors`: WAIT / RETRIEVE / NO_RETRIEVAL per chunk as a function of the rolling state, with theorems
  over whole runs; the methods on the record refine it. `Vectors` holds cosine and stability over the reals.
- `Options`, `Collections`, `Greedy`, `Sorting`, `EvidenceRows`, `RankFusion`, `Dedup`, `Contradictions`, `Rerank`,
  `EvidenceCap`, `MultiIntent`, `EvidencePipeline`: each stage of a turn's evidence, in place on row objects where the
  source sets fields, and their composition.
- `Text`, `Sentences`, `CitationTags`, `TagSeams`, `Grounding`, `Generation`, `Finishing`, `AnswerTags`: sentence
  splitting of a token stream, the tag grammar of server and browser, what joining texts does to their tags, validation,
  the answer loop, and what becomes of each sentence.
- `Reducer`, `Trace`, `Frames`, `SessionEvidence`: the browser's fold over the events, what the happenings of a session
  leave behind, the receive loop that composes buffer, controller and generation into whole sessions, and the evidence
  pipeline behind a session's answers.
- `Tokens`, `Chunker`, `Packing`, `GreedyPacking`, `Documents`, `Sections`, `Corpus`: the tokenizer, the chunker, what
  sections and pieces are in terms of lines and paragraphs, and the chunks of a whole corpus. `Ingestion`,
  `CrashChains`: the four stores, crashes, retries, and what any history of crashes leaves behind.

A method is proved equal to a function of its inputs or of the state before, and what that function computes is in turn
told by theorems that name no helper of it: case by case, element by element, or as a sum over the inputs themselves.

Where the code and its own comments disagree, the model follows the code:

- `app/controller/retrieval_controller.py:173-176` says a final chunk can count as conclusive only as a session's first
  chunk. In any run that holds if and only if the stability window is two and the first chunk was embedded, or no later
  chunk was (`Controller.OnlyTheFirstLacksHistoryExactly`, `Controller.ALaterChunkCanBeConclusive`).
- `app/controller/retrieval_controller.py:323-325` says a refinement that finds nothing falls back on the prior turn's
  evidence. That evidence can be cited exactly as far as this turn retrieved its chunks anew; otherwise every sentence
  of the answer becomes an uncertainty statement, as in a run of two chunks from a new session
  (`Frames.FallbackEvidenceNeedsANewHit`, `Frames.AFallbackCanLeaveNothingToCite`).
- `app/grounding/citation_validator.py:4-6` calls fabricated citations structurally impossible. That holds sentence by
  sentence; the joined text of an answer shows exactly its sentences' tags if and only if no sentence completes a bracket
  that those before it left open, and a turn whose accepted sentences do shows a tag its lookup does not know
  (`AnswerTags.VersionShowsItsCitationsExactly`, `AnswerTags.SuchATurn`).
- `frontend/src/components/answer/citationParsing.ts:1-2` claims the server's pattern exactly. The two sides read the same
  tags over an alphabet if and only if none of six characters is in it, which only one of them takes for whitespace
  (`CitationTags.ServerAndBrowserAgreeExactly`).
- `app/retrieval/fusion.py:109-110` promises a shared id for every contradicting pair. That holds on all evidence if and
  only if at most one numeric slot can differ (`Contradictions.SharedIdsExactlyWithOneSlot`).
- `scripts/ingest_corpus.py:375` compares only the number of points. A crashed attempt goes unnoticed by a return to the
  earlier content exactly when it reached no file, added as many points as it deleted, and replaced a point or embedded
  one anew (`Ingestion.CompletedRunAgreesExactlyUnless`, `Ingestion.ARevertCanMislead`,
  `Ingestion.AModelChangeCanMislead`). The check does not read the chunk file at all: after a replacement crashed before
  its manifest, a return crashed before its chunk file passes it for good with the replacement's chunk file. What any
  history of crashes leaves for it to overlook is exact (`CrashChains.CompletedRunAgreesExactly`,
  `CrashChains.ACrashedRevertCanMislead`).

Assumptions on the settings: the wait limit, the evidence cap, the token budget and the counts are natural numbers, the
stability window is at least two, and a window's overlap is smaller than its budget, as the source's own arithmetic ensures.

## Model

| member | source | states |
|---|---|---|
| ReorderBuffer.IngestKeepsWellFormed | app/session/session_store.py:95-138 | one arrival keeps the buffer strictly increasing, the next number one past its end, held keys beyond it and the gap timer set exactly when something is held, and extends the buffer by the returned batch |
| ReorderBuffer.EveryRunIsWellFormed | app/session/session_store.py:95-138 | over every arrival sequence that invariant holds and the buffer is the concatenation of the returned batches |
| ReorderBuffer.NothingIsInvented | app/session/session_store.py:95-138 | whatever is committed or held arrived |
| ReorderBuffer.NothingIsLostWithoutAGap | app/session/session_store.py:106-131 | without a forced flush every arrival at or after the anchor is committed in its place or still held |
| ReorderBuffer.AnyOrderWithinWindowIsResolved | app/session/session_store.py:98-123 | distinct numbers filling a range from the first arrival's, with offsets less than a window apart, end sorted with nothing held and no gap flagged |
| ReorderBuffer.ArrivalOrderIsInvisible | app/session/session_store.py:98-105 | two such orders of the same chunks leave the same transcript |
| ReorderBuffer.EveryArrivalIsIngestedExactly | app/session/session_store.py:95-138 | an arrival numbered below the awaited one changes nothing; the awaited one is committed with the held chunks numbered next up to the first missing one, which alone leave the held; one beyond a gap is held while the window since the first held lasts; once it has passed, the chunk and every other held one are committed, each once and in order, and nothing is left held |
| ReorderBuffer.PresentExactlyWhenTakenIn | app/session/session_store.py:95-138 | over every run, with any number of forced flushes, a number is in the buffer or held if and only if some arrival with it was not below the awaited one when it came |
| Session.SessionRecord.constructor | app/session/session_store.py:47-87 | a new record has an empty buffer, fresh rolling state, no answers and no events |
| Session.TextIsTheConcatenation | app/session/session_store.py:89-93 | the buffer text of no chunk is empty, of one chunk its text, and of two stretches their texts one behind the other |
| Session.SessionRecord.IngestChunk | app/session/session_store.py:95-138 | the in-place ingestion with its three branches does exactly what the specification says, and from any state it can be in exactly the case its number and offset give |
| Session.SessionRecord.CommitWithHeld | app/session/session_store.py:112-123 | the draining loop commits the chunk and the whole held run behind it |
| Session.SessionRecord.HoldBack | app/session/session_store.py:125-138 | a chunk beyond a gap is held, or the chunk and everything else held, each once and in order, is forced out once the window has passed |
| Vectors.CauchySchwarz | app/controller/retrieval_controller.py:78-82 | the squared dot product never exceeds the product of the squared norms |
| Vectors.CosineIsBounded | app/controller/retrieval_controller.py:78-82 | cosine lies in [-1, 1] |
| Vectors.DotIsTheSum | app/controller/retrieval_controller.py:79 | the dot product is the sum of the products of the components |
| Vectors.CosineIsTheQuotient | app/controller/retrieval_controller.py:80-82 | cosine times both norms is the dot product, and it is 0 when a norm is |
| Vectors.StabilityIsBounded | app/controller/retrieval_controller.py:85-94 | the average over all pairs lies in [-1, 1] and is 0 below two embeddings |
| Vectors.StabilityIsTheMean | app/controller/retrieval_controller.py:85-94 | up to a window of embeddings the score is 0 below two and else the mean of the cosines of all n(n-1)/2 pairs |
| Vectors.OlderEmbeddingsAreInvisible | app/controller/retrieval_controller.py:90 | embeddings before the last window change nothing |
| Vectors.StabilityOfTheLastTwo | app/controller/retrieval_controller.py:86-89 | under a window of two the score is the cosine of the last two embeddings |
| Vectors.ParallelEmbeddingsAreStable | app/controller/retrieval_controller.py:85-94 | when the last window of embeddings, or two and more that do not fill it, are positive multiples of one non-zero vector, the score is exactly 1 |
| Controller.EntityDiff | app/controller/entity_extraction.py:116-119 | exactly the slots absent before or changed |
| Controller.PassKeepsValid | app/controller/retrieval_controller.py:97-217 | every pass keeps the wait counter within its limit and all vectors of one dimension |
| Controller.PassDecidesExactly | app/controller/retrieval_controller.py:97-217 | from the state, the chunk and the readings of the outside parts, every pass has exactly the outcome and the next state of one decision table: raising, suppression, no news, refinement, ambiguity between 0.4 and the refinement threshold, and the gate with its waits, forced and unforced retrievals and their triggers |
| Controller.EntitiesAreCurrent | app/controller/retrieval_controller.py:117-134 | after every completed pass, suppression included, no entity of the transcript is unknown or outdated, and current entities stay unchanged |
| Controller.UnforcedNeedsADelta | app/controller/retrieval_controller.py:132-202 | a retrieval that is not forced was preceded by an entity delta |
| Controller.TopicsAreEstablishedUnforced | app/controller/retrieval_controller.py:200-201 | in any run a topic is established exactly when some retrieval fired unforced |
| Controller.FirstUnforcedExactly | app/controller/retrieval_controller.py:167-204 | in any run, until one has fired, the k-th chunk fires an unforced retrieval exactly when it brings new entities and either its stability suffices or it is final with fewer than a window of chunks embedded |
| Controller.HistoryIsTheEmbedded | app/controller/retrieval_controller.py:115-116 | in any run the embedding of each embedded chunk stands in the history behind those embedded before it |
| Controller.ReadingIsTheCosineOfTheLastTwo | app/controller/retrieval_controller.py:85-94 | in any run under a window of two, the reading at an embedded chunk is the cosine of its embedding with that of the last chunk embedded before it |
| Controller.FirstUnforcedComparesTheLastTwo | app/controller/retrieval_controller.py:166-201 | so until a retrieval has fired unforced, such a chunk fires one exactly when it brings new entities and that cosine reaches the threshold |
| Controller.NoRefiringWithoutNews | app/controller/retrieval_controller.py:136-137 | once a retrieval has fired unforced, chunks without a new entity never retrieve, forced or not, however many follow |
| Controller.RunsCompose | app/controller/retrieval_controller.py:97-110 | running over two lists of chunks is running over their concatenation |
| Controller.AtMostOneUnforcedPerFrame | app/api/stream.py:129-158 | passes over one transcript retrieve unforced at most once, and not at all when the entities were current |
| Controller.PatiencePerPass | app/controller/retrieval_controller.py:177-202 | unstable waits raise the counter by one, non-refining retrievals reset it, nothing else moves it |
| Controller.UnstableWaitsAreAccountedFor | app/controller/retrieval_controller.py:132-202 | in any run the unstable waits are at most the limit times the resets plus the current counter, which is within the limit |
| Controller.UnstableWaitsAreBounded | app/controller/retrieval_controller.py:132-202 | in any run the unstable waits are at most the limit times one more than the non-refining retrievals |
| Controller.ForcedExactlyEveryRound | app/controller/retrieval_controller.py:177-198 | on a never suppressed stream without entities the k-th chunk is a forced retrieval exactly when the limit plus one divides k, and waits otherwise |
| Controller.LacksHistoryExactly | app/controller/retrieval_controller.py:114-178 | in any run a chunk is judged on too short a history exactly when it was embedded and fewer than window - 1 chunks were embedded before it |
| Controller.OnlyTheFirstLacksHistoryExactly | app/controller/retrieval_controller.py:173-178 | only a session's first chunk lacks history if and only if the window is two and it was embedded, or no later chunk was |
| Controller.ALaterChunkCanBeConclusive | app/controller/retrieval_controller.py:173-178 | after a first chunk that raised, or under a larger window, a second, final chunk with new entities retrieves at once |
| Controller.RetrieveFor | app/controller/retrieval_controller.py:220-271 | the retrieval logs its decision, and topic and evidence are replaced only when the pipeline returns |
| Controller.AtTheGate | app/controller/retrieval_controller.py:167-217 | the stability gate with its wait counter, in place |
| Controller.Consider | app/controller/retrieval_controller.py:136-165 | the branches once entities are merged, including the refinement's fallback, in place |
| Controller.OnChunk | app/controller/retrieval_controller.py:97-217 | one pass on the record does exactly what the specification says, at every point where an outside call may raise, and logs exactly its events |
| Sorting.SortIsSorted | app/reranking/cross_encoder.py:87-94 | sorting by descending score sorts and permutes |
| Sorting.SortIsStable | app/retrieval/fusion.py:80 | rows of equal score keep their order |
| RankFusion.RrfFuse | app/retrieval/fusion.py:40-61 | the loops create fresh row objects that hold exactly the specified rows, and the chunk map is that of the retrieved chunks, each row's among them |
| RankFusion.ChunksAreThoseRetrieved | app/retrieval/fusion.py:47-56 | every recorded chunk is one of those retrieved, under its own id, and every retrieved id is recorded |
| RankFusion.AddList | app/retrieval/fusion.py:51-56 | one list adds its reciprocal ranks to the scores and its chunks to the record |
| RankFusion.RowsAreFresh | app/retrieval/fusion.py:57-60 | fused rows have consecutive new ids, name one of the sub-queries and have nothing set yet |
| RankFusion.OneRowPerPair | app/retrieval/fusion.py:43-46 | no (sub-query, chunk) pair has two rows |
| RankFusion.EveryChunkHasARow | app/retrieval/fusion.py:51-60 | every chunk of every list has its row with its fused score |
| RankFusion.FusedScoreIsTheSum | app/retrieval/fusion.py:50-56 | a chunk scores the sum of 1/(rrf_k + rank + 1) over the ranks at which it stands in the dense and in the sparse list |
| RankFusion.ChunksStandInOrder | app/retrieval/fusion.py:51-60 | a sub-query's chunks come in the order in which they first appear in its dense and then its sparse list |
| RankFusion.OneMoreSubQuery | app/retrieval/fusion.py:43-61 | each further sub-query adds one unmarked row per chunk behind the others, in that order and under consecutive ids |
| RankFusion.TheLastRecordCounts | app/retrieval/fusion.py:47-56 | of several records of one chunk the last one is kept |
| RankFusion.ScoresSumToTheHarmonicTotals | app/retrieval/fusion.py:50-60 | a sub-query's scores sum to the harmonic totals of its two lists |
| RankFusion.NoWorseRanksNoLowerScore | app/retrieval/fusion.py:50-56 | ranked no worse in either duplicate-free list, where it may be absent, means no lower score |
| RankFusion.AgreementWinsExactlyUpTo | app/retrieval/fusion.py:50-56 | chunks in both lists always outscore chunks in only one if and only if lists are no longer than rrf_k + 1 |
| RankFusion.AgreementCanTie | app/retrieval/fusion.py:50-56 | one rank more and there are lists on which they tie |
| Greedy.KeepersAreIndependent | app/retrieval/fusion.py:84-101 | greedy keeping leaves pairwise unmatched elements |
| Dedup.SurvivorsAreTheGreedyIndependentSet | app/retrieval/fusion.py:80-101 | a row survives exactly when it matches no survivor ranked before it |
| Dedup.JudgementIsFinal | app/retrieval/fusion.py:84-101 | survivors keep their row; any other row names the first survivor it matches, the highest-scoring one, of no lower score than its own, never itself a duplicate |
| Dedup.SurvivorsAreDissimilar | app/retrieval/fusion.py:87-96 | survivors have pairwise distinct chunks with cosine at most the threshold |
| Dedup.DuplicatesSayTheSame | app/retrieval/fusion.py:80-101 | a row is left as it is or marked as the duplicate of another one that is unmarked, scores no lower, and has its chunk or a text of cosine above the threshold |
| Dedup.FirstDuplicate | app/retrieval/fusion.py:85-96 | the inner search with its lazily filled embedding cache finds what recomputing would find |
| Dedup.JudgeAll | app/retrieval/fusion.py:84-101 | the outer loop sets exactly the specified verdicts |
| Dedup.Dedup | app/retrieval/fusion.py:71-103 | in place, every row ends with its specified verdict and no other change |
| Contradictions.FlaggedExactlyWhenContradicted | app/retrieval/fusion.py:122-138 | a row is flagged exactly when another active row of its entity differs on a numeric slot; rows with one id name one entity |
| Contradictions.SharedIdsExactlyWithOneSlot | app/retrieval/fusion.py:109-110 | contradicting rows share one id on all evidence if and only if at most one numeric slot can differ |
| Contradictions.TwoSlotsCanPartAPair | app/retrieval/fusion.py:131-138 | with two such slots there is evidence on which a contradicting pair ends with two ids |
| Contradictions.MarkTwice | app/retrieval/fusion.py:131-138 | a pair that differs on several slots ends as if it differed on one |
| Contradictions.SetPair | app/retrieval/fusion.py:136-138 | a pair takes the first row's id, else the second's, else a new one |
| Contradictions.FlagContradictions | app/retrieval/fusion.py:106-140 | in place, only active rows' pair ids change, to the specified ones, and without an entity slot nothing changes |
| Contradictions.RowsAreFlaggedExactly | app/retrieval/fusion.py:116-140 | an active row of so flagged evidence has a pair id exactly when another active row contradicts it, and rows with one id name one entity |
| Contradictions.FlaggedExactlyWhenTextsContradict | app/retrieval/fusion.py:116-140 | a row that is no duplicate has a pair id exactly when the text of another such row gives the same entity and a different value for a numeric slot |
| Rerank.PoolTakesTheBest | app/reranking/cross_encoder.py:86 | a candidate is left out of the pool only for as many of no lower fusion score |
| Rerank.RerankKeepsTheBest | app/reranking/cross_encoder.py:86-94 | a relevant row of the pool is left out only when final_k rows of no lower score are kept |
| Rerank.RerankedIsKept | app/reranking/cross_encoder.py:86-94 | kept rows are scored pool rows, relevant, in descending order, at most final_k |
| Rerank.RerankSubquery | app/reranking/cross_encoder.py:73-94 | in place, each row of the pool gets the score that the cross-encoder gives the pair of the sub-query's text and its own chunk's text, nothing else changes, and the kept rows are the relevant ones of highest such score, at most final_k, from the candidates of highest fusion score |
| Rerank.RerankingIsReranking | app/reranking/cross_encoder.py:73-94 | the specification itself, told by fusion scores and asked pairs alone: a pool of the candidates of highest fusion score, each scored for its own text, and of these the relevant ones of highest score, others left out only for final_k of no lower score |
| EvidenceCap.CapIsASelection | app/reranking/cross_encoder.py:97-121 | exactly min(total, cap) of the kept rows in descending order, the best of each sub-query among them when slots suffice |
| EvidenceCap.CapIsOptimal | app/reranking/cross_encoder.py:100-104 | with slots enough, no selection of that size covering every sub-query has a higher total |
| EvidenceCap.CapIsTheBestOnePerSubQuery | app/reranking/cross_encoder.py:113-114 | with more sub-queries than slots, no selection with one row each has a higher total |
| EvidenceCap.TruncateToTokenBudget | app/reranking/cross_encoder.py:124-138 | the longest prefix whose tokens fit the budget |
| EvidenceCap.TokensAreTheSum | app/reranking/cross_encoder.py:124-139 | the tokens counted against the budget are the sum of those of the rows' chunks |
| MultiIntent.MergeSimilar | app/decomposition/multi_intent.py:383-409 | the loop with its parallel embeddings list computes the specified groups |
| MultiIntent.KeptQueriesAreIndependent | app/decomposition/multi_intent.py:391-409 | kept queries are a subsequence of the proposals with pairwise cosine at most the threshold |
| MultiIntent.MergingIsFirstCome | app/decomposition/multi_intent.py:391-409 | each proposal is kept behind the others when no kept query exceeds the threshold with it, and else its text goes to the first that does |
| MultiIntent.AbsorbedTextsMatchTheirKeeper | app/decomposition/multi_intent.py:393-405 | an absorbed text exceeds the threshold with its own keeper and with none before it |
| MultiIntent.MergingPartitionsTheProposals | app/decomposition/multi_intent.py:391-409 | kept and absorbed texts are a permutation of the proposals |
| MultiIntent.MergingIsIdempotent | app/decomposition/multi_intent.py:383-409 | merging the kept queries again absorbs nothing |
| MultiIntent.Decompose | app/decomposition/multi_intent.py:467-528 | without a compound signal, a returned model or a proposal, the one sub-query is the transcript itself; otherwise the sub-queries are proposals in their order, no two alike, with every other text at the first one alike to it and none lost; ids are fresh, and a failed or empty proposal alone gives one fallback signal |
| EvidencePipeline.EvidenceIsRelevantAndBounded | app/controller/retrieval_controller.py:376-418 | a turn's rows are distinct non-duplicate candidates of its sub-queries, relevant enough, in descending order, within cap and token budget |
| EvidencePipeline.EvidenceIsDissimilar | app/controller/retrieval_controller.py:376-418 | any two of them are different chunks with cosine at most the dedup threshold |
| EvidencePipeline.EvidenceWasRetrieved | app/controller/retrieval_controller.py:388-418 | every row is no duplicate and has its chunk, under its own id, among the turn's retrievals |
| EvidencePipeline.NoSubQueryDominates | app/controller/retrieval_controller.py:396-415 | no sub-query has more than final_k rows |
| EvidencePipeline.EverySubQueryIsRepresented | app/reranking/cross_encoder.py:10-15 | with slots enough and a budget that cuts nothing, each sub-query's best kept row is there |
| EvidencePipeline.EvidenceIsScoredForItsQuery | app/controller/retrieval_controller.py:396-415 | every row's score is the cross-encoder's for its own sub-query's text and its own chunk's text |
| EvidencePipeline.EvidenceIsCappedGroups | app/controller/retrieval_controller.py:396-418 | a turn's evidence is the longest prefix within the budget of the capped groups, one group per sub-query: its non-duplicate judged rows, each once, reranked for its own text |
| EvidencePipeline.DedupAndFlag | app/controller/retrieval_controller.py:388-394 | deduplication and flagging in sequence leave the judged rows, with the specified verdicts and the specified pair ids |
| EvidencePipeline.JudgedRowsAreTheFused | app/controller/retrieval_controller.py:388-394 | the judged rows are the rows fused under rrf_k, each as it was or the duplicate, by the dedup threshold, of an unmarked one that says the same and scores no lower, apart from pair ids |
| EvidencePipeline.RerankAll | app/controller/retrieval_controller.py:396-415 | the loop keeps, per sub-query, exactly what reranking the judged rows keeps, undisturbed by later sub-queries |
| EvidencePipeline.FuseAndRerank | app/controller/retrieval_controller.py:376-418 | the composed stages return a turn's evidence in the sense of the lemmas above, made from the retrieval results and their chunks, each row scored for its own sub-query |
| EvidencePipeline.DecomposeAndFuse | app/controller/retrieval_controller.py:339-373 | from any transcript to the sub-queries that decomposition makes of it, the transcript itself or a split of the proposals, one retrieval for each, and such evidence from what was retrieved |
| Sentences.StreamingIsOneShot | app/generation/streaming_generator.py:313-345 | the loop's sentences and stripped remainder are those of splitting the whole text once |
| Sentences.TokenCutsAreInvisible | app/generation/streaming_generator.py:316-325 | they depend only on the concatenation of the tokens |
| Sentences.NoVisibleCharacterIsLost | app/generation/streaming_generator.py:237-241 | sentences and remainder carry exactly the visible characters, in order |
| Sentences.EveryPieceIsASentence | app/generation/streaming_generator.py:237-241 | every piece starts visibly, ends with its end mark and holds no boundary inside |
| Sentences.SentencesEndAtTheFirst | app/generation/streaming_generator.py:50 | a buffer is split at the first whitespace behind '.', '!' or '?': up to there the stripped sentence, and behind the whitespace the rest, split again |
| Sentences.NoEndNoSentence | app/generation/streaming_generator.py:237-241 | a buffer without such a place holds no complete sentence |
| Sentences.PythonMarksAreSolid | app/generation/streaming_generator.py:50 | the assumption of the lemmas holds for the source's whitespace |
| CitationTags.ParsedTagIsAReading | app/grounding/citation_validator.py:35 | a parsed tag splits the text as the pattern says |
| CitationTags.ParseIsTheGreediestReading | app/grounding/citation_validator.py:35 | a tag is found whenever the text has a reading, with the document of every reading and no shorter section |
| CitationTags.ParseOfFormat | app/grounding/citation_validator.py:39-43 | a printed tag is parsed back, whatever harmless text follows |
| CitationTags.RoundTrip | app/grounding/citation_validator.py:109-115 | extraction from tags interleaved with bracket-free text returns exactly those tags in order |
| CitationTags.DocId | app/models/document.py:33-37 | a document id keeps the safe characters of the path in their places and has an underscore for every other |
| CitationTags.LabelsAreDecimal | scripts/ingest_corpus.py:151 | a section label is the section sign and its number in decimal, without a leading zero |
| CitationTags.CorpusTagsArePrintable | app/models/document.py:16-37 | ids from make_doc_id and numbered section labels meet the round trip's assumptions for both whitespace classes |
| CitationTags.KeyIsInjective | app/grounding/citation_validator.py:36 | two corpus tags share a lookup key only if they are the same |
| CitationTags.NextMatch | frontend/src/components/answer/citationParsing.ts:15-17 | the search finds the first tag from a position on, or that there is none |
| CitationTags.SplitAnswerIntoSegments | frontend/src/components/answer/citationParsing.ts:12-24 | the segments concatenate to the input, none is empty, and the citation segments are exactly the extracted tags |
| CitationTags.BothSidesReadTheSameTags | frontend/src/components/answer/citationParsing.ts:1-3 | server and browser read the same tags in any text on whose characters their whitespace classes agree |
| CitationTags.SidesAgreeExactly | frontend/src/components/answer/citationParsing.ts:1-3 | over any alphabet with the brackets and two letters, two whitespace classes lead to the same tags if and only if they agree on every character of it |
| CitationTags.ServerAndBrowserAgreeExactly | frontend/src/components/answer/citationParsing.ts:1-3 | for the classes of the two pattern languages, if and only if none of six characters is in the alphabet |
| Grounding.TheBestRowHoldsTheSlot | app/grounding/citation_validator.py:78-106 | a tag's slot goes to a citable row of the highest fusion score, the first among equals |
| Grounding.FillByTag | app/grounding/citation_validator.py:84-105 | the loop leaves each slot with its holder, keys in insertion order |
| Grounding.SlotsStandInOrder | app/grounding/citation_validator.py:81-105 | the slots stand in the order of the first citable rows of their tags, one for every such tag |
| Grounding.BuildEvidenceLookup | app/grounding/citation_validator.py:75-106 | exactly the citable rows' tags are keys, every entry is a citable row under its own key, and each slot holds its tag's winner when keys tell the tags apart |
| Grounding.CorpusKeysAreInjective | app/grounding/citation_validator.py:106 | keys tell the tags of any chunks apart that ingestion labelled |
| Grounding.OverlapIsAShare | app/grounding/citation_validator.py:118-127 | overlap times the number of the sentence's words is the number it shares with the chunk; it lies in [0, 1], is 1 exactly when the chunk has all the words and positive exactly when they share one |
| Grounding.AcceptedExactlyWhenGrounded | app/grounding/citation_validator.py:130-175 | a sentence is accepted, unchanged and with one citation per tag, exactly when all its tags resolve and one cited chunk supports it enough |
| Grounding.TurnedDownForAReason | app/grounding/citation_validator.py:138-147 | a sentence that is not accepted is turned down for a tag that names nothing, else for having no tag, else for too little support |
| Grounding.UncertaintyShowsNoCitation | app/grounding/citation_validator.py:178-181 | the stand-in for an ungrounded sentence is never read as a citation |
| Generation.TopIsTheBest | app/generation/streaming_generator.py:292 | the score compared with the minimal relevance is the best of the active rows |
| Generation.InsufficientExactly | app/generation/streaming_generator.py:289-301 | there is too little evidence exactly when no active row reaches the minimal relevance |
| Generation.EverySentenceMayStand | app/generation/streaming_generator.py:380-427 | whatever the model does, every sentence is grounded or an uncertainty statement, none is empty, with at most one rewrite each |
| Generation.NothingToCiteNothingClaimed | app/generation/streaming_generator.py:380-427 | with an empty lookup the answer is made of uncertainty statements only |
| Generation.EveryCitationIsEvidence | app/generation/streaming_generator.py:406-411 | every citation names a non-duplicate row of the turn whose chunk was retrieved in the turn, stamped with the answer's id and with the share of the claim's words that this chunk has |
| Generation.EveryCitationIsTheBest | app/grounding/citation_validator.py:81-106 | when rows and tags can be told apart, every citation names the citable row of its tag with the highest fusion score, the first among equals |
| Generation.EventsTellTheAnswer | app/generation/streaming_generator.py:405-427 | one delta per sentence under the version's number, one citation event per citation, and only the remainder's delta is marked final |
| Generation.FailuresAreTold | app/generation/streaming_generator.py:341-344 | a stream that breaks off leaves one error event, and any other none |
| Generation.NextVersionKeepsNumbering | app/generation/streaming_generator.py:311-375 | the i-th version has number i and supersedes the one before |
| Generation.AnswerExactlyWhenVisible | app/generation/streaming_generator.py:345-363 | an answer comes about exactly when the stream holds a visible character |
| Generation.FinalizeAndEmit | app/generation/streaming_generator.py:380-427 | the retry loop settles a sentence as specified and logs its events in order |
| Finishing.EverySentenceIsFinished | app/generation/streaming_generator.py:380-427 | every sentence of the stream and its remainder, in order: it stands as it is if grounded; otherwise one rewrite is asked for, and that stands, stripped, if grounded; otherwise the stand-in states the reason against the last of the two |
| Finishing.EveryTextStandsOrSaysSo | app/grounding/citation_validator.py:130-181 | each text of an answer is such a stand-in, or all its tags name citable rows of the turn and one of them a row whose chunk has enough of the text's words |
| Generation.DrainSentences | app/generation/streaming_generator.py:321-340 | the inner loop finishes every complete sentence of the buffer and keeps the rest |
| Generation.ConsumeTokens | app/generation/streaming_generator.py:313-340 | the token loop finishes exactly the stream's complete sentences |
| Generation.StreamSentences | app/generation/streaming_generator.py:313-360 | stream, failure point and remainder give the answer of splitting the whole text once |
| Generation.StreamAnswer | app/generation/streaming_generator.py:272-377 | nothing without sub-queries, clarifications without enough evidence, otherwise the specified answer with its version and events appended |
| TagSeams.JoiningShowsTheSameExactly | app/grounding/citation_validator.py:35 | two texts joined by a blank show exactly the tags of both, each over its own stretch, if and only if no bracket left open in the first with at most two words behind it is completed to a tag by the second |
| TagSeams.AnswerShowsItsTextsExactly | app/generation/streaming_generator.py:369 | the joined texts of an answer show exactly their tags, each over its own stretch, if and only if no seam is bridged so |
| AnswerTags.CitationsAreTheTags | app/generation/streaming_generator.py:406-411 | whatever the model does, an answer's citations are exactly the tags its sentences show, in order |
| AnswerTags.VersionShowsItsCitationsExactly | app/generation/streaming_generator.py:369 | a version's text shows its sentences' tags in place if and only if no seam is bridged, and then its tags are exactly its citations |
| AnswerTags.TidyVersionShowsItsCitations | app/generation/streaming_generator.py:369 | when brackets occur only in tags and stand-ins, a version's text shows exactly its citations |
| AnswerTags.JoiningCanMakeATag | app/generation/streaming_generator.py:369 | for any two tags, two texts that each show only the first can join to one that shows the second |
| AnswerTags.AVersionCanShowAnInventedTag | app/generation/streaming_generator.py:369-427 | a stream and a rewrite from which the answer loop makes two accepted sentences and a version whose text shows a tag besides |
| AnswerTags.SuchATurn | app/grounding/citation_validator.py:4-6 | such a turn in full, with its lookup, for any two tags of which the lookup does not know the second, and for any reader that finds words in both sentences and loses none when texts are joined by a blank |
| Reducer.HistoryHasNoRepeats | frontend/src/state/sessionReducer.ts:56-61 | over any actions the history's version numbers are distinct and the activity list stays within 300 |
| Reducer.ActivityIsTheLatest | frontend/src/state/sessionReducer.ts:56-61 | the activity list is the latest 300 events of the whole log, newest first |
| Reducer.TheLastDecisionStands | frontend/src/state/sessionReducer.ts:115-126 | the page shows the last decision of the log, if it holds one |
| Reducer.OnlyRetrievalStartsATurn | frontend/src/state/sessionReducer.ts:115-126 | a decision to retrieve empties the draft, any other leaves it, and none touches the history |
| Reducer.VersionsReplaceTheDraft | frontend/src/state/sessionReducer.ts:235-250 | a version replaces the draft by its number, text, citations and what it supersedes, and is listed unless its number is |
| Reducer.NewSessionsStartEmpty | frontend/src/state/sessionReducer.ts:96-101 | a new session empties answer and history and keeps activity and last decision |
| Reducer.DraftIsTheCommittedText | frontend/src/state/sessionReducer.ts:224-233 | from an empty draft, folding an answer's events gives exactly the text that is committed |
| Reducer.TurnKeepsMirroring | frontend/src/state/sessionReducer.ts:235-250 | a turn extends the page's history exactly as it extends the session's versions |
| Reducer.HistoryTellsTheVersions | frontend/src/state/sessionReducer.ts:235-250 | a page that saw the whole log lists of each version the text, citations and numbers that the server committed |
| Frames.PageDraftsTheVersion | frontend/src/state/sessionReducer.ts:111-250 | from any page state, the events of a whole turn up to the version leave the version's text as draft |
| Frames.PageShowsTheDecision | frontend/src/state/sessionReducer.ts:115-126 | once the page has seen the events of a pass it shows what the pass decided or attempted |
| Frames.FallbackEvidenceNeedsANewHit | app/controller/retrieval_controller.py:323-326 | evidence handed on by a refinement can be cited exactly as far as this turn retrieved it anew; without that the answer claims nothing |
| Frames.AFallbackCanLeaveNothingToCite | app/controller/retrieval_controller.py:323-326 | a run of two chunks from a new session whose second turn answers from evidence it cannot cite, with a non-empty answer of uncertainty statements only |
| Trace.EveryVersionIsSafe | app/generation/streaming_generator.py:272-427 | over a whole session every version is the answer of one of its turns: sentences that stand on citable rows of that turn's evidence or uncertain, citations to its retrieved non-duplicate evidence, the best of its tag as far as rows and tags can be told apart, and events that tell exactly these |
| Trace.OneVersionPerAnswer | app/generation/streaming_generator.py:363-377 | a session has exactly one version per turn that asked the model and whose stream held a visible character |
| Trace.EveryFailureIsLogged | app/api/stream.py:121-158 | the log of a session holds exactly one error event for each frame at fault, each pass that raised and each stream that broke off |
| SessionEvidence.RunPipeline | app/controller/retrieval_controller.py:339-373 | decomposition, retrieval and fusion over any text give a pass's outcome: the text itself as sub-query or a split of the model's proposals, one retrieval for each, and a turn's evidence made from these |
| SessionEvidence.EveryVersionCitesChosenEvidence | app/controller/retrieval_controller.py:323-418 | when each retrieving pass gets what the pipeline gives for its transcript, or a refinement for its delta query, every version of a session is the safe answer of a pass to the sub-queries of its text, whose rows all reached the minimal relevance and are pairwise different chunks with cosine at most the dedup threshold, compared as retrieved by that pass or, when a refinement found nothing, by the earlier pass that chose them; each citation names its tag's best row when keys tell tags apart |
| SessionEvidence.EveryPassAnswersFromChosen | app/controller/retrieval_controller.py:323-336 | every pass that answers does so from its own pipeline's evidence or, as a refinement whose pipeline found nothing, from that of an earlier pass, well chosen among the chunks the choosing pass retrieved |
| SessionEvidence.ServedFromThePipeline | app/api/stream.py:121-158 | the same of the versions of every session that frames are served to |
| Controller.EvidenceOverRuns | app/controller/retrieval_controller.py:323-336 | over any run, whatever holds of no evidence and of all that the pipeline returns holds of all evidence answered from |
| EvidencePipeline.EvidenceIsWellChosen | app/controller/retrieval_controller.py:376-418 | a turn's rows are distinct, reached the minimal relevance, and any two are different chunks of the turn's retrievals, no more similar than the dedup threshold |
| Frames.AnswerTurn | app/api/stream.py:144-155 | a retrieval leaves exactly the version and the events of its turn, or requests for clarification |
| Frames.FollowUp | app/api/stream.py:144-158 | a pass is followed by its answer, by an error event if it raised, or by nothing |
| Frames.ProcessChunk | app/api/stream.py:136-158 | one committed chunk: the pass, its decision events and what follows it, with state, versions and log fixed |
| Frames.ProcessCommitted | app/api/stream.py:136-158 | the loop gives every committed chunk its pass over the one transcript, in its own world, and records pass and answer |
| Frames.HandleFrame | app/api/stream.py:121-158 | one frame keeps the session valid, with versions and log those of what happened, and retrieves unforced at most once; an unreadable one adds an error event only |
| Frames.Serve | app/api/stream.py:121-158 | over a whole session every chunk of the transcript had its pass, in order, in one run, and each pass saw the transcript exactly as the arrival that committed its chunk left it; versions and log are those of the passes and their answers; every version is safe; unforced retrievals are no more than readable frames, unstable waits are bounded, and the page mirrors the versions |
| Tokens.ToksOfConcat | scripts/ingest_corpus.py:70 | a text cut where no word runs across has the tokens of its parts |
| Tokens.WindowTokens | scripts/ingest_corpus.py:221-222 | the text between two token boundaries, tokenized again, has exactly the tokens between |
| Tokens.ToksAreRead | scripts/ingest_corpus.py:70 | whitespace is skipped, a run of word characters is one token, any other character is one by itself |
| Chunker.WindowsRestore | scripts/ingest_corpus.py:214-224 | every window is within the budget, and dropping the overlaps restores the paragraph's tokens |
| Chunker.WindowCount | scripts/ingest_corpus.py:217-223 | one window and then the fewest steps that cover the tokens beyond the budget |
| Chunker.WindowsOverlap | scripts/ingest_corpus.py:217-222 | consecutive windows share exactly the overlap |
| Chunker.WindowsAreStretches | scripts/ingest_corpus.py:221-222 | every window is a stretch of the paragraph as it stands there, from one visible character to another |
| Chunker.Windows | scripts/ingest_corpus.py:214-224 | the loop returns exactly these windows |
| Packing.ParagraphsHoldNoBreak | scripts/ingest_corpus.py:71 | no paragraph holds a blank line |
| Packing.OneParagraph | scripts/ingest_corpus.py:71 | a text without a blank line is one paragraph, stripped |
| Packing.ParagraphsSplitAtBreaks | scripts/ingest_corpus.py:71 | any other is split at its first newline, blanks or tabs, and newline, and again behind it |
| Packing.ParagraphsKeepToks | scripts/ingest_corpus.py:71 | the paragraphs hold exactly the text's tokens |
| Packing.SectionPiecesAccount | scripts/ingest_corpus.py:227-250 | a section's pieces are within the budget and, overlaps dropped, are exactly its tokens |
| GreedyPacking.PiecesAreGreedyGroups | scripts/ingest_corpus.py:227-250 | the pieces are those of the non-blank paragraphs taken in consecutive groups: a paragraph beyond the budget by itself, cut into windows, and any other group within the budget, joined by blank lines and closed only when the next paragraph would not have fitted |
| Packing.SectionPieces | scripts/ingest_corpus.py:227-250 | the packing loop returns exactly these pieces |
| Documents.HeadingIsAReading | scripts/ingest_corpus.py:68 | a heading reads as the pattern, with its non-empty title |
| Documents.HeadingIsTheShortestReading | scripts/ingest_corpus.py:68 | a line that reads as the pattern is a heading with no longer a title than the reading's, unless the shortest title is empty |
| Documents.HeadingsAreRead | scripts/ingest_corpus.py:68 | one to six '#'s, a blank and a plain title are a heading with that title, seven or more are none |
| Documents.NoHashNoHeading | scripts/ingest_corpus.py:68 | a line without '#' is no heading |
| Documents.FencesAreRead | scripts/ingest_corpus.py:69 | a line is a fence exactly when three back-ticks or tildes stand behind at most three blanks |
| Documents.LinesAreTheText | scripts/ingest_corpus.py:155 | the lines hold no line break, and joined by line breaks they are the text |
| Text.StripIsTheCore | scripts/ingest_corpus.py:149 | stripping takes whitespace from both ends, and what it leaves neither starts nor ends with any |
| Documents.SectionsKeepToks | scripts/ingest_corpus.py:141-164 | the sections' bodies hold exactly the tokens of the lines that are no headings, in order |
| Documents.SectionsAreNumberedInOrder | scripts/ingest_corpus.py:142-143 | section numbers strictly increase and no section is empty |
| Documents.SplitSections | scripts/ingest_corpus.py:141-164 | the line loop with its fence flag returns exactly the specified sections, which `Sections.SectionsAreTheStretches` tells by the lines alone |
| Sections.SectionsAreTheStretches | scripts/ingest_corpus.py:141-164 | every section is the stretch of lines behind one heading, or behind the start, up to the next: its title is the one read at that heading, its number counts the headings so far, its body is the stripped stretch; and every stretch that is not blank has its section. A line is a heading when it reads as one and as many fences were closed as opened |
| Sections.SectionsArePackedGreedily | scripts/ingest_corpus.py:260-264 | under the budget that the title's tokens leave, at least one, and an overlap below it, a section's pieces are its paragraphs packed greedily |
| Documents.ChunksShowTheirSection | scripts/ingest_corpus.py:259-280 | every chunk stands under the number and title of the section whose piece it shows |
| Documents.EveryPieceHasItsChunk | scripts/ingest_corpus.py:264-266 | every piece of a section that holds a word has its chunk |
| Documents.ChunksFit | scripts/ingest_corpus.py:253-280 | every chunk has at most max(max_tokens, title tokens + 1) tokens |
| Documents.ChunksAreNumbered | scripts/ingest_corpus.py:268 | a chunk's index is its position in the document |
| Documents.NoWordIsLost | scripts/ingest_corpus.py:253-280 | every word outside headings appears in some chunk, in document order and, overlaps dropped, once |
| Documents.ChunkDocument | scripts/ingest_corpus.py:253-280 | the loops return section, text and index of exactly the specified chunks |
| Corpus.DistinctDocumentsMakeATarget | scripts/ingest_corpus.py:338-351 | the chunks of any documents of distinct ids are pairwise distinct chunks of their corpus, as every theorem on ingestion asks of its target |
| Corpus.Load | scripts/ingest_corpus.py:329-345 | the loop over the files returns the documents with content in order, and refuses exactly when two of them share an id |
| Corpus.Prepare | scripts/ingest_corpus.py:311-354 | a corpus is refused exactly when two documents share an id or no chunk results; otherwise its chunks are those of its documents in order and make a valid target |
| Corpus.TheTargetHoldsEveryChunk | scripts/ingest_corpus.py:311-354 | the chunks of a corpus are exactly those of its files, each under its document's id and its section's label, with the title and a blank line before its piece |
| Corpus.IngestFiles | scripts/ingest_corpus.py:378-466 | from any files, a refusal writes nothing and any other run is an attempt at a valid target that crashes exactly where the process dies, and does not when it makes all the writes |
| Ingestion.SettledAgrees | scripts/ingest_corpus.py:428-463 | after a full run points, BM25 records, chunk file and manifest all hold exactly the target, from whatever disk |
| Ingestion.AgreeingIsUpToDate | scripts/ingest_corpus.py:357-375 | a disk that agrees passes the up-to-date check |
| Ingestion.ReRunsAreIdempotent | scripts/ingest_corpus.py:10-12 | on an agreeing disk an unforced attempt reports no change, and no attempt, forced or crashed, changes anything |
| Ingestion.AttemptRecovers | scripts/ingest_corpus.py:378-466 | every attempt leaves a recoverable disk, and one that completes leaves agreement |
| Ingestion.RetriesRecover | scripts/ingest_corpus.py:378-466 | from an agreeing or unknown corpus, any number of attempts crashed anywhere and then one that completes leave all stores in agreement |
| Ingestion.OtherCorporaAreUntouched | app/retrieval/dense.py:154-166 | no attempt, completed or crashed, touches another corpus |
| Ingestion.OnlyTheCountIsSeen | scripts/ingest_corpus.py:357-375 | after a crash that reached no file the check passes exactly for the earlier content, when as many new points came as old ones went |
| Ingestion.FilesAreNoticed | scripts/ingest_corpus.py:357-375 | after a crash behind the BM25 file it passes only on a disk that agrees |
| Ingestion.CompletedRunAgreesExactlyUnless | scripts/ingest_corpus.py:357-375 | from an agreeing disk, through an attempt at other content crashed anywhere, a completed run leaves agreement if and only if it was forced or the crash did not slip through: the earlier content, no file, as many points added as deleted, one replaced or embedded anew |
| Ingestion.ARevertCanMislead | scripts/ingest_corpus.py:375 | a crash that replaced a point and a return to the earlier content that the check does not notice |
| Ingestion.AModelChangeCanMislead | scripts/ingest_corpus.py:375 | a crash that embedded a point by another model and a return to the earlier model that it does not notice either |
| CrashChains.HistoryLeaves | scripts/ingest_corpus.py:428-463 | from an agreeing disk, any history of attempts at any contents, each crashed anywhere, leaves exactly the points, BM25 content and chunk file its folding gives, under the old manifest |
| CrashChains.CompletedRunAgreesExactly | scripts/ingest_corpus.py:357-375 | after any such history a completed run leaves agreement if and only if it was forced or the check does not overlook the remains: the content of the last agreement, in the BM25 file, as many points, but other points or models or another chunk file |
| CrashChains.ACrashedRevertCanMislead | scripts/ingest_corpus.py:357-375 | a replacement crashed before its manifest and a return crashed before its chunk file, after which the check passes although the chunk file holds the replacement's chunks |
| Ingestion.Stores.UpsertChunks | app/retrieval/dense.py:104-135 | the batches write exactly the first chunks in order, all of them when the process makes that many writes |
| Ingestion.Stores.DeleteStale | app/retrieval/dense.py:154-166 | only this corpus's stale points are deleted, all of them when the process makes that many writes |
| Ingestion.WriteFiles | scripts/ingest_corpus.py:436-460 | the three files are replaced one after the other, the manifest last, and where the process dies decides which |
| Ingestion.IngestCorpus | scripts/ingest_corpus.py:378-466 | a corpus that does not load writes nothing; any other run is an attempt as specified that crashes exactly where the process dies, and does not when it makes all the writes |

## Left out

- Language model, embedding, cross-encoder, spaCy and BM25 scoring code: they are parameters, and `tokenize` enters only as the set of a text's words.
- HTTP, authentication, WebSocket transport, timeouts, health checks, evaluation and session expiry by wall clock.
- Floating-point rounding: scores, cosines and thresholds are reals.
- Unicode: lower-casing and the classes of word characters and whitespace are parameters, except for the two whitespace classes in `Text`.
- Generated identifiers: citation ids are left out (a version lists its citations themselves), chunk ids and fingerprints are their hashed content.
- The browser's pipeline stages, sub-query and evidence panels, transcript, entities and notices: `Reducer` keeps decisions, answers and activity.
- Telemetry of decomposition, retrieval and reranking: counted as events that touch neither answer nor history.
- Document discovery, decoding, title detection and the loading of slot schemas: `Corpus` starts from the texts of the supported files, and files that cannot be decoded are not part of it.
- Collection creation and the scroll paging of point ids: a store is a map, and its ids are read at once.
- `BM25Index.search` and the index registry: a sort and a filter over scores the model does not have.
- DeleteStale: deletes point by point in any order rather than in sorted batches, so that a crash may fall between any two points.
- FlagContradictions: the loop over the numeric slots sets a pair once, which `MarkTwice` shows to be the same as once per differing slot.
- EvidenceCap.CapGlobalEvidence: works on the rows' values, because it changes no row.
- Pipeline: in a session the outcome of decomposition, retrieval and fusion is a parameter of each pass; `SessionEvidence` says what follows when it is what the pipeline gives for the pass's text, of which the wording of a delta query is a parameter.
