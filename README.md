# rag-re-ranker, modelled in Dafny

This project models the core of a hybrid-search retrieval service and the two
batch scripts that fill its document store.

At query time, the service works in five steps:

1. It builds a MongoDB match filter from the request's filters.
2. It runs a lexical (BM25) search and a vector search.
3. It merges the two ranked lists by reciprocal-rank fusion (RRF). Each id
   scores `1/(k0 + rank)` per hit; rows are sorted by score with a stable sort
   and cut to `topK`.
4. Optionally, it sends the fused candidates to a cross-encoder rerank
   provider and maps the returned `(index, relevance_score)` entries back onto
   the candidates.
5. It projects everything into response rows.

The two scripts are:

- **The loader** streams a large JSON array in chunks. It cuts the buffer
  after its last complete top-level object, parses that part, skips the first
  1000 documents and inserts the rest in batches of 100, up to 10000.
- **The enricher** asks a language model for a title and at most ten tags per
  stored text. It strips a Markdown code fence from the answer, validates the
  parsed JSON, and saves item by item, counting successes and failures.

Modules, one per file:

| file | module | models |
|---|---|---|
| `wrappers.dfy` | `Wrappers` | `Option` (`undefined`, `??`) and `Result` (a call that may throw) |
| `json.dfy` | `Json` | values as `JSON.parse` returns them |
| `documents.dfy` | `Documents` | repository rows, hits, fused candidates, failures |
| `js_string.dfy` | `JsString` | `trim`, `startsWith`/`endsWith`, the anchored comma `replace`s, `slice(0, end)`, truthiness |
| `stable_sort.dfy` | `StableSort` | `Array.prototype.sort` with a `b - a` comparator; stable since ECMAScript 2019 |
| `mongo_filters.dfy` | `MongoFilters` | `buildMongoFilters` |
| `fusion.dfy` | `Fusion` | `fuseRRF`, its `addList` loop, `fuseResults` |
| `reranker.dfy` | `Reranker` | `trimText`, `voyageRerank` |
| `retrieve_service.dfy` | `RetrieveService` | `retrieveBM25Service`, `retrieveVectorService`, `hybridSearchService` |
| `feed.dfy` | `Feed` | the loader: brace scan, buffer split, skip/cap/batch accounting |
| `enrich.dfy` | `Enrich` | the enricher: fence stripping, validation, the counting loop |

Code that updates state step by step is imperative Dafny. Each such method is
proved equal to a specification function, and the properties are proved about
that function:

- `addList` is `Fusion.AddList`, a loop over the hits proved equal to a left
  fold of row upserts.
- The metadata loop of `buildMongoFilters` is
  `MongoFilters.WriteMetaConditions`.
- The brace scan is `Feed.ScanLastComplete`.
- The loader's mutable state is the class `Feed.Loader`.
- The enricher's loop is `Enrich.EnrichItems`, which works in place on an
  array of items.

Every collaborator is a parameter:

- the search repositories, the embedding model and the rerank provider;
- the language model and `JSON.parse`;
- the file stream (a sequence of chunks), `insertMany` (the batches recorded
  in `inserted`) and `item.save()`.

A collaborator that throws is an `Err`. The retrieval services return their
outcome together with the collaborator calls they made, in order.

## Model

| member | source | states |
|---|---|---|
| MongoFilters.MetaPath | src/utils/mongo.js:20 | the key `meta.<k>`: the prefix `meta.`, then exactly `k` |
| MongoFilters.MetaPathIsNotFixed | src/utils/mongo.js:18-26 | no metadata key can overwrite `title`, `createdAt` or `_id` |
| MongoFilters.MetaConditions | src/utils/mongo.js:18-22 | each metadata entry becomes an equality on `meta.<key>`, and every key present comes from an entry |
| MongoFilters.MetaConditionsAdd | src/utils/mongo.js:19-21 | one more loop iteration adds exactly that entry's condition |
| MongoFilters.MetaConditionsGrow | src/utils/mongo.js:19-21 | writing one more entry over the match built so far equals the match over one more entry |
| MongoFilters.DatedMatch | src/utils/mongo.js:2-14 | `title: {$exists: true}` is always present; `createdAt` is present iff a truthy bound is given; nothing else |
| MongoFilters.MetaMatch | src/utils/mongo.js:18-22 | all metadata entries and only those; never a fixed field |
| MongoFilters.MongoMatch | src/utils/mongo.js:1-30 | the whole match: title check; `$gte`/`$lte` each iff its field is truthy; `meta.<k>` per entry; `_id: {$in}` iff a non-empty id array; no other key |
| MongoFilters.WriteMetaConditions | src/utils/mongo.js:19-21 | the loop over `Object.entries(meta)` adds exactly the metadata conditions to the match |
| MongoFilters.BuildMongoFilters | src/utils/mongo.js:1-30 | the method builds exactly `MongoMatch` |
| Fusion.Occurrences | src/utils/fusion.js:49-50 | definition: the bm25 hits, then the vector hits, each tagged; stated by OccursEither and KeysAreIds |
| Fusion.NewRow | src/utils/fusion.js:22-33 | definition: the row `map.set` creates, with no scores, `fusedScore` 0 and empty `ranks`; stated by FusedRowNew |
| Fusion.Absorb | src/utils/fusion.js:35-45 | definition: one iteration's updates of a row; stated by AbsorbHit, RowTextAgain, LastFromAgain, SourceRanksAgain and FusedRowAgain |
| Fusion.Upsert | src/utils/fusion.js:22-45 | definition: create the row if missing, then absorb the hit; stated by UpsertInPlace and FoldStep |
| Fusion.Fold | src/utils/fusion.js:16-50 | definition: the map after the hits in order; stated by AddList, FoldAppend, FoldKeysPresent and FoldBuildsFusedRows |
| Fusion.FusedRow | src/utils/fusion.js:22-45 | reference row built from FirstIndex, FirstTextIndex, LastFrom and Score; stated by FusedRowScores, tied to the fold by RowsStep and FoldBuildsFusedRows |
| Fusion.Tagged | src/utils/fusion.js:16-20 | one occurrence per hit, in list order, ranked `h.rank ?? i + 1` |
| Fusion.Contribution | src/utils/fusion.js:45 | a hit contributes `1/(k0 + rank)`, which is positive |
| Fusion.FirstIndex | src/utils/fusion.js:22-33 | the first hit of an id, the one that creates its row |
| Fusion.FirstTextIndex | src/utils/fusion.js:38 | the first hit of an id with a truthy text |
| Fusion.LastFrom | src/utils/fusion.js:41-42 | the last hit of an id from one source, the one whose score the row keeps |
| Fusion.Score | src/utils/fusion.js:45 | the summed contributions of an id's hits, positive iff the id occurs |
| Fusion.AbsorbHit | src/utils/fusion.js:35-45 | one iteration's updates of an existing row, as the pure `Absorb` |
| Fusion.AddList | src/utils/fusion.js:16-47 | the loop leaves the map equal to the fold of upserts over the tagged hits |
| Fusion.FoldStep | src/utils/fusion.js:17-46 | the fold over one more hit is one more upsert |
| Fusion.UpsertInPlace | src/utils/fusion.js:22-45 | creating the row if missing and then updating it in place is the upsert |
| Fusion.FoldKeysPresent | src/utils/fusion.js:14-47 | every key of the map has its row |
| Fusion.FoldAppend | src/utils/fusion.js:49-50 | `addList(bm25)` then `addList(vector)` is the fold over both lists, one after the other |
| Fusion.OccursAppend | src/utils/fusion.js:17-19 | an id occurs after one more hit iff it occurred before or is that hit's id |
| Fusion.TextOccursAppend | src/utils/fusion.js:38 | the same, for hits with text |
| Fusion.FirstIndexAppend | src/utils/fusion.js:22-33 | one more hit does not move an id's first hit |
| Fusion.FirstTextIndexAppend | src/utils/fusion.js:38 | one more hit does not move an id's first hit with text |
| Fusion.LastFromAppend | src/utils/fusion.js:41-42 | one more hit of that id and source becomes its last hit |
| Fusion.ScoreAppend | src/utils/fusion.js:45 | one more hit adds its contribution to its own id and nothing to others |
| Fusion.RowTextOther | src/utils/fusion.js:38 | a hit for another id leaves an id's text alone |
| Fusion.FusedRowOther | src/utils/fusion.js:35-45 | a hit for another id leaves an id's row alone |
| Fusion.RowTextAgain | src/utils/fusion.js:38 | a later hit fills the text only if the row has none and the hit has one |
| Fusion.LastFromAgain | src/utils/fusion.js:41-42 | a later hit replaces its own source's score and keeps the other source's |
| Fusion.SourceRanksAgain | src/utils/fusion.js:44 | a later hit overwrites `ranks[source]` |
| Fusion.FusedRowAgain | src/utils/fusion.js:35-45 | the row after a repeated id is the old row updated by that hit |
| Fusion.RowTextNew | src/utils/fusion.js:22-33 | the first hit of an id sets the row's text |
| Fusion.LastFromOccurs | src/utils/fusion.js:41-42 | a source's last hit of an id exists only if the id occurs |
| Fusion.FusedRowNew | src/utils/fusion.js:22-45 | the first hit of an id creates its row and then updates it |
| Fusion.KeyedStep | src/utils/fusion.js:22-33 | after each upsert the keys are the ids seen, each once, in first-seen order |
| Fusion.RowsStep | src/utils/fusion.js:35-45 | after each upsert every row is the fused row of its id over the hits so far |
| Fusion.FoldBuildsFusedRows | src/utils/fusion.js:14-50 | the finished map holds the fused row of every id seen, keyed in first-seen order |
| Fusion.Rows | src/utils/fusion.js:54 | `Array.from(map.values())` has one row per key |
| Fusion.Ranked | src/utils/fusion.js:57 | numbering keeps the length |
| Fusion.RowsAreFusedRows | src/utils/fusion.js:54 | the unsorted rows are the fused rows of the distinct ids, in first-seen order |
| Fusion.SortedRowsOrder | src/utils/fusion.js:55 | after the stable sort, ids stay distinct, scores descend, and equal scores keep first-seen order |
| Fusion.SortedRowsMembers | src/utils/fusion.js:54-55 | every sorted row is the fused row of an id that occurs |
| Fusion.SortedRowsComplete | src/utils/fusion.js:54-55 | every id that occurs has a sorted row |
| Fusion.SortedRowsCount | src/utils/fusion.js:52-55 | there are as many sorted rows as distinct keys (`map.size`) |
| Fusion.SortedRowsDescending | src/utils/fusion.js:55 | the sorted rows' fused scores do not increase |
| Fusion.SortedRowScore | src/utils/fusion.js:54-55 | each sorted row carries its id's summed score |
| Fusion.CutIsNumberedPrefix | src/utils/fusion.js:56-57 | the output is a prefix of the sorted rows, numbered 1..n |
| Fusion.FuseRRF | src/utils/fusion.js:10-60 | definition: fold both lists, stable sort by fused score, `slice(0, topK)`, number from 1; stated by FuseRRFIsCut, FuseRRFRows, FuseRRFUniqueIds, FuseRRFOrder, FuseRRFScores, FuseRRFLength, FuseRRFKeepsBest and FuseRRFKeepsAll |
| Fusion.FuseRRFIsCut | src/utils/fusion.js:49-57 | the fused list is the numbered cut of the rows sorted over both lists read one after the other |
| Fusion.FuseRRFRows | src/utils/fusion.js:10-60 | each output row is its id's fused row with `rank` set to its 1-based position |
| Fusion.FuseRRFUniqueIds | src/utils/fusion.js:14-57 | no id appears twice in the output |
| Fusion.FuseRRFOrder | src/utils/fusion.js:54-55 | output in strictly descending fused score; equal scores in first-seen order, bm25 list first |
| Fusion.CutKeepsBest | src/utils/fusion.js:56 | a row beyond the cut scores no higher than any row kept |
| Fusion.FuseRRFKeepsBest | src/utils/fusion.js:54-57 | an id the cut leaves out scores no higher than any id kept |
| Fusion.OccursTagged | src/utils/fusion.js:16-19 | an id occurs in a tagged list iff it is one of the list's ids |
| Fusion.OccursEither | src/utils/fusion.js:49-50 | an id occurs iff it is in either list |
| Fusion.KeysAreIds | src/utils/fusion.js:19-33 | the map's keys are exactly the union of the two lists' ids |
| Fusion.SortedRowsCountIds | src/utils/fusion.js:52-55 | there is one row per distinct id of the union |
| Fusion.FuseRRFLength | src/utils/fusion.js:54-57 | the output length is `slice(0, topK)` of the number of distinct ids |
| Fusion.RrfSum | src/utils/fusion.js:45 | an id's RRF sum over one list is positive iff the id is in the list |
| Fusion.ScoreConcat | src/utils/fusion.js:45 | the score over two lists is the sum of the scores over each |
| Fusion.ScoreTagged | src/utils/fusion.js:17-20 | the score over a tagged list is the list's RRF sum |
| Fusion.LastFromTagged | src/utils/fusion.js:41-42 | a source keeps a score for an id iff that list contains the id |
| Fusion.FusedRowScores | src/utils/fusion.js:41-45 | a row's fused score is the sum of its two RRF sums; `ranks` names exactly the lists holding the id; a missing side's score stays undefined |
| Fusion.FuseRRFScores | src/utils/fusion.js:16-57 | every output row: fused score = bm25 sum + vector sum, more than either alone when in both lists, ranks and scores per source present iff the id is in that list |
| Fusion.FuseRRFKeepsAll | src/utils/fusion.js:54-57 | with `topK` at least the number of distinct ids, every id is in the output |
| Fusion.FuseResults | src/utils/fusion.js:72-88 | fails with a ReferenceError iff the method is "weighted"; otherwise RRF with `k0` and `topK` defaulting to 60 and 10 |
| Fusion.FuseRRFScenario | src/utils/fusion.js:10-60 | lexical hits 1, 2 and vector hits 2, 3, at ranks 1 and 2, fuse to exactly three rows, ids 2, 1, 3, scoring 1/62 + 1/61, 1/61 and 1/62 |
| Fusion.DuplicateIdCountsTwice | src/utils/fusion.js:20-45 | an id listed twice in one list, without ranks, collects 1/61 + 1/62 |
| Reranker.Sliced | src/utils/reranker.js:23-29 | definition: `candidates.slice(0, preRerankK)`, `preRerankK` defaulting to 50; what the reply makes of the slice is stated by VoyageRerank and FixedRerankLength |
| Reranker.Scored | src/utils/reranker.js:107-118 | definition: the candidate an entry addresses, with its two rerank fields, or nothing; stated by AttachedFromEntries and PresentAttachCount |
| Reranker.RerankScored | src/utils/reranker.js:106-122 | definition: attach, drop the unresolved, stable sort by relevance, cut at `topK`; stated by RerankScoredResolves, RerankScoredOrder, RerankScoredLength, RerankScoredKeepsBest and RerankScoredDistinctBound |
| Reranker.TrimText | src/utils/reranker.js:3-8 | "" for a missing or empty text; otherwise a prefix of it, the whole text within the budget, exactly `maxChars` long beyond it, `slice` rules for a negative budget |
| Reranker.Docs | src/utils/reranker.js:32 | one document per sliced candidate |
| Reranker.RerankRequest | src/utils/reranker.js:22-44 | no request iff every trimmed document is empty; otherwise query, model, the trimmed documents in order, and `top_k = min(topK, docs.length)` |
| Reranker.Attach | src/utils/reranker.js:106-119 | one slot per provider entry |
| Reranker.Present | src/utils/reranker.js:120 | `filter(Boolean)` keeps at most the entries it is given |
| Reranker.VoyageRerank | src/utils/reranker.js:21-126 | the bare `slice(0, topK)` of the candidates iff nothing would be sent; otherwise the model and the sorted, cut, resolved provider entries |
| Reranker.PresentFrom | src/utils/reranker.js:120 | every kept candidate came from a slot |
| Reranker.PresentHas | src/utils/reranker.js:120 | every filled slot is kept |
| Reranker.PresentIncreasing | src/utils/reranker.js:120 | the filter keeps the slots' order |
| Reranker.ResolvedCount | src/utils/reranker.js:111-112 | the number of entries whose index addresses a sliced candidate |
| Reranker.PresentAttachCount | src/utils/reranker.js:106-120 | exactly the resolvable entries survive the filter |
| Reranker.AttachedFromEntries | src/utils/reranker.js:106-120 | each kept candidate is the addressed candidate with the entry's score and 1-based provider position |
| Reranker.RerankScoredResolves | src/utils/reranker.js:106-122 | the same for every reranked output row |
| Reranker.AttachedInProviderOrder | src/utils/reranker.js:107-117 | before the sort, `rerankRank` strictly increases |
| Reranker.RerankScoredOrder | src/utils/reranker.js:121 | output in descending relevance; equal relevance keeps provider order |
| Reranker.RerankScoredLength | src/utils/reranker.js:106-122 | the output length is `slice(0, topK)` of the number of resolvable entries |
| Reranker.CutKeepsBest | src/utils/reranker.js:122 | a candidate beyond the cut has no higher relevance than any kept |
| Reranker.RerankScoredKeepsBest | src/utils/reranker.js:106-122 | a resolvable entry left out scores no higher than any output row |
| Reranker.RerankFallbackIgnoresProvider | src/utils/reranker.js:36-37 | with all texts empty, the provider is never asked and the first `topK` candidates come back unchanged |
| Reranker.RerankWithoutData | src/utils/reranker.js:103 | a reply without a `data` array reranks nothing |
| Reranker.RerankRankNotDense | src/utils/reranker.js:107-117 | an unresolvable first entry leaves the only output row with `rerankRank` 2 |
| Reranker.FixedDataResolves | src/utils/reranker.js:68-100 | the fixed reply resolves `min(n, 6)` entries for `n` candidates |
| Reranker.FixedRerankLength | src/utils/reranker.js:29-122 | with the fixed reply, a sent request yields `slice(0, topK)` of `min(k, 6)` rows |
| Reranker.CountIndex | src/utils/reranker.js:107-117 | never more entries address a candidate than the reply holds |
| Reranker.ResolvedCountNone | src/utils/reranker.js:107-117 | against no candidates nothing resolves |
| Reranker.ResolvedCountNext | src/utils/reranker.js:107-117 | admitting one more candidate adds exactly the entries addressing it |
| Reranker.CountIndexAbsent | src/utils/reranker.js:107-117 | an index no entry names is addressed zero times |
| Reranker.CountIndexDistinct | src/utils/reranker.js:107-117 | with distinct indices, each candidate is addressed at most once |
| Reranker.ResolvedCountDistinct | src/utils/reranker.js:107-117 | with distinct indices, at most `n` entries resolve against `n` candidates |
| Reranker.RerankScoredDistinctBound | src/utils/reranker.js:106-122 | with distinct indices, the reranked list is no longer than the slice, nor than a non-negative `topK` |
| Reranker.RepeatedIndexDuplicates | src/utils/reranker.js:107-117 | two entries with index 0 yield that one candidate twice |
| Reranker.FixedDataDistinct | src/utils/reranker.js:68-100 | the fixed reply names each document at most once |
| RetrieveService.Bm25Hits | src/services/retrieve.service.js:27-36 | a hit per row: rank = position + 1, a missing score becomes 0, no vector score, other fields copied |
| RetrieveService.VectorHits | src/services/retrieve.service.js:58-67 | the same with the vector score |
| RetrieveService.RetrieveBM25 | src/services/retrieve.service.js:19-37 | a blank query returns `[]` without calls; otherwise one text search with `k ?? 10` and the built match, whose rows or error it passes on |
| RetrieveService.RetrieveVector | src/services/retrieve.service.js:47-68 | a blank query returns `[]` without calls; otherwise embed first, and only on success the vector search, whose rows or error it passes on |
| RetrieveService.FusedAnswers | src/services/retrieve.service.js:115-124 | one answer per fused row: rank = position + 1, fused fields copied, no rerank fields, no `meta`/`createdAt` |
| RetrieveService.RerankedAnswers | src/services/retrieve.service.js:101-112 | one answer per reranked row, with missing rerank fields defaulting to 0 |
| RetrieveService.HybridSearch | src/services/retrieve.service.js:78-125 | a blank query answers `[]` without calls |
| RetrieveService.RerankOptionsOf | src/services/retrieve.service.js:94-99 | definition: model, `preRerankK` and `maxDocChars` from the filters, `topK` = `k`; used by HybridReranks |
| RetrieveService.FusionOf | src/services/retrieve.service.js:87 | definition: `filters.fusion || "rrf"`; stated by HybridFusesBoth and HybridWeightedFails |
| RetrieveService.Retrieved | src/services/retrieve.service.js:83-89 | definition: both retrievals, one after the other, then fusion; stated by RetrievedSequential, HybridStartsWithRetrieval and RetrievedUnreranked |
| RetrieveService.RerankStep | src/services/retrieve.service.js:91-112 | definition: the rerank step as written, reading `.reranked` of the reply; stated by HybridReranks, RerankFallbackFails and NoHitsWithRerankFails |
| RetrieveService.RerankStepCorrected | src/services/retrieve.service.js:91-112 | definition: the rerank step with the early return read as the reranked list; stated by CorrectedFallbackAnswers and CorrectedAgreesWhenAnswering |
| RetrieveService.RetrievedSequential | src/services/retrieve.service.js:83-84 | text search first; on its failure nothing else; then embed; then vector search |
| RetrieveService.HybridStartsWithRetrieval | src/services/retrieve.service.js:79-84 | the hybrid calls begin with the two retrievals; a retrieval failure ends the request with it |
| RetrieveService.HybridSequential | src/services/retrieve.service.js:78-84 | the hybrid call order: text search, embed, vector search |
| RetrieveService.HybridFusesBoth | src/services/retrieve.service.js:83-124 | without rerank, the answers are the RRF fusion of both lists, cut to `k` |
| RetrieveService.HybridWeightedFails | src/services/retrieve.service.js:86-89 | "weighted" fusion fails with a ReferenceError |
| RetrieveService.HybridReranks | src/services/retrieve.service.js:91-112 | with rerank and a request to send, one provider call after retrieval, and the answers are the reranked rows |
| RetrieveService.HybridAnswersLackMeta | src/services/retrieve.service.js:101-124 | no answer carries `meta` or `createdAt` |
| RetrieveService.RerankFallbackFails | src/services/retrieve.service.js:94-101 | with rerank and all texts empty, the request fails with a TypeError |
| RetrieveService.FuseNothing | src/utils/fusion.js:54-57 | two empty lists fuse to nothing |
| RetrieveService.NoHitsWithRerankFails | src/services/retrieve.service.js:83-101 | with rerank and no hits at all, the request fails with a TypeError |
| RetrieveService.FusedRowsUnreranked | src/utils/fusion.js:23-32 | fused rows carry no rerank fields |
| RetrieveService.RetrievedUnreranked | src/services/retrieve.service.js:83-89 | the fused candidates handed to the reranker carry no rerank fields |
| RetrieveService.HybridSearchCorrected | src/services/retrieve.service.js:91-113 | a blank query answers `[]` without calls |
| RetrieveService.CorrectedFallbackAnswers | src/services/retrieve.service.js:94-112 | corrected: the empty-text fallback answers the first `k` fused rows with rerank fields 0 and no provider call |
| RetrieveService.CorrectedAgreesWhenAnswering | src/services/retrieve.service.js:78-125 | the correction makes the same calls and changes nothing where the code answers or fails otherwise |
| Feed.Remainder | feed.js:60-65 | definition: what the buffer keeps after the cut; stated by RemainderInfix, RemainderPrefix, RemainderWithin and KeepAfter |
| Feed.Cleaned | feed.js:70-73 | definition: leading and trailing commas dropped, then trimmed; each step is stated by DropLeading, DropTrailing and Trim |
| Feed.CutDocuments | feed.js:59-79 | definition: the documents of the cut, none when it is blank or `JSON.parse` throws; stated by ParseCut and ChunkRemainder |
| Feed.Streamed | feed.js:31-79 | definition: the buffer and documents after a run of chunks; stated by StreamedNext and Load |
| Feed.LastComplete | feed.js:41-52 | -1, or an index in 1..len |
| Feed.LastCompleteIsLast | feed.js:44-52 | -1 iff no `}` brings the depth to zero; otherwise the last such `}` ends right before the index |
| Feed.ScanLastComplete | feed.js:41-52 | the brace-counting loop computes exactly `LastComplete` |
| Feed.Opened | feed.js:35-38 | after the first chunk the buffer is untouched; on the first, trim and one leading `[` dropped |
| Feed.ChunkStep | feed.js:31-74 | with no complete object the buffer is kept and nothing is parsed |
| Feed.RemainderInfix | feed.js:59-65 | the kept buffer is a piece of the text after the cut |
| Feed.RemainderPrefix | feed.js:59-65 | what precedes it there is blanks and at most one comma |
| Feed.RemainderWithin | feed.js:59-65 | both facts, for one starting index |
| Feed.ChunkRemainder | feed.js:58-74 | after a cut, the kept buffer is a piece of the text after the last complete object, preceded only by blanks and at most one comma, and the documents come from the text before the cut |
| Feed.KeepAfter | feed.js:60-65 | trim, drop one leading comma, trim again |
| Feed.ParseCut | feed.js:59-79 | a parsed cut is `CutDocuments`; a blank or unparsable cut yields nothing |
| Feed.Drop | feed.js:82-87 | the documents after the first `n` |
| Feed.DropSnoc | feed.js:83-91 | one more read document is skipped while within the first `n`, then batched |
| Feed.Loader.constructor | feed.js:25-29 | empty buffer and batch, counters at zero, first chunk pending |
| Feed.Loader.ReadDocument | feed.js:82-92 | one document counted and, past the skip, appended to the batch |
| Feed.Loader.ReadDocuments | feed.js:82-92 | every parsed document of a cut is read in order |
| Feed.FlattenFull | feed.js:95-107 | full batches hold `BatchSize` documents each, in total |
| Feed.RoomForFullBatch | feed.js:95-101 | below the cap, full batches leave room for another full batch, so `min(BATCH_SIZE, remainingSlots)` is `BATCH_SIZE` |
| Feed.Loader.InsertBatch | feed.js:99-103 | the batch is the front of the waiting documents; it is appended to the inserted ones and the counter grows by its size |
| Feed.Loader.SaveFullBatches | feed.js:95-107 | earlier inserts kept; every new batch is full unless the cap is reached, and when all earlier batches were full they all still are; between chunks no full batch waits below the cap |
| Feed.Loader.TakeComplete | feed.js:31-74 | the buffer and documents of one chunk are those of `ChunkStep` |
| Feed.Loader.OnChunk | feed.js:31-115 | a chunk appends its parsed documents and inserts whole batches while below the cap |
| Feed.Loader.Finish | feed.js:118-127 | afterwards, the inserted documents are exactly the parsed ones after the skip, up to the cap; at most one batch is added, so only the last may be partial |
| Feed.StreamedNext | feed.js:31-74 | one more chunk extends the stream state by one chunk step: its buffer replaces the old, its documents are appended |
| Feed.Load | feed.js:12-127 | the whole run: chunks are read until the cap is reached; inserted = the first 10000 parsed documents after the first 1000, in batches of 1..100, all but the last exactly 100 |
| Enrich.CleanResponse | enrich.js:31-39 | definition: trim, then fence removal; stated by JsonFenceRoundTrip, PlainFenceRoundTrip, UnfencedUnchanged and GenerateAccepts |
| Enrich.CloseFence | enrich.js:36-38 | the closing fence and the blanks before it are removed |
| Enrich.StripFence | enrich.js:34-39 | stripping never lengthens the text |
| Enrich.StripFenceChanges | enrich.js:35-39 | the text changes iff it starts with a fence, and then by at least three characters |
| Enrich.UnwrapFence | enrich.js:36-38 | blanks, clean text, blanks and a closing fence unwrap to the clean text |
| Enrich.NotJsonFenced | enrich.js:35-37 | a plain fence followed by blanks, or by text not starting with `json`, is not a `json` fence |
| Enrich.JsonFenceRoundTrip | enrich.js:31-36 | a json-fenced answer yields the enclosed clean text |
| Enrich.PlainFenceRoundTrip | enrich.js:31-38 | a plain-fenced answer yields the enclosed clean text, unless text starting with `json` follows the fence directly |
| Enrich.UnfencedUnchanged | enrich.js:31-39 | an unfenced clean answer is passed on unchanged |
| Enrich.Property | enrich.js:44-52 | a property read finds a value iff the parsed value is an object holding the key |
| Enrich.Validate | enrich.js:44-59 | a TypeError iff the answer is `null`; each validation error iff its check is the first to fail; on success, the answer's title and tags |
| Enrich.ValidateAccepts | enrich.js:44-59 | accepted iff a non-empty string title, an array of tags and at most ten tags, and then well-formed |
| Enrich.TagLimit | enrich.js:52-54 | ten tags pass, eleven fail |
| Enrich.Prompt | enrich.js:24 | the template, a fixed 18-character separator, then the text |
| Enrich.GenerateTitleAndTags | enrich.js:23-60 | a model failure is passed on; a missing answer text is a TypeError; any result is well-formed |
| Enrich.GenerateAccepts | enrich.js:26-59 | success iff the model answers, the cleaned answer parses and validation passes; unparsable text is a SyntaxError |
| Enrich.Process | enrich.js:93-112 | the text is kept; a saved item has a non-empty title and at most ten tags |
| Enrich.ProcessCases | enrich.js:93-112 | a missing text or a failed generation leaves the item unsaved and unchanged; otherwise title and tags are set and `save` decides |
| Enrich.Outcomes | enrich.js:92-113 | one outcome per item |
| Enrich.Count | enrich.js:105 | at most one success per outcome |
| Enrich.Successes | enrich.js:88-113 | at most one success per item |
| Enrich.CountAll | enrich.js:105-111 | all succeeded iff the count is the total; none iff it is zero |
| Enrich.OutcomesAt | enrich.js:92-113 | the i-th outcome is the i-th item's |
| Enrich.AllOrNone | enrich.js:88-113 | `successCount` is the item count iff every item saved, and zero iff none did |
| Enrich.Processed | enrich.js:92-113 | one resulting item per item |
| Enrich.ProcessedStep | enrich.js:92-113 | one more iteration appends one item and adds at most one success |
| Enrich.ProcessedAt | enrich.js:99-100 | the i-th resulting item is the i-th item processed |
| Enrich.EnrichItems | enrich.js:88-113 | success + error = the number of items; successes as specified; every item updated as specified |
| JsString.StartsWith | enrich.js:35-37 | definition of `startsWith`; stated by StartsWithOneChar and StripFenceChanges |
| JsString.EndsWith | enrich.js:36-38 | definition: the text ends with the suffix, as the `$`-anchored fence pattern requires; used by CloseFence |
| JsString.Truthy | src/utils/fusion.js:38 | definition: a present, non-empty string; stated by FirstTextIndex and RowTextAgain |
| JsString.SkipBlanks | feed.js:36 | the first non-blank index at or after `i`, with only blanks skipped |
| JsString.SkipBlanksBack | feed.js:36 | the end of the text before trailing blanks, with only blanks skipped |
| JsString.TrimStart | enrich.js:36 | `replace(/^\s+/, "")`: the longest suffix that does not start with a blank |
| JsString.TrimEnd | enrich.js:36 | `replace(/\s+$/, "")`: the longest prefix that does not end with a blank |
| JsString.Trim | enrich.js:31 | the result neither starts nor ends with a blank |
| JsString.TrimIsInfix | feed.js:59-60 | `trim` cuts only blanks, from both ends: the result is an infix |
| JsString.TrimEmpty | feed.js:67 | `trim` is empty iff the text is all blanks |
| JsString.TrimStartOfClean | enrich.js:36 | blanks followed by clean text trim to the text |
| JsString.TrimEndOfClean | enrich.js:36 | clean text followed by blanks trims to the text |
| JsString.TrimOfClean | enrich.js:31 | clean text is its own trim |
| JsString.StartsWithOneChar | feed.js:63 | `startsWith(",")` tests the first character |
| JsString.DropLeading | feed.js:71 | `replace(/^,+/, "")` removes exactly the leading commas |
| JsString.DropTrailing | feed.js:72 | `replace(/,+$/, "")` removes exactly the trailing commas |
| JsString.SliceEnd | src/utils/fusion.js:56 | where `slice(0, end)` stops, never past the length |
| JsString.Take | src/utils/fusion.js:56 | `slice(0, end)` is a prefix of that length |
| StableSort.Insert | src/utils/fusion.js:55 | inserting adds exactly one element |
| StableSort.SortDesc | src/utils/fusion.js:55 | the sort is a permutation |
| StableSort.InsertDescending | src/utils/fusion.js:55 | insertion keeps keys descending |
| StableSort.SortDescDescending | src/utils/fusion.js:55 | sorted keys descend |
| StableSort.InsertDescendingThen | src/utils/reranker.js:121 | insertion of an earlier element keeps the key-then-tie order |
| StableSort.SortDescStable | src/utils/reranker.js:121 | the sort is stable: equal keys keep their input order |
| StableSort.InsertDistinctBy | src/utils/fusion.js:55 | insertion of a new id keeps ids distinct |
| StableSort.SortDescDistinctBy | src/utils/fusion.js:55 | sorting keeps ids distinct |

## Behaviour worth knowing

- **Weighted fusion.** `fuseResults` calls a `fuseWeighted` that is defined
  nowhere, so "weighted" throws a ReferenceError (`Fusion.FuseResults`,
  `RetrieveService.HybridWeightedFails`).
- **`rerankRank` is not dense.** It is the entry's position in the provider's
  reply, set before unresolvable entries are dropped and before the sort
  (`Reranker.RerankRankNotDense`).
- **A repeated provider index duplicates a candidate.** Each entry that
  addresses a candidate yields a row, so two entries with index 0 yield that
  candidate twice (`Reranker.RepeatedIndexDuplicates`). Only when the indices
  are distinct is the result bounded by the slice and by `topK`
  (`Reranker.RerankScoredDistinctBound`); the fixed reply has distinct indices
  (`Reranker.FixedDataDistinct`).
- **The all-empty-text fallback.** It is not a safe degraded path in the
  hybrid service; see Findings.
- **The two-list example.** With lexical hits 1 and 2 and vector hits 2 and 3,
  each at ranks 1 and 2, ids 1, 2 and 3 score 1/61, 1/62 + 1/61 and 1/62, so
  the fused order is `[2, 1, 3]` (`Fusion.FuseRRFScenario`).
- **An id repeated within one list counts twice.** Reciprocal rank fusion adds
  a term per hit, not per distinct id (`Fusion.DuplicateIdCountsTwice`).
- **The two retrievals run one after the other.** The hybrid call awaits the
  text search before it embeds the query and runs the vector search
  (`RetrieveService.HybridSequential`).
- **Hybrid response rows.** They never carry `meta` or `createdAt`, because
  fused rows do not have them (`RetrieveService.HybridAnswersLackMeta`).
- **Documents past the cap.** The loader's `break` at feed.js:88-90 never
  fires: once `totalProcessed` reaches the cap, the stream loop ends at
  feed.js:110-112, before another document is read. Documents past the cap
  stay in the batch and are never inserted.

## Left out

- Logging, `console.*` output, `process.exit` and the database connection are not modelled. The timing in `voyageRerank` (`Date.now`, `rerankLatencyMs`) is not modelled either.
- Numbers are exact reals, not IEEE doubles, so fused and relevance scores carry no rounding. `Number.isFinite` is an `Option` that is None when an option is missing or not finite.
- Ranks are at least 1 and `k0` is a natural number, so `1/(k0 + rank)` is always defined. A hit `rank` of 0 or below, a negative `k0` and the resulting Infinity or negative scores are not modelled.
- `String(_id)` is the id itself, a string. Hits whose distinct `_id`s print the same are not modelled.
- Strings are sequences of code points. JavaScript's UTF-16 units are not modelled, so `length`, `slice` and `trimText`'s budget count characters.
- `new Date(...)` is an uninterpreted function of the string. An invalid date is not modelled.
- Fusion.FuseResults: `fuseWeighted` does not exist in the source, so weighted fusion has no behaviour to model beyond the ReferenceError.
- Reranker.VoyageRerank: the HTTP call to the provider is commented out in the source and replaced by a fixed reply. The model takes the reply as a parameter (`provider`), and `Reranker.FixedProvider` is that fixed reply. The provider's `!resp.ok` error path is commented out and is not modelled.
- The retrieval repositories (`retrieveBM25Repo`, `retrieveVectorRepo`), `geminiEmbed` and the Atlas Search pipelines they run are collaborators, given as deterministic functions. The `k` and filter defaults of the HTTP layer and the Joi request schema are not part of this model.
- Feed.ChunkStep: the brace scan counts braces inside JSON strings too, as the source does. A `{` or `}` inside a string value can cut mid-object; parsing then fails and the cut's objects are lost, which the model represents as an empty cut.
- Feed.Loader: an `insertMany` that throws is not modelled. Every batch is recorded as inserted.
- Feed.Loader: the `break` at feed.js:88-90 is left out because it is unreachable (see above).
- Feed.Load: the stream is a finite sequence of chunks, and the 64 KB chunk size is not modelled.
- Enrich: the database query that selects the items is not modelled. It selects items whose title is missing, null or "", at most 100 of them. The model starts from the array of items it returned.
- Enrich: the early exit when no items are found and the `GOOGLE_API_KEY` check are not modelled. Both only log and exit.
- Enrich: reading the prompt template file is not modelled; the template is a parameter.
- Enrich.EnrichItems: the text preview `items[i].text.substring(0, 100)` is logging only. A missing text fails the item at that read, before generation, which the model keeps.
- Enrich.EnrichItems: Mongoose's casting of the tag values to strings on save is not modelled. Tags are stored as the parsed JSON values.
- Enrich.EnrichItems: a `save` that fails still leaves the item's title and tags set in memory, as in the source. It counts as an error.

## Findings

| source | as written | input that shows it | evidently intended | confidence | as-written member | corrected member |
|---|---|---|---|---|---|---|
| src/services/retrieve.service.js:94-101 | with `rerank` set, the service reads `rerankResults.reranked.map(...)`, but `voyageRerank`'s all-empty-text fallback (src/utils/reranker.js:37) returns a bare array, so `.reranked` is undefined and the request throws a TypeError | a reranked query whose fused candidates all have empty text, or whose two retrievals return no hits at all | the fallback answers the first `k` fused candidates unreranked, as `voyageRerank`'s own comment describes | not executed | RetrieveService.RerankFallbackFails | RetrieveService.CorrectedFallbackAnswers |
