# Image-grounded retrieval pipeline: a Dafny model

This project models the core of a small retrieval-augmented question answering
system over annotated street images. It has three parts:

- **The vector store** (`Store`). It is an append-only list of elements, each an
  id, an embedding and the image's metadata. It supports `add`, `get` (first
  element with an id) and `query` (the `k` elements most similar to a query
  vector, best first). Ranking is `similarities.argsort()[-k:][::-1]`, modelled
  over an abstract real-valued similarity. Python's slice rules are reproduced:
  `k == 0` keeps everything, `k > n` keeps all `n` elements, and a negative `k`
  drops the `|k|` lowest-scoring ones.
- **The orchestrator** (`RagPipeline`). It covers the embedding text of an item
  (`build_text`), manifest ingestion (`load_manifest`), assembly of the
  grounding prompt (`create_prompt`) and `ask`. The embedding model, the
  language model and Python's `str` of a tag list are functions given to the
  `Rag` object. A ghost log `calls` records every call into the two models, so
  "nothing is called on an empty store" is a postcondition.
- **The retrieval metrics** (`Evaluation`). These are precision at k, recall at
  k and reciprocal rank, plus the per-query evaluation loop with its averages
  and summary counts. The loop is parameterised by its list of cut-offs; the
  system uses 1, 3, 5 and 10.

`Py` holds the pieces of Python semantics the code relies on: slice bound
normalisation, `[::-1]`, `str.join`, `"".join` and `str` of a non-negative
integer. `Typedefs` holds the shared records. `Metadata` has an `imagePath`
field because the loader stores the row's `image` under that key, although the
declared record type omits it.

Two points of the code's ranking behaviour that the model reproduces as written:

- `query(v, 0)` returns every element, not none, because `argsort()[-0:]` is
  the whole array. A negative `k` also returns elements.
- The tie order of the ranking is not pinned to insertion order. numpy's
  default argsort is not stable, and the result is reversed. Every ranking
  property is proved for every order that sorts the scores (`IsArgsort`), so
  any tie order is covered. `Argsort` is one such order, built by insertion.

## Model

| member | source | states |
|---|---|---|
| Py.SliceIndex | store.py:29 | a slice bound of `a[i:]`/`a[:i]` counts from the end when negative and is clamped to `0..n` |
| Py.Reverse | store.py:29 | `[::-1]` has the same length, and position `i` holds element `n-1-i` |
| Py.ReverseSameElements | store.py:29 | reversing keeps exactly the same members |
| Py.Join | rag.py:82 | `sep.join(xs)` has the total length of the parts plus one separator between each pair |
| Py.JoinSnoc | rag.py:82 | joining one more part appends the separator and that part |
| Py.Concat | rag.py:76-83 | `"".join` of the parts has their total length |
| Py.ConcatAppend | rag.py:76-83 | joining two runs of parts is joining each and concatenating |
| Py.DecimalString | rag.py:79 | `str(n)` is a non-empty digit string with no leading zero that denotes `n` |
| Store.InsertByScore | store.py:29 | inserting an index into an ordering adds exactly that index and keeps the indices valid |
| Store.InsertByScoreDistinct | store.py:29 | insertion of a new index keeps the indices distinct |
| Store.InsertByScoreSorted | store.py:29 | insertion keeps the ordering sorted by score |
| Store.ArgsortPrefix | store.py:29 | the first `m` indices, each once, sorted by score |
| Store.Argsort | store.py:29 | `argsort()` yields a permutation of the indices by non-decreasing score |
| Store.ResultCount | store.py:29 | the number of indices `[-k:]` keeps never exceeds `n` |
| Store.TopOfOrder | store.py:29 | definition: `order[-k:][::-1]` for a given sorting order; its properties are those of Store.TopOfOrderIsTopK |
| Store.IsTopK | store.py:29 | definition of a top-k selection of scores: `ResultCount(k, n)` distinct valid indices, highest score first, none left out scoring higher, every index when `k == 0` or `k >= n` |
| Store.TopOfOrderIsTopK | store.py:29 | for any sorting order, `[-k:][::-1]` keeps `ResultCount(k, n)` distinct valid indices, best first; nothing left out scores higher; `k == 0` or `k >= n` keeps them all |
| Store.ReversedSuffixRanked | store.py:29 | the reversed tail of a sorting order lists distinct valid indices, highest score first |
| Store.ReversedSuffixDominates | store.py:29 | no index outside the tail of a sorting order scores above one inside it |
| Store.TopK | store.py:25-29 | the indices selected by argsort and slice form a top-k selection |
| Store.Pick | store.py:32 | `[store[i] for i in idx]` takes, in order, the element at each index |
| Store.PickConcat | store.py:32 | picking with `a + b` is picking with `a`, then with `b` |
| Store.PickPrefix | store.py:32 | picking indices below a prefix's length is unaffected by later elements |
| Store.PickSubMultiset | store.py:32 | picking distinct indices takes no element more often than it is stored |
| Store.PickSplit | store.py:32 | picking with the last index removed takes the last element once fewer |
| Store.DropOne | store.py:32 | removing the largest index from distinct indices leaves distinct indices below it |
| Store.SubMultisetSameSize | store.py:29-32 | a sub-multiset of the same size is the whole multiset |
| Store.PickTopK | store.py:29-32 | elements picked at top-k indices come best first; no store entry left out, even a copy of a returned value, scores above a returned one; they are a sub-multiset of the store (all of it for `k == 0` or `k >= n`) |
| Store.DuplicatesRankedAsEntries | store.py:29-32 | ranking is per store entry: with `a` stored twice above `b`, the top two are both copies of `a` |
| Store.PickTopKBySimilarity | store.py:21-32 | the entries at the top-k indices of the similarity scores come best first by similarity, leave out nothing more similar, keep `ResultCount(k, n)` entries and take no element more often than stored |
| Store.Scores | store.py:21-26 | the score list holds the similarity of each stored embedding to the query, in store order |
| Store.FirstWithId | store.py:14 | None exactly when no element has the id; otherwise the first element, in insertion order, that has it |
| Store.FirstMatchShift | store.py:14 | a first match after a non-matching head is a first match of the whole list |
| Store.FirstWithIdAppend | store.py:13-14 | elements appended after a match never change a lookup; without a match, the lookup is that of the appended part |
| Store.VectorStore.constructor | store.py:7-8 | a new store is empty |
| Store.VectorStore.Add | store.py:10-11 | the element is appended at the end and nothing else changes |
| Store.VectorStore.Get | store.py:13-14 | the first element with the id, or None exactly when there is none |
| Store.VectorStore.Query | store.py:16-32 | the result is the store entries at the indices of a top-k selection of the similarity scores (empty store: `[]`); so its length is `ResultCount(k, n)`, similarity never increases, no entry left out is more similar, no element is taken more often than stored, and `k == 0` or `k >= n` returns every element |
| RagPipeline.BuildText | rag.py:33-41 | definition: the embedding-text template filled with caption, rendered tags and location; its layout is stated by RagPipeline.BuildTextLayout |
| RagPipeline.BuildTextLayout | rag.py:33-41 | the embedding text is the fixed template with caption, rendered tags and location in that order, each at a known position |
| RagPipeline.BuildTextIgnoresIdentity | rag.py:35-40 | the embedding text depends on caption, tags and location only |
| RagPipeline.RowMetadata | rag.py:52-58 | definition: the `Metadata` record built from one manifest row; its fields are stated by RagPipeline.RowElementFields |
| RagPipeline.RowElement | rag.py:52-66 | definition: the element of one manifest row; its fields are stated by RagPipeline.RowElementFields |
| RagPipeline.ManifestElements | rag.py:46-67 | one element per manifest row, in row order |
| RagPipeline.RowElementFields | rag.py:47-66 | each element has the row's id; its metadata copies the row field by field, with `imagePath` from `image`; its embedding is that of its embedding text |
| RagPipeline.EmbedCalls | rag.py:60-61 | the loader embeds one text per row, in row order, the embedding text of that row |
| RagPipeline.LookupAfterLoad | rag.py:43-67 | after loading, `get` finds an existing entry first, otherwise the element of the first row with that id; None exactly when neither has it |
| RagPipeline.LookupAfterAppend | store.py:13-14 | a lookup over existing elements followed by appended ones finds the first match among the appended ones when the existing ones have none |
| RagPipeline.LoadTwiceDuplicates | rag.py:43-67 | loading a manifest twice keeps both copies, and lookups never return the second copy |
| RagPipeline.Header | rag.py:79 | definition: the heading line `Image n:` of block `n` |
| RagPipeline.HeadersDistinct | rag.py:76-79 | distinct block numbers give distinct heading lines |
| RagPipeline.Block | rag.py:78-83 | definition: heading, then the location, caption and `, `-joined tags lines, then a blank line |
| RagPipeline.Preamble | rag.py:70-75 | definition: the opening f-string with the question inserted; stated by RagPipeline.PromptFrame |
| RagPipeline.Blocks | rag.py:76-83 | definition: the text the block loop appends, block after block; stated by RagPipeline.BlocksConcat, RagPipeline.BlocksSnoc and RagPipeline.BlocksAt |
| RagPipeline.Prompt | rag.py:69-87 | definition: preamble with the question, the numbered blocks, then the closing sentence; stated part by part by RagPipeline.PromptFrame and RagPipeline.PromptBlockAt |
| RagPipeline.BlockTexts | rag.py:76-83 | one block per element, numbered consecutively from the first number |
| RagPipeline.BlockTextsConcat | rag.py:76-83 | the blocks of `a + b` are those of `a`, then those of `b` numbered on past the length of `a` |
| RagPipeline.BlocksConcat | rag.py:76-83 | the block text of `a + b` is that of `a` followed by that of `b`, numbering carried on |
| RagPipeline.BlocksSnoc | rag.py:76-83 | one more element appends exactly its block, numbered one past the length of `es` |
| RagPipeline.BlocksAt | rag.py:76-83 | the block text splits around the block of `es[i]`, which is numbered `i + 1` |
| RagPipeline.PromptBlockAt | rag.py:69-87 | the prompt is the preamble with the question, the blocks before `es[i]`, the block `Image i+1` of `es[i]`, the blocks after it, then the closing sentence |
| RagPipeline.PromptStep | rag.py:76-83 | one turn of the assembly loop appends the next numbered block |
| RagPipeline.PromptEmpty | rag.py:70-86 | with no elements the prompt is the preamble followed directly by the closing sentence |
| RagPipeline.PromptFrame | rag.py:70-86 | the prompt opens with the fixed head, then the question verbatim, then the fixed tail, and ends with the closing sentence |
| RagPipeline.Sources | rag.py:124 | the sources are the metadata of the results, same length, same order |
| RagPipeline.Rag.constructor | rag.py:70-86 | a new pipeline has an empty store, the given models and the prompt texts, and has called nothing |
| RagPipeline.Rag.Embed | rag.py:30-31 | returns the embedding of the text and logs one embedding call |
| RagPipeline.Rag.Generate | rag.py:89-102 | returns the model's answer to the prompt and logs one generation call |
| RagPipeline.Rag.LoadManifest | rag.py:43-67 | the store becomes the old contents followed by one element per row, in row order; one embedding call per row is logged |
| RagPipeline.Rag.CreatePrompt | rag.py:69-87 | the assembled text is the grounding prompt of the question and elements |
| RagPipeline.Rag.Ask | rag.py:104-125 | empty store: None and no model called; otherwise the answer generated from the prompt built on `query(embed(q), k)`, with the metadata of those results as sources; exactly two calls logged, embed then generate |
| Evaluation.CountRelevant | evaluation.py:18 | the number of relevant entries never exceeds the length |
| Evaluation.CountRelevantConcat | evaluation.py:18 | counting is additive over concatenation |
| Evaluation.CountRelevantExtremes | evaluation.py:18 | the count is the length exactly when all entries are relevant, and 0 exactly when none is |
| Evaluation.CountRelevantWithout | evaluation.py:26 | ids absent from the list do not change its count |
| Evaluation.CountRelevantAtMostRelevant | evaluation.py:26-27 | without repeated ids, the count is at most the number of relevant ids |
| Evaluation.Prefix | evaluation.py:17 | `s[:k]` is a prefix of `s` of length `min(k, n)` for `k >= 0`, and all but the last `-k` entries for `k < 0` |
| Evaluation.PrecisionAtK | evaluation.py:13-19 | 0 for `k == 0` or nothing retrieved; within [0, 1] for `k > 0` |
| Evaluation.PrecisionExtremes | evaluation.py:17-19 | for `k >= 1`, precision is 1 exactly when every id of the first `min(k, n)` is relevant, and 0 exactly when none is |
| Evaluation.RatioExtremes | evaluation.py:19 | `f / d` is 1 exactly when `f == d`, and 0 exactly when `f == 0` |
| Evaluation.PrecisionNegativeK | evaluation.py:17-19 | a negative k divides by k itself, so precision is never positive |
| Evaluation.RecallAtK | evaluation.py:21-27 | 0 when there are no relevant ids; never negative |
| Evaluation.CountRelevantPrefixMono | evaluation.py:25-26 | a longer prefix has at least as many relevant entries |
| Evaluation.RecallMonotone | evaluation.py:25-27 | recall never decreases as k grows |
| Evaluation.RecallAtMostOne | evaluation.py:25-27 | with no repeated ids, recall is at most 1 |
| Evaluation.RecallCanExceedOne | evaluation.py:25-27 | a relevant id retrieved twice counts twice: recall of `["a", "a"]` against `{"a"}` at 2 is 2 |
| Evaluation.FirstRelevant | evaluation.py:30-31 | None exactly when no id is relevant; otherwise the smallest index of a relevant id |
| Evaluation.MeanReciprocalRank | evaluation.py:29-33 | within [0, 1]; 0 exactly when nothing relevant is retrieved; 1 exactly when the first id is relevant |
| Evaluation.MrrIgnoresTail | evaluation.py:29-33 | ids after a relevant one do not change the reciprocal rank |
| Evaluation.Mean | evaluation.py:83-87 | the mean is undefined exactly for the empty list |
| Evaluation.SumAtLeast | evaluation.py:83-87 | values at least `lo` sum to at least `n * lo` |
| Evaluation.SumAtMost | evaluation.py:83-87 | values at most `hi` sum to at most `n * hi` |
| Evaluation.MeanAtLeast | evaluation.py:83-87 | the mean of values at least `lo` is at least `lo` |
| Evaluation.MeanWithin | evaluation.py:83-87 | the mean of values within [lo, hi] lies within [lo, hi] |
| Evaluation.RelevantSet | evaluation.py:49 | definition: the set of a query's ground-truth ids |
| Evaluation.RetrievedFor | evaluation.py:52 | definition: the query's results, or `[]` when it has none |
| Evaluation.PerQuery | evaluation.py:44-78 | definition: `query_results`, one record per test query in order; stated by Evaluation.ReportShape and Evaluation.ScoreQueries |
| Evaluation.Series | evaluation.py:39-71 | definition: `all_precision[k]` and `all_recall[k]`, every query's score at `k` in order; stated by Evaluation.SeriesMapValues and Evaluation.ScoreQueries |
| Evaluation.MrrSeries | evaluation.py:41-76 | definition: `all_mrr`, every query's reciprocal rank in order; stated by Evaluation.ScoreQueries and Evaluation.AverageMrrBounded |
| Evaluation.MetricsFor | evaluation.py:55-76 | definition: one query's record; its contents are stated by Evaluation.ReportShape and Evaluation.MissingQueryScoredEmpty |
| Evaluation.ScoresAt | evaluation.py:63-68 | the per-query dictionary has exactly the cut-offs as keys, each mapped to its score |
| Evaluation.AppendScores | evaluation.py:70-71 | appending scores keeps the key set of the lists |
| Evaluation.AppendScoresValues | evaluation.py:63-71 | with distinct cut-offs, each cut-off's list gains exactly its own score and every other list is unchanged |
| Evaluation.SeriesMap | evaluation.py:39-40 | the dictionary of score lists has exactly the cut-offs as keys |
| Evaluation.SeriesMapValues | evaluation.py:39-78 | after the loop, each cut-off's list holds every query's score at that cut-off, in query order |
| Evaluation.AveragesAt | evaluation.py:82-85 | the averages have exactly the cut-offs as keys, each the mean of that cut-off's scores |
| Evaluation.RetrievedCounts | evaluation.py:96 | only queries that retrieved something contribute, each at least 1; empty exactly when none retrieved anything |
| Evaluation.CountedPositions | evaluation.py:94 | definition: the positions of the queries with `num_retrieved > 0`, in order |
| Evaluation.RetrievedCountsContents | evaluation.py:94-96 | the counted positions are increasing and hold exactly the queries with `num_retrieved > 0`; the counts are those queries' `num_retrieved`, one entry each in query order, so there are as many as queries evaluated |
| Evaluation.PositionsSnoc | evaluation.py:94-96 | the positions of the counted queries extend by the last query exactly when it retrieved something |
| Evaluation.CountsSnoc | evaluation.py:96 | the counts at those positions extend by the last query's count when it retrieved something |
| Evaluation.RelevantCounts | evaluation.py:95 | definition: the `num_relevant` of every query, in order, the list averaged for the summary; averaged in Evaluation.EvaluationReport |
| Evaluation.EvaluationReport | evaluation.py:89-98 | definition: the returned report; its shape is stated by Evaluation.ReportShape and its averages by Evaluation.AveragesBounded |
| Evaluation.ScoreQuery | evaluation.py:47-78 | one query's record, with its scores appended to each cut-off's list |
| Evaluation.CutoffStep | evaluation.py:82-85 | one turn of the averaging loop adds the mean of the next cut-off's precision and recall lists |
| Evaluation.AverageCutoffs | evaluation.py:81-85 | the averaging loop yields the mean of every cut-off's list |
| Evaluation.ScoreQueries | evaluation.py:39-78 | the per-query loop yields each cut-off's scores, the reciprocal ranks and the records of all queries, in order |
| Evaluation.EvaluateSystem | evaluation.py:35-98 | the report is that of the test queries at cut-offs 1, 3, 5 and 10 |
| Evaluation.KValuesMembers | evaluation.py:36 | the cut-offs are exactly 1, 3, 5 and 10, all positive |
| Evaluation.KValuesDistinct | evaluation.py:36 | no cut-off is listed twice |
| Evaluation.MissingQueryScoredEmpty | evaluation.py:52 | a query without results is scored as an empty retrieval: nothing retrieved and every score 0 |
| Evaluation.ReportShape | evaluation.py:44-98 | every query is reported in order with its id, text and counts, and is scored at exactly the cut-offs; the averages cover the cut-offs; queries evaluated is at most the total, and 0 exactly when nothing was retrieved for any query |
| Evaluation.AveragesBounded | evaluation.py:80-87 | each average exists exactly when there are test queries; with positive cut-offs mean precision and mean reciprocal rank lie in [0, 1] and mean recall is non-negative |
| Evaluation.OverallBounded | evaluation.py:80-87 | the same bounds, for the overall record built from the averages |
| Evaluation.AverageMrrBounded | evaluation.py:87 | the mean reciprocal rank exists exactly when there are queries, and lies in [0, 1] |
| Evaluation.AveragePrecisionBounded | evaluation.py:82-84 | each mean precision exists exactly when there are queries, and lies in [0, 1] |
| Evaluation.AverageRecallNonNegative | evaluation.py:85 | each mean recall exists exactly when there are queries, and is non-negative |
| Evaluation.AverageRecallAtMostOne | evaluation.py:85 | when no result list repeats an id, each mean recall is at most 1 |
| Evaluation.AverageRetrievedAtLeastOne | evaluation.py:94-96 | the mean number retrieved exists exactly when some query was evaluated, and is then at least 1 |

## Left out

- Cosine similarity (store.py:21-26) is an abstract function `sim` fixed
  when the store is created. numpy arrays and floating point are not modelled.
- Floats are exact reals. `np.mean` of an empty list (NaN with a warning) is `None`.
- The tie order of numpy's argsort is not pinned. Ranking properties hold for every sorting order.
- Store.VectorStore.Query: `query` raises `ValueError` when stored embeddings differ in length
  (`np.array`, store.py:22) or the query's length differs from theirs (`cosine_similarity`,
  store.py:25). The model's `sim` is total, so these errors are not modelled.
- `get`, `query` and the sources of `ask` return the very dict objects the store holds
  (store.py:14, 32; rag.py:124). The model works on values, so aliasing, and mutation of
  stored elements through a returned result, are not captured.
- The sentence-embedding model (rag.py:10-11, 30-31), the language model call with its
  system persona, model name and options (rag.py:13-28, 89-102), and
  Python's `str` of a tag list (rag.py:40) are function parameters of `Rag`.
  `generate` is a fixed function, so the model answers the same prompt the same way every
  time. The real call samples at temperature 0.3 (rag.py:96-99), so its answers can differ.
- The system persona text (rag.py:13-28) is not part of the model. It only reaches the language model.
- `load_manifest` reads its rows from a JSON file (rag.py:44-45). The model takes the
  parsed rows as a sequence. File errors and missing keys (`KeyError`) are not modelled.
- RagPipeline.Rag.CreatePrompt: the prompt's fixed texts are a field of the pipeline set by
  its constructor, not literals inside the method. The field holds exactly the source's texts.
- RagPipeline.Rag.Ask: the console message printed on an empty store (rag.py:106-107) is not modelled.
  The Python `None` return is `Option.None`.
- `RetrievalEvaluator.__init__` reads the test queries from a JSON file (evaluation.py:9-11).
  The model takes the parsed queries as a sequence.
- The per-query and overall dictionaries with keys `precision_at_{k}` and `avg_recall_at_{k}`
  are maps from the cut-off `k`, and the report is a record.
- The query id is an integer key, as the retrieval results are keyed.
- `print_results` and `create_sample_retrieval_results` (evaluation.py:100-164) are console
  output and I/O around a full pipeline run.
- captioning.py, main.py, test.py, server.py and app/src/App.tsx are not part of
  this model. They are model calls, file checks, CLI scripts, an HTTP stub and a UI.
