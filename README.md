# Reranker: the ranking step of `/rerank`

This project models the one piece of logic in the reranking service: what the
`rerank` handler does between receiving a request and building its response.
Given a query, an ordered list of documents and an optional `top_n`, the
handler

1. builds one `[query, document]` pair per document, in document order;
2. hands that batch to a cross-encoder, which returns one relevance score per
   pair;
3. zips the documents with the scores and tags each record with its original
   position (`index`);
4. sorts the records by `relevance_score`, highest first, with Python's stable
   `sorted(..., reverse=True)`, so tied records keep their original order;
5. keeps `results[:top_n]` when `top_n` is given.

The model is written as pure functions over sequences (module `Rerank` in
`rerank.dfy`, with `Option` in `wrappers.dfy`), because the handler only
builds new lists and rebinds names. The cross-encoder is not modelled: the
scores it returns for the batch `Pairs(query, documents)` are an input
sequence `scores`. Scores are `real`; only their order matters.

The central results:

- `RankResults` (the whole step) returns records that each point back to their
  own document and score, in the ranked order (score descending, ties by
  original index), with distinct indices, drawn from the enumerated records
  without loss or duplication, of the length that `zip` and Python slicing
  give, and such that every record left out by `top_n` ranks below every
  record kept.
- `RankedUnique` shows the ranked order of a set of records is unique, so
  `RankResultsMatchesAnyStableSort` concludes that the insertion sort used
  here yields exactly what any stable descending sort, Python's included,
  yields.

Two consequences of the code that the model keeps:

- Before slicing, the count is `min(len(documents), len(scores))`, because
  `zip` stops at the shorter input; it is `len(documents)` when the
  cross-encoder returns one score per pair.
- `top_n` is not validated: a negative value is a slice stop counted from the
  end, so `results[:-k]` drops the last `k` records (none are left once `k`
  reaches the count), and no error is raised.

## Model

| member | source | states |
|---|---|---|
| `Rerank.Pairs` | main.py:39 | exactly one pair per document, in order; pair `i` is `(query, documents[i])` |
| `Rerank.EnumerateFrom` | main.py:42 | `enumerate(zip(...), start)`: length is the shorter input's length; record `k` is position `start + k` with document `k` and score `k` |
| `Rerank.Enumerate` | main.py:42 | records before sorting: length `min(len(documents), len(scores))`; record `k` is `{index: k, text: documents[k], score: scores[k]}` |
| `Rerank.EnumerateGrounded` | main.py:42 | every enumerated record's index is a valid position in both inputs and carries that document and score; indices strictly increase |
| `Rerank.Insert` | main.py:43 | inserting one record adds exactly that record (multiset) and keeps a score-descending sequence score-descending |
| `Rerank.Sort` | main.py:43 | the sort is a permutation of its input (no record lost, duplicated or altered) and is non-increasing in score |
| `Rerank.RankedIsSortedAndStable` | main.py:43 | the ranked order is non-increasing in score and orders equal scores by index |
| `Rerank.InsertRanked` | main.py:43 | inserting a record whose index precedes all others into a ranked sequence keeps it ranked, so the insert goes before its ties |
| `Rerank.SortRanked` | main.py:43 | stability: on input with increasing indices the sort puts equal scores in index order |
| `Rerank.RankedUnique` | main.py:43 | two ranked arrangements of the same records are equal, so the stable descending order is unique |
| `Rerank.SliceStop` | main.py:46 | Python's slice stop: `min(stop, n)` for `stop >= 0`, `max(0, n + stop)` for a negative stop, never an error |
| `Rerank.Truncate` | main.py:45-46 | the output is a prefix of the sorted list: all of it for `None`, the first `min(top_n, n)` records for `top_n >= 0`, the first `max(0, n + top_n)` for negative `top_n`, which drops exactly the last `-top_n` records when there are that many |
| `Rerank.PrefixIsTop` | main.py:46 | a prefix of a ranked list is a sub-multiset of it, and every record outside the prefix ranks below every record in it |
| `Rerank.RankResults` | main.py:39-46 | results have the zip/slice length, point back to their own documents and scores, are ranked (sorted and stable), have distinct indices, are a sub-multiset of the enumerated records (all of them without `top_n`), and outrank every record left out |
| `Rerank.RankResultsMatchesAnyStableSort` | main.py:42-46 | any stable descending sort of the enumerated records, sliced at `top_n` exactly as the handler slices, equals the handler's results |
| `Rerank.ResultScoreIsItsPairs` | main.py:39-42 | each result's score is the model's score for the pair built from that result's own document |
| `Rerank.TwoDocumentsExample` | main.py:39-46 | `["a cat sat", "dog ran"]` with scores `[0.9, 0.2]` and no `top_n` gives index 0 then index 1 |
| `Rerank.TopOneExample` | main.py:45-46 | the same request with `top_n = 1` gives only the index-0 record |
| `Rerank.NoDocumentsExample` | main.py:39-46 | no documents give no results, whatever `top_n` is and whatever scores the model returns |
| `Rerank.TieExample` | main.py:43 | two documents tied at 0.5 come out as index 0 then index 1 |
| `Rerank.NegativeTopNExample` | main.py:46 | `top_n = -1` on three records drops the lowest-ranked one |

## Left out

- Model loading, device selection, dtype handling and `model.eval()` (main.py:11-19): framework and accelerator setup.
- The cross-encoder's `compute_score` (main.py:40): a neural-network call with tokenization and floating-point numerics; its output is the `scores` input, and its `max_length=1024` tokenizer argument belongs to that call and is not modelled.
- Floating-point specifics: scores are `real`, so NaN, which breaks the total order `sorted` assumes, is not represented.
- The FastAPI app, pydantic validation of `RerankRequest` (main.py:25-29), the two route bindings (main.py:31-32) and `async` dispatch: HTTP plumbing and concurrency. `RerankRequest` is kept only as a plain datatype.
- The response's `model` field (`model.name_or_path`, main.py:49): an opaque attribute of the loaded model. The response's nested `document: {text}` object is flattened to a `text` field.
- `uvicorn.run` (main.py:53-54): process and network startup.
- Idempotence of repeated calls is not stated separately: every member is a mathematical function, so equal inputs give equal outputs by construction.
