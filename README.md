# Hybrid note retrieval: tokenizer, BM25 and re-ranking

This project models the retrieval core of the AI Partner skill's
`scripts/vector_utils.py` and proves properties of it. The model covers three
parts:

- `tokenize_chinese`. It replaces every character that is not a word
  character, whitespace or a CJK ideograph with a space, then splits on
  whitespace. A word made only of ideographs becomes one token per character.
  Any other word becomes a single lower-cased token.
- `compute_bm25_score`. This is the BM25 term-frequency part with no IDF
  factor, summed over the query tokens as given, repeats included.
- The re-ranking body of `NoteRetriever.query`, which works in these steps:
  1. Over-fetch three times `top_k` from the vector index.
  2. Turn the index's answer into candidate records.
  3. Score each candidate with BM25, using the pool's own average length.
  4. Normalise by the pool maximum.
  5. Fuse with the vector similarity: `w * vector + (1 - w) * bm25`.
  6. Sort stably by the fused score, descending.
  7. Keep the first `top_k`.

Modules:

- `Candidates`: the candidate record, the index's answer, and the loop that
  turns one into the other.
- `Tokenizer`: the tokenizer, as a specification function plus the loop that
  implements it.
- `Bm25`: the scorer. A float `ZeroDivisionError` is an explicit outcome.
- `StableSort`: the in-place sort of line 170 on an `array`. It is an insertion
  sort, proved equal to a functional stable sort. That sort is proved to
  return a permutation, to be descending, and to be stable.
- `Ranking`: `NoteRetriever.query` from the fetch onwards.

The Unicode `\w` class and `str.lower()` are not written out. They are a
parameter (`CharTables`). The proofs assume one thing of them
(`Consistent`): lower-casing never turns a non-space into a space. The token
shape guarantee (no token holds whitespace) needs it.

Python's whitespace set (`str.isspace`) and the ideograph block
U+4E00..U+9FFF are written out.

The docstring of `tokenize_chinese` (scripts/vector_utils.py, lines 23-26)
describes it as splitting on punctuation and whitespace, then splitting
Chinese characters individually and keeping English words together. On a run
that mixes the two with no space between them, the code departs from that
description. Lines 30-36 split only on whitespace and explode a word only when
every character is an ideograph. So `tokenize_chinese("你好world")` is the
single token `"你好world"`, not `["你", "好", "world"]`. The model follows the
code: `Tokenizer.MixedRunIsOneToken` proves the code's answer, and
`Tokenizer.SeparatedRunIsSplit` shows that with a space in between the
ideographs are split.

## Model

| member | source | states |
|---|---|---|
| Tokenizer.Clean | scripts/vector_utils.py:28 | same length; a character of `[\w\s一-鿿]` is kept and any other becomes a space |
| Tokenizer.Words | scripts/vector_utils.py:30 | `split()` yields only non-empty words with no whitespace in them |
| Tokenizer.TokenizeChinese | scripts/vector_utils.py:22-37 | the loop returns exactly `Tokenize(text)`; every token is non-empty and has no whitespace |
| Tokenizer.TokensStep | scripts/vector_utils.py:30-36 | each word's tokens are appended after those of the words before it |
| Tokenizer.WordRule | scripts/vector_utils.py:31-36 | a text that is one word of kept characters tokenizes, if the word is all ideographs, to its characters one token each and in order, and otherwise to exactly one token, the word lower-cased |
| Tokenizer.WordInText | scripts/vector_utils.py:28-36 | a word set off by whitespace anywhere in a text adds its characters (all ideographs) or its lower-cased self (otherwise) between the tokens of the text before and after it |
| Tokenizer.TokenizeWord | scripts/vector_utils.py:28-36 | a text that is one word of kept characters gives exactly that word's tokens |
| Tokenizer.TokensAppend | scripts/vector_utils.py:29-37 | the tokens of a word list are the tokens of its parts, in order and without deduplication |
| Tokenizer.TokenShape | scripts/vector_utils.py:22-37 | no token is empty and no token contains whitespace |
| Tokenizer.NoWordCharsNoTokens | scripts/vector_utils.py:28-30 | text with no word character and no ideograph (empty, blank, all punctuation) yields no tokens |
| Tokenizer.WordsJoin | scripts/vector_utils.py:30 | `split()` of two texts joined by whitespace is the two splits in order |
| Tokenizer.TokenizeJoin | scripts/vector_utils.py:22-37 | tokenizing texts joined by whitespace gives the concatenation of their tokens |
| Tokenizer.HelloWorld | scripts/vector_utils.py:34-36 | `"Hello World"` gives `["hello", "world"]` |
| Tokenizer.MixedRunIsOneToken | scripts/vector_utils.py:31-36 | `"你好world"` gives the single token `"你好world"` |
| Tokenizer.SeparatedRunIsSplit | scripts/vector_utils.py:31-36 | `"你好 world"` gives `["你", "好", "world"]` |
| Bm25.ComputeBm25Score | scripts/vector_utils.py:40-58 | returns a score exactly when no division by zero happens, and then the score is the sum over query tokens of `freq (k1+1) / (freq + k1 (1 - b + b len/avg))` for tokens in the document |
| Bm25.MatchStep | scripts/vector_utils.py:51-56 | a query token found in the document adds its weight to the running score |
| Bm25.MissStep | scripts/vector_utils.py:51 | a query token not in the document leaves the score unchanged |
| Bm25.DivisionByZeroAt | scripts/vector_utils.py:55-56 | a document token whose term has a zero divisor makes the call fail |
| Bm25.DefinedUnderValidParams | scripts/vector_utils.py:40-41 | with a positive average length, positive `k1` and `b` in [0, 1], nothing is divided by zero |
| Bm25.NoOverlapScoresZero | scripts/vector_utils.py:49-58 | a query sharing no token with the document (the empty query too) scores exactly 0 |
| Bm25.ScoreAppend | scripts/vector_utils.py:50-56 | the score of a concatenated query is the sum of the two scores |
| Bm25.RepeatedToken | scripts/vector_utils.py:50-56 | a token repeated n times in the query adds its term n times |
| Bm25.WeightBounds | scripts/vector_utils.py:52-56 | each added term lies strictly between 0 and `k1 + 1` |
| Bm25.WeightIncreasing | scripts/vector_utils.py:52-56 | with everything else fixed, a term grows strictly with the token's frequency |
| Bm25.ScoreBounds | scripts/vector_utils.py:40-58 | the score is at least 0, and for a non-empty query below the query length times `k1 + 1` |
| Candidates.Nearest | scripts/vector_utils.py:112-116 | the index answers with its first `min(n, size)` entries: documents, metadatas and distances are prefixes of the index's lists, and distances come back exactly when the index has them |
| Candidates.Field | scripts/vector_utils.py:129-133 | `metadata.get(key, '')`: the value if present, else the empty string |
| Candidates.PoolOf | scripts/vector_utils.py:119-135 | one record per returned document, in index order, with no ranking keys |
| Candidates.AssembleCandidates | scripts/vector_utils.py:119-135 | the loop builds one record per document, in order, with content, the five metadata fields (empty when absent), similarity `1 - distance` (or 1 with no distances) and no ranking keys |
| Ranking.FetchSize | scripts/vector_utils.py:111 | fetch `3 top_k` when re-ranking and `top_k` otherwise, never fewer than `top_k` |
| Ranking.DocTokens | scripts/vector_utils.py:147 | one token list per candidate |
| Ranking.Max | scripts/vector_utils.py:157 | an upper bound of the scores that one of them attains |
| Ranking.Divisor | scripts/vector_utils.py:157 | the divisor is always positive |
| Ranking.HybridScore | scripts/vector_utils.py:161-167 | a weight and two scores in [0, 1] give a fused score in [0, 1] |
| Ranking.AttachScores | scripts/vector_utils.py:161-167 | the loop sets `bm25_score` and `hybrid_score` on every candidate in place, as the scored pool defines them |
| Ranking.Query | scripts/vector_utils.py:111-172 | result length is `min(top_k, pool size)`; an empty pool gives `[]`; without hybrid the result is the first `top_k` fetched; with hybrid it is the re-ranked pool, descending in fused score, each entry a fetched candidate with both keys added, a BM25 part in [0, 1] and `hybrid_score = w * vector_score + (1 - w) * bm25_score` |
| Ranking.TotalLengthBounds | scripts/vector_utils.py:148 | no document is longer than the pool's total |
| Ranking.ZeroTotalLength | scripts/vector_utils.py:148 | a total length of 0 means every document is empty |
| Ranking.AverageLengthPositive | scripts/vector_utils.py:148 | the average length is positive once any candidate has a token |
| Ranking.PoolDefined | scripts/vector_utils.py:147-154 | from `query`, the scorer never divides by zero: the average is positive, or every document is empty and nothing matches |
| Ranking.PoolScoresNonNegative | scripts/vector_utils.py:151-154 | every pool score is defined and non-negative |
| Ranking.NormalizeBounds | scripts/vector_utils.py:156-158 | non-negative scores normalise into [0, 1]; if any is positive the best becomes exactly 1; if none is, the divisor is 1 and all are 0 |
| Ranking.NormsBounded | scripts/vector_utils.py:147-158 | every normalised BM25 score of a pool lies in [0, 1] |
| Ranking.RerankFromScored | scripts/vector_utils.py:170-172 | the result has `min(top_k, n)` entries, each an entry of the scored pool |
| Ranking.RerankShape | scripts/vector_utils.py:144-172 | the hybrid result is descending in fused score; each entry has both keys, a BM25 part in [0, 1], and otherwise equals a pool candidate |
| Ranking.RerankFusion | scripts/vector_utils.py:161-172 | every returned entry has `hybrid_score = w * vector_score + (1 - w) * bm25_score`, and its `bm25_score` is the normalised score of the pool candidate it came from |
| Ranking.RerankSelection | scripts/vector_utils.py:170-172 | the result is a sub-multiset of the scored pool; nothing left out outranks anything kept; for each fused score, the kept candidates with that score are the first of them in fetch order |
| Ranking.RerankScoresBounded | scripts/vector_utils.py:161-172 | with weight and similarities in [0, 1], every fused score in the result is in [0, 1] |
| Ranking.NoOverlapNormsZero | scripts/vector_utils.py:147-158 | when no candidate shares a token with the query, every normalised BM25 score is 0 |
| Ranking.ZeroNormsScoredDescending | scripts/vector_utils.py:161-167 | with all BM25 parts 0 and a non-negative weight, a pool in similarity order stays in order once scored |
| Ranking.FusedWithZero | scripts/vector_utils.py:164-167 | with a BM25 part of 0 the fused score is `w * vector_score` |
| Ranking.ZeroOverlapKeepsVectorOrder | scripts/vector_utils.py:144-172 | with no query-token overlap, a pool in similarity order comes back as its first `top_k` in fetch order, each with a BM25 part of 0 |
| StableSort.SortByHybridScore | scripts/vector_utils.py:170 | for an array whose every candidate has a hybrid score (the key would raise `KeyError` otherwise), the in-place sort leaves it equal to the stable descending sort of its old contents |
| StableSort.InsertInPlace | scripts/vector_utils.py:170 | one insertion step: the prefix grows by one element at its stable place; the rest is untouched |
| StableSort.InsertPermutes | scripts/vector_utils.py:170 | an insertion adds exactly the inserted element |
| StableSort.InsertDescending | scripts/vector_utils.py:170 | inserting into a descending list keeps it descending |
| StableSort.InsertStable | scripts/vector_utils.py:170 | an inserted element goes after every element with its own key |
| StableSort.SortedPermutes | scripts/vector_utils.py:170 | the sort returns a permutation of its input |
| StableSort.SortedDescending | scripts/vector_utils.py:170 | `reverse=True`: the result is non-increasing in the hybrid score |
| StableSort.SortedStable | scripts/vector_utils.py:170 | for every key, equal-key candidates keep their input order |
| StableSort.SortedOrders | scripts/vector_utils.py:170 | a candidate with a larger hybrid score comes out ahead of one with a smaller score |
| Ranking.KeywordMatchWins | scripts/vector_utils.py:161-167 | at `vector_weight = 0.7`, similarity 0.8 with BM25 1 fuses above similarity 0.9 with BM25 0 |
| Ranking.KeywordMatchOvertakesVector | scripts/vector_utils.py:161-170 | at `vector_weight = 0.7`, a candidate of similarity 0.8 that holds the query's words (normalised BM25 1) is sorted ahead of an unrelated one of similarity 0.9 (BM25 0) |
| StableSort.SortedIdentity | scripts/vector_utils.py:170 | a list that is already descending comes back unchanged |
| StableSort.WithKeyPrefix | scripts/vector_utils.py:172 | a prefix keeps, for every key, a prefix of that key's elements |
| StableSort.DescendingPrefix | scripts/vector_utils.py:172 | the first m entries of a descending list are descending, a sub-multiset of it, and outrank everything after them |
| StableSort.TopOfSorted | scripts/vector_utils.py:170-172 | the first m entries of the sort are descending, a sub-multiset of the input, and outrank everything left out |
| StableSort.TopOfSortedStable | scripts/vector_utils.py:170-172 | for every key, the first m entries of the sort with that key are the first of them in input order |
| Tokenizer.IsSpace | scripts/vector_utils.py:28-30 | definition: Python's whitespace set, which `\s` and `split()` use |
| Tokenizer.AllCjk | scripts/vector_utils.py:31 | definition: the test `^[一-鿿]+$`, a non-empty word of ideographs only |
| Tokenizer.Chars | scripts/vector_utils.py:33 | `list(word)`: one single-character token per character, in order |
| Tokenizer.LowerWord | scripts/vector_utils.py:36 | `word.lower()`: same length, each character lower-cased |
| Tokenizer.WordTokens | scripts/vector_utils.py:31-36 | definition: what one word contributes; its meaning is stated by `Tokenizer.WordRule` |
| Tokenizer.Tokenize | scripts/vector_utils.py:22-37 | definition: the tokens of the words of the cleaned text, in order; `Tokenizer.TokenizeChinese` is proved equal to it |
| Tokenizer.IsCjk | scripts/vector_utils.py:28-31 | definition: the range `一-鿿` of lines 28 and 31 |
| Tokenizer.Kept | scripts/vector_utils.py:28 | definition: the class `[\w\s一-鿿]` that line 28 keeps |
| Tokenizer.WordEnd | scripts/vector_utils.py:30 | the run of non-space characters that starts a text, as `split()` cuts it: no whitespace inside, and whitespace (or the end) right after |
| Tokenizer.Tokens | scripts/vector_utils.py:29-36 | definition: the accumulation of lines 29-36, each word's tokens appended in word order |
| Bm25.K1 | scripts/vector_utils.py:41 | the default `k1 = 1.5` |
| Bm25.B | scripts/vector_utils.py:41 | the default `b = 0.75` |
| Bm25.LengthPart | scripts/vector_utils.py:55 | definition: `k1 * (1 - b + b * (doc_len / avg_doc_len))` |
| Bm25.TermDefined | scripts/vector_utils.py:51-56 | definition: a query token raises nothing, because it is absent or both divisors of lines 55-56 are non-zero |
| Bm25.Defined | scripts/vector_utils.py:50-56 | definition: no query token raises `ZeroDivisionError` |
| Bm25.Outcome | scripts/vector_utils.py:55-58 | the returned score, or the `ZeroDivisionError` lines 55-56 raise |
| Bm25.Freq | scripts/vector_utils.py:47 | `Counter(doc_tokens)[t]`: positive exactly when `t` is in the document, and at most the document length |
| Bm25.Denominator | scripts/vector_utils.py:55 | definition: the denominator of line 55 |
| Bm25.Weight | scripts/vector_utils.py:52-56 | definition: what one matching token adds; bounded and monotone by `Bm25.WeightBounds` and `Bm25.WeightIncreasing` |
| Bm25.Term | scripts/vector_utils.py:51-56 | definition: a token's weight when it is in the document, else 0 |
| Bm25.Score | scripts/vector_utils.py:46-58 | definition: the sum of the terms in query order; `Bm25.ComputeBm25Score` is proved equal to it |
| Candidates.VectorScore | scripts/vector_utils.py:124-125 | definition: `1 - distance`, or 1 when the index gave no distances |
| Candidates.CandidateAt | scripts/vector_utils.py:122-135 | definition: the record built for the i-th hit |
| Ranking.FetchedPool | scripts/vector_utils.py:111-135 | definition: the records built from the index's `fetch_k` nearest entries |
| Ranking.TotalLength | scripts/vector_utils.py:148 | definition: `sum(len(t) for t in doc_tokens_list)` |
| Ranking.AverageLength | scripts/vector_utils.py:148 | definition: the total divided by the pool size |
| Ranking.PoolScores | scripts/vector_utils.py:151-154 | one BM25 score per candidate, with the default constants and the shared average |
| Ranking.Normalize | scripts/vector_utils.py:158 | one normalised score per raw score; bounds stated by `Ranking.NormalizeBounds` |
| Ranking.ScoredPool | scripts/vector_utils.py:162-167 | the pool with `bm25_score` and `hybrid_score` added, one entry per candidate |
| Ranking.Norms | scripts/vector_utils.py:147-158 | one normalised BM25 score per candidate of the pool |
| Ranking.Rerank | scripts/vector_utils.py:144-172 | definition: the first `top_k` of the stably sorted scored pool; its properties are `Ranking.RerankShape`, `Ranking.RerankFusion` and `Ranking.RerankSelection` |
| StableSort.Key | scripts/vector_utils.py:170 | definition: the sort key, `x['hybrid_score']` |
| StableSort.Insert | scripts/vector_utils.py:170 | definition: one stable insertion by descending key |
| StableSort.Sorted | scripts/vector_utils.py:170 | definition: the stable descending sort; permutation, order and stability are `StableSort.SortedPermutes`, `SortedDescending` and `SortedStable` |

## Left out

- The lazy set-up in `_ensure_initialized` is not modelled: loading the embedding model, opening the database and raising `RuntimeError` (lines 64-89). This is I/O against external services.
- The query embedding (`model.encode`, line 108) is not modelled: it calls a neural model. The index is given as its whole answer for the query, nearest first, and `n_results` keeps its first `fetch_k` entries. How the index ranks entries is not modelled.
- Setting the offline environment variables (lines 14-15) is not modelled: it is process environment.
- `get_relevant_notes` (lines 175-192) is not modelled: it only builds a `NoteRetriever` and forwards its arguments.
- Floating point is not modelled: scores, distances and weights are exact reals. IEEE rounding, overflow and NaN are left out, and so is the order the sort would give to NaN keys.
- The Unicode `\w` class and `str.lower()` are parameters, not tables. `lower` acts character by character, so length-changing lower-casing (such as `İ`) and context-dependent rules (such as final sigma) are left out.
- Ranking.Query: `top_k` is a natural number. Python's slicing of a negative `top_k` (dropping from the end) is not modelled.
- Ranking.Query: the index's answer must have at least as many metadatas, and distances when present, as documents (`WellFormed`). A shorter list would make the source raise `IndexError` at line 122 or 124, and this error is not modelled. A longer list is allowed: its extra entries are never read, as in the source.
- Candidates.AssembleCandidates: it carries the same `WellFormed` requirement, so a shorter metadata or distance list is left out here too.
- Dafny strings hold Unicode scalar values only. Python strings that contain lone surrogates (U+D800 to U+DFFF) therefore have no counterpart in the model.
- Candidates.AssembleCandidates: metadata values are strings. Other value types the index may store are not modelled.
- StableSort.SortByHybridScore: the algorithm is an insertion sort, not Timsort. Any stable sort by the same key gives the same result, and that result is what the model proves.
