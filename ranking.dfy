/** The re-ranking part of `NoteRetriever.query` (scripts/vector_utils.py,
    lines 111 and 119-172): fetch, assemble candidates, and on the hybrid
    path score each candidate with BM25 against a pool-local average length,
    normalise by the pool maximum, fuse with the vector score, sort stably by
    the fused score and keep the first `top_k`. */
module Ranking {
  import opened Candidates
  import opened Tokenizer
  import opened Bm25
  import opened StableSort

  /** Line 111: `n_results` asked of the index. Never fewer than `top_k`,
      and a three-fold over-fetch when re-ranking. */
  function FetchSize(topK: nat, hybrid: bool): (n: nat)
    ensures n >= topK
    ensures hybrid ==> n == 3 * topK
    ensures !hybrid ==> n == topK
  {
    if hybrid then topK * 3 else topK
  }

  /** The candidate pool of one call: the records built from the index's
      `FetchSize` nearest entries. */
  function FetchedPool(index: Response, topK: nat, hybrid: bool): seq<Candidate>
    requires WellFormed(index)
  {
    PoolOf(Nearest(index, FetchSize(topK, hybrid)))
  }

  /** Line 147: the tokens of every candidate's content. */
  function DocTokens(u: CharTables, pool: seq<Candidate>): (docs: seq<seq<string>>)
    ensures |docs| == |pool|
  {
    seq(|pool|, i requires 0 <= i < |pool| => Tokenize(u, pool[i].content))
  }

  /** `sum(len(t) for t in doc_tokens_list)` */
  function TotalLength(docs: seq<seq<string>>): nat
  {
    if docs == [] then 0 else TotalLength(docs[..|docs| - 1]) + |docs[|docs| - 1]|
  }

  /** Line 148: the mean token count of the pool. */
  function AverageLength(docs: seq<seq<string>>): real
    requires |docs| > 0
  {
    TotalLength(docs) as real / |docs| as real
  }

  /** Lines 151-154: the BM25 score of every candidate with the default
      shape constants and the shared average length. */
  function PoolScores(query: seq<string>, docs: seq<seq<string>>, avg: real): (scores: seq<real>)
    requires forall i :: 0 <= i < |docs| ==> Defined(query, docs[i], avg, K1, B)
    ensures |scores| == |docs|
  {
    seq(|docs|, i requires 0 <= i < |docs| => Score(query, docs[i], avg, K1, B))
  }

  /** `max(bm25_scores)` */
  function Max(s: seq<real>): (m: real)
    requires |s| > 0
    ensures forall i :: 0 <= i < |s| ==> s[i] <= m
    ensures exists i :: 0 <= i < |s| && s[i] == m
  {
    if |s| == 1 then s[0]
    else
      var m := Max(s[..|s| - 1]);
      assert forall i :: 0 <= i < |s| - 1 ==> s[..|s| - 1][i] == s[i];
      if s[|s| - 1] > m then s[|s| - 1] else m
  }

  /** Line 157: the pool maximum, or 1 when no score is positive. */
  function Divisor(s: seq<real>): (d: real)
    requires |s| > 0
    ensures d > 0.0
  {
    if Max(s) > 0.0 then Max(s) else 1.0
  }

  /** Line 158: every score divided by the divisor. */
  function Normalize(s: seq<real>): (n: seq<real>)
    requires |s| > 0
    ensures |n| == |s|
  {
    seq(|s|, i requires 0 <= i < |s| => s[i] / Divisor(s))
  }

  /** Lines 161-167: `vector_weight * vector_score + (1 - vector_weight) * bm25`.
      A convex combination of two values in [0, 1] stays in [0, 1]. */
  function HybridScore(w: real, vectorScore: real, bm25: real): (h: real)
    ensures 0.0 <= w <= 1.0 && 0.0 <= vectorScore <= 1.0 && 0.0 <= bm25 <= 1.0 ==> 0.0 <= h <= 1.0
  {
    ConvexBounds(w, vectorScore, bm25);
    w * vectorScore + (1.0 - w) * bm25
  }

  lemma ConvexBounds(w: real, x: real, y: real)
    ensures 0.0 <= w <= 1.0 && 0.0 <= x <= 1.0 && 0.0 <= y <= 1.0 ==> 0.0 <= w * x + (1.0 - w) * y <= 1.0
  {
    if 0.0 <= w <= 1.0 && 0.0 <= x <= 1.0 && 0.0 <= y <= 1.0 {
      ProductNonNegative(w, x);
      ProductNonNegative(1.0 - w, y);
      ProductNonNegative(w, 1.0 - x);
      ProductNonNegative(1.0 - w, 1.0 - y);
      assert 1.0 - (w * x + (1.0 - w) * y) == w * (1.0 - x) + (1.0 - w) * (1.0 - y);
    }
  }

  lemma ProductNonNegative(a: real, b: real)
    requires a >= 0.0 && b >= 0.0
    ensures a * b >= 0.0
  {
  }

  /** The pool with the two keys the loop of lines 162-167 adds. */
  function ScoredPool(pool: seq<Candidate>, norms: seq<real>, w: real): (scored: seq<Candidate>)
    requires |norms| == |pool|
    ensures |scored| == |pool|
  {
    seq(|pool|, i requires 0 <= i < |pool| =>
      pool[i].(bm25Score := Some(norms[i]),
               hybridScore := Some(HybridScore(w, pool[i].vectorScore, norms[i]))))
  }

  /** Lines 162-167: add `bm25_score` and `hybrid_score` to each candidate
      in place. */
  method AttachScores(a: array<Candidate>, norms: seq<real>, w: real)
    requires |norms| == a.Length
    modifies a
    ensures a[..] == ScoredPool(old(a[..]), norms, w)
  {
    ghost var pool := a[..];
    var bm25Weight := 1.0 - w;
    for i := 0 to a.Length
      invariant a[..i] == ScoredPool(pool, norms, w)[..i]
      invariant a[i..] == pool[i..]
    {
      var candidate := a[i];
      candidate := candidate.(bm25Score := Some(norms[i]));
      var hybrid := w * candidate.vectorScore + bm25Weight * candidate.bm25Score.value;
      assert hybrid == HybridScore(w, pool[i].vectorScore, norms[i]);
      candidate := candidate.(hybridScore := Some(hybrid));
      assert candidate == ScoredPool(pool, norms, w)[i];
      a[i] := candidate;
      assert a[..i + 1] == a[..i] + [a[i]];
    }
  }

  /** The normalised BM25 scores of a pool for a query. */
  function Norms(u: CharTables, query: string, pool: seq<Candidate>): (n: seq<real>)
    requires |pool| > 0
    ensures |n| == |pool|
  {
    var docs := DocTokens(u, pool);
    PoolDefined(Tokenize(u, query), docs);
    Normalize(PoolScores(Tokenize(u, query), docs, AverageLength(docs)))
  }

  /** The hybrid path's result for a non-empty pool (lines 144-172). */
  function Rerank(u: CharTables, query: string, pool: seq<Candidate>, topK: nat, w: real): seq<Candidate>
    requires |pool| > 0
  {
    var ranked := Sorted(ScoredPool(pool, Norms(u, query, pool), w));
    ranked[..Min(topK, |ranked|)]
  }

  /** `NoteRetriever.query` after the embedding step (lines 111, 119-172).
      The index is given as its whole answer, nearest first; `n_results`
      keeps the first `FetchSize` entries of it. */
  method Query(u: CharTables, query: string, index: Response, topK: nat, hybrid: bool, vectorWeight: real)
    returns (result: seq<Candidate>)
    requires Consistent(u) && WellFormed(index)
    ensures |result| == Min(topK, |FetchedPool(index, topK, hybrid)|)
    ensures FetchedPool(index, topK, hybrid) == [] ==> result == []
    ensures !hybrid ==> result == FetchedPool(index, topK, hybrid)[..|result|]
    ensures hybrid && FetchedPool(index, topK, hybrid) != [] ==>
      result == Rerank(u, query, FetchedPool(index, topK, hybrid), topK, vectorWeight)
    ensures hybrid ==> Descending(result)
    ensures hybrid ==> forall i :: 0 <= i < |result| ==>
      result[i].bm25Score.Some? && result[i].hybridScore.Some? &&
      0.0 <= result[i].bm25Score.value <= 1.0 &&
      result[i].hybridScore.value == HybridScore(vectorWeight, result[i].vectorScore, result[i].bm25Score.value) &&
      Unscored(result[i]) in FetchedPool(index, topK, hybrid)
  {
    var fetchK := FetchSize(topK, hybrid);
    var response := Nearest(index, fetchK);
    var candidates := AssembleCandidates(response);
    if |candidates| == 0 {
      return [];
    }
    if !hybrid {
      return candidates[..Min(topK, |candidates|)];
    }
    var queryTokens := TokenizeChinese(u, query);
    var docTokensList := DocTokens(u, candidates);
    var avgDocLen := AverageLength(docTokensList);
    PoolDefined(queryTokens, docTokensList);
    var bm25Scores := PoolScores(queryTokens, docTokensList, avgDocLen);
    var bm25ScoresNorm := Normalize(bm25Scores);
    var a := new Candidate[|candidates|](i requires 0 <= i < |candidates| => candidates[i]);
    assert a[..] == candidates;
    AttachScores(a, bm25ScoresNorm, vectorWeight);
    assert forall i :: 0 <= i < a.Length ==> a[i] == a[..][i];
    SortByHybridScore(a);
    result := a[..Min(topK, a.Length)];
    RerankShape(u, query, candidates, topK, vectorWeight);
    RerankFusion(u, query, candidates, topK, vectorWeight);
  }

  // ---------------------------------------------------------------------
  // Properties

  /** Every document is no longer than the pool's total. */
  lemma {:induction false} TotalLengthBounds(docs: seq<seq<string>>, i: nat)
    requires i < |docs|
    ensures |docs[i]| <= TotalLength(docs)
    decreases |docs|
  {
    if i < |docs| - 1 {
      TotalLengthBounds(docs[..|docs| - 1], i);
    }
  }

  /** A pool whose total length is 0 holds only empty documents. */
  lemma {:induction false} ZeroTotalLength(docs: seq<seq<string>>, i: nat)
    requires i < |docs| && TotalLength(docs) == 0
    ensures docs[i] == []
  {
    TotalLengthBounds(docs, i);
  }

  /** The average length is positive as soon as one candidate has a token,
      and in particular whenever one contains a query token. */
  lemma AverageLengthPositive(docs: seq<seq<string>>, i: nat)
    requires i < |docs| && |docs[i]| > 0
    ensures AverageLength(docs) > 0.0
  {
    TotalLengthBounds(docs, i);
    DivPositive(TotalLength(docs) as real, |docs| as real);
  }

  /** Called from `query`, line 55 never divides by zero: either the
      average length is positive, or every document is empty and no query
      token matches. */
  lemma PoolDefined(query: seq<string>, docs: seq<seq<string>>)
    requires |docs| > 0
    ensures forall i :: 0 <= i < |docs| ==> Defined(query, docs[i], AverageLength(docs), K1, B)
  {
    var avg := AverageLength(docs);
    if TotalLength(docs) == 0 {
      forall i | 0 <= i < |docs| ensures Defined(query, docs[i], avg, K1, B) {
        ZeroTotalLength(docs, i);
      }
    } else {
      DivPositive(TotalLength(docs) as real, |docs| as real);
      forall i | 0 <= i < |docs| ensures Defined(query, docs[i], avg, K1, B) {
        DefinedUnderValidParams(query, docs[i], avg, K1, B);
      }
    }
  }

  /** BM25 scores of a pool are never negative. */
  lemma PoolScoresNonNegative(query: seq<string>, docs: seq<seq<string>>)
    requires |docs| > 0
    ensures forall i :: 0 <= i < |docs| ==>
      Defined(query, docs[i], AverageLength(docs), K1, B) &&
      Score(query, docs[i], AverageLength(docs), K1, B) >= 0.0
  {
    PoolDefined(query, docs);
    var avg := AverageLength(docs);
    forall i | 0 <= i < |docs| ensures Score(query, docs[i], avg, K1, B) >= 0.0 {
      if TotalLength(docs) == 0 {
        ZeroTotalLength(docs, i);
        NoOverlapScoresZero(query, docs[i], avg, K1, B);
      } else {
        DivPositive(TotalLength(docs) as real, |docs| as real);
        ScoreBounds(query, docs[i], avg, K1, B);
      }
    }
  }

  /** Normalised non-negative scores lie in [0, 1]; if some score is
      positive the largest normalised score is exactly 1, and otherwise the
      divisor falls back to 1 and every normalised score is 0. */
  lemma NormalizeBounds(s: seq<real>)
    requires |s| > 0 && forall i :: 0 <= i < |s| ==> s[i] >= 0.0
    ensures forall i :: 0 <= i < |s| ==> 0.0 <= Normalize(s)[i] <= 1.0
    ensures (exists i :: 0 <= i < |s| && s[i] > 0.0) ==>
      exists j :: 0 <= j < |s| && Normalize(s)[j] == 1.0
    ensures (forall i :: 0 <= i < |s| ==> s[i] <= 0.0) ==>
      forall i :: 0 <= i < |s| ==> Normalize(s)[i] == 0.0
  {
    var d := Divisor(s);
    forall i | 0 <= i < |s| ensures 0.0 <= Normalize(s)[i] <= 1.0 {
      if Max(s) > 0.0 {
        DivAtMostOne(s[i], d);
      }
    }
    if exists i :: 0 <= i < |s| && s[i] > 0.0 {
      var i :| 0 <= i < |s| && s[i] > 0.0;
      assert Max(s) >= s[i];
      assert d == Max(s);
      var j :| 0 <= j < |s| && s[j] == Max(s);
      DivSelf(s[j]);
      assert Normalize(s)[j] == s[j] / d == 1.0;
    }
  }

  lemma DivSelf(x: real)
    requires x > 0.0
    ensures x / x == 1.0
  {
  }

  lemma DivAtMostOne(x: real, d: real)
    requires 0.0 <= x <= d && d > 0.0
    ensures 0.0 <= x / d <= 1.0
  {
    if x / d > 1.0 {
      MulLeft(d, x, x / d - 1.0);
      assert false;
    }
  }

  /** What the loop of lines 162-167 adds and keeps: each scored candidate
      is its pool candidate with the two keys set to its normalised BM25
      score and its fused score. */
  lemma ScoredPoolFields(pool: seq<Candidate>, norms: seq<real>, w: real)
    requires |norms| == |pool|
    ensures forall j :: 0 <= j < |pool| ==>
      Unscored(ScoredPool(pool, norms, w)[j]) == Unscored(pool[j]) &&
      ScoredPool(pool, norms, w)[j].bm25Score == Some(norms[j]) &&
      ScoredPool(pool, norms, w)[j].hybridScore == Some(HybridScore(w, pool[j].vectorScore, norms[j]))
  {
  }

  /** The normalised BM25 scores of a pool lie in [0, 1]. */
  lemma NormsBounded(u: CharTables, query: string, pool: seq<Candidate>)
    requires |pool| > 0
    ensures forall j :: 0 <= j < |pool| ==> 0.0 <= Norms(u, query, pool)[j] <= 1.0
  {
    var docs := DocTokens(u, pool);
    PoolScoresNonNegative(Tokenize(u, query), docs);
    NormalizeBounds(PoolScores(Tokenize(u, query), docs, AverageLength(docs)));
  }

  /** Every entry of the hybrid result is an entry of the scored pool. */
  lemma RerankFromScored(u: CharTables, query: string, pool: seq<Candidate>, topK: nat, w: real)
    requires |pool| > 0
    ensures var r := Rerank(u, query, pool, topK, w);
      var scored := ScoredPool(pool, Norms(u, query, pool), w);
      |r| == Min(topK, |pool|) &&
      forall i :: 0 <= i < |r| ==> exists j :: 0 <= j < |pool| && r[i] == scored[j]
  {
    var scored := ScoredPool(pool, Norms(u, query, pool), w);
    var m := Min(topK, |pool|);
    TopOfSorted(scored, m);
    var r := Sorted(scored)[..m];
    assert r == Rerank(u, query, pool, topK, w);
    forall i | 0 <= i < |r| ensures exists j :: 0 <= j < |pool| && r[i] == scored[j] {
      assert r[i] in multiset(r);
      assert r[i] in multiset(scored);
      assert r[i] in scored;
    }
  }

  /** The hybrid result has `min(top_k, n)` entries, is non-increasing in
      the fused score, each entry carries both added keys with a BM25 part
      in [0, 1], and each is a pool candidate with its own fields unchanged. */
  lemma RerankShape(u: CharTables, query: string, pool: seq<Candidate>, topK: nat, w: real)
    requires |pool| > 0 && Unranked(pool)
    ensures var r := Rerank(u, query, pool, topK, w);
      |r| == Min(topK, |pool|) &&
      Descending(r) &&
      forall i :: 0 <= i < |r| ==>
        r[i].bm25Score.Some? && r[i].hybridScore.Some? &&
        0.0 <= r[i].bm25Score.value <= 1.0 &&
        Unscored(r[i]) in pool
  {
    var norms := Norms(u, query, pool);
    var scored := ScoredPool(pool, norms, w);
    TopOfSorted(scored, Min(topK, |pool|));
    RerankFromScored(u, query, pool, topK, w);
    ScoredPoolFields(pool, norms, w);
    NormsBounded(u, query, pool);
  }

  /** Every entry of the hybrid result carries the fused score of its own
      similarity and BM25 part (lines 164-167), and that BM25 part is the
      normalised score of the pool candidate it came from. */
  lemma RerankFusion(u: CharTables, query: string, pool: seq<Candidate>, topK: nat, w: real)
    requires |pool| > 0 && Unranked(pool)
    ensures var r := Rerank(u, query, pool, topK, w);
      forall i :: 0 <= i < |r| ==>
        r[i].bm25Score.Some? &&
        r[i].hybridScore == Some(HybridScore(w, r[i].vectorScore, r[i].bm25Score.value)) &&
        exists j :: 0 <= j < |pool| && Unscored(r[i]) == pool[j] &&
          r[i].bm25Score == Some(Norms(u, query, pool)[j])
  {
    var norms := Norms(u, query, pool);
    RerankFromScored(u, query, pool, topK, w);
    ScoredPoolFields(pool, norms, w);
  }

  /** Prefix of a stable permutation: the result is a sub-multiset of the
      scored pool, no candidate left out ranks above one that was kept,
      and for every fused score the candidates with that score that made it
      are the first of them in fetch order. */
  lemma RerankSelection(u: CharTables, query: string, pool: seq<Candidate>, topK: nat, w: real)
    requires |pool| > 0
    ensures var r := Rerank(u, query, pool, topK, w);
      var scored := ScoredPool(pool, Norms(u, query, pool), w);
      multiset(r) <= multiset(scored) &&
      (forall c, i :: c in multiset(scored) - multiset(r) && 0 <= i < |r| ==> Key(c) <= Key(r[i])) &&
      (forall k :: WithKey(r, k) <= WithKey(scored, k))
  {
    var scored := ScoredPool(pool, Norms(u, query, pool), w);
    TopOfSorted(scored, Min(topK, |pool|));
    TopOfSortedStable(scored, Min(topK, |pool|));
  }

  /** With weight and similarities in [0, 1], every fused score of the
      result lies in [0, 1]. */
  lemma RerankScoresBounded(u: CharTables, query: string, pool: seq<Candidate>, topK: nat, w: real)
    requires |pool| > 0
    requires 0.0 <= w <= 1.0
    requires forall i :: 0 <= i < |pool| ==> 0.0 <= pool[i].vectorScore <= 1.0
    ensures var r := Rerank(u, query, pool, topK, w);
      forall i :: 0 <= i < |r| ==> 0.0 <= Key(r[i]) <= 1.0
  {
    var norms := Norms(u, query, pool);
    RerankFromScored(u, query, pool, topK, w);
    ScoredPoolFields(pool, norms, w);
    NormsBounded(u, query, pool);
  }

  /** When no candidate shares a token with the query, every raw BM25
      score is 0, the divisor falls back to 1 and every normalised score is
      0. */
  lemma NoOverlapNormsZero(u: CharTables, query: string, pool: seq<Candidate>)
    requires |pool| > 0
    requires forall i, t :: 0 <= i < |pool| && t in Tokenize(u, query) ==> t !in Tokenize(u, pool[i].content)
    ensures forall i :: 0 <= i < |pool| ==> Norms(u, query, pool)[i] == 0.0
  {
    var q := Tokenize(u, query);
    var docs := DocTokens(u, pool);
    var avg := AverageLength(docs);
    PoolDefined(q, docs);
    var scores := PoolScores(q, docs, avg);
    forall i | 0 <= i < |docs| ensures scores[i] == 0.0 {
      forall j | 0 <= j < |q| ensures q[j] !in docs[i] {
        assert q[j] in q;
      }
      NoOverlapScoresZero(q, docs[i], avg, K1, B);
    }
    NormalizeBounds(scores);
  }

  /** With every normalised score 0 and a non-negative weight, the fused
      score is the weighted similarity, so a pool in similarity order stays
      in order once scored. */
  lemma ZeroNormsScoredDescending(pool: seq<Candidate>, norms: seq<real>, w: real)
    requires |norms| == |pool| && w >= 0.0
    requires forall i :: 0 <= i < |norms| ==> norms[i] == 0.0
    requires forall i, j :: 0 <= i < j < |pool| ==> pool[i].vectorScore >= pool[j].vectorScore
    ensures Descending(ScoredPool(pool, norms, w))
  {
    var scored := ScoredPool(pool, norms, w);
    forall i, j | 0 <= i < j < |scored| ensures Key(scored[i]) >= Key(scored[j]) {
      var vi, vj := pool[i].vectorScore, pool[j].vectorScore;
      assert norms[i] == 0.0 && norms[j] == 0.0;
      calc {
        Key(scored[i]);
        HybridScore(w, vi, 0.0);
        { FusedWithZero(w, vi); }
        w * vi;
      >=  { MulLeft(vj, vi, w); }
        w * vj;
        { FusedWithZero(w, vj); }
        HybridScore(w, vj, 0.0);
        Key(scored[j]);
      }
    }
  }

  /** With a BM25 part of 0 the fused score is the weighted similarity. */
  lemma FusedWithZero(w: real, v: real)
    ensures HybridScore(w, v, 0.0) == w * v
  {
    assert (1.0 - w) * 0.0 == 0.0;
  }

  /** ... so the fused score is `w * vector_score`, and a pool in similarity
      order (as the index returns it) keeps that order: the result is the
      first `top_k` candidates in fetch order. */
  lemma ZeroOverlapKeepsVectorOrder(u: CharTables, query: string, pool: seq<Candidate>, topK: nat, w: real)
    requires |pool| > 0 && Unranked(pool) && w >= 0.0
    requires forall i, t :: 0 <= i < |pool| && t in Tokenize(u, query) ==> t !in Tokenize(u, pool[i].content)
    requires forall i, j :: 0 <= i < j < |pool| ==> pool[i].vectorScore >= pool[j].vectorScore
    ensures var r := Rerank(u, query, pool, topK, w);
      |r| == Min(topK, |pool|) &&
      forall i :: 0 <= i < |r| ==> Unscored(r[i]) == pool[i] && r[i].bm25Score == Some(0.0)
  {
    var norms := Norms(u, query, pool);
    NoOverlapNormsZero(u, query, pool);
    var scored := ScoredPool(pool, norms, w);
    ZeroNormsScoredDescending(pool, norms, w);
    SortedIdentity(scored);
    ScoredPoolFields(pool, norms, w);
    var r := Rerank(u, query, pool, topK, w);
    assert r == scored[..Min(topK, |pool|)];
    forall i | 0 <= i < |r| ensures Unscored(r[i]) == pool[i] && r[i].bm25Score == Some(0.0) {
      assert r[i] == scored[i];
    }
  }

  /** With `vector_weight = 0.7`, a similarity of 0.8 with the best BM25
      score fuses above a similarity of 0.9 with none. */
  lemma KeywordMatchWins()
    ensures HybridScore(0.7, 0.8, 1.0) > HybridScore(0.7, 0.9, 0.0)
  {
  }

  /** The case the hybrid ranking exists for: at the default weight, a
      candidate of similarity 0.8 that holds the query's words (normalised
      BM25 score 1) is ranked ahead of an unrelated candidate of similarity
      0.9 (BM25 score 0), although the index put it behind. */
  lemma KeywordMatchOvertakesVector(pool: seq<Candidate>, norms: seq<real>, i: nat, j: nat)
    requires |norms| == |pool| && i < |pool| && j < |pool|
    requires pool[i].vectorScore == 0.8 && norms[i] == 1.0
    requires pool[j].vectorScore == 0.9 && norms[j] == 0.0
    ensures var scored := ScoredPool(pool, norms, 0.7);
      exists p, q :: 0 <= p < q < |Sorted(scored)| &&
        Sorted(scored)[p] == scored[i] && Sorted(scored)[q] == scored[j]
  {
    var scored := ScoredPool(pool, norms, 0.7);
    KeywordMatchWins();
    assert Key(scored[i]) == HybridScore(0.7, 0.8, 1.0);
    assert Key(scored[j]) == HybridScore(0.7, 0.9, 0.0);
    SortedOrders(scored, scored[i], scored[j]);
  }
}
