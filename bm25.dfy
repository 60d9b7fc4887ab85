/** `compute_bm25_score` (scripts/vector_utils.py, lines 40-58): the BM25
    term-frequency part, summed over the query tokens as given (repeats
    included), with no inverse-document-frequency factor. */
module Bm25 {

  /** The default shape constants of line 41. */
  const K1: real := 1.5
  const B: real := 0.75

  /** `Counter(doc_tokens)[t]`: occurrences of `t` in the document. */
  function Freq(doc: seq<string>, t: string): (n: nat)
    ensures n > 0 <==> t in doc
    ensures n <= |doc|
  {
    assert |multiset(doc)| == |doc|;
    multiset(doc)[t]
  }

  /** The length-normalisation part of line 55:
      `k1 * (1 - b + b * (doc_len / avg_doc_len))`. */
  function LengthPart(docLen: nat, avg: real, k1: real, b: real): real
    requires avg != 0.0
  {
    k1 * (1.0 - b + b * (docLen as real / avg))
  }

  /** Line 55: `freq + k1 * (1 - b + b * (doc_len / avg_doc_len))`. */
  function Denominator(freq: nat, docLen: nat, avg: real, k1: real, b: real): real
    requires avg != 0.0
  {
    freq as real + LengthPart(docLen, avg, k1, b)
  }

  /** Lines 54-56 for one matching token: the value added to the score. */
  function Weight(freq: nat, docLen: nat, avg: real, k1: real, b: real): real
    requires avg != 0.0 && Denominator(freq, docLen, avg, k1, b) != 0.0
  {
    freq as real * (k1 + 1.0) / Denominator(freq, docLen, avg, k1, b)
  }

  /** Query token `t` raises no ZeroDivisionError: either it is not in the
      document (nothing is divided) or both divisions of line 55-56 have a
      non-zero divisor. */
  predicate TermDefined(t: string, doc: seq<string>, avg: real, k1: real, b: real)
  {
    Freq(doc, t) > 0 ==> avg != 0.0 && Denominator(Freq(doc, t), |doc|, avg, k1, b) != 0.0
  }

  predicate Defined(query: seq<string>, doc: seq<string>, avg: real, k1: real, b: real)
  {
    forall i :: 0 <= i < |query| ==> TermDefined(query[i], doc, avg, k1, b)
  }

  /** What one query token adds: its weight when it is in the document,
      nothing otherwise. */
  function Term(t: string, doc: seq<string>, avg: real, k1: real, b: real): real
    requires TermDefined(t, doc, avg, k1, b)
  {
    if Freq(doc, t) > 0 then Weight(Freq(doc, t), |doc|, avg, k1, b) else 0.0
  }

  /** The score: the sum of the terms of the query tokens, in query order. */
  function Score(query: seq<string>, doc: seq<string>, avg: real, k1: real, b: real): real
    requires Defined(query, doc, avg, k1, b)
  {
    if query == [] then 0.0
    else Score(query[..|query| - 1], doc, avg, k1, b) + Term(query[|query| - 1], doc, avg, k1, b)
  }

  /** A float ZeroDivisionError is the only way the scorer can fail. */
  datatype Outcome = Ok(score: real) | ZeroDivisionError

  /** Lines 46-58. */
  method ComputeBm25Score(queryTokens: seq<string>, docTokens: seq<string>, avgDocLen: real,
                          k1: real, b: real) returns (r: Outcome)
    ensures r.Ok? <==> Defined(queryTokens, docTokens, avgDocLen, k1, b)
    ensures r.Ok? ==> r.score == Score(queryTokens, docTokens, avgDocLen, k1, b)
  {
    var docLen := |docTokens|;
    var docFreq := multiset(docTokens);
    var score := 0.0;
    for i := 0 to |queryTokens|
      invariant Defined(queryTokens[..i], docTokens, avgDocLen, k1, b)
      invariant score == Score(queryTokens[..i], docTokens, avgDocLen, k1, b)
    {
      var token := queryTokens[i];
      if token in docFreq {
        var freq := docFreq[token];
        if avgDocLen == 0.0 {
          DivisionByZeroAt(queryTokens, i, docTokens, avgDocLen, k1, b);
          return ZeroDivisionError;
        }
        if Denominator(freq, docLen, avgDocLen, k1, b) == 0.0 {
          DivisionByZeroAt(queryTokens, i, docTokens, avgDocLen, k1, b);
          return ZeroDivisionError;
        }
        MatchStep(queryTokens, i, docTokens, avgDocLen, k1, b);
        score := score + Weight(freq, docLen, avgDocLen, k1, b);
      } else {
        MissStep(queryTokens, i, docTokens, avgDocLen, k1, b);
      }
    }
    assert queryTokens[..|queryTokens|] == queryTokens;
    return Ok(score);
  }

  /** A query token found in the document adds its weight to the score so
      far. */
  lemma MatchStep(query: seq<string>, i: nat, doc: seq<string>, avg: real, k1: real, b: real)
    requires i < |query| && Defined(query[..i], doc, avg, k1, b)
    requires Freq(doc, query[i]) > 0 && avg != 0.0
    requires Denominator(Freq(doc, query[i]), |doc|, avg, k1, b) != 0.0
    ensures Defined(query[..i + 1], doc, avg, k1, b)
    ensures Score(query[..i + 1], doc, avg, k1, b)
         == Score(query[..i], doc, avg, k1, b) + Weight(Freq(doc, query[i]), |doc|, avg, k1, b)
  {
    assert query[..i + 1][..i] == query[..i];
  }

  /** A query token absent from the document leaves the score unchanged. */
  lemma MissStep(query: seq<string>, i: nat, doc: seq<string>, avg: real, k1: real, b: real)
    requires i < |query| && Defined(query[..i], doc, avg, k1, b)
    requires query[i] !in multiset(doc)
    ensures Defined(query[..i + 1], doc, avg, k1, b)
    ensures Score(query[..i + 1], doc, avg, k1, b) == Score(query[..i], doc, avg, k1, b)
  {
    assert query[..i + 1][..i] == query[..i];
  }

  /** A query token of the document whose term divides by zero makes the
      whole query undefined. */
  lemma DivisionByZeroAt(query: seq<string>, i: nat, doc: seq<string>, avg: real, k1: real, b: real)
    requires i < |query| && query[i] in multiset(doc)
    requires avg == 0.0 || Denominator(Freq(doc, query[i]), |doc|, avg, k1, b) == 0.0
    ensures !Defined(query, doc, avg, k1, b)
  {
    assert !TermDefined(query[i], doc, avg, k1, b);
  }

  // ---------------------------------------------------------------------
  // Properties

  /** The scorer's own parameter ranges. */
  predicate ValidParams(avg: real, k1: real, b: real)
  {
    avg > 0.0 && k1 > 0.0 && 0.0 <= b <= 1.0
  }

  /** Under valid parameters nothing is divided by zero: for a token of the
      document the denominator is at least its frequency. */
  lemma DefinedUnderValidParams(query: seq<string>, doc: seq<string>, avg: real, k1: real, b: real)
    requires ValidParams(avg, k1, b)
    ensures Defined(query, doc, avg, k1, b)
  {
    forall i | 0 <= i < |query| && Freq(doc, query[i]) > 0
      ensures Denominator(Freq(doc, query[i]), |doc|, avg, k1, b) > 0.0
    {
      LengthPartNonNegative(|doc|, avg, k1, b);
    }
  }

  lemma LengthPartNonNegative(docLen: nat, avg: real, k1: real, b: real)
    requires ValidParams(avg, k1, b)
    ensures LengthPart(docLen, avg, k1, b) >= 0.0
  {
    var ratio := docLen as real / avg;
    assert ratio >= 0.0;
    MulLeft(0.0, ratio, b);
    var inner := 1.0 - b + b * ratio;
    assert inner >= 0.0;
    MulLeft(0.0, inner, k1);
  }

  /** A query that shares no token with the document scores 0 (so does the
      empty query), and nothing is divided. */
  lemma {:induction false} NoOverlapScoresZero(query: seq<string>, doc: seq<string>, avg: real, k1: real, b: real)
    requires forall i :: 0 <= i < |query| ==> query[i] !in doc
    ensures Defined(query, doc, avg, k1, b)
    ensures Score(query, doc, avg, k1, b) == 0.0
    decreases |query|
  {
    if query != [] {
      NoOverlapScoresZero(query[..|query| - 1], doc, avg, k1, b);
    }
  }

  /** Each query token adds one term, repeats included: the score of a
      concatenation is the sum of the scores. */
  lemma {:induction false} ScoreAppend(p: seq<string>, q: seq<string>, doc: seq<string>, avg: real, k1: real, b: real)
    requires Defined(p, doc, avg, k1, b) && Defined(q, doc, avg, k1, b)
    ensures Defined(p + q, doc, avg, k1, b)
    ensures Score(p + q, doc, avg, k1, b) == Score(p, doc, avg, k1, b) + Score(q, doc, avg, k1, b)
    decreases |q|
  {
    if q == [] {
      assert p + q == p;
    } else {
      var q' := q[..|q| - 1];
      assert (p + q)[..|p + q| - 1] == p + q';
      assert (p + q)[|p + q| - 1] == q[|q| - 1];
      ScoreAppend(p, q', doc, avg, k1, b);
    }
  }

  /** A token repeated n times in the query adds its term n times. */
  lemma {:induction false} RepeatedToken(t: string, n: nat, doc: seq<string>, avg: real, k1: real, b: real)
    requires TermDefined(t, doc, avg, k1, b)
    ensures Defined(seq(n, _ => t), doc, avg, k1, b)
    ensures Score(seq(n, _ => t), doc, avg, k1, b) == n as real * Term(t, doc, avg, k1, b)
  {
    if n > 0 {
      RepeatedToken(t, n - 1, doc, avg, k1, b);
      assert seq(n, _ => t)[..n - 1] == seq(n - 1, _ => t);
    }
  }

  lemma MulLeft(a: real, b: real, k: real)
    requires a <= b && k >= 0.0
    ensures k * a <= k * b
  {
  }

  lemma MulLeftStrict(a: real, b: real, k: real)
    requires a < b && k > 0.0
    ensures k * a < k * b
  {
  }

  /** x / y < c when x < c y and y > 0. */
  lemma DivBelow(x: real, y: real, c: real)
    requires y > 0.0 && x < c * y
    ensures x / y < c
  {
    var q := x / y;
    assert q * y == x;
    if q >= c {
      MulLeft(c, q, y);
      assert false;
    }
  }

  /** x / y > 0 for positive x and y. */
  lemma DivPositive(x: real, y: real)
    requires x > 0.0 && y > 0.0
    ensures x / y > 0.0
  {
  }

  /** The part of the denominator beyond the frequency is positive whenever
      the document is non-empty: if b = 1 it is k1 times a positive length
      ratio. */
  lemma LengthPartPositive(docLen: nat, avg: real, k1: real, b: real)
    requires ValidParams(avg, k1, b) && docLen > 0
    ensures LengthPart(docLen, avg, k1, b) > 0.0
  {
    var ratio := docLen as real / avg;
    DivPositive(docLen as real, avg);
    if b > 0.0 {
      MulLeftStrict(0.0, ratio, b);
    }
    var inner := 1.0 - b + b * ratio;
    assert inner > 0.0;
    MulLeftStrict(0.0, inner, k1);
  }

  /** Each added term lies strictly between 0 and k1 + 1. */
  lemma WeightBounds(freq: nat, docLen: nat, avg: real, k1: real, b: real)
    requires ValidParams(avg, k1, b) && 1 <= freq <= docLen
    ensures Denominator(freq, docLen, avg, k1, b) > 0.0
    ensures 0.0 < Weight(freq, docLen, avg, k1, b) < k1 + 1.0
  {
    var d := LengthPart(docLen, avg, k1, b);
    LengthPartPositive(docLen, avg, k1, b);
    var f, c := freq as real, k1 + 1.0;
    var den := f + d;
    assert den == Denominator(freq, docLen, avg, k1, b);
    MulLeftStrict(f, den, c);
    assert f * c < c * den;
    DivBelow(f * c, den, c);
    MulLeftStrict(0.0, f, c);
    DivPositive(f * c, den);
    assert Weight(freq, docLen, avg, k1, b) == f * c / den;
  }

  /** With everything else fixed, a term grows with the token's frequency. */
  lemma WeightIncreasing(f: nat, g: nat, docLen: nat, avg: real, k1: real, b: real)
    requires ValidParams(avg, k1, b) && 1 <= f < g <= docLen
    ensures Denominator(f, docLen, avg, k1, b) > 0.0 && Denominator(g, docLen, avg, k1, b) > 0.0
    ensures Weight(f, docLen, avg, k1, b) < Weight(g, docLen, avg, k1, b)
  {
    var d := LengthPart(docLen, avg, k1, b);
    LengthPartPositive(docLen, avg, k1, b);
    var x, y, c := f as real, g as real, k1 + 1.0;
    assert x + d == Denominator(f, docLen, avg, k1, b);
    assert y + d == Denominator(g, docLen, avg, k1, b);
    assert Weight(f, docLen, avg, k1, b) == x * c / (x + d);
    assert Weight(g, docLen, avg, k1, b) == y * c / (y + d);
    RatioIncreasing(x, y, d, c);
  }

  /** x c / (x + d) < y c / (y + d) for 0 < x < y and positive c and d. */
  lemma RatioIncreasing(x: real, y: real, d: real, c: real)
    requires 0.0 < x < y && d > 0.0 && c > 0.0
    ensures x * c / (x + d) < y * c / (y + d)
  {
    var p, q := x * c / (x + d), y * c / (y + d);
    assert p * (x + d) == x * c;
    assert q * (y + d) == y * c;
    if p >= q {
      // p >= q gives x c (y + d) >= y c (x + d), i.e. x c d >= y c d
      MulLeft(q, p, (x + d) * (y + d));
      MulLeftStrict(x * c, y * c, d);
      MulLeftStrict(x, y, c);
      assert false;
    }
  }

  /** The score is never negative and, for a non-empty query, stays below
      |query| (k1 + 1). */
  lemma {:induction false} ScoreBounds(query: seq<string>, doc: seq<string>, avg: real, k1: real, b: real)
    requires ValidParams(avg, k1, b)
    ensures Defined(query, doc, avg, k1, b)
    ensures 0.0 <= Score(query, doc, avg, k1, b)
    ensures query != [] ==> Score(query, doc, avg, k1, b) < |query| as real * (k1 + 1.0)
    decreases |query|
  {
    DefinedUnderValidParams(query, doc, avg, k1, b);
    if query != [] {
      var init, t := query[..|query| - 1], query[|query| - 1];
      ScoreBounds(init, doc, avg, k1, b);
      if Freq(doc, t) > 0 {
        assert Freq(doc, t) <= |doc| by {
          assert |multiset(doc)| == |doc|;
        }
        WeightBounds(Freq(doc, t), |doc|, avg, k1, b);
      }
      assert 0.0 <= Term(t, doc, avg, k1, b) < k1 + 1.0;
    }
  }
}
