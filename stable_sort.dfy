/** `candidates.sort(key=lambda x: x['hybrid_score'], reverse=True)`
    (scripts/vector_utils.py, line 170): a stable sort, in place, by
    descending hybrid score. */
module StableSort {
  import opened Candidates

  /** The sort key. Every candidate sorted on the hybrid path carries a
      hybrid score; one without it would make Python raise KeyError, and
      this model never sorts one. */
  function Key(c: Candidate): real
  {
    match c.hybridScore
    case Some(h) => h
    case None => 0.0
  }

  /** Non-increasing in the key. */
  predicate Descending(s: seq<Candidate>)
  {
    forall i, j :: 0 <= i < j < |s| ==> Key(s[i]) >= Key(s[j])
  }

  /** The elements whose key is `k`, in their order in `s`. */
  function WithKey(s: seq<Candidate>, k: real): seq<Candidate>
  {
    if s == [] then []
    else WithKey(s[..|s| - 1], k) + (if Key(s[|s| - 1]) == k then [s[|s| - 1]] else [])
  }

  /** Places `x` after every element of `s` whose key is at least its own:
      the insertion step of a stable descending insertion sort. */
  function Insert(s: seq<Candidate>, x: Candidate): (r: seq<Candidate>)
  {
    if s == [] then [x]
    else if Key(s[|s| - 1]) < Key(x) then Insert(s[..|s| - 1], x) + [s[|s| - 1]]
    else s + [x]
  }

  /** The stably sorted list: the result of the insertion sort. */
  function Sorted(s: seq<Candidate>): seq<Candidate>
  {
    if s == [] then [] else Insert(Sorted(s[..|s| - 1]), s[|s| - 1])
  }

  /** The in-place sort of line 170: an insertion sort. */
  method SortByHybridScore(a: array<Candidate>)
    requires forall i :: 0 <= i < a.Length ==> a[i].hybridScore.Some?
    modifies a
    ensures a[..] == Sorted(old(a[..]))
  {
    ghost var input := a[..];
    for i := 0 to a.Length
      invariant a[..i] == Sorted(input[..i])
      invariant a[i..] == input[i..]
    {
      assert input[..i + 1] == input[..i] + [input[i]];
      assert a[i] == input[i] && a[i + 1..] == input[i + 1..];
      InsertInPlace(a, i);
    }
    assert input[..a.Length] == input;
  }

  /** Moves `a[i]` left past every element of the sorted prefix `a[..i]`
      whose key is smaller, shifting those one place to the right. */
  method InsertInPlace(a: array<Candidate>, i: nat)
    requires i < a.Length
    modifies a
    ensures a[..i + 1] == Insert(old(a[..i]), old(a[i]))
    ensures a[i + 1..] == old(a[i + 1..])
  {
    ghost var s := a[..i];
    var x := a[i];
    var j := i;
    while j > 0 && Key(a[j - 1]) < Key(x)
      invariant 0 <= j <= i
      invariant a[..j] == s[..j]
      invariant a[j + 1..i + 1] == s[j..]
      invariant a[i + 1..] == old(a[i + 1..])
      invariant Insert(s, x) == Insert(s[..j], x) + s[j..]
      decreases j
    {
      InsertShift(s, j, x);
      assert a[j - 1] == s[j - 1];
      a[j] := a[j - 1];
      assert a[..j - 1] == s[..j - 1];
      assert a[j..i + 1] == [s[j - 1]] + s[j..] == s[j - 1..];
      j := j - 1;
    }
    a[j] := x;
    InsertStop(s, j, x);
    assert a[..i + 1] == s[..j] + [x] + s[j..];
  }

  /** One shift of the inner loop: moving past an element with a smaller
      key. */
  lemma InsertShift(s: seq<Candidate>, j: nat, x: Candidate)
    requires 0 < j <= |s| && Key(s[j - 1]) < Key(x)
    requires Insert(s, x) == Insert(s[..j], x) + s[j..]
    ensures Insert(s, x) == Insert(s[..j - 1], x) + s[j - 1..]
  {
    assert s[..j][..j - 1] == s[..j - 1];
    assert [s[j - 1]] + s[j..] == s[j - 1..];
  }

  /** Where the inner loop stops, `x` goes in. */
  lemma InsertStop(s: seq<Candidate>, j: nat, x: Candidate)
    requires j <= |s| && (j == 0 || Key(s[j - 1]) >= Key(x))
    requires Insert(s, x) == Insert(s[..j], x) + s[j..]
    ensures Insert(s, x) == s[..j] + [x] + s[j..]
  {
  }

  // ---------------------------------------------------------------------
  // Properties of the stable sort

  lemma {:induction false} InsertLength(s: seq<Candidate>, x: Candidate)
    ensures |Insert(s, x)| == |s| + 1
    decreases |s|
  {
    if s != [] && Key(s[|s| - 1]) < Key(x) {
      InsertLength(s[..|s| - 1], x);
    }
  }

  /** Inserting adds exactly `x`. */
  lemma {:induction false} InsertPermutes(s: seq<Candidate>, x: Candidate)
    ensures multiset(Insert(s, x)) == multiset(s) + multiset{x}
    decreases |s|
  {
    if s != [] && Key(s[|s| - 1]) < Key(x) {
      var init := s[..|s| - 1];
      InsertPermutes(init, x);
      assert s == init + [s[|s| - 1]];
    }
  }

  /** Inserting into a descending list keeps it descending. */
  lemma {:induction false} InsertDescending(s: seq<Candidate>, x: Candidate)
    requires Descending(s)
    ensures Descending(Insert(s, x))
    ensures Insert(s, x) != [] && Key(Insert(s, x)[|Insert(s, x)| - 1]) <= Key(x)
    decreases |s|
  {
    InsertLength(s, x);
    if s != [] && Key(s[|s| - 1]) < Key(x) {
      var init, last := s[..|s| - 1], s[|s| - 1];
      InsertDescending(init, x);
      InsertPermutes(init, x);
      var r := Insert(init, x);
      InsertLength(init, x);
      forall y | y in r ensures Key(y) >= Key(last) {
        assert y in multiset(r);
        if y != x {
          assert y in multiset(init);
          var k :| 0 <= k < |init| && init[k] == y;
        }
      }
      forall i, j | 0 <= i < j < |r + [last]| ensures Key((r + [last])[i]) >= Key((r + [last])[j]) {
        if j == |r| {
          assert (r + [last])[i] in r;
        }
      }
    }
  }

  /** Inserting `x` into a descending list puts it after every element with
      its own key: per key, the order of arrival is kept. */
  lemma {:induction false} InsertStable(s: seq<Candidate>, x: Candidate, k: real)
    requires Descending(s)
    ensures WithKey(Insert(s, x), k) == WithKey(s, k) + (if Key(x) == k then [x] else [])
    decreases |s|
  {
    if s == [] {
      assert WithKey([x], k) == WithKey([], k) + (if Key(x) == k then [x] else []);
    } else {
      var init, last := s[..|s| - 1], s[|s| - 1];
      if Key(last) < Key(x) {
        InsertStable(init, x, k);
        var r := Insert(init, x);
        assert (r + [last])[..|r + [last]| - 1] == r;
        if Key(x) == k {
          // `last` has a smaller key than `x`, so it is not among those with key k
          assert WithKey(s, k) == WithKey(init, k);
        }
      } else {
        assert (s + [x])[..|s + [x]| - 1] == s;
      }
    }
  }

  /** The sort returns a permutation of its input. */
  lemma {:induction false} SortedPermutes(s: seq<Candidate>)
    ensures |Sorted(s)| == |s|
    ensures multiset(Sorted(s)) == multiset(s)
    decreases |s|
  {
    if s != [] {
      var init := s[..|s| - 1];
      SortedPermutes(init);
      InsertLength(Sorted(init), s[|s| - 1]);
      InsertPermutes(Sorted(init), s[|s| - 1]);
      assert s == init + [s[|s| - 1]];
    }
  }

  /** The sort returns a descending list. */
  lemma {:induction false} SortedDescending(s: seq<Candidate>)
    ensures Descending(Sorted(s))
    decreases |s|
  {
    if s != [] {
      SortedDescending(s[..|s| - 1]);
      InsertDescending(Sorted(s[..|s| - 1]), s[|s| - 1]);
    }
  }

  /** The sort is stable: for every key, the candidates with that key come
      out in the order they came in. */
  lemma {:induction false} SortedStable(s: seq<Candidate>, k: real)
    ensures WithKey(Sorted(s), k) == WithKey(s, k)
    decreases |s|
  {
    if s != [] {
      var init := s[..|s| - 1];
      SortedStable(init, k);
      SortedDescending(init);
      InsertStable(Sorted(init), s[|s| - 1], k);
    }
  }

  /** A candidate with a larger key comes out ahead of one with a smaller
      key. */
  lemma SortedOrders(s: seq<Candidate>, x: Candidate, y: Candidate)
    requires x in s && y in s && Key(x) > Key(y)
    ensures exists p, q :: 0 <= p < q < |Sorted(s)| && Sorted(s)[p] == x && Sorted(s)[q] == y
  {
    SortedPermutes(s);
    SortedDescending(s);
    var r := Sorted(s);
    assert x in multiset(r) && y in multiset(r);
    var p :| 0 <= p < |r| && r[p] == x;
    var q :| 0 <= q < |r| && r[q] == y;
    if q <= p {
      assert false;
    }
  }

  /** A list already in descending order is left as it is. */
  lemma {:induction false} SortedIdentity(s: seq<Candidate>)
    requires Descending(s)
    ensures Sorted(s) == s
    decreases |s|
  {
    if s != [] {
      var init := s[..|s| - 1];
      assert Descending(init);
      SortedIdentity(init);
      if |init| > 0 {
        assert Key(init[|init| - 1]) >= Key(s[|s| - 1]);
      }
      assert init + [s[|s| - 1]] == s;
    }
  }

  /** Taking a prefix keeps, for each key, a prefix of that key's
      elements. */
  lemma {:induction false} WithKeyPrefix(s: seq<Candidate>, m: nat, k: real)
    requires m <= |s|
    ensures WithKey(s[..m], k) <= WithKey(s, k)
    decreases |s|
  {
    if m < |s| {
      var init := s[..|s| - 1];
      assert s[..m] == init[..m];
      WithKeyPrefix(init, m, k);
    } else {
      assert s[..m] == s;
    }
  }

  /** The first m entries of a descending list: descending, a
      sub-multiset, and nothing after them has a larger key than any of
      them. */
  lemma DescendingPrefix(ranked: seq<Candidate>, m: nat)
    requires Descending(ranked) && m <= |ranked|
    ensures Descending(ranked[..m])
    ensures multiset(ranked[..m]) <= multiset(ranked)
    ensures forall c, i :: c in multiset(ranked) - multiset(ranked[..m]) && 0 <= i < m ==>
      Key(c) <= Key(ranked[i])
  {
    var top := ranked[..m];
    assert ranked == top + ranked[m..];
    assert multiset(ranked) == multiset(top) + multiset(ranked[m..]);
    forall c, i | c in multiset(ranked) - multiset(top) && 0 <= i < m
      ensures Key(c) <= Key(ranked[i])
    {
      assert c in multiset(ranked[m..]);
      var j :| 0 <= j < |ranked[m..]| && ranked[m..][j] == c;
      assert ranked[m + j] == c;
    }
  }

  /** The first m entries of the stable sort (m at most the length): a
      descending sub-multiset of the input, and nothing left out has a
      larger key than anything kept. */
  lemma TopOfSorted(s: seq<Candidate>, m: nat)
    requires m <= |s|
    ensures |Sorted(s)| == |s|
    ensures Descending(Sorted(s)[..m])
    ensures multiset(Sorted(s)[..m]) <= multiset(s)
    ensures forall c, i :: c in multiset(s) - multiset(Sorted(s)[..m]) && 0 <= i < m ==>
      Key(c) <= Key(Sorted(s)[i])
  {
    SortedPermutes(s);
    SortedDescending(s);
    DescendingPrefix(Sorted(s), m);
  }

  /** For every key, the entries with that key among the first m of the
      stable sort are the first of them in input order. */
  lemma TopOfSortedStable(s: seq<Candidate>, m: nat)
    requires m <= |s|
    ensures |Sorted(s)| == |s|
    ensures forall k :: WithKey(Sorted(s)[..m], k) <= WithKey(s, k)
  {
    SortedPermutes(s);
    forall k ensures WithKey(Sorted(s)[..m], k) <= WithKey(s, k) {
      WithKeyPrefix(Sorted(s), m, k);
      SortedStable(s, k);
    }
  }
}
