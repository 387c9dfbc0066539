/** Pure list operations with the semantics of the JavaScript array methods
    the dashboard uses: `filter`, `reduce` to a sum, a stable `sort` with a
    descending comparator, `slice(0, n)`, and filtering out one index. */
module Seqs {

  /** `a` is `b` with some elements deleted, the rest in their order. */
  ghost predicate IsSubsequence<T>(a: seq<T>, b: seq<T>)
    decreases |b|
  {
    || |a| == 0
    || (|b| > 0 && ((a[0] == b[0] && IsSubsequence(a[1..], b[1..])) || IsSubsequence(a, b[1..])))
  }

  /** `s.filter(keep)`. */
  function Filter<T>(s: seq<T>, keep: T -> bool): (r: seq<T>)
    ensures |r| <= |s|
    ensures IsSubsequence(r, s)
    ensures forall i :: 0 <= i < |r| ==> keep(r[i])
    ensures forall i :: 0 <= i < |r| ==> r[i] in s
    ensures forall i :: 0 <= i < |s| ==> (s[i] in r <==> keep(s[i]))
    ensures (forall i :: 0 <= i < |s| ==> keep(s[i])) ==> r == s
  {
    if |s| == 0 then
      []
    else
      var rest := Filter(s[1..], keep);
      assert forall i :: 0 < i < |s| ==> s[i] == s[1..][i - 1];
      if keep(s[0]) then
        assert ([s[0]] + rest)[1..] == rest;
        [s[0]] + rest
      else
        rest
  }

  /** `filter` keeps every copy of a kept element and none of a dropped one. */
  lemma FilterMultiplicity<T>(s: seq<T>, keep: T -> bool)
    ensures forall i :: 0 <= i < |s| ==>
              multiset(Filter(s, keep))[s[i]] == if keep(s[i]) then multiset(s)[s[i]] else 0
  {
    forall i | 0 <= i < |s|
      ensures multiset(Filter(s, keep))[s[i]] == if keep(s[i]) then multiset(s)[s[i]] else 0
    {
      FilterCount(s, keep, s[i]);
    }
  }

  /** The number of copies of one value that `filter` keeps. */
  lemma {:induction false} FilterCount<T>(s: seq<T>, keep: T -> bool, x: T)
    ensures multiset(Filter(s, keep))[x] == if keep(x) then multiset(s)[x] else 0
    decreases |s|
  {
    if |s| > 0 {
      var rest := Filter(s[1..], keep);
      FilterCount(s[1..], keep, x);
      assert s == [s[0]] + s[1..];
      assert multiset(s)[x] == multiset{s[0]}[x] + multiset(s[1..])[x];
      if keep(s[0]) {
        assert Filter(s, keep) == [s[0]] + rest;
        assert multiset(Filter(s, keep))[x] == multiset{s[0]}[x] + multiset(rest)[x];
      } else {
        assert Filter(s, keep) == rest;
      }
    }
  }

  /** Filtering with two tests that agree on every element gives one list. */
  lemma {:induction false} FilterSameTest<T>(s: seq<T>, p: T -> bool, q: T -> bool)
    requires forall i :: 0 <= i < |s| ==> p(s[i]) == q(s[i])
    ensures Filter(s, p) == Filter(s, q)
    decreases |s|
  {
    if |s| > 0 {
      FilterSameTest(s[1..], p, q);
    }
  }

  /** Filtering twice is filtering once with both tests. */
  lemma {:induction false} FilterFilter<T>(s: seq<T>, p: T -> bool, q: T -> bool, both: T -> bool)
    requires forall i :: 0 <= i < |s| ==> both(s[i]) == (p(s[i]) && q(s[i]))
    ensures Filter(Filter(s, p), q) == Filter(s, both)
    decreases |s|
  {
    if |s| > 0 {
      FilterFilter(s[1..], p, q, both);
    }
  }

  /** Keeping the elements that satisfy either of two exclusive tests keeps
      no more than the whole list. */
  lemma {:induction false} FilterDisjointLength<T>(s: seq<T>, p: T -> bool, q: T -> bool)
    requires forall x :: !(p(x) && q(x))
    ensures |Filter(s, p)| + |Filter(s, q)| <= |s|
    decreases |s|
  {
    if |s| > 0 {
      FilterDisjointLength(s[1..], p, q);
    }
  }

  /** `s.reduce((sum, x) => sum + f(x), 0)`, folded from the left. */
  function Sum<T>(s: seq<T>, f: T -> int): int
    decreases |s|
  {
    if |s| == 0 then 0 else Sum(s[..|s| - 1], f) + f(s[|s| - 1])
  }

  /** The same fold over real-valued fields (growth rates, percentages). */
  function SumReal<T>(s: seq<T>, f: T -> real): real
    decreases |s|
  {
    if |s| == 0 then 0.0 else SumReal(s[..|s| - 1], f) + f(s[|s| - 1])
  }

  /** One more element of a prefix adds its term. */
  lemma SumPrefixStep<T>(s: seq<T>, k: int, f: T -> int)
    requires 0 < k <= |s|
    ensures Sum(s[..k], f) == Sum(s[..k - 1], f) + f(s[k - 1])
  {
    assert s[..k][..k - 1] == s[..k - 1];
  }

  /** One more element of a prefix adds its term. */
  lemma SumRealPrefixStep<T>(s: seq<T>, k: int, f: T -> real)
    requires 0 < k <= |s|
    ensures SumReal(s[..k], f) == SumReal(s[..k - 1], f) + f(s[k - 1])
  {
    assert s[..k][..k - 1] == s[..k - 1];
  }

  /** A sum splits over concatenation. */
  lemma {:induction false} SumAppend<T>(a: seq<T>, b: seq<T>, f: T -> int)
    ensures Sum(a + b, f) == Sum(a, f) + Sum(b, f)
    decreases |b|
  {
    if |b| > 0 {
      assert (a + b)[..|a + b| - 1] == a + b[..|b| - 1];
      SumAppend(a, b[..|b| - 1], f);
    } else {
      assert a + b == a;
    }
  }

  lemma {:induction false} SumRealAppend<T>(a: seq<T>, b: seq<T>, f: T -> real)
    ensures SumReal(a + b, f) == SumReal(a, f) + SumReal(b, f)
    decreases |b|
  {
    if |b| > 0 {
      assert (a + b)[..|a + b| - 1] == a + b[..|b| - 1];
      SumRealAppend(a, b[..|b| - 1], f);
    } else {
      assert a + b == a;
    }
  }

  /** The sum seen from the front: the first term plus the sum of the rest. */
  lemma SumFront<T>(s: seq<T>, f: T -> int)
    requires |s| > 0
    ensures Sum(s, f) == f(s[0]) + Sum(s[1..], f)
  {
    SumAppend([s[0]], s[1..], f);
    assert [s[0]] + s[1..] == s;
    assert [s[0]][..0] == [];
  }

  lemma SumRealFront<T>(s: seq<T>, f: T -> real)
    requires |s| > 0
    ensures SumReal(s, f) == f(s[0]) + SumReal(s[1..], f)
  {
    SumRealAppend([s[0]], s[1..], f);
    assert [s[0]] + s[1..] == s;
    assert [s[0]][..0] == [];
  }

  /** Non-negative terms give a sum no smaller than any one term. */
  lemma {:induction false} SumBoundsTerm<T>(s: seq<T>, f: T -> int, i: int)
    requires forall j :: 0 <= j < |s| ==> f(s[j]) >= 0
    requires 0 <= i < |s|
    ensures 0 <= f(s[i]) <= Sum(s, f)
    decreases |s|
  {
    SumNonNegative(s[..|s| - 1], f);
    if i < |s| - 1 {
      SumBoundsTerm(s[..|s| - 1], f, i);
    }
  }

  lemma {:induction false} SumNonNegative<T>(s: seq<T>, f: T -> int)
    requires forall j :: 0 <= j < |s| ==> f(s[j]) >= 0
    ensures Sum(s, f) >= 0
    decreases |s|
  {
    if |s| > 0 {
      SumNonNegative(s[..|s| - 1], f);
    }
  }

  // ---------------------------------------------------------------------
  // Stable descending sort
  // ---------------------------------------------------------------------

  /** Every key in `s` is at most `b`. */
  predicate AllAtMost<T>(s: seq<T>, key: T -> real, b: real) {
    forall i :: 0 <= i < |s| ==> key(s[i]) <= b
  }

  /** Keys never increase from left to right. */
  predicate NonIncreasing<T>(s: seq<T>, key: T -> real) {
    forall i, j :: 0 <= i < j < |s| ==> key(s[i]) >= key(s[j])
  }

  /** In a non-increasing sequence no element left out of the first `n`
      has a larger key than one kept. */
  lemma TakeDominates<T>(s: seq<T>, key: T -> real, n: nat)
    requires NonIncreasing(s, key)
    ensures forall y, i :: y in multiset(s) - multiset(Take(s, n)) && 0 <= i < |Take(s, n)| ==> key(y) <= key(s[i])
  {
    var top := Take(s, n);
    var rest := s[|top|..];
    assert multiset(s) - multiset(top) == multiset(rest) by {
      assert s == top + rest;
    }
    forall y, i | y in multiset(rest) && 0 <= i < |top|
      ensures key(y) <= key(s[i])
    {
      InTail(s, |top|, y);
      var j :| |top| <= j < |s| && s[j] == y;
    }
  }

  /** An element of the tail of `s` from `c` on sits at some index from `c` on. */
  lemma InTail<T>(s: seq<T>, c: nat, y: T)
    requires c <= |s| && y in multiset(s[c..])
    ensures exists j :: c <= j < |s| && s[j] == y
  {
    assert y in s[c..];
    var m :| 0 <= m < |s[c..]| && s[c..][m] == y;
    assert s[c + m] == y;
  }

  /** The elements of `s` whose key is `k`, in their order. */
  function WithKey<T>(s: seq<T>, key: T -> real, k: real): seq<T> {
    if |s| == 0 then []
    else (if key(s[0]) == k then [s[0]] else []) + WithKey(s[1..], key, k)
  }

  /** Of the elements with one key, a prefix of `s` holds a prefix of them. */
  lemma {:induction false} WithKeyPrefix<T>(s: seq<T>, n: nat, key: T -> real, k: real)
    requires n <= |s|
    ensures WithKey(s[..n], key, k) <= WithKey(s, key, k)
    decreases n
  {
    if n > 0 {
      WithKeyPrefix(s[1..], n - 1, key, k);
      assert s[..n][1..] == s[1..][..n - 1];
    }
  }

  /** Places `x` in front of the first element whose key is not greater
      than its own, so that `x` precedes the elements of equal key. */
  function InsertDesc<T>(x: T, s: seq<T>, key: T -> real): (r: seq<T>)
    ensures |r| == |s| + 1
    ensures multiset(r) == multiset(s) + multiset{x}
  {
    if |s| == 0 || key(s[0]) <= key(x) then
      [x] + s
    else
      assert s == [s[0]] + s[1..];
      [s[0]] + InsertDesc(x, s[1..], key)
  }

  /** An upper bound of all keys survives the insertion of a smaller key. */
  lemma {:induction false} InsertDescBound<T>(x: T, s: seq<T>, key: T -> real, b: real)
    requires AllAtMost(s, key, b) && key(x) <= b
    ensures AllAtMost(InsertDesc(x, s, key), key, b)
    decreases |s|
  {
    if |s| > 0 && key(s[0]) > key(x) {
      InsertDescBound(x, s[1..], key, b);
    }
  }

  /** Insertion keeps a non-increasing list non-increasing. */
  lemma {:induction false} InsertDescSorted<T>(x: T, s: seq<T>, key: T -> real)
    requires NonIncreasing(s, key)
    ensures NonIncreasing(InsertDesc(x, s, key), key)
    decreases |s|
  {
    var r := InsertDesc(x, s, key);
    if |s| == 0 || key(s[0]) <= key(x) {
      assert r[1..] == s;
      if |s| > 0 {
        assert forall j :: 0 < j < |r| ==> key(r[j]) <= key(s[0]);
      }
    } else {
      var rest := InsertDesc(x, s[1..], key);
      assert r == [s[0]] + rest;
      InsertDescSorted(x, s[1..], key);
      assert AllAtMost(s[1..], key, key(s[0]));
      InsertDescBound(x, s[1..], key, key(s[0]));
      assert forall j :: 0 < j < |r| ==> r[j] == rest[j - 1];
    }
  }

  /** Among the elements of one key, the inserted one comes first. */
  lemma {:induction false} InsertDescWithKey<T>(x: T, s: seq<T>, key: T -> real, k: real)
    ensures WithKey(InsertDesc(x, s, key), key, k) == (if key(x) == k then [x] else []) + WithKey(s, key, k)
    decreases |s|
  {
    var r := InsertDesc(x, s, key);
    if |s| == 0 || key(s[0]) <= key(x) {
      assert r[1..] == s;
    } else {
      InsertDescWithKey(x, s[1..], key, k);
      InsertDescWithKeyStep(x, s, key, k);
    }
  }

  /** The step of `InsertDescWithKey` where `x` passes the head of `s`. */
  lemma InsertDescWithKeyStep<T>(x: T, s: seq<T>, key: T -> real, k: real)
    requires |s| > 0 && key(s[0]) > key(x)
    requires WithKey(InsertDesc(x, s[1..], key), key, k) == (if key(x) == k then [x] else []) + WithKey(s[1..], key, k)
    ensures WithKey(InsertDesc(x, s, key), key, k) == (if key(x) == k then [x] else []) + WithKey(s, key, k)
  {
    var r := InsertDesc(x, s, key);
    var rest := InsertDesc(x, s[1..], key);
    var mx: seq<T> := if key(x) == k then [x] else [];
    var ms: seq<T> := if key(s[0]) == k then [s[0]] else [];
    assert r[0] == s[0] && r[1..] == rest;
    assert WithKey(r, key, k) == ms + WithKey(rest, key, k);
    assert WithKey(s, key, k) == ms + WithKey(s[1..], key, k);
    if ms == [] {
      assert WithKey(r, key, k) == WithKey(rest, key, k);
    } else {
      assert mx == [];
    }
  }

  /** `s.sort((a, b) => key(b) - key(a))` (integer keys are compared as
      numbers, so they are passed in as reals). */
  function SortDesc<T>(s: seq<T>, key: T -> real): (r: seq<T>)
    ensures |r| == |s|
    ensures multiset(r) == multiset(s)
  {
    if |s| == 0 then
      []
    else
      assert s == [s[0]] + s[1..];
      InsertDesc(s[0], SortDesc(s[1..], key), key)
  }

  /** JavaScript's sort is stable: the result is non-increasing in `key`,
      and the elements of each key keep their input order. */
  lemma {:induction false} SortDescSpec<T>(s: seq<T>, key: T -> real)
    ensures NonIncreasing(SortDesc(s, key), key)
    ensures forall k :: WithKey(SortDesc(s, key), key, k) == WithKey(s, key, k)
    decreases |s|
  {
    if |s| > 0 {
      var rest := SortDesc(s[1..], key);
      SortDescSpec(s[1..], key);
      InsertDescSorted(s[0], rest, key);
      forall k ensures WithKey(SortDesc(s, key), key, k) == WithKey(s, key, k) {
        InsertDescWithKey(s[0], rest, key, k);
      }
    }
  }

  /** The ordering half of `SortDescSpec` on its own. */
  lemma SortDescOrdered<T>(s: seq<T>, key: T -> real)
    ensures NonIncreasing(SortDesc(s, key), key)
  {
    SortDescSpec(s, key);
  }

  /** Insertion adds the inserted element's term to a sum. */
  lemma {:induction false} InsertDescSum<T>(x: T, s: seq<T>, key: T -> real, f: T -> real)
    ensures SumReal(InsertDesc(x, s, key), f) == f(x) + SumReal(s, f)
    decreases |s|
  {
    var r := InsertDesc(x, s, key);
    SumRealFront(r, f);
    if |s| == 0 || key(s[0]) <= key(x) {
      assert r[1..] == s;
    } else {
      assert r[1..] == InsertDesc(x, s[1..], key);
      InsertDescSum(x, s[1..], key, f);
      SumRealFront(s, f);
    }
  }

  /** Sorting does not change a sum. */
  lemma {:induction false} SortDescSum<T>(s: seq<T>, key: T -> real, f: T -> real)
    ensures SumReal(SortDesc(s, key), f) == SumReal(s, f)
    decreases |s|
  {
    if |s| > 0 {
      SortDescSum(s[1..], key, f);
      InsertDescSum(s[0], SortDesc(s[1..], key), key, f);
      SumRealFront(s, f);
    }
  }

  /** Two lists whose terms agree position by position have one sum. */
  lemma {:induction false} SumPointwise<A, B>(s: seq<A>, t: seq<B>, f: A -> int, g: B -> int)
    requires |s| == |t|
    requires forall i :: 0 <= i < |s| ==> f(s[i]) == g(t[i])
    ensures Sum(s, f) == Sum(t, g)
    decreases |s|
  {
    if |s| > 0 {
      SumPointwise(s[..|s| - 1], t[..|t| - 1], f, g);
    }
  }

  /** `s.slice(0, n)`: the first `n` elements, or all of a shorter list. */
  function Take<T>(s: seq<T>, n: nat): (r: seq<T>)
    ensures |r| == if n <= |s| then n else |s|
    ensures r == s[..|r|]
  {
    if n <= |s| then s[..n] else s
  }

  // ---------------------------------------------------------------------
  // Filtering out one index
  // ---------------------------------------------------------------------

  /** `s.filter((_, i) => i !== index)`, with `offset` the index of `s[0]`. */
  function WithoutIndexFrom<T>(s: seq<T>, index: int, offset: int): seq<T>
    decreases |s|
  {
    if |s| == 0 then []
    else (if index == offset then [] else [s[0]]) + WithoutIndexFrom(s[1..], index, offset + 1)
  }

  /** Filtering out one index deletes exactly that element, or nothing when
      the index is out of range. */
  lemma {:induction false} WithoutIndexFromSpec<T>(s: seq<T>, index: int, offset: int)
    ensures offset <= index < offset + |s| ==>
              WithoutIndexFrom(s, index, offset) == s[..index - offset] + s[index - offset + 1..]
    ensures !(offset <= index < offset + |s|) ==> WithoutIndexFrom(s, index, offset) == s
    decreases |s|
  {
    if |s| > 0 {
      WithoutIndexFromSpec(s[1..], index, offset + 1);
      if index == offset {
        assert s[..0] + s[1..] == s[1..];
      } else if offset < index < offset + |s| {
        assert s[..index - offset] == [s[0]] + s[1..][..index - offset - 1];
        assert s[index - offset + 1..] == s[1..][index - offset..];
      } else {
        assert [s[0]] + s[1..] == s;
      }
    }
  }

  /** `s.filter((_, i) => i !== index)`. */
  function WithoutIndex<T>(s: seq<T>, index: int): (r: seq<T>)
    ensures 0 <= index < |s| ==> r == s[..index] + s[index + 1..]
    ensures !(0 <= index < |s|) ==> r == s
  {
    WithoutIndexFromSpec(s, index, 0);
    WithoutIndexFrom(s, index, 0)
  }
}
