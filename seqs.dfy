/**
 * The collection operations of Swift's standard library that the journal's
 * analytics are written with (`filter`, `reduce`, `sorted`), stated once,
 * together with the facts about them that the rest of the model uses.
 */
module Seqs {

  /** `r` keeps some of the elements of `s`, in their original order. */
  predicate IsSubsequence<T(==)>(r: seq<T>, s: seq<T>)
    decreases |s|
  {
    r == [] || (s != [] && ((r[0] == s[0] && IsSubsequence(r[1..], s[1..])) || IsSubsequence(r, s[1..])))
  }

  /** Swift's `filter`: the elements satisfying `p`, in their original order. */
  function Filter<T(==)>(s: seq<T>, p: T -> bool): (r: seq<T>)
    ensures |r| <= |s|
    ensures forall i :: 0 <= i < |r| ==> r[i] in s && p(r[i])
    ensures forall i :: 0 <= i < |s| && p(s[i]) ==> s[i] in r
  {
    if s == [] then []
    else if p(s[0]) then [s[0]] + Filter(s[1..], p)
    else Filter(s[1..], p)
  }

  /** A filter keeps its elements in their original order. */
  lemma {:induction false} FilterIsSubsequence<T>(s: seq<T>, p: T -> bool)
    ensures IsSubsequence(Filter(s, p), s)
  {
    if s != [] {
      FilterIsSubsequence(s[1..], p);
    }
  }

  /** A filter keeps every copy of each element that passes and no copy of one that does not. */
  lemma {:induction false} FilterMultiset<T>(s: seq<T>, p: T -> bool)
    ensures forall x :: multiset(Filter(s, p))[x] == if p(x) then multiset(s)[x] else 0
  {
    if s != [] {
      FilterMultiset(s[1..], p);
      assert s == [s[0]] + s[1..];
      assert multiset(s) == multiset{s[0]} + multiset(s[1..]);
    }
  }

  lemma {:induction false} FilterAppend<T>(a: seq<T>, b: seq<T>, p: T -> bool)
    ensures Filter(a + b, p) == Filter(a, p) + Filter(b, p)
  {
    if a == [] {
      assert a + b == b;
    } else {
      var ab := a + b;
      assert ab[0] == a[0] && ab[1..] == a[1..] + b;
      FilterAppend(a[1..], b, p);
      assert Filter(ab, p) == (if p(a[0]) then [a[0]] else []) + Filter(a[1..] + b, p);
      assert Filter(a, p) == (if p(a[0]) then [a[0]] else []) + Filter(a[1..], p);
    }
  }

  /** Filtering with `q` after `p` is filtering with `q` alone when `q` implies `p`. */
  lemma {:induction false} FilterFilter<T>(s: seq<T>, p: T -> bool, q: T -> bool)
    requires forall x :: q(x) ==> p(x)
    ensures Filter(Filter(s, p), q) == Filter(s, q)
  {
    if s != [] {
      FilterFilter(s[1..], p, q);
    }
  }

  /** A filter keeps everything exactly when every element passes, and nothing exactly when none does. */
  lemma {:induction false} FilterLength<T>(s: seq<T>, p: T -> bool)
    ensures |Filter(s, p)| == |s| <==> forall i :: 0 <= i < |s| ==> p(s[i])
    ensures |Filter(s, p)| == 0 <==> forall i :: 0 <= i < |s| ==> !p(s[i])
  {
    if s != [] {
      FilterLength(s[1..], p);
      if !p(s[0]) {
        assert |Filter(s, p)| < |s|;
      }
      assert forall i :: 1 <= i < |s| ==> s[i] == s[1..][i - 1];
    }
  }

  /** Filtering with `p` and then `q` is filtering with their conjunction `pq`. */
  lemma {:induction false} FilterBoth<T>(s: seq<T>, p: T -> bool, q: T -> bool, pq: T -> bool)
    requires forall x :: pq(x) == (p(x) && q(x))
    ensures Filter(Filter(s, p), q) == Filter(s, pq)
  {
    if s != [] {
      FilterBoth(s[1..], p, q, pq);
    }
  }

  /** What holds of every element still holds of every element kept. */
  lemma {:induction false} FilterKeeps<T>(s: seq<T>, p: T -> bool, q: T -> bool)
    requires forall j :: 0 <= j < |s| ==> q(s[j])
    ensures forall j :: 0 <= j < |Filter(s, p)| ==> q(Filter(s, p)[j])
  {
    if s != [] {
      assert forall j :: 0 <= j < |s[1..]| ==> s[1..][j] == s[j + 1];
      FilterKeeps(s[1..], p, q);
    }
  }

  /** A filter that no element passes leaves nothing. */
  lemma {:induction false} FilterNone<T>(s: seq<T>, p: T -> bool)
    requires forall x :: !p(x)
    ensures Filter(s, p) == []
  {
    if s != [] {
      FilterNone(s[1..], p);
    }
  }

  /** A filter that every element passes changes nothing. */
  lemma {:induction false} FilterAll<T>(s: seq<T>, p: T -> bool)
    requires forall x :: x in s ==> p(x)
    ensures Filter(s, p) == s
  {
    if s != [] {
      FilterAll(s[1..], p);
    }
  }

  /** The first element of `a` occurs in its permutation `b`; taking it out of both leaves permutations. */
  lemma PermutationHead<T>(a: seq<T>, b: seq<T>) returns (k: nat)
    requires multiset(a) == multiset(b) && a != []
    ensures k < |b| && b[k] == a[0]
    ensures multiset(a[1..]) == multiset(b[..k] + b[k + 1..])
  {
    assert a[0] in multiset(b);
    k :| 0 <= k < |b| && b[k] == a[0];
    assert b == b[..k] + [b[k]] + b[k + 1..];
    assert multiset(b) == multiset(b[..k]) + multiset{b[k]} + multiset(b[k + 1..]);
    assert a == [a[0]] + a[1..];
    assert multiset(a) == multiset{a[0]} + multiset(a[1..]);
    forall y ensures multiset(a[1..])[y] == multiset(b[..k] + b[k + 1..])[y] {
      assert multiset(a)[y] == multiset(b)[y];
    }
  }

  /** Filtering commutes with reordering: a permutation keeps the same elements. */
  lemma {:induction false} FilterPermutation<T>(a: seq<T>, b: seq<T>, p: T -> bool)
    requires multiset(a) == multiset(b)
    ensures multiset(Filter(a, p)) == multiset(Filter(b, p))
    ensures |Filter(a, p)| == |Filter(b, p)|
  {
    if a == [] {
      assert |b| == |multiset(b)| == 0;
    } else {
      var x := a[0];
      var k := PermutationHead(a, b);
      var rest := b[..k] + b[k + 1..];
      assert b == b[..k] + [x] + b[k + 1..];
      assert b == b[..k] + ([x] + b[k + 1..]);
      assert a == [x] + a[1..];
      FilterPermutation(a[1..], rest, p);
      FilterAppend(b[..k] + [x], b[k + 1..], p);
      FilterAppend(b[..k], [x], p);
      FilterAppend(b[..k], b[k + 1..], p);
      FilterAppend([x], a[1..], p);
    }
    assert |Filter(a, p)| == |multiset(Filter(a, p))|;
    assert |Filter(b, p)| == |multiset(Filter(b, p))|;
  }

  /** The mathematical sum of `f` over `s`. */
  function Sum<T>(s: seq<T>, f: T -> real): real
  {
    if s == [] then 0.0 else f(s[0]) + Sum(s[1..], f)
  }

  /** A sum of terms of one sign has that sign. */
  lemma {:induction false} SumSigns<T>(s: seq<T>, f: T -> real)
    ensures (forall i :: 0 <= i < |s| ==> f(s[i]) >= 0.0) ==> Sum(s, f) >= 0.0
    ensures (forall i :: 0 <= i < |s| ==> f(s[i]) <= 0.0) ==> Sum(s, f) <= 0.0
    ensures s != [] && (forall i :: 0 <= i < |s| ==> f(s[i]) > 0.0) ==> Sum(s, f) > 0.0
    ensures s != [] && (forall i :: 0 <= i < |s| ==> f(s[i]) < 0.0) ==> Sum(s, f) < 0.0
  {
    if s != [] {
      assert forall i :: 0 <= i < |s[1..]| ==> s[1..][i] == s[i + 1];
      SumSigns(s[1..], f);
    }
  }

  /** Swift's `reduce(acc) { $0 + f($1) }`: a left fold, which adds `Sum` to the start value. */
  function Reduce<T>(acc: real, s: seq<T>, f: T -> real): (r: real)
    ensures r == acc + Sum(s, f)
    decreases |s|
  {
    if s == [] then acc else Reduce(acc + f(s[0]), s[1..], f)
  }

  lemma {:induction false} SumAppend<T>(a: seq<T>, b: seq<T>, f: T -> real)
    ensures Sum(a + b, f) == Sum(a, f) + Sum(b, f)
  {
    if a == [] {
      assert a + b == b;
    } else {
      assert (a + b)[1..] == a[1..] + b;
      SumAppend(a[1..], b, f);
    }
  }

  /** Extending a prefix by one element adds that element's value. */
  lemma SumPrefix<T>(s: seq<T>, k: nat, f: T -> real)
    requires k < |s|
    ensures Sum(s[..k + 1], f) == Sum(s[..k], f) + f(s[k])
  {
    assert s[..k + 1] == s[..k] + [s[k]];
    SumAppend(s[..k], [s[k]], f);
  }

  /** Two disjoint filters together keep as many elements as the filter by their union `pq`. */
  lemma {:induction false} FilterCountSplit<T>(s: seq<T>, p: T -> bool, q: T -> bool, pq: T -> bool)
    requires forall x :: pq(x) == (p(x) || q(x))
    requires forall x :: !(p(x) && q(x))
    ensures |Filter(s, pq)| == |Filter(s, p)| + |Filter(s, q)|
  {
    if s != [] {
      FilterCountSplit(s[1..], p, q, pq);
    }
  }

  /** Keeping some elements, in order, keeps them in strictly increasing `rank` if they were. */
  lemma {:induction false} SubsequenceRanked<T>(r: seq<T>, s: seq<T>, rank: T -> int)
    requires IsSubsequence(r, s)
    requires forall i, j :: 0 <= i < j < |s| ==> rank(s[i]) < rank(s[j])
    ensures forall i, j :: 0 <= i < j < |r| ==> rank(r[i]) < rank(r[j])
    ensures forall i :: 0 <= i < |r| ==> r[i] in s
    decreases |s|
  {
    if r != [] {
      assert forall i, j :: 0 <= i < j < |s[1..]| ==> s[1..][i] == s[i + 1] && s[1..][j] == s[j + 1];
      if r[0] == s[0] && IsSubsequence(r[1..], s[1..]) {
        SubsequenceRanked(r[1..], s[1..], rank);
        forall j | 0 < j < |r| ensures rank(r[0]) < rank(r[j]) {
          assert r[j] == r[1..][j - 1];
          var m :| 0 <= m < |s[1..]| && s[1..][m] == r[j];
        }
        forall i | 0 < i < |r| ensures r[i] in s {
          assert r[i] == r[1..][i - 1];
        }
      } else {
        SubsequenceRanked(r, s[1..], rank);
      }
    }
  }

  /** Over exact reals the sum does not depend on the order of the elements. */
  lemma {:induction false} SumPermutation<T>(a: seq<T>, b: seq<T>, f: T -> real)
    requires multiset(a) == multiset(b)
    ensures Sum(a, f) == Sum(b, f)
  {
    if a == [] {
      assert |b| == |multiset(b)| == 0;
    } else {
      var x := a[0];
      var k := PermutationHead(a, b);
      var rest := b[..k] + b[k + 1..];
      assert b == b[..k] + [x] + b[k + 1..];
      assert b == b[..k] + ([x] + b[k + 1..]);
      assert a == [x] + a[1..];
      SumPermutation(a[1..], rest, f);
      SumAppend(b[..k], [x] + b[k + 1..], f);
      SumAppend(b[..k], b[k + 1..], f);
    }
  }

  /** The sum of four elements, written out. */
  lemma SumFour<T>(s: seq<T>, f: T -> real)
    requires |s| == 4
    ensures Sum(s, f) == f(s[0]) + f(s[1]) + f(s[2]) + f(s[3])
  {
    var s1 := s[1..];
    var s2 := s1[1..];
    var s3 := s2[1..];
    assert s1[0] == s[1] && s2[0] == s[2] && s3[0] == s[3];
    assert Sum(s3[1..], f) == 0.0;
    assert Sum(s3, f) == f(s[3]);
    assert Sum(s2, f) == f(s[2]) + f(s[3]);
    assert Sum(s1, f) == f(s[1]) + f(s[2]) + f(s[3]);
  }

  /** Dropping elements on which `f` is zero does not change the sum. */
  lemma {:induction false} SumFilterZero<T>(s: seq<T>, p: T -> bool, f: T -> real)
    requires forall x :: x in s && !p(x) ==> f(x) == 0.0
    ensures Sum(Filter(s, p), f) == Sum(s, f)
  {
    if s != [] {
      SumFilterZero(s[1..], p, f);
    }
  }

  /** The sum of a non-negative `f` over the elements passing `p` is at most the sum over all. */
  lemma {:induction false} SumFilterLe<T>(s: seq<T>, p: T -> bool, f: T -> real)
    requires forall x :: x in s ==> f(x) >= 0.0
    ensures Sum(Filter(s, p), f) <= Sum(s, f)
  {
    if s != [] {
      SumFilterLe(s[1..], p, f);
    }
  }

  /** Splitting by a predicate and its negation splits the sum. */
  lemma {:induction false} SumSplit<T>(s: seq<T>, p: T -> bool, q: T -> bool, f: T -> real)
    requires forall x :: q(x) == !p(x)
    ensures Sum(s, f) == Sum(Filter(s, p), f) + Sum(Filter(s, q), f)
  {
    if s != [] {
      SumSplit(s[1..], p, q, f);
    }
  }

  /** Functions that agree on the elements have the same sum. */
  lemma {:induction false} SumCongruence<T>(s: seq<T>, f: T -> real, g: T -> real)
    requires forall i :: 0 <= i < |s| ==> f(s[i]) == g(s[i])
    ensures Sum(s, f) == Sum(s, g)
  {
    if s != [] {
      SumCongruence(s[1..], f, g);
    }
  }

  /** The constant 1, whose sum counts. */
  function One<T>(x: T): real { 1.0 }

  lemma {:induction false} SumOne<T>(s: seq<T>)
    ensures Sum(s, One) == |s| as real
  {
    if s != [] {
      SumOne(s[1..]);
    }
  }

  /** Swift's `map`. */
  function Map<A, B>(s: seq<A>, g: A -> B): (r: seq<B>)
    ensures |r| == |s|
    ensures forall i :: 0 <= i < |s| ==> r[i] == g(s[i])
  {
    if s == [] then [] else [g(s[0])] + Map(s[1..], g)
  }

  lemma {:induction false} MapAppend<A, B>(a: seq<A>, b: seq<A>, g: A -> B)
    ensures Map(a + b, g) == Map(a, g) + Map(b, g)
  {
    if a == [] {
      assert a + b == b;
    } else {
      assert (a + b)[1..] == a[1..] + b;
      MapAppend(a[1..], b, g);
    }
  }

  /** Summing `h` over the images of `g` is summing `h` after `g`. */
  lemma {:induction false} SumMap<A, B>(s: seq<A>, g: A -> B, h: B -> real, f: A -> real)
    requires forall i :: 0 <= i < |s| ==> h(g(s[i])) == f(s[i])
    ensures Sum(Map(s, g), h) == Sum(s, f)
  {
    if s != [] {
      SumMap(s[1..], g, h, f);
      assert Map(s, g)[1..] == Map(s[1..], g);
    }
  }

  /** Mapping commutes with reordering. */
  lemma {:induction false} MapPermutation<A, B>(a: seq<A>, b: seq<A>, g: A -> B)
    requires multiset(a) == multiset(b)
    ensures multiset(Map(a, g)) == multiset(Map(b, g))
  {
    if a == [] {
      assert |b| == |multiset(b)| == 0;
    } else {
      var x := a[0];
      var k := PermutationHead(a, b);
      var rest := b[..k] + b[k + 1..];
      assert b == b[..k] + [x] + b[k + 1..];
      assert b == b[..k] + ([x] + b[k + 1..]);
      assert a == [x] + a[1..];
      MapPermutation(a[1..], rest, g);
      MapAppend(b[..k], [x] + b[k + 1..], g);
      MapAppend(b[..k], b[k + 1..], g);
    }
  }

  /** No element occurs twice. */
  predicate Distinct<T(==)>(s: seq<T>) {
    forall i, j :: 0 <= i < j < |s| ==> s[i] != s[j]
  }

  /** No two elements share a key. */
  predicate DistinctBy<T, K(==)>(s: seq<T>, key: T -> K) {
    forall i, j :: 0 <= i < j < |s| ==> key(s[i]) != key(s[j])
  }

  /** A prefix of a list with distinct keys has distinct keys. */
  lemma DistinctByPrefix<T, K>(s: seq<T>, n: nat, key: T -> K)
    requires n <= |s| && DistinctBy(s, key)
    ensures DistinctBy(s[..n], key)
  {
    assert forall i :: 0 <= i < n ==> s[..n][i] == s[i];
  }

  /** `le` is a total preorder: what Swift's `sorted(by:)` expects of its argument. */
  ghost predicate TotalPreorder<T(!new)>(le: (T, T) -> bool) {
    && (forall a, b :: le(a, b) || le(b, a))
    && (forall a, b, c :: le(a, b) && le(b, c) ==> le(a, c))
  }

  /** Every element is `le` every later one. */
  predicate SortedBy<T>(s: seq<T>, le: (T, T) -> bool) {
    forall i, j :: 0 <= i < j < |s| ==> le(s[i], s[j])
  }

  /** A prefix of a sorted list is sorted. */
  lemma SortedByPrefix<T>(s: seq<T>, n: nat, le: (T, T) -> bool)
    requires n <= |s| && SortedBy(s, le)
    ensures SortedBy(s[..n], le)
  {
    assert forall i :: 0 <= i < n ==> s[..n][i] == s[i];
  }

  /** Puts `x` in front of the first element it is `le`, so equal elements keep their order. */
  function Insert<T(==, !new)>(x: T, s: seq<T>, le: (T, T) -> bool): (r: seq<T>)
    requires TotalPreorder(le)
    requires SortedBy(s, le)
    ensures SortedBy(r, le)
    ensures multiset(r) == multiset(s) + multiset{x}
  {
    if s == [] then [x]
    else if le(x, s[0]) then [x] + s
    else
      var tail := Insert(x, s[1..], le);
      assert forall j :: 0 <= j < |tail| ==> le(s[0], tail[j]) by {
        forall j | 0 <= j < |tail| ensures le(s[0], tail[j]) {
          assert tail[j] in multiset(tail);
          if tail[j] != x {
            assert tail[j] in s[1..];
            var m :| 0 <= m < |s[1..]| && s[1..][m] == tail[j];
            assert s[m + 1] == tail[j];
          }
        }
      }
      assert s == [s[0]] + s[1..];
      [s[0]] + tail
  }

  /** Swift's `sorted(by:)`, realised as a stable insertion sort. */
  function Sort<T(==, !new)>(s: seq<T>, le: (T, T) -> bool): (r: seq<T>)
    requires TotalPreorder(le)
    ensures SortedBy(r, le)
    ensures multiset(r) == multiset(s)
    ensures |r| == |s|
  {
    if s == [] then []
    else
      var r := Insert(s[0], Sort(s[1..], le), le);
      assert s == [s[0]] + s[1..];
      assert |r| == |multiset(r)|;
      r
  }

  /** Sorting keeps exactly the same elements. */
  lemma SortSameElements<T(!new)>(s: seq<T>, le: (T, T) -> bool)
    requires TotalPreorder(le)
    ensures forall x :: x in Sort(s, le) <==> x in s
  {
    var r := Sort(s, le);
    forall x ensures x in r <==> x in s {
      assert x in r <==> x in multiset(r);
      assert x in s <==> x in multiset(s);
    }
  }

  lemma {:induction false} InsertDistinctBy<T(!new), K>(x: T, s: seq<T>, le: (T, T) -> bool, key: T -> K)
    requires TotalPreorder(le) && SortedBy(s, le)
    requires DistinctBy(s, key)
    requires forall y :: y in s ==> key(y) != key(x)
    ensures DistinctBy(Insert(x, s, le), key)
  {
    if s != [] && !le(x, s[0]) {
      InsertDistinctBy(x, s[1..], le, key);
      var tail := Insert(x, s[1..], le);
      forall y | y in tail ensures key(y) != key(s[0]) {
        assert y in multiset(tail);
      }
    }
  }

  /** Sorting keeps keys distinct. */
  lemma {:induction false} SortDistinctBy<T(!new), K>(s: seq<T>, le: (T, T) -> bool, key: T -> K)
    requires TotalPreorder(le)
    requires DistinctBy(s, key)
    ensures DistinctBy(Sort(s, le), key)
  {
    if s != [] {
      SortDistinctBy(s[1..], le, key);
      var sorted := Sort(s[1..], le);
      forall y | y in sorted ensures key(y) != key(s[0]) {
        assert y in multiset(sorted);
        assert y in multiset(s[1..]);
      }
      InsertDistinctBy(s[0], sorted, le, key);
    }
  }
  /** The elements in the opposite order. */
  function Reverse<T>(s: seq<T>): (r: seq<T>)
    ensures |r| == |s|
    ensures forall i :: 0 <= i < |s| ==> r[i] == s[|s| - 1 - i]
  {
    if s == [] then [] else Reverse(s[1..]) + [s[0]]
  }

  lemma {:induction false} ReverseMultiset<T>(s: seq<T>)
    ensures multiset(Reverse(s)) == multiset(s)
  {
    if s != [] {
      ReverseMultiset(s[1..]);
      assert s == [s[0]] + s[1..];
    }
  }

  /** Strictly increasing in an integer key. */
  predicate IncreasingBy<T>(s: seq<T>, key: T -> int) {
    forall i, j :: 0 <= i < j < |s| ==> key(s[i]) < key(s[j])
  }

  /** Two strictly increasing orderings of the same elements start with the same element. */
  lemma IncreasingHeads<T>(a: seq<T>, b: seq<T>, key: T -> int)
    requires IncreasingBy(a, key) && IncreasingBy(b, key)
    requires multiset(a) == multiset(b) && a != []
    ensures b != [] && a[0] == b[0]
  {
    assert |a| == |multiset(a)| == |multiset(b)| == |b|;
    assert a[0] in multiset(b) && b[0] in multiset(a);
    var j :| 0 <= j < |b| && b[j] == a[0];
    var i :| 0 <= i < |a| && a[i] == b[0];
  }

  /** Taking the same first element off two permutations leaves permutations. */
  lemma TailsPermutation<T>(a: seq<T>, b: seq<T>)
    requires a != [] && b != [] && a[0] == b[0] && multiset(a) == multiset(b)
    ensures multiset(a[1..]) == multiset(b[1..])
  {
    assert a == [a[0]] + a[1..] && b == [b[0]] + b[1..];
    assert multiset(a) == multiset{a[0]} + multiset(a[1..]);
    assert multiset(b) == multiset{a[0]} + multiset(b[1..]);
    forall y ensures multiset(a[1..])[y] == multiset(b[1..])[y] {
      assert multiset(a)[y] == multiset(b)[y];
    }
  }

  /** Two orderings of the same elements, both strictly increasing in the same key, are the same list. */
  lemma {:induction false} IncreasingUnique<T>(a: seq<T>, b: seq<T>, key: T -> int)
    requires IncreasingBy(a, key) && IncreasingBy(b, key)
    requires multiset(a) == multiset(b)
    ensures a == b
    decreases |a|
  {
    if a == [] {
      assert |b| == |multiset(b)| == 0;
    } else {
      IncreasingHeads(a, b, key);
      TailsPermutation(a, b);
      assert IncreasingBy(a[1..], key) && IncreasingBy(b[1..], key);
      IncreasingUnique(a[1..], b[1..], key);
      assert a == [a[0]] + a[1..] && b == [b[0]] + b[1..];
    }
  }

  /** Reordering keeps keys distinct. */
  lemma {:induction false} DistinctByPermutation<T, K>(a: seq<T>, b: seq<T>, key: T -> K)
    requires multiset(a) == multiset(b)
    requires DistinctBy(a, key)
    ensures DistinctBy(b, key)
    decreases |a|
  {
    if a != [] {
      var k := PermutationHead(a, b);
      var rest := b[..k] + b[k + 1..];
      DistinctByPermutation(a[1..], rest, key);
      forall y | y in rest ensures key(y) != key(b[k]) {
        assert y in multiset(a[1..]);
        var m :| 0 <= m < |a[1..]| && a[1..][m] == y;
        assert a[m + 1] == y;
      }
      forall i, j | 0 <= i < j < |b| ensures key(b[i]) != key(b[j]) {
        if i == k {
          assert b[j] == rest[j - 1];
        } else if j == k {
          assert b[i] == rest[i];
        } else if j < k {
          assert b[i] == rest[i] && b[j] == rest[j];
        } else if i < k {
          assert b[i] == rest[i] && b[j] == rest[j - 1];
        } else {
          assert b[i] == rest[i - 1] && b[j] == rest[j - 1];
        }
      }
    }
  }
}
