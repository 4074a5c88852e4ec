/**
 * Runs of consecutive elements that satisfy a predicate: what the win-streak
 * loops count. A run is given by where it starts and how long it is.
 */
module Runs {
  import opened Seqs

  /** `s[i..i + n]` lies inside `s` and every element of it satisfies `p`. */
  predicate IsRun<T>(s: seq<T>, p: T -> bool, i: int, n: int) {
    0 <= i && 0 <= n && i + n <= |s| && forall k :: i <= k < i + n ==> p(s[k])
  }

  /** The length of the run that ends the list: it stops at the last element that fails `p`. */
  function TrailingRun<T>(s: seq<T>, p: T -> bool): (r: nat)
    ensures r <= |s|
  {
    if s == [] || !p(s[|s| - 1]) then 0
    else 1 + TrailingRun(s[..|s| - 1], p)
  }

  /** The trailing run is a run, and the element before it, if any, fails `p`. */
  lemma {:induction false} TrailingRunIsRun<T>(s: seq<T>, p: T -> bool)
    ensures IsRun(s, p, |s| - TrailingRun(s, p), TrailingRun(s, p))
    ensures TrailingRun(s, p) < |s| ==> !p(s[|s| - TrailingRun(s, p) - 1])
  {
    if s != [] && p(s[|s| - 1]) {
      var front := s[..|s| - 1];
      TrailingRunIsRun(front, p);
      assert forall k :: 0 <= k < |front| ==> front[k] == s[k];
    }
  }

  /** The length of the run that starts the list: it stops at the first element that fails `p`. */
  function LeadingRun<T>(s: seq<T>, p: T -> bool): (r: nat)
    ensures r <= |s|
  {
    if s == [] || !p(s[0]) then 0
    else 1 + LeadingRun(s[1..], p)
  }

  /** The leading run is a run, and the element after it, if any, fails `p`. */
  lemma {:induction false} LeadingRunIsRun<T>(s: seq<T>, p: T -> bool)
    ensures IsRun(s, p, 0, LeadingRun(s, p))
    ensures LeadingRun(s, p) < |s| ==> !p(s[LeadingRun(s, p)])
  {
    if s != [] && p(s[0]) {
      LeadingRunIsRun(s[1..], p);
      assert forall k :: 1 <= k < |s| ==> s[1..][k - 1] == s[k];
    }
  }

  /** The length of the longest run, built up one prefix at a time. */
  function LongestRun<T>(s: seq<T>, p: T -> bool): (r: nat)
    ensures r <= |s|
  {
    if s == [] then 0
    else
      var before := LongestRun(s[..|s| - 1], p);
      var last := TrailingRun(s, p);
      if before >= last then before else last
  }

  /** The longest run is the length of some run. */
  lemma {:induction false} LongestRunIsRun<T>(s: seq<T>, p: T -> bool)
    ensures exists i :: IsRun(s, p, i, LongestRun(s, p))
  {
    if s == [] {
      assert IsRun(s, p, 0, LongestRun(s, p));
    } else {
      var front := s[..|s| - 1];
      TrailingRunIsRun(s, p);
      if LongestRun(front, p) >= TrailingRun(s, p) {
        LongestRunIsRun(front, p);
        var i :| IsRun(front, p, i, LongestRun(front, p));
        assert forall k :: 0 <= k < |front| ==> front[k] == s[k];
        assert IsRun(s, p, i, LongestRun(s, p));
      } else {
        assert IsRun(s, p, |s| - TrailingRun(s, p), LongestRun(s, p));
      }
    }
  }

  /** A run that reaches the end of the list is no longer than the trailing run. */
  lemma {:induction false} RunAtEnd<T>(s: seq<T>, p: T -> bool, i: int, n: int)
    requires IsRun(s, p, i, n) && i + n == |s|
    ensures n <= TrailingRun(s, p)
  {
    if n > 0 {
      var front := s[..|s| - 1];
      assert p(s[|s| - 1]);
      assert forall k :: 0 <= k < |front| ==> front[k] == s[k];
      RunAtEnd(front, p, i, n - 1);
    }
  }

  /** The longest run is at least as long as every run. */
  lemma {:induction false} LongestRunIsLongest<T>(s: seq<T>, p: T -> bool, i: int, n: int)
    requires IsRun(s, p, i, n)
    ensures n <= LongestRun(s, p)
    decreases |s|
  {
    if i + n == |s| {
      RunAtEnd(s, p, i, n);
    } else {
      var front := s[..|s| - 1];
      assert forall k :: 0 <= k < |front| ==> front[k] == s[k];
      assert IsRun(front, p, i, n);
      LongestRunIsLongest(front, p, i, n);
    }
  }

  /** `LongestRun` is the length of a run, and of the longest one. */
  lemma LongestRunIsLongestOfAll<T>(s: seq<T>, p: T -> bool)
    ensures exists i :: IsRun(s, p, i, LongestRun(s, p))
    ensures forall i, n :: IsRun(s, p, i, n) ==> n <= LongestRun(s, p)
  {
    LongestRunIsRun(s, p);
    forall i, n | IsRun(s, p, i, n) ensures n <= LongestRun(s, p) {
      LongestRunIsLongest(s, p, i, n);
    }
  }

  /** No run longer than the list fits, and the longest run is empty exactly when no element satisfies `p`. */
  lemma LongestRunBounds<T>(s: seq<T>, p: T -> bool)
    ensures LongestRun(s, p) <= |s|
    ensures LongestRun(s, p) == 0 <==> forall k :: 0 <= k < |s| ==> !p(s[k])
  {
    var r := LongestRun(s, p);
    LongestRunIsRun(s, p);
    var i :| IsRun(s, p, i, r);
    if r > 0 {
      assert p(s[i]);
    }
    forall k | 0 <= k < |s| && p(s[k]) ensures r >= 1 {
      assert IsRun(s, p, k, 1);
      LongestRunIsLongest(s, p, k, 1);
    }
  }

  /** The leading run counts only elements that satisfy `p`, so no more than all of them. */
  lemma {:induction false} LeadingRunAtMostCount<T>(s: seq<T>, p: T -> bool)
    ensures LeadingRun(s, p) <= |Filter(s, p)|
  {
    if s != [] && p(s[0]) {
      LeadingRunAtMostCount(s[1..], p);
    }
  }

  /** Read backwards, the run that starts a list is the run that ends it. */
  lemma LeadingIsTrailingReversed<T>(s: seq<T>, p: T -> bool)
    ensures LeadingRun(s, p) == TrailingRun(Reverse(s), p)
  {
  }

  /** The leading run is the only run from the start that stops at a failing element or at the end. */
  lemma {:induction false} LeadingRunUnique<T>(s: seq<T>, p: T -> bool, n: int)
    requires IsRun(s, p, 0, n) && (n < |s| ==> !p(s[n]))
    ensures n == LeadingRun(s, p)
  {
    if n > 0 {
      assert p(s[0]);
      assert forall k :: 1 <= k < |s| ==> s[1..][k - 1] == s[k];
      LeadingRunUnique(s[1..], p, n - 1);
    }
  }
}
