/** Arithmetic shared by the statistics: Swift's `abs`, `max`, `min`, `round`, and the two ratios every view recomputes. */
module Numbers {
  import opened Wrappers
  import opened Seqs

  function Abs(x: real): (r: real)
    ensures r >= 0.0
    ensures r == x || r == -x
  {
    if x < 0.0 then -x else x
  }

  function Max(a: real, b: real): (r: real)
    ensures r >= a && r >= b
    ensures r == a || r == b
  {
    if a >= b then a else b
  }

  function Min(a: real, b: real): (r: real)
    ensures r <= a && r <= b
    ensures r == a || r == b
  {
    if a <= b then a else b
  }

  /** Swift's `max(by:)` on the values of `f`: the largest value, or none for no elements. */
  function MaxOf<T>(s: seq<T>, f: T -> real): (r: Option<real>)
    ensures r.None? <==> s == []
    ensures r.Some? ==> forall i :: 0 <= i < |s| ==> f(s[i]) <= r.value
    ensures r.Some? ==> exists i :: 0 <= i < |s| && f(s[i]) == r.value
  {
    if s == [] then None
    else
      var rest := MaxOf(s[1..], f);
      assert forall i :: 1 <= i < |s| ==> s[i] == s[1..][i - 1];
      if rest.None? || rest.value <= f(s[0]) then Some(f(s[0]))
      else
        assert exists i :: 0 <= i < |s| && f(s[i]) == rest.value by {
          var j :| 0 <= j < |s[1..]| && f(s[1..][j]) == rest.value;
          assert s[j + 1] == s[1..][j];
        }
        rest
  }

  /** Swift's `min(by:)` on the values of `f`: the smallest value, or none for no elements. */
  function MinOf<T>(s: seq<T>, f: T -> real): (r: Option<real>)
    ensures r.None? <==> s == []
    ensures r.Some? ==> forall i :: 0 <= i < |s| ==> r.value <= f(s[i])
    ensures r.Some? ==> exists i :: 0 <= i < |s| && f(s[i]) == r.value
  {
    if s == [] then None
    else
      var rest := MinOf(s[1..], f);
      assert forall i :: 1 <= i < |s| ==> s[i] == s[1..][i - 1];
      if rest.None? || f(s[0]) <= rest.value then Some(f(s[0]))
      else
        assert exists i :: 0 <= i < |s| && f(s[i]) == rest.value by {
          var j :| 0 <= j < |s[1..]| && f(s[1..][j]) == rest.value;
          assert s[j + 1] == s[1..][j];
        }
        rest
  }

  /** A non-negative total shared among more elements gives each less. */
  lemma MeanFewerLarger(total: real, k: nat, n: nat)
    requires total >= 0.0 && 0 < k <= n
    ensures total / (n as real) <= total / (k as real)
  {
    var a := total / (n as real);
    var b := total / (k as real);
    assert a * (n as real) == total;
    assert b * (k as real) == total;
    assert a * (k as real) <= a * (n as real);
  }

  /**
   * `Double(part) / Double(whole) * 100` behind the `isEmpty ? 0 :` guard: a
   * percentage, which is a proportion when `part` counts some of `whole`.
   */
  function Percent(part: nat, whole: nat): (r: real)
    ensures whole == 0 ==> r == 0.0
    ensures part <= whole ==> 0.0 <= r <= 100.0
    ensures 0 < whole && part <= whole ==> (r == 100.0 <==> part == whole)
    ensures 0 < whole ==> (r == 0.0 <==> part == 0)
  {
    if whole == 0 then 0.0 else (part as real) / (whole as real) * 100.0
  }

  /** `total / Double(count)` behind the `isEmpty ? 0 :` guard, with the sign of the total. */
  function Mean(total: real, count: nat): (r: real)
    ensures count == 0 ==> r == 0.0
    ensures count > 0 ==> r == total / (count as real)
    ensures total >= 0.0 ==> r >= 0.0
    ensures total <= 0.0 ==> r <= 0.0
  {
    if count == 0 then 0.0 else total / (count as real)
  }

  /** The average over the elements with a positive value is never negative, and positive exactly when there is one. */
  lemma AveragePositivePart<T>(s: seq<T>, f: T -> real, p: T -> bool)
    requires forall x :: p(x) <==> f(x) > 0.0
    ensures Average(Filter(s, p), f) >= 0.0
    ensures Average(Filter(s, p), f) > 0.0 <==> exists i :: 0 <= i < |s| && p(s[i])
  {
    FilterLength(s, p);
    var kept := Filter(s, p);
    if kept != [] {
      var t := Sum(kept, f);
      assert t > 0.0;
      assert Average(kept, f) == t / (|kept| as real);
      PositiveQuotient(t, |kept| as real);
    }
  }

  lemma PositiveQuotient(a: real, b: real)
    requires a > 0.0 && b > 0.0
    ensures a / b > 0.0
  {}

  /** `den == 0 ? 0 : num / den`: the guarded quotient, 0 only for a zero dividend or divisor. */
  function Ratio(num: real, den: real): (r: real)
    ensures den == 0.0 ==> r == 0.0
    ensures den != 0.0 ==> r == num / den
    ensures den != 0.0 ==> (r == 0.0 <==> num == 0.0)
    ensures num >= 0.0 && den >= 0.0 ==> r >= 0.0
  {
    if den == 0.0 then 0.0 else num / den
  }

  /** Swift's `round`: to the nearest integer, halfway cases away from zero. */
  function Round(x: real): (r: int)
    ensures (r as real) - 0.5 <= x <= (r as real) + 0.5
    ensures x >= 0.0 ==> r >= 0
    ensures x - (r as real) == 0.5 ==> x < 0.0
    ensures (r as real) - x == 0.5 ==> x > 0.0
  {
    if x >= 0.0 then (x + 0.5).Floor else -((-x + 0.5).Floor)
  }

  /** `s.isEmpty ? 0 : s.reduce(0) { $0 + f($1) } / Double(s.count)`: the mean of `f` over `s`, 0 for no elements. */
  function Average<T>(s: seq<T>, f: T -> real): (r: real)
    ensures s == [] ==> r == 0.0
    ensures s != [] ==> r == Sum(s, f) / (|s| as real)
    ensures (forall i :: 0 <= i < |s| ==> f(s[i]) >= 0.0) ==> r >= 0.0
  {
    SumSigns(s, f);
    if s == [] then 0.0 else Mean(Reduce(0.0, s, f), |s|)
  }
}
