/**
 * `DecimalField`: the text field for prices and amounts, which on every edit
 * keeps only digits and '.' and then collapses every '.' after the first.
 */
module DecimalInput {
  import opened Seqs

  /** The characters the field accepts. */
  const Accepted: string := "0123456789."

  predicate IsAccepted(c: char) { c in Accepted }

  predicate IsDot(c: char) { c == '.' }

  predicate NotDot(c: char) { c != '.' }

  predicate IsDigit(c: char) { '0' <= c <= '9' }

  /** How many decimal points the text holds. */
  function Dots(s: string): nat { |Filter(s, IsDot)| }

  /** `firstIndex(of: ".")`, or the length of the text when it holds no point. */
  function FirstDot(s: string): (i: nat)
    ensures i <= |s|
    ensures forall j :: 0 <= j < i ==> s[j] != '.'
    ensures i < |s| ==> s[i] == '.'
    ensures i == |s| <==> Dots(s) == 0
  {
    FilterLength(s, IsDot);
    if s == [] || s[0] == '.' then 0
    else
      assert Filter(s, IsDot) == Filter(s[1..], IsDot);
      1 + FirstDot(s[1..])
  }

  /** A text with no point in `[0, i)` has the first point (if any) at or after `i`. */
  lemma NoDotsBefore(s: string, i: nat)
    requires i <= |s| && forall j :: 0 <= j < i ==> s[j] != '.'
    requires i < |s| ==> s[i] == '.'
    ensures FirstDot(s) == i
  {
  }

  /**
   * The second step of the handler, on text holding several points:
   * everything before the first point, one point, and the rest without points.
   */
  function Collapse(filtered: string): (r: string)
    requires Dots(filtered) > 0
    ensures FirstDot(filtered) < |r| && r[FirstDot(filtered)] == '.'
    ensures forall j :: 0 <= j < FirstDot(filtered) ==> r[j] == filtered[j]
  {
    var i := FirstDot(filtered);
    filtered[..i] + "." + Filter(filtered[i + 1..], NotDot)
  }

  /** Collapsing leaves a single point. */
  lemma CollapseOneDot(filtered: string)
    requires Dots(filtered) > 0
    ensures Dots(Collapse(filtered)) == 1
  {
    var i := FirstDot(filtered);
    var head, rest := filtered[..i], Filter(filtered[i + 1..], NotDot);
    assert Dots(head) == 0 by {
      FilterLength(head, IsDot);
    }
    assert Dots(rest) == 0 by {
      FilterLength(rest, IsDot);
    }
    assert Dots(head + ".") == 1 by {
      FilterAppend(head, ".", IsDot);
    }
    FilterAppend(head + ".", rest, IsDot);
  }

  /** Collapsing accepted text leaves accepted text. */
  lemma CollapseAccepted(filtered: string)
    requires Dots(filtered) > 0
    requires forall j :: 0 <= j < |filtered| ==> IsAccepted(filtered[j])
    ensures var r := Collapse(filtered); forall j :: 0 <= j < |r| ==> IsAccepted(r[j])
  {
    var i := FirstDot(filtered);
    var tail := filtered[i + 1..];
    var rest := Filter(tail, NotDot);
    assert forall j :: 0 <= j < |tail| ==> tail[j] == filtered[i + 1 + j];
    FilterKeeps(tail, NotDot, IsAccepted);
    var r := Collapse(filtered);
    assert r == filtered[..i] + "." + rest;
    forall j | 0 <= j < |r| ensures IsAccepted(r[j]) {
      if j < i {
        assert r[j] == filtered[j];
      } else if i < j {
        assert r[j] == rest[j - i - 1];
      }
    }
  }

  /**
   * The `onChange` handler: the text with every character other than a digit
   * or '.' removed and, when that leaves several points, collapsed to one.
   */
  function Sanitize(newValue: string): (r: string)
    ensures forall i :: 0 <= i < |r| ==> IsAccepted(r[i])
    ensures Dots(r) == if Dots(newValue) == 0 then 0 else 1
  {
    var filtered := Filter(newValue, IsAccepted);
    FilterFilter(newValue, IsAccepted, IsDot);
    if Dots(filtered) > 1 then
      CollapseOneDot(filtered);
      CollapseAccepted(filtered);
      Collapse(filtered)
    else
      filtered
  }

  /** The text already holds only digits and at most one point. */
  predicate IsClean(s: string) {
    (forall i :: 0 <= i < |s| ==> IsAccepted(s[i])) && Dots(s) <= 1
  }

  /** Clean text is left exactly as typed, so the handler does not assign to it. */
  lemma CleanUnchanged(s: string)
    requires IsClean(s)
    ensures Sanitize(s) == s
  {
    FilterAll(s, IsAccepted);
  }

  /** Whatever was typed, the result is clean. */
  lemma SanitizedIsClean(s: string)
    ensures IsClean(Sanitize(s))
  {
  }

  /**
   * Sanitising twice is sanitising once: the handler runs again on the text
   * it assigns, and that second run leaves it as it is.
   */
  lemma SanitizeIdempotent(s: string)
    ensures Sanitize(Sanitize(s)) == Sanitize(s)
  {
    SanitizedIsClean(s);
    CleanUnchanged(Sanitize(s));
  }

  /** A text with a point at `i` is what comes before it, the point, and what comes after. */
  lemma SplitAtDot(s: string, i: nat)
    requires i < |s| && s[i] == '.'
    ensures s == s[..i] + "." + s[i + 1..]
  {
    assert s[..i] + "." + s[i + 1..] == s[..i] + [s[i]] + s[i + 1..];
  }

  /** Collapsing keeps every digit, in order. */
  lemma CollapseDigits(filtered: string)
    requires Dots(filtered) > 0
    ensures Filter(Collapse(filtered), IsDigit) == Filter(filtered, IsDigit)
  {
    var i := FirstDot(filtered);
    var head, tail := filtered[..i], filtered[i + 1..];
    var rest := Filter(tail, NotDot);
    assert Filter(head + ".", IsDigit) == Filter(head, IsDigit) by {
      FilterAppend(head, ".", IsDigit);
    }
    assert Filter(rest, IsDigit) == Filter(tail, IsDigit) by {
      FilterFilter(tail, NotDot, IsDigit);
    }
    assert Filter(head + "." + rest, IsDigit) == Filter(head, IsDigit) + Filter(tail, IsDigit) by {
      FilterAppend(head + ".", rest, IsDigit);
    }
    assert Filter(head + "." + tail, IsDigit) == Filter(head, IsDigit) + Filter(tail, IsDigit) by {
      FilterAppend(head + ".", tail, IsDigit);
    }
    SplitAtDot(filtered, i);
  }

  /** Collapsing keeps the first point where it is. */
  lemma CollapseFirstDot(filtered: string)
    requires Dots(filtered) > 0
    ensures FirstDot(Collapse(filtered)) == FirstDot(filtered)
  {
    NoDotsBefore(Collapse(filtered), FirstDot(filtered));
  }

  /** The digits typed survive, all of them and in their order. */
  lemma DigitsKept(s: string)
    ensures Filter(Sanitize(s), IsDigit) == Filter(s, IsDigit)
  {
    var filtered := Filter(s, IsAccepted);
    assert Filter(filtered, IsDigit) == Filter(s, IsDigit) by {
      FilterFilter(s, IsAccepted, IsDigit);
    }
    if Dots(filtered) > 1 {
      assert Filter(Collapse(filtered), IsDigit) == Filter(filtered, IsDigit) by {
        CollapseDigits(filtered);
      }
    }
  }

  /**
   * With several points, the first one stays where it was among the accepted
   * characters and it is the only one left.
   */
  lemma FirstDotStays(s: string)
    requires Dots(s) > 1
    ensures FirstDot(Sanitize(s)) == FirstDot(Filter(s, IsAccepted))
    ensures Dots(Sanitize(s)) == 1
  {
    var filtered := Filter(s, IsAccepted);
    FilterFilter(s, IsAccepted, IsDot);
    CollapseFirstDot(filtered);
  }
}
