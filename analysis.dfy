/**
 * The Performance screen's monthly grouping (`AnalysisSection.swift`):
 * trades bucketed by their month label, each month's total P/L, and the
 * months listed in the order Swift's `<` puts their labels.
 */
module Analysis {
  import opened Seqs
  import opened Trades
  import opened Grouping
  import TradeAnalytics

  // ---------------------------------------------------------------------
  // Swift's `<` on month labels: lexicographic order of the characters.

  /** `a` sorts no later than `b`, character by character, a prefix first. */
  predicate TextLe(a: string, b: string) {
    if a == [] then true
    else if b == [] then false
    else if a[0] != b[0] then a[0] < b[0]
    else TextLe(a[1..], b[1..])
  }

  lemma {:induction false} TextLeTotal(a: string, b: string)
    ensures TextLe(a, b) || TextLe(b, a)
  {
    if a != [] && b != [] && a[0] == b[0] {
      TextLeTotal(a[1..], b[1..]);
    }
  }

  lemma {:induction false} TextLeTransitive(a: string, b: string, c: string)
    requires TextLe(a, b) && TextLe(b, c)
    ensures TextLe(a, c)
  {
    if a != [] && b != [] && c != [] && a[0] == b[0] && b[0] == c[0] {
      TextLeTransitive(a[1..], b[1..], c[1..]);
    }
  }

  lemma {:induction false} TextLeAntisymmetric(a: string, b: string)
    requires TextLe(a, b) && TextLe(b, a)
    ensures a == b
  {
    if a != [] && b != [] {
      TextLeAntisymmetric(a[1..], b[1..]);
      assert a == [a[0]] + a[1..] && b == [b[0]] + b[1..];
    }
  }

  // ---------------------------------------------------------------------
  // groupTradesByMonth

  /** One bar of the monthly chart: a "MMM yyyy" label and the month's total profit/loss. */
  datatype MonthlyData = MonthlyData(month: string, total: real)

  function MonthOf(m: MonthlyData): string { m.month }

  function TotalOf(m: MonthlyData): real { m.total }

  /** A trade's month label, as the date formatter with format "MMM yyyy" renders its date. */
  function MonthKey(monthLabel: Timestamp -> string): Trade -> string {
    (t: Trade) => monthLabel(t.date)
  }

  /** A label's bar: the label and the total of `f` over the elements that carry it. */
  function LabelRow<T(==)>(s: seq<T>, labelOf: T -> string, f: T -> real): string -> MonthlyData {
    (month: string) => MonthlyData(month, Reduce(0.0, Bucket(s, labelOf, month), f))
  }

  predicate MonthLe(a: MonthlyData, b: MonthlyData) { TextLe(a.month, b.month) }

  lemma MonthLeTotalPreorder()
    ensures TotalPreorder(MonthLe)
  {
    forall a: MonthlyData, b: MonthlyData ensures MonthLe(a, b) || MonthLe(b, a) {
      TextLeTotal(a.month, b.month);
    }
    forall a: MonthlyData, b: MonthlyData, c: MonthlyData | MonthLe(a, b) && MonthLe(b, c) ensures MonthLe(a, c) {
      TextLeTransitive(a.month, b.month, c.month);
    }
  }

  /** Totals of `f` per label, one bar per label, in ascending order of the label text. */
  function LabelTotals<T(==)>(s: seq<T>, labelOf: T -> string, f: T -> real): (r: seq<MonthlyData>)
    ensures |r| == |Keys(s, labelOf)|
    ensures forall i, j :: 0 <= i < j < |r| ==> TextLe(r[i].month, r[j].month) && r[i].month != r[j].month
    ensures forall i :: 0 <= i < |s| ==> labelOf(s[i]) in Map(r, MonthOf)
  {
    MonthLeTotalPreorder();
    SortedEntries(s, labelOf, LabelRow(s, labelOf, f), MonthOf, MonthLe)
  }

  /** Each bar stands for at least one element and holds the total of `f` over the elements with its label. */
  lemma LabelTotalsBars<T>(s: seq<T>, labelOf: T -> string, f: T -> real)
    ensures var r := LabelTotals(s, labelOf, f);
            forall j :: 0 <= j < |r| ==>
              && |Bucket(s, labelOf, r[j].month)| >= 1
              && r[j].total == Sum(Bucket(s, labelOf, r[j].month), f)
  {
    MonthLeTotalPreorder();
    var r := SortedEntries(s, labelOf, LabelRow(s, labelOf, f), MonthOf, MonthLe);
    forall j | 0 <= j < |r|
      ensures |Bucket(s, labelOf, r[j].month)| >= 1 && r[j].total == Sum(Bucket(s, labelOf, r[j].month), f)
    {
      assert r[j] == LabelRow(s, labelOf, f)(r[j].month);
    }
  }

  /** The bars' totals add up to the total of `f` over all the elements. */
  lemma LabelTotalsSum<T>(s: seq<T>, labelOf: T -> string, f: T -> real)
    ensures Sum(LabelTotals(s, labelOf, f), TotalOf) == Sum(s, f)
  {
    MonthLeTotalPreorder();
    SortedEntriesSum(s, labelOf, LabelRow(s, labelOf, f), MonthOf, MonthLe, TotalOf, f);
  }

  /**
   * `groupTradesByMonth`: one bar per month label among the trades, no label
   * twice, each holding the total of that month's trades, in ascending order of
   * the label text.
   */
  function GroupTradesByMonth(trades: seq<Trade>, monthLabel: Timestamp -> string): (r: seq<MonthlyData>)
    ensures |r| == |Keys(trades, MonthKey(monthLabel))|
    ensures forall i, j :: 0 <= i < j < |r| ==> TextLe(r[i].month, r[j].month) && r[i].month != r[j].month
    ensures forall i :: 0 <= i < |trades| ==> monthLabel(trades[i].date) in Map(r, MonthOf)
    ensures forall j :: 0 <= j < |r| ==>
              && |Bucket(trades, MonthKey(monthLabel), r[j].month)| >= 1
              && r[j].total == Sum(Bucket(trades, MonthKey(monthLabel), r[j].month), ProfitLoss)
  {
    LabelTotalsBars(trades, MonthKey(monthLabel), ProfitLoss);
    LabelTotals(trades, MonthKey(monthLabel), ProfitLoss)
  }

  /** The bars' totals add up to the total profit/loss of all the trades. */
  lemma MonthTotalsSum(trades: seq<Trade>, monthLabel: Timestamp -> string)
    ensures Sum(GroupTradesByMonth(trades, monthLabel), TotalOf) == TradeAnalytics.TotalProfitLoss(trades)
  {
    LabelTotalsSum(trades, MonthKey(monthLabel), ProfitLoss);
  }

  /** Two elements with two different labels: their labels, in order of appearance. */
  lemma TwoLabels<T>(s: seq<T>, labelOf: T -> string, a: string, b: string)
    requires |s| == 2 && labelOf(s[0]) == a && labelOf(s[1]) == b && a != b
    ensures Keys(s, labelOf) == [a, b]
  {
    var first := s[..1];
    assert first[..0] == [];
    assert Keys(first, labelOf) == [a];
  }

  /** Two elements whose labels `a` and `b` sort in the other order: the bar of `b` comes first. */
  lemma TwoBarsOrdered<T>(s: seq<T>, labelOf: T -> string, f: T -> real, a: string, b: string)
    requires |s| == 2 && labelOf(s[0]) == a && labelOf(s[1]) == b && a != b && !TextLe(a, b)
    ensures Map(LabelTotals(s, labelOf, f), MonthOf) == [b, a]
  {
    var r := LabelTotals(s, labelOf, f);
    TwoLabels(s, labelOf, a, b);
    var months := Map(r, MonthOf);
    assert a in months && b in months;
    assert months[0] == r[0].month && months[1] == r[1].month;
    assert months == [b, a] by {
      assert months[0] == b && months[1] == a;
    }
  }

  /**
   * The bars are in the order of the label text, not of the calendar: a
   * February bar comes before a January bar of the same year.
   */
  lemma MonthOrderIsTextual(jan: Trade, feb: Trade, monthLabel: Timestamp -> string)
    requires monthLabel(jan.date) == "Jan 2025" && monthLabel(feb.date) == "Feb 2025"
    ensures Map(GroupTradesByMonth([jan, feb], monthLabel), MonthOf) == ["Feb 2025", "Jan 2025"]
  {
    assert !TextLe("Jan 2025", "Feb 2025");
    TwoBarsOrdered([jan, feb], MonthKey(monthLabel), ProfitLoss, "Jan 2025", "Feb 2025");
  }
}
