/**
 * `Dictionary(grouping:by:)` followed by a `map` over the groups. Swift does
 * not specify the order in which a dictionary is enumerated; the model visits
 * keys in order of first appearance, and every fact proved about a grouping
 * holds whatever the order.
 */
module Grouping {
  import opened Seqs

  function KeyIs<T, K(==)>(key: T -> K, k: K): T -> bool {
    x => key(x) == k
  }

  function KeyIsNot<T, K(==)>(key: T -> K, k: K): T -> bool {
    x => key(x) != k
  }

  /** The group of key `k`: the elements whose key is `k`, in input order. */
  function Bucket<T(==), K(==)>(s: seq<T>, key: T -> K, k: K): (r: seq<T>)
    ensures forall i :: 0 <= i < |r| ==> key(r[i]) == k
    ensures forall i :: 0 <= i < |s| && key(s[i]) == k ==> s[i] in r
  {
    Filter(s, KeyIs(key, k))
  }

  /** The dictionary's keys: each key of an element of `s` once, in order of first appearance. */
  function Keys<T, K(==)>(s: seq<T>, key: T -> K): (ks: seq<K>)
    ensures Distinct(ks)
    ensures forall i :: 0 <= i < |s| ==> key(s[i]) in ks
    ensures forall j :: 0 <= j < |ks| ==> exists i :: 0 <= i < |s| && key(s[i]) == ks[j]
    decreases |s|
  {
    if s == [] then []
    else
      var init := s[..|s| - 1];
      var ks := Keys(init, key);
      assert forall i :: 0 <= i < |init| ==> init[i] == s[i];
      if key(s[|s| - 1]) in ks then ks else ks + [key(s[|s| - 1])]
  }

  /** No group is empty: every key comes from some element. */
  lemma BucketsNonEmpty<T, K>(s: seq<T>, key: T -> K)
    ensures forall j :: 0 <= j < |Keys(s, key)| ==> |Bucket(s, key, Keys(s, key)[j])| >= 1
  {
    var ks := Keys(s, key);
    forall j | 0 <= j < |ks| ensures |Bucket(s, key, ks[j])| >= 1 {
      var i :| 0 <= i < |s| && key(s[i]) == ks[j];
      assert s[i] in Bucket(s, key, ks[j]);
    }
  }

  /** The total of `f` within the group of a key. */
  function BucketSum<T(==), K(==)>(s: seq<T>, key: T -> K, f: T -> real): K -> real {
    k => Sum(Bucket(s, key, k), f)
  }

  /** The elements whose key is one of `ks`. */
  function KeyIn<T, K(==)>(key: T -> K, ks: seq<K>): T -> bool {
    x => key(x) in ks
  }

  /** For distinct keys, the group totals add up to the total over the elements whose key is among them. */
  lemma {:induction false} GroupTotals<T, K>(s: seq<T>, key: T -> K, ks: seq<K>, f: T -> real)
    requires Distinct(ks)
    ensures Sum(ks, BucketSum(s, key, f)) == Sum(Filter(s, KeyIn(key, ks)), f)
    decreases |ks|
  {
    if ks == [] {
      FilterNone(s, KeyIn(key, ks));
    } else {
      var k := ks[0];
      var covered := Filter(s, KeyIn(key, ks));
      GroupTotals(s, key, ks[1..], f);
      SumSplit(covered, KeyIs(key, k), KeyIsNot(key, k), f);
      FilterFilter(s, KeyIn(key, ks), KeyIs(key, k));
      assert forall x :: KeyIn(key, ks[1..])(x) == (KeyIn(key, ks)(x) && KeyIsNot(key, k)(x)) by {
        assert forall j :: 0 <= j < |ks[1..]| ==> ks[1..][j] == ks[j + 1] != k;
        assert ks == [k] + ks[1..];
      }
      FilterBoth(s, KeyIn(key, ks), KeyIsNot(key, k), KeyIn(key, ks[1..]));
    }
  }

  /** Distinct keys that cover every element partition the elements: the group totals add up to the total. */
  lemma PartitionSum<T, K>(s: seq<T>, key: T -> K, ks: seq<K>, f: T -> real)
    requires Distinct(ks)
    requires forall i :: 0 <= i < |s| ==> key(s[i]) in ks
    ensures Sum(ks, BucketSum(s, key, f)) == Sum(s, f)
  {
    GroupTotals(s, key, ks, f);
    FilterAll(s, KeyIn(key, ks));
  }

  /**
   * One entry per key: when each entry carries its group's total of `f`, the
   * entries' totals add up to the total of `f` over all elements.
   */
  lemma EntriesSum<T, K, E>(s: seq<T>, key: T -> K, entry: K -> E, h: E -> real, f: T -> real)
    requires forall k :: k in Keys(s, key) ==> h(entry(k)) == Sum(Bucket(s, key, k), f)
    ensures Sum(Map(Keys(s, key), entry), h) == Sum(s, f)
  {
    var ks := Keys(s, key);
    SumMap(ks, entry, h, BucketSum(s, key, f));
    PartitionSum(s, key, ks, f);
  }

  /** One entry per key: when each entry carries its group's size, the sizes add up to the number of elements. */
  lemma EntriesCount<T, K, E>(s: seq<T>, key: T -> K, entry: K -> E, h: E -> real)
    requires forall k :: k in Keys(s, key) ==> h(entry(k)) == |Bucket(s, key, k)| as real
    ensures Sum(Map(Keys(s, key), entry), h) == |s| as real
  {
    forall k | k in Keys(s, key) ensures h(entry(k)) == Sum(Bucket(s, key, k), One) {
      SumOne(Bucket(s, key, k));
    }
    EntriesSum(s, key, entry, h, One);
    SumOne(s);
  }
  /**
   * `Dictionary(grouping:)`, one entry per group, then `sorted(by:)`: the
   * entries of all the keys in `le` order, each found again from its key.
   */
  function SortedEntries<T, K(==, !new), E(==, !new)>(s: seq<T>, key: T -> K, entry: K -> E, keyOf: E -> K, le: (E, E) -> bool): (r: seq<E>)
    requires TotalPreorder(le)
    requires forall k :: keyOf(entry(k)) == k
    ensures |r| == |Keys(s, key)|
    ensures SortedBy(r, le) && DistinctBy(r, keyOf)
    ensures forall i :: 0 <= i < |s| ==> key(s[i]) in Map(r, keyOf)
    ensures forall j :: 0 <= j < |r| ==> r[j] == entry(keyOf(r[j])) && |Bucket(s, key, keyOf(r[j]))| >= 1
  {
    var entries := Map(Keys(s, key), entry);
    EntriesDistinct(s, key, entry, keyOf);
    EntriesCover(s, key, entry);
    EntriesOfKeys(s, key, entry, keyOf);
    SortDistinctBy(entries, le, keyOf);
    SortSameElements(entries, le);
    var r := Sort(entries, le);
    KeysOfCover(s, key, entry, keyOf, r);
    r
  }

  /** Entries that include every element's entry carry every element's key. */
  lemma KeysOfCover<T, K(!new), E>(s: seq<T>, key: T -> K, entry: K -> E, keyOf: E -> K, r: seq<E>)
    requires forall k :: keyOf(entry(k)) == k
    requires forall i :: 0 <= i < |s| ==> entry(key(s[i])) in r
    ensures forall i :: 0 <= i < |s| ==> key(s[i]) in Map(r, keyOf)
  {
    forall i | 0 <= i < |s| ensures key(s[i]) in Map(r, keyOf) {
      var j :| 0 <= j < |r| && r[j] == entry(key(s[i]));
      assert Map(r, keyOf)[j] == key(s[i]);
    }
  }

  /** Entries that carry their key have distinct keys. */
  lemma EntriesDistinct<T, K(!new), E>(s: seq<T>, key: T -> K, entry: K -> E, keyOf: E -> K)
    requires forall k :: keyOf(entry(k)) == k
    ensures DistinctBy(Map(Keys(s, key), entry), keyOf)
  {
    var ks := Keys(s, key);
    var entries := Map(ks, entry);
    assert forall j :: 0 <= j < |entries| ==> keyOf(entries[j]) == ks[j];
  }

  /** Every element's key has its entry. */
  lemma EntriesCover<T, K, E>(s: seq<T>, key: T -> K, entry: K -> E)
    ensures forall i :: 0 <= i < |s| ==> entry(key(s[i])) in Map(Keys(s, key), entry)
  {
    var ks := Keys(s, key);
    var entries := Map(ks, entry);
    forall i | 0 <= i < |s| ensures entry(key(s[i])) in entries {
      var m :| 0 <= m < |ks| && ks[m] == key(s[i]);
      assert entries[m] == entry(key(s[i]));
    }
  }

  /** Every entry is the entry of its own key, whose group is not empty. */
  lemma EntriesOfKeys<T, K(!new), E>(s: seq<T>, key: T -> K, entry: K -> E, keyOf: E -> K)
    requires forall k :: keyOf(entry(k)) == k
    ensures forall x :: x in Map(Keys(s, key), entry) ==> x == entry(keyOf(x)) && |Bucket(s, key, keyOf(x))| >= 1
  {
    BucketsNonEmpty(s, key);
  }

  /** Sorting the entries keeps their totals: they still add up to the total of `f` over all elements. */
  lemma SortedEntriesSum<T, K(!new), E(!new)>(s: seq<T>, key: T -> K, entry: K -> E, keyOf: E -> K, le: (E, E) -> bool, h: E -> real, f: T -> real)
    requires TotalPreorder(le)
    requires forall k :: keyOf(entry(k)) == k
    requires forall k :: k in Keys(s, key) ==> h(entry(k)) == Sum(Bucket(s, key, k), f)
    ensures Sum(SortedEntries(s, key, entry, keyOf, le), h) == Sum(s, f)
  {
    SumPermutation(SortedEntries(s, key, entry, keyOf, le), Map(Keys(s, key), entry), h);
    EntriesSum(s, key, entry, h, f);
  }

  /** Sorting the entries keeps their sizes: they still add up to the number of elements. */
  lemma SortedEntriesCount<T, K(!new), E(!new)>(s: seq<T>, key: T -> K, entry: K -> E, keyOf: E -> K, le: (E, E) -> bool, h: E -> real)
    requires TotalPreorder(le)
    requires forall k :: keyOf(entry(k)) == k
    requires forall k :: k in Keys(s, key) ==> h(entry(k)) == |Bucket(s, key, k)| as real
    ensures Sum(SortedEntries(s, key, entry, keyOf, le), h) == |s| as real
  {
    SumPermutation(SortedEntries(s, key, entry, keyOf, le), Map(Keys(s, key), entry), h);
    EntriesCount(s, key, entry, h);
  }
}
