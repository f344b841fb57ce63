/**
 * `sort_counts.main` (bundestags_scraper/utils/sort_counts.py): the heading
 * counts rebuilt as a dictionary ordered by descending count,
 * `dict(sorted(counts.items(), key=lambda kv: kv[1], reverse=True))`.
 *
 * Python's sort is stable, and `reverse=True` keeps equal elements in their
 * original order, so the model is an insertion sort that puts each item after
 * every earlier item with a count at least as large.
 */
module SortCounts {
  import Counts

  type Pair = (string, nat)

  /** `x` placed after the leading items whose count is at least `x`'s. */
  function Insert(x: Pair, s: seq<Pair>): seq<Pair> {
    if s == [] then [x]
    else if s[0].1 >= x.1 then [s[0]] + Insert(x, s[1..])
    else [x] + s
  }

  /** `sorted(items, key=lambda kv: kv[1], reverse=True)` */
  function SortDesc(s: seq<Pair>): seq<Pair> {
    if s == [] then [] else Insert(s[|s| - 1], SortDesc(s[..|s| - 1]))
  }

  /** The items rewritten to the file: `dict(...)` of the sorted items, in that order. */
  function SortedCounts(d: Counts.Dict<string>): seq<Pair> {
    SortDesc(Counts.Items(d))
  }

  ghost predicate NonIncreasing(s: seq<Pair>) {
    forall i, j :: 0 <= i < j < |s| ==> s[i].1 >= s[j].1
  }

  ghost predicate DistinctKeys(s: seq<Pair>) {
    forall i, j :: 0 <= i < j < |s| ==> s[i].0 != s[j].0
  }

  /** The items of `s` whose count is `v`, in order. */
  function WithCount(s: seq<Pair>, v: nat): seq<Pair> {
    if s == [] then [] else (if s[0].1 == v then [s[0]] else []) + WithCount(s[1..], v)
  }

  // ----- Insert -------------------------------------------------------------------

  lemma {:induction false} InsertPermutes(x: Pair, s: seq<Pair>)
    ensures multiset(Insert(x, s)) == multiset(s) + multiset{x}
  {
    if s != [] && s[0].1 >= x.1 {
      InsertPermutes(x, s[1..]);
      assert s == [s[0]] + s[1..];
    }
  }

  lemma InsertMembers(x: Pair, s: seq<Pair>, y: Pair)
    ensures y in Insert(x, s) <==> y == x || y in s
  {
    InsertPermutes(x, s);
    assert y in Insert(x, s) <==> y in multiset(Insert(x, s));
    assert y in s <==> y in multiset(s);
  }

  lemma SortedTail(s: seq<Pair>)
    requires s != [] && NonIncreasing(s)
    ensures NonIncreasing(s[1..]) && forall k :: 0 <= k < |s[1..]| ==> s[0].1 >= s[1..][k].1
  {
    var t := s[1..];
    forall i, j | 0 <= i < j < |t| ensures t[i].1 >= t[j].1 {
      assert t[i] == s[i + 1] && t[j] == s[j + 1];
    }
    forall k | 0 <= k < |t| ensures s[0].1 >= t[k].1 {
      assert t[k] == s[k + 1];
    }
  }

  lemma SortedCons(h: Pair, t: seq<Pair>)
    requires NonIncreasing(t) && forall k :: 0 <= k < |t| ==> h.1 >= t[k].1
    ensures NonIncreasing([h] + t)
  {
    var s := [h] + t;
    forall i, j | 0 <= i < j < |s| ensures s[i].1 >= s[j].1 {
      assert s[j] == t[j - 1];
      if i > 0 {
        assert s[i] == t[i - 1];
      }
    }
  }

  lemma {:induction false} InsertSorted(x: Pair, s: seq<Pair>)
    requires NonIncreasing(s)
    ensures NonIncreasing(Insert(x, s))
  {
    if s != [] {
      SortedTail(s);
      var t := s[1..];
      if s[0].1 >= x.1 {
        InsertSorted(x, t);
        var r := Insert(x, t);
        forall k | 0 <= k < |r| ensures s[0].1 >= r[k].1 {
          InsertMembers(x, t, r[k]);
          if r[k] != x {
            var m :| 0 <= m < |t| && t[m] == r[k];
          }
        }
        SortedCons(s[0], r);
      } else {
        assert s == [s[0]] + t;
        SortedCons(x, s);
      }
    }
  }

  /** An item with a count no larger than any already there goes last. */
  lemma {:induction false} InsertLast(x: Pair, s: seq<Pair>)
    requires forall k :: 0 <= k < |s| ==> s[k].1 >= x.1
    ensures Insert(x, s) == s + [x]
  {
    if s != [] {
      InsertLast(x, s[1..]);
      assert s == [s[0]] + s[1..];
    }
  }

  lemma {:induction false} WithCountConcat(a: seq<Pair>, b: seq<Pair>, v: nat)
    ensures WithCount(a + b, v) == WithCount(a, v) + WithCount(b, v)
  {
    if a == [] {
      assert a + b == b;
    } else {
      assert (a + b)[0] == a[0];
      assert (a + b)[1..] == a[1..] + b;
      WithCountConcat(a[1..], b, v);
    }
  }

  lemma {:induction false} WithCountNone(s: seq<Pair>, v: nat)
    requires forall k :: 0 <= k < |s| ==> s[k].1 < v
    ensures WithCount(s, v) == []
  {
    if s != [] {
      WithCountNone(s[1..], v);
    }
  }

  /** Inserting into a sorted list keeps the earlier items of `x`'s count before `x`. */
  lemma {:induction false} InsertStable(x: Pair, s: seq<Pair>, v: nat)
    requires NonIncreasing(s)
    ensures WithCount(Insert(x, s), v) == WithCount(s, v) + (if x.1 == v then [x] else [])
  {
    if s == [] {
    } else if s[0].1 >= x.1 {
      var t := s[1..];
      SortedTail(s);
      InsertStable(x, t, v);
      WithCountConcat([s[0]], Insert(x, t), v);
      assert [s[0]] + Insert(x, t) == Insert(x, s);
    } else {
      WithCountConcat([x], s, v);
      if x.1 == v {
        assert s[0].1 < v;
        WithCountNone(s, v);
      }
    }
  }

  lemma DistinctCons(h: Pair, t: seq<Pair>)
    requires DistinctKeys(t) && forall y :: y in t ==> y.0 != h.0
    ensures DistinctKeys([h] + t)
  {
    var s := [h] + t;
    forall i, j | 0 <= i < j < |s| ensures s[i].0 != s[j].0 {
      assert s[j] == t[j - 1];
      if i > 0 {
        assert s[i] == t[i - 1];
      } else {
        assert t[j - 1] in t;
      }
    }
  }

  lemma {:induction false} InsertDistinct(x: Pair, s: seq<Pair>)
    requires DistinctKeys(s) && forall y :: y in s ==> y.0 != x.0
    ensures DistinctKeys(Insert(x, s))
  {
    if s != [] {
      var t := s[1..];
      assert DistinctKeys(t) by {
        forall i, j | 0 <= i < j < |t| ensures t[i].0 != t[j].0 {
          assert t[i] == s[i + 1] && t[j] == s[j + 1];
        }
      }
      assert forall y :: y in t ==> y.0 != s[0].0 by {
        forall y | y in t ensures y.0 != s[0].0 {
          var k :| 0 <= k < |t| && t[k] == y;
          assert s[k + 1] == y;
        }
      }
      if s[0].1 >= x.1 {
        assert forall y :: y in t ==> y in s;
        InsertDistinct(x, t);
        InsertPermutes(x, t);
        forall y | y in Insert(x, t) ensures y.0 != s[0].0 {
          assert y in multiset(Insert(x, t));
        }
        DistinctCons(s[0], Insert(x, t));
      } else {
        DistinctCons(x, s);
      }
    }
  }

  // ----- SortDesc -----------------------------------------------------------------

  /** The sorted items are exactly the input items: a permutation. */
  lemma {:induction false} SortPermutes(s: seq<Pair>)
    ensures multiset(SortDesc(s)) == multiset(s)
  {
    if s != [] {
      var init, last := s[..|s| - 1], s[|s| - 1];
      SortPermutes(init);
      InsertPermutes(last, SortDesc(init));
      assert s == init + [last];
      assert multiset(s) == multiset(init) + multiset{last};
    }
  }

  /** Counts appear in non-increasing order. */
  lemma {:induction false} SortSorted(s: seq<Pair>)
    ensures NonIncreasing(SortDesc(s))
  {
    if s != [] {
      SortSorted(s[..|s| - 1]);
      InsertSorted(s[|s| - 1], SortDesc(s[..|s| - 1]));
    }
  }

  /** Items with equal counts keep their original relative order. */
  lemma {:induction false} SortStable(s: seq<Pair>, v: nat)
    ensures WithCount(SortDesc(s), v) == WithCount(s, v)
  {
    if s != [] {
      var init, last := s[..|s| - 1], s[|s| - 1];
      SortStable(init, v);
      SortSorted(init);
      InsertStable(last, SortDesc(init), v);
      WithCountConcat(init, [last], v);
      assert s == init + [last];
    }
  }

  /** Sorting items that are already in order leaves them as they are. */
  lemma {:induction false} SortSortedIdentity(s: seq<Pair>)
    requires NonIncreasing(s)
    ensures SortDesc(s) == s
  {
    if s != [] {
      var init, last := s[..|s| - 1], s[|s| - 1];
      assert NonIncreasing(init);
      SortSortedIdentity(init);
      InsertLast(last, init);
      assert s == init + [last];
    }
  }

  /** Sorting twice is sorting once. */
  lemma SortIdempotent(s: seq<Pair>)
    ensures SortDesc(SortDesc(s)) == SortDesc(s)
  {
    SortSorted(s);
    SortSortedIdentity(SortDesc(s));
  }

  /** Distinct keys stay distinct, so `dict(...)` keeps every sorted item, in sorted order. */
  lemma {:induction false} SortDistinct(s: seq<Pair>)
    requires DistinctKeys(s)
    ensures DistinctKeys(SortDesc(s))
  {
    if s != [] {
      var init, last := s[..|s| - 1], s[|s| - 1];
      assert DistinctKeys(init);
      SortDistinct(init);
      SortPermutes(init);
      forall y | y in SortDesc(init) ensures y.0 != last.0 {
        assert y in multiset(SortDesc(init));
        var k :| 0 <= k < |init| && init[k] == y;
        assert s[k] == y;
      }
      InsertDistinct(last, SortDesc(init));
    }
  }

  /** The items of a valid counts dictionary have distinct keys. */
  lemma ItemsDistinct(d: Counts.Dict<string>)
    requires Counts.Valid(d)
    ensures DistinctKeys(Counts.Items(d))
  {
  }

  /**
   * The rewritten file holds exactly the pairs of the original, with distinct
   * keys, counts non-increasing and ties in their original order.
   */
  lemma SortedCountsSpec(d: Counts.Dict<string>, v: nat)
    requires Counts.Valid(d)
    ensures multiset(SortedCounts(d)) == multiset(Counts.Items(d))
    ensures DistinctKeys(SortedCounts(d)) && NonIncreasing(SortedCounts(d))
    ensures WithCount(SortedCounts(d), v) == WithCount(Counts.Items(d), v)
  {
    ItemsDistinct(d);
    SortPermutes(Counts.Items(d));
    SortDistinct(Counts.Items(d));
    SortSorted(Counts.Items(d));
    SortStable(Counts.Items(d), v);
  }
}
