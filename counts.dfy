/**
 * Python dictionaries of counts (`collections.Counter`, or a plain dict updated
 * with `d[k] = d.get(k, 0) + 1`): a map from key to count together with the
 * keys in insertion order, which is the order `json.dump` and `.items()` see.
 */
module Counts {

  datatype Dict<K> = Dict(keys: seq<K>, value: map<K, nat>)

  /** The keys are distinct and are exactly the keys of the map. */
  ghost predicate Valid<K(!new)>(d: Dict<K>) {
    && (forall i, j :: 0 <= i < j < |d.keys| ==> d.keys[i] != d.keys[j])
    && (forall k :: k in d.value <==> k in d.keys)
  }

  /** `Counter()` / `{}` */
  function Empty<K>(): Dict<K> {
    Dict([], map[])
  }

  /** `d.get(k, 0)`, and `counter[k]` on a Counter. */
  function Get<K(==)>(d: Dict<K>, k: K): nat {
    if k in d.value then d.value[k] else 0
  }

  /** `d[k] += 1`: an existing key keeps its position, a new key goes last with count 1. */
  function Increment<K(==)>(d: Dict<K>, k: K): (r: Dict<K>)
    ensures k in r.value
  {
    if k in d.value then Dict(d.keys, d.value[k := d.value[k] + 1])
    else Dict(d.keys + [k], d.value[k := 1])
  }

  /** `d.items()` */
  function Items<K(==)>(d: Dict<K>): (r: seq<(K, nat)>)
    ensures |r| == |d.keys|
  {
    seq(|d.keys|, i requires 0 <= i < |d.keys| => (d.keys[i], Get(d, d.keys[i])))
  }

  /** The sum of the counts of `ks` in `m`. */
  function Sum<K(==)>(ks: seq<K>, m: map<K, nat>): nat {
    if ks == [] then 0
    else Sum(ks[..|ks| - 1], m) + (if ks[|ks| - 1] in m then m[ks[|ks| - 1]] else 0)
  }

  /** `sum(d.values())` */
  function Total<K(==)>(d: Dict<K>): nat {
    Sum(d.keys, d.value)
  }

  /** The dictionary after `d[k] += 1` for each `k` of `ks` in turn. */
  function Tally<K(==)>(d: Dict<K>, ks: seq<K>): Dict<K> {
    if ks == [] then d else Increment(Tally(d, ks[..|ks| - 1]), ks[|ks| - 1])
  }

  lemma IncrementValid<K(!new)>(d: Dict<K>, k: K)
    requires Valid(d)
    ensures Valid(Increment(d, k))
  {
  }

  /** `d[k] += 1` adds one to the count of `k` and changes no other count. */
  lemma IncrementGet<K>(d: Dict<K>, k: K, j: K)
    ensures Get(Increment(d, k), j) == Get(d, j) + (if j == k then 1 else 0)
  {
  }

  /** Changing the count of a key that is not listed changes no sum. */
  lemma {:induction false} SumOther<K>(ks: seq<K>, m: map<K, nat>, k: K, n: nat)
    requires k !in ks
    ensures Sum(ks, m[k := n]) == Sum(ks, m)
  {
    if ks != [] {
      assert k != ks[|ks| - 1];
      assert k !in ks[..|ks| - 1] by {
        assert forall x :: x in ks[..|ks| - 1] ==> x in ks;
      }
      SumOther(ks[..|ks| - 1], m, k, n);
    }
  }

  /** Adding one to a key listed exactly once adds one to the sum. */
  lemma {:induction false} SumBump<K>(ks: seq<K>, m: map<K, nat>, k: K)
    requires k in m && multiset(ks)[k] == 1
    ensures Sum(ks, m[k := m[k] + 1]) == Sum(ks, m) + 1
  {
    var init, last := ks[..|ks| - 1], ks[|ks| - 1];
    assert ks == init + [last];
    if last == k {
      assert multiset(init)[k] == 0;
      SumOther(init, m, k, m[k] + 1);
    } else {
      SumBump(init, m, k);
    }
  }

  lemma DistinctOnce<K>(ks: seq<K>, k: K)
    requires forall i, j :: 0 <= i < j < |ks| ==> ks[i] != ks[j]
    requires k in ks
    ensures multiset(ks)[k] == 1
    decreases |ks|
  {
    var init, last := ks[..|ks| - 1], ks[|ks| - 1];
    assert ks == init + [last];
    if last == k {
      assert k !in init by {
        forall i | 0 <= i < |init| ensures init[i] != k {
          assert ks[i] != ks[|ks| - 1];
        }
      }
    } else {
      DistinctOnce(init, k);
    }
  }

  /** `d[k] += 1` adds one to the total. */
  lemma IncrementTotal<K(!new)>(d: Dict<K>, k: K)
    requires Valid(d)
    ensures Total(Increment(d, k)) == Total(d) + 1
  {
    if k in d.value {
      DistinctOnce(d.keys, k);
      SumBump(d.keys, d.value, k);
    } else {
      var ks := d.keys + [k];
      assert ks[..|ks| - 1] == d.keys;
      SumOther(d.keys, d.value, k, 1);
    }
  }

  /**
   * After tallying `ks`, every count `k` has grown by the number of times `k`
   * occurs in `ks`, no count has decreased, validity is kept, and the total has
   * grown by `|ks|`.
   */
  lemma {:induction false} TallyCounts<K(!new)>(d: Dict<K>, ks: seq<K>)
    requires Valid(d)
    ensures Valid(Tally(d, ks))
    ensures forall k :: Get(Tally(d, ks), k) == Get(d, k) + multiset(ks)[k]
    ensures Total(Tally(d, ks)) == Total(d) + |ks|
  {
    if ks != [] {
      var init, last := ks[..|ks| - 1], ks[|ks| - 1];
      assert ks == init + [last];
      TallyCounts(d, init);
      var t := Tally(d, init);
      IncrementValid(t, last);
      IncrementTotal(t, last);
      forall k ensures Get(Tally(d, ks), k) == Get(d, k) + multiset(ks)[k] {
        IncrementGet(t, last, k);
      }
    }
  }

  lemma TallySnoc<K>(d: Dict<K>, ks: seq<K>, k: K)
    ensures Tally(d, ks + [k]) == Increment(Tally(d, ks), k)
  {
    assert (ks + [k])[..|ks|] == ks;
  }

  /** Tallying `a` and then `b` is tallying `a + b`. */
  lemma {:induction false} TallyConcat<K>(d: Dict<K>, a: seq<K>, b: seq<K>)
    ensures Tally(Tally(d, a), b) == Tally(d, a + b)
    decreases |b|
  {
    if b == [] {
      assert a + b == a;
    } else {
      assert (a + b)[..|a + b| - 1] == a + b[..|b| - 1];
      TallyConcat(d, a, b[..|b| - 1]);
    }
  }
}
