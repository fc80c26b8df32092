/** Python's insertion-ordered `dict` as an association list: assigning to an
    existing key replaces its value in place, a new key goes to the end.
    Group-by and count-by folds over it. */
module OrderedDict {
  import opened Common

  type Dict<K, V> = seq<(K, V)>

  /** `d.get(k)`. */
  function Get<K(==), V>(d: Dict<K, V>, k: K): Option<V>
    decreases |d|
  {
    if |d| == 0 then None
    else if d[0].0 == k then Some(d[0].1)
    else Get(d[1..], k)
  }

  /** `d[k] = v`. */
  function Put<K(==), V>(d: Dict<K, V>, k: K, v: V): (r: Dict<K, V>)
    ensures Get(d, k).Some? ==> |r| == |d|
    ensures Get(d, k).None? ==> r == d + [(k, v)]
    decreases |d|
  {
    if |d| == 0 then [(k, v)]
    else if d[0].0 == k then [(k, v)] + d[1..]
    else
      assert d == [d[0]] + d[1..];
      [d[0]] + Put(d[1..], k, v)
  }

  /** After `d[k] = v`, `k` maps to `v` and every other key is unaffected. */
  lemma {:induction false} GetPut<K, V>(d: Dict<K, V>, k: K, v: V, k': K)
    ensures Get(Put(d, k, v), k') == if k' == k then Some(v) else Get(d, k')
    decreases |d|
  {
    if |d| > 0 && d[0].0 != k {
      GetPut(d[1..], k, v, k');
    }
  }

  // ---------------------------------------------------------------------------
  // Counting and grouping by a key
  // ---------------------------------------------------------------------------

  /** The elements of `s` whose key is `k`, in order. */
  function WithKey<T, K(==)>(s: seq<T>, key: T -> K, k: K): (r: seq<T>)
    ensures |r| <= |s|
    ensures forall x | x in r :: x in s && key(x) == k
    decreases |s|
  {
    if |s| == 0 then []
    else WithKey(s[..|s| - 1], key, k) + (if key(s[|s| - 1]) == k then [s[|s| - 1]] else [])
  }

  /** Every element carrying key `k` is in its group. */
  lemma {:induction false} WithKeyComplete<T, K>(s: seq<T>, key: T -> K, k: K, x: T)
    requires x in s && key(x) == k
    ensures x in WithKey(s, key, k)
    decreases |s|
  {
    if s[|s| - 1] != x {
      assert x in s[..|s| - 1] by {
        var i :| 0 <= i < |s| && s[i] == x;
        assert s[..|s| - 1][i] == x;
      }
      WithKeyComplete(s[..|s| - 1], key, k, x);
    }
  }

  lemma WithKeySnoc<T, K>(s: seq<T>, key: T -> K, k: K, x: T)
    ensures WithKey(s + [x], key, k) == WithKey(s, key, k) + (if key(x) == k then [x] else [])
  {
    assert (s + [x])[..|s|] == s;
  }

  /** `k in d` means some entry carries `k`. */
  lemma {:induction false} GetNone<K, V>(d: Dict<K, V>, k: K)
    ensures Get(d, k).None? <==> forall i | 0 <= i < |d| :: d[i].0 != k
    decreases |d|
  {
    if |d| > 0 {
      GetNone(d[1..], k);
      assert forall i | 1 <= i < |d| :: d[1..][i - 1] == d[i];
    }
  }

  /** A key that `get` finds is the key of an entry holding that value. */
  lemma {:induction false} GetSome<K, V>(d: Dict<K, V>, k: K)
    requires Get(d, k).Some?
    ensures exists i | 0 <= i < |d| :: d[i].0 == k && d[i].1 == Get(d, k).value
    decreases |d|
  {
    if d[0].0 != k {
      GetSome(d[1..], k);
      var i :| 0 <= i < |d[1..]| && d[1..][i].0 == k && d[1..][i].1 == Get(d[1..], k).value;
      assert d[i + 1] == d[1..][i];
    }
  }

  /** Keys occur at most once. */
  ghost predicate DistinctKeys<K, V>(d: Dict<K, V>) {
    forall i, j | 0 <= i < j < |d| :: d[i].0 != d[j].0
  }

  /** Assignment never duplicates a key. */
  lemma {:induction false} PutDistinct<K, V>(d: Dict<K, V>, k: K, v: V)
    requires DistinctKeys(d)
    ensures DistinctKeys(Put(d, k, v))
    ensures forall i | 0 <= i < |Put(d, k, v)| :: Put(d, k, v)[i].0 == k || exists j | 0 <= j < |d| :: d[j].0 == Put(d, k, v)[i].0
    decreases |d|
  {
    if |d| > 0 {
      var t := d[1..];
      assert forall i | 1 <= i < |d| :: t[i - 1] == d[i];
      if d[0].0 != k {
        PutDistinct(t, k, v);
        var r := Put(d, k, v);
        var rt := Put(t, k, v);
        assert r == [d[0]] + rt;
        assert forall i | 1 <= i < |r| :: r[i] == rt[i - 1];
      }
    }
  }

  /** In a dictionary without repeated keys, `get` finds every entry. */
  lemma {:induction false} GetDistinct<K, V>(d: Dict<K, V>, i: nat)
    requires DistinctKeys(d) && i < |d|
    ensures Get(d, d[i].0) == Some(d[i].1)
    decreases i
  {
    if i > 0 {
      var t := d[1..];
      assert t[i - 1] == d[i];
      GetDistinct(t, i - 1);
    }
  }

  /** The values of a dictionary, in order. */
  function Values<K, V>(d: Dict<K, V>): seq<V> {
    seq(|d|, i requires 0 <= i < |d| => d[i].1)
  }

  /** The keys of a dictionary, in order. */
  function Keys<K, V>(d: Dict<K, V>): (r: seq<K>)
    ensures |r| == |d| && forall i | 0 <= i < |d| :: r[i] == d[i].0
  {
    seq(|d|, i requires 0 <= i < |d| => d[i].0)
  }

  /** `d[k] = v` for every pair in order, starting from `{}` (a dict
      comprehension or an assignment loop). */
  function FromPairs<K(==), V>(es: seq<(K, V)>): Dict<K, V>
    decreases |es|
  {
    if |es| == 0 then [] else Put(FromPairs(es[..|es| - 1]), es[|es| - 1].0, es[|es| - 1].1)
  }

  /** Pair `i` is the last one carrying key `k`. */
  ghost predicate LastPair<K, V>(es: seq<(K, V)>, k: K, i: nat) {
    i < |es| && es[i].0 == k && forall j | i < j < |es| :: es[j].0 != k
  }

  /** A key is absent iff no pair carries it. */
  lemma {:induction false} FromPairsNone<K, V>(es: seq<(K, V)>, k: K)
    ensures Get(FromPairs(es), k).None? <==> forall i | 0 <= i < |es| :: es[i].0 != k
    decreases |es|
  {
    if |es| > 0 {
      var n := |es| - 1;
      var init := es[..n];
      FromPairsNone(init, k);
      assert FromPairs(es) == Put(FromPairs(init), es[n].0, es[n].1);
      GetPut(FromPairs(init), es[n].0, es[n].1, k);
      assert forall i | 0 <= i < n :: init[i] == es[i];
    }
  }

  /** A key holds the value of the last pair carrying it. */
  lemma {:induction false} FromPairsLastValue<K, V>(es: seq<(K, V)>, k: K, i: nat)
    requires LastPair(es, k, i)
    ensures Get(FromPairs(es), k) == Some(es[i].1)
    decreases |es|
  {
    var n := |es| - 1;
    var init := es[..n];
    assert FromPairs(es) == Put(FromPairs(init), es[n].0, es[n].1);
    GetPut(FromPairs(init), es[n].0, es[n].1, k);
    if i < n {
      assert es[n].0 != k;
      assert forall j | i < j < n :: init[j] == es[j];
      assert LastPair(init, k, i);
      FromPairsLastValue(init, k, i);
    }
  }

  /** A later assignment overwrites an earlier one: a key is present iff
      some pair carries it, and it holds the value of the last such pair. */
  lemma FromPairsLast<K, V>(es: seq<(K, V)>, k: K)
    ensures Get(FromPairs(es), k).None? <==> forall i | 0 <= i < |es| :: es[i].0 != k
    ensures forall i: nat | LastPair(es, k, i) :: Get(FromPairs(es), k) == Some(es[i].1)
  {
    FromPairsNone(es, k);
    forall i: nat | LastPair(es, k, i) ensures Get(FromPairs(es), k) == Some(es[i].1) {
      FromPairsLastValue(es, k, i);
    }
  }

  /** The dictionary built from pairs never repeats a key. */
  lemma {:induction false} FromPairsDistinct<K, V>(es: seq<(K, V)>)
    ensures DistinctKeys(FromPairs(es))
    decreases |es|
  {
    if |es| > 0 {
      FromPairsDistinct(es[..|es| - 1]);
      PutDistinct(FromPairs(es[..|es| - 1]), es[|es| - 1].0, es[|es| - 1].1);
    }
  }

  /** `counts[key(x)] = counts.get(key(x), 0) + 1` for every `x` in order. */
  function CountBy<T, K(==)>(s: seq<T>, key: T -> K): Dict<K, int>
    decreases |s|
  {
    if |s| == 0 then []
    else
      var acc := CountBy(s[..|s| - 1], key);
      var k := key(s[|s| - 1]);
      Put(acc, k, Get(acc, k).GetOr(0) + 1)
  }

  /** `groups.setdefault(key(x), []).append(x)` for every `x` in order. */
  function GroupBy<T, K(==)>(s: seq<T>, key: T -> K): Dict<K, seq<T>>
    decreases |s|
  {
    if |s| == 0 then []
    else
      var acc := GroupBy(s[..|s| - 1], key);
      var k := key(s[|s| - 1]);
      Put(acc, k, Get(acc, k).GetOr([]) + [s[|s| - 1]])
  }

  function SumValues<K>(d: Dict<K, int>): int
    decreases |d|
  {
    if |d| == 0 then 0 else d[0].1 + SumValues(d[1..])
  }

  lemma {:induction false} SumValuesPut<K>(d: Dict<K, int>, k: K, n: int)
    ensures SumValues(Put<K, int>(d, k, Get(d, k).GetOr(0) + n)) == SumValues(d) + n
    decreases |d|
  {
    if |d| > 0 && d[0].0 != k {
      SumValuesPut(d[1..], k, n);
      assert Put<K, int>(d, k, Get(d, k).GetOr(0) + n) == [d[0]] + Put<K, int>(d[1..], k, Get(d[1..], k).GetOr(0) + n);
    }
  }

  /** Counting by key accounts for every element exactly once. */
  lemma {:induction false} CountBySum<T, K>(s: seq<T>, key: T -> K)
    ensures SumValues(CountBy(s, key)) == |s|
    decreases |s|
  {
    if |s| > 0 {
      var acc := CountBy(s[..|s| - 1], key);
      var k := key(s[|s| - 1]);
      CountBySum(s[..|s| - 1], key);
      SumValuesPut(acc, k, 1);
      assert CountBy(s, key) == Put(acc, k, Get(acc, k).GetOr(0) + 1);
    }
  }

  /** A key is counted iff it occurs, and its count is the number of elements
      carrying it. */
  lemma {:induction false} CountByCounts<T, K>(s: seq<T>, key: T -> K, k: K)
    ensures Get(CountBy(s, key), k) == if |WithKey(s, key, k)| > 0 then Some(|WithKey(s, key, k)|) else None
    decreases |s|
  {
    if |s| > 0 {
      var init := s[..|s| - 1];
      var acc := CountBy(init, key);
      CountByCounts(init, key, k);
      GetPut(acc, key(s[|s| - 1]), Get(acc, key(s[|s| - 1])).GetOr(0) + 1, k);
      if key(s[|s| - 1]) == k {
        CountByCounts(init, key, key(s[|s| - 1]));
      }
    }
  }

  /** A key has a group iff it occurs, and the group holds exactly the
      elements carrying it, in input order. */
  lemma {:induction false} GroupByGroups<T, K>(s: seq<T>, key: T -> K, k: K)
    ensures Get(GroupBy(s, key), k) == if |WithKey(s, key, k)| > 0 then Some(WithKey(s, key, k)) else None
    decreases |s|
  {
    if |s| > 0 {
      var init := s[..|s| - 1];
      var acc := GroupBy(init, key);
      var last := s[|s| - 1];
      GroupByGroups(init, key, k);
      GetPut(acc, key(last), Get(acc, key(last)).GetOr([]) + [last], k);
      assert GroupBy(s, key) == Put(acc, key(last), Get(acc, key(last)).GetOr([]) + [last]);
      if key(last) == k {
        assert WithKey(s, key, k) == WithKey(init, key, k) + [last];
      } else {
        assert WithKey(s, key, k) == WithKey(init, key, k);
      }
    }
  }

  /** `totals[key(x)] = totals.get(key(x), 0) + val(x)` for every `x` in order. */
  function SumBy<T, K(==)>(s: seq<T>, key: T -> K, val: T -> int): Dict<K, int>
    decreases |s|
  {
    if |s| == 0 then []
    else
      var acc := SumBy(s[..|s| - 1], key, val);
      var k := key(s[|s| - 1]);
      Put(acc, k, Get(acc, k).GetOr(0) + val(s[|s| - 1]))
  }

  /** A key has a total iff it occurs, and the total is the sum over the
      elements carrying it. */
  lemma {:induction false} SumByTotals<T, K>(s: seq<T>, key: T -> K, val: T -> int, k: K)
    ensures Get(SumBy(s, key, val), k)
         == if |WithKey(s, key, k)| > 0 then Some(SumInt(WithKey(s, key, k), val)) else None
    decreases |s|
  {
    if |s| > 0 {
      var init := s[..|s| - 1];
      var last := s[|s| - 1];
      var acc := SumBy(init, key, val);
      var w := WithKey(init, key, k);
      SumByTotals(init, key, val, k);
      assert SumBy(s, key, val) == Put(acc, key(last), Get(acc, key(last)).GetOr(0) + val(last));
      assert WithKey(s, key, k) == w + (if key(last) == k then [last] else []);
      GetPut(acc, key(last), Get(acc, key(last)).GetOr(0) + val(last), k);
      if key(last) == k {
        assert Get(acc, k).GetOr(0) == SumInt(w, val);
        SumIntSnoc(w, last, val);
      } else {
        assert WithKey(s, key, k) == w;
      }
    }
  }
}
