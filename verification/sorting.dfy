/** Python's stable `sorted(...)`/`list.sort(...)` as an insertion sort under a
    comparator `le` ("may come no later than"), and the string order Python
    uses for `str` comparison (code point by code point). */
module Sorting {

  /** `le` is a total preorder: any two elements compare, and ordering chains. */
  ghost predicate TotalPreorder<T(!new)>(le: (T, T) -> bool) {
    (forall a, b :: le(a, b) || le(b, a)) &&
    (forall a, b, c :: le(a, b) && le(b, c) ==> le(a, c))
  }

  predicate Sorted<T>(s: seq<T>, le: (T, T) -> bool) {
    forall i, j | 0 <= i < j < |s| :: le(s[i], s[j])
  }

  /** In a sorted sequence, an element outside a prefix comes after every
      element of it. */
  lemma SortedPrefixFirst<T>(all: seq<T>, le: (T, T) -> bool, n: nat, x: T, y: T)
    requires Sorted(all, le) && n <= |all| && x in all && x !in all[..n] && y in all[..n]
    ensures le(y, x)
  {
    var k :| 0 <= k < |all| && all[k] == x;
    var i :| 0 <= i < n && all[..n][i] == y;
    assert forall m | 0 <= m < n :: all[m] in all[..n] by {
      forall m | 0 <= m < n ensures all[m] in all[..n] {
        assert all[..n][m] == all[m];
      }
    }
    assert k >= n;
    assert all[i] == y;
  }

  lemma SortedTail<T>(s: seq<T>, le: (T, T) -> bool)
    requires Sorted(s, le) && |s| > 0
    ensures Sorted(s[1..], le)
  {
    forall i, j | 0 <= i < j < |s[1..]| ensures le(s[1..][i], s[1..][j]) {
      assert s[1..][i] == s[i + 1] && s[1..][j] == s[j + 1];
    }
  }

  /** Puts `x` in front of the first element that must come after it, so
      equal-ranking elements already present stay in front of `x`. */
  function InsertSorted<T>(t: seq<T>, x: T, le: (T, T) -> bool): (r: seq<T>)
    ensures multiset(r) == multiset(t) + multiset{x}
    ensures |r| == |t| + 1
    decreases |t|
  {
    if |t| == 0 then [x]
    else if !le(t[0], x) then [x] + t
    else
      assert t == [t[0]] + t[1..];
      [t[0]] + InsertSorted(t[1..], x, le)
  }

  /** Stable sort: the input is inserted element by element, first to last. */
  function SortBy<T>(s: seq<T>, le: (T, T) -> bool): (r: seq<T>)
    ensures multiset(r) == multiset(s)
    ensures |r| == |s|
    decreases |s|
  {
    if |s| == 0 then []
    else
      assert s == s[..|s| - 1] + [s[|s| - 1]];
      InsertSorted(SortBy(s[..|s| - 1], le), s[|s| - 1], le)
  }

  lemma {:induction false} InsertSortedSorted<T(!new)>(t: seq<T>, x: T, le: (T, T) -> bool)
    requires TotalPreorder(le)
    requires Sorted(t, le)
    ensures Sorted(InsertSorted(t, x, le), le)
    decreases |t|
  {
    if |t| > 0 && le(t[0], x) {
      InsertSortedSorted(t[1..], x, le);
      var r := InsertSorted(t, x, le);
      var rest := InsertSorted(t[1..], x, le);
      assert r == [t[0]] + rest;
      forall j | 1 <= j < |r|
        ensures le(r[0], r[j])
      {
        assert r[j] in multiset(rest);
        assert r[j] in multiset(t[1..]) || r[j] == x;
        if r[j] != x {
          var k :| 0 <= k < |t[1..]| && t[1..][k] == r[j];
          assert le(t[0], t[k + 1]);
        }
      }
    } else if |t| > 0 {
      var r := InsertSorted(t, x, le);
      assert r == [x] + t;
      forall j | 1 <= j < |r|
        ensures le(r[0], r[j])
      {
        assert r[j] == t[j - 1];
        assert le(t[0], t[j - 1]) || j == 1;
        assert le(x, t[0]);
      }
    }
  }

  /** The result of SortBy is ordered by `le`. */
  lemma {:induction false} SortBySorted<T(!new)>(s: seq<T>, le: (T, T) -> bool)
    requires TotalPreorder(le)
    ensures Sorted(SortBy(s, le), le)
    decreases |s|
  {
    if |s| > 0 {
      SortBySorted(s[..|s| - 1], le);
      InsertSortedSorted(SortBy(s[..|s| - 1], le), s[|s| - 1], le);
    }
  }

  /** `a` and `b` rank equally under `le`. */
  predicate Tied<T>(le: (T, T) -> bool, a: T, b: T) {
    le(a, b) && le(b, a)
  }

  /** The elements of `s` ranking equally with `y`, in order. */
  function TiedWith<T>(s: seq<T>, le: (T, T) -> bool, y: T): seq<T>
    decreases |s|
  {
    if |s| == 0 then []
    else (if Tied(le, s[0], y) then [s[0]] else []) + TiedWith(s[1..], le, y)
  }

  lemma {:induction false} TiedWithAppend<T>(a: seq<T>, b: seq<T>, le: (T, T) -> bool, y: T)
    ensures TiedWith(a + b, le, y) == TiedWith(a, le, y) + TiedWith(b, le, y)
    decreases |a|
  {
    if |a| > 0 {
      assert (a + b)[1..] == a[1..] + b;
      TiedWithAppend(a[1..], b, le, y);
    } else {
      assert a + b == b;
    }
  }

  lemma {:induction false} TiedWithNone<T(!new)>(t: seq<T>, le: (T, T) -> bool, y: T, x: T)
    requires TotalPreorder(le)
    requires Sorted(t, le)
    requires |t| > 0 && !le(t[0], x) && Tied(le, x, y)
    ensures TiedWith(t, le, y) == []
    decreases |t|
  {
    assert !Tied(le, t[0], y);
    if |t| > 1 {
      assert !le(t[1], x) by {
        assert le(t[0], t[1]);
      }
      assert Sorted(t[1..], le) by {
        forall i, j | 0 <= i < j < |t[1..]| ensures le(t[1..][i], t[1..][j]) {
          assert t[1..][i] == t[i + 1] && t[1..][j] == t[j + 1];
        }
      }
      TiedWithNone(t[1..], le, y, x);
    }
  }

  lemma {:induction false} InsertSortedStable<T(!new)>(t: seq<T>, x: T, le: (T, T) -> bool, y: T)
    requires TotalPreorder(le)
    requires Sorted(t, le)
    ensures TiedWith(InsertSorted(t, x, le), le, y)
         == TiedWith(t, le, y) + (if Tied(le, x, y) then [x] else [])
    decreases |t|
  {
    if |t| == 0 {
      TiedWithSingle(x, le, y);
      assert InsertSorted(t, x, le) == [x];
      assert TiedWith(t, le, y) == [];
    } else if !le(t[0], x) {
      InsertSortedFront(t, x, le, y);
    } else {
      SortedTail(t, le);
      InsertSortedStable(t[1..], x, le, y);
      InsertSortedPast(t, x, le, y);
    }
  }

  /** Inserted in front: no element of `t` ranks with `x`. */
  lemma InsertSortedFront<T(!new)>(t: seq<T>, x: T, le: (T, T) -> bool, y: T)
    requires TotalPreorder(le)
    requires Sorted(t, le) && |t| > 0 && !le(t[0], x)
    ensures TiedWith(InsertSorted(t, x, le), le, y)
         == TiedWith(t, le, y) + (if Tied(le, x, y) then [x] else [])
  {
    TiedWithSingle(x, le, y);
    assert InsertSorted(t, x, le) == [x] + t;
    TiedWithAppend([x], t, le, y);
    if Tied(le, x, y) {
      TiedWithNone(t, le, y, x);
    }
  }

  /** Inserted past the first element: the first element's rank stays in front. */
  lemma InsertSortedPast<T>(t: seq<T>, x: T, le: (T, T) -> bool, y: T)
    requires |t| > 0 && le(t[0], x)
    requires TiedWith(InsertSorted(t[1..], x, le), le, y)
          == TiedWith(t[1..], le, y) + (if Tied(le, x, y) then [x] else [])
    ensures TiedWith(InsertSorted(t, x, le), le, y)
         == TiedWith(t, le, y) + (if Tied(le, x, y) then [x] else [])
  {
    var rest := InsertSorted(t[1..], x, le);
    var head := TiedWith([t[0]], le, y);
    var mid := TiedWith(t[1..], le, y);
    var tail := if Tied(le, x, y) then [x] else [];
    assert InsertSorted(t, x, le) == [t[0]] + rest;
    TiedWithAppend([t[0]], rest, le, y);
    TiedWithAppend([t[0]], t[1..], le, y);
    assert [t[0]] + t[1..] == t;
    AppendAssoc(head, mid, tail);
  }

  lemma AppendAssoc<T>(a: seq<T>, b: seq<T>, c: seq<T>)
    ensures a + (b + c) == (a + b) + c
  {
  }

  lemma TiedWithSingle<T>(x: T, le: (T, T) -> bool, y: T)
    ensures TiedWith([x], le, y) == if Tied(le, x, y) then [x] else []
  {
    assert [x][1..] == [];
  }

  lemma TiedWithSnoc<T>(init: seq<T>, x: T, le: (T, T) -> bool, y: T)
    ensures TiedWith(init + [x], le, y) == TiedWith(init, le, y) + (if Tied(le, x, y) then [x] else [])
  {
    TiedWithAppend(init, [x], le, y);
    assert [x][1..] == [];
  }

  /** Stability: the elements of any one rank keep their input order. */
  lemma {:induction false} SortByStable<T(!new)>(s: seq<T>, le: (T, T) -> bool, y: T)
    requires TotalPreorder(le)
    ensures TiedWith(SortBy(s, le), le, y) == TiedWith(s, le, y)
    decreases |s|
  {
    if |s| > 0 {
      var init := s[..|s| - 1];
      var x := s[|s| - 1];
      var sorted := SortBy(init, le);
      assert SortBy(s, le) == InsertSorted(sorted, x, le);
      SortByStable(init, le, y);
      SortBySorted(init, le);
      InsertSortedStable(sorted, x, le, y);
      TiedWithLast(s, le, y);
    }
  }

  lemma TiedWithLast<T>(s: seq<T>, le: (T, T) -> bool, y: T)
    requires |s| > 0
    ensures TiedWith(s, le, y)
         == TiedWith(s[..|s| - 1], le, y) + (if Tied(le, s[|s| - 1], y) then [s[|s| - 1]] else [])
  {
    assert s == s[..|s| - 1] + [s[|s| - 1]];
    TiedWithSnoc(s[..|s| - 1], s[|s| - 1], le, y);
  }

  // ---------------------------------------------------------------------------
  // Python's string order
  // ---------------------------------------------------------------------------

  /** `a <= b` on Python strings: lexicographic by code point. */
  predicate StrLe(a: string, b: string)
    decreases |a|
  {
    |a| == 0 || (|b| > 0 && (a[0] < b[0] || (a[0] == b[0] && StrLe(a[1..], b[1..]))))
  }

  predicate StrLt(a: string, b: string) {
    StrLe(a, b) && a != b
  }

  lemma {:induction false} StrLeTotal(a: string, b: string)
    ensures StrLe(a, b) || StrLe(b, a)
    decreases |a|
  {
    if |a| > 0 && |b| > 0 && a[0] == b[0] {
      StrLeTotal(a[1..], b[1..]);
    }
  }

  lemma {:induction false} StrLeTrans(a: string, b: string, c: string)
    requires StrLe(a, b) && StrLe(b, c)
    ensures StrLe(a, c)
    decreases |a|
  {
    if |a| > 0 && |b| > 0 && |c| > 0 && a[0] == b[0] && b[0] == c[0] {
      StrLeTrans(a[1..], b[1..], c[1..]);
    }
  }

  lemma {:induction false} StrLeAntisym(a: string, b: string)
    requires StrLe(a, b) && StrLe(b, a)
    ensures a == b
    decreases |a|
  {
    if |a| > 0 && |b| > 0 {
      StrLeAntisym(a[1..], b[1..]);
      assert a == [a[0]] + a[1..] && b == [b[0]] + b[1..];
    }
  }

  /** A common prefix does not change the order. */
  lemma {:induction false} StrLePrefix(p: string, a: string, b: string)
    ensures StrLe(p + a, p + b) == StrLe(a, b)
    decreases |p|
  {
    if |p| > 0 {
      assert (p + a)[1..] == p[1..] + a && (p + b)[1..] == p[1..] + b;
      StrLePrefix(p[1..], a, b);
    } else {
      assert p + a == a && p + b == b;
    }
  }

  /** Equal lengths and no character larger: no later in the order. */
  lemma {:induction false} StrLePointwise(a: string, b: string)
    requires |a| == |b| && forall i | 0 <= i < |a| :: a[i] <= b[i]
    ensures StrLe(a, b)
    decreases |a|
  {
    if |a| > 0 && a[0] == b[0] {
      StrLePointwise(a[1..], b[1..]);
    }
  }

  lemma StrLeRefl(a: string)
    ensures StrLe(a, a)
  {
    StrLeTotal(a, a);
  }
}
