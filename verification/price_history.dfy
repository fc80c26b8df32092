/** The price-change journal (price_history.py): one row per proposed change,
    flags for "sent to the marketplace" and "rolled back", newest-first
    queries, and rollback through an abstract `update_price` that may fail.
    The SQLite table is a sequence of rows in insertion order; timestamps are
    ISO-8601 texts compared as strings, as SQLite compares them. */
module PriceHistory {
  import opened Common
  import opened Sorting
  import opened OrderedDict
  import Pricing

  datatype Row = Row(
    id: int,
    nmId: int,
    vendorCode: string,
    title: string,
    oldPrice: real,
    oldDiscount: int,
    newPrice: real,
    newDiscount: int,
    strategyName: string,
    reason: Pricing.Reason,
    applied: bool,
    rolledBack: bool,
    createdAt: string)

  /** The table and its AUTOINCREMENT counter. */
  datatype Journal = Journal(rows: seq<Row>, nextId: int)

  /** Ids grow with insertion order and stay below the counter. */
  ghost predicate Valid(j: Journal) {
    (forall i | 0 <= i < |j.rows| :: j.rows[i].id < j.nextId)
    && (forall i, k | 0 <= i < k < |j.rows| :: j.rows[i].id < j.rows[k].id)
  }

  // ---------------------------------------------------------------------------
  // Writing
  // ---------------------------------------------------------------------------

  /** `record`: append one row built from the action, not rolled back,
      stamped `now`; the new id is returned. */
  function Record(j: Journal, a: Pricing.Action, now: string): (r: (Journal, int))
    ensures r.1 == j.nextId && r.0.nextId == j.nextId + 1
    ensures r.0.rows == j.rows + [Row(j.nextId, a.nmId, a.vendorCode, a.title, a.oldPrice, a.oldDiscount,
                                      a.newPrice as real, a.newDiscount, a.strategyName, a.reason,
                                      a.applied, false, now)]
    ensures Valid(j) ==> Valid(r.0)
  {
    var row := Row(j.nextId, a.nmId, a.vendorCode, a.title, a.oldPrice, a.oldDiscount,
                   a.newPrice as real, a.newDiscount, a.strategyName, a.reason, a.applied, false, now);
    (j.(rows := j.rows + [row], nextId := j.nextId + 1), j.nextId)
  }

  /** `record_many`: one `record` per action, in order; `clock(i)` is the time
      the i-th insert reads. Returns the number of rows written. */
  method RecordMany(j: Journal, actions: seq<Pricing.Action>, clock: nat -> string) returns (j': Journal, count: int)
    ensures count == |actions|
    ensures |j'.rows| == |j.rows| + |actions| && j'.rows[..|j.rows|] == j.rows
    ensures forall i | 0 <= i < |actions| ::
      var row := j'.rows[|j.rows| + i];
      row.nmId == actions[i].nmId && row.applied == actions[i].applied && !row.rolledBack
      && row.oldPrice == actions[i].oldPrice && row.oldDiscount == actions[i].oldDiscount
      && row.createdAt == clock(i)
    ensures Valid(j) ==> Valid(j')
  {
    j' := j;
    count := 0;
    if |actions| == 0 {
      return;
    }
    for i := 0 to |actions|
      invariant count == i
      invariant |j'.rows| == |j.rows| + i && j'.rows[..|j.rows|] == j.rows
      invariant forall k | 0 <= k < i ::
        var row := j'.rows[|j.rows| + k];
        row.nmId == actions[k].nmId && row.applied == actions[k].applied && !row.rolledBack
        && row.oldPrice == actions[k].oldPrice && row.oldDiscount == actions[k].oldDiscount
        && row.createdAt == clock(k)
      invariant Valid(j) ==> Valid(j')
    {
      var (next, _) := Record(j', actions[i], clock(i));
      assert next.rows[..|j'.rows|] == j'.rows;
      j' := next;
      count := count + 1;
    }
  }

  // ---------------------------------------------------------------------------
  // Order and queries
  // ---------------------------------------------------------------------------

  /** `ORDER BY created_at DESC`: `a` may come before `b`. Rows with equal
      timestamps come newest id first. */
  predicate NewerLe(a: Row, b: Row) {
    (StrLe(b.createdAt, a.createdAt) && a.createdAt != b.createdAt)
    || (a.createdAt == b.createdAt && a.id >= b.id)
  }

  lemma NewerLeTotalPreorder()
    ensures TotalPreorder(NewerLe)
  {
    forall a: Row, b: Row ensures NewerLe(a, b) || NewerLe(b, a) {
      StrLeTotal(a.createdAt, b.createdAt);
    }
    forall a: Row, b: Row, c: Row | NewerLe(a, b) && NewerLe(b, c) ensures NewerLe(a, c) {
      if a.createdAt != b.createdAt && b.createdAt != c.createdAt {
        StrLeTrans(c.createdAt, b.createdAt, a.createdAt);
        if a.createdAt == c.createdAt {
          StrLeAntisym(b.createdAt, a.createdAt);
        }
      }
    }
  }

  /** SQL `LIMIT n`; a negative limit means no limit. */
  function Limit<T>(s: seq<T>, n: int): (r: seq<T>)
    ensures n >= 0 ==> |r| == Min(n, |s|)
    ensures n < 0 ==> r == s
    ensures r == s[..|r|]
  {
    if n < 0 || n >= |s| then s else s[..n]
  }

  /** The `min(limit, n)` newest of the `n` rows satisfying `p`, newest
      first: every matching row left out is no newer than every row
      returned; without a limit, all of them. */
  function Query(j: Journal, p: Row -> bool, limit: int): (r: seq<Row>)
    ensures forall x | x in r :: x in j.rows && p(x)
    ensures limit >= 0 ==> |r| == Min(limit, |Filter(j.rows, p)|)
    ensures Sorted(r, NewerLe)
    ensures forall x, y | x in j.rows && p(x) && x !in r && y in r :: NewerLe(y, x)
    ensures limit < 0 ==> multiset(r) == multiset(Filter(j.rows, p))
    ensures limit < 0 ==> forall x | x in j.rows && p(x) :: x in r
  {
    var all := SortBy(Filter(j.rows, p), NewerLe);
    NewerLeTotalPreorder();
    SortBySorted(Filter(j.rows, p), NewerLe);
    forall x | x in all ensures x in j.rows && p(x) {
      assert x in multiset(all);
    }
    forall x | x in j.rows && p(x) ensures x in all {
      FilterComplete(j.rows, p, x);
      assert x in multiset(Filter(j.rows, p));
    }
    var r := Limit(all, limit);
    assert forall x | x in r :: x in all;
    assert Sorted(r, NewerLe) by {
      forall i, k | 0 <= i < k < |r| ensures NewerLe(r[i], r[k]) {
        assert r[i] == all[i] && r[k] == all[k];
      }
    }
    forall x, y | x in j.rows && p(x) && x !in r && y in r ensures NewerLe(y, x) {
      LimitKeepsFirst(all, NewerLe, limit, x, y);
    }
    r
  }

  /** A row a limit cuts off comes after every row it keeps. */
  lemma LimitKeepsFirst<T>(all: seq<T>, le: (T, T) -> bool, n: int, x: T, y: T)
    requires Sorted(all, le) && x in all && x !in Limit(all, n) && y in Limit(all, n)
    ensures le(y, x)
  {
    var r := Limit(all, n);
    assert r == all[..|r|];
    SortedPrefixFirst(all, le, |r|, x, y);
  }

  /** The rows of one product. */
  function OfProduct(nm: int): Row -> bool {
    (x: Row) => x.nmId == nm
  }

  /** `get_by_nm_id`: the product's `min(limit, n)` newest rows, newest
      first. */
  function GetByNmId(j: Journal, nm: int, limit: int): (r: seq<Row>)
    ensures forall x | x in r :: x in j.rows && x.nmId == nm
    ensures limit >= 0 ==> |r| == Min(limit, |Filter(j.rows, OfProduct(nm))|)
    ensures Sorted(r, NewerLe)
    ensures forall x, y | x in j.rows && x.nmId == nm && x !in r && y in r :: NewerLe(y, x)
  {
    Query(j, OfProduct(nm), limit)
  }

  /** The `get_all` filter: each given bound and the applied flag, together;
      an empty date counts as absent; the upper bound takes the whole day. */
  predicate Matches(x: Row, dateFrom: Option<string>, dateTo: Option<string>, appliedOnly: bool) {
    (TruthyStr(dateFrom) ==> StrLe(dateFrom.value, x.createdAt))
    && (TruthyStr(dateTo) ==> StrLe(x.createdAt, dateTo.value + "T23:59:59"))
    && (appliedOnly ==> x.applied)
  }

  function MatchesAll(dateFrom: Option<string>, dateTo: Option<string>, appliedOnly: bool): Row -> bool {
    (x: Row) => Matches(x, dateFrom, dateTo, appliedOnly)
  }

  /** `get_all`: the `min(limit, n)` newest matching rows, newest first. */
  function GetAll(j: Journal, dateFrom: Option<string>, dateTo: Option<string>, appliedOnly: bool, limit: int): (r: seq<Row>)
    ensures forall x | x in r :: x in j.rows && Matches(x, dateFrom, dateTo, appliedOnly)
    ensures limit >= 0 ==> |r| == Min(limit, |Filter(j.rows, MatchesAll(dateFrom, dateTo, appliedOnly))|)
    ensures Sorted(r, NewerLe)
    ensures forall x, y | x in j.rows && Matches(x, dateFrom, dateTo, appliedOnly) && x !in r && y in r :: NewerLe(y, x)
    ensures limit < 0 ==> forall x | x in j.rows && Matches(x, dateFrom, dateTo, appliedOnly) :: x in r
  {
    Query(j, MatchesAll(dateFrom, dateTo, appliedOnly), limit)
  }

  /** `HH:MM:SS` on a 24-hour clock, as `isoformat(timespec="seconds")`
      writes it. */
  predicate IsTimeOfDay(t: string) {
    |t| == 8 && t[2] == ':' && t[5] == ':'
    && IsDigit(t[0]) && IsDigit(t[1]) && IsDigit(t[3]) && IsDigit(t[4]) && IsDigit(t[6]) && IsDigit(t[7])
    && (t[0] < '2' || (t[0] == '2' && t[1] <= '3'))
    && t[3] <= '5' && t[6] <= '5'
  }

  /** A row of the given day, whatever its time, passes the `date_to` bound. */
  lemma DateToTakesWholeDay(day: string, time: string)
    requires IsTimeOfDay(time)
    ensures StrLe(day + "T" + time, day + "T23:59:59")
  {
    assert day + "T" + time == (day + "T") + time;
    assert day + "T23:59:59" == (day + "T") + "23:59:59";
    StrLePrefix(day + "T", time, "23:59:59");
    var m := "23:59:59";
    if time[0] == '2' && time[1] == '3' {
      StrLePointwise(time[2..], m[2..]);
      assert time[1..][1..] == time[2..] && m[1..][1..] == m[2..];
    } else if time[0] == '2' {
      assert StrLe(time[1..], m[1..]);
    }
  }

  /** A product's rows that can be rolled back. */
  predicate Revertible(x: Row, nm: int) {
    x.nmId == nm && x.applied && !x.rolledBack
  }

  /** `get_last_applied`: the newest applied, not rolled-back row of the
      product. */
  function GetLastApplied(j: Journal, nm: int): (r: Option<Row>)
    ensures r.None? <==> forall x | x in j.rows :: !Revertible(x, nm)
    ensures r.Some? ==> (r.value in j.rows && Revertible(r.value, nm)
      && forall x | x in j.rows && Revertible(x, nm) :: NewerLe(r.value, x))
  {
    var all := Query(j, (x: Row) => Revertible(x, nm), -1);
    if |all| == 0 then None
    else
      assert forall x | x in j.rows && Revertible(x, nm) :: NewerLe(all[0], x) by {
        forall x | x in j.rows && Revertible(x, nm) ensures NewerLe(all[0], x) {
          var k :| 0 <= k < |all| && all[k] == x;
          if k == 0 { assert x.id >= x.id; }
        }
      }
      assert all[0] in all;
      Some(all[0])
  }

  // ---------------------------------------------------------------------------
  // Rollback
  // ---------------------------------------------------------------------------

  /** `_mark_rolled_back`: set the flag on the row with that id; nothing else
      changes. */
  function MarkRolledBack(j: Journal, id: int): (r: Journal)
    ensures r.nextId == j.nextId && |r.rows| == |j.rows|
    ensures forall i | 0 <= i < |j.rows| ::
      r.rows[i] == j.rows[i].(rolledBack := j.rows[i].rolledBack || j.rows[i].id == id)
  {
    j.(rows := seq(|j.rows|, i requires 0 <= i < |j.rows| =>
      j.rows[i].(rolledBack := j.rows[i].rolledBack || j.rows[i].id == id)))
  }

  /** One `update_price(nm_id, price, discount)` call. */
  datatype PriceCall = PriceCall(nmId: int, price: real, discount: int)

  /** `rollback_last`; `fails` says whether `update_price` raises. Returns the
      journal, the result flag and the call made, if any. */
  function RollbackLast(j: Journal, nm: int, fails: bool): (r: (Journal, bool, Option<PriceCall>))
    ensures GetLastApplied(j, nm).None? ==> r == (j, false, None)
    ensures GetLastApplied(j, nm).Some? ==>
      var x := GetLastApplied(j, nm).value;
      r.2 == Some(PriceCall(nm, x.oldPrice, x.oldDiscount))
      && r.1 == !fails
      && r.0 == if fails then j else MarkRolledBack(j, x.id)
  {
    var last := GetLastApplied(j, nm);
    if last.None? then (j, false, None)
    else
      var call := Some(PriceCall(nm, last.value.oldPrice, last.value.oldDiscount));
      if fails then (j, false, call)
      else (MarkRolledBack(j, last.value.id), true, call)
  }

  /** After a successful rollback, the product's next rollback target is an
      older row (or there is none). */
  lemma RollbackLastAdvances(j: Journal, nm: int)
    requires Valid(j)
    requires GetLastApplied(j, nm).Some?
    ensures var x := GetLastApplied(j, nm).value;
      var after := GetLastApplied(RollbackLast(j, nm, false).0, nm);
      after.None? || (after.value.id != x.id && NewerLe(x, after.value.(rolledBack := false)))
  {
    var x := GetLastApplied(j, nm).value;
    var j' := RollbackLast(j, nm, false).0;
    var after := GetLastApplied(j', nm);
    if after.Some? {
      var k :| 0 <= k < |j'.rows| && j'.rows[k] == after.value;
      assert j'.rows[k] == j.rows[k].(rolledBack := j.rows[k].rolledBack || j.rows[k].id == x.id);
      assert j.rows[k].id != x.id;
      assert j.rows[k] == after.value.(rolledBack := false);
      assert j.rows[k] in j.rows && Revertible(j.rows[k], nm);
    }
  }

  /** `rollback_since`'s candidates: applied, not rolled back, created at or
      after the cutoff, newest first. */
  predicate SinceCandidate(x: Row, since: string) {
    x.applied && !x.rolledBack && StrLe(since, x.createdAt)
  }

  function RowNm(x: Row): int { x.nmId }

  /** `seen`: the first row of each product, in the order products first
      appear. */
  function FirstPerNm(s: seq<Row>): (r: Dict<int, Row>)
    ensures DistinctKeys(r)
    decreases |s|
  {
    if |s| == 0 then []
    else
      var acc := FirstPerNm(s[..|s| - 1]);
      var x := s[|s| - 1];
      if Get(acc, x.nmId).None? then
        GetNone(acc, x.nmId);
        Put(acc, x.nmId, x)
      else acc
  }

  /** The row kept for a product is its first row. */
  lemma {:induction false} FirstPerNmFirst(s: seq<Row>, nm: int)
    ensures Get(FirstPerNm(s), nm)
         == if |WithKey(s, RowNm, nm)| > 0 then Some(WithKey(s, RowNm, nm)[0]) else None
    decreases |s|
  {
    if |s| > 0 {
      var init := s[..|s| - 1];
      var x := s[|s| - 1];
      var acc := FirstPerNm(init);
      FirstPerNmFirst(init, nm);
      FirstPerNmFirst(init, x.nmId);
      if Get(acc, x.nmId).None? {
        GetPut(acc, x.nmId, x, nm);
      }
    }
  }

  /** The rows with one key of a sorted sequence are sorted. */
  lemma {:induction false} WithKeySorted(s: seq<Row>, nm: int)
    requires Sorted(s, NewerLe)
    ensures Sorted(WithKey(s, RowNm, nm), NewerLe)
    decreases |s|
  {
    if |s| > 0 {
      var init := s[..|s| - 1];
      assert Sorted(init, NewerLe);
      WithKeySorted(init, nm);
      var w := WithKey(init, RowNm, nm);
      var last := s[|s| - 1];
      if RowNm(last) == nm {
        var w' := w + [last];
        assert WithKey(s, RowNm, nm) == w';
        forall a, b | 0 <= a < b < |w'| ensures NewerLe(w'[a], w'[b]) {
          if b < |w| {
            assert w'[a] == w[a] && w'[b] == w[b];
          } else {
            assert w'[a] == w[a] && w[a] in w;
            var k :| 0 <= k < |init| && init[k] == w[a];
            assert s[k] == w[a];
          }
        }
      }
    }
  }

  function Seen(j: Journal, since: string): Dict<int, Row> {
    FirstPerNm(Query(j, (x: Row) => SinceCandidate(x, since), -1))
  }

  /** Only the newest candidate of each product is rolled back. */
  lemma SeenIsNewest(j: Journal, since: string, nm: int)
    ensures Get(Seen(j, since), nm).Some? <==> exists x | x in j.rows :: x.nmId == nm && SinceCandidate(x, since)
    ensures Get(Seen(j, since), nm).Some? ==>
      var y := Get(Seen(j, since), nm).value;
      y in j.rows && y.nmId == nm && SinceCandidate(y, since)
      && forall x | x in j.rows && x.nmId == nm && SinceCandidate(x, since) :: NewerLe(y, x)
  {
    var cands := Query(j, (x: Row) => SinceCandidate(x, since), -1);
    var w := WithKey(cands, RowNm, nm);
    FirstPerNmFirst(cands, nm);
    WithKeySorted(cands, nm);
    forall x | x in j.rows && x.nmId == nm && SinceCandidate(x, since) ensures x in w {
      WithKeyComplete(cands, RowNm, nm, x);
    }
    if |w| > 0 {
      assert w[0] in w;
      forall x | x in j.rows && x.nmId == nm && SinceCandidate(x, since) ensures NewerLe(w[0], x) {
        var k :| 0 <= k < |w| && w[k] == x;
        if k == 0 { assert x.id >= x.id; }
      }
    }
  }

  /** The ids whose rollback succeeded among the first `n` products. */
  function Succeeded(seen: Dict<int, Row>, fails: int -> bool): set<int> {
    set i | 0 <= i < |seen| && !fails(seen[i].0) :: seen[i].1.id
  }

  /** `rollback_since`: for each product's newest candidate, in order, call
      `update_price` with the old price and discount; mark it and report true
      on success, report false on failure. */
  method RollbackSince(j: Journal, since: string, fails: int -> bool)
    returns (j': Journal, results: Dict<int, bool>, calls: seq<PriceCall>)
    ensures var seen := Seen(j, since);
      |results| == |seen| == |calls|
      && (forall i | 0 <= i < |seen| ::
            results[i] == (seen[i].0, !fails(seen[i].0))
            && calls[i] == PriceCall(seen[i].0, seen[i].1.oldPrice, seen[i].1.oldDiscount))
      && j'.nextId == j.nextId && |j'.rows| == |j.rows|
      && forall k | 0 <= k < |j.rows| ::
           j'.rows[k] == j.rows[k].(rolledBack := j.rows[k].rolledBack || j.rows[k].id in Succeeded(seen, fails))
    ensures DistinctKeys(results)
  {
    var seen := Seen(j, since);
    j' := j;
    results := [];
    calls := [];
    for i := 0 to |seen|
      invariant |results| == i == |calls|
      invariant forall k | 0 <= k < i ::
        results[k] == (seen[k].0, !fails(seen[k].0))
        && calls[k] == PriceCall(seen[k].0, seen[k].1.oldPrice, seen[k].1.oldDiscount)
      invariant MarkedFor(j, j', Succeeded(seen[..i], fails))
    {
      var (nm, row) := seen[i];
      calls := calls + [PriceCall(nm, row.oldPrice, row.oldDiscount)];
      ghost var before := j';
      if !fails(nm) {
        j' := MarkRolledBack(j', row.id);
        results := results + [(nm, true)];
      } else {
        results := results + [(nm, false)];
      }
      MarkedStep(j, before, seen, i, fails);
    }
    assert seen[..|seen|] == seen;
  }

  /** `j'` is `j` with the rows whose id is in `ids` marked rolled back. */
  predicate MarkedFor(j: Journal, j': Journal, ids: set<int>) {
    j'.nextId == j.nextId && |j'.rows| == |j.rows|
    && forall k | 0 <= k < |j.rows| ::
         j'.rows[k] == j.rows[k].(rolledBack := j.rows[k].rolledBack || j.rows[k].id in ids)
  }

  /** One more product rolled back: its row joins the marked ones when the
      call succeeded. */
  lemma MarkedStep(j: Journal, j': Journal, seen: Dict<int, Row>, i: nat, fails: int -> bool)
    requires i < |seen| && MarkedFor(j, j', Succeeded(seen[..i], fails))
    ensures MarkedFor(j, if fails(seen[i].0) then j' else MarkRolledBack(j', seen[i].1.id), Succeeded(seen[..i + 1], fails))
  {
    SucceededStep(seen, i, fails);
  }

  lemma SucceededStep(seen: Dict<int, Row>, i: nat, fails: int -> bool)
    requires i < |seen|
    ensures Succeeded(seen[..i + 1], fails)
         == Succeeded(seen[..i], fails) + (if fails(seen[i].0) then {} else {seen[i].1.id})
  {
    var a := Succeeded(seen[..i + 1], fails);
    var b := Succeeded(seen[..i], fails) + (if fails(seen[i].0) then {} else {seen[i].1.id});
    forall id | id in a ensures id in b {
      var k :| 0 <= k < i + 1 && !fails(seen[..i + 1][k].0) && seen[..i + 1][k].1.id == id;
      if k < i { assert seen[..i][k] == seen[k]; }
    }
    forall id | id in b ensures id in a {
      if id in Succeeded(seen[..i], fails) {
        var k :| 0 <= k < i && !fails(seen[..i][k].0) && seen[..i][k].1.id == id;
        assert seen[..i + 1][k] == seen[k];
      } else {
        assert seen[..i + 1][i] == seen[i];
      }
    }
  }

  // ---------------------------------------------------------------------------
  // Statistics and purge
  // ---------------------------------------------------------------------------

  /** The earliest (or latest, with `latest`) timestamp. */
  function Extreme(s: seq<Row>, latest: bool): (r: Option<string>)
    ensures r.None? <==> |s| == 0
    ensures r.Some? ==> exists x | x in s :: x.createdAt == r.value
    ensures r.Some? ==> forall x | x in s ::
      if latest then StrLe(x.createdAt, r.value) else StrLe(r.value, x.createdAt)
    decreases |s|
  {
    if |s| == 0 then None
    else
      var rest := Extreme(s[1..], latest);
      var here := s[0].createdAt;
      StrLeTotal(here, here);
      if rest.None? then
        assert s == [s[0]];
        Some(here)
      else
        assert forall x | x in s :: x == s[0] || x in s[1..] by {
          forall x | x in s ensures x == s[0] || x in s[1..] {
            var k :| 0 <= k < |s| && s[k] == x;
            if k > 0 { assert s[1..][k - 1] == x; }
          }
        }
        var y :| y in s[1..] && y.createdAt == rest.value;
        assert y in s;
        StrLeTotal(here, rest.value);
        if (if latest then StrLe(rest.value, here) else StrLe(here, rest.value)) then
          forall x | x in s[1..] ensures if latest then StrLe(x.createdAt, here) else StrLe(here, x.createdAt) {
            if latest { StrLeTrans(x.createdAt, rest.value, here); }
            else { StrLeTrans(here, rest.value, x.createdAt); }
          }
          Some(here)
        else rest
  }

  datatype JournalStats = JournalStats(
    total: int,
    appliedCount: int,
    rolledBackCount: int,
    uniqueProducts: int,
    dateFirst: Option<string>,
    dateLast: Option<string>,
    byStrategy: Dict<string, int>)

  function StrategyOf(x: Row): string { x.strategyName }

  predicate CountGe<K>(a: (K, int), b: (K, int)) { a.1 >= b.1 }

  /** `stats()`. Strategy counts are listed most frequent first; among equal
      counts the order of first appearance is kept. */
  function Stats(j: Journal): (r: JournalStats)
    ensures r.total == |j.rows|
    ensures r.appliedCount == |Filter(j.rows, (x: Row) => x.applied)|
    ensures r.rolledBackCount == |Filter(j.rows, (x: Row) => x.rolledBack)|
    ensures r.uniqueProducts == |set x | x in j.rows :: x.nmId|
    ensures r.dateFirst == Extreme(j.rows, false) && r.dateLast == Extreme(j.rows, true)
    ensures multiset(r.byStrategy) == multiset(CountBy(j.rows, StrategyOf))
    ensures Sorted(r.byStrategy, CountGe)
  {
    CountGeTotalPreorder<string>();
    SortBySorted(CountBy(j.rows, StrategyOf), CountGe);
    JournalStats(
      |j.rows|,
      |Filter(j.rows, (x: Row) => x.applied)|,
      |Filter(j.rows, (x: Row) => x.rolledBack)|,
      |set x | x in j.rows :: x.nmId|,
      Extreme(j.rows, false),
      Extreme(j.rows, true),
      SortBy(CountBy(j.rows, StrategyOf), CountGe))
  }

  lemma {:induction false} SumValuesSnoc<K>(d: Dict<K, int>, e: (K, int))
    ensures SumValues(d + [e]) == SumValues(d) + e.1
    decreases |d|
  {
    if |d| > 0 {
      assert (d + [e])[1..] == d[1..] + [e];
      SumValuesSnoc(d[1..], e);
    }
  }

  lemma {:induction false} SumValuesInsert<K>(t: Dict<K, int>, e: (K, int))
    ensures SumValues(InsertSorted(t, e, CountGe)) == SumValues(t) + e.1
    decreases |t|
  {
    if |t| > 0 && CountGe(t[0], e) {
      SumValuesInsert(t[1..], e);
      assert InsertSorted(t, e, CountGe)[1..] == InsertSorted(t[1..], e, CountGe);
    }
  }

  lemma {:induction false} SumValuesSortBy<K>(d: Dict<K, int>)
    ensures SumValues(SortBy(d, CountGe)) == SumValues(d)
    decreases |d|
  {
    if |d| > 0 {
      var init := d[..|d| - 1];
      SumValuesSortBy(init);
      SumValuesInsert(SortBy(init, CountGe), d[|d| - 1]);
      SumValuesSnoc(init, d[|d| - 1]);
      assert init + [d[|d| - 1]] == d;
    }
  }

  lemma CountGeTotalPreorder<K(!new)>()
    ensures TotalPreorder(CountGe<K>)
  {
  }

  /** Strategies with equal counts keep their order of first appearance. */
  lemma StatsStable(j: Journal, y: (string, int))
    ensures TiedWith(Stats(j).byStrategy, CountGe, y) == TiedWith(CountBy(j.rows, StrategyOf), CountGe, y)
  {
    CountGeTotalPreorder<string>();
    SortByStable(CountBy(j.rows, StrategyOf), CountGe, y);
  }

  /** The per-strategy counts add up to the number of rows. */
  lemma StatsByStrategySum(j: Journal)
    ensures SumValues(Stats(j).byStrategy) == Stats(j).total
  {
    SumValuesSortBy(CountBy(j.rows, StrategyOf));
    CountBySum(j.rows, StrategyOf);
  }

  predicate NotOlder(x: Row, cutoff: string) { StrLe(cutoff, x.createdAt) }

  /** `purge_old`: delete the rows created before the cutoff; returns the
      number deleted. */
  function PurgeOld(j: Journal, cutoff: string): (r: (Journal, int))
    ensures r.0.nextId == j.nextId
    ensures r.0.rows == Filter(j.rows, (x: Row) => NotOlder(x, cutoff))
    ensures r.1 == |Filter(j.rows, (x: Row) => !NotOlder(x, cutoff))|
    ensures r.1 + |r.0.rows| == |j.rows|
  {
    var kept := Filter(j.rows, (x: Row) => NotOlder(x, cutoff));
    FilterPartition(j.rows, (x: Row) => NotOlder(x, cutoff), (x: Row) => !NotOlder(x, cutoff));
    (j.(rows := kept), |j.rows| - |kept|)
  }
}
