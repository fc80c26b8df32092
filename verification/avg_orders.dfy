/** `get_avg_orders_by_nm_ids` of managers/analytics.py: the average daily
    order speed per nmID. The analytics report is asked once per stock type
    and per batch of at most a thousand ids, and keeps the largest speed
    seen per nmID; ids still at zero fall back to the order history, and to
    the sales when no order helps. The three endpoints and the cache read
    are parameters. */
module AvgOrders {
  import opened Common
  import opened OrderedDict
  import opened Analytics

  // ---------------------------------------------------------------------------
  // The ids asked for
  // ---------------------------------------------------------------------------

  /** Strictly increasing: sorted and free of repeats. */
  predicate Ascending(s: seq<int>) {
    forall i, j | 0 <= i < j < |s| :: s[i] < s[j]
  }

  /** Adds `x` to an ascending list unless it is already there. */
  function InsertAsc(t: seq<int>, x: int): (r: seq<int>)
    requires Ascending(t)
    ensures Ascending(r)
    ensures forall y :: y in r <==> y in t || y == x
    decreases |t|
  {
    if |t| == 0 then [x]
    else if x < t[0] then [x] + t
    else if x == t[0] then t
    else
      var tail := t[1..];
      assert forall y :: y in t <==> y == t[0] || y in tail;
      var rest := InsertAsc(tail, x);
      assert forall j | 0 <= j < |rest| :: t[0] < rest[j] by {
        forall j | 0 <= j < |rest| ensures t[0] < rest[j] {
          assert rest[j] in rest;
        }
      }
      [t[0]] + rest
  }

  /** `sorted({int(nm) for nm in nm_ids if int(nm) > 0})`. */
  function ValidIds(ids: seq<int>): (r: seq<int>)
    ensures Ascending(r)
    ensures forall y :: y in r <==> y in ids && y > 0
    decreases |ids|
  {
    if |ids| == 0 then []
    else
      var init := ids[..|ids| - 1];
      var x := ids[|ids| - 1];
      assert forall y :: y in ids <==> y in init || y == x;
      var acc := ValidIds(init);
      if x > 0 then InsertAsc(acc, x) else acc
  }

  // ---------------------------------------------------------------------------
  // The analytics report
  // ---------------------------------------------------------------------------

  /** The `metrics` field of an item: a dict (possibly without `avgOrders`;
      a missing field reads as the empty dict) or something else. */
  datatype Metrics = MetricsDict(avgOrders: Option<real>) | NotDict

  /** One item of the analytics answer; `None` stands for a missing or falsy
      `avgOrders`. */
  datatype Item = Item(nmID: Value, nmId: Value, metrics: Metrics, avgOrders: Option<real>)

  /** `nmID`, else `nmId`, normalised. */
  function ItemId(it: Item): Option<int> {
    ToIntNmId(if it.nmID.Null? then it.nmId else it.nmID)
  }

  /** The speed an item reports: from its metrics dict, else from a
      top-level `avgOrders`, else 0. */
  function ItemAvg(it: Item): real {
    match it.metrics
    case MetricsDict(a) => a.GetOr(0.0)
    case NotDict => it.avgOrders.GetOr(0.0)
  }

  /** `float(result.get(k, 0) or 0)`. */
  function Lookup(m: map<int, real>, k: int): real {
    if k in m then m[k] else 0.0
  }

  /** `[stock_type]` for "", "wb" or "mp", else `[""]`; an empty stock type
      means all three. */
  function StockTypes(stockType: string): (r: seq<string>)
    ensures |r| > 0
    ensures forall i | 0 <= i < |r| :: r[i] in ["", "wb", "mp"]
  {
    if stockType == "" then ["", "wb", "mp"]
    else if stockType == "wb" || stockType == "mp" then [stockType]
    else [""]
  }

  /** The batch size of the analytics requests. */
  const BatchSize := 1000

  /** One analytics request per stock type and per batch, stock types
      outermost. */
  function Requests(types: seq<string>, batches: seq<seq<int>>): (r: seq<(string, seq<int>)>)
    ensures forall i | 0 <= i < |r| :: r[i].0 in types && r[i].1 in batches
    ensures forall t, b | t in types && b in batches :: (t, b) in r
    decreases |types|
  {
    if |types| == 0 then []
    else
      var rest := Requests(types[1..], batches);
      assert forall t | t in types :: t == types[0] || t in types[1..];
      var first := seq(|batches|, j requires 0 <= j < |batches| => (types[0], batches[j]));
      assert forall b | b in batches :: (types[0], b) in first by {
        forall b | b in batches ensures (types[0], b) in first {
          var j :| 0 <= j < |batches| && batches[j] == b;
          assert first[j] == (types[0], b);
        }
      }
      first + rest
  }

  /** All items of all answers, in request order. */
  function AllItems(reqs: seq<(string, seq<int>)>, answer: (string, seq<int>) -> seq<Item>): seq<Item> {
    Flatten(seq(|reqs|, i requires 0 <= i < |reqs| => answer(reqs[i].0, reqs[i].1)))
  }

  /** `result[nm_id] = max(prev, avg_orders)` over the items in order, items
      whose id does not normalise skipped. */
  function MergeMax(items: seq<Item>): map<int, real>
    decreases |items|
  {
    if |items| == 0 then map[]
    else
      var m := MergeMax(items[..|items| - 1]);
      var it := items[|items| - 1];
      match ItemId(it)
      case None => m
      case Some(k) => m[k := MaxReal(Lookup(m, k), ItemAvg(it))]
  }

  /** An id has a speed iff some item carries it; the speed is the largest
      any such item reports, and never below 0. */
  lemma MergeMaxValue(items: seq<Item>, k: int)
    ensures k in MergeMax(items) <==> exists i | 0 <= i < |items| :: ItemId(items[i]) == Some(k)
    ensures k in MergeMax(items) ==> MergeMax(items)[k] >= 0.0
    ensures forall i | 0 <= i < |items| && ItemId(items[i]) == Some(k) :: MergeMax(items)[k] >= ItemAvg(items[i])
    ensures k in MergeMax(items) && MergeMax(items)[k] > 0.0 ==>
      exists i | 0 <= i < |items| :: ItemId(items[i]) == Some(k) && ItemAvg(items[i]) == MergeMax(items)[k]
  {
    MergeMaxKeys(items, k);
    if k in MergeMax(items) {
      MergeMaxNonNegative(items, k);
      if MergeMax(items)[k] > 0.0 {
        MergeMaxAttained(items, k);
      }
    }
    forall i | 0 <= i < |items| && ItemId(items[i]) == Some(k) ensures MergeMax(items)[k] >= ItemAvg(items[i]) {
      MergeMaxUpper(items, k, i);
    }
  }

  lemma {:induction false} MergeMaxKeys(items: seq<Item>, k: int)
    ensures k in MergeMax(items) <==> exists i | 0 <= i < |items| :: ItemId(items[i]) == Some(k)
    decreases |items|
  {
    if |items| > 0 {
      var init := items[..|items| - 1];
      MergeMaxKeys(init, k);
      assert forall i | 0 <= i < |init| :: init[i] == items[i];
      if exists i | 0 <= i < |items| :: ItemId(items[i]) == Some(k) {
        var i :| 0 <= i < |items| && ItemId(items[i]) == Some(k);
        if i < |init| {
          assert ItemId(init[i]) == Some(k);
        }
      }
    }
  }

  lemma {:induction false} MergeMaxNonNegative(items: seq<Item>, k: int)
    requires k in MergeMax(items)
    ensures MergeMax(items)[k] >= 0.0
    decreases |items|
  {
    var init := items[..|items| - 1];
    if k in MergeMax(init) {
      MergeMaxNonNegative(init, k);
    }
  }

  lemma {:induction false} MergeMaxUpper(items: seq<Item>, k: int, i: nat)
    requires i < |items| && ItemId(items[i]) == Some(k)
    ensures k in MergeMax(items) && MergeMax(items)[k] >= ItemAvg(items[i])
    decreases |items|
  {
    var init := items[..|items| - 1];
    if i < |init| {
      assert init[i] == items[i];
      MergeMaxUpper(init, k, i);
    }
  }

  lemma {:induction false} MergeMaxAttained(items: seq<Item>, k: int)
    requires k in MergeMax(items) && MergeMax(items)[k] > 0.0
    ensures exists i | 0 <= i < |items| :: ItemId(items[i]) == Some(k) && ItemAvg(items[i]) == MergeMax(items)[k]
    decreases |items|
  {
    var last := |items| - 1;
    var init := items[..last];
    var m := MergeMax(init);
    var it := items[last];
    if ItemId(it) == Some(k) && MergeMax(items)[k] == ItemAvg(it) {
      assert ItemId(items[last]) == Some(k) && ItemAvg(items[last]) == MergeMax(items)[k];
    } else {
      assert k in m && MergeMax(items)[k] == m[k];
      MergeMaxAttained(init, k);
      var j :| 0 <= j < |init| && ItemId(init[j]) == Some(k) && ItemAvg(init[j]) == m[k];
      assert items[j] == init[j];
    }
  }

  // ---------------------------------------------------------------------------
  // The fallback
  // ---------------------------------------------------------------------------

  /** `float(qty or 1)` with `qty = row.get("quantity", 1)`. */
  function QtyReal(x: Row): real { QtyOr1(x) as real }

  /** The quantity the order history adds for nmID `k`. */
  function OrderQty(orders: seq<Row>, k: int): real {
    SumReal(WithKey(orders, NormId, Some(k)), QtyReal)
  }

  /** The quantity the sales add for nmID `k`: returns and cancellations
      skipped. */
  function SalesQty(sales: seq<Row>, k: int): real {
    SumReal(Filter(WithKey(sales, NormId, Some(k)), IsSale), QtyReal)
  }

  /** `any(v > 0 for v in qty_by_nm.values())` after the orders pass. */
  predicate AnyOrdered(missing: seq<int>, orders: seq<Row>) {
    exists j | j in missing :: OrderQty(orders, j) > 0.0
  }

  /** `qty_by_nm[k]` after both passes: the sales count only when the
      orders gave no missing id a positive quantity. */
  function Qty(missing: seq<int>, orders: seq<Row>, sales: seq<Row>, k: int): real {
    OrderQty(orders, k) + (if AnyOrdered(missing, orders) then 0.0 else SalesQty(sales, k))
  }

  /** The ids of the request still without a positive speed. */
  function Missing(valid: seq<int>, base: map<int, real>): (r: seq<int>)
    ensures forall k :: k in r <==> k in valid && Lookup(base, k) <= 0.0
  {
    var p := Unfilled(base);
    forall k | k in valid && p(k) ensures k in Filter(valid, p) {
      FilterComplete(valid, p, k);
    }
    Filter(valid, p)
  }

  function Unfilled(base: map<int, real>): int -> bool {
    k => Lookup(base, k) <= 0.0
  }

  /** The speeds after the fallback: a missing id with a positive quantity
      gets `round(qty / period_days, 4)`, every other entry stays. */
  function Fill(base: map<int, real>, missing: seq<int>, orders: seq<Row>, sales: seq<Row>, periodDays: nat): (r: map<int, real>)
    requires periodDays > 0
    ensures forall k | k in base && k !in missing :: k in r && r[k] == base[k]
    ensures forall k | k in missing && Qty(missing, orders, sales, k) > 0.0 ::
      k in r && r[k] == RoundTo(Qty(missing, orders, sales, k) / periodDays as real, 10000)
    ensures forall k | k in missing && Qty(missing, orders, sales, k) <= 0.0 :: Lookup(r, k) == Lookup(base, k)
    ensures forall k | k in r ::
      ((k in base && r[k] == base[k])
       || (k in missing && Qty(missing, orders, sales, k) > 0.0
           && r[k] == RoundTo(Qty(missing, orders, sales, k) / periodDays as real, 10000)))
  {
    var filled := set k | k in missing && Qty(missing, orders, sales, k) > 0.0;
    map k | k in base.Keys + filled ::
      if k in filled then RoundTo(Qty(missing, orders, sales, k) / periodDays as real, 10000) else base[k]
  }

  // ---------------------------------------------------------------------------
  // The whole call
  // ---------------------------------------------------------------------------

  /** The returned speeds, whether the endpoints were asked, and whether the
      result is written to the cache. */
  datatype AvgOutcome = AvgOutcome(result: map<int, real>, fetched: bool, store: bool)

  /** `get_avg_orders_by_nm_ids(nm_ids, days, stock_type)`. `cached` is what
      the cache read returned, `answer` the analytics endpoint for a stock
      type and a batch (an exception reads as no items), `orders` and
      `sales` the fallback histories. */
  function AvgOrdersByNmIds(ids: seq<int>, days: int, stockType: string, cached: Option<seq<(Value, Value)>>,
                            answer: (string, seq<int>) -> seq<Item>, orders: seq<Row>, sales: seq<Row>): (r: AvgOutcome)
    ensures |ValidIds(ids)| == 0 ==> r == AvgOutcome(map[], false, false)
    ensures |ValidIds(ids)| > 0 && |NormalizeAvgOrders(cached)| > 0 ==> r == AvgOutcome(NormalizeAvgOrders(cached), false, false)
    ensures r.fetched <==> |ValidIds(ids)| > 0 && |NormalizeAvgOrders(cached)| == 0
    ensures r.store <==> r.fetched && exists k | k in r.result :: r.result[k] > 0.0
  {
    var valid := ValidIds(ids);
    if |valid| == 0 then AvgOutcome(map[], false, false)
    else if |NormalizeAvgOrders(cached)| > 0 then AvgOutcome(NormalizeAvgOrders(cached), false, false)
    else
      var result := Speeds(valid, days, stockType, answer, orders, sales);
      AvgOutcome(result, true, exists k | k in result :: result[k] > 0.0)
  }

  /** The speeds computed on a cache miss. */
  function Speeds(valid: seq<int>, days: int, stockType: string,
                  answer: (string, seq<int>) -> seq<Item>, orders: seq<Row>, sales: seq<Row>): map<int, real>
  {
    var base := Base(valid, stockType, answer);
    Fill(base, Missing(valid, base), orders, sales, Max(days, 1))
  }

  /** Every analytics request carries a non-empty batch of at most a
      thousand ids under one of the stock types; every stock type is asked
      for every batch, and the batches are the ids in order. */
  lemma AnalyticsRequests(valid: seq<int>, stockType: string)
    ensures var reqs := Requests(StockTypes(stockType), Chunks(valid, BatchSize));
      (forall i | 0 <= i < |reqs| :: 0 < |reqs[i].1| <= BatchSize && reqs[i].0 in StockTypes(stockType))
      && (forall t, b | t in StockTypes(stockType) && b in Chunks(valid, BatchSize) :: (t, b) in reqs)
      && Flatten(Chunks(valid, BatchSize)) == valid
  {
    var batches := Chunks(valid, BatchSize);
    var reqs := Requests(StockTypes(stockType), batches);
    forall i | 0 <= i < |reqs| ensures 0 < |reqs[i].1| <= BatchSize {
      assert reqs[i].1 in batches;
      var j :| 0 <= j < |batches| && batches[j] == reqs[i].1;
    }
    FlattenChunks(valid, BatchSize);
  }

  /** The analytics speeds of the requests. */
  function Base(valid: seq<int>, stockType: string, answer: (string, seq<int>) -> seq<Item>): map<int, real> {
    MergeMax(AllItems(Requests(StockTypes(stockType), Chunks(valid, BatchSize)), answer))
  }

  /** No computed speed is negative. */
  lemma SpeedsNonNegative(valid: seq<int>, days: int, stockType: string,
                          answer: (string, seq<int>) -> seq<Item>, orders: seq<Row>, sales: seq<Row>, k: int)
    requires k in Speeds(valid, days, stockType, answer, orders, sales)
    ensures Speeds(valid, days, stockType, answer, orders, sales)[k] >= 0.0
  {
    var items := AllItems(Requests(StockTypes(stockType), Chunks(valid, BatchSize)), answer);
    var base := Base(valid, stockType, answer);
    assert base == MergeMax(items);
    MergeMaxValue(items, k);
    FillNonNegative(base, Missing(valid, base), orders, sales, Max(days, 1), k);
  }

  /** The fallback keeps a non-negative speed non-negative and adds only
      non-negative ones. */
  lemma FillNonNegative(base: map<int, real>, missing: seq<int>, orders: seq<Row>, sales: seq<Row>, period: nat, k: int)
    requires period > 0
    requires k in base ==> base[k] >= 0.0
    requires k in Fill(base, missing, orders, sales, period)
    ensures Fill(base, missing, orders, sales, period)[k] >= 0.0
  {
    var r := Fill(base, missing, orders, sales, period);
    var q := Qty(missing, orders, sales, k);
    if !(k in base && r[k] == base[k]) {
      assert q > 0.0 && r[k] == RoundTo(q / period as real, 10000);
      DivNonNegative(q, period as real);
      RoundToNonNegative(q / period as real, 10000);
    }
  }

  lemma DivNonNegative(x: real, y: real)
    requires x >= 0.0 && y > 0.0
    ensures x / y >= 0.0
  {
  }


  /** An id with a positive analytics speed keeps it, and so does any id
      outside the request. */
  lemma SpeedsKeepAnalytics(valid: seq<int>, days: int, stockType: string,
                            answer: (string, seq<int>) -> seq<Item>, orders: seq<Row>, sales: seq<Row>, k: int)
    requires k in Base(valid, stockType, answer)
    requires Base(valid, stockType, answer)[k] > 0.0 || k !in valid
    ensures k in Speeds(valid, days, stockType, answer, orders, sales)
    ensures Speeds(valid, days, stockType, answer, orders, sales)[k] == Base(valid, stockType, answer)[k]
  {
  }

  /** A requested id at zero takes `round(qty / period_days, 4)` when its
      fallback quantity is positive and stays at zero otherwise. */
  lemma SpeedsFallback(valid: seq<int>, days: int, stockType: string,
                       answer: (string, seq<int>) -> seq<Item>, orders: seq<Row>, sales: seq<Row>, k: int)
    requires k in valid && Lookup(Base(valid, stockType, answer), k) <= 0.0
    ensures var missing := Missing(valid, Base(valid, stockType, answer));
      var q := Qty(missing, orders, sales, k);
      var r := Speeds(valid, days, stockType, answer, orders, sales);
      (q > 0.0 ==> k in r && r[k] == RoundTo(q / Max(days, 1) as real, 10000))
      && (q <= 0.0 ==> Lookup(r, k) == Lookup(Base(valid, stockType, answer), k))
  {
  }
}
