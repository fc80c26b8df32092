/** The inventory manager (managers/inventory.py): seller-warehouse (FBS)
    stocks fetched by size id in batches and joined with the size mapping,
    Wildberries-warehouse (FBO) stocks paged by a `lastChangeDate`
    watermark, the FBO fetch chain (cache, statistics, fallback), grouping
    by warehouse, and per-product totals. */
module Inventory {
  import opened Common
  import opened OrderedDict

  // ---------------------------------------------------------------------------
  // Records
  // ---------------------------------------------------------------------------

  /** One FBO stock record; `None` is a key the upstream left out. */
  datatype FboStock = FboStock(
    nmId: Option<int>,
    supplierArticle: Option<string>,
    quantity: Option<int>,
    stockCount: Option<int>,
    warehouseName: Option<string>,
    lastChangeDate: Option<string>)

  /** What the size mapping knows about one size id (chrtID). */
  datatype ChrtInfo = ChrtInfo(
    nmId: Option<int>, vendorCode: string, title: string, brand: string, techSize: string, wbSize: string)

  /** One FBS stock record. */
  datatype FbsStock = FbsStock(
    chrtId: Option<int>,
    amount: int,
    nmId: Option<int>,
    vendorCode: string,
    title: string,
    brand: string,
    techSize: string,
    wbSize: string)

  // ---------------------------------------------------------------------------
  // FBS: one warehouse
  // ---------------------------------------------------------------------------

  /** The answer to one `/api/v3/stocks/{warehouse}` request. */
  datatype StocksResponse =
    | StocksDict(stocks: seq<FbsStock>)
    | StocksList(items: seq<FbsStock>)
    | StocksOther
    | StocksRaised

  const StocksBatchSize: nat := 1000

  /** A stock whose size id is known gets the mapping's fields; any other
      stock gets an empty product identity. */
  function Enrich(s: FbsStock, mapping: Dict<int, ChrtInfo>): (r: FbsStock)
    ensures r.chrtId == s.chrtId && r.amount == s.amount
    ensures Truthy(s.chrtId) && Get(mapping, s.chrtId.value).Some? ==>
      var info := Get(mapping, s.chrtId.value).value;
      r.nmId == info.nmId && r.vendorCode == info.vendorCode && r.title == info.title
      && r.brand == info.brand && r.techSize == info.techSize && r.wbSize == info.wbSize
    ensures !(Truthy(s.chrtId) && Get(mapping, s.chrtId.value).Some?) ==>
      r.nmId == None && r.vendorCode == "" && r.title == "" && r.brand == ""
      && r.techSize == s.techSize && r.wbSize == s.wbSize
  {
    if Truthy(s.chrtId) && Get(mapping, s.chrtId.value).Some? then
      var info := Get(mapping, s.chrtId.value).value;
      s.(nmId := info.nmId, vendorCode := info.vendorCode, title := info.title,
         brand := info.brand, techSize := info.techSize, wbSize := info.wbSize)
    else
      s.(nmId := None, vendorCode := "", title := "", brand := "")
  }

  function EnrichAll(ss: seq<FbsStock>, mapping: Dict<int, ChrtInfo>): (r: seq<FbsStock>)
    ensures |r| == |ss|
    ensures forall i | 0 <= i < |ss| :: r[i] == Enrich(ss[i], mapping)
  {
    seq(|ss|, i requires 0 <= i < |ss| => Enrich(ss[i], mapping))
  }

  function MappingKeys(mapping: Dict<int, ChrtInfo>): (r: seq<int>)
    ensures |r| == |mapping|
    ensures forall i | 0 <= i < |r| :: r[i] == mapping[i].0
  {
    seq(|mapping|, i requires 0 <= i < |mapping| => mapping[i].0)
  }

  /** The stocks one batch contributes: a dict answer is enriched, a list is
      taken as it is, anything else contributes nothing; `None` when the
      request raised. */
  function BatchStocks(resp: StocksResponse, mapping: Dict<int, ChrtInfo>): Option<seq<FbsStock>>
  {
    match resp
    case StocksDict(ss) => Some(EnrichAll(ss, mapping))
    case StocksList(items) => Some(items)
    case StocksOther => Some([])
    case StocksRaised => None
  }

  /** The batches in order; any raised request loses everything. */
  function CollectBatches(batches: seq<seq<int>>, respond: seq<int> -> StocksResponse,
                          mapping: Dict<int, ChrtInfo>): (r: Option<seq<FbsStock>>)
    ensures r.None? <==> exists k | 0 <= k < |batches| :: respond(batches[k]).StocksRaised?
    decreases |batches|
  {
    if |batches| == 0 then Some([])
    else
      var first := BatchStocks(respond(batches[0]), mapping);
      var rest := CollectBatches(batches[1..], respond, mapping);
      assert forall k | 1 <= k < |batches| :: batches[1..][k - 1] == batches[k];
      if first.None? || rest.None? then None else Some(first.value + rest.value)
  }

  /** `get_stocks(warehouse_id, chrt_ids)`: `respond` answers the request for
      one batch of size ids. With no size ids given, every id of the mapping is
      asked for. */
  function GetStocks(chrtIds: Option<seq<int>>, mapping: Dict<int, ChrtInfo>,
                     respond: seq<int> -> StocksResponse): (r: seq<FbsStock>)
    ensures chrtIds.GetOr(MappingKeys(mapping)) == [] ==> r == []
    ensures (exists k | 0 <= k < |Chunks(chrtIds.GetOr(MappingKeys(mapping)), StocksBatchSize)| ::
               respond(Chunks(chrtIds.GetOr(MappingKeys(mapping)), StocksBatchSize)[k]).StocksRaised?)
            ==> r == []
  {
    var ids := chrtIds.GetOr(MappingKeys(mapping));
    if ids == [] then []
    else CollectBatches(Chunks(ids, StocksBatchSize), respond, mapping).GetOr([])
  }

  /** The stocks of each dict answer, in request order. */
  function DictPages(batches: seq<seq<int>>, respond: seq<int> -> StocksResponse): (r: seq<seq<FbsStock>>)
    requires forall k | 0 <= k < |batches| :: respond(batches[k]).StocksDict?
  {
    seq(|batches|, k requires 0 <= k < |batches| => respond(batches[k]).stocks)
  }

  /** When every answer is a dict, the result is the answers' stocks enriched,
      in request order; and the requests cover the size ids in order, each
      once, at most 1000 per request. */
  lemma {:induction false} CollectDictBatches(batches: seq<seq<int>>, respond: seq<int> -> StocksResponse,
                                              mapping: Dict<int, ChrtInfo>)
    requires forall k | 0 <= k < |batches| :: respond(batches[k]).StocksDict?
    ensures CollectBatches(batches, respond, mapping) == Some(EnrichAll(Flatten(DictPages(batches, respond)), mapping))
    decreases |batches|
  {
    if |batches| > 0 {
      var rest := batches[1..];
      assert forall k | 0 <= k < |rest| :: rest[k] == batches[k + 1];
      CollectDictBatches(rest, respond, mapping);
      var first := respond(batches[0]).stocks;
      DictPagesCons(batches, respond);
      var flat := Flatten(DictPages(rest, respond));
      FlattenAppend([first], DictPages(rest, respond));
      FlattenSingle(first);
      assert Flatten(DictPages(batches, respond)) == first + flat;
      EnrichAllAppend(first, flat, mapping);
      assert BatchStocks(respond(batches[0]), mapping) == Some(EnrichAll(first, mapping));
    } else {
      assert DictPages(batches, respond) == [];
    }
  }

  lemma DictPagesCons(batches: seq<seq<int>>, respond: seq<int> -> StocksResponse)
    requires |batches| > 0 && forall k | 0 <= k < |batches| :: respond(batches[k]).StocksDict?
    ensures forall k | 0 <= k < |batches| - 1 :: respond(batches[1..][k]).StocksDict?
    ensures DictPages(batches, respond) == [respond(batches[0]).stocks] + DictPages(batches[1..], respond)
  {
    assert forall k | 0 <= k < |batches| - 1 :: batches[1..][k] == batches[k + 1];
  }

  lemma EnrichAllAppend(a: seq<FbsStock>, b: seq<FbsStock>, mapping: Dict<int, ChrtInfo>)
    ensures EnrichAll(a + b, mapping) == EnrichAll(a, mapping) + EnrichAll(b, mapping)
  {
  }

  /** The size-id batches requested by `GetStocks` cover the ids in order. */
  lemma GetStocksBatches(ids: seq<int>)
    ensures Flatten(Chunks(ids, StocksBatchSize)) == ids
    ensures forall k | 0 <= k < |Chunks(ids, StocksBatchSize)| :: 0 < |Chunks(ids, StocksBatchSize)[k]| <= 1000
  {
    FlattenChunks(ids, StocksBatchSize);
  }

  // ---------------------------------------------------------------------------
  // FBS: all warehouses
  // ---------------------------------------------------------------------------

  /** The entries the warehouse loop may store: a non-zero warehouse id with
      its own, non-empty stocks. */
  predicate WarehouseEntries(d: Dict<int, seq<FbsStock>>, stocksOf: int -> seq<FbsStock>) {
    forall i | 0 <= i < |d| :: d[i].1 != [] && d[i].1 == stocksOf(d[i].0) && d[i].0 != 0
  }

  /** `get_all_fbs_stocks()`: warehouse ids with their non-empty stocks;
      `stocksOf` answers `get_stocks(id, chrt_ids)`. */
  function GetAllFbsStocks(warehouses: seq<Option<int>>, chrtIds: seq<int>,
                           stocksOf: int -> seq<FbsStock>): (r: Dict<int, seq<FbsStock>>)
    ensures warehouses == [] || chrtIds == [] ==> r == []
    ensures forall i | 0 <= i < |r| :: r[i].1 != [] && r[i].1 == stocksOf(r[i].0) && r[i].0 != 0
    ensures chrtIds != [] ==>
      forall i | 0 <= i < |warehouses| ::
        (Truthy(warehouses[i]) && stocksOf(warehouses[i].value) != []
         ==> Get(r, warehouses[i].value) == Some(stocksOf(warehouses[i].value)))
  {
    if warehouses == [] || chrtIds == [] then []
    else
      CollectWarehousesEntries(warehouses, stocksOf);
      forall i | 0 <= i < |warehouses| && Truthy(warehouses[i]) && stocksOf(warehouses[i].value) != []
        ensures Get(CollectWarehouses(warehouses, stocksOf), warehouses[i].value) == Some(stocksOf(warehouses[i].value))
      {
        CollectWarehousesFound(warehouses, stocksOf, i);
      }
      CollectWarehouses(warehouses, stocksOf)
  }

  /** The warehouse loop: a truthy id with non-empty stocks is stored. */
  function CollectWarehouses(warehouses: seq<Option<int>>, stocksOf: int -> seq<FbsStock>): Dict<int, seq<FbsStock>>
    decreases |warehouses|
  {
    if |warehouses| == 0 then []
    else
      var acc := CollectWarehouses(warehouses[..|warehouses| - 1], stocksOf);
      var w := warehouses[|warehouses| - 1];
      if Truthy(w) && stocksOf(w.value) != [] then Put(acc, w.value, stocksOf(w.value)) else acc
  }

  /** Only truthy ids with their own non-empty stocks are stored. */
  lemma {:induction false} CollectWarehousesEntries(warehouses: seq<Option<int>>, stocksOf: int -> seq<FbsStock>)
    ensures WarehouseEntries(CollectWarehouses(warehouses, stocksOf), stocksOf)
    decreases |warehouses|
  {
    if |warehouses| > 0 {
      var init := warehouses[..|warehouses| - 1];
      var w := warehouses[|warehouses| - 1];
      var acc := CollectWarehouses(init, stocksOf);
      CollectWarehousesEntries(init, stocksOf);
      if Truthy(w) && stocksOf(w.value) != [] {
        assert CollectWarehouses(warehouses, stocksOf) == Put(acc, w.value, stocksOf(w.value));
        PutEntries(acc, w.value, stocksOf(w.value), stocksOf);
      } else {
        assert CollectWarehouses(warehouses, stocksOf) == acc;
      }
    }
  }

  /** Every truthy id with non-empty stocks is stored with its stocks. */
  lemma {:induction false} CollectWarehousesFound(warehouses: seq<Option<int>>, stocksOf: int -> seq<FbsStock>, i: nat)
    requires i < |warehouses| && Truthy(warehouses[i]) && stocksOf(warehouses[i].value) != []
    ensures Get(CollectWarehouses(warehouses, stocksOf), warehouses[i].value) == Some(stocksOf(warehouses[i].value))
    decreases |warehouses|
  {
    var init := warehouses[..|warehouses| - 1];
    var w := warehouses[|warehouses| - 1];
    var acc := CollectWarehouses(init, stocksOf);
    var n := warehouses[i].value;
    if Truthy(w) && stocksOf(w.value) != [] {
      assert CollectWarehouses(warehouses, stocksOf) == Put(acc, w.value, stocksOf(w.value));
      GetPut(acc, w.value, stocksOf(w.value), n);
      if n != w.value {
        assert i < |init| && init[i] == warehouses[i];
        CollectWarehousesFound(init, stocksOf, i);
      }
    } else {
      assert CollectWarehouses(warehouses, stocksOf) == acc;
      assert i < |init| && init[i] == warehouses[i];
      CollectWarehousesFound(init, stocksOf, i);
    }
  }

  lemma {:induction false} PutEntries(d: Dict<int, seq<FbsStock>>, k: int, v: seq<FbsStock>, stocksOf: int -> seq<FbsStock>)
    requires WarehouseEntries(d, stocksOf)
    requires v != [] && v == stocksOf(k) && k != 0
    ensures WarehouseEntries(Put(d, k, v), stocksOf)
    decreases |d|
  {
    if |d| > 0 && d[0].0 != k {
      PutEntries(d[1..], k, v, stocksOf);
    }
  }

  // ---------------------------------------------------------------------------
  // Per-product totals
  // ---------------------------------------------------------------------------

  /** FBS and FBO quantities of one product; `name`/`article` are read from
      keys FBS records do not carry, so they are always empty. */
  datatype ProductTotal = ProductTotal(fbs: int, fbo: int, total: int, name: string, article: string)

  function StockNm(s: FbsStock): Option<int> { s.nmId }
  function StockAmount(s: FbsStock): int { s.amount }

  function AllFbs(fbs: Dict<int, seq<FbsStock>>): (r: seq<FbsStock>)
    decreases |fbs|
  {
    if |fbs| == 0 then [] else fbs[0].1 + AllFbs(fbs[1..])
  }

  /** What `get_fbo_stocks()` hands back to the totals code: the package
      version returns a list, and the totals code asks it for `regions`. */
  datatype FboData = FboList(stocks: seq<FboStock>) | FboRegions(regions: seq<int>)

  /** `fbo_data.get('regions', [])`: a list has no `.get`, so the call raises. */
  function RegionsOf(d: FboData): Option<seq<int>> {
    match d
    case FboList(_) => None
    case FboRegions(rs) => Some(rs)
  }

  /** `get_total_stocks_by_product()` exactly as the package writes it: the
      FBS sums are built, then reading `regions` from the FBO list raises and
      the handler returns `{}`. */
  function TotalStocksAsWritten(fbs: Dict<int, seq<FbsStock>>, fboStocks: seq<FboStock>): Dict<Option<int>, ProductTotal>
  {
    var partial := TotalStocksByProduct(fbs);
    match RegionsOf(FboList(fboStocks))
    case None => []
    case Some(_) => partial
  }

  /** The package totals are empty whatever the stocks are. */
  lemma TotalStocksAsWrittenIsEmpty(fbs: Dict<int, seq<FbsStock>>, fboStocks: seq<FboStock>)
    ensures TotalStocksAsWritten(fbs, fboStocks) == []
  {
  }

  /** A warehouse holding five units of one product: the package answer is
      empty, the intended answer counts the five units. */
  lemma TotalStocksAsWrittenLosesStock()
    ensures var s := FbsStock(Some(7), 5, Some(42), "A-1", "", "", "", "");
      TotalStocksAsWritten([(1, [s])], []) == []
      && Get(TotalStocksByProduct([(1, [s])]), Some(42)) == Some(ProductTotal(5, 0, 5, "", ""))
  {
    var s := FbsStock(Some(7), 5, Some(42), "A-1", "", "", "", "");
    assert AllFbs([(1, [s])]) == [s] by {
      assert [(1, [s])][1..] == [];
    }
    assert [s][..0] == [];
  }

  function MakeTotal(fbs: int): ProductTotal {
    ProductTotal(fbs, 0, fbs, "", "")
  }

  /** `get_total_stocks_by_product()` as intended (and as the older manager
      computes it): per product id, the FBS amounts summed over all warehouses;
      the FBO side is never filled, so `fbo` is 0 and `total` equals `fbs`. */
  function TotalStocksByProduct(fbs: Dict<int, seq<FbsStock>>): Dict<Option<int>, ProductTotal>
  {
    var sums := SumBy(AllFbs(fbs), StockNm, StockAmount);
    seq(|sums|, i requires 0 <= i < |sums| => (sums[i].0, MakeTotal(sums[i].1)))
  }

  lemma {:induction false} GetMapped(sums: Dict<Option<int>, int>, k: Option<int>)
    ensures Get(seq(|sums|, i requires 0 <= i < |sums| => (sums[i].0, MakeTotal(sums[i].1))), k)
         == if Get(sums, k).Some? then Some(MakeTotal(Get(sums, k).value)) else None
    decreases |sums|
  {
    if |sums| > 0 {
      var m := seq(|sums|, i requires 0 <= i < |sums| => (sums[i].0, MakeTotal(sums[i].1)));
      var m' := seq(|sums| - 1, i requires 0 <= i < |sums| - 1 => (sums[1..][i].0, MakeTotal(sums[1..][i].1)));
      assert m[1..] == m';
      GetMapped(sums[1..], k);
    }
  }

  /** Each product's total is the sum of its FBS amounts over every
      warehouse, and `total == fbs + fbo`; only products that occur have an
      entry. */
  lemma TotalStocksSum(fbs: Dict<int, seq<FbsStock>>, nm: Option<int>)
    ensures var all := WithKey(AllFbs(fbs), StockNm, nm);
      Get(TotalStocksByProduct(fbs), nm)
        == if |all| > 0 then Some(ProductTotal(SumInt(all, StockAmount), 0, SumInt(all, StockAmount), "", "")) else None
    ensures Get(TotalStocksByProduct(fbs), nm).Some? ==>
      var t := Get(TotalStocksByProduct(fbs), nm).value; t.total == t.fbs + t.fbo
  {
    SumByTotals(AllFbs(fbs), StockNm, StockAmount, nm);
    GetMapped(SumBy(AllFbs(fbs), StockNm, StockAmount), nm);
  }

  // ---------------------------------------------------------------------------
  // FBO: statistics watermark paging
  // ---------------------------------------------------------------------------

  /** The answer to one `/api/v1/supplier/stocks?dateFrom=...` request. */
  datatype StatsResponse = StatsList(records: seq<FboStock>) | StatsNotList | StatsRaised

  const StatisticsStart: string := "2019-06-20T00:00:00"
  const MaxIterations: nat := 100

  /** The loop stops after this answer to the request for watermark `wm`. */
  predicate StopsAt(resp: StatsResponse, wm: string) {
    !resp.StatsList? || |resp.records| == 0
    || !TruthyStr(resp.records[|resp.records| - 1].lastChangeDate)
    || resp.records[|resp.records| - 1].lastChangeDate.value == wm
  }

  /** The next watermark: the last record's `lastChangeDate`. */
  function NextWatermark(resp: StatsResponse, wm: string): string
    requires !StopsAt(resp, wm)
  {
    resp.records[|resp.records| - 1].lastChangeDate.value
  }

  /** The watermarks asked for, starting from `wm`, with `budget` requests left. */
  function Watermarks(fetch: string -> StatsResponse, wm: string, budget: nat): (r: seq<string>)
    ensures |r| <= budget
    ensures budget > 0 ==> |r| > 0 && r[0] == wm
    decreases budget
  {
    if budget == 0 then []
    else if StopsAt(fetch(wm), wm) then [wm]
    else [wm] + Watermarks(fetch, NextWatermark(fetch(wm), wm), budget - 1)
  }

  /** Each request after the first starts from the previous page's last
      `lastChangeDate`, which differs from the previous watermark; fewer
      requests than the budget means the last answer ended the loop. */
  lemma {:induction false} WatermarksChain(fetch: string -> StatsResponse, wm: string, budget: nat)
    ensures var r := Watermarks(fetch, wm, budget);
      forall k | 0 <= k < |r| - 1 ::
        !StopsAt(fetch(r[k]), r[k]) && r[k + 1] == NextWatermark(fetch(r[k]), r[k]) && r[k + 1] != r[k]
    ensures var r := Watermarks(fetch, wm, budget);
      0 < |r| < budget ==> StopsAt(fetch(r[|r| - 1]), r[|r| - 1])
    decreases budget
  {
    if budget > 0 && !StopsAt(fetch(wm), wm) {
      var next := NextWatermark(fetch(wm), wm);
      WatermarksChain(fetch, next, budget - 1);
      var r := Watermarks(fetch, wm, budget);
      var rest := Watermarks(fetch, next, budget - 1);
      assert r == [wm] + rest;
      forall k | 0 <= k < |r| - 1
        ensures !StopsAt(fetch(r[k]), r[k]) && r[k + 1] == NextWatermark(fetch(r[k]), r[k]) && r[k + 1] != r[k]
      {
        if k > 0 {
          assert r[k] == rest[k - 1] && r[k + 1] == rest[k];
        }
      }
    }
  }

  function Records(resp: StatsResponse): seq<FboStock> {
    if resp.StatsList? then resp.records else []
  }

  function PagesAt(fetch: string -> StatsResponse, wms: seq<string>): (r: seq<seq<FboStock>>)
    ensures |r| == |wms|
    ensures forall k | 0 <= k < |wms| :: r[k] == Records(fetch(wms[k]))
  {
    seq(|wms|, k requires 0 <= k < |wms| => Records(fetch(wms[k])))
  }

  /** `_get_fbo_stocks_statistics()`: at most 100 requests, each from the last
      record's `lastChangeDate` of the previous page; stops on a non-list, an
      empty page, a missing or unchanged watermark. A raised request ends the
      loop like a non-list answer. Returns the collected records and the
      watermarks requested. */
  method FetchStatistics(fetch: string -> StatsResponse) returns (stocks: seq<FboStock>, asked: seq<string>)
    ensures asked == Watermarks(fetch, StatisticsStart, MaxIterations)
    ensures 1 <= |asked| <= MaxIterations && asked[0] == StatisticsStart
    ensures stocks == Flatten(PagesAt(fetch, asked))
  {
    stocks, asked := FetchFrom(fetch, StatisticsStart, MaxIterations);
  }

  /** The paging loop from watermark `start` with `limit` requests allowed. */
  method FetchFrom(fetch: string -> StatsResponse, start: string, limit: nat) returns (stocks: seq<FboStock>, asked: seq<string>)
    ensures asked == Watermarks(fetch, start, limit)
    ensures stocks == Flatten(PagesAt(fetch, asked))
  {
    ghost var all := Watermarks(fetch, start, limit);
    stocks := [];
    asked := [];
    var wm := start;
    var budget: nat := limit;
    ghost var todo := all;
    var done := false;
    while !done && budget > 0
      invariant asked + todo == all
      invariant !done ==> todo == Watermarks(fetch, wm, budget)
      invariant done ==> todo == []
      invariant stocks == Flatten(PagesAt(fetch, asked))
      decreases budget
    {
      var resp := fetch(wm);
      FetchStep(fetch, asked, todo, all, wm, budget);
      PagesAtSnoc(fetch, asked, wm);
      asked := asked + [wm];
      stocks := stocks + Records(resp);
      todo := todo[1..];
      budget := budget - 1;
      if StopsAt(resp, wm) {
        done := true;
      } else {
        wm := NextWatermark(resp, wm);
      }
    }
    if !done {
      assert todo == [];
    }
  }

  lemma FetchStep(fetch: string -> StatsResponse, asked: seq<string>, todo: seq<string>,
                  all: seq<string>, wm: string, budget: nat)
    requires budget > 0
    requires asked + todo == all && todo == Watermarks(fetch, wm, budget)
    ensures |todo| > 0 && (asked + [wm]) + todo[1..] == all
    ensures todo[1..] == if StopsAt(fetch(wm), wm) then [] else Watermarks(fetch, NextWatermark(fetch(wm), wm), budget - 1)
  {
    WatermarksTail(fetch, wm, budget);
    ShiftFirst(asked, todo, all);
  }

  /** Dropping the first watermark leaves the ones asked for after it. */
  lemma WatermarksTail(fetch: string -> StatsResponse, wm: string, budget: nat)
    requires budget > 0
    ensures var r := Watermarks(fetch, wm, budget);
      |r| > 0 && r[0] == wm
      && r[1..] == if StopsAt(fetch(wm), wm) then [] else Watermarks(fetch, NextWatermark(fetch(wm), wm), budget - 1)
  {
    WatermarksUnfold(fetch, wm, budget);
  }

  lemma ShiftFirst<T>(asked: seq<T>, todo: seq<T>, all: seq<T>)
    requires asked + todo == all && |todo| > 0
    ensures (asked + [todo[0]]) + todo[1..] == all
  {
    assert todo == [todo[0]] + todo[1..];
  }

  lemma WatermarksUnfold(fetch: string -> StatsResponse, wm: string, budget: nat)
    requires budget > 0
    ensures Watermarks(fetch, wm, budget)
         == [wm] + if StopsAt(fetch(wm), wm) then [] else Watermarks(fetch, NextWatermark(fetch(wm), wm), budget - 1)
  {
  }

  lemma PagesAtSnoc(fetch: string -> StatsResponse, asked: seq<string>, wm: string)
    ensures Flatten(PagesAt(fetch, asked + [wm])) == Flatten(PagesAt(fetch, asked)) + Records(fetch(wm))
  {
    assert PagesAt(fetch, asked + [wm]) == PagesAt(fetch, asked) + [Records(fetch(wm))];
    FlattenAppend(PagesAt(fetch, asked), [Records(fetch(wm))]);
    FlattenSingle(Records(fetch(wm)));
  }

  // ---------------------------------------------------------------------------
  // FBO: fetch chain
  // ---------------------------------------------------------------------------

  /** What one call of `get_fbo_stocks` answers and what it writes to the cache. */
  datatype FboFetch = FboFetch(stocks: seq<FboStock>, cacheWrite: Option<seq<FboStock>>)

  /** `get_fbo_stocks(use_cache, force_refresh)`: `cached` is the cache's
      answer, `statistics` and `fallback` what the two sources return (both
      swallow their own errors and return `[]`). */
  function GetFboStocks(useCache: bool, forceRefresh: bool, cached: Option<seq<FboStock>>,
                        statistics: seq<FboStock>, fallback: seq<FboStock>): (r: FboFetch)
    ensures !forceRefresh && useCache && cached.Some? ==> r == FboFetch(cached.value, None)
    ensures !(!forceRefresh && useCache && cached.Some?) ==>
      (statistics != [] ==> r == FboFetch(statistics, Some(statistics)))
      && (statistics == [] && fallback != [] ==> r == FboFetch(fallback, Some(fallback)))
      && (statistics == [] && fallback == [] ==> r == FboFetch([], None))
    ensures r.cacheWrite.Some? ==> r.cacheWrite.value != [] && r.cacheWrite.value == r.stocks
  {
    if !forceRefresh && useCache && cached.Some? then FboFetch(cached.value, None)
    else if statistics != [] then FboFetch(statistics, Some(statistics))
    else if fallback != [] then FboFetch(fallback, Some(fallback))
    else FboFetch([], None)
  }

  /** Whatever a fetch wrote to the cache is what the next cached call answers. */
  lemma GetFboStocksServesCached(first: FboFetch, statistics: seq<FboStock>, fallback: seq<FboStock>)
    requires first.cacheWrite.Some?
    ensures GetFboStocks(true, false, first.cacheWrite, statistics, fallback).stocks == first.cacheWrite.value
    ensures GetFboStocks(true, false, first.cacheWrite, statistics, fallback).cacheWrite == None
  {
  }

  /** One product group of the analytics stock report. */
  datatype StockGroup = StockGroup(nmId: Option<int>, stocks: seq<int>)

  function SumNat(xs: seq<int>): int
    decreases |xs|
  {
    if |xs| == 0 then 0 else SumNat(xs[..|xs| - 1]) + xs[|xs| - 1]
  }

  /** `_get_fbo_stocks_analytics_fallback()` after paging: one record per
      group with the article from the card mapping (`''` if unknown) and the
      group's stock summed. */
  function FallbackRows(articles: Dict<int, string>, groups: seq<StockGroup>): (r: seq<FboStock>)
    ensures |r| == |groups|
    ensures forall i | 0 <= i < |groups| ::
      r[i].nmId == groups[i].nmId && r[i].stockCount == Some(SumNat(groups[i].stocks))
      && r[i].supplierArticle == Some(if groups[i].nmId.Some? then Get(articles, groups[i].nmId.value).GetOr("") else "")
  {
    seq(|groups|, i requires 0 <= i < |groups| =>
      var g := groups[i];
      FboStock(g.nmId,
               Some(if g.nmId.Some? then Get(articles, g.nmId.value).GetOr("") else ""),
               None, Some(SumNat(g.stocks)), None, None))
  }

  // ---------------------------------------------------------------------------
  // FBO: grouping by warehouse
  // ---------------------------------------------------------------------------

  const UnknownWarehouse: string := "Неизвестно"

  function WarehouseOf(s: FboStock): string {
    s.warehouseName.GetOr(UnknownWarehouse)
  }

  /** `get_fbo_stocks_by_warehouse(stocks)`. */
  function ByWarehouse(stocks: seq<FboStock>): Dict<string, seq<FboStock>> {
    GroupBy(stocks, WarehouseOf)
  }

  /** Every record lands under its warehouse (missing name: "Неизвестно"),
      each group keeps input order, and a warehouse has a group iff some
      record names it. */
  lemma ByWarehouseGroups(stocks: seq<FboStock>, w: string)
    ensures Get(ByWarehouse(stocks), w)
         == if |WithKey(stocks, WarehouseOf, w)| > 0 then Some(WithKey(stocks, WarehouseOf, w)) else None
  {
    GroupByGroups(stocks, WarehouseOf, w);
  }
}
