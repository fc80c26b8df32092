/** The legacy single-file manager (managers.py), which the managers/ package
    shadows at import time but which stays in the repository: its dict
    cache and sales fetch, the FBO office report, and the detailed FBO
    report joined with the card list. Its cache key is Cache.LegacyKey, its
    weekly sales loop Analytics.Paginate, and its size-id walk the one of
    Products.CardWalk. */
module Legacy {
  import opened Common
  import opened OrderedDict
  import Cache
  import Inventory
  import Products

  // ---------------------------------------------------------------------------
  // The dict cache and get_sales
  // ---------------------------------------------------------------------------

  /** `self._cache_ttl`, in seconds. */
  const CacheTtl: real := 600.0

  /** The `_cache` dict of a new manager: key → (data, time stored). */
  function NewCache<V>(): Cache.MemoryCache<V> {
    Cache.MemoryCache(map[], CacheTtl)
  }

  /** What one `get_sales` call answers, whether it called the API, and the
      cache afterwards. */
  datatype Sales<T> = Sales(cache: Cache.MemoryCache<seq<T>>, result: seq<T>, called: bool)

  /** `get_sales` of the legacy manager: `_get_cached` at `now`; on a miss
      the API's answer (`None` when it is not a list, read as `[]`) is
      stored by `_set_cached` at `after`, the time the answer came back,
      whatever it is. */
  function GetSales<T>(c: Cache.MemoryCache<seq<T>>, key: string, now: real, after: real,
                       response: Option<seq<T>>): (r: Sales<T>)
    ensures !r.called <==> Cache.MemFresh(c, key, now) && c.store[key].data.Some?
    ensures !r.called ==> r.cache == c && r.result == c.store[key].data.value
    ensures r.called ==> r.result == response.GetOr([])
    ensures r.called ==> key in r.cache.store && r.cache.store[key] == Cache.Entry(Some(r.result), after)
    ensures r.cache.ttl == c.ttl
  {
    var (c1, cached) := Cache.MemGet(c, key, now);
    if cached.Some? then Sales(c1, cached.value, false)
    else
      var result := response.GetOr([]);
      Sales(Cache.MemSet(c1, key, Some(result), after), result, true)
  }

  /** Every answer is cached, an empty one included: a repeated call is
      served from the cache, without calling the API, exactly while it comes
      less than the ttl after the first answer was stored. */
  lemma GetSalesCachesEverything<T>(c: Cache.MemoryCache<seq<T>>, key: string, now: real, after: real,
                                    response: Option<seq<T>>, later: real, response': Option<seq<T>>)
    requires GetSales(c, key, now, after, response).called
    ensures var first := GetSales(c, key, now, after, response);
      var second := GetSales(first.cache, key, later, later, response');
      (!second.called <==> later - after < c.ttl)
      && (!second.called ==> second.result == response.GetOr([]))
  {
  }

  /** The contrast with the package's `get_sales` (Analytics.GetSales), which
      never stores an empty answer: here an empty answer is served again for
      ten minutes. */
  lemma EmptyAnswerServed<T>(key: string, now: real)
    ensures var first := GetSales(NewCache<seq<T>>(), key, now, now, Some([]));
      first.called && !GetSales(first.cache, key, now + 599.0, now + 599.0, None).called
      && GetSales(first.cache, key, now + 599.0, now + 599.0, None).result == []
  {
    GetSalesCachesEverything(NewCache<seq<T>>(), key, now, now, Some([]), now + 599.0, None);
  }

  // ---------------------------------------------------------------------------
  // get_fbo_stocks
  // ---------------------------------------------------------------------------

  /** The answer of the office stock report: a dict carrying `data`, any
      other answer, or an exception. */
  datatype OfficesAnswer<D> = WithData(data: D) | WithoutData | Raised

  /** `get_fbo_stocks()` of the legacy manager: the report's `data`, or
      `None` standing for the `{"regions": []}` default. */
  function FboStocks<D>(answer: OfficesAnswer<D>): (r: Option<D>)
    ensures r.Some? <==> answer.WithData?
    ensures r.Some? ==> r.value == answer.data
  {
    match answer
    case WithData(d) => Some(d)
    case WithoutData => None
    case Raised => None
  }

  // ---------------------------------------------------------------------------
  // get_fbo_stocks_detailed
  // ---------------------------------------------------------------------------

  /** What the product mapping records for a card. */
  datatype ProductInfo = ProductInfo(vendorCode: string, title: string, brand: string, subjectName: string, nmId: int)

  /** The assignments `product_mapping[nm_id] = {...}` made for some cards,
      in order: one per card whose nmID is truthy. */
  function ProductPairs(cards: seq<Products.Card>): seq<(int, ProductInfo)>
    decreases |cards|
  {
    if |cards| == 0 then []
    else
      var c := cards[|cards| - 1];
      ProductPairs(cards[..|cards| - 1])
      + (if Truthy(c.nmId) then [(c.nmId.value, ProductInfo(c.vendorCode, c.title, c.brand, c.subjectName, c.nmId.value))] else [])
  }

  function ProductMapping(cards: seq<Products.Card>): Dict<int, ProductInfo> {
    FromPairs(ProductPairs(cards))
  }

  /** `len(product_mapping) >= total`: this loop stops on the number of
      distinct products mapped, not on the number of cards seen. */
  predicate ProductsReached(seen: seq<Products.Card>, total: int) {
    |ProductMapping(seen)| >= total
  }

  /** The mapping walk of `get_fbo_stocks_detailed`: the card-list loop
      without the error-flag check, stopping on the mapping's size. */
  function ProductWalk(fetch: Products.Cursor -> Products.Response, fuel: nat): Option<Products.Walk> {
    Products.Crawl(fetch, false, ProductsReached, Products.First, [], fuel)
  }

  /** An assignment is made for an nmID iff some card carries it and it is
      non-zero. */
  lemma {:induction false} ProductPairsKeys(cards: seq<Products.Card>, n: int)
    ensures (exists e | e in ProductPairs(cards) :: e.0 == n) <==>
      n != 0 && exists i | 0 <= i < |cards| :: cards[i].nmId == Some(n)
    decreases |cards|
  {
    if |cards| > 0 {
      var init := cards[..|cards| - 1];
      ProductPairsKeys(init, n);
      assert forall i | 0 <= i < |init| :: init[i] == cards[i];
      if n != 0 && exists i | 0 <= i < |cards| :: cards[i].nmId == Some(n) {
        var i :| 0 <= i < |cards| && cards[i].nmId == Some(n);
        if i < |init| {
          assert init[i].nmId == Some(n);
          var e :| e in ProductPairs(init) && e.0 == n;
          assert e in ProductPairs(cards);
        } else {
          assert ProductPairs(cards)[|ProductPairs(cards)| - 1].0 == n;
        }
      }
    }
  }

  /** A product is mapped iff some card carries its nmID (non-zero), and it
      holds the fields of the last assignment to it. */
  lemma ProductMappingKeys(cards: seq<Products.Card>, n: int)
    ensures Get(ProductMapping(cards), n).Some? <==> n != 0 && exists i | 0 <= i < |cards| :: cards[i].nmId == Some(n)
    ensures forall i: nat | LastPair(ProductPairs(cards), n, i) :: Get(ProductMapping(cards), n) == Some(ProductPairs(cards)[i].1)
  {
    var ps := ProductPairs(cards);
    FromPairsLast(ps, n);
    ProductPairsKeys(cards, n);
    if exists e | e in ps :: e.0 == n {
      var e :| e in ps && e.0 == n;
      var i :| 0 <= i < |ps| && ps[i] == e;
    }
  }

  /** One row of the detailed report. */
  datatype DetailedRow = DetailedRow(
    nmId: int, vendorCode: string, title: string, brand: string, subject: string,
    stockCount: int, stocks: seq<int>)

  predicate HasNm(g: Inventory.StockGroup) { Truthy(g.nmId) }

  /** The row for a group with an nmID: the mapped product's fields, or empty
      strings for an unmapped nmID, and the group's stock summed. */
  function RowOf(mapping: Dict<int, ProductInfo>, g: Inventory.StockGroup): (r: DetailedRow)
    requires HasNm(g)
    ensures r.nmId == g.nmId.value && r.stocks == g.stocks && r.stockCount == Inventory.SumNat(g.stocks)
    ensures Get(mapping, g.nmId.value).Some? ==>
      var p := Get(mapping, g.nmId.value).value;
      r.vendorCode == p.vendorCode && r.title == p.title && r.brand == p.brand && r.subject == p.subjectName
    ensures Get(mapping, g.nmId.value).None? ==> r.vendorCode == "" && r.title == "" && r.brand == "" && r.subject == ""
  {
    var n := g.nmId.value;
    match Get(mapping, n)
    case Some(p) => DetailedRow(n, p.vendorCode, p.title, p.brand, p.subjectName, Inventory.SumNat(g.stocks), g.stocks)
    case None => DetailedRow(n, "", "", "", "", Inventory.SumNat(g.stocks), g.stocks)
  }

  /** The loop over the report's groups; a group without an nmID is skipped. */
  function DetailedRows(mapping: Dict<int, ProductInfo>, groups: seq<Inventory.StockGroup>): seq<DetailedRow>
    decreases |groups|
  {
    if |groups| == 0 then []
    else
      var g := groups[|groups| - 1];
      DetailedRows(mapping, groups[..|groups| - 1]) + (if HasNm(g) then [RowOf(mapping, g)] else [])
  }

  /** One row per group with an nmID, in group order. */
  lemma {:induction false} DetailedRowsPerGroup(mapping: Dict<int, ProductInfo>, groups: seq<Inventory.StockGroup>)
    ensures var named := Filter(groups, HasNm);
      |DetailedRows(mapping, groups)| == |named|
      && forall i | 0 <= i < |named| :: DetailedRows(mapping, groups)[i] == RowOf(mapping, named[i])
    decreases |groups|
  {
    if |groups| > 0 {
      DetailedRowsPerGroup(mapping, groups[..|groups| - 1]);
    }
  }

  /** `get_fbo_stocks_detailed()`: the mapping walk, then the rows of the
      report's groups (`None` when the report had no `data`); `None` overall
      when the walk does not end within `fuel` requests. */
  function FboStocksDetailed(fetch: Products.Cursor -> Products.Response, fuel: nat,
                             groups: Option<seq<Inventory.StockGroup>>): (r: Option<seq<DetailedRow>>)
    ensures r.Some? <==> ProductWalk(fetch, fuel).Some?
    ensures r.Some? && groups.None? ==> r.value == []
  {
    match ProductWalk(fetch, fuel)
    case None => None
    case Some(w) => Some(DetailedRows(ProductMapping(Flatten(w.pages)), groups.GetOr([])))
  }
}
