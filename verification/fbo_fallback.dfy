/** The fallback of the FBO stock report (managers/inventory.py): the card
    list walked for an nmID → vendorCode mapping, with the loop the legacy
    detailed report uses, then the stock-report groups joined with that
    mapping by Inventory.FallbackRows. */
module FboFallback {
  import opened Common
  import opened OrderedDict
  import Inventory
  import Products
  import Legacy

  /** The assignments `nm_to_article[nm_id] = vendorCode` made for some
      cards, in order: one per card whose nmID is truthy. */
  function ArticlePairs(cards: seq<Products.Card>): seq<(int, string)>
    decreases |cards|
  {
    if |cards| == 0 then []
    else
      var c := cards[|cards| - 1];
      ArticlePairs(cards[..|cards| - 1]) + (if Truthy(c.nmId) then [(c.nmId.value, c.vendorCode)] else [])
  }

  function ArticleMapping(cards: seq<Products.Card>): Dict<int, string> {
    FromPairs(ArticlePairs(cards))
  }

  /** `len(nm_to_article) >= total`. */
  predicate ArticlesReached(seen: seq<Products.Card>, total: int) {
    |ArticleMapping(seen)| >= total
  }

  /** The card-list loop of the fallback: no error-flag check, stopping on
      the number of distinct products mapped. */
  function ArticleWalk(fetch: Products.Cursor -> Products.Response, fuel: nat): Option<Products.Walk> {
    Products.Crawl(fetch, false, ArticlesReached, Products.First, [], fuel)
  }

  /** Mapping one more card: a truthy nmID is assigned its vendor code, any
      other card changes nothing. */
  lemma ArticleMappingSnoc(cards: seq<Products.Card>, c: Products.Card)
    ensures ArticleMapping(cards + [c]) ==
      if Truthy(c.nmId) then Put(ArticleMapping(cards), c.nmId.value, c.vendorCode) else ArticleMapping(cards)
  {
    assert (cards + [c])[..|cards|] == cards;
    var ps := ArticlePairs(cards);
    if Truthy(c.nmId) {
      var e := (c.nmId.value, c.vendorCode);
      assert ArticlePairs(cards + [c]) == ps + [e];
      assert (ps + [e])[..|ps|] == ps;
    } else {
      assert ArticlePairs(cards + [c]) == ps;
    }
  }

  /** A product is mapped iff some card carries its nmID and it is non-zero;
      it holds the vendor code of the last card carrying it. */
  lemma {:induction false} ArticleMappingByCard(cards: seq<Products.Card>, n: int)
    ensures Get(ArticleMapping(cards), n).Some? <==> n != 0 && exists i | 0 <= i < |cards| :: cards[i].nmId == Some(n)
    ensures forall i | 0 <= i < |cards| && n != 0 && cards[i].nmId == Some(n)
                      && (forall j | i < j < |cards| :: cards[j].nmId != Some(n)) ::
      Get(ArticleMapping(cards), n) == Some(cards[i].vendorCode)
    decreases |cards|
  {
    if |cards| > 0 {
      var k := |cards| - 1;
      var init := cards[..k];
      var c := cards[k];
      assert cards == init + [c];
      ArticleMappingByCard(init, n);
      ArticleMappingSnoc(init, c);
      if Truthy(c.nmId) {
        GetPut(ArticleMapping(init), c.nmId.value, c.vendorCode, n);
      }
      assert forall i | 0 <= i < k :: init[i] == cards[i];
    }
  }

  /** The fallback's mapping and the legacy product mapping of the same
      cards have the same keys, hence the same size. */
  lemma {:induction false} MappingSizesAgree(cards: seq<Products.Card>)
    ensures |ArticleMapping(cards)| == |Legacy.ProductMapping(cards)|
    ensures forall n :: Get(ArticleMapping(cards), n).Some? <==> Get(Legacy.ProductMapping(cards), n).Some?
    decreases |cards|
  {
    forall n ensures Get(ArticleMapping(cards), n).Some? <==> Get(Legacy.ProductMapping(cards), n).Some? {
      ArticleMappingByCard(cards, n);
      Legacy.ProductMappingKeys(cards, n);
    }
    if |cards| > 0 {
      var k := |cards| - 1;
      var init := cards[..k];
      var c := cards[k];
      assert cards == init + [c];
      MappingSizesAgree(init);
      ArticleMappingSnoc(init, c);
      var ps := Legacy.ProductPairs(init);
      if Truthy(c.nmId) {
        var e := (c.nmId.value, Legacy.ProductInfo(c.vendorCode, c.title, c.brand, c.subjectName, c.nmId.value));
        assert Legacy.ProductPairs(cards) == ps + [e];
        assert (ps + [e])[..|ps|] == ps;
        assert Legacy.ProductMapping(cards) == Put(Legacy.ProductMapping(init), e.0, e.1);
      } else {
        assert Legacy.ProductPairs(cards) == ps;
      }
    }
  }

  /** The card-list loop does not depend on how its stop condition is
      written, only on its value. */
  lemma {:induction false} CrawlSameStop(fetch: Products.Cursor -> Products.Response, checkError: bool,
                                         stop1: (seq<Products.Card>, int) -> bool,
                                         stop2: (seq<Products.Card>, int) -> bool,
                                         cursor: Products.Cursor, seen: seq<Products.Card>, fuel: nat)
    requires forall cards, total :: stop1(cards, total) == stop2(cards, total)
    ensures Products.Crawl(fetch, checkError, stop1, cursor, seen, fuel)
         == Products.Crawl(fetch, checkError, stop2, cursor, seen, fuel)
    decreases fuel
  {
    if fuel > 0 {
      var resp := fetch(cursor);
      GoesOnSameStop(checkError, stop1, stop2, resp, seen);
      Products.CrawlStep(fetch, checkError, stop1, cursor, seen, fuel);
      Products.CrawlStep(fetch, checkError, stop2, cursor, seen, fuel);
      if Products.GoesOn(checkError, stop1, resp, seen) {
        CrawlSameStop(fetch, checkError, stop1, stop2, Products.NextCursor(resp.cards), seen + resp.cards, fuel - 1);
      }
    }
  }

  lemma GoesOnSameStop(checkError: bool, stop1: (seq<Products.Card>, int) -> bool,
                       stop2: (seq<Products.Card>, int) -> bool, resp: Products.Response, seen: seq<Products.Card>)
    requires forall cards, total :: stop1(cards, total) == stop2(cards, total)
    ensures Products.GoesOn(checkError, stop1, resp, seen) == Products.GoesOn(checkError, stop2, resp, seen)
  {
  }

  /** The fallback walks the card list exactly as the legacy detailed report
      does: the same requests, the same pages, the same fuel needed. */
  lemma ArticleWalkIsProductWalk(fetch: Products.Cursor -> Products.Response, fuel: nat)
    ensures ArticleWalk(fetch, fuel) == Legacy.ProductWalk(fetch, fuel)
  {
    forall cards, total ensures ArticlesReached(cards, total) == Legacy.ProductsReached(cards, total) {
      MappingSizesAgree(cards);
    }
    CrawlSameStop(fetch, false, ArticlesReached, Legacy.ProductsReached, Products.First, [], fuel);
  }

  /** `_get_fbo_stocks_analytics_fallback()`: the walk, then one row per
      group of the stock report (none when the report had no `data`);
      `None` when the walk does not end within `fuel` requests. */
  function Fallback(fetch: Products.Cursor -> Products.Response, fuel: nat,
                    groups: Option<seq<Inventory.StockGroup>>): (r: Option<seq<Inventory.FboStock>>)
    ensures r.Some? <==> Legacy.ProductWalk(fetch, fuel).Some?
    ensures r.Some? ==> |r.value| == |groups.GetOr([])|
  {
    ArticleWalkIsProductWalk(fetch, fuel);
    match ArticleWalk(fetch, fuel)
    case None => None
    case Some(w) => Some(Inventory.FallbackRows(ArticleMapping(Flatten(w.pages)), groups.GetOr([])))
  }

  /** Each row carries its group's nmID and summed stock, and the vendor code
      of the last card walked with that nmID (`''` when none carries it). */
  lemma FallbackArticles(fetch: Products.Cursor -> Products.Response, fuel: nat, w: Products.Walk,
                         groups: seq<Inventory.StockGroup>, i: nat, j: nat)
    requires Legacy.ProductWalk(fetch, fuel) == Some(w) && i < |groups|
    ensures var r := Fallback(fetch, fuel, Some(groups)).value;
      var cards := Flatten(w.pages);
      var g := groups[i];
      r[i].nmId == g.nmId && r[i].stockCount == Some(Inventory.SumNat(g.stocks))
      && ((!Truthy(g.nmId) || forall k | 0 <= k < |cards| :: cards[k].nmId != g.nmId) ==> r[i].supplierArticle == Some(""))
      && (Truthy(g.nmId) && j < |cards| && cards[j].nmId == g.nmId && (forall k | j < k < |cards| :: cards[k].nmId != g.nmId) ==>
            r[i].supplierArticle == Some(cards[j].vendorCode))
  {
    ArticleWalkIsProductWalk(fetch, fuel);
    var cards := Flatten(w.pages);
    var r := Inventory.FallbackRows(ArticleMapping(cards), groups);
    assert Fallback(fetch, fuel, Some(groups)).value == r;
    var g := groups[i];
    if g.nmId.Some? {
      var n := g.nmId.value;
      ArticleMappingByCard(cards, n);
      assert r[i].supplierArticle == Some(Get(ArticleMapping(cards), n).GetOr(""));
      if !Truthy(g.nmId) || forall k | 0 <= k < |cards| :: cards[k].nmId != g.nmId {
        assert Get(ArticleMapping(cards), n).None?;
      }
    }
    assert (!Truthy(g.nmId) || forall k | 0 <= k < |cards| :: cards[k].nmId != g.nmId) ==> r[i].supplierArticle == Some("");
  }
}
