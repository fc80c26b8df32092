/** The computations embedded in the Streamlit dashboard (dashboard.py) and
    the discount helper of the end-to-end tests (tests/e2e/helpers.py): the
    per-warehouse record counts, the FBS + FBO summary table, the price
    table's pages and page buttons, the discount percentage, and the list
    of price changes the submit button sends. */
module Dashboard {
  import opened Common
  import opened OrderedDict
  import opened Sorting
  import Inventory
  import AvgOrders

  // ---------------------------------------------------------------------------
  // Records per warehouse
  // ---------------------------------------------------------------------------

  /** `by_warehouse[wh] = by_warehouse.get(wh, 0) + 1` over the FBO records,
      a record without a warehouse name counting under "Неизвестно". */
  function WarehouseCounts(stocks: seq<Inventory.FboStock>): Dict<string, int> {
    CountBy(stocks, Inventory.WarehouseOf)
  }

  /** The counts add up to the number of records, and a warehouse's count is
      the number of records naming it (no entry when none does). */
  lemma WarehouseCountsAddUp(stocks: seq<Inventory.FboStock>, w: string)
    ensures SumValues(WarehouseCounts(stocks)) == |stocks|
    ensures var n := |WithKey(stocks, Inventory.WarehouseOf, w)|;
      Get(WarehouseCounts(stocks), w) == if n > 0 then Some(n) else None
  {
    CountBySum(stocks, Inventory.WarehouseOf);
    CountByCounts(stocks, Inventory.WarehouseOf, w);
  }

  // ---------------------------------------------------------------------------
  // The FBS + FBO summary
  // ---------------------------------------------------------------------------

  /** A summary key: the nmID (`None` when the record has none) and the
      stripped article. */
  type Key = (Option<int>, string)

  /** `(stock.get("nmId"), str(stock.get("vendorCode", "") or "").strip())`. */
  function FbsKey(s: Inventory.FbsStock): Key { (s.nmId, Strip(s.vendorCode)) }

  function FbsQty(s: Inventory.FbsStock): int { s.amount }

  /** `(stock.get("nmId"), str(stock.get("supplierArticle", "") or "").strip())`. */
  function FboKey(s: Inventory.FboStock): Key { (s.nmId, Strip(s.supplierArticle.GetOr(""))) }

  /** `int(stock.get("quantity", 0) or 0)`. */
  function FboQty(s: Inventory.FboStock): int { s.quantity.GetOr(0) }

  /** `fbs_by_key`: FBS amounts summed per key over every warehouse's list. */
  function FbsSums(fbs: Dict<int, seq<Inventory.FbsStock>>): Dict<Key, int> {
    SumBy(Inventory.AllFbs(fbs), FbsKey, FbsQty)
  }

  /** `fbo_by_key`: FBO quantities summed per key. */
  function FboSums(fbo: seq<Inventory.FboStock>): Dict<Key, int> {
    SumBy(fbo, FboKey, FboQty)
  }

  function Absent(d: Dict<Key, int>): Key -> bool {
    k => Get(d, k).None?
  }

  /** `set(fbs_by_key) | set(fbo_by_key)`, enumerated as the FBS keys and then
      the FBO keys the FBS side lacks; the set's own order is unspecified and
      the table is sorted afterwards. */
  function UnionKeys(a: Dict<Key, int>, b: Dict<Key, int>): seq<Key> {
    Keys(a) + Filter(Keys(b), Absent(a))
  }

  /** One line of the summary table. */
  datatype SummaryRow = SummaryRow(
    nmId: Option<int>, article: string, fbs: int, fbo: int, total: int,
    speed: real, days: Option<real>)

  /** "Скорость заказов в день": the average daily orders rounded to two
      decimals, 0 for a row without an nmID. */
  function Speed(avg: map<int, real>, nmId: Option<int>): real {
    match nmId
    case None => 0.0
    case Some(n) => RoundTo(AvgOrders.Lookup(avg, n), 100)
  }

  /** "На сколько дней хватит": the stock divided by the speed, rounded to one
      decimal; `None` when nothing is ordered. */
  function DaysToCover(total: int, speed: real): (r: Option<real>)
    ensures r.None? <==> speed <= 0.0
    ensures r.Some? ==> total as real / speed - 0.05 <= r.value <= total as real / speed + 0.05
  {
    if speed > 0.0 then Some(RoundTo(total as real / speed, 10)) else None
  }

  /** The row of one key: a side without the key counts 0. */
  function RowFor(a: Dict<Key, int>, b: Dict<Key, int>, avg: map<int, real>, k: Key): SummaryRow {
    var f := Get(a, k).GetOr(0);
    var o := Get(b, k).GetOr(0);
    var sp := Speed(avg, k.0);
    SummaryRow(k.0, k.1, f, o, f + o, sp, DaysToCover(f + o, sp))
  }

  function Rows(a: Dict<Key, int>, b: Dict<Key, int>, avg: map<int, real>): (r: seq<SummaryRow>)
    ensures |r| == |UnionKeys(a, b)|
    ensures forall i | 0 <= i < |r| :: r[i] == RowFor(a, b, avg, UnionKeys(a, b)[i])
  {
    var ks := UnionKeys(a, b);
    seq(|ks|, i requires 0 <= i < |ks| => RowFor(a, b, avg, ks[i]))
  }

  /** `sort_values(by=["Общий остаток", "Артикул"], ascending=[False, True])`. */
  predicate SummaryLe(x: SummaryRow, y: SummaryRow) {
    x.total > y.total || (x.total == y.total && StrLe(x.article, y.article))
  }

  lemma SummaryLeTotalPreorder()
    ensures TotalPreorder(SummaryLe)
  {
    forall x: SummaryRow, y: SummaryRow ensures SummaryLe(x, y) || SummaryLe(y, x) {
      StrLeTotal(x.article, y.article);
    }
    forall x: SummaryRow, y: SummaryRow, z: SummaryRow | SummaryLe(x, y) && SummaryLe(y, z)
      ensures SummaryLe(x, z)
    {
      if x.total == y.total && y.total == z.total {
        StrLeTrans(x.article, y.article, z.article);
      }
    }
  }

  /** The summary table of the "Сводка" tab. */
  function Summary(fbs: Dict<int, seq<Inventory.FbsStock>>, fbo: seq<Inventory.FboStock>,
                   avg: map<int, real>): seq<SummaryRow> {
    SortBy(Rows(FbsSums(fbs), FboSums(fbo), avg), SummaryLe)
  }

  function KeyOf(row: SummaryRow): Key { (row.nmId, row.article) }

  /** A key is enumerated iff either side has it. */
  lemma UnionKeysMembers(a: Dict<Key, int>, b: Dict<Key, int>, k: Key)
    ensures k in UnionKeys(a, b) <==> Get(a, k).Some? || Get(b, k).Some?
  {
    GetNone(a, k);
    GetNone(b, k);
    if Get(a, k).Some? {
      assert k in Keys(a);
    } else if Get(b, k).Some? {
      assert k in Keys(b);
      FilterComplete(Keys(b), Absent(a), k);
    }
  }

  /** A reordering keeps the keys present. */
  lemma PermutedKeys(s: seq<SummaryRow>, t: seq<SummaryRow>, k: Key)
    requires multiset(s) == multiset(t)
    ensures (exists i | 0 <= i < |s| :: KeyOf(s[i]) == k) <==> (exists j | 0 <= j < |t| :: KeyOf(t[j]) == k)
  {
    if exists i | 0 <= i < |s| :: KeyOf(s[i]) == k {
      var i :| 0 <= i < |s| && KeyOf(s[i]) == k;
      assert s[i] in multiset(t);
      var j :| 0 <= j < |t| && t[j] == s[i];
    }
    if exists j | 0 <= j < |t| :: KeyOf(t[j]) == k {
      var j :| 0 <= j < |t| && KeyOf(t[j]) == k;
      assert t[j] in multiset(s);
      var i :| 0 <= i < |s| && s[i] == t[j];
    }
  }

  /** The unsorted rows have a row for a key iff either side has it. */
  lemma RowsCover(a: Dict<Key, int>, b: Dict<Key, int>, avg: map<int, real>, k: Key)
    ensures (exists i | 0 <= i < |Rows(a, b, avg)| :: KeyOf(Rows(a, b, avg)[i]) == k)
        <==> Get(a, k).Some? || Get(b, k).Some?
  {
    var rows := Rows(a, b, avg);
    var ks := UnionKeys(a, b);
    UnionKeysMembers(a, b, k);
    if k in ks {
      var i :| 0 <= i < |ks| && ks[i] == k;
      assert KeyOf(rows[i]) == k;
    }
    if exists i | 0 <= i < |rows| :: KeyOf(rows[i]) == k {
      var i :| 0 <= i < |rows| && KeyOf(rows[i]) == k;
      assert ks[i] == k;
    }
  }

  /** The table has a row for a key iff some FBS or some FBO record carries
      it. */
  lemma SummaryCovers(fbs: Dict<int, seq<Inventory.FbsStock>>, fbo: seq<Inventory.FboStock>,
                      avg: map<int, real>, k: Key)
    ensures (exists i | 0 <= i < |Summary(fbs, fbo, avg)| :: KeyOf(Summary(fbs, fbo, avg)[i]) == k)
        <==> |WithKey(Inventory.AllFbs(fbs), FbsKey, k)| > 0 || |WithKey(fbo, FboKey, k)| > 0
  {
    var a := FbsSums(fbs);
    var b := FboSums(fbo);
    SumByTotals(Inventory.AllFbs(fbs), FbsKey, FbsQty, k);
    SumByTotals(fbo, FboKey, FboQty, k);
    RowsCover(a, b, avg, k);
    PermutedKeys(Rows(a, b, avg), Summary(fbs, fbo, avg), k);
  }

  /** An unsorted row holds each side's total for its key, 0 for a side
      without it. */
  lemma RowValues(a: Dict<Key, int>, b: Dict<Key, int>, avg: map<int, real>, row: SummaryRow)
    requires row in Rows(a, b, avg)
    ensures row.fbs == Get(a, KeyOf(row)).GetOr(0) && row.fbo == Get(b, KeyOf(row)).GetOr(0)
    ensures row.total == row.fbs + row.fbo
    ensures row.speed == Speed(avg, row.nmId) && row.days == DaysToCover(row.total, row.speed)
  {
    var rows := Rows(a, b, avg);
    var i :| 0 <= i < |rows| && rows[i] == row;
    var k := UnionKeys(a, b)[i];
    assert row == RowFor(a, b, avg, k);
    assert KeyOf(row) == k;
  }

  /** Every row holds, per side, the sum over the records carrying its key
      (0 when that side has none), and their total. */
  lemma SummaryRowSums(fbs: Dict<int, seq<Inventory.FbsStock>>, fbo: seq<Inventory.FboStock>,
                       avg: map<int, real>, row: SummaryRow)
    requires row in Summary(fbs, fbo, avg)
    ensures row.fbs == SumInt(WithKey(Inventory.AllFbs(fbs), FbsKey, KeyOf(row)), FbsQty)
    ensures row.fbo == SumInt(WithKey(fbo, FboKey, KeyOf(row)), FboQty)
    ensures row.total == row.fbs + row.fbo
    ensures row.speed == Speed(avg, row.nmId) && row.days == DaysToCover(row.total, row.speed)
  {
    var a := FbsSums(fbs);
    var b := FboSums(fbo);
    assert row in multiset(Summary(fbs, fbo, avg));
    RowValues(a, b, avg, row);
    SumByTotals(Inventory.AllFbs(fbs), FbsKey, FbsQty, KeyOf(row));
    SumByTotals(fbo, FboKey, FboQty, KeyOf(row));
  }

  /** The table runs from the largest total down, equal totals by article. */
  lemma SummarySorted(fbs: Dict<int, seq<Inventory.FbsStock>>, fbo: seq<Inventory.FboStock>, avg: map<int, real>)
    ensures Sorted(Summary(fbs, fbo, avg), SummaryLe)
    ensures multiset(Summary(fbs, fbo, avg)) == multiset(Rows(FbsSums(fbs), FboSums(fbo), avg))
  {
    SummaryLeTotalPreorder();
    SortBySorted(Rows(FbsSums(fbs), FboSums(fbo), avg), SummaryLe);
  }

  // ---------------------------------------------------------------------------
  // The price table's pages
  // ---------------------------------------------------------------------------

  /** `max(1, (total + per_page - 1) // per_page)`. */
  function PageCount(total: nat, perPage: nat): nat
    requires perPage > 0
  {
    Max(1, (total + perPage - 1) / perPage)
  }

  /** The page count is the ceiling of total / per page, and 1 for an empty
      table. */
  lemma PageCountIsCeiling(total: nat, perPage: nat)
    requires perPage > 0
    ensures PageCount(total, perPage) >= 1
    ensures total == 0 ==> PageCount(total, perPage) == 1
    ensures total > 0 ==> (PageCount(total, perPage) - 1) * perPage < total <= PageCount(total, perPage) * perPage
  {
    var n := total + perPage - 1;
    var q := n / perPage;
    var m := n % perPage;
    assert n == q * perPage + m && 0 <= m < perPage;
    if total > 0 {
      assert q * perPage >= total;
      assert q >= 1;
      assert (q - 1) * perPage == q * perPage - perPage;
    } else {
      assert q == 0;
    }
  }

  /** Python slice bounds of one sign are no further apart once normalised;
      a negative start before a non-negative end spreads at most to the end. */
  lemma SliceBoundSpread(a: int, b: int, n: nat)
    ensures a <= b && (0 <= a || b < 0) ==> SliceBound(b, n) - SliceBound(a, n) <= b - a
    ensures a < 0 <= b ==> SliceBound(b, n) - SliceBound(a, n) <= b
    ensures 0 <= b < a ==> SliceBound(b, n) <= SliceBound(a, n)
  {
  }

  /** `all_products[start_idx:end_idx]` with `start_idx = (page - 1) * per_page`
      and `end_idx = min(start_idx + per_page, total)`. */
  function PageOf<T>(all: seq<T>, page: int, perPage: nat): (r: seq<T>)
    requires perPage > 0
    ensures |r| <= perPage
  {
    var start := (page - 1) * perPage;
    var end := Min(start + perPage, |all|);
    SliceBoundSpread(start, end, |all|);
    PySlice(all, start, end)
  }

  lemma PageStart(page: int, perPage: nat)
    requires page >= 1
    ensures 0 <= (page - 1) * perPage && (page - 1) * perPage + perPage == page * perPage
  {
  }

  /** Page p (from 1) holds items (p - 1) * per page up to p * per page, cut
      at the end of the table. */
  lemma PageOfSlice<T>(all: seq<T>, page: int, perPage: nat)
    requires perPage > 0 && page >= 1
    ensures PageOf(all, page, perPage) == all[Min((page - 1) * perPage, |all|)..Min(page * perPage, |all|)]
  {
    PageStart(page, perPage);
  }

  /** Pages 1..n, in order. */
  function PagesUpTo<T>(all: seq<T>, perPage: nat, n: nat): seq<seq<T>>
    requires perPage > 0
  {
    if n == 0 then [] else PagesUpTo(all, perPage, n - 1) + [PageOf(all, n, perPage)]
  }

  /** The first n pages together are the table's first n * per page items. */
  lemma {:induction false} PagesUpToPrefix<T>(all: seq<T>, perPage: nat, n: nat)
    requires perPage > 0
    ensures Flatten(PagesUpTo(all, perPage, n)) == all[..Min(n * perPage, |all|)]
  {
    if n > 0 {
      PagesUpToPrefix(all, perPage, n - 1);
      PagesUpToLast(all, perPage, n);
      PageOfSlice(all, n, perPage);
      PageStart(n, perPage);
      PrefixJoin(all, Min((n - 1) * perPage, |all|), Min(n * perPage, |all|));
    }
  }

  lemma PagesUpToLast<T>(all: seq<T>, perPage: nat, n: nat)
    requires perPage > 0 && n > 0
    ensures Flatten(PagesUpTo(all, perPage, n)) == Flatten(PagesUpTo(all, perPage, n - 1)) + PageOf(all, n, perPage)
  {
    var ps := PagesUpTo(all, perPage, n);
    assert ps[..|ps| - 1] == PagesUpTo(all, perPage, n - 1);
  }

  lemma PrefixJoin<T>(all: seq<T>, lo: nat, hi: nat)
    requires lo <= hi <= |all|
    ensures all[..lo] + all[lo..hi] == all[..hi]
  {
  }

  /** Paging through every page shows every item once, in order. */
  lemma PagesCoverAll<T>(all: seq<T>, perPage: nat)
    requires perPage > 0
    ensures Flatten(PagesUpTo(all, perPage, PageCount(|all|, perPage))) == all
  {
    PageCountIsCeiling(|all|, perPage);
    PagesUpToPrefix(all, perPage, PageCount(|all|, perPage));
  }

  /** The "◀" button, disabled on the first page. */
  function PrevPage(page: int): int {
    if page <= 1 then page else page - 1
  }

  /** The "▶" button, disabled on the last page. */
  function NextPage(page: int, totalPages: nat): int {
    if page >= totalPages then page else page + 1
  }

  /** Starting on page 1 and pressing the buttons, the page stays within
      1..total pages, so every page shown is one of PagesUpTo's. */
  lemma NavigationStaysInRange(page: int, totalPages: nat)
    requires 1 <= page <= totalPages
    ensures 1 <= PrevPage(page) <= totalPages && 1 <= NextPage(page, totalPages) <= totalPages
    ensures PrevPage(page) == page <==> page == 1
    ensures NextPage(page, totalPages) == page <==> page == totalPages
  {
  }

  // ---------------------------------------------------------------------------
  // Discount percentage
  // ---------------------------------------------------------------------------

  /** The "Скидка" cell and the saved `discount`:
      `int((1 - discounted / price) * 100)` when the price is positive and the
      discounted price below it, else 0. */
  function DiscountPercent(price: real, discounted: real): int {
    if price > 0.0 && discounted < price then Trunc((1.0 - discounted / price) * 100.0) else 0
  }

  /** `calculate_discount(price, discounted_price)` of the test helpers. */
  function CalculateDiscount(price: int, discounted: int): int {
    if price <= 0 || discounted >= price then 0
    else Trunc((1.0 - discounted as real / price as real) * 100.0)
  }

  /** The dashboard and the test helper compute the same percentage. */
  lemma DiscountAgrees(price: int, discounted: int)
    ensures CalculateDiscount(price, discounted) == DiscountPercent(price as real, discounted as real)
  {
  }

  /** Below the price, the percentage is the whole part of
      100 * (price - discounted) / price; never negative, at most 100 for a
      non-negative discounted price, and 0 from the price upward. */
  lemma {:induction false} CalculateDiscountExact(price: int, discounted: int)
    ensures CalculateDiscount(price, discounted) >= 0
    ensures price <= 0 || discounted >= price ==> CalculateDiscount(price, discounted) == 0
    ensures 0 < price && discounted < price ==>
      CalculateDiscount(price, discounted) == (100 * (price - discounted)) / price
    ensures 0 <= discounted ==> CalculateDiscount(price, discounted) <= 100
  {
    if 0 < price && discounted < price {
      var n := 100 * (price - discounted);
      DiscountAsRatio(price, discounted);
      TruncRatio(n, price);
      if 0 <= discounted {
        assert n <= 100 * price;
        DivAtMost(n, price, 100);
      }
    }
  }

  /** The helper's percentage is the ratio 100 * (price - discounted) / price. */
  lemma DiscountAsRatio(price: int, discounted: int)
    requires 0 < price
    ensures (1.0 - discounted as real / price as real) * 100.0 == (100 * (price - discounted)) as real / price as real
  {
    var p := price as real;
    var x := (1.0 - discounted as real / p) * 100.0;
    var n := 100 * (price - discounted);
    var f := 1.0 - discounted as real / p;
    assert f * p == p - discounted as real;
    assert x * p == (f * p) * 100.0;
    assert (p - discounted as real) * 100.0 == n as real;
    assert x * p == n as real;
    var y := n as real / p;
    assert y * p == n as real;
    CancelPositive(x, y, p);
  }

  lemma CancelPositive(a: real, b: real, p: real)
    requires p > 0.0 && a * p == b * p
    ensures a == b
  {
    assert a == (a * p) / p;
    assert b == (b * p) / p;
  }

  /** Truncating a non-negative ratio of integers is integer division. */
  lemma TruncRatio(n: int, d: int)
    requires 0 <= n && 0 < d
    ensures Trunc(n as real / d as real) == n / d
  {
    var q := n / d;
    var m := n % d;
    var p := d as real;
    assert n == q * d + m && 0 <= m < d;
    assert n as real == q as real * p + m as real;
    assert n as real / p == q as real + m as real / p;
    assert 0.0 <= m as real / p < 1.0;
  }

  lemma DivAtMost(n: int, d: int, c: int)
    requires 0 <= n <= c * d && 0 < d
    ensures n / d <= c
  {
  }

  /** For a fixed price, a higher discounted price never shows a larger
      discount. */
  lemma DiscountPercentMonotone(price: real, d1: real, d2: real)
    requires d1 <= d2
    ensures DiscountPercent(price, d1) >= DiscountPercent(price, d2)
  {
    if price > 0.0 && d1 < price {
      assert d1 / price <= d2 / price by {
        MulLe(d1, d2, 1.0 / price);
      }
    }
  }

  lemma CalculateDiscountMonotone(price: int, d1: int, d2: int)
    requires d1 <= d2
    ensures CalculateDiscount(price, d1) >= CalculateDiscount(price, d2)
  {
    DiscountAgrees(price, d1);
    DiscountAgrees(price, d2);
    DiscountPercentMonotone(price as real, d1 as real, d2 as real);
  }

  // ---------------------------------------------------------------------------
  // Submitting price changes
  // ---------------------------------------------------------------------------

  /** `price_edit_data[nm_id]`. */
  datatype EditEntry = EditEntry(price: real, discountedPrice: real, discount: int)

  /** One element of the `changes` list. */
  datatype PriceChange = PriceChange(nmId: int, price: int, discount: int)

  /** What the row's inputs save: the two numbers and the discount derived
      from them. */
  function SavedEdit(newPrice: int, newDiscounted: int): (r: EditEntry)
    ensures r.discount == CalculateDiscount(newPrice, newDiscounted)
    ensures r.price == newPrice as real && r.discountedPrice == newDiscounted as real
  {
    var p := newPrice as real;
    var d := newDiscounted as real;
    EditEntry(p, d, if p > 0.0 && d < p then Trunc((1.0 - d / p) * 100.0) else 0)
  }

  /** The change for one selected product: none when it has no edit (price
      read as 0) or its price is not positive. */
  function ChangeFor(edits: Dict<int, EditEntry>, nmId: int): (r: Option<PriceChange>)
    ensures r.Some? <==> Get(edits, nmId).Some? && Get(edits, nmId).value.price > 0.0
    ensures r.Some? ==>
      r.value.nmId == nmId && r.value.price == Trunc(Get(edits, nmId).value.price)
      && r.value.discount == Get(edits, nmId).value.discount
  {
    match Get(edits, nmId)
    case None => None
    case Some(e) => if e.price > 0.0 then Some(PriceChange(nmId, Trunc(e.price), e.discount)) else None
  }

  /** The submit button's loop over the selected products, in the order the
      selection is iterated. */
  function Changes(edits: Dict<int, EditEntry>, selected: seq<int>): seq<PriceChange>
    decreases |selected|
  {
    if |selected| == 0 then []
    else
      var id := selected[|selected| - 1];
      Changes(edits, selected[..|selected| - 1])
      + (match ChangeFor(edits, id) case Some(c) => [c] case None => [])
  }

  /** A change is sent exactly for each selected product whose edited price is
      positive, carrying that price's whole part and the saved discount; at
      most one change per selected product. */
  lemma {:induction false} ChangesExact(edits: Dict<int, EditEntry>, selected: seq<int>, c: PriceChange)
    ensures c in Changes(edits, selected) <==> c.nmId in selected && ChangeFor(edits, c.nmId) == Some(c)
    ensures |Changes(edits, selected)| <= |selected|
    decreases |selected|
  {
    if |selected| > 0 {
      var init := selected[..|selected| - 1];
      ChangesExact(edits, init, c);
      assert selected == init + [selected[|selected| - 1]];
    }
  }

  /** A price entered through the number input (at least 1) is sent at least
      1. */
  lemma SentPriceAtLeastOne(edits: Dict<int, EditEntry>, selected: seq<int>, c: PriceChange)
    requires c in Changes(edits, selected)
    requires Get(edits, c.nmId).Some? && Get(edits, c.nmId).value.price >= 1.0
    ensures c.price >= 1
  {
    ChangesExact(edits, selected, c);
  }
}
