/** The rule-based agent of ai_agent.py: the keyword decision chain that
    picks an action, the parameter extraction that reads numbers, dates and
    search text out of the query, and the dispatch that checks the
    parameters each action needs before calling a manager. The managers'
    calls are not executed: dispatch returns which call would be made. */
module AiAgent {
  import opened Common
  import NlpEngine

  // ---------------------------------------------------------------------------
  // The decision chain
  // ---------------------------------------------------------------------------

  const ProductWords: seq<string> := ["товар", "продукт", "карточка", "артикул", "nm", "позиция"]
  const PriceWords: seq<string> := ["цена", "стоимость", "дороже", "дешевле", "измени", "обнови", "повысь", "понизь"]
  const ListWords: seq<string> := ["все", "список", "покажи", "выведи", "каталог"]
  const SearchWords: seq<string> := ["поиск", "найди", "где"]
  const StockWords: seq<string> := ["остаток", "наличие", "склад", "карантин"]

  const AnalyticsWords: seq<string> := ["продажа", "выручка", "заказ", "аналитик", "статистик", "отчет", "деньг", "доход"]
  const WeeklyWords: seq<string> := ["недел", "weekly", "прошл недел"]
  const TopWords: seq<string> := ["топ", "лучш", "популярн", "рейтинг"]
  const RevenueWords: seq<string> := ["выручка", "доход", "оборот", "деньг"]
  const DetailedWords: seq<string> := ["детальн", "подробн", "комиссия", "себестоимость", "прибыль"]

  const AdvertisingWords: seq<string> := ["реклам", "кампани", "продвижение", "ставка", "cpc", "cpm", "бюджет"]
  const StartWords: seq<string> := ["запусти", "стартуй", "включи", "начни"]
  const PauseWords: seq<string> := ["останови", "пауза", "выключи", "приостанови"]
  const DeleteWords: seq<string> := ["удали", "убери", "очисти"]
  const CreateWords: seq<string> := ["создай", "новая", "добавь"]
  const BidWords: seq<string> := ["ставка", "цена клика", "измени ставку"]
  const CampaignStatsWords: seq<string> := ["статистик", "эффективность", "roi"]

  const OrderWords: seq<string> := ["заказ", "сборка", "отгрузка", "fbs", "отмена"]
  const NewOrderWords: seq<string> := ["новый", "новые", "текущий", "собрать", "подтверди"]
  const CancelWords: seq<string> := ["отмени", "отмена", "отменить"]

  const FeedbackWords: seq<string> := ["отзыв", "вопрос", "рейтинг", "оценка", "комментарий"]
  const SellerWords: seq<string> := ["магазин", "продавец", "информация", "профиль", "кто я"]

  function R(action: string, kind: string): NlpEngine.Routing { NlpEngine.Routing(action, kind) }

  /** `_analyze_request`: a chain of keyword tests on the lower-cased
      query, written out branch by branch. */
  function AnalyzeRequest(query: string): NlpEngine.Routing
  {
    var q := Lower(query);
    if AnyIn(ProductWords, q) then
      if AnyIn(PriceWords, q) then R("update_price", "products")
      else if AnyIn(ListWords, q) then R("list_products", "products")
      else if AnyIn(SearchWords, q) then R("search_products", "products")
      else if AnyIn(StockWords, q) then R("check_stocks", "products")
      else R("list_products", "products")
    else if AnyIn(AnalyticsWords, q) then
      if AnyIn(WeeklyWords, q) then R("weekly_report", "analytics")
      else if AnyIn(TopWords, q) then R("top_products", "analytics")
      else if AnyIn(RevenueWords, q) then R("revenue_report", "analytics")
      else if AnyIn(DetailedWords, q) then R("detailed_report", "analytics")
      else R("sales_report", "analytics")
    else if AnyIn(AdvertisingWords, q) then
      if AnyIn(StartWords, q) then R("start_campaign", "advertising")
      else if AnyIn(PauseWords, q) then R("pause_campaign", "advertising")
      else if AnyIn(DeleteWords, q) then R("delete_campaign", "advertising")
      else if AnyIn(CreateWords, q) then R("create_campaign", "advertising")
      else if AnyIn(BidWords, q) then R("update_bid", "advertising")
      else if AnyIn(CampaignStatsWords, q) then R("campaign_stats", "advertising")
      else R("list_campaigns", "advertising")
    else if AnyIn(OrderWords, q) then
      if AnyIn(NewOrderWords, q) then R("new_orders", "orders")
      else if AnyIn(CancelWords, q) then R("cancel_order", "orders")
      else R("list_orders", "orders")
    else if AnyIn(FeedbackWords, q) then R("list_feedbacks", "communication")
    else if AnyIn(SellerWords, q) then R("seller_info", "general")
    else NlpEngine.Help
  }

  /** The same decisions as an intent table in the shape the keyword router
      of nlp_engine.py reads. */
  const AgentTable: seq<NlpEngine.Intent> := [
    NlpEngine.Intent(ProductWords, "list_products", "products",
      [NlpEngine.Subtype("update_price", PriceWords), NlpEngine.Subtype("list_products", ListWords),
       NlpEngine.Subtype("search_products", SearchWords), NlpEngine.Subtype("check_stocks", StockWords)]),
    NlpEngine.Intent(AnalyticsWords, "sales_report", "analytics",
      [NlpEngine.Subtype("weekly_report", WeeklyWords), NlpEngine.Subtype("top_products", TopWords),
       NlpEngine.Subtype("revenue_report", RevenueWords), NlpEngine.Subtype("detailed_report", DetailedWords)]),
    NlpEngine.Intent(AdvertisingWords, "list_campaigns", "advertising",
      [NlpEngine.Subtype("start_campaign", StartWords), NlpEngine.Subtype("pause_campaign", PauseWords),
       NlpEngine.Subtype("delete_campaign", DeleteWords), NlpEngine.Subtype("create_campaign", CreateWords),
       NlpEngine.Subtype("update_bid", BidWords), NlpEngine.Subtype("campaign_stats", CampaignStatsWords)]),
    NlpEngine.Intent(OrderWords, "list_orders", "orders",
      [NlpEngine.Subtype("new_orders", NewOrderWords), NlpEngine.Subtype("cancel_order", CancelWords)]),
    NlpEngine.Intent(FeedbackWords, "list_feedbacks", "communication", []),
    NlpEngine.Intent(SellerWords, "seller_info", "general", [])
  ]

  /** The decision chain is the first-match table router over `AgentTable`:
      products are checked first with the price subtype before list, search
      and stock; analytics subtypes go weekly, top, revenue, detailed; no
      trigger at all gives help. */
  lemma AnalyzeRequestIsTableRoute(query: string)
    ensures AnalyzeRequest(query) == NlpEngine.Route(AgentTable, Lower(query))
  {
    var q := Lower(query);
    if AnyIn(ProductWords, q) {
      ProductsCase(q);
    } else if AnyIn(AnalyticsWords, q) {
      AnalyticsCase(q);
    } else if AnyIn(AdvertisingWords, q) {
      AdvertisingCase(q);
    } else if AnyIn(OrderWords, q) {
      OrdersCase(q);
    } else if AnyIn(FeedbackWords, q) {
      NlpEngine.RouteAt(AgentTable, q, 4);
    } else if AnyIn(SellerWords, q) {
      NlpEngine.RouteAt(AgentTable, q, 5);
    } else {
      assert forall i | 0 <= i < |AgentTable| :: !NlpEngine.IntentMatches(q, AgentTable[i]);
    }
  }

  lemma ProductsCase(q: string)
    requires AnyIn(ProductWords, q)
    ensures NlpEngine.Route(AgentTable, q) == R(
      if AnyIn(PriceWords, q) then "update_price"
      else if AnyIn(ListWords, q) then "list_products"
      else if AnyIn(SearchWords, q) then "search_products"
      else if AnyIn(StockWords, q) then "check_stocks"
      else "list_products", "products")
  {
    NlpEngine.RouteAt(AgentTable, q, 0);
    SubActionChain4(AgentTable[0], q);
  }

  lemma AnalyticsCase(q: string)
    requires !AnyIn(ProductWords, q) && AnyIn(AnalyticsWords, q)
    ensures NlpEngine.Route(AgentTable, q) == R(
      if AnyIn(WeeklyWords, q) then "weekly_report"
      else if AnyIn(TopWords, q) then "top_products"
      else if AnyIn(RevenueWords, q) then "revenue_report"
      else if AnyIn(DetailedWords, q) then "detailed_report"
      else "sales_report", "analytics")
  {
    NlpEngine.RouteAt(AgentTable, q, 1);
    SubActionChain4(AgentTable[1], q);
  }

  lemma AdvertisingCase(q: string)
    requires !AnyIn(ProductWords, q) && !AnyIn(AnalyticsWords, q) && AnyIn(AdvertisingWords, q)
    ensures NlpEngine.Route(AgentTable, q) == R(
      if AnyIn(StartWords, q) then "start_campaign"
      else if AnyIn(PauseWords, q) then "pause_campaign"
      else if AnyIn(DeleteWords, q) then "delete_campaign"
      else if AnyIn(CreateWords, q) then "create_campaign"
      else if AnyIn(BidWords, q) then "update_bid"
      else if AnyIn(CampaignStatsWords, q) then "campaign_stats"
      else "list_campaigns", "advertising")
  {
    NlpEngine.RouteAt(AgentTable, q, 2);
    SubActionChain6(AgentTable[2], q);
  }

  lemma OrdersCase(q: string)
    requires !AnyIn(ProductWords, q) && !AnyIn(AnalyticsWords, q) && !AnyIn(AdvertisingWords, q)
    requires AnyIn(OrderWords, q)
    ensures NlpEngine.Route(AgentTable, q) == R(
      if AnyIn(NewOrderWords, q) then "new_orders"
      else if AnyIn(CancelWords, q) then "cancel_order"
      else "list_orders", "orders")
  {
    NlpEngine.RouteAt(AgentTable, q, 3);
    SubActionChain2(AgentTable[3], q);
  }

  /** `SubAction` over two, four and six subtypes, as an `if`/`elif` chain. */
  lemma SubActionChain2(it: NlpEngine.Intent, q: string)
    requires |it.subtypes| == 2
    ensures NlpEngine.SubAction(it, q) ==
      if AnyIn(it.subtypes[0].triggers, q) then it.subtypes[0].action
      else if AnyIn(it.subtypes[1].triggers, q) then it.subtypes[1].action
      else it.default
  {
  }

  lemma SubActionChain4(it: NlpEngine.Intent, q: string)
    requires |it.subtypes| == 4
    ensures NlpEngine.SubAction(it, q) ==
      if AnyIn(it.subtypes[0].triggers, q) then it.subtypes[0].action
      else if AnyIn(it.subtypes[1].triggers, q) then it.subtypes[1].action
      else if AnyIn(it.subtypes[2].triggers, q) then it.subtypes[2].action
      else if AnyIn(it.subtypes[3].triggers, q) then it.subtypes[3].action
      else it.default
  {
  }

  lemma SubActionChain6(it: NlpEngine.Intent, q: string)
    requires |it.subtypes| == 6
    ensures NlpEngine.SubAction(it, q) ==
      if AnyIn(it.subtypes[0].triggers, q) then it.subtypes[0].action
      else if AnyIn(it.subtypes[1].triggers, q) then it.subtypes[1].action
      else if AnyIn(it.subtypes[2].triggers, q) then it.subtypes[2].action
      else if AnyIn(it.subtypes[3].triggers, q) then it.subtypes[3].action
      else if AnyIn(it.subtypes[4].triggers, q) then it.subtypes[4].action
      else if AnyIn(it.subtypes[5].triggers, q) then it.subtypes[5].action
      else it.default
  {
  }

  /** A query with a product word, a list word and a search word. */
  const CatalogQuery: string := "каталог где nm"

  lemma CatalogQueryLower()
    ensures Lower(CatalogQuery) == CatalogQuery
  {
  }

  /** Worked example, step one: the sample query contains a product word,
      a list word and a search word. */
  lemma CatalogQueryHits(q: string)
    requires q == "каталог где nm"
    ensures AnyIn(ProductWords, q)
    ensures AnyIn(ListWords, q) && AnyIn(SearchWords, q)
  {
    ContainsAt(q, "nm", 12);
    ContainsAt(q, "каталог", 0);
    ContainsAt(q, "где", 8);
    assert ProductWords[4] == "nm" && ListWords[4] == "каталог" && SearchWords[2] == "где";
  }

  /** Worked example, step two: it contains no price word. */
  lemma CatalogQueryMisses(q: string)
    requires q == "каталог где nm"
    ensures !AnyIn(PriceWords, q)
  {
    NoneContained(q, PriceWords, [0, 0, 2, 2, 0, 1, 0, 0]);
  }

  /** The agent and the keyword router of nlp_engine.py order the product
      subtypes differently (list before search here, search before list
      there): a product query with a list word and a search word but no
      price word reaches different actions. */
  lemma AgentAndEngineDisagree(query: string)
    requires AnyIn(ProductWords, Lower(query)) && !AnyIn(PriceWords, Lower(query))
    requires AnyIn(ListWords, Lower(query)) && AnyIn(SearchWords, Lower(query))
    ensures AnalyzeRequest(query) == R("list_products", "products")
    ensures NlpEngine.Analyze(query) == R("search_products", "products")
  {
    var q := Lower(query);
    ProductsCase(q);
    AnalyzeRequestIsTableRoute(query);
    EngineProductTable();
    NlpEngine.RouteAt(NlpEngine.IntentMap, q, 0);
    assert !NlpEngine.SubtypeMatches(q, NlpEngine.IntentMap[0].subtypes[0]);
    NlpEngine.SubActionFirst(NlpEngine.IntentMap[0], q, 1);
  }

  /** The product intent of nlp_engine.py uses the agent's word lists. */
  lemma EngineProductTable()
    ensures NlpEngine.IntentMap[0].triggers == ProductWords
    ensures forall i | 0 <= i < |NlpEngine.IntentMap[0].subtypes[0].triggers| ::
      NlpEngine.IntentMap[0].subtypes[0].triggers[i] in PriceWords
    ensures NlpEngine.IntentMap[0].subtypes[1].triggers == SearchWords
    ensures NlpEngine.IntentMap[0].subtypes[1].action == "search_products"
    ensures NlpEngine.IntentMap[0].kind == "products"
  {
  }

  /** Such queries exist. */
  lemma CatalogQueryDisagrees()
    ensures AnalyzeRequest(CatalogQuery).action != NlpEngine.Analyze(CatalogQuery).action
  {
    var q := CatalogQuery;
    CatalogQueryLower();
    CatalogQueryHits(q);
    CatalogQueryMisses(q);
    AgentAndEngineDisagree(q);
  }

  // ---------------------------------------------------------------------------
  // Parameter extraction
  // ---------------------------------------------------------------------------

  /** The parameters `_extract_params` may set; a missing key is `None`. */
  datatype Params = Params(
    nmId: Option<int>,
    price: Option<real>,
    discount: Option<int>,
    query: Option<string>,
    campaignId: Option<int>,
    bid: Option<int>,
    dateFrom: Option<string>,
    days: Option<int>,
    limit: Option<int>)

  const NoParams := Params(None, None, None, None, None, None, None, None, None)

  /** `re.findall(r'\d+', query)`: the maximal runs of decimal digits. */
  function Numbers(query: string): (r: seq<string>)
    ensures forall k | 0 <= k < |r| :: |r[k]| > 0 && AllDigits(r[k])
  {
    RunsAllMatch(query, IsDigit);
    Runs(query, IsDigit)
  }

  /** `int(numbers[k])`. */
  function NumberAt(numbers: seq<string>, k: nat): int
    requires k < |numbers| && AllDigits(numbers[k])
  {
    DigitsValue(numbers[k])
  }

  // --- `re.search(r'(\d+)%', query)` ---

  /** The digit run starting at `i`, when a `%` follows it. */
  function PercentAt(s: string, i: nat): (r: Option<string>)
    requires i <= |s|
    ensures r.Some? ==> (|r.value| > 0 && AllDigits(r.value)
      && i + |r.value| < |s| && s[i..i + |r.value|] == r.value && s[i + |r.value|] == '%')
  {
    var n := Leading(s[i..], IsDigit);
    if n > 0 && i + n < |s| && s[i + n] == '%' then Some(s[i..i + n]) else None
  }

  /** The digits of the first `<digits>%` in `s`. */
  function PercentScan(s: string): nat -> Option<string> {
    (j: nat) => if j <= |s| then PercentAt(s, j) else None
  }

  function PercentSearch(s: string): Option<string>
  {
    FirstFrom(0, |s|, PercentScan(s))
  }

  /** A run of `n` digits at `j` with `%` right after it. */
  predicate DigitsThenPercent(s: string, j: nat, n: nat) {
    0 < n && j + n < |s| && AllDigits(s[j..j + n]) && s[j + n] == '%'
  }

  /** What `PercentSearch` finds is a run of digits followed by `%` in the
      query. */
  lemma PercentSearchFound(s: string)
    requires PercentSearch(s).Some?
    ensures var d := PercentSearch(s).value;
      |d| > 0 && AllDigits(d) && Contains(s, d + ['%'])
  {
    var j := FirstFromWitness(0, |s|, PercentScan(s));
    PercentAtFound(s, j);
  }

  /** A hit of the scan at `j` is a digit run followed by `%`. */
  lemma PercentAtFound(s: string, j: nat)
    requires j <= |s| && PercentScan(s)(j).Some?
    ensures var d := PercentScan(s)(j).value;
      |d| > 0 && AllDigits(d) && Contains(s, d + ['%'])
  {
    var r := PercentAt(s, j);
    assert PercentScan(s)(j) == r;
    ContainsFollowed(s, j, r.value, '%');
  }

  lemma ContainsFollowed(s: string, j: nat, d: string, c: char)
    requires j + |d| < |s| && s[j..j + |d|] == d && s[j + |d|] == c
    ensures Contains(s, d + [c])
  {
    assert s[j..j + |d| + 1] == d + [c];
    ContainsAt(s, d + [c], j);
  }

  /** When `PercentSearch` finds nothing, no run of digits is followed by
      `%` anywhere. */
  lemma PercentSearchNotFound(s: string)
    requires PercentSearch(s).None?
    ensures forall j, n | 0 <= j <= |s| :: !DigitsThenPercent(s, j, n)
  {
    forall j, n | 0 <= j <= |s| && DigitsThenPercent(s, j, n)
      ensures false
    {
      FirstFromNoneAt(0, |s|, PercentScan(s), j);
      PercentAtRun(s, j, n);
    }
  }

  /** `PercentAt` sees every digit run followed by `%`. */
  lemma PercentAtRun(s: string, j: nat, n: nat)
    requires j <= |s| && DigitsThenPercent(s, j, n)
    ensures PercentAt(s, j) == Some(s[j..j + n])
  {
    assert forall i | 0 <= i < n :: s[j..][i] == s[j..j + n][i];
    LeadingUnique(s[j..], IsDigit, n);
  }

  // --- `re.search(r'(\d{1,2})[./](\d{1,2})[./](\d{2,4})', query)` ---

  datatype DateParts = DateParts(day: string, month: string, year: string)

  /** The lengths the three groups take, in the order the greedy
      quantifiers try them while backtracking. */
  const DateShapes: seq<(nat, nat, nat)> := [
    (2, 2, 4), (2, 2, 3), (2, 2, 2), (2, 1, 4), (2, 1, 3), (2, 1, 2),
    (1, 2, 4), (1, 2, 3), (1, 2, 2), (1, 1, 4), (1, 1, 3), (1, 1, 2)]

  predicate IsDateSep(c: char) { c == '.' || c == '/' }

  predicate DigitsAt(s: string, i: nat, n: nat) {
    i + n <= |s| && AllDigits(s[i..i + n])
  }

  /** The pattern matches at `i` with group lengths `shape`. */
  predicate DateAt(s: string, i: nat, shape: (nat, nat, nat)) {
    var (d, m, y) := shape;
    DigitsAt(s, i, d) && i + d < |s| && IsDateSep(s[i + d])
    && DigitsAt(s, i + d + 1, m) && i + d + 1 + m < |s| && IsDateSep(s[i + d + 1 + m])
    && DigitsAt(s, i + d + m + 2, y)
  }

  function PartsAt(s: string, i: nat, shape: (nat, nat, nat)): (r: DateParts)
    requires DateAt(s, i, shape)
    ensures AllDigits(r.day) && AllDigits(r.month) && AllDigits(r.year)
  {
    var (d, m, y) := shape;
    DateParts(s[i..i + d], s[i + d + 1..i + d + 1 + m], s[i + d + m + 2..i + d + m + 2 + y])
  }

  function DateOutcome(s: string, i: nat, shape: (nat, nat, nat)): Option<DateParts> {
    if DateAt(s, i, shape) then Some(PartsAt(s, i, shape)) else None
  }

  /** The first of `shapes`, in order, that matches at `i`. */
  function DateMatchAt(s: string, i: nat, shapes: seq<(nat, nat, nat)>): Option<DateParts> {
    FirstSome(shapes, (shape: (nat, nat, nat)) => DateOutcome(s, i, shape))
  }

  /** `re.search` for the date pattern: the match at the leftmost position
      where one exists, the groups taking the greedy lengths. */
  function DateScan(s: string): nat -> Option<DateParts> {
    (j: nat) => if j <= |s| then DateMatchAt(s, j, DateShapes) else None
  }

  function DateSearch(s: string): Option<DateParts>
  {
    FirstFrom(0, |s|, DateScan(s))
  }

  /** A match found at `j` is the first shape, in order, that fits there;
      no match at `j` means no shape fits. */
  lemma DateMatchAtMeaning(s: string, j: nat, shapes: seq<(nat, nat, nat)>)
    ensures DateMatchAt(s, j, shapes).Some? ==> exists k | 0 <= k < |shapes| ::
      DateAt(s, j, shapes[k]) && DateMatchAt(s, j, shapes).value == PartsAt(s, j, shapes[k])
    ensures DateMatchAt(s, j, shapes).None? ==> forall k | 0 <= k < |shapes| :: !DateAt(s, j, shapes[k])
  {
    var f := (shape: (nat, nat, nat)) => DateOutcome(s, j, shape);
    if DateMatchAt(s, j, shapes).Some? {
      var k :| 0 <= k < |shapes| && f(shapes[k]) == DateMatchAt(s, j, shapes);
    } else {
      assert forall k | 0 <= k < |shapes| :: f(shapes[k]).None?;
    }
  }

  /** The groups `DateSearch` returns are a match of the pattern somewhere
      in the query. */
  lemma DateSearchFound(s: string)
    requires DateSearch(s).Some?
    ensures exists j, k | 0 <= j <= |s| && 0 <= k < |DateShapes| ::
      DateAt(s, j, DateShapes[k]) && DateSearch(s).value == PartsAt(s, j, DateShapes[k])
  {
    var j :| 0 <= j <= |s| && DateScan(s)(j) == DateSearch(s);
    DateMatchAtMeaning(s, j, DateShapes);
  }

  /** When `DateSearch` returns nothing, the pattern matches nowhere. */
  lemma DateSearchNotFound(s: string)
    requires DateSearch(s).None?
    ensures forall j, k | 0 <= j <= |s| && 0 <= k < |DateShapes| :: !DateAt(s, j, DateShapes[k])
  {
    forall j, k | 0 <= j <= |s| && 0 <= k < |DateShapes|
      ensures !DateAt(s, j, DateShapes[k])
    {
      FirstFromNoneAt(0, |s|, DateScan(s), j);
      DateMatchAtMeaning(s, j, DateShapes);
    }
  }

  /** `f"{year}-{month.zfill(2)}-{day.zfill(2)}"` with "20" put before a
      two-digit year. */
  function FormatDate(p: DateParts): (r: string)
  {
    var year := if |p.year| == 2 then "20" + p.year else p.year;
    year + "-" + ZFill2(p.month) + "-" + ZFill2(p.day)
  }

  /** A date rewritten from one-or-two-digit day and month and a two- or
      four-digit year is in `YYYY-MM-DD` form and keeps the numbers. */
  lemma FormatDateShape(p: DateParts)
    requires 1 <= |p.day| <= 2 && 1 <= |p.month| <= 2 && (|p.year| == 2 || |p.year| == 4)
    requires AllDigits(p.day) && AllDigits(p.month) && AllDigits(p.year)
    ensures var r := FormatDate(p);
      |r| == 10 && r[4] == '-' && r[7] == '-'
      && AllDigits(r[..4]) && AllDigits(r[5..7]) && AllDigits(r[8..])
      && DigitsValue(r[5..7]) == DigitsValue(p.month) && DigitsValue(r[8..]) == DigitsValue(p.day)
      && (|p.year| == 4 ==> r[..4] == p.year)
      && (|p.year| == 2 ==> r[..4] == "20" + p.year)
  {
    var year := if |p.year| == 2 then "20" + p.year else p.year;
    ZFill2Value(p.month);
    ZFill2Value(p.day);
    DashedSlices(year, ZFill2(p.month), ZFill2(p.day));
  }

  /** Where the parts of `y-m-d` sit, for a four-character year and
      two-character month and day. */
  lemma DashedSlices(y: string, m: string, d: string)
    requires |y| == 4 && |m| == 2 && |d| == 2
    ensures var r := y + "-" + m + "-" + d;
      |r| == 10 && r[4] == '-' && r[7] == '-' && r[..4] == y && r[5..7] == m && r[8..] == d
  {
  }

  /** Zero-padding keeps a digit string's value. */
  lemma ZFill2Value(s: string)
    requires 1 <= |s| <= 2 && AllDigits(s)
    ensures |ZFill2(s)| == 2 && AllDigits(ZFill2(s)) && DigitsValue(ZFill2(s)) == DigitsValue(s)
  {
    var z := ZFill2(s);
    if |s| == 1 {
      assert z == ['0', s[0]];
      assert z[..1] == ['0'];
      assert DigitsValue(z[..1]) == DigitsValue([]) * 10 + DigitValue('0') by {
        assert z[..1][..0] == [];
      }
      assert s[..0] == [];
    }
  }

  // --- `re.search(r'найди\s+(.+?)(?:\s+в\s+|$)', query_lower)` ---

  /** Where the lazy group may stop: at `\s+в\s+`, at the end, or before a
      final line break. */
  predicate GroupEndsAt(s: string, e: nat)
    requires e <= |s|
  {
    e == |s| || (e == |s| - 1 && s[e] == '\n')
    || (var m := SpaceRun(s, e);
        m >= 1 && e + m + 1 < |s| && s[e + m] == 'в' && IsSpace(s[e + m + 1]))
  }

  /** The number of whitespace characters from `e` on. */
  function SpaceRun(s: string, e: nat): nat
    requires e <= |s|
    decreases |s| - e
  {
    if e < |s| && IsSpace(s[e]) then 1 + SpaceRun(s, e + 1) else 0
  }

  /** The lazy `(.+?)` starting at `start`, now having consumed up to `e`:
      stop at the first place the rest of the pattern matches, never
      crossing a line break. */
  function LazyEnd(s: string, start: nat, e: nat): (r: Option<nat>)
    requires start < e <= |s|
    ensures r.Some? ==> e <= r.value <= |s|
    decreases |s| - e
  {
    if GroupEndsAt(s, e) then Some(e)
    else if e < |s| && s[e] != '\n' then LazyEnd(s, start, e + 1)
    else None
  }

  /** The lazy group ends at the first place the tail matches. */
  lemma {:induction false} LazyEndFirst(s: string, start: nat, e: nat)
    requires start < e <= |s| && LazyEnd(s, start, e).Some?
    ensures var x := LazyEnd(s, start, e).value;
      GroupEndsAt(s, x) && forall k | e <= k < x :: !GroupEndsAt(s, k) && s[k] != '\n'
    decreases |s| - e
  {
    if !GroupEndsAt(s, e) {
      var x := LazyEnd(s, start, e + 1).value;
      LazyEndFirst(s, start, e + 1);
      assert LazyEnd(s, start, e).value == x;
      forall k | e <= k < x ensures !GroupEndsAt(s, k) && s[k] != '\n' {
        if k > e {
          assert e + 1 <= k < x;
        }
      }
    }
  }

  /** The lazy group finds no end only when a line break comes before every
      place the tail matches. */
  lemma {:induction false} LazyEndNone(s: string, start: nat, e: nat)
    requires start < e <= |s| && LazyEnd(s, start, e).None?
    ensures forall k | e <= k <= |s| :: !GroupEndsAt(s, k) || exists b | e <= b < k :: s[b] == '\n'
    decreases |s| - e
  {
    assert !GroupEndsAt(s, e);
    if e < |s| && s[e] != '\n' {
      LazyEndNone(s, start, e + 1);
      forall k | e <= k <= |s| && GroupEndsAt(s, k) ensures exists b | e <= b < k :: s[b] == '\n' {
        assert k != e;
        var b :| e + 1 <= b < k && s[b] == '\n';
      }
    } else {
      forall k | e <= k <= |s| && GroupEndsAt(s, k) ensures exists b | e <= b < k :: s[b] == '\n' {
        assert k != e && s[e] == '\n';
      }
    }
  }

  /** Both halves: the first end, or none before a line break. */
  lemma LazyEndMeaning(s: string, start: nat, e: nat)
    requires start < e <= |s|
    ensures var r := LazyEnd(s, start, e);
      r.Some? ==> (GroupEndsAt(s, r.value) && forall k | e <= k < r.value :: !GroupEndsAt(s, k) && s[k] != '\n')
    ensures LazyEnd(s, start, e).None? ==>
      forall k | e <= k <= |s| :: !GroupEndsAt(s, k) || exists b | e <= b < k :: s[b] == '\n'
  {
    if LazyEnd(s, start, e).Some? {
      LazyEndFirst(s, start, e);
    } else {
      LazyEndNone(s, start, e);
    }
  }

  /** The group matched from `start`, if the pattern's tail can follow. */
  function GroupAt(s: string, start: nat): Option<string>
    requires start <= |s|
  {
    if start < |s| && s[start] != '\n' then
      match LazyEnd(s, start, start + 1)
      case Some(e) => Some(s[start..e])
      case None => None
    else None
  }

  /** A group is a non-empty piece of the query without line breaks, ending
      where the tail can follow and nowhere earlier. */
  lemma GroupAtMeaning(s: string, start: nat)
    requires start <= |s|
    ensures var r := GroupAt(s, start);
      r.Some? ==> (start + |r.value| <= |s| && |r.value| >= 1
      && s[start..start + |r.value|] == r.value && '\n' !in r.value
      && GroupEndsAt(s, start + |r.value|)
      && forall k | start < k < start + |r.value| :: !GroupEndsAt(s, k))
  {
    if start < |s| && s[start] != '\n' {
      var r := LazyEnd(s, start, start + 1);
      if r.Some? {
        LazyEndFirst(s, start, start + 1);
        var e := r.value;
        var g := s[start..e];
        assert GroupAt(s, start) == Some(g);
        assert |g| == e - start && start + |g| == e;
        assert forall i | 0 <= i < |g| :: g[i] == s[start + i] && s[start + i] != '\n';
        assert '\n' !in g;
      }
    }
  }

  /** `\s+` backtracking from `w` spaces down to one. */
  function TryWidths(s: string, a: nat, w: nat): Option<string>
    requires 1 <= w && a + w <= |s|
    decreases w
  {
    match GroupAt(s, a + w)
    case Some(g) => Some(g)
    case None => if w == 1 then None else TryWidths(s, a, w - 1)
  }

  /** What backtracking finds is the group at some width up to `w`. */
  lemma {:induction false} TryWidthsSound(s: string, a: nat, w: nat)
    requires 1 <= w && a + w <= |s|
    ensures TryWidths(s, a, w).Some? ==> exists b | a < b <= a + w :: GroupAt(s, b) == TryWidths(s, a, w)
    decreases w
  {
    if GroupAt(s, a + w).None? && w > 1 {
      TryWidthsSound(s, a, w - 1);
    }
  }

  /** The pattern matches at `p` with its group starting at `b`. */
  predicate FindMatch(s: string, p: nat, b: nat, g: string)
    requires b <= |s|
  {
    p + 5 < b && s[p..p + 5] == "найди"
    && (forall i | p + 5 <= i < b :: IsSpace(s[i])) && GroupAt(s, b) == Some(g)
  }

  /** The length of the whitespace run at `a`. */
  function SpacesAt(s: string, a: nat): (n: nat)
    requires a <= |s|
    ensures a + n <= |s| && forall i | a <= i < a + n :: IsSpace(s[i])
    ensures a + n == |s| || !IsSpace(s[a + n])
  {
    var n := Leading(s[a..], IsSpace);
    assert forall i | a <= i < a + n :: s[a..][i - a] == s[i];
    n
  }

  /** The match starting at `p`. */
  function FindAt(s: string, p: nat): Option<string>
    requires p <= |s|
  {
    if p + 5 <= |s| && s[p..p + 5] == "найди" then
      var w := SpacesAt(s, p + 5);
      if w == 0 then None else TryWidths(s, p + 5, w)
    else None
  }

  /** A match at `p` is the word, at least one space, and a group. */
  lemma FindAtMeaning(s: string, p: nat)
    requires p <= |s| && FindAt(s, p).Some?
    ensures exists b | p + 5 < b <= |s| :: FindMatch(s, p, b, FindAt(s, p).value)
  {
    var w := SpacesAt(s, p + 5);
    TryWidthsSound(s, p + 5, w);
    var b :| p + 5 < b <= p + 5 + w && GroupAt(s, b) == FindAt(s, p);
    assert FindMatch(s, p, b, FindAt(s, p).value);
  }

  function FindScan(s: string): nat -> Option<string> {
    (q: nat) => if q <= |s| then FindAt(s, q) else None
  }

  /** The group of the leftmost match. */
  function FindSearch(s: string): Option<string>
  {
    FirstFrom(0, |s|, FindScan(s))
  }

  /** `re.search` for the search pattern: the group of the leftmost match,
      which is the word "найди", spaces and a group, the group ending
      before the first ` в ` or at the end. */
  lemma FindQueryMeaning(s: string)
    requires FindSearch(s).Some?
    ensures exists q, b | 0 <= q && q + 5 < b <= |s| :: FindMatch(s, q, b, FindSearch(s).value)
  {
    var q :| 0 <= q <= |s| && FindScan(s)(q) == FindSearch(s);
    FindAtMeaning(s, q);
  }

  /** If some width up to `w` lets the group match, backtracking finds
      one. */
  lemma {:induction false} TryWidthsComplete(s: string, a: nat, w: nat, v: nat)
    requires 1 <= v <= w && a + w <= |s| && GroupAt(s, a + v).Some?
    ensures TryWidths(s, a, w).Some?
    decreases w
  {
    if w == v {
      assert GroupAt(s, a + w).Some?;
    } else {
      TryWidthsComplete(s, a, w - 1, v);
      TryWidthsStep(s, a, w);
    }
  }

  /** One backtracking step: a failing width hands over to the next
      narrower one. */
  lemma TryWidthsStep(s: string, a: nat, w: nat)
    requires 2 <= w && a + w <= |s|
    ensures TryWidths(s, a, w).None? ==> TryWidths(s, a, w - 1).None?
  {
  }

  /** Every match at `p` is found there. */
  lemma FindAtComplete(s: string, p: nat, b: nat, g: string)
    requires b <= |s| && FindMatch(s, p, b, g)
    ensures FindAt(s, p).Some?
  {
    var w := SpacesAt(s, p + 5);
    assert b - (p + 5) <= w;
    TryWidthsComplete(s, p + 5, w, b - (p + 5));
  }

  /** When the search finds nothing, the pattern matches nowhere. */
  lemma FindQueryNone(s: string)
    requires FindSearch(s).None?
    ensures forall q: nat, b: nat, g: string | b <= |s| :: !FindMatch(s, q, b, g)
  {
    forall q: nat, b: nat, g: string | b <= |s| && FindMatch(s, q, b, g)
      ensures false
    {
      FirstFromNoneAt(0, |s|, FindScan(s), q);
      FindAtComplete(s, q, b, g);
    }
  }

  /** `str.split()`: the maximal runs of non-space characters. */
  function Words(s: string): (r: seq<string>)
    ensures forall k | 0 <= k < |r| :: |r[k]| > 0 && forall i | 0 <= i < |r[k]| :: !IsSpace(r[k][i])
  {
    RunsAllMatch(s, c => !IsSpace(c));
    Runs(s, c => !IsSpace(c))
  }

  function JoinSpaced(ws: seq<string>): string
    decreases |ws|
  {
    if |ws| == 0 then "" else if |ws| == 1 then ws[0] else JoinSpaced(ws[..|ws| - 1]) + " " + ws[|ws| - 1]
  }

  /** `" ".join(query.split()[-3:])`. */
  function LastWords(query: string): string {
    JoinSpaced(PySliceFrom(Words(query), -3))
  }

  /** Splitting loses only the spaces: the words, concatenated, are the
      query's non-space characters in order. */
  lemma WordsKeepText(s: string)
    ensures Flatten(Words(s)) == Filter(s, c => !IsSpace(c))
  {
    RunsAreTheMatches(s, c => !IsSpace(c));
  }

  // --- `_extract_params` ---

  const CampaignActions: seq<string> := ["start_campaign", "pause_campaign", "delete_campaign", "campaign_stats", "update_bid"]
  const ReportActions: seq<string> := ["sales_report", "orders_report", "top_products", "revenue_report"]

  /** `days` when no date was found. */
  function PeriodDays(query: string): (r: int)
    ensures r in {7, 30, 365}
  {
    var q := Lower(query);
    if Contains(q, "недел") || Contains(query, "7") then 7
    else if Contains(q, "месяц") || Contains(query, "30") then 30
    else if Contains(q, "год") || Contains(query, "365") then 365
    else 30
  }

  /** The report parameters: a date and one day, or a period; a limit. */
  function ReportParams(query: string): (r: Params)
  {
    var numbers := Numbers(query);
    var dated := match DateSearch(query)
      case Some(parts) => NoParams.(dateFrom := Some(FormatDate(parts)), days := Some(1))
      case None => NoParams.(days := Some(PeriodDays(query)));
    var limit := if Contains(Lower(query), "топ") && |numbers| > 0 then NumberAt(numbers, 0) else 10;
    dated.(limit := Some(limit))
  }

  /** `_extract_params` as written. Its later `update_bid` branch, which
      would read the bid, sits behind the campaign branch that already
      takes `update_bid`, so it never runs and has no counterpart here. */
  function ExtractParamsAsWritten(query: string, action: string): (r: Params)
  {
    var q := Lower(query);
    var numbers := Numbers(query);
    if action == "update_price" then
      var p := if |numbers| >= 2
        then NoParams.(nmId := Some(NumberAt(numbers, 0)), price := Some(NumberAt(numbers, 1) as real))
        else NoParams;
      if Contains(q, "скидка") || Contains(query, "%") then
        match PercentSearch(query)
        case Some(d) => p.(discount := Some(DigitsValue(d)))
        case None => p
      else p
    else if action == "search_products" then
      if Contains(q, "найди") then
        match FindSearch(q)
        case Some(g) => NoParams.(query := Some(Strip(g)))
        case None => NoParams
      else NoParams.(query := Some(LastWords(query)))
    else if action in CampaignActions then
      if |numbers| > 0 then NoParams.(campaignId := Some(NumberAt(numbers, 0))) else NoParams
    else if action in ReportActions then ReportParams(query)
    else NoParams
  }

  /** `update_bid` is in the campaign list checked first, so the branch that
      reads the bid never runs: the bid is never extracted. */
  lemma BidNeverExtracted(query: string)
    ensures ExtractParamsAsWritten(query, "update_bid").bid.None?
  {
    assert "update_bid" in CampaignActions;
  }

  /** `_extract_params` with the bid read for `update_bid` as the dead branch
      means: the last number, when there are at least two. */
  function ExtractParams(query: string, action: string): (r: Params)
    ensures action != "update_bid" ==> r == ExtractParamsAsWritten(query, action)
  {
    var p := ExtractParamsAsWritten(query, action);
    var numbers := Numbers(query);
    if action == "update_bid" && |numbers| >= 2 then p.(bid := Some(NumberAt(numbers, |numbers| - 1))) else p
  }

  /** For `update_price` the article and the price are the first two numbers,
      present exactly when there are two; the discount is the first number
      written before `%`, read only when "скидка" or `%` appears. */
  lemma UpdatePriceParams(query: string)
    ensures var p := ExtractParams(query, "update_price");
      var numbers := Numbers(query);
      (p.nmId.Some? <==> |numbers| >= 2) && (p.price.Some? <==> |numbers| >= 2)
      && (|numbers| >= 2 ==> p.nmId == Some(DigitsValue(numbers[0])) && p.price == Some(DigitsValue(numbers[1]) as real))
      && (p.discount.Some? <==>
          (Contains(Lower(query), "скидка") || Contains(query, "%")) && PercentSearch(query).Some?)
      && (p.discount.Some? ==> p.discount == Some(DigitsValue(PercentSearch(query).value)))
      && p.campaignId.None? && p.bid.None? && p.days.None? && p.limit.None?
  {
  }

  /** For campaign actions the id is the first number; with the bid read,
      `update_bid` gets the last number as its bid. */
  lemma CampaignParams(query: string, action: string)
    requires action in CampaignActions
    ensures var p := ExtractParams(query, action);
      var numbers := Numbers(query);
      (p.campaignId.Some? <==> |numbers| > 0)
      && (|numbers| > 0 ==> p.campaignId == Some(DigitsValue(numbers[0])))
      && (p.bid.Some? <==> action == "update_bid" && |numbers| >= 2)
      && (p.bid.Some? ==> p.bid == Some(DigitsValue(numbers[|numbers| - 1])))
  {
    assert action != "update_price" && action != "search_products";
  }

  /** For reports: a `D.M.Y` date gives `date_from` in `YYYY-MM-DD` form and
      one day; otherwise the period is 7, 30 or 365 days by keyword, else 30.
      The limit is the first number when "топ" appears, else 10. */
  lemma ReportParamsMeaning(query: string, action: string)
    requires action in ReportActions
    ensures var p := ExtractParams(query, action);
      var numbers := Numbers(query);
      (DateSearch(query).Some? ==> p.dateFrom == Some(FormatDate(DateSearch(query).value)) && p.days == Some(1))
      && (DateSearch(query).None? ==> p.dateFrom.None? && p.days == Some(PeriodDays(query)))
      && (Contains(Lower(query), "топ") && |numbers| > 0 ==> p.limit == Some(DigitsValue(numbers[0])))
      && (!Contains(Lower(query), "топ") || |numbers| == 0 ==> p.limit == Some(10))
  {
    assert action !in CampaignActions;
    assert action != "update_price" && action != "search_products" && action != "update_bid";
  }

  // ---------------------------------------------------------------------------
  // Dispatch
  // ---------------------------------------------------------------------------

  /** The manager call `_execute_action` would make, with its arguments. */
  datatype Call =
    | GetAllProducts(limit: int)
    | SearchProducts(text: string, limit: int)
    | UpdatePrice(nmId: int, price: real, discount: Option<int>)
    | CheckStocks
    | GetSales(limit: int)
    | GetOrders(limit: int)
    | DayRevenue(date: string)
    | CalculateRevenue(days: int)
    | TopProducts(days: int, limit: int)
    | DetailedReport(limit: int)
    | WeeklyReport
    | StocksReport
    | ListCampaigns
    | CampaignStats(campaignId: int)
    | StartCampaign(campaignId: int)
    | PauseCampaign(campaignId: int)
    | DeleteCampaign(campaignId: int)
    | UpdateBid(campaignId: int, bid: int)
    | NewOrders(limit: int)
    | SellerInfo
    | ShowHelp

  /** A call, a `ValueError` with its message, or the `{"error": …}` answer
      for an action it does not know. */
  datatype Outcome = Invoke(call: Call) | Raises(message: string) | UnknownAction(error: string)

  const NeedIdAndPrice := "Укажите артикул товара и новую цену"
  const NeedCampaign := "Укажите ID кампании"
  const NeedCampaignAndBid := "Укажите ID кампании и новую ставку"

  /** The actions `_execute_action` has a branch for. */
  const KnownActions: set<string> := {
    "list_products", "search_products", "update_price", "check_stocks",
    "sales_report", "orders_report", "revenue_report", "top_products", "detailed_report",
    "weekly_report", "stocks_report", "list_campaigns", "campaign_stats", "start_campaign",
    "pause_campaign", "delete_campaign", "update_bid", "new_orders", "seller_info", "help"}

  /** The campaign actions that need only an id. */
  const IdActions: set<string> := {"campaign_stats", "start_campaign", "pause_campaign", "delete_campaign"}

  /** Which actions fail their parameter check. */
  predicate MissingParams(action: string, p: Params) {
    (action == "update_price" && (p.nmId.None? || p.price.None?))
    || (action in IdActions && p.campaignId.None?)
    || (action == "update_bid" && (p.campaignId.None? || p.bid.None?))
  }

  /** `_execute_action`: an unknown action gives the error answer, a known
      one whose required parameters are missing raises, every other one
      makes its call with the extracted values or the defaults. */
  function ExecuteAction(action: string, p: Params): (r: Outcome)
    ensures r.UnknownAction? <==> action !in KnownActions
    ensures r.UnknownAction? ==> r.error == "Неизвестное действие: " + action
    ensures r.Raises? <==> action in KnownActions && MissingParams(action, p)
    ensures action == "update_price" && r.Invoke? ==>
      r.call == UpdatePrice(p.nmId.value, p.price.value, p.discount)
    ensures action in IdActions && r.Invoke? ==>
      (r.call.CampaignStats? || r.call.StartCampaign? || r.call.PauseCampaign? || r.call.DeleteCampaign?)
      && r.call.campaignId == p.campaignId.value
    ensures action == "update_bid" && r.Invoke? ==> r.call == UpdateBid(p.campaignId.value, p.bid.value)
    ensures action == "list_products" ==> r == Invoke(GetAllProducts(p.limit.GetOr(100)))
    ensures action == "search_products" ==> r == Invoke(SearchProducts(p.query.GetOr(""), p.limit.GetOr(100)))
    ensures action == "sales_report" ==> r == Invoke(GetSales(p.limit.GetOr(1000)))
    ensures action == "orders_report" ==> r == Invoke(GetOrders(p.limit.GetOr(1000)))
    ensures action == "revenue_report" && p.dateFrom.Some? ==> r == Invoke(DayRevenue(p.dateFrom.value))
    ensures action == "revenue_report" && p.dateFrom.None? ==> r == Invoke(CalculateRevenue(p.days.GetOr(30)))
    ensures action == "top_products" ==> r == Invoke(TopProducts(p.days.GetOr(30), p.limit.GetOr(10)))
    ensures action == "detailed_report" ==> r == Invoke(DetailedReport(p.limit.GetOr(1000)))
    ensures action == "new_orders" ==> r == Invoke(NewOrders(p.limit.GetOr(100)))
    ensures action in {"check_stocks", "weekly_report", "stocks_report", "list_campaigns", "seller_info", "help"} ==>
      r.Invoke? && r.call in {CheckStocks, WeeklyReport, StocksReport, ListCampaigns, SellerInfo, ShowHelp}
  {
    if action == "list_products" then Invoke(GetAllProducts(p.limit.GetOr(100)))
    else if action == "search_products" then Invoke(SearchProducts(p.query.GetOr(""), p.limit.GetOr(100)))
    else if action == "update_price" then
      if p.nmId.None? || p.price.None? then Raises(NeedIdAndPrice)
      else Invoke(UpdatePrice(p.nmId.value, p.price.value, p.discount))
    else if action == "check_stocks" then Invoke(CheckStocks)
    else if action == "sales_report" then Invoke(GetSales(p.limit.GetOr(1000)))
    else if action == "orders_report" then Invoke(GetOrders(p.limit.GetOr(1000)))
    else if action == "revenue_report" then
      match p.dateFrom
      case Some(d) => Invoke(DayRevenue(d))
      case None => Invoke(CalculateRevenue(p.days.GetOr(30)))
    else if action == "top_products" then Invoke(TopProducts(p.days.GetOr(30), p.limit.GetOr(10)))
    else if action == "detailed_report" then Invoke(DetailedReport(p.limit.GetOr(1000)))
    else if action == "weekly_report" then Invoke(WeeklyReport)
    else if action == "stocks_report" then Invoke(StocksReport)
    else if action == "list_campaigns" then Invoke(ListCampaigns)
    else if action in IdActions then
      if p.campaignId.None? then Raises(NeedCampaign)
      else if action == "campaign_stats" then Invoke(CampaignStats(p.campaignId.value))
      else if action == "start_campaign" then Invoke(StartCampaign(p.campaignId.value))
      else if action == "pause_campaign" then Invoke(PauseCampaign(p.campaignId.value))
      else Invoke(DeleteCampaign(p.campaignId.value))
    else if action == "update_bid" then
      if p.campaignId.None? || p.bid.None? then Raises(NeedCampaignAndBid)
      else Invoke(UpdateBid(p.campaignId.value, p.bid.value))
    else if action == "new_orders" then Invoke(NewOrders(p.limit.GetOr(100)))
    else if action == "seller_info" then Invoke(SellerInfo)
    else if action == "help" then Invoke(ShowHelp)
    else UnknownAction("Неизвестное действие: " + action)
  }

  /** `execute` up to the call: route, extract the parameters as written,
      dispatch. A routed `update_bid` therefore always raises. */
  function Execute(query: string): (r: Outcome)
    ensures AnalyzeRequest(query).action == "update_bid" ==> r == Raises(NeedCampaignAndBid)
    ensures r.UnknownAction? <==> AnalyzeRequest(query).action !in KnownActions
  {
    var action := AnalyzeRequest(query).action;
    var r := ExecuteAction(action, ExtractParamsAsWritten(query, action));
    assert action == "update_bid" ==> r == Raises(NeedCampaignAndBid) by {
      if action == "update_bid" { UpdateBidAlwaysRaises(query); }
    }
    r
  }

  /** `execute` with the bid read for `update_bid`. */
  function ExecuteCorrected(query: string): (r: Outcome)
    ensures r.UnknownAction? <==> AnalyzeRequest(query).action !in KnownActions
  {
    var action := AnalyzeRequest(query).action;
    ExecuteAction(action, ExtractParams(query, action))
  }

  /** The two differ only on `update_bid`: every other routed query makes
      the same call, raises the same error or gets the same answer. */
  lemma ExecuteAgrees(query: string)
    requires AnalyzeRequest(query).action != "update_bid"
    ensures Execute(query) == ExecuteCorrected(query)
  {
  }

  /** A routed `update_bid` with at least two numbers is the one query the
      corrected pipeline sends and the program rejects. */
  lemma ExecuteDiffersOnBid(query: string)
    requires AnalyzeRequest(query).action == "update_bid" && |Numbers(query)| >= 2
    ensures Execute(query) == Raises(NeedCampaignAndBid)
    ensures ExecuteCorrected(query) == Invoke(UpdateBid(DigitsValue(Numbers(query)[0]), DigitsValue(Numbers(query)[|Numbers(query)| - 1])))
  {
    UpdateBidDispatch(query);
  }

  /** `update_price` raises exactly when the query has fewer than two
      numbers; otherwise it sends the first two. */
  lemma UpdatePriceDispatch(query: string)
    ensures var numbers := Numbers(query);
      var r := ExecuteAction("update_price", ExtractParams(query, "update_price"));
      (r.Raises? <==> |numbers| < 2)
      && (|numbers| >= 2 ==> r.Invoke? && r.call.nmId == DigitsValue(numbers[0])
                             && r.call.price == DigitsValue(numbers[1]) as real)
  {
    UpdatePriceParams(query);
  }

  /** With the parameters as written, `update_bid` always raises: the bid
      it checks for is never extracted. */
  lemma UpdateBidAlwaysRaises(query: string)
    ensures ExecuteAction("update_bid", ExtractParamsAsWritten(query, "update_bid")) == Raises(NeedCampaignAndBid)
  {
    BidNeverExtracted(query);
  }

  /** With the bid read, `update_bid` with at least two numbers sets the
      first as campaign and the last as bid; fewer still raise. */
  lemma UpdateBidDispatch(query: string)
    ensures var numbers := Numbers(query);
      var r := ExecuteAction("update_bid", ExtractParams(query, "update_bid"));
      (r.Raises? <==> |numbers| < 2)
      && (|numbers| >= 2 ==> r == Invoke(UpdateBid(DigitsValue(numbers[0]), DigitsValue(numbers[|numbers| - 1]))))
  {
    CampaignParams(query, "update_bid");
  }

  /** The actions the decision chain can choose. */
  const RoutedActions: set<string> := {
    "update_price", "list_products", "search_products", "check_stocks",
    "weekly_report", "top_products", "revenue_report", "detailed_report", "sales_report",
    "start_campaign", "pause_campaign", "delete_campaign", "create_campaign", "update_bid",
    "campaign_stats", "list_campaigns", "new_orders", "cancel_order", "list_orders",
    "list_feedbacks", "seller_info", "help"}

  lemma AnalyzeRequestRouted(query: string)
    ensures AnalyzeRequest(query).action in RoutedActions
  {
  }

  /** Four actions the decision chain chooses have no branch in dispatch, so
      such queries end in the unknown-action answer; every other query is
      dispatched. */
  lemma RoutedButUnknown(query: string)
    ensures Execute(query).UnknownAction? <==>
      AnalyzeRequest(query).action in {"create_campaign", "cancel_order", "list_orders", "list_feedbacks"}
  {
    AnalyzeRequestRouted(query);
    RoutedUnknownIff(AnalyzeRequest(query).action);
  }

  /** Of the routed actions, exactly four have no dispatch branch. */
  lemma RoutedUnknownIff(action: string)
    requires action in RoutedActions
    ensures action !in KnownActions <==> action in {"create_campaign", "cancel_order", "list_orders", "list_feedbacks"}
  {
  }
}
