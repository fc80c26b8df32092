/** The keyword router of nlp_engine.py: a query is lower-cased and matched
    against an ordered table of intents, each with trigger words and an
    ordered list of subtypes. The first intent with a trigger in the query
    decides the type; within it the first subtype with a trigger decides
    the action, else the intent's default action. */
module NlpEngine {
  import opened Common

  datatype Subtype = Subtype(action: string, triggers: seq<string>)

  datatype Intent = Intent(triggers: seq<string>, default: string, kind: string, subtypes: seq<Subtype>)

  /** The `{"action": …, "type": …}` answer of `analyze`. */
  datatype Routing = Routing(action: string, kind: string)

  /** `INTENT_MAP`, in its order. */
  const IntentMap: seq<Intent> := [
    Intent(["товар", "продукт", "карточка", "артикул", "nm", "позиция"],
           "list_products", "products",
           [Subtype("update_price", ["цена", "стоимость", "измени", "обнови", "повысь", "понизь", "дороже", "дешевле"]),
            Subtype("search_products", ["поиск", "найди", "где"]),
            Subtype("check_stocks", ["остаток", "наличие", "склад", "карантин"]),
            Subtype("list_products", ["все", "список", "покажи", "выведи", "каталог"])]),
    Intent(["продажа", "выручка", "заказ", "аналитик", "статистик", "отчет", "деньг", "доход"],
           "sales_report", "analytics",
           [Subtype("weekly_report", ["недел", "weekly"]),
            Subtype("top_products", ["топ", "лучш", "популярн", "рейтинг"]),
            Subtype("revenue_report", ["выручка", "доход", "оборот", "деньг"]),
            Subtype("detailed_report", ["детальн", "подробн", "комиссия", "себестоимость", "прибыль"])]),
    Intent(["реклам", "кампани", "продвижение", "ставка", "cpc", "cpm", "бюджет"],
           "list_campaigns", "advertising",
           [Subtype("start_campaign", ["запусти", "стартуй", "включи", "начни"]),
            Subtype("pause_campaign", ["останови", "пауза", "выключи", "приостанови"]),
            Subtype("delete_campaign", ["удали", "убери", "очисти"]),
            Subtype("create_campaign", ["создай", "новая", "добавь"]),
            Subtype("update_bid", ["ставка", "цена клика"]),
            Subtype("campaign_stats", ["статистик", "эффективность", "roi"])]),
    Intent(["заказ", "сборка", "отгрузка", "fbs", "отмена"],
           "list_orders", "orders",
           [Subtype("new_orders", ["новый", "новые", "текущий", "собрать", "подтверди"]),
            Subtype("cancel_order", ["отмени", "отмена", "отменить"])]),
    Intent(["отзыв", "вопрос", "рейтинг", "оценка", "комментарий"],
           "list_feedbacks", "communication", []),
    Intent(["магазин", "продавец", "информация", "профиль", "кто я"],
           "seller_info", "general", [])
  ]

  /** The answer when no intent matches. */
  const Help := Routing("help", "general")

  /** `any(w in q for w in intent["triggers"])`. */
  predicate IntentMatches(q: string, it: Intent) { AnyIn(it.triggers, q) }

  predicate SubtypeMatches(q: string, st: Subtype) { AnyIn(st.triggers, q) }

  /** The action chosen inside one intent: the first matching subtype's,
      else the default. */
  function SubAction(it: Intent, q: string): (r: string)
    ensures (forall k | 0 <= k < |it.subtypes| :: !SubtypeMatches(q, it.subtypes[k])) ==> r == it.default
    ensures forall k | 0 <= k < |it.subtypes| ::
      SubtypeMatches(q, it.subtypes[k]) && (forall j | 0 <= j < k :: !SubtypeMatches(q, it.subtypes[j]))
      ==> r == it.subtypes[k].action
  {
    match FirstIndex(it.subtypes, (st: Subtype) => SubtypeMatches(q, st))
    case None => it.default
    case Some(k) => it.subtypes[k].action
  }

  /** `analyze` over an already lower-cased query and any intent table. */
  function Route(table: seq<Intent>, q: string): (r: Routing)
    ensures (forall i | 0 <= i < |table| :: !IntentMatches(q, table[i])) ==> r == Help
    ensures forall i | 0 <= i < |table| ::
      IntentMatches(q, table[i]) && (forall j | 0 <= j < i :: !IntentMatches(q, table[j]))
      ==> r == Routing(SubAction(table[i], q), table[i].kind)
  {
    match FirstIndex(table, (it: Intent) => IntentMatches(q, it))
    case None => Help
    case Some(i) => Routing(SubAction(table[i], q), table[i].kind)
  }

  /** The first matching subtype decides the action. */
  lemma SubActionFirst(it: Intent, q: string, k: nat)
    requires k < |it.subtypes| && SubtypeMatches(q, it.subtypes[k])
    requires forall j | 0 <= j < k :: !SubtypeMatches(q, it.subtypes[j])
    ensures SubAction(it, q) == it.subtypes[k].action
  {
  }

  /** The first matching intent decides the answer. */
  lemma RouteAt(table: seq<Intent>, q: string, i: nat)
    requires i < |table| && IntentMatches(q, table[i])
    requires forall j | 0 <= j < i :: !IntentMatches(q, table[j])
    ensures Route(table, q) == Routing(SubAction(table[i], q), table[i].kind)
  {
  }

  /** `RequestAnalyzer().analyze(query)`. */
  function Analyze(query: string): Routing
  {
    Route(IntentMap, Lower(query))
  }

  /** A trigger of an earlier intent shadows every later one: once intent
      `k` matches, the answer's type is that of some intent at or before
      `k`. */
  lemma EarlierIntentWins(table: seq<Intent>, q: string, k: nat)
    requires k < |table| && IntentMatches(q, table[k])
    ensures exists i | 0 <= i <= k :: Route(table, q).kind == table[i].kind
  {
    var p := (it: Intent) => IntentMatches(q, it);
    FirstIndexAtMost(table, p, k);
    var i := FirstIndex(table, p).value;
    assert Route(table, q).kind == table[i].kind;
  }

  /** A word of `words` occurring in `q` makes `AnyIn` hold. */
  lemma AnyInWitness(words: seq<string>, q: string, k: nat)
    requires k < |words| && Contains(q, words[k])
    ensures AnyIn(words, q)
  {
  }

  /** "заказ" is a trigger of both analytics and orders; analytics comes
      first, so a query mentioning orders that way is never routed to the
      orders intent. */
  lemma OrderWordNeverRoutesToOrders(query: string)
    requires Contains(Lower(query), "заказ")
    ensures Analyze(query).kind == "analytics" || Analyze(query).kind == "products"
  {
    var q := Lower(query);
    OrderWordFacts();
    AnyInWitness(IntentMap[1].triggers, q, 2);
    RoutedAtOrBefore(IntentMap, q, 1, {"products", "analytics"});
    AnalyzeIsRoute(query);
  }

  /** Once intent `k` matches, the answer's type is one of those of the
      intents up to `k`. */
  lemma RoutedAtOrBefore(table: seq<Intent>, q: string, k: nat, kinds: set<string>)
    requires k < |table| && IntentMatches(q, table[k])
    requires forall i | 0 <= i <= k :: table[i].kind in kinds
    ensures Route(table, q).kind in kinds
  {
    EarlierIntentWins(table, q, k);
  }

  lemma AnalyzeIsRoute(query: string)
    ensures Analyze(query) == Route(IntentMap, Lower(query))
  {
  }

  /** Where "заказ" sits in the table, and the kinds of the intents before it. */
  lemma OrderWordFacts()
    ensures |IntentMap| == 6 && |IntentMap[1].triggers| > 2 && IntentMap[1].triggers[2] == "заказ"
    ensures IntentMap[0].kind == "products" && IntentMap[1].kind == "analytics"
  {
  }

  /** No intent of the table answers with the help action. */
  ghost predicate NeverHelp(table: seq<Intent>) {
    forall i | 0 <= i < |table| ::
      table[i].default != "help" && forall k | 0 <= k < |table[i].subtypes| :: table[i].subtypes[k].action != "help"
  }

  /** Help is answered exactly when no intent matches, for any table whose
      actions are never "help". */
  lemma HelpIffNoMatch(table: seq<Intent>, q: string)
    requires NeverHelp(table)
    ensures Route(table, q) == Help <==> forall i | 0 <= i < |table| :: !IntentMatches(q, table[i])
  {
    var p := (it: Intent) => IntentMatches(q, it);
    match FirstIndex(table, p)
    case None =>
    case Some(i) =>
      var it := table[i];
      match FirstIndex(it.subtypes, (st: Subtype) => SubtypeMatches(q, st))
      case None =>
      case Some(k) =>
  }

  /** The intent table never answers with help, so `analyze` does so only
      for a query without any trigger. */
  lemma AnalyzeHelpIffNoTrigger(query: string)
    ensures Analyze(query) == Help <==>
      forall i | 0 <= i < |IntentMap| :: !AnyIn(IntentMap[i].triggers, Lower(query))
  {
    IntentMapNeverHelp();
    HelpIffNoMatch(IntentMap, Lower(query));
    assert Analyze(query) == Route(IntentMap, Lower(query));
  }

  lemma IntentMapNeverHelp()
    ensures NeverHelp(IntentMap)
  {
  }
}
