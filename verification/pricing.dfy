/** The auto-pricing engine (pricing_strategy.py): a context per product, five
    strategies that each may propose a price/discount change, the engine that
    asks the strategies in priority order, uploads the proposals in batches and
    marks the accepted ones, and the FBO+FBS stock merge feeding the contexts. */
module Pricing {
  import opened Common
  import opened OrderedDict
  import Inventory

  // ---------------------------------------------------------------------------
  // Context
  // ---------------------------------------------------------------------------

  /** Everything a strategy may look at for one product. */
  datatype Context = Context(
    nmId: int,
    vendorCode: string,
    title: string,
    currentPrice: real,
    currentDiscount: int,
    stockTotal: int,
    avgDailyOrders: real,
    daysWithoutSales: int,
    revenue30d: real)

  /** Days of stock: finite, or infinite when nothing sells. */
  datatype Days = Finite(d: real) | Infinite {
    predicate Below(x: real) { Finite? && d < x }
    predicate Above(x: real) { Infinite? || d > x }
  }

  /** `PricingContext.days_of_stock`: 0 without stock, infinite without
      orders, otherwise the stock divided by daily orders, rounded to 0.1. */
  function DaysOfStock(ctx: Context): (r: Days)
    ensures ctx.stockTotal <= 0 ==> r == Finite(0.0)
    ensures ctx.stockTotal > 0 && ctx.avgDailyOrders <= 0.0 ==> r == Infinite
    ensures ctx.stockTotal > 0 && ctx.avgDailyOrders > 0.0 ==>
      r.Finite? && ctx.stockTotal as real / ctx.avgDailyOrders - 0.05 <= r.d <= ctx.stockTotal as real / ctx.avgDailyOrders + 0.05
  {
    if ctx.stockTotal <= 0 then Finite(0.0)
    else if ctx.avgDailyOrders <= 0.0 then Infinite
    else Finite(RoundTo(ctx.stockTotal as real / ctx.avgDailyOrders, 10))
  }

  /** `PricingContext.discounted_price`: the price after the discount,
      rounded to kopecks. */
  function DiscountedPrice(ctx: Context): (r: real)
    ensures var exact := ctx.currentPrice * (1.0 - ctx.currentDiscount as real / 100.0);
      exact - 0.005 <= r <= exact + 0.005
  {
    RoundTo(ctx.currentPrice * (1.0 - ctx.currentDiscount as real / 100.0), 100)
  }

  // ---------------------------------------------------------------------------
  // Actions
  // ---------------------------------------------------------------------------

  /** Why a strategy proposed a change (the source formats these as text). */
  datatype Reason =
    | LowStock | HighStock
    | Understock | Overstock
    | NoSales | FastSales
    | MarginTarget
    | Season(period: string)

  /** One proposed change. */
  datatype Action = Action(
    nmId: int,
    vendorCode: string,
    title: string,
    oldPrice: real,
    oldDiscount: int,
    newPrice: int,
    newDiscount: int,
    reason: Reason,
    strategyName: string,
    applied: bool)

  /** The marketplace's 0–95% discount window. */
  function ClampDiscount(d: int): (r: int)
    ensures 0 <= r <= 95
    ensures 0 <= d <= 95 ==> r == d
    ensures d < 0 ==> r == 0
    ensures d > 95 ==> r == 95
  {
    Max(0, Min(95, d))
  }

  /** `_make_action`: round the price, clamp the discount, and propose a
      change only if one of them differs from the context. */
  function MakeAction(ctx: Context, newPrice: real, newDiscount: int, reason: Reason, strategy: string): (r: Option<Action>)
    ensures r.None? <==> Round(newPrice) == Round(ctx.currentPrice) && ClampDiscount(newDiscount) == ctx.currentDiscount
    ensures r.Some? ==>
      var a := r.value;
      a.nmId == ctx.nmId && a.vendorCode == ctx.vendorCode && a.title == ctx.title
      && a.oldPrice == ctx.currentPrice && a.oldDiscount == ctx.currentDiscount
      && a.newPrice == Round(newPrice) && a.newDiscount == ClampDiscount(newDiscount)
      && a.reason == reason && a.strategyName == strategy && !a.applied
    ensures r.Some? ==> (0 <= r.value.newDiscount <= 95
      && (r.value.newPrice != Round(ctx.currentPrice) || r.value.newDiscount != ctx.currentDiscount))
  {
    var p := Round(newPrice);
    var d := ClampDiscount(newDiscount);
    if p == Round(ctx.currentPrice) && d == ctx.currentDiscount then None
    else Some(Action(ctx.nmId, ctx.vendorCode, ctx.title, ctx.currentPrice, ctx.currentDiscount,
                     p, d, reason, strategy, false))
  }

  // ---------------------------------------------------------------------------
  // Strategies
  // ---------------------------------------------------------------------------

  /** One `SeasonPeriod`: dates are "MM-DD" texts of the current year. */
  datatype SeasonPeriod = SeasonPeriod(name: string, dateFrom: string, dateTo: string,
                                       discountAdd: int, priceMult: real)

  datatype Strategy =
    | StockStrategy(lowThreshold: int, lowMarkup: real, highThreshold: int, highDiscount: int)
    | TurnoverStrategy(understockDays: real, markup: real, overstockDays: real,
                       discountDelta: int, maxDiscount: int)
    | ConversionStrategy(noSalesDays: int, convDiscountDelta: int, convMaxDiscount: int,
                         fastThreshold: real, fastMarkup: real)
    | MarginStrategy(costPrices: map<int, real>, targetMargin: real, commission: real, tolerance: real)
    | SeasonStrategy(periods: seq<SeasonPeriod>)
  {
    function Name(): string {
      match this
      case StockStrategy(_, _, _, _) => "StockStrategy"
      case TurnoverStrategy(_, _, _, _, _) => "TurnoverStrategy"
      case ConversionStrategy(_, _, _, _, _) => "ConversionStrategy"
      case MarginStrategy(_, _, _, _) => "MarginStrategy"
      case SeasonStrategy(_) => "SeasonStrategy"
    }
  }

  /** The constructors' defaults. */
  const DefaultStock := StockStrategy(10, 0.10, 150, 5)
  const DefaultTurnover := TurnoverStrategy(7.0, 0.10, 60.0, 7, 60)
  const DefaultConversion := ConversionStrategy(7, 5, 50, 5.0, 0.05)

  /** `StockStrategy.evaluate`: mark up scarce stock, discount surplus stock;
      scarcity is checked first. */
  function StockEvaluate(s: Strategy, ctx: Context): (r: Option<Action>)
    requires s.StockStrategy?
    ensures ctx.stockTotal < s.lowThreshold ==>
      r == MakeAction(ctx, ctx.currentPrice * (1.0 + s.lowMarkup), ctx.currentDiscount, LowStock, "StockStrategy")
    ensures !(ctx.stockTotal < s.lowThreshold) && ctx.stockTotal > s.highThreshold ==>
      r == MakeAction(ctx, ctx.currentPrice, ctx.currentDiscount + s.highDiscount, HighStock, "StockStrategy")
    ensures s.lowThreshold <= ctx.stockTotal <= s.highThreshold ==> r == None
  {
    if ctx.stockTotal < s.lowThreshold then
      MakeAction(ctx, ctx.currentPrice * (1.0 + s.lowMarkup), ctx.currentDiscount, LowStock, s.Name())
    else if ctx.stockTotal > s.highThreshold then
      MakeAction(ctx, ctx.currentPrice, ctx.currentDiscount + s.highDiscount, HighStock, s.Name())
    else None
  }

  /** `TurnoverStrategy.evaluate` as written: a rounded cover of exactly 0
      days is read as "no stock". */
  function TurnoverEvaluateAsWritten(s: Strategy, ctx: Context): (r: Option<Action>)
    requires s.TurnoverStrategy?
    ensures DaysOfStock(ctx) == Finite(0.0) ==> r == None
  {
    var days := DaysOfStock(ctx);
    if days == Finite(0.0) then None
    else TurnoverDecide(s, ctx, days)
  }

  /** The two turnover branches once the no-stock case is excluded: mark up
      below the understock cover, discount (capped) above the overstock
      cover; an infinite cover counts as overstock. */
  function TurnoverDecide(s: Strategy, ctx: Context, days: Days): (r: Option<Action>)
    requires s.TurnoverStrategy?
    ensures days.Below(s.understockDays) ==>
      r == MakeAction(ctx, ctx.currentPrice * (1.0 + s.markup), ctx.currentDiscount, Understock, "TurnoverStrategy")
    ensures !days.Below(s.understockDays) && days.Above(s.overstockDays) ==>
      r == MakeAction(ctx, ctx.currentPrice, Min(ctx.currentDiscount + s.discountDelta, s.maxDiscount), Overstock, "TurnoverStrategy")
    ensures !days.Below(s.understockDays) && !days.Above(s.overstockDays) ==> r == None
    ensures r.Some? && r.value.reason == Overstock ==> r.value.newDiscount <= Max(s.maxDiscount, 0)
  {
    if days.Below(s.understockDays) then
      MakeAction(ctx, ctx.currentPrice * (1.0 + s.markup), ctx.currentDiscount, Understock, s.Name())
    else if days.Above(s.overstockDays) then
      MakeAction(ctx, ctx.currentPrice, Min(ctx.currentDiscount + s.discountDelta, s.maxDiscount), Overstock, s.Name())
    else None
  }

  /** `TurnoverStrategy.evaluate` with the no-stock guard reading the stock
      itself, as the guard's comment says it means to. */
  function TurnoverEvaluate(s: Strategy, ctx: Context): (r: Option<Action>)
    requires s.TurnoverStrategy?
    ensures ctx.stockTotal <= 0 ==> r == None
  {
    if ctx.stockTotal <= 0 then None
    else TurnoverDecide(s, ctx, DaysOfStock(ctx))
  }

  /** One unit in stock selling 100 a day: the cover rounds to 0.0 days and the
      strategy as written proposes nothing, although the product will sell out
      within the hour; with the guard on the stock, it is marked up. */
  lemma TurnoverAsWrittenSkipsNearlySoldOut()
    ensures var ctx := Context(1, "A", "T", 1000.0, 0, 1, 100.0, 0, 0.0);
      TurnoverEvaluateAsWritten(DefaultTurnover, ctx) == None
      && TurnoverEvaluate(DefaultTurnover, ctx).Some?
      && TurnoverEvaluate(DefaultTurnover, ctx).value.newPrice == 1100
  {
    var ctx := Context(1, "A", "T", 1000.0, 0, 1, 100.0, 0, 0.0);
    assert Round(1.0 / 100.0 * 10.0) == 0;
    assert DaysOfStock(ctx) == Finite(0.0);
    assert Round(1000.0 * 1.10) == 1100;
    assert Round(1000.0) == 1000;
  }

  /** With the stock-based guard, a product in stock whose cover is below the
      understock threshold is always considered for a markup, and the two
      guards agree whenever the cover does not round to zero. */
  lemma TurnoverInStockMarksUp(s: Strategy, ctx: Context)
    requires s.TurnoverStrategy?
    ensures ctx.stockTotal > 0 && DaysOfStock(ctx).Below(s.understockDays) ==>
      TurnoverEvaluate(s, ctx)
        == MakeAction(ctx, ctx.currentPrice * (1.0 + s.markup), ctx.currentDiscount, Understock, "TurnoverStrategy")
    ensures DaysOfStock(ctx) != Finite(0.0) ==> TurnoverEvaluate(s, ctx) == TurnoverEvaluateAsWritten(s, ctx)
  {
    var days := DaysOfStock(ctx);
    if ctx.stockTotal > 0 && days.Below(s.understockDays) {
      TurnoverUnderstock(s, ctx, days);
    }
  }

  lemma TurnoverUnderstock(s: Strategy, ctx: Context, days: Days)
    requires s.TurnoverStrategy? && days.Below(s.understockDays)
    ensures TurnoverDecide(s, ctx, days)
         == MakeAction(ctx, ctx.currentPrice * (1.0 + s.markup), ctx.currentDiscount, Understock, "TurnoverStrategy")
  {
  }

  /** `ConversionStrategy.evaluate`: discount (capped) products in stock that
      have not sold for long enough; otherwise mark up fast sellers. */
  function ConversionEvaluate(s: Strategy, ctx: Context): (r: Option<Action>)
    requires s.ConversionStrategy?
    ensures ctx.daysWithoutSales >= s.noSalesDays && ctx.stockTotal > 0 ==>
      r == MakeAction(ctx, ctx.currentPrice, Min(ctx.currentDiscount + s.convDiscountDelta, s.convMaxDiscount), NoSales, "ConversionStrategy")
    ensures !(ctx.daysWithoutSales >= s.noSalesDays && ctx.stockTotal > 0) && ctx.avgDailyOrders >= s.fastThreshold ==>
      r == MakeAction(ctx, ctx.currentPrice * (1.0 + s.fastMarkup), ctx.currentDiscount, FastSales, "ConversionStrategy")
    ensures !(ctx.daysWithoutSales >= s.noSalesDays && ctx.stockTotal > 0) && ctx.avgDailyOrders < s.fastThreshold ==> r == None
    ensures r.Some? && r.value.reason == NoSales ==> r.value.newDiscount <= Max(s.convMaxDiscount, 0)
  {
    if ctx.daysWithoutSales >= s.noSalesDays && ctx.stockTotal > 0 then
      MakeAction(ctx, ctx.currentPrice, Min(ctx.currentDiscount + s.convDiscountDelta, s.convMaxDiscount), NoSales, s.Name())
    else if ctx.avgDailyOrders >= s.fastThreshold then
      MakeAction(ctx, ctx.currentPrice * (1.0 + s.fastMarkup), ctx.currentDiscount, FastSales, s.Name())
    else None
  }

  function AbsReal(x: real): real { if x < 0.0 then -x else x }

  /** `MarginStrategy.evaluate`: the price giving the target margin after
      commission, `cost / (1 - margin - commission)`, proposed when it deviates
      from the current price by more than the tolerance. The source divides
      by the current price, so a zero price is outside its domain. */
  function MarginEvaluate(s: Strategy, ctx: Context): (r: Option<Action>)
    requires s.MarginStrategy?
    requires ctx.currentPrice != 0.0
    ensures ctx.nmId !in s.costPrices ==> r == None
    ensures 1.0 - s.targetMargin - s.commission <= 0.0 ==> r == None
    ensures r.Some? ==>
      var target := s.costPrices[ctx.nmId] / (1.0 - s.targetMargin - s.commission);
      AbsReal(target - ctx.currentPrice) / ctx.currentPrice > s.tolerance
      && r == MakeAction(ctx, target, ctx.currentDiscount, MarginTarget, "MarginStrategy")
    ensures ctx.nmId in s.costPrices && 1.0 - s.targetMargin - s.commission > 0.0 ==>
      var target := s.costPrices[ctx.nmId] / (1.0 - s.targetMargin - s.commission);
      AbsReal(target - ctx.currentPrice) / ctx.currentPrice <= s.tolerance ==> r == None
  {
    if ctx.nmId !in s.costPrices then None
    else
      var denominator := 1.0 - s.targetMargin - s.commission;
      if denominator <= 0.0 then None
      else
        var target := s.costPrices[ctx.nmId] / denominator;
        if AbsReal(target - ctx.currentPrice) / ctx.currentPrice > s.tolerance then
          MakeAction(ctx, target, ctx.currentDiscount, MarginTarget, s.Name())
        else None
  }

  // ---------------------------------------------------------------------------
  // Season periods
  // ---------------------------------------------------------------------------

  /** The current wall-clock reading: a calendar date and the time of day in
      microseconds since midnight. */
  datatype Moment = Moment(year: int, month: int, day: int, micros: nat)

  predicate IsLeap(y: int) { (y % 4 == 0 && y % 100 != 0) || y % 400 == 0 }

  function DaysInMonth(y: int, m: int): int
    requires 1 <= m <= 12
  {
    if m == 2 then (if IsLeap(y) then 29 else 28)
    else if m == 4 || m == 6 || m == 9 || m == 11 then 30
    else 31
  }

  /** `datetime.strptime(f"{year}-{text}", "%Y-%m-%d")` for the "MM-DD" part:
      one or two digits, a dash, one or two digits, naming a real date of
      that year. */
  function ParseMonthDay(year: int, text: string): (r: Option<(int, int)>)
    ensures r.Some? ==> 1 <= r.value.0 <= 12 && 1 <= r.value.1 <= DaysInMonth(year, r.value.0)
  {
    var dash := DashAt(text, 0);
    if dash.None? then None
    else
      var i := dash.value;
      var ms := text[..i];
      var ds := text[i + 1..];
      if 1 <= |ms| <= 2 && 1 <= |ds| <= 2 && AllDigits(ms) && AllDigits(ds) then
        var m := DigitsValue(ms);
        var d := DigitsValue(ds);
        if 1 <= m <= 12 && 1 <= d <= DaysInMonth(year, m) then Some((m, d)) else None
      else None
  }

  function DashAt(text: string, from: nat): (r: Option<nat>)
    requires from <= |text|
    ensures r.Some? ==> from <= r.value < |text| && text[r.value] == '-'
    decreases |text| - from
  {
    if from == |text| then None
    else if text[from] == '-' then Some(from)
    else DashAt(text, from + 1)
  }

  /** `(month, day, micros)` order of two moments of the same year. */
  predicate NotAfter(m1: int, d1: int, t1: nat, m2: int, d2: int, t2: nat) {
    m1 < m2 || (m1 == m2 && (d1 < d2 || (d1 == d2 && t1 <= t2)))
  }

  /** `SeasonStrategy._is_active` as written: the bounds are midnight of
      their dates and `today` carries the time of day. */
  predicate IsActiveAsWritten(p: SeasonPeriod, today: Moment) {
    var f := ParseMonthDay(today.year, p.dateFrom);
    var t := ParseMonthDay(today.year, p.dateTo);
    if f.None? || t.None? then false
    else
      var fromNotAfterTo := NotAfter(f.value.0, f.value.1, 0, t.value.0, t.value.1, 0);
      var afterFrom := NotAfter(f.value.0, f.value.1, 0, today.month, today.day, today.micros);
      var beforeTo := NotAfter(today.month, today.day, today.micros, t.value.0, t.value.1, 0);
      if fromNotAfterTo then afterFrom && beforeTo else afterFrom || beforeTo
  }

  /** Active on every day from `date_from` through `date_to`, whole days,
      wrapping over the new year when `date_from` is later. */
  predicate IsActive(p: SeasonPeriod, today: Moment) {
    var f := ParseMonthDay(today.year, p.dateFrom);
    var t := ParseMonthDay(today.year, p.dateTo);
    if f.None? || t.None? then false
    else
      var fromNotAfterTo := NotAfter(f.value.0, f.value.1, 0, t.value.0, t.value.1, 0);
      var afterFrom := NotAfter(f.value.0, f.value.1, 0, today.month, today.day, 0);
      var beforeTo := NotAfter(today.month, today.day, 0, t.value.0, t.value.1, 0);
      if fromNotAfterTo then afterFrom && beforeTo else afterFrom || beforeTo
  }

  /** The period "11-20".."12-05" on 5 December at 10:00: the check as written
      says inactive, the whole-day check says active. */
  lemma SeasonLastDayLost()
    ensures var p := SeasonPeriod("Black Friday", "11-20", "12-05", 10, 1.0);
      var today := Moment(2025, 12, 5, 36000000000);
      !IsActiveAsWritten(p, today) && IsActive(p, today)
  {
    ParsesNovember20();
    ParsesDecember5();
  }

  lemma ParsesNovember20()
    ensures ParseMonthDay(2025, "11-20") == Some((11, 20))
  {
    assert DashAt("11-20", 0) == Some(2);
    assert "11-20"[..2] == "11" && "11-20"[3..] == "20";
    assert DigitsValue("11") == 11 && DigitsValue("20") == 20;
  }

  lemma ParsesDecember5()
    ensures ParseMonthDay(2025, "12-05") == Some((12, 5))
  {
    assert DashAt("12-05", 0) == Some(2);
    assert "12-05"[..2] == "12" && "12-05"[3..] == "05";
    assert DigitsValue("12") == 12 && DigitsValue("05") == 5;
  }

  /** The whole-day check agrees with the source at midnight and does not
      depend on the time of day. */
  lemma IsActiveWholeDays(p: SeasonPeriod, y: int, m: int, d: int, t: nat)
    ensures IsActive(p, Moment(y, m, d, t)) == IsActive(p, Moment(y, m, d, 0))
    ensures IsActive(p, Moment(y, m, d, 0)) == IsActiveAsWritten(p, Moment(y, m, d, 0))
  {
  }

  /** A period's proposal: price times the multiplier, discount plus the
      increment. */
  function PeriodAction(p: SeasonPeriod, ctx: Context): Option<Action> {
    MakeAction(ctx, ctx.currentPrice * p.priceMult, ctx.currentDiscount + p.discountAdd, Season(p.name), "SeasonStrategy")
  }

  /** Which reading of the two rules that misfire the engine runs:
      `AsWritten` is the program itself (the turnover rule skips a cover
      that rounds to 0.0 days, the season check compares the time of day
      with midnight); `Corrected` guards the turnover rule on the stock and
      counts season days whole. */
  datatype Rules = AsWritten | Corrected

  /** The season activity test under the given rules. */
  predicate ActiveBy(rules: Rules, p: SeasonPeriod, today: Moment) {
    if rules.AsWritten? then IsActiveAsWritten(p, today) else IsActive(p, today)
  }

  /** What one period proposes today: nothing unless it is active. */
  function PeriodOutcome(rules: Rules, p: SeasonPeriod, ctx: Context, today: Moment): Option<Action> {
    if ActiveBy(rules, p, today) then PeriodAction(p, ctx) else None
  }

  /** `SeasonStrategy.evaluate`: the first active period that changes
      something. */
  function SeasonEvaluate(rules: Rules, periods: seq<SeasonPeriod>, ctx: Context, today: Moment): (r: Option<Action>)
    ensures r.Some? ==> exists i | 0 <= i < |periods| ::
      (ActiveBy(rules, periods[i], today) && r == PeriodAction(periods[i], ctx)
       && forall j | 0 <= j < i :: !ActiveBy(rules, periods[j], today) || PeriodAction(periods[j], ctx).None?)
    ensures r.None? ==> forall i | 0 <= i < |periods| :: !ActiveBy(rules, periods[i], today) || PeriodAction(periods[i], ctx).None?
  {
    FirstSome(periods, p => PeriodOutcome(rules, p, ctx, today))
  }

  /** On the last day of a period after midnight the season rule as written
      proposes nothing where the corrected one proposes the period's action. */
  lemma SeasonAsWrittenMissesLastDay(ctx: Context)
    requires PeriodAction(SeasonPeriod("Black Friday", "11-20", "12-05", 10, 1.0), ctx).Some?
    ensures var periods := [SeasonPeriod("Black Friday", "11-20", "12-05", 10, 1.0)];
      var today := Moment(2025, 12, 5, 36000000000);
      SeasonEvaluate(AsWritten, periods, ctx, today).None?
      && SeasonEvaluate(Corrected, periods, ctx, today) == PeriodAction(periods[0], ctx)
  {
    var p := SeasonPeriod("Black Friday", "11-20", "12-05", 10, 1.0);
    var today := Moment(2025, 12, 5, 36000000000);
    assert PeriodOutcome(AsWritten, p, ctx, today).None? && PeriodOutcome(Corrected, p, ctx, today) == PeriodAction(p, ctx) by {
      SeasonLastDayLost();
    }
    FirstSomeSingle(p, q => PeriodOutcome(AsWritten, q, ctx, today));
    FirstSomeSingle(p, q => PeriodOutcome(Corrected, q, ctx, today));
  }

  /** At midnight both readings of the season rule agree. */
  lemma {:induction false} SeasonRulesAgreeAtMidnight(periods: seq<SeasonPeriod>, ctx: Context, today: Moment)
    requires today.micros == 0
    ensures SeasonEvaluate(AsWritten, periods, ctx, today) == SeasonEvaluate(Corrected, periods, ctx, today)
  {
    forall p | p in periods
      ensures PeriodOutcome(AsWritten, p, ctx, today) == PeriodOutcome(Corrected, p, ctx, today)
    {
      IsActiveWholeDays(p, today.year, today.month, today.day, 0);
    }
    FirstSomeSame(periods, p => PeriodOutcome(AsWritten, p, ctx, today), p => PeriodOutcome(Corrected, p, ctx, today));
  }

  // ---------------------------------------------------------------------------
  // Dispatch
  // ---------------------------------------------------------------------------

  /** `strategy.evaluate(ctx)`; `AsWritten` is the program's own dispatch. */
  function Evaluate(rules: Rules, s: Strategy, ctx: Context, today: Moment): (r: Option<Action>)
    requires s.MarginStrategy? ==> ctx.currentPrice != 0.0
    ensures r.Some? ==> (r.value.strategyName == s.Name() && r.value.nmId == ctx.nmId && !r.value.applied
      && 0 <= r.value.newDiscount <= 95)
  {
    match s
    case StockStrategy(_, _, _, _) => StockEvaluate(s, ctx)
    case TurnoverStrategy(_, _, _, _, _) =>
      if rules.AsWritten? then TurnoverEvaluateAsWritten(s, ctx) else TurnoverEvaluate(s, ctx)
    case ConversionStrategy(_, _, _, _, _) => ConversionEvaluate(s, ctx)
    case MarginStrategy(_, _, _, _) => MarginEvaluate(s, ctx)
    case SeasonStrategy(periods) => SeasonEvaluate(rules, periods, ctx, today)
  }

  /** The two readings differ only on a cover that rounds to 0.0 days and
      on the time of day: they agree at midnight on any other product. */
  lemma RulesAgree(s: Strategy, ctx: Context, today: Moment)
    requires s.MarginStrategy? ==> ctx.currentPrice != 0.0
    requires today.micros == 0 && DaysOfStock(ctx) != Finite(0.0)
    ensures Evaluate(AsWritten, s, ctx, today) == Evaluate(Corrected, s, ctx, today)
  {
    if s.TurnoverStrategy? {
      TurnoverInStockMarksUp(s, ctx);
    } else if s.SeasonStrategy? {
      SeasonRulesAgreeAtMidnight(s.periods, ctx, today);
    }
  }

  /** The first strategy, in priority order, that proposes a change. */
  function FirstAction(rules: Rules, strategies: seq<Strategy>, ctx: Context, today: Moment): (r: Option<Action>)
    requires ctx.currentPrice > 0.0
    ensures r.Some? ==> exists i | 0 <= i < |strategies| ::
      r == Evaluate(rules, strategies[i], ctx, today)
      && forall j | 0 <= j < i :: Evaluate(rules, strategies[j], ctx, today).None?
    ensures r.None? ==> forall i | 0 <= i < |strategies| :: Evaluate(rules, strategies[i], ctx, today).None?
    decreases |strategies|
  {
    if |strategies| == 0 then None
    else
      var first := Evaluate(rules, strategies[0], ctx, today);
      if first.Some? then first
      else
        var rest := FirstAction(rules, strategies[1..], ctx, today);
        assert forall i | 1 <= i < |strategies| :: strategies[1..][i - 1] == strategies[i];
        if rest.Some? then
          var k :| 0 <= k < |strategies[1..]| && rest == Evaluate(rules, strategies[1..][k], ctx, today)
            && forall j | 0 <= j < k :: Evaluate(rules, strategies[1..][j], ctx, today).None?;
          assert rest == Evaluate(rules, strategies[k + 1], ctx, today);
          rest
        else rest
  }

  /** What one context contributes: nothing for a non-positive price,
      otherwise the winning strategy's proposal if any. */
  function ProposalFor(rules: Rules, strategies: seq<Strategy>, ctx: Context, today: Moment): (r: seq<Action>)
    ensures |r| <= 1
    ensures ctx.currentPrice <= 0.0 ==> r == []
    ensures forall a | a in r :: (a.nmId == ctx.nmId && a.oldPrice == ctx.currentPrice && !a.applied
      && 0 <= a.newDiscount <= 95)
  {
    if ctx.currentPrice <= 0.0 then []
    else
      var a := FirstAction(rules, strategies, ctx, today);
      if a.Some? then [a.value] else []
  }

  /** `PricingEngine._evaluate`. */
  function EvaluateAll(rules: Rules, strategies: seq<Strategy>, contexts: seq<Context>, today: Moment): (r: seq<Action>)
    ensures |r| <= |contexts|
    ensures forall a | a in r :: a.oldPrice > 0.0 && !a.applied && 0 <= a.newDiscount <= 95
    decreases |contexts|
  {
    if |contexts| == 0 then []
    else
      var init := EvaluateAll(rules, strategies, contexts[..|contexts| - 1], today);
      var last := ProposalFor(rules, strategies, contexts[|contexts| - 1], today);
      assert forall a | a in init + last :: a in init || a in last;
      init + last
  }

  /** Evaluation goes context by context: the proposals for a concatenation
      are the proposals for each part, in order. */
  lemma {:induction false} EvaluateAllAppend(rules: Rules, strategies: seq<Strategy>, a: seq<Context>, b: seq<Context>, today: Moment)
    ensures EvaluateAll(rules, strategies, a + b, today) == EvaluateAll(rules, strategies, a, today) + EvaluateAll(rules, strategies, b, today)
    decreases |b|
  {
    if |b| > 0 {
      var init := b[..|b| - 1];
      InitOfAppend(a, b);
      EvaluateAllAppend(rules, strategies, a, init, today);
      ConcatAssoc(EvaluateAll(rules, strategies, a, today), EvaluateAll(rules, strategies, init, today),
                  ProposalFor(rules, strategies, b[|b| - 1], today));
    } else {
      assert a + b == a;
    }
  }

  function HasPositivePrice(ctx: Context): bool { ctx.currentPrice > 0.0 }

  /** Products without a positive price never reach the strategies. */
  lemma {:induction false} EvaluateAllIgnoresUnpriced(rules: Rules, strategies: seq<Strategy>, contexts: seq<Context>, today: Moment)
    ensures EvaluateAll(rules, strategies, contexts, today) == EvaluateAll(rules, strategies, Filter(contexts, HasPositivePrice), today)
    decreases |contexts|
  {
    if |contexts| > 0 {
      var init := contexts[..|contexts| - 1];
      var last := contexts[|contexts| - 1];
      EvaluateAllIgnoresUnpriced(rules, strategies, init, today);
      var kept := if HasPositivePrice(last) then [last] else [];
      EvaluateAllAppend(rules, strategies, Filter(init, HasPositivePrice), kept, today);
      if HasPositivePrice(last) {
        assert kept[..0] == [];
      }
    }
  }

  // ---------------------------------------------------------------------------
  // Upload
  // ---------------------------------------------------------------------------

  /** One entry of the bulk price upload. */
  datatype PriceUpdate = PriceUpdate(nmId: int, price: int, discount: int)

  function Payload(actions: seq<Action>): (r: seq<PriceUpdate>)
    ensures |r| == |actions|
    ensures forall i | 0 <= i < |actions| ::
      r[i] == PriceUpdate(actions[i].nmId, actions[i].newPrice, actions[i].newDiscount)
  {
    seq(|actions|, i requires 0 <= i < |actions| =>
      PriceUpdate(actions[i].nmId, actions[i].newPrice, actions[i].newDiscount))
  }

  const UploadBatchSize: nat := 1000

  /** The batch of the upload that carries action `i`. */
  function BatchOf(actions: seq<Action>, i: nat): seq<Action>
    requires i < |actions|
  {
    var start := (i / UploadBatchSize) * UploadBatchSize;
    actions[start..Min(start + UploadBatchSize, |actions|)]
  }

  /** `PricingEngine._apply`: the payload goes up in batches of 1000 and the
      actions of every batch the marketplace accepts are marked applied;
      `accepts` stands for the upload call succeeding. */
  method Apply(actions: seq<Action>, accepts: seq<PriceUpdate> -> bool) returns (r: seq<Action>)
    ensures |r| == |actions|
    ensures forall i | 0 <= i < |actions| ::
      r[i].(applied := actions[i].applied) == actions[i]
      && r[i].applied == (actions[i].applied || accepts(Payload(BatchOf(actions, i))))
  {
    r := actions;
    var start := 0;
    while start < |actions|
      invariant 0 <= start <= |actions| + UploadBatchSize
      invariant start % UploadBatchSize == 0
      invariant |r| == |actions|
      invariant forall i | 0 <= i < |actions| ::
        r[i] == if i < start && accepts(Payload(BatchOf(actions, i))) then actions[i].(applied := true) else actions[i]
      decreases |actions| - start
    {
      var end := Min(start + UploadBatchSize, |actions|);
      var batch := actions[start..end];
      if accepts(Payload(batch)) {
        r := MarkApplied(r, actions, start, end);
      }
      BatchOfRange(actions, start, end);
      start := start + UploadBatchSize;
    }
  }

  /** Actions `start..end` of `r` marked applied, the rest unchanged. */
  function MarkApplied(r: seq<Action>, actions: seq<Action>, start: nat, end: nat): (r': seq<Action>)
    requires |r| == |actions| && start <= end <= |actions|
    ensures |r'| == |r|
    ensures forall i | 0 <= i < |r| :: r'[i] == if start <= i < end then actions[i].(applied := true) else r[i]
  {
    seq(|r|, i requires 0 <= i < |r| => if start <= i < end then actions[i].(applied := true) else r[i])
  }

  /** Every action in `start..end` belongs to the batch starting at `start`. */
  lemma BatchOfRange(actions: seq<Action>, start: nat, end: nat)
    requires start % UploadBatchSize == 0 && start < |actions| && end == Min(start + UploadBatchSize, |actions|)
    ensures forall i | start <= i < end :: BatchOf(actions, i) == actions[start..end]
  {
    forall i | start <= i < end
      ensures BatchOf(actions, i) == actions[start..end]
    {
      DivInBlock(i, start);
    }
  }

  lemma DivInBlock(i: nat, start: nat)
    requires start % 1000 == 0 && start <= i < start + 1000
    ensures (i / 1000) * 1000 == start
  {
  }

  /** `PricingEngine.run(dry_run)` after the contexts are built, under the
      given rules: a dry run only proposes; a live run also uploads each
      batch and marks the actions of every accepted batch applied. */
  method Run(rules: Rules, strategies: seq<Strategy>, contexts: seq<Context>, today: Moment, dryRun: bool,
             accepts: seq<PriceUpdate> -> bool) returns (r: seq<Action>)
    ensures contexts == [] ==> r == []
    ensures |r| == |EvaluateAll(rules, strategies, contexts, today)|
    ensures forall i | 0 <= i < |r| ::
      r[i].(applied := false) == EvaluateAll(rules, strategies, contexts, today)[i]
    ensures dryRun ==> r == EvaluateAll(rules, strategies, contexts, today)
    ensures dryRun ==> forall a | a in r :: !a.applied
    ensures !dryRun ==> forall i | 0 <= i < |r| ::
      r[i].applied == accepts(Payload(BatchOf(EvaluateAll(rules, strategies, contexts, today), i)))
  {
    if contexts == [] {
      return [];
    }
    var actions := EvaluateAll(rules, strategies, contexts, today);
    if dryRun {
      r := actions;
    } else {
      r := Apply(actions, accepts);
      forall i | 0 <= i < |r|
        ensures r[i].(applied := false) == actions[i]
        ensures r[i].applied == accepts(Payload(BatchOf(actions, i)))
      {
        assert actions[i] in actions;
      }
    }
  }

  // ---------------------------------------------------------------------------
  // Stock merge and contexts
  // ---------------------------------------------------------------------------

  /** `s.get("quantity") or s.get("stockCount") or 0`. */
  function FboQuantity(s: Inventory.FboStock): int {
    if Truthy(s.quantity) then s.quantity.value
    else if Truthy(s.stockCount) then s.stockCount.value
    else 0
  }

  /** `_get_fbo_stocks_map`: quantities summed per product id, records
      without a product id skipped. */
  function FboStocksMap(stocks: seq<Inventory.FboStock>): map<int, int>
    decreases |stocks|
  {
    if |stocks| == 0 then map[]
    else
      var acc := FboStocksMap(stocks[..|stocks| - 1]);
      var s := stocks[|stocks| - 1];
      if Truthy(s.nmId) then acc[s.nmId.value := (if s.nmId.value in acc then acc[s.nmId.value] else 0) + FboQuantity(s)]
      else acc
  }

  /** The FBO quantity of one product, record by record. */
  function FboTotal(stocks: seq<Inventory.FboStock>, nm: int): int
    decreases |stocks|
  {
    if |stocks| == 0 then 0
    else FboTotal(stocks[..|stocks| - 1], nm)
         + (if stocks[|stocks| - 1].nmId == Some(nm) && nm != 0 then FboQuantity(stocks[|stocks| - 1]) else 0)
  }

  /** `_get_fbs_stocks_map`: amounts summed per product id over every warehouse. */
  function FbsStocksMap(stocks: seq<Inventory.FbsStock>): map<int, int>
    decreases |stocks|
  {
    if |stocks| == 0 then map[]
    else
      var acc := FbsStocksMap(stocks[..|stocks| - 1]);
      var s := stocks[|stocks| - 1];
      if Truthy(s.nmId) then acc[s.nmId.value := (if s.nmId.value in acc then acc[s.nmId.value] else 0) + s.amount]
      else acc
  }

  function FbsTotal(stocks: seq<Inventory.FbsStock>, nm: int): int
    decreases |stocks|
  {
    if |stocks| == 0 then 0
    else FbsTotal(stocks[..|stocks| - 1], nm)
         + (if stocks[|stocks| - 1].nmId == Some(nm) && nm != 0 then stocks[|stocks| - 1].amount else 0)
  }

  function GetOrZero(m: map<int, int>, k: int): int {
    if k in m then m[k] else 0
  }

  lemma {:induction false} FboStocksMapTotals(stocks: seq<Inventory.FboStock>, nm: int)
    ensures GetOrZero(FboStocksMap(stocks), nm) == FboTotal(stocks, nm)
    decreases |stocks|
  {
    if |stocks| > 0 {
      FboStocksMapTotals(stocks[..|stocks| - 1], nm);
    }
  }

  lemma {:induction false} FbsStocksMapTotals(stocks: seq<Inventory.FbsStock>, nm: int)
    ensures GetOrZero(FbsStocksMap(stocks), nm) == FbsTotal(stocks, nm)
    decreases |stocks|
  {
    if |stocks| > 0 {
      FbsStocksMapTotals(stocks[..|stocks| - 1], nm);
    }
  }

  /** The merged map of `_build_contexts`: every product id of either side,
      with the missing side counted as 0. */
  function TotalStocks(fbo: map<int, int>, fbs: map<int, int>): (r: map<int, int>)
    ensures r.Keys == fbo.Keys + fbs.Keys
  {
    map nm | nm in fbo.Keys + fbs.Keys :: GetOrZero(fbo, nm) + GetOrZero(fbs, nm)
  }

  /** For every product id — present or not — the merged stock is the FBO
      quantity plus the FBS amount summed over all warehouses. */
  lemma StockTotalIsFboPlusFbs(fboStocks: seq<Inventory.FboStock>, fbsStocks: seq<Inventory.FbsStock>, nm: int)
    ensures GetOrZero(TotalStocks(FboStocksMap(fboStocks), FbsStocksMap(fbsStocks)), nm)
         == FboTotal(fboStocks, nm) + FbsTotal(fbsStocks, nm)
  {
    FboStocksMapTotals(fboStocks, nm);
    FbsStocksMapTotals(fbsStocks, nm);
  }

  /** One product as `get_products_with_prices` lists it. */
  datatype Good = Good(nmId: int, vendorCode: Option<string>, subjectName: Option<string>,
                       sizePrices: seq<Option<real>>, discount: Option<int>)

  /** `_build_contexts` once the maps are fetched: one context per product, in
      order; price from the first size, missing values defaulted. */
  function BuildContexts(goods: seq<Good>, stocks: map<int, int>, avgOrders: map<int, real>,
                         daysWithoutSales: map<int, int>, revenue: map<int, real>): (r: seq<Context>)
    ensures |r| == |goods|
    ensures forall i | 0 <= i < |goods| ::
      var g := goods[i];
      r[i].nmId == g.nmId
      && r[i].currentPrice == (if |g.sizePrices| > 0 then g.sizePrices[0].GetOr(0.0) else 0.0)
      && r[i].currentDiscount == g.discount.GetOr(0)
      && r[i].stockTotal == GetOrZero(stocks, g.nmId)
      && r[i].avgDailyOrders == (if g.nmId in avgOrders then avgOrders[g.nmId] else 0.0)
  {
    seq(|goods|, i requires 0 <= i < |goods| =>
      var g := goods[i];
      Context(
        g.nmId,
        g.vendorCode.GetOr(""),
        if g.subjectName.Some? then g.subjectName.value
        else if g.vendorCode.Some? then g.vendorCode.value
        else if g.nmId >= 0 then NatToString(g.nmId) else "-" + NatToString(-g.nmId),
        if |g.sizePrices| > 0 then g.sizePrices[0].GetOr(0.0) else 0.0,
        g.discount.GetOr(0),
        GetOrZero(stocks, g.nmId),
        if g.nmId in avgOrders then avgOrders[g.nmId] else 0.0,
        GetOrZero(daysWithoutSales, g.nmId),
        if g.nmId in revenue then revenue[g.nmId] else 0.0))
  }
}
