/** The sales analytics of managers/analytics.py: normalising nmIDs that
    arrive as numbers or text, spacing API calls, the cached sales fetch,
    the revenue folds, the top-products grouping, the weekly paging loop
    and the per-product margin report. API responses and the clock are
    parameters; rows are the decoded JSON records. */
module Analytics {
  import opened Common
  import opened OrderedDict
  import opened Sorting
  import Cache

  // ---------------------------------------------------------------------------
  // nmID normalisation
  // ---------------------------------------------------------------------------

  /** A decoded JSON value as far as the normalisation looks at it; `Text`
      is a string, or any other object by its `str()`. */
  datatype Value = Null | Bool(b: bool) | Int(i: int) | Float(x: real) | Text(s: string)

  function Pow10(n: nat): (r: nat)
    ensures r >= 1
  {
    if n == 0 then 1 else 10 * Pow10(n - 1)
  }

  /** A parsed decimal literal: sign, whole part, and the fraction
      `frac / 10^places` read from `places` digits after the point. */
  datatype Decimal = Decimal(negative: bool, whole: nat, frac: nat, places: nat)

  function DecimalValue(x: Decimal): real {
    var m := x.whole as real + x.frac as real / Pow10(x.places) as real;
    if x.negative then -m else m
  }

  /** `float.is_integer()` on a parsed literal: its fraction digits are all
      zero. */
  predicate Integral(x: Decimal) { x.frac == 0 }

  /** `int(float(t))` for an integral literal. */
  function IntOf(x: Decimal): int { if x.negative then -(x.whole as int) else x.whole }

  /** The fraction read from `places` digits is below one, so a literal is
      a whole number exactly when its fraction is zero, and then it is the
      integer `int()` gives. */
  lemma IntegralIsWhole(x: Decimal)
    requires x.frac < Pow10(x.places)
    ensures Integral(x) <==> IsInteger(DecimalValue(x))
    ensures Integral(x) ==> DecimalValue(x) == IntOf(x) as real
  {
    var p := Pow10(x.places) as real;
    var q := x.frac as real / p;
    assert 0.0 <= q < 1.0 by {
      assert p >= 1.0;
      assert q * p == x.frac as real;
      assert (q - 1.0) * p == x.frac as real - p < 0.0;
      if q >= 1.0 {
        ProductNonNegative(q - 1.0, p);
      }
    }
    var m := x.whole as real + q;
    if x.frac > 0 {
      assert q > 0.0;
      assert m.Floor == x.whole;
      assert (-m).Floor == -(x.whole as int) - 1;
    }
  }

  lemma ProductNonNegative(a: real, b: real)
    requires a >= 0.0 && b >= 0.0
    ensures a * b >= 0.0
  {
  }

  /** A run of `k` digits is below `10^k`. */
  lemma {:induction false} DigitsBelowPow10(s: string)
    requires AllDigits(s)
    ensures DigitsValue(s) < Pow10(|s|)
    decreases |s|
  {
    if |s| > 0 {
      DigitsBelowPow10(s[..|s| - 1]);
    }
  }

  /** `float(t)` for an unsigned decimal: digits, optionally a point and
      more digits, at least one digit in all. */
  function ParseUnsigned(t: string): Option<Decimal>
  {
    var n := Leading(t, IsDigit);
    ParseParts(t[..n], t[n..])
  }

  /** The digits `whole` followed by the text `rest`, which must be empty or
      a point and digits. */
  function ParseParts(whole: string, rest: string): Option<Decimal>
    requires AllDigits(whole)
  {
    if rest == [] then
      if |whole| > 0 then Some(Decimal(false, DigitsValue(whole), 0, 0)) else None
    else if rest[0] == '.' && AllDigits(rest[1..]) && (|whole| > 0 || |rest| > 1) then
      Some(Decimal(false, DigitsValue(whole), DigitsValue(rest[1..]), |rest| - 1))
    else None
  }

  /** `float(t)` on decimal text with an optional sign. */
  function ParseFloat(t: string): Option<Decimal>
  {
    if |t| > 0 && (t[0] == '-' || t[0] == '+') then
      match ParseUnsigned(t[1..])
      case Some(x) => Some(x.(negative := t[0] == '-'))
      case None => None
    else ParseUnsigned(t)
  }

  /** `float.is_integer()`. */
  predicate IsInteger(x: real) { x == x.Floor as real }

  /** `_to_int_nm_id`: integers pass, integral floats and integral decimal
      text become their integer, everything else (None, bools, empty or
      non-numeric text, fractions) is rejected. */
  function ToIntNmId(v: Value): Option<int> {
    match v
    case Null => None
    case Bool(_) => None
    case Int(i) => Some(i)
    case Float(x) => if IsInteger(x) then Some(x.Floor) else None
    case Text(s) =>
      var text := Strip(s);
      if text == [] then None
      else match ParseFloat(text)
        case None => None
        case Some(x) => if Integral(x) then Some(IntOf(x)) else None
  }

  /** The cases of `_to_int_nm_id`, value kind by value kind. */
  lemma ToIntNmIdCases(v: Value)
    ensures v.Null? || v.Bool? ==> ToIntNmId(v).None?
    ensures v.Int? ==> ToIntNmId(v) == Some(v.i)
    ensures v.Float? ==> (ToIntNmId(v).Some? <==> IsInteger(v.x)) && (ToIntNmId(v).Some? ==> ToIntNmId(v).value as real == v.x)
    ensures v.Text? ==> (ToIntNmId(v).Some? <==> ParseFloat(Strip(v.s)).Some? && Integral(ParseFloat(Strip(v.s)).value))
    ensures v.Text? && ToIntNmId(v).Some? ==> ToIntNmId(v).value == IntOf(ParseFloat(Strip(v.s)).value)
  {
    if v.Text? && Strip(v.s) == [] {
      assert ParseFloat(Strip(v.s)).None?;
    }
  }

  lemma ParsePartsBounded(whole: string, rest: string)
    requires AllDigits(whole) && ParseParts(whole, rest).Some?
    ensures ParseParts(whole, rest).value.frac < Pow10(ParseParts(whole, rest).value.places)
  {
    if rest != [] {
      DigitsBelowPow10(rest[1..]);
    }
  }

  /** Every parsed literal keeps its fraction below one. */
  lemma ParseFloatBounded(t: string)
    requires ParseFloat(t).Some?
    ensures ParseFloat(t).value.frac < Pow10(ParseFloat(t).value.places)
  {
    var u := if |t| > 0 && (t[0] == '-' || t[0] == '+') then t[1..] else t;
    var n := Leading(u, IsDigit);
    ParsePartsBounded(u[..n], u[n..]);
  }

  /** For text, `_to_int_nm_id` accepts exactly what `float()` reads as a
      whole number, and answers that number. */
  lemma ToIntNmIdOfTextIsWhole(s: string)
    ensures var p := ParseFloat(Strip(s));
      ToIntNmId(Text(s)).Some? <==> p.Some? && IsInteger(DecimalValue(p.value))
    ensures ToIntNmId(Text(s)).Some? ==> ToIntNmId(Text(s)).value as real == DecimalValue(ParseFloat(Strip(s)).value)
  {
    var p := ParseFloat(Strip(s));
    if p.Some? {
      ParseFloatBounded(Strip(s));
      IntegralIsWhole(p.value);
    }
  }

  /** Text without surrounding whitespace is its own strip. */
  lemma StripUnspaced(s: string)
    requires |s| > 0 && !IsSpace(s[0]) && !IsSpace(s[|s| - 1])
    ensures Strip(s) == s
  {
    var l := StripLeft(s);
    assert |l| == |s|;
  }

  /** The leading digits of `d + rest` are `d` when `rest` does not start
      with a digit. */
  lemma LeadingDigits(d: string, rest: string)
    requires AllDigits(d) && (|rest| == 0 || !IsDigit(rest[0]))
    ensures Leading(d + rest, IsDigit) == |d|
    ensures (d + rest)[..|d|] == d && (d + rest)[|d|..] == rest
  {
    LeadingUnique(d + rest, IsDigit, |d|);
  }

  /** A printed id normalises back to the id. */
  lemma ToIntNmIdOfDigits(n: nat)
    ensures ToIntNmId(Text(NatToString(n))) == Some(n)
  {
    var d := NatToString(n);
    DigitsValueOfNatToString(n);
    StripUnspaced(d);
    ParseSplits(d, []);
    assert d + [] == d;
  }

  /** Parsing reads the leading digits as the whole part. */
  lemma ParseSplits(d: string, rest: string)
    requires |d| > 0 && AllDigits(d) && (|rest| == 0 || !IsDigit(rest[0]))
    ensures ParseFloat(d + rest) == ParseParts(d, rest)
  {
    LeadingDigits(d, rest);
    assert (d + rest)[0] == d[0];
  }

  /** `ParseFloat` of digits, a point and a fraction. */
  lemma ParseWithFraction(d: string, f: string, t: string)
    requires |d| > 0 && AllDigits(d) && AllDigits(f) && |f| > 0 && t == d + "." + f
    ensures ParseFloat(t) == Some(Decimal(false, DigitsValue(d), DigitsValue(f), |f|))
  {
    assert t == d + (['.'] + f);
    ParseSplits(d, ['.'] + f);
    assert (['.'] + f)[1..] == f;
  }

  /** An id printed the way a float prints it, with `.0`, normalises back to
      the id. */
  lemma ToIntNmIdOfFloatText(n: nat)
    ensures ToIntNmId(Text(NatToString(n) + ".0")) == Some(n)
  {
    var d := NatToString(n);
    DigitsValueOfNatToString(n);
    assert d + ".0" == d + "." + "0";
    StripUnspaced(d + ".0");
    ParseWithFraction(d, "0", d + ".0");
    assert DigitsValue("0") == 0 by { assert "0"[..0] == []; }
    ToIntNmIdOfUnspaced(d + ".0", Decimal(false, n, 0, 1));
  }

  /** Text that is its own strip and parses is accepted iff it is whole. */
  lemma ToIntNmIdOfUnspaced(t: string, x: Decimal)
    requires |t| > 0 && Strip(t) == t && ParseFloat(t) == Some(x)
    ensures ToIntNmId(Text(t)) == if Integral(x) then Some(IntOf(x)) else None
  {
  }

  /** A fractional id is rejected. */
  lemma ToIntNmIdRejectsFraction(n: nat)
    ensures ToIntNmId(Text(NatToString(n) + ".5")) == None
  {
    var d := NatToString(n);
    DigitsValueOfNatToString(n);
    assert d + ".5" == d + "." + "5";
    StripUnspaced(d + ".5");
    ParseWithFraction(d, "5", d + ".5");
    assert DigitsValue("5") == 5 by { assert "5"[..0] == []; }
  }

  /** `float(v or 0)`: falsy values are 0.0; text that does not parse raises
      and is caught as 0.0 as well. */
  function FloatOrZero(v: Value): (r: real)
    ensures v.Int? ==> r == v.i as real
    ensures v.Float? ==> r == v.x
    ensures v.Text? && ParseFloat(Strip(v.s)).Some? ==> r == DecimalValue(ParseFloat(Strip(v.s)).value)
    ensures v.Null? || (v.Bool? && !v.b) ==> r == 0.0
  {
    match v
    case Null => 0.0
    case Bool(b) => if b then 1.0 else 0.0
    case Int(i) => i as real
    case Float(x) => x
    case Text(s) =>
      if s == [] then 0.0
      else match ParseFloat(Strip(s))
        case Some(x) => DecimalValue(x)
        case None => 0.0
  }

  /** `_normalize_avg_orders_map` over the entries of a dict, in order;
      `None` is anything that is not a dict. Keys that do not normalise are
      dropped; when two keys normalise to the same id the later one wins. */
  function NormalizeAvgOrders(raw: Option<seq<(Value, Value)>>): (r: map<int, real>)
    ensures raw.None? ==> r == map[]
    ensures raw.Some? ==> r == NormalizeEntries(raw.value)
  {
    match raw
    case None => map[]
    case Some(entries) => NormalizeEntries(entries)
  }

  function NormalizeEntries(es: seq<(Value, Value)>): map<int, real>
    decreases |es|
  {
    if |es| == 0 then map[]
    else
      var m := NormalizeEntries(es[..|es| - 1]);
      var last := es[|es| - 1];
      match ToIntNmId(last.0)
      case None => m
      case Some(k) => m[k := FloatOrZero(last.1)]
  }

  // ---------------------------------------------------------------------------
  // Call spacing
  // ---------------------------------------------------------------------------

  /** How long `_wait_between_calls` sleeps: just enough for `min_interval`
      to have passed since the last recorded call, never a negative time. */
  function Pause(last: real, now: real, minInterval: real): (d: real)
    ensures d >= 0.0
    ensures now + d >= last + minInterval
    ensures d > 0.0 ==> now + d == last + minInterval
  {
    var elapsed := now - last;
    if elapsed < minInterval then minInterval - elapsed else 0.0
  }

  /** The recorded call time is read after sleeping; any clock that has
      advanced by at least the sleep puts it `min_interval` after the
      previous call. */
  lemma CallsSpaced(last: real, now: real, minInterval: real, wake: real)
    requires wake >= now + Pause(last, now, minInterval)
    ensures wake - last >= minInterval
  {
  }

  /** The keys are exactly the ids some raw key normalises to. */
  lemma {:induction false} NormalizeEntriesKeys(es: seq<(Value, Value)>, k: int)
    ensures k in NormalizeEntries(es) <==> exists i | 0 <= i < |es| :: ToIntNmId(es[i].0) == Some(k)
    decreases |es|
  {
    if |es| > 0 {
      var init := es[..|es| - 1];
      NormalizeEntriesKeys(init, k);
      assert forall i | 0 <= i < |init| :: init[i] == es[i];
    }
  }

  /** The later of two entries for the same id wins. */
  lemma {:induction false} NormalizeEntriesLast(es: seq<(Value, Value)>, i: nat)
    requires i < |es| && ToIntNmId(es[i].0).Some?
    requires forall j | i < j < |es| :: ToIntNmId(es[j].0) != ToIntNmId(es[i].0)
    ensures ToIntNmId(es[i].0).value in NormalizeEntries(es)
         && NormalizeEntries(es)[ToIntNmId(es[i].0).value] == FloatOrZero(es[i].1)
    decreases |es|
  {
    if i < |es| - 1 {
      var init := es[..|es| - 1];
      assert init[i] == es[i];
      forall j | i < j < |init| ensures ToIntNmId(init[j].0) != ToIntNmId(init[i].0) {
        assert init[j] == es[j];
      }
      NormalizeEntriesLast(init, i);
    }
  }

  // ---------------------------------------------------------------------------
  // Report rows and the cached sales fetch
  // ---------------------------------------------------------------------------

  /** A sales or detailed-report record. Amounts are `float(get(k, 0) or
      0)`; `quantity` is 0 when missing; the flags are the truthiness of
      `isCancel`/`isReturn`. */
  datatype Row = Row(
    nmId: Value,
    forPay: real,
    isCancel: bool,
    isReturn: bool,
    quantity: int,
    subject: Option<string>,
    supplierArticle: Option<string>,
    brand: Option<string>,
    retailAmount: real,
    commissionAmount: real,
    deliveryAmount: real,
    storageFee: real,
    penalty: real,
    date: Option<string>)

  /** What a cached fetch leaves behind: the cache, the answer, and whether
      the API was called. */
  datatype Fetched<!T> = Fetched(cache: Cache.SqlCache<seq<T>>, result: seq<T>, called: bool)

  /** `get_sales` with the cache key already made: a hit is served without a
      call; on a miss the API's answer (`None` when it is not a list) is
      returned, and stored only when it is non-empty. `get_margin_by_product`
      caches its computed list by the same rule. */
  function GetSales<T>(c: Cache.SqlCache<seq<T>>, key: string, now: real, response: Option<seq<T>>): (r: Fetched<T>)
    ensures var (c1, hit) := Cache.SqlGet(c, key, now);
      (r.called <==> hit.None?)
      && (hit.Some? ==> r.result == hit.value && r.cache == c1)
      && (hit.None? ==> r.result == response.GetOr([]))
      && (hit.None? && |r.result| > 0 ==> r.cache == Cache.SqlSet(c1, key, Some(r.result), now))
      && (hit.None? && |r.result| == 0 ==> r.cache == c1)
  {
    var (c1, hit) := Cache.SqlGet(c, key, now);
    match hit
    case Some(rows) => Fetched(c1, rows, false)
    case None =>
      var result := response.GetOr([]);
      Fetched(if |result| > 0 then Cache.SqlSet(c1, key, Some(result), now) else c1, result, true)
  }

  /** A non-empty answer is served again, as its JSON round trip, without a
      call until it expires; an empty one is fetched again. */
  lemma GetSalesServesStored<T>(c: Cache.SqlCache<seq<T>>, key: string, now: real, response: Option<seq<T>>,
                             later: real, response': Option<seq<T>>)
    requires Cache.SqlGet(c, key, now).1.None? && c.ttl >= 0.0 && now <= later <= now + c.ttl
    ensures var first := GetSales(c, key, now, response);
      var second := GetSales(first.cache, key, later, response');
      (|first.result| > 0 ==> !second.called && second.result == c.json(first.result))
      && (|first.result| == 0 && key !in c.rows ==> second.called)
  {
    var first := GetSales(c, key, now, response);
    var c1 := Cache.SqlGet(c, key, now).0;
    if |first.result| > 0 {
      Cache.SqlSetGet(c1, key, Some(first.result), now, later, key);
    }
  }

  // ---------------------------------------------------------------------------
  // Revenue
  // ---------------------------------------------------------------------------

  /** A row that is neither cancelled nor returned. */
  predicate IsSale(x: Row) { !x.isCancel && !x.isReturn }

  predicate IsReturned(x: Row) { x.isCancel || x.isReturn }

  function ForPay(x: Row): real { x.forPay }
  function Retail(x: Row): real { x.retailAmount }

  /** The paid amount of the sales among `rows`. */
  function SalesPay(rows: seq<Row>): real { SumReal(Filter(rows, IsSale), ForPay) }

  datatype Revenue = Revenue(periodDays: int, totalRevenue: real, totalSales: int, averageCheck: real)

  /** `calculate_revenue` over the fetched rows: the paid amount of the
      sales, the count of ALL rows, and their ratio. */
  function CalculateRevenue(days: int, rows: seq<Row>): (r: Revenue)
    ensures r.periodDays == days && r.totalSales == |rows|
    ensures |rows| == 0 ==> r.totalRevenue == 0.0 && r.averageCheck == 0.0
  {
    var total := SalesPay(rows);
    var avg := if |rows| > 0 then total / |rows| as real else 0.0;
    Revenue(days, RoundTo(total, 100), |rows|, RoundTo(avg, 100))
  }

  /** Revenue adds up over a split of the rows. */
  lemma SalesPayAppend(a: seq<Row>, b: seq<Row>)
    ensures SalesPay(a + b) == SalesPay(a) + SalesPay(b)
  {
    FilterAppend(a, b, IsSale);
    SumRealAppend(Filter(a, IsSale), Filter(b, IsSale), ForPay);
  }

  /** A cancelled or returned row adds to the count but not to the revenue;
      a sale adds its paid amount. */
  lemma RevenueOfOneMore(days: int, rows: seq<Row>, x: Row)
    ensures CalculateRevenue(days, rows + [x]).totalSales == CalculateRevenue(days, rows).totalSales + 1
    ensures IsReturned(x) ==> CalculateRevenue(days, rows + [x]).totalRevenue == CalculateRevenue(days, rows).totalRevenue
    ensures SalesPay(rows + [x]) == SalesPay(rows) + (if IsSale(x) then x.forPay else 0.0)
  {
    SalesPayAppend(rows, [x]);
    assert [x][..0] == [];
    assert Filter([x], IsSale) == if IsSale(x) then [x] else [];
    assert SumReal([x], ForPay) == x.forPay;
  }

  /** Accumulators of the loop in `calculate_revenue_detailed`. */
  datatype Totals = Totals(
    revenue: real, net: real, commission: real, returned: real,
    logistics: real, storage: real, penalty: real, sales: int, returnsCount: int)

  function Fee(x: Row): real { x.commissionAmount }
  function Delivery(x: Row): real { x.deliveryAmount }
  function Storage(x: Row): real { x.storageFee }
  function Penalty(x: Row): real { x.penalty }

  /** One pass of the loop body: the row's amounts go to the sums, and its
      retail amount and count to the sales or to the returns side. */
  function AddRow(t: Totals, x: Row): Totals {
    var t1 := t.(net := t.net + x.forPay, commission := t.commission + x.commissionAmount,
                 logistics := t.logistics + x.deliveryAmount, storage := t.storage + x.storageFee,
                 penalty := t.penalty + x.penalty);
    if IsReturned(x) then t1.(returned := t1.returned + x.retailAmount, returnsCount := t1.returnsCount + 1)
    else t1.(revenue := t1.revenue + x.retailAmount, sales := t1.sales + 1)
  }

  const NoTotals := Totals(0.0, 0.0, 0.0, 0.0, 0.0, 0.0, 0.0, 0, 0)

  /** The loop over the report: each row counts once, as a sale or as a
      return/cancel. */
  function Accumulate(report: seq<Row>): (t: Totals)
    ensures t.sales == |Filter(report, IsSale)| && t.returnsCount == |Filter(report, IsReturned)|
    ensures t.sales + t.returnsCount == |report|
    decreases |report|
  {
    if |report| == 0 then NoTotals
    else AddRow(Accumulate(report[..|report| - 1]), report[|report| - 1])
  }

  /** The gross sum of the loop: the retail amounts of the sales. */
  lemma {:induction false} AccumulateRevenue(report: seq<Row>)
    ensures Accumulate(report).revenue == SumReal(Filter(report, IsSale), Retail)
    decreases |report|
  {
    if |report| > 0 {
      var init := report[..|report| - 1];
      var x := report[|report| - 1];
      AccumulateRevenue(init);
      var f := Filter(init, IsSale);
      if IsSale(x) {
        assert Filter(report, IsSale) == f + [x];
        SumRealSnoc(f, x, Retail);
      } else {
        assert Filter(report, IsSale) == f + [];
        assert f + [] == f;
      }
    }
  }

  /** The retail amounts of the returns and cancellations. */
  lemma {:induction false} AccumulateReturned(report: seq<Row>)
    ensures Accumulate(report).returned == SumReal(Filter(report, IsReturned), Retail)
    decreases |report|
  {
    if |report| > 0 {
      var init := report[..|report| - 1];
      var x := report[|report| - 1];
      AccumulateReturned(init);
      var f := Filter(init, IsReturned);
      if IsReturned(x) {
        assert Filter(report, IsReturned) == f + [x];
        SumRealSnoc(f, x, Retail);
      } else {
        assert Filter(report, IsReturned) == f + [];
        assert f + [] == f;
      }
    }
  }

  /** The other sums of the loop run over every row, sale or return. */
  lemma {:induction false} AccumulateFees(report: seq<Row>)
    ensures Accumulate(report).net == SumReal(report, ForPay)
    ensures Accumulate(report).commission == SumReal(report, Fee)
    ensures Accumulate(report).logistics == SumReal(report, Delivery)
    ensures Accumulate(report).storage == SumReal(report, Storage)
    ensures Accumulate(report).penalty == SumReal(report, Penalty)
    decreases |report|
  {
    if |report| > 0 {
      AccumulateFees(report[..|report| - 1]);
    }
  }

  /** `round(part / whole * 100, d)` with `scale` = 10^d: a percentage
      between 0 and 100. */
  function Percent(part: int, whole: int, scale: nat): (r: real)
    requires 0 <= part <= whole && whole > 0 && scale > 0
    ensures 0.0 <= r <= 100.0
  {
    var x := part as real / whole as real * 100.0;
    assert part as real <= whole as real;
    assert x <= 100.0 by {
      assert part as real / whole as real <= 1.0;
    }
    RoundToWithin(x, 0, 100, scale);
    RoundTo(x, scale)
  }

  datatype RevenueDetail =
    | EmptyReport(periodDays: int)
    | RevenueDetail(
        periodDays: int, totalRevenue: real, netRevenue: real, totalCommission: real,
        totalReturns: real, totalLogistics: real, totalStorage: real, penalty: real,
        totalSales: int, totalReturnsCount: int, totalOperations: int,
        averageCheck: real, averageNetCheck: real, returnRate: real)

  /** `calculate_revenue_detailed`: all-zero for an empty report; otherwise
      every row is one operation, counted either as a sale or as a return,
      and the return rate is a percentage of the operations. */
  function CalculateRevenueDetailed(days: int, report: seq<Row>): (r: RevenueDetail)
    ensures r.EmptyReport? <==> |report| == 0
    ensures r.periodDays == days
    ensures r.RevenueDetail? ==>
      r.totalSales + r.totalReturnsCount == r.totalOperations == |report|
      && r.totalSales == |Filter(report, IsSale)|
      && 0.0 <= r.returnRate <= 100.0
      && (r.totalSales == 0 ==> r.averageCheck == 0.0 && r.averageNetCheck == 0.0)
  {
    if |report| == 0 then EmptyReport(days)
    else
      var t := Accumulate(report);
      FilterPartition(report, IsSale, IsReturned);
      var ops := t.sales + t.returnsCount;
      RevenueDetail(days, RoundTo(t.revenue, 100), RoundTo(t.net, 100), RoundTo(t.commission, 100),
        RoundTo(t.returned, 100), RoundTo(t.logistics, 100), RoundTo(t.storage, 100), RoundTo(t.penalty, 100),
        t.sales, t.returnsCount, ops,
        if t.sales > 0 then RoundTo(t.revenue / t.sales as real, 100) else 0.0,
        if t.sales > 0 then RoundTo(t.net / t.sales as real, 100) else 0.0,
        Percent(t.returnsCount, ops, 100))
  }

  // ---------------------------------------------------------------------------
  // Top products
  // ---------------------------------------------------------------------------

  /** One entry of `get_top_products`. */
  datatype TopProduct = TopProduct(nmId: Value, name: string, article: string, quantity: int, revenue: real)

  function NmIdOf(x: Row): Value { x.nmId }

  /** `sale.get("quantity", 0) or 1`: a missing or zero quantity counts as one. */
  function QtyOr1(x: Row): int { if x.quantity == 0 then 1 else x.quantity }

  /** What a row adds to its product's revenue: nothing for a return or
      cancellation. */
  function SaleRevenue(x: Row): real { if IsSale(x) then x.forPay else 0.0 }

  /** The entry a row creates for a new nmId. */
  function Fresh(x: Row): TopProduct {
    TopProduct(x.nmId, x.subject.GetOr("Unknown"), x.supplierArticle.GetOr(""), 0, 0.0)
  }

  /** What a row adds to its product's entry. */
  function Bump(p: TopProduct, x: Row): TopProduct {
    p.(quantity := p.quantity + QtyOr1(x), revenue := p.revenue + SaleRevenue(x))
  }

  /** The loop of `get_top_products`: the first row of an nmId creates its
      entry (name and article from that row), every row adds its quantity,
      and only sales add revenue. */
  function Products(sales: seq<Row>): Dict<Value, TopProduct>
    decreases |sales|
  {
    if |sales| == 0 then []
    else
      var acc := Products(sales[..|sales| - 1]);
      var x := sales[|sales| - 1];
      Put(acc, x.nmId, Bump(Get(acc, x.nmId).GetOr(Fresh(x)), x))
  }

  /** The entry a product with rows `w` should have: named after its first
      row, with the totals over all of them. */
  function EntryOf(k: Value, w: seq<Row>): TopProduct
    requires |w| > 0
  {
    TopProduct(k, w[0].subject.GetOr("Unknown"), w[0].supplierArticle.GetOr(""), SumInt(w, QtyOr1), SumReal(w, SaleRevenue))
  }

  function ProductOf(sales: seq<Row>, k: Value): TopProduct
    requires |WithKey(sales, NmIdOf, k)| > 0
  {
    EntryOf(k, WithKey(sales, NmIdOf, k))
  }

  lemma EntryOfSnoc(k: Value, w: seq<Row>, x: Row)
    ensures |w| > 0 ==> EntryOf(k, w + [x]) == Bump(EntryOf(k, w), x)
    ensures |w| == 0 && k == x.nmId ==> EntryOf(k, w + [x]) == Bump(Fresh(x), x)
  {
    SumIntSnoc(w, x, QtyOr1);
    SumRealSnoc(w, x, SaleRevenue);
    if |w| == 0 {
      assert w + [x] == [x];
    } else {
      assert (w + [x])[0] == w[0];
    }
  }

  /** Every nmId of the rows has exactly the entry `ProductOf` describes, and
      no other key appears. */
  lemma ProductsTotals(sales: seq<Row>, k: Value)
    ensures Get(Products(sales), k).Some? <==> |WithKey(sales, NmIdOf, k)| > 0
    ensures Get(Products(sales), k).Some? ==> Get(Products(sales), k).value == ProductOf(sales, k)
  {
    ProductsEntry(sales, k);
  }

  /** The entry of `k` once all rows are seen: none without rows. */
  function ExpectedEntry(sales: seq<Row>, k: Value): Option<TopProduct> {
    if |WithKey(sales, NmIdOf, k)| > 0 then Some(ProductOf(sales, k)) else None
  }

  lemma {:induction false} ProductsEntry(sales: seq<Row>, k: Value)
    ensures Get(Products(sales), k) == ExpectedEntry(sales, k)
    decreases |sales|
  {
    if |sales| > 0 {
      var init := sales[..|sales| - 1];
      var x := sales[|sales| - 1];
      assert sales == init + [x];
      var acc := Products(init);
      ProductsEntry(init, k);
      var v := Bump(Get(acc, x.nmId).GetOr(Fresh(x)), x);
      assert Products(sales) == Put(acc, x.nmId, v);
      GetPut(acc, x.nmId, v, k);
      WithKeySnoc(init, NmIdOf, k, x);
      var w := WithKey(init, NmIdOf, k);
      if x.nmId == k {
        assert WithKey(sales, NmIdOf, k) == w + [x];
        EntryOfSnoc(k, w, x);
        assert ExpectedEntry(sales, k) == Some(EntryOf(k, w + [x]));
      } else {
        assert WithKey(sales, NmIdOf, k) == w;
      }
    }
  }

  lemma {:induction false} ProductsDistinct(sales: seq<Row>)
    ensures DistinctKeys(Products(sales))
    decreases |sales|
  {
    if |sales| > 0 {
      var init := sales[..|sales| - 1];
      var x := sales[|sales| - 1];
      var acc := Products(init);
      ProductsDistinct(init);
      PutDistinct(acc, x.nmId, Bump(Get(acc, x.nmId).GetOr(Fresh(x)), x));
    }
  }

  /** `sorted(..., key=revenue, reverse=True)` orders by revenue, highest first. */
  predicate RevenueGe(a: TopProduct, b: TopProduct) { a.revenue >= b.revenue }

  /** `get_top_products` over the fetched sales. */
  function TopProducts(sales: seq<Row>, limit: int): (r: seq<TopProduct>)
    ensures limit >= 0 ==> |r| == Min(limit, |Products(sales)|)
    ensures limit < 0 ==> |r| == Max(0, |Products(sales)| + limit)
    ensures Sorted(r, RevenueGe)
    ensures forall p, q | p in Values(Products(sales)) && p !in r && q in r :: RevenueGe(q, p)
  {
    var vs := Values(Products(sales));
    var all := SortBy(vs, RevenueGe);
    SortBySorted(vs, RevenueGe);
    var r := PySliceTo(all, limit);
    assert r == all[..|r|];
    forall p, q | p in vs && p !in r && q in r ensures RevenueGe(q, p) {
      assert p in multiset(all);
      SortedPrefixFirst(all, RevenueGe, |r|, p, q);
    }
    r
  }

  /** Each product listed carries its totals: the quantity over all its rows
      (a missing quantity counting one) and the revenue of its sales only. */
  lemma TopProductsTotals(sales: seq<Row>, limit: int, p: TopProduct)
    requires p in TopProducts(sales, limit)
    ensures |WithKey(sales, NmIdOf, p.nmId)| > 0
    ensures p.quantity == SumInt(WithKey(sales, NmIdOf, p.nmId), QtyOr1)
    ensures p.revenue == SumReal(WithKey(sales, NmIdOf, p.nmId), SaleRevenue)
  {
    var d := Products(sales);
    var vs := Values(d);
    assert p in SortBy(vs, RevenueGe);
    assert p in multiset(SortBy(vs, RevenueGe));
    assert p in vs;
    var i :| 0 <= i < |vs| && vs[i] == p;
    ProductsDistinct(sales);
    GetDistinct(d, i);
    ProductsTotals(sales, d[i].0);
  }

  // ---------------------------------------------------------------------------
  // The weekly sales loop
  // ---------------------------------------------------------------------------

  /** The page size the weekly loop asks `get_sales` for. */
  const WeeklyBatch := 1000

  /** `batch[-1].get('date', '')`: a missing date reads as empty. */
  function LastDate(batch: seq<Row>): string
    requires |batch| > 0
  {
    batch[|batch| - 1].date.GetOr("")
  }

  /** The loop of the source goes on after a batch that is full and whose
      last date is present and, by its first ten characters, not after the
      week's end. */
  predicate Continues(batch: seq<Row>, weekEnd: string) {
    |batch| >= WeeklyBatch && LastDate(batch) != "" && StrLe(PySliceTo(LastDate(batch), 10), weekEnd)
  }

  /** `last_date[:10] + 'T' + last_date[11:19]`. */
  function NextFrom(lastDate: string): string {
    PySliceTo(lastDate, 10) + "T" + PySlice(lastDate, 11, 19)
  }

  /** Whether the loop requests again after `batch`, fetched from `from`.
      With `guard` set it also demands that the next `date_from` comes
      strictly after the current one, the check the source lacks. */
  predicate GoesOn(from: string, batch: seq<Row>, weekEnd: string, guard: bool) {
    Continues(batch, weekEnd) && (guard ==> StrLt(from, NextFrom(LastDate(batch))))
  }

  /** The rows collected and the `date_from` of every request, in order. */
  datatype Weekly = Weekly(rows: seq<Row>, requests: seq<string>)

  function Batches(fetch: string -> seq<Row>, requests: seq<string>): (r: seq<seq<Row>>)
    ensures |r| == |requests| && forall i | 0 <= i < |r| :: r[i] == fetch(requests[i])
  {
    seq(|requests|, i requires 0 <= i < |requests| => fetch(requests[i]))
  }

  /** The requests form a chain: after each one but the last the loop goes
      on, and the next one starts at that batch's last date; after the last
      one it stops. */
  ghost predicate Chain(fetch: string -> seq<Row>, weekEnd: string, guard: bool, requests: seq<string>) {
    |requests| > 0
    && (forall i | 0 <= i < |requests| - 1 ::
          GoesOn(requests[i], fetch(requests[i]), weekEnd, guard)
          && requests[i + 1] == NextFrom(LastDate(fetch(requests[i]))))
    && !GoesOn(requests[|requests| - 1], fetch(requests[|requests| - 1]), weekEnd, guard)
  }

  lemma ChainCons(fetch: string -> seq<Row>, weekEnd: string, guard: bool, from: string, rest: seq<string>)
    requires GoesOn(from, fetch(from), weekEnd, guard) && Chain(fetch, weekEnd, guard, rest)
    requires rest[0] == NextFrom(LastDate(fetch(from)))
    ensures Chain(fetch, weekEnd, guard, [from] + rest)
  {
    var reqs := [from] + rest;
    assert forall i | 1 <= i < |reqs| :: reqs[i] == rest[i - 1];
  }

  lemma BatchesCons(fetch: string -> seq<Row>, from: string, rest: seq<string>)
    ensures Flatten(Batches(fetch, [from] + rest)) == fetch(from) + Flatten(Batches(fetch, rest))
  {
    assert Batches(fetch, [from] + rest) == [fetch(from)] + Batches(fetch, rest);
    FlattenAppend([fetch(from)], Batches(fetch, rest));
    FlattenSingle(fetch(from));
  }

  /** The `while True` loop of `get_weekly_sales_report` from `date_from`,
      with `fetch` standing for `get_sales(date_from=…, limit=1000)` (whose
      cache makes a repeated request answer the same) and at most `fuel`
      requests; `None` when the fuel runs out. An empty batch, a short batch
      or a last date that is missing or past the week's end stops it, and the
      batches are concatenated in request order. */
  function Paginate(fetch: string -> seq<Row>, from: string, weekEnd: string, guard: bool, fuel: nat): (r: Option<Weekly>)
    ensures r.Some? ==> Chain(fetch, weekEnd, guard, r.value.requests) && r.value.requests[0] == from
    ensures r.Some? ==> r.value.rows == Flatten(Batches(fetch, r.value.requests))
    ensures r.Some? ==> |r.value.requests| <= fuel
    ensures fuel > 0 && !GoesOn(from, fetch(from), weekEnd, guard) ==> r == Some(Weekly(fetch(from), [from]))
    decreases fuel
  {
    if fuel == 0 then None
    else
      var batch := fetch(from);
      if !GoesOn(from, batch, weekEnd, guard) then
        FlattenSingle(batch);
        assert Batches(fetch, [from]) == [batch];
        Some(Weekly(batch, [from]))
      else
        match Paginate(fetch, NextFrom(LastDate(batch)), weekEnd, guard, fuel - 1)
        case None => None
        case Some(rest) =>
          ChainCons(fetch, weekEnd, guard, from, rest.requests);
          BatchesCons(fetch, from, rest.requests);
          Some(Weekly(batch + rest.rows, [from] + rest.requests))
  }

  /** The loop as written. */
  function WeeklyLoop(fetch: string -> seq<Row>, from: string, weekEnd: string, fuel: nat): Option<Weekly> {
    Paginate(fetch, from, weekEnd, false, fuel)
  }

  /** The loop with the advance check. */
  function WeeklyLoopFixed(fetch: string -> seq<Row>, from: string, weekEnd: string, fuel: nat): Option<Weekly> {
    Paginate(fetch, from, weekEnd, true, fuel)
  }

  /** As written, a full batch whose last date leads back to the request's
      own `date_from` is asked for again and again: no bound on the number of
      requests is ever enough. */
  lemma {:induction false} WeeklyLoopStuck(fetch: string -> seq<Row>, from: string, weekEnd: string, fuel: nat)
    requires Continues(fetch(from), weekEnd) && NextFrom(LastDate(fetch(from))) == from
    ensures WeeklyLoop(fetch, from, weekEnd, fuel).None?
    decreases fuel
  {
    if fuel > 0 {
      WeeklyLoopStuck(fetch, from, weekEnd, fuel - 1);
    }
  }

  /** A sale stamped 10:00 on the first day of the week. */
  const MorningSale := Row(Int(1), 100.0, false, false, 1, None, None, None, 100.0, 0.0, 0.0, 0.0, 0.0,
                           Some("2024-01-01T10:00:00"))

  /** An upstream holding at least a thousand sales with that same stamp:
      every request from that day on answers the same full batch. */
  function SameStampBatch(dateFrom: string): seq<Row> {
    seq(WeeklyBatch, _ => MorningSale)
  }

  /** The date facts the example rests on: the stamp leads back to itself,
      and the week's first day sorts before its last and before the stamp. */
  lemma SameStampFacts()
    ensures PySliceTo("2024-01-01T10:00:00", 10) == "2024-01-01"
    ensures NextFrom("2024-01-01T10:00:00") == "2024-01-01T10:00:00"
    ensures StrLe("2024-01-01", "2024-01-08")
    ensures StrLt("2024-01-01", "2024-01-01T10:00:00")
  {
    StampDay();
    StampLeadsBack();
    WeekDaysOrdered();
    DayBeforeStamp();
  }

  lemma StampDay()
    ensures PySliceTo("2024-01-01T10:00:00", 10) == "2024-01-01"
  {
    var t := "2024-01-01T10:00:00";
    assert t[..10] == "2024-01-01";
  }

  lemma StampLeadsBack()
    ensures NextFrom("2024-01-01T10:00:00") == "2024-01-01T10:00:00"
  {
    var t := "2024-01-01T10:00:00";
    StampDay();
    assert t[11..19] == "10:00:00";
    assert PySlice(t, 11, 19) == "10:00:00";
    assert "2024-01-01" + "T" + "10:00:00" == t;
  }

  lemma WeekDaysOrdered()
    ensures StrLe("2024-01-01", "2024-01-08")
  {
    StrLePrefix("2024-01-0", "1", "8");
    WeekDaysJoined();
  }

  lemma WeekDaysJoined()
    ensures "2024-01-0" + "1" == "2024-01-01" && "2024-01-0" + "8" == "2024-01-08"
  {
  }

  lemma StampJoined()
    ensures "2024-01-01" + "T10:00:00" == "2024-01-01T10:00:00"
  {
  }

  lemma DayBeforeStamp()
    ensures StrLt("2024-01-01", "2024-01-01T10:00:00")
  {
    StrLePrefix("2024-01-01", "", "T10:00:00");
    assert "2024-01-01" + "" == "2024-01-01";
    StampJoined();
    assert |"2024-01-01"| != |"2024-01-01T10:00:00"|;
  }

  /** Whatever the request, the batch is full, its last date is within the
      week and leads to the 10:00 stamp. */
  lemma SameStampContinues(dateFrom: string)
    ensures Continues(SameStampBatch(dateFrom), "2024-01-08")
    ensures NextFrom(LastDate(SameStampBatch(dateFrom))) == "2024-01-01T10:00:00"
  {
    var b := SameStampBatch(dateFrom);
    assert |b| == WeeklyBatch && b[|b| - 1] == MorningSale;
    SameStampFacts();
  }

  /** For the week starting 2024-01-01, the source's loop never finishes on
      such an upstream. */
  lemma WeeklyLoopNeverEnds(fuel: nat)
    ensures WeeklyLoop(SameStampBatch, "2024-01-01", "2024-01-08", fuel).None?
  {
    if fuel > 0 {
      SameStampContinues("2024-01-01");
      SameStampContinues("2024-01-01T10:00:00");
      WeeklyLoopStuck(SameStampBatch, "2024-01-01T10:00:00", "2024-01-08", fuel - 1);
    }
  }

  /** With the advance check the same week takes two requests. */
  lemma WeeklyLoopFixedEnds(fuel: nat)
    requires fuel >= 2
    ensures WeeklyLoopFixed(SameStampBatch, "2024-01-01", "2024-01-08", fuel).Some?
    ensures WeeklyLoopFixed(SameStampBatch, "2024-01-01", "2024-01-08", fuel).value.requests
         == ["2024-01-01", "2024-01-01T10:00:00"]
  {
    var f := SameStampBatch;
    var t := "2024-01-01T10:00:00";
    SameStampFacts();
    SameStampContinues("2024-01-01");
    assert GoesOn("2024-01-01", f("2024-01-01"), "2024-01-08", true);
    assert !GoesOn(t, f(t), "2024-01-08", true);
    PaginateTwo(f, "2024-01-01", t, "2024-01-08", true, fuel);
  }

  /** A loop that goes on once and then stops makes exactly two requests. */
  lemma PaginateTwo(fetch: string -> seq<Row>, from: string, next: string, weekEnd: string, guard: bool, fuel: nat)
    requires fuel >= 2
    requires GoesOn(from, fetch(from), weekEnd, guard) && NextFrom(LastDate(fetch(from))) == next
    requires !GoesOn(next, fetch(next), weekEnd, guard)
    ensures Paginate(fetch, from, weekEnd, guard, fuel).Some?
    ensures Paginate(fetch, from, weekEnd, guard, fuel).value.requests == [from, next]
  {
    assert Paginate(fetch, next, weekEnd, guard, fuel - 1) == Some(Weekly(fetch(next), [next]));
  }

  /** With the advance check the requested dates strictly increase, so no
      request is ever repeated. */
  lemma {:induction false} FixedRequestsIncrease(fetch: string -> seq<Row>, weekEnd: string, requests: seq<string>, i: nat, j: nat)
    requires Chain(fetch, weekEnd, true, requests)
    requires i < j < |requests|
    ensures StrLt(requests[i], requests[j])
    decreases j - i
  {
    assert GoesOn(requests[i], fetch(requests[i]), weekEnd, true);
    if i + 1 < j {
      FixedRequestsIncrease(fetch, weekEnd, requests, i + 1, j);
      StrLeTrans(requests[i], requests[i + 1], requests[j]);
      if requests[i] == requests[j] {
        StrLeAntisym(requests[i], requests[i + 1]);
      }
    }
  }

  // ---------------------------------------------------------------------------
  // Margin by product
  // ---------------------------------------------------------------------------

  /** The accumulator `get_margin_by_product` keeps per nmID. */
  datatype MarginAcc = MarginAcc(vendorCode: string, subject: string, brand: string, totals: Totals)

  /** The nmID a report row is grouped under, if it normalises. */
  function NormId(x: Row): Option<int> { ToIntNmId(x.nmId) }

  /** The accumulator the first row of an nmID creates. */
  function MarginFresh(x: Row): MarginAcc {
    MarginAcc(x.supplierArticle.GetOr(""), x.subject.GetOr(""), x.brand.GetOr(""), NoTotals)
  }

  /** The aggregation loop: rows whose nmID does not normalise are skipped;
      every other row is added to its nmID's accumulator. */
  function Aggregate(report: seq<Row>, key: Row -> Option<int>): Dict<int, MarginAcc>
    decreases |report|
  {
    if |report| == 0 then []
    else
      var acc := Aggregate(report[..|report| - 1], key);
      var x := report[|report| - 1];
      match key(x)
      case None => acc
      case Some(k) =>
        var a := Get(acc, k).GetOr(MarginFresh(x));
        Put(acc, k, a.(totals := AddRow(a.totals, x)))
  }

  /** The report rows of nmID `k`, in order. */
  function RowsOf(report: seq<Row>, key: Row -> Option<int>, k: int): seq<Row> {
    WithKey(report, key, Some(k))
  }

  /** The accumulator rows `w` of one product should give: labels from the
      first row, totals over all of them. */
  function AccOf(w: seq<Row>): MarginAcc
    requires |w| > 0
  {
    MarginAcc(w[0].supplierArticle.GetOr(""), w[0].subject.GetOr(""), w[0].brand.GetOr(""), Accumulate(w))
  }

  lemma AccOfSnoc(w: seq<Row>, x: Row)
    ensures |w| > 0 ==> AccOf(w + [x]) == AccOf(w).(totals := AddRow(AccOf(w).totals, x))
    ensures |w| == 0 ==> AccOf(w + [x]) == MarginFresh(x).(totals := AddRow(NoTotals, x))
  {
    assert (w + [x])[..|w|] == w;
    if |w| == 0 {
      assert w + [x] == [x];
      assert Accumulate([x]) == AddRow(Accumulate([]), x);
    } else {
      assert (w + [x])[0] == w[0];
    }
  }

  /** An nmID has an accumulator iff some row normalises to it, and the
      accumulator covers exactly those rows. */
  lemma {:induction false} AggregateTotals(report: seq<Row>, key: Row -> Option<int>, k: int)
    ensures Get(Aggregate(report, key), k).Some? <==> |RowsOf(report, key, k)| > 0
    ensures Get(Aggregate(report, key), k).Some? ==> Get(Aggregate(report, key), k).value == AccOf(RowsOf(report, key, k))
    decreases |report|
  {
    if |report| > 0 {
      var init := report[..|report| - 1];
      var x := report[|report| - 1];
      AggregateTotals(init, key, k);
      assert report == init + [x];
      if key(x).Some? {
        AggregateStep(init, key, x, k);
      } else {
        AggregateSkip(init, key, x, k);
      }
    }
  }

  /** A row whose nmID does not normalise changes nothing. */
  lemma AggregateSkip(init: seq<Row>, key: Row -> Option<int>, x: Row, k: int)
    requires key(x).None?
    ensures Aggregate(init + [x], key) == Aggregate(init, key)
    ensures RowsOf(init + [x], key, k) == RowsOf(init, key, k)
  {
    var s := init + [x];
    assert s[..|s| - 1] == init && s[|s| - 1] == x;
    WithKeySnoc(init, key, Some(k), x);
  }

  /** One normalising row updates its own nmID's accumulator only. */
  lemma AggregateStep(init: seq<Row>, key: Row -> Option<int>, x: Row, k: int)
    requires key(x).Some?
    requires Get(Aggregate(init, key), k).Some? <==> |RowsOf(init, key, k)| > 0
    requires Get(Aggregate(init, key), k).Some? ==> Get(Aggregate(init, key), k).value == AccOf(RowsOf(init, key, k))
    ensures Get(Aggregate(init + [x], key), k).Some? <==> |RowsOf(init + [x], key, k)| > 0
    ensures Get(Aggregate(init + [x], key), k).Some? ==> Get(Aggregate(init + [x], key), k).value == AccOf(RowsOf(init + [x], key, k))
  {
    var acc := Aggregate(init, key);
    var j := key(x).value;
    var a := Get(acc, j).GetOr(MarginFresh(x));
    var a' := a.(totals := AddRow(a.totals, x));
    var s := init + [x];
    assert s[..|s| - 1] == init && s[|s| - 1] == x;
    assert Aggregate(s, key) == Put(acc, j, a');
    GetPut(acc, j, a', k);
    WithKeySnoc(init, key, Some(k), x);
    var w := RowsOf(init, key, k);
    if j == k {
      assert Get(Aggregate(s, key), k) == Some(a');
      assert RowsOf(s, key, k) == w + [x];
      AccOfSnoc(w, x);
      if |w| > 0 {
        assert a == AccOf(w);
      } else {
        assert a == MarginFresh(x);
      }
      assert a' == AccOf(w + [x]);
    } else {
      assert Get(Aggregate(s, key), k) == Get(acc, k);
      assert RowsOf(s, key, k) == w;
    }
  }

  lemma {:induction false} AggregateDistinct(report: seq<Row>, key: Row -> Option<int>)
    ensures DistinctKeys(Aggregate(report, key))
    decreases |report|
  {
    if |report| > 0 {
      var acc := Aggregate(report[..|report| - 1], key);
      var x := report[|report| - 1];
      AggregateDistinct(report[..|report| - 1], key);
      match key(x)
      case None =>
      case Some(k) =>
        var a := Get(acc, k).GetOr(MarginFresh(x));
        PutDistinct(acc, k, a.(totals := AddRow(a.totals, x)));
    }
  }

  lemma AggregateCounts(report: seq<Row>, key: Row -> Option<int>)
    ensures CountsValid(Aggregate(report, key))
  {
    var d := Aggregate(report, key);
    forall i | 0 <= i < |d| ensures d[i].1.totals.returnsCount >= 0 {
      AggregateDistinct(report, key);
      GetDistinct(d, i);
      AggregateTotals(report, key, d[i].0);
    }
  }

  /** One entry of the result. */
  datatype Margin = Margin(
    nmId: int, vendorCode: string, subject: string, brand: string,
    salesCount: int, returnsCount: int, returnRate: real,
    grossRevenue: real, returnsAmount: real, netPayout: real,
    avgRetailPrice: real, avgNetPayout: real,
    wbCommission: real, logisticsCost: real, storageCost: real, penalties: real,
    totalWbCosts: real, wbCostRate: real, netPayoutRate: real)

  /** `round(part / whole * 100, 1)`, or 0 when `whole` is zero. */
  function RateOf(part: real, whole: real): real {
    if whole != 0.0 then RoundTo(part / whole * 100.0, 10) else 0.0
  }

  /** The derived metrics of one product with at least one sale. */
  function Derive(k: int, a: MarginAcc): (m: Margin)
    requires a.totals.sales > 0 && a.totals.returnsCount >= 0
    ensures m.nmId == k && m.salesCount == a.totals.sales && m.returnsCount == a.totals.returnsCount
    ensures 0.0 <= m.returnRate <= 100.0
  {
    var t := a.totals;
    var gross := t.revenue;
    var costs := t.commission + t.logistics + t.storage + t.penalty;
    Margin(k, a.vendorCode, a.subject, a.brand, t.sales, t.returnsCount,
      Percent(t.returnsCount, t.sales + t.returnsCount, 10),
      RoundTo(gross, 100), RoundTo(t.returned, 100), RoundTo(t.net, 100),
      RoundTo(gross / t.sales as real, 100), RoundTo(t.net / t.sales as real, 100),
      RoundTo(t.commission, 100), RoundTo(t.logistics, 100), RoundTo(t.storage, 100), RoundTo(t.penalty, 100),
      RoundTo(costs, 100), RateOf(costs, gross), RateOf(t.net, gross))
  }

  /** Accumulators whose counts are those of some rows. */
  ghost predicate CountsValid(d: Dict<int, MarginAcc>) {
    forall i | 0 <= i < |d| :: d[i].1.totals.returnsCount >= 0
  }

  /** The derivation loop over the accumulators, in insertion order: products
      without a sale are dropped. */
  function DeriveAll(d: Dict<int, MarginAcc>): (r: seq<Margin>)
    requires CountsValid(d)
    decreases |d|
  {
    if |d| == 0 then []
    else
      var e := d[|d| - 1];
      DeriveAll(d[..|d| - 1]) + (if e.1.totals.sales <= 0 then [] else [Derive(e.0, e.1)])
  }

  /** Every derived entry comes from an accumulator with a sale. */
  lemma {:induction false} DeriveAllSound(d: Dict<int, MarginAcc>)
    requires CountsValid(d)
    ensures forall m | m in DeriveAll(d) :: exists i | 0 <= i < |d| :: d[i].1.totals.sales > 0 && m == Derive(d[i].0, d[i].1)
    decreases |d|
  {
    if |d| > 0 {
      var init := d[..|d| - 1];
      var e := d[|d| - 1];
      assert CountsValid(init) by {
        assert forall i | 0 <= i < |init| :: init[i] == d[i];
      }
      DeriveAllSound(init);
      var tail := if e.1.totals.sales <= 0 then [] else [Derive(e.0, e.1)];
      assert DeriveAll(d) == DeriveAll(init) + tail;
      forall m | m in DeriveAll(d)
        ensures exists i | 0 <= i < |d| :: d[i].1.totals.sales > 0 && m == Derive(d[i].0, d[i].1)
      {
        if m in DeriveAll(init) {
          var i :| 0 <= i < |init| && init[i].1.totals.sales > 0 && m == Derive(init[i].0, init[i].1);
          assert d[i] == init[i];
        } else {
          assert m in tail;
          assert d[|d| - 1] == e;
        }
      }
    }
  }

  /** Every accumulator with a sale is derived. */
  lemma {:induction false} DeriveAllComplete(d: Dict<int, MarginAcc>)
    requires CountsValid(d)
    ensures forall i | 0 <= i < |d| && d[i].1.totals.sales > 0 :: Derive(d[i].0, d[i].1) in DeriveAll(d)
    decreases |d|
  {
    if |d| > 0 {
      var init := d[..|d| - 1];
      var e := d[|d| - 1];
      assert CountsValid(init) by {
        assert forall i | 0 <= i < |init| :: init[i] == d[i];
      }
      DeriveAllComplete(init);
      var tail := if e.1.totals.sales <= 0 then [] else [Derive(e.0, e.1)];
      assert DeriveAll(d) == DeriveAll(init) + tail;
      forall i | 0 <= i < |d| && d[i].1.totals.sales > 0
        ensures Derive(d[i].0, d[i].1) in DeriveAll(d)
      {
        if i < |init| {
          assert init[i] == d[i];
          assert Derive(init[i].0, init[i].1) in DeriveAll(init);
        } else {
          assert d[i] == e;
          assert Derive(e.0, e.1) in tail;
        }
      }
    }
  }

  /** Exactly the accumulators with at least one sale are derived. */
  lemma DeriveAllMembers(d: Dict<int, MarginAcc>)
    requires CountsValid(d)
    ensures forall m | m in DeriveAll(d) :: exists i | 0 <= i < |d| :: d[i].1.totals.sales > 0 && m == Derive(d[i].0, d[i].1)
    ensures forall i | 0 <= i < |d| && d[i].1.totals.sales > 0 :: Derive(d[i].0, d[i].1) in DeriveAll(d)
  {
    DeriveAllSound(d);
    DeriveAllComplete(d);
  }

  /** `result.sort(key=gross_revenue, reverse=True)`. */
  predicate GrossGe(a: Margin, b: Margin) { a.grossRevenue >= b.grossRevenue }

  /** `get_margin_by_product` over the fetched report (the empty report gives
      the empty list): sorted by gross revenue, highest first. */
  function Margins(report: seq<Row>): (r: seq<Margin>)
    ensures Sorted(r, GrossGe)
    ensures |report| == 0 ==> r == []
  {
    var d := Aggregate(report, NormId);
    AggregateCounts(report, NormId);
    SortBySorted(DeriveAll(d), GrossGe);
    SortBy(DeriveAll(d), GrossGe)
  }

  /** Each listed product has at least one sale among the rows of its nmID,
      its sale and return counts cover exactly those rows, its gross revenue
      is the retail amount of its sales, and its return rate is a
      percentage. */
  lemma MarginsEntries(report: seq<Row>, m: Margin)
    requires m in Margins(report)
    ensures var rows := RowsOf(report, NormId, m.nmId);
      |rows| > 0
      && m.salesCount == |Filter(rows, IsSale)| > 0
      && m.salesCount + m.returnsCount == |rows|
      && m.grossRevenue == RoundTo(SumReal(Filter(rows, IsSale), Retail), 100)
      && 0.0 <= m.returnRate <= 100.0
  {
    var d := Aggregate(report, NormId);
    AggregateCounts(report, NormId);
    assert m in multiset(SortBy(DeriveAll(d), GrossGe));
    assert m in DeriveAll(d);
    DeriveAllMembers(d);
    var i :| 0 <= i < |d| && d[i].1.totals.sales > 0 && m == Derive(d[i].0, d[i].1);
    AggregateDistinct(report, NormId);
    GetDistinct(d, i);
    AggregateTotals(report, NormId, d[i].0);
    var rows := RowsOf(report, NormId, d[i].0);
    AccumulateRevenue(rows);
  }

  /** Every nmID with at least one sale is listed. */
  lemma MarginsComplete(report: seq<Row>, k: int)
    requires |Filter(RowsOf(report, NormId, k), IsSale)| > 0
    ensures exists m | m in Margins(report) :: m.nmId == k
  {
    var d := Aggregate(report, NormId);
    var rows := RowsOf(report, NormId, k);
    AggregateCounts(report, NormId);
    AggregateTotals(report, NormId, k);
    var a := Get(d, k).value;
    GetSome(d, k);
    var i :| 0 <= i < |d| && d[i].0 == k && d[i].1 == a;
    DeriveAllMembers(d);
    var m := Derive(k, a);
    assert m in DeriveAll(d);
    assert m in multiset(SortBy(DeriveAll(d), GrossGe));
  }

  /** A row whose nmID does not normalise leaves the report unchanged. */
  lemma MarginsSkipUnnormalised(report: seq<Row>, x: Row)
    requires NormId(x).None?
    ensures Margins(report + [x]) == Margins(report)
  {
    AggregateSkip(report, NormId, x, 0);
  }
}
