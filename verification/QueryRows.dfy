/** What the computed endpoints answer, in terms of the stored rows alone. */
module QueryRows {
  import opened Prelude
  import opened Models
  import opened Store
  import opened Ordering
  import opened Query
  import opened QueryServices
  import opened IndicatorLaws
  import opened Symbols
  import QueryLaws
  import T = Technical
  import F = Fundamentals

  /** The days for which the company has a price row, oldest first. */
  ghost predicate PriceDays(t: map<PriceKey, PriceRow>, id: int, days: seq<Date>) {
    && (forall i, j :: 0 <= i < j < |days| ==> days[i] < days[j])
    && (forall d :: d in days <==> PriceKey(id, d) in t)
  }

  /** The fiscal dates of the company's annual rows, newest first. */
  ghost predicate AnnualDates<R>(t: map<StatementKey, R>, id: int, dates: seq<Date>) {
    && (forall i, j :: 0 <= i < j < |dates| ==> dates[i] > dates[j])
    && (forall d :: d in dates <==> StatementKey(id, "annual", d) in t)
  }

  /** Every table has such sequences. */
  lemma RowsHaveDates<R>(p: map<PriceKey, PriceRow>, t: map<StatementKey, R>, id: int)
    ensures exists days :: PriceDays(p, id, days)
    ensures exists dates :: AnnualDates(t, id, dates)
  {
    var prices, rows := PricesOf(p, id), AnnualOf(t, id);
    var days, dates := Ascending(prices.Keys), Descending(rows.Keys);
    forall d
      ensures d in days <==> PriceKey(id, d) in p
      ensures d in dates <==> StatementKey(id, "annual", d) in t
    {
      assert d in prices <==> PriceKey(id, d) in p;
      assert d in rows <==> StatementKey(id, "annual", d) in t;
    }
    assert PriceDays(p, id, days) && AnnualDates(t, id, dates);
  }

  /** Without a cache, and with working reads, each call answers what the rows determine. */
  lemma UncachedAnswers(db: Db, ttl: int, symbol: string, sym: string, env: Env)
    requires Normalize(symbol) == Some(sym) && env.broken == {}
    ensures var a, t := Recompute(Analytics, sym, ViewOf(db, sym)), Recompute(Technical, sym, ViewOf(db, sym));
            var got, got' := AnalyticsOf(db, None, ttl, symbol, env).1, TechnicalOf(db, None, ttl, symbol, env).1;
            && (got.Ok? ==> a == Ok(AnalyticsValue(got.value))) && (got.Err? ==> a == Err(got.error))
            && (got'.Ok? ==> t == Ok(TechnicalValue(got'.value))) && (got'.Err? ==> t == Err(got'.error))
  {
    hide Continue, Normalize, ViewOf;
    AnswersMatch(Analytics, db, map[], ttl, symbol, env);
    AnswersMatch(Technical, db, map[], ttl, symbol, env);
  }

  // ---------- The technical page ----------

  /** c and v are the closes and the volumes of the stored days. */
  ghost predicate SeriesOf(t: map<PriceKey, PriceRow>, id: int, days: seq<Date>, c: seq<real>, v: seq<real>) {
    && PriceDays(t, id, days) && |c| == |v| == |days|
    && forall k :: 0 <= k < |days| ==>
         var key := PriceKey(id, days[k]);
         key in t && c[k] == t[key].close && v[k] == t[key].volume as real
  }

  ghost predicate Positive(x: seq<real>) {
    forall k :: 0 <= k < |x| ==> x[k] > 0.0
  }

  /** m is the mean of the last w elements, and there is one exactly when there are w, all of them positive. */
  ghost predicate LatestMean(m: Option<real>, x: seq<real>, w: nat) {
    && (m.Some? <==> |x| >= w && Positive(x))
    && (m.Some? ==> IsMean(m.value, x[|x| - w..], w))
  }

  ghost predicate LatestReturn(r: Option<real>, c: seq<real>) {
    && (r.Some? <==> |c| >= 2 && Positive(c))
    && (r.Some? ==> MovesTo(c[|c| - 2], c[|c| - 1], r.value))
  }

  ghost predicate LatestEma(m: Option<real>, c: seq<real>, w: nat) {
    && (m.Some? <==> |c| >= w && Positive(c))
    && (m.Some? ==> exists e :: MovesBy(e, c, w) && m.value == e[|e| - 1])
  }

  ghost predicate LatestRsi(r: Option<real>, c: seq<real>, w: nat) {
    && (r.Some? <==> |c| >= w + 1 && Positive(c))
    && (r.Some? ==> exists up, down, gs, ls ::
          RisesAndFalls(c, up, down) && Averaged(gs, up, w) && Averaged(ls, down, w) &&
          ShareOf(r.value, gs[|gs| - 1], ls[|ls| - 1]))
  }

  ghost predicate LatestVolatility(r: Option<T.Reading>, c: seq<real>, w: nat) {
    && (r.Some? <==> |c| >= w + 1 && Positive(c))
    && (r.Some? ==> r.value.radicand.Number? &&
                    exists x, m, d :: RelativeMoves(x, c, |c| - w - 1, w) && Squares(d, x, m) &&
                                      (w as real - 1.0) * r.value.radicand.value == Total(d))
  }

  lemma LastMean(x: seq<real>, w: nat)
    requires w > 0
    ensures LatestMean(F.Last(T.SmaSpec(x, w)), x, w)
  {
    hide T.SmaSpec, IsMean;
    GuardsOfIndicators(x, w);
    if T.SmaSpec(x, w).Ok? {
      SmaOnPrices(x, w);
      assert x[|x| - w..|x| - w + w] == x[|x| - w..];
    }
  }

  lemma LastReturn(c: seq<real>)
    ensures LatestReturn(F.Last(T.DailyReturnSpec(c)), c)
  {
    hide T.DailyReturnSpec, MovesTo;
    GuardsOfIndicators(c, 1);
    if T.DailyReturnSpec(c).Ok? {
      DailyReturnOnPrices(c);
    }
  }

  lemma LastEma(c: seq<real>, w: nat)
    requires w > 0
    ensures LatestEma(F.Last(T.EmaSpec(c, w)), c, w)
  {
    hide T.EmaSpec, MovesOnce, Total;
    GuardsOfIndicators(c, w);
    if T.EmaSpec(c, w).Ok? {
      EmaOnPrices(c, w);
    }
  }

  lemma LastRsi(c: seq<real>, w: nat)
    requires w > 0
    ensures LatestRsi(F.Last(T.RsiSpec(c, w)), c, w)
  {
    hide T.RsiSpec, AveragedOnce, Total, ShareOf;
    GuardsOfIndicators(c, w);
    if T.RsiSpec(c, w).Ok? {
      var up, down := Movements(c);
      RsiOnPrices(c, w, up, down);
      NotEmptyRsi(c, w);
    }
  }

  lemma NotEmptyRsi(c: seq<real>, w: nat)
    requires T.RsiSpec(c, w).Ok?
    ensures T.RsiSpec(c, w).value != []
  {
  }

  lemma LastVolatility(c: seq<real>, w: nat)
    requires w > 1
    ensures LatestVolatility(F.Nullable(T.VolatilitySpec(c, w)), c, w)
  {
    hide T.VolatilitySpec, T.VolatilitySeriesSpec, Total, RelativeMoves, Squares;
    GuardsOfIndicators(c, w);
    if T.VolatilitySpec(c, w).Ok? {
      var x, m, d := Distances(c, |c| - w - 1, w);
      VolatilityOnPrices(c, w, |c| - w - 1, x, m, d);
    }
  }

  /** The stored days are the keys of the joined price rows in ascending order. */
  lemma DaysAreKeys(t: map<PriceKey, PriceRow>, id: int, days: seq<Date>)
    requires PriceDays(t, id, days)
    ensures days == Ascending(PricesOf(t, id).Keys) && (PricesOf(t, id) == map[] <==> days == [])
    ensures forall d :: d in days ==> d in PricesOf(t, id) && PricesOf(t, id)[d] == t[PriceKey(id, d)]
  {
    var prices := PricesOf(t, id);
    forall d
      ensures d in days <==> d in prices.Keys
    {
      assert d in prices <==> PriceKey(id, d) in t;
    }
    AscendingIsUnique(days, prices.Keys);
    if days != [] {
      assert days[0] in prices;
    }
  }

  /** The series that the computation fills are the closes and volumes of the stored days, in their order. */
  lemma SeriesAreRows(db: Db, sym: string, days: seq<Date>, c: seq<real>, v: seq<real>)
    requires sym in db.companies && SeriesOf(db.prices, db.companies[sym].id, days, c, v)
    ensures ViewOf(db, sym).Some?
    ensures var h := History(ViewOf(db, sym).value);
            && |h| == |days| && Closes(h) == c && Volumes(h) == v
            && (ViewOf(db, sym).value.prices == map[] <==> days == [])
            && forall k :: 0 <= k < |h| ==> h[k].date == days[k]
  {
    hide PricesOf, AnnualOf, PriceDays, Ascending;
    DaysAreKeys(db.prices, db.companies[sym].id, days);
    var h := History(ViewOf(db, sym).value);
    forall k | 0 <= k < |days|
      ensures k < |h| && h[k].date == days[k] && h[k].close == c[k] && h[k].volume as real == v[k]
    {
      assert days[k] in days;
    }
  }

  /**
   The technical page of a company with price rows: the newest day, and every indicator from the closes
   and volumes of the stored days.
   */
  lemma TechnicalOnRows(db: Db, sym: string, days: seq<Date>, c: seq<real>, v: seq<real>)
    requires sym in db.companies && SeriesOf(db.prices, db.companies[sym].id, days, c, v) && days != []
    ensures var r := Recompute(Technical, sym, ViewOf(db, sym));
            && r.Ok? && r.value.TechnicalValue?
            && var t := r.value.technical;
               && t.symbol == sym && t.lastDate == days[|days| - 1]
               && LatestReturn(t.values.dailyReturn, c)
               && LatestMean(t.values.sma20, c, 20) && LatestMean(t.values.sma50, c, 50)
               && LatestMean(t.values.sma200, c, 200) && LatestEma(t.values.ema20, c, 20)
               && LatestRsi(t.values.rsi14, c, 14) && LatestVolatility(t.values.volatility20, c, 20)
               && LatestMean(t.values.averageVolume20, v, 20)
  {
    hide ViewOf, Recompute, History, Closes, Volumes, SeriesOf, LatestReturn, LatestMean, LatestEma, LatestRsi,
         LatestVolatility, F.Last, F.Nullable, T.DailyReturnSpec, T.SmaSpec, T.EmaSpec, T.RsiSpec, T.VolatilitySpec;
    SeriesAreRows(db, sym, days, c, v);
    QueryLaws.TechnicalAnswer(sym, ViewOf(db, sym));
    LastReturn(c);
    LastMean(c, 20);
    LastMean(c, 50);
    LastMean(c, 200);
    LastEma(c, 20);
    LastRsi(c, 14);
    LastVolatility(c, 20);
    LastMean(v, 20);
  }

  // ---------- The analytics page ----------

  /** The quotient, null unless the divisor is positive. */
  ghost predicate Over(q: Option<real>, num: real, den: real) {
    && (q.Some? <==> den > 0.0)
    && (q.Some? ==> q.value * den == num)
  }

  /** The quotient, null when the divisor is zero. */
  ghost predicate OverNonzero(q: Option<real>, num: real, den: real) {
    && (q.Some? <==> den != 0.0)
    && (q.Some? ==> q.value * den == num)
  }

  /** The price over the equity per share, null unless all three are positive. */
  ghost predicate PriceOverBook(q: Option<real>, price: real, equity: real, shares: real) {
    && (q.Some? <==> price > 0.0 && shares > 0.0 && equity > 0.0)
    && (q.Some? ==> q.value * equity == price * shares)
  }

  /** The nine metrics of an income row i, the one of the year before, a balance row and a closing price. */
  ghost predicate MetricsOf(m: Metrics, i: IncomeRow, prev: Option<IncomeRow>, b: BalanceRow, close: real) {
    && (if close > 0.0 then OverNonzero(m.pe, close, i.dilutedEps) else m.pe == None)
    && PriceOverBook(m.pb, close, b.totalEquity, b.sharesOutstanding)
    && Over(m.roe, i.netIncome, b.totalEquity) && Over(m.roa, i.netIncome, b.totalAssets)
    && OverNonzero(m.netMargin, i.netIncome, i.revenue)
    && Over(m.currentRatio, b.currentAssets, b.currentLiabilities) && Over(m.debtToEquity, b.totalDebt, b.totalEquity)
    && (prev.None? ==> m.revenueGrowth == None && m.earningsGrowth == None)
    && (prev.Some? ==> Over(m.revenueGrowth, i.revenue - prev.value.revenue, prev.value.revenue))
    && (prev.Some? ==> Over(m.earningsGrowth, i.netIncome - prev.value.netIncome, prev.value.netIncome))
  }

  lemma RatioIsOver(num: real, den: real)
    ensures Over(F.Nullable(F.Ratio(num, den, false)), num, den)
    ensures OverNonzero(F.Nullable(F.Ratio(num, den, true)), num, den)
    ensures Over(F.Nullable(F.Growth(den, num)), num - den, den)
  {
    if den != 0.0 {
      Undivide(num, den);
      Undivide(num - den, den);
    }
  }

  lemma PriceToBookTimes(price: real, equity: real, shares: real)
    ensures PriceOverBook(F.Nullable(F.PriceToBook(price, equity, shares)), price, equity, shares)
  {
    if price > 0.0 && shares > 0.0 && equity > 0.0 {
      var book := equity / shares;
      var q := price / book;
      Undivide(equity, shares);
      Undivide(price, book);
      assert q * equity == q * (shares * book) == (q * book) * shares;
    }
  }

  lemma ComputedMetrics(incomes: seq<IncomeRow>, b: BalanceRow, close: real)
    requires incomes != []
    ensures MetricsOf(ComputeMetrics(incomes, b, close), incomes[0],
                      if |incomes| > 1 then Some(incomes[1]) else None, b, close)
  {
    hide F.Ratio, F.Growth, F.PriceToBook, F.Nullable, Over, OverNonzero, PriceOverBook;
    var i := incomes[0];
    RatioIsOver(close, i.dilutedEps);
    RatioIsOver(i.netIncome, b.totalEquity);
    RatioIsOver(i.netIncome, b.totalAssets);
    RatioIsOver(i.netIncome, i.revenue);
    RatioIsOver(b.currentAssets, b.currentLiabilities);
    RatioIsOver(b.totalDebt, b.totalEquity);
    PriceToBookTimes(close, b.totalEquity, b.sharesOutstanding);
    NullableError(close, i.dilutedEps);
    if |incomes| > 1 {
      RatioIsOver(i.revenue, incomes[1].revenue);
      RatioIsOver(i.netIncome, incomes[1].netIncome);
    }
  }

  lemma NullableError(close: real, eps: real)
    ensures close <= 0.0 ==> F.Nullable(F.PERatio(close, eps)) == None
  {
  }

  /** Sorting the annual rows newest first lists the rows of those dates. */
  lemma NewestRows<R>(t: map<StatementKey, R>, id: int, dates: seq<Date>)
    requires AnnualDates(t, id, dates)
    ensures var rows := NewestFirst(AnnualOf(t, id));
            && |rows| == |dates| && (AnnualOf(t, id) == map[] <==> dates == [])
            && forall k :: 0 <= k < |dates| ==>
                 StatementKey(id, "annual", dates[k]) in t && rows[k] == t[StatementKey(id, "annual", dates[k])]
  {
    var rows := AnnualOf(t, id);
    forall d
      ensures d in dates <==> d in rows.Keys
      ensures d in rows ==> rows[d] == t[StatementKey(id, "annual", d)]
    {
      assert d in rows <==> StatementKey(id, "annual", d) in t;
    }
    DescendingIsUnique(dates, rows.Keys);
    if dates != [] {
      assert dates[0] in rows;
    }
  }

  ghost predicate NewestDay(t: map<PriceKey, PriceRow>, id: int, day: Date) {
    PriceKey(id, day) in t && forall d :: PriceKey(id, d) in t ==> d <= day
  }

  lemma NewestPrice(t: map<PriceKey, PriceRow>, id: int, day: Date)
    requires NewestDay(t, id, day)
    ensures PricesOf(t, id) != map[] && Max(PricesOf(t, id).Keys) == day && PricesOf(t, id)[day] == t[PriceKey(id, day)]
  {
    var prices := PricesOf(t, id);
    assert day in prices;
    assert PriceKey(id, Max(prices.Keys)) in t;
  }

  /**
   The analytics page of a company with annual statements on the dates inc and bal, newest first, and
   price rows up to a newest day: the metrics of the newest statements, the one before, and that close.
   */
  lemma AnalyticsOnRows(db: Db, sym: string, inc: seq<Date>, bal: seq<Date>, day: Date)
    requires sym in db.companies && inc != [] && bal != []
    requires var id := db.companies[sym].id;
             AnnualDates(db.income, id, inc) && AnnualDates(db.balance, id, bal) && NewestDay(db.prices, id, day)
    ensures var id, r := db.companies[sym].id, Recompute(Analytics, sym, ViewOf(db, sym));
            var close := db.prices[PriceKey(id, day)].close;
            && r.Ok? && r.value.AnalyticsValue? && r.value.analytics.symbol == sym && r.value.analytics.price == close
            && MetricsOf(r.value.analytics.metrics, db.income[StatementKey(id, "annual", inc[0])],
                         if |inc| > 1 then Some(db.income[StatementKey(id, "annual", inc[1])]) else None,
                         db.balance[StatementKey(id, "annual", bal[0])], close)
  {
    hide Recompute, ComputeMetrics, NewestFirst, AnnualOf, PricesOf, MetricsOf;
    var id, v := db.companies[sym].id, ViewOf(db, sym).value;
    NewestRows(db.income, id, inc);
    NewestRows(db.balance, id, bal);
    NewestPrice(db.prices, id, day);
    QueryLaws.AnalyticsAnswer(sym, ViewOf(db, sym));
    ComputedMetrics(NewestFirst(v.incomes), NewestFirst(v.balances)[0], LatestPrice(v).value.close);
  }

  /** Which of the two errors each computed endpoint answers, and that it answers no other. */
  lemma RefusalOnRows(db: Db, sym: string)
    ensures var a, t := Recompute(Analytics, sym, ViewOf(db, sym)), Recompute(Technical, sym, ViewOf(db, sym));
            && (sym !in db.companies ==> a == Err(NotFound) && t == Err(NotFound))
            && (sym in db.companies ==>
                  var id := db.companies[sym].id;
                  var priced := exists d :: PriceKey(id, d) in db.prices;
                  var reported := (exists d :: StatementKey(id, "annual", d) in db.income) &&
                                  (exists d :: StatementKey(id, "annual", d) in db.balance);
                  (if priced then t.Ok? else t == Err(InsufficientData)) &&
                  (if priced && reported then a.Ok? else a == Err(InsufficientData)))
  {
    hide Recompute, ComputeMetrics, NewestFirst, LatestPrice, History, ComputeIndicators;
    QueryLaws.AnalyticsAnswer(sym, ViewOf(db, sym));
    QueryLaws.TechnicalAnswer(sym, ViewOf(db, sym));
    if sym in db.companies {
      var id := db.companies[sym].id;
      SomePrice(db.prices, id);
      SomeAnnual(db.income, id);
      SomeAnnual(db.balance, id);
    }
  }

  lemma SomePrice(t: map<PriceKey, PriceRow>, id: int)
    ensures PricesOf(t, id) != map[] <==> exists d :: PriceKey(id, d) in t
  {
    var rows := PricesOf(t, id);
    EmptyOrInhabited(rows.Keys);
    if d :| PriceKey(id, d) in t {
      assert d in rows;
    }
    if rows != map[] {
      assert rows.Keys != {};
      var d :| d in rows.Keys;
      assert PriceKey(id, d) in t;
    }
  }

  lemma SomeAnnual<R>(t: map<StatementKey, R>, id: int)
    ensures AnnualOf(t, id) != map[] <==> exists d :: StatementKey(id, "annual", d) in t
  {
    var rows := AnnualOf(t, id);
    EmptyOrInhabited(rows.Keys);
    if d :| StatementKey(id, "annual", d) in t {
      assert d in rows;
    }
    if rows != map[] {
      assert rows.Keys != {};
      var d :| d in rows.Keys;
      assert StatementKey(id, "annual", d) in t;
    }
  }
}
