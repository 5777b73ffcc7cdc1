/**
 The read side: what a query fetches, what it computes from that, and the read-through cache
 around it.
 */
module Query {
  import opened Prelude
  import opened Models
  import opened Symbols
  import opened Store
  import opened CacheStore
  import T = Technical
  import F = Fundamentals
  import Ingestion

  datatype QueryError = InvalidSymbol | NotFound | InsufficientData | StoreError

  datatype Metrics = Metrics(pe: Option<real>, pb: Option<real>, roe: Option<real>, roa: Option<real>,
                             netMargin: Option<real>, currentRatio: Option<real>, debtToEquity: Option<real>,
                             revenueGrowth: Option<real>, earningsGrowth: Option<real>)
  datatype AnalyticsResult = AnalyticsResult(symbol: string, price: real, metrics: Metrics)

  datatype Indicators = Indicators(dailyReturn: Option<real>, sma20: Option<real>, sma50: Option<real>,
                                   sma200: Option<real>, ema20: Option<real>, rsi14: Option<real>,
                                   volatility20: Option<T.Reading>, averageVolume20: Option<real>)
  datatype TechnicalResult = TechnicalResult(symbol: string, lastDate: Date, values: Indicators)

  /** The two computed endpoints; a cached value is one of their results. */
  datatype Kind = Analytics | Technical
  datatype Cached = AnalyticsValue(analytics: AnalyticsResult) | TechnicalValue(technical: TechnicalResult)

  type Answer = Result<Cached, QueryError>

  predicate OfKind(kind: Kind, v: Cached) {
    if kind.Analytics? then v.AnalyticsValue? else v.TechnicalValue?
  }

  function KeyOf(kind: Kind, sym: string): string {
    (if kind.Analytics? then Ingestion.ANALYTICS else Ingestion.TECHNICAL) + sym
  }

  // ---------- Store reads ----------

  /** What one store read returns: a driver error, sql.ErrNoRows, or rows. */
  datatype Fetched = Broken | NoRows | Profile(company: Company) | Incomes(incomes: seq<IncomeRow>)
                   | Balances(balances: seq<BalanceRow>) | Latest(price: DailyPrice) | Prices(prices: seq<DailyPrice>)

  /** How many reads a computation makes, one after the other. */
  function Reads(kind: Kind): nat {
    if kind.Analytics? then 4 else 2
  }

  /** Read number i of a computation, against the rows of its symbol. */
  function Read(kind: Kind, i: nat, view: Option<View>): Fetched
    requires i < Reads(kind)
  {
    match view
    case None => NoRows
    case Some(v) =>
      if i == 0 then Profile(v.company)
      else if kind.Technical? then if v.prices == map[] then NoRows else Prices(History(v))
      else if i == 1 then if v.incomes == map[] then NoRows else Incomes(NewestFirst(v.incomes))
      else if i == 2 then if v.balances == map[] then NoRows else Balances(NewestFirst(v.balances))
      else if v.prices == map[] then NoRows else Latest(LatestPrice(v).value)
  }

  /** The error a read ends the computation with, if it does. */
  function Refusal(i: nat, f: Fetched): Option<QueryError> {
    if f.Broken? then Some(StoreError)
    else if f.NoRows? then Some(if i == 0 then NotFound else InsufficientData)
    else None
  }

  /** The row sets of a computation that no read refused. */
  predicate Gathered(kind: Kind, got: seq<Fetched>) {
    if kind.Analytics? then
      |got| == 4 && got[1].Incomes? && got[1].incomes != [] && got[2].Balances? && got[2].balances != [] &&
      got[3].Latest?
    else
      |got| == 2 && got[1].Prices? && got[1].prices != []
  }

  // ---------- The computations ----------

  function ComputeMetrics(incomes: seq<IncomeRow>, b: BalanceRow, price: real): Metrics
    requires incomes != []
  {
    var cur := incomes[0];
    Metrics(F.Nullable(F.PERatio(price, cur.dilutedEps)),
            F.Nullable(F.PriceToBook(price, b.totalEquity, b.sharesOutstanding)),
            F.Nullable(F.ROE(cur.netIncome, b.totalEquity)),
            F.Nullable(F.ROA(cur.netIncome, b.totalAssets)),
            F.Nullable(F.NetMargin(cur.netIncome, cur.revenue)),
            F.Nullable(F.CurrentRatio(b.currentAssets, b.currentLiabilities)),
            F.Nullable(F.DebtToEquity(b.totalDebt, b.totalEquity)),
            if |incomes| > 1 then F.Nullable(F.Growth(incomes[1].revenue, cur.revenue)) else None,
            if |incomes| > 1 then F.Nullable(F.Growth(incomes[1].netIncome, cur.netIncome)) else None)
  }

  function Closes(prices: seq<DailyPrice>): seq<real> {
    seq(|prices|, i requires 0 <= i < |prices| => prices[i].close)
  }

  function Volumes(prices: seq<DailyPrice>): seq<real> {
    seq(|prices|, i requires 0 <= i < |prices| => prices[i].volume as real)
  }

  function ComputeIndicators(closes: seq<real>, volumes: seq<real>): Indicators {
    Indicators(F.Last(T.DailyReturnSpec(closes)), F.Last(T.SmaSpec(closes, 20)), F.Last(T.SmaSpec(closes, 50)),
               F.Last(T.SmaSpec(closes, 200)), F.Last(T.EmaSpec(closes, 20)), F.Last(T.RsiSpec(closes, 14)),
               F.Nullable(T.VolatilitySpec(closes, 20)), F.Last(T.SmaSpec(volumes, 20)))
  }

  function Conclude(kind: Kind, sym: string, got: seq<Fetched>): (v: Cached)
    requires Gathered(kind, got)
    ensures OfKind(kind, v)
  {
    if kind.Analytics? then
      AnalyticsValue(AnalyticsResult(sym, got[3].price.close,
                                     ComputeMetrics(got[1].incomes, got[2].balances[0], got[3].price.close)))
    else
      var p := got[1].prices;
      TechnicalValue(TechnicalResult(sym, p[|p| - 1].date, ComputeIndicators(Closes(p), Volumes(p))))
  }

  /** got are the answers of the reads so far, none of which ended the computation. */
  ghost predicate Underway(kind: Kind, got: seq<Fetched>) {
    && |got| <= Reads(kind)
    && (|got| > 1 ==> if kind.Analytics? then got[1].Incomes? && got[1].incomes != []
                      else got[1].Prices? && got[1].prices != [])
    && (|got| > 2 ==> got[2].Balances? && got[2].balances != [])
    && (|got| > 3 ==> got[3].Latest?)
  }

  /** The rest of a computation when every remaining read sees the same rows, except for those in broken. */
  function Continue(kind: Kind, sym: string, view: Option<View>, broken: set<nat>, got: seq<Fetched>): Answer
    requires Underway(kind, got)
    decreases Reads(kind) - |got|
  {
    if |got| == Reads(kind) then Ok(Conclude(kind, sym, got))
    else
      var f := if |got| in broken then Broken else Read(kind, |got|, view);
      match Refusal(|got|, f)
      case Some(e) => Err(e)
      case None =>
        assert view.Some? ==> |History(view.value)| == |view.value.prices|;
        Continue(kind, sym, view, broken, got + [f])
  }

  /** The answer that the stored rows of a symbol determine. */
  function Recompute(kind: Kind, sym: string, view: Option<View>): Answer {
    Continue(kind, sym, view, {}, [])
  }

  /** What the environment does to one call: its clock, its cache failures and the store reads that fail. */
  datatype Env = Env(now: int, getFails: bool, setFails: bool, broken: set<nat>)

  /** A call against an optional cache: the cache afterwards and the answer. */
  function ReadThrough(kind: Kind, db: Db, entries: map<string, Entry<Cached>>, ttl: int, symbol: string, env: Env)
    : (map<string, Entry<Cached>>, Answer)
  {
    match Normalize(symbol)
    case None => (entries, Err(InvalidSymbol))
    case Some(sym) =>
      var hit := if env.getFails then None else Lookup(entries, KeyOf(kind, sym), env.now);
      if hit.Some? && OfKind(kind, hit.value) then (entries, Ok(hit.value))
      else
        var answer := Continue(kind, sym, ViewOf(db, sym), env.broken, []);
        (if answer.Ok? && !env.setFails then Stored(entries, KeyOf(kind, sym), answer.value, env.now, ttl) else entries,
         answer)
  }

  function Uncached(kind: Kind, db: Db, symbol: string, env: Env): Answer {
    match Normalize(symbol)
    case None => Err(InvalidSymbol)
    case Some(sym) => Continue(kind, sym, ViewOf(db, sym), env.broken, [])
  }

  /** Entries under a key of one endpoint hold results of that endpoint. */
  ghost predicate Typed(entries: map<string, Entry<Cached>>) {
    forall kind, sym :: Rendered(KeyOf(kind, sym)) in entries ==>
      OfKind(kind, entries[Rendered(KeyOf(kind, sym))].value)
  }

  /** The Redis keys of the two cached endpoints. */
  lemma KeyNames(sym: string)
    ensures Rendered(KeyOf(Analytics, sym)) == "fda:analytics:" + sym
    ensures Rendered(KeyOf(Technical, sym)) == "fda:technical:" + sym
  {
    assert PREFIX + (Ingestion.ANALYTICS + sym) == (PREFIX + Ingestion.ANALYTICS) + sym;
    assert PREFIX + (Ingestion.TECHNICAL + sym) == (PREFIX + Ingestion.TECHNICAL) + sym;
  }

  lemma KeysApart(k1: Kind, s1: string, k2: Kind, s2: string)
    ensures Rendered(KeyOf(k1, s1)) == Rendered(KeyOf(k2, s2)) ==> k1 == k2 && s1 == s2
  {
    var r1, r2 := Rendered(KeyOf(k1, s1)), Rendered(KeyOf(k2, s2));
    assert r1[4] == (if k1.Analytics? then 'a' else 't') && r2[4] == (if k2.Analytics? then 'a' else 't');
    if r1 == r2 && k1 == k2 {
      assert r1[14..] == s1 && r2[14..] == s2;
    }
  }

  lemma ReadThroughTyped(kind: Kind, db: Db, entries: map<string, Entry<Cached>>, ttl: int, symbol: string, env: Env)
    requires Typed(entries)
    ensures Typed(ReadThrough(kind, db, entries, ttl, symbol, env).0)
  {
    hide Continue, Recompute;
    var after := ReadThrough(kind, db, entries, ttl, symbol, env).0;
    forall k, s | Rendered(KeyOf(k, s)) in after
      ensures OfKind(k, after[Rendered(KeyOf(k, s))].value)
    {
      if Normalize(symbol).Some? {
        KeysApart(k, s, kind, Normalize(symbol).value);
        AnswerOfKind(kind, Normalize(symbol).value, ViewOf(db, Normalize(symbol).value), env.broken, []);
      }
    }
  }

  lemma {:induction false} AnswerOfKind(kind: Kind, sym: string, view: Option<View>, broken: set<nat>,
                                        got: seq<Fetched>)
    requires Underway(kind, got)
    ensures Continue(kind, sym, view, broken, got).Ok? ==> OfKind(kind, Continue(kind, sym, view, broken, got).value)
    decreases Reads(kind) - |got|
  {
    if |got| < Reads(kind) {
      var f := if |got| in broken then Broken else Read(kind, |got|, view);
      if Refusal(|got|, f).None? {
        assert view.Some? ==> |History(view.value)| == |view.value.prices|;
        AnswerOfKind(kind, sym, view, broken, got + [f]);
      }
    }
  }
}
