/**
 The screener: fundamental metrics computed a second time, in SQL, and a dynamic WHERE clause over
 them under three-valued logic.
 */
module Screener {
  import opened Prelude
  import opened Models
  import opened Store
  import opened Ordering
  import opened Ingestion
  import opened Query
  import QueryLaws
  import IngestionLaws
  import F = Fundamentals

  // ---------- The metrics query ----------

  /** A row of the base subquery; None is NULL. */
  datatype Row = Row(symbol: string, name: string, sector: string, roe: Option<real>, pe: Option<real>,
                     revenueGrowth: Option<real>)

  /** ORDER BY fiscal_date DESC LIMIT 1 */
  function Newest<R>(t: map<Date, R>): Option<R> {
    if t == map[] then None
    else
      assert t.Keys != {};
      Some(t[Max(t.Keys)])
  }

  /** The newest row strictly older than the newest one. */
  function Previous<R>(t: map<Date, R>): Option<R> {
    if t == map[] then None
    else
      assert t.Keys != {};
      var older := Below(t.Keys);
      if older == {} then None else Some(t[Max(older)])
  }

  /** fiscal_date < (SELECT MAX(fiscal_date) ...) */
  function Below(dates: set<Date>): set<Date>
    requires dates != {}
  {
    set d | d in dates && d < Max(dates)
  }

  lemma BelowIsRest(dates: set<Date>)
    requires dates != {}
    ensures Below(dates) == dates - {Max(dates)}
  {
  }

  /** CASE WHEN den > 0 THEN num / den END, for a possibly missing den. */
  function CaseRatio(num: real, den: Option<real>): Option<real> {
    if den.Some? && den.value > 0.0 then Some(num / den.value) else None
  }

  /** The row of one company; companies without an annual income statement have none (the inner join). */
  function BaseRow(db: Db, symbol: string): Option<Row>
    requires symbol in db.companies
  {
    var c := db.companies[symbol];
    var income := AnnualOf(db.income, c.id);
    match Newest(income)
    case None => None
    case Some(i) =>
      var equity := match Newest(AnnualOf(db.balance, c.id)) case None => None case Some(b) => Some(b.totalEquity);
      var close := match Newest(PricesOf(db.prices, c.id)) case None => None case Some(p) => Some(p.close);
      var prev := match Previous(income) case None => None case Some(p) => Some(p.revenue);
      Some(Row(symbol, c.company.name, c.company.sector, CaseRatio(i.netIncome, equity),
               SqlPe(close, i.dilutedEps), SqlGrowth(i.revenue, prev)))
  }

  function SqlPe(close: Option<real>, eps: real): Option<real> {
    if close.Some? then CaseRatio(close.value, Some(eps)) else None
  }

  function SqlGrowth(revenue: real, prev: Option<real>): Option<real> {
    if prev.Some? then CaseRatio(revenue - prev.value, prev) else None
  }

  /** All base rows, ORDER BY symbol. */
  function BaseRows(db: Db, symbols: seq<string>): seq<Row>
    requires forall s :: s in symbols ==> s in db.companies
  {
    if symbols == [] then []
    else
      var front, last := symbols[..|symbols| - 1], symbols[|symbols| - 1];
      BaseRows(db, front) + match BaseRow(db, last) case None => [] case Some(r) => [r]
  }

  function AllRows(db: Db): seq<Row> {
    BaseRows(db, Sorted(db.companies.Keys))
  }

  // ---------- The WHERE clause ----------

  datatype Filter = Filter(sector: Option<string>, minRoe: Option<real>, maxPe: Option<real>, minGrowth: Option<real>)

  datatype Column = Sector | Roe | Pe | RevenueGrowth
  datatype Op = Eq | Geq | Leq
  /** column op $placeholder */
  datatype Cond = Cond(column: Column, op: Op, placeholder: int)
  datatype Arg = Text(s: string) | Number(x: real)

  datatype Tri = True | False | Unknown

  function Truth(b: bool): Tri { if b then True else False }

  /** A comparison with NULL, or with an argument that does not exist, is not true. */
  function Eval(c: Cond, args: seq<Arg>, r: Row): Tri {
    if !(1 <= c.placeholder <= |args|) then Unknown
    else
      var arg := args[c.placeholder - 1];
      if c.column.Sector? then
        if arg.Text? && c.op.Eq? then Truth(r.sector == arg.s) else Unknown
      else
        var v := match c.column case Roe => r.roe case Pe => r.pe case _ => r.revenueGrowth;
        if v.None? || !arg.Number? then Unknown
        else match c.op
          case Geq => Truth(v.value >= arg.x)
          case Leq => Truth(v.value <= arg.x)
          case Eq => Truth(v.value == arg.x)
  }

  function And(a: Tri, b: Tri): Tri {
    if a.False? || b.False? then False else if a.True? && b.True? then True else Unknown
  }

  /** The conjunction of the conditions; WHERE keeps a row when it is True. */
  function Where(conds: seq<Cond>, args: seq<Arg>, r: Row): Tri {
    if conds == [] then True else And(Where(conds[..|conds| - 1], args, r), Eval(conds[|conds| - 1], args, r))
  }

  /** Every criterion that is set is defined for the row and met. The empty sector means no criterion. */
  predicate Meets(f: Filter, r: Row) {
    && (f.sector.Some? && f.sector.value != "" ==> r.sector == f.sector.value)
    && (f.minRoe.Some? ==> r.roe.Some? && r.roe.value >= f.minRoe.value)
    && (f.maxPe.Some? ==> r.pe.Some? && r.pe.value <= f.maxPe.value)
    && (f.minGrowth.Some? ==> r.revenueGrowth.Some? && r.revenueGrowth.value >= f.minGrowth.value)
  }

  /** What one comparison against v says of a row, placeholders aside. */
  predicate Satisfies(column: Column, op: Op, v: Arg, r: Row) {
    Eval(Cond(column, op, 1), [v], r) == True
  }

  /** The k-th condition names the k-th argument. */
  predicate Numbered(conds: seq<Cond>, args: seq<Arg>) {
    |conds| == |args| && forall k :: 0 <= k < |conds| ==> conds[k].placeholder == k + 1
  }

  /** The clause keeps exactly the rows that meet the filter. */
  ghost predicate Means(conds: seq<Cond>, args: seq<Arg>, f: Filter) {
    forall r :: Where(conds, args, r) == True <==> Meets(f, r)
  }

  lemma AddMeans(conds: seq<Cond>, args: seq<Arg>, column: Column, op: Op, v: Arg, r: Row)
    requires Numbered(conds, args)
    ensures Where(conds + [Cond(column, op, |args| + 1)], args + [v], r) == True <==>
            Where(conds, args, r) == True && Satisfies(column, op, v, r)
  {
    var c := Cond(column, op, |args| + 1);
    assert (conds + [c])[..|conds|] == conds;
    assert (args + [v])[|args|] == v;
    MoreArgs(conds, args, v, r);
  }

  lemma {:induction false} MoreArgs(conds: seq<Cond>, args: seq<Arg>, v: Arg, r: Row)
    requires forall k :: 0 <= k < |conds| ==> 1 <= conds[k].placeholder <= |args|
    ensures Where(conds, args + [v], r) == Where(conds, args, r)
    decreases |conds|
  {
    if conds != [] {
      MoreArgs(conds[..|conds| - 1], args, v, r);
      assert (args + [v])[conds[|conds| - 1].placeholder - 1] == args[conds[|conds| - 1].placeholder - 1];
    }
  }

  /** The add closure: the argument first, then the condition naming its position. */
  method Add(conds: seq<Cond>, args: seq<Arg>, column: Column, op: Op, v: Arg, ghost before: Filter,
             ghost after: Filter)
    returns (conds': seq<Cond>, args': seq<Arg>)
    requires Numbered(conds, args) && Means(conds, args, before)
    requires forall r :: Meets(after, r) <==> Meets(before, r) && Satisfies(column, op, v, r)
    ensures Numbered(conds', args') && Means(conds', args', after)
  {
    hide Meets, Satisfies, Where;
    args' := args + [v];
    conds' := conds + [Cond(column, op, |args'|)];
    forall r
      ensures Where(conds', args', r) == True <==> Meets(after, r)
    {
      AddMeans(conds, args, column, op, v, r);
    }
  }

  /** For every filter the k-th condition names the k-th argument, and the clause means the filter. */
  method BuildWhere(f: Filter) returns (conds: seq<Cond>, args: seq<Arg>)
    ensures Numbered(conds, args) && Means(conds, args, f)
  {
    hide Where, Means;
    conds, args := [], [];
    ghost var done := Filter(None, None, None, None);
    assert Means(conds, args, done) by { NothingMeans(); }
    if f.sector.Some? && f.sector.value != "" {
      conds, args := Add(conds, args, Sector, Eq, Text(f.sector.value), done, done.(sector := f.sector));
      done := done.(sector := f.sector);
    }
    if f.minRoe.Some? {
      conds, args := Add(conds, args, Roe, Geq, Number(f.minRoe.value), done, done.(minRoe := f.minRoe));
      done := done.(minRoe := f.minRoe);
    }
    if f.maxPe.Some? {
      conds, args := Add(conds, args, Pe, Leq, Number(f.maxPe.value), done, done.(maxPe := f.maxPe));
      done := done.(maxPe := f.maxPe);
    }
    if f.minGrowth.Some? {
      conds, args := Add(conds, args, RevenueGrowth, Geq, Number(f.minGrowth.value), done,
                         done.(minGrowth := f.minGrowth));
      done := done.(minGrowth := f.minGrowth);
    }
    SameMeaning(conds, args, done, f);
  }

  lemma NothingMeans()
    ensures Means([], [], Filter(None, None, None, None))
  {
  }

  /** An empty sector is no criterion. */
  lemma SameMeaning(conds: seq<Cond>, args: seq<Arg>, a: Filter, b: Filter)
    requires Means(conds, args, a)
    requires a == b || (b.sector == Some("") && a == b.(sector := None))
    ensures Means(conds, args, b)
  {
    hide Where;
  }

  /** The screener's result: the base rows that meet the filter, in symbol order. */
  function Screened(db: Db, f: Filter): seq<Row> {
    Keep(AllRows(db), (r: Row) => Meets(f, r))
  }

  /** What goes wrong: the query, or scanning or fetching the row with this number. */
  datatype Fault = Nothing | QueryFault | ScanFault(at: nat) | RowsFault(at: nat)

  datatype ScreenError = QueryFailed | ScanFailed | RowsFailed

  /**
   What the repository returns. A failing query or scan comes without rows, a failing iteration with the
   rows read before it; a fault beyond the last row does not happen.
   */
  function Outcome(rows: seq<Row>, fault: Fault): (seq<Row>, Option<ScreenError>) {
    match fault
    case Nothing => (rows, None)
    case QueryFault => ([], Some(QueryFailed))
    case ScanFault(at) => if at < |rows| then ([], Some(ScanFailed)) else (rows, None)
    case RowsFault(at) => if at <= |rows| then (rows[..at], Some(RowsFailed)) else (rows, None)
  }

  /** The server's part: the base rows for which the generated clause is true. */
  method Execute(db: Db, f: Filter) returns (out: seq<Row>)
    ensures out == Screened(db, f)
  {
    hide Meets, Where;
    var conds, args := BuildWhere(f);
    var rows := AllRows(db);
    var p := (r: Row) => Meets(f, r);
    out := [];
    for i := 0 to |rows|
      invariant out == Keep(rows[..i], p)
    {
      KeepNext(rows, p, i);
      if Where(conds, args, rows[i]) == True {
        out := out + [rows[i]];
      }
    }
    assert rows[..|rows|] == rows;
  }

  method RunScreener(db: Db, f: Filter, fault: Fault) returns (out: seq<Row>, error: Option<ScreenError>)
    ensures (out, error) == Outcome(Screened(db, f), fault)
  {
    hide Screened;
    if fault.QueryFault? {
      return [], Some(QueryFailed);
    }
    var rows := Execute(db, f);
    out := [];
    for i := 0 to |rows|
      invariant out == rows[..i]
      invariant fault.ScanFault? || fault.RowsFault? ==> i <= fault.at
    {
      if fault == RowsFault(i) {
        return out, Some(RowsFailed);
      }
      if fault == ScanFault(i) {
        return [], Some(ScanFailed);
      }
      out := out + [rows[i]];
    }
    assert rows[..|rows|] == rows;
    return out, if fault == RowsFault(|rows|) then Some(RowsFailed) else None;
  }

  /** The service drops the rows of a failed call, so what it returns is complete or an error. */
  method ServeScreener(db: Db, f: Filter, fault: Fault) returns (r: Result<seq<Row>, ScreenError>)
    ensures r.Ok? ==> r.value == Screened(db, f)
    ensures r.Err? <==> fault.QueryFault? || (fault.ScanFault? && fault.at < |Screened(db, f)|) ||
                        (fault.RowsFault? && fault.at <= |Screened(db, f)|)
  {
    hide Screened;
    var rows, error := RunScreener(db, f, fault);
    r := if error.Some? then Err(error.value) else Ok(rows);
  }

  // ---------- What the result contains ----------

  lemma {:induction false} BaseRowsOf(db: Db, symbols: seq<string>)
    requires forall s :: s in symbols ==> s in db.companies
    requires forall i, j :: 0 <= i < j < |symbols| ==> TextLeq(symbols[i], symbols[j]) && symbols[i] != symbols[j]
    ensures forall r :: r in BaseRows(db, symbols) <==> r.symbol in symbols && BaseRow(db, r.symbol) == Some(r)
    ensures forall i, j :: 0 <= i < j < |BaseRows(db, symbols)| ==>
              TextLeq(BaseRows(db, symbols)[i].symbol, BaseRows(db, symbols)[j].symbol) &&
              BaseRows(db, symbols)[i].symbol != BaseRows(db, symbols)[j].symbol
    decreases |symbols|
  {
    hide BaseRow, TextLeq;
    if symbols != [] {
      var front, last := symbols[..|symbols| - 1], symbols[|symbols| - 1];
      assert symbols == front + [last];
      BaseRowsOf(db, front);
      BaseRowSymbol(db, last);
      forall i | 0 <= i < |BaseRows(db, front)|
        ensures TextLeq(BaseRows(db, front)[i].symbol, last) && BaseRows(db, front)[i].symbol != last
      {
        assert BaseRows(db, front)[i] in BaseRows(db, front);
        var k :| 0 <= k < |front| && front[k] == BaseRows(db, front)[i].symbol;
        assert symbols[k] == front[k];
      }
    }
  }

  lemma BaseRowSymbol(db: Db, symbol: string)
    requires symbol in db.companies
    ensures BaseRow(db, symbol).Some? ==> BaseRow(db, symbol).value.symbol == symbol
  {
  }

  lemma {:induction false} KeepOrdered(s: seq<Row>, p: Row -> bool)
    requires forall i, j :: 0 <= i < j < |s| ==> TextLeq(s[i].symbol, s[j].symbol) && s[i].symbol != s[j].symbol
    ensures forall i, j :: 0 <= i < j < |Keep(s, p)| ==>
              TextLeq(Keep(s, p)[i].symbol, Keep(s, p)[j].symbol) && Keep(s, p)[i].symbol != Keep(s, p)[j].symbol
    decreases |s|
  {
    hide TextLeq;
    if s != [] {
      var front, last := s[..|s| - 1], s[|s| - 1];
      KeepOrdered(front, p);
      forall i | 0 <= i < |Keep(front, p)|
        ensures TextLeq(Keep(front, p)[i].symbol, last.symbol) && Keep(front, p)[i].symbol != last.symbol
      {
        assert Keep(front, p)[i] in front;
        var k :| 0 <= k < |front| && front[k] == Keep(front, p)[i];
        assert s[k] == front[k];
      }
    }
  }

  /**
   The result holds exactly the companies with an annual income statement whose every set criterion
   is defined and met, each once, in symbol order.
   */
  lemma ScreenedExactly(db: Db, f: Filter)
    ensures forall r :: r in Screened(db, f) <==>
              r.symbol in db.companies && BaseRow(db, r.symbol) == Some(r) && Meets(f, r)
    ensures forall i, j :: 0 <= i < j < |Screened(db, f)| ==>
              TextLeq(Screened(db, f)[i].symbol, Screened(db, f)[j].symbol) &&
              Screened(db, f)[i].symbol != Screened(db, f)[j].symbol
  {
    hide BaseRow, TextLeq, Meets;
    BaseRowsOf(db, Sorted(db.companies.Keys));
    KeepOrdered(AllRows(db), (r: Row) => Meets(f, r));
  }

  /** a arises from b by leaving elements out. */
  predicate Subsequence<T(==)>(a: seq<T>, b: seq<T>)
    decreases |b|
  {
    a == [] ||
    (b != [] && ((a[|a| - 1] == b[|b| - 1] && Subsequence(a[..|a| - 1], b[..|b| - 1])) || Subsequence(a, b[..|b| - 1])))
  }

  /** g keeps every criterion of f and may set more. */
  predicate Refines(g: Filter, f: Filter) {
    && (f.sector.Some? && f.sector.value != "" ==> g.sector == f.sector)
    && (f.minRoe.Some? ==> g.minRoe == f.minRoe)
    && (f.maxPe.Some? ==> g.maxPe == f.maxPe)
    && (f.minGrowth.Some? ==> g.minGrowth == f.minGrowth)
  }

  lemma {:induction false} KeepFewer<T(!new)>(s: seq<T>, p: T -> bool, q: T -> bool)
    requires forall x :: q(x) ==> p(x)
    ensures Subsequence(Keep(s, q), Keep(s, p))
    decreases |s|
  {
    if s != [] {
      var front, last := s[..|s| - 1], s[|s| - 1];
      KeepFewer(front, p, q);
      var a, b := Keep(front, q), Keep(front, p);
      if q(last) {
        assert (a + [last])[..|a|] == a && (b + [last])[..|b|] == b;
      } else if p(last) {
        assert (b + [last])[..|b|] == b;
      }
    }
  }

  /** Adding a criterion only leaves rows out. */
  lemma MoreCriteriaFewerRows(db: Db, f: Filter, g: Filter)
    requires Refines(g, f)
    ensures Subsequence(Screened(db, g), Screened(db, f))
  {
    KeepFewer(AllRows(db), (r: Row) => Meets(f, r), (r: Row) => Meets(g, r));
  }

  // ---------- Agreement with the Go metrics ----------

  /** The first two rows of the descending list are the SQL newest and previous rows. */
  lemma NewestFirstAgrees<R>(t: map<Date, R>)
    requires t != map[]
    ensures Newest(t) == Some(NewestFirst(t)[0])
    ensures Previous(t) == if |t| > 1 then Some(NewestFirst(t)[1]) else None
  {
    hide Max, Descending, Below;
    assert t.Keys != {};
    DescendingStarts(t.Keys);
    BelowIsRest(t.Keys);
    if Below(t.Keys) == {} {
      assert t.Keys == {Max(t.Keys)};
    } else {
      DescendingStarts(Below(t.Keys));
      assert Descending(t.Keys)[1] == Max(Below(t.Keys));
    }
  }

  lemma LatestPriceAgrees(v: View)
    requires v.prices != map[]
    ensures Newest(v.prices).Some? && LatestPrice(v).Some? && LatestPrice(v).value.close == Newest(v.prices).value.close
  {
  }

  /** The SQL CASE expressions and the guarded Go ratios, figure by figure. */
  lemma RatiosAgree(num: real, den: real, price: real, eps: real)
    requires price > 0.0
    ensures CaseRatio(num, Some(den)) == F.Nullable(F.ROE(num, den))
    ensures SqlGrowth(num, Some(den)) == F.Nullable(F.Growth(den, num))
    ensures SqlPe(Some(price), eps) == if eps > 0.0 then F.Nullable(F.PERatio(price, eps)) else None
    ensures SqlPe(Some(price), eps) == F.Nullable(F.PERatio(price, eps)) <==> eps >= 0.0
  {
  }

  /**
   Wherever GetAnalytics succeeds on ingested data the screener has a row for the company, with the
   same ROE and revenue growth, null matching null. Its P/E is the same exactly when the diluted EPS
   is not negative: on a loss GetAnalytics reports a negative P/E and the screener none.
   */
  lemma ScreenerAgrees(db: Db, symbol: string, go: AnalyticsResult)
    requires IngestionLaws.Sound(db) && Recompute(Analytics, symbol, ViewOf(db, symbol)) == Ok(AnalyticsValue(go))
    ensures symbol in db.companies && BaseRow(db, symbol).Some?
    ensures BaseRow(db, symbol).value.roe == go.metrics.roe
    ensures BaseRow(db, symbol).value.revenueGrowth == go.metrics.revenueGrowth
    ensures var latest := Newest(AnnualOf(db.income, db.companies[symbol].id));
            && latest.Some?
            && BaseRow(db, symbol).value.pe == (if latest.value.dilutedEps > 0.0 then go.metrics.pe else None)
            && (BaseRow(db, symbol).value.pe == go.metrics.pe <==> latest.value.dilutedEps >= 0.0)
  {
    hide Recompute, CaseRatio, F.ROE, F.Growth, F.PERatio, F.Nullable, Newest, Previous, NewestFirst, LatestPrice,
         AnnualOf, PricesOf, ViewOf, ComputeMetrics, BaseRow, IngestionLaws.Sound, QueryLaws.SoundHistory;
    QueryLaws.AnalyticsAnswer(symbol, ViewOf(db, symbol));
    ViewJoins(db, symbol);
    var v := ViewOf(db, symbol).value;
    NewestFirstAgrees(v.incomes);
    NewestFirstAgrees(v.balances);
    LatestPriceAgrees(v);
    QueryLaws.IngestedHistoriesAreSound(db, symbol);
    LatestIsPositive(v);
    FiguresAgree(db, symbol, v, LatestPrice(v).value.close);
  }

  lemma ViewJoins(db: Db, symbol: string)
    ensures ViewOf(db, symbol).Some? ==>
              var v := ViewOf(db, symbol).value;
              symbol in db.companies && v.incomes == AnnualOf(db.income, db.companies[symbol].id) &&
              v.balances == AnnualOf(db.balance, db.companies[symbol].id) &&
              v.prices == PricesOf(db.prices, db.companies[symbol].id)
  {
    hide AnnualOf, PricesOf;
  }

  lemma FiguresAgree(db: Db, symbol: string, v: View, price: real)
    requires symbol in db.companies && v.incomes == AnnualOf(db.income, db.companies[symbol].id)
    requires v.balances == AnnualOf(db.balance, db.companies[symbol].id)
    requires v.prices == PricesOf(db.prices, db.companies[symbol].id)
    requires v.incomes != map[] && v.balances != map[] && price > 0.0
    requires Newest(v.prices).Some? && Newest(v.prices).value.close == price
    requires Newest(v.incomes) == Some(NewestFirst(v.incomes)[0])
    requires Newest(v.balances) == Some(NewestFirst(v.balances)[0])
    requires Previous(v.incomes) == if |v.incomes| > 1 then Some(NewestFirst(v.incomes)[1]) else None
    ensures var m := ComputeMetrics(NewestFirst(v.incomes), NewestFirst(v.balances)[0], price);
            var eps := NewestFirst(v.incomes)[0].dilutedEps;
            && BaseRow(db, symbol).Some?
            && BaseRow(db, symbol).value.roe == m.roe
            && BaseRow(db, symbol).value.revenueGrowth == m.revenueGrowth
            && BaseRow(db, symbol).value.pe == (if eps > 0.0 then m.pe else None)
            && (BaseRow(db, symbol).value.pe == m.pe <==> eps >= 0.0)
  {
    hide CaseRatio, SqlPe, F.ROE, F.Growth, F.PERatio, F.Nullable, Newest, Previous, NewestFirst, AnnualOf, PricesOf,
         F.PriceToBook, F.ROA, F.NetMargin, F.CurrentRatio, F.DebtToEquity;
    var cur, b := NewestFirst(v.incomes)[0], NewestFirst(v.balances)[0];
    RatiosAgree(cur.netIncome, b.totalEquity, price, cur.dilutedEps);
    if |v.incomes| > 1 {
      RatiosAgree(cur.revenue, NewestFirst(v.incomes)[1].revenue, price, cur.dilutedEps);
    }
  }

  lemma LatestIsPositive(v: View)
    requires QueryLaws.SoundHistory(v) && v.prices != map[]
    ensures LatestPrice(v).value.close > 0.0
  {
  }
}
