/**
 The PostgreSQL tables behind the repository. Each table is a map from its UNIQUE key to the
 remaining persisted columns, and every statement is one atomic operation on those maps.
 */
module Store {
  import opened Prelude
  import opened Models
  import opened Ordering

  datatype CompanyRow = CompanyRow(id: int, company: Company)
  datatype PriceKey = PriceKey(companyId: int, date: Date)
  datatype StatementKey = StatementKey(companyId: int, period: string, fiscalDate: Date)
  datatype PriceRow = PriceRow(open: real, high: real, low: real, close: real, volume: int)
  /** gross_profit and operating_income exist in the schema but are never written. */
  datatype IncomeRow = IncomeRow(revenue: real, netIncome: real, dilutedEps: real)
  datatype BalanceRow = BalanceRow(totalAssets: real, totalLiabilities: real, totalEquity: real, totalDebt: real,
                                   currentAssets: real, currentLiabilities: real, sharesOutstanding: real)
  datatype CashFlowRow = CashFlowRow(operating: real, investing: real, financing: real, netChange: real)
  /** ingestion_runs has no cash flow column. */
  datatype AuditRow = AuditRow(symbol: string, status: string, companies: int, prices: int, income: int, balance: int)

  datatype Db = Db(companies: map<string, CompanyRow>, nextId: int,
                   prices: map<PriceKey, PriceRow>, income: map<StatementKey, IncomeRow>,
                   balance: map<StatementKey, BalanceRow>, cashFlow: map<StatementKey, CashFlowRow>,
                   runs: seq<AuditRow>)

  const EMPTY := Db(map[], 1, map[], map[], map[], map[], [])

  /** Two databases with the same data rows: only the id sequence and the audit trail may differ. */
  ghost predicate SameRows(a: Db, b: Db) {
    && a.companies == b.companies && a.prices == b.prices && a.income == b.income
    && a.balance == b.balance && a.cashFlow == b.cashFlow
  }

  // ---------- INSERT ... ON CONFLICT DO NOTHING ----------

  function Put<K, R>(t: map<K, R>, key: K, row: R): map<K, R> {
    if key in t then t else t[key := row]
  }

  function InsertAll<K, R>(t: map<K, R>, rows: seq<(K, R)>): map<K, R>
    decreases |rows|
  {
    if rows == [] then t else InsertAll(Put(t, rows[0].0, rows[0].1), rows[1..])
  }

  /** Stored rows stay; a new key gets the first row of the batch that carries it. */
  lemma {:induction false} InsertAllFirstWins<K, R>(t: map<K, R>, rows: seq<(K, R)>, key: K)
    ensures key in InsertAll(t, rows) <==> key in t || exists i :: 0 <= i < |rows| && rows[i].0 == key
    ensures key in t ==> key in InsertAll(t, rows) && InsertAll(t, rows)[key] == t[key]
    ensures forall i :: 0 <= i < |rows| && rows[i].0 == key && key !in t
                        && (forall j :: 0 <= j < i ==> rows[j].0 != key) ==>
              key in InsertAll(t, rows) && InsertAll(t, rows)[key] == rows[i].1
    decreases |rows|
  {
    if rows != [] {
      InsertAllFirstWins(Put(t, rows[0].0, rows[0].1), rows[1..], key);
      if i :| 0 <= i < |rows| && rows[i].0 == key && i > 0 {
        assert rows[1..][i - 1] == rows[i];
      }
      forall i | 0 <= i < |rows| && rows[i].0 == key && key !in t
                 && (forall j :: 0 <= j < i ==> rows[j].0 != key)
        ensures key in InsertAll(t, rows) && InsertAll(t, rows)[key] == rows[i].1
      {
        if i > 0 {
          assert rows[0].0 != key;
          assert rows[1..][i - 1] == rows[i];
          assert forall j :: 0 <= j < i - 1 ==> rows[1..][j] == rows[j + 1];
        }
      }
    }
  }

  lemma {:induction false} InsertAllKnown<K, R>(t: map<K, R>, rows: seq<(K, R)>)
    requires forall i :: 0 <= i < |rows| ==> rows[i].0 in t
    ensures InsertAll(t, rows) == t
    decreases |rows|
  {
    if rows != [] {
      assert forall i :: 0 <= i < |rows| - 1 ==> rows[1..][i] == rows[i + 1];
      InsertAllKnown(t, rows[1..]);
    }
  }

  /** Inserting the same batch again changes nothing. */
  lemma InsertAllIdempotent<K, R>(t: map<K, R>, rows: seq<(K, R)>)
    ensures InsertAll(InsertAll(t, rows), rows) == InsertAll(t, rows)
  {
    forall i | 0 <= i < |rows|
      ensures rows[i].0 in InsertAll(t, rows)
    {
      InsertAllFirstWins(t, rows, rows[i].0);
    }
    InsertAllKnown(InsertAll(t, rows), rows);
  }

  /** RowsAffected: the rows of a batch whose key is neither stored nor put earlier in the batch. */
  function PutCount<K, R>(t: map<K, R>, rows: seq<(K, R)>): nat
    decreases |rows|
  {
    if rows == [] then 0
    else (if rows[0].0 in t then 0 else 1) + PutCount(Put(t, rows[0].0, rows[0].1), rows[1..])
  }

  lemma SizeAfterUpdate<K, R>(t: map<K, R>, k: K, r: R)
    ensures |t[k := r]| == |t| + if k in t then 0 else 1
  {
    assert t[k := r].Keys == t.Keys + {k};
    assert |t[k := r].Keys| == |t[k := r]|;
  }

  /** Counting row by row gives the growth of the table. */
  lemma {:induction false} PutCountIsGrowth<K, R>(t: map<K, R>, rows: seq<(K, R)>)
    ensures PutCount(t, rows) == |InsertAll(t, rows)| - |t|
    decreases |rows|
  {
    if rows != [] {
      PutCountIsGrowth(Put(t, rows[0].0, rows[0].1), rows[1..]);
      SizeAfterUpdate(t, rows[0].0, rows[0].1);
    }
  }

  // ---------- The batches as keyed rows ----------

  function PriceRows(id: int, prices: seq<DailyPrice>): (r: seq<(PriceKey, PriceRow)>)
    ensures |r| == |prices|
    ensures forall i :: 0 <= i < |r| ==> r[i] == KeyedPrice(id, prices[i])
  {
    seq(|prices|, i requires 0 <= i < |prices| => KeyedPrice(id, prices[i]))
  }

  function KeyedPrice(id: int, p: DailyPrice): (PriceKey, PriceRow) {
    (PriceKey(id, p.date), PriceRow(p.open, p.high, p.low, p.close, p.volume))
  }

  function IncomeRows(id: int, stmts: seq<IncomeStatement>): (r: seq<(StatementKey, IncomeRow)>)
    ensures |r| == |stmts|
    ensures forall i :: 0 <= i < |r| ==> r[i] == KeyedIncome(id, stmts[i])
  {
    seq(|stmts|, i requires 0 <= i < |stmts| => KeyedIncome(id, stmts[i]))
  }

  function KeyedIncome(id: int, s: IncomeStatement): (StatementKey, IncomeRow) {
    (StatementKey(id, s.period, s.fiscalDate), IncomeRow(s.revenue, s.netIncome, s.dilutedEps))
  }

  function BalanceRows(id: int, sheets: seq<BalanceSheet>): (r: seq<(StatementKey, BalanceRow)>)
    ensures |r| == |sheets|
    ensures forall i :: 0 <= i < |r| ==> r[i] == KeyedBalance(id, sheets[i])
  {
    seq(|sheets|, i requires 0 <= i < |sheets| => KeyedBalance(id, sheets[i]))
  }

  function KeyedBalance(id: int, s: BalanceSheet): (StatementKey, BalanceRow) {
    (StatementKey(id, s.period, s.fiscalDate),
     BalanceRow(s.totalAssets, s.totalLiabilities, s.totalEquity, s.totalDebt,
                s.currentAssets, s.currentLiabilities, s.sharesOutstanding))
  }

  function CashFlowRows(id: int, flows: seq<CashFlow>): (r: seq<(StatementKey, CashFlowRow)>)
    ensures |r| == |flows|
    ensures forall i :: 0 <= i < |r| ==> r[i] == KeyedCashFlow(id, flows[i])
  {
    seq(|flows|, i requires 0 <= i < |flows| => KeyedCashFlow(id, flows[i]))
  }

  function KeyedCashFlow(id: int, f: CashFlow): (StatementKey, CashFlowRow) {
    (StatementKey(id, f.period, f.fiscalDate), CashFlowRow(f.operating, f.investing, f.financing, f.netChange))
  }

  // ---------- The statements of the pipeline ----------

  /** The id the upsert returns: the stored one, or the next of the sequence. */
  function CompanyId(db: Db, symbol: string): int {
    if symbol in db.companies then db.companies[symbol].id else db.nextId
  }

  /** ON CONFLICT DO UPDATE: the columns are replaced, the id stays. A conflict still consumes a sequence value. */
  function Upsert(db: Db, c: Company): Db {
    db.(companies := db.companies[c.symbol := CompanyRow(CompanyId(db, c.symbol), c)], nextId := db.nextId + 1)
  }

  // ---------- Integrity ----------

  ghost predicate HasCompany(db: Db, id: int) {
    exists s :: s in db.companies && db.companies[s].id == id
  }

  /** Primary keys are unique, the sequence is ahead of them, and every row points at a company. */
  ghost predicate Consistent(db: Db) {
    && (forall s, t :: s in db.companies && t in db.companies && db.companies[s].id == db.companies[t].id ==> s == t)
    && (forall s :: s in db.companies ==> db.companies[s].id < db.nextId)
    && (forall k :: k in db.prices ==> HasCompany(db, k.companyId))
    && (forall k :: k in db.income ==> HasCompany(db, k.companyId))
    && (forall k :: k in db.balance ==> HasCompany(db, k.companyId))
    && (forall k :: k in db.cashFlow ==> HasCompany(db, k.companyId))
  }

  // ---------- What one symbol's queries can see ----------

  datatype View = View(company: Company, prices: map<Date, PriceRow>,
                       incomes: map<Date, IncomeRow>, balances: map<Date, BalanceRow>)

  /** The rows joined to the company of that symbol; the statements are the annual ones. */
  function ViewOf(db: Db, symbol: string): Option<View> {
    if symbol !in db.companies then None
    else
      var row := db.companies[symbol];
      Some(View(row.company, PricesOf(db.prices, row.id), AnnualOf(db.income, row.id), AnnualOf(db.balance, row.id)))
  }

  function PricesOf(t: map<PriceKey, PriceRow>, id: int): map<Date, PriceRow> {
    map k | k in t && k.companyId == id :: k.date := t[k]
  }

  const ANNUAL := "annual"

  function AnnualOf<R>(t: map<StatementKey, R>, id: int): map<Date, R> {
    map k | k in t && k.companyId == id && k.period == ANNUAL :: k.fiscalDate := t[k]
  }

  function DailyPriceOf(d: Date, r: PriceRow): DailyPrice {
    DailyPrice(d, r.open, r.high, r.low, r.close, r.volume)
  }

  /** ORDER BY date ASC */
  function History(v: View): (h: seq<DailyPrice>)
    ensures |h| == |v.prices|
    ensures forall i :: 0 <= i < |h| ==> h[i].date in v.prices && h[i] == DailyPriceOf(h[i].date, v.prices[h[i].date])
  {
    var dates := Ascending(v.prices.Keys);
    seq(|dates|, i requires 0 <= i < |dates| => DailyPriceOf(dates[i], v.prices[dates[i]]))
  }

  /** ORDER BY date DESC LIMIT 1 */
  function LatestPrice(v: View): Option<DailyPrice> {
    if v.prices == map[] then None
    else
      var d := Max(v.prices.Keys);
      Some(DailyPriceOf(d, v.prices[d]))
  }

  /** ORDER BY fiscal_date DESC */
  function NewestFirst<R>(t: map<Date, R>): (s: seq<R>)
    ensures |s| == |t|
    ensures forall i :: 0 <= i < |s| ==> s[i] == t[Descending(t.Keys)[i]]
  {
    var dates := Descending(t.Keys);
    seq(|dates|, i requires 0 <= i < |dates| => t[dates[i]])
  }
}
