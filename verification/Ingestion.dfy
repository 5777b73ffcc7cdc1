/** The fetch, validate, persist, audit and invalidate pipeline. */
module Ingestion {
  import opened Prelude
  import opened Models
  import opened Symbols
  import opened Store
  import opened Persistence
  import opened CacheStore

  // ---------- Row validation ----------

  /** The elements of s that satisfy p, in their order. */
  function Keep<T(!new)>(s: seq<T>, p: T -> bool): (r: seq<T>)
    ensures forall x :: x in r <==> x in s && p(x)
  {
    if s == [] then []
    else
      var front := Keep(s[..|s| - 1], p);
      assert s == s[..|s| - 1] + [s[|s| - 1]];
      if p(s[|s| - 1]) then front + [s[|s| - 1]] else front
  }

  predicate IsValidPrice(p: DailyPrice) {
    && p.date != ZERO_DATE && p.open > 0.0 && p.high > 0.0 && p.low > 0.0 && p.close > 0.0
    && p.low <= p.open <= p.high && p.low <= p.close <= p.high && p.volume >= 0
  }

  predicate IsValidPeriod(p: string) {
    p == "annual" || p == "quarterly"
  }

  predicate IsValidIncome(s: IncomeStatement) {
    s.fiscalDate != ZERO_DATE && IsValidPeriod(s.period)
  }

  predicate IsValidBalance(s: BalanceSheet) {
    s.fiscalDate != ZERO_DATE && IsValidPeriod(s.period)
  }

  predicate IsValidCashFlow(f: CashFlow) {
    f.fiscalDate != ZERO_DATE && IsValidPeriod(f.period)
  }

  lemma KeepNext<T(!new)>(s: seq<T>, p: T -> bool, i: nat)
    requires i < |s|
    ensures Keep(s[..i + 1], p) == Keep(s[..i], p) + if p(s[i]) then [s[i]] else []
  {
    assert s[..i + 1][..i] == s[..i];
  }

  method ValidPrices(prices: seq<DailyPrice>) returns (out: seq<DailyPrice>)
    ensures out == Keep(prices, IsValidPrice)
    ensures forall p :: p in out <==> p in prices && p.date != 0 && p.volume >= 0 &&
                                      0.0 < p.low <= p.open <= p.high && p.low <= p.close <= p.high
  {
    out := [];
    for i := 0 to |prices|
      invariant out == Keep(prices[..i], IsValidPrice)
    {
      KeepNext(prices, IsValidPrice, i);
      var p := prices[i];
      if p.date == ZERO_DATE || p.open <= 0.0 || p.high <= 0.0 || p.low <= 0.0 || p.close <= 0.0 {
        continue;
      }
      if p.high < p.open || p.high < p.close || p.low > p.open || p.low > p.close {
        continue;
      }
      if p.volume < 0 {
        continue;
      }
      out := out + [p];
    }
    assert prices[..|prices|] == prices;
  }

  method ValidIncomeStatements(stmts: seq<IncomeStatement>) returns (out: seq<IncomeStatement>)
    ensures out == Keep(stmts, IsValidIncome)
    ensures forall s :: s in out <==>
              s in stmts && s.fiscalDate != 0 && (s.period == "annual" || s.period == "quarterly")
  {
    out := [];
    for i := 0 to |stmts|
      invariant out == Keep(stmts[..i], IsValidIncome)
    {
      KeepNext(stmts, IsValidIncome, i);
      if stmts[i].fiscalDate == ZERO_DATE || !IsValidPeriod(stmts[i].period) {
        continue;
      }
      out := out + [stmts[i]];
    }
    assert stmts[..|stmts|] == stmts;
  }

  method ValidBalanceSheets(sheets: seq<BalanceSheet>) returns (out: seq<BalanceSheet>)
    ensures out == Keep(sheets, IsValidBalance)
    ensures forall s :: s in out <==>
              s in sheets && s.fiscalDate != 0 && (s.period == "annual" || s.period == "quarterly")
  {
    out := [];
    for i := 0 to |sheets|
      invariant out == Keep(sheets[..i], IsValidBalance)
    {
      KeepNext(sheets, IsValidBalance, i);
      if sheets[i].fiscalDate == ZERO_DATE || !IsValidPeriod(sheets[i].period) {
        continue;
      }
      out := out + [sheets[i]];
    }
    assert sheets[..|sheets|] == sheets;
  }

  method ValidCashFlows(flows: seq<CashFlow>) returns (out: seq<CashFlow>)
    ensures out == Keep(flows, IsValidCashFlow)
    ensures forall s :: s in out <==>
              s in flows && s.fiscalDate != 0 && (s.period == "annual" || s.period == "quarterly")
  {
    out := [];
    for i := 0 to |flows|
      invariant out == Keep(flows[..i], IsValidCashFlow)
    {
      KeepNext(flows, IsValidCashFlow, i);
      if flows[i].fiscalDate == ZERO_DATE || !IsValidPeriod(flows[i].period) {
        continue;
      }
      out := out + [flows[i]];
    }
    assert flows[..|flows|] == flows;
  }

  // ---------- One attempt ----------

  datatype IngestError = InvalidSymbol | FetchFailed | UpsertFailed | NoPrices | PricesFailed
                       | IncomeFailed | BalanceFailed | CashFlowFailed | AuditFailed

  datatype Run = Run(symbol: string, status: string, companies: int, prices: int, income: int,
                     balance: int, cashFlow: int, error: Option<IngestError>)

  /** What the environment does to one call: the provider's answer (None is an error) and the failing statements. */
  datatype Attempt = Attempt(fetched: Option<Snapshot>, upsertFails: bool, pricesFail: bool, incomeFails: bool,
                             balanceFails: bool, cashFlowFails: bool, auditFails: bool)

  /** How many of the five write stages an attempt completes; a sixth value says that it succeeds. */
  function Completed(att: Attempt): nat {
    if att.fetched.None? || att.upsertFails then 0
    else
      var snap := att.fetched.value;
      if Keep(snap.prices, IsValidPrice) == [] || att.pricesFail then 1
      else if Keep(snap.income, IsValidIncome) != [] && att.incomeFails then 2
      else if Keep(snap.balance, IsValidBalance) != [] && att.balanceFails then 3
      else if Keep(snap.cashFlow, IsValidCashFlow) != [] && att.cashFlowFails then 4
      else 5
  }

  predicate Succeeds(att: Attempt) {
    ErrorOf(att).None?
  }

  /** The error of an attempt, by the first stage that did not complete. */
  function ErrorOf(att: Attempt): Option<IngestError> {
    if att.fetched.None? then Some(FetchFailed)
    else match Completed(att)
      case 0 => Some(UpsertFailed)
      case 1 => Some(if Keep(att.fetched.value.prices, IsValidPrice) == [] then NoPrices else PricesFailed)
      case 2 => Some(IncomeFailed)
      case 3 => Some(BalanceFailed)
      case 4 => Some(CashFlowFailed)
      case _ => None
  }

  function WithPrices(db: Db, id: int, snap: Snapshot): Db {
    db.(prices := InsertAll(db.prices, PriceRows(id, Keep(snap.prices, IsValidPrice))))
  }

  function WithIncome(db: Db, id: int, snap: Snapshot): Db {
    db.(income := InsertAll(db.income, IncomeRows(id, Keep(snap.income, IsValidIncome))))
  }

  function WithBalance(db: Db, id: int, snap: Snapshot): Db {
    db.(balance := InsertAll(db.balance, BalanceRows(id, Keep(snap.balance, IsValidBalance))))
  }

  function WithCashFlow(db: Db, id: int, snap: Snapshot): Db {
    db.(cashFlow := InsertAll(db.cashFlow, CashFlowRows(id, Keep(snap.cashFlow, IsValidCashFlow))))
  }

  /** The data after the first k write stages of a snapshot. */
  function Stages(db: Db, snap: Snapshot, k: nat): Db {
    if k == 0 then db else StagesAfterUpsert(Upsert(db, snap.company), CompanyId(db, snap.company.symbol), snap, k)
  }

  function StagesAfterUpsert(db: Db, id: int, snap: Snapshot, k: nat): Db {
    if k >= 2 then StatementStages(WithPrices(db, id, snap), id, snap, k) else db
  }

  function StatementStages(db: Db, id: int, snap: Snapshot, k: nat): Db {
    var db3 := if k >= 3 then WithIncome(db, id, snap) else db;
    var db4 := if k >= 4 then WithBalance(db3, id, snap) else db3;
    if k >= 5 then WithCashFlow(db4, id, snap) else db4
  }

  function Written(db: Db, att: Attempt): Db {
    if att.fetched.None? then db else Stages(db, att.fetched.value, Completed(att))
  }

  /** The counters of a call: one company once the upsert is done, and the affected rows of each statement. */
  function RunOf(db: Db, sym: string, att: Attempt): Run {
    var status, k := if Succeeds(att) then "success" else "failure", Completed(att);
    if k == 0 then Run(sym, status, 0, 0, 0, 0, 0, ErrorOf(att))
    else
      var snap := att.fetched.value;
      var id := CompanyId(db, snap.company.symbol);
      Run(sym, status, 1,
          if k >= 2 then PutCount(db.prices, PriceRows(id, Keep(snap.prices, IsValidPrice))) else 0,
          if k >= 3 then PutCount(db.income, IncomeRows(id, Keep(snap.income, IsValidIncome))) else 0,
          if k >= 4 then PutCount(db.balance, BalanceRows(id, Keep(snap.balance, IsValidBalance))) else 0,
          if k >= 5 then PutCount(db.cashFlow, CashFlowRows(id, Keep(snap.cashFlow, IsValidCashFlow))) else 0,
          ErrorOf(att))
  }

  function Audit(run: Run): AuditRow {
    AuditRow(run.symbol, run.status, run.companies, run.prices, run.income, run.balance)
  }

  datatype Report = Report(run: Option<Run>, error: Option<IngestError>)

  /** The database and the returned values of one call. */
  function IngestSpec(db: Db, symbol: string, att: Attempt): (Db, Report) {
    match Normalize(symbol)
    case None => (db, Report(None, Some(InvalidSymbol)))
    case Some(sym) =>
      var run := RunOf(db, sym, att);
      var after := Written(db, att);
      (if att.auditFails then after else after.(runs := after.runs + [Audit(run)]),
       Report(Some(run), if run.error.None? && att.auditFails then Some(AuditFailed) else run.error))
  }

  const ANALYTICS := "analytics:"
  const TECHNICAL := "technical:"

  /** The cache after the two deletions of a call that reported no error. */
  function Invalidated<V>(entries: map<string, Entry<V>>, sym: string, delAnalyticsFails: bool, delTechnicalFails: bool)
    : map<string, Entry<V>>
  {
    var e := if delAnalyticsFails then entries else Deleted(entries, {Rendered(ANALYTICS + sym)});
    if delTechnicalFails then e else Deleted(e, {Rendered(TECHNICAL + sym)})
  }

  class IngestionService<V> {
    const store: Repository
    /** null when the service is built without a cache, as cmd/ingest does. */
    const cache: RedisCache?<V>

    constructor (store: Repository, cache: RedisCache?<V>)
      ensures this.store == store && this.cache == cache
    {
      this.store := store;
      this.cache := cache;
    }

    method Fail(run: Run, error: IngestError, auditFails: bool) returns (report: Report)
      modifies store
      ensures report == Report(Some(run.(status := "failure", error := Some(error))), Some(error))
      ensures store.db == if auditFails then old(store.db)
                          else old(store.db).(runs := old(store.db).runs + [Audit(report.run.value)])
    {
      var failed := run.(status := "failure", error := Some(error));
      var _ := store.RecordRun(Audit(failed), auditFails);
      report := Report(Some(failed), Some(error));
    }

    method PersistIncome(id: int, snap: Snapshot, fails: bool) returns (n: Option<int>)
      modifies store
      ensures var rows := Keep(snap.income, IsValidIncome);
              if rows != [] && fails then n == None && store.db == old(store.db)
              else
                store.db == WithIncome(old(store.db), id, snap) &&
                n == Some(PutCount(old(store.db).income, IncomeRows(id, rows)))
    {
      var income := ValidIncomeStatements(snap.income);
      n := Some(0);
      if |income| > 0 {
        n := store.InsertIncomeStatements(id, income, fails);
      }
    }

    method PersistBalance(id: int, snap: Snapshot, fails: bool) returns (n: Option<int>)
      modifies store
      ensures var rows := Keep(snap.balance, IsValidBalance);
              if rows != [] && fails then n == None && store.db == old(store.db)
              else
                store.db == WithBalance(old(store.db), id, snap) &&
                n == Some(PutCount(old(store.db).balance, BalanceRows(id, rows)))
    {
      var balance := ValidBalanceSheets(snap.balance);
      n := Some(0);
      if |balance| > 0 {
        n := store.InsertBalanceSheets(id, balance, fails);
      }
    }

    method PersistCashFlow(id: int, snap: Snapshot, fails: bool) returns (n: Option<int>)
      modifies store
      ensures var rows := Keep(snap.cashFlow, IsValidCashFlow);
              if rows != [] && fails then n == None && store.db == old(store.db)
              else
                store.db == WithCashFlow(old(store.db), id, snap) &&
                n == Some(PutCount(old(store.db).cashFlow, CashFlowRows(id, rows)))
    {
      var cashFlow := ValidCashFlows(snap.cashFlow);
      n := Some(0);
      if |cashFlow| > 0 {
        n := store.InsertCashFlows(id, cashFlow, fails);
      }
    }

    /** The three statement stages. */
    method PersistStatements(id: int, snap: Snapshot, att: Attempt, before: Run)
      returns (run: Run, error: Option<IngestError>)
      requires att.fetched == Some(snap) && Completed(att) >= 2
      requires before.income == before.balance == before.cashFlow == 0 && before.error == None
      modifies store
      ensures store.db == StatementStages(old(store.db), id, snap, Completed(att))
      ensures error == ErrorOf(att)
      ensures var db, k := old(store.db), Completed(att);
              run == before.(
                income := if k >= 3 then PutCount(db.income, IncomeRows(id, Keep(snap.income, IsValidIncome))) else 0,
                balance := if k >= 4 then PutCount(db.balance, BalanceRows(id, Keep(snap.balance, IsValidBalance)))
                           else 0,
                cashFlow := if k >= 5 then PutCount(db.cashFlow, CashFlowRows(id, Keep(snap.cashFlow, IsValidCashFlow)))
                            else 0)
    {
      run := before;
      var n := PersistIncome(id, snap, att.incomeFails);
      if n.None? {
        return run, Some(IncomeFailed);
      }
      run := run.(income := n.value);

      n := PersistBalance(id, snap, att.balanceFails);
      if n.None? {
        return run, Some(BalanceFailed);
      }
      run := run.(balance := n.value);

      n := PersistCashFlow(id, snap, att.cashFlowFails);
      if n.None? {
        return run, Some(CashFlowFailed);
      }
      run := run.(cashFlow := n.value);
      return run, None;
    }

    /** The write stages, up to the first one that fails. */
    method Persist(sym: string, snap: Snapshot, att: Attempt) returns (run: Run, error: Option<IngestError>)
      requires att.fetched == Some(snap)
      modifies store
      ensures store.db == Stages(old(store.db), snap, Completed(att))
      ensures error == ErrorOf(att) && run.error == None
      ensures run.(status := RunOf(old(store.db), sym, att).status, error := error) == RunOf(old(store.db), sym, att)
    {
      hide CompanyId, StatementStages, InsertAll, PutCount, PriceRows, IncomeRows, BalanceRows, CashFlowRows;
      run := Run(sym, "failure", 0, 0, 0, 0, 0, None);
      var id := store.UpsertCompany(snap.company, att.upsertFails);
      if id.None? {
        return run, Some(UpsertFailed);
      }
      run := run.(companies := 1);

      var prices := ValidPrices(snap.prices);
      if prices == [] {
        return run, Some(NoPrices);
      }
      var n := store.InsertPrices(id.value, prices, att.pricesFail);
      if n.None? {
        return run, Some(PricesFailed);
      }
      run := run.(prices := n.value);
      run, error := PersistStatements(id.value, snap, att, run);
    }

    method Ingest(symbol: string, att: Attempt, delAnalyticsFails: bool, delTechnicalFails: bool)
      returns (report: Report)
      modifies store, if cache == null then {} else {cache}
      ensures (store.db, report) == IngestSpec(old(store.db), symbol, att)
      ensures cache != null ==>
                cache.entries == if report.error.Some? then old(cache.entries)
                                 else Invalidated(old(cache.entries), report.run.value.symbol, delAnalyticsFails,
                                                  delTechnicalFails)
    {
      hide Stages, Upsert;
      var normalized := Normalize(symbol);
      if normalized.None? {
        return Report(None, Some(InvalidSymbol));
      }
      var sym := normalized.value;
      if att.fetched.None? {
        report := Fail(Run(sym, "failure", 0, 0, 0, 0, 0, None), FetchFailed, att.auditFails);
        return;
      }
      var run, error := Persist(sym, att.fetched.value, att);
      if error.Some? {
        report := Fail(run, error.value, att.auditFails);
        return;
      }
      run := run.(status := "success");
      var ok := store.RecordRun(Audit(run), att.auditFails);
      if !ok {
        return Report(Some(run), Some(AuditFailed));
      }
      if cache != null {
        Invalidate(sym, delAnalyticsFails, delTechnicalFails);
      }
      report := Report(Some(run), None);
    }

    /** Deletion failures are logged and otherwise ignored. */
    method Invalidate(sym: string, delAnalyticsFails: bool, delTechnicalFails: bool)
      requires cache != null
      modifies cache
      ensures cache.entries == Invalidated(old(cache.entries), sym, delAnalyticsFails, delTechnicalFails)
    {
      var keys := new string[] [ANALYTICS + sym];
      var _ := cache.Del(keys, delAnalyticsFails);
      Singleton(keys, Rendered(ANALYTICS + sym));
      keys := new string[] [TECHNICAL + sym];
      var _ := cache.Del(keys, delTechnicalFails);
      Singleton(keys, Rendered(TECHNICAL + sym));
    }
  }

  lemma Singleton(keys: array<string>, k: string)
    requires keys.Length == 1 && keys[0] == k
    ensures (set i | 0 <= i < keys.Length :: keys[i]) == {k}
  {
  }
}
