/** What a successful ingestion stores, column by column, in terms of the fetched rows alone. */
module StoredRows {
  import opened Prelude
  import opened Models
  import opened Symbols
  import opened Store
  import opened Ingestion
  import opened IngestionLaws

  // ---------- Which fetched rows are stored ----------

  /** The three guards that drop a price, in the order in which they are tried. */
  predicate Dropped(p: DailyPrice) {
    || p.date == 0 || p.open <= 0.0 || p.high <= 0.0 || p.low <= 0.0 || p.close <= 0.0
    || p.high < p.open || p.high < p.close || p.low > p.open || p.low > p.close
    || p.volume < 0
  }

  predicate Dated(date: Date, period: string) {
    date != 0 && (period == "annual" || period == "quarterly")
  }

  /** Fetched price i is the first undropped one of its day. */
  predicate StoresPrice(prices: seq<DailyPrice>, i: nat)
    requires i < |prices|
  {
    !Dropped(prices[i]) && forall j :: 0 <= j < i && prices[j].date == prices[i].date ==> Dropped(prices[j])
  }

  /** Fetched statement i is the first dated one of its date and period. */
  predicate StoresIncome(s: seq<IncomeStatement>, i: nat)
    requires i < |s|
  {
    Dated(s[i].fiscalDate, s[i].period) &&
    forall j :: 0 <= j < i ==> s[j].fiscalDate != s[i].fiscalDate || s[j].period != s[i].period
  }

  predicate StoresBalance(s: seq<BalanceSheet>, i: nat)
    requires i < |s|
  {
    Dated(s[i].fiscalDate, s[i].period) &&
    forall j :: 0 <= j < i ==> s[j].fiscalDate != s[i].fiscalDate || s[j].period != s[i].period
  }

  predicate StoresCashFlow(s: seq<CashFlow>, i: nat)
    requires i < |s|
  {
    Dated(s[i].fiscalDate, s[i].period) &&
    forall j :: 0 <= j < i ==> s[j].fiscalDate != s[i].fiscalDate || s[j].period != s[i].period
  }

  // ---------- What they look like ----------

  predicate IsPrice(k: PriceKey, r: PriceRow, id: int, p: DailyPrice) {
    && k.companyId == id && k.date == p.date
    && r.open == p.open && r.high == p.high && r.low == p.low && r.close == p.close && r.volume == p.volume
  }

  predicate IsIncome(k: StatementKey, r: IncomeRow, id: int, s: IncomeStatement) {
    && k.companyId == id && k.period == s.period && k.fiscalDate == s.fiscalDate
    && r.revenue == s.revenue && r.netIncome == s.netIncome && r.dilutedEps == s.dilutedEps
  }

  predicate IsBalance(k: StatementKey, r: BalanceRow, id: int, s: BalanceSheet) {
    && k.companyId == id && k.period == s.period && k.fiscalDate == s.fiscalDate
    && r.totalAssets == s.totalAssets && r.totalLiabilities == s.totalLiabilities && r.totalEquity == s.totalEquity
    && r.totalDebt == s.totalDebt && r.currentAssets == s.currentAssets
    && r.currentLiabilities == s.currentLiabilities && r.sharesOutstanding == s.sharesOutstanding
  }

  predicate IsCashFlow(k: StatementKey, r: CashFlowRow, id: int, f: CashFlow) {
    && k.companyId == id && k.period == f.period && k.fiscalDate == f.fiscalDate
    && r.operating == f.operating && r.investing == f.investing && r.financing == f.financing
    && r.netChange == f.netChange
  }

  /** Stored rows stay; every key offered is stored; a new row is the one of some offer. */
  ghost predicate Grown<K(!new), R(!new)>(t: map<K, R>, t': map<K, R>, offered: K -> bool, made: (K, R) -> bool) {
    && (forall k :: k in t ==> k in t' && t'[k] == t[k])
    && (forall k :: k in t' <==> k in t || offered(k))
    && (forall k :: k in t' && k !in t ==> made(k, t'[k]))
  }

  // ---------- Batches ----------

  /** Element i of the kept elements stands somewhere in the sequence, behind exactly the kept ones before it. */
  lemma {:induction false} KeptFrom<T(!new)>(s: seq<T>, p: T -> bool, i: nat) returns (j: nat)
    requires i < |Keep(s, p)|
    ensures j < |s| && s[j] == Keep(s, p)[i] && p(s[j]) && Keep(s[..j], p) == Keep(s, p)[..i]
    decreases |s|
  {
    var front := s[..|s| - 1];
    if i < |Keep(front, p)| {
      j := KeptFrom(front, p, i);
      assert front[..j] == s[..j];
      assert Keep(front, p)[..i] == Keep(s, p)[..i];
    } else {
      j := |s| - 1;
      assert Keep(s, p)[..i] == Keep(front, p);
    }
  }

  /** A new key of an absorbed batch holds the first kept element that carries it. */
  lemma FirstKept<T(!new), K(!new), R>(s: seq<T>, p: T -> bool, keyed: T -> (K, R), rows: seq<(K, R)>,
                                       t: map<K, R>, t': map<K, R>, k: K) returns (j: nat)
    requires |rows| == |Keep(s, p)| && forall i :: 0 <= i < |rows| ==> rows[i] == keyed(Keep(s, p)[i])
    requires Absorbed(t, rows, t') && k in t' && k !in t
    ensures j < |s| && p(s[j]) && keyed(s[j]) == (k, t'[k])
    ensures forall m :: 0 <= m < j && p(s[m]) ==> keyed(s[m]).0 != k
  {
    var i :| 0 <= i < |rows| && rows[i] == (k, t'[k]) && FirstOfKey(rows, i);
    j := KeptFrom(s, p, i);
    forall m | 0 <= m < j && p(s[m])
      ensures keyed(s[m]).0 != k
    {
      assert s[..j][m] in Keep(s[..j], p);
      var n :| 0 <= n < i && Keep(s, p)[n] == s[m];
      assert rows[n] == keyed(s[m]);
    }
  }

  /** Every kept element finds its key in the table afterwards. */
  lemma KeptIsStored<T(!new), K(!new), R>(s: seq<T>, p: T -> bool, keyed: T -> (K, R), rows: seq<(K, R)>,
                                          t: map<K, R>, t': map<K, R>, j: nat)
    requires |rows| == |Keep(s, p)| && forall i :: 0 <= i < |rows| ==> rows[i] == keyed(Keep(s, p)[i])
    requires Absorbed(t, rows, t') && j < |s| && p(s[j])
    ensures keyed(s[j]).0 in t'
  {
    assert s[j] in Keep(s, p);
    var i :| 0 <= i < |rows| && Keep(s, p)[i] == s[j];
    assert rows[i].0 in t';
  }

  // ---------- Table by table ----------

  predicate PriceOffered(id: int, s: seq<DailyPrice>, k: PriceKey) {
    k.companyId == id && exists i :: 0 <= i < |s| && !Dropped(s[i]) && s[i].date == k.date
  }

  predicate PriceMade(id: int, s: seq<DailyPrice>, k: PriceKey, r: PriceRow) {
    exists i :: 0 <= i < |s| && StoresPrice(s, i) && IsPrice(k, r, id, s[i])
  }

  ghost predicate PricesStored(t: map<PriceKey, PriceRow>, t': map<PriceKey, PriceRow>, id: int, s: seq<DailyPrice>) {
    Grown(t, t', (k: PriceKey) => PriceOffered(id, s, k), (k: PriceKey, r: PriceRow) => PriceMade(id, s, k, r))
  }

  predicate IncomeOffered(id: int, s: seq<IncomeStatement>, k: StatementKey) {
    k.companyId == id && exists i :: 0 <= i < |s| && Dated(s[i].fiscalDate, s[i].period) &&
                                     s[i].fiscalDate == k.fiscalDate && s[i].period == k.period
  }

  predicate IncomeMade(id: int, s: seq<IncomeStatement>, k: StatementKey, r: IncomeRow) {
    exists i :: 0 <= i < |s| && StoresIncome(s, i) && IsIncome(k, r, id, s[i])
  }

  ghost predicate IncomeStored(t: map<StatementKey, IncomeRow>, t': map<StatementKey, IncomeRow>, id: int,
                               s: seq<IncomeStatement>) {
    Grown(t, t', (k: StatementKey) => IncomeOffered(id, s, k),
          (k: StatementKey, r: IncomeRow) => IncomeMade(id, s, k, r))
  }

  predicate BalanceOffered(id: int, s: seq<BalanceSheet>, k: StatementKey) {
    k.companyId == id && exists i :: 0 <= i < |s| && Dated(s[i].fiscalDate, s[i].period) &&
                                     s[i].fiscalDate == k.fiscalDate && s[i].period == k.period
  }

  predicate BalanceMade(id: int, s: seq<BalanceSheet>, k: StatementKey, r: BalanceRow) {
    exists i :: 0 <= i < |s| && StoresBalance(s, i) && IsBalance(k, r, id, s[i])
  }

  ghost predicate BalanceStored(t: map<StatementKey, BalanceRow>, t': map<StatementKey, BalanceRow>, id: int,
                                s: seq<BalanceSheet>) {
    Grown(t, t', (k: StatementKey) => BalanceOffered(id, s, k),
          (k: StatementKey, r: BalanceRow) => BalanceMade(id, s, k, r))
  }

  predicate CashFlowOffered(id: int, s: seq<CashFlow>, k: StatementKey) {
    k.companyId == id && exists i :: 0 <= i < |s| && Dated(s[i].fiscalDate, s[i].period) &&
                                     s[i].fiscalDate == k.fiscalDate && s[i].period == k.period
  }

  predicate CashFlowMade(id: int, s: seq<CashFlow>, k: StatementKey, r: CashFlowRow) {
    exists i :: 0 <= i < |s| && StoresCashFlow(s, i) && IsCashFlow(k, r, id, s[i])
  }

  ghost predicate CashFlowStored(t: map<StatementKey, CashFlowRow>, t': map<StatementKey, CashFlowRow>, id: int,
                                 s: seq<CashFlow>) {
    Grown(t, t', (k: StatementKey) => CashFlowOffered(id, s, k),
          (k: StatementKey, r: CashFlowRow) => CashFlowMade(id, s, k, r))
  }

  lemma PricesOnRows(t: map<PriceKey, PriceRow>, t': map<PriceKey, PriceRow>, id: int, s: seq<DailyPrice>)
    requires Absorbed(t, PriceRows(id, Keep(s, IsValidPrice)), t')
    ensures PricesStored(t, t', id, s)
  {
    hide Keep;
    var rows, keyed := PriceRows(id, Keep(s, IsValidPrice)), (p: DailyPrice) => KeyedPrice(id, p);
    forall k | k in t' && k !in t
      ensures PriceMade(id, s, k, t'[k])
    {
      var i := FirstKept(s, IsValidPrice, keyed, rows, t, t', k);
      assert StoresPrice(s, i) && IsPrice(k, t'[k], id, s[i]);
    }
    forall i | 0 <= i < |s| && !Dropped(s[i])
      ensures PriceKey(id, s[i].date) in t'
    {
      KeptIsStored(s, IsValidPrice, keyed, rows, t, t', i);
    }
  }

  lemma IncomeOnRows(t: map<StatementKey, IncomeRow>, t': map<StatementKey, IncomeRow>, id: int,
                     s: seq<IncomeStatement>)
    requires Absorbed(t, IncomeRows(id, Keep(s, IsValidIncome)), t')
    ensures IncomeStored(t, t', id, s)
  {
    hide Keep;
    var rows, keyed := IncomeRows(id, Keep(s, IsValidIncome)), (x: IncomeStatement) => KeyedIncome(id, x);
    forall k | k in t' && k !in t
      ensures IncomeMade(id, s, k, t'[k])
    {
      var i := FirstKept(s, IsValidIncome, keyed, rows, t, t', k);
      assert StoresIncome(s, i) && IsIncome(k, t'[k], id, s[i]);
    }
    forall i | 0 <= i < |s| && Dated(s[i].fiscalDate, s[i].period)
      ensures StatementKey(id, s[i].period, s[i].fiscalDate) in t'
    {
      KeptIsStored(s, IsValidIncome, keyed, rows, t, t', i);
    }
  }

  lemma BalanceOnRows(t: map<StatementKey, BalanceRow>, t': map<StatementKey, BalanceRow>, id: int,
                      s: seq<BalanceSheet>)
    requires Absorbed(t, BalanceRows(id, Keep(s, IsValidBalance)), t')
    ensures BalanceStored(t, t', id, s)
  {
    hide Keep;
    var rows, keyed := BalanceRows(id, Keep(s, IsValidBalance)), (x: BalanceSheet) => KeyedBalance(id, x);
    forall k | k in t' && k !in t
      ensures BalanceMade(id, s, k, t'[k])
    {
      var i := FirstKept(s, IsValidBalance, keyed, rows, t, t', k);
      assert StoresBalance(s, i) && IsBalance(k, t'[k], id, s[i]);
    }
    forall i | 0 <= i < |s| && Dated(s[i].fiscalDate, s[i].period)
      ensures StatementKey(id, s[i].period, s[i].fiscalDate) in t'
    {
      KeptIsStored(s, IsValidBalance, keyed, rows, t, t', i);
    }
  }

  lemma CashFlowOnRows(t: map<StatementKey, CashFlowRow>, t': map<StatementKey, CashFlowRow>, id: int, s: seq<CashFlow>)
    requires Absorbed(t, CashFlowRows(id, Keep(s, IsValidCashFlow)), t')
    ensures CashFlowStored(t, t', id, s)
  {
    hide Keep;
    var rows, keyed := CashFlowRows(id, Keep(s, IsValidCashFlow)), (x: CashFlow) => KeyedCashFlow(id, x);
    forall k | k in t' && k !in t
      ensures CashFlowMade(id, s, k, t'[k])
    {
      var i := FirstKept(s, IsValidCashFlow, keyed, rows, t, t', k);
      assert StoresCashFlow(s, i) && IsCashFlow(k, t'[k], id, s[i]);
    }
    forall i | 0 <= i < |s| && Dated(s[i].fiscalDate, s[i].period)
      ensures StatementKey(id, s[i].period, s[i].fiscalDate) in t'
    {
      KeptIsStored(s, IsValidCashFlow, keyed, rows, t, t', i);
    }
  }

  // ---------- Main results ----------

  lemma NoneKept<T(!new)>(s: seq<T>, p: T -> bool)
    ensures Keep(s, p) == [] <==> forall i :: 0 <= i < |s| ==> !p(s[i])
  {
    if i :| 0 <= i < |s| && p(s[i]) {
      assert s[i] in Keep(s, p);
    }
    if Keep(s, p) != [] {
      assert Keep(s, p)[0] in Keep(s, p);
    }
  }

  predicate SomePriceKept(s: seq<DailyPrice>) {
    exists i :: 0 <= i < |s| && !Dropped(s[i])
  }

  predicate SomeIncomeKept(s: seq<IncomeStatement>) {
    exists i :: 0 <= i < |s| && Dated(s[i].fiscalDate, s[i].period)
  }

  predicate SomeBalanceKept(s: seq<BalanceSheet>) {
    exists i :: 0 <= i < |s| && Dated(s[i].fiscalDate, s[i].period)
  }

  predicate SomeCashFlowKept(s: seq<CashFlow>) {
    exists i :: 0 <= i < |s| && Dated(s[i].fiscalDate, s[i].period)
  }

  /**
   How many of the steps upsert, prices, income, balance sheets and cash flows an attempt completes. A
   statement batch without a well-formed row is not sent, so it cannot fail.
   */
  function Steps(att: Attempt): nat {
    match att.fetched
    case None => 0
    case Some(snap) =>
      if att.upsertFails then 0
      else if att.pricesFail || !SomePriceKept(snap.prices) then 1
      else if att.incomeFails && SomeIncomeKept(snap.income) then 2
      else if att.balanceFails && SomeBalanceKept(snap.balance) then 3
      else if att.cashFlowFails && SomeCashFlowKept(snap.cashFlow) then 4
      else 5
  }

  lemma StepsAreCompleted(att: Attempt)
    ensures Steps(att) == Completed(att)
  {
    hide Keep;
    if att.fetched.Some? {
      var snap := att.fetched.value;
      NoneKept(snap.prices, IsValidPrice);
      NoneKept(snap.income, IsValidIncome);
      NoneKept(snap.balance, IsValidBalance);
      NoneKept(snap.cashFlow, IsValidCashFlow);
    }
  }

  /** The error a call reports: that of the first step it does not complete, or of the audit behind them. */
  lemma ErrorOfCall(db: Db, symbol: string, att: Attempt)
    ensures IngestSpec(db, symbol, att).1.error ==
            if Normalize(symbol).None? then Some(InvalidSymbol)
            else if att.fetched.None? then Some(FetchFailed)
            else match Steps(att)
              case 0 => Some(UpsertFailed)
              case 1 => Some(if SomePriceKept(att.fetched.value.prices) then PricesFailed else NoPrices)
              case 2 => Some(IncomeFailed)
              case 3 => Some(BalanceFailed)
              case 4 => Some(CashFlowFailed)
              case _ => if att.auditFails then Some(AuditFailed) else None
  {
    hide Normalize, Stages, PutCount, Keep;
    StepsAreCompleted(att);
    if att.fetched.Some? {
      NoneKept(att.fetched.value.prices, IsValidPrice);
    }
  }

  /**
   What any call with a valid symbol and a fetched snapshot leaves. The company row is the fetched one
   under its old id or the next one, if the upsert was completed. Each table whose step was completed
   holds the rows it had plus, for every key that a well-formed fetched row carries, the first such row,
   column by column; the other tables are unchanged.
   */
  lemma StoredOnRows(db: Db, symbol: string, att: Attempt)
    requires Normalize(symbol).Some? && att.fetched.Some?
    ensures var snap, after, n := att.fetched.value, IngestSpec(db, symbol, att).0, Steps(att);
            var sym := snap.company.symbol;
            var id := if sym in db.companies then db.companies[sym].id else db.nextId;
            && after.companies == (if n >= 1 then db.companies[sym := CompanyRow(id, snap.company)] else db.companies)
            && (if n >= 2 then PricesStored(db.prices, after.prices, id, snap.prices) else after.prices == db.prices)
            && (if n >= 3 then IncomeStored(db.income, after.income, id, snap.income) else after.income == db.income)
            && (if n >= 4 then BalanceStored(db.balance, after.balance, id, snap.balance)
                else after.balance == db.balance)
            && (if n >= 5 then CashFlowStored(db.cashFlow, after.cashFlow, id, snap.cashFlow)
                else after.cashFlow == db.cashFlow)
  {
    hide Absorbed, Keep, InsertAll, PricesStored, IncomeStored, BalanceStored, CashFlowStored, IngestSpec, Completed,
         Normalize, Stages;
    var snap, id := att.fetched.value, CompanyId(db, att.fetched.value.company.symbol);
    StepsAreCompleted(att);
    FinalIsWritten(db, Call(symbol, att));
    StageTables(db, snap, Completed(att));
    BatchesOnRows(db, snap, id);
  }

  /** Each of the four batches, inserted, is stored as its table's rule says. */
  lemma BatchesOnRows(db: Db, snap: Snapshot, id: int)
    ensures var rows := PriceRows(id, Keep(snap.prices, IsValidPrice));
            PricesStored(db.prices, InsertAll(db.prices, rows), id, snap.prices)
    ensures var rows := IncomeRows(id, Keep(snap.income, IsValidIncome));
            IncomeStored(db.income, InsertAll(db.income, rows), id, snap.income)
    ensures var rows := BalanceRows(id, Keep(snap.balance, IsValidBalance));
            BalanceStored(db.balance, InsertAll(db.balance, rows), id, snap.balance)
    ensures var rows := CashFlowRows(id, Keep(snap.cashFlow, IsValidCashFlow));
            CashFlowStored(db.cashFlow, InsertAll(db.cashFlow, rows), id, snap.cashFlow)
  {
    hide Absorbed, Keep, InsertAll, PricesStored, IncomeStored, BalanceStored, CashFlowStored;
    var prices := PriceRows(id, Keep(snap.prices, IsValidPrice));
    InsertAllAbsorbs(db.prices, prices);
    PricesOnRows(db.prices, InsertAll(db.prices, prices), id, snap.prices);
    var income := IncomeRows(id, Keep(snap.income, IsValidIncome));
    InsertAllAbsorbs(db.income, income);
    IncomeOnRows(db.income, InsertAll(db.income, income), id, snap.income);
    var balance := BalanceRows(id, Keep(snap.balance, IsValidBalance));
    InsertAllAbsorbs(db.balance, balance);
    BalanceOnRows(db.balance, InsertAll(db.balance, balance), id, snap.balance);
    var cashFlow := CashFlowRows(id, Keep(snap.cashFlow, IsValidCashFlow));
    InsertAllAbsorbs(db.cashFlow, cashFlow);
    CashFlowOnRows(db.cashFlow, InsertAll(db.cashFlow, cashFlow), id, snap.cashFlow);
  }
}
