/** What every run of the pipeline keeps, whatever fails in it. */
module IngestionLaws {
  import opened Prelude
  import opened Models
  import opened Symbols
  import opened Store
  import opened Ingestion

  /** One call of Ingest together with what the environment does to it. */
  datatype Call = Call(symbol: string, att: Attempt)

  function After(db: Db, calls: seq<Call>): Db {
    if calls == [] then db
    else
      var before := After(db, calls[..|calls| - 1]);
      IngestSpec(before, calls[|calls| - 1].symbol, calls[|calls| - 1].att).0
  }

  // ---------- Stored rows are validated rows ----------

  predicate SoundPrice(r: PriceRow) {
    r.low > 0.0 && r.low <= r.open <= r.high && r.low <= r.close <= r.high && r.volume >= 0
  }

  ghost predicate Sound(db: Db) {
    Consistent(db) && forall k :: k in db.prices ==> k.date != ZERO_DATE && SoundPrice(db.prices[k])
  }

  lemma UpsertKeepsSound(db: Db, c: Company)
    requires Sound(db)
    ensures Sound(Upsert(db, c)) && HasCompany(Upsert(db, c), CompanyId(db, c.symbol))
  {
    var db' := Upsert(db, c);
    assert db'.companies[c.symbol].id == CompanyId(db, c.symbol);
    forall id | HasCompany(db, id)
      ensures HasCompany(db', id)
    {
      var s :| s in db.companies && db.companies[s].id == id;
      assert db'.companies[s].id == id;
    }
  }

  lemma PricesKeepSound(db: Db, id: int, snap: Snapshot)
    requires Sound(db) && HasCompany(db, id)
    ensures Sound(WithPrices(db, id, snap))
  {
    var rows := PriceRows(id, Keep(snap.prices, IsValidPrice));
    forall k | k in InsertAll(db.prices, rows)
      ensures HasCompany(db, k.companyId)
      ensures k.date != ZERO_DATE && SoundPrice(InsertAll(db.prices, rows)[k])
    {
      InsertAllFirstWins(db.prices, rows, k);
      if k !in db.prices {
        var i := FirstWith(rows, k);
        assert Keep(snap.prices, IsValidPrice)[i] in Keep(snap.prices, IsValidPrice);
      }
    }
    CompaniesDecide(db, WithPrices(db, id, snap));
  }

  /** Whether an id belongs to a company depends on the companies table alone. */
  lemma CompaniesDecide(a: Db, b: Db)
    requires a.companies == b.companies
    ensures forall id :: HasCompany(a, id) <==> HasCompany(b, id)
  {
  }

  /** The first row of a batch that carries the key. */
  lemma {:induction false} FirstWith<K, R>(rows: seq<(K, R)>, key: K) returns (i: nat)
    requires exists j :: 0 <= j < |rows| && rows[j].0 == key
    ensures i < |rows| && rows[i].0 == key && forall j :: 0 <= j < i ==> rows[j].0 != key
    decreases |rows|
  {
    if rows[0].0 == key {
      i := 0;
    } else {
      var j :| 0 <= j < |rows| && rows[j].0 == key;
      assert rows[1..][j - 1].0 == key;
      i := FirstWith(rows[1..], key);
      forall m | 0 <= m < i + 1
        ensures rows[m].0 != key
      {
        if m > 0 {
          assert rows[1..][m - 1] == rows[m];
        }
      }
      i := i + 1;
    }
  }

  /** Inserting statements of a known company leaves every row pointing at a company. */
  lemma StatementsKeepReferences<R>(db: Db, t: map<StatementKey, R>, rows: seq<(StatementKey, R)>, id: int)
    requires HasCompany(db, id)
    requires forall k :: k in t ==> HasCompany(db, k.companyId)
    requires forall i :: 0 <= i < |rows| ==> rows[i].0.companyId == id
    ensures forall k :: k in InsertAll(t, rows) ==> HasCompany(db, k.companyId)
  {
    forall k | k in InsertAll(t, rows)
      ensures HasCompany(db, k.companyId)
    {
      InsertAllFirstWins(t, rows, k);
    }
  }

  lemma IncomeKeepsSound(db: Db, id: int, snap: Snapshot)
    requires Sound(db) && HasCompany(db, id)
    ensures Sound(WithIncome(db, id, snap))
  {
    StatementsKeepReferences(db, db.income, IncomeRows(id, Keep(snap.income, IsValidIncome)), id);
    CompaniesDecide(db, WithIncome(db, id, snap));
  }

  lemma BalanceKeepsSound(db: Db, id: int, snap: Snapshot)
    requires Sound(db) && HasCompany(db, id)
    ensures Sound(WithBalance(db, id, snap))
  {
    StatementsKeepReferences(db, db.balance, BalanceRows(id, Keep(snap.balance, IsValidBalance)), id);
    CompaniesDecide(db, WithBalance(db, id, snap));
  }

  lemma CashFlowKeepsSound(db: Db, id: int, snap: Snapshot)
    requires Sound(db) && HasCompany(db, id)
    ensures Sound(WithCashFlow(db, id, snap))
  {
    StatementsKeepReferences(db, db.cashFlow, CashFlowRows(id, Keep(snap.cashFlow, IsValidCashFlow)), id);
    CompaniesDecide(db, WithCashFlow(db, id, snap));
  }

  lemma StagesKeepSound(db: Db, snap: Snapshot, k: nat)
    requires Sound(db)
    ensures Sound(Stages(db, snap, k))
  {
    hide Sound, Upsert, CompanyId, HasCompany;
    var id := CompanyId(db, snap.company.symbol);
    UpsertKeepsSound(db, snap.company);
    var db1 := Upsert(db, snap.company);
    var db2 := if k >= 2 then WithPrices(db1, id, snap) else db1;
    PricesKeepSound(db1, id, snap);
    CompaniesDecide(db1, db2);
    var db3 := if k >= 3 then WithIncome(db2, id, snap) else db2;
    IncomeKeepsSound(db2, id, snap);
    CompaniesDecide(db2, db3);
    var db4 := if k >= 4 then WithBalance(db3, id, snap) else db3;
    BalanceKeepsSound(db3, id, snap);
    CompaniesDecide(db3, db4);
    CashFlowKeepsSound(db4, id, snap);
  }

  function Final(db: Db, c: Call): Db {
    IngestSpec(db, c.symbol, c.att).0
  }

  /** Apart from the audit trail, a call leaves the stages it completed. */
  lemma FinalIsWritten(db: Db, c: Call)
    ensures Normalize(c.symbol).Some? ==> Final(db, c).(runs := []) == Written(db, c.att).(runs := [])
    ensures Normalize(c.symbol).None? ==> Final(db, c) == db
  {
    hide Written, RunOf;
  }

  lemma RunsDoNotMatter(a: Db, b: Db)
    requires a.(runs := []) == b.(runs := []) && Sound(a)
    ensures Sound(b)
  {
    assert a.companies == b.companies && a.prices == b.prices && a.income == b.income && a.nextId == b.nextId
        && a.balance == b.balance && a.cashFlow == b.cashFlow;
    CompaniesDecide(a, b);
  }

  /** In every run: ids are unique, every row belongs to a company, every stored price passed validation. */
  lemma {:induction false} EveryRunIsSound(db: Db, calls: seq<Call>)
    requires Sound(db)
    ensures Sound(After(db, calls))
    decreases |calls|
  {
    hide Sound, IngestSpec, Stages, Completed;
    if calls != [] {
      EveryRunIsSound(db, calls[..|calls| - 1]);
      var before, last := After(db, calls[..|calls| - 1]), calls[|calls| - 1];
      if last.att.fetched.Some? {
        StagesKeepSound(before, last.att.fetched.value, Completed(last.att));
      }
      FinalIsWritten(before, last);
      if Normalize(last.symbol).Some? {
        RunsDoNotMatter(Written(before, last.att), Final(before, last));
      }
    }
  }

  /** The migrated, still empty database is a sound place to start. */
  lemma EmptyIsSound()
    ensures Sound(EMPTY)
  {
  }

  // ---------- A successful call stores its snapshot ----------

  /** Row i is the first one of the batch with its key. */
  ghost predicate FirstOfKey<K(!new), R>(rows: seq<(K, R)>, i: nat)
    requires i < |rows|
  {
    forall j :: 0 <= j < i ==> rows[j].0 != rows[i].0
  }

  /**
   t' holds the rows of t unchanged, every key of the batch, and nothing else; a new key holds the first
   row of the batch that carries it.
   */
  ghost predicate Absorbed<K(!new), R>(t: map<K, R>, rows: seq<(K, R)>, t': map<K, R>) {
    && (forall k :: k in t ==> k in t' && t'[k] == t[k])
    && (forall i :: 0 <= i < |rows| ==> rows[i].0 in t')
    && (forall k :: k in t' && k !in t ==>
          exists i :: 0 <= i < |rows| && rows[i] == (k, t'[k]) && FirstOfKey(rows, i))
  }

  lemma InsertAllAbsorbs<K(!new), R>(t: map<K, R>, rows: seq<(K, R)>)
    ensures Absorbed(t, rows, InsertAll(t, rows))
  {
    var t' := InsertAll(t, rows);
    forall k | k in t
      ensures k in t' && t'[k] == t[k]
    {
      InsertAllFirstWins(t, rows, k);
    }
    forall i | 0 <= i < |rows|
      ensures rows[i].0 in t'
    {
      InsertAllFirstWins(t, rows, rows[i].0);
    }
    forall k | k in t' && k !in t
      ensures exists i :: 0 <= i < |rows| && rows[i] == (k, t'[k]) && FirstOfKey(rows, i)
    {
      InsertAllFirstWins(t, rows, k);
      var i := FirstWith(rows, k);
      assert rows[i] == (k, t'[k]) && FirstOfKey(rows, i);
    }
  }

  /**
   After a call that reports no error, or whose only failure is the audit, the company row is the
   fetched one and each table has absorbed the validated rows of the snapshot, the first row of each new key, under the
   id of that company.
   */
  lemma SuccessStoresSnapshot(db: Db, c: Call)
    requires Normalize(c.symbol).Some? && Succeeds(c.att)
    ensures c.att.fetched.Some?
    ensures var snap, after := c.att.fetched.value, Final(db, c);
            && snap.company.symbol in after.companies && after.companies[snap.company.symbol].company == snap.company
            && var id := after.companies[snap.company.symbol].id;
            && (snap.company.symbol in db.companies ==> id == db.companies[snap.company.symbol].id)
            && Absorbed(db.prices, PriceRows(id, Keep(snap.prices, IsValidPrice)), after.prices)
            && Absorbed(db.income, IncomeRows(id, Keep(snap.income, IsValidIncome)), after.income)
            && Absorbed(db.balance, BalanceRows(id, Keep(snap.balance, IsValidBalance)), after.balance)
            && Absorbed(db.cashFlow, CashFlowRows(id, Keep(snap.cashFlow, IsValidCashFlow)), after.cashFlow)
  {
    CompletedAtMostFive(c.att);
    StoresSnapshot(db, c, c.att.fetched.value);
  }

  lemma StoresSnapshot(db: Db, c: Call, snap: Snapshot)
    requires Normalize(c.symbol).Some? && c.att.fetched == Some(snap) && Completed(c.att) == 5
    ensures var id, after := CompanyId(db, snap.company.symbol), Final(db, c);
            && after.companies == db.companies[snap.company.symbol := CompanyRow(id, snap.company)]
            && Absorbed(db.prices, PriceRows(id, Keep(snap.prices, IsValidPrice)), after.prices)
            && Absorbed(db.income, IncomeRows(id, Keep(snap.income, IsValidIncome)), after.income)
            && Absorbed(db.balance, BalanceRows(id, Keep(snap.balance, IsValidBalance)), after.balance)
            && Absorbed(db.cashFlow, CashFlowRows(id, Keep(snap.cashFlow, IsValidCashFlow)), after.cashFlow)
  {
    hide Stages, InsertAll, Keep, Absorbed, Completed, Normalize, IngestSpec;
    FinalIsWritten(db, c);
    StageTables(db, snap, 5);
    var id := CompanyId(db, snap.company.symbol);
    InsertAllAbsorbs(db.prices, PriceRows(id, Keep(snap.prices, IsValidPrice)));
    InsertAllAbsorbs(db.income, IncomeRows(id, Keep(snap.income, IsValidIncome)));
    InsertAllAbsorbs(db.balance, BalanceRows(id, Keep(snap.balance, IsValidBalance)));
    InsertAllAbsorbs(db.cashFlow, CashFlowRows(id, Keep(snap.cashFlow, IsValidCashFlow)));
  }

  // ---------- Isolation between symbols ----------

  lemma PricesApart(t: map<PriceKey, PriceRow>, rows: seq<(PriceKey, PriceRow)>, id: int)
    requires forall i :: 0 <= i < |rows| ==> rows[i].0.companyId != id
    ensures PricesOf(InsertAll(t, rows), id) == PricesOf(t, id)
  {
    forall k: PriceKey | k.companyId == id
      ensures k in InsertAll(t, rows) <==> k in t
      ensures k in t ==> InsertAll(t, rows)[k] == t[k]
    {
      InsertAllFirstWins(t, rows, k);
    }
    var a, b := PricesOf(InsertAll(t, rows), id), PricesOf(t, id);
    forall d
      ensures d in a <==> d in b
      ensures d in b ==> a[d] == b[d]
    {
      assert d in a <==> PriceKey(id, d) in InsertAll(t, rows);
      assert d in b <==> PriceKey(id, d) in t;
    }
  }

  lemma StatementsApart<R>(t: map<StatementKey, R>, rows: seq<(StatementKey, R)>, id: int)
    requires forall i :: 0 <= i < |rows| ==> rows[i].0.companyId != id
    ensures AnnualOf(InsertAll(t, rows), id) == AnnualOf(t, id)
  {
    forall k: StatementKey | k.companyId == id
      ensures k in InsertAll(t, rows) <==> k in t
      ensures k in t ==> InsertAll(t, rows)[k] == t[k]
    {
      InsertAllFirstWins(t, rows, k);
    }
    var a, b := AnnualOf(InsertAll(t, rows), id), AnnualOf(t, id);
    forall d
      ensures d in a <==> d in b
      ensures d in b ==> a[d] == b[d]
    {
      assert d in a <==> StatementKey(id, ANNUAL, d) in InsertAll(t, rows);
      assert d in b <==> StatementKey(id, ANNUAL, d) in t;
    }
  }

  /** The tables after k stages, each in terms of the same table before. */
  lemma StageTables(db: Db, snap: Snapshot, k: nat)
    ensures var id, after := CompanyId(db, snap.company.symbol), Stages(db, snap, k);
            && after.companies == (if k >= 1 then db.companies[snap.company.symbol := CompanyRow(id, snap.company)]
                                   else db.companies)
            && after.prices == (if k >= 2 then InsertAll(db.prices, PriceRows(id, Keep(snap.prices, IsValidPrice)))
                                else db.prices)
            && after.income == (if k >= 3 then InsertAll(db.income, IncomeRows(id, Keep(snap.income, IsValidIncome)))
                                else db.income)
            && after.balance == (if k >= 4
                                 then InsertAll(db.balance, BalanceRows(id, Keep(snap.balance, IsValidBalance)))
                                 else db.balance)
            && after.cashFlow == (if k >= 5
                                  then InsertAll(db.cashFlow, CashFlowRows(id, Keep(snap.cashFlow, IsValidCashFlow)))
                                  else db.cashFlow)
  {
    hide InsertAll, Keep, PriceRows, IncomeRows, BalanceRows, CashFlowRows;
    if k == 0 {
    } else if k == 1 {
    } else if k == 2 {
    } else if k == 3 {
    } else if k == 4 {
    } else {
    }
  }

  /** A call never changes what queries on any other symbol can see. */
  lemma OtherSymbolsUntouched(db: Db, symbol: string, att: Attempt, other: string)
    requires Consistent(db)
    requires att.fetched.Some? ==> other != att.fetched.value.company.symbol
    ensures ViewOf(IngestSpec(db, symbol, att).0, other) == ViewOf(db, other)
  {
    hide IngestSpec, Stages, InsertAll, Completed, PricesOf, AnnualOf;
    var call := Call(symbol, att);
    FinalIsWritten(db, call);
    assert Normalize(symbol).Some? ==> Final(db, call).(runs := []) == Written(db, att).(runs := []);
    if att.fetched.Some? {
      var snap := att.fetched.value;
      var after := Stages(db, snap, Completed(att));
      StageTables(db, snap, Completed(att));
      if other in db.companies {
        var id, mine := CompanyId(db, snap.company.symbol), db.companies[other].id;
        PricesApart(db.prices, PriceRows(id, Keep(snap.prices, IsValidPrice)), mine);
        StatementsApart(db.income, IncomeRows(id, Keep(snap.income, IsValidIncome)), mine);
        StatementsApart(db.balance, BalanceRows(id, Keep(snap.balance, IsValidBalance)), mine);
      }
      assert ViewOf(after, other) == ViewOf(db, other);
    }
    SameViews(Final(db, call), if Normalize(symbol).Some? then Written(db, att) else db, other);
  }

  lemma SameViews(a: Db, b: Db, symbol: string)
    requires a.(runs := []) == b.(runs := [])
    ensures ViewOf(a, symbol) == ViewOf(b, symbol)
  {
    hide PricesOf, AnnualOf;
    assert a.companies == b.companies && a.prices == b.prices && a.income == b.income && a.balance == b.balance;
  }

  // ---------- Identity of companies ----------

  /** No company and no row carries the id. */
  ghost predicate Unused(db: Db, id: int) {
    && !HasCompany(db, id)
    && (forall k :: k in db.prices ==> k.companyId != id) && (forall k :: k in db.income ==> k.companyId != id)
    && (forall k :: k in db.balance ==> k.companyId != id) && (forall k :: k in db.cashFlow ==> k.companyId != id)
  }

  /**
   The upsert writes the given columns and touches no other company. A known company keeps its id; a new
   one gets an id that no company and no row of any table carries.
   */
  lemma UpsertIdentity(db: Db, c: Company)
    requires Consistent(db)
    ensures var after, id := Upsert(db, c).companies, CompanyId(db, c.symbol);
            && c.symbol in after && after[c.symbol] == CompanyRow(id, c)
            && (forall s :: s != c.symbol ==>
                  (s in after <==> s in db.companies) && (s in after ==> after[s] == db.companies[s]))
            && (c.symbol in db.companies ==> db.companies[c.symbol].id == id)
            && (c.symbol !in db.companies ==> Unused(db, id))
            && Upsert(db, c).nextId == db.nextId + 1
  {
  }

  /** In every run a company that is once stored stays stored under the same id. */
  lemma {:induction false} IdsAreStable(db: Db, calls: seq<Call>, symbol: string)
    requires symbol in db.companies
    ensures symbol in After(db, calls).companies && After(db, calls).companies[symbol].id == db.companies[symbol].id
    decreases |calls|
  {
    hide IngestSpec, Stages, Written;
    if calls != [] {
      var before, last := After(db, calls[..|calls| - 1]), calls[|calls| - 1];
      IdsAreStable(db, calls[..|calls| - 1], symbol);
      FinalIsWritten(before, last);
      WrittenKeepsId(before, last.att, symbol);
      assert After(db, calls) == Final(before, last);
    }
  }

  lemma WrittenKeepsId(db: Db, att: Attempt, symbol: string)
    requires symbol in db.companies
    ensures symbol in Written(db, att).companies && Written(db, att).companies[symbol].id == db.companies[symbol].id
  {
    hide Stages, InsertAll, Completed;
    if att.fetched.Some? {
      StageTables(db, att.fetched.value, Completed(att));
    }
  }

  // ---------- Row conservation ----------

  function RunOr0(report: Report): Run {
    if report.run.Some? then report.run.value else Run("", "", 0, 0, 0, 0, 0, None)
  }

  /** The counters of all returned runs, added up, and the number of audit rows they must have left. */
  datatype Totals = Totals(companies: int, prices: int, income: int, balance: int, cashFlow: int, audits: int)

  function Reported(db: Db, calls: seq<Call>): Totals {
    if calls == [] then Totals(0, 0, 0, 0, 0, 0)
    else
      var sum := Reported(db, calls[..|calls| - 1]);
      var last := calls[|calls| - 1];
      var run := RunOr0(IngestSpec(After(db, calls[..|calls| - 1]), last.symbol, last.att).1);
      Totals(sum.companies + run.companies, sum.prices + run.prices, sum.income + run.income,
             sum.balance + run.balance, sum.cashFlow + run.cashFlow,
             sum.audits + if Normalize(last.symbol).Some? && !last.att.auditFails then 1 else 0)
  }

  /** The affected rows that a call reports are the growth of each table. */
  lemma CountersAreGrowth(db: Db, sym: string, att: Attempt)
    ensures var run, after := RunOf(db, sym, att), Written(db, att);
            && run.prices == |after.prices| - |db.prices| && run.income == |after.income| - |db.income|
            && run.balance == |after.balance| - |db.balance| && run.cashFlow == |after.cashFlow| - |db.cashFlow|
  {
    hide Stages, InsertAll, PutCount, Keep, ErrorOf;
    if att.fetched.Some? {
      var snap := att.fetched.value;
      var id := CompanyId(db, snap.company.symbol);
      StageTables(db, snap, Completed(att));
      PutCountIsGrowth(db.prices, PriceRows(id, Keep(snap.prices, IsValidPrice)));
      PutCountIsGrowth(db.income, IncomeRows(id, Keep(snap.income, IsValidIncome)));
      PutCountIsGrowth(db.balance, BalanceRows(id, Keep(snap.balance, IsValidBalance)));
      PutCountIsGrowth(db.cashFlow, CashFlowRows(id, Keep(snap.cashFlow, IsValidCashFlow)));
    }
  }

  /**
   Over every run, including calls that fail at a late stage, the affected rows add up to the growth
   of each table, and each call with a valid symbol appends exactly one audit row unless the audit
   itself fails.
   */
  lemma {:induction false} CountersConserveRows(db: Db, calls: seq<Call>)
    ensures var t, last := Reported(db, calls), After(db, calls);
            && t.prices == |last.prices| - |db.prices| && t.income == |last.income| - |db.income|
            && t.balance == |last.balance| - |db.balance| && t.cashFlow == |last.cashFlow| - |db.cashFlow|
            && t.audits == |last.runs| - |db.runs|
    decreases |calls|
  {
    hide Written, RunOf;
    if calls != [] {
      var before, last := After(db, calls[..|calls| - 1]), calls[|calls| - 1];
      CountersConserveRows(db, calls[..|calls| - 1]);
      WritingKeepsAudit(before, last.att);
      if Normalize(last.symbol).Some? {
        CountersAreGrowth(before, Normalize(last.symbol).value, last.att);
      }
    }
  }

  lemma WritingKeepsAudit(db: Db, att: Attempt)
    ensures Written(db, att).runs == db.runs
  {
    hide InsertAll, Keep, Completed;
  }

  /** The row a call appends carries four of the five counters: the cash flow rows are not audited. */
  lemma AuditRowOfCall(db: Db, symbol: string, att: Attempt)
    ensures var (after, report) := IngestSpec(db, symbol, att);
            (Normalize(symbol).None? ==> after == db) &&
            (Normalize(symbol).Some? && !att.auditFails ==>
               report.run.Some? && |after.runs| == |db.runs| + 1 && after.runs[..|db.runs|] == db.runs &&
               var row, run := after.runs[|db.runs|], report.run.value;
               row.symbol == run.symbol && row.companies == run.companies && row.prices == run.prices &&
               row.income == run.income && row.balance == run.balance &&
               row.symbol == Normalize(symbol).value &&
               row.status == if report.error.None? then "success" else "failure")
  {
    if Normalize(symbol).Some? && !att.auditFails {
      var after := IngestSpec(db, symbol, att).0;
      assert Written(db, att).runs == db.runs;
      assert after.runs == db.runs + [Audit(RunOf(db, Normalize(symbol).value, att))];
      assert "success" != "failure" by { assert "success"[0] != "failure"[0]; }
    }
  }

  /** The company counter says 1 for every upsert; it matches the growth exactly when the company is new. */
  lemma CompanyCounter(db: Db, symbol: string, att: Attempt)
    requires Normalize(symbol).Some? && att.fetched.Some? && Completed(att) >= 1
    ensures var (after, report) := IngestSpec(db, symbol, att);
            report.run.value.companies == |after.companies| - |db.companies| <==>
            att.fetched.value.company.symbol !in db.companies
  {
    hide Stages, Normalize, InsertAll, PutCount, Keep, Completed, ErrorOf;
    var snap := att.fetched.value;
    StageTables(db, snap, Completed(att));
    SizeAfterUpdate(db.companies, snap.company.symbol, CompanyRow(CompanyId(db, snap.company.symbol), snap.company));
  }

  // ---------- Convergence after failures ----------

  /** A partial application followed by a complete one leaves the rows of the complete one alone. */
  lemma PartialThenComplete(db: Db, snap: Snapshot, k: nat)
    requires k <= 5
    ensures SameRows(Stages(Stages(db, snap, k), snap, 5), Stages(db, snap, 5))
  {
    hide Stages, InsertAll, Keep;
    var partial := Stages(db, snap, k);
    StageTables(db, snap, k);
    StageTables(db, snap, 5);
    StageTables(partial, snap, 5);
    if k > 0 {
      var id := CompanyId(db, snap.company.symbol);
      InsertAllIdempotent(db.prices, PriceRows(id, Keep(snap.prices, IsValidPrice)));
      InsertAllIdempotent(db.income, IncomeRows(id, Keep(snap.income, IsValidIncome)));
      InsertAllIdempotent(db.balance, BalanceRows(id, Keep(snap.balance, IsValidBalance)));
      InsertAllIdempotent(db.cashFlow, CashFlowRows(id, Keep(snap.cashFlow, IsValidCashFlow)));
    } else {
      assert partial == db by { StagesOfNone(db, snap); }
    }
  }

  lemma StagesOfNone(db: Db, snap: Snapshot)
    ensures Stages(db, snap, 0) == db
  {
  }

  lemma CompletedAtMostFive(att: Attempt)
    ensures Completed(att) <= 5 && (Succeeds(att) <==> att.fetched.Some? && Completed(att) == 5)
  {
  }

  /** All calls are for the same snapshot: each either does not get it or fails or succeeds on it. */
  ghost predicate SameSnapshot(calls: seq<Call>, snap: Snapshot) {
    forall i :: 0 <= i < |calls| ==> calls[i].att.fetched == None || calls[i].att.fetched == Some(snap)
  }

  /**
   However many attempts failed at whatever stage before, one successful attempt leaves exactly the
   rows (ids included) that it would have left on its own.
   */
  lemma {:induction false} FailuresDoNotMatter(db: Db, calls: seq<Call>, snap: Snapshot, last: Call)
    requires SameSnapshot(calls, snap) && last.att.fetched == Some(snap)
    requires Normalize(last.symbol).Some? && Succeeds(last.att)
    ensures SameRows(After(db, calls + [last]), After(db, [last]))
    decreases |calls|
  {
    hide IngestSpec, Stages, Completed, Succeeds;
    CompletedAtMostFive(last.att);
    LastCall(db, calls, last);
    LastCall(db, [], last);
    assert [] + [last] == [last];
    FinalIsWritten(After(db, calls), last);
    FinalIsWritten(db, last);
    if calls != [] {
      var front, c := calls[..|calls| - 1], calls[|calls| - 1];
      var before := After(db, front);
      FailuresDoNotMatter(db, front, snap, last);
      LastCall(db, front, last);
      FinalIsWritten(before, last);
      LastCall(db, front, c);
      assert front + [c] == calls;
      FinalIsWritten(before, c);
      CompletedAtMostFive(c.att);
      var k := if c.att.fetched.None? || Normalize(c.symbol).None? then 0 else Completed(c.att);
      PartialThenComplete(before, snap, k);
      StagesOfNone(before, snap);
      RowsDecide(After(db, calls), Stages(before, snap, k), snap);
    }
  }

  lemma LastCall(db: Db, calls: seq<Call>, last: Call)
    ensures After(db, calls + [last]) == Final(After(db, calls), last)
  {
    assert (calls + [last])[..|calls|] == calls;
  }

  /** The rows that a snapshot leaves do not depend on the audit trail before it. */
  lemma RowsDecide(a: Db, b: Db, snap: Snapshot)
    requires a.(runs := []) == b.(runs := [])
    ensures SameRows(Stages(a, snap, 5), Stages(b, snap, 5))
  {
    hide Stages, InsertAll, Keep;
    assert a.companies == b.companies && a.prices == b.prices && a.income == b.income && a.nextId == b.nextId
        && a.balance == b.balance && a.cashFlow == b.cashFlow;
    StageTables(a, snap, 5);
    StageTables(b, snap, 5);
  }

  /** Ingesting the same snapshot again changes no data row and reports nothing inserted. */
  lemma ReingestIsNoOp(db: Db, first: Call, again: Call)
    requires first.att.fetched.Some? && again.att.fetched == first.att.fetched
    requires Normalize(first.symbol).Some? && Succeeds(first.att)
    requires Normalize(again.symbol).Some?
    ensures var once := Final(db, first);
            var (twice, report) := IngestSpec(once, again.symbol, again.att);
            SameRows(twice, once) && report.run.value.prices == 0 && report.run.value.income == 0
            && report.run.value.balance == 0 && report.run.value.cashFlow == 0
  {
    hide Stages, Completed, Succeeds, InsertAll, Keep, RunOf;
    var snap, k := first.att.fetched.value, Completed(again.att);
    CompletedAtMostFive(first.att);
    var once := Final(db, first);
    FinalIsWritten(db, first);
    FinalIsWritten(once, again);
    CountersAreGrowth(once, Normalize(again.symbol).value, again.att);
    var id := CompanyId(db, snap.company.symbol);
    StageTables(db, snap, 5);
    StageTables(once, snap, k);
    InsertAllIdempotent(db.prices, PriceRows(id, Keep(snap.prices, IsValidPrice)));
    InsertAllIdempotent(db.income, IncomeRows(id, Keep(snap.income, IsValidIncome)));
    InsertAllIdempotent(db.balance, BalanceRows(id, Keep(snap.balance, IsValidBalance)));
    InsertAllIdempotent(db.cashFlow, CashFlowRows(id, Keep(snap.cashFlow, IsValidCashFlow)));
  }
}
