/** When an ingestion that leaves a cached answer in place makes it wrong: conditions on the rows. */
module Staleness {
  import opened Prelude
  import opened Models
  import opened Symbols
  import opened Ordering
  import opened Store
  import opened CacheStore
  import opened Ingestion
  import opened Query
  import opened Coherence
  import IngestionLaws
  import QueryLaws
  import F = Fundamentals
  import opened Series

  /**
   Every key that the completed stages offer for the page is already stored: all price keys, and for
   the analytics page also the annual statement keys.
   */
  ghost predicate NothingNew(db: Db, snap: Snapshot, k: nat, kind: Kind) {
    var id := CompanyId(db, snap.company.symbol);
    && (k >= 2 ==> forall x :: x in Keep(snap.prices, IsValidPrice) ==> PriceKey(id, x.date) in db.prices)
    && (kind.Analytics? && k >= 3 ==>
          forall x :: x in Keep(snap.income, IsValidIncome) && x.period == ANNUAL ==>
            StatementKey(id, ANNUAL, x.fiscalDate) in db.income)
    && (kind.Analytics? && k >= 4 ==>
          forall x :: x in Keep(snap.balance, IsValidBalance) && x.period == ANNUAL ==>
            StatementKey(id, ANNUAL, x.fiscalDate) in db.balance)
  }

  /** Validated price x is newer than every stored price of the company. */
  ghost predicate NewerThanStored(db: Db, snap: Snapshot, x: DailyPrice) {
    x in Keep(snap.prices, IsValidPrice) &&
    forall d :: PriceKey(CompanyId(db, snap.company.symbol), d) in db.prices ==> d < x.date
  }

  /** x is the newest validated price, and no other row of its day closes elsewhere. */
  ghost predicate NewestFetched(snap: Snapshot, x: DailyPrice) {
    forall y :: y in Keep(snap.prices, IsValidPrice) ==> y.date <= x.date && (y.date == x.date ==> y.close == x.close)
  }

  /**
   The price stage ran and brought a newer day; for the analytics page it must be the newest fetched
   day, with another closing price than the stored latest one.
   */
  ghost predicate BringsNewerPrice(db: Db, snap: Snapshot, k: nat, kind: Kind) {
    k >= 2 && exists x :: NewerThanStored(db, snap, x) &&
                          (kind.Analytics? ==>
                             NewestFetched(snap, x) && LatestCloseDiffers(db, snap.company.symbol, x.close))
  }

  ghost predicate LatestCloseDiffers(db: Db, symbol: string, close: real) {
    ViewOf(db, symbol).Some? && LatestPrice(ViewOf(db, symbol).value).Some? &&
    LatestPrice(ViewOf(db, symbol).value).value.close != close
  }

  /** x is a validated annual statement, newer than every stored one of the company and than every other fetched one. */
  ghost predicate NewestAnnual(db: Db, snap: Snapshot, x: IncomeStatement) {
    && x in Keep(snap.income, IsValidIncome) && x.period == ANNUAL
    && (forall d :: StatementKey(CompanyId(db, snap.company.symbol), ANNUAL, d) in db.income ==> d < x.fiscalDate)
    && (forall y :: y in Keep(snap.income, IsValidIncome) && y.period == ANNUAL ==>
          y.fiscalDate <= x.fiscalDate && (y.fiscalDate == x.fiscalDate ==> y.dilutedEps == x.dilutedEps))
  }

  /** No fetched day is newer than the stored latest one, whose close is positive. */
  ghost predicate LatestCloseStays(db: Db, snap: Snapshot) {
    var v := ViewOf(db, snap.company.symbol);
    v.Some? && LatestPrice(v.value).Some? && LatestPrice(v.value).value.close > 0.0 &&
    forall y :: y in Keep(snap.prices, IsValidPrice) ==> y.date <= LatestPrice(v.value).value.date
  }

  ghost predicate LatestEpsDiffers(db: Db, symbol: string, eps: real) {
    var v := ViewOf(db, symbol);
    v.Some? && v.value.incomes != map[] && NewestFirst(v.value.incomes)[0].dilutedEps != eps
  }

  /** The income stage ran and brought a newer annual statement with another EPS, at the same close. */
  ghost predicate BringsNewerEps(db: Db, snap: Snapshot, k: nat) {
    k >= 3 && LatestCloseStays(db, snap) &&
    exists x :: NewestAnnual(db, snap, x) && LatestEpsDiffers(db, snap.company.symbol, x.dilutedEps)
  }

  lemma AnnualKnown<R>(t: map<StatementKey, R>, rows: seq<(StatementKey, R)>, id: int)
    requires forall i :: 0 <= i < |rows| && rows[i].0.companyId == id && rows[i].0.period == ANNUAL ==> rows[i].0 in t
    ensures AnnualOf(InsertAll(t, rows), id) == AnnualOf(t, id)
  {
    forall k: StatementKey | k.companyId == id && k.period == ANNUAL
      ensures k in InsertAll(t, rows) <==> k in t
      ensures k in t ==> InsertAll(t, rows)[k] == t[k]
    {
      InsertAllFirstWins(t, rows, k);
    }
    var a, b := AnnualOf(InsertAll(t, rows), id), AnnualOf(t, id);
    forall d
      ensures d in a <==> d in b
      ensures d in b ==> a[d] == b[d]
    {
      assert d in a <==> StatementKey(id, ANNUAL, d) in InsertAll(t, rows);
      assert d in b <==> StatementKey(id, ANNUAL, d) in t;
    }
  }

  /** The answer depends on the price rows, and for the analytics page on the annual statements. */
  lemma RowsDecideAnswer(kind: Kind, sym: string, v: View, w: View)
    requires v.prices == w.prices && (kind.Analytics? ==> v.incomes == w.incomes && v.balances == w.balances)
    ensures Recompute(kind, sym, Some(v)) == Recompute(kind, sym, Some(w))
  {
    hide Recompute, ComputeMetrics, ComputeIndicators;
    if kind.Analytics? {
      QueryLaws.AnalyticsAnswer(sym, Some(v));
      QueryLaws.AnalyticsAnswer(sym, Some(w));
    } else {
      QueryLaws.TechnicalAnswer(sym, Some(v));
      QueryLaws.TechnicalAnswer(sym, Some(w));
    }
  }

  /** The views of the company before and after the completed stages. */
  lemma StagedView(db: Db, snap: Snapshot, k: nat, kind: Kind)
    requires snap.company.symbol in db.companies && NothingNew(db, snap, k, kind)
    ensures var v, w := ViewOf(db, snap.company.symbol), ViewOf(Stages(db, snap, k), snap.company.symbol);
            && v.Some? && w.Some? && v.value.prices == w.value.prices
            && (kind.Analytics? ==> v.value.incomes == w.value.incomes && v.value.balances == w.value.balances)
  {
    hide Stages, Keep, InsertAll, PricesOf, AnnualOf;
    var id := CompanyId(db, snap.company.symbol);
    IngestionLaws.StageTables(db, snap, k);
    if k >= 2 {
      InsertAllKnown(db.prices, PriceRows(id, Keep(snap.prices, IsValidPrice)));
    }
    if kind.Analytics? {
      if k >= 3 {
        AnnualKnown(db.income, IncomeRows(id, Keep(snap.income, IsValidIncome)), id);
      }
      if k >= 4 {
        AnnualKnown(db.balance, BalanceRows(id, Keep(snap.balance, IsValidBalance)), id);
      }
    }
  }

  /** Apart from the audit trail, the database after an ingestion. */
  lemma DbAfterIsStaged(db: Db, op: Op, snap: Snapshot, symbol: string)
    requires op.Ingest? && op.att.fetched == Some(snap) && Normalize(op.symbol).Some?
    ensures ViewOf(DbAfter(db, op), symbol) == ViewOf(Stages(db, snap, Completed(op.att)), symbol)
  {
    hide Stages, ViewOf, IngestSpec, Completed;
    IngestionLaws.FinalIsWritten(db, IngestionLaws.Call(op.symbol, op.att));
    IngestionLaws.SameViews(DbAfter(db, op), Stages(db, snap, Completed(op.att)), symbol);
  }

  lemma NothingNewKeepsTruth(db: Db, op: Op, snap: Snapshot, kind: Kind)
    requires op.Ingest? && op.att.fetched == Some(snap) && Normalize(op.symbol).Some?
    requires snap.company.symbol in db.companies && NothingNew(db, snap, Completed(op.att), kind)
    ensures var p := Page(kind, snap.company.symbol); Truth(DbAfter(db, op), p) == Truth(db, p)
  {
    hide Stages, ViewOf, IngestSpec, Completed, Recompute, NothingNew;
    var sym := snap.company.symbol;
    DbAfterIsStaged(db, op, snap, sym);
    StagedView(db, snap, Completed(op.att), kind);
    RowsDecideAnswer(kind, sym, ViewOf(db, sym).value, ViewOf(DbAfter(db, op), sym).value);
  }

  lemma PricesHave(t: map<PriceKey, PriceRow>, id: int, d: Date)
    ensures d in PricesOf(t, id) <==> PriceKey(id, d) in t
    ensures d in PricesOf(t, id) ==> PricesOf(t, id)[d] == t[PriceKey(id, d)]
  {
  }

  /** A day that is newer than all stored ones moves the newest day; whatever is newest then, is new. */
  lemma MaxMoves(t: map<PriceKey, PriceRow>, t': map<PriceKey, PriceRow>, id: int, day: Date)
    requires PricesOf(t, id) != map[] && PriceKey(id, day) in t'
    requires forall d :: PriceKey(id, d) in t ==> d < day
    ensures PricesOf(t', id) != map[]
    ensures var newest := Max(PricesOf(t', id).Keys);
            Max(PricesOf(t, id).Keys) < day <= newest && PriceKey(id, newest) in t' && PriceKey(id, newest) !in t
  {
    hide PricesOf;
    PricesHave(t', id, day);
    PricesHave(t, id, Max(PricesOf(t, id).Keys));
    PricesHave(t', id, Max(PricesOf(t', id).Keys));
  }

  /** The tables behind the two views of the company. */
  lemma PricesStaged(db: Db, snap: Snapshot, k: nat)
    requires snap.company.symbol in db.companies && k >= 2
    ensures var v, w := ViewOf(db, snap.company.symbol), ViewOf(Stages(db, snap, k), snap.company.symbol);
            var id := CompanyId(db, snap.company.symbol);
            var t' := InsertAll(db.prices, PriceRows(id, Keep(snap.prices, IsValidPrice)));
            v.Some? && w.Some? && v.value.prices == PricesOf(db.prices, id) && w.value.prices == PricesOf(t', id)
  {
    hide Stages, InsertAll, Keep, PricesOf, AnnualOf;
    IngestionLaws.StageTables(db, snap, k);
  }

  /** After the price stage the newest day of the company is at least that of x, and its row comes from the batch. */
  lemma NewestDayMoves(db: Db, snap: Snapshot, k: nat, x: DailyPrice)
    requires snap.company.symbol in db.companies && k >= 2 && NewerThanStored(db, snap, x)
    requires ViewOf(db, snap.company.symbol).value.prices != map[]
    ensures var v, w := ViewOf(db, snap.company.symbol), ViewOf(Stages(db, snap, k), snap.company.symbol);
            && w.Some? && LatestPrice(v.value).Some? && LatestPrice(w.value).Some?
            && LatestPrice(v.value).value.date < x.date <= LatestPrice(w.value).value.date
            && (NewestFetched(snap, x) ==> LatestPrice(w.value).value.close == x.close)
  {
    hide Stages, InsertAll, Max, PricesOf, Keep;
    var id, batch := CompanyId(db, snap.company.symbol), Keep(snap.prices, IsValidPrice);
    var rows := PriceRows(id, batch);
    var t, t' := db.prices, InsertAll(db.prices, rows);
    PricesStaged(db, snap, k);
    IngestionLaws.InsertAllAbsorbs(t, rows);
    var n :| 0 <= n < |rows| && batch[n] == x;
    assert rows[n].0 == PriceKey(id, x.date);
    MaxMoves(t, t', id, x.date);
    var latest := Max(PricesOf(t', id).Keys);
    PricesHave(t', id, latest);
    var i :| 0 <= i < |rows| && rows[i] == (PriceKey(id, latest), t'[PriceKey(id, latest)]);
    assert batch[i] in batch;
  }

  lemma NewerPriceChangesTruth(db: Db, op: Op, snap: Snapshot, kind: Kind)
    requires op.Ingest? && op.att.fetched == Some(snap) && Normalize(op.symbol).Some?
    requires BringsNewerPrice(db, snap, Completed(op.att), kind)
    requires Truth(db, Page(kind, snap.company.symbol)).Ok?
    ensures var p := Page(kind, snap.company.symbol); Truth(DbAfter(db, op), p) != Truth(db, p)
  {
    hide Stages, ViewOf, IngestSpec, Completed, Recompute, NewerThanStored, NewestFetched, ComputeMetrics,
         ComputeIndicators, History, LatestPrice, NewestFirst;
    var sym, k := snap.company.symbol, Completed(op.att);
    var x :| NewerThanStored(db, snap, x) &&
             (kind.Analytics? ==> NewestFetched(snap, x) && LatestCloseDiffers(db, sym, x.close));
    DbAfterIsStaged(db, op, snap, sym);
    QueryLaws.AnalyticsAnswer(sym, ViewOf(db, sym));
    QueryLaws.TechnicalAnswer(sym, ViewOf(db, sym));
    ViewHasCompany(db, sym);
    NewestDayMoves(db, snap, k, x);
    var after := ViewOf(DbAfter(db, op), sym);
    QueryLaws.AnalyticsAnswer(sym, after);
    QueryLaws.TechnicalAnswer(sym, after);
    HasLatest(after.value);
    QueryLaws.HistoryEndsWithLatest(ViewOf(db, sym).value);
    QueryLaws.HistoryEndsWithLatest(after.value);
  }

  lemma AnnualHave<R>(t: map<StatementKey, R>, id: int, d: Date)
    ensures d in AnnualOf(t, id) <==> StatementKey(id, ANNUAL, d) in t
    ensures d in AnnualOf(t, id) ==> AnnualOf(t, id)[d] == t[StatementKey(id, ANNUAL, d)]
  {
  }

  /** The newest annual row after the stage is new when a newer one came in. */
  lemma AnnualMoves<R>(t: map<StatementKey, R>, t': map<StatementKey, R>, id: int, day: Date)
    requires StatementKey(id, ANNUAL, day) in t' && forall d :: StatementKey(id, ANNUAL, d) in t ==> d < day
    ensures AnnualOf(t', id) != map[]
    ensures var newest := Max(AnnualOf(t', id).Keys);
            day <= newest && StatementKey(id, ANNUAL, newest) in t' && StatementKey(id, ANNUAL, newest) !in t
  {
    hide AnnualOf;
    AnnualHave(t', id, day);
    AnnualHave(t', id, Max(AnnualOf(t', id).Keys));
  }

  /** Rows that are not newer leave the latest one alone. */
  lemma LatestStays(t: map<PriceKey, PriceRow>, rows: seq<(PriceKey, PriceRow)>, id: int)
    requires PricesOf(t, id) != map[]
    requires forall i :: 0 <= i < |rows| ==> rows[i].0.date <= Max(PricesOf(t, id).Keys)
    ensures var a, b := PricesOf(t, id), PricesOf(InsertAll(t, rows), id);
            b != map[] && Max(b.Keys) == Max(a.Keys) && b[Max(b.Keys)] == a[Max(a.Keys)]
  {
    hide PricesOf, InsertAll, Max;
    var t' := InsertAll(t, rows);
    var d := Max(PricesOf(t, id).Keys);
    PricesHave(t, id, d);
    PricesHave(t', id, d);
    InsertAllFirstWins(t, rows, PriceKey(id, d));
    var d' := Max(PricesOf(t', id).Keys);
    PricesHave(t, id, d');
    PricesHave(t', id, d');
    InsertAllFirstWins(t, rows, PriceKey(id, d'));
  }

  lemma IncomesStaged(db: Db, snap: Snapshot, k: nat)
    requires snap.company.symbol in db.companies && k >= 3
    ensures var v, w := ViewOf(db, snap.company.symbol), ViewOf(Stages(db, snap, k), snap.company.symbol);
            var id := CompanyId(db, snap.company.symbol);
            var t' := InsertAll(db.income, IncomeRows(id, Keep(snap.income, IsValidIncome)));
            v.Some? && w.Some? && v.value.incomes == AnnualOf(db.income, id) && w.value.incomes == AnnualOf(t', id)
  {
    hide Stages, InsertAll, Keep, PricesOf, AnnualOf;
    IngestionLaws.StageTables(db, snap, k);
  }

  /** After the income stage the newest annual statement has the EPS of x. */
  lemma NewestEpsMoves(db: Db, snap: Snapshot, k: nat, x: IncomeStatement)
    requires snap.company.symbol in db.companies && k >= 3 && NewestAnnual(db, snap, x)
    ensures var w := ViewOf(Stages(db, snap, k), snap.company.symbol);
            w.Some? && w.value.incomes != map[] && NewestFirst(w.value.incomes)[0].dilutedEps == x.dilutedEps
  {
    hide Stages, InsertAll, Max, AnnualOf, Keep;
    var id, batch := CompanyId(db, snap.company.symbol), Keep(snap.income, IsValidIncome);
    var rows := IncomeRows(id, batch);
    var t, t' := db.income, InsertAll(db.income, rows);
    IncomesStaged(db, snap, k);
    IngestionLaws.InsertAllAbsorbs(t, rows);
    var n :| 0 <= n < |rows| && batch[n] == x;
    assert rows[n].0 == StatementKey(id, ANNUAL, x.fiscalDate);
    AnnualMoves(t, t', id, x.fiscalDate);
    var newest := Max(AnnualOf(t', id).Keys);
    AnnualHave(t', id, newest);
    DescendingStarts(AnnualOf(t', id).Keys);
    var i :| 0 <= i < |rows| && rows[i] == (StatementKey(id, ANNUAL, newest), t'[StatementKey(id, ANNUAL, newest)]);
    assert batch[i] in batch;
  }

  lemma CloseStays(db: Db, snap: Snapshot, k: nat)
    requires snap.company.symbol in db.companies && k >= 3 && LatestCloseStays(db, snap)
    ensures var w := ViewOf(Stages(db, snap, k), snap.company.symbol);
            w.Some? && LatestPrice(w.value) == LatestPrice(ViewOf(db, snap.company.symbol).value)
  {
    hide Stages, InsertAll, Max, PricesOf, Keep;
    var id, batch := CompanyId(db, snap.company.symbol), Keep(snap.prices, IsValidPrice);
    PricesStaged(db, snap, k);
    forall i | 0 <= i < |PriceRows(id, batch)|
      ensures PriceRows(id, batch)[i].0.date <= Max(PricesOf(db.prices, id).Keys)
    {
      assert batch[i] in batch;
    }
    LatestStays(db.prices, PriceRows(id, batch), id);
  }

  /** At the same close another EPS is another P/E, defined or not. */
  lemma EpsDecidesPe(close: real, a: real, b: real)
    requires close > 0.0 && a != b
    ensures F.Nullable(F.PERatio(close, a)) != F.Nullable(F.PERatio(close, b))
  {
    if a != 0.0 && b != 0.0 {
      var p, q := close / a, close / b;
      assert p * a == close && q * b == close;
      DivUnique(a, p, close);
      DivUnique(b, q, close);
    }
  }

  lemma NewerEpsChangesTruth(db: Db, op: Op, snap: Snapshot)
    requires op.Ingest? && op.att.fetched == Some(snap) && Normalize(op.symbol).Some?
    requires BringsNewerEps(db, snap, Completed(op.att))
    requires Truth(db, Page(Analytics, snap.company.symbol)).Ok?
    ensures var p := Page(Analytics, snap.company.symbol); Truth(DbAfter(db, op), p) != Truth(db, p)
  {
    hide Stages, ViewOf, IngestSpec, Completed, Recompute, NewestAnnual, LatestCloseStays, LatestPrice, NewestFirst,
         F.PERatio;
    var sym, k := snap.company.symbol, Completed(op.att);
    var x :| NewestAnnual(db, snap, x) && LatestEpsDiffers(db, sym, x.dilutedEps);
    DbAfterIsStaged(db, op, snap, sym);
    ViewHasCompany(db, sym);
    QueryLaws.AnalyticsAnswer(sym, ViewOf(db, sym));
    QueryLaws.AnalyticsAnswer(sym, ViewOf(DbAfter(db, op), sym));
    NewestEpsMoves(db, snap, k, x);
    CloseStays(db, snap, k);
    CloseOf(db, snap);
    var v := ViewOf(db, sym).value;
    EpsDecidesPe(LatestPrice(v).value.close, NewestFirst(v.incomes)[0].dilutedEps, x.dilutedEps);
  }

  lemma CloseOf(db: Db, snap: Snapshot)
    requires LatestCloseStays(db, snap)
    ensures var v := ViewOf(db, snap.company.symbol);
            v.Some? && LatestPrice(v.value).Some? && LatestPrice(v.value).value.close > 0.0
  {
  }

  lemma ViewHasCompany(db: Db, sym: string)
    ensures ViewOf(db, sym).Some? <==> sym in db.companies
  {
  }

  lemma HasLatest(v: View)
    ensures LatestPrice(v).Some? <==> v.prices != map[]
  {
  }

  /**
   The next answer after an ingestion that does not delete the live, correct entry of a page of the
   fetched company: right when every key offered for the page is already stored, wrong when a newer
   price came in (for the analytics page: the newest one, at another close), and the analytics page
   also when a newer annual statement with another EPS came in at the same close.
   */
  lemma AnswerLeftInPlace(s: State, op: Op, snap: Snapshot, ttl: int, kind: Kind, env: Env)
    requires op.Ingest? && op.att.fetched == Some(snap) && Normalize(op.symbol).Some?
    requires IsValidSymbol(snap.company.symbol)
    requires var p := Page(kind, snap.company.symbol);
             p !in Deletes(s.db, op) && !Stale(s, p) && KeyFor(p) in s.entries && Live(s.entries[KeyFor(p)], env.now)
    requires !env.getFails && env.broken == {}
    ensures var p, t := Page(kind, snap.company.symbol), Step(s, op, ttl);
            var right := ReadThrough(kind, t.db, t.entries, ttl, p.symbol, env).1 == Truth(t.db, p);
            && (NothingNew(s.db, snap, Completed(op.att), kind) ==> right)
            && (BringsNewerPrice(s.db, snap, Completed(op.att), kind) ==> !right)
            && (kind.Analytics? && BringsNewerEps(s.db, snap, Completed(op.att)) ==> !right)
  {
    hide ReadThrough, Deletes, Completed, NothingNew, BringsNewerPrice, BringsNewerEps, Recompute, Normalize,
         IsValidSymbol, IngestSpec, Live;
    var p := Page(kind, snap.company.symbol);
    AnswerAfterIngest(s, op, ttl, p, env);
    StepDb(s, op, ttl);
    QueryLaws.AnalyticsAnswer(p.symbol, ViewOf(s.db, p.symbol));
    QueryLaws.TechnicalAnswer(p.symbol, ViewOf(s.db, p.symbol));
    ViewHasCompany(s.db, p.symbol);
    if NothingNew(s.db, snap, Completed(op.att), kind) {
      NothingNewKeepsTruth(s.db, op, snap, kind);
    }
    if BringsNewerPrice(s.db, snap, Completed(op.att), kind) {
      NewerPriceChangesTruth(s.db, op, snap, kind);
    }
    if kind.Analytics? && BringsNewerEps(s.db, snap, Completed(op.att)) {
      NewerEpsChangesTruth(s.db, op, snap);
    }
  }
}
