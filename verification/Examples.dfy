/** Concrete inputs at which a promise fails, each reached from the empty database. */
module Examples {
  import opened Prelude
  import opened Models
  import opened Symbols
  import opened Store
  import opened CacheStore
  import opened Ingestion
  import opened Query
  import opened Coherence
  import IngestionLaws
  import QueryLaws
  import Ordering
  import Screener
  import Staleness
  import Interleaving
  import PurgeRace
  import F = Fundamentals

  const SYMBOL := "LOSS"

  const PROFILE := Company(SYMBOL, "Loss Inc", "NYSE", "Tech", "Software", "USD", "")

  function DayOf(day: Date, close: real): DailyPrice {
    DailyPrice(day, close, close, close, close, 100)
  }

  /** One trading day, and one annual report with a loss of 1 per share. */
  function SnapshotOf(day: Date): Snapshot {
    Snapshot(PROFILE, [DayOf(day, 10.0)],
             [IncomeStatement(ANNUAL, 1, 100.0, 0.0, 0.0, -5.0, -1.0)],
             [BalanceSheet(ANNUAL, 1, 90.0, 40.0, 50.0, 10.0, 30.0, 20.0, 5.0)], [])
  }

  /** An attempt in which nothing fails. */
  function Smooth(day: Date): Attempt {
    Attempt(Some(SnapshotOf(day)), false, false, false, false, false, false)
  }

  lemma SymbolIsValid()
    ensures IsValidSymbol(SYMBOL) && Normalize(SYMBOL) == Some(SYMBOL)
  {
    assert IsSymbolChar('L') && IsSymbolChar('O') && IsSymbolChar('S');
    NormalizeFixes(SYMBOL);
  }

  lemma Validated(day: Date)
    requires day > 0
    ensures var snap := SnapshotOf(day);
            && Keep(snap.prices, IsValidPrice) == snap.prices && Keep(snap.income, IsValidIncome) == snap.income
            && Keep(snap.balance, IsValidBalance) == snap.balance && Keep(snap.cashFlow, IsValidCashFlow) == []
            && Completed(Smooth(day)) == 5 && Succeeds(Smooth(day))
  {
    var snap := SnapshotOf(day);
    assert snap.prices[..0] == [] && snap.income[..0] == [] && snap.balance[..0] == [];
    assert IsValidPrice(snap.prices[0]) && IsValidPeriod(ANNUAL);
  }

  const CALL := IngestionLaws.Call(SYMBOL, Smooth(1))

  /** The database after the first ingestion. */
  const FIRST := IngestionLaws.Final(EMPTY, CALL)

  lemma FirstRows()
    ensures IngestionLaws.Sound(FIRST) && FIRST.companies == map[SYMBOL := CompanyRow(1, PROFILE)]
    ensures FIRST.prices == map[PriceKey(1, 1) := PriceRow(10.0, 10.0, 10.0, 10.0, 100)]
    ensures FIRST.income == map[StatementKey(1, ANNUAL, 1) := IncomeRow(100.0, -5.0, -1.0)]
    ensures FIRST.balance == map[StatementKey(1, ANNUAL, 1) := BalanceRow(90.0, 40.0, 50.0, 10.0, 30.0, 20.0, 5.0)]
  {
    hide Stages, Keep, IngestSpec;
    SymbolIsValid();
    Validated(1);
    var snap := SnapshotOf(1);
    IngestionLaws.FinalIsWritten(EMPTY, CALL);
    IngestionLaws.StageTables(EMPTY, snap, 5);
    OneRow(PriceRows(1, snap.prices));
    OneRow(IncomeRows(1, snap.income));
    OneRow(BalanceRows(1, snap.balance));
    IngestionLaws.EmptyIsSound();
    IngestKeepsSound(EMPTY, Ingest(SYMBOL, Smooth(1), false, false, false));
  }

  lemma OneRow<K, R>(rows: seq<(K, R)>)
    requires |rows| == 1
    ensures InsertAll(map[], rows) == map[rows[0].0 := rows[0].1]
  {
    assert rows[1..] == [];
  }

  lemma OnePrice(id: int, d: Date, r: PriceRow)
    ensures PricesOf(map[PriceKey(id, d) := r], id) == map[d := r]
  {
    var t := map[PriceKey(id, d) := r];
    assert PriceKey(id, d) in t;
  }

  lemma OneStatement<R>(id: int, d: Date, r: R)
    ensures AnnualOf(map[StatementKey(id, ANNUAL, d) := r], id) == map[d := r]
  {
    var t := map[StatementKey(id, ANNUAL, d) := r];
    assert StatementKey(id, ANNUAL, d) in t;
  }

  const VIEW := View(PROFILE, map[1 := PriceRow(10.0, 10.0, 10.0, 10.0, 100)], map[1 := IncomeRow(100.0, -5.0, -1.0)],
                     map[1 := BalanceRow(90.0, 40.0, 50.0, 10.0, 30.0, 20.0, 5.0)])

  lemma FirstView()
    ensures ViewOf(FIRST, SYMBOL) == Some(VIEW)
  {
    hide PricesOf, AnnualOf, FIRST;
    FirstRows();
    OnePrice(1, 1, PriceRow(10.0, 10.0, 10.0, 10.0, 100));
    OneStatement(1, 1, IncomeRow(100.0, -5.0, -1.0));
    OneStatement(1, 1, BalanceRow(90.0, 40.0, 50.0, 10.0, 30.0, 20.0, 5.0));
  }

  lemma Newest<R>(t: map<Date, R>, d: Date, r: R)
    requires t == map[d := r]
    ensures NewestFirst(t) == [r] && Ordering.Max(t.Keys) == d
  {
    assert t.Keys == {d};
    assert Ordering.Max(t.Keys) in t.Keys;
    assert |t| == |t.Keys| == 1;
    assert Ordering.Descending(t.Keys)[0] in t.Keys;
  }

  // ---------- Two price-earnings ratios ----------

  /** A loss of 1 per share at a price of 10: GetAnalytics answers a P/E of -10, the screener none. */
  lemma LossSplitsThePeRatio()
    ensures Recompute(Analytics, SYMBOL, ViewOf(FIRST, SYMBOL)).Ok?
    ensures Recompute(Analytics, SYMBOL, ViewOf(FIRST, SYMBOL)).value.AnalyticsValue?
    ensures Recompute(Analytics, SYMBOL, ViewOf(FIRST, SYMBOL)).value.analytics.metrics.pe == Some(-10.0)
    ensures SYMBOL in FIRST.companies && Screener.BaseRow(FIRST, SYMBOL).Some?
    ensures Screener.BaseRow(FIRST, SYMBOL).value.pe == None
  {
    hide Recompute, FIRST, ViewOf, Screener.BaseRow, NewestFirst, AnnualOf, PricesOf;
    FirstRows();
    FirstView();
    Newest(VIEW.incomes, 1, IncomeRow(100.0, -5.0, -1.0));
    Newest(VIEW.balances, 1, BalanceRow(90.0, 40.0, 50.0, 10.0, 30.0, 20.0, 5.0));
    Newest(VIEW.prices, 1, PriceRow(10.0, 10.0, 10.0, 10.0, 100));
    QueryLaws.AnalyticsAnswer(SYMBOL, Some(VIEW));
    assert F.PERatio(10.0, -1.0) == Ok(-10.0);
    var go := Recompute(Analytics, SYMBOL, ViewOf(FIRST, SYMBOL)).value.analytics;
    Screener.ScreenerAgrees(FIRST, SYMBOL, go);
    OneStatement(1, 1, IncomeRow(100.0, -5.0, -1.0));
  }

  // ---------- A company counted twice ----------

  /** Re-ingesting the company reports one company inserted, and the table has not grown. */
  lemma UpdateCountsAsInsert()
    ensures var (after, report) := IngestSpec(FIRST, SYMBOL, Smooth(1));
            report.error == None && report.run.Some? && report.run.value.companies == 1 &&
            |after.companies| == |FIRST.companies|
  {
    hide FIRST, IngestSpec, Normalize, Completed;
    SymbolIsValid();
    Validated(1);
    FirstRows();
    Reported(FIRST, 1);
    KnownCompany(FIRST, IngestionLaws.Call(SYMBOL, Smooth(1)));
  }

  lemma KnownCompany(db: Db, c: IngestionLaws.Call)
    requires c.att.fetched.Some? && c.att.fetched.value.company.symbol in db.companies
    ensures |IngestSpec(db, c.symbol, c.att).0.companies| == |db.companies|
  {
    hide IngestSpec, Stages, Normalize, Completed;
    var company := c.att.fetched.value.company;
    IngestionLaws.FinalIsWritten(db, c);
    IngestionLaws.StageTables(db, c.att.fetched.value, Completed(c.att));
    SizeAfterUpdate(db.companies, company.symbol, CompanyRow(CompanyId(db, company.symbol), company));
  }

  /** A call in which nothing fails reports success and one company. */
  lemma Reported(db: Db, day: Date)
    requires day > 0
    ensures var report := IngestSpec(db, SYMBOL, Smooth(day)).1;
            report.error == None && report.run.Some? && report.run.value.companies == 1
  {
    hide Stages, PutCount, Keep;
    SymbolIsValid();
    Validated(day);
  }

  // ---------- A stale answer ----------

  /** Ingest, ask for a page, and ingest again; wired says whether the ingestions have the cache attached. */
  function AskBetween(symbol: string, a: Attempt, kind: Kind, b: Attempt, wired: bool): seq<Op> {
    [Ingest(symbol, a, wired, false, false), Ask(kind, symbol, Env(0, false, false, {})),
     Ingest(symbol, b, wired, false, false)]
  }

  /** The first day, the technical page, and the attempt at the second day. */
  function StaleRun(b: Attempt, wired: bool): seq<Op> {
    AskBetween(SYMBOL, Smooth(1), Technical, b, wired)
  }

  /** An attempt whose price rows are written and whose income statements are not. */
  function IncomeFailing(day: Date): Attempt {
    Smooth(day).(incomeFails := true)
  }

  /** A miss on an empty cache leaves exactly one entry. */
  lemma MissStores(kind: Kind, db: Db, ttl: int, symbol: string)
    requires Normalize(symbol) == Some(symbol) && Truth(db, Page(kind, symbol)).Ok?
    ensures ReadThrough(kind, db, map[], ttl, symbol, Env(0, false, false, {})).0
         == Stored(map[], KeyOf(kind, symbol), Truth(db, Page(kind, symbol)).value, 0, ttl)
  {
    hide Continue, Normalize, ViewOf;
  }

  lemma AnswersOfFirst()
    ensures Truth(FIRST, Page(Technical, SYMBOL)).Ok?
  {
    hide Recompute, FIRST, ViewOf, ComputeIndicators;
    FirstView();
    assert 1 in VIEW.prices;
    QueryLaws.TechnicalAnswer(SYMBOL, Some(VIEW));
  }

  lemma FirstStep(db: Db, symbol: string, att: Attempt, wired: bool, ttl: int)
    ensures Step(State(db, map[]), Ingest(symbol, att, wired, false, false), ttl)
         == State(IngestionLaws.Final(db, IngestionLaws.Call(symbol, att)), map[])
  {
    hide IngestSpec, Normalize;
  }

  lemma AskStep(s: State, kind: Kind, symbol: string, env: Env, ttl: int)
    ensures Step(s, Ask(kind, symbol, env), ttl) == State(s.db, ReadThrough(kind, s.db, s.entries, ttl, symbol, env).0)
  {
    hide ReadThrough;
  }

  lemma TwoCalls(db: Db, ops: seq<Op>, ttl: int)
    requires |ops| >= 2
    ensures Coherence.At(db, ops, ttl, 2) == Step(Step(State(db, map[]), ops[0], ttl), ops[1], ttl)
  {
    hide Step;
    assert ops[..0] == [];
    Coherence.NextState(db, ops, ttl, 0);
    Coherence.NextState(db, ops, ttl, 1);
  }

  lemma FirstIsFinal()
    ensures FIRST == IngestionLaws.Final(EMPTY, IngestionLaws.Call(SYMBOL, Smooth(1)))
  {
    hide IngestionLaws.Final;
  }

  /** After an ingestion and a query from an empty cache: the new rows, and one entry that is correct. */
  lemma IngestThenAsk(db: Db, first: Db, symbol: string, a: Attempt, kind: Kind, b: Attempt, wired: bool, ttl: int)
    requires Normalize(symbol) == Some(symbol)
    requires first == IngestionLaws.Final(db, IngestionLaws.Call(symbol, a)) && Truth(first, Page(kind, symbol)).Ok?
    ensures Coherence.At(db, AskBetween(symbol, a, kind, b, wired), ttl, 2)
         == State(first, Stored(map[], KeyOf(kind, symbol), Truth(first, Page(kind, symbol)).value, 0, ttl))
  {
    hide Truth, ReadThrough, Step, Coherence.At, Normalize, IngestionLaws.Final, Stored, KeyOf;
    TwoCalls(db, AskBetween(symbol, a, kind, b, wired), ttl);
    FirstStep(db, symbol, a, wired, ttl);
    AskStep(State(first, map[]), kind, symbol, Env(0, false, false, {}), ttl);
    MissStores(kind, first, ttl, symbol);
  }

  lemma BeforeSecondDay(b: Attempt, wired: bool)
    ensures Truth(FIRST, Page(Technical, SYMBOL)).Ok?
    ensures Coherence.At(EMPTY, StaleRun(b, wired), 900, 2) ==
            State(FIRST, Stored(map[], KeyOf(Technical, SYMBOL), Truth(FIRST, Page(Technical, SYMBOL)).value, 0, 900))
  {
    hide Truth, FIRST, Coherence.At, Stored, KeyOf, Normalize, SnapshotOf, Smooth, SYMBOL, AskBetween,
         IngestionLaws.Final;
    SymbolIsValid();
    AnswersOfFirst();
    FirstIsFinal();
    IngestThenAsk(EMPTY, FIRST, SYMBOL, Smooth(1), Technical, b, wired, 900);
  }

  /** The second day is newer than everything stored, whatever is written after the prices. */
  lemma SecondDayIsNewer(k: nat)
    requires k >= 2
    ensures Staleness.BringsNewerPrice(FIRST, SnapshotOf(2), k, Technical)
  {
    hide FIRST, Keep, IsValidPrice;
    FirstRows();
    Validated(2);
    assert SnapshotOf(2).prices[0] == DayOf(2, 10.0);
    assert Staleness.NewerThanStored(FIRST, SnapshotOf(2), DayOf(2, 10.0));
  }

  /** An attempt at the second day that writes its price and deletes nothing leaves the old answer. */
  lemma OldAnswerStays(b: Attempt, wired: bool)
    requires b.fetched == Some(SnapshotOf(2)) && Completed(b) >= 2
    requires Page(Technical, SYMBOL) !in Deletes(FIRST, Ingest(SYMBOL, b, wired, false, false))
    ensures var s := Coherence.At(EMPTY, StaleRun(b, wired), 900, 3);
            var answer := ReadThrough(Technical, s.db, s.entries, 900, SYMBOL, Env(1, false, false, {})).1;
            answer == Truth(FIRST, Page(Technical, SYMBOL)) != Truth(s.db, Page(Technical, SYMBOL))
  {
    hide Recompute, FIRST, ReadThrough, IngestSpec, Coherence.At, ViewOf, Completed, Staleness.BringsNewerPrice,
         Staleness.NothingNew, Staleness.BringsNewerEps, Deletes, SnapshotOf, Smooth;
    var page, env := Page(Technical, SYMBOL), Env(1, false, false, {});
    SymbolIsValid();
    AnswersOfFirst();
    BeforeSecondDay(b, wired);
    SecondDayIsNewer(Completed(b));
    CompanyOf(2);
    var s, op := Coherence.At(EMPTY, StaleRun(b, wired), 900, 2), StaleRun(b, wired)[2];
    Coherence.NextState(EMPTY, StaleRun(b, wired), 900, 2);
    Staleness.AnswerLeftInPlace(s, op, SnapshotOf(2), 900, Technical, env);
    Coherence.AnswerAfterIngest(s, op, 900, page, env);
  }

  lemma CompanyOf(day: Date)
    ensures SnapshotOf(day).company.symbol == SYMBOL
  {
  }

  /**
   From the empty database and an empty cache with a TTL of 900, with nothing failing: the last call
   of the run succeeds, and the page asked for one time unit later is answered by the old rows.
   */
  lemma UnwiredIngestionLeavesStaleAnswer()
    ensures var s := Coherence.At(EMPTY, StaleRun(Smooth(2), false), 900, 3);
            var answer := ReadThrough(Technical, s.db, s.entries, 900, SYMBOL, Env(1, false, false, {})).1;
            answer == Truth(FIRST, Page(Technical, SYMBOL)) != Truth(s.db, Page(Technical, SYMBOL))
    ensures IngestSpec(FIRST, SYMBOL, Smooth(2)).1.error == None
  {
    hide FIRST, ReadThrough, IngestSpec, Coherence.At, Truth, Completed;
    Validated(2);
    Reported(FIRST, 2);
    OldAnswerStays(Smooth(2), false);
  }

  /** The same with the cache attached, when the last call fails after it has written the new price. */
  lemma FailedIngestionLeavesStaleAnswer()
    ensures var s := Coherence.At(EMPTY, StaleRun(IncomeFailing(2), true), 900, 3);
            var answer := ReadThrough(Technical, s.db, s.entries, 900, SYMBOL, Env(1, false, false, {})).1;
            answer == Truth(FIRST, Page(Technical, SYMBOL)) != Truth(s.db, Page(Technical, SYMBOL))
    ensures IngestSpec(FIRST, SYMBOL, IncomeFailing(2)).1.error == Some(IncomeFailed)
  {
    hide FIRST, ReadThrough, IngestSpec, Coherence.At, Truth, Completed, SnapshotOf;
    FailsAtIncome(FIRST, 2);
    OldAnswerStays(IncomeFailing(2), true);
  }

  lemma FailsAtIncome(db: Db, day: Date)
    requires day > 0
    ensures Completed(IncomeFailing(day)) == 2 && IncomeFailing(day).fetched == Some(SnapshotOf(day))
    ensures IngestSpec(db, SYMBOL, IncomeFailing(day)).1.error == Some(IncomeFailed)
  {
    hide Stages, PutCount, Keep;
    SymbolIsValid();
    Validated(day);
  }

  /** Two states of the store that LateSetDefeatsPurge applies to: before and after the second day. */
  lemma PurgeRaceLeavesStaleAnswer(now: int, ttl: int)
    ensures var newer := IngestionLaws.Final(FIRST, IngestionLaws.Call(SYMBOL, Smooth(2)));
            var w := Interleaving.At(FIRST, now, PurgeRace.LateSet(SYMBOL, newer), ttl, 10);
            && 1 in w.readers && w.readers[1].born == 8
            && w.readers[1].phase == Interleaving.Done(Truth(FIRST, Page(Technical, SYMBOL)))
            && w.db == newer && Truth(newer, Page(Technical, SYMBOL)) != Truth(FIRST, Page(Technical, SYMBOL))
  {
    hide Recompute, FIRST, IngestSpec, ViewOf, Completed, Staleness.BringsNewerPrice, Interleaving.At,
         PurgeRace.LateSet;
    var newer := IngestionLaws.Final(FIRST, IngestionLaws.Call(SYMBOL, Smooth(2)));
    SymbolIsValid();
    Validated(2);
    AnswersOfFirst();
    SecondDayIsNewer(5);
    Staleness.NewerPriceChangesTruth(FIRST, Ingest(SYMBOL, Smooth(2), false, false, false), SnapshotOf(2), Technical);
    PurgeRace.LateSetDefeatsPurge(FIRST, now, ttl, SYMBOL, newer, Truth(FIRST, Page(Technical, SYMBOL)).value);
  }
}
