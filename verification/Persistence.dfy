/** The write side of the repository: parameter binding and the statements it executes. */
module Persistence {
  import opened Prelude
  import opened Models
  import opened Store

  // ---------- Bound parameters ----------

  /** A driver argument: an integer (also a date), a number or a text. */
  datatype Cell = IntCell(n: int) | RealCell(x: real) | TextCell(s: string)

  function AsInt(c: Cell): int { if c.IntCell? then c.n else 0 }
  function AsReal(c: Cell): real { if c.RealCell? then c.x else 0.0 }
  function AsText(c: Cell): string { if c.TextCell? then c.s else "" }

  /** Every placeholder $n of the VALUES list names an existing argument. */
  predicate WellBound(vals: seq<seq<int>>, args: seq<Cell>) {
    forall i :: 0 <= i < |vals| ==> forall c :: 0 <= c < |vals[i]| ==> 1 <= vals[i][c] <= |args|
  }

  /** What the database receives: each placeholder $n replaced by the n-th argument. */
  function Bound(vals: seq<seq<int>>, args: seq<Cell>): seq<seq<Cell>>
    requires WellBound(vals, args)
  {
    seq(|vals|, i requires 0 <= i < |vals| =>
      seq(|vals[i]|, c requires 0 <= c < |vals[i]| => args[vals[i][c] - 1]))
  }

  /**
   The loop of the bulk inserts: row i is rendered as ($base+1, ..., $base+cols) with
   base = i*cols, and its cells are appended to the arguments.
   */
  method BindRows(rows: seq<seq<Cell>>, cols: nat) returns (vals: seq<seq<int>>, args: seq<Cell>)
    requires forall i :: 0 <= i < |rows| ==> |rows[i]| == cols
    ensures WellBound(vals, args) && Bound(vals, args) == rows
    ensures |args| == |rows| * cols
  {
    vals, args := [], [];
    for i := 0 to |rows|
      invariant |vals| == i && |args| == i * cols
      invariant WellBound(vals, args)
      invariant Bound(vals, args) == rows[..i]
    {
      var base := i * cols;
      ghost var vals0, args0 := vals, args;
      vals := vals + [seq(cols, c requires 0 <= c < cols => base + c + 1)];
      args := args + rows[i];
      assert |args| == (i + 1) * cols;
      BoundExtends(vals0, args0, vals[i], rows[i]);
      assert rows[..i + 1] == rows[..i] + [rows[i]];
    }
    assert rows[..|rows|] == rows;
  }

  lemma BoundExtends(vals: seq<seq<int>>, args: seq<Cell>, tuple: seq<int>, row: seq<Cell>)
    requires WellBound(vals, args)
    requires |tuple| == |row| && forall c :: 0 <= c < |row| ==> tuple[c] == |args| + c + 1
    ensures WellBound(vals + [tuple], args + row)
    ensures Bound(vals + [tuple], args + row) == Bound(vals, args) + [row]
  {
    var vals', args' := vals + [tuple], args + row;
    forall i | 0 <= i < |vals'|
      ensures forall c :: 0 <= c < |vals'[i]| ==> 1 <= vals'[i][c] <= |args'|
    {
    }
    forall i | 0 <= i < |vals|
      ensures Bound(vals', args')[i] == Bound(vals, args)[i]
    {
      assert vals'[i] == vals[i];
    }
    assert Bound(vals', args')[|vals|] == row;
  }

  function PriceCells(id: int, p: DailyPrice): seq<Cell> {
    [IntCell(id), IntCell(p.date), RealCell(p.open), RealCell(p.high), RealCell(p.low), RealCell(p.close),
     IntCell(p.volume)]
  }

  function IncomeCells(id: int, s: IncomeStatement): seq<Cell> {
    [IntCell(id), TextCell(s.period), IntCell(s.fiscalDate), RealCell(s.revenue), RealCell(s.netIncome),
     RealCell(s.dilutedEps)]
  }

  function BalanceCells(id: int, s: BalanceSheet): seq<Cell> {
    [IntCell(id), TextCell(s.period), IntCell(s.fiscalDate), RealCell(s.totalAssets), RealCell(s.totalLiabilities),
     RealCell(s.totalEquity), RealCell(s.totalDebt), RealCell(s.currentAssets), RealCell(s.currentLiabilities),
     RealCell(s.sharesOutstanding)]
  }

  function CashFlowCells(id: int, f: CashFlow): seq<Cell> {
    [IntCell(id), TextCell(f.period), IntCell(f.fiscalDate), RealCell(f.operating), RealCell(f.investing),
     RealCell(f.financing), RealCell(f.netChange)]
  }

  // The column lists of the four INSERT statements, read by position.

  function PriceOf(c: seq<Cell>): (PriceKey, PriceRow)
    requires |c| == 7
  {
    (PriceKey(AsInt(c[0]), AsInt(c[1])),
     PriceRow(AsReal(c[2]), AsReal(c[3]), AsReal(c[4]), AsReal(c[5]), AsInt(c[6])))
  }

  function IncomeOf(c: seq<Cell>): (StatementKey, IncomeRow)
    requires |c| == 6
  {
    (StatementKey(AsInt(c[0]), AsText(c[1]), AsInt(c[2])), IncomeRow(AsReal(c[3]), AsReal(c[4]), AsReal(c[5])))
  }

  function BalanceOf(c: seq<Cell>): (StatementKey, BalanceRow)
    requires |c| == 10
  {
    (StatementKey(AsInt(c[0]), AsText(c[1]), AsInt(c[2])),
     BalanceRow(AsReal(c[3]), AsReal(c[4]), AsReal(c[5]), AsReal(c[6]), AsReal(c[7]), AsReal(c[8]), AsReal(c[9])))
  }

  function CashFlowOf(c: seq<Cell>): (StatementKey, CashFlowRow)
    requires |c| == 7
  {
    (StatementKey(AsInt(c[0]), AsText(c[1]), AsInt(c[2])),
     CashFlowRow(AsReal(c[3]), AsReal(c[4]), AsReal(c[5]), AsReal(c[6])))
  }

  /** The rows of an INSERT, read off the bound cells. */
  function RowsOf<K, R>(cells: seq<seq<Cell>>, cols: nat, read: seq<Cell> --> (K, R)): seq<(K, R)>
    requires forall i :: 0 <= i < |cells| ==> |cells[i]| == cols && read.requires(cells[i])
  {
    seq(|cells|, i requires 0 <= i < |cells| => read(cells[i]))
  }

  // ---------- The repository ----------

  class Repository {
    var db: Db

    constructor ()
      ensures db == EMPTY
    {
      db := EMPTY;
    }

    /** None is a failed statement; a failed statement changes nothing. */
    method UpsertCompany(c: Company, fails: bool) returns (id: Option<int>)
      modifies this
      ensures fails ==> id == None && db == old(db)
      ensures !fails ==> id == Some(CompanyId(old(db), c.symbol)) && db == Upsert(old(db), c)
    {
      if fails {
        return None;
      }
      id := Some(CompanyId(db, c.symbol));
      db := Upsert(db, c);
    }

    method InsertPrices(id: int, prices: seq<DailyPrice>, fails: bool) returns (n: Option<int>)
      modifies this
      ensures fails && prices != [] ==> n == None && db == old(db)
      ensures !fails || prices == [] ==>
                db == old(db).(prices := InsertAll(old(db).prices, PriceRows(id, prices)))
                && n == Some(PutCount(old(db).prices, PriceRows(id, prices)))
    {
      if prices == [] {
        return Some(0);
      }
      var cells := seq(|prices|, i requires 0 <= i < |prices| => PriceCells(id, prices[i]));
      var vals, args := BindRows(cells, 7);
      if fails {
        return None;
      }
      var rows := RowsOf(Bound(vals, args), 7, PriceOf);
      assert rows == PriceRows(id, prices);
      n := Some(PutCount(db.prices, rows));
      db := db.(prices := InsertAll(db.prices, rows));
    }

    method InsertIncomeStatements(id: int, stmts: seq<IncomeStatement>, fails: bool) returns (n: Option<int>)
      modifies this
      ensures fails && stmts != [] ==> n == None && db == old(db)
      ensures !fails || stmts == [] ==>
                db == old(db).(income := InsertAll(old(db).income, IncomeRows(id, stmts)))
                && n == Some(PutCount(old(db).income, IncomeRows(id, stmts)))
    {
      if stmts == [] {
        return Some(0);
      }
      var cells := seq(|stmts|, i requires 0 <= i < |stmts| => IncomeCells(id, stmts[i]));
      var vals, args := BindRows(cells, 6);
      if fails {
        return None;
      }
      var rows := RowsOf(Bound(vals, args), 6, IncomeOf);
      assert rows == IncomeRows(id, stmts);
      n := Some(PutCount(db.income, rows));
      db := db.(income := InsertAll(db.income, rows));
    }

    method InsertBalanceSheets(id: int, sheets: seq<BalanceSheet>, fails: bool) returns (n: Option<int>)
      modifies this
      ensures fails && sheets != [] ==> n == None && db == old(db)
      ensures !fails || sheets == [] ==>
                db == old(db).(balance := InsertAll(old(db).balance, BalanceRows(id, sheets)))
                && n == Some(PutCount(old(db).balance, BalanceRows(id, sheets)))
    {
      if sheets == [] {
        return Some(0);
      }
      var cells := seq(|sheets|, i requires 0 <= i < |sheets| => BalanceCells(id, sheets[i]));
      var vals, args := BindRows(cells, 10);
      if fails {
        return None;
      }
      var rows := RowsOf(Bound(vals, args), 10, BalanceOf);
      assert rows == BalanceRows(id, sheets);
      n := Some(PutCount(db.balance, rows));
      db := db.(balance := InsertAll(db.balance, rows));
    }

    method InsertCashFlows(id: int, flows: seq<CashFlow>, fails: bool) returns (n: Option<int>)
      modifies this
      ensures fails && flows != [] ==> n == None && db == old(db)
      ensures !fails || flows == [] ==>
                db == old(db).(cashFlow := InsertAll(old(db).cashFlow, CashFlowRows(id, flows)))
                && n == Some(PutCount(old(db).cashFlow, CashFlowRows(id, flows)))
    {
      if flows == [] {
        return Some(0);
      }
      var cells := seq(|flows|, i requires 0 <= i < |flows| => CashFlowCells(id, flows[i]));
      var vals, args := BindRows(cells, 7);
      if fails {
        return None;
      }
      var rows := RowsOf(Bound(vals, args), 7, CashFlowOf);
      assert rows == CashFlowRows(id, flows);
      n := Some(PutCount(db.cashFlow, rows));
      db := db.(cashFlow := InsertAll(db.cashFlow, rows));
    }

    method RecordRun(run: AuditRow, fails: bool) returns (ok: bool)
      modifies this
      ensures ok == !fails
      ensures db == if fails then old(db) else old(db).(runs := old(db).runs + [run])
    {
      if !fails {
        db := db.(runs := db.runs + [run]);
      }
      ok := !fails;
    }
  }
}
