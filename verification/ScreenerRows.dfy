/** What the screener lists, in terms of the stored rows alone. */
module ScreenerRows {
  import opened Prelude
  import opened Models
  import opened Store
  import opened Ordering
  import opened Screener
  import opened QueryRows
  import IndicatorLaws

  /** The days with a price row, newest first. */
  ghost predicate RecentDays(t: map<PriceKey, PriceRow>, id: int, days: seq<Date>) {
    && (forall i, j :: 0 <= i < j < |days| ==> days[i] > days[j])
    && (forall d :: d in days <==> PriceKey(id, d) in t)
  }

  /** A ratio of stored columns: null when its divisor is missing or not positive. */
  ghost predicate OverStored(q: Option<real>, num: real, den: Option<real>) {
    && (q.Some? <==> den.Some? && den.value > 0.0)
    && (q.Some? ==> q.value * den.value == num)
  }

  /**
   The listed figures of a company with income statements on the dates inc, balance sheets on the dates
   bal and prices on the given days, newest first.
   */
  ghost predicate Figures(db: Db, id: int, inc: seq<Date>, bal: seq<Date>, days: seq<Date>, r: Row)
    requires inc != [] && AnnualDates(db.income, id, inc) && AnnualDates(db.balance, id, bal)
    requires RecentDays(db.prices, id, days)
  {
    var i := db.income[StatementKey(id, "annual", inc[0])];
    && OverStored(r.roe, i.netIncome,
                  if bal == [] then None else Some(db.balance[StatementKey(id, "annual", bal[0])].totalEquity))
    && (if days == [] then r.pe == None
        else OverStored(r.pe, db.prices[PriceKey(id, days[0])].close, Some(i.dilutedEps)))
    && (if |inc| == 1 then r.revenueGrowth == None
        else
          var prev := db.income[StatementKey(id, "annual", inc[1])].revenue;
          OverStored(r.revenueGrowth, i.revenue - prev, Some(prev)))
  }

  /** Every criterion that is set is met: an empty sector sets none, a null figure meets none. */
  predicate Qualifies(f: Filter, r: Row) {
    && (f.sector == None || f.sector == Some("") || f.sector == Some(r.sector))
    && (f.minRoe == None || (r.roe.Some? && f.minRoe.value <= r.roe.value))
    && (f.maxPe == None || (r.pe.Some? && r.pe.value <= f.maxPe.value))
    && (f.minGrowth == None || (r.revenueGrowth.Some? && f.minGrowth.value <= r.revenueGrowth.value))
  }

  lemma CaseRatioIsOver(num: real, den: Option<real>)
    ensures OverStored(CaseRatio(num, den), num, den)
  {
    if den.Some? && den.value > 0.0 {
      IndicatorLaws.Undivide(num, den.value);
    }
  }

  /** The two newest of the annual rows, as the subqueries select them. */
  lemma SelectedRows<R>(t: map<StatementKey, R>, id: int, dates: seq<Date>)
    requires AnnualDates(t, id, dates)
    ensures var rows := AnnualOf(t, id);
            && Newest(rows) == (if dates == [] then None else Some(t[StatementKey(id, "annual", dates[0])]))
            && Previous(rows) == (if |dates| <= 1 then None else Some(t[StatementKey(id, "annual", dates[1])]))
  {
    var rows := AnnualOf(t, id);
    NewestRows(t, id, dates);
    if dates != [] {
      NewestFirstAgrees(rows);
    }
  }

  lemma SelectedPrice(t: map<PriceKey, PriceRow>, id: int, days: seq<Date>)
    requires RecentDays(t, id, days)
    ensures Newest(PricesOf(t, id)) == if days == [] then None else Some(t[PriceKey(id, days[0])])
  {
    hide PricesOf;
    if days != [] {
      NewestPrice(t, id, days[0]);
    } else {
      SomePrice(t, id);
      assert PricesOf(t, id) == map[] by {
        if d :| PriceKey(id, d) in t {
          assert d in days;
        }
      }
    }
  }

  lemma BaseRowOnRows(db: Db, sym: string, inc: seq<Date>, bal: seq<Date>, days: seq<Date>)
    requires sym in db.companies
    requires var id := db.companies[sym].id;
             AnnualDates(db.income, id, inc) && AnnualDates(db.balance, id, bal) && RecentDays(db.prices, id, days)
    ensures var c, r := db.companies[sym], BaseRow(db, sym);
            && (r.Some? <==> inc != [])
            && (r.Some? ==> r.value.symbol == sym && r.value.name == c.company.name
                            && r.value.sector == c.company.sector && Figures(db, c.id, inc, bal, days, r.value))
  {
    hide Newest, Previous, AnnualOf, PricesOf, CaseRatio, OverStored;
    var id := db.companies[sym].id;
    SelectedRows(db.income, id, inc);
    SelectedRows(db.balance, id, bal);
    SelectedPrice(db.prices, id, days);
    if inc != [] {
      var i := db.income[StatementKey(id, "annual", inc[0])];
      CaseRatioIsOver(i.netIncome,
                      if bal == [] then None else Some(db.balance[StatementKey(id, "annual", bal[0])].totalEquity));
      if days != [] {
        CaseRatioIsOver(db.prices[PriceKey(id, days[0])].close, Some(i.dilutedEps));
      }
      if |inc| > 1 {
        var prev := db.income[StatementKey(id, "annual", inc[1])].revenue;
        CaseRatioIsOver(i.revenue - prev, Some(prev));
      }
    }
  }

  /** No two rows have the same figures unless they are the same. */
  lemma FiguresDecide(db: Db, id: int, inc: seq<Date>, bal: seq<Date>, days: seq<Date>, r: Row, s: Row)
    requires inc != [] && AnnualDates(db.income, id, inc) && AnnualDates(db.balance, id, bal)
    requires RecentDays(db.prices, id, days)
    requires Figures(db, id, inc, bal, days, r) && Figures(db, id, inc, bal, days, s)
    ensures r.roe == s.roe && r.pe == s.pe && r.revenueGrowth == s.revenueGrowth
  {
    hide OverStored;
    forall a: Option<real>, b: Option<real>, num, den | OverStored(a, num, den) && OverStored(b, num, den)
      ensures a == b
    {
      OverStoredOnce(a, b, num, den);
    }
  }

  lemma OverStoredOnce(a: Option<real>, b: Option<real>, num: real, den: Option<real>)
    requires OverStored(a, num, den) && OverStored(b, num, den)
    ensures a == b
  {
    if a.Some? {
      IndicatorLaws.SameFactor(den.value, a.value, b.value);
    }
  }

  // ---------- Main results ----------

  /**
   A company is listed exactly when it has an annual income statement and its name, sector and figures,
   computed from its newest stored rows, meet the filter; the listed row holds those.
   */
  lemma ListedOnRows(db: Db, f: Filter, sym: string, inc: seq<Date>, bal: seq<Date>, days: seq<Date>, r: Row)
    requires sym in db.companies
    requires var id := db.companies[sym].id;
             AnnualDates(db.income, id, inc) && AnnualDates(db.balance, id, bal) && RecentDays(db.prices, id, days)
    requires r.symbol == sym
    ensures var c := db.companies[sym];
            r in Screened(db, f) <==>
            inc != [] && r.name == c.company.name && r.sector == c.company.sector &&
            Figures(db, c.id, inc, bal, days, r) && Qualifies(f, r)
    ensures inc != [] ==> exists s :: Figures(db, db.companies[sym].id, inc, bal, days, s)
  {
    hide BaseRow, Screened, Figures, AnnualDates, RecentDays;
    ScreenedExactly(db, f);
    BaseRowOnRows(db, sym, inc, bal, days);
    if inc != [] && Figures(db, db.companies[sym].id, inc, bal, days, r) {
      FiguresDecide(db, db.companies[sym].id, inc, bal, days, r, BaseRow(db, sym).value);
    }
  }

  /** a comes before b in code point order: it is a proper prefix, or smaller where they first differ. */
  ghost predicate Before(a: string, b: string) {
    exists k :: 0 <= k <= |a| && k < |b| && a[..k] == b[..k] && (k == |a| || a[k] < b[k])
  }

  lemma {:induction false} OrderIsBefore(a: string, b: string)
    requires TextLeq(a, b) && a != b
    ensures Before(a, b)
    decreases |a|
  {
    if a == "" {
      assert a[..0] == b[..0];
    } else if a[0] < b[0] {
      assert a[..0] == b[..0];
    } else {
      assert a == [a[0]] + a[1..] && b == [b[0]] + b[1..];
      OrderIsBefore(a[1..], b[1..]);
      var k :| 0 <= k <= |a[1..]| && k < |b[1..]| && a[1..][..k] == b[1..][..k] &&
               (k == |a[1..]| || a[1..][k] < b[1..][k]);
      assert a[..k + 1] == [a[0]] + a[1..][..k] && b[..k + 1] == [b[0]] + b[1..][..k];
    }
  }

  /** Only stored companies are listed, each once, in code point order of their symbols. */
  lemma ListedInOrder(db: Db, f: Filter)
    ensures forall r :: r in Screened(db, f) ==> r.symbol in db.companies
    ensures forall i, j :: 0 <= i < j < |Screened(db, f)| ==>
              Before(Screened(db, f)[i].symbol, Screened(db, f)[j].symbol)
  {
    hide Screened, TextLeq, Before;
    ScreenedExactly(db, f);
    forall i, j | 0 <= i < j < |Screened(db, f)|
      ensures Before(Screened(db, f)[i].symbol, Screened(db, f)[j].symbol)
    {
      OrderIsBefore(Screened(db, f)[i].symbol, Screened(db, f)[j].symbol);
    }
  }
}
