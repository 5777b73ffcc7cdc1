/** Which fields of a technical response are null, for every stored history. */
module QueryLaws {
  import opened Prelude
  import opened Models
  import opened Store
  import opened Query
  import opened QueryServices
  import IngestionLaws
  import T = Technical
  import Ordering

  ghost predicate SoundHistory(v: View) {
    forall d :: d in v.prices ==> IngestionLaws.SoundPrice(v.prices[d])
  }

  /** What validated ingestion leaves in the tables is a sound history of every symbol. */
  lemma IngestedHistoriesAreSound(db: Db, symbol: string)
    requires IngestionLaws.Sound(db) && ViewOf(db, symbol).Some?
    ensures SoundHistory(ViewOf(db, symbol).value)
  {
    var v, id := ViewOf(db, symbol).value, db.companies[symbol].id;
    forall d | d in v.prices
      ensures IngestionLaws.SoundPrice(v.prices[d])
    {
      assert PriceKey(id, d) in db.prices;
    }
  }

  /** A history is ordered by date, oldest first, and ends with the row that GetLatestPrice returns. */
  lemma HistoryEndsWithLatest(v: View)
    requires v.prices != map[]
    ensures |History(v)| == |v.prices| > 0
    ensures forall i, j :: 0 <= i < j < |History(v)| ==> History(v)[i].date < History(v)[j].date
    ensures LatestPrice(v) == Some(History(v)[|History(v)| - 1])
  {
    assert v.prices.Keys != {};
    var h := History(v);
    var m := LatestPrice(v).value.date;
    assert m in v.prices.Keys;
    assert |v.prices.Keys| > 0;
  }

  lemma TechnicalAnswer(sym: string, view: Option<View>)
    ensures Recompute(Technical, sym, view) ==
            match view
            case None => Err(NotFound)
            case Some(v) =>
              if v.prices == map[] then Err(InsufficientData)
              else
                var h := History(v);
                Ok(TechnicalValue(TechnicalResult(sym, h[|h| - 1].date, ComputeIndicators(Closes(h), Volumes(h)))))
  {
    hide ComputeIndicators, Continue, History, Recompute;
    RecomputeStarts(Technical, sym, view);
    var company := Read(Technical, 0, view);
    Unfold(Technical, sym, view, {}, [], company);
    assert [] + [company] == [company];
    if view.Some? {
      var history := Read(Technical, 1, view);
      Unfold(Technical, sym, view, {}, [company], history);
      assert [company] + [history] == [company, history];
      if view.value.prices != map[] {
        HistoryEndsWithLatest(view.value);
        ContinueDone(Technical, sym, view, {}, [company, history]);
      }
    }
  }

  /** One more read of a computation that goes on. */
  lemma GoOn(sym: string, view: Option<View>, got: seq<Fetched>, f: Fetched)
    requires Underway(Analytics, got) && |got| < 4 && f == Read(Analytics, |got|, view)
    requires Continue(Analytics, sym, view, {}, got) == Recompute(Analytics, sym, view)
    ensures match Refusal(|got|, f)
            case Some(e) => Recompute(Analytics, sym, view) == Err(e)
            case None => Underway(Analytics, got + [f]) &&
                         Continue(Analytics, sym, view, {}, got + [f]) == Recompute(Analytics, sym, view)
  {
    hide Continue, Recompute, Read;
    Unfold(Analytics, sym, view, {}, got, f);
  }

  lemma AnalyticsRefused(sym: string, view: Option<View>)
    ensures view.None? ==> Recompute(Analytics, sym, view) == Err(NotFound)
    ensures view.Some? &&
            (view.value.incomes == map[] || view.value.balances == map[] || view.value.prices == map[]) ==>
              Recompute(Analytics, sym, view) == Err(InsufficientData)
  {
    hide Continue, History, NewestFirst, LatestPrice, Conclude;
    var company := Read(Analytics, 0, view);
    GoOn(sym, view, [], company);
    if view.Some? {
      var got := [] + [company];
      var incomes := Read(Analytics, 1, view);
      GoOn(sym, view, got, incomes);
      if view.value.incomes != map[] {
        got := got + [incomes];
        var balances := Read(Analytics, 2, view);
        GoOn(sym, view, got, balances);
        if view.value.balances != map[] {
          GoOn(sym, view, got + [balances], Read(Analytics, 3, view));
        }
      }
    }
  }

  lemma AnalyticsComputed(sym: string, v: View)
    requires v.incomes != map[] && v.balances != map[] && v.prices != map[]
    ensures var price := LatestPrice(v).value.close;
            Recompute(Analytics, sym, Some(v)) ==
            Ok(AnalyticsValue(AnalyticsResult(
              sym, price, ComputeMetrics(NewestFirst(v.incomes), NewestFirst(v.balances)[0], price))))
  {
    hide Continue, History, NewestFirst, LatestPrice, ComputeMetrics, Recompute, Read;
    var view := Some(v);
    var company, incomes, balances, latest :=
      Read(Analytics, 0, view), Read(Analytics, 1, view), Read(Analytics, 2, view), Read(Analytics, 3, view);
    AnalyticsReads(v);
    RecomputeStarts(Analytics, sym, view);
    GoOn(sym, view, [], company);
    var one := [] + [company];
    GoOn(sym, view, one, incomes);
    var two := one + [incomes];
    GoOn(sym, view, two, balances);
    var three := two + [balances];
    GoOn(sym, view, three, latest);
    ContinueDone(Analytics, sym, view, {}, three + [latest]);
  }

  lemma AnalyticsReads(v: View)
    requires v.incomes != map[] && v.balances != map[] && v.prices != map[]
    ensures LatestPrice(v).Some? && |NewestFirst(v.balances)| > 0 && |NewestFirst(v.incomes)| > 0
    ensures Read(Analytics, 0, Some(v)) == Profile(v.company)
    ensures Read(Analytics, 1, Some(v)) == Incomes(NewestFirst(v.incomes))
    ensures Read(Analytics, 2, Some(v)) == Balances(NewestFirst(v.balances))
    ensures Read(Analytics, 3, Some(v)) == Latest(LatestPrice(v).value)
  {
    hide NewestFirst;
  }

  lemma RecomputeStarts(kind: Kind, sym: string, view: Option<View>)
    ensures Continue(kind, sym, view, {}, []) == Recompute(kind, sym, view)
  {
    hide Continue;
  }

  /** GetAnalytics succeeds exactly when the company has annual statements of both kinds and a price. */
  lemma AnalyticsAnswer(sym: string, view: Option<View>)
    ensures view.None? ==> Recompute(Analytics, sym, view) == Err(NotFound)
    ensures view.Some? ==>
              var v := view.value;
              if v.incomes == map[] || v.balances == map[] || v.prices == map[] then
                Recompute(Analytics, sym, view) == Err(InsufficientData)
              else
                var price := LatestPrice(v).value.close;
                Recompute(Analytics, sym, view) ==
                Ok(AnalyticsValue(AnalyticsResult(
                  sym, price, ComputeMetrics(NewestFirst(v.incomes), NewestFirst(v.balances)[0], price))))
  {
    hide Recompute, NewestFirst, LatestPrice, ComputeMetrics;
    AnalyticsRefused(sym, view);
    if view.Some? && view.value.incomes != map[] && view.value.balances != map[] && view.value.prices != map[] {
      AnalyticsComputed(sym, view.value);
    }
  }

  /**
   With n rows, each close-based indicator is present exactly when n reaches its window, and the
   average volume exactly when n >= 20 and no stored volume is zero anywhere in the history.
   */
  lemma NullPattern(v: View)
    requires SoundHistory(v) && v.prices != map[]
    ensures var h, n := History(v), |v.prices|;
            var i := ComputeIndicators(Closes(h), Volumes(h));
            && (i.dailyReturn.Some? <==> n >= 2) && (i.sma20.Some? <==> n >= 20)
            && (i.sma50.Some? <==> n >= 50) && (i.sma200.Some? <==> n >= 200)
            && (i.ema20.Some? <==> n >= 20) && (i.rsi14.Some? <==> n >= 15)
            && (i.volatility20.Some? <==> n >= 21)
            && (i.averageVolume20.Some? <==> n >= 20 && forall d :: d in v.prices ==> v.prices[d].volume > 0)
  {
    var h, n := History(v), |v.prices|;
    var closes, volumes := Closes(h), Volumes(h);
    assert T.AllPositive(closes);
    VolumesPositive(v);
    IndicatorsPresent(closes, volumes);
  }

  lemma VolumesPositive(v: View)
    requires SoundHistory(v)
    ensures T.AllPositive(Volumes(History(v))) <==> forall d :: d in v.prices ==> v.prices[d].volume > 0
  {
    var h := History(v);
    if T.AllPositive(Volumes(h)) {
      forall d | d in v.prices
        ensures v.prices[d].volume > 0
      {
        var i := HistoryHas(v, d);
        assert Volumes(h)[i] > 0.0;
      }
    } else {
      var i :| 0 <= i < |h| && !(Volumes(h)[i] > 0.0);
      assert v.prices[h[i].date].volume <= 0;
    }
  }

  lemma HistoryHas(v: View, d: Date) returns (i: nat)
    requires d in v.prices
    ensures i < |History(v)| && History(v)[i] == DailyPriceOf(d, v.prices[d])
  {
    assert d in v.prices.Keys;
    i :| 0 <= i < |Ordering.Ascending(v.prices.Keys)| && Ordering.Ascending(v.prices.Keys)[i] == d;
  }

  lemma IndicatorsPresent(closes: seq<real>, volumes: seq<real>)
    requires |closes| == |volumes| > 0 && T.AllPositive(closes)
    ensures var i, n := ComputeIndicators(closes, volumes), |closes|;
            && (i.dailyReturn.Some? <==> n >= 2) && (i.sma20.Some? <==> n >= 20)
            && (i.sma50.Some? <==> n >= 50) && (i.sma200.Some? <==> n >= 200)
            && (i.ema20.Some? <==> n >= 20) && (i.rsi14.Some? <==> n >= 15)
            && (i.volatility20.Some? <==> n >= 21)
            && (i.averageVolume20.Some? <==> n >= 20 && T.AllPositive(volumes))
  {
    hide T.AllPositive, T.ReadingAt, T.RsiAt, T.Alpha;
  }
}
