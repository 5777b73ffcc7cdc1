/** QueryService: the two computed endpoints behind an optional cache, and Compare. */
module QueryServices {
  import opened Prelude
  import opened Models
  import opened Symbols
  import opened Store
  import opened Persistence
  import opened CacheStore
  import opened Query
  import T = Technical
  import F = Fundamentals

  /** One read of a computation either ends it or lets it go on. */
  lemma Unfold(kind: Kind, sym: string, view: Option<View>, broken: set<nat>, got: seq<Fetched>, f: Fetched)
    requires Underway(kind, got) && |got| < Reads(kind)
    requires f == if |got| in broken then Broken else Read(kind, |got|, view)
    ensures match Refusal(|got|, f)
            case Some(e) => Continue(kind, sym, view, broken, got) == Err(e)
            case None => Underway(kind, got + [f]) &&
                         Continue(kind, sym, view, broken, got) == Continue(kind, sym, view, broken, got + [f])
  {
    assert view.Some? ==> |History(view.value)| == |view.value.prices|;
  }

  function AsAnalytics(a: Answer): Result<AnalyticsResult, QueryError>
    requires a.Ok? ==> a.value.AnalyticsValue?
  {
    match a
    case Ok(v) => Ok(v.analytics)
    case Err(e) => Err(e)
  }

  function AsTechnical(a: Answer): Result<TechnicalResult, QueryError>
    requires a.Ok? ==> a.value.TechnicalValue?
  {
    match a
    case Ok(v) => Ok(v.technical)
    case Err(e) => Err(e)
  }

  lemma AnswersMatch(kind: Kind, db: Db, entries: map<string, Entry<Cached>>, ttl: int, symbol: string, env: Env)
    ensures Uncached(kind, db, symbol, env).Ok? ==> OfKind(kind, Uncached(kind, db, symbol, env).value)
    ensures ReadThrough(kind, db, entries, ttl, symbol, env).1.Ok? ==>
              OfKind(kind, ReadThrough(kind, db, entries, ttl, symbol, env).1.value)
  {
    hide Continue;
    if Normalize(symbol).Some? {
      AnswerOfKind(kind, Normalize(symbol).value, ViewOf(db, Normalize(symbol).value), env.broken, []);
    }
  }

  /** The answer of GetAnalytics, with or without a cache, and the cache it leaves. */
  function AnalyticsOf(db: Db, entries: Option<map<string, Entry<Cached>>>, ttl: int, symbol: string, env: Env)
    : (Option<map<string, Entry<Cached>>>, Result<AnalyticsResult, QueryError>)
  {
    match entries
    case None =>
      AnswersMatch(Analytics, db, map[], ttl, symbol, env);
      (None, AsAnalytics(Uncached(Analytics, db, symbol, env)))
    case Some(e) =>
      AnswersMatch(Analytics, db, e, ttl, symbol, env);
      var (after, answer) := ReadThrough(Analytics, db, e, ttl, symbol, env);
      (Some(after), AsAnalytics(answer))
  }

  function TechnicalOf(db: Db, entries: Option<map<string, Entry<Cached>>>, ttl: int, symbol: string, env: Env)
    : (Option<map<string, Entry<Cached>>>, Result<TechnicalResult, QueryError>)
  {
    match entries
    case None =>
      AnswersMatch(Technical, db, map[], ttl, symbol, env);
      (None, AsTechnical(Uncached(Technical, db, symbol, env)))
    case Some(e) =>
      AnswersMatch(Technical, db, e, ttl, symbol, env);
      var (after, answer) := ReadThrough(Technical, db, e, ttl, symbol, env);
      (Some(after), AsTechnical(answer))
  }

  /** The second phase of Compare: one GetAnalytics per symbol, the first error ends the call. */
  function CompareFrom(db: Db, entries: Option<map<string, Entry<Cached>>>, ttl: int, syms: seq<string>, envs: seq<Env>)
    : (Option<map<string, Entry<Cached>>>, Result<seq<AnalyticsResult>, QueryError>)
    requires |syms| <= |envs|
    decreases |syms|
  {
    if syms == [] then (entries, Ok([]))
    else
      var (before, done) := CompareFrom(db, entries, ttl, syms[..|syms| - 1], envs);
      if done.Err? then (before, done)
      else
        var (after, r) := AnalyticsOf(db, before, ttl, syms[|syms| - 1], envs[|syms| - 1]);
        match r
        case Err(e) => (after, Err(e))
        case Ok(res) => (after, Ok(done.value + [res]))
  }

  lemma CompareStops(db: Db, entries: Option<map<string, Entry<Cached>>>, ttl: int, syms: seq<string>, envs: seq<Env>,
                     i: nat)
    requires |syms| <= |envs| && i <= |syms|
    requires CompareFrom(db, entries, ttl, syms[..i], envs).1.Err?
    ensures CompareFrom(db, entries, ttl, syms, envs) == CompareFrom(db, entries, ttl, syms[..i], envs)
    decreases |syms|
  {
    if i < |syms| {
      assert syms[..|syms| - 1][..i] == syms[..i];
      CompareStops(db, entries, ttl, syms[..|syms| - 1], envs, i);
    } else {
      assert syms[..i] == syms;
    }
  }

  /** What Compare accepts: 1..max items that normalize to pairwise distinct symbols. */
  predicate ValidList(raw: seq<string>, max: int) {
    1 <= |raw| <= max && (forall i :: 0 <= i < |raw| ==> Normalize(raw[i]).Some?) &&
    (forall i, j :: 0 <= i < j < |raw| ==> Normalize(raw[i]) != Normalize(raw[j]))
  }

  function Normalized(raw: seq<string>): (r: seq<string>)
    requires forall i :: 0 <= i < |raw| ==> Normalize(raw[i]).Some?
    ensures |r| == |raw| && forall i :: 0 <= i < |raw| ==> Normalize(raw[i]) == Some(r[i])
  {
    seq(|raw|, i requires 0 <= i < |raw| => Normalize(raw[i]).value)
  }

  /** Compare: the whole list is checked first, then looked up symbol by symbol. */
  function CompareSpec(db: Db, entries: Option<map<string, Entry<Cached>>>, ttl: int, raw: seq<string>, max: int,
                       envs: seq<Env>)
    : (Option<map<string, Entry<Cached>>>, Result<seq<AnalyticsResult>, QueryError>)
    requires |raw| <= |envs|
  {
    if ValidList(raw, max) then CompareFrom(db, entries, ttl, Normalized(raw), envs) else (entries, Err(InvalidSymbol))
  }

  class QueryService {
    const store: Repository
    const cache: RedisCache?<Cached>

    constructor (store: Repository, cache: RedisCache?<Cached>)
      ensures this.store == store && this.cache == cache
    {
      this.store := store;
      this.cache := cache;
    }

    /** Entries of one endpoint are never found under the keys of the other one. */
    ghost predicate Valid()
      reads this, cache
    {
      cache != null ==> Typed(cache.entries)
    }

    function Entries(): Option<map<string, Entry<Cached>>>
      reads this, cache
    {
      if cache == null then None else Some(cache.entries)
    }

    function Ttl(): int { if cache == null then 0 else cache.ttl }

    method Fetch(kind: Kind, i: nat, sym: string, env: Env) returns (f: Fetched)
      requires i < Reads(kind)
      ensures f == if i in env.broken then Broken else Read(kind, i, ViewOf(store.db, sym))
    {
      f := if i in env.broken then Broken else Read(kind, i, ViewOf(store.db, sym));
    }

    method GetAnalytics(symbol: string, env: Env) returns (r: Result<AnalyticsResult, QueryError>)
      requires Valid()
      modifies if cache == null then {} else {cache}
      ensures (Entries(), r) == AnalyticsOf(store.db, old(Entries()), Ttl(), symbol, env)
      ensures Valid()
    {
      hide Continue, Read, Normalize, ComputeMetrics, ViewOf;
      var normalized := Normalize(symbol);
      if normalized.None? {
        return Err(InvalidSymbol);
      }
      var sym := normalized.value;
      if cache != null {
        ReadThroughTyped(Analytics, store.db, cache.entries, cache.ttl, symbol, env);
        var hit := cache.Get(KeyOf(Analytics, sym), env.now, env.getFails);
        if hit.Some? {
          return Ok(hit.value.analytics);
        }
      }
      ghost var view := ViewOf(store.db, sym);

      var company := Fetch(Analytics, 0, sym, env);
      Unfold(Analytics, sym, view, env.broken, [], company);
      assert [] + [company] == [company];
      if Refusal(0, company).Some? {
        return Err(Refusal(0, company).value);
      }
      var incomes := Fetch(Analytics, 1, sym, env);
      Unfold(Analytics, sym, view, env.broken, [company], incomes);
      assert [company] + [incomes] == [company, incomes];
      if Refusal(1, incomes).Some? {
        return Err(Refusal(1, incomes).value);
      }
      var balances := Fetch(Analytics, 2, sym, env);
      Unfold(Analytics, sym, view, env.broken, [company, incomes], balances);
      assert [company, incomes] + [balances] == [company, incomes, balances];
      if Refusal(2, balances).Some? {
        return Err(Refusal(2, balances).value);
      }
      var latest := Fetch(Analytics, 3, sym, env);
      Unfold(Analytics, sym, view, env.broken, [company, incomes, balances], latest);
      if Refusal(3, latest).Some? {
        return Err(Refusal(3, latest).value);
      }
      ghost var got := [company, incomes, balances, latest];
      assert [company, incomes, balances] + [latest] == got;
      ContinueDone(Analytics, sym, view, env.broken, got);

      var price := latest.price.close;
      var res := AnalyticsResult(sym, price, ComputeMetrics(incomes.incomes, balances.balances[0], price));
      if cache != null {
        cache.Set(KeyOf(Analytics, sym), AnalyticsValue(res), env.now, env.setFails);
      }
      r := Ok(res);
    }

    method GetTechnical(symbol: string, env: Env) returns (r: Result<TechnicalResult, QueryError>)
      requires Valid()
      modifies if cache == null then {} else {cache}
      ensures (Entries(), r) == TechnicalOf(store.db, old(Entries()), Ttl(), symbol, env)
      ensures Valid()
    {
      hide Continue, Read, Normalize, ComputeIndicators, ViewOf;
      var normalized := Normalize(symbol);
      if normalized.None? {
        return Err(InvalidSymbol);
      }
      var sym := normalized.value;
      if cache != null {
        ReadThroughTyped(Technical, store.db, cache.entries, cache.ttl, symbol, env);
        var hit := cache.Get(KeyOf(Technical, sym), env.now, env.getFails);
        if hit.Some? {
          return Ok(hit.value.technical);
        }
      }
      ghost var view := ViewOf(store.db, sym);

      var company := Fetch(Technical, 0, sym, env);
      Unfold(Technical, sym, view, env.broken, [], company);
      assert [] + [company] == [company];
      if Refusal(0, company).Some? {
        return Err(Refusal(0, company).value);
      }
      var history := Fetch(Technical, 1, sym, env);
      Unfold(Technical, sym, view, env.broken, [company], history);
      if Refusal(1, history).Some? {
        return Err(Refusal(1, history).value);
      }
      ghost var got := [company, history];
      assert [company] + [history] == got;
      ContinueDone(Technical, sym, view, env.broken, got);

      var prices := history.prices;
      var values := ComputeValues(prices);
      var res := TechnicalResult(sym, prices[|prices| - 1].date, values);
      if cache != null {
        cache.Set(KeyOf(Technical, sym), TechnicalValue(res), env.now, env.setFails);
      }
      r := Ok(res);
    }

    /** Fills the close and volume series and computes every indicator on its own. */
    method ComputeValues(prices: seq<DailyPrice>) returns (values: Indicators)
      ensures values == ComputeIndicators(Closes(prices), Volumes(prices))
    {
      hide T.DailyReturnSpec, T.SmaSpec, T.EmaSpec, T.RsiSpec, T.VolatilitySpec;
      var closes, volumes := new real[|prices|], new real[|prices|];
      for i := 0 to |prices|
        invariant forall k :: 0 <= k < i ==> closes[k] == prices[k].close && volumes[k] == prices[k].volume as real
      {
        closes[i] := prices[i].close;
        volumes[i] := prices[i].volume as real;
      }
      assert closes[..] == Closes(prices) && volumes[..] == Volumes(prices);
      var dailyReturn := T.DailyReturn(closes[..]);
      var sma20 := T.SMA(closes[..], 20);
      var sma50 := T.SMA(closes[..], 50);
      var sma200 := T.SMA(closes[..], 200);
      var ema20 := T.EMA(closes[..], 20);
      var rsi14 := T.RSI(closes[..], 14);
      var volatility20 := T.Volatility(closes[..], 20);
      var averageVolume20 := T.AverageVolume(volumes[..], 20);
      values := Indicators(F.Last(dailyReturn), F.Last(sma20), F.Last(sma50), F.Last(sma200), F.Last(ema20),
                           F.Last(rsi14), F.Nullable(volatility20), F.Last(averageVolume20));
    }

    /** The first phase of Compare: all symbols are checked before anything is looked up. */
    method ValidateSymbols(raw: seq<string>, max: int) returns (symbols: Option<seq<string>>)
      ensures symbols.Some? <==> ValidList(raw, max)
      ensures symbols.Some? ==> |symbols.value| == |raw|
      ensures symbols.Some? ==> forall i :: 0 <= i < |raw| ==> Normalize(raw[i]) == Some(symbols.value[i])
    {
      hide Normalize;
      var out: seq<string> := [];
      var seen: set<string> := {};
      for i := 0 to |raw|
        invariant |out| == i && (i == 0 || i <= max)
        invariant forall k :: 0 <= k < i ==> Normalize(raw[k]) == Some(out[k])
        invariant forall k :: 0 <= k < i ==> out[k] in seen
        invariant forall s :: s in seen ==> exists k :: 0 <= k < i && out[k] == s
        invariant forall k, m :: 0 <= k < m < i ==> out[k] != out[m]
      {
        var sym := Normalize(raw[i]);
        if sym.None? {
          return None;
        }
        if |out| >= max {
          return None;
        }
        if sym.value in seen {
          return None;
        }
        seen := seen + {sym.value};
        out := out + [sym.value];
      }
      if |out| == 0 {
        return None;
      }
      symbols := Some(out);
    }

    method Compare(raw: seq<string>, max: int, envs: seq<Env>) returns (r: Result<seq<AnalyticsResult>, QueryError>)
      requires Valid() && |envs| >= |raw|
      modifies if cache == null then {} else {cache}
      ensures Valid()
      ensures (Entries(), r) == CompareSpec(store.db, old(Entries()), Ttl(), raw, max, envs)
    {
      hide Normalize, AnalyticsOf, Typed, ValidList;
      var symbols := ValidateSymbols(raw, max);
      if symbols.None? {
        return Err(InvalidSymbol);
      }
      var syms := symbols.value;
      assert syms == Normalized(raw);
      var out := [];
      for i := 0 to |syms|
        invariant Valid()
        invariant (Entries(), Ok(out)) == CompareFrom(store.db, old(Entries()), Ttl(), syms[..i], envs)
      {
        var res := GetAnalytics(syms[i], envs[i]);
        assert syms[..i + 1][..i] == syms[..i];
        if res.Err? {
          CompareStops(store.db, old(Entries()), Ttl(), syms, envs, i + 1);
          return Err(res.error);
        }
        out := out + [res.value];
      }
      assert syms[..|syms|] == syms;
      r := Ok(out);
    }
  }

  lemma ContinueDone(kind: Kind, sym: string, view: Option<View>, broken: set<nat>, got: seq<Fetched>)
    requires Underway(kind, got) && |got| == Reads(kind)
    ensures Gathered(kind, got) && Continue(kind, sym, view, broken, got) == Ok(Conclude(kind, sym, got))
  {
  }
}
