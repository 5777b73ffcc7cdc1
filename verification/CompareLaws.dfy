/** Compare is all or nothing, over any store, with any cache or none, whatever fails on the way. */
module CompareLaws {
  import opened Prelude
  import opened Symbols
  import opened Store
  import opened CacheStore
  import opened Query
  import opened QueryServices

  type Entries = Option<map<string, Entry<Cached>>>

  /** Both caches hold the same entry, or none, under the analytics key of the symbol. */
  ghost predicate AgreeOn(a: Entries, b: Entries, sym: string) {
    var key := Rendered(KeyOf(Analytics, sym));
    && (a.Some? <==> b.Some?)
    && (a.Some? ==> (key in a.value <==> key in b.value))
    && (a.Some? && key in a.value ==> a.value[key] == b.value[key])
  }

  /** A call looks at the entry of its own symbol only, and only at the normalized spelling of it. */
  lemma AnswerDependsOnEntry(db: Db, a: Entries, b: Entries, ttl: int, raw: string, sym: string, env: Env)
    requires Normalize(raw) == Normalize(sym) == Some(sym) && AgreeOn(a, b, sym)
    ensures AnalyticsOf(db, a, ttl, raw, env).1 == AnalyticsOf(db, b, ttl, sym, env).1
  {
    hide Continue, Normalize;
  }

  /** A call leaves the entries of other symbols alone. */
  lemma CallKeepsOthers(db: Db, entries: Entries, ttl: int, sym: string, env: Env, other: string)
    requires Normalize(sym) == Some(sym) && other != sym
    ensures AgreeOn(entries, AnalyticsOf(db, entries, ttl, sym, env).0, other)
  {
    hide Continue, Normalize;
    KeysApart(Analytics, sym, Analytics, other);
  }

  lemma {:induction false} CompareKeepsOthers(db: Db, entries: Entries, ttl: int, syms: seq<string>, envs: seq<Env>,
                                              other: string)
    requires |syms| <= |envs| && other !in syms
    requires forall i :: 0 <= i < |syms| ==> Normalize(syms[i]) == Some(syms[i])
    ensures AgreeOn(entries, CompareFrom(db, entries, ttl, syms, envs).0, other)
    decreases |syms|
  {
    hide AnalyticsOf, Normalize;
    if syms != [] {
      var front, last := syms[..|syms| - 1], syms[|syms| - 1];
      CompareKeepsOthers(db, entries, ttl, front, envs, other);
      CallKeepsOthers(db, CompareFrom(db, entries, ttl, front, envs).0, ttl, last, envs[|syms| - 1], other);
    }
  }

  /** The answer GetAnalytics gives for one symbol of a list, called on its own. */
  function AnswerFor(db: Db, entries: Entries, ttl: int, list: seq<string>, envs: seq<Env>, i: nat)
    : Result<AnalyticsResult, QueryError>
    requires i < |list| <= |envs|
  {
    AnalyticsOf(db, entries, ttl, list[i], envs[i]).1
  }

  /** r is the list of the single answers, or the first error among them. */
  ghost predicate AllOrFirstError(db: Db, entries: Entries, ttl: int, list: seq<string>, envs: seq<Env>,
                                  r: Result<seq<AnalyticsResult>, QueryError>)
    requires |list| <= |envs|
  {
    match r
    case Ok(out) =>
      |out| == |list| && forall i :: 0 <= i < |list| ==> AnswerFor(db, entries, ttl, list, envs, i) == Ok(out[i])
    case Err(e) =>
      exists i :: 0 <= i < |list| && AnswerFor(db, entries, ttl, list, envs, i) == Err(e) &&
                  forall j :: 0 <= j < i ==> AnswerFor(db, entries, ttl, list, envs, j).Ok?
  }

  ghost predicate Distinct(syms: seq<string>) {
    forall i, j :: 0 <= i < j < |syms| ==> syms[i] != syms[j]
  }

  lemma SameForFront(db: Db, entries: Entries, ttl: int, syms: seq<string>, envs: seq<Env>, n: nat)
    requires n <= |syms| <= |envs|
    requires forall i :: 0 <= i < |syms| ==> Normalize(syms[i]) == Some(syms[i])
    ensures forall i :: 0 <= i < n ==>
              AnswerFor(db, entries, ttl, syms[..n], envs, i) == AnswerFor(db, entries, ttl, syms, envs, i)
  {
    hide AnalyticsOf, Normalize;
  }

  /** The first error of the front is the first error of the list. */
  lemma FirstErrorStays(db: Db, entries: Entries, ttl: int, syms: seq<string>, envs: seq<Env>, n: nat, e: QueryError)
    requires n <= |syms| <= |envs| && AllOrFirstError(db, entries, ttl, syms[..n], envs, Err(e))
    requires forall i :: 0 <= i < |syms| ==> Normalize(syms[i]) == Some(syms[i])
    ensures AllOrFirstError(db, entries, ttl, syms, envs, Err(e))
  {
    hide AnswerFor, Normalize;
    SameForFront(db, entries, ttl, syms, envs, n);
    var i :| 0 <= i < n && AnswerFor(db, entries, ttl, syms[..n], envs, i) == Err(e) &&
             forall j :: 0 <= j < i ==> AnswerFor(db, entries, ttl, syms[..n], envs, j).Ok?;
    assert AnswerFor(db, entries, ttl, syms, envs, i) == Err(e);
  }

  /** The lookup after the front answers what it would have answered on its own. */
  lemma LastLookup(db: Db, entries: Entries, ttl: int, syms: seq<string>, envs: seq<Env>, n: nat)
    requires n < |syms| <= |envs| && Distinct(syms)
    requires forall i :: 0 <= i < |syms| ==> Normalize(syms[i]) == Some(syms[i])
    ensures AnalyticsOf(db, CompareFrom(db, entries, ttl, syms[..n], envs).0, ttl, syms[n], envs[n]).1
         == AnswerFor(db, entries, ttl, syms, envs, n)
  {
    hide AnalyticsOf, Normalize, CompareFrom;
    var before := CompareFrom(db, entries, ttl, syms[..n], envs).0;
    CompareKeepsOthers(db, entries, ttl, syms[..n], envs, syms[n]);
    AnswerDependsOnEntry(db, before, entries, ttl, syms[n], syms[n], envs[n]);
  }

  /** Distinctness is what keeps the calls from seeing each other's cache entries. */
  lemma {:induction false} LookupsAreIndependent(db: Db, entries: Entries, ttl: int, syms: seq<string>, envs: seq<Env>)
    requires |syms| <= |envs| && Distinct(syms)
    requires forall i :: 0 <= i < |syms| ==> Normalize(syms[i]) == Some(syms[i])
    ensures AllOrFirstError(db, entries, ttl, syms, envs, CompareFrom(db, entries, ttl, syms, envs).1)
    decreases |syms|
  {
    hide AnalyticsOf, Normalize, AnswerFor;
    if syms != [] {
      var n := |syms| - 1;
      var front := syms[..n];
      LookupsAreIndependent(db, entries, ttl, front, envs);
      match CompareFrom(db, entries, ttl, front, envs).1
      case Err(e) => FirstErrorStays(db, entries, ttl, syms, envs, n, e);
      case Ok(out) =>
        SameForFront(db, entries, ttl, syms, envs, n);
        LastLookup(db, entries, ttl, syms, envs, n);
    }
  }

  lemma SameAnswers(db: Db, entries: Entries, ttl: int, raw: seq<string>, envs: seq<Env>)
    requires |raw| <= |envs| && forall i :: 0 <= i < |raw| ==> Normalize(raw[i]).Some?
    ensures forall i :: 0 <= i < |raw| ==>
              Normalize(Normalized(raw)[i]) == Some(Normalized(raw)[i]) &&
              AnswerFor(db, entries, ttl, raw, envs, i) == AnswerFor(db, entries, ttl, Normalized(raw), envs, i)
  {
    hide Normalize, AnalyticsOf;
    forall i | 0 <= i < |raw|
      ensures Normalize(Normalized(raw)[i]) == Some(Normalized(raw)[i])
      ensures AnswerFor(db, entries, ttl, raw, envs, i) == AnswerFor(db, entries, ttl, Normalized(raw), envs, i)
    {
      NormalizeIdempotent(raw[i]);
      AnswerDependsOnEntry(db, entries, entries, ttl, raw[i], Normalized(raw)[i], envs[i]);
    }
  }

  /**
   For any rows, any cache or none, and any failures: Compare succeeds exactly when the list is valid
   and GetAnalytics, called on its own, succeeds for every item; result i is then the answer for item
   i. A valid list that fails reports the error of its first failing item, an invalid one
   ErrInvalidSymbol.
   */
  lemma CompareAllOrNothing(db: Db, entries: Entries, ttl: int, raw: seq<string>, max: int, envs: seq<Env>)
    requires |raw| <= |envs|
    ensures var r := CompareSpec(db, entries, ttl, raw, max, envs).1;
            && (r.Ok? <==>
                  0 < |raw| <= max && (forall i :: 0 <= i < |raw| ==> Normalize(raw[i]).Some?) &&
                  (forall i, j :: 0 <= i < j < |raw| ==> Normalize(raw[i]) != Normalize(raw[j])) &&
                  forall i :: 0 <= i < |raw| ==> AnswerFor(db, entries, ttl, raw, envs, i).Ok?)
            && (ValidList(raw, max) ==> AllOrFirstError(db, entries, ttl, raw, envs, r))
            && (!ValidList(raw, max) ==> CompareSpec(db, entries, ttl, raw, max, envs) == (entries, Err(InvalidSymbol)))
  {
    hide Normalize, AnalyticsOf, CompareFrom;
    if ValidList(raw, max) {
      var syms := Normalized(raw);
      SameAnswers(db, entries, ttl, raw, envs);
      assert Distinct(syms) by {
        forall i, j | 0 <= i < j < |syms|
          ensures syms[i] != syms[j]
        {
          assert Normalize(raw[i]) != Normalize(raw[j]);
        }
      }
      LookupsAreIndependent(db, entries, ttl, syms, envs);
      var r := CompareFrom(db, entries, ttl, syms, envs).1;
      if r.Err? {
        var i :| 0 <= i < |syms| && AnswerFor(db, entries, ttl, syms, envs, i) == Err(r.error) &&
                 forall j :: 0 <= j < i ==> AnswerFor(db, entries, ttl, syms, envs, j).Ok?;
        assert AnswerFor(db, entries, ttl, raw, envs, i) == Err(r.error);
        assert forall j :: 0 <= j < i ==> AnswerFor(db, entries, ttl, raw, envs, j).Ok?;
      }
    }
  }
}
