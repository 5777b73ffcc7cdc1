/**
 The store and the cache over whole runs of complete calls: which cached answers can be wrong, and
 which ingestion is to blame for each of them.
 */
module Coherence {
  import opened Prelude
  import opened Symbols
  import opened Store
  import opened CacheStore
  import opened Query
  import opened QueryServices
  import CompareLaws
  import Ingestion
  import IngestionLaws

  /** A cached endpoint of a symbol. */
  datatype Page = Page(kind: Kind, symbol: string)

  function KeyFor(p: Page): string {
    Rendered(KeyOf(p.kind, p.symbol))
  }

  function Truth(db: Db, p: Page): Answer {
    Recompute(p.kind, p.symbol, ViewOf(db, p.symbol))
  }

  datatype State = State(db: Db, entries: map<string, Entry<Cached>>)

  /** wired says whether the ingestion service was built with a cache; cmd/ingest builds it without one. */
  datatype Op =
    | Ask(kind: Kind, symbol: string, env: Env)
    | AskMany(raw: seq<string>, max: int, envs: seq<Env>)
    | Ingest(symbol: string, att: Ingestion.Attempt, wired: bool, delAnalyticsFails: bool, delTechnicalFails: bool)
    | Evict(key: string)

  function Report(db: Db, op: Op): Ingestion.Report
    requires op.Ingest?
  {
    Ingestion.IngestSpec(db, op.symbol, op.att).1
  }

  function DbAfter(db: Db, op: Op): Db {
    if op.Ingest? then Ingestion.IngestSpec(db, op.symbol, op.att).0 else db
  }

  /** The pages whose cache entry a call deletes. */
  function Deletes(db: Db, op: Op): set<Page> {
    if op.Ingest? && op.wired && Report(db, op).error.None? then
      (if op.delAnalyticsFails then {} else {Page(Analytics, Normalize(op.symbol).value)}) +
      (if op.delTechnicalFails then {} else {Page(Technical, Normalize(op.symbol).value)})
    else {}
  }

  /** The pages whose rows a call changes; they all belong to the company of the fetched snapshot. */
  ghost predicate Changes(db: Db, op: Op, p: Page) {
    op.Ingest? && op.att.fetched.Some? && p.symbol == op.att.fetched.value.company.symbol &&
    ViewOf(DbAfter(db, op), p.symbol) != ViewOf(db, p.symbol)
  }

  function EntriesAfter(s: State, op: Op, ttl: int): map<string, Entry<Cached>> {
    match op
    case Ask(kind, symbol, env) => ReadThrough(kind, s.db, s.entries, ttl, symbol, env).0
    case AskMany(raw, max, envs) =>
      if |raw| <= |envs| then
        var after := CompareSpec(s.db, Some(s.entries), ttl, raw, max, envs).0;
        if after.Some? then after.value else s.entries
      else s.entries
    case Ingest(_, _, wired, a, t) =>
      if wired && Report(s.db, op).error.None?
      then Ingestion.Invalidated(s.entries, Normalize(op.symbol).value, a, t)
      else s.entries
    case Evict(key) => Deleted(s.entries, {key})
  }

  function Step(s: State, op: Op, ttl: int): State {
    State(DbAfter(s.db, op), EntriesAfter(s, op, ttl))
  }

  function Run(s: State, ops: seq<Op>, ttl: int): State {
    if ops == [] then s else Step(Run(s, ops[..|ops| - 1], ttl), ops[|ops| - 1], ttl)
  }

  // ---------- Staleness ----------

  ghost predicate PageCoherent(db: Db, entries: map<string, Entry<Cached>>, p: Page) {
    KeyFor(p) in entries ==> Truth(db, p) == Ok(entries[KeyFor(p)].value)
  }

  /** The cache holds something else than what the current rows determine. */
  ghost predicate Stale(s: State, p: Page) {
    !PageCoherent(s.db, s.entries, p)
  }

  predicate SameEntry(a: map<string, Entry<Cached>>, b: map<string, Entry<Cached>>, p: Page) {
    KeyFor(p) in a && KeyFor(p) in b && a[KeyFor(p)] == b[KeyFor(p)]
  }

  lemma PagesApart(p: Page, q: Page)
    ensures KeyFor(p) == KeyFor(q) ==> p == q
  {
    KeysApart(p.kind, p.symbol, q.kind, q.symbol);
  }

  /** A failing read can only replace the answer by a store error. */
  lemma {:induction false} OutageOnlyRefuses(kind: Kind, sym: string, view: Option<View>, broken: set<nat>,
                                             got: seq<Fetched>)
    requires Underway(kind, got)
    ensures var answer := Continue(kind, sym, view, broken, got);
            answer == Continue(kind, sym, view, {}, got) || (broken != {} && answer == Err(StoreError))
    decreases Reads(kind) - |got|
  {
    if |got| < Reads(kind) && |got| !in broken {
      var f := Read(kind, |got|, view);
      Unfold(kind, sym, view, broken, got, f);
      Unfold(kind, sym, view, {}, got, f);
      if Refusal(|got|, f).None? {
        OutageOnlyRefuses(kind, sym, view, broken, got + [f]);
      }
    }
  }

  /** Every page ends up coherent or with the entry it had. */
  ghost predicate Harmless(db: Db, before: map<string, Entry<Cached>>, after: map<string, Entry<Cached>>) {
    forall p :: PageCoherent(db, after, p) || SameEntry(before, after, p)
  }

  /** One cached call: what it answers for a page that can be trusted, and what it leaves of the cache. */
  lemma AskOnce(db: Db, entries: map<string, Entry<Cached>>, ttl: int, kind: Kind, symbol: string, env: Env)
    requires Normalize(symbol).Some?
    ensures var page := Page(kind, Normalize(symbol).value);
            var (after, answer) := ReadThrough(kind, db, entries, ttl, symbol, env);
            && Harmless(db, entries, after)
            && (PageCoherent(db, entries, page) || !Live(entries[KeyFor(page)], env.now) ==>
                  answer == Truth(db, page) || (env.broken != {} && answer == Err(StoreError)))
  {
    hide Continue, Normalize;
    var sym := Normalize(symbol).value;
    var page := Page(kind, sym);
    var (after, answer) := ReadThrough(kind, db, entries, ttl, symbol, env);
    OutageOnlyRefuses(kind, sym, ViewOf(db, sym), env.broken, []);
    forall p
      ensures PageCoherent(db, after, p) || SameEntry(entries, after, p)
    {
      PagesApart(p, page);
    }
  }

  lemma HarmlessTwice(db: Db, a: map<string, Entry<Cached>>, b: map<string, Entry<Cached>>,
                      c: map<string, Entry<Cached>>)
    requires Harmless(db, a, b) && Harmless(db, b, c)
    ensures Harmless(db, a, c)
  {
    hide Truth;
    forall p
      ensures PageCoherent(db, c, p) || SameEntry(a, c, p)
    {
      assert PageCoherent(db, b, p) || SameEntry(a, b, p);
      assert PageCoherent(db, c, p) || SameEntry(b, c, p);
    }
  }

  lemma HarmlessNothing(db: Db, a: map<string, Entry<Cached>>)
    ensures Harmless(db, a, a)
  {
    hide Truth;
  }

  lemma {:induction false} CompareIsHarmless(db: Db, entries: map<string, Entry<Cached>>, ttl: int, syms: seq<string>,
                                             envs: seq<Env>)
    requires |syms| <= |envs|
    requires forall i :: 0 <= i < |syms| ==> Normalize(syms[i]) == Some(syms[i])
    ensures var after := CompareFrom(db, Some(entries), ttl, syms, envs).0;
            after.Some? && Harmless(db, entries, after.value)
    decreases |syms|
  {
    hide ReadThrough, PageCoherent, SameEntry, Normalize, Harmless;
    if syms == [] {
      HarmlessNothing(db, entries);
    } else {
      CompareIsHarmless(db, entries, ttl, syms[..|syms| - 1], envs);
      var (before, done) := CompareFrom(db, Some(entries), ttl, syms[..|syms| - 1], envs);
      if done.Ok? {
        AskOnce(db, before.value, ttl, Analytics, syms[|syms| - 1], envs[|syms| - 1]);
        HarmlessTwice(db, entries, before.value, CompareFrom(db, Some(entries), ttl, syms, envs).0.value);
      }
    }
  }

  lemma AskManyIsHarmless(db: Db, entries: map<string, Entry<Cached>>, ttl: int, raw: seq<string>, max: int,
                          envs: seq<Env>)
    requires |raw| <= |envs|
    ensures var after := CompareSpec(db, Some(entries), ttl, raw, max, envs).0;
            after.Some? && Harmless(db, entries, after.value)
  {
    hide CompareFrom, Normalize, Harmless;
    if ValidList(raw, max) {
      CompareLaws.SameAnswers(db, Some(entries), ttl, raw, envs);
      CompareIsHarmless(db, entries, ttl, Normalized(raw), envs);
    } else {
      HarmlessNothing(db, entries);
    }
  }

  lemma IngestKeepsSound(db: Db, op: Op)
    requires IngestionLaws.Sound(db)
    ensures IngestionLaws.Sound(DbAfter(db, op))
  {
    if op.Ingest? {
      var call := IngestionLaws.Call(op.symbol, op.att);
      assert [call][..0] == [];
      assert IngestionLaws.After(db, [call]) == DbAfter(db, op);
      IngestionLaws.EveryRunIsSound(db, [call]);
    }
  }

  /** The deletions of a successful call remove exactly the entries of the pages it deletes. */
  lemma InvalidatedEntries(s: State, op: Op, ttl: int, p: Page)
    requires op.Ingest?
    ensures var after := Step(s, op, ttl).entries;
            && (p in Deletes(s.db, op) ==> KeyFor(p) !in after)
            && (p !in Deletes(s.db, op) ==> (KeyFor(p) in after <==> KeyFor(p) in s.entries))
            && (KeyFor(p) in after ==> KeyFor(p) in s.entries && after[KeyFor(p)] == s.entries[KeyFor(p)])
  {
    hide Normalize;
    if op.wired && Report(s.db, op).error.None? {
      var sym := Normalize(op.symbol).value;
      PagesApart(p, Page(Analytics, sym));
      PagesApart(p, Page(Technical, sym));
    }
  }

  /** Rows of other pages stay what they were, so their truth does too. */
  lemma UnchangedTruth(db: Db, op: Op, p: Page)
    requires Consistent(db) && !Changes(db, op, p)
    ensures Truth(DbAfter(db, op), p) == Truth(db, p)
  {
    hide Recompute, Ingestion.IngestSpec, ViewOf, IngestionLaws.Sound;
    if op.Ingest? && (op.att.fetched.None? || p.symbol != op.att.fetched.value.company.symbol) {
      IngestionLaws.OtherSymbolsUntouched(db, op.symbol, op.att, p.symbol);
    }
  }

  /**
   A stale page was stale before with the very same entry, or it became stale just now: in a call that
   changed its rows and did not delete its entry. Every other write of an entry writes the truth.
   */
  lemma BecomesStaleOnly(s: State, op: Op, ttl: int, p: Page)
    requires IngestionLaws.Sound(s.db) && Stale(Step(s, op, ttl), p)
    ensures SameEntry(s.entries, Step(s, op, ttl).entries, p)
    ensures Stale(s, p) || (Changes(s.db, op, p) && p !in Deletes(s.db, op))
  {
    hide ReadThrough, CompareSpec, Truth, Normalize;
    match op
    case Ask(kind, symbol, env) =>
      if Normalize(symbol).Some? {
        AskOnce(s.db, s.entries, ttl, kind, symbol, env);
      } else {
        AskInvalid(s.db, s.entries, ttl, kind, symbol, env);
      }
    case AskMany(raw, max, envs) =>
      if |raw| <= |envs| {
        AskManyIsHarmless(s.db, s.entries, ttl, raw, max, envs);
      }
    case Ingest(_, _, _, _, _) =>
      InvalidatedEntries(s, op, ttl, p);
      if !Changes(s.db, op, p) {
        UnchangedTruth(s.db, op, p);
      }
    case Evict(key) =>
  }

  lemma AskInvalid(db: Db, entries: map<string, Entry<Cached>>, ttl: int, kind: Kind, symbol: string, env: Env)
    requires Normalize(symbol).None?
    ensures ReadThrough(kind, db, entries, ttl, symbol, env) == (entries, Err(InvalidSymbol))
  {
  }

  /** A successful call with both deletions leaves neither page of its symbol stale, whatever they were. */
  lemma SuccessCleans(s: State, op: Op, ttl: int, p: Page)
    requires op.Ingest? && op.wired && Report(s.db, op).error.None? && !op.delAnalyticsFails && !op.delTechnicalFails
    requires Normalize(op.symbol) == Some(p.symbol)
    ensures !Stale(Step(s, op, ttl), p)
  {
    hide EntriesAfter, Truth, Normalize;
    match p.kind {
      case Analytics => assert p == Page(Analytics, p.symbol);
      case Technical => assert p == Page(Technical, p.symbol);
    }
    InvalidatedEntries(s, op, ttl, p);
  }

  /** The call deletes the entry of the page, as part of a purge or by eviction. */
  predicate Removes(db: Db, op: Op, p: Page) {
    p in Deletes(db, op) || op == Evict(KeyFor(p))
  }

  lemma RemovedEntries(s: State, op: Op, ttl: int, p: Page)
    requires Removes(s.db, op, p)
    ensures KeyFor(p) !in Step(s, op, ttl).entries
  {
    if op.Ingest? {
      hide EntriesAfter, Deletes;
      InvalidatedEntries(s, op, ttl, p);
    }
  }

  // ---------- Main results ----------

  /** The state after the first i calls of a run that starts with an empty cache. */
  function At(db: Db, ops: seq<Op>, ttl: int, i: nat): State
    requires i <= |ops|
  {
    Run(State(db, map[]), ops[..i], ttl)
  }

  /**
   Call number i is an ingestion that changed the rows of the page and did not delete its entry, and
   that entry has stayed in the cache, unwritten, through the first n calls.
   */
  ghost predicate LeftBehind(db: Db, ops: seq<Op>, ttl: int, p: Page, i: nat, n: nat)
    requires n <= |ops|
  {
    && i < n
    && Changes(At(db, ops, ttl, i).db, ops[i], p) && p !in Deletes(At(db, ops, ttl, i).db, ops[i])
    && forall j :: i <= j <= n ==> SameEntry(At(db, ops, ttl, i).entries, At(db, ops, ttl, j).entries, p)
  }

  lemma NextState(db: Db, ops: seq<Op>, ttl: int, i: nat)
    requires i < |ops|
    ensures At(db, ops, ttl, i + 1) == Step(At(db, ops, ttl, i), ops[i], ttl)
  {
    assert ops[..i + 1][..i] == ops[..i];
  }

  lemma {:induction false} EveryRunIsSound(db: Db, ops: seq<Op>, ttl: int, n: nat)
    requires IngestionLaws.Sound(db) && n <= |ops|
    ensures IngestionLaws.Sound(At(db, ops, ttl, n).db)
    decreases n
  {
    hide Step, DbAfter, IngestionLaws.Sound;
    if n > 0 {
      EveryRunIsSound(db, ops, ttl, n - 1);
      NextState(db, ops, ttl, n - 1);
      IngestKeepsSound(At(db, ops, ttl, n - 1).db, ops[n - 1]);
      StepDb(At(db, ops, ttl, n - 1), ops[n - 1], ttl);
    }
  }

  lemma StepDb(s: State, op: Op, ttl: int)
    ensures Step(s, op, ttl).db == DbAfter(s.db, op)
  {
  }

  /**
   In every run of queries, comparisons, ingestions and evictions, every entry that differs from the
   current truth was left behind by some ingestion, and has not been written since.
   */
  lemma {:induction false} EveryRunIsCoherent(db: Db, ops: seq<Op>, ttl: int, p: Page, n: nat)
    requires IngestionLaws.Sound(db) && n <= |ops| && Stale(At(db, ops, ttl, n), p)
    ensures exists i :: LeftBehind(db, ops, ttl, p, i, n)
    decreases n
  {
    hide Step, Stale, Changes, Deletes, At;
    if n == 0 {
      EmptyIsNotStale(db, ops, ttl, p);
    } else {
      var s := At(db, ops, ttl, n - 1);
      NextState(db, ops, ttl, n - 1);
      EveryRunIsSound(db, ops, ttl, n - 1);
      BecomesStaleOnly(s, ops[n - 1], ttl, p);
      if Stale(s, p) {
        EveryRunIsCoherent(db, ops, ttl, p, n - 1);
        var i :| LeftBehind(db, ops, ttl, p, i, n - 1);
        assert LeftBehind(db, ops, ttl, p, i, n);
      } else {
        assert LeftBehind(db, ops, ttl, p, n - 1, n);
      }
    }
  }

  lemma EmptyIsNotStale(db: Db, ops: seq<Op>, ttl: int, p: Page)
    ensures !Stale(At(db, ops, ttl, 0), p)
  {
  }

  /**
   After every run a call answers what the current rows determine, or a store error if one of its own
   reads fails, unless the page's entry was left behind by an ingestion and has not expired yet.
   */
  lemma CleanPagesAnswerTruth(db: Db, ops: seq<Op>, ttl: int, kind: Kind, symbol: string, env: Env)
    requires IngestionLaws.Sound(db) && Normalize(symbol).Some?
    ensures var s, page := At(db, ops, ttl, |ops|), Page(kind, Normalize(symbol).value);
            var answer := ReadThrough(kind, s.db, s.entries, ttl, symbol, env).1;
            || answer == Truth(s.db, page)
            || (env.broken != {} && answer == Err(StoreError))
            || (KeyFor(page) in s.entries && Live(s.entries[KeyFor(page)], env.now) &&
                exists i :: LeftBehind(db, ops, ttl, page, i, |ops|))
  {
    hide ReadThrough, Truth, Normalize, At, LeftBehind, Live;
    var s, page := At(db, ops, ttl, |ops|), Page(kind, Normalize(symbol).value);
    AskOnce(s.db, s.entries, ttl, kind, symbol, env);
    if Stale(s, page) {
      EveryRunIsCoherent(db, ops, ttl, page, |ops|);
    }
  }

  /**
   Purges and evictions restore coherence: if call i removes the entry of a page, only an ingestion after
   it can be to blame for a later stale entry.
   */
  lemma StaleOnlySinceRemoval(db: Db, ops: seq<Op>, ttl: int, p: Page, i: nat, n: nat)
    requires IngestionLaws.Sound(db) && i < n <= |ops|
    requires Removes(At(db, ops, ttl, i).db, ops[i], p) && Stale(At(db, ops, ttl, n), p)
    ensures exists k: nat :: i < k && LeftBehind(db, ops, ttl, p, k, n)
  {
    hide Step, Stale, Changes, Deletes, At, Removes;
    EveryRunIsCoherent(db, ops, ttl, p, n);
    var k: nat :| LeftBehind(db, ops, ttl, p, k, n);
    NextState(db, ops, ttl, i);
    RemovedEntries(At(db, ops, ttl, i), ops[i], ttl, p);
  }

  /**
   The next answer after an ingestion, for a page with a live and correct entry: it is right if and
   only if the call deleted the entry or the new rows determine the same answer. Staleness states
   conditions on the rows for the second case.
   */
  lemma AnswerAfterIngest(s: State, op: Op, ttl: int, p: Page, env: Env)
    requires op.Ingest? && !Stale(s, p) && IsValidSymbol(p.symbol)
    requires KeyFor(p) in s.entries && Live(s.entries[KeyFor(p)], env.now)
    requires !env.getFails && env.broken == {}
    ensures var t := Step(s, op, ttl);
            ReadThrough(p.kind, t.db, t.entries, ttl, p.symbol, env).1 == Truth(t.db, p)
            <==> p in Deletes(s.db, op) || Truth(t.db, p) == Truth(s.db, p)
    ensures var t := Step(s, op, ttl);
            p !in Deletes(s.db, op) ==> ReadThrough(p.kind, t.db, t.entries, ttl, p.symbol, env).1 == Truth(s.db, p)
  {
    hide Continue, Step, Deletes, Normalize;
    var t := Step(s, op, ttl);
    InvalidatedEntries(s, op, ttl, p);
    NormalizeIdempotent(p.symbol);
    AnswerOfKind(p.kind, p.symbol, ViewOf(s.db, p.symbol), {}, []);
  }

  /** Ingesting for one company changes neither the truth nor the answers of any other symbol. */
  lemma OtherAnswersUntouched(s: State, op: Op, ttl: int, kind: Kind, other: string, env: Env)
    requires op.Ingest? && Consistent(s.db) && Normalize(other).Some? && Normalize(other) != Normalize(op.symbol)
    requires op.att.fetched.Some? ==> Normalize(other) != Some(op.att.fetched.value.company.symbol)
    ensures var t := Step(s, op, ttl);
            ReadThrough(kind, t.db, t.entries, ttl, other, env).1 ==
            ReadThrough(kind, s.db, s.entries, ttl, other, env).1
  {
    hide Continue, Step, Normalize, Ingestion.IngestSpec, ViewOf, Deletes, Recompute;
    var p := Page(kind, Normalize(other).value);
    NotDeleted(s.db, op, p);
    InvalidatedEntries(s, op, ttl, p);
    IngestionLaws.OtherSymbolsUntouched(s.db, op.symbol, op.att, p.symbol);
    assert Step(s, op, ttl).db == DbAfter(s.db, op) by { StepDb(s, op, ttl); }
  }

  lemma NotDeleted(db: Db, op: Op, p: Page)
    requires op.Ingest? && Normalize(op.symbol) != Some(p.symbol)
    ensures p !in Deletes(db, op)
  {
    hide Normalize;
  }

  /** Over pages that are not stale, with working reads, Compare answers the truth of every symbol or of none. */
  lemma CompareAnswersTruth(s: State, raw: seq<string>, max: int, envs: seq<Env>, ttl: int)
    requires ValidList(raw, max) && |raw| <= |envs|
    requires forall i :: 0 <= i < |raw| ==> envs[i].broken == {} && !Stale(s, Page(Analytics, Normalize(raw[i]).value))
    ensures var r := CompareSpec(s.db, Some(s.entries), ttl, raw, max, envs).1;
            && (r.Ok? <==> forall i :: 0 <= i < |raw| ==> Truth(s.db, Page(Analytics, Normalize(raw[i]).value)).Ok?)
            && (r.Ok? ==> |r.value| == |raw|)
            && (r.Ok? ==> forall i :: 0 <= i < |raw| ==>
                  Truth(s.db, Page(Analytics, Normalize(raw[i]).value)) == Ok(AnalyticsValue(r.value[i])))
  {
    hide CompareSpec, Truth, Normalize, ReadThrough;
    CompareLaws.CompareAllOrNothing(s.db, Some(s.entries), ttl, raw, max, envs);
    forall i | 0 <= i < |raw|
      ensures var truth := Truth(s.db, Page(Analytics, Normalize(raw[i]).value));
              var answer := CompareLaws.AnswerFor(s.db, Some(s.entries), ttl, raw, envs, i);
              (answer.Ok? <==> truth.Ok?) && (answer.Ok? ==> truth == Ok(AnalyticsValue(answer.value)))
    {
      AskOnce(s.db, s.entries, ttl, Analytics, raw[i], envs[i]);
      AnswersMatch(Analytics, s.db, s.entries, ttl, raw[i], envs[i]);
    }
  }
}
