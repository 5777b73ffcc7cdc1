/**
 The same store and cache when calls overlap: every cache GET, SET and DEL, every store read and
 every store write is a step of its own, and a clock runs between them. Writers are arbitrary:
 a write step may replace the tables by any others, and a deletion may fail.
 */
module Interleaving {
  import opened Prelude
  import opened Symbols
  import opened Store
  import opened CacheStore
  import opened Query
  import opened QueryServices

  datatype Phase = Start | Reading(got: seq<Fetched>) | Storing(value: Cached) | Done(answer: Answer)

  /** A call in flight, on an already normalized symbol; born is the step it began at. */
  datatype Reader = Reader(kind: Kind, symbol: string, born: nat, phase: Phase)

  datatype World = World(step: nat, now: int, db: Db, entries: map<string, Entry<Cached>>, readers: map<nat, Reader>)

  datatype Action =
    | Tick(elapsed: nat)
    | Begin(pid: nat, kind: Kind, symbol: string)
    | CacheGet(pid: nat, fails: bool)
    | StoreRead(pid: nat, fails: bool)
    | CacheSet(pid: nat, fails: bool)
    | StoreWrite(db: Db)
    | CacheDel(key: string, fails: bool)

  /** After a GET a call is answered by a hit, or starts reading the store. */
  function AfterGet(r: Reader, entries: map<string, Entry<Cached>>, now: int, fails: bool): Phase {
    var hit := if fails then None else Lookup(entries, KeyOf(r.kind, r.symbol), now);
    if hit.Some? && OfKind(r.kind, hit.value) then Done(Ok(hit.value)) else Reading([])
  }

  /** After one more store read a call is refused, complete, or reads on. */
  function AfterRead(r: Reader, view: Option<View>, fails: bool): Phase
    requires r.phase.Reading?
  {
    var got := r.phase.got;
    if |got| >= Reads(r.kind) then r.phase
    else
      var f := if fails then Broken else Read(r.kind, |got|, view);
      match Refusal(|got|, f)
      case Some(e) => Done(Err(e))
      case None =>
        if Gathered(r.kind, got + [f]) then Storing(Conclude(r.kind, r.symbol, got + [f])) else Reading(got + [f])
  }

  predicate Enabled(w: World, a: Action) {
    match a
    case Begin(pid, _, symbol) => pid !in w.readers && IsValidSymbol(symbol)
    case CacheGet(pid, _) => pid in w.readers && w.readers[pid].phase.Start?
    case StoreRead(pid, _) => pid in w.readers && w.readers[pid].phase.Reading?
    case CacheSet(pid, _) => pid in w.readers && w.readers[pid].phase.Storing?
    case _ => true
  }

  function Move(w: World, pid: nat, phase: Phase): map<nat, Reader>
    requires pid in w.readers
  {
    w.readers[pid := w.readers[pid].(phase := phase)]
  }

  /** One step; an action that is not enabled passes the turn. */
  function Apply(w: World, a: Action, ttl: int): World {
    if !Enabled(w, a) then w.(step := w.step + 1)
    else
      var w' := w.(step := w.step + 1);
      match a
      case Tick(d) => w'.(now := w.now + d)
      case Begin(pid, kind, symbol) => w'.(readers := w.readers[pid := Reader(kind, symbol, w.step, Start)])
      case CacheGet(pid, fails) => w'.(readers := Move(w, pid, AfterGet(w.readers[pid], w.entries, w.now, fails)))
      case StoreRead(pid, fails) =>
        w'.(readers := Move(w, pid, AfterRead(w.readers[pid], ViewOf(w.db, w.readers[pid].symbol), fails)))
      case CacheSet(pid, fails) =>
        var r := w.readers[pid];
        w'.(readers := Move(w, pid, Done(Ok(r.phase.value))),
            entries := if fails then w.entries
                       else Stored(w.entries, KeyOf(r.kind, r.symbol), r.phase.value, w.now, ttl))
      case StoreWrite(db) => w'.(db := db)
      case CacheDel(key, fails) => w'.(entries := if fails then w.entries else Deleted(w.entries, {key}))
  }

  /** The world after the first i of the actions, from any world. */
  function From(w: World, acts: seq<Action>, ttl: int, i: nat): World
    requires i <= |acts|
  {
    if i == 0 then w else Apply(From(w, acts, ttl, i - 1), acts[i - 1], ttl)
  }

  /** The same for a run that starts with nothing cached and nobody reading. */
  function At(db: Db, now: int, acts: seq<Action>, ttl: int, i: nat): World
    requires i <= |acts|
  {
    From(World(0, now, db, map[], map[]), acts, ttl, i)
  }

  // ---------- Invariants ----------

  /** No entry outlives now + ttl, if there is a TTL, and nobody was born in the future. */
  ghost predicate Bounded(w: World, ttl: int) {
    && (ttl > 0 ==>
          forall k :: k in w.entries ==> w.entries[k].expires.Some? && w.entries[k].expires.value <= w.now + ttl)
    && (forall pid :: pid in w.readers ==> w.readers[pid].born < w.step)
  }

  /** What a call has gathered is what the rows `view` say. */
  ghost predicate FaithfulReader(r: Reader, view: Option<View>) {
    match r.phase
    case Reading(got) =>
      Underway(r.kind, got) && |got| < Reads(r.kind) &&
      Continue(r.kind, r.symbol, view, {}, got) == Recompute(r.kind, r.symbol, view)
    case Storing(v) => Recompute(r.kind, r.symbol, view) == Ok(v)
    case _ => true
  }

  ghost predicate Faithful(w: World, sym: string, view: Option<View>, since: nat) {
    forall pid :: pid in w.readers && w.readers[pid].symbol == sym && w.readers[pid].born >= since ==>
      FaithfulReader(w.readers[pid], view)
  }

  /** No call on the symbol from before step `since` is still in flight. */
  ghost predicate Drained(w: World, sym: string, since: nat) {
    forall pid :: pid in w.readers && w.readers[pid].symbol == sym && !w.readers[pid].phase.Done? ==>
      w.readers[pid].born >= since
  }

  /** The entry of the page is absent, right, or expires by the deadline. */
  ghost predicate Settling(w: World, kind: Kind, sym: string, view: Option<View>, deadline: int) {
    Rendered(KeyOf(kind, sym)) in w.entries ==>
      var e := w.entries[Rendered(KeyOf(kind, sym))];
      Recompute(kind, sym, view) == Ok(e.value) || (e.expires.Some? && e.expires.value <= deadline)
  }

  /** Calls begun at or after step `since` were answered by the truth, or refused by a failing read. */
  ghost predicate Right(w: World, sym: string, view: Option<View>, since: nat) {
    forall pid :: pid in w.readers && w.readers[pid].symbol == sym && w.readers[pid].born >= since
                  && w.readers[pid].phase.Done? ==>
      w.readers[pid].phase.answer == Recompute(w.readers[pid].kind, sym, view) ||
      w.readers[pid].phase.answer == Err(StoreError)
  }

  /** What a call holds fits its endpoint: the answers of its first reads, or a result to store. */
  ghost predicate SaneReader(r: Reader) {
    match r.phase
    case Reading(got) => Underway(r.kind, got) && |got| < Reads(r.kind)
    case Storing(v) => OfKind(r.kind, v)
    case _ => true
  }

  ghost predicate Sane(w: World) {
    forall pid :: pid in w.readers ==> w.readers[pid].born < w.step && SaneReader(w.readers[pid])
  }

  /** If its remaining reads succeed, the call stores something else than what the rows `view` say. */
  ghost predicate Doomed(r: Reader, view: Option<View>) {
    match r.phase
    case Reading(got) =>
      Underway(r.kind, got) && |got| < Reads(r.kind) && Continue(r.kind, r.symbol, view, {}, got).Ok? &&
      Continue(r.kind, r.symbol, view, {}, got) != Recompute(r.kind, r.symbol, view)
    case Storing(v) => Recompute(r.kind, r.symbol, view) != Ok(v)
    case _ => false
  }

  /** A GET of the page would be answered by something else than what the rows say. */
  ghost predicate Wrong(w: World, kind: Kind, sym: string, view: Option<View>) {
    var k := Rendered(KeyOf(kind, sym));
    k in w.entries && Live(w.entries[k], w.now) && OfKind(kind, w.entries[k].value) &&
    Recompute(kind, sym, view) != Ok(w.entries[k].value)
  }

  /** No live entry of the symbol is wrong, and no call in flight is about to store a wrong one. */
  ghost predicate Clean(w: World, sym: string, view: Option<View>) {
    && !Wrong(w, Analytics, sym, view) && !Wrong(w, Technical, sym, view)
    && forall pid :: pid in w.readers && w.readers[pid].symbol == sym ==> !Doomed(w.readers[pid], view)
  }

  // ---------- Steps keep them ----------

  lemma StepBounded(w: World, a: Action, ttl: int)
    requires Bounded(w, ttl)
    ensures Bounded(Apply(w, a, ttl), ttl)
  {
    hide AfterRead, AfterGet;
  }

  /** A read of the very rows a call is faithful to keeps it faithful, whatever comes out of it. */
  lemma ReadKeepsFaith(r: Reader, view: Option<View>, fails: bool)
    requires r.phase.Reading? && FaithfulReader(r, view)
    ensures FaithfulReader(r.(phase := AfterRead(r, view, fails)), view)
    ensures AfterRead(r, view, fails).Done? ==>
              AfterRead(r, view, fails).answer == Recompute(r.kind, r.symbol, view) ||
              AfterRead(r, view, fails).answer == Err(StoreError)
  {
    hide Continue, Read, Conclude;
    var got := r.phase.got;
    if !fails {
      var f := Read(r.kind, |got|, view);
      Unfold(r.kind, r.symbol, view, {}, got, f);
      if Refusal(|got|, f).None? && |got| + 1 == Reads(r.kind) {
        ContinueDone(r.kind, r.symbol, view, {}, got + [f]);
      }
    }
  }

  lemma StepFaithful(w: World, a: Action, ttl: int, sym: string, view: Option<View>, since: nat)
    requires Faithful(w, sym, view, since) && ViewOf(w.db, sym) == view
    ensures Faithful(Apply(w, a, ttl), sym, view, since)
  {
    hide AfterRead, ViewOf;
    var w' := Apply(w, a, ttl);
    forall pid | pid in w'.readers && w'.readers[pid].symbol == sym && w'.readers[pid].born >= since
      ensures FaithfulReader(w'.readers[pid], view)
    {
      if a.StoreRead? && a.pid == pid && Enabled(w, a) {
        ReadKeepsFaith(w.readers[pid], view, a.fails);
      } else if a.CacheGet? && a.pid == pid && Enabled(w, a) {
        assert w'.readers[pid].phase == AfterGet(w.readers[pid], w.entries, w.now, a.fails);
      } else if pid in w.readers {
        assert FaithfulReader(w.readers[pid], view);
      }
    }
  }

  lemma StepDrained(w: World, a: Action, ttl: int, sym: string, since: nat)
    requires Drained(w, sym, since) && since <= w.step
    ensures Drained(Apply(w, a, ttl), sym, since)
  {
    hide AfterRead, AfterGet, ViewOf;
  }

  lemma StepSettling(w: World, a: Action, ttl: int, kind: Kind, sym: string, view: Option<View>, since: nat,
                     deadline: int)
    requires Settling(w, kind, sym, view, deadline) && Faithful(w, sym, view, since) && Drained(w, sym, since)
    ensures Settling(Apply(w, a, ttl), kind, sym, view, deadline)
  {
    hide AfterRead, AfterGet, ViewOf, Recompute;
    if a.CacheSet? && Enabled(w, a) && !a.fails {
      var r := w.readers[a.pid];
      KeysApart(kind, sym, r.kind, r.symbol);
      assert r.symbol == sym ==> FaithfulReader(r, view);
    }
  }

  /** A read of the current rows neither dooms a call nor upsets what it holds. */
  lemma ReadKeepsSane(r: Reader, view: Option<View>, fails: bool)
    requires r.phase.Reading? && SaneReader(r)
    ensures SaneReader(r.(phase := AfterRead(r, view, fails)))
    ensures Doomed(r.(phase := AfterRead(r, view, fails)), view) ==> Doomed(r, view)
    ensures !fails && Doomed(r, view) ==>
              Doomed(r.(phase := AfterRead(r, view, fails)), view) &&
              (AfterRead(r, view, fails).Reading? ==> |AfterRead(r, view, fails).got| == |r.phase.got| + 1)
  {
    hide Continue, Read, Conclude;
    var got := r.phase.got;
    if !fails {
      var f := Read(r.kind, |got|, view);
      Unfold(r.kind, r.symbol, view, {}, got, f);
      if Refusal(|got|, f).None? && |got| + 1 == Reads(r.kind) {
        ContinueDone(r.kind, r.symbol, view, {}, got + [f]);
      }
    }
  }

  lemma StepSane(w: World, a: Action, ttl: int)
    requires Sane(w)
    ensures Sane(Apply(w, a, ttl))
  {
    hide AfterRead, ViewOf;
    var w' := Apply(w, a, ttl);
    forall pid | pid in w'.readers
      ensures w'.readers[pid].born < w'.step && SaneReader(w'.readers[pid])
    {
      if a.StoreRead? && a.pid == pid && Enabled(w, a) {
        ReadKeepsSane(w.readers[pid], ViewOf(w.db, w.readers[pid].symbol), a.fails);
      } else if pid in w.readers {
        assert SaneReader(w.readers[pid]);
      }
    }
  }

  /** While the rows stay, nothing wrong is stored: what is stored comes from calls that are not doomed. */
  lemma StepClean(w: World, a: Action, ttl: int, sym: string, view: Option<View>)
    requires Sane(w) && Clean(w, sym, view) && ViewOf(w.db, sym) == view
    ensures Clean(Apply(w, a, ttl), sym, view)
  {
    hide Recompute, ViewOf, Continue, AfterRead, Doomed;
    var w' := Apply(w, a, ttl);
    StepNotWrong(w, a, ttl, Analytics, sym, view);
    StepNotWrong(w, a, ttl, Technical, sym, view);
    forall pid | pid in w'.readers && w'.readers[pid].symbol == sym
      ensures !Doomed(w'.readers[pid], view)
    {
      if a.StoreRead? && a.pid == pid && Enabled(w, a) {
        ReadKeepsSane(w.readers[pid], view, a.fails);
      } else if a.CacheGet? && a.pid == pid && Enabled(w, a) {
        NotDoomedAtStart(w'.readers[pid], view);
      } else if !(pid in w.readers && w'.readers[pid] == w.readers[pid]) {
        NotDoomedAtStart(w'.readers[pid], view);
      }
    }
  }

  lemma NotDoomedAtStart(r: Reader, view: Option<View>)
    requires r.phase.Start? || r.phase.Done? || r.phase == Reading([])
    ensures !Doomed(r, view)
  {
  }

  lemma StepNotWrong(w: World, a: Action, ttl: int, kind: Kind, sym: string, view: Option<View>)
    requires Clean(w, sym, view)
    ensures !Wrong(Apply(w, a, ttl), kind, sym, view)
  {
    hide Recompute, ViewOf, Continue, AfterRead, AfterGet;
    assert !Wrong(w, kind, sym, view);
    if a.CacheSet? && Enabled(w, a) && !a.fails {
      var r := w.readers[a.pid];
      KeysApart(kind, sym, r.kind, r.symbol);
      assert r.symbol == sym ==> !Doomed(r, view);
    }
  }

  /** In a clean world a hit can only be the truth. */
  lemma StepRight(w: World, a: Action, ttl: int, sym: string, view: Option<View>, from: nat)
    requires Clean(w, sym, view) && Faithful(w, sym, view, from)
    requires ViewOf(w.db, sym) == view && Right(w, sym, view, from)
    ensures Right(Apply(w, a, ttl), sym, view, from)
  {
    hide AfterRead, ViewOf, Recompute;
    var w' := Apply(w, a, ttl);
    forall pid | pid in w'.readers && w'.readers[pid].symbol == sym && w'.readers[pid].born >= from
                 && w'.readers[pid].phase.Done?
      ensures w'.readers[pid].phase.answer == Recompute(w'.readers[pid].kind, sym, view)
           || w'.readers[pid].phase.answer == Err(StoreError)
    {
      if a.StoreRead? && a.pid == pid && Enabled(w, a) {
        ReadKeepsFaith(w.readers[pid], view, a.fails);
      } else if pid in w.readers {
        assert FaithfulReader(w.readers[pid], view);
        assert w.readers[pid].kind.Analytics? || w.readers[pid].kind.Technical?;
      }
    }
  }

  // ---------- From any world on ----------

  /** The rows of the symbol are `view` throughout. */
  ghost predicate KeepsRows(w: World, acts: seq<Action>, ttl: int, sym: string, view: Option<View>) {
    forall i :: 0 <= i <= |acts| ==> ViewOf(From(w, acts, ttl, i).db, sym) == view
  }

  /** Every continuation that leaves the rows alone answers every call begun from now on correctly. */
  ghost predicate AlwaysRight(w: World, ttl: int, sym: string, view: Option<View>) {
    forall acts :: KeepsRows(w, acts, ttl, sym, view) ==> Right(From(w, acts, ttl, |acts|), sym, view, w.step)
  }

  lemma {:induction false} StaysClean(w: World, acts: seq<Action>, ttl: int, sym: string, view: Option<View>, i: nat)
    requires Sane(w) && Clean(w, sym, view) && KeepsRows(w, acts, ttl, sym, view) && i <= |acts|
    ensures var w' := From(w, acts, ttl, i);
            && Sane(w') && Clean(w', sym, view) && Faithful(w', sym, view, w.step) && Right(w', sym, view, w.step)
    decreases i
  {
    hide Apply, Clean, ViewOf, FaithfulReader, SaneReader, Recompute;
    if i > 0 {
      var last := From(w, acts, ttl, i - 1);
      StaysClean(w, acts, ttl, sym, view, i - 1);
      assert ViewOf(last.db, sym) == view;
      StepSane(last, acts[i - 1], ttl);
      StepClean(last, acts[i - 1], ttl, sym, view);
      StepFaithful(last, acts[i - 1], ttl, sym, view, w.step);
      StepRight(last, acts[i - 1], ttl, sym, view, w.step);
    }
  }

  lemma CleanIsEnough(w: World, ttl: int, sym: string, view: Option<View>)
    requires Sane(w) && Clean(w, sym, view)
    ensures AlwaysRight(w, ttl, sym, view)
  {
    hide Sane, Clean, KeepsRows, Right, From;
    forall acts | KeepsRows(w, acts, ttl, sym, view)
      ensures Right(From(w, acts, ttl, |acts|), sym, view, w.step)
    {
      StaysClean(w, acts, ttl, sym, view, |acts|);
    }
  }

  /** A run can be resumed after any of its steps. */
  lemma {:induction false} Resume(w: World, acts: seq<Action>, ttl: int, c: nat, i: nat)
    requires c <= i <= |acts|
    ensures From(w, acts, ttl, i) == From(From(w, acts, ttl, c), acts[c..], ttl, i - c)
    decreases i
  {
    hide Apply;
    if i > c {
      Resume(w, acts, ttl, c, i - 1);
    }
  }

  // ---------- Along a run ----------

  lemma {:induction false} AlwaysBounded(db: Db, now: int, acts: seq<Action>, ttl: int, i: nat)
    requires i <= |acts|
    ensures Bounded(At(db, now, acts, ttl, i), ttl) && At(db, now, acts, ttl, i).step == i
    decreases i
  {
    hide Apply;
    if i > 0 {
      AlwaysBounded(db, now, acts, ttl, i - 1);
      StepBounded(At(db, now, acts, ttl, i - 1), acts[i - 1], ttl);
      StepCounts(At(db, now, acts, ttl, i - 1), acts[i - 1], ttl);
    }
  }

  lemma {:induction false} AlwaysSane(db: Db, now: int, acts: seq<Action>, ttl: int, i: nat)
    requires i <= |acts|
    ensures Sane(At(db, now, acts, ttl, i))
    decreases i
  {
    hide Apply, SaneReader;
    if i > 0 {
      AlwaysSane(db, now, acts, ttl, i - 1);
      StepSane(At(db, now, acts, ttl, i - 1), acts[i - 1], ttl);
    }
  }

  lemma StepCounts(w: World, a: Action, ttl: int)
    ensures Apply(w, a, ttl).step == w.step + 1 && Apply(w, a, ttl).now >= w.now
  {
    hide AfterRead, AfterGet;
  }

  lemma {:induction false} ClockAdvances(db: Db, now: int, acts: seq<Action>, ttl: int, i: nat, j: nat)
    requires i <= j <= |acts|
    ensures At(db, now, acts, ttl, i).now <= At(db, now, acts, ttl, j).now
    decreases j
  {
    hide Apply;
    if i < j {
      ClockAdvances(db, now, acts, ttl, i, j - 1);
      StepCounts(At(db, now, acts, ttl, j - 1), acts[j - 1], ttl);
    }
  }

  /** From step a on, the rows of the symbol are always `view`. */
  ghost predicate StableFrom(db: Db, now: int, acts: seq<Action>, ttl: int, sym: string, view: Option<View>, a: nat) {
    a <= |acts| && forall i :: a <= i <= |acts| ==> ViewOf(At(db, now, acts, ttl, i).db, sym) == view
  }

  lemma {:induction false} FaithfulFrom(db: Db, now: int, acts: seq<Action>, ttl: int, sym: string, view: Option<View>,
                                        a: nat, i: nat)
    requires StableFrom(db, now, acts, ttl, sym, view, a) && a <= i <= |acts|
    ensures Faithful(At(db, now, acts, ttl, i), sym, view, a)
    decreases i
  {
    hide Apply, ViewOf, FaithfulReader;
    if i == a {
      AlwaysBounded(db, now, acts, ttl, i);
    } else {
      FaithfulFrom(db, now, acts, ttl, sym, view, a, i - 1);
      assert ViewOf(At(db, now, acts, ttl, i - 1).db, sym) == view;
      StepFaithful(At(db, now, acts, ttl, i - 1), acts[i - 1], ttl, sym, view, a);
    }
  }

  lemma {:induction false} DrainedFrom(db: Db, now: int, acts: seq<Action>, ttl: int, sym: string, a: nat, b: nat,
                                       i: nat)
    requires a <= b <= i <= |acts| && Drained(At(db, now, acts, ttl, b), sym, a)
    ensures Drained(At(db, now, acts, ttl, i), sym, a)
    decreases i
  {
    hide Apply;
    if i > b {
      DrainedFrom(db, now, acts, ttl, sym, a, b, i - 1);
      AlwaysBounded(db, now, acts, ttl, i - 1);
      StepDrained(At(db, now, acts, ttl, i - 1), acts[i - 1], ttl, sym, a);
    }
  }

  /** Once the old calls are gone at step b, an entry can only be replaced by a right one. */
  lemma {:induction false} SettlingFrom(db: Db, now: int, acts: seq<Action>, ttl: int, kind: Kind, sym: string,
                                        view: Option<View>, a: nat, b: nat, deadline: int, i: nat)
    requires StableFrom(db, now, acts, ttl, sym, view, a) && a <= b <= i <= |acts|
    requires Drained(At(db, now, acts, ttl, b), sym, a)
    requires Settling(At(db, now, acts, ttl, b), kind, sym, view, deadline)
    ensures Settling(At(db, now, acts, ttl, i), kind, sym, view, deadline)
    decreases i
  {
    hide Apply, ViewOf, Recompute, Settling;
    if i > b {
      SettlingFrom(db, now, acts, ttl, kind, sym, view, a, b, deadline, i - 1);
      FaithfulFrom(db, now, acts, ttl, sym, view, a, i - 1);
      DrainedFrom(db, now, acts, ttl, sym, a, b, i - 1);
      StepSettling(At(db, now, acts, ttl, i - 1), acts[i - 1], ttl, kind, sym, view, a, deadline);
    }
  }

  /** Once the old calls are gone, both pages settled and the deadline past, the world is clean. */
  lemma CleanAt(w: World, sym: string, view: Option<View>, since: nat, deadline: int)
    requires Faithful(w, sym, view, since) && Drained(w, sym, since) && w.now >= deadline
    requires Settling(w, Analytics, sym, view, deadline) && Settling(w, Technical, sym, view, deadline)
    ensures Clean(w, sym, view)
  {
    hide Recompute, Continue;
    forall pid | pid in w.readers && w.readers[pid].symbol == sym
      ensures !Doomed(w.readers[pid], view)
    {
      assert w.readers[pid].phase.Done? || FaithfulReader(w.readers[pid], view);
    }
  }

  /** From a clean step c on, every new call is right. */
  lemma RightFrom(db: Db, now: int, acts: seq<Action>, ttl: int, sym: string, view: Option<View>, c: nat, i: nat)
    requires StableFrom(db, now, acts, ttl, sym, view, c) && i <= |acts| && c <= i
    requires Clean(At(db, now, acts, ttl, c), sym, view)
    ensures Right(At(db, now, acts, ttl, i), sym, view, c)
  {
    hide Apply, ViewOf, Clean, Sane, Right;
    var start, w := World(0, now, db, map[], map[]), At(db, now, acts, ttl, c);
    forall j | 0 <= j <= |acts| - c
      ensures ViewOf(From(w, acts[c..], ttl, j).db, sym) == view
    {
      Resume(start, acts, ttl, c, c + j);
      assert ViewOf(At(db, now, acts, ttl, c + j).db, sym) == view;
    }
    AlwaysSane(db, now, acts, ttl, c);
    AlwaysBounded(db, now, acts, ttl, c);
    Resume(start, acts, ttl, c, i);
    StaysClean(w, acts[c..], ttl, sym, view, i - c);
  }

  /** Every entry is settled by a TTL from now. */
  lemma SettlesInTtl(w: World, kind: Kind, sym: string, view: Option<View>, ttl: int)
    requires Bounded(w, ttl) && ttl > 0
    ensures Settling(w, kind, sym, view, w.now + ttl)
  {
  }

  lemma DeletionSettles(w: World, ttl: int, kind: Kind, sym: string, view: Option<View>, deadline: int)
    ensures Settling(Apply(w, CacheDel(Rendered(KeyOf(kind, sym)), false), ttl), kind, sym, view, deadline)
  {
  }

  /** What a finished call may have answered. */
  ghost predicate Answered(acts: seq<Action>, d: nat, w: World, pid: nat, sym: string, view: Option<View>)
    requires d <= |acts| && pid in w.readers && w.readers[pid].phase.Done?
  {
    var r := w.readers[pid];
    r.phase.answer == Recompute(r.kind, sym, view) ||
    (r.phase.answer == Err(StoreError) && exists j :: 0 <= j < d && acts[j] == StoreRead(pid, true))
  }

  /** A call is answered by a store error only if one of its own reads failed. */
  lemma {:induction false} StoreErrorHasCause(db: Db, now: int, acts: seq<Action>, ttl: int, i: nat, pid: nat)
    requires i <= |acts|
    requires var w := At(db, now, acts, ttl, i); pid in w.readers && w.readers[pid].phase == Done(Err(StoreError))
    ensures exists j :: 0 <= j < i && acts[j] == StoreRead(pid, true)
    decreases i
  {
    hide Read, Conclude, ViewOf;
    if i > 0 {
      var w, a := At(db, now, acts, ttl, i - 1), acts[i - 1];
      if pid in w.readers && w.readers[pid].phase == Done(Err(StoreError)) {
        StoreErrorHasCause(db, now, acts, ttl, i - 1, pid);
      } else {
        assert a.StoreRead? && a.pid == pid;
        ReadNeverBreaks(w.readers[pid], ViewOf(w.db, w.readers[pid].symbol));
        assert acts[i - 1] == StoreRead(pid, true);
      }
    }
  }

  lemma ReadNeverBreaks(r: Reader, view: Option<View>)
    requires r.phase.Reading?
    ensures AfterRead(r, view, false) != Done(Err(StoreError))
  {
    hide Conclude;
  }

  /**
   Eventual coherence, in every interleaving and with every deletion allowed to fail: if the rows of
   a symbol stop changing at step a, and the calls begun before a have finished by step b, then every
   call begun once a TTL has passed since b is answered by what the rows determine, or by a store
   error when one of its own reads failed.
   */
  lemma EventualCoherence(db: Db, now: int, acts: seq<Action>, ttl: int, sym: string, view: Option<View>,
                          a: nat, b: nat, c: nat, d: nat, pid: nat)
    requires ttl > 0 && a <= b <= c <= d <= |acts|
    requires StableFrom(db, now, acts, ttl, sym, view, a)
    requires Drained(At(db, now, acts, ttl, b), sym, a)
    requires At(db, now, acts, ttl, c).now >= At(db, now, acts, ttl, b).now + ttl
    requires var w := At(db, now, acts, ttl, d);
             pid in w.readers && w.readers[pid].symbol == sym && w.readers[pid].born >= c && w.readers[pid].phase.Done?
    ensures Answered(acts, d, At(db, now, acts, ttl, d), pid, sym, view)
  {
    hide Apply, ViewOf, Recompute, Settling;
    if At(db, now, acts, ttl, d).readers[pid].phase == Done(Err(StoreError)) {
      StoreErrorHasCause(db, now, acts, ttl, d, pid);
    }
    var w, deadline := At(db, now, acts, ttl, b), At(db, now, acts, ttl, b).now + ttl;
    AlwaysBounded(db, now, acts, ttl, b);
    SettlesInTtl(w, Analytics, sym, view, ttl);
    SettlesInTtl(w, Technical, sym, view, ttl);
    SettlingFrom(db, now, acts, ttl, Analytics, sym, view, a, b, deadline, c);
    SettlingFrom(db, now, acts, ttl, Technical, sym, view, a, b, deadline, c);
    DrainedFrom(db, now, acts, ttl, sym, a, b, c);
    FaithfulFrom(db, now, acts, ttl, sym, view, a, c);
    CleanAt(At(db, now, acts, ttl, c), sym, view, a, deadline);
    RightFrom(db, now, acts, ttl, sym, view, c, d);
  }

  /** Step p deletes the entry of the page. */
  predicate Purges(acts: seq<Action>, p: nat, kind: Kind, sym: string)
    requires p < |acts|
  {
    acts[p] == CacheDel(Rendered(KeyOf(kind, sym)), false)
  }

  lemma SettledByPurge(db: Db, now: int, acts: seq<Action>, ttl: int, kind: Kind, sym: string, view: Option<View>,
                       a: nat, b: nat, p: nat, deadline: int, c: nat)
    requires StableFrom(db, now, acts, ttl, sym, view, a) && a <= b <= p < c <= |acts|
    requires Drained(At(db, now, acts, ttl, b), sym, a) && Purges(acts, p, kind, sym)
    ensures Settling(At(db, now, acts, ttl, c), kind, sym, view, deadline)
  {
    hide Apply, ViewOf, Settling;
    DeletionSettles(At(db, now, acts, ttl, p), ttl, kind, sym, view, deadline);
    DrainedFrom(db, now, acts, ttl, sym, a, b, p + 1);
    SettlingFrom(db, now, acts, ttl, kind, sym, view, a, p + 1, deadline, c);
  }

  /**
   When a purge is enough: if the rows of a symbol stop changing at step a, the calls begun before a
   have finished by step b, and both keys are deleted after b, then every call begun after the deletions
   is right. Nobody has to wait for a TTL, and there need not be one.
   */
  lemma PurgeAfterDrain(db: Db, now: int, acts: seq<Action>, ttl: int, sym: string, view: Option<View>,
                        a: nat, b: nat, p: nat, q: nat, c: nat, d: nat, pid: nat)
    requires a <= b <= p < c <= d <= |acts| && b <= q < c
    requires StableFrom(db, now, acts, ttl, sym, view, a)
    requires Drained(At(db, now, acts, ttl, b), sym, a)
    requires Purges(acts, p, Analytics, sym) && Purges(acts, q, Technical, sym)
    requires var w := At(db, now, acts, ttl, d);
             pid in w.readers && w.readers[pid].symbol == sym && w.readers[pid].born >= c && w.readers[pid].phase.Done?
    ensures Answered(acts, d, At(db, now, acts, ttl, d), pid, sym, view)
  {
    hide Apply, ViewOf, Recompute, Settling;
    if At(db, now, acts, ttl, d).readers[pid].phase == Done(Err(StoreError)) {
      StoreErrorHasCause(db, now, acts, ttl, d, pid);
    }
    var deadline := At(db, now, acts, ttl, c).now;
    SettledByPurge(db, now, acts, ttl, Analytics, sym, view, a, b, p, deadline, c);
    SettledByPurge(db, now, acts, ttl, Technical, sym, view, a, b, q, deadline, c);
    DrainedFrom(db, now, acts, ttl, sym, a, b, c);
    FaithfulFrom(db, now, acts, ttl, sym, view, a, c);
    CleanAt(At(db, now, acts, ttl, c), sym, view, a, deadline);
    RightFrom(db, now, acts, ttl, sym, view, c, d);
  }

  // ---------- A call that nobody disturbs ----------

  /** The store reads number i, i+1, ... of a call. */
  function ReadOn(w: World, pid: nat, kind: Kind, broken: set<nat>, i: nat, ttl: int): World
    decreases Reads(kind) - i
  {
    if i >= Reads(kind) then w
    else ReadOn(Apply(w, StoreRead(pid, i in broken), ttl), pid, kind, broken, i + 1, ttl)
  }

  /** All steps of one call with nothing in between; steps behind its answer pass. */
  function Undisturbed(w: World, pid: nat, kind: Kind, sym: string, env: Env, ttl: int): World {
    var begun := Apply(w, Begin(pid, kind, sym), ttl);
    var looked := Apply(begun, CacheGet(pid, env.getFails), ttl);
    Apply(ReadOn(looked, pid, kind, env.broken, 0, ttl), CacheSet(pid, env.setFails), ttl)
  }

  /** The phase of a call after its remaining reads. */
  function AfterReads(r: Reader, view: Option<View>, broken: set<nat>): Phase
    requires r.phase.Reading? ==> Underway(r.kind, r.phase.got)
  {
    if !r.phase.Reading? then r.phase
    else
      var answer := Continue(r.kind, r.symbol, view, broken, r.phase.got);
      if answer.Ok? then Storing(answer.value) else Done(answer)
  }

  lemma OneReadOn(r: Reader, view: Option<View>, broken: set<nat>)
    requires r.phase.Reading? && Underway(r.kind, r.phase.got) && |r.phase.got| < Reads(r.kind)
    ensures var next := r.(phase := AfterRead(r, view, |r.phase.got| in broken));
            && SaneReader(next) && (next.phase.Reading? ==> |next.phase.got| == |r.phase.got| + 1)
            && AfterReads(next, view, broken) == AfterReads(r, view, broken)
            && (|r.phase.got| + 1 == Reads(r.kind) ==> !next.phase.Reading?)
  {
    hide Continue, Read, Conclude;
    var got := r.phase.got;
    var f := if |got| in broken then Broken else Read(r.kind, |got|, view);
    Unfold(r.kind, r.symbol, view, broken, got, f);
    if Refusal(|got|, f).None? && |got| + 1 == Reads(r.kind) {
      ContinueDone(r.kind, r.symbol, view, broken, got + [f]);
    }
  }

  lemma {:induction false} ReadOnAnswers(w: World, pid: nat, broken: set<nat>, i: nat, ttl: int)
    requires pid in w.readers && SaneReader(w.readers[pid]) && i <= Reads(w.readers[pid].kind)
    requires w.readers[pid].phase.Reading? ==> |w.readers[pid].phase.got| == i && i < Reads(w.readers[pid].kind)
    ensures var r := w.readers[pid];
            var w' := ReadOn(w, pid, r.kind, broken, i, ttl);
            && w'.db == w.db && w'.entries == w.entries && w'.now == w.now
            && w'.readers == w.readers[pid := r.(phase := AfterReads(r, ViewOf(w.db, r.symbol), broken))]
    decreases Reads(w.readers[pid].kind) - i
  {
    hide AfterRead, AfterReads, ViewOf, SaneReader;
    var r := w.readers[pid];
    if i < Reads(r.kind) {
      if r.phase.Reading? {
        SaneReading(r);
        OneReadOn(r, ViewOf(w.db, r.symbol), broken);
      } else {
        NoReadsLeft(r, ViewOf(w.db, r.symbol), broken);
      }
      ReadOnAnswers(Apply(w, StoreRead(pid, i in broken), ttl), pid, broken, i + 1, ttl);
    } else {
      NoReadsLeft(r, ViewOf(w.db, r.symbol), broken);
    }
  }

  lemma SaneReading(r: Reader)
    requires SaneReader(r) && r.phase.Reading?
    ensures Underway(r.kind, r.phase.got) && |r.phase.got| < Reads(r.kind)
  {
  }

  lemma NoReadsLeft(r: Reader, view: Option<View>, broken: set<nat>)
    requires !r.phase.Reading?
    ensures r.(phase := AfterReads(r, view, broken)) == r
  {
  }

  /** The first two steps: a hit, or a call that has read nothing yet. */
  lemma LookedUp(w: World, pid: nat, kind: Kind, sym: string, fails: bool, ttl: int)
    requires pid !in w.readers && IsValidSymbol(sym)
    ensures var looked := Apply(Apply(w, Begin(pid, kind, sym), ttl), CacheGet(pid, fails), ttl);
            var r := Reader(kind, sym, w.step, Start);
            && looked.db == w.db && looked.entries == w.entries && looked.now == w.now
            && looked.readers == w.readers[pid := r.(phase := AfterGet(r, w.entries, w.now, fails))]
  {
    hide AfterGet, IsValidSymbol;
  }

  /** The last step: a computed answer is stored, a finished call is left alone. */
  lemma Finished(w: World, pid: nat, fails: bool, ttl: int)
    requires pid in w.readers && (w.readers[pid].phase.Storing? || w.readers[pid].phase.Done?)
    ensures var w', r := Apply(w, CacheSet(pid, fails), ttl), w.readers[pid];
            && w'.db == w.db
            && (r.phase.Done? ==> w'.readers == w.readers && w'.entries == w.entries)
            && (r.phase.Storing? ==>
                  w'.readers == w.readers[pid := r.(phase := Done(Ok(r.phase.value)))] &&
                  w'.entries == if fails then w.entries
                                else Stored(w.entries, KeyOf(r.kind, r.symbol), r.phase.value, w.now, ttl))
  {
    hide Stored, KeyOf;
  }

  /** Alone, a call answers and leaves in the cache what the services do in one go. */
  lemma UndisturbedIsReadThrough(w: World, pid: nat, kind: Kind, sym: string, env: Env, ttl: int)
    requires pid !in w.readers && IsValidSymbol(sym) && env.now == w.now
    ensures var w' := Undisturbed(w, pid, kind, sym, env, ttl);
            var (after, answer) := ReadThrough(kind, w.db, w.entries, ttl, sym, env);
            w'.readers == w.readers[pid := Reader(kind, sym, w.step, Done(answer))] &&
            w'.entries == after && w'.db == w.db
  {
    hide Continue, ViewOf, IsValidSymbol, Normalize, KeyOf, Apply, ReadOn, Lookup, Stored;
    NormalizeFixes(sym);
    var looked := Apply(Apply(w, Begin(pid, kind, sym), ttl), CacheGet(pid, env.getFails), ttl);
    LookedUp(w, pid, kind, sym, env.getFails, ttl);
    ReadOnAnswers(looked, pid, env.broken, 0, ttl);
    Finished(ReadOn(looked, pid, kind, env.broken, 0, ttl), pid, env.setFails, ttl);
  }
}
