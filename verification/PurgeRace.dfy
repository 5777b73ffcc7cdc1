/**
 When a purge keeps stale answers away, and when it does not: in flight calls that read old rows can
 store their result after the deletions.
 */
module PurgeRace {
  import opened Prelude
  import opened Symbols
  import opened Store
  import opened CacheStore
  import opened Query
  import opened QueryServices
  import opened Interleaving

  // ---------- What is not clean breaks ----------

  lemma {:induction false} OneStepLater(w: World, a: Action, acts: seq<Action>, ttl: int, i: nat)
    requires i <= |acts|
    ensures From(w, [a] + acts, ttl, i + 1) == From(Apply(w, a, ttl), acts, ttl, i)
    decreases i
  {
    hide Apply;
    if i > 0 {
      OneStepLater(w, a, acts, ttl, i - 1);
    }
  }

  /** What holds of every continuation holds of every continuation after one more step. */
  lemma StillAlwaysRight(w: World, a: Action, ttl: int, sym: string, view: Option<View>)
    requires AlwaysRight(w, ttl, sym, view)
    requires ViewOf(w.db, sym) == view
    ensures AlwaysRight(Apply(w, a, ttl), ttl, sym, view)
  {
    hide Apply, ViewOf, Recompute;
    var w' := Apply(w, a, ttl);
    StepCounts(w, a, ttl);
    forall acts | KeepsRows(w', acts, ttl, sym, view)
      ensures Right(From(w', acts, ttl, |acts|), sym, view, w'.step)
    {
      forall i | 0 <= i <= |acts| + 1
        ensures ViewOf(From(w, [a] + acts, ttl, i).db, sym) == view
      {
        if i > 0 {
          OneStepLater(w, a, acts, ttl, i - 1);
          assert ViewOf(From(w', acts, ttl, i - 1).db, sym) == view;
        }
      }
      assert KeepsRows(w, [a] + acts, ttl, sym, view);
      OneStepLater(w, a, acts, ttl, |acts|);
    }
  }

  /** Some process number is not in use. */
  lemma {:induction false} FreshPid(used: set<nat>) returns (pid: nat)
    ensures forall p :: p in used ==> p < pid
    decreases |used|
  {
    if used == {} {
      pid := 0;
    } else {
      var p :| p in used;
      pid := FreshPid(used - {p});
      if pid <= p {
        pid := p + 1;
      }
      assert forall q :: q in used ==> q == p || q in used - {p};
    }
  }

  /** A wrong entry answers the next call. */
  lemma WrongBreaks(w: World, ttl: int, kind: Kind, sym: string, view: Option<View>)
    requires IsValidSymbol(sym) && ViewOf(w.db, sym) == view && Wrong(w, kind, sym, view)
    ensures !AlwaysRight(w, ttl, sym, view)
  {
    hide ViewOf, Recompute, IsValidSymbol, KeyOf, Rendered, KeepsRows, AlwaysRight;
    var pid := FreshPid(w.readers.Keys);
    var begun := Apply(w, Begin(pid, kind, sym), ttl);
    assert begun.readers[pid] == Reader(kind, sym, w.step, Start);
    var done := Apply(begun, CacheGet(pid, false), ttl);
    assert done.readers[pid].phase == Done(Ok(w.entries[Rendered(KeyOf(kind, sym))].value));
    TwoSteps(w, Begin(pid, kind, sym), CacheGet(pid, false), ttl, sym, view);
  }

  lemma TwoSteps(w: World, a: Action, b: Action, ttl: int, sym: string, view: Option<View>)
    requires var v := Apply(w, a, ttl);
             var u := Apply(v, b, ttl);
             w.db == v.db == u.db && ViewOf(w.db, sym) == view && !Right(u, sym, view, w.step)
    ensures !AlwaysRight(w, ttl, sym, view)
  {
    hide Apply, ViewOf, Right;
    var acts := [a, b];
    assert From(w, acts, ttl, 0) == w;
    assert From(w, acts, ttl, 1) == Apply(w, a, ttl);
    assert From(w, acts, ttl, 2) == Apply(Apply(w, a, ttl), b, ttl);
    assert KeepsRows(w, acts, ttl, sym, view);
  }

  /** A doomed call that reads and stores undisturbed leaves a wrong entry. */
  lemma {:induction false} DoomedBreaks(w: World, ttl: int, sym: string, view: Option<View>, pid: nat)
    requires IsValidSymbol(sym) && ViewOf(w.db, sym) == view && Sane(w)
    requires pid in w.readers && w.readers[pid].symbol == sym && Doomed(w.readers[pid], view)
    ensures !AlwaysRight(w, ttl, sym, view)
    decreases if w.readers[pid].phase.Reading? then Reads(w.readers[pid].kind) - |w.readers[pid].phase.got| else 0
  {
    hide ViewOf, Recompute, IsValidSymbol, AlwaysRight, Continue, AfterRead;
    var r := w.readers[pid];
    if AlwaysRight(w, ttl, sym, view) {
      if r.phase.Reading? {
        var read := StoreRead(pid, false);
        ReadKeepsSane(r, view, false);
        StepSane(w, read, ttl);
        StillAlwaysRight(w, read, ttl, sym, view);
        DoomedBreaks(Apply(w, read, ttl), ttl, sym, view, pid);
      } else {
        var store := CacheSet(pid, false);
        StillAlwaysRight(w, store, ttl, sym, view);
        WrongBreaks(Apply(w, store, ttl), ttl, r.kind, sym, view);
      }
    }
  }

  // ---------- Main results ----------

  /**
   With the rows of a symbol settled, every call begun from now on is answered by the truth or by a store
   error, in every continuation that leaves the rows alone, if and only if no live entry of the symbol is
   wrong and no call in flight is doomed to store a wrong one.
   */
  lemma RightIffClean(w: World, ttl: int, sym: string, view: Option<View>)
    requires Sane(w) && IsValidSymbol(sym) && ViewOf(w.db, sym) == view
    ensures AlwaysRight(w, ttl, sym, view) <==> Clean(w, sym, view)
  {
    hide Sane, Wrong, Doomed, AlwaysRight, ViewOf, IsValidSymbol;
    if Clean(w, sym, view) {
      CleanIsEnough(w, ttl, sym, view);
    } else if Wrong(w, Analytics, sym, view) {
      WrongBreaks(w, ttl, Analytics, sym, view);
    } else if Wrong(w, Technical, sym, view) {
      WrongBreaks(w, ttl, Technical, sym, view);
    } else {
      var pid :| pid in w.readers && w.readers[pid].symbol == sym && Doomed(w.readers[pid], view);
      DoomedBreaks(w, ttl, sym, view, pid);
    }
  }

  /**
   The exact condition for a purge: at any step of any run at which both keys are gone, every later call
   is right, as long as the rows stay, if and only if no call in flight is doomed.
   */
  lemma PurgeIsEnoughIff(db: Db, now: int, acts: seq<Action>, ttl: int, sym: string, i: nat)
    requires i <= |acts| && IsValidSymbol(sym)
    requires forall kind :: Rendered(KeyOf(kind, sym)) !in At(db, now, acts, ttl, i).entries
    ensures var w := At(db, now, acts, ttl, i);
            var view := ViewOf(w.db, sym);
            AlwaysRight(w, ttl, sym, view) <==>
            forall pid :: pid in w.readers && w.readers[pid].symbol == sym ==> !Doomed(w.readers[pid], view)
  {
    hide Sane, Doomed, AlwaysRight, ViewOf, IsValidSymbol, At;
    AlwaysSane(db, now, acts, ttl, i);
    RightIffClean(At(db, now, acts, ttl, i), ttl, sym, ViewOf(At(db, now, acts, ttl, i).db, sym));
  }

  // ---------- A purge that comes too early ----------

  /** Call 0 reads the old rows, the rows change, both keys are deleted, and only then call 0 stores. */
  function LateSet(sym: string, newer: Db): seq<Action> {
    [Begin(0, Technical, sym), CacheGet(0, false), StoreRead(0, false), StoreRead(0, false),
     StoreWrite(newer),
     CacheDel(Rendered(KeyOf(Analytics, sym)), false), CacheDel(Rendered(KeyOf(Technical, sym)), false),
     CacheSet(0, false),
     Begin(1, Technical, sym), CacheGet(1, false)]
  }

  lemma ReadsDone(sym: string, view: Option<View>, v: Cached)
    requires Recompute(Technical, sym, view) == Ok(v)
    ensures var r := Reader(Technical, sym, 0, Reading([]));
            var one := AfterRead(r, view, false);
            one.Reading? && AfterRead(r.(phase := one), view, false) == Storing(v)
  {
    hide Continue, Conclude, Read;
    assert Continue(Technical, sym, view, {}, []) == Ok(v) by { Started(sym, view); }
    var company := Read(Technical, 0, view);
    Unfold(Technical, sym, view, {}, [], company);
    var history := Read(Technical, 1, view);
    Unfold(Technical, sym, view, {}, [] + [company], history);
    ContinueDone(Technical, sym, view, {}, [] + [company] + [history]);
  }

  lemma Started(sym: string, view: Option<View>)
    ensures Recompute(Technical, sym, view) == Continue(Technical, sym, view, {}, [])
  {
  }

  lemma Next(db: Db, now: int, acts: seq<Action>, ttl: int, i: nat)
    requires i < |acts|
    ensures At(db, now, acts, ttl, i + 1) == Apply(At(db, now, acts, ttl, i), acts[i], ttl)
  {
    hide Apply;
  }

  /** The first four steps: the call has computed its answer from the old rows. */
  lemma OldAnswerComputed(db: Db, now: int, ttl: int, sym: string, newer: Db, v: Cached)
    requires IsValidSymbol(sym) && Recompute(Technical, sym, ViewOf(db, sym)) == Ok(v)
    ensures At(db, now, LateSet(sym, newer), ttl, 4)
         == World(4, now, db, map[], map[0 := Reader(Technical, sym, 0, Storing(v))])
  {
    hide ViewOf, Recompute, IsValidSymbol, AfterRead, At;
    var acts, start := LateSet(sym, newer), Reader(Technical, sym, 0, Start);
    assert At(db, now, acts, ttl, 0) == World(0, now, db, map[], map[]) by { AtStart(db, now, acts, ttl); }
    Next(db, now, acts, ttl, 0);
    Next(db, now, acts, ttl, 1);
    Next(db, now, acts, ttl, 2);
    Next(db, now, acts, ttl, 3);
    ReadsDone(sym, ViewOf(db, sym), v);
    var one := AfterRead(start.(phase := Reading([])), ViewOf(db, sym), false);
    assert At(db, now, acts, ttl, 1) == World(1, now, db, map[], map[0 := start]);
    assert At(db, now, acts, ttl, 2) == World(2, now, db, map[], map[0 := start.(phase := Reading([]))]);
    assert At(db, now, acts, ttl, 3) == World(3, now, db, map[], map[0 := start.(phase := one)]);
  }

  lemma AtStart(db: Db, now: int, acts: seq<Action>, ttl: int)
    ensures At(db, now, acts, ttl, 0) == World(0, now, db, map[], map[])
  {
  }

  /** The next four: the store has the new rows, and the cache the old answer. */
  lemma OldAnswerStored(db: Db, now: int, ttl: int, sym: string, newer: Db, v: Cached)
    requires IsValidSymbol(sym) && Recompute(Technical, sym, ViewOf(db, sym)) == Ok(v)
    ensures At(db, now, LateSet(sym, newer), ttl, 8)
         == World(8, now, newer, Stored(map[], KeyOf(Technical, sym), v, now, ttl),
                  map[0 := Reader(Technical, sym, 0, Done(Ok(v)))])
  {
    hide ViewOf, Recompute, IsValidSymbol, At, Stored, KeyOf, Rendered;
    var acts, r := LateSet(sym, newer), Reader(Technical, sym, 0, Storing(v));
    OldAnswerComputed(db, now, ttl, sym, newer, v);
    Next(db, now, acts, ttl, 4);
    Next(db, now, acts, ttl, 5);
    Next(db, now, acts, ttl, 6);
    Next(db, now, acts, ttl, 7);
    assert At(db, now, acts, ttl, 5) == World(5, now, newer, map[], map[0 := r]);
    assert At(db, now, acts, ttl, 6) == World(6, now, newer, map[], map[0 := r]);
    assert At(db, now, acts, ttl, 7) == World(7, now, newer, map[], map[0 := r]);
  }

  /**
   A purge with both deletions successful does not prevent a stale answer: whenever the rows before and
   after determine different answers, the call begun at step 8, after the write and the deletions, is
   answered by the old one.
   */
  lemma LateSetDefeatsPurge(db: Db, now: int, ttl: int, sym: string, newer: Db, v: Cached)
    requires IsValidSymbol(sym) && Recompute(Technical, sym, ViewOf(db, sym)) == Ok(v)
    requires Recompute(Technical, sym, ViewOf(newer, sym)) != Ok(v)
    ensures var w := At(db, now, LateSet(sym, newer), ttl, 10);
            && 1 in w.readers && w.readers[1].born == 8 && w.readers[1].phase == Done(Ok(v))
            && w.db == newer && Recompute(Technical, sym, ViewOf(w.db, sym)) != Ok(v)
  {
    hide ViewOf, Recompute, IsValidSymbol, At, KeyOf, Rendered;
    var acts := LateSet(sym, newer);
    OldAnswerStored(db, now, ttl, sym, newer, v);
    assert OfKind(Technical, v) by {
      AnswerOfKind(Technical, sym, ViewOf(db, sym), {}, []);
      Started(sym, ViewOf(db, sym));
    }
    Next(db, now, acts, ttl, 8);
    Next(db, now, acts, ttl, 9);
    var r := Reader(Technical, sym, 8, Start);
    assert At(db, now, acts, ttl, 9).readers[1] == r;
    assert AfterGet(r, Stored(map[], KeyOf(Technical, sym), v, now, ttl), now, false) == Done(Ok(v));
  }
}
