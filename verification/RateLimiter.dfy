/** The fixed-window limiter: INCR on every check, one EXPIRE on the first check of a window. */
module RateLimiter {
  import opened Prelude

  /** A Redis counter; expires == None is a key without TTL. */
  datatype Counter = Counter(count: int, expires: Option<int>)

  predicate Alive(c: Option<Counter>, now: int) {
    c.Some? && (c.value.expires.None? || now < c.value.expires.value)
  }

  /** What becomes of an INCR: answered, never applied, or applied with its reply lost. The last two are errors. */
  datatype Fate = Answered | Unsent | Unheard

  /** One check: its time, the fate of its INCR, and whether its EXPIRE is lost. */
  datatype Check = Check(now: int, incr: Fate, expireFails: bool)

  /** Nobody arms the counter that this check creates: the EXPIRE is lost, or never sent for want of a reply. */
  predicate Unarmed(check: Check) {
    check.incr.Unheard? || check.expireFails
  }

  /** The counter of a key after a check. A non-positive window expires on the spot, as in Redis. */
  function Counted(c: Option<Counter>, check: Check, window: int): Option<Counter> {
    if check.incr.Unsent? then c
    else if Alive(c, check.now) then Some(c.value.(count := c.value.count + 1))
    else Some(Counter(1, if Unarmed(check) then None else Some(check.now + window)))
  }

  /** None is an unavailable limiter. */
  function Verdict(c: Option<Counter>, check: Check, limit: int): Option<bool> {
    if !check.incr.Answered? then None else Some((if Alive(c, check.now) then c.value.count + 1 else 1) <= limit)
  }

  const PREFIX := "fda:rl:"

  function Stored(counters: map<string, Counter>, k: string): Option<Counter> {
    if k in counters then Some(counters[k]) else None
  }

  /** The server: INCR starts at 1 when the key is absent or expired, and keeps the TTL otherwise. */
  class Redis {
    var counters: map<string, Counter>

    constructor ()
      ensures counters == map[]
    {
      counters := map[];
    }

    method Incr(k: string, now: int, fate: Fate) returns (n: Option<int>)
      modifies this
      ensures fate.Unsent? ==> n == None && counters == old(counters)
      ensures !fate.Unsent? ==>
                var c := if Alive(Stored(old(counters), k), now)
                         then old(counters)[k].(count := old(counters)[k].count + 1)
                         else Counter(1, None);
                counters == old(counters)[k := c] && n == if fate.Unheard? then None else Some(c.count)
    {
      if fate.Unsent? {
        return None;
      }
      var c := if Alive(Stored(counters, k), now) then counters[k].(count := counters[k].count + 1)
               else Counter(1, None);
      counters := counters[k := c];
      n := if fate.Unheard? then None else Some(c.count);
    }

    method Expire(k: string, deadline: int, fails: bool)
      modifies this
      ensures counters == if fails || k !in old(counters) then old(counters)
                          else old(counters)[k := old(counters)[k].(expires := Some(deadline))]
    {
      if !fails && k in counters {
        counters := counters[k := counters[k].(expires := Some(deadline))];
      }
    }
  }

  /** Every counter Redis holds for a limiter has counted something. */
  ghost predicate Positive(counters: map<string, Counter>) {
    forall k :: k in counters ==> counters[k].count >= 1
  }

  class RedisLimiter {
    const client: Redis
    const limit: int
    const window: int

    constructor (client: Redis, limit: int, window: int)
      ensures this.client == client && this.limit == limit && this.window == window
    {
      this.client, this.limit, this.window := client, limit, window;
    }

    /** Only the counter of the one rendered key moves, as the specification of a single key says. */
    method Allow(key: string, check: Check) returns (ok: Option<bool>)
      requires Positive(client.counters)
      modifies client
      ensures Positive(client.counters)
      ensures ok == Verdict(Stored(old(client.counters), PREFIX + key), check, limit)
      ensures Stored(client.counters, PREFIX + key) ==
                Counted(Stored(old(client.counters), PREFIX + key), check, window)
      ensures forall k :: k != PREFIX + key ==> Stored(client.counters, k) == Stored(old(client.counters), k)
    {
      var k := PREFIX + key;
      var n := client.Incr(k, check.now, check.incr);
      if n.None? {
        return None;
      }
      if n.value == 1 {
        client.Expire(k, check.now + window, check.expireFails);
      }
      ok := Some(n.value <= limit);
    }
  }

  // ---------- One key over a whole run ----------

  ghost predicate Monotone(checks: seq<Check>) {
    forall i, j :: 0 <= i <= j < |checks| ==> checks[i].now <= checks[j].now
  }

  function CounterAt(checks: seq<Check>, n: nat, window: int): (c: Option<Counter>)
    requires n <= |checks|
    ensures c.Some? ==> c.value.count >= 1
  {
    if n == 0 then None else Counted(CounterAt(checks, n - 1, window), checks[n - 1], window)
  }

  /** The verdict of check i. */
  function VerdictAt(checks: seq<Check>, i: nat, limit: int, window: int): Option<bool>
    requires i < |checks|
  {
    Verdict(CounterAt(checks, i, window), checks[i], limit)
  }

  predicate Admitted(checks: seq<Check>, i: nat, limit: int, window: int)
    requires i < |checks|
  {
    VerdictAt(checks, i, limit, window) == Some(true)
  }

  /** How many checks among i..j-1 were counted at all. */
  function Reached(checks: seq<Check>, i: nat, j: nat): nat
    requires i <= j <= |checks|
    decreases j
  {
    if i == j then 0 else Reached(checks, i, j - 1) + if checks[j - 1].incr.Unsent? then 0 else 1
  }

  function AdmittedCount(checks: seq<Check>, i: nat, j: nat, limit: int, window: int): nat
    requires i <= j <= |checks|
    decreases j
  {
    if i == j then 0
    else AdmittedCount(checks, i, j - 1, limit, window) + if Admitted(checks, j - 1, limit, window) then 1 else 0
  }

  /** The checks among i..j-1 that used up one of the first `limit` counts without hearing of it. */
  function Wasted(checks: seq<Check>, i: nat, j: nat, limit: int): nat
    requires i <= j <= |checks|
    decreases j
  {
    if i == j then 0
    else Wasted(checks, i, j - 1, limit) +
         if checks[j - 1].incr.Unheard? && Reached(checks, i, j) <= limit then 1 else 0
  }

  function Min(a: int, b: int): int { if a < b then a else b }

  function Quota(limit: int): nat { if limit < 0 then 0 else limit }

  /** Check i finds no live counter, so it opens a window. */
  predicate Opens(checks: seq<Check>, i: nat, window: int)
    requires i < |checks|
  {
    !checks[i].incr.Unsent? && !Alive(CounterAt(checks, i, window), checks[i].now)
  }

  /**
   In the window opened by check i, and for ever if nobody armed its counter, the first `limit` counts
   are admissions, except those whose reply was lost.
   */
  lemma {:induction false} WindowAdmitsFirst(checks: seq<Check>, i: nat, j: nat, limit: int, window: int)
    requires i < j <= |checks| && Opens(checks, i, window)
    requires Unarmed(checks[i]) || forall k :: i <= k < j ==> checks[k].now < checks[i].now + window
    ensures CounterAt(checks, j, window)
         == Some(Counter(Reached(checks, i, j), if Unarmed(checks[i]) then None else Some(checks[i].now + window)))
    ensures AdmittedCount(checks, i, j, limit, window) + Wasted(checks, i, j, limit)
         == Min(Reached(checks, i, j), Quota(limit))
    ensures checks[j - 1].incr.Answered? ==>
              (Admitted(checks, j - 1, limit, window) <==> Reached(checks, i, j) <= limit)
    decreases j
  {
    if j == i + 1 {
      assert Reached(checks, i, i) == 0 && AdmittedCount(checks, i, i, limit, window) == 0;
      assert Wasted(checks, i, i, limit) == 0;
    } else {
      WindowAdmitsFirst(checks, i, j - 1, limit, window);
    }
  }

  /** The first check at or after the end of a window opens the next one. */
  lemma NextWindowOpens(checks: seq<Check>, i: nat, j: nat, window: int)
    requires i < j < |checks| && Opens(checks, i, window) && !Unarmed(checks[i]) && !checks[j].incr.Unsent?
    requires forall k :: i <= k < j ==> checks[k].now < checks[i].now + window
    requires checks[j].now >= checks[i].now + window
    ensures Opens(checks, j, window)
  {
    WindowAdmitsFirst(checks, i, j, 0, window);
  }

  /**
   A key whose EXPIRE is lost, or whose first INCR is applied but not heard of, admits at most its limit
   from then on, however long the run.
   */
  lemma UnarmedKeyFreezes(checks: seq<Check>, i: nat, j: nat, limit: int, window: int)
    requires i < j <= |checks| && Opens(checks, i, window) && Unarmed(checks[i])
    ensures AdmittedCount(checks, i, j, limit, window) <= Quota(limit)
  {
    WindowAdmitsFirst(checks, i, j, limit, window);
  }

  // ---------- Any interval of one window length ----------

  /** Admitted checks among the first n whose time lies in [x, x + window). */
  function AdmittedIn(checks: seq<Check>, n: nat, x: int, limit: int, window: int): nat
    requires n <= |checks|
  {
    if n == 0 then 0
    else AdmittedIn(checks, n - 1, x, limit, window) +
         if x <= checks[n - 1].now < x + window && Admitted(checks, n - 1, limit, window) then 1 else 0
  }

  lemma {:induction false} NoneBefore(checks: seq<Check>, n: nat, x: int, limit: int, window: int)
    requires n <= |checks| && Monotone(checks) && (n > 0 ==> checks[n - 1].now < x)
    ensures AdmittedIn(checks, n, x, limit, window) == 0
    decreases n
  {
    if n > 0 {
      NoneBefore(checks, n - 1, x, limit, window);
    }
  }

  /** When the current window was opened. */
  ghost function OpenedAt(checks: seq<Check>, n: nat, window: int): int
    requires n <= |checks|
  {
    if n == 0 then 0
    else if Opens(checks, n - 1, window) then checks[n - 1].now else OpenedAt(checks, n - 1, window)
  }

  /** At most two windows touch the interval, and each admits at most its quota. */
  lemma {:induction false} IntervalInvariant(checks: seq<Check>, n: nat, x: int, limit: int, window: int)
    requires n <= |checks| && Monotone(checks) && window > 0
    ensures var c, s, a, q := CounterAt(checks, n, window), OpenedAt(checks, n, window),
                              AdmittedIn(checks, n, x, limit, window), Quota(limit);
            && (c.None? ==> a == 0)
            && (c.Some? ==> c.value.expires.None? || c.value.expires.value == s + window)
            && (c.Some? ==> n > 0 && s <= checks[n - 1].now)
            && (c.Some? && s < x ==> a <= Min(c.value.count, q))
            && (c.Some? && x <= s < x + window ==> a <= q + Min(c.value.count, q))
            && a <= 2 * q
    decreases n
  {
    if n > 0 {
      IntervalInvariant(checks, n - 1, x, limit, window);
      if checks[n - 1].now < x {
        NoneBefore(checks, n, x, limit, window);
      }
      assert n > 1 ==> checks[n - 2].now <= checks[n - 1].now;
    }
  }

  /**
   Whatever is lost on the way, any interval of one window length admits at most twice the limit
   per key.
   */
  lemma AtMostTwiceTheLimit(checks: seq<Check>, x: int, limit: int, window: int)
    requires Monotone(checks) && window > 0
    ensures AdmittedIn(checks, |checks|, x, limit, window) <= 2 * Quota(limit)
  {
    IntervalInvariant(checks, |checks|, x, limit, window);
  }

  /** With a window that is not positive every counter is born expired, and nothing is limited. */
  lemma {:induction false} NoWindowNoLimit(checks: seq<Check>, i: nat, limit: int, window: int)
    requires i < |checks| && Monotone(checks) && window <= 0
    requires forall k :: 0 <= k <= i ==> checks[k].incr.Answered? && !checks[k].expireFails
    ensures VerdictAt(checks, i, limit, window) == Some(1 <= limit)
    ensures CounterAt(checks, i + 1, window) == Some(Counter(1, Some(checks[i].now + window)))
    decreases i
  {
    if i > 0 {
      NoWindowNoLimit(checks, i - 1, limit, window);
      assert checks[i - 1].now <= checks[i].now;
    }
  }

  // ---------- INCR and EXPIRE as separate round trips ----------

  /** One command of the call with this pid. */
  datatype Trip = Incr(pid: nat, now: int, fate: Fate) | Expire(pid: nat, now: int, fails: bool)

  /** The counter of one key, and the calls whose INCR returned 1 and whose EXPIRE has not been sent yet. */
  datatype Race = Race(counter: Option<Counter>, arming: set<nat>)

  /** What INCR makes of a counter. */
  function Bumped(c: Option<Counter>, now: int): Counter {
    if Alive(c, now) then c.value.(count := c.value.count + 1) else Counter(1, None)
  }

  /** A call sends EXPIRE only after its INCR returned 1, and nothing else in between. */
  predicate Sent(s: Race, t: Trip) {
    if t.Incr? then t.pid !in s.arming else t.pid in s.arming
  }

  function AfterTrip(s: Race, t: Trip, window: int): Race {
    if !Sent(s, t) then s
    else match t
      case Incr(pid, now, fate) =>
        if fate.Unsent? then s
        else
          var c := Bumped(s.counter, now);
          Race(Some(c), if c.count == 1 && fate.Answered? then s.arming + {pid} else s.arming)
      case Expire(pid, now, fails) =>
        Race(if fails || !Alive(s.counter, now) then s.counter
             else Some(s.counter.value.(expires := Some(now + window))),
             s.arming - {pid})
  }

  function RaceAt(trips: seq<Trip>, n: nat, window: int): Race
    requires n <= |trips|
  {
    if n == 0 then Race(None, {}) else AfterTrip(RaceAt(trips, n - 1, window), trips[n - 1], window)
  }

  /** Trip i is an INCR whose call is admitted. */
  predicate AdmittedTrip(trips: seq<Trip>, i: nat, limit: int, window: int)
    requires i < |trips|
  {
    var s := RaceAt(trips, i, window);
    trips[i].Incr? && Sent(s, trips[i]) && trips[i].fate.Answered? && Bumped(s.counter, trips[i].now).count <= limit
  }

  function AdmittedTripsIn(trips: seq<Trip>, n: nat, x: int, limit: int, window: int): nat
    requires n <= |trips|
  {
    if n == 0 then 0
    else AdmittedTripsIn(trips, n - 1, x, limit, window) +
         if x <= trips[n - 1].now < x + window && AdmittedTrip(trips, n - 1, limit, window) then 1 else 0
  }

  ghost predicate InTripOrder(trips: seq<Trip>) {
    forall i, j :: 0 <= i <= j < |trips| ==> trips[i].now <= trips[j].now
  }

  /** When nothing comes between INCR and EXPIRE, the two round trips are the one step of a check. */
  lemma TwoTripsAreACheck(s: Race, pid: nat, check: Check, window: int)
    requires s.arming == {} && (s.counter.Some? ==> s.counter.value.count >= 1)
    ensures var incr := AfterTrip(s, Incr(pid, check.now, check.incr), window);
            var done := AfterTrip(incr, Expire(pid, check.now, check.expireFails), window);
            done == Race(Counted(s.counter, check, window), {})
  {
    assert {pid} - {pid} == {};
    assert {} + {pid} == {pid};
  }

  /** At most one call is about to arm the counter, and only while it has no TTL. */
  lemma {:induction false} ArmedByOne(trips: seq<Trip>, n: nat, window: int)
    requires n <= |trips|
    ensures var s := RaceAt(trips, n, window);
            && (s.counter.Some? ==> s.counter.value.count >= 1)
            && (s.arming != {} ==> s.counter.Some? && s.counter.value.expires.None?)
            && (forall p, q :: p in s.arming && q in s.arming ==> p == q)
    decreases n
  {
    if n > 0 {
      ArmedByOne(trips, n - 1, window);
    }
  }

  /**
   In every interleaving a TTL is set at most once in the life of a counter: an EXPIRE that is sent
   finds the counter alive and without TTL, so no late EXPIRE prolongs or shortens a window.
   */
  lemma ExpireFindsNoTtl(trips: seq<Trip>, i: nat, window: int)
    requires i < |trips| && trips[i].Expire? && Sent(RaceAt(trips, i, window), trips[i])
    ensures var c := RaceAt(trips, i, window).counter; Alive(c, trips[i].now) && c.value.expires.None?
  {
    ArmedByOne(trips, i, window);
  }

  /** A counter created by an INCR whose reply is lost never gets a TTL: nobody learns that it was the first one. */
  lemma {:induction false} UnheardIncrFreezes(trips: seq<Trip>, i: nat, j: nat, window: int)
    requires i < j <= |trips| && Creates(RaceAt(trips, i, window), trips[i]) && trips[i].fate.Unheard?
    ensures var s := RaceAt(trips, j, window);
            s.arming == {} && s.counter.Some? && s.counter.value.count >= 1 && s.counter.value.expires.None?
    decreases j
  {
    ArmedByOne(trips, i, window);
    if j > i + 1 {
      UnheardIncrFreezes(trips, i, j - 1, window);
    }
  }

  lemma {:induction false} NoTripBefore(trips: seq<Trip>, n: nat, x: int, limit: int, window: int)
    requires n <= |trips| && InTripOrder(trips) && (n > 0 ==> trips[n - 1].now < x)
    ensures AdmittedTripsIn(trips, n, x, limit, window) == 0
    decreases n
  {
    if n > 0 {
      NoTripBefore(trips, n - 1, x, limit, window);
    }
  }

  /** An INCR that is applied and finds no live counter. */
  predicate Creates(s: Race, t: Trip) {
    t.Incr? && Sent(s, t) && !t.fate.Unsent? && !Alive(s.counter, t.now)
  }

  /** When the current counter was created. */
  ghost function CreatedAt(trips: seq<Trip>, n: nat, window: int): int
    requires n <= |trips|
  {
    if n == 0 then 0
    else
      var s, t := RaceAt(trips, n - 1, window), trips[n - 1];
      if Creates(s, t) then t.now else CreatedAt(trips, n - 1, window)
  }

  /** A counter lives for at least one window, so at most two counters touch the interval. */
  lemma {:induction false} RaceInvariant(trips: seq<Trip>, n: nat, x: int, limit: int, window: int)
    requires n <= |trips| && InTripOrder(trips) && window > 0
    ensures var c, s, a, q := RaceAt(trips, n, window).counter, CreatedAt(trips, n, window),
                              AdmittedTripsIn(trips, n, x, limit, window), Quota(limit);
            && (c.None? ==> a == 0)
            && (c.Some? ==> c.value.expires.None? || c.value.expires.value >= s + window)
            && (c.Some? ==> n > 0 && s <= trips[n - 1].now)
            && (c.Some? && s < x ==> a <= Min(c.value.count, q))
            && (c.Some? && x <= s < x + window ==> a <= q + Min(c.value.count, q))
            && a <= 2 * q
    decreases n
  {
    if n > 0 {
      RaceInvariant(trips, n - 1, x, limit, window);
      ArmedByOne(trips, n - 1, window);
      if trips[n - 1].now < x {
        NoTripBefore(trips, n, x, limit, window);
      }
      assert n > 1 ==> trips[n - 2].now <= trips[n - 1].now;
    }
  }

  /**
   The bound of twice the limit in every interleaving of the round trips of any number of calls, with
   any of them lost and any delay between an INCR and its EXPIRE.
   */
  lemma RacingCallsAtMostTwiceTheLimit(trips: seq<Trip>, x: int, limit: int, window: int)
    requires InTripOrder(trips) && window > 0
    ensures AdmittedTripsIn(trips, |trips|, x, limit, window) <= 2 * Quota(limit)
  {
    RaceInvariant(trips, |trips|, x, limit, window);
  }

  // ---------- Many keys ----------

  /** A check of one rendered key by a limiter with the given window. */
  datatype KeyedCheck = KeyedCheck(key: string, check: Check, window: int)

  function AfterOne(counters: map<string, Counter>, c: KeyedCheck): map<string, Counter> {
    match Counted(Stored(counters, c.key), c.check, c.window)
    case Some(v) => counters[c.key := v]
    case None => counters
  }

  function CountersAfter(run: seq<KeyedCheck>): map<string, Counter> {
    if run == [] then map[] else AfterOne(CountersAfter(run[..|run| - 1]), run[|run| - 1])
  }

  /** The checks of one key, in order. */
  function Project(run: seq<KeyedCheck>, key: string): seq<Check> {
    if run == [] then []
    else Project(run[..|run| - 1], key) + if run[|run| - 1].key == key then [run[|run| - 1].check] else []
  }

  lemma {:induction false} CounterAtPrefix(checks: seq<Check>, more: seq<Check>, n: nat, window: int)
    requires n <= |checks|
    ensures CounterAt(checks + more, n, window) == CounterAt(checks, n, window)
    decreases n
  {
    if n > 0 {
      CounterAtPrefix(checks, more, n - 1, window);
    }
  }

  /** The counter of a key, and so every verdict on it, depends on the checks of that key alone. */
  lemma {:induction false} KeysDoNotInteract(run: seq<KeyedCheck>, key: string, window: int)
    requires forall i :: 0 <= i < |run| && run[i].key == key ==> run[i].window == window
    ensures Stored(CountersAfter(run), key) == CounterAt(Project(run, key), |Project(run, key)|, window)
    decreases |run|
  {
    if run != [] {
      var front, last := run[..|run| - 1], run[|run| - 1];
      KeysDoNotInteract(front, key, window);
      assert forall i :: 0 <= i < |front| ==> front[i] == run[i];
      if last.key == key {
        var checks := Project(front, key);
        var all := checks + [last.check];
        assert Project(run, key) == all && last.window == window;
        CounterAtPrefix(checks, [last.check], |checks|, window);
        assert CounterAt(all, |all|, window) == Counted(CounterAt(all, |checks|, window), last.check, window);
      } else {
        assert Project(run, key) == Project(front, key);
      }
    }
  }
}
