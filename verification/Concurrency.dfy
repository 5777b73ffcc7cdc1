/**
 Requests in flight at the same time: authentication, INCR and EXPIRE are steps of their own, and the
 steps of different requests may come in any order.
 */
module Concurrency {
  import opened Prelude
  import opened RateLimiter
  import opened Middleware
  import A = Auth

  /** Waiting for its INCR, decided but still to send EXPIRE, or over. */
  datatype Phase = Counting | Arming(answer: Response) | Finished(answer: Response)

  datatype Call = Call(q: Request, phase: Phase)

  datatype World = World(counters: map<string, Counter>, calls: map<nat, Call>)

  /** The time of a request is the time of its authentication; the fates of its commands are in the steps. */
  datatype Step =
    | Authenticate(pid: nat, q: Request)
    | SendIncr(pid: nat, now: int, fate: Fate)
    | SendExpire(pid: nat, now: int, fails: bool)

  function TimeOf(s: Step): int {
    if s.Authenticate? then s.q.now else s.now
  }

  predicate Enabled(w: World, s: Step, cfg: Config, hash: A.Hasher) {
    if s.Authenticate? then s.pid !in w.calls
    else
      s.pid in w.calls && Touches(cfg, hash, w.calls[s.pid].q).Some? &&
      if s.SendIncr? then w.calls[s.pid].phase.Counting? else w.calls[s.pid].phase.Arming?
  }

  function BucketOf(w: World, pid: nat, cfg: Config, hash: A.Hasher): string
    requires pid in w.calls && Touches(cfg, hash, w.calls[pid].q).Some?
  {
    Touches(cfg, hash, w.calls[pid].q).value.key
  }

  function LimitOf(w: World, pid: nat, cfg: Config, hash: A.Hasher): Limit
    requires pid in w.calls && Touches(cfg, hash, w.calls[pid].q).Some?
  {
    TouchedCheck(cfg, hash, w.calls[pid].q);
    LimitFor(cfg, hash, w.calls[pid].q).value
  }

  /** A request that meets no limiter is over once it is authenticated. */
  function Begun(q: Request, cfg: Config, hash: A.Hasher): Call {
    Call(q, if Touches(cfg, hash, q).Some? then Counting else Finished(ResponseTo(cfg, hash, q, None)))
  }

  function Apply(w: World, s: Step, cfg: Config, hash: A.Hasher): World {
    if !Enabled(w, s, cfg, hash) then w
    else match s
      case Authenticate(pid, q) => w.(calls := w.calls[pid := Begun(q, cfg, hash)])
      case SendIncr(pid, now, fate) =>
        var q, key := w.calls[pid].q, BucketOf(w, pid, cfg, hash);
        if fate.Unsent? then w.(calls := w.calls[pid := Call(q, Finished(ResponseTo(cfg, hash, q, None)))])
        else
          var c := Bumped(Stored(w.counters, key), now);
          var verdict := if fate.Unheard? then None else Some(c.count <= LimitOf(w, pid, cfg, hash).limit);
          var answer := ResponseTo(cfg, hash, q, verdict);
          var phase := if fate.Answered? && c.count == 1 then Arming(answer) else Finished(answer);
          World(w.counters[key := c], w.calls[pid := Call(q, phase)])
      case SendExpire(pid, now, fails) =>
        var key, call := BucketOf(w, pid, cfg, hash), w.calls[pid];
        var c, deadline := Stored(w.counters, key), Some(now + LimitOf(w, pid, cfg, hash).window);
        World(if fails || !Alive(c, now) then w.counters else w.counters[key := c.value.(expires := deadline)],
              w.calls[pid := Call(call.q, Finished(call.phase.answer))])
  }

  function At(steps: seq<Step>, n: nat, cfg: Config, hash: A.Hasher): World
    requires n <= |steps|
  {
    if n == 0 then World(map[], map[]) else Apply(At(steps, n - 1, cfg, hash), steps[n - 1], cfg, hash)
  }

  // ---------- One request at a time ----------

  /** The three steps of a request with nothing in between are what the middleware chain does with it. */
  lemma UndisturbedIsServe(w: World, pid: nat, cfg: Config, hash: A.Hasher, q: Request)
    requires pid !in w.calls && Positive(w.counters)
    ensures var begun := Apply(w, Authenticate(pid, q), cfg, hash);
            var counted := Apply(begun, SendIncr(pid, q.now, q.incr), cfg, hash);
            var done := Apply(counted, SendExpire(pid, q.now, q.expireFails), cfg, hash);
            && done.counters == AfterRequest(w.counters, Touches(cfg, hash, q))
            && done.calls == w.calls[pid := Call(q, Finished(ServeSpec(w.counters, cfg, hash, q)))]
  {
    hide Identity, Touches, LimitFor, ResponseTo;
    TouchedCheck(cfg, hash, q);
  }

  // ---------- The commands on one bucket ----------

  predicate OnBucket(w: World, pid: nat, cfg: Config, hash: A.Hasher, key: string) {
    pid in w.calls && Touches(cfg, hash, w.calls[pid].q).Some? && BucketOf(w, pid, cfg, hash) == key
  }

  /** The command that a step sends to the bucket. */
  function TripOf(w: World, s: Step, cfg: Config, hash: A.Hasher, key: string): seq<Trip> {
    if s.Authenticate? || !Enabled(w, s, cfg, hash) || !OnBucket(w, s.pid, cfg, hash, key) then []
    else [if s.SendIncr? then Incr(s.pid, s.now, s.fate) else Expire(s.pid, s.now, s.fails)]
  }

  function TripsOn(steps: seq<Step>, n: nat, cfg: Config, hash: A.Hasher, key: string): seq<Trip>
    requires n <= |steps|
  {
    if n == 0 then []
    else TripsOn(steps, n - 1, cfg, hash, key) + TripOf(At(steps, n - 1, cfg, hash), steps[n - 1], cfg, hash, key)
  }

  /** The calls that are about to arm the counter of the bucket. */
  function ArmingOn(w: World, cfg: Config, hash: A.Hasher, key: string): set<nat> {
    set pid | pid in w.calls && OnBucket(w, pid, cfg, hash, key) && w.calls[pid].phase.Arming?
  }

  /** Whoever touches the bucket meets the same limiter. */
  ghost predicate OneOwner(cfg: Config, hash: A.Hasher, key: string, l: Limit) {
    forall q :: Touches(cfg, hash, q).Some? && Touches(cfg, hash, q).value.key == key ==>
      LimitFor(cfg, hash, q) == Some(l)
  }

  /** What a bucket goes through is one step of the race of the commands on it. */
  lemma StepRaces(w: World, s: Step, cfg: Config, hash: A.Hasher, key: string, l: Limit)
    requires OneOwner(cfg, hash, key, l)
    ensures var before := Race(Stored(w.counters, key), ArmingOn(w, cfg, hash, key));
            var w' := Apply(w, s, cfg, hash);
            var after := Race(Stored(w'.counters, key), ArmingOn(w', cfg, hash, key));
            var trip := TripOf(w, s, cfg, hash, key);
            if trip == [] then after == before
            else Sent(before, trip[0]) && after == AfterTrip(before, trip[0], l.window)
  {
    hide Touches, LimitFor, ResponseTo, Alive;
    var w' := Apply(w, s, cfg, hash);
    if TripOf(w, s, cfg, hash, key) == [] {
      assert ArmingOn(w', cfg, hash, key) == ArmingOn(w, cfg, hash, key);
    } else if s.SendIncr? && w'.calls[s.pid].phase.Arming? {
      assert ArmingOn(w', cfg, hash, key) == ArmingOn(w, cfg, hash, key) + {s.pid};
    } else {
      assert ArmingOn(w', cfg, hash, key) == ArmingOn(w, cfg, hash, key) - {s.pid};
    }
  }

  lemma {:induction false} RacePrefix(trips: seq<Trip>, more: seq<Trip>, n: nat, window: int)
    requires n <= |trips|
    ensures RaceAt(trips + more, n, window) == RaceAt(trips, n, window)
    decreases n
  {
    if n > 0 {
      RacePrefix(trips, more, n - 1, window);
    }
  }

  lemma LastTrip(trips: seq<Trip>, t: Trip, window: int)
    ensures RaceAt(trips + [t], |trips| + 1, window) == AfterTrip(RaceAt(trips, |trips|, window), t, window)
  {
    RacePrefix(trips, [t], |trips|, window);
  }

  /** In every interleaving the counter of a bucket is that of the race of the commands on this bucket alone. */
  lemma {:induction false} BucketRaces(steps: seq<Step>, n: nat, cfg: Config, hash: A.Hasher, key: string, l: Limit)
    requires n <= |steps| && OneOwner(cfg, hash, key, l)
    ensures var w, trips := At(steps, n, cfg, hash), TripsOn(steps, n, cfg, hash, key);
            RaceAt(trips, |trips|, l.window) == Race(Stored(w.counters, key), ArmingOn(w, cfg, hash, key))
    decreases n
  {
    hide Apply, TripOf, ArmingOn, OneOwner, AfterTrip;
    if n == 0 {
      assert ArmingOn(At(steps, 0, cfg, hash), cfg, hash, key) == {} by { NobodyArms(cfg, hash, key); }
    } else {
      BucketRaces(steps, n - 1, cfg, hash, key, l);
      var w, trips := At(steps, n - 1, cfg, hash), TripsOn(steps, n - 1, cfg, hash, key);
      StepRaces(w, steps[n - 1], cfg, hash, key, l);
      var trip := TripOf(w, steps[n - 1], cfg, hash, key);
      OneTrip(w, steps[n - 1], cfg, hash, key);
      if trip == [] {
        assert trips + trip == trips;
      } else {
        LastTrip(trips, trip[0], l.window);
      }
    }
  }

  lemma NobodyArms(cfg: Config, hash: A.Hasher, key: string)
    ensures ArmingOn(World(map[], map[]), cfg, hash, key) == {}
  {
  }

  lemma OneTrip(w: World, s: Step, cfg: Config, hash: A.Hasher, key: string)
    ensures var trip := TripOf(w, s, cfg, hash, key); trip == [] || (trip == [trip[0]] && trip[0].now == TimeOf(s))
  {
  }

  // ---------- Counting ----------

  /** Step i is an INCR on the bucket that is heard of and within the limit. */
  predicate Passed(steps: seq<Step>, i: nat, cfg: Config, hash: A.Hasher, key: string, l: Limit)
    requires i < |steps|
  {
    var w, s := At(steps, i, cfg, hash), steps[i];
    s.SendIncr? && Enabled(w, s, cfg, hash) && OnBucket(w, s.pid, cfg, hash, key) && s.fate.Answered? &&
    Bumped(Stored(w.counters, key), s.now).count <= l.limit
  }

  function PassedIn(steps: seq<Step>, n: nat, cfg: Config, hash: A.Hasher, key: string, x: int, l: Limit): nat
    requires n <= |steps|
  {
    if n == 0 then 0
    else PassedIn(steps, n - 1, cfg, hash, key, x, l) +
         if x <= TimeOf(steps[n - 1]) < x + l.window && Passed(steps, n - 1, cfg, hash, key, l) then 1 else 0
  }

  lemma {:induction false} AdmittedPrefix(trips: seq<Trip>, more: seq<Trip>, n: nat, x: int, l: Limit)
    requires n <= |trips|
    ensures AdmittedTripsIn(trips + more, n, x, l.limit, l.window) == AdmittedTripsIn(trips, n, x, l.limit, l.window)
    decreases n
  {
    if n > 0 {
      AdmittedPrefix(trips, more, n - 1, x, l);
      RacePrefix(trips, more, n - 1, l.window);
    }
  }

  lemma LastAdmitted(trips: seq<Trip>, t: Trip, x: int, l: Limit)
    ensures var s := RaceAt(trips, |trips|, l.window);
            var admitted := t.Incr? && Sent(s, t) && t.fate.Answered? && Bumped(s.counter, t.now).count <= l.limit;
            AdmittedTripsIn(trips + [t], |trips| + 1, x, l.limit, l.window) ==
            AdmittedTripsIn(trips, |trips|, x, l.limit, l.window) +
            if x <= t.now < x + l.window && admitted then 1 else 0
  {
    RacePrefix(trips, [t], |trips|, l.window);
    AdmittedPrefix(trips, [t], |trips|, x, l);
  }

  /** A step passes exactly when the command it sends is admitted in the race of the bucket. */
  lemma StepPassed(steps: seq<Step>, i: nat, cfg: Config, hash: A.Hasher, key: string, l: Limit)
    requires i < |steps|
    ensures var w := At(steps, i, cfg, hash);
            var s := Race(Stored(w.counters, key), ArmingOn(w, cfg, hash, key));
            var trip := TripOf(w, steps[i], cfg, hash, key);
            Passed(steps, i, cfg, hash, key, l) <==>
            trip != [] && trip[0].Incr? && Sent(s, trip[0]) && trip[0].fate.Answered? &&
            Bumped(s.counter, trip[0].now).count <= l.limit
  {
    hide At, Touches, Bumped;
  }

  lemma {:induction false} PassedAreAdmitted(steps: seq<Step>, n: nat, cfg: Config, hash: A.Hasher, key: string, x: int,
                                             l: Limit)
    requires n <= |steps| && OneOwner(cfg, hash, key, l)
    ensures var trips := TripsOn(steps, n, cfg, hash, key);
            PassedIn(steps, n, cfg, hash, key, x, l) == AdmittedTripsIn(trips, |trips|, x, l.limit, l.window)
    decreases n
  {
    hide Apply, ArmingOn, OneOwner, RaceAt, Bumped, TripOf, Passed, At, Sent, TimeOf;
    if n > 0 {
      PassedAreAdmitted(steps, n - 1, cfg, hash, key, x, l);
      BucketRaces(steps, n - 1, cfg, hash, key, l);
      StepPassed(steps, n - 1, cfg, hash, key, l);
      var w, s, trips := At(steps, n - 1, cfg, hash), steps[n - 1], TripsOn(steps, n - 1, cfg, hash, key);
      var trip := TripOf(w, s, cfg, hash, key);
      OneTrip(w, s, cfg, hash, key);
      if trip == [] {
        assert trips + trip == trips;
      } else {
        LastAdmitted(trips, trip[0], x, l);
      }
    }
  }

  ghost predicate InStepOrder(steps: seq<Step>) {
    forall i, j :: 0 <= i <= j < |steps| ==> TimeOf(steps[i]) <= TimeOf(steps[j])
  }

  lemma {:induction false} TripsInOrder(steps: seq<Step>, n: nat, cfg: Config, hash: A.Hasher, key: string)
    requires n <= |steps| && InStepOrder(steps)
    ensures var trips := TripsOn(steps, n, cfg, hash, key);
            InTripOrder(trips) && forall k :: 0 <= k < |trips| ==> n > 0 && trips[k].now <= TimeOf(steps[n - 1])
    decreases n
  {
    hide TripOf, TimeOf, At;
    if n > 0 {
      TripsInOrder(steps, n - 1, cfg, hash, key);
      assert n > 1 ==> TimeOf(steps[n - 2]) <= TimeOf(steps[n - 1]);
      OneTrip(At(steps, n - 1, cfg, hash), steps[n - 1], cfg, hash, key);
    }
  }

  lemma BucketBound(steps: seq<Step>, cfg: Config, hash: A.Hasher, key: string, x: int, l: Limit)
    requires InStepOrder(steps) && l.window > 0 && OneOwner(cfg, hash, key, l)
    ensures PassedIn(steps, |steps|, cfg, hash, key, x, l) <= 2 * Quota(l.limit)
  {
    hide OneOwner;
    PassedAreAdmitted(steps, |steps|, cfg, hash, key, x, l);
    TripsInOrder(steps, |steps|, cfg, hash, key);
    RacingCallsAtMostTwiceTheLimit(TripsOn(steps, |steps|, cfg, hash, key), x, l.limit, l.window);
  }

  /** With step i the request of an authenticated key is let through to its handler by a reachable limiter. */
  predicate LetThrough(steps: seq<Step>, i: nat, cfg: Config, hash: A.Hasher, id: int)
    requires i < |steps|
  {
    Decided(steps, i, cfg, hash, Handled) &&
    var q := At(steps, i, cfg, hash).calls[steps[i].pid].q;
    Identity(hash, q).Some? && Identity(hash, q).value.id == id
  }

  /** With step i a request from the address is answered with the plain 401 by a reachable guard. */
  predicate Rejected(steps: seq<Step>, i: nat, cfg: Config, hash: A.Hasher, ip: string)
    requires i < |steps|
  {
    Decided(steps, i, cfg, hash, Unauthorized) && At(steps, i, cfg, hash).calls[steps[i].pid].q.ip == ip
  }

  /** Step i is an INCR that is heard of, and it settles the answer of its request. */
  predicate Decided(steps: seq<Step>, i: nat, cfg: Config, hash: A.Hasher, answer: Response)
    requires i < |steps|
  {
    var w, s := At(steps, i, cfg, hash), steps[i];
    s.SendIncr? && Enabled(w, s, cfg, hash) && s.fate.Answered? &&
    var phase := Apply(w, s, cfg, hash).calls[s.pid].phase;
    !phase.Counting? && phase.answer == answer
  }

  function LetThroughIn(steps: seq<Step>, n: nat, cfg: Config, hash: A.Hasher, id: int, x: int, window: int): nat
    requires n <= |steps|
  {
    if n == 0 then 0
    else LetThroughIn(steps, n - 1, cfg, hash, id, x, window) +
         if x <= TimeOf(steps[n - 1]) < x + window && LetThrough(steps, n - 1, cfg, hash, id) then 1 else 0
  }

  function RejectedIn(steps: seq<Step>, n: nat, cfg: Config, hash: A.Hasher, ip: string, x: int, window: int): nat
    requires n <= |steps|
  {
    if n == 0 then 0
    else RejectedIn(steps, n - 1, cfg, hash, ip, x, window) +
         if x <= TimeOf(steps[n - 1]) < x + window && Rejected(steps, n - 1, cfg, hash, ip) then 1 else 0
  }

  lemma LetThroughPassed(steps: seq<Step>, i: nat, cfg: Config, hash: A.Hasher, id: int, l: Limit)
    requires i < |steps| && cfg.auth && cfg.limiter == Some(l) && LetThrough(steps, i, cfg, hash, id)
    ensures Passed(steps, i, cfg, hash, PREFIX + KeyBucket(id), l)
  {
    hide Identity, KeyBucket, FailBucket, At, Bumped;
  }

  lemma RejectedPassed(steps: seq<Step>, i: nat, cfg: Config, hash: A.Hasher, ip: string, l: Limit)
    requires i < |steps| && cfg.auth && cfg.guard == Some(l) && Rejected(steps, i, cfg, hash, ip)
    ensures Passed(steps, i, cfg, hash, PREFIX + FailBucket(ip), l)
  {
    hide Identity, KeyBucket, FailBucket, At, Bumped;
  }

  lemma {:induction false} LetThroughCount(steps: seq<Step>, n: nat, cfg: Config, hash: A.Hasher, id: int, x: int,
                                           l: Limit)
    requires n <= |steps| && cfg.auth && cfg.limiter == Some(l)
    ensures LetThroughIn(steps, n, cfg, hash, id, x, l.window)
         <= PassedIn(steps, n, cfg, hash, PREFIX + KeyBucket(id), x, l)
    decreases n
  {
    hide LetThrough, Passed, KeyBucket;
    if n > 0 {
      LetThroughCount(steps, n - 1, cfg, hash, id, x, l);
      if LetThrough(steps, n - 1, cfg, hash, id) {
        LetThroughPassed(steps, n - 1, cfg, hash, id, l);
      }
    }
  }

  lemma {:induction false} RejectedCount(steps: seq<Step>, n: nat, cfg: Config, hash: A.Hasher, ip: string, x: int,
                                         l: Limit)
    requires n <= |steps| && cfg.auth && cfg.guard == Some(l)
    ensures RejectedIn(steps, n, cfg, hash, ip, x, l.window)
         <= PassedIn(steps, n, cfg, hash, PREFIX + FailBucket(ip), x, l)
    decreases n
  {
    hide Rejected, Passed, FailBucket;
    if n > 0 {
      RejectedCount(steps, n - 1, cfg, hash, ip, x, l);
      if Rejected(steps, n - 1, cfg, hash, ip) {
        RejectedPassed(steps, n - 1, cfg, hash, ip, l);
      }
    }
  }

  // ---------- Main results ----------

  /**
   However the requests overlap and whatever is lost, in any interval of one window length a reachable
   limiter lets at most twice the limit of requests of one API key through to a handler.
   */
  lemma ConcurrentKeyQuota(steps: seq<Step>, cfg: Config, hash: A.Hasher, id: int, x: int, l: Limit)
    requires InStepOrder(steps) && cfg.auth && cfg.limiter == Some(l) && l.window > 0
    ensures LetThroughIn(steps, |steps|, cfg, hash, id, x, l.window) <= 2 * Quota(l.limit)
  {
    hide Touches, LimitFor, KeyBucket, Identity;
    assert OneOwner(cfg, hash, PREFIX + KeyBucket(id), l) by {
      forall q | Touches(cfg, hash, q).Some? && Touches(cfg, hash, q).value.key == PREFIX + KeyBucket(id)
        ensures LimitFor(cfg, hash, q) == Some(l)
      {
        KeyBucketOwner(cfg, hash, q, id);
      }
    }
    BucketBound(steps, cfg, hash, PREFIX + KeyBucket(id), x, l);
    LetThroughCount(steps, |steps|, cfg, hash, id, x, l);
  }

  /** The flood guard bounds the plain rejections of an address in the same way. */
  lemma ConcurrentRejectionQuota(steps: seq<Step>, cfg: Config, hash: A.Hasher, ip: string, x: int, l: Limit)
    requires InStepOrder(steps) && cfg.auth && cfg.guard == Some(l) && l.window > 0
    ensures RejectedIn(steps, |steps|, cfg, hash, ip, x, l.window) <= 2 * Quota(l.limit)
  {
    hide Touches, LimitFor, FailBucket, Identity;
    assert OneOwner(cfg, hash, PREFIX + FailBucket(ip), l) by {
      forall q | Touches(cfg, hash, q).Some? && Touches(cfg, hash, q).value.key == PREFIX + FailBucket(ip)
        ensures LimitFor(cfg, hash, q) == Some(l)
      {
        FailBucketOwner(cfg, hash, q, ip);
      }
    }
    BucketBound(steps, cfg, hash, PREFIX + FailBucket(ip), x, l);
    RejectedCount(steps, |steps|, cfg, hash, ip, x, l);
  }
}
