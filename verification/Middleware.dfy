/**
 The two middlewares of /api/v1 as a request state machine: authentication with its flood guard,
 then rate limiting. Both limiters count on the same Redis.
 */
module Middleware {
  import opened Prelude
  import opened RateLimiter
  import A = Auth
  import CacheStore
  import Query

  // ---------- Bucket names ----------

  function Digit(n: nat): char
    requires n < 10
  {
    ('0' as int + n) as char
  }

  function Digits(n: nat): (s: string)
    ensures |s| >= 1 && '0' <= s[0] <= '9' && (|s| == 1 <==> n < 10)
  {
    if n < 10 then [Digit(n)] else Digits(n / 10) + [Digit(n % 10)]
  }

  /** %d */
  function Decimal(n: int): string {
    if n < 0 then "-" + Digits(-n) else Digits(n)
  }

  lemma {:induction false} DigitsInjective(a: nat, b: nat)
    requires Digits(a) == Digits(b)
    ensures a == b
    decreases a
  {
    var x, y := Digits(a), Digits(b);
    if a >= 10 {
      assert x[..|x| - 1] == Digits(a / 10) && y[..|y| - 1] == Digits(b / 10);
      assert x[|x| - 1] == Digit(a % 10) && y[|y| - 1] == Digit(b % 10);
      DigitsInjective(a / 10, b / 10);
    }
  }

  lemma DecimalInjective(a: int, b: int)
    ensures Decimal(a) == Decimal(b) ==> a == b
  {
    if Decimal(a) == Decimal(b) {
      assert a < 0 <==> Decimal(a)[0] == '-';
      assert b < 0 <==> Decimal(b)[0] == '-';
      if a < 0 {
        assert Decimal(a)[1..] == Digits(-a) && Decimal(b)[1..] == Digits(-b);
        DigitsInjective(-a, -b);
      } else {
        DigitsInjective(a, b);
      }
    }
  }

  function KeyBucket(id: int): string { "key:" + Decimal(id) }

  function FailBucket(ip: string): string { "authfail:" + ip }

  function IpBucket(ip: string): string { "ip:" + ip }

  /** Reading a digit string back, most significant digit first. */
  function NumberOf(s: string): int {
    if s == "" then 0 else 10 * NumberOf(s[..|s| - 1]) + (s[|s| - 1] as int - '0' as int)
  }

  lemma {:induction false} DigitsRead(n: nat)
    ensures NumberOf(Digits(n)) == n
    decreases n
  {
    if n >= 10 {
      DigitsRead(n / 10);
      assert Digits(n)[..|Digits(n)| - 1] == Digits(n / 10);
    } else {
      assert Digits(n)[..0] == "";
    }
  }

  /** The Redis keys of the three kinds of bucket; ids are written in decimal. */
  lemma BucketNames(id: nat, ip: string)
    ensures exists s :: NumberOf(s) == id && PREFIX + KeyBucket(id) == "fda:rl:key:" + s
    ensures PREFIX + FailBucket(ip) == "fda:rl:authfail:" + ip
    ensures PREFIX + IpBucket(ip) == "fda:rl:ip:" + ip
  {
    DigitsRead(id);
    assert PREFIX + KeyBucket(id) == "fda:rl:key:" + Digits(id);
    assert PREFIX + FailBucket(ip) == "fda:rl:authfail:" + ip;
    assert PREFIX + IpBucket(ip) == "fda:rl:ip:" + ip;
  }

  /** No two buckets share a Redis key, and none is a key of the response cache. */
  lemma BucketsApart(id: int, id': int, ip: string, ip': string, kind: Query.Kind, sym: string)
    ensures PREFIX + KeyBucket(id) == PREFIX + KeyBucket(id') ==> id == id'
    ensures PREFIX + FailBucket(ip) == PREFIX + FailBucket(ip') ==> ip == ip'
    ensures PREFIX + IpBucket(ip) == PREFIX + IpBucket(ip') ==> ip == ip'
    ensures PREFIX + KeyBucket(id) != PREFIX + FailBucket(ip) && PREFIX + KeyBucket(id) != PREFIX + IpBucket(ip)
    ensures PREFIX + FailBucket(ip) != PREFIX + IpBucket(ip')
    ensures CacheStore.Rendered(Query.KeyOf(kind, sym)) != PREFIX + KeyBucket(id)
    ensures CacheStore.Rendered(Query.KeyOf(kind, sym)) != PREFIX + FailBucket(ip)
    ensures CacheStore.Rendered(Query.KeyOf(kind, sym)) != PREFIX + IpBucket(ip)
  {
    hide KeyBucket, FailBucket, IpBucket, CacheStore.Rendered, Query.KeyOf, Decimal;
    KeyBucketShape(id);
    KeyBucketShape(id');
    IpShapes(ip);
    IpShapes(ip');
    CacheKeyShape(kind, sym);
    DecimalInjective(id, id');
  }

  lemma KeyBucketShape(id: int)
    ensures var k := PREFIX + KeyBucket(id); |k| >= 11 && k[4] == 'r' && k[7] == 'k' && k[11..] == Decimal(id)
  {
    hide Decimal;
    assert (PREFIX + KeyBucket(id))[11..] == Decimal(id);
  }

  lemma IpShapes(ip: string)
    ensures var f := PREFIX + FailBucket(ip); |f| >= 16 && f[4] == 'r' && f[7] == 'a' && f[16..] == ip
    ensures var i := PREFIX + IpBucket(ip); |i| >= 10 && i[4] == 'r' && i[7] == 'i' && i[10..] == ip
  {
    assert (PREFIX + FailBucket(ip))[16..] == ip;
    assert (PREFIX + IpBucket(ip))[10..] == ip;
  }

  lemma CacheKeyShape(kind: Query.Kind, sym: string)
    ensures var c := CacheStore.Rendered(Query.KeyOf(kind, sym)); |c| >= 5 && c[4] != 'r'
  {
  }

  // ---------- One request ----------

  datatype Limit = Limit(limit: int, window: int)

  /** Which middleware is wired, as Options says. */
  datatype Config = Config(auth: bool, limiter: Option<Limit>, guard: Option<Limit>)

  /** A request with the key table it meets and everything that may fail around it. */
  datatype Request = Request(header: string, ip: string, now: int, table: A.Table, lookupFails: bool,
                             incr: Fate, expireFails: bool)

  datatype Response = Handled | Unauthorized | TooManyFailures | RateLimited

  /** The key a request authenticates as; a failing lookup is a rejection like any other. */
  function Identity(hash: A.Hasher, q: Request): Option<A.APIKey> {
    if q.lookupFails then None else A.ValidateSpec(q.table, hash, q.header, q.now)
  }

  function CheckIn(q: Request): Check {
    Check(q.now, q.incr, q.expireFails)
  }

  /** The one counter a request touches, if any. */
  function Touches(cfg: Config, hash: A.Hasher, q: Request): Option<KeyedCheck> {
    if cfg.auth && Identity(hash, q).None? then
      match cfg.guard
      case None => None
      case Some(l) => Some(KeyedCheck(PREFIX + FailBucket(q.ip), CheckIn(q), l.window))
    else
      match cfg.limiter
      case None => None
      case Some(l) =>
        var bucket := if cfg.auth then KeyBucket(Identity(hash, q).value.id) else IpBucket(q.ip);
        Some(KeyedCheck(PREFIX + bucket, CheckIn(q), l.window))
  }

  function AfterRequest(counters: map<string, Counter>, touched: Option<KeyedCheck>): map<string, Counter> {
    if touched.None? then counters else AfterOne(counters, touched.value)
  }

  function LimitFor(cfg: Config, hash: A.Hasher, q: Request): Option<Limit> {
    if cfg.auth && Identity(hash, q).None? then cfg.guard else cfg.limiter
  }

  /** A limiter was met, reached, and said no. */
  predicate Refuses(counters: map<string, Counter>, touched: Option<KeyedCheck>, l: Option<Limit>) {
    touched.Some? && l.Some? &&
    Verdict(Stored(counters, touched.value.key), touched.value.check, l.value.limit) == Some(false)
  }

  class Handler {
    const redis: Redis
    const keys: A.KeyStore
    const auth: A.AuthService?
    const limiter: RedisLimiter?
    const authGuard: RedisLimiter?

    ghost predicate Wired()
    {
      && (auth != null ==> auth.store == keys)
      && (limiter != null ==> limiter.client == redis)
      && (authGuard != null ==> authGuard.client == redis)
    }

    constructor (redis: Redis, keys: A.KeyStore, auth: A.AuthService?, limiter: RedisLimiter?, authGuard: RedisLimiter?)
      requires auth != null ==> auth.store == keys
      requires limiter != null ==> limiter.client == redis
      requires authGuard != null ==> authGuard.client == redis
      ensures Wired() && this.redis == redis && this.keys == keys
      ensures this.auth == auth && this.limiter == limiter && this.authGuard == authGuard
    {
      this.redis, this.keys, this.auth, this.limiter, this.authGuard := redis, keys, auth, limiter, authGuard;
    }

    function Wiring(): Config {
      Config(auth != null,
             if limiter == null then None else Some(Limit(limiter.limit, limiter.window)),
             if authGuard == null then None else Some(Limit(authGuard.limit, authGuard.window)))
    }

    function Hash(): A.Hasher {
      if auth == null then (s: string) => s else auth.hash
    }

    /** Reports whether the flood guard answered the request with 429; an unreachable guard does not. */
    method BlockedByAuthFloodGuard(q: Request) returns (blocked: bool)
      requires Wired() && Positive(redis.counters)
      modifies redis
      ensures Positive(redis.counters)
      ensures authGuard == null ==> !blocked && redis.counters == old(redis.counters)
      ensures authGuard != null ==>
                var k := KeyedCheck(PREFIX + FailBucket(q.ip), CheckIn(q), authGuard.window);
                redis.counters == AfterOne(old(redis.counters), k) &&
                (blocked <==> Verdict(Stored(old(redis.counters), k.key), k.check, authGuard.limit) == Some(false))
    {
      if authGuard == null {
        return false;
      }
      var ok := authGuard.Allow(FailBucket(q.ip), CheckIn(q));
      var k := KeyedCheck(PREFIX + FailBucket(q.ip), CheckIn(q), authGuard.window);
      SameCounters(redis.counters, AfterOne(old(redis.counters), k));
      if ok.None? {
        return false;
      }
      blocked := !ok.value;
    }

    /** The answer of authRequire: pass on with the identity, or end the request. */
    method AuthRequire(q: Request) returns (ended: Option<Response>, id: Option<int>)
      requires Wired() && Positive(redis.counters) && q.table == keys.table
      modifies redis
      ensures Positive(redis.counters)
      ensures var identity := Identity(Hash(), q);
              if auth == null then ended == None && id == None && redis.counters == old(redis.counters)
              else if identity.Some? then
                ended == None && id == Some(identity.value.id) && redis.counters == old(redis.counters)
              else
                var touched := Touches(Wiring(), Hash(), q);
                redis.counters == AfterRequest(old(redis.counters), touched) && id == None &&
                ended == Some(if Refuses(old(redis.counters), touched, LimitFor(Wiring(), Hash(), q))
                              then TooManyFailures else Unauthorized)
    {
      hide A.FirstMatch, A.WithPrefix, A.IsRawKey;
      if auth == null {
        return None, None;
      }
      var key := auth.Validate(q.header, q.now, q.lookupFails);
      if key.Err? {
        var blocked := BlockedByAuthFloodGuard(q);
        return Some(if blocked then TooManyFailures else Unauthorized), None;
      }
      return None, Some(key.value.id);
    }

    /** None lets the request through to its handler. */
    method RateLimit(q: Request, id: Option<int>) returns (ended: Option<Response>)
      requires Wired() && Positive(redis.counters)
      modifies redis
      ensures Positive(redis.counters)
      ensures limiter == null ==> ended == None && redis.counters == old(redis.counters)
      ensures limiter != null ==>
                var bucket := if id.Some? then KeyBucket(id.value) else IpBucket(q.ip);
                var k := KeyedCheck(PREFIX + bucket, CheckIn(q), limiter.window);
                redis.counters == AfterOne(old(redis.counters), k) &&
                ended == if Verdict(Stored(old(redis.counters), k.key), k.check, limiter.limit) == Some(false)
                         then Some(RateLimited) else None
    {
      if limiter == null {
        return None;
      }
      var key := IpBucket(q.ip);
      if id.Some? {
        key := KeyBucket(id.value);
      }
      var ok := limiter.Allow(key, CheckIn(q));
      SameCounters(redis.counters, AfterOne(old(redis.counters), KeyedCheck(PREFIX + key, CheckIn(q), limiter.window)));
      if ok.None? {
        return None;
      }
      if !ok.value {
        return Some(RateLimited);
      }
      return None;
    }

    /** The middleware chain of the route group. */
    method Serve(q: Request) returns (r: Response)
      requires Wired() && Positive(redis.counters) && q.table == keys.table
      modifies redis
      ensures Positive(redis.counters)
      ensures redis.counters == AfterRequest(old(redis.counters), Touches(Wiring(), Hash(), q))
      ensures r == ServeSpec(old(redis.counters), Wiring(), Hash(), q)
    {
      hide A.ValidateSpec;
      var ended, id := AuthRequire(q);
      if ended.Some? {
        return ended.value;
      }
      ended := RateLimit(q, id);
      if ended.Some? {
        return ended.value;
      }
      r := Handled;
    }
  }

  lemma SameCounters(a: map<string, Counter>, b: map<string, Counter>)
    requires forall k :: Stored(a, k) == Stored(b, k)
    ensures a == b
  {
    forall k
      ensures k in a <==> k in b
      ensures k in a ==> a[k] == b[k]
    {
      assert Stored(a, k) == Stored(b, k);
    }
  }

  /** The verdict of the limiter a request meets; None when it meets none or cannot reach it. */
  function VerdictOn(counters: map<string, Counter>, cfg: Config, hash: A.Hasher, q: Request): Option<bool> {
    var touched := Touches(cfg, hash, q);
    if touched.None? then None
    else Verdict(Stored(counters, touched.value.key), CheckIn(q), LimitFor(cfg, hash, q).value.limit)
  }

  /** Authentication decides which limiter is met; only an explicit no of that limiter changes the answer. */
  function ResponseTo(cfg: Config, hash: A.Hasher, q: Request, verdict: Option<bool>): Response {
    var refused := verdict == Some(false);
    if cfg.auth && Identity(hash, q).None? then if refused then TooManyFailures else Unauthorized
    else if refused then RateLimited else Handled
  }

  function ServeSpec(counters: map<string, Counter>, cfg: Config, hash: A.Hasher, q: Request): Response {
    ResponseTo(cfg, hash, q, VerdictOn(counters, cfg, hash, q))
  }

  /** With auth wired, a handler runs exactly when the key validated and the limiter did not say no. */
  lemma HandlerRunsIff(counters: map<string, Counter>, cfg: Config, hash: A.Hasher, q: Request)
    requires cfg.auth
    ensures ServeSpec(counters, cfg, hash, q) == Handled <==>
            Identity(hash, q).Some? &&
            (cfg.limiter.None? || !q.incr.Answered? ||
             var bucket := PREFIX + KeyBucket(Identity(hash, q).value.id);
             Verdict(Stored(counters, bucket), CheckIn(q), cfg.limiter.value.limit) == Some(true))
  {
    hide Identity;
  }

  // ---------- Every run ----------

  /** The counters when request i arrives. */
  function CountersAt(reqs: seq<Request>, i: nat, cfg: Config, hash: A.Hasher): map<string, Counter>
    requires i <= |reqs|
  {
    if i == 0 then map[]
    else AfterRequest(CountersAt(reqs, i - 1, cfg, hash), Touches(cfg, hash, reqs[i - 1]))
  }

  /** The checks that the first i requests make on one Redis key. */
  function ChecksOn(reqs: seq<Request>, i: nat, cfg: Config, hash: A.Hasher, key: string): seq<Check>
    requires i <= |reqs|
  {
    if i == 0 then []
    else
      var touched := Touches(cfg, hash, reqs[i - 1]);
      ChecksOn(reqs, i - 1, cfg, hash, key) +
      if touched.Some? && touched.value.key == key then [touched.value.check] else []
  }

  /** All requests that touch the key do it through the same limiter. */
  ghost predicate OneLimit(reqs: seq<Request>, cfg: Config, hash: A.Hasher, key: string, l: Limit) {
    forall i :: 0 <= i < |reqs| && Touches(cfg, hash, reqs[i]).Some? && Touches(cfg, hash, reqs[i]).value.key == key ==>
      LimitFor(cfg, hash, reqs[i]) == Some(l)
  }

  /** Only requests that authenticate as a key touch its bucket, and they meet the limiter. */
  lemma KeyBucketOwner(cfg: Config, hash: A.Hasher, q: Request, id: int)
    requires cfg.auth && Touches(cfg, hash, q).Some? && Touches(cfg, hash, q).value.key == PREFIX + KeyBucket(id)
    ensures LimitFor(cfg, hash, q) == cfg.limiter && Identity(hash, q).Some? && Identity(hash, q).value.id == id
  {
    hide Identity, KeyBucket, FailBucket;
    var mine := if Identity(hash, q).Some? then Identity(hash, q).value.id else id;
    BucketsApart(id, mine, q.ip, q.ip, Query.Analytics, "");
  }

  /** Only requests from an address that fail to authenticate touch its failure bucket, and they meet the guard. */
  lemma FailBucketOwner(cfg: Config, hash: A.Hasher, q: Request, ip: string)
    requires cfg.auth && Touches(cfg, hash, q).Some? && Touches(cfg, hash, q).value.key == PREFIX + FailBucket(ip)
    ensures LimitFor(cfg, hash, q) == cfg.guard && Identity(hash, q).None? && q.ip == ip
  {
    hide Identity, KeyBucket, FailBucket;
    var mine := if Identity(hash, q).Some? then Identity(hash, q).value.id else 0;
    BucketsApart(mine, 0, ip, q.ip, Query.Analytics, "");
    BucketsApart(0, 0, q.ip, ip, Query.Analytics, "");
  }

  /** Without authentication every request is counted against its address, by the limiter. */
  lemma IpBucketHasOneLimit(reqs: seq<Request>, cfg: Config, hash: A.Hasher, ip: string, l: Limit)
    requires !cfg.auth && cfg.limiter == Some(l)
    ensures OneLimit(reqs, cfg, hash, PREFIX + IpBucket(ip), l)
  {
    hide Identity, IpBucket;
  }

  lemma KeyBucketHasOneLimit(reqs: seq<Request>, cfg: Config, hash: A.Hasher, id: int, l: Limit)
    requires cfg.auth && cfg.limiter == Some(l)
    ensures OneLimit(reqs, cfg, hash, PREFIX + KeyBucket(id), l)
  {
    hide Identity, KeyBucket, Touches, LimitFor;
    forall i | 0 <= i < |reqs| && Touches(cfg, hash, reqs[i]).Some? &&
               Touches(cfg, hash, reqs[i]).value.key == PREFIX + KeyBucket(id)
      ensures LimitFor(cfg, hash, reqs[i]) == Some(l)
    {
      KeyBucketOwner(cfg, hash, reqs[i], id);
    }
  }

  lemma FailBucketHasOneLimit(reqs: seq<Request>, cfg: Config, hash: A.Hasher, ip: string, l: Limit)
    requires cfg.auth && cfg.guard == Some(l)
    ensures OneLimit(reqs, cfg, hash, PREFIX + FailBucket(ip), l)
  {
    hide Identity, FailBucket, Touches, LimitFor;
    forall i | 0 <= i < |reqs| && Touches(cfg, hash, reqs[i]).Some? &&
               Touches(cfg, hash, reqs[i]).value.key == PREFIX + FailBucket(ip)
      ensures LimitFor(cfg, hash, reqs[i]) == Some(l)
    {
      FailBucketOwner(cfg, hash, reqs[i], ip);
    }
  }

  lemma {:induction false} CheckPrefix(checks: seq<Check>, c: Check, n: nat, x: int, l: Limit)
    requires n <= |checks|
    ensures AdmittedIn(checks + [c], n, x, l.limit, l.window) == AdmittedIn(checks, n, x, l.limit, l.window)
    decreases n
  {
    if n > 0 {
      CheckPrefix(checks, c, n - 1, x, l);
      CounterAtPrefix(checks, [c], n - 1, l.window);
    }
  }

  lemma LastCheck(checks: seq<Check>, c: Check, l: Limit)
    ensures var all := checks + [c];
            && CounterAt(all, |all|, l.window) == Counted(CounterAt(checks, |checks|, l.window), c, l.window)
            && VerdictAt(all, |checks|, l.limit, l.window) == Verdict(CounterAt(checks, |checks|, l.window), c, l.limit)
  {
    CounterAtPrefix(checks, [c], |checks|, l.window);
    assert (checks + [c])[|checks|] == c;
  }

  lemma TouchedCheck(cfg: Config, hash: A.Hasher, q: Request)
    ensures Touches(cfg, hash, q).Some? ==>
              LimitFor(cfg, hash, q).Some? && Touches(cfg, hash, q).value.check == CheckIn(q)
                                            && Touches(cfg, hash, q).value.window == LimitFor(cfg, hash, q).value.window
  {
    hide Identity;
  }

  /**
   Isolation: over every request sequence the counter of a bucket, and so every verdict on it, is that of
   a limiter which sees only the requests that name this bucket.
   */
  lemma {:induction false} BucketAlone(reqs: seq<Request>, i: nat, cfg: Config, hash: A.Hasher, key: string, l: Limit)
    requires i <= |reqs| && OneLimit(reqs, cfg, hash, key, l)
    ensures var checks := ChecksOn(reqs, i, cfg, hash, key);
            Stored(CountersAt(reqs, i, cfg, hash), key) == CounterAt(checks, |checks|, l.window)
    decreases i
  {
    hide Touches, LimitFor, Verdict;
    if i > 0 {
      BucketAlone(reqs, i - 1, cfg, hash, key, l);
      var before, touched := ChecksOn(reqs, i - 1, cfg, hash, key), Touches(cfg, hash, reqs[i - 1]);
      if touched.Some? && touched.value.key == key {
        assert LimitFor(cfg, hash, reqs[i - 1]) == Some(l);
        TouchedCheck(cfg, hash, reqs[i - 1]);
        LastCheck(before, touched.value.check, l);
      } else {
        assert ChecksOn(reqs, i, cfg, hash, key) == before;
      }
    }
  }

  /** Requests among the first i on the key, timed in [x, x + window), to which its limiter said yes. */
  function PassedIn(reqs: seq<Request>, i: nat, cfg: Config, hash: A.Hasher, key: string, x: int, window: int): nat
    requires i <= |reqs|
  {
    if i == 0 then 0
    else
      var q := reqs[i - 1];
      var touched := Touches(cfg, hash, q);
      PassedIn(reqs, i - 1, cfg, hash, key, x, window) +
      if touched.Some? && touched.value.key == key && x <= q.now < x + window &&
         VerdictOn(CountersAt(reqs, i - 1, cfg, hash), cfg, hash, q) == Some(true) then 1 else 0
  }

  lemma {:induction false} PassedIsAdmitted(reqs: seq<Request>, i: nat, cfg: Config, hash: A.Hasher, key: string,
                                            x: int, l: Limit)
    requires i <= |reqs| && OneLimit(reqs, cfg, hash, key, l)
    ensures var checks := ChecksOn(reqs, i, cfg, hash, key);
            PassedIn(reqs, i, cfg, hash, key, x, l.window) == AdmittedIn(checks, |checks|, x, l.limit, l.window)
    decreases i
  {
    hide Touches, LimitFor, Verdict, Counted, CounterAt, Stored, CountersAt;
    if i > 0 {
      PassedIsAdmitted(reqs, i - 1, cfg, hash, key, x, l);
      BucketAlone(reqs, i - 1, cfg, hash, key, l);
      var before, touched := ChecksOn(reqs, i - 1, cfg, hash, key), Touches(cfg, hash, reqs[i - 1]);
      if touched.Some? && touched.value.key == key {
        assert LimitFor(cfg, hash, reqs[i - 1]) == Some(l);
        TouchedCheck(cfg, hash, reqs[i - 1]);
        LastCheck(before, touched.value.check, l);
        CheckPrefix(before, touched.value.check, |before|, x, l);
      } else {
        assert ChecksOn(reqs, i, cfg, hash, key) == before;
      }
    }
  }

  ghost predicate InOrder(reqs: seq<Request>) {
    forall i, j :: 0 <= i <= j < |reqs| ==> reqs[i].now <= reqs[j].now
  }

  lemma {:induction false} ChecksInOrder(reqs: seq<Request>, i: nat, cfg: Config, hash: A.Hasher, key: string)
    requires i <= |reqs| && InOrder(reqs)
    ensures Monotone(ChecksOn(reqs, i, cfg, hash, key))
    ensures forall k :: 0 <= k < |ChecksOn(reqs, i, cfg, hash, key)| ==>
              i > 0 && ChecksOn(reqs, i, cfg, hash, key)[k].now <= reqs[i - 1].now
    decreases i
  {
    hide Touches;
    if i > 0 {
      ChecksInOrder(reqs, i - 1, cfg, hash, key);
      assert i > 1 ==> reqs[i - 2].now <= reqs[i - 1].now;
      TouchedCheck(cfg, hash, reqs[i - 1]);
    }
  }

  lemma BucketBound(reqs: seq<Request>, cfg: Config, hash: A.Hasher, key: string, x: int, l: Limit)
    requires InOrder(reqs) && l.window > 0 && OneLimit(reqs, cfg, hash, key, l)
    ensures PassedIn(reqs, |reqs|, cfg, hash, key, x, l.window) <= 2 * Quota(l.limit)
  {
    PassedIsAdmitted(reqs, |reqs|, cfg, hash, key, x, l);
    ChecksInOrder(reqs, |reqs|, cfg, hash, key);
    AtMostTwiceTheLimit(ChecksOn(reqs, |reqs|, cfg, hash, key), x, l.limit, l.window);
  }

  /** A request i is answered by its handler for the key with this id, on a reachable limiter. */
  predicate HandledFor(reqs: seq<Request>, i: nat, cfg: Config, hash: A.Hasher, id: int)
    requires i < |reqs|
  {
    ServeSpec(CountersAt(reqs, i, cfg, hash), cfg, hash, reqs[i]) == Handled && reqs[i].incr.Answered? &&
    Identity(hash, reqs[i]).Some? && Identity(hash, reqs[i]).value.id == id
  }

  function HandledIn(reqs: seq<Request>, i: nat, cfg: Config, hash: A.Hasher, id: int, x: int, window: int): nat
    requires i <= |reqs|
  {
    if i == 0 then 0
    else HandledIn(reqs, i - 1, cfg, hash, id, x, window) +
         if x <= reqs[i - 1].now < x + window && HandledFor(reqs, i - 1, cfg, hash, id) then 1 else 0
  }

  /** A request answered with the plain 401 from this address, on a reachable guard. */
  predicate RejectedFor(reqs: seq<Request>, i: nat, cfg: Config, hash: A.Hasher, ip: string)
    requires i < |reqs|
  {
    ServeSpec(CountersAt(reqs, i, cfg, hash), cfg, hash, reqs[i]) == Unauthorized && reqs[i].incr.Answered? &&
    reqs[i].ip == ip
  }

  function RejectedIn(reqs: seq<Request>, i: nat, cfg: Config, hash: A.Hasher, ip: string, x: int, window: int): nat
    requires i <= |reqs|
  {
    if i == 0 then 0
    else RejectedIn(reqs, i - 1, cfg, hash, ip, x, window) +
         if x <= reqs[i - 1].now < x + window && RejectedFor(reqs, i - 1, cfg, hash, ip) then 1 else 0
  }

  lemma {:induction false} HandledArePassed(reqs: seq<Request>, i: nat, cfg: Config, hash: A.Hasher, id: int, x: int,
                                            window: int)
    requires i <= |reqs| && cfg.auth && cfg.limiter.Some?
    ensures HandledIn(reqs, i, cfg, hash, id, x, window) <=
              PassedIn(reqs, i, cfg, hash, PREFIX + KeyBucket(id), x, window)
    decreases i
  {
    hide Identity, KeyBucket, FailBucket;
    if i > 0 {
      HandledArePassed(reqs, i - 1, cfg, hash, id, x, window);
    }
  }

  lemma {:induction false} RejectedArePassed(reqs: seq<Request>, i: nat, cfg: Config, hash: A.Hasher, ip: string,
                                             x: int, window: int)
    requires i <= |reqs| && cfg.auth && cfg.guard.Some?
    ensures RejectedIn(reqs, i, cfg, hash, ip, x, window) <=
              PassedIn(reqs, i, cfg, hash, PREFIX + FailBucket(ip), x, window)
    decreases i
  {
    hide Identity, KeyBucket, FailBucket;
    if i > 0 {
      RejectedArePassed(reqs, i - 1, cfg, hash, ip, x, window);
    }
  }

  // ---------- Main results ----------

  /**
   Over every request sequence, in any interval of one window length at most twice the limit of
   requests per API key reach a handler through a reachable limiter, whatever other keys and
   unauthenticated clients send.
   */
  lemma KeyQuota(reqs: seq<Request>, cfg: Config, hash: A.Hasher, id: int, x: int, l: Limit)
    requires InOrder(reqs) && cfg.auth && cfg.limiter == Some(l) && l.window > 0
    ensures HandledIn(reqs, |reqs|, cfg, hash, id, x, l.window) <= 2 * Quota(l.limit)
  {
    KeyBucketHasOneLimit(reqs, cfg, hash, id, l);
    BucketBound(reqs, cfg, hash, PREFIX + KeyBucket(id), x, l);
    HandledArePassed(reqs, |reqs|, cfg, hash, id, x, l.window);
  }

  /** The flood guard bounds the plain rejections of an address in the same way. */
  lemma RejectionQuota(reqs: seq<Request>, cfg: Config, hash: A.Hasher, ip: string, x: int, l: Limit)
    requires InOrder(reqs) && cfg.auth && cfg.guard == Some(l) && l.window > 0
    ensures RejectedIn(reqs, |reqs|, cfg, hash, ip, x, l.window) <= 2 * Quota(l.limit)
  {
    FailBucketHasOneLimit(reqs, cfg, hash, ip, l);
    BucketBound(reqs, cfg, hash, PREFIX + FailBucket(ip), x, l);
    RejectedArePassed(reqs, |reqs|, cfg, hash, ip, x, l.window);
  }
}
