/** Requests against the key table as it changes: which requests reach a handler over the life of a key. */
module KeyLifecycle {
  import opened Prelude
  import opened RateLimiter
  import opened Middleware
  import A = Auth

  /** Request i meets the key table after the first epochs[i] operations on it. */
  ghost predicate Served(reqs: seq<Request>, epochs: seq<nat>, ops: seq<A.Op>, hash: A.Hasher) {
    && |epochs| == |reqs|
    && (forall i :: 0 <= i < |reqs| ==> epochs[i] <= |ops| && reqs[i].table == A.After(ops, epochs[i], hash))
    && (forall i, j :: 0 <= i <= j < |reqs| ==> epochs[i] <= epochs[j])
  }

  /** At request i the key that operation c created is neither revoked nor past its expiry. */
  predicate LiveKey(ops: seq<A.Op>, c: nat, n: nat, hash: A.Hasher, now: int)
    requires c < n <= |ops| && A.Creates(ops, c, hash)
  {
    A.FirstRevocation(ops, c + 1, n, A.After(ops, c, hash).nextId).None? &&
    (ops[c].expiresAt.None? || now <= ops[c].expiresAt.value)
  }

  /** A request with a created key has an identity exactly while the key is live and its lookup succeeds. */
  lemma IdentityOfKey(ops: seq<A.Op>, c: nat, n: nat, hash: A.Hasher, q: Request)
    requires c < n <= |ops| && A.Injective(hash) && A.Creates(ops, c, hash)
    requires q.header == A.RawKey(ops[c].bytes) && q.table == A.After(ops, n, hash)
    ensures var identity := Identity(hash, q);
            && (identity.Some? <==> !q.lookupFails && LiveKey(ops, c, n, hash, q.now))
            && (identity.Some? ==> identity.value.id == A.After(ops, c, hash).nextId)
  {
    hide A.ValidateSpec, A.RawKey, A.After, A.FirstRevocation;
    A.AcceptedUntilRevokedOrExpired(ops, c, n, hash, q.now);
  }

  /** A limiter that has seen these checks refuses the next one; one that is absent refuses nothing. */
  predicate SaysNo(limiter: Option<Limit>, checks: seq<Check>, next: Check) {
    match limiter
    case None => false
    case Some(l) => Verdict(CounterAt(checks, |checks|, l.window), next, l.limit) == Some(false)
  }

  // ---------- Main results ----------

  /**
   Over every run of key operations and requests, a request with a created key reaches its handler
   exactly when its lookup succeeds, the key is live, and the limiter, fed by nothing but the requests
   that authenticated as this key, is absent, unreachable or says yes.
   */
  lemma HandledIff(reqs: seq<Request>, epochs: seq<nat>, ops: seq<A.Op>, cfg: Config, hash: A.Hasher, c: nat, i: nat)
    requires Served(reqs, epochs, ops, hash) && cfg.auth && A.Injective(hash)
    requires i < |reqs| && c < epochs[i] && A.Creates(ops, c, hash) && reqs[i].header == A.RawKey(ops[c].bytes)
    ensures var q, bucket := reqs[i], PREFIX + KeyBucket(A.After(ops, c, hash).nextId);
            var checks := ChecksOn(reqs, i, cfg, hash, bucket);
            ServeSpec(CountersAt(reqs, i, cfg, hash), cfg, hash, q) == Handled <==>
            !q.lookupFails && LiveKey(ops, c, epochs[i], hash, q.now) &&
            !SaysNo(cfg.limiter, checks, CheckIn(q))
  {
    hide Identity, A.After, A.RawKey, LiveKey, KeyBucket, ServeSpec, ChecksOn, CountersAt, CounterAt;
    var id := A.After(ops, c, hash).nextId;
    IdentityOfKey(ops, c, epochs[i], hash, reqs[i]);
    HandlerRunsIff(CountersAt(reqs, i, cfg, hash), cfg, hash, reqs[i]);
    if cfg.limiter.Some? {
      KeyBucketHasOneLimit(reqs, cfg, hash, id, cfg.limiter.value);
      BucketAlone(reqs, i, cfg, hash, PREFIX + KeyBucket(id), cfg.limiter.value);
    }
  }

  /**
   The answer to every other request. Without an identity it is 429 when the guard, fed by nothing but the
   failures from the same address, says no, and 401 otherwise; with one it is the rate limiter's 429.
   */
  lemma RefusedWith(reqs: seq<Request>, cfg: Config, hash: A.Hasher, i: nat)
    requires cfg.auth && i < |reqs| && ServeSpec(CountersAt(reqs, i, cfg, hash), cfg, hash, reqs[i]) != Handled
    ensures var q, r := reqs[i], ServeSpec(CountersAt(reqs, i, cfg, hash), cfg, hash, reqs[i]);
            var checks := ChecksOn(reqs, i, cfg, hash, PREFIX + FailBucket(q.ip));
            var blocked := SaysNo(cfg.guard, checks, CheckIn(q));
            r == if Identity(hash, q).Some? then RateLimited else if blocked then TooManyFailures else Unauthorized
  {
    hide Identity, FailBucket, KeyBucket, ChecksOn, CountersAt, CounterAt;
    if cfg.guard.Some? {
      FailBucketHasOneLimit(reqs, cfg, hash, reqs[i].ip, cfg.guard.value);
      BucketAlone(reqs, i, cfg, hash, PREFIX + FailBucket(reqs[i].ip), cfg.guard.value);
    }
  }

  /** Without authentication a request is answered by its handler, or by 429 when the limiter says no to its address. */
  lemma OpenServiceAnswers(reqs: seq<Request>, cfg: Config, hash: A.Hasher, i: nat)
    requires !cfg.auth && i < |reqs|
    ensures var q, r := reqs[i], ServeSpec(CountersAt(reqs, i, cfg, hash), cfg, hash, reqs[i]);
            var checks := ChecksOn(reqs, i, cfg, hash, PREFIX + IpBucket(q.ip));
            var limited := SaysNo(cfg.limiter, checks, CheckIn(q));
            r == if limited then RateLimited else Handled
  {
    hide Identity, IpBucket, ChecksOn, CountersAt, CounterAt;
    if cfg.limiter.Some? {
      IpBucketHasOneLimit(reqs, cfg, hash, reqs[i].ip, cfg.limiter.value);
      BucketAlone(reqs, i, cfg, hash, PREFIX + IpBucket(reqs[i].ip), cfg.limiter.value);
    }
  }

  /** Whatever reaches a handler carries a key that some earlier operation created and that is live. */
  lemma OnlyLiveKeysHandled(reqs: seq<Request>, epochs: seq<nat>, ops: seq<A.Op>, cfg: Config, hash: A.Hasher, i: nat)
    requires Served(reqs, epochs, ops, hash) && cfg.auth && A.Injective(hash) && i < |reqs|
    requires ServeSpec(CountersAt(reqs, i, cfg, hash), cfg, hash, reqs[i]) == Handled
    ensures exists c :: 0 <= c < epochs[i] && A.Creates(ops, c, hash) && reqs[i].header == A.RawKey(ops[c].bytes)
                        && LiveKey(ops, c, epochs[i], hash, reqs[i].now)
  {
    hide A.After, A.RawKey, LiveKey, ServeSpec, CountersAt, A.Usable, A.IsRawKey, A.FirstMatch, A.WithPrefix;
    var q, n := reqs[i], epochs[i];
    HandlerRunsIff(CountersAt(reqs, i, cfg, hash), cfg, hash, q);
    A.IndexedLookupIsFullScan(ops, n, hash, q.header, q.now);
    var k := Identity(hash, q).value;
    var p :| 0 <= p < |q.table.keys| && q.table.keys[p] == k;
    A.RowsAreCreated(ops, n, hash, p);
    var c :| 0 <= c < n && A.Creates(ops, c, hash) && k.hash == hash(A.RawKey(ops[c].bytes));
    IdentityOfKey(ops, c, n, hash, q);
  }

  /** A key that is revoked or expired at one request is handled neither then nor at any later request. */
  lemma RefusedForGood(reqs: seq<Request>, epochs: seq<nat>, ops: seq<A.Op>, cfg: Config, hash: A.Hasher, c: nat,
                       i: nat, j: nat)
    requires Served(reqs, epochs, ops, hash) && InOrder(reqs) && cfg.auth && A.Injective(hash)
    requires i <= j < |reqs| && c < epochs[i] && A.Creates(ops, c, hash)
    requires !LiveKey(ops, c, epochs[i], hash, reqs[i].now)
    requires reqs[j].header == A.RawKey(ops[c].bytes)
    ensures ServeSpec(CountersAt(reqs, j, cfg, hash), cfg, hash, reqs[j]) != Handled
  {
    hide A.ValidateSpec, A.RawKey, A.After, ServeSpec, CountersAt;
    A.AcceptedUntilRevokedOrExpired(ops, c, epochs[i], hash, reqs[i].now);
    A.NeverAcceptedAgain(ops, c, epochs[i], epochs[j], hash, reqs[i].now, reqs[j].now);
    HandlerRunsIff(CountersAt(reqs, j, cfg, hash), cfg, hash, reqs[j]);
  }
}
