/** API keys: generation, the indexed lookup, validation and soft revocation. */
module Auth {
  import opened Prelude

  datatype APIKey = APIKey(id: int, prefix: string, hash: string, keyLabel: string, createdAt: int,
                           expiresAt: Option<int>, revokedAt: Option<int>)

  /** SHA-256 is a parameter; the results about it need only that it has no collisions. */
  type Hasher = string -> string

  ghost predicate Injective(hash: Hasher) {
    forall a, b :: hash(a) == hash(b) ==> a == b
  }

  // ---------- Raw keys ----------

  const KEY_PREFIX := "fda_"

  predicate IsHex(c: char) {
    '0' <= c <= '9' || 'a' <= c <= 'f'
  }

  /** ^fda_[0-9a-f]{64}$ */
  predicate IsRawKey(raw: string) {
    |raw| == 68 && raw[..4] == KEY_PREFIX && forall i :: 4 <= i < 68 ==> IsHex(raw[i])
  }

  type Byte = b: int | 0 <= b < 256

  function HexDigit(n: int): (c: char)
    requires 0 <= n < 16
    ensures IsHex(c)
  {
    if n < 10 then ('0' as int + n) as char else ('a' as int + n - 10) as char
  }

  function HexEncode(bytes: seq<Byte>): (s: string)
    ensures |s| == 2 * |bytes| && forall i :: 0 <= i < |s| ==> IsHex(s[i])
  {
    if bytes == [] then "" else [HexDigit(bytes[0] / 16), HexDigit(bytes[0] % 16)] + HexEncode(bytes[1..])
  }

  function RawKey(bytes: seq<Byte>): string {
    KEY_PREFIX + HexEncode(bytes)
  }

  lemma {:induction false} HexDecodes(a: seq<Byte>, b: seq<Byte>)
    requires |a| == |b| && HexEncode(a) == HexEncode(b)
    ensures a == b
    decreases |a|
  {
    if a != [] {
      var x, y := HexEncode(a), HexEncode(b);
      assert x[0] == HexDigit(a[0] / 16) && x[1] == HexDigit(a[0] % 16);
      assert y[0] == HexDigit(b[0] / 16) && y[1] == HexDigit(b[0] % 16);
      assert a[0] == b[0];
      assert x[2..] == HexEncode(a[1..]) && y[2..] == HexEncode(b[1..]);
      HexDecodes(a[1..], b[1..]);
      assert a == [a[0]] + a[1..] && b == [b[0]] + b[1..];
    }
  }

  /** Every generated key passes the format check of Validate, and keeps all its 256 bits. */
  lemma GeneratedKeysAreRaw(a: seq<Byte>, b: seq<Byte>)
    requires |a| == |b| == 32
    ensures IsRawKey(RawKey(a))
    ensures RawKey(a) == RawKey(b) ==> a == b
  {
    assert RawKey(a)[4..] == HexEncode(a) && RawKey(b)[4..] == HexEncode(b);
    if RawKey(a) == RawKey(b) {
      HexDecodes(a, b);
    }
  }

  /** The value of a hexadecimal digit. */
  function HexValue(c: char): int {
    if '0' <= c <= '9' then c as int - '0' as int else c as int - 'a' as int + 10
  }

  /** Characters 2i and 2i+1 are the two hexadecimal digits of byte i. */
  lemma {:induction false} HexEncodesBytes(bytes: seq<Byte>, i: nat)
    requires i < |bytes|
    ensures var s := HexEncode(bytes); 16 * HexValue(s[2 * i]) + HexValue(s[2 * i + 1]) == bytes[i]
    decreases |bytes|
  {
    var s := HexEncode(bytes);
    if i == 0 {
      assert s[0] == HexDigit(bytes[0] / 16) && s[1] == HexDigit(bytes[0] % 16);
    } else {
      HexEncodesBytes(bytes[1..], i - 1);
      assert s[2..] == HexEncode(bytes[1..]);
      assert s[2 * i] == s[2..][2 * (i - 1)] && s[2 * i + 1] == s[2..][2 * (i - 1) + 1];
    }
  }

  /** The first 8 hex characters. */
  function LookupPrefix(raw: string): string
    requires |raw| >= 12
  {
    raw[4..12]
  }

  // ---------- The api_keys table ----------

  /** Rows in id order, and the id sequence. */
  datatype Table = Table(keys: seq<APIKey>, nextId: int)

  const NO_KEYS := Table([], 1)

  predicate HashTaken(t: Table, hash: string) {
    exists i :: 0 <= i < |t.keys| && t.keys[i].hash == hash
  }

  /** key_hash is UNIQUE; a refused insert still consumes a sequence value. */
  function Inserted(t: Table, k: APIKey, now: int, fails: bool): (Table, Option<int>) {
    if fails then (t, None)
    else if HashTaken(t, k.hash) then (t.(nextId := t.nextId + 1), None)
    else (Table(t.keys + [k.(id := t.nextId, createdAt := now, revokedAt := None)], t.nextId + 1), Some(t.nextId))
  }

  predicate Revocable(k: APIKey, id: int) {
    k.id == id && k.revokedAt.None?
  }

  /** RowsAffected() > 0 of the update below. */
  predicate AnyRevocable(t: Table, id: int) {
    exists i :: 0 <= i < |t.keys| && Revocable(t.keys[i], id)
  }

  /** UPDATE ... SET revoked_at = now() WHERE id = $1 AND revoked_at IS NULL */
  function Revoked(t: Table, id: int, now: int): (r: Table)
    ensures |r.keys| == |t.keys| && r.nextId == t.nextId
    ensures forall i :: 0 <= i < |t.keys| ==>
              r.keys[i] == if Revocable(t.keys[i], id) then t.keys[i].(revokedAt := Some(now)) else t.keys[i]
  {
    t.(keys := seq(|t.keys|, i requires 0 <= i < |t.keys| =>
      if Revocable(t.keys[i], id) then t.keys[i].(revokedAt := Some(now)) else t.keys[i]))
  }

  /** WHERE key_prefix = $1 ORDER BY id */
  function WithPrefix(keys: seq<APIKey>, prefix: string): seq<APIKey> {
    if keys == [] then []
    else WithPrefix(keys[..|keys| - 1], prefix) + if keys[|keys| - 1].prefix == prefix then [keys[|keys| - 1]] else []
  }

  class KeyStore {
    var table: Table

    constructor ()
      ensures table == NO_KEYS
    {
      table := NO_KEYS;
    }

    method CreateAPIKey(k: APIKey, now: int, fails: bool) returns (id: Option<int>)
      modifies this
      ensures (table, id) == Inserted(old(table), k, now, fails)
    {
      var r := Inserted(table, k, now, fails);
      table, id := r.0, r.1;
    }

    /** None is a failing query, scan or iteration. */
    method GetAPIKeysByPrefix(prefix: string, fails: bool) returns (r: Option<seq<APIKey>>)
      ensures r == if fails then None else Some(WithPrefix(table.keys, prefix))
    {
      if fails {
        return None;
      }
      var keys := [];
      for i := 0 to |table.keys|
        invariant keys == WithPrefix(table.keys[..i], prefix)
      {
        assert table.keys[..i + 1][..i] == table.keys[..i];
        if table.keys[i].prefix == prefix {
          keys := keys + [table.keys[i]];
        }
      }
      assert table.keys[..|table.keys|] == table.keys;
      return Some(keys);
    }

    /** None is a driver error, Some(false) is sql.ErrNoRows. */
    method RevokeAPIKey(id: int, now: int, fails: bool) returns (found: Option<bool>)
      modifies this
      ensures table == if fails then old(table) else Revoked(old(table), id, now)
      ensures found == if fails then None else Some(AnyRevocable(old(table), id))
    {
      if fails {
        return None;
      }
      found := Some(AnyRevocable(table, id));
      table := Revoked(table, id, now);
    }
  }

  // ---------- The service ----------

  /** Not revoked and not past its expiry. */
  predicate Usable(k: APIKey, now: int) {
    k.revokedAt.None? && (k.expiresAt.None? || now <= k.expiresAt.value)
  }

  /** The verdict on the first candidate with the right hash. */
  function FirstMatch(candidates: seq<APIKey>, hash: string, now: int): Option<APIKey> {
    if candidates == [] then None
    else if candidates[0].hash == hash then if Usable(candidates[0], now) then Some(candidates[0]) else None
    else FirstMatch(candidates[1..], hash, now)
  }

  /** None collapses every cause of rejection. */
  function ValidateSpec(t: Table, hash: Hasher, raw: string, now: int): Option<APIKey> {
    if !IsRawKey(raw) then None else FirstMatch(WithPrefix(t.keys, LookupPrefix(raw)), hash(raw), now)
  }

  function NewKey(hash: Hasher, bytes: seq<Byte>, keyLabel: string, expiresAt: Option<int>): APIKey
    requires |bytes| == 32
  {
    var raw := RawKey(bytes);
    APIKey(0, LookupPrefix(raw), hash(raw), keyLabel, 0, expiresAt, None)
  }

  datatype CreateError = NoRandomness | NotStored

  /** ErrInvalidKey, or a prefix lookup that failed. */
  datatype ValidateError = InvalidKey | LookupFailed

  class AuthService {
    const store: KeyStore
    const hash: Hasher

    constructor (store: KeyStore, hash: Hasher)
      ensures this.store == store && this.hash == hash
    {
      this.store, this.hash := store, hash;
    }

    /** The random bytes are an argument, None when their source fails; the raw key is returned once, with its id. */
    method Create(bytes: Option<seq<Byte>>, keyLabel: string, expiresAt: Option<int>, now: int, fails: bool)
      returns (r: Result<(string, int), CreateError>)
      requires bytes.Some? ==> |bytes.value| == 32
      modifies store
      ensures bytes.None? ==> r == Err(NoRandomness) && store.table == old(store.table)
      ensures bytes.Some? ==>
                var k := NewKey(hash, bytes.value, keyLabel, expiresAt);
                var (after, id) := Inserted(old(store.table), k, now, fails);
                store.table == after &&
                r == if id.Some? then Ok((RawKey(bytes.value), id.value)) else Err(NotStored)
    {
      if bytes.None? {
        return Err(NoRandomness);
      }
      var raw := RawKey(bytes.value);
      var k := APIKey(0, LookupPrefix(raw), hash(raw), keyLabel, 0, expiresAt, None);
      var id := store.CreateAPIKey(k, now, fails);
      r := if id.None? then Err(NotStored) else Ok((raw, id.value));
    }

    /** A malformed token is refused before the lookup. */
    method Validate(raw: string, now: int, fails: bool) returns (r: Result<APIKey, ValidateError>)
      ensures r == if !IsRawKey(raw) then Err(InvalidKey)
                   else if fails then Err(LookupFailed)
                   else
                     match ValidateSpec(store.table, hash, raw, now)
                     case None => Err(InvalidKey)
                     case Some(k) => Ok(k)
    {
      if |raw| != |KEY_PREFIX| + 64 || !IsRawKey(raw) {
        return Err(InvalidKey);
      }
      var found := store.GetAPIKeysByPrefix(LookupPrefix(raw), fails);
      if found.None? {
        return Err(LookupFailed);
      }
      var candidates := found.value;
      var digest := hash(raw);
      for i := 0 to |candidates|
        invariant FirstMatch(candidates, digest, now) == FirstMatch(candidates[i..], digest, now)
      {
        var k := candidates[i];
        if digest != k.hash {
          assert candidates[i..][1..] == candidates[i + 1..];
          continue;
        }
        if k.revokedAt.Some? || (k.expiresAt.Some? && now > k.expiresAt.value) {
          return Err(InvalidKey);
        }
        return Ok(k);
      }
      return Err(InvalidKey);
    }

    method Revoke(id: int, now: int, fails: bool) returns (found: Option<bool>)
      modifies store
      ensures store.table == if fails then old(store.table) else Revoked(old(store.table), id, now)
      ensures found == if fails then None else Some(AnyRevocable(old(store.table), id))
    {
      found := store.RevokeAPIKey(id, now, fails);
    }
  }

  // ---------- Every run ----------

  datatype Op =
    | Create(bytes: seq<Byte>, keyLabel: string, expiresAt: Option<int>, now: int, fails: bool)
    | Revoke(id: int, now: int, fails: bool)

  function Step(t: Table, op: Op, hash: Hasher): Table {
    match op
    case Create(bytes, keyLabel, expiresAt, now, fails) =>
      if |bytes| == 32 then Inserted(t, NewKey(hash, bytes, keyLabel, expiresAt), now, fails).0 else t
    case Revoke(id, now, fails) => if fails then t else Revoked(t, id, now)
  }

  /** The table after the first n operations. */
  function After(ops: seq<Op>, n: nat, hash: Hasher): Table
    requires n <= |ops|
  {
    if n == 0 then NO_KEYS else Step(After(ops, n - 1, hash), ops[n - 1], hash)
  }

  ghost predicate Issued(k: APIKey, hash: Hasher) {
    exists raw :: IsRawKey(raw) && k.hash == hash(raw) && k.prefix == LookupPrefix(raw)
  }

  /** Ids and hashes are unique, and every row was made from a raw key. */
  ghost predicate WellFormed(t: Table, hash: Hasher) {
    && (forall i :: 0 <= i < |t.keys| ==> t.keys[i].id < t.nextId && Issued(t.keys[i], hash))
    && (forall i, j :: 0 <= i < j < |t.keys| ==> t.keys[i].id < t.keys[j].id && t.keys[i].hash != t.keys[j].hash)
  }

  lemma StepWellFormed(t: Table, op: Op, hash: Hasher)
    requires WellFormed(t, hash)
    ensures WellFormed(Step(t, op, hash), hash)
  {
    match op
    case Create(bytes, keyLabel, expiresAt, now, fails) =>
      if |bytes| == 32 {
        GeneratedKeysAreRaw(bytes, bytes);
        var k := NewKey(hash, bytes, keyLabel, expiresAt);
        assert Issued(k, hash) by { assert IsRawKey(RawKey(bytes)); }
        var t' := Inserted(t, k, now, fails).0;
        forall i | 0 <= i < |t'.keys|
          ensures t'.keys[i].id < t'.nextId && Issued(t'.keys[i], hash)
        {
          if i < |t.keys| {
            assert t'.keys[i] == t.keys[i];
          } else {
            IssuedAlike(k, t'.keys[i], hash);
          }
        }
      }
    case Revoke(id, now, fails) =>
      forall i | 0 <= i < |t.keys|
        ensures Issued(Revoked(t, id, now).keys[i], hash)
      {
        IssuedAlike(t.keys[i], Revoked(t, id, now).keys[i], hash);
      }
  }

  /**
   A creation adds at most one row behind the others, with an id above every earlier one and a hash no
   other row has; it adds none exactly when the statement fails or the hash is taken.
   */
  lemma CreationFacts(t: Table, k: APIKey, now: int, fails: bool, hash: Hasher)
    requires WellFormed(t, hash)
    ensures var (after, id) := Inserted(t, k, now, fails);
            && |t.keys| <= |after.keys| <= |t.keys| + 1 && after.keys[..|t.keys|] == t.keys
            && (id.None? <==> |after.keys| == |t.keys|) && (id.None? <==> fails || HashTaken(t, k.hash))
            && (id.Some? ==> forall i :: 0 <= i < |t.keys| ==> t.keys[i].id < id.value && t.keys[i].hash != k.hash)
            && (id.Some? ==> after.keys[|t.keys|].id == id.value && after.keys[|t.keys|].revokedAt.None?)
  {
    assert t.keys[..|t.keys|] == t.keys;
  }

  /**
   What Create stores for a raw key, field by field: its digest, its first 8 characters behind "fda_", and
   the label and expiry it was given; nothing when the statement fails or the digest is stored already.
   */
  lemma CreatedFields(t: Table, bytes: seq<Byte>, keyLabel: string, expiresAt: Option<int>, now: int, fails: bool,
                      hash: Hasher)
    requires |bytes| == 32
    ensures var raw := "fda_" + HexEncode(bytes);
            var (after, id) := Inserted(t, NewKey(hash, bytes, keyLabel, expiresAt), now, fails);
            && RawKey(bytes) == raw
            && (id.None? <==> fails || exists i :: 0 <= i < |t.keys| && t.keys[i].hash == hash(raw))
            && (id.None? ==> after.keys == t.keys)
            && (id.Some? ==> |after.keys| == |t.keys| + 1 && after.keys[..|t.keys|] == t.keys)
            && (id.Some? ==>
                  var row := after.keys[|t.keys|];
                  && row.id == id.value == t.nextId && row.hash == hash(raw) && row.prefix == raw[4..12]
                  && row.keyLabel == keyLabel && row.createdAt == now && row.expiresAt == expiresAt
                  && row.revokedAt == None)
  {
    hide HexEncode;
    assert t.keys[..|t.keys|] == t.keys;
  }

  /**
   Revoking reports a row exactly when it changes the table. Afterwards no row with the id is usable at
   any time, other rows are what they were, and revoking again changes nothing, not even the timestamp.
   */
  lemma RevocationFacts(t: Table, id: int, now: int, later: int)
    ensures AnyRevocable(t, id) <==> Revoked(t, id, now) != t
    ensures forall k, at :: k in Revoked(t, id, now).keys && k.id == id ==> !Usable(k, at)
    ensures forall i :: 0 <= i < |t.keys| && t.keys[i].id != id ==> Revoked(t, id, now).keys[i] == t.keys[i]
    ensures !AnyRevocable(Revoked(t, id, now), id) && Revoked(Revoked(t, id, now), id, later) == Revoked(t, id, now)
  {
    var r := Revoked(t, id, now);
    if AnyRevocable(t, id) {
      var i :| 0 <= i < |t.keys| && Revocable(t.keys[i], id);
      assert r.keys[i] != t.keys[i];
    } else {
      assert r.keys == t.keys;
    }
    assert Revoked(r, id, later).keys == r.keys;
  }

  lemma IssuedAlike(k: APIKey, l: APIKey, hash: Hasher)
    requires Issued(k, hash) && k.hash == l.hash && k.prefix == l.prefix
    ensures Issued(l, hash)
  {
    var raw :| IsRawKey(raw) && k.hash == hash(raw) && k.prefix == LookupPrefix(raw);
    assert IsRawKey(raw) && l.hash == hash(raw) && l.prefix == LookupPrefix(raw);
  }

  lemma {:induction false} AlwaysWellFormed(ops: seq<Op>, n: nat, hash: Hasher)
    requires n <= |ops|
    ensures WellFormed(After(ops, n, hash), hash)
    decreases n
  {
    hide Step, WellFormed;
    if n == 0 {
      EmptyWellFormed(hash);
    } else {
      AlwaysWellFormed(ops, n - 1, hash);
      StepWellFormed(After(ops, n - 1, hash), ops[n - 1], hash);
    }
  }

  lemma EmptyWellFormed(hash: Hasher)
    ensures WellFormed(NO_KEYS, hash)
  {
  }

  lemma {:induction false} FirstMatchOf(candidates: seq<APIKey>, hash: string, now: int)
    requires forall i, j :: 0 <= i < j < |candidates| ==> candidates[i].hash != candidates[j].hash
    ensures FirstMatch(candidates, hash, now).Some? ==>
              FirstMatch(candidates, hash, now).value in candidates
              && FirstMatch(candidates, hash, now).value.hash == hash
              && Usable(FirstMatch(candidates, hash, now).value, now)
    ensures forall k :: k in candidates && k.hash == hash && Usable(k, now) ==>
              FirstMatch(candidates, hash, now) == Some(k)
    decreases |candidates|
  {
    if candidates != [] {
      assert forall i :: 0 <= i < |candidates| - 1 ==> candidates[1..][i] == candidates[i + 1];
      FirstMatchOf(candidates[1..], hash, now);
      forall k | k in candidates && k.hash == hash && Usable(k, now)
        ensures FirstMatch(candidates, hash, now) == Some(k)
      {
        if k != candidates[0] {
          assert k in candidates[1..];
        }
      }
    }
  }

  lemma {:induction false} WithPrefixOf(keys: seq<APIKey>, prefix: string)
    requires forall i, j :: 0 <= i < j < |keys| ==> keys[i].hash != keys[j].hash
    ensures forall k :: k in WithPrefix(keys, prefix) <==> k in keys && k.prefix == prefix
    ensures forall i, j :: 0 <= i < j < |WithPrefix(keys, prefix)| ==>
              WithPrefix(keys, prefix)[i].hash != WithPrefix(keys, prefix)[j].hash
    decreases |keys|
  {
    if keys != [] {
      var front, last := keys[..|keys| - 1], keys[|keys| - 1];
      WithPrefixOf(front, prefix);
      assert keys == front + [last];
      forall i | 0 <= i < |WithPrefix(front, prefix)|
        ensures WithPrefix(front, prefix)[i].hash != last.hash
      {
        assert WithPrefix(front, prefix)[i] in front;
      }
    }
  }

  /**
   In every reachable table, validation through the 8-character index accepts exactly when a scan of
   the whole table finds a usable row with the hash of the token, and returns that row. Keys whose
   prefixes collide are no exception.
   */
  lemma IndexedLookupIsFullScan(ops: seq<Op>, n: nat, hash: Hasher, raw: string, now: int)
    requires n <= |ops| && Injective(hash) && IsRawKey(raw)
    ensures var t := After(ops, n, hash);
            forall k :: ValidateSpec(t, hash, raw, now) == Some(k) <==>
              k in t.keys && k.hash == hash(raw) && Usable(k, now)
  {
    AlwaysWellFormed(ops, n, hash);
    var t := After(ops, n, hash);
    ScanFinds(t, hash, raw, now);
  }

  lemma ScanFinds(t: Table, hash: Hasher, raw: string, now: int)
    requires WellFormed(t, hash) && Injective(hash) && IsRawKey(raw)
    ensures forall k :: ValidateSpec(t, hash, raw, now) == Some(k) <==>
              k in t.keys && k.hash == hash(raw) && Usable(k, now)
  {
    WithPrefixOf(t.keys, LookupPrefix(raw));
    FirstMatchOf(WithPrefix(t.keys, LookupPrefix(raw)), hash(raw), now);
    forall k | k in t.keys && k.hash == hash(raw)
      ensures k.prefix == LookupPrefix(raw)
    {
      var origin :| IsRawKey(origin) && k.hash == hash(origin) && k.prefix == LookupPrefix(origin);
      assert origin == raw;
    }
  }

  /** The first successful revocation of an id among operations i..j-1. */
  function FirstRevocation(ops: seq<Op>, i: nat, j: nat, id: int): Option<int>
    requires i <= j <= |ops|
    decreases j
  {
    if i == j then None
    else
      var before := FirstRevocation(ops, i, j - 1, id);
      if before.Some? then before
      else if ops[j - 1].Revoke? && ops[j - 1].id == id && !ops[j - 1].fails then Some(ops[j - 1].now)
      else None
  }

  /** Operation i created a key, stored as row number |keys| of the table before it. */
  predicate Creates(ops: seq<Op>, i: nat, hash: Hasher)
    requires i < |ops|
  {
    ops[i].Create? && |ops[i].bytes| == 32 && |After(ops, i + 1, hash).keys| == |After(ops, i, hash).keys| + 1
  }

  /** Every row of a reachable table was created by an earlier operation, whose key has its hash. */
  lemma {:induction false} RowsAreCreated(ops: seq<Op>, n: nat, hash: Hasher, p: nat)
    requires n <= |ops| && p < |After(ops, n, hash).keys|
    ensures exists c :: 0 <= c < n && Creates(ops, c, hash) && |After(ops, c, hash).keys| == p &&
                        After(ops, n, hash).keys[p].hash == hash(RawKey(ops[c].bytes))
    decreases n
  {
    var before := After(ops, n - 1, hash);
    if p < |before.keys| {
      RowsAreCreated(ops, n - 1, hash, p);
      assert After(ops, n, hash).keys[p].hash == before.keys[p].hash;
    } else {
      assert Creates(ops, n - 1, hash);
    }
  }

  /** Afterwards its row changes only in revoked_at, and that keeps the first timestamp. */
  lemma {:induction false} RowAfterCreation(ops: seq<Op>, i: nat, j: nat, hash: Hasher)
    requires i < j <= |ops| && Creates(ops, i, hash)
    ensures var p, t0, t := |After(ops, i, hash).keys|, After(ops, i, hash), After(ops, j, hash);
            && p < |t.keys|
            && t.keys[p] == NewKey(hash, ops[i].bytes, ops[i].keyLabel, ops[i].expiresAt)
                              .(id := t0.nextId, createdAt := ops[i].now,
                                revokedAt := FirstRevocation(ops, i + 1, j, t0.nextId))
    decreases j
  {
    if j > i + 1 {
      RowAfterCreation(ops, i, j - 1, hash);
    }
  }

  /**
   A created key is accepted exactly until its first successful revocation or the end of its
   validity, whatever else happens in the run.
   */
  lemma AcceptedUntilRevokedOrExpired(ops: seq<Op>, i: nat, j: nat, hash: Hasher, now: int)
    requires i < j <= |ops| && Injective(hash) && Creates(ops, i, hash)
    ensures var raw, id := RawKey(ops[i].bytes), After(ops, i, hash).nextId;
            var r := ValidateSpec(After(ops, j, hash), hash, raw, now);
            && (r.Some? <==> FirstRevocation(ops, i + 1, j, id).None?
                             && (ops[i].expiresAt.None? || now <= ops[i].expiresAt.value))
            && (r.Some? ==> r.value.id == id)
  {
    var raw, p, t := RawKey(ops[i].bytes), |After(ops, i, hash).keys|, After(ops, j, hash);
    GeneratedKeysAreRaw(ops[i].bytes, ops[i].bytes);
    RowAfterCreation(ops, i, j, hash);
    IndexedLookupIsFullScan(ops, j, hash, raw, now);
    AlwaysWellFormed(ops, j, hash);
    var k := t.keys[p];
    assert k in t.keys && k.hash == hash(raw);
    var r := ValidateSpec(t, hash, raw, now);
    if r.Some? {
      assert r.value in t.keys && r.value.hash == hash(raw);
      var q :| 0 <= q < |t.keys| && t.keys[q] == r.value;
      assert q == p;
    }
  }

  lemma {:induction false} RevocationLasts(ops: seq<Op>, i: nat, j: nat, m: nat, id: int)
    requires i <= j <= m <= |ops| && FirstRevocation(ops, i, j, id).Some?
    ensures FirstRevocation(ops, i, m, id) == FirstRevocation(ops, i, j, id)
    decreases m
  {
    if j < m {
      RevocationLasts(ops, i, j, m - 1, id);
    }
  }

  /** A key that was refused once is refused for ever, while clocks do not run backwards. */
  lemma NeverAcceptedAgain(ops: seq<Op>, i: nat, j: nat, m: nat, hash: Hasher, now: int, later: int)
    requires i < j <= m <= |ops| && now <= later && Injective(hash) && Creates(ops, i, hash)
    requires ValidateSpec(After(ops, j, hash), hash, RawKey(ops[i].bytes), now).None?
    ensures ValidateSpec(After(ops, m, hash), hash, RawKey(ops[i].bytes), later).None?
  {
    hide ValidateSpec, RawKey;
    AcceptedUntilRevokedOrExpired(ops, i, j, hash, now);
    AcceptedUntilRevokedOrExpired(ops, i, m, hash, later);
    var id := After(ops, i, hash).nextId;
    if FirstRevocation(ops, i + 1, j, id).Some? {
      RevocationLasts(ops, i + 1, j, m, id);
    }
  }
}
