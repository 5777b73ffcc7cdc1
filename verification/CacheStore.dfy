/** The Redis-backed read-through cache: namespaced keys, a TTL on every write, best effort. */
module CacheStore {
  import opened Prelude

  /** A stored value; expires == None is a key without TTL. */
  datatype Entry<V> = Entry(value: V, expires: Option<int>)

  const PREFIX := "fda:"

  function Rendered(key: string): string {
    PREFIX + key
  }

  predicate Live<V>(e: Entry<V>, now: int) {
    e.expires.None? || now < e.expires.value
  }

  /** What a GET of the rendered key returns at time now. */
  function Lookup<V>(entries: map<string, Entry<V>>, key: string, now: int): Option<V> {
    if Rendered(key) in entries && Live(entries[Rendered(key)], now) then Some(entries[Rendered(key)].value) else None
  }

  /** SET with a TTL; go-redis sends no expiry at all when the TTL is not positive. */
  function Stored<V>(entries: map<string, Entry<V>>, key: string, v: V, now: int, ttl: int): map<string, Entry<V>> {
    entries[Rendered(key) := Entry(v, if ttl > 0 then Some(now + ttl) else None)]
  }

  function Deleted<V>(entries: map<string, Entry<V>>, keys: set<string>): map<string, Entry<V>> {
    map k | k in entries && k !in keys :: entries[k]
  }

  class RedisCache<V> {
    var entries: map<string, Entry<V>>
    const ttl: int

    constructor (ttl: int)
      ensures entries == map[] && this.ttl == ttl
    {
      entries := map[];
      this.ttl := ttl;
    }

    /** A miss, an expired entry and an unreachable Redis look the same to the caller. */
    method Get(key: string, now: int, fails: bool) returns (r: Option<V>)
      ensures r == if fails then None else Lookup(entries, key, now)
    {
      r := if fails then None else Lookup(entries, key, now);
    }

    method Set(key: string, v: V, now: int, fails: bool)
      modifies this
      ensures entries == if fails then old(entries) else Stored(old(entries), key, v, now, ttl)
    {
      if !fails {
        entries := Stored(entries, key, v, now, ttl);
      }
    }

    /** The keys are prefixed in place before they are sent. */
    method Del(keys: array<string>, fails: bool) returns (ok: bool)
      modifies this, keys
      ensures ok == !fails
      ensures forall i :: 0 <= i < keys.Length ==> keys[i] == Rendered(old(keys[i]))
      ensures entries == if fails then old(entries) else Deleted(old(entries), set i | 0 <= i < keys.Length :: keys[i])
    {
      for i := 0 to keys.Length
        modifies keys
        invariant forall k :: 0 <= k < i ==> keys[k] == Rendered(old(keys[k]))
        invariant forall k :: i <= k < keys.Length ==> keys[k] == old(keys[k])
      {
        keys[i] := Rendered(keys[i]);
      }
      if !fails {
        entries := Deleted(entries, set i | 0 <= i < keys.Length :: keys[i]);
      }
      ok := !fails;
    }
  }

  // ---------- What a sequence of writes leaves ----------

  /** A SET or DEL that reached Redis. */
  datatype Command<V> = Put(key: string, value: V, at: int) | Remove(keys: set<string>)

  /** The entries after the commands, as RedisCache.Set and RedisCache.Del leave them. */
  function Replay<V>(cmds: seq<Command<V>>, ttl: int): map<string, Entry<V>> {
    if cmds == [] then map[]
    else
      var before := Replay(cmds[..|cmds| - 1], ttl);
      match cmds[|cmds| - 1]
      case Put(key, v, at) => Stored(before, key, v, at, ttl)
      case Remove(keys) => Deleted(before, set k | k in keys :: Rendered(k))
  }

  /** The last command on the key, read off the commands alone; None when it is a DEL or there is none. */
  function LastWrite<V>(cmds: seq<Command<V>>, key: string): Option<(V, int)> {
    if cmds == [] then None
    else
      match cmds[|cmds| - 1]
      case Put(k, v, at) => if k == key then Some((v, at)) else LastWrite(cmds[..|cmds| - 1], key)
      case Remove(keys) => if key in keys then None else LastWrite(cmds[..|cmds| - 1], key)
  }

  lemma RenderedApart(a: string, b: string)
    ensures Rendered(a) == Rendered(b) ==> a == b
  {
    assert Rendered(a)[4..] == a && Rendered(b)[4..] == b;
  }

  /**
   A GET answers the value of the last SET of its own key if no DEL of that key came later and the TTL
   counted from that SET has not passed; without a positive TTL the value never expires. Writes and
   deletions of other keys do not matter.
   */
  lemma {:induction false} GetIsLastWrite<V>(cmds: seq<Command<V>>, ttl: int, key: string, now: int)
    ensures var w := LastWrite(cmds, key);
            Lookup(Replay(cmds, ttl), key, now) ==
            if w.Some? && (ttl <= 0 || now < w.value.1 + ttl) then Some(w.value.0) else None
    decreases |cmds|
  {
    if cmds != [] {
      GetIsLastWrite(cmds[..|cmds| - 1], ttl, key, now);
      match cmds[|cmds| - 1]
      case Put(k, _, _) => RenderedApart(k, key);
      case Remove(keys) =>
        forall k | k in keys
          ensures Rendered(k) == Rendered(key) ==> k == key
        {
          RenderedApart(k, key);
        }
    }
  }
}
