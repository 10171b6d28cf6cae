/**
 * The Redis-backed caches of the backend: a TTL key/value cache, set and
 * hash membership caches that resynchronise lazily from the database
 * behind a ":fetched" marker, and the mute cache on top of the hash cache
 * whose entries carry an expiry date.
 *
 * Redis is an in-memory `Db` of sets, hashes and strings with per-key
 * expiry instants in milliseconds; every command takes the current time
 * `now` and treats a key whose expiry has passed as absent. Database
 * loaders and date parsing are parameters.
 */
module Caches {
  import opened Common

  // ---------------------------------------------------------------------
  // Redis

  /** What a key holds. */
  datatype Value = SetV(members: set<string>) | HashV(fields: map<string, string>) | StrV(text: string)

  /** A key's value and its absolute expiry instant, if it has one. */
  datatype Entry = Entry(value: Value, expireAt: Option<int>)

  datatype Db = Db(data: map<string, Entry>)

  function EmptyDb(): Db {
    Db(map[])
  }

  /** The entry under `k` unless its expiry has passed. */
  function Live(db: Db, k: string, now: int): Option<Entry> {
    if k in db.data && (db.data[k].expireAt.None? || now < db.data[k].expireAt.value) then Some(db.data[k]) else None
  }

  /** `EXISTS k` */
  predicate Exists(db: Db, k: string, now: int) {
    Live(db, k, now).Some?
  }

  /** `SMEMBERS k`: an absent or expired key is the empty set. */
  function Members(db: Db, k: string, now: int): set<string> {
    var e := Live(db, k, now);
    if e.Some? && e.value.value.SetV? then e.value.value.members else {}
  }

  /** `HGETALL k` */
  function Fields(db: Db, k: string, now: int): map<string, string> {
    var e := Live(db, k, now);
    if e.Some? && e.value.value.HashV? then e.value.value.fields else map[]
  }

  /** The expiry instant of a live key. */
  function ExpiryOf(db: Db, k: string, now: int): Option<int> {
    var e := Live(db, k, now);
    if e.Some? then e.value.expireAt else None
  }

  /** `TTL k < 0`: the key is absent (-2) or has no expiry (-1). */
  predicate TtlNegative(db: Db, k: string, now: int) {
    ExpiryOf(db, k, now).None?
  }

  /** Key `j` reads the same in `a` and `b` now, expiry included. */
  predicate SameKey(a: Db, b: Db, j: string, now: int) {
    Live(a, j, now) == Live(b, j, now)
  }

  /** `DEL k` */
  function Del(db: Db, k: string): (r: Db)
    ensures forall now :: !Exists(r, k, now)
    ensures forall j, now :: j != k ==> SameKey(db, r, j, now)
  {
    Db(db.data - {k})
  }

  /** Stores `v` under `k`, keeping the expiry of a live key and none for a new one. */
  function Put(db: Db, k: string, v: Value, now: int): (r: Db)
    ensures Live(r, k, now) == Some(Entry(v, ExpiryOf(db, k, now)))
    ensures forall j :: j != k ==> SameKey(db, r, j, now)
  {
    Db(db.data[k := Entry(v, ExpiryOf(db, k, now))])
  }

  /** `SADD k ids` for a non-empty `ids`. */
  function SAdd(db: Db, k: string, ids: set<string>, now: int): (r: Db)
    requires ids != {}
    ensures Members(r, k, now) == Members(db, k, now) + ids
    ensures Exists(r, k, now) && ExpiryOf(r, k, now) == ExpiryOf(db, k, now)
    ensures forall j :: j != k ==> SameKey(db, r, j, now)
  {
    Put(db, k, SetV(Members(db, k, now) + ids), now)
  }

  /** `SREM k ids`; a set left empty disappears together with its expiry. */
  function SRem(db: Db, k: string, ids: set<string>, now: int): (r: Db)
    ensures Members(r, k, now) == Members(db, k, now) - ids
    ensures Members(r, k, now) != {} ==> ExpiryOf(r, k, now) == ExpiryOf(db, k, now)
    ensures forall j :: j != k ==> SameKey(db, r, j, now)
  {
    var m := Members(db, k, now) - ids;
    if m == {} then Del(db, k) else Put(db, k, SetV(m), now)
  }

  /** `HSET k h` for a non-empty `h`: the given fields overwrite, the others stay. */
  function HSet(db: Db, k: string, h: map<string, string>, now: int): (r: Db)
    requires h != map[]
    ensures Fields(r, k, now) == Fields(db, k, now) + h
    ensures Exists(r, k, now) && ExpiryOf(r, k, now) == ExpiryOf(db, k, now)
    ensures forall j :: j != k ==> SameKey(db, r, j, now)
  {
    Put(db, k, HashV(Fields(db, k, now) + h), now)
  }

  /** `HDEL k fs`; a hash left empty disappears together with its expiry. */
  function HDel(db: Db, k: string, fs: set<string>, now: int): (r: Db)
    ensures Fields(r, k, now) == Fields(db, k, now) - fs
    ensures Fields(r, k, now) != map[] ==> ExpiryOf(r, k, now) == ExpiryOf(db, k, now)
    ensures forall j :: j != k ==> SameKey(db, r, j, now)
  {
    var m := Fields(db, k, now) - fs;
    if m == map[] then Del(db, k) else Put(db, k, HashV(m), now)
  }

  /** `EXPIRE k secs`: sets the expiry of a live key, ignores a missing one. */
  function Expire(db: Db, k: string, secs: int, now: int): (r: Db)
    requires secs > 0
    ensures Exists(db, k, now) ==> ExpiryOf(r, k, now) == Some(now + secs * 1000)
    ensures Exists(r, k, now) == Exists(db, k, now)
    ensures Members(r, k, now) == Members(db, k, now) && Fields(r, k, now) == Fields(db, k, now)
    ensures !Exists(db, k, now) ==> r == db
    ensures forall j :: j != k ==> SameKey(db, r, j, now)
  {
    var e := Live(db, k, now);
    if e.Some? then Db(db.data[k := e.value.(expireAt := Some(now + secs * 1000))]) else db
  }

  /** `SET k v EX secs`: replaces whatever `k` held. */
  function SetEx(db: Db, k: string, v: string, secs: int, now: int): (r: Db)
    requires secs > 0
    ensures Live(r, k, now) == Some(Entry(StrV(v), Some(now + secs * 1000)))
    ensures forall j :: j != k ==> SameKey(db, r, j, now)
  {
    Db(db.data[k := Entry(StrV(v), Some(now + secs * 1000))])
  }

  /** The Redis connection every cache object shares. */
  class Redis {
    var db: Db

    constructor()
      ensures db == EmptyDb()
    {
      db := EmptyDb();
    }
  }

  // ---------------------------------------------------------------------
  // Cache

  /** `prefixedKey`: the bare prefix for a null or empty key, else `prefix:key`. */
  function PrefixedKey(prefix: string, key: Option<string>): (r: string)
    ensures !Truthy(key) ==> r == prefix
    ensures Truthy(key) ==> r == prefix + ":" + key.value
  {
    if Truthy(key) then prefix + ":" + key.value else prefix
  }

  /** Distinct keys land on distinct Redis keys, and no key lands on the bare prefix. */
  lemma PrefixedKeyInjective(prefix: string, a: Option<string>, b: Option<string>)
    requires PrefixedKey(prefix, a) == PrefixedKey(prefix, b)
    ensures Truthy(a) <==> Truthy(b)
    ensures Truthy(a) ==> a.value == b.value
  {
    var ka := PrefixedKey(prefix, a);
    if Truthy(a) && Truthy(b) {
      assert a.value == ka[|prefix| + 1..];
      assert b.value == ka[|prefix| + 1..];
    }
  }

  /** The error Redis answers an `EXISTS` without a key with. */
  const ExistsArity := "ERR wrong number of arguments for 'exists' command"

  /**
   * The cache entries after the queued writes `q` run in order at `now`:
   * each is a Redis key, a value and a time to live in seconds.
   */
  function Applied<T>(m: map<string, (T, int)>, q: seq<(string, T, int)>, now: int): map<string, (T, int)>
    decreases |q|
  {
    if |q| == 0 then m else Applied(m[q[0].0 := (q[0].1, now + q[0].2 * 1000)], q[1..], now)
  }

  /** A key no queued write names keeps its entry, or its absence. */
  lemma {:induction false} AppliedUntouched<T>(m: map<string, (T, int)>, q: seq<(string, T, int)>, now: int, k: string)
    requires forall i :: 0 <= i < |q| ==> q[i].0 != k
    ensures k in Applied(m, q, now) <==> k in m
    ensures k in m ==> Applied(m, q, now)[k] == m[k]
    decreases |q|
  {
    if |q| > 0 {
      AppliedUntouched(m[q[0].0 := (q[0].1, now + q[0].2 * 1000)], q[1..], now, k);
    }
  }

  /** The last queued write of a key decides its entry. */
  lemma {:induction false} AppliedLast<T>(m: map<string, (T, int)>, q: seq<(string, T, int)>, now: int)
    requires |q| > 0
    ensures var w := q[|q| - 1]; w.0 in Applied(m, q, now) && Applied(m, q, now)[w.0] == (w.1, now + w.2 * 1000)
    decreases |q|
  {
    if |q| == 1 {
      AppliedUntouched(m[q[0].0 := (q[0].1, now + q[0].2 * 1000)], q[1..], now, q[0].0);
    } else {
      AppliedLast(m[q[0].0 := (q[0].1, now + q[0].2 * 1000)], q[1..], now);
      assert q[1..][|q[1..]| - 1] == q[|q| - 1];
    }
  }

  /**
   * An ioredis transaction (`multi()`): the `SET … EX` commands caches
   * have queued on it, in order, until its `exec`.
   */
  class Transaction<T> {
    var queued: seq<(string, T, int)>

    constructor()
      ensures queued == []
    {
      queued := [];
    }

    /**
     * `exec`, as far as the queued cache writes go: they take effect in
     * order on `cache`, each time to live counted from `now`, and the queue
     * empties. The last write queued is then readable when its time to
     * live is positive.
     */
    method Exec(cache: Cache<T>, now: int)
      modifies this, cache
      ensures cache.entries == Applied(old(cache.entries), old(queued), now)
      ensures queued == []
      ensures old(queued) != [] && old(queued[|queued| - 1]).2 > 0 ==>
        var w := old(queued[|queued| - 1]); cache.Lookup(w.0, now) == Some(w.1)
    {
      var q := queued;
      var i := 0;
      while i < |q|
        invariant 0 <= i <= |q|
        invariant Applied(cache.entries, q[i..], now) == Applied(old(cache.entries), q, now)
      {
        assert q[i..][1..] == q[i + 1..];
        cache.entries := cache.entries[q[i].0 := (q[i].1, now + q[i].2 * 1000)];
        i := i + 1;
      }
      assert q[i..] == [];
      queued := [];
      if q != [] {
        AppliedLast(old(cache.entries), q, now);
      }
    }
  }

  /**
   * `Cache<T>`: values stored under `cache:<name>[:<key>]` with a fixed
   * time to live. Values are kept decoded; the encoding round trip is
   * taken to be the identity.
   */
  class Cache<T> {
    const ttl: int
    const prefix: string
    /** Stored values with their expiry instants, by Redis key. */
    var entries: map<string, (T, int)>

    constructor(name: string, ttlSeconds: int)
      ensures prefix == "cache:" + name && ttl == ttlSeconds && entries == map[]
    {
      ttl := ttlSeconds;
      prefix := "cache:" + name;
      entries := map[];
    }

    /** The stored value under Redis key `k`, if it has not expired. */
    function Lookup(k: string, now: int): Option<T>
      reads this
    {
      if k in entries && now < entries[k].1 then Some(entries[k].0) else None
    }

    /** The entries after a `get` of Redis key `k`: with `renew`, an unexpired value gets a fresh time to live. */
    function AfterGet(k: string, renew: bool, now: int): map<string, (T, int)>
      reads this
    {
      if renew && Lookup(k, now).Some? then entries[k := (entries[k].0, now + ttl * 1000)] else entries
    }

    /** A `fetch` now would return the stored value without calling the fetcher. */
    predicate Hit(key: Option<string>, validator: Option<T -> bool>, now: int)
      reads this
    {
      var c := Lookup(PrefixedKey(prefix, key), now);
      c.Some? && (validator.None? || validator.value(c.value))
    }

    /**
     * `set`: without a transaction, stores `value` with a fresh time to
     * live, readable right away when the time to live is positive. With a
     * transaction, the `SET … EX` is only queued on it and the entries are
     * unchanged until the caller's `exec`.
     */
    method Set(key: Option<string>, value: T, now: int, transaction: Option<Transaction<T>>)
      modifies this, if transaction.Some? then {transaction.value} else {}
      ensures transaction.None? ==> entries == old(entries)[PrefixedKey(prefix, key) := (value, now + ttl * 1000)]
      ensures transaction.None? && ttl > 0 ==> Lookup(PrefixedKey(prefix, key), now) == Some(value)
      ensures transaction.Some? ==> entries == old(entries)
      ensures transaction.Some? ==>
        transaction.value.queued == old(transaction.value.queued) + [(PrefixedKey(prefix, key), value, ttl)]
    {
      if transaction.Some? {
        transaction.value.queued := transaction.value.queued + [(PrefixedKey(prefix, key), value, ttl)];
      } else {
        entries := entries[PrefixedKey(prefix, key) := (value, now + ttl * 1000)];
      }
    }

    /**
     * `exists`: some of the keys is stored and unexpired. With no key the
     * `EXISTS` command has no argument, which Redis refuses, so the call
     * rejects.
     */
    method ExistsAny(keys: seq<string>, now: int) returns (r: Result<bool>)
      ensures r.Err? <==> |keys| == 0
      ensures r.Err? ==> r.msg == ExistsArity
      ensures r.Ok? ==> (r.value <==> exists i :: 0 <= i < |keys| && Lookup(PrefixedKey(prefix, Some(keys[i])), now).Some?)
    {
      if |keys| == 0 {
        return Err(ExistsArity);
      }
      var b := false;
      var i := 0;
      while i < |keys|
        invariant 0 <= i <= |keys|
        invariant b <==> exists j :: 0 <= j < i && Lookup(PrefixedKey(prefix, Some(keys[j])), now).Some?
      {
        if Lookup(PrefixedKey(prefix, Some(keys[i])), now).Some? {
          b := true;
        }
        i := i + 1;
      }
      r := Ok(b);
    }

    /** `get`: the unexpired value, if any; `renew` restarts its time to live. */
    method Get(key: Option<string>, renew: bool, now: int) returns (r: Option<T>)
      modifies this
      ensures r == old(Lookup(PrefixedKey(prefix, key), now))
      ensures renew && r.Some? ==> entries == old(entries)[PrefixedKey(prefix, key) := (r.value, now + ttl * 1000)]
      ensures !(renew && r.Some?) ==> entries == old(entries)
    {
      var k := PrefixedKey(prefix, key);
      r := Lookup(k, now);
      if r.Some? && renew {
        entries := entries[k := (r.value, now + ttl * 1000)];
      }
    }

    /** `delete`: removes every given key. */
    method Delete(keys: seq<Option<string>>)
      modifies this
      ensures entries == old(entries) - set i | 0 <= i < |keys| :: PrefixedKey(prefix, keys[i])
    {
      if |keys| > 0 {
        entries := entries - set i | 0 <= i < |keys| :: PrefixedKey(prefix, keys[i]);
      }
    }

    /**
     * `fetch`: a hit (a stored value the validator, if any, accepts) is
     * returned without calling the fetcher; otherwise the fetcher's value
     * is stored and returned. Right after a miss the call hits, unless the
     * validator rejects the fetched value.
     */
    method Fetch(key: Option<string>, fetcher: () -> T, renew: bool, validator: Option<T -> bool>, now: int)
      returns (r: T, called: bool)
      modifies this
      ensures old(Hit(key, validator, now)) <==> !called
      ensures !called ==> Some(r) == old(Lookup(PrefixedKey(prefix, key), now))
      ensures called ==> r == fetcher()
      ensures !called ==> entries == old(AfterGet(PrefixedKey(prefix, key), renew, now))
      ensures called ==> entries == old(entries)[PrefixedKey(prefix, key) := (r, now + ttl * 1000)]
      ensures called && ttl > 0 && (validator.None? || validator.value(r)) ==> Hit(key, validator, now)
    {
      var cached := Get(key, renew, now);
      if cached.Some? && (validator.None? || validator.value(cached.value)) {
        return cached.value, false;
      }
      r := fetcher();
      Set(key, r, now, None);
      called := true;
    }

    /** `fetchMaybe`: as `fetch`, but an undefined result is returned without being stored. */
    method FetchMaybe(key: Option<string>, fetcher: () -> Option<T>, renew: bool, validator: Option<T -> bool>, now: int)
      returns (r: Option<T>, called: bool)
      modifies this
      ensures old(Hit(key, validator, now)) <==> !called
      ensures !called ==> r == old(Lookup(PrefixedKey(prefix, key), now))
      ensures called ==> r == fetcher()
      ensures called && r.Some? ==> entries == old(entries)[PrefixedKey(prefix, key) := (r.value, now + ttl * 1000)]
      ensures (!called || r.None?) ==> entries == old(AfterGet(PrefixedKey(prefix, key), renew, now))
      ensures called && r.Some? && ttl > 0 && (validator.None? || validator.value(r.value)) ==> Hit(key, validator, now)
    {
      var cached := Get(key, renew, now);
      if cached.Some? && (validator.None? || validator.value(cached.value)) {
        return cached, false;
      }
      r := fetcher();
      called := true;
      if r.Some? {
        Set(key, r.value, now, None);
      }
    }
  }

  // ---------------------------------------------------------------------
  // SetCache

  const SetTtlSeconds := 60 * 60
  const FetchedTtlSeconds := 60 * 30

  lemma FetchedKeyDiffers(key: string)
    ensures key + ":fetched" != key
  {
    assert |key + ":fetched"| > |key|;
  }

  /**
   * `SetCache`: a Redis set of ids under `setcache:<name>:<userId>` and a
   * marker saying it was loaded from the database in the last 30 minutes.
   */
  class SetCache {
    const redis: Redis
    const key: string
    const fetchedKey: string

    constructor(name: string, userId: string, r: Redis)
      ensures redis == r && key == "setcache:" + name + ":" + userId && fetchedKey == key + ":fetched"
    {
      redis := r;
      key := "setcache:" + name + ":" + userId;
      fetchedKey := "setcache:" + name + ":" + userId + ":fetched";
    }

    function Ids(now: int): set<string>
      reads redis
    {
      Members(redis.db, key, now)
    }

    /** `add`: set union; a set without expiry gets one hour. */
    method Add(ids: seq<string>, now: int)
      modifies redis
      ensures Ids(now) == old(Ids(now)) + set i | 0 <= i < |ids| :: ids[i]
      ensures old(TtlNegative(redis.db, key, now)) && Ids(now) != {} ==> ExpiryOf(redis.db, key, now) == Some(now + SetTtlSeconds * 1000)
      ensures !old(TtlNegative(redis.db, key, now)) ==> ExpiryOf(redis.db, key, now) == old(ExpiryOf(redis.db, key, now))
      ensures forall j :: j != key ==> SameKey(old(redis.db), redis.db, j, now)
    {
      var added := set i | 0 <= i < |ids| :: ids[i];
      if |ids| > 0 {
        assert ids[0] in added;
        redis.db := SAdd(redis.db, key, added, now);
      }
      if TtlNegative(redis.db, key, now) {
        redis.db := Expire(redis.db, key, SetTtlSeconds, now);
      }
    }

    /** `delete`: set difference. */
    method Delete(ids: seq<string>, now: int)
      modifies redis
      ensures Ids(now) == old(Ids(now)) - set i | 0 <= i < |ids| :: ids[i]
      ensures forall j :: j != key ==> SameKey(old(redis.db), redis.db, j, now)
    {
      if |ids| > 0 {
        redis.db := SRem(redis.db, key, set i | 0 <= i < |ids| :: ids[i], now);
      }
    }

    method Clear(now: int)
      modifies redis
      ensures Ids(now) == {} && !Exists(redis.db, key, now)
      ensures forall j :: j != key ==> SameKey(old(redis.db), redis.db, j, now)
    {
      redis.db := Del(redis.db, key);
    }

    method Has(id: string, now: int) returns (b: bool)
      ensures b <==> id in Ids(now)
    {
      b := id in Members(redis.db, key, now);
    }

    /** `exists`: the set has a member. */
    method NonEmpty(now: int) returns (b: bool)
      ensures b <==> Ids(now) != {}
    {
      b := Members(redis.db, key, now) != {};
    }

    method GetAll(now: int) returns (s: set<string>)
      ensures s == Ids(now)
    {
      s := Members(redis.db, key, now);
    }

    /**
     * `fetch`: without a live marker the set is replaced by the loaded ids
     * and the marker is set for 30 minutes; with one, nothing changes.
     */
    method Fetch(loaded: seq<string>, now: int)
      requires fetchedKey == key + ":fetched"
      modifies redis
      ensures old(Exists(redis.db, fetchedKey, now)) ==> redis.db == old(redis.db)
      ensures !old(Exists(redis.db, fetchedKey, now)) ==>
        Ids(now) == (set i | 0 <= i < |loaded| :: loaded[i])
        && ExpiryOf(redis.db, fetchedKey, now) == Some(now + FetchedTtlSeconds * 1000)
      ensures forall j :: j != key && j != fetchedKey ==> SameKey(old(redis.db), redis.db, j, now)
    {
      if !Exists(redis.db, fetchedKey, now) {
        FetchedKeyDiffers(key);
        ghost var d0 := redis.db;
        Clear(now);
        ghost var d1 := redis.db;
        Add(loaded, now);
        ghost var d2 := redis.db;
        redis.db := SetEx(redis.db, fetchedKey, "", FetchedTtlSeconds, now);
        forall j | j != key && j != fetchedKey
          ensures SameKey(d0, redis.db, j, now)
        {
          assert SameKey(d0, d1, j, now) && SameKey(d1, d2, j, now);
        }
      }
    }
  }

  // ---------------------------------------------------------------------
  // HashCache

  /** `hmget` followed by dropping the null answers: the requested fields that are present. */
  function Requested(h: map<string, string>, fields: seq<string>): (r: map<string, string>)
    ensures r.Keys == (set i | 0 <= i < |fields| && fields[i] in h :: fields[i])
    ensures forall f :: f in r ==> r[f] == h[f]
  {
    map f | f in h && f in fields :: h[f]
  }

  /** `HashCache`: a Redis hash under `hashcache:<name>:<userId>` with the same marker scheme. */
  class HashCache {
    const redis: Redis
    const key: string
    const fetchedKey: string

    constructor(name: string, userId: string, r: Redis)
      ensures redis == r && key == "hashcache:" + name + ":" + userId && fetchedKey == key + ":fetched"
    {
      redis := r;
      key := "hashcache:" + name + ":" + userId;
      fetchedKey := "hashcache:" + name + ":" + userId + ":fetched";
    }

    function Hash(now: int): map<string, string>
      reads redis
    {
      Fields(redis.db, key, now)
    }

    /** `exists`: the hash has a field. */
    method NonEmpty(now: int) returns (b: bool)
      ensures b <==> Hash(now) != map[]
    {
      b := Fields(redis.db, key, now) != map[];
    }

    /** `setHash`: merges `hash` in; a hash without expiry gets one hour. */
    method SetHash(hash: map<string, string>, now: int)
      modifies redis
      ensures Hash(now) == old(Hash(now)) + hash
      ensures old(TtlNegative(redis.db, key, now)) && Hash(now) != map[] ==> ExpiryOf(redis.db, key, now) == Some(now + SetTtlSeconds * 1000)
      ensures !old(TtlNegative(redis.db, key, now)) ==> ExpiryOf(redis.db, key, now) == old(ExpiryOf(redis.db, key, now))
      ensures forall j :: j != key ==> SameKey(old(redis.db), redis.db, j, now)
    {
      if hash != map[] {
        redis.db := HSet(redis.db, key, hash, now);
      }
      if TtlNegative(redis.db, key, now) {
        redis.db := Expire(redis.db, key, SetTtlSeconds, now);
      }
    }

    /** `set`: one field. */
    method SetField(field: string, value: string, now: int)
      modifies redis
      ensures Hash(now) == old(Hash(now))[field := value]
      ensures forall j :: j != key ==> SameKey(old(redis.db), redis.db, j, now)
    {
      SetHash(map[field := value], now);
      assert old(Hash(now)) + map[field := value] == old(Hash(now))[field := value];
    }

    method Delete(fields: seq<string>, now: int)
      modifies redis
      ensures Hash(now) == old(Hash(now)) - set i | 0 <= i < |fields| :: fields[i]
      ensures forall j :: j != key ==> SameKey(old(redis.db), redis.db, j, now)
    {
      if |fields| > 0 {
        redis.db := HDel(redis.db, key, set i | 0 <= i < |fields| :: fields[i], now);
      }
    }

    method Clear(now: int)
      modifies redis
      ensures Hash(now) == map[] && !Exists(redis.db, key, now)
      ensures forall j :: j != key ==> SameKey(old(redis.db), redis.db, j, now)
    {
      redis.db := Del(redis.db, key);
    }

    /** `get`: the requested fields that are present, or the whole hash when none is named. */
    method Get(fields: seq<string>, now: int) returns (r: map<string, string>)
      ensures |fields| > 0 ==> r == Requested(Hash(now), fields)
      ensures |fields| == 0 ==> r == Hash(now)
    {
      if |fields| > 0 {
        r := Requested(Fields(redis.db, key, now), fields);
      } else {
        r := Fields(redis.db, key, now);
      }
    }

    /** `fetch`: as for `SetCache`, with a loaded map. */
    method Fetch(loaded: map<string, string>, now: int)
      requires fetchedKey == key + ":fetched"
      modifies redis
      ensures old(Exists(redis.db, fetchedKey, now)) ==> redis.db == old(redis.db)
      ensures !old(Exists(redis.db, fetchedKey, now)) ==>
        Hash(now) == loaded
        && ExpiryOf(redis.db, fetchedKey, now) == Some(now + FetchedTtlSeconds * 1000)
      ensures forall j :: j != key && j != fetchedKey ==> SameKey(old(redis.db), redis.db, j, now)
    {
      if !Exists(redis.db, fetchedKey, now) {
        FetchedKeyDiffers(key);
        ghost var d0 := redis.db;
        Clear(now);
        ghost var d1 := redis.db;
        SetHash(loaded, now);
        assert map[] + loaded == loaded;
        ghost var d2 := redis.db;
        redis.db := SetEx(redis.db, fetchedKey, "", FetchedTtlSeconds, now);
        forall j | j != key && j != fetchedKey
          ensures SameKey(d0, redis.db, j, now)
        {
          assert SameKey(d0, d1, j, now) && SameKey(d1, d2, j, now);
        }
      }
    }
  }

  // ---------------------------------------------------------------------
  // Mute expiry

  /**
   * `getAll` drops a mute whose value is a date before now; "" never
   * expires and a string that is not a date compares false.
   */
  predicate MuteExpired(v: string, now: int, parseDate: string -> Option<int>) {
    v != "" && parseDate(v).Some? && parseDate(v).value < now
  }

  /** `isMuting` holds for "" or a date after now. */
  predicate MuteHolds(v: string, now: int, parseDate: string -> Option<int>) {
    v == "" || (parseDate(v).Some? && parseDate(v).value > now)
  }

  /**
   * The two readings agree on every value except a date equal to now,
   * which `getAll` keeps and `isMuting` drops, and a string that is not a
   * date, which behaves the same way.
   */
  lemma MuteReadingsAgree(v: string, now: int, parseDate: string -> Option<int>)
    ensures MuteHolds(v, now, parseDate) ==> !MuteExpired(v, now, parseDate)
    ensures v == "" || (parseDate(v).Some? && parseDate(v).value != now) ==>
      (MuteHolds(v, now, parseDate) <==> !MuteExpired(v, now, parseDate))
  {
  }

  /** `UserMutingsCache`: the mute hash whose values are an expiry date or "". */
  class UserMutingsCache {
    const hash: HashCache

    constructor(h: HashCache)
      ensures hash == h
    {
      hash := h;
    }

    /** `mute`: records the mutee with its expiry text, "" for none. */
    method Mute(muteeId: string, expiresAt: Option<string>, now: int)
      modifies hash.redis
      ensures hash.Hash(now) == old(hash.Hash(now))[muteeId := OrElse(expiresAt, "")]
    {
      hash.SetField(muteeId, OrElse(expiresAt, ""), now);
    }

    method Unmute(muteeId: string, now: int)
      modifies hash.redis
      ensures hash.Hash(now) == old(hash.Hash(now)) - {muteeId}
    {
      hash.Delete([muteeId], now);
      assert [muteeId][0] == muteeId;
      assert (set i | 0 <= i < 1 :: [muteeId][i]) == {muteeId};
    }

    /**
     * `getAll`: the mutees whose mute has not expired, each once; exactly
     * the expired entries are deleted.
     */
    method GetAll(now: int, parseDate: string -> Option<int>) returns (valid: seq<string>)
      modifies hash.redis
      ensures var m := old(hash.Hash(now));
        (set i | 0 <= i < |valid| :: valid[i]) == (set k | k in m && !MuteExpired(m[k], now, parseDate))
      ensures forall i, j :: 0 <= i < j < |valid| ==> valid[i] != valid[j]
      ensures var m := old(hash.Hash(now));
        hash.Hash(now) == map k | k in m && !MuteExpired(m[k], now, parseDate) :: m[k]
    {
      var mutes := hash.Get([], now);
      var expired: seq<string> := [];
      valid := [];
      var rest := mutes.Keys;
      while rest != {}
        invariant rest <= mutes.Keys
        invariant forall k :: k in valid ==> k in mutes && k !in rest && !MuteExpired(mutes[k], now, parseDate)
        invariant forall k :: k in expired ==> k in mutes && k !in rest && MuteExpired(mutes[k], now, parseDate)
        invariant forall k :: k in mutes && k !in rest ==> k in valid || k in expired
        invariant forall i, j :: 0 <= i < j < |valid| ==> valid[i] != valid[j]
        decreases rest
      {
        var k :| k in rest;
        if MuteExpired(mutes[k], now, parseDate) {
          expired := expired + [k];
        } else {
          valid := valid + [k];
        }
        rest := rest - {k};
      }
      hash.Delete(expired, now);
      assert (set i | 0 <= i < |expired| :: expired[i]) == (set k | k in mutes && MuteExpired(mutes[k], now, parseDate));
    }

    /**
     * `isMuting`: "" mutes, an absent entry does not, a date mutes iff it
     * is after now; a value that does not mute is removed.
     */
    method IsMuting(muteeId: string, now: int, parseDate: string -> Option<int>) returns (muting: bool)
      modifies hash.redis
      ensures var m := old(hash.Hash(now));
        muting <==> muteeId in m && MuteHolds(m[muteeId], now, parseDate)
      ensures var m := old(hash.Hash(now));
        hash.Hash(now) == if muteeId in m && !MuteHolds(m[muteeId], now, parseDate) then m - {muteeId} else m
    {
      var got := hash.Get([muteeId], now);
      var result: Option<string> := if muteeId in got then Some(got[muteeId]) else None;
      muting := result == Some("");
      if Truthy(result) {
        var d := parseDate(result.value);
        muting := d.Some? && d.value > now;
        if !muting {
          Unmute(muteeId, now);
        }
      }
    }
  }
}
