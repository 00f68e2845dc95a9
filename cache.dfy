/**
 * The cache wrapper of app/cache.py: a process-wide Redis client, created once by
 * `init_cache`, and `set_cache`, `get_cache`, `delete_cache` over it. The Redis server is
 * modelled as a map from key to value and absolute expiry second; the clock is the `now`
 * argument, and an exception the Redis client would raise is the `fault` argument (its
 * message).
 */
module Cache {
  import opened Common

  /** A stored value and the second after which Redis treats it as gone. */
  datatype Entry = Entry(value: string, expiresAt: int)

  const NotInitialised := HttpError(500, "Cache não inicializado.")
  const ConnectFailed := HttpError(500, "Erro ao conectar com o Redis")
  /** What Redis answers to SETEX with an expiry that is not positive. */
  const InvalidExpireTime := "invalid expire time in 'setex' command"

  function CacheError(message: string): HttpError {
    HttpError(500, "Cache Error: " + message)
  }

  /** Redis expires a key once the clock has passed its expiry time. */
  predicate Live(e: Entry, now: int) {
    now <= e.expiresAt
  }

  /** What a Redis GET returns: the value while it is live, nothing for a missing or an expired key. */
  function Lookup(store: map<string, Entry>, key: string, now: int): Option<string> {
    if key in store && Live(store[key], now) then Some(store[key].value) else None
  }

  /** `get_cache` over the client's state, which it only reads. */
  function GetCache(initialised: bool, store: map<string, Entry>, key: string, now: int, fault: Option<string>): (r: Result<Option<string>>)
    ensures r.Err? ==> r.error.status == 500
    ensures !initialised ==> r == Err(HttpError(500, "Cache não inicializado."))
    ensures initialised && fault.Some? ==> r == Err(HttpError(500, "Cache Error: " + fault.value))
    ensures r.Ok? <==> initialised && fault.None?
    ensures r.Ok? ==> (r.value.Some? <==> key in store && Live(store[key], now))
    ensures r.Ok? && r.value.Some? ==> r.value.value == store[key].value
  {
    if !initialised then Err(NotInitialised)
    else if fault.Some? then Err(CacheError(fault.value))
    else Ok(Lookup(store, key, now))
  }

  /** A SETEX of `value` under `key` for `expiration` seconds, overwriting whatever was there. */
  function Put(store: map<string, Entry>, key: string, value: string, expiration: int, now: int): map<string, Entry> {
    store[key := Entry(value, now + expiration)]
  }

  class RedisCache {
    /** `redis_client is not None` */
    var initialised: bool
    /** The Redis server's keys. */
    var store: map<string, Entry>

    constructor (contents: map<string, Entry>)
      ensures !initialised && store == contents
    {
      initialised := false;
      store := contents;
    }

    /**
     * `init_cache`: builds the client only when there is none, and assigns it before the
     * ping, so a failed ping raises 500 yet leaves the client in place and later calls do
     * not retry.
     */
    method Init(pingFails: bool) returns (r: Result<()>)
      modifies this`initialised
      ensures initialised
      ensures old(initialised) ==> r.Ok?
      ensures !old(initialised) ==> (r.Err? <==> pingFails)
      ensures r.Err? ==> r.error == ConnectFailed
    {
      if !initialised {
        initialised := true;
        if pingFails {
          return Err(ConnectFailed);
        }
      }
      return Ok(());
    }

    /** `set_cache(key, value, expiration)`: SETEX, which silently replaces an earlier value. */
    method Set(key: string, value: string, expiration: int, now: int, fault: Option<string>) returns (r: Result<()>)
      modifies this`store
      ensures !initialised ==> r == Err(NotInitialised)
      ensures initialised && fault.Some? ==> r == Err(CacheError(fault.value))
      ensures initialised && fault.None? && expiration <= 0 ==> r == Err(CacheError(InvalidExpireTime))
      ensures r.Ok? <==> initialised && fault.None? && expiration > 0
      ensures r.Ok? ==> store == Put(old(store), key, value, expiration, now)
      ensures r.Err? ==> store == old(store)
    {
      if !initialised {
        return Err(NotInitialised);
      }
      if fault.Some? {
        return Err(CacheError(fault.value));
      }
      if expiration <= 0 {
        return Err(CacheError(InvalidExpireTime));
      }
      store := Put(store, key, value, expiration, now);
      return Ok(());
    }

    /** `get_cache(key)` */
    function Get(key: string, now: int, fault: Option<string>): Result<Option<string>>
      reads this
    {
      GetCache(initialised, store, key, now, fault)
    }

    /** `delete_cache(key)`: DEL, for which an absent key is not an error. */
    method Delete(key: string, fault: Option<string>) returns (r: Result<()>)
      modifies this`store
      ensures !initialised ==> r == Err(NotInitialised)
      ensures initialised && fault.Some? ==> r == Err(CacheError(fault.value))
      ensures r.Ok? <==> initialised && fault.None?
      ensures r.Ok? ==> store == old(store) - {key}
      ensures r.Err? ==> store == old(store)
    {
      if !initialised {
        return Err(NotInitialised);
      }
      if fault.Some? {
        return Err(CacheError(fault.value));
      }
      store := store - {key};
      return Ok(());
    }
  }

  /** A value set with a positive expiration reads back until that many seconds have passed, and not after. */
  lemma SetThenGet(store: map<string, Entry>, key: string, value: string, expiration: int, now: int, later: int)
    requires expiration > 0 && now <= later
    ensures GetCache(true, Put(store, key, value, expiration, now), key, later, None)
            == Ok(if later <= now + expiration then Some(value) else None)
  {
  }

  /** Setting one key leaves what every other key reads unchanged. */
  lemma SetLeavesOtherKeys(store: map<string, Entry>, key: string, other: string, value: string, expiration: int, now: int, later: int)
    requires other != key
    ensures Lookup(Put(store, key, value, expiration, now), other, later) == Lookup(store, other, later)
  {
  }

  /** A second SETEX under the same key replaces the first value and its expiry. */
  lemma SetOverwrites(store: map<string, Entry>, key: string, v1: string, v2: string, e1: int, e2: int, t1: int, t2: int)
    ensures Put(Put(store, key, v1, e1, t1), key, v2, e2, t2) == Put(store, key, v2, e2, t2)
  {
  }

  /** After DEL a key reads as missing, and deleting it again leaves the same store. */
  lemma DeleteThenGet(store: map<string, Entry>, key: string, now: int)
    ensures Lookup(store - {key}, key, now) == None
    ensures (store - {key}) - {key} == store - {key}
  {
  }
}
