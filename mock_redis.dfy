/**
 * The in-memory stand-in for Redis that `createMockRedisClient` builds
 * (backend/config/redis.js). `Date.now()` becomes the parameter `now`
 * (milliseconds); the 30-second `setInterval` becomes the method `Sweep`.
 * Values are the serialized strings the callers store.
 */
module MockRedis {
  import opened Wrappers

  /**
   * `!expirations[key]`: a missing entry and the falsy timestamp 0 both
   * read as "this key does not expire".
   */
  predicate NoExpiry(expirations: map<string, int>, key: string) {
    key !in expirations || expirations[key] == 0
  }

  /** `key in cache && (!expirations[key] || expirations[key] > now)`: the key is served at time `now`. */
  predicate Visible(cache: map<string, string>, expirations: map<string, int>, key: string, now: int) {
    key in cache && (NoExpiry(expirations, key) || expirations[key] > now)
  }

  /** The keys the periodic sweep at time `now` deletes. */
  function ExpiredKeys(expirations: map<string, int>, now: int): (dead: set<string>)
    ensures dead <= expirations.Keys
    ensures forall k :: k in expirations ==> (k in dead <==> expirations[k] <= now)
  {
    set k | k in expirations && expirations[k] <= now
  }

  /** `Math.ceil(ms / 1000)`. */
  function CeilSeconds(ms: int): (r: int)
    ensures (r - 1) * 1000 < ms <= r * 1000
  {
    (ms + 999) / 1000
  }

  /**
   * Sweeping at `now` changes nothing `get` or `exists` can observe at `now` or
   * later, for a key whose expiration timestamp is not the falsy 0.
   */
  lemma SweepUnobservable(cache: map<string, string>, expirations: map<string, int>, now: int, t: int, key: string)
    requires now <= t
    requires key in expirations ==> expirations[key] != 0
    ensures Visible(cache - ExpiredKeys(expirations, now), expirations - ExpiredKeys(expirations, now), key, t)
        <==> Visible(cache, expirations, key, t)
  {
  }

  /**
   * An expiration timestamp of 0 is the exception: `get` serves such a key at
   * every time, while a sweep at a time `now >= 0` deletes it.
   */
  lemma ZeroExpirationSweptButServed(cache: map<string, string>, expirations: map<string, int>, now: int, key: string)
    requires key in cache && key in expirations && expirations[key] == 0 && now >= 0
    ensures Visible(cache, expirations, key, now)
    ensures !Visible(cache - ExpiredKeys(expirations, now), expirations - ExpiredKeys(expirations, now), key, now)
  {
  }

  /**
   * After `set(key, value, 'EX', expire)` with a positive `expire` at a time
   * `now >= 0`, `get` serves `value` until `expire` seconds have passed and not after.
   */
  lemma SetExServesUntilExpiry(cache: map<string, string>, expirations: map<string, int>,
                               key: string, value: string, expire: int, now: int, t: int)
    requires expire > 0 && now >= 0 && now <= t
    ensures Visible(cache[key := value], expirations[key := now + expire * 1000], key, t)
        <==> t < now + expire * 1000
    ensures cache[key := value][key] == value
  {
  }

  /**
   * `set` without "EX" keeps an expiration that has already passed, so the
   * value it stores is not served.
   */
  lemma SetKeepsPassedExpiration(cache: map<string, string>, expirations: map<string, int>,
                                 key: string, value: string, now: int)
    requires key in expirations && expirations[key] != 0 && expirations[key] <= now
    ensures !Visible(cache[key := value], expirations, key, now)
  {
  }

  /** The mock client: the `cache` and `expirations` objects of the closure. */
  class Client {
    var cache: map<string, string>
    var expirations: map<string, int>

    /** Every key with an expiration is in the cache. */
    ghost predicate Valid()
      reads this
    {
      expirations.Keys <= cache.Keys
    }

    constructor ()
      ensures Valid()
      ensures cache == map[] && expirations == map[]
    {
      cache := map[];
      expirations := map[];
    }

    /** `get(key)`: the stored value while the key is visible, `null` otherwise. */
    function Get(key: string, now: int): (r: Option<string>)
      reads this
      ensures r.Some? <==> Visible(cache, expirations, key, now)
      ensures r.Some? ==> r.value == cache[key]
    {
      if key in cache && (key !in expirations || expirations[key] == 0 || expirations[key] > now)
      then Some(cache[key])
      else None
    }

    /** `exists(key)`: 1 exactly when `get(key)` at the same time returns a value. */
    function Exists(key: string, now: int): (n: int)
      reads this
      ensures n == 0 || n == 1
      ensures n == 1 <==> Get(key, now).Some?
    {
      if key in cache && (key !in expirations || expirations[key] == 0 || expirations[key] > now) then 1 else 0
    }

    /**
     * `ttl(key)`: -2 for a missing key, -1 for a key without expiration, else the
     * remaining whole seconds rounded up, or -2 once they are not positive.
     */
    function Ttl(key: string, now: int): (t: int)
      reads this
      ensures key !in cache ==> t == -2
      ensures key in cache && NoExpiry(expirations, key) ==> t == -1
      ensures key in cache && !NoExpiry(expirations, key) && expirations[key] > now ==>
                t > 0 && (t - 1) * 1000 < expirations[key] - now <= t * 1000
      ensures key in cache && !NoExpiry(expirations, key) && expirations[key] <= now ==> t == -2
    {
      if key !in cache then -2
      else if NoExpiry(expirations, key) then -1
      else
        var remaining := CeilSeconds(expirations[key] - now);
        if remaining > 0 then remaining else -2
    }

    /** A positive TTL and a TTL of -1 mean `get` serves the key; -2 means it does not. */
    lemma TtlAgreesWithGet(key: string, now: int)
      ensures Ttl(key, now) != -2 <==> Get(key, now).Some?
      ensures Ttl(key, now) == -2 || Ttl(key, now) == -1 || Ttl(key, now) > 0
    {
    }

    /**
     * `set(key, value, expiryMode, expire)`. An omitted `expire` is 0 and an
     * omitted mode is "". Only mode "EX" with a truthy `expire` sets an
     * expiration; otherwise an earlier expiration of the key stays in force.
     */
    method Set(key: string, value: string, expiryMode: string, expire: int, now: int) returns (r: string)
      requires Valid()
      modifies this
      ensures Valid()
      ensures r == "OK"
      ensures cache == old(cache)[key := value]
      ensures expiryMode == "EX" && expire != 0 ==> expirations == old(expirations)[key := now + expire * 1000]
      ensures !(expiryMode == "EX" && expire != 0) ==> expirations == old(expirations)
    {
      cache := cache[key := value];
      if expiryMode == "EX" && expire != 0 {
        expirations := expirations[key := now + expire * 1000];
      }
      r := "OK";
    }

    /** `del(key)`: removes the key from both maps; 1 when it was cached, expired or not. */
    method Del(key: string) returns (n: int)
      requires Valid()
      modifies this
      ensures Valid()
      ensures n == if key in old(cache) then 1 else 0
      ensures cache == old(cache) - {key}
      ensures expirations == old(expirations) - {key}
    {
      var existed := key in cache;
      cache := cache - {key};
      expirations := expirations - {key};
      n := if existed then 1 else 0;
    }

    /** `expire(key, seconds)`: sets the expiration of a cached key; 0 and no change otherwise. */
    method Expire(key: string, seconds: int, now: int) returns (n: int)
      requires Valid()
      modifies this
      ensures Valid()
      ensures cache == old(cache)
      ensures n == if key in old(cache) then 1 else 0
      ensures key in old(cache) ==> expirations == old(expirations)[key := now + seconds * 1000]
      ensures key !in old(cache) ==> expirations == old(expirations)
    {
      if key in cache {
        expirations := expirations[key := now + seconds * 1000];
        return 1;
      }
      return 0;
    }

    /** `flushAll()`: deletes every cached key and its expiration. */
    method FlushAll() returns (r: string)
      requires Valid()
      modifies this
      ensures Valid()
      ensures r == "OK"
      ensures cache == map[] && expirations == map[]
    {
      var keys := cache.Keys;
      ghost var done: set<string> := {};
      while keys != {}
        invariant keys !! done && keys + done == old(cache.Keys)
        invariant cache == old(cache) - done
        invariant expirations == old(expirations) - done
        decreases keys
      {
        var key :| key in keys;
        cache := cache - {key};
        expirations := expirations - {key};
        keys := keys - {key};
        done := done + {key};
      }
      assert cache.Keys == {};
      assert expirations.Keys == {};
      r := "OK";
    }

    /** The body of the 30-second timer: deletes every key whose expiration is `<= now`. */
    method Sweep(now: int)
      requires Valid()
      modifies this
      ensures Valid()
      ensures cache == old(cache) - ExpiredKeys(old(expirations), now)
      ensures expirations == old(expirations) - ExpiredKeys(old(expirations), now)
    {
      var keys := expirations.Keys;
      ghost var seen: set<string> := {};
      while keys != {}
        invariant keys !! seen && keys + seen == old(expirations.Keys)
        invariant cache == old(cache) - ExpiredKeys(old(expirations), now) * seen
        invariant expirations == old(expirations) - ExpiredKeys(old(expirations), now) * seen
        decreases keys
      {
        var key :| key in keys;
        assert key in expirations && expirations[key] == old(expirations)[key];
        if expirations[key] <= now {
          cache := cache - {key};
          expirations := expirations - {key};
        }
        keys := keys - {key};
        seen := seen + {key};
      }
      assert ExpiredKeys(old(expirations), now) * seen == ExpiredKeys(old(expirations), now);
    }
  }
}
