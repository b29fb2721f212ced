/** `InMemoryCache` and the `cached_result` decorator. Time is an explicit
    `now` in microseconds; `V` is the type of the cached values, and a
    stored Python `None` is `None` of `Option<V>`. */
module Cache {
  import opened Wrappers

  /** A cache entry dict. `expiresAt` is absent only in entries `set` did
      not make, which then never expire. */
  datatype CacheEntry<V> = CacheEntry(value: Option<V>, createdAt: Instant, lastAccessed: Instant, expiresAt: Option<Instant>)

  const DefaultTtlSeconds: int := 3600
  const CleanupThreshold: nat := 1000

  /** `_is_expired`: strictly past its expiry. */
  predicate IsExpired<V>(e: CacheEntry<V>, now: Instant) {
    e.expiresAt.Some? && now > e.expiresAt.value
  }

  /** `ttl_seconds or self.default_ttl`: 0 and `None` both fall back. */
  function EffectiveTtl(ttlSeconds: Option<int>, defaultTtl: int): (ttl: int)
    ensures ttlSeconds.Some? && ttlSeconds.value != 0 ==> ttl == ttlSeconds.value
    ensures ttlSeconds.None? || ttlSeconds.value == 0 ==> ttl == defaultTtl
  {
    if ttlSeconds.Some? && ttlSeconds.value != 0 then ttlSeconds.value else defaultTtl
  }

  /** The entries that have not expired at `now`. */
  function Unexpired<V>(es: map<string, CacheEntry<V>>, now: Instant): (r: map<string, CacheEntry<V>>)
    ensures forall k :: k in r <==> k in es && !IsExpired(es[k], now)
    ensures forall k :: k in r ==> r[k] == es[k]
  {
    map k | k in es && !IsExpired(es[k], now) :: es[k]
  }

  /** `get`: the value and the entries afterwards. An expired entry is
      removed; a live one has its access time refreshed. */
  function Get<V>(es: map<string, CacheEntry<V>>, key: string, now: Instant): (Option<V>, map<string, CacheEntry<V>>) {
    if key !in es then (None, es)
    else if IsExpired(es[key], now) then (None, es - {key})
    else (es[key].value, es[key := es[key].(lastAccessed := now)])
  }

  /** `set`: a new entry expiring `ttl` seconds from now, then a cleanup
      when the cache holds more than 1000 entries. */
  function Set<V>(es: map<string, CacheEntry<V>>, key: string, value: Option<V>, ttlSeconds: Option<int>,
                  defaultTtl: int, now: Instant): map<string, CacheEntry<V>>
  {
    var ttl := EffectiveTtl(ttlSeconds, defaultTtl);
    var es1 := es[key := CacheEntry(value, now, now, Some(now + ttl * MicrosPerSecond))];
    if |es1| > CleanupThreshold then Unexpired(es1, now) else es1
  }

  // ---------------------------------------------------------------------
  // Properties

  /** A missing key reads as `None` and changes nothing. */
  lemma GetMissing<V>(es: map<string, CacheEntry<V>>, key: string, now: Instant)
    requires key !in es
    ensures Get(es, key, now) == (None, es)
  {
  }

  /** An expired entry reads as `None` and is dropped; nothing else moves. */
  lemma GetExpiredDrops<V>(es: map<string, CacheEntry<V>>, key: string, now: Instant)
    requires key in es && IsExpired(es[key], now)
    ensures Get(es, key, now).0.None?
    ensures var es' := Get(es, key, now).1;
      key !in es' && forall k :: k != key ==> (k in es' <==> k in es) && (k in es' ==> es'[k] == es[k])
  {
  }

  /** A value set with a non-negative time to live reads back until it
      expires, whatever else the cache holds, and the read only refreshes
      its access time. */
  lemma SetThenGet<V>(es: map<string, CacheEntry<V>>, key: string, value: Option<V>, ttlSeconds: Option<int>,
                      defaultTtl: int, now: Instant, later: Instant)
    requires EffectiveTtl(ttlSeconds, defaultTtl) >= 0
    requires now <= later <= now + EffectiveTtl(ttlSeconds, defaultTtl) * MicrosPerSecond
    ensures var es' := Set(es, key, value, ttlSeconds, defaultTtl, now);
      key in es' && Get(es', key, later).0 == value
      && Get(es', key, later).1[key].lastAccessed == later
  {
  }

  /** One microsecond past its expiry the value is gone. */
  lemma SetThenExpire<V>(es: map<string, CacheEntry<V>>, key: string, value: Option<V>, ttlSeconds: Option<int>,
                         defaultTtl: int, now: Instant)
    ensures var later := now + EffectiveTtl(ttlSeconds, defaultTtl) * MicrosPerSecond + 1;
      var es' := Set(es, key, value, ttlSeconds, defaultTtl, now);
      Get(es', key, later).0.None? && key !in Get(es', key, later).1
  {
  }

  /** Setting overwrites: the old value of the key is not read back. */
  lemma SetOverwrites<V>(es: map<string, CacheEntry<V>>, key: string, v1: Option<V>, v2: Option<V>,
                         ttl1: Option<int>, ttl2: Option<int>, defaultTtl: int, now: Instant)
    requires EffectiveTtl(ttl2, defaultTtl) >= 0
    ensures var es' := Set(Set(es, key, v1, ttl1, defaultTtl, now), key, v2, ttl2, defaultTtl, now);
      Get(es', key, now).0 == v2
  {
  }

  /** Below the threshold `set` touches no other key. */
  lemma SetSmallKeepsOthers<V>(es: map<string, CacheEntry<V>>, key: string, value: Option<V>, ttlSeconds: Option<int>,
                               defaultTtl: int, now: Instant)
    requires |es[key := CacheEntry(value, now, now, None)]| <= CleanupThreshold
    ensures var es' := Set(es, key, value, ttlSeconds, defaultTtl, now);
      forall k :: k != key ==> (k in es' <==> k in es) && (k in es' ==> es'[k] == es[k])
  {
    var ttl := EffectiveTtl(ttlSeconds, defaultTtl);
    var es1 := es[key := CacheEntry(value, now, now, Some(now + ttl * MicrosPerSecond))];
    assert es1.Keys == es[key := CacheEntry(value, now, now, None)].Keys;
  }

  /** Above the threshold `set` drops exactly the expired entries. */
  lemma SetLargeCleansUp<V>(es: map<string, CacheEntry<V>>, key: string, value: Option<V>, ttlSeconds: Option<int>,
                            defaultTtl: int, now: Instant)
    requires |es[key := CacheEntry(value, now, now, None)]| > CleanupThreshold
    ensures var es' := Set(es, key, value, ttlSeconds, defaultTtl, now);
      forall k :: k != key ==> (k in es' <==> k in es && !IsExpired(es[k], now))
  {
    var ttl := EffectiveTtl(ttlSeconds, defaultTtl);
    var es1 := es[key := CacheEntry(value, now, now, Some(now + ttl * MicrosPerSecond))];
    assert es1.Keys == es[key := CacheEntry(value, now, now, None)].Keys;
  }

  // ---------------------------------------------------------------------
  // cached_result

  /** One call of a `cached_result`-wrapped function whose body would
      return `computed`: the value returned, whether the body ran, and the
      entries afterwards. */
  function CachedCall<V>(es: map<string, CacheEntry<V>>, key: string, ttlSeconds: int, computed: Option<V>, now: Instant)
    : (Option<V>, bool, map<string, CacheEntry<V>>)
  {
    var (hit, es1) := Get(es, key, now);
    if hit.Some? then (hit, false, es1)
    else (computed, true, Set(es1, key, computed, Some(ttlSeconds), DefaultTtlSeconds, now))
  }

  /** After a miss, the body runs and its value is stored: a second call
      within the time to live returns it without running the body, as long
      as that value was not `None`. */
  lemma SecondCallHitsCache<V>(es: map<string, CacheEntry<V>>, key: string, ttlSeconds: int,
                               first: Option<V>, second: Option<V>, now: Instant, later: Instant)
    requires EffectiveTtl(Some(ttlSeconds), DefaultTtlSeconds) >= 0
    requires now <= later <= now + EffectiveTtl(Some(ttlSeconds), DefaultTtlSeconds) * MicrosPerSecond
    requires first.Some? && Get(es, key, now).0.None?
    ensures var (r1, called1, es1) := CachedCall(es, key, ttlSeconds, first, now);
      var (r2, called2, _) := CachedCall(es1, key, ttlSeconds, second, later);
      called1 && r1 == first && r2 == first && !called2
  {
    SetThenGet(Get(es, key, now).1, key, first, Some(ttlSeconds), DefaultTtlSeconds, now, later);
  }

  /** A body that returned `None` runs again: a stored `None` reads as a miss. */
  lemma CachedNoneIsAMiss<V>(es: map<string, CacheEntry<V>>, key: string, ttlSeconds: int, second: Option<V>, now: Instant)
    requires Get(es, key, now).0.None?
    ensures var (_, _, es1) := CachedCall(es, key, ttlSeconds, None, now);
      var (r2, called2, _) := CachedCall(es1, key, ttlSeconds, second, now);
      called2 && r2 == second
  {
  }

  // ---------------------------------------------------------------------
  // The cache object

  class InMemoryCache<V> {
    var entries: map<string, CacheEntry<V>>
    const defaultTtl: int

    constructor (defaultTtlSeconds: int)
      ensures entries == map[] && defaultTtl == defaultTtlSeconds
    {
      entries := map[];
      defaultTtl := defaultTtlSeconds;
    }

    method GetNow(key: string, now: Instant) returns (r: Option<V>)
      modifies this
      ensures (r, entries) == Get(old(entries), key, now)
    {
      if key !in entries {
        return None;
      }
      var entry := entries[key];
      if IsExpired(entry, now) {
        entries := entries - {key};
        return None;
      }
      entries := entries[key := entry.(lastAccessed := now)];
      return entry.value;
    }

    method SetNow(key: string, value: Option<V>, ttlSeconds: Option<int>, now: Instant)
      modifies this
      ensures entries == Set(old(entries), key, value, ttlSeconds, defaultTtl, now)
    {
      var ttl := if ttlSeconds.Some? && ttlSeconds.value != 0 then ttlSeconds.value else defaultTtl;
      var expiresAt := now + ttl * MicrosPerSecond;
      entries := entries[key := CacheEntry(value, now, now, Some(expiresAt))];
      if |entries| > CleanupThreshold {
        CleanupExpired(now);
      }
    }

    /** `delete`: whether the key was there; afterwards it is not. */
    method Delete(key: string) returns (found: bool)
      modifies this
      ensures found <==> key in old(entries)
      ensures entries == old(entries) - {key}
    {
      if key in entries {
        entries := entries - {key};
        return true;
      }
      return false;
    }

    method Clear()
      modifies this
      ensures entries == map[]
    {
      entries := map[];
    }

    /** `_cleanup_expired`: collect the expired keys, then delete them. */
    method CleanupExpired(now: Instant)
      modifies this
      ensures entries == Unexpired(old(entries), now)
    {
      var expiredKeys: set<string> := {};
      var pending := entries.Keys;
      while pending != {}
        invariant pending <= entries.Keys
        invariant forall k :: k in expiredKeys <==> k in entries && k !in pending && IsExpired(entries[k], now)
        decreases |pending|
      {
        var key :| key in pending;
        if IsExpired(entries[key], now) {
          expiredKeys := expiredKeys + {key};
        }
        pending := pending - {key};
      }
      var toDelete := expiredKeys;
      while toDelete != {}
        invariant toDelete <= expiredKeys
        invariant forall k :: k in entries <==> k in old(entries) && (k !in expiredKeys || k in toDelete)
        invariant forall k :: k in entries ==> entries[k] == old(entries)[k]
        decreases |toDelete|
      {
        var key :| key in toDelete;
        entries := entries - {key};
        toDelete := toDelete - {key};
      }
    }
  }

  /** `cached_result`'s wrapper around a body that would return `computed`. */
  method CachedResult<V>(cache: InMemoryCache<V>, key: string, ttlSeconds: int, computed: Option<V>, now: Instant)
    returns (r: Option<V>, called: bool)
    requires cache.defaultTtl == DefaultTtlSeconds
    modifies cache
    ensures (r, called, cache.entries) == CachedCall(old(cache.entries), key, ttlSeconds, computed, now)
  {
    r := cache.GetNow(key, now);
    if r.Some? {
      return r, false;
    }
    r := computed;
    called := true;
    cache.SetNow(key, r, Some(ttlSeconds), now);
  }
}
