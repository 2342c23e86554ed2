/** The per-worker response cache and the middleware that consults it before
    any other handler. The time is an explicit parameter (milliseconds, as
    `Date.now()` gives it); the store's timers become the `Expire` operation. */
module ResponseCache {
  import opened Text

  const KeyPrefix: string := "__proxy_cache__"

  /** `cacheMiddleware(60)` */
  const DurationSeconds: int := 60

  datatype Entry = Entry(value: string, expiresAt: int)

  /** `'__proxy_cache__' + req.originalUrl` */
  function CacheKey(originalUrl: string): (key: string)
    ensures StartsWith(key, KeyPrefix) && key[|KeyPrefix|..] == originalUrl
  {
    StartsWithConcat(KeyPrefix, originalUrl);
    KeyPrefix + originalUrl
  }

  /** Distinct URLs never share an entry. */
  lemma CacheKeyInjective(u1: string, u2: string)
    requires CacheKey(u1) == CacheKey(u2)
    ensures u1 == u2
  {
    assert u1 == CacheKey(u1)[|KeyPrefix|..];
  }

  /** `cache.get(key)` at time `now`: an entry is served up to and including
      its expiry time, never after it. */
  function Lookup(store: map<string, Entry>, key: string, now: int): (r: Option<string>)
    ensures r.Some? <==> key in store && now <= store[key].expiresAt
    ensures r.Some? ==> r.value == store[key].value
  {
    if key in store && now <= store[key].expiresAt then Some(store[key].value) else None
  }

  /** A `get` that finds an expired entry also removes it. */
  function AfterGet(store: map<string, Entry>, key: string, now: int): (r: map<string, Entry>)
    ensures forall k :: k in r ==> k in store && r[k] == store[k]
    ensures forall k :: k in store && (k != key || now <= store[k].expiresAt) ==> k in r
  {
    if key in store && store[key].expiresAt < now then store - {key} else store
  }

  /** The store once every timer due by `now` has fired. */
  function Live(store: map<string, Entry>, now: int): (r: map<string, Entry>)
    ensures forall k :: k in r <==> k in store && now <= store[k].expiresAt
    ensures forall k :: k in r ==> r[k] == store[k]
  {
    map k | k in store && now <= store[k].expiresAt :: store[k]
  }

  /** Removing expired entries, by a `get` or by a timer, never changes what
      a later `get` answers. */
  lemma CleanupInvisible(store: map<string, Entry>, key: string, now: int, k: string, later: int)
    requires now <= later
    ensures Lookup(AfterGet(store, key, now), k, later) == Lookup(store, k, later)
    ensures Lookup(Live(store, now), k, later) == Lookup(store, k, later)
  {
  }

  /** An entry put at `now` with lifetime `ttl` is served exactly during
      `[now, now + ttl]`. */
  lemma PutThenLookup(store: map<string, Entry>, key: string, value: string, ttl: int, now: int, later: int)
    requires now <= later
    ensures Lookup(store[key := Entry(value, now + ttl)], key, later) == Some(value) <==> later <= now + ttl
    ensures later > now + ttl ==> Lookup(store[key := Entry(value, now + ttl)], key, later) == None
  {
  }

  /** The store `memory-cache` keeps for one worker process. */
  class Store {
    var entries: map<string, Entry>

    constructor ()
      ensures entries == map[]
    {
      entries := map[];
    }

    method Get(key: string, now: int) returns (r: Option<string>)
      modifies this
      ensures r == Lookup(old(entries), key, now)
      ensures entries == AfterGet(old(entries), key, now)
    {
      if key in entries && entries[key].expiresAt < now {
        entries := entries - {key};
        return None;
      }
      if key in entries {
        return Some(entries[key].value);
      }
      return None;
    }

    /** `cache.put(key, value, ttl)`; a lifetime that is not positive throws
        (`ok == false`) and stores nothing. */
    method Put(key: string, value: string, ttl: int, now: int) returns (ok: bool)
      modifies this
      ensures ok <==> ttl > 0
      ensures ok ==> entries == old(entries)[key := Entry(value, now + ttl)]
      ensures !ok ==> entries == old(entries)
    {
      if ttl <= 0 {
        return false;
      }
      entries := entries[key := Entry(value, now + ttl)];
      return true;
    }

    /** The deletions the store's timers make by time `now`. */
    method Expire(now: int)
      modifies this
      ensures entries == Live(old(entries), now)
    {
      entries := map k | k in entries && now <= entries[k].expiresAt :: entries[k];
    }
  }

  /** `if (cachedContent)`: an empty body counts as absent. */
  predicate Truthy(cached: Option<string>) {
    cached.Some? && cached.value != ""
  }

  /** `Hit`: the cached body is sent and `next` is not called. `Miss`: `send`
      is wrapped to store under `key`, and `next` is called. */
  datatype Decision = Hit(body: string) | Miss(key: string)

  function Decide(store: map<string, Entry>, originalUrl: string, now: int): (d: Decision)
    ensures d.Hit? ==> d.body != "" && CacheKey(originalUrl) in store
                       && store[CacheKey(originalUrl)].value == d.body
                       && now <= store[CacheKey(originalUrl)].expiresAt
    ensures d.Miss? ==> d.key == CacheKey(originalUrl)
                        && (CacheKey(originalUrl) !in store || store[CacheKey(originalUrl)].expiresAt < now
                            || store[CacheKey(originalUrl)].value == "")
  {
    var cached := Lookup(store, CacheKey(originalUrl), now);
    if Truthy(cached) then Hit(cached.value) else Miss(CacheKey(originalUrl))
  }

  /** The store after a wrapped `send` of `body` at `now`: the body is stored
      for `duration * 1000` ms, or, when that lifetime is not positive, `put`
      throws and nothing is sent. */
  function StoreSent(store: map<string, Entry>, key: string, body: string, duration: int, now: int): (r: map<string, Entry>)
    ensures duration * 1000 > 0 ==> key in r && r[key] == Entry(body, now + duration * 1000)
    ensures duration * 1000 <= 0 ==> r == store
    ensures forall k :: k != key ==> (k in r <==> k in store)
    ensures forall k :: k != key && k in r ==> r[k] == store[k]
  {
    if duration * 1000 > 0 then store[key := Entry(body, now + duration * 1000)] else store
  }

  /** A body sent on a miss is served by the next lookup of the same URL for
      the whole configured lifetime, and by no lookup after it. */
  lemma SentBodyServedWithinTtl(store: map<string, Entry>, originalUrl: string, body: string, now: int, later: int)
    requires body != "" && now <= later
    ensures var stored := StoreSent(store, CacheKey(originalUrl), body, DurationSeconds, now);
            && (later <= now + 60000 ==> Decide(stored, originalUrl, later) == Hit(body))
            && (later > now + 60000 ==> Decide(stored, originalUrl, later).Miss?)
  {
  }

  /** An empty body is stored but never served. */
  lemma EmptyBodyNeverServed(store: map<string, Entry>, originalUrl: string, now: int, later: int)
    ensures Decide(StoreSent(store, CacheKey(originalUrl), "", DurationSeconds, now), originalUrl, later).Miss?
  {
  }

  /** `cacheMiddleware(duration)` bound to one worker's store. */
  class Middleware {
    const store: Store
    const duration: int

    constructor (duration: int)
      ensures fresh(store) && store.entries == map[] && this.duration == duration
    {
      store := new Store();
      this.duration := duration;
    }

    /** The lookup at the head of the chain. */
    method Handle(originalUrl: string, now: int) returns (d: Decision)
      modifies store
      ensures d == Decide(old(store.entries), originalUrl, now)
      ensures store.entries == AfterGet(old(store.entries), CacheKey(originalUrl), now)
    {
      var key := CacheKey(originalUrl);
      var cached := store.Get(key, now);
      if Truthy(cached) {
        return Hit(cached.value);
      }
      return Miss(key);
    }

    /** The wrapped `send` installed on a miss: store, then send the same
        body. `None`: `put` threw and nothing was sent. */
    method Send(key: string, body: string, now: int) returns (sent: Option<string>)
      modifies store
      ensures sent == if duration * 1000 > 0 then Some(body) else None
      ensures store.entries == StoreSent(old(store.entries), key, body, duration, now)
    {
      var ok := store.Put(key, body, duration * 1000, now);
      if !ok {
        return None;
      }
      return Some(body);
    }
  }
}
