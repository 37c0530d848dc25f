/**
 The fixed-window rate limiter, in memory and on Redis. Both are proved to give, hit by
 hit, the verdict of a window that depends only on the history of the hit's own key; what
 that window promises is proved about the history.
 */
module Limiter {
  import opened Prelude

  /** One call of hit(), with the reading of the clock it makes. */
  datatype Attempt = Attempt(key: string, limit: int, window: int, now: real)

  /** What the in-memory limiter keeps for a key. */
  datatype Window = Window(count: int, expires: real)

  const NO_WINDOW := Window(0, 0.0)

  ghost predicate Timed(hits: seq<Attempt>) {
    && (forall i | 0 <= i < |hits| :: 0.0 <= hits[i].now)
    && (forall i, j | 0 <= i < j < |hits| :: hits[i].now <= hits[j].now)
  }

  // -- The window of a key, by its history -----------------------------------

  predicate Opens(w: Window, h: Attempt) {
    h.now >= w.expires
  }

  function Next(w: Window, h: Attempt): Window {
    if Opens(w, h) then Window(1, h.now + h.window as real) else Window(w.count + 1, w.expires)
  }

  function After(hits: seq<Attempt>, key: string): Window {
    if hits == [] then NO_WINDOW
    else
      var (before, last) := (After(hits[..|hits| - 1], key), hits[|hits| - 1]);
      if last.key == key then Next(before, last) else before
  }

  predicate Allowed(hits: seq<Attempt>, i: nat)
    requires i < |hits|
  {
    Next(After(hits[..i], hits[i].key), hits[i]).count <= hits[i].limit
  }

  // -- The in-memory limiter -------------------------------------------------

  function Lookup(windows: map<string, Window>, key: string): Window {
    if key in windows then windows[key] else NO_WINDOW
  }

  class MemoryRateLimiter {
    var windows: map<string, Window>

    constructor ()
      ensures windows == map[]
    {
      windows := map[];
    }

    method Hit(key: string, limit: int, window: int, now: real) returns (ok: bool)
      modifies this
      ensures var w := Next(Lookup(old(windows), key), Attempt(key, limit, window, now));
              ok == (w.count <= limit) && windows == old(windows)[key := w]
    {
      var count, expires := 0, 0.0;
      if key in windows {
        count, expires := windows[key].count, windows[key].expires;
      }
      if now >= expires {
        count := 0;
        expires := now + window as real;
      }
      count := count + 1;
      windows := windows[key := Window(count, expires)];
      ok := count <= limit;
    }
  }

  method ServeInMemory(hits: seq<Attempt>) returns (verdicts: seq<bool>)
    ensures |verdicts| == |hits|
    ensures forall i | 0 <= i < |hits| :: verdicts[i] == Allowed(hits, i)
  {
    var limiter := new MemoryRateLimiter();
    verdicts := [];
    for n := 0 to |hits|
      invariant |verdicts| == n
      invariant forall i | 0 <= i < n :: verdicts[i] == Allowed(hits, i)
      invariant forall k :: Lookup(limiter.windows, k) == After(hits[..n], k)
    {
      var h := hits[n];
      var ok := limiter.Hit(h.key, h.limit, h.window, h.now);
      verdicts := verdicts + [ok];
      assert hits[..n + 1][..n] == hits[..n];
    }
  }

  // -- The Redis limiter -----------------------------------------------------

  datatype Entry = Entry(value: int, deadline: Option<real>)

  predicate Expired(e: Entry, now: real) {
    e.deadline.Some? && e.deadline.value <= now
  }

  /** The server: integer keys, each removed once its deadline is reached. */
  class Redis {
    var store: map<string, Entry>
    var now: real

    constructor ()
      ensures store == map[] && now == 0.0
    {
      store, now := map[], 0.0;
    }

    method Advance(now: real)
      modifies this
      ensures this.now == now
      ensures store == map k | k in old(store) && !Expired(old(store)[k], now) :: old(store)[k]
    {
      this.now := now;
      store := map k | k in store && !Expired(store[k], now) :: store[k];
    }

    /** INCR: a missing key counts as 0, and a deadline stays. */
    method Incr(key: string) returns (value: int)
      modifies this`store
      ensures value == 1 + (if key in old(store) then old(store)[key].value else 0)
      ensures store == old(store)[key := Entry(value, if key in old(store) then old(store)[key].deadline else None)]
    {
      var entry := if key in store then store[key] else Entry(0, None);
      value := entry.value + 1;
      store := store[key := entry.(value := value)];
    }

    /** EXPIRE: a key given no time to live is removed at once. */
    method Expire(key: string, seconds: int)
      modifies this`store
      ensures key !in old(store) ==> store == old(store)
      ensures key in old(store) && seconds <= 0 ==> store == old(store) - {key}
      ensures key in old(store) && seconds > 0 ==>
        store == old(store)[key := old(store)[key].(deadline := Some(now + seconds as real))]
    {
      if key in store {
        if seconds <= 0 {
          store := store - {key};
        } else {
          store := store[key := store[key].(deadline := Some(now + seconds as real))];
        }
      }
    }
  }

  function FullKey(key: string): string {
    "rl:" + key
  }

  lemma FullKeyIsInjective(a: string, b: string)
    ensures FullKey(a) == FullKey(b) ==> a == b
  {
    assert FullKey(a)[3..] == a && FullKey(b)[3..] == b;
  }

  /** A key's counter stands for its window: absent once the window is over, otherwise the
      same count under the same deadline. */
  predicate Stands(store: map<string, Entry>, key: string, w: Window, now: real) {
    if FullKey(key) in store && !Expired(store[FullKey(key)], now)
    then w.count > 0 && w.expires > now && store[FullKey(key)] == Entry(w.count, Some(w.expires))
    else w.expires <= now
  }

  ghost predicate SameExcept(store: map<string, Entry>, store': map<string, Entry>, key: string) {
    forall k | k != key ::
      (k in store <==> k in store') && (k in store ==> store[k] == store'[k])
  }

  lemma StandsElsewhere(store: map<string, Entry>, store': map<string, Entry>, hit: string, key: string, w: Window,
                        now: real)
    requires SameExcept(store, store', FullKey(hit)) && key != hit && Stands(store, key, w, now)
    ensures Stands(store', key, w, now)
  {
    FullKeyIsInjective(key, hit);
  }

  class RedisRateLimiter {
    const redis: Redis

    constructor (redis: Redis)
      ensures this.redis == redis
    {
      this.redis := redis;
    }

    /** INCR and EXPIRE at the server's time, as one atomic step. */
    method Hit(key: string, limit: int, window: int) returns (ok: bool)
      requires FullKey(key) in redis.store ==> !Expired(redis.store[FullKey(key)], redis.now)
      modifies redis`store
      ensures forall w | Stands(old(redis.store), key, w, redis.now) ::
        var w' := Next(w, Attempt(key, limit, window, redis.now));
        ok == (w'.count <= limit) && Stands(redis.store, key, w', redis.now)
      ensures SameExcept(old(redis.store), redis.store, FullKey(key))
    {
      var count := redis.Incr(FullKey(key));
      if count == 1 {
        redis.Expire(FullKey(key), window);
      }
      ok := count <= limit;
    }
  }

  method ServeOnRedis(hits: seq<Attempt>) returns (verdicts: seq<bool>)
    requires Timed(hits)
    ensures |verdicts| == |hits|
    ensures forall i | 0 <= i < |hits| :: verdicts[i] == Allowed(hits, i)
  {
    var redis := new Redis();
    var limiter := new RedisRateLimiter(redis);
    verdicts := [];
    for n := 0 to |hits|
      invariant limiter.redis == redis
      invariant |verdicts| == n
      invariant forall i | 0 <= i < n :: verdicts[i] == Allowed(hits, i)
      invariant n < |hits| ==> redis.now <= hits[n].now
      invariant forall k :: Stands(redis.store, k, After(hits[..n], k), redis.now)
    {
      var h := hits[n];
      redis.Advance(h.now);
      ghost var store := redis.store;
      assert forall k :: Stands(store, k, After(hits[..n], k), h.now);
      var ok := limiter.Hit(h.key, h.limit, h.window);
      assert Stands(store, h.key, After(hits[..n], h.key), h.now);
      assert h == Attempt(h.key, h.limit, h.window, redis.now);
      verdicts := verdicts + [ok];
      ghost var done := hits[..n + 1];
      assert done[..n] == hits[..n];
      forall k ensures Stands(redis.store, k, After(done, k), redis.now) {
        assert Stands(store, k, After(hits[..n], k), h.now);
        if k != h.key {
          StandsElsewhere(store, redis.store, h.key, k, After(hits[..n], k), h.now);
        }
      }
    }
  }
}
