/**
 * Whole runs of a cache, from construction, as the repository's tests drive
 * it, and two behaviours that follow from the code: a touched entry survives
 * LRU eviction, and a timer left behind by eviction cuts short the life of an
 * entry stored again under the same key.
 */
module CacheScenarios {
  import opened Wrappers
  import opened Json
  import opened CacheEngine

  /**
   * Three asynchronous calls with the same arguments before the original
   * function answers: the first starts the only fetch, the other two wait.
   */
  method ThreeCalls<R>(keys: seq<Path>, lru: nat, ttl: nat, args: seq<Value>) returns (c: Cache<R>)
    ensures fresh(c) && fresh(c.fetchQueue) && c.Valid() && c.keys == keys && c.lru == lru && c.ttl == ttl && c.async
    ensures var key := MakeKey(keys, Arr(args));
      && c.invocations == [Invocation(key, args, Some(1))] && c.caches == [] && c.replies == []
      && c.fetchQueue.Waiting(key) == [2, 3]
  {
    c := new Cache<R>(keys, lru, ttl, true);
    var key := MakeKey(keys, Arr(args));
    KeyShape(keys, Arr(args));
    c.Async(args, 1);
    assert c.invocations == [Invocation(key, args, Some(1))] && c.caches == [] && c.replies == [];
    c.Async(args, 2);
    assert c.fetchQueue.Waiting(key) == [2] && c.caches == [];
    c.Async(args, 3);
  }

  /**
   * Any number of asynchronous calls with the same arguments before the
   * original function answers: the first starts the only fetch, and every
   * later caller waits behind the earlier ones, in call order.
   */
  method ManyCalls<R>(keys: seq<Path>, lru: nat, ttl: nat, args: seq<Value>, callbacks: seq<Callback>)
    returns (calls: seq<Invocation>, waiting: seq<Callback>)
    requires callbacks != []
    ensures calls == [Invocation(MakeKey(keys, Arr(args)), args, Some(callbacks[0]))]
    ensures waiting == callbacks[1..]
  {
    var c := new Cache<R>(keys, lru, ttl, true);
    var key := MakeKey(keys, Arr(args));
    KeyShape(keys, Arr(args));
    c.Async(args, callbacks[0]);
    var i := 1;
    while i < |callbacks|
      invariant 1 <= i <= |callbacks|
      invariant fresh(c) && fresh(c.fetchQueue) && c.Valid() && c.async && c.keys == keys
      invariant c.invocations == [Invocation(key, args, Some(callbacks[0]))] && c.caches == []
      invariant c.fetchQueue.IsFetching(key) && c.fetchQueue.Waiting(key) == callbacks[1..i]
    {
      c.Async(args, callbacks[i]);
      assert callbacks[1..i + 1] == callbacks[1..i] + [callbacks[i]];
      i := i + 1;
    }
    calls := c.invocations;
    waiting := c.fetchQueue.Waiting(key);
  }

  /**
   * Three asynchronous calls with the same arguments, then the original
   * function answers, then a fourth call: the original ran once, the two
   * callers that waited are answered first, in call order, then the caller
   * whose miss started the fetch, and the late caller is answered from the
   * cache.
   */
  method AsyncDedup<R>(keys: seq<Path>, lru: nat, ttl: nat, args: seq<Value>, result: R)
    returns (calls: nat, log: seq<Reply<R>>)
    ensures calls == 1
    ensures log == [Reply(2, result), Reply(3, result), Reply(1, result), Reply(4, result)]
  {
    var c := ThreeCalls<R>(keys, lru, ttl, args);
    var key := MakeKey(keys, Arr(args));
    assert Broadcast([2, 3], result) == [Reply(2, result), Reply(3, result)];
    c.Done(0, result);
    assert c.caches == [Keyed(key, result)];
    assert c.HasCache(key) && c.CachedResult(key) == result;
    c.Async(args, 4);
    calls := |c.invocations|;
    log := c.replies;
  }

  /**
   * Synchronous calls `a`, `a`, `b`: the first and third run the original
   * function and return what it returned; the second returns the first
   * result without running it (`unused` is what it would have returned).
   */
  method SyncRepeat<R>(lru: nat, ttl: nat, a: seq<Value>, b: seq<Value>, ra: R, rb: R, unused: R)
    returns (first: R, second: R, third: R, calls: nat)
    requires a != b
    ensures first == ra && second == ra && third == rb && calls == 2
  {
    var c := new Cache<R>([], lru, ttl, false);
    ArgumentsObjectInjective(a, b);
    MakeKeyInjective([], ArgumentsObject(a), ArgumentsObject(b));
    first := c.Sync(a, ra);
    second := c.Sync(a, unused);
    third := c.Sync(b, rb);
    calls := |c.invocations|;
  }

  /** A cache with room for `lru` entries (any number when `lru` is 0) after results are stored for `a` and then `b`. */
  method TwoStored<R>(lru: nat, ttl: nat, a: Key, b: Key, ra: R, rb: R) returns (cache: Cache<R>)
    ensures fresh(cache) && cache.Valid() && cache.lru == lru && cache.ttl == ttl
    ensures cache.caches == (if lru == 1 then [Keyed(b, rb)] else [Keyed(a, ra), Keyed(b, rb)])
    ensures ttl > 0 ==> cache.timeouts == [Keyed(a, 0), Keyed(b, 1)] && cache.nextHandle == 2
  {
    cache := new Cache<R>([], lru, ttl, false);
    var _ := cache.Store(a, ra, None);
    assert cache.caches == [Keyed(a, ra)] && (ttl > 0 ==> cache.timeouts == [Keyed(a, 0)] && cache.nextHandle == 1);
    var _ := cache.Store(b, rb, None);
  }

  /**
   * With room for two entries, results stored for `a` and `b`, a hit on `a`,
   * then a result stored for `c`: the hit made `b` the least recently used,
   * so storing `c` evicts `b` and keeps `a`.
   */
  method LruTouch<R>(ttl: nat, a: Key, b: Key, c: Key, ra: R, rb: R, rc: R)
    returns (hit: R, entries: seq<Keyed<R>>)
    requires a != b && b != c && a != c
    ensures hit == ra && entries == [Keyed(a, ra), Keyed(c, rc)]
  {
    var cache := TwoStored(2, ttl, a, b, ra, rb);
    hit := cache.GetCache(a, None);
    TouchResetsRecency(Keyed(a, ra), Keyed(b, rb), Keyed(c, rc));
    var _ := cache.Store(c, rc, None);
    entries := cache.caches;
  }

  /**
   * With room for one entry and a TTL: `a` is stored, evicted by `b` while
   * its timer stays armed, then stored again.
   */
  method StoreEvictRestore<R>(ttl: nat, a: Key, b: Key, ra: R, rb: R, ra': R) returns (cache: Cache<R>)
    requires ttl > 0 && a != b
    ensures fresh(cache) && cache.Valid() && cache.ttl == ttl && cache.lru == 1
    ensures cache.caches == [Keyed(a, ra')]
    ensures cache.timeouts == [Keyed(a, 0), Keyed(b, 1), Keyed(a, 2)]
  {
    cache := TwoStored(1, ttl, a, b, ra, rb);
    var _ := cache.Store(a, ra', None);
    assert cache.timeouts == [Keyed(a, 0), Keyed(b, 1)] + [Keyed(a, 2)];
  }

  /**
   * With room for one entry and a TTL, `a` is stored, evicted by `b` and
   * stored again; then the timer armed by the first store fires. It clears
   * the new entry for `a` and the new entry's timer too, so that entry lived
   * for less than the TTL.
   */
  method StaleTimer<R>(ttl: nat, a: Key, b: Key, ra: R, rb: R, ra': R)
    returns (before: seq<Keyed<R>>, after: seq<Keyed<R>>, timers: seq<Keyed<nat>>)
    requires ttl > 0 && a != b && a != ""
    ensures before == [Keyed(a, ra')] && after == [] && timers == [Keyed(b, 1)]
  {
    var cache := StoreEvictRestore(ttl, a, b, ra, rb, ra');
    before := cache.caches;
    assert Without(cache.timeouts, a) == [Keyed(b, 1)] by {
      var t0: seq<Keyed<nat>> := [];
      WithoutAppend(t0, Keyed(a, 0), a);
      WithoutAppend(t0 + [Keyed(a, 0)], Keyed(b, 1), a);
      WithoutAppend(t0 + [Keyed(a, 0)] + [Keyed(b, 1)], Keyed(a, 2), a);
      assert t0 + [Keyed(a, 0)] + [Keyed(b, 1)] + [Keyed(a, 2)] == cache.timeouts;
    }
    assert Without(cache.caches, a) == [] by {
      var e0: seq<Keyed<R>> := [];
      WithoutAppend(e0, Keyed(a, ra'), a);
      assert e0 + [Keyed(a, ra')] == cache.caches;
    }
    assert cache.timeouts[0].key == a;
    cache.Expire(0);
    after, timers := cache.caches, cache.timeouts;
  }
}
