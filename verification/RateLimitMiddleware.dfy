/** The rate-limiting middleware and its fallback store, updated in place. */
module RateLimitMiddleware {
  import opened Wrappers
  import opened FixedWindow
  import opened RateLimiter

  class Bucket {
    var count: nat
    var expiry: int

    constructor (expiry: int)
      ensures count == 0 && this.expiry == expiry
    {
      count, this.expiry := 0, expiry;
    }

    /** Start a new window if this one is over, then count. */
    method Count(at: int, window: int) returns (n: nat)
      modifies this
      ensures n == count && Entry(count, expiry) == Incr(Some(Entry(old(count), old(expiry))), at, window)
    {
      if at > expiry {
        count, expiry := 0, at + window;
      }
      count := count + 1;
      n := count;
    }
  }

  class InMemoryStore {
    var buckets: map<string, Bucket>

    /** No two keys share a bucket. */
    ghost predicate Valid()
      reads this
    {
      forall j, k | j in buckets && k in buckets && buckets[j] == buckets[k] :: j == k
    }

    ghost function View(): map<string, Entry>
      reads this, buckets.Values
    {
      map k | k in buckets :: Entry(buckets[k].count, buckets[k].expiry)
    }

    constructor ()
      ensures Valid() && View() == map[] && buckets == map[]
    {
      buckets := map[];
    }

    /** The bucket of a key: the stored one, else a new one. */
    method LoadOrStore(key: string, expiry: int) returns (b: Bucket)
      requires Valid()
      modifies this
      ensures Valid() && fresh(buckets.Values - old(buckets.Values)) && key in buckets && buckets[key] == b
      ensures View() == if key in old(View()) then old(View()) else old(View())[key := Entry(0, expiry)]
    {
      if key !in buckets {
        b := new Bucket(expiry);
        buckets := buckets[key := b];
      }
      b := buckets[key];
    }

    /** LoadOrStore, then reset if expired, then count. */
    method Incr(key: string, at: int, window: int) returns (count: nat)
      requires Valid()
      modifies this, buckets.Values
      ensures Valid() && fresh(buckets.Values - old(buckets.Values))
      ensures View() == Apply(old(View()), Hit(key, at), window)
      ensures count == View()[key].count
    {
      var b := LoadOrStore(key, at + window);
      ghost var before := View();
      assert forall k | k in buckets && buckets[k] == b :: k == key;
      count := b.Count(at, window);
      assert View() == before[key := Entry(b.count, b.expiry)];
    }

    /** One tick of the cleanup: every expired bucket goes, every other one stays as it is. */
    method Cleanup(at: int)
      requires Valid()
      modifies this
      ensures Valid() && buckets.Values <= old(buckets.Values)
      ensures View() == map k | k in old(View()) && at <= old(View())[k].expiry :: old(View())[k]
    {
      var keys := buckets.Keys;
      ghost var before := View();
      while keys != {}
        invariant Valid() && keys <= buckets.Keys <= before.Keys
        invariant forall k | k in buckets :: buckets[k] == old(buckets)[k]
        invariant forall k | k in before :: k in buckets <==> k in keys || at <= before[k].expiry
        decreases |keys|
      {
        var key :| key in keys;
        if at > buckets[key].expiry {
          buckets := buckets - {key};
        }
        keys := keys - {key};
      }
    }
  }

  class Middleware {
    const maxRequests: int
    const window: int
    const store: InMemoryStore
    var redis: map<string, Counter>

    constructor (maxRequests: int, window: int, store: InMemoryStore)
      ensures this.maxRequests == maxRequests && this.window == window && this.store == store && redis == map[]
    {
      this.maxRequests, this.window, this.store, redis := maxRequests, window, store, map[];
    }

    /** The counters of one key. */
    ghost function Of(key: string): Limiter
      reads this, store, store.buckets.Values
    {
      Limiter(RedisOf(key), Lookup(store.View(), key))
    }

    function RedisOf(key: string): Counter
      reads this`redis
    {
      if key in redis then redis[key] else Absent
    }

    /** The pipelined INCR and EXPIRE NX on a key; an expired counter starts again. */
    method CountInRedis(key: string, at: int, pipeline: Pipeline) returns (count: nat)
      modifies this`redis
      ensures redis == old(redis)[key := RedisAfter(old(RedisOf(key)), Request(at, pipeline, false), window)]
      ensures pipeline.Answered? ==> RedisOf(key).Counter? && count == RedisOf(key).count
    {
      var c := if key in redis then redis[key] else Absent;
      if c.Counter? && c.expiry.Some? && at > c.expiry.value {
        c := Absent;
      }
      if pipeline != NoEffect {
        c := if c.Absent? then Counter(1, None) else Counter(c.count + 1, c.expiry);
      }
      if (pipeline == Answered || pipeline == BothUnanswered) && c.expiry.None? {
        c := Counter(c.count, Some(at + window));
      }
      redis := redis[key := c];
      count := if c.Counter? then c.count else 0;
    }

    /** One request: Redis first, the in-memory store when the pipeline reports an error. Other keys
        are not touched. */
    method Handle(key: string, at: int, pipeline: Pipeline) returns (verdict: Verdict)
      requires store.Valid()
      modifies this, store, store.buckets.Values
      ensures store.Valid()
      ensures (Of(key), verdict) == Step(old(Of(key)), Request(at, pipeline, false), maxRequests, window)
      ensures pipeline != Answered ==>
                var before := old(store.View());
                var count := if key in before && at <= before[key].expiry then before[key].count + 1 else 1;
                verdict == if count > (if maxRequests >= 2 then maxRequests / 2 else 1) then Rejected else ViaMemory
      ensures pipeline == Answered ==>
                var c := old(RedisOf(key));
                var current := c.Counter? && (c.expiry.None? || at <= c.expiry.value);
                var count := if current then c.count + 1 else 1;
                && verdict == (if count > maxRequests then Rejected else ViaRedis)
                && RedisOf(key) == Counter(count, if current && c.expiry.Some? then c.expiry else Some(at + window))
                && store.View() == old(store.View())
      ensures forall other | other != key :: Of(other) == old(Of(other))
    {
      var counted := CountInRedis(key, at, pipeline);
      if pipeline != Answered {
        var fallbackLimit := maxRequests / 2;
        if fallbackLimit < 1 {
          fallbackLimit := 1;
        }
        HitMeans(store.View(), key, at, window);
        var count := store.Incr(key, at, window);
        return if count > fallbackLimit then Rejected else ViaMemory;
      }
      return if counted > maxRequests then Rejected else ViaRedis;
    }
  }
}
