/** The rate limiter: a Redis counter per key, and a stricter in-memory one while Redis is away. */
module RateLimiter {
  import opened Wrappers
  import opened FixedWindow

  /** A Redis counter. It has no expiry while only INCR, but not EXPIRE NX, has taken effect. */
  datatype Counter = Absent | Counter(count: nat, expiry: Option<int>)

  /** What becomes of the pipelined INCR and EXPIRE NX. Only Answered reports no error. */
  datatype Pipeline = Answered | NoEffect | OnlyIncr | BothUnanswered

  datatype Verdict = ViaRedis | ViaMemory | Rejected

  datatype Limiter = Limiter(redis: Counter, memory: Option<Entry>)

  datatype Request = Request(at: int, pipeline: Pipeline, sweepBefore: bool)

  function Max(a: int, b: int): int { if a > b then a else b }

  /** Half the limit, but at least one request. */
  function FallbackLimit(maxRequests: int): int { Max(1, maxRequests / 2) }

  /** Redis drops a key once its expiry has passed. */
  function Current(c: Counter, at: int): Counter {
    if c.Counter? && c.expiry.Some? && at > c.expiry.value then Absent else c
  }

  function Incremented(c: Counter): Counter { if c.Absent? then Counter(1, None) else c.(count := c.count + 1) }

  function Timed(c: Counter, at: int, window: int): Counter
    requires c.Counter?
  {
    if c.expiry.None? then c.(expiry := Some(at + window)) else c
  }

  function RedisAfter(c: Counter, r: Request, window: int): Counter {
    match r.pipeline
    case NoEffect => Current(c, r.at)
    case OnlyIncr => Incremented(Current(c, r.at))
    case _ => Timed(Incremented(Current(c, r.at)), r.at, window)
  }

  /** What each fate of the pipeline leaves: an expired counter starts again, INCR counts, and EXPIRE NX
      gives an expiry one window ahead to a counter without one. */
  lemma PipelineMeans(c: Counter, r: Request, window: int)
    ensures var current := c.Counter? && (c.expiry.None? || r.at <= c.expiry.value);
            var count := if current then c.count + 1 else 1;
            var expiry := if current then c.expiry else None;
            RedisAfter(c, r, window)
            == match r.pipeline
               case NoEffect => (if current then c else Absent)
               case OnlyIncr => Counter(count, expiry)
               case _ => Counter(count, if expiry.Some? then expiry else Some(r.at + window))
  {}

  function MemoryBefore(l: Limiter, r: Request): Option<Entry> {
    if r.sweepBefore && l.memory.Some? && r.at > l.memory.value.expiry then None else l.memory
  }

  /** One request of a key: its verdict and the counters it leaves. */
  function Step(l: Limiter, r: Request, maxRequests: int, window: int): (Limiter, Verdict) {
    var redis, memory := RedisAfter(l.redis, r, window), MemoryBefore(l, r);
    if r.pipeline.Answered? then
      (Limiter(redis, memory), if redis.count > maxRequests then Rejected else ViaRedis)
    else
      var b := Incr(memory, r.at, window);
      (Limiter(redis, Some(b)), if b.count > FallbackLimit(maxRequests) then Rejected else ViaMemory)
  }

  /** How many requests of the trace at times a..a+window are admitted by the given way. */
  function Admitted(l: Limiter, trace: seq<Request>, maxRequests: int, window: int, via: Verdict, a: int): nat
    decreases |trace|
  {
    if trace == [] then 0
    else
      var (l', v) := Step(l, trace[0], maxRequests, window);
      (if v == via && a <= trace[0].at <= a + window then 1 else 0)
      + Admitted(l', trace[1..], maxRequests, window, via, a)
  }

  predicate ClockedFrom(now: int, trace: seq<Request>)
    decreases |trace|
  {
    trace != [] ==> now <= trace[0].at && ClockedFrom(trace[0].at, trace[1..])
  }

  // ---------------------------------------------------------------- the bound, for either counter

  /** The window a counter is in, if any: a Redis counter without expiry has not opened one. */
  function Window(c: Counter): Option<Entry> {
    if c.Counter? && c.expiry.Some? then Some(Entry(c.count, c.expiry.value)) else None
  }

  /** Two windows, of which the first was opened by a request before the interval. */
  function TwoWindows(limit: nat): nat { Max(0, 2 * limit - 1) }

  /** At most this many more requests can be admitted within a..a+window, at or after `now`, by a
      counter that is in the given window: what is left of that window, plus one whole window each
      for those that can still open. */
  function Budget(w: Option<Entry>, now: int, a: int, window: int, limit: nat): nat {
    if now > a + window then 0
    else if w.None? || w.value.expiry < now then (if now <= a then TwoWindows(limit) else limit)
    else if w.value.expiry < a then TwoWindows(limit)
    else Max(0, limit - w.value.count) + if w.value.expiry < a + window then limit else 0
  }

  /** What one request may do to a counter's window, and when it may be admitted. */
  predicate WindowMoves(w: Option<Entry>, w': Option<Entry>, at: int, window: int, limit: nat, admitted: bool) {
    if w.Some? && at <= w.value.expiry then
      || (w' == w && !admitted)
      || (w' == Some(Entry(w.value.count + 1, w.value.expiry)) && (admitted ==> w.value.count + 1 <= limit))
    else
      || ((w'.None? || w' == w) && !admitted)
      || (w'.Some? && w'.value.expiry == at + window && w'.value.count >= 1 && (admitted ==> w'.value.count <= limit))
  }

  lemma BudgetSpent(w: Option<Entry>, w': Option<Entry>, now: int, at: int, a: int, window: int, limit: nat,
                    admitted: bool)
    requires now <= at && window >= 0 && WindowMoves(w, w', at, window, limit, admitted)
    ensures Budget(w', at, a, window, limit) + (if admitted && a <= at <= a + window then 1 else 0)
            <= Budget(w, now, a, window, limit)
  {}

  function LimitOf(via: Verdict, maxRequests: int): nat {
    if via.ViaRedis? then Max(0, maxRequests) else FallbackLimit(maxRequests)
  }

  function WindowOf(l: Limiter, via: Verdict): Option<Entry> { if via.ViaRedis? then Window(l.redis) else l.memory }

  lemma StepMovesWindow(l: Limiter, r: Request, maxRequests: int, window: int, via: Verdict)
    requires via != Rejected
    ensures var (l', v) := Step(l, r, maxRequests, window);
            WindowMoves(WindowOf(l, via), WindowOf(l', via), r.at, window, LimitOf(via, maxRequests), v == via)
  {}

  lemma {:induction false} AdmittedWithinBudget(l: Limiter, trace: seq<Request>, now: int, maxRequests: int,
                                                window: int, via: Verdict, a: int)
    requires via != Rejected && window >= 0 && ClockedFrom(now, trace)
    ensures Admitted(l, trace, maxRequests, window, via, a)
            <= Budget(WindowOf(l, via), now, a, window, LimitOf(via, maxRequests))
    decreases |trace|
  {
    if trace != [] {
      var (l', v) := Step(l, trace[0], maxRequests, window);
      StepMovesWindow(l, trace[0], maxRequests, window, via);
      BudgetSpent(WindowOf(l, via), WindowOf(l', via), now, trace[0].at, a, window,
                  LimitOf(via, maxRequests), v == via);
      AdmittedWithinBudget(l', trace[1..], trace[0].at, maxRequests, window, via, a);
    }
  }

  /** Whatever requests come, whenever Redis fails or half-fails, and whenever the in-memory store is
      swept: in any closed interval one window long, Redis lets at most twice the limit less one
      through, and the in-memory store at most twice half the limit less one, or just one request where
      the limit is below four. */
  lemma FewerThanTwiceTheLimit(trace: seq<Request>, now: int, maxRequests: int, window: int, a: int)
    requires window >= 0 && ClockedFrom(now, trace)
    ensures var start := Limiter(Absent, None);
            var redis := Admitted(start, trace, maxRequests, window, ViaRedis, a);
            var memory := Admitted(start, trace, maxRequests, window, ViaMemory, a);
            && redis <= (if maxRequests >= 1 then 2 * maxRequests - 1 else 0)
            && memory <= (if maxRequests >= 2 then 2 * (maxRequests / 2) - 1 else 1)
            && redis + memory <= if maxRequests >= 2 then 2 * maxRequests + 2 * (maxRequests / 2) - 2 else
                                 if maxRequests == 1 then 2 else 1
  {
    var start := Limiter(Absent, None);
    AdmittedWithinBudget(start, trace, now, maxRequests, window, ViaRedis, a);
    AdmittedWithinBudget(start, trace, now, maxRequests, window, ViaMemory, a);
  }

  // ---------------------------------------------------------------- the bound is reached

  /** The limiter with its counter for the given way at count, in a window that ends at expiry. */
  function With(l: Limiter, via: Verdict, count: nat, expiry: int): Limiter {
    if via.ViaRedis? then l.(redis := Counter(count, Some(expiry))) else l.(memory := Some(Entry(count, expiry)))
  }

  /** A request that goes the given way. */
  function Going(via: Verdict, at: int): Request { Request(at, if via.ViaRedis? then Answered else NoEffect, false) }

  function Repeated(via: Verdict, at: int, n: nat): seq<Request> {
    if n == 0 then [] else [Going(via, at)] + Repeated(via, at, n - 1)
  }

  function After(l: Limiter, trace: seq<Request>, maxRequests: int, window: int): Limiter
    decreases |trace|
  {
    if trace == [] then l else After(Step(l, trace[0], maxRequests, window).0, trace[1..], maxRequests, window)
  }

  lemma {:induction false} AdmittedJoins(l: Limiter, x: seq<Request>, y: seq<Request>, maxRequests: int, window: int,
                                         via: Verdict, a: int)
    ensures Admitted(l, x + y, maxRequests, window, via, a)
            == Admitted(l, x, maxRequests, window, via, a)
               + Admitted(After(l, x, maxRequests, window), y, maxRequests, window, via, a)
    decreases |x|
  {
    if x == [] {
      assert x + y == y;
    } else {
      assert (x + y)[1..] == x[1..] + y;
      AdmittedJoins(Step(l, x[0], maxRequests, window).0, x[1..], y, maxRequests, window, via, a);
    }
  }

  lemma {:induction false} RepeatedClocked(via: Verdict, now: int, at: int, n: nat, rest: seq<Request>)
    requires now <= at && ClockedFrom(at, rest)
    ensures ClockedFrom(now, Repeated(via, at, n) + rest)
    decreases n
  {
    if n == 0 {
      assert Repeated(via, at, n) + rest == rest;
    } else {
      RepeatedClocked(via, at, at, n - 1, rest);
      assert (Repeated(via, at, n) + rest)[1..] == Repeated(via, at, n - 1) + rest;
    }
  }

  /** The counter of the given way can open a window, and going that way leaves the other counter be. */
  predicate Closed(l: Limiter, via: Verdict, at: int) {
    && (if via.ViaRedis? then l.redis.Absent? || (l.redis.expiry.Some? && at > l.redis.expiry.value)
        else (l.memory.Some? ==> at > l.memory.value.expiry) && Current(l.redis, at) == l.redis)
  }

  predicate Standing(l: Limiter, via: Verdict, count: nat, expiry: int, at: int) {
    l == With(l, via, count, expiry) && at <= expiry && Current(l.redis, at) == l.redis
  }

  lemma GoingOpens(l: Limiter, via: Verdict, at: int, maxRequests: int, window: int)
    requires via != Rejected && Closed(l, via, at) && LimitOf(via, maxRequests) >= 1
    ensures Step(l, Going(via, at), maxRequests, window) == (With(l, via, 1, at + window), via)
    ensures window >= 0 ==> Standing(With(l, via, 1, at + window), via, 1, at + window, at)
  {}

  lemma GoingCounts(l: Limiter, via: Verdict, count: nat, expiry: int, at: int, maxRequests: int, window: int)
    requires via != Rejected && Standing(l, via, count, expiry, at) && count < LimitOf(via, maxRequests)
    ensures Step(l, Going(via, at), maxRequests, window) == (With(l, via, count + 1, expiry), via)
    ensures Standing(With(l, via, count + 1, expiry), via, count + 1, expiry, at)
  {}

  lemma Overwrites(l: Limiter, via: Verdict, count: nat, expiry: int, count': nat)
    ensures With(With(l, via, count, expiry), via, count', expiry) == With(l, via, count', expiry)
  {}

  /** n more requests within the window and the limit are all admitted, that way only. */
  lemma {:induction false} Filling(l: Limiter, via: Verdict, count: nat, expiry: int, at: int, n: nat, maxRequests: int,
                                   window: int, way: Verdict, a: int)
    requires via != Rejected && Standing(l, via, count, expiry, at) && count + n <= LimitOf(via, maxRequests)
    ensures After(l, Repeated(via, at, n), maxRequests, window) == With(l, via, count + n, expiry)
    ensures Admitted(l, Repeated(via, at, n), maxRequests, window, way, a)
            == if way == via && a <= at <= a + window then n else 0
    decreases n
  {
    if n > 0 {
      hide Step, With, LimitOf, Standing;
      assert Repeated(via, at, n)[1..] == Repeated(via, at, n - 1);
      GoingCounts(l, via, count, expiry, at, maxRequests, window);
      Overwrites(l, via, count + 1, expiry, count + n);
      Filling(With(l, via, count + 1, expiry), via, count + 1, expiry, at, n - 1, maxRequests, window, way, a);
    }
  }

  /** n requests that open a window are all admitted, that way only. */
  lemma Burst(l: Limiter, via: Verdict, at: int, n: nat, maxRequests: int, window: nat, way: Verdict, a: int)
    requires via != Rejected && Closed(l, via, at) && 1 <= n <= LimitOf(via, maxRequests)
    ensures After(l, Repeated(via, at, n), maxRequests, window) == With(l, via, n, at + window)
    ensures Admitted(l, Repeated(via, at, n), maxRequests, window, way, a)
            == if way == via && a <= at <= a + window then n else 0
  {
    hide Step, With, LimitOf, Standing, Closed;
    assert Repeated(via, at, n)[1..] == Repeated(via, at, n - 1);
    GoingOpens(l, via, at, maxRequests, window);
    Overwrites(l, via, 1, at + window, n);
    Filling(With(l, via, 1, at + window), via, 1, at + window, at, n - 1, maxRequests, window, way, a);
  }

  lemma BurstThen(l: Limiter, via: Verdict, at: int, n: nat, rest: seq<Request>, maxRequests: int, window: nat,
                  way: Verdict, a: int)
    requires via != Rejected && Closed(l, via, at) && 1 <= n <= LimitOf(via, maxRequests)
    ensures Admitted(l, Repeated(via, at, n) + rest, maxRequests, window, way, a)
            == (if way == via && a <= at <= a + window then n else 0)
               + Admitted(With(l, via, n, at + window), rest, maxRequests, window, way, a)
  {
    hide *;
    Burst(l, via, at, n, maxRequests, window, way, a);
    AdmittedJoins(l, Repeated(via, at, n), rest, maxRequests, window, way, a);
  }

  lemma FillingThen(l: Limiter, via: Verdict, count: nat, expiry: int, at: int, n: nat, rest: seq<Request>,
                    maxRequests: int, window: nat, way: Verdict, a: int)
    requires via != Rejected && Standing(l, via, count, expiry, at) && count + n <= LimitOf(via, maxRequests)
    ensures Admitted(l, Repeated(via, at, n) + rest, maxRequests, window, way, a)
            == (if way == via && a <= at <= a + window then n else 0)
               + Admitted(With(l, via, count + n, expiry), rest, maxRequests, window, way, a)
  {
    hide *;
    Filling(l, via, count, expiry, at, n, maxRequests, window, way, a);
    AdmittedJoins(l, Repeated(via, at, n), rest, maxRequests, window, way, a);
  }

  /** Both counters, as far as they go, in windows that end at the given times. */
  function Both(r: nat, redisEnd: int, f: nat, memoryEnd: int): Limiter {
    Limiter(Counter(r, Some(redisEnd)), Some(Entry(f, memoryEnd)))
  }

  /** Exhaust both limits right after both windows have ended. */
  function Exhausting(r: nat, f: nat, window: nat): seq<Request> {
    Repeated(ViaRedis, window + 1, r) + (Repeated(ViaMemory, window + 1, f) + [])
  }

  /** Before that, fill both windows as they end. */
  function FillingUp(r: nat, f: nat, window: nat): seq<Request>
    requires r >= 1 && f >= 1
  {
    Repeated(ViaRedis, window, r - 1) + (Repeated(ViaMemory, window, f - 1) + Exhausting(r, f, window))
  }

  /** Before that, open both at 0. */
  function TightTrace(r: nat, f: nat, window: nat): seq<Request>
    requires r >= 1 && f >= 1
  {
    Repeated(ViaRedis, 0, 1) + (Repeated(ViaMemory, 0, 1) + FillingUp(r, f, window))
  }

  lemma TightTraceClocked(r: nat, f: nat, window: nat)
    requires r >= 1 && f >= 1
    ensures ClockedFrom(0, TightTrace(r, f, window))
  {
    hide Repeated, ClockedFrom;
    var t6 := Repeated(ViaMemory, window + 1, f) + [];
    NothingClocked(window + 1);
    RepeatedClocked(ViaMemory, window + 1, window + 1, f, []);
    var t5 := Repeated(ViaRedis, window + 1, r) + t6;
    RepeatedClocked(ViaRedis, window, window + 1, r, t6);
    var t4 := Repeated(ViaMemory, window, f - 1) + t5;
    RepeatedClocked(ViaMemory, window, window, f - 1, t5);
    var t3 := Repeated(ViaRedis, window, r - 1) + t4;
    RepeatedClocked(ViaRedis, 0, window, r - 1, t4);
    RepeatedClocked(ViaMemory, 0, 0, 1, t3);
    RepeatedClocked(ViaRedis, 0, 0, 1, Repeated(ViaMemory, 0, 1) + t3);
  }

  lemma NothingClocked(now: int)
    ensures ClockedFrom(now, [])
  {}

  lemma NothingAdmitted(l: Limiter, maxRequests: int, window: int, via: Verdict, a: int)
    ensures Admitted(l, [], maxRequests, window, via, a) == 0
  {}

  lemma ExhaustingAdmits(r: nat, f: nat, window: nat, way: Verdict)
    requires r >= 1 && f == FallbackLimit(r) && window >= 1 && way != Rejected
    ensures Admitted(Both(r, window, f, window), Exhausting(r, f, window), r, window, way, window)
            == if way.ViaRedis? then r else f
  {
    var end := 2 * window + 1;
    hide Admitted, After, Repeated, Step;
    NothingAdmitted(Both(r, end, f, end), r, window, way, window);
    BurstThen(Both(r, end, f, window), ViaMemory, window + 1, f, [], r, window, way, window);
    BurstThen(Both(r, window, f, window), ViaRedis, window + 1, r, Repeated(ViaMemory, window + 1, f) + [],
              r, window, way, window);
  }

  lemma FillingUpAdmits(r: nat, f: nat, window: nat, way: Verdict)
    requires r >= 1 && f == FallbackLimit(r) && window >= 1 && way != Rejected
    ensures Admitted(Both(1, window, 1, window), FillingUp(r, f, window), r, window, way, window)
            == TwoWindows(if way.ViaRedis? then r else f)
  {
    ExhaustingAdmits(r, f, window, way);
    hide Admitted, After, Repeated, Step, Exhausting;
    FillingThen(Both(r, window, 1, window), ViaMemory, 1, window, window, f - 1, Exhausting(r, f, window),
                r, window, way, window);
    FillingThen(Both(1, window, 1, window), ViaRedis, 1, window, window, r - 1,
                Repeated(ViaMemory, window, f - 1) + Exhausting(r, f, window), r, window, way, window);
  }

  lemma TightTraceAdmits(r: nat, f: nat, window: nat, way: Verdict)
    requires r >= 1 && f == FallbackLimit(r) && window >= 1 && way != Rejected
    ensures Admitted(Limiter(Absent, None), TightTrace(r, f, window), r, window, way, window)
            == TwoWindows(if way.ViaRedis? then r else f)
  {
    FillingUpAdmits(r, f, window, way);
    hide Admitted, After, Repeated, Step, FillingUp;
    BurstThen(Limiter(Counter(1, Some(window)), None), ViaMemory, 0, 1, FillingUp(r, f, window),
              r, window, way, window);
    BurstThen(Limiter(Absent, None), ViaRedis, 0, 1, Repeated(ViaMemory, 0, 1) + FillingUp(r, f, window),
              r, window, way, window);
  }

  /** The fallback alone, for a limit that lets nothing through Redis. */
  lemma MemoryAloneAdmits(maxRequests: int, window: nat) returns (trace: seq<Request>)
    requires maxRequests <= 0 && window >= 1
    ensures ClockedFrom(0, trace)
    ensures Admitted(Limiter(Absent, None), trace, maxRequests, window, ViaMemory, window) == TwoWindows(1)
  {
    var l0, l1 := Limiter(Absent, None), Limiter(Absent, Some(Entry(1, window)));
    var t2 := Repeated(ViaMemory, window + 1, 1) + [];
    trace := Repeated(ViaMemory, 0, 1) + t2;
    NothingClocked(window + 1);
    RepeatedClocked(ViaMemory, 0, window + 1, 1, []);
    RepeatedClocked(ViaMemory, 0, 0, 1, t2);
    hide Admitted, After, Repeated, Step;
    BurstThen(l0, ViaMemory, 0, 1, t2, maxRequests, window, ViaMemory, window);
    BurstThen(l1, ViaMemory, window + 1, 1, [], maxRequests, window, ViaMemory, window);
    NothingAdmitted(Limiter(Absent, Some(Entry(1, 2 * window + 1))), maxRequests, window, ViaMemory, window);
  }

  /** The bounds are tight, for every window and limit, both at once: one trace has one less than twice
      its limit admitted either way within one window length. */
  lemma TwiceTheLimitLessOneIsReached(maxRequests: int, window: nat) returns (trace: seq<Request>)
    requires window >= 1
    ensures ClockedFrom(0, trace)
    ensures var start := Limiter(Absent, None);
            && Admitted(start, trace, maxRequests, window, ViaRedis, window)
               == (if maxRequests >= 1 then 2 * maxRequests - 1 else 0)
            && Admitted(start, trace, maxRequests, window, ViaMemory, window)
               == if maxRequests >= 2 then 2 * (maxRequests / 2) - 1 else 1
  {
    hide Admitted, Repeated;
    if maxRequests >= 1 {
      trace := TightTrace(maxRequests, FallbackLimit(maxRequests), window);
      TightTraceClocked(maxRequests, FallbackLimit(maxRequests), window);
      TightTraceAdmits(maxRequests, FallbackLimit(maxRequests), window, ViaRedis);
      TightTraceAdmits(maxRequests, FallbackLimit(maxRequests), window, ViaMemory);
    } else {
      trace := MemoryAloneAdmits(maxRequests, window);
      FewerThanTwiceTheLimit(trace, 0, maxRequests, window, window);
    }
  }
}
