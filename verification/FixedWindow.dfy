/** The fixed-window request counters: a Redis key, an in-memory bucket, and what both compute. */
module FixedWindow {
  import opened Wrappers

  // ---------------------------------------------------------------- the in-memory store

  datatype Entry = Entry(count: nat, expiry: int)

  /** One increment of a bucket: opened on first use, reset once its expiry has passed. */
  function Incr(b: Option<Entry>, at: int, window: int): Entry {
    if b.None? || at > b.value.expiry then Entry(1, at + window) else Entry(b.value.count + 1, b.value.expiry)
  }

  /** A hit counts on while the window lasts, its end included, and opens a new one after that. */
  lemma HitMeans(store: map<string, Entry>, key: string, at: int, window: int)
    ensures var current := key in store && at <= store[key].expiry;
            Apply(store, Hit(key, at), window)
            == store[key := if current then Entry(store[key].count + 1, store[key].expiry) else Entry(1, at + window)]
  {}

  function Lookup(store: map<string, Entry>, key: string): Option<Entry> {
    if key in store then Some(store[key]) else None
  }

  /** Hit counts a request; Sweep is the cleanup ticker visiting one key, check and delete in one; Delete
      is its second half alone, long after a check. */
  datatype Op = Hit(key: string, at: int) | Sweep(key: string, at: int) | Delete(key: string, at: int)

  function Apply(store: map<string, Entry>, op: Op, window: int): map<string, Entry> {
    match op
    case Hit(key, at) => store[key := Incr(Lookup(store, key), at, window)]
    case Sweep(key, at) => if key in store && at > store[key].expiry then store - {key} else store
    case Delete(key, at) => store - {key}
  }

  function ApplyAll(ops: seq<Op>, window: int): map<string, Entry> {
    if ops == [] then map[] else Apply(ApplyAll(ops[..|ops| - 1], window), ops[|ops| - 1], window)
  }

  /** The count a request gets from the store the operations before it left behind. */
  function CountFor(ops: seq<Op>, key: string, at: int, window: int): nat {
    Incr(Lookup(ApplyAll(ops, window), key), at, window).count
  }

  // ---------------------------------------------------------------- the pure counter

  /** The request that opened the window request i falls into: windows open one after another, each
      at the first request after the previous one ended. */
  function Opener(times: seq<int>, window: int, i: nat): (o: nat)
    requires i < |times|
    ensures o <= i
  {
    if i == 0 then 0
    else
      var o := Opener(times, window, i - 1);
      if times[i] > times[o] + window then i else o
  }

  /** The number of requests from the opener up to and including request i. */
  function PureCount(times: seq<int>, window: int, i: nat): nat
    requires i < |times|
  {
    i - Opener(times, window, i) + 1
  }

  function Hits(ops: seq<Op>, key: string): seq<int> {
    if ops == [] then []
    else
      var op := ops[|ops| - 1];
      Hits(ops[..|ops| - 1], key) + if op.Hit? && op.key == key then [op.at] else []
  }

  predicate NoneDeleted(ops: seq<Op>) { forall i | 0 <= i < |ops| :: !ops[i].Delete? }

  predicate Clocked(ops: seq<Op>) { forall i, j | 0 <= i < j < |ops| :: ops[i].at <= ops[j].at }

  function Unswept(ops: seq<Op>): seq<Op> {
    if ops == [] then []
    else Unswept(ops[..|ops| - 1]) + if ops[|ops| - 1].Sweep? then [] else [ops[|ops| - 1]]
  }

  // ---------------------------------------------------------------- the store refines it

  lemma {:induction false} OpenerOfPrefix(times: seq<int>, t: int, window: int, i: nat)
    requires i < |times|
    ensures Opener(times + [t], window, i) == Opener(times, window, i)
  {
    if i > 0 { OpenerOfPrefix(times, t, window, i - 1); }
  }

  lemma OpenerOfNext(times: seq<int>, t: int, window: int)
    requires times != []
    ensures var o := Opener(times, window, |times| - 1);
            Opener(times + [t], window, |times|) == if t > times[o] + window then |times| else o
  {
    OpenerOfPrefix(times, t, window, |times| - 1);
  }

  /** Either the bucket of the last request's window is there, or it was swept after it ended. */
  predicate Tracks(times: seq<int>, b: Option<Entry>, now: int, window: int) {
    if times == [] then b.None?
    else
      var last := |times| - 1; var o := Opener(times, window, last);
      if b.Some? then b.value == Entry(last - o + 1, times[o] + window) else now > times[o] + window
  }

  lemma HitTracks(times: seq<int>, b: Option<Entry>, now: int, at: int, window: int)
    requires Tracks(times, b, now, window) && window >= 0 && (times != [] ==> now <= at)
    ensures Tracks(times + [at], Some(Incr(b, at, window)), at, window)
    ensures Incr(b, at, window).count == PureCount(times + [at], window, |times|)
  {
    if times != [] { OpenerOfNext(times, at, window); }
  }

  function LastTime(ops: seq<Op>): int { if ops == [] then 0 else ops[|ops| - 1].at }

  lemma {:induction false} StoreTracksWindow(ops: seq<Op>, key: string, window: int)
    requires Clocked(ops) && NoneDeleted(ops) && window >= 0
    ensures Tracks(Hits(ops, key), Lookup(ApplyAll(ops, window), key), LastTime(ops), window)
  {
    if ops != [] {
      var op, init := ops[|ops| - 1], ops[..|ops| - 1];
      StoreTracksWindow(init, key, window);
      if init != [] { assert init[|init| - 1].at <= op.at; }
      if op.Hit? && op.key == key {
        HitTracks(Hits(init, key), Lookup(ApplyAll(init, window), key), LastTime(init), op.at, window);
      } else {
        assert Hits(ops, key) == Hits(init, key);
      }
    }
  }

  lemma ClockedInit(ops: seq<Op>, op: Op)
    requires Clocked(ops + [op])
    ensures Clocked(ops) && forall i | 0 <= i < |ops| :: ops[i].at <= op.at
  {
    var all := ops + [op];
    forall i, j | 0 <= i < j < |ops| ensures ops[i].at <= ops[j].at { assert all[i].at <= all[j].at; }
    forall i | 0 <= i < |ops| ensures ops[i].at <= op.at { assert all[i].at <= all[|ops|].at; }
  }

  /** Every count a request gets is the pure fixed-window count, no matter which expired entries were
      swept when. */
  lemma StoreCountsWindows(ops: seq<Op>, key: string, at: int, window: int)
    requires Clocked(ops + [Hit(key, at)]) && NoneDeleted(ops) && window >= 0
    ensures var times := Hits(ops, key) + [at];
            CountFor(ops, key, at, window) == PureCount(times, window, |times| - 1)
  {
    ClockedInit(ops, Hit(key, at));
    StoreTracksWindow(ops, key, window);
    HitTracks(Hits(ops, key), Lookup(ApplyAll(ops, window), key), LastTime(ops), at, window);
  }

  // ---------------------------------------------------------------- cleanup, whole and in halves

  /** What the swept and the unswept store know of a key. */
  predicate Agree(swept: Option<Entry>, unswept: Option<Entry>, now: int) {
    swept == unswept || (swept.None? && unswept.Some? && now > unswept.value.expiry)
  }

  lemma {:induction false} SweptAgrees(ops: seq<Op>, key: string, window: int)
    requires Clocked(ops)
    ensures Agree(Lookup(ApplyAll(ops, window), key), Lookup(ApplyAll(Unswept(ops), window), key), LastTime(ops))
  {
    hide Apply, Lookup, Agree;
    if ops != [] {
      var op, init := ops[|ops| - 1], ops[..|ops| - 1];
      SweptAgrees(init, key, window);
      if init != [] { assert init[|init| - 1].at <= op.at; }
      AgreeStep(ApplyAll(init, window), ApplyAll(Unswept(init), window), key, op, LastTime(init), window);
      ApplyNext(init, op, window);
      assert init + [op] == ops;
      if op.Sweep? {
        assert Unswept(ops) == Unswept(init);
      } else {
        ApplyNext(Unswept(init), op, window);
      }
    } else {
      AgreeSame(Lookup(map[], key), 0);
    }
  }

  lemma AgreeStep(swept: map<string, Entry>, unswept: map<string, Entry>, key: string, op: Op, now: int, window: int)
    requires Agree(Lookup(swept, key), Lookup(unswept, key), now)
    requires now <= op.at || (swept == map[] && unswept == map[])
    ensures var unswept' := if op.Sweep? then unswept else Apply(unswept, op, window);
            Agree(Lookup(Apply(swept, op, window), key), Lookup(unswept', key), op.at)
  {}

  /** Cleanup is unobservable: a store that is never swept returns the same count for every request. */
  lemma SweepingIsUnobservable(ops: seq<Op>, key: string, at: int, window: int)
    requires Clocked(ops + [Hit(key, at)])
    ensures CountFor(ops, key, at, window) == CountFor(Unswept(ops), key, at, window)
  {
    ClockedInit(ops, Hit(key, at));
    SweptAgrees(ops, key, window);
  }

  lemma {:induction false} Counted(ops: seq<Op>, key: string, window: int)
    ensures Lookup(ApplyAll(ops, window), key).Some? ==> Lookup(ApplyAll(ops, window), key).value.count >= 1
  {
    if ops != [] { Counted(ops[..|ops| - 1], key, window); }
  }

  lemma ApplyNext(ops: seq<Op>, op: Op, window: int)
    ensures ApplyAll(ops + [op], window) == Apply(ApplyAll(ops, window), op, window)
  {
    assert (ops + [op])[..|ops|] == ops;
  }

  lemma AgreeSame(b: Option<Entry>, now: int)
    ensures Agree(b, b, now)
  {}

  lemma DeleteIs(store: map<string, Entry>, key: string, d: int, window: int)
    ensures Apply(store, Delete(key, d), window) == store - {key}
  {}

  /** The next operations, up to the key's next hit, do not touch the key's bucket but by sweeping it. */
  predicate Leaves(ops: seq<Op>, key: string) { forall i | 0 <= i < |ops| && ops[i].key == key :: ops[i].Sweep? }

  /** Until the next hit the two stores differ in that bucket only, and sweeps take it once expired. */
  lemma {:induction false} DeletedApart(before: seq<Op>, key: string, d: int, between: seq<Op>, at: int, window: int)
    requires Clocked(between) && Leaves(between, key) && forall i | 0 <= i < |between| :: between[i].at <= at
    ensures var kept := ApplyAll(before + between, window);
            var deleted := ApplyAll(before + [Delete(key, d)] + between, window);
            var b := Lookup(ApplyAll(before, window), key);
            deleted == kept - {key} && Agree(Lookup(kept, key), b, at)
    decreases |between|
  {
    hide ApplyAll, Apply, Lookup, Agree;
    if between == [] {
      AgreeSame(Lookup(ApplyAll(before, window), key), at);
      DeleteIs(ApplyAll(before, window), key, d, window);
      assert before + between == before && before + [Delete(key, d)] + between == before + [Delete(key, d)];
      ApplyNext(before, Delete(key, d), window);
    } else {
      var op, init := between[|between| - 1], between[..|between| - 1];
      DeletedApart(before, key, d, init, at, window);
      assert before + between == before + init + [op];
      assert before + [Delete(key, d)] + between == before + [Delete(key, d)] + init + [op];
      ApplyNext(before + init, op, window);
      ApplyNext(before + [Delete(key, d)] + init, op, window);
      assert between[|between| - 1].key == op.key;
      DeletedStep(ApplyAll(before + init, window), Lookup(ApplyAll(before, window), key), key, op, at, window);
    }
  }

  lemma DeletedStep(kept: map<string, Entry>, b: Option<Entry>, key: string, op: Op, at: int, window: int)
    requires Agree(Lookup(kept, key), b, at) && op.at <= at && (op.key == key ==> op.Sweep?)
    ensures Apply(kept - {key}, op, window) == Apply(kept, op, window) - {key}
    ensures Agree(Lookup(Apply(kept, op, window), key), b, at)
  {}

  lemma HitAfter(kept: map<string, Entry>, b: Option<Entry>, key: string, at: int, window: int)
    requires Agree(Lookup(kept, key), b, at) && (b.Some? ==> b.value.count >= 1)
    ensures var shows := b.Some? && at <= b.value.expiry;
            var count := Incr(Lookup(kept, key), at, window).count;
            && (count != Incr(Lookup(kept - {key}, key), at, window).count <==> shows)
            && (!shows ==> Apply(kept, Hit(key, at), window) == Apply(kept - {key}, Hit(key, at), window))
  {}

  lemma {:induction false} SameFromHere(a: seq<Op>, b: seq<Op>, rest: seq<Op>, window: int)
    requires ApplyAll(a, window) == ApplyAll(b, window)
    ensures ApplyAll(a + rest, window) == ApplyAll(b + rest, window)
    decreases |rest|
  {
    hide ApplyAll, Apply;
    if rest == [] {
      assert a + rest == a && b + rest == b;
    } else {
      var op, init := rest[|rest| - 1], rest[..|rest| - 1];
      SameFromHere(a, b, init, window);
      assert a + rest == a + init + [op] && b + rest == b + init + [op];
      ApplyNext(a + init, op, window);
      ApplyNext(b + init, op, window);
    }
  }

  /** When a deletion shows, for all traces: it changes the count of the key's next hit if and only if
      the deleted bucket is still unexpired then, and if it does not, no later count of any key
      changes either. */
  lemma {:induction false} DeletionShowsIff(before: seq<Op>, key: string, d: int, between: seq<Op>, at: int,
                                            window: int, rest: seq<Op>, other: string, later: int)
    requires Clocked(between) && Leaves(between, key) && forall i | 0 <= i < |between| :: between[i].at <= at
    ensures var kept, deleted := before + between, before + [Delete(key, d)] + between;
            var b := Lookup(ApplyAll(before, window), key);
            var shows := b.Some? && at <= b.value.expiry;
            && (CountFor(kept, key, at, window) != CountFor(deleted, key, at, window) <==> shows)
            && (!shows ==> CountFor(kept + [Hit(key, at)] + rest, other, later, window)
                           == CountFor(deleted + [Hit(key, at)] + rest, other, later, window))
  {
    hide ApplyAll, Apply, Lookup, Agree, Incr;
    var kept, deleted := before + between, before + [Delete(key, d)] + between;
    DeletedApart(before, key, d, between, at, window);
    Counted(before, key, window);
    ApplyNext(kept, Hit(key, at), window);
    ApplyNext(deleted, Hit(key, at), window);
    var b := Lookup(ApplyAll(before, window), key);
    HitAfter(ApplyAll(kept, window), b, key, at, window);
    if !(b.Some? && at <= b.value.expiry) {
      SameFromHere(kept + [Hit(key, at)], deleted + [Hit(key, at)], rest, window);
    }
  }

  /** So check and delete must not come apart: if a request reopens the window after the cleanup found
      it expired, the deletion forgets that request, for every window and opening time. */
  lemma SplitSweepLosesARequest(key: string, start: int, window: nat)
    ensures var first, again := [Hit(key, start)], start + window + 1;
            && again > ApplyAll(first, window)[key].expiry
            && CountFor(first + [Hit(key, again)], key, again, window) == 2
            && CountFor(first + [Hit(key, again)] + [Delete(key, again)], key, again, window) == 1
  {
    var first, again := [Hit(key, start)], start + window + 1;
    FirstHit(key, start, window);
    hide ApplyAll;
    ApplyNext(first, Hit(key, again), window);
    var reopened := ApplyAll(first + [Hit(key, again)], window);
    assert Lookup(reopened, key) == Some(Entry(1, again + window));
    ApplyNext(first + [Hit(key, again)], Delete(key, again), window);
    assert Lookup(reopened - {key}, key) == None;
  }

  lemma FirstHit(key: string, start: int, window: int)
    ensures Lookup(ApplyAll([Hit(key, start)], window), key) == Some(Entry(1, start + window))
  {
    assert [Hit(key, start)][..0] == [];
  }
}
