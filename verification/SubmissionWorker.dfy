/** The worker side: retry a job with back-off, then acknowledge it or dead-letter it. */
module SubmissionWorker {
  import opened Wrappers
  import opened SubmissionProtocol
  import opened SubmissionJobTrace
  import opened SubmissionQueue

  /** Everything one call of processWithRetry leaves to others: the processor's answers, the
      context, the random jitter, Redis' replies and the clock. */
  datatype World = World(
    accepts: seq<bool>, cancelled: seq<bool>, jitter: seq<int>,
    ack: Reply, mark: Reply, markedAt: int, deadLetter: Reply, close: Reply)

  /** rand.Int63n keeps each jitter below a fifth of its back-off. */
  predicate Possible(world: World) {
    && |world.accepts| == MAX_RETRIES && |world.cancelled| == |world.jitter| == MAX_RETRIES - 1
    && forall k | 0 <= k < MAX_RETRIES - 1 :: 0 <= world.jitter[k] < BackoffBase(k + 1) / 5
  }

  function AckScript(world: World): seq<Event> {
    [Dispatched(true), Acked(world.ack)] + if world.ack.Done? then [Marked(world.mark, world.markedAt)] else []
  }

  function NackScript(world: World): seq<Event> {
    [DeadLettered(world.deadLetter)] + if world.deadLetter.Done? then [NackAcked(world.close)] else []
  }

  /** What the code does from the given attempt on. */
  function Script(job: Job, world: World, attempt: nat): seq<Event>
    requires Possible(world) && 1 <= attempt <= MAX_RETRIES
    decreases MAX_RETRIES - attempt
  {
    if KnownKind(job.kind) && world.accepts[attempt - 1] then
      AckScript(world)
    else if attempt == MAX_RETRIES then [Dispatched(false)] + NackScript(world)
    else
      [Dispatched(false), Waited(BackoffBase(attempt) + world.jitter[attempt - 1], world.cancelled[attempt - 1])]
      + if world.cancelled[attempt - 1] then NackScript(world) else Script(job, world, attempt + 1)
  }

  lemma {:induction false} RunJobAppend(r: Redis, id: nat, job: Job, phase: Phase, a: seq<Event>, b: seq<Event>)
    requires RunJob(r, id, job, phase, a).Some?
    ensures var (r', next) := RunJob(r, id, job, phase, a).value;
            RunJob(r, id, job, phase, a + b) == RunJob(r', id, job, next, b)
    decreases |a|
  {
    if a == [] {
      assert a + b == b;
    } else {
      var (r', next) := JobStep(r, id, job, phase, a[0]).value;
      RunJobAppend(r', id, job, next, a[1..], b);
      assert (a + b)[1..] == a[1..] + b;
    }
  }

  class Worker {
    const queue: Queue
    const workerCount: int

    /** A pool size of zero or less means ten. */
    constructor (queue: Queue, workerCount: int)
      ensures this.queue == queue && this.workerCount == if workerCount <= 0 then 10 else workerCount
    {
      this.queue := queue;
      this.workerCount := if workerCount <= 0 then 10 else workerCount;
    }

    /** Routes a job by its type; `accepts` is the answer of the processor method it routes to. */
    method Dispatch(job: Job, accepts: bool) returns (ok: bool)
      ensures ok <==> accepts && (job.kind == "bracket" || job.kind == "br_lobby" || job.kind == "group")
    {
      match job.kind
      case "bracket" => ok := accepts;
      case "br_lobby" => ok := accepts;
      case "group" => ok := accepts;
      case _ => ok := false;
    }

    /** The trace is one the protocol allows, ends the job, leaves Redis as the protocol says, and
        is exactly the code's reaction to the world. */
    method ProcessWithRetry(id: nat, job: Job, world: World) returns (trace: seq<Event>)
      requires queue.Valid() && Possible(world)
      modifies queue
      ensures queue.Valid()
      ensures trace == Script(job, world, 1)
      ensures RunJob(old(queue.View()), id, job, Dispatching(1), trace) == Some((queue.View(), Finished))
    {
      hide RunJob, Script;
      ghost var start := queue.View();
      trace := [];
      Begins(start, id, job, world);
      var attempt := 1;
      while attempt <= MAX_RETRIES
        invariant 1 <= attempt <= MAX_RETRIES + 1
        invariant queue.View() == start
        invariant AtAttempt(start, id, job, world, trace, attempt)
      {
        var ok := Dispatch(job, world.accepts[attempt - 1]);
        if ok {
          AckEnds(start, id, job, world, trace, attempt);
          trace := trace + [Dispatched(true), Acked(world.ack)];
          var acked := queue.Ack(id, world.ack);
          if acked {
            queue.MarkProcessed(id, world.markedAt, world.mark);
            trace := trace + [Marked(world.mark, world.markedAt)];
          }
          return;
        }
        if attempt < MAX_RETRIES {
          RetryRuns(start, id, job, world, trace, attempt);
          var wait := BackoffBase(attempt) + world.jitter[attempt - 1];
          trace := trace + [Dispatched(false), Waited(wait, world.cancelled[attempt - 1])];
          if world.cancelled[attempt - 1] {
            NackEnds(start, id, job, Shutdown, world, trace);
            var closed := queue.Nack(id, job, Shutdown, world.deadLetter, world.close);
            trace := trace + NackScript(world);
            return;
          }
        } else {
          LastFails(start, id, job, world, trace);
          trace := trace + [Dispatched(false)];
        }
        attempt := attempt + 1;
      }
      NackEnds(start, id, job, Exhausted, world, trace);
      var closed := queue.Nack(id, job, Exhausted, world.deadLetter, world.close);
      trace := trace + NackScript(world);
    }
  }

  // ---------------------------------------------------------------- one turn of runWorker

  /** Clock readings never go back: the looks first, then one MarkProcessed per job. */
  predicate ClockFrom(now: int, looks: seq<Look>, worlds: seq<World>) {
    && LooksFrom(now, looks)
    && (forall k | 0 <= k < |worlds| :: now <= worlds[k].markedAt)
    && (forall i, k | 0 <= i < |looks| && 0 <= k < |worlds| :: looks[i].at <= worlds[k].markedAt)
    && (forall j, k | 0 <= j < k < |worlds| :: worlds[j].markedAt <= worlds[k].markedAt)
  }

  lemma {:induction false} ScriptTimes(job: Job, world: World, attempt: nat, now: int)
    requires Possible(world) && 1 <= attempt <= MAX_RETRIES && now <= world.markedAt
    ensures var trace := Script(job, world, attempt);
            trace != [] && TimesFrom(now, trace) && now <= EndTime(now, trace) <= world.markedAt
    decreases MAX_RETRIES - attempt
  {
    hide TimesFrom, EndTime, NackScript, AckScript, KnownKind, BackoffBase;
    if KnownKind(job.kind) && world.accepts[attempt - 1] {
      AckTimes(world, now);
    } else {
      NackTimes(world, now);
      var last := attempt == MAX_RETRIES || world.cancelled[attempt - 1];
      if !last { ScriptTimes(job, world, attempt + 1, now); }
      var rest := if last then NackScript(world) else Script(job, world, attempt + 1);
      if attempt == MAX_RETRIES {
        Untimed(now, Dispatched(false), rest);
      } else {
        var wait := Waited(BackoffBase(attempt) + world.jitter[attempt - 1], world.cancelled[attempt - 1]);
        Untimed(now, wait, rest);
        Untimed(now, Dispatched(false), [wait] + rest);
        assert Script(job, world, attempt) == [Dispatched(false)] + ([wait] + rest);
      }
    }
  }

  lemma AckTimes(world: World, now: int)
    requires now <= world.markedAt
    ensures var trace := AckScript(world);
            trace != [] && TimesFrom(now, trace) && now <= EndTime(now, trace) <= world.markedAt
  {
    var tail := if world.ack.Done? then [Marked(world.mark, world.markedAt)] else [];
    Untimed(now, Acked(world.ack), tail);
    Untimed(now, Dispatched(true), [Acked(world.ack)] + tail);
    assert AckScript(world) == [Dispatched(true)] + ([Acked(world.ack)] + tail);
    if world.ack.Done? { assert tail[1..] == []; }
  }

  lemma Untimed(now: int, ev: Event, rest: seq<Event>)
    requires !ev.Marked?
    ensures TimesFrom(now, [ev] + rest) == TimesFrom(now, rest)
    ensures EndTime(now, [ev] + rest) == EndTime(now, rest)
  {
    assert ([ev] + rest)[1..] == rest;
  }

  lemma NackTimes(world: World, now: int)
    ensures TimesFrom(now, NackScript(world)) && EndTime(now, NackScript(world)) == now
  {
    var tail := if world.deadLetter.Done? then [NackAcked(world.close)] else [];
    if world.deadLetter.Done? { Untimed(now, NackAcked(world.close), []); assert tail + [] == tail; }
    Untimed(now, DeadLettered(world.deadLetter), tail);
  }

  /** One turn of a worker's loop: read a batch, then handle every job in it. Alone, it is a run of
      the pool that ends with the worker idle again and Redis as the code leaves it. */
  method RunOnce(worker: Worker, read: Reply, looks: seq<Look>, worlds: seq<World>, ghost s: State, ghost w: nat)
    returns (handled: Option<nat>, ghost steps: seq<Step>, ghost t: State)
    requires worker.queue.Valid() && |looks| == |worlds| == BATCH_SIZE
    requires forall k | 0 <= k < |worlds| :: Possible(worlds[k])
    requires s.redis == worker.queue.View() && w < |s.workers| && s.workers[w].Idle? && ClockFrom(s.now, looks, worlds)
    modifies worker.queue
    ensures worker.queue.Valid() && (handled.None? <==> !read.Done?)
    ensures Run(s, steps) == Some(t) && t.redis == worker.queue.View() && t.workers == s.workers
  {
    hide Filtered, Script, RunJob, EndTime, TimesFrom, LooksFrom;
    ghost var todo := Fresh(s.redis, BATCH_SIZE);
    t := ReadStep(s, w, read).value;
    steps := [Read(w, read)];
    RunOne(s, Read(w, read), t);
    var claims := worker.queue.ReadBatch(read, looks);
    if claims.None? {
      return None, steps, t;
    }
    var jobs := claims.value;
    ghost var ds: seq<Delivery>;
    steps, ds, t := BatchBegins(s, w, read, looks, worlds, worker.queue.View(), jobs);
    for k := 0 to |jobs|
      invariant worker.queue.Valid()
      invariant Run(s, steps) == Some(t) && t.redis == worker.queue.View()
      invariant SameJobs(ds, jobs) && |jobs| <= BATCH_SIZE && JobsInStream(t.redis, jobs)
      invariant t.workers == s.workers[w := AfterMessage([], ds[k..])]
      invariant forall j | k <= j < |worlds| :: t.now <= worlds[j].markedAt
    {
      var trace := worker.ProcessWithRetry(jobs[k].id, jobs[k].job, worlds[k]);
      ScriptTimes(jobs[k].job, worlds[k], 1, t.now);
      RunJobStream(t.redis, jobs[k].id, jobs[k].job, Dispatching(1), trace);
      TraceIsARun(t, w, trace, worker.queue.View());
      ghost var u := Run(t, WorkSteps(w, trace)).value;
      RunAppend(s, steps, t, WorkSteps(w, trace), u);
      assert ds[k..][1..] == ds[k + 1..];
      assert u.workers == s.workers[w := AfterMessage([], ds[k + 1..])];
      steps, t := steps + WorkSteps(w, trace), u;
    }
    assert t.workers == s.workers;
    return Some(|jobs|), steps, t;
  }

  predicate JobsInStream(r: Redis, claims: seq<Claim>) {
    forall i | 0 <= i < |claims| :: claims[i].id < |r.stream| && r.stream[claims[i].id] == Decoded(claims[i].job)
  }

  lemma RunJobStream(r: Redis, id: nat, job: Job, phase: Phase, trace: seq<Event>)
    requires RunJob(r, id, job, phase, trace).Some?
    ensures RunJob(r, id, job, phase, trace).value.0.stream == r.stream
    ensures RunJob(r, id, job, phase, trace).value.0.cursor == r.cursor
    decreases |trace|
  {
    if trace != [] {
      var (r', next) := JobStep(r, id, job, phase, trace[0]).value;
      RunJobStream(r', id, job, next, trace[1..]);
    }
  }

  /** Reading and filtering a batch is a run that leaves the worker about to handle its jobs. */
  lemma BatchBegins(s: State, w: nat, read: Reply, looks: seq<Look>, worlds: seq<World>, r: Redis, jobs: seq<Claim>)
    returns (steps: seq<Step>, ds: seq<Delivery>, t: State)
    requires |looks| == |worlds| == BATCH_SIZE && read.Done? && s.redis.cursor <= |s.redis.stream|
    requires w < |s.workers| && s.workers[w].Idle? && ClockFrom(s.now, looks, worlds)
    requires Filtered(XReadGroup(s.redis, BATCH_SIZE, read), Fresh(s.redis, BATCH_SIZE), looks) == (r, jobs)
    ensures Run(s, steps) == Some(t) && t.redis == r
    ensures SameJobs(ds, jobs) && |jobs| <= BATCH_SIZE && JobsInStream(r, jobs)
    ensures t.workers == s.workers[w := AfterMessage([], ds)]
    ensures forall j | 0 <= j < |worlds| :: t.now <= worlds[j].markedAt
  {
    var todo := Fresh(s.redis, BATCH_SIZE);
    t := ReadStep(s, w, read).value;
    steps := [Read(w, read)];
    RunOne(s, Read(w, read), t);
    FilteredJobs(t.redis, todo, looks);
    if todo == [] {
      ds := [];
      assert t.workers == s.workers[w := Idle];
    } else {
      var more, ds', u := FilteringIsARun(t, w, looks, r, jobs);
      RunAppend(s, steps, t, more, u);
      assert [] + ds' == ds';
      assert u.workers == s.workers[w := AfterMessage([], ds')];
      steps, ds, t := steps + more, ds', u;
    }
  }

  // ---------------------------------------------------------------- the pieces of a trace

  /** At the head of the retry loop: Redis untouched, and the rest of the script still to come. */
  ghost predicate AtAttempt(r: Redis, id: nat, job: Job, world: World, trace: seq<Event>, attempt: nat)
    requires Possible(world) && 1 <= attempt <= MAX_RETRIES + 1
  {
    if attempt <= MAX_RETRIES then
      && trace + Script(job, world, attempt) == Script(job, world, 1)
      && RunJob(r, id, job, Dispatching(1), trace) == Some((r, Dispatching(attempt)))
    else AtNack(r, id, job, Exhausted, world, trace)
  }

  ghost predicate AtNack(r: Redis, id: nat, job: Job, reason: Reason, world: World, trace: seq<Event>)
    requires Possible(world)
  {
    && trace + NackScript(world) == Script(job, world, 1)
    && RunJob(r, id, job, Dispatching(1), trace) == Some((r, DeadLettering(reason)))
  }

  lemma Begins(r: Redis, id: nat, job: Job, world: World)
    requires Possible(world)
    ensures AtAttempt(r, id, job, world, [], 1)
  {}

  /** A trace is its first event, then the rest. */
  lemma RunJobCons(r: Redis, id: nat, job: Job, phase: Phase, ev: Event, rest: seq<Event>)
    ensures RunJob(r, id, job, phase, [ev] + rest)
            == match JobStep(r, id, job, phase, ev)
               case None => None
               case Some((r', next)) => RunJob(r', id, job, next, rest)
  {
    assert ([ev] + rest)[1..] == rest;
  }

  lemma RunJobNothing(r: Redis, id: nat, job: Job, phase: Phase)
    ensures RunJob(r, id, job, phase, []) == Some((r, phase))
  {}

  lemma AckRuns(r: Redis, id: nat, job: Job, world: World, attempt: nat)
    requires KnownKind(job.kind)
    ensures var acked := XAck(r, id, world.ack);
            RunJob(r, id, job, Dispatching(attempt), AckScript(world))
            == Some((if world.ack.Done? then SetProcessed(acked, id, world.markedAt, world.mark) else acked, Finished))
  {
    hide RunJob, XAck, SetProcessed, KnownKind;
    var acked := XAck(r, id, world.ack);
    var tail := if world.ack.Done? then [Marked(world.mark, world.markedAt)] else [];
    if world.ack.Done? {
      var done := SetProcessed(acked, id, world.markedAt, world.mark);
      RunJobNothing(done, id, job, Finished);
      RunJobCons(acked, id, job, Marking, Marked(world.mark, world.markedAt), []);
      assert tail + [] == tail;
    } else {
      RunJobNothing(acked, id, job, Finished);
    }
    RunJobCons(r, id, job, Acking, Acked(world.ack), tail);
    assert AckScript(world) == [Dispatched(true)] + ([Acked(world.ack)] + tail);
    RunJobCons(r, id, job, Dispatching(attempt), Dispatched(true), [Acked(world.ack)] + tail);
  }

  lemma AckEnds(r: Redis, id: nat, job: Job, world: World, trace: seq<Event>, attempt: nat)
    requires Possible(world) && 1 <= attempt <= MAX_RETRIES && AtAttempt(r, id, job, world, trace, attempt)
    requires KnownKind(job.kind) && world.accepts[attempt - 1]
    ensures var acked := XAck(r, id, world.ack);
            RunJob(r, id, job, Dispatching(1), Script(job, world, 1))
            == Some((if world.ack.Done? then SetProcessed(acked, id, world.markedAt, world.mark) else acked, Finished))
    ensures var two := trace + [Dispatched(true), Acked(world.ack)];
            Script(job, world, 1) == if world.ack.Done? then two + [Marked(world.mark, world.markedAt)] else two
  {
    hide RunJob, XAck, SetProcessed, KnownKind;
    RunJobAppend(r, id, job, Dispatching(1), trace, AckScript(world));
    AckRuns(r, id, job, world, attempt);
    assert trace + AckScript(world) == Script(job, world, 1);
    var two := [Dispatched(true), Acked(world.ack)];
    if world.ack.Done? {
      assert trace + (two + [Marked(world.mark, world.markedAt)]) == trace + two + [Marked(world.mark, world.markedAt)];
    }
  }

  lemma FailAndWait(r: Redis, id: nat, job: Job, attempt: nat, ns: nat, cancelled: bool)
    requires 1 <= attempt < MAX_RETRIES && BackoffRequested(attempt, ns)
    ensures RunJob(r, id, job, Dispatching(attempt), [Dispatched(false), Waited(ns, cancelled)])
            == Some((r, if cancelled then DeadLettering(Shutdown) else Dispatching(attempt + 1)))
  {
    hide RunJob, BackoffRequested;
    var next := if cancelled then DeadLettering(Shutdown) else Dispatching(attempt + 1);
    RunJobNothing(r, id, job, next);
    RunJobCons(r, id, job, BackingOff(attempt), Waited(ns, cancelled), []);
    RunJobCons(r, id, job, Dispatching(attempt), Dispatched(false), [Waited(ns, cancelled)]);
    assert [Waited(ns, cancelled)] + [] == [Waited(ns, cancelled)];
    assert [Dispatched(false)] + [Waited(ns, cancelled)] == [Dispatched(false), Waited(ns, cancelled)];
  }

  lemma RetryRuns(r: Redis, id: nat, job: Job, world: World, trace: seq<Event>, attempt: nat)
    requires Possible(world) && 1 <= attempt < MAX_RETRIES && AtAttempt(r, id, job, world, trace, attempt)
    requires !(KnownKind(job.kind) && world.accepts[attempt - 1])
    ensures var cancelled := world.cancelled[attempt - 1];
            var wait := BackoffBase(attempt) + world.jitter[attempt - 1];
            var longer := trace + [Dispatched(false), Waited(wait, cancelled)];
            if cancelled then AtNack(r, id, job, Shutdown, world, longer)
            else AtAttempt(r, id, job, world, longer, attempt + 1)
  {
    var ns, cancelled := BackoffBase(attempt) + world.jitter[attempt - 1], world.cancelled[attempt - 1];
    var two := [Dispatched(false), Waited(ns, cancelled)];
    hide RunJob, NackScript, Script;
    RunJobAppend(r, id, job, Dispatching(1), trace, two);
    FailAndWait(r, id, job, attempt, ns, cancelled);
    ScriptRetries(job, world, attempt);
    Regroup(trace, two, if cancelled then NackScript(world) else Script(job, world, attempt + 1));
  }

  lemma ScriptRetries(job: Job, world: World, attempt: nat)
    requires Possible(world) && 1 <= attempt < MAX_RETRIES && !(KnownKind(job.kind) && world.accepts[attempt - 1])
    ensures var wait := BackoffBase(attempt) + world.jitter[attempt - 1];
            Script(job, world, attempt)
            == [Dispatched(false), Waited(wait, world.cancelled[attempt - 1])]
               + if world.cancelled[attempt - 1] then NackScript(world) else Script(job, world, attempt + 1)
  {
    hide NackScript, AckScript, KnownKind, BackoffBase;
  }

  lemma Regroup(a: seq<Event>, b: seq<Event>, c: seq<Event>)
    ensures a + (b + c) == (a + b) + c
  {}

  lemma LastFails(r: Redis, id: nat, job: Job, world: World, trace: seq<Event>)
    requires Possible(world) && AtAttempt(r, id, job, world, trace, MAX_RETRIES)
    requires !(KnownKind(job.kind) && world.accepts[MAX_RETRIES - 1])
    ensures AtNack(r, id, job, Exhausted, world, trace + [Dispatched(false)])
  {
    hide RunJob, NackScript, AckScript, KnownKind;
    var one := [Dispatched(false)];
    RunJobAppend(r, id, job, Dispatching(1), trace, one);
    RunJobNothing(r, id, job, DeadLettering(Exhausted));
    RunJobCons(r, id, job, Dispatching(MAX_RETRIES), Dispatched(false), []);
    assert one + [] == one;
    assert trace + (one + NackScript(world)) == (trace + one) + NackScript(world);
  }

  lemma NackEnds(r: Redis, id: nat, job: Job, reason: Reason, world: World, trace: seq<Event>)
    requires Possible(world) && AtNack(r, id, job, reason, world, trace)
    ensures var added := XAddDeadLetter(r, DeadLetter(id, job, reason), world.deadLetter);
            RunJob(r, id, job, Dispatching(1), Script(job, world, 1))
            == Some((if world.deadLetter.Done? then XAck(added, id, world.close) else added, Finished))
  {
    hide RunJob, Script, XAck, XAddDeadLetter;
    var added := XAddDeadLetter(r, DeadLetter(id, job, reason), world.deadLetter);
    RunJobAppend(r, id, job, Dispatching(1), trace, NackScript(world));
    var tail := if world.deadLetter.Done? then [NackAcked(world.close)] else [];
    RunJobCons(r, id, job, DeadLettering(reason), DeadLettered(world.deadLetter), tail);
    RunJobCons(added, id, job, ClosingNack, NackAcked(world.close), []);
    assert [NackAcked(world.close)] + [] == [NackAcked(world.close)];
    RunJobNothing(XAck(added, id, world.close), id, job, Finished);
    RunJobNothing(added, id, job, Finished);
  }
}
