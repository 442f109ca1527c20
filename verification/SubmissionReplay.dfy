/** What the queue does not promise: duplicates that get through, and jobs nobody picks up again. */
module SubmissionReplay {
  import opened Wrappers
  import opened SubmissionProtocol

  // ---------------------------------------------------------------- stranded jobs

  predicate InHands(worker: Worker, id: nat) {
    match worker
    case Idle => false
    case Filtering(todo, kept, _) => id in todo || exists i | 0 <= i < |kept| :: kept[i].id == id
    case Working(jobs, _) => exists i | 0 <= i < |jobs| :: jobs[i].id == id
  }

  /** Delivered, still pending, and held by no worker. */
  predicate Stranded(s: State, id: nat) {
    && s.redis.cursor <= |s.redis.stream| && id < s.redis.cursor && id in s.redis.pending
    && forall w | 0 <= w < |s.workers| :: !InHands(s.workers[w], id)
  }

  /** Nothing new happens to the job: no further success, no further dead letter. */
  predicate Untouched(s: State, t: State, id: nat) {
    && (id in t.succeeded <==> id in s.succeeded)
    && s.redis.dlq <= t.redis.dlq
    && forall k | |s.redis.dlq| <= k < |t.redis.dlq| :: t.redis.dlq[k].originalId != id
  }

  lemma StrandedStep(s: State, step: Step, t: State, id: nat)
    requires Stranded(s, id) && !Environment(step) && Next(s, step) == Some(t)
    ensures Stranded(t, id) && Untouched(s, t, id)
  {
    hide KeyLive, WellFormed, BackoffRequested, KnownKind;
    if step.Read? || step.Check? || step.Reject? || step.Work? {
      var was, became := s.workers[step.w], t.workers[step.w];
      assert !InHands(was, id);
      if step.Check? {
        var Filtering(todo, kept, _) := was;
        assert !InHands(AfterMessage(todo[1..], kept), id);
        var d := Delivery(todo[0], step.answered, step.at, |s.marks|);
        assert !InHands(AfterMessage(todo[1..], kept + [d]), id);
      }
      if step.Work? {
        assert !InHands(Working(was.jobs[1..], Dispatching(1)), id);
      }
      assert !InHands(became, id);
    }
  }

  /** Workers read only undelivered entries, so a pending job whose worker is gone stays pending and
      is never processed again: it takes an operator replaying the group. */
  lemma {:induction false} StrandedForever(s: State, steps: seq<Step>, t: State, id: nat)
    requires Stranded(s, id) && Run(s, steps) == Some(t)
    requires forall i | 0 <= i < |steps| :: !Environment(steps[i])
    ensures Stranded(t, id) && Untouched(s, t, id)
    decreases |steps|
  {
    if steps != [] {
      var u := Next(s, steps[0]).value;
      StrandedStep(s, steps[0], u, id);
      StrandedForever(u, steps[1..], t, id);
    }
  }

  /** Whether worker w holds the entry and nobody else does. */
  predicate OnlyHolder(s: State, w: nat, id: nat) {
    && w < |s.workers| && InHands(s.workers[w], id)
    && forall v | 0 <= v < |s.workers| && v != w :: !InHands(s.workers[v], id)
  }

  /** The last effect of a job that leaves its entry pending: a refused ack, a dedup key, a dead letter
      that is not known to be written, or a refused ack after a dead letter. */
  predicate EndsPending(ev: Event) {
    match ev
    case Acked(reply) => reply.Refused?
    case Marked(_, _) => true
    case DeadLettered(reply) => !reply.Done?
    case NackAcked(reply) => reply.Refused?
    case _ => false
  }

  /** Whether the entry is met once only in what the worker holds, at the front. */
  predicate LastCopy(worker: Worker, id: nat) {
    match worker
    case Idle => false
    case Filtering(todo, kept, _) =>
      todo != [] && todo[0] == id && id !in todo[1..] && forall i | 0 <= i < |kept| :: kept[i].id != id
    case Working(jobs, _) => jobs != [] && jobs[0].id == id && forall i | 1 <= i < |jobs| :: jobs[i].id != id
  }

  /** What strands an entry: its only holder crashes, skips it because it does not decode, fails to
      acknowledge it, or ends its job without; or a batch is delivered and the reply lost. */
  predicate Strands(s: State, step: Step, id: nat)
    requires s.redis.cursor <= |s.redis.stream|
  {
    match step
    case Crash(w) => OnlyHolder(s, w, id) && id < s.redis.cursor && id in s.redis.pending
    case Read(w, reply) =>
      reply.Lost? && id in Fresh(s.redis, BATCH_SIZE) && forall v | 0 <= v < |s.workers| :: !InHands(s.workers[v], id)
    case Check(w, _, _) =>
      && OnlyHolder(s, w, id) && LastCopy(s.workers[w], id) && id < s.redis.cursor && id in s.redis.pending
      && id < |s.redis.stream| && !s.redis.stream[id].Decoded?
    case Reject(w, reply) =>
      && OnlyHolder(s, w, id) && LastCopy(s.workers[w], id) && id < s.redis.cursor && id in s.redis.pending
      && reply.Refused?
    case Work(w, ev) =>
      && OnlyHolder(s, w, id) && LastCopy(s.workers[w], id) && id < s.redis.cursor && id in s.redis.pending
      && EndsPending(ev)
    case _ => false
  }

  /** One worker moves and nothing is delivered: only what it lets go of can be stranded. */
  lemma LetGo(s: State, t: State, w: nat, id: nat)
    requires s.redis.cursor <= |s.redis.stream| && !Stranded(s, id) && w < |s.workers| == |t.workers|
    requires forall v | 0 <= v < |s.workers| && v != w :: t.workers[v] == s.workers[v]
    requires t.redis.stream == s.redis.stream && t.redis.cursor == s.redis.cursor && t.redis.pending <= s.redis.pending
    ensures Stranded(t, id) <==>
              OnlyHolder(s, w, id) && !InHands(t.workers[w], id) && id < t.redis.cursor && id in t.redis.pending
  {
    hide InHands;
  }

  lemma ReadStrands(s: State, w: nat, reply: Reply, t: State, id: nat)
    requires s.redis.cursor <= |s.redis.stream| && !Stranded(s, id) && ReadStep(s, w, reply) == Some(t)
    ensures Stranded(t, id) <==> Strands(s, Read(w, reply), id)
  {
    var ids := Fresh(s.redis, BATCH_SIZE);
    assert id in ids <==> s.redis.cursor <= id < s.redis.cursor + |ids| by {
      if s.redis.cursor <= id < s.redis.cursor + |ids| { assert ids[id - s.redis.cursor] == id; }
    }
    if reply.Done? && Stranded(t, id) {
      assert !InHands(t.workers[w], id);
      forall v | 0 <= v < |s.workers| ensures !InHands(s.workers[v], id) {
        if v != w { assert t.workers[v] == s.workers[v]; }
      }
    }
  }

  lemma WorkStrands(s: State, w: nat, ev: Event, t: State, id: nat)
    requires s.redis.cursor <= |s.redis.stream| && !Stranded(s, id) && WorkStep(s, w, ev) == Some(t)
    ensures Stranded(t, id) <==> Strands(s, Work(w, ev), id)
  {
    hide InHands, BackoffRequested;
    LetGo(s, t, w, id);
    if InHands(s.workers[w], id) { WorkLetsGo(s, w, ev, t, id); }
  }

  lemma WorkLetsGo(s: State, w: nat, ev: Event, t: State, id: nat)
    requires WorkStep(s, w, ev) == Some(t) && InHands(s.workers[w], id)
    ensures !InHands(t.workers[w], id) && id in t.redis.pending <==>
              LastCopy(s.workers[w], id) && EndsPending(ev) && id in s.redis.pending
  {
    hide BackoffRequested;
    var jobs := s.workers[w].jobs;
    forall i | 1 <= i < |jobs| ensures jobs[i] == jobs[1..][i - 1] {}
    assert InHands(Working(jobs[1..], Dispatching(1)), id) <==> exists i | 1 <= i < |jobs| :: jobs[i].id == id;
  }

  lemma FilterLetsGo(s: State, w: nat, step: Step, t: State, id: nat)
    requires s.redis.cursor <= |s.redis.stream| && Next(s, step) == Some(t) && (step.Check? || step.Reject?)
    requires step.w == w && InHands(s.workers[w], id)
    ensures !InHands(t.workers[w], id) && id in t.redis.pending <==>
              && LastCopy(s.workers[w], id) && id in s.redis.pending
              && if step.Check? then id < |s.redis.stream| && !s.redis.stream[id].Decoded? else step.reply.Refused?
  {
    var Filtering(todo, kept, _) := s.workers[w];
    assert todo == [todo[0]] + todo[1..];
    assert InHands(AfterMessage(todo[1..], kept), id) <==>
             id in todo[1..] || exists i | 0 <= i < |kept| :: kept[i].id == id;
    if step.Check? {
      var more := kept + [Delivery(todo[0], step.answered, step.at, |s.marks|)];
      assert more[|kept|].id == todo[0] && forall i | 0 <= i < |kept| :: more[i] == kept[i];
      assert InHands(AfterMessage(todo[1..], more), id);
    }
  }

  /** The exact condition, for every kind of step: these and no others strand an entry. */
  lemma StrandsIff(s: State, step: Step, t: State, id: nat)
    requires s.redis.cursor <= |s.redis.stream| && Next(s, step) == Some(t) && !Stranded(s, id)
    ensures Stranded(t, id) <==> Strands(s, step, id)
  {
    hide LastCopy, EndsPending, JobStep, Fresh;
    match step
    case Crash(w) => LetGo(s, t, w, id);
    case Read(w, reply) => ReadStrands(s, w, reply, t, id);
    case Check(w, answered, at) =>
      LetGo(s, t, w, id);
      if InHands(s.workers[w], id) { FilterLetsGo(s, w, step, t, id); }
    case Reject(w, reply) =>
      LetGo(s, t, w, id);
      if InHands(s.workers[w], id) { FilterLetsGo(s, w, step, t, id); }
    case Work(w, ev) => WorkStrands(s, w, ev, t, id);
    case _ =>
  }

  /** A crash strands exactly the pending jobs only the crashed worker held. */
  lemma CrashStrands(s: State, w: nat, t: State, id: nat)
    requires s.redis.cursor <= |s.redis.stream| && Next(s, Crash(w)) == Some(t)
    requires id < s.redis.cursor && id in s.redis.pending
    ensures Stranded(t, id) <==> forall v | 0 <= v < |s.workers| && v != w :: !InHands(s.workers[v], id)
  {
    forall v | 0 <= v < |s.workers| && v != w ensures t.workers[v] == s.workers[v] {}
    assert t.workers[w] == Idle;
  }

  // ---------------------------------------------------------------- a duplicate inside ten minutes

  /** Extend a run by a step. */
  lemma {:induction false} Then(s: State, steps: seq<Step>, t: State, step: Step) returns (steps': seq<Step>, u: State)
    requires Run(s, steps) == Some(t) && Next(t, step).Some?
    ensures Run(s, steps') == Some(u) && Next(t, step) == Some(u) && steps' == steps + [step]
    decreases |steps|
  {
    if steps == [] {
      steps', u := [step], Next(t, step).value;
      assert steps'[1..] == [];
    } else {
      var rest;
      rest, u := Then(Next(s, steps[0]).value, steps[1..], t, step);
      steps' := [steps[0]] + rest;
      assert steps'[1..] == rest;
    }
  }

  function SampleJob(): Job { Job("bracket", Uuid("m"), Uuid("t"), "u", "{}") }

  /** The sample job is the stream's only entry, and worker w holds nothing else. */
  predicate Holds(s: State, w: nat, d: Delivery) {
    && s.redis.stream == [Decoded(SampleJob())] && w < |s.workers| && d.id == 0
    && s.workers[w] == Working([d], Dispatching(1))
  }

  /** A worker reads the sample job and lets it through the duplicate check. */
  lemma Deliver(s: State, steps0: seq<Step>, t0: State, w: nat, answered: bool) returns (steps: seq<Step>, t: State)
    requires Run(s, steps0) == Some(t0) && w < |t0.workers| && t0.workers[w] == Idle
    requires t0.redis.stream == [Decoded(SampleJob())] && t0.redis.cursor == 0
    requires answered ==> 0 !in t0.redis.dedup
    ensures Run(s, steps) == Some(t) && Holds(t, w, Delivery(0, answered, t0.now, |t0.marks|))
    ensures t == t0.(redis := t.redis, workers := t0.workers[w := t.workers[w]])
    ensures t.redis == t0.redis.(cursor := 1, pending := t0.redis.pending + {0})
    ensures steps == steps0 + [Read(w, Done), Check(w, answered, t0.now)]
  {
    hide Run;
    steps, t := Then(s, steps0, t0, Read(w, Done));
    assert t.workers[w] == Filtering([0], [], false);
    steps, t := Then(s, steps, t, Check(w, answered, t0.now));
    assert t.workers[w] == Working([Delivery(0, answered, t0.now, |t0.marks|)], Dispatching(1));
  }

  /** It is accepted, acknowledged and marked. */
  lemma Complete(s: State, steps0: seq<Step>, t0: State, w: nat, d: Delivery) returns (steps: seq<Step>, t: State)
    requires Run(s, steps0) == Some(t0) && Holds(t0, w, d)
    ensures Run(s, steps) == Some(t) && t.workers == t0.workers[w := Idle] && t.now == t0.now
    ensures t.marks == t0.marks + [Mark(0, t0.now)] && t.redis.stream == t0.redis.stream
    ensures t.redis.cursor == t0.redis.cursor && KeyLive(t.redis, 0, t.now)
  {
    hide Run;
    steps, t := Then(s, steps0, t0, Work(w, Dispatched(true)));
    steps, t := Then(s, steps, t, Work(w, Acked(Done)));
    steps, t := Then(s, steps, t, Work(w, Marked(Done, t0.now)));
  }

  lemma Submit(s: State) returns (steps: seq<Step>, t: State)
    requires Initial(s)
    ensures steps == [Enqueue(Decoded(SampleJob()), Done)]
    ensures Run(s, steps) == Some(t) && t.redis == s.redis.(stream := [Decoded(SampleJob())])
    ensures t == s.(redis := t.redis)
  {
    steps, t := Then(s, [], s, Enqueue(Decoded(SampleJob()), Done));
  }

  /** Stranding happens: a worker that crashes with a fresh job leaves it pending and in nobody's hands. */
  lemma CrashedJobIsStranded(s: State) returns (steps: seq<Step>, t: State)
    requires Initial(s) && |s.workers| >= 1
    ensures Run(s, steps) == Some(t) && Stranded(t, 0) && ValidMessage(t.redis.stream[0])
    ensures forall i | 0 <= i < |steps| :: !Environment(steps[i])
  {
    steps, t := Submit(s);
    hide Run;
    steps, t := Deliver(s, steps, t, 0, true);
    steps, t := Then(s, steps, t, Crash(0));
  }

  /** The ten-minute key does not stop a second processing when Redis fails to answer the duplicate
      check: the error of EXISTS is dropped and the job accepted again, with its key live. */
  lemma UnansweredCheckRedispatches(s: State) returns (steps: seq<Step>, t: State, u: State)
    requires Initial(s) && |s.workers| == 1
    ensures Run(s, steps) == Some(t) && Next(t, Work(0, Dispatched(true))) == Some(u)
    ensures KeyLive(t.redis, 0, t.now) && Holds(t, 0, Delivery(0, false, t.now, 1))
  {
    steps, t := Submit(s);
    hide Run, KeyLive;
    steps, t := Deliver(s, steps, t, 0, true);
    steps, t := Complete(s, steps, t, 0, Delivery(0, true, s.now, 0));
    steps, t := Then(s, steps, t, Replay(0));
    steps, t := Deliver(s, steps, t, 0, false);
    u := Next(t, Work(0, Dispatched(true))).value;
  }

  /** Nor does it when every check is answered: after a replay two workers check the same entry, and
      the second dispatches it after the first has marked it. */
  lemma OvertakenCheckRedispatches(s: State) returns (steps: seq<Step>, t: State, u: State)
    requires Initial(s) && |s.workers| == 2
    ensures Run(s, steps) == Some(t) && Next(t, Work(1, Dispatched(true))) == Some(u)
    ensures KeyLive(t.redis, 0, t.now) && Holds(t, 1, Delivery(0, true, t.now, 0))
  {
    steps, t := Submit(s);
    hide Run, KeyLive;
    steps, t := Deliver(s, steps, t, 0, true);
    steps, t := Then(s, steps, t, Replay(0));
    steps, t := Deliver(s, steps, t, 1, true);
    steps, t := Complete(s, steps, t, 0, Delivery(0, true, s.now, 0));
    u := Next(t, Work(1, Dispatched(true))).value;
  }
}
