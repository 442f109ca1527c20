/** Everything processWithRetry can do with one job, as the sequence of its observable steps. */
module SubmissionJobTrace {
  import opened Wrappers
  import opened SubmissionProtocol

  /** The Redis state and phase after a trace, or None if the code cannot produce the trace. */
  function RunJob(r: Redis, id: nat, job: Job, phase: Phase, trace: seq<Event>): Option<(Redis, Phase)>
    decreases |trace|
  {
    if trace == [] then Some((r, phase))
    else match JobStep(r, id, job, phase, trace[0])
      case None => None
      case Some((r', next)) => RunJob(r', id, job, next, trace[1..])
  }

  function Dispatches(trace: seq<Event>): nat {
    if trace == [] then 0 else (if trace[0].Dispatched? then 1 else 0) + Dispatches(trace[1..])
  }

  function Successes(trace: seq<Event>): nat {
    if trace == [] then 0 else (if trace[0] == Dispatched(true) then 1 else 0) + Successes(trace[1..])
  }

  function Waits(trace: seq<Event>): nat {
    if trace == [] then 0 else (if trace[0].Waited? then 1 else 0) + Waits(trace[1..])
  }

  function Cancellations(trace: seq<Event>): nat {
    if trace == [] then 0 else (if trace[0].Waited? && trace[0].cancelled then 1 else 0) + Cancellations(trace[1..])
  }

  function WaitTotal(trace: seq<Event>): int {
    if trace == [] then 0 else (if trace[0].Waited? then trace[0].ns else 0) + WaitTotal(trace[1..])
  }

  /** Calls of Ack by processWithRetry itself. */
  function Acks(trace: seq<Event>): nat {
    if trace == [] then 0 else (if trace[0].Acked? then 1 else 0) + Acks(trace[1..])
  }

  /** Calls of Nack: each starts with one write to the dead-letter stream. */
  function Nacks(trace: seq<Event>): nat {
    if trace == [] then 0 else (if trace[0].DeadLettered? then 1 else 0) + Nacks(trace[1..])
  }

  /** Dispatches still possible from a phase. */
  function AttemptsLeft(phase: Phase): int {
    match phase
    case Dispatching(n) => MAX_RETRIES + 1 - n
    case BackingOff(n) => MAX_RETRIES - n
    case _ => 0
  }

  /** Whether the job's fate, Ack or Nack, is still open in a phase. */
  predicate Undecided(phase: Phase) { phase.Dispatching? || phase.BackingOff? }

  predicate InLoop(phase: Phase) {
    match phase
    case Dispatching(n) => 1 <= n <= MAX_RETRIES
    case BackingOff(n) => 1 <= n < MAX_RETRIES
    case _ => true
  }

  /** The back-off still to be requested if every remaining attempt fails, in whole seconds. */
  function BackoffLeft(phase: Phase): int {
    match phase
    case Dispatching(1) => 3
    case BackingOff(1) => 3
    case Dispatching(2) => 2
    case BackingOff(2) => 2
    case _ => 0
  }

  lemma {:induction false} TraceBounds(r: Redis, id: nat, job: Job, phase: Phase, trace: seq<Event>)
    requires InLoop(phase) && RunJob(r, id, job, phase, trace).Some?
    ensures Dispatches(trace) <= AttemptsLeft(phase)
    ensures Waits(trace) <= if phase.Dispatching? then AttemptsLeft(phase) - 1 else AttemptsLeft(phase)
    decreases |trace|
  {
    if trace != [] {
      var (r', next) := JobStep(r, id, job, phase, trace[0]).value;
      TraceBounds(r', id, job, next, trace[1..]);
    }
  }

  lemma {:induction false} TraceVerdict(r: Redis, id: nat, job: Job, phase: Phase, trace: seq<Event>, end: Redis)
    requires InLoop(phase) && RunJob(r, id, job, phase, trace) == Some((end, Finished))
    ensures Undecided(phase) ==> Acks(trace) + Nacks(trace) == 1 && Acks(trace) == Successes(trace)
    ensures phase.Acking? ==> Acks(trace) == 1 && Nacks(trace) == 0 && Successes(trace) == 0
    ensures phase.DeadLettering? ==> Acks(trace) == 0 && Nacks(trace) == 1 && Successes(trace) == 0
    ensures phase in {Marking, ClosingNack, Finished} ==> Acks(trace) == 0 && Nacks(trace) == 0 && Successes(trace) == 0
    ensures Undecided(phase) && !KnownKind(job.kind) ==> Nacks(trace) == 1
    decreases |trace|
  {
    if trace != [] {
      var (r', next) := JobStep(r, id, job, phase, trace[0]).value;
      TraceVerdict(r', id, job, next, trace[1..], end);
    }
  }

  lemma {:induction false} TraceBackoff(r: Redis, id: nat, job: Job, phase: Phase, trace: seq<Event>, end: Redis)
    requires InLoop(phase) && RunJob(r, id, job, phase, trace) == Some((end, Finished))
    ensures var left := BackoffLeft(phase) * SECOND;
            Undecided(phase) && Successes(trace) == 0 && Cancellations(trace) == 0 ==>
              left <= WaitTotal(trace) && (if left == 0 then WaitTotal(trace) == 0 else 5 * WaitTotal(trace) < 6 * left)
    ensures Undecided(phase) && Successes(trace) == 0 && Cancellations(trace) == 0 ==>
              && Dispatches(trace) == AttemptsLeft(phase)
              && Waits(trace) == if phase.Dispatching? then AttemptsLeft(phase) - 1 else AttemptsLeft(phase)
    ensures !Undecided(phase) ==> WaitTotal(trace) == 0 && Dispatches(trace) == 0 && Waits(trace) == 0
    decreases |trace|
  {
    if trace != [] {
      var (r', next) := JobStep(r, id, job, phase, trace[0]).value;
      TraceBackoff(r', id, job, next, trace[1..], end);
      assert BackoffBase(2) == 2 * BackoffBase(1);
    }
  }

  /** Every complete handling of a job makes at most three dispatches and two waits, and calls
      exactly one of Ack and Nack: Ack if and only if some dispatch succeeded. A job of a type the
      worker does not know always ends in Nack. */
  lemma JobGetsOneVerdict(r: Redis, id: nat, job: Job, trace: seq<Event>, end: Redis)
    requires RunJob(r, id, job, Dispatching(1), trace) == Some((end, Finished))
    ensures Dispatches(trace) <= 3 && Waits(trace) <= 2
    ensures Acks(trace) + Nacks(trace) == 1
    ensures Acks(trace) == 1 <==> Dispatched(true) in trace
    ensures job.kind !in {"bracket", "br_lobby", "group"} ==> Nacks(trace) == 1
  {
    TraceBounds(r, id, job, Dispatching(1), trace);
    TraceVerdict(r, id, job, Dispatching(1), trace, end);
    SuccessesCount(trace);
  }

  lemma {:induction false} SuccessesCount(trace: seq<Event>)
    ensures Successes(trace) > 0 <==> Dispatched(true) in trace
  {
    if trace != [] { SuccessesCount(trace[1..]); }
  }

  lemma {:induction false} NoCancellations(trace: seq<Event>)
    requires forall e | e in trace && e.Waited? :: !e.cancelled
    ensures Cancellations(trace) == 0
  {
    if trace != [] { NoCancellations(trace[1..]); }
  }

  /** When all three attempts fail and nobody cancels, the requested back-off is 3 s up to 3.6 s. */
  lemma ExhaustedBackoffTotal(r: Redis, id: nat, job: Job, trace: seq<Event>, end: Redis)
    requires RunJob(r, id, job, Dispatching(1), trace) == Some((end, Finished))
    requires Dispatched(true) !in trace && forall e | e in trace && e.Waited? :: !e.cancelled
    ensures 3_000_000_000 <= WaitTotal(trace) < 3_600_000_000
    ensures Dispatches(trace) == 3 && Waits(trace) == 2
  {
    SuccessesCount(trace);
    NoCancellations(trace);
    TraceBackoff(r, id, job, Dispatching(1), trace, end);
  }

  lemma {:induction false} DlqSettled(r: Redis, id: nat, job: Job, phase: Phase, trace: seq<Event>, end: Redis)
    requires phase.ClosingNack? || phase.Finished?
    requires RunJob(r, id, job, phase, trace) == Some((end, Finished))
    ensures end.dlq == r.dlq
    decreases |trace|
  {
    if trace != [] {
      var (r', next) := JobStep(r, id, job, phase, trace[0]).value;
      DlqSettled(r', id, job, next, trace[1..], end);
    }
  }

  /** A cancelled back-off is the job's last attempt: it is not dispatched again, and Nack writes it
      to the dead-letter stream unless Redis refuses. */
  lemma CancelledBackoffIsFinal(r: Redis, id: nat, job: Job, attempt: nat, trace: seq<Event>, end: Redis)
    requires 1 <= attempt < MAX_RETRIES
    requires trace != [] && trace[0].Waited? && trace[0].cancelled
    requires RunJob(r, id, job, BackingOff(attempt), trace) == Some((end, Finished))
    ensures Dispatches(trace) == 0 && Acks(trace) == 0 && |trace| > 1 && trace[1].DeadLettered?
    ensures end.dlq == XAddDeadLetter(r, DeadLetter(id, job, Shutdown), trace[1].reply).dlq
  {
    var rest := trace[1..];
    TraceBounds(r, id, job, DeadLettering(Shutdown), rest);
    TraceVerdict(r, id, job, DeadLettering(Shutdown), rest, end);
    var (r', next) := JobStep(r, id, job, DeadLettering(Shutdown), rest[0]).value;
    DlqSettled(r', id, job, next, rest[1..], end);
  }

  // ---------------------------------------------------------------- a trace is a run of the pool

  function WorkSteps(w: nat, trace: seq<Event>): seq<Step> {
    seq(|trace|, i requires 0 <= i < |trace| => Work(w, trace[i]))
  }

  /** Times in a trace do not run backwards and start no earlier than `now`. */
  predicate TimesFrom(now: int, trace: seq<Event>)
    decreases |trace|
  {
    trace != [] ==>
      if trace[0].Marked? then now <= trace[0].at && TimesFrom(trace[0].at, trace[1..]) else TimesFrom(now, trace[1..])
  }

  function EndTime(now: int, trace: seq<Event>): int
    decreases |trace|
  {
    if trace == [] then now else EndTime(if trace[0].Marked? then trace[0].at else now, trace[1..])
  }

  /** Handling a job start to finish is a run of the pool in which this worker alone moves: Redis
      ends as the trace says, and the worker goes on to its next job. */
  lemma {:induction false} TraceIsARun(s: State, w: nat, trace: seq<Event>, end: Redis)
    requires w < |s.workers| && s.workers[w].Working? && s.workers[w].jobs != []
    requires s.workers[w].jobs[0].id < |s.redis.stream| && s.redis.stream[s.workers[w].jobs[0].id].Decoded?
    requires RunJob(s.redis, s.workers[w].jobs[0].id, s.redis.stream[s.workers[w].jobs[0].id].job,
                    s.workers[w].phase, trace) == Some((end, Finished))
    requires trace != [] && TimesFrom(s.now, trace)
    ensures var t := Run(s, WorkSteps(w, trace));
            && t.Some? && t.value.redis == end && t.value.now == EndTime(s.now, trace)
            && t.value.workers == s.workers[w := AfterJob(s.workers[w].jobs, Finished)]
    decreases |trace|
  {
    var Working(jobs, phase) := s.workers[w];
    var id := jobs[0].id;
    var (r, next) := JobStep(s.redis, id, s.redis.stream[id].job, phase, trace[0]).value;
    var t := WorkStep(s, w, trace[0]).value;
    assert r.stream == s.redis.stream;
    var steps := WorkSteps(w, trace);
    assert steps[0] == Work(w, trace[0]) && steps[1..] == WorkSteps(w, trace[1..]);
    if next.Finished? {
      assert trace[1..] == [];
    } else {
      TraceIsARun(t, w, trace[1..], end);
      assert t.workers[w].jobs == jobs;
    }
  }
}
