/** The submission queue and its worker pool as a state machine.

    One step is one effect another process can see: a single Redis command, a single call of the
    job processor, or one wait.  Steps of any number of workers interleave freely with crashes,
    cancelled contexts, Redis failures and operators replaying the consumer group. */
module SubmissionProtocol {
  import opened Wrappers

  // ---------------------------------------------------------------- jobs and messages

  /** An identifier field as ReadBatch sees it: empty, rejected by uuid.Parse, or accepted by it. */
  datatype Id = Missing | Unparsable(text: string) | Uuid(text: string)

  datatype Job = Job(kind: string, matchId: Id, teamId: Id, submittedById: string, payload: string)

  /** A stream entry: without a "data" string, with data that is not a job, or with a job. */
  datatype Message = NoData | BadJson | Decoded(job: Job)

  const MAX_RETRIES := 3
  const BATCH_SIZE := 10
  const SECOND := 1_000_000_000             // nanoseconds
  const DEDUP_TTL := 600 * SECOND

  /** The fields ReadBatch insists on. The job type only has to be present, not known. */
  predicate WellFormed(j: Job) {
    j.kind != "" && j.matchId.Uuid? && j.teamId.Uuid? && j.submittedById != ""
  }

  predicate ValidMessage(m: Message) { m.Decoded? && WellFormed(m.job) }

  /** The job types dispatch routes to the processor; every other type is an error. */
  predicate KnownKind(kind: string) { kind in {"bracket", "br_lobby", "group"} }

  // ---------------------------------------------------------------- Redis

  datatype Reason = Exhausted | Shutdown
  datatype DeadLetter = DeadLetter(originalId: nat, job: Job, reason: Reason)

  /** Stream IDs are positions: `cursor` is the first entry ">" has not delivered to the group. */
  datatype Redis = Redis(
    stream: seq<Message>, cursor: nat, pending: set<nat>,
    dlq: seq<DeadLetter>, dedup: map<nat, int>)

  function XAdd(r: Redis, m: Message, reply: Reply): Redis {
    if reply.Refused? then r else r.(stream := r.stream + [m])
  }

  function Min(a: nat, b: nat): nat { if a < b then a else b }

  /** The IDs the next XREADGROUP with ">" hands out. */
  function Fresh(r: Redis, count: nat): seq<nat>
    requires r.cursor <= |r.stream|
  {
    seq(Min(count, |r.stream| - r.cursor), i requires 0 <= i => r.cursor + i)
  }

  function XReadGroup(r: Redis, count: nat, reply: Reply): Redis
    requires r.cursor <= |r.stream|
  {
    if reply.Refused? then r
    else
      var ids := Fresh(r, count);
      r.(cursor := r.cursor + |ids|, pending := r.pending + (set id | id in ids))
  }

  function XAck(r: Redis, id: nat, reply: Reply): Redis {
    if reply.Refused? then r else r.(pending := r.pending - {id})
  }

  function XAddDeadLetter(r: Redis, letter: DeadLetter, reply: Reply): Redis {
    if reply.Refused? then r else r.(dlq := r.dlq + [letter])
  }

  function SetProcessed(r: Redis, id: nat, at: int, reply: Reply): Redis {
    if reply.Refused? then r else r.(dedup := r.dedup[id := at + DEDUP_TTL])
  }

  /** Redis drops a key once the clock has passed its expiry. */
  predicate KeyLive(r: Redis, id: nat, at: int) { id in r.dedup && at <= r.dedup[id] }

  // ---------------------------------------------------------------- one job

  /** Where processWithRetry stands with the job it holds. */
  datatype Phase =
    | Dispatching(attempt: nat)
    | BackingOff(attempt: nat)
    | Acking
    | Marking
    | DeadLettering(reason: Reason)
    | ClosingNack
    | Finished

  datatype Event =
    | Dispatched(ok: bool)
    | Waited(ns: int, cancelled: bool)
    | Acked(reply: Reply)
    | Marked(reply: Reply, at: int)
    | DeadLettered(reply: Reply)
    | NackAcked(reply: Reply)

  function BackoffBase(attempt: nat): int {
    if attempt <= 1 then SECOND else 2 * BackoffBase(attempt - 1)
  }

  /** The back-off asked for: the base plus a jitter below a fifth of it, never minus one. */
  predicate BackoffRequested(attempt: nat, ns: int) {
    BackoffBase(attempt) <= ns < BackoffBase(attempt) + BackoffBase(attempt) / 5
  }

  /** One observable step of processWithRetry, or None if the code cannot take it there. */
  function JobStep(r: Redis, id: nat, job: Job, phase: Phase, ev: Event): Option<(Redis, Phase)> {
    match (phase, ev)
    case (Dispatching(n), Dispatched(ok)) =>
      if ok && !KnownKind(job.kind) then None
      else if ok then Some((r, Acking))
      else if n < MAX_RETRIES then Some((r, BackingOff(n)))
      else Some((r, DeadLettering(Exhausted)))
    case (BackingOff(n), Waited(ns, cancelled)) =>
      if !BackoffRequested(n, ns) then None
      else if cancelled then Some((r, DeadLettering(Shutdown)))
      else Some((r, Dispatching(n + 1)))
    case (Acking, Acked(reply)) =>
      Some((XAck(r, id, reply), if reply.Done? then Marking else Finished))
    case (Marking, Marked(reply, at)) =>
      Some((SetProcessed(r, id, at, reply), Finished))
    case (DeadLettering(reason), DeadLettered(reply)) =>
      Some((XAddDeadLetter(r, DeadLetter(id, job, reason), reply), if reply.Done? then ClosingNack else Finished))
    case (ClosingNack, NackAcked(reply)) =>
      Some((XAck(r, id, reply), Finished))
    case _ => None
  }

  // ---------------------------------------------------------------- the pool

  /** A job a worker holds, with what its duplicate check saw: whether Redis answered, when, and
      how many MarkProcessed writes had taken effect by then. */
  datatype Delivery = Delivery(id: nat, answered: bool, at: int, marksSeen: nat)

  datatype Worker =
    | Idle
    | Filtering(todo: seq<nat>, kept: seq<Delivery>, rejecting: bool)   // inside ReadBatch
    | Working(jobs: seq<Delivery>, phase: Phase)                       // inside the batch loop

  datatype Mark = Mark(id: nat, at: int)

  /** `succeeded`, `confirmed` and `marks` only record history: jobs the processor accepted, jobs
      whose Ack returned nil after that, and the MarkProcessed writes that took effect. */
  datatype State = State(
    redis: Redis, now: int, workers: seq<Worker>,
    succeeded: set<nat>, confirmed: set<nat>, marks: seq<Mark>)

  datatype Step =
    | Enqueue(message: Message, reply: Reply)
    | Read(w: nat, reply: Reply)
    | Check(w: nat, answered: bool, at: int)
    | Reject(w: nat, reply: Reply)
    | Work(w: nat, event: Event)
    | Crash(w: nat)
    | Tick(to: int)
    | Replay(position: nat)      // an operator moves the group back (XGROUP SETID)
    | RecreateGroup              // an operator destroys the group; it starts again at 0

  predicate Environment(step: Step) { step.Replay? || step.RecreateGroup? }

  function AfterMessage(todo: seq<nat>, kept: seq<Delivery>): Worker {
    if todo != [] then Filtering(todo, kept, false)
    else if kept != [] then Working(kept, Dispatching(1))
    else Idle
  }

  function AfterJob(jobs: seq<Delivery>, phase: Phase): Worker
    requires jobs != []
  {
    if !phase.Finished? then Working(jobs, phase)
    else if |jobs| > 1 then Working(jobs[1..], Dispatching(1))
    else Idle
  }

  function SetWorker(s: State, w: nat, worker: Worker): State
    requires w < |s.workers|
  {
    s.(workers := s.workers[w := worker])
  }

  /** ReadBatch looks at the next delivered message: skip what does not decode, reject what is not
      well formed or already marked, keep the rest. An unanswered check counts as "not marked". */
  function CheckStep(s: State, w: nat, answered: bool, at: int): Option<State> {
    if w >= |s.workers| || !s.workers[w].Filtering? || s.workers[w].rejecting then None
    else
      var Filtering(todo, kept, _) := s.workers[w];
      if todo == [] || todo[0] >= |s.redis.stream| || at < s.now then None
      else
        var id, m := todo[0], s.redis.stream[todo[0]];
        var t := s.(now := at);
        if !m.Decoded? then Some(SetWorker(t, w, AfterMessage(todo[1..], kept)))
        else if !WellFormed(m.job) || (answered && KeyLive(s.redis, id, at)) then
          Some(SetWorker(t, w, Filtering(todo, kept, true)))
        else
          Some(SetWorker(t, w, AfterMessage(todo[1..], kept + [Delivery(id, answered, at, |s.marks|)])))
  }

  function RejectStep(s: State, w: nat, reply: Reply): Option<State> {
    if w >= |s.workers| || !s.workers[w].Filtering? || !s.workers[w].rejecting || s.workers[w].todo == [] then None
    else
      var Filtering(todo, kept, _) := s.workers[w];
      Some(SetWorker(s.(redis := XAck(s.redis, todo[0], reply)), w, AfterMessage(todo[1..], kept)))
  }

  /** What an event adds to the history. */
  function Recorded(s: State, id: nat, ev: Event): State {
    match ev
    case Dispatched(true) => s.(succeeded := s.succeeded + {id})
    case Acked(Done) => s.(confirmed := s.confirmed + {id})
    case Marked(reply, at) =>
      if reply.Refused? then s.(now := at) else s.(now := at, marks := s.marks + [Mark(id, at)])
    case _ => s
  }

  function WorkStep(s: State, w: nat, ev: Event): Option<State> {
    if w >= |s.workers| || !s.workers[w].Working? || s.workers[w].jobs == [] then None
    else
      var Working(jobs, phase) := s.workers[w];
      var id := jobs[0].id;
      if id >= |s.redis.stream| || !s.redis.stream[id].Decoded? || (ev.Marked? && ev.at < s.now) then None
      else
        match JobStep(s.redis, id, s.redis.stream[id].job, phase, ev)
        case None => None
        case Some((r, next)) => Some(SetWorker(Recorded(s, id, ev).(redis := r), w, AfterJob(jobs, next)))
  }

  function ReadStep(s: State, w: nat, reply: Reply): Option<State> {
    if w >= |s.workers| || !s.workers[w].Idle? || s.redis.cursor > |s.redis.stream| then None
    else
      var ids := Fresh(s.redis, BATCH_SIZE);
      var t := s.(redis := XReadGroup(s.redis, BATCH_SIZE, reply));
      Some(if reply.Done? then SetWorker(t, w, AfterMessage(ids, [])) else t)
  }

  /** The state after a step, or None where the step cannot happen. */
  function Next(s: State, step: Step): Option<State> {
    match step
    case Enqueue(m, reply) => Some(s.(redis := XAdd(s.redis, m, reply)))
    case Read(w, reply) => ReadStep(s, w, reply)
    case Check(w, answered, at) => CheckStep(s, w, answered, at)
    case Reject(w, reply) => RejectStep(s, w, reply)
    case Work(w, ev) => WorkStep(s, w, ev)
    case Crash(w) => if w < |s.workers| then Some(SetWorker(s, w, Idle)) else None
    case Tick(to) => if s.now <= to then Some(s.(now := to)) else None
    case Replay(position) =>
      if position <= s.redis.cursor then Some(s.(redis := s.redis.(cursor := position))) else None
    case RecreateGroup => Some(s.(redis := s.redis.(cursor := 0, pending := {})))
  }

  function Run(s: State, steps: seq<Step>): Option<State>
    decreases |steps|
  {
    if steps == [] then Some(s)
    else match Next(s, steps[0])
      case None => None
      case Some(t) => Run(t, steps[1..])
  }

  /** An empty stream and group, no dedup keys, and `n` workers about to read. */
  predicate Initial(s: State) {
    && s.redis == Redis([], 0, {}, [], map[])
    && (forall w | 0 <= w < |s.workers| :: s.workers[w].Idle?)
    && s.succeeded == {} && s.confirmed == {} && s.marks == []
  }

  // ---------------------------------------------------------------- the invariant

  predicate InDlq(r: Redis, id: nat) {
    id < |r.stream| && r.stream[id].Decoded? &&
    exists k | 0 <= k < |r.dlq| :: r.dlq[k].originalId == id && r.dlq[k].job == r.stream[id].job
  }

  predicate IsValidId(s: State, id: nat) { id < |s.redis.stream| && ValidMessage(s.redis.stream[id]) }

  /** What an answered duplicate check that let the job through proves about earlier marks. */
  predicate Cleared(s: State, d: Delivery) {
    && d.marksSeen <= |s.marks| && d.at <= s.now
    && (d.answered ==> forall k | 0 <= k < d.marksSeen :: s.marks[k].id == d.id ==> s.marks[k].at + DEDUP_TTL < d.at)
  }

  predicate DeliveriesOk(s: State, ds: seq<Delivery>) {
    forall i | 0 <= i < |ds| :: IsValidId(s, ds[i].id) && Cleared(s, ds[i])
  }

  predicate PhaseOk(s: State, id: nat, phase: Phase) {
    match phase
    case Dispatching(n) => 1 <= n <= MAX_RETRIES
    case BackingOff(n) => 1 <= n < MAX_RETRIES
    case Acking => id in s.succeeded
    case Marking => id in s.succeeded && id in s.confirmed
    case DeadLettering(_) => true
    case ClosingNack => InDlq(s.redis, id)
    case Finished => false
  }

  /** An entry a worker may acknowledge without processing it now. */
  predicate Rejectable(s: State, id: nat) {
    id < |s.redis.stream| && s.redis.stream[id].Decoded? && (ValidMessage(s.redis.stream[id]) ==> id in s.succeeded)
  }

  predicate WorkerOk(s: State, worker: Worker) {
    match worker
    case Idle => true
    case Filtering(todo, kept, rejecting) =>
      && (forall i | 0 <= i < |todo| :: todo[i] < |s.redis.stream|)
      && DeliveriesOk(s, kept)
      && (rejecting ==> todo != [] && Rejectable(s, todo[0]))
    case Working(jobs, phase) =>
      jobs != [] && DeliveriesOk(s, jobs) && PhaseOk(s, jobs[0].id, phase)
  }

  /** Nothing delivered is lost: a valid entry is pending, processed or dead-lettered, and an entry
      that does not decode is still pending. */
  predicate Accounted(s: State, id: nat) {
    id < s.redis.cursor && id < |s.redis.stream| ==>
      && (ValidMessage(s.redis.stream[id]) ==>
           id in s.redis.pending || id in s.succeeded || InDlq(s.redis, id))
      && (!s.redis.stream[id].Decoded? ==> id in s.redis.pending)
  }

  /** The key set by the k-th mark expires at the given time. */
  predicate MarkExpires(s: State, k: nat, id: nat, expiry: int) {
    k < |s.marks| && s.marks[k].id == id && s.marks[k].at + DEDUP_TTL == expiry
  }

  ghost predicate MarksOk(s: State) {
    && (forall id | id in s.redis.dedup :: id in s.confirmed && s.redis.dedup[id] <= s.now + DEDUP_TTL)
    && (forall id | id in s.redis.dedup :: exists k :: MarkExpires(s, k, id, s.redis.dedup[id]))
    && (forall k | 0 <= k < |s.marks| ::
         s.marks[k].id in s.redis.dedup && s.marks[k].at + DEDUP_TTL <= s.redis.dedup[s.marks[k].id])
  }

  ghost predicate Inv(s: State) {
    && s.redis.cursor <= |s.redis.stream|
    && (forall id | id in s.redis.pending :: id < |s.redis.stream|)
    && (forall id: nat :: Accounted(s, id))
    && s.confirmed <= s.succeeded
    && MarksOk(s)
    && (forall w | 0 <= w < |s.workers| :: WorkerOk(s, s.workers[w]))
  }
}
