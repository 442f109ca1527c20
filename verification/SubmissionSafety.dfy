/** Safety of the submission queue over every run of the worker pool. */
module SubmissionSafety {
  import opened Wrappers
  import opened SubmissionProtocol

  // ---------------------------------------------------------------- history only grows

  predicate Grows(s: State, t: State) {
    && s.redis.stream <= t.redis.stream && s.redis.dlq <= t.redis.dlq && s.marks <= t.marks
    && s.succeeded <= t.succeeded && s.confirmed <= t.confirmed && s.now <= t.now
  }

  lemma MarksKeep(s: State, t: State)
    requires MarksOk(s) && t.redis.dedup == s.redis.dedup && t.marks == s.marks
    requires s.confirmed <= t.confirmed && s.now <= t.now
    ensures MarksOk(t)
  {
    forall id | id in t.redis.dedup ensures exists k :: MarkExpires(t, k, id, t.redis.dedup[id]) {
      var k :| MarkExpires(s, k, id, s.redis.dedup[id]);
      assert MarkExpires(t, k, id, t.redis.dedup[id]);
    }
  }

  lemma MarkMade(s: State, t: State, id: nat, at: int)
    requires MarksOk(s) && id in s.confirmed && s.now <= at == t.now
    requires t.confirmed == s.confirmed && t.marks == s.marks + [Mark(id, at)]
    requires t.redis.dedup == s.redis.dedup[id := at + DEDUP_TTL]
    ensures MarksOk(t)
  {
    forall other | other in t.redis.dedup ensures exists k :: MarkExpires(t, k, other, t.redis.dedup[other]) {
      if other == id {
        assert MarkExpires(t, |s.marks|, id, t.redis.dedup[id]);
      } else {
        var k :| MarkExpires(s, k, other, s.redis.dedup[other]);
        assert MarkExpires(t, k, other, t.redis.dedup[other]);
      }
    }
    forall k | 0 <= k < |t.marks|
      ensures t.marks[k].id in t.redis.dedup && t.marks[k].at + DEDUP_TTL <= t.redis.dedup[t.marks[k].id]
    {
      if k < |s.marks| { assert t.marks[k] == s.marks[k]; }
    }
  }

  /** What the duplicate check proves: a live key is an earned one, and without one every mark of the
      job is more than ten minutes old. */
  lemma KeyTells(s: State, id: nat, at: int)
    requires MarksOk(s)
    ensures KeyLive(s.redis, id, at) ==> id in s.confirmed
    ensures !KeyLive(s.redis, id, at) ==>
              forall k | 0 <= k < |s.marks| && s.marks[k].id == id :: s.marks[k].at + DEDUP_TTL < at
  {}

  lemma InDlqGrows(s: State, t: State, id: nat)
    requires Grows(s, t) && InDlq(s.redis, id)
    ensures InDlq(t.redis, id)
  {
    var k :| 0 <= k < |s.redis.dlq| && s.redis.dlq[k].originalId == id && s.redis.dlq[k].job == s.redis.stream[id].job;
    assert t.redis.dlq[k] == s.redis.dlq[k];
  }

  lemma DeliveriesGrow(s: State, t: State, ds: seq<Delivery>)
    requires Grows(s, t) && DeliveriesOk(s, ds)
    ensures DeliveriesOk(t, ds)
  {
    forall i | 0 <= i < |ds| ensures IsValidId(t, ds[i].id) && Cleared(t, ds[i]) {
      assert IsValidId(s, ds[i].id) && Cleared(s, ds[i]);
    }
  }

  lemma WorkerGrows(s: State, t: State, worker: Worker)
    requires Grows(s, t) && WorkerOk(s, worker)
    ensures WorkerOk(t, worker)
  {
    match worker
    case Idle =>
    case Filtering(todo, kept, rejecting) => DeliveriesGrow(s, t, kept);
    case Working(jobs, phase) =>
      DeliveriesGrow(s, t, jobs);
      if phase.ClosingNack? { InDlqGrows(s, t, jobs[0].id); }
  }

  /** An entry stays accounted for while it stays delivered and pending, or history grows. */
  lemma AccountedGrows(s: State, t: State, id: nat)
    requires Grows(s, t) && Accounted(s, id)
    requires s.redis.cursor <= |s.redis.stream|
    requires id < t.redis.cursor ==> id < s.redis.cursor
    requires id in s.redis.pending ==> id in t.redis.pending
    ensures Accounted(t, id)
  {
    if id < s.redis.cursor && InDlq(s.redis, id) { InDlqGrows(s, t, id); }
  }

  // ---------------------------------------------------------------- one lemma per kind of step

  lemma WorkersKeep(s: State, t: State, w: nat)
    requires Inv(s) && Grows(s, t) && w < |s.workers| == |t.workers|
    requires forall v | 0 <= v < |s.workers| && v != w :: t.workers[v] == s.workers[v]
    requires WorkerOk(t, t.workers[w])
    ensures forall v | 0 <= v < |t.workers| :: WorkerOk(t, t.workers[v])
  {
    forall v | 0 <= v < |t.workers| ensures WorkerOk(t, t.workers[v]) {
      if v != w { WorkerGrows(s, t, s.workers[v]); }
    }
  }

  lemma WorkersKeepAll(s: State, t: State)
    requires Inv(s) && Grows(s, t) && t.workers == s.workers
    ensures forall v | 0 <= v < |t.workers| :: WorkerOk(t, t.workers[v])
  {
    forall v | 0 <= v < |t.workers| ensures WorkerOk(t, t.workers[v]) { WorkerGrows(s, t, s.workers[v]); }
  }

  lemma ReadKeeps(s: State, w: nat, reply: Reply, t: State)
    requires Inv(s) && ReadStep(s, w, reply) == Some(t)
    ensures Inv(t)
  {
    MarksKeep(s, t);
    hide MarksOk;
    var ids := Fresh(s.redis, BATCH_SIZE);
    forall id: nat ensures Accounted(t, id) {
      assert Accounted(s, id);
      if s.redis.cursor <= id < t.redis.cursor {
        assert ids[id - s.redis.cursor] == id;
      } else {
        AccountedGrows(s, t, id);
      }
    }
    WorkersKeep(s, t, w);
  }

  lemma CheckKeeps(s: State, w: nat, answered: bool, at: int, t: State)
    requires Inv(s) && CheckStep(s, w, answered, at) == Some(t)
    ensures Inv(t)
  {
    MarksKeep(s, t);
    CheckedWorkerOk(s, w, answered, at, t);
    hide MarksOk, KeyLive, WorkerOk, WellFormed;
    WorkersKeep(s, t, w);
    forall other: nat ensures Accounted(t, other) { AccountedGrows(s, t, other); }
  }

  lemma CheckedWorkerOk(s: State, w: nat, answered: bool, at: int, t: State)
    requires Inv(s) && CheckStep(s, w, answered, at) == Some(t)
    ensures WorkerOk(t, t.workers[w])
  {
    KeyTells(s, s.workers[w].todo[0], at);
    hide MarksOk, KeyLive, Accounted;
    var Filtering(todo, kept, _) := s.workers[w];
    var id := todo[0];
    assert WorkerOk(s, s.workers[w]);
    DeliveriesGrow(s, t, kept);
    if ValidMessage(s.redis.stream[id]) && !(answered && KeyLive(s.redis, id, at)) {
      assert Cleared(t, Delivery(id, answered, at, |s.marks|));
    }
  }

  /** Acknowledging an entry that needs nothing more keeps every entry accounted for. */
  lemma AckKeepsAccount(s: State, t: State, id: nat, reply: Reply)
    requires Inv(s) && Grows(s, t) && t.redis.stream == s.redis.stream && t.redis.cursor == s.redis.cursor
    requires t.redis.pending == XAck(s.redis, id, reply).pending
    requires id < |t.redis.stream| && t.redis.stream[id].Decoded?
    requires ValidMessage(t.redis.stream[id]) ==> id in t.succeeded || InDlq(t.redis, id)
    ensures forall other: nat :: Accounted(t, other)
  {
    forall other: nat ensures Accounted(t, other) {
      if other != id { AccountedGrows(s, t, other); }
    }
  }

  lemma RejectKeeps(s: State, w: nat, reply: Reply, t: State)
    requires Inv(s) && RejectStep(s, w, reply) == Some(t)
    ensures Inv(t)
  {
    MarksKeep(s, t);
    hide MarksOk;
    var Filtering(todo, kept, _) := s.workers[w];
    assert WorkerOk(s, s.workers[w]);
    DeliveriesGrow(s, t, kept);
    AckKeepsAccount(s, t, todo[0], reply);
    WorkersKeep(s, t, w);
  }

  lemma WorkMarks(s: State, w: nat, ev: Event, t: State)
    requires Inv(s) && WorkStep(s, w, ev) == Some(t)
    ensures MarksOk(t)
  {
    assert WorkerOk(s, s.workers[w]);
    if ev.Marked? && !ev.reply.Refused? {
      MarkMade(s, t, s.workers[w].jobs[0].id, ev.at);
    } else {
      MarksKeep(s, t);
    }
  }

  /** The worker after a step of its job. */
  lemma WorkedWorkerOk(s: State, w: nat, ev: Event, t: State)
    requires Inv(s) && WorkStep(s, w, ev) == Some(t)
    ensures Grows(s, t) && WorkerOk(t, t.workers[w])
  {
    hide MarksOk, Accounted;
    var Working(jobs, phase) := s.workers[w];
    var id, job := jobs[0].id, s.redis.stream[jobs[0].id].job;
    assert WorkerOk(s, s.workers[w]) && IsValidId(s, id);
    DeliveriesGrow(s, t, jobs);
    if phase.DeadLettering? && !ev.reply.Refused? {
      assert t.redis.dlq[|s.redis.dlq|] == DeadLetter(id, job, phase.reason);
      assert InDlq(t.redis, id);
    }
  }

  /** A job is acknowledged only once it is accepted or dead-lettered. */
  lemma WorkAcks(s: State, w: nat, ev: Event, t: State)
    requires Inv(s) && WorkStep(s, w, ev) == Some(t) && Grows(s, t)
    ensures var id, phase := s.workers[w].jobs[0].id, s.workers[w].phase;
            && (phase.Acking? || phase.ClosingNack? ==> id in t.succeeded || InDlq(t.redis, id))
            && t.redis.pending == (if phase.Acking? || phase.ClosingNack? then XAck(s.redis, id, ev.reply).pending
                                   else s.redis.pending)
  {
    hide MarksOk, Accounted;
    assert WorkerOk(s, s.workers[w]);
    if s.workers[w].phase.ClosingNack? { InDlqGrows(s, t, s.workers[w].jobs[0].id); }
  }

  lemma WorkKeeps(s: State, w: nat, ev: Event, t: State)
    requires Inv(s) && WorkStep(s, w, ev) == Some(t)
    ensures Inv(t) && Grows(s, t)
  {
    WorkMarks(s, w, ev, t);
    WorkedWorkerOk(s, w, ev, t);
    WorkAcks(s, w, ev, t);
    hide MarksOk, WorkerOk, ValidMessage, InDlq;
    WorkersKeep(s, t, w);
    var phase := s.workers[w].phase;
    if phase.Acking? || phase.ClosingNack? {
      AckKeepsAccount(s, t, s.workers[w].jobs[0].id, ev.reply);
    } else {
      forall other: nat ensures Accounted(t, other) { AccountedGrows(s, t, other); }
    }
  }

  lemma StepKeeps(s: State, step: Step, t: State)
    requires Inv(s) && Next(s, step) == Some(t)
    ensures Inv(t) && Grows(s, t)
  {
    hide MarksOk;
    if !step.Work? && !step.Check? { MarksKeep(s, t); }
    match step
    case Read(w, reply) => ReadKeeps(s, w, reply, t);
    case Check(w, answered, at) => CheckKeeps(s, w, answered, at, t);
    case Reject(w, reply) => RejectKeeps(s, w, reply, t);
    case Work(w, ev) => WorkKeeps(s, w, ev, t);
    case Crash(w) =>
      WorkersKeep(s, t, w);
      forall id: nat ensures Accounted(t, id) { AccountedGrows(s, t, id); }
    case RecreateGroup => WorkersKeepAll(s, t);
    case _ =>
      WorkersKeepAll(s, t);
      forall id: nat ensures Accounted(t, id) { AccountedGrows(s, t, id); }
  }

  lemma RunKeeps(s: State, steps: seq<Step>, t: State)
    requires Inv(s) && Run(s, steps) == Some(t)
    ensures Inv(t) && Grows(s, t)
    decreases |steps|
  {
    if steps != [] {
      var u := Next(s, steps[0]).value;
      StepKeeps(s, steps[0], u);
      RunKeeps(u, steps[1..], t);
    }
  }

  // ---------------------------------------------------------------- theorems over every run

  /** No submission is lost: after any run, an entry whose job has a type, a submitter, and match and
      team IDs that parse is undelivered, pending, accepted by the processor, or in the dead-letter
      stream with its job intact; and an entry that does not decode never leaves the pending list. */
  lemma NothingLost(s: State, steps: seq<Step>, t: State, id: nat)
    requires Initial(s) && Run(s, steps) == Some(t) && id < |t.redis.stream|
    ensures var m := t.redis.stream[id];
            m.Decoded? && m.job.kind != "" && m.job.matchId.Uuid? && m.job.teamId.Uuid? && m.job.submittedById != "" ==>
              || t.redis.cursor <= id || id in t.redis.pending || id in t.succeeded
              || exists k | 0 <= k < |t.redis.dlq| :: t.redis.dlq[k].originalId == id && t.redis.dlq[k].job == m.job
    ensures !t.redis.stream[id].Decoded? ==> t.redis.cursor <= id || id in t.redis.pending
  {
    RunKeeps(s, steps, t);
    assert Accounted(t, id);
  }

  /** What an answered Enqueue has put into the stream stays there, under the ID returned; so a job with
      all its fields is never lost from then on. */
  lemma SubmittedIsNotLost(s: State, before: seq<Step>, t: State, job: Job, after: seq<Step>, u: State)
    requires Initial(s) && Run(s, before) == Some(t)
    requires Run(s, before + [Enqueue(Decoded(job), Done)] + after) == Some(u)
    requires job.kind != "" && job.matchId.Uuid? && job.teamId.Uuid? && job.submittedById != ""
    ensures var id := |t.redis.stream|;
            && id < |u.redis.stream| && u.redis.stream[id] == Decoded(job)
            && (|| u.redis.cursor <= id || id in u.redis.pending || id in u.succeeded
                || exists k | 0 <= k < |u.redis.dlq| :: u.redis.dlq[k].originalId == id && u.redis.dlq[k].job == job)
  {
    var enqueue, id := Enqueue(Decoded(job), Done), |t.redis.stream|;
    assert before + [enqueue] + after == before + ([enqueue] + after) && ([enqueue] + after)[1..] == after;
    RunJoins(s, before, t, [enqueue] + after);
    var v := Next(t, enqueue).value;
    assert v.redis.stream == t.redis.stream + [Decoded(job)];
    RunKeeps(s, before, t);
    StepKeeps(t, enqueue, v);
    RunKeeps(v, after, u);
    assert u.redis.stream[id] == v.redis.stream[id];
    NothingLost(s, before + [enqueue] + after, u, id);
  }

  lemma {:induction false} RunJoins(s: State, a: seq<Step>, t: State, b: seq<Step>)
    requires Run(s, a) == Some(t)
    ensures Run(s, a + b) == Run(t, b)
    decreases |a|
  {
    if a == [] {
      assert a + b == b;
    } else {
      RunJoins(Next(s, a[0]).value, a[1..], t, b);
      assert (a + b)[1..] == a[1..] + b;
    }
  }

  /** A well-formed entry leaves the pending list only once it is processed or dead-lettered, unless
      the operator destroys the group, and then it is undelivered again. */
  lemma LeavingPending(s: State, steps: seq<Step>, t: State, step: Step, u: State, id: nat)
    requires Initial(s) && Run(s, steps) == Some(t) && Next(t, step) == Some(u)
    requires id in t.redis.pending && id !in u.redis.pending
    requires id < |t.redis.stream| && ValidMessage(t.redis.stream[id])
    ensures if step.RecreateGroup? then u.redis.cursor <= id else id in u.succeeded || InDlq(u.redis, id)
  {
    RunKeeps(s, steps, t);
    StepKeeps(t, step, u);
    OnlyAcksForget(t, step, u, id);
  }

  lemma OnlyAcksForget(s: State, step: Step, t: State, id: nat)
    requires Inv(s) && Next(s, step) == Some(t) && Grows(s, t)
    requires id in s.redis.pending && id !in t.redis.pending
    requires id < |s.redis.stream| && ValidMessage(s.redis.stream[id])
    ensures if step.RecreateGroup? then t.redis.cursor == 0 else id in t.succeeded || InDlq(t.redis, id)
  {
    hide MarksOk, Accounted, InDlq, DeliveriesOk, WellFormed, KeyLive;
    match step
    case Reject(w, reply) => assert WorkerOk(s, s.workers[w]);
    case Work(w, ev) =>
      assert WorkerOk(s, s.workers[w]);
      WorkAcks(s, w, ev, t);
    case _ =>
  }

  /** A dedup key stands only for a job whose processor call and whose Ack both succeeded before. */
  lemma DedupKeysAreEarned(s: State, steps: seq<Step>, t: State, id: nat)
    requires Initial(s) && Run(s, steps) == Some(t) && id in t.redis.dedup
    ensures id in t.confirmed && id in t.succeeded
  {
    RunKeeps(s, steps, t);
  }

  /** What the examination of an entry leads to. One that does not decode is left pending. One without a
      type, a submitter or parsable match and team IDs, and one whose live dedup key Redis reports, goes
      on to be acknowledged; the latter has already been accepted. Every other is handed out. */
  lemma CheckDecides(s: State, steps: seq<Step>, t: State, w: nat, answered: bool, at: int, u: State)
    requires Initial(s) && Run(s, steps) == Some(t) && Next(t, Check(w, answered, at)) == Some(u)
    ensures var Filtering(todo, kept, _) := t.workers[w]; var id, m := todo[0], t.redis.stream[todo[0]];
            var whole := && m.Decoded? && m.job.kind != "" && m.job.submittedById != ""
                         && m.job.matchId.Uuid? && m.job.teamId.Uuid?;
            var live := answered && id in t.redis.dedup && at <= t.redis.dedup[id];
            && (!m.Decoded? <==> u.workers[w] == AfterMessage(todo[1..], kept))
            && (m.Decoded? && (!whole || live) <==> u.workers[w] == Filtering(todo, kept, true))
            && (whole && !live <==>
                 u.workers[w] == AfterMessage(todo[1..], kept + [Delivery(id, answered, at, |t.marks|)]))
            && (whole && live ==> id in u.succeeded)
  {
    RunKeeps(s, steps, t);
    var Filtering(todo, kept, _) := t.workers[w];
    HandedOnDiffers(todo, kept, Delivery(todo[0], answered, at, |t.marks|));
  }

  lemma HandedOnDiffers(todo: seq<nat>, kept: seq<Delivery>, d: Delivery)
    requires todo != []
    ensures AfterMessage(todo[1..], kept + [d]) != Filtering(todo, kept, true)
    ensures AfterMessage(todo[1..], kept) != Filtering(todo, kept, true)
    ensures AfterMessage(todo[1..], kept + [d]) != AfterMessage(todo[1..], kept)
  {
    assert kept + [d] != kept;
  }

  /** The k-th mark is of the delivered job and its key is still live, and it was made after the job's
      duplicate check if that check was answered. */
  predicate MarkedSinceCheck(s: State, d: Delivery, k: nat) {
    && k < |s.marks| && s.marks[k].id == d.id && s.now <= s.marks[k].at + DEDUP_TTL
    && (d.answered ==> d.marksSeen <= k)
  }

  /** The exact condition: a job is dispatched while its dedup key is live if and only if some mark of
      it is at most ten minutes old that its duplicate check did not see, because Redis did not answer
      or because the mark was made after the check. An answered check saw every mark made before it,
      and those were more than ten minutes old by then. */
  lemma DispatchWithLiveKeyIff(s: State, steps: seq<Step>, t: State, w: nat, ok: bool, u: State)
    requires Initial(s) && Run(s, steps) == Some(t) && Next(t, Work(w, Dispatched(ok))) == Some(u)
    ensures var d := t.workers[w].jobs[0];
            && (KeyLive(t.redis, d.id, t.now) <==> exists k :: MarkedSinceCheck(t, d, k))
            && (d.answered ==> forall k | 0 <= k < d.marksSeen && k < |t.marks| && t.marks[k].id == d.id ::
                  t.marks[k].at + DEDUP_TTL < d.at <= t.now)
  {
    RunKeeps(s, steps, t);
    var d := t.workers[w].jobs[0];
    assert WorkerOk(t, t.workers[w]);
    assert Cleared(t, d);
    if KeyLive(t.redis, d.id, t.now) {
      var k :| MarkExpires(t, k, d.id, t.redis.dedup[d.id]);
      assert MarkedSinceCheck(t, d, k);
    }
  }
}
