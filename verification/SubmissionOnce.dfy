/** What the pool keeps while no operator touches the consumer group: each entry is handed out once, so
    it is in one worker's hands at most and accepted at most once. */
module SubmissionOnce {
  import opened Wrappers
  import opened SubmissionProtocol

  function Ids(ds: seq<Delivery>): seq<nat> { seq(|ds|, i requires 0 <= i < |ds| => ds[i].id) }

  /** The entries in a worker's hands, in the order it will handle them once filtered. */
  function Hands(worker: Worker): seq<nat> {
    match worker
    case Idle => []
    case Filtering(todo, kept, _) => Ids(kept) + todo
    case Working(jobs, _) => Ids(jobs)
  }

  /** The worker's front entry has been accepted and is being acknowledged or marked. */
  predicate FrontAccepted(worker: Worker) { worker.Working? && (worker.phase.Acking? || worker.phase.Marking?) }

  predicate NoRepeats(ids: seq<nat>) { forall i, j | 0 <= i < j < |ids| :: ids[i] != ids[j] }

  predicate Disjoint(a: seq<nat>, b: seq<nat>) { forall i, j | 0 <= i < |a| && 0 <= j < |b| :: a[i] != b[j] }

  /** What a worker holds has been handed out, and of it only the front may have been accepted. */
  predicate HandsOk(s: State, worker: Worker) {
    var ids := Hands(worker);
    && NoRepeats(ids)
    && (forall i | 0 <= i < |ids| ::
         ids[i] < s.redis.cursor && (ids[i] in s.succeeded ==> i == 0 && FrontAccepted(worker)))
  }

  predicate OneHand(s: State) {
    forall w, v | 0 <= w < |s.workers| && 0 <= v < |s.workers| && w != v ::
      Disjoint(Hands(s.workers[w]), Hands(s.workers[v]))
  }

  predicate Once(s: State) {
    && s.redis.cursor <= |s.redis.stream| && OneHand(s)
    && (forall w | 0 <= w < |s.workers| :: HandsOk(s, s.workers[w]))
    && (forall id | id in s.succeeded :: id < s.redis.cursor)
  }

  // ---------------------------------------------------------------- one worker moves

  /** b is a, or a without the entry at place p, or nothing. */
  predicate Keeps(a: seq<nat>, b: seq<nat>, p: nat) { b == a || b == [] || (p < |a| && b == a[..p] + a[p + 1..]) }

  lemma KeptAreDisjoint(a: seq<nat>, b: seq<nat>, p: nat, other: seq<nat>)
    requires Keeps(a, b, p) && Disjoint(a, other)
    ensures Disjoint(b, other) && Disjoint(other, b)
  {}

  lemma KeptDoNotRepeat(a: seq<nat>, b: seq<nat>, p: nat)
    requires Keeps(a, b, p) && NoRepeats(a)
    ensures NoRepeats(b)
  {}

  /** A worker that hands on nothing new leaves every entry in one hand. */
  lemma OthersKeep(s: State, t: State, w: nat, p: nat)
    requires Once(s) && w < |s.workers| == |t.workers| && Keeps(Hands(s.workers[w]), Hands(t.workers[w]), p)
    requires forall v | 0 <= v < |s.workers| && v != w :: t.workers[v] == s.workers[v]
    ensures OneHand(t)
  {
    hide Hands, Keeps, Disjoint;
    forall x, y | 0 <= x < |t.workers| && 0 <= y < |t.workers| && x != y
      ensures Disjoint(Hands(t.workers[x]), Hands(t.workers[y]))
    {
      assert Disjoint(Hands(s.workers[x]), Hands(s.workers[y]));
      if x == w { KeptAreDisjoint(Hands(s.workers[w]), Hands(t.workers[w]), p, Hands(s.workers[y])); }
      if y == w {
        assert Disjoint(Hands(s.workers[w]), Hands(s.workers[x]));
        KeptAreDisjoint(Hands(s.workers[w]), Hands(t.workers[w]), p, Hands(s.workers[x]));
      }
    }
  }

  /** Nobody else's hands hold the accepted entry. */
  lemma OthersOk(s: State, t: State, w: nat)
    requires Once(s) && w < |s.workers| == |t.workers| && s.redis.cursor <= t.redis.cursor
    requires forall v | 0 <= v < |s.workers| && v != w :: t.workers[v] == s.workers[v]
    requires forall id | id in t.succeeded && id !in s.succeeded :: id in Hands(s.workers[w])
    ensures forall v | 0 <= v < |t.workers| && v != w :: HandsOk(t, t.workers[v])
  {
    hide Hands;
    forall v | 0 <= v < |t.workers| && v != w ensures HandsOk(t, t.workers[v]) {
      assert HandsOk(s, s.workers[v]) && Disjoint(Hands(s.workers[v]), Hands(s.workers[w]));
    }
  }

  // ---------------------------------------------------------------- the steps

  /** A delivery hands out entries that nobody holds and nobody has accepted. */
  lemma FreshIds(s: State, ids: seq<nat>)
    requires s.redis.cursor <= |s.redis.stream| && ids == Fresh(s.redis, BATCH_SIZE)
    ensures NoRepeats(ids) && forall i | 0 <= i < |ids| :: s.redis.cursor <= ids[i] < s.redis.cursor + |ids|
    ensures Hands(AfterMessage(ids, [])) == ids
  {}

  lemma ReadKeeps(s: State, w: nat, reply: Reply, t: State)
    requires Once(s) && ReadStep(s, w, reply) == Some(t)
    ensures Once(t)
  {
    var ids := Fresh(s.redis, BATCH_SIZE);
    FreshIds(s, ids);
    hide Hands, Fresh, FrontAccepted, AfterMessage;
    forall v | 0 <= v < |t.workers| ensures HandsOk(t, t.workers[v]) {
      if v != w || !reply.Done? { assert HandsOk(s, s.workers[v]); }
    }
    ReadsApart(s, w, reply, t, ids);
  }

  lemma ReadsApart(s: State, w: nat, reply: Reply, t: State, ids: seq<nat>)
    requires Once(s) && w < |s.workers| == |t.workers|
    requires forall v | 0 <= v < |s.workers| && v != w :: t.workers[v] == s.workers[v]
    requires Hands(t.workers[w]) == Hands(s.workers[w]) || Hands(t.workers[w]) == ids
    requires forall i | 0 <= i < |ids| :: s.redis.cursor <= ids[i]
    ensures OneHand(t)
  {
    hide Hands, FrontAccepted;
    forall x, y | 0 <= x < |t.workers| && 0 <= y < |t.workers| && x != y
      ensures Disjoint(Hands(t.workers[x]), Hands(t.workers[y]))
    {
      assert Disjoint(Hands(s.workers[x]), Hands(s.workers[y]));
      assert HandsOk(s, s.workers[x]) && HandsOk(s, s.workers[y]);
    }
  }

  /** After a message, the worker holds what it held, perhaps without that message. */
  lemma MessageHands(todo: seq<nat>, kept: seq<Delivery>, d: Delivery)
    requires todo != [] && d.id == todo[0]
    ensures Hands(AfterMessage(todo[1..], kept + [d])) == Ids(kept) + todo
    ensures Keeps(Ids(kept) + todo, Hands(AfterMessage(todo[1..], kept)), |kept|)
  {
    var held := Ids(kept) + todo;
    assert held[..|kept|] == Ids(kept) && held[|kept| + 1..] == todo[1..];
    assert Ids(kept + [d]) + todo[1..] == held;
    assert Ids(kept) + [] == Ids(kept);
  }

  lemma FilterKeeps(s: State, w: nat, step: Step, t: State)
    requires Once(s) && (step.Check? || step.Reject?) && step.w == w && Next(s, step) == Some(t)
    ensures Once(t)
  {
    var Filtering(todo, kept, _) := s.workers[w];
    MessageHands(todo, kept, Delivery(todo[0], step.Check? && step.answered, t.now, |s.marks|));
    assert HandsOk(s, s.workers[w]);
    hide Disjoint, AfterMessage, Ids, WellFormed, KeyLive;
    FilterHands(s, w, step, t);
    OthersKeep(s, t, w, |kept|);
    OthersOk(s, t, w);
    KeptDoNotRepeat(Hands(s.workers[w]), Hands(t.workers[w]), |kept|);
    StillUnaccepted(s, t, w, |kept|);
  }

  lemma FilterHands(s: State, w: nat, step: Step, t: State)
    requires (step.Check? || step.Reject?) && step.w == w && Next(s, step) == Some(t)
    ensures s.workers[w].Filtering? && Keeps(Hands(s.workers[w]), Hands(t.workers[w]), |s.workers[w].kept|)
    ensures t.succeeded == s.succeeded && t.redis.cursor == s.redis.cursor && t.redis.stream == s.redis.stream
    ensures |t.workers| == |s.workers| && forall v | 0 <= v < |s.workers| && v != w :: t.workers[v] == s.workers[v]
  {
    hide WellFormed, KeyLive;
    var Filtering(todo, kept, _) := s.workers[w];
    if step.Check? {
      MessageHands(todo, kept, Delivery(todo[0], step.answered, step.at, |s.marks|));
    } else {
      MessageHands(todo, kept, Delivery(todo[0], false, 0, 0));
    }
  }

  lemma StillUnaccepted(s: State, t: State, w: nat, p: nat)
    requires w < |s.workers| == |t.workers| && HandsOk(s, s.workers[w]) && !FrontAccepted(s.workers[w])
    requires Keeps(Hands(s.workers[w]), Hands(t.workers[w]), p)
    requires t.succeeded == s.succeeded && t.redis.cursor == s.redis.cursor
    ensures HandsOk(t, t.workers[w])
  {
    hide Hands;
    KeptDoNotRepeat(Hands(s.workers[w]), Hands(t.workers[w]), p);
  }

  /** A job's step: the worker keeps its jobs, or drops the front one; only a success accepts it. */
  lemma WorkHands(s: State, w: nat, ev: Event, t: State)
    requires WorkStep(s, w, ev) == Some(t)
    ensures s.workers[w].Working? && s.workers[w].jobs != [] && |t.workers| == |s.workers|
    ensures forall v | 0 <= v < |s.workers| && v != w :: t.workers[v] == s.workers[v]
    ensures t.redis.cursor == s.redis.cursor && t.redis.stream == s.redis.stream
    ensures t.succeeded == if ev == Dispatched(true) then s.succeeded + {s.workers[w].jobs[0].id} else s.succeeded
    ensures var held := Hands(s.workers[w]);
            && held[0] == s.workers[w].jobs[0].id
            && (|| (Hands(t.workers[w]) == held
                    && (FrontAccepted(t.workers[w]) <==> ev == Dispatched(true) || FrontAccepted(s.workers[w])))
                || (Hands(t.workers[w]) == held[1..] && ev != Dispatched(true)))
  {
    hide BackoffRequested, KnownKind;
    var jobs := s.workers[w].jobs;
    assert Ids(jobs[1..]) == Ids(jobs)[1..];
  }

  lemma WorkedHandsOk(s: State, w: nat, ev: Event, t: State)
    requires WorkStep(s, w, ev) == Some(t) && HandsOk(s, s.workers[w])
    ensures HandsOk(t, t.workers[w]) && Keeps(Hands(s.workers[w]), Hands(t.workers[w]), 0)
  {
    WorkHands(s, w, ev, t);
    hide Hands, WorkStep, FrontAccepted;
    var held := Hands(s.workers[w]);
    assert held[..0] + held[1..] == held[1..];
    KeptDoNotRepeat(held, Hands(t.workers[w]), 0);
  }

  lemma WorkKeeps(s: State, w: nat, ev: Event, t: State)
    requires Once(s) && WorkStep(s, w, ev) == Some(t)
    ensures Once(t)
  {
    WorkHands(s, w, ev, t);
    WorkedHandsOk(s, w, ev, t);
    assert HandsOk(s, s.workers[w]);
    hide Hands, WorkStep, FrontAccepted, Disjoint, Keeps;
    OthersKeep(s, t, w, 0);
    OthersOk(s, t, w);
  }

  lemma SameWorkers(s: State, t: State)
    requires Once(s) && t.workers == s.workers && t.succeeded == s.succeeded && t.redis.cursor == s.redis.cursor
    ensures forall v | 0 <= v < |t.workers| :: HandsOk(t, t.workers[v])
  {
    forall v | 0 <= v < |t.workers| ensures HandsOk(t, t.workers[v]) { assert HandsOk(s, s.workers[v]); }
  }

  lemma StepKeeps(s: State, step: Step, t: State)
    requires Once(s) && !Environment(step) && Next(s, step) == Some(t)
    ensures Once(t) && s.succeeded <= t.succeeded
  {
    match step
    case Read(w, reply) => ReadKeeps(s, w, reply, t);
    case Check(w, _, _) => FilterKeeps(s, w, step, t); FilterHands(s, w, step, t);
    case Reject(w, _) => FilterKeeps(s, w, step, t); FilterHands(s, w, step, t);
    case Work(w, ev) => WorkKeeps(s, w, ev, t); WorkHands(s, w, ev, t);
    case Crash(w) =>
      OthersKeep(s, t, w, 0);
      OthersOk(s, t, w);
    case Enqueue(_, _) => SameWorkers(s, t);
    case Tick(_) => SameWorkers(s, t);
    case _ =>
  }

  // ---------------------------------------------------------------- over every run

  predicate Unattended(steps: seq<Step>) { forall i | 0 <= i < |steps| :: !Environment(steps[i]) }

  lemma {:induction false} RunKeeps(s: State, steps: seq<Step>, t: State)
    requires Once(s) && Unattended(steps) && Run(s, steps) == Some(t)
    ensures Once(t) && s.succeeded <= t.succeeded
    decreases |steps|
  {
    if steps != [] {
      var u := Next(s, steps[0]).value;
      StepKeeps(s, steps[0], u);
      RunKeeps(u, steps[1..], t);
    }
  }

  lemma {:induction false} RunSplits(s: State, a: seq<Step>, b: seq<Step>)
    requires Run(s, a + b).Some?
    ensures Run(s, a).Some? && Run(Run(s, a).value, b) == Run(s, a + b)
    decreases |a|
  {
    if a == [] {
      assert a + b == b;
    } else {
      assert (a + b)[1..] == a[1..] + b;
      RunSplits(Next(s, a[0]).value, a[1..], b);
    }
  }

  lemma Begins(s: State)
    requires Initial(s)
    ensures Once(s)
  {}

  /** While no operator replays or recreates the group, no entry is in two hands or twice in one, and no
      entry that has been accepted is dispatched. */
  lemma NoEntryInTwoHands(s: State, steps: seq<Step>, t: State)
    requires Initial(s) && Unattended(steps) && Run(s, steps) == Some(t)
    ensures forall w, v, i, j | 0 <= w < |t.workers| && 0 <= v < |t.workers| && (w != v || i != j)
              && 0 <= i < |Hands(t.workers[w])| && 0 <= j < |Hands(t.workers[v])| ::
              Hands(t.workers[w])[i] != Hands(t.workers[v])[j]
    ensures forall w | 0 <= w < |t.workers| && t.workers[w].Working? && t.workers[w].phase.Dispatching?
              && t.workers[w].jobs != [] :: t.workers[w].jobs[0].id !in t.succeeded
  {
    Begins(s);
    RunKeeps(s, steps, t);
    hide Hands;
    forall w, v, i, j | 0 <= w < |t.workers| && 0 <= v < |t.workers| && (w != v || i != j)
      && 0 <= i < |Hands(t.workers[w])| && 0 <= j < |Hands(t.workers[v])|
      ensures Hands(t.workers[w])[i] != Hands(t.workers[v])[j]
    {
      assert HandsOk(t, t.workers[w]) && (w != v ==> Disjoint(Hands(t.workers[w]), Hands(t.workers[v])));
    }
    forall w | 0 <= w < |t.workers| && t.workers[w].Working? && t.workers[w].phase.Dispatching?
      && t.workers[w].jobs != [] ensures t.workers[w].jobs[0].id !in t.succeeded
    {
      assert HandsOk(t, t.workers[w]);
      FrontIsFirst(t.workers[w]);
    }
  }

  lemma FrontIsFirst(worker: Worker)
    requires worker.Working? && worker.jobs != []
    ensures Hands(worker) != [] && Hands(worker)[0] == worker.jobs[0].id
  {}

  /** Step n of the run accepts the entry. */
  predicate AcceptsAt(s: State, steps: seq<Step>, n: nat, id: nat) {
    && n < |steps| && steps[n].Work? && steps[n].event == Dispatched(true)
    && Run(s, steps[..n]).Some?
    && var t := Run(s, steps[..n]).value;
       steps[n].w < |t.workers| && t.workers[steps[n].w].Working? && t.workers[steps[n].w].jobs != []
       && t.workers[steps[n].w].jobs[0].id == id
  }

  /** So each job is accepted at most once. */
  lemma AcceptedAtMostOnce(s: State, steps: seq<Step>, id: nat, m: nat, n: nat)
    requires Initial(s) && Unattended(steps) && Run(s, steps).Some?
    requires AcceptsAt(s, steps, m, id) && AcceptsAt(s, steps, n, id)
    ensures m == n
  {
    if m < n { AcceptedBefore(s, steps, id, m, id, n); }
    if n < m { AcceptedBefore(s, steps, id, n, id, m); }
  }

  lemma AcceptedBefore(s: State, steps: seq<Step>, id: nat, m: nat, next: nat, n: nat)
    requires Initial(s) && Unattended(steps) && Run(s, steps).Some? && m < n
    requires AcceptsAt(s, steps, m, id) && AcceptsAt(s, steps, n, next)
    ensures id != next
  {
    var later := Run(s, steps[..n]).value;
    StaysAccepted(s, steps, id, m, n);
    assert steps[..n] + steps[n..] == steps && steps[n..][0] == steps[n];
    RunSplits(s, steps[..n], steps[n..]);
    NoEntryInTwoHands(s, steps[..n], later);
    hide Run, Hands;
    assert later.workers[steps[n].w].phase.Dispatching?;
  }

  lemma StaysAccepted(s: State, steps: seq<Step>, id: nat, m: nat, n: nat)
    requires Initial(s) && Unattended(steps) && m < n <= |steps| && Run(s, steps[..n]).Some?
    requires AcceptsAt(s, steps, m, id)
    ensures id in Run(s, steps[..n]).value.succeeded
  {
    var at, later, between := Run(s, steps[..m]).value, Run(s, steps[..n]).value, steps[m..n];
    assert steps[..n] == steps[..m] + between && between[0] == steps[m] && between[1..] == steps[m + 1..n];
    RunSplits(s, steps[..m], between);
    var u := Next(at, steps[m]).value;
    Begins(s);
    RunKeeps(s, steps[..m], at);
    StepKeeps(at, steps[m], u);
    RunKeeps(u, steps[m + 1..n], later);
  }
}
