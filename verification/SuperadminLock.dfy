/** Changing roles and deleting users while never losing the last superadmin.

    Every database or Redis call of a request is one step, and the steps of any number of requests
    interleave.  Demoting a superadmin is guarded by a Redis lock with a lifetime; every other
    change reads the role and writes later, without the lock. */
module SuperadminLock {
  import opened Wrappers
  import opened FiniteSets

  datatype Role = Player | Coach | Referee | Admin | SuperAdmin

  const LOCK_TTL := 5_000                 // milliseconds

  datatype Change = SetRole(target: nat, role: Role) | Delete(target: nat)

  datatype Phase =
    | Arrived
    | Unlocked                      // read a role that needs no lock; will write
    | Locking                       // read a superadmin to demote; will SetNX
    | Counting(deadline: int)       // holds the lock; will count superadmins
    | Updating(deadline: int)       // counted more than one; will write
    | Comparing(deadline: int)      // releasing: will GET the lock value
    | Removing(deadline: int)       // releasing: saw its own value; will DEL
    | Finished

  datatype Request = Request(change: Change, phase: Phase)

  /** The lock's value is unique to its request: the request's index stands for it. */
  datatype Lock = Lock(owner: nat, expiry: int)

  datatype State = State(roles: map<nat, Role>, lock: Option<Lock>, now: int, requests: seq<Request>)

  datatype Step =
    | Arrive(change: Change)
    | Create(user: nat, role: Role)
    | Read(i: nat, ok: bool)
    | Write(i: nat, reply: Reply)
    | SetNX(i: nat, reply: Reply)
    | Count(i: nat, ok: bool)
    | Update(i: nat, reply: Reply)
    | Get(i: nat, ok: bool)
    | Del(i: nat, reply: Reply)
    | Tick(to: int)

  function Superadmins(roles: map<nat, Role>): set<nat> { set u | u in roles && roles[u] == SuperAdmin }

  function Apply(roles: map<nat, Role>, change: Change): map<nat, Role> {
    match change
    case SetRole(target, role) => if target in roles then roles[target := role] else roles
    case Delete(target) => roles - {target}
  }

  predicate Demotes(change: Change) { change.Delete? || change.role != SuperAdmin }

  predicate LockLive(s: State) { s.lock.Some? && s.now <= s.lock.value.expiry }

  function Move(s: State, i: nat, phase: Phase): State
    requires i < |s.requests|
  {
    s.(requests := s.requests[i := s.requests[i].(phase := phase)])
  }

  function ReadStep(s: State, i: nat, ok: bool): State
    requires i < |s.requests|
  {
    var change := s.requests[i].change;
    if !ok || change.target !in s.roles then Move(s, i, Finished)
    else if s.roles[change.target] == SuperAdmin && Demotes(change) then
      Move(s, i, if change.Delete? then Finished else Locking)
    else Move(s, i, Unlocked)
  }

  function SetNXStep(s: State, i: nat, reply: Reply): State
    requires i < |s.requests|
  {
    if reply.Refused? || LockLive(s) then Move(s, i, Finished)
    else
      var t := s.(lock := Some(Lock(i, s.now + LOCK_TTL)));
      Move(t, i, if reply.Done? then Counting(s.now + LOCK_TTL) else Finished)
  }

  function WriteStep(s: State, i: nat, reply: Reply, next: Phase): State
    requires i < |s.requests|
  {
    Move(if reply.Refused? then s else s.(roles := Apply(s.roles, s.requests[i].change)), i, next)
  }

  function GetStep(s: State, i: nat, ok: bool, deadline: int): State
    requires i < |s.requests|
  {
    Move(s, i, if ok && LockLive(s) && s.lock.value.owner == i then Removing(deadline) else Finished)
  }

  function RequestStep(s: State, step: Step): Option<State>
    requires !(step.Arrive? || step.Create? || step.Tick?)
  {
    var i := step.i;
    if i >= |s.requests| then None
    else match (step, s.requests[i].phase)
      case (Read(_, ok), Arrived) => Some(ReadStep(s, i, ok))
      case (Write(_, reply), Unlocked) => Some(WriteStep(s, i, reply, Finished))
      case (SetNX(_, reply), Locking) => Some(SetNXStep(s, i, reply))
      case (Count(_, ok), Counting(d)) =>
        Some(Move(s, i, if ok && |Superadmins(s.roles)| > 1 then Updating(d) else Comparing(d)))
      case (Update(_, reply), Updating(d)) => Some(WriteStep(s, i, reply, Comparing(d)))
      case (Get(_, ok), Comparing(d)) => Some(GetStep(s, i, ok, d))
      case (Del(_, reply), Removing(_)) =>
        Some(Move(if reply.Refused? then s else s.(lock := None), i, Finished))
      case _ => None
  }

  function Next(s: State, step: Step): Option<State> {
    match step
    case Arrive(change) => Some(s.(requests := s.requests + [Request(change, Arrived)]))
    case Create(user, role) =>
      if user in s.roles || role == SuperAdmin then None else Some(s.(roles := s.roles[user := role]))
    case Tick(to) => if s.now <= to then Some(s.(now := to)) else None
    case _ => RequestStep(s, step)
  }

  // ---------------------------------------------------------------- the assumptions

  predicate Critical(r: Request) { r.phase.Counting? || r.phase.Updating? || r.phase.Comparing? || r.phase.Removing? }

  /** Every lock holder is still inside its lock's lifetime. */
  predicate Punctual(s: State) {
    forall i | 0 <= i < |s.requests| :: Critical(s.requests[i]) ==> s.now <= s.requests[i].phase.deadline
  }

  /** An unlocked write that lands on a user who has become a superadmin since the role was read. */
  predicate StaleWrite(s: State, step: Step) {
    && step.Write? && step.i < |s.requests| && !step.reply.Refused?
    && var change := s.requests[step.i].change;
       Demotes(change) && change.target in s.roles && s.roles[change.target] == SuperAdmin
  }

  /** A stale write that matters: it takes the last superadmin, or the last but one while a request that
      has counted two is about to demote another. */
  predicate HarmfulWrite(s: State, step: Step) {
    && StaleWrite(s, step)
    && (|Superadmins(s.roles)| <= 1 || (|Superadmins(s.roles)| == 2 && SomeoneUpdating(s)))
  }

  predicate SomeoneUpdating(s: State) { exists i | 0 <= i < |s.requests| :: s.requests[i].phase.Updating? }

  /** A run in which holders are punctual throughout, up to and including its end. */
  predicate PunctualRun(s: State, steps: seq<Step>)
    decreases |steps|
  {
    Punctual(s) && (steps != [] ==> Next(s, steps[0]).Some? && PunctualRun(Next(s, steps[0]).value, steps[1..]))
  }

  /** A punctual run without harmful writes. */
  predicate GoodRun(s: State, steps: seq<Step>)
    decreases |steps|
  {
    && Punctual(s)
    && (steps != [] ==>
         !HarmfulWrite(s, steps[0]) && Next(s, steps[0]).Some? && GoodRun(Next(s, steps[0]).value, steps[1..]))
  }

  function Run(s: State, steps: seq<Step>): Option<State>
    decreases |steps|
  {
    if steps == [] then Some(s)
    else match Next(s, steps[0])
      case None => None
      case Some(t) => Run(t, steps[1..])
  }

  // ---------------------------------------------------------------- the invariant

  /** Whoever is in the critical section holds the lock; deletes never take it. */
  predicate Owned(s: State) {
    forall i | 0 <= i < |s.requests| ::
      && (s.requests[i].phase.Locking? || Critical(s.requests[i]) ==> s.requests[i].change.SetRole?)
      && (Critical(s.requests[i]) ==> s.lock == Some(Lock(i, s.requests[i].phase.deadline)))
  }

  /** Nobody updates unless one superadmin will be left. */
  predicate CountStands(s: State) {
    forall i | 0 <= i < |s.requests| :: s.requests[i].phase.Updating? ==> |Superadmins(s.roles)| >= 2
  }

  predicate Inv(s: State) { Superadmins(s.roles) != {} && Owned(s) && CountStands(s) }

  /** A change takes at most its target out of the superadmins. */
  lemma ApplySuperadmins(roles: map<nat, Role>, change: Change)
    ensures Superadmins(roles) - {change.target} <= Superadmins(Apply(roles, change))
    ensures !Demotes(change) || change.target !in Superadmins(roles) ==>
              Superadmins(roles) <= Superadmins(Apply(roles, change))
    ensures Demotes(change) ==> Superadmins(Apply(roles, change)) == Superadmins(roles) - {change.target}
  {}

  /** Only an Update under the lock and a stale write can shrink the superadmins. */
  lemma SuperadminsStay(s: State, step: Step, t: State)
    requires Next(s, step) == Some(t) && !StaleWrite(s, step) && !step.Update?
    ensures Superadmins(s.roles) <= Superadmins(t.roles)
  {
    if step.Write? { ApplySuperadmins(s.roles, s.requests[step.i].change); }
  }

  /** Mutual exclusion needs punctual holders only. */
  lemma OwnedStep(s: State, step: Step, t: State)
    requires Owned(s) && Punctual(s) && Next(s, step) == Some(t)
    ensures Owned(t)
  {
    hide Superadmins, Apply;
    forall j | 0 <= j < |t.requests|
      ensures t.requests[j].phase.Locking? || Critical(t.requests[j]) ==> t.requests[j].change.SetRole?
      ensures Critical(t.requests[j]) ==> t.lock == Some(Lock(j, t.requests[j].phase.deadline))
    {
      assert j < |s.requests| ==> (Critical(s.requests[j]) ==> s.now <= s.requests[j].phase.deadline);
    }
  }

  lemma OneHolder(s: State, i: nat, j: nat)
    requires Owned(s) && i < |s.requests| && j < |s.requests| && Critical(s.requests[i]) && Critical(s.requests[j])
    ensures i == j
  {}

  /** The superadmins a stale write leaves. */
  lemma StaleWriteTakesOne(s: State, step: Step, t: State)
    requires Next(s, step) == Some(t) && StaleWrite(s, step)
    ensures |Superadmins(t.roles)| == |Superadmins(s.roles)| - 1
    ensures forall i | 0 <= i < |t.requests| :: t.requests[i].phase.Updating? <==> s.requests[i].phase.Updating?
  {
    ApplySuperadmins(s.roles, s.requests[step.i].change);
    assert s.requests[step.i].change.target in Superadmins(s.roles);
  }

  lemma CountStandsStep(s: State, step: Step, t: State)
    requires Inv(s) && Next(s, step) == Some(t) && Superadmins(s.roles) <= Superadmins(t.roles)
    ensures CountStands(t)
  {
    SubsetSize(Superadmins(s.roles), Superadmins(t.roles));
    hide Superadmins, Apply;
    forall j | 0 <= j < |t.requests| && t.requests[j].phase.Updating? ensures |Superadmins(t.roles)| >= 2 {
      assert j < |s.requests|;
    }
  }

  /** A lock holder's update: afterwards nobody is updating. */
  lemma UpdateStep(s: State, step: Step, t: State)
    requires Inv(s) && step.Update? && Next(s, step) == Some(t)
    ensures Superadmins(t.roles) != {} && CountStands(t)
  {
    ApplySuperadmins(s.roles, s.requests[step.i].change);
    NotTheLast(Superadmins(s.roles), s.requests[step.i].change.target);
    hide Superadmins, Apply;
    forall j | 0 <= j < |t.requests| ensures !t.requests[j].phase.Updating? {
      if Critical(s.requests[j]) { OneHolder(s, step.i, j); }
    }
  }

  /** A punctual step keeps the invariant if and only if it is not a harmful write. */
  lemma StepKeeps(s: State, step: Step, t: State)
    requires Inv(s) && Punctual(s) && Next(s, step) == Some(t)
    ensures Inv(t) <==> !HarmfulWrite(s, step)
  {
    OwnedStep(s, step, t);
    if StaleWrite(s, step) {
      StaleWriteTakesOne(s, step, t);
    } else if step.Update? {
      UpdateStep(s, step, t);
    } else {
      SuperadminsStay(s, step, t);
      CountStandsStep(s, step, t);
    }
  }

  lemma NotTheLast<T>(a: set<T>, x: T)
    requires |a| >= 2
    ensures a - {x} != {}
  {
    if a - {x} == {} { SubsetSize(a, {x}); }
  }

  // ---------------------------------------------------------------- theorems

  /** Whatever the interleaving, as long as holders are punctual and no unlocked write is harmful,
      there is a superadmin; at most one request is in the critical section; and a release deletes
      only the releasing request's own lock. */
  lemma SuperadminsSurvive(s: State, steps: seq<Step>, t: State)
    requires (exists u | u in s.roles :: s.roles[u] == SuperAdmin) && s.requests == []
    requires GoodRun(s, steps) && Run(s, steps) == Some(t)
    ensures exists u | u in t.roles :: t.roles[u] == SuperAdmin
    ensures forall i, j | 0 <= i < |t.requests| && 0 <= j < |t.requests| ::
              Critical(t.requests[i]) && Critical(t.requests[j]) ==> i == j
    ensures forall i | 0 <= i < |t.requests| ::
              t.requests[i].phase.Removing? ==> t.lock.Some? && t.lock.value.owner == i
  {
    var first :| first in s.roles && s.roles[first] == SuperAdmin;
    assert first in Superadmins(s.roles);
    InvAlways(s, steps, t);
    var u :| u in Superadmins(t.roles);
  }

  lemma InvAlways(s: State, steps: seq<Step>, t: State)
    requires Inv(s) && GoodRun(s, steps) && Run(s, steps) == Some(t)
    ensures Inv(t)
    decreases |steps|
  {
    if steps != [] {
      var u := Next(s, steps[0]).value;
      StepKeeps(s, steps[0], u);
      InvAlways(u, steps[1..], t);
    }
  }

  /** What an applied write does: it gives its target, if there is one, exactly the role asked for, or
      deletes it, and leaves everybody else alone; no other step but a new user's arrival touches a role. */
  lemma WritesAreAsAsked(s: State, step: Step, t: State)
    requires Next(s, step) == Some(t)
    ensures (step.Write? || step.Update?) && !step.reply.Refused? ==>
              match s.requests[step.i].change
              case SetRole(target, role) => t.roles == if target in s.roles then s.roles[target := role] else s.roles
              case Delete(target) => t.roles == s.roles - {target}
    ensures (step.Write? || step.Update?) && step.reply.Refused? ==> t.roles == s.roles
    ensures !step.Write? && !step.Update? && !step.Create? ==> t.roles == s.roles
    ensures step.Create? ==>
              step.user !in s.roles && step.role != SuperAdmin && t.roles == s.roles[step.user := step.role]
    ensures t.now == if step.Tick? then step.to else s.now
    ensures step.SetNX? && t.lock != s.lock ==> t.lock == Some(Lock(step.i, s.now + 5_000))
  {}

  // ---------------------------------------------------------------- who takes the last superadmin

  function StateAt(s: State, steps: seq<Step>, n: nat): State
    requires n <= |steps| && Run(s, steps[..n]).Some?
  {
    Run(s, steps[..n]).value
  }

  /** An applied write, with or without the lock, that demotes or deletes a superadmin. */
  predicate TakesSuperadmin(s: State, step: Step) {
    && (step.Write? || step.Update?) && step.i < |s.requests| && !step.reply.Refused?
    && Demotes(s.requests[step.i].change) && s.requests[step.i].change.target in Superadmins(s.roles)
  }

  /** Request i counted at step k, and a stale write followed at step m. */
  predicate StaleSinceCount(s: State, steps: seq<Step>, i: nat, k: nat, m: nat) {
    && k < m < |steps| && steps[k] == Count(i, true)
    && Run(s, steps[..m]).Some? && StaleWrite(StateAt(s, steps, m), steps[m])
  }

  lemma {:induction false} RunInit(s: State, steps: seq<Step>, t: State)
    requires steps != [] && Run(s, steps) == Some(t)
    ensures var init := steps[..|steps| - 1];
            && Run(s, init).Some? && Next(Run(s, init).value, steps[|steps| - 1]) == Some(t)
            && (PunctualRun(s, steps) ==> PunctualRun(s, init) && Punctual(Run(s, init).value))
    decreases |steps|
  {
    if |steps| == 1 {
      assert steps[1..] == [];
    } else {
      var u := Next(s, steps[0]).value;
      RunInit(u, steps[1..], t);
      var init := steps[..|steps| - 1];
      assert init[1..] == steps[1..][..|steps| - 2];
    }
  }

  lemma {:induction false} OwnedAlways(s: State, steps: seq<Step>, t: State)
    requires Owned(s) && PunctualRun(s, steps) && Run(s, steps) == Some(t)
    ensures Owned(t) && Punctual(t)
    decreases |steps|
  {
    if steps != [] {
      var u := Next(s, steps[0]).value;
      OwnedStep(s, steps[0], u);
      OwnedAlways(u, steps[1..], t);
    }
  }

  /** A request about to update has counted, and since then two superadmins stayed, or a stale write
      came in between. */
  lemma {:induction false} CountedTwo(s: State, steps: seq<Step>, t: State, i: nat) returns (k: nat, m: nat)
    requires s.requests == [] && PunctualRun(s, steps) && Run(s, steps) == Some(t)
    requires i < |t.requests| && t.requests[i].phase.Updating?
    ensures k < |steps| && steps[k] == Count(i, true)
    ensures |Superadmins(t.roles)| >= 2 || StaleSinceCount(s, steps, i, k, m)
    decreases |steps|
  {
    RunInit(s, steps, t);
    var init, last := steps[..|steps| - 1], steps[|steps| - 1];
    var u := Run(s, init).value;
    OwnedAlways(s, init, u);
    if i < |u.requests| && u.requests[i].phase.Updating? {
      k, m := CountedTwo(s, init, u, i);
      if StaleSinceCount(s, init, i, k, m) {
        assert steps[..m] == init[..m];
      } else if StaleWrite(u, last) {
        m := |init|;
      } else {
        NobodyElseUpdates(u, last, t, i);
        SuperadminsStay(u, last, t);
        SubsetSize(Superadmins(u.roles), Superadmins(t.roles));
      }
    } else {
      CountIsLast(u, last, t, i);
      k, m := |init|, 0;
    }
  }

  lemma NobodyElseUpdates(s: State, step: Step, t: State, i: nat)
    requires Owned(s) && Next(s, step) == Some(t) && i < |s.requests| && i < |t.requests|
    requires s.requests[i].phase.Updating? && t.requests[i].phase.Updating?
    ensures !step.Update?
  {
    if step.Update? { OneHolder(s, step.i, i); }
  }

  lemma CountIsLast(s: State, step: Step, t: State, i: nat)
    requires Next(s, step) == Some(t) && i < |t.requests| && t.requests[i].phase.Updating?
    requires !(i < |s.requests| && s.requests[i].phase.Updating?)
    ensures step == Count(i, true) && |Superadmins(t.roles)| >= 2
  {}

  /** The exact condition, over every punctual run: the next step removes the last superadmin if and
      only if one is left and the step is an applied write that demotes it. Then it is a stale write
      itself, or an update under the lock with a stale write since that request's count. */
  lemma LastSuperadminLostIff(s: State, steps: seq<Step>, t: State, step: Step, u: State) returns (k: nat, m: nat)
    requires s.requests == [] && PunctualRun(s, steps) && Run(s, steps) == Some(t)
    requires Superadmins(t.roles) != {} && Next(t, step) == Some(u)
    ensures Superadmins(u.roles) == {} <==> |Superadmins(t.roles)| == 1 && TakesSuperadmin(t, step)
    ensures Superadmins(u.roles) == {} <==> forall id | id in u.roles :: u.roles[id] != SuperAdmin
    ensures Superadmins(u.roles) == {} ==>
              StaleWrite(t, step) || (step.Update? && StaleSinceCount(s, steps, step.i, k, m))
  {
    k, m := 0, 0;
    LostStep(t, step, u);
    if step.Update? && |Superadmins(t.roles)| == 1 {
      k, m := CountedTwo(s, steps, t, step.i);
    }
  }

  lemma LostStep(t: State, step: Step, u: State)
    requires Superadmins(t.roles) != {} && Next(t, step) == Some(u)
    ensures Superadmins(u.roles) == {} <==> |Superadmins(t.roles)| == 1 && TakesSuperadmin(t, step)
    ensures TakesSuperadmin(t, step) && step.Write? ==> StaleWrite(t, step)
  {
    if TakesSuperadmin(t, step) {
      var change := t.requests[step.i].change;
      ApplySuperadmins(t.roles, change);
      if |Superadmins(t.roles)| == 1 {
        OnlyOne(Superadmins(t.roles), change.target);
      } else {
        SubsetSize({change.target}, Superadmins(t.roles));
        NotTheLast(Superadmins(t.roles), change.target);
      }
    } else if step.Update? || step.Write? {
      ApplySuperadmins(t.roles, t.requests[step.i].change);
    } else {
      SuperadminsStay(t, step, u);
    }
  }

  lemma OnlyOne<T>(a: set<T>, x: T)
    requires x in a && |a| == 1
    ensures a == {x}
  {
    assert |a - {x}| == 0;
  }

  /** A request that writes right after its read is never stale. */
  lemma UninterruptedWritesAreFresh(s: State, i: nat, t: State, reply: Reply)
    requires Next(s, Read(i, true)) == Some(t) && t.requests[i].phase == Unlocked
    ensures !StaleWrite(t, Write(i, reply))
  {}

  // ---------------------------------------------------------------- what goes wrong otherwise

  /** Extend a run by a step. */
  lemma {:induction false} Then(s: State, steps: seq<Step>, t: State, step: Step) returns (steps': seq<Step>, u: State)
    requires Run(s, steps) == Some(t) && Next(t, step).Some?
    ensures Run(s, steps') == Some(u) && Next(t, step) == Some(u)
    decreases |steps|
  {
    if steps == [] {
      steps', u := [step], Next(t, step).value;
      assert steps'[1..] == [];
    } else {
      var rest;
      rest, u := Then(Next(s, steps[0]).value, steps[1..], t, step);
      steps' := [steps[0]] + rest;
      assert steps'[1..] == rest;
    }
  }

  /** Superadmin 1 alone sets out to make player 2 a coach (request 0); before that write, 1 promotes 2
      (request 1), and 2, now a superadmin, asks to demote 1 (request 2). */
  lemma PromotedMeanwhile() returns (s: State, steps: seq<Step>, t: State)
    ensures Superadmins(s.roles) == {1} && s.requests == [] && s.now == 0 && Run(s, steps) == Some(t)
    ensures t == State(map[1 := SuperAdmin, 2 := SuperAdmin], None, 0,
      [Request(SetRole(2, Coach), Unlocked), Request(SetRole(2, SuperAdmin), Finished),
       Request(SetRole(1, Player), Arrived)])
  {
    s := State(map[1 := SuperAdmin, 2 := Player], None, 0, []);
    steps, t := [], s;
    assert Run(s, steps) == Some(t) && Superadmins(s.roles) == {1};
    hide Run, Superadmins;
    steps, t := Then(s, steps, t, Arrive(SetRole(2, Coach)));
    steps, t := Then(s, steps, t, Read(0, true));
    steps, t := Then(s, steps, t, Arrive(SetRole(2, SuperAdmin)));
    steps, t := Then(s, steps, t, Read(1, true));
    steps, t := Then(s, steps, t, Write(1, Done));
    steps, t := Then(s, steps, t, Arrive(SetRole(1, Player)));
  }

  /** Then request 2 counts two superadmins under the lock. */
  lemma TwoCounted(s: State, steps0: seq<Step>, t0: State) returns (steps: seq<Step>, t: State)
    requires Run(s, steps0) == Some(t0) && t0.roles == map[1 := SuperAdmin, 2 := SuperAdmin] && t0.lock == None
    requires |t0.requests| == 3 && t0.requests[2] == Request(SetRole(1, Player), Arrived)
    ensures Run(s, steps) == Some(t) && t.roles == t0.roles && t.now == t0.now
    ensures |t.requests| == 3 && t.requests[0] == t0.requests[0]
    ensures t.requests[2] == Request(SetRole(1, Player), Updating(t0.now + LOCK_TTL))
  {
    assert Superadmins(t0.roles) == {1, 2};
    hide Run, Superadmins;
    steps, t := Then(s, steps0, t0, Read(2, true));
    steps, t := Then(s, steps, t, SetNX(2, Done));
    steps, t := Then(s, steps, t, Count(2, true));
  }

  /** Request 2 updates first, and the late unlocked write of request 0 takes the role of the only
      superadmin, although every lock is respected. */
  lemma StaleWriteLosesTheLast() returns (s: State, steps: seq<Step>, t: State)
    ensures Superadmins(s.roles) == {1} && s.requests == [] && Run(s, steps) == Some(t)
    ensures Superadmins(t.roles) == {} && t.now == s.now
  {
    s, steps, t := PromotedMeanwhile();
    hide Run;
    steps, t := TwoCounted(s, steps, t);
    steps, t := Then(s, steps, t, Update(2, Done));
    steps, t := Then(s, steps, t, Write(0, Done));
  }

  /** Or request 0 writes first, and the update under the lock takes the last superadmin: its count
      of two no longer stands. */
  lemma UpdateLosesTheLast() returns (s: State, steps: seq<Step>, t: State, u: State)
    ensures Superadmins(s.roles) == {1} && s.requests == [] && Run(s, steps) == Some(t)
    ensures Next(t, Update(2, Done)) == Some(u) && Superadmins(u.roles) == {} && u.now == s.now
  {
    s, steps, t := PromotedMeanwhile();
    hide Run;
    steps, t := TwoCounted(s, steps, t);
    steps, t := Then(s, steps, t, Write(0, Done));
    u := Next(t, Update(2, Done)).value;
  }

  /** A holder that outlives its lock: both demotions count two superadmins and both go through. */
  lemma LateHolderLosesTheLast() returns (s: State, steps: seq<Step>, t: State)
    ensures Superadmins(s.roles) == {1, 2} && s.requests == [] && Run(s, steps) == Some(t)
    ensures Superadmins(t.roles) == {}
  {
    s := State(map[1 := SuperAdmin, 2 := SuperAdmin], None, 0, []);
    assert Superadmins(s.roles) == {1, 2};
    steps, t := [], s;
    assert Run(s, steps) == Some(t);
    hide Run, Superadmins;
    steps, t := Then(s, steps, t, Arrive(SetRole(1, Player)));
    steps, t := Then(s, steps, t, Arrive(SetRole(2, Player)));
    steps, t := Then(s, steps, t, Read(0, true));
    steps, t := Then(s, steps, t, Read(1, true));
    assert t == State(s.roles, None, 0, [Request(SetRole(1, Player), Locking), Request(SetRole(2, Player), Locking)]);
    steps, t := BothHold(s, steps, t);
    steps, t := BothWrite(s, steps, t);
  }

  lemma BothWrite(s: State, steps0: seq<Step>, t0: State) returns (steps: seq<Step>, t: State)
    requires Run(s, steps0) == Some(t0) && t0.roles == map[1 := SuperAdmin, 2 := SuperAdmin] && |t0.requests| == 2
    requires forall i | 0 <= i < 2 :: t0.requests[i].phase.Updating? && t0.requests[i].change == SetRole(i + 1, Player)
    ensures Run(s, steps) == Some(t) && Superadmins(t.roles) == {}
  {
    hide Run;
    steps, t := Then(s, steps0, t0, Update(0, Done));
    steps, t := Then(s, steps, t, Update(1, Done));
    assert t.roles == map[1 := Player, 2 := Player];
  }

  lemma BothHold(s: State, steps0: seq<Step>, t0: State) returns (steps: seq<Step>, t: State)
    requires Run(s, steps0) == Some(t0) && |Superadmins(t0.roles)| == 2 && t0.lock == None && |t0.requests| == 2
    requires forall i | 0 <= i < 2 :: t0.requests[i].phase == Locking
    ensures Run(s, steps) == Some(t) && t.roles == t0.roles && |t.requests| == 2
    ensures forall i | 0 <= i < 2 :: t.requests[i].phase.Updating? && t.requests[i].change == t0.requests[i].change
  {
    hide Run, Superadmins;
    steps, t := Then(s, steps0, t0, SetNX(0, Done));
    steps, t := Then(s, steps, t, Count(0, true));
    steps, t := Then(s, steps, t, Tick(t.now + LOCK_TTL + 1));
    steps, t := Then(s, steps, t, SetNX(1, Done));
    steps, t := Then(s, steps, t, Count(1, true));
  }
}
