/** The admin handlers that change the set of superadmins, as sequential code over shared state. */
module AdminUsers {
  import opened Wrappers
  import opened SuperadminLock

  datatype Outcome = Forbidden | OwnAccount | NotFound | Conflict | LastSuperadmin | Protected | Failed | Changed

  /** How the database and Redis answer the calls of one request. */
  datatype World = World(read: bool, setNX: Reply, count: bool, update: Reply, get: bool, del: Reply)

  class AdminHandler {
    var roles: map<nat, Role>
    var lock: Option<Lock>
    var now: int

    ghost predicate Shows(s: State)
      reads this
    {
      s.roles == roles && s.lock == lock && s.now == now
    }

    /** Drop the lock, if it is still this request's. */
    method Release(i: nat, world: World)
      modifies this
      ensures roles == old(roles) && now == old(now)
      ensures lock == if world.get && old(lock).Some? && now <= old(lock).value.expiry && old(lock).value.owner == i
                         && !world.del.Refused? then None else old(lock)
    {
      if world.get && lock.Some? && now <= lock.value.expiry && lock.value.owner == i {
        if !world.del.Refused? { lock := None; }
      }
    }

    predicate LockTaken(world: World)
      reads this
    {
      world.setNX.Done? && !(lock.Some? && now <= lock.value.expiry)
    }

    /** Uninterrupted, a role change is a run of the protocol by one new request; it never takes the
        last superadmin, and every outcome has its exact condition. */
    method ChangeUserRole(actor: nat, actorRole: Role, target: nat, role: Role, lockVal: nat, world: World,
                          ghost s: State)
      returns (outcome: Outcome, ghost steps: seq<Step>, ghost t: State)
      requires Shows(s) && lockVal == |s.requests|
      modifies this
      ensures Run(s, steps) == Some(t) && Shows(t)
      ensures Superadmins(old(roles)) != {} ==> Superadmins(roles) != {}
      ensures outcome == Forbidden <==> role == SuperAdmin && actorRole != SuperAdmin
      ensures outcome == OwnAccount <==> outcome != Forbidden && actor == target
      ensures outcome == NotFound <==>
                outcome !in {Forbidden, OwnAccount} && !(world.read && target in old(roles))
      ensures var found := outcome !in {Forbidden, OwnAccount, NotFound};
              var guarded := found && old(roles)[target] == SuperAdmin && role != SuperAdmin;
              var taken := world.setNX.Done? && (old(lock).None? || old(lock.value.expiry < now));
              && (outcome == Conflict <==> guarded && !taken)
              && (outcome == LastSuperadmin <==>
                    guarded && taken && world.count && Superadmins(old(roles)) == {target})
              && (outcome == Failed <==>
                    && found && outcome !in {Conflict, LastSuperadmin}
                    && ((guarded && !world.count) || !world.update.Done?))
      ensures outcome in {Forbidden, OwnAccount, NotFound, Conflict, LastSuperadmin, Failed, Changed}
      ensures outcome.Changed? ==> target in old(roles) && roles == old(roles)[target := role]
      ensures outcome.Failed? ==> target in old(roles) && roles in {old(roles), old(roles)[target := role]}
      ensures !outcome.Changed? && !outcome.Failed? ==> roles == old(roles)
      ensures world == World(true, Done, true, Done, true, Done) && old(lock).None? ==>
                lock.None? && !outcome.Conflict?
    {
      hide Run, Superadmins, Apply, RequestStep;
      steps, t := [], s;
      RunNothing(s);
      if role == SuperAdmin && actorRole != SuperAdmin {
        return Forbidden, steps, t;
      }
      if actor == target {
        return OwnAccount, steps, t;
      }
      var change := SetRole(target, role);
      steps, t := ArriveAndRead(s, change, world.read);
      if !world.read || target !in roles {
        return NotFound, steps, t;
      }
      if roles[target] == SuperAdmin && role != SuperAdmin {
        outcome, steps, t := DemoteSuperadmin(target, role, lockVal, world, s, steps, t);
        RoleSet(old(roles), target, role);
        return;
      }
      steps, t := UnlockedWrite(s, steps, t, world.update);
      if !world.update.Refused? { roles := Apply(roles, change); }
      RoleSet(old(roles), target, role);
      outcome := if world.update.Done? then Changed else Failed;
    }

    /** The guarded half: lock, count, write, release. */
    method DemoteSuperadmin(target: nat, role: Role, lockVal: nat, world: World, ghost s: State,
                            ghost steps0: seq<Step>, ghost t0: State)
      returns (outcome: Outcome, ghost steps: seq<Step>, ghost t: State)
      requires lockVal == |s.requests| && Run(s, steps0) == Some(t0) && Shows(t0) && |t0.requests| == |s.requests| + 1
      requires t0.requests[|s.requests|] == Request(SetRole(target, role), Locking)
      requires target in roles && roles[target] == SuperAdmin && role != SuperAdmin
      modifies this
      ensures Run(s, steps) == Some(t) && Shows(t) && Superadmins(roles) != {}
      ensures outcome in {Conflict, LastSuperadmin, Failed, Changed}
      ensures outcome.Changed? ==> roles == Apply(old(roles), SetRole(target, role))
      ensures outcome.Failed? ==> roles in {old(roles), Apply(old(roles), SetRole(target, role))}
      ensures outcome in {Conflict, LastSuperadmin} ==> roles == old(roles)
      ensures outcome == Conflict <==> !old(LockTaken(world))
      ensures outcome == LastSuperadmin <==> old(LockTaken(world)) && world.count && Superadmins(old(roles)) == {target}
      ensures outcome == Failed <==>
                outcome !in {Conflict, LastSuperadmin} && (!world.count || !world.update.Done?)
      ensures world == World(true, Done, true, Done, true, Done) && old(lock).None? ==> lock.None? && !outcome.Conflict?
    {
      hide Run, Apply, RequestStep;
      assert target in Superadmins(roles);
      steps, t := TryLock(s, steps0, t0, world.setNX);
      if world.setNX.Refused? || (lock.Some? && now <= lock.value.expiry) {
        return Conflict, steps, t;
      }
      lock := Some(Lock(lockVal, now + LOCK_TTL));
      if !world.setNX.Done? {
        return Conflict, steps, t;
      }
      steps, t := CountSuperadmins(s, steps, t, world.count);
      if !world.count || |Superadmins(roles)| <= 1 {
        if world.count { OnlyOne(Superadmins(roles), target); }
        steps, t := ReleaseSteps(s, steps, t, world);
        Release(lockVal, world);
        outcome := if world.count then LastSuperadmin else Failed;
        return;
      }
      steps, t := LockedWrite(s, steps, t, world.update);
      ApplySuperadmins(roles, SetRole(target, role));
      NotTheLast(Superadmins(roles), target);
      if !world.update.Refused? { roles := Apply(roles, SetRole(target, role)); }
      steps, t := ReleaseSteps(s, steps, t, world);
      Release(lockVal, world);
      outcome := if world.update.Done? then Changed else Failed;
    }

    /** Superadmin accounts cannot be deleted at all. */
    method DeleteUser(actor: nat, target: nat, world: World, ghost s: State)
      returns (outcome: Outcome, ghost steps: seq<Step>, ghost t: State)
      requires Shows(s)
      modifies this
      ensures Run(s, steps) == Some(t) && Shows(t)
      ensures Superadmins(roles) == Superadmins(old(roles))
      ensures outcome.Changed? ==> roles == old(roles) - {target}
      ensures outcome == OwnAccount <==> actor == target
      ensures outcome == NotFound <==> actor != target && !(world.read && target in old(roles))
      ensures outcome == Protected <==>
                actor != target && world.read && target in old(roles) && old(roles)[target] == SuperAdmin
      ensures outcome == Failed <==> outcome !in {OwnAccount, NotFound, Protected} && !world.update.Done?
      ensures outcome.Failed? ==> roles in {old(roles), old(roles) - {target}}
      ensures outcome in {OwnAccount, NotFound, Protected, Failed, Changed}
      ensures !outcome.Changed? && !outcome.Failed? ==> roles == old(roles)
    {
      steps, t := [], s;
      RunNothing(s);
      hide Run, RequestStep;
      if actor == target {
        return OwnAccount, steps, t;
      }
      steps, t := ArriveAndRead(s, Delete(target), world.read);
      if !world.read || target !in roles {
        return NotFound, steps, t;
      }
      if roles[target] == SuperAdmin {
        return Protected, steps, t;
      }
      steps, t := UnlockedWrite(s, steps, t, world.update);
      ApplySuperadmins(roles, Delete(target));
      if !world.update.Refused? { roles := roles - {target}; }
      outcome := if world.update.Done? then Changed else Failed;
    }
  }

  lemma RoleSet(roles: map<nat, Role>, target: nat, role: Role)
    requires target in roles
    ensures Apply(roles, SetRole(target, role)) == roles[target := role]
  {}

  lemma RunNothing(s: State)
    ensures Run(s, []) == Some(s)
  {}

  /** A new request and its read, as protocol steps. */
  lemma ArriveAndRead(s: State, change: Change, ok: bool) returns (steps: seq<Step>, t: State)
    ensures Run(s, steps) == Some(t) && |t.requests| == |s.requests| + 1
    ensures t.roles == s.roles && t.lock == s.lock && t.now == s.now
    ensures t.requests[|s.requests|] == Request(change,
              if !ok || change.target !in s.roles then Finished
              else if s.roles[change.target] != SuperAdmin || !Demotes(change) then Unlocked
              else if change.Delete? then Finished else Locking)
  {
    RunNothing(s);
    hide Run;
    steps, t := Then(s, [], s, Arrive(change));
    steps, t := Then(s, steps, t, Read(|s.requests|, ok));
  }

  /** The write of the newest request, which read a role that needs no lock. */
  lemma UnlockedWrite(s: State, steps0: seq<Step>, t0: State, reply: Reply) returns (steps: seq<Step>, t: State)
    requires Run(s, steps0) == Some(t0) && |t0.requests| == |s.requests| + 1
    requires t0.requests[|s.requests|].phase == Unlocked
    ensures Run(s, steps) == Some(t) && t.lock == t0.lock && t.now == t0.now
    ensures var change := t0.requests[|s.requests|].change;
            && t.roles == (if reply.Refused? then t0.roles else Apply(t0.roles, change))
            && (!Demotes(change) || (change.target in t0.roles ==> t0.roles[change.target] != SuperAdmin) ==>
                 Superadmins(t0.roles) <= Superadmins(t.roles))
  {
    ApplySuperadmins(t0.roles, t0.requests[|s.requests|].change);
    hide Run;
    steps, t := Then(s, steps0, t0, Write(|s.requests|, reply));
  }

  // The steps of the newest request under the lock.

  lemma TryLock(s: State, steps0: seq<Step>, t0: State, reply: Reply) returns (steps: seq<Step>, t: State)
    requires Run(s, steps0) == Some(t0) && |t0.requests| == |s.requests| + 1
    requires t0.requests[|s.requests|].phase == Locking
    ensures Run(s, steps) == Some(t) && t.roles == t0.roles && t.now == t0.now && |t.requests| == |t0.requests|
    ensures var i, taken := |s.requests|, !reply.Refused? && !LockLive(t0);
            && t.requests[i].change == t0.requests[i].change
            && t.lock == (if taken then Some(Lock(i, t0.now + LOCK_TTL)) else t0.lock)
            && t.requests[i].phase == if taken && reply.Done? then Counting(t0.now + LOCK_TTL) else Finished
  {
    hide Run, Superadmins;
    steps, t := Then(s, steps0, t0, SetNX(|s.requests|, reply));
  }

  lemma CountSuperadmins(s: State, steps0: seq<Step>, t0: State, ok: bool) returns (steps: seq<Step>, t: State)
    requires Run(s, steps0) == Some(t0) && |t0.requests| == |s.requests| + 1
    requires t0.requests[|s.requests|].phase.Counting?
    ensures Run(s, steps) == Some(t) && t == t0.(requests := t.requests) && |t.requests| == |t0.requests|
    ensures t.requests[|s.requests|].change == t0.requests[|s.requests|].change
    ensures if ok && |Superadmins(t0.roles)| > 1 then t.requests[|s.requests|].phase.Updating?
            else t.requests[|s.requests|].phase.Comparing?
  {
    hide Run, Superadmins;
    steps, t := Then(s, steps0, t0, Count(|s.requests|, ok));
  }

  lemma LockedWrite(s: State, steps0: seq<Step>, t0: State, reply: Reply) returns (steps: seq<Step>, t: State)
    requires Run(s, steps0) == Some(t0) && |t0.requests| == |s.requests| + 1
    requires t0.requests[|s.requests|].phase.Updating?
    ensures Run(s, steps) == Some(t) && t == t0.(requests := t.requests, roles := t.roles)
    ensures |t.requests| == |t0.requests| && t.requests[|s.requests|].phase.Comparing?
    ensures t.roles == if reply.Refused? then t0.roles else Apply(t0.roles, t0.requests[|s.requests|].change)
  {
    hide Run, Superadmins, Apply;
    steps, t := Then(s, steps0, t0, Update(|s.requests|, reply));
  }

  /** The deferred release as protocol steps of the newest request. */
  lemma ReleaseSteps(s: State, steps0: seq<Step>, t0: State, world: World) returns (steps: seq<Step>, t: State)
    requires Run(s, steps0) == Some(t0) && |t0.requests| == |s.requests| + 1
    requires t0.requests[|s.requests|].phase.Comparing?
    ensures Run(s, steps) == Some(t) && t.roles == t0.roles && t.now == t0.now && |t.requests| == |t0.requests|
    ensures t.lock == if world.get && LockLive(t0) && t0.lock.value.owner == |s.requests| && !world.del.Refused?
                      then None else t0.lock
    ensures t.requests[|s.requests|].phase == Finished
  {
    hide Run;
    var i := |s.requests|;
    steps, t := Then(s, steps0, t0, Get(i, world.get));
    if t.requests[i].phase.Removing? {
      steps, t := Then(s, steps, t, Del(i, world.del));
    }
  }
}
