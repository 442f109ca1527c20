/** How old the role of an authenticated request may be, when roles are cached in Redis for a minute.

    Requests of one user interleave freely with role changes. A request that finds no usable entry reads
    the users table and then stores what it read; the store comes at most `delay` after the read. Each
    moment of the log is a role the table held, and when. */
module RoleCache {
  import opened Wrappers

  const TTL: nat := 60000               // milliseconds

  /** A cached role, and the moment of the log it was read at. */
  datatype Entry = Entry(role: string, expires: nat, seen: nat)

  datatype Read = Read(role: string, seen: nat)

  datatype Moment = Moment(time: nat, role: Option<string>)

  datatype State = State(now: nat, user: Option<string>, cache: Option<Entry>, reading: map<nat, Read>,
                         log: seq<Moment>)

  datatype Step =
    | Tick
    | Change(role: Option<string>)      // a role change, or the user's deletion
    | Forget                            // Redis loses the entry
    | StartRead(request: nat)           // a request that missed the cache, or could not ask it, reads the table
    | Store(request: nat, lands: bool)  // the same request stores the role and goes on with it
    | Hit                               // a request goes on with the cached role

  function Init(user: Option<string>): State { State(0, user, None, map[], [Moment(0, user)]) }

  /** Redis drops an entry once the clock has passed its expiry. */
  predicate Usable(cache: Option<Entry>, now: nat) {
    cache.Some? && now <= cache.value.expires && cache.value.role != ""
  }

  predicate Enabled(s: State, step: Step, delay: nat) {
    match step
    case StartRead(r) => r !in s.reading && s.user.Some?
    case Store(r, _) =>
      r in s.reading && s.reading[r].seen < |s.log| && s.now <= s.log[s.reading[r].seen].time + delay
    case Hit => Usable(s.cache, s.now)
    case _ => true
  }

  function Next(s: State, step: Step, delay: nat): State
    requires Enabled(s, step, delay)
  {
    match step
    case Tick => s.(now := s.now + 1, log := s.log + [Moment(s.now + 1, s.user)])
    case Change(role) => s.(user := role, log := s.log + [Moment(s.now, role)])
    case Forget => s.(cache := None)
    case StartRead(r) => s.(reading := s.reading[r := Read(s.user.value, if |s.log| > 0 then |s.log| - 1 else 0)])
    case Store(r, lands) =>
      s.(reading := s.reading - {r},
         cache := if lands then Some(Entry(s.reading[r].role, s.now + TTL, s.reading[r].seen)) else s.cache)
    case Hit => s
  }

  /** The role a request goes on with in this step. */
  function Used(s: State, step: Step): Option<string> {
    match step
    case Store(r, _) => if r in s.reading then Some(s.reading[r].role) else None
    case Hit => if s.cache.Some? then Some(s.cache.value.role) else None
    case _ => None
  }

  ghost predicate Run(s: State, steps: seq<Step>, t: State, delay: nat)
    decreases |steps|
  {
    if steps == [] then s == t
    else Enabled(s, steps[0], delay) && Run(Next(s, steps[0], delay), steps[1..], t, delay)
  }

  lemma {:induction false} RunJoins(s: State, a: seq<Step>, t: State, b: seq<Step>, u: State, delay: nat)
    requires Run(s, a, t, delay) && Run(t, b, u, delay)
    ensures Run(s, a + b, u, delay)
    decreases |a|
  {
    if a == [] {
      assert a + b == b;
    } else {
      RunJoins(Next(s, a[0], delay), a[1..], t, b, u, delay);
      assert (a + b)[1..] == a[1..] + b;
    }
  }

  // ---------------------------------------------------------------- what every run keeps

  predicate WasRole(log: seq<Moment>, seen: nat, role: string) { seen < |log| && log[seen].role == Some(role) }

  predicate LogKept(s: State) {
    && |s.log| > 0 && s.log[|s.log| - 1] == Moment(s.now, s.user)
    && forall i, j | 0 <= i <= j < |s.log| :: s.log[i].time <= s.log[j].time
  }

  predicate Inv(s: State, delay: nat) {
    && LogKept(s)
    && (forall r | r in s.reading :: WasRole(s.log, s.reading[r].seen, s.reading[r].role))
    && (s.cache.Some? ==>
          && WasRole(s.log, s.cache.value.seen, s.cache.value.role)
          && s.cache.value.expires <= s.log[s.cache.value.seen].time + delay + TTL)
  }

  lemma StepKeeps(s: State, step: Step, delay: nat)
    requires Inv(s, delay) && Enabled(s, step, delay)
    ensures Inv(Next(s, step, delay), delay)
  {
  }

  lemma {:induction false} RunKeeps(s: State, steps: seq<Step>, t: State, delay: nat)
    requires Inv(s, delay) && Run(s, steps, t, delay)
    ensures Inv(t, delay)
    decreases |steps|
  {
    if steps != [] {
      StepKeeps(s, steps[0], delay);
      RunKeeps(Next(s, steps[0], delay), steps[1..], t, delay);
    }
  }

  /** Bounded staleness: in every run, a role a request goes on with was the table's role at some moment
      at most 60 seconds plus the delay ago. */
  lemma RoleIsRecent(user: Option<string>, steps: seq<Step>, s: State, step: Step, delay: nat) returns (seen: nat)
    requires Run(Init(user), steps, s, delay) && Enabled(s, step, delay) && Used(s, step).Some?
    ensures seen < |s.log| && s.log[seen].role == Used(s, step)
    ensures s.log[seen].time <= s.now <= s.log[seen].time + 60_000 + delay
  {
    RunKeeps(Init(user), steps, s, delay);
    seen := if step.Hit? then s.cache.value.seen else s.reading[step.request].seen;
    assert s.log[seen].time <= s.log[|s.log| - 1].time;
  }

  /** So a role that the table has not held within 60 seconds plus the delay is not used, and a user
      deleted before that gets none. */
  lemma RevocationTakesEffect(user: Option<string>, steps: seq<Step>, s: State, step: Step, delay: nat, role: string)
    requires Run(Init(user), steps, s, delay) && Enabled(s, step, delay)
    requires forall i | 0 <= i < |s.log| && s.now <= s.log[i].time + 60_000 + delay :: s.log[i].role != Some(role)
    ensures Used(s, step) != Some(role)
  {
    if Used(s, step) == Some(role) {
      var seen := RoleIsRecent(user, steps, s, step, delay);
    }
  }

  // ---------------------------------------------------------------- the bound is tight

  function Ticks(n: nat): seq<Step> { seq(n, _ => Tick) }

  lemma {:induction false} Waiting(s: State, n: nat, delay: nat) returns (t: State)
    ensures Run(s, Ticks(n), t, delay)
    ensures t == s.(now := s.now + n, log := t.log) && s.log <= t.log
    ensures forall i | |s.log| <= i < |t.log| :: t.log[i].role == s.user
    decreases n
  {
    t := s;
    if n > 0 {
      t := Waiting(Next(s, Tick, delay), n - 1, delay);
      assert Ticks(n)[1..] == Ticks(n - 1);
    }
  }

  /** A role taken away at time 0 can still be used 60 seconds plus the delay later, without having been
      given back. */
  lemma RevokedRoleLingers(taken: string, left: string, delay: nat) returns (steps: seq<Step>, s: State)
    requires taken != "" && taken != left
    ensures Run(Init(Some(taken)), steps, s, delay) && Enabled(s, Hit, delay) && Used(s, Hit) == Some(taken)
    ensures s.now == 60_000 + delay && s.user == Some(left)
    ensures forall i | 0 < i < |s.log| :: s.log[i].role == Some(left)
  {
    var s0 := Init(Some(taken));
    var s1 := Next(s0, StartRead(0), delay);
    var s2 := Next(s1, Change(Some(left)), delay);
    var s3 := Waiting(s2, delay, delay);
    assert s3.reading[0].seen == 0 && s3.log[0] == Moment(0, Some(taken)) by { assert s2.log[0] == s3.log[0]; }
    var s4 := Next(s3, Store(0, true), delay);
    s := Waiting(s4, TTL, delay);
    RunJoins(s3, [Store(0, true)], s4, Ticks(TTL), s, delay);
    RunJoins(s2, Ticks(delay), s3, [Store(0, true)] + Ticks(TTL), s, delay);
    var rest := Ticks(delay) + ([Store(0, true)] + Ticks(TTL));
    assert Run(s1, [Change(Some(left))], s2, delay);
    RunJoins(s1, [Change(Some(left))], s2, rest, s, delay);
    RunJoins(s0, [StartRead(0)], s1, [Change(Some(left))] + rest, s, delay);
    steps := [StartRead(0)] + ([Change(Some(left))] + rest);
  }

  // ---------------------------------------------------------------- the middleware

  /** A miss served without interruption. */
  lemma MissIsARun(s: State, lands: bool, delay: nat) returns (t: State)
    requires Inv(s, delay) && s.user.Some? && s.reading == map[]
    ensures Run(s, [StartRead(0), Store(0, lands)], t, delay) && Inv(t, delay)
    ensures t == s.(cache := if lands then Some(Entry(s.user.value, s.now + TTL, |s.log| - 1)) else s.cache)
  {
    var read := Next(s, StartRead(0), delay);
    StepKeeps(s, StartRead(0), delay);
    StepKeeps(read, Store(0, lands), delay);
    t := Next(read, Store(0, lands), delay);
    assert t.reading == map[];
    assert Run(t, [], t, delay);
    assert Run(read, [Store(0, lands)], t, delay);
  }

  /** One user's entry in Redis and row in the users table, with the clock and the log of roles. */
  class Guard {
    var now: nat
    var user: Option<string>
    var cache: Option<Entry>
    var log: seq<Moment>                // bookkeeping, as is the moment in an entry

    ghost function View(): State
      reads this
    {
      State(now, user, cache, map[], log)
    }

    constructor (user: Option<string>)
      ensures View() == Init(user)
    {
      now, this.user, cache, log := 0, user, None, [Moment(0, user)];
    }

    /** A request's role: the cached one, else the stored one, which is then cached; None is a refusal.
        Redis and the database may fail to answer. */
    method Authorize(redisAnswers: bool, tableAnswers: bool, lands: bool, ghost delay: nat)
      returns (role: Option<string>, ghost steps: seq<Step>)
      requires Inv(View(), delay)
      modifies this`cache
      ensures Inv(View(), delay) && Run(old(View()), steps, View(), delay)
      ensures var c := old(cache);
              var hit := redisAnswers && c.Some? && now <= c.value.expires && c.value.role != "";
              && role == (if hit then Some(c.value.role) else if tableAnswers then user else None)
              && (if !hit && role.Some? && lands then
                    cache.Some? && cache.value.role == role.value && cache.value.expires == now + 60_000
                  else cache == c)
    {
      hide Inv;
      if redisAnswers && Usable(cache, now) {
        assert Enabled(View(), Hit, delay) && Next(View(), Hit, delay) == View();
        assert Run(View(), [Hit][1..], View(), delay);
        return Some(cache.value.role), [Hit];
      }
      if !tableAnswers || user.None? { return None, []; }
      ghost var after := MissIsARun(View(), lands, delay);
      if lands { cache := Some(Entry(user.value, now + TTL, |log| - 1)); }
      return user, [StartRead(0), Store(0, lands)];
    }
  }
}
