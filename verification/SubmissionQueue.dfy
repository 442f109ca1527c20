/** The queue over Redis Streams, updated in place, against the commands of the protocol. */
module SubmissionQueue {
  import opened Wrappers
  import opened SubmissionProtocol

  /** A job as ReadBatch returns it, with the stream ID as its job ID. */
  datatype Claim = Claim(id: nat, job: Job)

  /** What Redis does while one message is examined: whether EXISTS is answered, at what time, and
      how the acknowledgement of a rejected message goes. */
  datatype Look = Look(answered: bool, at: int, ack: Reply)

  predicate InStream(r: Redis, ids: seq<nat>) { forall i | 0 <= i < |ids| :: ids[i] < |r.stream| }

  /** The rest of ReadBatch's loop: the messages left, with one Look each. */
  function Filtered(r: Redis, todo: seq<nat>, looks: seq<Look>): (result: (Redis, seq<Claim>))
    requires |looks| >= |todo| && InStream(r, todo)
    decreases |todo|
  {
    if todo == [] then (r, [])
    else
      var id, m, look := todo[0], r.stream[todo[0]], looks[0];
      if !m.Decoded? then Filtered(r, todo[1..], looks[1..])
      else if !WellFormed(m.job) || (look.answered && KeyLive(r, id, look.at)) then
        Filtered(XAck(r, id, look.ack), todo[1..], looks[1..])
      else
        var (r', rest) := Filtered(r, todo[1..], looks[1..]);
        (r', [Claim(id, m.job)] + rest)
  }

  class Queue {
    var stream: seq<Message>
    var cursor: nat
    var pending: set<nat>
    var dlq: seq<DeadLetter>
    var dedup: map<nat, int>

    ghost function View(): Redis
      reads this
    {
      Redis(stream, cursor, pending, dlq, dedup)
    }

    ghost predicate Valid()
      reads this
    {
      cursor <= |stream|
    }

    constructor ()
      ensures Valid() && View() == Redis([], 0, {}, [], map[])
    {
      stream, cursor, pending, dlq, dedup := [], 0, {}, [], map[];
    }

    /** Returns the stream ID, or None if Redis reported an error. */
    method Enqueue(job: Job, reply: Reply) returns (id: Option<nat>)
      requires Valid()
      modifies this
      ensures Valid() && View() == XAdd(old(View()), Decoded(job), reply)
      ensures id == (if reply.Done? then Some(|old(stream)|) else None)
    {
      id := if reply.Done? then Some(|stream|) else None;
      if !reply.Refused? {
        stream := stream + [Decoded(job)];
      }
    }

    method Ack(id: nat, reply: Reply) returns (ok: bool)
      modifies this
      ensures View() == XAck(old(View()), id, reply) && ok == reply.Done?
    {
      if !reply.Refused? {
        pending := pending - {id};
      }
      ok := reply.Done?;
    }

    /** Dead-letter first, acknowledge only if that is known to have worked. */
    method Nack(id: nat, job: Job, reason: Reason, add: Reply, ack: Reply) returns (ok: bool)
      modifies this
      ensures var added := XAddDeadLetter(old(View()), DeadLetter(id, job, reason), add);
              View() == if add.Done? then XAck(added, id, ack) else added
      ensures ok == (add.Done? && ack.Done?)
    {
      if !add.Refused? {
        dlq := dlq + [DeadLetter(id, job, reason)];
      }
      if !add.Done? {
        return false;
      }
      ok := Ack(id, ack);
    }

    method MarkProcessed(id: nat, at: int, reply: Reply)
      modifies this
      ensures View() == SetProcessed(old(View()), id, at, reply)
      ensures !reply.Refused? ==> dedup == old(dedup)[id := at + 600_000_000_000]
    {
      if !reply.Refused? {
        dedup := dedup[id := at + DEDUP_TTL];
      }
    }

    /** Up to ten undelivered messages, filtered; None if XREADGROUP reported an error. */
    method ReadBatch(read: Reply, looks: seq<Look>) returns (claims: Option<seq<Claim>>)
      requires Valid() && |looks| == BATCH_SIZE
      modifies this
      ensures Valid()
      ensures claims.None? <==> !read.Done?
      ensures claims.None? ==> View() == XReadGroup(old(View()), BATCH_SIZE, read)
      ensures claims.Some? ==>
                (View(), claims.value)
                == Filtered(XReadGroup(old(View()), BATCH_SIZE, read), Fresh(old(View()), BATCH_SIZE), looks)
    {
      var ids := Fresh(Redis(stream, cursor, pending, dlq, dedup), BATCH_SIZE);
      if !read.Refused? {
        cursor, pending := cursor + |ids|, pending + (set id | id in ids);
      }
      if !read.Done? {
        return None;
      }
      var jobs: seq<Claim> := [];
      ghost var start := View();
      FilterBegins(start, ids, looks);
      hide Filtered;
      for i := 0 to |ids|
        invariant stream == start.stream && cursor == start.cursor
        invariant Examined(start, View(), ids, looks, i, jobs)
      {
        FilterOne(start, View(), ids, looks, i, jobs);
        var id, look := ids[i], looks[i];
        if stream[id].Decoded? {
          var job := stream[id].job;
          if !WellFormed(job) || (look.answered && id in dedup && look.at <= dedup[id]) {
            var acked := Ack(id, look.ack);
          } else {
            jobs := jobs + [Claim(id, job)];
          }
        }
      }
      FilterEnds(start, View(), ids, looks, jobs);
      claims := Some(jobs);
    }
  }

  /** The loop has examined the first i messages: Redis is now `r` and `jobs` are the jobs kept. */
  ghost predicate Examined(start: Redis, r: Redis, ids: seq<nat>, looks: seq<Look>, i: nat, jobs: seq<Claim>) {
    && i <= |ids| <= |looks| && r.stream == start.stream && InStream(start, ids)
    && var (end, rest) := Filtered(r, ids[i..], looks[i..]);
       Filtered(start, ids, looks) == (end, jobs + rest)
  }

  lemma FilterBegins(start: Redis, ids: seq<nat>, looks: seq<Look>)
    requires |ids| <= |looks| && InStream(start, ids)
    ensures Examined(start, start, ids, looks, 0, [])
  {
    assert ids[0..] == ids && looks[0..] == looks;
    assert [] + Filtered(start, ids, looks).1 == Filtered(start, ids, looks).1;
  }

  lemma FilterOne(start: Redis, r: Redis, ids: seq<nat>, looks: seq<Look>, i: nat, jobs: seq<Claim>)
    requires i < |ids| && Examined(start, r, ids, looks, i, jobs)
    ensures var id, m, look := ids[i], r.stream[ids[i]], looks[i];
            if !m.Decoded? then Examined(start, r, ids, looks, i + 1, jobs)
            else if !WellFormed(m.job) || (look.answered && KeyLive(r, id, look.at)) then
              Examined(start, XAck(r, id, look.ack), ids, looks, i + 1, jobs)
            else Examined(start, r, ids, looks, i + 1, jobs + [Claim(id, m.job)])
  {
    assert ids[i..][1..] == ids[i + 1..] && looks[i..][1..] == looks[i + 1..];
    var rest := Filtered(r, ids[i..], looks[i..]).1;
    if rest != [] { assert jobs + rest == jobs + [rest[0]] + rest[1..]; }
  }

  lemma FilterEnds(start: Redis, r: Redis, ids: seq<nat>, looks: seq<Look>, jobs: seq<Claim>)
    requires Examined(start, r, ids, looks, |ids|, jobs)
    ensures Filtered(start, ids, looks) == (r, jobs)
  {
    assert jobs + [] == jobs;
  }

  // ---------------------------------------------------------------- ReadBatch is a run of the pool

  predicate LooksFrom(now: int, looks: seq<Look>) {
    && (forall i | 0 <= i < |looks| :: now <= looks[i].at)
    && (forall i, j | 0 <= i < j < |looks| :: looks[i].at <= looks[j].at)
  }

  lemma {:induction false} FilteredJobs(r: Redis, todo: seq<nat>, looks: seq<Look>)
    requires |looks| >= |todo| && InStream(r, todo)
    ensures var (end, claims) := Filtered(r, todo, looks);
            && end.stream == r.stream && |claims| <= |todo|
            && forall i | 0 <= i < |claims| ::
                 claims[i].id < |r.stream| && r.stream[claims[i].id] == Decoded(claims[i].job)
    decreases |todo|
  {
    if todo != [] {
      FilteredJobs(r, todo[1..], looks[1..]);
      FilteredJobs(XAck(r, todo[0], looks[0].ack), todo[1..], looks[1..]);
    }
  }

  predicate Claimable(r: Redis, id: nat, look: Look)
    requires id < |r.stream|
  {
    r.stream[id].Decoded? && WellFormed(r.stream[id].job) && !(look.answered && KeyLive(r, id, look.at))
  }

  /** Where the claims come from: the given places, in order. */
  predicate ClaimsFrom(r: Redis, todo: seq<nat>, claims: seq<Claim>, at: seq<nat>)
    requires InStream(r, todo)
  {
    && |at| == |claims| && Ascending(at)
    && forall k | 0 <= k < |at| :: ClaimAt(r, todo, claims[k], at[k])
  }

  predicate Ascending(at: seq<nat>) { forall k, l | 0 <= k < l < |at| :: at[k] < at[l] }

  predicate ClaimAt(r: Redis, todo: seq<nat>, claim: Claim, place: nat)
    requires InStream(r, todo)
  {
    place < |todo| && claim.id == todo[place] && r.stream[todo[place]] == Decoded(claim.job)
  }

  /** The message stays pending: it is claimed, does not decode, or its acknowledgement is refused. */
  predicate StaysPending(r: Redis, id: nat, look: Look)
    requires id < |r.stream|
  {
    Claimable(r, id, look) || !r.stream[id].Decoded? || look.ack.Refused?
  }

  /** Redis once one message has been examined. */
  function Examine(r: Redis, id: nat, look: Look): Redis
    requires id < |r.stream|
  {
    if StaysPending(r, id, look) then r else r.(pending := r.pending - {id})
  }

  lemma FilteredStep(r: Redis, todo: seq<nat>, looks: seq<Look>)
    requires |looks| >= |todo| && InStream(r, todo) && todo != []
    ensures InStream(Examine(r, todo[0], looks[0]), todo[1..])
    ensures var (end, rest) := Filtered(Examine(r, todo[0], looks[0]), todo[1..], looks[1..]);
            Filtered(r, todo, looks)
            == (end, if Claimable(r, todo[0], looks[0]) then [Claim(todo[0], r.stream[todo[0]].job)] + rest else rest)
  {
    hide WellFormed, KeyLive;
    if looks[0].ack.Refused? { assert XAck(r, todo[0], looks[0].ack) == r; }
  }

  /** The places of a batch's tail, as places of the batch, after its first place if that is claimed. */
  function Places(rest: seq<nat>, first: bool): seq<nat> {
    var more := seq(|rest|, k requires 0 <= k < |rest| => rest[k] + 1);
    if first then [0] + more else more
  }

  lemma PlacesHold(rest: seq<nat>, first: bool, i: nat)
    ensures i in Places(rest, first) <==> if i == 0 then first else i - 1 in rest
  {
    var at := Places(rest, first);
    if i > 0 && i - 1 in rest {
      var k :| 0 <= k < |rest| && rest[k] == i - 1;
      assert at[if first then k + 1 else k] == i;
    }
    if first { assert at[0] == 0; }
  }

  lemma PlacesClaim(r: Redis, r': Redis, todo: seq<nat>, claims: seq<Claim>, rest: seq<nat>, first: bool)
    requires todo != [] && InStream(r, todo) && InStream(r', todo[1..]) && r'.stream == r.stream
    requires ClaimsFrom(r', todo[1..], claims, rest) && (first ==> r.stream[todo[0]].Decoded?)
    ensures var all := if first then [Claim(todo[0], r.stream[todo[0]].job)] + claims else claims;
            ClaimsFrom(r, todo, all, Places(rest, first))
  {
    var at, all := Places(rest, first), if first then [Claim(todo[0], r.stream[todo[0]].job)] + claims else claims;
    var shift := if first then 1 else 0;
    forall k | 0 <= k < |at| ensures ClaimAt(r, todo, all[k], at[k]) {
      if shift <= k { assert ClaimAt(r', todo[1..], claims[k - shift], rest[k - shift]); }
    }
    forall k, l | 0 <= k < l < |at| ensures at[k] < at[l] {
      if shift <= k { assert rest[k - shift] < rest[l - shift]; }
    }
  }

  lemma {:induction false} ClaimedAt(r: Redis, todo: seq<nat>, looks: seq<Look>) returns (at: seq<nat>)
    requires |looks| >= |todo| && InStream(r, todo)
    ensures ClaimsFrom(r, todo, Filtered(r, todo, looks).1, at)
    ensures forall i | 0 <= i < |todo| :: i in at <==> Claimable(r, todo[i], looks[i])
    decreases |todo|
  {
    if todo == [] {
      at := [];
    } else {
      var r' := Examine(r, todo[0], looks[0]);
      var first := Claimable(r, todo[0], looks[0]);
      FilteredStep(r, todo, looks);
      var rest := ClaimedAt(r', todo[1..], looks[1..]);
      PlacesClaim(r, r', todo, Filtered(r', todo[1..], looks[1..]).1, rest, first);
      at := Places(rest, first);
      hide Filtered, StaysPending, WellFormed, ClaimsFrom, Places, KeyLive;
      forall i | 0 <= i < |todo| ensures i in at <==> Claimable(r, todo[i], looks[i]) {
        PlacesHold(rest, first, i);
        if i > 0 { assert i - 1 in rest <==> Claimable(r', todo[1..][i - 1], looks[1..][i - 1]); }
      }
    }
  }

  lemma {:induction false} PendingAfter(r: Redis, todo: seq<nat>, looks: seq<Look>, id: nat)
    requires |looks| >= |todo| && InStream(r, todo)
    ensures var end := Filtered(r, todo, looks).0;
            && end == r.(pending := end.pending)
            && (id in end.pending <==>
                  id in r.pending && forall i | 0 <= i < |todo| && todo[i] == id :: StaysPending(r, id, looks[i]))
    decreases |todo|
  {
    if todo != [] {
      var r' := Examine(r, todo[0], looks[0]);
      FilteredStep(r, todo, looks);
      PendingAfter(r', todo[1..], looks[1..], id);
      hide Filtered, WellFormed, KeyLive;
      forall i | 1 <= i < |todo| && todo[i] == id
        ensures StaysPending(r', id, looks[1..][i - 1]) == StaysPending(r, id, looks[i]) && todo[1..][i - 1] == id
      {}
      forall i | 0 <= i < |todo| - 1 && todo[1..][i] == id ensures todo[i + 1] == id {}
    }
  }

  /** Exactly which messages of a batch become claims, and which stay pending, message by message: a
      message is claimed if and only if it decodes, has a type, a submitter and match and team IDs that
      parse, and Redis did not report a live dedup key; claims keep their order. */
  lemma FilteredExactly(r: Redis, todo: seq<nat>, looks: seq<Look>) returns (at: seq<nat>)
    requires |looks| >= |todo| && InStream(r, todo)
    ensures var (end, claims) := Filtered(r, todo, looks);
            && ClaimsFrom(r, todo, claims, at) && end == r.(pending := end.pending)
            && (forall i | 0 <= i < |todo| ::
                  i in at <==>
                    && r.stream[todo[i]].Decoded?
                    && r.stream[todo[i]].job.kind != "" && r.stream[todo[i]].job.submittedById != ""
                    && r.stream[todo[i]].job.matchId.Uuid? && r.stream[todo[i]].job.teamId.Uuid?
                    && !(looks[i].answered && todo[i] in r.dedup && looks[i].at <= r.dedup[todo[i]]))
            && (forall id: nat :: id in end.pending <==>
                  && id in r.pending
                  && forall i | 0 <= i < |todo| && todo[i] == id ::
                       i in at || !r.stream[id].Decoded? || looks[i].ack.Refused?)
  {
    at := ClaimedAt(r, todo, looks);
    forall id: nat
      ensures var end := Filtered(r, todo, looks).0;
              && end == r.(pending := end.pending)
              && (id in end.pending <==>
                    id in r.pending && forall i | 0 <= i < |todo| && todo[i] == id :: StaysPending(r, id, looks[i]))
    {
      PendingAfter(r, todo, looks, id);
    }
    PendingAfter(r, todo, looks, 0);
    hide Filtered, ClaimsFrom;
  }

  /** A batch is the next ten undelivered entries, or as many as there are. */
  lemma BatchIsNextTen(r: Redis)
    requires r.cursor <= |r.stream|
    ensures var ids := Fresh(r, BATCH_SIZE);
            && |ids| <= 10 && (|ids| < 10 ==> r.cursor + |ids| == |r.stream|) && r.cursor + |ids| <= |r.stream|
            && forall i | 0 <= i < |ids| :: ids[i] == r.cursor + i
  {}

  predicate SameJobs(ds: seq<Delivery>, claims: seq<Claim>) {
    |ds| == |claims| && forall i | 0 <= i < |ds| :: ds[i].id == claims[i].id
  }

  /** Examining the delivered messages one by one is a run of the pool, and the worker ends up with
      the jobs ReadBatch returns, in order. */
  lemma {:induction false} FilteringIsARun(s: State, w: nat, looks: seq<Look>, r: Redis, claims: seq<Claim>)
    returns (steps: seq<Step>, ds: seq<Delivery>, t: State)
    requires w < |s.workers| && s.workers[w].Filtering? && !s.workers[w].rejecting
    requires s.workers[w].todo != [] && |looks| >= |s.workers[w].todo| && LooksFrom(s.now, looks)
    requires InStream(s.redis, s.workers[w].todo)
    requires Filtered(s.redis, s.workers[w].todo, looks) == (r, claims)
    ensures Run(s, steps) == Some(t) && t.redis == r && t.now == looks[|s.workers[w].todo| - 1].at
    ensures SameJobs(ds, claims)
    ensures t.workers == s.workers[w := AfterMessage([], s.workers[w].kept + ds)]
    decreases |s.workers[w].todo|
  {
    var Filtering(todo, kept, _) := s.workers[w];
    var first, seen, u := OneMessageIsARun(s, w, looks[0]);
    var claimed := if seen == [] then claims else claims[1..];
    var rest, more: seq<Delivery> := [], [];
    t := u;
    if |todo| > 1 {
      rest, more, t := FilteringIsARun(u, w, looks[1..], r, claimed);
    } else {
      assert todo[1..] == [] && kept + seen + more == kept + seen;
    }
    assert t.workers == u.workers[w := AfterMessage([], kept + seen + more)];
    RunAppend(s, first, u, rest, t);
    steps, ds := first + rest, seen + more;
    assert kept + seen + more == kept + ds;
    assert s.workers[w := u.workers[w]][w := t.workers[w]] == s.workers[w := t.workers[w]];
  }

  /** Examining one message takes a Check, and a Reject if the message is turned away. */
  lemma OneMessageIsARun(s: State, w: nat, look: Look) returns (steps: seq<Step>, seen: seq<Delivery>, t: State)
    requires w < |s.workers| && s.workers[w].Filtering? && !s.workers[w].rejecting
    requires s.workers[w].todo != [] && s.workers[w].todo[0] < |s.redis.stream| && s.now <= look.at
    ensures Run(s, steps) == Some(t) && t.now == look.at
    ensures t.workers == s.workers[w := AfterMessage(s.workers[w].todo[1..], s.workers[w].kept + seen)]
    ensures var id, m := s.workers[w].todo[0], s.redis.stream[s.workers[w].todo[0]];
            if !m.Decoded? then t.redis == s.redis && seen == []
            else if !WellFormed(m.job) || (look.answered && KeyLive(s.redis, id, look.at)) then
              t.redis == XAck(s.redis, id, look.ack) && seen == []
            else t.redis == s.redis && |seen| == 1 && seen[0].id == id
  {
    var Filtering(todo, kept, _) := s.workers[w];
    var id, m := todo[0], s.redis.stream[todo[0]];
    var check := Check(w, look.answered, look.at);
    t := CheckStep(s, w, look.answered, look.at).value;
    RunOne(s, check, t);
    steps, seen := [check], [];
    assert kept + seen == kept;
    if m.Decoded? && (!WellFormed(m.job) || (look.answered && KeyLive(s.redis, id, look.at))) {
      var u := RejectStep(t, w, look.ack).value;
      RunOne(t, Reject(w, look.ack), u);
      RunAppend(s, steps, t, [Reject(w, look.ack)], u);
      assert u.workers == s.workers[w := u.workers[w]];
      steps, t := steps + [Reject(w, look.ack)], u;
    } else if m.Decoded? {
      seen := [Delivery(id, look.answered, look.at, |s.marks|)];
    }
  }

  lemma RunOne(s: State, step: Step, t: State)
    requires Next(s, step) == Some(t)
    ensures Run(s, [step]) == Some(t)
  {
    assert [step][1..] == [];
  }

  lemma {:induction false} RunAppend(s: State, a: seq<Step>, t: State, b: seq<Step>, u: State)
    requires Run(s, a) == Some(t) && Run(t, b) == Some(u)
    ensures Run(s, a + b) == Some(u)
    decreases |a|
  {
    if a == [] {
      assert a + b == b;
    } else {
      RunAppend(Next(s, a[0]).value, a[1..], t, b, u);
      assert (a + b)[1..] == a[1..] + b;
    }
  }
}
