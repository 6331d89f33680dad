/**
  The decision of enforce_rate_limit and what N replicas sharing one Redis can admit
  while Redis comes and goes.
 */
module RateLimitGate {
  import opened Prelude
  import SW = SlidingWindow
  import FB = FallbackLimiter

  type Key = string
  type RequestId = string

  datatype Policy = Policy(limit: int, windowS: int)

  datatype Outcome =
    | Unlimited                             // no policy matches the tenant and route
    | Allowed(limit: int, remaining: int)
    | TooMany(retryAfter: int)              // 429
    | Unavailable                           // 503, failing closed

  /** A replica: its script client and its fallback limiter. */
  class Replica {
    const failOpen: bool
    const client: SW.RateLimiter
    const fallback: FB.Limiter

    constructor (failOpen: bool)
      ensures this.failOpen == failOpen && fresh(client) && fresh(fallback) && fallback.Value() == FB.Empty()
    {
      this.failOpen := failOpen;
      client := new SW.RateLimiter();
      fallback := new FB.Limiter();
    }

    /**
      enforce_rate_limit, with the clock as the Redis stamp reads it and, after a RedisError,
      as the fallback reads it again. `answer` is what Redis said, None for a RedisError. The
      fallback is consulted exactly when Redis failed and the replica fails open.
     */
    method Enforce(server: SW.RedisServer, policy: Option<Policy>, tenant: string, route: string, id: RequestId,
                   stamp: real, redisNow: int, net: SW.Network, later: real)
      returns (outcome: Outcome, ghost answer: Option<SW.Reply>)
      requires stamp >= 0.0
      modifies server, client, fallback
      ensures policy.None? <==> outcome == Unlimited
      ensures policy.None? ==> server.keys == old(server.keys) && fallback.Value() == old(fallback.Value())
      ensures policy.Some? ==>
        var Policy(limit, windowS) := policy.value;
        && (outcome.Unavailable? <==> answer.None? && !failOpen)
        && (outcome.TooMany? ==> outcome.retryAfter == windowS)
        && (outcome.Allowed? ==>
              outcome.limit == limit && outcome.remaining == if answer.Some? then answer.value.remaining else 0)
        && (answer.Some? ==> (outcome.Allowed? <==> answer.value.allowed))
      ensures policy.Some? && answer.None? && failOpen ==>
        var Policy(limit, windowS) := policy.value;
        var key := tenant + ":" + route;
        var idle := key in old(fallback.lastSeen) && later - old(fallback.lastSeen)[key] > 300.0;
        var bucket := if key in old(fallback.buckets) && !idle then old(fallback.buckets)[key] else [];
        outcome.Allowed? <==> |FB.LaterThan(bucket, later - windowS as real)| < 10 * limit
      ensures
        var fine := net.load0.Fine? && net.eval0.Fine? && net.load1.Fine? && net.eval1.Fine? && !net.flush1;
        policy.Some? && fine ==> answer.Some?
      ensures NoBrace(tenant) ==> forall t, r :: NoBrace(t) && (t != tenant || r != route) ==>
        server.Key(RedisKey(t, r)) == old(server.Key(RedisKey(t, r)))
      ensures policy.Some? ==>
        var name := "rate:{" + tenant + "}:" + route;
        && (server.keys == old(server.keys) || server.keys == old(server.keys)[name := server.Key(name)])
        && Enforced(Query(policy.value, tenant, route, id, stamp, redisNow, later), failOpen,
                    old(server.Key(name)), server.Key(name), old(fallback.Value()), fallback.Value(), answer, outcome)
    {
      hide SW.Script, FB.Check, FB.LaterThan;
      answer := None;
      KeysApart(tenant, route);
      if policy.None? { return Unlimited, None; }
      var Policy(limit, windowS) := policy.value;
      var redis := client.Check(server, RedisKey(tenant, route), stamp, limit, windowS, id, redisNow, net);
      answer := redis;
      var allowed, remaining := false, 0;
      if redis.Some? {
        allowed, remaining := redis.value.allowed, redis.value.remaining;
      } else {
        if !failOpen { return Unavailable, answer; }
        allowed := fallback.InMemoryCheck(FallbackKey(tenant, route), limit, windowS, later);
      }
      if !allowed { return TooMany(windowS), answer; }
      outcome := Allowed(limit, remaining);
    }
  }

  function RedisKey(tenant: string, route: string): string {
    "rate:{" + tenant + "}:" + route
  }

  predicate NoBrace(text: string) {
    '}' !in text
  }

  predicate NoColon(text: string) {
    ':' !in text
  }

  function FallbackKey(tenant: string, route: string): Key {
    tenant + ":" + route
  }

  /** No two tenant and route pairs share a key, as long as tenants, being uuids, hold no separator. */
  lemma {:induction false} RedisKeyInjective(tenant: string, route: string, t: string, r: string)
    requires NoBrace(tenant) && NoBrace(t) && RedisKey(tenant, route) == RedisKey(t, r)
    ensures tenant == t && route == r
  {
    var k, k' := RedisKey(tenant, route), RedisKey(t, r);
    assert k[6..] == tenant + ['}'] + (":" + route) && k'[6..] == t + ['}'] + (":" + r);
    SplitOnce(tenant, ":" + route, t, ":" + r, '}');
    assert (":" + route)[1..] == route && (":" + r)[1..] == r;
  }

  lemma {:induction false} FallbackKeyInjective(tenant: string, route: string, t: string, r: string)
    requires NoColon(tenant) && NoColon(t) && FallbackKey(tenant, route) == FallbackKey(t, r)
    ensures tenant == t && route == r
  {
    SplitOnce(tenant, route, t, r, ':');
  }

  lemma {:induction false} KeysApart(tenant: string, route: string)
    ensures NoBrace(tenant) ==> forall t, r :: NoBrace(t) && (t != tenant || r != route) ==>
              RedisKey(t, r) != RedisKey(tenant, route)
  {
    hide RedisKey;
    if NoBrace(tenant) {
      forall t, r | NoBrace(t) && (t != tenant || r != route) ensures RedisKey(t, r) != RedisKey(tenant, route) {
        if RedisKey(t, r) == RedisKey(tenant, route) { RedisKeyInjective(tenant, route, t, r); }
      }
    }
  }

  function Decision(policy: Policy, answer: Option<SW.Reply>, failOpen: bool, fallbackAllows: bool): Outcome {
    if answer.Some? then
      if answer.value.allowed then Allowed(policy.limit, answer.value.remaining) else TooMany(policy.windowS)
    else if !failOpen then Unavailable
    else if fallbackAllows then Allowed(policy.limit, 0)
    else TooMany(policy.windowS)
  }

  /** A request with a policy: its clock when stamped, Redis's clock, and its clock after a RedisError. */
  datatype Query = Query(policy: Policy, tenant: string, route: string, id: RequestId,
                         stamp: real, redisNow: int, later: real)

  function StampMs(stamp: real): int {
    (stamp * 1000.0).Floor
  }

  /** What enforcing a query does to its Redis key and to its replica's fallback, and what it answers. */
  ghost predicate Enforced(q: Query, failOpen: bool, key: SW.KeyState, key': SW.KeyState, f: FB.State, f': FB.State,
                           answer: Option<SW.Reply>, outcome: Outcome) {
    var Policy(limit, windowS) := q.policy;
    var (ran, reply) := SW.Script(key, StampMs(q.stamp), windowS * 1000, limit, q.id, q.redisNow);
    var (checked, allowed) := FB.Check(f, FB.Call(FallbackKey(q.tenant, q.route), limit, windowS, q.later));
    && (answer.Some? ==> answer.value == reply && key' == ran)
    && (answer.None? ==> key' == key || key' == ran)
    && f' == (if answer.None? && failOpen then checked else f)
    && outcome == Decision(q.policy, answer, failOpen, allowed)
  }

  // ----- every run of N replicas, followed on one key

  /**
    The two atomic steps of a request. Redis executes its script at time `r`, and the reply
    arrives or is lost; or its replica, after a RedisError, makes the fallback check at its
    clock `clock` and true time `r`. A script may run after its sender gave up, requests of
    one replica may overtake each other, and anything may happen between the two steps.
   */
  datatype Label =
    | Script(key: Key, id: RequestId, stamp: real, r: int, answered: bool)
    | Fallback(replica: nat, key: Key, id: RequestId, clock: real, r: int)

  /** How an admitted request got in. */
  datatype Path = ByRedis | ByFallback(replica: nat)
  datatype Admission = Admission(id: RequestId, path: Path, clock: real, r: int)

  /** The key's Redis state, every replica's fallback, the requests decided, and the key's admissions so far. */
  datatype State = State(redis: SW.World, fallbacks: seq<FB.State>, decided: set<RequestId>, log: seq<Admission>)

  /** A key, its fixed policy, the number of replicas and the fail-open setting. */
  datatype Setup = Setup(key: Key, policy: Policy, replicas: nat, failOpen: bool, others: Key -> Policy)

  function Start(u: Setup): State {
    State(SW.World(SW.EMPTY, map[]), seq(u.replicas, _ => FB.Empty()), {}, [])
  }

  function PolicyOf(u: Setup, k: Key): Policy {
    if k == u.key then u.policy else u.others(k)
  }

  /** The script ran: it is charged even if the reply is lost or comes after the request was decided. */
  function DoScript(u: Setup, s: State, id: RequestId, stamp: real, r: int, answered: bool): State {
    var (ran, reply) := SW.Step(s.redis, SW.Arrival(id, StampMs(stamp), r), u.policy.windowS * 1000, u.policy.limit);
    if !answered || id in s.decided then s.(redis := ran)
    else
      State(ran, s.fallbacks, s.decided + {id},
            if reply.allowed then s.log + [Admission(id, ByRedis, stamp, r)] else s.log)
  }

  function FallbackCheck(u: Setup, f: FB.State, key: Key, clock: real): (FB.State, bool) {
    var p := PolicyOf(u, key);
    FB.Check(f, FB.Call(key, p.limit, p.windowS, clock))
  }

  /** in_memory_check, or the 503 of a replica that fails closed. */
  function DoFallback(u: Setup, s: State, i: nat, key: Key, id: RequestId, clock: real, r: int): State {
    if i >= |s.fallbacks| || id in s.decided then s
    else if !u.failOpen then s.(decided := s.decided + {id})
    else
      var (f, allowed) := FallbackCheck(u, s.fallbacks[i], key, clock);
      State(s.redis, s.fallbacks[i := f], s.decided + {id},
            if key == u.key && allowed then s.log + [Admission(id, ByFallback(i), clock, r)] else s.log)
  }

  /** Requests for other keys reach this key's state only through eviction. */
  function Step(u: Setup, s: State, l: Label): State {
    match l
    case Script(key, id, stamp, r, answered) =>
      if key == u.key then DoScript(u, s, id, stamp, r, answered)
      else if answered then s.(decided := s.decided + {id}) else s
    case Fallback(i, key, id, clock, r) => DoFallback(u, s, i, key, id, clock, r)
  }

  function Run(u: Setup, labels: seq<Label>): State {
    if labels == [] then Start(u)
    else Step(u, Run(u, labels[..|labels| - 1]), labels[|labels| - 1])
  }

  /**
    Enforce takes the two steps in order: the script unless it never ran, and the fallback, at
    true time `r`, unless Redis answered.
   */
  lemma {:induction false} EnforceIsRun(u: Setup, s: State, i: nat, q: Query, key': SW.KeyState, f': FB.State,
                                        answer: Option<SW.Reply>, outcome: Outcome, r: int)
    requires i < |s.fallbacks| && q.id !in s.decided
    requires q.policy == u.policy && FallbackKey(q.tenant, q.route) == u.key
    requires Enforced(q, u.failOpen, s.redis.key, key', s.fallbacks[i], f', answer, outcome)
    ensures
      var s1 := if answer.Some? || key' != s.redis.key
                then Step(u, s, Script(u.key, q.id, q.stamp, q.redisNow, answer.Some?)) else s;
      var s2 := if answer.None? then Step(u, s1, Fallback(i, u.key, q.id, q.later, r)) else s1;
      && s2.redis.key == key' && s2.fallbacks == s.fallbacks[i := f'] && s2.decided == s.decided + {q.id}
      && (outcome.Allowed? ==> |s2.log| == |s.log| + 1 && s2.log[..|s.log|] == s.log && s2.log[|s.log|].id == q.id)
      && (!outcome.Allowed? ==> s2.log == s.log)
  {
    hide SW.Live, SW.Purge, FB.Check;
  }

  // ----- timing

  /** The script executions on the followed key, in Redis's order. */
  function Arrivals(u: Setup, labels: seq<Label>): seq<SW.Arrival> {
    if labels == [] then []
    else
      var l := labels[|labels| - 1];
      Arrivals(u, labels[..|labels| - 1])
        + if l.Script? && l.key == u.key then [SW.Arrival(l.id, StampMs(l.stamp), l.r)] else []
  }

  /** Fallback checks of one replica. */
  predicate SameReplica(l: Label, m: Label) {
    l.Fallback? && m.Fallback? && l.replica == m.replica
  }

  /** Each replica's clock is monotone over its fallback checks, and within d/2 of the true time on this key. */
  ghost predicate ChecksTimed(u: Setup, labels: seq<Label>, d: int) {
    && (forall i :: 0 <= i < |labels| && labels[i].Fallback? && labels[i].key == u.key ==>
          FB.Skewed(FB.Stamp(labels[i].clock, labels[i].r), d))
    && (forall i, j :: 0 <= i < j < |labels| && SameReplica(labels[i], labels[j]) ==>
          labels[i].clock <= labels[j].clock)
  }

  predicate Within(a: Admission, start: int, length: int) {
    start <= a.r < start + length
  }

  /** All admissions of the key with true time in [start, start + length). */
  function CountIn(log: seq<Admission>, start: int, length: int): nat {
    if log == [] then 0
    else CountIn(log[..|log| - 1], start, length) + if Within(log[|log| - 1], start, length) then 1 else 0
  }

  function RedisIds(log: seq<Admission>, start: int, length: int): set<RequestId> {
    if log == [] then {}
    else
      var a := log[|log| - 1];
      RedisIds(log[..|log| - 1], start, length) + if a.path.ByRedis? && Within(a, start, length) then {a.id} else {}
  }

  /** The fallback admissions of one replica. */
  function FallbackLog(log: seq<Admission>, replica: nat): seq<FB.Stamp> {
    if log == [] then []
    else
      var a := log[|log| - 1];
      FallbackLog(log[..|log| - 1], replica) + if a.path == ByFallback(replica) then [FB.Stamp(a.clock, a.r)] else []
  }

  function Share(log: seq<Admission>, replica: nat, start: int, length: int): nat {
    FB.CountIn(FallbackLog(log, replica), start, length)
  }

  function FallbackTotal(log: seq<Admission>, n: nat, start: int, length: int): nat {
    if n == 0 then 0 else FallbackTotal(log, n - 1, start, length) + Share(log, n - 1, start, length)
  }

  ghost predicate KnownPaths(log: seq<Admission>, n: nat) {
    forall i :: 0 <= i < |log| ==> log[i].path.ByRedis? || log[i].path.replica < n
  }

  lemma {:induction false} OneReplicaSnoc(log: seq<Admission>, a: Admission, i: nat, start: int, length: int)
    ensures Share(log + [a], i, start, length) == Share(log, i, start, length)
              + if a.path == ByFallback(i) && Within(a, start, length) then 1 else 0
  {
    assert (log + [a])[..|log|] == log;
    var hist, s := FallbackLog(log, i), FB.Stamp(a.clock, a.r);
    if a.path == ByFallback(i) {
      assert FallbackLog(log + [a], i) == hist + [s] && (hist + [s])[..|hist|] == hist;
    } else {
      assert FallbackLog(log + [a], i) == hist;
    }
  }

  lemma {:induction false} FallbackTotalSnoc(log: seq<Admission>, a: Admission, n: nat, start: int, length: int)
    ensures FallbackTotal(log + [a], n, start, length) == FallbackTotal(log, n, start, length)
              + if a.path.ByFallback? && a.path.replica < n && Within(a, start, length) then 1 else 0
  {
    hide Share, FallbackTotal, Within;
    forall i: nat | i < n
      ensures Share(log + [a], i, start, length) == Share(log, i, start, length) + Adds(a, i, start, length)
    {
      OneReplicaSnoc(log, a, i, start, length);
    }
    OneShareGrows(log, log + [a], a, n, start, length);
  }

  /** What an admission adds to a replica's share. */
  function Adds(a: Admission, replica: nat, start: int, length: int): nat {
    if a.path == ByFallback(replica) && Within(a, start, length) then 1 else 0
  }

  lemma {:induction false} OneShareGrows(
    log: seq<Admission>, log': seq<Admission>, a: Admission, n: nat, start: int, length: int)
    requires forall i: nat :: i < n ==>
               Share(log', i, start, length) == Share(log, i, start, length) + Adds(a, i, start, length)
    ensures FallbackTotal(log', n, start, length) == FallbackTotal(log, n, start, length)
              + if a.path.ByFallback? && a.path.replica < n && Within(a, start, length) then 1 else 0
  {
    if n > 0 {
      hide Share, Within;
      OneShareGrows(log, log', a, n - 1, start, length);
    }
  }

  lemma {:induction false} RedisIdsLogged(log: seq<Admission>, start: int, length: int, id: RequestId)
    requires id in RedisIds(log, start, length)
    ensures exists i :: 0 <= i < |log| && log[i].id == id
  {
    var init, a := log[..|log| - 1], log[|log| - 1];
    if id in RedisIds(init, start, length) {
      RedisIdsLogged(init, start, length, id);
      var i :| 0 <= i < |init| && init[i].id == id;
      assert log[i].id == id;
    } else {
      assert a.id == id;
    }
  }

  lemma {:induction false} NotLogged(log: seq<Admission>, start: int, length: int, id: RequestId)
    requires forall i :: 0 <= i < |log| ==> log[i].id != id
    ensures id !in RedisIds(log, start, length)
  {
    hide RedisIds;
    if id in RedisIds(log, start, length) { RedisIdsLogged(log, start, length, id); }
  }

  /** Every admission is charged to Redis or to exactly one replica. */
  lemma {:induction false} SplitByPath(log: seq<Admission>, n: nat, start: int, length: int)
    requires KnownPaths(log, n) && forall i, j :: 0 <= i < j < |log| ==> log[i].id != log[j].id
    ensures CountIn(log, start, length) <= |RedisIds(log, start, length)| + FallbackTotal(log, n, start, length)
  {
    if log != [] {
      hide FallbackTotal, Within;
      var init, a := log[..|log| - 1], log[|log| - 1];
      assert log == init + [a];
      SplitByPath(init, n, start, length);
      FallbackTotalSnoc(init, a, n, start, length);
      NotLogged(init, start, length, a.id);
    } else {
      assert RedisIds(log, start, length) == {};
    }
  }

  // ----- the Redis half

  lemma {:induction false} ArrivalsSnoc(u: Setup, labels: seq<Label>, l: Label)
    ensures Arrivals(u, labels + [l]) == Arrivals(u, labels)
              + if l.Script? && l.key == u.key then [SW.Arrival(l.id, StampMs(l.stamp), l.r)] else []
  {
    assert (labels + [l])[..|labels|] == labels;
  }

  lemma {:induction false} RedisRunSnoc(arrivals: seq<SW.Arrival>, a: SW.Arrival, window: int, limit: int)
    ensures SW.Run(arrivals + [a], window, limit) == SW.Step(SW.Run(arrivals, window, limit), a, window, limit).0
  {
    hide SW.Step;
    assert (arrivals + [a])[..|arrivals|] == arrivals;
  }

  /** Redis sees exactly the script executions, whatever the replicas make of the replies. */
  lemma {:induction false} RedisIsScriptRun(u: Setup, labels: seq<Label>)
    ensures Run(u, labels).redis == SW.Run(Arrivals(u, labels), u.policy.windowS * 1000, u.policy.limit)
  {
    if labels != [] {
      hide SW.Step, FallbackCheck, SW.Run;
      var init, l := labels[..|labels| - 1], labels[|labels| - 1];
      RedisIsScriptRun(u, init);
      if l.Script? && l.key == u.key {
        var a := SW.Arrival(l.id, StampMs(l.stamp), l.r);
        RedisRunSnoc(Arrivals(u, init), a, u.policy.windowS * 1000, u.policy.limit);
      } else {
        assert Arrivals(u, init) + [] == Arrivals(u, init);
      }
    } else {
      assert SW.Run([], u.policy.windowS * 1000, u.policy.limit) == SW.World(SW.EMPTY, map[]);
    }
  }

  /** An id that is fresh among the arrivals has not been admitted. */
  lemma {:induction false} FreshArrival(arrivals: seq<SW.Arrival>, a: SW.Arrival, window: int, limit: int, d: int)
    requires SW.WellTimed(arrivals + [a], d)
    ensures SW.WellTimed(arrivals, d) && a.id !in SW.Run(arrivals, window, limit).admitted
  {
    hide SW.Run;
    SW.InitTimed(arrivals, a, d);
    SW.AdmittedArrived(arrivals, window, limit);
  }

  // ----- the fallback half

  /** `t` is not before any fallback check of this replica. */
  ghost predicate Reached(labels: seq<Label>, replica: nat, t: real) {
    forall i :: 0 <= i < |labels| && labels[i].Fallback? && labels[i].replica == replica ==> labels[i].clock <= t
  }

  ghost predicate AllSkewed(hist: seq<FB.Stamp>, d: int) {
    forall i :: 0 <= i < |hist| ==> FB.Skewed(hist[i], d)
  }

  ghost predicate FallbackOk(u: Setup, s: State, labels: seq<Label>, d: int, i: nat) {
    && |s.fallbacks| == u.replicas
    && i < u.replicas
    && (forall t :: Reached(labels, i, t) ==>
          FB.Remembers(s.fallbacks[i], u.key, FallbackLog(s.log, i), u.policy.windowS, t))
    && AllSkewed(FallbackLog(s.log, i), d)
    && FB.Bounded(FallbackLog(s.log, i), u.policy.windowS * 1000 - d, FB.Capacity(u.policy.limit))
  }

  lemma {:induction false} FallbackLogSnoc(log: seq<Admission>, a: Admission, i: nat)
    ensures FallbackLog(log + [a], i)
         == FallbackLog(log, i) + if a.path == ByFallback(i) then [FB.Stamp(a.clock, a.r)] else []
  {
  }

  lemma {:induction false} RemembersLater(
    f: FB.State, k: Key, hist: seq<FB.Stamp>, windowS: int, clock: real, later: real)
    requires FB.Remembers(f, k, hist, windowS, clock) && clock <= later
    ensures FB.Remembers(f, k, hist, windowS, later)
  {
  }

  lemma {:induction false} ReachedSnoc(labels: seq<Label>, l: Label, i: nat, t: real)
    requires Reached(labels + [l], i, t)
    ensures Reached(labels, i, t) && (l.Fallback? && l.replica == i ==> l.clock <= t)
  {
    var all := labels + [l];
    assert all[|labels|] == l && forall j :: 0 <= j < |labels| ==> all[j] == labels[j];
  }

  lemma {:induction false} TimedSnoc(u: Setup, labels: seq<Label>, l: Label, d: int)
    requires ChecksTimed(u, labels + [l], d)
    ensures ChecksTimed(u, labels, d)
    ensures l.Fallback? ==> Reached(labels, l.replica, l.clock)
    ensures l.Fallback? && l.key == u.key ==> FB.Skewed(FB.Stamp(l.clock, l.r), d)
  {
    hide FB.Skewed;
    var all := labels + [l];
    assert all[|labels|] == l && forall j :: 0 <= j < |labels| ==> all[j] == labels[j];
  }

  /** The replica that makes a fallback check. */
  lemma {:induction false} CheckOk(u: Setup, s: State, labels: seq<Label>, l: Label, d: int)
    requires l.Fallback? && FallbackOk(u, s, labels, d, l.replica) && ChecksTimed(u, labels + [l], d)
    requires 0 < u.policy.windowS <= 300
    ensures
      var (f, allowed) := FallbackCheck(u, s.fallbacks[l.replica], l.key, l.clock);
      var hist := FallbackLog(s.log, l.replica) + if l.key == u.key && allowed then [FB.Stamp(l.clock, l.r)] else [];
      && FB.Remembers(f, u.key, hist, u.policy.windowS, l.clock)
      && AllSkewed(hist, d)
      && FB.Bounded(hist, u.policy.windowS * 1000 - d, FB.Capacity(u.policy.limit))
  {
    hide FB.Check, FB.Remembers, FB.Skewed, FB.Bounded, FB.Capacity, ChecksTimed, Reached;
    var Policy(limit, windowS) := u.policy;
    var f, hist := s.fallbacks[l.replica], FallbackLog(s.log, l.replica);
    TimedSnoc(u, labels, l, d);
    assert hist + [] == hist;
    if l.key == u.key {
      FB.CheckRemembers(f, u.key, hist, limit, windowS, l.clock, l.clock, l.r);
      if FallbackCheck(u, f, l.key, l.clock).1 {
        FB.CheckBounded(f, u.key, hist, limit, windowS, l.clock, FB.Stamp(l.clock, l.r), d, windowS * 1000 - d);
      }
    } else {
      var p := PolicyOf(u, l.key);
      FB.OtherCheckRemembers(f, u.key, hist, windowS, l.clock, FB.Call(l.key, p.limit, p.windowS, l.clock));
    }
  }

  lemma {:induction false} FallbackKeeps(u: Setup, s: State, labels: seq<Label>, l: Label, d: int, i: nat)
    requires FallbackOk(u, s, labels, d, i) && ChecksTimed(u, labels + [l], d) && 0 < u.policy.windowS <= 300
    ensures FallbackOk(u, Step(u, s, l), labels + [l], d, i)
  {
    hide SW.Step, FB.Remembers, FB.Bounded, FB.Capacity, FallbackCheck, ChecksTimed, AllSkewed, Reached, FallbackLog;
    var s', hist := Step(u, s, l), FallbackLog(s.log, i);
    if s'.log != s.log { FallbackLogSnoc(s.log, s'.log[|s.log|], i); }
    assert hist + [] == hist;
    if l.Fallback? && l.replica == i && u.failOpen && l.id !in s.decided {
      CheckOk(u, s, labels, l, d);
      forall t | Reached(labels + [l], i, t)
        ensures FB.Remembers(s'.fallbacks[i], u.key, FallbackLog(s'.log, i), u.policy.windowS, t)
      {
        ReachedSnoc(labels, l, i, t);
        RemembersLater(s'.fallbacks[i], u.key, FallbackLog(s'.log, i), u.policy.windowS, l.clock, t);
      }
    } else {
      assert s'.fallbacks[i] == s.fallbacks[i] && FallbackLog(s'.log, i) == hist;
      forall t | Reached(labels + [l], i, t)
        ensures FB.Remembers(s'.fallbacks[i], u.key, FallbackLog(s'.log, i), u.policy.windowS, t)
      {
        ReachedSnoc(labels, l, i, t);
      }
    }
  }

  lemma {:induction false} FallbackRun(u: Setup, labels: seq<Label>, d: int, i: nat)
    requires ChecksTimed(u, labels, d) && 0 < u.policy.windowS <= 300 && i < u.replicas
    ensures FallbackOk(u, Run(u, labels), labels, d, i)
  {
    if labels == [] {
      StartFallback(u, d, i);
    } else {
      hide FallbackOk, Step, ChecksTimed;
      var init, l := labels[..|labels| - 1], labels[|labels| - 1];
      assert labels == init + [l];
      TimedSnoc(u, init, l, d);
      FallbackRun(u, init, d, i);
      FallbackKeeps(u, Run(u, init), init, l, d, i);
    }
  }

  lemma {:induction false} StartFallback(u: Setup, d: int, i: nat)
    requires i < u.replicas
    ensures FallbackOk(u, Start(u), [], d, i)
  {
  }

  // ----- the admission log

  /** Every request is admitted at most once, and what Redis admitted is charged there. */
  ghost predicate LogOk(u: Setup, s: State) {
    && |s.fallbacks| == u.replicas
    && KnownPaths(s.log, if u.failOpen then u.replicas else 0)
    && (forall i, j :: 0 <= i < j < |s.log| ==> s.log[i].id != s.log[j].id)
    && (forall i :: 0 <= i < |s.log| ==> s.log[i].id in s.decided)
    && (forall i :: 0 <= i < |s.log| && s.log[i].path.ByRedis? ==>
          s.log[i].id in s.redis.admitted && s.redis.admitted[s.log[i].id].r == s.log[i].r)
  }

  lemma {:induction false} LogStep(u: Setup, s: State, l: Label)
    requires LogOk(u, s) && (l.Script? && l.key == u.key ==> l.id !in s.redis.admitted)
    ensures LogOk(u, Step(u, s, l))
  {
    hide SW.Script, FallbackCheck;
    var s' := Step(u, s, l);
    assert forall i :: 0 <= i < |s.log| ==> s'.log[i] == s.log[i];
  }

  lemma {:induction false} LogRun(u: Setup, labels: seq<Label>, d: int)
    requires SW.WellTimed(Arrivals(u, labels), d)
    ensures LogOk(u, Run(u, labels))
  {
    if labels != [] {
      hide LogOk, Step, SW.WellTimed, Arrivals;
      var init, l := labels[..|labels| - 1], labels[|labels| - 1];
      assert labels == init + [l];
      ArrivalsSnoc(u, init, l);
      RedisIsScriptRun(u, init);
      var before := Arrivals(u, init);
      if l.Script? && l.key == u.key {
        var a := SW.Arrival(l.id, StampMs(l.stamp), l.r);
        FreshArrival(before, a, u.policy.windowS * 1000, u.policy.limit, d);
      } else {
        assert before + [] == before;
      }
      LogRun(u, init, d);
      LogStep(u, Run(u, init), l);
    }
  }

  // ----- main result

  lemma {:induction false} FallbackTotalBound(log: seq<Admission>, n: nat, start: int, length: int, cap: int)
    requires forall i: nat :: i < n ==> FB.Bounded(FallbackLog(log, i), length, cap)
    ensures FallbackTotal(log, n, start, length) <= n * Max(cap, 0)
  {
    if n > 0 {
      FallbackTotalBound(log, n - 1, start, length, cap);
      assert FB.Bounded(FallbackLog(log, n - 1), length, cap);
      assert FB.CountIn(FallbackLog(log, n - 1), start, length) <= Max(cap, 0);
      assert (n - 1) * Max(cap, 0) + Max(cap, 0) == n * Max(cap, 0);
    }
  }

  lemma {:induction false} RedisIdsCharged(
    log: seq<Admission>, admitted: map<RequestId, SW.Stamp>, start: int, length: int)
    requires forall i :: 0 <= i < |log| && log[i].path.ByRedis? ==>
               log[i].id in admitted && admitted[log[i].id].r == log[i].r
    ensures RedisIds(log, start, length) <= SW.InWindow(admitted, start, length, true)
  {
    if log != [] {
      var init := log[..|log| - 1];
      assert forall i :: 0 <= i < |init| ==> init[i] == log[i];
      RedisIdsCharged(init, admitted, start, length);
    }
  }

  lemma {:induction false} RedisShare(u: Setup, labels: seq<Label>, d: int, start: int)
    requires 0 <= d < u.policy.windowS * 1000 && SW.WellTimed(Arrivals(u, labels), d)
    ensures |RedisIds(Run(u, labels).log, start, u.policy.windowS * 1000 - d)| <= Max(u.policy.limit, 0)
  {
    hide Run, SW.Run, Arrivals, SW.WellTimed, RedisIds, SW.InWindow, KnownPaths;
    var s, length := Run(u, labels), u.policy.windowS * 1000 - d;
    LogRun(u, labels, d);
    RedisIsScriptRun(u, labels);
    RedisIdsCharged(s.log, s.redis.admitted, start, length);
    SubsetCardinality(RedisIds(s.log, start, length), SW.InWindow(s.redis.admitted, start, length, true));
    SW.WindowNeverExceeded(Arrivals(u, labels), u.policy.windowS * 1000, u.policy.limit, d, start, true);
  }

  lemma {:induction false} FallbackShare(u: Setup, labels: seq<Label>, d: int, start: int)
    requires 0 <= d < u.policy.windowS * 1000
    requires u.failOpen ==> u.policy.windowS <= 300 && ChecksTimed(u, labels, d)
    ensures
      var length := u.policy.windowS * 1000 - d;
      FallbackTotal(Run(u, labels).log, if u.failOpen then u.replicas else 0, start, length)
        <= if u.failOpen then u.replicas * (10 * Max(u.policy.limit, 0)) else 0
  {
    hide FB.Bounded, FB.Remembers, Run, ChecksTimed, AllSkewed, Reached;
    var n, length := if u.failOpen then u.replicas else 0, u.policy.windowS * 1000 - d;
    var log := Run(u, labels).log;
    forall i: nat | i < n ensures FB.Bounded(FallbackLog(log, i), length, FB.Capacity(u.policy.limit)) {
      FallbackRun(u, labels, d, i);
    }
    FallbackTotalBound(log, n, start, length, FB.Capacity(u.policy.limit));
    assert Max(FB.Capacity(u.policy.limit), 0) == 10 * Max(u.policy.limit, 0);
  }

  /**
    Main result: however Redis comes and goes, whatever replies are lost or late and however
    requests overtake each other, N fail-open replicas together admit at most (1 + 10 N) * limit
    requests of a key in any true-time interval of length W - d; failing closed, at most
    `limit`. Only the fallback limits the window to the 300 s it remembers and needs each
    replica's clock to be monotone from one fallback check to the next.
   */
  lemma {:induction false} AdmissionsBounded(u: Setup, labels: seq<Label>, d: int, start: int)
    requires 0 <= d < u.policy.windowS * 1000 && SW.WellTimed(Arrivals(u, labels), d)
    requires u.failOpen ==> u.policy.windowS <= 300 && ChecksTimed(u, labels, d)
    ensures
      var limit := Max(u.policy.limit, 0);
      var admitted := CountIn(Run(u, labels).log, start, u.policy.windowS * 1000 - d);
      && admitted <= limit + u.replicas * (10 * limit)
      && (!u.failOpen ==> admitted <= limit)
  {
    hide Run, SW.WellTimed, ChecksTimed, Arrivals, FallbackTotal, CountIn, RedisIds;
    RedisShare(u, labels, d, start);
    FallbackShare(u, labels, d, start);
    LogRun(u, labels, d);
    SplitByPath(Run(u, labels).log, if u.failOpen then u.replicas else 0, start, u.policy.windowS * 1000 - d);
    assert 0 <= u.replicas * (10 * Max(u.policy.limit, 0));
  }
}
