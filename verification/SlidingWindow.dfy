/**
  The atomic sliding-window script and the client that calls it. Replicas stamp
  requests with their own clocks (`t`); Redis expires keys by its own (`r`).
 */
module SlidingWindow {
  import opened Prelude

  type RequestId = string

  /** One rate-limit key: its sorted set and its expiry time. A missing key is the empty one. */
  datatype KeyState = KeyState(zset: map<RequestId, int>, expireAt: Option<int>)

  const EMPTY: KeyState := KeyState(map[], None)

  /** Redis deletes a key once its expiry time is reached. */
  function Live(k: KeyState, redisNow: int): KeyState {
    if k.expireAt.Some? && k.expireAt.value < redisNow then EMPTY else k
  }

  /** ZREMRANGEBYSCORE key 0 max. */
  function Purge(zset: map<RequestId, int>, max: int): map<RequestId, int> {
    map id | id in zset && !(0 <= zset[id] <= max) :: zset[id]
  }

  datatype Reply = Reply(allowed: bool, remaining: int)

  /** The whole script as one atomic step. */
  function Script(k: KeyState, t: int, window: int, limit: int, id: RequestId, redisNow: int): (KeyState, Reply) {
    var live := Live(k, redisNow);
    var zset := Purge(live.zset, t - window);
    if |zset| < limit then
      (KeyState(zset[id := t], Some(redisNow + window)), Reply(true, limit - |zset| - 1))
    else
      (KeyState(zset, if zset == map[] then None else live.expireAt), Reply(false, 0))
  }

  // ----- every run of the script on one key, with a fixed limit and window

  /** A request as it reaches Redis: stamped `t` by its replica, executed at Redis time `r`. */
  datatype Arrival = Arrival(id: RequestId, t: int, r: int)

  datatype Stamp = Stamp(t: int, r: int) {
    function At(byRedisClock: bool): int { if byRedisClock then r else t }
  }

  /** The key and the admissions so far. */
  datatype World = World(key: KeyState, admitted: map<RequestId, Stamp>)

  function Step(w: World, a: Arrival, window: int, limit: int): (World, Reply) {
    var (key, reply) := Script(w.key, a.t, window, limit, a.id, a.r);
    (World(key, if reply.allowed then w.admitted[a.id := Stamp(a.t, a.r)] else w.admitted), reply)
  }

  function Run(arrivals: seq<Arrival>, window: int, limit: int): World {
    if arrivals == [] then World(EMPTY, map[])
    else Step(Run(arrivals[..|arrivals| - 1], window, limit), arrivals[|arrivals| - 1], window, limit).0
  }

  /** Redis's clock never runs backwards, ids are fresh, and every stamp is within d/2 of Redis's clock. */
  ghost predicate WellTimed(arrivals: seq<Arrival>, d: int) {
    && (forall i :: 0 <= i < |arrivals| ==> -d <= 2 * (arrivals[i].t - arrivals[i].r) <= d)
    && (forall i, j :: 0 <= i < j < |arrivals| ==> arrivals[i].r <= arrivals[j].r && arrivals[i].id != arrivals[j].id)
  }

  /** The admissions in [start, start + length), by replica stamps or by Redis's clock. */
  function InWindow(admitted: map<RequestId, Stamp>, start: int, length: int, byRedisClock: bool): set<RequestId> {
    set id | id in admitted && start <= admitted[id].At(byRedisClock) < start + length
  }

  /**
    Everything admitted and no longer in the sorted set is too old to matter: it is at
    least W - d/2 behind Redis's clock.
   */
  ghost predicate Inv(w: World, clock: int, window: int, d: int) {
    && w.key.zset.Keys <= w.admitted.Keys
    && (forall id :: id in w.key.zset ==> w.key.zset[id] == w.admitted[id].t)
    && (forall id :: id in w.admitted ==>
          w.admitted[id].r <= clock && -d <= 2 * (w.admitted[id].t - w.admitted[id].r) <= d)
    && (w.key.zset != map[] ==> w.key.expireAt.Some?)
    && (forall id :: id in w.key.zset ==> w.admitted[id].r + window <= w.key.expireAt.value)
    && (forall id :: id in w.admitted && id !in w.key.zset ==> 2 * (clock - w.admitted[id].t) >= 2 * window - d)
  }

  /** No window of the given length holds more than `limit` admissions. */
  ghost predicate Bounded(admitted: map<RequestId, Stamp>, length: int, limit: int) {
    forall start, byRedisClock :: |InWindow(admitted, start, length, byRedisClock)| <= Max(limit, 0)
  }

  /** An admission the purged set has lost is W - d away from this arrival on both clocks. */
  lemma {:induction false} LostIsOld(w: World, clock: int, a: Arrival, window: int, d: int, id: RequestId)
    requires Inv(w, clock, window, d) && clock <= a.r && -d <= 2 * (a.t - a.r) <= d
    requires id in w.admitted && id !in Purge(Live(w.key, a.r).zset, a.t - window)
    ensures 2 * (a.r - w.admitted[id].t) >= 2 * window - d
    ensures a.t - w.admitted[id].t >= window - d && a.r - w.admitted[id].r >= window - d
  {
  }

  lemma {:induction false} StepKeepsInv(w: World, clock: int, a: Arrival, window: int, limit: int, d: int)
    requires Inv(w, clock, window, d) && clock <= a.r && -d <= 2 * (a.t - a.r) <= d && a.id !in w.admitted
    ensures Inv(Step(w, a, window, limit).0, a.r, window, d)
  {
  }

  /** What the script counts at this arrival. */
  function Seen(w: World, a: Arrival, window: int): set<RequestId> {
    Purge(Live(w.key, a.r).zset, a.t - window).Keys
  }

  lemma {:induction false} StepAdmits(w: World, a: Arrival, window: int, limit: int)
    ensures
      var (w', reply) := Step(w, a, window, limit);
      var n := |Seen(w, a, window)|;
      && reply == (if n < limit then Reply(true, limit - n - 1) else Reply(false, 0))
      && w'.admitted == (if n < limit then w.admitted[a.id := Stamp(a.t, a.r)] else w.admitted)
  {
  }

  /** An admission joins a window of length at most W - d only with admissions the script still counts. */
  lemma {:induction false} OneWindow(
    w: World, clock: int, a: Arrival, window: int, limit: int, d: int, start: int, length: int, byRedisClock: bool)
    requires Inv(w, clock, window, d) && clock <= a.r && -d <= 2 * (a.t - a.r) <= d && a.id !in w.admitted
    requires length <= window - d && |Seen(w, a, window)| < limit
    requires |InWindow(w.admitted, start, length, byRedisClock)| <= Max(limit, 0)
    ensures |InWindow(w.admitted[a.id := Stamp(a.t, a.r)], start, length, byRedisClock)| <= Max(limit, 0)
  {
    hide Inv, Purge, Live;
    var before := InWindow(w.admitted, start, length, byRedisClock);
    var after := InWindow(w.admitted[a.id := Stamp(a.t, a.r)], start, length, byRedisClock);
    if a.id in after {
      forall id | id in before ensures id in Seen(w, a, window) {
        if id !in Seen(w, a, window) { LostIsOld(w, clock, a, window, d, id); }
      }
      SubsetCardinality(before, Seen(w, a, window));
      assert after == before + {a.id};
    } else {
      assert after == before;
    }
  }

  lemma {:induction false} StepKeepsBound(
    w: World, clock: int, a: Arrival, window: int, limit: int, d: int, length: int)
    requires Inv(w, clock, window, d) && clock <= a.r && -d <= 2 * (a.t - a.r) <= d && a.id !in w.admitted
    requires length <= window - d && Bounded(w.admitted, length, limit)
    ensures Bounded(Step(w, a, window, limit).0.admitted, length, limit)
  {
    hide Inv, Step, Seen, InWindow;
    StepAdmits(w, a, window, limit);
    var w' := Step(w, a, window, limit).0;
    if |Seen(w, a, window)| < limit {
      forall start, byRedisClock ensures |InWindow(w'.admitted, start, length, byRedisClock)| <= Max(limit, 0) {
        OneWindow(w, clock, a, window, limit, d, start, length, byRedisClock);
      }
    }
  }

  lemma {:induction false} RunKeeps(arrivals: seq<Arrival>, window: int, limit: int, d: int, length: int)
    requires WellTimed(arrivals, d) && length <= window - d
    ensures
      var w := Run(arrivals, window, limit);
      && Inv(w, if arrivals == [] then 0 else arrivals[|arrivals| - 1].r, window, d)
      && Bounded(w.admitted, length, limit)
  {
    if arrivals == [] {
      NothingBounded(length, limit);
    } else {
      hide Inv, Bounded, Step;
      var init, a := arrivals[..|arrivals| - 1], arrivals[|arrivals| - 1];
      RunKeeps(init, window, limit, d, length);
      AdmittedArrived(init, window, limit);
      var w := Run(init, window, limit);
      assert a.id !in w.admitted;
      var clock := if init == [] then a.r else init[|init| - 1].r;
      if init == [] { InitAt(a.r, window, d); }
      StepKeepsInv(w, clock, a, window, limit, d);
      StepKeepsBound(w, clock, a, window, limit, d, length);
    }
  }

  lemma {:induction false} AdmittedArrived(arrivals: seq<Arrival>, window: int, limit: int)
    ensures forall id :: id in Run(arrivals, window, limit).admitted ==>
              exists i :: 0 <= i < |arrivals| && arrivals[i].id == id
  {
    if arrivals != [] {
      hide Script;
      var init, a := arrivals[..|arrivals| - 1], arrivals[|arrivals| - 1];
      AdmittedArrived(init, window, limit);
      forall id | id in Run(arrivals, window, limit).admitted
        ensures exists i :: 0 <= i < |arrivals| && arrivals[i].id == id
      {
        if id == a.id {
          assert arrivals[|arrivals| - 1].id == id;
        } else {
          assert id in Run(init, window, limit).admitted;
          var i :| 0 <= i < |init| && init[i].id == id;
          assert arrivals[i].id == id;
        }
      }
    }
  }

  lemma {:induction false} NothingBounded(length: int, limit: int)
    ensures Bounded(map[], length, limit)
  {
  }

  lemma {:induction false} InitAt(clock: int, window: int, d: int)
    ensures Inv(World(EMPTY, map[]), clock, window, d)
  {
  }

  /**
    Main result: with stamps within d/2 of Redis's clock, no half-open interval of length
    W - d anywhere in a run holds more than `limit` admissions, measured by the replicas'
    stamps or by Redis's clock, despite purging and key expiry.
   */
  lemma {:induction false} WindowNeverExceeded(
    arrivals: seq<Arrival>, window: int, limit: int, d: int, start: int, byRedisClock: bool)
    requires 0 <= d < window && WellTimed(arrivals, d)
    ensures |InWindow(Run(arrivals, window, limit).admitted, start, window - d, byRedisClock)| <= Max(limit, 0)
  {
    RunKeeps(arrivals, window, limit, d, window - d);
  }

  // ----- one clock: the script is the limiter that never forgets

  /** The admissions in (now - W, now]. */
  function Inside(admitted: map<RequestId, Stamp>, now: int, window: int): set<RequestId> {
    set id | id in admitted && now - window < admitted[id].t <= now
  }

  /** What a limiter would answer that keeps every admission forever. */
  function Ideal(admitted: map<RequestId, Stamp>, now: int, window: int, limit: int): Reply {
    var n := |Inside(admitted, now, window)|;
    if n < limit then Reply(true, limit - n - 1) else Reply(false, 0)
  }

  /** On one monotone clock the script answers, call by call, exactly as the ideal limiter. */
  lemma {:induction false} ScriptIsIdeal(arrivals: seq<Arrival>, a: Arrival, window: int, limit: int)
    requires WellTimed(arrivals + [a], 0) && window > 0
    requires forall i :: 0 <= i < |arrivals| ==> arrivals[i].t >= 0
    ensures
      var w := Run(arrivals, window, limit);
      Step(w, a, window, limit).1 == Ideal(w.admitted, a.t, window, limit)
  {
    hide Inv, Seen, Inside, Step, Bounded;
    var w := Run(arrivals, window, limit);
    var all := arrivals + [a];
    assert forall i :: 0 <= i < |arrivals| ==> all[i] == arrivals[i];
    assert all[|arrivals|] == a;
    RunKeeps(arrivals, window, limit, 0, window);
    NonNegative(arrivals, window, limit);
    if arrivals == [] {
      InitAt(a.r, window, 0);
      PurgedIsWindow(w, a.r, a, window);
    } else {
      PurgedIsWindow(w, arrivals[|arrivals| - 1].r, a, window);
    }
    StepAdmits(w, a, window, limit);
  }

  lemma {:induction false} PurgedIsWindow(w: World, clock: int, a: Arrival, window: int)
    requires Inv(w, clock, window, 0) && clock <= a.r && a.t == a.r
    requires forall id :: id in w.admitted ==> w.admitted[id].t >= 0
    ensures Seen(w, a, window) == Inside(w.admitted, a.t, window)
  {
  }

  lemma {:induction false} NonNegative(arrivals: seq<Arrival>, window: int, limit: int)
    requires forall i :: 0 <= i < |arrivals| ==> arrivals[i].t >= 0
    ensures forall id :: id in Run(arrivals, window, limit).admitted ==>
              Run(arrivals, window, limit).admitted[id].t >= 0
  {
    if arrivals != [] { NonNegative(arrivals[..|arrivals| - 1], window, limit); }
  }

  /** A burst of n requests at one instant on an empty key gets exactly min(n, limit) admissions. */
  lemma {:induction false} BurstAdmitsLimit(arrivals: seq<Arrival>, now: int, window: int, limit: int)
    requires WellTimed(arrivals, 0) && window > 0 && now >= 0
    requires forall i :: 0 <= i < |arrivals| ==> arrivals[i].t == now
    ensures |Run(arrivals, window, limit).admitted| == Min(|arrivals|, Max(limit, 0))
  {
    if arrivals != [] {
      hide Step, Inv, Ideal, WellTimed;
      var init, a := arrivals[..|arrivals| - 1], arrivals[|arrivals| - 1];
      assert arrivals == init + [a];
      InitTimed(init, a, 0);
      BurstAdmitsLimit(init, now, window, limit);
      ScriptIsIdeal(init, a, window, limit);
      SameInstant(init, now, window, limit);
      AdmittedArrived(init, window, limit);
      BurstStep(Run(init, window, limit), a, now, window, limit);
    }
  }

  lemma {:induction false} InitTimed(init: seq<Arrival>, a: Arrival, d: int)
    requires WellTimed(init + [a], d)
    ensures WellTimed(init, d) && forall i :: 0 <= i < |init| ==> init[i].id != a.id
  {
    var all := init + [a];
    assert all[|init|] == a && forall i :: 0 <= i < |init| ==> all[i] == init[i];
  }

  lemma {:induction false} BurstStep(w: World, a: Arrival, now: int, window: int, limit: int)
    requires a.t == now && a.id !in w.admitted && window > 0
    requires forall id :: id in w.admitted ==> w.admitted[id].t == now
    requires Step(w, a, window, limit).1 == Ideal(w.admitted, now, window, limit)
    ensures |Step(w, a, window, limit).0.admitted| == |w.admitted| + if |w.admitted| < limit then 1 else 0
  {
    hide Script;
    assert Inside(w.admitted, now, window) == w.admitted.Keys;
    assert |w.admitted.Keys| == |w.admitted|;
    assert w.admitted[a.id := Stamp(a.t, a.r)].Keys == w.admitted.Keys + {a.id};
  }

  lemma {:induction false} SameInstant(arrivals: seq<Arrival>, now: int, window: int, limit: int)
    requires forall i :: 0 <= i < |arrivals| ==> arrivals[i].t == now
    ensures forall id :: id in Run(arrivals, window, limit).admitted ==>
              Run(arrivals, window, limit).admitted[id].t == now
  {
    if arrivals != [] { SameInstant(arrivals[..|arrivals| - 1], now, window, limit); }
  }

  // ----- how long an interval can be

  /** Stamps are whole milliseconds, so an odd skew allows no more than the even one below it. */
  lemma {:induction false} EvenSkew(arrivals: seq<Arrival>, d: nat)
    ensures WellTimed(arrivals, d) <==> WellTimed(arrivals, 2 * (d / 2))
  {
    var h: int := d / 2;
    assert d == 2 * h || d == 2 * h + 1;
  }

  function Name(i: nat): RequestId {
    seq(i, _ => 'x')
  }

  /** `n` requests stamped 0 that reach Redis at `h`. */
  function EarlyBurst(n: nat, h: int): seq<Arrival> {
    seq(n, i requires 0 <= i => Arrival(Name(i), 0, h))
  }

  function Names(n: nat): set<RequestId> {
    set i | 0 <= i < n :: Name(i)
  }

  lemma {:induction false} NamesCount(n: nat)
    ensures |Names(n)| == n
  {
    if n > 0 {
      hide Names;
      NamesCount(n - 1);
      NamesSnoc(n - 1);
      NameIsFresh(n - 1);
    }
  }

  lemma {:induction false} NameIsFresh(n: nat)
    ensures Name(n) !in Names(n)
  {
    assert forall i :: 0 <= i < n ==> |Name(i)| == i;
  }

  /** All of the burst is in the set and admitted, each with stamp 0 at time `h`. */
  ghost predicate BurstIn(w: World, n: nat, h: int, window: int) {
    && w.key.zset.Keys == Names(n) == w.admitted.Keys
    && (forall id :: id in w.key.zset ==> w.key.zset[id] == 0 && w.admitted[id] == Stamp(0, h))
    && (if n == 0 then w.key == EMPTY else w.key.expireAt == Some(h + window))
  }

  lemma {:induction false} BurstOneMore(w: World, n: nat, h: int, window: int, limit: int)
    requires BurstIn(w, n, h, window) && n < limit && window > 0
    ensures BurstIn(Step(w, Arrival(Name(n), 0, h), window, limit).0, n + 1, h, window)
  {
    hide Names, Name;
    NamesCount(n);
    NamesSnoc(n);
    assert Live(w.key, h) == w.key;
    assert Purge(w.key.zset, 0 - window) == w.key.zset;
    assert |w.key.zset| == |w.key.zset.Keys| == n;
  }

  lemma {:induction false} NamesSnoc(n: nat)
    ensures Names(n + 1) == Names(n) + {Name(n)}
  {
    hide Name;
  }

  lemma {:induction false} BurstRuns(n: nat, h: int, window: int, limit: int)
    requires n <= limit && window > 0
    ensures BurstIn(Run(EarlyBurst(n, h), window, limit), n, h, window)
  {
    if n > 0 {
      hide Step;
      BurstRuns(n - 1, h, window, limit);
      assert EarlyBurst(n, h)[..n - 1] == EarlyBurst(n - 1, h);
      BurstOneMore(Run(EarlyBurst(n - 1, h), window, limit), n - 1, h, window, limit);
    }
  }

  /** A request stamped a whole window later purges the burst and is admitted. */
  lemma {:induction false} LateOneMore(w: World, n: nat, h: int, window: int, limit: int, r: int)
    requires BurstIn(w, n, h, window) && n > 0 && limit > 0
    ensures Step(w, Arrival(Name(n), window, r), window, limit).0.admitted == w.admitted[Name(n) := Stamp(window, r)]
  {
    assert Purge(Live(w.key, r).zset, 0) == map[];
  }

  /** `limit` requests as late on Redis's clock as the skew allows, and one a window later as early as it allows. */
  function Straddle(limit: nat, h: int, window: int): seq<Arrival> {
    EarlyBurst(limit, h) + [Arrival(Name(limit), window, window - h)]
  }

  lemma {:induction false} StraddleTimed(limit: nat, h: nat, window: int)
    requires 2 * h <= window
    ensures WellTimed(Straddle(limit, h, window), 2 * h)
  {
    var all := Straddle(limit, h, window);
    forall i, j | 0 <= i < j < |all| ensures all[i].r <= all[j].r && all[i].id != all[j].id {
      assert |all[i].id| == i && |all[j].id| == j;
    }
  }

  /** One admission more than the limit lies in [h, W - h]. */
  lemma {:induction false} StraddleExceeds(limit: nat, h: nat, window: int, length: int)
    requires limit > 0 && 2 * h <= window && window > 0 && window - 2 * h < length
    ensures |InWindow(Run(Straddle(limit, h, window), window, limit).admitted, h, length, true)| == limit + 1
  {
    hide Step;
    var all, late := Straddle(limit, h, window), Arrival(Name(limit), window, window - h);
    assert all[..limit] == EarlyBurst(limit, h);
    BurstRuns(limit, h, window, limit);
    var w := Run(EarlyBurst(limit, h), window, limit);
    LateOneMore(w, limit, h, window, limit, window - h);
    NamesCount(limit + 1);
    assert Names(limit + 1) == Names(limit) + {Name(limit)};
    assert InWindow(Run(all, window, limit).admitted, h, length, true) == Names(limit + 1);
  }

  /** The limit holds on every interval of the given length in every well-timed run. */
  ghost predicate HoldsOn(length: int, window: int, limit: int, d: int) {
    forall arrivals: seq<Arrival>, start: int, byRedisClock: bool :: WellTimed(arrivals, d) ==>
      |InWindow(Run(arrivals, window, limit).admitted, start, length, byRedisClock)| <= limit
  }

  /**
    Main result: for every limit, window and skew the limit holds on the intervals of a given
    length exactly when they are no longer than the window less the skew, where an odd skew
    counts as one less.
   */
  lemma {:induction false} BoundIsSharp(length: int, window: int, limit: int, d: nat)
    requires limit > 0 && window > 0 && 2 * (d / 2) <= window
    ensures HoldsOn(length, window, limit, d) <==> length <= window - 2 * (d / 2)
  {
    hide Run, InWindow, WellTimed;
    var h := d / 2;
    if length <= window - 2 * h {
      forall arrivals: seq<Arrival>, start: int, byRedisClock: bool | WellTimed(arrivals, d)
        ensures |InWindow(Run(arrivals, window, limit).admitted, start, length, byRedisClock)| <= limit
      {
        EvenSkew(arrivals, d);
        RunKeeps(arrivals, window, limit, 2 * h, length);
      }
    } else {
      StraddleTimed(limit, h, window);
      EvenSkew(Straddle(limit, h, window), d);
      StraddleExceeds(limit, h, window, length);
    }
  }

  // ----- the Redis server and check_rate_limit

  /** The part of Redis the limiter uses: its keys and whether the script is cached. */
  class RedisServer {
    var keys: map<string, KeyState>
    var scriptLoaded: bool

    constructor ()
      ensures keys == map[] && !scriptLoaded
    {
      keys, scriptLoaded := map[], false;
    }

    ghost function Key(name: string): KeyState
      reads this
    {
      if name in keys then keys[name] else EMPTY
    }

    /** EVALSHA: the script's own steps, or NOSCRIPT when it is not cached. */
    method EvalSha(name: string, nowMs: int, windowMs: int, limit: int, id: RequestId, redisNow: int)
      returns (reply: Option<Reply>)
      modifies this`keys
      ensures reply.Some? <==> scriptLoaded
      ensures reply.None? ==> keys == old(keys)
      ensures reply.Some? ==>
        var (key, answer) := Script(old(Key(name)), nowMs, windowMs, limit, id, redisNow);
        keys == old(keys)[name := key] && reply.value == answer
      ensures reply.Some? && reply.value.allowed ==>
        && name in keys && keys[name].expireAt == Some(redisNow + windowMs)
        && id in keys[name].zset && keys[name].zset[id] == nowMs
    {
      if !scriptLoaded { return None; }
      var key := if name in keys then keys[name] else EMPTY;
      if key.expireAt.Some? && key.expireAt.value < redisNow { key := EMPTY; }
      key := key.(zset := map i | i in key.zset && !(0 <= key.zset[i] <= nowMs - windowMs) :: key.zset[i]);
      if key.zset == map[] { key := EMPTY; }
      var count := |key.zset|;
      if count < limit {
        key := key.(zset := key.zset[id := nowMs]);
        key := key.(expireAt := Some(redisNow + windowMs));
        reply := Some(Reply(true, limit - count - 1));
      } else {
        reply := Some(Reply(false, 0));
      }
      keys := keys[name := key];
    }
  }

  /** What the network does to one command: nothing, drop it, or drop only its reply. */
  datatype Fault = Fine | Dropped | ReplyLost

  /** Faults of the up to four commands of one check, and script-cache flushes before each EVALSHA. */
  datatype Network = Network(load0: Fault, flush0: bool, eval0: Fault, load1: Fault, flush1: bool, eval1: Fault)

  /** A replica's client; `knowsSha` is whether the global _script_sha is set. */
  class RateLimiter {
    var knowsSha: bool

    constructor ()
      ensures !knowsSha
    {
      knowsSha := false;
    }

    method LoadScript(server: RedisServer, fault: Fault) returns (ok: bool)
      modifies this, server`scriptLoaded
      ensures ok <==> fault.Fine?
      ensures ok ==> server.scriptLoaded && knowsSha
      ensures server.scriptLoaded == (old(server.scriptLoaded) || !fault.Dropped?)
      ensures knowsSha == (old(knowsSha) || fault.Fine?)
    {
      if fault.Dropped? { return false; }
      server.scriptLoaded := true;
      if fault.ReplyLost? { return false; }
      knowsSha := true;
      return true;
    }

    /**
      check_rate_limit with its single NOSCRIPT retry under the same request id. `None` is
      a RedisError. A returned answer means the script ran exactly once; an error means it
      ran at most once, and no other key is ever touched. One flush of Redis's script cache
      is survived.
     */
    method Check(server: RedisServer, name: string, clock: real, limit: int, windowS: int, id: RequestId,
                 redisNow: int, net: Network) returns (answer: Option<Reply>)
      requires clock >= 0.0
      modifies this, server
      ensures
        var (key, reply) := Script(old(server.Key(name)), (clock * 1000.0).Floor, windowS * 1000, limit, id, redisNow);
        && (answer.Some? ==> server.keys == old(server.keys)[name := key] && answer.value == reply)
        && (answer.None? ==> server.keys == old(server.keys) || server.keys == old(server.keys)[name := key])
      ensures net.load0.Fine? && net.eval0.Fine? && net.load1.Fine? && net.eval1.Fine? && !net.flush1 ==> answer.Some?
    {
      var nowMs := (clock * 1000.0).Floor;
      if !knowsSha {
        var ok := LoadScript(server, net.load0);
        if !ok { return None; }
      }
      if net.flush0 { server.scriptLoaded := false; }
      if net.eval0.Dropped? { return None; }
      answer := server.EvalSha(name, nowMs, windowS * 1000, limit, id, redisNow);
      if net.eval0.ReplyLost? { return None; }
      if answer.None? {
        var ok := LoadScript(server, net.load1);
        if !ok { return None; }
        if net.flush1 { server.scriptLoaded := false; }
        if net.eval1.Dropped? { return None; }
        answer := server.EvalSha(name, nowMs, windowS * 1000, limit, id, redisNow);
        if net.eval1.ReplyLost? { return None; }
      }
    }
  }
}
