/**
  The per-replica limiter used while Redis is unreachable: a list of admission times per
  key, with whole keys evicted after 300 idle seconds whatever their window is.
 */
module FallbackLimiter {
  import opened Prelude

  /** FALLBACK_MULTIPLIER times the policy's limit. */
  function Capacity(limit: int): int { limit * 10 }

  const EVICT_IDLE_S := 300.0

  type Key = string

  /** Values of the two module dictionaries. */
  datatype State = State(buckets: map<Key, seq<real>>, lastSeen: map<Key, real>) {
    function Bucket(k: Key): seq<real> { if k in buckets then buckets[k] else [] }
  }

  function Empty(): State { State(map[], map[]) }

  /** The times strictly after `cutoff`, in order. */
  function After(ts: seq<real>, cutoff: real): seq<real> {
    if ts == [] then []
    else After(ts[..|ts| - 1], cutoff) + if ts[|ts| - 1] > cutoff then [ts[|ts| - 1]] else []
  }

  /** Where the times after `cutoff` are. */
  function LaterThan(ts: seq<real>, cutoff: real): set<nat> {
    set i: nat | i < |ts| && cutoff < ts[i]
  }

  /** The filter keeps one time per position after the cutoff. */
  lemma {:induction false} AfterIsSet(ts: seq<real>, cutoff: real)
    ensures |After(ts, cutoff)| == |LaterThan(ts, cutoff)|
  {
    if ts == [] {
      assert LaterThan(ts, cutoff) == {};
    } else {
      var n := |ts| - 1;
      AfterIsSet(ts[..n], cutoff);
      assert LaterThan(ts, cutoff) == LaterThan(ts[..n], cutoff) + if cutoff < ts[n] then {n} else {};
    }
  }

  datatype Call = Call(key: Key, limit: int, windowS: int, now: real)

  predicate Stale(f: State, k: Key, now: real) {
    k in f.lastSeen && now - f.lastSeen[k] > EVICT_IDLE_S
  }

  /** _evict_stale. */
  function Evict(f: State, now: real): State {
    State(map k | k in f.buckets && !Stale(f, k, now) :: f.buckets[k],
          map k | k in f.lastSeen && !Stale(f, k, now) :: f.lastSeen[k])
  }

  /** in_memory_check after eviction: filter the bucket, then admit below ten times the limit. */
  function Decide(f: State, c: Call): (State, bool) {
    var recent := After(f.Bucket(c.key), c.now - c.windowS as real);
    var allowed := |recent| < Capacity(c.limit);
    (State(f.buckets[c.key := if allowed then recent + [c.now] else recent], f.lastSeen[c.key := c.now]), allowed)
  }

  function Check(f: State, c: Call): (State, bool) {
    Decide(Evict(f, c.now), c)
  }

  /** The replica's dictionaries as the code updates them. */
  class Limiter {
    var buckets: map<Key, seq<real>>
    var lastSeen: map<Key, real>

    ghost function Value(): State
      reads this
    {
      State(buckets, lastSeen)
    }

    constructor ()
      ensures Value() == Empty()
    {
      buckets, lastSeen := map[], map[];
    }

    method EvictStale(now: real)
      modifies this
      ensures Value() == Evict(old(Value()), now)
    {
      var stale := set k | k in lastSeen && now - lastSeen[k] > EVICT_IDLE_S;
      var todo := stale;
      while todo != {}
        invariant todo <= stale
        invariant forall k :: k in lastSeen <==> k in old(lastSeen) && k !in stale - todo
        invariant forall k :: k in buckets <==> k in old(buckets) && k !in stale - todo
        invariant forall k :: k in lastSeen ==> lastSeen[k] == old(lastSeen)[k]
        invariant forall k :: k in buckets ==> buckets[k] == old(buckets)[k]
        decreases todo
      {
        var k :| k in todo;
        lastSeen := lastSeen - {k};
        buckets := buckets - {k};
        todo := todo - {k};
      }
    }

    method InMemoryCheck(key: Key, limit: int, windowS: int, now: real) returns (allowed: bool)
      modifies this
      ensures (Value(), allowed) == Check(old(Value()), Call(key, limit, windowS, now))
      ensures
        var idle := key in old(lastSeen) && now - old(lastSeen)[key] > 300.0;
        var bucket := if key in old(buckets) && !idle then old(buckets)[key] else [];
        allowed <==> |LaterThan(bucket, now - windowS as real)| < 10 * limit
    {
      hide LaterThan, After, Evict;
      ghost var before := Value();
      EvictStale(now);
      ghost var evicted := Value();
      EvictedBucket(before, key, now);
      lastSeen := lastSeen[key := now];
      var bucket := if key in buckets then buckets[key] else [];
      var recent := KeepAfter(bucket, now - windowS as real);
      buckets := buckets[key := recent];
      allowed := |recent| < Capacity(limit);
      if allowed { buckets := buckets[key := recent + [now]]; }
      assert buckets == evicted.buckets[key := if allowed then recent + [now] else recent];
      AfterIsSet(bucket, now - windowS as real);
    }
  }

  /** The list comprehension that filters a bucket. */
  method KeepAfter(bucket: seq<real>, cutoff: real) returns (recent: seq<real>)
    ensures recent == After(bucket, cutoff)
  {
    recent := [];
    for i := 0 to |bucket|
      invariant recent == After(bucket[..i], cutoff)
    {
      assert bucket[..i + 1][..i] == bucket[..i];
      if bucket[i] > cutoff { recent := recent + [bucket[i]]; }
    }
    assert bucket[..|bucket|] == bucket;
  }

  /** A bucket survives eviction unless its key was idle for more than 300 s. */
  lemma {:induction false} EvictedBucket(f: State, k: Key, now: real)
    ensures
      var idle := k in f.lastSeen && now - f.lastSeen[k] > 300.0;
      Evict(f, now).Bucket(k) == if k in f.buckets && !idle then f.buckets[k] else []
  {
  }

  // ----- eviction never changes a decision when windows are at most 300 s

  function RunState(calls: seq<Call>, evicting: bool): State {
    if calls == [] then Empty()
    else
      var f, c := RunState(calls[..|calls| - 1], evicting), calls[|calls| - 1];
      (if evicting then Check(f, c) else Decide(f, c)).0
  }

  /** The answer to call `c` after the given calls. */
  function Answer(calls: seq<Call>, c: Call, evicting: bool): bool {
    var f := RunState(calls, evicting);
    (if evicting then Check(f, c) else Decide(f, c)).1
  }

  ghost predicate Monotone(calls: seq<Call>) {
    forall i, j :: 0 <= i < j < |calls| ==> calls[i].now <= calls[j].now
  }

  /** Every call on key `k` uses a window of at most 300 s. */
  ghost predicate ShortWindows(calls: seq<Call>, k: Key) {
    forall i :: 0 <= i < |calls| && calls[i].key == k ==> calls[i].windowS <= 300
  }

  function Clock(calls: seq<Call>): real {
    if calls == [] then 0.0 else calls[|calls| - 1].now
  }

  /** Both dictionaries have the same keys, none idle for more than 300 s. */
  ghost predicate Tidy(f: State, now: real) {
    && f.buckets.Keys == f.lastSeen.Keys
    && (forall k :: k in f.lastSeen ==> now - f.lastSeen[k] <= EVICT_IDLE_S)
  }

  /** After every call of every run the dictionaries are tidy, whatever the clock did before. */
  lemma {:induction false} AlwaysTidy(calls: seq<Call>)
    requires calls != []
    ensures Tidy(RunState(calls, true), Clock(calls))
  {
    var init, c := calls[..|calls| - 1], calls[|calls| - 1];
    if init != [] { AlwaysTidy(init); }
    TidyStep(RunState(init, true), c);
  }

  lemma {:induction false} TidyStep(f: State, c: Call)
    requires f.buckets.Keys == f.lastSeen.Keys
    ensures Tidy(Check(f, c).0, c.now)
  {
  }

  ghost predicate AtMost(ts: seq<real>, top: real) {
    forall i :: 0 <= i < |ts| ==> ts[i] <= top
  }

  /** The evicting limiter `e` and the one `n` that never evicts agree on key `k` at time `now`. */
  ghost predicate Agree(e: State, n: State, k: Key, now: real) {
    && (k in e.buckets <==> k in e.lastSeen)
    && (k in e.buckets ==>
          k in n.buckets && k in n.lastSeen && e.buckets[k] == n.buckets[k] && e.lastSeen[k] == n.lastSeen[k])
    && (k in n.buckets ==> k in n.lastSeen && n.lastSeen[k] <= now)
    && (k in n.buckets ==> AtMost(n.buckets[k], n.lastSeen[k]))
    && (k in n.buckets && k !in e.buckets ==> now - n.lastSeen[k] > EVICT_IDLE_S)
  }

  lemma {:induction false} AfterBound(ts: seq<real>, cutoff: real, top: real)
    requires AtMost(ts, top)
    ensures AtMost(After(ts, cutoff), top)
    ensures top <= cutoff ==> After(ts, cutoff) == []
  {
    if ts != [] { AfterBound(ts[..|ts| - 1], cutoff, top); }
  }

  lemma {:induction false} AgreeStep(e: State, n: State, k: Key, before: real, c: Call)
    requires Agree(e, n, k, before) && before <= c.now
    requires c.key == k ==> c.windowS <= 300
    ensures Agree(Check(e, c).0, Decide(n, c).0, k, c.now)
    ensures c.key == k ==> Check(e, c).1 == Decide(n, c).1
  {
    hide After;
    if c.key == k {
      var cutoff := c.now - c.windowS as real;
      if k in n.buckets {
        AfterBound(n.buckets[k], cutoff, n.lastSeen[k]);
        AfterBound(n.buckets[k], cutoff, c.now);
      }
      EmptyAfter(cutoff);
      assert After(Evict(e, c.now).Bucket(k), cutoff) == After(n.Bucket(k), cutoff);
      assert AtMost(After(n.Bucket(k), cutoff) + [c.now], c.now);
    }
  }

  lemma {:induction false} EmptyAfter(cutoff: real)
    ensures After([], cutoff) == []
  {
  }

  lemma {:induction false} RunsAgree(calls: seq<Call>, k: Key)
    requires Monotone(calls) && ShortWindows(calls, k)
    ensures Agree(RunState(calls, true), RunState(calls, false), k, Clock(calls))
  {
    if calls != [] {
      hide Agree, Check, Decide;
      var init, c := calls[..|calls| - 1], calls[|calls| - 1];
      RunsAgree(init, k);
      if init == [] {
        AgreeAtStart(k, c.now);
        AgreeStep(Empty(), Empty(), k, c.now, c);
      } else {
        AgreeStep(RunState(init, true), RunState(init, false), k, Clock(init), c);
      }
    }
  }

  lemma {:induction false} AgreeAtStart(k: Key, now: real)
    ensures Agree(Empty(), Empty(), k, now)
  {
  }

  /** Main result: with windows of at most 300 s, eviction is invisible on every call of every run. */
  lemma {:induction false} EvictionInvisible(calls: seq<Call>, c: Call)
    requires Monotone(calls + [c]) && ShortWindows(calls + [c], c.key)
    ensures Answer(calls, c, true) == Answer(calls, c, false)
  {
    hide Check, Decide;
    var all := calls + [c];
    assert all[|calls|] == c && all[..|calls|] == calls;
    assert forall i :: 0 <= i < |calls| ==> all[i] == calls[i];
    RunsAgree(calls, c.key);
    if calls == [] {
      AgreeAtStart(c.key, c.now);
      AgreeStep(Empty(), Empty(), c.key, c.now, c);
    } else {
      AgreeStep(RunState(calls, true), RunState(calls, false), c.key, Clock(calls), c);
    }
  }

  // ----- who is admitted, without the buckets

  /** Every call on key `k` uses the window `windowS`. */
  ghost predicate OneWindow(calls: seq<Call>, k: Key, windowS: int) {
    forall i :: 0 <= i < |calls| && calls[i].key == k ==> calls[i].windowS == windowS
  }

  /** The calls on key `k` that were admitted later than `cutoff`. */
  function AdmittedAfter(calls: seq<Call>, k: Key, cutoff: real): set<nat> {
    set i: nat | i < |calls| && calls[i].key == k && Answer(calls[..i], calls[i], true) && cutoff < calls[i].now
  }

  /** Their times, in order, by the limiter that never evicts. */
  function Admissions(calls: seq<Call>, k: Key): seq<real> {
    if calls == [] then []
    else
      var init, c := calls[..|calls| - 1], calls[|calls| - 1];
      Admissions(init, k) + if c.key == k && Answer(init, c, false) then [c.now] else []
  }

  lemma {:induction false} PrefixShort(calls: seq<Call>, c: Call)
    requires Monotone(calls + [c]) && ShortWindows(calls + [c], c.key)
    ensures Monotone(calls) && ShortWindows(calls, c.key) && forall i :: 0 <= i < |calls| ==> calls[i].now <= c.now
  {
    var all := calls + [c];
    assert all[|calls|] == c && forall i :: 0 <= i < |calls| ==> all[i] == calls[i];
  }

  /** From any cutoff at or after the last window's, the bucket holds what was ever admitted. */
  ghost predicate Complete(f: State, k: Key, admitted: seq<real>, windowS: int, clock: real) {
    forall cutoff :: clock - windowS as real <= cutoff ==> After(f.Bucket(k), cutoff) == After(admitted, cutoff)
  }

  lemma {:induction false} CompleteStep(f: State, k: Key, admitted: seq<real>, windowS: int, clock: real, c: Call)
    requires Complete(f, k, admitted, windowS, clock) && clock <= c.now && (c.key == k ==> c.windowS == windowS)
    ensures
      var (f', allowed) := Decide(f, c);
      Complete(f', k, if c.key == k && allowed then admitted + [c.now] else admitted, windowS, c.now)
  {
    hide After;
    var (f', allowed) := Decide(f, c);
    if c.key == k {
      var at := c.now - windowS as real;
      forall cutoff | at <= cutoff
        ensures After(f'.Bucket(k), cutoff) == After(if allowed then admitted + [c.now] else admitted, cutoff)
      {
        FilterKeeps(f.Bucket(k), admitted, at, c.now, cutoff);
      }
    }
  }

  lemma {:induction false} FilterKeeps(bucket: seq<real>, admitted: seq<real>, at: real, now: real, cutoff: real)
    requires at <= cutoff && After(bucket, cutoff) == After(admitted, cutoff)
    ensures After(After(bucket, at), cutoff) == After(admitted, cutoff)
    ensures After(After(bucket, at) + [now], cutoff) == After(admitted + [now], cutoff)
  {
    hide After;
    AfterAfter(bucket, at, cutoff);
    AfterSnoc(After(bucket, at), now, cutoff);
    AfterSnoc(admitted, now, cutoff);
  }

  lemma {:induction false} RunSnoc(calls: seq<Call>, c: Call, k: Key)
    ensures RunState(calls + [c], false) == Decide(RunState(calls, false), c).0
    ensures Admissions(calls + [c], k)
         == Admissions(calls, k) + if c.key == k && Decide(RunState(calls, false), c).1 then [c.now] else []
  {
    hide Decide;
    assert (calls + [c])[..|calls|] == calls;
  }

  lemma {:induction false} RunComplete(calls: seq<Call>, k: Key, windowS: int)
    requires Monotone(calls) && OneWindow(calls, k, windowS)
    ensures calls != [] ==> Complete(RunState(calls, false), k, Admissions(calls, k), windowS, Clock(calls))
  {
    if calls != [] {
      hide Complete, Decide, RunState, Admissions;
      var init, c := calls[..|calls| - 1], calls[|calls| - 1];
      var clock := if init == [] then c.now else Clock(init);
      assert calls == init + [c];
      RunComplete(init, k, windowS);
      RunSnoc(init, c, k);
      NothingYet(k);
      if init == [] { StartComplete(k, windowS, c.now); }
      assert Admissions(init, k) + [] == Admissions(init, k);
      CompleteStep(RunState(init, false), k, Admissions(init, k), windowS, clock, c);
    }
  }

  lemma {:induction false} StartComplete(k: Key, windowS: int, clock: real)
    ensures Complete(Empty(), k, [], windowS, clock)
  {
  }

  lemma {:induction false} AdmissionsAfter(calls: seq<Call>, k: Key, cutoff: real)
    requires Monotone(calls) && ShortWindows(calls, k)
    ensures |After(Admissions(calls, k), cutoff)| == |AdmittedAfter(calls, k, cutoff)|
  {
    if calls == [] {
      assert AdmittedAfter(calls, k, cutoff) == {};
    } else {
      hide After, Answer, AdmittedAfter;
      var init, c := calls[..|calls| - 1], calls[|calls| - 1];
      assert calls == init + [c];
      AdmissionsAfter(init, k, cutoff);
      AfterSnoc(Admissions(init, k), c.now, cutoff);
      assert Admissions(init, k) + [] == Admissions(init, k);
      if c.key == k { EvictionInvisible(init, c); }
      AdmittedSnoc(init, c, k, cutoff);
    }
  }

  lemma {:induction false} AdmittedSnoc(calls: seq<Call>, c: Call, k: Key, cutoff: real)
    ensures |AdmittedAfter(calls + [c], k, cutoff)| == |AdmittedAfter(calls, k, cutoff)|
              + if c.key == k && Answer(calls, c, true) && cutoff < c.now then 1 else 0
  {
    hide Answer;
    var all, n := calls + [c], |calls|;
    assert all[..n] == calls && all[n] == c;
    forall i: nat | i < n ensures all[..i] == calls[..i] && all[i] == calls[i] { }
    var here := c.key == k && Answer(calls, c, true) && cutoff < c.now;
    assert AdmittedAfter(all, k, cutoff) == AdmittedAfter(calls, k, cutoff) + if here then {n} else {};
  }

  /**
    Main result: on a monotone clock and with one window of at most 300 s per key, a call is
    admitted exactly when fewer than ten times its limit of the key's earlier admissions in the
    run lie inside its window. Neither buckets nor eviction show.
   */
  lemma {:induction false} AdmittedIff(calls: seq<Call>, c: Call)
    requires Monotone(calls + [c]) && OneWindow(calls, c.key, c.windowS) && c.windowS <= 300
    ensures Answer(calls, c, true) <==> |AdmittedAfter(calls, c.key, c.now - c.windowS as real)| < 10 * c.limit
  {
    hide After, AdmittedAfter, Admissions, RunState;
    var cutoff, all := c.now - c.windowS as real, calls + [c];
    assert all[|calls|] == c && forall i :: 0 <= i < |calls| ==> all[i] == calls[i];
    assert ShortWindows(all, c.key);
    PrefixShort(calls, c);
    EvictionInvisible(calls, c);
    RunComplete(calls, c.key, c.windowS);
    AdmissionsAfter(calls, c.key, cutoff);
    if calls == [] { NothingYet(c.key); }
  }

  lemma {:induction false} NothingYet(k: Key)
    ensures RunState([], false) == Empty() && Admissions([], k) == []
  {
  }

  lemma {:induction false} NobodyYet(c: Call, cutoff: real)
    ensures AdmittedAfter(Repeat(c, 0), c.key, cutoff) == {}
  {
    hide Answer;
    assert Repeat(c, 0) == [];
  }

  lemma {:induction false} RepeatMore(c: Call, n: nat)
    ensures Repeat(c, n + 1) == Repeat(c, n) + [c]
    ensures Monotone(Repeat(c, n) + [c]) && OneWindow(Repeat(c, n), c.key, c.windowS)
  {
  }

  /** A burst of n calls at one instant on a fresh limiter gets exactly min(n, ten times the limit) admissions. */
  lemma {:induction false} FallbackBurst(c: Call, n: nat)
    requires 0 < c.windowS <= 300
    ensures |AdmittedAfter(Repeat(c, n), c.key, c.now - c.windowS as real)| == Min(n, Max(10 * c.limit, 0))
  {
    hide Answer, AdmittedAfter, Monotone, OneWindow, Repeat;
    var cutoff := c.now - c.windowS as real;
    if n == 0 {
      NobodyYet(c, cutoff);
    } else {
      FallbackBurst(c, n - 1);
      var init := Repeat(c, n - 1);
      RepeatMore(c, n - 1);
      AdmittedIff(init, c);
      AdmittedSnoc(init, c, c.key, cutoff);
    }
  }

  // ----- ... and only then

  function Repeat(c: Call, n: nat): (calls: seq<Call>)
    ensures |calls| == n && forall i :: 0 <= i < n ==> calls[i] == c
  {
    seq(n, _ => c)
  }

  /** `n` admissions at time 0 on key `k` and nothing else. */
  ghost predicate Filled(f: State, k: Key, n: nat) {
    && |f.Bucket(k)| == n && (forall i :: 0 <= i < n ==> f.Bucket(k)[i] == 0.0)
    && (n > 0 ==> k in f.buckets && k in f.lastSeen && f.lastSeen[k] == 0.0)
    && (n == 0 ==> f == Empty())
  }

  lemma {:induction false} FillStep(f: State, k: Key, limit: nat, windowS: int, n: nat)
    requires windowS > 0 && n < Capacity(limit) && Filled(f, k, n)
    ensures Filled(Decide(f, Call(k, limit, windowS, 0.0)).0, k, n + 1)
    ensures Filled(Check(f, Call(k, limit, windowS, 0.0)).0, k, n + 1)
  {
    hide After, Capacity;
    AfterKeepsAll(f.Bucket(k), 0.0 - windowS as real);
    assert Evict(f, 0.0).Bucket(k) == f.Bucket(k);
  }

  lemma {:induction false} BurstFills(k: Key, limit: nat, windowS: int, n: nat, evicting: bool)
    requires windowS > 0 && n <= Capacity(limit)
    ensures Filled(RunState(Repeat(Call(k, limit, windowS, 0.0), n), evicting), k, n)
  {
    if n > 0 {
      hide Filled, Capacity, Check, Decide;
      var c := Call(k, limit, windowS, 0.0);
      assert Repeat(c, n)[..n - 1] == Repeat(c, n - 1);
      BurstFills(k, limit, windowS, n - 1, evicting);
      FillStep(RunState(Repeat(c, n - 1), evicting), k, limit, windowS, n - 1);
    }
  }

  lemma {:induction false} AfterKeepsAll(ts: seq<real>, cutoff: real)
    requires forall i :: 0 <= i < |ts| ==> ts[i] > cutoff
    ensures After(ts, cutoff) == ts
  {
    if ts != [] {
      AfterKeepsAll(ts[..|ts| - 1], cutoff);
      assert ts == ts[..|ts| - 1] + [ts[|ts| - 1]];
    }
  }

  /** A window above 300 s really is forgotten: a full bucket is readmitted after 300.5 s. */
  lemma {:induction false} LongWindowForgets(k: Key, limit: nat, windowS: int)
    requires limit > 0 && windowS > 300
    ensures
      var calls := Repeat(Call(k, limit, windowS, 0.0), Capacity(limit));
      var c := Call(k, limit, windowS, 300.5);
      Monotone(calls + [c]) && Answer(calls, c, true) && !Answer(calls, c, false)
  {
    hide After, RunState;
    var n, cutoff := Capacity(limit), 300.5 - windowS as real;
    BurstFills(k, limit, windowS, n, true);
    BurstFills(k, limit, windowS, n, false);
    var calls := Repeat(Call(k, limit, windowS, 0.0), n);
    AfterKeepsAll(RunState(calls, false).Bucket(k), cutoff);
    assert Evict(RunState(calls, true), 300.5).Bucket(k) == [];
    EmptyAfter(cutoff);
  }

  /** The calls all use the one policy (limit, windowS) on key `k`. */
  ghost predicate OnePolicy(calls: seq<Call>, k: Key, limit: int, windowS: int) {
    forall i :: 0 <= i < |calls| ==> calls[i].key == k && calls[i].limit == limit && calls[i].windowS == windowS
  }

  /** For a policy that admits anything at all, eviction is invisible exactly when the window is at most 300 s. */
  lemma {:induction false} EvictionInvisibleIff(k: Key, limit: nat, windowS: int)
    requires limit > 0
    ensures windowS <= 300 <==>
      forall calls: seq<Call>, c: Call :: Monotone(calls + [c]) && OnePolicy(calls + [c], k, limit, windowS)
        ==> Answer(calls, c, true) == Answer(calls, c, false)
  {
    if windowS <= 300 {
      forall calls: seq<Call>, c: Call | Monotone(calls + [c]) && OnePolicy(calls + [c], k, limit, windowS)
        ensures Answer(calls, c, true) == Answer(calls, c, false)
      {
        EvictionInvisible(calls, c);
      }
    } else {
      LongWindowForgets(k, limit, windowS);
      var calls := Repeat(Call(k, limit, windowS, 0.0), Capacity(limit));
      assert OnePolicy(calls + [Call(k, limit, windowS, 300.5)], k, limit, windowS);
    }
  }

  // ----- how many admissions a window of the true clock can hold

  /** A fallback admission: the replica's clock in seconds and the true time in milliseconds. */
  datatype Stamp = Stamp(t: real, r: int)

  /** The replica's millisecond stamp is within d/2 of the true time. */
  predicate Skewed(s: Stamp, d: int) {
    -d <= 2 * ((s.t * 1000.0).Floor - s.r) <= d
  }

  function Times(hist: seq<Stamp>): seq<real> {
    seq(|hist|, i requires 0 <= i < |hist| => hist[i].t)
  }

  /** Admissions with true time in [start, start + length). */
  function CountIn(hist: seq<Stamp>, start: int, length: int): nat {
    if hist == [] then 0
    else
      var last := hist[|hist| - 1];
      CountIn(hist[..|hist| - 1], start, length) + if start <= last.r < start + length then 1 else 0
  }

  /** No window holds more than `cap` of them. */
  ghost predicate Bounded(hist: seq<Stamp>, length: int, cap: int) {
    forall start :: CountIn(hist, start, length) <= Max(cap, 0)
  }

  /**
    What key `k`'s bucket remembers of its admissions `hist` at replica time `clock`: the
    last window's worth, or nothing once all of it is 300 s old.
   */
  ghost predicate Remembers(f: State, k: Key, hist: seq<Stamp>, windowS: int, clock: real) {
    && (k in f.buckets <==> k in f.lastSeen)
    && (k in f.buckets ==>
          && f.lastSeen[k] <= clock
          && f.buckets[k] == After(Times(hist), f.lastSeen[k] - windowS as real)
          && AtMost(Times(hist), f.lastSeen[k]))
    && (k !in f.buckets ==> AtMost(Times(hist), clock - EVICT_IDLE_S))
  }

  lemma {:induction false} AfterAfter(ts: seq<real>, c: real, c': real)
    requires c <= c'
    ensures After(After(ts, c), c') == After(ts, c')
  {
    if ts != [] {
      var init, last := ts[..|ts| - 1], ts[|ts| - 1];
      AfterAfter(init, c, c');
      if last > c {
        AfterSnoc(After(init, c), last, c');
      } else {
        assert After(ts, c) == After(init, c) && After(ts, c') == After(init, c');
      }
    }
  }

  lemma {:induction false} AfterSnoc(ts: seq<real>, t: real, c: real)
    ensures After(ts + [t], c) == After(ts, c) + if t > c then [t] else []
  {
  }

  /** The filtered bucket is exactly the part of the whole history inside the window. */
  lemma {:induction false} RecentIsHistory(f: State, k: Key, hist: seq<Stamp>, windowS: int, clock: real, now: real)
    requires Remembers(f, k, hist, windowS, clock) && clock <= now && windowS <= 300
    ensures After(Evict(f, now).Bucket(k), now - windowS as real) == After(Times(hist), now - windowS as real)
  {
    hide After, AtMost;
    var cutoff := now - windowS as real;
    EmptyAfter(cutoff);
    if k in f.buckets {
      AfterAfter(Times(hist), f.lastSeen[k] - windowS as real, cutoff);
      AfterBound(Times(hist), cutoff, f.lastSeen[k]);
    } else {
      AfterBound(Times(hist), cutoff, clock - EVICT_IDLE_S);
    }
  }

  /** A check on `k` that keeps the bucket's memory; `r` is the true time of the request. */
  lemma {:induction false} CheckRemembers(
    f: State, k: Key, hist: seq<Stamp>, limit: int, windowS: int, clock: real, now: real, r: int)
    requires Remembers(f, k, hist, windowS, clock) && clock <= now && 0 < windowS <= 300
    ensures
      var (f', allowed) := Check(f, Call(k, limit, windowS, now));
      Remembers(f', k, if allowed then hist + [Stamp(now, r)] else hist, windowS, now)
  {
    hide After;
    var (f', allowed) := Check(f, Call(k, limit, windowS, now));
    RecentIsHistory(f, k, hist, windowS, clock, now);
    assert AtMost(Times(hist), now);
    if allowed {
      assert Times(hist + [Stamp(now, r)]) == Times(hist) + [now];
      AfterSnoc(Times(hist), now, now - windowS as real);
    }
  }

  /** A check on another key, or the passing of time, at most forgets what is 300 s old. */
  lemma {:induction false} OtherCheckRemembers(f: State, k: Key, hist: seq<Stamp>, windowS: int, clock: real, c: Call)
    requires Remembers(f, k, hist, windowS, clock) && clock <= c.now && c.key != k
    ensures Remembers(Check(f, c).0, k, hist, windowS, c.now)
  {
  }

  lemma {:induction false} CountWithin(hist: seq<Stamp>, start: int, length: int, cutoff: real)
    requires forall i :: 0 <= i < |hist| && start <= hist[i].r < start + length ==> hist[i].t > cutoff
    ensures CountIn(hist, start, length) <= |After(Times(hist), cutoff)|
  {
    if hist != [] {
      var init, last := hist[..|hist| - 1], hist[|hist| - 1];
      CountWithin(init, start, length, cutoff);
      assert Times(hist) == Times(init) + [last.t];
      AfterSnoc(Times(init), last.t, cutoff);
    }
  }

  /** Two admissions in one true-time window of length W - d are less than W apart on the replica's clock. */
  lemma {:induction false} CloseOnReplica(s: Stamp, s': Stamp, windowS: int, d: int, start: int, length: int)
    requires Skewed(s, d) && Skewed(s', d) && length <= windowS * 1000 - d
    requires start <= s.r < start + length && start <= s'.r < start + length
    ensures s.t > s'.t - windowS as real
  {
  }

  /** Admitting one more keeps every true-time window of length W - d within capacity. */
  lemma {:induction false} CheckBounded(
    f: State, k: Key, hist: seq<Stamp>, limit: int, windowS: int, clock: real, s: Stamp, d: int, length: int)
    requires Remembers(f, k, hist, windowS, clock) && clock <= s.t && 0 < windowS <= 300
    requires Skewed(s, d) && forall i :: 0 <= i < |hist| ==> Skewed(hist[i], d)
    requires length <= windowS * 1000 - d && Bounded(hist, length, Capacity(limit))
    requires Check(f, Call(k, limit, windowS, s.t)).1
    ensures Bounded(hist + [s], length, Capacity(limit))
  {
    hide Remembers, After, Skewed, Evict, Capacity;
    var cutoff := s.t - windowS as real;
    RecentIsHistory(f, k, hist, windowS, clock, s.t);
    assert |After(Times(hist), cutoff)| < Capacity(limit);
    forall start ensures CountIn(hist + [s], start, length) <= Max(Capacity(limit), 0) {
      assert (hist + [s])[..|hist|] == hist;
      assert CountIn(hist, start, length) <= Max(Capacity(limit), 0);
      if start <= s.r < start + length {
        forall i | 0 <= i < |hist| && start <= hist[i].r < start + length ensures hist[i].t > cutoff {
          CloseOnReplica(hist[i], s, windowS, d, start, length);
        }
        CountWithin(hist, start, length, cutoff);
      }
    }
  }
}
