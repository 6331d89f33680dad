/** Arrivals counted into whole-second buckets and drained once the second is over. */
module RpsWindow {
  import opened Prelude

  /** Python's int(): truncation towards zero. */
  function Second(now: real): (second: int)
    ensures now >= 0.0 ==> second as real <= now < second as real + 1.0
    ensures now <= 0.0 ==> second as real - 1.0 < now <= second as real
  {
    if now >= 0.0 then now.Floor else -((-now).Floor)
  }

  /** An endpoint's traffic in one second. */
  datatype Slot = Slot(second: int, endpoint: string)

  type Buckets = map<int, map<string, nat>>

  /** Arrivals of a slot that are still bucketed. */
  function Bucketed(buckets: Buckets, p: Slot): nat {
    if p.second in buckets && p.endpoint in buckets[p.second] then buckets[p.second][p.endpoint] else 0
  }

  function Tally(counts: map<Slot, nat>, p: Slot): nat {
    if p in counts then counts[p] else 0
  }

  lemma {:induction false} SmallestExists(xs: set<int>, y: int)
    requires y in xs
    ensures exists m :: m in xs && forall x :: x in xs ==> m <= x
    decreases xs
  {
    if z :| z in xs && z < y {
      var below := set x | x in xs && x < y;
      assert y !in below;
      SmallestExists(below, z);
      var m :| m in below && forall x :: x in below ==> m <= x;
      forall x | x in xs ensures m <= x { assert x in below || y <= x; }
      assert m in xs;
    }
  }

  /** The samples of one finished bucket, each endpoint once; `slots` says what each sample is for. */
  method ListBucket(second: int, bucket: map<string, nat>) returns (out: seq<(string, real)>, ghost slots: seq<Slot>)
    ensures |out| == |slots| && NoDup(slots)
    ensures forall p: Slot :: p in slots <==> p.second == second && p.endpoint in bucket
    ensures forall i :: 0 <= i < |out| ==>
              slots[i].endpoint in bucket && out[i] == (slots[i].endpoint, bucket[slots[i].endpoint] as real)
  {
    out, slots := [], [];
    var todo := bucket.Keys;
    while todo != {}
      invariant todo <= bucket.Keys && |out| == |slots| && NoDup(slots)
      invariant forall p: Slot :: p in slots <==> p.second == second && p.endpoint in bucket && p.endpoint !in todo
      invariant forall i :: 0 <= i < |out| ==>
                  slots[i] in slots && out[i] == (slots[i].endpoint, bucket[slots[i].endpoint] as real)
      decreases todo
    {
      var e :| e in todo;
      NoDupConcat(slots, [Slot(second, e)]);
      out, slots := out + [(e, bucket[e] as real)], slots + [Slot(second, e)];
      todo := todo - {e};
    }
  }

  /** `out` reports exactly the slots by which `after` extends `before`, each once, with its count. */
  ghost predicate Reports(out: seq<(string, real)>, slots: seq<Slot>, before: map<Slot, nat>, after: map<Slot, nat>) {
    && |out| == |slots| && NoDup(slots)
    && (forall p: Slot :: p in slots <==> p in after && p !in before)
    && (forall p: Slot :: p in before ==> p in after && after[p] == before[p])
    && (forall i :: 0 <= i < |out| ==> slots[i] in after && out[i] == (slots[i].endpoint, after[slots[i]] as real))
  }

  lemma {:induction false} EmptyReport(counts: map<Slot, nat>)
    ensures Reports([], [], counts, counts) && OldestFirst([])
  {
  }

  lemma {:induction false} ReportsConcat(
    out: seq<(string, real)>, slots: seq<Slot>, out': seq<(string, real)>, slots': seq<Slot>,
    a: map<Slot, nat>, b: map<Slot, nat>, c: map<Slot, nat>)
    requires Reports(out, slots, a, b) && Reports(out', slots', b, c)
    ensures Reports(out + out', slots + slots', a, c)
  {
    hide NoDup;
    assert forall p: Slot :: p in slots ==> p !in slots';
    NoDupConcat(slots, slots');
    assert forall p: Slot :: p in slots + slots' <==> p in slots || p in slots';
    assert forall i :: 0 <= i < |out| ==> slots[i] in b;
    SamplesConcat(out, slots, out', slots', c);
  }

  /** Samples stay with their slots. */
  lemma {:induction false} SamplesConcat(
    out: seq<(string, real)>, slots: seq<Slot>, out': seq<(string, real)>, slots': seq<Slot>, c: map<Slot, nat>)
    requires |out| == |slots| && |out'| == |slots'|
    requires forall i :: 0 <= i < |out| ==> slots[i] in c && out[i] == (slots[i].endpoint, c[slots[i]] as real)
    requires forall i :: 0 <= i < |out'| ==> slots'[i] in c && out'[i] == (slots'[i].endpoint, c[slots'[i]] as real)
    ensures
      var samples, all := out + out', slots + slots';
      forall i :: 0 <= i < |samples| ==> all[i] in c && samples[i] == (all[i].endpoint, c[all[i]] as real)
  {
  }

  ghost predicate OldestFirst(slots: seq<Slot>) {
    forall i, j :: 0 <= i < j < |slots| ==> slots[i].second <= slots[j].second
  }

  lemma {:induction false} OldestFirstConcat(slots: seq<Slot>, slots': seq<Slot>, sec: int)
    requires OldestFirst(slots) && forall i :: 0 <= i < |slots| ==> slots[i].second < sec
    requires forall i :: 0 <= i < |slots'| ==> slots'[i].second == sec
    ensures OldestFirst(slots + slots')
    ensures forall i :: 0 <= i < |slots + slots'| ==> (slots + slots')[i].second < sec + 1
  {
  }

  /**
    Conservation: every recorded arrival is either reported or still bucketed, never both,
    and a reported slot was reported with its full count. Seconds below the horizon are drained.
   */
  ghost predicate Conserved(buckets: Buckets, recorded: map<Slot, nat>, reported: map<Slot, nat>, horizon: int) {
    && (forall p: Slot :: p in recorded ==> recorded[p] > 0)
    && (forall p: Slot :: Tally(recorded, p) == Tally(reported, p) + Bucketed(buckets, p))
    && (forall p: Slot :: p in reported ==> p.second < horizon && p in recorded && reported[p] == recorded[p])
    && (forall s: int :: s in buckets ==> horizon <= s)
    && (forall s: int, e: string :: s in buckets && e in buckets[s] ==> buckets[s][e] > 0)
  }

  lemma {:induction false} RecordKeeps(
    buckets: Buckets, recorded: map<Slot, nat>, reported: map<Slot, nat>, horizon: int, p: Slot)
    requires Conserved(buckets, recorded, reported, horizon) && horizon <= p.second
    ensures
      var bucket: map<string, nat> := if p.second in buckets then buckets[p.second] else map[];
      Conserved(buckets[p.second := bucket[p.endpoint := Bucketed(buckets, p) + 1]],
                recorded[p := Tally(recorded, p) + 1], reported, horizon)
  {
  }

  lemma {:induction false} DrainKeeps(
    buckets: Buckets, recorded: map<Slot, nat>, reported: map<Slot, nat>, horizon: int,
    sec: int, drained: map<Slot, nat>)
    requires Conserved(buckets, recorded, reported, horizon)
    requires sec in buckets && forall s: int :: s in buckets ==> sec <= s
    requires forall p: Slot :: p in drained <==> p.second == sec && p.endpoint in buckets[sec]
    requires forall p: Slot :: p in drained ==> drained[p] == buckets[sec][p.endpoint]
    ensures Conserved(buckets - {sec}, recorded, reported + drained, sec + 1)
    ensures (forall p: Slot :: p in drained ==> p !in reported) && horizon <= sec
  {
    var buckets', reported' := buckets - {sec}, reported + drained;
    forall p: Slot
      ensures Tally(recorded, p) == Tally(reported', p) + Bucketed(buckets', p)
      ensures p in drained ==> p in recorded && p !in reported
    {
      assert Tally(recorded, p) == Tally(reported, p) + Bucketed(buckets, p);
    }
  }

  /** The samples of a drained bucket report exactly what it adds. */
  lemma {:induction false} DrainReports(out: seq<(string, real)>, slots: seq<Slot>, sec: int, bucket: map<string, nat>,
                                        reported: map<Slot, nat>, drained: map<Slot, nat>)
    requires |out| == |slots| && NoDup(slots) && forall p: Slot :: p in drained ==> p !in reported
    requires forall p: Slot :: p in slots <==> p.second == sec && p.endpoint in bucket
    requires forall p: Slot :: p in drained <==> p in slots
    requires forall p: Slot :: p in drained ==> drained[p] == bucket[p.endpoint]
    requires forall i :: 0 <= i < |out| ==>
               slots[i].endpoint in bucket && out[i] == (slots[i].endpoint, bucket[slots[i].endpoint] as real)
    ensures Reports(out, slots, reported, reported + drained)
    ensures forall i :: 0 <= i < |slots| ==> slots[i].second == sec
  {
    hide NoDup;
    forall i | 0 <= i < |slots| ensures slots[i] in drained && slots[i].second == sec {
      assert slots[i] in slots;
    }
  }

  lemma {:induction false} HorizonReached(
    buckets: Buckets, recorded: map<Slot, nat>, reported: map<Slot, nat>, horizon: int, current: int)
    requires Conserved(buckets, recorded, reported, horizon) && horizon <= current
    requires forall s: int :: s in buckets ==> current <= s
    ensures Conserved(buckets, recorded, reported, current)
    ensures forall p: Slot :: p in recorded && p.second < current ==> p in reported && reported[p] == recorded[p]
  {
    forall p: Slot | p in recorded && p.second < current ensures p in reported {
      assert Tally(recorded, p) == Tally(reported, p) + Bucketed(buckets, p);
    }
  }

  class RollingRpsCounter {
    var buckets: Buckets
    ghost var recorded: map<Slot, nat>   // arrivals ever recorded, per slot
    ghost var reported: map<Slot, nat>   // counts ever handed out by Tick, per slot
    ghost var horizon: int               // seconds below this have been drained

    ghost predicate Valid()
      reads this
    {
      Conserved(buckets, recorded, reported, horizon)
    }

    constructor (start: int)
      ensures Valid() && recorded == map[] && reported == map[] && horizon == start
    {
      buckets, recorded, reported, horizon := map[], map[], map[], start;
    }

    /** record: one more arrival for this endpoint in the current second. */
    method Record(endpoint: string, now: real)
      requires Valid() && horizon <= Second(now)
      modifies this
      ensures Valid()
      ensures
        var slot := Slot(Second(now), endpoint);
        recorded == old(recorded)[slot := Tally(old(recorded), slot) + 1]
      ensures reported == old(reported) && horizon == old(horizon)
    {
      hide Conserved, Second;
      var sec := Second(now);
      ghost var p := Slot(sec, endpoint);
      RecordKeeps(buckets, recorded, reported, horizon, p);
      if sec !in buckets { buckets := buckets[sec := map[]]; }
      var bucket := buckets[sec];
      var count := if endpoint in bucket then bucket[endpoint] else 0;
      buckets := buckets[sec := bucket[endpoint := count + 1]];
      recorded := recorded[p := Tally(recorded, p) + 1];
      assert buckets == old(buckets)[sec := bucket[endpoint := count + 1]];
    }

    /** Pops the oldest bucket and reports it. */
    method DrainSecond(sec: int) returns (out: seq<(string, real)>, ghost slots: seq<Slot>)
      requires Valid() && sec in buckets && forall s: int :: s in buckets ==> sec <= s
      modifies this
      ensures Valid() && recorded == old(recorded) && old(horizon) <= sec && horizon == sec + 1
      ensures buckets == old(buckets) - {sec}
      ensures Reports(out, slots, old(reported), reported)
      ensures forall i :: 0 <= i < |slots| ==> slots[i].second == sec
    {
      hide Conserved, Reports, NoDup;
      var bucket := buckets[sec];
      out, slots := ListBucket(sec, bucket);
      ghost var drained := map p: Slot | p in slots :: bucket[p.endpoint];
      DrainKeeps(buckets, recorded, reported, horizon, sec, drained);
      DrainReports(out, slots, sec, bucket, reported, drained);
      buckets := buckets - {sec};
      horizon := sec + 1;
      reported := reported + drained;
    }

    /**
      tick: reports every finished second, oldest first, each (second, endpoint) pair once
      and with its full count, and never touches the current second.
     */
    method Tick(now: real) returns (out: seq<(string, real)>, ghost slots: seq<Slot>)
      requires Valid() && horizon <= Second(now)
      modifies this
      ensures Valid() && recorded == old(recorded) && horizon == Second(now)
      ensures Reports(out, slots, old(reported), reported) && OldestFirst(slots)
      ensures forall p: Slot :: p in recorded && p.second < Second(now) ==> p in reported && reported[p] == recorded[p]
      ensures forall s: int :: s in buckets <==> s in old(buckets) && Second(now) <= s
      ensures forall s: int :: s in buckets ==> buckets[s] == old(buckets)[s]
    {
      hide Conserved, Second, Reports, OldestFirst;
      EmptyReport(reported);
      var current := Second(now);
      out, slots := [], [];
      while exists s :: s in buckets && s < current
        invariant Valid() && recorded == old(recorded) && horizon <= current
        invariant Reports(out, slots, old(reported), reported) && OldestFirst(slots)
        invariant forall i :: 0 <= i < |slots| ==> slots[i].second < horizon
        invariant forall s: int :: s in buckets ==> s in old(buckets) && buckets[s] == old(buckets)[s]
        invariant forall s: int :: s in old(buckets) && current <= s ==> s in buckets
        decreases |buckets|
      {
        ghost var some :| some in buckets && some < current;
        SmallestExists(buckets.Keys, some);
        var sec: int :| sec in buckets && forall s: int :: s in buckets ==> sec <= s;
        ghost var before := reported;
        var samples, pairs := DrainSecond(sec);
        ReportsConcat(out, slots, samples, pairs, old(reported), before, reported);
        OldestFirstConcat(slots, pairs, sec);
        out, slots := out + samples, slots + pairs;
      }
      HorizonReached(buckets, recorded, reported, horizon, current);
      horizon := current;
    }
  }
}
