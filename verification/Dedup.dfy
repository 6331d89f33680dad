/** Alert deduplication: one publication per (type, source) and window, with a lazy sweep. */
module Dedup {

  const DEDUP_WINDOW_S := 60.0
  const SWEEP_EVERY_S := 5.0

  datatype Source = Source(alertType: string, key: string)
  datatype Entry = Entry(firstSeen: real, count: nat)
  datatype State = State(recent: map<Source, Entry>, lastSweep: real)

  function Start(): State { State(map[], 0.0) }

  predicate Expired(e: Entry, now: real) {
    now - e.firstSeen > DEDUP_WINDOW_S
  }

  /** _sweep: at most every 5 s, drop the expired entries. */
  function Sweep(s: State, now: real): State {
    if now - s.lastSweep < SWEEP_EVERY_S then s
    else State(map k | k in s.recent && !Expired(s.recent[k], now) :: s.recent[k], now)
  }

  datatype Verdict = Verdict(publish: bool, count: nat)

  /** should_publish after the sweep. */
  function Decide(s: State, k: Source, now: real): (State, Verdict) {
    if k !in s.recent || Expired(s.recent[k], now) then
      (s.(recent := s.recent[k := Entry(now, 1)]), Verdict(true, 1))
    else
      var e := s.recent[k];
      (s.(recent := s.recent[k := e.(count := e.count + 1)]), Verdict(false, e.count + 1))
  }

  class Deduplicator {
    var recent: map<Source, Entry>
    var lastSweep: real

    ghost function Value(): State
      reads this
    {
      State(recent, lastSweep)
    }

    constructor ()
      ensures Value() == Start()
    {
      recent, lastSweep := map[], 0.0;
    }

    method SweepExpired(now: real)
      modifies this
      ensures Value() == Sweep(old(Value()), now)
      ensures lastSweep == if now - old(lastSweep) < 5.0 then old(lastSweep) else now
      ensures forall k :: k in recent <==>
                k in old(recent) && (now - old(lastSweep) < 5.0 || now - old(recent)[k].firstSeen <= 60.0)
      ensures forall k :: k in recent ==> recent[k] == old(recent)[k]
    {
      if now - lastSweep < SWEEP_EVERY_S { return; }
      lastSweep := now;
      var expired := set k | k in recent && now - recent[k].firstSeen > DEDUP_WINDOW_S;
      var todo := expired;
      while todo != {}
        invariant todo <= expired && lastSweep == now
        invariant recent == old(recent) - (expired - todo)
        decreases todo
      {
        var k :| k in todo;
        recent := recent - {k};
        todo := todo - {k};
      }
    }

    method ShouldPublish(alertType: string, key: string, now: real) returns (publish: bool, count: nat)
      modifies this
      ensures (Value(), Verdict(publish, count)) == Decide(Sweep(old(Value()), now), Source(alertType, key), now)
      ensures
        var k := Source(alertType, key);
        && (publish <==> !(k in old(recent) && now - old(recent)[k].firstSeen <= 60.0))
        && count == (if publish then 1 else old(recent)[k].count + 1)
        && k in recent && recent[k] == Entry(if publish then now else old(recent)[k].firstSeen, count)
    {
      SweepExpired(now);
      var k := Source(alertType, key);
      if k !in recent || now - recent[k].firstSeen > DEDUP_WINDOW_S {
        recent := recent[k := Entry(now, 1)];
        return true, 1;
      }
      recent := recent[k := recent[k].(count := recent[k].count + 1)];
      return false, recent[k].count;
    }
  }

  // ----- every run, with and without the sweep

  datatype Call = Call(source: Source, now: real)

  function StepState(s: State, c: Call, sweeping: bool): (State, Verdict) {
    Decide(if sweeping then Sweep(s, c.now) else s, c.source, c.now)
  }

  function RunState(calls: seq<Call>, sweeping: bool): State {
    if calls == [] then Start()
    else StepState(RunState(calls[..|calls| - 1], sweeping), calls[|calls| - 1], sweeping).0
  }

  /** The verdict on every call, in order. */
  function Verdicts(calls: seq<Call>, sweeping: bool): (vs: seq<Verdict>)
    ensures |vs| == |calls|
  {
    if calls == [] then []
    else
      var init := calls[..|calls| - 1];
      Verdicts(init, sweeping) + [StepState(RunState(init, sweeping), calls[|calls| - 1], sweeping).1]
  }

  /** A clock that starts at zero or later and never runs backwards. */
  ghost predicate Monotone(calls: seq<Call>) {
    && (forall i :: 0 <= i < |calls| ==> calls[i].now >= 0.0)
    && (forall i, j :: 0 <= i < j < |calls| ==> calls[i].now <= calls[j].now)
  }

  function Clock(calls: seq<Call>): real {
    if calls == [] then 0.0 else calls[|calls| - 1].now
  }

  /** The swept state is the unswept one without some entries that no longer matter. */
  ghost predicate Agree(swept: State, full: State, now: real) {
    && (forall k :: k in swept.recent ==> k in full.recent && swept.recent[k] == full.recent[k])
    && (forall k :: k in full.recent && k !in swept.recent ==> Expired(full.recent[k], now))
  }

  lemma {:induction false} AgreeStep(swept: State, full: State, before: real, c: Call)
    requires Agree(swept, full, before) && before <= c.now
    ensures Agree(StepState(swept, c, true).0, StepState(full, c, false).0, c.now)
    ensures StepState(swept, c, true).1 == StepState(full, c, false).1
  {
  }

  lemma {:induction false} RunsAgree(calls: seq<Call>)
    requires Monotone(calls)
    ensures Agree(RunState(calls, true), RunState(calls, false), Clock(calls))
    ensures Verdicts(calls, true) == Verdicts(calls, false)
  {
    if calls != [] {
      hide Agree, StepState;
      var init, c := calls[..|calls| - 1], calls[|calls| - 1];
      RunsAgree(init);
      AgreeStep(RunState(init, true), RunState(init, false), Clock(init), c);
    }
  }

  /** Main result: on a monotone clock the sweep never changes any verdict of any run. */
  lemma {:induction false} SweepInvisible(calls: seq<Call>)
    requires Monotone(calls)
    ensures Verdicts(calls, true) == Verdicts(calls, false)
  {
    RunsAgree(calls);
  }

  // ----- what the verdicts mean

  predicate PublishedAt(calls: seq<Call>, vs: seq<Verdict>, k: Source, i: nat) {
    i < |calls| == |vs| && calls[i].source == k && vs[i].publish
  }

  /** How many calls named `k`. */
  function CallsOf(calls: seq<Call>, k: Source): nat {
    if calls == [] then 0
    else CallsOf(calls[..|calls| - 1], k) + if calls[|calls| - 1].source == k then 1 else 0
  }

  /** The count carried by the latest verdict on `k`. */
  function LatestCount(calls: seq<Call>, vs: seq<Verdict>, k: Source): nat
    requires |calls| == |vs|
  {
    if calls == [] then 0
    else if calls[|calls| - 1].source == k then vs[|calls| - 1].count
    else LatestCount(calls[..|calls| - 1], vs[..|calls| - 1], k)
  }

  /** The final counts of the windows of `k` that a later publication has closed. */
  function ClosedTotal(calls: seq<Call>, vs: seq<Verdict>, k: Source): nat
    requires |calls| == |vs|
  {
    if calls == [] then 0
    else
      var n := |calls| - 1;
      ClosedTotal(calls[..n], vs[..n], k)
        + if calls[n].source == k && vs[n].publish then LatestCount(calls[..n], vs[..n], k) else 0
  }

  /** The unswept entry of `k` is its latest publication and the count since then. */
  ghost predicate Tracks(s: State, calls: seq<Call>, vs: seq<Verdict>, k: Source) {
    && |calls| == |vs|
    && (k in s.recent ==>
          && s.recent[k].count == LatestCount(calls, vs, k)
          && (exists i: nat :: PublishedAt(calls, vs, k, i) && calls[i].now == s.recent[k].firstSeen)
          && (forall i: nat :: PublishedAt(calls, vs, k, i) ==> calls[i].now <= s.recent[k].firstSeen))
    && (k !in s.recent ==>
          CallsOf(calls, k) == 0 && LatestCount(calls, vs, k) == 0 && forall i: nat :: !PublishedAt(calls, vs, k, i))
    && ClosedTotal(calls, vs, k) + LatestCount(calls, vs, k) == CallsOf(calls, k)
  }

  lemma {:induction false} PublishedSnoc(calls: seq<Call>, vs: seq<Verdict>, c: Call, v: Verdict, k: Source, i: nat)
    requires |calls| == |vs|
    ensures PublishedAt(calls + [c], vs + [v], k, i) <==>
      PublishedAt(calls, vs, k, i) || (i == |calls| && c.source == k && v.publish)
    ensures i < |calls| ==> (calls + [c])[i] == calls[i]
    ensures (calls + [c])[|calls|] == c
  {
  }

  lemma {:induction false} CountsSnoc(calls: seq<Call>, vs: seq<Verdict>, c: Call, v: Verdict, k: Source)
    requires |calls| == |vs|
    ensures CallsOf(calls + [c], k) == CallsOf(calls, k) + if c.source == k then 1 else 0
    ensures LatestCount(calls + [c], vs + [v], k) == if c.source == k then v.count else LatestCount(calls, vs, k)
    ensures ClosedTotal(calls + [c], vs + [v], k) == ClosedTotal(calls, vs, k)
              + if c.source == k && v.publish then LatestCount(calls, vs, k) else 0
  {
  }

  lemma {:induction false} TracksStep(s: State, calls: seq<Call>, vs: seq<Verdict>, c: Call, k: Source)
    requires Tracks(s, calls, vs, k) && forall i :: 0 <= i < |calls| ==> calls[i].now <= c.now
    ensures
      var (s', v) := StepState(s, c, false);
      Tracks(s', calls + [c], vs + [v], k)
  {
    hide CallsOf, LatestCount, ClosedTotal;
    var (s', v) := StepState(s, c, false);
    var calls', vs' := calls + [c], vs + [v];
    CountsSnoc(calls, vs, c, v, k);
    forall i: nat ensures PublishedAt(calls', vs', k, i) <==>
        PublishedAt(calls, vs, k, i) || (i == |calls| && c.source == k && v.publish) {
      PublishedSnoc(calls, vs, c, v, k, i);
    }
    if k in s'.recent {
      if c.source == k && v.publish {
        assert PublishedAt(calls', vs', k, |calls|) && calls'[|calls|] == c;
        forall i: nat | PublishedAt(calls', vs', k, i) ensures calls'[i].now <= c.now {}
      } else {
        var i: nat :| PublishedAt(calls, vs, k, i) && calls[i].now == s.recent[k].firstSeen;
        assert PublishedAt(calls', vs', k, i) && calls'[i] == calls[i];
        forall j: nat | PublishedAt(calls', vs', k, j) ensures calls'[j].now <= s.recent[k].firstSeen {
          assert calls'[j] == calls[j];
        }
      }
    }
  }

  lemma {:induction false} RunTracks(calls: seq<Call>, k: Source)
    requires Monotone(calls)
    ensures Tracks(RunState(calls, false), calls, Verdicts(calls, false), k)
  {
    if calls != [] {
      hide Tracks, StepState;
      var init, c := calls[..|calls| - 1], calls[|calls| - 1];
      RunTracks(init, k);
      assert calls == init + [c];
      TracksStep(RunState(init, false), init, Verdicts(init, false), c, k);
    }
  }

  lemma {:induction false} VerdictsPrefix(calls: seq<Call>, n: nat, sweeping: bool)
    requires n <= |calls|
    ensures Verdicts(calls, sweeping)[..n] == Verdicts(calls[..n], sweeping)
    decreases |calls|
  {
    if n < |calls| {
      VerdictsPrefix(calls[..|calls| - 1], n, sweeping);
      assert calls[..|calls| - 1][..n] == calls[..n];
    } else {
      assert calls[..n] == calls;
    }
  }

  lemma {:induction false} VerdictAt(calls: seq<Call>, j: nat)
    requires j < |calls|
    ensures Verdicts(calls, false)[j] == StepState(RunState(calls[..j], false), calls[j], false).1
    ensures forall i :: 0 <= i < j ==> Verdicts(calls, false)[i] == Verdicts(calls[..j], false)[i]
  {
    VerdictsPrefix(calls, j + 1, false);
    VerdictsPrefix(calls, j, false);
    assert calls[..j + 1][..j] == calls[..j];
    assert Verdicts(calls, false)[j] == Verdicts(calls, false)[..j + 1][j];
  }

  /** Two publications of one source are more than 60 s apart. */
  lemma {:induction false} PublicationsApart(calls: seq<Call>, i: nat, j: nat)
    requires Monotone(calls) && i < j < |calls| && calls[i].source == calls[j].source
    requires Verdicts(calls, true)[i].publish && Verdicts(calls, true)[j].publish
    ensures calls[j].now - calls[i].now > 60.0
  {
    hide Tracks;
    var k, before := calls[j].source, calls[..j];
    SweepInvisible(calls);
    VerdictAt(calls, j);
    RunTracks(before, k);
    assert PublishedAt(before, Verdicts(before, false), k, i);
    LatestPublication(RunState(before, false), before, Verdicts(before, false), k, i);
  }

  lemma {:induction false} LatestPublication(s: State, calls: seq<Call>, vs: seq<Verdict>, k: Source, i: nat)
    requires Tracks(s, calls, vs, k) && PublishedAt(calls, vs, k, i)
    ensures k in s.recent && calls[i].now <= s.recent[k].firstSeen
  {
  }

  /** A suppressed alert has a publication of the same source at most 60 s earlier. */
  lemma {:induction false} SuppressionCovered(calls: seq<Call>, j: nat)
    requires Monotone(calls) && j < |calls| && !Verdicts(calls, true)[j].publish
    ensures exists i: nat :: i < j && PublishedAt(calls, Verdicts(calls, true), calls[j].source, i)
                          && calls[j].now - calls[i].now <= 60.0
  {
    hide LatestCount, ClosedTotal, CallsOf;
    var k, before := calls[j].source, calls[..j];
    SweepInvisible(calls);
    VerdictAt(calls, j);
    RunTracks(before, k);
    var s := RunState(before, false);
    var i: nat :| PublishedAt(before, Verdicts(before, false), k, i) && before[i].now == s.recent[k].firstSeen;
    assert PublishedAt(calls, Verdicts(calls, true), k, i);
  }

  /** No call is lost: the final counts of all windows of a source sum to its calls. */
  lemma {:induction false} WindowCountsAddUp(calls: seq<Call>, k: Source)
    requires Monotone(calls)
    ensures
      var vs := Verdicts(calls, true);
      ClosedTotal(calls, vs, k) + LatestCount(calls, vs, k) == CallsOf(calls, k)
  {
    SweepInvisible(calls);
    RunTracks(calls, k);
  }

  /** What keeps the dictionary small: entries are never much older than the last sweep. */
  ghost predicate Fresh(s: State, now: real) {
    && s.lastSweep <= now
    && (forall k :: k in s.recent ==>
          s.lastSweep - s.recent[k].firstSeen <= DEDUP_WINDOW_S && s.recent[k].firstSeen <= now)
  }

  lemma {:induction false} FreshStep(s: State, before: real, c: Call)
    requires Fresh(s, before) && before <= c.now
    ensures Fresh(StepState(s, c, true).0, c.now)
    ensures c.now - StepState(s, c, true).0.lastSweep < SWEEP_EVERY_S
  {
  }

  /** After every call every stored entry is younger than 65 s. */
  lemma {:induction false} EntriesYoung(calls: seq<Call>)
    requires Monotone(calls) && calls != []
    ensures forall k :: k in RunState(calls, true).recent ==>
              Clock(calls) - RunState(calls, true).recent[k].firstSeen < 65.0
  {
    RunFresh(calls);
  }

  lemma {:induction false} RunFresh(calls: seq<Call>)
    requires Monotone(calls)
    ensures Fresh(RunState(calls, true), Clock(calls))
    ensures calls != [] ==> Clock(calls) - RunState(calls, true).lastSweep < SWEEP_EVERY_S
  {
    if calls != [] {
      hide Fresh, StepState;
      var init, c := calls[..|calls| - 1], calls[|calls| - 1];
      RunFresh(init);
      FreshStep(RunState(init, true), Clock(init), c);
    }
  }
}
