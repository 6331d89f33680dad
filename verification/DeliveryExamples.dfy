/** Runs that show how entries are lost, held twice or left behind. */
module DeliveryExamples {
  import opened Prelude
  import opened Aggregate
  import opened Delivery
  import opened DeliverySafety
  import opened DeliveryDuplicates
  import opened OrphanScan
  import DeliveryExactness

  lemma {:induction false} UnrollTwo(s: State, ls: seq<Label>)
    requires |ls| == 2
    ensures Run(s, ls) == Apply(Apply(s, ls[0]), ls[1])
  {
    hide Apply;
    assert ls[..1][..0] == [];
    assert Run(s, ls[..1]) == Apply(s, ls[0]);
  }

  // ----- trimmed while pending

  /** A page read back leaves an entry that parses unwritten exactly when the entry is trimmed at that read. */
  lemma {:induction false} ReadsBackEmptyIff(s: State, c: Name, count: nat, now: int, id: Id)
    requires var p := ProcOf(DoReadOwn(s, c, count, now), c); p.Up? && p.page.Held? && id in p.page.ids
    requires ProcOf(s, c).Up? && ProcOf(s, c).page.NoPage? && Parses(s, id)
    ensures id !in ProcOf(DoReadOwn(s, c, count, now), c).page.valid <==> id < s.trimmed
  {
    hide Select, Owned, Redeliver;
    var own := Owned(s.pending, c, |s.log|);
    var ids: seq<Id> := own[..Min(count, |own|)];
    SelectMember<Id>(ids, Readable(s.log, s.trimmed), id);
  }

  /** The entry was read, the reader crashed, the stream was trimmed, and the reader is back and reads it empty. */
  lemma {:induction false} ReadsBackEmpty(c: Name, e: Event) returns (s: State)
    ensures s == Run(OneHeld(c, e), [Crash(c), Trim(1), Restart(c), ReadOwn(c, 1, 1)])
    ensures s.procs == map[c := Up(true, [], [], Held([0], []))] && s.log == [Some(e)] && s.batches == []
    ensures s.pending.Keys == {0} && s.acked == {} && s.cut == {0}
  {
    hide Run, Apply;
    Unroll(OneHeld(c, e), [Crash(c), Trim(1), Restart(c), ReadOwn(c, 1, 1)]);
    var s2 := CrashesThenTrimmed(c, e);
    s := RestartsAndReads(s2, c, e);
  }

  lemma {:induction false} CrashesThenTrimmed(c: Name, e: Event) returns (s: State)
    ensures s == Apply(Apply(OneHeld(c, e), Crash(c)), Trim(1))
    ensures s.procs == map[c := Down] && s.log == [Some(e)] && s.batches == [] && s.trimmed == 1
    ensures s.pending == map[0 := Delivered(c, 0)] && s.acked == {} && s.cut == {0}
  {
    var s1 := Apply(OneHeld(c, e), Crash(c));
    assert s1.procs == map[c := Down];
    s := Apply(s1, Trim(1));
  }

  lemma {:induction false} RestartsAndReads(s2: State, c: Name, e: Event) returns (s: State)
    requires s2.procs == map[c := Down] && s2.log == [Some(e)]
    requires s2.trimmed == 1 && s2.pending == map[0 := Delivered(c, 0)]
    ensures s == Apply(Apply(s2, Restart(c)), ReadOwn(c, 1, 1))
    ensures s.procs == map[c := Up(true, [], [], Held([0], []))] && s.log == s2.log && s.batches == s2.batches
    ensures s.pending.Keys == {0} && s.acked == s2.acked && s.cut == s2.cut
  {
    hide Select;
    var s3 := Apply(s2, Restart(c));
    assert s3.procs == map[c := Up(true, [], [], NoPage)];
    assert Owned(s3.pending, c, 0) == [] && Owned(s3.pending, c, 1) == [0];
    assert [0][..1] == [0];
    NothingReadable(s2.log);
    s := Apply(s3, ReadOwn(c, 1, 1));
  }

  lemma {:induction false} NothingReadable(log: seq<Option<Event>>)
    ensures Select<Id>([0], Readable(log, 1)) == [] && Select<Id>([0], Retained(1)) == []
  {
  }

  lemma {:induction false} WritesNothing(s: State, c: Name)
    requires s.procs == map[c := Up(true, [], [], Held([0], []))] && s.batches == []
    requires s.pending.Keys == {0} && s.acked == {}
    ensures
      var s' := Apply(Apply(s, CommitPage(c)), Ack(c));
      s'.acked == {0} && s'.batches == [[]] && s'.log == s.log && s'.cut == s.cut
  {
    hide MetricsTable.Commit, EventsOf;
    var s1 := Apply(s, CommitPage(c));
    assert s1.procs == map[c := Up(true, [], [], Written([0], [], false))];
  }

  /** An entry trimmed while it was pending is acknowledged although it parses and was never counted. */
  lemma {:induction false} TrimmedWhilePending(c: Name, e: Event)
    ensures
      var labels := ReadOne(c, e) + [Crash(c), Trim(1), Restart(c), ReadOwn(c, 1, 1)] + [CommitPage(c), Ack(c)];
      var s := Run(Init(), labels);
      0 in s.acked && Parses(s, 0) && Commits(s.batches, 0) == 0 && 0 in s.cut
  {
    hide Run, Apply;
    var more, last := [Crash(c), Trim(1), Restart(c), ReadOwn(c, 1, 1)], [CommitPage(c), Ack(c)];
    RunConcat(Init(), ReadOne(c, e) + more, last);
    RunConcat(Init(), ReadOne(c, e), more);
    ReadsOne(c, e);
    var s := ReadsBackEmpty(c, e);
    WritesNothing(s, c);
    UnrollTwo(s, last);
    NothingCommitted();
  }

  lemma {:induction false} NothingCommitted()
    ensures Commits([[]], 0) == 0
  {
    var none: seq<seq<Id>> := [];
    CommitsSnoc(none, [], 0);
    assert none + [[]] == [[]];
  }

  // ----- read back while somebody else still holds it

  /** The claimer of a live consumer's entry crashed, restarted and reads the entry back as its own. */
  lemma {:induction false} ReadBackWhileHeld(c: Name, d: Name, e: Event)
    requires c != d
    ensures
      var claim := [Restart(d), ReadOwn(d, 1, 0), Claim(d, [0], 30_000), Crash(d)];
      var s := Run(Init(), ReadOne(c, e) + claim + [Restart(d), ReadOwn(d, 1, 30_001)]);
      && Holds(ProcOf(s, c), 0) && ProcOf(s, d).Up? && ProcOf(s, d).page == Held([0], [0])
      && s.stopped == multiset{}
  {
    hide Run, Apply;
    var claim := [Restart(d), ReadOwn(d, 1, 0), Claim(d, [0], 30_000), Crash(d)];
    var last := [Restart(d), ReadOwn(d, 1, 30_001)];
    RunConcat(Init(), ReadOne(c, e) + claim, last);
    RunConcat(Init(), ReadOne(c, e), claim);
    ReadsOne(c, e);
    Unroll(OneHeld(c, e), claim);
    var s2 := StartsBeside(c, d, e);
    var s4 := ClaimsAndStops(s2, c, d, e);
    UnrollTwo(s4, last);
    RereadsClaimed(s4, c, d, e);
  }

  lemma {:induction false} StartsBeside(c: Name, d: Name, e: Event) returns (s: State)
    requires c != d
    ensures s == Apply(Apply(OneHeld(c, e), Restart(d)), ReadOwn(d, 1, 0))
    ensures s == OneHeld(c, e).(procs := map[c := Up(false, [0], [0], NoPage), d := Up(false, [], [], NoPage)])
  {
    hide Select;
    var s1 := Apply(OneHeld(c, e), Restart(d));
    assert s1.procs == map[c := Up(false, [0], [0], NoPage), d := Up(true, [], [], NoPage)];
    assert Owned(s1.pending, d, 0) == [] && Owned(s1.pending, d, 1) == [];
    s := Apply(s1, ReadOwn(d, 1, 0));
    assert s.procs == map[c := Up(false, [0], [0], NoPage), d := Up(false, [], [], NoPage)];
  }

  lemma {:induction false} ClaimsAndStops(s: State, c: Name, d: Name, e: Event) returns (s': State)
    requires c != d
    requires s == OneHeld(c, e).(procs := map[c := Up(false, [0], [0], NoPage), d := Up(false, [], [], NoPage)])
    ensures s' == Apply(Apply(s, Claim(d, [0], 30_000)), Crash(d))
    ensures s'.procs == map[c := Up(false, [0], [0], NoPage), d := Down]
    ensures s'.pending == map[0 := Delivered(d, 30_000)] && s'.log == [Some(e)] && s'.trimmed == 0
    ensures s'.stopped == multiset{}
  {
    hide Apply;
    ClaimsFromLive(s, c, d, e);
    var s1 := Apply(s, Claim(d, [0], 30_000));
    StopsHolding(s1, c, d);
    s' := Apply(s1, Crash(d));
  }

  lemma {:induction false} ClaimsFromLive(s: State, c: Name, d: Name, e: Event)
    requires c != d
    requires s == OneHeld(c, e).(procs := map[c := Up(false, [0], [0], NoPage), d := Up(false, [], [], NoPage)])
    ensures
      var s' := Apply(s, Claim(d, [0], 30_000));
      && s'.procs == map[c := Up(false, [0], [0], NoPage), d := Up(false, [], [], Held([0], [0]))]
      && s'.pending == map[0 := Delivered(d, 30_000)] && s'.log == [Some(e)] && s'.trimmed == 0
      && s'.stopped == multiset{}
  {
    hide Select, HeldAmong;
    SelectOne(s.log, 0);
    assert Claimable(s, [0], 30_000);
    assert Redeliver(s.pending - {}, [0], d, 30_000) == map[0 := Delivered(d, 30_000)];
  }

  lemma {:induction false} StopsHolding(s: State, c: Name, d: Name)
    requires c != d && s.procs == map[c := Up(false, [0], [0], NoPage), d := Up(false, [], [], Held([0], [0]))]
    ensures
      var s' := Apply(s, Crash(d));
      s'.procs == map[c := Up(false, [0], [0], NoPage), d := Down] && s' == s.(procs := s'.procs)
  {
  }

  lemma {:induction false} RereadsClaimed(s: State, c: Name, d: Name, e: Event)
    requires c != d && s.procs == map[c := Up(false, [0], [0], NoPage), d := Down]
    requires s.pending == map[0 := Delivered(d, 30_000)] && s.log == [Some(e)] && s.trimmed == 0
    ensures
      var s' := Apply(Apply(s, Restart(d)), ReadOwn(d, 1, 30_001));
      && ProcOf(s', c) == Up(false, [0], [0], NoPage) && ProcOf(s', d) == Up(true, [], [], Held([0], [0]))
      && s'.stopped == s.stopped
  {
    hide Select;
    var s1 := Apply(s, Restart(d));
    assert Owned(s1.pending, d, 0) == [] && Owned(s1.pending, d, 1) == [0];
    assert [0][..1] == [0];
    SelectOne(s.log, 0);
  }

  /**
    Only a claim from a live process or a stop before an XACK leaves an entry with a holder
    that does not own it.
   */
  lemma {:induction false} HeldElsewhereIsDisturbed(labels: seq<Label>, c: Name, id: Id)
    requires var s := Run(Init(), labels);
      c in s.procs && Holds(s.procs[c], id) && !(id in s.pending && s.pending[id].owner == c)
    ensures DeliveryExactness.Disturbed(Run(Init(), labels), id)
  {
    hide Run;
    if !DeliveryExactness.Disturbed(Run(Init(), labels), id) { DeliveryExactness.RunClean(labels, id); }
  }

  // ----- an orphan behind deleted entries

  function Appends(n: nat): seq<Label> {
    seq(n, _ => Append(None))
  }

  function PoisonLog(n: nat): seq<Option<Event>> {
    seq(n, _ => None)
  }

  lemma {:induction false} AppendsRun(n: nat)
    ensures Run(Init(), Appends(n)) == Init().(log := PoisonLog(n))
  {
    if n == 0 {
      assert PoisonLog(0) == [];
    } else {
      AppendsRun(n - 1);
      assert Appends(n)[..n - 1] == Appends(n - 1);
      assert PoisonLog(n - 1) + [None] == PoisonLog(n);
    }
  }

  /** Consumer `d` reads `n + 1` entries and dies; all but the last are trimmed; consumer `c` starts. */
  function LeaveOrphan(c: Name, d: Name, n: nat): seq<Label> {
    Appends(n) + [Append(None), Restart(d), ReadOwn(d, 1, 0), ReadNew(d, n + 1, 0)]
      + [Crash(d), Trim(n), Restart(c), ReadOwn(c, 1, 1)]
  }

  /** Everything up to `n` is pending for `d` since time 0. */
  ghost predicate AllPending(s: State, d: Name, n: nat) {
    && |s.log| == n + 1
    && (forall id: Id :: id in s.pending <==> id <= n)
    && (forall id: Id :: id in s.pending ==> s.pending[id] == Delivered(d, 0))
  }

  lemma {:induction false} NothingOwned(pending: map<Id, Delivered>, c: Name, n: nat)
    requires forall id: Id :: id in pending ==> pending[id].owner != c
    ensures Owned(pending, c, n) == []
  {
    if n > 0 { NothingOwned(pending, c, n - 1); }
  }

  /** A consumer that owns nothing starts, finds nothing to recover and is ready. */
  lemma {:induction false} StartsClean(s: State, c: Name, now: int) returns (s': State)
    requires ProcOf(s, c).Down? && forall id: Id :: id in s.pending ==> s.pending[id].owner != c
    ensures s' == Apply(Apply(s, Restart(c)), ReadOwn(c, 1, now))
    ensures s' == s.(procs := s'.procs) && ProcOf(s', c) == Up(false, [], [], NoPage)
    ensures forall d :: d != c ==> ProcOf(s', d) == ProcOf(s, d)
  {
    hide Select, Owned;
    NothingOwned(s.pending, c, |s.log|);
    s' := Apply(Apply(s, Restart(c)), ReadOwn(c, 1, now));
  }

  lemma {:induction false} ReadsAll(s: State, d: Name, n: nat)
    requires ProcOf(s, d) == Up(false, [], [], NoPage) && |s.log| == n + 1
    requires s.trimmed == 0 && s.lastDelivered == 0 && s.pending == map[]
    ensures
      var s' := Apply(s, ReadNew(d, n + 1, 0));
      && AllPending(s', d, n) && s'.trimmed == 0 && ProcOf(s', d).Up? && ProcOf(s', d).page.NoPage?
      && forall c :: c != d ==> ProcOf(s', c) == ProcOf(s, c)
  {
    hide Select, Range;
    var ids := Range(0, n + 1);
    forall id: Id ensures id in ids <==> id <= n { RangeMember(0, n + 1, id); }
  }

  lemma {:induction false} DiesAndIsTrimmed(s: State, d: Name, n: nat)
    requires AllPending(s, d, n) && s.trimmed == 0
    ensures
      var s' := Apply(Apply(s, Crash(d)), Trim(n));
      && AllPending(s', d, n) && s'.trimmed == n && ProcOf(s', d).Down?
      && forall c :: c != d ==> ProcOf(s', c) == ProcOf(s, c)
  {
  }

  lemma {:induction false} OrphanLeft(c: Name, d: Name, n: nat) returns (s: State)
    requires c != d
    ensures s == Run(Init(), LeaveOrphan(c, d, n))
    ensures AllPending(s, d, n) && s.trimmed == n && ProcOf(s, c) == Up(false, [], [], NoPage)
  {
    hide Apply, Run, Appends;
    var read := [Append(None), Restart(d), ReadOwn(d, 1, 0), ReadNew(d, n + 1, 0)];
    var die := [Crash(d), Trim(n), Restart(c), ReadOwn(c, 1, 1)];
    RunConcat(Init(), Appends(n) + read, die);
    RunConcat(Init(), Appends(n), read);
    AppendsRun(n);
    var s0 := Init().(log := PoisonLog(n));
    Unroll(s0, read);
    AppendsOne(s0);
    var s3 := StartsClean(Apply(s0, Append(None)), d, 0);
    ReadsAll(s3, d, n);
    var s4 := Apply(s3, ReadNew(d, n + 1, 0));
    Unroll(s4, die);
    DiesAndIsTrimmed(s4, d, n);
    s := StartsClean(Apply(Apply(s4, Crash(d)), Trim(n)), c, 1);
  }

  lemma {:induction false} AppendsOne(s: State)
    ensures Apply(s, Append(None)) == s.(log := s.log + [None])
  {
  }

  lemma {:induction false} GoneCounts(s: State, d: Name, n: nat, from: nat)
    requires AllPending(s, d, n) && s.trimmed == n && from <= n
    ensures GoneIn(s, from, n) == n - from
    decreases n - from
  {
    if from < n { GoneCounts(s, d, n, from + 1); }
  }

  /**
    500 trimmed entries hide an orphan: a sweep 30 s later claims nothing and stops, although
    the entry right behind them is idle and still in the stream.
   */
  lemma {:induction false} OrphanBehindDeleted(c: Name, d: Name)
    requires c != d
    ensures
      var s := Run(Init(), LeaveOrphan(c, d, XAUTOCLAIM_COUNT));
      && ProcOf(s, c) == Up(false, [], [], NoPage) && Orphan(s, XAUTOCLAIM_COUNT, 30_000)
      && Claimed(s, 30_000, 0, XAUTOCLAIM_COUNT, CLAIM_ATTEMPTS) == []
  {
    hide Run, LeaveOrphan, Claimed, GoneIn, PendingIn;
    var s := OrphanLeft(c, d, XAUTOCLAIM_COUNT);
    GoneCounts(s, d, XAUTOCLAIM_COUNT, 0);
    ScanFindsIff(s, 30_000, 0, XAUTOCLAIM_COUNT, XAUTOCLAIM_COUNT, CLAIM_ATTEMPTS);
  }
}
