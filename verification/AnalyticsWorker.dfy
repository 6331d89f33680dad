/**
  The analytics consumer's loops, each shown to be a run of the delivery protocol in which
  other processes act freely before every step of this one.
 */
module AnalyticsWorker {
  import opened Prelude
  import opened Aggregate
  import opened Delivery
  import opened DeliverySafety
  import opened DeliveryInterference
  import opened OrphanScan
  import DeliveryExactness

  const BATCH_SIZE := 1000
  const BATCH_MAX_WAIT_S := 5.0

  /** What the outside does to a flush: nothing, refuse the transaction, or lose Redis before the XACK. */
  datatype Fault = Works | CommitFails | AckFails

  /** flush_batch with others acting before its commit and before its XACK. */
  function Flushed(s: State, commit: Label, e1: seq<Label>, e2: seq<Label>, c: Name): State {
    Apply(Run(Apply(Run(s, e1), commit), e2), Ack(c))
  }

  /** flush_batch that raises before or after its commit; the process ends. */
  function Raised(s: State, commit: Label, e1: seq<Label>, e2: seq<Label>, c: Name, written: bool): State {
    if written then Apply(Run(Apply(Run(s, e1), commit), e2), Crash(c)) else Apply(Run(s, e1), Crash(c))
  }

  /** The own steps of a flush. */
  function FlushSteps(commit: Label, c: Name, written: bool, ok: bool): seq<Label> {
    if written then [commit, if ok then Ack(c) else Crash(c)] else [Crash(c)]
  }

  // ----- flushes that raise

  lemma {:induction false} WritableGrown(log: seq<Option<Event>>, log': seq<Option<Event>>, ids: seq<Id>)
    requires log <= log' && forall i :: 0 <= i < |ids| ==> ids[i] < |log|
    ensures Writable(log', ids) <==> Writable(log, ids)
  {
  }

  /** aggregate_by_bucket raises on the events exactly when the ids cannot be written. */
  lemma {:induction false} WritableIsDatable(log: seq<Option<Event>>, ids: seq<Id>)
    ensures Writable(log, ids) <==> AllDatable(EventsOf(log, ids))
  {
    if ids != [] {
      var init: seq<Id>, last := ids[..|ids| - 1], ids[|ids| - 1];
      WritableIsDatable(log, init);
      assert ids == init + [last];
      var events := EventsOf(log, init);
      if last < |log| && log[last].Some? {
        assert EventsOf(log, ids) == events + [log[last].value];
        assert (events + [log[last].value])[|events|] == log[last].value;
        assert forall i :: 0 <= i < |events| ==> (events + [log[last].value])[i] == events[i];
      } else {
        assert EventsOf(log, ids) == events;
      }
    }
  }

  /** Whether a page can be written does not change while others act. */
  lemma {:induction false} PageMeanwhile(s: State, e: seq<Label>, c: Name)
    requires Inv(s) && AllForeign(e, c) && ProcOf(s, c).Up? && ProcOf(s, c).page.Held?
    ensures Writable(Run(s, e).log, ProcOf(s, c).page.valid) <==> Writable(s.log, ProcOf(s, c).page.valid)
  {
    hide Inv, Run, OwnPending, Writable, AllForeign;
    ForeignRun(s, e, c);
    PageInLog(s, c);
    GrownLog(s, Run(s, e));
    WritableGrown(s.log, Run(s, e).log, ProcOf(s, c).page.valid);
  }

  /** What a page will write is in the log. */
  lemma {:induction false} PageInLog(s: State, c: Name)
    requires Inv(s) && ProcOf(s, c).Up? && ProcOf(s, c).page.Held?
    ensures
      var page := ProcOf(s, c).page;
      && (forall i :: 0 <= i < |page.valid| ==> page.valid[i] < |s.log|)
      && (forall id: Id :: id in page.valid ==> id in page.ids && Parses(s, id))
  {
    hide Books, Ledger, Bounds, NoDup;
    assert ProcOk(s, s.procs[c]);
    var valid := ProcOf(s, c).page.valid;
    forall i | 0 <= i < |valid| ensures valid[i] < |s.log| { assert valid[i] in valid; }
  }

  /** An entry a flush raises on. */
  ghost predicate Undatable(s: State, id: Id) {
    Parses(s, id) && !Dated(s, id)
  }

  /** An entry without a date, not trimmed yet and not taken over by anybody else. */
  ghost predicate Replayed(s: State, c: Name, id: Id) {
    Undatable(s, id) && s.trimmed <= id && (id in s.pending ==> s.pending[id].owner == c)
  }

  /** Such an entry can only be settled by trimming it, so a recovery that ends well has met none. */
  lemma {:induction false} NoneReplayed(s: State, s': State, c: Name)
    requires Inv(s') && forall id: Id :: id in OwnPending(s, c) ==>
               Settled(s', id) || (id in s'.pending && s'.pending[id].owner != c)
    ensures forall id: Id :: id in OwnPending(s, c) ==> !Replayed(s', c, id)
  {
    hide ProcsOk;
    forall id: Id | id in OwnPending(s, c) ensures !Replayed(s', c, id) {
      MultisetMember<Id>(Flat<Id>(s'.batches), id);
    }
  }

  lemma {:induction false} SomeUndatable(s: State, c: Name) returns (id: Id)
    requires Inv(s) && ProcOf(s, c).Up? && ProcOf(s, c).page.Held? && !Writable(s.log, ProcOf(s, c).page.valid)
    ensures id in ProcOf(s, c).page.ids && Undatable(s, id)
  {
    hide Inv;
    PageInLog(s, c);
    var valid := ProcOf(s, c).page.valid;
    var i :| 0 <= i < |valid| && Parses(s, valid[i]) && !Datable(s.log[valid[i]].value.timestampMs);
    id := valid[i];
    assert id in valid;
  }

  lemma {:induction false} UndatableOnward(s: State, s': State, id: Id)
    requires Undatable(s, id) && Onward(s, s')
    ensures Undatable(s', id)
  {
    hide Commits;
  }

  /** A process that raised is gone; what it held is still pending unless somebody else dealt with it. */
  lemma {:induction false} RaiseStops(s: State, c: Name)
    requires Inv(s) && ProcOf(s, c).Up?
    ensures
      var s' := Apply(s, Crash(c));
      Inv(s') && Onward(s, s') && ProcOf(s', c).Down? && s'.pending == s.pending && s'.log == s.log
  {
    hide Inv, Onward;
    StepKeeps(s, Crash(c));
    StepOnward(s, Crash(c));
  }

  // ----- one recovery page

  lemma {:induction false} PendingInLog(s: State)
    requires Bounds(s) && Ledger(s)
    ensures forall id: Id :: id in s.pending ==> id < |s.log|
  {
  }

  /** Reading a recovery page. */
  lemma {:induction false} RecoveryRead(s: State, c: Name, now: int)
    requires Bounds(s) && Ledger(s)
    requires var p := ProcOf(s, c); p.Up? && p.recovering && p.page.NoPage?
    ensures
      var s' := Apply(s, ReadOwn(c, BATCH_SIZE, now));
      var p' := ProcOf(s', c);
      && p'.Up? && (p'.page.NoPage? || p'.page.Held?)
      && (p'.page.NoPage? ==> !p'.recovering && OwnPending(s, c) == {} && s'.pending == s.pending)
      && (p'.page.Held? ==> |p'.page.ids| <= BATCH_SIZE)
      && (p'.page.Held? ==>
            p'.recovering && p'.page.ids != [] && forall id: Id :: id in p'.page.ids ==> id in OwnPending(s, c))
      && OwnPending(s', c) == OwnPending(s, c) && s'.log == s.log && p'.batchIds == ProcOf(s, c).batchIds
  {
    hide Select, NoDup, Owned;
    OwnPage(s, c, BATCH_SIZE);
    OwnedIds(s.pending, c, |s.log|);
    var own := Owned(s.pending, c, |s.log|);
    var ids: seq<Id> := own[..Min(BATCH_SIZE, |own|)];
    PendingInLog(s);
    if ids == [] {
      assert own == [];
    } else {
      OwnersUnchanged(s, Apply(s, ReadOwn(c, BATCH_SIZE, now)), c, ids, now);
    }
  }

  /**
    One recovery page, with anything done by others between reading, writing and acknowledging
    it: the page's entries are settled and the consumer's pending set strictly shrinks. A page
    with an undatable entry is not written, whatever others do.
   */
  lemma {:induction false} RecoveryPage(s: State, c: Name, now: int, e1: seq<Label>, e2: seq<Label>)
    requires Inv(s) && AllForeign(e1, c) && AllForeign(e2, c)
    requires var p := ProcOf(s, c); p.Up? && p.recovering && p.page.NoPage?
    ensures
      var s1 := Apply(s, ReadOwn(c, BATCH_SIZE, now));
      var p1 := ProcOf(s1, c);
      && p1.Up?
      && (p1.page.NoPage? ==> !p1.recovering && OwnPending(s1, c) == {} == OwnPending(s, c))
      && (!p1.page.NoPage? ==> |p1.page.ids| <= 1000)
      && (!p1.page.NoPage? ==>
            p1.page.Held? && p1.recovering && forall id: Id :: id in p1.page.ids ==> id in OwnPending(s, c))
      && (!p1.page.NoPage? && !Writable(s1.log, p1.page.valid) ==>
            && Apply(Run(s1, e1), CommitPage(c)) == Run(s1, e1)
            && exists id: Id :: id in OwnPending(s, c) && Undatable(s1, id))
      && (!p1.page.NoPage? && Writable(s1.log, p1.page.valid) ==>
            var s3 := Flushed(s1, CommitPage(c), e1, e2, c);
            && ProcOf(s3, c) == p1.(page := NoPage)
            && OwnPending(s3, c) < OwnPending(s, c)
            && forall id: Id :: id in p1.page.ids ==> Settled(s3, id))
  {
    hide Inv, Apply, Run, OwnPending, Settled, Onward, Writable, Undatable;
    InvParts(s);
    RecoveryRead(s, c, now);
    StepKeeps(s, ReadOwn(c, BATCH_SIZE, now));
    var s1 := Apply(s, ReadOwn(c, BATCH_SIZE, now));
    var p1 := ProcOf(s1, c);
    if !p1.page.NoPage? {
      ForeignRun(s1, e1, c);
      PageInLog(s1, c);
      GrownLog(s1, Run(s1, e1));
      WritableGrown(s1.log, Run(s1, e1).log, p1.page.valid);
      if !Writable(s1.log, p1.page.valid) {
        var id := SomeUndatable(s1, c);
        NotWritten(Run(s1, e1), c);
        return;
      }
      CommitHeld(Run(s1, e1), c);
      var s2 := Apply(Run(s1, e1), CommitPage(c));
      ForeignRun(s2, e2, c);
      AckSettles(Run(s2, e2), c);
      var s3 := Apply(Run(s2, e2), Ack(c));
      SamePendingSameOwn(Run(s1, e1), s2, c);
      AckShrinks(Run(s2, e2), s3, c, p1.page.ids);
      assert p1.page.ids[0] in p1.page.ids;
    }
  }

  lemma {:induction false} NotWritten(s: State, c: Name)
    requires ProcOf(s, c).Up? && ProcOf(s, c).page.Held? && !Writable(s.log, ProcOf(s, c).page.valid)
    ensures Apply(s, CommitPage(c)) == s
  {
    hide Write;
  }

  lemma {:induction false} InvParts(s: State)
    requires Inv(s)
    ensures Bounds(s) && Ledger(s)
  {
  }

  lemma {:induction false} SamePendingSameOwn(s: State, s': State, c: Name)
    requires s'.pending == s.pending
    ensures OwnPending(s', c) == OwnPending(s, c)
  {
  }

  lemma {:induction false} AckShrinks(s: State, s': State, c: Name, ids: seq<Id>)
    requires s'.pending == s.pending - IdSet(ids)
    ensures OwnPending(s', c) <= OwnPending(s, c) && forall id: Id :: id in ids ==> id !in OwnPending(s', c)
  {
  }

  /** What a delivered entry is when it is not pending for `c`. */
  lemma {:induction false} NotOwn(s: State, c: Name, id: Id)
    requires Inv(s) && id in s.delivered && id !in OwnPending(s, c)
    ensures Settled(s, id) || (id in s.pending && s.pending[id].owner != c)
  {
  }

  /** The recovery loop's own steps: pages read, written and acknowledged, and a last read, empty or raised on. */
  function RecoverySteps(c: Name, pages: nat, clock: nat -> int, raised: bool, written: bool): seq<Label> {
    RecoveryRounds(c, pages, clock) + [ReadOwn(c, BATCH_SIZE, clock(3 * pages))]
      + if raised then FlushSteps(CommitPage(c), c, written, false) else []
  }

  function RecoveryRounds(c: Name, pages: nat, clock: nat -> int): seq<Label> {
    if pages == 0 then []
    else
      RecoveryRounds(c, pages - 1, clock)
        + [ReadOwn(c, BATCH_SIZE, clock(3 * (pages - 1)))] + [CommitPage(c)] + [Ack(c)]
  }

  lemma {:induction false} OneMoreRound(c: Name, pages: nat, clock: nat -> int)
    ensures RecoveryRounds(c, 0, clock) == []
    ensures RecoveryRounds(c, pages + 1, clock)
         == RecoveryRounds(c, pages, clock) + [ReadOwn(c, BATCH_SIZE, clock(3 * pages))] + [CommitPage(c)] + [Ack(c)]
  {
  }

  // ----- the main batch

  lemma {:induction false} EventsOfReadable(log: seq<Option<Event>>, trimmed: nat, ids: seq<Id>)
    requires forall i :: 0 <= i < |ids| ==> trimmed <= ids[i]
    ensures EventsOf(log, Select<Id>(ids, Readable(log, trimmed))) == EventsOf(log, ids)
    ensures |Select<Id>(ids, Readable(log, trimmed))| <= |ids|
  {
    if ids != [] {
      var init: seq<Id>, last := ids[..|ids| - 1], ids[|ids| - 1];
      EventsOfReadable(log, trimmed, init);
      var kept := Select<Id>(init, Readable(log, trimmed));
      if Readable(log, trimmed)(last) {
        assert (kept + [last])[..|kept|] == kept;
      } else {
        assert Select<Id>(ids, Readable(log, trimmed)) == kept;
        assert EventsOf(log, ids) == EventsOf(log, init);
      }
    }
  }

  lemma {:induction false} EventsOfLength(log: seq<Option<Event>>, ids: seq<Id>)
    ensures |EventsOf(log, ids)| <= |ids|
  {
    if ids != [] { EventsOfLength(log, ids[..|ids| - 1]); }
  }

  /** What a read adds to the two lists. */
  lemma {:induction false} ReadAppends(s: State, c: Name, count: nat, now: int)
    requires Inv(s) && ProcOf(s, c).Up? && !ProcOf(s, c).recovering && ProcOf(s, c).page.NoPage?
    ensures
      var s' := Apply(s, ReadNew(c, count, now));
      var p, p' := ProcOf(s, c), ProcOf(s', c);
      && p'.Up? && !p'.recovering && p'.page.NoPage? && s'.log == s.log
      && |p.batchIds| <= |p'.batchIds| <= |p.batchIds| + count
      && p'.batchIds == p.batchIds + p'.batchIds[|p.batchIds|..]
      && EventsOf(s.log, p'.batch) == EventsOf(s.log, p.batch) + EventsOf(s.log, p'.batchIds[|p.batchIds|..])
      && (forall i :: |p.batchIds| <= i < |p'.batchIds| ==> p'.batchIds[i] < |s.log|)
  {
    hide Select, EventsOf, Books, ProcsOk, NoDup, Ledger;
    var s' := Apply(s, ReadNew(c, count, now));
    var p := ProcOf(s, c);
    if s' != s {
      var ids := Range(Max(s.lastDelivered, s.trimmed), s'.lastDelivered);
      var p' := ProcOf(s', c);
      assert p'.batchIds[|p.batchIds|..] == ids;
      EventsOfReadable(s.log, s.trimmed, ids);
      DeliveryExactness.EventsOfConcat(s.log, p.batch, Select<Id>(ids, Readable(s.log, s.trimmed)));
    } else {
      assert p.batchIds[|p.batchIds|..] == [];
      EventsOfNothing(s.log);
      assert EventsOf(s.log, p.batch) + [] == EventsOf(s.log, p.batch);
    }
  }

  lemma {:induction false} EventsOfNothing(log: seq<Option<Event>>)
    ensures EventsOf(log, []) == []
  {
  }

  lemma {:induction false} EventsOfGrown(log: seq<Option<Event>>, log': seq<Option<Event>>, ids: seq<Id>)
    requires log <= log' && forall i :: 0 <= i < |ids| ==> ids[i] < |log|
    ensures EventsOf(log', ids) == EventsOf(log, ids)
  {
    if ids != [] {
      EventsOfGrown(log, log', ids[..|ids| - 1]);
    }
  }

  /** The two lists of the main loop are what process `c` holds in memory. */
  ghost predicate InMemory(s: State, c: Name, batch: seq<Event>, batchIds: seq<Id>) {
    var p := ProcOf(s, c);
    && p.Up? && !p.recovering && p.page.NoPage?
    && p.batchIds == batchIds && EventsOf(s.log, p.batch) == batch
  }

  lemma {:induction false} BatchInLog(s: State, c: Name)
    requires Inv(s) && ProcOf(s, c).Up?
    ensures forall i :: 0 <= i < |ProcOf(s, c).batch| ==> ProcOf(s, c).batch[i] < |s.log|
  {
    hide Books, Ledger, Bounds, NoDup, PageOk;
    assert ProcOk(s, s.procs[c]);
    var batch := ProcOf(s, c).batch;
    forall i | 0 <= i < |batch| ensures batch[i] < |s.log| { assert batch[i] in batch; }
  }

  /** Others may append and trim, but not change what is in memory. */
  lemma {:induction false} InMemoryMeanwhile(s: State, s': State, c: Name, batch: seq<Event>, batchIds: seq<Id>)
    requires Inv(s) && InMemory(s, c, batch, batchIds) && Meanwhile(s, s', c)
    ensures InMemory(s', c, batch, batchIds)
  {
    hide Inv, EventsOf, OwnPending;
    BatchInLog(s, c);
    EventsOfGrown(s.log, s'.log, ProcOf(s, c).batch);
  }

  /** A flush of the batch: everything in it is settled, whatever others do on the way. */
  lemma {:induction false} FlushClears(s: State, c: Name, e: seq<Label>)
    requires Inv(s) && AllForeign(e, c)
    requires var p := ProcOf(s, c);
      p.Up? && !p.recovering && p.page.NoPage? && p.batchIds != [] && Writable(s.log, p.batch)
    ensures
      var s2 := Apply(Run(Apply(s, CommitBatch(c)), e), Ack(c));
      && Inv(s2) && InMemory(s2, c, [], [])
      && (forall id: Id :: id in ProcOf(s, c).batchIds ==> Settled(s2, id))
  {
    hide Inv, Apply, Run, OwnPending, Settled, Onward, EventsOf, Writable;
    CommitMain(s, c);
    var s1 := Apply(s, CommitBatch(c));
    ForeignRun(s1, e, c);
    AckSettles(Run(s1, e), c);
    EventsOfNothing(Apply(Run(s1, e), Ack(c)).log);
  }

  // ----- an adopted page

  /** A claim puts entries of the pending list on a page, or nothing at all. */
  lemma {:induction false} ClaimPage(s: State, c: Name, ids: seq<Id>, now: int)
    requires ProcOf(s, c).Up? && !ProcOf(s, c).recovering && ProcOf(s, c).page.NoPage?
    ensures
      var s' := Apply(s, Claim(c, ids, now));
      var p' := ProcOf(s', c);
      && p'.Up? && p'.(page := NoPage) == ProcOf(s, c) && s'.log == s.log
      && (Claimable(s, ids, now) ==>
            var kept := Select<Id>(ids, Retained(s.trimmed));
            if kept == [] then p'.page.NoPage?
            else p'.page == Held(kept, Select<Id>(kept, Readable(s.log, s.trimmed))))
  {
    hide Select, Holds, HeldAmong, Redeliver, Claimable;
  }

  /** An adopted page, with anything done by others on the way, is settled; the batch stays in memory. */
  lemma {:induction false} AdoptedPage(
    s: State, c: Name, e1: seq<Label>, e2: seq<Label>, batch: seq<Event>, batchIds: seq<Id>)
    requires Inv(s) && AllForeign(e1, c) && AllForeign(e2, c)
    requires var p := ProcOf(s, c);
      && p.Up? && p.page.Held? && !p.recovering && p.batchIds == batchIds && EventsOf(s.log, p.batch) == batch
      && Writable(s.log, p.page.valid)
    ensures
      var s3 := Flushed(s, CommitPage(c), e1, e2, c);
      && Inv(s3) && InMemory(s3, c, batch, batchIds)
      && (forall id: Id :: id in ProcOf(s, c).page.ids ==> Settled(s3, id))
  {
    hide Inv, Apply, Run, OwnPending, Settled, EventsOf, Grows, Writable;
    ForeignRun(s, e1, c);
    PageInLog(s, c);
    GrownLog(s, Run(s, e1));
    WritableGrown(s.log, Run(s, e1).log, ProcOf(s, c).page.valid);
    CommitHeld(Run(s, e1), c);
    var s2 := Apply(Run(s, e1), CommitPage(c));
    ForeignRun(s2, e2, c);
    AckSettles(Run(s2, e2), c);
    var s3 := Apply(Run(s2, e2), Ack(c));
    OnwardOnward(s, Run(s, e1), s2);
    OnwardOnward(s, s2, Run(s2, e2));
    OnwardOnward(s, Run(s2, e2), s3);
    BatchInLog(s, c);
    GrownLog(s, s3);
    EventsOfGrown(s.log, s3.log, ProcOf(s, c).batch);
  }

  lemma {:induction false} GrownLog(s: State, s': State)
    requires Onward(s, s')
    ensures s.log <= s'.log
  {
  }

  lemma {:induction false} AllSettledOnward(s: State, s': State, ids: set<Id>)
    requires Inv(s') && Onward(s, s') && forall id: Id :: id in ids ==> Settled(s, id)
    ensures forall id: Id :: id in ids ==> Settled(s', id)
  {
    hide Inv, Onward, Settled;
    forall id: Id | id in ids ensures Settled(s', id) { SettledOnward(s, s', id); }
  }

  lemma {:induction false} RunNothing(s: State)
    ensures Run(s, []) == s
  {
  }

  /** One own step after whatever others did. */
  lemma {:induction false} TraceStep(s0: State, trace: seq<Label>, others: seq<Label>, l: Label, c: Name)
    requires AllForeign(others, c) && !Foreign(l, c)
    ensures Run(s0, trace + others + [l]) == Apply(Run(Run(s0, trace), others), l)
    ensures Mine(trace + others + [l], c) == Mine(trace, c) + [l]
  {
    hide Apply, Foreign;
    RunConcat(s0, trace, others);
    assert (trace + others + [l])[..|trace + others|] == trace + others;
    MineSnoc(trace + others, l, c);
    MineConcat(trace, others, c);
  }

  /** One consumer process. `world` is Redis, the table and everybody's memory. */
  class Worker {
    const name: Name
    var world: State
    var batch: seq<Event>
    var batchIds: seq<Id>
    var lastFlush: real

    constructor (name: Name, world: State, now: real)
      ensures this.name == name && this.world == world && batch == [] && batchIds == [] && lastFlush == now
    {
      this.name, this.world, batch, batchIds, lastFlush := name, world, [], [], now;
    }

    /** Between iterations of the main loop: the lists are the process's memory and not yet full. */
    ghost predicate Valid()
      reads this
    {
      Inv(world) && InMemory(world, name, batch, batchIds) && |batch| <= |batchIds| < BATCH_SIZE
    }

    /** Whatever others do, then one own step. */
    method Take(others: seq<Label>, l: Label, ghost s0: State, ghost trace: seq<Label>)
      returns (ghost trace': seq<Label>)
      requires Inv(world) && AllForeign(others, name) && !Foreign(l, name) && world == Run(s0, trace)
      modifies this`world
      ensures Inv(world) && world == Apply(Run(old(world), others), l) && world == Run(s0, trace')
      ensures Onward(old(world), world)
      ensures trace' == trace + others + [l] && Mine(trace', name) == Mine(trace, name) + [l]
    {
      hide Inv, Apply, Run, Foreign, Onward, OwnPending;
      ForeignRun(world, others, name);
      TraceStep(s0, trace, others, l, name);
      trace' := trace + others + [l];
      world := Run(world, others);
      StepKeeps(world, l);
      StepOnward(world, l);
      OnwardOnward(old(world), world, Apply(world, l));
      world := Apply(world, l);
    }

    /**
      flush_batch of a page read or claimed: write, then acknowledge. An entry without a date,
      a refused transaction or a failing XACK raises, and the process ends; only the last
      leaves the page written.
     */
    method FlushPage(e1: seq<Label>, e2: seq<Label>, fault: Fault, ghost s0: State, ghost trace: seq<Label>)
      returns (ok: bool, ghost written: bool, ghost trace': seq<Label>)
      requires Inv(world) && AllForeign(e1, name) && AllForeign(e2, name) && world == Run(s0, trace)
      requires ProcOf(world, name).Up? && ProcOf(world, name).page.Held?
      modifies this`world
      ensures Inv(world) && world == Run(s0, trace') && Onward(old(world), world)
      ensures written <==> !fault.CommitFails? && Writable(old(world).log, ProcOf(old(world), name).page.valid)
      ensures ok <==> written && fault.Works?
      ensures ok ==> world == Flushed(old(world), CommitPage(name), e1, e2, name)
      ensures !ok ==> world == Raised(old(world), CommitPage(name), e1, e2, name, written) && ProcOf(world, name).Down?
      ensures Mine(trace', name) == Mine(trace, name) + FlushSteps(CommitPage(name), name, written, ok)
    {
      hide Inv, Apply, Run, AllForeign, Onward, OwnPending, Writable;
      ForeignRun(world, e1, name);
      PageMeanwhile(world, e1, name);
      written := !fault.CommitFails? && Writable(world.log, ProcOf(world, name).page.valid);
      if fault.CommitFails? || !Writable(world.log, ProcOf(world, name).page.valid) {
        RaiseStops(Run(world, e1), name);
        trace' := Take(e1, Crash(name), s0, trace);
        return false, written, trace';
      }
      CommitHeld(Run(world, e1), name);
      trace' := Take(e1, CommitPage(name), s0, trace);
      ghost var mid := world;
      ForeignRun(world, e2, name);
      if fault.AckFails? {
        RaiseStops(Run(world, e2), name);
        trace' := Take(e2, Crash(name), s0, trace');
      } else {
        trace' := Take(e2, Ack(name), s0, trace');
      }
      ok := fault.Works?;
      OnwardOnward(old(world), mid, world);
    }

    /** flush_batch of the main loop's lists. */
    method FlushBatch(e1: seq<Label>, e2: seq<Label>, fault: Fault, ghost s0: State, ghost trace: seq<Label>)
      returns (ok: bool, ghost written: bool, ghost trace': seq<Label>)
      requires Inv(world) && AllForeign(e1, name) && AllForeign(e2, name) && world == Run(s0, trace)
      requires InMemory(world, name, batch, batchIds) && batchIds != []
      modifies this`world, this`batch, this`batchIds
      ensures Inv(world) && world == Run(s0, trace') && Onward(old(world), world)
      ensures written <==> !fault.CommitFails? && AllDatable(old(batch))
      ensures ok <==> written && fault.Works?
      ensures ok ==> InMemory(world, name, batch, batchIds) && batch == [] && batchIds == []
      ensures ok ==> forall id: Id :: id in old(batchIds) ==> Settled(world, id)
      ensures !ok ==> ProcOf(world, name).Down?
      ensures Mine(trace', name) == Mine(trace, name) + FlushSteps(CommitBatch(name), name, written, ok)
    {
      hide Inv, Apply, Run, AllForeign, Onward, OwnPending, Settled, EventsOf, Writable, AllDatable;
      ForeignRun(world, e1, name);
      written := !fault.CommitFails? && AllDatable(batch);
      if fault.CommitFails? || !AllDatable(batch) {
        RaiseStops(Run(world, e1), name);
        trace' := Take(e1, Crash(name), s0, trace);
        return false, written, trace';
      }
      InMemoryMeanwhile(world, Run(world, e1), name, batch, batchIds);
      WritableIsDatable(Run(world, e1).log, ProcOf(world, name).batch);
      FlushClears(Run(world, e1), name, e2);
      CommitMain(Run(world, e1), name);
      trace' := Take(e1, CommitBatch(name), s0, trace);
      ghost var mid := world;
      ForeignRun(world, e2, name);
      ok := fault.Works?;
      if ok {
        trace' := Take(e2, Ack(name), s0, trace');
        batch, batchIds := [], [];
      } else {
        RaiseStops(Run(world, e2), name);
        trace' := Take(e2, Crash(name), s0, trace');
      }
      OnwardOnward(old(world), mid, world);
    }

    /**
      recover_own_pending, with others acting before each of its steps: pages of its own
      pending entries, each written and acknowledged, until none is left. It ends, because
      every page strictly shrinks what is pending and nobody can add to it. Each entry that
      was pending for it is settled or has been claimed by another consumer. It raises only on
      an outside fault or an entry of its own without a date, and then loses nothing; such
      an entry makes it raise at every start until it is trimmed or claimed.
     */
    method RecoverOwnPending(others: nat -> seq<Label>, clock: nat -> int, faults: nat -> Fault)
      returns (raised: bool, pages: nat, ghost written: bool, ghost trace: seq<Label>)
      requires Inv(world) && Elsewhere(others, name)
      requires var p := ProcOf(world, name); p.Up? && p.recovering && p.page.NoPage?
      modifies this`world
      ensures Inv(world) && world == Run(old(world), trace)
      ensures Mine(trace, name) == RecoverySteps(name, pages, clock, raised, written)
      ensures !raised ==> OwnPending(world, name) == {}
      ensures !raised ==> ProcOf(world, name).Up? && !ProcOf(world, name).recovering && ProcOf(world, name).page.NoPage?
      ensures raised ==> ProcOf(world, name).Down?
      ensures raised && faults(pages).Works? ==>
                exists id: Id :: id in OwnPending(old(world), name) && Undatable(world, id)
      ensures forall id: Id :: id in OwnPending(old(world), name) ==>
                Settled(world, id) || (id in world.pending && (!raised ==> world.pending[id].owner != name))
      ensures (exists id: Id :: id in OwnPending(old(world), name) && Replayed(world, name, id)) ==> raised
    {
      hide Inv, Apply, Run, OwnPending, Settled, AllForeign, Onward;
      hide RecoveryRounds, Flushed, Undatable, Writable, Replayed;
      ghost var s0 := world;
      RunNothing(s0);
      OneMoreRound(name, 0, clock);
      trace, pages, raised, written := [], 0, false, false;
      while true
        invariant Inv(world) && world == Run(s0, trace) && Mine(trace, name) == RecoveryRounds(name, pages, clock)
        invariant ProcOf(world, name).Up? && ProcOf(world, name).recovering && ProcOf(world, name).page.NoPage?
        invariant OwnPending(world, name) <= OwnPending(s0, name)
        decreases OwnPending(world, name)
      {
        ghost var e0, e1, e2 := others(3 * pages), others(3 * pages + 1), others(3 * pages + 2);
        assert AllForeign(e0, name) && AllForeign(e1, name) && AllForeign(e2, name);
        ForeignRun(world, e0, name);
        RecoveryPage(Run(world, e0), name, clock(3 * pages), e1, e2);
        trace := Take(others(3 * pages), ReadOwn(name, BATCH_SIZE, clock(3 * pages)), s0, trace);
        if ProcOf(world, name).page.NoPage? { break; }
        ghost var read := world;
        var ok;
        ok, written, trace := FlushPage(others(3 * pages + 1), others(3 * pages + 2), faults(pages), s0, trace);
        if !ok {
          raised := true;
          if faults(pages).Works? {
            ghost var id: Id :| id in OwnPending(s0, name) && Undatable(read, id);
            UndatableOnward(read, world, id);
          }
          RunOnward(s0, trace);
          NothingForgotten(s0, world, name);
          return;
        }
        OneMoreRound(name, pages, clock);
        pages := pages + 1;
      }
      RunOnward(s0, trace);
      EverythingRecovered(s0, world, name);
      NoneReplayed(s0, world, name);
    }

    /** The read of the main loop and the loop over its messages. */
    method ReadBatch(e: seq<Label>, now: int, ghost s0: State, ghost trace: seq<Label>)
      returns (ghost trace': seq<Label>)
      requires Valid() && AllForeign(e, name) && world == Run(s0, trace)
      modifies this`world, this`batch, this`batchIds
      ensures Inv(world) && world == Run(s0, trace') && InMemory(world, name, batch, batchIds)
      ensures Mine(trace', name) == Mine(trace, name) + [ReadNew(name, BATCH_SIZE - |old(batch)|, now)]
      ensures old(batch) <= batch && old(batchIds) <= batchIds
      ensures |batch| <= BATCH_SIZE && |batch| <= |batchIds| <= 2 * BATCH_SIZE - 1
    {
      hide Inv, Apply, Run, EventsOf, AllForeign, OwnPending, Onward;
      var count := if BATCH_SIZE - |batch| > 1 then BATCH_SIZE - |batch| else 1;
      ForeignRun(world, e, name);
      InMemoryMeanwhile(world, Run(world, e), name, batch, batchIds);
      ReadAppends(Run(world, e), name, count, now);
      trace' := Take(e, ReadNew(name, count, now), s0, trace);
      var messages := ProcOf(world, name).batchIds[|batchIds|..];
      ghost var read, known := EventsOf(world.log, messages), batch;
      Consume(messages);
      EventsOfLength(world.log, messages);
      assert batch == known + read && |read| <= |messages| <= count;
    }

    /**
      One iteration of the main loop without the orphan sweep, with others acting before each
      of its steps. A flush happens when the batch is full or five seconds after the last one,
      never holds more than 1000 events or 1999 ids, poison included, and
      settles every entry in it. It raises exactly on an outside fault or an event without a
      date, and then every entry is still pending or settled.
     */
    method Poll(others: nat -> seq<Label>, now: int, monotonic: real, afterFlush: real, fault: Fault)
      returns (flushed: bool, raised: bool, events: seq<Event>, ids: seq<Id>, ghost trace: seq<Label>)
      requires Valid() && Elsewhere(others, name)
      modifies this
      ensures Inv(world) && world == Run(old(world), trace)
      ensures Mine(trace, name)
           == [ReadNew(name, 1000 - |old(batch)|, now)]
            + if !flushed && !raised then []
              else FlushSteps(CommitBatch(name), name, !fault.CommitFails? && AllDatable(events), flushed)
      ensures old(batch) <= events && |events| <= 1000 && old(batchIds) <= ids && |ids| <= 1999
      ensures
        var due := ids != [] && (|ids| >= 1000 || monotonic - old(lastFlush) >= 5.0);
        && (flushed <==> due && fault.Works? && AllDatable(events))
        && (raised <==> due && !flushed)
      ensures !raised ==> Valid()
      ensures flushed ==> batch == [] && batchIds == [] && lastFlush == afterFlush
      ensures flushed ==> forall id: Id :: id in ids ==> Settled(world, id)
      ensures !flushed && !raised ==> batch == events && batchIds == ids && lastFlush == old(lastFlush)
      ensures raised ==> ProcOf(world, name).Down?
      ensures raised ==> forall id: Id :: id in ids ==> id in world.pending || Settled(world, id)
    {
      hide Inv, Apply, Run, AllForeign, Settled, Onward, AllDatable, InMemory, FlushSteps;
      ghost var s0 := world;
      RunNothing(s0);
      assert AllForeign(others(0), name) && AllForeign(others(1), name) && AllForeign(others(2), name);
      trace := ReadBatch(others(0), now, s0, []);
      events, ids, flushed, raised := batch, batchIds, false, false;
      if batchIds != [] && (|batchIds| >= BATCH_SIZE || monotonic - lastFlush >= BATCH_MAX_WAIT_S) {
        ghost var read := world;
        ghost var written;
        flushed, written, trace := FlushBatch(others(1), others(2), fault, s0, trace);
        if !flushed {
          raised := true;
          HeldNotForgotten(read, world, name, events, ids);
          return;
        }
        lastFlush := afterFlush;
      }
    }

    /** One XAUTOCLAIM from `cursor`, with its flush if it claimed anything. */
    method AdoptPage(e0: seq<Label>, e1: seq<Label>, e2: seq<Label>, now: int, cursor: nat, fault: Fault,
                     ghost s0: State, ghost trace: seq<Label>, ghost timed: bool, ghost horizon: int)
      returns (claimed: seq<Id>, next: nat, ok: bool, ghost trace': seq<Label>)
      requires Valid() && world == Run(s0, trace)
      requires AllForeign(e0, name) && AllForeign(e1, name) && AllForeign(e2, name)
      requires timed && cursor > 0 ==> AllStamped(e0, horizon) && Swept(world, cursor, horizon)
      requires timed ==> AllStamped(e1, horizon) && AllStamped(e2, horizon) && horizon <= now - XAUTOCLAIM_IDLE_MS
      modifies this`world
      ensures Inv(world) && world == Run(s0, trace') && Onward(old(world), world)
      ensures (world, claimed, next, ok) == SweepPage(old(world), name, e0, e1, e2, now, cursor, fault)
      ensures next == 0 || cursor < next < |world.log|
      ensures ok ==> Valid() && forall id: Id :: id in claimed ==> Settled(world, id)
      ensures !ok ==> ProcOf(world, name).Down?
      ensures ok && timed ==> Swept(world, next, horizon)
      ensures OnlySweeps(Mine(trace, name)) ==> OnlySweeps(Mine(trace', name))
    {
      hide Inv, Apply, Run, EventsOf, AllForeign, OwnPending, Settled, Onward;
      hide Swept, Scan, AllStamped, Select, Writable;
      ForeignRun(world, e0, name);
      InMemoryMeanwhile(world, Run(world, e0), name, batch, batchIds);
      ghost var found := Run(world, e0);
      var (ids, n) := Scan(Run(world, e0), now, cursor, XAUTOCLAIM_COUNT, CLAIM_ATTEMPTS);
      ScanTakes(found, now, cursor, XAUTOCLAIM_COUNT, CLAIM_ATTEMPTS);
      ScanIsClaimable(found, now, cursor);
      ClaimPage(found, name, ids, now);
      if timed { SweepRound(world, name, e0, e1, e2, now, cursor, horizon); }
      trace' := Take(e0, Claim(name, ids, now), s0, trace);
      next, ok := n, true;
      var page := ProcOf(world, name).page;
      if page.NoPage? { return [], n, true, trace'; }
      claimed := page.ids;
      if Writable(world.log, page.valid) { AdoptedPage(world, name, e1, e2, batch, batchIds); }
      ghost var mid := world;
      ghost var written;
      ok, written, trace' := FlushPage(e1, e2, fault, s0, trace');
      OnwardOnward(old(world), mid, world);
      GrownLog(mid, world);
    }

    /**
      adopt_orphaned_pending, its first `rounds` pages, with others acting before each step:
      each claimed page is written and acknowledged before the next, up to a page that claims
      nothing, the end of the list or a flush that raises. The cursor only moves up, so the
      sweep ends on its own unless the stream outgrows it. After a sweep that reached the end
      nobody's pending entry is one delivered 30 s or more before it began. The main loop's
      own lists are left alone, even when their entries were claimed.
     */
    method AdoptOrphaned(others: nat -> seq<Label>, clock: nat -> int, faults: nat -> Fault, rounds: nat)
      returns (adopted: set<Id>, end: SweepEnd, ghost trace: seq<Label>)
      requires Valid() && Elsewhere(others, name)
      modifies this`world
      ensures Inv(world) && world == Run(old(world), trace) && OnlySweeps(Mine(trace, name))
      ensures (world, adopted, end) == Sweep(old(world), name, others, clock, faults, 0, rounds, 0, {})
      ensures if end.FlushRaised? then ProcOf(world, name).Down? else Valid()
      ensures end.OutOfRounds? ==> rounds == 0 || rounds < |world.log|
      ensures forall id: Id :: id in adopted ==> Settled(world, id)
      ensures end.ReachedEnd? && SweepTimed(others, clock) ==>
                forall id: Id :: id in world.pending ==> world.pending[id].at > clock(0) - 30_000
    {
      hide Inv, Apply, Run, EventsOf, AllForeign, OwnPending, Settled, Onward, Elsewhere;
      hide Swept, SweepPage, AllStamped, InMemory, SweepTimed, IdSet, OnlySweeps, Mine, Sweep;
      ghost var s0, horizon := world, clock(0) - XAUTOCLAIM_IDLE_MS;
      ghost var timed := SweepTimed(others, clock);
      RunNothing(s0);
      NothingSwept(name);
      trace, adopted, end := [], {}, OutOfRounds;
      var cursor := 0;
      for i := 0 to rounds
        invariant Valid() && world == Run(s0, trace) && OnlySweeps(Mine(trace, name)) && end.OutOfRounds?
        invariant i <= cursor && (cursor > 0 ==> cursor < |world.log|) && (i == 0 ==> cursor == 0)
        invariant forall id: Id :: id in adopted ==> Settled(world, id)
        invariant cursor > 0 && timed ==> Swept(world, cursor, horizon)
        invariant Sweep(world, name, others, clock, faults, i, rounds, cursor, adopted)
               == Sweep(s0, name, others, clock, faults, 0, rounds, 0, {})
      {
        ghost var before := world;
        var claimed, next, ok;
        var e0, e1, e2 := others(3 * i), others(3 * i + 1), others(3 * i + 2);
        if timed { StampedPage(others, clock, i); }
        OthersOfPage(others, name, i);
        SweepUnfolds(world, name, others, clock, faults, i, rounds, cursor, adopted);
        claimed, next, ok, trace := AdoptPage(e0, e1, e2, clock(i), cursor, faults(i), s0, trace, timed, horizon);
        AllSettledOnward(before, world, adopted);
        if !ok { end := FlushRaised; return; }
        MoreSettled(world, adopted, claimed);
        adopted := adopted + IdSet(claimed);
        if next == 0 {
          end := ReachedEnd;
          if timed { AllSwept(world, horizon); }
          return;
        }
        if claimed == [] { end := ClaimedNothing; return; }
        cursor := next;
      }
      SweepIsOver(world, name, others, clock, faults, rounds, cursor, adopted);
    }

    /** The inner loop: parsed events join `batch`, every id joins `batchIds`. */
    method Consume(messages: seq<Id>)
      requires forall i :: 0 <= i < |messages| ==> messages[i] < |world.log|
      modifies this`batch, this`batchIds
      ensures batch == old(batch) + EventsOf(world.log, messages)
      ensures batchIds == old(batchIds) + messages
    {
      EventsOfNothing(world.log);
      for i := 0 to |messages|
        invariant batch == old(batch) + EventsOf(world.log, messages[..i])
        invariant batchIds == old(batchIds) + messages[..i]
      {
        assert messages[..i + 1][..i] == messages[..i];
        var event := world.log[messages[i]];
        if event.Some? { batch := batch + [event.value]; }
        batchIds := batchIds + [messages[i]];
      }
      assert messages[..|messages|] == messages;
    }
  }

  lemma {:induction false} OnwardSame(s: State)
    ensures Onward(s, s)
  {
  }

  lemma {:induction false} RunOnward(s: State, labels: seq<Label>)
    ensures Onward(s, Run(s, labels))
  {
    hide Grows, Apply;
    if labels == [] {
      OnwardSame(s);
    } else {
      var mid := Run(s, labels[..|labels| - 1]);
      RunOnward(s, labels[..|labels| - 1]);
      StepOnward(mid, labels[|labels| - 1]);
      OnwardOnward(s, mid, Run(s, labels));
    }
  }

  /** What was delivered stays pending or is settled. */
  lemma {:induction false} NothingForgotten(s: State, s': State, c: Name)
    requires Inv(s) && Inv(s') && Onward(s, s')
    ensures forall id: Id :: id in OwnPending(s, c) ==> Settled(s', id) || id in s'.pending
  {
    hide Settled, ProcsOk, Books;
    forall id: Id | id in OwnPending(s, c) ensures Settled(s', id) || id in s'.pending {
      assert id in s.delivered;
      DeliveredIsKept(s', id);
    }
  }

  lemma {:induction false} DeliveredIsKept(s: State, id: Id)
    requires Inv(s) && id in s.delivered
    ensures Settled(s, id) || id in s.pending
  {
  }

  lemma {:induction false} HeldNotForgotten(s: State, s': State, c: Name, batch: seq<Event>, batchIds: seq<Id>)
    requires Inv(s) && Inv(s') && Onward(s, s') && InMemory(s, c, batch, batchIds)
    ensures forall id: Id :: id in batchIds ==> Settled(s', id) || id in s'.pending
  {
    hide Settled, Books, Ledger, Bounds, NoDup, PageOk;
    assert ProcOk(s, s.procs[c]);
    forall id: Id | id in batchIds ensures Settled(s', id) || id in s'.pending {
      assert id in s.delivered;
      DeliveredIsKept(s', id);
    }
  }

  lemma {:induction false} EverythingRecovered(s: State, s': State, c: Name)
    requires Inv(s) && Inv(s') && Onward(s, s') && OwnPending(s', c) == {}
    ensures forall id: Id :: id in OwnPending(s, c) ==>
              Settled(s', id) || (id in s'.pending && s'.pending[id].owner != c)
  {
    hide Settled, ProcsOk, Books;
    forall id: Id | id in OwnPending(s, c)
      ensures Settled(s', id) || (id in s'.pending && s'.pending[id].owner != c)
    {
      assert id in s.delivered;
      NotOwn(s', c, id);
    }
  }

  // ----- the sweep as a function, and its time line

  /** Why a sweep stopped. */
  datatype SweepEnd = ReachedEnd | ClaimedNothing | FlushRaised | OutOfRounds

  /** One page of a sweep: the state after it, the entries claimed, the next cursor, and whether no flush raised. */
  function SweepPage(s: State, c: Name, e0: seq<Label>, e1: seq<Label>, e2: seq<Label>,
                     now: int, cursor: nat, fault: Fault): (State, seq<Id>, nat, bool) {
    var found := Run(s, e0);
    var (ids, next) := Scan(found, now, cursor, XAUTOCLAIM_COUNT, CLAIM_ATTEMPTS);
    var claimed := Claimed(found, now, cursor, XAUTOCLAIM_COUNT, CLAIM_ATTEMPTS);
    var s' := Apply(found, Claim(c, ids, now));
    if claimed == [] then (s', [], next, true)
    else
      var valid := Select<Id>(claimed, Readable(found.log, found.trimmed));
      var written := !fault.CommitFails? && Writable(found.log, valid);
      if written && fault.Works? then (Flushed(s', CommitPage(c), e1, e2, c), claimed, next, true)
      else (Raised(s', CommitPage(c), e1, e2, c, written), claimed, next, false)
  }

  /**
    Pages `i` to `rounds` of a sweep that has adopted `adopted` so far: the state after it,
    all it adopted, and why it stopped.
   */
  function Sweep(s: State, c: Name, others: nat -> seq<Label>, clock: nat -> int, faults: nat -> Fault,
                 i: nat, rounds: nat, cursor: nat, adopted: set<Id>): (State, set<Id>, SweepEnd)
    decreases rounds - i
  {
    if i >= rounds then (s, adopted, OutOfRounds)
    else
      var (s', claimed, next, ok) :=
        SweepPage(s, c, others(3 * i), others(3 * i + 1), others(3 * i + 2), clock(i), cursor, faults(i));
      var all := adopted + IdSet(claimed);
      if !ok then (s', adopted, FlushRaised)
      else if next == 0 then (s', all, ReachedEnd)
      else if claimed == [] then (s', all, ClaimedNothing)
      else Sweep(s', c, others, clock, faults, i + 1, rounds, next, all)
  }

  lemma {:induction false} SweepUnfolds(s: State, c: Name, others: nat -> seq<Label>, clock: nat -> int,
                                        faults: nat -> Fault, i: nat, rounds: nat, cursor: nat, adopted: set<Id>)
    requires i < rounds
    ensures
      var (s', claimed, next, ok) :=
        SweepPage(s, c, others(3 * i), others(3 * i + 1), others(3 * i + 2), clock(i), cursor, faults(i));
      var all := adopted + IdSet(claimed);
      Sweep(s, c, others, clock, faults, i, rounds, cursor, adopted) ==
        if !ok then (s', adopted, FlushRaised)
        else if next == 0 then (s', all, ReachedEnd)
        else if claimed == [] then (s', all, ClaimedNothing)
        else Sweep(s', c, others, clock, faults, i + 1, rounds, next, all)
  {
    hide SweepPage, IdSet;
  }

  lemma {:induction false} SweepIsOver(s: State, c: Name, others: nat -> seq<Label>, clock: nat -> int,
                                       faults: nat -> Fault, rounds: nat, cursor: nat, adopted: set<Id>)
    ensures Sweep(s, c, others, clock, faults, rounds, rounds, cursor, adopted) == (s, adopted, OutOfRounds)
  {
  }

  /** Own steps of a sweep. */
  ghost predicate OnlySweeps(labels: seq<Label>) {
    forall i :: 0 <= i < |labels| ==> labels[i].Claim? || labels[i].CommitPage? || labels[i].Ack? || labels[i].Crash?
  }

  /**
    Redis's clock does not run backwards behind the first claim of the sweep, and from that
    claim on nothing is delivered with a time 30 s before it.
   */
  ghost predicate SweepTimed(others: nat -> seq<Label>, clock: nat -> int) {
    && (forall k: nat :: clock(0) <= clock(k))
    && (forall k: nat :: k > 0 ==> AllStamped(others(k), clock(0) - XAUTOCLAIM_IDLE_MS))
  }

  lemma {:induction false} AllSwept(s: State, horizon: int)
    requires Swept(s, 0, horizon)
    ensures forall id: Id :: id in s.pending ==> s.pending[id].at > horizon
  {
  }

  lemma {:induction false} NothingSwept(c: Name)
    ensures OnlySweeps(Mine([], c))
  {
  }

  lemma {:induction false} StampedPage(others: nat -> seq<Label>, clock: nat -> int, i: nat)
    requires SweepTimed(others, clock)
    ensures
      var horizon := clock(0) - XAUTOCLAIM_IDLE_MS;
      && (i > 0 ==> AllStamped(others(3 * i), horizon)) && horizon <= clock(i) - XAUTOCLAIM_IDLE_MS
      && AllStamped(others(3 * i + 1), horizon) && AllStamped(others(3 * i + 2), horizon)
  {
    hide AllStamped;
  }

  lemma {:induction false} OthersOfPage(others: nat -> seq<Label>, c: Name, i: nat)
    requires Elsewhere(others, c)
    ensures AllForeign(others(3 * i), c) && AllForeign(others(3 * i + 1), c) && AllForeign(others(3 * i + 2), c)
  {
    hide AllForeign;
  }

  lemma {:induction false} MoreSettled(s: State, ids: set<Id>, page: seq<Id>)
    requires (forall id: Id :: id in ids ==> Settled(s, id)) && forall id: Id :: id in page ==> Settled(s, id)
    ensures forall id: Id :: id in ids + IdSet(page) ==> Settled(s, id)
  {
    hide Settled;
  }

  /** A page of the sweep moves the swept part on to the next cursor, and nothing on the way undoes that. */
  lemma {:induction false} SweepRound(s: State, c: Name, e0: seq<Label>, e1: seq<Label>, e2: seq<Label>,
                                      now: int, cursor: nat, horizon: int)
    requires Inv(s) && AllForeign(e0, c)
    requires var p := ProcOf(s, c); p.Up? && !p.recovering && p.page.NoPage?
    requires cursor > 0 ==> AllStamped(e0, horizon) && Swept(s, cursor, horizon)
    requires AllStamped(e1, horizon) && AllStamped(e2, horizon) && horizon <= now - XAUTOCLAIM_IDLE_MS
    ensures
      var (ids, next) := Scan(Run(s, e0), now, cursor, XAUTOCLAIM_COUNT, CLAIM_ATTEMPTS);
      var s1 := Apply(Run(s, e0), Claim(c, ids, now));
      var s3 := Flushed(s1, CommitPage(c), e1, e2, c);
      Swept(s1, next, horizon) && Swept(s3, next, horizon)
  {
    hide Inv, Apply, Run, Swept, AllStamped, OwnPending, Onward, Scan, AllForeign;
    ForeignRun(s, e0, c);
    InvParts(Run(s, e0));
    if cursor > 0 { RunKeepsSwept(s, e0, cursor, horizon); }
    ClaimSweeps(Run(s, e0), c, now, cursor, horizon);
    var (ids, next) := Scan(Run(s, e0), now, cursor, XAUTOCLAIM_COUNT, CLAIM_ATTEMPTS);
    var s1 := Apply(Run(s, e0), Claim(c, ids, now));
    RunKeepsSwept(s1, e1, next, horizon);
    StepKeepsSwept(Run(s1, e1), CommitPage(c), next, horizon);
    var s2 := Apply(Run(s1, e1), CommitPage(c));
    RunKeepsSwept(s2, e2, next, horizon);
    StepKeepsSwept(Run(s2, e2), Ack(c), next, horizon);
  }
}
