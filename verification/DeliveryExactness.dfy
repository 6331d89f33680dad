/**
  When the table counts an entry exactly once. An entry is clean as long as no process
  stopped between its commit and its XACK and nobody claimed it from a live process.
 */
module DeliveryExactness {
  import opened Prelude
  import opened Aggregate
  import opened MetricsTable
  import opened Delivery
  import opened DeliverySafety

  /** The entry's fields parse and were never read back empty. */
  predicate Valued(s: State, id: Id) {
    Parses(s, id) && id !in s.emptied
  }

  /** Committed by its owner and waiting for the XACK. */
  predicate AwaitsAck(s: State, id: Id) {
    && id in s.pending
    && var p := ProcOf(s, s.pending[id].owner);
       p.Up? && p.page.Written? && id in p.page.ids
  }

  /** The process that holds the entry will write it exactly if it has a value, and only once. */
  predicate MemoryExact(s: State, p: Proc, id: Id) {
    p.Up? ==>
      && (id in p.batchIds ==> (id in p.batch <==> Valued(s, id)))
      && (!p.page.NoPage? && id in p.page.ids ==> (id in p.page.valid <==> Valued(s, id)))
      && (!p.page.NoPage? && id in p.page.ids && id in p.batchIds ==> p.page.Written? && p.page.main)
  }

  ghost predicate SoleHolder(s: State, id: Id) {
    forall c :: c in s.procs && Holds(s.procs[c], id) ==>
      id in s.pending && s.pending[id].owner == c && MemoryExact(s, s.procs[c], id)
  }

  predicate CountedRight(s: State, id: Id) {
    Commits(s.batches, id) == if (id in s.acked || AwaitsAck(s, id)) && Valued(s, id) then 1 else 0
  }

  ghost predicate Clean(s: State, id: Id) {
    SoleHolder(s, id) && CountedRight(s, id)
  }

  predicate Disturbed(s: State, id: Id) {
    id in s.stopped || id in s.raced
  }

  // ----- steps that do not touch the books

  lemma {:induction false} AppendClean(s: State, entry: Option<Event>, id: Id)
    requires Inv(s) && Clean(s, id)
    ensures Clean(Apply(s, Append(entry)), id)
  {
  }

  lemma {:induction false} HeldIsDelivered(s: State, c: Name, id: Id)
    requires Inv(s) && c in s.procs && Holds(s.procs[c], id)
    ensures id in s.delivered && id < s.lastDelivered
  {
  }

  /** What a read does to one id in the reader's memory. */
  lemma {:induction false} ReadNewMemory(s: State, c: Name, count: nat, now: int, id: Id) returns (isNew: bool)
    requires Inv(s) && DoReadNew(s, c, count, now) != s
    ensures
      var s' := DoReadNew(s, c, count, now);
      && c in s.procs && s.procs[c].Up? && s'.procs == s.procs[c := s'.procs[c]]
      && s'.procs[c] == s.procs[c].(batchIds := s'.procs[c].batchIds, batch := s'.procs[c].batch)
      && (id in s'.procs[c].batchIds <==> id in s.procs[c].batchIds || isNew)
      && (id in s'.procs[c].batch <==> id in s.procs[c].batch || (isNew && Parses(s, id)))
      && (isNew ==> id !in s.delivered && s.trimmed <= id < |s.log| && id in s'.pending && s'.pending[id].owner == c)
      && (!isNew ==> (id in s'.pending <==> id in s.pending) && (id in s.pending ==> s'.pending[id] == s.pending[id]))
  {
    hide Select, NoDup, Books, ProcsOk;
    var s' := DoReadNew(s, c, count, now);
    var ids := Range(Max(s.lastDelivered, s.trimmed), s'.lastDelivered);
    isNew := id in ids;
    SelectMember<Id>(ids, Readable(s.log, s.trimmed), id);
  }

  lemma {:induction false} ReadNewClean(s: State, c: Name, count: nat, now: int, id: Id)
    requires Inv(s) && Clean(s, id)
    ensures Clean(DoReadNew(s, c, count, now), id)
  {
    hide Commits, ProcsOk, Books, DoReadNew;
    var s' := DoReadNew(s, c, count, now);
    if s' != s {
      var isNew := ReadNewMemory(s, c, count, now, id);
      FrameOfRead(s, c, count, now);
      if isNew {
        forall d | d in s.procs ensures !Holds(s.procs[d], id) {
          if Holds(s.procs[d], id) { HeldIsDelivered(s, d, id); }
        }
        BatchWithin(s, c);
      }
      assert SoleHolder(s', id);
    }
  }

  lemma {:induction false} FrameOfRead(s: State, c: Name, count: nat, now: int)
    ensures
      var s' := DoReadNew(s, c, count, now);
      s'.log == s.log && s'.batches == s.batches && s'.acked == s.acked && s'.emptied == s.emptied
  {
    hide Select;
  }

  lemma {:induction false} BatchWithin(s: State, c: Name)
    requires Inv(s) && c in s.procs && s.procs[c].Up?
    ensures forall id: Id :: id in s.procs[c].batch ==> id in s.procs[c].batchIds
  {
  }

  /** What reading back does to one id of the reader's memory and of the pending list. */
  lemma {:induction false} ReadOwnMemory(s: State, c: Name, count: nat, now: int, id: Id) returns (again: bool)
    requires Inv(s) && DoReadOwn(s, c, count, now) != s
    ensures
      var s' := DoReadOwn(s, c, count, now);
      && c in s.procs && s.procs[c].Up? && s.procs[c].page.NoPage? && s.procs[c].batchIds == []
      && s'.procs == s.procs[c := s'.procs[c]] && s'.procs[c].Up? && s'.procs[c].batchIds == []
      && !s'.procs[c].page.Written?
      && (again <==> s'.procs[c].page.Held? && id in s'.procs[c].page.ids)
      && (again ==> id in s.pending && s.pending[id].owner == c && (id in s'.procs[c].page.valid <==> Valued(s', id)))
      && (!again ==> (id in s'.emptied <==> id in s.emptied))
      && s'.log == s.log && s'.batches == s.batches && s'.acked == s.acked
      && (id in s'.pending <==> id in s.pending) && (id in s.pending ==> s'.pending[id].owner == s.pending[id].owner)
  {
    hide NoDup, Select, Books, Owned, HeldOk, PageOk;
    OwnPage(s, c, count);
    var own := Owned(s.pending, c, |s.log|);
    var ids: seq<Id> := own[..Min(count, |own|)];
    SelectMember<Id>(ids, Retained(s.trimmed), id);
    SelectMember<Id>(ids, Readable(s.log, s.trimmed), id);
    assert ProcOk(s, s.procs[c]);
    again := id in ids;
  }

  lemma {:induction false} ReadOwnClean(s: State, c: Name, count: nat, now: int, id: Id)
    requires Inv(s) && Clean(s, id)
    ensures Clean(DoReadOwn(s, c, count, now), id)
  {
    hide Commits, ProcsOk, Books, DoReadOwn;
    var s' := DoReadOwn(s, c, count, now);
    if s' != s {
      var again := ReadOwnMemory(s, c, count, now, id);
      if !again { assert Valued(s, id) == Valued(s', id); }
      assert SoleHolder(s', id);
    }
  }

  lemma {:induction false} ClaimClean(s: State, c: Name, ids: seq<Id>, now: int, id: Id)
    requires Inv(s) && Clean(s, id) && !Disturbed(DoClaim(s, c, ids, now), id)
    ensures Clean(DoClaim(s, c, ids, now), id)
  {
    hide Inv, Clean, Claimable;
    var s' := DoClaim(s, c, ids, now);
    if s' != s {
      if id in ids { ClaimedClean(s, c, ids, now, id); } else { UnclaimedClean(s, c, ids, now, id); }
    }
  }

  /** A claimed clean entry was in nobody's memory. */
  lemma {:induction false} ClaimedClean(s: State, c: Name, ids: seq<Id>, now: int, id: Id)
    requires Inv(s) && Clean(s, id) && id in ids
    requires !Disturbed(DoClaim(s, c, ids, now), id) && DoClaim(s, c, ids, now) != s
    ensures Clean(DoClaim(s, c, ids, now), id)
  {
    hide Commits, HeldOk, WrittenOk, Accounted, NoDup, Select, PageOk, Books, ProcsOk;
    var s' := DoClaim(s, c, ids, now);
    KeptPage(s, ids, now);
    var kept := Select<Id>(ids, Retained(s.trimmed));
    SelectMember<Id>(kept, Readable(s.log, s.trimmed), id);
    assert Valued(s, id) == Valued(s', id);
    assert forall d :: d in s.procs ==> !Holds(s.procs[d], id);
    assert SoleHolder(s', id);
  }

  lemma {:induction false} UnclaimedClean(s: State, c: Name, ids: seq<Id>, now: int, id: Id)
    requires Inv(s) && Clean(s, id) && id !in ids && DoClaim(s, c, ids, now) != s
    ensures Clean(DoClaim(s, c, ids, now), id)
  {
    hide Commits, HeldOk, WrittenOk, Accounted, NoDup, Select, PageOk, Books, ProcsOk, HeldAmong;
    var s' := DoClaim(s, c, ids, now);
    KeptPage(s, ids, now);
    assert Valued(s, id) == Valued(s', id);
    assert id in s.pending ==> id in s'.pending && s'.pending[id] == s.pending[id];
    assert forall d :: d in s.procs ==> (Holds(s'.procs[d], id) <==> Holds(s.procs[d], id));
    assert SoleHolder(s', id);
  }

  /** A flush about to commit: the main batch, or the held page. */
  ghost predicate Flushes(s: State, c: Name, ids: seq<Id>, valid: seq<Id>, main: bool) {
    && c in s.procs && s.procs[c].Up? && !s.procs[c].page.Written?
    && (if main then s.procs[c].page.NoPage? && ids == s.procs[c].batchIds && valid == s.procs[c].batch
        else s.procs[c].page == Held(ids, valid))
  }

  lemma {:induction false} WriteKeepsHolder(s: State, c: Name, ids: seq<Id>, valid: seq<Id>, main: bool, id: Id)
    requires SoleHolder(s, id) && Flushes(s, c, ids, valid, main)
    ensures SoleHolder(Write(s, c, s.procs[c], ids, valid, main), id)
  {
    hide EventsOf, MetricsTable.Commit;
    var s' := Write(s, c, s.procs[c], ids, valid, main);
    assert Valued(s, id) == Valued(s', id);
    forall d | d in s'.procs && Holds(s'.procs[d], id)
      ensures id in s'.pending && s'.pending[id].owner == d && MemoryExact(s', s'.procs[d], id)
    {
      assert Holds(s.procs[d], id);
    }
  }

  lemma {:induction false} WrittenOnce(batches: seq<seq<Id>>, valid: seq<Id>, id: Id)
    requires NoDup(valid)
    ensures Commits(batches + [valid], id) == Commits(batches, id) + if id in valid then 1 else 0
  {
    hide Commits, NoDup, Flat;
    CommitsSnoc(batches, valid, id);
    NoDupCount<Id>(valid, id);
  }

  lemma {:induction false} WriteCounts(s: State, c: Name, ids: seq<Id>, valid: seq<Id>, main: bool, id: Id)
    requires Clean(s, id) && Flushes(s, c, ids, valid, main) && Ledger(s)
    requires NoDup(valid) && (id in valid ==> id in ids)
    ensures CountedRight(Write(s, c, s.procs[c], ids, valid, main), id)
  {
    hide Commits, NoDup, EventsOf, MetricsTable.Commit, Flat;
    var s' := Write(s, c, s.procs[c], ids, valid, main);
    WrittenOnce(s.batches, valid, id);
    assert Valued(s, id) == Valued(s', id);
    if id in ids { assert Holds(s.procs[c], id); }
  }

  lemma {:induction false} WriteClean(s: State, c: Name, ids: seq<Id>, valid: seq<Id>, main: bool, id: Id)
    requires Inv(s) && Clean(s, id) && HeldOk(s, ids, valid) && Flushes(s, c, ids, valid, main)
    ensures Clean(Write(s, c, s.procs[c], ids, valid, main), id)
  {
    hide Commits, NoDup, SoleHolder, CountedRight, Books, Ledger, ProcsOk, Flushes, Write;
    WriteKeepsHolder(s, c, ids, valid, main, id);
    WriteCounts(s, c, ids, valid, main, id);
  }

  lemma {:induction false} CommitClean(s: State, c: Name, id: Id)
    requires Inv(s) && Clean(s, id)
    ensures Clean(DoCommitPage(s, c), id) && Clean(DoCommitBatch(s, c), id)
  {
    hide Write, Clean, Books, Ledger, Bounds, HeldOk, WrittenOk;
    var p := ProcOf(s, c);
    if p.Up? {
      assert ProcOk(s, p);
      if p.page.Held? { WriteClean(s, c, p.page.ids, p.page.valid, false, id); }
      if p.page.NoPage? { WriteClean(s, c, p.batchIds, p.batch, true, id); }
    }
  }

  lemma {:induction false} AckClean(s: State, c: Name, id: Id)
    requires Inv(s) && Clean(s, id)
    ensures Clean(DoAck(s, c), id)
  {
    hide Commits, HeldOk, WrittenOk, Accounted, NoDup, PageOk, Books;
    var s' := DoAck(s, c);
    if s' != s {
      assert ProcOk(s, s.procs[c]);
      assert Valued(s, id) == Valued(s', id);
      if id in s.procs[c].page.ids { assert Holds(s.procs[c], id); }
      assert SoleHolder(s', id);
    }
  }

  lemma {:induction false} CrashClean(s: State, c: Name, id: Id)
    requires Inv(s) && Clean(s, id)
    ensures !Disturbed(DoCrash(s, c), id) ==> Clean(DoCrash(s, c), id)
  {
    hide Commits, ProcsOk, Books;
    var s' := DoCrash(s, c);
    assert Valued(s, id) == Valued(s', id);
    assert SoleHolder(s', id);
  }

  lemma {:induction false} RestartClean(s: State, c: Name, id: Id)
    requires Clean(s, id)
    ensures Clean(DoRestart(s, c), id)
  {
    hide Commits;
    var s' := DoRestart(s, c);
    assert Valued(s, id) == Valued(s', id);
    assert SoleHolder(s', id);
  }

  lemma {:induction false} StepClean(s: State, l: Label, id: Id)
    requires Inv(s) && Clean(s, id) && !Disturbed(Apply(s, l), id)
    ensures Clean(Apply(s, l), id)
  {
    hide Inv;
    match l {
      case Append(entry) => AppendClean(s, entry, id);
      case Trim(upTo) => assert SoleHolder(Apply(s, l), id);
      case ReadNew(c, count, now) => ReadNewClean(s, c, count, now, id);
      case ReadOwn(c, count, now) => ReadOwnClean(s, c, count, now, id);
      case Claim(c, ids, now) => ClaimClean(s, c, ids, now, id);
      case CommitPage(c) => CommitClean(s, c, id);
      case CommitBatch(c) => CommitClean(s, c, id);
      case Ack(c) => AckClean(s, c, id);
      case Crash(c) => CrashClean(s, c, id);
      case Restart(c) => RestartClean(s, c, id);
    }
  }

  lemma {:induction false} DisturbedStays(s: State, l: Label, id: Id)
    ensures Disturbed(s, id) ==> Disturbed(Apply(s, l), id)
  {
  }

  lemma {:induction false} RunClean(labels: seq<Label>, id: Id)
    requires !Disturbed(Run(Init(), labels), id)
    ensures Clean(Run(Init(), labels), id)
  {
    if labels != [] {
      var before := Run(Init(), labels[..|labels| - 1]);
      DisturbedStays(before, labels[|labels| - 1], id);
      RunClean(labels[..|labels| - 1], id);
      RunKeeps(labels[..|labels| - 1]);
      StepClean(before, labels[|labels| - 1], id);
    }
  }

  // ----- main results

  function IdIndicator(log: seq<Option<Event>>, k: Key, col: Column): Id -> real {
    (id: Id) =>
      if id < |log| && log[id].Some? && KeyOf(log[id].value) == k && Hits(col, log[id].value) then 1.0 else 0.0
  }

  lemma {:induction false} CountByIds(log: seq<Option<Event>>, ids: seq<Id>, k: Key, col: Column)
    ensures Count(EventsOf(log, ids), k, col) as real == Sum<Id>(ids, IdIndicator(log, k, col))
  {
    if ids != [] {
      var init: seq<Id>, last := ids[..|ids| - 1], ids[|ids| - 1];
      CountByIds(log, init, k, col);
      if last < |log| && log[last].Some? {
        CountSnoc(EventsOf(log, init), log[last].value, k, col);
      } else {
        assert EventsOf(log, ids) == EventsOf(log, init);
      }
    }
  }

  lemma {:induction false} EventsOfConcat(log: seq<Option<Event>>, a: seq<Id>, b: seq<Id>)
    ensures EventsOf(log, a + b) == EventsOf(log, a) + EventsOf(log, b)
  {
    if b == [] {
      assert a + b == a;
    } else {
      assert (a + b)[..|a + b| - 1] == a + b[..|b| - 1];
      EventsOfConcat(log, a, b[..|b| - 1]);
    }
  }

  lemma {:induction false} FlatEvents(log: seq<Option<Event>>, batches: seq<seq<Id>>)
    ensures Flat(EventBatches(log, batches)) == EventsOf(log, Flat<Id>(batches))
  {
    if batches != [] {
      var init, last := batches[..|batches| - 1], batches[|batches| - 1];
      FlatEvents(log, init);
      EventsOfConcat(log, Flat<Id>(init), last);
      FlatSnoc(EventBatches(log, init), EventsOf(log, last));
    }
  }

  /**
    In every reachable state the counters are the group-by of all committed events, for
    any enumeration `ids` of the committed multiset.
   */
  lemma {:induction false} TableCountsCommitted(labels: seq<Label>, ids: seq<Id>, k: Key)
    requires multiset(ids) == multiset(Flat<Id>(Run(Init(), labels).batches))
    ensures
      var s := Run(Init(), labels);
      && (k in s.table <==> Count(EventsOf(s.log, ids), k, Total) > 0)
      && (k in s.table ==> forall col :: s.table[k].Column(col) == Count(EventsOf(s.log, ids), k, col))
  {
    hide Run;
    var s := Run(Init(), labels);
    RunKeeps(labels);
    TableIsGroupBy(EventBatches(s.log, s.batches), k);
    FlatEvents(s.log, s.batches);
    forall col ensures Count(EventsOf(s.log, ids), k, col) == Count(EventsOf(s.log, Flat<Id>(s.batches)), k, col) {
      CountByIds(s.log, ids, k, col);
      CountByIds(s.log, Flat<Id>(s.batches), k, col);
      SumPermutation<Id>(ids, Flat<Id>(s.batches), IdIndicator(s.log, k, col));
    }
  }

  /** No flush is between its commit and its XACK. */
  ghost predicate Quiet(s: State) {
    forall c :: c in s.procs && s.procs[c].Up? ==> !s.procs[c].page.Written?
  }

  /** The acknowledged entries that had something to count. */
  function Accepted(s: State): set<Id> {
    set id | id in s.acked && Valued(s, id)
  }

  /** Without stops and live claims, the committed multiset is exactly the accepted set. */
  lemma {:induction false} UndisturbedCommits(labels: seq<Label>)
    requires var s := Run(Init(), labels); s.stopped == multiset{} && s.raced == multiset{} && Quiet(s)
    ensures multiset(Flat<Id>(Run(Init(), labels).batches)) == multiset(Accepted(Run(Init(), labels)))
  {
    hide Run;
    var s := Run(Init(), labels);
    forall id: Id ensures multiset(Flat<Id>(s.batches))[id] == multiset(Accepted(s))[id] {
      RunClean(labels, id);
      assert !AwaitsAck(s, id);
    }
    MultisetExtensional<Id>(multiset(Flat<Id>(s.batches)), multiset(Accepted(s)));
  }

  /** ... so the table equals the aggregate of the acknowledged valid events, each counted once. */
  lemma {:induction false} UndisturbedIsExact(labels: seq<Label>, ids: seq<Id>, k: Key)
    requires var s := Run(Init(), labels); s.stopped == multiset{} && s.raced == multiset{} && Quiet(s)
    requires NoDup(ids) && forall id: Id :: id in ids <==> id in Accepted(Run(Init(), labels))
    ensures
      var s := Run(Init(), labels);
      && (k in s.table <==> Count(EventsOf(s.log, ids), k, Total) > 0)
      && (k in s.table ==> forall col :: s.table[k].Column(col) == Count(EventsOf(s.log, ids), k, col))
  {
    hide Run, Accepted;
    UndisturbedCommits(labels);
    var accepted := Accepted(Run(Init(), labels));
    NoDupMultiset<Id>(ids, accepted);
    TableCountsCommitted(labels, ids, k);
  }
}
