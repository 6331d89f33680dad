/** What every reachable state of the delivery protocol satisfies. */
module DeliverySafety {
  import opened Prelude
  import opened Aggregate
  import opened MetricsTable
  import opened Delivery

  // ----- the invariant

  predicate Parses(s: State, id: Id) {
    id < |s.log| && s.log[id].Some?
  }

  predicate Poison(s: State, id: Id) {
    id < |s.log| && s.log[id].None?
  }

  /** minute_bucket does not raise on the entry's timestamp. */
  predicate Dated(s: State, id: Id)
    requires Parses(s, id)
  {
    Datable(s.log[id].value.timestampMs)
  }

  /** Nothing is owed for this entry: it is in the table, unparsable, or was trimmed while pending. */
  predicate Accounted(s: State, id: Id) {
    Commits(s.batches, id) > 0 || Poison(s, id) || id in s.cut
  }

  ghost predicate Bounds(s: State) {
    && s.trimmed <= |s.log| && s.lastDelivered <= |s.log|
    && (forall id: Id :: id in s.delivered ==> id < s.lastDelivered)
    && (forall id: Id :: id < s.lastDelivered && id !in s.delivered ==> id < s.trimmed)
    && (forall id: Id :: id in s.emptied || id in s.cut ==> id < s.trimmed)
  }

  /** Delivered entries are split between pending, acknowledged and purged. */
  ghost predicate Ledger(s: State) {
    && s.delivered == s.pending.Keys + s.acked + s.purged
    && s.pending.Keys !! s.acked && s.pending.Keys !! s.purged && s.acked !! s.purged
    && (forall id: Id :: id in s.pending && id < s.trimmed ==> id in s.cut)
    && s.purged <= s.cut && s.emptied <= s.cut
  }

  /** A page not yet committed: `valid` are the ids it will write, the others need no writing. */
  ghost predicate HeldOk(s: State, ids: seq<Id>, valid: seq<Id>) {
    && NoDup(ids) && NoDup(valid)
    && (forall id: Id :: id in valid ==> id in ids && Parses(s, id))
    && (forall id: Id :: id in ids ==> id in s.delivered && (id in valid || Poison(s, id) || id in s.cut))
  }

  ghost predicate WrittenOk(s: State, ids: seq<Id>) {
    forall id: Id :: id in ids ==> id in s.delivered && Accounted(s, id)
  }

  ghost predicate PageOk(s: State, page: Page) {
    match page
    case NoPage => true
    case Held(ids, valid) => HeldOk(s, ids, valid)
    case Written(ids, valid, main) => WrittenOk(s, ids)
  }

  ghost predicate ProcOk(s: State, p: Proc) {
    p.Up? ==>
      && HeldOk(s, p.batchIds, p.batch)
      && PageOk(s, p.page)
      && (p.recovering ==> p.batchIds == [])
      && (p.page.Written? && p.page.main ==> p.page.ids == p.batchIds && p.page.valid == p.batch)
  }

  ghost predicate ProcsOk(s: State) {
    forall c :: c in s.procs ==> ProcOk(s, s.procs[c])
  }

  function EventBatches(log: seq<Option<Event>>, batches: seq<seq<Id>>): seq<seq<Event>> {
    if batches == [] then []
    else EventBatches(log, batches[..|batches| - 1]) + [EventsOf(log, batches[|batches| - 1])]
  }

  ghost predicate Books(s: State) {
    && (forall id: Id :: id in s.acked ==> Accounted(s, id))
    && (forall id: Id :: id in Flat<Id>(s.batches) ==> id in s.delivered && Parses(s, id) && Dated(s, id))
    && s.table == CommitAll(EventBatches(s.log, s.batches))
  }

  ghost predicate Inv(s: State) {
    Bounds(s) && Ledger(s) && ProcsOk(s) && Books(s)
  }

  // ----- monotone facts

  /** History only grows, so whatever was true of a page stays true. */
  ghost predicate Grows(s: State, s': State) {
    && s.log <= s'.log && s.delivered <= s'.delivered && s.cut <= s'.cut
    && (forall id: Id :: Commits(s.batches, id) <= Commits(s'.batches, id))
  }

  lemma {:induction false} ProcOkGrows(s: State, s': State, p: Proc)
    requires Grows(s, s') && ProcOk(s, p)
    ensures ProcOk(s', p)
  {
  }

  /** Only `c`'s process changed. */
  lemma {:induction false} ProcsOkFrame(s: State, s': State, c: Name)
    requires ProcsOk(s) && Grows(s, s')
    requires c in s'.procs && ProcOk(s', s'.procs[c])
    requires forall d :: d != c && d in s'.procs ==> d in s.procs && s'.procs[d] == s.procs[d]
    ensures ProcsOk(s')
  {
  }

  lemma {:induction false} OwnedIds(pending: map<Id, Delivered>, c: Name, n: nat)
    ensures NoDup(Owned(pending, c, n))
    ensures forall id: Id :: id in Owned(pending, c, n) <==> id < n && id in pending && pending[id].owner == c
  {
    if n > 0 { OwnedIds(pending, c, n - 1); }
  }

  lemma {:induction false} EventsOfPrefix(log: seq<Option<Event>>, entry: Option<Event>, ids: seq<Id>)
    requires forall i :: 0 <= i < |ids| ==> ids[i] < |log|
    ensures EventsOf(log + [entry], ids) == EventsOf(log, ids)
  {
    if ids != [] {
      EventsOfPrefix(log, entry, ids[..|ids| - 1]);
    }
  }

  lemma {:induction false} EventBatchesPrefix(log: seq<Option<Event>>, entry: Option<Event>, batches: seq<seq<Id>>)
    requires forall id: Id :: id in Flat<Id>(batches) ==> id < |log|
    ensures EventBatches(log + [entry], batches) == EventBatches(log, batches)
  {
    if batches != [] {
      var init, last := batches[..|batches| - 1], batches[|batches| - 1];
      assert forall id: Id :: id in Flat<Id>(init) || id in last ==> id in Flat<Id>(batches);
      EventBatchesPrefix(log, entry, init);
      assert forall i :: 0 <= i < |last| ==> last[i] in last;
      EventsOfPrefix(log, entry, last);
    }
  }

  // ----- each step keeps the invariant

  lemma {:induction false} AppendKeeps(s: State, entry: Option<Event>)
    requires Inv(s)
    ensures Inv(Apply(s, Append(entry)))
  {
    hide CommitAll, Commits, ProcOk;
    var s' := Apply(s, Append(entry));
    assert Grows(s, s');
    forall c | c in s'.procs ensures ProcOk(s', s'.procs[c]) { ProcOkGrows(s, s', s.procs[c]); }
    EventBatchesPrefix(s.log, entry, s.batches);
  }

  lemma {:induction false} TrimKeeps(s: State, upTo: nat)
    requires Inv(s)
    ensures Inv(DoTrim(s, upTo))
  {
    hide CommitAll, Commits, ProcOk;
    var s' := DoTrim(s, upTo);
    assert Grows(s, s');
    forall c | c in s'.procs ensures ProcOk(s', s'.procs[c]) { ProcOkGrows(s, s', s.procs[c]); }
  }

  lemma {:induction false} RangeMember(lo: nat, hi: nat, id: Id)
    requires lo <= hi
    ensures id in Range(lo, hi) <==> lo <= id < hi
  {
    if lo <= id < hi { assert Range(lo, hi)[id - lo] == id; }
  }

  /** The ids read are new, and the ids passed over are gone from the stream. */
  lemma {:induction false} ReadNewLedger(s: State, c: Name, count: nat, now: int)
    requires Bounds(s) && Ledger(s)
    ensures Bounds(DoReadNew(s, c, count, now)) && Ledger(DoReadNew(s, c, count, now))
  {
    hide Range, Select;
    var s' := DoReadNew(s, c, count, now);
    if s' != s {
      var lo := Max(s.lastDelivered, s.trimmed);
      forall id: Id ensures id in Range(lo, s'.lastDelivered) <==> lo <= id < s'.lastDelivered {
        RangeMember(lo, s'.lastDelivered, id);
      }
      assert s'.pending.Keys == s.pending.Keys + set id | id in Range(lo, s'.lastDelivered);
    }
  }

  lemma {:induction false} ReadNewKeeps(s: State, c: Name, count: nat, now: int)
    requires Inv(s)
    ensures Inv(DoReadNew(s, c, count, now))
  {
    hide CommitAll, Commits, HeldOk, PageOk, Select, Accounted, EventBatches, Bounds, Ledger;
    var s' := DoReadNew(s, c, count, now);
    ReadNewLedger(s, c, count, now);
    if s' != s {
      var p := ProcOf(s, c);
      var ids := Range(Max(s.lastDelivered, s.trimmed), s'.lastDelivered);
      assert Grows(s, s');
      FreshBatch(s, s', p, ids);
      PageOkGrows(s, s', p.page);
      ProcsOkFrame(s, s', c);
      SameBooks(s, s');
    }
  }

  lemma {:induction false} SameBooks(s: State, s': State)
    requires Books(s) && Grows(s, s')
    requires s'.log == s.log && s'.batches == s.batches && s'.table == s.table
    requires forall id: Id :: id in s'.acked && id !in s.acked ==> Accounted(s', id)
    ensures Books(s')
  {
  }

  lemma {:induction false} PageOkGrows(s: State, s': State, page: Page)
    requires Grows(s, s') && PageOk(s, page)
    ensures PageOk(s', page)
  {
  }

  lemma {:induction false} FreshBatch(s: State, s': State, p: Proc, ids: seq<Id>)
    requires Bounds(s) && p.Up? && ProcOk(s, p) && Grows(s, s')
    requires NoDup(ids)
    requires forall id: Id :: id in ids ==> s.lastDelivered <= id < |s.log| && s.trimmed <= id && id in s'.delivered
    ensures HeldOk(s', p.batchIds + ids, p.batch + Select<Id>(ids, Readable(s.log, s.trimmed)))
  {
    hide Commits, NoDup;
    var valid := Select<Id>(ids, Readable(s.log, s.trimmed));
    SelectNoDup<Id>(ids, Readable(s.log, s.trimmed));
    forall id: Id ensures id in valid <==> id in ids && Readable(s.log, s.trimmed)(id) {
      SelectMember<Id>(ids, Readable(s.log, s.trimmed), id);
    }
    NoDupConcat(p.batchIds, ids);
    NoDupConcat(p.batch, valid);
    assert forall id: Id :: id in p.batch + valid <==> id in p.batch || id in valid;
    assert forall id: Id :: id in p.batchIds + ids <==> id in p.batchIds || id in ids;
  }

  /** A page read back from the pending list: what it cannot write is poison or was cut. */
  lemma {:induction false} RereadPage(s: State, ids: seq<Id>)
    requires Bounds(s) && Ledger(s) && NoDup(ids) && forall id: Id :: id in ids ==> id in s.pending
    ensures HeldOk(s, ids, Select<Id>(ids, Readable(s.log, s.trimmed)))
  {
    hide NoDup;
    var valid := Select<Id>(ids, Readable(s.log, s.trimmed));
    SelectNoDup<Id>(ids, Readable(s.log, s.trimmed));
    forall id: Id ensures id in valid <==> id in ids && Readable(s.log, s.trimmed)(id) {
      SelectMember<Id>(ids, Readable(s.log, s.trimmed), id);
    }
  }

  /** The page taken by ReadOwn. */
  lemma {:induction false} OwnPage(s: State, c: Name, count: nat)
    ensures
      var own := Owned(s.pending, c, |s.log|);
      var ids: seq<Id> := own[..Min(count, |own|)];
      NoDup(ids) && forall id: Id :: id in ids ==> id in s.pending && s.pending[id].owner == c
  {
    OwnedIds(s.pending, c, |s.log|);
    var own := Owned(s.pending, c, |s.log|);
    var ids: seq<Id> := own[..Min(count, |own|)];
    forall id: Id | id in ids ensures id in own {
      var i :| 0 <= i < |ids| && ids[i] == id;
      assert own[i] == id;
    }
  }

  lemma {:induction false} ReadOwnKeeps(s: State, c: Name, count: nat, now: int)
    requires Inv(s)
    ensures Inv(DoReadOwn(s, c, count, now))
  {
    hide CommitAll, Commits, HeldOk, Select, Accounted, EventBatches, Owned, NoDup;
    var s' := DoReadOwn(s, c, count, now);
    if s' != s {
      OwnPage(s, c, count);
      var own := Owned(s.pending, c, |s.log|);
      var ids: seq<Id> := own[..Min(count, |own|)];
      assert s'.pending.Keys == s.pending.Keys;
      RereadPage(s, ids);
      assert Grows(s, s');
      if ids != [] { PageOkGrows(s, s', Held(ids, Select<Id>(ids, Readable(s.log, s.trimmed)))); }
      PageOkGrows(s, s', Held(s.procs[c].batchIds, s.procs[c].batch));
      ProcsOkFrame(s, s', c);
      SameBooks(s, s');
    }
  }

  /** The part of a claimed page that is still in the stream. */
  lemma {:induction false} KeptPage(s: State, ids: seq<Id>, now: int)
    requires Claimable(s, ids, now)
    ensures
      var kept := Select<Id>(ids, Retained(s.trimmed));
      && NoDup(kept)
      && (forall id: Id :: id in kept <==> id in ids && s.trimmed <= id)
      && (forall id: Id :: id in ids ==> id in s.pending)
  {
    assert NoDup(ids);
    SelectNoDup<Id>(ids, Retained(s.trimmed));
    forall id: Id ensures id in Select<Id>(ids, Retained(s.trimmed)) <==> id in ids && s.trimmed <= id {
      SelectMember<Id>(ids, Retained(s.trimmed), id);
    }
  }

  lemma {:induction false} ClaimLedger(s: State, c: Name, ids: seq<Id>, now: int)
    requires Ledger(s)
    ensures Ledger(DoClaim(s, c, ids, now))
  {
  }

  lemma {:induction false} ClaimKeeps(s: State, c: Name, ids: seq<Id>, now: int)
    requires Inv(s)
    ensures Inv(DoClaim(s, c, ids, now))
  {
    hide CommitAll, Commits, HeldOk, Select, Accounted, EventBatches, NoDup, Holds, Ledger, Redeliver;
    var s' := DoClaim(s, c, ids, now);
    ClaimLedger(s, c, ids, now);
    if s' != s {
      KeptPage(s, ids, now);
      var kept := Select<Id>(ids, Retained(s.trimmed));
      RereadPage(s, kept);
      assert Grows(s, s');
      PageOkGrows(s, s', Held(kept, Select<Id>(kept, Readable(s.log, s.trimmed))));
      PageOkGrows(s, s', Held(s.procs[c].batchIds, s.procs[c].batch));
      ProcsOkFrame(s, s', c);
      SameBooks(s, s');
    }
  }

  lemma {:induction false} CommitsSnoc(batches: seq<seq<Id>>, valid: seq<Id>, id: Id)
    ensures Commits(batches + [valid], id) == Commits(batches, id) + multiset(valid)[id]
    ensures id in Flat<Id>(batches + [valid]) <==> id in Flat<Id>(batches) || id in valid
  {
  }

  lemma {:induction false} EventBatchesSnoc(log: seq<Option<Event>>, batches: seq<seq<Id>>, valid: seq<Id>)
    ensures EventBatches(log, batches + [valid]) == EventBatches(log, batches) + [EventsOf(log, valid)]
    ensures CommitAll(EventBatches(log, batches + [valid]))
         == MetricsTable.Commit(CommitAll(EventBatches(log, batches)), EventsOf(log, valid))
  {
  }

  lemma {:induction false} WriteKeeps(s: State, c: Name, ids: seq<Id>, valid: seq<Id>, main: bool)
    requires Inv(s) && c in s.procs && s.procs[c].Up? && HeldOk(s, ids, valid) && Writable(s.log, valid)
    requires main ==> ids == s.procs[c].batchIds && valid == s.procs[c].batch
    ensures Inv(Write(s, c, s.procs[c], ids, valid, main))
  {
    hide CommitAll, Commits, EventBatches, EventsOf, NoDup, Flat, MetricsTable.Commit;
    var s' := Write(s, c, s.procs[c], ids, valid, main);
    forall id: Id ensures Commits(s'.batches, id) == Commits(s.batches, id) + multiset(valid)[id]
                       && (id in Flat<Id>(s'.batches) <==> id in Flat<Id>(s.batches) || id in valid) {
      CommitsSnoc(s.batches, valid, id);
    }
    EventBatchesSnoc(s.log, s.batches, valid);
    assert Grows(s, s');
    PageOkGrows(s, s', Held(s.procs[c].batchIds, s.procs[c].batch));
    assert WrittenOk(s', ids);
    ProcsOkFrame(s, s', c);
  }

  lemma {:induction false} AckKeeps(s: State, c: Name)
    requires Inv(s)
    ensures Inv(DoAck(s, c))
  {
    hide CommitAll, Commits, EventBatches, NoDup, Flat, Accounted;
    var s' := DoAck(s, c);
    if s' != s {
      var p := s.procs[c];
      assert WrittenOk(s, p.page.ids);
      assert s'.pending.Keys == s.pending.Keys - set id | id in p.page.ids;
      assert Grows(s, s');
      assert forall id: Id :: Accounted(s, id) <==> Accounted(s', id) by { SameAccounts(s, s'); }
      PageOkGrows(s, s', Held(p.batchIds, p.batch));
      assert NoDup<Id>([]) by { EmptyNoDup(); }
      ProcsOkFrame(s, s', c);
      SameBooks(s, s');
    }
  }

  lemma {:induction false} EmptyNoDup()
    ensures NoDup<Id>([])
  {
  }

  lemma {:induction false} SameAccounts(s: State, s': State)
    requires s.log == s'.log && s.batches == s'.batches && s.cut == s'.cut
    ensures forall id: Id :: Accounted(s, id) <==> Accounted(s', id)
  {
  }

  lemma {:induction false} CrashKeeps(s: State, c: Name)
    requires Inv(s)
    ensures Inv(DoCrash(s, c)) && Inv(DoRestart(s, c))
  {
    hide CommitAll, Commits, EventBatches, NoDup, Flat, Accounted;
    EmptyNoDup();
    assert Grows(s, DoCrash(s, c)) && Grows(s, DoRestart(s, c));
    if ProcOf(s, c).Up? { ProcsOkFrame(s, DoCrash(s, c), c); } else { ProcsOkFrame(s, DoRestart(s, c), c); }
    SameBooks(s, DoCrash(s, c));
    SameBooks(s, DoRestart(s, c));
  }

  lemma {:induction false} StepKeeps(s: State, l: Label)
    requires Inv(s)
    ensures Inv(Apply(s, l))
  {
    hide Inv;
    match l {
      case Append(entry) => AppendKeeps(s, entry);
      case Trim(upTo) => TrimKeeps(s, upTo);
      case ReadNew(c, count, now) => ReadNewKeeps(s, c, count, now);
      case ReadOwn(c, count, now) => ReadOwnKeeps(s, c, count, now);
      case Claim(c, ids, now) => ClaimKeeps(s, c, ids, now);
      case CommitPage(c) => CommitPageKeeps(s, c);
      case CommitBatch(c) => CommitPageKeeps(s, c);
      case Ack(c) => AckKeeps(s, c);
      case Crash(c) => CrashKeeps(s, c);
      case Restart(c) => CrashKeeps(s, c);
    }
  }

  lemma {:induction false} CommitPageKeeps(s: State, c: Name)
    requires Inv(s)
    ensures Inv(DoCommitPage(s, c)) && Inv(DoCommitBatch(s, c))
  {
    hide Bounds, Ledger, Books, HeldOk, WrittenOk, Write, Writable;
    var p := ProcOf(s, c);
    if p.Up? {
      if p.page.Held? && Writable(s.log, p.page.valid) { WriteKeeps(s, c, p.page.ids, p.page.valid, false); }
      if Writable(s.log, p.batch) { WriteKeeps(s, c, p.batchIds, p.batch, true); }
    }
  }

  lemma {:induction false} RunConcat(s: State, a: seq<Label>, b: seq<Label>)
    ensures Run(s, a + b) == Run(Run(s, a), b)
  {
    if b == [] {
      assert a + b == a;
    } else {
      hide Apply;
      assert (a + b)[..|a + b| - 1] == a + b[..|b| - 1];
      RunConcat(s, a, b[..|b| - 1]);
    }
  }

  lemma {:induction false} RunKeeps(labels: seq<Label>)
    ensures Inv(Run(Init(), labels))
  {
    if labels == [] {
      InitOk();
    } else {
      hide Inv;
      RunKeeps(labels[..|labels| - 1]);
      StepKeeps(Run(Init(), labels[..|labels| - 1]), labels[|labels| - 1]);
    }
  }

  lemma {:induction false} InitOk()
    ensures Inv(Init())
  {
  }

  /**
    Main result: where every appended entry is. It waits to be read, was delivered, or was
    trimmed before anybody read it; a delivered entry is pending or settled, and a settled
    one is in the table, unparsable, or was trimmed while it was pending.
   */
  lemma {:induction false} AtLeastOnce(labels: seq<Label>, id: Id)
    ensures
      var s := Run(Init(), labels);
      && (id < |s.log| ==> id >= s.lastDelivered || id in s.delivered || id < s.trimmed)
      && (id in s.delivered ==> id < s.lastDelivered <= |s.log|)
      && (id in s.delivered <==> id in s.pending || id in s.acked || id in s.purged)
      && !(id in s.pending && (id in s.acked || id in s.purged)) && !(id in s.acked && id in s.purged)
      && (id in s.acked ==> Commits(s.batches, id) > 0 || Poison(s, id) || id in s.cut)
      && (id in s.purged ==> id in s.cut)
      && (Commits(s.batches, id) > 0 ==> id in s.delivered && Parses(s, id))
  {
    hide Run;
    RunKeeps(labels);
    var s := Run(Init(), labels);
    MultisetMember<Id>(Flat<Id>(s.batches), id);
  }

  // ----- entries that cannot be written

  /**
    An entry that parses but whose timestamp has no date is never written, so once delivered it
    stays pending, holding up every page it is on, until it is trimmed.
   */
  lemma {:induction false} UndatableStaysPending(labels: seq<Label>, id: Id)
    requires var s := Run(Init(), labels); id in s.delivered && Parses(s, id) && !Dated(s, id)
    ensures
      var s := Run(Init(), labels);
      Commits(s.batches, id) == 0 && (s.trimmed <= id ==> id in s.pending)
  {
    hide Run, ProcsOk;
    RunKeeps(labels);
    var s := Run(Init(), labels);
    MultisetMember<Id>(Flat<Id>(s.batches), id);
  }

  // ----- trimming before delivery

  /** A read passes an entry by without delivering it exactly when the entry is trimmed by then. */
  lemma {:induction false} SkippedIff(s: State, c: Name, count: nat, now: int, id: Id)
    requires Bounds(s) && s.lastDelivered <= id
    ensures
      var s' := DoReadNew(s, c, count, now);
      id < s'.lastDelivered && id !in s'.delivered <==> s'.lastDelivered > s.lastDelivered && id < s.trimmed
  {
    hide Range, Select;
    var s' := DoReadNew(s, c, count, now);
    if s' != s { RangeMember(Max(s.lastDelivered, s.trimmed), s'.lastDelivered, id); }
  }

  /** That happens: an entry trimmed before the group gets to it is never delivered, counted or purged. */
  lemma {:induction false} TrimmedUnread(c: Name, e: Event, e': Event)
    ensures
      var labels := [Append(Some(e)), Append(Some(e')), Trim(1), Restart(c), ReadOwn(c, 1, 0), ReadNew(c, 1, 0)];
      var s := Run(Init(), labels);
      Parses(s, 0) && 0 < s.lastDelivered && 0 !in s.delivered
  {
    hide Apply, Run, DoReadNew;
    var start := [Append(Some(e)), Append(Some(e')), Trim(1), Restart(c)];
    var more := [ReadOwn(c, 1, 0), ReadNew(c, 1, 0)];
    assert start + more
        == [Append(Some(e)), Append(Some(e')), Trim(1), Restart(c), ReadOwn(c, 1, 0), ReadNew(c, 1, 0)];
    RunConcat(Init(), start, more);
    var early := TrimmedEarly(c, e, e');
    var s := ReadsPast(early, c);
  }

  lemma {:induction false} TrimmedEarly(c: Name, e: Event, e': Event) returns (s: State)
    ensures s == Run(Init(), [Append(Some(e)), Append(Some(e')), Trim(1), Restart(c)])
    ensures s.log == [Some(e), Some(e')] && s.trimmed == 1 && s.lastDelivered == 0
    ensures s.pending == map[] && s.delivered == {}
    ensures ProcOf(s, c) == Up(true, [], [], NoPage)
  {
    var ls := [Append(Some(e)), Append(Some(e')), Trim(1), Restart(c)];
    assert ls[..3][..2][..1][..0] == [];
    assert ls[..3][..2] == ls[..2] && ls[..2][..1] == ls[..1];
    assert Run(Init(), ls[..1]) == Apply(Init(), ls[0]);
    assert Run(Init(), ls[..2]) == Apply(Run(Init(), ls[..1]), ls[1]);
    assert Run(Init(), ls[..3]) == Apply(Run(Init(), ls[..2]), ls[2]);
    s := Run(Init(), ls);
  }

  lemma {:induction false} ReadsPast(s: State, c: Name) returns (s': State)
    requires |s.log| == 2 && s.trimmed == 1 && s.lastDelivered == 0 && s.pending == map[] && s.delivered == {}
    requires ProcOf(s, c) == Up(true, [], [], NoPage)
    ensures s' == Run(s, [ReadOwn(c, 1, 0), ReadNew(c, 1, 0)])
    ensures s'.lastDelivered == 2 && s'.delivered == {1} && s'.log == s.log
  {
    hide Select;
    var ls := [ReadOwn(c, 1, 0), ReadNew(c, 1, 0)];
    assert ls[..1][..0] == [];
    assert Owned(s.pending, c, 0) == Owned(s.pending, c, 1) == Owned(s.pending, c, 2) == [];
    assert Run(s, ls[..1]) == Apply(s, ls[0]);
    var mid := Apply(s, ls[0]);
    assert ProcOf(mid, c) == Up(false, [], [], NoPage);
    assert Range(1, 2) == [1];
    s' := Run(s, ls);
  }
}
