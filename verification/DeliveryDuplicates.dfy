/**
  The account of duplicates: every commit of an entry beyond the first is paid for by its
  own stop between commit and XACK, or its own claim from a live process.
 */
module DeliveryDuplicates {
  import opened Prelude
  import opened Aggregate
  import opened Delivery
  import opened DeliverySafety

  /** How many times this process will still commit the entry from memory. */
  function Uncommitted(p: Proc, id: Id): nat {
    if !p.Up? then 0
    else
      (if id in p.batchIds && !(p.page.Written? && p.page.main) then 1 else 0)
      + (if p.page.Held? && id in p.page.ids then 1 else 0)
  }

  /** The same over a set of processes. */
  ghost function InMemory(procs: map<Name, Proc>, names: set<Name>, id: Id): nat
    requires names <= procs.Keys
  {
    if names == {} then 0
    else
      var c :| c in names;
      InMemory(procs, names - {c}, id) + Uncommitted(procs[c], id)
  }

  /** Pending, and its owner would have to read it back: recovery or a claim will deliver it again. */
  predicate Redeliverable(s: State, id: Id) {
    id in s.pending && !Holds(ProcOf(s, s.pending[id].owner), id)
  }

  /** Commits that can still happen without any new disturbance. */
  ghost function Outstanding(s: State, id: Id): nat {
    InMemory(s.procs, s.procs.Keys, id) + if Redeliverable(s, id) then 1 else 0
  }

  ghost predicate Balanced(s: State, id: Id) {
    Commits(s.batches, id) + Outstanding(s, id)
      <= (if id in s.delivered then 1 else 0) + s.stopped[id] + s.raced[id]
  }

  // ----- sums over processes

  lemma {:induction false} InMemorySplit(procs: map<Name, Proc>, names: set<Name>, c: Name, id: Id)
    requires names <= procs.Keys && c in names
    ensures InMemory(procs, names, id) == InMemory(procs, names - {c}, id) + Uncommitted(procs[c], id)
    decreases |names|
  {
    hide Uncommitted;
    var d :| d in names && InMemory(procs, names, id) == InMemory(procs, names - {d}, id) + Uncommitted(procs[d], id);
    if d != c {
      InMemorySplit(procs, names - {d}, c, id);
      InMemorySplit(procs, names - {c}, d, id);
      assert names - {d} - {c} == names - {c} - {d};
    }
  }

  lemma {:induction false} InMemorySame(procs: map<Name, Proc>, procs': map<Name, Proc>, names: set<Name>, id: Id)
    requires names <= procs.Keys && names <= procs'.Keys
    requires forall c :: c in names ==> Uncommitted(procs[c], id) == Uncommitted(procs'[c], id)
    ensures InMemory(procs, names, id) == InMemory(procs', names, id)
    decreases |names|
  {
    hide Uncommitted;
    if names != {} {
      var c :| c in names;
      InMemorySplit(procs, names, c, id);
      InMemorySplit(procs', names, c, id);
      InMemorySame(procs, procs', names - {c}, id);
    }
  }

  /** Replacing one process changes the sum by that process alone. */
  lemma {:induction false} InMemoryUpdate(s: State, procs': map<Name, Proc>, c: Name, id: Id)
    requires c in procs' && procs' == s.procs[c := procs'[c]]
    ensures InMemory(procs', procs'.Keys, id) + Uncommitted(ProcOf(s, c), id)
         == InMemory(s.procs, s.procs.Keys, id) + Uncommitted(procs'[c], id)
  {
    hide Uncommitted;
    var others := s.procs.Keys - {c};
    assert procs'.Keys - {c} == others;
    InMemorySplit(procs', procs'.Keys, c, id);
    InMemorySame(s.procs, procs', others, id);
    if c in s.procs { InMemorySplit(s.procs, s.procs.Keys, c, id); } else {
      assert others == s.procs.Keys;
      DownHoldsNothing(id);
    }
  }

  lemma {:induction false} DownHoldsNothing(id: Id)
    ensures Uncommitted(Down, id) == 0
  {
  }

  lemma {:induction false} NobodyHolds(procs: map<Name, Proc>, names: set<Name>, id: Id)
    requires names <= procs.Keys && forall c :: c in names ==> !Holds(procs[c], id)
    ensures InMemory(procs, names, id) == 0
    decreases |names|
  {
    if names != {} {
      var c :| c in names;
      InMemorySplit(procs, names, c, id);
      NobodyHolds(procs, names - {c}, id);
    }
  }

  // ----- each step keeps the balance

  lemma {:induction false} ReadNewBalanced(s: State, c: Name, count: nat, now: int, id: Id)
    requires Inv(s) && Balanced(s, id)
    ensures Balanced(DoReadNew(s, c, count, now), id)
  {
    hide InMemory, Commits, Select, Books, NoDup, HeldOk, WrittenOk, PageOk, Accounted;
    var s' := DoReadNew(s, c, count, now);
    if s' != s {
      var ids := Range(Max(s.lastDelivered, s.trimmed), s'.lastDelivered);
      InMemoryUpdate(s, s'.procs, c, id);
      assert id in s'.procs[c].batchIds <==> id in s.procs[c].batchIds || id in ids;
      if id in ids { Undelivered(s, id); }
    }
  }

  /** An entry not yet delivered is in nobody's memory and in no batch. */
  lemma {:induction false} Undelivered(s: State, id: Id)
    requires Inv(s) && id !in s.delivered
    ensures Outstanding(s, id) == 0 && Commits(s.batches, id) == 0 && id !in s.pending
    ensures forall c :: c in s.procs ==> !Holds(s.procs[c], id)
  {
    hide InMemory, NoDup, Accounted;
    forall c | c in s.procs ensures !Holds(s.procs[c], id) { assert ProcOk(s, s.procs[c]); }
    NobodyHolds(s.procs, s.procs.Keys, id);
    MultisetMember<Id>(Flat<Id>(s.batches), id);
  }

  lemma {:induction false} ReadOwnBalanced(s: State, c: Name, count: nat, now: int, id: Id)
    requires Inv(s) && Balanced(s, id)
    ensures Balanced(DoReadOwn(s, c, count, now), id)
  {
    hide InMemory, Commits, Select, Books, NoDup, HeldOk, WrittenOk, Accounted, Owned;
    var s' := DoReadOwn(s, c, count, now);
    if s' != s {
      OwnPage(s, c, count);
      var own := Owned(s.pending, c, |s.log|);
      var ids: seq<Id> := own[..Min(count, |own|)];
      SelectMember<Id>(ids, Retained(s.trimmed), id);
      InMemoryUpdate(s, s'.procs, c, id);
      assert ProcOk(s, s.procs[c]);
      if id in s'.pending { assert s'.pending[id].owner == s.pending[id].owner; }
    }
  }

  lemma {:induction false} ClaimBalanced(s: State, c: Name, ids: seq<Id>, now: int, id: Id)
    requires Inv(s) && Balanced(s, id)
    ensures Balanced(DoClaim(s, c, ids, now), id)
  {
    hide InMemory, Commits, Select, Books, NoDup, HeldOk, WrittenOk, Accounted, PageOk, HeldAmong;
    var s' := DoClaim(s, c, ids, now);
    if s' != s {
      KeptPage(s, ids, now);
      InMemoryUpdate(s, s'.procs, c, id);
      HeldAmongCount(s, ids, id);
      var kept := Select<Id>(ids, Retained(s.trimmed));
      if id !in ids && id in s.pending { assert s'.pending[id] == s.pending[id]; }
    }
  }

  lemma {:induction false} HeldAmongCount(s: State, ids: seq<Id>, id: Id)
    ensures multiset(HeldAmong(s, ids))[id] == if id in HeldAmong(s, ids) then 1 else 0
    ensures id in HeldAmong(s, ids) <==> id in ids && exists d :: d in s.procs && Holds(s.procs[d], id)
  {
  }

  lemma {:induction false} CommitBalanced(s: State, c: Name, ids: seq<Id>, valid: seq<Id>, main: bool, id: Id)
    requires Balanced(s, id) && c in s.procs && s.procs[c].Up? && !s.procs[c].page.Written?
    requires NoDup(valid) && forall x: Id :: x in valid ==> x in ids
    requires if main then s.procs[c].page.NoPage? && ids == s.procs[c].batchIds else s.procs[c].page == Held(ids, valid)
    ensures Balanced(Write(s, c, s.procs[c], ids, valid, main), id)
  {
    hide InMemory, Commits, EventsOf, MetricsTable.Commit, NoDup;
    var s' := Write(s, c, s.procs[c], ids, valid, main);
    InMemoryUpdate(s, s'.procs, c, id);
    CommitsSnoc(s.batches, valid, id);
    NoDupCount<Id>(valid, id);
  }

  lemma {:induction false} CommitsBalanced(s: State, c: Name, id: Id)
    requires Inv(s) && Balanced(s, id)
    ensures Balanced(DoCommitPage(s, c), id) && Balanced(DoCommitBatch(s, c), id)
  {
    hide Write, Balanced, Books, Ledger, Bounds, WrittenOk, NoDup;
    var p := ProcOf(s, c);
    if p.Up? {
      assert ProcOk(s, p);
      if p.page.Held? { CommitBalanced(s, c, p.page.ids, p.page.valid, false, id); }
      if p.page.NoPage? { CommitBalanced(s, c, p.batchIds, p.batch, true, id); }
    }
  }

  lemma {:induction false} AckBalanced(s: State, c: Name, id: Id)
    requires Inv(s) && Balanced(s, id)
    ensures Balanced(DoAck(s, c), id)
  {
    hide InMemory, Commits, Books, NoDup, HeldOk, WrittenOk, Accounted;
    var s' := DoAck(s, c);
    if s' != s {
      InMemoryUpdate(s, s'.procs, c, id);
      assert ProcOk(s, s.procs[c]);
    }
  }

  lemma {:induction false} CrashBalanced(s: State, c: Name, id: Id)
    requires Inv(s) && Balanced(s, id)
    ensures Balanced(DoCrash(s, c), id) && Balanced(DoRestart(s, c), id)
  {
    hide InMemory, Commits, Books, Ledger, Bounds, NoDup, HeldOk, WrittenOk;
    if ProcOf(s, c).Up? {
      assert ProcOk(s, s.procs[c]);
      var s' := DoCrash(s, c);
      InMemoryUpdate(s, s'.procs, c, id);
      if s.procs[c].page.Written? { SetCount(s.procs[c].page.ids, id); }
    } else {
      var s' := DoRestart(s, c);
      InMemoryUpdate(s, s'.procs, c, id);
    }
  }

  lemma {:induction false} SetCount(ids: seq<Id>, id: Id)
    ensures multiset(IdSet(ids))[id] == if id in ids then 1 else 0
  {
  }

  lemma {:induction false} StreamBalanced(s: State, l: Label, id: Id)
    requires Balanced(s, id) && (l.Append? || l.Trim?)
    ensures Balanced(Apply(s, l), id)
  {
  }

  lemma {:induction false} StepBalanced(s: State, l: Label, id: Id)
    requires Inv(s) && Balanced(s, id)
    ensures Balanced(Apply(s, l), id)
  {
    hide Inv, Balanced;
    match l {
      case Append(entry) => StreamBalanced(s, l, id);
      case Trim(upTo) => StreamBalanced(s, l, id);
      case ReadNew(c, count, now) => ReadNewBalanced(s, c, count, now, id);
      case ReadOwn(c, count, now) => ReadOwnBalanced(s, c, count, now, id);
      case Claim(c, ids, now) => ClaimBalanced(s, c, ids, now, id);
      case CommitPage(c) => CommitsBalanced(s, c, id);
      case CommitBatch(c) => CommitsBalanced(s, c, id);
      case Ack(c) => AckBalanced(s, c, id);
      case Crash(c) => CrashBalanced(s, c, id);
      case Restart(c) => CrashBalanced(s, c, id);
    }
  }

  lemma {:induction false} RunBalanced(labels: seq<Label>, id: Id)
    ensures Balanced(Run(Init(), labels), id)
  {
    if labels != [] {
      hide Balanced;
      RunBalanced(labels[..|labels| - 1], id);
      RunKeeps(labels[..|labels| - 1]);
      StepBalanced(Run(Init(), labels[..|labels| - 1]), labels[|labels| - 1], id);
    }
  }

  /** Main result: over every interleaving an entry is committed at most once per cause, plus once. */
  lemma {:induction false} DuplicatesPaidFor(labels: seq<Label>, id: Id)
    ensures
      var s := Run(Init(), labels);
      Commits(s.batches, id) <= 1 + s.stopped[id] + s.raced[id]
  {
    hide Run, Commits, Outstanding;
    RunBalanced(labels, id);
  }

  // ----- both causes are real

  /** One valid entry in the stream and one consumer in the given state, nothing delivered yet. */
  function Fresh(c: Name, e: Event, p: Proc): State {
    Init().(log := [Some(e)], procs := map[c := p])
  }

  /** The entry read into the main batch of the only consumer. */
  function OneHeld(c: Name, e: Event): State {
    Fresh(c, e, Up(false, [0], [0], NoPage)).(
      lastDelivered := 1, pending := map[0 := Delivered(c, 0)], delivered := {0})
  }

  function ReadOne(c: Name, e: Event): seq<Label> {
    [Append(Some(e)), Restart(c), ReadOwn(c, 1, 0), ReadNew(c, 1, 0)]
  }

  lemma {:induction false} StartsUp(c: Name, e: Event)
    ensures Apply(Apply(Init(), Append(Some(e))), Restart(c)) == Fresh(c, e, Up(true, [], [], NoPage))
  {
  }

  lemma {:induction false} NothingToRecover(c: Name, e: Event)
    ensures Apply(Fresh(c, e, Up(true, [], [], NoPage)), ReadOwn(c, 1, 0)) == Fresh(c, e, Up(false, [], [], NoPage))
  {
    hide Select;
    var s := Fresh(c, e, Up(true, [], [], NoPage));
    assert Owned(s.pending, c, 0) == [];
    assert Owned(s.pending, c, 1) == [];
  }

  lemma {:induction false} ReadsNext(c: Name, e: Event)
    ensures Apply(Fresh(c, e, Up(false, [], [], NoPage)), ReadNew(c, 1, 0)) == OneHeld(c, e)
  {
    hide Select;
    var s := Fresh(c, e, Up(false, [], [], NoPage));
    SelectOne(s.log, 0);
    assert Range(0, 1) == [0];
    var s' := DoReadNew(s, c, 1, 0);
    assert s'.pending == map[0 := Delivered(c, 0)] && s'.delivered == {0};
    assert s'.procs[c] == Up(false, [] + [0], [] + [0], NoPage);
    assert [] + [0] == [0];
    assert s'.procs == map[c := Up(false, [0], [0], NoPage)];
  }

  lemma {:induction false} ReadsOne(c: Name, e: Event)
    ensures Run(Init(), ReadOne(c, e)) == OneHeld(c, e)
  {
    hide Apply, Run;
    StartsUp(c, e);
    NothingToRecover(c, e);
    ReadsNext(c, e);
    Unroll(Init(), ReadOne(c, e));
  }

  lemma {:induction false} SelectOne(log: seq<Option<Event>>, id: Id)
    requires id < |log| && log[id].Some?
    ensures Select<Id>([id], Readable(log, 0)) == [id] && Select<Id>([id], Retained(0)) == [id]
  {
  }

  lemma {:induction false} Unroll(s: State, ls: seq<Label>)
    requires |ls| == 4
    ensures Run(s, ls) == Apply(Apply(Apply(Apply(s, ls[0]), ls[1]), ls[2]), ls[3])
  {
    hide Apply;
    assert ls[..3][..2][..1][..0] == [];
    assert ls[..3][..2] == ls[..2] && ls[..2][..1] == ls[..1];
    assert Run(s, ls[..1]) == Apply(s, ls[0]);
    assert Run(s, ls[..2]) == Apply(Run(s, ls[..1]), ls[1]);
    assert Run(s, ls[..3]) == Apply(Run(s, ls[..2]), ls[2]);
  }

  lemma {:induction false} TwoCommits()
    ensures Commits([[0], [0]], 0) == 2
  {
    CommitsSnoc([[0]], [0], 0);
    CommitsSnoc([], [0], 0);
    assert [] + [[0]] == [[0]];
    assert [[0]] + [[0]] == [[0], [0]];
  }

  lemma {:induction false} ClaimsOwnBatch(s: State, c: Name, e: Event)
    requires s == OneHeld(c, e)
    ensures
      var s' := Apply(s, Claim(c, [0], 30_000));
      && s'.procs == map[c := Up(false, [0], [0], Held([0], [0]))] && s'.batches == []
      && s'.stopped == multiset{} && s'.log == [Some(e)]
  {
    hide Select;
    SelectOne(s.log, 0);
    assert Claimable(s, [0], 30_000);
  }

  /** From a held page and the same entry in the batch: both are committed. */
  lemma {:induction false} CommitsBoth(s: State, c: Name)
    requires s.procs == map[c := Up(false, [0], [0], Held([0], [0]))] && s.batches == [] && Writable(s.log, [0])
    ensures
      var s' := Apply(Apply(Apply(s, CommitPage(c)), Ack(c)), CommitBatch(c));
      s'.batches == [[0], [0]] && s'.stopped == s.stopped
  {
    hide Apply;
    CommitsPage(s, c);
    var s1 := Apply(s, CommitPage(c));
    AcksPage(s1, c);
    CommitsMain(Apply(s1, Ack(c)), c);
  }

  lemma {:induction false} CommitsPage(s: State, c: Name)
    requires s.procs == map[c := Up(false, [0], [0], Held([0], [0]))] && s.batches == [] && Writable(s.log, [0])
    ensures
      var s' := Apply(s, CommitPage(c));
      && s'.procs == map[c := Up(false, [0], [0], Written([0], [0], false))]
      && s'.batches == [[0]] && s'.stopped == s.stopped && s'.log == s.log
  {
    hide MetricsTable.Commit, EventsOf;
  }

  lemma {:induction false} AcksPage(s: State, c: Name)
    requires s.procs == map[c := Up(false, [0], [0], Written([0], [0], false))]
    ensures
      var s' := Apply(s, Ack(c));
      && s'.procs == map[c := Up(false, [0], [0], NoPage)] && s'.batches == s.batches
      && s'.stopped == s.stopped && s'.log == s.log
  {
  }

  lemma {:induction false} CommitsMain(s: State, c: Name)
    requires s.procs == map[c := Up(false, [0], [0], NoPage)] && Writable(s.log, [0])
    ensures var s' := Apply(s, CommitBatch(c)); s'.batches == s.batches + [[0]] && s'.stopped == s.stopped
  {
    hide MetricsTable.Commit, EventsOf;
  }

  /** A claim of its own live batch makes one consumer, which never stops, count an entry twice. */
  lemma {:induction false} OwnClaimCountsTwice(c: Name, e: Event)
    requires Datable(e.timestampMs)
    ensures
      var s := Run(Init(), ReadOne(c, e) + [Claim(c, [0], 30_000), CommitPage(c), Ack(c), CommitBatch(c)]);
      Commits(s.batches, 0) == 2 && s.stopped == multiset{}
  {
    hide Apply, Run, Commits;
    var more := [Claim(c, [0], 30_000), CommitPage(c), Ack(c), CommitBatch(c)];
    RunConcat(Init(), ReadOne(c, e), more);
    ReadsOne(c, e);
    Unroll(OneHeld(c, e), more);
    ClaimsOwnBatch(OneHeld(c, e), c, e);
    CommitsBoth(Apply(OneHeld(c, e), Claim(c, [0], 30_000)), c);
    TwoCommits();
  }

  /** The consumer commits its batch, stops before the XACK, and starts again. */
  lemma {:induction false} StopsAndRestarts(s: State, c: Name, e: Event)
    requires s == OneHeld(c, e) && Datable(e.timestampMs)
    ensures
      var s' := Apply(Apply(Apply(s, CommitBatch(c)), Crash(c)), Restart(c));
      && s'.procs == map[c := Up(true, [], [], NoPage)] && s'.batches == [[0]] && s'.raced == multiset{}
      && s'.pending == s.pending && s'.log == s.log && s'.trimmed == 0
  {
    hide MetricsTable.Commit, EventsOf;
    var s1 := Apply(s, CommitBatch(c));
    assert s1.batches == [[0]] && s1.procs == map[c := Up(false, [0], [0], Written([0], [0], true))];
    var s2 := Apply(s1, Crash(c));
    assert s2.procs == map[c := Down];
  }

  /** It finds the entry in its own pending list and commits it again. */
  lemma {:induction false} RecoversAgain(s: State, c: Name, e: Event)
    requires s.procs == map[c := Up(true, [], [], NoPage)] && s.log == [Some(e)] && s.trimmed == 0
    requires Datable(e.timestampMs)
    requires s.pending == map[0 := Delivered(c, 0)] && s.batches == [[0]]
    ensures
      var s' := Apply(Apply(s, ReadOwn(c, 1, 1)), CommitPage(c));
      s'.batches == [[0], [0]] && s'.raced == s.raced
  {
    hide MetricsTable.Commit, EventsOf, Select;
    assert Owned(s.pending, c, 0) == [];
    assert Owned(s.pending, c, 1) == [0];
    SelectOne(s.log, 0);
    assert [0][..1] == [0];
    var s1 := DoReadOwn(s, c, 1, 1);
    assert ProcOf(s1, c) == Up(true, [], [], Held([0], [0]));
  }

  /** A stop between commit and XACK makes the restarted consumer count an entry twice. */
  lemma {:induction false} StopCountsTwice(c: Name, e: Event)
    requires Datable(e.timestampMs)
    ensures
      var s := Run(Init(), ReadOne(c, e) + [CommitBatch(c), Crash(c), Restart(c), ReadOwn(c, 1, 1)] + [CommitPage(c)]);
      Commits(s.batches, 0) == 2 && s.raced == multiset{}
  {
    hide Apply, Commits;
    var more := [CommitBatch(c), Crash(c), Restart(c), ReadOwn(c, 1, 1)];
    RunConcat(Init(), ReadOne(c, e), more);
    RunConcat(Init(), ReadOne(c, e) + more, [CommitPage(c)]);
    ReadsOne(c, e);
    var s4 := OneHeld(c, e);
    Unroll(s4, more);
    assert [CommitPage(c)][..0] == [];
    assert Run(Run(s4, more), [CommitPage(c)]) == Apply(Run(s4, more), CommitPage(c));
    StopsAndRestarts(s4, c, e);
    RecoversAgain(Apply(Apply(Apply(s4, CommitBatch(c)), Crash(c)), Restart(c)), c, e);
    TwoCommits();
  }
}
