/**
  The alert consumer's loops, each a run of its delivery protocol in which the gateway appends
  and the stream is trimmed freely before every step.
 */
module AlertWorker {
  import opened AlertDelivery

  // ----- what happens in between

  /** Steps of the gateway and of trimming; there is only one alert consumer. */
  predicate Foreign(l: Label) {
    l.Append? || l.Trim?
  }

  ghost predicate AllForeign(labels: seq<Label>) {
    forall i :: 0 <= i < |labels| ==> Foreign(labels[i])
  }

  ghost predicate Elsewhere(others: nat -> seq<Label>) {
    forall k: nat :: AllForeign(others(k))
  }

  /** The consumer's own steps of a run. */
  function Mine(labels: seq<Label>): seq<Label> {
    if labels == [] then []
    else
      var l := labels[|labels| - 1];
      Mine(labels[..|labels| - 1]) + if Foreign(l) then [] else [l]
  }

  lemma {:induction false} MineSnoc(labels: seq<Label>, l: Label)
    ensures Mine(labels + [l]) == Mine(labels) + if Foreign(l) then [] else [l]
  {
    assert (labels + [l])[..|labels|] == labels;
  }

  /** Only the stream changed, and it only grew and was trimmed. */
  ghost predicate OnlyStream(s: State, s': State) {
    s' == s.(log := s'.log, trimmed := s'.trimmed) && s.log <= s'.log
  }

  lemma {:induction false} ForeignRun(s: State, others: seq<Label>)
    requires Inv(s) && AllForeign(others)
    ensures Inv(Run(s, others)) && OnlyStream(s, Run(s, others))
  {
    if others != [] {
      hide Inv;
      var init, l := others[..|others| - 1], others[|others| - 1];
      ForeignRun(s, init);
      assert Foreign(l);
      StepKeeps(Run(s, init), l);
    }
  }

  lemma {:induction false} RunConcat(s: State, a: seq<Label>, b: seq<Label>)
    ensures Run(s, a + b) == Run(Run(s, a), b)
  {
    if b == [] {
      assert a + b == a;
    } else {
      hide Apply;
      assert (a + b)[..|a + b| - 1] == a + b[..|b| - 1];
      RunConcat(s, a, b[..|b| - 1]);
    }
  }

  lemma {:induction false} MineConcat(labels: seq<Label>, others: seq<Label>)
    requires AllForeign(others)
    ensures Mine(labels + others) == Mine(labels)
  {
    if others == [] {
      assert labels + others == labels;
    } else {
      var init, l := others[..|others| - 1], others[|others| - 1];
      assert labels + others == (labels + init) + [l];
      MineSnoc(labels + init, l);
      MineConcat(labels, init);
    }
  }

  /** One own step after whatever others did. */
  lemma {:induction false} TraceStep(s0: State, trace: seq<Label>, others: seq<Label>, l: Label)
    requires AllForeign(others) && !Foreign(l)
    ensures Run(s0, trace + others + [l]) == Apply(Run(Run(s0, trace), others), l)
    ensures Mine(trace + others + [l]) == Mine(trace) + [l]
  {
    hide Apply, Foreign;
    RunConcat(s0, trace, others);
    assert (trace + others + [l])[..|trace + others|] == trace + others;
    MineSnoc(trace + others, l);
    MineConcat(trace, others);
  }

  lemma {:induction false} RunNothing(s: State)
    ensures Run(s, []) == s && Mine([]) == []
  {
  }

  // ----- scanning and dropping

  /** The ids of `page[..n]` that parse, in order: what a scan of them adds. */
  function ScansOf(log: seq<bool>, page: seq<Id>, n: nat): seq<Id>
    requires n <= |page|
  {
    if n == 0 then []
    else ScansOf(log, page, n - 1) + if page[n - 1] < |log| && log[page[n - 1]] then [page[n - 1]] else []
  }

  /** What parses does not depend on what comes later. */
  lemma {:induction false} ScansGrown(log: seq<bool>, log': seq<bool>, page: seq<Id>, n: nat)
    requires n <= |page| && log <= log' && forall i :: 0 <= i < |page| ==> page[i] < |log|
    ensures ScansOf(log', page, n) == ScansOf(log, page, n)
  {
    if n > 0 { ScansGrown(log, log', page, n - 1); }
  }

  /** XREADGROUP "0": some of the pending entries, at most READ_COUNT. */
  method TakePage(pending: set<Id>) returns (page: set<Id>)
    requires pending != {}
    ensures page != {} && page <= pending && |page| <= READ_COUNT
  {
    var first: Id :| first in pending;
    page := {first};
    var rest := pending - page;
    while rest != {} && |page| < READ_COUNT
      invariant page + rest == pending && page !! rest && first in page && |page| <= READ_COUNT
      decreases rest
    {
      var id: Id :| id in rest;
      page, rest := page + {id}, rest - {id};
    }
  }

  lemma {:induction false} DropPage(s: State, page: set<Id>)
    requires s.proc.Dropping? && page <= s.pending && page != {} && |page| <= READ_COUNT
    ensures Apply(s, Drop(page))
         == s.(pending := s.pending - page, acked := s.acked + page, dropped := s.dropped + page)
    ensures s.pending - page < s.pending
  {
  }

  lemma {:induction false} DropEnds(s: State)
    requires s.proc.Dropping? && s.pending == {}
    ensures Apply(s, DropDone) == s.(proc := Running([], 0))
  {
  }

  /** The own steps of dropping: pages, and the end. */
  ghost predicate OnlyDrops(labels: seq<Label>) {
    forall i :: 0 <= i < |labels| ==> labels[i].Drop? && |labels[i].ids| <= 200
  }

  class AlertConsumer {
    var world: State

    constructor ()
      ensures world == Init()
    {
      world := Init();
    }

    /** Whatever others do, then one own step. */
    method Take(others: seq<Label>, l: Label, ghost s0: State, ghost trace: seq<Label>)
      returns (ghost trace': seq<Label>)
      requires Inv(world) && AllForeign(others) && !Foreign(l) && world == Run(s0, trace)
      modifies this
      ensures Inv(world) && world == Apply(Run(old(world), others), l) && world == Run(s0, trace')
      ensures Mine(trace') == Mine(trace) + [l]
    {
      hide Inv, Apply, Run, Foreign;
      ForeignRun(world, others);
      TraceStep(s0, trace, others, l);
      trace' := trace + others + [l];
      world := Run(world, others);
      StepKeeps(world, l);
      world := Apply(world, l);
    }

    /** drop_own_pending: the backlog of a dead run is acknowledged page by page and never scanned. */
    method DropOwnPending(others: nat -> seq<Label>) returns (pages: nat, ghost trace: seq<Label>)
      requires Inv(world) && world.proc.Dropping? && Elsewhere(others)
      modifies this
      ensures Inv(world) && world == Run(old(world), trace)
      ensures |Mine(trace)| == pages + 1 && Mine(trace)[pages] == DropDone && OnlyDrops(Mine(trace)[..pages])
      ensures world.pending == {} && world.proc == Running([], 0)
      ensures world.acked == old(world).acked + old(world).pending
      ensures world.dropped == old(world).dropped + old(world).pending
      ensures world.scanned == old(world).scanned && world.lastDelivered == old(world).lastDelivered
    {
      hide Inv, Run, Apply, AllForeign;
      ghost var s0 := world;
      RunNothing(s0);
      trace, pages := [], 0;
      while world.pending != {}
        invariant Inv(world) && world == Run(s0, trace) && world.proc.Dropping?
        invariant |Mine(trace)| == pages && OnlyDrops(Mine(trace))
        invariant world.pending <= s0.pending
        invariant world.acked == s0.acked + (s0.pending - world.pending)
        invariant world.dropped == s0.dropped + (s0.pending - world.pending)
        invariant world.scanned == s0.scanned && world.lastDelivered == s0.lastDelivered
        decreases world.pending
      {
        assert AllForeign(others(pages));
        var page := TakePage(world.pending);
        ForeignRun(world, others(pages));
        DropPage(Run(world, others(pages)), page);
        trace := Take(others(pages), Drop(page), s0, trace);
        pages := pages + 1;
        assert s0.pending - world.pending == (s0.pending - (world.pending + page)) + page;
      }
      assert AllForeign(others(pages));
      ForeignRun(world, others(pages));
      DropEnds(Run(world, others(pages)));
      trace := Take(others(pages), DropDone, s0, trace);
    }

    /**
      One read/process/ack round: every message of the page is processed in order, once, and
      only then is the page acknowledged.
     */
    method Poll(others: nat -> seq<Label>) returns (page: seq<Id>, ghost trace: seq<Label>)
      requires Inv(world) && world.proc == Running([], 0) && Elsewhere(others)
      modifies this
      ensures Inv(world) && world == Run(old(world), trace) && world.proc == Running([], 0)
      ensures Mine(trace) == [Read(200)] + seq(|page|, _ => Process) + if page == [] then [] else [Ack]
      ensures |page| <= 200 && forall id: Id :: id in page ==> id !in old(world).delivered
      ensures world.scanned == old(world).scanned + ScansOf(world.log, page, |page|)
      ensures world.acked == old(world).acked + (set id | id in page) && world.pending == old(world).pending
    {
      hide Inv, Run, Apply, AllForeign, Mine;
      ghost var s0 := world;
      RunNothing(s0);
      assert AllForeign(others(0));
      ForeignRun(world, others(0));
      ReadPage(Run(world, others(0)));
      trace := Take(others(0), Read(READ_COUNT), s0, []);
      page := world.proc.page;
      ghost var read := world;
      for i := 0 to |page|
        invariant Inv(world) && world == Run(s0, trace)
        invariant Mine(trace) == [Read(READ_COUNT)] + seq(i, _ => Process)
        invariant world == Processed(read, world, page, i) && read.log <= world.log
      {
        assert AllForeign(others(i + 1));
        ForeignRun(world, others(i + 1));
        ProcessOne(read, Run(world, others(i + 1)), page, i);
        trace := Take(others(i + 1), Process, s0, trace);
        assert seq(i, _ => Process) + [Process] == seq(i + 1, _ => Process);
      }
      ScansGrown(read.log, world.log, page, |page|);
      if page != [] {
        assert AllForeign(others(|page| + 1));
        ForeignRun(world, others(|page| + 1));
        ghost var done := Run(world, others(|page| + 1));
        ScansGrown(read.log, done.log, page, |page|);
        AckPage(done, page);
        trace := Take(others(|page| + 1), Ack, s0, trace);
      }
    }
  }

  /** The read state with `n` messages of the page processed, on the stream of `now`. */
  function Processed(read: State, now: State, page: seq<Id>, n: nat): State
    requires n <= |page|
  {
    read.(log := now.log, trimmed := now.trimmed, proc := Running(page, n),
          scanned := read.scanned + ScansOf(read.log, page, n))
  }

  lemma {:induction false} ProcessOne(read: State, s: State, page: seq<Id>, n: nat)
    requires n < |page| && s == Processed(read, s, page, n) && read.log <= s.log
    requires forall i :: 0 <= i < |page| ==> page[i] < |read.log|
    ensures Apply(s, Process) == Processed(read, s, page, n + 1)
  {
  }

  lemma {:induction false} AckPage(s: State, page: seq<Id>)
    requires page != [] && s.proc == Running(page, |page|)
    ensures
      var ids := set id | id in page;
      Apply(s, Ack) == s.(pending := s.pending - ids, acked := s.acked + ids, proc := Running([], 0))
  {
  }

  lemma {:induction false} ReadPage(s: State)
    requires Inv(s) && s.proc == Running([], 0)
    ensures
      var s' := Apply(s, Read(READ_COUNT));
      && s'.proc.Running? && s'.proc.next == 0 && |s'.proc.page| <= READ_COUNT
      && s' == s.(lastDelivered := s'.lastDelivered, proc := s'.proc,
                  pending := s.pending + (set id | id in s'.proc.page),
                  delivered := s.delivered + (set id | id in s'.proc.page))
      && (forall id: Id :: id in s'.proc.page ==> id !in s.delivered && id !in s.pending)
      && (forall i :: 0 <= i < |s'.proc.page| ==> s'.proc.page[i] < |s.log|)
  {
  }
}
