/** What all other processes together can do to one consumer between two of its own steps. */
module DeliveryInterference {
  import opened Prelude
  import opened Delivery
  import opened DeliverySafety

  /** The entries pending for a consumer. */
  function OwnPending(s: State, c: Name): set<Id> {
    set id | id in s.pending && s.pending[id].owner == c
  }

  /** A step of the gateway, of trimming, or of another process. */
  predicate Foreign(l: Label, c: Name) {
    l.Append? || l.Trim? || l.c != c
  }

  ghost predicate AllForeign(labels: seq<Label>, c: Name) {
    forall i :: 0 <= i < |labels| ==> Foreign(labels[i], c)
  }

  /** Whatever happens before each of a consumer's steps is not its own doing. */
  ghost predicate Elsewhere(others: nat -> seq<Label>, c: Name) {
    forall k: nat :: AllForeign(others(k), c)
  }

  /** The consumer's own steps of a run. */
  function Mine(labels: seq<Label>, c: Name): seq<Label> {
    if labels == [] then []
    else
      var l := labels[|labels| - 1];
      Mine(labels[..|labels| - 1], c) + if Foreign(l, c) then [] else [l]
  }

  lemma {:induction false} MineSnoc(labels: seq<Label>, l: Label, c: Name)
    ensures Mine(labels + [l], c) == Mine(labels, c) + if Foreign(l, c) then [] else [l]
  {
    assert (labels + [l])[..|labels|] == labels;
  }

  lemma {:induction false} MineConcat(labels: seq<Label>, others: seq<Label>, c: Name)
    requires AllForeign(others, c)
    ensures Mine(labels + others, c) == Mine(labels, c)
  {
    if others == [] {
      assert labels + others == labels;
    } else {
      var init, l := others[..|others| - 1], others[|others| - 1];
      assert labels + others == (labels + init) + [l];
      MineSnoc(labels + init, l, c);
      MineConcat(labels, init, c);
    }
  }

  /** History only grows. */
  ghost predicate Onward(s: State, s': State) {
    Grows(s, s') && s.acked <= s'.acked && s.purged <= s'.purged
  }

  lemma {:induction false} StepOnward(s: State, l: Label)
    ensures Onward(s, Apply(s, l))
  {
    hide Commits, Write, Select, Owned, Redeliver, HeldAmong, Claimable;
    if l.CommitPage? || l.CommitBatch? {
      var p := ProcOf(s, l.c);
      if p.Up? && p.page.Held? { WriteOnward(s, l.c, p, p.page.ids, p.page.valid, false); }
      if p.Up? { WriteOnward(s, l.c, p, p.batchIds, p.batch, true); }
    }
  }

  lemma {:induction false} WriteOnward(s: State, c: Name, p: Proc, ids: seq<Id>, valid: seq<Id>, main: bool)
    requires p.Up?
    ensures Onward(s, Write(s, c, p, ids, valid, main))
  {
    hide Commits, EventsOf, MetricsTable.Commit, Flat;
    forall id: Id ensures Commits(s.batches, id) <= Commits(s.batches + [valid], id) {
      CommitsSnoc(s.batches, valid, id);
    }
  }

  lemma {:induction false} ProcUntouched(s: State, l: Label, c: Name)
    requires Foreign(l, c)
    ensures ProcOf(Apply(s, l), c) == ProcOf(s, c)
  {
    hide EventsOf, MetricsTable.Commit, Select, Owned, Redeliver, HeldAmong, Claimable, IdSet;
  }

  /** Reading back one's own entries changes delivery times, never owners. */
  lemma {:induction false} OwnersUnchanged(s: State, s1: State, c: Name, ids: seq<Id>, now: int)
    requires forall id: Id :: id in ids ==> id in s.pending && s.pending[id].owner == c
    requires s1.pending == Redeliver(s.pending, Select<Id>(ids, Retained(s.trimmed)), c, now)
    ensures s1.pending.Keys == s.pending.Keys
    ensures forall id: Id :: id in s.pending ==> s1.pending[id].owner == s.pending[id].owner
  {
    hide Select;
    forall id: Id | id in Select<Id>(ids, Retained(s.trimmed)) ensures id in ids {
      SelectMember<Id>(ids, Retained(s.trimmed), id);
    }
  }

  /** Nobody else can add to a consumer's pending entries. */
  lemma {:induction false} OthersNeverAdd(s: State, l: Label, c: Name)
    requires match l
             case ReadNew(d, count, now) => d != c
             case Claim(d, ids, now) => d != c
             case _ => true
    ensures OwnPending(Apply(s, l), c) <= OwnPending(s, c)
  {
    hide Select, MetricsTable.Commit, EventsOf, Holds, Owned, NoDup;
    match l {
      case ReadOwn(d, count, now) =>
        OwnPage(s, d, count);
        var own := Owned(s.pending, d, |s.log|);
        var s' := Apply(s, l);
        if s'.emptied != s.emptied || s'.pending != s.pending {
          OwnersUnchanged(s, s', d, own[..Min(count, |own|)], now);
        }
      case _ =>
    }
  }

  /** From `s` to `s'` only others acted. */
  ghost predicate Meanwhile(s: State, s': State, c: Name) {
    Inv(s') && Onward(s, s') && ProcOf(s', c) == ProcOf(s, c) && OwnPending(s', c) <= OwnPending(s, c)
  }

  /** However many steps others take, this process stays as it is and is owed no more than before. */
  lemma {:induction false} ForeignRun(s: State, others: seq<Label>, c: Name)
    requires Inv(s) && AllForeign(others, c)
    ensures Meanwhile(s, Run(s, others), c)
  {
    if others != [] {
      hide Inv, Apply, OwnPending, Foreign, Grows;
      var init, l := others[..|others| - 1], others[|others| - 1];
      assert AllForeign(init, c) && Foreign(l, c);
      ForeignRun(s, init, c);
      var mid := Run(s, init);
      StepKeeps(mid, l);
      StepOnward(mid, l);
      ProcUntouched(mid, l, c);
      ForeignNeverAdds(mid, l, c);
      OnwardOnward(s, mid, Apply(mid, l));
    }
  }

  lemma {:induction false} ForeignNeverAdds(s: State, l: Label, c: Name)
    requires Foreign(l, c)
    ensures OwnPending(Apply(s, l), c) <= OwnPending(s, c)
  {
    hide OwnPending, Apply;
    OthersNeverAdd(s, l, c);
  }

  lemma {:induction false} OnwardOnward(s: State, s1: State, s2: State)
    requires Onward(s, s1) && Onward(s1, s2)
    ensures Onward(s, s2)
  {
    hide Commits;
    forall id: Id ensures Commits(s.batches, id) <= Commits(s2.batches, id) {
      assert Commits(s.batches, id) <= Commits(s1.batches, id) <= Commits(s2.batches, id);
    }
  }

  lemma {:induction false} AccountedOnward(s: State, s': State, id: Id)
    requires Onward(s, s') && Accounted(s, id)
    ensures Accounted(s', id)
  {
  }

  // ----- a page between its own steps, with anything happening in between

  /** Neither pending nor forgotten: acknowledged or purged, and nothing more is owed for it. */
  ghost predicate Settled(s: State, id: Id) {
    id !in s.pending && (id in s.acked || id in s.purged) && Accounted(s, id)
  }

  lemma {:induction false} SettledOnward(s: State, s': State, id: Id)
    requires Settled(s, id) && Onward(s, s') && Inv(s')
    ensures Settled(s', id)
  {
    AccountedOnward(s, s', id);
  }

  /** Committing keeps a page's ids and makes it ready to acknowledge. */
  lemma {:induction false} CommitHeld(s: State, c: Name)
    requires Inv(s) && ProcOf(s, c).Up? && ProcOf(s, c).page.Held? && Writable(s.log, ProcOf(s, c).page.valid)
    ensures
      var s', p := Apply(s, CommitPage(c)), ProcOf(s, c);
      && Inv(s') && Onward(s, s') && s'.pending == s.pending && s'.log == s.log
      && ProcOf(s', c) == p.(page := Written(p.page.ids, p.page.valid, false))
  {
    hide Inv, EventsOf, MetricsTable.Commit, Onward;
    StepKeeps(s, CommitPage(c));
    StepOnward(s, CommitPage(c));
  }

  lemma {:induction false} CommitMain(s: State, c: Name)
    requires Inv(s)
    requires var p := ProcOf(s, c);
      p.Up? && !p.recovering && p.page.NoPage? && p.batchIds != [] && Writable(s.log, p.batch)
    ensures
      var s', p := Apply(s, CommitBatch(c)), ProcOf(s, c);
      && Inv(s') && Onward(s, s') && s'.pending == s.pending && s'.log == s.log
      && ProcOf(s', c) == p.(page := Written(p.batchIds, p.batch, true))
  {
    hide Inv, EventsOf, MetricsTable.Commit, Onward;
    StepKeeps(s, CommitBatch(c));
    StepOnward(s, CommitBatch(c));
  }

  /** Acknowledging settles the page's ids, whatever happened to them since they were read. */
  lemma {:induction false} AckSettles(s: State, c: Name)
    requires Inv(s) && ProcOf(s, c).Up? && ProcOf(s, c).page.Written?
    ensures
      var s', p := Apply(s, Ack(c)), ProcOf(s, c);
      && Inv(s') && Onward(s, s') && s'.log == s.log
      && s'.pending == s.pending - IdSet(p.page.ids)
      && ProcOf(s', c) == (if p.page.main then p.(page := NoPage, batchIds := [], batch := []) else p.(page := NoPage))
      && (forall id: Id :: id in p.page.ids ==> Settled(s', id))
  {
    hide Inv, Onward, Accounted;
    StepKeeps(s, Ack(c));
    StepOnward(s, Ack(c));
    var s' := Apply(s, Ack(c));
    forall id: Id | id in ProcOf(s, c).page.ids ensures Settled(s', id) {
      WrittenIsOwed(s, c, id);
      AccountedOnward(s, s', id);
      NotPendingIsSettled(s', id);
    }
  }

  lemma {:induction false} WrittenIsOwed(s: State, c: Name, id: Id)
    requires Inv(s) && ProcOf(s, c).Up? && ProcOf(s, c).page.Written? && id in ProcOf(s, c).page.ids
    ensures id in s.delivered && Accounted(s, id)
  {
    hide Accounted, Books, Ledger, Bounds, HeldOk;
    assert ProcOk(s, s.procs[c]);
  }

  lemma {:induction false} NotPendingIsSettled(s: State, id: Id)
    requires Inv(s) && id in s.delivered && id !in s.pending && Accounted(s, id)
    ensures Settled(s, id)
  {
  }
}
