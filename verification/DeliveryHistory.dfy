/** What the history fields of the delivery protocol record: exactly when each of them grows. */
module DeliveryHistory {
  import opened Prelude
  import opened Delivery
  import opened DeliverySafety

  /** Some live process has the entry in its batch or on its page. */
  ghost predicate HeldAlive(s: State, id: Id) {
    exists c :: c in s.procs && s.procs[c].Up?
      && (id in s.procs[c].batchIds || (s.procs[c].page != NoPage && id in s.procs[c].page.ids))
  }

  /** A claim that goes through. */
  predicate Claims(s: State, l: Label) {
    && l.Claim? && l.c in s.procs
    && var p := s.procs[l.c];
       && p.Up? && !p.recovering && p.page == NoPage
       && |l.ids| <= 500 && (forall i, j :: 0 <= i < j < |l.ids| ==> l.ids[i] < l.ids[j])
       && (forall id :: id in l.ids ==> id in s.pending && (id < s.trimmed || l.now - s.pending[id].at >= 30_000))
  }

  lemma {:induction false} ClaimsIff(s: State, l: Label)
    requires l.Claim?
    ensures Claims(s, l) <==>
      var p := ProcOf(s, l.c);
      p.Up? && !p.recovering && p.page.NoPage? && Claimable(s, l.ids, l.now)
  {
  }

  /** `raced` grows by one exactly when the entry is claimed while some live process holds it. */
  lemma {:induction false} RacedMeans(s: State, l: Label, id: Id)
    ensures Apply(s, l).raced[id]
         == s.raced[id] + if l.Claim? && Claims(s, l) && id in l.ids && HeldAlive(s, id) then 1 else 0
  {
    hide Select, EventsOf, MetricsTable.Commit, Owned, Redeliver, Claims, Claimable;
    if l.Claim? {
      ClaimsIff(s, l);
      HeldAliveIff(s, l.ids, id);
    }
  }

  lemma {:induction false} HeldAliveIff(s: State, ids: seq<Id>, id: Id)
    ensures id in HeldAmong(s, ids) <==> id in ids && HeldAlive(s, id)
    ensures multiset(HeldAmong(s, ids))[id] == if id in ids && HeldAlive(s, id) then 1 else 0
  {
    if c :| c in s.procs && Holds(s.procs[c], id) {
      assert HeldAlive(s, id);
    }
    if HeldAlive(s, id) {
      var c :| c in s.procs && s.procs[c].Up?
        && (id in s.procs[c].batchIds || (s.procs[c].page != NoPage && id in s.procs[c].page.ids));
      assert Holds(s.procs[c], id);
    }
  }

  /** A process that stops between the commit of its page and the XACK. */
  predicate StopsBeforeAck(s: State, l: Label, id: Id) {
    l.Crash? && l.c in s.procs && s.procs[l.c].Up? && s.procs[l.c].page.Written? && id in s.procs[l.c].page.ids
  }

  lemma {:induction false} StoppedMeans(s: State, l: Label, id: Id)
    ensures Apply(s, l).stopped[id] == s.stopped[id] + if StopsBeforeAck(s, l, id) then 1 else 0
  {
    hide Select, EventsOf, MetricsTable.Commit, Owned, Redeliver, HeldAmong, Claimable;
  }

  /** A process that acknowledges a written page. */
  predicate Acknowledges(s: State, l: Label, id: Id) {
    l.Ack? && l.c in s.procs && s.procs[l.c].Up? && s.procs[l.c].page.Written? && id in s.procs[l.c].page.ids
  }

  lemma {:induction false} AckedMeans(s: State, l: Label, id: Id)
    ensures id in Apply(s, l).acked <==> id in s.acked || (Acknowledges(s, l, id) && id in s.pending)
  {
    hide Select, EventsOf, MetricsTable.Commit, Owned, Redeliver, HeldAmong, Claimable;
  }

  lemma {:induction false} PurgedMeans(s: State, l: Label, id: Id)
    ensures id in Apply(s, l).purged <==> id in s.purged || (l.Claim? && Claims(s, l) && id in l.ids && id < s.trimmed)
  {
    hide Select, EventsOf, MetricsTable.Commit, Owned, Redeliver, HeldAmong, Claimable, Claims;
    if l.Claim? { ClaimsIff(s, l); }
  }

  /** `cut`: pending when the stream was trimmed past it. */
  lemma {:induction false} CutMeans(s: State, l: Label, id: Id)
    ensures id in Apply(s, l).cut <==>
      id in s.cut || (l.Trim? && id in s.pending && id < Apply(s, l).trimmed)
    ensures Apply(s, l).trimmed == if l.Trim? then Min(|s.log|, Max(s.trimmed, l.upTo)) else s.trimmed
  {
    hide Select, EventsOf, MetricsTable.Commit, Owned, Redeliver, HeldAmong, Claimable;
  }

  /** `delivered`: a read by a ready process reaches the entry. */
  lemma {:induction false} DeliveredMeans(s: State, l: Label, id: Id)
    ensures id in Apply(s, l).delivered <==>
      || id in s.delivered
      || (l.ReadNew? && l.c in s.procs && s.procs[l.c].Up? && !s.procs[l.c].recovering && s.procs[l.c].page == NoPage
          && s.lastDelivered <= id && s.trimmed <= id < |s.log| && id < Max(s.lastDelivered, s.trimmed) + l.count)
  {
    hide Select, EventsOf, MetricsTable.Commit, Owned, Redeliver, HeldAmong, Claimable, Range;
    if l.ReadNew? {
      var s' := Apply(s, l);
      var lo := Max(s.lastDelivered, s.trimmed);
      if s' != s { RangeMember(lo, s'.lastDelivered, id); }
    }
  }

  /** `batches`: one transaction per commit step, of the page's or the batch's parsed entries. */
  lemma {:induction false} BatchesMean(s: State, l: Label)
    ensures
      var s' := Apply(s, l);
      s'.batches != s.batches ==>
        && (l.CommitPage? || l.CommitBatch?) && l.c in s.procs && s.procs[l.c].Up?
        && s'.batches == s.batches
             + [if l.CommitPage? then (if s.procs[l.c].page.Held? then s.procs[l.c].page.valid else [])
                else s.procs[l.c].batch]
  {
    hide Select, EventsOf, MetricsTable.Commit, Owned, Redeliver, HeldAmong, Claimable;
  }

  lemma {:induction false} OwnedAscends(pending: map<Id, Delivered>, c: Name, n: nat)
    ensures Ascends(Owned(pending, c, n)) && forall i :: 0 <= i < |Owned(pending, c, n)| ==> Owned(pending, c, n)[i] < n
  {
    if n > 0 {
      OwnedAscends(pending, c, n - 1);
      var init, own := Owned(pending, c, n - 1), Owned(pending, c, n);
      assert own == init || own == init + [n - 1];
      forall i | 0 <= i < |own| ensures own[i] < n && (i < |init| ==> own[i] == init[i]) { }
    }
  }

  ghost predicate Ascends(ids: seq<Id>) {
    forall i, j :: 0 <= i < j < |ids| ==> ids[i] < ids[j]
  }

  /** A recovery page: the lowest of the consumer's pending ids, in order, and all of them unless the page is full. */
  lemma {:induction false} PageIsLowest(s: State, c: Name, count: nat, now: int, id: Id)
    requires count > 0 && ProcOf(s, c).Up? && ProcOf(s, c).recovering && ProcOf(s, c).page.NoPage?
    requires id < |s.log| && id in s.pending && s.pending[id].owner == c
    ensures
      var p := ProcOf(Apply(s, ReadOwn(c, count, now)), c);
      && p.Up? && p.page.Held? && |p.page.ids| <= count
      && Ascends(p.page.ids)
      && (id in p.page.ids || (|p.page.ids| == count && forall i :: 0 <= i < count ==> p.page.ids[i] < id))
  {
    hide Select, Owned, Redeliver, NoDup;
    OwnedIds(s.pending, c, |s.log|);
    OwnedAscends(s.pending, c, |s.log|);
    var own := Owned(s.pending, c, |s.log|);
    assert id in own;
    var k :| 0 <= k < |own| && own[k] == id;
    var ids: seq<Id> := own[..Min(count, |own|)];
    assert ids != [] && forall i :: 0 <= i < |ids| ==> ids[i] == own[i];
    if k < |ids| {
      assert ids[k] == id;
    } else {
      assert forall i :: 0 <= i < |ids| ==> own[i] < own[k];
    }
  }
}
