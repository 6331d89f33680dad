/** From the events the gateway emits to the table: what a drained pipeline holds. */
module EndToEnd {
  import opened Prelude
  import opened Aggregate
  import opened Delivery
  import opened DeliverySafety
  import opened RedisStream
  import DeliveryExactness
  import Shared = StreamGroups

  /**
    Entry `i` of the stream is event `i` as the gateway writes it, among fields analytics does
    not read, and its numbers read back.
   */
  ghost predicate Emitted(
    conv: Conversions, show: Shows, entries: seq<Fields>, events: seq<Event>, rest: seq<Fields>) {
    && |entries| == |events| == |rest|
    && (forall i :: 0 <= i < |entries| ==>
          entries[i] == ToRedisFields(show, events[i], rest[i]) && ReadsBack(conv, show, events[i]))
  }

  /**
    Everything was read before it was trimmed and acknowledged before it was trimmed, and no
    flush is half done. The stream behind the group may be trimmed as far as it likes.
   */
  ghost predicate Drained(y: Shared.System) {
    var group := GroupOf(y.stream, Shared.ANALYTICS);
    && group.position == |y.stream.entries| && group.pending == map[]
    && (forall id: Id :: id < y.stream.trimmed ==> id in y.analytics.delivered) && y.analytics.cut == {}
    && (forall c :: c in y.analytics.procs && y.analytics.procs[c].Up? ==> !y.analytics.procs[c].page.Written?)
  }

  /** Nobody stopped between a commit and its XACK, and nobody claimed from a live process. */
  ghost predicate Undisturbed(y: Shared.System) {
    y.analytics.stopped == multiset{} && y.analytics.raced == multiset{}
  }

  function Unary(i: int): string {
    if i >= 0 then seq(i, _ => '1') else ['-'] + seq(-i, _ => '1')
  }

  function FromUnary(text: string): int {
    if text != [] && text[0] == '-' then 1 - |text| else |text|
  }

  /** The position of the first event with this latency. */
  function FirstWith(events: seq<Event>, x: real, i: nat): nat
    decreases |events| - i
  {
    if i >= |events| || events[i].latencyMs == x then i else FirstWith(events, x, i + 1)
  }

  lemma {:induction false} FirstWithFinds(events: seq<Event>, x: real, i: nat, k: nat)
    requires i <= k < |events| && events[k].latencyMs == x
    ensures FirstWith(events, x, i) < |events| && events[FirstWith(events, x, i)].latencyMs == x
    decreases k - i
  {
    if events[i].latencyMs != x { FirstWithFinds(events, x, i + 1, k); }
  }

  /** For any events there are text forms whose conversions read back, so `Emitted` asks for nothing impossible. */
  lemma {:induction false} ReadBackExists(events: seq<Event>) returns (conv: Conversions, show: Shows)
    ensures forall k :: 0 <= k < |events| ==> ReadsBack(conv, show, events[k])
  {
    conv := Conversions((text: string) => Some(FromUnary(text)),
                        (text: string) => if |text| < |events| then Some(events[|text|].latencyMs) else None);
    show := Shows((i: int) => Unary(i), (x: real) => Unary(FirstWith(events, x, 0)));
    forall i ensures FromUnary(Unary(i)) == i { }
    forall k | 0 <= k < |events| ensures ReadsBack(conv, show, events[k]) {
      FirstWithFinds(events, events[k].latencyMs, 0, k);
    }
  }

  lemma {:induction false} LogIsEvents(
    u: Shared.Setup, show: Shows, entries: seq<Fields>, events: seq<Event>, rest: seq<Fields>)
    requires Emitted(u.conv, show, entries, events, rest)
    ensures |Shared.AnalyticsLog(u, entries)| == |events| == |entries|
    ensures forall i :: 0 <= i < |events| ==> Shared.AnalyticsLog(u, entries)[i] == Some(events[i])
  {
    hide ParseEvent, ToRedisFields, ReadsBack;
    forall i | 0 <= i < |events| ensures Shared.AnalyticsLog(u, entries)[i] == Some(events[i]) {
      EventRoundTrip(u.conv, show, events[i], rest[i]);
    }
  }

  lemma {:induction false} AllEvents(log: seq<Option<Event>>, events: seq<Event>, n: nat)
    requires n <= |events| == |log| && forall i :: 0 <= i < |events| ==> log[i] == Some(events[i])
    ensures EventsOf(log, Range(0, n)) == events[..n]
  {
    if n > 0 {
      AllEvents(log, events, n - 1);
      assert Range(0, n)[..n - 1] == Range(0, n - 1);
    }
  }

  /** In a drained run every entry was acknowledged with its value. */
  lemma {:induction false} AllAccepted(s: State, id: Id)
    requires Inv(s) && s.lastDelivered == |s.log| && s.pending == map[] && s.cut == {}
    requires forall i: Id :: i < s.trimmed ==> i in s.delivered
    requires forall i :: 0 <= i < |s.log| ==> s.log[i].Some?
    ensures id in DeliveryExactness.Accepted(s) <==> id < |s.log|
  {
    hide ProcsOk, Books;
    if id < |s.log| { assert id in s.delivered; }
    if id in s.acked { assert id in s.delivered; }
  }

  lemma {:induction false} RangeNoDup(n: nat)
    ensures NoDup(Range(0, n))
  {
  }

  /**
    Main result: once an undisturbed pipeline has drained, the table is the group-by of exactly
    the events the gateway emitted, each counted once, however many consumers shared the work,
    crashed, recovered and adopted each other's entries, and whatever the alert group did.
   */
  lemma {:induction false} DrainedTableIsExact(
    u: Shared.Setup, show: Shows, labels: seq<Shared.Label>, events: seq<Event>, rest: seq<Fields>, k: Key)
    requires Emitted(u.conv, show, Shared.Run(u, labels).stream.entries, events, rest)
    requires Drained(Shared.Run(u, labels)) && Undisturbed(Shared.Run(u, labels))
    ensures
      var table := Shared.Run(u, labels).analytics.table;
      && (k in table <==> Count(events, k, Total) > 0)
      && (k in table ==> forall col :: table[k].Column(col) == Count(events, k, col))
  {
    hide Shared.Run, Run, Inv, EventsOf, Emitted, Shared.AnalyticsLog, Shared.AnalyticsRun, Shared.ToAlerts,
         Shared.OneAlertConsumer, DeliveryExactness.Accepted, NoDup, Range, Count;
    var y := Shared.Run(u, labels);
    var mine := Shared.AnalyticsRun(u, labels);
    var s := Run(Init(), mine);
    Shared.GroupsIndependent(u, labels);
    LogIsEvents(u, show, y.stream.entries, events, rest);
    RunKeeps(mine);
    forall id: Id ensures id in Range(0, |events|) <==> id in DeliveryExactness.Accepted(s) {
      AllAccepted(s, id);
      RangeMember(0, |events|, id);
    }
    RangeNoDup(|events|);
    DeliveryExactness.UndisturbedIsExact(mine, Range(0, |events|), k);
    AllEvents(s.log, events, |events|);
    assert events[..|events|] == events;
  }

  /**
    The same counted by hand: every emitted event has a row, and every row of the table counts
    exactly the emitted events of its tenant, endpoint, method and minute.
   */
  lemma {:induction false} DrainedTableByHand(
    u: Shared.Setup, show: Shows, labels: seq<Shared.Label>, events: seq<Event>, rest: seq<Fields>)
    requires Emitted(u.conv, show, Shared.Run(u, labels).stream.entries, events, rest)
    requires Drained(Shared.Run(u, labels)) && Undisturbed(Shared.Run(u, labels))
    ensures
      var table := Shared.Run(u, labels).analytics.table;
      && (forall i :: 0 <= i < |events| ==> HasRow(table.Keys, events[i]))
      && (forall k :: k in table ==>
            var m := table[k];
            m.total > 0 && CountsByHand(m.total, m.status2xx, m.status4xx, m.status5xx, m.blocked, events, k))
  {
    hide Shared.Run, Emitted, Drained, Undisturbed, Count, CountsByHand, InRow;
    var table := Shared.Run(u, labels).analytics.table;
    forall i | 0 <= i < |events| ensures HasRow(table.Keys, events[i]) {
      var k := KeyOf(events[i]);
      KeyIsRow(events[i], k);
      assert HasKey(events, k);
      OccurringKeyCounts(events, k);
      DrainedTableIsExact(u, show, labels, events, rest, k);
    }
    forall k | k in table
      ensures
        var m := table[k];
        m.total > 0 && CountsByHand(m.total, m.status2xx, m.status4xx, m.status5xx, m.blocked, events, k)
    {
      DrainedTableIsExact(u, show, labels, events, rest, k);
      CountsAreByHand(events, k);
      var m := table[k];
      assert m.Column(Total) == m.total && m.Column(Blocked) == m.blocked && m.Column(Status2xx) == m.status2xx;
      assert m.Column(Status4xx) == m.status4xx && m.Column(Status5xx) == m.status5xx;
    }
  }
}
