/**
  The whole pipeline behind one stream: analytics consumers and the alert consumer issue
  their commands on their own group of the same Redis stream and parse the same fields.
 */
module StreamGroups {
  import opened Prelude
  import opened Aggregate
  import opened RedisStream
  import MetricsTable
  import Analytics = Delivery
  import AnalyticsSafety = DeliverySafety
  import DeliveryDuplicates
  import Alerts = AlertDelivery

  type Id = Analytics.Id
  type Name = Analytics.Name

  const ANALYTICS: GroupName := "analytics-cg"
  const ALERTS: GroupName := "alert-cg"

  /** Text-to-number conversions, and the alert consumer's one name. */
  datatype Setup = Setup(conv: Conversions, alertName: Name)

  datatype AlertEvent = AlertEvent(
    tenant: string, endpoint: string, query: string, userAgent: string, source: string, timestampMs: int)

  function FieldOr(fields: Fields, name: string, default: string): string {
    if name in fields then fields[name] else default
  }

  /** parse_alert_event: other fields than parse_event needs, the same tolerance of poison. */
  function ParseAlertEvent(conv: Conversions, fields: Fields): Option<AlertEvent> {
    if "tenant_id" !in fields || "endpoint" !in fields || "remote_ip_hash" !in fields
       || "timestamp_ms" !in fields then None
    else
      match conv.toInt(fields["timestamp_ms"])
      case None => None
      case Some(stamp) =>
        Some(AlertEvent(fields["tenant_id"], fields["endpoint"], FieldOr(fields, "query_string", ""),
                        FieldOr(fields, "user_agent", ""), fields["remote_ip_hash"], stamp))
  }

  /** Poison for the alert consumer: one of its four fields is missing, or the stamp is no number. */
  lemma {:induction false} AlertParsesIff(conv: Conversions, fields: Fields)
    ensures ParseAlertEvent(conv, fields).Some? <==>
      && "tenant_id" in fields && "endpoint" in fields && "remote_ip_hash" in fields && "timestamp_ms" in fields
      && conv.toInt(fields["timestamp_ms"]).Some?
    ensures ParseAlertEvent(conv, fields).Some? ==>
      var e := ParseAlertEvent(conv, fields).value;
      && e.tenant == fields["tenant_id"] && e.endpoint == fields["endpoint"] && e.source == fields["remote_ip_hash"]
      && Some(e.timestampMs) == conv.toInt(fields["timestamp_ms"])
      && e.query == (if "query_string" in fields then fields["query_string"] else "")
      && e.userAgent == (if "user_agent" in fields then fields["user_agent"] else "")
  {
  }

  /** The analytics side outside the stream: processes, table, and history as in Delivery. */
  datatype AnalyticsSide = AnalyticsSide(
    procs: map<Name, Analytics.Proc>, table: MetricsTable.Table,
    delivered: set<Id>, acked: set<Id>, purged: set<Id>, batches: seq<seq<Id>>,
    cut: set<Id>, emptied: set<Id>, stopped: multiset<Id>, raced: multiset<Id>)

  /** The alert side outside the stream; `dropPage` was read back at a restart and not acknowledged yet. */
  datatype AlertSide = AlertSide(
    proc: Alerts.Proc, dropPage: seq<Id>,
    delivered: set<Id>, acked: set<Id>, dropped: set<Id>, scanned: seq<Id>)

  datatype System = System(stream: Stream, analytics: AnalyticsSide, alerts: AlertSide)

  datatype Label =
    | Emit(fields: Fields)
    | Trim(upTo: nat)
    | Analyze(l: Analytics.Label)
    | AlertRead(count: nat, now: int)
    | AlertProcess
    | AlertAck
    | AlertCrash
    | AlertRestart
    | AlertDropRead(now: int)
    | AlertDropAck

  function Init(): System {
    System(EMPTY, AnalyticsSide(map[], map[], {}, {}, {}, [], {}, {}, multiset{}, multiset{}),
           AlertSide(Alerts.Down, [], {}, {}, {}, []))
  }

  // ----- what each group sees

  function AnalyticsLog(u: Setup, entries: seq<Fields>): seq<Option<Event>> {
    seq(|entries|, i requires 0 <= i < |entries| => ParseEvent(u.conv, entries[i]))
  }

  function AlertLog(u: Setup, entries: seq<Fields>): seq<bool> {
    seq(|entries|, i requires 0 <= i < |entries| => ParseAlertEvent(u.conv, entries[i]).Some?)
  }

  /** The analytics protocol's state is the analytics part of the system. */
  function ToAnalytics(u: Setup, y: System): Analytics.State {
    var group, m := GroupOf(y.stream, ANALYTICS), y.analytics;
    Analytics.State(AnalyticsLog(u, y.stream.entries), y.stream.trimmed, group.position, group.pending,
                    m.procs, m.table, m.delivered, m.acked, m.purged, m.batches, m.cut, m.emptied, m.stopped, m.raced)
  }

  function ToAlerts(u: Setup, y: System): Alerts.State {
    var group, m := GroupOf(y.stream, ALERTS), y.alerts;
    Alerts.State(AlertLog(u, y.stream.entries), y.stream.trimmed, group.position, group.pending.Keys, m.proc,
                 m.delivered, m.acked, m.dropped, m.scanned)
  }

  /** The analytics side of a protocol state. */
  function SideOf(s: Analytics.State): AnalyticsSide {
    AnalyticsSide(s.procs, s.table, s.delivered, s.acked, s.purged, s.batches, s.cut, s.emptied, s.stopped, s.raced)
  }

  // ----- the analytics consumers' commands

  function ProcOf(y: System, c: Name): Analytics.Proc {
    if c in y.analytics.procs then y.analytics.procs[c] else Analytics.Down
  }

  /** The ids whose fields, as read now, parse. */
  function Parsable(u: Setup, st: Stream): Id -> bool {
    (id: Id) => ParseEvent(u.conv, FieldsAt(st, id)).Some?
  }

  function HeldPage(u: Setup, st: Stream, ids: seq<Id>): Analytics.Page {
    Analytics.Held(ids, Select<Id>(ids, Parsable(u, st)))
  }

  function ReadNew(u: Setup, y: System, c: Name, count: nat, now: int): System {
    var p, m := ProcOf(y, c), y.analytics;
    if !p.Up? || p.recovering || !p.page.NoPage? then y
    else
      var (st, ids) := XreadNew(y.stream, ANALYTICS, c, count, now);
      if ids == [] then y
      else
        y.(stream := st,
           analytics := m.(delivered := m.delivered + (set id | id in ids),
                           procs := m.procs[c := p.(batchIds := p.batchIds + ids,
                                                    batch := p.batch + Select<Id>(ids, Parsable(u, y.stream)))]))
  }

  function ReadOwn(u: Setup, y: System, c: Name, count: nat, now: int): System {
    var p, m := ProcOf(y, c), y.analytics;
    if !p.Up? || !p.recovering || !p.page.NoPage? || count == 0 then y
    else
      var (st, ids) := XreadOwn(y.stream, ANALYTICS, c, count, now);
      if ids == [] then y.(analytics := m.(procs := m.procs[c := p.(recovering := false)]))
      else
        y.(stream := st,
           analytics := m.(emptied := m.emptied + (set id | id in ids && id < y.stream.trimmed),
                           procs := m.procs[c := p.(page := HeldPage(u, y.stream, ids))]))
  }

  function Claim(u: Setup, y: System, c: Name, ids: seq<Id>, now: int): System {
    var p, m := ProcOf(y, c), y.analytics;
    if !p.Up? || p.recovering || !p.page.NoPage? || !Takeable(y.stream, ANALYTICS, ids, now) then y
    else
      var (st, kept) := Xautoclaim(y.stream, ANALYTICS, c, ids, now);
      y.(stream := st,
         analytics := m.(purged := m.purged + (set id | id in ids && id < y.stream.trimmed),
                         raced := m.raced + multiset(Analytics.HeldAmong(ToAnalytics(u, y), ids)),
                         procs := m.procs[c := p.(page := if kept == [] then Analytics.NoPage
                                                          else HeldPage(u, y.stream, kept))]))
  }

  function Ack(y: System, c: Name): System {
    var p, m := ProcOf(y, c), y.analytics;
    if !p.Up? || !p.page.Written? then y
    else
      var ids := Analytics.IdSet(p.page.ids);
      y.(stream := Xack(y.stream, ANALYTICS, ids),
         analytics := m.(acked := m.acked + ids * GroupOf(y.stream, ANALYTICS).pending.Keys,
                         procs := m.procs[c := if !p.page.main then p.(page := Analytics.NoPage)
                                               else p.(page := Analytics.NoPage, batchIds := [], batch := [])]))
  }

  /** Database commits, crashes and restarts do not talk to Redis. */
  function Analyzed(u: Setup, y: System, l: Analytics.Label): System {
    match l
    case Append(entry) => y
    case Trim(upTo) => y
    case ReadNew(c, count, now) => ReadNew(u, y, c, count, now)
    case ReadOwn(c, count, now) => ReadOwn(u, y, c, count, now)
    case Claim(c, ids, now) => Claim(u, y, c, ids, now)
    case Ack(c) => Ack(y, c)
    case _ => y.(analytics := SideOf(Analytics.Apply(ToAnalytics(u, y), l)))
  }

  // ----- the alert consumer's commands

  function DoAlertRead(u: Setup, y: System, count: nat, now: int): System {
    var m := y.alerts;
    if !m.proc.Running? || m.proc.page != [] || count > Alerts.READ_COUNT then y
    else
      var (st, ids) := XreadNew(y.stream, ALERTS, u.alertName, count, now);
      if ids == [] then y
      else
        y.(stream := st,
           alerts := m.(proc := Alerts.Running(ids, 0), delivered := m.delivered + (set id | id in ids)))
  }

  /** process_message on the fields as they were read. */
  function DoAlertProcess(u: Setup, y: System): System {
    var m := y.alerts;
    if !m.proc.Running? || m.proc.next >= |m.proc.page| then y
    else
      var id := m.proc.page[m.proc.next];
      var parses := id < |y.stream.entries| && ParseAlertEvent(u.conv, y.stream.entries[id]).Some?;
      y.(alerts := m.(proc := Alerts.Running(m.proc.page, m.proc.next + 1),
                      scanned := if parses then m.scanned + [id] else m.scanned))
  }

  function DoAlertAck(y: System): System {
    var m := y.alerts;
    if !m.proc.Running? || m.proc.page == [] || m.proc.next != |m.proc.page| then y
    else
      var ids := set id | id in m.proc.page;
      y.(stream := Xack(y.stream, ALERTS, ids), alerts := m.(proc := Alerts.Running([], 0), acked := m.acked + ids))
  }

  /** drop_own_pending reads a page of its own pending entries; an empty one ends it. */
  function DoAlertDropRead(u: Setup, y: System, now: int): System {
    var m := y.alerts;
    if !m.proc.Dropping? || m.dropPage != [] then y
    else
      var (st, ids) := XreadOwn(y.stream, ALERTS, u.alertName, Alerts.READ_COUNT, now);
      if ids == [] then y.(alerts := m.(proc := Alerts.Running([], 0)))
      else y.(stream := st, alerts := m.(dropPage := ids))
  }

  function DoAlertDropAck(y: System): System {
    var m := y.alerts;
    if !m.proc.Dropping? || m.dropPage == [] then y
    else
      var ids := Analytics.IdSet(m.dropPage);
      y.(stream := Xack(y.stream, ALERTS, ids),
         alerts := m.(dropPage := [], acked := m.acked + ids, dropped := m.dropped + ids))
  }

  function Apply(u: Setup, y: System, l: Label): System {
    match l
    case Emit(fields) => y.(stream := Xadd(y.stream, fields))
    case Trim(upTo) =>
      var st := Xtrim(y.stream, upTo);
      var lost := set id | id in GroupOf(st, ANALYTICS).pending && id < st.trimmed;
      y.(stream := st, analytics := y.analytics.(cut := y.analytics.cut + lost))
    case Analyze(m) => Analyzed(u, y, m)
    case AlertRead(count, now) => DoAlertRead(u, y, count, now)
    case AlertProcess => DoAlertProcess(u, y)
    case AlertAck => DoAlertAck(y)
    case AlertCrash => y.(alerts := y.alerts.(proc := Alerts.Down, dropPage := []))
    case AlertRestart => if y.alerts.proc.Down? then y.(alerts := y.alerts.(proc := Alerts.Dropping)) else y
    case AlertDropRead(now) => DoAlertDropRead(u, y, now)
    case AlertDropAck => DoAlertDropAck(y)
  }

  function Run(u: Setup, labels: seq<Label>): System {
    if labels == [] then Init() else Apply(u, Run(u, labels[..|labels| - 1]), labels[|labels| - 1])
  }

  // ----- independence

  predicate IsAlert(l: Label) {
    !l.Emit? && !l.Trim? && !l.Analyze?
  }

  /** A step of one side leaves the stream, the other group and the other side as they were. */
  lemma {:induction false} SidesApart(u: Setup, y: System, l: Label)
    ensures l.Analyze? ==> OnlyGroup(y.stream, Apply(u, y, l).stream, ANALYTICS) && Apply(u, y, l).alerts == y.alerts
    ensures IsAlert(l) ==> OnlyGroup(y.stream, Apply(u, y, l).stream, ALERTS) && Apply(u, y, l).analytics == y.analytics
  {
    hide Analytics.Owned, Select, Analytics.Redeliver, Analytics.Range, Takeable, Analytics.HeldAmong, ParseEvent;
  }

  // ----- the analytics protocol is a projection

  /** What a step of the system is for the analytics group. */
  function AnalyticsView(u: Setup, l: Label): seq<Analytics.Label> {
    match l
    case Emit(fields) => [Analytics.Append(ParseEvent(u.conv, fields))]
    case Trim(upTo) => [Analytics.Trim(upTo)]
    case Analyze(m) => if m.Append? || m.Trim? then [] else [m]
    case _ => []
  }

  function AnalyticsRun(u: Setup, labels: seq<Label>): seq<Analytics.Label> {
    if labels == [] then [] else AnalyticsRun(u, labels[..|labels| - 1]) + AnalyticsView(u, labels[|labels| - 1])
  }

  /** Parsing what Redis returns and asking the parsed log come to the same. */
  lemma {:induction false} SameParsed(u: Setup, st: Stream, ids: seq<Id>)
    ensures Select<Id>(ids, Parsable(u, st))
         == Select<Id>(ids, Analytics.Readable(AnalyticsLog(u, st.entries), st.trimmed))
  {
    hide Select;
    SelectSame<Id>(ids, Parsable(u, st), Analytics.Readable(AnalyticsLog(u, st.entries), st.trimmed));
  }

  lemma {:induction false} ReadNewProjects(u: Setup, y: System, c: Name, count: nat, now: int)
    ensures ToAnalytics(u, ReadNew(u, y, c, count, now)) == Analytics.DoReadNew(ToAnalytics(u, y), c, count, now)
  {
    hide Select, AnalyticsLog, Parsable, Analytics.Range;
    SameParsed(u, y.stream, XreadNew(y.stream, ANALYTICS, c, count, now).1);
    LogLengths(u, y.stream.entries);
    var lo := Max(GroupOf(y.stream, ANALYTICS).position, y.stream.trimmed);
    if lo < Min(lo + count, |y.stream.entries|) { SomeIds(lo, Min(lo + count, |y.stream.entries|)); }
  }

  lemma {:induction false} SomeIds(lo: nat, hi: nat)
    requires lo < hi
    ensures Analytics.Range(lo, hi) != []
  {
  }

  lemma {:induction false} LogLengths(u: Setup, entries: seq<Fields>)
    ensures |AnalyticsLog(u, entries)| == |entries| == |AlertLog(u, entries)|
  {
  }

  lemma {:induction false} ReadOwnProjects(u: Setup, y: System, c: Name, count: nat, now: int)
    ensures ToAnalytics(u, ReadOwn(u, y, c, count, now)) == Analytics.DoReadOwn(ToAnalytics(u, y), c, count, now)
  {
    hide Select, AnalyticsLog, Parsable, Analytics.Owned, Analytics.Redeliver;
    SameParsed(u, y.stream, XreadOwn(y.stream, ANALYTICS, c, count, now).1);
    LogLengths(u, y.stream.entries);
  }

  lemma {:induction false} ClaimProjects(u: Setup, y: System, c: Name, ids: seq<Id>, now: int)
    ensures ToAnalytics(u, Claim(u, y, c, ids, now)) == Analytics.DoClaim(ToAnalytics(u, y), c, ids, now)
  {
    hide Select, AnalyticsLog, Parsable, Analytics.HeldAmong, Analytics.Redeliver;
    SameParsed(u, y.stream, Xautoclaim(y.stream, ANALYTICS, c, ids, now).1);
    assert Takeable(y.stream, ANALYTICS, ids, now) == Analytics.Claimable(ToAnalytics(u, y), ids, now);
  }

  lemma {:induction false} AckProjects(u: Setup, y: System, c: Name)
    ensures ToAnalytics(u, Ack(y, c)) == Analytics.DoAck(ToAnalytics(u, y), c)
  {
    hide AnalyticsLog;
  }

  lemma {:induction false} LocalProjects(u: Setup, y: System, l: Analytics.Label)
    requires l.CommitPage? || l.CommitBatch? || l.Crash? || l.Restart?
    ensures ToAnalytics(u, Analyzed(u, y, l)) == Analytics.Apply(ToAnalytics(u, y), l)
  {
    hide AnalyticsLog, Analytics.EventsOf, MetricsTable.Commit;
  }

  lemma {:induction false} StreamProjects(u: Setup, y: System, l: Label)
    requires l.Emit? || l.Trim?
    ensures ToAnalytics(u, Apply(u, y, l)) == Analytics.Apply(ToAnalytics(u, y), AnalyticsView(u, l)[0])
    ensures ToAlerts(u, Apply(u, y, l)) == Alerts.Apply(ToAlerts(u, y), AlertView(u, y, l)[0])
  {
    hide ParseEvent, ParseAlertEvent;
  }

  /** Steps on Redis by group name do to the analytics part exactly what the analytics protocol does. */
  lemma {:induction false} AnalyticsStep(u: Setup, y: System, l: Label)
    ensures
      var view, s := AnalyticsView(u, l), ToAnalytics(u, y);
      ToAnalytics(u, Apply(u, y, l)) == if view == [] then s else Analytics.Apply(s, view[0])
  {
    hide ToAnalytics, ReadNew, ReadOwn, Claim, Ack;
    hide Analytics.DoReadNew, Analytics.DoReadOwn, Analytics.DoClaim, Analytics.DoAck;
    if IsAlert(l) {
      AlertsDontShow(u, y, l);
    } else if l.Analyze? {
      match l.l {
        case Append(entry) =>
        case Trim(upTo) =>
        case ReadNew(c, count, now) => ReadNewProjects(u, y, c, count, now);
        case ReadOwn(c, count, now) => ReadOwnProjects(u, y, c, count, now);
        case Claim(c, ids, now) => ClaimProjects(u, y, c, ids, now);
        case Ack(c) => AckProjects(u, y, c);
        case _ => LocalProjects(u, y, l.l);
      }
    } else {
      StreamProjects(u, y, l);
    }
  }

  lemma {:induction false} AlertsDontShow(u: Setup, y: System, l: Label)
    requires IsAlert(l)
    ensures ToAnalytics(u, Apply(u, y, l)) == ToAnalytics(u, y)
  {
    hide Apply, AnalyticsLog;
    SidesApart(u, y, l);
  }

  // ----- so is the alert protocol

  /** What a step of the system is for the alert group. */
  function AlertView(u: Setup, y: System, l: Label): seq<Alerts.Label> {
    match l
    case Emit(fields) => [Alerts.Append(ParseAlertEvent(u.conv, fields).Some?)]
    case Trim(upTo) => [Alerts.Trim(upTo)]
    case Analyze(m) => []
    case AlertRead(count, now) => [Alerts.Read(count)]
    case AlertProcess => [Alerts.Process]
    case AlertAck => [Alerts.Ack]
    case AlertCrash => [Alerts.Crash]
    case AlertRestart => [Alerts.Restart]
    case AlertDropRead(now) =>
      if y.alerts.proc.Dropping? && Apply(u, y, l).alerts.proc.Running? then [Alerts.DropDone] else []
    case AlertDropAck => if y.alerts.dropPage == [] then [] else [Alerts.Drop(Analytics.IdSet(y.alerts.dropPage))]
  }

  function AlertRun(u: Setup, labels: seq<Label>): seq<Alerts.Label> {
    if labels == [] then []
    else
      var init := labels[..|labels| - 1];
      AlertRun(u, init) + AlertView(u, Run(u, init), labels[|labels| - 1])
  }

  /** Everything pending in the alert group is the one alert consumer's, and it drops only that. */
  ghost predicate OneAlertConsumer(u: Setup, y: System) {
    var pending := GroupOf(y.stream, ALERTS).pending;
    && GroupOf(y.stream, ALERTS).position <= |y.stream.entries|
    && (forall id: Id :: id in pending ==> id < |y.stream.entries| && pending[id].owner == u.alertName)
    && |y.alerts.dropPage| <= Alerts.READ_COUNT
    && (forall id: Id :: id in y.alerts.dropPage ==> id in pending)
    && (y.alerts.dropPage != [] ==> y.alerts.proc.Dropping?)
  }

  lemma {:induction false} AlertReadProjects(u: Setup, y: System, count: nat, now: int)
    requires OneAlertConsumer(u, y)
    ensures
      var y' := DoAlertRead(u, y, count, now);
      ToAlerts(u, y') == Alerts.DoRead(ToAlerts(u, y), count) && OneAlertConsumer(u, y')
  {
    hide AlertLog;
    LogLengths(u, y.stream.entries);
    var y' := DoAlertRead(u, y, count, now);
    var st, ids := y.stream, XreadNew(y.stream, ALERTS, u.alertName, count, now).1;
    if y' != y {
      assert GroupOf(y'.stream, ALERTS).pending.Keys == GroupOf(st, ALERTS).pending.Keys + set id | id in ids;
      var lo, hi := Max(GroupOf(st, ALERTS).position, st.trimmed), GroupOf(y'.stream, ALERTS).position;
      forall id: Id | id in ids ensures id < |st.entries| {
        AnalyticsSafety.RangeMember(lo, hi, id);
      }
    }
  }

  lemma {:induction false} AlertAckProjects(u: Setup, y: System)
    requires OneAlertConsumer(u, y)
    ensures ToAlerts(u, DoAlertAck(y)) == Alerts.DoAck(ToAlerts(u, y)) && OneAlertConsumer(u, DoAlertAck(y))
  {
    hide AlertLog;
    var y' := DoAlertAck(y);
    if y' != y {
      var ids := set id | id in y.alerts.proc.page;
      assert GroupOf(y'.stream, ALERTS).pending.Keys == GroupOf(y.stream, ALERTS).pending.Keys - ids;
    }
  }

  lemma {:induction false} AlertLocalProjects(u: Setup, y: System, l: Label)
    requires OneAlertConsumer(u, y) && (l.AlertProcess? || l.AlertCrash? || l.AlertRestart?)
    ensures ToAlerts(u, Apply(u, y, l)) == Alerts.Apply(ToAlerts(u, y), AlertView(u, y, l)[0])
    ensures OneAlertConsumer(u, Apply(u, y, l))
  {
    hide ParseAlertEvent;
  }

  /** A page of nothing means nothing is pending, since the alert consumer owns all of it. */
  lemma {:induction false} DropPage(u: Setup, y: System)
    requires OneAlertConsumer(u, y)
    ensures
      var ids := XreadOwn(y.stream, ALERTS, u.alertName, Alerts.READ_COUNT, 0).1;
      && |ids| <= Alerts.READ_COUNT && (ids == [] ==> GroupOf(y.stream, ALERTS).pending == map[])
      && (forall id: Id :: id in ids ==> id in GroupOf(y.stream, ALERTS).pending)
  {
    hide Analytics.Redeliver, Analytics.Owned, Select, NoDup;
    var pending := GroupOf(y.stream, ALERTS).pending;
    AnalyticsSafety.OwnedIds(pending, u.alertName, |y.stream.entries|);
    var own := Analytics.Owned(pending, u.alertName, |y.stream.entries|);
    var ids: seq<Id> := own[..Min(Alerts.READ_COUNT, |own|)];
    forall id: Id | id in ids ensures id in own {
      var i :| 0 <= i < |ids| && ids[i] == id;
      assert own[i] == id;
    }
    if ids == [] {
      assert own == [];
      assert forall id: Id :: id in pending ==> id in own;
    }
  }

  lemma {:induction false} AlertDropReadProjects(u: Setup, y: System, now: int)
    requires OneAlertConsumer(u, y)
    ensures
      var view, y' := AlertView(u, y, AlertDropRead(now)), DoAlertDropRead(u, y, now);
      && ToAlerts(u, y') == (if view == [] then ToAlerts(u, y) else Alerts.Apply(ToAlerts(u, y), view[0]))
      && OneAlertConsumer(u, y')
  {
    hide AlertLog, Analytics.Owned, Select;
    DropPage(u, y);
    var y' := DoAlertDropRead(u, y, now);
    var pending, pending' := GroupOf(y.stream, ALERTS).pending, GroupOf(y'.stream, ALERTS).pending;
    assert pending'.Keys == pending.Keys;
    assert forall id: Id :: id in pending ==> pending'[id].owner == u.alertName;
  }

  lemma {:induction false} AlertDropAckProjects(u: Setup, y: System)
    requires OneAlertConsumer(u, y)
    ensures
      var view, y' := AlertView(u, y, AlertDropAck), DoAlertDropAck(y);
      && ToAlerts(u, y') == (if view == [] then ToAlerts(u, y) else Alerts.Apply(ToAlerts(u, y), view[0]))
      && OneAlertConsumer(u, y')
  {
    hide AlertLog;
    var y', page := DoAlertDropAck(y), y.alerts.dropPage;
    if page != [] {
      var ids := Analytics.IdSet(page);
      assert page[0] in ids;
      SetOfSeq(page);
      assert GroupOf(y'.stream, ALERTS).pending.Keys == GroupOf(y.stream, ALERTS).pending.Keys - ids;
    }
  }

  lemma {:induction false} SetOfSeq(ids: seq<Id>)
    ensures |Analytics.IdSet(ids)| <= |ids|
  {
    if ids != [] {
      var init: seq<Id>, last: Id := ids[..|ids| - 1], ids[|ids| - 1];
      SetOfSeq(init);
      assert ids == init + [last];
      assert Analytics.IdSet(ids) == Analytics.IdSet(init) + {last};
    }
  }

  /** Steps on Redis by group name do to the alert part exactly what the alert protocol does. */
  lemma {:induction false} AlertStep(u: Setup, y: System, l: Label)
    requires OneAlertConsumer(u, y)
    ensures
      var view, s := AlertView(u, y, l), ToAlerts(u, y);
      ToAlerts(u, Apply(u, y, l)) == if view == [] then s else Alerts.Apply(s, view[0])
    ensures OneAlertConsumer(u, Apply(u, y, l))
  {
    hide ToAlerts, Analyzed, DoAlertRead, DoAlertAck, DoAlertDropRead, DoAlertDropAck;
    hide Alerts.DoRead, Alerts.DoAck, Alerts.DoDrop;
    match l {
      case Emit(fields) => StreamProjects(u, y, l);
      case Trim(upTo) => StreamProjects(u, y, l);
      case Analyze(m) => AnalyticsDontShow(u, y, l);
      case AlertRead(count, now) => AlertReadProjects(u, y, count, now);
      case AlertAck => AlertAckProjects(u, y);
      case AlertDropRead(now) => AlertDropReadProjects(u, y, now);
      case AlertDropAck => AlertDropAckProjects(u, y);
      case _ => AlertLocalProjects(u, y, l);
    }
  }

  lemma {:induction false} AnalyticsDontShow(u: Setup, y: System, l: Label)
    requires l.Analyze? && OneAlertConsumer(u, y)
    ensures ToAlerts(u, Apply(u, y, l)) == ToAlerts(u, y) && OneAlertConsumer(u, Apply(u, y, l))
  {
    hide Apply, AlertLog;
    SidesApart(u, y, l);
  }

  // ----- whole runs

  lemma {:induction false} AnalyticsMore(ls: seq<Analytics.Label>, view: seq<Analytics.Label>)
    requires |view| <= 1
    ensures
      var s := Analytics.Run(Analytics.Init(), ls);
      Analytics.Run(Analytics.Init(), ls + view) == if view == [] then s else Analytics.Apply(s, view[0])
  {
    hide Analytics.Apply;
    if view == [] { assert ls + view == ls; } else { assert (ls + view)[..|ls|] == ls; }
  }

  lemma {:induction false} AlertMore(ls: seq<Alerts.Label>, view: seq<Alerts.Label>)
    requires |view| <= 1
    ensures
      var s := Alerts.Run(Alerts.Init(), ls);
      Alerts.Run(Alerts.Init(), ls + view) == if view == [] then s else Alerts.Apply(s, view[0])
  {
    hide Alerts.Apply;
    if view == [] { assert ls + view == ls; } else { assert (ls + view)[..|ls|] == ls; }
  }

  lemma {:induction false} InitProjects(u: Setup)
    ensures ToAnalytics(u, Init()) == Analytics.Run(Analytics.Init(), [])
    ensures ToAlerts(u, Init()) == Alerts.Run(Alerts.Init(), [])
    ensures OneAlertConsumer(u, Init())
  {
  }

  /**
    Main result: on the shared stream each group runs its own protocol. Every interleaving
    of gateway, trimming, analytics consumers and alert consumer leaves the analytics part
    in the state the analytics protocol reaches by its own steps, and the alert part in the
    state the alert protocol reaches by its own: lag, backlog, claims and crashes of one group
    never show in the other.
   */
  lemma {:induction false} GroupsIndependent(u: Setup, labels: seq<Label>)
    ensures ToAnalytics(u, Run(u, labels)) == Analytics.Run(Analytics.Init(), AnalyticsRun(u, labels))
    ensures ToAlerts(u, Run(u, labels)) == Alerts.Run(Alerts.Init(), AlertRun(u, labels))
    ensures OneAlertConsumer(u, Run(u, labels))
  {
    hide ToAnalytics, ToAlerts, Apply, OneAlertConsumer, AnalyticsView, AlertView;
    hide Analytics.Apply, Alerts.Apply, Analytics.Run, Alerts.Run;
    if labels == [] {
      InitProjects(u);
    } else {
      var init, l := labels[..|labels| - 1], labels[|labels| - 1];
      var y := Run(u, init);
      GroupsIndependent(u, init);
      AnalyticsStep(u, y, l);
      AlertStep(u, y, l);
      OneLabelEach(u, y, l);
      AnalyticsMore(AnalyticsRun(u, init), AnalyticsView(u, l));
      AlertMore(AlertRun(u, init), AlertView(u, y, l));
    }
  }

  lemma {:induction false} OneLabelEach(u: Setup, y: System, l: Label)
    ensures |AnalyticsView(u, l)| <= 1 && |AlertView(u, y, l)| <= 1
  {
  }

  /** So runs that agree on one group's steps agree on its part of the system, whatever the other group did. */
  lemma {:induction false} OtherGroupInvisible(u: Setup, labels: seq<Label>, other: seq<Label>)
    ensures
      var y, z := Run(u, labels), Run(u, other);
      AnalyticsRun(u, labels) == AnalyticsRun(u, other) ==>
        GroupOf(y.stream, ANALYTICS) == GroupOf(z.stream, ANALYTICS) && y.analytics == z.analytics
    ensures
      var y, z := Run(u, labels), Run(u, other);
      var g, h := GroupOf(y.stream, ALERTS), GroupOf(z.stream, ALERTS);
      AlertRun(u, labels) == AlertRun(u, other) ==>
        && g.position == h.position && g.pending.Keys == h.pending.Keys
        && y.alerts.(dropPage := []) == z.alerts.(dropPage := [])
  {
    hide Run, Analytics.Run, Alerts.Run, AnalyticsRun, AlertRun, AnalyticsLog, AlertLog, OneAlertConsumer;
    GroupsIndependent(u, labels);
    GroupsIndependent(u, other);
  }

  /** An entry as the analytics group accounts for it. */
  ghost predicate CountedOrExcused(u: Setup, y: System, id: Id) {
    || Analytics.Commits(y.analytics.batches, id) > 0
    || (id < |y.stream.entries| && ParseEvent(u.conv, y.stream.entries[id]).None?)
    || id in y.analytics.cut
  }

  /**
    Main result: at-least-once counting on the shared stream. An entry the gateway added waits
    to be read, was delivered, or was trimmed before anybody read it; delivered, it is pending
    or settled; settled, it was counted, has fields that do not parse, or was trimmed while
    pending. It is counted at most once plus once per stop before XACK and per live claim.
   */
  lemma {:induction false} CountedAtLeastOnce(u: Setup, labels: seq<Label>, id: Id)
    ensures
      var y := Run(u, labels);
      var group, m := GroupOf(y.stream, ANALYTICS), y.analytics;
      && (id < |y.stream.entries| ==> id >= group.position || id in m.delivered || id < y.stream.trimmed)
      && (id in m.delivered <==> id in group.pending || id in m.acked || id in m.purged)
      && !(id in group.pending && (id in m.acked || id in m.purged)) && !(id in m.acked && id in m.purged)
      && (id in m.acked || id in m.purged ==> CountedOrExcused(u, y, id))
      && Analytics.Commits(m.batches, id) <= 1 + m.stopped[id] + m.raced[id]
      && (Analytics.Commits(m.batches, id) > 0 ==>
            id in m.delivered && id < |y.stream.entries| && ParseEvent(u.conv, y.stream.entries[id]).Some?)
  {
    hide Run, Analytics.Run, Analytics.Commits, AnalyticsRun, AlertRun, ParseEvent, ToAlerts, OneAlertConsumer;
    GroupsIndependent(u, labels);
    AnalyticsSafety.AtLeastOnce(AnalyticsRun(u, labels), id);
    DeliveryDuplicates.DuplicatesPaidFor(AnalyticsRun(u, labels), id);
  }

  /**
    Main result: at-most-once detection on the shared stream. Each entry is scanned at most
    once over every crash and restart, only if its fields parse for the alert consumer, and an
    acknowledged entry was scanned, does not parse, or was dropped at a restart.
   */
  lemma {:induction false} ScannedAtMostOnce(u: Setup, labels: seq<Label>, id: Id)
    ensures
      var y := Run(u, labels);
      var group, m := GroupOf(y.stream, ALERTS), y.alerts;
      var parses := id < |y.stream.entries| && ParseAlertEvent(u.conv, y.stream.entries[id]).Some?;
      && multiset(m.scanned)[id] <= 1
      && (id in m.delivered <==> id in group.pending || id in m.acked) && !(id in group.pending && id in m.acked)
      && (id in m.acked ==> id in m.scanned || !parses || id in m.dropped)
      && (id in m.scanned ==> id in m.delivered && parses)
  {
    hide Run, Alerts.Run, AnalyticsRun, AlertRun, ParseAlertEvent, ToAnalytics, OneAlertConsumer;
    GroupsIndependent(u, labels);
    Alerts.AtMostOnce(AlertRun(u, labels), id);
  }
}
