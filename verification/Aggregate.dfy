/**
  The pure half of the analytics consumer: parsing, minute buckets, nearest-rank
  percentiles, and collapsing a batch of events into one row per key.
 */
module Aggregate {
  import opened Prelude

  type Fields = map<string, string>

  datatype Event = Event(
    tenant: string, endpoint: string, verb: string, status: int,
    latencyMs: real, rateLimited: bool, timestampMs: int)

  /** Python's text-to-number conversions; `None` stands for ValueError. */
  datatype Conversions = Conversions(toInt: string -> Option<int>, toFloat: string -> Option<real>)

  /** parse_event: a missing field or a field that does not convert makes the entry poison. */
  function ParseEvent(conv: Conversions, fields: Fields): (r: Option<Event>)
  {
    if "tenant_id" !in fields || "endpoint" !in fields || "method" !in fields || "status_code" !in fields
       || "latency_ms" !in fields || "rate_limited" !in fields || "timestamp_ms" !in fields then None
    else
      var status := conv.toInt(fields["status_code"]);
      var latency := conv.toFloat(fields["latency_ms"]);
      var limited := conv.toInt(fields["rate_limited"]);
      var stamp := conv.toInt(fields["timestamp_ms"]);
      if status.None? || latency.None? || limited.None? || stamp.None? then None
      else Some(Event(fields["tenant_id"], fields["endpoint"], fields["method"], status.value,
                      latency.value, limited.value != 0, stamp.value))
  }

  /** The entry is not poison exactly when its seven fields are there and its four numbers convert. */
  lemma {:induction false} ParsesIff(conv: Conversions, fields: Fields)
    ensures ParseEvent(conv, fields).Some? <==>
      && "tenant_id" in fields && "endpoint" in fields && "method" in fields && "status_code" in fields
      && "latency_ms" in fields && "rate_limited" in fields && "timestamp_ms" in fields
      && conv.toInt(fields["status_code"]).Some? && conv.toFloat(fields["latency_ms"]).Some?
      && conv.toInt(fields["rate_limited"]).Some? && conv.toInt(fields["timestamp_ms"]).Some?
    ensures ParseEvent(conv, fields).Some? ==>
      var e := ParseEvent(conv, fields).value;
      && e.tenant == fields["tenant_id"] && e.endpoint == fields["endpoint"] && e.verb == fields["method"]
      && Some(e.status) == conv.toInt(fields["status_code"]) && Some(e.latencyMs) == conv.toFloat(fields["latency_ms"])
      && Some(e.timestampMs) == conv.toInt(fields["timestamp_ms"])
      && (e.rateLimited <==> conv.toInt(fields["rate_limited"]) != Some(0))
  {
  }

  /** Python's str() on numbers. */
  datatype Shows = Shows(ofInt: int -> string, ofFloat: real -> string)

  /** RequestEvent.to_redis_fields; `rest` are the fields this consumer does not read. */
  function ToRedisFields(show: Shows, e: Event, rest: Fields): Fields {
    rest + map["tenant_id" := e.tenant, "endpoint" := e.endpoint, "method" := e.verb,
               "status_code" := show.ofInt(e.status), "latency_ms" := show.ofFloat(e.latencyMs),
               "rate_limited" := show.ofInt(if e.rateLimited then 1 else 0),
               "timestamp_ms" := show.ofInt(e.timestampMs)]
  }

  /** The conversions read back what str() wrote for the four numbers of this event. */
  predicate ReadsBack(conv: Conversions, show: Shows, e: Event) {
    && conv.toInt(show.ofInt(e.status)) == Some(e.status)
    && conv.toFloat(show.ofFloat(e.latencyMs)) == Some(e.latencyMs)
    && conv.toInt(show.ofInt(if e.rateLimited then 1 else 0)) == Some(if e.rateLimited then 1 else 0)
    && conv.toInt(show.ofInt(e.timestampMs)) == Some(e.timestampMs)
  }

  /** What the gateway emits parses back to the same event; the same entry trimmed to nothing is poison. */
  lemma {:induction false} EventRoundTrip(conv: Conversions, show: Shows, e: Event, rest: Fields)
    requires ReadsBack(conv, show, e)
    ensures ParseEvent(conv, ToRedisFields(show, e, rest)) == Some(e)
    ensures ParseEvent(conv, map[]) == None
  {
  }

  /** The bucket is identified by the whole minutes since the epoch, rounded down. */
  function MinuteBucket(timestampMs: int): (minute: int)
    ensures minute * 60_000 <= timestampMs < (minute + 1) * 60_000
  {
    timestampMs / 60_000
  }

  /** The years 1 to 9999: outside them minute_bucket raises instead of returning a bucket. */
  predicate Datable(timestampMs: int) {
    -62_135_596_800_000 <= timestampMs < 253_402_300_800_000
  }

  predicate AllDatable(events: seq<Event>) {
    forall i :: 0 <= i < |events| ==> Datable(events[i].timestampMs)
  }

  datatype Key = Key(bucket: int, tenant: string, endpoint: string, verb: string)

  function KeyOf(e: Event): Key {
    Key(MinuteBucket(e.timestampMs), e.tenant, e.endpoint, e.verb)
  }

  // ----- what a batch contributes to a key, stated without the loop

  datatype Column = Total | Status2xx | Status4xx | Status5xx | Blocked | Samples

  predicate Hits(col: Column, e: Event) {
    match col
    case Total => true
    case Status2xx => 200 <= e.status < 300
    case Status4xx => 400 <= e.status < 500
    case Status5xx => e.status >= 500
    case Blocked => e.rateLimited
    case Samples => !e.rateLimited
  }

  /** How many events of the batch fall on key `k` and hit column `col`. */
  function Count(events: seq<Event>, k: Key, col: Column): nat {
    if events == [] then 0
    else
      var e := events[|events| - 1];
      Count(events[..|events| - 1], k, col) + if KeyOf(e) == k && Hits(col, e) then 1 else 0
  }

  /** The latencies of the unblocked events of key `k`, in arrival order. */
  function Latencies(events: seq<Event>, k: Key): (lats: seq<real>)
    ensures |lats| == Count(events, k, Samples)
  {
    if events == [] then []
    else
      var e := events[|events| - 1];
      Latencies(events[..|events| - 1], k) + if KeyOf(e) == k && !e.rateLimited then [e.latencyMs] else []
  }

  ghost predicate HasKey(events: seq<Event>, k: Key) {
    exists i :: 0 <= i < |events| && KeyOf(events[i]) == k
  }

  lemma {:induction false} CountSnoc(events: seq<Event>, e: Event, k: Key, col: Column)
    ensures Count(events + [e], k, col) == Count(events, k, col) + if KeyOf(e) == k && Hits(col, e) then 1 else 0
  {
  }

  lemma {:induction false} LatenciesSnoc(events: seq<Event>, e: Event, k: Key)
    ensures Latencies(events + [e], k)
         == Latencies(events, k) + if KeyOf(e) == k && !e.rateLimited then [e.latencyMs] else []
  {
  }

  /** Counting turns concatenation into addition. */
  lemma {:induction false} CountConcat(a: seq<Event>, b: seq<Event>, k: Key, col: Column)
    ensures Count(a + b, k, col) == Count(a, k, col) + Count(b, k, col)
  {
    if b == [] {
      assert a + b == a;
    } else {
      var init, last := b[..|b| - 1], b[|b| - 1];
      assert a + b == (a + init) + [last];
      CountSnoc(a + init, last, k, col);
      CountConcat(a, init, k, col);
    }
  }

  function Indicator(k: Key, col: Column): Event -> real {
    (e: Event) => if KeyOf(e) == k && Hits(col, e) then 1.0 else 0.0
  }

  lemma {:induction false} CountIsSum(events: seq<Event>, k: Key, col: Column)
    ensures Count(events, k, col) as real == Sum(events, Indicator(k, col))
  {
    if events != [] { CountIsSum(events[..|events| - 1], k, col); }
  }

  /** Counting depends only on the multiset of events. */
  lemma {:induction false} CountPermutation(a: seq<Event>, b: seq<Event>, k: Key, col: Column)
    requires multiset(a) == multiset(b)
    ensures Count(a, k, col) == Count(b, k, col)
  {
    CountIsSum(a, k, col);
    CountIsSum(b, k, col);
    SumPermutation(a, b, Indicator(k, col));
  }

  /** Every event either is blocked or gives one latency sample; the status classes never overlap. */
  lemma {:induction false} ColumnLaws(events: seq<Event>, k: Key)
    ensures Count(events, k, Total) - Count(events, k, Blocked) == Count(events, k, Samples)
    ensures Count(events, k, Status2xx) + Count(events, k, Status4xx) + Count(events, k, Status5xx)
         <= Count(events, k, Total)
    ensures Count(events, k, Total) > 0 <==> HasKey(events, k)
  {
    if events != [] {
      var init, last := events[..|events| - 1], events[|events| - 1];
      ColumnLaws(init, k);
      assert events == init + [last];
      HasKeySnoc(init, last, k);
    }
  }

  // ----- aggregate_by_bucket

  datatype Row = Row(total: nat, status2xx: nat, status4xx: nat, status5xx: nat, blocked: nat, latencies: seq<real>)

  function Cell(row: Row, col: Column): nat {
    match col
    case Total => row.total
    case Status2xx => row.status2xx
    case Status4xx => row.status4xx
    case Status5xx => row.status5xx
    case Blocked => row.blocked
    case Samples => |row.latencies|
  }

  /** The row holds exactly what the events contribute to `k`. */
  ghost predicate RowMatches(row: Row, events: seq<Event>, k: Key) {
    && (forall col :: Cell(row, col) == Count(events, k, col))
    && row.latencies == Latencies(events, k)
  }

  /** The dictionary `rows` (insertion order kept in `order`) is the group-by of `events`. */
  ghost predicate IsGroupBy(order: seq<Key>, rows: map<Key, Row>, events: seq<Event>) {
    && NoDup(order)
    && (forall k :: k in order <==> k in rows)
    && (forall k :: k in rows <==> HasKey(events, k))
    && (forall k :: k in rows ==> RowMatches(rows[k], events, k))
  }

  lemma {:induction false} AbsentKeyCounts(events: seq<Event>, k: Key)
    requires !HasKey(events, k)
    ensures forall col :: Count(events, k, col) == 0
    ensures Latencies(events, k) == []
  {
    ColumnLaws(events, k);
    forall col ensures Count(events, k, col) == 0 { CountAtMostTotal(events, k, col); }
  }

  lemma {:induction false} CountAtMostTotal(events: seq<Event>, k: Key, col: Column)
    ensures Count(events, k, col) <= Count(events, k, Total)
  {
    if events != [] { CountAtMostTotal(events[..|events| - 1], k, col); }
  }

  /** Adding one event to its row: the body of the loop in aggregate_by_bucket. */
  function AddEvent(row: Row, e: Event): Row {
    var r := row.(total := row.total + 1);
    var r := if e.rateLimited then r.(blocked := r.blocked + 1) else r.(latencies := r.latencies + [e.latencyMs]);
    if 200 <= e.status < 300 then r.(status2xx := r.status2xx + 1)
    else if 400 <= e.status < 500 then r.(status4xx := r.status4xx + 1)
    else if e.status >= 500 then r.(status5xx := r.status5xx + 1)
    else r
  }

  lemma {:induction false} AddEventMatches(row: Row, events: seq<Event>, e: Event, k: Key)
    requires RowMatches(row, events, k) && KeyOf(e) == k
    ensures RowMatches(AddEvent(row, e), events + [e], k)
  {
    forall col ensures Cell(AddEvent(row, e), col) == Count(events + [e], k, col) {
      CountSnoc(events, e, k, col);
      assert Cell(row, col) == Count(events, k, col);
    }
    LatenciesSnoc(events, e, k);
  }

  lemma {:induction false} OtherRowMatches(row: Row, events: seq<Event>, e: Event, k: Key)
    requires RowMatches(row, events, k) && KeyOf(e) != k
    ensures RowMatches(row, events + [e], k)
  {
  }

  lemma {:induction false} HasKeySnoc(events: seq<Event>, e: Event, k: Key)
    ensures HasKey(events + [e], k) <==> HasKey(events, k) || KeyOf(e) == k
  {
    var more := events + [e];
    assert more[|events|] == e;
    if HasKey(events, k) {
      var i :| 0 <= i < |events| && KeyOf(events[i]) == k;
      assert more[i] == events[i];
    }
  }

  lemma {:induction false} GroupByStep(order: seq<Key>, rows: map<Key, Row>, events: seq<Event>, e: Event)
    requires IsGroupBy(order, rows, events)
    ensures
      var k := KeyOf(e);
      var row := if k in rows then rows[k] else Row(0, 0, 0, 0, 0, []);
      IsGroupBy(if k in rows then order else order + [k], rows[k := AddEvent(row, e)], events + [e])
  {
    var k := KeyOf(e);
    var row := if k in rows then rows[k] else Row(0, 0, 0, 0, 0, []);
    var rows' := rows[k := AddEvent(row, e)];
    if k !in rows { AbsentKeyCounts(events, k); }
    AddEventMatches(row, events, e, k);
    forall x ensures x in rows' <==> HasKey(events + [e], x) { HasKeySnoc(events, e, x); }
    forall x | x in rows' ensures RowMatches(rows'[x], events + [e], x) {
      if x != k { OtherRowMatches(rows[x], events, e, x); }
    }
  }

  // ----- the group-by by hand, without the key and column functions of the loop

  /** The event belongs to the row with key `k`: same tenant, endpoint and method, in that minute. */
  predicate InRow(e: Event, k: Key) {
    && e.tenant == k.tenant && e.endpoint == k.endpoint && e.verb == k.verb
    && k.bucket * 60_000 <= e.timestampMs < (k.bucket + 1) * 60_000
  }

  ghost predicate HasRow(keys: set<Key>, e: Event) {
    exists k :: k in keys && InRow(e, k)
  }

  /** Where in the batch the events with property `p` are. */
  function Positions(events: seq<Event>, p: Event -> bool): set<nat> {
    set i: nat | i < |events| && p(events[i])
  }

  function Latency(events: seq<Event>): seq<real> {
    seq(|events|, i requires 0 <= i < |events| => events[i].latencyMs)
  }

  /** The five counters of a row are plain counts of the events in it. */
  ghost predicate CountsByHand(
    total: int, status2xx: int, status4xx: int, status5xx: int, blocked: int, events: seq<Event>, k: Key) {
    && total == |Positions(events, (e: Event) => InRow(e, k))|
    && status2xx == |Positions(events, (e: Event) => InRow(e, k) && 200 <= e.status < 300)|
    && status4xx == |Positions(events, (e: Event) => InRow(e, k) && 400 <= e.status < 500)|
    && status5xx == |Positions(events, (e: Event) => InRow(e, k) && 500 <= e.status)|
    && blocked == |Positions(events, (e: Event) => InRow(e, k) && e.rateLimited)|
  }

  /** The counters, and the latencies of the unblocked events in order. */
  ghost predicate RowByHand(row: Row, events: seq<Event>, k: Key) {
    && CountsByHand(row.total, row.status2xx, row.status4xx, row.status5xx, row.blocked, events, k)
    && row.latencies == Latency(Select<Event>(events, (e: Event) => InRow(e, k) && !e.rateLimited))
  }

  /** Every event has its row, and every row counts at least one event and just its own. */
  ghost predicate GroupedByHand(rows: map<Key, Row>, events: seq<Event>) {
    && (forall i :: 0 <= i < |events| ==> HasRow(rows.Keys, events[i]))
    && (forall k :: k in rows ==> rows[k].total > 0 && RowByHand(rows[k], events, k))
  }

  /** No event belongs to two rows. */
  lemma {:induction false} RowIsUnique(e: Event, k: Key, k': Key)
    requires InRow(e, k) && InRow(e, k')
    ensures k == k'
  {
  }

  lemma {:induction false} KeyIsRow(e: Event, k: Key)
    ensures KeyOf(e) == k <==> InRow(e, k)
  {
    var m := MinuteBucket(e.timestampMs);
    assert m * 60_000 <= e.timestampMs < (m + 1) * 60_000;
  }

  lemma {:induction false} PositionsSnoc(events: seq<Event>, e: Event, p: Event -> bool)
    ensures |Positions(events + [e], p)| == |Positions(events, p)| + if p(e) then 1 else 0
  {
    var all, n := events + [e], |events|;
    assert all[n] == e && forall i :: 0 <= i < n ==> all[i] == events[i];
    assert Positions(all, p) == Positions(events, p) + if p(e) then {n} else {};
  }

  lemma {:induction false} CountIsPositions(events: seq<Event>, k: Key, col: Column, p: Event -> bool)
    requires forall e :: p(e) <==> InRow(e, k) && Hits(col, e)
    ensures Count(events, k, col) == |Positions(events, p)|
  {
    if events == [] {
      assert Positions(events, p) == {};
    } else {
      hide Hits, InRow, KeyOf;
      var init, e := events[..|events| - 1], events[|events| - 1];
      assert events == init + [e];
      CountIsPositions(init, k, col, p);
      KeyIsRow(e, k);
      PositionsSnoc(init, e, p);
    }
  }

  /** The counters of the loop are those of the batch by hand. */
  lemma {:induction false} CountsAreByHand(events: seq<Event>, k: Key)
    ensures CountsByHand(Count(events, k, Total), Count(events, k, Status2xx), Count(events, k, Status4xx),
                         Count(events, k, Status5xx), Count(events, k, Blocked), events, k)
  {
    hide InRow, Count;
    CountIsPositions(events, k, Total, (e: Event) => InRow(e, k));
    CountIsPositions(events, k, Status2xx, (e: Event) => InRow(e, k) && 200 <= e.status < 300);
    CountIsPositions(events, k, Status4xx, (e: Event) => InRow(e, k) && 400 <= e.status < 500);
    CountIsPositions(events, k, Status5xx, (e: Event) => InRow(e, k) && 500 <= e.status);
    CountIsPositions(events, k, Blocked, (e: Event) => InRow(e, k) && e.rateLimited);
  }

  lemma {:induction false} LatenciesByHand(events: seq<Event>, k: Key)
    ensures Latencies(events, k) == Latency(Select<Event>(events, (e: Event) => InRow(e, k) && !e.rateLimited))
  {
    if events != [] {
      hide InRow, KeyOf;
      var init, e := events[..|events| - 1], events[|events| - 1];
      LatenciesByHand(init, k);
      KeyIsRow(e, k);
      var kept := Select<Event>(init, (e: Event) => InRow(e, k) && !e.rateLimited);
      assert Latency(kept + [e]) == Latency(kept) + [e.latencyMs];
    }
  }

  lemma {:induction false} GroupByIsByHand(order: seq<Key>, rows: map<Key, Row>, events: seq<Event>)
    requires IsGroupBy(order, rows, events)
    ensures GroupedByHand(rows, events)
  {
    hide Count, Latencies, InRow, RowByHand;
    forall i | 0 <= i < |events| ensures HasRow(rows.Keys, events[i]) {
      var k := KeyOf(events[i]);
      KeyIsRow(events[i], k);
      assert HasKey(events, k);
    }
    forall k | k in rows ensures rows[k].total > 0 && RowByHand(rows[k], events, k) {
      RowIsByHand(rows[k], events, k);
      OccurringKeyCounts(events, k);
    }
  }

  lemma {:induction false} RowIsByHand(row: Row, events: seq<Event>, k: Key)
    requires RowMatches(row, events, k)
    ensures RowByHand(row, events, k) && row.total == Count(events, k, Total)
  {
    hide Count, Latencies, InRow, CountsByHand;
    CountsAreByHand(events, k);
    LatenciesByHand(events, k);
    assert Cell(row, Total) == Count(events, k, Total) && Cell(row, Status2xx) == Count(events, k, Status2xx);
    assert Cell(row, Status4xx) == Count(events, k, Status4xx) && Cell(row, Status5xx) == Count(events, k, Status5xx);
    assert Cell(row, Blocked) == Count(events, k, Blocked);
  }

  lemma {:induction false} OccurringKeyCounts(events: seq<Event>, k: Key)
    requires HasKey(events, k)
    ensures Count(events, k, Total) > 0
  {
    var i :| 0 <= i < |events| && KeyOf(events[i]) == k;
    if i < |events| - 1 {
      assert events[..|events| - 1][i] == events[i];
      OccurringKeyCounts(events[..|events| - 1], k);
    }
  }

  lemma {:induction false} EmptyGroupBy()
    ensures IsGroupBy([], map[], [])
  {
  }

  /**
    aggregate_by_bucket: one row per key present, each the exact group-by of the batch. It
    raises (`ok` is false) exactly if some timestamp has no date.
   */
  method AggregateByBucket(events: seq<Event>) returns (ok: bool, order: seq<Key>, rows: map<Key, Row>)
    ensures ok <==> AllDatable(events)
    ensures ok <==> forall i :: 0 <= i < |events| ==>
                      -62_135_596_800_000 <= events[i].timestampMs < 253_402_300_800_000
    ensures ok ==> IsGroupBy(order, rows, events) && GroupedByHand(rows, events)
  {
    hide GroupedByHand, KeyOf, AddEvent, IsGroupBy;
    ok, order, rows := true, [], map[];
    EmptyGroupBy();
    assert events[..0] == [];
    for i := 0 to |events|
      invariant ok && IsGroupBy(order, rows, events[..i])
      invariant forall j :: 0 <= j < i ==> Datable(events[j].timestampMs)
    {
      var e := events[i];
      if !Datable(e.timestampMs) { return false, [], map[]; }
      var k := KeyOf(e);
      GroupByStep(order, rows, events[..i], e);
      assert events[..i + 1] == events[..i] + [e];
      var row := if k in rows then rows[k] else Row(0, 0, 0, 0, 0, []);
      if k !in rows { order := order + [k]; }
      rows := rows[k := AddEvent(row, e)];
    }
    assert events[..|events|] == events;
    GroupByIsByHand(order, rows, events);
  }

  // ----- percentiles

  function Insert(x: real, sorted: seq<real>): seq<real> {
    if sorted == [] || x <= sorted[0] then [x] + sorted
    else [sorted[0]] + Insert(x, sorted[1..])
  }

  /** Python's `sorted`. */
  function Sorted(xs: seq<real>): (r: seq<real>)
    ensures |r| == |xs|
  {
    if xs == [] then [] else var rest := Sorted(xs[1..]); InsertLength(xs[0], rest); Insert(xs[0], rest)
  }

  lemma InsertLength(x: real, s: seq<real>)
    ensures |Insert(x, s)| == |s| + 1
  {
  }

  ghost predicate Ascending(s: seq<real>) {
    forall i, j :: 0 <= i <= j < |s| ==> s[i] <= s[j]
  }

  lemma {:induction false} InsertMultiset(x: real, s: seq<real>)
    ensures multiset(Insert(x, s)) == multiset(s) + multiset{x}
  {
    if s != [] && x > s[0] {
      InsertMultiset(x, s[1..]);
      assert s == [s[0]] + s[1..];
    }
  }

  lemma {:induction false} InsertAscending(x: real, s: seq<real>)
    requires Ascending(s)
    ensures Ascending(Insert(x, s))
  {
    if s != [] && x > s[0] {
      InsertAscending(x, s[1..]);
      InsertAbove(x, s[1..], s[0]);
      AscendingCons(s[0], Insert(x, s[1..]));
    } else if s != [] {
      AscendingCons(x, s);
    }
  }

  lemma {:induction false} AscendingCons(x: real, s: seq<real>)
    requires Ascending(s) && forall j :: 0 <= j < |s| ==> x <= s[j]
    ensures Ascending([x] + s)
  {
  }

  lemma {:induction false} InsertAbove(x: real, s: seq<real>, low: real)
    requires low <= x && forall j :: 0 <= j < |s| ==> low <= s[j]
    ensures forall j :: 0 <= j < |Insert(x, s)| ==> low <= Insert(x, s)[j]
  {
    if s != [] && x > s[0] { InsertAbove(x, s[1..], low); }
  }

  lemma {:induction false} SortedIsSorted(xs: seq<real>)
    ensures Ascending(Sorted(xs)) && multiset(Sorted(xs)) == multiset(xs)
  {
    if xs != [] {
      SortedIsSorted(xs[1..]);
      InsertAscending(xs[0], Sorted(xs[1..]));
      InsertMultiset(xs[0], Sorted(xs[1..]));
      assert xs == [xs[0]] + xs[1..];
    }
  }

  datatype Quantile = P50 | P99

  function Percent(q: Quantile): int {
    match q
    case P50 => 50
    case P99 => 99
  }

  /** ceil(p * n), the 1-based nearest rank. */
  function Rank(q: Quantile, n: nat): (r: int)
    ensures 100 * r >= Percent(q) * n > 100 * (r - 1)
    ensures n > 0 ==> 1 <= r <= n
  {
    (Percent(q) * n + 99) / 100
  }

  /** percentile over an already sorted, non-empty list. */
  function PercentileOfSorted(sorted: seq<real>, q: Quantile): real
    requires sorted != []
  {
    var rank := Rank(q, |sorted|);
    sorted[if rank - 1 > 0 then rank - 1 else 0]
  }

  function Percentile(lats: seq<real>, q: Quantile): real
    requires lats != []
  {
    PercentileOfSorted(Sorted(lats), q)
  }

  function CountBelow(xs: seq<real>, v: real, orEqual: bool): nat {
    if xs == [] then 0
    else CountBelow(xs[1..], v, orEqual) + if xs[0] < v || (orEqual && xs[0] == v) then 1 else 0
  }

  lemma {:induction false} CountBelowInsert(x: real, s: seq<real>, v: real, orEqual: bool)
    ensures CountBelow(Insert(x, s), v, orEqual) == CountBelow([x] + s, v, orEqual)
  {
    assert ([x] + s)[1..] == s;
    if s != [] && x > s[0] {
      CountBelowInsert(x, s[1..], v, orEqual);
      assert ([x] + s[1..])[1..] == s[1..];
      var tail := Insert(x, s[1..]);
      assert ([s[0]] + tail)[1..] == tail;
    }
  }

  lemma {:induction false} CountBelowSorted(xs: seq<real>, v: real, orEqual: bool)
    ensures CountBelow(Sorted(xs), v, orEqual) == CountBelow(xs, v, orEqual)
  {
    if xs != [] {
      CountBelowSorted(xs[1..], v, orEqual);
      CountBelowInsert(xs[0], Sorted(xs[1..]), v, orEqual);
      assert ([xs[0]] + Sorted(xs[1..]))[1..] == Sorted(xs[1..]);
    }
  }

  lemma {:induction false} CountBelowAscending(s: seq<real>, i: nat, v: real)
    requires Ascending(s) && i < |s| && s[i] == v
    ensures CountBelow(s, v, true) >= i + 1 && CountBelow(s, v, false) <= i
  {
    if i == 0 {
      NoneBelow(s, v);
    } else {
      CountBelowAscending(s[1..], i - 1, v);
    }
  }

  lemma {:induction false} NoneBelow(s: seq<real>, v: real)
    requires forall i :: 0 <= i < |s| ==> s[i] >= v
    ensures CountBelow(s, v, false) == 0
  {
    if s != [] { NoneBelow(s[1..], v); }
  }

  /**
    What nearest rank means, with no mention of sorting: the value is one of the
    samples, at least p*n samples are at or below it, and fewer than p*n are below it.
   */
  ghost predicate IsNearestRank(lats: seq<real>, q: Quantile, v: real) {
    && v in lats
    && 100 * CountBelow(lats, v, true) >= Percent(q) * |lats|
    && 100 * CountBelow(lats, v, false) < Percent(q) * |lats|
  }

  lemma {:induction false} PercentileIsNearestRank(lats: seq<real>, q: Quantile)
    requires lats != []
    ensures IsNearestRank(lats, q, Percentile(lats, q))
  {
    var s := Sorted(lats);
    SortedIsSorted(lats);
    var i := Rank(q, |s|) - 1;
    var v := s[i];
    assert v in multiset(s);
    CountBelowAscending(s, i, v);
    CountBelowSorted(lats, v, true);
    CountBelowSorted(lats, v, false);
  }

  lemma {:induction false} CountBelowMonotone(xs: seq<real>, u: real, v: real)
    requires u < v
    ensures CountBelow(xs, u, true) <= CountBelow(xs, v, false)
  {
    if xs != [] { CountBelowMonotone(xs[1..], u, v); }
  }

  /** The nearest-rank value is unique, so it does not depend on the order of the samples. */
  lemma {:induction false} NearestRankUnique(lats: seq<real>, q: Quantile, u: real, v: real)
    requires IsNearestRank(lats, q, u) && IsNearestRank(lats, q, v)
    ensures u == v
  {
    if u < v { CountBelowMonotone(lats, u, v); }
    if v < u { CountBelowMonotone(lats, v, u); }
  }

  lemma {:induction false} PercentileOrder(lats: seq<real>)
    requires lats != []
    ensures Percentile(lats, P50) <= Percentile(lats, P99)
    ensures forall q :: Percentile(lats, q) in lats
  {
    SortedIsSorted(lats);
    var s := Sorted(lats);
    assert Rank(P50, |s|) <= Rank(P99, |s|);
    forall q ensures Percentile(lats, q) in lats { PercentileIsNearestRank(lats, q); }
  }

  // ----- percentiles by hand

  /** How many samples are at most, or below, `v`. */
  function AtMost(lats: seq<real>, v: real): set<nat> { set i: nat | i < |lats| && lats[i] <= v }
  function Below(lats: seq<real>, v: real): set<nat> { set i: nat | i < |lats| && lats[i] < v }

  lemma {:induction false} ShiftedCount(a: set<nat>, b: set<nat>, first: bool)
    requires forall i: nat :: i in a <==> (i == 0 && first) || (i > 0 && i - 1 in b)
    ensures |a| == |b| + if first then 1 else 0
    decreases |b|
  {
    if b == {} {
      assert a == if first then {0} else {};
    } else {
      var x :| x in b;
      ShiftedCount(a - {x + 1}, b - {x}, first);
      assert a == (a - {x + 1}) + {x + 1} && b == (b - {x}) + {x};
    }
  }

  lemma {:induction false} CountBelowIsSet(lats: seq<real>, v: real)
    ensures CountBelow(lats, v, true) == |AtMost(lats, v)| && CountBelow(lats, v, false) == |Below(lats, v)|
  {
    if lats == [] {
      assert AtMost(lats, v) == {} && Below(lats, v) == {};
    } else {
      CountBelowIsSet(lats[1..], v);
      ShiftedCount(AtMost(lats, v), AtMost(lats[1..], v), lats[0] <= v);
      ShiftedCount(Below(lats, v), Below(lats[1..], v), lats[0] < v);
    }
  }

  /** The median has half of the samples at or below it and less than half below; p99 likewise with 99 of 100. */
  lemma {:induction false} PercentilesByHand(lats: seq<real>)
    requires lats != []
    ensures
      var v := Percentile(lats, P50);
      v in lats && 2 * |AtMost(lats, v)| >= |lats| && 2 * |Below(lats, v)| < |lats|
    ensures
      var v := Percentile(lats, P99);
      v in lats && 100 * |AtMost(lats, v)| >= 99 * |lats| && 100 * |Below(lats, v)| < 99 * |lats|
  {
    hide Percentile, CountBelow, AtMost, Below;
    PercentileIsNearestRank(lats, P50);
    PercentileIsNearestRank(lats, P99);
    CountBelowIsSet(lats, Percentile(lats, P50));
    CountBelowIsSet(lats, Percentile(lats, P99));
  }
}
