/**
  The request_metrics table and the incrementing upsert that merges batch rows into
  it. The table is characterised in closed form by the batches committed so far.
 */
module MetricsTable {
  import opened Prelude
  import opened Aggregate

  datatype Metric = Metric(
    total: int, status2xx: int, status4xx: int, status5xx: int, blocked: int,
    p50: Option<real>, p99: Option<real>)
  {
    function Column(col: Column): int {
      match col
      case Total => total
      case Status2xx => status2xx
      case Status4xx => status4xx
      case Status5xx => status5xx
      case Blocked => blocked
      case Samples => total - blocked
    }

    function Quantile(q: Quantile): Option<real> {
      match q
      case P50 => p50
      case P99 => p99
    }
  }

  type Table = map<Key, Metric>

  /** NULL when there is no sample. */
  function PercentileOrNull(lats: seq<real>, q: Quantile): Option<real> {
    if lats == [] then None else Some(Percentile(lats, q))
  }

  /** AggregatedRow.as_tuple, without the key columns. */
  function AsTuple(row: Row): Metric {
    Metric(row.total, row.status2xx, row.status4xx, row.status5xx, row.blocked,
           PercentileOrNull(row.latencies, P50), PercentileOrNull(row.latencies, P99))
  }

  function Coalesce(p: Option<real>): real {
    if p.Some? then p.value else 0.0
  }

  /** Count-weighted average of two percentiles; NULLIF turns a zero divisor into NULL. */
  function MergePercentile(p: Option<real>, n: int, p': Option<real>, n': int): Option<real> {
    if n + n' == 0 then None
    else Some((Coalesce(p) * n as real + Coalesce(p') * n' as real) / (n + n') as real)
  }

  /** The DO UPDATE clause. */
  function Merge(row: Metric, excluded: Metric): Metric {
    var n, n' := row.total - row.blocked, excluded.total - excluded.blocked;
    Metric(row.total + excluded.total,
           row.status2xx + excluded.status2xx,
           row.status4xx + excluded.status4xx,
           row.status5xx + excluded.status5xx,
           row.blocked + excluded.blocked,
           MergePercentile(row.p50, n, excluded.p50, n'),
           MergePercentile(row.p99, n, excluded.p99, n'))
  }

  function Upsert(table: Table, k: Key, values: Metric): Table {
    table[k := if k in table then Merge(table[k], values) else values]
  }

  /** The row a batch contributes to key `k`. */
  function MetricOf(events: seq<Event>, k: Key): Metric {
    Metric(Count(events, k, Total), Count(events, k, Status2xx), Count(events, k, Status4xx),
           Count(events, k, Status5xx), Count(events, k, Blocked),
           PercentileOrNull(Latencies(events, k), P50), PercentileOrNull(Latencies(events, k), P99))
  }

  function KeysOf(events: seq<Event>): set<Key> {
    set e | e in events :: KeyOf(e)
  }

  /** The table after one committed batch, key by key. */
  function Commit(table: Table, events: seq<Event>): Table {
    map k | k in table.Keys + KeysOf(events) ::
      if k !in KeysOf(events) then table[k]
      else if k in table then Merge(table[k], MetricOf(events, k))
      else MetricOf(events, k)
  }

  /** The first rows of `order` have been upserted into `table`, giving `table'`. */
  ghost predicate UpsertedUpTo(table: Table, rows: map<Key, Row>, done: seq<Key>, table': Table) {
    && (forall k :: k in table' <==> k in table || k in done)
    && (forall k :: k in done ==> k in rows)
    && (forall k :: k in table' && k !in done ==> table'[k] == table[k])
    && (forall k :: k in done && k in table ==> table'[k] == Merge(table[k], AsTuple(rows[k])))
    && (forall k :: k in done && k !in table ==> table'[k] == AsTuple(rows[k]))
  }

  lemma {:induction false} UpsertNext(table: Table, rows: map<Key, Row>, done: seq<Key>, table': Table, k: Key)
    requires UpsertedUpTo(table, rows, done, table') && k !in done && k in rows
    ensures UpsertedUpTo(table, rows, done + [k], Upsert(table', k, AsTuple(rows[k])))
  {
  }

  lemma {:induction false} NothingUpserted(table: Table, rows: map<Key, Row>)
    ensures UpsertedUpTo(table, rows, [], table)
  {
  }

  lemma {:induction false} OrderListsRows(order: seq<Key>, rows: map<Key, Row>, events: seq<Event>)
    requires IsGroupBy(order, rows, events)
    ensures forall i :: 0 <= i < |order| ==> order[i] in rows && order[i] !in order[..i]
  {
    hide HasKey, RowMatches;
    forall i | 0 <= i < |order| ensures order[i] in rows && order[i] !in order[..i] {
      assert order[i] in order;
    }
  }

  /**
    flush_batch up to the commit: aggregate, then upsert the rows one after the other. When
    the aggregation raises, nothing is written.
   */
  method WriteBatch(table: Table, events: seq<Event>) returns (ok: bool, table': Table)
    ensures ok <==> AllDatable(events)
    ensures table' == if ok then Commit(table, events) else table
  {
    hide Commit, Upsert, AsTuple, IsGroupBy, GroupedByHand, UpsertedUpTo, AllDatable;
    var order, rows;
    ok, order, rows := AggregateByBucket(events);
    if !ok { return false, table; }
    OrderListsRows(order, rows, events);
    table' := table;
    NothingUpserted(table, rows);
    assert order[..0] == [];
    for i := 0 to |order|
      invariant UpsertedUpTo(table, rows, order[..i], table')
    {
      var k := order[i];
      UpsertNext(table, rows, order[..i], table', k);
      assert order[..i + 1] == order[..i] + [k];
      table' := Upsert(table', k, AsTuple(rows[k]));
    }
    assert order[..|order|] == order;
    UpsertedAllIsCommit(table, order, rows, events, table');
  }

  lemma {:induction false} UpsertedAllIsCommit(
    table: Table, order: seq<Key>, rows: map<Key, Row>, events: seq<Event>, table': Table)
    requires IsGroupBy(order, rows, events) && UpsertedUpTo(table, rows, order, table')
    ensures table' == Commit(table, events)
  {
    hide Merge, MetricOf, AsTuple, RowMatches, HasKey, KeysOf;
    GroupByIsMetricOf(order, rows, events);
  }

  lemma {:induction false} GroupByIsMetricOf(order: seq<Key>, rows: map<Key, Row>, events: seq<Event>)
    requires IsGroupBy(order, rows, events)
    ensures rows.Keys == KeysOf(events)
    ensures forall k :: k in rows ==> AsTuple(rows[k]) == MetricOf(events, k)
  {
    hide Count, Latencies, PercentileOrNull, KeysOf, HasKey;
    forall k ensures k in rows <==> k in KeysOf(events) { KeysOfHasKey(events, k); }
    forall k | k in rows ensures AsTuple(rows[k]) == MetricOf(events, k) {
      assert Cell(rows[k], Total) == Count(events, k, Total);
      assert Cell(rows[k], Status2xx) == Count(events, k, Status2xx);
      assert Cell(rows[k], Status4xx) == Count(events, k, Status4xx);
      assert Cell(rows[k], Status5xx) == Count(events, k, Status5xx);
      assert Cell(rows[k], Blocked) == Count(events, k, Blocked);
    }
  }

  lemma {:induction false} KeysOfHasKey(events: seq<Event>, k: Key)
    ensures k in KeysOf(events) <==> HasKey(events, k)
    ensures k in KeysOf(events) <==> Count(events, k, Total) > 0
  {
    ColumnLaws(events, k);
    if HasKey(events, k) {
      var i :| 0 <= i < |events| && KeyOf(events[i]) == k;
      assert events[i] in events;
    }
  }

  // ----- closed form over every sequence of batches

  /** The table after committing the batches in order, from empty. */
  function CommitAll(batches: seq<seq<Event>>): Table {
    if batches == [] then map[]
    else Commit(CommitAll(batches[..|batches| - 1]), batches[|batches| - 1])
  }

  /** `n` samples, each counted at `x`. */
  function Scale(x: real, n: nat): real {
    if n == 0 then 0.0 else Scale(x, n - 1) + x
  }

  lemma {:induction false} ScaleIsProduct(x: real, n: nat)
    ensures Scale(x, n) == x * n as real
  {
    if n > 0 {
      ScaleIsProduct(x, n - 1);
      assert x * n as real == x * (n - 1) as real + x;
    }
  }

  lemma {:induction false} ScaleAdd(x: real, n: nat, m: nat)
    ensures Scale(x, n + m) == Scale(x, n) + Scale(x, m)
  {
    if m > 0 { ScaleAdd(x, n, m - 1); }
  }

  /** Scaling by a positive count is strictly increasing. */
  lemma {:induction false} ScaleOrder(x: real, y: real, n: nat)
    ensures x <= y ==> Scale(x, n) <= Scale(y, n)
    ensures x < y && n > 0 ==> Scale(x, n) < Scale(y, n)
  {
    if n > 0 { ScaleOrder(x, y, n - 1); }
  }

  /** What one batch adds to the weighted percentile sum of a key. */
  function Weighted(k: Key, q: Quantile): seq<Event> -> real {
    (events: seq<Event>) =>
      var lats := Latencies(events, k);
      if lats == [] then 0.0 else Scale(Percentile(lats, q), |lats|)
  }

  /** `p` is the average `s / n`; NULL when there is nothing to average. */
  predicate IsAverage(p: Option<real>, s: real, n: nat) {
    if n == 0 then p.None? && s == 0.0 else p.Some? && Scale(p.value, n) == s
  }

  /** `p` is the sample-count-weighted average of the batch percentiles of key `k`. */
  ghost predicate IsWeightedAverage(p: Option<real>, batches: seq<seq<Event>>, k: Key, q: Quantile) {
    IsAverage(p, Sum(batches, Weighted(k, q)), Count(Flat(batches), k, Samples))
  }

  /** `m` is the closed-form row of key `k` for the given batches. */
  ghost predicate Describes(m: Metric, batches: seq<seq<Event>>, k: Key) {
    && (forall col :: m.Column(col) == Count(Flat(batches), k, col))
    && (forall q :: IsWeightedAverage(m.Quantile(q), batches, k, q))
  }

  /**
    Main result: aggregate-then-upsert is a homomorphism. However the events were cut
    into batches, there is a row exactly for the keys that occurred, each counter is the
    plain count over all committed events, and each percentile is the weighted average.
   */
  lemma {:induction false} TableIsGroupBy(batches: seq<seq<Event>>, k: Key)
    ensures k in CommitAll(batches) <==> Count(Flat(batches), k, Total) > 0
    ensures k in CommitAll(batches) ==> Describes(CommitAll(batches)[k], batches, k)
  {
    if batches != [] {
      hide Count, Flat, Commit, Describes;
      var init, last := batches[..|batches| - 1], batches[|batches| - 1];
      assert batches == init + [last];
      TableIsGroupBy(init, k);
      CommitDescribes(CommitAll(init), init, last, k);
    }
  }

  /** The same table counted by hand: every committed event has its row, and the counters are plain counts. */
  lemma {:induction false} TableByHand(batches: seq<seq<Event>>)
    ensures
      var table, events := CommitAll(batches), Flat(batches);
      && (forall i :: 0 <= i < |events| ==> HasRow(table.Keys, events[i]))
      && (forall k :: k in table ==>
            var m := table[k];
            m.total > 0 && CountsByHand(m.total, m.status2xx, m.status4xx, m.status5xx, m.blocked, events, k))
  {
    hide Count, Flat, CommitAll, CountsByHand, InRow;
    var table, events := CommitAll(batches), Flat(batches);
    forall i | 0 <= i < |events| ensures HasRow(table.Keys, events[i]) {
      var k := KeyOf(events[i]);
      KeyIsRow(events[i], k);
      assert HasKey(events, k);
      OccurringKeyCounts(events, k);
      TableIsGroupBy(batches, k);
    }
    forall k | k in table
      ensures
        var m := table[k];
        m.total > 0 && CountsByHand(m.total, m.status2xx, m.status4xx, m.status5xx, m.blocked, events, k)
    {
      TableIsGroupBy(batches, k);
      CountsAreByHand(events, k);
      ColumnsOf(table[k], batches, k);
    }
  }

  lemma {:induction false} ColumnsOf(m: Metric, batches: seq<seq<Event>>, k: Key)
    requires Describes(m, batches, k)
    ensures m.total == Count(Flat(batches), k, Total) && m.blocked == Count(Flat(batches), k, Blocked)
    ensures m.status2xx == Count(Flat(batches), k, Status2xx) && m.status4xx == Count(Flat(batches), k, Status4xx)
    ensures m.status5xx == Count(Flat(batches), k, Status5xx)
  {
    hide Count, Flat, IsWeightedAverage;
    assert m.Column(Total) == m.total && m.Column(Blocked) == m.blocked && m.Column(Status2xx) == m.status2xx;
    assert m.Column(Status4xx) == m.status4xx && m.Column(Status5xx) == m.status5xx;
  }

  lemma {:induction false} CommitDescribes(before: Table, init: seq<seq<Event>>, last: seq<Event>, k: Key)
    requires k in before <==> Count(Flat(init), k, Total) > 0
    requires k in before ==> Describes(before[k], init, k)
    ensures k in Commit(before, last) <==> Count(Flat(init + [last]), k, Total) > 0
    ensures k in Commit(before, last) ==> Describes(Commit(before, last)[k], init + [last], k)
  {
    FlatSnoc(init, last);
    CountConcat(Flat(init), last, k, Total);
    KeysOfHasKey(last, k);
    if k in KeysOf(last) {
      if k in before {
        MergeDescribes(before[k], init, last, k);
      } else {
        FirstBatch(init, last, k);
      }
    } else if k in before {
      QuietBatch(before[k], init, last, k);
    }
  }

  lemma {:induction false} MetricOfColumns(events: seq<Event>, k: Key)
    ensures forall col :: MetricOf(events, k).Column(col) == Count(events, k, col)
  {
    ColumnLaws(events, k);
  }

  lemma {:induction false} CoalesceScale(p: Option<real>, s: real, n: nat)
    requires IsAverage(p, s, n)
    ensures Coalesce(p) * n as real == s
  {
    if n > 0 { ScaleIsProduct(p.value, n); }
  }

  lemma {:induction false} MergeAverage(p: Option<real>, s: real, n: nat, p': Option<real>, s': real, n': nat)
    requires IsAverage(p, s, n) && IsAverage(p', s', n')
    ensures IsAverage(MergePercentile(p, n, p', n'), s + s', n + n')
  {
    hide Scale, Coalesce;
    CoalesceScale(p, s, n);
    CoalesceScale(p', s', n');
    if n + n' != 0 {
      assert MergePercentile(p, n, p', n').value == (s + s') / (n + n') as real;
      ScaleQuotient(s + s', n + n');
    }
  }

  lemma {:induction false} ScaleQuotient(s: real, n: nat)
    requires n > 0
    ensures Scale(s / n as real, n) == s
  {
    ScaleIsProduct(s / n as real, n);
  }

  lemma {:induction false} AverageUnique(p: Option<real>, p': Option<real>, s: real, n: nat)
    requires IsAverage(p, s, n) && IsAverage(p', s, n)
    ensures p == p'
  {
    if n > 0 {
      ScaleOrder(p.value, p'.value, n);
      ScaleOrder(p'.value, p.value, n);
    }
  }

  lemma {:induction false} BatchAverage(events: seq<Event>, k: Key, q: Quantile)
    ensures IsAverage(MetricOf(events, k).Quantile(q), Weighted(k, q)(events), Count(events, k, Samples))
  {
  }

  lemma {:induction false} SnocAverage(init: seq<seq<Event>>, last: seq<Event>, k: Key, q: Quantile)
    ensures Sum(init + [last], Weighted(k, q)) == Sum(init, Weighted(k, q)) + Weighted(k, q)(last)
    ensures Count(Flat(init + [last]), k, Samples) == Count(Flat(init), k, Samples) + Count(last, k, Samples)
  {
    FlatSnoc(init, last);
    CountConcat(Flat(init), last, k, Samples);
    SumSnoc(init, last, Weighted(k, q));
  }

  lemma {:induction false} NoSamplesNoWeight(batches: seq<seq<Event>>, k: Key, q: Quantile)
    requires Count(Flat(batches), k, Samples) == 0
    ensures Sum(batches, Weighted(k, q)) == 0.0
  {
    if batches != [] {
      var init, last := batches[..|batches| - 1], batches[|batches| - 1];
      CountConcat(Flat(init), last, k, Samples);
      NoSamplesNoWeight(init, k, q);
    }
  }

  lemma {:induction false} QuietBatch(m: Metric, init: seq<seq<Event>>, last: seq<Event>, k: Key)
    requires Describes(m, init, k) && Count(last, k, Total) == 0
    ensures Describes(m, init + [last], k)
  {
    forall col ensures m.Column(col) == Count(Flat(init + [last]), k, col) {
      FlatSnoc(init, last);
      CountAtMostTotal(last, k, col);
      CountConcat(Flat(init), last, k, col);
    }
    CountAtMostTotal(last, k, Samples);
    forall q ensures IsWeightedAverage(m.Quantile(q), init + [last], k, q) {
      SnocAverage(init, last, k, q);
      assert IsWeightedAverage(m.Quantile(q), init, k, q);
    }
  }

  lemma {:induction false} FirstBatch(init: seq<seq<Event>>, last: seq<Event>, k: Key)
    requires Count(Flat(init), k, Total) == 0
    ensures Describes(MetricOf(last, k), init + [last], k)
  {
    var row := MetricOf(last, k);
    MetricOfColumns(last, k);
    forall col ensures row.Column(col) == Count(Flat(init + [last]), k, col) {
      FlatSnoc(init, last);
      CountAtMostTotal(Flat(init), k, col);
      CountConcat(Flat(init), last, k, col);
    }
    CountAtMostTotal(Flat(init), k, Samples);
    forall q ensures IsWeightedAverage(row.Quantile(q), init + [last], k, q) {
      NoSamplesNoWeight(init, k, q);
      SnocAverage(init, last, k, q);
      BatchAverage(last, k, q);
    }
  }

  lemma {:induction false} MergeColumns(m: Metric, row: Metric)
    ensures forall col :: Merge(m, row).Column(col) == m.Column(col) + row.Column(col)
    ensures forall q :: Merge(m, row).Quantile(q)
                     == MergePercentile(m.Quantile(q), m.Column(Samples), row.Quantile(q), row.Column(Samples))
  {
  }

  lemma {:induction false} MergeDescribes(m: Metric, init: seq<seq<Event>>, last: seq<Event>, k: Key)
    requires Describes(m, init, k)
    ensures Describes(Merge(m, MetricOf(last, k)), init + [last], k)
  {
    var row := MetricOf(last, k);
    MetricOfColumns(last, k);
    MergeColumns(m, row);
    forall col ensures Merge(m, row).Column(col) == Count(Flat(init + [last]), k, col) {
      FlatSnoc(init, last);
      CountConcat(Flat(init), last, k, col);
      assert m.Column(col) == Count(Flat(init), k, col);
    }
    assert m.Column(Samples) == Count(Flat(init), k, Samples);
    forall q ensures IsWeightedAverage(Merge(m, row).Quantile(q), init + [last], k, q) {
      assert IsWeightedAverage(m.Quantile(q), init, k, q);
      BatchAverage(last, k, q);
      MergeWeightedAverage(m.Quantile(q), init, row.Quantile(q), last, k, q);
    }
  }

  lemma {:induction false} MergeWeightedAverage(
    p: Option<real>, init: seq<seq<Event>>, p': Option<real>, last: seq<Event>, k: Key, q: Quantile)
    requires IsWeightedAverage(p, init, k, q)
    requires IsAverage(p', Weighted(k, q)(last), Count(last, k, Samples))
    ensures
      var merged := MergePercentile(p, Count(Flat(init), k, Samples), p', Count(last, k, Samples));
      IsWeightedAverage(merged, init + [last], k, q)
  {
    hide Sum, Count, Flat, Weighted, IsAverage, MergePercentile;
    SnocAverage(init, last, k, q);
    MergeAverage(p, Sum(init, Weighted(k, q)), Count(Flat(init), k, Samples),
                 p', Weighted(k, q)(last), Count(last, k, Samples));
  }

  // ----- consequences for the stored rows

  /** Row laws of every stored row: sample count, status classes, and NULL percentiles. */
  lemma {:induction false} StoredRowLaws(batches: seq<seq<Event>>, k: Key)
    requires k in CommitAll(batches)
    ensures
      var row := CommitAll(batches)[k];
      && row.total - row.blocked == Count(Flat(batches), k, Samples)
      && row.status2xx + row.status4xx + row.status5xx <= row.total
      && row.total > 0
      && (forall q :: row.Quantile(q).None? <==> Count(Flat(batches), k, Samples) == 0)
  {
    TableIsGroupBy(batches, k);
    var row := CommitAll(batches)[k];
    assert row.Column(Total) == Count(Flat(batches), k, Total);
    assert row.Column(Blocked) == Count(Flat(batches), k, Blocked);
    assert row.Column(Status2xx) == Count(Flat(batches), k, Status2xx);
    assert row.Column(Status4xx) == Count(Flat(batches), k, Status4xx);
    assert row.Column(Status5xx) == Count(Flat(batches), k, Status5xx);
    ColumnLaws(Flat(batches), k);
    forall q ensures row.Quantile(q).None? <==> Count(Flat(batches), k, Samples) == 0 {
      assert IsWeightedAverage(row.Quantile(q), batches, k, q);
    }
  }

  ghost predicate LatenciesWithin(events: seq<Event>, k: Key, lo: real, hi: real) {
    forall i :: 0 <= i < |events| && KeyOf(events[i]) == k && !events[i].rateLimited
      ==> lo <= events[i].latencyMs <= hi
  }

  lemma {:induction false} LatencyRange(events: seq<Event>, k: Key, lo: real, hi: real)
    requires LatenciesWithin(events, k, lo, hi)
    ensures forall x :: x in Latencies(events, k) ==> lo <= x <= hi
  {
    if events != [] {
      var init := events[..|events| - 1];
      assert forall i :: 0 <= i < |init| ==> init[i] == events[i];
      LatencyRange(init, k, lo, hi);
      assert events == init + [events[|events| - 1]];
    }
  }

  /** Range of one batch's contribution, and the order of its two percentiles. */
  lemma {:induction false} BatchWeightRange(events: seq<Event>, k: Key, lo: real, hi: real)
    requires LatenciesWithin(events, k, lo, hi)
    ensures
      var n := Count(events, k, Samples);
      Scale(lo, n) <= Weighted(k, P50)(events) <= Weighted(k, P99)(events) <= Scale(hi, n)
  {
    var lats := Latencies(events, k);
    LatencyRange(events, k, lo, hi);
    if lats != [] {
      PercentileOrder(lats);
      var x, y := Percentile(lats, P50), Percentile(lats, P99);
      assert x in lats && y in lats;
      ScaleOrder(lo, x, |lats|);
      ScaleOrder(x, y, |lats|);
      ScaleOrder(y, hi, |lats|);
    }
  }

  lemma {:induction false} WithinParts(a: seq<Event>, b: seq<Event>, k: Key, lo: real, hi: real)
    requires LatenciesWithin(a + b, k, lo, hi)
    ensures LatenciesWithin(a, k, lo, hi) && LatenciesWithin(b, k, lo, hi)
  {
    assert forall i :: 0 <= i < |a| ==> a[i] == (a + b)[i];
    assert forall i :: 0 <= i < |b| ==> b[i] == (a + b)[|a| + i];
  }

  ghost predicate WeightsWithin(batches: seq<seq<Event>>, k: Key, lo: real, hi: real) {
    var n := Count(Flat(batches), k, Samples);
    Scale(lo, n) <= Sum(batches, Weighted(k, P50)) <= Sum(batches, Weighted(k, P99)) <= Scale(hi, n)
  }

  lemma {:induction false} WeightRangeSnoc(init: seq<seq<Event>>, last: seq<Event>, k: Key, lo: real, hi: real)
    requires WeightsWithin(init, k, lo, hi) && LatenciesWithin(last, k, lo, hi)
    ensures WeightsWithin(init + [last], k, lo, hi)
  {
    hide Sum, Count, Flat, Weighted, Scale;
    BatchWeightRange(last, k, lo, hi);
    SnocAverage(init, last, k, P50);
    SnocAverage(init, last, k, P99);
    ScaleAdd(lo, Count(Flat(init), k, Samples), Count(last, k, Samples));
    ScaleAdd(hi, Count(Flat(init), k, Samples), Count(last, k, Samples));
  }

  lemma {:induction false} WeightRange(batches: seq<seq<Event>>, k: Key, lo: real, hi: real)
    requires LatenciesWithin(Flat(batches), k, lo, hi)
    ensures WeightsWithin(batches, k, lo, hi)
  {
    if batches != [] {
      var init, last := batches[..|batches| - 1], batches[|batches| - 1];
      assert batches == init + [last];
      WithinParts(Flat(init), last, k, lo, hi);
      WeightRange(init, k, lo, hi);
      WeightRangeSnoc(init, last, k, lo, hi);
    }
  }

  /** Stored percentiles lie between the smallest and largest unblocked latency, and p50 <= p99. */
  lemma {:induction false} StoredPercentileRange(batches: seq<seq<Event>>, k: Key, lo: real, hi: real)
    requires LatenciesWithin(Flat(batches), k, lo, hi)
    requires k in CommitAll(batches) && Count(Flat(batches), k, Samples) > 0
    ensures
      var row := CommitAll(batches)[k];
      row.p50.Some? && row.p99.Some? && lo <= row.p50.value <= row.p99.value <= hi
  {
    TableIsGroupBy(batches, k);
    var row, n := CommitAll(batches)[k], Count(Flat(batches), k, Samples);
    WeightRange(batches, k, lo, hi);
    assert IsWeightedAverage(row.Quantile(P50), batches, k, P50);
    assert IsWeightedAverage(row.Quantile(P99), batches, k, P99);
    ScaleOrder(row.p50.value, lo, n);
    ScaleOrder(row.p99.value, row.p50.value, n);
    ScaleOrder(hi, row.p99.value, n);
  }

  function BatchCount(k: Key, col: Column): seq<Event> -> real {
    (events: seq<Event>) => Count(events, k, col) as real
  }

  lemma {:induction false} FlatCountIsSum(batches: seq<seq<Event>>, k: Key, col: Column)
    ensures Count(Flat(batches), k, col) as real == Sum(batches, BatchCount(k, col))
  {
    if batches != [] {
      var init, last := batches[..|batches| - 1], batches[|batches| - 1];
      FlatCountIsSum(init, k, col);
      CountConcat(Flat(init), last, k, col);
    }
  }

  /** The whole table, percentiles included, is the same in whatever order the batches landed. */
  lemma {:induction false} BatchOrderIrrelevant(batches: seq<seq<Event>>, permuted: seq<seq<Event>>)
    requires multiset(batches) == multiset(permuted)
    ensures CommitAll(batches) == CommitAll(permuted)
  {
    var t, t' := CommitAll(batches), CommitAll(permuted);
    forall k ensures k in t <==> k in t' {
      SameCounts(batches, permuted, k);
      TableIsGroupBy(batches, k);
      TableIsGroupBy(permuted, k);
    }
    forall k | k in t ensures t[k] == t'[k] {
      SameRow(batches, permuted, k);
    }
  }

  lemma {:induction false} SameCounts(batches: seq<seq<Event>>, permuted: seq<seq<Event>>, k: Key)
    requires multiset(batches) == multiset(permuted)
    ensures forall col :: Count(Flat(batches), k, col) == Count(Flat(permuted), k, col)
  {
    forall col ensures Count(Flat(batches), k, col) == Count(Flat(permuted), k, col) {
      FlatCountIsSum(batches, k, col);
      FlatCountIsSum(permuted, k, col);
      SumPermutation(batches, permuted, BatchCount(k, col));
    }
  }

  lemma {:induction false} SameRow(batches: seq<seq<Event>>, permuted: seq<seq<Event>>, k: Key)
    requires multiset(batches) == multiset(permuted)
    requires k in CommitAll(batches) && k in CommitAll(permuted)
    ensures CommitAll(batches)[k] == CommitAll(permuted)[k]
  {
    TableIsGroupBy(batches, k);
    TableIsGroupBy(permuted, k);
    SameCounts(batches, permuted, k);
    var row, row' := CommitAll(batches)[k], CommitAll(permuted)[k];
    forall col ensures row.Column(col) == row'.Column(col) {
      assert row.Column(col) == Count(Flat(batches), k, col);
    }
    forall q ensures row.Quantile(q) == row'.Quantile(q) {
      SumPermutation(batches, permuted, Weighted(k, q));
      assert IsWeightedAverage(row.Quantile(q), batches, k, q);
      assert IsWeightedAverage(row'.Quantile(q), permuted, k, q);
      AverageUnique(row.Quantile(q), row'.Quantile(q), Sum(batches, Weighted(k, q)), Count(Flat(batches), k, Samples));
    }
    ColumnsDetermine(row, row');
  }

  lemma {:induction false} ColumnsDetermine(row: Metric, row': Metric)
    requires forall col :: row.Column(col) == row'.Column(col)
    requires forall q :: row.Quantile(q) == row'.Quantile(q)
    ensures row == row'
  {
    assert row.Column(Total) == row'.Column(Total);
    assert row.Column(Status2xx) == row'.Column(Status2xx);
    assert row.Column(Status4xx) == row'.Column(Status4xx);
    assert row.Column(Status5xx) == row'.Column(Status5xx);
    assert row.Column(Blocked) == row'.Column(Blocked);
    assert row.Quantile(P50) == row'.Quantile(P50);
    assert row.Quantile(P99) == row'.Quantile(P99);
  }

  /** Counters do not even see batch boundaries: only the multiset of events matters. */
  lemma {:induction false} CountersIgnoreBatching(batches: seq<seq<Event>>, regrouped: seq<seq<Event>>, k: Key)
    requires multiset(Flat(batches)) == multiset(Flat(regrouped))
    ensures k in CommitAll(batches) <==> k in CommitAll(regrouped)
    ensures k in CommitAll(batches) ==>
      forall col :: CommitAll(batches)[k].Column(col) == CommitAll(regrouped)[k].Column(col)
  {
    TableIsGroupBy(batches, k);
    TableIsGroupBy(regrouped, k);
    forall col ensures Count(Flat(batches), k, col) == Count(Flat(regrouped), k, col) {
      CountPermutation(Flat(batches), Flat(regrouped), k, col);
    }
  }

  /** The upsert is not idempotent: committing any non-empty batch again always changes the table. */
  lemma {:induction false} ReplayIsCountedAgain(table: Table, events: seq<Event>)
    ensures Commit(Commit(table, events), events) == Commit(table, events) <==> events == []
  {
    if events == [] {
      assert Commit(table, events) == table;
    } else {
      var k := KeyOf(events[0]);
      assert events[0] in events;
      KeysOfHasKey(events, k);
      var once := Commit(table, events);
      var twice := Commit(once, events);
      assert twice[k] == Merge(once[k], MetricOf(events, k));
      assert twice[k].total == once[k].total + Count(events, k, Total);
    }
  }
}
