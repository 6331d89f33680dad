/**
  The analytics delivery protocol: a Redis Streams consumer group drained into the
  metrics table by write-then-ACK. Any number of consumers crash, restart and claim
  each other's entries; every interleaving is a sequence of labels.
 */
module Delivery {
  import opened Prelude
  import opened Aggregate
  import opened MetricsTable

  type Id = nat
  type Name = string

  const XAUTOCLAIM_IDLE_MS := 30_000
  const XAUTOCLAIM_COUNT := 500

  /** One row of the pending entries list. */
  datatype Delivered = Delivered(owner: Name, at: int)

  /**
    A page of messages inside flush_batch: first only read (`Held`), then committed to
    the table but not yet acknowledged (`Written`). `valid` are the ids whose fields
    parsed; `main` marks a flush of the main loop's batch.
   */
  datatype Page =
    | NoPage
    | Held(ids: seq<Id>, valid: seq<Id>)
    | Written(ids: seq<Id>, valid: seq<Id>, main: bool)

  /** A consumer process. `batchIds` and `batch` are the main loop's two lists. */
  datatype Proc =
    | Down
    | Up(recovering: bool, batchIds: seq<Id>, batch: seq<Id>, page: Page)

  /**
    Redis, the table and every process. The last eight fields are history: nothing the
    consumers do depends on them.
   */
  datatype State = State(
    log: seq<Option<Event>>,     // every entry ever appended, as parse_event reads its fields
    trimmed: nat,                // entries below this id are gone from the stream
    lastDelivered: nat,          // the group's position: ids below are never read with ">"
    pending: map<Id, Delivered>,
    procs: map<Name, Proc>,
    table: Table,
    delivered: set<Id>,
    acked: set<Id>,
    purged: set<Id>,             // dropped from the pending list by XAUTOCLAIM, entry gone
    batches: seq<seq<Id>>,       // the ids of every committed transaction
    cut: set<Id>,                // trimmed from the stream while pending
    emptied: set<Id>,            // read back from the pending list with no fields
    stopped: multiset<Id>,       // once per process stopped between the entry's commit and its XACK
    raced: multiset<Id>)         // once per claim while a live process still held it in memory

  datatype Label =
    | Append(entry: Option<Event>)
    | Trim(upTo: nat)
    | ReadNew(c: Name, count: nat, now: int)
    | ReadOwn(c: Name, count: nat, now: int)
    | Claim(c: Name, ids: seq<Id>, now: int)
    | CommitPage(c: Name)
    | CommitBatch(c: Name)
    | Ack(c: Name)
    | Crash(c: Name)
    | Restart(c: Name)

  function Init(): State {
    State([], 0, 0, map[], map[], map[], {}, {}, {}, [], {}, {}, multiset{}, multiset{})
  }

  function ProcOf(s: State, c: Name): Proc {
    if c in s.procs then s.procs[c] else Down
  }

  function Range(lo: nat, hi: nat): seq<Id>
    requires lo <= hi
  {
    seq(hi - lo, i requires 0 <= i => lo + i)
  }

  /** The ids below `n` pending for consumer `c`, in stream order. */
  function Owned(pending: map<Id, Delivered>, c: Name, n: nat): seq<Id> {
    if n == 0 then []
    else Owned(pending, c, n - 1) + if n - 1 in pending && pending[n - 1].owner == c then [n - 1] else []
  }

  /** Still in the stream, with fields that parse; a trimmed entry reads back empty. */
  function Readable(log: seq<Option<Event>>, trimmed: nat): Id -> bool {
    (id: Id) => trimmed <= id < |log| && log[id].Some?
  }

  function Retained(trimmed: nat): Id -> bool {
    (id: Id) => trimmed <= id
  }

  function EventsOf(log: seq<Option<Event>>, ids: seq<Id>): seq<Event> {
    if ids == [] then []
    else
      var id := ids[|ids| - 1];
      EventsOf(log, ids[..|ids| - 1]) + if id < |log| && log[id].Some? then [log[id].value] else []
  }

  function IdSet(ids: seq<Id>): set<Id> {
    set id | id in ids
  }

  predicate Holds(p: Proc, id: Id) {
    p.Up? && (id in p.batchIds || (!p.page.NoPage? && id in p.page.ids))
  }

  function Redeliver(pending: map<Id, Delivered>, ids: seq<Id>, c: Name, now: int): map<Id, Delivered> {
    map id | id in pending :: if id in ids then Delivered(c, now) else pending[id]
  }

  // ----- steps; a label that is not enabled leaves the state as it is

  function DoTrim(s: State, upTo: nat): State {
    var t := Min(Max(s.trimmed, upTo), |s.log|);
    s.(trimmed := t, cut := s.cut + (set id | id in s.pending && id < t))
  }

  /** XREADGROUP ">": the next entries after the group's position, appended to the batch. */
  function DoReadNew(s: State, c: Name, count: nat, now: int): State {
    var p := ProcOf(s, c);
    var lo := Max(s.lastDelivered, s.trimmed);
    var hi := Min(lo + count, |s.log|);
    if !p.Up? || p.recovering || !p.page.NoPage? || hi <= lo then s
    else
      var ids := Range(lo, hi);
      s.(lastDelivered := hi,
         pending := s.pending + (map id | id in ids :: Delivered(c, now)),
         delivered := s.delivered + (set id | id in ids),
         procs := s.procs[c := p.(batchIds := p.batchIds + ids,
                                  batch := p.batch + Select<Id>(ids, Readable(s.log, s.trimmed)))])
  }

  /** XREADGROUP "0": a page of this consumer's own pending entries; empty ends recovery. */
  function DoReadOwn(s: State, c: Name, count: nat, now: int): State {
    var p := ProcOf(s, c);
    if !p.Up? || !p.recovering || !p.page.NoPage? || count == 0 then s
    else
      var own := Owned(s.pending, c, |s.log|);
      var ids: seq<Id> := own[..Min(count, |own|)];
      if ids == [] then s.(procs := s.procs[c := p.(recovering := false)])
      else
        s.(pending := Redeliver(s.pending, Select<Id>(ids, Retained(s.trimmed)), c, now),
           emptied := s.emptied + (set id | id in ids && id < s.trimmed),
           procs := s.procs[c := p.(page := Held(ids, Select<Id>(ids, Readable(s.log, s.trimmed))))])
  }

  /** What XAUTOCLAIM may look at: idle entries, and entries gone from the stream however fresh. */
  predicate Claimable(s: State, ids: seq<Id>, now: int) {
    && |ids| <= XAUTOCLAIM_COUNT
    && (forall i, j :: 0 <= i < j < |ids| ==> ids[i] < ids[j])
    && (forall id :: id in ids ==> id in s.pending)
    && (forall id :: id in ids && s.trimmed <= id ==> now - s.pending[id].at >= XAUTOCLAIM_IDLE_MS)
  }

  /** Those of the ids that some live process, possibly the claimer, holds in memory. */
  function HeldAmong(s: State, ids: seq<Id>): set<Id> {
    set id | id in ids && exists d :: d in s.procs && Holds(s.procs[d], id)
  }

  /** XAUTOCLAIM: takes over idle entries still in the stream and drops the ones that are gone. */
  function DoClaim(s: State, c: Name, ids: seq<Id>, now: int): State {
    var p := ProcOf(s, c);
    if !p.Up? || p.recovering || !p.page.NoPage? || !Claimable(s, ids, now) then s
    else
      var kept := Select<Id>(ids, Retained(s.trimmed));
      var gone := set id | id in ids && id < s.trimmed;
      s.(pending := Redeliver(s.pending - gone, kept, c, now),
         purged := s.purged + gone,
         raced := s.raced + multiset(HeldAmong(s, ids)),
         procs := s.procs[c := p.(page := if kept == [] then NoPage
                                          else Held(kept, Select<Id>(kept, Readable(s.log, s.trimmed))))])
  }

  /** The ids' events can be aggregated: flush_batch raises on one without a date, before it writes anything. */
  predicate Writable(log: seq<Option<Event>>, ids: seq<Id>) {
    forall i :: 0 <= i < |ids| && ids[i] < |log| && log[ids[i]].Some? ==> Datable(log[ids[i]].value.timestampMs)
  }

  /** The transaction of flush_batch, then waiting to acknowledge. */
  function Write(s: State, c: Name, p: Proc, ids: seq<Id>, valid: seq<Id>, main: bool): State
    requires p.Up?
  {
    s.(table := Commit(s.table, EventsOf(s.log, valid)),
       batches := s.batches + [valid],
       procs := s.procs[c := p.(page := Written(ids, valid, main))])
  }

  function DoCommitPage(s: State, c: Name): State {
    var p := ProcOf(s, c);
    if p.Up? && p.page.Held? && Writable(s.log, p.page.valid)
    then Write(s, c, p, p.page.ids, p.page.valid, false) else s
  }

  function DoCommitBatch(s: State, c: Name): State {
    var p := ProcOf(s, c);
    if p.Up? && !p.recovering && p.page.NoPage? && p.batchIds != [] && Writable(s.log, p.batch)
    then Write(s, c, p, p.batchIds, p.batch, true) else s
  }

  function DoAck(s: State, c: Name): State {
    var p := ProcOf(s, c);
    if !p.Up? || !p.page.Written? then s
    else
      var ids := IdSet(p.page.ids);
      s.(pending := s.pending - ids,
         acked := s.acked + ids * s.pending.Keys,
         procs := s.procs[c := if p.page.main then p.(page := NoPage, batchIds := [], batch := [])
                               else p.(page := NoPage)])
  }

  function DoCrash(s: State, c: Name): State {
    var p := ProcOf(s, c);
    if !p.Up? then s
    else
      s.(procs := s.procs[c := Down],
         stopped := s.stopped + if p.page.Written? then multiset(IdSet(p.page.ids)) else multiset{})
  }

  function DoRestart(s: State, c: Name): State {
    if ProcOf(s, c).Up? then s else s.(procs := s.procs[c := Up(true, [], [], NoPage)])
  }

  function Apply(s: State, l: Label): State {
    match l
    case Append(entry) => s.(log := s.log + [entry])
    case Trim(upTo) => DoTrim(s, upTo)
    case ReadNew(c, count, now) => DoReadNew(s, c, count, now)
    case ReadOwn(c, count, now) => DoReadOwn(s, c, count, now)
    case Claim(c, ids, now) => DoClaim(s, c, ids, now)
    case CommitPage(c) => DoCommitPage(s, c)
    case CommitBatch(c) => DoCommitBatch(s, c)
    case Ack(c) => DoAck(s, c)
    case Crash(c) => DoCrash(s, c)
    case Restart(c) => DoRestart(s, c)
  }

  function Run(s: State, labels: seq<Label>): State {
    if labels == [] then s else Apply(Run(s, labels[..|labels| - 1]), labels[|labels| - 1])
  }

  /** How often an entry has been committed to the table. */
  function Commits(batches: seq<seq<Id>>, id: Id): nat {
    multiset(Flat<Id>(batches))[id]
  }
}
