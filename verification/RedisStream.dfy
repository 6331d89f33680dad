/**
  The Redis stream that both consumer groups share: one sequence of entries, one trim point,
  and by group name a position and a pending list.
 */
module RedisStream {
  import opened Prelude
  import opened Aggregate
  import opened Delivery

  type GroupName = string

  datatype Group = Group(position: nat, pending: map<Id, Delivered>)

  datatype Stream = Stream(entries: seq<Fields>, trimmed: nat, groups: map<GroupName, Group>)

  const EMPTY := Stream([], 0, map[])

  /** A group is created at id 0, so one nobody has used yet is at the start of the stream. */
  function GroupOf(st: Stream, g: GroupName): Group {
    if g in st.groups then st.groups[g] else Group(0, map[])
  }

  function With(st: Stream, g: GroupName, group: Group): Stream {
    st.(groups := st.groups[g := group])
  }

  /** What a reader gets for an entry: a trimmed one has no fields. */
  function FieldsAt(st: Stream, id: Id): Fields {
    if st.trimmed <= id < |st.entries| then st.entries[id] else map[]
  }

  function Xadd(st: Stream, fields: Fields): Stream {
    st.(entries := st.entries + [fields])
  }

  function Xtrim(st: Stream, upTo: nat): Stream {
    st.(trimmed := Min(Max(st.trimmed, upTo), |st.entries|))
  }

  /** XREADGROUP ">": the next entries after the group's position, now pending for the reader. */
  function XreadNew(st: Stream, g: GroupName, c: Name, count: nat, now: int): (Stream, seq<Id>) {
    var group := GroupOf(st, g);
    var lo := Max(group.position, st.trimmed);
    var hi := Min(lo + count, |st.entries|);
    if hi <= lo then (st, [])
    else
      var ids := Range(lo, hi);
      (With(st, g, Group(hi, group.pending + (map id | id in ids :: Delivered(c, now)))), ids)
  }

  /** XREADGROUP "0": the reader's own pending entries; those still in the stream count as delivered again. */
  function XreadOwn(st: Stream, g: GroupName, c: Name, count: nat, now: int): (Stream, seq<Id>) {
    var group := GroupOf(st, g);
    var own := Owned(group.pending, c, |st.entries|);
    var ids: seq<Id> := own[..Min(count, |own|)];
    (With(st, g, group.(pending := Redeliver(group.pending, Select<Id>(ids, Retained(st.trimmed)), c, now))), ids)
  }

  function Xack(st: Stream, g: GroupName, ids: set<Id>): Stream {
    var group := GroupOf(st, g);
    With(st, g, group.(pending := group.pending - ids))
  }

  /** Entries one XAUTOCLAIM can deal with: pending ones that are idle or no longer in the stream. */
  predicate Takeable(st: Stream, g: GroupName, ids: seq<Id>, now: int) {
    var pending := GroupOf(st, g).pending;
    && |ids| <= XAUTOCLAIM_COUNT
    && (forall i, j :: 0 <= i < j < |ids| ==> ids[i] < ids[j])
    && (forall id :: id in ids ==> id in pending)
    && (forall id :: id in ids && st.trimmed <= id ==> now - pending[id].at >= XAUTOCLAIM_IDLE_MS)
  }

  /** XAUTOCLAIM of the given idle or vanished entries; it yields the ones it took over. */
  function Xautoclaim(st: Stream, g: GroupName, c: Name, ids: seq<Id>, now: int): (Stream, seq<Id>) {
    var group := GroupOf(st, g);
    var kept := Select<Id>(ids, Retained(st.trimmed));
    var gone := set id | id in ids && id < st.trimmed;
    (With(st, g, group.(pending := Redeliver(group.pending - gone, kept, c, now))), kept)
  }

  /** The entries, the trim point and every other group are as they were. */
  ghost predicate OnlyGroup(st: Stream, st': Stream, g: GroupName) {
    && st'.entries == st.entries && st'.trimmed == st.trimmed
    && (forall h :: h != g ==> GroupOf(st', h) == GroupOf(st, h))
  }

  /** Commands on one group are invisible in every other. */
  lemma {:induction false} CommandsTouchOneGroup(
    st: Stream, g: GroupName, c: Name, count: nat, now: int, ids: seq<Id>, acks: set<Id>)
    ensures OnlyGroup(st, XreadNew(st, g, c, count, now).0, g)
    ensures OnlyGroup(st, XreadOwn(st, g, c, count, now).0, g)
    ensures OnlyGroup(st, Xack(st, g, acks), g)
    ensures OnlyGroup(st, Xautoclaim(st, g, c, ids, now).0, g)
  {
    hide Owned, Select, Redeliver, Range;
  }

  /** Appending and trimming move no group's position and no pending list. */
  lemma {:induction false} StreamKeepsGroups(st: Stream, fields: Fields, upTo: nat)
    ensures forall g :: GroupOf(Xadd(st, fields), g) == GroupOf(st, g)
    ensures forall g :: GroupOf(Xtrim(st, upTo), g) == GroupOf(st, g)
  {
  }
}
