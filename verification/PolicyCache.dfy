/**
  Policy lookups through the shared Redis cache, version-guarded admin updates, and push
  invalidation. Readers, admins and listeners interleave step by step; every interleaving
  is a sequence of labels.
 */
module PolicyCache {
  import opened Prelude

  type Tenant = string
  type Route = string
  type PolicyId = string
  type Agent = string

  const CACHE_TTL_S := 10.0

  datatype Row = Row(tenant: Tenant, pattern: string, rps: int, windowS: int, version: int)
  datatype Answer = Answer(rps: int, windowS: int, version: int)
  type Rows = map<PolicyId, Row>

  /**
    The database's pattern matching is any function of the tenant's own rows and the route.
    `gap` bounds the time between a reader's database read and its cache write.
   */
  datatype Setup = Setup(pick: (Rows, Route) -> Option<Answer>, initial: Rows, gap: real)

  function OwnRows(rows: Rows, t: Tenant): Rows {
    map id | id in rows && rows[id].tenant == t :: rows[id]
  }

  /** _fetch_matching_policy: the source-of-truth answer. */
  function Lookup(u: Setup, rows: Rows, t: Tenant, r: Route): Option<Answer> {
    u.pick(OwnRows(rows, t), r)
  }

  /** The database is asked about the requested route, on exactly the tenant's own rows. */
  lemma {:induction false} LookupAsks(u: Setup, rows: Rows, t: Tenant, r: Route)
    ensures Lookup(u, rows, t, r) == u.pick(map id | id in rows && rows[id].tenant == t :: rows[id], r)
  {
    assert OwnRows(rows, t) == map id | id in rows && rows[id].tenant == t :: rows[id];
  }

  /** The cache key policy:{tenant}:{literal route}. */
  datatype Key = Key(tenant: Tenant, route: Route)

  /** The text of the key. Tenants are uuids and hold no colon. */
  function KeyText(k: Key): string {
    "policy:" + k.tenant + ":" + k.route
  }

  predicate NoColon(text: string) {
    ':' !in text
  }

  /** What SCAN's pattern asks the keys of a tenant to start with. */
  function ScanPrefix(t: Tenant): string {
    "policy:" + t + ":"
  }

  lemma {:induction false} KeyTextInjective(k: Key, k': Key)
    requires NoColon(k.tenant) && NoColon(k'.tenant) && KeyText(k) == KeyText(k')
    ensures k == k'
  {
    assert KeyText(k)[7..] == k.tenant + [':'] + k.route && KeyText(k')[7..] == k'.tenant + [':'] + k'.route;
    SplitOnce(k.tenant, k.route, k'.tenant, k'.route, ':');
  }

  /** The scan pattern policy:{tenant}: followed by a star finds exactly the tenant's keys. */
  lemma {:induction false} ScanPattern(k: Key, t: Tenant)
    requires NoColon(k.tenant) && NoColon(t)
    ensures ScanPrefix(t) <= KeyText(k) <==> k.tenant == t
  {
    var prefix, text := ScanPrefix(t), KeyText(k);
    if prefix <= text {
      var rest := text[|prefix|..];
      assert text == prefix + rest;
      assert text[7..] == t + [':'] + rest && text[7..] == k.tenant + [':'] + k.route;
      SplitOnce(t, rest, k.tenant, k.route, ':');
    }
  }

  /** A cached answer, with the database version and time it was read, and when its key appeared. */
  datatype Entry = Entry(answer: Answer, expireAt: real, born: nat, epoch: nat, readAt: real)

  datatype Reader =
    | Idle
    | Missed(key: Key)                                                  // cache missed or unreachable
    | Fetched(key: Key, answer: Answer, epoch: nat, readAt: real)       // about to fill the cache

  datatype Message = Message(tenant: Tenant, id: PolicyId, version: int)

  datatype Admin =
    | Ready
    | Locked(id: PolicyId, rps: int, expected: int)   // UPDATE matched; row locked until commit
    | Committed(msg: Message)                         // durable; about to publish

  datatype Listener =
    | Waiting
    | Scanning(tenant: Tenant, start: nat)
    | Deleting(tenant: Tenant, keys: set<Key>)

  /** The committed table and when it became current. */
  datatype Version = Version(rows: Rows, since: real)

  /** Every committed table, oldest first; there is always a current one. */
  type History = vs: seq<Version> | vs != [] witness [Version(map[], 0.0)]

  /** A policy answer handed to a request. */
  datatype Given = Given(key: Key, answer: Option<Answer>, at: real, epoch: nat, readAt: real)

  /** An update that succeeded: the version it expected, and the database version it created. */
  datatype Success = Success(tenant: Tenant, id: PolicyId, expected: int, epoch: nat)

  datatype State = State(
    clock: real,
    step: nat,
    cache: map<Key, Entry>,
    versions: History,
    locks: map<PolicyId, Agent>,
    readers: map<Agent, Reader>,
    admins: map<Agent, Admin>,
    listeners: map<Agent, Listener>,
    published: set<Message>,       // may be delivered late, repeatedly, or never
    answers: seq<Given>,           // history
    successes: seq<Success>)       // history

  datatype Label =
    | Pass(seconds: real)
    | CacheGet(a: Agent, key: Key, reachable: bool)
    | Fetch(a: Agent)
    | CacheSet(a: Agent, reachable: bool)
    | Abandon(a: Agent)
    | Update(a: Agent, tenant: Tenant, id: PolicyId, rps: int, expected: int)
    | Commit(a: Agent)
    | Rollback(a: Agent)
    | Publish(a: Agent, reachable: bool)
    | Deliver(a: Agent, msg: Message)
    | ScanEnd(a: Agent, found: set<Key>)
    | Delete(a: Agent)
    | Disconnect(a: Agent)

  function Init(u: Setup): State {
    State(0.0, 0, map[], [Version(u.initial, 0.0)], map[], map[], map[], map[], {}, [], [])
  }

  function Current(s: State): Rows {
    s.versions[|s.versions| - 1].rows
  }

  function ReaderOf(s: State, a: Agent): Reader { if a in s.readers then s.readers[a] else Idle }
  function AdminOf(s: State, a: Agent): Admin { if a in s.admins then s.admins[a] else Ready }
  function ListenerOf(s: State, a: Agent): Listener { if a in s.listeners then s.listeners[a] else Waiting }

  /** An entry is served until its TTL runs out. */
  predicate Alive(s: State, k: Key) {
    k in s.cache && s.clock <= s.cache[k].expireAt
  }

  // ----- get_policy in three steps

  function DoCacheGet(s: State, a: Agent, key: Key, reachable: bool): (s': State)
    ensures s' == s.(readers := s'.readers, answers := s'.answers)
  {
    if !ReaderOf(s, a).Idle? then s
    else if reachable && Alive(s, key) then
      var e := s.cache[key];
      s.(answers := s.answers + [Given(key, Some(e.answer), s.clock, e.epoch, e.readAt)])
    else s.(readers := s.readers[a := Missed(key)])
  }

  function DoFetch(u: Setup, s: State, a: Agent): (s': State)
    ensures s' == s.(readers := s'.readers, answers := s'.answers)
  {
    var reader := ReaderOf(s, a);
    if !reader.Missed? then s
    else
      var epoch := |s.versions| - 1;
      match Lookup(u, Current(s), reader.key.tenant, reader.key.route)
      case None => s.(readers := s.readers[a := Idle],
                      answers := s.answers + [Given(reader.key, None, s.clock, epoch, s.clock)])
      case Some(answer) => s.(readers := s.readers[a := Fetched(reader.key, answer, epoch, s.clock)])
  }

  /** The cache fill, then the return; runs only assume it comes within the gap. */
  function DoCacheSet(u: Setup, s: State, a: Agent, reachable: bool): (s': State)
    ensures s' == s.(readers := s'.readers, cache := s'.cache, answers := s'.answers)
  {
    var reader := ReaderOf(s, a);
    if !reader.Fetched? || s.clock - reader.readAt > u.gap then s
    else
      var Fetched(key, answer, epoch, readAt) := reader;
      var born := if Alive(s, key) then s.cache[key].born else s.step;
      s.(readers := s.readers[a := Idle],
         cache := if !reachable then s.cache
                  else s.cache[key := Entry(answer, s.clock + CACHE_TTL_S, born, epoch, readAt)],
         answers := s.answers + [Given(key, Some(answer), s.clock, epoch, readAt)])
  }

  // ----- update_policy

  /** The guarded UPDATE: it locks the row, waits while another transaction holds it, or matches nothing. */
  function DoUpdate(s: State, a: Agent, tenant: Tenant, id: PolicyId, rps: int, expected: int): (s': State)
    ensures s' == s.(locks := s'.locks, admins := s'.admins)
  {
    var rows := Current(s);
    if AdminOf(s, a).Ready? && id !in s.locks && id in rows && rows[id].tenant == tenant && rows[id].version == expected
    then s.(locks := s.locks[id := a], admins := s.admins[a := Locked(id, rps, expected)])
    else s
  }

  function DoCommit(s: State, a: Agent): (s': State)
    ensures s' == s.(versions := s'.versions, locks := s'.locks, admins := s'.admins, successes := s'.successes)
  {
    var admin := AdminOf(s, a);
    if !admin.Locked? || admin.id !in Current(s) then s
    else
      var row := Current(s)[admin.id];
      var rows := Current(s)[admin.id := row.(rps := admin.rps, version := row.version + 1)];
      s.(versions := s.versions + [Version(rows, s.clock)],
         locks := s.locks - {admin.id},
         admins := s.admins[a := Committed(Message(row.tenant, admin.id, row.version + 1))],
         successes := s.successes + [Success(row.tenant, admin.id, admin.expected, |s.versions|)])
  }

  function DoRollback(s: State, a: Agent): (s': State)
    ensures s' == s.(locks := s'.locks, admins := s'.admins)
  {
    var admin := AdminOf(s, a);
    if admin.Locked? then s.(locks := s.locks - {admin.id}, admins := s.admins[a := Ready]) else s
  }

  function DoPublish(s: State, a: Agent, reachable: bool): (s': State)
    ensures s' == s.(admins := s'.admins, published := s'.published)
  {
    var admin := AdminOf(s, a);
    if !admin.Committed? then s
    else s.(admins := s.admins[a := Ready], published := s.published + if reachable then {admin.msg} else {})
  }

  // ----- the invalidation listener

  function DoDeliver(s: State, a: Agent, msg: Message): (s': State)
    ensures s' == s.(listeners := s'.listeners)
  {
    if ListenerOf(s, a).Waiting? && msg in s.published
    then s.(listeners := s.listeners[a := Scanning(msg.tenant, s.step)]) else s
  }

  /** SCAN returns every key of the tenant that was present from its start to its end. */
  predicate ScanComplete(s: State, tenant: Tenant, start: nat, found: set<Key>) {
    && (forall k :: k in found ==> k.tenant == tenant)
    && (forall k :: k in s.cache && Alive(s, k) && k.tenant == tenant && s.cache[k].born <= start ==> k in found)
  }

  function DoScanEnd(s: State, a: Agent, found: set<Key>): (s': State)
    ensures s' == s.(listeners := s'.listeners)
  {
    var l := ListenerOf(s, a);
    if l.Scanning? && ScanComplete(s, l.tenant, l.start, found)
    then s.(listeners := s.listeners[a := Deleting(l.tenant, found)]) else s
  }

  function DoDelete(s: State, a: Agent): (s': State)
    ensures s' == s.(cache := s'.cache, listeners := s'.listeners)
  {
    var l := ListenerOf(s, a);
    if l.Deleting? then s.(cache := s.cache - l.keys, listeners := s.listeners[a := Waiting]) else s
  }

  function Act(u: Setup, s: State, l: Label): State {
    match l
    case Pass(seconds) => if seconds > 0.0 then s.(clock := s.clock + seconds) else s
    case CacheGet(a, key, reachable) => DoCacheGet(s, a, key, reachable)
    case Fetch(a) => DoFetch(u, s, a)
    case CacheSet(a, reachable) => DoCacheSet(u, s, a, reachable)
    case Abandon(a) => s.(readers := s.readers[a := Idle])
    case Update(a, tenant, id, rps, expected) => DoUpdate(s, a, tenant, id, rps, expected)
    case Commit(a) => DoCommit(s, a)
    case Rollback(a) => DoRollback(s, a)
    case Publish(a, reachable) => DoPublish(s, a, reachable)
    case Deliver(a, msg) => DoDeliver(s, a, msg)
    case ScanEnd(a, found) => DoScanEnd(s, a, found)
    case Delete(a) => DoDelete(s, a)
    case Disconnect(a) => s.(listeners := s.listeners[a := Waiting])
  }

  /** Every label takes one step. */
  function Ticked(s: State): State {
    s.(step := s.step + 1)
  }

  function Apply(u: Setup, s: State, l: Label): State {
    Ticked(Act(u, s, l))
  }

  /** The state after the labels; a label that is not enabled changes nothing but the step count. */
  function Run(u: Setup, s: State, labels: seq<Label>): State {
    if labels == [] then s else Apply(u, Run(u, s, labels[..|labels| - 1]), labels[|labels| - 1])
  }
}
