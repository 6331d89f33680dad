/**
  The three request handlers as the code runs them, each a run of the protocol in which time
  passes and other readers, admins and listeners act freely before every step of its own.
 */
module PolicyService {
  import opened Prelude
  import opened PolicyCache
  import opened PolicyInterference
  import PolicyStaleness
  import PolicyLocking
  import PolicyFlush

  /**
    `PublishRaised` is the error of a handler whose publish raised after its commit, whether or
    not the message got out; `Blocked` is no reply yet, the row being locked by another
    transaction.
   */
  datatype UpdateReply = Updated(version: int) | PublishRaised(version: int) | NotFound | Conflict | Blocked

  /** The caller's own policy, at the version it expects: what the guarded UPDATE matches. */
  predicate Matches(rows: Rows, tenant: Tenant, id: PolicyId, expected: int) {
    Owns(rows, tenant, id) && rows[id].version == expected
  }

  predicate Owns(rows: Rows, tenant: Tenant, id: PolicyId) {
    id in rows && rows[id].tenant == tenant
  }

  /** Version `n` is version `n - 1` with the policy's rate set and its version raised by one. */
  ghost predicate UpdatedAt(versions: History, n: nat, tenant: Tenant, id: PolicyId, rps: int, expected: int) {
    && 0 < n < |versions|
    && var rows := versions[n - 1].rows;
       && id in rows && rows[id].tenant == tenant && rows[id].version == expected
       && versions[n].rows == rows[id := rows[id].(rps := rps, version := expected + 1)]
  }

  /** The shared Redis cache and database, everybody included. */
  class Service {
    const setup: Setup
    var world: State

    ghost predicate Valid()
      reads this
    {
      Sound(setup, world)
    }

    constructor (setup: Setup)
      requires setup.gap >= 0.0
      ensures this.setup == setup && world == Init(setup) && Valid()
    {
      this.setup := setup;
      world := Init(setup);
      InitSound(setup);
    }

    /** Whatever others do, then one own step. */
    method Take(a: Agent, others: seq<Label>, l: Label, ghost s0: State, ghost trace: seq<Label>)
      returns (ghost trace': seq<Label>)
      requires Valid() && AllForeign(others, a) && !Foreign(l, a) && world == Run(setup, s0, trace)
      modifies this
      ensures Valid() && world == Apply(setup, Run(setup, old(world), others), l) && world == Run(setup, s0, trace')
      ensures trace' == trace + others + [l] && Mine(trace', a) == Mine(trace, a) + [l]
    {
      hide Sound, Apply, Run, Foreign;
      ForeignRun(setup, world, others, a);
      TraceStep(setup, s0, trace, others, l, a);
      trace' := trace + others + [l];
      world := Run(setup, world, others);
      StepSound(setup, world, l);
      world := Apply(setup, world, l);
    }

    /**
      get_policy: cache first, then the database, then a best-effort fill. The answer is the
      cached one if it is alive when the cache is asked, and otherwise the database's at the
      moment it is read, whatever the cache does; either way it was true at most 10 s plus the
      gap ago. `e0`, `e1` and `e2` are what others do before each step.
     */
    method GetPolicy(a: Agent, tenant: Tenant, route: Route, getReachable: bool, setReachable: bool,
                     e0: seq<Label>, e1: seq<Label>, e2: seq<Label>)
      returns (answer: Option<Answer>, ghost trace: seq<Label>)
      requires Valid() && ReaderOf(world, a).Idle?
      requires AllForeign(e0, a) && AllForeign(e1, a) && AllForeign(e2, a) && Elapsed(e2) <= setup.gap
      modifies this
      ensures Valid() && world == Run(setup, old(world), trace) && ReaderOf(world, a).Idle?
      ensures Mine(trace, a) != []
      ensures Mine(trace, a) <= [CacheGet(a, Key(tenant, route), getReachable), Fetch(a), CacheSet(a, setReachable)]
      ensures
        var asked := Run(setup, old(world), e0);
        var read := Run(setup, Apply(setup, asked, CacheGet(a, Key(tenant, route), getReachable)), e1);
        var rows := Current(read);
        answer ==
          if getReachable && Alive(asked, Key(tenant, route)) then Some(asked.cache[Key(tenant, route)].answer)
          else setup.pick(map id | id in rows && rows[id].tenant == tenant :: rows[id], route)
      ensures world.answers != []
      ensures
        var g := world.answers[|world.answers| - 1];
        && g.key == Key(tenant, route) && g.answer == answer && g.at == world.clock
        && PolicyStaleness.WithinAge(setup, world.versions, g, 10.0 + setup.gap)
    {
      hide Run, Apply, Lookup, Sound, AllForeign, PolicyStaleness.WithinAge;
      var key := Key(tenant, route);
      ghost var s0 := world;
      RunNothing(setup, s0, a);
      ForeignRun(setup, world, e0, a);
      GetWhenIdle(setup, Run(setup, world, e0), a, key, getReachable);
      trace := Take(a, e0, CacheGet(a, key, getReachable), s0, []);
      if ReaderOf(world, a).Idle? {
        answer := world.answers[|world.answers| - 1].answer;
        AnswerRecent(setup, world);
        return;
      }
      LookupAsks(setup, Current(Run(setup, world, e1)), tenant, route);
      answer, trace := ReadThrough(a, key, setReachable, e1, e2, s0, trace);
    }

    /** The miss path: read the database, then fill the cache if there is a policy. */
    method ReadThrough(a: Agent, key: Key, setReachable: bool, e1: seq<Label>, e2: seq<Label>,
                       ghost s0: State, ghost trace: seq<Label>)
      returns (answer: Option<Answer>, ghost trace': seq<Label>)
      requires Valid() && ReaderOf(world, a) == Missed(key) && world == Run(setup, s0, trace)
      requires AllForeign(e1, a) && AllForeign(e2, a) && Elapsed(e2) <= setup.gap
      modifies this
      ensures Valid() && world == Run(setup, s0, trace') && ReaderOf(world, a).Idle?
      ensures Mine(trace', a)
           == Mine(trace, a) + if answer.None? then [Fetch(a)] else [Fetch(a), CacheSet(a, setReachable)]
      ensures answer == Lookup(setup, Current(Run(setup, old(world), e1)), key.tenant, key.route)
      ensures world.answers != []
      ensures
        var g := world.answers[|world.answers| - 1];
        && g.key == key && g.answer == answer && g.at == world.clock
        && PolicyStaleness.WithinAge(setup, world.versions, g, 10.0 + setup.gap)
    {
      hide Run, Apply, Lookup, Sound, AllForeign, PolicyStaleness.WithinAge;
      ForeignRun(setup, world, e1, a);
      FetchAfterMiss(setup, Run(setup, world, e1), a);
      trace' := Take(a, e1, Fetch(a), s0, trace);
      answer := None;
      if !ReaderOf(world, a).Idle? {
        answer := Some(ReaderOf(world, a).answer);
        ForeignRun(setup, world, e2, a);
        RunElapsed(setup, world, e2);
        SetAfterFetch(setup, Run(setup, world, e2), a, setReachable);
        trace' := Take(a, e2, CacheSet(a, setReachable), s0, trace');
      }
      AnswerRecent(setup, world);
    }

    /**
      update_policy: 404 unless the caller's own tenant has the policy, 409 unless the version
      is the expected one, a wait while another transaction holds the row, and else update,
      commit and only then publish; a publish that raises comes after the commit. `before` is
      what others do until the UPDATE is decided, `tries` how long the caller is seen to wait.
     */
    method UpdatePolicy(a: Agent, tenant: Tenant, id: PolicyId, rps: int, expected: int,
                        reachable: bool, raises: bool, others: nat -> seq<Label>, tries: nat)
      returns (reply: UpdateReply, ghost before: seq<Label>, ghost trace: seq<Label>)
      requires Valid() && AdminOf(world, a).Ready? && Elsewhere(others, a) && (reachable || raises)
      modifies this
      ensures Valid() && world == Run(setup, old(world), trace) && AdminOf(world, a).Ready?
      ensures before <= trace && AllForeign(before, a)
      ensures
        var seen := Run(setup, old(world), before);
        var own := id in Current(seen) && Current(seen)[id].tenant == tenant;
        && (reply.NotFound? <==> !own)
        && (reply.Conflict? <==> own && Current(seen)[id].version != expected)
        && (reply.Blocked? <==> own && Current(seen)[id].version == expected && id in seen.locks)
        && (reply.Updated? || reply.PublishRaised? <==>
              own && Current(seen)[id].version == expected && id !in seen.locks)
        && (reply.Updated? || reply.PublishRaised? ==>
              && reply == (if raises then PublishRaised(expected + 1) else Updated(expected + 1))
              && (exists n: nat :: |seen.versions| <= n && UpdatedAt(world.versions, n, tenant, id, rps, expected))
              && (reachable ==> Message(tenant, id, expected + 1) in world.published))
      ensures Mine(trace, a)
           == if !reply.Updated? && !reply.PublishRaised? then []
              else [Update(a, tenant, id, rps, expected), Commit(a), Publish(a, reachable)]
    {
      hide Run, Apply, Sound, AllForeign, UpdatedAt;
      ghost var s0 := world;
      before := Await(a, tenant, id, expected, others, tries);
      ghost var seen := world;
      assert AllForeign(others(tries + 1), a) && AllForeign(others(tries + 2), a);
      OnlyOthers(setup, s0, before, others(tries + 1), a);
      ForeignRun(setup, world, others(tries + 1), a);
      if !Matches(Current(world), tenant, id, expected) {
        world := Run(setup, world, others(tries + 1));
        trace := before + others(tries + 1);
        SameOwner(setup, seen, world, id);
        reply := if Owns(Current(world), tenant, id) then Conflict else NotFound;
        return;
      }
      trace := before;
      if id in world.locks { return Blocked, before, trace; }
      reply, trace := Win(a, tenant, id, rps, expected, reachable, raises,
                          others(tries + 1), others(tries + 2), s0, trace);
    }

    /** The UPDATE statement: it waits as long as it would change a row that another transaction holds. */
    method Await(a: Agent, tenant: Tenant, id: PolicyId, expected: int, others: nat -> seq<Label>, tries: nat)
      returns (ghost before: seq<Label>)
      requires Valid() && AdminOf(world, a).Ready? && Elsewhere(others, a)
      modifies this
      ensures Valid() && world == Run(setup, old(world), before) && AllForeign(before, a) && AdminOf(world, a).Ready?
    {
      hide Run, Apply, Sound, AllForeign;
      ghost var s0 := world;
      assert AllForeign(others(0), a);
      ForeignRun(setup, world, others(0), a);
      before := others(0);
      world := Run(setup, world, others(0));
      var i := 0;
      while Matches(Current(world), tenant, id, expected) && id in world.locks && i < tries
        invariant Valid() && world == Run(setup, s0, before) && AllForeign(before, a) && AdminOf(world, a).Ready?
        decreases tries - i
      {
        i := i + 1;
        assert AllForeign(others(i), a);
        ForeignRun(setup, world, others(i), a);
        OnlyOthers(setup, s0, before, others(i), a);
        before := before + others(i);
        world := Run(setup, world, others(i));
      }
    }

    /** The row matches and is free: lock it, commit, publish. */
    method Win(a: Agent, tenant: Tenant, id: PolicyId, rps: int, expected: int, reachable: bool, raises: bool,
               e1: seq<Label>, e2: seq<Label>, ghost s0: State, ghost before: seq<Label>)
      returns (reply: UpdateReply, ghost trace: seq<Label>)
      requires Valid() && AdminOf(world, a).Ready? && AllForeign(e1, a) && AllForeign(e2, a)
      requires Matches(Current(world), tenant, id, expected) && id !in world.locks && world == Run(setup, s0, before)
      modifies this
      ensures Valid() && world == Run(setup, s0, trace) && AdminOf(world, a).Ready? && before <= trace
      ensures reply == if raises then PublishRaised(expected + 1) else Updated(expected + 1)
      ensures exists n: nat :: |old(world).versions| <= n && UpdatedAt(world.versions, n, tenant, id, rps, expected)
      ensures reachable ==> Message(tenant, id, expected + 1) in world.published
      ensures Mine(trace, a)
           == Mine(before, a) + [Update(a, tenant, id, rps, expected), Commit(a), Publish(a, reachable)]
    {
      hide Run, Apply, Sound, AllForeign, UpdatedAt;
      ghost var seen := world;
      RunNothing(setup, seen, a);
      LockWhenFree(setup, world, a, tenant, id, rps, expected);
      trace := Take(a, [], Update(a, tenant, id, rps, expected), s0, before);
      ForeignRun(setup, world, e1, a);
      ghost var locked := Run(setup, world, e1);
      SameOwner(setup, seen, locked, id);
      CommitWhenLocked(setup, locked, a, tenant, id, rps, expected);
      trace := Take(a, e1, Commit(a), s0, trace);
      ghost var committed := world;
      var version := AdminOf(world, a).msg.version;
      reply := if raises then PublishRaised(version) else Updated(version);
      ForeignRun(setup, world, e2, a);
      PublishWhenCommitted(setup, Run(setup, world, e2), a, reachable);
      trace := Take(a, e2, Publish(a, reachable), s0, trace);
      StillUpdated(committed.versions, world.versions, |locked.versions|, tenant, id, rps, expected);
    }

    /**
      _listen_once on one message: scan the tenant's keys, then delete those found. The scan may
      miss keys that appear while it runs and may return keys that are gone by its end. Keys of
      other tenants are not touched; a live key of the tenant that survives appeared after the
      scan began; and if no older fill was in flight, nothing older than the update survives.
     */
    method Invalidate(a: Agent, msg: Message, e0: seq<Label>, e1: seq<Label>, e2: seq<Label>,
                      missed: set<Key>, extra: set<Key>)
      returns (found: set<Key>, ghost trace: seq<Label>)
      requires Valid() && ListenerOf(world, a).Waiting? && msg in world.published
      requires AllForeign(e0, a) && AllForeign(e1, a) && AllForeign(e2, a)
      requires forall k :: k in extra ==> k.tenant == msg.tenant
      modifies this
      ensures Valid() && world == Run(setup, old(world), trace) && ListenerOf(world, a).Waiting?
      ensures Mine(trace, a) == [Deliver(a, msg), ScanEnd(a, found), Delete(a)]
      ensures forall k :: k in found ==> k.tenant == msg.tenant
      ensures
        var scanning := Run(setup, Apply(setup, Run(setup, old(world), e0), Deliver(a, msg)), e1);
        world.cache == Run(setup, Apply(setup, scanning, ScanEnd(a, found)), e2).cache - found
      ensures forall k :: Alive(world, k) && k.tenant == msg.tenant ==> world.cache[k].born >= old(world).step
      ensures forall epoch: nat :: PolicyFlush.NoOlderFill(setup, Run(setup, old(world), e0), msg.tenant, epoch) ==>
        PolicyFlush.Purged(setup, world, msg.tenant, epoch)
    {
      hide Run, Apply, Sound, AllForeign, PolicyFlush.NoOlderFill, PolicyFlush.Purged;
      ghost var s0 := world;
      RunNothing(setup, s0, a);
      ForeignRun(setup, world, e0, a);
      ghost var heard := Run(setup, world, e0);
      DeliverWhenWaiting(setup, heard, a, msg);
      trace := Take(a, e0, Deliver(a, msg), s0, []);
      ghost var started := world;
      ForeignRun(setup, world, e1, a);
      ghost var scanning := Run(setup, world, e1);
      found := ScanKeys(Run(setup, world, e1).cache, msg.tenant, ListenerOf(world, a).start, missed, extra);
      ScanWhenScanning(setup, scanning, a, found);
      trace := Take(a, e1, ScanEnd(a, found), s0, trace);
      ForeignRun(setup, world, e2, a);
      DeleteWhenDeleting(setup, Run(setup, world, e2), a);
      SurvivorsAreNew(setup, scanning, e2, a, found);
      trace := Take(a, e2, Delete(a), s0, trace);
      forall epoch: nat | PolicyFlush.NoOlderFill(setup, heard, msg.tenant, epoch)
        ensures PolicyFlush.Purged(setup, world, msg.tenant, epoch)
      {
        FlushPurges(setup, heard, a, msg, epoch, e1, found, e2);
      }
    }
  }

  /** SCAN ... MATCH policy:{tenant}:*, some new keys missed and some vanished ones returned. */
  method ScanKeys(cache: map<Key, Entry>, tenant: Tenant, start: nat, missed: set<Key>, extra: set<Key>)
    returns (found: set<Key>)
    requires forall k :: k in extra ==> k.tenant == tenant
    ensures forall k :: k in found ==> k.tenant == tenant
    ensures forall k :: k in cache && k.tenant == tenant && cache[k].born <= start ==> k in found
    ensures forall k :: k in found && k !in extra ==> k in cache
  {
    found := extra;
    var todo := cache.Keys;
    while todo != {}
      invariant todo <= cache.Keys && forall k :: k in found ==> k.tenant == tenant && (k in extra || k in cache)
      invariant forall k :: k in cache && k.tenant == tenant && cache[k].born <= start ==> k in found || k in todo
      decreases todo
    {
      var k :| k in todo;
      if k.tenant == tenant && !(k in missed && cache[k].born > start) { found := found + {k}; }
      todo := todo - {k};
    }
  }

  // ----- runs

  lemma {:induction false} RunNothing(u: Setup, s: State, a: Agent)
    ensures Run(u, s, []) == s && Mine([], a) == [] && AllForeign([], a)
  {
  }

  lemma {:induction false} OnlyOthers(u: Setup, s: State, before: seq<Label>, more: seq<Label>, a: Agent)
    requires AllForeign(before, a) && AllForeign(more, a)
    ensures Run(u, s, before + more) == Run(u, Run(u, s, before), more)
    ensures AllForeign(before + more, a) && Mine(before, a) == [] && Mine(before + more, a) == []
  {
    PolicyFlush.RunConcat(u, s, before, more);
    MineConcat([], before, a);
    assert [] + before == before;
    MineConcat(before, more, a);
  }

  // ----- the reader's steps

  lemma {:induction false} GetWhenIdle(u: Setup, s: State, a: Agent, key: Key, reachable: bool)
    requires ReaderOf(s, a).Idle?
    ensures
      var s' := Apply(u, s, CacheGet(a, key, reachable));
      && s'.clock == s.clock
      && (if reachable && Alive(s, key)
          then
            var e := s.cache[key];
            ReaderOf(s', a).Idle? && s'.answers == s.answers + [Given(key, Some(e.answer), s.clock, e.epoch, e.readAt)]
          else ReaderOf(s', a) == Missed(key))
  {
  }

  lemma {:induction false} FetchAfterMiss(u: Setup, s: State, a: Agent)
    requires ReaderOf(s, a).Missed?
    ensures
      var key := ReaderOf(s, a).key;
      var s' := Apply(u, s, Fetch(a));
      var truth := Lookup(u, Current(s), key.tenant, key.route);
      && (truth.None? ==>
            && ReaderOf(s', a).Idle?
            && s'.answers == s.answers + [Given(key, None, s.clock, |s.versions| - 1, s.clock)])
      && (truth.Some? ==> ReaderOf(s', a) == Fetched(key, truth.value, |s.versions| - 1, s.clock))
      && s'.clock == s.clock
  {
  }

  lemma {:induction false} SetAfterFetch(u: Setup, s: State, a: Agent, reachable: bool)
    requires ReaderOf(s, a).Fetched? && s.clock - ReaderOf(s, a).readAt <= u.gap
    ensures
      var r := ReaderOf(s, a);
      var s' := Apply(u, s, CacheSet(a, reachable));
      && ReaderOf(s', a).Idle? && s'.clock == s.clock
      && s'.answers == s.answers + [Given(r.key, Some(r.answer), s.clock, r.epoch, r.readAt)]
  {
  }

  /** The answer just given is true of some instant in the last 10 s plus the gap. */
  lemma {:induction false} AnswerRecent(u: Setup, s: State)
    requires Sound(u, s) && s.answers != []
    ensures PolicyStaleness.WithinAge(u, s.versions, s.answers[|s.answers| - 1], 10.0 + u.gap)
  {
    hide PolicyLocking.Inv, PolicyStaleness.EntryOk, PolicyStaleness.ReaderOk, Lookup;
    var g := s.answers[|s.answers| - 1];
    assert PolicyStaleness.GivenOk(u, s, g);
    PolicyStaleness.TruthIsByHand(u, s.versions, g, g.epoch, g.readAt);
  }

  // ----- the admin's steps

  lemma {:induction false} LockWhenFree(
    u: Setup, s: State, a: Agent, tenant: Tenant, id: PolicyId, rps: int, expected: int)
    requires AdminOf(s, a).Ready? && id !in s.locks && Matches(Current(s), tenant, id, expected)
    ensures
      var s' := Apply(u, s, Update(a, tenant, id, rps, expected));
      AdminOf(s', a) == Locked(id, rps, expected) && s'.versions == s.versions
  {
  }

  /** Policies change neither owner nor existence. */
  lemma {:induction false} SameOwner(u: Setup, s: State, s': State, id: PolicyId)
    requires Sound(u, s) && Sound(u, s')
    ensures forall tenant :: Owns(Current(s), tenant, id) <==> Owns(Current(s'), tenant, id)
  {
    hide PolicyStaleness.Inv, PolicyLocking.Inv;
    PolicyLocking.CurrentOk(u, s);
    PolicyLocking.CurrentOk(u, s');
  }

  /** A locked row still has the version the lock was taken at. */
  lemma {:induction false} CommitWhenLocked(
    u: Setup, s: State, a: Agent, tenant: Tenant, id: PolicyId, rps: int, expected: int)
    requires Sound(u, s) && AdminOf(s, a) == Locked(id, rps, expected) && Owns(Current(s), tenant, id)
    ensures
      var s' := Apply(u, s, Commit(a));
      && AdminOf(s', a) == Committed(Message(tenant, id, expected + 1))
      && UpdatedAt(s'.versions, |s.versions|, tenant, id, rps, expected)
  {
    hide PolicyStaleness.Inv, PolicyLocking.TableOk, PolicyLocking.SuccessOk, PolicyLocking.Names;
    assert PolicyLocking.AdminOk(s, a, s.admins[a]);
  }

  lemma {:induction false} PublishWhenCommitted(u: Setup, s: State, a: Agent, reachable: bool)
    requires AdminOf(s, a).Committed?
    ensures
      var s' := Apply(u, s, Publish(a, reachable));
      && AdminOf(s', a).Ready? && s'.versions == s.versions
      && (reachable ==> AdminOf(s, a).msg in s'.published)
  {
  }

  lemma {:induction false} StillUpdated(
    versions: History, versions': History, n: nat, tenant: Tenant, id: PolicyId, rps: int, expected: int)
    requires versions <= versions' && UpdatedAt(versions, n, tenant, id, rps, expected)
    ensures UpdatedAt(versions', n, tenant, id, rps, expected)
  {
  }

  // ----- the listener's steps

  lemma {:induction false} DeliverWhenWaiting(u: Setup, s: State, a: Agent, msg: Message)
    requires ListenerOf(s, a).Waiting? && msg in s.published
    ensures
      var s' := Apply(u, s, Deliver(a, msg));
      ListenerOf(s', a) == Scanning(msg.tenant, s.step) && s'.step == s.step + 1
  {
  }

  lemma {:induction false} ScanWhenScanning(u: Setup, s: State, a: Agent, found: set<Key>)
    requires ListenerOf(s, a).Scanning? && ScanComplete(s, ListenerOf(s, a).tenant, ListenerOf(s, a).start, found)
    ensures ListenerOf(Apply(u, s, ScanEnd(a, found)), a) == Deleting(ListenerOf(s, a).tenant, found)
  {
  }

  lemma {:induction false} DeleteWhenDeleting(u: Setup, s: State, a: Agent)
    requires ListenerOf(s, a).Deleting?
    ensures
      var s' := Apply(u, s, Delete(a));
      ListenerOf(s', a).Waiting? && s'.cache == s.cache - ListenerOf(s, a).keys && s'.clock == s.clock
  {
  }

  /** What the delete leaves alive of the tenant appeared after the scan began. */
  lemma {:induction false} SurvivorsAreNew(u: Setup, s: State, e: seq<Label>, a: Agent, found: set<Key>)
    requires ListenerOf(s, a).Scanning? && ListenerOf(s, a).start < s.step
    requires ScanComplete(s, ListenerOf(s, a).tenant, ListenerOf(s, a).start, found)
    requires ListenerOf(Run(u, Apply(u, s, ScanEnd(a, found)), e), a) == Deleting(ListenerOf(s, a).tenant, found)
    ensures
      var s' := Apply(u, Run(u, Apply(u, s, ScanEnd(a, found)), e), Delete(a));
      forall k :: Alive(s', k) && k.tenant == ListenerOf(s, a).tenant ==> s'.cache[k].born > ListenerOf(s, a).start
  {
    hide Run, Apply, ScanComplete;
    var Scanning(t, start) := ListenerOf(s, a);
    assert FoundOrNew(s, t, start, found) by { ScanFindsOld(s, t, start, found); }
    StepFoundOrNew(u, s, ScanEnd(a, found), t, start, found);
    RunFoundOrNew(u, Apply(u, s, ScanEnd(a, found)), e, t, start, found);
    DeleteWhenDeleting(u, Run(u, Apply(u, s, ScanEnd(a, found)), e), a);
  }

  lemma {:induction false} ScanFindsOld(s: State, t: Tenant, start: nat, found: set<Key>)
    requires ScanComplete(s, t, start, found) && start < s.step
    ensures FoundOrNew(s, t, start, found)
  {
  }

  /** The flush runs to its end, so nothing older than the update is left. */
  lemma {:induction false} FlushPurges(
    u: Setup, s: State, a: Agent, msg: Message, epoch: nat, e1: seq<Label>, found: set<Key>, e2: seq<Label>)
    requires Sound(u, s) && PolicyFlush.NoOlderFill(u, s, msg.tenant, epoch) && AllForeign(e1, a) && AllForeign(e2, a)
    requires ListenerOf(s, a).Waiting? && msg in s.published
    ensures
      var scanning := Run(u, Apply(u, s, Deliver(a, msg)), e1);
      var flushed := Apply(u, Run(u, Apply(u, scanning, ScanEnd(a, found)), e2), Delete(a));
      ListenerOf(flushed, a).Waiting? ==> PolicyFlush.Purged(u, flushed, msg.tenant, epoch)
  {
    hide Run, Apply, PolicyFlush.NoOlderFill, PolicyFlush.Stale, AllForeign, PolicyLocking.Inv, PolicyStaleness.Inv;
    PolicyFlush.FlushStarts(u, s, a, msg, epoch);
    NoDisconnect(e1, a);
    NoDisconnect(e2, a);
    var started := Apply(u, s, Deliver(a, msg));
    PolicyFlush.FlushRun(u, started, e1, a, msg.tenant, epoch);
    var scanning := Run(u, started, e1);
    PolicyFlush.FlushStep(u, scanning, ScanEnd(a, found), a, msg.tenant, epoch);
    var deleting := Apply(u, scanning, ScanEnd(a, found));
    PolicyFlush.FlushRun(u, deleting, e2, a, msg.tenant, epoch);
    PolicyFlush.FlushStep(u, Run(u, deleting, e2), Delete(a), a, msg.tenant, epoch);
  }
}
