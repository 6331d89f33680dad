/** Once a flush has completed, nobody is answered from before the update it announced. */
module PolicyFlush {
  import opened Prelude
  import opened PolicyCache
  import PolicyStaleness

  /** The reader can still fill the cache with something of tenant `t`. */
  predicate MayFill(u: Setup, clock: real, reader: Reader, t: Tenant) {
    reader.Fetched? && reader.key.tenant == t && clock - reader.readAt <= u.gap
  }

  /** No reader can still fill the cache with something of tenant `t` read before version `epoch`. */
  ghost predicate NoOlderFill(u: Setup, s: State, t: Tenant, epoch: nat) {
    && epoch < |s.versions|
    && (forall a :: a in s.readers && MayFill(u, s.clock, s.readers[a], t) ==> epoch <= s.readers[a].epoch)
  }

  /** A live cache entry of the tenant from before version `epoch`. */
  predicate Stale(s: State, t: Tenant, epoch: nat, k: Key) {
    k.tenant == t && Alive(s, k) && s.cache[k].epoch < epoch
  }

  ghost predicate Purged(u: Setup, s: State, t: Tenant, epoch: nat) {
    NoOlderFill(u, s, t, epoch) && forall k :: !Stale(s, t, epoch, k)
  }

  /** Listener `a` is on its way to deleting everything stale. */
  ghost predicate Flushing(u: Setup, s: State, a: Agent, t: Tenant, epoch: nat) {
    && NoOlderFill(u, s, t, epoch)
    && match ListenerOf(s, a)
       case Waiting => false
       case Scanning(tenant, start) => tenant == t && forall k :: Stale(s, t, epoch, k) ==> s.cache[k].born <= start
       case Deleting(tenant, keys) => tenant == t && forall k :: Stale(s, t, epoch, k) ==> k in keys
  }

  // ----- readers never make things worse

  /** Nothing becomes stale that was not, and readers stay recent. */
  ghost predicate NoWorse(u: Setup, s: State, s': State, t: Tenant, epoch: nat) {
    && NoOlderFill(u, s', t, epoch)
    && (forall k :: Stale(s', t, epoch, k) ==> Stale(s, t, epoch, k) && s'.cache[k] == s.cache[k])
  }

  lemma {:induction false} ReaderStepNoWorse(u: Setup, s: State, l: Label, t: Tenant, epoch: nat)
    requires NoOlderFill(u, s, t, epoch) && (l.CacheGet? || l.Fetch? || l.CacheSet?)
    ensures NoWorse(u, s, Apply(u, s, l), t, epoch)
    ensures Apply(u, s, l).listeners == s.listeners
  {
    hide DoCacheGet, DoFetch, DoCacheSet, NoOlderFill, NoWorse;
    match l {
      case CacheGet(a, key, reachable) => GetNoWorse(u, s, a, key, reachable, t, epoch);
      case Fetch(a) => FetchNoWorse(u, s, a, t, epoch);
      case CacheSet(a, reachable) => SetNoWorse(u, s, a, reachable, t, epoch);
    }
  }

  lemma {:induction false} GetNoWorse(u: Setup, s: State, a: Agent, key: Key, reachable: bool, t: Tenant, epoch: nat)
    requires NoOlderFill(u, s, t, epoch)
    ensures NoWorse(u, s, Ticked(DoCacheGet(s, a, key, reachable)), t, epoch)
  {
  }

  lemma {:induction false} FetchNoWorse(u: Setup, s: State, a: Agent, t: Tenant, epoch: nat)
    requires NoOlderFill(u, s, t, epoch)
    ensures NoWorse(u, s, Ticked(DoFetch(u, s, a)), t, epoch)
  {
    hide Lookup;
  }

  lemma {:induction false} SetNoWorse(u: Setup, s: State, a: Agent, reachable: bool, t: Tenant, epoch: nat)
    requires NoOlderFill(u, s, t, epoch)
    ensures NoWorse(u, s, Ticked(DoCacheSet(u, s, a, reachable)), t, epoch)
  {
  }

  lemma {:induction false} OtherStepNoWorse(u: Setup, s: State, l: Label, t: Tenant, epoch: nat)
    requires NoOlderFill(u, s, t, epoch) && !l.CacheGet? && !l.Fetch? && !l.CacheSet?
    ensures NoWorse(u, s, Apply(u, s, l), t, epoch)
  {
    hide DoUpdate, DoCommit, DoRollback, DoPublish, DoDeliver, DoScanEnd, DoDelete, NoWorse;
    match l {
      case Commit(a) => CommitNoWorse(u, s, a, t, epoch);
      case Delete(a) => DeleteNoWorse(u, s, a, t, epoch);
      case Abandon(a) => AbandonNoWorse(u, s, a, t, epoch);
      case _ => SameCacheNoWorse(u, s, Apply(u, s, l), t, epoch);
    }
  }

  lemma {:induction false} CommitNoWorse(u: Setup, s: State, a: Agent, t: Tenant, epoch: nat)
    requires NoOlderFill(u, s, t, epoch)
    ensures NoWorse(u, s, Ticked(DoCommit(s, a)), t, epoch)
  {
  }

  lemma {:induction false} DeleteNoWorse(u: Setup, s: State, a: Agent, t: Tenant, epoch: nat)
    requires NoOlderFill(u, s, t, epoch)
    ensures NoWorse(u, s, Ticked(DoDelete(s, a)), t, epoch)
  {
  }

  lemma {:induction false} AbandonNoWorse(u: Setup, s: State, a: Agent, t: Tenant, epoch: nat)
    requires NoOlderFill(u, s, t, epoch)
    ensures NoWorse(u, s, Ticked(s.(readers := s.readers[a := Idle])), t, epoch)
  {
  }

  lemma {:induction false} SameCacheNoWorse(u: Setup, s: State, s': State, t: Tenant, epoch: nat)
    requires NoOlderFill(u, s, t, epoch)
    requires s'.cache == s.cache && s'.readers == s.readers && s'.versions == s.versions && s.clock <= s'.clock
    ensures NoWorse(u, s, s', t, epoch)
  {
  }

  lemma {:induction false} StepNoWorse(u: Setup, s: State, l: Label, t: Tenant, epoch: nat)
    requires NoOlderFill(u, s, t, epoch)
    ensures NoWorse(u, s, Apply(u, s, l), t, epoch)
  {
    hide NoWorse, NoOlderFill, Apply;
    if l.CacheGet? || l.Fetch? || l.CacheSet? {
      ReaderStepNoWorse(u, s, l, t, epoch);
    } else {
      OtherStepNoWorse(u, s, l, t, epoch);
    }
  }

  // ----- the flush makes progress

  lemma {:induction false} OwnStep(u: Setup, s: State, a: Agent, t: Tenant, epoch: nat, found: set<Key>)
    requires Flushing(u, s, a, t, epoch)
    ensures Flushing(u, Apply(u, s, ScanEnd(a, found)), a, t, epoch)
    ensures var s' := Apply(u, s, Delete(a)); Flushing(u, s', a, t, epoch) || Purged(u, s', t, epoch)
  {
  }

  lemma {:induction false} ListenerStays(u: Setup, s: State, l: Label, a: Agent)
    requires l != Disconnect(a) && !(l.ScanEnd? && l.a == a) && !(l.Delete? && l.a == a) && !ListenerOf(s, a).Waiting?
    ensures ListenerOf(Apply(u, s, l), a) == ListenerOf(s, a)
  {
  }

  lemma {:induction false} FlushStep(u: Setup, s: State, l: Label, a: Agent, t: Tenant, epoch: nat)
    requires (Flushing(u, s, a, t, epoch) && l != Disconnect(a)) || Purged(u, s, t, epoch)
    ensures var s' := Apply(u, s, l); Flushing(u, s', a, t, epoch) || Purged(u, s', t, epoch)
  {
    hide NoOlderFill, Stale, Apply;
    StepNoWorse(u, s, l, t, epoch);
    if Purged(u, s, t, epoch) {
    } else if l.ScanEnd? && l.a == a {
      OwnStep(u, s, a, t, epoch, l.found);
    } else if l.Delete? && l.a == a {
      OwnStep(u, s, a, t, epoch, {});
    } else {
      ListenerStays(u, s, l, a);
    }
  }

  lemma {:induction false} FlushRun(u: Setup, s: State, labels: seq<Label>, a: Agent, t: Tenant, epoch: nat)
    requires Flushing(u, s, a, t, epoch) || Purged(u, s, t, epoch)
    requires Disconnect(a) !in labels || Purged(u, s, t, epoch)
    ensures var s' := Run(u, s, labels); Flushing(u, s', a, t, epoch) || Purged(u, s', t, epoch)
    ensures Purged(u, s, t, epoch) ==> Purged(u, Run(u, s, labels), t, epoch)
  {
    if labels != [] {
      hide Flushing, Purged;
      var init, l := labels[..|labels| - 1], labels[|labels| - 1];
      assert forall x :: x in init ==> x in labels;
      assert l in labels;
      FlushRun(u, s, init, a, t, epoch);
      if Purged(u, s, t, epoch) { PurgedStays(u, Run(u, s, init), l, t, epoch); }
      FlushStep(u, Run(u, s, init), l, a, t, epoch);
    }
  }

  lemma {:induction false} PurgedStays(u: Setup, s: State, l: Label, t: Tenant, epoch: nat)
    requires Purged(u, s, t, epoch)
    ensures Purged(u, Apply(u, s, l), t, epoch)
  {
    hide NoOlderFill, Stale, Apply;
    StepNoWorse(u, s, l, t, epoch);
  }

  // ----- a flush has a cause

  /** The tenant a listener is working for. */
  function WorksFor(l: Listener): Option<Tenant> {
    match l
    case Waiting => None
    case Scanning(tenant, start) => Some(tenant)
    case Deleting(tenant, keys) => Some(tenant)
  }

  ghost predicate Announced(s: State, t: Tenant) {
    exists m :: m in s.published && m.tenant == t
  }

  ghost predicate AllAnnounced(s: State) {
    forall a :: a in s.listeners && WorksFor(s.listeners[a]).Some? ==> Announced(s, WorksFor(s.listeners[a]).value)
  }

  lemma {:induction false} AnnouncedStep(u: Setup, s: State, l: Label)
    requires AllAnnounced(s)
    ensures AllAnnounced(Apply(u, s, l))
  {
    hide DoCacheGet, DoFetch, DoCacheSet, DoUpdate, DoCommit, DoRollback, ScanComplete;
    var s' := Apply(u, s, l);
    assert s.published <= s'.published;
    forall a | a in s'.listeners && WorksFor(s'.listeners[a]).Some?
      ensures Announced(s', WorksFor(s'.listeners[a]).value)
    {
      if l.Deliver? && a == l.a && s'.listeners != s.listeners {
        assert l.msg in s'.published;
      } else {
        assert a in s.listeners && WorksFor(s.listeners[a]) == WorksFor(s'.listeners[a]);
        var m :| m in s.published && m.tenant == WorksFor(s.listeners[a]).value;
        assert m in s'.published;
      }
    }
  }

  /** In every run a listener flushes only tenants for which an update was published. */
  lemma {:induction false} FlushesAreAnnounced(u: Setup, labels: seq<Label>)
    ensures AllAnnounced(Run(u, Init(u), labels))
  {
    if labels != [] {
      hide AllAnnounced, Apply;
      FlushesAreAnnounced(u, labels[..|labels| - 1]);
      AnnouncedStep(u, Run(u, Init(u), labels[..|labels| - 1]), labels[|labels| - 1]);
    } else {
      NothingToFlush(u);
    }
  }

  lemma {:induction false} NothingToFlush(u: Setup)
    ensures AllAnnounced(Run(u, Init(u), []))
  {
  }

  // ----- answers after the flush

  /** From position `n` on, every answer for the tenant is from version `epoch` or later. */
  ghost predicate RecentFrom(answers: seq<Given>, n: nat, t: Tenant, epoch: nat) {
    forall i :: n <= i < |answers| && answers[i].key.tenant == t ==> epoch <= answers[i].epoch
  }

  /** Answers are only appended, and from a purged state each new one for the tenant is recent. */
  lemma {:induction false} AnswerStep(u: Setup, s: State, l: Label, t: Tenant, epoch: nat)
    requires Purged(u, s, t, epoch)
    ensures s.answers <= Apply(u, s, l).answers && RecentFrom(Apply(u, s, l).answers, |s.answers|, t, epoch)
  {
    hide DoUpdate, DoCommit, DoRollback, DoPublish, DoDeliver, DoScanEnd, DoDelete;
    match l {
      case CacheGet(a, key, reachable) => assert !Stale(s, t, epoch, key);
      case Fetch(a) => hide Lookup, DoCacheGet, DoCacheSet;
      case CacheSet(a, reachable) => hide DoCacheGet, DoFetch;
      case _ => hide DoCacheGet, DoFetch, DoCacheSet;
    }
  }

  lemma {:induction false} RecentJoin(a: seq<Given>, b: seq<Given>, c: seq<Given>, t: Tenant, epoch: nat)
    requires a <= b <= c && RecentFrom(b, |a|, t, epoch) && RecentFrom(c, |b|, t, epoch)
    ensures a <= c && RecentFrom(c, |a|, t, epoch)
  {
  }

  lemma {:induction false} AnswersAfter(u: Setup, s: State, labels: seq<Label>, t: Tenant, epoch: nat)
    requires Purged(u, s, t, epoch)
    ensures
      var s' := Run(u, s, labels);
      Purged(u, s', t, epoch) && s.answers <= s'.answers && RecentFrom(s'.answers, |s.answers|, t, epoch)
  {
    if labels != [] {
      hide Purged, Apply, RecentFrom;
      var init, l := labels[..|labels| - 1], labels[|labels| - 1];
      AnswersAfter(u, s, init, t, epoch);
      var mid := Run(u, s, init);
      AnswerStep(u, mid, l, t, epoch);
      PurgedStays(u, mid, l, t, epoch);
      RecentJoin(s.answers, mid.answers, Apply(u, mid, l).answers, t, epoch);
    }
  }

  /** The listener starts a flush: everything live in the cache appeared before its scan. */
  lemma {:induction false} FlushStarts(u: Setup, s: State, a: Agent, m: Message, epoch: nat)
    requires PolicyStaleness.Inv(u, s) && NoOlderFill(u, s, m.tenant, epoch)
    requires ListenerOf(s, a).Waiting? && m in s.published
    ensures Flushing(u, Apply(u, s, Deliver(a, m)), a, m.tenant, epoch)
  {
  }

  /** Given after the flush, for the flushed tenant, and yet from before version `epoch`. */
  ghost predicate AnsweredFromBefore(u: Setup, flushed: State, end: State, t: Tenant, epoch: nat, i: nat) {
    && |flushed.answers| <= i < |end.answers| && end.answers[i].key.tenant == t
    && !(epoch <= end.answers[i].epoch < |end.versions|
         && var rows := end.versions[end.answers[i].epoch].rows;
            end.answers[i].answer
              == u.pick(map id | id in rows && rows[id].tenant == t :: rows[id], end.answers[i].key.route))
  }

  /**
    Main result: take any reachable state in which no older fill is in flight and a listener
    receives a message, and any continuation in which it does not lose its connection and
    ends up waiting again. From then on, whatever happens, every answer for the tenant is the
    source-of-truth answer of a table version that is not older than `epoch`.
   */
  lemma {:induction false} FlushIsFinal(
    u: Setup, before: seq<Label>, a: Agent, m: Message, epoch: nat, during: seq<Label>, after: seq<Label>, i: nat)
    requires u.gap >= 0.0
    ensures
      var s := Run(u, Init(u), before);
      var flushed := Run(u, Apply(u, s, Deliver(a, m)), during);
      ListenerOf(s, a).Waiting? && m in s.published && NoOlderFill(u, s, m.tenant, epoch)
        && Disconnect(a) !in during && ListenerOf(flushed, a).Waiting?
      ==> !AnsweredFromBefore(u, flushed, Run(u, flushed, after), m.tenant, epoch, i)
  {
    hide NoOlderFill, Apply, AnsweredFromBefore, PolicyStaleness.Inv;
    var s := Run(u, Init(u), before);
    var started := Apply(u, s, Deliver(a, m));
    var flushed := Run(u, started, during);
    if ListenerOf(s, a).Waiting? && m in s.published && NoOlderFill(u, s, m.tenant, epoch)
       && Disconnect(a) !in during && ListenerOf(flushed, a).Waiting? {
      PolicyStaleness.RunKeeps(u, before);
      FlushStarts(u, s, a, m, epoch);
      FlushRun(u, started, during, a, m.tenant, epoch);
      PolicyStaleness.StepKeeps(u, s, Deliver(a, m));
      PolicyStaleness.RunFrom(u, started, during);
      PurgedIsFinal(u, flushed, m.tenant, epoch, after, i);
    }
  }

  lemma {:induction false} RunConcat(u: Setup, s: State, a: seq<Label>, b: seq<Label>)
    ensures Run(u, s, a + b) == Run(u, Run(u, s, a), b)
  {
    if b == [] {
      assert a + b == a;
    } else {
      hide Apply;
      assert (a + b)[..|a + b| - 1] == a + b[..|b| - 1];
      RunConcat(u, s, a, b[..|b| - 1]);
    }
  }

  // ----- the hypotheses of a final flush are needed

  /** Whatever happens from here on, nobody is answered for the tenant from before version `epoch`. */
  ghost predicate Final(u: Setup, s: State, t: Tenant, epoch: nat) {
    forall after: seq<Label>, i: nat :: !AnsweredFromBefore(u, s, Run(u, s, after), t, epoch, i)
  }

  lemma {:induction false} PurgedIsFinal(u: Setup, s: State, t: Tenant, epoch: nat, after: seq<Label>, i: nat)
    requires u.gap >= 0.0 && PolicyStaleness.Inv(u, s) && Purged(u, s, t, epoch)
    ensures !AnsweredFromBefore(u, s, Run(u, s, after), t, epoch, i)
  {
    hide Run, Lookup, Purged, PolicyStaleness.EntryOk, PolicyStaleness.ReaderOk;
    AnswersAfter(u, s, after, t, epoch);
    PolicyStaleness.RunFrom(u, s, after);
    var end := Run(u, s, after);
    if |s.answers| <= i < |end.answers| {
      var g := end.answers[i];
      assert PolicyStaleness.GivenOk(u, end, g);
      LookupAsks(u, end.versions[g.epoch].rows, g.key.tenant, g.key.route);
    }
  }

  lemma {:induction false} RunOne(u: Setup, s: State, l: Label)
    ensures Run(u, s, [l]) == Apply(u, s, l)
  {
    hide Apply;
    assert [l][..0] == [];
  }

  lemma {:induction false} RunTwo(u: Setup, s: State, l: Label, m: Label)
    ensures Run(u, s, [l, m]) == Apply(u, Apply(u, s, l), m)
  {
    hide Apply;
    assert [l, m][..1] == [l];
    RunOne(u, s, l);
  }

  /** A stale entry is served to the next reader. */
  lemma {:induction false} StaleIsServed(u: Setup, s: State, t: Tenant, epoch: nat, k: Key)
    requires Stale(s, t, epoch, k)
    ensures AnsweredFromBefore(u, s, Run(u, s, [Abandon("x"), CacheGet("x", k, true)]), t, epoch, |s.answers|)
  {
    hide Run, Lookup;
    RunTwo(u, s, Abandon("x"), CacheGet("x", k, true));
    var s1 := Apply(u, s, Abandon("x"));
    assert ReaderOf(s1, "x").Idle? && s1.cache == s.cache && s1.clock == s.clock && s1.answers == s.answers;
  }

  /** An older fill answers its own reader, and everybody after that. */
  lemma {:induction false} OlderFillAnswers(u: Setup, s: State, t: Tenant, epoch: nat, a: Agent)
    requires a in s.readers && MayFill(u, s.clock, s.readers[a], t) && s.readers[a].epoch < epoch
    ensures AnsweredFromBefore(u, s, Run(u, s, [CacheSet(a, true)]), t, epoch, |s.answers|)
  {
    hide Run, Lookup;
    RunOne(u, s, CacheSet(a, true));
  }

  /**
    Main result: a reachable state is final for a tenant and a version exactly when it is purged:
    no live entry from before the version, and no reader that can still fill one in.
   */
  lemma {:induction false} FinalIff(u: Setup, s: State, t: Tenant, epoch: nat)
    requires u.gap >= 0.0 && PolicyStaleness.Inv(u, s) && epoch < |s.versions|
    ensures Final(u, s, t, epoch) <==> Purged(u, s, t, epoch)
  {
    hide Run, AnsweredFromBefore, PolicyStaleness.Inv, Stale;
    if Purged(u, s, t, epoch) {
      forall after: seq<Label>, i: nat ensures !AnsweredFromBefore(u, s, Run(u, s, after), t, epoch, i) {
        PurgedIsFinal(u, s, t, epoch, after, i);
      }
    } else if k :| Stale(s, t, epoch, k) {
      StaleIsServed(u, s, t, epoch, k);
    } else {
      var a :| a in s.readers && MayFill(u, s.clock, s.readers[a], t) && s.readers[a].epoch < epoch;
      OlderFillAnswers(u, s, t, epoch, a);
    }
  }

  /** Read, let an update commit and publish, and flush, with the old read still to be filled in. */
  function FlushTooEarly(gap: real): seq<Label> {
    PolicyStaleness.LateFill(gap, 1.0)[..4]
      + [Publish("admin", true), Deliver("listener", Message("t", "p", 2))]
      + [ScanEnd("listener", {}), Delete("listener")]
  }

  /** A completed flush is not final while an older fill is in flight. */
  lemma {:induction false} OlderFillBreaksFlush(gap: real)
    requires gap >= 0.0
    ensures
      var u := PolicyStaleness.LateSetup(gap);
      var s := Run(u, Init(u), FlushTooEarly(gap));
      && s.listeners == map["listener" := Waiting] && Message("t", "p", 2) in s.published
      && (forall k :: !Stale(s, "t", 1, k)) && !Final(u, s, "t", 1)
  {
    hide Run, Apply, Final, PolicyStaleness.Inv;
    var u := PolicyStaleness.LateSetup(gap);
    var start := PolicyStaleness.LateFill(gap, 1.0)[..4];
    var announce := [Publish("admin", true), Deliver("listener", Message("t", "p", 2))];
    var flush := [ScanEnd("listener", {}), Delete("listener")];
    RunConcat(u, Init(u), start + announce, flush);
    RunConcat(u, Init(u), start, announce);
    var s4 := PolicyStaleness.LateCommit(gap, 1.0);
    RunTwo(u, s4, announce[0], announce[1]);
    var s6 := Announces(u, s4);
    RunTwo(u, s6, flush[0], flush[1]);
    var s := Flushes(u, s6);
    assert s == Run(u, Init(u), FlushTooEarly(gap));
    PolicyStaleness.RunKeeps(u, FlushTooEarly(gap));
    FinalIff(u, s, "t", 1);
  }

  lemma {:induction false} Announces(u: Setup, s: State) returns (s': State)
    requires AdminOf(s, "admin") == Committed(Message("t", "p", 2)) && s.listeners == map[]
    ensures s' == Apply(u, Apply(u, s, Publish("admin", true)), Deliver("listener", Message("t", "p", 2)))
    ensures s' == s.(admins := s'.admins, published := s'.published, listeners := s'.listeners, step := s'.step)
    ensures Message("t", "p", 2) in s'.published && s'.listeners == map["listener" := Scanning("t", s.step + 1)]
  {
    var s1 := Apply(u, s, Publish("admin", true));
    s' := Apply(u, s1, Deliver("listener", Message("t", "p", 2)));
  }

  lemma {:induction false} Flushes(u: Setup, s: State) returns (s': State)
    requires s.listeners.Keys == {"listener"} && s.listeners["listener"].Scanning?
    requires s.listeners["listener"].tenant == "t" && s.cache == map[]
    ensures s' == Apply(u, Apply(u, s, ScanEnd("listener", {})), Delete("listener"))
    ensures s' == s.(listeners := map["listener" := Waiting], step := s'.step)
  {
    var s1 := Apply(u, s, ScanEnd("listener", {}));
    assert ListenerOf(s1, "listener") == Deleting("t", {});
    s' := Apply(u, s1, Delete("listener"));
    assert s'.cache == map[];
  }
}
