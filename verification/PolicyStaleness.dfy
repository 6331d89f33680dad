/** How old a policy answer can be. */
module PolicyStaleness {
  import opened Prelude
  import opened PolicyCache

  /** Version `epoch` was the current table at time `t`. */
  predicate CurrentAt(versions: History, epoch: nat, t: real) {
    && epoch < |versions|
    && versions[epoch].since <= t
    && (epoch + 1 < |versions| ==> t <= versions[epoch + 1].since)
  }

  /** The answer was the source-of-truth answer for the key when it was read. */
  predicate Truthful(u: Setup, versions: History, key: Key, answer: Option<Answer>, epoch: nat, readAt: real) {
    CurrentAt(versions, epoch, readAt) && answer == Lookup(u, versions[epoch].rows, key.tenant, key.route)
  }

  ghost predicate EntryOk(u: Setup, s: State, k: Key, e: Entry) {
    && Truthful(u, s.versions, k, Some(e.answer), e.epoch, e.readAt)
    && e.readAt <= s.clock && e.expireAt <= e.readAt + u.gap + CACHE_TTL_S
    && e.born <= s.step
  }

  ghost predicate ReaderOk(u: Setup, s: State, r: Reader) {
    r.Fetched? ==> Truthful(u, s.versions, r.key, Some(r.answer), r.epoch, r.readAt) && r.readAt <= s.clock
  }

  ghost predicate GivenOk(u: Setup, s: State, g: Given) {
    && Truthful(u, s.versions, g.key, g.answer, g.epoch, g.readAt)
    && g.at - CACHE_TTL_S - u.gap <= g.readAt <= g.at <= s.clock
  }

  ghost predicate Inv(u: Setup, s: State) {
    && s.versions[|s.versions| - 1].since <= s.clock
    && (forall k :: k in s.cache ==> EntryOk(u, s, k, s.cache[k]))
    && (forall a :: a in s.readers ==> ReaderOk(u, s, s.readers[a]))
    && (forall i :: 0 <= i < |s.answers| ==> GivenOk(u, s, s.answers[i]))
  }

  /** Time passes and at most one new version is committed. */
  ghost predicate Later(s: State, s': State) {
    && s.clock <= s'.clock && s.step <= s'.step
    && |s.versions| <= |s'.versions| <= |s.versions| + 1 && s'.versions[..|s.versions|] == s.versions
    && (|s'.versions| > |s.versions| ==> s'.versions[|s.versions|].since == s.clock)
  }

  lemma {:induction false} Carry(u: Setup, s: State, s': State)
    requires Inv(u, s) && Later(s, s')
    ensures forall k :: k in s.cache ==> EntryOk(u, s', k, s.cache[k])
    ensures forall a :: a in s.readers ==> ReaderOk(u, s', s.readers[a])
    ensures forall i :: 0 <= i < |s.answers| ==> GivenOk(u, s', s.answers[i])
  {
  }

  lemma {:induction false} NowTruthful(u: Setup, s: State, key: Key)
    requires s.versions[|s.versions| - 1].since <= s.clock
    ensures Truthful(u, s.versions, key, Lookup(u, Current(s), key.tenant, key.route), |s.versions| - 1, s.clock)
  {
  }

  lemma {:induction false} LaterSame(s: State, s': State)
    requires s'.versions == s.versions && s'.clock == s.clock && s.step <= s'.step
    ensures Later(s, s')
  {
  }

  /** What a fetch can do: nothing, a final None, or a filled reader. */
  lemma {:induction false} FetchAnswer(u: Setup, s: State, a: Agent)
    ensures
      var s', reader := DoFetch(u, s, a), ReaderOf(s, a);
      && s'.versions == s.versions && s'.clock == s.clock && s'.cache == s.cache
      && (s'.answers != s.answers ==> reader.Missed?)
      && (s'.answers != s.answers ==>
            var truth := Lookup(u, Current(s), reader.key.tenant, reader.key.route);
            s'.answers == s.answers + [Given(reader.key, truth, s.clock, |s.versions| - 1, s.clock)])
  {
  }

  lemma {:induction false} FetchKeeps(u: Setup, s: State, a: Agent)
    requires Inv(u, s) && u.gap >= 0.0
    ensures Inv(u, Ticked(DoFetch(u, s, a)))
  {
    hide Lookup, Truthful, EntryOk, Later;
    var s' := Ticked(DoFetch(u, s, a));
    if ReaderOf(s, a).Missed? { NowTruthful(u, s, ReaderOf(s, a).key); }
    LaterSame(s, s');
    Carry(u, s, s');
    FetchAnswer(u, s, a);
  }

  lemma {:induction false} CacheSetKeeps(u: Setup, s: State, a: Agent, reachable: bool)
    requires Inv(u, s) && u.gap >= 0.0
    ensures Inv(u, Ticked(DoCacheSet(u, s, a, reachable)))
  {
    hide Lookup, Truthful, Later;
    var s' := Ticked(DoCacheSet(u, s, a, reachable));
    LaterSame(s, s');
    Carry(u, s, s');
    if a in s.readers { assert ReaderOk(u, s', s.readers[a]); }
  }

  lemma {:induction false} CacheGetKeeps(u: Setup, s: State, a: Agent, key: Key, reachable: bool)
    requires Inv(u, s) && u.gap >= 0.0
    ensures Inv(u, Ticked(DoCacheGet(s, a, key, reachable)))
  {
  }

  /** A step that gives no answer, adds nothing to the cache and at most resets a reader. */
  ghost predicate Quiet(s: State, s': State) {
    && Later(s, s') && s'.answers == s.answers
    && (forall k :: k in s'.cache ==> k in s.cache && s'.cache[k] == s.cache[k])
    && (forall a :: a in s'.readers ==>
          s'.readers[a].Idle? || s'.readers[a].Missed? || (a in s.readers && s'.readers[a] == s.readers[a]))
    && s'.versions[|s'.versions| - 1].since <= s'.clock
  }

  lemma {:induction false} QuietKeeps(u: Setup, s: State, s': State)
    requires Inv(u, s) && Quiet(s, s')
    ensures Inv(u, s')
  {
    hide EntryOk, GivenOk, Later, Truthful;
    Carry(u, s, s');
  }

  lemma {:induction false} ActIsQuiet(u: Setup, s: State, l: Label)
    requires s.versions[|s.versions| - 1].since <= s.clock
    requires !l.CacheGet? && !l.Fetch? && !l.CacheSet?
    ensures Quiet(s, Apply(u, s, l))
  {
    hide Quiet, DoDeliver, DoScanEnd, DoDelete, DoUpdate, DoCommit, DoRollback, DoPublish;
    match l {
      case Commit(a) => CommitIsQuiet(s, a);
      case Update(a, tenant, id, rps, expected) => AdminIsQuiet(u, s, l);
      case Rollback(a) => AdminIsQuiet(u, s, l);
      case Publish(a, reachable) => AdminIsQuiet(u, s, l);
      case Pass(seconds) => PassIsQuiet(s, Apply(u, s, l));
      case Abandon(a) => AbandonIsQuiet(s, a);
      case Delete(a) => DeleteIsQuiet(s, a);
      case Deliver(a, msg) => ListenersAreQuiet(s, Ticked(DoDeliver(s, a, msg)));
      case ScanEnd(a, found) => ListenersAreQuiet(s, Ticked(DoScanEnd(s, a, found)));
      case Disconnect(a) => ListenersAreQuiet(s, Ticked(s.(listeners := s.listeners[a := Waiting])));
    }
  }

  lemma {:induction false} AdminIsQuiet(u: Setup, s: State, l: Label)
    requires s.versions[|s.versions| - 1].since <= s.clock && (l.Update? || l.Rollback? || l.Publish?)
    ensures Quiet(s, Apply(u, s, l))
  {
  }

  lemma {:induction false} PassIsQuiet(s: State, s': State)
    requires s.versions[|s.versions| - 1].since <= s.clock <= s'.clock
    requires s' == s.(clock := s'.clock, step := s.step + 1)
    ensures Quiet(s, s')
  {
    hide Later;
    PassIsLater(s, s');
  }

  lemma {:induction false} DeleteIsQuiet(s: State, a: Agent)
    requires s.versions[|s.versions| - 1].since <= s.clock
    ensures Quiet(s, Ticked(DoDelete(s, a)))
  {
    hide Later;
    LaterSame(s, Ticked(DoDelete(s, a)));
  }

  lemma {:induction false} AbandonIsQuiet(s: State, a: Agent)
    requires s.versions[|s.versions| - 1].since <= s.clock
    ensures Quiet(s, Ticked(s.(readers := s.readers[a := Idle])))
  {
    hide Later;
    LaterSame(s, Ticked(s.(readers := s.readers[a := Idle])));
  }

  lemma {:induction false} ListenersAreQuiet(s: State, s': State)
    requires s.versions[|s.versions| - 1].since <= s.clock
    requires s' == s.(listeners := s'.listeners, step := s.step + 1)
    ensures Quiet(s, s')
  {
    hide Later;
    LaterSame(s, s');
  }

  lemma {:induction false} PassIsLater(s: State, s': State)
    requires s'.versions == s.versions && s.clock <= s'.clock && s.step <= s'.step
    ensures Later(s, s')
  {
  }

  lemma {:induction false} CommitIsQuiet(s: State, a: Agent)
    requires s.versions[|s.versions| - 1].since <= s.clock
    ensures Quiet(s, Ticked(DoCommit(s, a)))
  {
  }

  lemma {:induction false} StepKeeps(u: Setup, s: State, l: Label)
    requires Inv(u, s) && u.gap >= 0.0
    ensures Inv(u, Apply(u, s, l))
  {
    hide EntryOk, ReaderOk, GivenOk, Quiet, Ticked, DoCacheGet, DoFetch, DoCacheSet;
    match l {
      case CacheGet(a, key, reachable) => CacheGetKeeps(u, s, a, key, reachable);
      case Fetch(a) => FetchKeeps(u, s, a);
      case CacheSet(a, reachable) => CacheSetKeeps(u, s, a, reachable);
      case _ =>
        ActIsQuiet(u, s, l);
        QuietKeeps(u, s, Apply(u, s, l));
    }
  }

  lemma {:induction false} RunKeeps(u: Setup, labels: seq<Label>)
    requires u.gap >= 0.0
    ensures Inv(u, Run(u, Init(u), labels))
  {
    if labels != [] {
      hide Inv, Apply;
      RunKeeps(u, labels[..|labels| - 1]);
      StepKeeps(u, Run(u, Init(u), labels[..|labels| - 1]), labels[|labels| - 1]);
    }
  }

  lemma {:induction false} RunFrom(u: Setup, s: State, labels: seq<Label>)
    requires Inv(u, s) && u.gap >= 0.0
    ensures Inv(u, Run(u, s, labels))
  {
    if labels != [] {
      hide Inv, Apply;
      RunFrom(u, s, labels[..|labels| - 1]);
      StepKeeps(u, Run(u, s, labels[..|labels| - 1]), labels[|labels| - 1]);
    }
  }

  /** The answer is the truth of some instant in [at - bound, at]. */
  ghost predicate TrueAt(u: Setup, versions: History, g: Given, epoch: nat, t: real) {
    && CurrentAt(versions, epoch, t)
    && var rows := versions[epoch].rows;
       g.answer == u.pick(map id | id in rows && rows[id].tenant == g.key.tenant :: rows[id], g.key.route)
  }

  lemma {:induction false} TruthIsByHand(u: Setup, versions: History, g: Given, epoch: nat, t: real)
    ensures Truthful(u, versions, g.key, g.answer, epoch, t) <==> TrueAt(u, versions, g, epoch, t)
  {
    if epoch < |versions| {
      var rows := versions[epoch].rows;
      assert OwnRows(rows, g.key.tenant) == map id | id in rows && rows[id].tenant == g.key.tenant :: rows[id];
    }
  }

  ghost predicate WithinAge(u: Setup, versions: History, g: Given, bound: real) {
    exists epoch: nat, t: real :: g.at - bound <= t <= g.at && TrueAt(u, versions, g, epoch, t)
  }

  /**
    Main result: every answer of every run is the source-of-truth answer of some instant in
    the last 10 s plus the read-to-set gap, whatever messages and cache calls were lost.
   */
  lemma {:induction false} StalenessBounded(u: Setup, labels: seq<Label>, i: nat)
    requires u.gap >= 0.0 && i < |Run(u, Init(u), labels).answers|
    ensures
      var s := Run(u, Init(u), labels);
      WithinAge(u, s.versions, s.answers[i], 10.0 + u.gap)
  {
    hide Run;
    RunKeeps(u, labels);
    var s := Run(u, Init(u), labels);
    var g := s.answers[i];
    assert GivenOk(u, s, g);
    assert g.at - (10.0 + u.gap) <= g.readAt <= g.at;
    TruthIsByHand(u, s.versions, g, g.epoch, g.readAt);
  }

  /**
    If the database answers `a` for this route on every set of the tenant's own rows, then so
    does every lookup of it in every run, whatever the database says for other routes.
   */
  lemma {:induction false} RouteDecides(u: Setup, labels: seq<Label>, t: Tenant, r: Route, a: Option<Answer>, i: nat)
    requires u.gap >= 0.0 && i < |Run(u, Init(u), labels).answers|
    requires forall rows: Rows :: (forall id :: id in rows ==> rows[id].tenant == t) ==> u.pick(rows, r) == a
    requires Run(u, Init(u), labels).answers[i].key == Key(t, r)
    ensures Run(u, Init(u), labels).answers[i].answer == a
  {
    hide Run;
    StalenessBounded(u, labels, i);
    var s := Run(u, Init(u), labels);
    var g := s.answers[i];
    var epoch: nat, at: real :| g.at - (10.0 + u.gap) <= at <= g.at && TrueAt(u, s.versions, g, epoch, at);
    var rows := s.versions[epoch].rows;
    var own := map id | id in rows && rows[id].tenant == t :: rows[id];
    assert forall id :: id in own ==> own[id].tenant == t;
  }

  // ----- the bound cannot be improved

  function OneRow(rows: Rows, r: Route): Option<Answer> {
    if r == "/proxy/get" && "p" in rows then Some(Answer(rows["p"].rps, rows["p"].windowS, rows["p"].version)) else None
  }

  /** The run: read, let an update commit, fill as late as allowed, and be served `h` before the entry expires. */
  function LateFill(gap: real, h: real): seq<Label> {
    [CacheGet("reader", LATE_KEY, true), Fetch("reader"), Update("admin", "t", "p", 2, 1), Commit("admin"),
     Pass(gap), CacheSet("reader", true), Pass(CACHE_TTL_S - h), CacheGet("reader", LATE_KEY, true)]
  }

  function LateSetup(gap: real): Setup {
    Setup(OneRow, LateRows(1, 1), gap)
  }

  lemma {:induction false} RunSnoc(u: Setup, s: State, labels: seq<Label>, n: nat)
    requires 0 < n <= |labels|
    ensures Run(u, s, labels[..n]) == Apply(u, Run(u, s, labels[..n - 1]), labels[n - 1])
  {
    hide Apply;
    assert labels[..n][..n - 1] == labels[..n - 1];
  }

  lemma {:induction false} UnrollFour(u: Setup, s: State, ls: seq<Label>)
    requires |ls| >= 4
    ensures Run(u, s, ls[..4]) == Apply(u, Apply(u, Apply(u, Apply(u, s, ls[0]), ls[1]), ls[2]), ls[3])
  {
    RunSnoc(u, s, ls, 1);
    RunSnoc(u, s, ls, 2);
    RunSnoc(u, s, ls, 3);
    RunSnoc(u, s, ls, 4);
    hide Apply;
  }

  lemma {:induction false} UnrollEight(u: Setup, s: State, ls: seq<Label>)
    requires |ls| == 8
    ensures Run(u, s, ls) == Apply(u, Apply(u, Apply(u, Apply(u, Run(u, s, ls[..4]), ls[4]), ls[5]), ls[6]), ls[7])
  {
    hide Run, Apply;
    RunSnoc(u, s, ls, 5);
    RunSnoc(u, s, ls, 6);
    RunSnoc(u, s, ls, 7);
    RunSnoc(u, s, ls, 8);
    assert ls[..8] == ls;
  }

  const LATE_KEY: Key := Key("t", "/proxy/get")

  function LateRows(rps: int, version: int): Rows {
    map["p" := Row("t", "/proxy/*", rps, 60, version)]
  }

  /** The reader has fetched and the update has committed. */
  lemma {:induction false} LateCommit(gap: real, h: real) returns (s: State)
    ensures s == Run(LateSetup(gap), Init(LateSetup(gap)), LateFill(gap, h)[..4])
    ensures s.clock == 0.0 && s.cache == map[] && s.answers == []
    ensures s.versions == [Version(LateRows(1, 1), 0.0), Version(LateRows(2, 2), 0.0)]
    ensures ReaderOf(s, "reader") == Fetched(LATE_KEY, Answer(1, 60, 1), 0, 0.0)
    ensures AdminOf(s, "admin") == Committed(Message("t", "p", 2)) && s.listeners == map[]
  {
    hide Run, Apply;
    var u, ls := LateSetup(gap), LateFill(gap, h);
    UnrollFour(u, Init(u), ls);
    var s2 := LateFetch(u, Init(u), ls[0], ls[1]);
    s := LateUpdate(u, s2);
  }

  lemma {:induction false} LateFetch(u: Setup, s0: State, l0: Label, l1: Label) returns (s2: State)
    requires u == LateSetup(u.gap) && s0 == Init(u) && l0 == CacheGet("reader", LATE_KEY, true) && l1 == Fetch("reader")
    ensures s2 == Apply(u, Apply(u, s0, l0), l1)
    ensures s2 == s0.(step := 2, readers := s2.readers)
    ensures ReaderOf(s2, "reader") == Fetched(LATE_KEY, Answer(1, 60, 1), 0, 0.0)
  {
    var s1 := Apply(u, s0, l0);
    assert ReaderOf(s1, "reader") == Missed(LATE_KEY);
    s2 := Apply(u, s1, l1);
    assert OwnRows(u.initial, "t") == u.initial;
  }

  lemma {:induction false} LateUpdate(u: Setup, s2: State) returns (s4: State)
    requires u == LateSetup(u.gap) && s2 == Init(u).(step := 2, readers := s2.readers)
    ensures s4 == Apply(u, Apply(u, s2, Update("admin", "t", "p", 2, 1)), Commit("admin"))
    ensures s4.clock == 0.0 && s4.cache == map[] && s4.answers == [] && s4.readers == s2.readers
    ensures s4.versions == [Version(LateRows(1, 1), 0.0), Version(LateRows(2, 2), 0.0)]
    ensures AdminOf(s4, "admin") == Committed(Message("t", "p", 2)) && s4.listeners == map[]
  {
    assert s2.versions == [Version(LateRows(1, 1), 0.0)];
    var s3 := Apply(u, s2, Update("admin", "t", "p", 2, 1));
    assert AdminOf(s3, "admin") == Locked("p", 2, 1) && s3.versions == s2.versions;
    s4 := Apply(u, s3, Commit("admin"));
    assert Current(s3)["p" := Current(s3)["p"].(rps := 2, version := 2)] == LateRows(2, 2);
  }

  /** The late fill is served `h` before it expires, the whole gap and the whole TTL after the read. */
  lemma {:induction false} LateServe(gap: real, h: real) returns (s: State)
    requires 0.0 <= gap && 0.0 < h < CACHE_TTL_S
    ensures s == Run(LateSetup(gap), Init(LateSetup(gap)), LateFill(gap, h))
    ensures s.versions == [Version(LateRows(1, 1), 0.0), Version(LateRows(2, 2), 0.0)]
    ensures |s.answers| == 2
    ensures s.answers[1] == Given(LATE_KEY, Some(Answer(1, 60, 1)), gap + CACHE_TTL_S - h, 0, 0.0)
  {
    hide Run, Apply;
    var u, ls := LateSetup(gap), LateFill(gap, h);
    var s4 := LateCommit(gap, h);
    UnrollEight(u, Init(u), ls);
    s := LateHit(u, s4, h);
  }

  lemma {:induction false} LateHit(u: Setup, s4: State, h: real) returns (s: State)
    requires 0.0 <= u.gap && 0.0 < h < CACHE_TTL_S && s4.clock == 0.0 && s4.cache == map[] && s4.answers == []
    requires ReaderOf(s4, "reader") == Fetched(LATE_KEY, Answer(1, 60, 1), 0, 0.0)
    ensures
      var filled := Apply(u, Apply(u, s4, Pass(u.gap)), CacheSet("reader", true));
      s == Apply(u, Apply(u, filled, Pass(CACHE_TTL_S - h)), CacheGet("reader", LATE_KEY, true))
    ensures s.versions == s4.versions
    ensures |s.answers| == 2
    ensures s.answers[1] == Given(LATE_KEY, Some(Answer(1, 60, 1)), u.gap + CACHE_TTL_S - h, 0, 0.0)
  {
    hide Apply;
    var s6 := LateStore(u, s4);
    var s7 := Apply(u, s6, Pass(CACHE_TTL_S - h));
    s := LateGet(u, s6, s7, h);
  }

  lemma {:induction false} LateStore(u: Setup, s4: State) returns (s6: State)
    requires 0.0 <= u.gap && s4.clock == 0.0 && s4.cache == map[] && s4.answers == []
    requires ReaderOf(s4, "reader") == Fetched(LATE_KEY, Answer(1, 60, 1), 0, 0.0)
    ensures s6 == Apply(u, Apply(u, s4, Pass(u.gap)), CacheSet("reader", true))
    ensures s6.clock == u.gap && s6.versions == s4.versions && |s6.answers| == 1 && ReaderOf(s6, "reader").Idle?
    ensures s6.cache == map[LATE_KEY := Entry(Answer(1, 60, 1), u.gap + CACHE_TTL_S, s4.step + 1, 0, 0.0)]
  {
    s6 := Apply(u, Apply(u, s4, Pass(u.gap)), CacheSet("reader", true));
  }

  lemma {:induction false} LateGet(u: Setup, s6: State, s7: State, h: real) returns (s: State)
    requires 0.0 < h < CACHE_TTL_S && s7 == Apply(u, s6, Pass(CACHE_TTL_S - h))
    requires s6.clock == u.gap && |s6.answers| == 1 && ReaderOf(s6, "reader").Idle?
    requires LATE_KEY in s6.cache
    requires var e := s6.cache[LATE_KEY];
      e.answer == Answer(1, 60, 1) && e.expireAt == u.gap + CACHE_TTL_S && e.epoch == 0 && e.readAt == 0.0
    ensures s == Apply(u, s7, CacheGet("reader", LATE_KEY, true)) && s.versions == s6.versions && |s.answers| == 2
    ensures s.answers[1] == Given(LATE_KEY, Some(Answer(1, 60, 1)), u.gap + CACHE_TTL_S - h, 0, 0.0)
  {
    s := Apply(u, s7, CacheGet("reader", LATE_KEY, true));
  }

  /** For any smaller bound some run gives an answer that was wrong for that whole time. */
  lemma {:induction false} GapBreaksBound(gap: real, bound: real) returns (labels: seq<Label>, i: nat)
    requires 0.0 <= gap && bound < 10.0 + gap
    ensures
      var u := LateSetup(gap);
      var s := Run(u, Init(u), labels);
      i < |s.answers| && !WithinAge(u, s.versions, s.answers[i], bound)
  {
    var slack := CACHE_TTL_S + gap - bound;
    var h := if slack < CACHE_TTL_S then slack / 2.0 else CACHE_TTL_S / 2.0;
    labels, i := LateFill(gap, h), 1;
    var s := LateServe(gap, h);
    var u, g := LateSetup(gap), s.answers[1];
    assert g.at - bound > 0.0;
    forall epoch: nat, t: real | g.at - bound <= t <= g.at
      ensures !TrueAt(u, s.versions, g, epoch, t)
    {
      TruthIsByHand(u, s.versions, g, epoch, t);
      if CurrentAt(s.versions, epoch, t) {
        assert epoch == 1;
        assert OwnRows(LateRows(2, 2), "t") == LateRows(2, 2);
      }
    }
  }

  /** Every answer of the run is the truth of some instant in the last `bound` seconds. */
  ghost predicate NeverOlder(u: Setup, labels: seq<Label>, bound: real) {
    var s := Run(u, Init(u), labels);
    forall i :: 0 <= i < |s.answers| ==> WithinAge(u, s.versions, s.answers[i], bound)
  }

  /** Main result: a bound holds for every system and every run exactly when it is at least the TTL plus the gap. */
  lemma {:induction false} StalenessIff(gap: real, bound: real)
    requires gap >= 0.0
    ensures 10.0 + gap <= bound <==>
      forall u: Setup, labels: seq<Label> :: u.gap == gap ==> NeverOlder(u, labels, bound)
  {
    if 10.0 + gap <= bound {
      forall u: Setup, labels: seq<Label> | u.gap == gap ensures NeverOlder(u, labels, bound) {
        AllWithin(u, labels, bound);
      }
    } else {
      var labels, i := GapBreaksBound(gap, bound);
      assert !NeverOlder(LateSetup(gap), labels, bound);
    }
  }

  lemma {:induction false} AllWithin(u: Setup, labels: seq<Label>, bound: real)
    requires u.gap >= 0.0 && 10.0 + u.gap <= bound
    ensures NeverOlder(u, labels, bound)
  {
    hide Run, Truthful;
    var s := Run(u, Init(u), labels);
    forall i | 0 <= i < |s.answers| ensures WithinAge(u, s.versions, s.answers[i], bound) {
      StalenessBounded(u, labels, i);
    }
  }

  /** So the documented ten seconds hold exactly when nothing passes between a read and its fill. */
  lemma {:induction false} TenSecondsIff(gap: real)
    requires gap >= 0.0
    ensures gap == 0.0 <==> forall u: Setup, labels: seq<Label> :: u.gap == gap ==> NeverOlder(u, labels, 10.0)
  {
    hide NeverOlder;
    StalenessIff(gap, 10.0);
  }
}
